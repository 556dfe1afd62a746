/**
 * The character-by-character state machine of the SV tokenizer, as a pure
 * transition function. The imperative `SVParsing.SVParser.Parse` is proved to
 * compute `Tokenize` over the characters it reads.
 */
module SVTokenizer {
  import opened Wrappers

  type Row = seq<string>

  const Delimiter: char := ','
  const Quote: char := '"'
  const CarriageReturn: char := '\r'
  const LineFeed: char := '\n'

  /** `Char.IsWhiteSpace`: the Unicode space, line and paragraph separators,
      U+0009 to U+000D and U+0085. */
  predicate IsWhiteSpace(c: char) {
    c == ' ' || ('\t' <= c <= '\r') || c == '\U{0085}' || c == '\U{00A0}' || c == '\U{1680}'
    || ('\U{2000}' <= c <= '\U{200A}') || c == '\U{2028}' || c == '\U{2029}'
    || c == '\U{202F}' || c == '\U{205F}' || c == '\U{3000}'
  }

  /** The structural errors, each with the 1-based row number the parser reports. */
  datatype ParseError =
    | QuoteNotAllowed(line: nat)
    | EmptyLine(line: nat)
    | WrongFields(line: nat)
    | QuoteExpected(line: nat)
    | EndOfStream

  /** The locals of one `Parse` call: the two quote flags, the field being
      built, the fields of the current row and the finished rows. */
  datatype TokState = TokState(
    quoted: bool,
    awaiting: bool,
    field: string,
    lineFields: seq<string>,
    results: seq<Row>)

  const Init: TokState := TokState(false, false, "", [], [])

  /** The number the parser gives the row it is working on. */
  function RowNumber(s: TokState): nat {
    |s.results| + 1
  }

  function Append(s: TokState, c: char): TokState {
    s.(field := s.field + [c])
  }

  /** One character of input, as the switch of the parser's inner loop. */
  function Step(s: TokState, c: char): Result<TokState, ParseError> {
    if c == Delimiter then
      if !s.quoted || s.awaiting then Ok(TokState(false, false, "", s.lineFields + [s.field], s.results))
      else Ok(Append(s, c))
    else if c == Quote then
      if !s.quoted then
        if s.field != "" then Err(QuoteNotAllowed(RowNumber(s))) else Ok(s.(quoted := true))
      else if !s.awaiting then Ok(s.(awaiting := true))
      else Ok(Append(s, c).(awaiting := false))
    else if c == CarriageReturn then
      if s.quoted && !s.awaiting then Ok(Append(s, c)) else Ok(s)
    else if c == LineFeed then
      if s.field == "" then Err(EmptyLine(RowNumber(s)))
      else if !s.quoted || s.awaiting then
        if |s.results| > 0 && |s.results[0]| != |s.lineFields| + 1 then Err(WrongFields(RowNumber(s)))
        else Ok(TokState(false, false, "", [], s.results + [s.lineFields + [s.field]]))
      else Ok(Append(s, c))
    else if IsWhiteSpace(c) then
      if s.awaiting then Err(QuoteExpected(RowNumber(s)))
      else if s.quoted then Ok(Append(s, c))
      else Ok(s)
    else
      if s.awaiting then Err(QuoteExpected(RowNumber(s)))
      else Ok(Append(s, c))
  }

  /** A step fails only on a quote, a line feed or after a closing quote, and
      reports the row being read; a step that succeeds keeps the finished rows
      and appends the current row only at a line feed. */
  lemma StepShape(s: TokState, c: char)
    ensures var r := Step(s, c);
            (r.Err? ==> (r.error == QuoteNotAllowed(RowNumber(s)) || r.error == EmptyLine(RowNumber(s))
                         || r.error == WrongFields(RowNumber(s)) || r.error == QuoteExpected(RowNumber(s)))
                        && (c == Quote || c == LineFeed || s.awaiting))
            && (r.Ok? ==> r.value.results == s.results
                          || (c == LineFeed && r.value.results == s.results + [s.lineFields + [s.field]]))
  {
  }

  /** The characters of `text`, one `Step` after another, stopping at the first error. */
  function Feed(s: TokState, text: string): Result<TokState, ParseError>
    decreases |text|
  {
    if text == [] then Ok(s)
    else
      match Step(s, text[0])
      case Err(e) => Err(e)
      case Ok(s') => Feed(s', text[1..])
  }

  /** Feeding keeps the finished rows, and an error reports the row being
      read, never one already finished. */
  lemma {:induction false} FeedShape(s: TokState, text: string)
    ensures var r := Feed(s, text);
            (r.Ok? ==> s.results <= r.value.results)
            && (r.Err? ==> !r.error.EndOfStream? && r.error.line >= RowNumber(s))
    decreases |text|
  {
    if text != [] {
      StepShape(s, text[0]);
      match Step(s, text[0])
      case Err(e) =>
      case Ok(t) => FeedShape(t, text[1..]);
    }
  }

  /** Continue feeding after an earlier outcome. */
  function FeedAfter(r: Result<TokState, ParseError>, text: string): Result<TokState, ParseError> {
    match r
    case Err(e) => Err(e)
    case Ok(s) => Feed(s, text)
  }

  /** What `Parse` does after its chunk loop with the field left over. */
  function Finish(s: TokState): (r: Result<seq<Row>, ParseError>)
    ensures r.Err? <==> s.field != "" && s.quoted && !s.awaiting
    ensures r.Err? ==> r.error == QuoteExpected(RowNumber(s))
    ensures r.Ok? ==> s.results <= r.value && |r.value| <= |s.results| + 1
  {
    if s.field == "" then Ok(s.results)
    else if !s.quoted || s.awaiting then Ok(s.results + [s.lineFields + [s.field]])
    else Err(QuoteExpected(RowNumber(s)))
  }

  /** The rows (or the error) one `Parse` call yields for the characters it reads. */
  function Tokenize(text: string): (r: Result<seq<Row>, ParseError>)
    ensures r.Err? ==> !r.error.EndOfStream? && r.error.line >= 1
  {
    FeedShape(Init, text);
    match Feed(Init, text)
    case Err(e) => Err(e)
    case Ok(s) => Finish(s)
  }

  /** All the characters of a sequence of chunks, in order. */
  function Flatten(chunks: seq<string>): (text: string)
    ensures |chunks| == 0 ==> text == []
  {
    if chunks == [] then [] else Flatten(chunks[..|chunks| - 1]) + chunks[|chunks| - 1]
  }

  /** Feeding chunk after chunk, each from the state the previous one left. */
  function FeedChunks(s: TokState, chunks: seq<string>): Result<TokState, ParseError>
    decreases |chunks|
  {
    if chunks == [] then Ok(s)
    else
      match Feed(s, chunks[0])
      case Err(e) => Err(e)
      case Ok(t) => FeedChunks(t, chunks[1..])
  }

  // ---------------------------------------------------------------------------
  // How feeding composes: the state lives across chunk boundaries.
  // ---------------------------------------------------------------------------

  /** Feeding `a` and then `b` is feeding `a + b`. */
  lemma {:induction false} FeedAppend(s: TokState, a: string, b: string)
    ensures Feed(s, a + b) == FeedAfter(Feed(s, a), b)
    decreases |a|
  {
    if a == [] {
      assert a + b == b;
    } else {
      assert (a + b)[0] == a[0];
      assert (a + b)[1..] == a[1..] + b;
      match Step(s, a[0])
      case Err(e) =>
      case Ok(s') => FeedAppend(s', a[1..], b);
    }
  }

  /** A single character is a single step. */
  lemma FeedOne(s: TokState, c: char)
    ensures Feed(s, [c]) == Step(s, c)
  {
  }

  /** One more character after a prefix. */
  lemma FeedSnoc(s: TokState, a: string, c: char)
    ensures Feed(s, a + [c]) == match Feed(s, a) case Err(e) => Err(e) case Ok(t) => Step(t, c)
  {
    FeedAppend(s, a, [c]);
    match Feed(s, a)
    case Err(e) =>
    case Ok(t) => FeedOne(t, c);
  }

  /** An error is final: nothing read after it changes the outcome. */
  lemma FeedErrorSticks(s: TokState, a: string, b: string)
    requires Feed(s, a).Err?
    ensures Feed(s, a + b) == Feed(s, a)
  {
    FeedAppend(s, a, b);
  }

  lemma FlattenAppend(a: seq<string>, b: seq<string>)
    ensures Flatten(a + b) == Flatten(a) + Flatten(b)
    decreases |b|
  {
    if b == [] {
      assert a + b == a;
    } else {
      assert (a + b)[..|a + b| - 1] == a + b[..|b| - 1];
      FlattenAppend(a, b[..|b| - 1]);
    }
  }

  /** Splitting the same characters into different chunks gives the same outcome. */
  lemma {:induction false} ChunkSplitInvariance(s: TokState, chunks: seq<string>)
    ensures FeedChunks(s, chunks) == Feed(s, Flatten(chunks))
    decreases |chunks|
  {
    if chunks != [] {
      assert chunks == [chunks[0]] + chunks[1..];
      FlattenAppend([chunks[0]], chunks[1..]);
      assert Flatten([chunks[0]]) == chunks[0] by {
        assert [chunks[0]][..0] == [];
      }
      FeedAppend(s, chunks[0], Flatten(chunks[1..]));
      match Feed(s, chunks[0])
      case Err(e) =>
      case Ok(t) => ChunkSplitInvariance(t, chunks[1..]);
    }
  }

  // ---------------------------------------------------------------------------
  // Rows: finished rows are never changed, and all but a trailing row have the
  // header's width.
  // ---------------------------------------------------------------------------

  /** Every row has as many fields as the first, and ends with a non-empty field. */
  ghost predicate WellShaped(rows: seq<Row>) {
    forall i :: 0 <= i < |rows| ==> |rows[i]| == |rows[0]| && |rows[i]| > 0 && rows[i][|rows[i]| - 1] != ""
  }

  /** Rows only ever get appended, and every appended row keeps the shape. */
  lemma {:induction false} FeedKeepsRows(s: TokState, text: string)
    requires WellShaped(s.results)
    ensures Feed(s, text).Ok? ==>
              WellShaped(Feed(s, text).value.results)
              && s.results <= Feed(s, text).value.results
    decreases |text|
  {
    if text != [] {
      match Step(s, text[0])
      case Err(e) =>
      case Ok(s') =>
        assert WellShaped(s'.results);
        FeedKeepsRows(s', text[1..]);
    }
  }
}
