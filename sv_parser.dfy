/**
 * `SVParser`: one `Parse` call reads chunks from the start of the source,
 * runs the tokenizer over them until a chunk comes back empty or the
 * character budget is exceeded, and returns the rows.
 *
 * The file and its decoding are abstracted as the sequence of chunks that
 * successive reads return: chunk `k` is what the read at position `k` yields,
 * and a read past the last chunk yields nothing.
 */
module SVParsing {
  import opened Wrappers
  import opened SVTokenizer

  /** Capacity of the character buffer of one read. */
  const BufferCapacity: nat := 8192
  /** Characters after which one `Parse` call stops reading. */
  const DefaultDataChunkSize: nat := 30000

  /** One read: the position after it, the count of characters and the characters. */
  datatype BufferInfo = BufferInfo(position: nat, readChars: nat, content: string)

  /** The read at `position` of the chunk source. */
  function ReadChunk(source: seq<string>, position: nat): (r: BufferInfo)
    ensures r.readChars == |r.content|
    ensures r.readChars == 0 <==> position >= |source| || source[position] == []
    ensures position < |source| ==> r.content == source[position] && r.position == position + 1
    ensures position >= |source| ==> r.position == position
  {
    if position < |source| then BufferInfo(position + 1, |source[position]|, source[position])
    else BufferInfo(position, 0, [])
  }

  /** How many chunks the read loop takes in, starting at chunk `k` with
      `total` characters already counted: it stops at an empty read, or
      right after the chunk that takes the count past `budget`. */
  function ChunksReadFrom(source: seq<string>, budget: nat, k: nat, total: nat): (n: nat)
    requires k <= |source|
    ensures k <= n <= |source|
    ensures n == k <==> k == |source| || |source[k]| == 0
    decreases |source| - k
  {
    if k == |source| || |source[k]| == 0 then k
    else if total + |source[k]| > budget then k + 1
    else ChunksReadFrom(source, budget, k + 1, total + |source[k]|)
  }

  /** One more chunk of the read loop. */
  lemma ChunksReadStep(source: seq<string>, budget: nat, k: nat, total: nat)
    requires k < |source| && |source[k]| > 0
    ensures ChunksReadFrom(source, budget, k, total) ==
              if total + |source[k]| > budget then k + 1 else ChunksReadFrom(source, budget, k + 1, total + |source[k]|)
  {
  }

  /** Where the read loop stops, from chunk `k` on: every chunk it takes in is
      non-empty, all but the last of them keep the count within the budget, and
      it stops before the end of the source only at an empty chunk or once the
      count has passed the budget. */
  lemma {:induction false} ReadLoopStops(source: seq<string>, budget: nat, k: nat, total: nat)
    requires k <= |source| && total == |Flatten(source[..k])| <= budget
    ensures var n := ChunksReadFrom(source, budget, k, total);
            (forall j :: k <= j < n ==> |source[j]| > 0)
            && (n > k ==> |Flatten(source[..n - 1])| <= budget)
            && (n < |source| && |source[n]| > 0 ==> |Flatten(source[..n])| > budget)
    decreases |source| - k
  {
    if k < |source| && |source[k]| > 0 {
      FlattenSnoc(source, k);
      if total + |source[k]| <= budget {
        ReadLoopStops(source, budget, k + 1, total + |source[k]|);
      }
    }
  }

  function ChunksRead(source: seq<string>, budget: nat): (n: nat)
    ensures n <= |source|
  {
    ChunksReadFrom(source, budget, 0, 0)
  }

  /** One `Parse` call reads non-empty chunks; all but the last of them stay
      within the budget, and it stops before the end of the source only at an
      empty chunk or once the count has passed the budget. */
  lemma BudgetStop(source: seq<string>, budget: nat)
    ensures var n := ChunksRead(source, budget);
            (forall j :: 0 <= j < n ==> |source[j]| > 0)
            && (n > 0 ==> |Flatten(source[..n - 1])| <= budget)
            && (n < |source| && |source[n]| > 0 ==> |Flatten(source[..n])| > budget)
  {
    assert source[..0] == [];
    ReadLoopStops(source, budget, 0, 0);
  }

  /** The characters one `Parse` call tokenizes. */
  function Consumed(source: seq<string>, budget: nat): string {
    Flatten(source[..ChunksRead(source, budget)])
  }

  /** Chunk `j` was tokenized to its end without an error. */
  ghost predicate ChunkCompleted(source: seq<string>, j: nat)
    requires j < |source|
  {
    Feed(Init, Flatten(source[..j + 1])).Ok?
  }

  /** Some chunk shorter than the buffer was tokenized to its end. */
  ghost predicate ShortChunkSeen(source: seq<string>, budget: nat) {
    exists j :: 0 <= j < ChunksRead(source, budget) && |source[j]| < BufferCapacity && ChunkCompleted(source, j)
  }

  /** The read loop ended by exceeding the budget, not by an empty read or an error. */
  ghost predicate StoppedByBudget(source: seq<string>, budget: nat) {
    |Consumed(source, budget)| > budget && Feed(Init, Consumed(source, budget)).Ok?
  }

  /** What one `Parse` call that starts before the end of data returns, and
      the `EndOfData` and `Position` it leaves behind. */
  datatype ParseOutcome = ParseOutcome(result: Result<seq<Row>, ParseError>, endOfData: bool, position: nat)

  ghost function ExpectedParse(source: seq<string>, budget: nat, oldPosition: nat): ParseOutcome {
    ParseOutcome(
      Tokenize(Consumed(source, budget)),
      ShortChunkSeen(source, budget),
      if StoppedByBudget(source, budget) then ChunksRead(source, budget) else oldPosition)
  }

  /** One of the first `k` chunks is shorter than the buffer. */
  ghost predicate ShortBefore(source: seq<string>, k: nat)
    requires k <= |source|
  {
    exists j :: 0 <= j < k && |source[j]| < BufferCapacity
  }

  lemma ShortBeforeSnoc(source: seq<string>, k: nat)
    requires k < |source|
    ensures ShortBefore(source, k + 1) == (ShortBefore(source, k) || |source[k]| < BufferCapacity)
  {
    if |source[k]| < BufferCapacity {
      assert 0 <= k < k + 1 && |source[k]| < BufferCapacity;
    }
  }

  lemma FlattenSnoc(chunks: seq<string>, k: nat)
    requires k < |chunks|
    ensures Flatten(chunks[..k + 1]) == Flatten(chunks[..k]) + chunks[k]
  {
    assert chunks[..k + 1][..k] == chunks[..k];
  }

  /** Chunks before one that completed have completed too. */
  lemma {:induction false} PrefixCompleted(source: seq<string>, j: nat, m: nat)
    requires j < m <= |source|
    requires Feed(Init, Flatten(source[..m])).Ok?
    ensures ChunkCompleted(source, j)
  {
    assert source[..m] == source[..j + 1] + source[j + 1..m];
    FlattenAppend(source[..j + 1], source[j + 1..m]);
    FeedAppend(Init, Flatten(source[..j + 1]), Flatten(source[j + 1..m]));
  }

  /** An error inside chunk `k` is also the outcome of feeding any longer
      run of whole chunks. */
  lemma ErrorReaches(source: seq<string>, k: nat, e: ParseError, j: nat)
    requires k <= j < |source|
    requires Feed(Init, Flatten(source[..k + 1])) == Err(e)
    ensures Feed(Init, Flatten(source[..j + 1])) == Err(e)
  {
    assert source[..j + 1] == source[..k + 1] + source[k + 1..j + 1];
    FlattenAppend(source[..k + 1], source[k + 1..j + 1]);
    FeedErrorSticks(Init, Flatten(source[..k + 1]), Flatten(source[k + 1..j + 1]));
  }

  /** An error inside chunk `k` is the outcome of the whole call; exactly the
      chunks before `k` completed, and the position is left alone. */
  lemma {:induction false} ErrorInChunk(source: seq<string>, budget: nat, k: nat, st: TokState, e: ParseError, p0: nat)
    requires k < ChunksRead(source, budget)
    requires Feed(Init, Flatten(source[..k])) == Ok(st)
    requires Feed(st, source[k]) == Err(e)
    ensures ExpectedParse(source, budget, p0) == ParseOutcome(Err(e), ShortBefore(source, k), p0)
  {
    FlattenSnoc(source, k);
    FeedAppend(Init, Flatten(source[..k]), source[k]);
    var n := ChunksRead(source, budget);
    forall j | 0 <= j < n
      ensures ChunkCompleted(source, j) <==> j < k
    {
      if j < k {
        PrefixCompleted(source, j, k);
      } else {
        ErrorReaches(source, k, e, j);
      }
    }
    ErrorReaches(source, k, e, n - 1);
  }

  /** Chunk `k`, taken from state `st` to `st'`: the facts about the first
      `k + 1` chunks that the read loop carries on. */
  lemma NextChunk(source: seq<string>, budget: nat, k: nat, total: nat, st: TokState, st': TokState)
    requires k < |source| && |source[k]| > 0
    requires total == |Flatten(source[..k])|
    requires Feed(Init, Flatten(source[..k])) == Ok(st)
    requires Feed(st, source[k]) == Ok(st')
    ensures Feed(Init, Flatten(source[..k + 1])) == Ok(st')
    ensures |Flatten(source[..k + 1])| == total + |source[k]|
    ensures ShortBefore(source, k + 1) == (ShortBefore(source, k) || |source[k]| < BufferCapacity)
    ensures ChunksReadFrom(source, budget, k, total) ==
              if total + |source[k]| > budget then k + 1 else ChunksReadFrom(source, budget, k + 1, total + |source[k]|)
  {
    FlattenSnoc(source, k);
    FeedAppend(Init, Flatten(source[..k]), source[k]);
    ShortBeforeSnoc(source, k);
    ChunksReadStep(source, budget, k, total);
  }

  /** The read loop ran through the `k` chunks the specification counts
      without an error: what is left is `Finish` on the final state. */
  lemma {:induction false} ReadLoopDone(source: seq<string>, budget: nat, k: nat, st: TokState, p0: nat)
    requires k == ChunksRead(source, budget)
    requires Feed(Init, Flatten(source[..k])) == Ok(st)
    ensures ExpectedParse(source, budget, p0) ==
              ParseOutcome(Finish(st), ShortBefore(source, k), if |Flatten(source[..k])| > budget then k else p0)
  {
    forall j | 0 <= j < k
      ensures ChunkCompleted(source, j)
    {
      PrefixCompleted(source, j, k);
    }
  }

  /** A source that starts with four full chunks: a call reads exactly those
      four (32768 characters, past the budget of 30000), never sees a short
      chunk, and so never reaches the end of data, whatever follows. Since
      every call starts again from the first chunk, each call returns the same
      rows. */
  lemma LongSourceNeverEnds(source: seq<string>)
    requires |source| >= 4
    requires forall j :: 0 <= j < 4 ==> |source[j]| == BufferCapacity
    ensures ChunksRead(source, DefaultDataChunkSize) == 4
    ensures Consumed(source, DefaultDataChunkSize) == Flatten(source[..4])
    ensures !ShortChunkSeen(source, DefaultDataChunkSize)
  {
    assert |source[0]| == 8192 && |source[1]| == 8192 && |source[2]| == 8192 && |source[3]| == 8192;
    calc {
      ChunksRead(source, DefaultDataChunkSize);
      ChunksReadFrom(source, 30000, 1, 8192);
      ChunksReadFrom(source, 30000, 2, 16384);
      ChunksReadFrom(source, 30000, 3, 24576);
      4;
    }
  }

  lemma {:induction false} FullChunksAllRead(source: seq<string>, budget: nat, k: nat)
    requires k <= |source| && BufferCapacity * |source| <= budget
    requires forall j :: 0 <= j < |source| ==> |source[j]| == BufferCapacity
    ensures ChunksReadFrom(source, budget, k, BufferCapacity * k) == |source|
    decreases |source| - k
  {
    if k < |source| {
      ChunksReadStep(source, budget, k, BufferCapacity * k);
      FullChunksAllRead(source, budget, k + 1);
    }
  }

  /** A source made of whole buffers that fits in the budget (a file of
      exactly 8192, 16384 or 24576 characters): a call reads all of it, the
      read after the last chunk comes back empty, and since no chunk was short
      the end of data is never reached. */
  lemma ExactBuffersNeverEnd(source: seq<string>)
    requires |source| <= 3
    requires forall j :: 0 <= j < |source| ==> |source[j]| == BufferCapacity
    ensures ChunksRead(source, DefaultDataChunkSize) == |source|
    ensures Consumed(source, DefaultDataChunkSize) == Flatten(source)
    ensures !ShortChunkSeen(source, DefaultDataChunkSize)
  {
    FullChunksAllRead(source, DefaultDataChunkSize, 0);
    assert source[..|source|] == source;
  }

  /** The parser of one SV source; `EndOfData` survives across calls. */
  class SVParser {
    /** The chunks that successive reads of the file return. */
    const source: seq<string>
    var endOfData: bool
    /** Written when a call stops at the budget; no call reads it. */
    var position: nat
    const dataChunkSize: nat

    constructor (source: seq<string>)
      ensures this.source == source
      ensures !endOfData && position == 0 && dataChunkSize == DefaultDataChunkSize
    {
      this.source := source;
      endOfData := false;
      position := 0;
      dataChunkSize := DefaultDataChunkSize;
    }

    function Read(position: nat): BufferInfo {
      ReadChunk(source, position)
    }

    /** Parse from the first chunk: fails at once after the end of data was
        seen; otherwise returns the tokenizer's outcome on the characters read,
        sets `endOfData` exactly when a short chunk was fully processed, and
        records the position only when the budget stopped the reading. */
    method Parse() returns (r: Result<seq<Row>, ParseError>)
      modifies this`endOfData, this`position
      ensures old(endOfData) ==> r == Err(EndOfStream) && endOfData && position == old(position)
      ensures !old(endOfData) ==>
                ParseOutcome(r, endOfData, position) == ExpectedParse(source, dataChunkSize, old(position))
    {
      if endOfData {
        return Err(EndOfStream);
      }
      var allReadChars := 0;
      var state := Init;
      var buffer := Read(0);
      ghost var k: nat := 0;
      ghost var budget := dataChunkSize;
      ghost var n := ChunksRead(source, budget);

      while buffer.readChars > 0
        invariant k <= n
        invariant buffer == Read(k)
        invariant allReadChars == |Flatten(source[..k])| <= budget
        invariant n == ChunksReadFrom(source, budget, k, allReadChars)
        invariant Feed(Init, Flatten(source[..k])) == Ok(state)
        invariant endOfData == ShortBefore(source, k)
        invariant position == old(position)
        decreases |source| - k
      {
        assert k < |source| && buffer.content[..buffer.readChars] == source[k];
        var next := ScanBuffer(state, buffer);
        if next.Err? {
          ErrorInChunk(source, budget, k, state, next.error, old(position));
          return Err(next.error);
        }
        NextChunk(source, budget, k, allReadChars, state, next.value);
        state := next.value;
        allReadChars := allReadChars + buffer.readChars;
        if buffer.readChars < BufferCapacity {
          endOfData := true;
        }
        if allReadChars > dataChunkSize {
          position := buffer.position;
          k := k + 1;
          break;
        }
        buffer := Read(buffer.position);
        k := k + 1;
      }
      // The loop has read exactly the chunks the specification counts.
      assert k == n;
      assert position == if allReadChars > budget then k else old(position);
      ReadLoopDone(source, budget, k, state, old(position));
      r := Ok(state.results);
      if state.field != "" {
        if !state.quoted || state.awaiting {
          r := Ok(state.results + [state.lineFields + [state.field]]);
        } else {
          r := Err(QuoteExpected(|state.results| + 1));
        }
      }
      assert r == Finish(state);
    }
  }

  /** An error at character `i` is the outcome of the whole text. */
  lemma StopsAt(s: TokState, text: string, i: nat)
    requires i < |text| && Feed(s, text[..i + 1]).Err?
    ensures Feed(s, text) == Feed(s, text[..i + 1])
  {
    assert text == text[..i + 1] + text[i + 1..];
    FeedErrorSticks(s, text[..i + 1], text[i + 1..]);
  }

  /** The inner loop of `Parse`: the characters of one buffer, one after the
      other, through the switch on delimiter, quote, carriage return, line
      feed and anything else, starting from the state `s` that the earlier
      buffers left. */
  method ScanBuffer(s: TokState, buffer: BufferInfo) returns (r: Result<TokState, ParseError>)
    requires buffer.readChars <= |buffer.content|
    ensures r == Feed(s, buffer.content[..buffer.readChars])
  {
    var isFieldQuoted, expectQuoteOrComma := s.quoted, s.awaiting;
    var field, lineFields, results := s.field, s.lineFields, s.results;
    ghost var text := buffer.content[..buffer.readChars];
    for i := 0 to buffer.readChars
      invariant Feed(s, text[..i]) == Ok(TokState(isFieldQuoted, expectQuoteOrComma, field, lineFields, results))
    {
      var c := buffer.content[i];
      ghost var before := TokState(isFieldQuoted, expectQuoteOrComma, field, lineFields, results);
      FeedSnoc(s, text[..i], c);
      assert text[..i + 1] == text[..i] + [c];
      if c == Delimiter {
        if !isFieldQuoted || expectQuoteOrComma {
          expectQuoteOrComma := false;
          isFieldQuoted := false;
          lineFields := lineFields + [field];
          field := "";
        } else {
          field := field + [c];
        }
      } else if c == Quote {
        if !isFieldQuoted {
          if field != "" {
            StopsAt(s, text, i);
            return Err(QuoteNotAllowed(|results| + 1));
          }
          isFieldQuoted := true;
        } else {
          if !expectQuoteOrComma {
            expectQuoteOrComma := true;
          } else {
            expectQuoteOrComma := false;
            field := field + [c];
          }
        }
      } else if c == CarriageReturn {
        if isFieldQuoted && !expectQuoteOrComma {
          field := field + [c];
        }
      } else if c == LineFeed {
        if field == "" {
          StopsAt(s, text, i);
          return Err(EmptyLine(|results| + 1));
        }
        if !isFieldQuoted || expectQuoteOrComma {
          if |results| > 0 && |results[0]| != |lineFields| + 1 {
            StopsAt(s, text, i);
            return Err(WrongFields(|results| + 1));
          }
          isFieldQuoted := false;
          expectQuoteOrComma := false;
          lineFields := lineFields + [field];
          results := results + [lineFields];
          field := "";
          lineFields := [];
        } else {
          field := field + [c];
        }
      } else {
        if IsWhiteSpace(c) {
          if expectQuoteOrComma {
            StopsAt(s, text, i);
            return Err(QuoteExpected(|results| + 1));
          }
          if isFieldQuoted {
            field := field + [c];
          }
        } else {
          if expectQuoteOrComma {
            StopsAt(s, text, i);
            return Err(QuoteExpected(|results| + 1));
          }
          field := field + [c];
        }
      }
      assert Step(before, c) == Ok(TokState(isFieldQuoted, expectQuoteOrComma, field, lineFields, results));
    }
    assert text[..buffer.readChars] == text;
    return Ok(TokState(isFieldQuoted, expectQuoteOrComma, field, lineFields, results));
  }
}
