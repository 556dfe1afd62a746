/**
 * What the tokenizer promises, stated over `Feed` and `Tokenize`: which
 * characters raise which error, what a quoted and an unquoted field keep,
 * that all rows but a trailing one match the header, and that a table
 * written with every field quoted reads back unchanged.
 */
module SVTokenizerProperties {
  import opened Wrappers
  import opened SVTokenizer

  // ---------------------------------------------------------------------------
  // Errors
  // ---------------------------------------------------------------------------

  /** A character the state machine rejects ends the whole call with that
      error, whatever follows it. */
  lemma {:induction false} ErrorIsFinal(t: string, c: char, rest: string, s: TokState, e: ParseError)
    requires Feed(Init, t) == Ok(s) && Step(s, c) == Err(e)
    ensures Tokenize(t + [c] + rest) == Err(e)
  {
    FeedSnoc(Init, t, c);
    FeedErrorSticks(Init, t + [c], rest);
  }

  /** A line feed while the current field is empty is the empty-line error,
      in any quote state: this covers `a,` and `""` at the end of a line. */
  lemma EmptyFieldAtLineFeed(t: string, rest: string, s: TokState)
    requires Feed(Init, t) == Ok(s) && s.field == ""
    ensures Tokenize(t + [LineFeed] + rest) == Err(EmptyLine(|s.results| + 1))
  {
    ErrorIsFinal(t, LineFeed, rest, s, EmptyLine(|s.results| + 1));
  }

  /** A row ended by a line feed whose field count differs from the header's
      is the wrong-field-count error, numbered after the rows so far. */
  lemma WrongFieldCount(t: string, rest: string, s: TokState)
    requires Feed(Init, t) == Ok(s) && s.field != "" && (!s.quoted || s.awaiting)
    requires |s.results| > 0 && |s.lineFields| + 1 != |s.results[0]|
    ensures Tokenize(t + [LineFeed] + rest) == Err(WrongFields(|s.results| + 1))
  {
    ErrorIsFinal(t, LineFeed, rest, s, WrongFields(|s.results| + 1));
  }

  /** A quote after unquoted content is refused. */
  lemma QuoteInsideUnquotedField(t: string, rest: string, s: TokState)
    requires Feed(Init, t) == Ok(s) && !s.quoted && s.field != ""
    ensures Tokenize(t + [Quote] + rest) == Err(QuoteNotAllowed(|s.results| + 1))
  {
    ErrorIsFinal(t, Quote, rest, s, QuoteNotAllowed(|s.results| + 1));
  }

  /** After a closing quote only a quote, a delimiter, a carriage return or a
      line feed may follow; anything else, white space included, is the
      quote-expected error. */
  lemma StrayCharacterAfterClosingQuote(t: string, c: char, rest: string, s: TokState)
    requires Feed(Init, t) == Ok(s) && s.awaiting
    requires c != Quote && c != Delimiter && c != CarriageReturn && c != LineFeed
    ensures Tokenize(t + [c] + rest) == Err(QuoteExpected(|s.results| + 1))
  {
    ErrorIsFinal(t, c, rest, s, QuoteExpected(|s.results| + 1));
  }

  // ---------------------------------------------------------------------------
  // Field contents
  // ---------------------------------------------------------------------------

  /** The characters of `t` without white space. */
  function DropWhiteSpace(t: string): (r: string)
    ensures |r| <= |t|
    ensures forall i :: 0 <= i < |r| ==> !IsWhiteSpace(r[i])
  {
    if t == [] then []
    else (if IsWhiteSpace(t[0]) then [] else [t[0]]) + DropWhiteSpace(t[1..])
  }

  /** Text without delimiter, quote or line feed. */
  predicate PlainText(t: string) {
    forall i :: 0 <= i < |t| ==> t[i] != Delimiter && t[i] != Quote && t[i] != LineFeed
  }

  /** Outside quotes, white space (carriage returns included) is dropped and
      every other plain character is kept. */
  lemma {:induction false} UnquotedFieldDropsWhiteSpace(s: TokState, t: string)
    requires !s.quoted && !s.awaiting && PlainText(t)
    ensures Feed(s, t) == Ok(s.(field := s.field + DropWhiteSpace(t)))
    decreases |t|
  {
    if t == [] {
      assert s.field + DropWhiteSpace(t) == s.field;
    } else {
      var c := t[0];
      assert PlainText(t[1..]) by {
        forall i | 0 <= i < |t[1..]| ensures t[1..][i] != Delimiter && t[1..][i] != Quote && t[1..][i] != LineFeed {
          assert t[1..][i] == t[i + 1];
        }
      }
      var next := if IsWhiteSpace(c) then s else Append(s, c);
      assert Step(s, c) == Ok(next);
      assert Feed(s, t) == Feed(next, t[1..]);
      if IsWhiteSpace(c) {
        UnquotedFieldDropsWhiteSpace(s, t[1..]);
        assert DropWhiteSpace(t) == [] + DropWhiteSpace(t[1..]) == DropWhiteSpace(t[1..]);
      } else {
        UnquotedFieldDropsWhiteSpace(next, t[1..]);
        assert s.field + DropWhiteSpace(t) == next.field + DropWhiteSpace(t[1..]);
      }
    }
  }

  /** Each quote doubled: how a writer puts `x` inside quotes. */
  function Escape(x: string): (r: string)
    ensures |r| >= |x|
  {
    if x == [] then []
    else (if x[0] == Quote then [Quote, Quote] else [x[0]]) + Escape(x[1..])
  }

  /** A field that does not begin with a line feed. */
  predicate NoLeadingLineFeed(x: string) {
    x == [] || x[0] != LineFeed
  }

  /** Inside quotes two quotes give one, and delimiters, carriage returns, line
      feeds and white space are kept as they are, so the escaped text adds
      exactly `x` to the field. The only exception is a line feed while the
      field is still empty, which is the empty-line error. */
  lemma {:induction false} QuotedFieldKeepsEverything(s: TokState, x: string)
    requires s.quoted && !s.awaiting
    requires s.field != [] || NoLeadingLineFeed(x)
    ensures Feed(s, Escape(x)) == Ok(s.(field := s.field + x))
    decreases |x|
  {
    if x == [] {
      assert s.field + x == s.field;
    } else {
      var c := x[0];
      assert x == [c] + x[1..];
      var head := if c == Quote then [Quote, Quote] else [c];
      assert Escape(x) == head + Escape(x[1..]);
      FeedAppend(s, head, Escape(x[1..]));
      var next := Append(s, c);
      if c == Quote {
        assert Step(s, Quote) == Ok(s.(awaiting := true));
        assert Step(s.(awaiting := true), Quote) == Ok(next);
        assert head == [Quote] + [Quote];
        FeedAppend(s, [Quote], [Quote]);
        FeedOne(s, Quote);
        FeedOne(s.(awaiting := true), Quote);
      } else {
        assert Step(s, c) == Ok(next);
        FeedOne(s, c);
      }
      assert Feed(s, head) == Ok(next);
      QuotedFieldKeepsEverything(next, x[1..]);
      assert next.field + x[1..] == s.field + x;
    }
  }

  /** Two quotes inside a quoted field stand for one literal quote. */
  lemma DoubledQuote(s: TokState)
    requires s.quoted && !s.awaiting
    ensures Feed(s, [Quote, Quote]) == Ok(s.(field := s.field + [Quote]))
  {
    assert Escape([Quote]) == [Quote, Quote];
    QuotedFieldKeepsEverything(s, [Quote]);
  }

  /** State at the start of a field. */
  predicate AtFieldStart(s: TokState) {
    !s.quoted && !s.awaiting && s.field == ""
  }

  // ---------------------------------------------------------------------------
  // Rows against the header
  // ---------------------------------------------------------------------------

  /** Every row `Parse` finishes at a line feed has the header's field count
      and a non-empty last field; only a trailing row without a line feed
      escapes the check. With a final line feed, every row matches. */
  lemma RowsMatchHeader(text: string)
    ensures Tokenize(text).Ok? ==>
              var rows := Tokenize(text).value;
              forall i :: 0 <= i < |rows| - 1 ==> |rows[i]| == |rows[0]| && |rows[i]| > 0 && rows[i][|rows[i]| - 1] != ""
    ensures Tokenize(text).Ok? && text != [] && text[|text| - 1] == LineFeed ==> WellShaped(Tokenize(text).value)
  {
    FeedKeepsRows(Init, text);
    if Tokenize(text).Ok? && text != [] && text[|text| - 1] == LineFeed {
      var t := text[..|text| - 1];
      assert text == t + [LineFeed];
      FeedSnoc(Init, t, LineFeed);
      var s := Feed(Init, t).value;
      if s.quoted && !s.awaiting {
        // The line feed went into the open field, which the end then rejects.
        assert Feed(Init, text) == Ok(Append(s, LineFeed));
      } else {
        assert Feed(Init, text).value.field == "";
      }
    }
  }

  /** A line feed outside an open quote ends the row: the field closes the
      row, the row is appended to the results, and the flags, the field and
      the row's fields start over. */
  lemma LineFeedEndsRow(t: string, rest: string, s: TokState)
    requires Feed(Init, t) == Ok(s) && s.field != "" && (!s.quoted || s.awaiting)
    requires s.results == [] || |s.results[0]| == |s.lineFields| + 1
    ensures Feed(Init, t + [LineFeed] + rest)
            == Feed(TokState(false, false, "", [], s.results + [s.lineFields + [s.field]]), rest)
  {
    FeedSnoc(Init, t, LineFeed);
    FeedAppend(Init, t + [LineFeed], rest);
  }

  /** What the end of the input does with the state left over: an empty field
      adds nothing (fields already closed on that line are dropped with it),
      a field outside an open quote becomes a last row, and a field still
      inside an open quote is the quote-expected error. */
  lemma EndOfInput(t: string, s: TokState)
    requires Feed(Init, t) == Ok(s)
    ensures s.field == "" ==> Tokenize(t) == Ok(s.results)
    ensures s.field != "" && (!s.quoted || s.awaiting) ==> Tokenize(t) == Ok(s.results + [s.lineFields + [s.field]])
    ensures s.field != "" && s.quoted && !s.awaiting ==> Tokenize(t) == Err(QuoteExpected(|s.results| + 1))
  {
    assert Tokenize(t) == Finish(s);
  }

  /** The trailing row of a source that does not end with a line feed is
      returned without comparing it to the header: after any complete rows,
      a last line of plain text comes back as a one-field row whatever the
      header's width. */
  lemma TrailingRowIsNotChecked(t: string, s: TokState, x: string)
    requires Feed(Init, t) == Ok(s) && AtFieldStart(s) && s.lineFields == []
    requires PlainText(x) && DropWhiteSpace(x) != []
    ensures Tokenize(t + x) == Ok(s.results + [[DropWhiteSpace(x)]])
  {
    FeedAppend(Init, t, x);
    UnquotedFieldDropsWhiteSpace(s, x);
    assert s.field + DropWhiteSpace(x) == DropWhiteSpace(x);
    assert s.lineFields + [DropWhiteSpace(x)] == [DropWhiteSpace(x)];
  }

  // ---------------------------------------------------------------------------
  // Writing a table with every field quoted, then reading it back
  // ---------------------------------------------------------------------------

  function EncodeField(x: string): string {
    [Quote] + Escape(x) + [Quote]
  }

  function EncodeFields(fields: seq<string>): string
    requires |fields| > 0
  {
    if |fields| == 1 then EncodeField(fields[0])
    else EncodeField(fields[0]) + [Delimiter] + EncodeFields(fields[1..])
  }

  function EncodeTable(rows: seq<Row>): string
    requires forall i :: 0 <= i < |rows| ==> |rows[i]| > 0
  {
    if rows == [] then [] else EncodeFields(rows[0]) + [LineFeed] + EncodeTable(rows[1..])
  }

  /** The rows a writer can hand to this reader: one width, a non-empty last
      field in each row, and no field starting with a line feed. */
  ghost predicate Encodable(rows: seq<Row>) {
    WellShaped(rows)
    && forall i, j :: 0 <= i < |rows| && 0 <= j < |rows[i]| ==> NoLeadingLineFeed(rows[i][j])
  }

  lemma FieldRoundTrip(s: TokState, x: string)
    requires AtFieldStart(s) && NoLeadingLineFeed(x)
    ensures Feed(s, EncodeField(x)) == Ok(s.(quoted := true, awaiting := true, field := x))
  {
    var inQuotes := s.(quoted := true);
    assert Step(s, Quote) == Ok(inQuotes);
    FeedOne(s, Quote);
    FeedAppend(s, [Quote], Escape(x));
    QuotedFieldKeepsEverything(inQuotes, x);
    assert inQuotes.field + x == x;
    FeedAppend(s, [Quote] + Escape(x), [Quote]);
    FeedOne(inQuotes.(field := x), Quote);
  }

  /** The fields of one row and its line feed, read from the start of a row
      that already holds `s.lineFields`. */
  lemma {:induction false} FieldsRoundTrip(s: TokState, fields: seq<string>)
    requires AtFieldStart(s) && |fields| > 0
    requires fields[|fields| - 1] != ""
    requires forall j :: 0 <= j < |fields| ==> NoLeadingLineFeed(fields[j])
    requires s.results == [] || |s.results[0]| == |s.lineFields| + |fields|
    ensures Feed(s, EncodeFields(fields) + [LineFeed]) == Ok(TokState(false, false, "", [], s.results + [s.lineFields + fields]))
    decreases |fields|
  {
    FieldRoundTrip(s, fields[0]);
    var closed := s.(awaiting := true, field := fields[0], quoted := true);
    if |fields| == 1 {
      FeedAppend(s, EncodeField(fields[0]), [LineFeed]);
      assert fields == [fields[0]];
      assert Step(closed, LineFeed) == Ok(TokState(false, false, "", [], s.results + [s.lineFields + fields]));
      FeedOne(closed, LineFeed);
    } else {
      var next := TokState(false, false, "", s.lineFields + [fields[0]], s.results);
      assert Step(closed, Delimiter) == Ok(next);
      FeedOne(closed, Delimiter);
      FeedAppend(s, EncodeField(fields[0]), [Delimiter]);
      FieldsRoundTrip(next, fields[1..]);
      assert next.lineFields + fields[1..] == s.lineFields + fields;
      assert EncodeFields(fields) + [LineFeed] == (EncodeField(fields[0]) + [Delimiter]) + (EncodeFields(fields[1..]) + [LineFeed]);
      FeedAppend(s, EncodeField(fields[0]) + [Delimiter], EncodeFields(fields[1..]) + [LineFeed]);
    }
  }

  lemma {:induction false} TableRoundTrip(done: seq<Row>, rows: seq<Row>)
    requires Encodable(done + rows)
    requires forall i :: 0 <= i < |rows| ==> |rows[i]| > 0
    ensures Feed(TokState(false, false, "", [], done), EncodeTable(rows)) == Ok(TokState(false, false, "", [], done + rows))
    decreases |rows|
  {
    var all := done + rows;
    if rows == [] {
      assert done + rows == done;
    } else {
      assert rows[0] == all[|done|];
      var s := TokState(false, false, "", [], done);
      assert |rows[0]| > 0 && rows[0][|rows[0]| - 1] != "";
      assert done != [] ==> done[0] == all[0];
      forall j | 0 <= j < |rows[0]| ensures NoLeadingLineFeed(rows[0][j]) {
        assert rows[0][j] == all[|done|][j];
      }
      FieldsRoundTrip(s, rows[0]);
      assert [] + rows[0] == rows[0];
      assert (done + [rows[0]]) + rows[1..] == all;
      TableRoundTrip(done + [rows[0]], rows[1..]);
      FeedAppend(s, EncodeFields(rows[0]) + [LineFeed], EncodeTable(rows[1..]));
    }
  }

  /** A table whose every field is written in quotes, with quotes doubled,
      reads back field for field: delimiters, quotes, carriage returns, line
      feeds and white space inside the fields survive. */
  lemma EncodedTableReadsBack(rows: seq<Row>)
    requires Encodable(rows)
    ensures Tokenize(EncodeTable(rows)) == Ok(rows)
  {
    assert [] + rows == rows;
    TableRoundTrip([], rows);
  }
}
