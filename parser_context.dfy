/**
 * `ParserContext`: the facade over the parser. It keeps an optional filter
 * (a column name and a value), and `Load` parses, keeps the header plus the
 * rows whose filter column holds the value (ignoring case), and lays the rows
 * out as fixed-width text cells.
 */
module TableFormat {
  import opened Wrappers
  import opened SVTokenizer
  import opened SVParsing

  // ---------------------------------------------------------------------------
  // Strings: null-or-white-space, lower case, first index
  // ---------------------------------------------------------------------------

  /** `string.IsNullOrWhiteSpace`, with `None` for null. */
  predicate IsNullOrWhiteSpace(s: Option<string>) {
    s.None? || forall i :: 0 <= i < |s.value| ==> IsWhiteSpace(s.value[i])
  }

  /** `string.IsNullOrEmpty`, with `None` for null. */
  predicate IsNullOrEmpty(s: Option<string>) {
    s.None? || s.value == []
  }

  /** What the constructor keeps of a filter argument: nothing when it is
      null, empty or all white space, the argument itself otherwise. */
  function StoredFilter(arg: Option<string>): (r: Option<string>)
    ensures r.Some? <==> !IsNullOrWhiteSpace(arg)
    ensures r.Some? ==> r == arg && r.value != []
  {
    if IsNullOrWhiteSpace(arg) then None else arg
  }

  predicate IsUpper(c: char) {
    'A' <= c <= 'Z'
  }

  function LowerChar(c: char): char {
    if IsUpper(c) then (c as int + 32) as char else c
  }

  /** `ToLowerInvariant` on the letters A to Z. */
  function Lower(s: string): (r: string)
    ensures |r| == |s|
    ensures forall i :: 0 <= i < |s| ==> r[i] == LowerChar(s[i])
  {
    seq(|s|, i requires 0 <= i < |s| => LowerChar(s[i]))
  }

  /** The header as the filter sees it: every name in lower case. */
  function LowerAll(names: seq<string>): (r: seq<string>)
    ensures |r| == |names|
    ensures forall i :: 0 <= i < |names| ==> r[i] == Lower(names[i])
  {
    seq(|names|, i requires 0 <= i < |names| => Lower(names[i]))
  }

  /** Comparison that ignores the case of A to Z. */
  predicate EqualsIgnoreCase(a: string, b: string) {
    Lower(a) == Lower(b)
  }

  /** Lower-cased text has no upper-case letter. */
  lemma LowerHasNoUpper(s: string, i: nat)
    requires i < |s|
    ensures !IsUpper(Lower(s)[i])
  {
  }

  /** `List.IndexOf`: the first position holding `x`, or -1. */
  function IndexOf(xs: seq<string>, x: string): (r: int)
    ensures -1 <= r < |xs|
    ensures r == -1 <==> x !in xs
    ensures 0 <= r ==> xs[r] == x && x !in xs[..r]
  {
    if xs == [] then -1
    else if xs[0] == x then 0
    else
      var k := IndexOf(xs[1..], x);
      if k == -1 then -1
      else
        assert xs[..k + 1] == [xs[0]] + xs[1..][..k];
        k + 1
  }

  // ---------------------------------------------------------------------------
  // Filtering
  // ---------------------------------------------------------------------------

  datatype LoadError =
    | ParseFailed(error: ParseError)
      /** A row too short to hold the filter column. */
    | ColumnOutOfRange

  /** The condition under which `Load` filters: both filter strings present
      and non-empty, at least one row, and the filter column, exactly as
      given, among the lower-cased header names. */
  predicate FilterEnabled(column: Option<string>, value: Option<string>, data: seq<Row>)
    ensures FilterEnabled(column, value, data) ==>
              column.Some? && value.Some? && |data| > 0 &&
              var idx := IndexOf(LowerAll(data[0]), column.value);
              0 <= idx < |data[0]| && Lower(data[0][idx]) == column.value && value.value != []
  {
    !IsNullOrEmpty(column) && !IsNullOrEmpty(value) && |data| > 0 && column.value in LowerAll(data[0])
  }

  /** A filter column holding an upper-case letter never matches the
      lower-cased header, so it never switches filtering on. */
  lemma UpperCaseColumnNeverFilters(column: string, i: nat, value: Option<string>, data: seq<Row>)
    requires i < |column| && IsUpper(column[i])
    ensures !FilterEnabled(Some(column), value, data)
  {
    if |data| > 0 && column in LowerAll(data[0]) {
      var k :| 0 <= k < |data[0]| && LowerAll(data[0])[k] == column;
      LowerHasNoUpper(data[0][k], i);
    }
  }

  /** Some row has no field at `idx`. */
  predicate HasShortRow(rows: seq<Row>, idx: nat) {
    exists i :: 0 <= i < |rows| && |rows[i]| <= idx
  }

  /** `xs` is `ys` with some elements left out, the rest kept in order. */
  predicate Subsequence(xs: seq<Row>, ys: seq<Row>)
    decreases |ys|
  {
    xs == [] || (ys != [] && ((xs[0] == ys[0] && Subsequence(xs[1..], ys[1..])) || Subsequence(xs, ys[1..])))
  }

  /** The rows whose field `idx` equals `value` ignoring case, in order; a row
      without that field makes the whole selection fail. */
  function Matching(rows: seq<Row>, idx: nat, value: string): (r: Result<seq<Row>, LoadError>)
    ensures r.Err? <==> HasShortRow(rows, idx)
    ensures r.Err? ==> r.error == ColumnOutOfRange
    ensures r.Ok? ==> |r.value| <= |rows| && Subsequence(r.value, rows)
    ensures r.Ok? ==> forall row :: row in r.value ==> row in rows && idx < |row| && EqualsIgnoreCase(row[idx], value)
    ensures r.Ok? ==> forall i :: 0 <= i < |rows| && idx < |rows[i]| && EqualsIgnoreCase(rows[i][idx], value) ==> rows[i] in r.value
  {
    if rows == [] then Ok([])
    else if |rows[0]| <= idx then Err(ColumnOutOfRange)
    else
      match Matching(rows[1..], idx, value)
      case Err(e) =>
        assert HasShortRow(rows, idx) by {
          var i :| 0 <= i < |rows[1..]| && |rows[1..][i]| <= idx;
          assert rows[i + 1] == rows[1..][i];
        }
        Err(e)
      case Ok(rest) =>
        assert !HasShortRow(rows, idx) by {
          forall i | 0 <= i < |rows| ensures |rows[i]| > idx {
            if i > 0 {
              assert rows[i] == rows[1..][i - 1];
            }
          }
        }
        assert forall i :: 1 <= i < |rows| ==> rows[i] == rows[1..][i - 1];
        if EqualsIgnoreCase(rows[0][idx], value) then
          assert ([rows[0]] + rest)[1..] == rest;
          Ok([rows[0]] + rest)
        else
          assert [] + rest == rest;
          Ok(rest)
  }

  /** The filter keeps `row`: it has field `idx`, and that field equals `value` ignoring case. */
  predicate Selected(row: Row, idx: nat, value: string) {
    idx < |row| && EqualsIgnoreCase(row[idx], value)
  }

  /** Counts are kept when one more row is put in front. */
  lemma CountsCons(first: Row, tail: seq<Row>, rest: seq<Row>, idx: nat, value: string)
    requires forall row :: multiset(rest)[row] == if Selected(row, idx, value) then multiset(tail)[row] else 0
    ensures var kept := if Selected(first, idx, value) then [first] + rest else rest;
            forall row :: multiset(kept)[row] == if Selected(row, idx, value) then multiset([first] + tail)[row] else 0
  {
    assert multiset([first] + tail) == multiset{first} + multiset(tail);
    assert multiset([first] + rest) == multiset{first} + multiset(rest);
  }

  /** Every matching row is kept as many times as it occurs, every other row
      not at all. */
  lemma {:induction false} MatchingCounts(rows: seq<Row>, idx: nat, value: string)
    requires Matching(rows, idx, value).Ok?
    ensures var kept := Matching(rows, idx, value).value;
            forall row :: multiset(kept)[row] == if Selected(row, idx, value) then multiset(rows)[row] else 0
    decreases |rows|
  {
    if rows != [] {
      var rest := Matching(rows[1..], idx, value).value;
      MatchingCounts(rows[1..], idx, value);
      assert rows == [rows[0]] + rows[1..];
      CountsCons(rows[0], rows[1..], rest, idx, value);
    }
  }

  /** Selecting again from a selection changes nothing. */
  lemma {:induction false} MatchingIdempotent(rows: seq<Row>, idx: nat, value: string)
    requires Matching(rows, idx, value).Ok?
    ensures Matching(Matching(rows, idx, value).value, idx, value) == Matching(rows, idx, value)
    decreases |rows|
  {
    if rows != [] {
      assert |rows[0]| > idx;
      var tail := Matching(rows[1..], idx, value);
      assert tail.Ok?;
      var rest := tail.value;
      MatchingIdempotent(rows[1..], idx, value);
      assert Matching(rest, idx, value) == Ok(rest);
      if EqualsIgnoreCase(rows[0][idx], value) {
        var kept := [rows[0]] + rest;
        assert Matching(rows, idx, value) == Ok(kept);
        assert kept[0] == rows[0] && kept[1..] == rest;
        assert Matching(kept, idx, value) == Ok([rows[0]] + rest);
      } else {
        assert [] + rest == rest;
        assert Matching(rows, idx, value) == Ok(rest);
      }
    }
  }

  /** `FilterData`: the header, then every row (the header included) whose
      filter column equals the filter value ignoring case. The column is the
      first header name whose lower case is `column`. */
  function FilterData(data: seq<Row>, column: string, value: string): (r: Result<seq<Row>, LoadError>)
    requires |data| > 0 && column in LowerAll(data[0])
    ensures var idx := IndexOf(LowerAll(data[0]), column);
            0 <= idx < |data[0]| && Lower(data[0][idx]) == column
            && (r.Err? <==> HasShortRow(data, idx))
            && (r.Err? ==> r.error == ColumnOutOfRange)
            && (r.Ok? ==>
                  1 <= |r.value| <= |data| + 1 && r.value[0] == data[0] && Subsequence(r.value[1..], data)
                  && (forall row :: row in r.value[1..] ==> row in data && idx < |row| && EqualsIgnoreCase(row[idx], value))
                  && (forall i :: 0 <= i < |data| && idx < |data[i]| && EqualsIgnoreCase(data[i][idx], value) ==> data[i] in r.value[1..])
                  && (forall row :: multiset(r.value[1..])[row] == if Selected(row, idx, value) then multiset(data)[row] else 0))
  {
    var idx := IndexOf(LowerAll(data[0]), column);
    match Matching(data, idx, value)
    case Err(e) => Err(e)
    case Ok(kept) =>
      MatchingCounts(data, idx, value);
      assert ([data[0]] + kept)[1..] == kept;
      Ok([data[0]] + kept)
  }

  /** The header row is a row like any other for the filter: when its own
      filter column matches the value, it comes out twice. */
  lemma HeaderRepeatedWhenItMatches(data: seq<Row>, column: string, value: string)
    requires |data| > 0 && column in LowerAll(data[0])
    requires !HasShortRow(data, IndexOf(LowerAll(data[0]), column))
    requires EqualsIgnoreCase(column, value)
    ensures var out := FilterData(data, column, value).value;
            |out| >= 2 && out[0] == data[0] && out[1] == data[0]
  {
    var idx := IndexOf(LowerAll(data[0]), column);
    assert Lower(data[0][idx]) == column;
    assert Lower(column) == column by {
      forall i | 0 <= i < |column| ensures LowerChar(column[i]) == column[i] {
        LowerHasNoUpper(data[0][idx], i);
      }
    }
    assert EqualsIgnoreCase(data[0][idx], value);
    var rest := Matching(data[1..], idx, value).value;
    assert Matching(data, idx, value).value == [data[0]] + rest;
  }

  /** Rows of one width, as a source ending in a line feed yields, never make
      the filter fail. */
  lemma WellShapedFilterSucceeds(data: seq<Row>, column: string, value: string)
    requires |data| > 0 && column in LowerAll(data[0])
    ensures WellShaped(data) ==> FilterData(data, column, value).Ok?
  {
    if !WellShaped(data) {
      return;
    }
    var idx := IndexOf(LowerAll(data[0]), column);
    assert !HasShortRow(data, idx) by {
      forall i | 0 <= i < |data| ensures |data[i]| > idx {
        assert |data[i]| == |data[0]|;
      }
    }
  }

  // ---------------------------------------------------------------------------
  // Layout
  // ---------------------------------------------------------------------------

  /** Width of every cell, and the prefix kept of a long field. */
  const CellWidth: nat := 20
  const ShortPrefix: nat := 14
  /** What `AppendLine` ends each row with. */
  const NewLine: string := "\n"

  function Spaces(n: nat): string {
    seq(n, _ => ' ')
  }

  /** The alignment `{0,-20}`: left-aligned, padded with spaces to the width,
      never cut. */
  function PadRight(s: string, width: nat): string {
    if |s| < width then s + Spaces(width - |s|) else s
  }

  /** Padding keeps the text, adds only spaces, and reaches the width. */
  lemma PadRightShape(s: string, width: nat)
    ensures var r := PadRight(s, width);
            |r| == (if |s| < width then width else |s|)
            && r[..|s|] == s
            && forall i :: |s| <= i < |r| ==> r[i] == ' '
  {
    if |s| < width {
      assert PadRight(s, width)[..|s|] == s;
    }
  }

  /** One field as a cell: `|field|` when the field has fewer than 20
      characters, otherwise its first 14 characters followed by `...|`; then
      padded to 20 columns. */
  function Cell(field: string): string {
    if |field| < CellWidth then PadRight("|" + field + "|", CellWidth)
    else PadRight("|" + field[..ShortPrefix] + "...|", CellWidth)
  }

  /** A cell is at least 20 columns and starts with a bar. A short field is
      shown whole between two bars, with spaces after; a cell is wider than 20
      only for a field of 19 characters. A long field is cut to its first 14
      characters, then `...|` and one space. */
  lemma CellShape(field: string)
    ensures var r := Cell(field);
            |r| >= CellWidth && r[0] == '|'
            && (|field| < CellWidth ==>
                  |r| == (if |field| + 2 < CellWidth then CellWidth else |field| + 2)
                  && r[1..|field| + 1] == field && r[|field| + 1] == '|'
                  && forall i :: |field| + 2 <= i < |r| ==> r[i] == ' ')
            && (|field| >= CellWidth ==>
                  |r| == CellWidth && r[1..ShortPrefix + 1] == field[..ShortPrefix]
                  && r[ShortPrefix + 1..ShortPrefix + 5] == "...|" && r[CellWidth - 1] == ' ')
  {
    if |field| < CellWidth {
      var shown := "|" + field + "|";
      PadRightShape(shown, CellWidth);
      assert shown[1..|field| + 1] == field;
      assert Cell(field)[..|shown|] == shown;
    } else {
      var shown := "|" + field[..ShortPrefix] + "...|";
      PadRightShape(shown, CellWidth);
      assert shown[1..ShortPrefix + 1] == field[..ShortPrefix];
      assert shown[ShortPrefix + 1..] == "...|";
      assert Cell(field)[..|shown|] == shown;
    }
  }

  /** The cells of a row, in field order. */
  function CellTexts(row: Row): (cells: seq<string>) {
    seq(|row|, j requires 0 <= j < |row| => Cell(row[j]))
  }

  /** One row: its cells one after another, then a line end. */
  function FormatRow(row: Row): string {
    Flatten(CellTexts(row)) + NewLine
  }

  /** The lines of the text, in row order. */
  function Lines(rows: seq<Row>): seq<string> {
    seq(|rows|, i requires 0 <= i < |rows| => FormatRow(rows[i]))
  }

  /** The text `FormatData` builds: one line per row. */
  function FormatTable(rows: seq<Row>): string {
    Flatten(Lines(rows))
  }

  lemma FlattenOne(part: string)
    ensures Flatten([part]) == part
  {
    assert [part][..0] == [];
  }

  /** Laying out rows one after the other is laying out both lists. */
  lemma FormatTableAppend(a: seq<Row>, b: seq<Row>)
    ensures FormatTable(a + b) == FormatTable(a) + FormatTable(b)
  {
    assert Lines(a + b) == Lines(a) + Lines(b);
    FlattenAppend(Lines(a), Lines(b));
  }

  /** A cell holds a line feed only when its field shows one. */
  lemma CellLineFeeds(field: string)
    requires LineFeed !in field
    ensures LineFeed !in Cell(field)
  {
    if |field| < CellWidth {
      PadRightShape("|" + field + "|", CellWidth);
    } else {
      assert LineFeed !in field[..ShortPrefix];
      PadRightShape("|" + field[..ShortPrefix] + "...|", CellWidth);
    }
  }

  lemma {:induction false} CellsLineFeeds(row: Row, k: nat)
    requires k <= |row|
    requires forall j :: 0 <= j < |row| ==> LineFeed !in row[j]
    ensures LineFeed !in Flatten(CellTexts(row)[..k])
    decreases k
  {
    if k > 0 {
      CellsLineFeeds(row, k - 1);
      FlattenSnoc(CellTexts(row), k - 1);
      CellLineFeeds(row[k - 1]);
    }
  }

  lemma {:induction false} LinesLineFeeds(rows: seq<Row>, k: nat)
    requires k <= |rows|
    requires forall i, j :: 0 <= i < |rows| && 0 <= j < |rows[i]| ==> LineFeed !in rows[i][j]
    ensures multiset(Flatten(Lines(rows)[..k]))[LineFeed] == k
    decreases k
  {
    if k > 0 {
      var row := rows[k - 1];
      LinesLineFeeds(rows, k - 1);
      FlattenSnoc(Lines(rows), k - 1);
      CellsLineFeeds(row, |row|);
      assert CellTexts(row)[..|row|] == CellTexts(row);
      assert multiset(Flatten(CellTexts(row)))[LineFeed] == 0;
      assert multiset(NewLine)[LineFeed] == 1;
    }
  }

  /** When no field holds a line feed, the text has exactly one line per row:
      its line feeds are the row ends, and there are as many as rows. */
  lemma OneLinePerRow(rows: seq<Row>)
    requires forall i, j :: 0 <= i < |rows| && 0 <= j < |rows[i]| ==> LineFeed !in rows[i][j]
    ensures multiset(FormatTable(rows))[LineFeed] == |rows|
  {
    LinesLineFeeds(rows, |rows|);
    assert Lines(rows)[..|rows|] == Lines(rows);
  }

  /** `Cell` computed by a method, so that the case split on the field's length
      stays out of the proof of `AppendCells`'s loop. */
  method FormatCell(field: string) returns (cell: string)
    ensures cell == Cell(field)
  {
    if |field| < CellWidth {
      cell := PadRight("|" + field + "|", CellWidth);
    } else {
      cell := PadRight("|" + field[..ShortPrefix] + "...|", CellWidth);
    }
  }

  /** The inner loop of `FormatData`: the cells of one row appended to the
      text built so far. */
  method AppendCells(text: string, fieldsLine: Row) returns (s: string)
    ensures s == text + Flatten(CellTexts(fieldsLine))
  {
    s := text;
    for j := 0 to |fieldsLine|
      invariant s == text + Flatten(CellTexts(fieldsLine)[..j])
    {
      FlattenSnoc(CellTexts(fieldsLine), j);
      var cell := FormatCell(fieldsLine[j]);
      s := s + cell;
    }
    assert CellTexts(fieldsLine)[..|fieldsLine|] == CellTexts(fieldsLine);
  }

  /** `FormatData`: for every row, every field's cell, then a line end. */
  method FormatData(dataList: seq<Row>) returns (s: string)
    ensures s == FormatTable(dataList)
  {
    s := "";
    for i := 0 to |dataList|
      invariant s == Flatten(Lines(dataList)[..i])
    {
      s := AppendCells(s, dataList[i]);
      FlattenSnoc(Lines(dataList), i);
      s := s + NewLine;
    }
    assert Lines(dataList)[..|dataList|] == Lines(dataList);
  }

  // ---------------------------------------------------------------------------
  // Load
  // ---------------------------------------------------------------------------

  /** What `Load` returns for the outcome of one parse: the parse error, or
      the laid-out rows, filtered first when the filter applies. */
  function Render(parsed: Result<seq<Row>, ParseError>, column: Option<string>, value: Option<string>): (r: Result<string, LoadError>)
    ensures parsed.Err? ==> r == Err(ParseFailed(parsed.error))
    ensures parsed.Ok? && !FilterEnabled(column, value, parsed.value) ==> r == Ok(FormatTable(parsed.value))
    ensures parsed.Ok? && FilterEnabled(column, value, parsed.value) ==>
              (r.Err? <==> HasShortRow(parsed.value, IndexOf(LowerAll(parsed.value[0]), column.value)))
    ensures parsed.Ok? && FilterEnabled(column, value, parsed.value) && r.Err? ==> r == Err(ColumnOutOfRange)
    ensures parsed.Ok? && FilterEnabled(column, value, parsed.value) && r.Ok? ==>
              r.value == FormatTable(FilterData(parsed.value, column.value, value.value).value)
              && FormatRow(parsed.value[0]) <= r.value
    ensures parsed.Ok? && WellShaped(parsed.value) ==> r.Ok?
  {
    match parsed
    case Err(e) => Err(ParseFailed(e))
    case Ok(rows) =>
      if FilterEnabled(column, value, rows) then
        var filtered := FilterData(rows, column.value, value.value);
        WellShapedFilterSucceeds(rows, column.value, value.value);
        if filtered.Err? then Err(filtered.error)
        else
          var kept := filtered.value;
          assert kept == [rows[0]] + kept[1..];
          FormatTableAppend([rows[0]], kept[1..]);
          assert Lines([rows[0]]) == [FormatRow(rows[0])];
          FlattenOne(FormatRow(rows[0]));
          Ok(FormatTable(kept))
      else
        Ok(FormatTable(rows))
  }

  /** The facade: a parser and the filter kept by the constructor. */
  class ParserContext {
    const parser: SVParser
    const filterColumn: Option<string>
    const filterValue: Option<string>

    /** Keeps each filter argument only when it has a character other than
        white space. */
    constructor (parser: SVParser, filterColumn: Option<string>, filterValue: Option<string>)
      ensures this.parser == parser
      ensures this.filterColumn == StoredFilter(filterColumn)
      ensures this.filterValue == StoredFilter(filterValue)
    {
      this.parser := parser;
      this.filterColumn := StoredFilter(filterColumn);
      this.filterValue := StoredFilter(filterValue);
    }

    /** Once the parser has seen the end of the data, the empty text and no
        parse; otherwise one parse, the filter when it applies, and the
        layout. */
    method Load() returns (r: Result<string, LoadError>)
      modifies parser`endOfData, parser`position
      ensures old(parser.endOfData) ==>
                r == Ok("") && parser.endOfData && parser.position == old(parser.position)
      ensures !old(parser.endOfData) ==>
                parser.endOfData == ExpectedParse(parser.source, parser.dataChunkSize, old(parser.position)).endOfData
                && parser.position == ExpectedParse(parser.source, parser.dataChunkSize, old(parser.position)).position
                && r == Render(ExpectedParse(parser.source, parser.dataChunkSize, old(parser.position)).result, filterColumn, filterValue)
    {
      if parser.endOfData {
        return Ok("");
      }
      var parsed := parser.Parse();
      if parsed.Err? {
        return Err(ParseFailed(parsed.error));
      }
      var dataList := parsed.value;
      if FilterEnabled(filterColumn, filterValue, dataList) {
        var filtered := FilterData(dataList, filterColumn.value, filterValue.value);
        if filtered.Err? {
          return Err(filtered.error);
        }
        dataList := filtered.value;
      }
      var text := FormatData(dataList);
      r := Ok(text);
    }
  }
}
