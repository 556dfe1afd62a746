# SParser in Dafny

This project models the core of SParser, a reader for delimiter-separated
values (SV) files, and proves properties of the model.

- **`SVParser.Parse`** reads a file in chunks of up to 8192 characters. It
  runs a character-by-character state machine over them, and stops at an
  empty read or once more than 30000 characters were read. It returns the
  rows, sets `EndOfData` when a short chunk was processed, and records
  `Position` when the budget stopped it.
- **`ParserContext`** wraps the parser:
  - it keeps an optional filter column and value;
  - its `Load` keeps the header and the rows whose filter column matches the
    value, ignoring case;
  - it lays every field out as a fixed-width cell of 20 columns.

Modules:

- `Wrappers` (`wrappers.dfy`): the `Option` and `Result` values that stand
  in for nulls and exceptions.
- `SVTokenizer` (`sv_tokenizer.dfy`): the state machine as a pure function.
  - `Step` is one character of the switch in `Parse`.
  - `Feed` runs `Step` over a string and stops at the first error.
  - `Finish` is the code after the chunk loop.
  - `Tokenize` is `Feed` followed by `Finish`.
  - Lemmas show how feeding composes across chunk boundaries.
- `SVParsing` (`sv_parser.dfy`): `BufferInfo`, the chunk source, and the class
  `SVParser`.
  - The fields `endOfData` and `position` are updated in place.
  - The imperative `Parse` is proved to tokenize exactly the characters of
    the chunks the read loop takes in. It also leaves behind the
    `EndOfData` and `Position` that the specification functions
    `ChunksRead`, `ShortChunkSeen` and `StoppedByBudget` describe.
  - The inner loop over one buffer is the method `ScanBuffer`, proved equal
    to `Feed` on the characters read.
- `SVTokenizerProperties` (`sv_properties.dfy`): what the tokenizer promises,
  over `Feed` and `Tokenize`.
  - Which character raises which error, and with which row number.
  - What a quoted and an unquoted field keep.
  - How rows relate to the header.
  - What the end of the input does.
  - A round trip: a table written with every field quoted (quotes doubled)
    reads back unchanged.
- `TableFormat` (`parser_context.dfy`): the `ParserContext` class.
  - The constructor's filter normalisation and the condition under which
    `Load` filters.
  - `FilterData` as a pure function.
  - The cell layout.
  - `FormatData` as nested loops proved equal to `FormatTable`.
  - `Load`, proved against `Render` of the outcome `Parse` promises.

The file is abstracted as a chunk source, `seq<string>`. Chunk `k` is what
the read at position `k` returns, and a read at or past the end returns no
characters. `Position` is therefore a chunk index, not a byte offset.

Exceptions become `Err` values:

- `InvalidDataException` becomes a `ParseError` carrying the row number
  `results.Count + 1`.
- `EndOfStreamException` becomes `EndOfStream`.
- An index out of range while filtering becomes `ColumnOutOfRange`.

A few behaviours of the code differ from what a reader of its names and
comments would expect. The model follows the code:

- **No resumption.** Recording `Position` suggests that the next call resumes
  there with the partial field kept. The code starts every `Parse` from a fresh
  buffer at position 0 and never reads `Position`.
  - `LongSourceNeverEnds` shows the consequence: for a file that starts with
    four full chunks, no call ever sets `EndOfData`, and every call reads the
    same characters.
  - `ExactBuffersNeverEnd` shows the same for a file of exactly zero, one,
    two or three full buffers. The commonest case is the empty file: its
    first read returns no characters, so `EndOfData` is never set and a
    caller looping until the end of data never stops.
- **`EndOfData` is set only after a short chunk was fully tokenized.** A
  structural error in that chunk leaves it unset.
- **Filter column matching.** One would expect the column lookup to ignore
  case, as the value comparison does. The code looks up the column exactly as given among the lower-cased header names, so
  a column with an upper-case letter never filters
  (`UpperCaseColumnNeverFilters`).
- **The header is filtered too.** One would expect the header plus the
  matching rows after it. The code filters the whole list, header included,
  and then puts the header in front, so a matching header comes out twice
  (`HeaderRepeatedWhenItMatches`).

## Model

| member | source | states |
|---|---|---|
| SVParsing.SVParser.constructor | SParser/SVParser.cs:50-59 | A new parser is not at the end of data, has position 0 and a budget of 30000 characters. |
| SVParsing.SVParser.Parse | SParser/SVParser.cs:110-252 | At the end of data: the end-of-stream error, with `EndOfData` and `Position` unchanged. Otherwise: the result is `Tokenize` of the characters of the chunks read from position 0. `EndOfData` is true exactly when a chunk shorter than 8192 characters was tokenized to its end. `Position` changes only when the budget stopped the reading, and then becomes the position after the last chunk read. |
| SVParsing.ScanBuffer | SParser/SVParser.cs:126-226 | The inner loop over one buffer, with the tokenizer state unpacked into local flags and lists, ends in exactly the state (or the first error) that `Feed` gives for the buffer's characters. |
| SVParsing.ReadChunk | SParser/SVParser.cs:94-105 | A read reports as many characters as it returns. It returns no characters exactly at or past the end of the source or at an empty chunk. Otherwise it returns that chunk and the position after it; past the end the position stays. |
| SVParsing.ChunksReadFrom | SParser/SVParser.cs:124-236 | The read loop stops at once exactly when the next read is empty or past the end. Otherwise it takes at least that chunk and never more chunks than the source has. |
| SVParsing.ReadLoopStops | SParser/SVParser.cs:124-236 | From any chunk, with the count so far within the budget: every chunk taken in is non-empty, all but the last keep the count within the budget, and the loop stops before the end of the source only at an empty chunk or once the count has passed the budget. |
| SVParsing.BudgetStop | SParser/SVParser.cs:228-236 | One call reads non-empty chunks. The characters of all but the last chunk read stay within the budget (30000 for a new parser). If it stops before the end of the source and before an empty chunk, the characters read exceed the budget. |
| SVParsing.ErrorInChunk | SParser/SVParser.cs:124-226 | When a chunk raises a structural error, the call's outcome is that error. `EndOfData` reflects only the short chunks completed before it, and `Position` is untouched. |
| SVParsing.ReadLoopDone | SParser/SVParser.cs:227-251 | When the loop ends without an error, the outcome is `Finish` of the state reached. `EndOfData` is whether a short chunk was read. `Position` is the chunk count exactly when more than the budget was read. |
| SVParsing.LongSourceNeverEnds | SParser/SVParser.cs:122-236 | With four full chunks first, a call reads exactly those four (32768 characters, past 30000) and never reaches the end of data. Every call starts from chunk 0, so this repeats forever. |
| SVParsing.ExactBuffersNeverEnd | SParser/SVParser.cs:227-231 | A source of zero to three full 8192-character chunks is read whole, but since no chunk is short the end of data is never reached. For an empty file the first read returns nothing, so the end of data is never set. |
| SVTokenizer.Step | SParser/SVParser.cs:128-225 | One character of the switch in `Parse`, each arm as the code has it. It has no contract of its own, and `StepShape` states what it promises. |
| SVTokenizer.StepShape | SParser/SVParser.cs:128-225 | One character fails only when it is a quote, a line feed, or anything after a closing quote, and the error carries the number of the row being read. A character that is accepted leaves the finished rows alone, except a line feed, which appends the current row. |
| SVTokenizer.FeedShape | SParser/SVParser.cs:126-226 | Feeding characters never changes the rows already finished. An error is never the end-of-stream one and never names a row before the one being read. |
| SVTokenizer.Finish | SParser/SVParser.cs:238-250 | The end of input fails exactly when a non-empty field is still inside an open quote, with the quote-expected error for the current row. Otherwise the finished rows are kept and at most one row is added. |
| SVTokenizer.Tokenize | SParser/SVParser.cs:116-250 | A failed parse reports a structural error with a row number of at least 1, never the end-of-stream error. |
| SVTokenizer.FeedAppend | SParser/SVParser.cs:116-126 | The tokenizer state is declared once before the chunk loop, so feeding `a` then `b` equals feeding `a + b`, error included. |
| SVTokenizer.FeedErrorSticks | SParser/SVParser.cs:128-225 | After an error nothing read later changes the outcome. |
| SVTokenizer.ChunkSplitInvariance | SParser/SVParser.cs:116-126 | Feeding the chunks one after another, each from the state the previous one left, gives the same state or error as feeding their concatenation. So how the characters are split into chunks does not matter. |
| SVTokenizer.FeedKeepsRows | SParser/SVParser.cs:180-195 | Finished rows are never changed, only appended to. Every row finished at a line feed has the header's field count and a non-empty last field. |
| SVTokenizerProperties.ErrorIsFinal | SParser/SVParser.cs:128-225 | A character the switch rejects ends the whole parse with that error, whatever follows. |
| SVTokenizerProperties.EmptyFieldAtLineFeed | SParser/SVParser.cs:176-179 | A line feed while the current field is empty is the empty-line error numbered rows-so-far + 1, in any quote state. |
| SVTokenizerProperties.WrongFieldCount | SParser/SVParser.cs:180-186 | A row ended by a line feed whose field count differs from the header's is the wrong-field-count error numbered rows-so-far + 1. |
| SVTokenizerProperties.QuoteInsideUnquotedField | SParser/SVParser.cs:146-151 | A quote after unquoted content is the quote-not-allowed error. |
| SVTokenizerProperties.StrayCharacterAfterClosingQuote | SParser/SVParser.cs:203-222 | After a closing quote, any character other than a quote, delimiter, CR or LF is the quote-expected error. This includes white space. |
| SVTokenizerProperties.UnquotedFieldDropsWhiteSpace | SParser/SVParser.cs:169-214 | Outside quotes, plain text adds exactly its characters other than white space to the field. CR and every other white space character are dropped. |
| SVTokenizerProperties.QuotedFieldKeepsEverything | SParser/SVParser.cs:139-213 | Inside quotes, the escaped text (quotes doubled) adds exactly the original text to the field. Delimiters, CR, LF and white space are kept. The one exception is a line feed arriving while the field is still empty. |
| SVTokenizerProperties.DoubledQuote | SParser/SVParser.cs:154-164 | Inside a quoted field, two quotes append one literal quote. |
| SVTokenizerProperties.LineFeedEndsRow | SParser/SVParser.cs:180-194 | A line feed outside an open quote, with a non-empty current field and (after the header) a row of the header's width, appends the row with its last field. It clears both flags, the field and the row's fields, and parsing continues from there. An empty field or a different width is an error instead (`EmptyFieldAtLineFeed`, `WrongFieldCount`). |
| SVTokenizerProperties.RowsMatchHeader | SParser/SVParser.cs:180-245 | Every row of a successful parse except possibly the last has the header's width and a non-empty last field. If the text ends in a line feed, every row does. |
| SVTokenizerProperties.EndOfInput | SParser/SVParser.cs:238-250 | At the end of the input: an empty leftover field adds nothing, and the fields already closed on that line are dropped with it. A field outside an open quote becomes the last row. A field inside an open quote is the quote-expected error. |
| SVTokenizerProperties.TrailingRowIsNotChecked | SParser/SVParser.cs:238-245 | After complete rows, with a fresh row started, a last line of plain text (no delimiter, quote or line feed) holding some character other than white space, and no line feed after it, comes back as a one-field row of its non-white-space characters, whatever the header's width. A last line of only white space adds no row. |
| SVTokenizerProperties.FieldsRoundTrip | SParser/SVParser.cs:130-199 | Starting at a field, the quoted, escaped fields of a non-empty row, joined by delimiters and ended by a line feed, are read back as exactly that row. This holds when the last field is non-empty, no field starts with a line feed, and the row has the header's width (or is the header). Otherwise the line feed is an error, as in `EmptyFieldAtLineFeed` and `WrongFieldCount`. |
| SVTokenizerProperties.EncodedTableReadsBack | SParser/SVParser.cs:128-251 | A table of one width whose last fields are non-empty and whose fields do not start with a line feed, written with every field quoted, reads back unchanged. |
| TableFormat.StoredFilter | SParser/ParserContext.cs:23-30 | A filter argument is kept exactly when it is not null and not all white space. What is kept is the argument itself, and it is non-empty. |
| TableFormat.ParserContext.constructor | SParser/ParserContext.cs:16-31 | Stores the parser, and each filter argument only when it has a character other than white space. |
| TableFormat.IndexOf | SParser/ParserContext.cs:110 | -1 exactly when the name is absent. Otherwise the first position that holds it. |
| TableFormat.FilterEnabled | SParser/ParserContext.cs:96-97 | When filtering is switched on, there is a row, the value is non-empty, and the column's index in the header is a valid position whose name, lower-cased, is the column. |
| TableFormat.UpperCaseColumnNeverFilters | SParser/ParserContext.cs:96-97 | A filter column containing an upper-case letter never switches filtering on, because it is compared with lower-cased header names. |
| TableFormat.Matching | SParser/ParserContext.cs:111 | Fails exactly when some row is too short for the filter column. Otherwise it returns a subsequence of the rows, in order, that holds every row whose column equals the value ignoring case and no other row. |
| TableFormat.MatchingCounts | SParser/ParserContext.cs:111 | Each matching row is kept as many times as it occurs in the input, and any other row not at all. |
| TableFormat.MatchingIdempotent | SParser/ParserContext.cs:111 | Selecting again from a selection changes nothing. |
| TableFormat.FilterData | SParser/ParserContext.cs:106-115 | The column is the first header name whose lower case is the filter column. The call fails exactly when a row is too short for it, with the column-out-of-range error. Otherwise the output starts with the header, has at most one more row than the input, and continues with an in-order subsequence of the input holding exactly the matching rows, header included, each as many times as it occurs in the input. |
| TableFormat.HeaderRepeatedWhenItMatches | SParser/ParserContext.cs:109-112 | When the header's own filter column matches the value, the header comes out twice. |
| TableFormat.WellShapedFilterSucceeds | SParser/ParserContext.cs:110-111 | Rows of one width, as a file ending in a line feed yields, never make the filter fail. |
| TableFormat.PadRightShape | SParser/ParserContext.cs:129 | Alignment `{0,-20}` keeps the text, adds only spaces, reaches the width and never cuts. |
| TableFormat.Cell | SParser/ParserContext.cs:129 | The cell of one field. It has no contract of its own, and `CellShape` states its layout. |
| TableFormat.CellShape | SParser/ParserContext.cs:129 | A field under 20 characters is shown whole between bars and padded, so a 19-character field gives a 21-character cell. A longer field shows its first 14 characters, three dots and a bar in exactly 20 columns. |
| TableFormat.AppendCells | SParser/ParserContext.cs:127-130 | The inner loop appends the cells of a row in field order. |
| TableFormat.FormatData | SParser/ParserContext.cs:122-134 | The text built is `FormatTable`: for each row in order, its cells in field order and one line end. |
| TableFormat.FormatTableAppend | SParser/ParserContext.cs:125-132 | Laying out two lists of rows one after the other is laying out their concatenation. |
| TableFormat.OneLinePerRow | SParser/ParserContext.cs:125-132 | When no field holds a line feed, the text holds exactly one line feed per row. |
| TableFormat.Render | SParser/ParserContext.cs:92-103 | A parse error is returned as such. Without the filter condition the rows are laid out unchanged. With it, the result fails exactly when a row is too short, and then with the column-out-of-range error, not a parse error. Otherwise it is the layout of `FilterData`'s rows, which starts with the header's line. Rows of one width never fail. |
| TableFormat.ParserContext.Load | SParser/ParserContext.cs:89-104 | At the end of data: the empty text, with the parser unchanged. Otherwise: one `Parse`, whose `EndOfData` and `Position` it leaves, and `Render` of its outcome under the stored filter. |

## Left out

- Reading the file is not modelled: `SVParser.Read`, `SVExtendedParser.Read`, `GetFileEncoding` and the charset detector it calls. The chunk source is a parameter, so byte offsets, decoding and the encoding sniffing are not modelled.
- `ParseAsync`, `FilterDataAsync`, `FormatDataAsync` and the awaits in `Load` are not modelled: they only move the work to another task.
- SParser/Program.cs and SParser/CommandArgs.cs (the console loop and argument parsing) are not part of this model.
- The `ArgumentNullException` for an empty file path and for a null parser is not modelled: the model has no path, and a Dafny reference is never null. For the same reason the null check in the `EndOfData` property is not modelled.
- The `FileEncoding` property and `IExtendedParser` are not modelled, because they are not part of the core.
- The exact message texts are not modelled, including the shifted arguments of the wrong-field-count message. Each error is its kind and row number.
- TableFormat.Lower: folds only the letters A to Z, not every letter `ToLowerInvariant` and `InvariantCultureIgnoreCase` fold.
- TableFormat.FilterData: requires a non-empty list whose header holds the column. The source would throw otherwise, but its only caller, `Load`, checks both first.
- TableFormat.Cell and SVParsing.SVParser.Parse: lengths are counted in characters (Unicode scalar values), not UTF-16 code units as C# counts them. A field with characters outside the Basic Multilingual Plane is cut and padded differently, and may have a surrogate pair split by `Substring`. The 8192-character short-chunk test and the 30000-character budget also count characters, not code units.
- The line end written by `AppendLine` is modelled as a single line feed, not the platform's newline.
- Resumption across calls is not modelled, because the code does not implement it. `Position` is recorded but never read.
