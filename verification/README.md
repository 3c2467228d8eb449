# Verified models of the baseline engine, the effect grader and the source-moving tools

These Dafny modules model the parts of the repository that carry real state machines, codecs and
fixpoints, and prove what those parts are for.

* **The baseline** (`crates/rigor-cli/src/baseline.rs`). `Baseline`, `Filter`, `FilterLaws`, `Audit`
  and `Generate` model which recorded row claims which diagnostic, the binning filter, the drift
  report, pruning, and recording. `Scalars`, `Writer` and `Reader` model the hand-written YAML subset:
  five scalar styles, folding past column 80, and the line-by-line reader with its mutable row
  accumulator. `FieldTrip`, `ScalarTrip`, `PlainTrip`, `BlockTrip`, `RowTrip`, `WhiteStart` and
  `RoundTrip` prove that the reader undoes the writer, with the exact condition under which a baseline
  comes back; `Survival` says which values survive, and `Losses` shows baselines that do not come back.
  `Styles`, `Folding` and `Escapes` say, for every value, which bytes are written: the style, told by
  a grammar of what YAML would not read as a string, the line breaks and the escapes. `ReaderLaws`,
  `RowLaws`, `ColumnLaws`, `FileLaws` and `VersionGate` say what the reader makes of files that the
  writer does not write: values over several lines in every style, comments, tags, members in any
  order and column, and each way in which a file is refused. `RegexpEscape` is the port of Ruby's
  `Regexp.escape`.
  `EndToEnd` puts everything together: record, write, load, filter; `Lifecycle` follows a recorded
  baseline over any sequence of fixed findings and pruned rows. `Grouping` holds the stable group-by
  that the filter refines.
* **The effect grader** (`harness/effects_diff.py`). `EffectLabels` has the label order and the
  omission rule, `EffectReport` and `EffectSnapshot` the two verdict functions and the synthesised
  snapshot; `ReportCounts` and `VerdictCounts` say what each counter and finding of the two gates
  stands for. `Json`, `SnapshotWire`, `SnapshotCodec` and `SnapshotTrip` hold the committed snapshot
  file: writer, reader, and the proof that reading undoes writing; `SnapshotText` gives its text line
  by line, and `SnapshotRefusals` what is read from other files and what is refused. JSON strings
  follow section 7 of RFC 8259.
* **Vendoring** (`harness/vendor_effects.py`, `harness/vendor_rbs.py`). `SymbolArray` scans a
  `%i[…]` literal, `ConstantText` a constant's right-hand side, `ConstantResolution` resolves unions
  of constants with cycle detection, `ResolutionErrors` says what each failure is to blame on, and
  `LibraryClosure` is the worklist closure over manifest dependencies.
* **Splitting** (`harness/split`). `ModuleSplit` cuts test modules out of a file and re-inlines them,
  `SplitRules` tells line by line what is moved and what is refused, `Realigned` holds a cut that passes the closing check without being reversible, `UseItems` and
  `UseTrip` print and read `use` items.

Regular-expression compilation and matching are a parameter (`Baseline.Engine`): a function of the
pattern source. Where literal patterns matter it must find a literal exactly where the text contains
it (`RegexpEscape.FaithfulOnLiterals`). The Unicode tables behind `char::is_alphanumeric` outside
ASCII are a parameter as well (`Writer.Letters`), and so are those behind Python's `\w`, `islower` and
`upper` (`UseItems.Tables`). Strings are sequences of Unicode scalar
values. Loops and objects of the source are methods and classes proved against specification
functions; the properties are then proved about those functions.

## Where the code and its documentation differ

* The comment at `harness/effects_diff.py:418-423` says the port's taint bit never keeps a row. The
  call at line 674 still passes it to the third clause of the omission rule, and the model follows
  the code. `EffectSnapshot.TaintKeepsIff` says exactly when the taint of one entry keeps its row.
  `EffectSnapshot.ManufacturesIff` says exactly when two entries that pass the report gate still give
  the port a row that the oracle omits. There are two routes: a label lost by the port leaves a
  declared label uncovered in a row that was trivial (`LostLabelManufacturesRow`, with no taint at
  all), or a row that the oracle drops as synthesised loses its exhaustiveness or has other origins
  (`TaintManufacturesRow`).
* Message rows match unanchored and in file order. `Generate.GenerateMessageSettlesIff` gives the
  exact condition under which a freshly recorded baseline silences its own stream, and
  `Generate.ShadowExample` two diagnostics for which it does not.
* Not every string survives the writer. `RoundTrip.BaselineRoundTripIff` gives the exact condition for
  every baseline. `Losses` exhibits baselines that do not load back: a plain value with white space at
  either end, two spaces at a fold, a piece `---` alone on its line, a block with an indented first
  line, a block line that is white space only, reads as a comment or marker or ends in a carriage
  return, an empty last line, and a quoted text that ends in a line feed.
* Pruning cleared rows leaves the output sequence unchanged except when it empties the baseline,
  which turns regrouping off. `Audit.PruneInvisible` says that the sequence then stays the same
  exactly when the stream was already grouped by file and rule, ruleless diagnostics last;
  `Audit.PruneReordersExample` is a stream that was not.
* `fmt_use` prints the single name `self` as the bare path, which reads back differently;
  `UseTrip.ParseOfFormat` shows that this is the only such set.

## Model

| member | source | states |
|---|---|---|
| Baseline.ClaimBucket | crates/rigor-cli/src/baseline.rs:472-498 | the one-pass scan returns the first row whose pattern matches the message, only where there is none the first row without a pattern for that file and rule, and nothing exactly when neither is there |
| Baseline.ClaimTakes | crates/rigor-cli/src/baseline.rs:472-498 | those three cases determine the claiming row |
| Baseline.ClaimIsHome | crates/rigor-cli/src/baseline.rs:472-498 | a claiming row is always the first row of its key, so rows repeated under one key never share out diagnostics |
| Filter.Place | crates/rigor-cli/src/baseline.rs:426-445 | one step of binning keeps the bins equal to the groups by key in order of first appearance, with the slot map pointing at them |
| Filter.BinStream | crates/rigor-cli/src/baseline.rs:418-446 | the binning loop yields one bin per key in order of first appearance, each with its claiming row and the positions of its diagnostics, and the ruleless positions apart |
| Filter.FilterStream | crates/rigor-cli/src/baseline.rs:413-464 | the filter refines the stable group-by: surfaced is the concatenation of the unclaimed and over-threshold groups in first-appearance order, ruleless diagnostics last; an empty baseline passes everything through |
| FilterLaws.SurfacedMembers | crates/rigor-cli/src/baseline.rs:413-464 | a position surfaces exactly when its diagnostic is ruleless, unclaimed, or in a bin over its row's count |
| FilterLaws.SurfacedOrder | crates/rigor-cli/src/baseline.rs:402-412 | surfaced positions are ordered by first appearance of their bin and then by stream order, ruleless ones last, and none appears twice |
| FilterLaws.FilterConserves | crates/rigor-cli/src/baseline.rs:413-464 | surfaced plus silenced is the number of diagnostics, on every stream and baseline |
| FilterLaws.FilterMonotone | crates/rigor-cli/src/baseline.rs:413-464 | whatever surfaces from a sub-stream surfaces from the full stream: fixing a finding never reveals another |
| FilterLaws.FilterIdempotent | crates/rigor-cli/src/baseline.rs:413-464 | filtering the surfaced stream again surfaces all of it in the same order and silences nothing |
| FilterLaws.SameBinSamePass | crates/rigor-cli/src/baseline.rs:447-464 | each bin is silenced or surfaced as a whole |
| FilterLaws.RulelessIsUnclaimed | crates/rigor-cli/src/baseline.rs:427-430 | a diagnostic without a rule belongs to no bin and always passes |
| Grouping.GroupedOrdered | crates/rigor-cli/src/baseline.rs:402-412 | the group-by is ordered by rank of first appearance and stable inside each group |
| Grouping.OrderedUnique | crates/rigor-cli/src/baseline.rs:402-412 | that order determines the output sequence |
| Grouping.RegroupIdentity | crates/rigor-cli/src/baseline.rs:402-412 | grouping an already grouped stream is the identity |
| Audit.CountClaims | crates/rigor-cli/src/baseline.rs:537-546 | the counting loop gives each key the number of diagnostics it claims |
| Audit.AuditStream | crates/rigor-cli/src/baseline.rs:537-558 | one drift row per baseline row, in order, with actual count, delta and status |
| Audit.DriftMeans | crates/rigor-cli/src/baseline.rs:537-591 | the actual count is the number of diagnostics that rows of this key claim, the delta is how far it lies above the recorded count, and each of the four statuses holds exactly in its range |
| Audit.SurfacesIffOver | crates/rigor-cli/src/baseline.rs:537-591 | filter and audit agree: a claimed diagnostic surfaces exactly when the first row of its key audits as Over |
| Audit.SilencedIsAuditSum | crates/rigor-cli/src/baseline.rs:537-591 | the silenced count is the sum of the actual counts over first-of-key rows that are not Over, duplicate rows included |
| Audit.ClaimWithout | crates/rigor-cli/src/baseline.rs:565-579 | removing rows that claim nothing changes no claim |
| Audit.RuleRowInserted | crates/rigor-cli/src/baseline.rs:472-498 | a rule row, wherever it is put, takes no diagnostic from a message row |
| Audit.RuleRowsInvisible | crates/rigor-cli/src/baseline.rs:413-498 | where message rows match every diagnostic, dropping rule rows changes neither what surfaces nor how much is silenced |
| Audit.PruneInvisible | crates/rigor-cli/src/baseline.rs:537-579 | removing any rows that audit as Cleared keeps the surfaced set and the silenced count; the sequence stays the same if and only if the baseline was empty, is not emptied, or the stream was already in group order |
| Audit.PruneReordersExample | crates/rigor-cli/src/baseline.rs:413-579 | one cleared row and the stream a, b, a: pruning the row changes the output order |
| Generate.TallyKeys | crates/rigor-cli/src/baseline.rs:331-350 | the counting loop keeps keys in order of first appearance with exact counts |
| Generate.FromDiagnostics | crates/rigor-cli/src/baseline.rs:327-363 | the recorded rows are one per key in order of first appearance, each with its count |
| Generate.RecordedRows | crates/rigor-cli/src/baseline.rs:327-363 | one row for each kind of diagnostic (file, rule and, by message, text), in the order in which the kinds first appear, with the number of diagnostics of its kind; each kind has its row |
| Generate.GeneratedCountsTotal | crates/rigor-cli/src/baseline.rs:327-363 | recorded counts plus ruleless diagnostics add up to the stream |
| Generate.GenerateRuleSettles | crates/rigor-cli/src/baseline.rs:327-464 | recording by rule and filtering the same stream surfaces exactly the ruleless diagnostics, and every row audits Within with delta 0 |
| Generate.MessageClaim | crates/rigor-cli/src/baseline.rs:472-498 | with faithful matching a diagnostic is claimed by the earliest recorded message that occurs in its own |
| Generate.GenerateMessageSettlesIff | crates/rigor-cli/src/baseline.rs:327-498 | recording by message and filtering the same stream settles if and only if no message occurs inside one of the same file and rule that was first seen later |
| Generate.ShadowExample | crates/rigor-cli/src/baseline.rs:472-498 | two messages, one inside the other, for which it does not settle |
| RegexpEscape.EscapeText | crates/rigor-cli/src/baseline.rs:1070-1088 | the loop computes the escape, character by character |
| RegexpEscape.EscapeUnique | crates/rigor-cli/src/baseline.rs:1070-1088 | the escape is the one pattern in Ruby's spelling (white space and the listed characters only behind a backslash, nothing else behind one) whose literal reading in regex syntax is the message |
| RegexpEscape.LiteralOfEscape | crates/rigor-cli/src/baseline.rs:1070-1088 | escaping has a left inverse on every string |
| RegexpEscape.EscapeInjective | crates/rigor-cli/src/baseline.rs:1070-1088 | distinct messages never share a row |
| RegexpEscape.EscapedPattern | crates/rigor-cli/src/baseline.rs:1061-1088 | a faithful engine compiles an escaped message and finds it exactly where the text contains the message |
| Scalars.ScanDqClosed | crates/rigor-cli/src/baseline.rs:1027-1043 | the loop decides whether a double-quoted scalar is closed |
| Scalars.ScanSqClosed | crates/rigor-cli/src/baseline.rs:1045-1060 | the loop decides whether a single-quoted scalar is closed |
| Scalars.ScanQuotedSpan | crates/rigor-cli/src/baseline.rs:976-1003 | the scan of a quoted head stops behind its closing quote, or at the end when it stays open |
| Scalars.DoubleQuote | crates/rigor-cli/src/baseline.rs:1207-1225 | the loop escapes every character and puts quotes around the text |
| Escapes.EscapeWritten | crates/rigor-cli/src/baseline.rs:1207-1225 | every character inside double quotes: two behind a backslash, three controls as letters, the other controls as two upper-case hexadecimal digits of their code, the rest unchanged |
| Scalars.UnescapeDouble | crates/rigor-cli/src/baseline.rs:1240-1293 | the loop decodes every escape, with U+FFFD for invalid code points |
| Escapes.LetterReads | crates/rigor-cli/src/baseline.rs:1240-1281 | each escape letter reads as its code point, an unknown one keeps its backslash, and so does a backslash at the end |
| Escapes.HexReads | crates/rigor-cli/src/baseline.rs:1276-1294 | two, four or eight hexadecimal digits of either case read as the code point they spell, surrogates and numbers beyond the last code point as U+FFFD |
| Escapes.ShortHexReads | crates/rigor-cli/src/baseline.rs:1285-1294 | a hexadecimal escape cut short reads as U+FFFD and swallows the character that cut it short |
| Scalars.DoubleQuotedRoundTrip | crates/rigor-cli/src/baseline.rs:966-1060 | for every string, the head of the double-quoted text followed by any comment is exactly the quoted span, it is closed, and it decodes to the string |
| Scalars.SingleQuotedRoundTrip | crates/rigor-cli/src/baseline.rs:966-1060 | the same for single quotes |
| Writer.PushPlain | crates/rigor-cli/src/baseline.rs:1187-1204 | the folding loop with its running column writes the pieces of the fold on hanging lines |
| Folding.PlainFieldLines | crates/rigor-cli/src/baseline.rs:1187-1204 | the lines of every plain field: a line that is continued is longer than 80 columns, no space stands past column 80, continuations stand behind four spaces, and with breaks read as spaces they hold the value |
| Folding.OnlyLines | crates/rigor-cli/src/baseline.rs:1187-1204 | no other lines meet that description |
| Styles.StyleIs | crates/rigor-cli/src/baseline.rs:1112-1385 | the style of every value, by what it is: several lines, the merge key, a boolean letter, an odd first character, something YAML would not read as this string (by grammar: keyword, symbol, integer in four bases, decimal numeral, date, comment or mapping inside), an unprintable character |
| Styles.PlainIff | crates/rigor-cli/src/baseline.rs:1112-1385 | a value is written plain exactly when it is one printable line that starts like a word or holds a quote and would read back as that string |
| Writer.PushBlock | crates/rigor-cli/src/baseline.rs:1148-1169 | the loop writes a literal block: header, indented content lines, bare empty lines |
| Writer.PushKv | crates/rigor-cli/src/baseline.rs:1143-1204 | a field is written in the style chosen for its value |
| Writer.PushRow | crates/rigor-cli/src/baseline.rs:381-391 | a row is its file, rule, optional message and count |
| Writer.ToYaml | crates/rigor-cli/src/baseline.rs:370-393 | the whole document, with `ignored: []` for an empty baseline |
| Folding.DocumentText | crates/rigor-cli/src/baseline.rs:370-393 | the bytes of every document of short plain values: the three head lines, and file, rule, optional message and count of each row |
| Reader.RowAcc.ApplyFragment | crates/rigor-cli/src/baseline.rs:742-773 | a member line updates the accumulator's fields, last field, open quote and pending breaks as specified, and leaves it alone on an error |
| Reader.RowAcc.ContinueScalar | crates/rigor-cli/src/baseline.rs:778-828 | a continuation line grows the last scalar: folded, raw or block, with pending breaks and escaped line ends |
| Reader.Loader.FlushRow | crates/rigor-cli/src/baseline.rs:277-299 | finishing the current row appends its bucket or reports the first missing or malformed field |
| Reader.Loader.KeyLine | crates/rigor-cli/src/baseline.rs:217-267 | a top-level key flushes the row, sets the version, or opens or refuses the rows |
| Reader.Loader.ItemLine | crates/rigor-cli/src/baseline.rs:277-286 | an item line flushes the row and starts the next with its columns |
| Reader.Loader.Line | crates/rigor-cli/src/baseline.rs:183-296 | one line takes the reader's state to the specified next state, or fails with the specified error |
| Reader.Parse | crates/rigor-cli/src/baseline.rs:167-318 | the line loop computes the specified load of the text |
| FileLaws.TextLines | crates/rigor-cli/src/baseline.rs:183 | a text is cut at its line feeds, a carriage return before one going with it; what stands behind the last feed is a line as it is, unless it is nothing |
| VersionGate.PlainVersionIff | crates/rigor-cli/src/baseline.rs:229-238 | a written document, empty or not, with another plain version value loads exactly when the value spells one; otherwise it is refused for its version, unless a row is refused first |
| VersionGate.VersionNumber | crates/rigor-cli/src/baseline.rs:303-314 | with `version: n` for the version line the document loads exactly when n is 1 |
| VersionGate.EmptyVersionNumber | crates/rigor-cli/src/baseline.rs:303-314 | the file `---`, `version: n`, `ignored: []` loads as the empty baseline when n is 1 and is refused for its version for every other n |
| VersionGate.CommentedVersion | crates/rigor-cli/src/baseline.rs:229-238 | a comment behind the version changes nothing |
| VersionGate.QuotedVersionRefused | crates/rigor-cli/src/baseline.rs:229-238 | a quoted version is refused, `"1"` included |
| VersionGate.TaggedVersionRefused | crates/rigor-cli/src/baseline.rs:229-238 | a tagged version is refused |
| VersionGate.NoVersionRefused | crates/rigor-cli/src/baseline.rs:303-314 | a document without a version line is refused |
| ReaderLaws.CommentsTransparent | crates/rigor-cli/src/baseline.rs:183-187 | a comment line or document marker can stand between any two lines of any file |
| ReaderLaws.PlainFoldLoads | crates/rigor-cli/src/baseline.rs:778-790 | a plain value over any number of lines with any blank lines between them: a break reads as a space, blank lines as a line feed each |
| ReaderLaws.SingleFoldLoads | crates/rigor-cli/src/baseline.rs:814-824 | the same in single quotes, whatever the lines look like |
| ReaderLaws.DoubleFoldLoads | crates/rigor-cli/src/baseline.rs:791-813 | the same in double quotes, whatever the lines look like |
| ReaderLaws.EscapedBreakLoads | crates/rigor-cli/src/baseline.rs:791-805 | a backslash at the end of a double-quoted line takes the break away, blank lines included |
| ReaderLaws.BlockLoads | crates/rigor-cli/src/baseline.rs:928-960 | literal and folded blocks with each of the three chomping marks, whatever else stands in their header line |
| ReaderLaws.ChompIs | crates/rigor-cli/src/baseline.rs:928-960 | for every list of lines the body is a text and some line feeds: stripping leaves the text, clipping one feed, keeping all and one more |
| ReaderLaws.ShortLinesChomped | crates/rigor-cli/src/baseline.rs:818-826 | lines of a block that end left of its column are empty ones, and a trailing run of them is chomped as the header says |
| ReaderLaws.PlainCommentIgnored | crates/rigor-cli/src/baseline.rs:966-998 | a comment behind a plain value changes nothing |
| ReaderLaws.QuoteCommentIgnored | crates/rigor-cli/src/baseline.rs:976-1003 | a comment behind a closing quote changes nothing |
| ReaderLaws.TagIgnored | crates/rigor-cli/src/baseline.rs:966-982 | a tag in front of a value changes nothing |
| ReaderLaws.NullFileRefused | crates/rigor-cli/src/baseline.rs:723-736 | a null or empty file is a missing file, in each spelling |
| RowLaws.CountIff | crates/rigor-cli/src/baseline.rs:852-866 | a count is accepted exactly when it is zeros and the digits of a positive number below two to the 63, with a plus sign at most |
| RowLaws.WordRowLoads | crates/rigor-cli/src/baseline.rs:742-892 | behind any written rows, a row of plain words with members in any order, repeated or unknown: the last of each name counts, nulls are absent, and the file is asked for before the rule, the count and the pattern |
| FileLaws.TopLevelArrayRefused | crates/rigor-cli/src/baseline.rs:208-215 | a dash at the margin outside the rows is refused as an array, whatever keys come before it |
| FileLaws.TopLevelStringRefused | crates/rigor-cli/src/baseline.rs:217-224 | text at the margin without a colon is refused as a string |
| FileLaws.NestedIgnored | crates/rigor-cli/src/baseline.rs:269-271 | indented lines under another key are passed over |
| FileLaws.DashTextIgnored | crates/rigor-cli/src/baseline.rs:208-271 | text that starts with a dash and is no item is passed over outside the rows |
| FileLaws.IgnoredForms | crates/rigor-cli/src/baseline.rs:239-265 | an inline plain value of `ignored:` must be an empty array or a null |
| FileLaws.QuotedIgnoredRefused | crates/rigor-cli/src/baseline.rs:239-265 | a quoted value of `ignored:` is refused |
| FileLaws.RowsBehindNullRefused | crates/rigor-cli/src/baseline.rs:239-265 | rows behind an inline value of `ignored:` are refused |
| FileLaws.VersionLast | crates/rigor-cli/src/baseline.rs:217-238 | the version may follow the rows, which it ends |
| ColumnLaws.RuleFoldLoads | crates/rigor-cli/src/baseline.rs:189-196 | blank lines in front of a member belong neither to the value before it nor to the folded value behind |
| FileLaws.RowNotHashRefused | crates/rigor-cli/src/baseline.rs:742-749 | an item without a colon is refused with its index, behind any written rows |
| FileLaws.MalformedRefused | crates/rigor-cli/src/baseline.rs:742-749 | a member line without a colon is refused with its text |
| FileLaws.QuotedCountRefused | crates/rigor-cli/src/baseline.rs:852-866 | a quoted count is refused |
| FileLaws.KeyEndsRows | crates/rigor-cli/src/baseline.rs:208-267 | any other key at the margin ends the rows: a further dash is refused as an array |
| ColumnLaws.PlacedRowsLoad | crates/rigor-cli/src/baseline.rs:183-299 | rows of plain words load by their members alone: dashes at any columns none of which is further to the right than the one before it, any gap behind a dash, members anywhere up to the column of the file, in any order and number, and blank lines anywhere |
| FieldTrip.HangLines | crates/rigor-cli/src/baseline.rs:287-295 | lines indented past the member column only ever continue the scalar before them |
| ScalarTrip.DoubleTrip | crates/rigor-cli/src/baseline.rs:1179-1186 | a double-quoted field reads back for every string |
| ScalarTrip.SingleFeedFails | crates/rigor-cli/src/baseline.rs:1170-1178 | a single-quoted text that ends in a line feed never reads back |
| PlainTrip.PlainTripIff | crates/rigor-cli/src/baseline.rs:1187-1204 | a folded plain scalar reads back if and only if no piece starts or ends in white space, is empty, or reads as a marker or comment |
| PlainTrip.FoldLosesSpace | crates/rigor-cli/src/baseline.rs:1187-1204 | folding a text with two spaces behind the margin gives a piece that does not survive its line |
| BlockTrip.LiteralTripIff | crates/rigor-cli/src/baseline.rs:1148-1169 | a literal block reads back if and only if every line survives and the last is not empty |
| BlockTrip.IndentedBlockLost | crates/rigor-cli/src/baseline.rs:796-820 | a literal block whose first line starts with a space does not read back |
| RowTrip.ScalarTripIff | crates/rigor-cli/src/baseline.rs:742-892 | in every style a value reads back if and only if it survives that style |
| RowTrip.RowRun | crates/rigor-cli/src/baseline.rs:273-299 | the lines of a written row bring the reader to exactly the row accumulator that was written, through all styles and folds |
| RowTrip.CountReads | crates/rigor-cli/src/baseline.rs:855-870 | a written count reads back if and only if it is positive and fits a signed 64-bit integer |
| WhiteStart.StyleFits | crates/rigor-cli/src/baseline.rs:1112-1141 | the style chosen for a value is one the reader can tell apart, for every value: a plain one never looks quoted, tagged, null or commented unless it starts with white space |
| WhiteStart.SpoiledField | crates/rigor-cli/src/baseline.rs:742-892 | a plain value that starts with white space, over all its lines, reads as something shorter or as nothing, whether it then looks like a comment, a tag, a block or an open quote |
| WhiteStart.SpoiledRow | crates/rigor-cli/src/baseline.rs:167-312 | the row of such a value never becomes the row it was written from, even where an open quote swallows the lines behind it |
| WhiteStart.LostRow | crates/rigor-cli/src/baseline.rs:167-312 | rows read behind a lost row cannot repair the loss: the rows so far stay different from those written, and no more than them |
| RoundTrip.DocumentLoads | crates/rigor-cli/src/baseline.rs:167-393 | loading a document written in styles the reader can tell apart gives, row by row, what each row reads back as, or the first row's error |
| RoundTrip.RowsBackIff | crates/rigor-cli/src/baseline.rs:167-393 | rows in such styles come back as written if and only if every row survives |
| RoundTrip.BaselineRoundTripIff | crates/rigor-cli/src/baseline.rs:167-393 | every written baseline loads as the same rows in the same order if and only if every value survives its style, every pattern compiles and every count is positive and fits |
| RoundTrip.SaveAndLoad | crates/rigor-cli/src/baseline.rs:143-393 | the imperative writer and reader: the text written, its load, and when that is the identity |
| Survival.TidyPlainSurvives | crates/rigor-cli/src/baseline.rs:1187-1204 | plain text without adjacent spaces, ` #` or a final ` ---` survives any number of folds |
| Survival.OrdinarySurvives | crates/rigor-cli/src/baseline.rs:1112-1204 | every value of one line survives in whichever style is chosen, unless it has adjacent spaces, a final ` ---`, or white space outside ASCII at an end or beside a space |
| Survival.EscapedSurvives | crates/rigor-cli/src/baseline.rs:1070-1204 | every escaped message survives writing and reading, whatever its length and however often it folds, unless white space outside ASCII stands at one of its ends or behind a space |
| Losses.WhiteEndLost | crates/rigor-cli/src/baseline.rs:1187-1204 | a baseline whose file is written plain and starts or ends with white space does not load back |
| Losses.AdjacentSpacesLost | crates/rigor-cli/src/baseline.rs:1187-1204 | a baseline whose file is written plain and has two spaces where the line is full does not load back, for every letter table |
| Losses.MarkerPieceLost | crates/rigor-cli/src/baseline.rs:185-1204 | a baseline whose file is written plain and folds right before a final `---` does not load back: the reader skips that line |
| Losses.BlockLineLost | crates/rigor-cli/src/baseline.rs:185-1169 | a baseline whose file is a block does not load back when its second line is white space only, reads as a comment or as the marker, or ends in a carriage return |
| Losses.FinalBlankLost | crates/rigor-cli/src/baseline.rs:1148-1169 | a baseline whose file is a block that ends in an empty line does not load back |
| Losses.IndentedLinesLost | crates/rigor-cli/src/baseline.rs:1148-1169 | a baseline whose file is written as a literal block with an indented first line does not load back |
| Losses.FinalFeedLost | crates/rigor-cli/src/baseline.rs:1170-1178 | a baseline whose file is single-quoted and ends in a line feed does not load back |
| EndToEnd.GeneratedSurvives | crates/rigor-cli/src/baseline.rs:327-393 | every row recorded from ordinary paths, rules and, in message mode, messages survives the file |
| EndToEnd.RecordWriteLoadFilter | crates/rigor-cli/src/baseline.rs:143-464 | record, write, load, filter the same stream, for every stream: the recorded rows load back exactly when each survives, which ordinary paths, rules and messages do; the filter of the loaded rows loses nothing; and once the rows are back exactly the ruleless diagnostics surface, by message if and only if no message shadows a later one |
| Lifecycle.QuietRuns | crates/rigor-cli/src/baseline.rs:413-579 | over every run of fixed findings and pruned rows, a baseline from which nothing with a rule surfaces stays that way |
| Lifecycle.RecordedByRuleStaysQuiet | crates/rigor-cli/src/baseline.rs:327-579 | a stream recorded by rule starts such a run, whatever is fixed and pruned afterwards |
| Lifecycle.RecordedByMessageStaysQuietIff | crates/rigor-cli/src/baseline.rs:327-579 | recorded by message, every such run stays quiet if and only if no message shadows one recorded after it |
| EffectLabels.AdmitsIsSegmentPrefix | harness/effects_diff.py:476-481 | for all strings the string test is prefix order on dot-separated segments |
| EffectLabels.AdmitsPartialOrder | harness/effects_diff.py:476-481 | admission is a partial order |
| EffectLabels.SubsumedPreorder | harness/effects_diff.py:484-490 | subsumption is a preorder, and a stronger lane excludes more |
| EffectLabels.OmitFromRendered | harness/effects_diff.py:1029-1065 | omission gives the same answer on the raw declared lane and on the rendered one |
| EffectLabels.TaintOnlyKeeps | harness/effects_diff.py:506-522 | more taint never drops a row, and keeps one exactly when only the clause on synthesised bundles would have dropped it |
| EffectReport.JudgeLanes | harness/effects_diff.py:337-359 | the verdicts and findings for a method both sides report |
| EffectReport.JudgeMethod | harness/effects_diff.py:327-359 | the verdicts and findings for one name, absent methods included |
| EffectReport.Compare | harness/effects_diff.py:322-360 | the comparison sums the verdicts of all names in sorted order and lists the fatal findings |
| EffectReport.GateIff | harness/effects_diff.py:322-360 | there is no OVER and no DECLARED-MISMATCH, equivalently no finding, exactly when the port refines the oracle |
| EffectReport.RefinesPreorder | harness/effects_diff.py:322-360 | refinement is reflexive and transitive |
| EffectReport.RefinesAntisymmetric | harness/effects_diff.py:306-360 | two reports refine each other exactly when all lanes agree |
| EffectReport.EveryMethodJudged | harness/effects_diff.py:327-359 | every name gets a verdict |
| EffectReport.AllMatchedIff | harness/effects_diff.py:322-360 | every name is MATCH exactly when both maps hold the same names with the same lanes |
| ReportCounts.MethodCountersCount | harness/effects_diff.py:322-360 | every counter is the number of methods with its verdicts, each verdict told by the lanes |
| ReportCounts.ReportFindingsIff | harness/effects_diff.py:322-360 | the findings are exactly the over-claims and mismatches that hold, one for each that is counted |
| ReportCounts.LanesRead | harness/effects_diff.py:306-319 | the three lanes of an entry, with the weakest value for a missing field or an entry of another shape |
| EffectSnapshot.OmitIsDropped | harness/effects_diff.py:506-522 | the omission rule on sorted lists says the same as: trivial, bare, or synthesised, on the sets of labels |
| EffectSnapshot.RowFor | harness/effects_diff.py:660-680 | an entry gets no row exactly when its lanes are trivial or bare or it is known from synthesised code only; otherwise the row carries its lanes, sorted and rendered |
| EffectSnapshot.NoRowIff | harness/effects_diff.py:506-522 | an entry gets no row exactly when it proves nothing beyond `mutate.local` and every declared label lies under a proven one, or has no labels, or is exhaustive and comes from attribute writers alone |
| EffectSnapshot.UnresolvedIs | harness/effects_diff.py:493-503 | the count of an unexhaustive row is the number of distinct spellings of its causes |
| EffectSnapshot.Synthesise | harness/effects_diff.py:647-681 | the table holds exactly the kept rows, and an incomplete entry invalidates it |
| EffectSnapshot.JudgeRow | harness/effects_diff.py:834-869 | the branch code adds the verdicts and findings of a row both tables carry |
| EffectSnapshot.JudgeName | harness/effects_diff.py:822-869 | the verdicts and findings for one name of the two tables |
| EffectSnapshot.CompareTables | harness/effects_diff.py:813-870 | the comparison sums the verdicts of all names in sorted order and lists the fatal findings |
| VerdictCounts.CountersCount | harness/effects_diff.py:813-870 | every counter is the number of names with its verdict: the three over-claims, the mismatch, and only where none of them holds the three under-claims, the count that differs, the match |
| VerdictCounts.OneVerdict | harness/effects_diff.py:813-870 | every name gets a verdict, and two verdicts for one name are both fatal ones |
| VerdictCounts.SnapshotGateIff | harness/effects_diff.py:813-870 | there is no over-claim and no mismatch, equivalently no finding, exactly when every row of the port is in the reference with its labels included, exhaustive only where that is, and with the same declared lane |
| VerdictCounts.AllRowsMatchIff | harness/effects_diff.py:813-870 | every name matches exactly when both tables hold the same names with equal label sets and equal other fields |
| VerdictCounts.FindingsIff | harness/effects_diff.py:813-870 | the findings are exactly the over-claims and mismatches that hold, with the extra labels, one for each that is counted |
| EffectSnapshot.CleanReportRow | harness/effects_diff.py:813-870 | with a clean report a row both synthesised tables carry is never OVER |
| EffectSnapshot.TaintKeepsIff | harness/effects_diff.py:664-675 | for every complete entry, its taint alone keeps its row exactly when the entry is neither trivial nor bare and all its origins are synthesised |
| EffectSnapshot.ManufacturesIff | harness/effects_diff.py:664-681 | of two entries that pass the report gate, the oracle omits its row and the port writes one exactly on one of two routes: a lost label uncovers a declared one in a trivial row, or a row dropped as synthesised is more tainted or has other origins |
| EffectSnapshot.CleanReportSnapshot | harness/effects_diff.py:813-870 | with a clean report the only OVER a snapshot comparison can reach is a row the oracle omits, and it is reached exactly when some pair of entries takes one of those routes |
| EffectSnapshot.LostLabelManufacturesRow | harness/effects_diff.py:664-681 | a port that only lost a label: the report is clean, the snapshot gains a row |
| EffectSnapshot.TaintManufacturesRow | harness/effects_diff.py:664-681 | an entry that is merely more tainted: the report is clean, the snapshot gains a row |
| Ordering.SortsUnique | harness/effects_diff.py:578 | there is one increasing listing of a set of strings |
| Ordering.LessIff | harness/effects_diff.py:578 | the order is by code point: the first difference decides, and a proper prefix comes first |
| Ordering.Sort | harness/effects_diff.py:578 | sorting a set yields that listing |
| Json.LoadOfDump | harness/effects_diff.py:526-529 | every JSON string reads back as itself |
| SnapshotText.JsonWritten | harness/effects_diff.py:526-529 | every character of a JSON string: two behind a backslash, five controls as letters, the other controls as four lower-case hexadecimal digits, the rest unchanged |
| SnapshotText.LetterReads | harness/effects_diff.py:585-592 | the escape letters that JSON knows, with their characters, and no others |
| SnapshotText.PlainReads | harness/effects_diff.py:585-592 | a character by itself reads as itself, a control character is refused |
| SnapshotText.UnicodeReads | harness/effects_diff.py:585-592 | four hexadecimal digits read as the character they spell |
| SnapshotText.LoneHalfRefused | harness/effects_diff.py:585-592 | a half of a surrogate pair by itself is refused |
| SnapshotText.PairReads | harness/effects_diff.py:585-592 | a surrogate pair reads as one character beyond the sixteen-bit range, and a high half without a low one is refused |
| Json.LoadOfDumpArray | harness/effects_diff.py:532-538 | every flow sequence of strings reads back as itself |
| SnapshotText.ArrayReads | harness/effects_diff.py:585-587 | arrays of strings with any white space between their parts |
| SnapshotText.TrailingCommaRefused | harness/effects_diff.py:585-587 | a comma without a member behind it is refused |
| SnapshotWire.IntReads | harness/effects_diff.py:592 | every integer reads back from its decimal text |
| SnapshotWire.WireReads | harness/effects_diff.py:532-592 | every list, flag, string and number reads back as itself and stays on one line |
| SnapshotRefusals.ValueIs | harness/effects_diff.py:585-592 | flags and numbers by exactly their spellings: an optional sign, digits, single underscores between digits |
| SnapshotCodec.PushRow | harness/effects_diff.py:578-581 | a row is its key and its fields without those at their default |
| SnapshotCodec.PushTable | harness/effects_diff.py:566-582 | a table lists its rows in sorted order, or `{}` |
| SnapshotCodec.RenderSnapshot | harness/effects_diff.py:554-582 | the methods that push rows, tables and the note write the lines of the whole file |
| SnapshotText.RowText | harness/effects_diff.py:541-552 | the lines of every row: key and effects always, each other field only where it differs from its default |
| SnapshotText.SnapshotIs | harness/effects_diff.py:554-582 | the text of every snapshot: comment, four header fields, methods, the note exactly when there are no entry points, entry points; keys in order of code point, each with the lines of its row |
| SnapshotCodec.Complete | harness/effects_diff.py:635-643 | defaults are filled in row by row; a count that is no number is refused |
| SnapshotCodec.ParseSnapshot | harness/effects_diff.py:595-644 | the line loop with its header, tables, section and key computes the specified reading, with each of its errors |
| SnapshotTrip.RowTakes | harness/effects_diff.py:541-632 | the lines of a row leave exactly that row in the table being read |
| SnapshotTrip.TableTakes | harness/effects_diff.py:566-632 | the lines of a table leave exactly that table |
| SnapshotTrip.ParseOfRender | harness/effects_diff.py:526-644 | every snapshot reads back with its omitted defaults in place; a header of another schema is refused for that alone |
| SnapshotText.PinnedIff | harness/effects_diff.py:595-644 | a written snapshot is accepted exactly when its schema is 2 |
| SnapshotRefusals.AnyRowReads | harness/effects_diff.py:608-643 | the fields of a row in any order and number: the last of each counts, a missing one has its default, and a count that is no number is refused |
| SnapshotRefusals.LooseKeyReads | harness/effects_diff.py:615-619 | a key may be followed by any number of colons and white space |
| SnapshotRefusals.AnyHeaderReads | harness/effects_diff.py:626-634 | the header fields in any order and number: all four are needed, the last of each counts, and the schema must be the number 2 |
| SnapshotRefusals.UnknownTopLevelRefused | harness/effects_diff.py:620-629 | any other key at the margin is refused behind every snapshot |
| SnapshotRefusals.BadOpenerRefused | harness/effects_diff.py:622-625 | a table name is followed by nothing or empty braces |
| SnapshotRefusals.FieldOutsideRowRefused | harness/effects_diff.py:608-610 | a field before the tables or right behind a table name is refused |
| SnapshotRefusals.RowOutsideTableRefused | harness/effects_diff.py:615-617 | a row before the tables is refused |
| SnapshotRefusals.UnknownFieldRefused | harness/effects_diff.py:611-613 | a row field of any other name is refused |
| SnapshotRefusals.BadKeyRefused | harness/effects_diff.py:615-619 | a row key that does not start like a JSON string is refused |
| SnapshotRefusals.BadValueRefused | harness/effects_diff.py:611-614 | a value that is no list, flag, string or number is refused with its text |
| SnapshotRefusals.CommentsIgnored | harness/effects_diff.py:606-607 | empty lines and comments can stand anywhere |
| SnapshotTrip.RenderInjective | harness/effects_diff.py:541-582 | no two snapshots are written alike, whatever their schema |
| SnapshotTrip.WriteAndRead | harness/effects_diff.py:554-644 | the imperative writer and reader: the text written and its reading, which is the snapshot |
| SymbolArray.ExtractSymbolArray | harness/vendor_effects.py:133-143 | the depth scan succeeds exactly when some bracket closes the literal with balanced text before it, and returns the words before that bracket |
| SymbolArray.ClosesOnce | harness/vendor_effects.py:133-143 | at most one bracket closes a literal |
| SymbolArray.LiteralReads | harness/vendor_effects.py:121-143 | in the text of a literal, however laid out and whatever follows, the closing bracket is the one behind the selectors and the words before it are the selectors, brackets of their own included |
| SymbolArray.LazyMatchIff | harness/vendor_effects.py:124-128 | stopping at the first closing bracket would agree exactly when no bracket opens inside |
| ConstantText.ConstantRhs | harness/vendor_effects.py:146-162 | the right-hand side ends at the first line feed outside any bracket, or with the source |
| ConstantText.BracketsReadWhole | harness/vendor_effects.py:146-162 | a right-hand side in brackets of any of the three kinds, with balanced text inside, is read whole over any number of lines |
| ConstantText.ReadWholeIff | harness/vendor_effects.py:146-162 | a right-hand side followed by a line feed ends at that line feed exactly when its brackets balance and its own line feeds all stand inside brackets |
| ConstantText.PlainEndsAtFeed | harness/vendor_effects.py:146-162 | text without brackets ends with its line |
| ConstantResolution.ResolveConstant | harness/vendor_effects.py:171-210 | the recursive procedure with its growing list computes the specified resolution, and terminates on every table with the unseen constants as measure |
| ConstantResolution.ResolvesIffGrounded | harness/vendor_effects.py:171-210 | it succeeds if and only if every definition reachable from the constant is readable and no way there meets a constant twice |
| ConstantResolution.ResolveYields | harness/vendor_effects.py:181-210 | an array yields its members as written, a union the leaves below it from left to right, each once where it first appeared |
| ConstantResolution.ResolveMeaning | harness/vendor_effects.py:171-210 | both together for a call from scratch, with no repeats in a union |
| ResolutionErrors.LocateIs | harness/vendor_effects.py:197-203 | a path means the first of its candidates that is a file, and cannot be located exactly when none is |
| ResolutionErrors.ErrorIsFound | harness/vendor_effects.py:171-210 | every failure blames a constant that a walk without repeats reaches: met before, without its file, without a definition, an unterminated literal, a path without a file, or a term of another shape |
| ResolutionErrors.FirstFailure | harness/vendor_effects.py:193-210 | a union fails with the error of its first term that fails |
| ConstantResolution.DedupSnoc | harness/vendor_effects.py:209 | extending keeps each member once, where it appeared first |
| LibraryClosure.ResolveClosure | harness/vendor_rbs.py:68-86 | resolved lists exactly the reachable libraries with a directory, skipped exactly the reachable names without, each once; the loop terminates |
| LibraryClosure.SeedOrderIrrelevant | harness/vendor_rbs.py:68-86 | the closure depends only on the set of seeds |
| LibraryClosure.CloseTwice | harness/vendor_rbs.py:68-86 | closing the closure of the seeds gives the same libraries |
| ModuleSplit.DedentBody | harness/split/split_tests.py:54-62 | the loop de-indents by four, keeps literal and empty lines, and refuses the first line it cannot |
| ModuleSplit.CutModules | harness/split/split_tests.py:38-78 | the cutting loop yields the modules and the remaining file as specified |
| SplitRules.MovedExactly | harness/split/split_tests.py:38-64 | the moved modules are exactly the selected top-level modules that open with `mod NAME {` behind a line `#[cfg(test)]` of their own and end in a brace at the margin, each with its first such line and its body moved left by four columns |
| SplitRules.CutRefusedIff | harness/split/split_tests.py:38-62 | a cut is refused for its first item whose file exists or whose body has a line that cannot be moved left, with the number of the first such line |
| SplitRules.DeclarationIs | harness/split/split_tests.py:60 | the opening line stays behind as a declaration, with the white space around it |
| ModuleSplit.Reinline | harness/split/split_tests.py:81-93 | the loop puts every moved body back behind its declaration |
| ModuleSplit.OpenLineBack | harness/split/split_tests.py:64-89 | an opening line, replaced and chopped, comes back exactly when it ends with its brace |
| ModuleSplit.ReinlineIff | harness/split/split_tests.py:38-95 | for every cut: opening lines end with their brace, modules of one name have the same lines, no de-indented line was indentation alone and no other line reads like a declaration, if and only if re-inlining gives the file back and modules of one name have as many lines |
| ModuleSplit.SplitTests | harness/split/split_tests.py:29-95 | the whole script on text: a cut is reversible if and only if it passes the closing check and modules of one name have as many lines, and on success the bodies put back give the original text |
| Realigned.WrongPlacesPass | harness/split/split_tests.py:78-95 | a file with three modules of one name whose cut is not reversible and passes the closing check |
| ModuleSplit.TrailingBlankRefused | harness/split/split_tests.py:64-89 | a blank behind an opening brace makes the check fail |
| UseItems.InOrderKeys | harness/split/splitlib.py:177-185 | names come sorted by group and code point, `self` first, none twice |
| UseItems.InOrderSooner | harness/split/splitlib.py:177-185 | any two names in order: `self`, then small first letters, then mixed case, then no small letter, each by code point |
| UseItems.WrapLines | harness/split/splitlib.py:193-199 | the wrapping loop yields the specified groups of names as lines |
| UseItems.FmtUse | harness/split/splitlib.py:183-200 | the printed item is the specified one in each of its four shapes |
| UseItems.OneLineIff | harness/split/splitlib.py:186-192 | two names or more are printed on one line exactly when that line keeps to the width |
| UseItems.LineIs | harness/split/splitlib.py:193-199 | a wrapped line is four spaces, its names with a comma and a space between them, and a comma |
| UseTrip.ParseOfFormat | harness/split/splitlib.py:72-85 | reading a printed item gives its path and sorted names, wrapped or not, for every set of names but the one that holds `self` alone |
| UseTrip.FormatAndParse | harness/split/splitlib.py:72-200 | the imperative printer: the text printed and what it reads back as |
| UseTrip.WrapPacks | harness/split/splitlib.py:193-199 | lines of two or more names keep to the width, and a line ends only where the next name would not fit |
| UseTrip.WrappedWidth | harness/split/splitlib.py:193-199 | a line passes the width only around one name alone, and only the first can be blank |

## Left out

- SnapshotCodec.ParseSnapshot: row keys that are JSON values other than strings are refused, where `json.loads` takes numbers, booleans and null.
- SnapshotWire.ReadInt: `int` on digits from outside ASCII and its limit on the number of digits.
- Json.LoadString: unpaired surrogates are refused, since strings hold scalar values; `json.loads` keeps them. Arrays of anything but strings and nested arrays are refused.
- Scalars.ScanQuotedSpan: stands for the quoted branch of `scalar_head`; the line reader calls the function `Scalars.ScalarHead`, whose quoted span that method computes.
- The regular-expression searches that find a constant's definition in Ruby source, the parsing of union terms, and the mapping of module paths to files: `ConstantResolution` starts from the definitions they find, with the candidate files of each path.
- The manifest line pattern: `LibraryClosure` starts from the dependencies each manifest names.
- The Rust item lister and the literal finder behind `split_tests.py`: the items and the lines to keep are inputs, with items inside the file and modules that do not overlap. `Realigned.WrongPlacesPass` rests on that freedom: its literal lines are chosen, not found.
- Error texts and `ruby_inspect`: errors are constructors of datatypes with the values they mention.
- Type inference, narrowing and rule logic; subprocesses, files, caches, command lines and exit codes; YAML libraries, SHA-256 and syn.
- `compare_snapshot_headers`, `config_digest`, `render_mutators`, `fixvis.py`, `doclinks.py` and `annotate.rs`: they would only add easy members.
