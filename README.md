# cp-font-gen core in Dafny

cp-font-gen builds bitmap fonts for CircuitPython from a YAML configuration.
It collects the wanted characters, subsets a TrueType font, converts the subset
to BDF (and optionally PCF) for every configured size, and writes a JSON
manifest. This project models, and proves properties of:

- the character-set utilities (`utils.py`): `U+XXXX` naming in code-point order,
  range-expression expansion, and the coverage check against a font's cmap;
- `collect_characters` (`config.py`);
- `GenerationLogger` (`logger.py`): an append-only record of command entries,
  warnings and errors, plus the lines each call echoes;
- `generate_font` and `generate_metadata` (`generator.py`);
- the verbosity choice, character preview, summary and exit status of the
  `generate` command (`cli.py`).

Modules:

| file | module | models |
|---|---|---|
| wrappers.dfy | `Wrappers` | `Option` and `Result` |
| numerals.dfy | `Numerals` | `int(s, 16)`, `:X`/`:04X` formatting and `str(n)` |
| utils.dfy | `Utils` | sorting, `U+` names, range expressions, the coverage partition |
| logger.dfy | `Logger` | `GenerationLogger` as a class with three sequence fields |
| coverage.dfy | `Coverage` | `check_character_coverage` with its logger |
| config.dfy | `Config` | `collect_characters` |
| generator.dfy | `Generator` | `generate_font` and `generate_metadata` |
| cli.dfy | `Cli` | verbosity, preview, summary and exit status of `generate` |

A character is its Unicode code point, an integer in [0, 0x10FFFF]. Python's
`chr` accepts every such integer, surrogates included. A Python `str` of
characters is a `seq` of code points. File names and messages are Dafny strings.

Each Python loop that builds a result is modelled as a Dafny method with a `while`
loop. Examples are the span loop of `unicode_range_to_chars`, the `unicode_ranges`
loop of `collect_characters`, the coverage partition and the loop over sizes in
`generate_font`. Each method is proved against a specification:
- `CollectCharacters`, `AddRanges`, `UnicodeRangeToChars`, `ProcessSizes` and
  `GenerateFont` are proved equal to recursive or closed-form functions
  (`Collected`, `RangesUnion`, `RangeSpec`, `ProducedFiles`, `DiskAfterSizes`, `LoopRecords`);
- `FillSpan` is proved equal to `SpanOutcome`, whose contract pins its result to
  the closed-form interval or to `ChrOutOfRange`;
- `PartitionCoverage` is proved against set properties: `found` and `missing`
  are disjoint, they cover the request, and they are separated by the font's
  code points.

The remaining properties are lemmas about those functions.

`GenerationLogger` is a class whose methods append to its fields and state
their whole new state. `generate_font` does not call the converter tools. For each
configured size it receives a `StageOutcome`: whether subsetting, BDF conversion,
the encoding fix and PCF conversion succeeded, whether a failed BDF
conversion left a partial file, and the `LogRecords` (command entries, warnings
and errors) the converter functions added to the logger for that size. The
loop replays those records into the logger, then adds the skip warning. So the
logger's final state is its old state plus `LoopRecords`, the per-size fold of
those records. The font output directory is modelled as the
set of `OutputFile`s it contains. `FileName` gives the on-disk names, and
`FileNamesDistinct` shows that different files get different names.

`Generator.RepeatedSizeLosesFile` shows a case the code does not guard against.
A size listed twice can have its kept `.bdf` deleted by the second pass while it
is still listed in `generated_files`. For that reason `ProducedOnDisk` and
`SizeFilesOnDisk` assume the sizes are distinct.

## Model

| member | source | states |
|---|---|---|
| Utils.Min | src/cp_font_gen/utils.py:17 | the smallest code point of a non-empty set is a member and at most every member |
| Utils.MinExists | src/cp_font_gen/utils.py:17 | every non-empty set of code points has a least element |
| Utils.Sorted | src/cp_font_gen/utils.py:17 | `sorted(chars)` has the set's size and its members, in strictly increasing order |
| Numerals.FormatDigits | src/cp_font_gen/utils.py:17 | the hex digits of a number are non-empty, upper case and valid in the base |
| Numerals.DigitValue | src/cp_font_gen/utils.py:37-38 | a character is a hex digit (either case) exactly when it has a value, which is below 16 |
| Numerals.ParseDigits | src/cp_font_gen/utils.py:37-38 | `int(s, 16)` on plain ASCII hex digits: succeeds exactly on a non-empty string of them (see Left out) |
| Numerals.DigitRoundTrip | src/cp_font_gen/utils.py:17 | reading back a formatted digit gives the digit |
| Numerals.FormatParseRoundTrip | src/cp_font_gen/utils.py:17 | parsing the formatted digits of `n` gives `n` back |
| Numerals.ZeroPad | src/cp_font_gen/utils.py:17 | `:04X` padding yields at least four characters: leading zeros, then the digits |
| Numerals.Zeros | src/cp_font_gen/utils.py:17 | definition: `k` zero characters |
| Numerals.LeadingZeroValue | src/cp_font_gen/utils.py:37-38 | a leading zero does not change the value read |
| Numerals.ZerosValue | src/cp_font_gen/utils.py:37-38 | any number of leading zeros leaves the value unchanged |
| Numerals.DecimalString | src/cp_font_gen/utils.py:97-101 | the decimal rendering of a count is never empty |
| Numerals.FormatInjective | src/cp_font_gen/utils.py:17 | different numbers have different digit strings |
| Numerals.Power | src/cp_font_gen/utils.py:17 | a power of a positive base is positive |
| Numerals.FormatLength | src/cp_font_gen/utils.py:17 | a number below `base^k` has at most `k` digits |
| Numerals.FormatLeading | src/cp_font_gen/utils.py:17 | the digits of a positive number do not start with `0` |
| Numerals.SignMark | src/cp_font_gen/cli.py:158 | a decimal rendering starts with `-` exactly for negative numbers |
| Numerals.DecimalStringInjective | src/cp_font_gen/cli.py:158 | different counts render differently |
| Utils.UnicodeName | src/cp_font_gen/utils.py:17 | `f"U+{ord(c):04X}"`: `U+` then upper-case hex digits denoting `c`; exactly six characters up to U+FFFF, and no leading zero when longer |
| Utils.HexWidth | src/cp_font_gen/utils.py:17 | a code point up to U+FFFF has at most four hex digits, and no longer rendering starts with `0` |
| Utils.NameList | src/cp_font_gen/utils.py:17 | definition: one name per code point, position by position |
| Utils.NameListOfSorted | src/cp_font_gen/utils.py:17 | the names of an ascending listing of a set are well formed, denote exactly its members, and ascend |
| Utils.CharsToUnicodeList | src/cp_font_gen/utils.py:8-17 | one well-formed name per character, every character named, names ascending by code point; the name at each position is `UnicodeName` of the character at that position of `sorted(chars)` |
| Utils.ConsIncreasing | src/cp_font_gen/utils.py:17 | a value below an increasing sequence can be put in front of it |
| Utils.RemoveUPlus | src/cp_font_gen/utils.py:32 | `replace("U+", "")` never lengthens the string |
| Utils.IndexOf | src/cp_font_gen/utils.py:34-36 | the first position of the dash, or none when there is no dash |
| Utils.HexLiteral | src/cp_font_gen/utils.py:37-38 | a literal of plain ASCII hex digits is accepted exactly when `int(literal, 16)` parses it (see Left out) |
| Utils.ParseRange | src/cp_font_gen/utils.py:32-38 | the body after `replace("U+", "")` parses exactly when it is one hex literal, or two hex literals split at the first dash with no dash after it, and then yields their values; `TooManyDashes` exactly when a second dash follows; every other failure is `InvalidHexLiteral` naming the first literal `int(…, 16)` rejects: the whole body, else the start, else the end |
| Utils.SpanOutcome | src/cp_font_gen/utils.py:39-40 | a span succeeds exactly when it is empty or ends at most at 0x10FFFF, fails only with `ChrOutOfRange`, and holds exactly the code points from `first` to `last` |
| Utils.RangeSpec | src/cp_font_gen/utils.py:20-46 | parse errors pass through; a single literal gives exactly its code point unless above 0x10FFFF; a span gives exactly its interval unless a non-empty span passes 0x10FFFF; `ChrOutOfRange` only after a successful parse |
| Utils.Interval | src/cp_font_gen/utils.py:39-40 | the code points between the bounds, inclusive, with `last - first + 1` members when non-empty |
| Utils.FillSpan | src/cp_font_gen/utils.py:39-40 | the span loop returns the interval, or `ChrOutOfRange` when a non-empty span passes 0x10FFFF |
| Utils.UnicodeRangeToChars | src/cp_font_gen/utils.py:20-46 | the method equals `RangeSpec`: split at the dash, parse each hex literal, fill the span or add the single code point, raise on each documented error |
| Utils.IntervalSize | src/cp_font_gen/utils.py:39-40 | `U+s-e` with `s <= e` holds `e - s + 1` characters |
| Utils.RemoveUPlusNoU | src/cp_font_gen/utils.py:32 | `replace` changes nothing in a string without `U` |
| Utils.HexBodyParses | src/cp_font_gen/utils.py:32-36 | removing the `U+` of a well-formed name leaves dash-free hex digits |
| Utils.NameExpands | src/cp_font_gen/utils.py:42-44 | a well-formed name expands to the one code point it denotes |
| Utils.UnicodeNameRoundTrip | src/cp_font_gen/utils.py:8-46 | expanding the `U+XXXX` name of a character gives back exactly that character |
| Utils.SingletonListed | src/cp_font_gen/utils.py:8-17 | a one-character set lists exactly that character's name |
| Utils.NameOfLatinCapital | src/cp_font_gen/utils.py:17 | the name of a character from `A` to `I` is `U+004` followed by one digit |
| Utils.LatinCapitalsListed | tests/test_utils.py:6-10 | `{"A", "B", "C"}` lists as `["U+0041", "U+0042", "U+0043"]` |
| Utils.ZeroDigitsValue | src/cp_font_gen/utils.py:37-38 | `004d` reads as `0x40 + d` for a digit `d` from 1 to 9 |
| Utils.LatinCapitalsRange | tests/test_utils.py:22-26 | `U+0041-0043` expands to exactly `{"A", "B", "C"}` |
| Utils.SingleForm | src/cp_font_gen/utils.py:42-44 | a dash-free expression gives one code point, or `ChrOutOfRange` above 0x10FFFF |
| Utils.SpanForm | src/cp_font_gen/utils.py:34-40 | an in-range span holds exactly the code points from `s` to `e`, with `e - s + 1` members, or none when `s > e` |
| Utils.DashSplit | src/cp_font_gen/utils.py:34-36 | the first dash splits `left-right` into its two parts |
| Utils.NamesSpan | src/cp_font_gen/utils.py:20-46 | `U+HHHH-HHHH` built from two names expands to the interval between their code points |
| Utils.SpanOfNames | src/cp_font_gen/utils.py:20-46 | the range written with the names of two code points expands to their interval |
| Utils.PartitionCoverage | src/cp_font_gen/utils.py:79-84 | the loop splits the request into disjoint `found` (mapped by the font) and `missing` (not mapped) sets |
| Utils.SummarizeCoverage | src/cp_font_gen/utils.py:89-94 | counts add up to the request; `missing` is exactly the sorted `U+XXXX` list of the missing characters; no `error` key |
| Utils.FailedCoverage | src/cp_font_gen/utils.py:117-127 | after a load failure nothing is found; `missing` is exactly the sorted `U+XXXX` list of the whole request; the error is recorded |
| Coverage.MissingFrom | src/cp_font_gen/utils.py:79-84 | definition: exactly the requested characters the font does not map |
| Coverage.MissingWarning | src/cp_font_gen/utils.py:97-101 | the warning starts with the missing count and ends with ` requested characters not found in source font` |
| Coverage.FailureMessage | src/cp_font_gen/utils.py:114 | the error text is `Failed to check character coverage: ` followed by the exception message |
| Coverage.CoverageOf | src/cp_font_gen/utils.py:79-127 | the statistics of a load outcome: counts add up to the request; `error` exactly after a failure, with everything missing; otherwise `missing` lists exactly the unmapped characters |
| Coverage.CoverageWarnings | src/cp_font_gen/utils.py:97-101 | one warning exactly when the font loaded and misses characters, counting missing out of requested |
| Coverage.CoverageErrors | src/cp_font_gen/utils.py:113-115 | one error exactly when loading the font failed |
| Coverage.ReportCoverage | src/cp_font_gen/utils.py:97-115 | the logger gains exactly those warnings and errors; its execution log is unchanged |
| Coverage.CheckCharacterCoverage | src/cp_font_gen/utils.py:49-127 | `found`/`missing` partition the request by the cmap, or everything is missing after a failure; the statistics and logger records as above |
| Coverage.CoverageAccounts | src/cp_font_gen/utils.py:89-94 | on both paths found plus missing equals requested, and `error` is present exactly on the failure path |
| Logger.Spaces | src/cp_font_gen/logger.py:55-63 | definition: the indent is that many spaces (none for a negative indent) |
| Logger.KindOf | src/cp_font_gen/logger.py:25-53 | `started`, `success` and `failed` are told apart; all other statuses are treated alike |
| Logger.SuccessTail | src/cp_font_gen/logger.py:41-47 | the success tail is empty exactly when none of `output`, `size_kb`, `glyphs_produced` is given, and starts with ` → ` when `output` is |
| Logger.CommandEcho | src/cp_font_gen/logger.py:36-53 | nothing unless verbose or for an unknown status; one line, or two for a failure with an `error` detail; failures go to standard error |
| Logger.EchoShowsCommand | src/cp_font_gen/logger.py:36-53 | the first echoed line ends with `[step] command`, followed by the output/size/glyph tail on success |
| Logger.Append | src/cp_font_gen/logger.py:12-23 | proof helper: records appended record by record |
| Logger.AppendAssociative | src/cp_font_gen/logger.py:12-23 | proof helper: appending records is associative |
| Logger.GenerationLogger.constructor | src/cp_font_gen/logger.py:12-23 | debug implies verbose; all three records start empty |
| Logger.GenerationLogger.Records | src/cp_font_gen/logger.py:21-23 | the logger's three records, as a `LogRecords` value |
| Logger.GenerationLogger.LogCommand | src/cp_font_gen/logger.py:25-53 | appends exactly one entry (step, command, status, details); warnings and errors unchanged |
| Logger.GenerationLogger.Info | src/cp_font_gen/logger.py:55-63 | echoes the indented message exactly in verbose mode |
| Logger.GenerationLogger.Warn | src/cp_font_gen/logger.py:65-73 | always records the warning; echoes it only in verbose mode |
| Logger.GenerationLogger.Error | src/cp_font_gen/logger.py:75-82 | always records the error and echoes it to standard error |
| Logger.GenerationLogger.Success | src/cp_font_gen/logger.py:84-91 | echoes the check-marked message exactly in verbose mode |
| Logger.GenerationLogger.Section | src/cp_font_gen/logger.py:93-100 | echoes the title after a blank line exactly in verbose mode |
| Logger.GenerationLogger.GetDebugInfo | src/cp_font_gen/logger.py:102-125 | definition: the version and the three records as they stand, with coverage exactly when it was passed |
| Config.TextChars | src/cp_font_gen/config.py:42-55 | `set(text)` holds exactly the characters of the text |
| Config.Sources | src/cp_font_gen/config.py:39 | a missing `characters` section acts as one with no inline text, no file and no ranges |
| Config.IsSpace | src/cp_font_gen/config.py:67-68 | `str.isspace`: the ASCII blank and tab-to-carriage-return characters are whitespace, no printable ASCII character is, and none is beyond U+3000 |
| Config.DistinctTextChars | src/cp_font_gen/config.py:46-55 | a text of pairwise distinct characters has that many distinct characters |
| Config.Expansions | src/cp_font_gen/config.py:58-60 | definition: the expansion of each range expression, in order |
| Config.RangesUnion | src/cp_font_gen/config.py:58-60 | a failing loop raises the error of one of the configured expressions; a successful one contains every expression's expansion |
| Config.WithoutSpace | src/cp_font_gen/config.py:67-68 | definition: exactly the characters that are not whitespace |
| Config.UnionOf | src/cp_font_gen/config.py:58-60 | a failing union carries the error of one of the expansions; a successful one contains every expansion, all of which succeeded |
| Config.SourceUnion | src/cp_font_gen/config.py:42-60 | a character is gathered exactly when it is in the ranges, in the inline text, or in the file when the key is set and the file exists |
| Config.Collected | src/cp_font_gen/config.py:28-70 | fails exactly when the range union fails, with its error; otherwise within the sources' union, and free of whitespace when stripping is on |
| Config.CollectCharacters | src/cp_font_gen/config.py:28-70 | the method equals `Collected`: inline text, then the existing file, then the ranges, with optional stripping, or the first range error |
| Config.AddRanges | src/cp_font_gen/config.py:58-60 | the ranges loop adds the union of all expansions, or stops with the failing one's error |
| Config.CollectedWhenRangesExpand | src/cp_font_gen/config.py:58-68 | once the ranges expand, the result is the sources' union, stripped when asked |
| Config.UnionOfStep | src/cp_font_gen/config.py:58-60 | one more expansion either fails the union or joins it |
| Config.UnionOfErrSticky | src/cp_font_gen/config.py:58-60 | the first failure is the error of every longer prefix |
| Config.UnionOfMembers | src/cp_font_gen/config.py:58-60 | the union succeeds exactly when every expansion does, and holds exactly their characters |
| Config.UnionOfFirstError | src/cp_font_gen/config.py:58-60 | a failing union carries the first failing expansion's error |
| Config.FirstRangeErrorWins | src/cp_font_gen/config.py:58-60 | collection raises the error of the first failing range expression |
| Config.CollectedMembers | src/cp_font_gen/config.py:28-70 | collection fails exactly when a range fails; otherwise a character is collected exactly when some source has it and it survives stripping |
| Config.EmptyConfig | src/cp_font_gen/config.py:38-39 | without a `characters` section the result is empty |
| Config.AbsentFileIgnored | src/cp_font_gen/config.py:46-55 | a missing character file contributes nothing and raises nothing |
| Config.DeduplicateIrrelevant | src/cp_font_gen/config.py:63-64 | `deduplicate_chars` does not change the result |
| Config.WhitespaceKeptByDefault | src/cp_font_gen/config.py:67-68 | without `strip_whitespace` whitespace is kept |
| Config.StripRemovesExactlySpace | src/cp_font_gen/config.py:67-68 | stripping removes whitespace and nothing else |
| Config.DistinctTextCount | src/cp_font_gen/config.py:46-55 | a file of distinct characters yields as many characters as it has |
| Generator.FileName | src/cp_font_gen/generator.py:94-138 | a file name ends in a kind mark that tells subset, BDF, PCF and manifest apart |
| Generator.FontFamily | src/cp_font_gen/generator.py:72 | the configured font family, or `custom` when none is given |
| Generator.WritesManifest | src/cp_font_gen/generator.py:137 | the manifest is written unless `metadata` is set to false |
| Generator.KeepBdf | src/cp_font_gen/generator.py:105 | BDF is kept exactly when `bdf` is one of the configured formats |
| Generator.NeedPcf | src/cp_font_gen/generator.py:106 | PCF is built exactly when `pcf` is one of the configured formats |
| Generator.Suffix | src/cp_font_gen/generator.py:94-127 | each suffix ends in a four-character extension whose first letter tells the kind apart |
| Generator.FileNames | src/cp_font_gen/generator.py:123-129 | definition: the names of the files, in order |
| Generator.StemInjective | src/cp_font_gen/generator.py:94-127 | `family-<size>pt` plus a suffix determines the size |
| Generator.FileNamesDistinct | src/cp_font_gen/generator.py:94-138 | different output files have different names |
| Generator.SizeFiles | src/cp_font_gen/generator.py:98-129 | a size appends nothing after a failed stage; otherwise the `.bdf` exactly when BDF is requested, then the `.pcf` exactly when PCF is requested and converted |
| Generator.SizeEffect | src/cp_font_gen/generator.py:94-134 | one size never leaves its subset behind, removes it exactly when subsetting succeeded, never creates and removes the same file, and does nothing after failed subsetting |
| Generator.SizeEffectOnFiles | src/cp_font_gen/generator.py:94-134 | the state of a size's subset, `.bdf` and `.pcf` after its pass, and that it touches no other file |
| Generator.SkipWarning | src/cp_font_gen/generator.py:98-120 | one skip warning exactly when a conversion stage failed |
| Generator.SkipMessage | src/cp_font_gen/generator.py:98-120 | `Skipping size <size>pt due to ` followed by the reason |
| Generator.SizeRecords | src/cp_font_gen/generator.py:98-120 | one pass adds the converters' entries and errors, and their warnings followed by the skip warning |
| Generator.ProducedFiles | src/cp_font_gen/generator.py:89-134 | every returned file is a `.bdf` or `.pcf` of a configured size |
| Generator.DiskAfterSizes | src/cp_font_gen/generator.py:89-134 | only files of the configured sizes can change |
| Generator.LoopRecords | src/cp_font_gen/generator.py:89-134 | every error and every warning a converter call recorded for any size ends up in the logger |
| Generator.FinalDisk | src/cp_font_gen/generator.py:89-152 | the manifest is present at the end exactly when metadata is on or it was there already |
| Generator.GenerateMetadata | src/cp_font_gen/generator.py:14-49 | fixed version; characters sorted; `unicode_ranges` is exactly `chars_to_unicode_list(chars)`, position by position the name of each character; count, sizes, formats and files passed through; `debug_info` exactly when given |
| Generator.DebugRecord | src/cp_font_gen/generator.py:136-149 | debug information exactly for a debug logger, carrying the tool version, the coverage statistics and the logger's three records |
| Generator.ProcessSize | src/cp_font_gen/generator.py:89-134 | one pass appends `SizeFiles`, applies `SizeEffect` to the directory, and appends the converters' records followed by the skip warning (`SizeRecords`) to the logger |
| Generator.ConverterRecords | src/cp_font_gen/converter.py:90-242 | replaying a converter's records appends exactly those entries, warnings and errors to the logger |
| Generator.FoldStep | src/cp_font_gen/generator.py:89-134 | one more size extends the files, directory and logger-record folds by that size's step |
| Generator.ProcessNext | src/cp_font_gen/generator.py:89-134 | after the first `i` sizes, one pass gives the files, directory and logger records after `i + 1` |
| Generator.ProcessSizes | src/cp_font_gen/generator.py:89-134 | the loop gives the folds over all sizes in configured order, and the logger gains exactly `LoopRecords`: each size's converter entries, warnings and errors, then its skip warning |
| Generator.CoverageStage | src/cp_font_gen/generator.py:78-84 | coverage is checked, and reported to the logger, only for a debug logger |
| Generator.WriteManifest | src/cp_font_gen/generator.py:136-152 | the manifest exists exactly when metadata is on, carrying the logger's debug information exactly in debug mode |
| Generator.GenerateFont | src/cp_font_gen/generator.py:52-154 | returns `ProducedFiles`, leaves `FinalDisk`; the logger gains the debug coverage messages, then `LoopRecords` (converter entries, warnings, errors and skip warnings); the manifest is written exactly when metadata is on, with `DebugRecord` as its debug information |
| Generator.SizeParts | src/cp_font_gen/generator.py:89-134 | definition: what each size appends, size by size |
| Generator.EffectParts | src/cp_font_gen/generator.py:89-134 | definition: each size's effect, size by size |
| Generator.ConcatAgree | src/cp_font_gen/generator.py:89-134 | proof helper: a concatenation depends only on the parts it takes |
| Generator.ApplyAllAgree | src/cp_font_gen/generator.py:89-134 | proof helper: the directory depends only on the effects applied |
| Generator.ProducedAsConcat | src/cp_font_gen/generator.py:89-134 | `generated_files` is the concatenation of the sizes' contributions |
| Generator.DiskAsApplyAll | src/cp_font_gen/generator.py:89-134 | the directory is the sizes' effects applied in order |
| Generator.ConcatMembers | src/cp_font_gen/generator.py:89-134 | proof helper: an element is in the concatenation exactly when it is in some part |
| Generator.ConcatLength | src/cp_font_gen/generator.py:89-134 | proof helper: parts of at most `w` elements concatenate to at most `n * w` |
| Generator.ConcatEmpty | src/cp_font_gen/generator.py:89-134 | proof helper: the concatenation is empty exactly when every part is |
| Generator.ConcatPairs | src/cp_font_gen/generator.py:89-134 | proof helper: pairs concatenate to a sequence whose positions `2k` and `2k+1` come from part `k` |
| Generator.ApplyAllFrom | src/cp_font_gen/generator.py:89-134 | proof helper: effects that do not touch a file keep its presence |
| Generator.ApplyAllNoCreate | src/cp_font_gen/generator.py:89-134 | proof helper: a file no effect creates is there at the end only if it was there at the start |
| Generator.SizeFilesKept | src/cp_font_gen/generator.py:122-129 | a size lists a file exactly when it keeps it |
| Generator.ProducedFilesMembers | src/cp_font_gen/generator.py:89-154 | a file is returned exactly when some configured size keeps it |
| Generator.ProducedFilesBound | src/cp_font_gen/generator.py:89-154 | at most two files per configured size |
| Generator.NothingProduced | src/cp_font_gen/generator.py:89-154 | nothing is returned exactly when every size failed a stage or keeps neither format |
| Generator.FullSize | src/cp_font_gen/generator.py:122-129 | a fully converted size with both formats requested lists its `.bdf`, then its `.pcf` |
| Generator.FullRun | src/cp_font_gen/generator.py:89-154 | when every stage succeeds with both formats, the result lists `.bdf` then `.pcf` for each size in configured order |
| Generator.OnlyOwnSize | src/cp_font_gen/generator.py:94-134 | a size's pass touches only that size's files |
| Generator.ThisSizeOnly | src/cp_font_gen/generator.py:89-154 | with distinct sizes, a size's files end up as its own pass alone leaves them |
| Generator.SizeFilesOnDisk | src/cp_font_gen/generator.py:89-154 | with distinct sizes, the final state of each size's subset, `.bdf` and `.pcf` |
| Generator.UntouchedFiles | src/cp_font_gen/generator.py:89-154 | files of sizes that are not configured are left as they were |
| Generator.NoSubsetLeft | src/cp_font_gen/generator.py:94-134 | no run leaves behind a subset file that was not there before |
| Generator.ManifestOnDisk | src/cp_font_gen/generator.py:136-149 | the manifest is there at the end exactly when metadata is on or it was there already |
| Generator.ProducedOnDisk | src/cp_font_gen/generator.py:89-154 | with distinct sizes, every returned file exists when `generate_font` returns |
| Generator.RepeatedSizeLosesFile | src/cp_font_gen/generator.py:89-134 | with size 12 listed twice, a returned `.bdf` can be missing from the directory at the end |
| Generator.LoopErrorsEmpty | src/cp_font_gen/generator.py:89-134 | the loop records no error exactly when no size's converter calls recorded one |
| Generator.LoopWarningsEmpty | src/cp_font_gen/generator.py:89-134 | the loop records no warning exactly when every size converted and its converter calls warned about nothing |
| Generator.SkipWarningRecorded | src/cp_font_gen/generator.py:98-120 | every skipped size's skip warning is among the logger's warnings |
| Cli.LowerAscii | src/cp_font_gen/cli.py:90 | lowering keeps the length and lowers each letter |
| Cli.ConfigLevel | src/cp_font_gen/cli.py:90 | the configured level lowered letter by letter (`LowerAscii`), or `default` when the section or the key is missing |
| Cli.ResolveVerbosity | src/cp_font_gen/cli.py:89-109 | `--debug` gives verbose+debug, `--verbose` gives verbose only; otherwise the level `debug` or `verbose` decides; debug always implies verbose |
| Cli.LowerAsciiIdempotent | src/cp_font_gen/cli.py:90 | lowering twice is lowering once |
| Cli.LevelCaseInsensitive | src/cp_font_gen/cli.py:90-109 | a level and its lower-case form resolve alike |
| Cli.UpperCaseLevels | src/cp_font_gen/cli.py:90-109 | `DEBUG` and `Verbose` act as `debug` and `verbose` |
| Cli.DefaultIsQuiet | src/cp_font_gen/cli.py:89-109 | a missing `logging` section or `level` key means quiet mode |
| Cli.Shown | src/cp_font_gen/cli.py:117 | at most 50 characters, the first ones in code-point order |
| Cli.Preview | src/cp_font_gen/cli.py:117-119 | the whole sorted set up to 50 characters; beyond that the first 50 plus `...` |
| Cli.PreviewSmallest | src/cp_font_gen/cli.py:117 | every character is shown, or it is larger than every shown character |
| Cli.Summary | src/cp_font_gen/cli.py:156-171 | three lines on success; on failure three to six lines, with the hint exactly when errors occurred in a quiet run |
| Cli.ExitStatus | src/cp_font_gen/cli.py:156-173 | status 1 exactly when no file was generated |
| Cli.ExitReflectsStages | src/cp_font_gen/cli.py:150-173 | the command exits with 1 exactly when every size failed a stage or kept neither format |
| Cli.ConverterErrorShowsHint | src/cp_font_gen/cli.py:156-171 | a quiet run that generated nothing shows the hint once any converter call recorded an error |

## Left out

- The converter stages (`generate_subset_font`, `convert_to_bdf`, `fix_bdf_encodings`, `convert_to_pcf`) are not modelled. They run external tools. Each size's outcomes, including the entries, warnings and errors the converters record, are an input (`StageOutcome.records`).
- Generator.ProcessSize: the model does not check that a size's converter records match the stages that ran (for example, an error record for each failed stage). Within one size, entries, warnings and errors are recorded in three separate sequences, so their interleaving with each other and with the echoed lines is not kept.
- A partial subset file left by failed subsetting is not modelled. A partial `.bdf` after a failed BDF conversion is an input flag.
- The directory holds only the files `generate_font` creates. Paths, `mkdir` and the JSON serialisation of the manifest are not modelled. `generated_files` is returned as `OutputFile`s, and `FileNames` renders their names.
- The lines `generate_font` and `ProcessSize` echo through the logger are not collected. Each logger method returns its echo; colours and the choice of terminal are dropped.
- The timestamp of `get_debug_info` (wall clock) is left out of `DebugInfo`.
- Logger.GenerationLogger.LogCommand: the details of a log entry are a map from names to strings. The source keeps the keyword arguments' own values (`glyphs_produced` is an integer, converter.py:82) and their order, and both reach the execution log. The model keeps neither.
- The debug echo of the first missing characters in `check_character_coverage` (utils.py:103-109) is not modelled.
- Loading the font and reading its cmap tables are not modelled. The caller passes the mapped code points or the exception text.
- Reading the character file is not modelled: it arrives as decoded text or `None`. UTF-8 decoding errors, YAML loading and path resolution are left out, and so are `load_config` and the `extract`, `check` and `show` commands.
- Utils.HexLiteral: Python's `int(s, 16)` also accepts surrounding whitespace, a leading `+` or `-`, underscores between digits, a `0x` prefix and non-ASCII Unicode decimal digits (`int("٤١", 16)` is 65). The model accepts plain ASCII hex digits only. So it rejects inputs the source accepts: `U++41` expands to `{'A'}` in the source and fails here.
- Numerals.ParseDigits: models `int(s, 16)` on plain ASCII hex digits only, for the same reasons as `Utils.HexLiteral`.
- Utils.RangeSpec: the `ValueError` from unpacking a split with two or more dashes is modelled as `TooManyDashes`. The message text is not modelled.
- Cli.LowerAscii: `str.lower` is modelled on ASCII letters only. Only the Kelvin sign (U+212A) and U+0130 lower to ASCII letters beyond A-Z. The Kelvin sign lowers to `k`, which occurs in neither `debug` nor `verbose`; U+0130 lowers to `i` plus a combining dot, so it cannot yield either word. The comparison is therefore unaffected.
- Config.IsSpace: the whitespace set is written out as the code points Python's `str.isspace` accepts. It is not derived from the Unicode database.
- The dry run, output-directory resolution, the progress bar and the `Found N unique characters` echo of the `generate` command are not modelled.
