# SwathCoverage data handling, modelled in Dafny

This project models the data-handling core of the SeaMapper swath coverage
tools. It covers three parts:

- **Swath PKL converter** (`kmall_to_pkl_converter.py`). It turns a parsed
  multibeam file into a swath PKL record. For each ping it keeps the outermost
  port and starboard soundings. Ping-mode fields and the HDR, RTP, `start_byte`
  and `cmnPart` tables are filled in with their defaults. The model also
  covers the extension dispatch, the output name, the skip rule, the
  converted/skipped/failed tally of a conversion run, and the session
  configuration merged with its defaults.
- **File-list helpers** (`libs/file_fun.py`). These add files to the source
  list without duplicates and filter a new-file list by extension and base
  name. They also collect files from a directory, remove files, show or hide
  paths, and derive the ship and model names.
- **Plotter data state** (`swath_coverage_plotter.py`). This covers the
  decimation-cache state machine, loading a batch of PKL files into
  `data_new`, and re-keying it by `fname`. It also covers merging the new
  detection dictionary into `det`, adding PKL files from a directory without
  duplicates, and the test that enables the source-file buttons.

Files:

| file | module | contents |
|---|---|---|
| `common.dfy` | `Common` | `Option`, the `Value` kinds stored in dictionaries, `str()` of integers |
| `strings.dfy` | `Strings` | the Python string and path operations the core uses |
| `ordered_dict.dfy` | `OrderedDict` | insertion-ordered dictionaries (assignment, lookup, keys, values) |
| `pkl_record.dfy` | `PklRecord` | `process_data_for_plotting` |
| `conversion.dfy` | `Conversion` | `convert_single_file`, `run` and `load_session_config` |
| `file_fun.dfy` | `FileFun` | the file-list helpers, with `SourceFileList` holding the list widget state |
| `plotter.dfy` | `Plotter` | the plotter state, with `PlotterData` holding the window's fields |

Modelling choices:

- A Qt list widget is a sequence of its item texts, or of text/data pairs.
- Results of `os.walk`, `os.listdir`, `getmtime`, `getsize` and the JSON
  session file are parameters.
- The routines of the unseen analysis library are function parameters:
  `load_pickle_file`, `apply_swath_pkl_decimation`, `interpretMode` and
  `sortDetectionsCoverage`.
- So are the parsers `readKMALLswath` and `readALLswath`.
- An exception the source catches becomes an `Option`, a `Raised` outcome or
  a `false` result.
- Loops that update state step by step are `while`/`for` loops in methods,
  each proved against a function that specifies it.
- Objects whose fields the source updates are classes: `SourceFileList` and
  `PlotterData`.

## Model

| member | source | states |
|---|---|---|
| Common.NatToString | libs/file_fun.py:349 | Python's `str()` of a natural number: at least one decimal digit, and "0" exactly for zero |
| Common.NatToStringRoundTrip | libs/file_fun.py:349 | reading the digits back gives the number, so `str()` loses nothing |
| Common.IntToString | kmall_to_pkl_converter.py:376 | `str()` of an integer is non-empty and starts with '-' iff the integer is negative |
| Common.ValueToString | kmall_to_pkl_converter.py:376 | `str()` of a number is non-empty and signed iff negative; of a boolean, "True" or "False" |
| PklRecord.PortScan | kmall_to_pkl_converter.py:419-423 | the scan over the first n values returns the earliest index of the minimum among strictly negative across-track values, or none when no value is negative |
| PklRecord.StbdScan | kmall_to_pkl_converter.py:425-429 | the same for the maximum among strictly positive values; a value of exactly 0 belongs to neither side |
| PklRecord.PortIndex | kmall_to_pkl_converter.py:419-423 | the port index satisfies the characterisation over the whole ping |
| PklRecord.StbdIndex | kmall_to_pkl_converter.py:425-429 | the starboard index satisfies the characterisation over the whole ping |
| PklRecord.PortIndexUnique | kmall_to_pkl_converter.py:419-423 | the characterisation of the port index has exactly one solution, so the scan's answer is the only one |
| PklRecord.StbdIndexUnique | kmall_to_pkl_converter.py:425-429 | the characterisation of the starboard index has exactly one solution |
| PklRecord.FindPortIndex | kmall_to_pkl_converter.py:416-423 | the loop that updates `port_idx` ends with the outermost port index (minimum negative value, earliest on ties) |
| PklRecord.FindStbdIndex | kmall_to_pkl_converter.py:417-429 | the loop that updates `stbd_idx` ends with the outermost starboard index |
| PklRecord.SideAt | kmall_to_pkl_converter.py:432-452 | a side with no sounding is all zeros; otherwise y and z come from the chosen index, and bs and angle fall back to 0 beyond their arrays |
| PklRecord.Row | kmall_to_pkl_converter.py:431-469 | one accepted ping contributes exactly one value to each of the 40 per-ping keys |
| PklRecord.ExtractPing | kmall_to_pkl_converter.py:407-469 | a ping is skipped iff the z or y array is missing or empty; otherwise it raises iff the outermost port or starboard index lies at or beyond the end of z, and appends a 40-value row otherwise; a ping whose z is at least as long as its non-empty y always appends |
| PklRecord.PortSideOfRow | kmall_to_pkl_converter.py:432-441 | the port columns of an appended row hold y, z, bs and angle at the outermost port index, with the fallbacks to 0 |
| PklRecord.StbdSideOfRow | kmall_to_pkl_converter.py:443-452 | the starboard columns of an appended row hold the values at the outermost starboard index, with the fallbacks to 0 |
| PklRecord.RowMetadata | kmall_to_pkl_converter.py:454-469 | the row carries the file name; ping mode, pulse form, swath mode and frequency come from the ping-info dictionary and default to 0; the 27 other keys are 0 |
| PklRecord.RowsUpTo | kmall_to_pkl_converter.py:397-469 | the rows collected over the pings all have 40 values |
| PklRecord.RowsUpToMeaning | kmall_to_pkl_converter.py:397-469 | the loop fails iff some ping raises; otherwise it yields one row per accepted ping |
| PklRecord.AppendedRows | kmall_to_pkl_converter.py:397-469 | there is one appended row per accepted ping |
| PklRecord.RowsUpToRows | kmall_to_pkl_converter.py:397-469 | without a raising ping, the collected rows are exactly the rows of the appending pings, in ping order |
| PklRecord.Columns | kmall_to_pkl_converter.py:394 | the per-key lists: 40 of them, each as long as the number of accepted pings |
| PklRecord.ColumnsSnoc | kmall_to_pkl_converter.py:431-469 | appending one row appends one value to the end of every per-key list |
| PklRecord.ExtractPingStep | kmall_to_pkl_converter.py:398-469 | the body of the per-ping loop computes exactly the specified outcome |
| PklRecord.ExtractColumns | kmall_to_pkl_converter.py:394-469 | the per-ping loop over `det` ends with the columns of the accepted rows, or fails exactly when the specification fails |
| PklRecord.NormaliseFname | kmall_to_pkl_converter.py:368-376 | a missing `fname` is "unknown"; a non-empty list gives its first element; an empty list or any other value gives its `str()` |
| PklRecord.HdrTable | kmall_to_pkl_converter.py:518-534 | a present, non-empty HDR gives one entry per source entry with defaults 712 and now; otherwise exactly `len(XYZ)` default entries |
| PklRecord.RtpTable | kmall_to_pkl_converter.py:536-552 | a present, non-empty RTP gives one entry per source entry with defaults 0; otherwise exactly `len(XYZ)` entries of zeros |
| PklRecord.RecordShape | kmall_to_pkl_converter.py:471-582 | a built record has 39 per-ping lists, all as long as the number of accepted pings; its `fname` is the string of the normalised name; XYZ has one entry per ping; HDR and RTP have one entry per source entry, or `len(XYZ)` when missing or empty; `start_byte` is `len(XYZ)` zeros; a missing `cmnPart` becomes `len(XYZ)` entries |
| PklRecord.BuildRecord | kmall_to_pkl_converter.py:471-582 | the record holds 39 per-ping lists as long as the accepted rows, the `str()` of the name, one XYZ entry and one zero `start_byte` per ping, and `len(XYZ)` `cmnPart` entries when the parser gave none |
| PklRecord.XyzTable | kmall_to_pkl_converter.py:498-516 | one minimal XYZ entry per ping, each built from its own ping |
| PklRecord.Process | kmall_to_pkl_converter.py:351-611 | a record comes back only with the tools present, a dictionary input and a non-empty `XYZ`; its `fname` is the `str()` of the normalised name and its XYZ has one entry per ping |
| PklRecord.ProcessFailsExactly | kmall_to_pkl_converter.py:351-380 | the result is None iff the tools are missing, the input is not a dictionary, `XYZ` is missing or empty, or some ping raises |
| PklRecord.ProcessDataForPlotting | kmall_to_pkl_converter.py:351-611 | the method builds exactly the specified record |
| PklRecord.MinimalXyzList | kmall_to_pkl_converter.py:498-516 | one minimal XYZ entry per ping, in order |
| PklRecord.HdrList | kmall_to_pkl_converter.py:518-534 | the HDR loops build the specified table |
| PklRecord.RtpList | kmall_to_pkl_converter.py:536-552 | the RTP loops build the specified table |
| Conversion.ParserFor | kmall_to_pkl_converter.py:224-231 | the lower-cased name ending in `.kmall` selects the KMALL parser; `.all` selects the ALL parser; anything else has no parser |
| Conversion.ParserForIgnoresCase | kmall_to_pkl_converter.py:224-231 | the choice of parser does not depend on letter case |
| Conversion.ConvertSingleFile | kmall_to_pkl_converter.py:213-259 | without the tools the outcome is that of the minimal writer; an unknown extension gives False; True only when parsing succeeded, the record was built and written |
| Conversion.OutputFile | kmall_to_pkl_converter.py:151-152 | the output path ends with the input's base name and `.pkl` |
| Conversion.OutputFileName | kmall_to_pkl_converter.py:151-152 | the base name of the output path is the input's base name plus `.pkl` |
| Conversion.RecordFailure | kmall_to_pkl_converter.py:185-197 | a failure adds one to `failed` and one message to `errors`, leaving the other counters |
| Conversion.StepAsWritten | kmall_to_pkl_converter.py:149-197 | as written, one file raises the processed count by one or two, adds at most one failure, and one error message per failure |
| Conversion.StepAsWrittenCountsTwice | kmall_to_pkl_converter.py:169-197 | as written, a converted file whose size lookup raises is counted both converted and failed |
| Conversion.StepAsWrittenOvercount | kmall_to_pkl_converter.py:149-197 | as written, exactly the files whose size lookup raises after conversion are counted twice; all others once |
| Conversion.Step | kmall_to_pkl_converter.py:149-197 | corrected step: every file adds one to exactly one counter; skipped iff the output exists, overwrite is off and the output is newer; failed iff a lookup or the conversion failed; an error message goes with each failure |
| Conversion.StepAgreesWhenSizesReadable | kmall_to_pkl_converter.py:169-184 | the corrected step and the code as written agree whenever the size lookups succeed |
| Conversion.RunTallyCounts | kmall_to_pkl_converter.py:139-201 | after n files the counters add up to n |
| Conversion.RunTally | kmall_to_pkl_converter.py:139-201 | the tally after the first n files counts at most n failures |
| Conversion.StepKeepsErrorCount | kmall_to_pkl_converter.py:169-201 | one file keeps one error message per failure |
| Conversion.RunTallyErrors | kmall_to_pkl_converter.py:139-201 | after n files there is one error message per failure |
| Conversion.TallyFile | kmall_to_pkl_converter.py:149-197 | one loop iteration computes the corrected step |
| Conversion.Run | kmall_to_pkl_converter.py:125-201 | the loop stops at cancellation or the end; its tally is the specified one, the counters add up to the files processed, and errors match failures |
| Conversion.LoadSessionConfig | kmall_to_pkl_converter.py:71-90 | without a readable file the defaults; otherwise every default key is present, values from the file win, and defaults fill the rest |
| Strings.RSplitOnce | libs/file_fun.py:163 | `rsplit('/', 1)` unpacks into two parts iff the separator occurs; the name part has no separator |
| Strings.RSplitOnceRejoins | libs/file_fun.py:163 | the two parts joined with the separator give the original path |
| Strings.Basename | libs/file_fun.py:199-200 | the text after the last '/' holds no '/' and ends the path |
| Strings.BasenameOfJoin | swath_coverage_plotter.py:2070 | the base name of a directory joined with a plain file name is that file name |
| Strings.PathJoin | kmall_to_pkl_converter.py:151-152 | `os.path.join` ends with its second part, returns it alone when it is absolute, and otherwise starts with the first part |
| Strings.SplitLastIsBasename | libs/file_fun.py:199-200 | the last field of `split('/')` is the base name |
| Strings.SplitLastIsAfterLast | libs/file_fun.py:199-200 | the last field of `split(c)` is what follows the last `c`, the whole string when there is none |
| Strings.Extension | libs/file_fun.py:130 | `splitext` gives "" or a suffix of the name starting with '.' |
| Strings.ExtensionMeaning | libs/file_fun.py:130 | with the last '.' at k, the extension is the text from k when some character before k is not a dot, and "" when all are dots (a leading-dot name such as `.bashrc` has none) |
| Strings.ExtensionNone | libs/file_fun.py:130 | a name without '.' has the empty extension |
| Strings.BeforeFirst | libs/file_fun.py:326-327 | `split(pat)[0]` is a prefix that does not contain `pat` |
| Strings.BeforeFirstAbsent | libs/file_fun.py:326-327 | without `pat` in the string, the first field is the whole string |
| Strings.BeforeFirstFound | libs/file_fun.py:326-327 | with `pat` in the string, an occurrence of `pat` starts right after the first field, so the field ends at the first occurrence |
| Strings.BeforeFirstAt | libs/file_fun.py:326-327 | when the first occurrence of `pat` starts at k, the first field is the first k characters |
| Strings.Split | libs/file_fun.py:326 | `split(c)` has at least one field and no field contains `c` |
| Strings.JoinSplit | libs/file_fun.py:326 | joining the fields of a split with the separator gives the string back |
| Strings.StripLeft | libs/file_fun.py:327 | `lstrip()` keeps a suffix of the input that does not start with white space |
| Strings.StripRight | libs/file_fun.py:327 | `rstrip()` keeps a prefix of the input that does not end with white space |
| Strings.StripLeftRemovesSpace | libs/file_fun.py:327 | every character `lstrip()` removes is white space |
| Strings.StripRightRemovesSpace | libs/file_fun.py:327 | every character `rstrip()` removes is white space |
| Strings.Strip | libs/file_fun.py:327 | `strip()` gives a string without leading or trailing white space |
| Strings.StripEmptyOrUnchanged | libs/file_fun.py:327 | `strip()` gives "" only for an all-white-space input, and keeps a string that neither starts nor ends with white space |
| Strings.StripStart | libs/file_fun.py:327 | the number of leading characters `strip()` removes is at most the length |
| Strings.StripIsSlice | libs/file_fun.py:327 | the kept text is the slice of the input that starts right after the leading white space |
| Strings.StripRemovesOnlySpace | libs/file_fun.py:327 | every character `strip()` removes, before or after the kept slice, is white space |
| Strings.Lower | kmall_to_pkl_converter.py:224-227 | `lower()` maps each character to its lower case and keeps the length |
| Strings.LowerIdempotent | swath_coverage_plotter.py:1915 | lower-casing twice is lower-casing once |
| Strings.ReplaceChar | libs/file_fun.py:132 | `replace('\\', '/')` changes exactly the backslashes |
| Strings.RemoveAll | libs/file_fun.py:326 | `replace(pat, '')` never lengthens the string, and an empty `pat` changes nothing |
| Strings.RemoveAllChars | libs/file_fun.py:326 | removing a text introduces no character the string did not hold |
| Strings.RemoveAllAbsent | libs/file_fun.py:326 | removing a text that does not occur changes nothing |
| OrderedDict.PutKeys | swath_coverage_plotter.py:2071 | `d[k] = v` keeps an existing key in place and appends a new one |
| OrderedDict.PutNewKey | swath_coverage_plotter.py:2071 | assigning a new key appends the pair at the end |
| OrderedDict.PutLookup | swath_coverage_plotter.py:2103 | after `d[k] = v`, `k` reads `v` and every other key reads what it did before |
| OrderedDict.PutKeepsDistinct | swath_coverage_plotter.py:2103 | assignment keeps the keys distinct |
| OrderedDict.LookupMeaning | swath_coverage_plotter.py:2078-2090 | a key is found iff it is among the keys, and then with a value stored under it |
| FileFun.ItemForMeaning | libs/file_fun.py:161-185 | a candidate is rejected iff it has no '/' or nothing before its last '.'; otherwise its data is the full path and its text the full path or the base name |
| FileFun.ItemFor | libs/file_fun.py:161-185 | an accepted candidate's item stores the full path as its data |
| FileFun.ItemForParts | libs/file_fun.py:163-172 | the text with paths shown is `path + '/' + fname`, which is the full path |
| FileFun.Candidates | libs/file_fun.py:155-156 | exactly the names not already listed are candidates, without introducing duplicates |
| FileFun.NewItems | libs/file_fun.py:161-185 | the loop inserts at most one item per candidate |
| FileFun.NewItemsSound | libs/file_fun.py:161-185 | every inserted item comes from a candidate and is that candidate's item |
| FileFun.NewItemsDistinct | libs/file_fun.py:161-185 | when no candidate repeats, no path is inserted twice |
| FileFun.NewItemsComplete | libs/file_fun.py:161-185 | every acceptable candidate is inserted |
| FileFun.UpdateKeepsPathsDistinct | libs/file_fun.py:148-188 | adding files keeps the listed paths free of duplicates |
| FileFun.SourceFileList.GetCurrentFileList | libs/file_fun.py:11-16 | the recorded file names are the items' paths, in order |
| FileFun.SourceFileList.UpdateFileList | libs/file_fun.py:148-188 | empty input changes nothing; otherwise the acceptable candidates are appended and the count is the number appended |
| FileFun.SourceFileList.AddCandidate | libs/file_fun.py:163-180 | one path adds its item iff it splits at a '/' and has a stem, and adds nothing otherwise |
| FileFun.SourceFileList.AddCandidates | libs/file_fun.py:161-185 | the loop appends exactly the specified items and counts them |
| Strings.Basenames | libs/file_fun.py:199 | one base name per path, in order: the last `split('/')` field of each |
| FileFun.NewFileList | libs/file_fun.py:195-200 | a name is kept iff it matches the extensions (all when `['']`) and its base name is not among the old ones |
| FileFun.NewFileListConcat | libs/file_fun.py:195-200 | the filter works name by name, so it keeps order |
| FileFun.SourceFileList.GetNewFileList | libs/file_fun.py:191-208 | returns the filtered list of current paths and changes no item |
| FileFun.RecordedPath | libs/file_fun.py:132 | a recorded path contains no backslash |
| FileFun.MatchingFiles | libs/file_fun.py:141-143 | the files of one directory with an accepted extension |
| FileFun.MatchingFilesMeaning | libs/file_fun.py:130-143 | a file is recorded iff its `splitext` extension is exactly in the filter |
| FileFun.FileNames | libs/file_fun.py:141-142 | only entries that are files take part |
| FileFun.AddFilesFromDirectory | libs/file_fun.py:121-145 | with subfolders the walk's matching files; otherwise an empty or missing directory gives [] and the matching files directly inside |
| FileFun.WalkFiles | libs/file_fun.py:126-131 | the walk loop records the matching files of each directory in walk order |
| FileFun.DirectoryFiles | libs/file_fun.py:129-131 | the inner loop records exactly the matching files of one directory, in order |
| FileFun.ListedFiles | libs/file_fun.py:139-142 | the listing loop records the matching entries that are files, in order |
| FileFun.Picked | libs/file_fun.py:259-263 | the removed items, in selection order |
| FileFun.Unselected | libs/file_fun.py:259-261 | every item left comes from the list, and every unselected item stays |
| FileFun.KeptPositions | libs/file_fun.py:259-261 | the positions that survive removal all lie below the list length |
| FileFun.KeptPositionsMeaning | libs/file_fun.py:259-261 | the surviving positions are exactly those not selected, in increasing order |
| FileFun.UnselectedAtKept | libs/file_fun.py:259-261 | the items left are the items at exactly the unselected positions, in their original order, so every selected position is gone even when items repeat |
| FileFun.KeptPositionsCount | libs/file_fun.py:259-261 | the list shrinks by the number of distinct selected positions |
| FileFun.SourceFileList.RemoveFiles | libs/file_fun.py:240-266 | clearing all returns every path and empties the list; nothing selected removes nothing; otherwise the selected items are returned in selection order and the list keeps exactly the items at the unselected positions, in order, shrinking by the number of distinct selected positions |
| FileFun.PathText | libs/file_fun.py:311-312 | a path without '/' cannot be shown (the unpacking raises); otherwise the full path or its base name |
| FileFun.FirstUnsplittable | libs/file_fun.py:310-312 | the loop stops at the first item whose path has no '/' |
| FileFun.SourceFileList.ShowFilePaths | libs/file_fun.py:300-312 | every item's text becomes its full path or base name, in place, up to the first path that raises |
| FileFun.ShipNameFrom | libs/file_fun.py:326-327 | the derived ship name has no '.', '_' or "EM" and no surrounding white space |
| FileFun.ShipName | libs/file_fun.py:324-330 | no or empty `fname` list, or a non-string first name, gives "Ship Name N/A"; otherwise the derivation from the first name |
| FileFun.ShipNameOfConventionalName | libs/file_fun.py:326-327 | a file named `<line>_<date>_<time>_<ship>_EM<model>.<ext>` gives back `<ship>` |
| FileFun.ModelName | libs/file_fun.py:348-357 | "EM " followed by `str()` of the first model, or "Model N/A" iff there is none |
| FileFun.ModelNameReadsBack | libs/file_fun.py:349 | a numeric model number reads back from the model name |
| Plotter.CurrentSettings | swath_coverage_plotter.py:2163-2173 | the current settings never equal the initial empty record; with decimation off they are the flag alone, so the text boxes do not count |
| Plotter.Invalidated | swath_coverage_plotter.py:2205-2208 | the cache is emptied and marked invalid; the last settings stay |
| Plotter.SettingsCheck | swath_coverage_plotter.py:2175-2179 | reports a change iff the settings differ from the last ones, and records them |
| Plotter.CacheDecision | swath_coverage_plotter.py:2212-2235 | an invalid cache is never used and nothing changes; a valid cache with changed settings is emptied, invalidated and not used; otherwise it is used |
| Plotter.SettingsCheckIdempotent | swath_coverage_plotter.py:2175-2179 | a second check with unchanged settings reports no change |
| Plotter.CacheDecisionStable | swath_coverage_plotter.py:2212-2235 | after a decision the cache is valid exactly when it was used, and asking again gives the same answer |
| Plotter.FirstCheckReportsChange | swath_coverage_plotter.py:162 | the first check after start-up always reports a change |
| Plotter.PlotterData.constructor | swath_coverage_plotter.py:150-173 | empty detections, data and maps; the file list `['']` with its one empty name; the cache invalid, no settings recorded |
| Plotter.PlotterData.CheckDecimationSettingsChanged | swath_coverage_plotter.py:2161-2179 | the method performs the specified check |
| Plotter.PlotterData.InvalidateDecimationCache | swath_coverage_plotter.py:2205-2208 | the method invalidates as specified |
| Plotter.PlotterData.ShouldUseDecimationCache | swath_coverage_plotter.py:2212-2235 | the method decides and updates the state as specified |
| Plotter.HasSourceFiles | swath_coverage_plotter.py:876-881 | true iff some item's text ends with ".all" or ".kmall", case-sensitively |
| Plotter.PklFilesIn | swath_coverage_plotter.py:1918-1921 | at most one path per listed name |
| Plotter.PklFilesInMeaning | swath_coverage_plotter.py:1912-1921 | a path is collected iff its name ends in ".pkl" in any letter case |
| Plotter.CollectPklFiles | swath_coverage_plotter.py:1910-1921 | the collection loops gather exactly the specified files |
| Plotter.Appended | swath_coverage_plotter.py:1927-1941 | the appended paths are new, distinct and from the files found |
| Plotter.AppendedComplete | swath_coverage_plotter.py:1927-1941 | every file found ends up in the list |
| Plotter.ListContains | swath_coverage_plotter.py:1929-1933 | the inner scan finds the path iff some item's text equals it |
| Plotter.Recorded | swath_coverage_plotter.py:1937-1939 | recording keeps every index already recorded, and the last appended path sits at its new index |
| Plotter.RecordedMeaning | swath_coverage_plotter.py:1935-1938 | each appended path is recorded under its new index, other recorded indices keep their paths, and nothing else is recorded |
| Plotter.PlotterData.AddIfAbsent | swath_coverage_plotter.py:1928-1941 | a path is appended and recorded at its index iff the list does not already show it |
| Plotter.PlotterData.AppendAbsent | swath_coverage_plotter.py:1923-1941 | the list grows by exactly the new paths, in order, each recorded at its new index; `added_count` is the number appended |
| Plotter.PlotterData.AddPklFilesFromDirectory | swath_coverage_plotter.py:1893-1941 | nothing happens for an empty directory; otherwise the files found are collected and the new ones appended and recorded as above |
| Plotter.LoadBatchKeys | swath_coverage_plotter.py:2052-2072 | the base name of every accepted file is a key of `data_new`, and keys already in it stay |
| Plotter.LoadBatchLookup | swath_coverage_plotter.py:2052-2072 | an accepted file whose base name no later accepted file shares has its data, decimated when decimation is on, under its base name |
| Plotter.LoadBatchKeepsOthers | swath_coverage_plotter.py:2052-2072 | a key that is no accepted file's base name reads what it read before the batch |
| Plotter.AcceptedPaths | swath_coverage_plotter.py:2056-2072 | a path is accepted iff it is in the batch and its load succeeded with non-empty data |
| Plotter.LoadBatchPaths | swath_coverage_plotter.py:2052-2072 | `filenames` grows by exactly the accepted paths, in batch order |
| Plotter.LoadBatch | swath_coverage_plotter.py:2052-2072 | at most one path is appended to `filenames` per file tried |
| Plotter.PlotterData.LoadFiles | swath_coverage_plotter.py:2052-2072 | the per-file loop produces the specified `data_new` and `filenames` |
| Plotter.WithFname | swath_coverage_plotter.py:2086-2088 | every entry ends up with `fname`; a missing one becomes the dictionary key, and nothing else changes |
| Plotter.Tagged | swath_coverage_plotter.py:2084-2089 | the list handed to `interpretMode` has one tagged entry per dictionary entry, in order |
| Plotter.TagEntries | swath_coverage_plotter.py:2084-2089 | the tagging loop produces the specified list |
| Plotter.EntryKey | swath_coverage_plotter.py:2097-2101 | an entry is filed under its `fname`, or under a `file_<i>` text when it has none |
| Plotter.Rekeyed | swath_coverage_plotter.py:2095-2103 | the rebuilt dictionary has distinct keys |
| Plotter.RekeyedLookup | swath_coverage_plotter.py:2097-2103 | each key reads the last entry filed under it: its `fname`, or `file_<i>` |
| Plotter.RekeyedKeys | swath_coverage_plotter.py:2097-2103 | the keys are exactly the keys the entries are filed under |
| Plotter.RekeyedByFname | swath_coverage_plotter.py:2085-2103 | entries with distinct `fname`s are keyed by `fname`, in order, with no `file_<i>` key |
| Plotter.Reinterpreted | swath_coverage_plotter.py:2084-2105 | when interpretation returns a list, `data_new` is rebuilt from it with distinct keys and no more entries than the list |
| Plotter.Rekey | swath_coverage_plotter.py:2097-2103 | the re-keying loop produces the specified dictionary |
| Plotter.Merged | swath_coverage_plotter.py:2116-2124 | a key in both gets the old list followed by the new one; a key in only one keeps its list |
| Plotter.MergedPointwise | swath_coverage_plotter.py:2119-2124 | the merged keys with the merged lists are the merge |
| Plotter.MergeIntoEmpty | swath_coverage_plotter.py:2116-2117 | replacing an empty `det` by `det_new` is the same as merging into it |
| Plotter.MergeKeepsColumnsAligned | swath_coverage_plotter.py:2119-2124 | with equal key sets, lists of equal length stay of equal length |
| Plotter.MergeProgressStep | swath_coverage_plotter.py:2116-2124 | merging one more key of `det_new` extends each merged list by that key's new detections and touches no other key |
| Plotter.PlotterData.MergeDetections | swath_coverage_plotter.py:2116-2124 | the merge loop turns `det` into the merge of the old `det` and `det_new` |
| Plotter.PlotterData.InterpretAndMerge | swath_coverage_plotter.py:2084-2131 | `data_new` becomes its reinterpretation, `det` the merge of the old `det` with the new detections, and the cache is marked valid |
| Plotter.PlotterData.ProcessPklFilesDirectly | swath_coverage_plotter.py:2018-2134 | a non-empty batch empties the cache; `filenames` gets the accepted paths; a non-empty `data_new` is reinterpreted and re-keyed, its detections are merged into `det`, and the cache becomes valid |

## Left out

- Qt widgets, styling, dialogs, logging and progress signals are not modelled. Widget contents are sequences of texts; dialog and check-box results are parameters.
- Filesystem access and the JSON session file are not modelled. `os.walk`, `os.listdir`, `isfile`, `exists`, `getmtime` and `getsize` results are parameters (`FileEnv`, `WalkStep`, `DirEntry`, the listing).
- The parsers, `create_minimal_pkl`, pickle/gzip writing and the unseen analysis library are not modelled. They are parameters or boolean outcomes (`parse`, `minimalWritten`, `writeSucceeded`, `load`, `decimate`, `interpret`, `sortDetections`).
- `swath_coverage_lib.update_system_info` (called from `_process_pkl_files_directly`), `refresh_plot` and `update_last_directory` are not part of this model. The `update_system_info` of `libs/file_fun.py` is modelled by `FileFun.ShipName` and `FileFun.ModelName`.
- Floating-point across-track values and times are integers. The code only copies and compares them.
- `datetime.now()` is the parameter `now`.
- The QThread worker and its signals are not modelled. Cancellation is the index `cancelAt` at which the loop stops.
- `Strings.Lower` lowers ASCII letters only; Python lowers all of Unicode.
- `Strings.PathJoin` and `Strings.Basename` follow POSIX rules; Windows separators (`\` as a separator in `os.path.basename` and `os.path.join`) are not modelled.
- PklRecord.ExtractPing: the only exception modelled inside the per-ping loop is an index beyond the z array. Element types that Python would reject cannot occur in the typed model.
- PklRecord.BuildRecord: the IP and IOP defaults are kept as their single default text. The default header's `dgdatetime` is `now`.
- FileFun.ShipName: the custom-info branch of `update_system_info` is not modelled. Nor are the cruise name, serial number and text-box updates.
- FileFun.SourceFileList.RemoveFiles: the source takes selected items out one by one; the model removes them together. The remaining items and the returned ones are the same.
- Plotter.PlotterData.ProcessPklFilesDirectly: the unseen routines it calls with the window (`load_pickle_file`, `apply_swath_pkl_decimation`, `interpretMode`, `sortDetectionsCoverage`, `update_system_info`, `refresh_plot`, at swath_coverage_plotter.py:2058, 2067, 2092, 2113, 2128 and 2131) are taken not to change the window's fields. The exit state of the decimation cache and the `modifies` frame hold only under that assumption.
- Plotter.PlotterData.ProcessPklFilesDirectly: the catch-all `except` around the load is not modelled. An exception from an unseen routine would leave the state partly updated.
- Plotter.PlotterData.ProcessPklFilesDirectly: lists are values, so the aliasing between `det` and `det_new` after `self.det = det_new` is not captured, and neither is the `isinstance(self.data_new, dict)` repair.
- Plotter.PlotterData.AddPklFilesFromDirectory: the session config, the directory dialog, `update_file_buttons` and the outer `except` are not modelled. The method stops at the list of new paths; the automatic load is `ProcessPklFilesDirectly` applied to that list.
- `_check_filter_settings_changed` is not modelled: the decision never calls it.
- `load_swath_pkl_from_list` is not part of this model. It sets `filenames` to the very list that `_process_pkl_files_directly` then iterates while appending each loaded file to it (swath_coverage_plotter.py:1996, 2052, 2072), so with any file that loads that loop does not end and the restore at 2009 is not reached.
- Loaded PKL entries are dictionaries of scalar `Value`s: the plotter only moves them, except for `fname`.

## Findings

| source | as written | input that shows it | evidently intended | confidence | as-written member | corrected member |
|---|---|---|---|---|---|---|
| kmall_to_pkl_converter.py:169-197 | `converted` is incremented before `os.path.getsize(input_file)`, and an exception there reaches the `except` that increments `failed` | a file that converts successfully but whose input size cannot then be read (for example it was removed meanwhile): it is counted once as converted and once as failed | each processed file counts in exactly one of converted, skipped and failed | not executed | Conversion.StepAsWritten, Conversion.StepAsWrittenCountsTwice | Conversion.Step |
