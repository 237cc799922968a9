# Dart-Code: project-folder discovery, document symbols and log file names

A Dafny model of three pure cores of the Dart-Code VS Code extension:

- **Project-folder discovery** (`src/shared/utils/fs.ts`). The filesystem is an
  immutable `FileSystem` value: a set of existing paths plus, for each
  readable folder, its directory listing of `(name, isDirectory)` entries.
  - `getChildFolders` keeps the directory entries of a folder and drops `bin`
    and `cache` unless they are allowed.
  - `findProjectFolders` gathers the roots, their child folders and the child
    folders of those. It keeps the candidates that pass the marker test: a
    pubspec only in strict mode; otherwise a pubspec, the create-trigger file,
    or the Flutter repo markers. It optionally sorts the result by lower-cased
    path.
  - Two string helpers are modelled as well: `areSameFolder` and
    `forceWindowsDriveLetterToUppercase`.
- **Outline-to-symbol conversion**
  (`src/extension/providers/dart_document_symbol_provider.ts`).
  - An analysis-server `Outline` tree becomes a tree of `DocumentSymbol`s.
  - Invocations are hidden below the top level, but not at the top level.
  - Flag bit `0x20` sets the deprecated tag.
  - When the element has no location, the selection range falls back to the
    node's own offset and length.
- **Log capture** (`src/extension/commands/logging.ts`).
  - `generateFilename` with its `pad` helper, over the `Date` getter values.
  - The category list `[General, ...selected]`.
  - The early return on an empty selection.

Modules: `Results` (Option/Result), `Seqs` (`filter` and subsequences),
`Ascii` (case mapping), `Utf16` (string order), `Sorting` (`sortBy`), `PathStrings`,
`ProjectFolders`, `DocumentSymbols`, `LogFiles` and `LogFileExamples`.

Host dependencies are parameters:
- `isWin` and `path.isAbsolute`;
- the clock, as a `LocalTime` record of the getter values;
- the create-trigger file's name;
- the editor-side helpers `getElementName`, `getSymbolKindForElementKind`,
  `getCodeOffset` and `toRange`, as fields of a `Host` value;
- the cancellation flag;
- the user's category selection.

Two points where a reading of the extension's behaviour and its code part
ways; the model follows the code:
- `findProjectFolders` hands `getChildFolders` to `flatMapAsync` without
  options (src/shared/utils/fs.ts:70-71). So `bin` and `cache` folders are
  always skipped during the scan, even in a workspace that wants them
  searched: the scan has no `allowBin` or `allowCache` option of its own.
- The filename uses `getMonth()`, which counts from 0, and `getDay()`, the
  weekday. It is modelled as written.

## Model

| member | source | states |
|---|---|---|
| Seqs.Filter | src/shared/utils/fs.ts:28-30 | `filter` never grows a list and keeps only elements of the input that pass the test |
| Seqs.FilterIsSubsequence | src/shared/utils/fs.ts:74-78 | `filter` keeps the relative order of the elements it keeps |
| Seqs.FilterKeepsAllSatisfying | src/shared/utils/fs.ts:74-78 | every element that passes the test survives `filter` |
| Seqs.FilterFilter | src/shared/utils/fs.ts:28-30 | chained filters equal one filter by the conjunction of their tests |
| Seqs.FilterConcat | src/shared/utils/fs.ts:72-74 | filtering a concatenation is concatenating the filtered parts |
| Ascii.ToUpper | src/shared/utils/fs.ts:14 | the result is never a lower-case letter; each lower-case letter becomes the upper-case letter at the same place in the alphabet; everything else is unchanged |
| Ascii.ToLower | src/shared/utils/fs.ts:13 | the result is never an upper-case letter; each upper-case letter becomes the lower-case letter at the same place in the alphabet; everything else is unchanged |
| Ascii.CaseRoundTrip | src/shared/utils/fs.ts:13-14 | lower-casing undoes upper-casing on lower-case letters, and the reverse |
| Ascii.LowerString | src/shared/utils/fs.ts:80 | lower-casing keeps the length and maps each character independently |
| Utf16.EncodeChar | src/shared/utils/fs.ts:80 | a JavaScript string holds a character below U+10000 as one code unit and any other as a high surrogate then a low surrogate; the units decode back to the character |
| Utf16.EncodeCharInjective | src/shared/utils/fs.ts:80 | different characters have different code units |
| Utf16.EncodeInjective | src/shared/utils/fs.ts:80 | different strings have different code-unit sequences |
| Utf16.LexLessEq | src/shared/utils/fs.ts:80 | the sort keys are compared as JavaScript compares strings: UTF-16 code units, lexicographically, a proper prefix first |
| Utf16.LexTotal | src/shared/utils/fs.ts:80 | any two sort keys are comparable |
| Utf16.LexTransitive | src/shared/utils/fs.ts:80 | the key order is transitive |
| Utf16.LexAntisymmetric | src/shared/utils/fs.ts:80 | two keys each at most the other are equal, so the key order is a total order |
| Utf16.SingleUnitOrderIsScalarOrder | src/shared/utils/fs.ts:80 | on strings with no character above U+FFFF, the key order is the order by character code |
| Utf16.SurrogatePairSortsBelowHighSingleUnit | src/shared/utils/fs.ts:80 | U+1F600 sorts before U+FF01 although its character code is larger |
| Sorting.Insert | src/shared/utils/fs.ts:80 | insertion adds exactly the one element, so the multiset grows by that element |
| Sorting.SortBy | src/shared/utils/fs.ts:80 | `sortBy` returns a permutation of its input |
| Sorting.InsertSorted | src/shared/utils/fs.ts:80 | inserting into a key-ordered list keeps it ordered |
| Sorting.SortBySorted | src/shared/utils/fs.ts:79-81 | the result of `sortBy` is ordered by key |
| PathStrings.Join | src/shared/utils/fs.ts:31 | a joined path is the parent, one separator, then the entry name |
| PathStrings.JoinInjective | src/shared/utils/fs.ts:31 | under one parent, distinct entry names give distinct paths |
| PathStrings.TrimTrailingSeparators | src/shared/utils/fs.ts:110-111 | the trimmed folder is a prefix that does not end in `/` or `\`, and only separators were removed |
| PathStrings.TrimUnique | src/shared/utils/fs.ts:110-111 | the trimmed folder is the only prefix with those two properties: the regex removes the maximal run |
| PathStrings.TrimIgnoresTrailingSeparators | src/shared/utils/fs.ts:110-111 | appending separators does not change the trimmed folder |
| PathStrings.AreSameFolder | src/shared/utils/fs.ts:108-114 | two folders are the same when their trimmed forms are equal |
| PathStrings.AreSameFolderIsEquivalence | src/shared/utils/fs.ts:108-114 | `areSameFolder` is reflexive, symmetric and transitive |
| PathStrings.AreSameFolderIgnoresTrailingSeparators | src/shared/utils/fs.ts:108-114 | a folder with any run of trailing `/` and `\` is the same folder |
| PathStrings.AreSameFolderExample | src/shared/utils/fs.ts:108-114 | `"a/"`, `"a\"`, `"a//\"` and `"a"` all compare equal |
| PathStrings.DifferentFoldersExample | src/shared/utils/fs.ts:108-114 | a non-separator tail is not trimmed: `"a/b"` differs from `"a"` |
| PathStrings.ForceWindowsDriveLetterToUppercase | src/shared/utils/fs.ts:12-16 | the length is kept. The identity off Windows, on non-absolute paths and on empty input. Otherwise only the first character changes, to its upper-case form |
| PathStrings.ForceWindowsDriveLetterToUppercaseIdempotent | src/shared/utils/fs.ts:12-16 | normalising an already normalised path changes nothing |
| PathStrings.ForceWindowsDriveLetterExample | src/shared/utils/fs.ts:12-16 | `c:\src` becomes `C:\src` on Windows and stays as it is elsewhere |
| ProjectFolders.JoinAll | src/shared/utils/fs.ts:31 | one joined path per entry, position by position |
| ProjectFolders.GetChildFolders | src/shared/utils/fs.ts:23-32 | a missing parent gives the empty list. The call fails exactly when the parent exists but cannot be listed, and the error names that parent |
| ProjectFolders.ChildFoldersFollowListing | src/shared/utils/fs.ts:28-31 | the child folders are the listed directory entries of the parent that pass the `bin`/`cache` rule, joined onto it, in listing order |
| ProjectFolders.ChildFolderMembership | src/shared/utils/fs.ts:28-31 | a path is a child folder iff it joins the parent with a listed directory that is not an excluded `bin` or `cache`; files never appear |
| ProjectFolders.ChildFolderByName | src/shared/utils/fs.ts:28-31 | `parent/n` is a child folder iff `n` is listed as a directory, and is not `bin` unless `allowBin` is set, nor `cache` unless `allowCache` is set |
| ProjectFolders.ChildrenOfAll | src/shared/utils/fs.ts:70-71 | the level fails exactly when some parent's listing fails, with the error of a parent whose listing failed |
| ProjectFolders.ChildrenOfOne | src/shared/utils/fs.ts:70-71 | the level of one parent is that parent's child folders, or its listing error |
| ProjectFolders.ChildrenOfAllConcat | src/shared/utils/fs.ts:70-71 | the level of a concatenation of parents is the concatenation of their levels, so the level lists parent by parent and each parent's folders in listing order |
| ProjectFolders.RepeatedParentRepeatsChildren | src/shared/utils/fs.ts:70-72 | duplicates are not removed: a parent given twice contributes its child folders twice |
| ProjectFolders.ChildrenOfAllMembership | src/shared/utils/fs.ts:70-71 | a path is in the level iff it is a child folder of one of the parents, found without `bin` or `cache` |
| ProjectFolders.Candidates | src/shared/utils/fs.ts:70-72 | the candidates start with all the roots, unchanged and in order; the scan succeeds iff both levels of listing succeed |
| ProjectFolders.Level2Membership | src/shared/utils/fs.ts:70 | the second level is exactly the child folders of the roots |
| ProjectFolders.CandidatesErrorNamesUnreadableFolder | src/shared/utils/fs.ts:70-71 | a failed scan carries the `readdir` error of a root or second-level folder whose listing failed |
| ProjectFolders.Level3Membership | src/shared/utils/fs.ts:71 | the third level is exactly the child folders of child folders of the roots |
| ProjectFolders.CandidatesWithinTwoLevels | src/shared/utils/fs.ts:70-72 | a candidate is a root, a child folder of a root, or a child folder of one of those; nothing deeper is considered |
| ProjectFolders.ScanOfReadableTreeSucceeds | src/shared/utils/fs.ts:70-71 | in a readable tree the scan fails only because an existing root cannot be listed |
| ProjectFolders.MissingRootsHaveNoChildren | src/shared/utils/fs.ts:24-25 | when no root exists the candidates are the roots alone |
| ProjectFolders.MissingParentsHaveNoChildren | src/shared/utils/fs.ts:24-25 | parents that do not exist contribute no child folders and no error |
| ProjectFolders.HasPubspec | src/shared/utils/fs.ts:52-54 | a folder has a pubspec when `pubspec.yaml` joined onto it exists |
| ProjectFolders.HasCreateTriggerFile | src/shared/utils/fs.ts:56-58 | a folder has the create-trigger file when that name joined onto it exists |
| ProjectFolders.IsFlutterRepo | src/shared/utils/fs.ts:60-62 | a folder is the Flutter repo when both `bin/flutter` and `bin/cache/dart-sdk` joined onto it exist |
| ProjectFolders.IsProjectFolder | src/shared/utils/fs.ts:74-78 | the marker test: a pubspec in strict mode; otherwise a pubspec, the create-trigger file, or the Flutter repo markers |
| ProjectFolders.ProjectFolderModes | src/shared/utils/fs.ts:74-78 | strict mode accepts exactly the folders with a pubspec, a subset of what the default mode accepts; the create-trigger file or the Flutter repo markers are enough only in the default mode |
| ProjectFolders.FindProjectFolders | src/shared/utils/fs.ts:69-82 | the search fails exactly when the scan fails, with the same error, and never returns more folders than there are candidates |
| ProjectFolders.FindProjectFoldersMembership | src/shared/utils/fs.ts:74-78 | a folder is found iff it is a candidate and passes the marker test: a pubspec in strict mode; otherwise a pubspec, the create-trigger file, or both `bin/flutter` and `bin/cache/dart-sdk` |
| ProjectFolders.StrictResultsHavePubspec | src/shared/utils/fs.ts:75-76 | with `requirePubspec` every found folder has a `pubspec.yaml` |
| ProjectFolders.UnsortedKeepsDiscoveryOrder | src/shared/utils/fs.ts:74-81 | without `sort` the result is an order-preserving subsequence of the candidates |
| ProjectFolders.UnsortedFollowsLevels | src/shared/utils/fs.ts:72-78 | without `sort`, found roots come first, then found second-level folders, then found third-level folders |
| ProjectFolders.SortedByLowerCasedPath | src/shared/utils/fs.ts:79-81 | with `sort` the result is a permutation of the unsorted result, ordered by lower-cased path, with paths compared as JavaScript compares strings, by UTF-16 code units |
| ProjectFolders.StrictWithinLenient | src/shared/utils/fs.ts:74-78 | the strict result is a subsequence of the lenient result |
| DocumentSymbols.IsDeprecated | src/extension/providers/dart_document_symbol_provider.ts:30-31 | bit 5 of the flags, read as two's-complement bits |
| DocumentSymbols.Bit5OfUnsigned | src/extension/providers/dart_document_symbol_provider.ts:30 | for an unsigned 32-bit value, the deprecated test is the bitwise `& 0x20` |
| DocumentSymbols.Bit5Periodic | src/extension/providers/dart_document_symbol_provider.ts:30 | the deprecated test sees a negative 32-bit value as its two's-complement bits |
| DocumentSymbols.IsDeprecatedIsBitAnd | src/extension/providers/dart_document_symbol_provider.ts:30 | for every signed 32-bit flags value, the deprecated test is JavaScript's `flags & 0x20` |
| DocumentSymbols.ShouldShow | src/extension/providers/dart_document_symbol_provider.ts:40-44 | a node is shown unless its element kind is `CONSTRUCTOR_INVOCATION` or `FUNCTION_INVOCATION` |
| DocumentSymbols.ShownChildren | src/extension/providers/dart_document_symbol_provider.ts:34 | nested symbols come only from the node's own children that `shouldShow` accepts |
| DocumentSymbols.NoneShown | src/extension/providers/dart_document_symbol_provider.ts:40-45 | children that are all invocations are all hidden |
| DocumentSymbols.SelectionLocation | src/extension/providers/dart_document_symbol_provider.ts:20 | the element's location when present, otherwise the node's own offset and length |
| DocumentSymbols.ConvertResult | src/extension/providers/dart_document_symbol_provider.ts:19-38 | name, kind and range come from the host helpers. The detail is the parameters or `""`. The selection range is from the location or the node. It is tagged deprecated iff bit `0x20` is set, tags untouched otherwise. Children are assigned iff the node has children, one per shown child |
| DocumentSymbols.ConvertAll | src/extension/providers/dart_document_symbol_provider.ts:16 | one symbol per outline, position by position |
| DocumentSymbols.ProvideDocumentSymbols | src/extension/providers/dart_document_symbol_provider.ts:12-17 | undefined exactly when cancelled, or the outline is missing or has no children; otherwise one symbol per top-level child |
| DocumentSymbols.TopLevelIsNotFiltered | src/extension/providers/dart_document_symbol_provider.ts:16 | each top-level child, invocations included, becomes the symbol at its own position |
| DocumentSymbols.NestedChildrenAreShownOnes | src/extension/providers/dart_document_symbol_provider.ts:33-35 | nested symbols are the converted shown children in order; a child is kept iff `shouldShow` accepts it |
| DocumentSymbols.OnlyInvocationsGiveEmptyChildren | src/extension/providers/dart_document_symbol_provider.ts:33-35 | a node whose children are all invocations gets an assigned, empty child list |
| DocumentSymbols.ConvertResultCount | src/extension/providers/dart_document_symbol_provider.ts:19-38 | a converted tree has exactly as many symbols as the outline has visible nodes: a node counts when it and all its ancestors below the root are shown |
| DocumentSymbols.ConvertShownCount | src/extension/providers/dart_document_symbol_provider.ts:34 | converting the shown nodes of a list yields one symbol per visible node |
| DocumentSymbols.VisibleWithinOutline | src/extension/providers/dart_document_symbol_provider.ts:34 | the symbol tree is never larger than the outline tree |
| DocumentSymbols.VisibleWithinOutlineAll | src/extension/providers/dart_document_symbol_provider.ts:34 | the same bound for a list of outlines |
| LogFiles.DigitChar | src/extension/commands/logging.ts:80 | a digit character reads back as its value |
| LogFiles.DecimalString | src/extension/commands/logging.ts:80 | `toString` of a number is a non-empty run of digits ending in the units digit; it starts with `0` only for the number 0, so there is no padding |
| LogFiles.DecimalStringRoundTrip | src/extension/commands/logging.ts:82 | the decimal digits read back as the number: the year is written in full |
| LogFiles.Pad | src/extension/commands/logging.ts:80 | `pad(s)` is `"0" + s` for one character, the last two characters otherwise, and has length 2 for any non-empty `s` |
| LogFiles.PadNumber | src/extension/commands/logging.ts:80 | a padded number is its tens digit then its units digit |
| LogFiles.PadKeepsLastTwoDigits | src/extension/commands/logging.ts:80 | `pad(n.toString())` keeps the last two decimal digits |
| LogFiles.PadOneDigit | src/extension/commands/logging.ts:80 | a single digit gets a leading zero |
| LogFiles.PadSeveralDigits | src/extension/commands/logging.ts:80 | a number of two or more digits keeps only its last two |
| LogFiles.TimeFields | src/extension/commands/logging.ts:82 | the time part has dashes at fixed positions and one space between date and time. Each two-character field sits at its own position |
| LogFiles.TimePart | src/extension/commands/logging.ts:82 | the part after the year is always 15 characters |
| LogFiles.FormattedDate | src/extension/commands/logging.ts:82 | the date is the year's decimal digits, with no padding, followed by the 15-character time part |
| LogFiles.GenerateFilename | src/extension/commands/logging.ts:79-84 | the name starts with `Dart-Code-Log-`, ends with `.txt`, and its length depends only on the number of year digits |
| LogFiles.ParsePadNumber | src/extension/commands/logging.ts:80 | a padded field reads back as the number modulo 100 |
| LogFiles.ParseTimePartRoundTrip | src/extension/commands/logging.ts:82 | the time part reads back as month, weekday, hours, minutes and seconds, each modulo 100 |
| LogFiles.ParseFilenameOfParts | src/extension/commands/logging.ts:83 | a name assembled from prefix, year digits, time part and suffix reads back as those fields |
| LogFiles.GenerateFilenameRoundTrip | src/extension/commands/logging.ts:79-84 | the file name determines the full year and the last two digits of every other field |
| LogFiles.GenerateFilenameRoundTripInRange | src/extension/commands/logging.ts:79-84 | with fields in their `Date` getter ranges, the file name determines the getter values exactly |
| LogFiles.LoggedCategories | src/extension/commands/logging.ts:41-44 | nothing is logged for an undefined or empty selection; otherwise General comes first, then the selection in order |
| LogFiles.StartLogging | src/extension/commands/logging.ts:25-44 | no session for an empty selection. Otherwise the file is the normalised log folder, a separator and the generated name, and the categories are General then the selection |
| LogFileExamples.GenerateFilenameExample | src/extension/commands/logging.ts:79-84 | Wednesday 5 February 2020 at 09:07:03 is logged as `Dart-Code-Log-2020-01-03 09-07-03.txt`: month from 0, weekday not day of month |
| LogFileExamples.FormattedDateExample | src/extension/commands/logging.ts:82 | the same instant's date part is `2020-01-03 09-07-03` |
| LogFileExamples.YearDigitsExample | src/extension/commands/logging.ts:82 | the year 2020 is written as `2020` |
| LogFileExamples.PaddedFieldsExample | src/extension/commands/logging.ts:80 | 1, 3, 9 and 7 are padded to `01`, `03`, `09` and `07` |
| LogFileExamples.PadSingleDigit | src/extension/commands/logging.ts:80 | any single digit is padded with a leading `0` |
| LogFileExamples.PadDropsHundreds | src/extension/commands/logging.ts:80 | padding ignores everything above the last two digits, so 2024 pads like 24 |
| LogFileExamples.TimeFieldsExample | src/extension/commands/logging.ts:82 | the fields `01 03 09 07 03` are laid out as `-01-03 09-07-03` |

## Left out

- `readDirAsync` and the real `fs.existsSync`/`fs.readdir` calls: replaced by the `FileSystem` value. A rejected `readdir` is the `ReadDirFailed` error.
- `mkDirRecursive`: it needs `path.dirname` and the existence of filesystem roots, which are not modelled.
- `tryDeleteFile`: file I/O whose errors are swallowed.
- `getRandomInt`: floating point and `Math.random`.
- `hasPackagesFile` and `isWithinPath`: not used by the modelled operations. `isWithinPath` depends on `path.relative`.
- LogFiles.StartLogging: the file passed to `captureLogs` is `fsPath(vs.Uri.file(logFilename))`. The model takes this round trip through a `Uri` to be the identity, so `LogSession.file` is `logFilename` itself. The `Uri` class and `fsPath` are editor code.
- PathStrings.Join: `path.join` is modelled for a single entry name with `/` as the separator; its normalisation of `.`, `..` and doubled separators is not modelled.
- ProjectFolders.HasCreateTriggerFile: the value of `FLUTTER_CREATE_PROJECT_TRIGGER_FILE` is defined outside these files, so it is a parameter.
- ProjectFolders.ChildrenOfAll: `flatMapAsync` is not part of this model. It is modelled as concatenation in input order that fails if any listing fails; the concurrency of the real promises is not modelled.
- Sorting.SortBy: the library `sortBy` is not part of this model. Only ordering by key and permutation are stated, not stability.
- Ascii.ToUpper, Ascii.ToLower, Ascii.LowerString: case mapping covers ASCII letters only, not full Unicode `toUpperCase`/`toLowerCase`.
- DocumentSymbols.IsDeprecatedIsBitAnd: the equivalence with `flags & 0x20` is stated for signed 32-bit flag values, the range the analysis server sends.
- DocumentSymbols.ConvertResult: the editor helpers (`getElementName`, `getSymbolKindForElementKind`, `getCodeOffset`, `toRange`) are uninterpreted functions, and the `DocumentSymbol` constructor's own argument checks are not modelled.
- DocumentSymbols.ProvideDocumentSymbols: the `waitFor` polling for the outline (interval, timeout, cancellation token) is replaced by its outcome, the outline or nothing, plus the cancellation flag.
- LogFiles.GenerateFilename: the `Date` getter values are parameters. Negative years are not modelled.
- LogFiles.StartLogging: the quick-pick UI, `createFolderForFile`, `captureLogs`, the `isLogging` flag, the progress notification, opening the log document and `stopLogging` are editor plumbing, and are not modelled.
- `src/extension/providers/dart_call_hiearchy_provider.ts`: a thin adapter over the analysis-server requests and the editor API.
- `src/analytics.ts`: a network request with no logic to verify.
