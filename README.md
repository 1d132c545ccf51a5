# Vulkan installation analyzer: driver and layer discovery

`via` (the Vulkan Installation Analyzer) inspects a machine's Vulkan setup
and writes an HTML report. This project models the part that finds drivers
and layers on Linux and decides what the report says about them:

- **Driver manifests.** `PrintDriverInfo` searches the standard ICD
  folders, the user's `~/.local/share/vulkan/icd.d`, the folders
  `VK_DRIVERS_PATH` names and the files `VK_ICD_FILENAMES` names.
  `ReadDriverJson` opens each manifest and checks its `ICD` section. It then
  looks for the library the manifest names:
  - first at the path `GenerateLibraryPath` derives from the manifest's
    location;
  - then, for a bare file name, with `FindLinuxSystemObject` (five fixed
    library folders, then `LD_LIBRARY_PATH`);
  - finally with an `ldconfig` query.

  The section's result is `MISSING_DRIVER_JSON` (-21), `MISSING_DRIVER_LIB`
  (-23) or success.
- **Layer manifests.** `PrintLayerInfo` reads the implicit layer folders.
  For each implicit manifest it decides, through `PrintImplicitLayerJsonInfo`,
  whether the layer is enabled:
  - `enable_environment` / `disable_environment` variables, read with `atoi`;
  - an `expiration` date parsed field by field and compared by
    `checkExpiration`;
  - the `override_paths` it adds to the explicit search.

  It then reads the explicit folders: the override folders, the
  `VK_LAYER_PATH` folders and the five standard folders. Each manifest is
  classified by `PrintExplicitLayerJsonInfo` as a meta layer, a layer with a
  library, a layer with both, or one with neither.
- **Layer settings file.** The reader of `vk_layer_settings.txt` in
  `PrintSettingsJsonInfo` trims each line and skips blanks, comments and
  lines without `=`. It groups `layer.setting = value` pairs by layer, in
  file order.

The C-library functions these paths rely on are modelled exactly, because
the results depend on their details:
- `strtok` writes NULs into the environment strings `getenv` returns, so a
  later `getenv` sees only the variable's first folder;
- `atoi` wraps a `long` into an `int`;
- `strrchr`, `strchr`, `strstr` and `std::string::find_first_not_of` are
  used as written.

The program's I/O becomes values:
- a `FileSystem` gives each readable path, each directory listing and each
  manifest's parse outcome;
- the environment is a map;
- the current time and the `ldconfig` output are parameters.

Module layout:

- `CText`: C strings and the C library: `strtok`, `strrchr`, `strchr`,
  `strlen`, `atoi`/`strtol`.
- `Json`: JSON values as jsoncpp presents them.
- `Platform`: error codes, environment, file system, directory scans.
- `LibraryPath`: `GenerateLibraryPath`.
- `Settings`: `TrimWhitespace` and the settings-file reader.
- `ExplicitLayer` and `ImplicitLayer`: the two manifest readers.
- `Layers`: the layer section.
- `Drivers`: the driver section.

Behaviour of the code worth knowing (the model follows it):
- A setting key is split at its first `.` into layer and setting name, as
  the comment at via/via.cpp:4205-4207 describes (`<layer_name>.<setting>`).
  A key without any `.` goes to the bucket `--None--`. A key that starts
  with `.`, such as `.name = value`, goes to a bucket named by the empty
  string.
- A `../` segment in a relative library path never climbs above the
  manifest's own directory, although the comment at via/via.cpp:595 says
  "Go up a folder in the json path". The directory already ends in a
  separator, so cutting it again at its last separator changes nothing.
- The comment at via/via.cpp:4760 says an expired layer is marked as
  disabled. In the code, `expired` receives the outcome of
  `checkExpiration`, which is true while the expiration is still valid. A
  layer in use with a date therefore shows `EXPIRED`, and a lapsed one
  shows `DISABLED`.
- `checkExpiration` compares field by field with `||`. It is not a
  chronological comparison.

## Model

| member | source | states |
|---|---|---|
| CText.CharAt | via/via.cpp:603 | in a NUL-free string, the character read is NUL exactly at index `\|s\|`, the terminator |
| CText.LastIndexOf | via/via.cpp:575-578 | `strrchr`: the returned index holds `c` and no later index does; None exactly when `c` is absent |
| CText.IndexOf | via/via.cpp:4219 | `find`: the returned index holds `c` and no earlier one does; None exactly when `c` is absent |
| CText.RunLengthStops | via/via.cpp:2697-2708 | the leading run holds no delimiter and ends at a delimiter or at the end of the text |
| CText.TokensPartition | via/via.cpp:2697-2708 | the `strtok` tokens are non-empty and delimiter-free; concatenated, they give the text with its delimiters deleted |
| CText.TokensEmpty | via/via.cpp:3247-3255 | `strtok` returns no token exactly when the text is empty or made only of delimiters |
| CText.LeadingDelimsAreDelims | via/via.cpp:2697 | what the first `strtok` call skips is delimiters only |
| CText.FirstToken | via/via.cpp:2697 | the first token is the run after the leading delimiters, or absent when only delimiters remain |
| CText.StrtokResidue | via/via.cpp:2697-2708 | what a full `strtok` scan leaves of the C string is a prefix of it |
| CText.StrtokResidueIsFirstToken | via/via.cpp:2697-2708 | after a full `strtok` scan, the string is its leading delimiters followed by its first token |
| CText.StrtokNext | via/via.cpp:3326-3346 | one `strtok` call: the next token, the position it saves, and that position moving strictly forward when a token is returned |
| CText.StrtokNextTokens | via/via.cpp:3326-3346 | repeated calls from a saved position yield exactly the tokens of the text there |
| CText.StrtokResidueTokens | via/via.cpp:2697-2708 | re-tokenising a string `strtok` has already scanned gives only its first token |
| CText.Split | via/via.cpp:4210 | there is always at least one piece |
| CText.SplitJoinRoundTrip | via/via.cpp:4210 | joining the pieces with the separator gives back the text |
| CText.JoinSplitRoundTrip | via/via.cpp:4769-4796 | splitting pieces joined with a separator they do not hold gives back the pieces |
| CText.SplitPieces | via/via.cpp:4769-4796 | no piece holds the separator, and there is a single piece exactly when the text has no separator |
| CText.CStr | via/via.cpp:4766-4767 | `c_str()` reads up to the first NUL: a NUL-free prefix of the text, equal to it when the text has no NUL |
| CText.CStrStopsAtNul | via/via.cpp:4773 | a NUL written after a prefix ends the C string at that prefix |
| CText.Strlen | via/via.cpp:4767 | `strlen` at an offset never runs past the buffer |
| CText.StrChr | via/via.cpp:4769 | `strchr`: the offset lies inside the C string and holds the first `c`; None exactly when the C string has no `c` |
| CText.SkipSpaces | via/via.cpp:4727 | the white space in front is dropped; the result is a suffix that does not start with white space |
| CText.ToInt32 | via/via.cpp:4777 | the narrowing to `int` lands in the 32-bit range and is the identity inside it |
| CText.ToInt32Congruent | via/via.cpp:4777 | the narrowed value is congruent to the `long` modulo 2^32 |
| CText.Atoi | via/via.cpp:4727 | `atoi` yields a 32-bit value |
| CText.AtoiIsNarrowedStrtol | via/via.cpp:4727 | `atoi` is `strtol` (saturating at the 64-bit bounds) narrowed to `int` |
| CText.StrtolSkipsSpaces | via/via.cpp:4751 | white space before the number does not change the value read |
| CText.AtoiNoDigits | via/via.cpp:4727 | text that does not start with a sign or digit after white space reads as 0 |
| CText.StrtolUnsigned | via/via.cpp:4777 | text that starts with a digit reads as the value of its leading digits, saturated at the `long` maximum |
| CText.AtoiDecimal | via/via.cpp:4777-4789 | a plain decimal numeral that fits in an `int` reads as its value |
| Json.FirstKey | via/via.cpp:4712-4716 | a first key exists exactly for a non-empty object or array |
| Platform.Getenv | via/via.cpp:3232 | `getenv` yields a value exactly when the variable is set, and the value is NUL-free |
| Platform.LoadManifest | via/via.cpp:3984-4005 | the stream fails exactly for an unreadable path, and a loaded root is never null |
| Platform.ManifestPathsMembers | via/via.cpp:3593 | every visited path is `dir/name` for an entry whose name contains ".json", and every such entry is visited |
| Platform.PathVariableFoldersMeaning | via/via.cpp:3247-3255 | an all-colon value is taken whole; otherwise its folders are non-empty, colon-free and spell out the value without its colons |
| Platform.SplitPathVariable | via/via.cpp:3247-3255 | the `strtok` loop collects exactly the folders the variable names |
| Platform.OtherVariablesKept | via/via.cpp:2697 | a `strtok` scan of one variable leaves every other variable unchanged |
| Platform.StrtokLeavesResidue | via/via.cpp:2697-2708 | after a scan, `getenv` of the variable names at most its first folder |
| LibraryPath.CutAtLastSeparator | via/via.cpp:574-582 | the directory is a prefix of the manifest path ending in its last '\\' (else its last '/'); a path with no separator is kept whole |
| LibraryPath.CutIsIdempotent | via/via.cpp:593-602 | cutting the directory again changes nothing, so a `../` step never ascends |
| LibraryPath.StripParentsShape | via/via.cpp:593-602 | the parent loop drops a leading run of `../` segments and stops at a text that does not start with one |
| LibraryPath.StripCurrentsShape | via/via.cpp:604-606 | the current-folder loop drops a leading run of `./` segments and stops at a text that does not start with one |
| LibraryPath.TailShape | via/via.cpp:593-606 | the appended tail is the reference without one leading run of dot segments and does not start with `./` |
| LibraryPath.RelativeStaysInManifestDirectory | via/via.cpp:589-610 | a relative reference resolves to the manifest's directory followed by its tail |
| LibraryPath.ParentSegmentNeverAscends | via/via.cpp:593-602 | prefixing a relative reference with `../` does not change where it resolves |
| LibraryPath.ResolveExample | via/via.cpp:589-610 | `../../x` beside `/a/b/c/m.json` resolves to `/a/b/c/x` |
| LibraryPath.CutFileName | via/via.cpp:573-582 | the cut the method makes is the directory of the manifest path |
| LibraryPath.SkipParentSegments | via/via.cpp:593-602 | the loop consumes exactly the leading parent segments and leaves the directory unchanged |
| LibraryPath.SkipCurrentSegments | via/via.cpp:604-606 | the loop consumes exactly the leading `./` segments after them |
| LibraryPath.GenerateLibraryPath | via/via.cpp:563-615 | false and the buffer untouched for a NULL argument; otherwise true, with an absolute reference copied and a relative one resolved against the manifest's directory |
| Settings.FindFirstNotOf | via/via.cpp:4172 | the index of the first character outside the set; None when there is none |
| Settings.FindLastNotOf | via/via.cpp:4177 | the index of the last character outside the set; None when there is none |
| Settings.TrimWhitespace | via/via.cpp:4171-4181 | the result has no set character at either end and is empty exactly when the text is all set characters |
| Settings.TrimIsInnerSlice | via/via.cpp:4171-4181 | the result is one contiguous slice, and what is cut off on either side is whitespace only |
| Settings.TrimIdempotent | via/via.cpp:4171-4181 | trimming twice is trimming once |
| Settings.SplitKeyRebuilds | via/via.cpp:4232-4240 | the key is `layer.name` with a dot-free layer, or a dot-free name in the `--None--` bucket; a key starting with '.' lands in the bucket "" |
| Settings.TrimKeepsOut | via/via.cpp:4171-4181 | trimming never brings in a character the text did not have |
| Settings.ParseLineMeaning | via/via.cpp:4210-4241 | a line is skipped exactly when its trimmed text is blank, a comment or has no '='; otherwise the value and key are the trimmed text after and before the first '=' |
| Settings.SkippedLineKeepsGrouping | via/via.cpp:4214-4221 | a skipped line leaves the grouping intact |
| Settings.AppendedPairKeepsGrouping | via/via.cpp:4243-4253 | appending a pair to its bucket, created if missing, keeps the grouping |
| Settings.ReadLinesGroups | via/via.cpp:4208-4255 | reading the lines in order groups their pairs by bucket, in file order |
| Settings.ParseSettingLine | via/via.cpp:4210-4241 | the loop body yields exactly the line's reading |
| Settings.ReadSettingsFile | via/via.cpp:4190-4255 | an unopened file yields no settings; otherwise the buckets group every setting line's pair by layer, in file order |
| ExplicitLayer.NamedRowsMatchEntries | via/via.cpp:4540-4553 | the rows name exactly the entries that have a `name`, in order, and never outnumber the count |
| ExplicitLayer.RowsAllLabelledZero | via/via.cpp:4544 | the counter is never advanced, so every row is labelled "[0]" |
| ExplicitLayer.ExtensionRows | via/via.cpp:4529-4578 | the extension loop produces exactly that table |
| ExplicitLayer.CompositionClassified | via/via.cpp:4497-4615 | exactly one verdict from `component_layers` and `library_path`: both, library only, a component array, components that are not an array, or neither; a library-only layer reports the library's text |
| ExplicitLayer.ComponentCountMatchesRows | via/via.cpp:4580-4597 | the count row holds the component array's `size()`, followed by one row per entry with that entry's text, in order, so the count equals the number of rows |
| ExplicitLayer.FieldsShownOrMissing | via/via.cpp:4457-4497 | the report lacks a layer section exactly when `layer` is absent; each field is missing exactly when its member is absent, the file format version read from the root and the rest from the layer section |
| ExplicitLayer.ComponentRows | via/via.cpp:4580-4597 | the component loop yields the array's size and its entries' texts |
| ExplicitLayer.PrintExplicitLayerJsonInfo | via/via.cpp:4449-4623 | the report is the classification of the manifest |
| ImplicitLayer.Narrow | via/via.cpp:4625-4631 | a stored year fits 16 bits, the other fields 8 |
| ImplicitLayer.CheckExpirationFails | via/via.cpp:4633-4665 | fails exactly when no field of the expiration exceeds the current one |
| ImplicitLayer.LaterExpirationIsStillValid | via/via.cpp:4659-4661 | an expiration chronologically ahead of now is still valid |
| ImplicitLayer.PastExpirationCanCountAsValid | via/via.cpp:4659-4661 | a date years in the past can still count as valid |
| ImplicitLayer.SetField | via/via.cpp:4775-4792 | the chosen field takes the narrowed number, and the others are kept |
| ImplicitLayer.PartialStops | via/via.cpp:4771 | once every remaining field reads 0, stopping early gives all five |
| ImplicitLayer.ExpirationFields | via/via.cpp:4766-4800 | the parse fills every field as the piece-by-piece description says, within its width |
| ImplicitLayer.PiecesGiveFields | via/via.cpp:4769-4796 | a date built from dash-free pieces splits back into those pieces |
| ImplicitLayer.DashedDateFields | via/via.cpp:4771-4798 | a full `YYYY-MM-DD-HH-MM` date gives each piece to its own field |
| ImplicitLayer.ShortDateRepeatsLastPiece | via/via.cpp:4794-4798 | with two pieces, the second fills every field after the year |
| ImplicitLayer.ReadIntact | via/via.cpp:4766 | the unread copy still reads as the rest of the date |
| ImplicitLayer.ReadAfterNul | via/via.cpp:4773 | the NUL written over a dash ends the C string there |
| ImplicitLayer.ReadAtDash | via/via.cpp:4771-4798 | at a dash, the text before it fills the field and reading resumes after it |
| ImplicitLayer.StrChrIntact | via/via.cpp:4796 | `strchr` on the intact copy finds the date's next dash |
| ImplicitLayer.StepAtDash | via/via.cpp:4772-4796 | overwriting the dash ends the field there, and the next `strchr` continues after it |
| ImplicitLayer.StepAtLastPiece | via/via.cpp:4771-4798 | with no dash left, `atoi` reads the whole last piece and the start stays put |
| ImplicitLayer.StoreField | via/via.cpp:4775-4792 | the `switch` stores the `atoi` value into the field `curItem` picks |
| ImplicitLayer.RoundAtDash | via/via.cpp:4771-4798 | a round with a dash ahead keeps the loop invariant one field further |
| ImplicitLayer.RoundAtLastPiece | via/via.cpp:4771-4798 | a round on the last piece keeps the loop invariant one field further |
| ImplicitLayer.ParseRound | via/via.cpp:4772-4798 | one loop body keeps the loop invariant one field further |
| ImplicitLayer.ParseExpiration | via/via.cpp:4766-4800 | the parse of a 16-character date yields exactly the specified expiration |
| ImplicitLayer.EnabledIff | via/via.cpp:4710-4803 | enabled exactly when the enable gate opens, no disable variable hits and any applied expiration passes the check |
| ImplicitLayer.ExpiredIff | via/via.cpp:4801-4803 | `expired` exactly when the layer is otherwise enabled and its applied expiration passes the check |
| ImplicitLayer.DisableWins | via/via.cpp:4746-4753 | a positive disable variable turns the layer off and not expired |
| ImplicitLayer.VariablesReported | via/via.cpp:4710-4756 | the reported variable names and their "set" flags |
| ImplicitLayer.StatusLabels | via/via.cpp:4829 | EXPIRED exactly for enabled layers with an applied date, ENABLED for those without, DISABLED otherwise |
| ImplicitLayer.LapsedLayerShowsDisabled | via/via.cpp:4801-4829 | a layer whose expiration fails the check is shown DISABLED |
| ImplicitLayer.DashlessDateDisables | via/via.cpp:4767-4803 | a 16-character date without a dash reads as all zeros and turns the layer off |
| ImplicitLayer.PathList.PushBack | via/via.cpp:4700 | `push_back` appends one path |
| ImplicitLayer.Texts | via/via.cpp:4693-4700 | one text per value |
| ImplicitLayer.RecordOverridePaths | via/via.cpp:4688-4700 | every `override_paths` entry is appended, in order |
| ImplicitLayer.ReadEnableVariable | via/via.cpp:4710-4734 | the enable block yields the specified enablement |
| ImplicitLayer.ReadDisableVariable | via/via.cpp:4736-4758 | the disable block yields the specified enablement |
| ImplicitLayer.ReadExpiration | via/via.cpp:4761-4803 | the expiration block yields the specified enablement |
| ImplicitLayer.PrintImplicitLayerJsonInfo | via/via.cpp:4674-4851 | the explicit report, the override paths appended in order, and the decided enablement |
| Layers.Failure | via/via.cpp:3985-4005 | a failure exactly when the manifest does not load |
| Layers.NoFailureKeeps | via/via.cpp:3992-4005 | manifests that all load leave the result as it was |
| Layers.LastFailureWins | via/via.cpp:3992-4005 | with no failing manifest the result is kept, and otherwise the last failing manifest decides it |
| Layers.LoadedRoots | via/via.cpp:3593-3634 | at most one root per visited manifest |
| Layers.LoadedRootsMembers | via/via.cpp:3593-3634 | a root is shown exactly when some visited manifest loads to it |
| Layers.FolderResultMeaning | via/via.cpp:3572-3661 | a folder succeeds exactly when every manifest in it loads, and otherwise reports its last failing manifest |
| Layers.LastFailing | via/via.cpp:3572-3661 | with any failing manifest, some manifest is the last to fail |
| Layers.VisitExplicitEntry | via/via.cpp:3593-3640 | one entry updates the result and the shown roots as specified |
| Layers.ScanExplicitEntries | via/via.cpp:3591-3645 | the entry loop folds the failures and reports every loaded manifest in order |
| Layers.PrintExplicitLayersInFolder | via/via.cpp:3572-3661 | the folder's result and the reports of its loaded manifests |
| Layers.OverridesComeFromRoots | via/via.cpp:4007 | the override folders are exactly the `override_paths` entries of the loaded implicit roots |
| Layers.VisitImplicitEntry | via/via.cpp:3971-4014 | one entry updates the result, the shown layers and the override folders as specified |
| Layers.ScanImplicitEntries | via/via.cpp:3971-4015 | the entry loop continues the fold, the shown layers and the override list |
| Layers.ScanImplicitFolder | via/via.cpp:3963-4024 | an unopened folder contributes nothing; otherwise its entries are scanned |
| Layers.ScanImplicitFolders | via/via.cpp:3935-4025 | across the implicit folders: folded failures, shown layers and override folders, in order |
| Layers.HomeKept | via/via.cpp:4109-4121 | the home folder is read after the scan and is the same as before it |
| Layers.ExplicitFoldersKept | via/via.cpp:4086-4124 | the five standard explicit folders are unchanged by the scan, and the home one is last |
| Layers.SearchFolders | via/via.cpp:4041-4043 | the result is that of the last folder searched, each overwriting the previous; the reports describe every loaded manifest of the folders, in order |
| Layers.ReadLayerPath | via/via.cpp:4047-4075 | the folders `VK_LAYER_PATH` names and the environment the scan leaves |
| Layers.ScanExplicitLayers | via/via.cpp:4029-4124 | override, then `VK_LAYER_PATH`, then the standard folders; the result is the home folder's; the reports describe every loaded manifest of those folders, in order |
| Layers.PrintLayerInfo | via/via.cpp:3918-4127 | the implicit layers shown, their override folders, the explicit folders in order with the reports of their loaded manifests, the result and the final environment |
| Drivers.SystemFolders | via/via.cpp:2650-2684 | exactly five fixed folders |
| Drivers.AnyHitMeaning | via/via.cpp:2650-2710 | some folder passes `CheckDriver` exactly when one of the list does |
| Drivers.FirstHitMeaning | via/via.cpp:2686-2689 | nothing is found exactly when no folder holds the library, and otherwise the earliest one is |
| Drivers.NoLaterHit | via/via.cpp:2686-2689 | no folder after the last hit holds the library |
| Drivers.TryFoldersMeaning | via/via.cpp:2686-2710 | the flag is set exactly when it was or some folder holds the library; no hit changes nothing; the last hit picks the location |
| Drivers.SearchFound | via/via.cpp:2645-2714 | found exactly when a fixed folder or an `LD_LIBRARY_PATH` folder holds the library, with or without break-on-first |
| Drivers.BreakOnFirst | via/via.cpp:2686-2689 | break-on-first reports the earliest fixed hit and leaves `LD_LIBRARY_PATH` alone; with no fixed hit it changes nothing |
| Drivers.SearchEnvironment | via/via.cpp:2693-2710 | `LD_LIBRARY_PATH` is scanned exactly when set and not broken off; only it changes, to its first folder |
| Drivers.TryFixedFolders | via/via.cpp:2650-2690 | the fixed-folder loop yields the fold or the first hit, and says whether it stopped |
| Drivers.TryPathFolders | via/via.cpp:2693-2710 | the `strtok` loop tries every folder the value names |
| Drivers.FindLinuxSystemObject | via/via.cpp:2645-2714 | the search's flag, location and environment, and the `strtok` position it leaves |
| Drivers.EarlierLibrarySkipsLdconfig | via/via.cpp:3101-3130 | an incoming flag changes only whether `ldconfig` is asked |
| Drivers.LookupSearchesOnlyBareNames | via/via.cpp:3089-3100 | a readable generated path needs no search, a name with '/' is never searched for, and only a search touches the environment |
| Drivers.ReadDriverMeaning | via/via.cpp:3017-3206 | counts exactly when the manifest has an `ICD` section; the flag stays set; a manifest that does not count changes nothing; an unset `LD_LIBRARY_PATH` is not scanned |
| Drivers.LookUpLibrary | via/via.cpp:3081-3137 | the lookup yields the specified outcome, environment and `strtok` position |
| Drivers.ReadDriverJson | via/via.cpp:3017-3206 | the read yields the specified result, flag and environment |
| Drivers.Verdict | via/via.cpp:3371-3377 | success exactly when both flags are set; -21 exactly without a manifest; -23 exactly with a manifest but no library |
| Drivers.DriversPathFoldersShape | via/via.cpp:3242-3256 | `VK_DRIVERS_PATH` adds folders exactly when set, colon-free unless taken whole |
| Drivers.VisitMirrored | via/via.cpp:3307-3310 | a read keeps `found_lib` equal to `found_this_lib` and sets `found_json` exactly for an `ICD` manifest |
| Drivers.VisitAllMirrored | via/via.cpp:3296-3312 | a folder's reads keep the two library flags equal |
| Drivers.ReadFoldersMirrored | via/via.cpp:3259-3313 | the folder loop keeps the two library flags equal |
| Drivers.IcdFilesMirrored | via/via.cpp:3326-3347 | the `VK_ICD_FILENAMES` loop keeps the two library flags equal |
| Drivers.DriverSearchMirrored | via/via.cpp:3209-3377 | at the end, `found_lib` equals `found_this_lib` |
| Drivers.VisitAllFoundJson | via/via.cpp:3296-3312 | `found_json` is set exactly when it was or a visited manifest has an `ICD` section |
| Drivers.ReadFoldersFoundJson | via/via.cpp:3259-3313 | over the folders, `found_json` is set exactly when some folder holds an `ICD` manifest |
| Drivers.ReadDriverFlag | via/via.cpp:3081-3137 | the incoming flag changes neither the environment nor whether `LD_LIBRARY_PATH` is searched; the outgoing flag is set exactly when it was set or the manifest's library is located with the flag clear (generated path, system folder or `ldconfig`) |
| Drivers.VisitAllFlags | via/via.cpp:3296-3312 | over a run of reads, `found_lib` ends set exactly when it was set or some manifest of the run locates its library; the environment is the one the reads leave |
| Drivers.ReadFoldersReads | via/via.cpp:3259-3313 | the folder loop reads every folder's ".json" manifests as one run, folder by folder |
| Drivers.UpToScanPrefix | via/via.cpp:3326-3346 | the files taken up to the first `LD_LIBRARY_PATH` search are a prefix of the list |
| Drivers.IcdFilesReads | via/via.cpp:3326-3346 | the `VK_ICD_FILENAMES` loop reads the readable named files in order, up to and including the first read that searches `LD_LIBRARY_PATH`; no later file is read |
| Drivers.IcdPhaseFiles | via/via.cpp:3315-3367 | a value with no tokens is read whole, just as a one-token list would be |
| Drivers.DriverSearchMeaning | via/via.cpp:3209-3377 | `found_json` is set exactly when some manifest read (in a folder, or named by `VK_ICD_FILENAMES` and reached) has an `ICD` section; `found_lib` is set exactly when one of them locates its library with the flag clear, `ldconfig` included |
| Drivers.IcdFilesWithoutLibraryPath | via/via.cpp:3326-3347 | with `LD_LIBRARY_PATH` unset, every readable named file is read, in order |
| Drivers.ReadDriverManifest | via/via.cpp:3307-3310 | one read and merge yields the specified state and `strtok` position |
| Drivers.ReadDriverFolder | via/via.cpp:3277-3312 | an unopened folder changes nothing; otherwise every ".json" entry is read in order |
| Drivers.ReadDriverFolders | via/via.cpp:3259-3313 | the folders are read in order |
| Drivers.ReadIcdFiles | via/via.cpp:3316-3367 | the named files are read until a read exhausts `strtok` |
| Drivers.CollectDriverFolders | via/via.cpp:3227-3256 | four standard folders, the user's, then the `VK_DRIVERS_PATH` folders, and the environment the scan leaves |
| Drivers.PrintDriverInfo | via/via.cpp:3209-3377 | the folders searched, the section's verdict and the final environment |

## Left out

- Windows: the registry, `GetEnvironmentVariableA`, `GetSystemTime` and the `GetFileVersion` row at via/via.cpp:4514-4526. Only the Linux (`__GNUC__`) paths are modelled.
- Output: HTML table layout, row striping and the text of printed rows are not modelled.
- Driver rows: the driver section's `file_format_version` and API-version rows and its "[0]" extension rows (via/via.cpp:3047-3076, 3140-3194) are not modelled. They are printed and never affect the section's result.
- The manifest `[i]` counters of the directory loops (via/via.cpp:3298, 3973) only label rows and are not modelled.
- The Vulkan API sections, `PrintRunTimeInfo`, `PrintSDKInfo`, `PrintSystemInfo` and the test runs: these are outside the discovery core.
- `VerifyOpen` (`dlopen`) is not modelled. It only picks the "FAILED TO LOAD!" row and never the section's result.
- `ldconfig` is not run. Its output is a map from library name to the first line the pipeline prints, and an absent entry covers both `popen` failure and no output.
- The current time is a parameter instead of `localtime(time(NULL))`.
- JSON parsing is not modelled. Each manifest's parse outcome is part of the file system. `asString` on an array or object, which throws in jsoncpp, is taken as "".
- Fixed-size buffers: `MAX_STRING_LENGTH` truncation by `strncpy`, `snprintf` and `sprintf` is not modelled. Paths and names are taken to fit.
- LibraryPath.GenerateLibraryPath: for an empty reference the source reads `library_info[1]` past the terminator. The model takes that byte not to be ':'.
- Drivers.CheckDriver: for an empty folder name the source reads the byte before the string. The model treats such a folder as not ending in '/'.
- Embedded NULs in environment values are not modelled. `getenv` values are NUL-free C strings.
- Layers.PrintLayerInfo: the `VK_LAYER_PATH` folders are tokenised before they are searched, rather than between searches. No other `strtok` call intervenes, so the folders and results are the same.
- Drivers.ReadDriverFolder: the `strtok` position after the folder loop is dropped. `VK_ICD_FILENAMES` restarts `strtok` before the position is read again.
- Json.FirstKey: jsoncpp keeps one member per name and iterates an object's members sorted by name. The enable or disable variable picked at via/via.cpp:4712-4716 and 4738-4740 is therefore the alphabetically first name. The model takes the member list as given and does not require it to be sorted or free of repeats; `FirstKey` picks its first element.
- Json.Get: in jsoncpp, indexing a value that is neither null nor an object (`v["key"]` on a string, number, boolean or array) throws, and via catches nothing, so the program aborts. The model reads null instead and carries on.
- ExplicitLayer.FieldsShownOrMissing: a `layer` member that is neither null nor an object aborts the program at via/via.cpp:4457. The model reads null for its members and reports a described layer with every field missing.
- ExplicitLayer.CompositionClassified: for a `layer` member that is neither null nor an object, the program aborts at via/via.cpp:4457. The model classifies the layer as having neither a library nor components.
- ExplicitLayer.NamedRowsMatchEntries: an extension entry that is neither null nor an object aborts the program at via/via.cpp:4542 (4567). The model treats it as an entry without a `name` and prints no row for it.
- ExplicitLayer.ExtensionRows: the same abort on an extension entry that is neither null nor an object is modelled as an entry without a row.
- Drivers.ReadDriverMeaning: a manifest root that is not an object aborts the program at via/via.cpp:3050. An `ICD` member that is neither null nor an object aborts it at via/via.cpp:3071. The model reads null in the first case (no `ICD` section) and counts the manifest in the second.
