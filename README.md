# Decompile core of the tModLoader setup tool, modelled in Dafny

The setup tool turns the Terraria client and server assemblies into C# projects. This project models the
parts of it that decide what gets decompiled and how:

- **ILSpy `DecompileTask`** (`setup/Setup/DecompileTask.cs`). It reads the server and client modules and
  checks their versions. It groups each module's types into source files, case-insensitively. It moves
  embedded library resources to a folder. It combines the client's and the server's file lists, with the
  client winning. It resolves references through embedded assemblies with a cache. Module: `DecompileTask`.
- **Console output** of the same file: `ColorProvider`, `ConsoleColorizerOutput` and `CreateColorProvider`.
  Module: `ConsoleOutput`.
- **The dnSpy command-line decompiler** embedded in the same file. It covers the reserved switch names,
  the language-option switches and `ParseCommandLine`. It also covers loading the inputs, the GAC
  assemblies and the search paths; `FindType`; the member and project branches of `Decompile`; error
  counting; and `Run`'s exit code. Module: `CommandLine`.
- **`DnSpyDecompiler.cs` and `ProjectOptionsCreator.cs`**, the two setup-side front ends that build
  `ProjectCreatorOptions`. Modules: `SetupDecompiler`, `OptionsCreator`.
- **Shared logic** used by all three front ends:
  - project GUID numbering (`ProjectGuids`);
  - language lookup, indentation and token comments (`Languages`);
  - file and directory loading (`ModuleLoading`);
  - the `--merge` deduplication (`Merging`);
  - the options checks (`ProjectOptions`);
  - .NET string helpers (`Text`).

Objects whose fields the source updates become classes:

- `ModuleLoader`, `CommandLineDecompiler`, `DnSpyDecompiler` and `ProjectOptionsCreator`;
- `EmbeddedAssemblyResolver`, `ColorProvider` and `ConsoleColorizerOutput`.

The loops become methods with invariants, proved against recursive specification functions:

- the GUID counter loop;
- the directory-walk stack;
- the merge over an array of modules;
- `CombineFiles`.

The file system, module reading, `Guid.NewGuid`, number parsing and the GAC resolver are parameters.
They are functions or datatype fields.

## Model

| member | source | states |
|---|---|---|
| Text.ReplaceAllUnchanged | setup/Setup/DecompileTask.cs:211 | String.Replace leaves text in which the pattern does not occur unchanged |
| Text.ReplaceAllAtFirst | setup/Setup/DecompileTask.cs:211 | String.Replace keeps the text before the first occurrence of the pattern, puts the replacement in its place and goes on after it |
| Text.PathCombineParts | setup/Setup/DecompileTask.cs:204 | Path.Combine keeps `a` for an empty `b` and takes `b` alone when `a` is empty or `b` is rooted (IsPathRooted: a leading separator or a drive letter); otherwise `a`, one separator unless `a` ends in one, then `b` |
| Text.LastIndexOf | setup/Setup/DecompileTask.cs:752 | the result is -1 or a position holding the character, and no later position holds it |
| Text.LexLeTotal | setup/Setup/DnSpyDecompiler.cs:194 | the location order used by OrderBy is total |
| Text.LexLeTransitive | setup/Setup/DnSpyDecompiler.cs:194 | the location order used by OrderBy is transitive |
| Text.DecimalRoundTrip | setup/Setup/DecompileTask.cs:171 | Int32.ToString of a version number is digits only, with a leading '-' when negative, and parses back to the number |
| Languages.FindLanguage | setup/Setup/DnSpyDecompiler.cs:393-405 | the first language matching by unique name or by parsed GUID; None exactly when no language matches |
| Languages.GetLanguageLowestOrder | setup/Setup/DnSpyDecompiler.cs:393-405 | GetLanguage: in a list sorted by OrderUI, a match is always found when one exists, and it is a match no later in UI order than any other |
| Languages.GetIndenter | setup/Setup/DecompileTask.cs:1117-1122 | tabs of width 4 exactly when spaces <= 0, otherwise spaces of the configured width |
| Languages.FindOption | setup/Setup/DnSpyDecompiler.cs:161-170 | the first option with the given name, or None when no option has it |
| Languages.RemoveTokenComments | setup/Setup/DnSpyDecompiler.cs:161-170 | the first "tokens" option is switched off; every other option and every other field of the language (names, GUIDs, UI order, project extension) stay as they were |
| ProjectGuids.HexValue | setup/Setup/DnSpyDecompiler.cs:192 | a hex digit's value is below 16 |
| ProjectGuids.Hex | setup/Setup/DnSpyDecompiler.cs:195 | "X" formatting yields exactly w hex digits |
| ProjectGuids.ParseHexOfHex | setup/Setup/DnSpyDecompiler.cs:192-195 | parsing the hex text of a value below 16^w gives the value back |
| ProjectGuids.FormatX8 | setup/Setup/DnSpyDecompiler.cs:195 | "{0:X8}" of an int32 is eight characters |
| ProjectGuids.ToInt32 | setup/Setup/DnSpyDecompiler.cs:192 | int.Parse of eight hex digits is the int32 with the same 32 bits |
| ProjectGuids.Increment32 | setup/Setup/DnSpyDecompiler.cs:195 | guidNum++ stays an int32 and is congruent to n + 1 modulo 2^32 |
| ProjectGuids.GuidLow | setup/Setup/DnSpyDecompiler.cs:192 | the parsed last eight digits are below 2^32 |
| ProjectGuids.GuidForRank | setup/Setup/DnSpyDecompiler.cs:193-195 | every generated GUID is 36 characters and keeps the base GUID's first 28 |
| ProjectGuids.GuidForRankInjective | setup/Setup/DnSpyDecompiler.cs:192-195 | distinct ranks below 2^32 give distinct GUIDs |
| ProjectGuids.InsertPos | setup/Setup/DnSpyDecompiler.cs:194 | the insertion point is after every entry that sorts no later and before the first that sorts later |
| ProjectGuids.SortPrefix | setup/Setup/DnSpyDecompiler.cs:194 | the ordering holds n valid module indices, each below n |
| ProjectGuids.LocationOrder | setup/Setup/DnSpyDecompiler.cs:194 | the ordering has one valid index per module |
| ProjectGuids.InsertKeepsOrder | setup/Setup/DnSpyDecompiler.cs:194 | insertion keeps the ordering sorted by location and stable |
| ProjectGuids.InsertElements | setup/Setup/DnSpyDecompiler.cs:194 | insertion adds exactly the new index and keeps the indices distinct |
| ProjectGuids.SortPrefixIsStableSort | setup/Setup/DnSpyDecompiler.cs:194 | OrderBy(Location, InvariantCultureIgnoreCase) is a permutation of the modules, sorted by location, with equal locations in input order |
| ProjectGuids.CounterStep | setup/Setup/DnSpyDecompiler.cs:195 | the wrapping counter prints as base + k in eight hex digits |
| ProjectGuids.RankedGuids | setup/Setup/DnSpyDecompiler.cs:190-195 | when modules receive the GUIDs of their ranks, all share the base prefix and no two are equal |
| ProjectGuids.LocationOrderPermutes | setup/Setup/DnSpyDecompiler.cs:194 | the location order lists every module index exactly once |
| ProjectGuids.AssignGuids | setup/Setup/DnSpyDecompiler.cs:190-195 | the k-th module in location order gets base + k; all GUIDs keep the prefix and are distinct for up to 2^32 modules |
| ModuleLoading.FileNamesMembers | setup/Setup/DnSpyDecompiler.cs:314-354 | the names kept are exactly those of the non-directory entries |
| ModuleLoading.GetFiles | setup/Setup/DnSpyDecompiler.cs:314-354 | the file entries of the directory matching the pattern; an enumeration that throws reads as an empty directory |
| ModuleLoading.LoadFilesMembers | setup/Setup/DnSpyDecompiler.cs:303-312 | the modules loaded are exactly those some listed file opens to by OpenNetFile (the module at its full path, when that exists and loads), at most one per file |
| ModuleLoading.FlatWalkVisitsOnlyGivenDirectory | setup/Setup/DnSpyDecompiler.cs:290-301 | a non-recursive Walk loads only the given directory's files |
| ModuleLoading.LoadInput | setup/Setup/DnSpyDecompiler.cs:259-288 | a file loads or fails as "is not a .NET file"; a directory is walked with "*"; otherwise the parent directory is walked with the file name as the pattern, or loading fails as "doesn't exist" |
| ModuleLoading.LoadInputsFailsAtFirstBadInput | setup/Setup/DnSpyDecompiler.cs:259-288 | LoadInputs fails exactly when some input fails, and then with the message of the first failing input |
| ModuleLoading.ContainsIgnoreCaseIff | setup/Setup/DnSpyDecompiler.cs:172-180 | the case-insensitive HashSet lookup finds a path exactly when an equal one ignoring case was added |
| ModuleLoading.AddSearchPathKeepsDistinct | setup/Setup/DnSpyDecompiler.cs:172-180 | WithSearchPath (AddSearchPath) never registers a directory twice, ignoring case, and applying it twice is the same as once |
| ModuleLoading.RegisterModulesAppend | setup/Setup/DnSpyDecompiler.cs:371-391 | registering the directories of two module lists is registering the first list, then the second |
| ModuleLoading.ModuleLoader.AddSearchPath | setup/Setup/DnSpyDecompiler.cs:172-180 | the path list afterwards is WithSearchPath of the old one |
| ModuleLoading.ModuleLoader.OpenNetFileAt | setup/Setup/DnSpyDecompiler.cs:356-391 | the module at the file's full path, if it loads, and its directory registered as a search path |
| ModuleLoading.ModuleLoader.DumpDirOnce | setup/Setup/DnSpyDecompiler.cs:303-312 | the modules of one directory, with their directories registered |
| ModuleLoading.ModuleLoader.DumpDir | setup/Setup/DecompileTask.cs:1222-1331 | the explicit-stack walk yields the specification walk's modules and registers their directories |
| ModuleLoading.ModuleLoader.LoadOne | setup/Setup/DnSpyDecompiler.cs:263-285 | one input: a file yields its module or fails as "not a .NET file", a directory yields its walk, otherwise the parent directory's walk with the file name as pattern, or "doesn't exist"; the loaded modules' directories are registered |
| ModuleLoading.ModuleLoader.GetDotNetFiles | setup/Setup/DnSpyDecompiler.cs:259-288 | draining the iterator yields LoadInputs of the inputs and registers the loaded modules' directories |
| Merging.KeepFirstIsFirstOccurrences | setup/Setup/DnSpyDecompiler.cs:217-250 | the running-cache filter KeepFirst equals the reference definition: an item survives exactly when no cached key and no earlier item has its key |
| Merging.KeepFirstFromInput | setup/Setup/DnSpyDecompiler.cs:217-250 | every survivor comes from the input and has a key that was not cached before |
| Merging.KeepFirstDistinct | setup/Setup/DnSpyDecompiler.cs:217-250 | no two survivors share a key |
| Merging.KeepFirstCovers | setup/Setup/DnSpyDecompiler.cs:217-250 | every uncached key of the input survives on some item |
| Merging.KeepFirstKeySet | setup/Setup/DnSpyDecompiler.cs:217-250 | the survivors' keys are exactly the input's keys that were not cached |
| Merging.KeepFirstFromEmpty | setup/Setup/DnSpyDecompiler.cs:217-250 | from an empty cache the filter keeps the first item of every key: distinct keys, all of the input's keys |
| Merging.KeepFirstIdentity | setup/Setup/DnSpyDecompiler.cs:217-250 | a collection with distinct, uncached keys passes the filter unchanged |
| Merging.DedupKeepsModules | setup/Setup/DnSpyDecompiler.cs:217-250 | the merge keeps every module, in order, and changes only its resources and types |
| Merging.DedupIsKeepFirst | setup/Setup/DnSpyDecompiler.cs:217-250 | across all modules, Dedup (RemoveDuplicates as intended) is the cache filter over all resources and over all types |
| Merging.DedupIsFirstOccurrences | setup/Setup/DnSpyDecompiler.cs:217-250 | after the merge, resource names and type full names are distinct; each survivor is the first occurrence; no name is lost |
| Merging.FilterAgainstCache | setup/Setup/DnSpyDecompiler.cs:226-245 | the scan over one collection keeps the first-occurrence items and leaves every key scanned in the cache |
| Merging.RemoveDuplicates | setup/Setup/DnSpyDecompiler.cs:217-250 | the array afterwards holds the merged module list Dedup of its old contents |
| Merging.MergeGate | setup/Setup/DnSpyDecompiler.cs:188 | without Merge the modules stay as loaded; either way the count and the locations are kept |
| Merging.ScanAsWrittenOkIff | setup/Setup/DnSpyDecompiler.cs:226-245 | the foreach that removes items as written completes exactly when no two items share a key and no item's key is already cached |
| Merging.ScanAsWrittenCache | setup/Setup/DnSpyDecompiler.cs:226-245 | when that foreach completes, the cache holds the old keys and every item's key |
| Merging.DedupAsWrittenOkIff | setup/Setup/DnSpyDecompiler.cs:217-250 | the loop as written completes exactly when no resource name and no type full name repeats across the modules or is already cached |
| Merging.DedupAsWrittenUnchanged | setup/Setup/DnSpyDecompiler.cs:217-250 | when the loop as written completes, it has changed no module, and the corrected merge leaves them unchanged too |
| Merging.RemoveDuplicatesAsWrittenOkIff | setup/Setup/DnSpyDecompiler.cs:217-250 | RemoveDuplicates as written succeeds exactly when there is nothing to remove, and then agrees with the intended merge |
| Merging.RemoveDuplicatesAsWrittenThrows | setup/Setup/DnSpyDecompiler.cs:217-250 | two modules embedding a resource "a": the code as written throws; the intended merge drops the second copy |
| ProjectOptions.CheckOptions | setup/Setup/DnSpyDecompiler.cs:196-199 | passes exactly when the output directory is non-empty and the language can create project files; "Missing output directory" is checked first |
| ProjectOptions.SolutionFilename | setup/Setup/DnSpyDecompiler.cs:208-209 | the solution file name is set exactly when slnName is neither null nor empty |
| ProjectOptions.Locations | setup/Setup/DnSpyDecompiler.cs:194 | one location per module, in order |
| ProjectOptions.Zip | setup/Setup/DnSpyDecompiler.cs:188-195 | each module paired with its GUID, in order |
| ProjectOptions.Guids | setup/Setup/DnSpyDecompiler.cs:190-195 | the project GUIDs of the module options, in order |
| ProjectOptions.PlanProject | setup/Setup/DnSpyDecompiler.cs:182-214 | fails exactly when a check fails, with its message; otherwise the options carry the settings and distinct module GUIDs |
| SetupDecompiler.DnSpyDecompiler.constructor | setup/Setup/DnSpyDecompiler.cs:66-87 | the initial settings: VS2015, "solution.sln", no merge, no search paths |
| SetupDecompiler.DnSpyDecompiler.Run | setup/Setup/DnSpyDecompiler.cs:139-170 | no matching language fails with a null dereference; otherwise the language's token comments are switched off, then Decompile follows |
| SetupDecompiler.DnSpyDecompiler.Decompile | setup/Setup/DnSpyDecompiler.cs:182-214 | the first load failure, or a failing check, or options planned from the modules after the Merge gate |
| OptionsCreator.ProjectOptionsCreator.constructor | setup/Setup/ProjectOptionsCreator.cs:68-88 | the initial settings: VS2015, "solution.sln", no search paths |
| OptionsCreator.ProjectOptionsCreator.Run | setup/Setup/ProjectOptionsCreator.cs:140-161 | as DnSpyDecompiler.Run: a null dereference when no language matches, else token comments off and Decompile |
| OptionsCreator.ProjectOptionsCreator.Decompile | setup/Setup/ProjectOptionsCreator.cs:173-197 | the first load failure, or a failing check, or options planned from the loaded modules |
| DecompileTask.IncludedTypesMembers | setup/Setup/DecompileTask.cs:200-206 | the included types are exactly the module's types that ILSpy includes |
| DecompileTask.FindGroup | setup/Setup/DecompileTask.cs:202-205 | the group whose key equals k ignoring case, or None when no group's key does |
| DecompileTask.FoldedKeys | setup/Setup/DecompileTask.cs:202-205 | the case-folded group keys, in order |
| DecompileTask.GroupByKeyGroups | setup/Setup/DecompileTask.cs:200-206 | GroupBy with OrdinalIgnoreCase yields groups with case-distinct keys; each holds exactly the types of its key, in module order |
| DecompileTask.MatchingTypesMembers | setup/Setup/DecompileTask.cs:200-206 | a group's members are the types whose key equals the group's key ignoring case |
| DecompileTask.GetCodeFilesGroups | setup/Setup/DecompileTask.cs:200-206 | the source files have case-distinct paths, are non-empty, are keyed by their first type, and hold every matching included type |
| DecompileTask.GetCodeFilesPartition | setup/Setup/DecompileTask.cs:200-206 | every included type lies in exactly the source files whose path matches its own, and only included types appear |
| DecompileTask.LibraryPathMovesPrefix | setup/Setup/DecompileTask.cs:211 | LibraryPath: a name that starts with "Terraria.Libraries." and holds no other occurrence of it is moved into the "Terraria.Libraries\" folder, the rest kept |
| DecompileTask.LibraryPathOfJson | setup/Setup/DecompileTask.cs:211 | "Terraria.Libraries.JSON.Net.Newtonsoft.Json.dll" becomes "Terraria.Libraries\JSON.Net.Newtonsoft.Json.dll" |
| DecompileTask.SingleOrDefault | setup/Setup/DecompileTask.cs:213 | no match gives null, one match gives that element, two or more throw |
| DecompileTask.ResourcePathMoves | setup/Setup/DecompileTask.cs:208-220 | ResourcePath: a library resource ending in a reference's ".dll" is moved to the reference's folder with its length kept; two matches fail |
| DecompileTask.FileRefsAreSuffixRefs | setup/Setup/DecompileTask.cs:213 | when every match is a whole file name, the corrected match is the source's EndsWith match |
| DecompileTask.ResourcePathAgreesOnWholeNames | setup/Setup/DecompileTask.cs:208-220 | ResourcePathAsWritten and the corrected ResourcePath agree on resources whose reference names end at a boundary |
| DecompileTask.ResourcePathAsWrittenCutsNames | setup/Setup/DecompileTask.cs:213-216 | as written, "FooBar.dll" with reference Bar becomes "Fo\Bar.dll" and "Bar.dll" throws; the corrected version keeps both |
| DecompileTask.EmbeddedFilesOk | setup/Setup/DecompileTask.cs:208-220 | GetResourceFiles (EmbeddedFiles over the module's resources) succeeds exactly when every embedded resource's path does |
| DecompileTask.EmbeddedFilesPaths | setup/Setup/DecompileTask.cs:208-220 | when GetResourceFiles succeeds, it lists the embedded resources in order, one file each, with that resource's path |
| DecompileTask.CombineFiles | setup/Setup/DecompileTask.cs:222-227 | the client files followed by the server files whose key the client does not have |
| DecompileTask.UnclaimedMembers | setup/Setup/DecompileTask.cs:222-227 | the server files kept are exactly those with an unclaimed key; none are dropped when no key is claimed |
| DecompileTask.CombinedMembers | setup/Setup/DecompileTask.cs:222-227 | a combined list holds the client entries and exactly the server entries whose key no client entry has, and is no longer than both lists together |
| DecompileTask.RunCoversFiles | setup/Setup/DecompileTask.cs:134-135 | the combined lists hold every client file and every server file whose key the client lacks, and nothing else |
| DecompileTask.SourceItems | setup/Setup/DecompileTask.cs:279-281 | one Compile item per source file |
| DecompileTask.ResourceItems | setup/Setup/DecompileTask.cs:279-281 | one EmbeddedResource item per resource |
| DecompileTask.ProjectFileItemsLayout | setup/Setup/DecompileTask.cs:273-300 | the project lists the sources, then the resources, then Properties\AssemblyInfo.cs |
| DecompileTask.ReadModule | setup/Setup/DecompileTask.cs:163-175 | the module is returned exactly when it reads and has the expected version; otherwise the version mismatch message |
| DecompileTask.DecompileItems | setup/Setup/DecompileTask.cs:153-155 | one decompile work item per source file |
| DecompileTask.ExtractItems | setup/Setup/DecompileTask.cs:156-158 | one extraction work item per resource |
| DecompileTask.LoadModuleFiles | setup/Setup/DecompileTask.cs:124-126 | the split module is the one read, with the expected version |
| DecompileTask.Run | setup/Setup/DecompileTask.cs:108-161 | server first, then client; the first failure wins. Otherwise the exact work-item list: the client's project and .user items (unless server-only), the server's, the assembly info, then one item per combined source and resource |
| DecompileTask.ResolveUncachedCases | setup/Setup/DecompileTask.cs:48-75 | ResolveUncached: null exactly for a non-4 mscorlib; a single embedded match is read and preferred to the base resolver, and its read failure is the result; two matches throw; with no embedded match or no base module, the base resolver's result |
| DecompileTask.EmbeddedAssemblyResolver.constructor | setup/Setup/DecompileTask.cs:41-46 | an empty cache and no base module |
| DecompileTask.EmbeddedAssemblyResolver.SetBaseModule | setup/Setup/DecompileTask.cs:168 | the base module is set and the cache is kept |
| DecompileTask.EmbeddedAssemblyResolver.Resolve | setup/Setup/DecompileTask.cs:48-75 | a cached name answers from the cache unchanged; otherwise the uncached result, stored unless resolving threw |
| CommandLine.ReservedFromMembers | setup/Setup/DecompileTask.cs:760-771 | ReservedFrom holds a name exactly when it is "--", then "", "no-" or "dont-", then one of the given names |
| CommandLine.ReservedOptionsMembers | setup/Setup/DecompileTask.cs:760-793 | ReservedOptions is exactly "--", then "", "no-" or "dont-", then one of the tool's own option names |
| CommandLine.ReservedFromShape | setup/Setup/DecompileTask.cs:760-771 | every reserved name starts with "--" and is at most seven characters longer than the longest own name |
| CommandLine.ReservedOptionsAreShort | setup/Setup/DecompileTask.cs:760-793 | no reserved name is longer than "--dont-project-guid" |
| CommandLine.FixInvalidSwitchChars | setup/Setup/DecompileTask.cs:718 | spaces become '-', every other character is kept |
| CommandLine.GetOptionNameNotReserved | setup/Setup/DecompileTask.cs:709-716 | a language option's switch is never reserved; it is the name-based switch whenever that one is free |
| CommandLine.OptionsDictionaryTargets | setup/Setup/DecompileTask.cs:1004-1029 | OptionsDictionary: every switch sets an option it names, by an action that fits the option's type |
| CommandLine.OptionsDictionaryNotReserved | setup/Setup/DecompileTask.cs:1004-1029 | no language-option switch is a reserved name |
| CommandLine.Segment | setup/Setup/DecompileTask.cs:853-865 | the text before the first path separator |
| CommandLine.SplitPathsEntries | setup/Setup/DecompileTask.cs:853-865 | SplitPaths: split path lists have non-empty entries without separators; a list without separator is one entry |
| CommandLine.VisualStudioVersion | setup/Setup/DecompileTask.cs:897-915 | --vs accepts exactly 2005, 2008, 2010, 2012, 2013 and 2015 |
| CommandLine.LookupFinds | setup/Setup/DecompileTask.cs:822-985 | a switch is found exactly when a case label equals the argument, and it is that label's switch |
| CommandLine.SwitchOfDashed | setup/Setup/DecompileTask.cs:822-985 | every switch label starts with '-' and has at least two characters |
| CommandLine.OwnSwitch | setup/Setup/DecompileTask.cs:833-970 | a switch with an argument keeps the spaces setting within 0..100 and the solution name relative |
| CommandLine.OwnFlag | setup/Setup/DecompileTask.cs:828-931 | a flag changes exactly its one field |
| CommandLine.OwnFlagFields | setup/Setup/DecompileTask.cs:828-931 | -r sets isRecursive; each --no-… flag clears its own field; the other flag fields keep their values |
| CommandLine.LanguageSwitch | setup/Setup/DecompileTask.cs:971-983 | a language-option switch consumes one or two arguments and changes only the languages |
| CommandLine.OwnStep | setup/Setup/DecompileTask.cs:822-970 | a value switch consumes two arguments, others one; only "--" stops switch parsing |
| CommandLine.Step | setup/Setup/DecompileTask.cs:808-988 | a loop pass advances within the arguments and keeps the settings in range |
| CommandLine.ParseRestAreFiles | setup/Setup/DecompileTask.cs:808-988 | after "--", or with no dashed argument left, the remaining non-empty arguments become input files in order, nothing else changing |
| CommandLine.ParseTerminator | setup/Setup/DecompileTask.cs:824-827 | everything non-empty after "--" is an input file |
| CommandLine.StepShapes | setup/Setup/DecompileTask.cs:808-988 | a missing argument fails; a value switch consumes the next argument; empty arguments are skipped; unknown dashed arguments are invalid options |
| CommandLine.ReservedNameIsInvalid | setup/Setup/DecompileTask.cs:971-985 | a reserved name that is no switch of the tool is an invalid option |
| CommandLine.ReservedButUnhandledIsInvalid | setup/Setup/DecompileTask.cs:760-793 | reserved names such as "--no-recursive" are always rejected |
| CommandLine.InitialCliInRange | setup/Setup/DecompileTask.cs:515-537 | InitialCli, the constructor's settings: spaces within 0..100, the relative "solution.sln", no input files |
| CommandLine.ParseFromInitialInRange | setup/Setup/DecompileTask.cs:795-991 | Parse from the constructor's settings, whatever the arguments, ends with the spaces within 0..100 and a relative solution name |
| CommandLine.ParseKeepsRanges | setup/Setup/DecompileTask.cs:795-991 | ParseFrom keeps the spaces setting within 0..100 and the solution name relative |
| CommandLine.CleanTypeName | setup/Setup/DecompileTask.cs:1170-1176 | the name is cut at its last '`', or kept when it has none |
| CommandLine.FirstWhere | setup/Setup/DecompileTask.cs:1135 | FirstOrDefault: None exactly when nothing matches, otherwise the first match |
| CommandLine.SameImpliesIgnoreCase | setup/Setup/DecompileTask.cs:1124-1166 | an ordinal match is also a match ignoring case |
| CommandLine.FindTypeNone | setup/Setup/DecompileTask.cs:1124-1166 | FindType finds no type exactly when no type's full name and no type's name matches ignoring case |
| CommandLine.FindTypeMatches | setup/Setup/DecompileTask.cs:1124-1166 | a type FindType finds is one of the module's types, and its full name or name matches ignoring case |
| CommandLine.FindTypeFinds | setup/Setup/DecompileTask.cs:1124-1166 | when some type's full name equals the name exactly, FindType returns the first such type: an exact full-name match wins |
| CommandLine.GetBaseName | setup/Setup/DecompileTask.cs:750-756 | the part after the last directory separator: a separator precedes it and it holds none; the whole name when it has none |
| CommandLine.SelectMember | setup/Setup/DecompileTask.cs:1057-1095 | the member branch needs exactly one module; the --type lookup or --md token; other kinds are refused |
| CommandLine.LoadGacResolvesAll | setup/Setup/DecompileTask.cs:1209-1219 | LoadGac succeeds exactly when every name resolves, yielding the modules in order |
| CommandLine.AddSearchPathsCovers | setup/Setup/DecompileTask.cs:1031-1039 | every existing directory given becomes a search path, and nothing else is added |
| CommandLine.LanguageCheck | setup/Setup/DecompileTask.cs:592-596 | fails exactly when no language matches; otherwise a matching language |
| CommandLine.ErrorLines | setup/Setup/DecompileTask.cs:1388-1393 | one "ERROR: " line per message |
| CommandLine.CommandLineDecompiler.constructor | setup/Setup/DecompileTask.cs:515-537 | the initial settings and an empty error count |
| CommandLine.CommandLineDecompiler.ParseCommandLine | setup/Setup/DecompileTask.cs:795-991 | fails exactly when the parse fails, with its message; otherwise the settings become the parsed ones |
| CommandLine.CommandLineDecompiler.Error | setup/Setup/DecompileTask.cs:1388-1393 | one more error and one more error line |
| CommandLine.CommandLineDecompiler.LoadGacFiles | setup/Setup/DecompileTask.cs:1209-1219 | the GAC outcome, with the resolved modules' directories registered |
| CommandLine.CommandLineDecompiler.AddSearchPathsOf | setup/Setup/DecompileTask.cs:1031-1039 | AddSearchPath on each directory, in order |
| CommandLine.CommandLineDecompiler.Decompile | setup/Setup/DecompileTask.cs:1041-1115 | a fresh loader with the search paths; the result of the member or the project branch for the inputs and the GAC modules |
| CommandLine.CommandLineDecompiler.ReportErrors | setup/Setup/DecompileTask.cs:1388-1393 | one error per message, in order |
| CommandLine.CommandLineDecompiler.Execute | setup/Setup/DecompileTask.cs:591-610 | language check, then Decompile; the project creator's errors are counted; exit code 0 exactly when nothing failed and no error was reported |
| CommandLine.CommandLineDecompiler.Run | setup/Setup/DecompileTask.cs:587-611 | a parse failure exits with 1; otherwise the parsed settings, then as Execute: the language check's message when no language matches, else the member or project branch of Decompile, the creator's errors counted for a project; exit code 0 exactly on success without errors |
| ConsoleOutput.ColorProvider.constructor | setup/Setup/DecompileTask.cs:380-382 | an empty colour table |
| ConsoleOutput.ColorProvider.Add | setup/Setup/DecompileTask.cs:384-388 | a pair with some colour is stored for its text colour; a pair without colour is ignored |
| ConsoleOutput.ColorProvider.GetColor | setup/Setup/DecompileTask.cs:390-396 | the stored pair of a listed text colour, None for null or an unlisted one; a stored pair has some colour |
| ConsoleOutput.CreateColorProvider | setup/Setup/DecompileTask.cs:1395-1449 | the table holds the 45 foreground colours as listed; the five Add calls without colour leave no entry |
| ConsoleOutput.WrittenAppend | setup/Setup/DecompileTask.cs:481 | the written text of two segment lists is the concatenation of theirs |
| ConsoleOutput.ConsoleColorizerOutput.constructor | setup/Setup/DecompileTask.cs:412-424 | nothing written, position 0, the given indentation level |
| ConsoleOutput.ConsoleColorizerOutput.Length | setup/Setup/DecompileTask.cs:407 | the position is the length of the text written |
| ConsoleOutput.ConsoleColorizerOutput.IncreaseIndent | setup/Setup/DecompileTask.cs:426 | the indentation level grows by one; nothing is written |
| ConsoleOutput.ConsoleColorizerOutput.DecreaseIndent | setup/Setup/DecompileTask.cs:427 | the indentation level shrinks by one; nothing is written |
| ConsoleOutput.ConsoleColorizerOutput.WriteLine | setup/Setup/DecompileTask.cs:429-436 | the newline is written uncoloured and the next write indents |
| ConsoleOutput.ConsoleColorizerOutput.AddIndent | setup/Setup/DecompileTask.cs:438-446 | the pending indentation is written once; the length becomes NextPosition |
| ConsoleOutput.ConsoleColorizerOutput.Write | setup/Setup/DecompileTask.cs:448-466 | any pending indentation, then the text in its provider colour; the text ends the output; the position grows by both |
| ConsoleOutput.ConsoleColorizerOutput.WriteRange | setup/Setup/DecompileTask.cs:468-474 | writes text[index..index+length] as Write does |

## Left out

- Console I/O: `Console.ForegroundColor`, `BackgroundColor` and `ResetColor` are not modelled. The colour
  each segment was written with is recorded instead.
- Environment.NewLine and the indentation text are constructor parameters. dnSpy's Indenter class is not
  part of this model: only its level is kept.
- The ArgumentNullException checks of the ConsoleColorizerOutput constructor: references cannot be null here.
- ConsoleOutput.CreateColorProvider: its contract states the table it builds. No per-colour lemma is
  stated over the 45-entry table, because proofs about a literal map that size exceed the verifier's
  resource bounds.
- The Write overloads that take a reference and text flags behave as Write and WriteRange; the reference
  and flags are ignored, as in the source. AddCustomData and UsesCustomData do nothing. Dispose is
  not modelled.
- The cast of the colour object to TextColor is modelled as an `Option<TextColor>`. `Unlisted(id)` stands
  for a boxed value that is not one of the table's colours.
- ConsoleOutput.ConsoleColorizerOutput.WriteRange: Substring's ArgumentOutOfRangeException is a
  precondition rather than an error result.
- CommandLine.CommandLineDecompiler.ParseCommandLine: on failure the contract states only the message.
  It does not state the fields that the switches before the failing one have set. A failed parse ends
  the run either way.
- The language settings objects are shared between languages in the source. Here each language owns its
  options, so setting one language's option does not change another's.
- Path.GetFullPath's exceptions are not modelled. The full path is a parameter function.
- PrintHelp, the usage text and the dump output of the member branch are not modelled.
- Member decompilation and MSBuildProjectCreator are not part of this model. The creator's error messages
  are a parameter (`creatorErrors`).
- The other member kinds of the member branch (methods, fields, events and properties) are modelled only
  as a token and a kind: the one kind the source refuses is `OtherKind`.
- Type full names are one string per type. The source's reflection names and normal names of nested
  types are not distinguished.
- The assembly resolver's own cache, UseGAC and FindExactMatch are not modelled. GAC resolution is a
  parameter function.
- Merging.ScanAsWritten: the message of the exception a modified collection raises in its enumerator is
  not pinned; dnlib's collection classes are not part of this model. Only the fact that it throws is.
- EndsWith in the resolver and in GetResourceFiles is culture-sensitive in the source; the model compares
  ordinally.
- InvariantCultureIgnoreCase ordering is approximated by the ordinal order of ASCII upper-cased text.
  OrdinalIgnoreCase equality is modelled as ASCII upper-casing.
- ModuleLoading.ModuleLoader.DumpDir: the recursive walk takes a bound on the number of directories
  visited (`maxDirs`). The source walks without a bound; on a cyclic junction the walk ends only when the
  path grows past the path-length limit, since GetDirectories then throws an IOException that GetDirs
  swallows.
- SetupDecompiler.DnSpyDecompiler.Run and OptionsCreator.ProjectOptionsCreator.Run: RemoveTokenComments
  dereferences GetLanguage() before the "No languages were found" and "Language does not exist" checks.
  A missing language therefore fails with a null dereference, and those two checks are never reached;
  they are not modelled.
- The UI dialogs, the task interface's status and progress messages and ExecuteParallel's threads are
  not modelled. The work items are returned as a list with their status texts.
- Deleting the old source directory and writing files to disk are not modelled. WriteProject,
  WriteProjectUser and WriteAssemblyInfo are recorded as the jobs of work items.

- DecompileTask.EmbeddedFiles, DecompileTask.GetResourceFiles, DecompileTask.LoadModuleFiles and
  DecompileTask.Run compute the corrected resource path (ResourcePath), not the code as written
  (ResourcePathAsWritten). "FooBar.dll" with a reference "Bar" becomes "Fo\Bar.dll" in the source, and
  "Bar.dll" throws; see Findings.
- DecompileTask.ResourcePath applies SingleOrDefault to the references that match at a '.' or '\'
  boundary only. "Foo.oBar.dll" with references "Bar" and "oBar" makes the source's SingleOrDefault
  throw (two EndsWith matches), while the model moves it to "Foo\oBar.dll".
- SetupDecompiler.DnSpyDecompiler.Decompile merges with the intended RemoveDuplicates (Merging.Dedup).
  With Merge set, the source throws at the first duplicate resource or type; see Findings.

## Findings

| source | as written | input that shows it | evidently intended | confidence | as-written member | corrected member |
|---|---|---|---|---|---|---|
| setup/Setup/DnSpyDecompiler.cs:217-250 | RemoveDuplicates removes resources and types from the collection it is enumerating with foreach | two modules that both embed a resource named "a": the removal invalidates the enumerator, and the next MoveNext throws | each name keeps its first occurrence and later duplicates are dropped | not executed | Merging.RemoveDuplicatesAsWrittenThrows | Merging.DedupIsFirstOccurrences |
| setup/Setup/DecompileTask.cs:213-216 | a resource path is matched to a reference by EndsWith(name + ".dll"), then the name, ".dll" and one more character are cut off without checking that a '.' or '\' precedes the name | "FooBar.dll" with reference "Bar" becomes "Fo\Bar.dll"; "Bar.dll" gives Substring a negative length, which throws | only whole file names match, and the library file moves into its reference's folder | not executed | DecompileTask.ResourcePathAsWrittenCutsNames | DecompileTask.ResourcePathMoves |
