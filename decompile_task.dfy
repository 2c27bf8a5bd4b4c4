/**
 * The ILSpy-based DecompileTask of DecompileTask.cs: which source files and resources a module is
 * split into, how the client and server lists are combined, the entries of the project file, the
 * ordered list of work items that Run hands to the parallel executor, the version check when a
 * module is read, and the memoising assembly resolver.
 *
 * ILSpy's CleanUpName and IncludeTypeWhenDecompilingProject, reached by reflection in the source,
 * are parameters (`clean` and `isIncluded`); reading a module from disk is the parameter `read`.
 */
module DecompileTask {
  import opened Outcomes
  import opened Text
  import opened Modules
  import opened Merging

  /** CSharpLanguage.FileExtension and ProjectFileExtension. */
  const FileExtension: string := ".cs"
  const ProjectFileExtension: string := ".csproj"

  /** The fixed project GUIDs of the two projects. */
  const ClientGuid: string := "3996D5FA-6E59-4FE4-9F2B-40EEEF9645D5"
  const ServerGuid: string := "85BF1171-A0DC-4696-BFA4-D6E9DC4E0830"

  /** The message of the InvalidOperationException thrown by SingleOrDefault on two matches. */
  const MoreThanOneMatch: string := "Sequence contains more than one matching element"

  /** The message of the ArgumentOutOfRangeException thrown by Substring on a negative length. */
  const NegativeLength: string := "Length cannot be less than zero."

  // ---------------------------------------------------------------------------------------------
  // GetCodeFiles: one source file per type key, types whose keys differ only in case grouped

  /** A group of GetCodeFiles: its key (the relative path of the file) and its types, in module order. */
  datatype SourceFile = SourceFile(key: string, types: seq<TypeDef>)

  /** The relative path a type is written to: its cleaned name plus ".cs", under its cleaned namespace. */
  function TypeKey(clean: string -> string, t: TypeDef): string {
    var file := clean(t.name) + FileExtension;
    if t.namespace == "" then file else PathCombine(clean(t.namespace), file)
  }

  function KeyOf(clean: string -> string): TypeDef -> string {
    t => TypeKey(clean, t)
  }

  /** The module's types that ILSpy includes in a project (the Where of GetCodeFiles). */
  function IncludedTypes(types: seq<TypeDef>, isIncluded: TypeDef -> bool): seq<TypeDef> {
    if types == [] then []
    else IncludedTypes(types[..|types| - 1], isIncluded) + (if isIncluded(types[|types| - 1]) then [types[|types| - 1]] else [])
  }

  lemma {:induction false} IncludedTypesMembers(types: seq<TypeDef>, isIncluded: TypeDef -> bool)
    ensures |IncludedTypes(types, isIncluded)| <= |types|
    ensures forall t :: t in IncludedTypes(types, isIncluded) <==> t in types && isIncluded(t)
  {
    if types != [] {
      var init := types[..|types| - 1];
      IncludedTypesMembers(init, isIncluded);
      assert types == init + [types[|types| - 1]];
    }
  }

  /** The position of the first group whose key equals `k` ignoring case, if any. */
  function FindGroup(files: seq<SourceFile>, k: string): (r: Option<nat>)
    ensures r.Some? ==> r.value < |files| && EqualsIgnoreCase(files[r.value].key, k)
    ensures r.None? <==> forall i :: 0 <= i < |files| ==> !EqualsIgnoreCase(files[i].key, k)
  {
    if files == [] then None
    else if EqualsIgnoreCase(files[0].key, k) then Some(0)
    else
      match FindGroup(files[1..], k)
      case None => None
      case Some(i) => Some(i + 1)
  }

  /** GroupBy adding one element: to the group with an equal key, or as a new group at the end. */
  function AddType(key: TypeDef -> string, files: seq<SourceFile>, t: TypeDef): seq<SourceFile> {
    var k := key(t);
    match FindGroup(files, k)
    case None => files + [SourceFile(k, [t])]
    case Some(i) => files[i := files[i].(types := files[i].types + [t])]
  }

  /** Enumerable.GroupBy with StringComparer.OrdinalIgnoreCase: groups in order of first occurrence. */
  function GroupByKey(key: TypeDef -> string, ts: seq<TypeDef>): seq<SourceFile> {
    if ts == [] then [] else AddType(key, GroupByKey(key, ts[..|ts| - 1]), ts[|ts| - 1])
  }

  function GetCodeFiles(m: Module, clean: string -> string, isIncluded: TypeDef -> bool): seq<SourceFile> {
    GroupByKey(KeyOf(clean), IncludedTypes(m.types, isIncluded))
  }

  /** The reference definition of a group's members: every type of `ts` whose key equals `k` ignoring case. */
  function MatchingTypes(key: TypeDef -> string, ts: seq<TypeDef>, k: string): seq<TypeDef> {
    if ts == [] then []
    else MatchingTypes(key, ts[..|ts| - 1], k)
         + (if EqualsIgnoreCase(key(ts[|ts| - 1]), k) then [ts[|ts| - 1]] else [])
  }

  function FoldedKeys(files: seq<SourceFile>): (r: seq<string>)
    ensures |r| == |files| && forall i :: 0 <= i < |files| ==> r[i] == FoldCase(files[i].key)
  {
    seq(|files|, i requires 0 <= i < |files| => FoldCase(files[i].key))
  }

  /** `files` is the grouping of `ts` by key ignoring case. */
  ghost predicate GroupedBy(key: TypeDef -> string, ts: seq<TypeDef>, files: seq<SourceFile>) {
    Distinct(FoldedKeys(files)) && GroupsMatch(key, ts, files) && GroupsHeaded(key, files) && KeysCovered(key, ts, files)
  }

  /** Each group holds exactly the types of its key. */
  ghost predicate GroupsMatch(key: TypeDef -> string, ts: seq<TypeDef>, files: seq<SourceFile>) {
    forall i :: 0 <= i < |files| ==> files[i].types == MatchingTypes(key, ts, files[i].key)
  }

  /** Each group is non-empty and named by the key of its first type. */
  ghost predicate GroupsHeaded(key: TypeDef -> string, files: seq<SourceFile>) {
    forall i :: 0 <= i < |files| ==> files[i].types != [] && files[i].key == key(files[i].types[0])
  }

  /** Every type's key has a group. */
  ghost predicate KeysCovered(key: TypeDef -> string, ts: seq<TypeDef>, files: seq<SourceFile>) {
    forall j :: 0 <= j < |ts| ==> FoldCase(key(ts[j])) in FoldedKeys(files)
  }

  lemma {:induction false} MatchingTypesSnoc(key: TypeDef -> string, ts: seq<TypeDef>, t: TypeDef, k: string)
    ensures MatchingTypes(key, ts + [t], k)
         == MatchingTypes(key, ts, k) + (if EqualsIgnoreCase(key(t), k) then [t] else [])
  {
    assert (ts + [t])[..|ts|] == ts;
  }

  lemma {:induction false} NoMatchingTypes(key: TypeDef -> string, ts: seq<TypeDef>, k: string)
    requires forall j :: 0 <= j < |ts| ==> FoldCase(key(ts[j])) != FoldCase(k)
    ensures MatchingTypes(key, ts, k) == []
  {
    if ts != [] {
      NoMatchingTypes(key, ts[..|ts| - 1], k);
    }
  }

  /** Adding a type whose key is new ignoring case opens a group for it at the end. */
  lemma AddTypeNewGroup(key: TypeDef -> string, ts: seq<TypeDef>, files: seq<SourceFile>, t: TypeDef)
    requires GroupedBy(key, ts, files) && FindGroup(files, key(t)).None?
    ensures GroupedBy(key, ts + [t], files + [SourceFile(key(t), [t])])
  {
    NewGroupKeys(key, ts, files, t);
    NewGroupMatches(key, ts, files, t);
    NewGroupHeaded(key, files, t);
  }

  lemma NewGroupKeys(key: TypeDef -> string, ts: seq<TypeDef>, files: seq<SourceFile>, t: TypeDef)
    requires Distinct(FoldedKeys(files)) && KeysCovered(key, ts, files) && FindGroup(files, key(t)).None?
    ensures Distinct(FoldedKeys(files + [SourceFile(key(t), [t])]))
    ensures KeysCovered(key, ts + [t], files + [SourceFile(key(t), [t])])
  {
    var files' := files + [SourceFile(key(t), [t])];
    var ts' := ts + [t];
    assert FoldedKeys(files') == FoldedKeys(files) + [FoldCase(key(t))];
    forall j | 0 <= j < |ts'| ensures FoldCase(key(ts'[j])) in FoldedKeys(files') {
      if j < |ts| { assert ts'[j] == ts[j]; }
    }
  }

  lemma NewGroupMatches(key: TypeDef -> string, ts: seq<TypeDef>, files: seq<SourceFile>, t: TypeDef)
    requires GroupsMatch(key, ts, files) && KeysCovered(key, ts, files) && FindGroup(files, key(t)).None?
    ensures GroupsMatch(key, ts + [t], files + [SourceFile(key(t), [t])])
  {
    var k := key(t);
    var files' := files + [SourceFile(k, [t])];
    forall j | 0 <= j < |ts| ensures FoldCase(key(ts[j])) != FoldCase(k) {
      assert FoldCase(key(ts[j])) in FoldedKeys(files);
    }
    NoMatchingTypes(key, ts, k);
    MatchingTypesSnoc(key, ts, t, k);
    forall i | 0 <= i < |files| ensures files'[i].types == MatchingTypes(key, ts + [t], files'[i].key) {
      MatchingTypesSnoc(key, ts, t, files[i].key);
    }
  }

  lemma NewGroupHeaded(key: TypeDef -> string, files: seq<SourceFile>, t: TypeDef)
    requires GroupsHeaded(key, files)
    ensures GroupsHeaded(key, files + [SourceFile(key(t), [t])])
  {
    var files' := files + [SourceFile(key(t), [t])];
    forall i | 0 <= i < |files'| ensures files'[i].types != [] && files'[i].key == key(files'[i].types[0]) {
      if i < |files| { assert files'[i] == files[i]; }
    }
  }

  /** Adding a type whose key matches group `g` ignoring case appends it to that group only. */
  lemma AddTypeToGroup(key: TypeDef -> string, ts: seq<TypeDef>, files: seq<SourceFile>, t: TypeDef, g: nat)
    requires GroupedBy(key, ts, files) && FindGroup(files, key(t)) == Some(g)
    ensures GroupedBy(key, ts + [t], files[g := files[g].(types := files[g].types + [t])])
  {
    OldGroupKeys(key, ts, files, t, g);
    OldGroupMatches(key, ts, files, t, g);
    OldGroupHeaded(key, files, t, g);
  }

  lemma OldGroupKeys(key: TypeDef -> string, ts: seq<TypeDef>, files: seq<SourceFile>, t: TypeDef, g: nat)
    requires KeysCovered(key, ts, files) && FindGroup(files, key(t)) == Some(g)
    ensures FoldedKeys(files[g := files[g].(types := files[g].types + [t])]) == FoldedKeys(files)
    ensures KeysCovered(key, ts + [t], files[g := files[g].(types := files[g].types + [t])])
  {
    var files' := files[g := files[g].(types := files[g].types + [t])];
    var ts' := ts + [t];
    assert FoldedKeys(files') == FoldedKeys(files);
    forall j | 0 <= j < |ts'| ensures FoldCase(key(ts'[j])) in FoldedKeys(files') {
      if j < |ts| { assert ts'[j] == ts[j]; } else { assert FoldedKeys(files')[g] == FoldCase(key(t)); }
    }
  }

  lemma OldGroupMatches(key: TypeDef -> string, ts: seq<TypeDef>, files: seq<SourceFile>, t: TypeDef, g: nat)
    requires Distinct(FoldedKeys(files)) && GroupsMatch(key, ts, files) && FindGroup(files, key(t)) == Some(g)
    ensures GroupsMatch(key, ts + [t], files[g := files[g].(types := files[g].types + [t])])
  {
    var files' := files[g := files[g].(types := files[g].types + [t])];
    forall i | 0 <= i < |files'| ensures files'[i].types == MatchingTypes(key, ts + [t], files'[i].key) {
      MatchingTypesSnoc(key, ts, t, files[i].key);
      if i != g {
        assert FoldedKeys(files)[i] != FoldedKeys(files)[g];
      }
    }
  }

  lemma OldGroupHeaded(key: TypeDef -> string, files: seq<SourceFile>, t: TypeDef, g: nat)
    requires GroupsHeaded(key, files) && g < |files|
    ensures GroupsHeaded(key, files[g := files[g].(types := files[g].types + [t])])
  {
    var files' := files[g := files[g].(types := files[g].types + [t])];
    forall i | 0 <= i < |files'| ensures files'[i].types != [] && files'[i].key == key(files'[i].types[0]) {
      if i == g { assert files'[i].types[0] == files[g].types[0]; }
    }
  }

  lemma {:induction false} GroupByKeyGroups(key: TypeDef -> string, ts: seq<TypeDef>)
    ensures GroupedBy(key, ts, GroupByKey(key, ts))
  {
    if ts != [] {
      var init, last := ts[..|ts| - 1], ts[|ts| - 1];
      assert init + [last] == ts;
      GroupByKeyGroups(key, init);
      var files := GroupByKey(key, init);
      match FindGroup(files, key(last))
      case None =>
        assert GroupByKey(key, ts) == files + [SourceFile(key(last), [last])];
        AddTypeNewGroup(key, init, files, last);
      case Some(g) =>
        assert GroupByKey(key, ts) == files[g := files[g].(types := files[g].types + [last])];
        AddTypeToGroup(key, init, files, last, g);
    }
  }

  lemma {:induction false} MatchingTypesMembers(key: TypeDef -> string, ts: seq<TypeDef>, k: string, t: TypeDef)
    ensures t in MatchingTypes(key, ts, k) <==> t in ts && EqualsIgnoreCase(key(t), k)
  {
    if ts != [] {
      var init := ts[..|ts| - 1];
      MatchingTypesMembers(key, init, k, t);
      assert ts == init + [ts[|ts| - 1]];
    }
  }

  /**
   * GetCodeFiles: the group keys differ pairwise even ignoring case, and each group is keyed by its
   * first type and holds the included types whose key equals the group's key ignoring case, in
   * module order.
   */
  lemma GetCodeFilesGroups(m: Module, clean: string -> string, isIncluded: TypeDef -> bool)
    ensures var files := GetCodeFiles(m, clean, isIncluded);
      && (forall i, j :: 0 <= i < j < |files| ==> !EqualsIgnoreCase(files[i].key, files[j].key))
      && (forall i :: 0 <= i < |files| ==>
            files[i].types == MatchingTypes(KeyOf(clean), IncludedTypes(m.types, isIncluded), files[i].key)
            && files[i].types != [] && files[i].key == TypeKey(clean, files[i].types[0]))
  {
    var files := GetCodeFiles(m, clean, isIncluded);
    GroupByKeyGroups(KeyOf(clean), IncludedTypes(m.types, isIncluded));
    forall i, j | 0 <= i < j < |files| ensures !EqualsIgnoreCase(files[i].key, files[j].key) {
      assert FoldedKeys(files)[i] != FoldedKeys(files)[j];
    }
  }

  /**
   * GetCodeFiles places every included type in exactly one group: the one whose key equals the
   * type's key ignoring case, and only included types appear.
   */
  lemma GetCodeFilesPartition(m: Module, clean: string -> string, isIncluded: TypeDef -> bool, t: TypeDef)
    ensures var files := GetCodeFiles(m, clean, isIncluded);
      && (forall i :: 0 <= i < |files| ==>
            (t in files[i].types <==> t in m.types && isIncluded(t) && EqualsIgnoreCase(TypeKey(clean, t), files[i].key)))
      && (t in m.types && isIncluded(t) ==> exists i :: 0 <= i < |files| && t in files[i].types)
  {
    var ts := IncludedTypes(m.types, isIncluded);
    var files := GetCodeFiles(m, clean, isIncluded);
    GroupByKeyGroups(KeyOf(clean), ts);
    IncludedTypesMembers(m.types, isIncluded);
    forall i | 0 <= i < |files|
      ensures t in files[i].types <==> t in m.types && isIncluded(t) && EqualsIgnoreCase(TypeKey(clean, t), files[i].key)
    {
      MatchingTypesMembers(KeyOf(clean), ts, files[i].key, t);
    }
    if t in m.types && isIncluded(t) {
      var j :| 0 <= j < |ts| && ts[j] == t;
      assert FoldCase(TypeKey(clean, t)) in FoldedKeys(files);
      var i :| 0 <= i < |files| && FoldedKeys(files)[i] == FoldCase(TypeKey(clean, t));
      MatchingTypesMembers(KeyOf(clean), ts, files[i].key, t);
    }
  }

  // ---------------------------------------------------------------------------------------------
  // GetResourceFiles: relative paths of the embedded resources

  /** A resource file of the project: the relative path it is extracted to and the resource. */
  datatype ResourceFile = ResourceFile(path: string, resource: Resource)

  const LibrariesPrefix: string := "Terraria.Libraries."
  const LibrariesFolder: string := "Terraria.Libraries\\"

  /** The assembly references whose name plus ".dll" ends `path`, as the source tests them. */
  function SuffixRefs(path: string, refs: seq<AssemblyRef>): seq<AssemblyRef> {
    if refs == [] then []
    else (if EndsWith(path, refs[0].name + ".dll") then [refs[0]] else []) + SuffixRefs(path, refs[1..])
  }

  /** The assembly references whose ".dll" file name is the last component of `path`, '.' or '\' before it. */
  function FileRefs(path: string, refs: seq<AssemblyRef>): seq<AssemblyRef> {
    if refs == [] then []
    else (if EndsWith(path, refs[0].name + ".dll") && |path| > |refs[0].name| + 4
             && path[|path| - |refs[0].name| - 5] in {'.', DirectorySeparator}
          then [refs[0]] else [])
         + FileRefs(path, refs[1..])
  }

  /** Enumerable.SingleOrDefault: no match is None, one is that element, more than one throws. */
  function SingleOrDefault(matches: seq<AssemblyRef>): (r: Result<Option<AssemblyRef>>)
    ensures r.Err? <==> |matches| > 1
    ensures r == Ok(None) <==> matches == []
    ensures |matches| == 1 ==> r == Ok(Some(matches[0]))
  {
    if matches == [] then Ok(None)
    else if |matches| == 1 then Ok(Some(matches[0]))
    else Err(MoreThanOneMatch)
  }

  /** The library folder rewrite of every resource name. */
  function LibraryPath(name: string): string {
    ReplaceAll(name, LibrariesPrefix, LibrariesFolder)
  }

  /** A name that starts with "Terraria.Libraries." and has no other occurrence of it moves into that folder. */
  lemma LibraryPathMovesPrefix(rest: string)
    requires forall i :: 0 <= i <= |rest| - |LibrariesPrefix| ==> !OccursAt(rest, LibrariesPrefix, i)
    ensures LibraryPath(LibrariesPrefix + rest) == LibrariesFolder + rest
  {
    ReplaceAllAtFirst([], LibrariesPrefix, rest, LibrariesFolder);
    ReplaceAllUnchanged(rest, LibrariesPrefix, LibrariesFolder);
    assert [] + LibrariesPrefix + rest == LibrariesPrefix + rest;
  }

  /** The library Newtonsoft.Json is extracted to the folder Terraria.Libraries\JSON.Net. */
  lemma LibraryPathOfJson()
    ensures LibraryPath(LibrariesPrefix + "JSON.Net.Newtonsoft.Json.dll") == LibrariesFolder + "JSON.Net.Newtonsoft.Json.dll"
  {
    NoLibrariesPrefixIn("JSON.Net.Newtonsoft.Json.dll");
    LibraryPathMovesPrefix("JSON.Net.Newtonsoft.Json.dll");
  }

  /** Text without a 'T' has no occurrence of "Terraria.Libraries.". */
  lemma NoLibrariesPrefixIn(rest: string)
    requires forall i :: 0 <= i < |rest| ==> rest[i] != 'T'
    ensures forall i :: 0 <= i <= |rest| - |LibrariesPrefix| ==> !OccursAt(rest, LibrariesPrefix, i)
  {
    forall i | 0 <= i <= |rest| - |LibrariesPrefix| ensures !OccursAt(rest, LibrariesPrefix, i) {
      assert rest[i..i + |LibrariesPrefix|][0] == rest[i] != LibrariesPrefix[0];
    }
  }

  /**
   * The path of one resource AS WRITTEN: a ".dll" whose name ends in some reference's name plus ".dll"
   * loses the reference's name, ".dll" and one more character, and gets a separator, the name and ".dll"
   * instead, whatever that character was; when nothing precedes the name the Substring throws.
   */
  function ResourcePathAsWritten(name: string, refs: seq<AssemblyRef>): Result<string> {
    var path := LibraryPath(name);
    if !EndsWith(path, ".dll") then Ok(path)
    else
      match SingleOrDefault(SuffixRefs(path, refs))
      case Err(e) => Err(e)
      case Ok(None) => Ok(path)
      case Ok(Some(asmRef)) =>
        if |path| - |asmRef.name| - 5 < 0 then Err(NegativeLength)
        else Ok(path[..|path| - |asmRef.name| - 5] + [DirectorySeparator] + asmRef.name + ".dll")
  }

  /**
   * The path of one resource as intended: a ".dll" resource named after a reference `R`, with '.' or
   * a separator before `R.dll`, is moved into the folder of that prefix by turning that character into
   * the separator; two such references make the lookup fail.
   */
  function ResourcePath(name: string, refs: seq<AssemblyRef>): Result<string> {
    var path := LibraryPath(name);
    if !EndsWith(path, ".dll") then Ok(path)
    else
      match SingleOrDefault(FileRefs(path, refs))
      case Err(e) => Err(e)
      case Ok(None) => Ok(path)
      case Ok(Some(asmRef)) =>
        FileRefsMembers(path, refs);
        Ok(path[..|path| - |asmRef.name| - 5] + [DirectorySeparator] + asmRef.name + ".dll")
  }

  lemma {:induction false} FileRefsMembers(path: string, refs: seq<AssemblyRef>)
    ensures forall r :: r in FileRefs(path, refs) ==>
      r in refs && EndsWith(path, r.name + ".dll") && |path| > |r.name| + 4
      && path[|path| - |r.name| - 5] in {'.', DirectorySeparator}
  {
    if refs != [] {
      FileRefsMembers(path, refs[1..]);
    }
  }

  /**
   * ResourcePath: a resource keeps its name (after the library rewrite) unless it is a ".dll" named
   * after a reference; then the path keeps its length and everything before the character preceding
   * the reference's name, and ends in a separator, the reference's name and ".dll".
   */
  lemma ResourcePathMoves(name: string, refs: seq<AssemblyRef>)
    ensures var path := LibraryPath(name);
      && (ResourcePath(name, refs).Err? <==> EndsWith(path, ".dll") && |FileRefs(path, refs)| > 1)
      && (!EndsWith(path, ".dll") || FileRefs(path, refs) == [] ==> ResourcePath(name, refs) == Ok(path))
      && (EndsWith(path, ".dll") && |FileRefs(path, refs)| == 1 ==>
            var asmRef := FileRefs(path, refs)[0];
            var r := ResourcePath(name, refs).value;
            && asmRef in refs
            && |r| == |path|
            && r[..|path| - |asmRef.name| - 5] == path[..|path| - |asmRef.name| - 5]
            && EndsWith(r, [DirectorySeparator] + asmRef.name + ".dll")
            && path[|path| - |asmRef.name| - 5] in {'.', DirectorySeparator})
  {
    var path := LibraryPath(name);
    FileRefsMembers(path, refs);
    if EndsWith(path, ".dll") && |FileRefs(path, refs)| == 1 {
      var asmRef := FileRefs(path, refs)[0];
      var r := ResourcePath(name, refs).value;
      var n := |path| - |asmRef.name| - 5;
      assert r == path[..n] + ([DirectorySeparator] + asmRef.name + ".dll");
    }
  }

  lemma {:induction false} FileRefsAreSuffixRefs(path: string, refs: seq<AssemblyRef>)
    requires forall r :: r in refs && EndsWith(path, r.name + ".dll") ==>
      |path| > |r.name| + 4 && path[|path| - |r.name| - 5] in {'.', DirectorySeparator}
    ensures FileRefs(path, refs) == SuffixRefs(path, refs)
  {
    if refs != [] {
      FileRefsAreSuffixRefs(path, refs[1..]);
    }
  }

  /**
   * Where every reference that ends a ".dll" name is preceded by '.' or a separator, the code as
   * written and the intended rewrite agree.
   */
  lemma ResourcePathAgreesOnWholeNames(name: string, refs: seq<AssemblyRef>)
    requires forall r :: r in refs && EndsWith(LibraryPath(name), r.name + ".dll") ==>
      |LibraryPath(name)| > |r.name| + 4 && LibraryPath(name)[|LibraryPath(name)| - |r.name| - 5] in {'.', DirectorySeparator}
    ensures ResourcePathAsWritten(name, refs) == ResourcePath(name, refs)
  {
    var path := LibraryPath(name);
    FileRefsAreSuffixRefs(path, refs);
    var single := SingleOrDefault(SuffixRefs(path, refs));
    if EndsWith(path, ".dll") && single.Ok? && single.value.Some? {
      FileRefsMembers(path, refs);
      assert single.value.value == FileRefs(path, refs)[0];
    }
  }

  /**
   * The code as written misplaces "FooBar.dll" when the module references an assembly "Bar": it drops
   * the 'o' before "Bar", and it throws on "Bar.dll" itself; the intended rewrite keeps both names.
   */
  lemma ResourcePathAsWrittenCutsNames()
    ensures var refs := [AssemblyRef("Bar", "Bar, Version=1.0.0.0", Version(1, 0, 0, 0))];
      && ResourcePathAsWritten("FooBar.dll", refs) == Ok("Fo\\Bar.dll")
      && ResourcePath("FooBar.dll", refs) == Ok("FooBar.dll")
      && ResourcePathAsWritten("Bar.dll", refs) == Err(NegativeLength)
      && ResourcePath("Bar.dll", refs) == Ok("Bar.dll")
  {
    var refs := [AssemblyRef("Bar", "Bar, Version=1.0.0.0", Version(1, 0, 0, 0))];
    SuffixNameCut(refs);
    WholeNameThrows(refs);
  }

  /** "FooBar.dll" ends with "Bar.dll", so the as-written guard matches and cuts the name. */
  lemma SuffixNameCut(refs: seq<AssemblyRef>)
    requires refs == [AssemblyRef("Bar", "Bar, Version=1.0.0.0", Version(1, 0, 0, 0))]
    ensures ResourcePathAsWritten("FooBar.dll", refs) == Ok("Fo\\Bar.dll")
    ensures ResourcePath("FooBar.dll", refs) == Ok("FooBar.dll")
  {
    NoPrefix("FooBar.dll");
    assert EndsWith("FooBar.dll", "Bar.dll");
    assert "FooBar.dll"[10 - 8] == 'o';
    assert SuffixRefs("FooBar.dll", refs) == refs;
    assert FileRefs("FooBar.dll", refs) == [];
    assert "FooBar.dll"[..2] == "Fo";
    assert EndsWith("FooBar.dll", ".dll");
    assert SingleOrDefault(refs) == Ok(Some(refs[0]));
    assert "Fo" + [DirectorySeparator] + "Bar" + ".dll" == "Fo\\Bar.dll";
  }

  /** "Bar.dll" itself makes the as-written substring length negative. */
  lemma WholeNameThrows(refs: seq<AssemblyRef>)
    requires refs == [AssemblyRef("Bar", "Bar, Version=1.0.0.0", Version(1, 0, 0, 0))]
    ensures ResourcePathAsWritten("Bar.dll", refs) == Err(NegativeLength)
    ensures ResourcePath("Bar.dll", refs) == Ok("Bar.dll")
  {
    NoPrefix("Bar.dll");
    assert EndsWith("Bar.dll", ".dll");
    assert SingleOrDefault(refs) == Ok(Some(refs[0]));
    assert EndsWith("Bar.dll", "Bar.dll");
    assert SuffixRefs("Bar.dll", refs) == refs;
    assert FileRefs("Bar.dll", refs) == [];
  }

  lemma NoPrefix(name: string)
    requires |name| < |LibrariesPrefix|
    ensures LibraryPath(name) == name
  {
  }

  /** GetResourceFiles: the embedded resources, in order, each with its path; the first failure wins. */
  function GetResourceFiles(m: Module): Result<seq<ResourceFile>> {
    EmbeddedFiles(m.resources, m.assemblyRefs)
  }

  function EmbeddedFiles(resources: seq<Resource>, refs: seq<AssemblyRef>): Result<seq<ResourceFile>> {
    if resources == [] then Ok([])
    else if !resources[0].embedded then EmbeddedFiles(resources[1..], refs)
    else
      match ResourcePath(resources[0].name, refs)
      case Err(e) => Err(e)
      case Ok(path) =>
        match EmbeddedFiles(resources[1..], refs)
        case Err(e) => Err(e)
        case Ok(rest) => Ok([ResourceFile(path, resources[0])] + rest)
  }

  function Embedded(resources: seq<Resource>): seq<Resource> {
    if resources == [] then []
    else (if resources[0].embedded then [resources[0]] else []) + Embedded(resources[1..])
  }

  /** The embedded resources of a list are its first one, when embedded, and those of the rest. */
  lemma EmbeddedCons(resources: seq<Resource>)
    requires resources != []
    ensures forall r :: r in Embedded(resources) <==>
      (r == resources[0] && resources[0].embedded) || r in Embedded(resources[1..])
  {
    var head := if resources[0].embedded then [resources[0]] else [];
    assert Embedded(resources) == head + Embedded(resources[1..]);
  }

  /** GetResourceFiles succeeds exactly when every embedded resource's path does. */
  lemma {:induction false} EmbeddedFilesOk(resources: seq<Resource>, refs: seq<AssemblyRef>)
    ensures EmbeddedFiles(resources, refs).Ok? <==> forall r :: r in Embedded(resources) ==> ResourcePath(r.name, refs).Ok?
    decreases |resources|
  {
    if resources != [] {
      EmbeddedFilesOk(resources[1..], refs);
      EmbeddedCons(resources);
    }
  }

  /** When GetResourceFiles succeeds it lists every embedded resource, in order, with its path. */
  lemma {:induction false} EmbeddedFilesPaths(resources: seq<Resource>, refs: seq<AssemblyRef>)
    requires EmbeddedFiles(resources, refs).Ok?
    ensures var files := EmbeddedFiles(resources, refs).value;
      && |files| == |Embedded(resources)|
      && forall i :: 0 <= i < |files| ==>
           files[i].resource == Embedded(resources)[i] && Ok(files[i].path) == ResourcePath(files[i].resource.name, refs)
    decreases |resources|
  {
    if resources != [] {
      var files := EmbeddedFiles(resources, refs).value;
      var rest := EmbeddedFiles(resources[1..], refs).value;
      EmbeddedFilesPaths(resources[1..], refs);
      if resources[0].embedded {
        var path := ResourcePath(resources[0].name, refs).value;
        assert files == [ResourceFile(path, resources[0])] + rest;
        assert Embedded(resources) == [resources[0]] + Embedded(resources[1..]);
        assert forall i :: 0 < i < |files| ==> files[i] == rest[i - 1] && Embedded(resources)[i] == Embedded(resources[1..])[i - 1];
      } else {
        assert files == rest;
        assert Embedded(resources) == Embedded(resources[1..]);
      }
    }
  }

  // ---------------------------------------------------------------------------------------------
  // CombineFiles

  /** The entries of `server` whose key is not in `keys`, in order. */
  function Unclaimed<T>(server: seq<T>, keys: set<string>, key: T -> string): seq<T> {
    if server == [] then []
    else Unclaimed(server[..|server| - 1], keys, key)
         + (if key(server[|server| - 1]) in keys then [] else [server[|server| - 1]])
  }

  /**
   * CombineFiles: the client entries in order, then the server entries whose key (compared ordinally)
   * is not a client key, in order.
   */
  method CombineFiles<T(==)>(client: seq<T>, server: seq<T>, key: T -> string) returns (list: seq<T>)
    ensures list == client + Unclaimed(server, KeySet(client, key), key)
  {
    list := client;
    var keys := KeySet(client, key);
    var i := 0;
    while i < |server|
      invariant 0 <= i <= |server|
      invariant list == client + Unclaimed(server[..i], keys, key)
    {
      assert server[..i + 1][..i] == server[..i];
      if key(server[i]) !in keys {
        list := list + [server[i]];
      }
      i := i + 1;
    }
    assert server[..i] == server;
  }

  /**
   * The server entries CombineFiles keeps are exactly those whose key is no client key; duplicates
   * among them are kept, and when no key is shared every server entry is kept.
   */
  lemma {:induction false} UnclaimedMembers<T>(server: seq<T>, keys: set<string>, key: T -> string)
    ensures |Unclaimed(server, keys, key)| <= |server|
    ensures forall x :: x in Unclaimed(server, keys, key) <==> x in server && key(x) !in keys
    ensures (forall i :: 0 <= i < |server| ==> key(server[i]) !in keys) ==> Unclaimed(server, keys, key) == server
  {
    if server != [] {
      var init := server[..|server| - 1];
      UnclaimedMembers(init, keys, key);
      assert server == init + [server[|server| - 1]];
      if forall i :: 0 <= i < |server| ==> key(server[i]) !in keys {
        assert forall i :: 0 <= i < |init| ==> key(init[i]) !in keys by {
          forall i | 0 <= i < |init| ensures key(init[i]) !in keys { assert init[i] == server[i]; }
        }
      }
    }
  }

  // ---------------------------------------------------------------------------------------------
  // The project file's item list (WriteProjectFile)

  /** An item of the project file: its item type and its relative path. */
  datatype ProjectItem = ProjectItem(itemType: string, path: string)

  const AssemblyInfoPath: string := PathCombine("Properties", "AssemblyInfo" + FileExtension)

  function SourceItems(sources: seq<SourceFile>): (r: seq<ProjectItem>)
    ensures |r| == |sources|
  {
    seq(|sources|, i requires 0 <= i < |sources| => ProjectItem("Compile", sources[i].key))
  }

  function ResourceItems(resources: seq<ResourceFile>): (r: seq<ProjectItem>)
    ensures |r| == |resources|
  {
    seq(|resources|, i requires 0 <= i < |resources| => ProjectItem("EmbeddedResource", resources[i].path))
  }

  /** The flattened file list handed to ILSpy's project writer. */
  function ProjectFileItems(sources: seq<SourceFile>, resources: seq<ResourceFile>): seq<ProjectItem> {
    SourceItems(sources) + ResourceItems(resources) + [ProjectItem("Compile", AssemblyInfoPath)]
  }

  /**
   * The project file lists one "Compile" item per source file, then one "EmbeddedResource" item per
   * resource, then the assembly info file, which is the only item after the resources.
   */
  lemma ProjectFileItemsLayout(sources: seq<SourceFile>, resources: seq<ResourceFile>)
    ensures var items := ProjectFileItems(sources, resources);
      && |items| == |sources| + |resources| + 1
      && (forall i :: 0 <= i < |sources| ==> items[i] == ProjectItem("Compile", sources[i].key))
      && (forall i :: 0 <= i < |resources| ==> items[|sources| + i] == ProjectItem("EmbeddedResource", resources[i].path))
      && items[|items| - 1] == ProjectItem("Compile", "Properties\\AssemblyInfo.cs")
  {
    assert AssemblyInfoPath == "Properties\\AssemblyInfo.cs";
  }

  // ---------------------------------------------------------------------------------------------
  // ReadModule and Run

  /** Version.ToString: the components the version was created with (build and revision may be absent, -1). */
  function VersionText(v: Version): string {
    if v.build < 0 then Decimal(v.major) + "." + Decimal(v.minor)
    else if v.revision < 0 then Decimal(v.major) + "." + Decimal(v.minor) + "." + Decimal(v.build)
    else Decimal(v.major) + "." + Decimal(v.minor) + "." + Decimal(v.build) + "." + Decimal(v.revision)
  }

  function VersionMismatch(m: Module, expected: Version): string {
    m.assemblyName + " version " + VersionText(m.version) + ". Expected " + VersionText(expected)
  }

  /** ReadModule: the module read from `path`, provided its assembly version is the expected one. */
  function ReadModule(read: string -> Result<Module>, path: string, expected: Version): (r: Result<Module>)
    ensures r.Ok? <==> read(path).Ok? && read(path).value.version == expected
    ensures r.Ok? ==> r.value == read(path).value
    ensures read(path).Ok? && read(path).value.version != expected ==>
      r == Err(VersionMismatch(read(path).value, expected))
  {
    match read(path)
    case Err(e) => Err(e)
    case Ok(m) => if m.version != expected then Err(VersionMismatch(m, expected)) else Ok(m)
  }

  /** What a work item does. */
  datatype Job =
    | WriteProject(moduleDef: Module, guid: string, sources: seq<SourceFile>, resources: seq<ResourceFile>)
    | WriteProjectUser(moduleDef: Module, debugWorkingDir: string)
    | WriteAssemblyInfo(moduleDef: Module)
    | DecompileSource(source: SourceFile)
    | ExtractResource(resource: ResourceFile)

  /** A WorkItem: the status text shown while it runs and the job. */
  datatype WorkItem = WorkItem(status: string, job: Job)

  function DecompileItems(sources: seq<SourceFile>): (r: seq<WorkItem>)
    ensures |r| == |sources|
  {
    seq(|sources|, i requires 0 <= i < |sources| => WorkItem("Decompiling: " + sources[i].key, DecompileSource(sources[i])))
  }

  function ExtractItems(resources: seq<ResourceFile>): (r: seq<WorkItem>)
    ensures |r| == |resources|
  {
    seq(|resources|, i requires 0 <= i < |resources| => WorkItem("Extracting: " + resources[i].path, ExtractResource(resources[i])))
  }

  /** The source and resource files of one module. */
  datatype ModuleFiles = ModuleFiles(moduleDef: Module, sources: seq<SourceFile>, resources: seq<ResourceFile>)

  /** Reads one module and splits it into files; the first failure, in this order, wins. */
  function LoadModuleFiles(read: string -> Result<Module>, path: string, expected: Version,
                           clean: string -> string, isIncluded: TypeDef -> bool): (r: Result<ModuleFiles>)
    ensures r.Ok? ==> read(path).Ok? && r.value.moduleDef == read(path).value && r.value.moduleDef.version == expected
  {
    match ReadModule(read, path, expected)
    case Err(e) => Err(e)
    case Ok(m) =>
      match GetResourceFiles(m)
      case Err(e) => Err(e)
      case Ok(resources) => Ok(ModuleFiles(m, GetCodeFiles(m, clean, isIncluded), resources))
  }

  /**
   * Run, from reading the modules to the work-item list handed to ExecuteParallel. With `serverOnly`,
   * the server's project file, its .user file and the assembly info, then every server source file
   * and resource; otherwise the client's two project items first, the combined file lists, and the
   * assembly info taken from the client module.
   */
  method Run(read: string -> Result<Module>, terrariaPath: string, serverPath: string,
             clientVersion: Version, serverVersion: Version, steamDir: string,
             clean: string -> string, isIncluded: TypeDef -> bool, serverOnly: bool)
    returns (r: Result<seq<WorkItem>>)
    ensures var server := LoadModuleFiles(read, serverPath, serverVersion, clean, isIncluded);
      var client := LoadModuleFiles(read, terrariaPath, clientVersion, clean, isIncluded);
      && (server.Err? ==> r == Err(server.message))
      && (server.Ok? && !serverOnly && client.Err? ==> r == Err(client.message))
      && (server.Ok? && (serverOnly || client.Ok?) ==> r.Ok?)
    ensures r.Ok? && serverOnly ==>
      var s := LoadModuleFiles(read, serverPath, serverVersion, clean, isIncluded).value;
      && r.value == [WorkItem("Writing TerrariaServer" + ProjectFileExtension, WriteProject(s.moduleDef, ServerGuid, s.sources, s.resources)),
                     WorkItem("Writing TerrariaServer" + ProjectFileExtension + ".user", WriteProjectUser(s.moduleDef, steamDir)),
                     WorkItem("Writing Assembly Info", WriteAssemblyInfo(s.moduleDef))]
                    + DecompileItems(s.sources) + ExtractItems(s.resources)
      && |r.value| == 3 + |s.sources| + |s.resources|
    ensures r.Ok? && !serverOnly ==>
      var s := LoadModuleFiles(read, serverPath, serverVersion, clean, isIncluded).value;
      var c := LoadModuleFiles(read, terrariaPath, clientVersion, clean, isIncluded).value;
      var sources := c.sources + Unclaimed(s.sources, KeySet(c.sources, SourceKey), SourceKey);
      var resources := c.resources + Unclaimed(s.resources, KeySet(c.resources, ResourcePathKey), ResourcePathKey);
      && r.value == [WorkItem("Writing Terraria" + ProjectFileExtension, WriteProject(c.moduleDef, ClientGuid, c.sources, c.resources)),
                     WorkItem("Writing Terraria" + ProjectFileExtension + ".user", WriteProjectUser(c.moduleDef, steamDir)),
                     WorkItem("Writing TerrariaServer" + ProjectFileExtension, WriteProject(s.moduleDef, ServerGuid, s.sources, s.resources)),
                     WorkItem("Writing TerrariaServer" + ProjectFileExtension + ".user", WriteProjectUser(s.moduleDef, steamDir)),
                     WorkItem("Writing Assembly Info", WriteAssemblyInfo(c.moduleDef))]
                    + DecompileItems(sources) + ExtractItems(resources)
  {
    var items: seq<WorkItem> := [];
    var server := LoadModuleFiles(read, serverPath, serverVersion, clean, isIncluded);
    if server.Err? {
      return Err(server.message);
    }
    var s := server.value;
    var sources := s.sources;
    var resources := s.resources;
    var infoModule := s.moduleDef;
    if !serverOnly {
      var client := LoadModuleFiles(read, terrariaPath, clientVersion, clean, isIncluded);
      if client.Err? {
        return Err(client.message);
      }
      var c := client.value;
      sources := CombineFiles(c.sources, sources, SourceKey);
      resources := CombineFiles(c.resources, resources, ResourcePathKey);
      infoModule := c.moduleDef;
      items := [WorkItem("Writing Terraria" + ProjectFileExtension, WriteProject(c.moduleDef, ClientGuid, c.sources, c.resources)),
                WorkItem("Writing Terraria" + ProjectFileExtension + ".user", WriteProjectUser(c.moduleDef, steamDir))];
    }
    items := items + [WorkItem("Writing TerrariaServer" + ProjectFileExtension, WriteProject(s.moduleDef, ServerGuid, s.sources, s.resources)),
                      WorkItem("Writing TerrariaServer" + ProjectFileExtension + ".user", WriteProjectUser(s.moduleDef, steamDir)),
                      WorkItem("Writing Assembly Info", WriteAssemblyInfo(infoModule))];
    r := Ok(items + DecompileItems(sources) + ExtractItems(resources));
  }

  function SourceKey(f: SourceFile): string { f.key }
  function ResourcePathKey(f: ResourceFile): string { f.path }

  /**
   * Without `serverOnly`, every client file is decompiled or extracted, and a server file is too
   * exactly when no client file has the same relative path (compared ordinally).
   */
  lemma RunCoversFiles(c: ModuleFiles, s: ModuleFiles)
    ensures var sources := c.sources + Unclaimed(s.sources, KeySet(c.sources, SourceKey), SourceKey);
      var resources := c.resources + Unclaimed(s.resources, KeySet(c.resources, ResourcePathKey), ResourcePathKey);
      && (forall f :: f in sources <==> f in c.sources || (f in s.sources && f.key !in KeySet(c.sources, SourceKey)))
      && (forall f :: f in resources <==> f in c.resources || (f in s.resources && f.path !in KeySet(c.resources, ResourcePathKey)))
      && |sources| <= |c.sources| + |s.sources| && |resources| <= |c.resources| + |s.resources|
  {
    CombinedMembers(c.sources, s.sources, SourceKey);
    CombinedMembers(c.resources, s.resources, ResourcePathKey);
  }

  /** CombineFiles' list holds the client entries and the server entries whose key no client entry has. */
  lemma CombinedMembers<T>(client: seq<T>, server: seq<T>, key: T -> string)
    ensures forall x :: x in client + Unclaimed(server, KeySet(client, key), key) <==>
      x in client || (x in server && key(x) !in KeySet(client, key))
    ensures |client + Unclaimed(server, KeySet(client, key), key)| <= |client| + |server|
  {
    UnclaimedMembers(server, KeySet(client, key), key);
  }

  // ---------------------------------------------------------------------------------------------
  // EmbeddedAssemblyResolver

  /** The embedded resources of `m` whose name ends with `resName`. */
  function EmbeddedNamed(resources: seq<Resource>, resName: string): seq<Resource> {
    if resources == [] then []
    else (if resources[0].embedded && EndsWith(resources[0].name, resName) then [resources[0]] else [])
         + EmbeddedNamed(resources[1..], resName)
  }

  /**
   * Resolve without the cache: None (null) for an mscorlib that is not version 4; otherwise the
   * assembly read from the base module's single embedded "<name>.dll" resource, or what the base
   * resolver finds. `readAssembly` and `baseResolve` fail where Cecil throws.
   */
  function ResolveUncached(baseModule: Option<Module>, readAssembly: Resource -> Result<Module>,
                           baseResolve: AssemblyRef -> Result<Module>, name: AssemblyRef): Result<Option<Module>> {
    if name.name == "mscorlib" && name.version.major != 4 then Ok(None)
    else
      var found: Result<Option<Module>> :=
        if baseModule.None? then Ok(None)
        else
          var matches := EmbeddedNamed(baseModule.value.resources, name.name + ".dll");
          if |matches| > 1 then Err(MoreThanOneMatch)
          else if matches == [] then Ok(None)
          else match readAssembly(matches[0]) case Err(e) => Err(e) case Ok(a) => Ok(Some(a));
      match found
      case Err(e) => Err(e)
      case Ok(Some(a)) => Ok(Some(a))
      case Ok(None) =>
        match baseResolve(name)
        case Err(e) => Err(e)
        case Ok(a) => Ok(Some(a))
  }

  /**
   * ResolveUncached: an mscorlib that is not version 4 resolves to null; otherwise the result is never
   * null, a single embedded match is preferred to the base resolver, and two matches fail.
   */
  lemma ResolveUncachedCases(baseModule: Option<Module>, readAssembly: Resource -> Result<Module>,
                             baseResolve: AssemblyRef -> Result<Module>, name: AssemblyRef)
    ensures var r := ResolveUncached(baseModule, readAssembly, baseResolve, name);
      && (r == Ok(None) <==> name.name == "mscorlib" && name.version.major != 4)
      && (!(name.name == "mscorlib" && name.version.major != 4) && baseModule.Some? ==>
            var matches := EmbeddedNamed(baseModule.value.resources, name.name + ".dll");
            && (|matches| > 1 ==> r == Err(MoreThanOneMatch))
            && (|matches| == 1 && readAssembly(matches[0]).Ok? ==> r == Ok(Some(readAssembly(matches[0]).value)))
            && (|matches| == 1 && readAssembly(matches[0]).Err? ==> r == Err(readAssembly(matches[0]).message))
            && (matches == [] ==> (r.Ok? <==> baseResolve(name).Ok?) && (r.Ok? ==> r == Ok(Some(baseResolve(name).value)))))
      && (!(name.name == "mscorlib" && name.version.major != 4) && baseModule.None? ==>
            (r.Ok? <==> baseResolve(name).Ok?) && (r.Ok? ==> r == Ok(Some(baseResolve(name).value))))
  {
  }

  class EmbeddedAssemblyResolver {
    /** The results so far, by the reference's full name; None is a cached null. */
    var cache: map<string, Option<Module>>
    var baseModule: Option<Module>
    const readAssembly: Resource -> Result<Module>
    const baseResolve: AssemblyRef -> Result<Module>

    constructor (readAssembly: Resource -> Result<Module>, baseResolve: AssemblyRef -> Result<Module>)
      ensures cache == map[] && baseModule == None
      ensures this.readAssembly == readAssembly && this.baseResolve == baseResolve
    {
      cache := map[];
      baseModule := None;
      this.readAssembly := readAssembly;
      this.baseResolve := baseResolve;
    }

    /** Set once the module is read, so that later resolutions look at its resources. */
    method SetBaseModule(m: Module)
      modifies this
      ensures baseModule == Some(m) && cache == old(cache)
    {
      baseModule := Some(m);
    }

    /**
     * Resolve: a reference whose full name is cached gets the cached value and changes nothing;
     * otherwise the uncached result, which is cached, null included, unless resolving failed.
     */
    method Resolve(name: AssemblyRef) returns (r: Result<Option<Module>>)
      modifies this
      ensures baseModule == old(baseModule)
      ensures name.fullName in old(cache) ==> r == Ok(old(cache)[name.fullName]) && cache == old(cache)
      ensures name.fullName !in old(cache) ==>
        && r == ResolveUncached(baseModule, readAssembly, baseResolve, name)
        && (r.Ok? ==> cache == old(cache)[name.fullName := r.value])
        && (r.Err? ==> cache == old(cache))
    {
      if name.fullName in cache {
        return Ok(cache[name.fullName]);
      }
      r := ResolveUncached(baseModule, readAssembly, baseResolve, name);
      if r.Ok? {
        cache := cache[name.fullName := r.value];
      }
    }
  }
}
