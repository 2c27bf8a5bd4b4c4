/**
 * Loading the input modules of the dnSpy-based front ends: GetDotNetFiles, DumpDir, DumpDir2,
 * GetFiles, OpenNetFile and AddSearchPath. DnSpyDecompiler.cs and ProjectOptionsCreator.cs hold
 * identical copies of this code with a directory walk that never descends; the command-line
 * front end in DecompileTask.cs descends into subdirectories when asked to (`-r`).
 *
 * The file system is an input: existence tests, path splitting, directory enumeration (None when
 * the enumeration throws an I/O, access or security error) and module loading (None when dnlib
 * cannot load the file).
 */
module ModuleLoading {
  import opened Outcomes
  import opened Text
  import opened Modules

  /** A FileSystemInfo returned by EnumerateFileSystemInfos. */
  datatype Entry = Entry(fullName: string, isDirectory: bool)

  datatype FileSystem = FileSystem(
    fileExists: string -> bool,
    dirExists: string -> bool,
    fullPath: string -> string,
    directoryName: string -> Option<string>,
    fileName: string -> string,
    enumerate: (string, string) -> Option<seq<Entry>>,
    load: string -> Option<Module>)

  /** What loading a list of inputs produced: the modules loaded, in order, and the exception that stopped it. */
  datatype LoadOutcome = LoadOutcome(modules: seq<Module>, error: Option<string>)

  // ---------------------------------------------------------------------------------------
  // Specification functions

  function FileNames(entries: seq<Entry>): seq<string> {
    if entries == [] then []
    else if entries[0].isDirectory then FileNames(entries[1..])
    else [entries[0].fullName] + FileNames(entries[1..])
  }

  /** The names FileNames keeps are exactly those of the non-directory entries. */
  lemma {:induction false} FileNamesMembers(entries: seq<Entry>)
    ensures forall x :: x in FileNames(entries) <==>
      exists k :: 0 <= k < |entries| && !entries[k].isDirectory && entries[k].fullName == x
  {
    if entries != [] {
      FileNamesMembers(entries[1..]);
      assert forall k :: 0 < k < |entries| ==> entries[k] == entries[1..][k - 1];
    }
  }

  /** GetFiles: the non-directory entries of `path` matching `pattern`; a failing enumeration reads as an empty directory. */
  function GetFiles(fs: FileSystem, path: string, pattern: string): (r: seq<string>)
    ensures fs.enumerate(path, pattern).None? ==> r == []
    ensures fs.enumerate(path, pattern).Some? ==> r == FileNames(fs.enumerate(path, pattern).value)
  {
    match fs.enumerate(path, pattern)
    case None => []
    case Some(entries) => FileNames(entries)
  }

  /** GetDirs: the directory entries of `path`; a failing enumeration reads as none. */
  function GetDirs(fs: FileSystem, path: string): seq<string> {
    match fs.enumerate(path, "*")
    case None => []
    case Some(entries) => DirNames(entries)
  }

  function DirNames(entries: seq<Entry>): seq<string> {
    if entries == [] then []
    else if entries[0].isDirectory then [entries[0].fullName] + DirNames(entries[1..])
    else DirNames(entries[1..])
  }

  /** OpenNetFile: the module at the file's full path, or None when it is missing or does not load. */
  function OpenNetFile(fs: FileSystem, file: string): Option<Module> {
    var full := fs.fullPath(file);
    if !fs.fileExists(full) then None else fs.load(full)
  }

  /** The modules that load from `files`, in order (the body of DumpDir2 over a file list). */
  function LoadFiles(fs: FileSystem, files: seq<string>): seq<Module> {
    if files == [] then []
    else
      match OpenNetFile(fs, files[0])
      case None => LoadFiles(fs, files[1..])
      case Some(m) => [m] + LoadFiles(fs, files[1..])
  }

  /** LoadFiles yields exactly the modules that some file of the list opens to, and at most one per file. */
  lemma {:induction false} LoadFilesMembers(fs: FileSystem, files: seq<string>)
    ensures |LoadFiles(fs, files)| <= |files|
    ensures forall m :: m in LoadFiles(fs, files) <==> exists f :: f in files && OpenNetFile(fs, f) == Some(m)
  {
    if files != [] {
      LoadFilesMembers(fs, files[1..]);
      assert forall f :: f in files <==> f == files[0] || f in files[1..];
    }
  }

  /** One step of LoadFiles over a suffix of a file list. */
  lemma LoadFilesStep(fs: FileSystem, files: seq<string>, i: nat)
    requires i < |files|
    ensures LoadFiles(fs, files[i..]) ==
      (if OpenNetFile(fs, files[i]).Some? then [OpenNetFile(fs, files[i]).value] else []) + LoadFiles(fs, files[i + 1..])
  {
    assert files[i..][0] == files[i] && files[i..][1..] == files[i + 1..];
  }

  /** DumpDir2: every loadable file directly inside `path` that matches `pattern`. */
  function DumpDir2(fs: FileSystem, path: string, pattern: string): seq<Module> {
    LoadFiles(fs, GetFiles(fs, path, pattern))
  }

  /**
   * The stack walk of DumpDir: pop a directory, yield its modules, and (recursive walk only) push its
   * subdirectories. A recursive walk is bounded by `fuel` directories, see README.
   */
  function Walk(fs: FileSystem, stack: seq<string>, pattern: string, recursive: bool, fuel: nat): seq<Module>
    decreases fuel, |stack|
  {
    if stack == [] || (recursive && fuel == 0) then []
    else
      var top := stack[|stack| - 1];
      var rest := stack[..|stack| - 1];
      DumpDir2(fs, top, pattern)
        + (if recursive then Walk(fs, rest + GetDirs(fs, top), pattern, recursive, fuel - 1)
           else Walk(fs, rest, pattern, recursive, fuel))
  }

  /** The stack after one step of the walk. */
  function NextStack(fs: FileSystem, stack: seq<string>, recursive: bool): seq<string>
    requires stack != []
  {
    stack[..|stack| - 1] + (if recursive then GetDirs(fs, stack[|stack| - 1]) else [])
  }

  /** One step of the walk: the top directory's modules come next, then the walk of what remains. */
  lemma WalkStep(fs: FileSystem, stack: seq<string>, pattern: string, recursive: bool, fuel: nat, done: seq<Module>, all: seq<Module>)
    requires stack != [] && (!recursive || fuel > 0)
    requires done + Walk(fs, stack, pattern, recursive, fuel) == all
    ensures (done + DumpDir2(fs, stack[|stack| - 1], pattern))
      + Walk(fs, NextStack(fs, stack, recursive), pattern, recursive, if recursive then fuel - 1 else fuel) == all
  {
    if !recursive {
      assert NextStack(fs, stack, recursive) == stack[..|stack| - 1];
    }
  }

  /** A walk that does not descend visits only the given directory. */
  lemma {:induction false} FlatWalkVisitsOnlyGivenDirectory(fs: FileSystem, path: string, pattern: string, fuel: nat)
    ensures Walk(fs, [path], pattern, false, fuel) == DumpDir2(fs, path, pattern)
    ensures forall m :: m in Walk(fs, [path], pattern, false, fuel) <==>
      exists f :: f in GetFiles(fs, path, pattern) && OpenNetFile(fs, f) == Some(m)
  {
    assert [path][..0] == [];
    assert Walk(fs, [], pattern, false, fuel) == [];
    LoadFilesMembers(fs, GetFiles(fs, path, pattern));
  }

  /** One input of GetDotNetFiles. */
  function LoadInput(fs: FileSystem, file: string, recursive: bool, fuel: nat): (r: LoadOutcome)
    ensures fs.fileExists(file) ==>
      (r.error.Some? <==> OpenNetFile(fs, file).None?) &&
      (r.error.Some? ==> r.error.value == file + " is not a .NET file" && r.modules == []) &&
      (r.error.None? ==> r.modules == [OpenNetFile(fs, file).value])
    ensures !fs.fileExists(file) && fs.dirExists(file) ==>
      r == LoadOutcome(Walk(fs, [file], "*", recursive, fuel), None)
    ensures !fs.fileExists(file) && !fs.dirExists(file) ==>
      var parent := fs.directoryName(file);
      if parent.Some? && fs.dirExists(parent.value)
      then r == LoadOutcome(Walk(fs, [parent.value], fs.fileName(file), recursive, fuel), None)
      else r == LoadOutcome([], Some("File/directory '" + file + "' doesn't exist"))
  {
    if fs.fileExists(file) then
      match OpenNetFile(fs, file)
      case None => LoadOutcome([], Some(file + " is not a .NET file"))
      case Some(m) => LoadOutcome([m], None)
    else if fs.dirExists(file) then
      LoadOutcome(Walk(fs, [file], "*", recursive, fuel), None)
    else
      var parent := fs.directoryName(file);
      if parent.Some? && fs.dirExists(parent.value) then
        LoadOutcome(Walk(fs, [parent.value], fs.fileName(file), recursive, fuel), None)
      else
        LoadOutcome([], Some("File/directory '" + file + "' doesn't exist"))
  }

  /** GetDotNetFiles, drained into a list: the inputs in order, stopping at the first exception. */
  function LoadInputs(fs: FileSystem, files: seq<string>, recursive: bool, fuel: nat): LoadOutcome
    decreases |files|
  {
    if files == [] then LoadOutcome([], None)
    else
      var first := LoadInput(fs, files[0], recursive, fuel);
      if first.error.Some? then first
      else
        Prepend(first.modules, LoadInputs(fs, files[1..], recursive, fuel))
  }

  /** Modules loaded earlier, in front of an outcome. */
  function Prepend(ms: seq<Module>, o: LoadOutcome): LoadOutcome {
    LoadOutcome(ms + o.modules, o.error)
  }

  lemma PrependAssoc(xs: seq<Module>, ys: seq<Module>, o: LoadOutcome)
    ensures Prepend(xs, Prepend(ys, o)) == Prepend(xs + ys, o)
  {
    assert xs + (ys + o.modules) == (xs + ys) + o.modules;
  }

  /** One step of LoadInputs over a suffix of the inputs. */
  lemma LoadInputsStep(fs: FileSystem, files: seq<string>, i: nat, recursive: bool, fuel: nat)
    requires i < |files|
    ensures LoadInput(fs, files[i], recursive, fuel).error.Some? ==>
      LoadInputs(fs, files[i..], recursive, fuel) == LoadInput(fs, files[i], recursive, fuel)
    ensures LoadInput(fs, files[i], recursive, fuel).error.None? ==>
      LoadInputs(fs, files[i..], recursive, fuel) ==
        Prepend(LoadInput(fs, files[i], recursive, fuel).modules, LoadInputs(fs, files[i + 1..], recursive, fuel))
  {
    assert files[i..][0] == files[i] && files[i..][1..] == files[i + 1..];
  }

  /** The state of GetDotNetFiles' loop after the first `i` inputs: `loaded` drained and its paths registered. */
  ghost predicate LoadedUpTo(fs: FileSystem, files: seq<string>, i: nat, recursive: bool, fuel: nat,
                             loaded: seq<Module>, start: seq<string>, added: seq<string>)
    requires i <= |files|
  {
    && LoadInputs(fs, files, recursive, fuel) == Prepend(loaded, LoadInputs(fs, files[i..], recursive, fuel))
    && added == RegisterModules(fs, start, loaded)
  }

  /** An input that loads extends LoadedUpTo by its modules. */
  lemma LoadedStep(fs: FileSystem, files: seq<string>, i: nat, recursive: bool, fuel: nat,
                   loaded: seq<Module>, start: seq<string>, added: seq<string>, one: LoadOutcome, added': seq<string>)
    requires i < |files| && LoadedUpTo(fs, files, i, recursive, fuel, loaded, start, added)
    requires one == LoadInput(fs, files[i], recursive, fuel) && one.error.None?
    requires added' == RegisterModules(fs, added, one.modules)
    ensures LoadedUpTo(fs, files, i + 1, recursive, fuel, loaded + one.modules, start, added')
  {
    LoadInputsStep(fs, files, i, recursive, fuel);
    RegisterModulesAppend(fs, start, loaded, one.modules);
    PrependAssoc(loaded, one.modules, LoadInputs(fs, files[i + 1..], recursive, fuel));
  }

  /** An input that fails ends the drain with what was loaded before it and its exception. */
  lemma LoadedStops(fs: FileSystem, files: seq<string>, i: nat, recursive: bool, fuel: nat,
                    loaded: seq<Module>, start: seq<string>, added: seq<string>, one: LoadOutcome)
    requires i < |files| && LoadedUpTo(fs, files, i, recursive, fuel, loaded, start, added)
    requires one == LoadInput(fs, files[i], recursive, fuel) && one.error.Some?
    ensures LoadInputs(fs, files, recursive, fuel) == LoadOutcome(loaded, one.error)
  {
    LoadInputsStep(fs, files, i, recursive, fuel);
  }

  /** Loading fails exactly when one of the inputs fails, and the failure is that of the first failing input. */
  lemma {:induction false} LoadInputsFailsAtFirstBadInput(fs: FileSystem, files: seq<string>, recursive: bool, fuel: nat)
    ensures LoadInputs(fs, files, recursive, fuel).error.None? <==>
      forall i :: 0 <= i < |files| ==> LoadInput(fs, files[i], recursive, fuel).error.None?
    ensures LoadInputs(fs, files, recursive, fuel).error.Some? ==>
      exists i :: 0 <= i < |files| && LoadInputs(fs, files, recursive, fuel).error == LoadInput(fs, files[i], recursive, fuel).error
        && forall j :: 0 <= j < i ==> LoadInput(fs, files[j], recursive, fuel).error.None?
    decreases |files|
  {
    if files != [] {
      LoadInputsFailsAtFirstBadInput(fs, files[1..], recursive, fuel);
      assert forall i :: 0 < i < |files| ==> files[i] == files[1..][i - 1];
      var out := LoadInputs(fs, files, recursive, fuel);
      if LoadInput(fs, files[0], recursive, fuel).error.None? && out.error.Some? {
        var i :| 0 <= i < |files[1..]| && out.error == LoadInput(fs, files[1..][i], recursive, fuel).error
          && forall j :: 0 <= j < i ==> LoadInput(fs, files[1..][j], recursive, fuel).error.None?;
        assert out.error == LoadInput(fs, files[i + 1], recursive, fuel).error;
      }
    }
  }

  // ---------------------------------------------------------------------------------------
  // Search paths

  /** HashSet<string>(StringComparer.OrdinalIgnoreCase).Contains over the list of added paths. */
  predicate ContainsIgnoreCase(s: seq<string>, x: string) {
    s != [] && (EqualsIgnoreCase(s[|s| - 1], x) || ContainsIgnoreCase(s[..|s| - 1], x))
  }

  lemma {:induction false} ContainsIgnoreCaseIff(s: seq<string>, x: string)
    ensures ContainsIgnoreCase(s, x) <==> exists k :: 0 <= k < |s| && EqualsIgnoreCase(s[k], x)
  {
    if s != [] {
      ContainsIgnoreCaseIff(s[..|s| - 1], x);
      assert forall k :: 0 <= k < |s| - 1 ==> s[..|s| - 1][k] == s[k];
    }
  }

  /** The added-paths list after AddSearchPath(dir): `dir` is added when it exists and is not there yet, ignoring case. */
  function WithSearchPath(fs: FileSystem, added: seq<string>, dir: Option<string>): seq<string> {
    if dir.Some? && fs.dirExists(dir.value) && !ContainsIgnoreCase(added, dir.value) then added + [dir.value]
    else added
  }

  /** AddSearchPath never registers the same directory twice, comparing names case-insensitively, and is idempotent. */
  lemma AddSearchPathKeepsDistinct(fs: FileSystem, added: seq<string>, dir: Option<string>)
    requires DistinctIgnoreCase(added)
    ensures DistinctIgnoreCase(WithSearchPath(fs, added, dir))
    ensures WithSearchPath(fs, WithSearchPath(fs, added, dir), dir) == WithSearchPath(fs, added, dir)
  {
    var r := WithSearchPath(fs, added, dir);
    if r != added {
      ContainsIgnoreCaseIff(added, dir.value);
      assert r[..|r| - 1] == added;
    }
  }

  /** The search paths registered while loading `ms`: the directory of each module, in load order. */
  function RegisterModules(fs: FileSystem, added: seq<string>, ms: seq<Module>): seq<string>
    decreases |ms|
  {
    if ms == [] then added
    else RegisterModules(fs, WithSearchPath(fs, added, fs.directoryName(ms[0].location)), ms[1..])
  }

  lemma {:induction false} RegisterModulesAppend(fs: FileSystem, added: seq<string>, xs: seq<Module>, ys: seq<Module>)
    ensures RegisterModules(fs, added, xs + ys) == RegisterModules(fs, RegisterModules(fs, added, xs), ys)
    decreases |xs|
  {
    if xs == [] {
      assert xs + ys == ys;
    } else {
      assert (xs + ys)[0] == xs[0] && (xs + ys)[1..] == xs[1..] + ys;
      RegisterModulesAppend(fs, WithSearchPath(fs, added, fs.directoryName(xs[0].location)), xs[1..], ys);
    }
  }

  /** The state of DumpDir2's loop after the first `i` files: `ms` loaded and its paths registered. */
  ghost predicate DumpedUpTo(fs: FileSystem, files: seq<string>, i: nat, ms: seq<Module>, start: seq<string>, added: seq<string>)
    requires i <= |files|
  {
    ms + LoadFiles(fs, files[i..]) == LoadFiles(fs, files) && added == RegisterModules(fs, start, ms)
  }

  /** Opening file `i` (and registering its directory) extends DumpedUpTo by one file. */
  lemma DumpStep(fs: FileSystem, files: seq<string>, i: nat, ms: seq<Module>, start: seq<string>, added: seq<string>,
                 got: seq<Module>, added': seq<string>)
    requires i < |files| && DumpedUpTo(fs, files, i, ms, start, added)
    requires got == (if OpenNetFile(fs, files[i]).Some? then [OpenNetFile(fs, files[i]).value] else [])
    requires added' == RegisterModules(fs, added, got)
    ensures DumpedUpTo(fs, files, i + 1, ms + got, start, added')
  {
    RegisterModulesAppend(fs, start, ms, got);
    LoadFilesPrefixStep(fs, files, i, ms, got);
  }

  lemma LoadFilesPrefixStep(fs: FileSystem, files: seq<string>, i: nat, ms: seq<Module>, got: seq<Module>)
    requires i < |files| && ms + LoadFiles(fs, files[i..]) == LoadFiles(fs, files)
    requires got == (if OpenNetFile(fs, files[i]).Some? then [OpenNetFile(fs, files[i]).value] else [])
    ensures ms + got + LoadFiles(fs, files[i + 1..]) == LoadFiles(fs, files)
  {
    LoadFilesStep(fs, files, i);
    SplitSuffix(ms, got, LoadFiles(fs, files[i + 1..]), LoadFiles(fs, files[i..]), LoadFiles(fs, files));
  }

  // ---------------------------------------------------------------------------------------
  // The loader object

  /**
   * The state the loading code updates: the case-insensitive set of added search paths and the
   * resolver's PreSearchPaths list, which AddSearchPath extends together.
   */
  class ModuleLoader {
    const fs: FileSystem
    const recursive: bool
    const maxDirs: nat
    var addedPaths: seq<string>
    var preSearchPaths: seq<string>

    ghost predicate Valid()
      reads this
    {
      preSearchPaths == addedPaths && DistinctIgnoreCase(addedPaths)
    }

    constructor (fs: FileSystem, recursive: bool, maxDirs: nat)
      ensures Valid() && addedPaths == []
      ensures this.fs == fs && this.recursive == recursive && this.maxDirs == maxDirs
    {
      this.fs := fs;
      this.recursive := recursive;
      this.maxDirs := maxDirs;
      addedPaths := [];
      preSearchPaths := [];
    }

    method AddSearchPath(dir: Option<string>)
      requires Valid()
      modifies this
      ensures Valid()
      ensures addedPaths == WithSearchPath(fs, old(addedPaths), dir)
    {
      AddSearchPathKeepsDistinct(fs, addedPaths, dir);
      if dir.Some? && fs.dirExists(dir.value) && !ContainsIgnoreCase(addedPaths, dir.value) {
        addedPaths := addedPaths + [dir.value];
        preSearchPaths := preSearchPaths + [dir.value];
      }
    }

    /** OpenNetFile followed by CreateProjectModuleOptions, which registers the module's directory. */
    method OpenNetFileAt(file: string) returns (r: Option<Module>)
      requires Valid()
      modifies this
      ensures Valid()
      ensures r == OpenNetFile(fs, file)
      ensures addedPaths == RegisterModules(fs, old(addedPaths), if r.Some? then [r.value] else [])
    {
      r := OpenNetFile(fs, file);
      if r.Some? {
        AddSearchPath(fs.directoryName(r.value.location));
      }
    }

    method DumpDirOnce(path: string, pattern: string) returns (ms: seq<Module>)
      requires Valid()
      modifies this
      ensures Valid()
      ensures ms == DumpDir2(fs, path, pattern)
      ensures addedPaths == RegisterModules(fs, old(addedPaths), ms)
    {
      var files := GetFiles(fs, path, pattern);
      ms := [];
      var i := 0;
      while i < |files|
        invariant 0 <= i <= |files| && Valid()
        invariant DumpedUpTo(fs, files, i, ms, old(addedPaths), addedPaths)
      {
        ghost var before := addedPaths;
        var info := OpenNetFileAt(files[i]);
        var got := if info.Some? then [info.value] else [];
        DumpStep(fs, files, i, ms, old(addedPaths), before, got, addedPaths);
        ms := ms + got;
        i := i + 1;
      }
      assert files[i..] == [];
    }

    /** DumpDir: the explicit-stack directory walk. */
    method DumpDir(path: string, pattern: Option<string>) returns (ms: seq<Module>)
      requires Valid()
      modifies this
      ensures Valid()
      ensures ms == Walk(fs, [path], if pattern.Some? then pattern.value else "*", recursive, maxDirs)
      ensures addedPaths == RegisterModules(fs, old(addedPaths), ms)
    {
      var pat := if pattern.Some? then pattern.value else "*";
      var stack := [path];
      var fuel := maxDirs;
      ms := [];
      while stack != [] && (!recursive || fuel > 0)
        invariant Valid()
        invariant ms + Walk(fs, stack, pat, recursive, fuel) == Walk(fs, [path], pat, recursive, maxDirs)
        invariant addedPaths == RegisterModules(fs, old(addedPaths), ms)
        decreases fuel, |stack|
      {
        ghost var all := Walk(fs, [path], pat, recursive, maxDirs);
        WalkStep(fs, stack, pat, recursive, fuel, ms, all);
        var top := stack[|stack| - 1];
        var nextFuel: nat := if recursive then fuel - 1 else fuel;
        var found := DumpDirOnce(top, pat);
        assert found == DumpDir2(fs, top, pat);
        assert (ms + found) + Walk(fs, NextStack(fs, stack, recursive), pat, recursive, nextFuel) == all;
        RegisterModulesAppend(fs, old(addedPaths), ms, found);
        stack := NextStack(fs, stack, recursive);
        fuel := nextFuel;
        ms := ms + found;
      }
    }

    /** One input of GetDotNetFiles: a file, a directory, or a pattern inside an existing directory. */
    method LoadOne(file: string) returns (r: LoadOutcome)
      requires Valid()
      modifies this
      ensures Valid()
      ensures r == LoadInput(fs, file, recursive, maxDirs)
      ensures addedPaths == RegisterModules(fs, old(addedPaths), r.modules)
    {
      if fs.fileExists(file) {
        var info := OpenNetFileAt(file);
        if info.None? {
          return LoadOutcome([], Some(file + " is not a .NET file"));
        }
        r := LoadOutcome([info.value], None);
      } else if fs.dirExists(file) {
        var found := DumpDir(file, None);
        r := LoadOutcome(found, None);
      } else {
        var parent := fs.directoryName(file);
        if parent.Some? && fs.dirExists(parent.value) {
          var found := DumpDir(parent.value, Some(fs.fileName(file)));
          r := LoadOutcome(found, None);
        } else {
          r := LoadOutcome([], Some("File/directory '" + file + "' doesn't exist"));
        }
      }
    }

    /** GetDotNetFiles over the inputs `files`, drained into a list. */
    method GetDotNetFiles(files: seq<string>) returns (r: LoadOutcome)
      requires Valid()
      modifies this
      ensures Valid()
      ensures r == LoadInputs(fs, files, recursive, maxDirs)
      ensures addedPaths == RegisterModules(fs, old(addedPaths), r.modules)
    {
      var loaded: seq<Module> := [];
      var i := 0;
      while i < |files|
        invariant 0 <= i <= |files| && Valid()
        invariant LoadedUpTo(fs, files, i, recursive, maxDirs, loaded, old(addedPaths), addedPaths)
      {
        ghost var before := addedPaths;
        var one := LoadOne(files[i]);
        if one.error.Some? {
          LoadedStops(fs, files, i, recursive, maxDirs, loaded, old(addedPaths), before, one);
          assert addedPaths == before;
          return LoadOutcome(loaded, one.error);
        }
        LoadedStep(fs, files, i, recursive, maxDirs, loaded, old(addedPaths), before, one, addedPaths);
        loaded := loaded + one.modules;
        i := i + 1;
      }
      assert files[i..] == [];
      r := LoadOutcome(loaded, None);
    }
  }
}
