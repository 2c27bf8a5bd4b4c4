/**
 * The DnSpyDecompiler class of DnSpyDecompiler.cs: Run selects the language, switches off its
 * "tokens" option, loads the input modules, merges them when Merge is set, gives them project
 * GUIDs, checks the settings and builds the ProjectCreatorOptions handed to MSBuildProjectCreator.
 * Run catches every exception and prints "ERROR: " and its message; an `Err` outcome is that message.
 */
module SetupDecompiler {
  import opened Outcomes
  import opened Text
  import opened Modules
  import opened Languages
  import opened ProjectGuids
  import opened ModuleLoading
  import opened Merging
  import opened ProjectOptions

  /** The message of the NullReferenceException thrown when GetLanguage() finds no language. */
  const NullReferenceMessage: string := "Object reference not set to an instance of an object."

  /** The output indentation setting, a constant of the class. */
  const Spaces: int := 4

  /** slnName's initial value. */
  const DefaultSolutionName: string := "solution.sln"

  class DnSpyDecompiler {
    const language: string
    const tryParseGuid: string -> Option<string>
    /** allLanguages, as the constructor leaves it: sorted by OrderUI. */
    var allLanguages: seq<Language>
    const outputDir: Option<string>
    const slnName: Option<string>
    const projectVersion: ProjectVersion
    var numThreads: int
    var merge: bool
    /** The GUID the constructor draws with Guid.NewGuid(), in its text form. */
    const projectGuid: string
    const files: seq<string>
    const loader: ModuleLoader

    ghost predicate Valid()
      reads this, loader
    {
      loader.Valid() && !loader.recursive && IsGuidText(projectGuid) && SortedByOrderUI(allLanguages)
    }

    constructor (fs: FileSystem, filesToDecompile: seq<string>, outputDirectory: Option<string>,
                 sortedLanguages: seq<Language>, defaultLanguage: string, tryParseGuid: string -> Option<string>,
                 newGuid: string)
      requires SortedByOrderUI(sortedLanguages) && IsGuidText(newGuid)
      ensures Valid() && fresh(loader) && loader.addedPaths == []
      ensures files == filesToDecompile && outputDir == outputDirectory && allLanguages == sortedLanguages
      ensures language == defaultLanguage && projectGuid == newGuid && loader.fs == fs
      ensures slnName == Some(DefaultSolutionName) && projectVersion == VS2015 && numThreads == 0 && !merge
    {
      files := filesToDecompile;
      outputDir := outputDirectory;
      allLanguages := sortedLanguages;
      language := defaultLanguage;
      this.tryParseGuid := tryParseGuid;
      projectGuid := newGuid;
      slnName := Some(DefaultSolutionName);
      projectVersion := VS2015;
      numThreads := 0;
      merge := false;
      loader := new ModuleLoader(fs, false, 0);
    }

    /**
     * Run. The language is looked up first, by RemoveTokenComments, which dereferences it; the
     * explicit "No languages were found" and "Language ... does not exist" checks that follow can
     * therefore never fail.
     */
    method Run() returns (r: Result<ProjectCreatorOptions>)
      requires Valid()
      modifies this, loader
      ensures Valid() && merge == old(merge) && numThreads == old(numThreads)
      ensures var found := FindLanguage(old(allLanguages), language, tryParseGuid(language));
        && (found.None? ==> r == Err(NullReferenceMessage) && allLanguages == old(allLanguages)
                            && loader.addedPaths == old(loader.addedPaths))
        && (found.Some? ==> allLanguages == old(allLanguages)[found.value := RemoveTokenComments(old(allLanguages)[found.value])])
        && (found.Some? ==>
              var loaded := LoadInputs(loader.fs, files, false, loader.maxDirs);
              var lang := RemoveTokenComments(old(allLanguages)[found.value]);
              loader.addedPaths == RegisterModules(loader.fs, old(loader.addedPaths), loaded.modules)
              && (loaded.error.Some? ==> r == Err(loaded.error.value))
              && (loaded.error.None? ==>
                    (r.Err? <==> CheckOptions(outputDir, lang).Some?)
                    && (r.Err? ==> r.message == CheckOptions(outputDir, lang).value)
                    && (r.Ok? ==> PlannedFrom(r.value, MergeGate(merge, loaded.modules), projectGuid, outputDir,
                                              projectVersion, numThreads, slnName, Spaces))))
    {
      var found := FindLanguage(allLanguages, language, tryParseGuid(language));
      if found.None? {
        return Err(NullReferenceMessage);
      }
      var lang := RemoveTokenComments(allLanguages[found.value]);
      allLanguages := allLanguages[found.value := lang];
      r := Decompile(lang);
    }

    /** Decompile, with `lang` the language GetLanguage() returns. */
    method Decompile(lang: Language) returns (r: Result<ProjectCreatorOptions>)
      requires Valid()
      modifies loader
      ensures Valid()
      ensures var loaded := LoadInputs(loader.fs, files, false, loader.maxDirs);
        && loader.addedPaths == RegisterModules(loader.fs, old(loader.addedPaths), loaded.modules)
        && (loaded.error.Some? ==> r == Err(loaded.error.value))
        && (loaded.error.None? ==>
              (r.Err? <==> CheckOptions(outputDir, lang).Some?)
              && (r.Err? ==> r.message == CheckOptions(outputDir, lang).value)
              && (r.Ok? ==> PlannedFrom(r.value, MergeGate(merge, loaded.modules), projectGuid, outputDir,
                                        projectVersion, numThreads, slnName, Spaces)))
    {
      var loaded := loader.GetDotNetFiles(files);
      if loaded.error.Some? {
        return Err(loaded.error.value);
      }
      var ms := loaded.modules;
      if merge {
        var projects := new Module[|ms|](i requires 0 <= i < |ms| => ms[i]);
        assert projects[..] == ms;
        RemoveDuplicates(projects);
        ms := projects[..];
      }
      r := PlanProject(ms, projectGuid, outputDir, lang, projectVersion, numThreads, slnName, Spaces);
    }
  }
}
