/**
 * The ProjectOptionsCreator class of ProjectOptionsCreator.cs, a trimmed copy of DnSpyDecompiler:
 * Run selects the language, switches off its "tokens" option, loads the input modules, gives them
 * project GUIDs, checks the settings and returns the ProjectCreatorOptions. There is no merge step,
 * the number of threads is left at its default, and exceptions propagate to the caller; an `Err`
 * outcome is the message of the exception Run throws.
 */
module OptionsCreator {
  import opened Outcomes
  import opened Text
  import opened Modules
  import opened Languages
  import opened ProjectGuids
  import opened ModuleLoading
  import opened ProjectOptions

  /** The message of the NullReferenceException thrown when GetLanguage() finds no language. */
  const NullReferenceMessage: string := "Object reference not set to an instance of an object."

  /** The output indentation setting, a constant of the class. */
  const Spaces: int := 4

  /** slnName's initial value. */
  const DefaultSolutionName: string := "solution.sln"

  /** ProjectCreatorOptions.NumberOfThreads when nobody sets it. */
  const DefaultNumberOfThreads: int := 0

  class ProjectOptionsCreator {
    const language: string
    const tryParseGuid: string -> Option<string>
    /** allLanguages, as the constructor leaves it: sorted by OrderUI. */
    var allLanguages: seq<Language>
    const outputDir: Option<string>
    const slnName: Option<string>
    const projectVersion: ProjectVersion
    /** The GUID the constructor draws with Guid.NewGuid(), in its text form. */
    const projectGuid: string
    const files: seq<string>
    const loader: ModuleLoader

    ghost predicate Valid()
      reads this, loader
    {
      loader.Valid() && !loader.recursive && IsGuidText(projectGuid) && SortedByOrderUI(allLanguages)
    }

    constructor (fs: FileSystem, filesToDecompile: seq<string>, outputDirectory: Option<string>,
                 sortedLanguages: seq<Language>, defaultLanguage: string, tryParseGuid: string -> Option<string>,
                 newGuid: string)
      requires SortedByOrderUI(sortedLanguages) && IsGuidText(newGuid)
      ensures Valid() && fresh(loader) && loader.addedPaths == []
      ensures files == filesToDecompile && outputDir == outputDirectory && allLanguages == sortedLanguages
      ensures language == defaultLanguage && projectGuid == newGuid && loader.fs == fs
      ensures slnName == Some(DefaultSolutionName) && projectVersion == VS2015
    {
      files := filesToDecompile;
      outputDir := outputDirectory;
      allLanguages := sortedLanguages;
      language := defaultLanguage;
      this.tryParseGuid := tryParseGuid;
      projectGuid := newGuid;
      slnName := Some(DefaultSolutionName);
      projectVersion := VS2015;
      loader := new ModuleLoader(fs, false, 0);
    }

    /**
     * Run. The language is looked up first, by RemoveTokenComments, which dereferences it; the
     * explicit "No languages were found" and "Language ... does not exist" checks that follow can
     * therefore never fail.
     */
    method Run() returns (r: Result<ProjectCreatorOptions>)
      requires Valid()
      modifies this, loader
      ensures Valid()
      ensures var found := FindLanguage(old(allLanguages), language, tryParseGuid(language));
        && (found.None? ==> r == Err(NullReferenceMessage) && allLanguages == old(allLanguages)
                            && loader.addedPaths == old(loader.addedPaths))
        && (found.Some? ==> allLanguages == old(allLanguages)[found.value := RemoveTokenComments(old(allLanguages)[found.value])])
        && (found.Some? ==>
              var loaded := LoadInputs(loader.fs, files, false, loader.maxDirs);
              var lang := RemoveTokenComments(old(allLanguages)[found.value]);
              loader.addedPaths == RegisterModules(loader.fs, old(loader.addedPaths), loaded.modules)
              && (loaded.error.Some? ==> r == Err(loaded.error.value))
              && (loaded.error.None? ==>
                    (r.Err? <==> CheckOptions(outputDir, lang).Some?)
                    && (r.Err? ==> r.message == CheckOptions(outputDir, lang).value)
                    && (r.Ok? ==> PlannedFrom(r.value, loaded.modules, projectGuid, outputDir,
                                              projectVersion, DefaultNumberOfThreads, slnName, Spaces))))
    {
      var found := FindLanguage(allLanguages, language, tryParseGuid(language));
      if found.None? {
        return Err(NullReferenceMessage);
      }
      var lang := RemoveTokenComments(allLanguages[found.value]);
      allLanguages := allLanguages[found.value := lang];
      r := Decompile(lang);
    }

    /** Decompile, with `lang` the language GetLanguage() returns. */
    method Decompile(lang: Language) returns (r: Result<ProjectCreatorOptions>)
      requires Valid()
      modifies loader
      ensures Valid()
      ensures var loaded := LoadInputs(loader.fs, files, false, loader.maxDirs);
        && loader.addedPaths == RegisterModules(loader.fs, old(loader.addedPaths), loaded.modules)
        && (loaded.error.Some? ==> r == Err(loaded.error.value))
        && (loaded.error.None? ==>
              (r.Err? <==> CheckOptions(outputDir, lang).Some?)
              && (r.Err? ==> r.message == CheckOptions(outputDir, lang).value)
              && (r.Ok? ==> PlannedFrom(r.value, loaded.modules, projectGuid, outputDir,
                                        projectVersion, DefaultNumberOfThreads, slnName, Spaces)))
    {
      var loaded := loader.GetDotNetFiles(files);
      if loaded.error.Some? {
        return Err(loaded.error.value);
      }
      r := PlanProject(loaded.modules, projectGuid, outputDir, lang, projectVersion, DefaultNumberOfThreads, slnName, Spaces);
    }
  }
}
