/**
 * The ProjectCreatorOptions that the dnSpy-based front ends hand to MSBuildProjectCreator, and the
 * part of Decompile that both DnSpyDecompiler.cs and ProjectOptionsCreator.cs share: the project
 * GUIDs, the two checks and the construction of the options.
 */
module ProjectOptions {
  import opened Outcomes
  import opened Text
  import opened Modules
  import opened Languages
  import opened ProjectGuids

  datatype ProjectVersion = VS2005 | VS2008 | VS2010 | VS2012 | VS2013 | VS2015

  /** A ProjectModuleOptions: the module and the project GUID given to it. */
  datatype ProjectModuleOptions = ProjectModuleOptions(moduleDef: Module, projectGuid: string)

  datatype ProjectCreatorOptions = ProjectCreatorOptions(
    directory: string,
    projectVersion: ProjectVersion,
    numberOfThreads: int,
    projectModules: seq<ProjectModuleOptions>,
    solutionFilename: Option<string>,
    indenter: Indenter)

  /** string.IsNullOrEmpty; None is the C# null. */
  predicate IsNullOrEmpty(s: Option<string>) {
    s.None? || s.value == ""
  }

  /** The two checks of Decompile, in their order: the first failing check's message, if any. */
  function CheckOptions(outputDir: Option<string>, lang: Language): (r: Option<string>)
    ensures r.None? <==> !IsNullOrEmpty(outputDir) && lang.projectFileExtension.Some?
    ensures IsNullOrEmpty(outputDir) ==> r == Some("Missing output directory")
    ensures !IsNullOrEmpty(outputDir) && lang.projectFileExtension.None? ==>
      r == Some("Language " + lang.uniqueNameUI + " doesn't support creating project files")
  {
    if IsNullOrEmpty(outputDir) then Some("Missing output directory")
    else if lang.projectFileExtension.None? then Some("Language " + lang.uniqueNameUI + " doesn't support creating project files")
    else None
  }

  /** The options' SolutionFilename: set to `slnName` exactly when that is neither null nor empty. */
  function SolutionFilename(slnName: Option<string>): (r: Option<string>)
    ensures r.Some? <==> !IsNullOrEmpty(slnName)
    ensures r.Some? ==> r == slnName
  {
    if IsNullOrEmpty(slnName) then None else slnName
  }

  function Locations(ms: seq<Module>): (r: seq<string>)
    ensures |r| == |ms| && forall i :: 0 <= i < |ms| ==> r[i] == ms[i].location
  {
    seq(|ms|, i requires 0 <= i < |ms| => ms[i].location)
  }

  function Zip(ms: seq<Module>, guids: seq<string>): (r: seq<ProjectModuleOptions>)
    requires |ms| == |guids|
    ensures |r| == |ms| && forall i :: 0 <= i < |ms| ==> r[i] == ProjectModuleOptions(ms[i], guids[i])
  {
    seq(|ms|, i requires 0 <= i < |ms| => ProjectModuleOptions(ms[i], guids[i]))
  }

  function Guids(pm: seq<ProjectModuleOptions>): (r: seq<string>)
    ensures |r| == |pm| && forall i :: 0 <= i < |pm| ==> r[i] == pm[i].projectGuid
  {
    seq(|pm|, i requires 0 <= i < |pm| => pm[i].projectGuid)
  }

  /**
   * What the options built from the modules `ms` hold: the output directory, the settings, the modules
   * in load order, the k-th module in case-insensitive location order carrying GUID base+k, and every
   * GUID keeping the base GUID's first 28 characters.
   */
  ghost predicate PlannedFrom(o: ProjectCreatorOptions, ms: seq<Module>, baseGuid: string, outputDir: Option<string>,
                              version: ProjectVersion, numThreads: int, slnName: Option<string>, spaces: int)
    requires IsGuidText(baseGuid)
  {
    outputDir.Some? && o.directory == outputDir.value && o.projectVersion == version
    && o.numberOfThreads == numThreads && o.indenter == GetIndenter(spaces)
    && o.solutionFilename == SolutionFilename(slnName)
    && |o.projectModules| == |ms|
    && (forall i :: 0 <= i < |ms| ==> o.projectModules[i].moduleDef == ms[i])
    && (forall k :: 0 <= k < |ms| ==>
          o.projectModules[LocationOrder(Locations(ms))[k]].projectGuid == GuidForRank(baseGuid, k))
    && (forall i :: 0 <= i < |ms| ==>
          |o.projectModules[i].projectGuid| == 36 && o.projectModules[i].projectGuid[..28] == baseGuid[..28])
  }

  /**
   * Decompile after the modules are loaded (and, in DnSpyDecompiler.cs, merged): GUIDs in
   * case-insensitive location order, then the checks, then the options in load order.
   */
  method PlanProject(ms: seq<Module>, baseGuid: string, outputDir: Option<string>, lang: Language,
                     version: ProjectVersion, numThreads: int, slnName: Option<string>, spaces: int)
    returns (r: Result<ProjectCreatorOptions>)
    requires IsGuidText(baseGuid)
    ensures r.Err? <==> CheckOptions(outputDir, lang).Some?
    ensures r.Err? ==> r.message == CheckOptions(outputDir, lang).value
    ensures r.Ok? ==> PlannedFrom(r.value, ms, baseGuid, outputDir, version, numThreads, slnName, spaces)
    ensures r.Ok? && |ms| <= TwoTo32 ==> Distinct(Guids(r.value.projectModules))
  {
    var guids := AssignGuids(Locations(ms), baseGuid);
    var check := CheckOptions(outputDir, lang);
    if check.Some? {
      return Err(check.value);
    }
    var modules := Zip(ms, guids);
    assert Guids(modules) == guids;
    r := Ok(ProjectCreatorOptions(outputDir.value, version, numThreads, modules, SolutionFilename(slnName), GetIndenter(spaces)));
  }
}
