/**
 * The command-line front end pasted into DecompileTask.cs (its own DnSpyDecompiler class): the
 * parsing of the arguments, the language options it accepts, the lookup of a type by name, the
 * choice between decompiling one member and creating projects, and the exit code.
 *
 * The parsers it calls (SimpleTypeConverter.ParseInt32, int.TryParse, Guid.TryParse) and
 * Path.GetFullPath are the parameters collected in `Env`.
 */
module CommandLine {
  import opened Outcomes
  import opened Text
  import opened Modules
  import opened Languages
  import opened ProjectGuids
  import opened ModuleLoading
  import opened ProjectOptions

  /** Path.PathSeparator on Windows, which separates the entries of --asm-path and --user-gac. */
  const PathsSeparator: char := ';'

  const MinSpaces: int := 0
  const MaxSpaces: int := 100

  /** A GUID in its text form: 36 characters whose last eight are hex digits. */
  type GuidText = g: string | IsGuidText(g) witness "00000000-0000-0000-0000-000000000000"

  /** The library calls the parser makes, and the reserved names the constructor collects. */
  datatype Env = Env(
    reservedOptions: set<string>,
    parseInt32: string -> Result<int>,
    tryParseInt: string -> Option<int>,
    tryParseGuid: string -> Option<GuidText>,
    fullPath: string -> string)

  // ---------------------------------------------------------------------------------------------
  // Reserved option names and the names of the language options

  /** The tool's own option names, without "--" and without the "no-" and "dont-" prefixes. */
  const OurOptions: seq<string> := ["recursive", "output-dir", "lang", "asm-path", "user-gac", "gac", "stdlib",
    "sln", "sln-name", "threads", "vs", "resources", "resx", "baml", "color", "spaces", "type", "md",
    "gac-file", "project-guid"]

  const BooleanPrefixes: seq<string> := ["", "no-", "dont-"]

  /** GetReservedOptions: every name of `names`, plain and with "no-" and "dont-", after "--". */
  function ReservedFrom(names: seq<string>): set<string> {
    if names == [] then {}
    else
      var a := names[|names| - 1];
      ReservedFrom(names[..|names| - 1]) + {"--" + a, "--no-" + a, "--dont-" + a}
  }

  const ReservedOptions: set<string> := ReservedFrom(OurOptions)

  /** A name is reserved exactly when it is "--", one of "", "no-" and "dont-", and one of `names`. */
  lemma {:induction false} ReservedFromMembers(names: seq<string>, o: string)
    ensures o in ReservedFrom(names) <==> exists a, p :: a in names && p in BooleanPrefixes && o == "--" + p + a
  {
    if names != [] {
      var init := names[..|names| - 1];
      var a := names[|names| - 1];
      ReservedFromMembers(init, o);
      OneNameReserved(a, o);
      assert ReservedFrom(names) == ReservedFrom(init) + {"--" + a, "--no-" + a, "--dont-" + a};
      assert a in names;
      if o in ReservedFrom(init) {
        var a', p :| a' in init && p in BooleanPrefixes && o == "--" + p + a';
        assert a' in names;
      }
      if exists a', p :: a' in names && p in BooleanPrefixes && o == "--" + p + a' {
        var a', p :| a' in names && p in BooleanPrefixes && o == "--" + p + a';
        assert a' in init || a' == a;
      }
    }
  }

  /** The three reserved names of one option name. */
  lemma OneNameReserved(a: string, o: string)
    ensures o in {"--" + a, "--no-" + a, "--dont-" + a} <==> exists p :: p in BooleanPrefixes && o == "--" + p + a
  {
    assert "--" + BooleanPrefixes[0] + a == "--" + a;
    assert "--" + BooleanPrefixes[1] + a == "--no-" + a;
    assert "--" + BooleanPrefixes[2] + a == "--dont-" + a;
  }

  /** GetReservedOptions: the reserved names are the tool's own option names, plain, "no-" and "dont-", after "--". */
  lemma ReservedOptionsMembers(o: string)
    ensures o in ReservedOptions <==> exists a, p :: a in OurOptions && p in BooleanPrefixes && o == "--" + p + a
  {
    ReservedFromMembers(OurOptions, o);
  }

  /** Every reserved name starts with "--" and is at most seven characters longer than the longest own name. */
  lemma {:induction false} ReservedFromShape(names: seq<string>, n: nat)
    requires forall a :: a in names ==> |a| <= n
    ensures forall o :: o in ReservedFrom(names) ==> 2 <= |o| <= n + 7 && o[0] == '-'
  {
    if names != [] {
      var prefix := names[..|names| - 1];
      assert forall a :: a in prefix ==> a in names;
      ReservedFromShape(prefix, n);
    }
  }

  /** No reserved name is longer than "--dont-project-guid". */
  lemma ReservedOptionsAreShort()
    ensures forall o :: o in ReservedOptions ==> 2 <= |o| <= 19 && o[0] == '-'
  {
    ReservedFromShape(OurOptions, 12);
  }

  /** Names shorter than "--" and a GUID's text. */
  ghost predicate ShortNames(reserved: set<string>) {
    forall o :: o in reserved ==> |o| < 38
  }

  /** FixInvalidSwitchChars: spaces become '-'. */
  function FixInvalidSwitchChars(s: string): (r: string)
    ensures |r| == |s| && ' ' !in r
    ensures forall i :: 0 <= i < |s| && s[i] != ' ' ==> r[i] == s[i]
  {
    seq(|s|, i requires 0 <= i < |s| => if s[i] == ' ' then '-' else s[i])
  }

  /** The switch named after the option (after its GUID when it has no name). */
  function NamedSwitch(opt: DecompilerOption, extraPrefix: string): string {
    "--" + extraPrefix + FixInvalidSwitchChars(if opt.name.Some? then opt.name.value else opt.guid)
  }

  /**
   * GetOptionName: "--", the prefix and the option's name (its GUID when it has none), or, when that
   * is a reserved name, "--", the prefix and the GUID.
   */
  function GetOptionName(reserved: set<string>, opt: DecompilerOption, extraPrefix: string): string {
    var o := NamedSwitch(opt, extraPrefix);
    if o in reserved then "--" + extraPrefix + FixInvalidSwitchChars(opt.guid) else o
  }

  /**
   * A language option's switch never collides with a reserved name, and it is the name-based switch
   * whenever that one is free.
   */
  lemma GetOptionNameNotReserved(reserved: set<string>, opt: DecompilerOption, extraPrefix: string)
    requires ShortNames(reserved) && |opt.guid| == 36
    ensures GetOptionName(reserved, opt, extraPrefix) !in reserved
    ensures NamedSwitch(opt, extraPrefix) !in reserved ==> GetOptionName(reserved, opt, extraPrefix) == NamedSwitch(opt, extraPrefix)
  {
    if NamedSwitch(opt, extraPrefix) in reserved {
      assert |GetOptionName(reserved, opt, extraPrefix)| == 2 + |extraPrefix| + 36;
    }
  }

  /** What a language option's switch does. */
  datatype OptionAction = SetTrue | SetFalse | ParseInt | SetString

  /** An entry of the options dictionary: the option's position in the language's options and the action. */
  datatype OptionSetter = OptionSetter(option: nat, action: OptionAction)

  /**
   * CreateDecompilerOptionsDictionary for a language's options: a boolean option gets a switch and
   * its "no-" and "dont-" negations, an integer or string option one switch; a later option with the
   * same switch replaces an earlier one, and options of other types get none.
   */
  function OptionsDictionary(reserved: set<string>, options: seq<DecompilerOption>): map<string, OptionSetter> {
    if options == [] then map[]
    else
      var j := |options| - 1;
      var opt := options[j];
      var d := OptionsDictionary(reserved, options[..j]);
      match opt.kind
      case BoolOption =>
        d[GetOptionName(reserved, opt, "") := OptionSetter(j, SetTrue)]
         [GetOptionName(reserved, opt, "no-") := OptionSetter(j, SetFalse)]
         [GetOptionName(reserved, opt, "dont-") := OptionSetter(j, SetFalse)]
      case IntOption => d[GetOptionName(reserved, opt, "") := OptionSetter(j, ParseInt)]
      case StringOption => d[GetOptionName(reserved, opt, "") := OptionSetter(j, SetString)]
      case OtherOption => d
  }

  /** The action a switch may carry for an option of the given type. */
  predicate ActionFits(kind: OptionType, action: OptionAction) {
    match action
    case SetTrue => kind == BoolOption
    case SetFalse => kind == BoolOption
    case ParseInt => kind == IntOption
    case SetString => kind == StringOption
  }

  /** One of the three switches GetOptionName gives an option. */
  predicate IsSwitchOf(reserved: set<string>, k: string, opt: DecompilerOption) {
    k == GetOptionName(reserved, opt, "") || k == GetOptionName(reserved, opt, "no-") || k == GetOptionName(reserved, opt, "dont-")
  }

  /** The entry `s` of switch `k` sets an option of `options` that `k` names, by an action that fits its type. */
  predicate SwitchTarget(reserved: set<string>, options: seq<DecompilerOption>, k: string, s: OptionSetter) {
    s.option < |options| && ActionFits(options[s.option].kind, s.action) && IsSwitchOf(reserved, k, options[s.option])
  }

  /**
   * Every switch of the dictionary is a switch GetOptionName gives to the option it sets, and its
   * action fits that option's type.
   */
  lemma {:induction false} OptionsDictionaryTargets(reserved: set<string>, options: seq<DecompilerOption>)
    ensures forall k :: k in OptionsDictionary(reserved, options) ==>
      SwitchTarget(reserved, options, k, OptionsDictionary(reserved, options)[k])
  {
    if options != [] {
      var j := |options| - 1;
      var prefix := options[..j];
      var d := OptionsDictionary(reserved, prefix);
      OptionsDictionaryTargets(reserved, prefix);
      forall k | k in OptionsDictionary(reserved, options)
        ensures SwitchTarget(reserved, options, k, OptionsDictionary(reserved, options)[k])
      {
        var s := OptionsDictionary(reserved, options)[k];
        if s.option != j {
          assert k in d && s == d[k];
          assert prefix[s.option] == options[s.option];
        }
      }
    }
  }

  /** No switch of the dictionary is a reserved name, since option GUIDs are 36 characters long. */
  lemma OptionsDictionaryNotReserved(reserved: set<string>, options: seq<DecompilerOption>)
    requires ShortNames(reserved)
    requires forall j :: 0 <= j < |options| ==> |options[j].guid| == 36
    ensures forall k :: k in OptionsDictionary(reserved, options) ==> k !in reserved
  {
    OptionsDictionaryTargets(reserved, options);
    forall k | k in OptionsDictionary(reserved, options)
      ensures k !in reserved
    {
      var opt := options[OptionsDictionary(reserved, options)[k].option];
      GetOptionNameNotReserved(reserved, opt, "");
      GetOptionNameNotReserved(reserved, opt, "no-");
      GetOptionNameNotReserved(reserved, opt, "dont-");
    }
  }

  /** Guid.TryParse's result, as the language lookup takes it. */
  function ParsedGuid(env: Env, s: string): Option<string> {
    match env.tryParseGuid(s)
    case None => None
    case Some(g) => Some(g)
  }

  /** The dictionary of the language GetLanguage() returns; empty when there is none. */
  function LanguageOptions(languages: seq<Language>, language: string, env: Env): map<string, OptionSetter> {
    match FindLanguage(languages, language, ParsedGuid(env, language))
    case None => map[]
    case Some(k) => OptionsDictionary(env.reservedOptions, languages[k].options)
  }

  /** The action of a language option's switch applied to the option; `value` is the argument after it. */
  function SetOption(opt: DecompilerOption, action: OptionAction, value: string, env: Env): Result<DecompilerOption> {
    match action
    case SetTrue => Ok(opt.(value := BoolValue(true)))
    case SetFalse => Ok(opt.(value := BoolValue(false)))
    case ParseInt =>
      (match env.parseInt32(value)
       case Err(e) => Err(e)
       case Ok(n) => Ok(opt.(value := IntValue(n))))
    case SetString => Ok(opt.(value := StringValue(value)))
  }

  // ---------------------------------------------------------------------------------------------
  // Splitting search paths

  /** The length of the text before the first separator. */
  function Segment(s: string): (n: nat)
    ensures n <= |s| && PathsSeparator !in s[..n] && (n < |s| ==> s[n] == PathsSeparator)
  {
    if s == [] || s[0] == PathsSeparator then 0
    else
      var n := 1 + Segment(s[1..]);
      assert s[..n] == [s[0]] + s[1..][..n - 1];
      n
  }

  /** String.Split(PathsSeparator, StringSplitOptions.RemoveEmptyEntries). */
  function SplitPaths(s: string): seq<string>
    decreases |s|
  {
    if s == [] then []
    else
      var n := Segment(s);
      (if n == 0 then [] else [s[..n]]) + (if n < |s| then SplitPaths(s[n + 1..]) else [])
  }

  /** The entries of a split path list are non-empty and hold no separator, and a list without separator is one entry. */
  lemma {:induction false} SplitPathsEntries(s: string)
    ensures forall p :: p in SplitPaths(s) ==> p != [] && PathsSeparator !in p
    ensures s != [] && PathsSeparator !in s ==> SplitPaths(s) == [s]
    decreases |s|
  {
    if s != [] {
      var n := Segment(s);
      if n < |s| {
        SplitPathsEntries(s[n + 1..]);
      } else {
        assert s[..n] == s;
      }
    }
  }

  // ---------------------------------------------------------------------------------------------
  // The parsed settings

  /** The fields ParseCommandLine sets. */
  datatype Cli = Cli(
    isRecursive: bool,
    useGac: bool,
    addCorlibRef: bool,
    createSlnFile: bool,
    unpackResources: bool,
    createResX: bool,
    decompileBaml: bool,
    colorizeOutput: bool,
    projectGuid: GuidText,
    numThreads: int,
    mdToken: int,
    spaces: int,
    typeName: Option<string>,
    projectVersion: ProjectVersion,
    outputDir: Option<string>,
    slnName: string,
    files: seq<string>,
    asmPaths: seq<string>,
    userGacPaths: seq<string>,
    gacFiles: seq<string>,
    language: string,
    languages: seq<Language>)

  /** The fields as the constructor leaves them. */
  function InitialCli(languages: seq<Language>, defaultLanguage: string, newGuid: GuidText,
                      bamlAvailable: bool, outputRedirected: bool): Cli {
    Cli(false, true, true, true, true, true, bamlAvailable, !outputRedirected, newGuid, 0, 0, 0, None, VS2010,
        None, "solution.sln", [], [], [], [], defaultLanguage, languages)
  }

  /** The --vs values and their project versions. */
  function VisualStudioVersion(v: int): (r: Option<ProjectVersion>)
    ensures r.Some? <==> v in {2005, 2008, 2010, 2012, 2013, 2015}
  {
    if v == 2005 then Some(VS2005)
    else if v == 2008 then Some(VS2008)
    else if v == 2010 then Some(VS2010)
    else if v == 2012 then Some(VS2012)
    else if v == 2013 then Some(VS2013)
    else if v == 2015 then Some(VS2015)
    else None
  }

  /** The tool's own switches. */
  datatype Switch = Terminator | Recursive | OutputDir | Lang | AsmPath | UserGac | NoGac | NoStdlib | NoSln
    | SlnName | Threads | Vs | NoResources | NoResx | NoBaml | NoColor | Spaces | TypeName | Md | GacFile | ProjectGuid

  /** The switch statement's case labels and the switch each selects. */
  const SwitchLabels: seq<(string, Switch)> := [
    ("--", Terminator), ("-r", Recursive), ("--recursive", Recursive), ("-o", OutputDir), ("--output-dir", OutputDir),
    ("-l", Lang), ("--lang", Lang), ("--asm-path", AsmPath), ("--user-gac", UserGac), ("--no-gac", NoGac),
    ("--no-stdlib", NoStdlib), ("--no-sln", NoSln), ("--sln-name", SlnName), ("--threads", Threads), ("--vs", Vs),
    ("--no-resources", NoResources), ("--no-resx", NoResx), ("--no-baml", NoBaml), ("--no-color", NoColor),
    ("--spaces", Spaces), ("-t", TypeName), ("--type", TypeName), ("--md", Md), ("--gac-file", GacFile),
    ("--project-guid", ProjectGuid)]

  /** The switch of the first label equal to `arg`, if any. */
  function Lookup(labels: seq<(string, Switch)>, arg: string): Option<Switch> {
    if labels == [] then None
    else if labels[0].0 == arg then Some(labels[0].1)
    else Lookup(labels[1..], arg)
  }

  /** The switch an argument names, matched ordinally as the cases of ParseCommandLine's switch statement. */
  function SwitchOf(arg: string): Option<Switch> {
    Lookup(SwitchLabels, arg)
  }

  /** A label Lookup finds is one of the labels. */
  lemma {:induction false} LookupFinds(labels: seq<(string, Switch)>, arg: string)
    ensures Lookup(labels, arg).Some? <==> exists j :: 0 <= j < |labels| && labels[j].0 == arg
    ensures Lookup(labels, arg).Some? ==> exists j :: 0 <= j < |labels| && labels[j] == (arg, Lookup(labels, arg).value)
  {
    if labels != [] && labels[0].0 != arg {
      LookupFinds(labels[1..], arg);
      assert forall j :: 0 < j < |labels| ==> labels[j] == labels[1..][j - 1];
      if exists j :: 0 <= j < |labels| && labels[j].0 == arg {
        var j :| 0 <= j < |labels| && labels[j].0 == arg;
        assert labels[1..][j - 1].0 == arg;
      }
    }
  }

  /** Label `j` of the switch statement starts with '-' and has at least two characters. */
  predicate DashedLabel(j: nat)
    requires j < |SwitchLabels|
  {
    |SwitchLabels[j].0| >= 2 && SwitchLabels[j].0[0] == '-'
  }

  lemma DashedLabelsLow(j: nat)
    requires j < 9
    ensures DashedLabel(j)
  {
  }

  lemma DashedLabelsMid(j: nat)
    requires 9 <= j < 17
    ensures DashedLabel(j)
  {
  }

  lemma DashedLabelsHigh(j: nat)
    requires 17 <= j < |SwitchLabels|
    ensures DashedLabel(j)
  {
  }

  /** Every switch the tool names starts with '-' and has at least two characters. */
  lemma SwitchOfDashed(arg: string)
    ensures SwitchOf(arg).Some? ==> |arg| >= 2 && arg[0] == '-'
  {
    LookupFinds(SwitchLabels, arg);
    if SwitchOf(arg).Some? {
      var j :| 0 <= j < |SwitchLabels| && SwitchLabels[j].0 == arg;
      if j < 9 {
        DashedLabelsLow(j);
      } else if j < 17 {
        DashedLabelsMid(j);
      } else {
        DashedLabelsHigh(j);
      }
    }
  }

  /** The switches that consume the argument after them. */
  predicate TakesValue(sw: Switch) {
    match sw
    case OutputDir | Lang | AsmPath | UserGac | SlnName | Threads | Vs | Spaces | TypeName | Md | GacFile | ProjectGuid => true
    case _ => false
  }

  /** The state of the parsing loop after one argument: the fields, the next index, and whether switches are still parsed. */
  datatype StepState = StepState(cli: Cli, next: nat, canParse: bool)

  /** The message when a switch that takes an argument is the last argument. */
  function MissingArgument(sw: Switch): string
    requires TakesValue(sw)
  {
    match sw
    case OutputDir => "Missing output directory"
    case Lang => "Missing language name"
    case AsmPath => "Missing assembly search path"
    case UserGac => "Missing user GAC path"
    case SlnName => "Missing .sln name"
    case Threads => "Missing number of threads"
    case Vs => "Missing Visual Studio version"
    case Spaces => "Missing argument"
    case TypeName => "Missing full name of type"
    case Md => "Missing metadata token"
    case GacFile => "Missing GAC assembly name"
    case ProjectGuid => "Invalid GUID"
  }

  /** A switch of the tool that takes an argument, with that argument `value`. */
  function OwnSwitch(env: Env, c: Cli, sw: Switch, value: string): (r: Result<Cli>)
    requires TakesValue(sw)
    ensures r.Ok? && InRange(c) ==> InRange(r.value)
  {
    match sw
    case OutputDir => Ok(c.(outputDir := Some(env.fullPath(value))))
    case Lang =>
      if FindLanguage(c.languages, value, ParsedGuid(env, value)).None? then Err("Language '" + value + "' doesn't exist")
      else Ok(c.(language := value))
    case AsmPath => Ok(c.(asmPaths := c.asmPaths + SplitPaths(value)))
    case UserGac => Ok(c.(userGacPaths := c.userGacPaths + SplitPaths(value)))
    case SlnName =>
      if IsPathRooted(value) then Err(".sln name (" + value + ") must be relative to project directory")
      else Ok(c.(slnName := value))
    case Threads =>
      (match env.parseInt32(value)
       case Err(e) => Err(e)
       case Ok(n) => Ok(c.(numThreads := n)))
    case Vs =>
      (match env.parseInt32(value)
       case Err(e) => Err(e)
       case Ok(v) =>
         match VisualStudioVersion(v)
         case None => Err("Invalid Visual Studio version: " + Decimal(v))
         case Some(pv) => Ok(c.(projectVersion := pv)))
    case Spaces =>
      (match env.tryParseInt(value)
       case None => Err("Number of spaces must be between 0 and 100")
       case Some(n) =>
         if n < MinSpaces || n > MaxSpaces then Err("Number of spaces must be between 0 and 100")
         else Ok(c.(spaces := n)))
    case TypeName => Ok(c.(typeName := Some(value)))
    case Md =>
      (match env.parseInt32(value)
       case Err(e) => Err(e)
       case Ok(n) => Ok(c.(mdToken := n)))
    case GacFile => Ok(c.(gacFiles := c.gacFiles + [value]))
    case ProjectGuid =>
      (match env.tryParseGuid(value)
       case None => Err("Invalid GUID")
       case Some(g) => Ok(c.(projectGuid := g)))
  }

  /** A flag of the tool (a switch without argument other than "--"): it clears or sets one flag and nothing else. */
  function OwnFlag(c: Cli, sw: Switch): (r: Cli)
    requires !TakesValue(sw) && sw != Terminator
    ensures r == c.(isRecursive := r.isRecursive, useGac := r.useGac, addCorlibRef := r.addCorlibRef,
                    createSlnFile := r.createSlnFile, unpackResources := r.unpackResources, createResX := r.createResX,
                    decompileBaml := r.decompileBaml, colorizeOutput := r.colorizeOutput)
    ensures r.isRecursive == (c.isRecursive || sw == Recursive)
  {
    match sw
    case Recursive => c.(isRecursive := true)
    case NoGac => c.(useGac := false)
    case NoStdlib => c.(addCorlibRef := false)
    case NoSln => c.(createSlnFile := false)
    case NoResources => c.(unpackResources := false)
    case NoResx => c.(createResX := false)
    case NoBaml => c.(decompileBaml := false)
    case NoColor => c.(colorizeOutput := false)
  }

  /** Each flag sets or clears its own field and leaves the other seven flag fields as they were. */
  lemma OwnFlagFields(c: Cli, sw: Switch)
    requires !TakesValue(sw) && sw != Terminator
    ensures var r := OwnFlag(c, sw);
      && r.isRecursive == (c.isRecursive || sw == Recursive)
      && r.useGac == (c.useGac && sw != NoGac)
      && r.addCorlibRef == (c.addCorlibRef && sw != NoStdlib)
      && r.createSlnFile == (c.createSlnFile && sw != NoSln)
      && r.unpackResources == (c.unpackResources && sw != NoResources)
      && r.createResX == (c.createResX && sw != NoResx)
      && r.decompileBaml == (c.decompileBaml && sw != NoBaml)
      && r.colorizeOutput == (c.colorizeOutput && sw != NoColor)
  {
    match sw
    case Recursive =>
    case NoGac =>
    case NoStdlib =>
    case NoSln =>
    case NoResources =>
    case NoResx =>
    case NoBaml =>
    case NoColor =>
  }

  /** A language option's switch, for the language GetLanguage() returns. */
  function LanguageSwitch(env: Env, c: Cli, args: seq<string>, i: nat): (r: Result<StepState>)
    requires i < |args| && args[i] in LanguageOptions(c.languages, c.language, env)
    ensures r.Ok? ==> i < r.value.next <= |args| && r.value.canParse
    ensures r.Ok? ==> r.value.cli == c.(languages := r.value.cli.languages)
  {
    var k := FindLanguage(c.languages, c.language, ParsedGuid(env, c.language)).value;
    var options := c.languages[k].options;
    var setter := OptionsDictionary(env.reservedOptions, options)[args[i]];
    OptionsDictionaryTargets(env.reservedOptions, options);
    var hasArg := options[setter.option].kind != BoolOption;
    if hasArg && i + 1 >= |args| then Err("Missing option argument")
    else
      match SetOption(options[setter.option], setter.action, if i + 1 < |args| then args[i + 1] else "", env)
      case Err(e) => Err(e)
      case Ok(opt) =>
        var lang := c.languages[k].(options := options[setter.option := opt]);
        Ok(StepState(c.(languages := c.languages[k := lang]), if hasArg then i + 2 else i + 1, true))
  }

  /** The case of ParseCommandLine's switch statement for one of the tool's own switches, at argument `i`. */
  function OwnStep(env: Env, c: Cli, args: seq<string>, i: nat, sw: Switch): (r: Result<StepState>)
    requires i < |args|
    ensures r.Ok? && InRange(c) ==> InRange(r.value.cli)
    ensures r.Ok? ==> i < r.value.next <= |args| && r.value.canParse == (sw != Terminator)
    ensures r.Ok? ==> r.value.next == if TakesValue(sw) then i + 2 else i + 1
  {
    if sw == Terminator then Ok(StepState(c, i + 1, false))
    else if !TakesValue(sw) then Ok(StepState(OwnFlag(c, sw), i + 1, true))
    else if i + 1 >= |args| then Err(MissingArgument(sw))
    else
      match OwnSwitch(env, c, sw, args[i + 1])
      case Err(e) => Err(e)
      case Ok(c') => Ok(StepState(c', i + 2, true))
  }

  /**
   * One pass of ParseCommandLine's loop, at argument `i`. It keeps the spaces setting within 0..100
   * and the solution name relative.
   */
  function Step(env: Env, c: Cli, args: seq<string>, i: nat, canParse: bool): (r: Result<StepState>)
    requires i < |args|
    ensures r.Ok? ==> i < r.value.next <= |args|
    ensures r.Ok? && InRange(c) ==> InRange(r.value.cli)
  {
    var arg := args[i];
    if arg == "" then Ok(StepState(c, i + 1, canParse))
    else if !canParse || arg[0] != '-' then Ok(StepState(c.(files := c.files + [arg]), i + 1, canParse))
    else
      match SwitchOf(arg)
      case Some(sw) => OwnStep(env, c, args, i, sw)
      case None =>
        if arg in LanguageOptions(c.languages, c.language, env) then LanguageSwitch(env, c, args, i)
        else Err("Invalid option: " + arg)
  }

  /** ParseCommandLine's loop from argument `i` on. */
  function ParseFrom(env: Env, c: Cli, args: seq<string>, i: nat, canParse: bool): Result<Cli>
    decreases |args| - i
  {
    if i >= |args| then Ok(c)
    else
      match Step(env, c, args, i, canParse)
      case Err(e) => Err(e)
      case Ok(s) => ParseFrom(env, s.cli, args, s.next, s.canParse)
  }

  /** ParseCommandLine: the fields after parsing `args`, or the message of the ErrorException it throws. */
  function Parse(env: Env, c: Cli, args: seq<string>): Result<Cli> {
    if args == [] then Err("No options specified") else ParseFrom(env, c, args, 0, true)
  }

  /** The non-empty arguments, in order. */
  function NonEmpty(args: seq<string>): seq<string> {
    if args == [] then [] else (if args[0] == "" then [] else [args[0]]) + NonEmpty(args[1..])
  }

  /**
   * Once "--" has been seen, or when no argument left starts with '-', every remaining non-empty
   * argument is appended to the input files, in order, and nothing else changes.
   */
  lemma {:induction false} ParseRestAreFiles(env: Env, c: Cli, args: seq<string>, i: nat, canParse: bool)
    requires i <= |args|
    requires !canParse || forall j :: i <= j < |args| ==> args[j] == "" || args[j][0] != '-'
    ensures ParseFrom(env, c, args, i, canParse) == Ok(c.(files := c.files + NonEmpty(args[i..])))
    decreases |args| - i
  {
    if i == |args| {
      assert args[i..] == [];
      assert c.(files := c.files + []) == c;
    } else {
      var c' := c.(files := c.files + if args[i] == "" then [] else [args[i]]);
      ParseRestAreFiles(env, c', args, i + 1, canParse);
      ParseRestStep(env, c, args, i, canParse);
    }
  }

  /** One argument of ParseRestAreFiles: the rest of the parse after it carries over to the parse from it. */
  lemma ParseRestStep(env: Env, c: Cli, args: seq<string>, i: nat, canParse: bool)
    requires i < |args| && (args[i] == "" || !canParse || args[i][0] != '-')
    requires var c' := c.(files := c.files + if args[i] == "" then [] else [args[i]]);
      ParseFrom(env, c', args, i + 1, canParse) == Ok(c'.(files := c'.files + NonEmpty(args[i + 1..])))
    ensures ParseFrom(env, c, args, i, canParse) == Ok(c.(files := c.files + NonEmpty(args[i..])))
  {
    var head := if args[i] == "" then [] else [args[i]];
    ParsePlainStep(env, c, args, i, canParse);
    NonEmptyStep(args, i);
    SplitSuffix(c.files, head, NonEmpty(args[i + 1..]), NonEmpty(args[i..]), c.files + NonEmpty(args[i..]));
    FilesUpdatedTwice(c, c.files + head, c.files + NonEmpty(args[i..]));
  }

  lemma FilesUpdatedTwice(c: Cli, first: seq<string>, second: seq<string>)
    ensures c.(files := first).(files := second) == c.(files := second)
  {
  }

  /** An argument that is not parsed as a switch is skipped when empty and otherwise appended to the files. */
  lemma ParsePlainStep(env: Env, c: Cli, args: seq<string>, i: nat, canParse: bool)
    requires i < |args| && (args[i] == "" || !canParse || args[i][0] != '-')
    ensures ParseFrom(env, c, args, i, canParse)
         == ParseFrom(env, c.(files := c.files + if args[i] == "" then [] else [args[i]]), args, i + 1, canParse)
  {
    if args[i] == "" {
      assert c.(files := c.files + []) == c;
    }
  }

  lemma NonEmptyStep(args: seq<string>, i: nat)
    requires i < |args|
    ensures NonEmpty(args[i..]) == (if args[i] == "" then [] else [args[i]]) + NonEmpty(args[i + 1..])
  {
    assert args[i..][0] == args[i] && args[i..][1..] == args[i + 1..];
  }

  /** After "--", everything non-empty that follows is an input file. */
  lemma ParseTerminator(env: Env, c: Cli, args: seq<string>, i: nat)
    requires i < |args| && args[i] == "--"
    ensures ParseFrom(env, c, args, i, true) == Ok(c.(files := c.files + NonEmpty(args[i + 1..])))
  {
    assert Step(env, c, args, i, true) == Ok(StepState(c, i + 1, false));
    ParseRestAreFiles(env, c, args, i + 1, false);
  }

  /**
   * A switch that takes an argument fails when it is the last argument and otherwise consumes
   * exactly the next one; an empty argument is skipped; a dash argument that is neither one of the
   * tool's switches nor a switch of the language's options fails.
   */
  lemma StepShapes(env: Env, c: Cli, args: seq<string>, i: nat)
    requires i < |args|
    ensures SwitchOf(args[i]).Some? && TakesValue(SwitchOf(args[i]).value) && i + 1 == |args| ==>
      Step(env, c, args, i, true) == Err(MissingArgument(SwitchOf(args[i]).value))
    ensures SwitchOf(args[i]).Some? && TakesValue(SwitchOf(args[i]).value) && Step(env, c, args, i, true).Ok? ==>
      Step(env, c, args, i, true).value.next == i + 2
    ensures SwitchOf(args[i]).Some? && !TakesValue(SwitchOf(args[i]).value) && Step(env, c, args, i, true).Ok? ==>
      Step(env, c, args, i, true).value.next == i + 1
    ensures forall cp :: args[i] == "" ==> Step(env, c, args, i, cp) == Ok(StepState(c, i + 1, cp))
    ensures args[i] != [] && args[i][0] == '-' && SwitchOf(args[i]).None? && args[i] !in LanguageOptions(c.languages, c.language, env) ==>
      Step(env, c, args, i, true) == Err("Invalid option: " + args[i])
  {
    SwitchOfDashed(args[i]);
  }

  /** A dash argument that is a reserved name but not one of the tool's switches is an invalid option. */
  lemma ReservedNameIsInvalid(env: Env, c: Cli, args: seq<string>, i: nat)
    requires ShortNames(env.reservedOptions)
    requires i < |args| && args[i] in env.reservedOptions && args[i] != [] && args[i][0] == '-' && SwitchOf(args[i]).None?
    requires forall k, j :: 0 <= k < |c.languages| && 0 <= j < |c.languages[k].options| ==> |c.languages[k].options[j].guid| == 36
    ensures Step(env, c, args, i, true) == Err("Invalid option: " + args[i])
  {
    match FindLanguage(c.languages, c.language, ParsedGuid(env, c.language))
    case None =>
    case Some(k) => OptionsDictionaryNotReserved(env.reservedOptions, c.languages[k].options);
  }

  /**
   * The tool's reserved names that are not its switches (such as "--gac" or "--no-recursive") are
   * always rejected: no language option can take them.
   */
  lemma ReservedButUnhandledIsInvalid(env: Env, c: Cli, args: seq<string>, i: nat)
    requires env.reservedOptions == ReservedOptions
    requires i < |args| && args[i] in ReservedOptions && SwitchOf(args[i]).None?
    requires forall k, j :: 0 <= k < |c.languages| && 0 <= j < |c.languages[k].options| ==> |c.languages[k].options[j].guid| == 36
    ensures Step(env, c, args, i, true) == Err("Invalid option: " + args[i])
  {
    ReservedOptionsAreShort();
    ReservedNameIsInvalid(env, c, args, i);
  }

  /** The spaces setting stays within 0..100 and the solution name stays relative. */
  predicate InRange(c: Cli) {
    MinSpaces <= c.spaces <= MaxSpaces && !IsPathRooted(c.slnName)
  }

  /** The constructor's settings are in range: no spaces setting yet and the relative "solution.sln". */
  lemma InitialCliInRange(languages: seq<Language>, defaultLanguage: string, newGuid: GuidText,
                          bamlAvailable: bool, outputRedirected: bool)
    ensures InRange(InitialCli(languages, defaultLanguage, newGuid, bamlAvailable, outputRedirected))
    ensures InitialCli(languages, defaultLanguage, newGuid, bamlAvailable, outputRedirected).files == []
  {
  }

  /** Whatever the arguments, ParseCommandLine on the constructor's settings ends in range. */
  lemma ParseFromInitialInRange(env: Env, languages: seq<Language>, defaultLanguage: string, newGuid: GuidText,
                                bamlAvailable: bool, outputRedirected: bool, args: seq<string>)
    ensures var c := InitialCli(languages, defaultLanguage, newGuid, bamlAvailable, outputRedirected);
      Parse(env, c, args).Ok? ==> InRange(Parse(env, c, args).value)
  {
    InitialCliInRange(languages, defaultLanguage, newGuid, bamlAvailable, outputRedirected);
    ParseKeepsRanges(env, InitialCli(languages, defaultLanguage, newGuid, bamlAvailable, outputRedirected), args, 0, true);
  }

  /** Parsing keeps the spaces setting within 0..100 and the solution name relative. */
  lemma {:induction false} ParseKeepsRanges(env: Env, c: Cli, args: seq<string>, i: nat, canParse: bool)
    requires InRange(c)
    ensures ParseFrom(env, c, args, i, canParse).Ok? ==> InRange(ParseFrom(env, c, args, i, canParse).value)
    decreases |args| - i
  {
    if i < |args| {
      var s := Step(env, c, args, i, canParse);
      if s.Ok? {
        ParseKeepsRanges(env, s.value.cli, args, s.value.next, s.value.canParse);
      }
    }
  }

  // ---------------------------------------------------------------------------------------------
  // Finding a type by name (the --type switch)

  /** CleanTypeName: the name without its generic arity, cut at the last '`'. */
  function CleanTypeName(s: string): (r: string)
    ensures r <= s
    ensures '`' !in s ==> r == s
    ensures '`' in s ==> |r| < |s| && s[|r|] == '`' && '`' !in s[|r| + 1..]
  {
    var i := LastIndexOf(s, '`');
    if i < 0 then s
    else
      assert forall k :: i + 1 <= k < |s| ==> s[k] == s[i + 1..][k - (i + 1)];
      s[..i]
  }

  /** StringComparer.Ordinal or StringComparer.OrdinalIgnoreCase. */
  predicate Same(ignoreCase: bool, a: string, b: string) {
    if ignoreCase then EqualsIgnoreCase(a, b) else a == b
  }

  /** The test FindTypeFullName and FindTypeName apply to one of a type's names. */
  predicate NameMatches(s: string, name: string, ignoreCase: bool) {
    Same(ignoreCase, s, name) || Same(ignoreCase, CleanTypeName(s), name)
  }

  /** Enumerable.FirstOrDefault over the module's types. */
  function FirstWhere(types: seq<TypeDef>, p: TypeDef -> bool): (r: Option<TypeDef>)
    ensures r.None? <==> forall t :: t in types ==> !p(t)
    ensures r.Some? ==> r.value in types && p(r.value)
    ensures r.Some? ==> exists i :: 0 <= i < |types| && types[i] == r.value && p(r.value) && forall j :: 0 <= j < i ==> !p(types[j])
  {
    if types == [] then None
    else if p(types[0]) then Some(types[0])
    else
      var r := FirstWhere(types[1..], p);
      assert forall t :: t in types[1..] ==> t in types;
      assert forall i :: 0 < i < |types| ==> types[i] == types[1..][i - 1];
      if r.Some? then
        var i :| 0 <= i < |types[1..]| && types[1..][i] == r.value && p(r.value) && forall j :: 0 <= j < i ==> !p(types[1..][j]);
        assert types[i + 1] == r.value && forall j :: 0 <= j < i + 1 ==> !p(types[j]);
        r
      else r
  }

  function FindTypeFullName(types: seq<TypeDef>, name: string, ignoreCase: bool): Option<TypeDef> {
    FirstWhere(types, (t: TypeDef) => NameMatches(t.FullName(), name, ignoreCase))
  }

  function FindTypeName(types: seq<TypeDef>, name: string, ignoreCase: bool): Option<TypeDef> {
    FirstWhere(types, (t: TypeDef) => NameMatches(t.name, name, ignoreCase))
  }

  /** FindType: by full name, then by full name ignoring case, then by name, then by name ignoring case. */
  function FindType(types: seq<TypeDef>, name: string): Option<TypeDef> {
    var a := FindTypeFullName(types, name, false);
    if a.Some? then a
    else
      var b := FindTypeFullName(types, name, true);
      if b.Some? then b
      else
        var c := FindTypeName(types, name, false);
        if c.Some? then c else FindTypeName(types, name, true)
  }

  /** An ordinal match is also a match ignoring case. */
  lemma SameImpliesIgnoreCase(a: string, b: string)
    ensures Same(false, a, b) ==> Same(true, a, b)
  {
  }

  /** FindType finds nothing exactly when no type's full name or name matches ignoring case. */
  lemma FindTypeNone(types: seq<TypeDef>, name: string)
    ensures FindType(types, name).None? <==>
      forall t :: t in types ==> !NameMatches(t.FullName(), name, true) && !NameMatches(t.name, name, true)
  {
    forall t | t in types
      ensures NameMatches(t.FullName(), name, false) ==> NameMatches(t.FullName(), name, true)
      ensures NameMatches(t.name, name, false) ==> NameMatches(t.name, name, true)
    {
      SameImpliesIgnoreCase(t.FullName(), name);
      SameImpliesIgnoreCase(CleanTypeName(t.FullName()), name);
      SameImpliesIgnoreCase(t.name, name);
      SameImpliesIgnoreCase(CleanTypeName(t.name), name);
    }
  }

  /** A type FindType finds is one of the module's types whose full name or name matches ignoring case. */
  lemma FindTypeMatches(types: seq<TypeDef>, name: string)
    ensures FindType(types, name).Some? ==>
      && FindType(types, name).value in types
      && (NameMatches(FindType(types, name).value.FullName(), name, true) || NameMatches(FindType(types, name).value.name, name, true))
  {
    var r := FindType(types, name);
    if r.Some? {
      NameMatchesIgnoringCase(r.value, name);
    }
  }

  lemma NameMatchesIgnoringCase(t: TypeDef, name: string)
    ensures NameMatches(t.FullName(), name, false) ==> NameMatches(t.FullName(), name, true)
    ensures NameMatches(t.name, name, false) ==> NameMatches(t.name, name, true)
  {
    SameImpliesIgnoreCase(t.FullName(), name);
    SameImpliesIgnoreCase(CleanTypeName(t.FullName()), name);
    SameImpliesIgnoreCase(t.name, name);
    SameImpliesIgnoreCase(CleanTypeName(t.name), name);
  }

  /** A type whose full name equals the name exactly is preferred to every other kind of match. */
  lemma FindTypeFinds(types: seq<TypeDef>, name: string)
    ensures (exists t :: t in types && t.FullName() == name) ==>
      FindType(types, name) == FindTypeFullName(types, name, false) && FindType(types, name).Some?
      && NameMatches(FindType(types, name).value.FullName(), name, false)
  {
    if t :| t in types && t.FullName() == name {
      assert NameMatches(t.FullName(), name, false);
    }
  }

  /** GetBaseName: the text after the last directory separator. */
  function GetBaseName(name: string): (r: string)
    ensures DirectorySeparator in name ==>
      |r| < |name| && name[|name| - |r| - 1] == DirectorySeparator && name[|name| - |r|..] == r
    ensures DirectorySeparator !in r
    ensures DirectorySeparator !in name ==> r == name
  {
    var i := LastIndexOf(name, DirectorySeparator);
    if i < 0 then name
    else
      assert forall k :: i + 1 <= k < |name| ==> name[k] == name[i + 1..][k - (i + 1)];
      name[i + 1..]
  }

  // ---------------------------------------------------------------------------------------------
  // Decompiling: one member, or projects

  datatype MemberKind = MethodKind | FieldKind | PropertyKind | EventKind | OtherKind

  /** An IMemberDef: a type of the module, or another member with its kind and token. */
  datatype Member = TypeMember(typeDef: TypeDef) | OtherMember(kind: MemberKind, token: int)

  /** What Decompile hands on: one member to print, or the options of MSBuildProjectCreator with the user GAC paths. */
  datatype Decompilation =
    | MemberOutput(member: Member, colorize: bool, indenter: Indenter)
    | ProjectOutput(options: ProjectCreatorOptions, userGacPaths: seq<string>)

  /**
   * The member branch of Decompile (taken when --md or --type is given): exactly one module, and the
   * type named by --type, or else the member of token --md, which must be of a kind the decompiler prints.
   */
  function SelectMember(ms: seq<Module>, typeName: Option<string>, mdToken: int,
                        resolveToken: (Module, int) -> Option<Member>): (r: Result<Member>)
    ensures |ms| == 0 ==> r == Err("Missing .NET filename")
    ensures |ms| > 1 ==> r == Err("Only one file can be decompiled when using --md")
    ensures typeName.Some? && r.Ok? ==>
      |ms| == 1 && FindType(ms[0].types, typeName.value).Some? && r.value == TypeMember(FindType(ms[0].types, typeName.value).value)
    ensures typeName.Some? && |ms| == 1 ==> (r.Err? <==> FindType(ms[0].types, typeName.value).None?)
    ensures typeName.None? && |ms| == 1 && r.Ok? ==> resolveToken(ms[0], mdToken) == Some(r.value)
    ensures r.Ok? ==> !(r.value.OtherMember? && r.value.kind == OtherKind)
  {
    if |ms| == 0 then Err("Missing .NET filename")
    else if |ms| != 1 then Err("Only one file can be decompiled when using --md")
    else
      var found := if typeName.Some? then
          (match FindType(ms[0].types, typeName.value)
           case None => None
           case Some(t) => Some(TypeMember(t)))
        else resolveToken(ms[0], mdToken);
      match found
      case None =>
        if typeName.Some? then Err("Type " + typeName.value + " couldn't be found") else Err("Invalid metadata token")
      case Some(m) =>
        if m.OtherMember? && m.kind == OtherKind then Err("Only types, methods, fields, events and properties can be decompiled")
        else Ok(m)
  }

  /** The GAC assemblies of --gac-file, resolved in order; the first that cannot be resolved stops the loading. */
  function LoadGac(resolveGac: string -> Option<Module>, names: seq<string>): (r: LoadOutcome)
    decreases |names|
  {
    if names == [] then LoadOutcome([], None)
    else
      match resolveGac(names[0])
      case None => LoadOutcome([], Some("Couldn't resolve GAC assembly '" + names[0] + "'"))
      case Some(m) => Prepend([m], LoadGac(resolveGac, names[1..]))
  }

  /** GAC loading succeeds exactly when every name resolves, and then yields the resolved modules in order. */
  lemma {:induction false} LoadGacResolvesAll(resolveGac: string -> Option<Module>, names: seq<string>)
    ensures LoadGac(resolveGac, names).error.None? <==> forall i :: 0 <= i < |names| ==> resolveGac(names[i]).Some?
    ensures LoadGac(resolveGac, names).error.None? ==>
      |LoadGac(resolveGac, names).modules| == |names|
      && forall i :: 0 <= i < |names| ==> resolveGac(names[i]) == Some(LoadGac(resolveGac, names).modules[i])
    decreases |names|
  {
    if names != [] {
      LoadGacResolvesAll(resolveGac, names[1..]);
      assert forall i :: 0 < i < |names| ==> names[i] == names[1..][i - 1];
    }
  }

  lemma LoadGacStep(resolveGac: string -> Option<Module>, names: seq<string>, i: nat)
    requires i < |names|
    ensures resolveGac(names[i]).None? ==>
      LoadGac(resolveGac, names[i..]) == LoadOutcome([], Some("Couldn't resolve GAC assembly '" + names[i] + "'"))
    ensures resolveGac(names[i]).Some? ==>
      LoadGac(resolveGac, names[i..]) == Prepend([resolveGac(names[i]).value], LoadGac(resolveGac, names[i + 1..]))
  {
    assert names[i..][0] == names[i] && names[i..][1..] == names[i + 1..];
  }

  /** The added paths after AddSearchPath on each directory of `dirs`, in order. */
  function AddSearchPaths(fs: FileSystem, added: seq<string>, dirs: seq<string>): seq<string> {
    if dirs == [] then added
    else WithSearchPath(fs, AddSearchPaths(fs, added, dirs[..|dirs| - 1]), Some(dirs[|dirs| - 1]))
  }

  /** Afterwards every existing directory of `dirs` is registered (up to case), and every registered path was already there or is an existing directory of `dirs`. */
  lemma {:induction false} AddSearchPathsCovers(fs: FileSystem, added: seq<string>, dirs: seq<string>)
    ensures forall d :: d in dirs && fs.dirExists(d) ==> ContainsIgnoreCase(AddSearchPaths(fs, added, dirs), d)
    ensures forall p :: p in AddSearchPaths(fs, added, dirs) ==> p in added || (p in dirs && fs.dirExists(p))
  {
    if dirs != [] {
      var front := dirs[..|dirs| - 1];
      var last := dirs[|dirs| - 1];
      var prev := AddSearchPaths(fs, added, front);
      AddSearchPathsCovers(fs, added, front);
      var r := AddSearchPaths(fs, added, dirs);
      assert forall d :: d in front ==> d in dirs;
      assert dirs == front + [last];
      ContainsIgnoreCaseIff(prev, last);
      ContainsIgnoreCaseIff(r, last);
      forall d | d in dirs && fs.dirExists(d)
        ensures ContainsIgnoreCase(r, d)
      {
        if d != last {
          assert d in front;
          ContainsIgnoreCaseIff(prev, d);
          ContainsIgnoreCaseIff(r, d);
          var k :| 0 <= k < |prev| && EqualsIgnoreCase(prev[k], d);
          assert r[k] == prev[k];
        } else if r == prev {
        } else {
          assert r[|r| - 1] == last;
        }
      }
    }
  }

  /** The solution file name Decompile passes on: slnName, unless --no-sln was given. */
  function SlnSetting(c: Cli): Option<string> {
    if c.createSlnFile then Some(c.slnName) else None
  }

  /**
   * The result of Decompile for the settings `c`, the language `lang` GetLanguage() returns, the
   * outcome of loading the inputs and that of loading the GAC assemblies.
   */
  ghost predicate DecompiledFrom(r: Result<Decompilation>, c: Cli, lang: Language, loaded: LoadOutcome, gac: LoadOutcome,
                                 resolveToken: (Module, int) -> Option<Member>)
  {
    if loaded.error.Some? then r == Err(loaded.error.value)
    else if gac.error.Some? then r == Err(gac.error.value)
    else
      var ms := loaded.modules + gac.modules;
      if c.mdToken != 0 || c.typeName.Some? then
        match SelectMember(ms, c.typeName, c.mdToken, resolveToken)
        case Err(e) => r == Err(e)
        case Ok(m) => r == Ok(MemberOutput(m, c.colorizeOutput, GetIndenter(c.spaces)))
      else
        (r.Err? <==> CheckOptions(c.outputDir, lang).Some?)
        && (r.Err? ==> r.message == CheckOptions(c.outputDir, lang).value)
        && (r.Ok? ==>
              && r.value.ProjectOutput? && r.value.userGacPaths == c.userGacPaths
              && PlannedFrom(r.value.options, ms, c.projectGuid, c.outputDir, c.projectVersion, c.numThreads,
                             SlnSetting(c), c.spaces))
  }

  /** Run's two checks after parsing: some language exists, and the selected one is found. */
  function LanguageCheck(c: Cli, env: Env): (r: Result<nat>)
    ensures r.Ok? ==> r.value < |c.languages| && Matches(c.languages[r.value], c.language, ParsedGuid(env, c.language))
    ensures r.Err? <==> FindLanguage(c.languages, c.language, ParsedGuid(env, c.language)).None?
  {
    if |c.languages| == 0 then
      Err("No languages were found. Make sure that the language dll files exist in the same folder as this program.")
    else
      match FindLanguage(c.languages, c.language, ParsedGuid(env, c.language))
      case None => Err("Language " + c.language + " does not exist")
      case Some(k) => Ok(k)
  }

  /**
   * The command-line decompiler object: the settings the parser fills in, the loader with its search
   * paths, and the number of errors reported through Error.
   */
  class CommandLineDecompiler {
    const env: Env
    const fs: FileSystem
    const maxDirs: nat
    /** The resolver's lookup of a GAC assembly by (partial) name, with exact matching switched off. */
    const resolveGac: string -> Option<Module>
    /** ModuleDef.ResolveToken, as an IMemberDef. */
    const resolveToken: (Module, int) -> Option<Member>
    var cli: Cli
    var loader: ModuleLoader
    var errors: nat
    /** The lines written to the error stream by Error. */
    var errorLog: seq<string>

    ghost predicate Valid()
      reads this, loader
    {
      env.reservedOptions == ReservedOptions && InRange(cli) && loader.Valid() && loader.fs == fs
    }

    constructor (parseInt32: string -> Result<int>, tryParseInt: string -> Option<int>,
                 tryParseGuid: string -> Option<GuidText>, fullPath: string -> string,
                 fs: FileSystem, maxDirs: nat, resolveGac: string -> Option<Module>,
                 resolveToken: (Module, int) -> Option<Member>,
                 sortedLanguages: seq<Language>, defaultLanguage: string, newGuid: GuidText,
                 bamlAvailable: bool, outputRedirected: bool)
      ensures Valid() && errors == 0 && errorLog == []
      ensures env == Env(ReservedOptions, parseInt32, tryParseInt, tryParseGuid, fullPath)
      ensures this.fs == fs && this.maxDirs == maxDirs && this.resolveGac == resolveGac && this.resolveToken == resolveToken
      ensures cli == InitialCli(sortedLanguages, defaultLanguage, newGuid, bamlAvailable, outputRedirected)
    {
      env := Env(ReservedOptions, parseInt32, tryParseInt, tryParseGuid, fullPath);
      this.fs := fs;
      this.maxDirs := maxDirs;
      this.resolveGac := resolveGac;
      this.resolveToken := resolveToken;
      cli := InitialCli(sortedLanguages, defaultLanguage, newGuid, bamlAvailable, outputRedirected);
      loader := new ModuleLoader(fs, false, maxDirs);
      errors := 0;
      errorLog := [];
    }

    /** ParseCommandLine: the message of the ErrorException it throws, if any. */
    method ParseCommandLine(args: seq<string>) returns (error: Option<string>)
      requires Valid()
      modifies this
      ensures Valid() && loader == old(loader) && errors == old(errors) && errorLog == old(errorLog)
      ensures error.None? <==> Parse(env, old(cli), args).Ok?
      ensures error.Some? ==> error.value == Parse(env, old(cli), args).message
      ensures error.None? ==> cli == Parse(env, old(cli), args).value
    {
      if args == [] {
        return Some("No options specified");
      }
      var i := 0;
      var canParse := true;
      while i < |args|
        invariant 0 <= i <= |args| && Valid() && loader == old(loader)
        invariant errors == old(errors) && errorLog == old(errorLog)
        invariant ParseFrom(env, cli, args, i, canParse) == Parse(env, old(cli), args)
        decreases |args| - i
      {
        var step := Step(env, cli, args, i, canParse);
        if step.Err? {
          return Some(step.message);
        }
        cli := step.value.cli;
        i := step.value.next;
        canParse := step.value.canParse;
      }
      error := None;
    }

    /** Error: one more error, and its line on the error stream. */
    method Error(message: string)
      modifies this
      ensures errors == old(errors) + 1 && errorLog == old(errorLog) + ["ERROR: " + message]
      ensures cli == old(cli) && loader == old(loader)
    {
      errors := errors + 1;
      errorLog := errorLog + ["ERROR: " + message];
    }

    /** The --gac-file part of GetDotNetFiles: each module resolved is registered like a loaded one. */
    method LoadGacFiles(names: seq<string>) returns (r: LoadOutcome)
      requires loader.Valid() && loader.fs == fs
      modifies loader
      ensures loader.Valid()
      ensures r == LoadGac(resolveGac, names)
      ensures loader.addedPaths == RegisterModules(fs, old(loader.addedPaths), r.modules)
    {
      var found: seq<Module> := [];
      var i := 0;
      while i < |names|
        invariant 0 <= i <= |names| && loader.Valid()
        invariant LoadGac(resolveGac, names) == Prepend(found, LoadGac(resolveGac, names[i..]))
        invariant loader.addedPaths == RegisterModules(fs, old(loader.addedPaths), found)
      {
        LoadGacStep(resolveGac, names, i);
        var m := resolveGac(names[i]);
        if m.None? {
          r := LoadOutcome(found, Some("Couldn't resolve GAC assembly '" + names[i] + "'"));
          return;
        }
        RegisterModulesAppend(fs, old(loader.addedPaths), found, [m.value]);
        assert RegisterModules(fs, loader.addedPaths, [m.value])
            == WithSearchPath(fs, loader.addedPaths, fs.directoryName(m.value.location));
        loader.AddSearchPath(fs.directoryName(m.value.location));
        PrependAssoc(found, [m.value], LoadGac(resolveGac, names[i + 1..]));
        found := found + [m.value];
        i := i + 1;
      }
      assert names[i..] == [];
      r := LoadOutcome(found, None);
    }

    /** AddSearchPath on each directory of `dirs`. */
    method AddSearchPathsOf(dirs: seq<string>)
      requires loader.Valid() && loader.fs == fs
      modifies loader
      ensures loader.Valid()
      ensures loader.addedPaths == AddSearchPaths(fs, old(loader.addedPaths), dirs)
    {
      var i := 0;
      while i < |dirs|
        invariant 0 <= i <= |dirs| && loader.Valid()
        invariant loader.addedPaths == AddSearchPaths(fs, old(loader.addedPaths), dirs[..i])
      {
        assert dirs[..i + 1][..i] == dirs[..i];
        assert AddSearchPaths(fs, old(loader.addedPaths), dirs[..i + 1])
            == WithSearchPath(fs, AddSearchPaths(fs, old(loader.addedPaths), dirs[..i]), Some(dirs[i]));
        loader.AddSearchPath(Some(dirs[i]));
        i := i + 1;
      }
      assert dirs[..i] == dirs;
    }

    /** Decompile, with `lang` the language GetLanguage() returns. */
    method Decompile(lang: Language) returns (r: Result<Decompilation>)
      requires Valid()
      modifies this
      ensures Valid() && fresh(loader) && cli == old(cli) && errors == old(errors) && errorLog == old(errorLog)
      ensures loader.recursive == cli.isRecursive
      ensures var loaded := LoadInputs(fs, cli.files, cli.isRecursive, maxDirs);
        var gac := LoadGac(resolveGac, cli.gacFiles);
        var searchPaths := AddSearchPaths(fs, [], cli.asmPaths + cli.userGacPaths);
        && DecompiledFrom(r, cli, lang, loaded, gac, resolveToken)
        && loader.addedPaths == RegisterModules(fs, searchPaths, loaded.modules + (if loaded.error.None? then gac.modules else []))
    {
      loader := new ModuleLoader(fs, cli.isRecursive, maxDirs);
      AddSearchPathsOf(cli.asmPaths + cli.userGacPaths);
      ghost var searchPaths := loader.addedPaths;
      var loaded := loader.GetDotNetFiles(cli.files);
      if loaded.error.Some? {
        assert loaded.modules + [] == loaded.modules;
        return Err(loaded.error.value);
      }
      var gac := LoadGacFiles(cli.gacFiles);
      RegisterModulesAppend(fs, searchPaths, loaded.modules, gac.modules);
      if gac.error.Some? {
        return Err(gac.error.value);
      }
      var ms := loaded.modules + gac.modules;
      if cli.mdToken != 0 || cli.typeName.Some? {
        var member := SelectMember(ms, cli.typeName, cli.mdToken, resolveToken);
        if member.Err? {
          return Err(member.message);
        }
        return Ok(MemberOutput(member.value, cli.colorizeOutput, GetIndenter(cli.spaces)));
      }
      var plan := PlanProject(ms, cli.projectGuid, cli.outputDir, lang, cli.projectVersion, cli.numThreads,
                              SlnSetting(cli), cli.spaces);
      if plan.Err? {
        return Err(plan.message);
      }
      r := Ok(ProjectOutput(plan.value, cli.userGacPaths));
    }
  

    /** Error on each message, in order. */
    method ReportErrors(messages: seq<string>)
      requires Valid()
      modifies this
      ensures Valid() && cli == old(cli) && loader == old(loader)
      ensures errors == old(errors) + |messages| && errorLog == old(errorLog) + ErrorLines(messages)
    {
      var i := 0;
      while i < |messages|
        invariant 0 <= i <= |messages| && Valid() && cli == old(cli) && loader == old(loader)
        invariant errors == old(errors) + i && errorLog == old(errorLog) + ErrorLines(messages[..i])
      {
        assert messages[..i + 1] == messages[..i] + [messages[i]];
        Error(messages[i]);
        i := i + 1;
      }
      assert messages[..i] == messages;
    }

    /**
     * Run after parsing: check the language, decompile, and let the project creator report its errors
     * (`creatorErrors`, the messages MSBuildProjectCreator passes to Error). The exit code is 0 exactly
     * when nothing failed and no error was reported.
     */
    method Execute(creatorErrors: seq<string>) returns (exitCode: int, r: Result<Decompilation>)
      requires Valid()
      modifies this
      ensures Valid() && cli == old(cli)
      ensures LanguageCheck(cli, env).Err? ==> r == Err(LanguageCheck(cli, env).message)
      ensures LanguageCheck(cli, env).Ok? ==>
        DecompiledFrom(r, cli, cli.languages[LanguageCheck(cli, env).value],
                       LoadInputs(fs, cli.files, cli.isRecursive, maxDirs), LoadGac(resolveGac, cli.gacFiles), resolveToken)
      ensures r.Ok? && r.value.ProjectOutput? ==>
        errors == old(errors) + |creatorErrors| && errorLog == old(errorLog) + ErrorLines(creatorErrors)
      ensures !(r.Ok? && r.value.ProjectOutput?) ==> errors == old(errors) && errorLog == old(errorLog)
      ensures exitCode == (if r.Ok? && errors == 0 then 0 else 1)
    {
      var check := LanguageCheck(cli, env);
      if check.Err? {
        return 1, Err(check.message);
      }
      r := Decompile(cli.languages[check.value]);
      if r.Ok? && r.value.ProjectOutput? {
        ReportErrors(creatorErrors);
      }
      exitCode := if r.Ok? && errors == 0 then 0 else 1;
    }

    /** Run: ParseCommandLine, then the rest; an exception of either ends the run with exit code 1. */
    method Run(args: seq<string>, creatorErrors: seq<string>) returns (exitCode: int, r: Result<Decompilation>)
      requires Valid()
      modifies this
      ensures Valid()
      ensures Parse(env, old(cli), args).Err? ==> r == Err(Parse(env, old(cli), args).message) && exitCode == 1
      ensures Parse(env, old(cli), args).Ok? ==> cli == Parse(env, old(cli), args).value
      ensures Parse(env, old(cli), args).Ok? && LanguageCheck(cli, env).Err? ==> r == Err(LanguageCheck(cli, env).message)
      ensures Parse(env, old(cli), args).Ok? && LanguageCheck(cli, env).Ok? ==>
        DecompiledFrom(r, cli, cli.languages[LanguageCheck(cli, env).value],
                       LoadInputs(fs, cli.files, cli.isRecursive, maxDirs), LoadGac(resolveGac, cli.gacFiles), resolveToken)
      ensures r.Ok? && r.value.ProjectOutput? ==>
        errors == old(errors) + |creatorErrors| && errorLog == old(errorLog) + ErrorLines(creatorErrors)
      ensures !(r.Ok? && r.value.ProjectOutput?) ==> errors == old(errors) && errorLog == old(errorLog)
      ensures exitCode == (if r.Ok? && errors == 0 then 0 else 1)
    {
      var error := ParseCommandLine(args);
      if error.Some? {
        return 1, Err(error.value);
      }
      exitCode, r := Execute(creatorErrors);
    }
  }

  /** The lines Error writes for a list of messages. */
  function ErrorLines(messages: seq<string>): (r: seq<string>)
    ensures |r| == |messages| && forall i :: 0 <= i < |messages| ==> r[i] == "ERROR: " + messages[i]
  {
    seq(|messages|, i requires 0 <= i < |messages| => "ERROR: " + messages[i])
  }
}
