/**
 * The decompiler languages (IDecompiler) as the front ends see them, the language lookup that all
 * three front ends share (DecompileTask.cs:1372-1383, DnSpyDecompiler.cs:393-405,
 * ProjectOptionsCreator.cs:341-353), the indenter choice and the "tokens" option switch.
 *
 * The language list itself is discovered by reflection and sorted by OrderUI in the constructors;
 * here it is an input.
 */
module Languages {
  import opened Outcomes
  import opened Text

  datatype OptionType = BoolOption | IntOption | StringOption | OtherOption
  datatype OptionValue = BoolValue(b: bool) | IntValue(i: int) | StringValue(s: string) | OtherValue

  /** An IDecompilerOption: optional name, GUID text (canonical form), type and current value. */
  datatype DecompilerOption = DecompilerOption(name: Option<string>, guid: string, kind: OptionType, value: OptionValue)

  /** An IDecompiler; GUIDs are kept in one canonical text form so that Guid equality is string equality. */
  datatype Language = Language(
    uniqueNameUI: string,
    uniqueGuid: string,
    genericGuid: string,
    orderUI: int,
    projectFileExtension: Option<string>,
    options: seq<DecompilerOption>)

  /** The language list as the constructors leave it: sorted by OrderUI. */
  predicate SortedByOrderUI(langs: seq<Language>) {
    forall i, j :: 0 <= i < j < |langs| ==> langs[i].orderUI <= langs[j].orderUI
  }

  /**
   * The test inside GetLanguage: the UI name equals `language` ignoring case, or `language` parsed as a
   * GUID (`parsed`, the result of Guid.TryParse) equals the unique or the generic GUID.
   */
  predicate Matches(lang: Language, language: string, parsed: Option<string>) {
    EqualsIgnoreCase(language, lang.uniqueNameUI)
    || (parsed.Some? && (parsed.value == lang.uniqueGuid || parsed.value == lang.genericGuid))
  }

  /** The position of the first matching language (FirstOrDefault), if any. */
  function FindLanguage(langs: seq<Language>, language: string, parsed: Option<string>): (r: Option<nat>)
    ensures r.Some? ==> r.value < |langs| && Matches(langs[r.value], language, parsed)
    ensures r.Some? ==> forall j :: 0 <= j < r.value ==> !Matches(langs[j], language, parsed)
    ensures r.None? <==> forall j :: 0 <= j < |langs| ==> !Matches(langs[j], language, parsed)
  {
    if langs == [] then None
    else if Matches(langs[0], language, parsed) then Some(0)
    else
      match FindLanguage(langs[1..], language, parsed)
      case None => None
      case Some(k) => Some(k + 1)
  }

  /** GetLanguage(): the first language, in list order, that matches `language`; None is the C# null. */
  function GetLanguage(langs: seq<Language>, language: string, tryParseGuid: string -> Option<string>): Option<Language> {
    match FindLanguage(langs, language, tryParseGuid(language))
    case None => None
    case Some(k) => Some(langs[k])
  }

  /** In a list sorted by OrderUI, GetLanguage returns a matching language no later in UI order than any other match. */
  lemma GetLanguageLowestOrder(langs: seq<Language>, language: string, tryParseGuid: string -> Option<string>, j: nat)
    requires SortedByOrderUI(langs)
    requires j < |langs| && Matches(langs[j], language, tryParseGuid(language))
    ensures GetLanguage(langs, language, tryParseGuid).Some?
    ensures GetLanguage(langs, language, tryParseGuid).value.orderUI <= langs[j].orderUI
    ensures Matches(GetLanguage(langs, language, tryParseGuid).value, language, tryParseGuid(language))
  {
    var k := FindLanguage(langs, language, tryParseGuid(language));
    assert k.Some?;
    assert k.value <= j;
  }

  /** dnSpy's Indenter(tabSize, indentSize, useTabs). */
  datatype Indenter = Indenter(tabSize: int, indentSize: int, useTabs: bool)

  /** GetIndenter(): tabs of width 4 unless a positive number of spaces is configured. */
  function GetIndenter(spaces: int): (r: Indenter)
    ensures r.useTabs <==> spaces <= 0
    ensures r.useTabs ==> r.tabSize == 4 && r.indentSize == 4
    ensures !r.useTabs ==> r.tabSize == spaces && r.indentSize == spaces && spaces > 0
  {
    if spaces <= 0 then Indenter(4, 4, true) else Indenter(spaces, spaces, false)
  }

  /** The position of the first option called `name` (Settings.TryGetOption). */
  function FindOption(options: seq<DecompilerOption>, name: string): (r: Option<nat>)
    ensures r.Some? ==> r.value < |options| && options[r.value].name == Some(name)
    ensures r.Some? ==> forall j :: 0 <= j < r.value ==> options[j].name != Some(name)
    ensures r.None? ==> forall j :: 0 <= j < |options| ==> options[j].name != Some(name)
  {
    if options == [] then None
    else if options[0].name == Some(name) then Some(0)
    else
      match FindOption(options[1..], name)
      case None => None
      case Some(k) => Some(k + 1)
  }

  /** RemoveTokenComments on the selected language: its "tokens" option, when it has one, is switched off. */
  function RemoveTokenComments(lang: Language): (r: Language)
    ensures r == lang.(options := r.options)
    ensures |r.options| == |lang.options|
    ensures forall j :: 0 <= j < |r.options| ==>
      r.options[j] == if lang.options[j].name == Some("tokens") && FindOption(lang.options, "tokens") == Some(j)
                      then lang.options[j].(value := BoolValue(false))
                      else lang.options[j]
  {
    match FindOption(lang.options, "tokens")
    case None => lang
    case Some(k) => lang.(options := lang.options[k := lang.options[k].(value := BoolValue(false))])
  }
}
