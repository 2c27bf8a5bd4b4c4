/**
 * Colourised console output for single-member decompilation (setup/Setup/DecompileTask.cs:369-482 and
 * CreateColorProvider at 1395-1449): a table from dnSpy text colours to console colours, and an output
 * that tracks how many characters it has written and whether the next text must be preceded by the
 * current indentation.
 *
 * The console is a log: every write is a segment that records its text and the console colours that were
 * in force while it was written (None: the colours were left alone).
 */
module ConsoleOutput {
  import opened Outcomes

  datatype ConsoleColor = Black | DarkBlue | DarkGreen | DarkCyan | DarkRed | DarkMagenta | DarkYellow | Gray
    | DarkGray | Blue | Green | Cyan | Red | Magenta | Yellow | White

  /** dnSpy's TextColor: the values the colour table mentions, and every other value as Unlisted. */
  datatype TextColor =
    | Operator | Punctuation | Number | Comment | Keyword | String | VerbatimString | Char | Namespace
    | Type | SealedType | StaticType | Delegate | Enum | Interface | ValueType | Module
    | TypeGenericParameter | MethodGenericParameter | InstanceMethod | StaticMethod | ExtensionMethod
    | InstanceField | EnumField | LiteralField | StaticField | InstanceEvent | StaticEvent
    | InstanceProperty | StaticProperty | Local | Parameter | PreprocessorKeyword | PreprocessorText
    | Label | OpCode | ILDirective | ILModule | ExcludedCode
    | XmlDocCommentAttributeName | XmlDocCommentAttributeQuotes | XmlDocCommentAttributeValue
    | XmlDocCommentCDataSection | XmlDocCommentComment | XmlDocCommentDelimiter
    | XmlDocCommentEntityReference | XmlDocCommentName | XmlDocCommentProcessingInstruction
    | XmlDocCommentText | Error
    | Unlisted(id: nat)

  /** ConsoleColorPair: either colour may be absent. */
  datatype ConsoleColorPair = ConsoleColorPair(foreground: Option<ConsoleColor>, background: Option<ConsoleColor>)

  predicate HasColor(p: ConsoleColorPair)
  {
    p.foreground.Some? || p.background.Some?
  }

  /** A mapping from text colours to console colours that only holds pairs with at least one colour. */
  class ColorProvider {
    var colors: map<TextColor, ConsoleColorPair>

    ghost predicate Valid()
      reads this
    {
      forall c :: c in colors ==> HasColor(colors[c])
    }

    constructor ()
      ensures Valid() && colors == map[]
    {
      colors := map[];
    }

    /** A pair with no colour at all is not recorded; otherwise the latest pair for a colour wins. */
    method Add(color: TextColor, foreground: Option<ConsoleColor>, background: Option<ConsoleColor>)
      requires Valid()
      modifies this
      ensures Valid()
      ensures colors == if HasColor(ConsoleColorPair(foreground, background))
                        then old(colors)[color := ConsoleColorPair(foreground, background)]
                        else old(colors)
    {
      if foreground.Some? || background.Some? {
        colors := colors[color := ConsoleColorPair(foreground, background)];
      }
    }

    /** The pair recorded for a colour; None when the written object is not a text colour or has no pair. */
    function GetColor(color: Option<TextColor>): (r: Option<ConsoleColorPair>)
      reads this
      ensures r.Some? <==> color.Some? && color.value in colors
      ensures r.Some? ==> r.value == colors[color.value]
      ensures Valid() && r.Some? ==> HasColor(r.value)
    {
      if color.None? then None
      else if color.value in colors then Some(colors[color.value])
      else None
    }
  }

  /**
   * The pairs CreateColorProvider records, in the order it adds them. Operator, Punctuation, Number,
   * PreprocessorText and ExcludedCode are added with no colour at all and so are absent, and no pair sets a
   * background colour.
   */
  const DefaultColors: map<TextColor, ConsoleColorPair> := map[
    Comment := ConsoleColorPair(Some(Green), None),
    Keyword := ConsoleColorPair(Some(Cyan), None),
    String := ConsoleColorPair(Some(DarkYellow), None),
    VerbatimString := ConsoleColorPair(Some(DarkYellow), None),
    Char := ConsoleColorPair(Some(DarkYellow), None),
    Namespace := ConsoleColorPair(Some(Yellow), None),
    Type := ConsoleColorPair(Some(Magenta), None),
    SealedType := ConsoleColorPair(Some(Magenta), None),
    StaticType := ConsoleColorPair(Some(Magenta), None),
    Delegate := ConsoleColorPair(Some(Magenta), None),
    Enum := ConsoleColorPair(Some(Magenta), None),
    Interface := ConsoleColorPair(Some(Magenta), None),
    ValueType := ConsoleColorPair(Some(Green), None),
    Module := ConsoleColorPair(Some(DarkMagenta), None),
    TypeGenericParameter := ConsoleColorPair(Some(Magenta), None),
    MethodGenericParameter := ConsoleColorPair(Some(Magenta), None),
    InstanceMethod := ConsoleColorPair(Some(DarkYellow), None),
    StaticMethod := ConsoleColorPair(Some(DarkYellow), None),
    ExtensionMethod := ConsoleColorPair(Some(DarkYellow), None),
    InstanceField := ConsoleColorPair(Some(Magenta), None),
    EnumField := ConsoleColorPair(Some(Magenta), None),
    LiteralField := ConsoleColorPair(Some(Magenta), None),
    StaticField := ConsoleColorPair(Some(Magenta), None),
    InstanceEvent := ConsoleColorPair(Some(Magenta), None),
    StaticEvent := ConsoleColorPair(Some(Magenta), None),
    InstanceProperty := ConsoleColorPair(Some(Magenta), None),
    StaticProperty := ConsoleColorPair(Some(Magenta), None),
    Local := ConsoleColorPair(Some(White), None),
    Parameter := ConsoleColorPair(Some(White), None),
    PreprocessorKeyword := ConsoleColorPair(Some(Blue), None),
    Label := ConsoleColorPair(Some(DarkRed), None),
    OpCode := ConsoleColorPair(Some(Cyan), None),
    ILDirective := ConsoleColorPair(Some(Cyan), None),
    ILModule := ConsoleColorPair(Some(DarkMagenta), None),
    XmlDocCommentAttributeName := ConsoleColorPair(Some(DarkGreen), None),
    XmlDocCommentAttributeQuotes := ConsoleColorPair(Some(DarkGreen), None),
    XmlDocCommentAttributeValue := ConsoleColorPair(Some(DarkGreen), None),
    XmlDocCommentCDataSection := ConsoleColorPair(Some(DarkGreen), None),
    XmlDocCommentComment := ConsoleColorPair(Some(DarkGreen), None),
    XmlDocCommentDelimiter := ConsoleColorPair(Some(DarkGreen), None),
    XmlDocCommentEntityReference := ConsoleColorPair(Some(DarkGreen), None),
    XmlDocCommentName := ConsoleColorPair(Some(DarkGreen), None),
    XmlDocCommentProcessingInstruction := ConsoleColorPair(Some(DarkGreen), None),
    XmlDocCommentText := ConsoleColorPair(Some(DarkGreen), None),
    Error := ConsoleColorPair(Some(Red), None)
  ]

  /** CreateColorProvider: the table of colours used when decompiled code is written to the console. */
  method CreateColorProvider() returns (p: ColorProvider)
    ensures fresh(p) && p.Valid()
    ensures p.colors == DefaultColors
  {
    p := new ColorProvider();
    p.Add(Operator, None, None);
    p.Add(Punctuation, None, None);
    p.Add(Number, None, None);
    p.Add(Comment, Some(Green), None);
    p.Add(Keyword, Some(Cyan), None);
    p.Add(String, Some(DarkYellow), None);
    p.Add(VerbatimString, Some(DarkYellow), None);
    p.Add(Char, Some(DarkYellow), None);
    p.Add(Namespace, Some(Yellow), None);
    p.Add(Type, Some(Magenta), None);
    p.Add(SealedType, Some(Magenta), None);
    p.Add(StaticType, Some(Magenta), None);
    p.Add(Delegate, Some(Magenta), None);
    p.Add(Enum, Some(Magenta), None);
    p.Add(Interface, Some(Magenta), None);
    p.Add(ValueType, Some(Green), None);
    p.Add(Module, Some(DarkMagenta), None);
    p.Add(TypeGenericParameter, Some(Magenta), None);
    p.Add(MethodGenericParameter, Some(Magenta), None);
    p.Add(InstanceMethod, Some(DarkYellow), None);
    p.Add(StaticMethod, Some(DarkYellow), None);
    p.Add(ExtensionMethod, Some(DarkYellow), None);
    p.Add(InstanceField, Some(Magenta), None);
    p.Add(EnumField, Some(Magenta), None);
    p.Add(LiteralField, Some(Magenta), None);
    p.Add(StaticField, Some(Magenta), None);
    p.Add(InstanceEvent, Some(Magenta), None);
    p.Add(StaticEvent, Some(Magenta), None);
    p.Add(InstanceProperty, Some(Magenta), None);
    p.Add(StaticProperty, Some(Magenta), None);
    p.Add(Local, Some(White), None);
    p.Add(Parameter, Some(White), None);
    p.Add(PreprocessorKeyword, Some(Blue), None);
    p.Add(PreprocessorText, None, None);
    p.Add(Label, Some(DarkRed), None);
    p.Add(OpCode, Some(Cyan), None);
    p.Add(ILDirective, Some(Cyan), None);
    p.Add(ILModule, Some(DarkMagenta), None);
    p.Add(ExcludedCode, None, None);
    p.Add(XmlDocCommentAttributeName, Some(DarkGreen), None);
    p.Add(XmlDocCommentAttributeQuotes, Some(DarkGreen), None);
    p.Add(XmlDocCommentAttributeValue, Some(DarkGreen), None);
    p.Add(XmlDocCommentCDataSection, Some(DarkGreen), None);
    p.Add(XmlDocCommentComment, Some(DarkGreen), None);
    p.Add(XmlDocCommentDelimiter, Some(DarkGreen), None);
    p.Add(XmlDocCommentEntityReference, Some(DarkGreen), None);
    p.Add(XmlDocCommentName, Some(DarkGreen), None);
    p.Add(XmlDocCommentProcessingInstruction, Some(DarkGreen), None);
    p.Add(XmlDocCommentText, Some(DarkGreen), None);
    p.Add(Error, Some(Red), None);
  }

  /** One write to the console: its text and the colours set while it was written. */
  datatype Segment = Segment(text: string, colors: Option<ConsoleColorPair>)

  /** Everything the segments wrote, in order. */
  function Written(segments: seq<Segment>): string
  {
    if segments == [] then [] else Written(segments[..|segments| - 1]) + segments[|segments| - 1].text
  }

  lemma {:induction false} WrittenAppend(a: seq<Segment>, b: seq<Segment>)
    ensures Written(a + b) == Written(a) + Written(b)
    decreases |b|
  {
    if b == [] {
      assert a + b == a;
    } else {
      calc {
        Written(a + b);
        { assert (a + b)[..|a + b| - 1] == a + b[..|b| - 1]; }
        Written(a + b[..|b| - 1]) + b[|b| - 1].text;
        { WrittenAppend(a, b[..|b| - 1]); }
        Written(a) + Written(b[..|b| - 1]) + b[|b| - 1].text;
      }
    }
  }

  /**
   * ConsoleColorizerOutput. The Indenter it is given is dnSpy's; its String at each indent level is the
   * parameter indentString, and the level is kept here.
   */
  class ConsoleColorizerOutput {
    const colorProvider: ColorProvider
    const newLine: string
    const indentString: int -> string
    var indentLevel: int
    var addIndent: bool
    var position: int
    var segments: seq<Segment>

    ghost predicate Valid()
      reads this, colorProvider
    {
      colorProvider.Valid() && position == |Written(segments)|
      && forall i :: 0 <= i < |segments| && segments[i].colors.Some? ==> HasColor(segments[i].colors.value)
    }

    /** ToString: what has been written so far. */
    function Output(): string
      reads this
    {
      Written(segments)
    }

    constructor (colorProvider: ColorProvider, newLine: string, indentString: int -> string, indentLevel: int)
      requires colorProvider.Valid()
      ensures Valid() && Output() == [] && Length() == 0 && addIndent
      ensures this.colorProvider == colorProvider && this.newLine == newLine
      ensures this.indentString == indentString && this.indentLevel == indentLevel
    {
      this.colorProvider := colorProvider;
      this.newLine := newLine;
      this.indentString := indentString;
      this.indentLevel := indentLevel;
      addIndent := true;
      position := 0;
      segments := [];
    }

    /** Length: the number of characters written so far. */
    function Length(): (r: int)
      reads this, colorProvider
      ensures Valid() ==> r == |Output()|
    {
      position
    }

    /** NextPosition: where the next text will start, after any pending indentation. */
    function NextPosition(): (r: int)
      reads this
    {
      position + if addIndent then |indentString(indentLevel)| else 0
    }

    method IncreaseIndent()
      modifies this
      ensures indentLevel == old(indentLevel) + 1
      ensures addIndent == old(addIndent) && position == old(position) && segments == old(segments)
    {
      indentLevel := indentLevel + 1;
    }

    method DecreaseIndent()
      modifies this
      ensures indentLevel == old(indentLevel) - 1
      ensures addIndent == old(addIndent) && position == old(position) && segments == old(segments)
    {
      indentLevel := indentLevel - 1;
    }

    /** Writes one segment and advances the position by its length. */
    method Emit(s: Segment)
      requires Valid()
      requires s.colors.Some? ==> HasColor(s.colors.value)
      modifies this
      ensures Valid()
      ensures segments == old(segments) + [s] && Output() == old(Output()) + s.text
      ensures position == old(position) + |s.text|
      ensures addIndent == old(addIndent) && indentLevel == old(indentLevel)
    {
      WrittenAppend(segments, [s]);
      assert Written([s]) == s.text by {
        assert [s][..0] == [];
      }
      segments := segments + [s];
      position := position + |s.text|;
    }

    /** WriteLine: writes the newline and asks for indentation before the next text. */
    method WriteLine()
      requires Valid()
      modifies this
      ensures Valid()
      ensures Output() == old(Output()) + newLine && Length() == old(Length()) + |newLine|
      ensures segments == old(segments) + [Segment(newLine, None)]
      ensures addIndent && indentLevel == old(indentLevel)
    {
      Emit(Segment(newLine, None));
      addIndent := true;
    }

    /** AddIndent: writes the indentation once, if one is pending. */
    method AddIndent()
      requires Valid()
      modifies this
      ensures Valid()
      ensures old(addIndent) ==> segments == old(segments) + [Segment(indentString(indentLevel), None)]
      ensures !old(addIndent) ==> segments == old(segments)
      ensures Length() == old(NextPosition()) && !addIndent && indentLevel == old(indentLevel)
    {
      if !addIndent {
        return;
      }
      addIndent := false;
      Emit(Segment(indentString(indentLevel), None));
    }

    /**
     * Write (AddText): pending indentation first, then the text, coloured by the provider's pair for the
     * object's text colour. The text lands exactly at the NextPosition that held before the call.
     */
    method Write(text: string, color: Option<TextColor>)
      requires Valid()
      modifies this
      ensures Valid() && !addIndent && indentLevel == old(indentLevel)
      ensures Output() == old(Output()) + (if old(addIndent) then indentString(indentLevel) else []) + text
      ensures Length() == old(NextPosition()) + |text|
      ensures Output()[old(NextPosition())..] == text
      ensures |segments| > 0 && segments[|segments| - 1] == Segment(text, colorProvider.GetColor(color))
    {
      AddIndent();
      Emit(Segment(text, colorProvider.GetColor(color)));
    }

    /** Write of text[index..index + length]; the whole text is written as is. */
    method WriteRange(text: string, index: int, length: int, color: Option<TextColor>)
      requires 0 <= index && 0 <= length && index + length <= |text|
      requires Valid()
      modifies this
      ensures Valid() && !addIndent && indentLevel == old(indentLevel)
      ensures Output() == old(Output()) + (if old(addIndent) then indentString(indentLevel) else [])
                          + text[index..index + length]
      ensures Output()[old(NextPosition())..] == text[index..index + length]
    {
      if index == 0 && length == |text| {
        assert text[index..index + length] == text;
        Write(text, color);
      } else {
        Write(text[index..index + length], color);
      }
    }
  }
}
