/** The discriminated union `ToolCallContent` of `acp/api/unions_generated.go`, which nests a content block. */
module ToolCallContents {
  import opened Wrappers
  import opened Json
  import ContentBlocks

  datatype Content = Content(content: Option<ContentBlocks.ContentBlock>)
  datatype Diff = Diff(newText: string, oldText: Json, path: string)
  datatype Terminal = Terminal(terminalId: string)

  datatype ToolCallContent = ToolCallContent(kind: Kind, content: Option<Content>, diff: Option<Diff>,
                                             terminal: Option<Terminal>)

  const ZERO := ToolCallContent(TypeOther(""), None, None, None)

  /** `ToolCallContentType` is a string; these are its constants and every other string. */
  datatype Kind = TypeContent | TypeDiff | TypeTerminal | TypeOther(name: string)

  predicate IsValid(kind: Kind) {
    !kind.TypeOther?
  }

  function KindOf(name: string): Kind {
    if name == "content" then TypeContent
    else if name == "diff" then TypeDiff
    else if name == "terminal" then TypeTerminal
    else TypeOther(name)
  }

  function Name(kind: Kind): string {
    match kind
    case TypeContent => "content"
    case TypeDiff => "diff"
    case TypeTerminal => "terminal"
    case TypeOther(name) => name
  }

  function ContentFields(content: Option<Json>): seq<Field> {
    [Field("type", Some(Str(Name(TypeContent)))), Field("content", content)]
  }

  function DecodeContent(m: map<string, Json>): Result<Content, Failure> {
    match ContentBlocks.DecodePointer(Get(m, "content"))
    case Ok(content) => Ok(Content(content))
    case Err(e) => Err(e)
  }

  function DiffFields(v: Diff): seq<Field> {
    [Field("type", Some(Str(Name(TypeDiff)))), Field("newText", EncodeString(v.newText)),
     Field("oldText", EncodeAny(v.oldText)), Field("path", EncodeString(v.path))]
  }

  function DecodeDiff(m: map<string, Json>): Result<Diff, Failure> {
    var newText, path := DecodeString(Get(m, "newText")), DecodeString(Get(m, "path"));
    if newText.Err? then Err(newText.error)
    else if path.Err? then Err(path.error)
    else Ok(Diff(newText.value, DecodeAny(Get(m, "oldText")), path.value))
  }

  function TerminalFields(v: Terminal): seq<Field> {
    [Field("type", Some(Str(Name(TypeTerminal)))), Field("terminalId", EncodeString(v.terminalId))]
  }

  function DecodeTerminal(m: map<string, Json>): Result<Terminal, Failure> {
    match DecodeString(Get(m, "terminalId"))
    case Ok(terminalId) => Ok(Terminal(terminalId))
    case Err(e) => Err(e)
  }

  /** `MarshalJSON` */
  function Encode(u: ToolCallContent): Result<Json, Failure> {
    match u.kind
    case TypeContent =>
      if u.content.None? then Err(MissingVariant)
      else (match ContentBlocks.EncodePointer(u.content.value.content)
            case Ok(content) => Ok(Object(Pack(ContentFields(content))))
            case Err(e) => Err(e))
    case TypeDiff =>
      if u.diff.None? then Err(MissingVariant) else Ok(Object(Pack(DiffFields(u.diff.value))))
    case TypeTerminal =>
      if u.terminal.None? then Err(MissingVariant)
      else Ok(Object(Pack(TerminalFields(u.terminal.value))))
    case TypeOther(_) => Err(InvalidType)
  }

  datatype Decoded = Decoded(value: ToolCallContent, error: Option<Failure>)

  function DecodeVariant(u: ToolCallContent, m: map<string, Json>): Decoded {
    match u.kind
    case TypeContent =>
      (match DecodeContent(m) case Ok(v) => Decoded(u.(content := Some(v)), None) case Err(e) => Decoded(u, Some(e)))
    case TypeDiff =>
      (match DecodeDiff(m) case Ok(v) => Decoded(u.(diff := Some(v)), None) case Err(e) => Decoded(u, Some(e)))
    case TypeTerminal =>
      (match DecodeTerminal(m) case Ok(v) => Decoded(u.(terminal := Some(v)), None) case Err(e) => Decoded(u, Some(e)))
    case TypeOther(_) => Decoded(u, Some(InvalidType))
  }

  /** `UnmarshalJSON` into the existing value `u` */
  function DecodeInto(u: ToolCallContent, j: Json): Decoded {
    var kind := DecodeDiscriminator(j, "type");
    if kind.Err? then Decoded(u, Some(kind.error))
    else if !IsValid(KindOf(kind.value)) || !j.Object? then Decoded(u, Some(InvalidType))
    else DecodeVariant(u.(kind := KindOf(kind.value)), j.fields)
  }

  function GetContent(u: ToolCallContent): Option<Content> { if u.kind == TypeContent then u.content else None }
  function GetDiff(u: ToolCallContent): Option<Diff> { if u.kind == TypeDiff then u.diff else None }
  function GetTerminal(u: ToolCallContent): Option<Terminal> { if u.kind == TypeTerminal then u.terminal else None }

  /** What the getters show. */
  function Shown(u: ToolCallContent): ToolCallContent {
    ToolCallContent(u.kind, GetContent(u), GetDiff(u), GetTerminal(u))
  }

  /** The type and the active variant, in the nested content block too. */
  function Active(u: ToolCallContent): ToolCallContent {
    var content := GetContent(u);
    var shown := if content.None? then None else Some(Content(ContentBlocks.ActivePointer(content.value.content)));
    Shown(u).(content := shown)
  }

  class ToolCallContentReceiver {
    var kind: Kind
    var content: Option<Content>
    var diff: Option<Diff>
    var terminal: Option<Terminal>

    function View(): ToolCallContent
      reads this
    {
      ToolCallContent(kind, content, diff, terminal)
    }

    constructor (u: ToolCallContent)
      ensures View() == u
    {
      kind, content, diff, terminal := u.kind, u.content, u.diff, u.terminal;
    }

    method UnmarshalJSON(j: Json) returns (error: Option<Failure>)
      modifies this
      ensures Decoded(View(), error) == DecodeInto(old(View()), j)
    {
      var discriminator := DecodeDiscriminator(j, "type");
      if discriminator.Err? {
        return Some(discriminator.error);
      }
      if !IsValid(KindOf(discriminator.value)) || !j.Object? {
        return Some(InvalidType);
      }
      kind := KindOf(discriminator.value);
      error := None;
      match kind
      case TypeContent =>
        var v := DecodeContent(j.fields);
        if v.Err? { return Some(v.error); }
        content := Some(v.value);
      case TypeDiff =>
        var v := DecodeDiff(j.fields);
        if v.Err? { return Some(v.error); }
        diff := Some(v.value);
      case TypeTerminal =>
        var v := DecodeTerminal(j.fields);
        if v.Err? { return Some(v.error); }
        terminal := Some(v.value);
    }
  }

  lemma ContentRoundTrip(v: Content)
    requires ContentBlocks.EncodePointer(v.content).Ok?
    ensures var m := Pack(ContentFields(ContentBlocks.EncodePointer(v.content).value));
            && Get(m, "type") == Some(Str(Name(TypeContent))) && DecodeContent(m).Ok?
            && (DecodeContent(m).value == Content(ContentBlocks.ActivePointer(v.content)) <==>
                !ContentBlocks.NilInterfaceAt(v.content))
  {
    var f := ContentFields(ContentBlocks.EncodePointer(v.content).value);
    assert f[0].key == "type" && f[1].key == "content";
    AllOfPack(f);
    ContentBlocks.PointerRoundTrip(v.content);
  }

  lemma DiffRoundTrip(v: Diff)
    ensures var m := Pack(DiffFields(v)); Get(m, "type") == Some(Str(Name(TypeDiff))) && DecodeDiff(m) == Ok(v)
  {
    var f := DiffFields(v);
    assert f[0].key == "type" && f[1].key == "newText" && f[2].key == "oldText" && f[3].key == "path";
    AllOfPack(f);
  }

  lemma TerminalRoundTrip(v: Terminal)
    ensures var m := Pack(TerminalFields(v));
            Get(m, "type") == Some(Str(Name(TypeTerminal))) && DecodeTerminal(m) == Ok(v)
  {
    var f := TerminalFields(v);
    assert f[0].key == "type" && f[1].key == "terminalId";
    AllOfPack(f);
  }

  /** As for content blocks, through the nested one. */
  lemma RoundTrip(u: ToolCallContent)
    requires Encode(u).Ok?
    ensures var d := DecodeInto(ZERO, Encode(u).value);
            && d.error.None?
            && (d.value == Active(u) <==>
                !(u.kind == TypeContent && ContentBlocks.NilInterfaceAt(u.content.value.content)))
  {
    match u.kind
    case TypeContent => ContentRoundTrip(u.content.value);
    case TypeDiff => DiffRoundTrip(u.diff.value);
    case TypeTerminal => TerminalRoundTrip(u.terminal.value);
  }

  lemma DecodedValuesRoundTrip(j: Json)
    requires DecodeInto(ZERO, j).error.None?
    ensures var v := DecodeInto(ZERO, j).value;
            Encode(v).Ok? && DecodeInto(ZERO, Encode(v).value) == Decoded(v, None)
  {
    var v := DecodeInto(ZERO, j).value;
    if v.kind == TypeContent {
      ContentBlocks.DecodedPointers(Get(j.fields, "content"));
    }
    RoundTrip(v);
  }

  lemma DecodeOverwrites(u: ToolCallContent, j: Json)
    ensures DecodeInto(u, j).error == DecodeInto(ZERO, j).error
    ensures DecodeInto(u, j).error.None? ==>
              var v := DecodeInto(u, j).value;
              var pristine := DecodeInto(ZERO, j).value;
              Shown(v) == pristine && Encode(v) == Encode(pristine)
  {
  }

  lemma FailedDecodeKeepsVariants(u: ToolCallContent, j: Json)
    requires DecodeInto(u, j).error.Some?
    ensures var v := DecodeInto(u, j).value;
            var kind := DecodeDiscriminator(j, "type");
            && v == u.(kind := v.kind)
            && (v == u <==> kind.Err? || !IsValid(KindOf(kind.value)) || KindOf(kind.value) == u.kind)
  {
  }

  // ---- The wire format, key by key ----

  lemma ContentIsWritten(u: ToolCallContent)
    requires u.kind == TypeContent && u.content.Some?
    ensures var block := u.content.value.content;
            && (Encode(u).Ok? <==> block.Some? ==> ContentBlocks.Encode(block.value).Ok?)
            && (Encode(u).Ok? ==>
                  && Encode(u).value.Object? && var m := Encode(u).value.fields;
                  && HasOnly(m, {"type", "content"}) && SaysText(m, "type", "content")
                  && ("content" in m <==> block.Some?)
                  && (block.Some? ==> m["content"] == ContentBlocks.Encode(block.value).value))
            && (Encode(u).Err? ==> Encode(u).error == ContentBlocks.Encode(block.value).error)
  {
    if Encode(u).Ok? {
      var f := ContentFields(ContentBlocks.EncodePointer(u.content.value.content).value);
      assert f[0].key == "type" && f[1].key == "content";
      AllOfPack(f);
      OnlyKeysOf(f, {"type", "content"});
    }
  }

  lemma DiffIsWritten(u: ToolCallContent)
    requires u.kind == TypeDiff && u.diff.Some?
    ensures Encode(u).Ok? && Encode(u).value.Object?
    ensures var m, v := Encode(u).value.fields, u.diff.value;
            && HasOnly(m, {"type", "newText", "oldText", "path"}) && SaysText(m, "type", "diff")
            && SaysText(m, "newText", v.newText) && SaysAny(m, "oldText", v.oldText) && SaysText(m, "path", v.path)
  {
    var f := DiffFields(u.diff.value);
    assert f[0].key == "type" && f[1].key == "newText" && f[2].key == "oldText" && f[3].key == "path";
    AllOfPack(f);
    OnlyKeysOf(f, {"type", "newText", "oldText", "path"});
  }

  lemma TerminalIsWritten(u: ToolCallContent)
    requires u.kind == TypeTerminal && u.terminal.Some?
    ensures Encode(u).Ok? && Encode(u).value.Object?
    ensures var m := Encode(u).value.fields;
            && HasOnly(m, {"type", "terminalId"}) && SaysText(m, "type", "terminal")
            && SaysText(m, "terminalId", u.terminal.value.terminalId)
  {
    var f := TerminalFields(u.terminal.value);
    assert f[0].key == "type" && f[1].key == "terminalId";
    AllOfPack(f);
    OnlyKeysOf(f, {"type", "terminalId"});
  }

  /** Writing fails for a type that is not one of the three, and for one whose variant is missing. */
  lemma WrittenOnlyIfThere(u: ToolCallContent)
    ensures u.kind.TypeOther? ==> Encode(u) == Err(InvalidType)
    ensures u.kind == TypeContent && u.content.None? ==> Encode(u) == Err(MissingVariant)
    ensures u.kind == TypeDiff && u.diff.None? ==> Encode(u) == Err(MissingVariant)
    ensures u.kind == TypeTerminal && u.terminal.None? ==> Encode(u) == Err(MissingVariant)
  {
  }

  predicate ShowsOnly(u: ToolCallContent, name: string) {
    && (GetContent(u).Some? <==> name == "content")
    && (GetDiff(u).Some? <==> name == "diff")
    && (GetTerminal(u).Some? <==> name == "terminal")
  }

  lemma OnlyTypedObjectsAreRead(u: ToolCallContent, j: Json)
    requires DecodeInto(u, j).error.None?
    ensures j.Object? && "type" in j.fields && j.fields["type"].Str?
    ensures j.fields["type"].s in {"content", "diff", "terminal"}
    ensures var v, name := DecodeInto(u, j).value, j.fields["type"].s;
            && (GetContent(v).Some? <==> name == "content")
            && (GetDiff(v).Some? <==> name == "diff")
            && (GetTerminal(v).Some? <==> name == "terminal")
  {
  }

  lemma OthersAreRejected(u: ToolCallContent, j: Json)
    requires j.Object? && "type" in j.fields && j.fields["type"].Str? ==>
               j.fields["type"].s !in {"content", "diff", "terminal"}
    ensures DecodeInto(u, j).value == u
    ensures DecodeInto(u, j).error ==
            Some(if j.Null? || (j.Object? && !BadText(j.fields, "type")) then InvalidType else WrongType)
  {
  }

  lemma ContentIsRead(u: ToolCallContent, m: map<string, Json>)
    requires "type" in m && m["type"] == Str("content")
    ensures var d := DecodeInto(u, Object(m));
            if Absent(m, "content") then d.error.None? && GetContent(d.value) == Some(Content(None))
            else var block := ContentBlocks.DecodeInto(ContentBlocks.ZERO, m["content"]);
              && d.error == block.error
              && (d.error.None? ==> GetContent(d.value) == Some(Content(Some(block.value))))
  {
  }

  lemma DiffIsRead(u: ToolCallContent, m: map<string, Json>)
    requires "type" in m && m["type"] == Str("diff")
    ensures var d := DecodeInto(u, Object(m));
            && d.error == (if BadText(m, "newText") || BadText(m, "path") then Some(WrongType) else None)
            && (d.error.None? ==>
                  && ShowsOnly(d.value, "diff") && var v := GetDiff(d.value).value;
                  && ReadsText(m, "newText", v.newText) && ReadsAny(m, "oldText", v.oldText)
                  && ReadsText(m, "path", v.path))
  {
  }

  lemma TerminalIsRead(u: ToolCallContent, m: map<string, Json>)
    requires "type" in m && m["type"] == Str("terminal")
    ensures var d := DecodeInto(u, Object(m));
            && d.error == (if BadText(m, "terminalId") then Some(WrongType) else None)
            && (d.error.None? ==>
                  && ShowsOnly(d.value, "terminal")
                  && ReadsText(m, "terminalId", GetTerminal(d.value).value.terminalId))
  {
  }
}
