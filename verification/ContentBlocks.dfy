/** The discriminated union `ContentBlock` of `acp/api/unions_generated.go`. */
module ContentBlocks {
  import opened Wrappers
  import opened Json

  datatype Audio = Audio(annotations: Json, data: string, mimeType: string)
  datatype Image = Image(annotations: Json, data: string, mimeType: string, uri: Json)
  /** `resource` points to an interface; `Some(Null)` is a pointer to a nil interface. */
  datatype Resource = Resource(annotations: Json, resource: Option<Json>)
  datatype ResourceLink = ResourceLink(annotations: Json, description: Json, mimeType: Json, name: string,
                                       size: Json, title: Json, uri: string)
  datatype Text = Text(annotations: Json, text: string)

  /** The type and one pointer per variant; nothing forces the other pointers to be nil. */
  datatype ContentBlock = ContentBlock(
    kind: Kind,
    audio: Option<Audio>,
    image: Option<Image>,
    resource: Option<Resource>,
    resourceLink: Option<ResourceLink>,
    text: Option<Text>)

  const ZERO := ContentBlock(TypeOther(""), None, None, None, None, None)

  predicate IsValid(kind: Kind) {
    !kind.TypeOther?
  }

  /** `ContentBlockType` is a string; these are its constants and every other string. */
  datatype Kind = TypeAudio | TypeImage | TypeResource | TypeResourceLink | TypeText | TypeOther(name: string)

  function KindOf(name: string): Kind {
    if name == "audio" then TypeAudio
    else if name == "image" then TypeImage
    else if name == "resource" then TypeResource
    else if name == "resource_link" then TypeResourceLink
    else if name == "text" then TypeText
    else TypeOther(name)
  }

  function Name(kind: Kind): string {
    match kind
    case TypeAudio => "audio"
    case TypeImage => "image"
    case TypeResource => "resource"
    case TypeResourceLink => "resource_link"
    case TypeText => "text"
    case TypeOther(name) => name
  }

  /** The discriminator's string names the kind. */
  lemma KindOfName(kind: Kind)
    requires IsValid(kind)
    ensures KindOf(Name(kind)) == kind
  {
  }

  // ---- Variants ----

  function AudioFields(v: Audio): seq<Field> {
    [Field("type", Some(Str(Name(TypeAudio)))), Field("annotations", EncodeAny(v.annotations)),
     Field("data", EncodeString(v.data)), Field("mimeType", EncodeString(v.mimeType))]
  }

  function DecodeAudio(m: map<string, Json>): Result<Audio, Failure> {
    var data, mimeType := DecodeString(Get(m, "data")), DecodeString(Get(m, "mimeType"));
    if data.Err? then Err(data.error)
    else if mimeType.Err? then Err(mimeType.error)
    else Ok(Audio(DecodeAny(Get(m, "annotations")), data.value, mimeType.value))
  }

  function ImageFields(v: Image): seq<Field> {
    [Field("type", Some(Str(Name(TypeImage)))), Field("annotations", EncodeAny(v.annotations)),
     Field("data", EncodeString(v.data)), Field("mimeType", EncodeString(v.mimeType)), Field("uri", EncodeAny(v.uri))]
  }

  function DecodeImage(m: map<string, Json>): Result<Image, Failure> {
    var data, mimeType := DecodeString(Get(m, "data")), DecodeString(Get(m, "mimeType"));
    if data.Err? then Err(data.error)
    else if mimeType.Err? then Err(mimeType.error)
    else Ok(Image(DecodeAny(Get(m, "annotations")), data.value, mimeType.value, DecodeAny(Get(m, "uri"))))
  }

  function ResourceFields(v: Resource): seq<Field> {
    [Field("type", Some(Str(Name(TypeResource)))), Field("annotations", EncodeAny(v.annotations)),
     Field("resource", v.resource)]
  }

  /** Both fields accept any JSON, so this never fails. */
  function DecodeResource(m: map<string, Json>): Resource {
    Resource(DecodeAny(Get(m, "annotations")), DecodeAnyPointer(Get(m, "resource")))
  }

  function ResourceLinkFields(v: ResourceLink): seq<Field> {
    [Field("type", Some(Str(Name(TypeResourceLink)))), Field("annotations", EncodeAny(v.annotations)),
     Field("description", EncodeAny(v.description)), Field("mimeType", EncodeAny(v.mimeType)),
     Field("name", EncodeString(v.name)), Field("size", EncodeAny(v.size)), Field("title", EncodeAny(v.title)),
     Field("uri", EncodeString(v.uri))]
  }

  function DecodeResourceLink(m: map<string, Json>): Result<ResourceLink, Failure> {
    var name, uri := DecodeString(Get(m, "name")), DecodeString(Get(m, "uri"));
    if name.Err? then Err(name.error)
    else if uri.Err? then Err(uri.error)
    else Ok(ResourceLink(DecodeAny(Get(m, "annotations")), DecodeAny(Get(m, "description")),
                         DecodeAny(Get(m, "mimeType")),
                         name.value, DecodeAny(Get(m, "size")), DecodeAny(Get(m, "title")), uri.value))
  }

  function TextFields(v: Text): seq<Field> {
    [Field("type", Some(Str(Name(TypeText)))), Field("annotations", EncodeAny(v.annotations)),
     Field("text", EncodeString(v.text))]
  }

  function DecodeText(m: map<string, Json>): Result<Text, Failure> {
    var text := DecodeString(Get(m, "text"));
    if text.Err? then Err(text.error) else Ok(Text(DecodeAny(Get(m, "annotations")), text.value))
  }

  // ---- The union ----

  /** `MarshalJSON` */
  function Encode(u: ContentBlock): Result<Json, Failure> {
    if u.kind == TypeAudio then
      if u.audio.None? then Err(MissingVariant) else Ok(Object(Pack(AudioFields(u.audio.value))))
    else if u.kind == TypeImage then
      if u.image.None? then Err(MissingVariant) else Ok(Object(Pack(ImageFields(u.image.value))))
    else if u.kind == TypeResource then
      if u.resource.None? then Err(MissingVariant)
      else Ok(Object(Pack(ResourceFields(u.resource.value))))
    else if u.kind == TypeResourceLink then
      if u.resourceLink.None? then Err(MissingVariant)
      else Ok(Object(Pack(ResourceLinkFields(u.resourceLink.value))))
    else if u.kind == TypeText then
      if u.text.None? then Err(MissingVariant) else Ok(Object(Pack(TextFields(u.text.value))))
    else Err(InvalidType)
  }

  /** What decoding leaves in the receiver, and the error it returns. */
  datatype Decoded = Decoded(value: ContentBlock, error: Option<Failure>)

  /** The variant named by the type, decoded over `u`. */
  function DecodeVariant(u: ContentBlock, m: map<string, Json>): Decoded {
    match u.kind
    case TypeAudio =>
      (match DecodeAudio(m) case Ok(v) => Decoded(u.(audio := Some(v)), None) case Err(e) => Decoded(u, Some(e)))
    case TypeImage =>
      (match DecodeImage(m) case Ok(v) => Decoded(u.(image := Some(v)), None) case Err(e) => Decoded(u, Some(e)))
    case TypeResource =>
      Decoded(u.(resource := Some(DecodeResource(m))), None)
    case TypeResourceLink =>
      (match DecodeResourceLink(m)
       case Ok(v) => Decoded(u.(resourceLink := Some(v)), None)
       case Err(e) => Decoded(u, Some(e)))
    case TypeText =>
      (match DecodeText(m) case Ok(v) => Decoded(u.(text := Some(v)), None) case Err(e) => Decoded(u, Some(e)))
    case _ => Decoded(u, Some(InvalidType))
  }

  /** `UnmarshalJSON` into the existing value `u` */
  function DecodeInto(u: ContentBlock, j: Json): Decoded {
    var kind := DecodeDiscriminator(j, "type");
    if kind.Err? then Decoded(u, Some(kind.error))
    else if !IsValid(KindOf(kind.value)) || !j.Object? then Decoded(u, Some(InvalidType))
    else DecodeVariant(u.(kind := KindOf(kind.value)), j.fields)
  }

  /** `GetAudio` and its four siblings */
  function GetAudio(u: ContentBlock): Option<Audio> { if u.kind == TypeAudio then u.audio else None }
  function GetImage(u: ContentBlock): Option<Image> { if u.kind == TypeImage then u.image else None }
  function GetResource(u: ContentBlock): Option<Resource> { if u.kind == TypeResource then u.resource else None }
  function GetResourceLink(u: ContentBlock): Option<ResourceLink> {
    if u.kind == TypeResourceLink then u.resourceLink else None
  }
  function GetText(u: ContentBlock): Option<Text> { if u.kind == TypeText then u.text else None }

  /** What the getters show: the type, the active variant, and no other. */
  function Active(u: ContentBlock): ContentBlock {
    ContentBlock(u.kind, GetAudio(u), GetImage(u), GetResource(u), GetResourceLink(u), GetText(u))
  }

  // ---- The receiver of `UnmarshalJSON` ----

  class ContentBlockReceiver {
    var kind: Kind
    var audio: Option<Audio>
    var image: Option<Image>
    var resource: Option<Resource>
    var resourceLink: Option<ResourceLink>
    var text: Option<Text>

    function View(): ContentBlock
      reads this
    {
      ContentBlock(kind, audio, image, resource, resourceLink, text)
    }

    constructor (u: ContentBlock)
      ensures View() == u
    {
      kind, audio, image, resource, resourceLink, text := u.kind, u.audio, u.image, u.resource, u.resourceLink, u.text;
    }

    /** Sets the type first and the variant last; an error in between leaves the new type standing. */
    method UnmarshalJSON(j: Json) returns (error: Option<Failure>)
      modifies this
      ensures Decoded(View(), error) == DecodeInto(old(View()), j)
    {
      var discriminator := DecodeDiscriminator(j, "type");
      if discriminator.Err? {
        return Some(discriminator.error);
      }
      if !IsValid(KindOf(discriminator.value)) || !j.Object? {
        return Some(InvalidType);
      }
      kind := KindOf(discriminator.value);
      error := None;
      match kind
      case TypeAudio =>
        var v := DecodeAudio(j.fields);
        if v.Err? { return Some(v.error); }
        audio := Some(v.value);
      case TypeImage =>
        var v := DecodeImage(j.fields);
        if v.Err? { return Some(v.error); }
        image := Some(v.value);
      case TypeResource =>
        resource := Some(DecodeResource(j.fields));
      case TypeResourceLink =>
        var v := DecodeResourceLink(j.fields);
        if v.Err? { return Some(v.error); }
        resourceLink := Some(v.value);
      case TypeText =>
        var v := DecodeText(j.fields);
        if v.Err? { return Some(v.error); }
        text := Some(v.value);
      case _ => error := Some(InvalidType);
    }
  }

  // ---- Round trips ----

  lemma AudioRoundTrip(v: Audio)
    ensures var m := Pack(AudioFields(v)); Get(m, "type") == Some(Str(Name(TypeAudio))) && DecodeAudio(m) == Ok(v)
  {
    var f := AudioFields(v);
    assert f[0].key == "type" && f[1].key == "annotations" && f[2].key == "data" && f[3].key == "mimeType";
    AllOfPack(f);
  }

  lemma ImageRoundTrip(v: Image)
    ensures var m := Pack(ImageFields(v)); Get(m, "type") == Some(Str(Name(TypeImage))) && DecodeImage(m) == Ok(v)
  {
    var f := ImageFields(v);
    assert f[0].key == "type" && f[1].key == "annotations" && f[2].key == "data" && f[3].key == "mimeType"
        && f[4].key == "uri";
    AllOfPack(f);
  }

  /** A pointer to a nil interface is written as null and comes back as a nil pointer. */
  lemma ResourceRoundTrip(v: Resource)
    ensures var m := Pack(ResourceFields(v));
            && Get(m, "type") == Some(Str(Name(TypeResource)))
            && DecodeResource(m) == if v.resource == Some(Null) then v.(resource := None) else v
  {
    var f := ResourceFields(v);
    assert f[0].key == "type" && f[1].key == "annotations" && f[2].key == "resource";
    AllOfPack(f);
  }

  lemma LinkKeysAreDistinct(v: ResourceLink)
    ensures DistinctKeys(ResourceLinkFields(v))
  {
    var f := ResourceLinkFields(v);
    assert f[0].key == "type" && f[1].key == "annotations" && f[2].key == "description" && f[3].key == "mimeType";
    assert f[4].key == "name" && f[5].key == "size" && f[6].key == "title" && f[7].key == "uri";
  }

  lemma ResourceLinkRoundTrip(v: ResourceLink)
    ensures var m := Pack(ResourceLinkFields(v));
            Get(m, "type") == Some(Str(Name(TypeResourceLink))) && DecodeResourceLink(m) == Ok(v)
  {
    LinkKeysAreDistinct(v);
    AllOfPack(ResourceLinkFields(v));
    var f := ResourceLinkFields(v);
    assert f[0].key == "type" && f[1].key == "annotations" && f[2].key == "description" && f[3].key == "mimeType";
    assert f[4].key == "name" && f[5].key == "size" && f[6].key == "title" && f[7].key == "uri";
  }

  lemma TextRoundTrip(v: Text)
    ensures var m := Pack(TextFields(v)); Get(m, "type") == Some(Str(Name(TypeText))) && DecodeText(m) == Ok(v)
  {
    var f := TextFields(v);
    assert f[0].key == "type" && f[1].key == "annotations" && f[2].key == "text";
    AllOfPack(f);
  }

  /** The embedded resource is a pointer to a nil interface. */
  predicate NilInterface(u: ContentBlock) {
    u.kind == TypeResource && u.resource.Some? && u.resource.value.resource == Some(Null)
  }

  /** What an object with a valid discriminator decodes to. */
  lemma DecodeObject(m: map<string, Json>, kind: Kind)
    requires Get(m, "type") == Some(Str(Name(kind))) && IsValid(kind)
    ensures DecodeInto(ZERO, Object(m)) == DecodeVariant(ZERO.(kind := kind), m)
  {
    KindOfName(kind);
  }

  /** Every encoding decodes without error into a fresh value, and gives back the type and the active
      variant with the inactive ones absent, exactly unless a pointer to a nil interface was encoded. */
  lemma RoundTrip(u: ContentBlock)
    requires Encode(u).Ok?
    ensures Encode(u).value.Object?
    ensures var d := DecodeInto(ZERO, Encode(u).value); d.error.None? && (d.value == Active(u) <==> !NilInterface(u))
  {
    if u.kind == TypeAudio {
      AudioRoundTrip(u.audio.value);
    } else if u.kind == TypeImage {
      ImageRoundTrip(u.image.value);
    } else if u.kind == TypeResource {
      ResourceRoundTrip(u.resource.value);
    } else if u.kind == TypeResourceLink {
      ResourceLinkRoundTrip(u.resourceLink.value);
    } else {
      TextRoundTrip(u.text.value);
    }
    DecodeObject(Encode(u).value.fields, u.kind);
  }

  /** Whether decoding succeeds does not depend on the old value. When it does, the getters and the
      encoding show a fresh decode, although the old variants are still there. */
  lemma DecodeOverwrites(u: ContentBlock, j: Json)
    ensures DecodeInto(u, j).error == DecodeInto(ZERO, j).error
    ensures DecodeInto(u, j).error.None? ==>
              var v := DecodeInto(u, j).value;
              var pristine := DecodeInto(ZERO, j).value;
              Active(v) == pristine && Encode(v) == Encode(pristine) && Encode(v).Ok?
  {
  }

  /** A value that decoding produced always encodes, and decodes to itself. */
  lemma DecodedValuesRoundTrip(j: Json)
    requires DecodeInto(ZERO, j).error.None?
    ensures var v := DecodeInto(ZERO, j).value;
            Encode(v).Ok? && DecodeInto(ZERO, Encode(v).value) == Decoded(v, None)
  {
    var v := DecodeInto(ZERO, j).value;
    DecodeOverwrites(ZERO, j);
    assert !NilInterface(v);
    RoundTrip(v);
  }

  // ---- Decoding over a used value ----

  /** Everything but the type and the variant of type `kind`. */
  function Others(u: ContentBlock, kind: Kind): ContentBlock {
    ContentBlock(TypeOther(""),
                 if kind == TypeAudio then None else u.audio,
                 if kind == TypeImage then None else u.image,
                 if kind == TypeResource then None else u.resource,
                 if kind == TypeResourceLink then None else u.resourceLink,
                 if kind == TypeText then None else u.text)
  }

  /** Stale variants are never cleared: the decoded value is a fresh one exactly if there were none. */
  lemma StaleVariantsSurvive(u: ContentBlock, j: Json)
    requires DecodeInto(u, j).error.None?
    ensures var v := DecodeInto(u, j).value;
            && Others(v, v.kind) == Others(u, v.kind)
            && (v == DecodeInto(ZERO, j).value <==> Others(u, v.kind) == ZERO)
  {
  }

  /** A failed decode never touches a variant, but it leaves the value as it was only if the
      discriminator itself was rejected or names the type already there: otherwise the type is
      overwritten before the variant fails. */
  lemma FailedDecodeKeepsVariants(u: ContentBlock, j: Json)
    requires DecodeInto(u, j).error.Some?
    ensures var v := DecodeInto(u, j).value;
            var kind := DecodeDiscriminator(j, "type");
            && v == u.(kind := v.kind)
            && (v == u <==> kind.Err? || !IsValid(KindOf(kind.value)) || KindOf(kind.value) == u.kind)
  {
  }

  // ---- Pointers to content blocks, as fields of other unions ----

  function EncodePointer(p: Option<ContentBlock>): Result<Option<Json>, Failure> {
    if p.None? then Ok(None)
    else match Encode(p.value)
      case Ok(j) => Ok(Some(j))
      case Err(e) => Err(e)
  }

  /** Null is the nil pointer; anything else is decoded into a fresh value. */
  function DecodePointer(o: Option<Json>): Result<Option<ContentBlock>, Failure> {
    if o.None? || o.value.Null? then Ok(None)
    else
      var d := DecodeInto(ZERO, o.value);
      if d.error.Some? then Err(d.error.value) else Ok(Some(d.value))
  }

  function ActivePointer(p: Option<ContentBlock>): Option<ContentBlock> {
    if p.None? then None else Some(Active(p.value))
  }

  predicate NilInterfaceAt(p: Option<ContentBlock>) {
    p.Some? && NilInterface(p.value)
  }

  lemma PointerRoundTrip(p: Option<ContentBlock>)
    requires EncodePointer(p).Ok?
    ensures var d := DecodePointer(EncodePointer(p).value);
            d.Ok? && (d.value == ActivePointer(p) <==> !NilInterfaceAt(p))
  {
    if p.Some? {
      RoundTrip(p.value);
    }
  }

  /** A decoded pointer always encodes, holds no stale variant, and has no pointer to a nil interface. */
  lemma DecodedPointers(o: Option<Json>)
    requires DecodePointer(o).Ok?
    ensures var p := DecodePointer(o).value; EncodePointer(p).Ok? && ActivePointer(p) == p && !NilInterfaceAt(p)
  {
    if DecodePointer(o).value.Some? {
      DecodeOverwrites(ZERO, o.value);
    }
  }

  // ---- The wire format, key by key ----

  lemma AudioIsWritten(u: ContentBlock)
    requires u.kind == TypeAudio && u.audio.Some?
    ensures Encode(u).Ok? && Encode(u).value.Object?
    ensures var m, v := Encode(u).value.fields, u.audio.value;
            && HasOnly(m, {"type", "annotations", "data", "mimeType"}) && SaysText(m, "type", "audio")
            && SaysAny(m, "annotations", v.annotations)
            && SaysText(m, "data", v.data) && SaysText(m, "mimeType", v.mimeType)
  {
    var f := AudioFields(u.audio.value);
    assert f[0].key == "type" && f[1].key == "annotations" && f[2].key == "data" && f[3].key == "mimeType";
    AllOfPack(f);
    OnlyKeysOf(f, {"type", "annotations", "data", "mimeType"});
  }

  lemma ImageIsWritten(u: ContentBlock)
    requires u.kind == TypeImage && u.image.Some?
    ensures Encode(u).Ok? && Encode(u).value.Object?
    ensures var m, v := Encode(u).value.fields, u.image.value;
            && HasOnly(m, {"type", "annotations", "data", "mimeType", "uri"}) && SaysText(m, "type", "image")
            && SaysAny(m, "annotations", v.annotations) && SaysText(m, "data", v.data)
            && SaysText(m, "mimeType", v.mimeType) && SaysAny(m, "uri", v.uri)
  {
    var f := ImageFields(u.image.value);
    assert f[0].key == "type" && f[1].key == "annotations" && f[2].key == "data" && f[3].key == "mimeType"
        && f[4].key == "uri";
    AllOfPack(f);
    OnlyKeysOf(f, {"type", "annotations", "data", "mimeType", "uri"});
  }

  /** The resource is written as it is, null included, and left out for the nil pointer. */
  lemma ResourceIsWritten(u: ContentBlock)
    requires u.kind == TypeResource && u.resource.Some?
    ensures Encode(u).Ok? && Encode(u).value.Object?
    ensures var m, v := Encode(u).value.fields, u.resource.value;
            && HasOnly(m, {"type", "annotations", "resource"}) && SaysText(m, "type", "resource")
            && SaysAny(m, "annotations", v.annotations)
            && ("resource" in m <==> v.resource.Some?) && ("resource" in m ==> m["resource"] == v.resource.value)
  {
    var f := ResourceFields(u.resource.value);
    assert f[0].key == "type" && f[1].key == "annotations" && f[2].key == "resource";
    AllOfPack(f);
    OnlyKeysOf(f, {"type", "annotations", "resource"});
  }

  lemma ResourceLinkIsWritten(u: ContentBlock)
    requires u.kind == TypeResourceLink && u.resourceLink.Some?
    ensures Encode(u).Ok? && Encode(u).value.Object?
    ensures var m, v := Encode(u).value.fields, u.resourceLink.value;
            && HasOnly(m, {"type", "annotations", "description", "mimeType", "name", "size", "title", "uri"})
            && SaysText(m, "type", "resource_link") && SaysAny(m, "annotations", v.annotations)
            && SaysAny(m, "description", v.description) && SaysAny(m, "mimeType", v.mimeType)
            && SaysText(m, "name", v.name) && SaysAny(m, "size", v.size)
            && SaysAny(m, "title", v.title) && SaysText(m, "uri", v.uri)
  {
    var f := ResourceLinkFields(u.resourceLink.value);
    LinkKeysAreDistinct(u.resourceLink.value);
    GetOfPack(f, 0);
    GetOfPack(f, 1);
    GetOfPack(f, 2);
    GetOfPack(f, 3);
    GetOfPack(f, 4);
    GetOfPack(f, 5);
    GetOfPack(f, 6);
    GetOfPack(f, 7);
    OnlyKeysOf(f, {"type", "annotations", "description", "mimeType", "name", "size", "title", "uri"});
  }

  lemma TextIsWritten(u: ContentBlock)
    requires u.kind == TypeText && u.text.Some?
    ensures Encode(u).Ok? && Encode(u).value.Object?
    ensures var m, v := Encode(u).value.fields, u.text.value;
            && HasOnly(m, {"type", "annotations", "text"}) && SaysText(m, "type", "text")
            && SaysAny(m, "annotations", v.annotations) && SaysText(m, "text", v.text)
  {
    var f := TextFields(u.text.value);
    assert f[0].key == "type" && f[1].key == "annotations" && f[2].key == "text";
    AllOfPack(f);
    OnlyKeysOf(f, {"type", "annotations", "text"});
  }

  /** Writing fails for a type that is not one of the five, and for one whose variant is missing. */
  lemma WrittenIff(u: ContentBlock)
    ensures Encode(u).Ok? <==>
            match u.kind
            case TypeAudio => u.audio.Some?
            case TypeImage => u.image.Some?
            case TypeResource => u.resource.Some?
            case TypeResourceLink => u.resourceLink.Some?
            case TypeText => u.text.Some?
            case TypeOther(_) => false
    ensures Encode(u).Err? ==> Encode(u).error == if u.kind.TypeOther? then InvalidType else MissingVariant
  {
  }

  /** The value shows one variant, named `name` in JSON. */
  predicate ShowsOnly(u: ContentBlock, name: string) {
    && (GetAudio(u).Some? <==> name == "audio")
    && (GetImage(u).Some? <==> name == "image")
    && (GetResource(u).Some? <==> name == "resource")
    && (GetResourceLink(u).Some? <==> name == "resource_link")
    && (GetText(u).Some? <==> name == "text")
  }

  /** Only an object with one of the five strings as its discriminator is ever accepted; what it then
      shows is that variant. */
  lemma OnlyTypedObjectsAreRead(u: ContentBlock, j: Json)
    requires DecodeInto(u, j).error.None?
    ensures j.Object? && "type" in j.fields && j.fields["type"].Str?
    ensures j.fields["type"].s in {"audio", "image", "resource", "resource_link", "text"}
    ensures var v, name := DecodeInto(u, j).value, j.fields["type"].s;
            && (GetAudio(v).Some? <==> name == "audio")
            && (GetImage(v).Some? <==> name == "image")
            && (GetResource(v).Some? <==> name == "resource")
            && (GetResourceLink(v).Some? <==> name == "resource_link")
            && (GetText(v).Some? <==> name == "text")
  {
  }

  /** Anything else is an error that leaves the value alone: of type if it is neither an object nor null,
      or has something else than a string for its discriminator; of an invalid discriminator otherwise. */
  lemma OthersAreRejected(u: ContentBlock, j: Json)
    requires j.Object? && "type" in j.fields && j.fields["type"].Str? ==>
               j.fields["type"].s !in {"audio", "image", "resource", "resource_link", "text"}
    ensures DecodeInto(u, j).value == u
    ensures DecodeInto(u, j).error ==
            Some(if j.Null? || (j.Object? && !BadText(j.fields, "type")) then InvalidType else WrongType)
  {
  }

  lemma AudioIsRead(u: ContentBlock, m: map<string, Json>)
    requires "type" in m && m["type"] == Str("audio")
    ensures var d := DecodeInto(u, Object(m));
            && d.error == (if BadText(m, "data") || BadText(m, "mimeType") then Some(WrongType) else None)
            && (d.error.None? ==>
                  && ShowsOnly(d.value, "audio") && var v := GetAudio(d.value).value;
                  && ReadsAny(m, "annotations", v.annotations)
                  && ReadsText(m, "data", v.data) && ReadsText(m, "mimeType", v.mimeType))
  {
  }

  lemma ImageIsRead(u: ContentBlock, m: map<string, Json>)
    requires "type" in m && m["type"] == Str("image")
    ensures var d := DecodeInto(u, Object(m));
            && d.error == (if BadText(m, "data") || BadText(m, "mimeType") then Some(WrongType) else None)
            && (d.error.None? ==>
                  && ShowsOnly(d.value, "image") && var v := GetImage(d.value).value;
                  && ReadsAny(m, "annotations", v.annotations) && ReadsText(m, "data", v.data)
                  && ReadsText(m, "mimeType", v.mimeType) && ReadsAny(m, "uri", v.uri))
  {
  }

  lemma ResourceIsRead(u: ContentBlock, m: map<string, Json>)
    requires "type" in m && m["type"] == Str("resource")
    ensures var d := DecodeInto(u, Object(m));
            && d.error.None? && ShowsOnly(d.value, "resource") && var v := GetResource(d.value).value;
            && ReadsAny(m, "annotations", v.annotations)
            && (if Absent(m, "resource") then v.resource == None else v.resource == Some(m["resource"]))
  {
  }

  lemma ResourceLinkIsRead(u: ContentBlock, m: map<string, Json>)
    requires "type" in m && m["type"] == Str("resource_link")
    ensures var d := DecodeInto(u, Object(m));
            && d.error == (if BadText(m, "name") || BadText(m, "uri") then Some(WrongType) else None)
            && (d.error.None? ==>
                  && ShowsOnly(d.value, "resource_link") && var v := GetResourceLink(d.value).value;
                  && ReadsAny(m, "annotations", v.annotations) && ReadsAny(m, "description", v.description)
                  && ReadsAny(m, "mimeType", v.mimeType) && ReadsText(m, "name", v.name)
                  && ReadsAny(m, "size", v.size) && ReadsAny(m, "title", v.title) && ReadsText(m, "uri", v.uri))
  {
  }

  lemma TextIsRead(u: ContentBlock, m: map<string, Json>)
    requires "type" in m && m["type"] == Str("text")
    ensures var d := DecodeInto(u, Object(m));
            && d.error == (if BadText(m, "text") then Some(WrongType) else None)
            && (d.error.None? ==>
                  && ShowsOnly(d.value, "text") && var v := GetText(d.value).value;
                  && ReadsAny(m, "annotations", v.annotations) && ReadsText(m, "text", v.text))
  {
  }
}
