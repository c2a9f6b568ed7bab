/** The discriminated union `SessionUpdate` of `acp/api/unions_generated.go`, which nests content blocks. */
module SessionUpdates {
  import opened Wrappers
  import opened Json
  import ContentBlocks

  type ContentBlock = ContentBlocks.ContentBlock

  /** The three chunk variants have the same single field. */
  datatype Chunk = Chunk(content: Option<ContentBlock>)
  datatype Plan = Plan(entries: seq<Json>)
  datatype ToolCall = ToolCall(content: seq<Json>, kind: Option<string>, locations: seq<Json>, rawInput: Json,
                               rawOutput: Json, status: Option<string>, title: string, toolCallId: Option<string>)
  datatype ToolCallUpdate = ToolCallUpdate(content: Json, kind: Json, locations: Json, rawInput: Json,
                                           rawOutput: Json, status: Json, title: Json, toolCallId: Option<string>)

  datatype SessionUpdate = SessionUpdate(
    kind: Kind,
    agentMessageChunk: Option<Chunk>,
    agentThoughtChunk: Option<Chunk>,
    plan: Option<Plan>,
    toolCall: Option<ToolCall>,
    toolCallUpdate: Option<ToolCallUpdate>,
    userMessageChunk: Option<Chunk>)

  const ZERO := SessionUpdate(TypeOther(""), None, None, None, None, None, None)

  /** The values of `ToolKind` and `ToolCallStatus` (`acp/api/enums_generated.go`). */
  const TOOL_KINDS := {"delete", "edit", "execute", "fetch", "move", "other", "read", "search", "think"}
  const TOOL_CALL_STATUSES := {"completed", "failed", "in_progress", "pending"}

  /** `SessionUpdateType` is a string; these are its constants and every other string. */
  datatype Kind =
    | TypeAgentMessageChunk
    | TypeAgentThoughtChunk
    | TypePlan
    | TypeToolCall
    | TypeToolCallUpdate
    | TypeUserMessageChunk
    | TypeOther(name: string)

  predicate IsValid(kind: Kind) {
    !kind.TypeOther?
  }

  function KindOf(name: string): Kind {
    if name == "agent_message_chunk" then TypeAgentMessageChunk
    else if name == "agent_thought_chunk" then TypeAgentThoughtChunk
    else if name == "plan" then TypePlan
    else if name == "tool_call" then TypeToolCall
    else if name == "tool_call_update" then TypeToolCallUpdate
    else if name == "user_message_chunk" then TypeUserMessageChunk
    else TypeOther(name)
  }

  function Name(kind: Kind): string {
    match kind
    case TypeAgentMessageChunk => "agent_message_chunk"
    case TypeAgentThoughtChunk => "agent_thought_chunk"
    case TypePlan => "plan"
    case TypeToolCall => "tool_call"
    case TypeToolCallUpdate => "tool_call_update"
    case TypeUserMessageChunk => "user_message_chunk"
    case TypeOther(name) => name
  }

  lemma KindOfName(kind: Kind)
    requires IsValid(kind)
    ensures KindOf(Name(kind)) == kind
  {
  }

  // ---- Variants ----

  function Pair(kind: Kind, content: Option<Json>): seq<Field> {
    [Field("sessionUpdate", Some(Str(Name(kind)))), Field("content", content)]
  }

  function EncodeChunk(kind: Kind, v: Chunk): Result<Json, Failure> {
    match ContentBlocks.EncodePointer(v.content)
    case Ok(content) => Ok(Object(Pack(Pair(kind, content))))
    case Err(e) => Err(e)
  }

  function DecodeChunk(m: map<string, Json>): Result<Chunk, Failure> {
    match ContentBlocks.DecodePointer(Get(m, "content"))
    case Ok(content) => Ok(Chunk(content))
    case Err(e) => Err(e)
  }

  function PlanFields(v: Plan): seq<Field> {
    [Field("sessionUpdate", Some(Str(Name(TypePlan)))), Field("entries", EncodeSlice(v.entries))]
  }

  function DecodePlan(m: map<string, Json>): Result<Plan, Failure> {
    match DecodeSlice(Get(m, "entries"))
    case Ok(entries) => Ok(Plan(entries))
    case Err(e) => Err(e)
  }

  /** The fields of both tool call variants, in order. */
  function CallFields(discriminator: Kind, content: Option<Json>, kind: Option<Json>, locations: Option<Json>,
                      rawInput: Option<Json>, rawOutput: Option<Json>, status: Option<Json>, title: Option<Json>,
                      toolCallId: Option<Json>): seq<Field> {
    [Field("sessionUpdate", Some(Str(Name(discriminator)))), Field("content", content), Field("kind", kind),
     Field("locations", locations), Field("rawInput", rawInput), Field("rawOutput", rawOutput),
     Field("status", status), Field("title", title), Field("toolCallId", toolCallId)]
  }

  /** Kind and status are encoded by their own methods, which reject unknown values. */
  function EncodeToolCall(v: ToolCall): Result<Json, Failure> {
    var kind, status := EncodeEnumPointer(v.kind, TOOL_KINDS), EncodeEnumPointer(v.status, TOOL_CALL_STATUSES);
    if kind.Err? then Err(kind.error)
    else if status.Err? then Err(status.error)
    else Ok(Object(Pack(CallFields(TypeToolCall, EncodeSlice(v.content), kind.value, EncodeSlice(v.locations),
                                   EncodeAny(v.rawInput), EncodeAny(v.rawOutput), status.value,
                                   EncodeString(v.title), EncodeStringPointer(v.toolCallId)))))
  }

  /** The variant, or the first of its fields' errors. */
  function ReadToolCall(content: Result<seq<Json>, Failure>, kind: Result<Option<string>, Failure>,
                        locations: Result<seq<Json>, Failure>, rawInput: Json,
                        rawOutput: Json, status: Result<Option<string>, Failure>, title: Result<string, Failure>,
                        toolCallId: Result<Option<string>, Failure>)
      : Result<ToolCall, Failure>
  {
    if content.Err? then Err(content.error)
    else if kind.Err? then Err(kind.error)
    else if locations.Err? then Err(locations.error)
    else if status.Err? then Err(status.error)
    else if title.Err? then Err(title.error)
    else if toolCallId.Err? then Err(toolCallId.error)
    else Ok(ToolCall(content.value, kind.value, locations.value, rawInput, rawOutput, status.value, title.value,
                     toolCallId.value))
  }

  function DecodeToolCall(m: map<string, Json>): Result<ToolCall, Failure> {
    ReadToolCall(DecodeSlice(Get(m, "content")), DecodeEnumPointer(Get(m, "kind"), TOOL_KINDS),
                 DecodeSlice(Get(m, "locations")),
                 DecodeAny(Get(m, "rawInput")), DecodeAny(Get(m, "rawOutput")),
                 DecodeEnumPointer(Get(m, "status"), TOOL_CALL_STATUSES), DecodeString(Get(m, "title")),
                 DecodeStringPointer(Get(m, "toolCallId")))
  }

  function ToolCallUpdateFields(v: ToolCallUpdate): seq<Field> {
    CallFields(TypeToolCallUpdate, EncodeAny(v.content), EncodeAny(v.kind), EncodeAny(v.locations),
               EncodeAny(v.rawInput),
               EncodeAny(v.rawOutput), EncodeAny(v.status), EncodeAny(v.title), EncodeStringPointer(v.toolCallId))
  }

  function DecodeToolCallUpdate(m: map<string, Json>): Result<ToolCallUpdate, Failure> {
    match DecodeStringPointer(Get(m, "toolCallId"))
    case Err(e) => Err(e)
    case Ok(toolCallId) =>
      Ok(ToolCallUpdate(DecodeAny(Get(m, "content")), DecodeAny(Get(m, "kind")), DecodeAny(Get(m, "locations")),
                        DecodeAny(Get(m, "rawInput")), DecodeAny(Get(m, "rawOutput")), DecodeAny(Get(m, "status")),
                        DecodeAny(Get(m, "title")), toolCallId))
  }

  // ---- The union ----

  /** `MarshalJSON` */
  function Encode(u: SessionUpdate): Result<Json, Failure> {
    if u.kind == TypeAgentMessageChunk then
      if u.agentMessageChunk.None? then Err(MissingVariant) else EncodeChunk(u.kind, u.agentMessageChunk.value)
    else if u.kind == TypeAgentThoughtChunk then
      if u.agentThoughtChunk.None? then Err(MissingVariant) else EncodeChunk(u.kind, u.agentThoughtChunk.value)
    else if u.kind == TypePlan then
      if u.plan.None? then Err(MissingVariant) else Ok(Object(Pack(PlanFields(u.plan.value))))
    else if u.kind == TypeToolCall then
      if u.toolCall.None? then Err(MissingVariant) else EncodeToolCall(u.toolCall.value)
    else if u.kind == TypeToolCallUpdate then
      if u.toolCallUpdate.None? then Err(MissingVariant)
      else Ok(Object(Pack(ToolCallUpdateFields(u.toolCallUpdate.value))))
    else if u.kind == TypeUserMessageChunk then
      if u.userMessageChunk.None? then Err(MissingVariant) else EncodeChunk(u.kind, u.userMessageChunk.value)
    else Err(InvalidType)
  }

  datatype Decoded = Decoded(value: SessionUpdate, error: Option<Failure>)

  function DecodeVariant(u: SessionUpdate, m: map<string, Json>): Decoded {
    match u.kind
    case TypeAgentMessageChunk =>
      (match DecodeChunk(m)
       case Ok(v) => Decoded(u.(agentMessageChunk := Some(v)), None)
       case Err(e) => Decoded(u, Some(e)))
    case TypeAgentThoughtChunk =>
      (match DecodeChunk(m)
       case Ok(v) => Decoded(u.(agentThoughtChunk := Some(v)), None)
       case Err(e) => Decoded(u, Some(e)))
    case TypePlan =>
      (match DecodePlan(m) case Ok(v) => Decoded(u.(plan := Some(v)), None) case Err(e) => Decoded(u, Some(e)))
    case TypeToolCall =>
      (match DecodeToolCall(m) case Ok(v) => Decoded(u.(toolCall := Some(v)), None) case Err(e) => Decoded(u, Some(e)))
    case TypeToolCallUpdate =>
      (match DecodeToolCallUpdate(m)
       case Ok(v) => Decoded(u.(toolCallUpdate := Some(v)), None)
       case Err(e) => Decoded(u, Some(e)))
    case TypeUserMessageChunk =>
      (match DecodeChunk(m)
       case Ok(v) => Decoded(u.(userMessageChunk := Some(v)), None)
       case Err(e) => Decoded(u, Some(e)))
    case _ => Decoded(u, Some(InvalidType))
  }

  /** `UnmarshalJSON` into the existing value `u` */
  function DecodeInto(u: SessionUpdate, j: Json): Decoded {
    var kind := DecodeDiscriminator(j, "sessionUpdate");
    if kind.Err? then Decoded(u, Some(kind.error))
    else if !IsValid(KindOf(kind.value)) || !j.Object? then Decoded(u, Some(InvalidType))
    else DecodeVariant(u.(kind := KindOf(kind.value)), j.fields)
  }

  // ---- What the getters show ----

  function GetAgentMessageChunk(u: SessionUpdate): Option<Chunk> {
    if u.kind == TypeAgentMessageChunk then u.agentMessageChunk else None
  }
  function GetAgentThoughtChunk(u: SessionUpdate): Option<Chunk> {
    if u.kind == TypeAgentThoughtChunk then u.agentThoughtChunk else None
  }
  function GetPlan(u: SessionUpdate): Option<Plan> { if u.kind == TypePlan then u.plan else None }
  function GetToolCall(u: SessionUpdate): Option<ToolCall> { if u.kind == TypeToolCall then u.toolCall else None }
  function GetToolCallUpdate(u: SessionUpdate): Option<ToolCallUpdate> {
    if u.kind == TypeToolCallUpdate then u.toolCallUpdate else None
  }
  function GetUserMessageChunk(u: SessionUpdate): Option<Chunk> {
    if u.kind == TypeUserMessageChunk then u.userMessageChunk else None
  }

  function Shown(u: SessionUpdate): SessionUpdate {
    SessionUpdate(u.kind, GetAgentMessageChunk(u), GetAgentThoughtChunk(u), GetPlan(u), GetToolCall(u),
                  GetToolCallUpdate(u), GetUserMessageChunk(u))
  }

  /** The nested content block of a value, if its type has one. */
  function Content(u: SessionUpdate): Option<ContentBlock> {
    if u.kind == TypeAgentMessageChunk && u.agentMessageChunk.Some? then u.agentMessageChunk.value.content
    else if u.kind == TypeAgentThoughtChunk && u.agentThoughtChunk.Some? then u.agentThoughtChunk.value.content
    else if u.kind == TypeUserMessageChunk && u.userMessageChunk.Some? then u.userMessageChunk.value.content
    else None
  }

  function ActiveChunk(c: Option<Chunk>): Option<Chunk> {
    if c.None? then None else Some(Chunk(ContentBlocks.ActivePointer(c.value.content)))
  }

  /** The type and the active variant, in the nested content block too. */
  function Active(u: SessionUpdate): SessionUpdate {
    SessionUpdate(u.kind, ActiveChunk(GetAgentMessageChunk(u)), ActiveChunk(GetAgentThoughtChunk(u)), GetPlan(u),
                  GetToolCall(u),
                  GetToolCallUpdate(u), ActiveChunk(GetUserMessageChunk(u)))
  }

  // ---- The receiver of `UnmarshalJSON` ----

  class SessionUpdateReceiver {
    var kind: Kind
    var agentMessageChunk: Option<Chunk>
    var agentThoughtChunk: Option<Chunk>
    var plan: Option<Plan>
    var toolCall: Option<ToolCall>
    var toolCallUpdate: Option<ToolCallUpdate>
    var userMessageChunk: Option<Chunk>

    function View(): SessionUpdate
      reads this
    {
      SessionUpdate(kind, agentMessageChunk, agentThoughtChunk, plan, toolCall, toolCallUpdate, userMessageChunk)
    }

    constructor (u: SessionUpdate)
      ensures View() == u
    {
      kind, agentMessageChunk, agentThoughtChunk := u.kind, u.agentMessageChunk, u.agentThoughtChunk;
      plan, toolCall, toolCallUpdate, userMessageChunk := u.plan, u.toolCall, u.toolCallUpdate, u.userMessageChunk;
    }

    method UnmarshalJSON(j: Json) returns (error: Option<Failure>)
      modifies this
      ensures Decoded(View(), error) == DecodeInto(old(View()), j)
    {
      var discriminator := DecodeDiscriminator(j, "sessionUpdate");
      if discriminator.Err? {
        return Some(discriminator.error);
      }
      if !IsValid(KindOf(discriminator.value)) || !j.Object? {
        return Some(InvalidType);
      }
      kind := KindOf(discriminator.value);
      error := None;
      match kind
      case TypeAgentMessageChunk =>
        var v := DecodeChunk(j.fields);
        if v.Err? { return Some(v.error); }
        agentMessageChunk := Some(v.value);
      case TypeAgentThoughtChunk =>
        var v := DecodeChunk(j.fields);
        if v.Err? { return Some(v.error); }
        agentThoughtChunk := Some(v.value);
      case TypePlan =>
        var v := DecodePlan(j.fields);
        if v.Err? { return Some(v.error); }
        plan := Some(v.value);
      case TypeToolCall =>
        var v := DecodeToolCall(j.fields);
        if v.Err? { return Some(v.error); }
        toolCall := Some(v.value);
      case TypeToolCallUpdate =>
        var v := DecodeToolCallUpdate(j.fields);
        if v.Err? { return Some(v.error); }
        toolCallUpdate := Some(v.value);
      case TypeUserMessageChunk =>
        var v := DecodeChunk(j.fields);
        if v.Err? { return Some(v.error); }
        userMessageChunk := Some(v.value);
      case _ => error := Some(InvalidType);
    }
  }

  // ---- Round trips ----

  lemma ChunkRoundTrip(kind: Kind, v: Chunk)
    requires EncodeChunk(kind, v).Ok?
    ensures EncodeChunk(kind, v).value.Object?
    ensures var m := EncodeChunk(kind, v).value.fields;
            && Get(m, "sessionUpdate") == Some(Str(Name(kind)))
            && DecodeChunk(m).Ok?
            && (DecodeChunk(m).value == Chunk(ContentBlocks.ActivePointer(v.content)) <==>
                !ContentBlocks.NilInterfaceAt(v.content))
  {
    var content := ContentBlocks.EncodePointer(v.content).value;
    var f := Pair(kind, content);
    assert f[0].key == "sessionUpdate" && f[1].key == "content";
    AllOfPack(f);
    ContentBlocks.PointerRoundTrip(v.content);
  }

  lemma PlanRoundTrip(v: Plan)
    ensures var m := Pack(PlanFields(v)); Get(m, "sessionUpdate") == Some(Str(Name(TypePlan))) && DecodePlan(m) == Ok(v)
  {
    var f := PlanFields(v);
    assert f[0].key == "sessionUpdate" && f[1].key == "entries";
    AllOfPack(f);
  }

  /** In particular no field of a tool call collides with the discriminator. */
  lemma CallKeysAreDistinct(discriminator: Kind, content: Option<Json>, kind: Option<Json>, locations: Option<Json>,
                            rawInput: Option<Json>, rawOutput: Option<Json>, status: Option<Json>,
                            title: Option<Json>, toolCallId: Option<Json>)
    ensures DistinctKeys(CallFields(discriminator, content, kind, locations, rawInput, rawOutput, status, title,
                                    toolCallId))
  {
    var f := CallFields(discriminator, content, kind, locations, rawInput, rawOutput, status, title, toolCallId);
    assert f[0].key == "sessionUpdate" && f[1].key == "content" && f[2].key == "kind" && f[3].key == "locations";
    assert f[4].key == "rawInput" && f[5].key == "rawOutput" && f[6].key == "status" && f[7].key == "title"
        && f[8].key == "toolCallId";
  }

  lemma GetOfCallFields(discriminator: Kind, content: Option<Json>, kind: Option<Json>, locations: Option<Json>,
                        rawInput: Option<Json>,
                        rawOutput: Option<Json>, status: Option<Json>, title: Option<Json>, toolCallId: Option<Json>)
    ensures var m := Pack(CallFields(discriminator, content, kind, locations, rawInput, rawOutput, status, title,
                                     toolCallId));
            && Get(m, "sessionUpdate") == Some(Str(Name(discriminator)))
            && Get(m, "content") == content && Get(m, "kind") == kind && Get(m, "locations") == locations
            && Get(m, "rawInput") == rawInput && Get(m, "rawOutput") == rawOutput
            && Get(m, "status") == status && Get(m, "title") == title && Get(m, "toolCallId") == toolCallId
  {
    var f := CallFields(discriminator, content, kind, locations, rawInput, rawOutput, status, title, toolCallId);
    CallKeysAreDistinct(discriminator, content, kind, locations, rawInput, rawOutput, status, title, toolCallId);
    GetOfPack(f, 0);
    GetOfPack(f, 1);
    GetOfPack(f, 2);
    GetOfPack(f, 3);
    GetOfPack(f, 4);
    GetOfPack(f, 5);
    GetOfPack(f, 6);
    GetOfPack(f, 7);
    GetOfPack(f, 8);
  }

  lemma EnumRoundTrip(p: Option<string>, values: set<string>)
    requires EncodeEnumPointer(p, values).Ok?
    ensures DecodeEnumPointer(EncodeEnumPointer(p, values).value, values) == Ok(p)
  {
  }

  lemma ReadToolCallOfEncoded(v: ToolCall)
    requires EncodeEnumPointer(v.kind, TOOL_KINDS).Ok? && EncodeEnumPointer(v.status, TOOL_CALL_STATUSES).Ok?
    ensures ReadToolCall(DecodeSlice(EncodeSlice(v.content)),
                         DecodeEnumPointer(EncodeEnumPointer(v.kind, TOOL_KINDS).value, TOOL_KINDS),
                         DecodeSlice(EncodeSlice(v.locations)), DecodeAny(EncodeAny(v.rawInput)),
                         DecodeAny(EncodeAny(v.rawOutput)),
                         DecodeEnumPointer(EncodeEnumPointer(v.status, TOOL_CALL_STATUSES).value, TOOL_CALL_STATUSES),
                         DecodeString(EncodeString(v.title)), DecodeStringPointer(EncodeStringPointer(v.toolCallId)))
         == Ok(v)
  {
    EnumRoundTrip(v.kind, TOOL_KINDS);
    EnumRoundTrip(v.status, TOOL_CALL_STATUSES);
  }

  lemma ToolCallRoundTrip(v: ToolCall)
    requires EncodeToolCall(v).Ok?
    ensures EncodeToolCall(v).value.Object?
    ensures var m := EncodeToolCall(v).value.fields;
            Get(m, "sessionUpdate") == Some(Str(Name(TypeToolCall))) && DecodeToolCall(m) == Ok(v)
  {
    GetOfCallFields(TypeToolCall, EncodeSlice(v.content), EncodeEnumPointer(v.kind, TOOL_KINDS).value,
                    EncodeSlice(v.locations),
                    EncodeAny(v.rawInput), EncodeAny(v.rawOutput),
                    EncodeEnumPointer(v.status, TOOL_CALL_STATUSES).value,
                    EncodeString(v.title), EncodeStringPointer(v.toolCallId));
    ReadToolCallOfEncoded(v);
  }

  lemma ToolCallUpdateRoundTrip(v: ToolCallUpdate)
    ensures var m := Pack(ToolCallUpdateFields(v));
            Get(m, "sessionUpdate") == Some(Str(Name(TypeToolCallUpdate))) && DecodeToolCallUpdate(m) == Ok(v)
  {
    GetOfCallFields(TypeToolCallUpdate, EncodeAny(v.content), EncodeAny(v.kind), EncodeAny(v.locations),
                    EncodeAny(v.rawInput),
                    EncodeAny(v.rawOutput), EncodeAny(v.status), EncodeAny(v.title), EncodeStringPointer(v.toolCallId));
  }

  lemma DecodeObject(m: map<string, Json>, kind: Kind)
    requires Get(m, "sessionUpdate") == Some(Str(Name(kind))) && IsValid(kind)
    ensures DecodeInto(ZERO, Object(m)) == DecodeVariant(ZERO.(kind := kind), m)
  {
    KindOfName(kind);
  }

  /** Every encoding decodes without error into a fresh value, and gives back the type and the active
      variant, through the nested content block, with everything inactive absent: exactly unless a
      pointer to a nil interface was encoded there. */
  lemma RoundTrip(u: SessionUpdate)
    requires Encode(u).Ok?
    ensures Encode(u).value.Object?
    ensures var d := DecodeInto(ZERO, Encode(u).value);
            d.error.None? && (d.value == Active(u) <==> !ContentBlocks.NilInterfaceAt(Content(u)))
  {
    if u.kind == TypeAgentMessageChunk {
      ChunkRoundTrip(u.kind, u.agentMessageChunk.value);
    } else if u.kind == TypeAgentThoughtChunk {
      ChunkRoundTrip(u.kind, u.agentThoughtChunk.value);
    } else if u.kind == TypePlan {
      PlanRoundTrip(u.plan.value);
    } else if u.kind == TypeToolCall {
      ToolCallRoundTrip(u.toolCall.value);
    } else if u.kind == TypeToolCallUpdate {
      ToolCallUpdateRoundTrip(u.toolCallUpdate.value);
    } else {
      ChunkRoundTrip(u.kind, u.userMessageChunk.value);
    }
    DecodeObject(Encode(u).value.fields, u.kind);
  }

  // ---- Decoding over a used value ----

  lemma DecodedToolCallsEncode(m: map<string, Json>)
    requires DecodeToolCall(m).Ok?
    ensures EncodeToolCall(DecodeToolCall(m).value).Ok?
  {
  }

  /** Whether decoding succeeds does not depend on the old value. When it does, the getters and the
      encoding show a fresh decode. */
  lemma DecodeOverwrites(u: SessionUpdate, j: Json)
    ensures DecodeInto(u, j).error == DecodeInto(ZERO, j).error
    ensures DecodeInto(u, j).error.None? ==>
              var v := DecodeInto(u, j).value;
              var pristine := DecodeInto(ZERO, j).value;
              Shown(v) == pristine && Encode(v) == Encode(pristine)
  {
  }

  /** What a decoded value satisfies: it encodes, and holds nothing that would not come back. */
  predicate Encodable(v: SessionUpdate) {
    Encode(v).Ok? && Active(v) == v && !ContentBlocks.NilInterfaceAt(Content(v))
  }

  lemma ToolCallIsEncodable(v: ToolCall)
    requires EncodeToolCall(v).Ok?
    ensures Encodable(ZERO.(kind := TypeToolCall, toolCall := Some(v)))
  {
  }

  lemma ToolCallUpdateIsEncodable(v: ToolCallUpdate)
    ensures Encodable(ZERO.(kind := TypeToolCallUpdate, toolCallUpdate := Some(v)))
  {
  }

  lemma PlanIsEncodable(v: Plan)
    ensures Encodable(ZERO.(kind := TypePlan, plan := Some(v)))
  {
  }

  lemma ChunkIsEncodable(v: Chunk)
    requires ContentBlocks.EncodePointer(v.content).Ok? && ContentBlocks.ActivePointer(v.content) == v.content
    requires !ContentBlocks.NilInterfaceAt(v.content)
    ensures Encodable(ZERO.(kind := TypeAgentMessageChunk, agentMessageChunk := Some(v)))
    ensures Encodable(ZERO.(kind := TypeAgentThoughtChunk, agentThoughtChunk := Some(v)))
    ensures Encodable(ZERO.(kind := TypeUserMessageChunk, userMessageChunk := Some(v)))
  {
  }

  lemma DecodedVariantsEncode(kind: Kind, m: map<string, Json>)
    requires DecodeVariant(ZERO.(kind := kind), m).error.None?
    ensures Encodable(DecodeVariant(ZERO.(kind := kind), m).value)
  {
    match kind
    case TypeToolCall =>
      DecodedToolCallsEncode(m);
      ToolCallIsEncodable(DecodeToolCall(m).value);
    case TypeToolCallUpdate => ToolCallUpdateIsEncodable(DecodeToolCallUpdate(m).value);
    case TypePlan => PlanIsEncodable(DecodePlan(m).value);
    case TypeOther(_) =>
    case _ =>
      ContentBlocks.DecodedPointers(Get(m, "content"));
      ChunkIsEncodable(DecodeChunk(m).value);
  }

  /** A value that decoding produced always encodes, and decodes to itself. */
  lemma DecodedValuesRoundTrip(j: Json)
    requires DecodeInto(ZERO, j).error.None?
    ensures var v := DecodeInto(ZERO, j).value;
            Encode(v).Ok? && DecodeInto(ZERO, Encode(v).value) == Decoded(v, None)
  {
    DecodedVariantsEncode(DecodeInto(ZERO, j).value.kind, j.fields);
    RoundTrip(DecodeInto(ZERO, j).value);
  }

  /** A failed decode never touches a variant, but it leaves the value as it was only if the
      discriminator itself was rejected or names the type already there. */
  lemma FailedDecodeKeepsVariants(u: SessionUpdate, j: Json)
    requires DecodeInto(u, j).error.Some?
    ensures var v := DecodeInto(u, j).value;
            var kind := DecodeDiscriminator(j, "sessionUpdate");
            && v == u.(kind := v.kind)
            && (v == u <==> kind.Err? || !IsValid(KindOf(kind.value)) || KindOf(kind.value) == u.kind)
  {
  }

  // ---- The wire format, key by key ----

  /** A chunk with a JSON discriminator: its block is written as a block, and left out for the nil pointer. */
  predicate WritesChunk(r: Result<Json, Failure>, name: string, block: Option<ContentBlock>) {
    && (r.Ok? <==> block.Some? ==> ContentBlocks.Encode(block.value).Ok?)
    && (r.Ok? ==>
          && r.value.Object? && HasOnly(r.value.fields, {"sessionUpdate", "content"})
          && SaysText(r.value.fields, "sessionUpdate", name)
          && ("content" in r.value.fields <==> block.Some?)
          && (block.Some? ==> r.value.fields["content"] == ContentBlocks.Encode(block.value).value))
    && (r.Err? ==> r.error == ContentBlocks.Encode(block.value).error)
  }

  lemma ChunkFieldsAreWritten(kind: Kind, v: Chunk)
    requires IsValid(kind)
    ensures WritesChunk(EncodeChunk(kind, v), Name(kind), v.content)
  {
    if EncodeChunk(kind, v).Ok? {
      var f := Pair(kind, ContentBlocks.EncodePointer(v.content).value);
      assert f[0].key == "sessionUpdate" && f[1].key == "content";
      AllOfPack(f);
      OnlyKeysOf(f, {"sessionUpdate", "content"});
    }
  }

  lemma ChunksAreWritten(u: SessionUpdate)
    ensures u.kind == TypeAgentMessageChunk && u.agentMessageChunk.Some? ==>
              WritesChunk(Encode(u), "agent_message_chunk", u.agentMessageChunk.value.content)
    ensures u.kind == TypeAgentThoughtChunk && u.agentThoughtChunk.Some? ==>
              WritesChunk(Encode(u), "agent_thought_chunk", u.agentThoughtChunk.value.content)
    ensures u.kind == TypeUserMessageChunk && u.userMessageChunk.Some? ==>
              WritesChunk(Encode(u), "user_message_chunk", u.userMessageChunk.value.content)
    ensures Encode(u).Ok? ==> Encode(u).value.Object?
    ensures Encode(u).Ok? && u.kind == TypeAgentMessageChunk ==>
              Get(Encode(u).value.fields, "sessionUpdate") == Some(Str("agent_message_chunk"))
    ensures Encode(u).Ok? && u.kind == TypeAgentThoughtChunk ==>
              Get(Encode(u).value.fields, "sessionUpdate") == Some(Str("agent_thought_chunk"))
    ensures Encode(u).Ok? && u.kind == TypeUserMessageChunk ==>
              Get(Encode(u).value.fields, "sessionUpdate") == Some(Str("user_message_chunk"))
  {
    if u.kind == TypeAgentMessageChunk && u.agentMessageChunk.Some? {
      ChunkFieldsAreWritten(u.kind, u.agentMessageChunk.value);
    } else if u.kind == TypeAgentThoughtChunk && u.agentThoughtChunk.Some? {
      ChunkFieldsAreWritten(u.kind, u.agentThoughtChunk.value);
    } else if u.kind == TypeUserMessageChunk && u.userMessageChunk.Some? {
      ChunkFieldsAreWritten(u.kind, u.userMessageChunk.value);
    }
  }

  lemma PlanIsWritten(u: SessionUpdate)
    requires u.kind == TypePlan && u.plan.Some?
    ensures Encode(u).Ok? && Encode(u).value.Object?
    ensures var m := Encode(u).value.fields;
            && HasOnly(m, {"sessionUpdate", "entries"}) && SaysText(m, "sessionUpdate", "plan")
            && SaysItems(m, "entries", u.plan.value.entries)
  {
    var f := PlanFields(u.plan.value);
    assert f[0].key == "sessionUpdate" && f[1].key == "entries";
    AllOfPack(f);
    OnlyKeysOf(f, {"sessionUpdate", "entries"});
  }

  lemma CallFieldsAreKeys(discriminator: Kind, content: Option<Json>, kind: Option<Json>, locations: Option<Json>,
                          rawInput: Option<Json>, rawOutput: Option<Json>, status: Option<Json>,
                          title: Option<Json>, toolCallId: Option<Json>)
    ensures HasOnly(Pack(CallFields(discriminator, content, kind, locations, rawInput, rawOutput, status, title,
                                    toolCallId)),
                    {"sessionUpdate", "content", "kind", "locations", "rawInput", "rawOutput", "status", "title",
                         "toolCallId"})
  {
    OnlyKeysOf(CallFields(discriminator, content, kind, locations, rawInput, rawOutput, status, title, toolCallId),
               {"sessionUpdate", "content", "kind", "locations", "rawInput", "rawOutput", "status", "title",
                         "toolCallId"});
  }

  predicate InEnum(p: Option<string>, values: set<string>) {
    p.Some? ==> p.value in values
  }

  /** A kind or a status that is not one of these is an error. */
  lemma ToolCallIsWritten(u: SessionUpdate)
    requires u.kind == TypeToolCall && u.toolCall.Some?
    ensures var v := u.toolCall.value;
            && (Encode(u).Ok? <==> InEnum(v.kind, {"delete", "edit", "execute", "fetch", "move", "other", "read",
                                                   "search", "think"})
                                   && InEnum(v.status, {"completed", "failed", "in_progress", "pending"}))
            && (Encode(u).Err? ==> Encode(u).error == NotInEnum)
  {
  }

  lemma ToolCallFieldsAreWritten(u: SessionUpdate)
    requires u.kind == TypeToolCall && u.toolCall.Some? && Encode(u).Ok?
    ensures Encode(u).value.Object?
    ensures var m, v := Encode(u).value.fields, u.toolCall.value;
            && HasOnly(m, {"sessionUpdate", "content", "kind", "locations", "rawInput", "rawOutput", "status", "title",
                         "toolCallId"})
            && SaysText(m, "sessionUpdate", "tool_call") && SaysItems(m, "content", v.content)
            && SaysOptional(m, "kind", v.kind) && SaysItems(m, "locations", v.locations)
            && SaysAny(m, "rawInput", v.rawInput) && SaysAny(m, "rawOutput", v.rawOutput)
            && SaysOptional(m, "status", v.status) && SaysText(m, "title", v.title)
            && SaysOptional(m, "toolCallId", v.toolCallId)
  {
    var v := u.toolCall.value;
    var kind := EncodeEnumPointer(v.kind, TOOL_KINDS).value;
    var status := EncodeEnumPointer(v.status, TOOL_CALL_STATUSES).value;
    GetOfCallFields(TypeToolCall, EncodeSlice(v.content), kind, EncodeSlice(v.locations), EncodeAny(v.rawInput),
                    EncodeAny(v.rawOutput), status, EncodeString(v.title), EncodeStringPointer(v.toolCallId));
    CallFieldsAreKeys(TypeToolCall, EncodeSlice(v.content), kind, EncodeSlice(v.locations), EncodeAny(v.rawInput),
                      EncodeAny(v.rawOutput), status, EncodeString(v.title), EncodeStringPointer(v.toolCallId));
  }

  lemma ToolCallUpdateIsWritten(u: SessionUpdate)
    requires u.kind == TypeToolCallUpdate && u.toolCallUpdate.Some?
    ensures Encode(u).Ok? && Encode(u).value.Object?
    ensures var m, v := Encode(u).value.fields, u.toolCallUpdate.value;
            && HasOnly(m, {"sessionUpdate", "content", "kind", "locations", "rawInput", "rawOutput", "status", "title",
                         "toolCallId"})
            && SaysText(m, "sessionUpdate", "tool_call_update") && SaysAny(m, "content", v.content)
            && SaysAny(m, "kind", v.kind) && SaysAny(m, "locations", v.locations)
            && SaysAny(m, "rawInput", v.rawInput) && SaysAny(m, "rawOutput", v.rawOutput)
            && SaysAny(m, "status", v.status) && SaysAny(m, "title", v.title)
            && SaysOptional(m, "toolCallId", v.toolCallId)
  {
    var v := u.toolCallUpdate.value;
    GetOfCallFields(TypeToolCallUpdate, EncodeAny(v.content), EncodeAny(v.kind), EncodeAny(v.locations),
                    EncodeAny(v.rawInput), EncodeAny(v.rawOutput), EncodeAny(v.status), EncodeAny(v.title),
                    EncodeStringPointer(v.toolCallId));
    CallFieldsAreKeys(TypeToolCallUpdate, EncodeAny(v.content), EncodeAny(v.kind), EncodeAny(v.locations),
                      EncodeAny(v.rawInput), EncodeAny(v.rawOutput), EncodeAny(v.status), EncodeAny(v.title),
                      EncodeStringPointer(v.toolCallId));
  }

  /** Writing fails for a type that is not one of the six, and for one whose variant is missing. */
  lemma WrittenOnlyIfThere(u: SessionUpdate)
    ensures u.kind.TypeOther? ==> Encode(u) == Err(InvalidType)
    ensures u.kind == TypeAgentMessageChunk && u.agentMessageChunk.None? ==> Encode(u) == Err(MissingVariant)
    ensures u.kind == TypeAgentThoughtChunk && u.agentThoughtChunk.None? ==> Encode(u) == Err(MissingVariant)
    ensures u.kind == TypePlan && u.plan.None? ==> Encode(u) == Err(MissingVariant)
    ensures u.kind == TypeToolCall && u.toolCall.None? ==> Encode(u) == Err(MissingVariant)
    ensures u.kind == TypeToolCallUpdate && u.toolCallUpdate.None? ==> Encode(u) == Err(MissingVariant)
    ensures u.kind == TypeUserMessageChunk && u.userMessageChunk.None? ==> Encode(u) == Err(MissingVariant)
  {
  }

  predicate ShowsOnly(u: SessionUpdate, name: string) {
    && (GetAgentMessageChunk(u).Some? <==> name == "agent_message_chunk")
    && (GetAgentThoughtChunk(u).Some? <==> name == "agent_thought_chunk")
    && (GetPlan(u).Some? <==> name == "plan")
    && (GetToolCall(u).Some? <==> name == "tool_call")
    && (GetToolCallUpdate(u).Some? <==> name == "tool_call_update")
    && (GetUserMessageChunk(u).Some? <==> name == "user_message_chunk")
  }

  lemma OnlyTypedObjectsAreRead(u: SessionUpdate, j: Json)
    requires DecodeInto(u, j).error.None?
    ensures j.Object? && "sessionUpdate" in j.fields && j.fields["sessionUpdate"].Str?
    ensures j.fields["sessionUpdate"].s in {"agent_message_chunk", "agent_thought_chunk", "plan", "tool_call",
                                            "tool_call_update", "user_message_chunk"}
    ensures var v, name := DecodeInto(u, j).value, j.fields["sessionUpdate"].s;
            && (GetAgentMessageChunk(v).Some? <==> name == "agent_message_chunk")
            && (GetAgentThoughtChunk(v).Some? <==> name == "agent_thought_chunk")
            && (GetPlan(v).Some? <==> name == "plan")
            && (GetToolCall(v).Some? <==> name == "tool_call")
            && (GetToolCallUpdate(v).Some? <==> name == "tool_call_update")
            && (GetUserMessageChunk(v).Some? <==> name == "user_message_chunk")
  {
  }

  lemma OthersAreRejected(u: SessionUpdate, j: Json)
    requires j.Object? && "sessionUpdate" in j.fields && j.fields["sessionUpdate"].Str? ==>
               j.fields["sessionUpdate"].s !in {"agent_message_chunk", "agent_thought_chunk", "plan", "tool_call",
                                                "tool_call_update", "user_message_chunk"}
    ensures DecodeInto(u, j).value == u
    ensures DecodeInto(u, j).error ==
            Some(if j.Null? || (j.Object? && !BadText(j.fields, "sessionUpdate")) then InvalidType else WrongType)
  {
  }

  /** A missing or null block is the nil pointer; any other is read as a block, with its error. */
  predicate ReadsChunk(m: map<string, Json>, shown: Option<Chunk>, error: Option<Failure>) {
    if Absent(m, "content") then error.None? && shown == Some(Chunk(None))
    else
      var block := ContentBlocks.DecodeInto(ContentBlocks.ZERO, m["content"]);
      error == block.error && (error.None? ==> shown == Some(Chunk(Some(block.value))))
  }

  lemma ChunksAreRead(u: SessionUpdate, m: map<string, Json>)
    requires "sessionUpdate" in m
    ensures var d := DecodeInto(u, Object(m));
            && (m["sessionUpdate"] == Str("agent_message_chunk") ==>
                  ReadsChunk(m, GetAgentMessageChunk(d.value), d.error))
            && (m["sessionUpdate"] == Str("agent_thought_chunk") ==>
                  ReadsChunk(m, GetAgentThoughtChunk(d.value), d.error))
            && (m["sessionUpdate"] == Str("user_message_chunk") ==>
                  ReadsChunk(m, GetUserMessageChunk(d.value), d.error))
  {
  }

  lemma PlanIsRead(u: SessionUpdate, m: map<string, Json>)
    requires "sessionUpdate" in m && m["sessionUpdate"] == Str("plan")
    ensures var d := DecodeInto(u, Object(m));
            && d.error == (if BadItems(m, "entries") then Some(WrongType) else None)
            && (d.error.None? ==>
                  ShowsOnly(d.value, "plan") && ReadsItems(m, "entries", GetPlan(d.value).value.entries))
  {
  }

  lemma ToolCallFieldsAreRead(m: map<string, Json>)
    requires DecodeToolCall(m).Ok?
    ensures var v := DecodeToolCall(m).value;
            && ReadsItems(m, "content", v.content) && ReadsOptional(m, "kind", v.kind)
            && ReadsItems(m, "locations", v.locations) && ReadsAny(m, "rawInput", v.rawInput)
            && ReadsAny(m, "rawOutput", v.rawOutput) && ReadsOptional(m, "status", v.status)
            && ReadsText(m, "title", v.title) && ReadsOptional(m, "toolCallId", v.toolCallId)
  {
  }

  lemma ToolCallErrors(m: map<string, Json>)
    ensures DecodeToolCall(m).Err? <==>
            || BadItems(m, "content") || BadItems(m, "locations") || BadText(m, "title") || BadText(m, "toolCallId")
            || BadEnum(m, "kind", {"delete", "edit", "execute", "fetch", "move", "other", "read", "search",
                                   "think"})
            || BadEnum(m, "status", {"completed", "failed", "in_progress", "pending"})
  {
  }

  lemma ToolCallIsRead(u: SessionUpdate, m: map<string, Json>)
    requires "sessionUpdate" in m && m["sessionUpdate"] == Str("tool_call")
    ensures var d := DecodeInto(u, Object(m));
            && (d.error.Some? <==>
                || BadItems(m, "content") || BadItems(m, "locations")
                || BadText(m, "title") || BadText(m, "toolCallId")
                || BadEnum(m, "kind", {"delete", "edit", "execute", "fetch", "move", "other", "read", "search",
                                       "think"})
                || BadEnum(m, "status", {"completed", "failed", "in_progress", "pending"}))
            && (d.error.None? ==>
                  && ShowsOnly(d.value, "tool_call") && var v := GetToolCall(d.value).value;
                  && ReadsItems(m, "content", v.content) && ReadsOptional(m, "kind", v.kind)
                  && ReadsItems(m, "locations", v.locations) && ReadsAny(m, "rawInput", v.rawInput)
                  && ReadsAny(m, "rawOutput", v.rawOutput) && ReadsOptional(m, "status", v.status)
                  && ReadsText(m, "title", v.title) && ReadsOptional(m, "toolCallId", v.toolCallId))
  {
    ToolCallErrors(m);
    if DecodeToolCall(m).Ok? {
      ToolCallFieldsAreRead(m);
    }
    assert DecodeInto(u, Object(m)) == DecodeVariant(u.(kind := TypeToolCall), m);
  }

  lemma ToolCallUpdateIsRead(u: SessionUpdate, m: map<string, Json>)
    requires "sessionUpdate" in m && m["sessionUpdate"] == Str("tool_call_update")
    ensures var d := DecodeInto(u, Object(m));
            && d.error == (if BadText(m, "toolCallId") then Some(WrongType) else None)
            && (d.error.None? ==>
                  && ShowsOnly(d.value, "tool_call_update") && var v := GetToolCallUpdate(d.value).value;
                  && ReadsAny(m, "content", v.content) && ReadsAny(m, "kind", v.kind)
                  && ReadsAny(m, "locations", v.locations) && ReadsAny(m, "rawInput", v.rawInput)
                  && ReadsAny(m, "rawOutput", v.rawOutput) && ReadsAny(m, "status", v.status)
                  && ReadsAny(m, "title", v.title) && ReadsOptional(m, "toolCallId", v.toolCallId))
  {
  }
}
