/**
  An abstract JSON value (section 4 of RFC 8259 for objects), and how `encoding/json` treats the
  field types the generated unions use. A Go `interface{}` that holds a JSON-native value is that
  value, nil being `Null`; a nil slice and an empty one are the same here. Every field is tagged
  `omitempty`.
 */
module Json {
  import opened Wrappers

  datatype Json =
    | Null
    | Bool(b: bool)
    | Number(n: real)
    | Str(s: string)
    | Array(items: seq<Json>)
    | Object(fields: map<string, Json>)

  /** Why encoding or decoding fails; stands for Go's error texts. */
  datatype Failure = WrongType | NotInEnum | InvalidType | MissingVariant

  function Get(m: map<string, Json>, key: string): Option<Json> {
    if key in m then Some(m[key]) else None
  }

  // ---- Structs as lists of fields ----

  /** A struct field; None is an omitted one. */
  datatype Field = Field(key: string, value: Option<Json>)

  function Pack(fields: seq<Field>): map<string, Json> {
    if fields == [] then map[]
    else
      var rest := Pack(fields[1..]);
      if fields[0].value.Some? then rest[fields[0].key := fields[0].value.value] else rest
  }

  predicate DistinctKeys(fields: seq<Field>) {
    forall i, j :: 0 <= i < j < |fields| ==> fields[i].key != fields[j].key
  }

  lemma {:induction false} PackHasOnlyFields(fields: seq<Field>, key: string)
    requires forall field <- fields :: field.key != key
    ensures key !in Pack(fields)
  {
    if fields != [] {
      assert forall field <- fields[1..] :: field in fields;
      assert fields[0] in fields;
      PackHasOnlyFields(fields[1..], key);
    }
  }

  /** With distinct keys, packing loses nothing: each key has its own field's value. */
  lemma {:induction false} GetOfPack(fields: seq<Field>, i: nat)
    requires DistinctKeys(fields) && i < |fields|
    ensures Get(Pack(fields), fields[i].key) == fields[i].value
  {
    if i == 0 {
      PackHasOnlyFields(fields[1..], fields[0].key);
    } else {
      GetOfPack(fields[1..], i - 1);
    }
  }

  lemma AllOfPack(fields: seq<Field>)
    requires DistinctKeys(fields)
    ensures forall i :: 0 <= i < |fields| ==> Get(Pack(fields), fields[i].key) == fields[i].value
  {
    forall i | 0 <= i < |fields| ensures Get(Pack(fields), fields[i].key) == fields[i].value {
      GetOfPack(fields, i);
    }
  }

  lemma OnlyKeysOf(fields: seq<Field>, keys: set<string>)
    requires forall i :: 0 <= i < |fields| ==> fields[i].key in keys
    ensures Pack(fields).Keys <= keys
  {
    forall key | key in Pack(fields) ensures key in keys {
      if key !in keys {
        PackHasOnlyFields(fields, key);
      }
    }
  }

  // ---- Encoding and decoding of one field ----

  function EncodeString(s: string): Option<Json> {
    if s == "" then None else Some(Str(s))
  }

  function DecodeString(o: Option<Json>): Result<string, Failure> {
    match o
    case None => Ok("")
    case Some(Null) => Ok("")
    case Some(Str(s)) => Ok(s)
    case Some(_) => Err(WrongType)
  }

  function EncodeAny(j: Json): Option<Json> {
    if j.Null? then None else Some(j)
  }

  function DecodeAny(o: Option<Json>): Json {
    if o.None? then Null else o.value
  }

  function EncodeSlice(items: seq<Json>): Option<Json> {
    if items == [] then None else Some(Array(items))
  }

  function DecodeSlice(o: Option<Json>): Result<seq<Json>, Failure> {
    match o
    case None => Ok([])
    case Some(Null) => Ok([])
    case Some(Array(items)) => Ok(items)
    case Some(_) => Err(WrongType)
  }

  /** A pointer to an interface: null decodes to the nil pointer. */
  function DecodeAnyPointer(o: Option<Json>): Option<Json> {
    if o == Some(Null) then None else o
  }

  function EncodeStringPointer(p: Option<string>): Option<Json> {
    if p.None? then None else Some(Str(p.value))
  }

  function DecodeStringPointer(o: Option<Json>): Result<Option<string>, Failure> {
    match o
    case None => Ok(None)
    case Some(Null) => Ok(None)
    case Some(Str(s)) => Ok(Some(s))
    case Some(_) => Err(WrongType)
  }

  /** A pointer to a string enum, whose own methods reject values outside the enum. */
  function EncodeEnumPointer(p: Option<string>, values: set<string>): Result<Option<Json>, Failure> {
    if p.Some? && p.value !in values then Err(NotInEnum) else Ok(EncodeStringPointer(p))
  }

  function DecodeEnumPointer(o: Option<Json>, values: set<string>): Result<Option<string>, Failure> {
    var p := DecodeStringPointer(o);
    if p.Ok? && p.value.Some? && p.value.value !in values then Err(NotInEnum) else p
  }

  /** The discriminator alone: absent and null leave it empty. */
  function DecodeDiscriminator(j: Json, key: string): Result<string, Failure> {
    match j
    case Object(fields) => DecodeString(Get(fields, key))
    case Null => Ok("")
    case _ => Err(WrongType)
  }

  // ---- What an object says under a key, and what may be read from it ----

  predicate HasOnly(m: map<string, Json>, keys: set<string>) {
    m.Keys <= keys
  }

  predicate SaysText(m: map<string, Json>, key: string, s: string) {
    if s == "" then key !in m else key in m && m[key] == Str(s)
  }

  predicate SaysAny(m: map<string, Json>, key: string, j: Json) {
    if j == Null then key !in m else key in m && m[key] == j
  }

  predicate SaysItems(m: map<string, Json>, key: string, items: seq<Json>) {
    if items == [] then key !in m else key in m && m[key] == Array(items)
  }

  predicate SaysOptional(m: map<string, Json>, key: string, p: Option<string>) {
    if p.None? then key !in m else key in m && m[key] == Str(p.value)
  }

  /** Missing or null. */
  predicate Absent(m: map<string, Json>, key: string) {
    key !in m || m[key] == Null
  }

  predicate ReadsText(m: map<string, Json>, key: string, s: string) {
    if Absent(m, key) then s == "" else m[key] == Str(s)
  }

  predicate ReadsAny(m: map<string, Json>, key: string, j: Json) {
    j == if key in m then m[key] else Null
  }

  predicate ReadsItems(m: map<string, Json>, key: string, items: seq<Json>) {
    if Absent(m, key) then items == [] else m[key] == Array(items)
  }

  predicate ReadsOptional(m: map<string, Json>, key: string, p: Option<string>) {
    if Absent(m, key) then p.None? else p.Some? && m[key] == Str(p.value)
  }

  predicate BadText(m: map<string, Json>, key: string) {
    !Absent(m, key) && !m[key].Str?
  }

  predicate BadItems(m: map<string, Json>, key: string) {
    !Absent(m, key) && !m[key].Array?
  }

  predicate BadEnum(m: map<string, Json>, key: string, values: set<string>) {
    !Absent(m, key) && !(m[key].Str? && m[key].s in values)
  }
}
