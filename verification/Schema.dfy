/**
  The schema extractor of `cmd/generate/internal/parser.go`: finds the string enums and the
  discriminated unions among the definitions of a JSON schema. The definitions and the properties
  are Go maps, iterated over in an arbitrary order.
 */
module Schema {
  import opened Json
  import opened Sequences
  import opened Sorting
  import opened Wrappers

  datatype EnumValue = EnumValue(value: string, description: string)
  datatype EnumDefinition = EnumDefinition(name: string, description: string, values: seq<EnumValue>)

  datatype UnionVariant = UnionVariant(name: string, value: string, description: string, properties: map<string, Json>,
                                       sortedProperties: seq<(string, Json)>, required: seq<string>)
  datatype UnionDefinition = UnionDefinition(name: string, description: string, discriminator: string,
                                             variants: seq<UnionVariant>)

  function EnumName(e: EnumDefinition): string { e.name }
  function UnionName(u: UnionDefinition): string { u.name }
  function ValueOf(v: EnumValue): string { v.value }
  function VariantValue(v: UnionVariant): string { v.value }

  // ---- Reading JSON ----

  /** `j.(map[string]interface{})[key]` */
  function Property(j: Json, key: string): Option<Json> {
    if j.Object? then Get(j.fields, key) else None
  }

  function StringProperty(j: Json, key: string): Option<string> {
    match Property(j, key)
    case Some(Str(s)) => Some(s)
    case _ => None
  }

  function ObjectProperty(j: Json, key: string): Option<map<string, Json>> {
    match Property(j, key)
    case Some(Object(fields)) => Some(fields)
    case _ => None
  }

  function OneOf(def: Json): Option<seq<Json>> {
    match Property(def, "oneOf")
    case Some(Array(items)) => Some(items)
    case _ => None
  }

  /** The white space of Unicode, which `strings.TrimSpace` removes. */
  predicate IsSpace(c: char) {
    var n := c as int;
    9 <= n <= 13 || n == 32 || n == 0x85 || n == 0xA0 || n == 0x1680 || 0x2000 <= n <= 0x200A
    || n == 0x2028 || n == 0x2029 || n == 0x202F || n == 0x205F || n == 0x3000
  }

  function TrimSpace(s: string): string
    decreases |s|
  {
    if s != "" && IsSpace(s[0]) then TrimSpace(s[1..])
    else if s != "" && IsSpace(s[|s| - 1]) then TrimSpace(s[..|s| - 1])
    else s
  }

  function Description(j: Json): string {
    match StringProperty(j, "description")
    case Some(s) => TrimSpace(s)
    case None => ""
  }

  // ---- Enums ----

  predicate IsStringEnum(oneOf: seq<Json>) {
    oneOf != [] && forall v <- oneOf :: Property(v, "const").Some? && StringProperty(v, "type") == Some("string")
  }

  /** The string constants among the variants, in schema order. */
  function EnumValues(oneOf: seq<Json>): seq<EnumValue> {
    if oneOf == [] then []
    else
      var v := oneOf[|oneOf| - 1];
      EnumValues(oneOf[..|oneOf| - 1])
      + match StringProperty(v, "const")
        case Some(value) => [EnumValue(value, Description(v))]
        case None => []
  }

  predicate QualifiesAsEnum(def: Json) {
    OneOf(def).Some? && IsStringEnum(OneOf(def).value)
  }

  ghost function EnumNames(defs: map<string, Json>): set<string> {
    set name <- defs | QualifiesAsEnum(defs[name])
  }

  /** `e` is the enum its definition describes: its values are a sorted permutation of the string constants. */
  ghost predicate Describes(defs: map<string, Json>, e: EnumDefinition) {
    && e.name in defs && QualifiesAsEnum(defs[e.name])
    && e.description == Description(defs[e.name])
    && multiset(e.values) == multiset(EnumValues(OneOf(defs[e.name]).value)) && SortedBy(e.values, ValueOf)
  }

  method CollectValues(oneOf: seq<Json>) returns (values: seq<EnumValue>)
    ensures values == EnumValues(oneOf)
  {
    values := [];
    for i := 0 to |oneOf|
      invariant values == EnumValues(oneOf[..i])
    {
      assert oneOf[..i + 1][..i] == oneOf[..i];
      var value := StringProperty(oneOf[i], "const");
      if value.Some? {
        values := values + [EnumValue(value.value, Description(oneOf[i]))];
      }
    }
    assert oneOf[..|oneOf|] == oneOf;
  }

  /** The values of `e` are in the order in which `sort` puts them. */
  ghost predicate DescribesBy(defs: map<string, Json>, e: EnumDefinition, sort: seq<EnumValue> -> seq<EnumValue>) {
    Describes(defs, e) && e.values == sort(EnumValues(OneOf(defs[e.name]).value))
  }

  method BuildEnum(defs: map<string, Json>, name: string, sort: seq<EnumValue> -> seq<EnumValue>)
      returns (e: EnumDefinition)
    requires name in defs && QualifiesAsEnum(defs[name]) && IsSort(sort, ValueOf)
    ensures e.name == name && DescribesBy(defs, e, sort)
  {
    var values := CollectValues(OneOf(defs[name]).value);
    e := EnumDefinition(name, Description(defs[name]), sort(values));
  }

  /** `s` has, in any order, one good element for each of `keys`. */
  ghost predicate Collects<T>(s: seq<T>, keys: set<string>, key: T -> string, good: T -> bool) {
    DistinctBy(s, key) && Elements(KeysOf(s, key)) == keys && forall x <- s :: good(x)
  }

  lemma CollectsOneMore<T>(s: seq<T>, keys: set<string>, key: T -> string, good: T -> bool, x: T)
    requires Collects(s, keys, key, good) && good(x) && key(x) !in keys
    ensures Collects(s + [x], keys + {key(x)}, key, good)
  {
    assert KeysOf(s + [x], key) == KeysOf(s, key) + [key(x)];
    assert forall i :: 0 <= i < |s| ==> KeysOf(s, key)[i] == key(s[i]);
  }

  /** Exactly the qualifying definitions, sorted by name; `sort` is the library's sort of values. */
  method FindEnums(defs: map<string, Json>, sort: seq<EnumValue> -> seq<EnumValue>)
      returns (enums: seq<EnumDefinition>)
    requires IsSort(sort, ValueOf)
    ensures Lists(enums, EnumNames(defs), EnumName, e => DescribesBy(defs, e, sort))
  {
    enums := [];
    var todo := defs.Keys;
    ghost var good := (e: EnumDefinition) => DescribesBy(defs, e, sort);
    ghost var names := EnumNames(defs);
    while todo != {}
      invariant todo <= defs.Keys
      invariant Collects(enums, names - todo, EnumName, good)
      decreases todo
    {
      var name :| name in todo;
      var def := defs[name];
      if OneOf(def).Some? && IsStringEnum(OneOf(def).value) {
        var e := BuildEnum(defs, name, sort);
        CollectsOneMore(enums, names - todo, EnumName, good, e);
        assert (names - todo) + {name} == names - (todo - {name});
        enums := enums + [e];
      } else {
        assert names - todo == names - (todo - {name});
      }
      todo := todo - {name};
    }
    assert names - {} == names;
    SortedIsListing(enums, names, EnumName, good);
    enums := SortBy(enums, EnumName);
  }

  /** The result does not depend on the iteration order of the definitions. */
  lemma EnumsAreDetermined(defs: map<string, Json>, sort: seq<EnumValue> -> seq<EnumValue>,
                           a: seq<EnumDefinition>, b: seq<EnumDefinition>)
    requires Lists(a, EnumNames(defs), EnumName, e => DescribesBy(defs, e, sort))
    requires Lists(b, EnumNames(defs), EnumName, e => DescribesBy(defs, e, sort))
    ensures a == b
  {
    forall x, y | x in a && y in b && EnumName(x) == EnumName(y) ensures x == y {
      assert DescribesBy(defs, x, sort) && DescribesBy(defs, y, sort);
    }
    ListingIsUnique(a, b, EnumNames(defs), EnumName, e => DescribesBy(defs, e, sort));
  }

  /** If no enum has the same constant twice, it does not depend on the library's sort either. */
  lemma EnumsAreDeterminedByAnySort(defs: map<string, Json>, a: seq<EnumDefinition>, b: seq<EnumDefinition>)
    requires forall name <- EnumNames(defs) :: DistinctBy(EnumValues(OneOf(defs[name]).value), ValueOf)
    requires Lists(a, EnumNames(defs), EnumName, e => Describes(defs, e))
    requires Lists(b, EnumNames(defs), EnumName, e => Describes(defs, e))
    ensures a == b
  {
    forall x, y | x in a && y in b && EnumName(x) == EnumName(y) ensures x == y {
      assert Describes(defs, x) && Describes(defs, y);
      PermutationKeepsDistinct(EnumValues(OneOf(defs[x.name]).value), x.values, ValueOf);
      SortedPermutationIsUnique(x.values, y.values, ValueOf);
    }
    ListingIsUnique(a, b, EnumNames(defs), EnumName, e => Describes(defs, e));
  }

  // ---- Names ----

  predicate IsSeparator(c: char) {
    c == '_' || c == '-' || c == '/'
  }

  predicate IsField(part: string) {
    part != "" && forall i :: 0 <= i < |part| ==> !IsSeparator(part[i])
  }

  /** `s` ends within a part. */
  predicate InPart(s: string) {
    s != "" && !IsSeparator(s[|s| - 1])
  }

  /** Puts `c` behind the last part, or begins a new part with it. */
  function AddTo(parts: seq<string>, c: char, goesOn: bool): seq<string>
    requires goesOn ==> parts != []
  {
    if goesOn then parts[..|parts| - 1] + [parts[|parts| - 1] + [c]] else parts + [[c]]
  }

  /** `strings.FieldsFunc`: the stretches between separators. */
  function Fields(s: string): (parts: seq<string>)
    ensures InPart(s) ==> parts != []
  {
    if s == "" then []
    else
      var n := |s| - 1;
      if IsSeparator(s[n]) then Fields(s[..n]) else AddTo(Fields(s[..n]), s[n], InPart(s[..n]))
  }

  /** Together these two determine the parts of any string: a stretch without separators is one part,
      and a separator divides. */
  lemma {:induction false} FieldsOfStretch(s: string)
    requires IsField(s)
    ensures Fields(s) == [s]
  {
    var n := |s| - 1;
    assert s == s[..n] + [s[n]];
    if n > 0 {
      FieldsOfStretch(s[..n]);
    }
  }

  /** What one more character does to the parts depends on the character before it. */
  lemma FieldsOneMore(s: string, c: char)
    ensures Fields(s + [c]) == if IsSeparator(c) then Fields(s)
                               else AddTo(Fields(s), c, InPart(s))
  {
    assert (s + [c])[..|s|] == s;
  }

  lemma AddToLater(a: seq<string>, b: seq<string>, c: char, goesOn: bool)
    requires goesOn ==> b != []
    ensures AddTo(a + b, c, goesOn) == a + AddTo(b, c, goesOn)
  {
  }

  /** A separator before a stretch does not matter to what follows the stretch. */
  lemma SeparatorBefore(a: string, c: char, front: string, last: char)
    requires IsSeparator(c) && Fields(a + [c] + front) == Fields(a) + Fields(front)
    ensures Fields(a + [c] + front + [last]) == Fields(a) + Fields(front + [last])
  {
    var s := a + [c] + front;
    assert s[|s| - 1] == if front == "" then c else front[|front| - 1];
    FieldsOneMore(front, last);
    FieldsOneMore(s, last);
    AddToLater(Fields(a), Fields(front), last, InPart(front));
  }

  lemma {:induction false} SeparatorDivides(a: string, c: char, b: string)
    requires IsSeparator(c)
    ensures Fields(a + [c] + b) == Fields(a) + Fields(b)
    decreases |b|
  {
    if b == "" {
      FieldsOneMore(a, c);
      assert a + [c] + b == a + [c];
    } else {
      var front, last := b[..|b| - 1], b[|b| - 1];
      SeparatorDivides(a, c, front);
      SeparatorBefore(a, c, front, last);
      assert b == front + [last] && a + [c] + b == a + [c] + front + [last];
    }
  }

  lemma {:induction false} PartsAreFields(s: string)
    ensures forall i :: 0 <= i < |Fields(s)| ==> IsField(Fields(s)[i])
  {
    if s != "" {
      PartsAreFields(s[..|s| - 1]);
    }
  }

  /** How the library puts the first byte of a part in upper case and the others in lower case. */
  type Capitals = string -> string

  function Joined(parts: seq<string>, capitalize: Capitals): string {
    if parts == [] then "" else Joined(parts[..|parts| - 1], capitalize) + capitalize(parts[|parts| - 1])
  }

  function CamelCase(s: string, capitalize: Capitals): string {
    Joined(Fields(s), capitalize)
  }

  method ToCamelCase(s: string, capitalize: Capitals) returns (result: string)
    ensures result == CamelCase(s, capitalize)
  {
    var parts := Fields(s);
    PartsAreFields(s);
    result := "";
    for i := 0 to |parts|
      invariant result == Joined(parts[..i], capitalize)
    {
      assert parts[..i + 1][..i] == parts[..i];
      if |parts[i]| > 0 {
        result := result + capitalize(parts[i]);
      }
    }
    assert parts[..|parts|] == parts;
  }

  // ---- Unions ----

  /** Every variant has a constant for the field. */
  predicate HasDiscriminatorField(oneOf: seq<Json>, field: string) {
    forall v <- oneOf ::
      && ObjectProperty(v, "properties").Some?
      && ObjectProperty(Object(ObjectProperty(v, "properties").value), field).Some?
      && "const" in ObjectProperty(Object(ObjectProperty(v, "properties").value), field).value
  }

  /** The first of the three common field names that all variants have; empty if none. */
  function FindDiscriminator(oneOf: seq<Json>): string {
    if oneOf == [] then ""
    else if HasDiscriminatorField(oneOf, "type") then "type"
    else if HasDiscriminatorField(oneOf, "sessionUpdate") then "sessionUpdate"
    else if HasDiscriminatorField(oneOf, "kind") then "kind"
    else ""
  }

  /** The strings of the `required` array. */
  function Strings(items: seq<Json>): seq<string> {
    if items == [] then []
    else
      Strings(items[..|items| - 1])
      + match items[|items| - 1] case Str(s) => [s] case _ => []
  }

  function Required(v: Json): seq<string> {
    match Property(v, "required")
    case Some(Array(items)) => Strings(items)
    case _ => []
  }

  /** Each name with its definition. */
  function Pairs(names: seq<string>, properties: map<string, Json>): seq<(string, Json)>
    requires forall name <- names :: name in properties
  {
    seq(|names|, i requires 0 <= i < |names| => (names[i], properties[names[i]]))
  }

  ghost function SortedProperties(properties: map<string, Json>): seq<(string, Json)> {
    var names := InOrder(properties.Keys);
    assert forall name <- names :: name in Elements(names);
    Pairs(names, properties)
  }

  /** The constant of a variant's discriminator, if it is a string. */
  function DiscriminatorValue(v: Json, discriminator: string): Option<string> {
    match ObjectProperty(v, "properties")
    case None => None
    case Some(properties) =>
      match ObjectProperty(Object(properties), discriminator)
      case None => None
      case Some(field) => StringProperty(Object(field), "const")
  }

  ghost function VariantOf(v: Json, discriminator: string, capitalize: Capitals): UnionVariant
    requires DiscriminatorValue(v, discriminator).Some?
  {
    var properties := ObjectProperty(v, "properties").value;
    var value := DiscriminatorValue(v, discriminator).value;
    UnionVariant(CamelCase(value, capitalize), value, Description(v), properties,
                 SortedProperties(properties), Required(v))
  }

  /** The variants with a string constant, in schema order. */
  ghost function Variants(oneOf: seq<Json>, discriminator: string, capitalize: Capitals): seq<UnionVariant> {
    if oneOf == [] then []
    else
      var v := oneOf[|oneOf| - 1];
      Variants(oneOf[..|oneOf| - 1], discriminator, capitalize)
      + if DiscriminatorValue(v, discriminator).Some? then [VariantOf(v, discriminator, capitalize)] else []
  }

  predicate QualifiesAsUnion(def: Json) {
    OneOf(def).Some? && FindDiscriminator(OneOf(def).value) != ""
  }

  ghost function UnionNames(defs: map<string, Json>): set<string> {
    set name <- defs | QualifiesAsUnion(defs[name])
  }

  ghost function VariantsIn(def: Json, capitalize: Capitals): seq<UnionVariant>
    requires QualifiesAsUnion(def)
  {
    Variants(OneOf(def).value, FindDiscriminator(OneOf(def).value), capitalize)
  }

  /** `u` is the union its definition describes: its variants are a sorted permutation. */
  ghost predicate DescribesUnion(defs: map<string, Json>, u: UnionDefinition, capitalize: Capitals) {
    && u.name in defs && QualifiesAsUnion(defs[u.name])
    && u.description == Description(defs[u.name])
    && u.discriminator == FindDiscriminator(OneOf(defs[u.name]).value)
    && multiset(u.variants) == multiset(VariantsIn(defs[u.name], capitalize)) && SortedBy(u.variants, VariantValue)
  }

  ghost predicate DescribesUnionBy(defs: map<string, Json>, u: UnionDefinition, capitalize: Capitals,
                                   sort: seq<UnionVariant> -> seq<UnionVariant>) {
    DescribesUnion(defs, u, capitalize) && u.variants == sort(VariantsIn(defs[u.name], capitalize))
  }

  /** The names, in the arbitrary order of Go's iteration. */
  method PropertyNames(properties: map<string, Json>) returns (propNames: seq<string>)
    ensures Distinct(propNames) && Elements(propNames) == properties.Keys
  {
    propNames := [];
    var todo := properties.Keys;
    while todo != {}
      invariant todo <= properties.Keys && Distinct(propNames)
      invariant Elements(propNames) == properties.Keys - todo
      decreases todo
    {
      var name :| name in todo;
      assert forall n <- propNames :: n in Elements(propNames);
      assert Elements(propNames + [name]) == Elements(propNames) + {name};
      propNames := propNames + [name];
      todo := todo - {name};
    }
  }

  method PairUp(names: seq<string>, properties: map<string, Json>) returns (pairs: seq<(string, Json)>)
    requires forall name <- names :: name in properties
    ensures pairs == Pairs(names, properties)
  {
    pairs := [];
    for i := 0 to |names|
      invariant pairs == Pairs(names, properties)[..i]
    {
      pairs := pairs + [(names[i], properties[names[i]])];
    }
  }

  method SortProperties(properties: map<string, Json>) returns (sortedProps: seq<(string, Json)>)
    ensures sortedProps == SortedProperties(properties)
  {
    var propNames := PropertyNames(properties);
    SortedSetIsInOrder(propNames);
    propNames := SortBy(propNames, (k: string) => k);
    assert forall name <- propNames :: name in Elements(propNames);
    sortedProps := PairUp(propNames, properties);
  }

  method CollectVariants(oneOf: seq<Json>, discriminator: string, capitalize: Capitals)
      returns (variants: seq<UnionVariant>)
    ensures variants == Variants(oneOf, discriminator, capitalize)
  {
    variants := [];
    for i := 0 to |oneOf|
      invariant variants == Variants(oneOf[..i], discriminator, capitalize)
    {
      assert oneOf[..i + 1][..i] == oneOf[..i];
      var value := DiscriminatorValue(oneOf[i], discriminator);
      if value.Some? {
        var properties := ObjectProperty(oneOf[i], "properties").value;
        var sortedProps := SortProperties(properties);
        var name := ToCamelCase(value.value, capitalize);
        variants := variants + [UnionVariant(name, value.value, Description(oneOf[i]), properties, sortedProps,
                                             Required(oneOf[i]))];
      }
    }
    assert oneOf[..|oneOf|] == oneOf;
  }

  method BuildUnion(defs: map<string, Json>, name: string, capitalize: Capitals,
                    sort: seq<UnionVariant> -> seq<UnionVariant>)
      returns (u: UnionDefinition)
    requires name in defs && QualifiesAsUnion(defs[name]) && IsSort(sort, VariantValue)
    ensures u.name == name && DescribesUnionBy(defs, u, capitalize, sort)
  {
    var oneOf := OneOf(defs[name]).value;
    var variants := CollectVariants(oneOf, FindDiscriminator(oneOf), capitalize);
    u := UnionDefinition(name, Description(defs[name]), FindDiscriminator(oneOf), sort(variants));
  }

  /** Exactly the qualifying definitions, sorted by name; `sort` is the library's sort of variants. */
  method FindUnions(defs: map<string, Json>, capitalize: Capitals, sort: seq<UnionVariant> -> seq<UnionVariant>)
      returns (unions: seq<UnionDefinition>)
    requires IsSort(sort, VariantValue)
    ensures Lists(unions, UnionNames(defs), UnionName, u => DescribesUnionBy(defs, u, capitalize, sort))
  {
    unions := [];
    var todo := defs.Keys;
    ghost var good := (u: UnionDefinition) => DescribesUnionBy(defs, u, capitalize, sort);
    ghost var names := UnionNames(defs);
    while todo != {}
      invariant todo <= defs.Keys
      invariant Collects(unions, names - todo, UnionName, good)
      decreases todo
    {
      var name :| name in todo;
      var def := defs[name];
      if OneOf(def).Some? && FindDiscriminator(OneOf(def).value) != "" {
        var u := BuildUnion(defs, name, capitalize, sort);
        CollectsOneMore(unions, names - todo, UnionName, good, u);
        assert (names - todo) + {name} == names - (todo - {name});
        unions := unions + [u];
      } else {
        assert names - todo == names - (todo - {name});
      }
      todo := todo - {name};
    }
    assert names - {} == names;
    SortedIsListing(unions, names, UnionName, good);
    unions := SortBy(unions, UnionName);
  }

  /** The result does not depend on the iteration order of the definitions or of any variant's
      properties. */
  lemma UnionsAreDetermined(defs: map<string, Json>, capitalize: Capitals, sort: seq<UnionVariant> -> seq<UnionVariant>,
                            a: seq<UnionDefinition>, b: seq<UnionDefinition>)
    requires Lists(a, UnionNames(defs), UnionName, u => DescribesUnionBy(defs, u, capitalize, sort))
    requires Lists(b, UnionNames(defs), UnionName, u => DescribesUnionBy(defs, u, capitalize, sort))
    ensures a == b
  {
    forall x, y | x in a && y in b && UnionName(x) == UnionName(y) ensures x == y {
      assert DescribesUnionBy(defs, x, capitalize, sort) && DescribesUnionBy(defs, y, capitalize, sort);
    }
    ListingIsUnique(a, b, UnionNames(defs), UnionName, u => DescribesUnionBy(defs, u, capitalize, sort));
  }

  /** If no union has the same discriminator value twice, it does not depend on the library's sort either. */
  lemma UnionsAreDeterminedByAnySort(defs: map<string, Json>, capitalize: Capitals, a: seq<UnionDefinition>,
                                     b: seq<UnionDefinition>)
    requires forall name <- UnionNames(defs) :: DistinctBy(VariantsIn(defs[name], capitalize), VariantValue)
    requires Lists(a, UnionNames(defs), UnionName, u => DescribesUnion(defs, u, capitalize))
    requires Lists(b, UnionNames(defs), UnionName, u => DescribesUnion(defs, u, capitalize))
    ensures a == b
  {
    forall x, y | x in a && y in b && UnionName(x) == UnionName(y) ensures x == y {
      assert DescribesUnion(defs, x, capitalize) && DescribesUnion(defs, y, capitalize);
      PermutationKeepsDistinct(VariantsIn(defs[x.name], capitalize), x.variants, VariantValue);
      SortedPermutationIsUnique(x.variants, y.variants, VariantValue);
    }
    ListingIsUnique(a, b, UnionNames(defs), UnionName, u => DescribesUnion(defs, u, capitalize));
  }

  // ---- What is read from a schema, key by key ----

  predicate Has(j: Json, key: string) {
    j.Object? && key in j.fields
  }

  /** An enum: an object whose `oneOf` is a list, not empty, of objects each with a `const` and the type
      string. */
  lemma EnumIff(def: Json)
    ensures QualifiesAsEnum(def) <==>
            && Has(def, "oneOf") && def.fields["oneOf"].Array? && def.fields["oneOf"].items != []
            && forall v <- def.fields["oneOf"].items ::
                 Has(v, "const") && Has(v, "type") && v.fields["type"] == Str("string")
  {
  }

  /** The values are those variants whose constant is a string, one for each, in order. */
  lemma {:induction false} ValuesOneByOne(a: seq<Json>, b: seq<Json>, v: Json)
    ensures EnumValues(a + b) == EnumValues(a) + EnumValues(b)
    ensures EnumValues([v]) == if Has(v, "const") && v.fields["const"].Str?
                               then [EnumValue(v.fields["const"].s, Description(v))] else []
    decreases |b|
  {
    assert [v][..0] == [] && EnumValues([]) == [];
    if b == [] {
      assert a + b == a;
    } else {
      assert (a + b)[..|a + b| - 1] == a + b[..|b| - 1];
      ValuesOneByOne(a, b[..|b| - 1], v);
    }
  }

  /** The text of `description`, trimmed, if there is one. */
  lemma DescriptionIs(j: Json)
    ensures Description(j) == if Has(j, "description") && j.fields["description"].Str?
                              then TrimSpace(j.fields["description"].s) else ""
  {
  }

  lemma SpacesAre(c: char)
    ensures IsSpace(c) <==>
            c as int in {9, 10, 11, 12, 13, 32, 133, 160, 5760, 8192, 8193, 8194, 8195, 8196, 8197, 8198, 8199, 8200,
                         8201, 8202, 8232, 8233, 8239, 8287, 12288}
  {
  }

  /** Trimming takes spaces off both ends, all of them, and nothing else. */
  lemma {:induction false} TrimSpaceIs(s: string) returns (before: string, after: string)
    ensures s == before + TrimSpace(s) + after
    ensures forall i :: 0 <= i < |before| ==> IsSpace(before[i])
    ensures forall i :: 0 <= i < |after| ==> IsSpace(after[i])
    ensures var t := TrimSpace(s); t == "" || (!IsSpace(t[0]) && !IsSpace(t[|t| - 1]))
    decreases |s|
  {
    if s != "" && IsSpace(s[0]) {
      before, after := TrimSpaceIs(s[1..]);
      before := [s[0]] + before;
    } else if s != "" && IsSpace(s[|s| - 1]) {
      before, after := TrimSpaceIs(s[..|s| - 1]);
      after := after + [s[|s| - 1]];
    } else {
      before, after := "", "";
    }
  }

  lemma SeparatorsAre(c: char)
    ensures IsSeparator(c) <==> c in {'_', '-', '/'}
  {
  }

  /** The variant has a constant for a field: an object under `properties`, in it an object under the
      field's name, and in that a `const`. */
  predicate HasConstant(v: Json, field: string) {
    && Has(v, "properties") && Has(v.fields["properties"], field)
    && Has(v.fields["properties"].fields[field], "const")
  }

  predicate AllHaveConstant(oneOf: seq<Json>, field: string) {
    forall v <- oneOf :: HasConstant(v, field)
  }

  lemma ConstantsAre(oneOf: seq<Json>, field: string)
    ensures HasDiscriminatorField(oneOf, field) <==> AllHaveConstant(oneOf, field)
  {
    forall v | v in oneOf
      ensures HasConstant(v, field) <==>
              && ObjectProperty(v, "properties").Some?
              && ObjectProperty(Object(ObjectProperty(v, "properties").value), field).Some?
              && "const" in ObjectProperty(Object(ObjectProperty(v, "properties").value), field).value
    {
    }
  }

  /** A union: an object whose `oneOf` is a list, not empty, all of whose variants have a constant for one
      of three fields; the first of these is the discriminator. */
  lemma DiscriminatorIs(def: Json)
    ensures QualifiesAsUnion(def) <==>
            && Has(def, "oneOf") && def.fields["oneOf"].Array? && var oneOf := def.fields["oneOf"].items;
            && oneOf != []
            && (AllHaveConstant(oneOf, "type") || AllHaveConstant(oneOf, "sessionUpdate")
                || AllHaveConstant(oneOf, "kind"))
    ensures QualifiesAsUnion(def) ==>
              var oneOf := def.fields["oneOf"].items;
              FindDiscriminator(oneOf) == if AllHaveConstant(oneOf, "type") then "type"
                                          else if AllHaveConstant(oneOf, "sessionUpdate") then "sessionUpdate"
                                          else "kind"
  {
    if Has(def, "oneOf") && def.fields["oneOf"].Array? {
      ConstantsAre(def.fields["oneOf"].items, "type");
      ConstantsAre(def.fields["oneOf"].items, "sessionUpdate");
      ConstantsAre(def.fields["oneOf"].items, "kind");
    }
  }

  lemma {:induction false} VariantsConcat(a: seq<Json>, b: seq<Json>, field: string, capitalize: Capitals)
    ensures Variants(a + b, field, capitalize) == Variants(a, field, capitalize) + Variants(b, field, capitalize)
    decreases |b|
  {
    if b == [] {
      assert a + b == a;
    } else {
      assert (a + b)[..|a + b| - 1] == a + b[..|b| - 1];
      VariantsConcat(a, b[..|b| - 1], field, capitalize);
    }
  }

  lemma ConstantIs(v: Json, field: string)
    ensures DiscriminatorValue(v, field) ==
            if HasConstant(v, field) && v.fields["properties"].fields[field].fields["const"].Str?
            then Some(v.fields["properties"].fields[field].fields["const"].s) else None
  {
  }

  /** Each variant whose constant is a string gives one union variant, in order, with that value, its own
      description, properties and required names. */
  lemma VariantsOneByOne(a: seq<Json>, b: seq<Json>, v: Json, field: string, capitalize: Capitals)
    ensures Variants(a + b, field, capitalize) == Variants(a, field, capitalize) + Variants(b, field, capitalize)
    ensures !(HasConstant(v, field) && v.fields["properties"].fields[field].fields["const"].Str?) ==>
              Variants([v], field, capitalize) == []
    ensures HasConstant(v, field) && v.fields["properties"].fields[field].fields["const"].Str? ==>
              var value := v.fields["properties"].fields[field].fields["const"].s;
              var properties := v.fields["properties"].fields;
              Variants([v], field, capitalize)
              == [UnionVariant(CamelCase(value, capitalize), value, Description(v), properties,
                               SortedProperties(properties), Required(v))]
  {
    VariantsConcat(a, b, field, capitalize);
    ConstantIs(v, field);
    assert [v][..0] == [] && Variants([], field, capitalize) == [];
  }

  /** The names under `required`: the strings of that list, in order. */
  lemma RequiredIs(v: Json)
    ensures Required(v) == if Has(v, "required") && v.fields["required"].Array?
                           then Strings(v.fields["required"].items) else []
  {
  }

  lemma {:induction false} StringsOneByOne(a: seq<Json>, b: seq<Json>, j: Json)
    ensures Strings(a + b) == Strings(a) + Strings(b)
    ensures Strings([j]) == if j.Str? then [j.s] else []
    decreases |b|
  {
    assert [j][..0] == [] && Strings([]) == [];
    if b == [] {
      assert a + b == a;
    } else {
      assert (a + b)[..|a + b| - 1] == a + b[..|b| - 1];
      StringsOneByOne(a, b[..|b| - 1], j);
    }
  }
}
