/** From the artifact types to their schema: what the generated definitions accept, and that they are complete. */
module SchemaGenerator {
  import opened Options
  import opened JsonSchema

  /** `BytesType` is a slice of 8-bit integers, which the emitter treats as any slice and the encoder does not. */
  datatype Type =
    | BoolType
    | IntType
    | FloatType
    | StringType
    | EnumType(name: string)
    | TimeType
    | BytesType
    | SliceType(elem: Type)
    | MapType(elem: Type)
    | PointerType(elem: Type)
    | StructType(name: string)
    | OtherType

  /** A published field: its JSON name, whether its tag says omitempty, and its type. */
  datatype Member = Member(name: string, optional: bool, kind: Type)

  /** A struct type: the structs it embeds, inlined by the emitter, and its own published fields. */
  datatype Shape = Shape(name: string, embedded: seq<Shape>, own: seq<Member>)

  datatype World = World(structs: map<string, Shape>, enums: map<string, seq<string>>)

  // ---------------------------------------------------------------- jsonSchemaFor and structSchema

  function Typed(name: string): Schema {
    BLANK.(types := Some([name]))
  }

  function RefTo(name: string): Schema {
    BLANK.(ref := Some(PREFIX + name))
  }

  function SchemaFor(t: Type): Schema {
    match t
    case BoolType => Typed("boolean")
    case IntType => Typed("integer")
    case FloatType => Typed("number")
    case StringType => Typed("string")
    case EnumType(name) => RefTo(name)
    case TimeType => BLANK.(types := Some(["string"]), dateTime := true)
    case BytesType => BLANK.(types := Some(["array"]), items := All(Typed("integer")))
    case SliceType(elem) => BLANK.(types := Some(["array"]), items := All(SchemaFor(elem)))
    case MapType(elem) => BLANK.(types := Some(["object"]), additional := Each(SchemaFor(elem)))
    case PointerType(elem) => SchemaFor(elem)
    case StructType(name) => RefTo(name)
    case OtherType => BLANK
  }

  /** Every field an object of the shape publishes: the embedded ones first. */
  function Members(sh: Shape): seq<Member>
    decreases sh, 0
  {
    MembersOf(sh.embedded) + sh.own
  }

  function MembersOf(shapes: seq<Shape>): seq<Member>
    decreases shapes
  {
    if shapes == [] then [] else MembersOf(shapes[..|shapes| - 1]) + Members(shapes[|shapes| - 1])
  }

  function Properties(ms: seq<Member>): map<string, Schema> {
    if ms == [] then map[] else Properties(ms[..|ms| - 1])[ms[|ms| - 1].name := SchemaFor(ms[|ms| - 1].kind)]
  }

  function Required(ms: seq<Member>): seq<string> {
    if ms == [] then []
    else Required(ms[..|ms| - 1]) + if ms[|ms| - 1].optional then [] else [ms[|ms| - 1].name]
  }

  /** An object schema that names all its properties and takes no others. */
  function Closed(properties: map<string, Schema>, required: seq<string>): Schema {
    BLANK.(types := Some(["object"]), properties := properties, required := required, additional := Forbidden)
  }

  function ObjectSchema(ms: seq<Member>): Schema {
    Closed(Properties(ms), Required(ms))
  }

  lemma {:induction false} PropertiesMerge(a: seq<Member>, b: seq<Member>)
    ensures Properties(a + b) == Properties(a) + Properties(b)
    ensures Required(a + b) == Required(a) + Required(b)
  {
    if b == [] {
      assert a + b == a;
    } else {
      var front, last := b[..|b| - 1], b[|b| - 1];
      assert (a + b)[..|a + b| - 1] == a + front && (a + b)[|a + b| - 1] == last;
      PropertiesMerge(a, front);
    }
  }

  /** `structSchema`: the embedded structs' properties are copied in, then the own fields are added. */
  method StructSchema(sh: Shape) returns (s: Schema)
    ensures s == ObjectSchema(Members(sh))
    decreases sh
  {
    var props: map<string, Schema> := map[];
    var required: seq<string> := [];
    var i := 0;
    while i < |sh.embedded|
      invariant 0 <= i <= |sh.embedded|
      invariant props == Properties(MembersOf(sh.embedded[..i]))
      invariant required == Required(MembersOf(sh.embedded[..i]))
    {
      assert sh.embedded[..i + 1][..i] == sh.embedded[..i];
      PropertiesMerge(MembersOf(sh.embedded[..i]), Members(sh.embedded[i]));
      var inlined := StructSchema(sh.embedded[i]);
      props := props + inlined.properties;
      required := required + inlined.required;
      i := i + 1;
    }
    assert sh.embedded[..i] == sh.embedded;
    props, required := AddOwn(MembersOf(sh.embedded), sh.own, props, required);
    s := Closed(props, required);
  }

  method AddOwn(ghost inherited: seq<Member>, own: seq<Member>, props: map<string, Schema>, required: seq<string>)
    returns (all: map<string, Schema>, names: seq<string>)
    requires props == Properties(inherited) && required == Required(inherited)
    ensures all == Properties(inherited + own) && names == Required(inherited + own)
  {
    all, names := props, required;
    var i := 0;
    ghost var done := inherited;
    while i < |own|
      invariant 0 <= i <= |own| && done == inherited + own[..i]
      invariant all == Properties(done) && names == Required(done)
    {
      OneMoreMember(done, own[i]);
      all := all[own[i].name := SchemaFor(own[i].kind)];
      if !own[i].optional {
        names := names + [own[i].name];
      }
      done := done + [own[i]];
      i := i + 1;
    }
    assert own[..i] == own;
  }

  lemma OneMoreMember(ms: seq<Member>, m: Member)
    ensures Properties(ms + [m]) == Properties(ms)[m.name := SchemaFor(m.kind)]
    ensures Required(ms + [m]) == Required(ms) + if m.optional then [] else [m.name]
  {
    assert (ms + [m])[..|ms|] == ms;
  }

  function EnumSchema(values: seq<string>): Schema {
    BLANK.(types := Some(["string"]), enum := Some(Texts(values)))
  }

  function Texts(values: seq<string>): seq<JSON> {
    if values == [] then [] else [Str(values[0])] + Texts(values[1..])
  }

  /** `$defs`: one definition for each struct and each enumeration. */
  function Definitions(w: World): map<string, Schema> {
    (map name | name in w.structs :: ObjectSchema(Members(w.structs[name])))
    + (map name | name in w.enums :: EnumSchema(w.enums[name]))
  }

  function Flat(name: string): nat {
    0
  }

  function ContextOf(w: World, isDateTime: string -> bool): Context {
    Context(Definitions(w), isDateTime, Flat)
  }

  // ---------------------------------------------------------------- values and their encoding

  datatype Value =
    | BoolV(truth: bool)
    | IntV(i: int)
    | FloatV(r: real)
    | StringV(text: string)
    | TimeV(text: string)
    | BytesV(base64: string)
    | SliceV(items: seq<Value>)
    | MapV(entries: map<string, Value>)
    | PointerV(target: Value)
    | StructV(fields: seq<Value>)
    | OtherV(json: JSON)
    | NilV

  predicate IsEmpty(v: Value) {
    match v
    case BoolV(b) => !b
    case IntV(i) => i == 0
    case FloatV(r) => r == 0.0
    case StringV(s) => s == ""
    case BytesV(s) => s == ""
    case SliceV(items) => items == []
    case MapV(entries) => entries == map[]
    case NilV => true
    case _ => false
  }

  predicate Omitted(m: Member, v: Value) {
    m.optional && IsEmpty(v)
  }

  /** What the standard encoder writes for a value of a type. */
  function Encode(w: World, t: Type, v: Value): JSON
    decreases v, 1, 0
  {
    match v
    case BoolV(b) => Bool(b)
    case IntV(i) => Num(i as real)
    case FloatV(r) => Num(r)
    case StringV(s) => Str(s)
    case TimeV(s) => Str(s)
    case BytesV(s) => Str(s)
    case SliceV(items) =>
      if t.SliceType? then Arr(seq(|items|, i requires 0 <= i < |items| => Encode(w, t.elem, items[i]))) else Null
    case MapV(entries) =>
      if t.MapType? then Obj(map k | k in entries :: Encode(w, t.elem, entries[k])) else Null
    case PointerV(target) => if t.PointerType? then Encode(w, t.elem, target) else Null
    case StructV(fields) =>
      if t.StructType? && t.name in w.structs && |Members(w.structs[t.name])| == |fields|
      then Obj(EncodeMembers(w, Members(w.structs[t.name]), v, |fields|))
      else Null
    case OtherV(json) => json
    case NilV => Null
  }

  function EncodeMembers(w: World, ms: seq<Member>, v: Value, upto: nat): map<string, JSON>
    requires v.StructV? && |ms| == |v.fields| && upto <= |ms|
    decreases v, 0, upto
  {
    if upto == 0 then map[]
    else
      var before := EncodeMembers(w, ms, v, upto - 1);
      if Omitted(ms[upto - 1], v.fields[upto - 1]) then before
      else before[ms[upto - 1].name := Encode(w, ms[upto - 1].kind, v.fields[upto - 1])]
  }

  /** A value the producers may write: no nil where a collection belongs, enumerations within their registry. */
  ghost predicate WellFormed(c: Context, w: World, t: Type, v: Value)
    decreases v
  {
    match t
    case BoolType => v.BoolV?
    case IntType => v.IntV?
    case FloatType => v.FloatV?
    case StringType => v.StringV?
    case EnumType(name) => v.StringV? && name in w.enums && v.text in w.enums[name]
    case TimeType => v.TimeV? && c.isDateTime(v.text)
    case BytesType => v.BytesV?
    case SliceType(elem) => v.SliceV? && forall i | 0 <= i < |v.items| :: WellFormed(c, w, elem, v.items[i])
    case MapType(elem) => v.MapV? && forall k | k in v.entries :: WellFormed(c, w, elem, v.entries[k])
    case PointerType(elem) => v.PointerV? && WellFormed(c, w, elem, v.target)
    case StructType(name) =>
      v.StructV? && name in w.structs && |Members(w.structs[name])| == |v.fields|
      && forall i | 0 <= i < |v.fields| :: MemberIsWellFormed(c, w, Members(w.structs[name]), v, i)
    case OtherType => v.OtherV?
  }

  ghost predicate MemberIsWellFormed(c: Context, w: World, ms: seq<Member>, v: Value, i: nat)
    requires v.StructV? && |ms| == |v.fields| && i < |ms|
    decreases v, 0
  {
    Omitted(ms[i], v.fields[i]) || WellFormed(c, w, ms[i].kind, v.fields[i])
  }

  /** Somewhere in what is written for the value there is a byte slice. */
  predicate WritesBytes(w: World, t: Type, v: Value)
    decreases v
  {
    match t
    case BytesType => true
    case SliceType(elem) => v.SliceV? && exists i | 0 <= i < |v.items| :: WritesBytes(w, elem, v.items[i])
    case MapType(elem) => v.MapV? && exists k | k in v.entries :: WritesBytes(w, elem, v.entries[k])
    case PointerType(elem) => v.PointerV? && WritesBytes(w, elem, v.target)
    case StructType(name) =>
      v.StructV? && name in w.structs && |Members(w.structs[name])| == |v.fields|
      && exists i | 0 <= i < |v.fields| ::
        !Omitted(Members(w.structs[name])[i], v.fields[i])
          && WritesBytes(w, Members(w.structs[name])[i].kind, v.fields[i])
    case _ => false
  }

  predicate MemberWritesBytes(w: World, ms: seq<Member>, v: Value, i: nat)
    requires v.StructV? && |ms| == |v.fields| && i < |ms|
  {
    !Omitted(ms[i], v.fields[i]) && WritesBytes(w, ms[i].kind, v.fields[i])
  }

  /** No byte slice in the type itself. */
  predicate NoBytes(t: Type) {
    match t
    case BytesType => false
    case SliceType(elem) => NoBytes(elem)
    case MapType(elem) => NoBytes(elem)
    case PointerType(elem) => NoBytes(elem)
    case _ => true
  }

  /** Types without byte slices, throughout the world, write none. */
  lemma {:induction false} NoBytesWritten(w: World, t: Type, v: Value)
    requires NoBytes(t) && forall n | n in w.structs :: forall m | m in Members(w.structs[n]) :: NoBytes(m.kind)
    ensures !WritesBytes(w, t, v)
    decreases v, t
  {
    match t
    case SliceType(elem) =>
      if v.SliceV? {
        forall i | 0 <= i < |v.items|
          ensures !WritesBytes(w, elem, v.items[i])
        {
          NoBytesWritten(w, elem, v.items[i]);
        }
      }
    case MapType(elem) =>
      if v.MapV? {
        forall k | k in v.entries
          ensures !WritesBytes(w, elem, v.entries[k])
        {
          NoBytesWritten(w, elem, v.entries[k]);
        }
      }
    case PointerType(elem) =>
      if v.PointerV? {
        NoBytesWritten(w, elem, v.target);
      }
    case StructType(name) =>
      if v.StructV? && name in w.structs && |Members(w.structs[name])| == |v.fields| {
        forall i | 0 <= i < |v.fields|
          ensures !WritesBytes(w, Members(w.structs[name])[i].kind, v.fields[i])
        {
          assert Members(w.structs[name])[i] in Members(w.structs[name]);
          NoBytesWritten(w, Members(w.structs[name])[i].kind, v.fields[i]);
        }
      }
    case _ =>
  }

  // ---------------------------------------------------------------- the generated definitions

  predicate Distinct(ms: seq<Member>) {
    forall i, j | 0 <= i < j < |ms| :: ms[i].name != ms[j].name
  }

  /** Names tell definitions apart, and no struct publishes one JSON name twice. */
  predicate WellNamed(w: World) {
    w.structs.Keys !! w.enums.Keys && forall n | n in w.structs :: Distinct(Members(w.structs[n]))
  }

  lemma RefResolves(w: World, name: string)
    ensures NameOf(PREFIX + name) == Some(name)
    ensures Resolves(Definitions(w), PREFIX + name) <==> name in w.structs || name in w.enums
  {
    assert PREFIX <= PREFIX + name && (PREFIX + name)[|PREFIX|..] == name;
  }

  lemma DefinitionsAre(w: World, name: string)
    requires WellNamed(w)
    ensures name in w.structs ==> Definitions(w)[name] == ObjectSchema(Members(w.structs[name]))
    ensures name in w.enums ==> Definitions(w)[name] == EnumSchema(w.enums[name])
  {
  }

  lemma GeneratedIsSound(w: World, isDateTime: string -> bool)
    requires WellNamed(w)
    ensures Sound(ContextOf(w, isDateTime))
  {
    forall name | name in Definitions(w)
      ensures Depth(Definitions(w)[name], Flat) == 0
    {
      DefinitionsAre(w, name);
    }
  }

  lemma {:induction false} PropertiesAre(ms: seq<Member>, i: nat)
    requires Distinct(ms) && i < |ms|
    ensures ms[i].name in Properties(ms) && Properties(ms)[ms[i].name] == SchemaFor(ms[i].kind)
  {
    if i < |ms| - 1 {
      PropertiesAre(ms[..|ms| - 1], i);
      assert ms[..|ms| - 1][i] == ms[i];
    }
  }

  lemma {:induction false} PropertiesAreMembers(ms: seq<Member>, key: string)
    ensures key in Properties(ms) <==> exists i | 0 <= i < |ms| :: ms[i].name == key
  {
    if ms != [] {
      PropertiesAreMembers(ms[..|ms| - 1], key);
      assert forall i | 0 <= i < |ms| - 1 :: ms[..|ms| - 1][i] == ms[i];
    }
  }

  lemma {:induction false} RequiredAre(ms: seq<Member>, key: string)
    ensures key in Required(ms) <==> exists i | 0 <= i < |ms| :: ms[i].name == key && !ms[i].optional
  {
    if ms != [] {
      RequiredAre(ms[..|ms| - 1], key);
      assert forall i | 0 <= i < |ms| - 1 :: ms[..|ms| - 1][i] == ms[i];
    }
  }

  lemma {:induction false} EncodedMembers(w: World, ms: seq<Member>, v: Value, upto: nat, key: string)
    requires v.StructV? && |ms| == |v.fields| && upto <= |ms| && Distinct(ms)
    ensures key in EncodeMembers(w, ms, v, upto)
      <==> exists i | 0 <= i < upto :: ms[i].name == key && !Omitted(ms[i], v.fields[i])
    ensures forall i | 0 <= i < upto && ms[i].name == key && !Omitted(ms[i], v.fields[i]) ::
              EncodeMembers(w, ms, v, upto)[key] == Encode(w, ms[i].kind, v.fields[i])
  {
    if upto > 0 {
      EncodedMembers(w, ms, v, upto - 1, key);
    }
  }

  // ---------------------------------------------------------------- what is written is accepted

  lemma TypeIs(name: string, value: JSON)
    ensures AnyTypeMatches([name], value) <==> TypeMatches(name, value)
  {
    assert [name][0] == name;
  }

  lemma {:induction false} TextsHold(values: seq<string>, s: string)
    ensures Str(s) in Texts(values) <==> s in values
  {
    if values != [] {
      TextsHold(values[1..], s);
    }
  }

  /** Every type of the world's structs is defined in it. */
  predicate Known(w: World, t: Type) {
    match t
    case EnumType(name) => name in w.enums
    case SliceType(elem) => Known(w, elem)
    case MapType(elem) => Known(w, elem)
    case PointerType(elem) => Known(w, elem)
    case StructType(name) => name in w.structs
    case _ => true
  }

  lemma EnumConforms(w: World, isDateTime: string -> bool, name: string, s: string)
    requires WellNamed(w) && Sound(ContextOf(w, isDateTime)) && name in w.enums && s in w.enums[name]
    ensures Conforms(ContextOf(w, isDateTime), RefTo(name), Str(s))
  {
    RefResolves(w, name);
    DefinitionsAre(w, name);
    TypeIs("string", Str(s));
    TextsHold(w.enums[name], s);
    var c := ContextOf(w, isDateTime);
    assert Conforms(c, EnumSchema(w.enums[name]), Str(s));
  }

  lemma ScalarsConform(c: Context, w: World, t: Type, v: Value)
    requires Sound(c) && WellFormed(c, w, t, v)
    requires t.BoolType? || t.IntType? || t.FloatType? || t.StringType? || t.TimeType? || t.OtherType?
    ensures Conforms(c, SchemaFor(t), Encode(w, t, v))
  {
    var j := Encode(w, t, v);
    match t
    case BoolType => TypeIs("boolean", j);
    case IntType => TypeIs("integer", j);
    case FloatType => TypeIs("number", j);
    case StringType => TypeIs("string", j);
    case TimeType => TypeIs("string", j);
    case OtherType =>
      if j.Obj? {
        forall key | key in j.fields
          ensures FieldConforms(c, BLANK, j, key)
        {
        }
      }
  }

  /** A byte slice is written as text, and its schema asks for an array. */
  lemma BytesAreRefused(c: Context, w: World, v: Value)
    requires Sound(c) && v.BytesV?
    ensures !Conforms(c, SchemaFor(BytesType), Encode(w, BytesType, v))
  {
    TypeIs("array", Encode(w, BytesType, v));
  }

  /** The encoding of a well-formed value passes the schema generated for its type unless it holds a byte slice. */
  lemma {:induction false} EncodingConforms(w: World, isDateTime: string -> bool, t: Type, v: Value)
    requires WellNamed(w) && Sound(ContextOf(w, isDateTime))
    requires WellFormed(ContextOf(w, isDateTime), w, t, v)
    ensures Conforms(ContextOf(w, isDateTime), SchemaFor(t), Encode(w, t, v)) <==> !WritesBytes(w, t, v)
    decreases v, 4
  {
    match t
    case EnumType(name) => EnumConforms(w, isDateTime, name, v.text);
    case BytesType => BytesAreRefused(ContextOf(w, isDateTime), w, v);
    case SliceType(elem) => SliceConforms(w, isDateTime, elem, v);
    case MapType(elem) => MapConforms(w, isDateTime, elem, v);
    case PointerType(elem) => PointerConforms(w, isDateTime, elem, v);
    case StructType(name) => StructConforms(w, isDateTime, name, v);
    case _ => ScalarsConform(ContextOf(w, isDateTime), w, t, v);
  }

  lemma {:induction false} PointerConforms(w: World, isDateTime: string -> bool, elem: Type, v: Value)
    requires WellNamed(w) && Sound(ContextOf(w, isDateTime))
    requires WellFormed(ContextOf(w, isDateTime), w, PointerType(elem), v)
    ensures Conforms(ContextOf(w, isDateTime), SchemaFor(PointerType(elem)), Encode(w, PointerType(elem), v))
      <==> !WritesBytes(w, PointerType(elem), v)
    decreases v, 2
  {
    EncodingConforms(w, isDateTime, elem, v.target);
  }

  lemma {:induction false} SliceConforms(w: World, isDateTime: string -> bool, elem: Type, v: Value)
    requires WellNamed(w) && Sound(ContextOf(w, isDateTime))
    requires WellFormed(ContextOf(w, isDateTime), w, SliceType(elem), v)
    ensures Conforms(ContextOf(w, isDateTime), SchemaFor(SliceType(elem)), Encode(w, SliceType(elem), v))
      <==> !WritesBytes(w, SliceType(elem), v)
    decreases v, 2
  {
    var j := Encode(w, SliceType(elem), v);
    TypeIs("array", j);
    forall i | 0 <= i < |v.items|
      ensures Conforms(ContextOf(w, isDateTime), SchemaFor(elem), j.items[i]) <==> !WritesBytes(w, elem, v.items[i])
    {
      EncodingConforms(w, isDateTime, elem, v.items[i]);
    }
  }

  lemma {:induction false} MapConforms(w: World, isDateTime: string -> bool, elem: Type, v: Value)
    requires WellNamed(w) && Sound(ContextOf(w, isDateTime))
    requires WellFormed(ContextOf(w, isDateTime), w, MapType(elem), v)
    ensures Conforms(ContextOf(w, isDateTime), SchemaFor(MapType(elem)), Encode(w, MapType(elem), v))
      <==> !WritesBytes(w, MapType(elem), v)
    decreases v, 2
  {
    var j := Encode(w, MapType(elem), v);
    TypeIs("object", j);
    forall key | key in j.fields
      ensures FieldConforms(ContextOf(w, isDateTime), SchemaFor(MapType(elem)), j, key)
        <==> !WritesBytes(w, elem, v.entries[key])
    {
      EncodingConforms(w, isDateTime, elem, v.entries[key]);
    }
  }

  lemma RequiredAreWritten(w: World, ms: seq<Member>, v: Value, key: string)
    requires v.StructV? && |ms| == |v.fields| && Distinct(ms) && key in Required(ms)
    ensures key in EncodeMembers(w, ms, v, |ms|)
  {
    RequiredAre(ms, key);
    EncodedMembers(w, ms, v, |ms|, key);
  }

  /** The property of a member that is written conforms unless it holds a byte slice. */
  lemma {:induction false} WrittenConforms(w: World, isDateTime: string -> bool, ms: seq<Member>, v: Value, i: nat)
    requires Sound(ContextOf(w, isDateTime)) && WellNamed(w)
    requires v.StructV? && |ms| == |v.fields| && Distinct(ms) && i < |ms|
    requires !Omitted(ms[i], v.fields[i]) && MemberIsWellFormed(ContextOf(w, isDateTime), w, ms, v, i)
    ensures ms[i].name in EncodeMembers(w, ms, v, |ms|)
    ensures FieldConforms(ContextOf(w, isDateTime), ObjectSchema(ms), Obj(EncodeMembers(w, ms, v, |ms|)), ms[i].name)
      <==> !MemberWritesBytes(w, ms, v, i)
    decreases v, 0
  {
    EncodedMembers(w, ms, v, |ms|, ms[i].name);
    PropertiesAre(ms, i);
    EncodingConforms(w, isDateTime, ms[i].kind, v.fields[i]);
  }

  /** Every written property conforms exactly when no member writes bytes. */
  lemma {:induction false} PropertiesConform(w: World, isDateTime: string -> bool, ms: seq<Member>, v: Value)
    requires Sound(ContextOf(w, isDateTime)) && WellNamed(w)
    requires v.StructV? && |ms| == |v.fields| && Distinct(ms)
    requires forall i | 0 <= i < |ms| :: MemberIsWellFormed(ContextOf(w, isDateTime), w, ms, v, i)
    ensures var j := Obj(EncodeMembers(w, ms, v, |ms|));
      (forall key | key in j.fields :: FieldConforms(ContextOf(w, isDateTime), ObjectSchema(ms), j, key))
      <==> forall i | 0 <= i < |ms| :: !MemberWritesBytes(w, ms, v, i)
    decreases v, 1
  {
    var c, s := ContextOf(w, isDateTime), ObjectSchema(ms);
    var j := Obj(EncodeMembers(w, ms, v, |ms|));
    forall key | key in j.fields
      ensures exists i | 0 <= i < |ms| :: ms[i].name == key && !Omitted(ms[i], v.fields[i])
    {
      EncodedMembers(w, ms, v, |ms|, key);
    }
    if i :| 0 <= i < |ms| && MemberWritesBytes(w, ms, v, i) {
      WrittenConforms(w, isDateTime, ms, v, i);
      assert !FieldConforms(c, s, j, ms[i].name);
    } else {
      forall key | key in j.fields
        ensures FieldConforms(c, s, j, key)
      {
        var i :| 0 <= i < |ms| && ms[i].name == key && !Omitted(ms[i], v.fields[i]);
        WrittenConforms(w, isDateTime, ms, v, i);
      }
    }
  }

  lemma {:induction false} MembersConform(w: World, isDateTime: string -> bool, ms: seq<Member>, v: Value)
    requires Sound(ContextOf(w, isDateTime)) && WellNamed(w)
    requires v.StructV? && |ms| == |v.fields| && Distinct(ms)
    requires forall i | 0 <= i < |ms| :: MemberIsWellFormed(ContextOf(w, isDateTime), w, ms, v, i)
    ensures Conforms(ContextOf(w, isDateTime), ObjectSchema(ms), Obj(EncodeMembers(w, ms, v, |ms|)))
      <==> forall i | 0 <= i < |ms| :: !MemberWritesBytes(w, ms, v, i)
    decreases v, 2
  {
    var j := Obj(EncodeMembers(w, ms, v, |ms|));
    TypeIs("object", j);
    forall key | key in ObjectSchema(ms).required
      ensures key in j.fields
    {
      RequiredAreWritten(w, ms, v, key);
    }
    PropertiesConform(w, isDateTime, ms, v);
  }

  lemma StructMembersAreWellFormed(c: Context, w: World, name: string, v: Value)
    requires WellFormed(c, w, StructType(name), v)
    ensures v.StructV? && name in w.structs && |Members(w.structs[name])| == |v.fields|
    ensures forall i | 0 <= i < |v.fields| :: MemberIsWellFormed(c, w, Members(w.structs[name]), v, i)
    ensures WritesBytes(w, StructType(name), v)
      <==> exists i | 0 <= i < |v.fields| :: MemberWritesBytes(w, Members(w.structs[name]), v, i)
  {
    var ms := Members(w.structs[name]);
    if WritesBytes(w, StructType(name), v) {
      var i :| 0 <= i < |v.fields| && !Omitted(ms[i], v.fields[i]) && WritesBytes(w, ms[i].kind, v.fields[i]);
      assert MemberWritesBytes(w, ms, v, i);
    }
  }

  lemma {:induction false} StructConforms(w: World, isDateTime: string -> bool, name: string, v: Value)
    requires WellNamed(w) && Sound(ContextOf(w, isDateTime))
    requires WellFormed(ContextOf(w, isDateTime), w, StructType(name), v)
    ensures Conforms(ContextOf(w, isDateTime), RefTo(name), Encode(w, StructType(name), v))
      <==> !WritesBytes(w, StructType(name), v)
    decreases v, 3
  {
    StructMembersAreWellFormed(ContextOf(w, isDateTime), w, name, v);
    MembersConform(w, isDateTime, Members(w.structs[name]), v);
    RefConforms(w, isDateTime, name, Encode(w, StructType(name), v));
  }

  /** A reference asks exactly what the definition asks. */
  lemma RefConforms(w: World, isDateTime: string -> bool, name: string, j: JSON)
    requires WellNamed(w) && Sound(ContextOf(w, isDateTime)) && name in w.structs
    ensures Conforms(ContextOf(w, isDateTime), RefTo(name), j)
       <==> Conforms(ContextOf(w, isDateTime), ObjectSchema(Members(w.structs[name])), j)
  {
    RefResolves(w, name);
    DefinitionsAre(w, name);
  }

  /** Producer and validator together: what is written from a well-formed value draws a complaint only over bytes. */
  method CheckOwnOutput(w: World, isDateTime: string -> bool, t: Type, v: Value) returns (problems: seq<Problem>)
    requires WellNamed(w) && WellFormed(ContextOf(w, isDateTime), w, t, v)
    ensures problems == [] <==> !WritesBytes(w, t, v)
  {
    GeneratedIsSound(w, isDateTime);
    EncodingConforms(w, isDateTime, t, v);
    problems := Validate(ContextOf(w, isDateTime), SchemaFor(t), Encode(w, t, v), [], []);
  }

  // ---------------------------------------------------------------- what is rejected

  lemma MissingIsRejected(w: World, isDateTime: string -> bool, name: string, fields: map<string, JSON>, m: Member)
    requires WellNamed(w) && Sound(ContextOf(w, isDateTime)) && name in w.structs
    requires m in Members(w.structs[name]) && !m.optional && m.name !in fields
    ensures !Conforms(ContextOf(w, isDateTime), RefTo(name), Obj(fields))
  {
    RefConforms(w, isDateTime, name, Obj(fields));
    RequiredAre(Members(w.structs[name]), m.name);
  }

  lemma UndeclaredFieldFails(c: Context, ms: seq<Member>, fields: map<string, JSON>, key: string)
    requires Sound(c) && key in fields && forall m | m in ms :: m.name != key
    ensures !Conforms(c, ObjectSchema(ms), Obj(fields))
  {
    PropertiesAreMembers(ms, key);
    assert forall i | 0 <= i < |ms| :: ms[i] in ms;
    assert !FieldConforms(c, ObjectSchema(ms), Obj(fields), key);
  }

  lemma UndeclaredIsRejected(w: World, isDateTime: string -> bool, name: string, fields: map<string, JSON>, key: string)
    requires WellNamed(w) && Sound(ContextOf(w, isDateTime)) && name in w.structs
    requires key in fields && forall m | m in Members(w.structs[name]) :: m.name != key
    ensures !Conforms(ContextOf(w, isDateTime), RefTo(name), Obj(fields))
  {
    RefConforms(w, isDateTime, name, Obj(fields));
    UndeclaredFieldFails(ContextOf(w, isDateTime), Members(w.structs[name]), fields, key);
  }

  /** Taking a required property away from an encoding, or adding an undeclared one, gets it rejected. */
  lemma TamperingIsRejected(w: World, isDateTime: string -> bool, name: string, v: Value, fields: map<string, JSON>,
                            m: Member, key: string, extra: JSON)
    requires WellNamed(w) && Sound(ContextOf(w, isDateTime))
    requires WellFormed(ContextOf(w, isDateTime), w, StructType(name), v)
    requires Encode(w, StructType(name), v) == Obj(fields)
    requires m in Members(w.structs[name]) && !m.optional
    requires forall x | x in Members(w.structs[name]) :: x.name != key
    ensures !Conforms(ContextOf(w, isDateTime), RefTo(name), Obj(fields - {m.name}))
    ensures !Conforms(ContextOf(w, isDateTime), RefTo(name), Obj(fields[key := extra]))
  {
    MissingIsRejected(w, isDateTime, name, fields - {m.name}, m);
    UndeclaredIsRejected(w, isDateTime, name, fields[key := extra], key);
  }

  // ---------------------------------------------------------------- every reference resolves

  /** Every `$ref` anywhere inside a schema names a definition. */
  predicate RefsResolve(defs: map<string, Schema>, s: Schema)
    decreases s, 0
  {
    s.Node?
    && (s.ref.Some? ==> Resolves(defs, s.ref.value))
    && VariantsResolve(defs, s.oneOf) && VariantsResolve(defs, s.anyOf) && VariantsResolve(defs, s.allOf)
    && (forall k | k in s.properties :: RefsResolve(defs, s.properties[k]))
    && (s.additional.Each? ==> RefsResolve(defs, s.additional.schema))
    && (s.items.All? ==> RefsResolve(defs, s.items.schema))
  }

  predicate VariantsResolve(defs: map<string, Schema>, v: Variants)
    decreases v, 0
  {
    v.Variants? ==> forall i | 0 <= i < |v.list| :: RefsResolve(defs, v.list[i])
  }

  lemma {:induction false} TypeResolves(w: World, t: Type)
    requires WellNamed(w) && Known(w, t)
    ensures RefsResolve(Definitions(w), SchemaFor(t))
  {
    match t
    case EnumType(name) => RefResolves(w, name);
    case StructType(name) => RefResolves(w, name);
    case SliceType(elem) => TypeResolves(w, elem);
    case MapType(elem) => TypeResolves(w, elem);
    case PointerType(elem) => TypeResolves(w, elem);
    case _ =>
  }

  /** Every member of every struct speaks of types the world defines. */
  predicate SelfContained(w: World) {
    forall n | n in w.structs :: forall m | m in Members(w.structs[n]) :: Known(w, m.kind)
  }

  /** In the generated document no reference dangles. */
  lemma NoReferenceDangles(w: World, name: string)
    requires WellNamed(w) && SelfContained(w) && name in Definitions(w)
    ensures RefsResolve(Definitions(w), Definitions(w)[name])
  {
    DefinitionsAre(w, name);
    if name in w.structs {
      var ms := Members(w.structs[name]);
      var s := ObjectSchema(ms);
      forall k | k in s.properties
        ensures RefsResolve(Definitions(w), s.properties[k])
      {
        PropertiesAreMembers(ms, k);
        var i :| 0 <= i < |ms| && ms[i].name == k;
        PropertiesAre(ms, i);
        assert ms[i] in ms;
        TypeResolves(w, ms[i].kind);
      }
    }
  }
}
