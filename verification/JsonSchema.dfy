/**
 * The schema check of the published documents: what the validator decides about a value, and the validator itself.
 * Numbers are reals, and `$defs` may refer to each other.
 */
module JsonSchema {
  import opened Collections
  import opened Options

  datatype JSON =
    | Null
    | Bool(truth: bool)
    | Num(number: real)
    | Str(text: string)
    | Arr(items: seq<JSON>)
    | Obj(fields: map<string, JSON>)

  datatype Elements = AnyElements | All(schema: Schema)

  datatype Additional = Allowed | Forbidden | Each(schema: Schema)

  datatype Bounds = Bounds(minimum: Option<real>, maximum: Option<real>, minItems: Option<real>, maxItems: Option<real>)

  const NO_BOUNDS := Bounds(None, None, None, None)

  /** One schema object; `unsupported` says it uses a keyword outside the closed set. */
  datatype Schema =
    | NotAnObject
    | Node(unsupported: bool, ref: Option<string>,
           oneOf: Variants, anyOf: Variants, allOf: Variants,
           types: Option<seq<string>>, enum: Option<seq<JSON>>, dateTime: bool, bounds: Bounds,
           properties: map<string, Schema>, required: seq<string>, additional: Additional, items: Elements)

  datatype Variants = Absent | Variants(list: seq<Schema>)

  const BLANK :=
    Node(false, None, Absent, Absent, Absent, None, None, false, NO_BOUNDS, map[], [], Allowed, AnyElements)

  const PREFIX := "#/$defs/"

  /** `resolve`: only `#/$defs/` references of the document itself are known. */
  function NameOf(ref: string): Option<string> {
    if PREFIX <= ref then Some(ref[|PREFIX|..]) else None
  }

  predicate Resolves(defs: map<string, Schema>, ref: string) {
    NameOf(ref).Some? && NameOf(ref).value in defs
  }

  predicate TypeMatches(name: string, value: JSON) {
    match value
    case Null => name == "null"
    case Bool(_) => name == "boolean"
    case Num(r) => name == "number" || (name == "integer" && r.Floor as real == r)
    case Str(_) => name == "string"
    case Arr(_) => name == "array"
    case Obj(_) => name == "object"
  }

  predicate AnyTypeMatches(names: seq<string>, value: JSON) {
    exists i | 0 <= i < |names| :: TypeMatches(names[i], value)
  }

  // ---------------------------------------------------------------- why validation ends

  /** How many references can be followed without stepping into the value; `rank` ranks the definitions. */
  ghost function Depth(s: Schema, rank: string -> nat): nat
    decreases s, 0
  {
    if s.NotAnObject? then 0
    else if s.ref.Some? then (if NameOf(s.ref.value).Some? then 1 + rank(NameOf(s.ref.value).value) else 0)
    else if s.oneOf.Variants? then DepthOf(s.oneOf.list, rank)
    else if s.anyOf.Variants? then DepthOf(s.anyOf.list, rank)
    else if s.allOf.Variants? then DepthOf(s.allOf.list, rank)
    else 0
  }

  ghost function DepthOf(list: seq<Schema>, rank: string -> nat): nat
    decreases list
  {
    if list == [] then 0
    else
      var rest := DepthOf(list[1..], rank);
      if Depth(list[0], rank) > rest then Depth(list[0], rank) else rest
  }

  /** No definition leads back to itself through references alone. */
  ghost predicate Grounded(defs: map<string, Schema>, rank: string -> nat) {
    forall name | name in defs :: Depth(defs[name], rank) <= rank(name)
  }

  lemma {:induction false} DepthOfMember(list: seq<Schema>, i: nat, rank: string -> nat)
    requires i < |list|
    ensures Depth(list[i], rank) <= DepthOf(list, rank)
  {
    if i > 0 {
      DepthOfMember(list[1..], i - 1, rank);
    }
  }

  lemma DepthOfMembers(list: seq<Schema>, rank: string -> nat)
    ensures forall i | 0 <= i < |list| :: Depth(list[i], rank) <= DepthOf(list, rank)
  {
    forall i | 0 <= i < |list|
      ensures Depth(list[i], rank) <= DepthOf(list, rank)
    {
      DepthOfMember(list, i, rank);
    }
  }

  // ---------------------------------------------------------------- what the validator decides

  /** The document's definitions, the date-time reader, and the ranking that grounds the references. */
  datatype Context = Context(defs: map<string, Schema>, isDateTime: string -> bool, rank: string -> nat)

  ghost predicate Sound(c: Context) {
    Grounded(c.defs, c.rank)
  }

  ghost predicate Conforms(c: Context, s: Schema, value: JSON)
    requires Sound(c)
    decreases value, Depth(s, c.rank), s, 2
  {
    if s.NotAnObject? || s.unsupported then false
    else if s.ref.Some? then
      Resolves(c.defs, s.ref.value) && Conforms(c, c.defs[NameOf(s.ref.value).value], value)
    else if s.oneOf.Variants? then
      OneConforms(c, s.oneOf.list, value)
    else if s.anyOf.Variants? then
      DepthOfMembers(s.anyOf.list, c.rank);
      exists i | 0 <= i < |s.anyOf.list| :: Conforms(c, s.anyOf.list[i], value)
    else if s.allOf.Variants? then
      DepthOfMembers(s.allOf.list, c.rank);
      forall i | 0 <= i < |s.allOf.list| :: Conforms(c, s.allOf.list[i], value)
    else
      ScalarConforms(c, s, value) && ContentConforms(c, s, value)
  }

  ghost predicate OneConforms(c: Context, list: seq<Schema>, value: JSON)
    requires Sound(c)
    decreases value, DepthOf(list, c.rank), list, 0
  {
    DepthOfMembers(list, c.rank);
    exists i | 0 <= i < |list| ::
      Conforms(c, list[i], value) && forall j | 0 <= j < |list| && j != i :: !Conforms(c, list[j], value)
  }

  /** Type, enumeration and format; a document's bounds are decoded as `json.Number` and never compared. */
  predicate ScalarConforms(c: Context, s: Schema, value: JSON)
    requires s.Node?
  {
    && (s.types.Some? ==> AnyTypeMatches(s.types.value, value))
    && (s.enum.Some? ==> value in s.enum.value)
    && (s.dateTime ==> value.Str? && c.isDateTime(value.text))
  }

  ghost predicate ContentConforms(c: Context, s: Schema, value: JSON)
    requires Sound(c) && s.Node?
    decreases value, Depth(s, c.rank), s, 1
  {
    match value
    case Obj(fields) =>
      && (forall name | name in s.required :: name in fields)
      && (forall key | key in fields :: FieldConforms(c, s, value, key))
    case Arr(items) =>
      s.items.All? ==> forall i | 0 <= i < |items| :: Conforms(c, s.items.schema, items[i])
    case _ => true
  }

  ghost predicate FieldConforms(c: Context, s: Schema, value: JSON, key: string)
    requires Sound(c) && s.Node? && value.Obj? && key in value.fields
    decreases value, Depth(s, c.rank), s, 0
  {
    if key in s.properties then Conforms(c, s.properties[key], value.fields[key])
    else
      match s.additional
      case Allowed => true
      case Forbidden => false
      case Each(schema) => Conforms(c, schema, value.fields[key])
  }

  // ---------------------------------------------------------------- the validator

  datatype Hop = Field(key: string) | Element(index: nat)

  datatype Complaint =
    | SchemaNotAnObject
    | UnsupportedKeyword
    | Unresolved(ref: string)
    | NoVariantMatched
    | SeveralVariantsMatched(count: nat)
    | WrongType
    | NotInEnum
    | NotADateTime
    | Missing(key: string)
    | Undeclared(key: string)

  datatype Problem = Problem(path: seq<Hop>, complaint: Complaint)

  /** The problems grow at the end, and they grow exactly when the value was found wanting. */
  predicate Judged(before: seq<Problem>, after: seq<Problem>, fine: bool) {
    before <= after && (before == after <==> fine)
  }

  method Validate(c: Context, s: Schema, value: JSON, path: seq<Hop>, problems: seq<Problem>)
    returns (now: seq<Problem>)
    requires Sound(c)
    ensures Judged(problems, now, Conforms(c, s, value))
    decreases value, Depth(s, c.rank), s, 3
  {
    if s.NotAnObject? {
      return problems + [Problem(path, SchemaNotAnObject)];
    }
    if s.unsupported {
      return problems + [Problem(path, UnsupportedKeyword)];
    }
    if s.ref.Some? {
      if !Resolves(c.defs, s.ref.value) {
        return problems + [Problem(path, Unresolved(s.ref.value))];
      }
      now := Validate(c, c.defs[NameOf(s.ref.value).value], value, path, problems);
      return;
    }
    if s.oneOf.Variants? {
      now := ValidateVariants(c, s.oneOf.list, value, path, problems, true);
      return;
    }
    if s.anyOf.Variants? {
      now := ValidateVariants(c, s.anyOf.list, value, path, problems, false);
      return;
    }
    if s.allOf.Variants? {
      now := ValidateAll(c, s.allOf.list, value, path, problems);
      return;
    }
    var scalar := ScalarComplaint(c, s, value);
    if scalar.Some? {
      return problems + [Problem(path, scalar.value)];
    }
    now := ValidateContent(c, s, value, path, problems);
  }

  /** The first of type, enumeration and format to object; a later one is not looked at. */
  method ScalarComplaint(c: Context, s: Schema, value: JSON) returns (complaint: Option<Complaint>)
    requires s.Node?
    ensures complaint.None? <==> ScalarConforms(c, s, value)
  {
    if s.types.Some? && !AnyTypeMatches(s.types.value, value) {
      return Some(WrongType);
    }
    if s.enum.Some? && value !in s.enum.value {
      return Some(NotInEnum);
    }
    if s.dateTime && (!value.Str? || !c.isDateTime(value.text)) {
      return Some(NotADateTime);
    }
    complaint := None;
  }

  method ValidateContent(c: Context, s: Schema, value: JSON, path: seq<Hop>, problems: seq<Problem>)
    returns (now: seq<Problem>)
    requires Sound(c) && s.Node?
    ensures Judged(problems, now, ContentConforms(c, s, value))
    decreases value, Depth(s, c.rank), s, 2
  {
    match value
    case Obj(fields) =>
      now := CheckRequired(s, fields, path, problems);
      now := ValidateFields(c, s, value, path, now);
    case Arr(items) =>
      now := problems;
      if s.items.All? {
        now := ValidateItems(c, s, value, path, problems);
      }
    case _ =>
      now := problems;
  }

  method CheckRequired(s: Schema, fields: map<string, JSON>, path: seq<Hop>, problems: seq<Problem>)
    returns (now: seq<Problem>)
    requires s.Node?
    ensures Judged(problems, now, forall name | name in s.required :: name in fields)
  {
    now := problems;
    var i := 0;
    while i < |s.required|
      invariant 0 <= i <= |s.required|
      invariant Judged(problems, now, forall k | 0 <= k < i :: s.required[k] in fields)
    {
      if s.required[i] !in fields {
        now := now + [Problem(path, Missing(s.required[i]))];
      }
      i := i + 1;
    }
    assert forall k | 0 <= k < |s.required| :: s.required[k] in s.required;
  }

  method KeysOf(fields: map<string, JSON>) returns (keys: seq<string>)
    ensures forall k :: k in keys <==> k in fields
  {
    keys := [];
    var rest := fields.Keys;
    while rest != {}
      invariant rest <= fields.Keys
      invariant forall k :: k in keys <==> k in fields.Keys - rest
      decreases |rest|
    {
      var k := AnyMember(rest);
      keys := keys + [k];
      rest := rest - {k};
    }
  }

  method ValidateFields(c: Context, s: Schema, value: JSON, path: seq<Hop>, problems: seq<Problem>)
    returns (now: seq<Problem>)
    requires Sound(c) && s.Node? && value.Obj?
    ensures Judged(problems, now, forall key | key in value.fields :: FieldConforms(c, s, value, key))
    decreases value, Depth(s, c.rank), s, 1
  {
    var keys := KeysOf(value.fields);
    now := problems;
    var i := 0;
    while i < |keys|
      invariant 0 <= i <= |keys|
      invariant Judged(problems, now, forall k | 0 <= k < i :: FieldConforms(c, s, value, keys[k]))
    {
      assert keys[i] in keys;
      now := ValidateField(c, s, value, keys[i], path, now);
      i := i + 1;
    }
    forall key | key in value.fields
      ensures exists k | 0 <= k < |keys| :: keys[k] == key
    {
      assert key in keys;
    }
  }

  method ValidateField(c: Context, s: Schema, value: JSON, key: string, path: seq<Hop>, problems: seq<Problem>)
    returns (now: seq<Problem>)
    requires Sound(c) && s.Node? && value.Obj? && key in value.fields
    ensures Judged(problems, now, FieldConforms(c, s, value, key))
    decreases value, Depth(s, c.rank), s, 0
  {
    var child := path + [Field(key)];
    if key in s.properties {
      now := Validate(c, s.properties[key], value.fields[key], child, problems);
      return;
    }
    match s.additional
    case Allowed =>
      now := problems;
    case Forbidden =>
      now := problems + [Problem(path, Undeclared(key))];
    case Each(schema) =>
      now := Validate(c, schema, value.fields[key], child, problems);
  }

  method ValidateItems(c: Context, s: Schema, value: JSON, path: seq<Hop>, problems: seq<Problem>)
    returns (now: seq<Problem>)
    requires Sound(c) && s.Node? && s.items.All? && value.Arr?
    ensures Judged(problems, now, ContentConforms(c, s, value))
    decreases value, Depth(s, c.rank), s, 0
  {
    now := problems;
    var i := 0;
    while i < |value.items|
      invariant 0 <= i <= |value.items|
      invariant Judged(problems, now, forall k | 0 <= k < i :: Conforms(c, s.items.schema, value.items[k]))
    {
      now := Validate(c, s.items.schema, value.items[i], path + [Element(i)], now);
      i := i + 1;
    }
  }

  /** `allOf`: every variant writes its complaints into the same list. */
  method ValidateAll(c: Context, list: seq<Schema>, value: JSON, path: seq<Hop>, problems: seq<Problem>)
    returns (now: seq<Problem>)
    requires Sound(c)
    ensures Judged(problems, now, forall i | 0 <= i < |list| :: Conforms(c, list[i], value))
    decreases value, DepthOf(list, c.rank), list, 0
  {
    DepthOfMembers(list, c.rank);
    now := problems;
    var i := 0;
    while i < |list|
      invariant 0 <= i <= |list|
      invariant Judged(problems, now, forall k | 0 <= k < i :: Conforms(c, list[k], value))
    {
      now := Validate(c, list[i], value, path, now);
      i := i + 1;
    }
  }

  /** Which variants match, decided each on its own list; the first failure is what a total miss reports. */
  method CountVariants(c: Context, list: seq<Schema>, value: JSON, path: seq<Hop>)
    returns (matches: nat, which: nat, firstFailure: seq<Problem>)
    requires Sound(c)
    ensures matches == 0 <==> forall i | 0 <= i < |list| :: !Conforms(c, list[i], value)
    ensures matches >= 1 ==> which < |list| && Conforms(c, list[which], value)
    ensures matches <= 1 ==> forall j | 0 <= j < |list| && (matches == 0 || j != which) :: !Conforms(c, list[j], value)
    ensures matches > 1 ==> exists j | 0 <= j < |list| && j != which :: Conforms(c, list[j], value)
    decreases value, DepthOf(list, c.rank), list, 0
  {
    DepthOfMembers(list, c.rank);
    matches, which, firstFailure := 0, 0, [];
    var i := 0;
    while i < |list|
      invariant 0 <= i <= |list|
      invariant matches == 0 <==> forall k | 0 <= k < i :: !Conforms(c, list[k], value)
      invariant matches >= 1 ==> which < i && Conforms(c, list[which], value)
      invariant matches <= 1 ==> forall j | 0 <= j < i && (matches == 0 || j != which) :: !Conforms(c, list[j], value)
      invariant matches > 1 ==> exists j | 0 <= j < i && j != which :: Conforms(c, list[j], value)
    {
      var local := Validate(c, list[i], value, path, []);
      if local == [] {
        if matches == 0 {
          which := i;
        }
        matches := matches + 1;
      } else if firstFailure == [] {
        firstFailure := local;
      }
      i := i + 1;
    }
  }

  method ValidateVariants(c: Context, list: seq<Schema>, value: JSON, path: seq<Hop>, problems: seq<Problem>,
      exactlyOne: bool)
    returns (now: seq<Problem>)
    requires Sound(c)
    ensures exactlyOne ==> Judged(problems, now, OneConforms(c, list, value))
    ensures !exactlyOne ==> Judged(problems, now, exists i | 0 <= i < |list| :: Conforms(c, list[i], value))
    decreases value, DepthOf(list, c.rank), list, 1
  {
    var matches, which, firstFailure := CountVariants(c, list, value, path);
    if matches == 0 {
      return problems + [Problem(path, NoVariantMatched)] + firstFailure;
    }
    if exactlyOne && matches > 1 {
      return problems + [Problem(path, SeveralVariantsMatched(matches))];
    }
    now := problems;
  }
}
