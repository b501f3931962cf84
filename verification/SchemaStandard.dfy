/**
 * The validator against the standard: JSON Schema 2020-12 evaluates every keyword of a schema object, the code does
 * not.
 */
module SchemaStandard {
  import opened Options
  import opened JsonSchema

  // ---------------------------------------------------------------- the standard's reading

  ghost function FullDepth(s: Schema, rank: string -> nat): nat
    decreases s, 0
  {
    if s.NotAnObject? then 0
    else
      Max(if s.ref.Some? && NameOf(s.ref.value).Some? then 1 + rank(NameOf(s.ref.value).value) else 0,
          Max(FullDepthOf(s.oneOf, rank), Max(FullDepthOf(s.anyOf, rank), FullDepthOf(s.allOf, rank))))
  }

  ghost function FullDepthOf(v: Variants, rank: string -> nat): nat
    decreases v, 0
  {
    if v.Absent? then 0 else FullDepthList(v.list, rank)
  }

  ghost function FullDepthList(list: seq<Schema>, rank: string -> nat): nat
    decreases list
  {
    if list == [] then 0 else Max(FullDepth(list[0], rank), FullDepthList(list[1..], rank))
  }

  function Max(a: nat, b: nat): nat {
    if a > b then a else b
  }

  /** No definition leads back to itself through any chain of references and combinators. */
  ghost predicate FullyGrounded(c: Context) {
    forall name | name in c.defs :: FullDepth(c.defs[name], c.rank) <= c.rank(name)
  }

  lemma {:induction false} MemberDepth(list: seq<Schema>, i: nat, rank: string -> nat)
    requires i < |list|
    ensures FullDepth(list[i], rank) <= FullDepthList(list, rank)
  {
    if i > 0 {
      MemberDepth(list[1..], i - 1, rank);
    }
  }

  lemma MemberDepths(list: seq<Schema>, rank: string -> nat)
    ensures forall i | 0 <= i < |list| :: FullDepth(list[i], rank) <= FullDepthList(list, rank)
  {
    forall i | 0 <= i < |list|
      ensures FullDepth(list[i], rank) <= FullDepthList(list, rank)
    {
      MemberDepth(list, i, rank);
    }
  }

  lemma VariantDepths(s: Schema, rank: string -> nat)
    ensures s.Node? && s.oneOf.Variants? ==> FullDepthList(s.oneOf.list, rank) <= FullDepth(s, rank)
    ensures s.Node? && s.anyOf.Variants? ==> FullDepthList(s.anyOf.list, rank) <= FullDepth(s, rank)
    ensures s.Node? && s.allOf.Variants? ==> FullDepthList(s.allOf.list, rank) <= FullDepth(s, rank)
  {
  }

  /** `$ref` is one assertion among the others (Core, section 8.2.3.1); so are the combinators (section 10.2.1). */
  ghost predicate Standard(c: Context, s: Schema, value: JSON)
    requires FullyGrounded(c)
    decreases value, FullDepth(s, c.rank), s, 3
  {
    VariantDepths(s, c.rank);
    s.Node?
    && (s.ref.Some? ==> Resolves(c.defs, s.ref.value) && Standard(c, c.defs[NameOf(s.ref.value).value], value))
    && (s.oneOf.Variants? ==> ExactlyOne(c, s.oneOf.list, value))
    && (s.anyOf.Variants? ==> AtLeastOne(c, s.anyOf.list, value))
    && (s.allOf.Variants? ==> Every(c, s.allOf.list, value))
    && StandardScalars(c, s, value)
    && StandardContent(c, s, value)
  }

  ghost predicate ExactlyOne(c: Context, list: seq<Schema>, value: JSON)
    requires FullyGrounded(c)
    decreases value, FullDepthList(list, c.rank), list, 0
  {
    MemberDepths(list, c.rank);
    exists i | 0 <= i < |list| ::
      Standard(c, list[i], value) && forall j | 0 <= j < |list| && j != i :: !Standard(c, list[j], value)
  }

  ghost predicate AtLeastOne(c: Context, list: seq<Schema>, value: JSON)
    requires FullyGrounded(c)
    decreases value, FullDepthList(list, c.rank), list, 0
  {
    MemberDepths(list, c.rank);
    exists i | 0 <= i < |list| :: Standard(c, list[i], value)
  }

  ghost predicate Every(c: Context, list: seq<Schema>, value: JSON)
    requires FullyGrounded(c)
    decreases value, FullDepthList(list, c.rank), list, 0
  {
    MemberDepths(list, c.rank);
    forall i | 0 <= i < |list| :: Standard(c, list[i], value)
  }

  predicate AtLeast(bound: Option<real>, x: real) {
    bound.Some? ==> bound.value <= x
  }

  predicate AtMost(bound: Option<real>, x: real) {
    bound.Some? ==> x <= bound.value
  }

  /** Validation, sections 6.1 and 6.2; a format speaks of strings only (section 7.3.1), and is asserted. */
  predicate StandardScalars(c: Context, s: Schema, value: JSON)
    requires s.Node?
  {
    && (s.types.Some? ==> AnyTypeMatches(s.types.value, value))
    && (s.enum.Some? ==> value in s.enum.value)
    && (s.dateTime && value.Str? ==> c.isDateTime(value.text))
    && (value.Num? ==> AtLeast(s.bounds.minimum, value.number) && AtMost(s.bounds.maximum, value.number))
    && (value.Arr? ==> AtLeast(s.bounds.minItems, |value.items| as real))
    && (value.Arr? ==> AtMost(s.bounds.maxItems, |value.items| as real))
  }

  /** Core, sections 10.3.1.2, 10.3.2.1 and 10.3.2.3; Validation, section 6.5.3. */
  ghost predicate StandardContent(c: Context, s: Schema, value: JSON)
    requires FullyGrounded(c) && s.Node?
    decreases value, FullDepth(s, c.rank), s, 2
  {
    match value
    case Obj(fields) =>
      && (forall name | name in s.required :: name in fields)
      && (forall key | key in fields :: StandardField(c, s, value, key))
    case Arr(items) =>
      s.items.All? ==> forall i | 0 <= i < |items| :: Standard(c, s.items.schema, items[i])
    case _ => true
  }

  ghost predicate StandardField(c: Context, s: Schema, value: JSON, key: string)
    requires FullyGrounded(c) && s.Node? && value.Obj? && key in value.fields
    decreases value, FullDepth(s, c.rank), s, 1
  {
    && (key in s.properties ==> Standard(c, s.properties[key], value.fields[key]))
    && (key !in s.properties && s.additional.Forbidden? ==> false)
    && (key !in s.properties && s.additional.Each? ==> Standard(c, s.additional.schema, value.fields[key]))
  }

  // ---------------------------------------------------------------- where the two agree

  predicate Bare(s: Schema)
    requires s.Node?
  {
    && s.types.None? && s.enum.None? && !s.dateTime && s.properties == map[] && s.required == []
    && s.additional.Allowed?
    && s.items.AnyElements?
  }

  function Count(b: bool): nat {
    if b then 1 else 0
  }

  /** A reference or a combinator stands alone, a format comes with the type it speaks of, and nothing is bounded. */
  predicate PlainHere(s: Schema)
    requires s.Node?
  {
    && !s.unsupported
    && s.bounds == NO_BOUNDS
    && Count(s.ref.Some?) + Count(s.oneOf.Variants?) + Count(s.anyOf.Variants?) + Count(s.allOf.Variants?) <= 1
    && (s.ref.Some? || s.oneOf.Variants? || s.anyOf.Variants? || s.allOf.Variants? ==> Bare(s))
    && (s.dateTime ==> s.types == Some(["string"]))
  }

  /** Plain all the way down. What is no schema object at all is plain too: both readings let nothing pass it. */
  predicate Plain(s: Schema)
    decreases s, 0
  {
    s.Node? ==>
      PlainHere(s)
      && PlainVariants(s.oneOf) && PlainVariants(s.anyOf) && PlainVariants(s.allOf)
      && (forall k | k in s.properties :: Plain(s.properties[k]))
      && (s.additional.Each? ==> Plain(s.additional.schema))
      && (s.items.All? ==> Plain(s.items.schema))
  }

  predicate PlainVariants(v: Variants)
    decreases v, 0
  {
    v.Variants? ==> forall i | 0 <= i < |v.list| :: Plain(v.list[i])
  }

  ghost predicate PlainDocument(c: Context) {
    FullyGrounded(c) && Sound(c) && forall name | name in c.defs :: Plain(c.defs[name])
  }

  lemma BareAcceptsAnything(c: Context, s: Schema, value: JSON)
    requires FullyGrounded(c) && s.Node? && Bare(s) && s.bounds == NO_BOUNDS
    ensures StandardScalars(c, s, value) && StandardContent(c, s, value)
  {
    if value.Obj? {
      forall key | key in value.fields
        ensures StandardField(c, s, value, key)
      {
      }
    }
  }

  lemma RefAlone(c: Context, s: Schema, value: JSON)
    requires FullyGrounded(c) && s.Node? && PlainHere(s) && s.ref.Some?
    ensures Standard(c, s, value) <==>
      Resolves(c.defs, s.ref.value) && Standard(c, c.defs[NameOf(s.ref.value).value], value)
  {
    BareAcceptsAnything(c, s, value);
  }

  lemma OneOfAlone(c: Context, s: Schema, value: JSON)
    requires FullyGrounded(c) && s.Node? && PlainHere(s) && s.oneOf.Variants?
    ensures Standard(c, s, value) <==> ExactlyOne(c, s.oneOf.list, value)
  {
    BareAcceptsAnything(c, s, value);
  }

  lemma AnyOfAlone(c: Context, s: Schema, value: JSON)
    requires FullyGrounded(c) && s.Node? && PlainHere(s) && s.anyOf.Variants?
    ensures Standard(c, s, value) <==> AtLeastOne(c, s.anyOf.list, value)
  {
    BareAcceptsAnything(c, s, value);
  }

  lemma AllOfAlone(c: Context, s: Schema, value: JSON)
    requires FullyGrounded(c) && s.Node? && PlainHere(s) && s.allOf.Variants?
    ensures Standard(c, s, value) <==> Every(c, s.allOf.list, value)
  {
    BareAcceptsAnything(c, s, value);
  }

  /** On schemas whose references and combinators stand alone the validator decides what the standard says. */
  lemma {:induction false} PlainSchemasMeanTheSame(c: Context, s: Schema, value: JSON)
    requires PlainDocument(c) && Plain(s)
    ensures Conforms(c, s, value) <==> Standard(c, s, value)
    decreases value, FullDepth(s, c.rank), s, 3
  {
    if s.NotAnObject? {
    } else if s.ref.Some? {
      RefAlone(c, s, value);
      if Resolves(c.defs, s.ref.value) {
        PlainSchemasMeanTheSame(c, c.defs[NameOf(s.ref.value).value], value);
      }
    } else if s.oneOf.Variants? || s.anyOf.Variants? || s.allOf.Variants? {
      CombinatorsMeanTheSame(c, s, value);
    } else {
      ScalarsMeanTheSame(c, s, value);
      ContentMeansTheSame(c, s, value);
    }
  }

  lemma {:induction false} CombinatorsMeanTheSame(c: Context, s: Schema, value: JSON)
    requires PlainDocument(c) && Plain(s) && s.Node? && s.ref.None?
    requires (s.oneOf.Variants? || s.anyOf.Variants? || s.allOf.Variants?)
    ensures Conforms(c, s, value) <==> Standard(c, s, value)
    decreases value, FullDepth(s, c.rank), s, 2
  {
    VariantDepths(s, c.rank);
    if s.oneOf.Variants? {
      OneOfAlone(c, s, value);
      OneMeansTheSame(c, s.oneOf.list, value);
    } else if s.anyOf.Variants? {
      AnyOfAlone(c, s, value);
      AnyMeansTheSame(c, s.anyOf.list, value);
    } else {
      AllOfAlone(c, s, value);
      AllMeanTheSame(c, s.allOf.list, value);
    }
  }

  lemma {:induction false} OneMeansTheSame(c: Context, list: seq<Schema>, value: JSON)
    requires PlainDocument(c) && forall i | 0 <= i < |list| :: Plain(list[i])
    ensures OneConforms(c, list, value) <==> ExactlyOne(c, list, value)
    decreases value, FullDepthList(list, c.rank), list, 1
  {
    MembersMeanTheSame(c, list, value);
  }

  lemma {:induction false} AnyMeansTheSame(c: Context, list: seq<Schema>, value: JSON)
    requires PlainDocument(c) && forall i | 0 <= i < |list| :: Plain(list[i])
    ensures (exists i | 0 <= i < |list| :: Conforms(c, list[i], value)) <==> AtLeastOne(c, list, value)
    decreases value, FullDepthList(list, c.rank), list, 1
  {
    MembersMeanTheSame(c, list, value);
  }

  lemma {:induction false} AllMeanTheSame(c: Context, list: seq<Schema>, value: JSON)
    requires PlainDocument(c) && forall i | 0 <= i < |list| :: Plain(list[i])
    ensures (forall i | 0 <= i < |list| :: Conforms(c, list[i], value)) <==> Every(c, list, value)
    decreases value, FullDepthList(list, c.rank), list, 1
  {
    MembersMeanTheSame(c, list, value);
  }

  lemma ScalarsMeanTheSame(c: Context, s: Schema, value: JSON)
    requires s.Node? && PlainHere(s)
    ensures ScalarConforms(c, s, value) <==> StandardScalars(c, s, value)
  {
    if s.dateTime {
      assert AnyTypeMatches(["string"], value) <==> value.Str? by {
        assert ["string"][0] == "string";
        if value.Str? {
          assert TypeMatches(["string"][0], value);
        }
      }
    }
  }

  lemma {:induction false} MembersMeanTheSame(c: Context, list: seq<Schema>, value: JSON)
    requires PlainDocument(c) && forall i | 0 <= i < |list| :: Plain(list[i])
    ensures forall i | 0 <= i < |list| :: Conforms(c, list[i], value) <==> Standard(c, list[i], value)
    decreases value, FullDepthList(list, c.rank), list, 0
  {
    MemberDepths(list, c.rank);
    forall i | 0 <= i < |list|
      ensures Conforms(c, list[i], value) <==> Standard(c, list[i], value)
    {
      PlainSchemasMeanTheSame(c, list[i], value);
    }
  }

  lemma {:induction false} ContentMeansTheSame(c: Context, s: Schema, value: JSON)
    requires PlainDocument(c) && Plain(s) && s.Node?
    ensures ContentConforms(c, s, value) <==> StandardContent(c, s, value)
    decreases value, FullDepth(s, c.rank), s, 2
  {
    match value
    case Obj(fields) =>
      forall key | key in fields
        ensures FieldConforms(c, s, value, key) <==> StandardField(c, s, value, key)
      {
        if key in s.properties {
          PlainSchemasMeanTheSame(c, s.properties[key], fields[key]);
        } else if s.additional.Each? {
          PlainSchemasMeanTheSame(c, s.additional.schema, fields[key]);
        }
      }
    case Arr(items) =>
      if s.items.All? {
        forall i | 0 <= i < |items|
          ensures Conforms(c, s.items.schema, items[i]) <==> Standard(c, s.items.schema, items[i])
        {
          PlainSchemasMeanTheSame(c, s.items.schema, items[i]);
        }
      }
    case _ =>
  }

  // ---------------------------------------------------------------- what the validator decides on every other schema

  /** A format asks for a string, whatever else the type allows. */
  function PrunedTypes(s: Schema): Option<seq<string>>
    requires s.Node?
  {
    if !s.dateTime then s.types else Some(["string"])
  }

  /**
   * The schema as the code reads it: nothing with an unknown keyword, nothing with a format its type rules out,
   * only the reference, or else the first combinator, where there is one, and no bounds anywhere.
   */
  function Pruned(s: Schema): Schema
    decreases s, 0
  {
    if s.NotAnObject? || s.unsupported then NotAnObject
    else if s.ref.Some? then BLANK.(ref := s.ref)
    else if s.oneOf.Variants? then BLANK.(oneOf := PrunedVariants(s.oneOf))
    else if s.anyOf.Variants? then BLANK.(anyOf := PrunedVariants(s.anyOf))
    else if s.allOf.Variants? then BLANK.(allOf := PrunedVariants(s.allOf))
    else if s.dateTime && s.types.Some? && "string" !in s.types.value then NotAnObject
    else
      BLANK.(types := PrunedTypes(s), enum := s.enum, dateTime := s.dateTime,
             properties := map k | k in s.properties :: Pruned(s.properties[k]), required := s.required,
             additional := PrunedAdditional(s.additional), items := PrunedItems(s.items))
  }

  function PrunedAdditional(a: Additional): Additional
    decreases a, 0
  {
    match a
    case Each(schema) => Each(Pruned(schema))
    case _ => a
  }

  function PrunedItems(e: Elements): Elements
    decreases e, 0
  {
    match e
    case All(schema) => All(Pruned(schema))
    case AnyElements => AnyElements
  }

  function PrunedVariants(v: Variants): (p: Variants)
    ensures v.Variants? ==> p.Variants? && p.list == PrunedList(v.list)
    decreases v, 0
  {
    match v
    case Variants(list) => Variants(PrunedList(list))
    case Absent => Absent
  }

  function PrunedList(list: seq<Schema>): (p: seq<Schema>)
    ensures |p| == |list| && forall i | 0 <= i < |list| :: p[i] == Pruned(list[i])
    decreases list
  {
    if list == [] then [] else [Pruned(list[0])] + PrunedList(list[1..])
  }

  function PrunedContext(c: Context): Context {
    c.(defs := map name | name in c.defs :: Pruned(c.defs[name]))
  }

  lemma {:induction false} PrunedIsShallower(s: Schema, rank: string -> nat)
    ensures Depth(Pruned(s), rank) <= Depth(s, rank) && FullDepth(Pruned(s), rank) <= Depth(s, rank)
    decreases s, 0
  {
    if s.Node? && !s.unsupported && s.ref.None? {
      if s.oneOf.Variants? {
        PrunedListIsShallower(s.oneOf.list, rank);
      } else if s.anyOf.Variants? {
        PrunedListIsShallower(s.anyOf.list, rank);
      } else if s.allOf.Variants? {
        PrunedListIsShallower(s.allOf.list, rank);
      }
    }
  }

  lemma {:induction false} PrunedListIsShallower(list: seq<Schema>, rank: string -> nat)
    ensures DepthOf(PrunedList(list), rank) <= DepthOf(list, rank)
    ensures FullDepthList(PrunedList(list), rank) <= DepthOf(list, rank)
    decreases list
  {
    if list != [] {
      PrunedIsShallower(list[0], rank);
      PrunedListIsShallower(list[1..], rank);
      assert PrunedList(list)[1..] == PrunedList(list[1..]);
    }
  }

  lemma {:induction false} PrunedIsPlain(s: Schema)
    ensures Plain(Pruned(s))
    decreases s, 1
  {
    if s.Node? && !s.unsupported && s.ref.None? {
      if s.oneOf.Variants? {
        PrunedListIsPlain(s.oneOf.list);
      } else if s.anyOf.Variants? {
        PrunedListIsPlain(s.anyOf.list);
      } else if s.allOf.Variants? {
        PrunedListIsPlain(s.allOf.list);
      } else {
        PrunedPartsArePlain(s);
      }
    }
  }

  lemma {:induction false} PrunedListIsPlain(list: seq<Schema>)
    ensures forall i | 0 <= i < |list| :: Plain(PrunedList(list)[i])
    decreases list
  {
    forall i | 0 <= i < |list|
      ensures Plain(PrunedList(list)[i])
    {
      PrunedIsPlain(list[i]);
    }
  }

  lemma {:induction false} PrunedPartsArePlain(s: Schema)
    requires s.Node?
    ensures forall k | k in s.properties :: Plain(Pruned(s.properties[k]))
    ensures s.additional.Each? ==> Plain(Pruned(s.additional.schema))
    ensures s.items.All? ==> Plain(Pruned(s.items.schema))
    decreases s, 0
  {
    forall k | k in s.properties
      ensures Plain(Pruned(s.properties[k]))
    {
      PrunedIsPlain(s.properties[k]);
    }
    if s.additional.Each? {
      PrunedIsPlain(s.additional.schema);
    }
    if s.items.All? {
      PrunedIsPlain(s.items.schema);
    }
  }

  lemma PrunedDocumentIsPlain(c: Context)
    requires Sound(c)
    ensures PlainDocument(PrunedContext(c))
  {
    forall name | name in c.defs
      ensures Plain(Pruned(c.defs[name]))
      ensures Depth(Pruned(c.defs[name]), c.rank) <= c.rank(name)
      ensures FullDepth(Pruned(c.defs[name]), c.rank) <= c.rank(name)
    {
      PrunedIsPlain(c.defs[name]);
      PrunedIsShallower(c.defs[name], c.rank);
    }
  }

  lemma StringAmong(names: seq<string>, value: JSON)
    requires value.Str?
    ensures AnyTypeMatches(names, value) <==> "string" in names
  {
  }

  lemma OnlyStrings(value: JSON)
    ensures AnyTypeMatches(["string"], value) <==> value.Str?
  {
    assert ["string"][0] == "string";
    if value.Str? {
      StringAmong(["string"], value);
    }
  }

  /** The validator reads a schema as if it had been pruned. */
  lemma {:induction false} PrunedReadsTheSame(c: Context, s: Schema, value: JSON)
    requires Sound(c) && Sound(PrunedContext(c))
    ensures Conforms(c, s, value) <==> Conforms(PrunedContext(c), Pruned(s), value)
    decreases value, Depth(s, c.rank), s, 3
  {
    if s.NotAnObject? || s.unsupported {
    } else if s.ref.Some? {
      PrunedReference(c, s, value);
    } else if s.oneOf.Variants? || s.anyOf.Variants? || s.allOf.Variants? {
      PrunedCombinator(c, s, value);
    } else {
      PrunedPlainNode(c, s, value);
    }
  }

  lemma {:induction false} PrunedReference(c: Context, s: Schema, value: JSON)
    requires Sound(c) && Sound(PrunedContext(c)) && s.Node? && !s.unsupported && s.ref.Some?
    ensures Conforms(c, s, value) <==> Conforms(PrunedContext(c), BLANK.(ref := s.ref), value)
    decreases value, Depth(s, c.rank), s, 2
  {
    if Resolves(c.defs, s.ref.value) {
      PrunedReadsTheSame(c, c.defs[NameOf(s.ref.value).value], value);
    }
  }

  lemma {:induction false} PrunedMembers(c: Context, list: seq<Schema>, value: JSON)
    requires Sound(c) && Sound(PrunedContext(c))
    ensures forall i | 0 <= i < |list| ::
      Conforms(c, list[i], value) <==> Conforms(PrunedContext(c), PrunedList(list)[i], value)
    decreases value, DepthOf(list, c.rank), list, 0
  {
    DepthOfMembers(list, c.rank);
    forall i | 0 <= i < |list|
      ensures Conforms(c, list[i], value) <==> Conforms(PrunedContext(c), PrunedList(list)[i], value)
    {
      PrunedReadsTheSame(c, list[i], value);
    }
  }

  lemma {:induction false} PrunedOne(c: Context, list: seq<Schema>, value: JSON)
    requires Sound(c) && Sound(PrunedContext(c))
    ensures OneConforms(c, list, value) <==> OneConforms(PrunedContext(c), PrunedList(list), value)
    decreases value, DepthOf(list, c.rank), list, 1
  {
    PrunedMembers(c, list, value);
  }

  lemma {:induction false} PrunedCombinator(c: Context, s: Schema, value: JSON)
    requires Sound(c) && Sound(PrunedContext(c)) && s.Node? && !s.unsupported && s.ref.None?
    requires s.oneOf.Variants? || s.anyOf.Variants? || s.allOf.Variants?
    ensures Conforms(c, s, value) <==> Conforms(PrunedContext(c), Pruned(s), value)
    decreases value, Depth(s, c.rank), s, 2
  {
    if s.oneOf.Variants? {
      PrunedOne(c, s.oneOf.list, value);
    } else if s.anyOf.Variants? {
      PrunedMembers(c, s.anyOf.list, value);
    } else {
      PrunedMembers(c, s.allOf.list, value);
    }
  }

  lemma PrunedScalars(c: Context, s: Schema, value: JSON)
    requires s.Node? && !(s.dateTime && s.types.Some? && "string" !in s.types.value)
    ensures ScalarConforms(c, s, value) <==>
      ScalarConforms(PrunedContext(c), BLANK.(types := PrunedTypes(s), enum := s.enum, dateTime := s.dateTime), value)
  {
    OnlyStrings(value);
    if value.Str? && s.types.Some? {
      StringAmong(s.types.value, value);
    }
  }

  lemma {:induction false} PrunedPlainNode(c: Context, s: Schema, value: JSON)
    requires Sound(c) && Sound(PrunedContext(c)) && s.Node? && !s.unsupported && s.ref.None?
    requires s.oneOf.Absent? && s.anyOf.Absent? && s.allOf.Absent?
    ensures Conforms(c, s, value) <==> Conforms(PrunedContext(c), Pruned(s), value)
    decreases value, Depth(s, c.rank), s, 2
  {
    if s.dateTime && s.types.Some? && "string" !in s.types.value {
      if value.Str? {
        StringAmong(s.types.value, value);
      }
    } else {
      PrunedScalars(c, s, value);
      PrunedContent(c, s, value);
    }
  }

  lemma {:induction false} PrunedContent(c: Context, s: Schema, value: JSON)
    requires Sound(c) && Sound(PrunedContext(c)) && s.Node? && !s.unsupported && s.ref.None?
    requires s.oneOf.Absent? && s.anyOf.Absent? && s.allOf.Absent?
    requires !(s.dateTime && s.types.Some? && "string" !in s.types.value)
    ensures ContentConforms(c, s, value) <==> ContentConforms(PrunedContext(c), Pruned(s), value)
    decreases value, Depth(s, c.rank), s, 1
  {
    match value
    case Obj(fields) =>
      forall key | key in fields
        ensures FieldConforms(c, s, value, key) <==> FieldConforms(PrunedContext(c), Pruned(s), value, key)
      {
        if key in s.properties {
          PrunedReadsTheSame(c, s.properties[key], fields[key]);
        } else if s.additional.Each? {
          PrunedReadsTheSame(c, s.additional.schema, fields[key]);
        }
      }
    case Arr(items) =>
      if s.items.All? {
        forall i | 0 <= i < |items|
          ensures Conforms(c, s.items.schema, items[i])
            <==> Conforms(PrunedContext(c), Pruned(s.items.schema), items[i])
        {
          PrunedReadsTheSame(c, s.items.schema, items[i]);
        }
      }
    case _ =>
  }

  /**
   * On every schema whose references do not lead back to themselves, the validator decides the standard's reading
   * of the pruned one.
   */
  lemma ValidatorReadsThePrunedSchema(c: Context, s: Schema, value: JSON)
    requires Sound(c)
    ensures FullyGrounded(PrunedContext(c))
    ensures Conforms(c, s, value) <==> Standard(PrunedContext(c), Pruned(s), value)
  {
    PrunedDocumentIsPlain(c);
    PrunedReadsTheSame(c, s, value);
    PrunedIsPlain(s);
    PlainSchemasMeanTheSame(PrunedContext(c), Pruned(s), value);
  }

  // ---------------------------------------------------------------- so the two readings differ, both ways

  function Small(isDateTime: string -> bool): Context {
    Context(map["A" := BLANK], isDateTime, (name: string) => 0)
  }

  /** A keyword beside a reference, or a bound, passes unread: here the validator is the laxer one. */
  lemma ValidatorCanBeLaxer(isDateTime: string -> bool)
    ensures var c := Small(isDateTime);
      var beside := BLANK.(ref := Some("#/$defs/A"), types := Some(["string"]));
      var bounded := BLANK.(bounds := NO_BOUNDS.(minimum := Some(1.0)));
      && Sound(c) && FullyGrounded(c)
      && Conforms(c, beside, Null) && !Standard(c, beside, Null)
      && Conforms(c, bounded, Num(0.0)) && !Standard(c, bounded, Num(0.0))
  {
    var c := Small(isDateTime);
    assert "#/$defs/A"[|PREFIX|..] == "A";
    assert PREFIX <= "#/$defs/A";
    OnlyStrings(Null);
    assert Conforms(c, BLANK, Null);
  }

  /** A format on its own asks for a string: here it is the stricter one. */
  lemma ValidatorCanBeStricter(isDateTime: string -> bool)
    ensures var (c, format) := (Small(isDateTime), BLANK.(dateTime := true));
      Sound(c) && FullyGrounded(c) && !Conforms(c, format, Null) && Standard(c, format, Null)
  {
  }
}
