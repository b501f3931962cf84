/** Which structs get a definition: the walk from the document roots, and the document it makes complete. */
module SchemaWalk {
  import opened Options
  import opened JsonSchema
  import opened SchemaGenerator
  import opened SchemaStandard

  /** The struct types a type mentions directly. */
  function Mentions(t: Type): set<string> {
    match t
    case SliceType(elem) => Mentions(elem)
    case MapType(elem) => Mentions(elem)
    case PointerType(elem) => Mentions(elem)
    case StructType(name) => {name}
    case _ => {}
  }

  function MentionsOf(ms: seq<Member>): set<string> {
    if ms == [] then {} else MentionsOf(ms[..|ms| - 1]) + Mentions(ms[|ms| - 1].kind)
  }

  function NamesOf(shapes: seq<Shape>): set<string> {
    if shapes == [] then {} else NamesOf(shapes[..|shapes| - 1]) + {shapes[|shapes| - 1].name}
  }

  /** Everything the fields of a shape mention, an embedded struct being itself a field. */
  function Uses(sh: Shape): set<string> {
    NamesOf(sh.embedded) + MentionsOf(sh.own)
  }

  predicate EnumsKnown(w: World, t: Type) {
    match t
    case EnumType(name) => name in w.enums
    case SliceType(elem) => EnumsKnown(w, elem)
    case MapType(elem) => EnumsKnown(w, elem)
    case PointerType(elem) => EnumsKnown(w, elem)
    case _ => true
  }

  predicate FieldsExist(w: World, sh: Shape) {
    && (forall e | e in sh.embedded :: e.name in w.structs && w.structs[e.name] == e)
    && (forall m | m in sh.own :: EnumsKnown(w, m.kind))
  }

  /** The compiler's guarantee: every type mentioned anywhere exists, and a name means one struct. */
  predicate Compiles(w: World) {
    forall n | n in w.structs :: Uses(w.structs[n]) <= w.structs.Keys && FieldsExist(w, w.structs[n])
  }

  function NamesIn(order: seq<string>): set<string> {
    if order == [] then {} else NamesIn(order[..|order| - 1]) + {order[|order| - 1]}
  }

  predicate Once(order: seq<string>) {
    order == [] || (order[|order| - 1] !in NamesIn(order[..|order| - 1]) && Once(order[..|order| - 1]))
  }

  /** The output order lists every struct seen, once. */
  predicate Lists(order: seq<string>, seen: set<string>) {
    NamesIn(order) == seen && Once(order)
  }

  /** What one visit leaves behind: it only adds, and for everything it added, whatever that uses is there too. */
  ghost predicate Grew(w: World, before: set<string>, after: set<string>) {
    before <= after <= w.structs.Keys && forall n | n in after && n !in before :: Uses(w.structs[n]) <= after
  }

  class Walker {
    const w: World
    var seen: set<string>
    var order: seq<string>

    constructor (w: World)
      ensures this.w == w && seen == {} && order == []
    {
      this.w := w;
      seen, order := {}, [];
    }

    method Visit(t: Type)
      requires Compiles(w) && seen <= w.structs.Keys && Mentions(t) <= w.structs.Keys
      modifies this
      ensures Grew(w, old(seen), seen) && Mentions(t) <= seen
      ensures old(Lists(order, seen)) ==> Lists(order, seen)
      decreases w.structs.Keys - seen, 1, t
    {
      match t
      case SliceType(elem) => Visit(elem);
      case MapType(elem) => Visit(elem);
      case PointerType(elem) => Visit(elem);
      case StructType(name) => VisitStruct(name);
      case _ =>
    }

    method VisitStruct(name: string)
      requires Compiles(w) && seen <= w.structs.Keys && name in w.structs
      modifies this
      ensures Grew(w, old(seen), seen) && name in seen
      ensures old(Lists(order, seen)) ==> Lists(order, seen)
      decreases w.structs.Keys - seen, 0, BoolType
    {
      if name in seen {
        return;
      }
      ghost var first := seen;
      OneMore(order, seen, name);
      seen, order := seen + {name}, order + [name];
      VisitEach(w.structs[name].embedded);
      ghost var mid := seen;
      VisitOwn(w.structs[name].own);
      GrewOn(w, first + {name}, mid, seen);
      Entered(w, first, name, seen);
    }

    method VisitOwn(own: seq<Member>)
      requires Compiles(w) && seen <= w.structs.Keys && MentionsOf(own) <= w.structs.Keys
      modifies this
      ensures Grew(w, old(seen), seen) && MentionsOf(own) <= seen
      ensures old(Lists(order, seen)) ==> Lists(order, seen)
      decreases w.structs.Keys - seen, 3, BoolType
    {
      var i := 0;
      assert own[..|own|] == own;
      while i < |own|
        invariant 0 <= i <= |own|
        invariant Grew(w, old(seen), seen) && MentionsOf(own[..i]) <= seen
        invariant old(Lists(order, seen)) ==> Lists(order, seen)
      {
        ghost var here := seen;
        NextMention(own, i);
        Visit(own[i].kind);
        GrewOn(w, old(seen), here, seen);
        i := i + 1;
      }
    }

    method VisitEach(shapes: seq<Shape>)
      requires Compiles(w) && seen <= w.structs.Keys && NamesOf(shapes) <= w.structs.Keys
      modifies this
      ensures Grew(w, old(seen), seen) && NamesOf(shapes) <= seen
      ensures old(Lists(order, seen)) ==> Lists(order, seen)
      decreases w.structs.Keys - seen, 2, BoolType
    {
      var i := 0;
      assert shapes[..|shapes|] == shapes;
      while i < |shapes|
        invariant 0 <= i <= |shapes|
        invariant Grew(w, old(seen), seen) && NamesOf(shapes[..i]) <= seen
        invariant old(Lists(order, seen)) ==> Lists(order, seen)
      {
        ghost var here := seen;
        NextName(shapes, i);
        VisitStruct(shapes[i].name);
        GrewOn(w, old(seen), here, seen);
        i := i + 1;
      }
    }

    /** `namedStructs`: the structs reachable from the roots, each once, in the order the walk meets them. */
    method NamedStructs(roots: seq<Shape>)
      requires Compiles(w) && seen == {} && order == [] && NamesOf(roots) <= w.structs.Keys
      modifies this
      ensures seen <= w.structs.Keys && Lists(order, seen) && NamesOf(roots) <= seen
      ensures forall n | n in seen :: Uses(w.structs[n]) <= seen
    {
      VisitEach(roots);
    }
  }

  lemma GrewOn(w: World, a: set<string>, b: set<string>, c: set<string>)
    requires Grew(w, a, b) && Grew(w, b, c)
    ensures Grew(w, a, c)
  {
  }

  lemma Entered(w: World, before: set<string>, name: string, after: set<string>)
    requires name in w.structs && Grew(w, before + {name}, after) && Uses(w.structs[name]) <= after
    ensures Grew(w, before, after)
  {
  }

  lemma OneMore(order: seq<string>, seen: set<string>, name: string)
    requires name !in seen
    ensures Lists(order, seen) ==> Lists(order + [name], seen + {name})
  {
    assert (order + [name])[..|order|] == order;
  }

  lemma {:induction false} MentionsGrow(ms: seq<Member>, i: nat)
    requires i <= |ms|
    ensures MentionsOf(ms[..i]) <= MentionsOf(ms)
    decreases |ms|
  {
    if i < |ms| {
      MentionsGrow(ms[..|ms| - 1], i);
      assert ms[..|ms| - 1][..i] == ms[..i];
    } else {
      assert ms[..i] == ms;
    }
  }

  lemma {:induction false} NamesGrow(shapes: seq<Shape>, i: nat)
    requires i <= |shapes|
    ensures NamesOf(shapes[..i]) <= NamesOf(shapes)
    decreases |shapes|
  {
    if i < |shapes| {
      NamesGrow(shapes[..|shapes| - 1], i);
      assert shapes[..|shapes| - 1][..i] == shapes[..i];
    } else {
      assert shapes[..i] == shapes;
    }
  }

  lemma NextName(shapes: seq<Shape>, i: nat)
    requires i < |shapes|
    ensures NamesOf(shapes[..i + 1]) == NamesOf(shapes[..i]) + {shapes[i].name} && shapes[i].name in NamesOf(shapes)
  {
    assert shapes[..i + 1][..i] == shapes[..i];
    NamesGrow(shapes, i + 1);
  }

  lemma NextMention(ms: seq<Member>, i: nat)
    requires i < |ms|
    ensures MentionsOf(ms[..i + 1]) == MentionsOf(ms[..i]) + Mentions(ms[i].kind)
    ensures Mentions(ms[i].kind) <= MentionsOf(ms)
  {
    assert ms[..i + 1][..i] == ms[..i];
    MentionsGrow(ms, i + 1);
  }

  // ---------------------------------------------------------------- the document of the structs found

  /** The world the document describes: the structs found, and every registered enumeration. */
  function Found(w: World, seen: set<string>): World {
    World(map n | n in seen && n in w.structs :: w.structs[n], w.enums)
  }

  lemma {:induction false} KnownWhenMentioned(w: World, seen: set<string>, t: Type)
    requires seen <= w.structs.Keys && Mentions(t) <= seen && EnumsKnown(w, t)
    ensures Known(Found(w, seen), t)
  {
    match t
    case SliceType(elem) => KnownWhenMentioned(w, seen, elem);
    case MapType(elem) => KnownWhenMentioned(w, seen, elem);
    case PointerType(elem) => KnownWhenMentioned(w, seen, elem);
    case StructType(name) => assert name in Mentions(t);
    case _ =>
  }

  lemma {:induction false} OwnIsMentioned(ms: seq<Member>, m: Member)
    requires m in ms
    ensures Mentions(m.kind) <= MentionsOf(ms)
  {
    if m != ms[|ms| - 1] {
      assert ms == ms[..|ms| - 1] + [ms[|ms| - 1]];
      OwnIsMentioned(ms[..|ms| - 1], m);
    }
  }

  lemma {:induction false} EmbeddedIsNamed(shapes: seq<Shape>, e: Shape)
    requires e in shapes
    ensures e.name in NamesOf(shapes)
  {
    if e != shapes[|shapes| - 1] {
      assert shapes == shapes[..|shapes| - 1] + [shapes[|shapes| - 1]];
      EmbeddedIsNamed(shapes[..|shapes| - 1], e);
    }
  }

  lemma {:induction false} MemberOfSome(shapes: seq<Shape>, m: Member) returns (e: Shape)
    requires m in MembersOf(shapes)
    ensures e in shapes && m in Members(e)
  {
    var front, last := shapes[..|shapes| - 1], shapes[|shapes| - 1];
    if m in Members(last) {
      e := last;
    } else {
      e := MemberOfSome(front, m);
    }
  }

  lemma {:induction false} MembersAreKnown(w: World, seen: set<string>, sh: Shape, m: Member)
    requires Compiles(w) && seen <= w.structs.Keys && forall n | n in seen :: Uses(w.structs[n]) <= seen
    requires sh.name in seen && w.structs[sh.name] == sh && m in Members(sh)
    ensures Known(Found(w, seen), m.kind)
    decreases sh
  {
    assert FieldsExist(w, sh) && Uses(sh) <= seen;
    if m in sh.own {
      OwnIsMentioned(sh.own, m);
      KnownWhenMentioned(w, seen, m.kind);
    } else {
      var e := MemberOfSome(sh.embedded, m);
      EmbeddedIsNamed(sh.embedded, e);
      MembersAreKnown(w, seen, e, m);
    }
  }

  /** A struct is filed under its own name. */
  predicate ProperlyFiled(w: World) {
    forall n | n in w.structs :: w.structs[n].name == n
  }

  /** A set of structs closed under use makes a document in which every reference resolves. */
  lemma ClosedSetIsSelfContained(w: World, seen: set<string>)
    requires Compiles(w) && ProperlyFiled(w) && seen <= w.structs.Keys
    requires forall n | n in seen :: Uses(w.structs[n]) <= seen
    ensures SelfContained(Found(w, seen))
  {
    var found := Found(w, seen);
    forall n, m | n in found.structs && m in Members(found.structs[n])
      ensures Known(found, m.kind)
    {
      MembersAreKnown(w, seen, found.structs[n], m);
    }
  }

  // ---------------------------------------------------------------- the generated document means what it says

  lemma {:induction false} SchemaForIsPlain(t: Type)
    ensures Plain(SchemaFor(t))
  {
    match t
    case SliceType(elem) => SchemaForIsPlain(elem);
    case MapType(elem) => SchemaForIsPlain(elem);
    case PointerType(elem) => SchemaForIsPlain(elem);
    case _ =>
  }

  lemma DefinitionIsPlain(w: World, name: string)
    requires WellNamed(w) && name in Definitions(w)
    ensures Plain(Definitions(w)[name])
  {
    DefinitionsAre(w, name);
    if name in w.structs {
      var ms := Members(w.structs[name]);
      forall k | k in Properties(ms)
        ensures Plain(Properties(ms)[k])
      {
        PropertiesAreMembers(ms, k);
        var i :| 0 <= i < |ms| && ms[i].name == k;
        PropertiesAre(ms, i);
        SchemaForIsPlain(ms[i].kind);
      }
    }
  }

  /** On every generated document the validator is exactly JSON Schema 2020-12. */
  lemma GeneratedFollowsTheStandard(w: World, isDateTime: string -> bool, t: Type, value: JSON)
    requires WellNamed(w)
    ensures Sound(ContextOf(w, isDateTime)) && FullyGrounded(ContextOf(w, isDateTime))
    ensures Conforms(ContextOf(w, isDateTime), SchemaFor(t), value)
      <==> Standard(ContextOf(w, isDateTime), SchemaFor(t), value)
  {
    var c := ContextOf(w, isDateTime);
    GeneratedIsSound(w, isDateTime);
    forall name | name in c.defs
      ensures Plain(c.defs[name]) && FullDepth(c.defs[name], c.rank) == 0
    {
      DefinitionIsPlain(w, name);
      DefinitionsAre(w, name);
    }
    SchemaForIsPlain(t);
    PlainSchemasMeanTheSame(c, SchemaFor(t), value);
  }
}
