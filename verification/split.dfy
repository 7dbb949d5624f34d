/**
 The split of a schema into a TypeScript type with checking tags and a residual schema
 (lib/bun-target.js). A type is six lists of alternatives, one per JSON kind; what the
 type cannot say stays in the residual.
 */
module SplitModel {
  import opened Json

  // ---------------------------------------------------------------- schemas

  datatype TypeName = TString | TNumber | TInteger | TBoolean | TNull | TObject | TArray | TUnknown(name: string)

  datatype StringRules = StringRules(minLength: Option<real>, maxLength: Option<real>,
                                     pattern: Option<string>, format: Option<string>)

  datatype NumberRules = NumberRules(minimum: Option<real>, maximum: Option<real>,
                                     exclusiveMinimum: Option<real>, exclusiveMaximum: Option<real>,
                                     multipleOf: Option<real>)

  /** What a local reference names: the whole schema, or a definition by its pointer. */
  datatype Target = Root | Def(pointer: string)

  /** A reference to a schema, or to the residual kept beside it. */
  datatype RefTo = Whole(t: Target) | RestOf(t: Target)

  datatype Prop = Prop(name: string, schema: Schema)

  // Optional keywords over schemas, one datatype each so that subschemas stay structurally smaller.
  datatype OptProps = NoProps | Props(list: seq<Prop>)
  datatype OptSchema = NoSchema | Sub(schema: Schema)
  datatype OptList = NoList | List(list: seq<Schema>)

  /** `patterns` is patternProperties; it is never carried, but it decides what is additional. */
  datatype ObjectRules = ObjectRules(properties: OptProps, required: Option<seq<string>>,
                                     additional: OptSchema, patterns: OptProps)

  datatype ArrayRules = ArrayRules(items: OptSchema, prefixItems: OptList,
                                   minItems: Option<real>, maxItems: Option<real>)

  /** `other` names the keywords the type does not read; `unevaluated` one that sees its siblings. */
  datatype Schema =
    | BoolSchema(b: bool)
    | Node(types: Option<seq<TypeName>>, enum_: Option<seq<Json>>, const_: Option<Json>,
           str: StringRules, num: NumberRules, obj: ObjectRules, arr: ArrayRules,
           allOf: OptList, anyOf: OptList, other: set<nat>, unevaluated: Option<nat>, ref: Option<RefTo>)

  const NO_STRING := StringRules(None, None, None, None)
  const NO_NUMBER := NumberRules(None, None, None, None, None)
  const NO_OBJECT := ObjectRules(NoProps, None, NoSchema, NoProps)
  const NO_ARRAY := ArrayRules(NoSchema, NoList, None, None)
  const EMPTY_NODE := Node(None, None, None, NO_STRING, NO_NUMBER, NO_OBJECT, NO_ARRAY, NoList, NoList, {}, None, None)

  /**
   What the conversion goes by: the test for patterns on which the two readings may differ, the formats
   decided by one expression, whether formats are asserted, whether a reference overrides its siblings
   (draft-07 and before), and the targets known to have a residual.
   */
  datatype Given = Given(
    differs: string -> bool,
    formatPattern: string -> Option<string>,
    assertFormat: bool,
    overrides: bool,
    kept: set<Target>)

  /**
   What schemas and types mean: the two readings of a pattern (with the unicode flag, as JSON Schema reads
   one, and without it, as Bun does), the keywords the split does not read, and what a reference and a named
   type stand for.
   */
  datatype World = World(
    unicodeMatch: (string, string) -> bool,
    plainMatch: (string, string) -> bool,
    formatOk: (string, string) -> bool,
    assertFormat: bool,
    overrides: bool,
    otherOk: (nat, Json) -> bool,
    wholeOk: (nat, Schema, Json) -> bool,
    refOk: (RefTo, Json) -> bool,
    aliasOk: (Target, Json) -> bool)

  /** The two go by the same readings. */
  ghost predicate ReadsOk(w: World, g: Given) {
    && w.assertFormat == g.assertFormat && w.overrides == g.overrides
    && (forall p, s :: !g.differs(p) ==> w.unicodeMatch(p, s) == w.plainMatch(p, s))
    && (forall f, s :: g.formatPattern(f).Some? ==> w.formatOk(f, s) == w.unicodeMatch(g.formatPattern(f).value, s))
  }

  /** What a reference accepts has the named type and satisfies the residual kept of it. */
  ghost predicate RefsSound(w: World) {
    forall t, v :: w.refOk(Whole(t), v) ==> w.aliasOk(t, v) && w.refOk(RestOf(t), v)
  }

  ghost predicate WorldOk(w: World, g: Given) {
    ReadsOk(w, g) && RefsSound(w)
  }

  // ---------------------------------------------------------------- validity

  predicate IsInteger(n: real) {
    n.Floor as real == n
  }

  predicate IsMultiple(n: real, d: real) {
    d > 0.0 ==> IsInteger(n / d)
  }

  predicate OfType(t: TypeName, v: Json) {
    match t
    case TString => v.Str?
    case TNumber => v.Num?
    case TInteger => v.Num? && IsInteger(v.n)
    case TBoolean => v.Bool?
    case TNull => v.Null?
    case TObject => v.Obj?
    case TArray => v.Arr?
    case TUnknown(_) => false
  }

  predicate StringOk(r: StringRules, s: string, w: World) {
    && (r.minLength.Some? ==> |s| as real >= r.minLength.value)
    && (r.maxLength.Some? ==> |s| as real <= r.maxLength.value)
    && (r.pattern.Some? ==> w.unicodeMatch(r.pattern.value, s))
    && (r.format.Some? && w.assertFormat ==> w.formatOk(r.format.value, s))
  }

  predicate NumberOk(r: NumberRules, n: real) {
    && (r.minimum.Some? ==> n >= r.minimum.value)
    && (r.maximum.Some? ==> n <= r.maximum.value)
    && (r.exclusiveMinimum.Some? ==> n > r.exclusiveMinimum.value)
    && (r.exclusiveMaximum.Some? ==> n < r.exclusiveMaximum.value)
    && (r.multipleOf.Some? ==> IsMultiple(n, r.multipleOf.value))
  }

  function List0(ps: OptProps): seq<Prop> {
    match ps case NoProps => [] case Props(l) => l
  }

  predicate Named(ps: seq<Prop>, k: string) {
    exists i :: 0 <= i < |ps| && ps[i].name == k
  }

  /** Whether `k` is additional: neither declared nor matched by a pattern. */
  predicate Additional(o: ObjectRules, k: string, w: World) {
    && !Named(List0(o.properties), k)
    && !(exists i :: 0 <= i < |List0(o.patterns)| && w.unicodeMatch(List0(o.patterns)[i].name, k))
  }

  ghost predicate ObjectOk(o: ObjectRules, m: map<string, Json>, w: World)
    decreases o, 0
  {
    && (o.properties.Props? ==> forall i :: 0 <= i < |o.properties.list| ==>
          o.properties.list[i].name in m ==> Accepts(o.properties.list[i].schema, m[o.properties.list[i].name], w))
    && (o.required.Some? ==> forall i :: 0 <= i < |o.required.value| ==> o.required.value[i] in m)
    && (o.patterns.Props? ==> forall i, k :: 0 <= i < |o.patterns.list| && k in m && w.unicodeMatch(o.patterns.list[i].name, k) ==>
          Accepts(o.patterns.list[i].schema, m[k], w))
    && (o.additional.Sub? ==> forall k :: k in m && Additional(o, k, w) ==> Accepts(o.additional.schema, m[k], w))
  }

  ghost predicate ArrayOk(r: ArrayRules, a: seq<Json>, w: World)
    decreases r, 0
  {
    && (r.prefixItems.List? ==> forall i :: 0 <= i < |r.prefixItems.list| && i < |a| ==>
          Accepts(r.prefixItems.list[i], a[i], w))
    && (r.items.Sub? ==> forall i :: PrefixLength(r) <= i < |a| ==> Accepts(r.items.schema, a[i], w))
    && (r.minItems.Some? ==> |a| as real >= r.minItems.value)
    && (r.maxItems.Some? ==> |a| as real <= r.maxItems.value)
  }

  function PrefixLength(r: ArrayRules): nat {
    if r.prefixItems.List? then |r.prefixItems.list| else 0
  }

  /** The rules of the value's own kind; a rule for another kind binds nothing. */
  ghost predicate KindRulesOk(s: Schema, v: Json, w: World)
    requires s.Node?
    decreases s, 0
  {
    match v
    case Str(x) => StringOk(s.str, x, w)
    case Num(n) => NumberOk(s.num, n)
    case Obj(m) => ObjectOk(s.obj, m, w)
    case Arr(a) => ArrayOk(s.arr, a, w)
    case _ => true
  }

  ghost predicate ScalarKeywordsOk(s: Schema, v: Json, w: World)
    requires s.Node?
  {
    && (s.types.Some? ==> exists i :: 0 <= i < |s.types.value| && OfType(s.types.value[i], v))
    && (s.enum_.Some? ==> v in s.enum_.value)
    && (s.const_.Some? ==> v == s.const_.value)
    && (forall k :: k in s.other ==> w.otherOk(k, v))
    && (s.unevaluated.Some? ==> w.wholeOk(s.unevaluated.value, s, v))
  }

  ghost predicate All(list: OptList, v: Json, w: World)
    decreases list, 0
  {
    list.List? ==> forall i :: 0 <= i < |list.list| ==> Accepts(list.list[i], v, w)
  }

  ghost predicate Some_(list: OptList, v: Json, w: World)
    decreases list, 0
  {
    list.List? ==> exists i :: 0 <= i < |list.list| && Accepts(list.list[i], v, w)
  }

  /** Draft 2020-12 validity of a document. */
  ghost predicate Accepts(s: Schema, v: Json, w: World)
    decreases s, 1
  {
    match s
    case BoolSchema(b) => b
    case Node(_, _, _, _, _, _, _, allOf, anyOf, _, _, ref) =>
      && (ref.Some? ==> w.refOk(ref.value, v))
      && ((ref.Some? && w.overrides) ||
          (ScalarKeywordsOk(s, v, w) && KindRulesOk(s, v, w) && All(allOf, v, w) && Some_(anyOf, v, w)))
  }

  // ---------------------------------------------------------------- types

  datatype Kind = KString | KNumber | KBoolean | KNull | KObject | KArray

  datatype StrTag = TagMinLength(n: real) | TagMaxLength(n: real) | TagPattern(p: string)
  datatype NumTag = TagInt | TagMin(n: real) | TagMax(n: real) | TagAbove(n: real) | TagBelow(n: real) | TagMultipleOf(n: real)
  datatype ArrTag = TagMinItems(n: real) | TagMaxItems(n: real)

  datatype Member = Member(name: string, optional: bool, t: Type)
  datatype Elem = AnyElem | Each(t: Type) | Fixed(ts: seq<Type>)

  datatype Alt =
    | Lit(v: Json)
    | NullAlt
    | BoolAlt
    | StrAlt(stags: seq<StrTag>)
    | NumAlt(ntags: seq<NumTag>)
    | AnyRecord
    | Shape(members: seq<Member>, strict: bool)
    | Both(left: Alt, right: Alt)
    | ArrAlt(elem: Elem, atags: seq<ArrTag>)

  datatype Type = Type(strs: seq<Alt>, nums: seq<Alt>, bools: seq<Alt>, nulls: seq<Alt>, objs: seq<Alt>, arrs: seq<Alt>, aliases: seq<Target>)

  function At(t: Type, k: Kind): seq<Alt> {
    match k
    case KString => t.strs
    case KNumber => t.nums
    case KBoolean => t.bools
    case KNull => t.nulls
    case KObject => t.objs
    case KArray => t.arrs
  }

  function KindOf(v: Json): Kind {
    match v
    case Str(_) => KString
    case Num(_) => KNumber
    case Bool(_) => KBoolean
    case Null => KNull
    case Obj(_) => KObject
    case Arr(_) => KArray
  }

  predicate StrTagOk(t: StrTag, s: string, w: World) {
    match t
    case TagMinLength(n) => |s| as real >= n
    case TagMaxLength(n) => |s| as real <= n
    case TagPattern(p) => w.plainMatch(p, s)
  }

  predicate NumTagOk(t: NumTag, n: real) {
    match t
    case TagInt => IsInteger(n)
    case TagMin(b) => n >= b
    case TagMax(b) => n <= b
    case TagAbove(b) => n > b
    case TagBelow(b) => n < b
    case TagMultipleOf(d) => IsMultiple(n, d)
  }

  predicate ArrTagOk(t: ArrTag, a: seq<Json>) {
    match t
    case TagMinItems(n) => |a| as real >= n
    case TagMaxItems(n) => |a| as real <= n
  }

  ghost predicate InElem(e: Elem, a: seq<Json>, w: World)
    decreases e, 0
  {
    match e
    case AnyElem => true
    case Each(t) => forall i :: 0 <= i < |a| ==> Inhabits(a[i], t, w)
    case Fixed(ts) => |a| == |ts| && forall i :: 0 <= i < |ts| ==> Inhabits(a[i], ts[i], w)
  }

  ghost predicate InAlt(v: Json, alt: Alt, w: World)
    decreases alt, 0
  {
    match alt
    case Lit(x) => v == x
    case NullAlt => v.Null?
    case BoolAlt => v.Bool?
    case StrAlt(tags) => v.Str? && forall i :: 0 <= i < |tags| ==> StrTagOk(tags[i], v.s, w)
    case NumAlt(tags) => v.Num? && forall i :: 0 <= i < |tags| ==> NumTagOk(tags[i], v.n)
    case AnyRecord => v.Obj?
    case Shape(ms, strict) =>
      && v.Obj?
      && (forall i :: 0 <= i < |ms| ==> if ms[i].name in v.m then Inhabits(v.m[ms[i].name], ms[i].t, w) else ms[i].optional)
      && (strict ==> forall k :: k in v.m ==> exists i :: 0 <= i < |ms| && ms[i].name == k)
    case Both(x, y) => InAlt(v, x, w) && InAlt(v, y, w)
    case ArrAlt(e, tags) => v.Arr? && InElem(e, v.a, w) && forall i :: 0 <= i < |tags| ==> ArrTagOk(tags[i], v.a)
  }

  ghost predicate InSome(v: Json, alts: seq<Alt>, w: World)
    decreases alts, 1
  {
    exists i :: 0 <= i < |alts| && InAlt(v, alts[i], w)
  }

  ghost predicate Inhabits(v: Json, t: Type, w: World)
    decreases t, 2
  {
    InSome(v, At(t, KindOf(v)), w) || InAlias(v, t.aliases, w)
  }

  ghost predicate InAlias(v: Json, ts: seq<Target>, w: World) {
    exists i :: 0 <= i < |ts| && w.aliasOk(ts[i], v)
  }
}

/** Unions and intersections of types (`union`, `intersect`, `meet` of lib/bun-target.js). */
module TypeAlgebra {
  import opened Json
  import opened SplitModel

  const MAX_ALTERNATIVES := 256

  function UniversalAlt(k: Kind): Alt {
    match k
    case KString => StrAlt([])
    case KNumber => NumAlt([])
    case KBoolean => BoolAlt
    case KNull => NullAlt
    case KObject => AnyRecord
    case KArray => ArrAlt(AnyElem, [])
  }

  function Universal(): Type {
    Type([StrAlt([])], [NumAlt([])], [BoolAlt], [NullAlt], [AnyRecord], [ArrAlt(AnyElem, [])], [])
  }

  function Never(): Type {
    Type([], [], [], [], [], [], [])
  }

  function Single(k: Kind, alt: Alt): Type {
    match k
    case KString => Never().(strs := [alt])
    case KNumber => Never().(nums := [alt])
    case KBoolean => Never().(bools := [alt])
    case KNull => Never().(nulls := [alt])
    case KObject => Never().(objs := [alt])
    case KArray => Never().(arrs := [alt])
  }

  /** Repeated alternatives written once, the first occurrence kept. */
  function Dedupe<T(==,!new)>(xs: seq<T>): (r: seq<T>)
    ensures forall x :: x in r <==> x in xs
    ensures forall i, j :: 0 <= i < j < |r| ==> r[i] != r[j]
  {
    if xs == [] then []
    else
      var init := Dedupe(xs[..|xs| - 1]);
      var last := xs[|xs| - 1];
      assert xs == xs[..|xs| - 1] + [last];
      if last in init then init else init + [last]
  }

  function Union(a: Type, b: Type): Type {
    Type(Dedupe(a.strs + b.strs), Dedupe(a.nums + b.nums), Dedupe(a.bools + b.bools),
         Dedupe(a.nulls + b.nulls), Dedupe(a.objs + b.objs), Dedupe(a.arrs + b.arrs), Dedupe(a.aliases + b.aliases))
  }

  predicate IsLiteral(alt: Alt) {
    alt.Lit? || alt.NullAlt?
  }

  /** Whether a strict shape is written anywhere in the alternative. */
  predicate MentionsStrict(alt: Alt)
    decreases alt, 0
  {
    match alt
    case Shape(ms, strict) => strict || exists i :: 0 <= i < |ms| && TypeMentionsStrict(ms[i].t)
    case Both(x, y) => MentionsStrict(x) || MentionsStrict(y)
    case ArrAlt(Each(t), _) => TypeMentionsStrict(t)
    case ArrAlt(Fixed(ts), _) => exists i :: 0 <= i < |ts| && TypeMentionsStrict(ts[i])
    case _ => false
  }

  predicate TypeMentionsStrict(t: Type)
    decreases t, 1
  {
    exists i, k :: 0 <= i < |At(t, k)| && MentionsStrict(At(t, k)[i])
  }

  /** What two alternatives of one kind have in common: not writable, nothing, or one alternative. */
  datatype Common = Unwritable | Nothing | One(alt: Alt)

  function Meet(k: Kind, x: Alt, y: Alt): Common {
    if x == UniversalAlt(k) then One(y)
    else if y == UniversalAlt(k) then One(x)
    else if x == y then One(x)
    else if IsLiteral(x) && IsLiteral(y) then Nothing
    else if IsLiteral(x) || IsLiteral(y) then Unwritable
    else
      match k
      case KString => if x.StrAlt? && y.StrAlt? then One(StrAlt(x.stags + y.stags)) else Unwritable
      case KNumber => if x.NumAlt? && y.NumAlt? then One(NumAlt(x.ntags + y.ntags)) else Unwritable
      case KObject => if MentionsStrict(x) || MentionsStrict(y) then Unwritable else One(Both(x, y))
      case _ => Unwritable
  }

  /** One alternative against each of a list, in order; None when a pair cannot be written. */
  function Row(k: Kind, x: Alt, ys: seq<Alt>): Option<seq<Alt>> {
    if ys == [] then Some([])
    else
      var init := Row(k, x, ys[..|ys| - 1]);
      if init.None? then None
      else
        match Meet(k, x, ys[|ys| - 1])
        case Unwritable => None
        case Nothing => init
        case One(z) => Some(init.value + [z])
  }

  function Product(k: Kind, xs: seq<Alt>, ys: seq<Alt>): Option<seq<Alt>> {
    if xs == [] then Some([])
    else
      var init := Product(k, xs[..|xs| - 1], ys);
      var row := Row(k, xs[|xs| - 1], ys);
      if init.None? || row.None? then None else Some(init.value + row.value)
  }

  function IntersectKind(k: Kind, xs: seq<Alt>, ys: seq<Alt>): Option<seq<Alt>> {
    if |xs| * |ys| > MAX_ALTERNATIVES then None
    else
      var p := Product(k, xs, ys);
      if p.None? then None else Some(Dedupe(p.value))
  }

  function Intersect(a: Type, b: Type): Option<Type> {
    var s, n, l := IntersectKind(KString, a.strs, b.strs), IntersectKind(KNumber, a.nums, b.nums), IntersectKind(KBoolean, a.bools, b.bools);
    var z, o, r := IntersectKind(KNull, a.nulls, b.nulls), IntersectKind(KObject, a.objs, b.objs), IntersectKind(KArray, a.arrs, b.arrs);
    if a.aliases != [] || b.aliases != [] then None
    else if s.None? || n.None? || l.None? || z.None? || o.None? || r.None? then None
    else Some(Type(s.value, n.value, l.value, z.value, o.value, r.value, []))
  }

  // ------------------------------------------------- the loops of `intersect`

  /** The nested loops over one kind: pairs are met in order and pushed; an unwritable pair gives up. */
  method IntersectKindLoop(k: Kind, xs: seq<Alt>, ys: seq<Alt>) returns (r: Option<seq<Alt>>)
    ensures r == IntersectKind(k, xs, ys)
  {
    if |xs| * |ys| > MAX_ALTERNATIVES { return None; }
    hide Meet, Dedupe, Row, Product;
    NoProduct(k, xs, ys);
    var out: seq<Alt> := [];
    var i := 0;
    while i < |xs|
      invariant 0 <= i <= |xs|
      invariant Product(k, xs[..i], ys) == Some(out)
    {
      ghost var before := out;
      RowBegins(k, xs, ys, i);
      var j := 0;
      while j < |ys|
        invariant 0 <= j <= |ys|
        invariant Row(k, xs[i], ys[..j]).Some?
        invariant out == before + Row(k, xs[i], ys[..j]).value
      {
        RowSnoc(k, xs[i], ys, j);
        var z := Meet(k, xs[i], ys[j]);
        if z.Unwritable? {
          RowStuck(k, xs[i], ys, j + 1);
          ProductStuck(k, xs, ys, i);
          return None;
        }
        if z.One? { out := out + [z.alt]; }
        j := j + 1;
      }
      assert ys[..|ys|] == ys;
      ProductSnoc(k, xs, ys, i);
      i := i + 1;
    }
    assert xs[..|xs|] == xs;
    return Some(Dedupe(out));
  }

  lemma RowBegins(k: Kind, xs: seq<Alt>, ys: seq<Alt>, i: nat)
    requires i < |xs|
    ensures Row(k, xs[i], ys[..0]) == Some([])
  {
  }

  lemma NoProduct(k: Kind, xs: seq<Alt>, ys: seq<Alt>)
    ensures Product(k, xs[..0], ys) == Some([])
  {
  }

  lemma RowSnoc(k: Kind, x: Alt, ys: seq<Alt>, j: nat)
    requires j < |ys| && Row(k, x, ys[..j]).Some?
    ensures Row(k, x, ys[..j + 1]) == match Meet(k, x, ys[j])
                                      case Unwritable => None
                                      case Nothing => Row(k, x, ys[..j])
                                      case One(z) => Some(Row(k, x, ys[..j]).value + [z])
  {
    hide Meet;
    assert ys[..j + 1][..j] == ys[..j];
  }

  lemma ProductSnoc(k: Kind, xs: seq<Alt>, ys: seq<Alt>, i: nat)
    requires i < |xs| && Product(k, xs[..i], ys).Some? && Row(k, xs[i], ys).Some?
    ensures Product(k, xs[..i + 1], ys) == Some(Product(k, xs[..i], ys).value + Row(k, xs[i], ys).value)
  {
    hide Row;
    assert xs[..i + 1][..i] == xs[..i];
  }

  lemma {:induction false} RowStuck(k: Kind, x: Alt, ys: seq<Alt>, j: nat)
    requires j <= |ys| && Row(k, x, ys[..j]).None?
    ensures Row(k, x, ys).None?
    decreases |ys|
  {
    if j < |ys| {
      assert ys[..|ys| - 1][..j] == ys[..j];
      RowStuck(k, x, ys[..|ys| - 1], j);
    } else {
      assert ys[..j] == ys;
    }
  }

  lemma {:induction false} ProductStuck(k: Kind, xs: seq<Alt>, ys: seq<Alt>, i: nat)
    requires i < |xs| && Row(k, xs[i], ys).None?
    ensures Product(k, xs, ys).None?
    decreases |xs|
  {
    if i < |xs| - 1 { ProductStuck(k, xs[..|xs| - 1], ys, i); }
  }

  method IntersectLoop(a: Type, b: Type) returns (r: Option<Type>)
    ensures r == Intersect(a, b)
  {
    if a.aliases != [] || b.aliases != [] { return None; }
    var s := IntersectKindLoop(KString, a.strs, b.strs);
    if s.None? { return None; }
    var n := IntersectKindLoop(KNumber, a.nums, b.nums);
    if n.None? { return None; }
    var l := IntersectKindLoop(KBoolean, a.bools, b.bools);
    if l.None? { return None; }
    var z := IntersectKindLoop(KNull, a.nulls, b.nulls);
    if z.None? { return None; }
    var o := IntersectKindLoop(KObject, a.objs, b.objs);
    if o.None? { return None; }
    var c := IntersectKindLoop(KArray, a.arrs, b.arrs);
    if c.None? { return None; }
    return Some(Type(s.value, n.value, l.value, z.value, o.value, c.value, []));
  }

  // ---------------------------------------------------------------- meaning

  predicate AltOfKind(alt: Alt, k: Kind) {
    match alt
    case Lit(v) => KindOf(v) == k && IsScalar(v) && !v.Null?
    case NullAlt => k == KNull
    case BoolAlt => k == KBoolean
    case StrAlt(_) => k == KString
    case NumAlt(_) => k == KNumber
    case AnyRecord => k == KObject
    case Shape(_, _) => k == KObject
    case Both(_, _) => k == KObject
    case ArrAlt(_, _) => k == KArray
  }

  predicate AllOfKind(alts: seq<Alt>, k: Kind) {
    forall i :: 0 <= i < |alts| ==> AltOfKind(alts[i], k)
  }

  /** Each list holds alternatives of its own kind, as every type the split builds does. */
  predicate TypeOk(t: Type) {
    forall k :: AllOfKind(At(t, k), k)
  }

  lemma UniversalHolds(v: Json, w: World)
    ensures Inhabits(v, Universal(), w)
  {
    var alts := At(Universal(), KindOf(v));
    assert InAlt(v, alts[0], w);
  }

  lemma DedupeSame(v: Json, xs: seq<Alt>, w: World)
    ensures InSome(v, Dedupe(xs), w) <==> InSome(v, xs, w)
  {
    var d := Dedupe(xs);
    if InSome(v, d, w) {
      var i :| 0 <= i < |d| && InAlt(v, d[i], w);
      assert d[i] in xs;
    }
    if InSome(v, xs, w) {
      var i :| 0 <= i < |xs| && InAlt(v, xs[i], w);
      assert xs[i] in d;
    }
  }

  lemma InSomeConcat(v: Json, xs: seq<Alt>, ys: seq<Alt>, w: World)
    ensures InSome(v, xs + ys, w) <==> InSome(v, xs, w) || InSome(v, ys, w)
  {
    var zs := xs + ys;
    if InSome(v, xs, w) {
      var i :| 0 <= i < |xs| && InAlt(v, xs[i], w);
      assert zs[i] == xs[i];
    }
    if InSome(v, ys, w) {
      var i :| 0 <= i < |ys| && InAlt(v, ys[i], w);
      assert zs[|xs| + i] == ys[i];
    }
  }

  /** `union` denotes set union. */
  lemma UnionExact(a: Type, b: Type, v: Json, w: World)
    requires TypeOk(a) && TypeOk(b)
    ensures TypeOk(Union(a, b))
    ensures Inhabits(v, Union(a, b), w) <==> Inhabits(v, a, w) || Inhabits(v, b, w)
  {
    hide Dedupe, Union, AltOfKind, AllOfKind;
    var k := KindOf(v);
    UnionAt(a, b, k);
    DedupeSame(v, At(a, k) + At(b, k), w);
    InSomeConcat(v, At(a, k), At(b, k), w);
    AliasesExact(a, b, v, w);
    forall k' ensures AllOfKind(At(Union(a, b), k'), k') {
      UnionAt(a, b, k');
      UnionOfKind(At(a, k'), At(b, k'), k');
    }
  }

  lemma AliasesExact(a: Type, b: Type, v: Json, w: World)
    ensures InAlias(v, Union(a, b).aliases, w) <==> InAlias(v, a.aliases, w) || InAlias(v, b.aliases, w)
  {
    var all := a.aliases + b.aliases;
    var d := Dedupe(all);
    assert forall i :: 0 <= i < |a.aliases| ==> all[i] == a.aliases[i];
    assert forall i :: 0 <= i < |b.aliases| ==> all[|a.aliases| + i] == b.aliases[i];
    if InAlias(v, d, w) {
      var i :| 0 <= i < |d| && w.aliasOk(d[i], v);
      assert d[i] in all;
    }
    if i :| 0 <= i < |all| && w.aliasOk(all[i], v) {
      assert all[i] in d;
    }
  }

  lemma UnionAt(a: Type, b: Type, k: Kind)
    ensures At(Union(a, b), k) == Dedupe(At(a, k) + At(b, k))
  {
    hide Dedupe;
  }

  lemma UnionOfKind(xs: seq<Alt>, ys: seq<Alt>, k: Kind)
    requires AllOfKind(xs, k) && AllOfKind(ys, k)
    ensures AllOfKind(Dedupe(xs + ys), k)
  {
    hide AltOfKind;
    var d := Dedupe(xs + ys);
    forall i | 0 <= i < |d| ensures AltOfKind(d[i], k) {
      assert d[i] in d;
      assert d[i] in xs + ys;
      if d[i] in xs {} else { assert d[i] in ys; }
    }
  }

  /** `meet` denotes the intersection of its two alternatives, nothing meaning the empty set. */
  lemma MeetExact(k: Kind, x: Alt, y: Alt, v: Json, w: World)
    requires AltOfKind(x, k) && AltOfKind(y, k) && KindOf(v) == k
    ensures Meet(k, x, y).Nothing? ==> !(InAlt(v, x, w) && InAlt(v, y, w))
    ensures Meet(k, x, y).One? ==> AltOfKind(Meet(k, x, y).alt, k)
    ensures Meet(k, x, y).One? ==> (InAlt(v, Meet(k, x, y).alt, w) <==> InAlt(v, x, w) && InAlt(v, y, w))
  {
    if x.StrAlt? && y.StrAlt? {
      TagsConcat(x.stags, y.stags, v, w);
    } else if x.NumAlt? && y.NumAlt? {
      NumTagsConcat(x.ntags, y.ntags, v, w);
    }
  }

  lemma TagsConcat(xs: seq<StrTag>, ys: seq<StrTag>, v: Json, w: World)
    ensures InAlt(v, StrAlt(xs + ys), w) <==> InAlt(v, StrAlt(xs), w) && InAlt(v, StrAlt(ys), w)
  {
    var zs := xs + ys;
    assert forall i :: 0 <= i < |xs| ==> zs[i] == xs[i];
    assert forall i :: 0 <= i < |ys| ==> zs[|xs| + i] == ys[i];
  }

  lemma NumTagsConcat(xs: seq<NumTag>, ys: seq<NumTag>, v: Json, w: World)
    ensures InAlt(v, NumAlt(xs + ys), w) <==> InAlt(v, NumAlt(xs), w) && InAlt(v, NumAlt(ys), w)
  {
    var zs := xs + ys;
    assert forall i :: 0 <= i < |xs| ==> zs[i] == xs[i];
    assert forall i :: 0 <= i < |ys| ==> zs[|xs| + i] == ys[i];
  }

  lemma InSomeSnoc(v: Json, xs: seq<Alt>, w: World)
    requires xs != []
    ensures InSome(v, xs, w) <==> InSome(v, xs[..|xs| - 1], w) || InAlt(v, xs[|xs| - 1], w)
  {
    var init, last := xs[..|xs| - 1], xs[|xs| - 1];
    assert xs == init + [last];
    InSomeConcat(v, init, [last], w);
    assert [last][0] == last;
  }

  lemma {:induction false} RowExact(k: Kind, x: Alt, ys: seq<Alt>, v: Json, w: World)
    requires AltOfKind(x, k) && AllOfKind(ys, k) && KindOf(v) == k && Row(k, x, ys).Some?
    ensures AllOfKind(Row(k, x, ys).value, k)
    ensures InSome(v, Row(k, x, ys).value, w) <==> InAlt(v, x, w) && InSome(v, ys, w)
    decreases |ys|
  {
    if ys != [] {
      var init, last := ys[..|ys| - 1], ys[|ys| - 1];
      RowExact(k, x, init, v, w);
      MeetExact(k, x, last, v, w);
      InSomeSnoc(v, ys, w);
      var m := Meet(k, x, last);
      if m.One? {
        InSomeSnoc(v, Row(k, x, init).value + [m.alt], w);
        assert (Row(k, x, init).value + [m.alt])[..|Row(k, x, init).value|] == Row(k, x, init).value;
      }
    }
  }

  lemma {:induction false} ProductExact(k: Kind, xs: seq<Alt>, ys: seq<Alt>, v: Json, w: World)
    requires AllOfKind(xs, k) && AllOfKind(ys, k) && KindOf(v) == k && Product(k, xs, ys).Some?
    ensures AllOfKind(Product(k, xs, ys).value, k)
    ensures InSome(v, Product(k, xs, ys).value, w) <==> InSome(v, xs, w) && InSome(v, ys, w)
    decreases |xs|
  {
    if xs != [] {
      var init, last := xs[..|xs| - 1], xs[|xs| - 1];
      ProductExact(k, init, ys, v, w);
      RowExact(k, last, ys, v, w);
      InSomeSnoc(v, xs, w);
      InSomeConcat(v, Product(k, init, ys).value, Row(k, last, ys).value, w);
    }
  }

  /** Whenever `intersect` does not give up, it denotes set intersection, kind by kind. */
  lemma IntersectExact(a: Type, b: Type, v: Json, w: World)
    requires TypeOk(a) && TypeOk(b) && Intersect(a, b).Some?
    ensures TypeOk(Intersect(a, b).value)
    ensures Inhabits(v, Intersect(a, b).value, w) <==> Inhabits(v, a, w) && Inhabits(v, b, w)
  {
    var t := Intersect(a, b).value;
    forall k ensures AllOfKind(At(t, k), k) {
      IntersectAt(a, b, k);
      KindsKept(k, At(a, k), At(b, k), w);
    }
    var k := KindOf(v);
    IntersectAt(a, b, k);
    IntersectKindExact(k, At(a, k), At(b, k), v, w);
  }

  lemma IntersectAt(a: Type, b: Type, k: Kind)
    requires Intersect(a, b).Some?
    ensures IntersectKind(k, At(a, k), At(b, k)) == Some(At(Intersect(a, b).value, k))
  {
  }

  lemma IntersectKindExact(k: Kind, xs: seq<Alt>, ys: seq<Alt>, v: Json, w: World)
    requires AllOfKind(xs, k) && AllOfKind(ys, k) && KindOf(v) == k && IntersectKind(k, xs, ys).Some?
    ensures InSome(v, IntersectKind(k, xs, ys).value, w) <==> InSome(v, xs, w) && InSome(v, ys, w)
  {
    ProductExact(k, xs, ys, v, w);
    DedupeSame(v, Product(k, xs, ys).value, w);
  }

  lemma KindsKept(k: Kind, xs: seq<Alt>, ys: seq<Alt>, w: World)
    requires AllOfKind(xs, k) && AllOfKind(ys, k) && IntersectKind(k, xs, ys).Some?
    ensures AllOfKind(IntersectKind(k, xs, ys).value, k)
  {
    var v := SampleOf(k);
    ProductExact(k, xs, ys, v, w);
    var p := Product(k, xs, ys).value;
    var d := Dedupe(p);
    forall i | 0 <= i < |d| ensures AltOfKind(d[i], k) {
      assert d[i] in d;
      assert d[i] in p;
    }
  }

  function SampleOf(k: Kind): (v: Json)
    ensures KindOf(v) == k
  {
    match k
    case KString => Str("")
    case KNumber => Num(0.0)
    case KBoolean => Bool(true)
    case KNull => Null
    case KObject => Obj(map[])
    case KArray => Arr([])
  }
}

/** The conversion itself (`conv`, `finish`, `kindAlt`, `objectAlt`, `arrayAlt` of lib/bun-target.js), tags on. */
module Split {
  import opened Json
  import opened SplitModel
  import opened TypeAlgebra

  /** A type, and the residual schema of what the type does not check. */
  datatype Split = Split(t: Type, res: OptSchema)

  datatype Folded = Folded(t: Type, rest: seq<Schema>)

  function AsResidual(res: Schema): OptSchema {
    if res == EMPTY_NODE then NoSchema else Sub(res)
  }

  // ------------------------------------------------ strings, numbers, literals

  function PatternTag(p: Option<string>, g: Given): seq<StrTag> {
    if p.Some? && !g.differs(p.value) then [TagPattern(p.value)] else []
  }

  /** The expression of a format the type can carry. */
  function CarriedFormat(f: Option<string>, g: Given): Option<string> {
    if f.None? || !g.assertFormat then None
    else
      var src := g.formatPattern(f.value);
      if src.Some? && !g.differs(src.value) then src else None
  }

  function StringTags(r: StringRules, g: Given): seq<StrTag> {
    PatternTag(CarriedFormat(r.format, g), g)
    + (if r.minLength.Some? then [TagMinLength(r.minLength.value)] else [])
    + (if r.maxLength.Some? then [TagMaxLength(r.maxLength.value)] else [])
    + PatternTag(r.pattern, g)
  }

  function StringResidual(r: StringRules, g: Given): StringRules {
    StringRules(None, None,
                if PatternTag(r.pattern, g) != [] then None else r.pattern,
                if CarriedFormat(r.format, g).Some? then None else r.format)
  }

  /** Only a whole multiple is carried: fractions are decided differently by every engine. */
  predicate WholeMultiple(d: Option<real>) {
    d.Some? && IsInteger(d.value) && d.value >= 1.0
  }

  function NumberTags(r: NumberRules, integer: bool): seq<NumTag> {
    (if integer then [TagInt] else [])
    + (if r.minimum.Some? then [TagMin(r.minimum.value)] else [])
    + (if r.maximum.Some? then [TagMax(r.maximum.value)] else [])
    + (if r.exclusiveMinimum.Some? then [TagAbove(r.exclusiveMinimum.value)] else [])
    + (if r.exclusiveMaximum.Some? then [TagBelow(r.exclusiveMaximum.value)] else [])
    + (if WholeMultiple(r.multipleOf) then [TagMultipleOf(r.multipleOf.value)] else [])
  }

  function NumberResidual(r: NumberRules): NumberRules {
    NO_NUMBER.(multipleOf := if WholeMultiple(r.multipleOf) then None else r.multipleOf)
  }

  function LiteralOf(v: Json): Option<Type> {
    match v
    case Str(_) => Some(Single(KString, Lit(v)))
    case Num(_) => Some(Single(KNumber, Lit(v)))
    case Bool(_) => Some(Single(KBoolean, Lit(v)))
    case Null => Some(Single(KNull, NullAlt))
    case _ => None
  }

  function Literals(vs: seq<Json>): Option<Type> {
    if vs == [] then Some(Never())
    else
      var init, last := Literals(vs[..|vs| - 1]), LiteralOf(vs[|vs| - 1]);
      if init.None? || last.None? then None else Some(Union(init.value, last.value))
  }

  /** The literal type of `enum` or `const`, when one of them stands alone and holds scalars only. */
  function LiteralType(s: Schema): Option<Type>
    requires s.Node?
  {
    if s.const_.Some? && s.enum_.None? then LiteralOf(s.const_.value)
    else if s.const_.None? && s.enum_.Some? && s.enum_.value != [] then Literals(s.enum_.value)
    else None
  }

  // ------------------------------------------------------ objects and arrays

  function ConvProps(ps: seq<Prop>, g: Given): (r: seq<Split>)
    ensures |r| == |ps|
    decreases ps, 0
  {
    if ps == [] then [] else ConvProps(ps[..|ps| - 1], g) + [Conv(ps[|ps| - 1].schema, g)]
  }

  function ConvList(ss: seq<Schema>, g: Given): (r: seq<Split>)
    ensures |r| == |ss|
    decreases ss, 0
  {
    if ss == [] then [] else ConvList(ss[..|ss| - 1], g) + [Conv(ss[|ss| - 1], g)]
  }

  function Required(o: ObjectRules): seq<string> {
    if o.required.Some? then o.required.value else []
  }

  function DeclaredMembers(ps: seq<Prop>, rs: seq<Split>, required: seq<string>): seq<Member>
    requires |ps| == |rs|
  {
    seq(|ps|, i requires 0 <= i < |ps| => Member(ps[i].name, ps[i].name !in required, rs[i].t))
  }

  function UndeclaredMembers(required: seq<string>, ps: seq<Prop>): seq<Member> {
    if required == [] then []
    else
      var init, last := UndeclaredMembers(required[..|required| - 1], ps), required[|required| - 1];
      if Named(ps, last) then init else init + [Member(last, false, Universal())]
  }

  function Members(o: ObjectRules, g: Given): seq<Member>
    decreases o, 0
  {
    var ps := List0(o.properties);
    (if o.properties.Props? then DeclaredMembers(o.properties.list, ConvProps(o.properties.list, g), Required(o)) else [])
    + UndeclaredMembers(Dedupe(Required(o)), ps)
  }

  /** Whether the type says all of additionalProperties. */
  predicate AdditionalCarried(o: ObjectRules) {
    match o.additional
    case NoSchema => true
    case Sub(s) => s == BoolSchema(true) || (s == BoolSchema(false) && o.patterns.NoProps?)
  }

  predicate Closed(o: ObjectRules) {
    o.additional == Sub(BoolSchema(false)) && o.patterns.NoProps?
  }

  function ObjectAlt(o: ObjectRules, g: Given): Alt
    decreases o, 1
  {
    var ms := Members(o, g);
    if Closed(o) then Shape(ms, true)
    else if ms == [] then AnyRecord
    else Shape(ms, false)
  }

  /** The residuals of the properties that have one; with `all`, every declared name. */
  function PropResiduals(ps: seq<Prop>, rs: seq<Split>, all: bool): seq<Prop>
    requires |ps| == |rs|
  {
    if ps == [] then []
    else
      var init, name, res := PropResiduals(ps[..|ps| - 1], rs[..|rs| - 1], all), ps[|ps| - 1].name, rs[|rs| - 1].res;
      if res.Sub? then init + [Prop(name, res.schema)]
      else if all then init + [Prop(name, BoolSchema(true))]
      else init
  }

  function ObjectResidual(o: ObjectRules, g: Given): ObjectRules
    decreases o, 1
  {
    var all := !AdditionalCarried(o);
    var ps := if o.properties.Props? then PropResiduals(o.properties.list, ConvProps(o.properties.list, g), all) else [];
    ObjectRules(if ps == [] then NoProps else Props(ps), None, if all then o.additional else NoSchema, o.patterns)
  }

  /** A tuple is carried when the schema fixes its length. */
  predicate FixedTuple(r: ArrayRules) {
    && r.prefixItems.List?
    && r.items == Sub(BoolSchema(false))
    && r.minItems == Some(|r.prefixItems.list| as real)
    && (r.maxItems.Some? ==> r.maxItems.value >= |r.prefixItems.list| as real)
  }

  function LengthTags(r: ArrayRules): seq<ArrTag> {
    (if r.minItems.Some? then [TagMinItems(r.minItems.value)] else [])
    + (if r.maxItems.Some? then [TagMaxItems(r.maxItems.value)] else [])
  }

  /** `unknown[]` is one alternative, however the element type that allows everything was written. */
  function EachElem(t: Type): Elem {
    if t == Universal() then AnyElem else Each(t)
  }

  function TypesOf(rs: seq<Split>): seq<Type> {
    seq(|rs|, i requires 0 <= i < |rs| => rs[i].t)
  }

  function ArrayAlt(r: ArrayRules, g: Given): Alt
    decreases r, 0
  {
    if r.prefixItems.List? then
      if FixedTuple(r) then ArrAlt(Fixed(TypesOf(ConvList(r.prefixItems.list, g))), []) else ArrAlt(AnyElem, [])
    else
      match r.items
      case NoSchema => ArrAlt(AnyElem, LengthTags(r))
      case Sub(s) =>
        if s == BoolSchema(true) then ArrAlt(AnyElem, LengthTags(r))
        else if s == BoolSchema(false) then ArrAlt(Fixed([]), LengthTags(r))
        else ArrAlt(EachElem(Conv(s, g).t), LengthTags(r))
  }

  function ListResiduals(rs: seq<Split>): seq<Schema> {
    seq(|rs|, i requires 0 <= i < |rs| => if rs[i].res.Sub? then rs[i].res.schema else BoolSchema(true))
  }

  predicate AnyResidual(rs: seq<Split>) {
    exists i :: 0 <= i < |rs| && rs[i].res.Sub?
  }

  function ArrayResidual(r: ArrayRules, g: Given): ArrayRules
    decreases r, 0
  {
    if r.prefixItems.List? then
      if FixedTuple(r) then
        var rs := ConvList(r.prefixItems.list, g);
        if AnyResidual(rs) then NO_ARRAY.(prefixItems := List(ListResiduals(rs))) else NO_ARRAY
      else r
    else
      match r.items
      case NoSchema => NO_ARRAY
      case Sub(s) => if s.BoolSchema? then NO_ARRAY else NO_ARRAY.(items := Conv(s, g).res)
  }

  // ------------------------------------------------------------ one node

  function KindAlt(t: TypeName, s: Schema, g: Given): Type
    requires s.Node?
    decreases s, 0
  {
    match t
    case TString => Single(KString, StrAlt(StringTags(s.str, g)))
    case TNumber => Single(KNumber, NumAlt(NumberTags(s.num, false)))
    case TInteger => Single(KNumber, NumAlt(NumberTags(s.num, true)))
    case TBoolean => Single(KBoolean, BoolAlt)
    case TNull => Single(KNull, NullAlt)
    case TObject => Single(KObject, ObjectAlt(s.obj, g))
    case TArray => Single(KArray, ArrayAlt(s.arr, g))
    case TUnknown(_) => Never()
  }

  function KindAlts(ts: seq<TypeName>, s: Schema, g: Given): Type
    requires s.Node?
    decreases s, 1, |ts|
  {
    if ts == [] then Never()
    else Union(KindAlts(ts[..|ts| - 1], s, g), KindAlt(ts[|ts| - 1], s, g))
  }

  function NodeRest(s: Schema): (r: Schema)
    requires s.Node?
    ensures r.Node? && r.allOf.NoList? && r.anyOf.NoList? && r.unevaluated == s.unevaluated && r.ref == s.ref
  {
    s.(allOf := NoList, anyOf := NoList)
  }

  /** The residual once the rules of the named kinds have been split. */
  function KindResidual(ts: seq<TypeName>, s: Schema, g: Given): (r: Schema)
    requires s.Node?
    ensures r.Node? && r.allOf.NoList? && r.anyOf.NoList? && r.unevaluated == s.unevaluated && r.ref == s.ref
    decreases s, 1
  {
    Node(None, s.enum_, s.const_,
         if TString in ts then StringResidual(s.str, g) else s.str,
         if TNumber in ts || TInteger in ts then NumberResidual(s.num) else s.num,
         if TObject in ts then ObjectResidual(s.obj, g) else s.obj,
         if TArray in ts then ArrayResidual(s.arr, g) else s.arr,
         NoList, NoList, s.other, s.unevaluated, s.ref)
  }

  predicate HasStringRule(r: StringRules, g: Given) {
    r.minLength.Some? || r.maxLength.Some? || r.pattern.Some?
    || (r.format.Some? && g.assertFormat && g.formatPattern(r.format.value).Some?)
  }

  predicate HasObjectRule(o: ObjectRules) {
    o.properties.Props? || o.required.Some? || o.additional.Sub?
  }

  predicate HasRule(s: Schema, g: Given)
    requires s.Node?
  {
    HasStringRule(s.str, g) || s.num != NO_NUMBER || HasObjectRule(s.obj) || s.arr != NO_ARRAY
  }

  /** The kinds with a rule of their own, as type names; the others keep their universal alternative. */
  function RuledKinds(s: Schema, g: Given): seq<TypeName>
    requires s.Node?
  {
    (if HasStringRule(s.str, g) then [TString] else [])
    + (if s.num != NO_NUMBER then [TNumber] else [])
    + (if HasObjectRule(s.obj) then [TObject] else [])
    + (if s.arr != NO_ARRAY then [TArray] else [])
  }

  function UntypedAlts(s: Schema, g: Given): Type
    requires s.Node?
    decreases s, 1
  {
    Type([if HasStringRule(s.str, g) then StrAlt(StringTags(s.str, g)) else UniversalAlt(KString)],
         [if s.num != NO_NUMBER then NumAlt(NumberTags(s.num, false)) else UniversalAlt(KNumber)],
         [BoolAlt], [NullAlt],
         [if HasObjectRule(s.obj) then ObjectAlt(s.obj, g) else UniversalAlt(KObject)],
         [if s.arr != NO_ARRAY then ArrayAlt(s.arr, g) else UniversalAlt(KArray)], [])
  }

  predicate KnownTypes(ts: seq<TypeName>) {
    ts != [] && forall i :: 0 <= i < |ts| ==> !ts[i].TUnknown?
  }

  /** The node's own type and residual, before allOf and anyOf. */
  function NodeOwn(s: Schema, g: Given): (r: (Type, Schema))
    requires s.Node?
    ensures r.1.Node? && r.1.allOf.NoList? && r.1.anyOf.NoList? && r.1.unevaluated == s.unevaluated && r.1.ref == s.ref
    decreases s, 2
  {
    if s.enum_.Some? || s.const_.Some? then
      var lit := LiteralType(s);
      if lit.Some? then (lit.value, NodeRest(s).(enum_ := None, const_ := None)) else (Universal(), NodeRest(s))
    else if s.types.Some? then
      if !KnownTypes(s.types.value) then (Universal(), NodeRest(s))
      else (KindAlts(s.types.value, s, g), KindResidual(s.types.value, s, g))
    else if HasRule(s, g) then (UntypedAlts(s, g), KindResidual(RuledKinds(s, g), s, g))
    else (Universal(), NodeRest(s))
  }

  function FoldAllOf(t: Type, bs: seq<Schema>, g: Given): Folded
    decreases bs, 0
  {
    if bs == [] then Folded(t, [])
    else
      var f, b := FoldAllOf(t, bs[..|bs| - 1], g), bs[|bs| - 1];
      var r := Conv(b, g);
      var m := Intersect(f.t, r.t);
      if m.None? then Folded(f.t, f.rest + [b])
      else Folded(m.value, if r.res.Sub? then f.rest + [r.res.schema] else f.rest)
  }

  /** The union of the branches' types; None as soon as a branch has a residual. */
  function FoldAnyOf(bs: seq<Schema>, g: Given): Option<Type>
    decreases bs, 0
  {
    if bs == [] then Some(Never())
    else
      var u := FoldAnyOf(bs[..|bs| - 1], g);
      if u.None? then None
      else
        var r := Conv(bs[|bs| - 1], g);
        if r.res.Sub? then None else Some(Union(u.value, r.t))
  }

  function FinishAllOf(t: Type, res: Schema, list: OptList, g: Given): (r: (Type, Schema))
    requires res.Node?
    ensures r.1.Node?
    decreases list, 1
  {
    match list
    case NoList => (t, res)
    case List(bs) =>
      if bs == [] then (t, res.(allOf := list))
      else
        var f := FoldAllOf(t, bs, g);
        (f.t, if f.rest == [] then res else res.(allOf := List(f.rest)))
  }

  function FinishAnyOf(t: Type, res: Schema, list: OptList, g: Given): (r: (Type, Schema))
    requires res.Node?
    ensures r.1.Node?
    decreases list, 1
  {
    match list
    case NoList => (t, res)
    case List(bs) =>
      if bs == [] then (t, res.(anyOf := list))
      else
        var u := FoldAnyOf(bs, g);
        var m := if u.Some? then Intersect(t, u.value) else None;
        if m.Some? then (m.value, res) else (t, res.(anyOf := list))
  }

  function AliasType(t: Target): Type { Never().(aliases := [t]) }

  /** A reference: its named type, and beside it the target's residual if it has one; siblings stay, unless the draft ignores them. */
  function ConvRef(s: Schema, t: Target, g: Given): Split
    requires s.Node?
  {
    Split(AliasType(t), AsResidual((if g.overrides then EMPTY_NODE else s).(ref := if t in g.kept then Some(RestOf(t)) else None)))
  }

  function Conv(s: Schema, g: Given): Split
    decreases s, 3
  {
    match s
    case BoolSchema(b) => Split(if b then Universal() else Never(), NoSchema)
    case Node(_, _, _, _, _, _, _, allOf, anyOf, _, unevaluated, ref) =>
      if s == EMPTY_NODE then Split(Universal(), NoSchema)
      else if unevaluated.Some? || (ref.Some? && ref.value.RestOf?) then Split(Universal(), Sub(s))
      else if ref.Some? then ConvRef(s, ref.value.t, g)
      else
        var own := NodeOwn(s, g);
        var withAll := FinishAllOf(own.0, own.1, allOf, g);
        var withAny := FinishAnyOf(withAll.0, withAll.1, anyOf, g);
        Split(withAny.0, AsResidual(withAny.1))
  }

  // ================================================================ exactness

  ghost predicate ResidualOk(res: OptSchema, v: Json, w: World) {
    res.Sub? ==> Accepts(res.schema, v, w)
  }

  /** A node that its own keywords decide. */
  predicate Own(s: Schema)
    requires s.Node?
  {
    s.unevaluated.None? && s.ref.None?
  }

  /** The value has the type and satisfies the residual. */
  ghost predicate InSplit(sp: Split, v: Json, w: World) {
    Inhabits(v, sp.t, w) && ResidualOk(sp.res, v, w)
  }

  /** A closed object declares every name it requires: a caller can check it on the schema. */
  predicate StrictDeclared(o: ObjectRules) {
    Closed(o) ==> forall i :: 0 <= i < |Required(o)| ==> Named(List0(o.properties), Required(o)[i])
  }

  ghost predicate PropsDeclared(ps: OptProps, w: World, g: Given)
    decreases ps, 0
  {
    ps.Props? ==> forall i :: 0 <= i < |ps.list| ==> Declared(ps.list[i].schema, w, g)
  }

  ghost predicate ListDeclared(ss: OptList, w: World, g: Given)
    decreases ss, 0
  {
    ss.List? ==> forall i :: 0 <= i < |ss.list| ==> Declared(ss.list[i], w, g)
  }

  /** A named type together with the residual kept beside it says no less than what the reference stands for. */
  ghost predicate RefExact(t: Target, w: World, g: Given) {
    forall v :: w.aliasOk(t, v) && (t in g.kept ==> w.refOk(RestOf(t), v)) ==> w.refOk(Whole(t), v)
  }

  /** StrictDeclared at every node the conversion can reach, and exact references. */
  ghost predicate Declared(s: Schema, w: World, g: Given)
    decreases s, 1
  {
    s.Node? ==>
      if s.ref.Some? then s.ref.value.Whole? && RefExact(s.ref.value.t, w, g)
      else
        && StrictDeclared(s.obj)
        && PropsDeclared(s.obj.properties, w, g)
        && (s.arr.items.Sub? ==> Declared(s.arr.items.schema, w, g))
        && ListDeclared(s.arr.prefixItems, w, g)
        && ListDeclared(s.allOf, w, g)
        && ListDeclared(s.anyOf, w, g)
  }

  // ------------------------------------------------ strings, numbers, literals

  lemma StrTagExact(tags: seq<StrTag>, x: string, w: World)
    requires |tags| <= 1
    ensures InAlt(Str(x), StrAlt(tags), w) <==> (|tags| == 1 ==> StrTagOk(tags[0], x, w))
  {
  }

  lemma NumTagExact(tags: seq<NumTag>, n: real, w: World)
    requires |tags| <= 1
    ensures InAlt(Num(n), NumAlt(tags), w) <==> (|tags| == 1 ==> NumTagOk(tags[0], n))
  {
  }

  lemma StringExact(r: StringRules, x: string, w: World, g: Given)
    requires WorldOk(w, g)
    ensures StringOk(r, x, w) <==> InAlt(Str(x), StrAlt(StringTags(r, g)), w) && StringOk(StringResidual(r, g), x, w)
  {
    var f, p := PatternTag(CarriedFormat(r.format, g), g), PatternTag(r.pattern, g);
    var lo := if r.minLength.Some? then [TagMinLength(r.minLength.value)] else [];
    var hi := if r.maxLength.Some? then [TagMaxLength(r.maxLength.value)] else [];
    assert StringTags(r, g) == f + lo + hi + p;
    TagsConcat(f, lo, Str(x), w);
    TagsConcat(f + lo, hi, Str(x), w);
    TagsConcat(f + lo + hi, p, Str(x), w);
    StrTagExact(f, x, w);
    StrTagExact(lo, x, w);
    StrTagExact(hi, x, w);
    StrTagExact(p, x, w);
  }

  lemma NumTagsOfSix(a: seq<NumTag>, b: seq<NumTag>, c: seq<NumTag>, d: seq<NumTag>, e: seq<NumTag>, f: seq<NumTag>, v: Json, w: World)
    ensures InAlt(v, NumAlt(a + b + c + d + e + f), w) <==>
            && InAlt(v, NumAlt(a), w) && InAlt(v, NumAlt(b), w) && InAlt(v, NumAlt(c), w)
            && InAlt(v, NumAlt(d), w) && InAlt(v, NumAlt(e), w) && InAlt(v, NumAlt(f), w)
  {
    NumTagsConcat(a, b, v, w);
    NumTagsConcat(a + b, c, v, w);
    NumTagsConcat(a + b + c, d, v, w);
    NumTagsConcat(a + b + c + d, e, v, w);
    NumTagsConcat(a + b + c + d + e, f, v, w);
  }

  lemma NumberExact(r: NumberRules, integer: bool, n: real, w: World)
    ensures NumberOk(r, n) && (integer ==> IsInteger(n))
        <==> InAlt(Num(n), NumAlt(NumberTags(r, integer)), w) && NumberOk(NumberResidual(r), n)
  {
    var a := if integer then [TagInt] else [];
    var b := if r.minimum.Some? then [TagMin(r.minimum.value)] else [];
    var c := if r.maximum.Some? then [TagMax(r.maximum.value)] else [];
    var d := if r.exclusiveMinimum.Some? then [TagAbove(r.exclusiveMinimum.value)] else [];
    var e := if r.exclusiveMaximum.Some? then [TagBelow(r.exclusiveMaximum.value)] else [];
    var f := if WholeMultiple(r.multipleOf) then [TagMultipleOf(r.multipleOf.value)] else [];
    NumTagsOfSix(a, b, c, d, e, f, Num(n), w);
    NumTagExact(a, n, w);
    NumTagExact(b, n, w);
    NumTagExact(c, n, w);
    NumTagExact(d, n, w);
    NumTagExact(e, n, w);
    NumTagExact(f, n, w);
  }

  lemma SingleExact(k: Kind, alt: Alt, v: Json, w: World)
    requires AltOfKind(alt, k)
    ensures TypeOk(Single(k, alt))
    ensures Inhabits(v, Single(k, alt), w) <==> KindOf(v) == k && InAlt(v, alt, w)
  {
    var alts := At(Single(k, alt), KindOf(v));
    assert KindOf(v) == k ==> alts[0] == alt;
  }

  lemma LiteralExact(x: Json, v: Json, w: World)
    requires LiteralOf(x).Some?
    ensures TypeOk(LiteralOf(x).value)
    ensures Inhabits(v, LiteralOf(x).value, w) <==> v == x
  {
    var alt := if x.Null? then NullAlt else Lit(x);
    SingleExact(KindOf(x), alt, v, w);
  }

  lemma {:induction false} LiteralsExact(vs: seq<Json>, v: Json, w: World)
    requires Literals(vs).Some?
    ensures TypeOk(Literals(vs).value)
    ensures Inhabits(v, Literals(vs).value, w) <==> v in vs
    decreases |vs|
  {
    if vs != [] {
      var init, last := vs[..|vs| - 1], vs[|vs| - 1];
      assert vs == init + [last];
      LiteralsExact(init, v, w);
      LiteralExact(last, v, w);
      UnionExact(Literals(init).value, LiteralOf(last).value, v, w);
    }
  }

  // ------------------------------------------------------------ object shapes

  /** One direction for every schema, the other for those that declare what a closed object requires. */
  ghost predicate Exact(declared: bool, accepts: bool, split: bool) {
    (accepts ==> split) && (declared && split ==> accepts)
  }

  lemma {:induction false} ConvPropsAt(ps: seq<Prop>, i: nat, g: Given)
    requires i < |ps|
    ensures ConvProps(ps, g)[i] == Conv(ps[i].schema, g)
    decreases |ps|
  {
    if i < |ps| - 1 { ConvPropsAt(ps[..|ps| - 1], i, g); }
  }

  lemma {:induction false} ConvListAt(ss: seq<Schema>, i: nat, g: Given)
    requires i < |ss|
    ensures ConvList(ss, g)[i] == Conv(ss[i], g)
    decreases |ss|
  {
    if i < |ss| - 1 { ConvListAt(ss[..|ss| - 1], i, g); }
  }

  ghost predicate MemberHolds(mb: Member, m: map<string, Json>, w: World) {
    if mb.name in m then Inhabits(m[mb.name], mb.t, w) else mb.optional
  }

  ghost predicate MembersHold(ms: seq<Member>, m: map<string, Json>, w: World) {
    forall i :: 0 <= i < |ms| ==> MemberHolds(ms[i], m, w)
  }

  predicate MemberNamed(ms: seq<Member>, k: string) {
    exists i :: 0 <= i < |ms| && ms[i].name == k
  }

  lemma ShapeMeans(ms: seq<Member>, strict: bool, m: map<string, Json>, w: World)
    ensures InAlt(Obj(m), Shape(ms, strict), w) <==> MembersHold(ms, m, w) && (strict ==> forall k :: k in m ==> MemberNamed(ms, k))
  {
    var v := Obj(m);
    assert v.m == m;
    assert MembersHold(ms, m, w) <==> forall i :: 0 <= i < |ms| ==> if ms[i].name in v.m then Inhabits(v.m[ms[i].name], ms[i].t, w) else ms[i].optional;
  }

  lemma MembersConcat(xs: seq<Member>, ys: seq<Member>, m: map<string, Json>, k: string, w: World)
    ensures MembersHold(xs + ys, m, w) <==> MembersHold(xs, m, w) && MembersHold(ys, m, w)
    ensures MemberNamed(xs + ys, k) <==> MemberNamed(xs, k) || MemberNamed(ys, k)
  {
    var zs := xs + ys;
    assert forall i :: 0 <= i < |xs| ==> zs[i] == xs[i];
    assert forall i :: 0 <= i < |ys| ==> zs[|xs| + i] == ys[i];
  }

  lemma {:induction false} UndeclaredHold(required: seq<string>, ps: seq<Prop>, m: map<string, Json>, k: string, w: World)
    ensures MembersHold(UndeclaredMembers(required, ps), m, w) <==> forall i :: 0 <= i < |required| ==> Named(ps, required[i]) || required[i] in m
    ensures MemberNamed(UndeclaredMembers(required, ps), k) <==> k in required && !Named(ps, k)
    decreases |required|
  {
    if required != [] {
      var init, last := required[..|required| - 1], required[|required| - 1];
      assert required == init + [last];
      UndeclaredHold(init, ps, m, k, w);
      var mb := Member(last, false, Universal());
      MembersConcat(UndeclaredMembers(init, ps), [mb], m, k, w);
      assert [mb][0] == mb;
      assert MembersHold([mb], m, w) <==> MemberHolds(mb, m, w);
      if last in m { UniversalHolds(m[last], w); }
    }
  }

  ghost predicate TypesHold(ps: seq<Prop>, rs: seq<Split>, m: map<string, Json>, w: World)
    requires |ps| == |rs|
  {
    forall i :: 0 <= i < |ps| && ps[i].name in m ==> Inhabits(m[ps[i].name], rs[i].t, w)
  }

  ghost predicate ResidualsHold(ps: seq<Prop>, rs: seq<Split>, m: map<string, Json>, w: World)
    requires |ps| == |rs|
  {
    forall i :: 0 <= i < |ps| && ps[i].name in m ==> ResidualOk(rs[i].res, m[ps[i].name], w)
  }

  ghost predicate PropsOk(ps: seq<Prop>, m: map<string, Json>, w: World) {
    forall i :: 0 <= i < |ps| && ps[i].name in m ==> Accepts(ps[i].schema, m[ps[i].name], w)
  }

  predicate HasAll(required: seq<string>, m: map<string, Json>) {
    forall i :: 0 <= i < |required| ==> required[i] in m
  }

  lemma DeclaredHold(ps: seq<Prop>, rs: seq<Split>, required: seq<string>, m: map<string, Json>, k: string, w: World)
    requires |ps| == |rs|
    ensures MembersHold(DeclaredMembers(ps, rs, required), m, w) <==>
            TypesHold(ps, rs, m, w) && forall i :: 0 <= i < |ps| && ps[i].name in required ==> ps[i].name in m
    ensures MemberNamed(DeclaredMembers(ps, rs, required), k) <==> Named(ps, k)
  {
    var ms := DeclaredMembers(ps, rs, required);
    assert forall i :: 0 <= i < |ps| ==> ms[i] == Member(ps[i].name, ps[i].name !in required, rs[i].t);
    assert MembersHold(ms, m, w) <==> forall i :: 0 <= i < |ps| ==> MemberHolds(ms[i], m, w);
  }

  /** The members of an object type: each declared property in its type when present, every required name present. */
  lemma MembersMean(o: ObjectRules, m: map<string, Json>, k: string, w: World, g: Given)
    ensures var ps, rs := List0(o.properties), ConvProps(List0(o.properties), g);
            && (MembersHold(Members(o, g), m, w) <==> TypesHold(ps, rs, m, w) && HasAll(Required(o), m))
            && (MemberNamed(Members(o, g), k) <==> Named(ps, k) || (k in Required(o)))
  {
    var ps, rs := List0(o.properties), ConvProps(List0(o.properties), g);
    var req := Required(o);
    var us := UndeclaredMembers(Dedupe(req), ps);
    var ds := DeclaredMembers(ps, rs, req);
    assert Members(o, g) == ds + us;
    DeclaredHold(ps, rs, req, m, k, w);
    UndeclaredHold(Dedupe(req), ps, m, k, w);
    MembersConcat(ds, us, m, k, w);
    var dd := Dedupe(req);
    assert (forall i :: 0 <= i < |dd| ==> Named(ps, dd[i]) || dd[i] in m) <==> (forall x :: x in dd ==> Named(ps, x) || x in m);
    assert (forall x :: x in req ==> x in m) <==> HasAll(req, m);
    if MembersHold(Members(o, g), m, w) {
      forall x | x in req ensures x in m {
        if Named(ps, x) {
          var i :| 0 <= i < |ps| && ps[i].name == x;
          assert ps[i].name in req;
        }
      }
    }
  }

  lemma {:induction false} PropResidualsMean(ps: seq<Prop>, rs: seq<Split>, all: bool, m: map<string, Json>, k: string, w: World)
    requires |ps| == |rs|
    ensures PropsOk(PropResiduals(ps, rs, all), m, w) <==> ResidualsHold(ps, rs, m, w)
    ensures all ==> (Named(PropResiduals(ps, rs, all), k) <==> Named(ps, k))
    decreases |ps|
  {
    if ps != [] {
      var ps', rs', p, r := ps[..|ps| - 1], rs[..|rs| - 1], ps[|ps| - 1], rs[|rs| - 1];
      PropResidualsMean(ps', rs', all, m, k, w);
      assert ps == ps' + [p] && rs == rs' + [r];
      assert ResidualsHold(ps, rs, m, w) <==> ResidualsHold(ps', rs', m, w) && (p.name in m ==> ResidualOk(r.res, m[p.name], w)) by {
        assert forall i :: 0 <= i < |ps'| ==> ps[i] == ps'[i] && rs[i] == rs'[i];
      }
      assert Named(ps, k) <==> Named(ps', k) || p.name == k by {
        assert forall i :: 0 <= i < |ps'| ==> ps[i] == ps'[i];
        assert ps[|ps'|] == p;
      }
      var q := if r.res.Sub? then Prop(p.name, r.res.schema) else Prop(p.name, BoolSchema(true));
      var init := PropResiduals(ps', rs', all);
      PropsSnoc(init, q, m, k, w);
    }
  }

  lemma PropsSnoc(ps: seq<Prop>, q: Prop, m: map<string, Json>, k: string, w: World)
    ensures PropsOk(ps + [q], m, w) <==> PropsOk(ps, m, w) && (q.name in m ==> Accepts(q.schema, m[q.name], w))
    ensures Named(ps + [q], k) <==> Named(ps, k) || q.name == k
  {
    var zs := ps + [q];
    assert forall i :: 0 <= i < |ps| ==> zs[i] == ps[i];
    assert zs[|ps|] == q;
  }

  ghost predicate PatternsOk(o: ObjectRules, m: map<string, Json>, w: World) {
    o.patterns.Props? ==> forall i, k :: 0 <= i < |o.patterns.list| && k in m && w.unicodeMatch(o.patterns.list[i].name, k) ==>
      Accepts(o.patterns.list[i].schema, m[k], w)
  }

  ghost predicate AdditionalOk(o: ObjectRules, m: map<string, Json>, w: World) {
    o.additional.Sub? ==> forall k :: k in m && Additional(o, k, w) ==> Accepts(o.additional.schema, m[k], w)
  }

  lemma ObjectMeans(o: ObjectRules, m: map<string, Json>, w: World)
    ensures ObjectOk(o, m, w) <==>
            PropsOk(List0(o.properties), m, w) && HasAll(Required(o), m) && PatternsOk(o, m, w) && AdditionalOk(o, m, w)
  {
  }

  /** What the residual's additionalProperties still has to say, and what strictness says. */
  lemma AdditionalSplit(o: ObjectRules, m: map<string, Json>, w: World, g: Given)
    ensures var closed := Closed(o) ==> forall k :: k in m ==> MemberNamed(Members(o, g), k);
            Exact(StrictDeclared(o), AdditionalOk(o, m, w), closed && AdditionalOk(ObjectResidual(o, g), m, w))
  {
    var ps, rs, all := List0(o.properties), ConvProps(List0(o.properties), g), !AdditionalCarried(o);
    var res := ObjectResidual(o, g);
    assert List0(res.properties) == PropResiduals(ps, rs, all);
    forall k | k in m
      ensures all ==> (Additional(res, k, w) <==> Additional(o, k, w))
      ensures MemberNamed(Members(o, g), k) <==> Named(ps, k) || (k in Required(o))
    {
      PropResidualsMean(ps, rs, all, m, k, w);
      MembersMean(o, m, k, w, g);
    }
    if Closed(o) {
      assert forall k :: Additional(o, k, w) <==> !Named(ps, k);
      assert StrictDeclared(o) ==> forall k :: k in Required(o) ==> Named(ps, k);
      assert AdditionalOk(o, m, w) <==> forall k :: k in m ==> Named(ps, k) by {
        assert forall k :: k in m && Additional(o, k, w) ==> !Accepts(o.additional.schema, m[k], w);
      }
    } else if !all {
      assert AdditionalOk(o, m, w);
    }
  }

  lemma ObjectExact(o: ObjectRules, m: map<string, Json>, w: World, g: Given)
    requires WorldOk(w, g)
    ensures AltOfKind(ObjectAlt(o, g), KObject)
    ensures Exact(StrictDeclared(o) && PropsDeclared(o.properties, w, g), ObjectOk(o, m, w),
                  InAlt(Obj(m), ObjectAlt(o, g), w) && ObjectOk(ObjectResidual(o, g), m, w))
    decreases o, 1
  {
    var ps, rs, all := List0(o.properties), ConvProps(List0(o.properties), g), !AdditionalCarried(o);
    var res := ObjectResidual(o, g);
    assert List0(res.properties) == PropResiduals(ps, rs, all);
    PropsExact(o, m, w, g);
    PropResidualsMean(ps, rs, all, m, "", w);
    ShapeMeans(Members(o, g), Closed(o), m, w);
    MembersMean(o, m, "", w, g);
    AdditionalSplit(o, m, w, g);
    ObjectMeans(o, m, w);
    ObjectMeans(res, m, w);
    assert PatternsOk(res, m, w) <==> PatternsOk(o, m, w);
    assert InAlt(Obj(m), ObjectAlt(o, g), w) <==> InAlt(Obj(m), Shape(Members(o, g), Closed(o)), w);
  }

  lemma PropsExact(o: ObjectRules, m: map<string, Json>, w: World, g: Given)
    requires WorldOk(w, g)
    ensures var ps, rs := List0(o.properties), ConvProps(List0(o.properties), g);
            Exact(PropsDeclared(o.properties, w, g), PropsOk(ps, m, w), TypesHold(ps, rs, m, w) && ResidualsHold(ps, rs, m, w))
    decreases o, 0
  {
    var ps, rs := List0(o.properties), ConvProps(List0(o.properties), g);
    forall i | 0 <= i < |ps| && ps[i].name in m
      ensures Exact(Declared(ps[i].schema, w, g), Accepts(ps[i].schema, m[ps[i].name], w), InSplit(rs[i], m[ps[i].name], w))
    {
      ConvPropsAt(ps, i, g);
      ConvExact(ps[i].schema, m[ps[i].name], w, g);
    }
  }

  // ------------------------------------------------------------ arrays

  lemma ListExact(ss: OptList, i: nat, v: Json, w: World, g: Given)
    requires WorldOk(w, g) && ss.List? && i < |ss.list|
    ensures Exact(ListDeclared(ss, w, g), Accepts(ss.list[i], v, w), InSplit(ConvList(ss.list, g)[i], v, w))
    ensures TypeOk(ConvList(ss.list, g)[i].t)
    decreases ss, 0
  {
    ConvListAt(ss.list, i, g);
    ConvExact(ss.list[i], v, w, g);
  }

  lemma LengthExact(r: ArrayRules, e: Elem, a: seq<Json>, w: World)
    ensures InAlt(Arr(a), ArrAlt(e, LengthTags(r)), w) <==>
            && InElem(e, a, w)
            && (r.minItems.Some? ==> |a| as real >= r.minItems.value) && (r.maxItems.Some? ==> |a| as real <= r.maxItems.value)
  {
    var tags := LengthTags(r);
    assert r.minItems.Some? ==> tags[0] == TagMinItems(r.minItems.value);
    assert r.maxItems.Some? ==> tags[|tags| - 1] == TagMaxItems(r.maxItems.value);
  }

  lemma ArrayExact(r: ArrayRules, a: seq<Json>, w: World, g: Given)
    requires WorldOk(w, g)
    ensures AltOfKind(ArrayAlt(r, g), KArray)
    ensures Exact((r.items.Sub? ==> Declared(r.items.schema, w, g)) && ListDeclared(r.prefixItems, w, g), ArrayOk(r, a, w),
                  InAlt(Arr(a), ArrayAlt(r, g), w) && ArrayOk(ArrayResidual(r, g), a, w))
    decreases r, 1
  {
    if r.prefixItems.List? {
      if FixedTuple(r) { TupleExact(r, a, w, g); }
    } else {
      match r.items
      case NoSchema => LengthExact(r, AnyElem, a, w);
      case Sub(s) =>
        if s == BoolSchema(true) {
          LengthExact(r, AnyElem, a, w);
        } else if s == BoolSchema(false) {
          LengthExact(r, Fixed([]), a, w);
          if |a| > 0 { assert !Accepts(s, a[0], w); }
        } else {
          ItemsExact(r, a, w, g);
        }
    }
  }

  lemma ItemsExact(r: ArrayRules, a: seq<Json>, w: World, g: Given)
    requires WorldOk(w, g) && r.prefixItems.NoList? && r.items.Sub? && !r.items.schema.BoolSchema?
    ensures Exact(Declared(r.items.schema, w, g), ArrayOk(r, a, w),
                  InAlt(Arr(a), ArrayAlt(r, g), w) && ArrayOk(ArrayResidual(r, g), a, w))
    decreases r, 0
  {
    var s := r.items.schema;
    var c := Conv(s, g);
    LengthExact(r, EachElem(c.t), a, w);
    forall i | 0 <= i < |a|
      ensures Exact(Declared(s, w, g), Accepts(s, a[i], w), InSplit(c, a[i], w))
    {
      ConvExact(s, a[i], w, g);
    }
    if c.t == Universal() {
      forall i | 0 <= i < |a| ensures Inhabits(a[i], c.t, w) { UniversalHolds(a[i], w); }
    }
    assert InElem(EachElem(c.t), a, w) <==> forall i :: 0 <= i < |a| ==> Inhabits(a[i], c.t, w);
    assert ArrayOk(ArrayResidual(r, g), a, w) <==> forall i :: 0 <= i < |a| ==> ResidualOk(c.res, a[i], w);
  }

  lemma TupleExact(r: ArrayRules, a: seq<Json>, w: World, g: Given)
    requires WorldOk(w, g) && FixedTuple(r)
    ensures Exact(ListDeclared(r.prefixItems, w, g), ArrayOk(r, a, w),
                  InAlt(Arr(a), ArrayAlt(r, g), w) && ArrayOk(ArrayResidual(r, g), a, w))
    decreases r, 0
  {
    TupleSchema(r, a, w);
    TupleType(r, a, w, g);
    if |a| == |r.prefixItems.list| {
      TupleResidual(r, a, w, g);
      forall i | 0 <= i < |a|
        ensures Exact(ListDeclared(r.prefixItems, w, g), Accepts(r.prefixItems.list[i], a[i], w), InSplit(ConvList(r.prefixItems.list, g)[i], a[i], w))
      {
        ListExact(r.prefixItems, i, a[i], w, g);
      }
    }
  }

  lemma TupleSchema(r: ArrayRules, a: seq<Json>, w: World)
    requires FixedTuple(r)
    ensures var ss := r.prefixItems.list;
            ArrayOk(r, a, w) <==> |a| == |ss| && forall i :: 0 <= i < |ss| ==> Accepts(ss[i], a[i], w)
  {
    var n := |r.prefixItems.list|;
    if |a| > n { assert !Accepts(r.items.schema, a[n], w); }
  }

  lemma TupleType(r: ArrayRules, a: seq<Json>, w: World, g: Given)
    requires FixedTuple(r)
    ensures var rs := ConvList(r.prefixItems.list, g);
            InAlt(Arr(a), ArrayAlt(r, g), w) <==> |a| == |rs| && forall i :: 0 <= i < |rs| ==> Inhabits(a[i], rs[i].t, w)
  {
    var rs := ConvList(r.prefixItems.list, g);
    var ts := TypesOf(rs);
    assert forall i :: 0 <= i < |rs| ==> ts[i] == rs[i].t;
    assert InElem(Fixed(ts), a, w) <==> |a| == |ts| && forall i :: 0 <= i < |ts| ==> Inhabits(a[i], ts[i], w);
  }

  lemma TupleResidual(r: ArrayRules, a: seq<Json>, w: World, g: Given)
    requires FixedTuple(r) && |a| == |r.prefixItems.list|
    ensures var rs := ConvList(r.prefixItems.list, g);
            ArrayOk(ArrayResidual(r, g), a, w) <==> forall i :: 0 <= i < |rs| ==> ResidualOk(rs[i].res, a[i], w)
  {
    var rs := ConvList(r.prefixItems.list, g);
    var ls := ListResiduals(rs);
    assert forall i :: 0 <= i < |rs| ==> (Accepts(ls[i], a[i], w) <==> ResidualOk(rs[i].res, a[i], w));
    if AnyResidual(rs) {
      var res := ArrayResidual(r, g);
      assert res.prefixItems.list == ls;
      assert ArrayOk(res, a, w) <==> forall i :: 0 <= i < |ls| && i < |a| ==> Accepts(ls[i], a[i], w);
    }
  }

  // ------------------------------------------------------------ one node

  /** Declared, for the parts of a node below its own kind rules. */
  ghost predicate RulesDeclared(s: Schema, w: World, g: Given)
    requires s.Node?
  {
    && StrictDeclared(s.obj) && PropsDeclared(s.obj.properties, w, g)
    && (s.arr.items.Sub? ==> Declared(s.arr.items.schema, w, g)) && ListDeclared(s.arr.prefixItems, w, g)
  }

  /** One named type against one value: the type's alternative and the split rules of the value's kind. */
  lemma KindExact(ts: seq<TypeName>, t: TypeName, s: Schema, v: Json, w: World, g: Given)
    requires WorldOk(w, g) && s.Node? && t in ts
    ensures TypeOk(KindAlt(t, s, g))
    ensures Exact(RulesDeclared(s, w, g), OfType(t, v) && KindRulesOk(s, v, w),
                  Inhabits(v, KindAlt(t, s, g), w) && KindRulesOk(KindResidual(ts, s, g), v, w))
    decreases s, 1
  {
    hide StringOk, NumberOk, ObjectOk, ArrayOk, ObjectAlt, ArrayAlt, ObjectResidual, ArrayResidual, StringTags, StringResidual, NumberTags, NumberResidual, Inhabits;
    match t
    case TString =>
      SingleExact(KString, StrAlt(StringTags(s.str, g)), v, w);
      if v.Str? { StringExact(s.str, v.s, w, g); }
    case TNumber =>
      SingleExact(KNumber, NumAlt(NumberTags(s.num, false)), v, w);
      if v.Num? { NumberExact(s.num, false, v.n, w); }
    case TInteger =>
      SingleExact(KNumber, NumAlt(NumberTags(s.num, true)), v, w);
      if v.Num? { NumberExact(s.num, true, v.n, w); }
    case TBoolean => SingleExact(KBoolean, BoolAlt, v, w);
    case TNull => SingleExact(KNull, NullAlt, v, w);
    case TObject =>
      ObjectExact(s.obj, if v.Obj? then v.m else map[], w, g);
      SingleExact(KObject, ObjectAlt(s.obj, g), v, w);
    case TArray =>
      ArrayExact(s.arr, if v.Arr? then v.a else [], w, g);
      SingleExact(KArray, ArrayAlt(s.arr, g), v, w);
    case TUnknown(_) => NeverHolds(v, w);
  }

  ghost predicate InSomeKind(ts: seq<TypeName>, s: Schema, v: Json, w: World, g: Given)
    requires s.Node?
  {
    exists i :: 0 <= i < |ts| && Inhabits(v, KindAlt(ts[i], s, g), w)
  }

  lemma InSomeKindSnoc(ts: seq<TypeName>, t: TypeName, s: Schema, v: Json, w: World, g: Given)
    requires s.Node?
    ensures InSomeKind(ts + [t], s, v, w, g) <==> InSomeKind(ts, s, v, w, g) || Inhabits(v, KindAlt(t, s, g), w)
  {
    var us := ts + [t];
    if InSomeKind(ts, s, v, w, g) {
      var i :| 0 <= i < |ts| && Inhabits(v, KindAlt(ts[i], s, g), w);
      assert us[i] == ts[i];
    }
    assert us[|ts|] == t;
  }

  lemma {:induction false} KindAltsMean(ts: seq<TypeName>, s: Schema, v: Json, w: World, g: Given)
    requires s.Node? && forall t :: t in ts ==> TypeOk(KindAlt(t, s, g))
    ensures TypeOk(KindAlts(ts, s, g))
    ensures Inhabits(v, KindAlts(ts, s, g), w) <==> InSomeKind(ts, s, v, w, g)
    decreases |ts|
  {
    if ts == [] {
      assert KindAlts(ts, s, g) == Never();
    } else {
      var init, last := ts[..|ts| - 1], ts[|ts| - 1];
      assert ts == init + [last];
      KindAltsMean(init, s, v, w, g);
      UnionExact(KindAlts(init, s, g), KindAlt(last, s, g), v, w);
      InSomeKindSnoc(init, last, s, v, w, g);
    }
  }

  lemma TypedExact(ts: seq<TypeName>, s: Schema, v: Json, w: World, g: Given)
    requires WorldOk(w, g) && s.Node?
    ensures TypeOk(KindAlts(ts, s, g))
    ensures Exact(RulesDeclared(s, w, g), (exists i :: 0 <= i < |ts| && OfType(ts[i], v)) && KindRulesOk(s, v, w),
                  Inhabits(v, KindAlts(ts, s, g), w) && KindRulesOk(KindResidual(ts, s, g), v, w))
    decreases s, 2, 0
  {
    hide KindAlt, KindAlts, KindResidual, KindRulesOk, Inhabits, TypeOk, RulesDeclared, OfType;
    forall i | 0 <= i < |ts|
      ensures TypeOk(KindAlt(ts[i], s, g))
      ensures Exact(RulesDeclared(s, w, g), OfType(ts[i], v) && KindRulesOk(s, v, w),
                    Inhabits(v, KindAlt(ts[i], s, g), w) && KindRulesOk(KindResidual(ts, s, g), v, w))
    {
      KindExact(ts, ts[i], s, v, w, g);
    }
    assert forall t :: t in ts ==> TypeOk(KindAlt(t, s, g));
    KindAltsMean(ts, s, v, w, g);
  }

  lemma UntypedOfKind(s: Schema, v: Json, w: World, g: Given)
    requires WorldOk(w, g) && s.Node?
    ensures var alts := At(UntypedAlts(s, g), KindOf(v)); |alts| == 1 && AltOfKind(alts[0], KindOf(v))
    ensures Inhabits(v, UntypedAlts(s, g), w) <==> InAlt(v, At(UntypedAlts(s, g), KindOf(v))[0], w)
  {
  }

  lemma UntypedExact(s: Schema, v: Json, w: World, g: Given)
    requires WorldOk(w, g) && s.Node?
    ensures TypeOk(UntypedAlts(s, g))
    ensures Exact(RulesDeclared(s, w, g), KindRulesOk(s, v, w),
                  Inhabits(v, UntypedAlts(s, g), w) && KindRulesOk(KindResidual(RuledKinds(s, g), s, g), v, w))
    decreases s, 2, 0
  {
    forall k ensures AllOfKind(At(UntypedAlts(s, g), k), k) {
      UntypedOfKind(s, SampleOf(k), w, g);
    }
    UntypedOfKind(s, v, w, g);
    UntypedRules(s, v, w, g);
  }

  lemma UntypedRules(s: Schema, v: Json, w: World, g: Given)
    requires WorldOk(w, g) && s.Node?
    ensures Exact(RulesDeclared(s, w, g), KindRulesOk(s, v, w),
                  InAlt(v, At(UntypedAlts(s, g), KindOf(v))[0], w) && KindRulesOk(KindResidual(RuledKinds(s, g), s, g), v, w))
    decreases s, 1
  {
    RuledParts(s, w, g);
    match v
    case Str(x) => UntypedString(s, x, w, g);
    case Num(n) => UntypedNumber(s, n, w, g);
    case Obj(m) => ObjectExact(s.obj, m, w, g); UntypedObject(s, m, w, g);
    case Arr(a) => ArrayExact(s.arr, a, w, g); UntypedArray(s, a, w, g);
    case _ =>
  }

  lemma UntypedString(s: Schema, x: string, w: World, g: Given)
    requires WorldOk(w, g) && s.Node?
    ensures StringOk(s.str, x, w) <==>
            && InAlt(Str(x), At(UntypedAlts(s, g), KString)[0], w)
            && StringOk(if HasStringRule(s.str, g) then StringResidual(s.str, g) else s.str, x, w)
  {
    StringExact(s.str, x, w, g);
  }

  lemma UntypedNumber(s: Schema, n: real, w: World, g: Given)
    requires s.Node?
    ensures NumberOk(s.num, n) <==>
            && InAlt(Num(n), At(UntypedAlts(s, g), KNumber)[0], w)
            && NumberOk(if s.num != NO_NUMBER then NumberResidual(s.num) else s.num, n)
  {
    NumberExact(s.num, false, n, w);
  }

  lemma UntypedObject(s: Schema, m: map<string, Json>, w: World, g: Given)
    requires s.Node?
    ensures InAlt(Obj(m), At(UntypedAlts(s, g), KObject)[0], w) <==> (HasObjectRule(s.obj) ==> InAlt(Obj(m), ObjectAlt(s.obj, g), w))
  {
  }

  lemma UntypedArray(s: Schema, a: seq<Json>, w: World, g: Given)
    requires s.Node?
    ensures InAlt(Arr(a), At(UntypedAlts(s, g), KArray)[0], w) <==> (s.arr != NO_ARRAY ==> InAlt(Arr(a), ArrayAlt(s.arr, g), w))
  {
  }

  lemma RuledParts(s: Schema, w: World, g: Given)
    requires s.Node?
    ensures var r := KindResidual(RuledKinds(s, g), s, g);
            && r.str == (if HasStringRule(s.str, g) then StringResidual(s.str, g) else s.str)
            && r.num == (if s.num != NO_NUMBER then NumberResidual(s.num) else s.num)
            && r.obj == (if HasObjectRule(s.obj) then ObjectResidual(s.obj, g) else s.obj)
            && r.arr == (if s.arr != NO_ARRAY then ArrayResidual(s.arr, g) else s.arr)
  {
    var ks := RuledKinds(s, g);
    assert TString in ks <==> HasStringRule(s.str, g);
    assert TNumber in ks <==> s.num != NO_NUMBER;
    assert TInteger !in ks;
    assert TObject in ks <==> HasObjectRule(s.obj);
    assert TArray in ks <==> s.arr != NO_ARRAY;
  }

  lemma NodeOwnExact(s: Schema, v: Json, w: World, g: Given)
    requires WorldOk(w, g) && s.Node? && Own(s)
    ensures TypeOk(NodeOwn(s, g).0)
    ensures Exact(RulesDeclared(s, w, g), ScalarKeywordsOk(s, v, w) && KindRulesOk(s, v, w),
                  Inhabits(v, NodeOwn(s, g).0, w) && Accepts(NodeOwn(s, g).1, v, w))
    decreases s, 2, 2
  {
    hide KindAlts, KindResidual, UntypedAlts, RuledKinds, Inhabits, Accepts, TypeOk, Universal, KindRulesOk, LiteralType, RulesDeclared, ScalarKeywordsOk;
    UniversalHolds(v, w);
    ConstantTypes();
    NodeMeans(NodeOwn(s, g).1, v, w);
    EmptyLists(v, w);
    if s.enum_.Some? || s.const_.Some? {
      LiteralOwn(s, v, w, g);
    } else if s.types.Some? {
      if KnownTypes(s.types.value) { TypedOwn(s, v, w, g); } else { RestMeans(s, v, w); }
    } else if HasRule(s, g) {
      UntypedOwn(s, v, w, g);
    } else {
      RestMeans(s, v, w);
    }
  }

  lemma EmptyLists(v: Json, w: World)
    ensures All(NoList, v, w) && Some_(NoList, v, w)
  {
  }

  lemma RestMeans(s: Schema, v: Json, w: World)
    requires s.Node? && Own(s)
    ensures (ScalarKeywordsOk(NodeRest(s), v, w) <==> ScalarKeywordsOk(s, v, w)) && (KindRulesOk(NodeRest(s), v, w) <==> KindRulesOk(s, v, w))
  {
  }

  /** The keywords beside the kinds' own rules: what is left of them once a type has been carried, or there was none. */
  lemma ScalarRest(ts: seq<TypeName>, s: Schema, v: Json, w: World, g: Given)
    requires s.Node? && Own(s) && s.enum_.None? && s.const_.None?
    ensures ScalarKeywordsOk(s, v, w) <==>
            (s.types.Some? ==> exists i :: 0 <= i < |s.types.value| && OfType(s.types.value[i], v)) && ScalarKeywordsOk(KindResidual(ts, s, g), v, w)
  {
    hide OfType, StringResidual, NumberResidual, ObjectResidual, ArrayResidual;
  }

  lemma TypedOwn(s: Schema, v: Json, w: World, g: Given)
    requires WorldOk(w, g) && s.Node? && Own(s) && s.enum_.None? && s.const_.None? && s.types.Some?
    ensures var ts := s.types.value;
            && TypeOk(KindAlts(ts, s, g))
            && Exact(RulesDeclared(s, w, g), ScalarKeywordsOk(s, v, w) && KindRulesOk(s, v, w),
                     Inhabits(v, KindAlts(ts, s, g), w) && ScalarKeywordsOk(KindResidual(ts, s, g), v, w) && KindRulesOk(KindResidual(ts, s, g), v, w))
    decreases s, 2, 1
  {
    hide KindAlts, KindResidual, Inhabits, TypeOk, KindRulesOk, RulesDeclared, ScalarKeywordsOk, OfType;
    TypedExact(s.types.value, s, v, w, g);
    ScalarRest(s.types.value, s, v, w, g);
  }

  lemma UntypedOwn(s: Schema, v: Json, w: World, g: Given)
    requires WorldOk(w, g) && s.Node? && Own(s) && s.enum_.None? && s.const_.None? && s.types.None?
    ensures var ks := RuledKinds(s, g);
            && TypeOk(UntypedAlts(s, g))
            && Exact(RulesDeclared(s, w, g), ScalarKeywordsOk(s, v, w) && KindRulesOk(s, v, w),
                     Inhabits(v, UntypedAlts(s, g), w) && ScalarKeywordsOk(KindResidual(ks, s, g), v, w) && KindRulesOk(KindResidual(ks, s, g), v, w))
    decreases s, 2, 1
  {
    hide UntypedAlts, RuledKinds, KindResidual, Inhabits, TypeOk, KindRulesOk, RulesDeclared, ScalarKeywordsOk;
    UntypedExact(s, v, w, g);
    ScalarRest(RuledKinds(s, g), s, v, w, g);
  }

  lemma LiteralOwn(s: Schema, v: Json, w: World, g: Given)
    requires s.Node? && Own(s) && (s.enum_.Some? || s.const_.Some?)
    ensures var own := NodeOwn(s, g);
            && TypeOk(own.0)
            && (ScalarKeywordsOk(s, v, w) <==> Inhabits(v, own.0, w) && ScalarKeywordsOk(own.1, v, w))
            && (KindRulesOk(s, v, w) <==> KindRulesOk(own.1, v, w))
  {
    hide Inhabits, TypeOk, Literals, LiteralOf, Universal, ObjectOk, ArrayOk;
    UniversalHolds(v, w);
    ConstantTypes();
    if LiteralType(s).Some? {
      if s.const_.Some? { LiteralExact(s.const_.value, v, w); } else { LiteralsExact(s.enum_.value, v, w); }
    }
  }

  // ------------------------------------------------------------ allOf, anyOf

  ghost predicate AllAccept(bs: seq<Schema>, v: Json, w: World) {
    forall i :: 0 <= i < |bs| ==> Accepts(bs[i], v, w)
  }

  ghost predicate AllDeclared(bs: seq<Schema>, w: World, g: Given) {
    forall i :: 0 <= i < |bs| ==> Declared(bs[i], w, g)
  }

  lemma AllSnoc(bs: seq<Schema>, b: Schema, v: Json, w: World)
    ensures AllAccept(bs + [b], v, w) <==> AllAccept(bs, v, w) && Accepts(b, v, w)
  {
    var cs := bs + [b];
    assert forall i :: 0 <= i < |bs| ==> cs[i] == bs[i];
    assert cs[|bs|] == b;
  }

  lemma AllDeclaredSnoc(bs: seq<Schema>, b: Schema, w: World, g: Given)
    ensures AllDeclared(bs + [b], w, g) <==> AllDeclared(bs, w, g) && Declared(b, w, g)
  {
    hide Declared;
    var cs := bs + [b];
    if AllDeclared(cs, w, g) {
      assert forall i :: 0 <= i < |bs| ==> cs[i] == bs[i];
      assert cs[|bs|] == b;
    }
  }

  lemma FoldAllOfExact(t: Type, bs: seq<Schema>, v: Json, w: World, g: Given)
    requires WorldOk(w, g) && TypeOk(t)
    ensures TypeOk(FoldAllOf(t, bs, g).t)
    ensures Exact(AllDeclared(bs, w, g), Inhabits(v, t, w) && AllAccept(bs, v, w),
                  Inhabits(v, FoldAllOf(t, bs, g).t, w) && AllAccept(FoldAllOf(t, bs, g).rest, v, w))
    decreases bs, 0
  {
    if bs != [] {
      var init, b := bs[..|bs| - 1], bs[|bs| - 1];
      assert bs == init + [b];
      AllSnoc(init, b, v, w);
      AllDeclaredSnoc(init, b, w, g);
      hide AllDeclared, AllAccept, Inhabits, TypeOk, Accepts, Declared, Intersect, Conv;
      FoldAllOfExact(t, init, v, w, g);
      ConvExact(b, v, w, g);
      var f, r := FoldAllOf(t, init, g), Conv(b, g);
      if Intersect(f.t, r.t).Some? { IntersectExact(f.t, r.t, v, w); }
      AllSnoc(f.rest, b, v, w);
      if r.res.Sub? { AllSnoc(f.rest, r.res.schema, v, w); }
    }
  }

  ghost predicate AnyAccepts(bs: seq<Schema>, v: Json, w: World) {
    exists i :: 0 <= i < |bs| && Accepts(bs[i], v, w)
  }

  lemma AnySnoc(bs: seq<Schema>, b: Schema, v: Json, w: World)
    ensures AnyAccepts(bs + [b], v, w) <==> AnyAccepts(bs, v, w) || Accepts(b, v, w)
  {
    var cs := bs + [b];
    if AnyAccepts(bs, v, w) {
      var i :| 0 <= i < |bs| && Accepts(bs[i], v, w);
      assert cs[i] == bs[i];
    }
    assert cs[|bs|] == b;
  }

  lemma FoldAnyOfExact(bs: seq<Schema>, v: Json, w: World, g: Given)
    requires WorldOk(w, g) && FoldAnyOf(bs, g).Some?
    ensures TypeOk(FoldAnyOf(bs, g).value)
    ensures Exact(AllDeclared(bs, w, g), AnyAccepts(bs, v, w), Inhabits(v, FoldAnyOf(bs, g).value, w))
    decreases bs, 0
  {
    if bs != [] {
      var init, b := bs[..|bs| - 1], bs[|bs| - 1];
      assert bs == init + [b];
      AnySnoc(init, b, v, w);
      FoldAnyOfExact(init, v, w, g);
      ConvExact(b, v, w, g);
      UnionExact(FoldAnyOf(init, g).value, Conv(b, g).t, v, w);
      assert AllDeclared(bs, w, g) ==> AllDeclared(init, w, g) && Declared(b, w, g) by {
        if AllDeclared(bs, w, g) { assert forall i :: 0 <= i < |init| ==> init[i] == bs[i]; }
      }
    }
  }

  lemma FinishAllOfExact(t: Type, res: Schema, list: OptList, v: Json, w: World, g: Given)
    requires WorldOk(w, g) && TypeOk(t) && res.Node? && Own(res) && res.allOf.NoList?
    ensures var r := FinishAllOf(t, res, list, g);
            && TypeOk(r.0) && Own(r.1) && r.1.anyOf == res.anyOf
            && Exact(ListDeclared(list, w, g), Inhabits(v, t, w) && Accepts(res, v, w) && All(list, v, w),
                     Inhabits(v, r.0, w) && Accepts(r.1, v, w))
    decreases list, 1
  {
    if list.List? && list.list != [] {
      FoldAllOfExact(t, list.list, v, w, g);
      var f := FoldAllOf(t, list.list, g);
      var r := res.(allOf := List(f.rest));
      ResidualWithAllOf(res, f.rest, v, w);
      assert All(list, v, w) <==> AllAccept(list.list, v, w);
      assert ListDeclared(list, w, g) <==> AllDeclared(list.list, w, g);
    } else if list.List? {
      ResidualWithAllOf(res, [], v, w);
    }
  }

  lemma ResidualWithAllOf(res: Schema, bs: seq<Schema>, v: Json, w: World)
    requires res.Node? && Own(res) && res.allOf.NoList?
    ensures Accepts(res.(allOf := List(bs)), v, w) <==> Accepts(res, v, w) && AllAccept(bs, v, w)
  {
    var r := res.(allOf := List(bs));
    assert ScalarKeywordsOk(r, v, w) <==> ScalarKeywordsOk(res, v, w);
    assert KindRulesOk(r, v, w) <==> KindRulesOk(res, v, w);
    assert All(r.allOf, v, w) <==> AllAccept(bs, v, w);
  }

  lemma FinishAnyOfExact(t: Type, res: Schema, list: OptList, v: Json, w: World, g: Given)
    requires WorldOk(w, g) && TypeOk(t) && res.Node? && Own(res) && res.anyOf.NoList?
    ensures var r := FinishAnyOf(t, res, list, g);
            && TypeOk(r.0)
            && Exact(ListDeclared(list, w, g), Inhabits(v, t, w) && Accepts(res, v, w) && Some_(list, v, w),
                     Inhabits(v, r.0, w) && Accepts(r.1, v, w))
    decreases list, 1
  {
    if list.List? {
      hide Accepts, Inhabits, TypeOk, FoldAnyOf, Intersect, Declared;
      ResidualWithAnyOf(res, list, v, w);
      if list.list != [] && FoldAnyOf(list.list, g).Some? {
        FoldAnyOfExact(list.list, v, w, g);
        var u := FoldAnyOf(list.list, g).value;
        if Intersect(t, u).Some? { IntersectExact(t, u, v, w); }
        assert ListDeclared(list, w, g) <==> AllDeclared(list.list, w, g);
        assert Some_(list, v, w) <==> AnyAccepts(list.list, v, w);
      }
    }
  }

  lemma ResidualWithAnyOf(res: Schema, list: OptList, v: Json, w: World)
    requires res.Node? && Own(res) && res.anyOf.NoList?
    ensures Accepts(res.(anyOf := list), v, w) <==> Accepts(res, v, w) && Some_(list, v, w)
  {
    var r := res.(anyOf := list);
    assert ScalarKeywordsOk(r, v, w) <==> ScalarKeywordsOk(res, v, w);
    assert KindRulesOk(r, v, w) <==> KindRulesOk(res, v, w);
  }

  lemma ConstantTypes()
    ensures TypeOk(Universal()) && TypeOk(Never())
  {
  }

  lemma EmptyAccepts(v: Json, w: World)
    ensures Accepts(EMPTY_NODE, v, w)
  {
  }

  lemma NodeMeans(s: Schema, v: Json, w: World)
    requires s.Node? && s.ref.None?
    ensures Accepts(s, v, w) <==> ScalarKeywordsOk(s, v, w) && KindRulesOk(s, v, w) && All(s.allOf, v, w) && Some_(s.anyOf, v, w)
  {
  }

  lemma NodeExact(s: Schema, v: Json, w: World, g: Given)
    requires WorldOk(w, g) && s.Node? && s != EMPTY_NODE && Own(s)
    ensures TypeOk(Conv(s, g).t)
    ensures Exact(Declared(s, w, g), Accepts(s, v, w), InSplit(Conv(s, g), v, w))
    decreases s, 2, 3
  {
    hide NodeOwn, FinishAllOf, FinishAnyOf, KindRulesOk, ScalarKeywordsOk, TypeOk, Inhabits;
    var own := NodeOwn(s, g);
    NodeOwnExact(s, v, w, g);
    var withAll := FinishAllOf(own.0, own.1, s.allOf, g);
    FinishAllOfExact(own.0, own.1, s.allOf, v, w, g);
    var withAny := FinishAnyOf(withAll.0, withAll.1, s.anyOf, g);
    FinishAnyOfExact(withAll.0, withAll.1, s.anyOf, v, w, g);
    NodeMeans(s, v, w);
    EmptyAccepts(v, w);
    assert Conv(s, g) == Split(withAny.0, AsResidual(withAny.1));
  }

  /** A reference beside its siblings, or alone where the draft ignores them. */
  lemma RefMeans(s: Schema, x: RefTo, v: Json, w: World)
    requires s.Node? && s.unevaluated.None?
    ensures Accepts(s.(ref := Some(x)), v, w) <==> w.refOk(x, v) && (w.overrides || Accepts(s.(ref := None), v, w))
  {
    var a, b := s.(ref := Some(x)), s.(ref := None);
    assert ScalarKeywordsOk(a, v, w) <==> ScalarKeywordsOk(b, v, w);
    assert KindRulesOk(a, v, w) <==> KindRulesOk(b, v, w);
  }

  lemma ConvRefExact(s: Schema, t: Target, v: Json, w: World, g: Given)
    requires WorldOk(w, g) && s.Node? && s.unevaluated.None? && s.ref == Some(Whole(t))
    ensures TypeOk(ConvRef(s, t, g).t)
    ensures Exact(RefExact(t, w, g), Accepts(s, v, w), InSplit(ConvRef(s, t, g), v, w))
  {
    hide Accepts;
    AliasMeans(t, v, w);
    EmptyAccepts(v, w);
    assert s == s.(ref := Some(Whole(t)));
    RefMeans(s, Whole(t), v, w);
    RefMeans(s, RestOf(t), v, w);
    RefMeans(EMPTY_NODE, RestOf(t), v, w);
    assert EMPTY_NODE.(ref := None) == EMPTY_NODE;
  }

  lemma AliasMeans(t: Target, v: Json, w: World)
    ensures TypeOk(AliasType(t)) && (Inhabits(v, AliasType(t), w) <==> w.aliasOk(t, v))
  {
    ConstantTypes();
    NeverHolds(v, w);
    assert AliasType(t).aliases[0] == t;
  }

  /**
   The split is exact: a value that the schema accepts has the type and satisfies the
   residual, and, when every closed object declares what it requires and references are exact, conversely.
   */
  lemma ConvExact(s: Schema, v: Json, w: World, g: Given)
    requires WorldOk(w, g)
    ensures TypeOk(Conv(s, g).t)
    ensures Exact(Declared(s, w, g), Accepts(s, v, w), InSplit(Conv(s, g), v, w))
    decreases s, 3
  {
    ConstantTypes();
    UniversalHolds(v, w);
    if s == EMPTY_NODE {
      EmptyAccepts(v, w);
    } else if s.Node? && Own(s) {
      NodeExact(s, v, w, g);
    } else if s.Node? && s.unevaluated.None? && s.ref.value.Whole? {
      ConvRefExact(s, s.ref.value.t, v, w, g);
    }
  }

  /** The split never refuses a document the schema accepts, whatever the schema. */
  lemma SplitSound(s: Schema, v: Json, w: World, g: Given)
    requires WorldOk(w, g) && Accepts(s, v, w)
    ensures InSplit(Conv(s, g), v, w)
  {
    ConvExact(s, v, w, g);
  }

  /** A value has the type and satisfies the residual exactly when the schema accepts it. */
  lemma SplitExact(s: Schema, v: Json, w: World, g: Given)
    requires WorldOk(w, g) && Declared(s, w, g)
    ensures InSplit(Conv(s, g), v, w) <==> Accepts(s, v, w)
  {
    ConvExact(s, v, w, g);
  }

  // ------------------------------------------------ where the split is not exact

  /** A closed object: the properties it names, the names it requires, and nothing else. */
  function ClosedNode(ps: seq<Prop>, required: seq<string>): Schema {
    EMPTY_NODE.(types := Some([TObject]), obj := ObjectRules(Props(ps), Some(required), Sub(BoolSchema(false)), NoProps))
  }

  predicate Distinct(ps: seq<Prop>) {
    forall i, j :: 0 <= i < j < |ps| ==> ps[i].name != ps[j].name
  }

  ghost predicate Satisfiable(ps: seq<Prop>, w: World) {
    forall i :: 0 <= i < |ps| ==> exists v :: Accepts(ps[i].schema, v, w)
  }

  /** An undeclared required name makes the closed type larger than the schema: {"k": null} is the witness. */
  lemma UndeclaredRequired(w: World, g: Given)
    requires WorldOk(w, g)
    ensures var s, v := ClosedNode([], ["k"]), Obj(map["k" := Null]);
            InSplit(Conv(s, g), v, w) && !Accepts(s, v, w)
  {
    ClosedWitness([], ["k"], "k", map["k" := Null], w, g);
  }

  lemma ClosedMeans(ps: seq<Prop>, required: seq<string>, m: map<string, Json>, w: World, g: Given)
    ensures var s := ClosedNode(ps, required);
            && (Accepts(s, Obj(m), w) <==> ObjectOk(s.obj, m, w))
            && (InSplit(Conv(s, g), Obj(m), w) <==> InAlt(Obj(m), ObjectAlt(s.obj, g), w) && ObjectOk(ObjectResidual(s.obj, g), m, w))
  {
    ClosedAccepts(ps, required, m, w, g);
    hide KindAlts, ObjectAlt, KindResidual, ObjectResidual, ObjectOk, Accepts, Inhabits, InAlt, ClosedNode;
    var s := ClosedNode(ps, required);
    ClosedType(s, m, w, g);
    EmptyAccepts(Obj(m), w);
    ClosedConv(ps, required, w, g);
  }

  lemma ClosedAccepts(ps: seq<Prop>, required: seq<string>, m: map<string, Json>, w: World, g: Given)
    ensures var s := ClosedNode(ps, required);
            && s.Node? && (Accepts(s, Obj(m), w) <==> ObjectOk(s.obj, m, w))
            && (Accepts(KindResidual([TObject], s, g), Obj(m), w) <==> ObjectOk(ObjectResidual(s.obj, g), m, w))
  {
    hide ObjectOk, ObjectResidual, StringResidual, NumberResidual, ArrayResidual;
    var s, v := ClosedNode(ps, required), Obj(m);
    NodeMeans(s, v, w);
    assert s.types.value[0] == TObject;
    NodeMeans(KindResidual([TObject], s, g), v, w);
    assert TObject in [TObject];
  }

  lemma ClosedType(s: Schema, m: map<string, Json>, w: World, g: Given)
    requires s.Node?
    ensures Inhabits(Obj(m), KindAlts([TObject], s, g), w) <==> InAlt(Obj(m), ObjectAlt(s.obj, g), w)
  {
    var v := Obj(m);
    ConstantTypes();
    OneKindAlts(TObject, s, w, g);
    ObjectAltKind(s.obj, w, g);
    hide Union, KindAlts, InAlt, ObjectAlt, TypeOk, Inhabits, Never, AltOfKind, Single;
    assert KindAlt(TObject, s, g) == Single(KObject, ObjectAlt(s.obj, g));
    hide KindAlt;
    SingleExact(KObject, ObjectAlt(s.obj, g), v, w);
    NeverHolds(v, w);
    UnionExact(Never(), KindAlt(TObject, s, g), v, w);
  }

  lemma ObjectAltKind(o: ObjectRules, w: World, g: Given)
    ensures AltOfKind(ObjectAlt(o, g), KObject)
  {
    hide Members;
  }

  lemma NeverHolds(v: Json, w: World)
    ensures !Inhabits(v, Never(), w)
  {
  }

  lemma OneKindAlts(t: TypeName, s: Schema, w: World, g: Given)
    requires s.Node?
    ensures KindAlts([t], s, g) == Union(Never(), KindAlt(t, s, g))
  {
    hide KindAlt, Union;
    assert [t][..0] == [];
  }

  lemma ClosedConv(ps: seq<Prop>, required: seq<string>, w: World, g: Given)
    ensures var s := ClosedNode(ps, required); Conv(s, g) == Split(KindAlts([TObject], s, g), AsResidual(KindResidual([TObject], s, g)))
  {
    hide KindAlts, KindResidual, AsResidual;
    var s := ClosedNode(ps, required);
    assert NodeOwn(s, g) == (KindAlts([TObject], s, g), KindResidual([TObject], s, g));
  }

  /** An object that has every required name and suits each declared property, with an undeclared required name in it. */
  lemma ClosedWitness(ps: seq<Prop>, required: seq<string>, k: string, m: map<string, Json>, w: World, g: Given)
    requires WorldOk(w, g) && k in required && !Named(ps, k)
    requires HasAll(required, m) && PropsOk(ps, m, w)
    requires forall x :: x in m ==> x in required || Named(ps, x)
    ensures var s := ClosedNode(ps, required); InSplit(Conv(s, g), Obj(m), w) && !Accepts(s, Obj(m), w)
  {
    ClosedMeans(ps, required, m, w, g);
    ClosedFits(ps, required, m, w, g);
    var o := ClosedNode(ps, required).obj;
    assert k in m;
    assert Additional(o, k, w) && !Accepts(o.additional.schema, m[k], w);
    ObjectMeans(o, m, w);
  }

  lemma ClosedFits(ps: seq<Prop>, required: seq<string>, m: map<string, Json>, w: World, g: Given)
    requires WorldOk(w, g) && HasAll(required, m) && PropsOk(ps, m, w)
    requires forall x :: x in m ==> x in required || Named(ps, x)
    ensures var o := ClosedNode(ps, required).obj; InAlt(Obj(m), ObjectAlt(o, g), w) && ObjectOk(ObjectResidual(o, g), m, w)
  {
    var o := ClosedNode(ps, required).obj;
    var rs := ConvProps(ps, g);
    PropsExact(o, m, w, g);
    ShapeMeans(Members(o, g), true, m, w);
    MembersMean(o, m, "", w, g);
    forall x | x in m ensures MemberNamed(Members(o, g), x) {
      MembersMean(o, m, x, w, g);
    }
    PropResidualsMean(ps, rs, false, m, "", w);
    ObjectMeans(ObjectResidual(o, g), m, w);
  }

  function Find(ps: seq<Prop>, k: string): (i: nat)
    requires Named(ps, k)
    ensures i < |ps| && ps[i].name == k
  {
    if ps[0].name == k then 0
    else
      assert Named(ps[1..], k) by {
        var i :| 0 <= i < |ps| && ps[i].name == k;
        assert ps[1..][i - 1].name == k;
      }
      1 + Find(ps[1..], k)
  }

  /**
   On closed objects whose properties can each be satisfied, the split is exact for every
   value if and only if every required name is declared.
   */
  lemma ClosedExactIff(ps: seq<Prop>, required: seq<string>, w: World, g: Given)
    requires WorldOk(w, g) && Distinct(ps) && Satisfiable(ps, w) && AllPropsDeclared(ps, w, g)
    ensures (forall v :: InSplit(Conv(ClosedNode(ps, required), g), v, w) <==> Accepts(ClosedNode(ps, required), v, w))
        <==> (forall i :: 0 <= i < |required| ==> Named(ps, required[i]))
  {
    var s := ClosedNode(ps, required);
    if forall i :: 0 <= i < |required| ==> Named(ps, required[i]) {
      assert ListDeclared(NoList, w, g) && PropsDeclared(Props(ps), w, g);
      assert Declared(s, w, g);
      forall v ensures InSplit(Conv(s, g), v, w) <==> Accepts(s, v, w) {
        SplitExact(s, v, w, g);
      }
    } else {
      var i :| 0 <= i < |required| && !Named(ps, required[i]);
      var keys := (set j | 0 <= j < |ps| :: ps[j].name) + (set x | x in required);
      var m := map x | x in keys :: if Named(ps, x) then var v :| Accepts(ps[Find(ps, x)].schema, v, w); v else Null;
      forall j | 0 <= j < |ps| && ps[j].name in m ensures Accepts(ps[j].schema, m[ps[j].name], w) {
        assert Named(ps, ps[j].name) && Find(ps, ps[j].name) == j;
      }
      ClosedWitness(ps, required, required[i], m, w, g);
    }
  }

  ghost predicate AllPropsDeclared(ps: seq<Prop>, w: World, g: Given) {
    forall i :: 0 <= i < |ps| ==> Declared(ps[i].schema, w, g)
  }
}
