/**
 How much of a schema its type takes (lib/bun-target.js:85-127, 286-525): exactly which schemas leave no
 residual, so that the type alone decides, and which keywords a residual may hold.
 */
module SplitPrecise {
  import opened Json
  import opened SplitModel
  import opened TypeAlgebra
  import opened Split
  import opened SplitRefs

  // ---------------------------------------------------------------- when two types can be met

  predicate AllowsAll(k: Kind, x: Alt) { x == UniversalAlt(k) }

  predicate Tagged(x: Alt) { x.StrAlt? || x.NumAlt? }

  /** Neither a literal against a rule, nor a closed object against another shape, nor two array types. */
  predicate Meetable(k: Kind, x: Alt, y: Alt) {
    || AllowsAll(k, x) || AllowsAll(k, y) || x == y
    || (IsLiteral(x) && IsLiteral(y))
    || (!IsLiteral(x) && !IsLiteral(y) &&
        match k
        case KString => x.StrAlt? && y.StrAlt?
        case KNumber => x.NumAlt? && y.NumAlt?
        case KObject => !MentionsStrict(x) && !MentionsStrict(y)
        case _ => false)
  }

  /** The meeting of two alternatives gives up exactly where they cannot be written as one. */
  lemma MeetIff(k: Kind, x: Alt, y: Alt)
    ensures Meet(k, x, y).Unwritable? <==> !Meetable(k, x, y)
  {
  }

  predicate PairsMeet(k: Kind, xs: seq<Alt>, ys: seq<Alt>) {
    forall i, j :: 0 <= i < |xs| && 0 <= j < |ys| ==> Meetable(k, xs[i], ys[j])
  }

  lemma {:induction false} RowIff(k: Kind, x: Alt, ys: seq<Alt>)
    ensures Row(k, x, ys).Some? <==> forall j :: 0 <= j < |ys| ==> Meetable(k, x, ys[j])
    decreases |ys|
  {
    hide Meet, Meetable;
    if ys != [] {
      var init := ys[..|ys| - 1];
      RowIff(k, x, init);
      MeetIff(k, x, ys[|ys| - 1]);
      assert forall j :: 0 <= j < |init| ==> init[j] == ys[j];
    }
  }

  lemma {:induction false} ProductIff(k: Kind, xs: seq<Alt>, ys: seq<Alt>)
    ensures Product(k, xs, ys).Some? <==> PairsMeet(k, xs, ys)
    decreases |xs|
  {
    hide Row, Meetable;
    if xs != [] {
      var init := xs[..|xs| - 1];
      ProductIff(k, init, ys);
      RowIff(k, xs[|xs| - 1], ys);
      assert forall i :: 0 <= i < |init| ==> init[i] == xs[i];
    }
  }

  /** Not past the limit on alternatives, and every pair of them can be met. */
  predicate KindsMeet(k: Kind, xs: seq<Alt>, ys: seq<Alt>) {
    |xs| * |ys| <= MAX_ALTERNATIVES && PairsMeet(k, xs, ys)
  }

  predicate TypesMeet(a: Type, b: Type) {
    a.aliases == [] && b.aliases == [] && forall k: Kind :: KindsMeet(k, At(a, k), At(b, k))
  }

  /** `intersect` returns null exactly when a type is a name, has too many alternatives, or two of them cannot be met. */
  lemma IntersectIff(a: Type, b: Type)
    ensures Intersect(a, b).Some? <==> TypesMeet(a, b)
  {
    hide Product, PairsMeet, Dedupe;
    forall k: Kind { ProductIff(k, At(a, k), At(b, k)); }
    forall k: Kind ensures IntersectKind(k, At(a, k), At(b, k)).Some? <==> KindsMeet(k, At(a, k), At(b, k)) { ProductIff(k, At(a, k), At(b, k)); }
    if Intersect(a, b).Some? {
      forall k: Kind ensures KindsMeet(k, At(a, k), At(b, k)) { IntersectAt(a, b, k); }
    } else {
      assert At(a, KString) == a.strs && At(a, KNumber) == a.nums && At(a, KBoolean) == a.bools && At(a, KNull) == a.nulls && At(a, KObject) == a.objs && At(a, KArray) == a.arrs;
    }
  }

  // ---------------------------------------------------------------- which schemas the type takes whole

  /** One expression read alike with and without the unicode flag; formats only where they are asserted. */
  predicate StringCarried(r: StringRules, g: Given) {
    && (r.pattern.Some? ==> !g.differs(r.pattern.value))
    && (r.format.Some? ==> g.assertFormat && g.formatPattern(r.format.value).Some? && !g.differs(g.formatPattern(r.format.value).value))
  }

  predicate NumberCarried(r: NumberRules) {
    r.multipleOf.Some? ==> IsInteger(r.multipleOf.value) && r.multipleOf.value >= 1.0
  }

  predicate AllCarriable(ss: seq<Schema>, g: Given)
    decreases ss, 0
  {
    forall i :: 0 <= i < |ss| ==> Carriable(ss[i], g)
  }

  predicate PropsCarriable(ps: seq<Prop>, g: Given)
    decreases ps, 0
  {
    forall i :: 0 <= i < |ps| ==> Carriable(ps[i].schema, g)
  }

  /** No patterns; other names free, or allowed or refused outright; and each declared property. */
  predicate ObjectCarried(o: ObjectRules, g: Given)
    decreases o, 0
  {
    && o.patterns.NoProps? && (o.additional.Sub? ==> o.additional.schema.BoolSchema?)
    && (o.properties.Props? ==> PropsCarriable(o.properties.list, g))
  }

  /** A tuple of a fixed length, or elements of one schema. */
  predicate ArrayCarried(r: ArrayRules, g: Given)
    decreases r, 0
  {
    match r.prefixItems
    case List(ss) => FixedTuple(r) && AllCarriable(ss, g)
    case NoList => r.items.Sub? ==> Carriable(r.items.schema, g)
  }

  /** The rules of the named kinds are carried, and there are no others. */
  predicate RulesCarried(ts: seq<TypeName>, s: Schema, g: Given)
    requires s.Node?
    decreases s, 0
  {
    && s.other == {} && s.enum_.None? && s.const_.None?
    && (if TString in ts then StringCarried(s.str, g) else s.str == NO_STRING)
    && (if TNumber in ts || TInteger in ts then NumberCarried(s.num) else s.num == NO_NUMBER)
    && (if TObject in ts then ObjectCarried(s.obj, g) else s.obj == NO_OBJECT)
    && (if TArray in ts then ArrayCarried(s.arr, g) else s.arr == NO_ARRAY)
  }

  /** `enum` or `const` alone, with scalars only. */
  predicate LiteralCarried(s: Schema)
    requires s.Node?
  {
    && s == EMPTY_NODE.(enum_ := s.enum_, const_ := s.const_, allOf := s.allOf, anyOf := s.anyOf)
    && ((s.const_.Some? && s.enum_.None? && IsScalar(s.const_.value))
        || (s.const_.None? && s.enum_.Some? && s.enum_.value != [] && forall i :: 0 <= i < |s.enum_.value| ==> IsScalar(s.enum_.value[i])))
  }

  /** What the node itself says, before allOf and anyOf. */
  predicate OwnCarried(s: Schema, g: Given)
    requires s.Node?
    decreases s, 1
  {
    if s.enum_.Some? || s.const_.Some? then LiteralCarried(s)
    else if s.types.Some? then KnownTypes(s.types.value) && RulesCarried(s.types.value, s, g)
    else RulesCarried(RuledKinds(s, g), s, g)
  }

  /** Each branch is carried, and its type can be met with what stands before it. */
  predicate AllOfCarried(t: Type, list: OptList, g: Given)
    decreases list, 0
  {
    match list
    case NoList => true
    case List(bs) => bs != [] && AllCarriable(bs, g) && forall i :: 0 <= i < |bs| ==> TypesMeet(FoldAllOf(t, bs[..i], g).t, Conv(bs[i], g).t)
  }

  function UnionOf(bs: seq<Schema>, g: Given): Type {
    if bs == [] then Never() else Union(UnionOf(bs[..|bs| - 1], g), Conv(bs[|bs| - 1], g).t)
  }

  /** Each branch is carried, and the union of their types can be met with what stands before. */
  predicate AnyOfCarried(t: Type, list: OptList, g: Given)
    decreases list, 0
  {
    match list
    case NoList => true
    case List(bs) => bs != [] && AllCarriable(bs, g) && TypesMeet(t, UnionOf(bs, g))
  }

  /** A reference alone, to a target without a residual; beside it nothing, unless the draft ignores it. */
  predicate RefCarried(s: Schema, g: Given)
    requires s.Node? && s.ref.Some?
  {
    s.ref.value.Whole? && s.unevaluated.None? && s.ref.value.t !in g.kept && (g.overrides || s == EMPTY_NODE.(ref := s.ref))
  }

  /** The type can say all of it. */
  predicate Carriable(s: Schema, g: Given)
    decreases s, 2
  {
    match s
    case BoolSchema(_) => true
    case Node(_, _, _, _, _, _, _, allOf, anyOf, _, unevaluated, ref) =>
      if ref.Some? then RefCarried(s, g)
      else
        && unevaluated.None? && OwnCarried(s, g)
        && AllOfCarried(NodeOwn(s, g).0, allOf, g)
        && AnyOfCarried(FinishAllOf(NodeOwn(s, g).0, NodeOwn(s, g).1, allOf, g).0, anyOf, g)
  }

  // ---------------------------------------------------------------- exactly those leave no residual

  lemma {:induction false} LiteralsIff(vs: seq<Json>)
    ensures Literals(vs).Some? <==> forall i :: 0 <= i < |vs| ==> IsScalar(vs[i])
    decreases |vs|
  {
    if vs != [] {
      LiteralsIff(vs[..|vs| - 1]);
      assert forall i :: 0 <= i < |vs| - 1 ==> vs[..|vs| - 1][i] == vs[i];
    }
  }

  lemma StringIff(r: StringRules, g: Given)
    ensures StringResidual(r, g) == NO_STRING <==> StringCarried(r, g)
  {
  }

  lemma NumberIff(r: NumberRules)
    ensures NumberResidual(r) == NO_NUMBER <==> NumberCarried(r)
  {
  }

  predicate NoneLeft(rs: seq<Split>) { forall i :: 0 <= i < |rs| ==> rs[i].res.NoSchema? }

  lemma {:induction false} PropResidualsIff(ps: seq<Prop>, rs: seq<Split>)
    requires |ps| == |rs|
    ensures PropResiduals(ps, rs, false) == [] <==> NoneLeft(rs)
    decreases |ps|
  {
    if ps != [] {
      PropResidualsIff(ps[..|ps| - 1], rs[..|rs| - 1]);
      assert forall i :: 0 <= i < |rs| - 1 ==> rs[..|rs| - 1][i] == rs[i];
    }
  }

  lemma {:induction false} PropsIff(ps: seq<Prop>, g: Given)
    ensures NoneLeft(ConvProps(ps, g)) <==> PropsCarriable(ps, g)
    decreases ps, 0
  {
    hide Conv, Carriable, ConvProps;
    var rs := ConvProps(ps, g);
    forall i | 0 <= i < |ps| ensures rs[i].res.NoSchema? <==> Carriable(ps[i].schema, g) {
      ConvPropsAt(ps, i, g);
      CarriableIff(ps[i].schema, g);
    }
    if NoneLeft(rs) {
      forall i | 0 <= i < |ps| ensures Carriable(ps[i].schema, g) { assert rs[i].res.NoSchema?; }
    }
  }

  lemma {:induction false} ListIff(ss: seq<Schema>, g: Given)
    ensures AnyResidual(ConvList(ss, g)) <==> !AllCarriable(ss, g)
    decreases ss, 0
  {
    hide Conv, Carriable, ConvList;
    forall i | 0 <= i < |ss| ensures ConvList(ss, g)[i].res.NoSchema? <==> Carriable(ss[i], g) {
      ConvListAt(ss, i, g);
      CarriableIff(ss[i], g);
    }
  }

  lemma {:induction false} ObjectIff(o: ObjectRules, g: Given)
    ensures ObjectResidual(o, g) == NO_OBJECT <==> ObjectCarried(o, g)
    decreases o, 0
  {
    if o.properties.Props? {
      PropsIff(o.properties.list, g);
      PropResidualsIff(o.properties.list, ConvProps(o.properties.list, g));
    }
    ObjectParts(o, g);
  }

  lemma ObjectParts(o: ObjectRules, g: Given)
    ensures ObjectResidual(o, g) == NO_OBJECT <==>
            && AdditionalCarried(o) && o.patterns.NoProps?
            && (o.properties.Props? ==> PropResiduals(o.properties.list, ConvProps(o.properties.list, g), false) == [])
  {
    hide PropResiduals, ConvProps;
  }

  lemma {:induction false} ArrayIff(r: ArrayRules, g: Given)
    ensures ArrayResidual(r, g) == NO_ARRAY <==> ArrayCarried(r, g)
    decreases r, 0
  {
    hide ConvList, Conv, Carriable, AnyResidual, AllCarriable;
    if r.prefixItems.List? {
      ListIff(r.prefixItems.list, g);
    } else if r.items.Sub? {
      CarriableIff(r.items.schema, g);
      BoolCarriable(g);
    }
  }

  lemma BoolCarriable(g: Given)
    ensures forall b :: Carriable(BoolSchema(b), g) && Conv(BoolSchema(b), g).res.NoSchema?
  {
  }

  lemma {:induction false} RulesIff(ts: seq<TypeName>, s: Schema, g: Given)
    requires s.Node? && Own(s)
    ensures KindResidual(ts, s, g) == EMPTY_NODE <==> RulesCarried(ts, s, g)
    decreases s, 0
  {
    hide StringResidual, NumberResidual, ObjectResidual, ArrayResidual, StringCarried, NumberCarried, ObjectCarried, ArrayCarried;
    StringIff(s.str, g);
    NumberIff(s.num);
    ObjectIff(s.obj, g);
    ArrayIff(s.arr, g);
  }

  lemma {:induction false} OwnIff(s: Schema, g: Given)
    requires s.Node? && Own(s)
    ensures NodeOwn(s, g).1 == EMPTY_NODE <==> OwnCarried(s, g)
    decreases s, 1
  {
    hide KindResidual, RulesCarried, KindAlts, UntypedAlts, Literals;
    if s.enum_.Some? || s.const_.Some? {
      if s.enum_.Some? { LiteralsIff(s.enum_.value); }
    } else if s.types.Some? {
      RulesIff(s.types.value, s, g);
    } else {
      RulesIff(RuledKinds(s, g), s, g);
      if !HasRule(s, g) { NoRulesIff(s, g); }
    }
  }

  lemma NoRulesIff(s: Schema, g: Given)
    requires s.Node? && Own(s) && s.enum_.None? && s.const_.None? && s.types.None? && !HasRule(s, g)
    ensures NodeRest(s) == EMPTY_NODE <==> RulesCarried(RuledKinds(s, g), s, g)
  {
    assert RuledKinds(s, g) == [];
  }

  lemma {:induction false} AllOfIff(t: Type, bs: seq<Schema>, g: Given)
    ensures FoldAllOf(t, bs, g).rest == [] <==>
            AllCarriable(bs, g) && forall i :: 0 <= i < |bs| ==> TypesMeet(FoldAllOf(t, bs[..i], g).t, Conv(bs[i], g).t)
    decreases bs, 0
  {
    hide Conv, Carriable, Intersect, TypesMeet;
    if bs != [] {
      var init, b := bs[..|bs| - 1], bs[|bs| - 1];
      AllOfIff(t, init, g);
      CarriableIff(b, g);
      IntersectIff(FoldAllOf(t, init, g).t, Conv(b, g).t);
      forall i | 0 <= i < |init| ensures init[i] == bs[i] && init[..i] == bs[..i] {}
      if AllCarriable(bs, g) && forall i :: 0 <= i < |bs| ==> TypesMeet(FoldAllOf(t, bs[..i], g).t, Conv(bs[i], g).t) {
        forall i | 0 <= i < |init| ensures TypesMeet(FoldAllOf(t, init[..i], g).t, Conv(init[i], g).t) {
          assert TypesMeet(FoldAllOf(t, bs[..i], g).t, Conv(bs[i], g).t);
        }
      }
      if FoldAllOf(t, bs, g).rest == [] {
        forall i | 0 <= i < |bs| ensures TypesMeet(FoldAllOf(t, bs[..i], g).t, Conv(bs[i], g).t) {
          if i < |init| { assert TypesMeet(FoldAllOf(t, init[..i], g).t, Conv(init[i], g).t); }
        }
      }
    }
  }

  lemma {:induction false} AnyOfIff(bs: seq<Schema>, g: Given)
    ensures FoldAnyOf(bs, g).Some? <==> AllCarriable(bs, g)
    ensures FoldAnyOf(bs, g).Some? ==> FoldAnyOf(bs, g).value == UnionOf(bs, g)
    decreases bs, 0
  {
    hide Conv, Carriable, Union;
    if bs != [] {
      var init := bs[..|bs| - 1];
      AnyOfIff(init, g);
      CarriableIff(bs[|bs| - 1], g);
      assert forall i :: 0 <= i < |init| ==> init[i] == bs[i];
    }
  }

  lemma {:induction false} FinishAllIff(t: Type, res: Schema, list: OptList, g: Given)
    requires res.Node? && res.allOf.NoList?
    ensures var r := FinishAllOf(t, res, list, g).1;
            && r.anyOf == res.anyOf && (r == EMPTY_NODE <==> res == EMPTY_NODE && AllOfCarried(t, list, g))
            && (r.allOf.NoList? || r != EMPTY_NODE)
    decreases list, 1
  {
    hide FoldAllOf, Conv, TypesMeet, AllCarriable;
    if list.List? { AllOfIff(t, list.list, g); }
  }

  lemma {:induction false} FinishAnyIff(t: Type, res: Schema, list: OptList, g: Given)
    requires res.Node? && res.anyOf.NoList?
    ensures FinishAnyOf(t, res, list, g).1 == EMPTY_NODE <==> res == EMPTY_NODE && AnyOfCarried(t, list, g)
    decreases list, 1
  {
    hide FoldAnyOf, Intersect, TypesMeet, UnionOf, AllCarriable;
    if list.List? {
      AnyOfIff(list.list, g);
      if FoldAnyOf(list.list, g).Some? { IntersectIff(t, FoldAnyOf(list.list, g).value); }
    }
  }

  /** The type takes a schema whole exactly when the schema is one of those it can say. */
  lemma {:induction false} CarriableIff(s: Schema, g: Given)
    ensures Carriable(s, g) <==> Conv(s, g).res.NoSchema?
    decreases s, 2
  {
    hide NodeOwn, FinishAllOf, FinishAnyOf, OwnCarried, AllOfCarried, AnyOfCarried;
    if s.Node? && s.ref.None? && s.unevaluated.None? {
      var own := NodeOwn(s, g);
      OwnIff(s, g);
      FinishAllIff(own.0, own.1, s.allOf, g);
      var withAll := FinishAllOf(own.0, own.1, s.allOf, g);
      FinishAnyIff(withAll.0, withAll.1, s.anyOf, g);
      if s == EMPTY_NODE { NothingCarried(g); }
    }
  }

  lemma NothingCarried(g: Given)
    ensures var own := NodeOwn(EMPTY_NODE, g); own.1 == EMPTY_NODE && AllOfCarried(own.0, NoList, g)
    ensures forall t :: AnyOfCarried(t, NoList, g)
  {
  }

  /** Where the type takes the schema whole, it alone decides: its values are those the schema accepts. */
  lemma TypeDecides(s: Schema, v: Json, w: World, g: Given)
    requires WorldOk(w, g) && Declared(s, w, g) && Carriable(s, g)
    ensures Inhabits(v, Conv(s, g).t, w) <==> Accepts(s, v, w)
  {
    hide Inhabits, Accepts, Declared, Carriable, Conv;
    CarriableIff(s, g);
    SplitExact(s, v, w, g);
  }

  /** In a consistent table the entries without a residual are those of the schemas the type takes whole. */
  predicate TableCarried(d: Document, g: Given, tab: Table) {
    forall t :: t in tab ==> t in d && (tab[t].res.NoSchema? <==> Carriable(d[t], With(g, KeptOf(tab))))
  }

  lemma ConsistentCarried(d: Document, g: Given, tab: Table)
    requires Consistent(d, g, tab)
    ensures TableCarried(d, g, tab)
  {
    hide Conv, Carriable;
    forall t | t in tab ensures tab[t].res.NoSchema? <==> Carriable(d[t], With(g, KeptOf(tab))) { CarriableIff(d[t], With(g, KeptOf(tab))); }
  }

  /** With references, cyclic ones included: where the type takes the root whole, the types alone decide. */
  lemma TypesDecide(w: World, d: Document, tab: Table, f: nat, beyond: bool, g: Given, v: Json)
    requires ReadsOk(w, g) && Root in tab && Consistent(d, g, tab) && forall t :: t in tab ==> Plain(d[t])
    requires Carriable(d[Root], With(g, KeptOf(tab)))
    ensures var u := Level(w, d, tab, f, beyond); Inhabits(v, tab[Root].t, u) <==> Accepts(d[Root], v, u)
  {
    hide Conv, Carriable, Inhabits, Accepts, Plain, Level, Consistent, ReadsOk;
    ConsistentCarried(d, g, tab);
    RefsKeepExact(w, d, tab, f, beyond, g, v);
  }

  // ---------------------------------------------------------------- what a residual may hold

  /** The kinds whose rules the type takes. */
  function TakenKinds(s: Schema, g: Given): seq<TypeName>
    requires s.Node?
  {
    if s.enum_.Some? || s.const_.Some? then []
    else if s.types.Some? then (if KnownTypes(s.types.value) then s.types.value else [])
    else RuledKinds(s, g)
  }

  /** A pattern that reads differently, or a format without an expression that reads alike. */
  predicate StringLeft(r: StringRules, g: Given) {
    && r.minLength.None? && r.maxLength.None?
    && (r.pattern.Some? ==> g.differs(r.pattern.value))
    && (r.format.Some? ==> !(g.assertFormat && g.formatPattern(r.format.value).Some? && !g.differs(g.formatPattern(r.format.value).value)))
  }

  /** A multiple that is not whole. */
  predicate NumberLeft(r: NumberRules) {
    r == NO_NUMBER.(multipleOf := r.multipleOf) && (r.multipleOf.Some? ==> !IsInteger(r.multipleOf.value) || r.multipleOf.value < 1.0)
  }

  /** The residual of a property that has one, or, where additional names are still to be told apart, its bare name. */
  predicate PropLeft(o: ObjectRules, r: ObjectRules, p: Prop, g: Given) {
    || (r.additional.Sub? && p.schema == BoolSchema(true) && Named(List0(o.properties), p.name))
    || exists i :: 0 <= i < |List0(o.properties)| && List0(o.properties)[i].name == p.name && Conv(List0(o.properties)[i].schema, g).res == Sub(p.schema)
  }

  /** Patterns, properties with a residual, and what other names are held to beyond being free or refused. */
  ghost predicate ObjectLeft(o: ObjectRules, r: ObjectRules, g: Given) {
    && r.required.None? && r.patterns == o.patterns
    && (r.additional.Sub? ==> r.additional == o.additional && r.additional.schema != BoolSchema(true) && (r.additional.schema == BoolSchema(false) ==> o.patterns.Props?))
    && (r.properties.Props? ==> r.properties.list != [] && forall i :: 0 <= i < |r.properties.list| ==> PropLeft(o, r, r.properties.list[i], g))
  }

  /** The residual of the elements, or a tuple: as it was where its length is not fixed, and else its elements' residuals. */
  predicate ArrayLeft(a: ArrayRules, r: ArrayRules, g: Given) {
    if a.prefixItems.NoList? then
      r == NO_ARRAY.(items := r.items) && (r.items.Sub? ==> a.items.Sub? && Conv(a.items.schema, g).res == r.items)
    else if FixedTuple(a) then
      r == NO_ARRAY.(prefixItems := r.prefixItems) && (r.prefixItems.List? ==> !AllCarriable(a.prefixItems.list, g))
    else r == a
  }

  /** A branch whose type cannot be met, or the residual of one. */
  predicate BranchLeft(t: Type, bs: seq<Schema>, x: Schema, g: Given) {
    exists i :: 0 <= i < |bs| && ((x == bs[i] && !TypesMeet(FoldAllOf(t, bs[..i], g).t, Conv(bs[i], g).t)) || Conv(bs[i], g).res == Sub(x))
  }

  /** What is left of a schema is what its type cannot say. */
  ghost predicate OnlyUncarried(s: Schema, r: Schema, g: Given)
    requires s.Node?
  {
    var ts := TakenKinds(s, g);
    && r.Node?
    && (TString in ts ==> StringLeft(r.str, g))
    && (TNumber in ts || TInteger in ts ==> NumberLeft(r.num))
    && (TObject in ts ==> ObjectLeft(s.obj, r.obj, g))
    && (TArray in ts ==> ArrayLeft(s.arr, r.arr, g))
    && (ts != [] ==> r.types.None?)
    && (r.enum_.Some? || r.const_.Some? ==> LiteralType(s).None?)
    && (r.allOf.List? && r.allOf.list != [] ==> s.allOf.List? && forall i :: 0 <= i < |r.allOf.list| ==> BranchLeft(NodeOwn(s, g).0, s.allOf.list, r.allOf.list[i], g))
    && (r.anyOf.List? ==> r.anyOf == s.anyOf && !AnyOfCarried(FinishAllOf(NodeOwn(s, g).0, NodeOwn(s, g).1, s.allOf, g).0, s.anyOf, g))
  }

  lemma StringKeeps(r: StringRules, g: Given)
    ensures StringLeft(StringResidual(r, g), g)
  {
  }

  lemma NumberKeeps(r: NumberRules)
    ensures NumberLeft(NumberResidual(r))
  {
  }

  lemma {:induction false} PropsKeep(ps: seq<Prop>, rs: seq<Split>, all: bool, j: nat)
    requires |ps| == |rs| && j < |PropResiduals(ps, rs, all)|
    ensures var p := PropResiduals(ps, rs, all)[j];
            exists i :: 0 <= i < |ps| && ps[i].name == p.name && (rs[i].res == Sub(p.schema) || (all && p.schema == BoolSchema(true)))
    decreases |ps|
  {
    var n := |ps| - 1;
    var before := PropResiduals(ps[..n], rs[..n], all);
    if j < |before| {
      PropsKeep(ps[..n], rs[..n], all, j);
      var p := before[j];
      var i :| 0 <= i < n && ps[..n][i].name == p.name && (rs[..n][i].res == Sub(p.schema) || (all && p.schema == BoolSchema(true)));
      assert ps[i].name == p.name;
    } else {
      assert ps[n].name == PropResiduals(ps, rs, all)[j].name;
    }
  }

  lemma ObjectKeeps(o: ObjectRules, g: Given)
    ensures ObjectLeft(o, ObjectResidual(o, g), g)
  {
    hide PropResiduals, ConvProps, Conv;
    var r, all := ObjectResidual(o, g), !AdditionalCarried(o);
    if r.properties.Props? {
      var ps, rs := o.properties.list, ConvProps(o.properties.list, g);
      forall j | 0 <= j < |r.properties.list| ensures PropLeft(o, r, r.properties.list[j], g) {
        PropsKeep(ps, rs, all, j);
        var p := r.properties.list[j];
        var i :| 0 <= i < |ps| && ps[i].name == p.name && (rs[i].res == Sub(p.schema) || (all && p.schema == BoolSchema(true)));
        ConvPropsAt(ps, i, g);
        assert List0(o.properties) == ps;
        if rs[i].res == Sub(p.schema) {
          assert List0(o.properties)[i].name == p.name && Conv(List0(o.properties)[i].schema, g).res == Sub(p.schema);
        } else {
          assert Named(ps, p.name);
        }
      }
    }
  }

  lemma ArrayKeeps(a: ArrayRules, g: Given)
    ensures ArrayLeft(a, ArrayResidual(a, g), g)
  {
    hide Conv, ConvList, AnyResidual, AllCarriable;
    if a.prefixItems.List? { ListIff(a.prefixItems.list, g); }
  }

  lemma {:induction false} BranchesKeep(t: Type, bs: seq<Schema>, g: Given)
    ensures forall i :: 0 <= i < |FoldAllOf(t, bs, g).rest| ==> BranchLeft(t, bs, FoldAllOf(t, bs, g).rest[i], g)
    decreases |bs|
  {
    hide Conv, TypesMeet, Intersect;
    if bs != [] {
      var init, b := bs[..|bs| - 1], bs[|bs| - 1];
      BranchesKeep(t, init, g);
      IntersectIff(FoldAllOf(t, init, g).t, Conv(b, g).t);
      var before, rest := FoldAllOf(t, init, g).rest, FoldAllOf(t, bs, g).rest;
      forall j | 0 <= j < |rest| ensures BranchLeft(t, bs, rest[j], g) {
        if j < |before| {
          assert BranchLeft(t, init, before[j], g);
          var i :| 0 <= i < |init| && ((before[j] == init[i] && !TypesMeet(FoldAllOf(t, init[..i], g).t, Conv(init[i], g).t)) || Conv(init[i], g).res == Sub(before[j]));
          assert init[..i] == bs[..i] && init[i] == bs[i];
        } else {
          assert bs[..|bs| - 1] == init;
          assert (rest[j] == b && !TypesMeet(FoldAllOf(t, init, g).t, Conv(b, g).t)) || Conv(b, g).res == Sub(rest[j]);
        }
      }
    }
  }

  /** Finishing touches nothing but the two lists of branches. */
  lemma FinishKeeps(t: Type, res: Schema, s: Schema, g: Given)
    requires res.Node? && res.allOf.NoList? && res.anyOf.NoList? && s.Node?
    ensures var a := FinishAllOf(t, res, s.allOf, g);
      var r := FinishAnyOf(a.0, a.1, s.anyOf, g).1;
      && r == res.(allOf := r.allOf, anyOf := r.anyOf)
      && (r.allOf.List? && r.allOf.list != [] ==> s.allOf.List? && forall i :: 0 <= i < |r.allOf.list| ==> BranchLeft(t, s.allOf.list, r.allOf.list[i], g))
      && (r.anyOf.List? ==> r.anyOf == s.anyOf && !AnyOfCarried(a.0, s.anyOf, g))
  {
    hide FoldAllOf, FoldAnyOf, Intersect, TypesMeet, BranchLeft, UnionOf, AllCarriable;
    if s.allOf.List? { BranchesKeep(t, s.allOf.list, g); }
    if s.anyOf.List? {
      var a := FinishAllOf(t, res, s.allOf, g);
      AnyOfIff(s.anyOf.list, g);
      if FoldAnyOf(s.anyOf.list, g).Some? { IntersectIff(a.0, FoldAnyOf(s.anyOf.list, g).value); }
    }
  }

  lemma OwnKeeps(s: Schema, g: Given)
    requires s.Node?
    ensures var r, ts := NodeOwn(s, g).1, TakenKinds(s, g);
      && (TString in ts ==> StringLeft(r.str, g))
      && (TNumber in ts || TInteger in ts ==> NumberLeft(r.num))
      && (TObject in ts ==> ObjectLeft(s.obj, r.obj, g))
      && (TArray in ts ==> ArrayLeft(s.arr, r.arr, g))
      && (ts != [] ==> r.types.None?)
      && (r.enum_.Some? || r.const_.Some? ==> LiteralType(s).None?)
  {
    hide StringResidual, NumberResidual, ObjectResidual, ArrayResidual, StringLeft, NumberLeft, ObjectLeft, ArrayLeft, KindAlts, UntypedAlts, LiteralType;
    StringKeeps(s.str, g);
    NumberKeeps(s.num);
    ObjectKeeps(s.obj, g);
    ArrayKeeps(s.arr, g);
    if s.types.None? && !HasRule(s, g) { assert RuledKinds(s, g) == []; }
  }

  /** Whatever is left beside a type, even where the type takes only part of a schema, is what the type cannot say. */
  lemma KeepsOnly(s: Schema, g: Given)
    requires s.Node? && Own(s) && Conv(s, g).res.Sub?
    ensures OnlyUncarried(s, Conv(s, g).res.schema, g)
  {
    hide NodeOwn, FinishAllOf, FinishAnyOf, StringLeft, NumberLeft, ObjectLeft, ArrayLeft, BranchLeft, AnyOfCarried, TakenKinds, LiteralType;
    var own := NodeOwn(s, g);
    OwnKeeps(s, g);
    FinishKeeps(own.0, own.1, s, g);
  }

  /** A reference leaves the target's residual where there is one, and its siblings unless the draft ignores them. */
  lemma RefKeeps(s: Schema, t: Target, g: Given)
    requires s.Node? && s.unevaluated.None? && s.ref == Some(Whole(t)) && Conv(s, g).res.Sub?
    ensures var r := Conv(s, g).res.schema;
      && r.Node? && r.ref == (if t in g.kept then Some(RestOf(t)) else None)
      && r.(ref := None) == if g.overrides then EMPTY_NODE else s.(ref := None)
  {
  }
}
