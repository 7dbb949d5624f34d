/** What converting a schema goes into, and what its result depends on (lib/bun-target.js:316-525). */
module SplitParts {
  import opened Json
  import opened SplitModel
  import opened TypeAlgebra
  import opened Split
  import opened SplitRefs

  // ---------------------------------------------------------------- what a conversion depends on

  /** Converted alike, whichever of the two sets of targets is known to have a residual. */
  predicate Same(s: Schema, g: Given, k: set<Target>, l: set<Target>) { Conv(s, With(g, k)) == Conv(s, With(g, l)) }

  predicate SameProps(ps: OptProps, g: Given, k: set<Target>, l: set<Target>) {
    ps.Props? ==> forall i :: 0 <= i < |ps.list| ==> Same(ps.list[i].schema, g, k, l)
  }

  predicate SameFirst(ss: seq<Schema>, n: nat, g: Given, k: set<Target>, l: set<Target>)
    requires n <= |ss|
  {
    forall i :: 0 <= i < n ==> Same(ss[i], g, k, l)
  }

  /** The schemas an array alternative goes into. */
  predicate SameArray(r: ArrayRules, g: Given, k: set<Target>, l: set<Target>) {
    if r.prefixItems.List? then FixedTuple(r) ==> SameFirst(r.prefixItems.list, |r.prefixItems.list|, g, k, l)
    else r.items.Sub? && !r.items.schema.BoolSchema? ==> Same(r.items.schema, g, k, l)
  }

  /** Those a node's own keywords go into. */
  predicate SameOwn(s: Schema, g: Given, k: set<Target>, l: set<Target>)
    requires s.Node?
  {
    if s.enum_.Some? || s.const_.Some? then true
    else if s.types.Some? then
      KnownTypes(s.types.value) ==> (TObject in s.types.value ==> SameProps(s.obj.properties, g, k, l)) && (TArray in s.types.value ==> SameArray(s.arr, g, k, l))
    else HasRule(s, g) ==> (HasObjectRule(s.obj) ==> SameProps(s.obj.properties, g, k, l)) && (s.arr != NO_ARRAY ==> SameArray(s.arr, g, k, l))
  }

  /** The branches of an anyOf up to the first with a residual. */
  predicate SameAny(bs: seq<Schema>, g: Given, k: set<Target>, l: set<Target>) {
    exists n: nat :: n <= |bs| && SameFirst(bs, n, g, k, l) && (n < |bs| ==> n > 0 && Conv(bs[n - 1], With(g, l)).res.Sub?)
  }

  lemma {:induction false} PropsAlike(ps: seq<Prop>, g: Given, k: set<Target>, l: set<Target>)
    requires forall i :: 0 <= i < |ps| ==> Same(ps[i].schema, g, k, l)
    ensures ConvProps(ps, With(g, k)) == ConvProps(ps, With(g, l))
    decreases |ps|
  {
    hide Conv;
    if ps != [] { PropsAlike(ps[..|ps| - 1], g, k, l); }
  }

  lemma {:induction false} ListsAlike(ss: seq<Schema>, g: Given, k: set<Target>, l: set<Target>)
    requires SameFirst(ss, |ss|, g, k, l)
    ensures ConvList(ss, With(g, k)) == ConvList(ss, With(g, l))
    decreases |ss|
  {
    hide Conv;
    if ss != [] { ListsAlike(ss[..|ss| - 1], g, k, l); }
  }

  lemma ObjectsAlike(o: ObjectRules, g: Given, k: set<Target>, l: set<Target>)
    requires SameProps(o.properties, g, k, l)
    ensures ObjectAlt(o, With(g, k)) == ObjectAlt(o, With(g, l)) && ObjectResidual(o, With(g, k)) == ObjectResidual(o, With(g, l))
  {
    hide Conv, ConvProps;
    if o.properties.Props? { PropsAlike(o.properties.list, g, k, l); }
  }

  lemma ArraysAlike(r: ArrayRules, g: Given, k: set<Target>, l: set<Target>)
    requires SameArray(r, g, k, l)
    ensures ArrayAlt(r, With(g, k)) == ArrayAlt(r, With(g, l)) && ArrayResidual(r, With(g, k)) == ArrayResidual(r, With(g, l))
  {
    hide Conv, ConvList;
    if r.prefixItems.List? && FixedTuple(r) { ListsAlike(r.prefixItems.list, g, k, l); }
  }

  lemma ScalarsAlike(s: Schema, g: Given, k: set<Target>, l: set<Target>)
    requires s.Node?
    ensures StringTags(s.str, With(g, k)) == StringTags(s.str, With(g, l)) && StringResidual(s.str, With(g, k)) == StringResidual(s.str, With(g, l))
    ensures HasStringRule(s.str, With(g, k)) == HasStringRule(s.str, g) && HasRule(s, With(g, k)) == HasRule(s, g)
    ensures RuledKinds(s, With(g, k)) == RuledKinds(s, With(g, l))
  {
  }

  lemma {:induction false} KindsAlike(ts: seq<TypeName>, s: Schema, g: Given, k: set<Target>, l: set<Target>)
    requires s.Node? && (TObject in ts ==> SameProps(s.obj.properties, g, k, l)) && (TArray in ts ==> SameArray(s.arr, g, k, l))
    ensures KindAlts(ts, s, With(g, k)) == KindAlts(ts, s, With(g, l))
    decreases |ts|
  {
    hide KindAlt, Union, SameProps, SameArray;
    if ts != [] {
      KindsAlike(ts[..|ts| - 1], s, g, k, l);
      KindAlike(ts[|ts| - 1], s, g, k, l);
    }
  }

  lemma KindAlike(t: TypeName, s: Schema, g: Given, k: set<Target>, l: set<Target>)
    requires s.Node? && (t == TObject ==> SameProps(s.obj.properties, g, k, l)) && (t == TArray ==> SameArray(s.arr, g, k, l))
    ensures KindAlt(t, s, With(g, k)) == KindAlt(t, s, With(g, l))
  {
    hide ObjectAlt, ArrayAlt, StringTags, SameProps, SameArray;
    ScalarsAlike(s, g, k, l);
    if t == TObject { ObjectsAlike(s.obj, g, k, l); }
    if t == TArray { ArraysAlike(s.arr, g, k, l); }
  }

  lemma ResidualsAlike(ts: seq<TypeName>, s: Schema, g: Given, k: set<Target>, l: set<Target>)
    requires s.Node? && (TObject in ts ==> SameProps(s.obj.properties, g, k, l)) && (TArray in ts ==> SameArray(s.arr, g, k, l))
    ensures KindResidual(ts, s, With(g, k)) == KindResidual(ts, s, With(g, l))
  {
    hide ObjectResidual, ArrayResidual, StringResidual, SameProps, SameArray;
    ScalarsAlike(s, g, k, l);
    if TObject in ts { ObjectsAlike(s.obj, g, k, l); }
    if TArray in ts { ArraysAlike(s.arr, g, k, l); }
  }

  lemma RuledAlike(s: Schema, g: Given, k: set<Target>, l: set<Target>)
    requires s.Node? && (HasObjectRule(s.obj) ==> SameProps(s.obj.properties, g, k, l)) && (s.arr != NO_ARRAY ==> SameArray(s.arr, g, k, l))
    ensures UntypedAlts(s, With(g, k)) == UntypedAlts(s, With(g, l))
    ensures KindResidual(RuledKinds(s, With(g, k)), s, With(g, k)) == KindResidual(RuledKinds(s, With(g, l)), s, With(g, l))
  {
    hide ObjectAlt, ArrayAlt, StringTags, KindResidual, SameProps, SameArray;
    ScalarsAlike(s, g, k, l);
    if HasObjectRule(s.obj) { ObjectsAlike(s.obj, g, k, l); }
    if s.arr != NO_ARRAY { ArraysAlike(s.arr, g, k, l); }
    RuledNames(s, With(g, k));
    ResidualsAlike(RuledKinds(s, With(g, k)), s, g, k, l);
  }

  lemma RuledNames(s: Schema, g: Given)
    requires s.Node?
    ensures (TObject in RuledKinds(s, g) <==> HasObjectRule(s.obj)) && (TArray in RuledKinds(s, g) <==> s.arr != NO_ARRAY)
  {
  }

  lemma OwnAlike(s: Schema, g: Given, k: set<Target>, l: set<Target>)
    requires s.Node? && SameOwn(s, g, k, l)
    ensures NodeOwn(s, With(g, k)) == NodeOwn(s, With(g, l))
  {
    hide KindAlts, KindResidual, UntypedAlts, RuledKinds, LiteralType, SameProps, SameArray;
    ScalarsAlike(s, g, k, l);
    ScalarsAlike(s, g, l, k);
    if s.enum_.None? && s.const_.None? {
      if s.types.Some? {
        if KnownTypes(s.types.value) {
          KindsAlike(s.types.value, s, g, k, l);
          ResidualsAlike(s.types.value, s, g, k, l);
        }
      } else if HasRule(s, g) {
        RuledAlike(s, g, k, l);
      }
    }
  }

  lemma {:induction false} AllAlike(t: Type, bs: seq<Schema>, g: Given, k: set<Target>, l: set<Target>)
    requires SameFirst(bs, |bs|, g, k, l)
    ensures FoldAllOf(t, bs, With(g, k)) == FoldAllOf(t, bs, With(g, l))
    decreases |bs|
  {
    hide Conv, Intersect;
    if bs != [] { AllAlike(t, bs[..|bs| - 1], g, k, l); }
  }

  lemma {:induction false} FirstAlike(bs: seq<Schema>, n: nat, g: Given, k: set<Target>, l: set<Target>)
    requires n <= |bs| && SameFirst(bs, n, g, k, l)
    ensures FoldAnyOf(bs[..n], With(g, k)) == FoldAnyOf(bs[..n], With(g, l))
    decreases n
  {
    hide Conv, Union;
    if n > 0 {
      FirstAlike(bs, n - 1, g, k, l);
      assert bs[..n][..n - 1] == bs[..n - 1];
    }
  }

  /** Past a branch with a residual nothing changes. */
  lemma {:induction false} AnyStuck(bs: seq<Schema>, n: nat, g: Given)
    requires 0 < n <= |bs| && Conv(bs[n - 1], g).res.Sub?
    ensures FoldAnyOf(bs, g).None?
    decreases |bs|
  {
    hide Conv, Union;
    if n < |bs| { AnyStuck(bs[..|bs| - 1], n, g); }
  }

  lemma AnyAlike(bs: seq<Schema>, g: Given, k: set<Target>, l: set<Target>)
    requires SameAny(bs, g, k, l)
    ensures FoldAnyOf(bs, With(g, k)) == FoldAnyOf(bs, With(g, l))
  {
    hide Conv, FoldAnyOf;
    var n: nat :| n <= |bs| && SameFirst(bs, n, g, k, l) && (n < |bs| ==> n > 0 && Conv(bs[n - 1], With(g, l)).res.Sub?);
    if n < |bs| {
      AnyStuck(bs, n, With(g, k));
      AnyStuck(bs, n, With(g, l));
    } else {
      FirstAlike(bs, n, g, k, l);
      assert bs[..n] == bs;
    }
  }

  /** A node whose own parts, and all branches it looks at, are converted alike. */
  lemma NodeAlike(s: Schema, g: Given, k: set<Target>, l: set<Target>)
    requires s.Node? && Own(s) && SameOwn(s, g, k, l)
    requires s.allOf.List? ==> SameFirst(s.allOf.list, |s.allOf.list|, g, k, l)
    requires s.anyOf.List? ==> SameAny(s.anyOf.list, g, k, l)
    ensures Same(s, g, k, l)
  {
    hide Conv, NodeOwn, SameOwn, SameFirst, SameAny, FoldAllOf, FoldAnyOf, Intersect;
    OwnAlike(s, g, k, l);
    var own := NodeOwn(s, With(g, k));
    if s.allOf.List? { AllAlike(own.0, s.allOf.list, g, k, l); }
    var all := FinishAllOf(own.0, own.1, s.allOf, With(g, k));
    assert all == FinishAllOf(own.0, own.1, s.allOf, With(g, l));
    if s.anyOf.List? { AnyAlike(s.anyOf.list, g, k, l); }
    assert FinishAnyOf(all.0, all.1, s.anyOf, With(g, k)) == FinishAnyOf(all.0, all.1, s.anyOf, With(g, l));
    NodeConv(s, With(g, k));
    NodeConv(s, With(g, l));
  }

  lemma NodeConv(s: Schema, g: Given)
    requires s.Node? && Own(s)
    ensures Conv(s, g) ==
            if s == EMPTY_NODE then Split(Universal(), NoSchema)
            else
              var own := NodeOwn(s, g);
              var all := FinishAllOf(own.0, own.1, s.allOf, g);
              var any := FinishAnyOf(all.0, all.1, s.anyOf, g);
              Split(any.0, AsResidual(any.1))
  {
    hide NodeOwn, FinishAllOf, FinishAnyOf;
  }

  // ---------------------------------------------------------------- what the conversion goes into

  function SchemasOf(ps: OptProps): seq<Schema> {
    if ps.Props? then seq(|ps.list|, i requires 0 <= i < |ps.list| => ps.list[i].schema) else []
  }

  function ArrayParts(r: ArrayRules): seq<Schema> {
    if r.prefixItems.List? then (if FixedTuple(r) then r.prefixItems.list else [])
    else if r.items.Sub? && !r.items.schema.BoolSchema? then [r.items.schema]
    else []
  }

  /** For each named type, in order. */
  function KindParts(ts: seq<TypeName>, s: Schema): seq<Schema>
    requires s.Node?
  {
    if ts == [] then []
    else
      KindParts(ts[..|ts| - 1], s) + match ts[|ts| - 1] case TObject => SchemasOf(s.obj.properties) case TArray => ArrayParts(s.arr) case _ => []
  }

  /** The schemas that a node's own keywords go into, before allOf and anyOf. */
  function OwnParts(s: Schema, g: Given): seq<Schema>
    requires s.Node?
  {
    if s.enum_.Some? || s.const_.Some? then []
    else if s.types.Some? then (if KnownTypes(s.types.value) then KindParts(s.types.value, s) else [])
    else if HasRule(s, g) then (if HasObjectRule(s.obj) then SchemasOf(s.obj.properties) else []) + (if s.arr != NO_ARRAY then ArrayParts(s.arr) else [])
    else []
  }

  function ListOf(ss: OptList): seq<Schema> { if ss.List? then ss.list else [] }

  predicate AllIn(xs: seq<Schema>, ys: seq<Schema>) { forall i :: 0 <= i < |xs| ==> xs[i] in ys }

  lemma {:induction false} KindPartsHold(ts: seq<TypeName>, s: Schema)
    requires s.Node?
    ensures TObject in ts ==> AllIn(SchemasOf(s.obj.properties), KindParts(ts, s))
    ensures TArray in ts ==> AllIn(ArrayParts(s.arr), KindParts(ts, s))
    decreases |ts|
  {
    if ts != [] {
      KindPartsHold(ts[..|ts| - 1], s);
      assert ts == ts[..|ts| - 1] + [ts[|ts| - 1]];
    }
  }

  lemma PartsSame(xs: seq<Schema>, ys: seq<Schema>, g: Given, k: set<Target>, l: set<Target>)
    requires AllIn(xs, ys) && SameFirst(ys, |ys|, g, k, l)
    ensures SameFirst(xs, |xs|, g, k, l)
  {
    hide Same;
    forall i | 0 <= i < |xs| ensures Same(xs[i], g, k, l) {
      assert xs[i] in ys;
      var j :| 0 <= j < |ys| && ys[j] == xs[i];
    }
  }

  lemma ObjectParts(o: ObjectRules, g: Given, k: set<Target>, l: set<Target>)
    requires SameFirst(SchemasOf(o.properties), |SchemasOf(o.properties)|, g, k, l)
    ensures SameProps(o.properties, g, k, l)
  {
    hide Same;
    assert o.properties.Props? ==> forall i :: 0 <= i < |o.properties.list| ==> SchemasOf(o.properties)[i] == o.properties.list[i].schema;
  }

  lemma ArraysSame(r: ArrayRules, g: Given, k: set<Target>, l: set<Target>)
    requires SameFirst(ArrayParts(r), |ArrayParts(r)|, g, k, l)
    ensures SameArray(r, g, k, l)
  {
    hide Same;
    if r.prefixItems.NoList? && r.items.Sub? && !r.items.schema.BoolSchema? { assert ArrayParts(r)[0] == r.items.schema; }
  }

  lemma OwnPartsSame(s: Schema, g: Given, k: set<Target>, l: set<Target>)
    requires s.Node? && SameFirst(OwnParts(s, g), |OwnParts(s, g)|, g, k, l)
    ensures SameOwn(s, g, k, l)
  {
    hide SameFirst, SameProps, SameArray, KindParts, HasRule, ArrayParts, SchemasOf;
    var own, xs, ys := OwnParts(s, g), SchemasOf(s.obj.properties), ArrayParts(s.arr);
    if s.enum_.None? && s.const_.None? && s.types.Some? { KindPartsHold(s.types.value, s); }
    if AllIn(xs, own) {
      PartsSame(xs, own, g, k, l);
      ObjectParts(s.obj, g, k, l);
    }
    if AllIn(ys, own) {
      PartsSame(ys, own, g, k, l);
      ArraysSame(s.arr, g, k, l);
    }
  }

  lemma {:induction false} KindPartsBelow(ts: seq<TypeName>, s: Schema)
    requires s.Node?
    ensures forall i :: 0 <= i < |KindParts(ts, s)| ==> KindParts(ts, s)[i] in SchemasOf(s.obj.properties) || KindParts(ts, s)[i] in ArrayParts(s.arr)
    decreases |ts|
  {
    hide SchemasOf, ArrayParts;
    if ts != [] { KindPartsBelow(ts[..|ts| - 1], s); }
  }

  lemma PropertyBelow(s: Schema, x: Schema, rank: Target -> nat, r: nat, low: set<Target>)
    requires s.Node? && x in SchemasOf(s.obj.properties)
    ensures x < s && (Strata(s, rank, r, low) ==> Strata(x, rank, r, low))
  {
    var ps := s.obj.properties;
    var i :| 0 <= i < |ps.list| && ps.list[i].schema == x;
    assert s.obj < s && ps < s.obj && ps.list[i] < ps && x < ps.list[i];
    hide Strata;
    if Strata(s, rank, r, low) { StrataParts(s, rank, r, low); }
  }

  lemma ElementBelow(s: Schema, x: Schema, rank: Target -> nat, r: nat, low: set<Target>)
    requires s.Node? && x in ArrayParts(s.arr)
    ensures x < s && (Strata(s, rank, r, low) ==> Strata(x, rank, r, low))
  {
    assert s.arr < s && s.arr.prefixItems < s.arr && s.arr.items < s.arr;
    if s.arr.prefixItems.List? {
      var i :| 0 <= i < |s.arr.prefixItems.list| && s.arr.prefixItems.list[i] == x;
      assert x < s.arr.prefixItems;
    } else {
      assert x < s.arr.items;
    }
    hide Strata;
    if Strata(s, rank, r, low) { StrataParts(s, rank, r, low); }
  }

  lemma StrataParts(s: Schema, rank: Target -> nat, r: nat, low: set<Target>)
    requires s.Node? && Strata(s, rank, r, low)
    ensures StrataProps(s.obj.properties, rank, r, low) && StrataList(s.arr.prefixItems, rank, r, low)
    ensures s.arr.items.Sub? ==> Strata(s.arr.items.schema, rank, r, low)
  {
  }

  lemma PartsSmaller(s: Schema, g: Given)
    requires s.Node?
    ensures forall i :: 0 <= i < |OwnParts(s, g)| ==> OwnParts(s, g)[i] < s
    ensures forall i :: 0 <= i < |ListOf(s.allOf)| ==> ListOf(s.allOf)[i] < s
    ensures forall i :: 0 <= i < |ListOf(s.anyOf)| ==> ListOf(s.anyOf)[i] < s
  {
    hide OwnParts, Strata;
    PartsBelow(s, g, t => 0, 0, {});
  }

  /** What is gone into is part of the schema, and its references are the schema's. */
  lemma PartsBelow(s: Schema, g: Given, rank: Target -> nat, r: nat, low: set<Target>)
    requires s.Node?
    ensures forall i :: 0 <= i < |OwnParts(s, g)| ==> OwnParts(s, g)[i] < s && (Strata(s, rank, r, low) ==> Strata(OwnParts(s, g)[i], rank, r, low))
    ensures forall i :: 0 <= i < |ListOf(s.allOf)| ==> ListOf(s.allOf)[i] < s && (Strata(s, rank, r, low) ==> Strata(ListOf(s.allOf)[i], rank, r, low))
    ensures forall i :: 0 <= i < |ListOf(s.anyOf)| ==> ListOf(s.anyOf)[i] < s && (Strata(s, rank, r, low) ==> Strata(ListOf(s.anyOf)[i], rank, r, low))
  {
    var own := OwnParts(s, g);
    forall x | x in SchemasOf(s.obj.properties) ensures x < s && (Strata(s, rank, r, low) ==> Strata(x, rank, r, low)) {
      PropertyBelow(s, x, rank, r, low);
    }
    forall x | x in ArrayParts(s.arr) ensures x < s && (Strata(s, rank, r, low) ==> Strata(x, rank, r, low)) {
      ElementBelow(s, x, rank, r, low);
    }
    if s.types.Some? { KindPartsBelow(s.types.value, s); }
    hide Strata, SchemasOf, ArrayParts, KindParts, HasRule;
    forall i | 0 <= i < |own| ensures own[i] in SchemasOf(s.obj.properties) || own[i] in ArrayParts(s.arr) {
    }
  }

  // ---------------------------------------------------------------- references in a schema

  /** Every reference leads to a target of no higher rank, and to one of `low` only if it is of lower rank. */
  ghost predicate Strata(s: Schema, rank: Target -> nat, r: nat, low: set<Target>)
    decreases s, 1
  {
    s.Node? ==>
      && (s.ref.Some? ==> rank(s.ref.value.t) <= r && (s.ref.value.t in low ==> rank(s.ref.value.t) < r))
      && StrataProps(s.obj.properties, rank, r, low) && (s.arr.items.Sub? ==> Strata(s.arr.items.schema, rank, r, low))
      && StrataList(s.arr.prefixItems, rank, r, low) && StrataList(s.allOf, rank, r, low) && StrataList(s.anyOf, rank, r, low)
  }

  ghost predicate StrataProps(ps: OptProps, rank: Target -> nat, r: nat, low: set<Target>)
    decreases ps, 0
  {
    ps.Props? ==> forall i :: 0 <= i < |ps.list| ==> Strata(ps.list[i].schema, rank, r, low)
  }

  ghost predicate StrataList(ss: OptList, rank: Target -> nat, r: nat, low: set<Target>)
    decreases ss, 0
  {
    ss.List? ==> forall i :: 0 <= i < |ss.list| ==> Strata(ss.list[i], rank, r, low)
  }

  /** No reference on a cycle leads to a target of `low`. */
  ghost predicate Stratified(d: Document, rank: Target -> nat, low: set<Target>) {
    forall t :: t in d ==> Strata(d[t], rank, rank(t), low)
  }

  /** The set is that of the targets that have a residual when it is known which have. */
  predicate Settles(d: Document, g: Given, low: set<Target>) {
    forall t :: t in d ==> (t in low <==> Conv(d[t], With(g, low)).res.Sub?)
  }
}
