/**
 The split of a schema with local references (`resolveRef`, `alias` and the end of `schemaToBunType` in
 lib/bun-target.js). A reference becomes a named type, with the target's residual kept beside it. What a
 reference stands for is read with fuel spent on following references, as the schema's own are.
 */
module SplitRefs {
  import opened Json
  import opened SplitModel
  import opened TypeAlgebra
  import opened Split

  /** The schema under `Root`, and every definition a pointer reaches. */
  type Document = map<Target, Schema>

  datatype Entry = Entry(t: Type, res: OptSchema)

  /** What is written for the root and for each definition the split refers to. */
  type Table = map<Target, Entry>

  function With(g: Given, k: set<Target>): Given { g.(kept := k) }

  // ---------------------------------------------------------------- what references stand for

  /** A definition stands for its schema, and what is kept of it for its residual. */
  ghost predicate RefHolds(d: Document, tab: Table, r: RefTo, v: Json, w: World) {
    match r
    case Whole(t) => t in d && Accepts(d[t], v, w)
    case RestOf(t) => t in tab ==> ResidualOk(tab[t].res, v, w)
  }

  /** A name stands for what was written under it; one never written, for the target. */
  ghost predicate NameHolds(d: Document, tab: Table, t: Target, v: Json, w: World) {
    if t in tab then Inhabits(v, tab[t].t, w) else t in d && Accepts(d[t], v, w)
  }

  /** References followed at most `f` times in a row; what lies beyond is taken to accept, or to refuse, everything. */
  ghost function Level(w: World, d: Document, tab: Table, f: nat, beyond: bool): World {
    if f == 0 then w.(refOk := (r: RefTo, v: Json) => beyond, aliasOk := (t: Target, v: Json) => beyond)
    else
      var u := Level(w, d, tab, f - 1, beyond);
      w.(refOk := (r: RefTo, v: Json) => RefHolds(d, tab, r, v, u), aliasOk := (t: Target, v: Json) => NameHolds(d, tab, t, v, u))
  }

  /** Each entry is what some conversions of its schema gave, whatever they took to have a residual. */
  ghost predicate Built(d: Document, g: Given, tab: Table) {
    forall t :: t in tab ==> t in d && exists k, l :: tab[t] == Entry(Conv(d[t], With(g, k)).t, Conv(d[t], With(g, l)).res)
  }

  /** One level stands on the one below. */
  lemma LevelStep(w: World, d: Document, tab: Table, f: nat, beyond: bool)
    ensures var u, v := Level(w, d, tab, f, beyond), Level(w, d, tab, f + 1, beyond);
            && (forall r, x :: v.refOk(r, x) <==> RefHolds(d, tab, r, x, u))
            && (forall t, x :: v.aliasOk(t, x) <==> NameHolds(d, tab, t, x, u))
  {
    hide RefHolds, NameHolds;
  }

  lemma LevelReads(w: World, d: Document, tab: Table, f: nat, beyond: bool, g: Given)
    requires ReadsOk(w, g)
    ensures ReadsOk(Level(w, d, tab, f, beyond), g)
  {
  }

  /** Named types and residuals never refuse what a reference accepts. */
  lemma {:induction false} LevelSound(w: World, d: Document, tab: Table, f: nat, beyond: bool, g: Given)
    requires ReadsOk(w, g) && Built(d, g, tab)
    ensures RefsSound(Level(w, d, tab, f, beyond))
    decreases f
  {
    hide Accepts, Inhabits, ReadsOk, Conv;
    if f > 0 {
      var u := Level(w, d, tab, f - 1, beyond);
      LevelSound(w, d, tab, f - 1, beyond, g);
      LevelStep(w, d, tab, f - 1, beyond);
      forall t, v | t in d && t in tab && Accepts(d[t], v, u) ensures Inhabits(v, tab[t].t, u) && ResidualOk(tab[t].res, v, u) {
        var k, l :| tab[t] == Entry(Conv(d[t], With(g, k)).t, Conv(d[t], With(g, l)).res);
        LevelOk(w, d, tab, f - 1, beyond, g, k);
        LevelOk(w, d, tab, f - 1, beyond, g, l);
        ConvExact(d[t], v, u, With(g, k));
        ConvExact(d[t], v, u, With(g, l));
      }
      forall t, v | RefHolds(d, tab, Whole(t), v, u) ensures NameHolds(d, tab, t, v, u) && RefHolds(d, tab, RestOf(t), v, u) {
      }
    }
  }

  lemma LevelOk(w: World, d: Document, tab: Table, f: nat, beyond: bool, g: Given, k: set<Target>)
    requires ReadsOk(w, g) && RefsSound(Level(w, d, tab, f, beyond))
    ensures WorldOk(Level(w, d, tab, f, beyond), With(g, k))
  {
    LevelReads(w, d, tab, f, beyond, g);
  }

  /** Whatever the references, cyclic ones included, the split refuses nothing that the schema accepts. */
  lemma RefsKeepSound(w: World, d: Document, tab: Table, f: nat, beyond: bool, g: Given, v: Json)
    requires ReadsOk(w, g) && Built(d, g, tab) && Root in tab
    requires Accepts(d[Root], v, Level(w, d, tab, f, beyond))
    ensures Inhabits(v, tab[Root].t, Level(w, d, tab, f, beyond)) && ResidualOk(tab[Root].res, v, Level(w, d, tab, f, beyond))
  {
    hide Accepts, Inhabits, ReadsOk, Conv;
    LevelSound(w, d, tab, f, beyond, g);
    LevelSound(w, d, tab, f + 1, beyond, g);
    LevelStep(w, d, tab, f, beyond);
    assert Level(w, d, tab, f + 1, beyond).refOk(Whole(Root), v);
    assert Level(w, d, tab, f + 1, beyond).refOk(RestOf(Root), v) && Level(w, d, tab, f + 1, beyond).aliasOk(Root, v);
  }

  // ---------------------------------------------------------------- when nothing is lost

  function KeptOf(tab: Table): set<Target> { set t | t in tab && tab[t].res.Sub? }

  /** Each entry is what converting its schema gives once it is known which targets have a residual. */
  predicate Consistent(d: Document, g: Given, tab: Table) {
    forall t :: t in tab ==> t in d && Split(tab[t].t, tab[t].res) == Conv(d[t], With(g, KeptOf(tab)))
  }

  /** Closed objects declare what they require, and references lead to schemas. */
  ghost predicate Plain(s: Schema)
    decreases s, 1
  {
    s.Node? ==>
      if s.ref.Some? then s.ref.value.Whole?
      else
        && StrictDeclared(s.obj) && PlainProps(s.obj.properties)
        && (s.arr.items.Sub? ==> Plain(s.arr.items.schema)) && PlainList(s.arr.prefixItems)
        && PlainList(s.allOf) && PlainList(s.anyOf)
  }

  ghost predicate PlainProps(ps: OptProps)
    decreases ps, 0
  {
    ps.Props? ==> forall i :: 0 <= i < |ps.list| ==> Plain(ps.list[i].schema)
  }

  ghost predicate PlainList(ss: OptList)
    decreases ss, 0
  {
    ss.List? ==> forall i :: 0 <= i < |ss.list| ==> Plain(ss.list[i])
  }

  lemma {:induction false} PlainDeclared(s: Schema, w: World, g: Given)
    requires Plain(s) && forall t :: RefExact(t, w, g)
    ensures Declared(s, w, g)
    decreases s, 1
  {
    hide RefExact;
    if s.Node? && s.ref.None? {
      if s.obj.properties.Props? {
        forall i | 0 <= i < |s.obj.properties.list| ensures Declared(s.obj.properties.list[i].schema, w, g) {
          PlainDeclared(s.obj.properties.list[i].schema, w, g);
        }
      }
      if s.arr.items.Sub? { PlainDeclared(s.arr.items.schema, w, g); }
      PlainListDeclared(s.arr.prefixItems, w, g);
      PlainListDeclared(s.allOf, w, g);
      PlainListDeclared(s.anyOf, w, g);
    }
  }

  lemma {:induction false} PlainListDeclared(ss: OptList, w: World, g: Given)
    requires PlainList(ss) && forall t :: RefExact(t, w, g)
    ensures ListDeclared(ss, w, g)
    decreases ss, 0
  {
    hide RefExact;
    if ss.List? {
      forall i | 0 <= i < |ss.list| ensures Declared(ss.list[i], w, g) { PlainDeclared(ss.list[i], w, g); }
    }
  }

  lemma {:induction false} LevelExact(w: World, d: Document, tab: Table, f: nat, beyond: bool, g: Given)
    requires ReadsOk(w, g) && Consistent(d, g, tab) && forall t :: t in tab ==> Plain(d[t])
    ensures forall t :: RefExact(t, Level(w, d, tab, f, beyond), With(g, KeptOf(tab)))
    decreases f
  {
    hide Accepts, Inhabits, ReadsOk, Conv, Plain;
    if f > 0 {
      var u, k := Level(w, d, tab, f - 1, beyond), KeptOf(tab);
      ConsistentBuilt(d, g, tab);
      LevelExact(w, d, tab, f - 1, beyond, g);
      LevelSound(w, d, tab, f - 1, beyond, g);
      LevelOk(w, d, tab, f - 1, beyond, g, k);
      LevelStep(w, d, tab, f - 1, beyond);
      forall t, v | t in tab && Inhabits(v, tab[t].t, u) && (t in k ==> ResidualOk(tab[t].res, v, u)) ensures Accepts(d[t], v, u) {
        PlainDeclared(d[t], u, With(g, k));
        ConvExact(d[t], v, u, With(g, k));
      }
      forall t, v | NameHolds(d, tab, t, v, u) && (t in k ==> RefHolds(d, tab, RestOf(t), v, u)) ensures RefHolds(d, tab, Whole(t), v, u) {
      }
    }
  }

  lemma ConsistentBuilt(d: Document, g: Given, tab: Table)
    requires Consistent(d, g, tab)
    ensures Built(d, g, tab)
  {
    hide Conv;
    forall t | t in tab ensures exists k, l :: tab[t] == Entry(Conv(d[t], With(g, k)).t, Conv(d[t], With(g, l)).res) {
      var k := KeptOf(tab);
      assert tab[t] == Entry(Conv(d[t], With(g, k)).t, Conv(d[t], With(g, k)).res);
    }
  }

  /** Cyclic references included, a value has the type and satisfies the residual exactly when the schema accepts it. */
  lemma RefsKeepExact(w: World, d: Document, tab: Table, f: nat, beyond: bool, g: Given, v: Json)
    requires ReadsOk(w, g) && Root in tab && Consistent(d, g, tab) && forall t :: t in tab ==> Plain(d[t])
    ensures var u := Level(w, d, tab, f, beyond);
            Inhabits(v, tab[Root].t, u) && ResidualOk(tab[Root].res, v, u) <==> Accepts(d[Root], v, u)
  {
    hide Accepts, Inhabits, ReadsOk, Conv, Plain;
    ConsistentBuilt(d, g, tab);
    if Accepts(d[Root], v, Level(w, d, tab, f, beyond)) { RefsKeepSound(w, d, tab, f, beyond, g, v); }
    LevelExact(w, d, tab, f + 1, beyond, g);
    LevelStep(w, d, tab, f, beyond);
    var x := Level(w, d, tab, f + 1, beyond);
    assert RefExact(Root, x, With(g, KeptOf(tab)));
    assert x.aliasOk(Root, v) <==> Inhabits(v, tab[Root].t, Level(w, d, tab, f, beyond));
    assert x.refOk(RestOf(Root), v) <==> ResidualOk(tab[Root].res, v, Level(w, d, tab, f, beyond));
    assert x.refOk(Whole(Root), v) <==> Accepts(d[Root], v, Level(w, d, tab, f, beyond));
  }

  // ---------------------------------------------------------------- the residual as a document of its own

  /** In the residual `#` is the residual: a schema's own reference to the root, copied there, means that too. */
  ghost function Written(w: World, d: Document, tab: Table, f: nat, beyond: bool): World {
    if f == 0 then w.(refOk := (r: RefTo, v: Json) => beyond, aliasOk := (t: Target, v: Json) => beyond)
    else
      var u := Written(w, d, tab, f - 1, beyond);
      w.(refOk := (r: RefTo, v: Json) => RefHolds(d, tab, if r == Whole(Root) then RestOf(Root) else r, v, u),
         aliasOk := (t: Target, v: Json) => NameHolds(d, tab, t, v, u))
  }

  /** Nowhere in the schema a reference to the root. */
  predicate NoRoot(s: Schema)
    decreases s, 1
  {
    s.Node? ==>
      && s.ref != Some(Whole(Root)) && NoRootProps(s.obj.properties) && NoRootProps(s.obj.patterns)
      && (s.obj.additional.Sub? ==> NoRoot(s.obj.additional.schema))
      && (s.arr.items.Sub? ==> NoRoot(s.arr.items.schema)) && NoRootList(s.arr.prefixItems)
      && NoRootList(s.allOf) && NoRootList(s.anyOf)
  }

  predicate NoRootProps(ps: OptProps)
    decreases ps, 0
  {
    ps.Props? ==> forall i :: 0 <= i < |ps.list| ==> NoRoot(ps.list[i].schema)
  }

  predicate NoRootList(ss: OptList)
    decreases ss, 0
  {
    ss.List? ==> forall i :: 0 <= i < |ss.list| ==> NoRoot(ss.list[i])
  }

  /** The same but for references to the root. */
  ghost predicate AlikeButRoot(a: World, b: World) {
    b == a.(refOk := b.refOk, aliasOk := b.aliasOk) && forall r, v :: r != Whole(Root) ==> a.refOk(r, v) == b.refOk(r, v)
  }

  lemma {:induction false} AcceptsAlike(s: Schema, v: Json, a: World, b: World)
    requires NoRoot(s) && AlikeButRoot(a, b)
    ensures Accepts(s, v, a) <==> Accepts(s, v, b)
    decreases s, 1
  {
    hide AlikeButRoot, NoRootProps, NoRootList, ObjectOk, ArrayOk, All, Some_, StringOk, NumberOk;
    if s.Node? {
      AlikeRules(s, v, a, b);
      if v.Obj? { ObjectAlike(s.obj, v.m, a, b); }
      if v.Arr? { ArrayAlike(s.arr, v.a, a, b); }
      assert KindRulesOk(s, v, a) == KindRulesOk(s, v, b);
      ListAlike(s.allOf, v, a, b);
      ListAlike(s.anyOf, v, a, b);
    }
  }

  lemma AlikeRules(s: Schema, v: Json, a: World, b: World)
    requires s.Node? && s.ref != Some(Whole(Root)) && AlikeButRoot(a, b)
    ensures ScalarKeywordsOk(s, v, a) == ScalarKeywordsOk(s, v, b) && a.overrides == b.overrides
    ensures v.Str? ==> StringOk(s.str, v.s, a) == StringOk(s.str, v.s, b)
    ensures s.ref.Some? ==> a.refOk(s.ref.value, v) == b.refOk(s.ref.value, v)
  {
  }

  lemma {:induction false} ObjectAlike(o: ObjectRules, m: map<string, Json>, a: World, b: World)
    requires NoRootProps(o.properties) && NoRootProps(o.patterns) && (o.additional.Sub? ==> NoRoot(o.additional.schema)) && AlikeButRoot(a, b)
    ensures ObjectOk(o, m, a) <==> ObjectOk(o, m, b)
    decreases o, 0
  {
    hide Accepts, NoRoot;
    if o.properties.Props? {
      forall i, k | 0 <= i < |o.properties.list| && k in m ensures Accepts(o.properties.list[i].schema, m[k], a) == Accepts(o.properties.list[i].schema, m[k], b) {
        AcceptsAlike(o.properties.list[i].schema, m[k], a, b);
      }
    }
    if o.patterns.Props? {
      forall i, k | 0 <= i < |o.patterns.list| && k in m ensures Accepts(o.patterns.list[i].schema, m[k], a) == Accepts(o.patterns.list[i].schema, m[k], b) {
        AcceptsAlike(o.patterns.list[i].schema, m[k], a, b);
      }
    }
    if o.additional.Sub? {
      forall k | k in m ensures Accepts(o.additional.schema, m[k], a) == Accepts(o.additional.schema, m[k], b) {
        AcceptsAlike(o.additional.schema, m[k], a, b);
      }
    }
    ObjectParts(o, m, a, b);
  }

  lemma ObjectParts(o: ObjectRules, m: map<string, Json>, a: World, b: World)
    requires AlikeButRoot(a, b)
    requires o.properties.Props? ==> forall i, k :: 0 <= i < |o.properties.list| && k in m ==> Accepts(o.properties.list[i].schema, m[k], a) == Accepts(o.properties.list[i].schema, m[k], b)
    requires o.patterns.Props? ==> forall i, k :: 0 <= i < |o.patterns.list| && k in m ==> Accepts(o.patterns.list[i].schema, m[k], a) == Accepts(o.patterns.list[i].schema, m[k], b)
    requires o.additional.Sub? ==> forall k :: k in m ==> Accepts(o.additional.schema, m[k], a) == Accepts(o.additional.schema, m[k], b)
    ensures ObjectOk(o, m, a) <==> ObjectOk(o, m, b)
  {
    hide Accepts;
    assert a.unicodeMatch == b.unicodeMatch;
    assert forall k :: Additional(o, k, a) == Additional(o, k, b);
  }

  lemma {:induction false} ArrayAlike(r: ArrayRules, l: seq<Json>, a: World, b: World)
    requires NoRootList(r.prefixItems) && (r.items.Sub? ==> NoRoot(r.items.schema)) && AlikeButRoot(a, b)
    ensures ArrayOk(r, l, a) <==> ArrayOk(r, l, b)
    decreases r, 0
  {
    hide Accepts, NoRoot, AlikeButRoot;
    if r.prefixItems.List? {
      forall i | 0 <= i < |r.prefixItems.list| && i < |l| ensures Accepts(r.prefixItems.list[i], l[i], a) == Accepts(r.prefixItems.list[i], l[i], b) {
        AcceptsAlike(r.prefixItems.list[i], l[i], a, b);
      }
    }
    if r.items.Sub? {
      forall i | 0 <= i < |l| ensures Accepts(r.items.schema, l[i], a) == Accepts(r.items.schema, l[i], b) {
        AcceptsAlike(r.items.schema, l[i], a, b);
      }
    }
  }

  lemma {:induction false} ListAlike(ss: OptList, v: Json, a: World, b: World)
    requires NoRootList(ss) && AlikeButRoot(a, b)
    ensures (All(ss, v, a) <==> All(ss, v, b)) && (Some_(ss, v, a) <==> Some_(ss, v, b))
    decreases ss, 0
  {
    hide Accepts, NoRoot, AlikeButRoot;
    if ss.List? {
      forall i | 0 <= i < |ss.list| ensures Accepts(ss.list[i], v, a) == Accepts(ss.list[i], v, b) { AcceptsAlike(ss.list[i], v, a, b); }
    }
  }

  /** Neither what is kept nor a definition, which travels with it whole, refers to the root. */
  ghost predicate RootFree(d: Document, tab: Table) {
    (forall t :: t in d && t != Root ==> NoRoot(d[t])) && forall t :: t in tab && tab[t].res.Sub? ==> NoRoot(tab[t].res.schema)
  }

  lemma {:induction false} WrittenAlike(w: World, d: Document, tab: Table, f: nat, beyond: bool)
    requires RootFree(d, tab)
    ensures AlikeButRoot(Level(w, d, tab, f, beyond), Written(w, d, tab, f, beyond))
    decreases f
  {
    hide Accepts, Inhabits, NoRoot;
    if f > 0 {
      WrittenAlike(w, d, tab, f - 1, beyond);
      var a, b := Level(w, d, tab, f - 1, beyond), Written(w, d, tab, f - 1, beyond);
      forall r, v | r != Whole(Root) ensures RefHolds(d, tab, r, v, a) == RefHolds(d, tab, r, v, b) {
        if r.Whole? && r.t in d {
          AcceptsAlike(d[r.t], v, a, b);
        } else if r.RestOf? && r.t in tab && tab[r.t].res.Sub? {
          AcceptsAlike(tab[r.t].res.schema, v, a, b);
        }
      }
    }
  }

  /** As written, the residual a document of its own, the split is exact where nothing copied refers to the root. */
  lemma WrittenExact(w: World, d: Document, tab: Table, f: nat, beyond: bool, g: Given, v: Json)
    requires ReadsOk(w, g) && Root in tab && Consistent(d, g, tab) && RootFree(d, tab) && forall t :: t in tab ==> Plain(d[t])
    ensures Inhabits(v, tab[Root].t, Level(w, d, tab, f, beyond)) && ResidualOk(tab[Root].res, v, Written(w, d, tab, f, beyond))
        <==> Accepts(d[Root], v, Level(w, d, tab, f, beyond))
  {
    hide Accepts, Inhabits, ReadsOk, Consistent, Plain, NoRoot;
    RefsKeepExact(w, d, tab, f, beyond, g, v);
    WrittenAlike(w, d, tab, f, beyond);
    if tab[Root].res.Sub? { AcceptsAlike(tab[Root].res.schema, v, Level(w, d, tab, f, beyond), Written(w, d, tab, f, beyond)); }
  }
}
