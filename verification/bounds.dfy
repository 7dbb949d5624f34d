/** draft-04's boolean exclusive bounds rewritten to numbers (lib/draft7.js:140-174). */
module ExclusiveBounds {
  import opened Json
  import opened Schemas
  import opened Similar

  const EXCLUSIVE := {"exclusiveMinimum", "exclusiveMaximum"}

  /** One pair: the boolean gives way to the bound it is about, or is dropped. */
  function FoldPair(m: map<string, Json>, bound: string, excl: string): map<string, Json> {
    if excl in m && m[excl].Bool? then
      if m[excl].b && bound in m && m[bound].Num? then m[excl := m[bound]] - {bound} else m - {excl}
    else m
  }

  function Fold(m: map<string, Json>): map<string, Json> {
    FoldPair(FoldPair(m, "minimum", "exclusiveMinimum"), "maximum", "exclusiveMaximum")
  }

  lemma FoldWithin(m: map<string, Json>)
    ensures forall k :: k in Fold(m) ==> Fold(m)[k] < Obj(m)
  {
    var m1 := FoldPair(m, "minimum", "exclusiveMinimum");
    var m2 := FoldPair(m1, "maximum", "exclusiveMaximum");
    assert forall k :: k in m1 ==> m1[k] < Obj(m);
    assert forall k :: k in m2 ==> m2[k] < Obj(m);
  }

  /** The walk goes into everything an object or an array holds, whatever it is. */
  function Walked(s: Json): Json
    decreases s
  {
    match s
    case Arr(a) => Arr(seq(|a|, i requires 0 <= i < |a| => Walked(a[i])))
    case Obj(m) => (FoldWithin(m); Obj(map k | k in Fold(m) :: Walked(Fold(m)[k])))
    case _ => s
  }

  function WalkedMap(m: map<string, Json>): map<string, Json> { Walked(Obj(m)).m }

  lemma WalkedAt(m: map<string, Json>)
    ensures Walked(Obj(m)) == Obj(WalkedMap(m)) && WalkedMap(m).Keys == Fold(m).Keys
    ensures forall k :: k in Fold(m) ==> WalkedMap(m)[k] == Walked(Fold(m)[k])
  {
    hide Fold;
  }

  // ---------------------------------------------------------------- no boolean is left

  predicate NoBoolean(m: map<string, Json>) { forall k :: k in EXCLUSIVE && k in m ==> !m[k].Bool? }

  /** No object anywhere in the document has a boolean under either name. */
  predicate NumericBounds(s: Json) {
    match s
    case Arr(a) => forall i :: 0 <= i < |a| ==> NumericBounds(a[i])
    case Obj(m) => NoBoolean(m) && forall k :: k in m ==> NumericBounds(m[k])
    case _ => true
  }

  lemma FoldClears(m: map<string, Json>)
    ensures NoBoolean(Fold(m)) && (NoBoolean(m) ==> Fold(m) == m)
  {
    PairClears(m, "minimum", "exclusiveMinimum");
    PairClears(FoldPair(m, "minimum", "exclusiveMinimum"), "maximum", "exclusiveMaximum");
  }

  lemma PairClears(m: map<string, Json>, bound: string, excl: string)
    requires bound != excl
    ensures var r := FoldPair(m, bound, excl); excl in r ==> !r[excl].Bool?
    ensures (excl in m ==> !m[excl].Bool?) ==> FoldPair(m, bound, excl) == m
  {
  }

  lemma WalkedKind(s: Json)
    ensures Walked(s).Bool? <==> s.Bool?
    ensures IsScalar(s) ==> Walked(s) == s
    ensures Walked(s).Arr? <==> s.Arr?
    ensures Walked(s).Obj? <==> s.Obj?
  {
  }

  /** Whatever the document, the walk leaves no boolean under either name. */
  lemma {:induction false} WalkedNumeric(s: Json)
    ensures NumericBounds(Walked(s))
    decreases s
  {
    match s
    case Arr(a) => forall i | 0 <= i < |a| ensures NumericBounds(Walked(s).a[i]) { WalkedNumeric(a[i]); }
    case Obj(m) =>
      FoldWithin(m);
      FoldClears(m);
      WalkedAt(m);
      hide Fold, Walked;
      forall k | k in Fold(m) ensures NumericBounds(WalkedMap(m)[k]) { WalkedNumeric(Fold(m)[k]); }
      forall k | k in EXCLUSIVE && k in WalkedMap(m) ensures !WalkedMap(m)[k].Bool? { WalkedKind(Fold(m)[k]); }
    case _ =>
  }

  /** A document comes back as it was exactly when no object in it, schema or not, has such a boolean. */
  lemma {:induction false} WalkedFixed(s: Json)
    ensures Walked(s) == s <==> NumericBounds(s)
    decreases s
  {
    if NumericBounds(s) {
      match s
      case Arr(a) => forall i | 0 <= i < |a| ensures Walked(s).a[i] == a[i] { WalkedFixed(a[i]); }
      case Obj(m) =>
        FoldClears(m);
        WalkedAt(m);
        forall k | k in m ensures WalkedMap(m)[k] == m[k] { WalkedFixed(m[k]); }
        assert WalkedMap(m) == m;
      case _ =>
    } else {
      WalkedNumeric(s);
    }
  }

  lemma WalkTwice(s: Json)
    ensures Walked(Walked(s)) == Walked(s)
  {
    WalkedNumeric(s);
    WalkedFixed(Walked(s));
  }

  // ---------------------------------------------------------------- what it means

  /**
   Booleans under the two names stand only in schema objects: not in a table of schemas, where the name
   is a property's, and not in a value under `const`, `enum` or a keyword this model does not read.
   */
  predicate Placed(s: Json)
    decreases s, 1
  {
    match s
    case Bool(_) => true
    case Obj(m) => (RefOf(s).Some? ==> ToDefinition(RefOf(s).value)) && forall k :: k in m ==> PlacedAt(m, k)
    case _ => false
  }

  predicate PlacedAt(m: map<string, Json>, k: string)
    requires k in m
    decreases Obj(m), 0
  {
    if k in SCHEMA_MAPS + DEFINITIONS then m[k].Obj? && NoBoolean(m[k].m) && forall n :: n in m[k].m ==> Placed(m[k].m[n])
    else if k in SCHEMA_LISTS then m[k].Arr? && forall i :: 0 <= i < |m[k].a| ==> Placed(m[k].a[i])
    else if k in ONE_SCHEMA then Placed(m[k])
    else Unread(k) || NumericBounds(m[k])
  }

  /** Keywords whose value has no part in what is accepted, and the bounds themselves. */
  predicate Unread(k: string) { k in BOUNDS || k in ASIDE || (k in ANNOTATIONS && k != "$ref") || k == "default" || k == "examples" }

  ghost function Rel(): Relation { (s: Json, t: Json) => Placed(s) && t == Walked(s) }

  lemma FoldOther(m: map<string, Json>, k: string)
    requires k !in BOUNDS
    ensures (k in Fold(m) <==> k in m) && (k in m ==> Fold(m)[k] == m[k])
  {
  }

  lemma WalkedOther(m: map<string, Json>, k: string)
    requires k !in BOUNDS
    ensures (k in WalkedMap(m) <==> k in m) && (k in m ==> WalkedMap(m)[k] == Walked(m[k]))
  {
    hide Fold, Walked;
    FoldOther(m, k);
    WalkedAt(m);
  }

  lemma PlacedThere(m: map<string, Json>, k: string)
    requires Placed(Obj(m)) && k in m
    ensures PlacedAt(m, k)
  {
  }

  lemma WalkTable(m: map<string, Json>, k: string)
    requires Placed(Obj(m)) && k in SCHEMA_MAPS + DEFINITIONS
    ensures TableShape(Rel(), m, WalkedMap(m), k)
  {
    hide Walked, Fold, WalkedMap, Placed;
    WalkedOther(m, k);
    if k in m {
      PlacedThere(m, k);
      var t := m[k].m;
      FoldClears(t);
      WalkedAt(t);
    }
  }

  lemma WalkList(m: map<string, Json>, k: string)
    requires Placed(Obj(m)) && k in SCHEMA_LISTS
    ensures ListShape(Rel(), m, WalkedMap(m), k)
  {
    hide Fold, WalkedMap, Placed;
    WalkedOther(m, k);
    if k in m { PlacedThere(m, k); }
  }

  lemma WalkOne(m: map<string, Json>, k: string)
    requires Placed(Obj(m)) && k in ONE_SCHEMA
    ensures SchemaShape(Rel(), m, WalkedMap(m), k)
  {
    hide Fold, Walked, WalkedMap, Placed;
    WalkedOther(m, k);
    if k in m { PlacedThere(m, k); }
  }

  lemma WalkEqual(m: map<string, Json>, k: string)
    requires Placed(Obj(m)) && (k in FIXED || k == "type" || !Known(k))
    ensures EqualAt(m, WalkedMap(m), k)
  {
    hide Fold, Walked, WalkedMap, Placed, NumericBounds, Unread, Known, SCHEMA_MAPS, SCHEMA_LISTS, ONE_SCHEMA, DEFINITIONS, BOUNDS, FIXED;
    ReadAsItIs(k);
    WalkedOther(m, k);
    if k in m {
      PlacedThere(m, k);
      WalkedFixed(m[k]);
    }
  }

  lemma ReadAsItIs(k: string)
    requires k in FIXED || k == "type" || !Known(k)
    ensures k !in SCHEMA_MAPS + DEFINITIONS && k !in SCHEMA_LISTS && k !in ONE_SCHEMA && !Unread(k) && k !in BOUNDS
  {
  }

  lemma WalkShape(m: map<string, Json>)
    requires Placed(Obj(m))
    ensures Shape(Rel(), m, WalkedMap(m))
  {
    hide Placed, WalkedMap, TableShape, ListShape, SchemaShape, EqualAt, Known, Rel;
    var n := WalkedMap(m);
    forall k | k in FIXED || !Known(k) ensures EqualAt(m, n, k) { WalkEqual(m, k); }
    forall k | k in ONE_SCHEMA ensures SchemaShape(Rel(), m, n, k) { WalkOne(m, k); }
    forall k | k in SCHEMA_LISTS ensures ListShape(Rel(), m, n, k) { WalkList(m, k); }
    forall k | k in SCHEMA_MAPS ensures TableShape(Rel(), m, n, k) { WalkTable(m, k); }
  }

  /** One pair of bounds, a boolean or a number beside the bound, asks the same of a number. */
  lemma WalkBounds(g: Given, m: map<string, Json>, x: real)
    requires g.dialect.Draft2020?
    ensures BoundsOk(g, m, x) == BoundsOk(g, WalkedMap(m), x)
  {
    hide Walked, WalkedMap;
    var n := WalkedMap(m);
    WalkedAt(m);
    forall k | k in BOUNDS && k in Fold(m) ensures NumOf(g, n, k) == NumOf(g, Fold(m), k) && Strict(g, n, k) == Strict(g, Fold(m), k) {
      WalkedKind(Fold(m)[k]);
    }
    assert forall k :: k in BOUNDS ==> NumOf(g, n, k) == NumOf(g, Fold(m), k) && Strict(g, n, k) == Strict(g, Fold(m), k);
    BoundsAsRead(g, Fold(m), n, x);
    FoldBounds(g, m, x);
  }

  lemma BoundsAsRead(g: Given, m: map<string, Json>, n: map<string, Json>, x: real)
    requires forall k :: k in BOUNDS ==> NumOf(g, n, k) == NumOf(g, m, k) && Strict(g, n, k) == Strict(g, m, k)
    ensures BoundsOk(g, m, x) == BoundsOk(g, n, x)
  {
    hide NumOf, Strict;
    assert "minimum" in BOUNDS && "maximum" in BOUNDS && "exclusiveMinimum" in BOUNDS && "exclusiveMaximum" in BOUNDS;
  }

  lemma FoldBounds(g: Given, m: map<string, Json>, x: real)
    requires g.dialect.Draft2020?
    ensures BoundsOk(g, m, x) == BoundsOk(g, Fold(m), x)
  {
    hide BoundsOk, FoldPair;
    LowerBound(g, m, x);
    UpperBound(g, FoldPair(m, "minimum", "exclusiveMinimum"), x);
  }

  lemma LowerBound(g: Given, m: map<string, Json>, x: real)
    requires g.dialect.Draft2020?
    ensures BoundsOk(g, m, x) == BoundsOk(g, FoldPair(m, "minimum", "exclusiveMinimum"), x)
  {
    hide BoundsOk;
    var n := FoldPair(m, "minimum", "exclusiveMinimum");
    assert forall k :: k in {"maximum", "exclusiveMaximum"} ==> NumOf(g, n, k) == NumOf(g, m, k) && Strict(g, n, k) == Strict(g, m, k);
    BoundsInTwo(g, m, x);
    BoundsInTwo(g, n, x);
  }

  lemma UpperBound(g: Given, m: map<string, Json>, x: real)
    requires g.dialect.Draft2020?
    ensures BoundsOk(g, m, x) == BoundsOk(g, FoldPair(m, "maximum", "exclusiveMaximum"), x)
  {
    hide BoundsOk;
    var n := FoldPair(m, "maximum", "exclusiveMaximum");
    assert forall k :: k in {"minimum", "exclusiveMinimum"} ==> NumOf(g, n, k) == NumOf(g, m, k) && Strict(g, n, k) == Strict(g, m, k);
    BoundsInTwo(g, m, x);
    BoundsInTwo(g, n, x);
  }

  predicate Above(b: Option<real>, strict: bool, x: real) { b.Some? ==> if strict then x > b.value else x >= b.value }

  predicate Under(b: Option<real>, strict: bool, x: real) { b.Some? ==> if strict then x < b.value else x <= b.value }

  lemma BoundsInTwo(g: Given, m: map<string, Json>, x: real)
    ensures BoundsOk(g, m, x) <==>
            && Above(NumOf(g, m, "minimum"), Strict(g, m, "exclusiveMinimum"), x) && Above(NumOf(g, m, "exclusiveMinimum"), true, x)
            && Under(NumOf(g, m, "maximum"), Strict(g, m, "exclusiveMaximum"), x) && Under(NumOf(g, m, "exclusiveMaximum"), true, x)
  {
    hide NumOf, Strict;
  }

  lemma WalkOpen(g: Given, m: map<string, Json>, v: Json)
    requires g.dialect.Draft2020? && Placed(Obj(m))
    ensures OpenSame(g, g, m, WalkedMap(m), v)
  {
    hide Placed, WalkedMap, Walked, TypeOk, BoundsOk;
    WalkEqual(m, "type");
    WalkedOther(m, "nullable");
    if "nullable" in m { WalkedKind(m["nullable"]); }
    if v.Num? { WalkBounds(g, m, v.n); }
  }

  /**
   Where the booleans stand only in schema objects, the rewritten schema accepts, and refuses, what the
   original does with `exclusiveMinimum: true` read as draft-04 reads it.
   */
  lemma BoundsExact(g: Given, root: Json, s: Json, v: Json, f: nat, want: bool)
    requires g.dialect.Draft2020? && Decodes(g) && Placed(root) && Placed(s)
    ensures Decided(g, root, s, v, f, want) <==> Decided(g, Walked(root), Walked(s), v, f, want)
  {
    hide Decided, Walked, Placed;
    var x, y := View(g, root), View(g, Walked(root));
    forall s, t | Rel()(s, t) ensures Related(x, y, Rel(), s, t) { WalkRelated(g, root, s); }
    SimilarExact(x, y, Rel(), s, Walked(s), v, f, want);
  }

  lemma WalkRelated(g: Given, root: Json, s: Json)
    requires g.dialect.Draft2020? && Decodes(g) && Placed(root) && Placed(s)
    ensures Related(View(g, root), View(g, Walked(root)), Rel(), s, Walked(s))
  {
    hide Walked, WalkedMap, ObjectsRelated, RefsRelated, Shape, OpenSame, Rel;
    WalkedKind(s);
    if s.Obj? {
      var m := s.m;
      WalkedAt(m);
      WalkShape(m);
      WalkRefs(g, root, m);
      forall v ensures ObjectsRelated(View(g, root), View(g, Walked(root)), Rel(), m, WalkedMap(m), v) {
        WalkOpen(g, m, v);
        ShapeRelated(View(g, root), View(g, Walked(root)), Rel(), m, WalkedMap(m), v);
      }
    }
  }

  lemma WalkRefs(g: Given, root: Json, m: map<string, Json>)
    requires g.dialect.Draft2020? && Decodes(g) && Placed(root) && Placed(Obj(m))
    ensures RefsRelated(View(g, root), View(g, Walked(root)), Rel(), m, WalkedMap(m))
  {
    hide Walked, WalkedMap, Lookup, TableShape;
    WalkEqual(m, "$ref");
    if RefOf(Obj(m)).Some? {
      WalkedKind(root);
      if root.Obj? {
        WalkedAt(root.m);
        forall k | k in DEFINITIONS ensures TableShape(Rel(), root.m, WalkedMap(root.m), k) { WalkTable(root.m, k); }
      }
      LookupRelated(View(g, root), View(g, Walked(root)), Rel(), RefOf(Obj(m)).value);
    }
  }

  // ---------------------------------------------------------------- where the rewriting is not exact

  /** The rewriting changes nothing about which values the schema, read against itself, accepts or refuses. */
  ghost predicate Preserved(g: Given, s: Json) {
    forall v, f: nat, want :: Decided(g, s, s, v, f, want) <==> Decided(g, Walked(s), Walked(s), v, f, want)
  }

  lemma ConstMeans(g: Given, root: Json, x: Json, v: Json, f: nat, want: bool)
    requires g.dialect.Draft2020?
    ensures Decided(g, root, Obj(map["const" := x]), v, f, want) <==> want == (v == x)
  {
    hide LocalOk, PartAt, On, Decided, Accepts, Refuses;
    var m := map["const" := x];
    FewKeywords(g, root, m, v, f);
    FewLocal(g, m, v);
    forall w ensures PartAt(g, m, v, w).NoPart? && !On(g, root, m, v, w, f, false) {
      FewParts(g, m, v, w);
      NothingOn(g, root, m, v, w, f, false);
    }
    assert EveryOn(g, root, m, v, f);
    ObjectDecided(g, root, m, v, f, want);
  }

  lemma WalkedOne(k: string, x: Json)
    requires k !in BOUNDS
    ensures Walked(Obj(map[k := x])) == Obj(map[k := Walked(x)])
  {
    var m := map[k := x];
    WalkedAt(m);
    assert Fold(m) == m;
    assert WalkedMap(m) == map[k := Walked(x)];
  }

  /** A value under `const` is rewritten as if it were a schema: harmless exactly when no object in it has such a boolean. */
  lemma ConstIff(g: Given, x: Json)
    requires g.dialect.Draft2020?
    ensures Preserved(g, Obj(map["const" := x])) <==> NumericBounds(x)
  {
    hide Decided, Walked;
    var s := Obj(map["const" := x]);
    WalkedOne("const", x);
    forall v, f: nat, want
      ensures Decided(g, s, s, v, f, want) <==> want == (v == x)
      ensures Decided(g, Walked(s), Walked(s), v, f, want) <==> want == (v == Walked(x))
    {
      ConstMeans(g, s, x, v, f, want);
      ConstMeans(g, Walked(s), Walked(x), v, f, want);
    }
    WalkedFixed(x);
    if Preserved(g, s) { assert Decided(g, s, s, x, 0, true) <==> Decided(g, Walked(s), Walked(s), x, 0, true); }
  }

  /** Names each allowed with any value, or not at all. */
  predicate AllBooleans(ps: map<string, Json>) { forall k :: k in ps ==> ps[k].Bool? }

  /** A schema of nothing but a table of properties and, perhaps, a boolean for the other names. */
  function TableOnly(ps: map<string, Json>, more: Option<bool>): map<string, Json> {
    if more.Some? then map["properties" := Obj(ps), "additionalProperties" := Bool(more.value)] else map["properties" := Obj(ps)]
  }

  /** Whether a name that is not in the table is allowed; it is when nothing is said. */
  predicate Others(more: Option<bool>) { more.Some? ==> more.value }

  predicate NameAllowed(ps: map<string, Json>, more: Option<bool>, k: string) { if k in ps then ps[k] == Bool(true) else Others(more) }

  predicate Allowed(ps: map<string, Json>, more: Option<bool>, v: Json) {
    v.Obj? ==> forall k :: k in v.m ==> NameAllowed(ps, more, k)
  }

  /** The one place that speaks for a member, if its name is spoken for. */
  predicate Speaks(ps: map<string, Json>, more: Option<bool>, v: Json, w: Where) {
    (w.AtProperty? || w.AtMore?) && v.Obj? && w.k in v.m && (if w.AtProperty? then w.k in ps else w.k !in ps && more.Some?)
  }

  predicate SpeaksAs(ps: map<string, Json>, more: Option<bool>, v: Json, w: Where, q: bool) {
    Speaks(ps, more, v, w) && NameAllowed(ps, more, w.k) == q
  }

  lemma PropertiesMean(g: Given, root: Json, ps: map<string, Json>, more: Option<bool>, v: Json, f: nat, want: bool)
    requires g.dialect.Draft2020? && AllBooleans(ps)
    ensures Decided(g, root, Obj(TableOnly(ps, more)), v, f, want) <==> want == Allowed(ps, more, v)
  {
    hide LocalOk, PartAt, On, Decided, Accepts, Refuses, Speaks, SpeaksAs, NameAllowed;
    var m := TableOnly(ps, more);
    FewKeywords(g, root, m, v, f);
    FewLocal(g, m, v);
    TableSchema(ps, more);
    forall w ensures PartAt(g, m, v, w).Part? <==> Speaks(ps, more, v, w) {
      PropertyPart(g, root, m, ps, more, v, w, f, true);
    }
    forall w, q ensures On(g, root, m, v, w, f, q) <==> SpeaksAs(ps, more, v, w, q) {
      PropertyPart(g, root, m, ps, more, v, w, f, q);
    }
    EveryAllowed(g, root, m, ps, more, v, f);
    ObjectDecided(g, root, m, v, f, want);
  }

  /** Every part accepts, or some part refuses, as the names are allowed. */
  lemma EveryAllowed(g: Given, root: Json, m: map<string, Json>, ps: map<string, Json>, more: Option<bool>, v: Json, f: nat)
    requires AllBooleans(ps)
    requires forall w, q :: On(g, root, m, v, w, f, q) <==> SpeaksAs(ps, more, v, w, q)
    requires forall w :: PartAt(g, m, v, w).Part? <==> Speaks(ps, more, v, w)
    ensures EveryOn(g, root, m, v, f) <==> Allowed(ps, more, v)
    ensures (exists w :: MustAll(w) && On(g, root, m, v, w, f, false)) <==> !Allowed(ps, more, v)
  {
    hide PartAt, On, Speaks, SpeaksAs, NameAllowed;
    forall w | Speaks(ps, more, v, w) ensures MustAll(w) && (SpeaksAs(ps, more, v, w, true) <==> !SpeaksAs(ps, more, v, w, false)) {
      SpeaksOneWay(ps, more, v, w);
    }
    if !Allowed(ps, more, v) {
      var w := Refused(ps, more, v);
      SpeaksOneWay(ps, more, v, w);
      assert MustAll(w) && On(g, root, m, v, w, f, false) && !On(g, root, m, v, w, f, true);
    } else {
      forall w, q | SpeaksAs(ps, more, v, w, q) ensures q { AllowedSpeaks(ps, more, v, w, q); }
    }
  }

  lemma SpeaksOneWay(ps: map<string, Json>, more: Option<bool>, v: Json, w: Where)
    requires Speaks(ps, more, v, w)
    ensures MustAll(w) && (SpeaksAs(ps, more, v, w, true) <==> !SpeaksAs(ps, more, v, w, false))
  {
  }

  lemma AllowedSpeaks(ps: map<string, Json>, more: Option<bool>, v: Json, w: Where, q: bool)
    requires Allowed(ps, more, v) && SpeaksAs(ps, more, v, w, q)
    ensures q && Speaks(ps, more, v, w)
  {
  }

  lemma Refused(ps: map<string, Json>, more: Option<bool>, v: Json) returns (w: Where)
    requires !Allowed(ps, more, v)
    ensures Speaks(ps, more, v, w) && SpeaksAs(ps, more, v, w, false)
  {
    var k :| k in v.m && !NameAllowed(ps, more, k);
    w := if k in ps then AtProperty(k) else AtMore(k);
  }

  lemma PartDecides(g: Given, root: Json, m: map<string, Json>, v: Json, w: Where, f: nat, q: bool)
    requires PartAt(g, m, v, w).Part? && PartAt(g, m, v, w).s.Bool?
    ensures On(g, root, m, v, w, f, q) <==> PartAt(g, m, v, w).s == Bool(q)
  {
    hide PartAt, Decided;
    BoolDecides(g, root, PartAt(g, m, v, w).s, PartAt(g, m, v, w).v, f, q);
  }

  lemma PropertyPart(g: Given, root: Json, m: map<string, Json>, ps: map<string, Json>, more: Option<bool>, v: Json, w: Where, f: nat, q: bool)
    requires g.dialect.Draft2020? && AllBooleans(ps) && m == TableOnly(ps, more)
    ensures On(g, root, m, v, w, f, q) <==> SpeaksAs(ps, more, v, w, q)
    ensures PartAt(g, m, v, w).Part? <==> Speaks(ps, more, v, w)
  {
    hide PartAt, On, FewSchema, TableOnly, Table, FEW;
    TableSchema(ps, more);
    FewParts(g, m, v, w);
    if PartAt(g, m, v, w).Part? { PartDecides(g, root, m, v, w, f, q); } else { NothingOn(g, root, m, v, w, f, q); }
  }

  lemma TableSchema(ps: map<string, Json>, more: Option<bool>)
    requires AllBooleans(ps)
    ensures var m := TableOnly(ps, more);
            && m.Keys <= FEW && Table(m, "properties") == ps && List(m, "enum").None? && List(m, "required").None? && "items" !in m
            && forall k :: FewSchema(m, k) == if k in ps then Some(ps[k]) else if more.Some? then Some(Bool(more.value)) else None
  {
  }

  lemma WalkedTable(ps: map<string, Json>)
    requires AllBooleans(ps)
    ensures Walked(Obj(ps)) == Obj(ps - EXCLUSIVE) && AllBooleans(ps - EXCLUSIVE)
  {
    assert Fold(ps) == ps - EXCLUSIVE;
    WalkedAt(ps);
    hide Fold, Walked, WalkedMap;
    forall k | k in ps ensures Walked(ps[k]) == ps[k] { WalkedKind(ps[k]); }
    assert WalkedMap(ps) == ps - EXCLUSIVE;
  }

  lemma WalkedBooleans(ps: map<string, Json>, more: Option<bool>)
    requires AllBooleans(ps)
    ensures Walked(Obj(TableOnly(ps, more))) == Obj(TableOnly(ps - EXCLUSIVE, more)) && AllBooleans(ps - EXCLUSIVE)
  {
    WalkedTable(ps);
    var m, n := TableOnly(ps, more), TableOnly(ps - EXCLUSIVE, more);
    assert Fold(m) == m;
    WalkedAt(m);
    hide Fold, Walked, WalkedMap;
    forall k | k in m ensures Walked(m[k]) == n[k] { WalkedKind(m[k]); }
    assert WalkedMap(m) == n;
  }

  /**
   A table of properties loses a name's own schema when it is a boolean, and the name falls to
   additionalProperties: harmless exactly when that says the same of it. Lost are, with other names
   allowed, a `false`, and with other names refused, a `true`.
   */
  lemma PropertiesIff(g: Given, ps: map<string, Json>, more: Option<bool>)
    requires g.dialect.Draft2020? && AllBooleans(ps)
    ensures Preserved(g, Obj(TableOnly(ps, more))) <==> forall k :: k in EXCLUSIVE && k in ps ==> ps[k] == Bool(Others(more))
  {
    hide Decided, Walked, TableOnly;
    var s, rest := Obj(TableOnly(ps, more)), ps - EXCLUSIVE;
    WalkedBooleans(ps, more);
    forall v, f: nat, want
      ensures Decided(g, s, s, v, f, want) <==> want == Allowed(ps, more, v)
      ensures Decided(g, Walked(s), Walked(s), v, f, want) <==> want == Allowed(rest, more, v)
    {
      PropertiesMean(g, s, ps, more, v, f, want);
      PropertiesMean(g, Walked(s), rest, more, v, f, want);
    }
    if Preserved(g, s) {
      forall k | k in EXCLUSIVE && k in ps ensures ps[k] == Bool(Others(more)) {
        var v := Obj(map[k := Null]);
        assert Decided(g, s, s, v, 0, true) <==> Decided(g, Walked(s), Walked(s), v, 0, true);
        assert Allowed(ps, more, v) <==> NameAllowed(ps, more, k);
        assert Allowed(rest, more, v) <==> NameAllowed(rest, more, k);
      }
    } else {
      var v, f: nat, want :| Decided(g, s, s, v, f, want) != Decided(g, Walked(s), Walked(s), v, f, want);
      assert Allowed(ps, more, v) != Allowed(rest, more, v);
    }
  }

  // ---------------------------------------------------------------- the walk as it runs

  class SchemaObject {
    var m: map<string, Json>

    constructor (m: map<string, Json>)
      ensures this.m == m
    {
      this.m := m;
    }

    method FoldBounds()
      modifies this
      ensures m == Fold(old(m))
    {
      if "exclusiveMinimum" in m && m["exclusiveMinimum"].Bool? {
        if m["exclusiveMinimum"].b && "minimum" in m && m["minimum"].Num? {
          m := m["exclusiveMinimum" := m["minimum"]];
          m := m - {"minimum"};
        } else {
          m := m - {"exclusiveMinimum"};
        }
      }
      if "exclusiveMaximum" in m && m["exclusiveMaximum"].Bool? {
        if m["exclusiveMaximum"].b && "maximum" in m && m["maximum"].Num? {
          m := m["exclusiveMaximum" := m["maximum"]];
          m := m - {"maximum"};
        } else {
          m := m - {"exclusiveMaximum"};
        }
      }
    }

    /** Every key, a schema under it or not. */
    method WalkKeys(ghost bound: Json)
      requires forall k :: k in m ==> m[k] < bound
      modifies this
      ensures m == map k | k in old(m) :: Walked(old(m)[k])
      decreases bound, 0
    {
      hide Walked;
      ghost var r := m;
      var todo := m.Keys;
      while todo != {}
        invariant todo <= r.Keys && m.Keys == r.Keys
        invariant forall k :: k in r ==> m[k] == if k in todo then r[k] else Walked(r[k])
        decreases |todo|
      {
        var k :| k in todo;
        var w := Walk(m[k]);
        m := m[k := w];
        todo := todo - {k};
      }
      assert m == map k | k in r :: Walked(r[k]);
    }
  }

  method Walk(s: Json) returns (out: Json)
    ensures out == Walked(s)
    decreases s, 1
  {
    match s {
      case Arr(a) =>
        var items := [];
        for i := 0 to |a|
          invariant |items| == i && forall j :: 0 <= j < i ==> items[j] == Walked(a[j])
        {
          var w := Walk(a[i]);
          items := items + [w];
        }
        return Arr(items);
      case Obj(m) =>
        var o := new SchemaObject(m);
        FoldWithin(m);
        o.FoldBounds();
        o.WalkKeys(s);
        return Obj(o.m);
      case _ => return s;
    }
  }
}
