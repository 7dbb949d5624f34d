/**
 Which default an object gets where several schemas have one for a property: that of the first schema to apply
 to it, where a schema comes before its `$ref`, that before the members of its `allOf` in order, and schemas
 reach a member of an object in the order of those that apply to the object (lib/defaults.js:177-293).
 */
module DefaultsOrder {
  import opened Json
  import opened SchemaGraph
  import opened DefaultsPass
  import opened DefaultsScalar

  datatype Place = AtKey(k: string) | AtIndex(i: nat)

  datatype Spot = Spot(l: Loc, at: Place)

  /** Where each container of a document stands, and measures by which documents and in-place references end. */
  datatype Layout = Layout(up: Loc -> Option<Spot>, level: Loc -> nat, rank: NodeId -> nat)

  predicate Under(h: Heap, s: Spot, x: Loc) {
    match s.at
    case AtKey(k) => HasRef(h, s.l, k, x)
    case AtIndex(i) => ElemAt(h, s.l, i) == Some(Ref(x))
  }

  predicate NoRepeats(keys: seq<string>) { forall i, j :: 0 <= i < j < |keys| ==> keys[i] != keys[j] }

  /** The document is a tree. */
  ghost predicate Tree(h: Heap, t: Layout) {
    && (forall x, s :: t.up(x) == Some(s) <==> Under(h, s, x))
    && (forall x :: t.up(x).Some? ==> t.level(t.up(x).value.l) < t.level(x))
    && forall l :: l in h && h[l].ObjCell? ==> NoRepeats(h[l].keys)
  }

  function Beside(s: Node): seq<Slot> { [s.ref] + s.allOf }

  /** No schema leads back to itself through `$ref` and `allOf` alone. */
  ghost predicate InPlace(g: Graph, t: Layout) {
    forall n, i :: n in g && 0 <= i < |Beside(g[n])| && Beside(g[n])[i].Some? ==> t.rank(Beside(g[n])[i].value) < t.rank(n)
  }

  // ---------------------------------------------------------------- the order, in the schema's own terms

  /** A schema, then its `$ref`, then the members of its `allOf`, as far as a default is reachable there. */
  ghost function Here(g: Graph, t: Layout, n: NodeId): seq<NodeId>
    requires InPlace(g, t)
    decreases t.rank(n), 1, 0
  {
    if n !in g || !Reaches(g, n) then [] else [n] + HereBeside(g, t, n, |Beside(g[n])|)
  }

  ghost function HereBeside(g: Graph, t: Layout, n: NodeId, j: nat): seq<NodeId>
    requires InPlace(g, t) && n in g && j <= |Beside(g[n])|
    decreases t.rank(n), 0, j
  {
    if j == 0 then [] else HereBeside(g, t, n, j - 1) + (var s := Beside(g[n])[j - 1]; if s.None? then [] else Here(g, t, s.value))
  }

  ghost function HereSlot(g: Graph, t: Layout, s: Slot): seq<NodeId>
    requires InPlace(g, t)
  {
    if s.None? then [] else Here(g, t, s.value)
  }

  ghost function HereAll(g: Graph, t: Layout, ss: seq<Slot>): seq<NodeId>
    requires InPlace(g, t)
  {
    if ss == [] then [] else HereAll(g, t, ss[..|ss| - 1]) + HereSlot(g, t, ss[|ss| - 1])
  }

  function ForKey(ps: seq<Property>, k: string): seq<Slot> {
    if ps == [] then [] else ForKey(ps[..|ps| - 1], k) + (if ps[|ps| - 1].key == k then [ps[|ps| - 1].slot] else [])
  }

  function ForPatterns(c: Ctx, valid: string -> bool, ps: seq<Property>, k: string): seq<Slot> {
    if ps == [] then []
    else ForPatterns(c, valid, ps[..|ps| - 1], k) + (var p := ps[|ps| - 1]; if valid(p.key) && c.matches(p.key, k) then [p.slot] else [])
  }

  /** What a schema gives the value at a place: its property, its patterns in order, and else the additional one. */
  function Gives(c: Ctx, valid: string -> bool, s: Node, at: Place): seq<Slot> {
    match at
    case AtKey(k) => ForKey(s.props, k) + ForPatterns(c, valid, s.patterns, k) + (if IsAdditional(s, c, valid, k) then [s.additional] else [])
    case AtIndex(i) => [if i < |s.prefixItems| then s.prefixItems[i] else s.items]
  }

  ghost function Expand(g: Graph, c: Ctx, valid: string -> bool, t: Layout, ns: seq<NodeId>, at: Place): seq<NodeId>
    requires InPlace(g, t)
  {
    if ns == [] then []
    else
      var n := ns[|ns| - 1];
      Expand(g, c, valid, t, ns[..|ns| - 1], at) + (if n in g then HereAll(g, t, Gives(c, valid, g[n], at)) else [])
  }

  /** What schemas applied to one container come to at another: nothing where that is not below the first. */
  ghost function Spread(g: Graph, c: Ctx, valid: string -> bool, h: Heap, t: Layout, ns: seq<NodeId>, l: Loc, x: Loc): seq<NodeId>
    requires InPlace(g, t) && Tree(h, t)
    decreases t.level(x)
  {
    if x == l then ns
    else if t.up(x).None? then []
    else Expand(g, c, valid, t, Spread(g, c, valid, h, t, ns, l, t.up(x).value.l), t.up(x).value.at)
  }

  /** The default a schema has for a property of its own. */
  function OwnFor(g: Graph, ps: seq<Property>, k: string): Option<Doc> {
    if ps == [] then None
    else
      var init, p := OwnFor(g, ps[..|ps| - 1], k), ps[|ps| - 1];
      if init.Some? then init
      else if p.key == k && Defaulted(g, p) then g[p.slot.value].dflt
      else None
  }

  /** The first schema of the list that has a default for the property decides. */
  function First(g: Graph, ns: seq<NodeId>, k: string): Option<Doc> {
    if ns == [] then None
    else
      var init, n := First(g, ns[..|ns| - 1], k), ns[|ns| - 1];
      if init.Some? then init else if n in g then OwnFor(g, g[n].props, k) else None
  }

  // ---------------------------------------------------------------- lists in a row

  lemma {:induction false} FirstCat(g: Graph, a: seq<NodeId>, b: seq<NodeId>, k: string)
    ensures First(g, a + b, k) == if First(g, a, k).Some? then First(g, a, k) else First(g, b, k)
    decreases |b|
  {
    if b == [] {
      assert a + b == a;
    } else {
      assert (a + b)[..|a + b| - 1] == a + b[..|b| - 1];
      FirstCat(g, a, b[..|b| - 1], k);
    }
  }

  lemma {:induction false} ExpandCat(g: Graph, c: Ctx, valid: string -> bool, t: Layout, a: seq<NodeId>, b: seq<NodeId>, at: Place)
    requires InPlace(g, t)
    ensures Expand(g, c, valid, t, a + b, at) == Expand(g, c, valid, t, a, at) + Expand(g, c, valid, t, b, at)
    decreases |b|
  {
    hide InPlace, Gives, HereAll;
    if b == [] {
      assert a + b == a;
    } else {
      assert (a + b)[..|a + b| - 1] == a + b[..|b| - 1];
      ExpandCat(g, c, valid, t, a, b[..|b| - 1], at);
    }
  }

  lemma {:induction false} SpreadCat(g: Graph, c: Ctx, valid: string -> bool, h: Heap, t: Layout, a: seq<NodeId>, b: seq<NodeId>, l: Loc, x: Loc)
    requires InPlace(g, t) && Tree(h, t)
    ensures Spread(g, c, valid, h, t, a + b, l, x) == Spread(g, c, valid, h, t, a, l, x) + Spread(g, c, valid, h, t, b, l, x)
    decreases t.level(x)
  {
    hide InPlace, Expand;
    if x != l && t.up(x).Some? {
      var s := t.up(x).value;
      TreeUp(h, t, x);
      SpreadCat(g, c, valid, h, t, a, b, l, s.l);
      ExpandCat(g, c, valid, t, Spread(g, c, valid, h, t, a, l, s.l), Spread(g, c, valid, h, t, b, l, s.l), s.at);
    }
  }

  lemma TreeUp(h: Heap, t: Layout, x: Loc)
    requires Tree(h, t) && t.up(x).Some?
    ensures t.level(t.up(x).value.l) < t.level(x) && Under(h, t.up(x).value, x)
  {
  }

  lemma {:induction false} HereAllCat(g: Graph, t: Layout, a: seq<Slot>, b: seq<Slot>)
    requires InPlace(g, t)
    ensures HereAll(g, t, a + b) == HereAll(g, t, a) + HereAll(g, t, b)
    decreases |b|
  {
    hide InPlace, Here;
    if b == [] {
      assert a + b == a;
    } else {
      assert (a + b)[..|a + b| - 1] == a + b[..|b| - 1];
      HereAllCat(g, t, a, b[..|b| - 1]);
    }
  }

  // ---------------------------------------------------------------- above and below

  ghost predicate Within(h: Heap, t: Layout, l: Loc, x: Loc)
    requires Tree(h, t)
    decreases t.level(x)
  {
    x == l || (t.up(x).Some? && Within(h, t, l, t.up(x).value.l))
  }

  lemma {:induction false} WithinLevel(h: Heap, t: Layout, l: Loc, x: Loc)
    requires Tree(h, t) && Within(h, t, l, x)
    ensures x == l || t.level(l) < t.level(x)
    decreases t.level(x)
  {
    if x != l { WithinLevel(h, t, l, t.up(x).value.l); }
  }

  lemma {:induction false} SpreadAside(g: Graph, c: Ctx, valid: string -> bool, h: Heap, t: Layout, ns: seq<NodeId>, l: Loc, x: Loc)
    requires InPlace(g, t) && Tree(h, t) && !Within(h, t, l, x)
    ensures Spread(g, c, valid, h, t, ns, l, x) == []
    decreases t.level(x)
  {
    if t.up(x).Some? { SpreadAside(g, c, valid, h, t, ns, l, t.up(x).value.l); }
  }

  /** Through a container one level down. */
  lemma {:induction false} SpreadDown(g: Graph, c: Ctx, valid: string -> bool, h: Heap, t: Layout, ns: seq<NodeId>, l: Loc, at: Place, y: Loc, x: Loc)
    requires InPlace(g, t) && Tree(h, t) && t.up(y) == Some(Spot(l, at)) && Within(h, t, y, x)
    ensures Spread(g, c, valid, h, t, ns, l, x) == Spread(g, c, valid, h, t, Expand(g, c, valid, t, ns, at), y, x)
    decreases t.level(x)
  {
    WithinLevel(h, t, y, x);
    TreeUp(h, t, y);
    if x != y {
      TreeUp(h, t, x);
      SpreadDown(g, c, valid, h, t, ns, l, at, y, t.up(x).value.l);
    }
  }

  /** Two containers under one have nothing below in common. */
  lemma {:induction false} SiblingsApart(h: Heap, t: Layout, y: Loc, z: Loc, x: Loc)
    requires Tree(h, t) && t.up(y).Some? && t.up(z).Some? && t.up(y).value.l == t.up(z).value.l && y != z && Within(h, t, y, x)
    ensures !Within(h, t, z, x)
    decreases t.level(x)
  {
    TreeUp(h, t, y);
    TreeUp(h, t, z);
    if x == y {
      if Within(h, t, z, x) { WithinLevel(h, t, z, t.up(x).value.l); }
    } else if x == z {
      WithinLevel(h, t, y, t.up(x).value.l);
    } else {
      SiblingsApart(h, t, y, z, t.up(x).value.l);
    }
  }

  lemma {:induction false} ChildOn(h: Heap, t: Layout, l: Loc, x: Loc) returns (y: Loc)
    requires Tree(h, t) && Within(h, t, l, x) && x != l
    ensures t.up(y).Some? && t.up(y).value.l == l && Within(h, t, y, x)
    decreases t.level(x)
  {
    TreeUp(h, t, x);
    if t.up(x).value.l == l { y := x; } else { y := ChildOn(h, t, l, t.up(x).value.l); }
  }

  lemma {:induction false} WithinChild(h: Heap, t: Layout, l: Loc, y: Loc, x: Loc)
    requires Tree(h, t) && t.up(y).Some? && t.up(y).value.l == l && Within(h, t, y, x)
    ensures Within(h, t, l, x) && x != l
    decreases t.level(x)
  {
    TreeUp(h, t, y);
    WithinLevel(h, t, y, x);
    if x != y { WithinChild(h, t, l, y, t.up(x).value.l); }
  }

  // ---------------------------------------------------------------- what a list of applications comes to

  ghost function One(g: Graph, c: Ctx, valid: string -> bool, h: Heap, t: Layout, app: App, x: Loc): seq<NodeId>
    requires InPlace(g, t) && Tree(h, t)
  {
    match Resolve(h, app.target)
    case Some(Ref(y)) => Spread(g, c, valid, h, t, HereSlot(g, t, app.slot), y, x)
    case _ => []
  }

  ghost function Sum(g: Graph, c: Ctx, valid: string -> bool, h: Heap, t: Layout, apps: seq<App>, x: Loc): seq<NodeId>
    requires InPlace(g, t) && Tree(h, t)
  {
    if apps == [] then [] else Sum(g, c, valid, h, t, apps[..|apps| - 1], x) + One(g, c, valid, h, t, apps[|apps| - 1], x)
  }

  /** What of it lands on one container. */
  ghost function Landed(g: Graph, h: Heap, t: Layout, apps: seq<App>, y: Loc): seq<NodeId>
    requires InPlace(g, t)
  {
    if apps == [] then []
    else Landed(g, h, t, apps[..|apps| - 1], y) + (if Resolve(h, apps[|apps| - 1].target) == Some(Ref(y)) then HereSlot(g, t, apps[|apps| - 1].slot) else [])
  }

  /** Every application lands one level down. */
  predicate OneDown(h: Heap, apps: seq<App>, l: Loc) {
    forall i :: 0 <= i < |apps| ==> (apps[i].target.Member? || apps[i].target.Elem?) && apps[i].target.l == l
  }

  lemma DownChild(h: Heap, t: Layout, target: Target, l: Loc, y: Loc)
    requires Tree(h, t) && (target.Member? || target.Elem?) && target.l == l && Resolve(h, target) == Some(Ref(y))
    ensures t.up(y) == Some(Spot(l, if target.Member? then AtKey(target.key) else AtIndex(target.i)))
  {
    assert Under(h, Spot(l, if target.Member? then AtKey(target.key) else AtIndex(target.i)), y);
  }

  lemma {:induction false} SumChild(g: Graph, c: Ctx, valid: string -> bool, h: Heap, t: Layout, apps: seq<App>, l: Loc, y: Loc, x: Loc)
    requires InPlace(g, t) && Tree(h, t) && OneDown(h, apps, l) && t.up(y).Some? && t.up(y).value.l == l && Within(h, t, y, x)
    ensures Sum(g, c, valid, h, t, apps, x) == Spread(g, c, valid, h, t, Landed(g, h, t, apps, y), y, x)
    decreases |apps|
  {
    hide InPlace, Tree, Spread, Within, Resolve;
    if apps == [] {
      SpreadNone(g, c, valid, h, t, y, x);
    } else {
      var init, a := apps[..|apps| - 1], apps[|apps| - 1];
      SumChild(g, c, valid, h, t, init, l, y, x);
      SpreadCat(g, c, valid, h, t, Landed(g, h, t, init, y), HereSlot(g, t, a.slot), y, x);
      var v := Resolve(h, a.target);
      if v.Some? && v.value.Ref? && v.value.l != y {
        DownChild(h, t, a.target, l, v.value.l);
        SiblingsApart(h, t, y, v.value.l, x);
        SpreadAside(g, c, valid, h, t, HereSlot(g, t, a.slot), v.value.l, x);
      }
      if v == Some(Ref(y)) {
        assert One(g, c, valid, h, t, a, x) == Spread(g, c, valid, h, t, HereSlot(g, t, a.slot), y, x);
      } else {
        assert One(g, c, valid, h, t, a, x) == [];
        assert Landed(g, h, t, apps, y) == Landed(g, h, t, init, y);
      }
    }
  }

  lemma {:induction false} SpreadNone(g: Graph, c: Ctx, valid: string -> bool, h: Heap, t: Layout, l: Loc, x: Loc)
    requires InPlace(g, t) && Tree(h, t)
    ensures Spread(g, c, valid, h, t, [], l, x) == []
    decreases t.level(x)
  {
    if x != l && t.up(x).Some? { SpreadNone(g, c, valid, h, t, l, t.up(x).value.l); }
  }

  lemma {:induction false} SumAside(g: Graph, c: Ctx, valid: string -> bool, h: Heap, t: Layout, apps: seq<App>, l: Loc, x: Loc)
    requires InPlace(g, t) && Tree(h, t) && OneDown(h, apps, l) && (x == l || !Within(h, t, l, x))
    ensures Sum(g, c, valid, h, t, apps, x) == []
    decreases |apps|
  {
    hide InPlace, Tree, Spread, Within, Resolve;
    if apps != [] {
      var a := apps[|apps| - 1];
      SumAside(g, c, valid, h, t, apps[..|apps| - 1], l, x);
      var v := Resolve(h, a.target);
      if v.Some? && v.value.Ref? {
        DownChild(h, t, a.target, l, v.value.l);
        if Within(h, t, v.value.l, x) { WithinChild(h, t, l, v.value.l, x); }
        SpreadAside(g, c, valid, h, t, HereSlot(g, t, a.slot), v.value.l, x);
      }
    }
  }

  // ---------------------------------------------------------------- the lists of a plan give what the schema gives

  lemma HereKept(g: Graph, t: Layout, s: Slot)
    requires InPlace(g, t)
    ensures HereSlot(g, t, Kept(g, s)) == HereSlot(g, t, s)
  {
  }

  lemma {:induction false} BelowLands(g: Graph, h: Heap, t: Layout, p: Plan, ps: seq<Property>, j: nat, l: Loc, k: string, y: Loc, novel: set<string>, path: seq<NodeId>)
    requires InPlace(g, t) && Tree(h, t) && HasRef(h, l, k, y) && j <= |ps| && p.below == WithSlots(ps, KeptAll(g, SlotsOf(ps)))
    ensures Landed(g, h, t, BelowApps(p, l, novel, path, None)[..j], y) == HereAll(g, t, ForKey(ps[..j], k))
    decreases j
  {
    hide InPlace, Landed, HereSlot, HereAll, Kept, Resolve, Tree;
    var all := BelowApps(p, l, novel, path, None);
    HereOne(g, t, None);
    LandedEmpty(g, h, t, y);
    if j > 0 {
      var init, a := ps[..j], all[j - 1];
      assert init[..j - 1] == ps[..j - 1] && all[..j] == all[..j - 1] + [a];
      BelowLands(g, h, t, p, ps, j - 1, l, k, y, novel, path);
      HereKept(g, t, ps[j - 1].slot);
      SamePlace(h, t, l, ps[j - 1].key, k, y);
      assert a.slot == Kept(g, ps[j - 1].slot) && a.target == Member(l, ps[j - 1].key);
      LandedOne(g, h, t, all[..j - 1], a, y);
      HereAllCat(g, t, ForKey(init[..j - 1], k), [ps[j - 1].slot]);
      HereAllCat(g, t, ForKey(init[..j - 1], k), []);
      HereOne(g, t, ps[j - 1].slot);
    }
  }

  lemma HereOne(g: Graph, t: Layout, s: Slot)
    requires InPlace(g, t)
    ensures HereAll(g, t, [s]) == HereSlot(g, t, s) && HereAll(g, t, []) == []
  {
    hide InPlace, Here;
    assert [s][..0] == [];
    assert HereAll(g, t, [s]) == HereAll(g, t, [s][..0]) + HereSlot(g, t, s);
  }

  /** A container stands at one place. */
  lemma SamePlace(h: Heap, t: Layout, l: Loc, k: string, k': string, y: Loc)
    requires Tree(h, t) && HasRef(h, l, k', y)
    ensures Resolve(h, Member(l, k)) == Some(Ref(y)) <==> k == k'
  {
    assert Under(h, Spot(l, AtKey(k')), y);
    assert Under(h, Spot(l, AtKey(k)), y) <==> HasRef(h, l, k, y);
  }

  lemma {:induction false} PatternsLand(g: Graph, c: Ctx, valid: string -> bool, h: Heap, t: Layout, ps: seq<Property>, l: Loc, k: string, y: Loc)
    requires InPlace(g, t) && HasRef(h, l, k, y)
    ensures Landed(g, h, t, PatternApps(c, Usable(WithSlots(ps, KeptAll(g, SlotsOf(ps))), valid), l, k, None), y) == HereAll(g, t, ForPatterns(c, valid, ps, k))
    decreases |ps|
  {
    hide InPlace, HereSlot, HereAll, Landed, Kept, Usable, PatternApps;
    LandedEmpty(g, h, t, y);
    HereOne(g, t, None);
    PatternSteps(g, c, valid, ps, l, k);
    if ps != [] {
      var init, p := ps[..|ps| - 1], ps[|ps| - 1];
      PatternsLand(g, c, valid, h, t, init, l, k, y);
      var apps := PatternApps(c, Usable(WithSlots(init, KeptAll(g, SlotsOf(init))), valid), l, k, None);
      LandedOne(g, h, t, apps, App(Kept(g, p.slot), Member(l, k), None), y);
      HereKept(g, t, p.slot);
      HereOne(g, t, p.slot);
      HereAllCat(g, t, ForPatterns(c, valid, init, k), [p.slot]);
      HereAllCat(g, t, ForPatterns(c, valid, init, k), []);
      assert Resolve(h, Member(l, k)) == Some(Ref(y));
      if valid(p.key) && c.matches(p.key, k) {
        assert ForPatterns(c, valid, ps, k) == ForPatterns(c, valid, init, k) + [p.slot];
      } else {
        assert ForPatterns(c, valid, ps, k) == ForPatterns(c, valid, init, k) + [] && apps + [] == apps;
      }
    }
  }

  /** The last pattern gives an application where it compiles and matches. */
  lemma PatternSteps(g: Graph, c: Ctx, valid: string -> bool, ps: seq<Property>, l: Loc, k: string)
    ensures var apps := PatternApps(c, Usable(WithSlots(ps, KeptAll(g, SlotsOf(ps))), valid), l, k, None);
      if ps == [] then apps == []
      else
        var init, p := ps[..|ps| - 1], ps[|ps| - 1];
        apps == PatternApps(c, Usable(WithSlots(init, KeptAll(g, SlotsOf(init))), valid), l, k, None)
                + (if valid(p.key) && c.matches(p.key, k) then [App(Kept(g, p.slot), Member(l, k), None)] else [])
  {
    hide Kept;
    if ps != [] {
      var init, p, all := ps[..|ps| - 1], ps[|ps| - 1], WithSlots(ps, KeptAll(g, SlotsOf(ps)));
      assert all[..|all| - 1] == WithSlots(init, KeptAll(g, SlotsOf(init)));
      assert all[|all| - 1] == Property(p.key, Kept(g, p.slot));
      var before := Usable(all[..|all| - 1], valid);
      if valid(p.key) { assert Usable(all, valid)[..|before|] == before; }
    }
  }

  lemma LandedOne(g: Graph, h: Heap, t: Layout, apps: seq<App>, a: App, y: Loc)
    requires InPlace(g, t)
    ensures Landed(g, h, t, apps + [a], y) == Landed(g, h, t, apps, y) + (if Resolve(h, a.target) == Some(Ref(y)) then HereSlot(g, t, a.slot) else [])
  {
    hide InPlace, HereSlot, Resolve;
    assert (apps + [a])[..|apps|] == apps;
  }

  lemma {:induction false} LandedCat(g: Graph, h: Heap, t: Layout, a: seq<App>, b: seq<App>, y: Loc)
    requires InPlace(g, t)
    ensures Landed(g, h, t, a + b, y) == Landed(g, h, t, a, y) + Landed(g, h, t, b, y)
    decreases |b|
  {
    hide InPlace, HereSlot, Resolve;
    if b == [] {
      assert a + b == a;
    } else {
      assert (a + b)[..|a + b| - 1] == a + b[..|b| - 1];
      LandedCat(g, h, t, a, b[..|b| - 1], y);
    }
  }

  /** Patterns, or the additional schema, for the one key at which the container stands. */
  ghost function OpenGives(g: Graph, c: Ctx, valid: string -> bool, t: Layout, s: Node, k: string): seq<NodeId>
    requires InPlace(g, t)
  {
    HereAll(g, t, ForPatterns(c, valid, s.patterns, k)) + (if IsAdditional(s, c, valid, k) then HereSlot(g, t, s.additional) else [])
  }

  lemma {:induction false} KeysLand(g: Graph, c: Ctx, valid: string -> bool, h: Heap, t: Layout, n: NodeId, l: Loc, keys: seq<string>, k: string, y: Loc)
    requires InPlace(g, t) && Tree(h, t) && n in g && HasRef(h, l, k, y) && NoRepeats(keys)
    ensures Landed(g, h, t, KeyApps(c, PlanOf(g, n, valid), l, keys, None), y) == if k in keys then OpenGives(g, c, valid, t, g[n], k) else []
    decreases |keys|
  {
    hide InPlace, Tree, PlanOf, HereSlot, IsAdditional, Matched, Landed;
    if keys == [] {
      LandedEmpty(g, h, t, y);
    } else {
      var p := PlanOf(g, n, valid);
      var init, k' := keys[..|keys| - 1], keys[|keys| - 1];
      assert keys == init + [k'];
      KeysLand(g, c, valid, h, t, n, l, init, k, y);
      var pats := PatternApps(c, p.patterns, l, k', None);
      var extra := if !Matched(c, p, k') && k' !in p.declared then [App(p.extra, Member(l, k'), None)] else [];
      LandedCat(g, h, t, KeyApps(c, p, l, init, None) + pats, extra, y);
      LandedCat(g, h, t, KeyApps(c, p, l, init, None), pats, y);
      KeyLands(g, c, valid, h, t, n, l, k', k, y);
    }
  }

  lemma LandedEmpty(g: Graph, h: Heap, t: Layout, y: Loc)
    requires InPlace(g, t)
    ensures Landed(g, h, t, [], y) == []
  {
  }

  lemma KeyLands(g: Graph, c: Ctx, valid: string -> bool, h: Heap, t: Layout, n: NodeId, l: Loc, k': string, k: string, y: Loc)
    requires InPlace(g, t) && Tree(h, t) && n in g && HasRef(h, l, k, y)
    ensures var p := PlanOf(g, n, valid);
      var pats := PatternApps(c, p.patterns, l, k', None);
      var extra := if !Matched(c, p, k') && k' !in p.declared then [App(p.extra, Member(l, k'), None)] else [];
      Landed(g, h, t, pats, y) + Landed(g, h, t, extra, y) == if k' == k then OpenGives(g, c, valid, t, g[n], k) else []
  {
    hide InPlace, Tree, HereSlot, IsAdditional, Matched, Usable;
    var p := PlanOf(g, n, valid);
    var pats := PatternApps(c, p.patterns, l, k', None);
    SamePlace(h, t, l, k', k, y);
    var app := App(p.extra, Member(l, k'), None);
    LandedEmpty(g, h, t, y);
    LandedOne(g, h, t, [], app, y);
    assert [] + [app] == [app];
    if k' == k {
      PatternsLand(g, c, valid, h, t, g[n].patterns, l, k, y);
      ExtraIff(g, c, valid, n, k);
      HereKept(g, t, g[n].additional);
    } else {
      ElsewhereLands(g, c, h, t, p.patterns, l, k', y);
    }
  }

  lemma {:induction false} ElsewhereLands(g: Graph, c: Ctx, h: Heap, t: Layout, ps: seq<Property>, l: Loc, k: string, y: Loc)
    requires InPlace(g, t) && Resolve(h, Member(l, k)) != Some(Ref(y))
    ensures Landed(g, h, t, PatternApps(c, ps, l, k, None), y) == []
    decreases |ps|
  {
    hide InPlace, HereSlot, Resolve;
    if ps != [] {
      ElsewhereLands(g, c, h, t, ps[..|ps| - 1], l, k, y);
      LandedOne(g, h, t, PatternApps(c, ps[..|ps| - 1], l, k, None), App(ps[|ps| - 1].slot, Member(l, k), None), y);
    }
  }

  lemma ExtraIff(g: Graph, c: Ctx, valid: string -> bool, n: NodeId, k: string)
    requires n in g
    ensures var p := PlanOf(g, n, valid); (!Matched(c, p, k) && k !in p.declared) <==> IsAdditional(g[n], c, valid, k)
  {
    var s, p := g[n], PlanOf(g, n, valid);
    if IsAdditional(s, c, valid, k) { AdditionalPlanned(g, c, valid, n, k); }
    if !Matched(c, p, k) && k !in p.declared {
      forall i | 0 <= i < |s.patterns| && valid(s.patterns[i].key) ensures !c.matches(s.patterns[i].key, k) {
        var j := PatternPlanned(g, valid, n, i);
        assert !c.matches(p.patterns[j].key, k);
      }
    }
  }

  lemma {:induction false} ElemsLand(g: Graph, h: Heap, t: Layout, p: Plan, l: Loc, m: nat, j: nat, i: nat, y: Loc)
    requires InPlace(g, t) && Tree(h, t) && ElemAt(h, l, i) == Some(Ref(y)) && j <= m
    ensures Landed(g, h, t, ElemApps(p, l, m, None)[..j], y) == if i < j then HereSlot(g, t, ElemSlot(p, i)) else []
    decreases j
  {
    hide InPlace, Tree, Landed, HereSlot, Resolve;
    LandedEmpty(g, h, t, y);
    if j > 0 {
      var all := ElemApps(p, l, m, None);
      assert all[..j] == all[..j - 1] + [all[j - 1]];
      ElemsLand(g, h, t, p, l, m, j - 1, i, y);
      LandedOne(g, h, t, all[..j - 1], all[j - 1], y);
      SameIndex(h, t, l, j - 1, i, y);
      assert all[j - 1].target == Elem(l, j - 1);
    }
  }

  lemma SameIndex(h: Heap, t: Layout, l: Loc, i: nat, i': nat, y: Loc)
    requires Tree(h, t) && ElemAt(h, l, i') == Some(Ref(y))
    ensures Resolve(h, Elem(l, i)) == Some(Ref(y)) <==> i == i'
  {
    assert Under(h, Spot(l, AtIndex(i')), y);
    assert Under(h, Spot(l, AtIndex(i)), y) <==> ElemAt(h, l, i) == Some(Ref(y));
  }

  /** What the body's first two lists give one container below is what the schema gives it. */
  lemma ListsLand(g: Graph, c: Ctx, valid: string -> bool, h: Heap, t: Layout, st: St, n: NodeId, l: Loc, y: Loc, novel: set<string>, path: seq<NodeId>)
    requires InPlace(g, t) && Tree(h, t) && n in g && t.up(y).Some? && t.up(y).value.l == l
    requires ScalarGrowth(h, st.heap) && HeapOk(st.heap) && (l in st.heap && st.heap[l].ObjCell? ==> NoRepeats(st.heap[l].keys))
    ensures var p := PlanOf(g, n, valid);
      Landed(g, h, t, BelowApps(p, l, novel, path, None), y) + Landed(g, h, t, InsideApps(c, st, p, l, None), y)
      == HereAll(g, t, Gives(c, valid, g[n], t.up(y).value.at))
  {
    hide InPlace, Landed, HereSlot, HereAll, Tree, ScalarGrowth, IsAdditional, Kept, KeyApps, BelowApps, ElemApps, HasRef, ElemAt;
    TreeUp(h, t, y);
    match t.up(y).value.at
    case AtKey(k) => KeyListsLand(g, c, valid, h, t, st, n, l, k, y, novel, path);
    case AtIndex(i) => ElemListsLand(g, c, valid, h, t, st, n, l, i, y, novel, path);
  }

  lemma KeyListsLand(g: Graph, c: Ctx, valid: string -> bool, h: Heap, t: Layout, st: St, n: NodeId, l: Loc, k: string, y: Loc, novel: set<string>, path: seq<NodeId>)
    requires InPlace(g, t) && Tree(h, t) && n in g && HasRef(h, l, k, y)
    requires ScalarGrowth(h, st.heap) && HeapOk(st.heap) && (l in st.heap && st.heap[l].ObjCell? ==> NoRepeats(st.heap[l].keys))
    ensures var p := PlanOf(g, n, valid);
      Landed(g, h, t, BelowApps(p, l, novel, path, None), y) + Landed(g, h, t, InsideApps(c, st, p, l, None), y)
      == HereAll(g, t, Gives(c, valid, g[n], AtKey(k)))
  {
    hide InPlace, Landed, HereSlot, HereAll, Tree, Kept, KeyApps, BelowApps, IsAdditional, ForPatterns, ForKey, Keyed, PlanOf;
    var p, s := PlanOf(g, n, valid), g[n];
    var below := BelowApps(p, l, novel, path, None);
    assert below[..|s.props|] == below && s.props[..|s.props|] == s.props && p.below == WithSlots(s.props, KeptAll(g, SlotsOf(s.props))) by { BelowIs(g, n, valid, l, novel, path); }
    BelowLands(g, h, t, p, s.props, |s.props|, l, k, y, novel, path);
    assert CellGrowsByScalars(h[l], st.heap[l]);
    assert k in st.heap[l].m && k in st.heap[l].keys;
    var more := if IsAdditional(s, c, valid, k) then [s.additional] else [];
    HereAllCat(g, t, ForKey(s.props, k) + ForPatterns(c, valid, s.patterns, k), more);
    HereAllCat(g, t, ForKey(s.props, k), ForPatterns(c, valid, s.patterns, k));
    HereOne(g, t, s.additional);
    if Keyed(p) {
      KeysLand(g, c, valid, h, t, n, l, st.heap[l].keys, k, y);
    } else {
      NothingOpen(g, c, valid, t, n, k);
      LandedEmpty(g, h, t, y);
    }
  }

  lemma BelowIs(g: Graph, n: NodeId, valid: string -> bool, l: Loc, novel: set<string>, path: seq<NodeId>)
    requires n in g
    ensures var p := PlanOf(g, n, valid); p.below == WithSlots(g[n].props, KeptAll(g, SlotsOf(g[n].props))) && |BelowApps(p, l, novel, path, None)| == |g[n].props|
  {
  }

  /** Where the pass does not look at the keys, no default is reachable through them. */
  lemma NothingOpen(g: Graph, c: Ctx, valid: string -> bool, t: Layout, n: NodeId, k: string)
    requires InPlace(g, t) && n in g && !Keyed(PlanOf(g, n, valid))
    ensures OpenGives(g, c, valid, t, g[n], k) == []
  {
    var s, p := g[n], PlanOf(g, n, valid);
    HereKept(g, t, s.additional);
    forall i | 0 <= i < |s.patterns| && valid(s.patterns[i].key) ensures Kept(g, s.patterns[i].slot).None? {
      var j := PatternPlanned(g, valid, n, i);
      assert p.patterns[j].slot.None?;
    }
    NoPatterns(g, c, valid, t, s.patterns, |s.patterns|, k);
    assert s.patterns[..|s.patterns|] == s.patterns;
  }

  lemma {:induction false} NoPatterns(g: Graph, c: Ctx, valid: string -> bool, t: Layout, ps: seq<Property>, j: nat, k: string)
    requires InPlace(g, t) && j <= |ps|
    requires forall i :: 0 <= i < |ps| && valid(ps[i].key) ==> Kept(g, ps[i].slot).None?
    ensures HereAll(g, t, ForPatterns(c, valid, ps[..j], k)) == []
    decreases j
  {
    hide InPlace, Here, HereAll, Kept;
    HereOne(g, t, None);
    if j > 0 {
      assert ps[..j][..j - 1] == ps[..j - 1];
      NoPatterns(g, c, valid, t, ps, j - 1, k);
      var before := ForPatterns(c, valid, ps[..j - 1], k);
      HereAllCat(g, t, before, [ps[j - 1].slot]);
      HereAllCat(g, t, before, []);
      HereOne(g, t, ps[j - 1].slot);
      HereKept(g, t, ps[j - 1].slot);
    }
  }

  lemma ElemListsLand(g: Graph, c: Ctx, valid: string -> bool, h: Heap, t: Layout, st: St, n: NodeId, l: Loc, i: nat, y: Loc, novel: set<string>, path: seq<NodeId>)
    requires InPlace(g, t) && Tree(h, t) && n in g && ElemAt(h, l, i) == Some(Ref(y)) && ScalarGrowth(h, st.heap)
    ensures var p := PlanOf(g, n, valid);
      Landed(g, h, t, BelowApps(p, l, novel, path, None), y) + Landed(g, h, t, InsideApps(c, st, p, l, None), y)
      == HereAll(g, t, Gives(c, valid, g[n], AtIndex(i)))
  {
    hide InPlace, Landed, HereAll, Tree, Kept, ElemApps, HereSlot;
    var p, s := PlanOf(g, n, valid), g[n];
    assert CellGrowsByScalars(h[l], st.heap[l]);
    var m := |h[l].a|;
    NoMembers(g, h, t, BelowApps(p, l, novel, path, None), l, y);
    ElemsLand(g, h, t, p, l, m, m, i, y);
    assert |ElemApps(p, l, m, None)| == m by { ElemCount(p, l, m); }
    assert ElemApps(p, l, m, None)[..m] == ElemApps(p, l, m, None);
    var slot := if i < |s.prefixItems| then s.prefixItems[i] else s.items;
    assert ElemSlot(p, i) == Kept(g, slot);
    HereKept(g, t, slot);
    HereOne(g, t, slot);
  }

  lemma ElemCount(p: Plan, l: Loc, m: nat)
    ensures |ElemApps(p, l, m, None)| == m
  {
  }

  lemma {:induction false} NoMembers(g: Graph, h: Heap, t: Layout, apps: seq<App>, l: Loc, y: Loc)
    requires InPlace(g, t) && l in h && h[l].ArrCell? && forall i :: 0 <= i < |apps| ==> apps[i].target.Member? && apps[i].target.l == l
    ensures Landed(g, h, t, apps, y) == []
    decreases |apps|
  {
    hide InPlace, HereSlot;
    if apps != [] { NoMembers(g, h, t, apps[..|apps| - 1], l, y); }
  }

  // ---------------------------------------------------------------- the body as a whole

  /** The first two lists of the body give what the schema itself comes to below the container. */
  lemma SumBody(g: Graph, c: Ctx, valid: string -> bool, h: Heap, t: Layout, st: St, n: NodeId, l: Loc, x: Loc, novel: set<string>, path: seq<NodeId>)
    requires InPlace(g, t) && Tree(h, t) && n in g
    requires ScalarGrowth(h, st.heap) && HeapOk(st.heap) && (l in st.heap && st.heap[l].ObjCell? ==> NoRepeats(st.heap[l].keys))
    ensures var p := PlanOf(g, n, valid);
      Sum(g, c, valid, h, t, BelowApps(p, l, novel, path, None), x) + Sum(g, c, valid, h, t, InsideApps(c, st, p, l, None), x)
      == if x == l then [] else Spread(g, c, valid, h, t, [n], l, x)
  {
    hide InPlace, Tree, Spread, Sum, Landed, BelowApps, InsideApps, PlanOf, ScalarGrowth, Within, HereAll, Gives;
    var p := PlanOf(g, n, valid);
    var below, inside := BelowApps(p, l, novel, path, None), InsideApps(c, st, p, l, None);
    ListsDown(c, h, st, p, l, novel, path);
    if x == l || !Within(h, t, l, x) {
      SumAside(g, c, valid, h, t, below, l, x);
      SumAside(g, c, valid, h, t, inside, l, x);
      if x != l { SpreadAside(g, c, valid, h, t, [n], l, x); }
    } else {
      var y := ChildOn(h, t, l, x);
      var at := t.up(y).value.at;
      SumChild(g, c, valid, h, t, below, l, y, x);
      SumChild(g, c, valid, h, t, inside, l, y, x);
      SpreadCat(g, c, valid, h, t, Landed(g, h, t, below, y), Landed(g, h, t, inside, y), y, x);
      ListsLand(g, c, valid, h, t, st, n, l, y, novel, path);
      SpreadDown(g, c, valid, h, t, [n], l, at, y, x);
      ExpandOne(g, c, valid, t, n, at);
    }
  }

  lemma ExpandOne(g: Graph, c: Ctx, valid: string -> bool, t: Layout, n: NodeId, at: Place)
    requires InPlace(g, t) && n in g
    ensures Expand(g, c, valid, t, [n], at) == HereAll(g, t, Gives(c, valid, g[n], at))
  {
    hide InPlace, Gives, HereAll;
    assert [n][..0] == [];
    assert Expand(g, c, valid, t, [n], at) == Expand(g, c, valid, t, [n][..0], at) + HereAll(g, t, Gives(c, valid, g[n], at));
  }

  lemma ListsDown(c: Ctx, h: Heap, st: St, p: Plan, l: Loc, novel: set<string>, path: seq<NodeId>)
    ensures OneDown(h, BelowApps(p, l, novel, path, None), l) && OneDown(h, InsideApps(c, st, p, l, None), l)
  {
    hide KeyApps;
    if l in st.heap && st.heap[l].ObjCell? { KeysDown(c, h, p, l, st.heap[l].keys); }
  }

  lemma {:induction false} KeysDown(c: Ctx, h: Heap, p: Plan, l: Loc, keys: seq<string>)
    ensures OneDown(h, KeyApps(c, p, l, keys, None), l)
    decreases |keys|
  {
    hide PatternApps;
    if keys != [] {
      KeysDown(c, h, p, l, keys[..|keys| - 1]);
      PatternsDown(c, h, p.patterns, l, keys[|keys| - 1]);
    }
  }

  lemma {:induction false} PatternsDown(c: Ctx, h: Heap, ps: seq<Property>, l: Loc, k: string)
    ensures OneDown(h, PatternApps(c, ps, l, k, None), l)
    decreases |ps|
  {
    if ps != [] { PatternsDown(c, h, ps[..|ps| - 1], l, k); }
  }

  /** The last list gives what stands beside the schema. */
  lemma {:induction false} SumAlso(g: Graph, c: Ctx, valid: string -> bool, h: Heap, t: Layout, n: NodeId, l: Loc, x: Loc, j: nat)
    requires InPlace(g, t) && Tree(h, t) && n in g && j <= |Beside(g[n])| && |AlsoApps(PlanOf(g, n, valid), l, None)| == |Beside(g[n])|
    ensures Sum(g, c, valid, h, t, AlsoApps(PlanOf(g, n, valid), l, None)[..j], x) == Spread(g, c, valid, h, t, HereBeside(g, t, n, j), l, x)
    decreases j
  {
    hide InPlace, Tree, Spread, PlanOf, Here, AlsoApps, Beside, Kept;
    var all := AlsoApps(PlanOf(g, n, valid), l, None);
    if j == 0 {
      SpreadNone(g, c, valid, h, t, l, x);
    } else {
      assert all[..j][..j - 1] == all[..j - 1] && all[..j][j - 1] == all[j - 1];
      SumAlso(g, c, valid, h, t, n, l, x, j - 1);
      var s := Beside(g[n])[j - 1];
      AlsoIs(g, n, valid, l, j - 1);
      HereKept(g, t, s);
      SpreadCat(g, c, valid, h, t, HereBeside(g, t, n, j - 1), HereSlot(g, t, s), l, x);
    }
  }

  lemma AlsoIs(g: Graph, n: NodeId, valid: string -> bool, l: Loc, i: nat)
    requires n in g && i < |Beside(g[n])|
    ensures var apps := AlsoApps(PlanOf(g, n, valid), l, None);
      |apps| == |Beside(g[n])| && apps[i] == App(Kept(g, Beside(g[n])[i]), Self(l), None)
  {
  }

  // ---------------------------------------------------------------- what has been decided so far

  /** What has been applied to each container, in order. */
  type Applied = Loc -> seq<NodeId>

  /** A member that was there is there; any other is there with the default decided on, if there is one. */
  predicate WonAt(c0: Cell, c1: Cell, k: string, d: Option<Doc>)
    requires c0.ObjCell? && c1.ObjCell?
  {
    if k in c0.m then k in c1.m && c1.m[k] == c0.m[k]
    else if d.Some? then d.value.DScalar? && k in c1.m && c1.m[k] == Prim(d.value.v)
    else k !in c1.m
  }

  ghost predicate Won(g: Graph, h: Heap, done: Applied, h': Heap) {
    forall l :: l in h && h[l].ObjCell? ==>
      && l in h' && h'[l].ObjCell? && NoRepeats(h'[l].keys)
      && forall k :: WonAt(h[l], h'[l], k, First(g, done(l), k))
  }

  /** Schemas applied after those that decided change nothing. */
  lemma WonMore(g: Graph, h: Heap, done: Applied, more: Applied, h': Heap)
    requires Won(g, h, done, h')
    requires forall l, k :: l in h && h[l].ObjCell? ==> First(g, more(l), k) == First(g, done(l), k) || k in h[l].m
    ensures Won(g, h, more, h')
  {
    hide First;
    forall l, k | l in h && h[l].ObjCell? ensures WonAt(h[l], h'[l], k, First(g, more(l), k)) {
      assert WonAt(h[l], h'[l], k, First(g, done(l), k));
    }
  }

  function Else(a: Option<Doc>, b: Option<Doc>): Option<Doc> { if a.Some? then a else b }

  lemma {:induction false} FillWon(g: Graph, h: Heap, done: seq<NodeId>, st: St, ps: seq<Property>, j: nat, l: Loc)
    requires ScalarDefaults(g) && HeapOk(st.heap) && j <= |ps| && FilledAt(g, h, done, st.heap, ps, 0, l)
    ensures var h' := FillOwn(st, l, OwnDefaults(g, ps[..j])).0.heap;
      && HeapOk(h') && h'.Keys == st.heap.Keys && (forall x :: x in st.heap && x != l ==> h'[x] == st.heap[x])
      && FilledAt(g, h, done, h', ps, j, l)
    decreases j
  {
    hide FilledAt, First, OwnFor, FillOwn, HeapOk, ScalarDefaults, SetMember;
    if j == 0 {
      NothingFilled(st, l);
      assert ps[..0] == [];
    } else {
      var init, p := ps[..j - 1], ps[j - 1];
      assert ps[..j][..j - 1] == init;
      FillWon(g, h, done, st, ps, j - 1, l);
      var st1 := FillOwn(st, l, OwnDefaults(g, init)).0;
      if Defaulted(g, p) {
        var d := g[p.slot.value].dflt.value;
        assert OwnDefaults(g, ps[..j]) == OwnDefaults(g, init) + [(p.key, d)];
        assert d.DScalar? by { ScalarHere(g, p); }
        FillSnoc(st, l, OwnDefaults(g, init), p.key, d);
        WriteWon(g, h, done, st1, ps, j - 1, l);
      } else {
        assert OwnDefaults(g, ps[..j]) == OwnDefaults(g, init);
        PassWon(g, h, done, st1.heap, ps, j - 1, l);
      }
    }
  }

  lemma ScalarHere(g: Graph, p: Property)
    requires ScalarDefaults(g) && Defaulted(g, p)
    ensures g[p.slot.value].dflt.value.DScalar?
  {
  }

  lemma NothingFilled(st: St, l: Loc)
    ensures FillOwn(st, l, []).0 == st
  {
  }

  lemma FillSnoc(st: St, l: Loc, own: seq<(string, Doc)>, k: string, d: Doc)
    requires d.DScalar? && HeapOk(FillOwn(st, l, own).0.heap)
    ensures var h := FillOwn(st, l, own).0.heap;
      var h' := FillOwn(st, l, own + [(k, d)]).0.heap;
      && h' == (if l !in h || !h[l].ObjCell? || k in h[l].m then h else h[l := SetMember(h[l], k, Prim(d.v))])
      && HeapOk(h') && h'.Keys == h.Keys && forall x :: x in h && x != l ==> h'[x] == h[x]
  {
    assert (own + [(k, d)])[..|own|] == own;
  }

  /** The object once the first `j` properties of a schema have been looked at. */
  ghost predicate FilledAt(g: Graph, h: Heap, done: seq<NodeId>, h': Heap, ps: seq<Property>, j: nat, l: Loc)
    requires j <= |ps|
  {
    l in h && h[l].ObjCell? ==>
      (l in h' && h'[l].ObjCell? && NoRepeats(h'[l].keys) && forall k :: WonAt(h[l], h'[l], k, Else(First(g, done, k), OwnFor(g, ps[..j], k))))
  }

  lemma OwnForNext(g: Graph, ps: seq<Property>, j: nat, k: string)
    requires j < |ps|
    ensures OwnFor(g, ps[..j + 1], k) == Else(OwnFor(g, ps[..j], k), if ps[j].key == k && Defaulted(g, ps[j]) then g[ps[j].slot.value].dflt else None)
  {
    assert ps[..j + 1][..j] == ps[..j];
  }

  lemma PassWon(g: Graph, h: Heap, done: seq<NodeId>, h': Heap, ps: seq<Property>, j: nat, l: Loc)
    requires j < |ps| && !Defaulted(g, ps[j]) && FilledAt(g, h, done, h', ps, j, l)
    ensures FilledAt(g, h, done, h', ps, j + 1, l)
  {
    hide First, OwnFor;
    forall k ensures OwnFor(g, ps[..j + 1], k) == OwnFor(g, ps[..j], k) { OwnForNext(g, ps, j, k); }
  }

  lemma WriteWon(g: Graph, h: Heap, done: seq<NodeId>, st: St, ps: seq<Property>, j: nat, l: Loc)
    requires ScalarDefaults(g) && HeapOk(st.heap) && j < |ps| && Defaulted(g, ps[j]) && FilledAt(g, h, done, st.heap, ps, j, l)
    ensures var (k, d) := (ps[j].key, g[ps[j].slot.value].dflt.value);
      var h' := if l !in st.heap || !st.heap[l].ObjCell? || k in st.heap[l].m then st.heap else st.heap[l := SetMember(st.heap[l], k, Prim(d.v))];
      FilledAt(g, h, done, h', ps, j + 1, l)
  {
    hide First, OwnFor;
    forall k ensures OwnFor(g, ps[..j + 1], k) == Else(OwnFor(g, ps[..j], k), if ps[j].key == k then g[ps[j].slot.value].dflt else None) { OwnForNext(g, ps, j, k); }
  }

  function WithOne(done: Applied, l: Loc, n: NodeId): Applied { x => done(x) + (if x == l then [n] else []) }

  lemma FilledWon(g: Graph, h: Heap, done: Applied, st: St, n: NodeId, l: Loc)
    requires ScalarDefaults(g) && HeapOk(st.heap) && n in g && ScalarGrowth(h, st.heap) && Won(g, h, done, st.heap)
    ensures Won(g, h, WithOne(done, l, n), FillOwn(st, l, OwnDefaults(g, g[n].props)).0.heap)
  {
    hide First, OwnDefaults;
    var ps := g[n].props;
    assert ps[..|ps|] == ps;
    StartFilled(g, h, done, st.heap, ps, l);
    FillWon(g, h, done(l), st, ps, |ps|, l);
    var h' := FillOwn(st, l, OwnDefaults(g, ps)).0.heap;
    forall x | x in h && h[x].ObjCell?
      ensures x in h' && h'[x].ObjCell? && NoRepeats(h'[x].keys) && forall k :: WonAt(h[x], h'[x], k, First(g, WithOne(done, l, n)(x), k))
    {
      forall k ensures WonAt(h[x], h'[x], k, First(g, WithOne(done, l, n)(x), k)) {
        if x == l {
          FirstCat(g, done(l), [n], k);
          FirstOne(g, n, k);
        } else {
          assert done(x) + [] == done(x);
          assert WonAt(h[x], st.heap[x], k, First(g, done(x), k));
        }
      }
    }
  }

  lemma StartFilled(g: Graph, h: Heap, done: Applied, h': Heap, ps: seq<Property>, l: Loc)
    requires Won(g, h, done, h')
    ensures FilledAt(g, h, done(l), h', ps, 0, l)
  {
    hide First;
    assert ps[..0] == [];
    if l in h && h[l].ObjCell? {
      forall k ensures WonAt(h[l], h'[l], k, Else(First(g, done(l), k), OwnFor(g, ps[..0], k))) { assert WonAt(h[l], h'[l], k, First(g, done(l), k)); }
    }
  }

  lemma FirstOne(g: Graph, n: NodeId, k: string)
    requires n in g
    ensures First(g, [n], k) == OwnFor(g, g[n].props, k)
  {
    hide OwnFor;
    assert [n][..0] == [];
    assert First(g, [n], k) == Else(First(g, [n][..0], k), OwnFor(g, g[n].props, k));
  }

  // ---------------------------------------------------------------- what is skipped has been decided

  /** The applications still running are above, or lead here in place. */
  ghost predicate Clear(t: Layout, active: set<Pair>, n: NodeId, l: Loc) {
    forall a: Pair :: a in active ==> t.level(a.1) < t.level(l) || (a.1 == l && t.rank(n) < t.rank(a.0))
  }

  ghost predicate Settling(g: Graph, c: Ctx, valid: string -> bool, root: NodeId, h: Heap, t: Layout, st: St, active: set<Pair>) {
    && Compiled(g, c, valid, root) && ScalarDefaults(g) && InPlace(g, t) && Tree(h, t) && HeapOk(h)
    && Inv(c, st, active) && ScalarGrowth(h, st.heap)
  }

  /** One application on from one that is settled. */
  lemma NextLogged(g: Graph, c: Ctx, valid: string -> bool, root: NodeId, h: Heap, t: Layout, st: St, active: set<Pair>, a: Pair, b: Pair)
    requires Settling(g, c, valid, root, h, t, st, active) && !st.hit && a in st.log && a.0 in c.plans && Clear(t, active, a.0, a.1)
    requires Reaches(g, b.0) && AppliesNext(g, c, valid, h, a, b)
    ensures b in st.log && b.0 in c.plans
  {
    hide Compiled, AppliesNext, Tree, InPlace, Leads, Filled, VisitsLogged, ScalarGrowth, Reaches;
    PlanLeads(g, c, valid, root, h, a, b);
    LeadsKept(c, h, st.heap, a, b);
    assert Settled(c, st.heap, st.log, a);
  }

  ghost predicate SlotsLogged(c: Ctx, t: Layout, st: St, active: set<Pair>, ns: seq<NodeId>, x: Loc) {
    forall i :: 0 <= i < |ns| ==> ns[i] in c.plans && (ns[i], x) in st.log && Clear(t, active, ns[i], x)
  }

  lemma {:induction false} HereLogged(g: Graph, c: Ctx, valid: string -> bool, root: NodeId, h: Heap, t: Layout, st: St, active: set<Pair>, n: NodeId, x: Loc)
    requires Settling(g, c, valid, root, h, t, st, active) && !st.hit && n in c.plans && (n, x) in st.log && Clear(t, active, n, x)
    ensures SlotsLogged(c, t, st, active, Here(g, t, n), x)
    decreases t.rank(n), 1, 0
  {
    hide Settling, Clear;
    SettlingParts(g, c, valid, root, h, t, st, active, n);
    if Reaches(g, n) { BesideLogged(g, c, valid, root, h, t, st, active, n, x, |Beside(g[n])|); }
  }

  lemma SettlingParts(g: Graph, c: Ctx, valid: string -> bool, root: NodeId, h: Heap, t: Layout, st: St, active: set<Pair>, n: NodeId)
    requires Settling(g, c, valid, root, h, t, st, active) && n in c.plans
    ensures InPlace(g, t) && Tree(h, t) && n in g && c.plans[n] == PlanOf(g, n, valid)
  {
  }

  lemma {:induction false} BesideLogged(g: Graph, c: Ctx, valid: string -> bool, root: NodeId, h: Heap, t: Layout, st: St, active: set<Pair>, n: NodeId, x: Loc, j: nat)
    requires Settling(g, c, valid, root, h, t, st, active) && !st.hit && n in c.plans && (n, x) in st.log && Clear(t, active, n, x)
    requires n in g && j <= |Beside(g[n])|
    ensures SlotsLogged(c, t, st, active, HereBeside(g, t, n, j), x)
    decreases t.rank(n), 0, j
  {
    hide Settling, Clear, Reaches, Here;
    SettlingParts(g, c, valid, root, h, t, st, active, n);
    if j > 0 {
      BesideLogged(g, c, valid, root, h, t, st, active, n, x, j - 1);
      var s := Beside(g[n])[j - 1];
      if s.Some? {
        if Reaches(g, s.value) {
          BesideNext(g, c, valid, h, n, x, j - 1);
          NextLogged(g, c, valid, root, h, t, st, active, (n, x), (s.value, x));
          ClearBeside(t, active, n, s.value, x);
          HereLogged(g, c, valid, root, h, t, st, active, s.value, x);
        } else {
          NotReached(g, t, s.value);
        }
      }
    }
  }

  lemma NotReached(g: Graph, t: Layout, n: NodeId)
    requires InPlace(g, t) && !Reaches(g, n)
    ensures Here(g, t, n) == []
  {
  }

  lemma ClearBeside(t: Layout, active: set<Pair>, n: NodeId, m: NodeId, x: Loc)
    requires Clear(t, active, n, x) && t.rank(m) < t.rank(n)
    ensures Clear(t, active, m, x)
  {
  }

  lemma ClearBelow(t: Layout, active: set<Pair>, n: NodeId, m: NodeId, l: Loc, x: Loc)
    requires Clear(t, active, n, l) && t.level(l) < t.level(x)
    ensures Clear(t, active, m, x)
  {
  }

  lemma BesideNext(g: Graph, c: Ctx, valid: string -> bool, h: Heap, n: NodeId, x: Loc, i: nat)
    requires n in g && i < |Beside(g[n])| && Beside(g[n])[i].Some?
    ensures AppliesNext(g, c, valid, h, (n, x), (Beside(g[n])[i].value, x))
  {
    if i > 0 { assert g[n].allOf[i - 1] == Beside(g[n])[i]; }
  }

  lemma {:induction false} ForKeyFrom(ps: seq<Property>, k: string, i: nat) returns (j: nat)
    requires i < |ForKey(ps, k)|
    ensures j < |ps| && ps[j].key == k && ps[j].slot == ForKey(ps, k)[i]
    decreases |ps|
  {
    if i < |ForKey(ps[..|ps| - 1], k)| { j := ForKeyFrom(ps[..|ps| - 1], k, i); } else { j := |ps| - 1; }
  }

  lemma {:induction false} ForPatternsFrom(c: Ctx, valid: string -> bool, ps: seq<Property>, k: string, i: nat) returns (j: nat)
    requires i < |ForPatterns(c, valid, ps, k)|
    ensures j < |ps| && valid(ps[j].key) && c.matches(ps[j].key, k) && ps[j].slot == ForPatterns(c, valid, ps, k)[i]
    decreases |ps|
  {
    if i < |ForPatterns(c, valid, ps[..|ps| - 1], k)| { j := ForPatternsFrom(c, valid, ps[..|ps| - 1], k, i); } else { j := |ps| - 1; }
  }

  /** What a schema gives the value at a place applies to it. */
  lemma GivesNext(g: Graph, c: Ctx, valid: string -> bool, h: Heap, n: NodeId, s: Spot, x: Loc, i: nat)
    requires n in g && Under(h, s, x) && i < |Gives(c, valid, g[n], s.at)| && Gives(c, valid, g[n], s.at)[i].Some?
    ensures AppliesNext(g, c, valid, h, (n, s.l), (Gives(c, valid, g[n], s.at)[i].value, x))
  {
    hide IsAdditional, ForKey, ForPatterns, HasRef;
    var m := g[n];
    match s.at
    case AtIndex(at) => assert ElemAt(h, s.l, at) == Some(Ref(x));
    case AtKey(k) =>
      var one, two := ForKey(m.props, k), ForPatterns(c, valid, m.patterns, k);
      if i < |one| {
        var j := ForKeyFrom(m.props, k, i);
        assert HasRef(h, s.l, m.props[j].key, x);
      } else if i < |one| + |two| {
        var j := ForPatternsFrom(c, valid, m.patterns, k, i - |one|);
        assert HasRef(h, s.l, k, x);
      } else {
        assert HasRef(h, s.l, k, x) && IsAdditional(m, c, valid, k);
      }
  }

  lemma {:induction false} GivenLogged(g: Graph, c: Ctx, valid: string -> bool, root: NodeId, h: Heap, t: Layout, st: St, active: set<Pair>, n: NodeId, x: Loc, j: nat)
    requires Settling(g, c, valid, root, h, t, st, active) && !st.hit && t.up(x).Some?
    requires var l := t.up(x).value.l; n in c.plans && (n, l) in st.log && Clear(t, active, n, l)
    requires n in g && j <= |Gives(c, valid, g[n], t.up(x).value.at)| && InPlace(g, t)
    ensures SlotsLogged(c, t, st, active, HereAll(g, t, Gives(c, valid, g[n], t.up(x).value.at)[..j]), x)
    decreases j
  {
    hide Settling, Clear, Reaches, Here, Gives;
    SettlingParts(g, c, valid, root, h, t, st, active, n);
    if j > 0 {
      var s := t.up(x).value;
      var ss := Gives(c, valid, g[n], s.at);
      assert ss[..j][..j - 1] == ss[..j - 1] && ss[..j][j - 1] == ss[j - 1];
      GivenLogged(g, c, valid, root, h, t, st, active, n, x, j - 1);
      if ss[j - 1].Some? {
        var m := ss[j - 1].value;
        if Reaches(g, m) {
          TreeUp(h, t, x);
          GivesNext(g, c, valid, h, n, s, x, j - 1);
          NextLogged(g, c, valid, root, h, t, st, active, (n, s.l), (m, x));
          ClearBelow(t, active, n, m, s.l, x);
          HereLogged(g, c, valid, root, h, t, st, active, m, x);
        } else {
          NotReached(g, t, m);
        }
      }
    }
  }

  lemma {:induction false} ExpandLogged(g: Graph, c: Ctx, valid: string -> bool, root: NodeId, h: Heap, t: Layout, st: St, active: set<Pair>, ns: seq<NodeId>, x: Loc)
    requires Settling(g, c, valid, root, h, t, st, active) && !st.hit && t.up(x).Some? && InPlace(g, t)
    requires SlotsLogged(c, t, st, active, ns, t.up(x).value.l)
    ensures SlotsLogged(c, t, st, active, Expand(g, c, valid, t, ns, t.up(x).value.at), x)
    decreases |ns|
  {
    hide Settling, Clear, HereAll, Gives;
    if ns != [] {
      var n, at := ns[|ns| - 1], t.up(x).value.at;
      ExpandLogged(g, c, valid, root, h, t, st, active, ns[..|ns| - 1], x);
      SettlingParts(g, c, valid, root, h, t, st, active, n);
      var ss := Gives(c, valid, g[n], at);
      GivenLogged(g, c, valid, root, h, t, st, active, n, x, |ss|);
      assert ss[..|ss|] == ss;
    }
  }

  lemma {:induction false} SpreadLogged(g: Graph, c: Ctx, valid: string -> bool, root: NodeId, h: Heap, t: Layout, st: St, active: set<Pair>, n: NodeId, l: Loc, x: Loc)
    requires Settling(g, c, valid, root, h, t, st, active) && !st.hit && n in c.plans && (n, l) in st.log && Clear(t, active, n, l)
    requires InPlace(g, t) && Tree(h, t)
    ensures SlotsLogged(c, t, st, active, Spread(g, c, valid, h, t, Here(g, t, n), l, x), x)
    decreases t.level(x)
  {
    hide Settling, Clear, Here, InPlace, Tree, Expand;
    if x == l {
      HereLogged(g, c, valid, root, h, t, st, active, n, l);
    } else if t.up(x).Some? {
      TreeUp(h, t, x);
      SpreadLogged(g, c, valid, root, h, t, st, active, n, l, t.up(x).value.l);
      ExpandLogged(g, c, valid, root, h, t, st, active, Spread(g, c, valid, h, t, Here(g, t, n), l, t.up(x).value.l), x);
    }
  }

  /** A schema of the list that has a default for the property. */
  lemma {:induction false} FirstFrom(g: Graph, ns: seq<NodeId>, k: string) returns (i: nat)
    requires First(g, ns, k).Some?
    ensures i < |ns| && ns[i] in g && OwnFor(g, g[ns[i]].props, k).Some?
    decreases |ns|
  {
    hide OwnFor;
    if First(g, ns[..|ns| - 1], k).Some? { i := FirstFrom(g, ns[..|ns| - 1], k); } else { i := |ns| - 1; }
  }

  lemma {:induction false} OwnForOwn(g: Graph, ps: seq<Property>, k: string)
    requires OwnFor(g, ps, k).Some?
    ensures (k, OwnFor(g, ps, k).value) in OwnDefaults(g, ps)
    decreases |ps|
  {
    if OwnFor(g, ps[..|ps| - 1], k).Some? { OwnForOwn(g, ps[..|ps| - 1], k); }
  }

  ghost function WithSpread(g: Graph, c: Ctx, valid: string -> bool, h: Heap, t: Layout, done: Applied, ns: seq<NodeId>, l: Loc): Applied
    requires InPlace(g, t) && Tree(h, t)
  {
    x => done(x) + Spread(g, c, valid, h, t, ns, l, x)
  }

  ghost function WithSum(g: Graph, c: Ctx, valid: string -> bool, h: Heap, t: Layout, done: Applied, apps: seq<App>): Applied
    requires InPlace(g, t) && Tree(h, t)
  {
    x => done(x) + Sum(g, c, valid, h, t, apps, x)
  }

  /** Applied again, a schema that has been applied here changes nothing that was decided. */
  lemma SkippedWon(g: Graph, c: Ctx, valid: string -> bool, root: NodeId, h: Heap, t: Layout, st: St, active: set<Pair>, n: NodeId, l: Loc, done: Applied)
    requires Settling(g, c, valid, root, h, t, st, active) && InPlace(g, t) && Tree(h, t)
    requires !st.hit && n in c.plans && (n, l) in st.log && Clear(t, active, n, l) && Won(g, h, done, st.heap)
    ensures Won(g, h, WithSpread(g, c, valid, h, t, done, Here(g, t, n), l), st.heap)
  {
    hide Settling, Clear, Here, InPlace, Tree, Spread, First, Won;
    var more := WithSpread(g, c, valid, h, t, done, Here(g, t, n), l);
    forall x, k | x in h && h[x].ObjCell? ensures First(g, more(x), k) == First(g, done(x), k) || k in h[x].m {
      var ns := Spread(g, c, valid, h, t, Here(g, t, n), l, x);
      FirstCat(g, done(x), ns, k);
      if First(g, ns, k).Some? && k !in h[x].m {
        SpreadLogged(g, c, valid, root, h, t, st, active, n, l, x);
        var i := FirstFrom(g, ns, k);
        DecidedAt(g, h, done, st.heap, x, k);
        PresentNow(g, c, valid, root, h, t, st, active, ns[i], x, k);
      }
    }
    WonMore(g, h, done, more, st.heap);
  }

  lemma DecidedAt(g: Graph, h: Heap, done: Applied, h': Heap, x: Loc, k: string)
    requires Won(g, h, done, h') && x in h && h[x].ObjCell?
    ensures x in h' && h'[x].ObjCell? && (k in h'[x].m && k !in h[x].m ==> First(g, done(x), k).Some?)
  {
    hide First;
    assert WonAt(h[x], h'[x], k, First(g, done(x), k));
  }

  lemma PresentNow(g: Graph, c: Ctx, valid: string -> bool, root: NodeId, h: Heap, t: Layout, st: St, active: set<Pair>, n: NodeId, x: Loc, k: string)
    requires Settling(g, c, valid, root, h, t, st, active) && !st.hit && n in c.plans && (n, x) in st.log && Clear(t, active, n, x)
    requires n in g && OwnFor(g, g[n].props, k).Some? && x in st.heap && st.heap[x].ObjCell?
    ensures k in st.heap[x].m
  {
    hide Compiled, InPlace, Tree, Leads, ScalarGrowth, OwnDefaults, VisitsLogged;
    assert Settled(c, st.heap, st.log, (n, x));
    SettlingParts(g, c, valid, root, h, t, st, active, n);
    OwnForOwn(g, g[n].props, k);
    var own := c.plans[n].own;
    assert own == OwnDefaults(g, g[n].props);
    var i :| 0 <= i < |own| && own[i] == (k, OwnFor(g, g[n].props, k).value);
  }

  /** The applications of a list are of schemas with a plan, and not of one still running. */
  ghost predicate AllClear(g: Graph, c: Ctx, h: Heap, t: Layout, active: set<Pair>, apps: seq<App>) {
    forall i :: 0 <= i < |apps| && apps[i].slot.Some? ==>
      && apps[i].slot.value in c.plans && Reaches(g, apps[i].slot.value)
      && forall y: Loc :: Resolve(h, apps[i].target) == Some(Ref(y)) ==> Clear(t, active, apps[i].slot.value, y)
  }

  lemma {:induction false} AllWins(g: Graph, c: Ctx, valid: string -> bool, root: NodeId, h: Heap, t: Layout, st: St, apps: seq<App>, depth: nat, path: seq<NodeId>, active: set<Pair>, done: Applied)
    requires Settling(g, c, valid, root, h, t, st, active) && InPlace(g, t) && Tree(h, t) && Unconditional(apps) && AllClear(g, c, h, t, active, apps)
    requires !st.hit ==> Won(g, h, done, st.heap)
    ensures var st' := ApplyAll(c, st, apps, depth, path);
      Settling(g, c, valid, root, h, t, st', active) && (st.hit ==> st'.hit) && (!st'.hit ==> Won(g, h, WithSum(g, c, valid, h, t, done, apps), st'.heap))
    decreases if depth > c.limit then 0 else c.limit + 1 - depth, 3, |apps|
  {
    hide Settling, InPlace, Tree, Apply, Won, Spread, Here, Clear, Reaches, Resolve;
    if apps == [] {
      SameWon(g, h, done, WithSum(g, c, valid, h, t, done, apps), st);
    } else {
      var init, a := apps[..|apps| - 1], apps[|apps| - 1];
      assert Unconditional(init) && AllClear(g, c, h, t, active, init);
      AllWins(g, c, valid, root, h, t, st, init, depth, path, active, done);
      var st1, sofar := ApplyAll(c, st, init, depth, path), WithSum(g, c, valid, h, t, done, init);
      var st2, all := ApplyAll(c, st, apps, depth, path), WithSum(g, c, valid, h, t, done, apps);
      var v := Resolve(st1.heap, a.target);
      forall y: Loc ensures Resolve(h, a.target) == Some(Ref(y)) <==> v == Some(Ref(y)) { SettlingResolve(g, c, valid, root, h, t, st1, active, a.target, y); }
      if a.slot.Some? && v.Some? && v.value.Ref? {
        var n, l := a.slot.value, v.value.l;
        ApplyWins(g, c, valid, root, h, t, st1, n, l, depth, path, active, sofar);
        SumLast(g, c, valid, h, t, done, apps);
        assert forall x :: One(g, c, valid, h, t, a, x) == Spread(g, c, valid, h, t, HereSlot(g, t, a.slot), l, x);
        SameWon(g, h, WithSpread(g, c, valid, h, t, sofar, HereSlot(g, t, a.slot), l), all, st2);
      } else {
        NothingThere(g, c, valid, h, t, a);
        if a.slot.Some? && v.Some? { ScalarIdle(c, st1, a.slot.value, v.value, depth, path); }
        SumLast(g, c, valid, h, t, done, apps);
        SameWon(g, h, sofar, all, st2);
      }
    }
  }

  lemma SumLast(g: Graph, c: Ctx, valid: string -> bool, h: Heap, t: Layout, done: Applied, apps: seq<App>)
    requires InPlace(g, t) && Tree(h, t) && apps != []
    ensures forall x :: WithSum(g, c, valid, h, t, done, apps)(x) == WithSum(g, c, valid, h, t, done, apps[..|apps| - 1])(x) + One(g, c, valid, h, t, apps[|apps| - 1], x)
  {
    hide InPlace, Tree, One;
    forall x ensures WithSum(g, c, valid, h, t, done, apps)(x) == WithSum(g, c, valid, h, t, done, apps[..|apps| - 1])(x) + One(g, c, valid, h, t, apps[|apps| - 1], x) {
      var init := apps[..|apps| - 1];
      assert Sum(g, c, valid, h, t, apps, x) == Sum(g, c, valid, h, t, init, x) + One(g, c, valid, h, t, apps[|apps| - 1], x);
      assert done(x) + (Sum(g, c, valid, h, t, init, x) + One(g, c, valid, h, t, apps[|apps| - 1], x))
          == (done(x) + Sum(g, c, valid, h, t, init, x)) + One(g, c, valid, h, t, apps[|apps| - 1], x);
    }
  }

  lemma SameWon(g: Graph, h: Heap, done: Applied, more: Applied, st: St)
    requires (!st.hit ==> Won(g, h, done, st.heap)) && forall x :: more(x) == done(x)
    ensures !st.hit ==> Won(g, h, more, st.heap)
  {
    hide Won;
    if !st.hit { WonMore(g, h, done, more, st.heap); }
  }

  lemma SettlingResolve(g: Graph, c: Ctx, valid: string -> bool, root: NodeId, h: Heap, t: Layout, st: St, active: set<Pair>, target: Target, y: Loc)
    requires Settling(g, c, valid, root, h, t, st, active) && !target.SelfIf?
    ensures Resolve(h, target) == Some(Ref(y)) <==> Resolve(st.heap, target) == Some(Ref(y))
  {
    ResolveKept(h, st.heap, target, y);
  }

  lemma NothingThere(g: Graph, c: Ctx, valid: string -> bool, h: Heap, t: Layout, a: App)
    requires InPlace(g, t) && Tree(h, t)
    requires a.slot.None? || forall y: Loc :: Resolve(h, a.target) != Some(Ref(y))
    ensures forall x :: One(g, c, valid, h, t, a, x) == []
  {
    forall x ensures One(g, c, valid, h, t, a, x) == [] {
      match Resolve(h, a.target)
      case Some(Ref(y)) => SpreadNone(g, c, valid, h, t, y, x);
      case _ =>
    }
  }

  lemma ScalarIdle(c: Ctx, st: St, n: NodeId, v: Val, depth: nat, path: seq<NodeId>)
    requires v.Prim?
    ensures Apply(c, st, n, v, depth, path, None) == st
  {
  }

  lemma {:induction false} ApplyWins(g: Graph, c: Ctx, valid: string -> bool, root: NodeId, h: Heap, t: Layout, st: St, n: NodeId, l: Loc, depth: nat, path: seq<NodeId>, active: set<Pair>, done: Applied)
    requires Settling(g, c, valid, root, h, t, st, active) && InPlace(g, t) && Tree(h, t) && n in c.plans && Reaches(g, n) && Clear(t, active, n, l)
    requires !st.hit ==> Won(g, h, done, st.heap)
    ensures var st' := Apply(c, st, n, Ref(l), depth, path, None);
      Settling(g, c, valid, root, h, t, st', active) && (st.hit ==> st'.hit) && (!st'.hit ==> Won(g, h, WithSpread(g, c, valid, h, t, done, Here(g, t, n), l), st'.heap))
    decreases if depth > c.limit then 0 else c.limit + 1 - depth, 2, 0
  {
    hide Settling, InPlace, Tree, Body, Won, Spread, Here, Clear, Reaches;
    ApplyStays(g, c, valid, root, h, t, st, n, l, depth, path, active);
    if depth <= c.limit {
      var before := if l in st.visits then st.visits[l] else {};
      if n in c.shared && n in before {
        VisitedLogged(g, c, valid, root, h, t, st, active, n, l);
        if !st.hit { SkippedWon(g, c, valid, root, h, t, st, active, n, l, done); }
      } else {
        var visits := if n in c.shared then st.visits[l := before + {n}] else st.visits;
        BodyWins(g, c, valid, root, h, t, st, visits, n, l, depth, path + [n], active, done);
        assert n !in c.shared ==> st.(visits := visits) == st;
      }
    }
  }

  lemma VisitedLogged(g: Graph, c: Ctx, valid: string -> bool, root: NodeId, h: Heap, t: Layout, st: St, active: set<Pair>, n: NodeId, l: Loc)
    requires Settling(g, c, valid, root, h, t, st, active) && l in st.visits && n in st.visits[l]
    ensures !st.hit ==> (n, l) in st.log
  {
  }

  lemma ApplyStays(g: Graph, c: Ctx, valid: string -> bool, root: NodeId, h: Heap, t: Layout, st: St, n: NodeId, l: Loc, depth: nat, path: seq<NodeId>, active: set<Pair>)
    requires Settling(g, c, valid, root, h, t, st, active)
    ensures var st' := Apply(c, st, n, Ref(l), depth, path, None); Settling(g, c, valid, root, h, t, st', active) && (st.hit ==> st'.hit)
  {
    hide Compiled, InPlace, Tree, Apply, ScalarDefaults;
    ScalarFromSchema(g, c, valid, root);
    ApplySettles(c, st, n, Ref(l), depth, path, active);
    GrowthChains(h, st.heap, Apply(c, st, n, Ref(l), depth, path, None).heap);
  }

  /** The application itself, as it starts: its defaults are decided. */
  lemma EnterWins(g: Graph, c: Ctx, valid: string -> bool, root: NodeId, h: Heap, t: Layout, st: St, st0: St, n: NodeId, l: Loc, active: set<Pair>, done: Applied)
    requires Settling(g, c, valid, root, h, t, st, active) && n in c.plans && n in g && st0 == st.(visits := st0.visits, log := st.log + {(n, l)})
    requires forall x, m :: x in st0.visits && m in st0.visits[x] ==> (x in st.visits && m in st.visits[x]) || (m, x) == (n, l)
    requires !st.hit ==> Won(g, h, done, st.heap)
    ensures var (st1, novel) := FillOwn(st0, l, c.plans[n].own);
      && Settling(g, c, valid, root, h, t, st1, active + {(n, l)}) && novel == {} && (n, l) in st1.log
      && (!st1.hit ==> Won(g, h, WithOne(done, l, n), st1.heap))
  {
    hide Compiled, InPlace, Tree, FillOwn, Won, Settled;
    ScalarFromSchema(g, c, valid, root);
    SettlingParts(g, c, valid, root, h, t, st, active, n);
    assert ScalarPlan(c.plans[n]);
    FillOwnScalar(st0, l, c.plans[n].own);
    var st1 := FillOwn(st0, l, c.plans[n].own).0;
    StartInv(c, st, st0, st1, (n, l), active);
    GrowthChains(h, st.heap, st1.heap);
    if !st1.hit { FilledWon(g, h, done, st0, n, l); }
  }

  lemma {:induction false} BodyWins(g: Graph, c: Ctx, valid: string -> bool, root: NodeId, h: Heap, t: Layout, st: St, visits: map<Loc, set<NodeId>>, n: NodeId, l: Loc, depth: nat, path: seq<NodeId>, active: set<Pair>, done: Applied)
    requires Settling(g, c, valid, root, h, t, st, active) && InPlace(g, t) && Tree(h, t) && n in c.plans && Reaches(g, n) && depth <= c.limit && Clear(t, active, n, l)
    requires forall x, m :: x in visits && m in visits[x] ==> (x in st.visits && m in st.visits[x]) || (m, x) == (n, l)
    requires !st.hit ==> Won(g, h, done, st.heap)
    ensures var st' := Body(c, st.(visits := visits), n, l, depth, path, None);
      !st'.hit ==> Won(g, h, WithSpread(g, c, valid, h, t, done, Here(g, t, n), l), st'.heap)
    decreases c.limit + 1 - depth, 1, 0
  {
    hide Settling, InPlace, Tree, FillOwn, ApplyAll, Won, Spread, Here, Clear, Reaches, Unconditional, AllClear, BelowApps, InsideApps, AlsoApps, PlanOf, Sum;
    SettlingParts(g, c, valid, root, h, t, st, active, n);
    var p, running := c.plans[n], active + {(n, l)};
    var st0 := st.(visits := visits, log := st.log + {(n, l)});
    EnterWins(g, c, valid, root, h, t, st, st0, n, l, active, done);
    var (st1, novel) := FillOwn(st0, l, p.own);
    var done1 := WithOne(done, l, n);
    ListsClear(g, c, valid, root, h, t, st1, n, l, novel, path, active);
    var below := BelowApps(p, l, novel, path, None);
    AllWins(g, c, valid, root, h, t, st1, below, depth + 1, path, running, done1);
    var st2, done2 := ApplyAll(c, st1, below, depth + 1, path), WithSum(g, c, valid, h, t, done1, below);
    ListsClear(g, c, valid, root, h, t, st2, n, l, novel, path, active);
    var inside := InsideApps(c, st2, p, l, None);
    AllWins(g, c, valid, root, h, t, st2, inside, depth + 1, path, running, done2);
    var st3, done3 := ApplyAll(c, st2, inside, depth + 1, path), WithSum(g, c, valid, h, t, done2, inside);
    NoDependents(g, c, valid, root, h, t, st3, running, n, l);
    assert ApplyAll(c, st3, DependentApps(p, l, None), depth + 1, path) == st3 by { NoneToApply(c, st3, depth + 1, path); }
    ListsClear(g, c, valid, root, h, t, st3, n, l, novel, path, active);
    var also := AlsoApps(p, l, None);
    AllWins(g, c, valid, root, h, t, st3, also, depth + 1, path, running, done3);
    var st4, done4 := ApplyAll(c, st3, also, depth + 1, path), WithSum(g, c, valid, h, t, done3, also);
    assert st4 == Body(c, st.(visits := visits), n, l, depth, path, None);
    if !st4.hit {
      DecidedKeys(g, c, valid, root, h, t, st2, running, done2, l);
      forall x ensures WithSpread(g, c, valid, h, t, done, Here(g, t, n), l)(x) == done4(x) {
        BodySum(g, c, valid, h, t, st2, n, l, x, novel, path, done);
      }
      SameWon(g, h, done4, WithSpread(g, c, valid, h, t, done, Here(g, t, n), l), st4);
    }
  }

  lemma NoDependents(g: Graph, c: Ctx, valid: string -> bool, root: NodeId, h: Heap, t: Layout, st: St, active: set<Pair>, n: NodeId, l: Loc)
    requires Settling(g, c, valid, root, h, t, st, active) && n in c.plans
    ensures DependentApps(c.plans[n], l, None) == []
  {
    ScalarFromSchema(g, c, valid, root);
    assert ScalarPlan(c.plans[n]);
  }

  lemma NoneToApply(c: Ctx, st: St, depth: nat, path: seq<NodeId>)
    ensures ApplyAll(c, st, [], depth, path) == st
  {
  }

  lemma DecidedKeys(g: Graph, c: Ctx, valid: string -> bool, root: NodeId, h: Heap, t: Layout, st: St, active: set<Pair>, done: Applied, l: Loc)
    requires Settling(g, c, valid, root, h, t, st, active) && Won(g, h, done, st.heap)
    ensures ScalarGrowth(h, st.heap) && HeapOk(st.heap) && (l in st.heap && st.heap[l].ObjCell? ==> NoRepeats(st.heap[l].keys))
  {
    if l in h { assert CellGrowsByScalars(h[l], st.heap[l]); }
  }

  /** The four steps of the body come to what the schema comes to. */
  lemma BodySum(g: Graph, c: Ctx, valid: string -> bool, h: Heap, t: Layout, st: St, n: NodeId, l: Loc, x: Loc, novel: set<string>, path: seq<NodeId>, done: Applied)
    requires InPlace(g, t) && Tree(h, t) && n in g && Reaches(g, n)
    requires ScalarGrowth(h, st.heap) && HeapOk(st.heap) && (l in st.heap && st.heap[l].ObjCell? ==> NoRepeats(st.heap[l].keys))
    ensures var p := PlanOf(g, n, valid);
      var below, inside, also := BelowApps(p, l, novel, path, None), InsideApps(c, st, p, l, None), AlsoApps(p, l, None);
      WithSum(g, c, valid, h, t, WithSum(g, c, valid, h, t, WithSum(g, c, valid, h, t, WithOne(done, l, n), below), inside), also)(x)
      == WithSpread(g, c, valid, h, t, done, Here(g, t, n), l)(x)
  {
    hide InPlace, Tree, Spread, Sum, Reaches, PlanOf, BelowApps, InsideApps, AlsoApps, ScalarGrowth, HereBeside;
    var p := PlanOf(g, n, valid);
    var also := AlsoApps(p, l, None);
    SumBody(g, c, valid, h, t, st, n, l, x, novel, path);
    AlsoIs(g, n, valid, l, 0);
    SumAlso(g, c, valid, h, t, n, l, x, |Beside(g[n])|);
    assert also[..|also|] == also;
    var beside := HereBeside(g, t, n, |Beside(g[n])|);
    assert Here(g, t, n) == [n] + beside;
    SpreadCat(g, c, valid, h, t, [n], beside, l, x);
    SpreadAtOnce(g, c, valid, h, t, n, l);
  }

  lemma SpreadAtOnce(g: Graph, c: Ctx, valid: string -> bool, h: Heap, t: Layout, n: NodeId, l: Loc)
    requires InPlace(g, t) && Tree(h, t)
    ensures Spread(g, c, valid, h, t, [n], l, l) == [n]
  {
  }

  /** The lists of the body are of schemas with plans; below, they land further down, and beside it, of lower rank. */
  lemma ListsClear(g: Graph, c: Ctx, valid: string -> bool, root: NodeId, h: Heap, t: Layout, st: St, n: NodeId, l: Loc, novel: set<string>, path: seq<NodeId>, active: set<Pair>)
    requires Settling(g, c, valid, root, h, t, st, active + {(n, l)}) && n in c.plans && n in g && Clear(t, active, n, l) && novel == {}
    ensures var p, running := c.plans[n], active + {(n, l)};
      && (var apps := BelowApps(p, l, novel, path, None); Unconditional(apps) && AllClear(g, c, h, t, running, apps))
      && (var apps := InsideApps(c, st, p, l, None); Unconditional(apps) && AllClear(g, c, h, t, running, apps))
      && (var apps := AlsoApps(p, l, None); Unconditional(apps) && AllClear(g, c, h, t, running, apps))
  {
    hide Compiled, Tree, InPlace, Inv, ScalarGrowth, ScalarDefaults, InsideApps, BelowApps, AlsoApps, PlanOf, Resolve, Reaches, HeapOk, Clear;
    var p, running := c.plans[n], active + {(n, l)};
    SettlingParts(g, c, valid, root, h, t, st, running, n);
    ListsPlain(c, st, p, l, path);
    ListsDown(c, h, st, p, l, novel, path);
    ListsKept(g, c, valid, root, st, n, l, novel, path);
    DownClear(g, c, h, t, n, l, active, BelowApps(p, l, novel, path, None));
    DownClear(g, c, h, t, n, l, active, InsideApps(c, st, p, l, None));
    AlsoClear(g, c, valid, h, t, n, l, active);
  }

  /** Slots of a plan: with a plan of their own, and a default reachable. */
  ghost predicate AllKept(g: Graph, c: Ctx, apps: seq<App>) {
    forall i :: 0 <= i < |apps| && apps[i].slot.Some? ==> apps[i].slot.value in c.plans && Reaches(g, apps[i].slot.value)
  }

  ghost predicate SlotKept(g: Graph, c: Ctx, s: Slot) { s.Some? ==> s.value in c.plans && Reaches(g, s.value) }

  lemma SlotIs(g: Graph, c: Ctx, s: Slot)
    requires SlotPlanned(c, Kept(g, s))
    ensures SlotKept(g, c, Kept(g, s))
  {
  }

  lemma PlanKept(g: Graph, c: Ctx, valid: string -> bool, root: NodeId, n: NodeId)
    requires Compiled(g, c, valid, root) && n in c.plans
    ensures var p := c.plans[n];
      && (forall i :: 0 <= i < |p.below| ==> SlotKept(g, c, p.below[i].slot))
      && (forall i :: 0 <= i < |p.tuple| ==> SlotKept(g, c, p.tuple[i]))
      && SlotKept(g, c, p.each) && SlotKept(g, c, p.extra)
      && (forall i :: 0 <= i < |p.patterns| ==> SlotKept(g, c, p.patterns[i].slot))
      && (forall i :: 0 <= i < |p.also| ==> SlotKept(g, c, p.also[i]))
  {
    hide Kept, Reaches, SlotKept, Usable, SlotPlanned;
    InGraph(g, c, valid, root, n);
    var p, s := c.plans[n], g[n];
    SlotIs(g, c, s.items);
    SlotIs(g, c, s.additional);
    forall i | 0 <= i < |p.below| ensures SlotKept(g, c, p.below[i].slot) { assert p.below[i].slot == Kept(g, s.props[i].slot); SlotIs(g, c, s.props[i].slot); }
    forall i | 0 <= i < |p.tuple| ensures SlotKept(g, c, p.tuple[i]) { assert p.tuple[i] == Kept(g, s.prefixItems[i]); SlotIs(g, c, s.prefixItems[i]); }
    forall i | 0 <= i < |p.also| ensures SlotKept(g, c, p.also[i]) { assert p.also[i] == Kept(g, Beside(s)[i]); SlotIs(g, c, Beside(s)[i]); }
    var all := WithSlots(s.patterns, KeptAll(g, SlotsOf(s.patterns)));
    UsableMeans(all, valid);
    forall i | 0 <= i < |p.patterns| ensures SlotKept(g, c, p.patterns[i].slot) {
      assert p.patterns[i] in p.patterns;
      var j :| 0 <= j < |all| && all[j] == p.patterns[i];
      SlotIs(g, c, s.patterns[j].slot);
    }
  }

  lemma ListsKept(g: Graph, c: Ctx, valid: string -> bool, root: NodeId, st: St, n: NodeId, l: Loc, novel: set<string>, path: seq<NodeId>)
    requires Compiled(g, c, valid, root) && n in c.plans
    ensures var p := c.plans[n];
      AllKept(g, c, BelowApps(p, l, novel, path, None)) && AllKept(g, c, InsideApps(c, st, p, l, None)) && AllKept(g, c, AlsoApps(p, l, None))
  {
    hide Compiled, Reaches, KeyApps;
    PlanKept(g, c, valid, root, n);
    var p := c.plans[n];
    if l in st.heap && st.heap[l].ObjCell? { KeysKept(g, c, p, l, st.heap[l].keys); }
  }

  lemma {:induction false} KeysKept(g: Graph, c: Ctx, p: Plan, l: Loc, keys: seq<string>)
    requires SlotKept(g, c, p.extra) && forall i :: 0 <= i < |p.patterns| ==> SlotKept(g, c, p.patterns[i].slot)
    ensures AllKept(g, c, KeyApps(c, p, l, keys, None))
    decreases |keys|
  {
    hide Reaches, PatternApps;
    if keys != [] {
      KeysKept(g, c, p, l, keys[..|keys| - 1]);
      PatternsKept(g, c, p.patterns, l, keys[|keys| - 1]);
    }
  }

  lemma {:induction false} PatternsKept(g: Graph, c: Ctx, ps: seq<Property>, l: Loc, k: string)
    requires forall i :: 0 <= i < |ps| ==> SlotKept(g, c, ps[i].slot)
    ensures AllKept(g, c, PatternApps(c, ps, l, k, None))
    decreases |ps|
  {
    hide Reaches;
    if ps != [] { PatternsKept(g, c, ps[..|ps| - 1], l, k); }
  }

  lemma DownClear(g: Graph, c: Ctx, h: Heap, t: Layout, n: NodeId, l: Loc, active: set<Pair>, apps: seq<App>)
    requires Tree(h, t) && OneDown(h, apps, l) && AllKept(g, c, apps) && Clear(t, active, n, l)
    ensures AllClear(g, c, h, t, active + {(n, l)}, apps)
  {
    hide Tree, Resolve, Reaches;
    forall i, y: Loc | 0 <= i < |apps| && apps[i].slot.Some? && Resolve(h, apps[i].target) == Some(Ref(y))
      ensures Clear(t, active + {(n, l)}, apps[i].slot.value, y)
    {
      DownChild(h, t, apps[i].target, l, y);
      TreeUp(h, t, y);
    }
  }

  lemma AlsoClear(g: Graph, c: Ctx, valid: string -> bool, h: Heap, t: Layout, n: NodeId, l: Loc, active: set<Pair>)
    requires InPlace(g, t) && n in g && n in c.plans && c.plans[n] == PlanOf(g, n, valid) && AllKept(g, c, AlsoApps(c.plans[n], l, None)) && Clear(t, active, n, l)
    ensures AllClear(g, c, h, t, active + {(n, l)}, AlsoApps(c.plans[n], l, None))
  {
    hide PlanOf, Reaches;
    var apps := AlsoApps(c.plans[n], l, None);
    AlsoIs(g, n, valid, l, 0);
    forall i, y: Loc | 0 <= i < |apps| && apps[i].slot.Some? && Resolve(h, apps[i].target) == Some(Ref(y))
      ensures Clear(t, active + {(n, l)}, apps[i].slot.value, y)
    {
      AlsoIs(g, n, valid, l, i);
      KeptSame(g, Beside(g[n])[i]);
    }
  }

  lemma KeptSame(g: Graph, s: Slot)
    ensures Kept(g, s).Some? ==> Kept(g, s) == s
  {
  }

  // ---------------------------------------------------------------- on a whole document

  /** The schemas that apply to a container, in order. */
  ghost function SchemasAt(g: Graph, c: Ctx, valid: string -> bool, h: Heap, t: Layout, root: NodeId, l: Loc, x: Loc): seq<NodeId>
    requires InPlace(g, t) && Tree(h, t)
  {
    Spread(g, c, valid, h, t, Here(g, t, root), l, x)
  }

  ghost function Ordered(g: Graph, c: Ctx, valid: string -> bool, h: Heap, t: Layout, root: NodeId, l: Loc): Applied
    requires InPlace(g, t) && Tree(h, t)
  {
    x => SchemasAt(g, c, valid, h, t, root, l, x)
  }

  /** Where no default is reachable nothing is to be filled in. */
  lemma NoneDecided(g: Graph, c: Ctx, valid: string -> bool, h: Heap, root: NodeId, l: Loc, t: Layout)
    requires InPlace(g, t) && Tree(h, t) && !Reaches(g, root)
    ensures Won(g, h, Ordered(g, c, valid, h, t, root, l), h)
  {
    hide InPlace, Spread;
    NotReached(g, t, root);
    forall x ensures SchemasAt(g, c, valid, h, t, root, l, x) == [] { SpreadNone(g, c, valid, h, t, l, x); }
  }

  /**
   With scalar defaults, an object ends up with the members it had and, for each other property, with the
   default of the first schema, in the order in which they apply to it, that has one.
   */
  lemma FirstDecides(g: Graph, c: Ctx, valid: string -> bool, h: Heap, next: Loc, root: NodeId, l: Loc, t: Layout)
    requires Compiled(g, c, valid, root) && ScalarDefaults(g) && InPlace(g, t) && Tree(h, t) && HeapOk(h) && Reaches(g, root)
    requires !Run(c, h, next, root, Ref(l)).hit
    ensures Won(g, h, Ordered(g, c, valid, h, t, root, l), Run(c, h, next, root, Ref(l)).heap)
  {
    hide Compiled, InPlace, Tree, Apply, Won, Reaches, Spread;
    var none: Applied := x => [];
    var st := Start(h, next);
    assert root in c.plans by { RootPlanned(g, c, valid, root); }
    StartSettles(g, c, valid, root, h, t, st);
    StartWon(g, h, none, t);
    ApplyWins(g, c, valid, root, h, t, st, root, l, 0, [], {}, none);
    var st' := Run(c, h, next, root, Ref(l));
    SameWon(g, h, WithSpread(g, c, valid, h, t, none, Here(g, t, root), l), Ordered(g, c, valid, h, t, root, l), st');
  }

  lemma RootPlanned(g: Graph, c: Ctx, valid: string -> bool, root: NodeId)
    requires Compiled(g, c, valid, root) && Reaches(g, root)
    ensures root in c.plans
  {
  }

  lemma StartSettles(g: Graph, c: Ctx, valid: string -> bool, root: NodeId, h: Heap, t: Layout, st: St)
    requires Compiled(g, c, valid, root) && ScalarDefaults(g) && InPlace(g, t) && Tree(h, t) && HeapOk(h)
    requires st == Start(h, st.next)
    ensures Settling(g, c, valid, root, h, t, st, {})
  {
    hide Compiled, ScalarDefaults, InPlace, Tree;
    GrowthReflexive(h);
  }

  lemma StartWon(g: Graph, h: Heap, none: Applied, t: Layout)
    requires Tree(h, t) && forall x :: none(x) == []
    ensures Won(g, h, none, h)
  {
  }
}
