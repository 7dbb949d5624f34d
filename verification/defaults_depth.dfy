/**
 When the depth bound of the closure pass is never met: the depth of the document and the number of
 schema objects applied through a `$ref` or an `allOf` settle it, however the schemas recurse.
 */
module DefaultsDepth {
  import opened Json
  import opened SchemaGraph
  import opened DefaultsPass
  import opened DefaultsScalar

  /** What a plan applies to the value itself is counted in `visits`. */
  predicate AlsoShared(c: Ctx) {
    forall n, i :: n in c.plans && 0 <= i < |c.plans[n].also| && c.plans[n].also[i].Some? ==> c.plans[n].also[i].value in c.shared
  }

  function VisitsAt(st: St, l: Loc): set<NodeId> {
    if l in st.visits then st.visits[l] else {}
  }

  /** The counted schemas not yet applied to a container. */
  function Fresh(c: Ctx, st: St, l: Loc): nat { |c.shared - VisitsAt(st, l)| }

  /** The levels a container of that rank may take: at each container below, every counted schema once, and one that is not. */
  function Room(c: Ctx, r: nat): nat { r * (|c.shared| + 2) }

  ghost predicate VisitsGrow(a: St, b: St) { forall l :: VisitsAt(a, l) <= VisitsAt(b, l) }

  /** Nothing was cut off, and nothing but scalar members and visits was added. */
  ghost predicate Within(a: St, b: St) {
    b.hit == a.hit && VisitsGrow(a, b) && ScalarGrowth(a.heap, b.heap) && HeapOk(b.heap)
  }

  predicate Sound(c: Ctx, st: St, rank: Loc -> nat) {
    ScalarCtx(c) && AlsoShared(c) && HeapOk(st.heap) && Acyclic(st.heap, rank)
  }

  lemma RoomBelow(c: Ctx, r: nat, s: nat)
    requires r < s
    ensures Room(c, r) + |c.shared| + 2 <= Room(c, s)
  {
    TimesGrows(r, s, |c.shared| + 2);
  }

  lemma {:induction false} TimesGrows(r: nat, s: nat, k: nat)
    requires r < s
    ensures r * k + k <= s * k
    decreases s
  {
    if r + 1 < s { TimesGrows(r, s - 1, k); }
    assert s * k == (s - 1) * k + k;
  }

  lemma FreshShrinks(c: Ctx, a: St, b: St, l: Loc)
    requires VisitsGrow(a, b)
    ensures Fresh(c, b, l) <= Fresh(c, a, l) <= |c.shared|
  {
    Subset(c.shared - VisitsAt(b, l), c.shared - VisitsAt(a, l));
    Subset(c.shared - VisitsAt(a, l), c.shared);
  }

  lemma WithinChains(a: St, b: St, d: St)
    requires Within(a, b) && Within(b, d)
    ensures Within(a, d)
  {
    GrowthChains(a.heap, b.heap, d.heap);
  }

  lemma WithinSelf(st: St)
    requires HeapOk(st.heap)
    ensures Within(st, st)
  {
    GrowthReflexive(st.heap);
  }

  lemma SoundKept(c: Ctx, a: St, b: St, rank: Loc -> nat)
    requires Sound(c, a, rank) && Within(a, b)
    ensures Sound(c, b, rank)
  {
    AcyclicKept(a.heap, b.heap, rank);
  }

  /** Applications to one container: to itself by a counted schema, or to what it holds. */
  predicate AppliesAt(c: Ctx, apps: seq<App>, l: Loc) {
    forall i :: 0 <= i < |apps| ==>
      && apps[i].made.None? && !apps[i].target.SelfIf? && apps[i].target.l == l
      && (apps[i].target.Self? && apps[i].slot.Some? ==> apps[i].slot.value in c.shared)
  }

  lemma {:induction false} PatternAppsAt(c: Ctx, ps: seq<Property>, l: Loc, k: string)
    ensures AppliesAt(c, PatternApps(c, ps, l, k, None), l)
    decreases |ps|
  {
    if ps != [] { PatternAppsAt(c, ps[..|ps| - 1], l, k); }
  }

  lemma {:induction false} KeyAppsAt(c: Ctx, p: Plan, l: Loc, keys: seq<string>)
    ensures AppliesAt(c, KeyApps(c, p, l, keys, None), l)
    decreases |keys|
  {
    if keys != [] {
      KeyAppsAt(c, p, l, keys[..|keys| - 1]);
      PatternAppsAt(c, p.patterns, l, keys[|keys| - 1]);
    }
  }

  lemma ListsAt(c: Ctx, st: St, n: NodeId, l: Loc, path: seq<NodeId>)
    requires AlsoShared(c) && n in c.plans
    ensures var p := c.plans[n];
            AppliesAt(c, BelowApps(p, l, {}, path, None), l) && AppliesAt(c, InsideApps(c, st, p, l, None), l) && AppliesAt(c, AlsoApps(p, l, None), l)
  {
    if l in st.heap && st.heap[l].ObjCell? { KeyAppsAt(c, c.plans[n], l, st.heap[l].keys); }
  }

  /** What a container holds has the room that the container leaves. */
  lemma HeldBelow(st: St, t: Target, l: Loc, rank: Loc -> nat)
    requires Acyclic(st.heap, rank) && (t.Member? || t.Elem?) && Resolve(st.heap, t) == Some(Ref(l))
    ensures rank(l) < rank(t.l)
  {
    assert CellBelow(st.heap[t.l], rank(t.l), rank);
  }

  lemma {:induction false} ApplyAllRoom(c: Ctx, st: St, apps: seq<App>, l: Loc, depth: nat, path: seq<NodeId>, rank: Loc -> nat)
    requires Sound(c, st, rank) && AppliesAt(c, apps, l)
    requires depth + Room(c, rank(l)) + Fresh(c, st, l) <= c.limit
    ensures Within(st, ApplyAll(c, st, apps, depth, path))
    decreases if depth > c.limit then 0 else c.limit + 1 - depth, 3, |apps|
  {
    hide Room, Fresh, Within, Sound, VisitsGrow, Apply;
    WithinSelf(st) by { assert HeapOk(st.heap) by { SoundHeap(c, st, rank); } }
    if apps != [] {
      var init, a := apps[..|apps| - 1], apps[|apps| - 1];
      ApplyAllRoom(c, st, init, l, depth, path, rank);
      var st1 := ApplyAll(c, st, init, depth, path);
      SoundKept(c, st, st1, rank);
      var v := Resolve(st1.heap, a.target);
      if a.slot.Some? && v.Some? {
        OneRoom(c, st, st1, a, l, depth, rank);
        ApplyRoom(c, st1, a.slot.value, v.value, depth, path, rank);
        WithinChains(st, st1, Apply(c, st1, a.slot.value, v.value, depth, path, None));
      }
    }
  }

  lemma SoundHeap(c: Ctx, st: St, rank: Loc -> nat)
    requires Sound(c, st, rank)
    ensures ScalarCtx(c) && AlsoShared(c) && HeapOk(st.heap) && Acyclic(st.heap, rank)
  {
  }

  /** An application has the room it needs. */
  predicate HasRoom(c: Ctx, st: St, n: NodeId, v: Val, depth: nat, rank: Loc -> nat) {
    v.Ref? ==> depth + Room(c, rank(v.l)) + Fresh(c, st, v.l) + (if n in c.shared then 0 else 1) <= c.limit
  }

  lemma OneRoom(c: Ctx, st: St, st1: St, a: App, l: Loc, depth: nat, rank: Loc -> nat)
    requires Sound(c, st1, rank) && Within(st, st1) && AppliesAt(c, [a], l)
    requires depth + Room(c, rank(l)) + Fresh(c, st, l) <= c.limit
    requires a.slot.Some? && Resolve(st1.heap, a.target).Some?
    ensures HasRoom(c, st1, a.slot.value, Resolve(st1.heap, a.target).value, depth, rank)
  {
    hide Room, Fresh;
    assert [a][0] == a;
    FreshShrinks(c, st, st1, l);
    var v := Resolve(st1.heap, a.target).value;
    if v.Ref? && !a.target.Self? {
      HeldBelow(st1, a.target, v.l, rank);
      RoomBelow(c, rank(v.l), rank(l));
      FreshShrinks(c, st1, st1, v.l);
    }
  }

  lemma {:induction false} ApplyRoom(c: Ctx, st: St, n: NodeId, v: Val, depth: nat, path: seq<NodeId>, rank: Loc -> nat)
    requires Sound(c, st, rank) && HasRoom(c, st, n, v, depth, rank)
    ensures Within(st, Apply(c, st, n, v, depth, path, None))
    decreases if depth > c.limit then 0 else c.limit + 1 - depth, 2, 0
  {
    hide Room, Body, Fresh, Sound, Within;
    SoundHeap(c, st, rank);
    WithinSelf(st);
    if v.Ref? && n in c.plans {
      if n in c.shared {
        if n !in VisitsAt(st, v.l) {
          var st' := st.(visits := st.visits[v.l := VisitsAt(st, v.l) + {n}]);
          OneVisit(c, st, n, v.l, rank);
          BodyRoom(c, st', n, v.l, depth, path + [n], rank);
          WithinChains(st, st', Body(c, st', n, v.l, depth, path + [n], None));
        }
      } else {
        BodyRoom(c, st, n, v.l, depth, path + [n], rank);
      }
    }
  }

  lemma OneVisit(c: Ctx, st: St, n: NodeId, l: Loc, rank: Loc -> nat)
    requires Sound(c, st, rank) && n in c.shared && n !in VisitsAt(st, l)
    ensures var st' := st.(visits := st.visits[l := VisitsAt(st, l) + {n}]);
            Sound(c, st', rank) && Within(st, st') && Fresh(c, st', l) + 1 <= Fresh(c, st, l)
  {
    var st' := st.(visits := st.visits[l := VisitsAt(st, l) + {n}]);
    WithinSelf(st);
    assert c.shared - VisitsAt(st', l) == (c.shared - VisitsAt(st, l)) - {n};
  }

  lemma {:induction false} BodyRoom(c: Ctx, st: St, n: NodeId, l: Loc, depth: nat, path: seq<NodeId>, rank: Loc -> nat)
    requires Sound(c, st, rank) && n in c.plans && depth + 1 + Room(c, rank(l)) + Fresh(c, st, l) <= c.limit
    ensures Within(st, Body(c, st, n, l, depth, path, None))
    decreases c.limit + 1 - depth, 1, 0
  {
    hide Room, Fresh, Sound, Acyclic, ScalarGrowth, ApplyAll, AppliesAt, AlsoShared, VisitsGrow, Within;
    SoundHeap(c, st, rank);
    assert ScalarPlan(c.plans[n]);
    var p := c.plans[n];
    var (st1, novel) := FillOwn(st.(log := st.log + {(n, l)}), l, p.own);
    OwnWithin(st, n, l, p);
    Then(c, st, st1, l, rank);
    ListsAt(c, st1, n, l, path);
    ApplyAllRoom(c, st1, BelowApps(p, l, {}, path, None), l, depth + 1, path, rank);
    var st2 := ApplyAll(c, st1, BelowApps(p, l, {}, path, None), depth + 1, path);
    WithinChains(st, st1, st2);
    Then(c, st, st2, l, rank);
    ListsAt(c, st2, n, l, path);
    ApplyAllRoom(c, st2, InsideApps(c, st2, p, l, None), l, depth + 1, path, rank);
    var st3 := ApplyAll(c, st2, InsideApps(c, st2, p, l, None), depth + 1, path);
    WithinChains(st, st2, st3);
    Then(c, st, st3, l, rank);
    ApplyAllRoom(c, st3, AlsoApps(p, l, None), l, depth + 1, path, rank);
    var st4 := ApplyAll(c, st3, AlsoApps(p, l, None), depth + 1, path);
    WithinChains(st, st3, st4);
    assert DependentApps(p, l, None) == [];
    NothingApplied(c, st3, depth + 1, path);
  }

  lemma NothingApplied(c: Ctx, st: St, depth: nat, path: seq<NodeId>)
    ensures ApplyAll(c, st, [], depth, path) == st
  {
  }

  lemma Then(c: Ctx, st: St, st1: St, l: Loc, rank: Loc -> nat)
    requires Sound(c, st, rank) && Within(st, st1)
    ensures Sound(c, st1, rank) && Fresh(c, st1, l) <= Fresh(c, st, l)
  {
    SoundKept(c, st, st1, rank);
    FreshShrinks(c, st, st1, l);
  }

  lemma OwnWithin(st: St, n: NodeId, l: Loc, p: Plan)
    requires HeapOk(st.heap) && ScalarPlan(p)
    ensures var r := FillOwn(st.(log := st.log + {(n, l)}), l, p.own); r.1 == {} && Within(st, r.0)
  {
    FillOwnScalar(st.(log := st.log + {(n, l)}), l, p.own);
  }

  // ---------------------------------------------------------------- on a whole document

  /** The schemas counted are those some plan applies to the value itself. */
  ghost predicate SharedOk(plans: map<NodeId, Plan>, shared: set<NodeId>) {
    forall t :: t in shared <==> exists n :: n in plans && Some(t) in plans[n].also
  }

  /** One level for each schema object, and two to spare, at each level of the document. */
  predicate Shallow(g: Graph, limit: nat, height: nat) { (height + 1) * (|g| + 2) <= limit + 1 }

  lemma SharedFew(g: Graph, c: Ctx, valid: string -> bool, root: NodeId)
    requires Compiled(g, c, valid, root) && SharedOk(c.plans, c.shared)
    ensures AlsoShared(c) && |c.shared| <= |g|
  {
    hide PlanOf, Reaches;
    forall t | t in c.shared ensures t in g.Keys {
      var n :| n in c.plans && Some(t) in c.plans[n].also;
      assert PlanClosed(c, c.plans[n]);
    }
    Subset(c.shared, g.Keys);
  }

  lemma {:induction false} TimesMore(r: nat, k: nat, m: nat)
    requires k <= m
    ensures r * k <= r * m
    decreases r
  {
    if r > 0 {
      TimesMore(r - 1, k, m);
      assert r * k == (r - 1) * k + k && r * m == (r - 1) * m + m;
    }
  }

  lemma Levels(r: nat, s: nat, n: nat, limit: nat)
    requires s <= n && (r + 1) * (n + 2) <= limit + 1
    ensures r * (s + 2) + s + 1 <= limit
  {
    TimesMore(r + 1, s + 2, n + 2);
    assert (r + 1) * (s + 2) == r * (s + 2) + (s + 2);
  }

  lemma StartRoom(g: Graph, c: Ctx, st: St, root: NodeId, l: Loc, rank: Loc -> nat)
    requires |c.shared| <= |g| && Shallow(g, c.limit, rank(l))
    ensures HasRoom(c, st, root, Ref(l), 0, rank)
  {
    hide Fresh;
    FreshShrinks(c, st, st, l);
    Levels(rank(l), |c.shared|, |g|, c.limit);
  }

  /**
   A document whose containers have heights below `rank`: when its height and the number of schema
   objects leave room, the depth bound is not met, cycles in the schema notwithstanding.
   */
  lemma DepthEnough(g: Graph, c: Ctx, valid: string -> bool, h: Heap, next: Loc, root: NodeId, l: Loc, rank: Loc -> nat)
    requires Compiled(g, c, valid, root) && ScalarDefaults(g) && HeapOk(h) && Acyclic(h, rank) && SharedOk(c.plans, c.shared)
    requires Shallow(g, c.limit, rank(l))
    ensures !Run(c, h, next, root, Ref(l)).hit
  {
    hide Shallow, HasRoom, Compiled, SharedOk, Apply;
    ScalarFromSchema(g, c, valid, root);
    SharedFew(g, c, valid, root);
    var st := Start(h, next);
    StartRoom(g, c, st, root, l, rank);
    ApplyRoom(c, st, root, Ref(l), 0, [], rank);
  }
}
