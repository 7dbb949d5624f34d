/**
 The closure pass with scalar defaults and no dependentSchemas: it fills every applicable
 default although repeated applications are skipped, and a second run changes nothing.
 */
module DefaultsScalar {
  import opened Json
  import opened SchemaGraph
  import opened DefaultsPass

  type Pair = (NodeId, Loc)

  predicate ScalarPlan(p: Plan) {
    p.dependent == [] && forall i :: 0 <= i < |p.own| ==> p.own[i].1.DScalar?
  }

  predicate ScalarCtx(c: Ctx) {
    forall n :: n in c.plans ==> ScalarPlan(c.plans[n])
  }

  // ---------------------------------------------------------------- growth by scalars

  predicate CellGrowsByScalars(c0: Cell, c1: Cell) {
    match c0
    case ArrCell(_) => c1 == c0
    case ObjCell(_, m) => c1.ObjCell? && (forall k :: k in m ==> k in c1.m && c1.m[k] == m[k])
                          && (forall k :: k in c1.m && k !in m ==> c1.m[k].Prim?)
  }

  /** The same containers, with scalar members added to objects. */
  predicate ScalarGrowth(h0: Heap, h1: Heap) {
    h1.Keys == h0.Keys && forall l :: l in h0 ==> CellGrowsByScalars(h0[l], h1[l])
  }

  lemma GrowthChains(h0: Heap, h1: Heap, h2: Heap)
    requires ScalarGrowth(h0, h1) && ScalarGrowth(h1, h2)
    ensures ScalarGrowth(h0, h2)
  {
    forall l | l in h0 ensures CellGrowsByScalars(h0[l], h2[l]) {
      assert CellGrowsByScalars(h0[l], h1[l]) && CellGrowsByScalars(h1[l], h2[l]);
    }
  }

  // ---------------------------------------------------------------- documents without cycles

  predicate CellBelow(c: Cell, r: nat, rank: Loc -> nat) {
    match c
    case ObjCell(_, m) => forall k :: k in m && m[k].Ref? ==> rank(m[k].l) < r
    case ArrCell(a) => forall i :: 0 <= i < |a| && a[i].Ref? ==> rank(a[i].l) < r
  }

  /** A container only holds containers of lower rank: the document is a tree, or shares parts of one. */
  predicate Acyclic(h: Heap, rank: Loc -> nat) {
    forall l :: l in h ==> CellBelow(h[l], rank(l), rank)
  }

  lemma AcyclicKept(h0: Heap, h1: Heap, rank: Loc -> nat)
    requires ScalarGrowth(h0, h1) && Acyclic(h0, rank)
    ensures Acyclic(h1, rank)
  {
    forall l | l in h1 ensures CellBelow(h1[l], rank(l), rank) {
      assert CellGrowsByScalars(h0[l], h1[l]) && CellBelow(h0[l], rank(l), rank);
    }
  }

  // ---------------------------------------------------------------- filling

  predicate Filled(h: Heap, l: Loc, own: seq<(string, Doc)>) {
    l in h && h[l].ObjCell? ==> forall i :: 0 <= i < |own| ==> own[i].0 in h[l].m
  }

  predicate AllScalar(own: seq<(string, Doc)>) {
    forall i :: 0 <= i < |own| ==> own[i].1.DScalar?
  }

  lemma SetScalarGrows(h: Heap, l: Loc, k: string, v: Val)
    requires HeapOk(h) && l in h && h[l].ObjCell? && k !in h[l].m && v.Prim?
    ensures var h' := h[l := SetMember(h[l], k, v)]; HeapOk(h') && ScalarGrowth(h, h')
  {
  }

  /** Filling: the keys written are the absent ones, nothing but the heap changes, and no container is made. */
  lemma {:induction false} FillOwnScalar(st: St, l: Loc, own: seq<(string, Doc)>)
    requires AllScalar(own) && HeapOk(st.heap)
    ensures var (st', novel) := FillOwn(st, l, own);
            && novel == {} && st' == st.(heap := st'.heap)
            && ScalarGrowth(st.heap, st'.heap) && HeapOk(st'.heap) && Filled(st'.heap, l, own)
    decreases |own|
  {
    if own != [] {
      var init, last := own[..|own| - 1], own[|own| - 1];
      FillOwnScalar(st, l, init);
      var (st1, _) := FillOwn(st, l, init);
      var (st2, _) := FillOwn(st, l, own);
      if l in st1.heap && st1.heap[l].ObjCell? && last.0 !in st1.heap[l].m {
        var v := Prim(last.1.v);
        assert st2.heap == st1.heap[l := SetMember(st1.heap[l], last.0, v)];
        SetScalarGrows(st1.heap, l, last.0, v);
      }
      GrowthChains(st.heap, st1.heap, st2.heap);
      FilledSnoc(st1.heap, st2.heap, l, init, last);
      assert own == init + [last];
    }
  }

  lemma FilledSnoc(h1: Heap, h2: Heap, l: Loc, init: seq<(string, Doc)>, last: (string, Doc))
    requires ScalarGrowth(h1, h2) && Filled(h1, l, init)
    requires l in h2 && h2[l].ObjCell? ==> last.0 in h2[l].m
    ensures Filled(h2, l, init + [last])
  {
    FilledKept(h1, h2, l, init);
    if l in h2 && h2[l].ObjCell? {
      forall i | 0 <= i < |init| + 1 ensures (init + [last])[i].0 in h2[l].m {
        if i < |init| { assert (init + [last])[i] == init[i]; }
      }
    }
  }

  // ---------------------------------------------------------------- what applies where

  predicate HasRef(h: Heap, l: Loc, k: string, l': Loc) {
    MemberAt(h, l, k) == Some(Ref(l'))
  }

  /** The applications one application leads to, through every place the pass goes. */
  ghost predicate Leads(c: Ctx, h: Heap, a: Pair, b: Pair) {
    a.0 in c.plans &&
    var p := c.plans[a.0];
    || (exists i :: 0 <= i < |p.below| && p.below[i].slot == Some(b.0) && HasRef(h, a.1, p.below[i].key, b.1))
    || (exists i: nat :: ElemSlot(p, i) == Some(b.0) && ElemAt(h, a.1, i) == Some(Ref(b.1)))
    || (exists k, i :: 0 <= i < |p.patterns| && p.patterns[i].slot == Some(b.0) && c.matches(p.patterns[i].key, k) && HasRef(h, a.1, k, b.1))
    || (p.extra == Some(b.0) && exists k :: !Matched(c, p, k) && k !in p.declared && HasRef(h, a.1, k, b.1))
    || (b.1 == a.1 && exists i :: 0 <= i < |p.also| && p.also[i] == Some(b.0))
  }

  lemma RefsKept(h0: Heap, h1: Heap, l: Loc)
    requires ScalarGrowth(h0, h1)
    ensures forall k, l' :: HasRef(h0, l, k, l') <==> HasRef(h1, l, k, l')
    ensures forall i :: ElemAt(h0, l, i) == ElemAt(h1, l, i)
  {
    if l in h0 { assert CellGrowsByScalars(h0[l], h1[l]); }
  }

  lemma LeadsKept(c: Ctx, h0: Heap, h1: Heap, a: Pair, b: Pair)
    requires ScalarGrowth(h0, h1)
    ensures Leads(c, h0, a, b) <==> Leads(c, h1, a, b)
  {
    RefsKept(h0, h1, a.1);
  }

  // ---------------------------------------------------------------- the invariant

  ghost predicate Settled(c: Ctx, h: Heap, log: set<Pair>, a: Pair) {
    && (a.0 in c.plans ==> Filled(h, a.1, c.plans[a.0].own))
    && forall b :: Leads(c, h, a, b) && b.0 in c.plans ==> b in log
  }

  /** Every application logged, apart from those still running, is filled and all it leads to is logged. */
  ghost predicate SettledExcept(c: Ctx, h: Heap, log: set<Pair>, active: set<Pair>) {
    forall a :: a in log && a !in active ==> Settled(c, h, log, a)
  }

  predicate VisitsLogged(st: St) {
    forall l, n :: l in st.visits && n in st.visits[l] ==> (n, l) in st.log
  }

  ghost predicate Inv(c: Ctx, st: St, active: set<Pair>) {
    && HeapOk(st.heap)
    && (!st.hit ==> VisitsLogged(st) && SettledExcept(c, st.heap, st.log, active))
  }

  ghost predicate Progress(c: Ctx, st0: St, st1: St, active: set<Pair>) {
    && ScalarGrowth(st0.heap, st1.heap) && st0.log <= st1.log && (st0.hit ==> st1.hit)
    && Inv(c, st1, active)
  }

  lemma GrowthReflexive(h: Heap)
    ensures ScalarGrowth(h, h)
  {
  }

  lemma FilledKept(h0: Heap, h1: Heap, l: Loc, own: seq<(string, Doc)>)
    requires ScalarGrowth(h0, h1) && Filled(h0, l, own)
    ensures Filled(h1, l, own)
  {
    if l in h0 { assert CellGrowsByScalars(h0[l], h1[l]); }
  }

  lemma SettledKept(c: Ctx, h0: Heap, h1: Heap, log0: set<Pair>, log1: set<Pair>, a: Pair)
    requires ScalarGrowth(h0, h1) && log0 <= log1 && Settled(c, h0, log0, a)
    ensures Settled(c, h1, log1, a)
  {
    if a.0 in c.plans { FilledKept(h0, h1, a.1, c.plans[a.0].own); }
    forall b | Leads(c, h1, a, b) && b.0 in c.plans ensures b in log1 {
      LeadsKept(c, h0, h1, a, b);
    }
  }

  /** Each application of the list that lands on a container has been logged. */
  ghost predicate Logged(c: Ctx, h: Heap, log: set<Pair>, apps: seq<App>) {
    forall i, l: Loc :: 0 <= i < |apps| && apps[i].slot.Some? && apps[i].slot.value in c.plans && Resolve(h, apps[i].target) == Some(Ref(l)) ==>
      (apps[i].slot.value, l) in log
  }

  predicate Unconditional(apps: seq<App>) {
    forall i :: 0 <= i < |apps| ==> !apps[i].target.SelfIf? && apps[i].made.None?
  }

  lemma ResolveKept(h0: Heap, h1: Heap, t: Target, l: Loc)
    requires ScalarGrowth(h0, h1) && !t.SelfIf?
    ensures Resolve(h0, t) == Some(Ref(l)) <==> Resolve(h1, t) == Some(Ref(l))
  {
    match t
    case Member(x, k) => RefsKept(h0, h1, x); assert HasRef(h0, x, k, l) <==> HasRef(h1, x, k, l);
    case Elem(x, i) => RefsKept(h0, h1, x);
    case _ =>
  }

  lemma LoggedKept(c: Ctx, h0: Heap, h1: Heap, log0: set<Pair>, log1: set<Pair>, apps: seq<App>)
    requires ScalarGrowth(h0, h1) && log0 <= log1 && Unconditional(apps) && Logged(c, h0, log0, apps)
    ensures Logged(c, h1, log1, apps)
  {
    forall i, l: Loc | 0 <= i < |apps| && apps[i].slot.Some? && apps[i].slot.value in c.plans && Resolve(h1, apps[i].target) == Some(Ref(l))
      ensures (apps[i].slot.value, l) in log1
    {
      ResolveKept(h0, h1, apps[i].target, l);
    }
  }

  // ---------------------------------------------------------------- the lists are unconditional, and cover what leads on

  lemma {:induction false} PatternAppsPlain(c: Ctx, ps: seq<Property>, l: Loc, k: string)
    ensures Unconditional(PatternApps(c, ps, l, k, None))
    ensures forall i :: 0 <= i < |ps| && c.matches(ps[i].key, k) ==> App(ps[i].slot, Member(l, k), None) in PatternApps(c, ps, l, k, None)
    decreases |ps|
  {
    if ps != [] { PatternAppsPlain(c, ps[..|ps| - 1], l, k); }
  }

  lemma {:induction false} KeyAppsPlain(c: Ctx, p: Plan, l: Loc, keys: seq<string>)
    ensures var apps := KeyApps(c, p, l, keys, None);
            && Unconditional(apps)
            && (forall k, i :: k in keys && 0 <= i < |p.patterns| && c.matches(p.patterns[i].key, k) ==> App(p.patterns[i].slot, Member(l, k), None) in apps)
            && (forall k :: k in keys && !Matched(c, p, k) && k !in p.declared ==> App(p.extra, Member(l, k), None) in apps)
    decreases |keys|
  {
    if keys != [] {
      var init, last := keys[..|keys| - 1], keys[|keys| - 1];
      assert keys == init + [last];
      KeyAppsPlain(c, p, l, init);
      PatternAppsPlain(c, p.patterns, l, last);
    }
  }

  lemma ListsPlain(c: Ctx, st: St, p: Plan, l: Loc, path: seq<NodeId>)
    ensures Unconditional(BelowApps(p, l, {}, path, None)) && Unconditional(InsideApps(c, st, p, l, None)) && Unconditional(AlsoApps(p, l, None))
  {
    if l in st.heap && st.heap[l].ObjCell? { KeyAppsPlain(c, p, l, st.heap[l].keys); }
  }

  lemma Covered(c: Ctx, st: St, n: NodeId, l: Loc, path: seq<NodeId>, log: set<Pair>, b: Pair)
    requires n in c.plans && HeapOk(st.heap)
    requires Leads(c, st.heap, (n, l), b) && b.0 in c.plans
    requires var p := c.plans[n];
             && Logged(c, st.heap, log, BelowApps(p, l, {}, path, None))
             && Logged(c, st.heap, log, InsideApps(c, st, p, l, None))
             && Logged(c, st.heap, log, AlsoApps(p, l, None))
    ensures b in log
  {
    var p := c.plans[n];
    var h := st.heap;
    var below, inside, also := BelowApps(p, l, {}, path, None), InsideApps(c, st, p, l, None), AlsoApps(p, l, None);
    if i :| 0 <= i < |p.below| && p.below[i].slot == Some(b.0) && HasRef(h, l, p.below[i].key, b.1) {
      assert below[i].slot == Some(b.0) && Resolve(h, below[i].target) == Some(Ref(b.1));
    } else if i: nat :| ElemSlot(p, i) == Some(b.0) && ElemAt(h, l, i) == Some(Ref(b.1)) {
      assert inside[i].slot == Some(b.0) && Resolve(h, inside[i].target) == Some(Ref(b.1));
    } else if k, i :| 0 <= i < |p.patterns| && p.patterns[i].slot == Some(b.0) && c.matches(p.patterns[i].key, k) && HasRef(h, l, k, b.1) {
      KeyAppsPlain(c, p, l, h[l].keys);
      assert Keyed(p) && k in h[l].keys;
      var a := App(p.patterns[i].slot, Member(l, k), None);
      assert a in inside;
      var j :| 0 <= j < |inside| && inside[j] == a;
      assert Resolve(h, inside[j].target) == Some(Ref(b.1));
    } else if p.extra == Some(b.0) && exists k :: !Matched(c, p, k) && k !in p.declared && HasRef(h, l, k, b.1) {
      var k :| !Matched(c, p, k) && k !in p.declared && HasRef(h, l, k, b.1);
      KeyAppsPlain(c, p, l, h[l].keys);
      assert Keyed(p) && k in h[l].keys;
      var a := App(p.extra, Member(l, k), None);
      assert a in inside;
      var j :| 0 <= j < |inside| && inside[j] == a;
      assert Resolve(h, inside[j].target) == Some(Ref(b.1));
    } else {
      var i :| 0 <= i < |p.also| && p.also[i] == Some(b.0);
      assert also[i].slot == Some(b.0) && Resolve(h, also[i].target) == Some(Ref(b.1));
    }
  }

  // ---------------------------------------------------------------- one application

  lemma {:induction false} ApplyAllSettles(c: Ctx, st: St, apps: seq<App>, depth: nat, path: seq<NodeId>, active: set<Pair>)
    requires ScalarCtx(c) && Inv(c, st, active) && Unconditional(apps)
    ensures var st' := ApplyAll(c, st, apps, depth, path);
            Progress(c, st, st', active) && (!st'.hit ==> Logged(c, st'.heap, st'.log, apps))
    decreases if depth > c.limit then 0 else c.limit + 1 - depth, 3, |apps|
  {
    GrowthReflexive(st.heap);
    if apps != [] {
      var init, a := apps[..|apps| - 1], apps[|apps| - 1];
      assert Unconditional(init);
      ApplyAllSettles(c, st, init, depth, path, active);
      var st1 := ApplyAll(c, st, init, depth, path);
      var st2 := ApplyAll(c, st, apps, depth, path);
      var v := Resolve(st1.heap, a.target);
      assert a.made.None?;
      if a.slot.Some? && v.Some? {
        ApplySettles(c, st1, a.slot.value, v.value, depth, path, active);
        GrowthChains(st.heap, st1.heap, st2.heap);
      } else {
        GrowthReflexive(st1.heap);
      }
      if !st2.hit {
        LoggedKept(c, st1.heap, st2.heap, st1.log, st2.log, init);
        forall i, l: Loc | 0 <= i < |apps| && apps[i].slot.Some? && apps[i].slot.value in c.plans && Resolve(st2.heap, apps[i].target) == Some(Ref(l))
          ensures (apps[i].slot.value, l) in st2.log
        {
          if i < |init| { assert init[i] == apps[i]; } else { ResolveKept(st1.heap, st2.heap, a.target, l); }
        }
      }
    }
  }

  lemma {:induction false} ApplySettles(c: Ctx, st: St, n: NodeId, v: Val, depth: nat, path: seq<NodeId>, active: set<Pair>)
    requires ScalarCtx(c) && Inv(c, st, active)
    ensures var st' := Apply(c, st, n, v, depth, path, None);
            Progress(c, st, st', active) && (!st'.hit && v.Ref? && n in c.plans ==> (n, v.l) in st'.log)
    decreases if depth > c.limit then 0 else c.limit + 1 - depth, 2, 0
  {
    GrowthReflexive(st.heap);
    if depth <= c.limit && v.Ref? && n in c.plans {
      var before := if v.l in st.visits then st.visits[v.l] else {};
      if n in c.shared {
        if n !in before { BodySettles(c, st, st.visits[v.l := before + {n}], n, v.l, depth, path + [n], active); }
      } else {
        BodySettles(c, st, st.visits, n, v.l, depth, path + [n], active);
      }
    }
  }

  /** Visits may already name the application about to run: its log entry is the first thing written. */
  lemma {:induction false} BodySettles(c: Ctx, st: St, visits: map<Loc, set<NodeId>>, n: NodeId, l: Loc, depth: nat, path: seq<NodeId>, active: set<Pair>)
    requires ScalarCtx(c) && Inv(c, st, active) && n in c.plans && depth <= c.limit
    requires forall x, m :: x in visits && m in visits[x] ==> (x in st.visits && m in st.visits[x]) || (m, x) == (n, l)
    ensures var st' := Body(c, st.(visits := visits), n, l, depth, path, None);
            Progress(c, st, st', active) && (!st'.hit ==> (n, l) in st'.log)
    decreases c.limit + 1 - depth, 1, 0
  {
    var p := c.plans[n];
    var a := (n, l);
    var running := active + {a};
    var st0 := st.(visits := visits, log := st.log + {a});
    var (st1, novel) := FillOwn(st0, l, p.own);
    assert ScalarPlan(p);
    FillOwnScalar(st0, l, p.own);
    StartInv(c, st, st0, st1, a, active);
    ListsPlain(c, st1, p, l, path);
    var below := BelowApps(p, l, novel, path, None);
    ApplyAllSettles(c, st1, below, depth + 1, path, running);
    var st2 := ApplyAll(c, st1, below, depth + 1, path);
    ListsPlain(c, st2, p, l, path);
    var inside := InsideApps(c, st2, p, l, None);
    ApplyAllSettles(c, st2, inside, depth + 1, path, running);
    var st3 := ApplyAll(c, st2, inside, depth + 1, path);
    assert DependentApps(p, l, None) == [];
    var also := AlsoApps(p, l, None);
    ApplyAllSettles(c, st3, also, depth + 1, path, running);
    var st4 := ApplyAll(c, st3, also, depth + 1, path);
    GrowthChains(st.heap, st1.heap, st2.heap);
    GrowthChains(st.heap, st2.heap, st3.heap);
    GrowthChains(st.heap, st3.heap, st4.heap);
    GrowthChains(st1.heap, st2.heap, st3.heap);
    GrowthChains(st1.heap, st3.heap, st4.heap);
    GrowthChains(st2.heap, st3.heap, st4.heap);
    if !st4.hit {
      LoggedKept(c, st2.heap, st4.heap, st2.log, st4.log, below);
      LoggedKept(c, st3.heap, st4.heap, st3.log, st4.log, inside);
      FilledKept(st1.heap, st4.heap, l, p.own);
      EndSettled(c, st2, st4, n, l, path);
      assert SettledExcept(c, st4.heap, st4.log, active);
    }
    assert st4 == Body(c, st.(visits := visits), n, l, depth, path, None);
  }

  lemma StartInv(c: Ctx, st: St, st0: St, st1: St, a: Pair, active: set<Pair>)
    requires Inv(c, st, active) && st0 == st.(visits := st0.visits, log := st.log + {a})
    requires forall x, m :: x in st0.visits && m in st0.visits[x] ==> (x in st.visits && m in st.visits[x]) || (m, x) == a
    requires st1 == st0.(heap := st1.heap) && ScalarGrowth(st0.heap, st1.heap) && HeapOk(st1.heap)
    ensures Inv(c, st1, active + {a})
  {
    if !st1.hit {
      forall b | b in st1.log && b !in active + {a} ensures Settled(c, st1.heap, st1.log, b) {
        SettledKept(c, st.heap, st1.heap, st.log, st1.log, b);
      }
    }
  }

  /** After its lists have run, the application itself is settled. */
  lemma EndSettled(c: Ctx, st2: St, st4: St, n: NodeId, l: Loc, path: seq<NodeId>)
    requires n in c.plans && HeapOk(st2.heap) && HeapOk(st4.heap) && ScalarGrowth(st2.heap, st4.heap)
    requires Filled(st4.heap, l, c.plans[n].own)
    requires var p := c.plans[n];
             && Logged(c, st4.heap, st4.log, BelowApps(p, l, {}, path, None))
             && Logged(c, st4.heap, st4.log, InsideApps(c, st2, p, l, None))
             && Logged(c, st4.heap, st4.log, AlsoApps(p, l, None))
    ensures Settled(c, st4.heap, st4.log, (n, l))
  {
    var p := c.plans[n];
    forall b | Leads(c, st4.heap, (n, l), b) && b.0 in c.plans ensures b in st4.log {
      LeadsKept(c, st2.heap, st4.heap, (n, l), b);
      LoggedBack(c, st2.heap, st4.heap, st4.log, BelowApps(p, l, {}, path, None));
      ListsPlain(c, st2, p, l, path);
      LoggedBack(c, st2.heap, st4.heap, st4.log, InsideApps(c, st2, p, l, None));
      LoggedBack(c, st2.heap, st4.heap, st4.log, AlsoApps(p, l, None));
      Covered(c, st2, n, l, path, st4.log, b);
    }
  }

  lemma LoggedBack(c: Ctx, h0: Heap, h1: Heap, log: set<Pair>, apps: seq<App>)
    requires ScalarGrowth(h0, h1) && Unconditional(apps) && Logged(c, h1, log, apps)
    ensures Logged(c, h0, log, apps)
  {
    forall i, l: Loc | 0 <= i < |apps| && apps[i].slot.Some? && apps[i].slot.value in c.plans && Resolve(h0, apps[i].target) == Some(Ref(l))
      ensures (apps[i].slot.value, l) in log
    {
      ResolveKept(h0, h1, apps[i].target, l);
    }
  }

  // ---------------------------------------------------------------- nothing left to do

  /** A set of applications closed under what they lead to, all of them filled. */
  ghost predicate Saturated(c: Ctx, h: Heap, s: set<Pair>) {
    forall a :: a in s ==> Settled(c, h, s, a)
  }

  ghost predicate LandIn(c: Ctx, h: Heap, apps: seq<App>, s: set<Pair>) {
    forall i, l: Loc :: 0 <= i < |apps| && apps[i].slot.Some? && apps[i].slot.value in c.plans && Resolve(h, apps[i].target) == Some(Ref(l)) ==>
      (apps[i].slot.value, l) in s
  }

  lemma {:induction false} FillOwnIdle(st: St, l: Loc, own: seq<(string, Doc)>)
    requires Filled(st.heap, l, own)
    ensures FillOwn(st, l, own) == (st, {})
    decreases |own|
  {
    if own != [] {
      var init := own[..|own| - 1];
      assert Filled(st.heap, l, init) by {
        if l in st.heap && st.heap[l].ObjCell? {
          forall i | 0 <= i < |init| ensures init[i].0 in st.heap[l].m { assert init[i] == own[i]; }
        }
      }
      FillOwnIdle(st, l, init);
    }
  }

  lemma {:induction false} ApplyAllIdle(c: Ctx, st: St, apps: seq<App>, depth: nat, path: seq<NodeId>, s: set<Pair>)
    requires ScalarCtx(c) && HeapOk(st.heap) && Saturated(c, st.heap, s) && Unconditional(apps) && LandIn(c, st.heap, apps, s)
    ensures ApplyAll(c, st, apps, depth, path).heap == st.heap
    decreases if depth > c.limit then 0 else c.limit + 1 - depth, 3, |apps|
  {
    if apps != [] {
      var init, a := apps[..|apps| - 1], apps[|apps| - 1];
      assert LandIn(c, st.heap, init, s);
      ApplyAllIdle(c, st, init, depth, path, s);
      var st1 := ApplyAll(c, st, init, depth, path);
      var v := Resolve(st1.heap, a.target);
      if a.slot.Some? && v.Some? { ApplyIdle(c, st1, a.slot.value, v.value, depth, path, s); }
    }
  }

  /** Applied where everything it leads to is filled, the pass writes nothing. */
  lemma {:induction false} ApplyIdle(c: Ctx, st: St, n: NodeId, v: Val, depth: nat, path: seq<NodeId>, s: set<Pair>)
    requires ScalarCtx(c) && HeapOk(st.heap) && Saturated(c, st.heap, s)
    requires v.Ref? && n in c.plans ==> (n, v.l) in s
    ensures Apply(c, st, n, v, depth, path, None).heap == st.heap
    decreases if depth > c.limit then 0 else c.limit + 1 - depth, 2, 0
  {
    if depth <= c.limit && v.Ref? && n in c.plans {
      var before := if v.l in st.visits then st.visits[v.l] else {};
      if n in c.shared {
        if n !in before { BodyIdle(c, st.(visits := st.visits[v.l := before + {n}]), n, v.l, depth, path + [n], s); }
      } else {
        BodyIdle(c, st, n, v.l, depth, path + [n], s);
      }
    }
  }

  lemma {:induction false} BodyIdle(c: Ctx, st: St, n: NodeId, l: Loc, depth: nat, path: seq<NodeId>, s: set<Pair>)
    requires ScalarCtx(c) && HeapOk(st.heap) && Saturated(c, st.heap, s) && n in c.plans && depth <= c.limit && (n, l) in s
    ensures Body(c, st, n, l, depth, path, None).heap == st.heap
    decreases c.limit + 1 - depth, 1, 0
  {
    var p := c.plans[n];
    var st1 := st.(log := st.log + {(n, l)});
    assert Settled(c, st.heap, s, (n, l));
    FillOwnIdle(st1, l, p.own);
    var below := BelowApps(p, l, {}, path, None);
    ListsPlain(c, st1, p, l, path);
    ListsLand(c, st1, n, l, path, s);
    ApplyAllIdle(c, st1, below, depth + 1, path, s);
    var st2 := ApplyAll(c, st1, below, depth + 1, path);
    var inside := InsideApps(c, st2, p, l, None);
    ListsPlain(c, st2, p, l, path);
    ListsLand(c, st2, n, l, path, s);
    ApplyAllIdle(c, st2, inside, depth + 1, path, s);
    var st3 := ApplyAll(c, st2, inside, depth + 1, path);
    assert ScalarPlan(p);
    assert DependentApps(p, l, None) == [];
    ApplyAllIdle(c, st3, AlsoApps(p, l, None), depth + 1, path, s);
  }

  lemma ListsLand(c: Ctx, st: St, n: NodeId, l: Loc, path: seq<NodeId>, s: set<Pair>)
    requires n in c.plans && Settled(c, st.heap, s, (n, l))
    ensures var p := c.plans[n];
            && LandIn(c, st.heap, BelowApps(p, l, {}, path, None), s)
            && LandIn(c, st.heap, InsideApps(c, st, p, l, None), s)
            && LandIn(c, st.heap, AlsoApps(p, l, None), s)
  {
    var p := c.plans[n];
    var below, inside, also := BelowApps(p, l, {}, path, None), InsideApps(c, st, p, l, None), AlsoApps(p, l, None);
    forall i, x: Loc | 0 <= i < |below| && below[i].slot.Some? && below[i].slot.value in c.plans && Resolve(st.heap, below[i].target) == Some(Ref(x))
      ensures (below[i].slot.value, x) in s
    {
      assert HasRef(st.heap, l, p.below[i].key, x);
      assert Leads(c, st.heap, (n, l), (below[i].slot.value, x));
    }
    forall i, x: Loc | 0 <= i < |inside| && inside[i].slot.Some? && inside[i].slot.value in c.plans && Resolve(st.heap, inside[i].target) == Some(Ref(x))
      ensures (inside[i].slot.value, x) in s
    {
      if st.heap[l].ObjCell? { KeyAppsLead(c, st.heap, n, l, st.heap[l].keys, i, x); }
      assert Leads(c, st.heap, (n, l), (inside[i].slot.value, x));
    }
    forall i, x: Loc | 0 <= i < |also| && also[i].slot.Some? && also[i].slot.value in c.plans && Resolve(st.heap, also[i].target) == Some(Ref(x))
      ensures (also[i].slot.value, x) in s
    {
      assert Leads(c, st.heap, (n, l), (also[i].slot.value, x));
    }
  }

  lemma {:induction false} PatternAppsFrom(c: Ctx, ps: seq<Property>, l: Loc, k: string, i: nat)
    requires i < |PatternApps(c, ps, l, k, None)|
    ensures exists j :: 0 <= j < |ps| && c.matches(ps[j].key, k) && PatternApps(c, ps, l, k, None)[i] == App(ps[j].slot, Member(l, k), None)
    decreases |ps|
  {
    var init := ps[..|ps| - 1];
    if i < |PatternApps(c, init, l, k, None)| {
      PatternAppsFrom(c, init, l, k, i);
      var j :| 0 <= j < |init| && c.matches(init[j].key, k) && PatternApps(c, init, l, k, None)[i] == App(init[j].slot, Member(l, k), None);
      assert ps[j] == init[j];
    } else {
      assert c.matches(ps[|ps| - 1].key, k);
    }
  }

  lemma {:induction false} KeyAppsLead(c: Ctx, h: Heap, n: NodeId, l: Loc, keys: seq<string>, i: nat, x: Loc)
    requires n in c.plans && i < |KeyApps(c, c.plans[n], l, keys, None)|
    requires var a := KeyApps(c, c.plans[n], l, keys, None)[i]; a.slot.Some? && Resolve(h, a.target) == Some(Ref(x))
    ensures Leads(c, h, (n, l), (KeyApps(c, c.plans[n], l, keys, None)[i].slot.value, x))
    decreases |keys|
  {
    var p := c.plans[n];
    var init, k := keys[..|keys| - 1], keys[|keys| - 1];
    var before, pats := KeyApps(c, p, l, init, None), PatternApps(c, p.patterns, l, k, None);
    var a := KeyApps(c, p, l, keys, None)[i];
    if i < |before| {
      KeyAppsLead(c, h, n, l, init, i, x);
    } else if i < |before| + |pats| {
      assert a == pats[i - |before|];
      PatternAppsFrom(c, p.patterns, l, k, i - |before|);
      var j :| 0 <= j < |p.patterns| && c.matches(p.patterns[j].key, k) && a == App(p.patterns[j].slot, Member(l, k), None);
      assert HasRef(h, l, k, x);
    } else {
      assert a == App(p.extra, Member(l, k), None);
      assert HasRef(h, l, k, x);
    }
  }

  // ---------------------------------------------------------------- the pass on a whole document

  /** Plans compiled from a schema: each is what its schema object says, and none refers outside them. */
  ghost predicate Compiled(g: Graph, c: Ctx, valid: string -> bool, root: NodeId) {
    && SchemaGraph.Closed(g) && root in g && PlansClosed(c)
    && (Reaches(g, root) ==> root in c.plans)
    && forall n :: n in c.plans ==> n in g && c.plans[n] == PlanOf(g, n, valid)
  }

  predicate ScalarDefaults(g: Graph) {
    forall n :: n in g ==> g[n].dependents == [] && (g[n].dflt.Some? ==> g[n].dflt.value.DScalar?)
  }

  function Start(h: Heap, next: Loc): St {
    St(h, next, map[], {}, false)
  }

  function Run(c: Ctx, h: Heap, next: Loc, root: NodeId, v: Val): St {
    Apply(c, Start(h, next), root, v, 0, [], None)
  }

  /**
   In the schema's own terms: a schema that applies to a container applies, through properties,
   prefixItems and items, patternProperties, additionalProperties, `$ref` and allOf, to what
   those keywords name.
   */
  ghost predicate AppliesNext(g: Graph, c: Ctx, valid: string -> bool, h: Heap, a: Pair, b: Pair) {
    a.0 in g &&
    var s := g[a.0];
    || (exists i :: 0 <= i < |s.props| && s.props[i].slot == Some(b.0) && HasRef(h, a.1, s.props[i].key, b.1))
    || (exists i: nat :: (if i < |s.prefixItems| then s.prefixItems[i] else s.items) == Some(b.0) && ElemAt(h, a.1, i) == Some(Ref(b.1)))
    || (exists k, i :: 0 <= i < |s.patterns| && s.patterns[i].slot == Some(b.0) && valid(s.patterns[i].key) && c.matches(s.patterns[i].key, k) && HasRef(h, a.1, k, b.1))
    || (s.additional == Some(b.0) && exists k :: HasRef(h, a.1, k, b.1) && IsAdditional(s, c, valid, k))
    || (b.1 == a.1 && (s.ref == Some(b.0) || Some(b.0) in s.allOf))
  }

  predicate IsAdditional(s: Node, c: Ctx, valid: string -> bool, k: string) {
    && (forall i :: 0 <= i < |s.props| ==> s.props[i].key != k)
    && forall i :: 0 <= i < |s.patterns| && valid(s.patterns[i].key) ==> !c.matches(s.patterns[i].key, k)
  }

  predicate Defaulted(g: Graph, p: Property) {
    p.slot.Some? && p.slot.value in g && g[p.slot.value].dflt.Some?
  }

  /** Every property of the schema that carries a default is present. */
  predicate DefaultsPresent(g: Graph, h: Heap, a: Pair) {
    a.0 in g && a.1 in h && h[a.1].ObjCell? ==>
      forall i :: 0 <= i < |g[a.0].props| && Defaulted(g, g[a.0].props[i]) ==> g[a.0].props[i].key in h[a.1].m
  }

  lemma {:induction false} OwnDefaultsMean(g: Graph, ps: seq<Property>)
    ensures forall i :: 0 <= i < |ps| && ps[i].slot.Some? && ps[i].slot.value in g && g[ps[i].slot.value].dflt.Some? ==>
              (ps[i].key, g[ps[i].slot.value].dflt.value) in OwnDefaults(g, ps)
    ensures ScalarDefaults(g) ==> AllScalar(OwnDefaults(g, ps))
    decreases |ps|
  {
    if ps != [] { OwnDefaultsMean(g, ps[..|ps| - 1]); }
  }

  lemma {:induction false} UsableMeans(ps: seq<Property>, valid: string -> bool)
    ensures forall p :: p in Usable(ps, valid) <==> p in ps && valid(p.key)
    decreases |ps|
  {
    if ps != [] {
      UsableMeans(ps[..|ps| - 1], valid);
      assert ps == ps[..|ps| - 1] + [ps[|ps| - 1]];
    }
  }

  lemma ScalarFromSchema(g: Graph, c: Ctx, valid: string -> bool, root: NodeId)
    requires Compiled(g, c, valid, root) && ScalarDefaults(g)
    ensures ScalarCtx(c)
  {
    forall n | n in c.plans ensures ScalarPlan(c.plans[n]) {
      OwnDefaultsMean(g, g[n].props);
    }
  }

  lemma BelowEdge(g: Graph, n: NodeId, b: NodeId)
    requires SchemaGraph.Closed(g) && n in g
    requires || (exists i :: 0 <= i < |g[n].props| && g[n].props[i].slot == Some(b)) || Some(b) in g[n].prefixItems || g[n].items == Some(b)
             || (exists i :: 0 <= i < |g[n].patterns| && g[n].patterns[i].slot == Some(b)) || g[n].additional == Some(b)
             || g[n].ref == Some(b) || Some(b) in g[n].allOf
    ensures Edge(g, n, b) && b in g
  {
    BelowParts(g, n);
    if i :| 0 <= i < |g[n].patterns| && g[n].patterns[i].slot == Some(b) { assert SlotsOf(g[n].patterns)[i] == Some(b); }
  }

  /** What the schema says applies next, the plans carry out, as long as a default is reachable there. */
  lemma PlanLeads(g: Graph, c: Ctx, valid: string -> bool, root: NodeId, h: Heap, a: Pair, b: Pair)
    requires Compiled(g, c, valid, root) && a.0 in c.plans && Reaches(g, b.0) && AppliesNext(g, c, valid, h, a, b)
    ensures Leads(c, h, a, b) && b.0 in c.plans
  {
    hide Leads, Compiled, Reaches, IsAdditional, HasRef, ElemAt;
    assert a.0 in g by { InGraph(g, c, valid, root, a.0); }
    var s := g[a.0];
    if i :| 0 <= i < |s.props| && s.props[i].slot == Some(b.0) && HasRef(h, a.1, s.props[i].key, b.1) {
      PropertyLeads(g, c, valid, root, h, a, b, i);
    } else if i: nat :| (if i < |s.prefixItems| then s.prefixItems[i] else s.items) == Some(b.0) && ElemAt(h, a.1, i) == Some(Ref(b.1)) {
      ElementLeads(g, c, valid, root, h, a, b, i);
    } else if k, i :| 0 <= i < |s.patterns| && s.patterns[i].slot == Some(b.0) && valid(s.patterns[i].key) && c.matches(s.patterns[i].key, k) && HasRef(h, a.1, k, b.1) {
      PatternLeads(g, c, valid, root, h, a, b, i, k);
    } else if s.additional == Some(b.0) && exists k :: HasRef(h, a.1, k, b.1) && IsAdditional(s, c, valid, k) {
      var k :| HasRef(h, a.1, k, b.1) && IsAdditional(s, c, valid, k);
      AdditionalLeads(g, c, valid, root, h, a, b, k);
    } else {
      BesideLeads(g, c, valid, root, h, a, b);
    }
  }

  lemma InGraph(g: Graph, c: Ctx, valid: string -> bool, root: NodeId, n: NodeId)
    requires Compiled(g, c, valid, root) && n in c.plans
    ensures n in g && c.plans[n] == PlanOf(g, n, valid) && PlanClosed(c, c.plans[n])
  {
  }

  lemma PropertyLeads(g: Graph, c: Ctx, valid: string -> bool, root: NodeId, h: Heap, a: Pair, b: Pair, i: nat)
    requires Compiled(g, c, valid, root) && a.0 in c.plans && a.0 in g && Reaches(g, b.0)
    requires i < |g[a.0].props| && g[a.0].props[i].slot == Some(b.0) && HasRef(h, a.1, g[a.0].props[i].key, b.1)
    ensures Leads(c, h, a, b) && b.0 in c.plans
  {
    InGraph(g, c, valid, root, a.0);
    assert c.plans[a.0].below[i] == Property(g[a.0].props[i].key, Kept(g, Some(b.0)));
  }

  lemma ElementLeads(g: Graph, c: Ctx, valid: string -> bool, root: NodeId, h: Heap, a: Pair, b: Pair, i: nat)
    requires Compiled(g, c, valid, root) && a.0 in c.plans && a.0 in g && Reaches(g, b.0)
    requires (if i < |g[a.0].prefixItems| then g[a.0].prefixItems[i] else g[a.0].items) == Some(b.0) && ElemAt(h, a.1, i) == Some(Ref(b.1))
    ensures Leads(c, h, a, b) && b.0 in c.plans
  {
    InGraph(g, c, valid, root, a.0);
    assert ElemSlot(c.plans[a.0], i) == Some(b.0);
  }

  lemma PatternLeads(g: Graph, c: Ctx, valid: string -> bool, root: NodeId, h: Heap, a: Pair, b: Pair, i: nat, k: string)
    requires Compiled(g, c, valid, root) && a.0 in c.plans && a.0 in g && Reaches(g, b.0)
    requires i < |g[a.0].patterns| && g[a.0].patterns[i].slot == Some(b.0) && valid(g[a.0].patterns[i].key)
    requires c.matches(g[a.0].patterns[i].key, k) && HasRef(h, a.1, k, b.1)
    ensures Leads(c, h, a, b) && b.0 in c.plans
  {
    InGraph(g, c, valid, root, a.0);
    var j := PatternPlanned(g, valid, a.0, i);
    assert SlotPlanned(c, c.plans[a.0].patterns[j].slot);
  }

  lemma AdditionalLeads(g: Graph, c: Ctx, valid: string -> bool, root: NodeId, h: Heap, a: Pair, b: Pair, k: string)
    requires Compiled(g, c, valid, root) && a.0 in c.plans && a.0 in g && Reaches(g, b.0)
    requires g[a.0].additional == Some(b.0) && HasRef(h, a.1, k, b.1) && IsAdditional(g[a.0], c, valid, k)
    ensures Leads(c, h, a, b) && b.0 in c.plans
  {
    InGraph(g, c, valid, root, a.0);
    AdditionalPlanned(g, c, valid, a.0, k);
    assert c.plans[a.0].extra == Some(b.0);
  }

  lemma BesideLeads(g: Graph, c: Ctx, valid: string -> bool, root: NodeId, h: Heap, a: Pair, b: Pair)
    requires Compiled(g, c, valid, root) && a.0 in c.plans && a.0 in g && Reaches(g, b.0)
    requires b.1 == a.1 && (g[a.0].ref == Some(b.0) || Some(b.0) in g[a.0].allOf)
    ensures Leads(c, h, a, b) && b.0 in c.plans
  {
    InGraph(g, c, valid, root, a.0);
    if g[a.0].ref == Some(b.0) {
      assert c.plans[a.0].also[0] == Some(b.0);
    } else {
      var i :| 0 <= i < |g[a.0].allOf| && g[a.0].allOf[i] == Some(b.0);
      assert c.plans[a.0].also[i + 1] == Some(b.0);
    }
  }

  lemma PatternPlanned(g: Graph, valid: string -> bool, n: NodeId, i: nat) returns (j: nat)
    requires n in g && i < |g[n].patterns| && valid(g[n].patterns[i].key)
    ensures var p := PlanOf(g, n, valid); j < |p.patterns| && p.patterns[j] == Property(g[n].patterns[i].key, Kept(g, g[n].patterns[i].slot))
  {
    var s, p := g[n], PlanOf(g, n, valid);
    var all := WithSlots(s.patterns, KeptAll(g, SlotsOf(s.patterns)));
    UsableMeans(all, valid);
    assert all[i] == Property(s.patterns[i].key, Kept(g, s.patterns[i].slot));
    assert all[i] in p.patterns;
    j :| 0 <= j < |p.patterns| && p.patterns[j] == all[i];
  }

  lemma AdditionalPlanned(g: Graph, c: Ctx, valid: string -> bool, n: NodeId, k: string)
    requires n in g && IsAdditional(g[n], c, valid, k)
    ensures !Matched(c, PlanOf(g, n, valid), k) && k !in PlanOf(g, n, valid).declared
  {
    var s, p := g[n], PlanOf(g, n, valid);
    var all := WithSlots(s.patterns, KeptAll(g, SlotsOf(s.patterns)));
    UsableMeans(all, valid);
    forall j | 0 <= j < |p.patterns| ensures !c.matches(p.patterns[j].key, k) {
      assert p.patterns[j] in p.patterns;
      assert p.patterns[j] in all;
      var i :| 0 <= i < |all| && all[i] == p.patterns[j];
      assert s.patterns[i].key == p.patterns[j].key;
    }
  }

  lemma AppliesEdge(g: Graph, c: Ctx, valid: string -> bool, h: Heap, a: Pair, b: Pair)
    requires SchemaGraph.Closed(g) && AppliesNext(g, c, valid, h, a, b)
    ensures Edge(g, a.0, b.0)
  {
    var s := g[a.0];
    if i: nat :| (if i < |s.prefixItems| then s.prefixItems[i] else s.items) == Some(b.0) && ElemAt(h, a.1, i) == Some(Ref(b.1)) {
      BelowEdge(g, a.0, b.0);
    } else {
      BelowEdge(g, a.0, b.0);
    }
  }

  lemma RunSettles(g: Graph, c: Ctx, valid: string -> bool, h: Heap, next: Loc, root: NodeId, v: Val)
    requires Compiled(g, c, valid, root) && ScalarDefaults(g) && HeapOk(h)
    ensures var st := Run(c, h, next, root, v);
            && ScalarGrowth(h, st.heap) && HeapOk(st.heap)
            && (!st.hit ==> SettledExcept(c, st.heap, st.log, {}) && (v.Ref? && root in c.plans ==> (root, v.l) in st.log))
  {
    ScalarFromSchema(g, c, valid, root);
    ApplySettles(c, Start(h, next), root, v, 0, [], {});
  }

  /** A second run changes nothing. */
  lemma SecondRunIdle(g: Graph, c: Ctx, valid: string -> bool, h: Heap, next: Loc, next2: Loc, root: NodeId, v: Val)
    requires Compiled(g, c, valid, root) && ScalarDefaults(g) && HeapOk(h)
    requires !Run(c, h, next, root, v).hit
    ensures Run(c, Run(c, h, next, root, v).heap, next2, root, v).heap == Run(c, h, next, root, v).heap
  {
    var st := Run(c, h, next, root, v);
    RunSettles(g, c, valid, h, next, root, v);
    ScalarFromSchema(g, c, valid, root);
    ApplyIdle(c, Start(st.heap, next2), root, v, 0, [], st.log);
  }
}
