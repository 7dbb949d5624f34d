/**
 The closure pass fills every default that applies, whatever the defaults and however the schemas recurse:
 skipping what was applied before loses nothing at an object that was there (lib/defaults.js:177-293).
 */
module DefaultsFilled {
  import opened Json
  import opened SchemaGraph
  import opened DefaultsPass
  import opened DefaultsScalar
  import opened DefaultsCopy

  /** What an object of the document had stays; what it gains is a scalar or a container the pass made. */
  predicate CellGains(h: Heap, c0: Cell, c1: Cell) {
    CellGrows(c0, c1) && (c0.ObjCell? ==> forall k :: k in c1.m && k !in c0.m ==> Foreign(h, c1.m[k]))
  }

  predicate Foreign(h: Heap, v: Val) { v.Ref? ==> v.l !in h }

  predicate CellForeign(h: Heap, c: Cell) {
    match c
    case ObjCell(_, m) => forall k :: k in m ==> Foreign(h, m[k])
    case ArrCell(a) => forall i :: 0 <= i < |a| ==> Foreign(h, a[i])
  }

  /** The document within the heap: no container the pass made leads back into it. */
  predicate Kept(h: Heap, h': Heap) {
    && (forall l :: l in h ==> l in h' && CellGains(h, h[l], h'[l]))
    && forall l :: l in h' && l !in h ==> CellForeign(h, h'[l])
  }

  predicate Base(h: Heap, st: St) {
    HeapOk(h) && StOk(st) && Kept(h, st.heap) && forall l :: l in h ==> l < st.next
  }

  // ---------------------------------------------------------------- writing keeps the document

  lemma {:induction false} CopyBase(h: Heap, st: St, d: Doc)
    requires Base(h, st)
    ensures var (st', v) := Copy(st, d); Base(h, st') && Foreign(h, v) && st.next <= st'.next && Extends(st.heap, st'.heap, st.next)
    decreases d, 0
  {
    hide Kept;
    match d
    case DScalar(_) =>
    case DArr(items) =>
      CopyListBase(h, st, items);
      var (st1, vs) := CopyList(st, items);
      AllocBase(h, st1, ArrCell(vs));
    case DObj(ms) =>
      CopyMembersBase(h, st, ms);
      var (st1, c) := CopyMembers(st, ms);
      AllocBase(h, st1, c);
  }

  lemma AllocBase(h: Heap, st: St, c: Cell)
    requires Base(h, st) && CellForeign(h, c) && CellOk(c)
    ensures var (st', v) := Alloc(st, c); Base(h, st') && Foreign(h, v) && st.next <= st'.next && Extends(st.heap, st'.heap, st.next)
  {
  }

  lemma {:induction false} CopyListBase(h: Heap, st: St, items: seq<Doc>)
    requires Base(h, st)
    ensures var (st', vs) := CopyList(st, items); Base(h, st') && CellForeign(h, ArrCell(vs)) && st.next <= st'.next && Extends(st.heap, st'.heap, st.next)
    decreases items, 0
  {
    hide Base, Copy;
    if items != [] {
      CopyListBase(h, st, items[..|items| - 1]);
      var (st1, vs) := CopyList(st, items[..|items| - 1]);
      CopyBase(h, st1, items[|items| - 1]);
    }
  }

  lemma {:induction false} CopyMembersBase(h: Heap, st: St, ms: seq<DMember>)
    requires Base(h, st)
    ensures var (st', c) := CopyMembers(st, ms); Base(h, st') && CellForeign(h, c) && CellOk(c) && st.next <= st'.next && Extends(st.heap, st'.heap, st.next)
    decreases ms, 0
  {
    hide Base, Copy;
    if ms != [] {
      CopyMembersBase(h, st, ms[..|ms| - 1]);
      var (st1, c) := CopyMembers(st, ms[..|ms| - 1]);
      CopyBase(h, st1, ms[|ms| - 1].value);
    }
  }

  lemma WriteBase(h: Heap, st: St, l: Loc, k: string, v: Val)
    requires Base(h, st) && l in st.heap && st.heap[l].ObjCell? && k !in st.heap[l].m && Foreign(h, v)
    ensures var st' := st.(heap := st.heap[l := SetMember(st.heap[l], k, v)]); Base(h, st') && Grows(st.heap, st'.heap) && k in st'.heap[l].m
  {
  }

  /** The node's own defaults are all there afterwards, and the containers written are named as new. */
  lemma {:induction false} FillBase(h: Heap, st: St, l: Loc, own: seq<(string, Doc)>)
    requires Base(h, st)
    ensures var (st', novel) := FillOwn(st, l, own);
      && Base(h, st') && Grows(st.heap, st'.heap) && Filled(st'.heap, l, own)
      && forall k :: k in novel && l in st.heap && st.heap[l].ObjCell? ==> k !in st.heap[l].m
    decreases |own|
  {
    hide Base, Copy, SetMember, StOk;
    if own == [] {
      GrowsSelf(st.heap);
    } else {
      var init, last := own[..|own| - 1], own[|own| - 1];
      FillBase(h, st, l, init);
      var (st1, novel) := FillOwn(st, l, init);
      assert own == init + [last];
      if l in st1.heap && st1.heap[l].ObjCell? && last.0 !in st1.heap[l].m {
        CopyBase(h, st1, last.1);
        var (st2, v) := Copy(st1, last.1);
        WriteBase(h, st2, l, last.0, v);
        var st3 := FillOwn(st, l, own).0;
        assert st3 == st2.(heap := st2.heap[l := SetMember(st2.heap[l], last.0, v)]);
        GrowsOn(st1.heap, st2.heap, st3.heap, st1.next);
        GrowsTwice(st.heap, st1.heap, st3.heap);
        if l in st.heap { assert CellGrows(st.heap[l], st1.heap[l]); }
        FilledOn(st1.heap, st3.heap, l, init, last.0, v);
      } else {
        assert Filled(st1.heap, l, own);
      }
    }
  }

  lemma GrowsSelf(h: Heap)
    ensures Grows(h, h)
  {
  }

  lemma GrowsTwice(h0: Heap, h1: Heap, h2: Heap)
    requires Grows(h0, h1) && Grows(h1, h2)
    ensures Grows(h0, h2)
  {
    forall l | l in h0 ensures l in h2 && CellGrows(h0[l], h2[l]) { assert CellGrows(h0[l], h1[l]) && CellGrows(h1[l], h2[l]); }
  }

  lemma GrowsOn(h0: Heap, h1: Heap, h2: Heap, next: Loc)
    requires Extends(h0, h1, next) && Grows(h1, h2)
    ensures Grows(h0, h2)
  {
  }

  lemma FilledOn(h0: Heap, h1: Heap, l: Loc, init: seq<(string, Doc)>, k: string, v: Val)
    requires Filled(h0, l, init) && Grows(h0, h1) && l in h0 && h0[l].ObjCell?
    requires l in h1 && h1[l].ObjCell? && k in h1[l].m
    ensures forall e: (string, Doc) :: e.0 == k ==> Filled(h1, l, init + [e])
  {
    forall e: (string, Doc) | e.0 == k ensures Filled(h1, l, init + [e]) {
      assert CellGrows(h0[l], h1[l]);
    }
  }

  // ---------------------------------------------------------------- where applications land

  function Home(t: Target): Loc { t.l }

  /** Inside a value the pass made: at a container it made, or at a member the document did not have. */
  predicate Fits(h: Heap, app: App) {
    app.made.Some? ==> Home(app.target) !in h || (app.target.Member? && MemberAt(h, app.target.l, app.target.key).None?)
  }

  predicate AllFit(h: Heap, apps: seq<App>) {
    forall i :: 0 <= i < |apps| ==> Fits(h, apps[i])
  }

  /** Under `made` an application does not land on a container of the document. */
  lemma LandsForeign(h: Heap, h': Heap, app: App)
    requires Kept(h, h') && Fits(h, app) && app.made.Some? && Resolve(h', app.target).Some?
    ensures Foreign(h, Resolve(h', app.target).value)
  {
    var l := Home(app.target);
    if l in h { assert CellGains(h, h[l], h'[l]); } else if l in h' { assert CellForeign(h, h'[l]); }
  }

  /** Each application that the document itself gives a container has been made. */
  ghost predicate Made(c: Ctx, h: Heap, log: set<Pair>, apps: seq<App>) {
    forall i, x: Loc :: 0 <= i < |apps| && apps[i].slot.Some? && apps[i].slot.value in c.plans && x in h && Resolve(h, apps[i].target) == Some(Ref(x)) ==>
      (apps[i].slot.value, x) in log
  }

  lemma ResolveStays(h: Heap, h': Heap, t: Target, x: Loc)
    requires Kept(h, h') && Resolve(h, t) == Some(Ref(x))
    ensures Resolve(h', t) == Some(Ref(x))
  {
    if t.l in h { assert CellGains(h, h[t.l], h'[t.l]); }
  }

  // ---------------------------------------------------------------- the invariant

  /** Its defaults are there, and whatever the document says it leads to has been applied. */
  ghost predicate Done(c: Ctx, h: Heap, st: St, a: Pair) {
    a.0 in c.plans && a.1 in h ==>
      && Filled(st.heap, a.1, c.plans[a.0].own)
      && forall b: Pair :: b.0 in c.plans && b.1 in h && Led(c, h, a, b) ==> b in st.log
  }

  ghost predicate Runs(c: Ctx, h: Heap, st: St, active: set<Pair>) {
    && Base(h, st)
    && (!st.hit ==> VisitsLogged(st) && forall a :: a in st.log && a !in active ==> Done(c, h, st, a))
  }

  ghost predicate Onward(c: Ctx, h: Heap, st: St, st': St, active: set<Pair>) {
    Runs(c, h, st', active) && st.log <= st'.log && (st.hit ==> st'.hit) && Grows(st.heap, st'.heap)
  }

  lemma OnwardChains(c: Ctx, h: Heap, st0: St, st1: St, st2: St, active: set<Pair>)
    requires Onward(c, h, st0, st1, active) && Onward(c, h, st1, st2, active)
    ensures Onward(c, h, st0, st2, active)
  {
    hide Runs;
    GrowsTwice(st0.heap, st1.heap, st2.heap);
  }

  lemma OnwardSelf(c: Ctx, h: Heap, st: St, active: set<Pair>)
    requires Runs(c, h, st, active)
    ensures Onward(c, h, st, st, active)
  {
    hide Runs;
    GrowsSelf(st.heap);
  }

  lemma {:induction false} AllRun(c: Ctx, h: Heap, st: St, apps: seq<App>, depth: nat, path: seq<NodeId>, active: set<Pair>)
    requires Runs(c, h, st, active) && AllFit(h, apps)
    ensures var st' := ApplyAll(c, st, apps, depth, path);
            Onward(c, h, st, st', active) && (!st'.hit ==> Made(c, h, st'.log, apps))
    decreases if depth > c.limit then 0 else c.limit + 1 - depth, 3, |apps|
  {
    hide Runs, Apply, Resolve, Fits, Grows;
    OnwardSelf(c, h, st, active);
    if apps != [] {
      var init, a := apps[..|apps| - 1], apps[|apps| - 1];
      AllRun(c, h, st, init, depth, path, active);
      var st1 := ApplyAll(c, st, init, depth, path);
      var st2 := ApplyAll(c, st, apps, depth, path);
      var v := Resolve(st1.heap, a.target);
      RunsKept(c, h, st1, active);
      if a.slot.Some? && v.Some? {
        if a.made.Some? { LandsForeign(h, st1.heap, a); }
        ApplyRuns(c, h, st1, a.slot.value, v.value, depth, path, a.made, active);
        OnwardChains(c, h, st, st1, st2, active);
      }
      if !st2.hit {
        forall i, x: Loc | 0 <= i < |apps| && apps[i].slot.Some? && apps[i].slot.value in c.plans && x in h && Resolve(h, apps[i].target) == Some(Ref(x))
          ensures (apps[i].slot.value, x) in st2.log
        {
          if i < |init| { assert init[i] == apps[i]; } else { ResolveStays(h, st1.heap, a.target, x); }
        }
      }
    }
  }

  lemma RunsKept(c: Ctx, h: Heap, st: St, active: set<Pair>)
    requires Runs(c, h, st, active)
    ensures Kept(h, st.heap)
  {
  }

  lemma {:induction false} ApplyRuns(c: Ctx, h: Heap, st: St, n: NodeId, v: Val, depth: nat, path: seq<NodeId>, made: Option<set<NodeId>>, active: set<Pair>)
    requires Runs(c, h, st, active) && (v.Ref? && v.l in h ==> made.None?)
    ensures var st' := Apply(c, st, n, v, depth, path, made);
            Onward(c, h, st, st', active) && (!st'.hit && v.Ref? && v.l in h && n in c.plans ==> (n, v.l) in st'.log)
    decreases if depth > c.limit then 0 else c.limit + 1 - depth, 2, 0
  {
    hide Body, Grows, Done, Base;
    OnwardSelf(c, h, st, active);
    if depth <= c.limit && v.Ref? && n in c.plans {
      if n in c.shared && made.None? {
        var before := if v.l in st.visits then st.visits[v.l] else {};
        if n !in before { BodyRuns(c, h, st, st.visits[v.l := before + {n}], n, v.l, depth, path + [n], None, active); }
      } else if made.None? {
        BodyRuns(c, h, st, st.visits, n, v.l, depth, path + [n], None, active);
      } else if n !in made.value {
        BodyRuns(c, h, st, st.visits, n, v.l, depth, path, Some(made.value + {n}), active);
      }
    } else if depth > c.limit && v.Ref? {
      HitRuns(c, h, st, active);
    }
  }

  lemma HitRuns(c: Ctx, h: Heap, st: St, active: set<Pair>)
    requires Runs(c, h, st, active)
    ensures Onward(c, h, st, st.(hit := true), active)
  {
    GrowsSelf(st.heap);
  }

  /** Visits may already name the application about to run: its log entry is the first thing written. */
  lemma {:induction false} BodyRuns(c: Ctx, h: Heap, st: St, visits: map<Loc, set<NodeId>>, n: NodeId, l: Loc, depth: nat, path: seq<NodeId>, made: Option<set<NodeId>>, active: set<Pair>)
    requires Runs(c, h, st, active) && n in c.plans && depth <= c.limit && (l in h ==> made.None?)
    requires forall x, m :: x in visits && m in visits[x] ==> (x in st.visits && m in st.visits[x]) || (m, x) == (n, l)
    ensures var st' := Body(c, st.(visits := visits), n, l, depth, path, made);
            Onward(c, h, st, st', active) && (n, l) in st'.log
    decreases c.limit + 1 - depth, 1, 0
  {
    hide FillOwn, ApplyAll, BelowApps, InsideApps, DependentApps, AlsoApps, Runs, AllFit, Made, Filled, Grows;
    var p, a := c.plans[n], (n, l);
    var running := active + {a};
    var st0 := st.(visits := visits, log := st.log + {a});
    var (st1, novel) := FillOwn(st0, l, p.own);
    Entered(c, h, st, st0, n, l, active);
    OwnListsFit(c, h, st0, n, l, path, made);
    var below := BelowApps(p, l, novel, path, made);
    AllRun(c, h, st1, below, depth + 1, path, running);
    var st2 := ApplyAll(c, st1, below, depth + 1, path);
    InsideFits(c, h, st2, n, l, made);
    var inside := InsideApps(c, st2, p, l, made);
    AllRun(c, h, st2, inside, depth + 1, path, running);
    var st3 := ApplyAll(c, st2, inside, depth + 1, path);
    AllRun(c, h, st3, DependentApps(p, l, made), depth + 1, path, running);
    var st4 := ApplyAll(c, st3, DependentApps(p, l, made), depth + 1, path);
    AllRun(c, h, st4, AlsoApps(p, l, made), depth + 1, path, running);
    var st5 := ApplyAll(c, st4, AlsoApps(p, l, made), depth + 1, path);
    GrowsTwice(st.heap, st1.heap, st2.heap);
    GrowsTwice(st.heap, st2.heap, st3.heap);
    GrowsTwice(st.heap, st3.heap, st4.heap);
    GrowsTwice(st.heap, st4.heap, st5.heap);
    if !st5.hit && l in h {
      GrowsTwice(st3.heap, st4.heap, st5.heap);
      GrowsTwice(st2.heap, st3.heap, st5.heap);
      GrowsTwice(st1.heap, st2.heap, st5.heap);
      RunsKept(c, h, st1, running);
      RunsKept(c, h, st2, running);
      FilledMore(st1.heap, st5.heap, l, p.own);
      AllCovered(c, h, st2, st5, n, l, novel, path, st2.log, st3.log, st4.log);
    }
    Leave(c, h, st5, a, active);
  }

  lemma Entered(c: Ctx, h: Heap, st: St, st0: St, n: NodeId, l: Loc, active: set<Pair>)
    requires Runs(c, h, st, active) && n in c.plans && st0 == st.(visits := st0.visits, log := st.log + {(n, l)})
    requires forall x, m :: x in st0.visits && m in st0.visits[x] ==> (x in st.visits && m in st.visits[x]) || (m, x) == (n, l)
    ensures var st1 := FillOwn(st0, l, c.plans[n].own).0;
            && Runs(c, h, st1, active + {(n, l)}) && Grows(st.heap, st1.heap) && Filled(st1.heap, l, c.plans[n].own)
            && st1.log == st0.log && st1.hit == st.hit && Base(h, st0)
  {
    hide Grows, Filled, FillOwn, Led;
    var own := c.plans[n].own;
    var st1 := FillOwn(st0, l, own).0;
    assert Base(h, st0);
    FillBase(h, st0, l, own);
    FillOwnSilent(st0, l, own);
    if !st1.hit {
      forall b | b in st1.log && b !in active + {(n, l)} ensures Done(c, h, st1, b) {
        assert Done(c, h, st, b);
        if b.0 in c.plans && b.1 in h { FilledMore(st.heap, st1.heap, b.1, c.plans[b.0].own); }
      }
    }
  }

  lemma FilledMore(h0: Heap, h1: Heap, l: Loc, own: seq<(string, Doc)>)
    requires Filled(h0, l, own) && Grows(h0, h1) && l in h0
    ensures Filled(h1, l, own)
  {
    assert CellGrows(h0[l], h1[l]);
  }

  lemma OwnListsFit(c: Ctx, h: Heap, st0: St, n: NodeId, l: Loc, path: seq<NodeId>, made: Option<set<NodeId>>)
    requires n in c.plans && Base(h, st0) && (l in h ==> made.None?)
    ensures var p := c.plans[n]; var novel := FillOwn(st0, l, p.own).1;
            AllFit(h, BelowApps(p, l, novel, path, made)) && AllFit(h, DependentApps(p, l, made)) && AllFit(h, AlsoApps(p, l, made))
  {
    hide Grows, Filled, FillOwn;
    FillBase(h, st0, l, c.plans[n].own);
    if l in h { assert CellGains(h, h[l], st0.heap[l]); }
  }

  lemma {:induction false} PatternAppsFit(c: Ctx, h: Heap, ps: seq<Property>, l: Loc, k: string, made: Option<set<NodeId>>)
    requires l in h ==> made.None?
    ensures AllFit(h, PatternApps(c, ps, l, k, made))
    decreases |ps|
  {
    if ps != [] { PatternAppsFit(c, h, ps[..|ps| - 1], l, k, made); }
  }

  lemma {:induction false} KeyAppsFit(c: Ctx, h: Heap, p: Plan, l: Loc, keys: seq<string>, made: Option<set<NodeId>>)
    requires l in h ==> made.None?
    ensures AllFit(h, KeyApps(c, p, l, keys, made))
    decreases |keys|
  {
    hide PatternApps;
    if keys != [] {
      KeyAppsFit(c, h, p, l, keys[..|keys| - 1], made);
      PatternAppsFit(c, h, p.patterns, l, keys[|keys| - 1], made);
    }
  }

  lemma InsideFits(c: Ctx, h: Heap, st: St, n: NodeId, l: Loc, made: Option<set<NodeId>>)
    requires n in c.plans && (l in h ==> made.None?)
    ensures AllFit(h, InsideApps(c, st, c.plans[n], l, made))
  {
    hide KeyApps;
    if l in st.heap && st.heap[l].ObjCell? { KeyAppsFit(c, h, c.plans[n], l, st.heap[l].keys, made); }
  }

  lemma Leave(c: Ctx, h: Heap, st: St, a: Pair, active: set<Pair>)
    requires Runs(c, h, st, active + {a}) && (!st.hit && a.1 in h ==> Done(c, h, st, a))
    ensures Runs(c, h, st, active)
  {
    hide Base, Led;
  }

  // ---------------------------------------------------------------- the lists cover what the document gives

  lemma {:induction false} KeyAppsAll(c: Ctx, p: Plan, l: Loc, keys: seq<string>, made: Option<set<NodeId>>)
    ensures var apps := KeyApps(c, p, l, keys, made);
            && (forall k, i :: k in keys && 0 <= i < |p.patterns| && c.matches(p.patterns[i].key, k) ==> App(p.patterns[i].slot, Member(l, k), made) in apps)
            && (forall k :: k in keys && !Matched(c, p, k) && k !in p.declared ==> App(p.extra, Member(l, k), made) in apps)
    decreases |keys|
  {
    hide Matched, PatternApps;
    if keys != [] {
      var init, last := keys[..|keys| - 1], keys[|keys| - 1];
      assert keys == init + [last];
      KeyAppsAll(c, p, l, init, made);
      PatternAppsAll(c, p.patterns, l, last, made);
    }
  }

  lemma {:induction false} PatternAppsAll(c: Ctx, ps: seq<Property>, l: Loc, k: string, made: Option<set<NodeId>>)
    ensures forall i :: 0 <= i < |ps| && c.matches(ps[i].key, k) ==> App(ps[i].slot, Member(l, k), made) in PatternApps(c, ps, l, k, made)
    decreases |ps|
  {
    if ps != [] { PatternAppsAll(c, ps[..|ps| - 1], l, k, made); }
  }

  lemma MadeOne(c: Ctx, h: Heap, log: set<Pair>, apps: seq<App>, app: App, b: Pair)
    requires Made(c, h, log, apps) && app in apps && app.slot == Some(b.0) && b.0 in c.plans && b.1 in h && Resolve(h, app.target) == Some(Ref(b.1))
    ensures b in log
  {
    hide Resolve;
    var i :| 0 <= i < |apps| && apps[i] == app;
  }

  /** Through a member of the document, or an element. */
  lemma InsideCovered(c: Ctx, h: Heap, st: St, n: NodeId, l: Loc, log: set<Pair>, b: Pair, k: string, i: nat)
    requires HeapOk(h) && Kept(h, st.heap) && n in c.plans && l in h && b.0 in c.plans && b.1 in h
    requires Made(c, h, log, InsideApps(c, st, c.plans[n], l, None))
    requires var p := c.plans[n];
      || (ElemSlot(p, i) == Some(b.0) && ElemAt(h, l, i) == Some(Ref(b.1)))
      || (i < |p.patterns| && p.patterns[i].slot == Some(b.0) && c.matches(p.patterns[i].key, k) && HasRef(h, l, k, b.1))
      || (p.extra == Some(b.0) && !Matched(c, p, k) && k !in p.declared && HasRef(h, l, k, b.1))
    ensures b in log
  {
    hide Made, KeyApps, Matched;
    var p := c.plans[n];
    assert CellGains(h, h[l], st.heap[l]);
    var apps := InsideApps(c, st, p, l, None);
    if ElemSlot(p, i) == Some(b.0) && ElemAt(h, l, i) == Some(Ref(b.1)) {
      var app := App(ElemSlot(p, i), Elem(l, i), None);
      assert apps[i] == app;
      MadeOne(c, h, log, apps, app, b);
    } else {
      assert k in h[l].m && k in h[l].keys && k in st.heap[l].keys by { assert k in st.heap[l].m; }
      KeyAppsAll(c, p, l, st.heap[l].keys, None);
      if i < |p.patterns| && p.patterns[i].slot == Some(b.0) && c.matches(p.patterns[i].key, k) {
        assert Keyed(p);
        MadeOne(c, h, log, apps, App(p.patterns[i].slot, Member(l, k), None), b);
      } else {
        MadeOne(c, h, log, apps, App(p.extra, Member(l, k), None), b);
      }
    }
  }

  lemma OneCovered(c: Ctx, h: Heap, st2: St, n: NodeId, l: Loc, novel: set<string>, path: seq<NodeId>, log: set<Pair>, b: Pair)
    requires HeapOk(h) && Kept(h, st2.heap) && n in c.plans && l in h && b.0 in c.plans && b.1 in h && Led(c, h, (n, l), b)
    requires var p := c.plans[n];
      && Made(c, h, log, BelowApps(p, l, novel, path, None)) && Made(c, h, log, InsideApps(c, st2, p, l, None))
      && Made(c, h, log, DependentApps(p, l, None)) && Made(c, h, log, AlsoApps(p, l, None))
    ensures b in log
  {
    hide Made, InsideApps, Kept, Matched, HeapOk;
    var p := c.plans[n];
    if i :| 0 <= i < |p.below| && p.below[i].slot == Some(b.0) && HasRef(h, l, p.below[i].key, b.1) {
      MadeOne(c, h, log, BelowApps(p, l, novel, path, None), BelowApps(p, l, novel, path, None)[i], b);
    } else if i: nat :| ElemSlot(p, i) == Some(b.0) && ElemAt(h, l, i) == Some(Ref(b.1)) {
      InsideCovered(c, h, st2, n, l, log, b, "", i);
    } else if k, i :| 0 <= i < |p.patterns| && p.patterns[i].slot == Some(b.0) && c.matches(p.patterns[i].key, k) && HasRef(h, l, k, b.1) {
      InsideCovered(c, h, st2, n, l, log, b, k, i);
    } else if p.extra == Some(b.0) && exists k :: !Matched(c, p, k) && k !in p.declared && HasRef(h, l, k, b.1) {
      var k :| !Matched(c, p, k) && k !in p.declared && HasRef(h, l, k, b.1);
      InsideCovered(c, h, st2, n, l, log, b, k, 0);
    } else if i :| 0 <= i < |p.also| && p.also[i] == Some(b.0) && b.1 == l {
      MadeOne(c, h, log, AlsoApps(p, l, None), AlsoApps(p, l, None)[i], b);
    } else {
      var i :| 0 <= i < |p.dependent| && p.dependent[i].slot == Some(b.0) && MemberAt(h, l, p.dependent[i].key).Some?;
      MadeOne(c, h, log, DependentApps(p, l, None), DependentApps(p, l, None)[i], b);
    }
  }

  /** After its lists have run, the application itself is done. */
  lemma AllCovered(c: Ctx, h: Heap, st2: St, st5: St, n: NodeId, l: Loc, novel: set<string>, path: seq<NodeId>, log2: set<Pair>, log3: set<Pair>, log4: set<Pair>)
    requires HeapOk(h) && Kept(h, st2.heap) && n in c.plans && l in h && Filled(st5.heap, l, c.plans[n].own)
    requires log2 <= st5.log && log3 <= st5.log && log4 <= st5.log
    requires var p := c.plans[n];
      && Made(c, h, log2, BelowApps(p, l, novel, path, None)) && Made(c, h, log3, InsideApps(c, st2, p, l, None))
      && Made(c, h, log4, DependentApps(p, l, None)) && Made(c, h, st5.log, AlsoApps(p, l, None))
    ensures Done(c, h, st5, (n, l))
  {
    hide Led, Kept, Filled, BelowApps, InsideApps, DependentApps, AlsoApps, Resolve;
    var p := c.plans[n];
    assert Made(c, h, st5.log, BelowApps(p, l, novel, path, None));
    assert Made(c, h, st5.log, InsideApps(c, st2, p, l, None));
    assert Made(c, h, st5.log, DependentApps(p, l, None));
    forall b: Pair | b.0 in c.plans && b.1 in h && Led(c, h, (n, l), b) ensures b in st5.log {
      OneCovered(c, h, st2, n, l, novel, path, st5.log, b);
    }
  }

  // ---------------------------------------------------------------- on a whole document

  lemma NextEdge(g: Graph, c: Ctx, valid: string -> bool, h: Heap, a: Pair, b: Pair)
    requires SchemaGraph.Closed(g) && Next(g, c, valid, h, a, b)
    ensures Edge(g, a.0, b.0)
  {
    if AppliesNext(g, c, valid, h, a, b) {
      AppliesEdge(g, c, valid, h, a, b);
    } else {
      var i :| 0 <= i < |g[a.0].dependents| && g[a.0].dependents[i].slot == Some(b.0) && MemberAt(h, a.1, g[a.0].dependents[i].key).Some?;
      BelowParts(g, a.0);
      assert SlotsOf(g[a.0].dependents)[i] == Some(b.0);
    }
  }

  lemma NextLed(g: Graph, c: Ctx, valid: string -> bool, root: NodeId, h: Heap, a: Pair, b: Pair)
    requires Compiled(g, c, valid, root) && a.0 in c.plans && Reaches(g, b.0) && Next(g, c, valid, h, a, b)
    ensures Led(c, h, a, b) && b.0 in c.plans
  {
    hide Compiled, Reaches, PlanOf, Leads;
    if AppliesNext(g, c, valid, h, a, b) {
      PlanLeads(g, c, valid, root, h, a, b);
    } else {
      var i :| 0 <= i < |g[a.0].dependents| && g[a.0].dependents[i].slot == Some(b.0) && MemberAt(h, a.1, g[a.0].dependents[i].key).Some?;
      InGraph(g, c, valid, root, a.0);
      PlanParts(g, a.0, valid);
      KeptReaches(g, b.0);
      assert c.plans[a.0].dependent[i].slot == Some(b.0);
      PlannedDependent(c, a.0, i);
    }
  }

  lemma KeptReaches(g: Graph, n: NodeId)
    requires Reaches(g, n)
    ensures DefaultsPass.Kept(g, Some(n)) == Some(n)
  {
  }

  lemma PlannedDependent(c: Ctx, n: NodeId, i: nat)
    requires n in c.plans && PlanClosed(c, c.plans[n]) && i < |c.plans[n].dependent|
    ensures SlotPlanned(c, c.plans[n].dependent[i].slot)
  {
  }

  /** Going back along a chain that ends in the document, one is in it all along. */
  lemma {:induction false} ChainApplied(g: Graph, c: Ctx, valid: string -> bool, root: NodeId, h: Heap, st: St, chain: seq<Pair>)
    requires Compiled(g, c, valid, root) && NextSteps(g, c, valid, h, chain) && Reaches(g, chain[|chain| - 1].0) && chain[|chain| - 1].1 in h
    requires Runs(c, h, st, {}) && !st.hit && chain[0].0 == root && (root in c.plans && chain[0].1 in h ==> chain[0] in st.log)
    ensures chain[|chain| - 1] in st.log && chain[|chain| - 1].0 in c.plans
    decreases |chain|
  {
    hide Next, Led, Base, Reaches, Reached, VisitsLogged;
    if |chain| > 1 {
      var init := chain[..|chain| - 1];
      var a, b := init[|init| - 1], chain[|chain| - 1];
      assert Next(g, c, valid, h, chain[|chain| - 2], chain[|chain| - 1]);
      NextEdge(g, c, valid, h, a, b);
      StepReaches(g, a.0, b.0);
      NextInside(g, c, valid, h, a, b);
      assert NextSteps(g, c, valid, h, init) by {
        forall i, j | 0 <= i < j < |init| && j == i + 1 ensures Next(g, c, valid, h, init[i], init[j]) {
          assert Next(g, c, valid, h, chain[i], chain[j]);
        }
      }
      ChainApplied(g, c, valid, root, h, st, init);
      NextLed(g, c, valid, root, h, a, b);
      assert Done(c, h, st, a);
    }
  }

  lemma NextInside(g: Graph, c: Ctx, valid: string -> bool, h: Heap, a: Pair, b: Pair)
    requires Next(g, c, valid, h, a, b) && b.1 in h
    ensures a.1 in h
  {
  }

  /**
   After the pass, every object of the document has each defaulted property of every schema that applies to
   it, through any chain of applications; only the depth bound can stop it.
   */
  lemma EveryDefaultFilled(g: Graph, c: Ctx, valid: string -> bool, h: Heap, next: Loc, root: NodeId, l: Loc, a: Pair)
    requires Compiled(g, c, valid, root) && StOk(Start(h, next)) && !Run(c, h, next, root, Ref(l)).hit
    requires Applies(g, c, valid, h, (root, l), a) && a.1 in h
    ensures DefaultsPresent(g, Run(c, h, next, root, Ref(l)).heap, a)
  {
    hide Compiled, Apply, Next, Reaches, OwnDefault;
    var st := Run(c, h, next, root, Ref(l));
    StartRuns(c, h, next);
    ApplyRuns(c, h, Start(h, next), root, Ref(l), 0, [], None, {});
    if a.0 in g && OwnDefault(g, a.0) {
      OwnReaches(g, a.0);
      var chain :| NextSteps(g, c, valid, h, chain) && chain[0] == (root, l) && chain[|chain| - 1] == a;
      ChainApplied(g, c, valid, root, h, st, chain);
      InGraph(g, c, valid, root, a.0);
      PresentFrom(g, c, valid, st, a);
    } else {
      NoneToFill(g, st.heap, a);
    }
  }

  lemma StartRuns(c: Ctx, h: Heap, next: Loc)
    requires StOk(Start(h, next))
    ensures Runs(c, h, Start(h, next), {})
  {
  }

  lemma NoneToFill(g: Graph, h: Heap, a: Pair)
    requires !(a.0 in g && OwnDefault(g, a.0))
    ensures DefaultsPresent(g, h, a)
  {
  }

  lemma PresentFrom(g: Graph, c: Ctx, valid: string -> bool, st: St, a: Pair)
    requires a.0 in c.plans && a.0 in g && c.plans[a.0] == PlanOf(g, a.0, valid) && Filled(st.heap, a.1, c.plans[a.0].own)
    ensures DefaultsPresent(g, st.heap, a)
  {
    hide OwnDefaults;
    OwnDefaultsMean(g, g[a.0].props);
    if a.1 in st.heap && st.heap[a.1].ObjCell? {
      forall i | 0 <= i < |g[a.0].props| && Defaulted(g, g[a.0].props[i]) ensures g[a.0].props[i].key in st.heap[a.1].m {
        var own := c.plans[a.0].own;
        var e := (g[a.0].props[i].key, g[g[a.0].props[i].slot.value].dflt.value);
        assert e in own;
        var j :| 0 <= j < |own| && own[j] == e;
      }
    }
  }

  /** A default reachable from a schema that applies is reachable from the root. */
  lemma {:induction false} ReachesAlong(g: Graph, c: Ctx, valid: string -> bool, h: Heap, chain: seq<Pair>)
    requires SchemaGraph.Closed(g) && NextSteps(g, c, valid, h, chain) && Reaches(g, chain[|chain| - 1].0)
    ensures Reaches(g, chain[0].0)
    decreases |chain|
  {
    hide Next, Reaches;
    if |chain| > 1 {
      var init := chain[..|chain| - 1];
      assert Next(g, c, valid, h, chain[|chain| - 2], chain[|chain| - 1]);
      NextEdge(g, c, valid, h, init[|init| - 1], chain[|chain| - 1]);
      StepReaches(g, init[|init| - 1].0, chain[|chain| - 1].0);
      assert NextSteps(g, c, valid, h, init) by {
        forall i, j | 0 <= i < j < |init| && j == i + 1 ensures Next(g, c, valid, h, init[i], init[j]) { assert Next(g, c, valid, h, chain[i], chain[j]); }
      }
      ReachesAlong(g, c, valid, h, init);
    }
  }

  /** Where none is reachable from the root, there is none to fill in. */
  lemma NoneReachable(g: Graph, c: Ctx, valid: string -> bool, h: Heap, root: NodeId, l: Loc, a: Pair)
    requires SchemaGraph.Closed(g) && !Reaches(g, root) && Applies(g, c, valid, h, (root, l), a)
    ensures DefaultsPresent(g, h, a)
  {
    hide Next, Reaches, OwnDefault;
    var chain :| NextSteps(g, c, valid, h, chain) && chain[0] == (root, l) && chain[|chain| - 1] == a;
    if a.0 in g && OwnDefault(g, a.0) {
      OwnReaches(g, a.0);
      ReachesAlong(g, c, valid, h, chain);
    }
    NoneToFill(g, h, a);
  }
}
