/**
 The closure pass that fills defaults into a document in place (lib/defaults.js). The document
 is an explicit heap of containers, so that what the pass knows by identity (`visits`) and what
 it writes in place are both visible. First the pass as a function of its state; the class that
 runs it is in DefaultsRun.
 */
module DefaultsPass {
  import opened Json
  import opened SchemaGraph

  type Loc = nat

  /** A member or element: a scalar, or a reference to a container. */
  datatype Val = Prim(v: Json) | Ref(l: Loc)

  /** An object keeps its keys in insertion order, as Object.keys lists them. */
  datatype Cell = ObjCell(keys: seq<string>, m: map<string, Val>) | ArrCell(a: seq<Val>)

  type Heap = map<Loc, Cell>

  // ---------------------------------------------------------------- compiled plans

  /** The pass for one schema object: a slot is empty where no default is reachable. */
  datatype Plan = Plan(own: seq<(string, Doc)>, below: seq<Property>, tuple: seq<Slot>, each: Slot,
                       patterns: seq<Property>, extra: Slot, declared: set<string>,
                       dependent: seq<Property>, also: seq<Slot>)

  function OwnDefaults(g: Graph, ps: seq<Property>): seq<(string, Doc)> {
    if ps == [] then []
    else
      var init, p := OwnDefaults(g, ps[..|ps| - 1]), ps[|ps| - 1];
      if p.slot.Some? && p.slot.value in g && g[p.slot.value].dflt.Some?
      then init + [(p.key, g[p.slot.value].dflt.value)] else init
  }

  ghost function Kept(g: Graph, s: Slot): Slot {
    if SlotReaches(g, s) then s else None
  }

  ghost function KeptAll(g: Graph, ss: seq<Slot>): seq<Slot> {
    seq(|ss|, i requires 0 <= i < |ss| => Kept(g, ss[i]))
  }

  function WithSlots(ps: seq<Property>, ss: seq<Slot>): seq<Property>
    requires |ps| == |ss|
  {
    seq(|ps|, i requires 0 <= i < |ps| => Property(ps[i].key, ss[i]))
  }

  /** The patterns that compile to a matcher. */
  function Usable(ps: seq<Property>, valid: string -> bool): seq<Property> {
    if ps == [] then []
    else
      var init, p := Usable(ps[..|ps| - 1], valid), ps[|ps| - 1];
      if valid(p.key) then init + [p] else init
  }

  function Assemble(g: Graph, s: Node, valid: string -> bool, props: seq<Slot>, tuple: seq<Slot>, each: Slot,
                    patterns: seq<Slot>, extra: Slot, dependents: seq<Slot>, also: seq<Slot>): Plan
    requires |props| == |s.props| && |patterns| == |s.patterns| && |dependents| == |s.dependents|
  {
    Plan(OwnDefaults(g, s.props), WithSlots(s.props, props), tuple, each,
         Usable(WithSlots(s.patterns, patterns), valid), extra,
         set i | 0 <= i < |s.props| :: s.props[i].key,
         WithSlots(s.dependents, dependents), also)
  }

  /** What `compileNode` builds for a schema object. */
  ghost function PlanOf(g: Graph, n: NodeId, valid: string -> bool): Plan
    requires n in g
  {
    var s := g[n];
    Assemble(g, s, valid, KeptAll(g, SlotsOf(s.props)), KeptAll(g, s.prefixItems), Kept(g, s.items),
             KeptAll(g, SlotsOf(s.patterns)), Kept(g, s.additional), KeptAll(g, SlotsOf(s.dependents)),
             [Kept(g, s.ref)] + KeptAll(g, s.allOf))
  }

  // ---------------------------------------------------------------- state

  /**
   What one call works with: the plans, the schemas applied through a `$ref` or an `allOf`
   member, the pattern matcher, and the depth below which the pass stops.
   */
  datatype Ctx = Ctx(plans: map<NodeId, Plan>, shared: set<NodeId>, matches: (string, string) -> bool, limit: nat)

  const MAX_DEPTH: nat := 512

  /** `log` records the applications made and `hit` that the depth bound cut one off. */
  datatype St = St(heap: Heap, next: Loc, visits: map<Loc, set<NodeId>>, log: set<(NodeId, Loc)>, hit: bool)

  predicate HeapOk(h: Heap) {
    forall l :: l in h && h[l].ObjCell? ==>
      && (forall k :: k in h[l].m ==> k in h[l].keys)
      && (forall k :: k in h[l].keys ==> k in h[l].m)
  }

  predicate StOk(st: St) {
    HeapOk(st.heap) && forall l :: l in st.heap ==> l < st.next
  }

  /** Every function a plan refers to has a plan of its own. */
  predicate PlansClosed(c: Ctx) {
    forall n :: n in c.plans ==> PlanClosed(c, c.plans[n])
  }

  predicate SlotPlanned(c: Ctx, s: Slot) {
    s.Some? ==> s.value in c.plans
  }

  predicate PlanClosed(c: Ctx, p: Plan) {
    && (forall i :: 0 <= i < |p.below| ==> SlotPlanned(c, p.below[i].slot))
    && (forall i :: 0 <= i < |p.tuple| ==> SlotPlanned(c, p.tuple[i]))
    && SlotPlanned(c, p.each) && SlotPlanned(c, p.extra)
    && (forall i :: 0 <= i < |p.patterns| ==> SlotPlanned(c, p.patterns[i].slot))
    && (forall i :: 0 <= i < |p.dependent| ==> SlotPlanned(c, p.dependent[i].slot))
    && (forall i :: 0 <= i < |p.also| ==> SlotPlanned(c, p.also[i]))
  }

  // ---------------------------------------------------------------- writing

  function SetMember(c: Cell, k: string, v: Val): Cell
    requires c.ObjCell?
  {
    ObjCell(if k in c.m then c.keys else c.keys + [k], c.m[k := v])
  }

  /** A fresh copy of a default: its containers are new cells. */
  function Copy(st: St, v: Doc): (St, Val)
    decreases v, 0
  {
    match v
    case DScalar(x) => (st, Prim(x))
    case DArr(items) =>
      var (st', vs) := CopyList(st, items);
      Alloc(st', ArrCell(vs))
    case DObj(ms) =>
      var (st', c) := CopyMembers(st, ms);
      Alloc(st', c)
  }

  function Alloc(st: St, c: Cell): (St, Val) {
    (st.(heap := st.heap[st.next := c], next := st.next + 1), Ref(st.next))
  }

  function CopyList(st: St, vs: seq<Doc>): (St, seq<Val>)
    decreases vs, 0
  {
    if vs == [] then (st, [])
    else
      var (st', init) := CopyList(st, vs[..|vs| - 1]);
      var (st'', v) := Copy(st', vs[|vs| - 1]);
      (st'', init + [v])
  }

  function CopyMembers(st: St, ms: seq<DMember>): (r: (St, Cell))
    ensures r.1.ObjCell?
    decreases ms, 0
  {
    if ms == [] then (st, ObjCell([], map[]))
    else
      var (st', c) := CopyMembers(st, ms[..|ms| - 1]);
      var (st'', v) := Copy(st', ms[|ms| - 1].value);
      (st'', SetMember(c, ms[|ms| - 1].key, v))
  }

  /** The node's own defaults written where the key is absent; `novel` are the keys given a container. */
  function FillOwn(st: St, l: Loc, own: seq<(string, Doc)>): (St, set<string>) {
    if own == [] then (st, {})
    else
      var (st1, novel) := FillOwn(st, l, own[..|own| - 1]);
      var (k, d) := own[|own| - 1];
      if l !in st1.heap || !st1.heap[l].ObjCell? || k in st1.heap[l].m then (st1, novel)
      else
        var (st2, v) := Copy(st1, d);
        (st2.(heap := st2.heap[l := SetMember(st1.heap[l], k, v)]), if v.Ref? then novel + {k} else novel)
  }

  // ---------------------------------------------------------------- applying

  /** Where an application goes, looked up when its turn comes. */
  datatype Target = Self(l: Loc) | SelfIf(l: Loc, key: string) | Member(l: Loc, key: string) | Elem(l: Loc, i: nat)

  /** One application of a compiled function; `made` is the set inside a value the pass made. */
  datatype App = App(slot: Slot, target: Target, made: Option<set<NodeId>>)

  function MemberAt(h: Heap, l: Loc, k: string): Option<Val> {
    if l in h && h[l].ObjCell? && k in h[l].m then Some(h[l].m[k]) else None
  }

  function ElemAt(h: Heap, l: Loc, i: nat): Option<Val> {
    if l in h && h[l].ArrCell? && i < |h[l].a| then Some(h[l].a[i]) else None
  }

  function Resolve(h: Heap, t: Target): Option<Val> {
    match t
    case Self(l) => Some(Ref(l))
    case SelfIf(l, k) => if MemberAt(h, l, k).Some? then Some(Ref(l)) else None
    case Member(l, k) => MemberAt(h, l, k)
    case Elem(l, i) => ElemAt(h, l, i)
  }

  /** Under the properties present; inside a value this node just made, with the enclosing schemas barred. */
  function BelowApps(p: Plan, l: Loc, novel: set<string>, path: seq<NodeId>, made: Option<set<NodeId>>): seq<App> {
    seq(|p.below|, i requires 0 <= i < |p.below| =>
      App(p.below[i].slot, Member(l, p.below[i].key),
          if made.None? && p.below[i].key in novel then Some(set j | 0 <= j < |path| :: path[j]) else made))
  }

  function ElemSlot(p: Plan, i: nat): Slot {
    if i < |p.tuple| then p.tuple[i] else p.each
  }

  function ElemApps(p: Plan, l: Loc, n: nat, made: Option<set<NodeId>>): seq<App> {
    seq(n, i requires 0 <= i < n => App(ElemSlot(p, i), Elem(l, i), made))
  }

  predicate Keyed(p: Plan) {
    p.extra.Some? || exists i :: 0 <= i < |p.patterns| && p.patterns[i].slot.Some?
  }

  function PatternApps(c: Ctx, ps: seq<Property>, l: Loc, k: string, made: Option<set<NodeId>>): seq<App> {
    if ps == [] then []
    else
      var init, p := PatternApps(c, ps[..|ps| - 1], l, k, made), ps[|ps| - 1];
      if c.matches(p.key, k) then init + [App(p.slot, Member(l, k), made)] else init
  }

  predicate Matched(c: Ctx, p: Plan, k: string) {
    exists i :: 0 <= i < |p.patterns| && c.matches(p.patterns[i].key, k)
  }

  function KeyApps(c: Ctx, p: Plan, l: Loc, keys: seq<string>, made: Option<set<NodeId>>): seq<App> {
    if keys == [] then []
    else
      var k := keys[|keys| - 1];
      KeyApps(c, p, l, keys[..|keys| - 1], made)
      + PatternApps(c, p.patterns, l, k, made)
      + (if !Matched(c, p, k) && k !in p.declared then [App(p.extra, Member(l, k), made)] else [])
  }

  function DependentApps(p: Plan, l: Loc, made: Option<set<NodeId>>): seq<App> {
    seq(|p.dependent|, i requires 0 <= i < |p.dependent| => App(p.dependent[i].slot, SelfIf(l, p.dependent[i].key), made))
  }

  function AlsoApps(p: Plan, l: Loc, made: Option<set<NodeId>>): seq<App> {
    seq(|p.also|, i requires 0 <= i < |p.also| => App(p.also[i], Self(l), made))
  }

  /** Elements of an array, or the members of an object no property names. */
  function InsideApps(c: Ctx, st: St, p: Plan, l: Loc, made: Option<set<NodeId>>): seq<App> {
    if l !in st.heap then []
    else
      match st.heap[l]
      case ArrCell(a) => ElemApps(p, l, |a|, made)
      case ObjCell(keys, _) => (if Keyed(p) then KeyApps(c, p, l, keys, made) else [])
  }

  /** The function compiled for `n`, on one value. `path` lists the schemas applied to the enclosing values. */
  function Apply(c: Ctx, st: St, n: NodeId, v: Val, depth: nat, path: seq<NodeId>, made: Option<set<NodeId>>): St
    decreases if depth > c.limit then 0 else c.limit + 1 - depth, 2, 0
  {
    if depth > c.limit then (if v.Ref? then st.(hit := true) else st)
    else if v.Prim? || n !in c.plans then st
    else if n in c.shared && made.None? then
      var before := if v.l in st.visits then st.visits[v.l] else {};
      if n in before then st
      else Body(c, st.(visits := st.visits[v.l := before + {n}]), n, v.l, depth, path + [n], None)
    else
      match made
      case None => Body(c, st, n, v.l, depth, path + [n], None)
      case Some(s) => if n in s then st else Body(c, st, n, v.l, depth, path, Some(s + {n}))
  }

  function Body(c: Ctx, st: St, n: NodeId, l: Loc, depth: nat, path: seq<NodeId>, made: Option<set<NodeId>>): St
    requires n in c.plans && depth <= c.limit
    decreases c.limit + 1 - depth, 1, 0
  {
    var p := c.plans[n];
    var (st1, novel) := FillOwn(st.(log := st.log + {(n, l)}), l, p.own);
    var st2 := ApplyAll(c, st1, BelowApps(p, l, novel, path, made), depth + 1, path);
    var st3 := ApplyAll(c, st2, InsideApps(c, st2, p, l, made), depth + 1, path);
    var st4 := ApplyAll(c, st3, DependentApps(p, l, made), depth + 1, path);
    ApplyAll(c, st4, AlsoApps(p, l, made), depth + 1, path)
  }

  function ApplyAll(c: Ctx, st: St, apps: seq<App>, depth: nat, path: seq<NodeId>): St
    decreases if depth > c.limit then 0 else c.limit + 1 - depth, 3, |apps|
  {
    if apps == [] then st
    else
      var st' := ApplyAll(c, st, apps[..|apps| - 1], depth, path);
      var a := apps[|apps| - 1];
      var v := Resolve(st'.heap, a.target);
      if a.slot.None? || v.None? then st' else Apply(c, st', a.slot.value, v.value, depth, path, a.made)
  }

  // ================================================================ what is never changed

  predicate CellGrows(c0: Cell, c1: Cell) {
    match c0
    case ArrCell(a) => c1 == c0
    case ObjCell(keys, m) => c1.ObjCell? && keys <= c1.keys && forall k :: k in m ==> k in c1.m && c1.m[k] == m[k]
  }

  /** Every container is kept, and every member it had, with its value, in its order, before any that is added. */
  predicate Grows(h0: Heap, h1: Heap) {
    forall l :: l in h0 ==> l in h1 && CellGrows(h0[l], h1[l])
  }

  predicate StGrows(st0: St, st1: St) {
    Grows(st0.heap, st1.heap) && st0.next <= st1.next && StOk(st1)
  }

  lemma {:induction false} CopyGrows(st: St, v: Doc)
    requires StOk(st)
    ensures StGrows(st, Copy(st, v).0)
    decreases v, 0
  {
    match v
    case DScalar(_) =>
    case DArr(items) => CopyListGrows(st, items);
    case DObj(ms) => CopyMembersGrows(st, ms);
  }

  lemma {:induction false} CopyListGrows(st: St, vs: seq<Doc>)
    requires StOk(st)
    ensures StGrows(st, CopyList(st, vs).0)
    decreases vs, 0
  {
    if vs != [] {
      CopyListGrows(st, vs[..|vs| - 1]);
      CopyGrows(CopyList(st, vs[..|vs| - 1]).0, vs[|vs| - 1]);
    }
  }

  predicate ObjOk(c: Cell) {
    c.ObjCell? && (forall k :: k in c.m ==> k in c.keys) && (forall k :: k in c.keys ==> k in c.m)
  }

  lemma {:induction false} CopyMembersGrows(st: St, ms: seq<DMember>)
    requires StOk(st)
    ensures StGrows(st, CopyMembers(st, ms).0) && ObjOk(CopyMembers(st, ms).1)
    decreases ms, 0
  {
    if ms != [] {
      CopyMembersGrows(st, ms[..|ms| - 1]);
      CopyGrows(CopyMembers(st, ms[..|ms| - 1]).0, ms[|ms| - 1].value);
    }
  }

  lemma {:induction false} FillOwnGrows(st: St, l: Loc, own: seq<(string, Doc)>)
    requires StOk(st)
    ensures StGrows(st, FillOwn(st, l, own).0)
    decreases |own|
  {
    if own != [] {
      FillOwnGrows(st, l, own[..|own| - 1]);
      CopyGrows(FillOwn(st, l, own[..|own| - 1]).0, own[|own| - 1].1);
    }
  }

  lemma GrowsChains(st0: St, st1: St, st2: St)
    requires StGrows(st0, st1) && StGrows(st1, st2)
    ensures StGrows(st0, st2)
  {
    forall l | l in st0.heap ensures l in st2.heap && CellGrows(st0.heap[l], st2.heap[l]) {
      assert CellGrows(st0.heap[l], st1.heap[l]) && CellGrows(st1.heap[l], st2.heap[l]);
    }
  }

  lemma GrowsOk(st0: St, st1: St)
    requires StGrows(st0, st1)
    ensures StOk(st1)
  {
  }

  /** A field the heap does not show plays no part. */
  lemma GrowsFrom(st0: St, st1: St, st2: St)
    requires st0.heap == st1.heap && st0.next == st1.next && StGrows(st1, st2)
    ensures StGrows(st0, st2)
  {
  }

  lemma {:induction false} BodyGrows(c: Ctx, st: St, n: NodeId, l: Loc, depth: nat, path: seq<NodeId>, made: Option<set<NodeId>>)
    requires StOk(st) && n in c.plans && depth <= c.limit
    ensures StGrows(st, Body(c, st, n, l, depth, path, made))
    decreases c.limit + 1 - depth, 1, 0
  {
    hide FillOwn, ApplyAll, StGrows, BelowApps, InsideApps, DependentApps, AlsoApps;
    var p := c.plans[n];
    var logged := st.(log := st.log + {(n, l)});
    var (st1, novel) := FillOwn(logged, l, p.own);
    FillOwnGrows(logged, l, p.own);
    GrowsOk(logged, st1);
    ApplyAllGrows(c, st1, BelowApps(p, l, novel, path, made), depth + 1, path);
    var st2 := ApplyAll(c, st1, BelowApps(p, l, novel, path, made), depth + 1, path);
    GrowsOk(st1, st2);
    ApplyAllGrows(c, st2, InsideApps(c, st2, p, l, made), depth + 1, path);
    var st3 := ApplyAll(c, st2, InsideApps(c, st2, p, l, made), depth + 1, path);
    GrowsOk(st2, st3);
    ApplyAllGrows(c, st3, DependentApps(p, l, made), depth + 1, path);
    var st4 := ApplyAll(c, st3, DependentApps(p, l, made), depth + 1, path);
    GrowsOk(st3, st4);
    ApplyAllGrows(c, st4, AlsoApps(p, l, made), depth + 1, path);
    var st5 := ApplyAll(c, st4, AlsoApps(p, l, made), depth + 1, path);
    GrowsChains(logged, st1, st2);
    GrowsChains(logged, st2, st3);
    GrowsChains(logged, st3, st4);
    GrowsChains(logged, st4, st5);
    GrowsFrom(st, logged, st5);
  }

  lemma {:induction false} ApplyAllGrows(c: Ctx, st: St, apps: seq<App>, depth: nat, path: seq<NodeId>)
    requires StOk(st)
    ensures StGrows(st, ApplyAll(c, st, apps, depth, path))
    decreases if depth > c.limit then 0 else c.limit + 1 - depth, 3, |apps|
  {
    if apps != [] {
      ApplyAllGrows(c, st, apps[..|apps| - 1], depth, path);
      var st' := ApplyAll(c, st, apps[..|apps| - 1], depth, path);
      var a := apps[|apps| - 1];
      var v := Resolve(st'.heap, a.target);
      if a.slot.Some? && v.Some? { ApplyGrows(c, st', a.slot.value, v.value, depth, path, a.made); }
    }
  }

  /** Whatever the schema, recursive with object defaults included, no member is changed or removed. */
  lemma {:induction false} ApplyGrows(c: Ctx, st: St, n: NodeId, v: Val, depth: nat, path: seq<NodeId>, made: Option<set<NodeId>>)
    requires StOk(st)
    ensures StGrows(st, Apply(c, st, n, v, depth, path, made))
    decreases if depth > c.limit then 0 else c.limit + 1 - depth, 2, 0
  {
    if depth <= c.limit && v.Ref? && n in c.plans {
      if n in c.shared && made.None? {
        var before := if v.l in st.visits then st.visits[v.l] else {};
        if n !in before { BodyGrows(c, st.(visits := st.visits[v.l := before + {n}]), n, v.l, depth, path + [n], None); }
      } else if made.None? {
        BodyGrows(c, st, n, v.l, depth, path + [n], None);
      } else if n !in made.value {
        BodyGrows(c, st, n, v.l, depth, path, Some(made.value + {n}));
      }
    }
  }

  // ================================================================ inside a made value

  /** Every schema object compiled, less those already applied around a made value: the measure of what is left. */
  function Left(c: Ctx, made: set<NodeId>): nat {
    |c.plans.Keys - made|
  }

  lemma LeftShrinks(c: Ctx, made: set<NodeId>, n: NodeId)
    requires n in c.plans && n !in made
    ensures Left(c, made + {n}) < Left(c, made)
  {
    var a, b := c.plans.Keys - (made + {n}), c.plans.Keys - made;
    assert n in b && n !in a && a <= b;
    Shrinks(a, b);
  }

  predicate AllMade(apps: seq<App>, s: set<NodeId>) {
    forall i :: 0 <= i < |apps| ==> apps[i].made == Some(s)
  }

  lemma {:induction false} PatternAppsMade(c: Ctx, ps: seq<Property>, l: Loc, k: string, s: set<NodeId>)
    ensures AllMade(PatternApps(c, ps, l, k, Some(s)), s)
    decreases |ps|
  {
    if ps != [] { PatternAppsMade(c, ps[..|ps| - 1], l, k, s); }
  }

  lemma {:induction false} KeyAppsMade(c: Ctx, p: Plan, l: Loc, keys: seq<string>, s: set<NodeId>)
    ensures AllMade(KeyApps(c, p, l, keys, Some(s)), s)
    decreases |keys|
  {
    if keys != [] {
      KeyAppsMade(c, p, l, keys[..|keys| - 1], s);
      PatternAppsMade(c, p.patterns, l, keys[|keys| - 1], s);
    }
  }

  /**
   Inside a value made from a default, the chain of applications is no longer than the number of
   schema objects not yet applied around it: a depth bound that leaves room for one level per
   remaining schema object is never met, whatever the data and however the schemas recurse.
   */
  lemma {:induction false} MadeChainBounded(c: Ctx, st: St, n: NodeId, v: Val, depth: nat, path: seq<NodeId>, s: set<NodeId>)
    requires depth + Left(c, s) <= c.limit
    ensures Apply(c, st, n, v, depth, path, Some(s)).hit == st.hit
    decreases Left(c, s), 2, 0
  {
    if v.Ref? && n in c.plans && n !in s {
      LeftShrinks(c, s, n);
      MadeBodyBounded(c, st, n, v.l, depth, path, s + {n});
    }
  }

  lemma {:induction false} MadeBodyBounded(c: Ctx, st: St, n: NodeId, l: Loc, depth: nat, path: seq<NodeId>, s: set<NodeId>)
    requires n in c.plans && depth + 1 + Left(c, s) <= c.limit
    ensures Body(c, st, n, l, depth, path, Some(s)).hit == st.hit
    decreases Left(c, s), 4, 0
  {
    var p := c.plans[n];
    var logged := st.(log := st.log + {(n, l)});
    var (st1, novel) := FillOwn(logged, l, p.own);
    FillOwnSilent(logged, l, p.own);
    MadeAllBounded(c, st1, BelowApps(p, l, novel, path, Some(s)), depth + 1, path, s);
    var st2 := ApplyAll(c, st1, BelowApps(p, l, novel, path, Some(s)), depth + 1, path);
    if l in st2.heap && st2.heap[l].ObjCell? { KeyAppsMade(c, p, l, st2.heap[l].keys, s); }
    MadeAllBounded(c, st2, InsideApps(c, st2, p, l, Some(s)), depth + 1, path, s);
    var st3 := ApplyAll(c, st2, InsideApps(c, st2, p, l, Some(s)), depth + 1, path);
    MadeAllBounded(c, st3, DependentApps(p, l, Some(s)), depth + 1, path, s);
    var st4 := ApplyAll(c, st3, DependentApps(p, l, Some(s)), depth + 1, path);
    MadeAllBounded(c, st4, AlsoApps(p, l, Some(s)), depth + 1, path, s);
  }

  lemma {:induction false} MadeAllBounded(c: Ctx, st: St, apps: seq<App>, depth: nat, path: seq<NodeId>, s: set<NodeId>)
    requires depth + Left(c, s) <= c.limit && AllMade(apps, s)
    ensures ApplyAll(c, st, apps, depth, path).hit == st.hit
    decreases Left(c, s), 3, |apps|
  {
    if apps != [] {
      var init, a := apps[..|apps| - 1], apps[|apps| - 1];
      MadeAllBounded(c, st, init, depth, path, s);
      var st' := ApplyAll(c, st, init, depth, path);
      var v := Resolve(st'.heap, a.target);
      if a.slot.Some? && v.Some? { MadeChainBounded(c, st', a.slot.value, v.value, depth, path, s); }
    }
  }

  /** Filling writes the heap and nothing else of the state. */
  lemma {:induction false} FillOwnSilent(st: St, l: Loc, own: seq<(string, Doc)>)
    ensures var r := FillOwn(st, l, own).0; r.visits == st.visits && r.log == st.log && r.hit == st.hit
    decreases |own|
  {
    if own != [] {
      FillOwnSilent(st, l, own[..|own| - 1]);
      CopySilent(FillOwn(st, l, own[..|own| - 1]).0, own[|own| - 1].1);
    }
  }

  lemma {:induction false} CopySilent(st: St, v: Doc)
    ensures var r := Copy(st, v).0; r.visits == st.visits && r.log == st.log && r.hit == st.hit
    decreases v, 0
  {
    match v
    case DScalar(_) =>
    case DArr(items) => CopyListSilent(st, items);
    case DObj(ms) => CopyMembersSilent(st, ms);
  }

  lemma {:induction false} CopyListSilent(st: St, vs: seq<Doc>)
    ensures var r := CopyList(st, vs).0; r.visits == st.visits && r.log == st.log && r.hit == st.hit
    decreases vs, 0
  {
    if vs != [] {
      CopyListSilent(st, vs[..|vs| - 1]);
      CopySilent(CopyList(st, vs[..|vs| - 1]).0, vs[|vs| - 1]);
    }
  }

  lemma {:induction false} CopyMembersSilent(st: St, ms: seq<DMember>)
    ensures var r := CopyMembers(st, ms).0; r.visits == st.visits && r.log == st.log && r.hit == st.hit
    decreases ms, 0
  {
    if ms != [] {
      CopyMembersSilent(st, ms[..|ms| - 1]);
      CopySilent(CopyMembers(st, ms[..|ms| - 1]).0, ms[|ms| - 1].value);
    }
  }
}
