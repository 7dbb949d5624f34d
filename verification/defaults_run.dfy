/** The closure pass as it runs: compiling one function per schema object, then filling in place. */
module DefaultsRun {
  import opened Json
  import opened SchemaGraph
  import opened DefaultsPass
  import opened DefaultsScalar
  import opened DefaultsDepth
  import DefaultsCopy
  import DefaultsFilled
  import DefaultsOrder

  predicate SlotKnown(s: Slot, memo: map<NodeId, Slot>) {
    s.Some? ==> s.value in memo && memo[s.value] == s
  }

  predicate AllKnown(ss: seq<Slot>, memo: map<NodeId, Slot>) {
    forall i :: 0 <= i < |ss| ==> SlotKnown(ss[i], memo)
  }

  /** The functions a plan calls. */
  function Calls(p: Plan): seq<Slot> {
    SlotsOf(p.below) + p.tuple + [p.each, p.extra] + SlotsOf(p.patterns) + SlotsOf(p.dependent) + p.also
  }

  /** Answers exact, plans what their schema objects say, and every function a plan calls handed out. */
  ghost predicate TablesOk(g: Graph, valid: string -> bool, memo: map<NodeId, Slot>, plans: map<NodeId, Plan>) {
    && (forall n :: n in memo ==> MemoRight(g, n, memo[n]))
    && (forall n :: n in plans ==> n in memo && PlanRight(g, valid, memo, n, plans[n]))
  }

  ghost predicate MemoRight(g: Graph, n: NodeId, s: Slot) {
    n in g && s == Kept(g, Some(n))
  }

  ghost predicate PlanRight(g: Graph, valid: string -> bool, memo: map<NodeId, Slot>, n: NodeId, p: Plan) {
    n in memo && memo[n].Some? && n in g && p == PlanOf(g, n, valid) && AllKnown(Calls(p), memo)
  }

  /** The places of a node in the order `compileNode` builds them. */
  function Order(s: Node): seq<Slot> {
    SlotsOf(s.props) + s.prefixItems + [s.items] + SlotsOf(s.patterns) + [s.additional] + SlotsOf(s.dependents) + [s.ref] + s.allOf
  }

  function AssembleFrom(g: Graph, s: Node, valid: string -> bool, out: seq<Slot>): Plan
    requires |out| == |Order(s)|
  {
    var a := |s.props|;
    var b := a + |s.prefixItems|;
    var c := b + 1 + |s.patterns|;
    var d := c + 1 + |s.dependents|;
    Assemble(g, s, valid, out[..a], out[a..b], out[b], out[b + 1..c], out[c], out[c + 1..d], out[d..])
  }

  lemma OrderInGraph(g: Graph, n: NodeId)
    requires SchemaGraph.Closed(g) && n in g
    ensures forall i :: 0 <= i < |Order(g[n])| ==> Order(g[n])[i].Some? ==> Order(g[n])[i].value in g
  {
    forall x | x in Order(g[n]) ensures x in Below(g[n]) {
    }
    var o := Order(g[n]);
    forall i | 0 <= i < |o| && o[i].Some? ensures o[i].value in g {
      assert o[i] in o;
      var j :| 0 <= j < |Below(g[n])| && Below(g[n])[j] == o[i];
    }
  }

  lemma OrderAssembles(g: Graph, n: NodeId, valid: string -> bool, out: seq<Slot>, memo: map<NodeId, Slot>)
    requires n in g && out == KeptAll(g, Order(g[n])) && AllKnown(out, memo)
    ensures AssembleFrom(g, g[n], valid, out) == PlanOf(g, n, valid)
    ensures AllKnown(Calls(AssembleFrom(g, g[n], valid, out)), memo)
  {
    hide Kept, KeptAll, Order, SlotsOf, Assemble, Calls;
    var s := g[n];
    var a := |s.props|;
    var b := a + |s.prefixItems|;
    var c := b + 1 + |s.patterns|;
    var d := c + 1 + |s.dependents|;
    OrderParts(g, s, out);
    CallsKnown(g, n, valid, PlanOf(g, n, valid), out[..a], out[a..b], out[b], out[b + 1..c], out[c], out[c + 1..d], out[d..], memo);
  }

  lemma OrderParts(g: Graph, s: Node, out: seq<Slot>)
    requires out == KeptAll(g, Order(s))
    ensures |out| == |Order(s)| == |s.props| + |s.prefixItems| + |s.patterns| + |s.dependents| + |s.allOf| + 3
    ensures var a := |s.props|; var b := a + |s.prefixItems|; var c := b + 1 + |s.patterns|; var d := c + 1 + |s.dependents|;
            && out[..a] == KeptAll(g, SlotsOf(s.props)) && out[a..b] == KeptAll(g, s.prefixItems) && out[b] == Kept(g, s.items)
            && out[b + 1..c] == KeptAll(g, SlotsOf(s.patterns)) && out[c] == Kept(g, s.additional)
            && out[c + 1..d] == KeptAll(g, SlotsOf(s.dependents)) && out[d..] == [Kept(g, s.ref)] + KeptAll(g, s.allOf)
  {
    hide Kept;
  }

  /** Functions handed out whose body is still being built. */
  ghost function Pending(memo: map<NodeId, Slot>, plans: map<NodeId, Plan>): set<NodeId> {
    set n | n in memo && memo[n].Some? && n !in plans
  }

  ghost predicate MemoGrew(m0: map<NodeId, Slot>, m1: map<NodeId, Slot>) {
    m0.Keys <= m1.Keys && forall n :: n in m0 ==> m1[n] == m0[n]
  }

  lemma KnownStays(ss: seq<Slot>, m0: map<NodeId, Slot>, m1: map<NodeId, Slot>)
    requires MemoGrew(m0, m1) && AllKnown(ss, m0)
    ensures AllKnown(ss, m1)
  {
    forall i | 0 <= i < |ss| ensures SlotKnown(ss[i], m1) {
      assert SlotKnown(ss[i], m0);
    }
  }

  lemma MemoAdded(g: Graph, valid: string -> bool, memo: map<NodeId, Slot>, plans: map<NodeId, Plan>, n: NodeId, s: Slot)
    requires TablesOk(g, valid, memo, plans) && n in g && n !in memo && s == Kept(g, Some(n))
    ensures TablesOk(g, valid, memo[n := s], plans) && MemoGrew(memo, memo[n := s])
    ensures Pending(memo[n := s], plans) == if s.Some? then Pending(memo, plans) + {n} else Pending(memo, plans)
    ensures |g.Keys - memo[n := s].Keys| < |g.Keys - memo.Keys|
  {
    hide PlanRight, Kept, Pending;
    forall m | m in plans ensures PlanRight(g, valid, memo[n := s], m, plans[m]) {
      PlanStays(g, valid, memo, memo[n := s], m, plans[m]);
    }
    assert forall m :: m in plans ==> m in memo;
    PendingAdded(memo, plans, n, s);
    MemoMeasure(g, memo, n, s);
  }

  lemma PlanStays(g: Graph, valid: string -> bool, m0: map<NodeId, Slot>, m1: map<NodeId, Slot>, n: NodeId, plan: Plan)
    requires PlanRight(g, valid, m0, n, plan) && MemoGrew(m0, m1)
    ensures PlanRight(g, valid, m1, n, plan)
  {
    hide PlanOf, Kept, Calls;
    KnownStays(Calls(plan), m0, m1);
  }

  lemma PendingAdded(memo: map<NodeId, Slot>, plans: map<NodeId, Plan>, n: NodeId, s: Slot)
    requires n !in memo && n !in plans
    ensures Pending(memo[n := s], plans) == if s.Some? then Pending(memo, plans) + {n} else Pending(memo, plans)
  {
  }

  lemma MemoMeasure(g: Graph, memo: map<NodeId, Slot>, n: NodeId, s: Slot)
    requires n in g && n !in memo
    ensures |g.Keys - memo[n := s].Keys| < |g.Keys - memo.Keys|
  {
    assert n in g.Keys - memo.Keys;
    Shrinks(g.Keys - memo[n := s].Keys, g.Keys - memo.Keys);
  }

  lemma PlanAdded(g: Graph, valid: string -> bool, memo: map<NodeId, Slot>, plans: map<NodeId, Plan>, n: NodeId, plan: Plan)
    requires TablesOk(g, valid, memo, plans) && n in Pending(memo, plans) && n in g
    requires PlanRight(g, valid, memo, n, plan)
    ensures TablesOk(g, valid, memo, plans[n := plan])
    ensures Pending(memo, plans[n := plan]) == Pending(memo, plans) - {n}
  {
  }

  lemma SharedAdded(plans: map<NodeId, Plan>, shared: set<NodeId>, n: NodeId, plan: Plan)
    requires SharedOk(plans, shared) && n !in plans
    ensures SharedOk(plans[n := plan], shared + (set i | 0 <= i < |plan.also| && plan.also[i].Some? :: plan.also[i].value))
  {
    var added := set i | 0 <= i < |plan.also| && plan.also[i].Some? :: plan.also[i].value;
    var plans' := plans[n := plan];
    forall t | t in shared + added ensures exists m :: m in plans' && Some(t) in plans'[m].also {
      if t in shared {
        var m :| m in plans && Some(t) in plans[m].also;
        assert m in plans' && plans'[m] == plans[m];
      } else {
        assert n in plans' && Some(t) in plans'[n].also;
      }
    }
    forall t, m | m in plans' && Some(t) in plans'[m].also ensures t in shared + added {
      if m != n { assert m in plans && Some(t) in plans[m].also; }
    }
  }

  /**
   `compileNode`: one function per schema object, kept by identity before its body is built, so that a
   recursive reference takes the function being built.
   */
  class Compiler {
    const g: Graph
    const valid: string -> bool
    const reach: ReachMemo
    var memo: map<NodeId, Slot>
    var plans: map<NodeId, Plan>
    var shared: set<NodeId>

    ghost predicate Valid()
      reads this, reach
    {
      && reach.Valid() && reach.g == g
      && TablesOk(g, valid, memo, plans) && SharedOk(plans, shared)
    }

    constructor (g: Graph, valid: string -> bool, reach: ReachMemo)
      requires reach.Valid() && reach.g == g
      ensures Valid() && this.g == g && this.valid == valid && this.reach == reach && memo == map[] && plans == map[]
    {
      this.g, this.valid, this.reach := g, valid, reach;
      memo, plans, shared := map[], map[], {};
    }

    method Compile(s: Slot) returns (r: Slot)
      requires Valid() && (s.Some? ==> s.value in g)
      modifies this, reach
      ensures Valid() && r == Kept(g, s) && SlotKnown(r, memo) && (s.Some? ==> s.value in memo)
      ensures Pending(memo, plans) == old(Pending(memo, plans))
      ensures MemoGrew(old(memo), memo)
      decreases |g.Keys - memo.Keys|, 0
    {
      if s.None? { return None; }
      var n := s.value;
      if n in memo {
        assert MemoRight(g, n, memo[n]);
        return memo[n];
      }
      r := HandOut(n);
      if r.Some? { BuildBody(n); }
    }

    /** The function for a schema object, before its body: none where no default is reachable. */
    method HandOut(n: NodeId) returns (r: Slot)
      requires Valid() && n in g && n !in memo
      modifies this, reach
      ensures Valid() && plans == old(plans) && memo == old(memo)[n := r] && r == Kept(g, Some(n))
      ensures MemoGrew(old(memo), memo) && |g.Keys - memo.Keys| < |g.Keys - old(memo).Keys|
      ensures Pending(memo, plans) == if r.Some? then Pending(old(memo), plans) + {n} else Pending(old(memo), plans)
    {
      hide PlanRight, MemoRight, SharedOk, Reaches, ReachesAvoiding;
      var a := reach.ReachesDefault(Some(n), {});
      r := if a == 1 then Some(n) else None;
      MemoAdded(g, valid, memo, plans, n, r);
      memo := memo[n := r];
    }

    /** The body of a function already handed out: everything below compiled, then the plan stored. */
    method BuildBody(n: NodeId)
      requires Valid() && n in Pending(memo, plans)
      modifies this, reach
      ensures Valid() && MemoGrew(old(memo), memo)
      ensures Pending(memo, plans) == old(Pending(memo, plans)) - {n}
      decreases |g.Keys - memo.Keys|, 2
    {
      hide PlanOf, Kept, Calls, Assemble, OwnDefaults;
      OrderInGraph(g, n);
      var out := CompileAll(Order(g[n]));
      OrderAssembles(g, n, valid, out, memo);
      var plan := AssembleFrom(g, g[n], valid, out);
      assert PlanRight(g, valid, memo, n, plan) by { assert MemoRight(g, n, memo[n]); }
      PlanAdded(g, valid, memo, plans, n, plan);
      SharedAdded(plans, shared, n, plan);
      plans := plans[n := plan];
      shared := shared + (set i | 0 <= i < |plan.also| && plan.also[i].Some? :: plan.also[i].value);
    }

    method CompileAll(slots: seq<Slot>) returns (out: seq<Slot>)
      requires Valid() && forall i :: 0 <= i < |slots| ==> slots[i].Some? ==> slots[i].value in g
      modifies this, reach
      ensures Valid() && out == KeptAll(g, slots) && AllKnown(out, memo)
      ensures Pending(memo, plans) == old(Pending(memo, plans))
      ensures MemoGrew(old(memo), memo)
      decreases |g.Keys - memo.Keys|, 1
    {
      hide TablesOk, SharedOk, Kept, KeptAll, SlotKnown, Pending, Reaches, ReachesAvoiding;
      out := [];
      var i := 0;
      assert slots[..0] == [];
      NoneKept(g);
      while i < |slots|
        invariant 0 <= i <= |slots| && Valid()
        invariant out == KeptAll(g, slots[..i]) && AllKnown(out, memo)
        invariant Pending(memo, plans) == old(Pending(memo, plans))
        invariant MemoGrew(old(memo), memo)
      {
        Subset(g.Keys - memo.Keys, g.Keys - old(memo).Keys);
        ghost var before := memo;
        var c := Compile(slots[i]);
        KnownStays(out, before, memo);
        KeptSnoc(g, slots, i);
        out := out + [c];
        i := i + 1;
      }
      assert slots[..|slots|] == slots;
    }
  }

  lemma NoneKept(g: Graph)
    ensures KeptAll(g, []) == []
  {
  }

  lemma KeptSnoc(g: Graph, slots: seq<Slot>, i: nat)
    requires i < |slots|
    ensures KeptAll(g, slots[..i + 1]) == KeptAll(g, slots[..i]) + [Kept(g, slots[i])]
  {
  }

  lemma {:induction false} UsableFrom(ps: seq<Property>, valid: string -> bool, memo: map<NodeId, Slot>)
    requires AllKnown(SlotsOf(ps), memo)
    ensures AllKnown(SlotsOf(Usable(ps, valid)), memo)
  {
    UsableMeans(ps, valid);
    var us := Usable(ps, valid);
    forall i | 0 <= i < |us| ensures SlotKnown(SlotsOf(us)[i], memo) {
      assert us[i] in us;
      var j :| 0 <= j < |ps| && ps[j] == us[i];
      assert SlotKnown(SlotsOf(ps)[j], memo);
    }
  }

  lemma CallsKnown(g: Graph, n: NodeId, valid: string -> bool, plan: Plan, props: seq<Slot>, tuple: seq<Slot>, each: Slot,
                   patterns: seq<Slot>, extra: Slot, dependents: seq<Slot>, also: seq<Slot>, memo: map<NodeId, Slot>)
    requires n in g && |props| == |g[n].props| && |patterns| == |g[n].patterns| && |dependents| == |g[n].dependents|
    requires plan == Assemble(g, g[n], valid, props, tuple, each, patterns, extra, dependents, also)
    requires AllKnown(props, memo) && AllKnown(tuple, memo) && SlotKnown(each, memo) && AllKnown(patterns, memo)
    requires SlotKnown(extra, memo) && AllKnown(dependents, memo) && AllKnown(also, memo)
    ensures AllKnown(Calls(plan), memo)
  {
    assert SlotsOf(plan.below) == props;
    assert SlotsOf(plan.dependent) == dependents;
    assert SlotsOf(WithSlots(g[n].patterns, patterns)) == patterns;
    UsableFrom(WithSlots(g[n].patterns, patterns), valid, memo);
  }

  /** Compiling a schema gives plans that say what each schema object says and refer only to one another. */
  method CompileRoot(g: Graph, root: NodeId, valid: string -> bool, matches: (string, string) -> bool) returns (c: Ctx, fn: Slot)
    requires SchemaGraph.Closed(g) && root in g
    ensures Compiled(g, c, valid, root) && c.matches == matches && c.limit == MAX_DEPTH
    ensures fn == Kept(g, Some(root))
    ensures SharedOk(c.plans, c.shared)
  {
    var reach := new ReachMemo(g);
    var compiler := new Compiler(g, valid, reach);
    fn := compiler.Compile(Some(root));
    c := Ctx(compiler.plans, compiler.shared, matches, MAX_DEPTH);
    AllPlanned(g, c, valid, compiler.memo);
  }

  lemma AllPlanned(g: Graph, c: Ctx, valid: string -> bool, memo: map<NodeId, Slot>)
    requires TablesOk(g, valid, memo, c.plans) && Pending(memo, c.plans) == {}
    ensures PlansClosed(c)
  {
    assert forall n :: n in memo && memo[n].Some? && n !in c.plans ==> n in Pending(memo, c.plans);
    forall n | n in c.plans ensures PlanClosed(c, c.plans[n]) {
      CallsPlanned(c.plans[n], c, memo);
    }
  }

  lemma CallsPlanned(p: Plan, c: Ctx, memo: map<NodeId, Slot>)
    requires AllKnown(Calls(p), memo)
    requires forall n :: n in memo && memo[n].Some? ==> n in c.plans
    ensures PlanClosed(c, p)
  {
    var cs := Calls(p);
    forall s | s in cs ensures SlotPlanned(c, s) {
      var i :| 0 <= i < |cs| && cs[i] == s;
      assert SlotKnown(cs[i], memo);
    }
    forall i | 0 <= i < |p.below| ensures p.below[i].slot in cs { assert SlotsOf(p.below)[i] in SlotsOf(p.below); }
    forall i | 0 <= i < |p.patterns| ensures p.patterns[i].slot in cs { assert SlotsOf(p.patterns)[i] in SlotsOf(p.patterns); }
    forall i | 0 <= i < |p.dependent| ensures p.dependent[i].slot in cs { assert SlotsOf(p.dependent)[i] in SlotsOf(p.dependent); }
  }

  /**
   The pass itself: writes into the heap, with `path` pushed and popped around each function outside a
   made value and `visits` shared by the whole call. Every method does what the function of the state says.
   */
  class Pass {
    const c: Ctx
    var heap: Heap
    var next: Loc
    var visits: map<Loc, set<NodeId>>
    var path: seq<NodeId>
    var log: set<(NodeId, Loc)>
    var hit: bool

    function State(): St
      reads this
    {
      St(heap, next, visits, log, hit)
    }

    constructor (c: Ctx, heap: Heap, next: Loc)
      ensures this.c == c && State() == Start(heap, next) && path == []
    {
      this.c, this.heap, this.next := c, heap, next;
      visits, path, log, hit := map[], [], {}, false;
    }

    method CopyOf(d: Doc) returns (v: Val)
      modifies this
      ensures (State(), v) == Copy(old(State()), d) && path == old(path)
      decreases d, 0
    {
      match d
      case DScalar(x) =>
        v := Prim(x);
      case DArr(items) =>
        var vs := CopyItems(items);
        v := Ref(next);
        heap, next := heap[next := ArrCell(vs)], next + 1;
      case DObj(ms) =>
        var cell := CopyObject(ms);
        v := Ref(next);
        heap, next := heap[next := cell], next + 1;
    }

    method CopyItems(items: seq<Doc>) returns (vs: seq<Val>)
      modifies this
      ensures (State(), vs) == CopyList(old(State()), items) && path == old(path)
      decreases items, 1
    {
      vs := [];
      var i := 0;
      while i < |items|
        invariant 0 <= i <= |items| && path == old(path)
        invariant (State(), vs) == CopyList(old(State()), items[..i])
      {
        assert items[..i + 1][..i] == items[..i];
        var v := CopyOf(items[i]);
        vs := vs + [v];
        i := i + 1;
      }
      assert items[..|items|] == items;
    }

    method CopyObject(ms: seq<DMember>) returns (cell: Cell)
      modifies this
      ensures (State(), cell) == CopyMembers(old(State()), ms) && path == old(path)
      decreases ms, 1
    {
      cell := ObjCell([], map[]);
      var i := 0;
      while i < |ms|
        invariant 0 <= i <= |ms| && path == old(path) && cell.ObjCell?
        invariant (State(), cell) == CopyMembers(old(State()), ms[..i])
      {
        assert ms[..i + 1][..i] == ms[..i];
        var v := CopyOf(ms[i].value);
        cell := SetMember(cell, ms[i].key, v);
        i := i + 1;
      }
      assert ms[..|ms|] == ms;
    }

    /** The node's own defaults, each written where the key is absent. */
    method FillDefaults(l: Loc, own: seq<(string, Doc)>) returns (novel: set<string>)
      modifies this
      ensures (State(), novel) == FillOwn(old(State()), l, own) && path == old(path)
    {
      novel := {};
      var i := 0;
      while i < |own|
        invariant 0 <= i <= |own| && path == old(path)
        invariant (State(), novel) == FillOwn(old(State()), l, own[..i])
      {
        assert own[..i + 1][..i] == own[..i];
        var (k, d) := own[i];
        if l in heap && heap[l].ObjCell? && k !in heap[l].m {
          var cell := heap[l];
          var v := CopyOf(d);
          heap := heap[l := SetMember(cell, k, v)];
          if v.Ref? { novel := novel + {k}; }
        }
        i := i + 1;
      }
      assert own[..|own|] == own;
    }

    /** The function compiled for a schema object, called on one value. */
    method CallFn(n: NodeId, v: Val, depth: nat, made: Option<set<NodeId>>)
      modifies this
      ensures State() == Apply(c, old(State()), n, v, depth, old(path), made) && path == old(path)
      decreases if depth > c.limit then 0 else c.limit + 1 - depth, 2, 0
    {
      if depth > c.limit {
        if v.Ref? { hit := true; }
        return;
      }
      if v.Prim? || n !in c.plans { return; }
      if n in c.shared && made.None? {
        var before := if v.l in visits then visits[v.l] else {};
        if n in before { return; }
        visits := visits[v.l := before + {n}];
      }
      if made.Some? {
        if n in made.value { return; }
        RunBody(n, v.l, depth, Some(made.value + {n}));
        return;
      }
      ghost var outer := path;
      path := path + [n];
      RunBody(n, v.l, depth, None);
      path := path[..|path| - 1];
      assert path == outer;
    }

    method RunBody(n: NodeId, l: Loc, depth: nat, made: Option<set<NodeId>>)
      requires n in c.plans && depth <= c.limit
      modifies this
      ensures State() == Body(c, old(State()), n, l, depth, old(path), made) && path == old(path)
      decreases c.limit + 1 - depth, 1, 0
    {
      var p := c.plans[n];
      log := log + {(n, l)};
      var novel := FillDefaults(l, p.own);
      CallEach(BelowApps(p, l, novel, path, made), depth + 1);
      CallEach(InsideApps(c, State(), p, l, made), depth + 1);
      CallEach(DependentApps(p, l, made), depth + 1);
      CallEach(AlsoApps(p, l, made), depth + 1);
    }

    /** One of the body's loops: where each call lands is read when its turn comes. */
    method CallEach(apps: seq<App>, depth: nat)
      modifies this
      ensures State() == ApplyAll(c, old(State()), apps, depth, old(path)) && path == old(path)
      decreases if depth > c.limit then 0 else c.limit + 1 - depth, 3, |apps|
    {
      var i := 0;
      while i < |apps|
        invariant 0 <= i <= |apps| && path == old(path)
        invariant State() == ApplyAll(c, old(State()), apps[..i], depth, old(path))
      {
        assert apps[..i + 1][..i] == apps[..i];
        var a := apps[i];
        var v := Resolve(heap, a.target);
        if a.slot.Some? && v.Some? { CallFn(a.slot.value, v.value, depth, a.made); }
        i := i + 1;
      }
      assert apps[..|apps|] == apps;
    }

    /** One run over a document: what an earlier call left in `path` and `visits` is dropped first. */
    method RunOn(root: NodeId, v: Val)
      modifies this
      ensures State() == Run(c, old(heap), old(next), root, v) && path == []
    {
      path, visits, log, hit := [], map[], {}, false;
      CallFn(root, v, 0, None);
    }
  }

  /**
   Building the pass and running it, where a default is reachable at all. Whatever the schema: nothing that was
   there is changed, every member added is a copy of the default of a schema that applies to its object, and
   every default that applies to an object of the document is there. With scalar defaults: which one it is,
   where several schemas have one, and a second run changes nothing.
   */
  method FillDocument(g: Graph, root: NodeId, valid: string -> bool, matches: (string, string) -> bool, heap: Heap, next: Loc, l: Loc)
    returns (after: Heap, again: Heap, hit: bool, c: Ctx)
    requires SchemaGraph.Closed(g) && root in g && StOk(Start(heap, next))
    ensures c.matches == matches && Grows(heap, after)
    ensures exists b :: DefaultsCopy.Explained(g, c, valid, (root, l), heap, next, b, after)
    ensures !hit ==> forall a: Pair :: DefaultsCopy.Applies(g, c, valid, heap, (root, l), a) && a.1 in heap ==> DefaultsPresent(g, after, a)
    ensures ScalarDefaults(g) && !hit ==> again == after && ScalarGrowth(heap, after)
    ensures forall t: DefaultsOrder.Layout :: ScalarDefaults(g) && !hit && DefaultsOrder.InPlace(g, t) && DefaultsOrder.Tree(heap, t) ==>
              DefaultsOrder.Won(g, heap, DefaultsOrder.Ordered(g, c, valid, heap, t, root, l), after)
    ensures forall rank: Loc -> nat :: ScalarDefaults(g) && Acyclic(heap, rank) && Shallow(g, MAX_DEPTH, rank(l)) ==> !hit
  {
    hide Apply, DefaultsCopy.Explained, DefaultsCopy.Applies, DefaultsPresent, Compiled, DefaultsOrder.InPlace, DefaultsOrder.Tree, DefaultsOrder.Won;
    hide DefaultsOrder.Ordered, Grows, ScalarDefaults, ScalarGrowth, Acyclic, Shallow, Reaches, StOk;
    var fn;
    c, fn := CompileRoot(g, root, valid, matches);
    after, again, hit := heap, heap, false;
    assert fn.Some? <==> Reaches(g, root);
    if fn.None? {
      NothingFilled(g, c, valid, heap, next, root, l);
      return;
    }
    var pass := new Pass(c, heap, next);
    pass.RunOn(root, Ref(l));
    after, hit := pass.heap, pass.hit;
    ghost var next2 := pass.next;
    assert pass.State() == Run(c, heap, next, root, Ref(l));
    pass.RunOn(root, Ref(l));
    again := pass.heap;
    assert pass.State() == Run(c, after, next2, root, Ref(l));
    RunGrows(c, heap, next, root, l);
    ghost var b := DefaultsCopy.RunExplained(g, c, valid, heap, next, root, l);
    forall a: Pair | !hit && DefaultsCopy.Applies(g, c, valid, heap, (root, l), a) && a.1 in heap ensures DefaultsPresent(g, after, a) {
      DefaultsFilled.EveryDefaultFilled(g, c, valid, heap, next, root, l, a);
    }
    StartHeap(heap, next);
    if ScalarDefaults(g) && !hit {
      RunSettles(g, c, valid, heap, next, root, Ref(l));
      SecondRunIdle(g, c, valid, heap, next, next2, root, Ref(l));
    }
    forall t: DefaultsOrder.Layout | ScalarDefaults(g) && !hit && DefaultsOrder.InPlace(g, t) && DefaultsOrder.Tree(heap, t)
      ensures DefaultsOrder.Won(g, heap, DefaultsOrder.Ordered(g, c, valid, heap, t, root, l), after)
    {
      DefaultsOrder.FirstDecides(g, c, valid, heap, next, root, l, t);
    }
    forall rank: Loc -> nat | ScalarDefaults(g) && Acyclic(heap, rank) && Shallow(g, MAX_DEPTH, rank(l)) ensures !hit {
      DepthEnough(g, c, valid, heap, next, root, l, rank);
    }
  }

  lemma RunGrows(c: Ctx, heap: Heap, next: Loc, root: NodeId, l: Loc)
    requires StOk(Start(heap, next))
    ensures Grows(heap, Run(c, heap, next, root, Ref(l)).heap)
  {
    hide Apply;
    ApplyGrows(c, Start(heap, next), root, Ref(l), 0, [], None);
  }

  lemma StartHeap(heap: Heap, next: Loc)
    requires StOk(Start(heap, next))
    ensures HeapOk(heap)
  {
  }

  /** Without a default reachable there is no pass, and nothing for it to do. */
  lemma NothingFilled(g: Graph, c: Ctx, valid: string -> bool, heap: Heap, next: Loc, root: NodeId, l: Loc)
    requires SchemaGraph.Closed(g) && !Reaches(g, root)
    ensures Grows(heap, heap) && ScalarGrowth(heap, heap)
    ensures DefaultsCopy.Explained(g, c, valid, (root, l), heap, next, heap, heap)
    ensures forall a: Pair :: DefaultsCopy.Applies(g, c, valid, heap, (root, l), a) ==> DefaultsPresent(g, heap, a)
    ensures forall t: DefaultsOrder.Layout :: DefaultsOrder.InPlace(g, t) && DefaultsOrder.Tree(heap, t) ==>
              DefaultsOrder.Won(g, heap, DefaultsOrder.Ordered(g, c, valid, heap, t, root, l), heap)
  {
    hide DefaultsCopy.Applies, DefaultsPresent, DefaultsOrder.InPlace, DefaultsOrder.Tree, DefaultsOrder.Won, DefaultsOrder.Ordered, Reaches;
    forall a: Pair | DefaultsCopy.Applies(g, c, valid, heap, (root, l), a) ensures DefaultsPresent(g, heap, a) {
      DefaultsFilled.NoneReachable(g, c, valid, heap, root, l, a);
    }
    forall t: DefaultsOrder.Layout | DefaultsOrder.InPlace(g, t) && DefaultsOrder.Tree(heap, t)
      ensures DefaultsOrder.Won(g, heap, DefaultsOrder.Ordered(g, c, valid, heap, t, root, l), heap)
    {
      DefaultsOrder.NoneDecided(g, c, valid, heap, root, l, t);
    }
  }
}
