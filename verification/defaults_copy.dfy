/**
 What the closure pass writes: each member it adds is a copy, in containers of its own, of the default of a
 schema that applies to the object (lib/defaults.js:155-157, 177-293).
 */
module DefaultsCopy {
  import opened Json
  import opened SchemaGraph
  import opened DefaultsPass
  import opened DefaultsScalar

  // ---------------------------------------------------------------- a copy holds its default

  /** How many containers a document has. */
  function Size(d: Doc): nat
    decreases d, 0
  {
    match d
    case DScalar(_) => 0
    case DArr(items) => SizeList(items) + 1
    case DObj(ms) => SizeMembers(ms) + 1
  }

  function SizeList(ds: seq<Doc>): nat
    decreases ds, 0
  {
    if ds == [] then 0 else SizeList(ds[..|ds| - 1]) + Size(ds[|ds| - 1])
  }

  function SizeMembers(ms: seq<DMember>): nat
    decreases ms, 0
  {
    if ms == [] then 0 else SizeMembers(ms[..|ms| - 1]) + Size(ms[|ms| - 1].value)
  }

  /** The names of an object, each where it comes first. */
  function Names(ms: seq<DMember>): seq<string> {
    if ms == [] then []
    else
      var init, k := Names(ms[..|ms| - 1]), ms[|ms| - 1].key;
      if k in init then init else init + [k]
  }

  /** The member that counts where a name is repeated. */
  predicate LastOf(ms: seq<DMember>, i: nat)
    requires i < |ms|
  {
    forall j :: i < j < |ms| ==> ms[j].key != ms[i].key
  }

  /**
   The value holds exactly this document: elements and members in order, each container a cell of its own,
   numbered from `from` on, after those inside it.
   */
  ghost predicate Held(h: Heap, v: Val, d: Doc, from: Loc)
    decreases d
  {
    match d
    case DScalar(x) => v == Prim(x)
    case DArr(items) => v == Ref(from + SizeList(items)) && v.l in h && h[v.l].ArrCell? && HeldItems(h, h[v.l].a, items, from)
    case DObj(ms) => v == Ref(from + SizeMembers(ms)) && v.l in h && h[v.l].ObjCell? && HeldMembers(h, h[v.l], ms, from)
  }

  ghost predicate HeldItems(h: Heap, vs: seq<Val>, items: seq<Doc>, from: Loc)
    decreases items
  {
    |vs| == |items| && forall i :: 0 <= i < |items| ==> Held(h, vs[i], items[i], from + SizeList(items[..i]))
  }

  ghost predicate HeldMembers(h: Heap, c: Cell, ms: seq<DMember>, from: Loc)
    requires c.ObjCell?
    decreases ms
  {
    && c.keys == Names(ms) && (forall k :: k in c.m <==> k in c.keys)
    && forall i :: 0 <= i < |ms| && LastOf(ms, i) ==> ms[i].key in c.m && Held(h, c.m[ms[i].key], ms[i].value, from + SizeMembers(ms[..i]))
  }

  /** The cells there were are as they were; the new ones are numbered from `from` on. */
  predicate Extends(h0: Heap, h1: Heap, from: Loc) {
    && (forall l :: l in h0 ==> l in h1 && h1[l] == h0[l])
    && forall l :: l in h1 && l !in h0 ==> from <= l
  }

  /** The cells numbered from `from` on are as they were. */
  predicate Keeps(h0: Heap, h1: Heap, from: Loc) {
    forall l :: l in h0 && from <= l ==> l in h1 && h1[l] == h0[l]
  }

  lemma {:induction false} HeldKept(h0: Heap, h1: Heap, v: Val, d: Doc, from: Loc)
    requires Held(h0, v, d, from) && Keeps(h0, h1, from)
    ensures Held(h1, v, d, from)
    decreases d
  {
    hide HeldItems, HeldMembers, SizeList, SizeMembers;
    match d
    case DScalar(_) =>
    case DArr(items) => HeldItemsKept(h0, h1, h0[v.l].a, items, from);
    case DObj(ms) => HeldMembersKept(h0, h1, h0[v.l], ms, from);
  }

  lemma {:induction false} HeldItemsKept(h0: Heap, h1: Heap, vs: seq<Val>, items: seq<Doc>, from: Loc)
    requires HeldItems(h0, vs, items, from) && Keeps(h0, h1, from)
    ensures HeldItems(h1, vs, items, from)
    decreases items
  {
    hide Held, SizeList;
    forall i | 0 <= i < |items| ensures Held(h1, vs[i], items[i], from + SizeList(items[..i])) {
      HeldKept(h0, h1, vs[i], items[i], from + SizeList(items[..i]));
    }
  }

  lemma {:induction false} HeldMembersKept(h0: Heap, h1: Heap, c: Cell, ms: seq<DMember>, from: Loc)
    requires c.ObjCell? && HeldMembers(h0, c, ms, from) && Keeps(h0, h1, from)
    ensures HeldMembers(h1, c, ms, from)
    decreases ms
  {
    hide Held, SizeMembers, Names;
    forall i | 0 <= i < |ms| && LastOf(ms, i) ensures Held(h1, c.m[ms[i].key], ms[i].value, from + SizeMembers(ms[..i])) {
      HeldKept(h0, h1, c.m[ms[i].key], ms[i].value, from + SizeMembers(ms[..i]));
    }
  }

  predicate Advanced(st: St, st': St, size: nat) {
    StOk(st') && Extends(st.heap, st'.heap, st.next) && st'.next == st.next + size
  }

  lemma AdvancedChains(st0: St, st1: St, st2: St, a: nat, b: nat)
    requires Advanced(st0, st1, a) && Advanced(st1, st2, b)
    ensures Advanced(st0, st2, a + b)
  {
  }

  predicate CellOk(c: Cell) { c.ObjCell? ==> ObjOk(c) }

  lemma AllocAdvances(st: St, c: Cell)
    requires StOk(st) && CellOk(c)
    ensures var (st', v) := Alloc(st, c); Advanced(st, st', 1) && v == Ref(st.next) && v.l in st'.heap && st'.heap[v.l] == c
  {
  }

  /** A copy holds its default, in new cells only. */
  lemma {:induction false} CopyHolds(st: St, d: Doc)
    requires StOk(st)
    ensures var (st', v) := Copy(st, d); Advanced(st, st', Size(d)) && Held(st'.heap, v, d, st.next)
    decreases d, 0
  {
    hide HeldItems, HeldMembers, SizeList, SizeMembers, Advanced, CopyList, CopyMembers, Alloc, CellOk, ObjOk;
    match d
    case DScalar(_) => Stays(st);
    case DArr(items) =>
      CopyListHolds(st, items);
      var (st1, vs) := CopyList(st, items);
      AdvancedOk(st, st1, SizeList(items));
      ArrayOk(vs);
      AllocAdvances(st1, ArrCell(vs));
      var (st', v) := Alloc(st1, ArrCell(vs));
      AdvancedChains(st, st1, st', SizeList(items), 1);
      AdvancedOk(st1, st', 1);
      HeldItemsKept(st1.heap, st'.heap, vs, items, st.next);
    case DObj(ms) =>
      CopyMembersHolds(st, ms);
      var (st1, c) := CopyMembers(st, ms);
      AdvancedOk(st, st1, SizeMembers(ms));
      AllocAdvances(st1, c);
      var (st', v) := Alloc(st1, c);
      AdvancedChains(st, st1, st', SizeMembers(ms), 1);
      AdvancedOk(st1, st', 1);
      HeldMembersKept(st1.heap, st'.heap, c, ms, st.next);
  }

  lemma ArrayOk(vs: seq<Val>)
    ensures CellOk(ArrCell(vs))
  {
  }

  lemma Stays(st: St)
    requires StOk(st)
    ensures Advanced(st, st, 0)
  {
  }

  lemma AdvancedOk(st0: St, st1: St, size: nat)
    requires Advanced(st0, st1, size)
    ensures StOk(st1) && Extends(st0.heap, st1.heap, st0.next) && st1.next == st0.next + size && Keeps(st0.heap, st1.heap, 0)
  {
  }

  lemma {:induction false} CopyListHolds(st: St, items: seq<Doc>)
    requires StOk(st)
    ensures var (st', vs) := CopyList(st, items); Advanced(st, st', SizeList(items)) && HeldItems(st'.heap, vs, items, st.next)
    decreases items, 0
  {
    hide Held, HeldItems, Copy, Size, Advanced, Extends, StOk;
    if items == [] {
      Stays(st);
      NoItems(st.heap, st.next);
    } else {
      var init, last := items[..|items| - 1], items[|items| - 1];
      CopyListHolds(st, init);
      var (st1, vs1) := CopyList(st, init);
      AdvancedOk(st, st1, SizeList(init));
      CopyHolds(st1, last);
      var (st', v) := Copy(st1, last);
      AdvancedOk(st1, st', Size(last));
      AdvancedChains(st, st1, st', SizeList(init), Size(last));
      HeldItemsKept(st1.heap, st'.heap, vs1, init, st.next);
      HeldSnoc(st'.heap, vs1, v, items, st.next);
    }
  }

  lemma NoItems(h: Heap, from: Loc)
    ensures HeldItems(h, [], [], from)
    ensures HeldMembers(h, ObjCell([], map[]), [], from)
  {
  }

  lemma HeldSnoc(h: Heap, vs: seq<Val>, v: Val, items: seq<Doc>, from: Loc)
    requires items != [] && HeldItems(h, vs, items[..|items| - 1], from)
    requires Held(h, v, items[|items| - 1], from + SizeList(items[..|items| - 1]))
    ensures HeldItems(h, vs + [v], items, from)
  {
    hide Held, SizeList;
    var init := items[..|items| - 1];
    forall i | 0 <= i < |items| ensures Held(h, (vs + [v])[i], items[i], from + SizeList(items[..i])) {
      if i < |init| { assert init[..i] == items[..i] && init[i] == items[i]; }
    }
  }

  lemma {:induction false} CopyMembersHolds(st: St, ms: seq<DMember>)
    requires StOk(st)
    ensures var (st', c) := CopyMembers(st, ms); Advanced(st, st', SizeMembers(ms)) && HeldMembers(st'.heap, c, ms, st.next) && CellOk(c)
    decreases ms, 0
  {
    hide Held, HeldMembers, Copy, Size, Advanced, Extends, StOk, SetMember, CellOk;
    if ms == [] {
      Stays(st);
      NoItems(st.heap, st.next);
      NothingOk();
    } else {
      var init, last := ms[..|ms| - 1], ms[|ms| - 1];
      CopyMembersHolds(st, init);
      var (st1, c1) := CopyMembers(st, init);
      AdvancedOk(st, st1, SizeMembers(init));
      CopyHolds(st1, last.value);
      var (st', v) := Copy(st1, last.value);
      AdvancedOk(st1, st', Size(last.value));
      AdvancedChains(st, st1, st', SizeMembers(init), Size(last.value));
      HeldMembersKept(st1.heap, st'.heap, c1, init, st.next);
      HeldMember(st'.heap, c1, v, ms, st.next);
    }
  }

  lemma NothingOk()
    ensures CellOk(ObjCell([], map[]))
  {
  }

  ghost predicate KeysOf(c: Cell, ms: seq<DMember>) {
    c.ObjCell? && c.keys == Names(ms) && forall k :: k in c.m <==> k in c.keys
  }

  lemma NamesMember(c: Cell, v: Val, ms: seq<DMember>)
    requires ms != [] && KeysOf(c, ms[..|ms| - 1])
    ensures KeysOf(SetMember(c, ms[|ms| - 1].key, v), ms)
  {
  }

  lemma LastBefore(ms: seq<DMember>, i: nat)
    requires i < |ms| - 1 && LastOf(ms, i)
    ensures LastOf(ms[..|ms| - 1], i) && ms[..|ms| - 1][..i] == ms[..i] && ms[i].key != ms[|ms| - 1].key
  {
    var init := ms[..|ms| - 1];
    forall j | i < j < |init| ensures init[j].key != init[i].key { assert ms[j].key != ms[i].key; }
  }

  /** One member more, replacing an earlier one of its name. */
  lemma HeldMember(h: Heap, c: Cell, v: Val, ms: seq<DMember>, from: Loc)
    requires c.ObjCell? && ms != [] && HeldMembers(h, c, ms[..|ms| - 1], from)
    requires Held(h, v, ms[|ms| - 1].value, from + SizeMembers(ms[..|ms| - 1]))
    ensures var c' := SetMember(c, ms[|ms| - 1].key, v); HeldMembers(h, c', ms, from) && CellOk(c')
  {
    hide Held, SizeMembers, Names, LastOf;
    var init := ms[..|ms| - 1];
    var c' := SetMember(c, ms[|ms| - 1].key, v);
    NamesMember(c, v, ms);
    forall i | 0 <= i < |ms| && LastOf(ms, i) ensures ms[i].key in c'.m && Held(h, c'.m[ms[i].key], ms[i].value, from + SizeMembers(ms[..i])) {
      if i < |init| { LastBefore(ms, i); assert init[i] == ms[i]; }
    }
  }

  /** The names of the defaults an object lacks, in order. */
  function Lacking(own: seq<(string, Doc)>, have: set<string>): seq<string> {
    if own == [] then []
    else
      var init, k := Lacking(own[..|own| - 1], have), own[|own| - 1].0;
      if k in have || k in init then init else init + [k]
  }

  /** Members are added after those there were, in the order in which the schema lists its properties; nothing else is written to. */
  lemma {:induction false} FillOrder(st: St, l: Loc, own: seq<(string, Doc)>)
    requires StOk(st) && l in st.heap && st.heap[l].ObjCell?
    ensures var h := FillOwn(st, l, own).0.heap;
      && l in h && h[l].ObjCell? && h[l].keys == st.heap[l].keys + Lacking(own, st.heap[l].m.Keys)
      && forall x :: x in st.heap && x != l ==> x in h && h[x] == st.heap[x]
    decreases |own|
  {
    hide StOk, Copy, Grows;
    if own == [] {
      assert st.heap[l].keys + [] == st.heap[l].keys;
    } else {
      var init := own[..|own| - 1];
      var (k, d) := own[|own| - 1];
      FillOrder(st, l, init);
      FillOwnGrows(st, l, init);
      var st1 := FillOwn(st, l, init).0;
      assert StOk(st1);
      KeysAt(st, l);
      KeysAt(st1, l);
      if k !in st1.heap[l].m {
        CopyHolds(st1, d);
        AdvancedOk(st1, Copy(st1, d).0, Size(d));
      }
    }
  }

  lemma KeysAt(st: St, l: Loc)
    requires StOk(st) && l in st.heap && st.heap[l].ObjCell?
    ensures forall k :: k in st.heap[l].m <==> k in st.heap[l].keys
  {
  }

  // ---------------------------------------------------------------- what one application leads to

  /** The applications one application leads to, `dependentSchemas` included. */
  ghost predicate Led(c: Ctx, h: Heap, a: Pair, b: Pair) {
    || Leads(c, h, a, b)
    || (a.0 in c.plans && b.1 == a.1 && exists i :: 0 <= i < |c.plans[a.0].dependent| && c.plans[a.0].dependent[i].slot == Some(b.0)
                                                 && MemberAt(h, a.1, c.plans[a.0].dependent[i].key).Some?)
  }

  /** Wherever it lands, the application is one that `a` leads to. */
  ghost predicate OneLed(c: Ctx, app: App, a: Pair) {
    forall h, x: Loc :: app.slot.Some? && Resolve(h, app.target) == Some(Ref(x)) ==> Led(c, h, a, (app.slot.value, x))
  }

  ghost predicate AllLed(c: Ctx, apps: seq<App>, a: Pair) {
    forall i :: 0 <= i < |apps| ==> OneLed(c, apps[i], a)
  }

  lemma {:induction false} PatternAppsLed(c: Ctx, n: NodeId, l: Loc, j: nat, k: string, made: Option<set<NodeId>>)
    requires n in c.plans && j <= |c.plans[n].patterns|
    ensures AllLed(c, PatternApps(c, c.plans[n].patterns[..j], l, k, made), (n, l))
  {
    if j > 0 {
      PatternAppsLed(c, n, l, j - 1, k, made);
      var ps := c.plans[n].patterns[..j];
      assert ps[..j - 1] == c.plans[n].patterns[..j - 1];
      if c.matches(ps[j - 1].key, k) { PatternLed(c, n, l, j - 1, k, made); }
    }
  }

  lemma PatternLed(c: Ctx, n: NodeId, l: Loc, i: nat, k: string, made: Option<set<NodeId>>)
    requires n in c.plans && i < |c.plans[n].patterns| && c.matches(c.plans[n].patterns[i].key, k)
    ensures OneLed(c, App(c.plans[n].patterns[i].slot, Member(l, k), made), (n, l))
  {
    var app := App(c.plans[n].patterns[i].slot, Member(l, k), made);
    forall h, x: Loc | app.slot.Some? && Resolve(h, app.target) == Some(Ref(x)) ensures Led(c, h, (n, l), (app.slot.value, x)) {
      assert HasRef(h, l, k, x);
    }
  }

  lemma ExtraLed(c: Ctx, n: NodeId, l: Loc, k: string, made: Option<set<NodeId>>)
    requires n in c.plans && !Matched(c, c.plans[n], k) && k !in c.plans[n].declared
    ensures OneLed(c, App(c.plans[n].extra, Member(l, k), made), (n, l))
  {
    var app := App(c.plans[n].extra, Member(l, k), made);
    forall h, x: Loc | app.slot.Some? && Resolve(h, app.target) == Some(Ref(x)) ensures Led(c, h, (n, l), (app.slot.value, x)) {
      assert HasRef(h, l, k, x);
    }
  }

  lemma {:induction false} KeyAppsLed(c: Ctx, n: NodeId, l: Loc, keys: seq<string>, made: Option<set<NodeId>>)
    requires n in c.plans
    ensures AllLed(c, KeyApps(c, c.plans[n], l, keys, made), (n, l))
    decreases |keys|
  {
    hide OneLed, Matched, PatternApps;
    if keys != [] {
      var k, p := keys[|keys| - 1], c.plans[n];
      KeyAppsLed(c, n, l, keys[..|keys| - 1], made);
      PatternAppsLed(c, n, l, |p.patterns|, k, made);
      assert p.patterns[..|p.patterns|] == p.patterns;
      if !Matched(c, p, k) && k !in p.declared { ExtraLed(c, n, l, k, made); }
    }
  }

  lemma InsideAppsLed(c: Ctx, st: St, n: NodeId, l: Loc, made: Option<set<NodeId>>)
    requires n in c.plans
    ensures AllLed(c, InsideApps(c, st, c.plans[n], l, made), (n, l))
  {
    hide KeyApps, OneLed;
    var p := c.plans[n];
    if l in st.heap {
      match st.heap[l]
      case ObjCell(keys, _) =>
        KeyAppsLed(c, n, l, keys, made);
        assert AllLed(c, [], (n, l));
      case ArrCell(a) =>
        forall i | 0 <= i < |a| ensures OneLed(c, ElemApps(p, l, |a|, made)[i], (n, l)) { ElemLed(c, n, l, i, made); }
    }
  }

  lemma ElemLed(c: Ctx, n: NodeId, l: Loc, i: nat, made: Option<set<NodeId>>)
    requires n in c.plans
    ensures OneLed(c, App(ElemSlot(c.plans[n], i), Elem(l, i), made), (n, l))
  {
  }

  lemma BesideAppsLed(c: Ctx, n: NodeId, l: Loc, novel: set<string>, path: seq<NodeId>, made: Option<set<NodeId>>)
    requires n in c.plans
    ensures var p := c.plans[n];
      AllLed(c, BelowApps(p, l, novel, path, made), (n, l)) && AllLed(c, DependentApps(p, l, made), (n, l)) && AllLed(c, AlsoApps(p, l, made), (n, l))
  {
    var p := c.plans[n];
    forall i | 0 <= i < |p.below| ensures OneLed(c, BelowApps(p, l, novel, path, made)[i], (n, l)) {
      var app := BelowApps(p, l, novel, path, made)[i];
      forall h, x: Loc | app.slot.Some? && Resolve(h, app.target) == Some(Ref(x)) ensures Led(c, h, (n, l), (app.slot.value, x)) {
        assert HasRef(h, l, p.below[i].key, x);
      }
    }
  }

  ghost predicate Steps(c: Ctx, h: Heap, chain: seq<Pair>) {
    chain != [] && forall i, j :: 0 <= i < j < |chain| && j == i + 1 ==> Led(c, h, chain[i], chain[j])
  }

  ghost predicate Reached(c: Ctx, h: Heap, start: Pair, a: Pair) {
    exists chain :: Steps(c, h, chain) && chain[0] == start && chain[|chain| - 1] == a
  }

  lemma LedGrows(c: Ctx, h0: Heap, h1: Heap, a: Pair, b: Pair)
    requires Grows(h0, h1) && Led(c, h0, a, b)
    ensures Led(c, h1, a, b)
  {
    if a.1 in h0 { assert CellGrows(h0[a.1], h1[a.1]); }
    assert forall k :: HasRef(h0, a.1, k, b.1) ==> HasRef(h1, a.1, k, b.1);
    assert forall i: nat :: ElemAt(h0, a.1, i).Some? ==> ElemAt(h0, a.1, i) == ElemAt(h1, a.1, i);
    assert forall k :: MemberAt(h0, a.1, k).Some? ==> MemberAt(h1, a.1, k).Some?;
  }

  lemma ReachedGrows(c: Ctx, h0: Heap, h1: Heap, start: Pair, a: Pair)
    requires Grows(h0, h1) && Reached(c, h0, start, a)
    ensures Reached(c, h1, start, a)
  {
    hide Led, Grows;
    var chain :| Steps(c, h0, chain) && chain[0] == start && chain[|chain| - 1] == a;
    forall i, j | 0 <= i < j < |chain| && j == i + 1 ensures Led(c, h1, chain[i], chain[j]) { LedGrows(c, h0, h1, chain[i], chain[j]); }
  }

  lemma ReachedOn(c: Ctx, h: Heap, start: Pair, a: Pair, b: Pair)
    requires Reached(c, h, start, a) && Led(c, h, a, b)
    ensures Reached(c, h, start, b)
  {
    hide Led;
    var chain :| Steps(c, h, chain) && chain[0] == start && chain[|chain| - 1] == a;
    var more := chain + [b];
    forall i, j | 0 <= i < j < |more| && j == i + 1 ensures Led(c, h, more[i], more[j]) {
      if j < |chain| { assert Led(c, h, chain[i], chain[j]); }
    }
    assert Steps(c, h, more);
  }

  lemma ReachedStart(c: Ctx, h: Heap, start: Pair)
    ensures Reached(c, h, start, start)
  {
    assert Steps(c, h, [start]);
  }

  // ---------------------------------------------------------------- every member added is accounted for

  /** A member the object did not have when it came into being. */
  predicate Added(b: Heap, h: Heap, l: Loc, k: string) {
    l in h && h[l].ObjCell? && k in h[l].m && !(l in b && b[l].ObjCell? && k in b[l].m)
  }

  /** The value holds, from when its containers came into being, the default a schema has for this property. */
  ghost predicate Supplies(c: Ctx, b: Heap, a: Pair, i: nat, k: string, v: Val, from: Loc) {
    a.0 in c.plans && i < |c.plans[a.0].own| && c.plans[a.0].own[i].0 == k && Held(b, v, c.plans[a.0].own[i].1, from)
  }

  ghost predicate Supplied(c: Ctx, log: set<Pair>, b: Heap, l: Loc, k: string, v: Val, next: Loc) {
    exists a: Pair, i: nat, from: Loc :: a in log && a.1 == l && next <= from && Supplies(c, b, a, i, k, v, from)
  }

  ghost predicate Accounted(c: Ctx, log: set<Pair>, b: Heap, h: Heap, next: Loc) {
    forall l, k :: Added(b, h, l, k) ==> Supplied(c, log, b, l, k, h[l].m[k], next)
  }

  /**
   `b` has each container as it was found or made: everything else was added to it since, by a schema that
   applies there.
   */
  ghost predicate Born(c: Ctx, first: St, start: Pair, b: Heap, st: St) {
    && StOk(st) && first.next <= st.next
    && Extends(first.heap, b, first.next) && b.Keys == st.heap.Keys && Grows(b, st.heap)
    && (forall a :: a in st.log ==> Reached(c, st.heap, start, a))
    && Accounted(c, st.log, b, st.heap, first.next)
  }

  lemma SuppliedMore(c: Ctx, log0: set<Pair>, log1: set<Pair>, b0: Heap, b1: Heap, l: Loc, k: string, v: Val, next: Loc)
    requires log0 <= log1 && Keeps(b0, b1, next) && Supplied(c, log0, b0, l, k, v, next)
    ensures Supplied(c, log1, b1, l, k, v, next)
  {
    hide Held;
    var a: Pair, i: nat, from: Loc :| a in log0 && a.1 == l && next <= from && Supplies(c, b0, a, i, k, v, from);
    HeldKept(b0, b1, v, c.plans[a.0].own[i].1, from);
    assert Supplies(c, b1, a, i, k, v, from);
  }

  /** One default written: its copy is born as it is, and the member is accounted for. */
  lemma WriteBorn(c: Ctx, first: St, start: Pair, b: Heap, st: St, n: NodeId, l: Loc, i: nat) returns (b': Heap)
    requires Born(c, first, start, b, st) && n in c.plans && (n, l) in st.log && i < |c.plans[n].own|
    requires l in st.heap && st.heap[l].ObjCell? && c.plans[n].own[i].0 !in st.heap[l].m
    ensures var (k, d) := c.plans[n].own[i]; var (st', v) := Copy(st, d);
            Born(c, first, start, b', st'.(heap := st'.heap[l := SetMember(st.heap[l], k, v)]))
  {
    hide Copy, Reached, Held, Accounted, Extends, Advanced;
    var (k, d) := c.plans[n].own[i];
    CopyHolds(st, d);
    CopySilent(st, d);
    var (st1, v) := Copy(st, d);
    var st' := st1.(heap := st1.heap[l := SetMember(st.heap[l], k, v)]);
    b' := map x | x in st1.heap :: if x in b then b[x] else st1.heap[x];
    AdvancedOk(st, st1, Size(d));
    WriteGrows(b, st, st1, st', b', l, k, v);
    ExtendsOn(first.heap, b, b', first.next, st.next);
    HeldKept(st1.heap, b', v, d, st.next);
    assert Grows(st.heap, st'.heap) by { WriteKeeps(st, st1, st', l, k, v); }
    forall a | a in st'.log ensures Reached(c, st'.heap, start, a) { ReachedGrows(c, st.heap, st'.heap, start, a); }
    WriteAccounted(c, first, b, st, st', b', n, l, i, v);
  }

  lemma ExtendsOn(h: Heap, b: Heap, b': Heap, next: Loc, later: Loc)
    requires Extends(h, b, next) && Extends(b, b', later) && next <= later
    ensures Extends(h, b', next)
  {
  }

  lemma WriteKeeps(st: St, st1: St, st': St, l: Loc, k: string, v: Val)
    requires StOk(st) && Extends(st.heap, st1.heap, st.next) && l in st.heap && st.heap[l].ObjCell? && k !in st.heap[l].m
    requires st' == st1.(heap := st1.heap[l := SetMember(st.heap[l], k, v)])
    ensures Grows(st.heap, st'.heap)
  {
  }

  lemma WriteGrows(b: Heap, st: St, st1: St, st': St, b': Heap, l: Loc, k: string, v: Val)
    requires StOk(st) && b.Keys == st.heap.Keys && Grows(b, st.heap) && StOk(st1)
    requires Extends(st.heap, st1.heap, st.next) && l in st.heap && st.heap[l].ObjCell? && k !in st.heap[l].m
    requires st' == st1.(heap := st1.heap[l := SetMember(st.heap[l], k, v)])
    requires b' == map x | x in st1.heap :: if x in b then b[x] else st1.heap[x]
    ensures StOk(st') && b'.Keys == st'.heap.Keys && Grows(b', st'.heap) && Extends(b, b', st.next) && Keeps(st1.heap, b', st.next)
  {
    forall x | x in b' ensures x in st'.heap && CellGrows(b'[x], st'.heap[x]) {
      if x in b { assert CellGrows(b[x], st.heap[x]); }
    }
  }

  lemma WriteAccounted(c: Ctx, first: St, b: Heap, st: St, st': St, b': Heap, n: NodeId, l: Loc, i: nat, v: Val)
    requires n in c.plans && (n, l) in st.log && i < |c.plans[n].own| && st'.log == st.log && first.next <= st.next
    requires l in st.heap && st.heap[l].ObjCell? && c.plans[n].own[i].0 !in st.heap[l].m
    requires Accounted(c, st.log, b, st.heap, first.next) && Extends(b, b', st.next)
    requires forall x :: x in st'.heap && x != l ==> if x in st.heap then st'.heap[x] == st.heap[x] else x in b' && b'[x] == st'.heap[x]
    requires l in st'.heap && st'.heap[l] == SetMember(st.heap[l], c.plans[n].own[i].0, v)
    requires Held(b', v, c.plans[n].own[i].1, st.next)
    ensures Accounted(c, st'.log, b', st'.heap, first.next)
  {
    hide Held;
    var k := c.plans[n].own[i].0;
    forall x, y | Added(b', st'.heap, x, y) ensures Supplied(c, st'.log, b', x, y, st'.heap[x].m[y], first.next) {
      if x == l && y == k {
        assert Supplies(c, b', (n, l), i, k, v, st.next);
      } else {
        assert Added(b, st.heap, x, y);
        SuppliedMore(c, st.log, st'.log, b, b', x, y, st.heap[x].m[y], first.next);
      }
    }
  }

  lemma {:induction false} FillBorn(c: Ctx, first: St, start: Pair, b: Heap, st: St, n: NodeId, l: Loc, j: nat) returns (b': Heap)
    requires Born(c, first, start, b, st) && n in c.plans && (n, l) in st.log && j <= |c.plans[n].own|
    ensures Born(c, first, start, b', FillOwn(st, l, c.plans[n].own[..j]).0)
    decreases j
  {
    hide Born, Copy;
    b' := b;
    if j > 0 {
      var own := c.plans[n].own[..j];
      assert own[..j - 1] == c.plans[n].own[..j - 1];
      b' := FillBorn(c, first, start, b, st, n, l, j - 1);
      FillOwnSilent(st, l, own[..j - 1]);
      var st1 := FillOwn(st, l, own[..j - 1]).0;
      if l in st1.heap && st1.heap[l].ObjCell? && own[j - 1].0 !in st1.heap[l].m { b' := WriteBorn(c, first, start, b', st1, n, l, j - 1); }
    }
  }

  // ---------------------------------------------------------------- the whole pass

  lemma {:induction false} ApplyBorn(c: Ctx, first: St, start: Pair, b: Heap, st: St, n: NodeId, v: Val, depth: nat, path: seq<NodeId>, made: Option<set<NodeId>>) returns (b': Heap)
    requires Born(c, first, start, b, st) && (v.Ref? ==> Reached(c, st.heap, start, (n, v.l)))
    ensures var st' := Apply(c, st, n, v, depth, path, made); Born(c, first, start, b', st') && st.log <= st'.log
    decreases if depth > c.limit then 0 else c.limit + 1 - depth, 2, 0
  {
    hide Body, Reached, Grows, HeapOk, Extends, Accounted;
    b' := b;
    if depth <= c.limit && v.Ref? && n in c.plans {
      if n in c.shared && made.None? {
        var before := if v.l in st.visits then st.visits[v.l] else {};
        if n !in before { b' := BodyBorn(c, first, start, b, st.(visits := st.visits[v.l := before + {n}]), n, v.l, depth, path + [n], None); }
      } else if made.None? {
        b' := BodyBorn(c, first, start, b, st, n, v.l, depth, path + [n], None);
      } else if n !in made.value {
        b' := BodyBorn(c, first, start, b, st, n, v.l, depth, path, Some(made.value + {n}));
      }
    }
  }

  lemma EnterBorn(c: Ctx, first: St, start: Pair, b: Heap, st: St, a: Pair)
    requires Born(c, first, start, b, st) && Reached(c, st.heap, start, a)
    ensures Born(c, first, start, b, st.(log := st.log + {a}))
  {
    hide Reached, Supplied, Grows;
    forall l, k | Added(b, st.heap, l, k) ensures Supplied(c, st.log + {a}, b, l, k, st.heap[l].m[k], first.next) {
      SuppliedMore(c, st.log, st.log + {a}, b, b, l, k, st.heap[l].m[k], first.next);
    }
  }

  lemma BornOk(c: Ctx, first: St, start: Pair, b: Heap, st: St)
    requires Born(c, first, start, b, st)
    ensures StOk(st) && forall a :: a in st.log ==> Reached(c, st.heap, start, a)
  {
  }

  lemma {:induction false} BodyBorn(c: Ctx, first: St, start: Pair, b: Heap, st: St, n: NodeId, l: Loc, depth: nat, path: seq<NodeId>, made: Option<set<NodeId>>) returns (b': Heap)
    requires Born(c, first, start, b, st) && Reached(c, st.heap, start, (n, l)) && n in c.plans && depth <= c.limit
    ensures var st' := Body(c, st, n, l, depth, path, made); Born(c, first, start, b', st') && st.log <= st'.log
    decreases c.limit + 1 - depth, 1, 0
  {
    hide FillOwn, ApplyAll, BelowApps, InsideApps, DependentApps, AlsoApps, Born, Reached, AllLed, StGrows;
    var p, a := c.plans[n], (n, l);
    EnterBorn(c, first, start, b, st, a);
    var logged := st.(log := st.log + {a});
    b' := FillBorn(c, first, start, b, logged, n, l, |p.own|);
    assert p.own[..|p.own|] == p.own;
    var (st1, novel) := FillOwn(logged, l, p.own);
    FillOwnSilent(logged, l, p.own);
    BesideAppsLed(c, n, l, novel, path, made);
    b' := AllBorn(c, first, start, b', st1, BelowApps(p, l, novel, path, made), depth + 1, path, a);
    var st2 := ApplyAll(c, st1, BelowApps(p, l, novel, path, made), depth + 1, path);
    InsideAppsLed(c, st2, n, l, made);
    b' := AllBorn(c, first, start, b', st2, InsideApps(c, st2, p, l, made), depth + 1, path, a);
    var st3 := ApplyAll(c, st2, InsideApps(c, st2, p, l, made), depth + 1, path);
    b' := AllBorn(c, first, start, b', st3, DependentApps(p, l, made), depth + 1, path, a);
    var st4 := ApplyAll(c, st3, DependentApps(p, l, made), depth + 1, path);
    b' := AllBorn(c, first, start, b', st4, AlsoApps(p, l, made), depth + 1, path, a);
  }

  lemma {:induction false} AllBorn(c: Ctx, first: St, start: Pair, b: Heap, st: St, apps: seq<App>, depth: nat, path: seq<NodeId>, a: Pair) returns (b': Heap)
    requires Born(c, first, start, b, st) && AllLed(c, apps, a) && a in st.log
    ensures var st' := ApplyAll(c, st, apps, depth, path); Born(c, first, start, b', st') && st.log <= st'.log
    decreases if depth > c.limit then 0 else c.limit + 1 - depth, 3, |apps|
  {
    hide Apply, Born, Led, Reached, Resolve;
    b' := b;
    if apps != [] {
      var init, app := apps[..|apps| - 1], apps[|apps| - 1];
      assert AllLed(c, init, a);
      b' := AllBorn(c, first, start, b, st, init, depth, path, a);
      var st1 := ApplyAll(c, st, init, depth, path);
      var v := Resolve(st1.heap, app.target);
      if app.slot.Some? && v.Some? {
        BornOk(c, first, start, b', st1);
        assert OneLed(c, app, a);
        if v.value.Ref? { ReachedOn(c, st1.heap, start, a, (app.slot.value, v.value.l)); }
        b' := ApplyBorn(c, first, start, b', st1, app.slot.value, v.value, depth, path, app.made);
      }
    }
  }

  // ---------------------------------------------------------------- in the schema's own terms

  /** What a schema says applies next, `dependentSchemas` included. */
  ghost predicate Next(g: Graph, c: Ctx, valid: string -> bool, h: Heap, a: Pair, b: Pair) {
    || AppliesNext(g, c, valid, h, a, b)
    || (a.0 in g && b.1 == a.1 && exists i :: 0 <= i < |g[a.0].dependents| && g[a.0].dependents[i].slot == Some(b.0)
                                           && MemberAt(h, a.1, g[a.0].dependents[i].key).Some?)
  }

  ghost predicate Applies(g: Graph, c: Ctx, valid: string -> bool, h: Heap, start: Pair, a: Pair) {
    exists chain :: NextSteps(g, c, valid, h, chain) && chain[0] == start && chain[|chain| - 1] == a
  }

  ghost predicate NextSteps(g: Graph, c: Ctx, valid: string -> bool, h: Heap, chain: seq<Pair>) {
    chain != [] && forall i, j :: 0 <= i < j < |chain| && j == i + 1 ==> Next(g, c, valid, h, chain[i], chain[j])
  }

  /** The schema has this default for this property. */
  predicate DefaultFor(g: Graph, n: NodeId, i: nat, k: string, d: Doc) {
    && n in g && i < |g[n].props| && g[n].props[i].key == k
    && g[n].props[i].slot.Some? && g[n].props[i].slot.value in g && g[g[n].props[i].slot.value].dflt == Some(d)
  }

  ghost predicate FromSchema(g: Graph, c: Ctx, valid: string -> bool, start: Pair, b: Heap, after: Heap, next: Loc, l: Loc, k: string, v: Val) {
    exists n: NodeId, i: nat, d: Doc, from: Loc ::
      Applies(g, c, valid, after, start, (n, l)) && DefaultFor(g, n, i, k, d) && next <= from && Held(b, v, d, from)
  }

  /**
   `b` has each container as it was found, or as it was copied from a default; whatever else is in `after` is
   the default of a schema that applies to the object.
   */
  ghost predicate Explained(g: Graph, c: Ctx, valid: string -> bool, start: Pair, h: Heap, next: Loc, b: Heap, after: Heap) {
    && Extends(h, b, next) && b.Keys == after.Keys && Grows(b, after)
    && forall l, k :: Added(b, after, l, k) ==> FromSchema(g, c, valid, start, b, after, next, l, k, after[l].m[k])
  }

  lemma LedNext(g: Graph, c: Ctx, valid: string -> bool, root: NodeId, h: Heap, a: Pair, b: Pair)
    requires Compiled(g, c, valid, root) && Led(c, h, a, b)
    ensures Next(g, c, valid, h, a, b)
  {
    hide Compiled, PlanOf, IsAdditional, Matched;
    InGraph(g, c, valid, root, a.0);
    var p, s := c.plans[a.0], g[a.0];
    PlanParts(g, a.0, valid);
    if i :| 0 <= i < |p.below| && p.below[i].slot == Some(b.0) && HasRef(h, a.1, p.below[i].key, b.1) {
      assert s.props[i].slot == Some(b.0);
    } else if i: nat :| ElemSlot(p, i) == Some(b.0) && ElemAt(h, a.1, i) == Some(Ref(b.1)) {
      assert (if i < |s.prefixItems| then s.prefixItems[i] else s.items) == Some(b.0);
    } else if k, i :| 0 <= i < |p.patterns| && p.patterns[i].slot == Some(b.0) && c.matches(p.patterns[i].key, k) && HasRef(h, a.1, k, b.1) {
      var j := PatternWritten(g, valid, a.0, i);
      assert s.patterns[j].slot == Some(b.0);
    } else if p.extra == Some(b.0) && exists k :: !Matched(c, p, k) && k !in p.declared && HasRef(h, a.1, k, b.1) {
      var k :| !Matched(c, p, k) && k !in p.declared && HasRef(h, a.1, k, b.1);
      ExtraAdditional(g, c, valid, a.0, k);
    } else if i :| 0 <= i < |p.also| && p.also[i] == Some(b.0) && b.1 == a.1 {
      if i > 0 { assert s.allOf[i - 1] == Some(b.0); }
    } else {
      var i :| 0 <= i < |p.dependent| && p.dependent[i].slot == Some(b.0) && MemberAt(h, a.1, p.dependent[i].key).Some?;
      assert s.dependents[i].slot == Some(b.0);
    }
  }

  /** The places of a plan, against those of its schema. */
  lemma PlanParts(g: Graph, n: NodeId, valid: string -> bool)
    requires n in g
    ensures var p, s := PlanOf(g, n, valid), g[n];
      && |p.below| == |s.props| && (forall i :: 0 <= i < |p.below| ==> p.below[i] == Property(s.props[i].key, Kept(g, s.props[i].slot)))
      && |p.dependent| == |s.dependents| && (forall i :: 0 <= i < |p.dependent| ==> p.dependent[i] == Property(s.dependents[i].key, Kept(g, s.dependents[i].slot)))
      && |p.tuple| == |s.prefixItems| && (forall i :: 0 <= i < |p.tuple| ==> p.tuple[i] == Kept(g, s.prefixItems[i])) && p.each == Kept(g, s.items)
      && p.extra == Kept(g, s.additional)
      && |p.also| == |s.allOf| + 1 && p.also[0] == Kept(g, s.ref) && (forall i :: 0 < i < |p.also| ==> p.also[i] == Kept(g, s.allOf[i - 1]))
      && p.own == OwnDefaults(g, s.props)
    ensures forall s: Slot :: Kept(g, s).Some? ==> Kept(g, s) == s
  {
    hide Kept, OwnDefaults, Usable;
    forall s: Slot | Kept(g, s).Some? ensures Kept(g, s) == s { KeptIs(g, s); }
  }

  lemma KeptIs(g: Graph, s: Slot)
    ensures Kept(g, s).Some? ==> Kept(g, s) == s
  {
  }

  lemma PatternWritten(g: Graph, valid: string -> bool, n: NodeId, i: nat) returns (j: nat)
    requires n in g && i < |PlanOf(g, n, valid).patterns|
    ensures var p, s := PlanOf(g, n, valid), g[n]; j < |s.patterns| && valid(s.patterns[j].key) && p.patterns[i] == Property(s.patterns[j].key, Kept(g, s.patterns[j].slot))
  {
    var all := WithSlots(g[n].patterns, KeptAll(g, SlotsOf(g[n].patterns)));
    UsableMeans(all, valid);
    var q := PlanOf(g, n, valid).patterns[i];
    assert q in PlanOf(g, n, valid).patterns;
    j :| 0 <= j < |all| && all[j] == q;
  }

  lemma ExtraAdditional(g: Graph, c: Ctx, valid: string -> bool, n: NodeId, k: string)
    requires n in g && !Matched(c, PlanOf(g, n, valid), k) && k !in PlanOf(g, n, valid).declared
    ensures IsAdditional(g[n], c, valid, k)
  {
    var s, p := g[n], PlanOf(g, n, valid);
    forall i | 0 <= i < |s.patterns| && valid(s.patterns[i].key) ensures !c.matches(s.patterns[i].key, k) {
      var j := PatternPlanned(g, valid, n, i);
      assert !c.matches(p.patterns[j].key, k);
    }
  }

  lemma ReachedApplies(g: Graph, c: Ctx, valid: string -> bool, root: NodeId, h: Heap, start: Pair, a: Pair)
    requires Compiled(g, c, valid, root) && Reached(c, h, start, a)
    ensures Applies(g, c, valid, h, start, a)
  {
    hide Compiled, Led, Next;
    var chain :| Steps(c, h, chain) && chain[0] == start && chain[|chain| - 1] == a;
    forall i, j | 0 <= i < j < |chain| && j == i + 1 ensures Next(g, c, valid, h, chain[i], chain[j]) { LedNext(g, c, valid, root, h, chain[i], chain[j]); }
    assert NextSteps(g, c, valid, h, chain);
  }

  lemma {:induction false} OwnFrom(g: Graph, n: NodeId, j: nat, i: nat) returns (at: nat)
    requires n in g && j <= |g[n].props| && i < |OwnDefaults(g, g[n].props[..j])|
    ensures DefaultFor(g, n, at, OwnDefaults(g, g[n].props[..j])[i].0, OwnDefaults(g, g[n].props[..j])[i].1)
  {
    var ps := g[n].props[..j];
    if j > 0 {
      assert ps[..j - 1] == g[n].props[..j - 1];
      if i < |OwnDefaults(g, ps[..j - 1])| { at := OwnFrom(g, n, j - 1, i); } else { at := j - 1; }
    }
  }

  /** Every member the pass adds is the default of a schema that applies to the object, copied. */
  lemma RunExplained(g: Graph, c: Ctx, valid: string -> bool, h: Heap, next: Loc, root: NodeId, l: Loc) returns (b: Heap)
    requires Compiled(g, c, valid, root) && StOk(Start(h, next))
    ensures Explained(g, c, valid, (root, l), h, next, b, Run(c, h, next, root, Ref(l)).heap)
  {
    hide Compiled, Apply, Reached, StOk, Extends, Grows, Held;
    var first, start := Start(h, next), (root, l);
    StartBorn(c, first, start);
    ReachedStart(c, h, start);
    b := ApplyBorn(c, first, start, h, first, root, Ref(l), 0, [], None);
    var st := Run(c, h, next, root, Ref(l));
    forall x, k | Added(b, st.heap, x, k) ensures FromSchema(g, c, valid, start, b, st.heap, next, x, k, st.heap[x].m[k]) {
      assert Supplied(c, st.log, b, x, k, st.heap[x].m[k], next);
      var a: Pair, i: nat, from: Loc :| a in st.log && a.1 == x && next <= from && Supplies(c, b, a, i, k, st.heap[x].m[k], from);
      ReachedApplies(g, c, valid, root, st.heap, start, a);
      InGraph(g, c, valid, root, a.0);
      var ps := g[a.0].props;
      assert ps[..|ps|] == ps;
      var at := OwnFrom(g, a.0, |ps|, i);
    }
  }

  lemma StartBorn(c: Ctx, first: St, start: Pair)
    requires StOk(first) && first.log == {}
    ensures Born(c, first, start, first.heap, first)
  {
  }
}
