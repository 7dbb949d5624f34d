/**
 Inside a value made from a default: every schema that applies there is carried out, but for those already
 applied around it (lib/defaults.js:169-199, 258-273).
 */
module DefaultsMade {
  import opened Json
  import opened SchemaGraph
  import opened DefaultsPass
  import opened DefaultsScalar
  import opened DefaultsCopy
  import DefaultsFilled

  /** A chain of applications through schemas with plans, no two alike and none of them barred. */
  ghost predicate Free(c: Ctx, h: Heap, chain: seq<Pair>, barred: set<NodeId>) {
    && chain != [] && Steps(c, h, chain)
    && (forall i :: 0 <= i < |chain| ==> chain[i].0 in c.plans && chain[i].0 !in barred)
    && forall i, j :: 0 <= i < j < |chain| ==> chain[i].0 != chain[j].0
  }

  /** The defaults of the last schema of the chain are there. */
  predicate FilledEnd(c: Ctx, h: Heap, chain: seq<Pair>) {
    chain != [] && chain[|chain| - 1].0 in c.plans ==> Filled(h, chain[|chain| - 1].1, c.plans[chain[|chain| - 1].0].own)
  }

  lemma FreeTail(c: Ctx, h: Heap, chain: seq<Pair>, barred: set<NodeId>)
    requires Free(c, h, chain, barred) && |chain| > 1
    ensures Free(c, h, chain[1..], barred + {chain[0].0}) && Led(c, h, chain[0], chain[1])
  {
    hide Led;
    var tail := chain[1..];
    forall i, j | 0 <= i < j < |tail| && j == i + 1 ensures Led(c, h, tail[i], tail[j]) { assert Led(c, h, chain[i + 1], chain[j + 1]); }
    assert Led(c, h, chain[0], chain[1]);
  }

  lemma FilledEndMore(c: Ctx, h: Heap, h0: Heap, h1: Heap, chain: seq<Pair>)
    requires FilledEnd(c, h0, chain) && Grows(h, h0) && Grows(h0, h1) && chain != [] && chain[|chain| - 1].1 in h
    ensures FilledEnd(c, h1, chain)
  {
    hide Filled;
    var a := chain[|chain| - 1];
    if a.0 in c.plans { DefaultsFilled.FilledMore(h0, h1, a.1, c.plans[a.0].own); }
  }

  // ---------------------------------------------------------------- growth, and the bound once met

  lemma NoDocument(c: Ctx, st: St)
    requires StOk(st)
    ensures DefaultsFilled.Base(map[], st)
    ensures st.hit ==> DefaultsFilled.Runs(c, map[], st, {})
  {
  }

  lemma AllKeep(c: Ctx, st: St, apps: seq<App>, depth: nat, path: seq<NodeId>)
    requires StOk(st)
    ensures var st' := ApplyAll(c, st, apps, depth, path); StOk(st') && Grows(st.heap, st'.heap) && (st.hit ==> st'.hit)
  {
    hide ApplyAll, Grows, DefaultsFilled.Runs, DefaultsFilled.Base, StOk;
    GrowsParts(c, st, apps, depth, path);
    if st.hit {
      NoDocument(c, st);
      DefaultsFilled.AllRun(c, map[], st, apps, depth, path, {});
    }
  }

  lemma GrowsParts(c: Ctx, st: St, apps: seq<App>, depth: nat, path: seq<NodeId>)
    requires StOk(st)
    ensures var st' := ApplyAll(c, st, apps, depth, path); StOk(st') && Grows(st.heap, st'.heap)
  {
    hide ApplyAll;
    ApplyAllGrows(c, st, apps, depth, path);
  }

  lemma OneKeeps(c: Ctx, st: St, n: NodeId, v: Val, depth: nat, path: seq<NodeId>, made: Option<set<NodeId>>)
    requires StOk(st)
    ensures var st' := Apply(c, st, n, v, depth, path, made); StOk(st') && Grows(st.heap, st'.heap) && (st.hit ==> st'.hit)
  {
    hide Apply, DefaultsFilled.Runs, DefaultsFilled.Base;
    ApplyGrows(c, st, n, v, depth, path, made);
    if st.hit {
      NoDocument(c, st);
      DefaultsFilled.ApplyRuns(c, map[], st, n, v, depth, path, made, {});
    }
  }

  lemma OwnFilled(st: St, l: Loc, own: seq<(string, Doc)>)
    requires StOk(st)
    ensures var st' := FillOwn(st, l, own).0; StOk(st') && Grows(st.heap, st'.heap) && Filled(st'.heap, l, own) && st'.hit == st.hit
  {
    hide FillOwn, Filled, Grows;
    assert DefaultsFilled.Base(map[], st);
    DefaultsFilled.FillBase(map[], st, l, own);
    FillOwnSilent(st, l, own);
  }

  lemma ResolveGrows(h0: Heap, h1: Heap, t: Target, x: Loc)
    requires Grows(h0, h1) && Resolve(h0, t) == Some(Ref(x))
    ensures Resolve(h1, t) == Some(Ref(x))
  {
    if t.l in h0 { assert CellGrows(h0[t.l], h1[t.l]); }
  }

  // ---------------------------------------------------------------- which application of the lists it is

  /** The applications a body makes, list by list. */
  function Lists(c: Ctx, st: St, p: Plan, l: Loc, novel: set<string>, path: seq<NodeId>, made: Option<set<NodeId>>): seq<seq<App>> {
    [BelowApps(p, l, novel, path, made), InsideApps(c, st, p, l, made), DependentApps(p, l, made), AlsoApps(p, l, made)]
  }

  predicate Lands(h: Heap, app: App, b: Pair, made: Option<set<NodeId>>) {
    app.slot == Some(b.0) && Resolve(h, app.target) == Some(Ref(b.1)) && app.made == made
  }

  /** What an application leads to is one of those its body makes. */
  lemma Listed(c: Ctx, h: Heap, st: St, n: NodeId, l: Loc, novel: set<string>, path: seq<NodeId>, s: set<NodeId>, b: Pair) returns (k: nat, i: nat)
    requires n in c.plans && HeapOk(h) && HeapOk(st.heap) && Grows(h, st.heap) && Led(c, h, (n, l), b)
    ensures var ls := Lists(c, st, c.plans[n], l, novel, path, Some(s)); k < 4 && i < |ls[k]| && Lands(h, ls[k][i], b, Some(s))
  {
    hide InsideApps, Matched, HeapOk, Grows;
    var p := c.plans[n];
    if j :| 0 <= j < |p.below| && p.below[j].slot == Some(b.0) && HasRef(h, l, p.below[j].key, b.1) {
      k, i := 0, j;
    } else if j: nat :| ElemSlot(p, j) == Some(b.0) && ElemAt(h, l, j) == Some(Ref(b.1)) {
      k := 1;
      i := InsideListed(c, h, st, n, l, s, b, "", j);
    } else if x, j :| 0 <= j < |p.patterns| && p.patterns[j].slot == Some(b.0) && c.matches(p.patterns[j].key, x) && HasRef(h, l, x, b.1) {
      k := 1;
      i := InsideListed(c, h, st, n, l, s, b, x, j);
    } else if p.extra == Some(b.0) && exists x :: !Matched(c, p, x) && x !in p.declared && HasRef(h, l, x, b.1) {
      var x :| !Matched(c, p, x) && x !in p.declared && HasRef(h, l, x, b.1);
      k := 1;
      i := InsideListed(c, h, st, n, l, s, b, x, 0);
    } else if j :| 0 <= j < |p.also| && p.also[j] == Some(b.0) && b.1 == l {
      k, i := 3, j;
    } else {
      var j :| 0 <= j < |p.dependent| && p.dependent[j].slot == Some(b.0) && MemberAt(h, l, p.dependent[j].key).Some?;
      k, i := 2, j;
    }
  }

  lemma InsideListed(c: Ctx, h: Heap, st: St, n: NodeId, l: Loc, s: set<NodeId>, b: Pair, x: string, j: nat) returns (i: nat)
    requires n in c.plans && HeapOk(h) && HeapOk(st.heap) && Grows(h, st.heap)
    requires var p := c.plans[n];
      || (ElemSlot(p, j) == Some(b.0) && ElemAt(h, l, j) == Some(Ref(b.1)))
      || (j < |p.patterns| && p.patterns[j].slot == Some(b.0) && c.matches(p.patterns[j].key, x) && HasRef(h, l, x, b.1))
      || (p.extra == Some(b.0) && !Matched(c, p, x) && x !in p.declared && HasRef(h, l, x, b.1))
    ensures var apps := InsideApps(c, st, c.plans[n], l, Some(s)); i < |apps| && Lands(h, apps[i], b, Some(s))
  {
    hide KeyApps, Matched;
    var p := c.plans[n];
    assert CellGrows(h[l], st.heap[l]);
    var apps := InsideApps(c, st, p, l, Some(s));
    if ElemSlot(p, j) == Some(b.0) && ElemAt(h, l, j) == Some(Ref(b.1)) {
      i := j;
    } else {
      assert x in st.heap[l].m && x in st.heap[l].keys;
      DefaultsFilled.KeyAppsAll(c, p, l, st.heap[l].keys, Some(s));
      var app := if j < |p.patterns| && p.patterns[j].slot == Some(b.0) && c.matches(p.patterns[j].key, x) then App(p.patterns[j].slot, Member(l, x), Some(s)) else App(p.extra, Member(l, x), Some(s));
      assert Keyed(p) && app in apps;
      i :| 0 <= i < |apps| && apps[i] == app;
    }
  }

  // ---------------------------------------------------------------- all of it is carried out

  /** In a made value: each schema a free chain leads to has its defaults there. */
  lemma {:induction false} MadeFilled(c: Ctx, st: St, n: NodeId, l: Loc, depth: nat, path: seq<NodeId>, barred: set<NodeId>, h: Heap, chain: seq<Pair>)
    requires StOk(st) && HeapOk(h) && Grows(h, st.heap) && Free(c, h, chain, barred) && chain[0] == (n, l) && chain[|chain| - 1].1 in h
    requires !Apply(c, st, n, Ref(l), depth, path, Some(barred)).hit
    ensures FilledEnd(c, Apply(c, st, n, Ref(l), depth, path, Some(barred)).heap, chain)
    decreases if depth > c.limit then 0 else c.limit + 1 - depth, 2, 0
  {
    hide Body, Grows, StOk, HeapOk, FilledEnd, Steps;
    assert chain[0].0 in c.plans && chain[0].0 !in barred;
    BodyFilled(c, st, n, l, depth, path, barred, h, chain);
  }

  lemma {:induction false} BodyFilled(c: Ctx, st: St, n: NodeId, l: Loc, depth: nat, path: seq<NodeId>, barred: set<NodeId>, h: Heap, chain: seq<Pair>)
    requires StOk(st) && HeapOk(h) && Grows(h, st.heap) && Free(c, h, chain, barred) && chain[0] == (n, l) && chain[|chain| - 1].1 in h
    requires n in c.plans && depth <= c.limit && !Body(c, st, n, l, depth, path, Some(barred + {n})).hit
    ensures FilledEnd(c, Body(c, st, n, l, depth, path, Some(barred + {n})).heap, chain)
    decreases c.limit + 1 - depth, 1, 0
  {
    hide FillOwn, ApplyAll, BelowApps, InsideApps, DependentApps, AlsoApps, Grows, StOk, Led, Steps, Filled;
    var p, s := c.plans[n], barred + {n};
    var logged := st.(log := st.log + {(n, l)});
    Relogged(st, logged);
    var (st1, novel) := FillOwn(logged, l, p.own);
    OwnFilled(logged, l, p.own);
    var below := BelowApps(p, l, novel, path, Some(s));
    var st2 := ApplyAll(c, st1, below, depth + 1, path);
    AllKeep(c, st1, below, depth + 1, path);
    var inside := InsideApps(c, st2, p, l, Some(s));
    var st3 := ApplyAll(c, st2, inside, depth + 1, path);
    AllKeep(c, st2, inside, depth + 1, path);
    var dependent := DependentApps(p, l, Some(s));
    var st4 := ApplyAll(c, st3, dependent, depth + 1, path);
    AllKeep(c, st3, dependent, depth + 1, path);
    var also := AlsoApps(p, l, Some(s));
    var st5 := ApplyAll(c, st4, also, depth + 1, path);
    AllKeep(c, st4, also, depth + 1, path);
    DefaultsFilled.GrowsTwice(h, logged.heap, st1.heap);
    DefaultsFilled.GrowsTwice(h, st1.heap, st2.heap);
    DefaultsFilled.GrowsTwice(h, st2.heap, st3.heap);
    DefaultsFilled.GrowsTwice(h, st3.heap, st4.heap);
    DefaultsFilled.GrowsTwice(st3.heap, st4.heap, st5.heap);
    DefaultsFilled.GrowsTwice(st2.heap, st3.heap, st5.heap);
    DefaultsFilled.GrowsTwice(st1.heap, st2.heap, st5.heap);
    if |chain| == 1 {
      assert FilledEnd(c, st1.heap, chain);
      FilledEndMore(c, h, st1.heap, st5.heap, chain);
    } else {
      FreeTail(c, h, chain, barred);
      var tail := chain[1..];
      HeapsOk(st2);
      var k, i := Listed(c, h, st2, n, l, novel, path, s, chain[1]);
      if k == 0 {
        AllFilled(c, st1, below, i, depth + 1, path, s, h, tail);
        FilledEndMore(c, h, st2.heap, st5.heap, tail);
      } else if k == 1 {
        AllFilled(c, st2, inside, i, depth + 1, path, s, h, tail);
        FilledEndMore(c, h, st3.heap, st5.heap, tail);
      } else if k == 2 {
        AllFilled(c, st3, dependent, i, depth + 1, path, s, h, tail);
        FilledEndMore(c, h, st4.heap, st5.heap, tail);
      } else {
        AllFilled(c, st4, also, i, depth + 1, path, s, h, tail);
      }
      assert tail[|tail| - 1] == chain[|chain| - 1];
    }
  }

  lemma Relogged(st: St, logged: St)
    requires StOk(st) && logged == st.(log := logged.log)
    ensures StOk(logged)
  {
  }

  lemma HeapsOk(st: St)
    requires StOk(st)
    ensures HeapOk(st.heap)
  {
  }

  lemma {:induction false} AllFilled(c: Ctx, st: St, apps: seq<App>, i: nat, depth: nat, path: seq<NodeId>, s: set<NodeId>, h: Heap, tail: seq<Pair>)
    requires StOk(st) && HeapOk(h) && Grows(h, st.heap) && Free(c, h, tail, s) && tail[|tail| - 1].1 in h
    requires i < |apps| && Lands(h, apps[i], tail[0], Some(s)) && !ApplyAll(c, st, apps, depth, path).hit
    ensures FilledEnd(c, ApplyAll(c, st, apps, depth, path).heap, tail)
    decreases if depth > c.limit then 0 else c.limit + 1 - depth, 3, |apps|
  {
    hide Apply, Grows, StOk, HeapOk, Steps, FilledEnd, Resolve;
    var init, a := apps[..|apps| - 1], apps[|apps| - 1];
    var st1 := ApplyAll(c, st, init, depth, path);
    AllKeep(c, st, init, depth, path);
    DefaultsFilled.GrowsTwice(h, st.heap, st1.heap);
    var v := Resolve(st1.heap, a.target);
    if a.slot.Some? && v.Some? { OneKeeps(c, st1, a.slot.value, v.value, depth, path, a.made); }
    if i < |init| {
      AllFilled(c, st, init, i, depth, path, s, h, tail);
      if a.slot.Some? && v.Some? { FilledEndMore(c, h, st1.heap, ApplyAll(c, st, apps, depth, path).heap, tail); }
    } else {
      ResolveGrows(h, st1.heap, a.target, tail[0].1);
      MadeFilled(c, st1, tail[0].0, tail[0].1, depth, path, s, h, tail);
    }
  }

  // ---------------------------------------------------------------- where a value is made

  lemma {:induction false} NovelNamed(st: St, l: Loc, own: seq<(string, Doc)>, j: nat)
    requires StOk(st) && l in st.heap && st.heap[l].ObjCell? && j < |own| && !own[j].1.DScalar? && own[j].0 !in st.heap[l].m
    requires forall x :: 0 <= x < j ==> own[x].0 != own[j].0
    ensures own[j].0 in FillOwn(st, l, own).1
    decreases |own|
  {
    hide StOk, Grows, Copy;
    var init := own[..|own| - 1];
    if j < |init| {
      NovelNamed(st, l, init, j);
    } else {
      NotWritten(st, l, init, own[j].0);
      CopyMakes(FillOwn(st, l, init).0, own[j].1);
    }
  }

  lemma CopyMakes(st: St, d: Doc)
    ensures Copy(st, d).1.Ref? <==> !d.DScalar?
  {
  }

  lemma NotWritten(st: St, l: Loc, own: seq<(string, Doc)>, k: string)
    requires StOk(st) && l in st.heap && st.heap[l].ObjCell? && k !in st.heap[l].m && forall x :: 0 <= x < |own| ==> own[x].0 != k
    ensures var h := FillOwn(st, l, own).0.heap; l in h && h[l].ObjCell? && k !in h[l].m
  {
    hide StOk;
    FillOrder(st, l, own);
    LackingFrom(own, st.heap[l].m.Keys);
    FillOwnGrows(st, l, own);
    KeysAt(st, l);
    KeysAt(FillOwn(st, l, own).0, l);
  }

  lemma {:induction false} LackingFrom(own: seq<(string, Doc)>, have: set<string>)
    ensures forall k :: k in Lacking(own, have) ==> exists i :: 0 <= i < |own| && own[i].0 == k
    decreases |own|
  {
    if own != [] {
      LackingFrom(own[..|own| - 1], have);
      assert own[|own| - 1].0 == own[|own| - 1].0;
    }
  }

  /**
   Where an object or array default is written at an object of the document, the schema it stands under is
   applied inside it, and so is every schema that leads on, but for those applied to the enclosing values.
   */
  lemma NovelFilled(c: Ctx, st: St, n: NodeId, l: Loc, depth: nat, path: seq<NodeId>, i: nat, j: nat, chain: seq<Pair>)
    requires StOk(st) && n in c.plans && depth <= c.limit && l in st.heap && st.heap[l].ObjCell?
    requires var own := c.plans[n].own; j < |own| && !own[j].1.DScalar? && own[j].0 !in st.heap[l].m && forall x :: 0 <= x < j ==> own[x].0 != own[j].0
    requires i < |c.plans[n].below| && c.plans[n].below[i].key == c.plans[n].own[j].0
    requires var h := FillOwn(st.(log := st.log + {(n, l)}), l, c.plans[n].own).0.heap;
      Free(c, h, chain, set x | 0 <= x < |path| :: path[x]) && c.plans[n].below[i].slot == Some(chain[0].0) && HasRef(h, l, c.plans[n].below[i].key, chain[0].1)
      && chain[|chain| - 1].1 in h
    requires !Body(c, st, n, l, depth, path, None).hit
    ensures FilledEnd(c, Body(c, st, n, l, depth, path, None).heap, chain)
  {
    hide FillOwn, ApplyAll, InsideApps, DependentApps, AlsoApps, Grows, StOk, Free, FilledEnd;
    var p, s := c.plans[n], set x | 0 <= x < |path| :: path[x];
    var logged := st.(log := st.log + {(n, l)});
    Relogged(st, logged);
    NovelNamed(logged, l, p.own, j);
    var (st1, novel) := FillOwn(logged, l, p.own);
    OwnFilled(logged, l, p.own);
    HeapsOk(st1);
    var below := BelowApps(p, l, novel, path, None);
    FreeSome(c, st1.heap, chain, s);
    assert Lands(st1.heap, below[i], chain[0], Some(s));
    var st2 := ApplyAll(c, st1, below, depth + 1, path);
    AllKeep(c, st1, below, depth + 1, path);
    var inside := InsideApps(c, st2, p, l, None);
    var st3 := ApplyAll(c, st2, inside, depth + 1, path);
    AllKeep(c, st2, inside, depth + 1, path);
    var dependent := DependentApps(p, l, None);
    var st4 := ApplyAll(c, st3, dependent, depth + 1, path);
    AllKeep(c, st3, dependent, depth + 1, path);
    var st5 := ApplyAll(c, st4, AlsoApps(p, l, None), depth + 1, path);
    AllKeep(c, st4, AlsoApps(p, l, None), depth + 1, path);
    DefaultsFilled.GrowsSelf(st1.heap);
    AllFilled(c, st1, below, i, depth + 1, path, s, st1.heap, chain);
    DefaultsFilled.GrowsTwice(st3.heap, st4.heap, st5.heap);
    DefaultsFilled.GrowsTwice(st2.heap, st3.heap, st5.heap);
    FilledEndMore(c, st1.heap, st2.heap, st5.heap, chain);
  }

  lemma FreeSome(c: Ctx, h: Heap, chain: seq<Pair>, s: set<NodeId>)
    requires Free(c, h, chain, s)
    ensures chain != []
  {
  }
}
