/**
 The generated defaults pass (`emitDefaults` in lib/codegen-engine.js): a program with every
 reference written out at its use, and why it leaves the document the closure pass leaves.
 */
module DefaultsEmit {
  import opened Json
  import opened SchemaGraph
  import opened DefaultsPass
  import opened DefaultsScalar
  import opened DefaultsDepth
  import opened DefaultsCost

  // ---------------------------------------------------------------- emitted programs

  /**
   The block written for one schema object on one container: per property, the default and the block
   entered through it; blocks for elements by position and after them; the block for keys not declared;
   the blocks of `$ref` and `allOf`, on the same container.
   */
  datatype Prog = Prog(steps: seq<Step>, tuple: seq<OptProg>, rest: OptProg, declared: seq<string>, extra: OptProg, also: seq<OptProg>)
  datatype Step = Step(key: string, dflt: Option<Doc>, inner: OptProg)
  datatype OptProg = NoProg | Sub(p: Prog)

  /** A block and the container it is run on, read when its turn comes. */
  datatype Call = Call(op: OptProg, target: Target)

  ghost predicate Within(calls: seq<Call>, parent: Prog) {
    forall i :: 0 <= i < |calls| && calls[i].op.Sub? ==> calls[i].op.p < parent
  }

  function EnterCalls(p: Prog, l: Loc): seq<Call> {
    seq(|p.steps|, i requires 0 <= i < |p.steps| => Call(p.steps[i].inner, Member(l, p.steps[i].key)))
  }

  function ElemOp(p: Prog, i: nat): OptProg {
    if i < |p.tuple| then p.tuple[i] else p.rest
  }

  function ElemCalls(p: Prog, l: Loc, n: nat): seq<Call> {
    seq(n, i requires 0 <= i < n => Call(ElemOp(p, i), Elem(l, i)))
  }

  function KeyCalls(p: Prog, l: Loc, keys: seq<string>): seq<Call> {
    if keys == [] then []
    else
      var init, k := KeyCalls(p, l, keys[..|keys| - 1]), keys[|keys| - 1];
      if k in p.declared then init else init + [Call(p.extra, Member(l, k))]
  }

  function InsideCalls(p: Prog, l: Loc, h: Heap): seq<Call> {
    if l !in h then []
    else
      match h[l]
      case ArrCell(a) => ElemCalls(p, l, |a|)
      case ObjCell(keys, _) => if p.extra.Sub? then KeyCalls(p, l, keys) else []
  }

  function AlsoCalls(p: Prog, l: Loc): seq<Call> {
    seq(|p.also|, i requires 0 <= i < |p.also| => Call(p.also[i], Self(l)))
  }

  lemma {:induction false} KeyCallsOps(p: Prog, l: Loc, keys: seq<string>)
    ensures forall i :: 0 <= i < |KeyCalls(p, l, keys)| ==> KeyCalls(p, l, keys)[i].op == p.extra
    decreases |keys|
  {
    if keys != [] { KeyCallsOps(p, l, keys[..|keys| - 1]); }
  }

  lemma CallsWithin(p: Prog, l: Loc, h: Heap)
    ensures Within(EnterCalls(p, l), p) && Within(InsideCalls(p, l, h), p) && Within(AlsoCalls(p, l), p)
  {
    forall i | 0 <= i < |p.steps| && p.steps[i].inner.Sub? ensures p.steps[i].inner.p < p {
      assert p.steps[i] in p.steps;
      assert p.steps[i].inner < p.steps[i];
    }
    if l in h && h[l].ObjCell? { KeyCallsOps(p, l, h[l].keys); }
  }

  /** A scalar default written where the key is absent. */
  function FillKey(h: Heap, l: Loc, k: string, d: Option<Doc>): Heap {
    if d.Some? && d.value.DScalar? && l in h && h[l].ObjCell? && k !in h[l].m
    then h[l := SetMember(h[l], k, Prim(d.value.v))] else h
  }

  function FillSteps(steps: seq<Step>, l: Loc, h: Heap): Heap {
    if steps == [] then h
    else FillKey(FillSteps(steps[..|steps| - 1], l, h), l, steps[|steps| - 1].key, steps[|steps| - 1].dflt)
  }

  /**
   Running a block. As emitted (`inline`), each property's default is written and its block entered before
   the next property; the closure pass writes all of a node's defaults before it enters any.
   */
  ghost function Exec(p: Prog, l: Loc, h: Heap, inline: bool): Heap
    decreases p, 3, 0
  {
    CallsWithin(p, l, h);
    var h1 := if inline then ExecSteps(p, |p.steps|, l, h) else ExecAll(EnterCalls(p, l), FillSteps(p.steps, l, h), p, inline);
    CallsWithin(p, l, h1);
    var h2 := ExecAll(InsideCalls(p, l, h1), h1, p, inline);
    ExecAll(AlsoCalls(p, l), h2, p, inline)
  }

  ghost function ExecSteps(p: Prog, i: nat, l: Loc, h: Heap): Heap
    requires i <= |p.steps|
    decreases p, 2, i
  {
    if i == 0 then h
    else
      var h1 := FillKey(ExecSteps(p, i - 1, l, h), l, p.steps[i - 1].key, p.steps[i - 1].dflt);
      CallsWithin(p, l, h);
      ExecCall(EnterCalls(p, l)[i - 1], h1, p, true)
  }

  ghost function ExecCall(call: Call, h: Heap, parent: Prog, inline: bool): Heap
    requires call.op.Sub? ==> call.op.p < parent
    decreases parent, 0, 0
  {
    match Resolve(h, call.target)
    case Some(Ref(x)) => if call.op.Sub? then Exec(call.op.p, x, h, inline) else h
    case _ => h
  }

  ghost function ExecAll(calls: seq<Call>, h: Heap, parent: Prog, inline: bool): Heap
    requires Within(calls, parent)
    decreases parent, 1, |calls|
  {
    if calls == [] then h
    else ExecCall(calls[|calls| - 1], ExecAll(calls[..|calls| - 1], h, parent, inline), parent, inline)
  }

  // ---------------------------------------------------------------- growth

  lemma FillKeyGrows(h: Heap, l: Loc, k: string, d: Option<Doc>)
    requires HeapOk(h)
    ensures ScalarGrowth(h, FillKey(h, l, k, d)) && HeapOk(FillKey(h, l, k, d))
  {
    GrowthReflexive(h);
    if FillKey(h, l, k, d) != h { SetScalarGrows(h, l, k, Prim(d.value.v)); }
  }

  lemma {:induction false} FillStepsGrows(steps: seq<Step>, l: Loc, h: Heap)
    requires HeapOk(h)
    ensures ScalarGrowth(h, FillSteps(steps, l, h)) && HeapOk(FillSteps(steps, l, h))
    decreases |steps|
  {
    GrowthReflexive(h);
    if steps != [] {
      var init, last := steps[..|steps| - 1], steps[|steps| - 1];
      FillStepsGrows(init, l, h);
      FillKeyGrows(FillSteps(init, l, h), l, last.key, last.dflt);
      GrowthChains(h, FillSteps(init, l, h), FillSteps(steps, l, h));
    }
  }

  lemma {:induction false} ExecGrows(p: Prog, l: Loc, h: Heap, inline: bool)
    requires HeapOk(h)
    ensures ScalarGrowth(h, Exec(p, l, h, inline)) && HeapOk(Exec(p, l, h, inline))
    decreases p, 3, 0
  {
    CallsWithin(p, l, h);
    FillStepsGrows(p.steps, l, h);
    if inline { ExecStepsGrow(p, |p.steps|, l, h); } else { ExecAllGrows(EnterCalls(p, l), FillSteps(p.steps, l, h), p, inline); }
    var h1 := if inline then ExecSteps(p, |p.steps|, l, h) else ExecAll(EnterCalls(p, l), FillSteps(p.steps, l, h), p, inline);
    if !inline { GrowthChains(h, FillSteps(p.steps, l, h), h1); }
    CallsWithin(p, l, h1);
    ExecAllGrows(InsideCalls(p, l, h1), h1, p, inline);
    var h2 := ExecAll(InsideCalls(p, l, h1), h1, p, inline);
    ExecAllGrows(AlsoCalls(p, l), h2, p, inline);
    GrowthChains(h, h1, h2);
    GrowthChains(h, h2, Exec(p, l, h, inline));
  }

  lemma {:induction false} ExecStepsGrow(p: Prog, i: nat, l: Loc, h: Heap)
    requires HeapOk(h) && i <= |p.steps|
    ensures ScalarGrowth(h, ExecSteps(p, i, l, h)) && HeapOk(ExecSteps(p, i, l, h))
    decreases p, 2, i
  {
    GrowthReflexive(h);
    if i > 0 {
      ExecStepsGrow(p, i - 1, l, h);
      var h0 := ExecSteps(p, i - 1, l, h);
      var h1 := FillKey(h0, l, p.steps[i - 1].key, p.steps[i - 1].dflt);
      FillKeyGrows(h0, l, p.steps[i - 1].key, p.steps[i - 1].dflt);
      CallsWithin(p, l, h);
      ExecCallGrows(EnterCalls(p, l)[i - 1], h1, p, true);
      GrowthChains(h, h0, h1);
      GrowthChains(h, h1, ExecSteps(p, i, l, h));
    }
  }

  lemma {:induction false} ExecCallGrows(call: Call, h: Heap, parent: Prog, inline: bool)
    requires HeapOk(h) && (call.op.Sub? ==> call.op.p < parent)
    ensures ScalarGrowth(h, ExecCall(call, h, parent, inline)) && HeapOk(ExecCall(call, h, parent, inline))
    decreases parent, 0, 0
  {
    GrowthReflexive(h);
    var v := Resolve(h, call.target);
    if call.op.Sub? && v.Some? && v.value.Ref? { ExecGrows(call.op.p, v.value.l, h, inline); }
  }

  lemma {:induction false} ExecAllGrows(calls: seq<Call>, h: Heap, parent: Prog, inline: bool)
    requires HeapOk(h) && Within(calls, parent)
    ensures ScalarGrowth(h, ExecAll(calls, h, parent, inline)) && HeapOk(ExecAll(calls, h, parent, inline))
    decreases parent, 1, |calls|
  {
    GrowthReflexive(h);
    if calls != [] {
      var init, last := calls[..|calls| - 1], calls[|calls| - 1];
      ExecAllGrows(init, h, parent, inline);
      var h1 := ExecAll(init, h, parent, inline);
      ExecCallGrows(last, h1, parent, inline);
      GrowthChains(h, h1, ExecAll(calls, h, parent, inline));
    }
  }

  // ---------------------------------------------------------------- documents without cycles

  predicate Framed(h: Heap, l0: Loc, c: Cell, rank: Loc -> nat) {
    HeapOk(h) && l0 in h && HeapOk(h[l0 := c]) && Acyclic(h, rank) && CellBelow(c, rank(l0), rank)
  }

  lemma FramedKept(h0: Heap, h1: Heap, l0: Loc, c: Cell, rank: Loc -> nat)
    requires ScalarGrowth(h0, h1) && HeapOk(h1) && Framed(h0, l0, c, rank)
    ensures Framed(h1, l0, c, rank)
  {
    AcyclicKept(h0, h1, rank);
    assert h0[l0 := c][l0] == c;
  }

  predicate TargetsAt(calls: seq<Call>, l: Loc) {
    forall i :: 0 <= i < |calls| ==> calls[i].target.l == l && !calls[i].target.SelfIf?
  }

  lemma {:induction false} KeyCallsAt(p: Prog, l: Loc, keys: seq<string>)
    ensures TargetsAt(KeyCalls(p, l, keys), l)
    decreases |keys|
  {
    if keys != [] { KeyCallsAt(p, l, keys[..|keys| - 1]); }
  }

  lemma CallsAt(p: Prog, l: Loc, h: Heap)
    ensures TargetsAt(EnterCalls(p, l), l) && TargetsAt(InsideCalls(p, l, h), l) && TargetsAt(AlsoCalls(p, l), l)
  {
    if l in h && h[l].ObjCell? { KeyCallsAt(p, l, h[l].keys); }
  }

  lemma {:induction false} FillStepsFrame(steps: seq<Step>, l: Loc, h: Heap, l0: Loc, c: Cell)
    requires l != l0 && l0 in h
    ensures FillSteps(steps, l, h[l0 := c]) == FillSteps(steps, l, h)[l0 := c]
    ensures l0 in FillSteps(steps, l, h) && FillSteps(steps, l, h)[l0] == h[l0]
    decreases |steps|
  {
    if steps != [] {
      var init, last := steps[..|steps| - 1], steps[|steps| - 1];
      FillStepsFrame(init, l, h, l0, c);
      FillKeyFrame(FillSteps(init, l, h), l, last.key, last.dflt, l0, c);
    }
  }

  lemma FillKeyFrame(h: Heap, l: Loc, k: string, d: Option<Doc>, l0: Loc, c: Cell)
    requires l != l0 && l0 in h
    ensures FillKey(h[l0 := c], l, k, d) == FillKey(h, l, k, d)[l0 := c]
    ensures l0 in FillKey(h, l, k, d) && FillKey(h, l, k, d)[l0] == h[l0]
  {
  }

  ghost predicate SameBut(h1: Heap, h2: Heap, h: Heap, l0: Loc, c: Cell)
    requires l0 in h
  {
    l0 in h2 && h1 == h2[l0 := c] && h2[l0] == h[l0]
  }

  /** A block run on a container below `l0` neither reads nor writes `l0`. */
  lemma {:induction false} ExecFrame(p: Prog, l: Loc, h: Heap, inline: bool, l0: Loc, c: Cell, rank: Loc -> nat)
    requires Framed(h, l0, c, rank) && rank(l) < rank(l0)
    ensures SameBut(Exec(p, l, h[l0 := c], inline), Exec(p, l, h, inline), h, l0, c)
    decreases p, 3, 0
  {
    hide ExecAll, EnterCalls, AlsoCalls, FillSteps, ExecSteps, Acyclic, ScalarGrowth;
    CallsWithin(p, l, h);
    CallsAt(p, l, h);
    var h1;
    if inline {
      ExecStepsFrame(p, |p.steps|, l, h, l0, c, rank);
      ExecStepsGrow(p, |p.steps|, l, h);
      h1 := ExecSteps(p, |p.steps|, l, h);
    } else {
      var f := FillSteps(p.steps, l, h);
      FillStepsFrame(p.steps, l, h, l0, c);
      FillStepsGrows(p.steps, l, h);
      FramedKept(h, f, l0, c, rank);
      ExecAllFrame(EnterCalls(p, l), f, p, inline, l, l0, c, rank);
      ExecAllGrows(EnterCalls(p, l), f, p, inline);
      h1 := ExecAll(EnterCalls(p, l), f, p, inline);
      GrowthChains(h, f, h1);
    }
    CallsWithin(p, l, h1);
    CallsAt(p, l, h1);
    FramedKept(h, h1, l0, c, rank);
    ExecAllFrame(InsideCalls(p, l, h1), h1, p, inline, l, l0, c, rank);
    ExecAllGrows(InsideCalls(p, l, h1), h1, p, inline);
    var h2 := ExecAll(InsideCalls(p, l, h1), h1, p, inline);
    FramedKept(h1, h2, l0, c, rank);
    ExecAllFrame(AlsoCalls(p, l), h2, p, inline, l, l0, c, rank);
    assert InsideCalls(p, l, h1[l0 := c]) == InsideCalls(p, l, h1);
  }

  lemma {:induction false} ExecStepsFrame(p: Prog, i: nat, l: Loc, h: Heap, l0: Loc, c: Cell, rank: Loc -> nat)
    requires Framed(h, l0, c, rank) && rank(l) < rank(l0) && i <= |p.steps|
    ensures SameBut(ExecSteps(p, i, l, h[l0 := c]), ExecSteps(p, i, l, h), h, l0, c)
    decreases p, 2, i
  {
    if i > 0 {
      ExecStepsFrame(p, i - 1, l, h, l0, c, rank);
      ExecStepsGrow(p, i - 1, l, h);
      var h0 := ExecSteps(p, i - 1, l, h);
      var h1 := FillKey(h0, l, p.steps[i - 1].key, p.steps[i - 1].dflt);
      FillKeyFrame(h0, l, p.steps[i - 1].key, p.steps[i - 1].dflt, l0, c);
      FillKeyGrows(h0, l, p.steps[i - 1].key, p.steps[i - 1].dflt);
      GrowthChains(h, h0, h1);
      FramedKept(h, h1, l0, c, rank);
      CallsWithin(p, l, h);
      ExecCallFrame(EnterCalls(p, l)[i - 1], h1, p, true, l, l0, c, rank);
    }
  }

  lemma {:induction false} ExecCallFrame(call: Call, h: Heap, parent: Prog, inline: bool, l: Loc, l0: Loc, c: Cell, rank: Loc -> nat)
    requires Framed(h, l0, c, rank) && rank(l) < rank(l0)
    requires (call.op.Sub? ==> call.op.p < parent) && call.target.l == l && !call.target.SelfIf?
    ensures SameBut(ExecCall(call, h[l0 := c], parent, inline), ExecCall(call, h, parent, inline), h, l0, c)
    decreases parent, 0, 0
  {
    var v := Resolve(h, call.target);
    assert Resolve(h[l0 := c], call.target) == v;
    if call.op.Sub? && v.Some? && v.value.Ref? {
      assert l in h ==> CellBelow(h[l], rank(l), rank);
      assert rank(v.value.l) <= rank(l);
      ExecFrame(call.op.p, v.value.l, h, inline, l0, c, rank);
    }
  }

  lemma {:induction false} ExecAllFrame(calls: seq<Call>, h: Heap, parent: Prog, inline: bool, l: Loc, l0: Loc, c: Cell, rank: Loc -> nat)
    requires Framed(h, l0, c, rank) && rank(l) < rank(l0) && Within(calls, parent) && TargetsAt(calls, l)
    ensures SameBut(ExecAll(calls, h[l0 := c], parent, inline), ExecAll(calls, h, parent, inline), h, l0, c)
    decreases parent, 1, |calls|
  {
    if calls != [] {
      var init, last := calls[..|calls| - 1], calls[|calls| - 1];
      ExecAllFrame(init, h, parent, inline, l, l0, c, rank);
      ExecAllGrows(init, h, parent, inline);
      var h1 := ExecAll(init, h, parent, inline);
      FramedKept(h, h1, l0, c, rank);
      ExecCallFrame(last, h1, parent, inline, l, l0, c, rank);
    }
  }

  // ---------------------------------------------------------------- the two orders agree

  /** Writing one more default first, or after entering a property, comes to the same. */
  lemma {:induction false} FillPastCall(call: Call, key: string, h: Heap, parent: Prog, l: Loc, k: string, d: Option<Doc>, rank: Loc -> nat)
    requires HeapOk(h) && Acyclic(h, rank) && (call.op.Sub? ==> call.op.p < parent) && call.target == Member(l, key)
    ensures FillKey(ExecCall(call, h, parent, false), l, k, d) == ExecCall(call, FillKey(h, l, k, d), parent, false)
  {
    FillKeyGrows(h, l, k, d);
    RefsKept(h, FillKey(h, l, k, d), l);
    var v := Resolve(h, call.target);
    if call.op.Sub? && v.Some? && v.value.Ref? {
      var x := v.value.l;
      assert HasRef(h, l, key, x);
      assert Resolve(FillKey(h, l, k, d), call.target) == Some(Ref(x));
      assert CellBelow(h[l], rank(l), rank);
      if FillKey(h, l, k, d) != h {
        var c := SetMember(h[l], k, Prim(d.value.v));
        assert Framed(h, l, c, rank);
        ExecFrame(call.op.p, x, h, false, l, c, rank);
      } else {
        ExecFrame(call.op.p, x, h, false, l, h[l], rank);
      }
    } else {
      assert !(exists x :: HasRef(h, l, key, x)) || call.op.NoProg? by {
        if x :| HasRef(h, l, key, x) { assert v == Some(Ref(x)); }
      }
      var w := Resolve(FillKey(h, l, k, d), call.target);
      if w.Some? && w.value.Ref? { assert HasRef(FillKey(h, l, k, d), l, key, w.value.l); }
    }
  }

  lemma {:induction false} FillPastCalls(p: Prog, i: nat, h: Heap, l: Loc, k: string, d: Option<Doc>, rank: Loc -> nat)
    requires HeapOk(h) && Acyclic(h, rank) && i <= |p.steps| && Within(EnterCalls(p, l)[..i], p)
    ensures FillKey(ExecAll(EnterCalls(p, l)[..i], h, p, false), l, k, d) == ExecAll(EnterCalls(p, l)[..i], FillKey(h, l, k, d), p, false)
    decreases i
  {
    if i > 0 {
      var calls := EnterCalls(p, l)[..i];
      assert calls[..i - 1] == EnterCalls(p, l)[..i - 1];
      FillPastCalls(p, i - 1, h, l, k, d, rank);
      var h1 := ExecAll(calls[..i - 1], h, p, false);
      ExecAllGrows(calls[..i - 1], h, p, false);
      AcyclicKept(h, h1, rank);
      FillPastCall(calls[i - 1], p.steps[i - 1].key, h1, p, l, k, d, rank);
    }
  }

  /** On a document without cycles, the emitted order leaves what the closure pass's order leaves. */
  lemma {:induction false} OrdersAgree(p: Prog, l: Loc, h: Heap, rank: Loc -> nat)
    requires HeapOk(h) && Acyclic(h, rank)
    ensures Exec(p, l, h, true) == Exec(p, l, h, false)
    decreases p, 3, 0
  {
    CallsWithin(p, l, h);
    StepsAgree(p, |p.steps|, l, h, rank);
    var f := FillSteps(p.steps, l, h);
    assert p.steps[..|p.steps|] == p.steps && EnterCalls(p, l)[..|p.steps|] == EnterCalls(p, l);
    var h1 := ExecSteps(p, |p.steps|, l, h);
    assert h1 == ExecAll(EnterCalls(p, l), f, p, false);
    ExecStepsGrow(p, |p.steps|, l, h);
    AcyclicKept(h, h1, rank);
    CallsWithin(p, l, h1);
    AllAgree(InsideCalls(p, l, h1), h1, p, rank);
    var h2 := ExecAll(InsideCalls(p, l, h1), h1, p, true);
    ExecAllGrows(InsideCalls(p, l, h1), h1, p, true);
    AcyclicKept(h1, h2, rank);
    AllAgree(AlsoCalls(p, l), h2, p, rank);
  }

  lemma {:induction false} StepsAgree(p: Prog, i: nat, l: Loc, h: Heap, rank: Loc -> nat)
    requires HeapOk(h) && Acyclic(h, rank) && i <= |p.steps| && Within(EnterCalls(p, l)[..i], p)
    ensures ExecSteps(p, i, l, h) == ExecAll(EnterCalls(p, l)[..i], FillSteps(p.steps[..i], l, h), p, false)
    decreases p, 2, i
  {
    if i > 0 {
      var calls, steps := EnterCalls(p, l)[..i], p.steps[..i];
      assert calls[..i - 1] == EnterCalls(p, l)[..i - 1] && steps[..i - 1] == p.steps[..i - 1];
      CallsWithin(p, l, h);
      StepsAgree(p, i - 1, l, h, rank);
      var s := p.steps[i - 1];
      var f := FillSteps(p.steps[..i - 1], l, h);
      FillStepsGrows(p.steps[..i - 1], l, h);
      AcyclicKept(h, f, rank);
      FillPastCalls(p, i - 1, f, l, s.key, s.dflt, rank);
      var g := FillKey(f, l, s.key, s.dflt);
      assert g == FillSteps(steps, l, h);
      FillKeyGrows(f, l, s.key, s.dflt);
      AcyclicKept(f, g, rank);
      var h1 := ExecAll(calls[..i - 1], g, p, false);
      ExecAllGrows(calls[..i - 1], g, p, false);
      AcyclicKept(g, h1, rank);
      CallAgrees(calls[i - 1], h1, p, rank);
    }
  }

  lemma {:induction false} CallAgrees(call: Call, h: Heap, parent: Prog, rank: Loc -> nat)
    requires HeapOk(h) && Acyclic(h, rank) && (call.op.Sub? ==> call.op.p < parent)
    ensures ExecCall(call, h, parent, true) == ExecCall(call, h, parent, false)
    decreases parent, 0, 0
  {
    var v := Resolve(h, call.target);
    if call.op.Sub? && v.Some? && v.value.Ref? { OrdersAgree(call.op.p, v.value.l, h, rank); }
  }

  lemma {:induction false} AllAgree(calls: seq<Call>, h: Heap, parent: Prog, rank: Loc -> nat)
    requires HeapOk(h) && Acyclic(h, rank) && Within(calls, parent)
    ensures ExecAll(calls, h, parent, true) == ExecAll(calls, h, parent, false)
    decreases parent, 1, |calls|
  {
    if calls != [] {
      var init := calls[..|calls| - 1];
      AllAgree(init, h, parent, rank);
      ExecAllGrows(init, h, parent, false);
      AcyclicKept(h, ExecAll(init, h, parent, false), rank);
      CallAgrees(calls[|calls| - 1], ExecAll(init, h, parent, false), parent, rank);
    }
  }

  // ---------------------------------------------------------------- what is emitted

  ghost predicate SlotEmitted(g: Graph, op: OptProg, s: Slot, seen: set<NodeId>)
    decreases op, 1
  {
    if SlotReaches(g, s) then op.Sub? && Emitted(g, op.p, s.value, seen) else op.NoProg?
  }

  ghost predicate StepEmitted(g: Graph, st: Step, p: Property, seen: set<NodeId>)
    decreases st, 2
  {
    st.key == p.key && st.dflt == SlotDefault(g, p.slot) && SlotEmitted(g, st.inner, p.slot, seen)
  }

  /** The block of a schema object written under the schemas in `seen`, none of which it comes back to. */
  ghost predicate Emitted(g: Graph, p: Prog, n: NodeId, seen: set<NodeId>)
    decreases p, 3
  {
    && n in g && n !in seen && !NeedsPatterns(g, n)
    && |p.steps| == |g[n].props| && (forall i :: 0 <= i < |p.steps| ==> StepEmitted(g, p.steps[i], g[n].props[i], seen + {n}))
    && |p.tuple| == |g[n].prefixItems| && (forall i :: 0 <= i < |p.tuple| ==> SlotEmitted(g, p.tuple[i], g[n].prefixItems[i], seen + {n}))
    && SlotEmitted(g, p.rest, g[n].items, seen + {n})
    && (forall k :: k in p.declared <==> exists i :: 0 <= i < |g[n].props| && g[n].props[i].key == k)
    && SlotEmitted(g, p.extra, g[n].additional, seen + {n})
    && |p.also| == 1 + |g[n].allOf| && SlotEmitted(g, p.also[0], g[n].ref, seen + {n})
    && (forall i :: 1 <= i < |p.also| ==> SlotEmitted(g, p.also[i], g[n].allOf[i - 1], seen + {n}))
  }

  // ---------------------------------------------------------------- the closure pass does the same

  /** The closure pass's call and the emitted one, side by side. */
  ghost predicate Paired(g: Graph, a: App, call: Call, seen: set<NodeId>) {
    && a.target == call.target && (a.slot.Some? <==> call.op.Sub?)
    && (a.slot.Some? ==> Emitted(g, call.op.p, a.slot.value, seen))
  }

  ghost predicate AllPaired(g: Graph, apps: seq<App>, calls: seq<Call>, seen: set<NodeId>) {
    |apps| == |calls| && forall i :: 0 <= i < |apps| ==> Paired(g, apps[i], calls[i], seen)
  }

  lemma PairedFromSlot(g: Graph, s: Slot, op: OptProg, t: Target, made: Option<set<NodeId>>, seen: set<NodeId>)
    requires SlotEmitted(g, op, s, seen)
    ensures Paired(g, App(Kept(g, s), t, made), Call(op, t), seen)
  {
  }

  lemma BelowPaired(g: Graph, valid: string -> bool, n: NodeId, p: Prog, seen: set<NodeId>, l: Loc, path: seq<NodeId>)
    requires Emitted(g, p, n, seen)
    ensures AllPaired(g, BelowApps(PlanOf(g, n, valid), l, {}, path, None), EnterCalls(p, l), seen + {n})
  {
    var plan := PlanOf(g, n, valid);
    forall i | 0 <= i < |p.steps| ensures Paired(g, BelowApps(plan, l, {}, path, None)[i], EnterCalls(p, l)[i], seen + {n}) {
      assert StepEmitted(g, p.steps[i], g[n].props[i], seen + {n});
      assert plan.below[i] == Property(g[n].props[i].key, Kept(g, g[n].props[i].slot));
      PairedFromSlot(g, g[n].props[i].slot, p.steps[i].inner, Member(l, p.steps[i].key), None, seen + {n});
    }
  }

  lemma AlsoPaired(g: Graph, valid: string -> bool, n: NodeId, p: Prog, seen: set<NodeId>, l: Loc)
    requires Emitted(g, p, n, seen)
    ensures AllPaired(g, AlsoApps(PlanOf(g, n, valid), l, None), AlsoCalls(p, l), seen + {n})
  {
    var plan := PlanOf(g, n, valid);
    forall i | 0 <= i < |p.also| ensures Paired(g, AlsoApps(plan, l, None)[i], AlsoCalls(p, l)[i], seen + {n}) {
      var s := if i == 0 then g[n].ref else g[n].allOf[i - 1];
      assert plan.also[i] == Kept(g, s);
      PairedFromSlot(g, s, p.also[i], Self(l), None, seen + {n});
    }
  }

  lemma NoPatternsKept(g: Graph, valid: string -> bool, n: NodeId)
    requires n in g && !NeedsPatterns(g, n)
    ensures var p := PlanOf(g, n, valid);
            && (forall i :: 0 <= i < |p.patterns| ==> p.patterns[i].slot.None?)
            && (p.extra.Some? ==> p.patterns == [])
  {
    var s := g[n];
    var all := WithSlots(s.patterns, KeptAll(g, SlotsOf(s.patterns)));
    UsableMeans(all, valid);
    var us := Usable(all, valid);
    forall i | 0 <= i < |us| ensures us[i].slot.None? {
      assert us[i] in us;
      var j :| 0 <= j < |all| && all[j] == us[i];
      assert all[j].slot == Kept(g, s.patterns[j].slot);
    }
  }

  lemma {:induction false} KeysPaired(g: Graph, c: Ctx, valid: string -> bool, n: NodeId, p: Prog, seen: set<NodeId>, l: Loc, keys: seq<string>)
    requires Emitted(g, p, n, seen) && PlanOf(g, n, valid).extra.Some?
    ensures AllPaired(g, KeyApps(c, PlanOf(g, n, valid), l, keys, None), KeyCalls(p, l, keys), seen + {n})
    decreases |keys|
  {
    if keys != [] {
      var plan := PlanOf(g, n, valid);
      var init, k := keys[..|keys| - 1], keys[|keys| - 1];
      KeysPaired(g, c, valid, n, p, seen, l, init);
      NoPatternsKept(g, valid, n);
      assert plan.patterns == [] && PatternApps(c, plan.patterns, l, k, None) == [];
      DeclaredSame(g, valid, n, p, seen, k);
      PairedFromSlot(g, g[n].additional, p.extra, Member(l, k), None, seen + {n});
      assert !Matched(c, plan, k);
      if k in plan.declared {
        assert KeyApps(c, plan, l, keys, None) == KeyApps(c, plan, l, init, None) + [] + [];
      } else {
        assert KeyApps(c, plan, l, keys, None) == KeyApps(c, plan, l, init, None) + [] + [App(plan.extra, Member(l, k), None)];
      }
    }
  }

  lemma DeclaredSame(g: Graph, valid: string -> bool, n: NodeId, p: Prog, seen: set<NodeId>, k: string)
    requires Emitted(g, p, n, seen)
    ensures k in PlanOf(g, n, valid).declared <==> k in p.declared
  {
  }

  lemma InsidePaired(g: Graph, c: Ctx, valid: string -> bool, n: NodeId, p: Prog, seen: set<NodeId>, st: St, l: Loc)
    requires Emitted(g, p, n, seen)
    ensures AllPaired(g, InsideApps(c, st, PlanOf(g, n, valid), l, None), InsideCalls(p, l, st.heap), seen + {n})
  {
    var plan := PlanOf(g, n, valid);
    if l in st.heap {
      match st.heap[l]
      case ArrCell(a) =>
        forall i | 0 <= i < |a| ensures Paired(g, ElemApps(plan, l, |a|, None)[i], ElemCalls(p, l, |a|)[i], seen + {n}) {
          var s := if i < |p.tuple| then g[n].prefixItems[i] else g[n].items;
          assert ElemSlot(plan, i) == Kept(g, s);
          PairedFromSlot(g, s, ElemOp(p, i), Elem(l, i), None, seen + {n});
        }
      case ObjCell(keys, _) =>
        NoPatternsKept(g, valid, n);
        assert Keyed(plan) <==> plan.extra.Some?;
        assert plan.extra.Some? <==> p.extra.Sub?;
        if plan.extra.Some? { KeysPaired(g, c, valid, n, p, seen, l, keys); }
    }
  }

  lemma {:induction false} OwnIsSteps(g: Graph, steps: seq<Step>, ps: seq<Property>, seen: set<NodeId>, st: St, l: Loc)
    requires ScalarDefaults(g) && |steps| == |ps| && forall i :: 0 <= i < |ps| ==> StepEmitted(g, steps[i], ps[i], seen)
    ensures FillOwn(st, l, OwnDefaults(g, ps)).0.heap == FillSteps(steps, l, st.heap)
    decreases |ps|
  {
    if ps != [] {
      var ps', steps', p, s := ps[..|ps| - 1], steps[..|ps| - 1], ps[|ps| - 1], steps[|ps| - 1];
      OwnIsSteps(g, steps', ps', seen, st, l);
      assert StepEmitted(g, s, p, seen);
      hide StepEmitted, SlotEmitted, Emitted;
      OneOwn(g, ps, st, l);
    }
  }

  /** What one more declared property adds to a node's own defaults. */
  lemma OneOwn(g: Graph, ps: seq<Property>, st: St, l: Loc)
    requires ScalarDefaults(g) && ps != []
    ensures var p := ps[|ps| - 1];
            FillOwn(st, l, OwnDefaults(g, ps)).0.heap == FillKey(FillOwn(st, l, OwnDefaults(g, ps[..|ps| - 1])).0.heap, l, p.key, SlotDefault(g, p.slot))
  {
    var ps', p := ps[..|ps| - 1], ps[|ps| - 1];
    var own', own := OwnDefaults(g, ps'), OwnDefaults(g, ps);
    if SlotDefault(g, p.slot).Some? {
      assert own == own' + [(p.key, g[p.slot.value].dflt.value)];
      assert own[..|own| - 1] == own';
    }
  }

  predicate NodesIn(active: set<Pair>, seen: set<NodeId>) {
    forall a :: a in active ==> a.0 in seen
  }

  predicate AppsPlanned(c: Ctx, apps: seq<App>) {
    forall i :: 0 <= i < |apps| ==> SlotPlanned(c, apps[i].slot)
  }

  lemma {:induction false} PatternAppsPlanned(c: Ctx, ps: seq<Property>, l: Loc, k: string)
    requires forall i :: 0 <= i < |ps| ==> SlotPlanned(c, ps[i].slot)
    ensures AppsPlanned(c, PatternApps(c, ps, l, k, None))
    decreases |ps|
  {
    if ps != [] { PatternAppsPlanned(c, ps[..|ps| - 1], l, k); }
  }

  lemma {:induction false} KeyAppsPlanned(c: Ctx, p: Plan, l: Loc, keys: seq<string>)
    requires PlanClosed(c, p)
    ensures AppsPlanned(c, KeyApps(c, p, l, keys, None))
    decreases |keys|
  {
    if keys != [] {
      KeyAppsPlanned(c, p, l, keys[..|keys| - 1]);
      PatternAppsPlanned(c, p.patterns, l, keys[|keys| - 1]);
    }
  }

  lemma ListsPlanned(c: Ctx, st: St, n: NodeId, l: Loc, path: seq<NodeId>)
    requires PlansClosed(c) && n in c.plans
    ensures var p := c.plans[n];
            AppsPlanned(c, BelowApps(p, l, {}, path, None)) && AppsPlanned(c, InsideApps(c, st, p, l, None)) && AppsPlanned(c, AlsoApps(p, l, None))
  {
    assert PlanClosed(c, c.plans[n]);
    if l in st.heap && st.heap[l].ObjCell? { KeyAppsPlanned(c, c.plans[n], l, st.heap[l].keys); }
  }

  /** A block whose applications have all been made, and are not still running, has nothing left to write. */
  lemma {:induction false} ExecIdle(g: Graph, c: Ctx, valid: string -> bool, root: NodeId, p: Prog, n: NodeId, seen: set<NodeId>, l: Loc, st: St, active: set<Pair>)
    requires Compiled(g, c, valid, root) && ScalarDefaults(g) && Inv(c, st, active) && !st.hit && NodesIn(active, seen)
    requires Emitted(g, p, n, seen) && n in c.plans && (n, l) in st.log
    ensures Exec(p, l, st.heap, false) == st.heap
    decreases p, 3, 0
  {
    var inner := seen + {n};
    assert (n, l) !in active;
    assert Settled(c, st.heap, st.log, (n, l));
    OwnIsSteps(g, p.steps, g[n].props, inner, st, l);
    FillOwnIdle(st, l, c.plans[n].own);
    CallsWithin(p, l, st.heap);
    ListsLand(c, st, n, l, [], st.log);
    ListsPlanned(c, st, n, l, []);
    BelowPaired(g, valid, n, p, seen, l, []);
    ExecAllIdle(g, c, valid, root, p, BelowApps(c.plans[n], l, {}, [], None), EnterCalls(p, l), inner, st, active);
    InsidePaired(g, c, valid, n, p, seen, st, l);
    ExecAllIdle(g, c, valid, root, p, InsideApps(c, st, c.plans[n], l, None), InsideCalls(p, l, st.heap), inner, st, active);
    AlsoPaired(g, valid, n, p, seen, l);
    ExecAllIdle(g, c, valid, root, p, AlsoApps(c.plans[n], l, None), AlsoCalls(p, l), inner, st, active);
  }

  lemma {:induction false} ExecAllIdle(g: Graph, c: Ctx, valid: string -> bool, root: NodeId, parent: Prog, apps: seq<App>, calls: seq<Call>, seen: set<NodeId>, st: St, active: set<Pair>)
    requires Compiled(g, c, valid, root) && ScalarDefaults(g) && Inv(c, st, active) && !st.hit && NodesIn(active, seen)
    requires Within(calls, parent) && AllPaired(g, apps, calls, seen) && AppsPlanned(c, apps) && LandIn(c, st.heap, apps, st.log)
    ensures ExecAll(calls, st.heap, parent, false) == st.heap
    decreases parent, 1, |calls|
  {
    if calls != [] {
      var calls', apps' := calls[..|calls| - 1], apps[..|apps| - 1];
      ExecAllIdle(g, c, valid, root, parent, apps', calls', seen, st, active);
      var call, a := calls[|calls| - 1], apps[|apps| - 1];
      assert Paired(g, a, call, seen);
      var v := Resolve(st.heap, call.target);
      if call.op.Sub? && v.Some? && v.value.Ref? {
        ExecIdle(g, c, valid, root, call.op.p, a.slot.value, seen, v.value.l, st, active);
      }
    }
  }

  /**
   The closure pass, with its repeated applications skipped, leaves what the block written out in full
   leaves: an application skipped was finished before, since the block never comes back to a schema above it.
   */
  lemma {:induction false} ApplyIsExec(g: Graph, c: Ctx, valid: string -> bool, root: NodeId, p: Prog, n: NodeId, seen: set<NodeId>,
                                       st: St, l: Loc, depth: nat, path: seq<NodeId>, active: set<Pair>)
    requires Compiled(g, c, valid, root) && ScalarDefaults(g) && Inv(c, st, active) && NodesIn(active, seen)
    requires Emitted(g, p, n, seen) && n in c.plans && !Apply(c, st, n, Ref(l), depth, path, None).hit
    ensures Apply(c, st, n, Ref(l), depth, path, None).heap == Exec(p, l, st.heap, false)
    decreases p, 4, 0
  {
    ScalarFromSchema(g, c, valid, root);
    ApplySettles(c, st, n, Ref(l), depth, path, active);
    var before := if l in st.visits then st.visits[l] else {};
    if n in c.shared {
      if n in before {
        ExecIdle(g, c, valid, root, p, n, seen, l, st, active);
      } else {
        BodyIsExec(g, c, valid, root, p, n, seen, st, st.visits[l := before + {n}], l, depth, path + [n], active);
      }
    } else {
      BodyIsExec(g, c, valid, root, p, n, seen, st, st.visits, l, depth, path + [n], active);
    }
  }

  lemma {:induction false} BodyIsExec(g: Graph, c: Ctx, valid: string -> bool, root: NodeId, p: Prog, n: NodeId, seen: set<NodeId>,
                                      st: St, visits: map<Loc, set<NodeId>>, l: Loc, depth: nat, path: seq<NodeId>, active: set<Pair>)
    requires Compiled(g, c, valid, root) && ScalarDefaults(g) && Inv(c, st, active) && NodesIn(active, seen)
    requires forall x, m :: x in visits && m in visits[x] ==> (x in st.visits && m in st.visits[x]) || (m, x) == (n, l)
    requires Emitted(g, p, n, seen) && n in c.plans && depth <= c.limit && !Body(c, st.(visits := visits), n, l, depth, path, None).hit
    ensures Body(c, st.(visits := visits), n, l, depth, path, None).heap == Exec(p, l, st.heap, false)
    decreases p, 3, 0
  {
    hide Emitted, StepEmitted, SlotEmitted, NodesIn, Compiled, ScalarDefaults, ScalarCtx, PlansClosed, Apply, PlanOf, OwnDefaults;
    ScalarFromSchema(g, c, valid, root);
    var plan, inner, running := c.plans[n], seen + {n}, active + {(n, l)};
    PlanFacts(g, c, valid, root, n, l);
    StepsEmitted(g, p, n, seen);
    var st0 := st.(visits := visits, log := st.log + {(n, l)});
    var (st1, novel) := FillOwn(st0, l, plan.own);
    FillOwnScalar(st0, l, plan.own);
    OwnIsSteps(g, p.steps, g[n].props, inner, st0, l);
    StartInv(c, st, st0, st1, (n, l), active);
    NodesInMore(active, seen, n, l);
    ListsIsExec(g, c, valid, root, p, n, seen, st1, l, depth, path, running);
    assert st1.heap == FillSteps(p.steps, l, st.heap) && novel == {};
  }

  lemma PlanFacts(g: Graph, c: Ctx, valid: string -> bool, root: NodeId, n: NodeId, l: Loc)
    requires Compiled(g, c, valid, root) && ScalarDefaults(g) && ScalarCtx(c) && n in c.plans
    ensures n in g && PlansClosed(c) && c.plans[n] == PlanOf(g, n, valid) && AllScalar(c.plans[n].own)
    ensures c.plans[n].own == OwnDefaults(g, g[n].props) && DependentApps(c.plans[n], l, None) == []
  {
    assert ScalarPlan(c.plans[n]);
  }

  lemma StepsEmitted(g: Graph, p: Prog, n: NodeId, seen: set<NodeId>)
    requires Emitted(g, p, n, seen)
    ensures n in g && |p.steps| == |g[n].props| && forall i :: 0 <= i < |p.steps| ==> StepEmitted(g, p.steps[i], g[n].props[i], seen + {n})
  {
    hide StepEmitted, SlotEmitted;
  }

  lemma NodesInMore(active: set<Pair>, seen: set<NodeId>, n: NodeId, l: Loc)
    requires NodesIn(active, seen)
    ensures NodesIn(active + {(n, l)}, seen + {n})
  {
  }

  /** The body after its own defaults: the lists run as the block's calls run. */
  lemma {:induction false} ListsIsExec(g: Graph, c: Ctx, valid: string -> bool, root: NodeId, p: Prog, n: NodeId, seen: set<NodeId>,
                                       st1: St, l: Loc, depth: nat, path: seq<NodeId>, running: set<Pair>)
    requires Compiled(g, c, valid, root) && ScalarDefaults(g) && ScalarCtx(c) && PlansClosed(c) && Inv(c, st1, running) && NodesIn(running, seen + {n})
    requires Emitted(g, p, n, seen) && n in c.plans && c.plans[n] == PlanOf(g, n, valid)
    requires var st2 := ApplyAll(c, st1, BelowApps(c.plans[n], l, {}, path, None), depth + 1, path);
             var st3 := ApplyAll(c, st2, InsideApps(c, st2, c.plans[n], l, None), depth + 1, path);
             !ApplyAll(c, st3, AlsoApps(c.plans[n], l, None), depth + 1, path).hit
    ensures Within(EnterCalls(p, l), p) && Within(AlsoCalls(p, l), p)
    ensures var st2 := ApplyAll(c, st1, BelowApps(c.plans[n], l, {}, path, None), depth + 1, path);
            var st3 := ApplyAll(c, st2, InsideApps(c, st2, c.plans[n], l, None), depth + 1, path);
            var h2 := ExecAll(EnterCalls(p, l), st1.heap, p, false);
            && Within(InsideCalls(p, l, h2), p)
            && ApplyAll(c, st3, AlsoApps(c.plans[n], l, None), depth + 1, path).heap
               == ExecAll(AlsoCalls(p, l), ExecAll(InsideCalls(p, l, h2), h2, p, false), p, false)
    decreases p, 2, 1
  {
    hide Emitted, Apply, Compiled, ScalarDefaults, ScalarCtx, Inv, ScalarGrowth, NodesIn, Logged, PlanOf, PlansClosed, Unconditional, AllPaired, AppsPlanned, ApplyAll, ExecAll;
    var plan, inner := c.plans[n], seen + {n};
    CallsWithin(p, l, st1.heap);
    ListsPlain(c, st1, plan, l, path);
    ListsPlanned(c, st1, n, l, path);
    var below := BelowApps(plan, l, {}, path, None);
    ApplyAllSettles(c, st1, below, depth + 1, path, running);
    var st2 := ApplyAll(c, st1, below, depth + 1, path);
    ListsPlain(c, st2, plan, l, path);
    ListsPlanned(c, st2, n, l, path);
    CallsWithin(p, l, st2.heap);
    var inside := InsideApps(c, st2, plan, l, None);
    ApplyAllSettles(c, st2, inside, depth + 1, path, running);
    var st3 := ApplyAll(c, st2, inside, depth + 1, path);
    var also := AlsoApps(plan, l, None);
    ApplyAllSettles(c, st3, also, depth + 1, path, running);
    BelowPaired(g, valid, n, p, seen, l, path);
    AllIsExec(g, c, valid, root, p, below, EnterCalls(p, l), inner, st1, depth + 1, path, running);
    InsidePaired(g, c, valid, n, p, seen, st2, l);
    AllIsExec(g, c, valid, root, p, inside, InsideCalls(p, l, st2.heap), inner, st2, depth + 1, path, running);
    AlsoPaired(g, valid, n, p, seen, l);
    AllIsExec(g, c, valid, root, p, also, AlsoCalls(p, l), inner, st3, depth + 1, path, running);
  }

  lemma ApplyScalar(c: Ctx, st: St, n: NodeId, x: Json, depth: nat, path: seq<NodeId>)
    ensures Apply(c, st, n, Prim(x), depth, path, None) == st
  {
  }

  lemma {:induction false} AllIsExec(g: Graph, c: Ctx, valid: string -> bool, root: NodeId, parent: Prog, apps: seq<App>, calls: seq<Call>, seen: set<NodeId>,
                                     st: St, depth: nat, path: seq<NodeId>, active: set<Pair>)
    requires Compiled(g, c, valid, root) && ScalarDefaults(g) && Inv(c, st, active) && NodesIn(active, seen)
    requires Within(calls, parent) && AllPaired(g, apps, calls, seen) && AppsPlanned(c, apps) && Unconditional(apps)
    requires !ApplyAll(c, st, apps, depth, path).hit
    ensures ApplyAll(c, st, apps, depth, path).heap == ExecAll(calls, st.heap, parent, false)
    decreases parent, 2, 0, |calls|
  {
    hide Emitted, Exec, Apply, Compiled, ScalarDefaults, ScalarCtx, Inv, ScalarGrowth, NodesIn, Logged;
    if calls != [] {
      ScalarFromSchema(g, c, valid, root);
      var calls', apps' := calls[..|calls| - 1], apps[..|apps| - 1];
      var call, a := calls[|calls| - 1], apps[|apps| - 1];
      assert Unconditional(apps') && a.made.None?;
      ApplyAllSettles(c, st, apps', depth, path, active);
      var st1 := ApplyAll(c, st, apps', depth, path);
      var v := Resolve(st1.heap, call.target);
      assert Paired(g, a, call, seen) && SlotPlanned(c, a.slot);
      if a.slot.Some? && v.Some? {
        ApplySettles(c, st1, a.slot.value, v.value, depth, path, active);
        AllIsExec(g, c, valid, root, parent, apps', calls', seen, st, depth, path, active);
        if v.value.Ref? { ApplyIsExec(g, c, valid, root, call.op.p, a.slot.value, seen, st1, v.value.l, depth, path, active); } else { ApplyScalar(c, st1, a.slot.value, v.value.v, depth, path); }
      } else {
        AllIsExec(g, c, valid, root, parent, apps', calls', seen, st, depth, path, active);
      }
    }
  }

  /**
   The generated pass and the closure pass leave the same document: every member present, with the same
   default where several schemas supply one, for scalar defaults within the depth bound.
   */
  lemma PassesAgree(g: Graph, c: Ctx, valid: string -> bool, root: NodeId, p: Prog, h: Heap, next: Loc, l: Loc, rank: Loc -> nat)
    requires Compiled(g, c, valid, root) && ScalarDefaults(g) && HeapOk(h) && Acyclic(h, rank)
    requires Reaches(g, root) && Emitted(g, p, root, {}) && !Run(c, h, next, root, Ref(l)).hit
    ensures Exec(p, l, h, true) == Run(c, h, next, root, Ref(l)).heap
  {
    ApplyIsExec(g, c, valid, root, p, root, {}, Start(h, next), l, 0, [], {});
    OrdersAgree(p, l, h, rank);
  }

  /** They do so on every document that leaves the depth bound room. */
  lemma PassesAgreeShallow(g: Graph, c: Ctx, valid: string -> bool, root: NodeId, p: Prog, h: Heap, next: Loc, l: Loc, rank: Loc -> nat)
    requires Compiled(g, c, valid, root) && ScalarDefaults(g) && HeapOk(h) && Acyclic(h, rank)
    requires SharedOk(c.plans, c.shared) && Shallow(g, c.limit, rank(l))
    requires Reaches(g, root) && Emitted(g, p, root, {})
    ensures Exec(p, l, h, true) == Run(c, h, next, root, Ref(l)).heap
  {
    DepthEnough(g, c, valid, h, next, root, l, rank);
    PassesAgree(g, c, valid, root, p, h, next, l, rank);
  }

  // ---------------------------------------------------------------- the emitter

  /** `emitDefaults`: writes the program, counting lines and default source; `cycle` declines it. */
  class Emitter {
    const g: Graph
    const reach: ReachMemo
    const width: Doc -> nat
    var lines: nat
    var bytes: nat
    var cycle: bool
    var seen: set<NodeId>

    ghost predicate Valid()
      reads this, reach
    {
      reach.Valid() && reach.g == g && seen <= g.Keys && (!cycle ==> bytes <= MAX_BYTES)
    }

    /** What was to be written was paid for from so much before, or declined because it did not fit. */
    predicate Paid(c: Bill, declined0: bool, lines0: nat, bytes0: nat)
      reads this
    {
      if declined0 then cycle else Spent(c, lines0, bytes0, cycle, lines, bytes)
    }

    constructor (g: Graph, reach: ReachMemo, width: Doc -> nat, written: nat)
      requires reach.Valid() && reach.g == g
      ensures Valid() && this.g == g && this.reach == reach && this.width == width
      ensures seen == {} && !cycle && lines == written && bytes == 0
    {
      this.g, this.reach, this.width := g, reach, width;
      lines, bytes, cycle, seen := written, 0, false, {};
    }

    method HasInside(s: Slot) returns (b: bool)
      requires Valid() && (s.Some? ==> s.value in g)
      modifies reach
      ensures Valid() && b == SlotReaches(g, s)
    {
      var a := reach.ReachDefault(s, {});
      b := a == 1;
    }

    method AnyInside(slots: seq<Slot>) returns (b: bool)
      requires Valid() && forall i :: 0 <= i < |slots| ==> slots[i].Some? ==> slots[i].value in g
      modifies reach
      ensures Valid() && b == AnyReaches(g, slots)
    {
      b := false;
      for i := 0 to |slots|
        invariant Valid() && (b <==> exists j :: 0 <= j < i && SlotReaches(g, slots[j]))
      {
        var has := HasInside(slots[i]);
        b := b || has;
      }
    }

    method PatternsNeeded(n: NodeId) returns (b: bool)
      requires Valid() && n in g
      modifies reach
      ensures Valid() && b == NeedsPatterns(g, n)
    {
      var ps := g[n].patterns;
      if ps == [] { return false; }
      BelowParts(g, n);
      var i := 0;
      while i < |ps|
        invariant 0 <= i <= |ps| && Valid()
        invariant forall j :: 0 <= j < i ==> !SlotReaches(g, ps[j].slot)
      {
        assert SlotsOf(ps)[i] == ps[i].slot;
        var has := HasInside(ps[i].slot);
        if has { return true; }
        i := i + 1;
      }
      b := HasInside(g[n].additional);
    }

    /** A block for a place, when a default is reachable there, between the lines that open and close it. */
    method EmitSlot(s: Slot, before: nat, after: nat) returns (op: OptProg)
      requires Valid() && (s.Some? ==> s.value in g)
      modifies this, reach
      ensures Valid() && seen == old(seen)
      ensures Paid(PieceCost(g, Block(s, before, after), seen, width), old(cycle), old(lines), old(bytes))
      ensures !cycle ==> SlotEmitted(g, op, s, seen)
      decreases |g.Keys - seen|, 2
    {
      hide NodeCost, Emitted;
      var has := HasInside(s);
      if !has { return NoProg; }
      ghost var c := NodeCost(g, s.value, seen, width);
      lines := lines + before;
      ghost var lines1, bytes1 := lines, bytes;
      var p := EmitDefaults(s.value);
      if !old(cycle) { SpentBoth(Cost(before, -1, 0), c, old(lines), old(bytes), false, lines1, bytes1, cycle, lines, bytes); }
      ghost var lines2 := lines;
      lines := lines + after;
      if !old(cycle) { SpentBoth(Plus(Cost(before, -1, 0), c), Cost(after, -1, 0), old(lines), old(bytes), cycle, lines2, bytes, cycle, lines, bytes); }
      op := Sub(p);
    }

    method EmitSlots(slots: seq<Slot>, before: nat, after: nat) returns (ops: seq<OptProg>)
      requires Valid() && forall i :: 0 <= i < |slots| ==> slots[i].Some? ==> slots[i].value in g
      modifies this, reach
      ensures Valid() && seen == old(seen) && |ops| == |slots|
      ensures Paid(PiecesCost(g, Blocks(slots, before, after), seen, width), old(cycle), old(lines), old(bytes))
      ensures !cycle ==> forall i :: 0 <= i < |slots| ==> SlotEmitted(g, ops[i], slots[i], seen)
      decreases |g.Keys - seen|, 3
    {
      hide PieceCost, SlotEmitted;
      ops := [];
      var i := 0;
      ghost var ps := Blocks(slots, before, after);
      assert ps[..0] == [];
      while i < |slots|
        invariant 0 <= i <= |slots| && |ops| == i && (old(cycle) ==> cycle)
        invariant Valid() && seen == old(seen)
        invariant Paid(PiecesCost(g, ps[..i], seen, width), old(cycle), old(lines), old(bytes))
        invariant !cycle ==> forall j :: 0 <= j < i ==> SlotEmitted(g, ops[j], slots[j], seen)
      {
        ghost var declined1, lines1, bytes1 := cycle, lines, bytes;
        var op := EmitSlot(slots[i], before, after);
        assert ps[..i + 1][..i] == ps[..i];
        if !old(cycle) {
          SpentBoth(PiecesCost(g, ps[..i], seen, width), PieceCost(g, ps[i], seen, width), old(lines), old(bytes), declined1, lines1, bytes1, cycle, lines, bytes);
        }
        ops := ops + [op];
        i := i + 1;
      }
      assert ps[..|slots|] == ps;
    }

    /** A property: its default, then the block entered through it. */
    method EmitStep(p: Property) returns (step: Step)
      requires Valid() && (p.slot.Some? ==> p.slot.value in g)
      modifies this, reach
      ensures Valid() && seen == old(seen)
      ensures Paid(StepCost(g, p, seen, width), old(cycle), old(lines), old(bytes))
      ensures !cycle ==> StepEmitted(g, step, p, seen)
      decreases |g.Keys - seen|, 3
    {
      hide PieceCost, SlotEmitted, Plus, Fits;
      var d := SlotDefault(g, p.slot);
      DefaultSpent(d, width, cycle, lines, bytes);
      if d.Some? {
        bytes := bytes + width(d.value);
        if bytes > MAX_BYTES { cycle := true; }
        lines := lines + 1;
      }
      ghost var declined1, lines1, bytes1 := cycle, lines, bytes;
      var op := EmitSlot(p.slot, 1, 1);
      if !old(cycle) {
        SpentBoth(DefaultCost(d, width), PieceCost(g, Block(p.slot, 1, 1), seen, width), old(lines), old(bytes), declined1, lines1, bytes1, cycle, lines, bytes);
      }
      step := Step(p.key, d, op);
    }

    method EmitSteps(ps: seq<Property>) returns (steps: seq<Step>)
      requires Valid() && forall i :: 0 <= i < |ps| ==> ps[i].slot.Some? ==> ps[i].slot.value in g
      modifies this, reach
      ensures Valid() && seen == old(seen)
      ensures Paid(PiecesCost(g, PropPieces(g, ps, width), seen, width), old(cycle), old(lines), old(bytes))
      ensures !cycle ==> |steps| == |ps| && forall i :: 0 <= i < |ps| ==> StepEmitted(g, steps[i], ps[i], seen)
      decreases |g.Keys - seen|, 4
    {
      hide PieceCost, StepCost, StepEmitted, Plus, Fits;
      steps := [];
      var i := 0;
      assert ps[..0] == [];
      NoPieces(g, seen, width);
      NothingSpent(lines, bytes, cycle);
      while i < |ps|
        invariant 0 <= i <= |ps| && |steps| == i && (old(cycle) ==> cycle)
        invariant Valid() && seen == old(seen)
        invariant Paid(PiecesCost(g, PropPieces(g, ps[..i], width), seen, width), old(cycle), old(lines), old(bytes))
        invariant !cycle ==> forall j :: 0 <= j < i ==> StepEmitted(g, steps[j], ps[j], seen)
      {
        ghost var declined1, lines1, bytes1 := cycle, lines, bytes;
        var step := EmitStep(ps[i]);
        PropCost(g, ps, i, seen, width);
        if !old(cycle) {
          SpentBoth(PiecesCost(g, PropPieces(g, ps[..i], width), seen, width), StepCost(g, ps[i], seen, width), old(lines), old(bytes), declined1, lines1, bytes1, cycle, lines, bytes);
        }
        steps := steps + [step];
        i := i + 1;
      }
      assert ps[..|ps|] == ps;
    }

    method EmitDefaults(n: NodeId) returns (p: Prog)
      requires Valid() && n in g
      modifies this, reach
      ensures Valid() && seen == old(seen)
      ensures Paid(NodeCost(g, n, seen, width), old(cycle), old(lines), old(bytes))
      ensures !cycle ==> Emitted(g, p, n, seen)
      decreases |g.Keys - seen|, 0
    {
      hide Emitted, PiecesCost, Pieces, NeedsPatterns;
      p := Prog([], [], NoProg, [], NoProg, []);
      if n in seen || lines > MAX_LINES {
        cycle := true;
        return;
      }
      SeenGrows(g, n, seen);
      seen := seen + {n};
      lines := lines + 1;
      ghost var lines1 := lines;
      p := EmitNode(n);
      if !old(cycle) && !NeedsPatterns(g, n) {
        SpentBoth(Cost(1, 0, 0), PiecesCost(g, Pieces(g, n, width), seen, width), old(lines), old(bytes), false, lines1, old(bytes), cycle, lines, bytes);
      }
      seen := seen - {n};
      assert seen == old(seen);
    }

    method EmitNode(n: NodeId) returns (p: Prog)
      requires Valid() && n in seen
      modifies this, reach
      ensures Valid() && seen == old(seen)
      ensures Paid(if NeedsPatterns(g, n) then Endless else PiecesCost(g, Pieces(g, n, width), seen, width), old(cycle), old(lines), old(bytes))
      ensures !cycle ==> Emitted(g, p, n, seen - {n})
      decreases |g.Keys - seen|, 6
    {
      hide NeedsPatterns, StepEmitted, SlotEmitted, SlotReaches, PiecesCost, PieceCost, PropPieces, ArrayPieces, Plus, Fits;
      PartsIn(g, n);
      var node := g[n];
      p := Prog([], [], NoProg, [], NoProg, []);
      var steps := EmitSteps(node.props);
      ghost var declined1, lines1, bytes1 := cycle, lines, bytes;
      var needs := PatternsNeeded(n);
      if needs {
        cycle := true;
        NeverFits(old(lines), old(bytes), lines, bytes);
        return;
      }
      var tuple, rest := EmitArray(node);
      ghost var declined2, lines2, bytes2 := cycle, lines, bytes;
      var extra, ref, members := EmitMore(node);
      var declared := seq(|node.props|, i requires 0 <= i < |node.props| => node.props[i].key);
      p := Prog(steps, tuple, rest, declared, extra, [ref] + members);
      assert seen - {n} + {n} == seen;
      DeclaredKeys(node.props, declared);
      if !old(cycle) {
        var a, b, c := PropPieces(g, node.props, width), ArrayPieces(g, node), MorePieces(node);
        PiecesConcat(g, a, b, seen, width);
        PiecesConcat(g, a + b, c, seen, width);
        SpentBoth(PiecesCost(g, a, seen, width), PiecesCost(g, b, seen, width), old(lines), old(bytes), declined1, lines1, bytes1, declined2, lines2, bytes2);
        SpentBoth(PiecesCost(g, a + b, seen, width), PiecesCost(g, c, seen, width), old(lines), old(bytes), declined2, lines2, bytes2, cycle, lines, bytes);
      }
    }

    /** The elements of an array, by position and after, inside one test for an array. */
    method EmitArray(node: Node) returns (tuple: seq<OptProg>, rest: OptProg)
      requires Valid() && (node.items.Some? ==> node.items.value in g)
      requires forall i :: 0 <= i < |node.prefixItems| ==> node.prefixItems[i].Some? ==> node.prefixItems[i].value in g
      modifies this, reach
      ensures Valid() && seen == old(seen)
      ensures Paid(PiecesCost(g, ArrayPieces(g, node), seen, width), old(cycle), old(lines), old(bytes))
      ensures !cycle ==> |tuple| == |node.prefixItems| && forall i :: 0 <= i < |tuple| ==> SlotEmitted(g, tuple[i], node.prefixItems[i], seen)
      ensures !cycle ==> SlotEmitted(g, rest, node.items, seen)
      decreases |g.Keys - seen|, 4
    {
      hide Emitted, PieceCost, PiecesCost, SlotReaches, Plus, Fits;
      var any := AnyInside(node.prefixItems);
      var one := HasInside(node.items);
      if !any && !one {
        tuple, rest := seq(|node.prefixItems|, _ => NoProg), NoProg;
        NoPieces(g, seen, width);
        NothingSpent(lines, bytes, cycle);
        return;
      }
      lines := lines + 1;
      ghost var lines1, bytes1 := lines, bytes;
      tuple := EmitSlots(node.prefixItems, 2, 1);
      ghost var declined2, lines2, bytes2 := cycle, lines, bytes;
      rest := EmitSlot(node.items, 2, 1);
      ghost var declined3, lines3, bytes3 := cycle, lines, bytes;
      lines := lines + 1;
      if !old(cycle) {
        OneLine(old(lines), old(bytes));
        OneLine(lines3, bytes3);
        ArrayCost(g, node, seen, width);
        var t, b, i := Cost(1, -1, 0), PiecesCost(g, Blocks(node.prefixItems, 2, 1), seen, width), PieceCost(g, Block(node.items, 2, 1), seen, width);
        SpentBoth(t, b, old(lines), old(bytes), false, lines1, bytes1, declined2, lines2, bytes2);
        SpentBoth(Plus(t, b), i, old(lines), old(bytes), declined2, lines2, bytes2, declined3, lines3, bytes3);
        SpentBoth(Plus(Plus(t, b), i), t, old(lines), old(bytes), declined3, lines3, bytes3, cycle, lines, bytes);
      }
    }

    /** The members no property names, then what applies to the value itself. */
    method EmitMore(node: Node) returns (extra: OptProg, ref: OptProg, members: seq<OptProg>)
      requires Valid() && (node.additional.Some? ==> node.additional.value in g) && (node.ref.Some? ==> node.ref.value in g)
      requires forall i :: 0 <= i < |node.allOf| ==> node.allOf[i].Some? ==> node.allOf[i].value in g
      modifies this, reach
      ensures Valid() && seen == old(seen)
      ensures Paid(PiecesCost(g, MorePieces(node), seen, width), old(cycle), old(lines), old(bytes))
      ensures !cycle ==> SlotEmitted(g, extra, node.additional, seen) && SlotEmitted(g, ref, node.ref, seen)
      ensures !cycle ==> |members| == |node.allOf| && forall i :: 0 <= i < |members| ==> SlotEmitted(g, members[i], node.allOf[i], seen)
      decreases |g.Keys - seen|, 4
    {
      hide SlotEmitted, PieceCost, PiecesCost, SlotReaches, Plus, Fits;
      var before := if node.props != [] then 3 else 2;
      extra := EmitSlot(node.additional, before, 2);
      ghost var declined1, lines1, bytes1 := cycle, lines, bytes;
      ref := EmitSlot(node.ref, 0, 0);
      ghost var declined2, lines2, bytes2 := cycle, lines, bytes;
      members := EmitSlots(node.allOf, 0, 0);
      if !old(cycle) {
        MoreCost(g, node, seen, width);
        var e, f, m := PieceCost(g, Block(node.additional, before, 2), seen, width), PieceCost(g, Block(node.ref, 0, 0), seen, width), PiecesCost(g, Blocks(node.allOf, 0, 0), seen, width);
        SpentBoth(e, f, old(lines), old(bytes), declined1, lines1, bytes1, declined2, lines2, bytes2);
        SpentBoth(Plus(e, f), m, old(lines), old(bytes), declined2, lines2, bytes2, cycle, lines, bytes);
      }
    }
  }

  lemma PartsIn(g: Graph, n: NodeId)
    requires SchemaGraph.Closed(g) && n in g
    ensures forall i :: 0 <= i < |g[n].props| ==> g[n].props[i].slot.Some? ==> g[n].props[i].slot.value in g
    ensures forall i :: 0 <= i < |g[n].prefixItems| ==> g[n].prefixItems[i].Some? ==> g[n].prefixItems[i].value in g
    ensures forall i :: 0 <= i < |g[n].allOf| ==> g[n].allOf[i].Some? ==> g[n].allOf[i].value in g
    ensures g[n].items.Some? ==> g[n].items.value in g
    ensures g[n].additional.Some? ==> g[n].additional.value in g
    ensures g[n].ref.Some? ==> g[n].ref.value in g
  {
    BelowParts(g, n);
  }

  lemma DeclaredKeys(ps: seq<Property>, declared: seq<string>)
    requires |declared| == |ps| && forall i :: 0 <= i < |ps| ==> declared[i] == ps[i].key
    ensures forall k :: k in declared <==> exists i :: 0 <= i < |ps| && ps[i].key == k
  {
    forall k | k in declared ensures exists i :: 0 <= i < |ps| && ps[i].key == k {
      var i :| 0 <= i < |declared| && declared[i] == k;
      assert ps[i].key == k;
    }
    forall i | 0 <= i < |ps| ensures ps[i].key in declared {
      assert declared[i] == ps[i].key;
    }
  }

  /**
   `preprocessSource` for a schema with defaults, after so many lines of the passes before: the program,
   or nothing where the closure pass must take it. It is emitted exactly when a default is reachable
   and all blocks, references written out, come to an end within the bounds.
   */
  method Preprocess(g: Graph, root: NodeId, width: Doc -> nat, written: nat) returns (op: OptProg)
    requires SchemaGraph.Closed(g) && root in g
    ensures op.Sub? <==> Reaches(g, root) && Fits(NodeCost(g, root, {}, width), written, 0)
    ensures op.Sub? ==> Emitted(g, op.p, root, {})
  {
    var reach := new ReachMemo(g);
    var emitter := new Emitter(g, reach, width, written);
    var has := emitter.HasInside(Some(root));
    if !has { return NoProg; }
    var p := emitter.EmitDefaults(root);
    op := if emitter.cycle then NoProg else Sub(p);
  }
}
