/**
 The schema graph the defaults passes walk, and the three-valued memoised question they
 both ask of it: is a default reachable from here (`reachesDefault` in lib/defaults.js,
 `reachDefault` in lib/codegen-engine.js).
 */
module SchemaGraph {
  import opened Json

  type NodeId = nat

  /** A place for a subschema: a schema object, or nothing the passes walk (absent, a boolean). */
  type Slot = Option<NodeId>

  datatype Property = Property(key: string, slot: Slot)

  /**
   One schema object. Identity is the id, so a graph may share nodes and be cyclic. `ref` is the
   schema a `$ref` names in the same document, when it names one.
   */
  datatype Node = Node(
    dflt: Option<Doc>,
    props: seq<Property>,
    ref: Slot,
    allOf: seq<Slot>,
    prefixItems: seq<Slot>,
    items: Slot,
    additional: Slot,
    patterns: seq<Property>,
    dependents: seq<Property>)

  type Graph = map<NodeId, Node>

  function SlotsOf(ps: seq<Property>): seq<Slot> {
    seq(|ps|, i requires 0 <= i < |ps| => ps[i].slot)
  }

  /** Every place below a node, in the order `reachesDefault` looks at them. */
  function Below(s: Node): seq<Slot> {
    SlotsOf(s.props) + [s.ref] + s.allOf + s.prefixItems + [s.items, s.additional] + SlotsOf(s.patterns) + SlotsOf(s.dependents)
  }

  predicate Closed(g: Graph) {
    forall n :: n in g ==> forall i :: 0 <= i < |Below(g[n])| ==> Below(g[n])[i].Some? ==> Below(g[n])[i].value in g
  }

  /** Whether one of the node's own properties carries a default. */
  predicate OwnDefault(g: Graph, n: NodeId)
    requires n in g
  {
    exists i :: 0 <= i < |g[n].props| && g[n].props[i].slot.Some? && g[n].props[i].slot.value in g && g[g[n].props[i].slot.value].dflt.Some?
  }

  predicate Edge(g: Graph, a: NodeId, b: NodeId) {
    a in g && Some(b) in Below(g[a])
  }

  ghost predicate IsPath(g: Graph, p: seq<NodeId>) {
    && p != [] && (forall i :: 0 <= i < |p| ==> p[i] in g)
    && forall i, j :: 0 <= i < j < |p| && j == i + 1 ==> Edge(g, p[i], p[j])
  }

  ghost predicate ReachesBy(g: Graph, n: NodeId, p: seq<NodeId>, avoid: set<NodeId>) {
    && IsPath(g, p) && p[0] == n && OwnDefault(g, p[|p| - 1])
    && forall i :: 0 <= i < |p| ==> p[i] !in avoid
  }

  /** A default is reachable along a path that meets none of `avoid`. */
  ghost predicate ReachesAvoiding(g: Graph, n: NodeId, avoid: set<NodeId>) {
    exists p :: ReachesBy(g, n, p, avoid)
  }

  ghost predicate Reaches(g: Graph, n: NodeId) {
    ReachesAvoiding(g, n, {})
  }

  ghost predicate SlotReaches(g: Graph, s: Slot) {
    s.Some? && Reaches(g, s.value)
  }

  lemma OwnReaches(g: Graph, n: NodeId)
    requires n in g && OwnDefault(g, n)
    ensures Reaches(g, n)
  {
    assert ReachesBy(g, n, [n], {});
  }

  lemma StepReaches(g: Graph, n: NodeId, c: NodeId)
    requires Edge(g, n, c) && Reaches(g, c)
    ensures Reaches(g, n)
  {
    var p :| ReachesBy(g, c, p, {});
    var q := [n] + p;
    forall i, j | 0 <= i && j == i + 1 && j < |q| ensures Edge(g, q[i], q[j]) {
      if i > 0 { assert Edge(g, p[i - 1], p[i]); }
    }
    assert q[|q| - 1] == p[|p| - 1];
    assert ReachesBy(g, n, q, {});
  }

  /** The part of a path after its last visit to `n`. */
  lemma LastVisit(p: seq<NodeId>, n: NodeId) returns (j: nat)
    requires p != [] && p[0] == n
    ensures j < |p| && p[j] == n && forall i :: j < i < |p| ==> p[i] != n
  {
    j := |p| - 1;
    while p[j] != n
      invariant j < |p| && forall i :: j < i < |p| ==> p[i] != n
      decreases j
    {
      j := j - 1;
    }
  }

  /** Nothing below reaches a default without coming back here, so nothing does at all from here. */
  lemma NothingBelow(g: Graph, n: NodeId, avoid: set<NodeId>)
    requires n in g && !OwnDefault(g, n)
    requires forall c :: Edge(g, n, c) ==> !ReachesAvoiding(g, c, avoid + {n})
    ensures !ReachesAvoiding(g, n, avoid)
  {
    forall p ensures !ReachesBy(g, n, p, avoid) {
      if ReachesBy(g, n, p, avoid) {
        var j := LastVisit(p, n);
        if j < |p| - 1 {
          var q := p[j + 1..];
          assert Edge(g, p[j], p[j + 1]);
          forall i, k | 0 <= i && k == i + 1 && k < |q| ensures Edge(g, q[i], q[k]) {
            assert Edge(g, p[j + 1 + i], p[j + 2 + i]);
          }
          assert ReachesBy(g, p[j + 1], q, avoid + {n});
        }
      }
    }
  }

  lemma NothingBelowAtAll(g: Graph, n: NodeId)
    requires n in g && !OwnDefault(g, n)
    requires forall c :: Edge(g, n, c) ==> !Reaches(g, c)
    ensures !Reaches(g, n)
  {
    var none: set<NodeId> := {};
    assert none + {n} == {n};
    forall c | Edge(g, n, c) ensures !ReachesAvoiding(g, c, none + {n}) {
      forall p ensures !ReachesBy(g, c, p, {n}) {
        if ReachesBy(g, c, p, {n}) { assert ReachesBy(g, c, p, {}); }
      }
    }
    NothingBelow(g, n, none);
  }

  predicate MemoKept(m0: map<NodeId, nat>, m1: map<NodeId, nat>) {
    m0.Keys <= m1.Keys && forall n :: n in m0 ==> m1[n] == m0[n]
  }

  /**
   The answers kept for one schema. Only definite answers are kept: one that rests on a
   schema still being decided is worked out again.
   */
  class ReachMemo {
    const g: Graph
    var memo: map<NodeId, nat>

    ghost predicate Valid()
      reads this
    {
      && Closed(g)
      && forall n :: n in memo ==> n in g && (memo[n] == 1 || memo[n] == 0) && (memo[n] == 1 <==> Reaches(g, n))
    }

    constructor (g: Graph)
      requires Closed(g)
      ensures Valid() && this.g == g && memo == map[]
    {
      this.g := g;
      memo := map[];
    }

    /** What every answer means: yes and no are exact; undecided means no path avoids the stack. */
    ghost predicate Meaning(s: Slot, stack: set<NodeId>, r: nat)
      reads this
    {
      && r <= 2
      && (r == 1 ==> SlotReaches(g, s))
      && (r == 0 ==> !SlotReaches(g, s))
      && (r == 2 ==> s.Some? && !ReachesAvoiding(g, s.value, stack))
      && (s.Some? && r <= 1 ==> s.value in memo && memo[s.value] == r)
    }

    ghost predicate KnownChild(c: Slot, avoid: set<NodeId>, open: bool)
      reads this
    {
      c.Some? ==> !ReachesAvoiding(g, c.value, avoid) && (!open ==> !Reaches(g, c.value))
    }

    ghost predicate KnownProperty(p: Slot, avoid: set<NodeId>, open: bool)
      reads this
    {
      KnownChild(p, avoid, open) && (p.Some? ==> p.value in g && g[p.value].dflt.None?)
    }

    /** lib/defaults.js: all places below, in one list. */
    method ReachesDefault(s: Slot, stack: set<NodeId>) returns (r: nat)
      requires Valid() && (s.Some? ==> s.value in g) && stack <= g.Keys
      modifies this`memo
      ensures Valid() && Meaning(s, stack, r)
      ensures stack == {} ==> (r == 1 <==> SlotReaches(g, s))
      ensures MemoKept(old(memo), memo)
      decreases |g.Keys - stack|
    {
      if s.None? { return 0; }
      var n := s.value;
      if n in memo {
        MemoMeans(s, stack);
        return memo[n];
      }
      if n in stack {
        NotAvoiding(g, n, stack);
        return 2;
      }
      var yes := OwnDefault(g, n);
      if yes { OwnReaches(g, n); }
      var open := false;
      var below := Below(g[n]);
      assert g.Keys - (stack + {n}) < g.Keys - stack by { assert n in g.Keys - stack; }
      Shrinks(g.Keys - (stack + {n}), g.Keys - stack);
      var i := 0;
      while !yes && i < |below|
        invariant 0 <= i <= |below| && Valid()
        invariant yes ==> Reaches(g, n)
        invariant !yes ==> !OwnDefault(g, n) && forall j :: 0 <= j < i ==> KnownChild(below[j], stack + {n}, open)
        invariant MemoKept(old(memo), memo)
      {
        var a := ReachesDefault(below[i], stack + {n});
        WeakenAvoid(g, below[i], stack + {n});
        if a == 1 {
          assert Edge(g, n, below[i].value);
          StepReaches(g, n, below[i].value);
          yes := true;
        } else if a == 2 {
          open := true;
        }
        i := i + 1;
      }
      r := Decide(n, stack, yes, open);
    }

    /** The end of both walks: keep a definite answer, hand an undecided one back. */
    method Decide(n: NodeId, stack: set<NodeId>, yes: bool, open: bool) returns (r: nat)
      requires Valid() && n in g && n !in stack
      requires yes ==> Reaches(g, n)
      requires !yes ==> !OwnDefault(g, n) && forall j :: 0 <= j < |Below(g[n])| ==> KnownChild(Below(g[n])[j], stack + {n}, open)
      modifies this`memo
      ensures Valid() && Meaning(Some(n), stack, r)
      ensures stack == {} ==> (r == 1 <==> Reaches(g, n))
      ensures MemoKept(old(memo), memo)
    {
      var below := Below(g[n]);
      assert forall c: NodeId :: Edge(g, n, c) ==> exists j :: 0 <= j < |below| && below[j] == Some(c);
      if !yes {
        NothingBelow(g, n, stack);
        if !open { NothingBelowAtAll(g, n); }
      }
      if yes || !open { memo := memo[n := if yes then 1 else 0]; }
      r := if yes then 1 else if open then 2 else 0;
    }

    lemma MemoMeans(s: Slot, stack: set<NodeId>)
      requires Valid() && s.Some? && s.value in memo
      ensures Meaning(s, stack, memo[s.value])
    {
    }

    /** `some` over a list of places: stops at the first yes, remembers an undecided one. */
    method Check(slots: seq<Slot>, stack: set<NodeId>, open0: bool) returns (yes: bool, open: bool)
      requires Valid() && stack <= g.Keys && forall i :: 0 <= i < |slots| ==> slots[i].Some? ==> slots[i].value in g
      modifies this`memo
      ensures Valid()
      ensures MemoKept(old(memo), memo)
      ensures yes ==> exists i :: 0 <= i < |slots| && SlotReaches(g, slots[i])
      ensures !yes ==> (open0 ==> open) && forall i :: 0 <= i < |slots| ==> KnownChild(slots[i], stack, open)
      decreases |g.Keys - stack|, 1
    {
      yes, open := false, open0;
      var i := 0;
      while !yes && i < |slots|
        invariant 0 <= i <= |slots| && Valid()
        invariant MemoKept(old(memo), memo)
        invariant yes ==> exists j :: 0 <= j < |slots| && SlotReaches(g, slots[j])
        invariant !yes ==> (open0 ==> open) && forall j :: 0 <= j < i ==> KnownChild(slots[j], stack, open)
      {
        var a := ReachDefault(slots[i], stack);
        WeakenAvoid(g, slots[i], stack);
        if a == 2 { open := true; }
        yes := a == 1;
        i := i + 1;
      }
    }

    /** lib/codegen-engine.js: the same question, the places asked kind by kind. */
    method ReachDefault(s: Slot, stack: set<NodeId>) returns (r: nat)
      requires Valid() && (s.Some? ==> s.value in g) && stack <= g.Keys
      modifies this`memo
      ensures Valid() && Meaning(s, stack, r)
      ensures stack == {} ==> (r == 1 <==> SlotReaches(g, s))
      ensures MemoKept(old(memo), memo)
      decreases |g.Keys - stack|, 0
    {
      if s.None? { return 0; }
      var n := s.value;
      if n in memo {
        MemoMeans(s, stack);
        return memo[n];
      }
      if n in stack {
        NotAvoiding(g, n, stack);
        return 2;
      }
      var inner := stack + {n};
      assert g.Keys - inner < g.Keys - stack by { assert n in g.Keys - stack; }
      Shrinks(g.Keys - inner, g.Keys - stack);
      var node := g[n];
      BelowParts(g, n);
      var yes, open := CheckProps(n, inner);
      if !yes {
        var rest := RestOf(node);
        yes, open := CheckGroups(n, rest, inner, open);
        if !yes {
          forall j | 0 <= j < |Below(node)| ensures KnownChild(Below(node)[j], inner, open) {
            BelowCases(node, j);
          }
        }
      }
      r := Decide(n, stack, yes, open);
    }

    /** The properties: a default of its own settles one, else its subschema is asked. */
    method CheckProps(n: NodeId, stack: set<NodeId>) returns (yes: bool, open: bool)
      requires Valid() && n in g && stack <= g.Keys
      modifies this`memo
      ensures Valid()
      ensures MemoKept(old(memo), memo)
      ensures yes ==> Reaches(g, n)
      ensures !yes ==> !OwnDefault(g, n) && forall j :: 0 <= j < |g[n].props| ==> KnownChild(g[n].props[j].slot, stack, open)
      decreases |g.Keys - stack|, 2
    {
      var ps := g[n].props;
      yes, open := false, false;
      var i := 0;
      while !yes && i < |ps|
        invariant 0 <= i <= |ps| && Valid()
        invariant MemoKept(old(memo), memo)
        invariant yes ==> Reaches(g, n)
        invariant !yes ==> forall j :: 0 <= j < i ==> KnownProperty(ps[j].slot, stack, open)
      {
        var a, o := CheckProperty(n, ps[i].slot, stack);
        yes, open := a, open || o;
        i := i + 1;
      }
    }

    method CheckProperty(n: NodeId, p: Slot, stack: set<NodeId>) returns (yes: bool, open: bool)
      requires Valid() && n in g && stack <= g.Keys
      requires exists i :: 0 <= i < |g[n].props| && g[n].props[i].slot == p
      modifies this`memo
      ensures Valid()
      ensures MemoKept(old(memo), memo)
      ensures yes ==> Reaches(g, n)
      ensures !yes ==> KnownProperty(p, stack, open)
      decreases |g.Keys - stack|, 1
    {
      yes, open := false, false;
      if p.None? { return; }
      BelowParts(g, n);
      if g[p.value].dflt.Some? {
        OwnReaches(g, n);
        yes := true;
      } else {
        var a := ReachDefault(p, stack);
        WeakenAvoid(g, p, stack);
        yes, open := a == 1, a == 2;
        if yes { StepReaches(g, n, p.value); }
      }
    }

    /** The other places, list by list, until one says yes. */
    method CheckGroups(n: NodeId, groups: seq<seq<Slot>>, stack: set<NodeId>, open0: bool) returns (yes: bool, open: bool)
      requires Valid() && n in g && stack <= g.Keys
      requires forall q, j :: 0 <= q < |groups| && 0 <= j < |groups[q]| ==> groups[q][j] in Below(g[n])
      modifies this`memo
      ensures Valid()
      ensures MemoKept(old(memo), memo)
      ensures yes ==> Reaches(g, n)
      ensures !yes ==> (open0 ==> open) && forall q, j :: 0 <= q < |groups| && 0 <= j < |groups[q]| ==> KnownChild(groups[q][j], stack, open)
      decreases |g.Keys - stack|, 2
    {
      BelowParts(g, n);
      yes, open := false, open0;
      var k := 0;
      while !yes && k < |groups|
        invariant 0 <= k <= |groups| && Valid()
        invariant MemoKept(old(memo), memo)
        invariant yes ==> Reaches(g, n)
        invariant !yes ==> (open0 ==> open) && forall q, j :: 0 <= q < k && 0 <= j < |groups[q]| ==> KnownChild(groups[q][j], stack, open)
      {
        var group := groups[k];
        assert forall j :: 0 <= j < |group| ==> group[j] in Below(g[n]);
        yes, open := Check(group, stack, open);
        if yes {
          ghost var j :| 0 <= j < |group| && SlotReaches(g, group[j]);
          StepReaches(g, n, group[j].value);
        }
        k := k + 1;
      }
    }
  }

  function RestOf(s: Node): seq<seq<Slot>> {
    [[s.ref], s.allOf, s.prefixItems, [s.items], [s.additional], SlotsOf(s.patterns), SlotsOf(s.dependents)]
  }

  lemma BelowParts(g: Graph, n: NodeId)
    requires Closed(g) && n in g
    ensures forall c :: Some(c) in Below(g[n]) ==> c in g && Edge(g, n, c)
    ensures forall i :: 0 <= i < |g[n].props| ==> g[n].props[i].slot in Below(g[n])
    ensures g[n].ref in Below(g[n]) && g[n].items in Below(g[n]) && g[n].additional in Below(g[n])
    ensures forall i :: 0 <= i < |g[n].allOf| ==> g[n].allOf[i] in Below(g[n])
    ensures forall i :: 0 <= i < |g[n].prefixItems| ==> g[n].prefixItems[i] in Below(g[n])
    ensures forall i :: 0 <= i < |g[n].patterns| ==> SlotsOf(g[n].patterns)[i] in Below(g[n])
    ensures forall i :: 0 <= i < |g[n].dependents| ==> SlotsOf(g[n].dependents)[i] in Below(g[n])
    ensures forall q, j :: 0 <= q < |RestOf(g[n])| && 0 <= j < |RestOf(g[n])[q]| ==> RestOf(g[n])[q][j] in Below(g[n])
  {
    var s := g[n];
    forall i | 0 <= i < |s.props| ensures s.props[i].slot in Below(s) {
      assert SlotsOf(s.props)[i] == s.props[i].slot && SlotsOf(s.props)[i] in SlotsOf(s.props);
    }
  }

  lemma BelowCases(s: Node, j: nat)
    requires j < |Below(s)|
    ensures (exists i :: 0 <= i < |s.props| && s.props[i].slot == Below(s)[j])
         || (exists q, i :: 0 <= q < |RestOf(s)| && 0 <= i < |RestOf(s)[q]| && RestOf(s)[q][i] == Below(s)[j])
  {
    var rest := RestOf(s);
    var a := SlotsOf(s.props);
    var b := [s.ref];
    var c := [s.items, s.additional];
    var x := Below(s)[j];
    if x in a {
    } else if x in b { assert rest[0][0] == x;
    } else if x in s.allOf { var i :| 0 <= i < |s.allOf| && s.allOf[i] == x; assert rest[1][i] == x;
    } else if x in s.prefixItems { var i :| 0 <= i < |s.prefixItems| && s.prefixItems[i] == x; assert rest[2][i] == x;
    } else if x == s.items { assert rest[3][0] == x;
    } else if x == s.additional { assert rest[4][0] == x;
    } else if x in SlotsOf(s.patterns) { var i :| 0 <= i < |s.patterns| && SlotsOf(s.patterns)[i] == x; assert rest[5][i] == x;
    } else { var i :| 0 <= i < |s.dependents| && SlotsOf(s.dependents)[i] == x; assert rest[6][i] == x;
    }
  }

  lemma Shrinks(a: set<NodeId>, b: set<NodeId>)
    requires a < b
    ensures |a| < |b|
  {
    var x :| x in b && x !in a;
    Subset(a, b - {x});
  }

  lemma Subset(a: set<NodeId>, b: set<NodeId>)
    requires a <= b
    ensures |a| <= |b|
  {
    if a != {} {
      var x :| x in a;
      Subset(a - {x}, b - {x});
    }
  }

  lemma NotAvoiding(g: Graph, n: NodeId, avoid: set<NodeId>)
    requires n in avoid
    ensures !ReachesAvoiding(g, n, avoid)
  {
    forall p ensures !ReachesBy(g, n, p, avoid) {
    }
  }

  lemma WeakenAvoid(g: Graph, s: Slot, avoid: set<NodeId>)
    ensures s.Some? && ReachesAvoiding(g, s.value, avoid) ==> Reaches(g, s.value)
  {
    if s.Some? && ReachesAvoiding(g, s.value, avoid) {
      var p :| ReachesBy(g, s.value, p, avoid);
      assert ReachesBy(g, s.value, p, {});
    }
  }
}
