/**
 Building the named types as references are met (`alias` and the two passes of `schemaToBunType`,
 lib/bun-target.js:248-284, 428-449, 526-549), as a function of its state. A target met while it is still
 being built is taken to have no residual; one that turns out to have one is gone through a second time.
 */
module SplitWalk {
  import opened Json
  import opened SplitModel
  import opened TypeAlgebra
  import opened Split
  import opened SplitRefs
  import opened SplitParts

  /** The targets named, those known to have a residual, the entries written, whether the root was referred to, and whether a reference led nowhere. */
  datatype State = State(named: set<Target>, kept: set<Target>, table: Table, rootSeen: bool, declined: bool)

  lemma FewerLeft(d: Document, p: set<Target>, q: set<Target>)
    requires p <= q
    ensures |d.Keys - q| <= |d.Keys - p|
    ensures (exists x :: x in d && x in q && x !in p) ==> |d.Keys - q| < |d.Keys - p|
  {
    var a, b := d.Keys - q, d.Keys - p;
    Sizes(a, b);
    if x :| x in d && x in q && x !in p { Sizes(a, b - {x}); }
  }

  lemma {:induction false} Sizes(a: set<Target>, b: set<Target>)
    requires a <= b
    ensures |a| <= |b|
    decreases |a|
  {
    if a != {} {
      var x :| x in a;
      Sizes(a - {x}, b - {x});
    }
  }

  /** Everything that converting a schema goes through, in order. */
  ghost function Through(d: Document, g: Given, st: State, s: Schema): (r: State)
    ensures st.named <= r.named
    decreases |d.Keys - st.named|, 1, s, 3
  {
    if s.BoolSchema? || s == EMPTY_NODE || s.unevaluated.Some? || (s.ref.Some? && s.ref.value.RestOf?) then st
    else if s.ref.Some? then Referred(d, g, st, s.ref.value.t)
    else
      PartsSmaller(s, g);
      var own := ThroughEach(d, g, st, OwnParts(s, g), s);
      FewerLeft(d, st.named, own.named);
      var all := ThroughEach(d, g, own, ListOf(s.allOf), s);
      FewerLeft(d, st.named, all.named);
      ThroughAny(d, g, all, ListOf(s.anyOf), 0, s)
  }

  ghost function ThroughEach(d: Document, g: Given, st: State, ss: seq<Schema>, bound: Schema): (r: State)
    requires forall i :: 0 <= i < |ss| ==> ss[i] < bound
    ensures st.named <= r.named
    decreases |d.Keys - st.named|, 1, bound, 2, |ss|
  {
    if ss == [] then st
    else
      var init := ThroughEach(d, g, st, ss[..|ss| - 1], bound);
      FewerLeft(d, st.named, init.named);
      Through(d, g, init, ss[|ss| - 1])
  }

  /** The branches of an anyOf, up to the first with a residual. */
  ghost function ThroughAny(d: Document, g: Given, st: State, bs: seq<Schema>, i: nat, bound: Schema): (r: State)
    requires i <= |bs| && forall i :: 0 <= i < |bs| ==> bs[i] < bound
    ensures st.named <= r.named
    decreases |d.Keys - st.named|, 1, bound, 2, |bs| - i
  {
    if i == |bs| then st
    else
      var one := Through(d, g, st, bs[i]);
      FewerLeft(d, st.named, one.named);
      if Conv(bs[i], With(g, one.kept)).res.Sub? then one else ThroughAny(d, g, one, bs, i + 1, bound)
  }

  /** A reference met: its target named, and gone through when it is met for the first time. */
  ghost function Referred(d: Document, g: Given, st: State, t: Target): (r: State)
    ensures st.named <= r.named
    decreases |d.Keys - st.named|, 0, 1
  {
    if t !in d then st.(declined := true)
    else
      var met := if t in st.named then st else NamedFirst(d, g, st, t);
      if t == Root then met.(rootSeen := true) else met
  }

  /**
   A target gone through when its name is first given: with a residual it is gone through once more, now that
   it is known to have one. The type stays that of the first time.
   */
  ghost function NamedFirst(d: Document, g: Given, st: State, t: Target): (r: State)
    requires t in d && t !in st.named
    ensures st.named <= r.named && t in r.named
    decreases |d.Keys - st.named|, 0, 0
  {
    var begun := st.(named := st.named + {t});
    FewerLeft(d, st.named, begun.named);
    var st1 := Through(d, g, begun, d[t]);
    var first := Conv(d[t], With(g, st1.kept));
    if first.res.NoSchema? then st1.(table := st1.table[t := Entry(first.t, first.res)])
    else
      FewerLeft(d, begun.named, st1.named);
      Repeated(d, g, st1, t, first)
  }

  ghost function Repeated(d: Document, g: Given, st1: State, t: Target, first: Split): (r: State)
    requires t in d
    ensures st1.named <= r.named
    decreases |d.Keys - st1.named|, 1, d[t], 4
  {
    var st2 := Through(d, g, st1.(kept := st1.kept + {t}), d[t]);
    var second := Conv(d[t], With(g, st2.kept));
    Settled(st2, t, first.t, second)
  }

  /** The entry written, its target known to have a residual or not. */
  function Settled(st: State, t: Target, kind: Type, second: Split): State {
    st.(table := st.table[t := Entry(kind, second.res)], kept := if second.res.Sub? then st.kept else st.kept - {t})
  }

  const START := State({Root}, {}, map[], false, false)

  /**
   `schemaToBunType` with tags: the named types and what is kept beside them, or nothing where it declines: a
   reference that does not resolve, a type that says nothing, or a rule the type cannot carry that refers to
   the root. The root is gone through again, type and residual, when it has a residual and was referred to.
   */
  ghost function SplitOf(d: Document, g: Given): Option<Table>
    requires Root in d
  {
    var st1 := Through(d, g, START, d[Root]);
    var first := Conv(d[Root], With(g, st1.kept));
    if st1.declined then None
    else if first.res.NoSchema? || !st1.rootSeen then Finished(st1.table[Root := Entry(first.t, first.res)], false)
    else
      var st2 := Through(d, g, st1.(kept := st1.kept + {Root}), d[Root]);
      var second := Conv(d[Root], With(g, st2.kept));
      if st2.declined then None else Finished(st2.table[Root := Entry(second.t, second.res)], true)
  }

  function Finished(tab: Table, twice: bool): Option<Table>
    requires Root in tab
  {
    var root := tab[Root];
    if root.t == Universal() || (root.res.Sub? && !twice && !NoRoot(root.res.schema)) then None else Some(tab)
  }
}
