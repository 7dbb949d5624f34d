/** The conversion of a document with its references, as it runs over the names, the residuals and the entries (lib/bun-target.js:248-284, 526-549). */
module SplitRun {
  import opened Json
  import opened SplitModel
  import opened TypeAlgebra
  import opened Split
  import opened SplitRefs
  import opened SplitParts
  import opened SplitWalk
  import SplitPrecise

  // ---------------------------------------------------------------- what stays as it was met

  /** Targets with a name, those known to have a residual, those gone through for the first time, and for the second. */
  datatype Snap = Snap(named: set<Target>, kept: set<Target>, open: set<Target>, again: set<Target>)

  /** A later state: what was settled about a target stays. */
  predicate Later(p: Snap, q: Snap) {
    p.named <= q.named && q.open == p.open && q.again == p.again && forall t :: t in p.named ==> (t in q.kept <==> t in p.kept)
  }

  /** A set that agrees with what is settled. */
  predicate Agrees(k: set<Target>, p: Snap) {
    forall t :: t in p.named && t !in p.open ==> (t in k <==> t in p.kept)
  }

  /** Converted alike under every set that agrees with what is settled and has none of those assumed to have no residual. */
  ghost predicate Steady(s: Schema, g: Given, a: set<Target>, p: Snap) {
    forall k :: Agrees(k, p) && k !! a ==> Same(s, g, k, p.kept)
  }

  ghost predicate SteadyFirst(ss: seq<Schema>, n: nat, g: Given, a: set<Target>, p: Snap)
    requires n <= |ss|
  {
    forall i :: 0 <= i < n ==> Steady(ss[i], g, a, p)
  }

  ghost predicate SteadyAny(bs: seq<Schema>, g: Given, a: set<Target>, p: Snap) {
    exists n: nat :: n <= |bs| && SteadyFirst(bs, n, g, a, p) && (n < |bs| ==> n > 0 && Conv(bs[n - 1], With(g, p.kept)).res.Sub?)
  }

  /** What was written is what the schema gives, under every such set. */
  ghost predicate EntryOk(s: Schema, g: Given, e: Entry, a: set<Target>, p: Snap) {
    forall k :: Agrees(k, p) && k !! a ==> Conv(s, With(g, k)) == Split(e.t, e.res)
  }

  predicate Fine(p: Snap) { p.open <= p.named && p.kept <= p.named && p.kept !! p.open && p.again <= p.named && p.again !! p.open }

  lemma LaterChains(p: Snap, q: Snap, r: Snap)
    requires Later(p, q) && Later(q, r)
    ensures Later(p, r)
  {
  }

  lemma SteadyStays(s: Schema, g: Given, a: set<Target>, p: Snap, b: set<Target>, q: Snap)
    requires Steady(s, g, a, p) && Later(p, q) && a <= b <= q.open && Fine(q)
    ensures Steady(s, g, b, q) && Same(s, g, q.kept, p.kept)
  {
    hide Same;
    assert Agrees(q.kept, p) && q.kept !! a;
    forall k | Agrees(k, q) && k !! b ensures Same(s, g, k, q.kept) {
      assert Agrees(k, p);
      SameTurned(s, g, k, q.kept, p.kept);
    }
  }

  lemma SameTurned(s: Schema, g: Given, k: set<Target>, l: set<Target>, m: set<Target>)
    requires Same(s, g, k, m) && Same(s, g, l, m)
    ensures Same(s, g, k, l)
  {
    hide Conv;
  }

  lemma FirstStays(ss: seq<Schema>, n: nat, g: Given, a: set<Target>, p: Snap, b: set<Target>, q: Snap)
    requires n <= |ss| && SteadyFirst(ss, n, g, a, p) && Later(p, q) && a <= b <= q.open && Fine(q)
    ensures SteadyFirst(ss, n, g, b, q)
  {
    hide Steady, Later, Fine;
    forall i | 0 <= i < n ensures Steady(ss[i], g, b, q) { SteadyStays(ss[i], g, a, p, b, q); }
  }

  lemma AnyStays(bs: seq<Schema>, g: Given, a: set<Target>, p: Snap, b: set<Target>, q: Snap)
    requires SteadyAny(bs, g, a, p) && Later(p, q) && a <= b <= q.open && Fine(q)
    ensures SteadyAny(bs, g, b, q)
  {
    hide Steady, Later, Fine, Conv;
    var n: nat :| n <= |bs| && SteadyFirst(bs, n, g, a, p) && (n < |bs| ==> n > 0 && Conv(bs[n - 1], With(g, p.kept)).res.Sub?);
    FirstStays(bs, n, g, a, p, b, q);
    if n < |bs| { SteadyStays(bs[n - 1], g, a, p, b, q); }
  }

  /** A node steady in its parts. */
  lemma NodeSteady(s: Schema, g: Given, a: set<Target>, p: Snap)
    requires s.Node? && Own(s) && SteadyFirst(OwnParts(s, g), |OwnParts(s, g)|, g, a, p)
    requires SteadyFirst(ListOf(s.allOf), |ListOf(s.allOf)|, g, a, p) && SteadyAny(ListOf(s.anyOf), g, a, p)
    ensures Steady(s, g, a, p)
  {
    hide Same, OwnParts, Conv, SameOwn, Agrees;
    forall k | Agrees(k, p) && k !! a ensures Same(s, g, k, p.kept) {
      OwnPartsSame(s, g, k, p.kept);
      AnySame(ListOf(s.anyOf), g, a, p, k);
      NodeAlike(s, g, k, p.kept);
    }
  }

  lemma AnySame(bs: seq<Schema>, g: Given, a: set<Target>, p: Snap, k: set<Target>)
    requires SteadyAny(bs, g, a, p) && Agrees(k, p) && k !! a
    ensures SameAny(bs, g, k, p.kept)
  {
    hide Same, Conv, Agrees;
    var n: nat :| n <= |bs| && SteadyFirst(bs, n, g, a, p) && (n < |bs| ==> n > 0 && Conv(bs[n - 1], With(g, p.kept)).res.Sub?);
    assert SameFirst(bs, n, g, k, p.kept);
  }

  /** What no reference decides. */
  lemma ClosedSteady(s: Schema, g: Given, p: Snap)
    requires s.BoolSchema? || s == EMPTY_NODE || s.unevaluated.Some? || (s.ref.Some? && s.ref.value.RestOf?)
    ensures Steady(s, g, {}, p)
  {
  }

  lemma RefSteady(s: Schema, t: Target, g: Given, a: set<Target>, p: Snap)
    requires s.Node? && s.unevaluated.None? && s.ref == Some(Whole(t))
    requires forall k :: Agrees(k, p) && k !! a ==> (t in k <==> t in p.kept)
    ensures Steady(s, g, a, p)
  {
    hide Agrees, AsResidual;
    forall k | Agrees(k, p) && k !! a ensures Same(s, g, k, p.kept) {
      assert s != EMPTY_NODE;
    }
  }

  lemma EntryStays(s: Schema, g: Given, e: Entry, a: set<Target>, p: Snap, q: Snap)
    requires EntryOk(s, g, e, a, p) && forall k :: Agrees(k, q) ==> Agrees(k, p)
    ensures EntryOk(s, g, e, a, q)
  {
    hide Conv, Agrees;
  }

  // ---------------------------------------------------------------- what every step keeps

  type Assumed = map<Target, set<Target>>

  /** Every named target has an entry or is being gone through, and is known to have a residual if its entry has one. */
  ghost predicate Entries(d: Document, g: Given, p: Snap, tab: Table, assumed: Assumed, rootSeen: bool) {
    && tab.Keys == assumed.Keys && p.named == tab.Keys + p.open + p.again && tab.Keys !! p.open && tab.Keys !! p.again
    && Built(d, g, tab)
    && (forall t :: t in tab ==> (t in p.kept <==> tab[t].res.Sub?)) && p.again <= p.kept
    && (forall t :: t in tab && Root in assumed[t] ==> rootSeen)
  }

  /** Nothing undone, and every entry right. */
  ghost predicate Right(d: Document, g: Given, p: Snap, tab: Table, assumed: Assumed, undone: set<Target>) {
    undone == {} ==> forall t :: t in tab && t in d && t in assumed ==> EntryOk(d[t], g, tab[t], assumed[t], p)
  }

  /** On strata nothing of `low` is assumed, and nothing is undone if `low` is settled or everything. */
  ghost predicate Layered(d: Document, g: Given, rank: Target -> nat, low: set<Target>, p: Snap, assumed: Assumed, undone: set<Target>) {
    Stratified(d, rank, low) ==>
      && (forall t :: t in assumed ==> assumed[t] !! low)
      && (low == d.Keys || Settles(d, g, low) ==> undone == {})
      && (Settles(d, g, low) ==> Agrees(low, p))
  }

  /** A target is closed: its entry is written. */
  lemma EntriesClosed(d: Document, g: Given, p: Snap, tab: Table, assumed: Assumed, rootSeen: bool, t: Target, e: Entry, a: set<Target>, q: Snap)
    requires Entries(d, g, p, tab, assumed, rootSeen) && (t in p.open || t in p.again) && p.open !! p.again && Built(d, g, tab[t := e])
    requires q.named == p.named && q.open == p.open - {t} && q.again == p.again - {t} && (Root in a ==> rootSeen)
    requires (forall u :: u != t ==> (u in q.kept <==> u in p.kept)) && (t in q.kept <==> e.res.Sub?)
    ensures Entries(d, g, q, tab[t := e], assumed[t := a], rootSeen)
  {
    hide Built;
  }

  lemma RightClosed(d: Document, g: Given, p: Snap, tab: Table, assumed: Assumed, undone: set<Target>, t: Target, e: Entry, a: set<Target>, q: Snap)
    requires Right(d, g, p, tab, assumed, undone) && t in d && EntryOk(d[t], g, e, a, p) && forall k :: Agrees(k, q) ==> Agrees(k, p)
    ensures Right(d, g, q, tab[t := e], assumed[t := a], undone)
  {
    hide EntryOk, Agrees;
    var more, all := tab[t := e], assumed[t := a];
    forall u | undone == {} && u in more && u in d && u in all ensures EntryOk(d[u], g, more[u], all[u], q) {
      EntryStays(d[u], g, more[u], all[u], p, q);
    }
  }

  /** Entries stay right when more is settled. */
  lemma RightKept(d: Document, g: Given, p: Snap, tab: Table, assumed: Assumed, undone: set<Target>, q: Snap)
    requires Right(d, g, p, tab, assumed, undone) && forall k :: Agrees(k, q) ==> Agrees(k, p)
    ensures Right(d, g, q, tab, assumed, undone)
  {
    hide EntryOk, Agrees;
    forall t | undone == {} && t in tab && t in d && t in assumed ensures EntryOk(d[t], g, tab[t], assumed[t], q) {
      EntryStays(d[t], g, tab[t], assumed[t], p, q);
    }
  }

  lemma LayeredClosed(d: Document, g: Given, rank: Target -> nat, low: set<Target>, p: Snap, assumed: Assumed, undone: set<Target>, t: Target, a: set<Target>, q: Snap)
    requires Layered(d, g, rank, low, p, assumed, undone) && (Stratified(d, rank, low) ==> a !! low)
    requires Stratified(d, rank, low) && Settles(d, g, low) ==> Agrees(low, q)
    ensures Layered(d, g, rank, low, q, assumed[t := a], undone)
  {
    hide Stratified, Settles, Agrees;
  }

  // ---------------------------------------------------------------- the conversion as it runs

  /**
   The names given so far, the entries written, and the targets known to have a residual. What `conv` returns
   is `Conv` under the answers it gets about references; `Meet` goes through what `conv` goes through, in its order.
   */
  class Splitter {
    const d: Document
    const g: Given
    var named: set<Target>
    var kept: set<Target>
    var table: Table
    var rootSeen: bool
    var declined: bool
    // Ghost state: strata to reason by; targets gone through for the first time and for the second; what each
    // entry assumed to have no residual; second passes that undid the first.
    ghost const rank: Target -> nat
    ghost const low: set<Target>
    ghost var open: set<Target>
    ghost var again: set<Target>
    ghost var assumed: map<Target, set<Target>>
    ghost var undone: set<Target>

    ghost function Here(): State
      reads this
    {
      State(named, kept, table, rootSeen, declined)
    }

    ghost function Now(): Snap
      reads this
    {
      Snap(named, kept, open, again)
    }

    ghost predicate Valid()
      reads this
    {
      Root in named && named <= d.Keys && Fine(Now()) && Entries(d, g, Now(), table, assumed, rootSeen)
      && (!declined ==> Right(d, g, Now(), table, assumed, undone) && Layered(d, g, rank, low, Now(), assumed, undone))
    }

    /** No target still open is of lower rank. */
    ghost predicate Clear(r: nat)
      reads this
    {
      Stratified(d, rank, low) ==> forall o :: o in open ==> r <= rank(o)
    }

    /** What a walk leaves behind: nothing settled before is settled otherwise; `a` was assumed to have no residual. */
    ghost predicate Went(before: Snap, declined0: bool, seen0: bool, a: set<Target>)
      reads this
    {
      && Valid() && Later(before, Now()) && (declined0 ==> declined) && (seen0 ==> rootSeen)
      && a <= open && (Root in a ==> rootSeen) && (Stratified(d, rank, low) ==> a !! low)
    }

    constructor (d: Document, g: Given, ghost rank: Target -> nat, ghost low: set<Target>)
      requires Root in d
      ensures Valid() && this.d == d && this.g == g && this.rank == rank && this.low == low
      ensures named == open == {Root} && again == {} && kept == {} && table == map[] && !rootSeen && !declined && undone == {}
    {
      this.d, this.g, this.rank, this.low := d, g, rank, low;
      named, kept, table, rootSeen, declined := {Root}, {}, map[], false, false;
      open, again, assumed, undone := {Root}, {}, map[], {};
    }

    /** A reference met: its target named, and gone through when it is met for the first time. */
    method Refer(t: Target, ghost r: nat) returns (ghost a: set<Target>)
      requires Valid() && Clear(r) && (Stratified(d, rank, low) ==> rank(t) <= r && (t in low ==> rank(t) < r))
      modifies this
      ensures Went(old(Now()), old(declined), old(rootSeen), a)
      ensures !declined ==> forall k :: Agrees(k, Now()) && k !! a ==> (t in k <==> t in kept)
      ensures Here() == Referred(d, g, old(Here()), t)
      decreases |d.Keys - named|, 0, 1
    {
      hide Entries, Right, Layered, Stratified, NamedFirst, Through;
      a := {};
      if t !in d {
        Decline();
        return;
      }
      if t !in named { Build(t, r); }
      if t == Root { See(); }
      if t in open { a := {t}; }
    }

    /**
     A target gone through when its name is first given: with a residual it is gone through once more, now that
     it is known to have one. The type stays that of the first time.
     */
    method Build(t: Target, ghost r: nat)
      requires Valid() && t in d && t !in named && Clear(r) && (Stratified(d, rank, low) ==> rank(t) <= r)
      modifies this
      ensures Went(old(Now()), old(declined), old(rootSeen), {}) && t in named
      ensures Here() == NamedFirst(d, g, old(Here()), t)
      decreases |d.Keys - named|, 0, 0
    {
      hide Through, Repeated, Entries, Right, Layered, Stratified, Steady, Conv, Settles, Later, Fine, Strata, Passed;
      Open(t, r);
      FewerLeft(d, old(named), named);
      if Stratified(d, rank, low) { StrataAt(d, rank, low, t); }
      ghost var begun := Now();
      ghost var a := Meet(d[t], rank(t));
      ghost var p := Now();
      NamedLater(begun, p);
      var first := Conv(d[t], With(g, kept));
      if first.res.NoSchema? {
        Close(t, first, a);
      } else {
        FewerLeft(d, old(named), named);
        Repeat(t, first, a);
      }
      Around(old(Now()), p, Now(), t);
    }

    /** The second time through a target with a residual. */
    method Repeat(t: Target, first: Split, ghost a: set<Target>)
      requires Valid() && t in open && t in d && first == Conv(d[t], With(g, kept)) && first.res.Sub? && Clear(rank(t))
      requires a <= open && (Stratified(d, rank, low) ==> a !! low) && (!declined ==> Steady(d[t], g, a, Now()))
      modifies this
      ensures Valid() && (old(declined) ==> declined) && (old(rootSeen) ==> rootSeen) && Passed(old(Now()), Now(), t)
      ensures Here() == Repeated(d, g, old(Here()), t, first)
      decreases |d.Keys - named|, 1, d[t], 4
    {
      hide Through, Entries, Right, Layered, Stratified, Steady, Conv, Settles, Later, Fine, Strata, Passed;
      ghost var p := Now();
      Reopen(t, first, a);
      ghost var q := Now();
      if Stratified(d, rank, low) { StrataAt(d, rank, low, t); }
      ghost var b := Meet(d[t], rank(t));
      ghost var z := Now();
      NamedLater(q, z);
      var second := Conv(d[t], With(g, kept));
      if !declined && Stratified(d, rank, low) && low == d.Keys { SameAgain(d[t], g, a, p, q, z, t, low); }
      Settle(t, first.t, first, second, b);
      PassedTwice(p, z, Now(), t);
    }

    method Open(t: Target, ghost r: nat)
      requires Valid() && t in d && t !in named && Clear(r) && (Stratified(d, rank, low) ==> rank(t) <= r)
      modifies this`named, this`open
      ensures Valid() && Clear(rank(t)) && Now() == Snap(old(named) + {t}, kept, old(open) + {t}, again)
      ensures Here() == old(Here()).(named := old(named) + {t})
    {
      hide Stratified, Settles, Built, Right;
      ghost var p := Now();
      named := named + {t};
      open := open + {t};
      assert forall k :: Agrees(k, Now()) <==> Agrees(k, p);
      if !declined { RightKept(d, g, p, table, assumed, undone, Now()); }
    }

    /** Without a residual the first time is the last. */
    method Close(t: Target, first: Split, ghost a: set<Target>)
      requires Valid() && t in open && t in d && first == Conv(d[t], With(g, kept)) && first.res.NoSchema?
      requires a <= open && (Root in a ==> rootSeen) && (Stratified(d, rank, low) ==> a !! low) && (!declined ==> Steady(d[t], g, a, Now()))
      modifies this`table, this`open, this`assumed
      ensures Valid() && Passed(old(Now()), Now(), t)
      ensures Here() == old(Here()).(table := old(table)[t := Entry(first.t, first.res)])
    {
      hide Stratified, Conv, Settles, Steady, Built, Right, Entries, Layered, Agrees, EntryOk;
      ghost var p := Now();
      ghost var q := Snap(named, kept, open - {t}, again);
      var e := Entry(first.t, first.res);
      BuiltOf(d, g, p, table, assumed, rootSeen);
      BuiltMore(d, g, table, t, first, first, kept, kept);
      EntriesClosed(d, g, p, table, assumed, rootSeen, t, e, a, q);
      AgreesMore(p, q, t);
      if !declined {
        FoundFirst(d, g, t, a, p, first, low);
        RightClosed(d, g, p, table, assumed, undone, t, e, a, q);
        LowAgrees(d, g, rank, low, p, q, t, assumed, undone);
        LayeredClosed(d, g, rank, low, p, assumed, undone, t, a, q);
      }
      table := table[t := e];
      assumed := assumed[t := a];
      open := open - {t};
    }

    /** It has a residual: the second time begins. */
    method Reopen(t: Target, first: Split, ghost a: set<Target>)
      requires Valid() && t in open && t in d && first == Conv(d[t], With(g, kept)) && first.res.Sub?
      requires a <= open && (Stratified(d, rank, low) ==> a !! low) && (!declined ==> Steady(d[t], g, a, Now()))
      modifies this`kept, this`open, this`again
      ensures Valid() && Now() == Snap(named, old(kept) + {t}, old(open) - {t}, old(again) + {t})
      ensures Here() == old(Here()).(kept := old(kept) + {t})
      ensures !declined && Stratified(d, rank, low) && Settles(d, g, low) ==> first == Conv(d[t], With(g, low))
    {
      hide Stratified, Conv, Settles, Steady, Built, Right, Agrees, EntryOk, Layered;
      ghost var p := Now();
      ghost var q := Snap(named, kept + {t}, open - {t}, again + {t});
      AgreesMore(p, q, t);
      if !declined {
        FoundFirst(d, g, t, a, p, first, low);
        RightKept(d, g, p, table, assumed, undone, q);
        LowAgrees(d, g, rank, low, p, q, t, assumed, undone);
        LayeredKept(d, g, rank, low, p, assumed, undone, q);
      }
      kept := kept + {t};
      open := open - {t};
      again := again + {t};
    }

    /** The type of the first time, or of the second for the root; the residual of the second. */
    method Settle(t: Target, kind: Type, ghost first: Split, second: Split, ghost b: set<Target>)
      requires Valid() && t in again && t in d && second == Conv(d[t], With(g, kept)) && first.res.Sub?
      requires (kind == first.t || kind == second.t) && exists k :: first == Conv(d[t], With(g, k))
      requires b <= open && (Root in b ==> rootSeen) && (Stratified(d, rank, low) ==> b !! low) && (!declined ==> Steady(d[t], g, b, Now()))
      requires !declined && Stratified(d, rank, low) && low == d.Keys ==> first == second
      requires !declined && Stratified(d, rank, low) && Settles(d, g, low) ==> first == Conv(d[t], With(g, low))
      modifies this`table, this`kept, this`again, this`assumed, this`undone
      ensures Valid() && named == old(named) && open == old(open) && again == old(again) - {t}
      ensures Here() == Settled(old(Here()), t, kind, second)
    {
      hide Stratified, Conv, Settles, Steady, Built, Right, Entries, Layered, Agrees, EntryOk;
      ghost var p := Now();
      var e := Entry(kind, second.res);
      var left := if second.res.Sub? then kept else kept - {t};
      ghost var q := Snap(named, left, open, again - {t});
      ghost var undone' := if second.t == kind && second.res.Sub? then undone else undone + {t};
      EntriesSettled(d, g, p, table, assumed, rootSeen, t, kind, first, second, b, q);
      if !declined {
        FoundFirst(d, g, t, b, p, second, low);
        if second.t == kind && second.res.Sub? {
          SettledSame(d, g, rank, low, p, table, assumed, undone, t, e, b, q);
        } else {
          SettledElse(d, g, rank, low, p, table, assumed, undone, t, kind, first, second, b, q);
        }
      }
      table := table[t := e];
      kept := left;
      assumed := assumed[t := b];
      again := again - {t};
      undone := undone';
    }

    /** The root: gone through again, type and residual, when it has a residual and was referred to. */
    method ConvertRoot() returns (twice: bool)
      requires Valid() && open == {Root} && again == {} && Here() == START
      modifies this
      ensures Valid() && (!declined ==> open == {} && again == {} && Root in table)
      ensures SplitOf(d, g) == if declined then None else Finished(table, twice)
    {
      hide Through, Finished, Entries, Right, Layered, Stratified, Steady, Conv, Settles, Later, Fine, Strata;
      twice := false;
      if Stratified(d, rank, low) { StrataAt(d, rank, low, Root); }
      ghost var o := Now();
      ghost var a := Meet(d[Root], rank(Root));
      NamedLater(o, Now());
      if declined { return; }
      var first := Conv(d[Root], With(g, kept));
      if first.res.NoSchema? {
        Close(Root, first, a);
      } else if rootSeen {
        twice := true;
        RepeatRoot(first, a);
      } else {
        ghost var p := Now();
        Reopen(Root, first, a);
        SteadyKept(d[Root], g, a, p, Now());
        Settle(Root, first.t, first, first, a);
      }
      if !declined { AllWritten(d, g, Now(), table, assumed, rootSeen); }
    }

    method RepeatRoot(first: Split, ghost a: set<Target>)
      requires Valid() && open == {Root} && again == {} && Root in d && first == Conv(d[Root], With(g, kept)) && first.res.Sub? && Clear(rank(Root)) && !declined
      requires a <= open && (Stratified(d, rank, low) ==> a !! low) && Steady(d[Root], g, a, Now())
      modifies this
      ensures Valid() && open == {} && again == {}
      ensures var st2 := Through(d, g, old(Here()).(kept := old(kept) + {Root}), d[Root]);
              var second := Conv(d[Root], With(g, st2.kept));
              Here() == Settled(st2, Root, second.t, second)
    {
      hide Through, Entries, Right, Layered, Stratified, Steady, Conv, Settles, Later, Fine, Strata, Passed;
      ghost var p := Now();
      Reopen(Root, first, a);
      ghost var q := Now();
      if Stratified(d, rank, low) { StrataAt(d, rank, low, Root); }
      ghost var b := Meet(d[Root], rank(Root));
      NamedLater(q, Now());
      var second := Conv(d[Root], With(g, kept));
      if !declined && Stratified(d, rank, low) && low == d.Keys { SameAgain(d[Root], g, a, p, q, Now(), Root, low); }
      Settle(Root, second.t, first, second, b);
    }

    method Decline()
      requires Valid()
      modifies this`declined
      ensures Went(old(Now()), old(declined), old(rootSeen), {}) && declined && Here() == old(Here()).(declined := true)
    {
      declined := true;
    }

    method See()
      requires Valid()
      modifies this`rootSeen
      ensures Went(old(Now()), old(declined), old(rootSeen), {}) && Here() == old(Here()).(rootSeen := true)
    {
      rootSeen := true;
    }

    /** Everything that converting a schema goes through. */
    method Meet(s: Schema, ghost r: nat) returns (ghost a: set<Target>)
      requires Valid() && Clear(r) && (Stratified(d, rank, low) ==> Strata(s, rank, r, low))
      modifies this
      ensures Went(old(Now()), old(declined), old(rootSeen), a)
      ensures !declined ==> Steady(s, g, a, Now())
      ensures Here() == Through(d, g, old(Here()), s)
      decreases |d.Keys - named|, 1, s, 3
    {
      hide ThroughEach, ThroughAny, Referred, Entries, Right, Layered, Stratified, Steady, Later, OwnParts;
      a := {};
      LaterSame(Now());
      if s.BoolSchema? || s == EMPTY_NODE || s.unevaluated.Some? || (s.ref.Some? && s.ref.value.RestOf?) {
        ClosedSteady(s, g, Now());
        return;
      }
      if s.ref.Some? {
        a := Refer(s.ref.value.t, r);
        if !declined { RefSteady(s, s.ref.value.t, g, a, Now()); }
        return;
      }
      PartsBelow(s, g, rank, r, low);
      a := MeetEach(OwnParts(s, g), s, r);
      ghost var p := Now();
      NamedLater(old(Now()), p);
      FewerLeft(d, old(named), named);
      ghost var b := MeetEach(ListOf(s.allOf), s, r);
      ghost var q := Now();
      LaterChains(old(Now()), p, q);
      NamedLater(old(Now()), q);
      FewerLeft(d, old(named), named);
      ghost var c := MeetAny(ListOf(s.anyOf), s, r);
      LaterChains(old(Now()), q, Now());
      LaterChains(p, q, Now());
      if !declined {
        FirstStays(OwnParts(s, g), |OwnParts(s, g)|, g, a, p, a + b + c, Now());
        FirstStays(ListOf(s.allOf), |ListOf(s.allOf)|, g, b, q, a + b + c, Now());
        LaterSame(Now());
        AnyStays(ListOf(s.anyOf), g, c, Now(), a + b + c, Now());
        NodeSteady(s, g, a + b + c, Now());
      }
      a := a + b + c;
    }

    method MeetEach(ss: seq<Schema>, ghost bound: Schema, ghost r: nat) returns (ghost a: set<Target>)
      requires Valid() && Clear(r) && forall i :: 0 <= i < |ss| ==> ss[i] < bound && (Stratified(d, rank, low) ==> Strata(ss[i], rank, r, low))
      modifies this
      ensures Went(old(Now()), old(declined), old(rootSeen), a)
      ensures !declined ==> SteadyFirst(ss, |ss|, g, a, Now())
      ensures Here() == ThroughEach(d, g, old(Here()), ss, bound)
      decreases |d.Keys - named|, 1, bound, 2
    {
      hide Through, Entries, Right, Layered, Stratified, Steady, Later, Strata;
      a := {};
      LaterSame(Now());
      var i := 0;
      while i < |ss|
        invariant 0 <= i <= |ss| && Went(old(Now()), old(declined), old(rootSeen), a) && open == old(open)
        invariant !declined ==> SteadyFirst(ss, i, g, a, Now())
        invariant Here() == ThroughEach(d, g, old(Here()), ss[..i], bound)
      {
        assert ss[..i + 1][..i] == ss[..i];
        ghost var p := Now();
        FewerLeft(d, old(named), named) by { NamedLater(old(Now()), Now()); }
        ghost var b := Meet(ss[i], r);
        LaterChains(old(Now()), p, Now());
        if !declined {
          FirstStays(ss, i, g, a, p, a + b, Now());
          LaterSame(Now());
          SteadyStays(ss[i], g, b, Now(), a + b, Now());
        }
        a := a + b;
        i := i + 1;
      }
      assert ss[..|ss|] == ss;
    }

    /** The branches of an anyOf, up to the first with a residual. */
    method MeetAny(bs: seq<Schema>, ghost bound: Schema, ghost r: nat) returns (ghost a: set<Target>)
      requires Valid() && Clear(r) && forall i :: 0 <= i < |bs| ==> bs[i] < bound && (Stratified(d, rank, low) ==> Strata(bs[i], rank, r, low))
      modifies this
      ensures Went(old(Now()), old(declined), old(rootSeen), a)
      ensures !declined ==> SteadyAny(bs, g, a, Now())
      ensures Here() == ThroughAny(d, g, old(Here()), bs, 0, bound)
      decreases |d.Keys - named|, 1, bound, 2
    {
      hide Through, Entries, Right, Layered, Stratified, Steady, Later, Strata, Conv;
      a := {};
      LaterSame(Now());
      var i := 0;
      while i < |bs|
        invariant 0 <= i <= |bs| && Went(old(Now()), old(declined), old(rootSeen), a) && open == old(open)
        invariant !declined ==> SteadyFirst(bs, i, g, a, Now())
        invariant ThroughAny(d, g, old(Here()), bs, 0, bound) == ThroughAny(d, g, Here(), bs, i, bound)
      {
        ghost var p := Now();
        FewerLeft(d, old(named), named) by { NamedLater(old(Now()), Now()); }
        ghost var b := Meet(bs[i], r);
        LaterChains(old(Now()), p, Now());
        if !declined {
          FirstStays(bs, i, g, a, p, a + b, Now());
          LaterSame(Now());
          SteadyStays(bs[i], g, b, Now(), a + b, Now());
        }
        a := a + b;
        i := i + 1;
        if Conv(bs[i - 1], With(g, kept)).res.Sub? {
          assert !declined ==> SteadyFirst(bs, i, g, a, Now());
          return;
        }
      }
    }
  }

  lemma BuiltOf(d: Document, g: Given, p: Snap, tab: Table, assumed: Assumed, rootSeen: bool)
    requires Entries(d, g, p, tab, assumed, rootSeen)
    ensures Built(d, g, tab) && p.again <= p.kept
  {
    hide Built;
  }

  /** Once a target is no longer open, a set that agrees has to agree on it too. */
  lemma AgreesMore(p: Snap, q: Snap, t: Target)
    requires q.named == p.named && q.open == p.open - {t} && t in p.named && t in p.open
    requires forall u :: u != t ==> (u in q.kept <==> u in p.kept)
    ensures forall k :: Agrees(k, q) <==> Agrees(k, p) && (t in k <==> t in q.kept)
  {
  }

  lemma AgreesSame(p: Snap, q: Snap)
    requires q.named == p.named && q.open == p.open && q.kept == p.kept
    ensures forall k :: Agrees(k, q) ==> Agrees(k, p)
  {
  }

  lemma LowAgrees(d: Document, g: Given, rank: Target -> nat, low: set<Target>, p: Snap, q: Snap, t: Target, assumed: Assumed, undone: set<Target>)
    requires Layered(d, g, rank, low, p, assumed, undone)
    requires forall k :: Agrees(k, q) <==> Agrees(k, p) && (t in k <==> t in q.kept)
    requires Stratified(d, rank, low) && Settles(d, g, low) && Agrees(low, p) ==> (t in low <==> t in q.kept)
    ensures Stratified(d, rank, low) && Settles(d, g, low) ==> Agrees(low, q)
  {
    hide Stratified, Settles, Agrees;
  }

  lemma LowSame(d: Document, g: Given, rank: Target -> nat, low: set<Target>, p: Snap, q: Snap, assumed: Assumed, undone: set<Target>)
    requires Layered(d, g, rank, low, p, assumed, undone) && q.named == p.named && q.open == p.open && q.kept == p.kept
    ensures Stratified(d, rank, low) && Settles(d, g, low) ==> Agrees(low, q)
  {
    hide Stratified, Settles;
  }

  lemma LayeredKept(d: Document, g: Given, rank: Target -> nat, low: set<Target>, p: Snap, assumed: Assumed, undone: set<Target>, q: Snap)
    requires Layered(d, g, rank, low, p, assumed, undone)
    requires Stratified(d, rank, low) && Settles(d, g, low) ==> Agrees(low, q)
    ensures Layered(d, g, rank, low, q, assumed, undone)
  {
    hide Stratified, Settles, Agrees;
  }

  /** Where the second time differs from the first, there are no strata of that kind. */
  lemma NotLayered(d: Document, g: Given, rank: Target -> nat, low: set<Target>, p: Snap, assumed: Assumed, undone: set<Target>, kind: Type, first: Split, second: Split, t: Target)
    requires Layered(d, g, rank, low, p, assumed, undone) && t in d && first.res.Sub? && (kind == first.t || kind == second.t) && !(second.t == kind && second.res.Sub?)
    requires Stratified(d, rank, low) && low == d.Keys ==> first == second
    requires Stratified(d, rank, low) && Settles(d, g, low) ==> first == Conv(d[t], With(g, low))
    requires Stratified(d, rank, low) && Settles(d, g, low) && Agrees(low, p) ==> second == Conv(d[t], With(g, low))
    ensures Stratified(d, rank, low) ==> low != d.Keys && !Settles(d, g, low)
  {
    hide Stratified, Settles, Agrees, Conv;
  }

  /** What was found without assuming anything of a target stays when that is known to have a residual. */
  lemma SteadyKept(s: Schema, g: Given, a: set<Target>, p: Snap, q: Snap)
    requires Steady(s, g, a, p) && Fine(p) && Root in p.open && Root !in a && a <= p.open
    requires q == Snap(p.named, p.kept + {Root}, p.open - {Root}, p.again + {Root})
    ensures Steady(s, g, a, q) && Conv(s, With(g, q.kept)) == Conv(s, With(g, p.kept))
  {
    hide Conv;
    assert Agrees(q.kept, p) && q.kept !! a;
    assert forall k :: Agrees(k, q) ==> Agrees(k, p);
  }

  lemma AllWritten(d: Document, g: Given, p: Snap, tab: Table, assumed: Assumed, rootSeen: bool)
    requires Entries(d, g, p, tab, assumed, rootSeen) && p.open == {} && p.again == {}
    ensures tab.Keys == p.named
  {
    hide Built;
  }

  lemma EntriesSettled(d: Document, g: Given, p: Snap, tab: Table, assumed: Assumed, rootSeen: bool, t: Target, kind: Type, first: Split, second: Split, b: set<Target>, q: Snap)
    requires Entries(d, g, p, tab, assumed, rootSeen) && t in p.again && t in d && p.open !! p.again && (Root in b ==> rootSeen) && (kind == first.t || kind == second.t)
    requires second == Conv(d[t], With(g, p.kept)) && exists k :: first == Conv(d[t], With(g, k))
    requires q == Snap(p.named, if second.res.Sub? then p.kept else p.kept - {t}, p.open, p.again - {t})
    ensures Entries(d, g, q, tab[t := Entry(kind, second.res)], assumed[t := b], rootSeen)
  {
    hide Conv, Built, Entries;
    BuiltOf(d, g, p, tab, assumed, rootSeen);
    var k :| first == Conv(d[t], With(g, k));
    if kind == first.t { BuiltMore(d, g, tab, t, first, second, k, p.kept); } else { BuiltMore(d, g, tab, t, second, second, p.kept, p.kept); }
    EntriesClosed(d, g, p, tab, assumed, rootSeen, t, Entry(kind, second.res), b, q);
  }

  lemma SettledSame(d: Document, g: Given, rank: Target -> nat, low: set<Target>, p: Snap, tab: Table, assumed: Assumed, undone: set<Target>, t: Target, e: Entry, b: set<Target>, q: Snap)
    requires Right(d, g, p, tab, assumed, undone) && Layered(d, g, rank, low, p, assumed, undone)
    requires t in d && EntryOk(d[t], g, e, b, p) && (Stratified(d, rank, low) ==> b !! low) && q.named == p.named && q.open == p.open && q.kept == p.kept
    ensures Right(d, g, q, tab[t := e], assumed[t := b], undone) && Layered(d, g, rank, low, q, assumed[t := b], undone)
  {
    hide Right, Layered, Stratified, Settles, Agrees, EntryOk;
    AgreesSame(p, q);
    RightClosed(d, g, p, tab, assumed, undone, t, e, b, q);
    LowSame(d, g, rank, low, p, q, assumed, undone);
    LayeredClosed(d, g, rank, low, p, assumed, undone, t, b, q);
  }

  lemma SettledElse(d: Document, g: Given, rank: Target -> nat, low: set<Target>, p: Snap, tab: Table, assumed: Assumed, undone: set<Target>, t: Target,
                    kind: Type, first: Split, second: Split, b: set<Target>, q: Snap)
    requires Layered(d, g, rank, low, p, assumed, undone) && t in d && first.res.Sub? && (kind == first.t || kind == second.t) && !(second.t == kind && second.res.Sub?)
    requires Stratified(d, rank, low) ==> b !! low
    requires Stratified(d, rank, low) && low == d.Keys ==> first == second
    requires Stratified(d, rank, low) && Settles(d, g, low) ==> first == Conv(d[t], With(g, low))
    requires Stratified(d, rank, low) && Settles(d, g, low) && Agrees(low, p) ==> second == Conv(d[t], With(g, low))
    ensures Right(d, g, q, tab[t := Entry(kind, second.res)], assumed[t := b], undone + {t}) && Layered(d, g, rank, low, q, assumed[t := b], undone + {t})
  {
    hide Right, Layered, Stratified, Settles, Agrees, Conv;
    NotLayered(d, g, rank, low, p, assumed, undone, kind, first, second, t);
    LayeredUndone(d, g, rank, low, p, assumed, undone, t, b, q);
    NothingRight(d, g, q, tab[t := Entry(kind, second.res)], assumed[t := b], undone + {t});
  }

  lemma LayeredUndone(d: Document, g: Given, rank: Target -> nat, low: set<Target>, p: Snap, assumed: Assumed, undone: set<Target>, t: Target, b: set<Target>, q: Snap)
    requires Layered(d, g, rank, low, p, assumed, undone) && (Stratified(d, rank, low) ==> b !! low && low != d.Keys && !Settles(d, g, low))
    ensures Layered(d, g, rank, low, q, assumed[t := b], undone + {t})
  {
    hide Stratified, Settles, Agrees;
  }

  lemma NothingRight(d: Document, g: Given, p: Snap, tab: Table, assumed: Assumed, undone: set<Target>)
    requires undone != {}
    ensures Right(d, g, p, tab, assumed, undone)
  {
  }

  lemma StrataAt(d: Document, rank: Target -> nat, low: set<Target>, t: Target)
    requires t in d && Stratified(d, rank, low)
    ensures Strata(d[t], rank, rank(t), low)
  {
  }

  lemma BuiltMore(d: Document, g: Given, tab: Table, t: Target, first: Split, second: Split, k: set<Target>, l: set<Target>)
    requires Built(d, g, tab) && t in d && first == Conv(d[t], With(g, k)) && second == Conv(d[t], With(g, l))
    ensures Built(d, g, tab[t := Entry(first.t, second.res)])
  {
    hide Conv;
    var more := tab[t := Entry(first.t, second.res)];
    forall u | u in more ensures u in d && exists k, l :: more[u] == Entry(Conv(d[u], With(g, k)).t, Conv(d[u], With(g, l)).res) {
      if u == t {
        assert more[u] == Entry(Conv(d[u], With(g, k)).t, Conv(d[u], With(g, l)).res);
      } else {
        assert u in tab;
      }
    }
  }

  /** What was found is what the settled set gives. */
  lemma FoundFirst(d: Document, g: Given, t: Target, a: set<Target>, p: Snap, found: Split, low: set<Target>)
    requires t in d && Steady(d[t], g, a, p) && found == Conv(d[t], With(g, p.kept))
    ensures EntryOk(d[t], g, Entry(found.t, found.res), a, p)
    ensures Settles(d, g, low) && Agrees(low, p) && a !! low ==> found == Conv(d[t], With(g, low)) && (t in low <==> found.res.Sub?)
  {
    hide Conv, Agrees;
  }

  /** With nothing assumed, the second time finds what the first did. */
  lemma SameAgain(s: Schema, g: Given, a: set<Target>, p: Snap, q: Snap, r: Snap, t: Target, low: set<Target>)
    requires Steady(s, g, a, p) && Fine(p) && t in p.open && q == Snap(p.named, p.kept + {t}, p.open - {t}, p.again + {t}) && Later(q, r)
    requires a <= p.open && p.named <= low && a !! low
    ensures Conv(s, With(g, r.kept)) == Conv(s, With(g, p.kept))
  {
    hide Conv;
    assert a == {};
    assert Agrees(r.kept, p);
  }

  lemma LaterSame(p: Snap)
    ensures Later(p, p)
  {
  }

  /** A target closed, whatever was found of it. */
  predicate Passed(p: Snap, e: Snap, t: Target) {
    && p.named <= e.named && e.open == p.open - {t} && e.again == p.again
    && forall u :: u in p.named && u != t ==> (u in e.kept <==> u in p.kept)
  }

  lemma PassedTwice(p: Snap, z: Snap, e: Snap, t: Target)
    requires Fine(p) && t in p.open && Later(Snap(p.named, p.kept + {t}, p.open - {t}, p.again + {t}), z)
    requires e.named == z.named && e.open == z.open && e.again == z.again - {t} && (e.kept == z.kept || e.kept == z.kept - {t})
    ensures Passed(p, e, t)
  {
  }

  /** From outside, a target opened, gone through and closed is one more name. */
  lemma Around(o: Snap, p: Snap, e: Snap, t: Target)
    requires Fine(o) && t !in o.named && Later(Snap(o.named + {t}, o.kept, o.open + {t}, o.again), p) && Passed(p, e, t)
    ensures Later(o, e) && t in e.named
  {
  }

  lemma NamedLater(p: Snap, q: Snap)
    requires Later(p, q)
    ensures p.named <= q.named && q.open == p.open && q.again == p.again
  {
  }

  /** With everything closed, each entry is what its schema gives once it is known which targets have a residual. */
  lemma ConsistentAtEnd(d: Document, g: Given, rank: Target -> nat, low: set<Target>, p: Snap, tab: Table, assumed: Assumed, rootSeen: bool, undone: set<Target>)
    requires Entries(d, g, p, tab, assumed, rootSeen) && Right(d, g, p, tab, assumed, undone) && Layered(d, g, rank, low, p, assumed, undone)
    requires p.open == {} && p.again == {} && p.kept <= p.named <= d.Keys
    requires Stratified(d, rank, low) && (low == d.Keys || Settles(d, g, low))
    ensures Consistent(d, g, tab)
  {
    hide Conv, Settles, Stratified, Built;
    assert KeptOf(tab) == p.kept;
    forall t | t in tab ensures Split(tab[t].t, tab[t].res) == Conv(d[t], With(g, p.kept)) {
      assert p.kept !! assumed[t];
      assert Agrees(p.kept, p);
    }
  }

  /**
   The whole conversion. On every document what is written refuses nothing that the schema accepts; it is
   consistent, so that nothing is lost, where no reference on a cycle leads to a target with a residual; and then
   exactly the schemas that a type can say have none.
   */
  method SplitDocument(d: Document, g: Given, ghost rank: Target -> nat, ghost low: set<Target>) returns (out: Option<Table>)
    requires Root in d
    ensures out == SplitOf(d, g)
    ensures out.Some? ==> Root in out.value && Built(d, g, out.value)
    ensures out.Some? && Stratified(d, rank, low) && (low == d.Keys || Settles(d, g, low)) ==>
              Consistent(d, g, out.value) && SplitPrecise.TableCarried(d, g, out.value)
  {
    hide Conv, Stratified, Settles, Layered, Right, Built, SplitOf, Consistent, SplitPrecise.TableCarried;
    var sp := new Splitter(d, g, rank, low);
    var twice := sp.ConvertRoot();
    if sp.declined { return None; }
    var root := sp.table[Root];
    if root.t == Universal() || (root.res.Sub? && !twice && !NoRoot(root.res.schema)) { return None; }
    out := Some(sp.table);
    if Stratified(d, rank, low) && (low == d.Keys || Settles(d, g, low)) {
      ConsistentAtEnd(d, g, rank, low, sp.Now(), sp.table, sp.assumed, sp.rootSeen, sp.undone);
      SplitPrecise.ConsistentCarried(d, g, sp.table);
    }
  }
}
