/** Keeping an error list in the reader's order as it grows, and sorting it locally (lib/combined-runtime.js:20-98). */
module ErrorOrder {

  /** One error; `branch` holds the closest branch's errors where it has any. */
  datatype Err = Err(schemaPath: string, instancePath: string, branch: Branch)

  datatype Branch = NoBranch | Branch(errors: seq<Err>)

  /** Some collapsed error, at any depth, holds more than one branch error. */
  predicate MultiBranch(x: Err) {
    match x.branch
    case NoBranch => false
    case Branch(b) => |b| > 1 || (|b| == 1 && MultiBranch(b[0]))
  }

  type Rank = Err -> int

  // ---------------------------------------------------------------- the reader's order

  predicate Sorted(s: seq<Err>, rank: Rank) {
    forall i, j :: 0 <= i < j < |s| ==> rank(s[i]) <= rank(s[j])
  }

  /** The errors of one rank, as they came. */
  function OfRank(s: seq<Err>, rank: Rank, q: int): seq<Err> {
    if s == [] then [] else OfRank(s[..|s| - 1], rank, q) + (if rank(s[|s| - 1]) == q then [s[|s| - 1]] else [])
  }

  /** In order, and within a rank as they came. */
  ghost predicate IsStableSort(s: seq<Err>, r: seq<Err>, rank: Rank) {
    |r| == |s| && Sorted(r, rank) && forall q :: OfRank(r, rank, q) == OfRank(s, rank, q)
  }

  /** An error whose own branch errors the reader has put in order. */
  function Settle(x: Err, srt: seq<Err> -> seq<Err>): Err {
    match x.branch case NoBranch => x case Branch(b) => x.(branch := Branch(srt(b)))
  }

  function SettleAll(s: seq<Err>, srt: seq<Err> -> seq<Err>): seq<Err> {
    seq(|s|, i requires 0 <= i < |s| => Settle(s[i], srt))
  }

  /** The reader's sort: stable by rank, branch errors too. */
  ghost predicate IsReader(srt: seq<Err> -> seq<Err>, rank: Rank) {
    forall s :: IsStableSort(SettleAll(s, srt), srt(s), rank)
  }

  lemma {:induction false} OfRankConcat(a: seq<Err>, b: seq<Err>, rank: Rank, q: int)
    ensures OfRank(a + b, rank, q) == OfRank(a, rank, q) + OfRank(b, rank, q)
    decreases |b|
  {
    if b == [] {
      assert a + b == a;
    } else {
      assert (a + b)[..|a + b| - 1] == a + b[..|b| - 1];
      OfRankConcat(a, b[..|b| - 1], rank, q);
    }
  }

  lemma {:induction false} OfRankHas(s: seq<Err>, rank: Rank, q: int)
    ensures OfRank(s, rank, q) != [] <==> exists i :: 0 <= i < |s| && rank(s[i]) == q
    decreases |s|
  {
    if s != [] {
      var init := s[..|s| - 1];
      OfRankHas(init, rank, q);
      assert forall i :: 0 <= i < |init| ==> init[i] == s[i];
    }
  }

  /** There is one stable sort. */
  lemma {:induction false} StableSortUnique(a: seq<Err>, b: seq<Err>, rank: Rank)
    requires |a| == |b| && Sorted(a, rank) && Sorted(b, rank) && forall q :: OfRank(a, rank, q) == OfRank(b, rank, q)
    ensures a == b
    decreases |a|
  {
    if a != [] {
      var n := |a| - 1;
      SameLast(a, b, rank);
      forall q ensures OfRank(a[..n], rank, q) == OfRank(b[..n], rank, q) {
        var x, y := OfRank(a[..n], rank, q), OfRank(b[..n], rank, q);
        assert OfRank(a, rank, q) == OfRank(b, rank, q);
        DropLast(x, y, a[n], rank(a[n]) == q);
      }
      StableSortUnique(a[..n], b[..n], rank);
      assert a == a[..n] + [a[n]] && b == b[..n] + [b[n]];
    }
  }

  lemma DropLast(x: seq<Err>, y: seq<Err>, l: Err, more: bool)
    requires x + (if more then [l] else []) == y + (if more then [l] else [])
    ensures x == y
  {
    if more {
      assert x == (x + [l])[..|x|] && y == (y + [l])[..|y|];
    } else {
      assert x + [] == x && y + [] == y;
    }
  }

  lemma SameLast(a: seq<Err>, b: seq<Err>, rank: Rank)
    requires |a| == |b| > 0 && Sorted(a, rank) && Sorted(b, rank) && forall q :: OfRank(a, rank, q) == OfRank(b, rank, q)
    ensures a[|a| - 1] == b[|b| - 1]
  {
    var n := |a| - 1;
    var qa, qb := rank(a[n]), rank(b[n]);
    OfRankHas(a, rank, qb);
    OfRankHas(b, rank, qb);
    OfRankHas(a, rank, qa);
    OfRankHas(b, rank, qa);
    assert rank(b[n]) == qb && OfRank(b, rank, qb) != [];
    assert rank(a[n]) == qa && OfRank(a, rank, qa) != [];
    var i :| 0 <= i < |a| && rank(a[i]) == qb;
    var j :| 0 <= j < |b| && rank(b[j]) == qa;
    assert qb <= qa && qa <= qb;
    var l := OfRank(a, rank, qa);
    assert l[|l| - 1] == a[n];
    assert OfRank(b, rank, qa)[|l| - 1] == b[n];
  }

  lemma {:induction false} SettledAlready(x: Err, srt: seq<Err> -> seq<Err>, rank: Rank)
    requires IsReader(srt, rank) && !MultiBranch(x)
    ensures Settle(x, srt) == x
    decreases x
  {
    if x.branch.Branch? {
      var b := x.branch.errors;
      assert IsStableSort(SettleAll(b, srt), srt(b), rank);
      if |b| == 1 {
        SettledAlready(b[0], srt, rank);
        assert SettleAll(b, srt) == b;
      } else {
        assert srt(b) == b;
      }
      OneSorted(b, srt(b), rank);
    }
  }

  lemma OneSorted(b: seq<Err>, r: seq<Err>, rank: Rank)
    requires |b| <= 1 && IsStableSort(b, r, rank)
    ensures r == b
  {
    StableSortUnique(r, b, rank);
  }

  /** A list in order, with nothing to order inside it, is what the reader would return. */
  lemma ReaderOfSorted(s: seq<Err>, r: seq<Err>, srt: seq<Err> -> seq<Err>, rank: Rank)
    requires IsReader(srt, rank) && (forall i :: 0 <= i < |s| ==> !MultiBranch(s[i])) && IsStableSort(s, r, rank)
    ensures r == srt(s)
  {
    forall i | 0 <= i < |s| ensures Settle(s[i], srt) == s[i] { SettledAlready(s[i], srt, rank); }
    assert SettleAll(s, srt) == s;
    assert IsStableSort(SettleAll(s, srt), srt(s), rank);
    StableSortUnique(r, srt(s), rank);
  }

  // ---------------------------------------------------------------- keys

  const UNKNOWN := -1

  /** The place in the reader's order a key stands for: exact keys say it, coarse ones say that of the reference. */
  function KeyOf(o: int): int { if o < 0 then -o - 2 else o }

  predicate Exact(o: int) { o >= 0 }

  /**
   What the generator promises of two errors and their keys: keys order as ranks do, equal exact keys
   and equal paths are equal ranks, and an exact key never coincides with a coarse one.
   */
  ghost predicate Agree(x: Err, o: int, y: Err, p: int, rank: Rank) {
    && (x.schemaPath == y.schemaPath ==> rank(x) == rank(y))
    && (o != UNKNOWN && p != UNKNOWN ==>
      && (KeyOf(o) < KeyOf(p) ==> rank(x) < rank(y))
      && (KeyOf(o) == KeyOf(p) ==> (Exact(o) <==> Exact(p)))
      && (o == p && Exact(o) ==> rank(x) == rank(y)))
  }

  ghost predicate KeysAgree(e: seq<Err>, os: seq<int>, rank: Rank)
    requires |e| <= |os|
  {
    forall i, j :: 0 <= i < |e| && 0 <= j < |e| ==> Agree(e[i], os[i], e[j], os[j], rank)
  }

  lemma PutAt(s: seq<int>, n: nat, o: int)
    requires n <= |s|
    ensures (if n < |s| then s[n := o] else s + [o])[..n + 1] == s[..n] + [o]
  {
    if n < |s| { assert s[n := o][..n + 1] == s[..n] + [o]; } else { assert (s + [o])[..n + 1] == s[..n] + [o]; }
  }

  // ---------------------------------------------------------------- the state

  class ApState {
    var mo: bool
    var lo: int
    var on: nat
    var os: seq<int>

    constructor ()
      ensures mo && lo == -1 && on == 0 && os == []
    {
      mo, lo, on, os := true, -1, 0, [];
    }

    /** At the top of each call; the ordinals of an earlier one may still be in the array. */
    method Reset()
      modifies this
      ensures mo && lo == -1 && on == 0 && os == old(os)
    {
      mo, lo, on := true, -1, 0;
    }

    /** While `mo` holds, the list so far is in the reader's order. */
    ghost predicate Tracks(e: seq<Err>, rank: Rank) reads this {
      && on == |e| && |e| <= |os| && KeysAgree(e, os[..on], rank)
      && (mo ==> InStep(e, os[..on], lo, rank))
    }

    method Ap(e: seq<Err>, x: Err, o: int, ghost rank: Rank) returns (r: seq<Err>)
      requires Tracks(e, rank) && KeysAgree(e + [x], os[..|e|] + [o], rank)
      modifies this
      ensures r == e + [x] && Tracks(r, rank) && os[..|r|] == old(os)[..|e|] + [o]
    {
      hide KeysAgree, InStep;
      ghost var before := os[..on];
      ghost var mo0, lo0 := mo, lo;
      if o < 0 {
        if o == UNKNOWN {
          mo := false;
        } else {
          var k := KeyOf(o);
          if k < lo || (k == lo && (e == [] || x.schemaPath != e[|e| - 1].schemaPath)) { mo := false; } else { lo := k; }
        }
      } else if o < lo {
        mo := false;
      } else {
        lo := o;
      }
      if MultiBranch(x) { mo := false; }
      if mo { StepOn(e, before, lo0, x, o, rank); }
      PutAt(os, on, o);
      os := if on < |os| then os[on := o] else os + [o];
      on := on + 1;
      r := e + [x];
    }
  }

  /** A list in order whose errors all have a known key, with `lo` the key of the last. */
  ghost predicate InStep(e: seq<Err>, os: seq<int>, lo: int, rank: Rank) {
    && |e| == |os| && Sorted(e, rank) && (forall i :: 0 <= i < |e| ==> os[i] != UNKNOWN && !MultiBranch(e[i]))
    && lo == if e == [] then -1 else KeyOf(os[|e| - 1])
  }

  lemma StepOn(e: seq<Err>, os: seq<int>, lo: int, x: Err, o: int, rank: Rank)
    requires InStep(e, os, lo, rank) && KeysAgree(e + [x], os + [o], rank) && !MultiBranch(x) && o != UNKNOWN
    requires lo < KeyOf(o) || (lo == KeyOf(o) && (Exact(o) || (e != [] && x.schemaPath == e[|e| - 1].schemaPath)))
    ensures InStep(e + [x], os + [o], KeyOf(o), rank)
  {
    hide KeysAgree, Sorted;
    if e != [] {
      LastAgrees(e, os, x, o, rank);
      assert os[|e| - 1] != UNKNOWN;
    }
    SortedPush(e, x, rank);
    assert forall i :: 0 <= i < |e| ==> (e + [x])[i] == e[i] && (os + [o])[i] == os[i];
  }

  lemma LastAgrees(e: seq<Err>, os: seq<int>, x: Err, o: int, rank: Rank)
    requires e != [] && |e| == |os| && KeysAgree(e + [x], os + [o], rank)
    ensures Agree(e[|e| - 1], os[|e| - 1], x, o, rank)
  {
    hide Agree;
    var n := |e| - 1;
    assert Agree((e + [x])[n], (os + [o])[n], (e + [x])[n + 1], (os + [o])[n + 1], rank);
  }

  lemma SortedPush(e: seq<Err>, x: Err, rank: Rank)
    requires Sorted(e, rank) && (e != [] ==> rank(e[|e| - 1]) <= rank(x))
    ensures Sorted(e + [x], rank)
  {
  }

  /** If `mo` is still true the list already is what the reader returns. */
  lemma InOrder(s: ApState, e: seq<Err>, srt: seq<Err> -> seq<Err>, rank: Rank)
    requires s.Tracks(e, rank) && s.mo && IsReader(srt, rank)
    ensures srt(e) == e
  {
    ReaderOfSorted(e, e, srt, rank);
  }

  // ---------------------------------------------------------------- the local sort

  /** Keys order the list as ranks do. */
  ghost predicate KeysRank(e: seq<Err>, ks: seq<int>, rank: Rank) {
    |e| == |ks| && forall i, j :: 0 <= i < |e| && 0 <= j < |e| ==> (ks[i] <= ks[j] <==> rank(e[i]) <= rank(e[j]))
  }

  /** The keys without the mark of a coarse one. */
  function Keys(os: seq<int>): seq<int> { seq(|os|, i requires 0 <= i < |os| => KeyOf(os[i])) }

  /** Two errors under one key, one of them coarse, with different paths: only the reader can tell. */
  predicate Undecided(e: seq<Err>, os: seq<int>, i: nat, j: nat)
    requires i < |e| && j < |e| && |e| == |os|
  {
    KeyOf(os[i]) == KeyOf(os[j]) && !(Exact(os[i]) && Exact(os[j])) && e[i].schemaPath != e[j].schemaPath
  }

  lemma KeysDecide(e: seq<Err>, os: seq<int>, rank: Rank)
    requires |e| == |os| && KeysAgree(e, os, rank) && forall i :: 0 <= i < |e| ==> os[i] != UNKNOWN
    requires forall i, j :: 0 <= j < i < |e| ==> !Undecided(e, os, i, j)
    ensures KeysRank(e, Keys(os), rank)
  {
    var ks := Keys(os);
    forall i, j | 0 <= i < |e| && 0 <= j < |e| ensures ks[i] <= ks[j] <==> rank(e[i]) <= rank(e[j]) {
      assert Agree(e[i], os[i], e[j], os[j], rank) && Agree(e[j], os[j], e[i], os[i], rank);
      if ks[i] == ks[j] && i != j {
        if i < j { assert !Undecided(e, os, j, i); } else { assert !Undecided(e, os, i, j); }
      }
    }
  }

  /** Moving `x` in front of errors of higher rank only. */
  lemma MovePast(a: seq<Err>, higher: seq<Err>, x: Err, rank: Rank, q: int)
    requires forall i :: 0 <= i < |higher| ==> rank(higher[i]) > rank(x)
    ensures OfRank(a + [x] + higher, rank, q) == OfRank(a + higher + [x], rank, q)
  {
    OfRankConcat(a + [x], higher, rank, q);
    OfRankConcat(a, [x], rank, q);
    OfRankConcat(a + higher, [x], rank, q);
    OfRankConcat(a, higher, rank, q);
    assert OfRank([x], rank, q) == if rank(x) == q then [x] else [];
    if rank(x) == q {
      OfRankHas(higher, rank, q);
      assert OfRank(a, rank, q) + [x] + [] == OfRank(a, rank, q) + [] + [x];
    } else {
      var oa, oh := OfRank(a, rank, q), OfRank(higher, rank, q);
      assert oa + [] + oh == oa + oh + [];
    }
  }

  /** The list with its element at `i` moved down to `at`. */
  function Moved<T>(a: seq<T>, at: nat, i: nat): seq<T>
    requires at <= i < |a|
  {
    a[..at] + [a[i]] + a[at..i] + a[i + 1..]
  }

  lemma MovedAt<T>(a: seq<T>, at: nat, i: nat)
    requires at <= i < |a|
    ensures |Moved(a, at, i)| == |a|
    ensures forall p :: 0 <= p < |a| ==> Moved(a, at, i)[p] == a[if p < at || p > i then p else if p == at then i else p - 1]
  {
  }

  lemma MovedKeys(a: seq<Err>, ks: seq<int>, at: nat, i: nat, rank: Rank)
    requires KeysRank(a, ks, rank) && at <= i < |a|
    ensures KeysRank(Moved(a, at, i), Moved(ks, at, i), rank)
  {
    hide Moved;
    MovedAt(a, at, i);
    MovedAt(ks, at, i);
  }

  lemma MovedSorted(a: seq<Err>, at: nat, i: nat, rank: Rank)
    requires at <= i < |a| && Sorted(a[..i], rank)
    requires at > 0 ==> rank(a[at - 1]) <= rank(a[i])
    requires forall p :: at <= p < i ==> rank(a[p]) > rank(a[i])
    ensures Sorted(Moved(a, at, i)[..i + 1], rank)
  {
    hide Moved;
    MovedAt(a, at, i);
    var m := Moved(a, at, i);
    assert forall p, q :: 0 <= p < q < i ==> rank(a[..i][p]) <= rank(a[..i][q]);
    var t := m[..i + 1];
    forall p, q | 0 <= p < q < |t| ensures rank(t[p]) <= rank(t[q]) {
      assert t[p] == m[p] && t[q] == m[q];
      if at > 0 && p < at && p < at - 1 { assert rank(a[..i][p]) <= rank(a[..i][at - 1]); }
    }
  }

  lemma MovedStable(a: seq<Err>, at: nat, i: nat, rank: Rank, q: int)
    requires at <= i < |a| && forall p :: at <= p < i ==> rank(a[p]) > rank(a[i])
    ensures OfRank(Moved(a, at, i), rank, q) == OfRank(a, rank, q)
  {
    var higher := a[at..i];
    MovePast(a[..at], higher, a[i], rank, q);
    assert a == a[..at] + higher + [a[i]] + a[i + 1..];
    OfRankConcat(a[..at] + higher + [a[i]], a[i + 1..], rank, q);
    OfRankConcat(a[..at] + [a[i]] + higher, a[i + 1..], rank, q);
  }

  lemma KeysPlace(a: seq<Err>, ks: seq<int>, at: nat, i: nat, rank: Rank)
    requires KeysRank(a, ks, rank) && at <= i < |a| == |ks| && (at > 0 ==> ks[at - 1] <= ks[i]) && forall p :: at <= p < i ==> ks[p] > ks[i]
    ensures at > 0 ==> rank(a[at - 1]) <= rank(a[i])
    ensures forall p :: at <= p < i ==> rank(a[p]) > rank(a[i])
  {
  }

  /** `b` is `a` with the elements from `at` up to `i` copied one place up; what stands at `at` does not matter. */
  ghost predicate Gap<T>(b: seq<T>, a: seq<T>, at: nat, i: nat) {
    at <= i < |a| == |b| && b[..at] == a[..at] && b[at + 1..i + 1] == a[at..i] && b[i + 1..] == a[i + 1..]
  }

  lemma GapStart<T>(a: seq<T>, i: nat)
    requires i < |a|
    ensures Gap(a, a, i, i)
  {
  }

  lemma GapDown<T>(b: seq<T>, a: seq<T>, at: nat, i: nat)
    requires Gap(b, a, at, i) && at > 0
    ensures b[at - 1] == a[at - 1] && Gap(b[at := b[at - 1]], a, at - 1, i)
  {
    var c := b[at := b[at - 1]];
    assert b[at - 1] == b[..at][at - 1] == a[at - 1];
    assert c[..at - 1] == b[..at][..at - 1];
    assert c[at..i + 1] == [b[at - 1]] + b[at + 1..i + 1];
  }

  lemma GapFilled<T>(b: seq<T>, a: seq<T>, at: nat, i: nat)
    requires Gap(b, a, at, i)
    ensures b[at := a[i]] == Moved(a, at, i)
  {
    forall p | 0 <= p < |a| ensures b[at := a[i]][p] == Moved(a, at, i)[p] {
      GapAt(b, a, at, i, p);
      MovedAt(a, at, i);
    }
  }

  lemma GapAt<T>(b: seq<T>, a: seq<T>, at: nat, i: nat, p: nat)
    requires Gap(b, a, at, i) && p < |a|
    ensures p < at || p > i ==> b[p] == a[p]
    ensures at < p <= i ==> b[p] == a[p - 1]
  {
    if p < at { assert b[..at][p] == a[..at][p]; }
    else if at < p <= i { assert b[at + 1..i + 1][p - at - 1] == a[at..i][p - at - 1]; }
    else if p > i { assert b[i + 1..][p - i - 1] == a[i + 1..][p - i - 1]; }
  }

  /** Copies up what has a higher key, and tells where the element belongs. */
  method ShiftUp(s: ApState, e: array<Err>, i: nat) returns (at: nat)
    requires i < e.Length == |s.os|
    modifies e, s`os
    ensures |s.os| == e.Length && Gap(e[..], old(e[..]), at, i) && Gap(s.os, old(s.os), at, i)
    ensures at <= i && (forall p :: at <= p < i ==> old(s.os)[p] > old(s.os)[i]) && (at > 0 ==> old(s.os)[at - 1] <= old(s.os)[i])
  {
    hide Gap;
    ghost var a, ks := e[..], s.os;
    var k := s.os[i];
    GapStart(a, i);
    GapStart(ks, i);
    at := i;
    while at > 0 && s.os[at - 1] > k
      invariant at <= i && |s.os| == e.Length && Gap(e[..], a, at, i) && Gap(s.os, ks, at, i)
      invariant forall p :: at <= p < i ==> ks[p] > k
    {
      GapDown(e[..], a, at, i);
      GapDown(s.os, ks, at, i);
      s.os := s.os[at := s.os[at - 1]];
      e[at] := e[at - 1];
      at := at - 1;
    }
    if at > 0 { GapDown(s.os, ks, at, i); }
  }

  /** One step of the insertion sort over the two arrays. */
  method Insert(s: ApState, e: array<Err>, i: nat, ghost rank: Rank)
    requires i < e.Length == |s.os| && KeysRank(e[..], s.os, rank) && Sorted(e[..i], rank)
    modifies e, s`os
    ensures e.Length == |s.os| && KeysRank(e[..], s.os, rank) && Sorted(e[..i + 1], rank)
    ensures forall q :: OfRank(e[..], rank, q) == OfRank(old(e[..]), rank, q)
  {
    hide OfRank, KeysRank, Sorted, Moved, Gap;
    ghost var a, ks := e[..], s.os;
    var k, x := s.os[i], e[i];
    var at := ShiftUp(s, e, i);
    GapFilled(e[..], a, at, i);
    GapFilled(s.os, ks, at, i);
    s.os := s.os[at := k];
    e[at] := x;
    assert e[..] == Moved(a, at, i);
    InsertDone(a, ks, at, i, rank);
  }

  lemma InsertDone(a: seq<Err>, ks: seq<int>, at: nat, i: nat, rank: Rank)
    requires i < |a| == |ks| && KeysRank(a, ks, rank) && Sorted(a[..i], rank)
    requires at <= i && (forall p :: at <= p < i ==> ks[p] > ks[i]) && (at > 0 ==> ks[at - 1] <= ks[i])
    ensures |Moved(a, at, i)| == |a| && KeysRank(Moved(a, at, i), Moved(ks, at, i), rank) && Sorted(Moved(a, at, i)[..i + 1], rank)
    ensures forall q :: OfRank(Moved(a, at, i), rank, q) == OfRank(a, rank, q)
  {
    hide OfRank, KeysRank, Sorted, Moved;
    MovedAt(a, at, i);
    MovedKeys(a, ks, at, i, rank);
    KeysPlace(a, ks, at, i, rank);
    MovedSorted(a, at, i, rank);
    forall q ensures OfRank(Moved(a, at, i), rank, q) == OfRank(a, rank, q) { MovedStable(a, at, i, rank, q); }
  }

  /** Either the list is sorted here, or the reader is asked; the answer is the reader's either way. */
  method Sr(s: ApState, e: array<Err>, srt: seq<Err> -> seq<Err>, ghost rank: Rank) returns (r: seq<Err>)
    requires IsReader(srt, rank) && |s.os| >= s.on && (e.Length == s.on ==> KeysAgree(e[..], s.os[..s.on], rank))
    modifies s, e
    ensures r == srt(old(e[..]))
  {
    var n := e.Length;
    if n > 16 || n != s.on { return srt(e[..]); }
    ghost var os := s.os[..n];
    ghost var list := e[..];
    s.os := s.os[..n];
    var coarse: set<nat> := {};
    var i: nat := 0;
    while i < n
      invariant i <= n && e[..] == list && |s.os| == n
      invariant forall j :: 0 <= j < i ==> os[j] != UNKNOWN && !MultiBranch(list[j]) && s.os[j] == KeyOf(os[j])
      invariant forall j :: i <= j < n ==> s.os[j] == os[j]
      invariant forall j: nat :: j in coarse <==> j < i && !Exact(os[j])
    {
      var k := s.os[i];
      if k < 0 {
        if k == UNKNOWN { return srt(e[..]); }
        k := KeyOf(k);
        s.os := s.os[i := k];
        coarse := coarse + {i};
      }
      if MultiBranch(e[i]) { return srt(e[..]); }
      i := i + 1;
    }
    if coarse != {} {
      var undecided := AnyUndecided(e[..], os, s.os, coarse);
      if undecided { return srt(e[..]); }
    } else {
      assert forall i: nat, j: nat :: j < i < n ==> !Undecided(list, os, i, j);
    }
    KeysDecide(list, os, rank);
    assert s.os == Keys(os);
    if n > 0 {
      i := 1;
      while i < n
        invariant 1 <= i <= n && |s.os| == n && KeysRank(e[..], s.os, rank) && Sorted(e[..i], rank)
        invariant forall q :: OfRank(e[..], rank, q) == OfRank(list, rank, q)
      {
        Insert(s, e, i, rank);
        i := i + 1;
      }
      assert e[..i] == e[..];
    }
    r := e[..];
    ReaderOfSorted(list, r, srt, rank);
  }

  /** Whether two errors share a key, one of them coarse, under different paths. */
  method AnyUndecided(e: seq<Err>, ghost os: seq<int>, ks: seq<int>, coarse: set<nat>) returns (b: bool)
    requires |e| == |os| && ks == Keys(os) && forall j: nat :: j in coarse <==> j < |e| && !Exact(os[j])
    ensures b <==> exists i: nat, j: nat :: j < i < |e| && Undecided(e, os, i, j)
  {
    var i: nat := 1;
    while i < |e|
      invariant forall i': nat, j: nat :: j < i' < i && i' < |e| ==> !Undecided(e, os, i', j)
    {
      var j: nat := 0;
      while j < i
        invariant j <= i && forall j': nat :: j' < j ==> !Undecided(e, os, i, j')
      {
        if ks[j] == ks[i] && (i in coarse || j in coarse) && e[j].schemaPath != e[i].schemaPath {
          assert Undecided(e, os, i, j);
          return true;
        }
        j := j + 1;
      }
      i := i + 1;
    }
    b := false;
  }

  // ---------------------------------------------------------------- a reader

  /** `x` after everything of no higher rank. */
  function PlaceIn(s: seq<Err>, x: Err, rank: Rank): seq<Err> {
    if s == [] || rank(s[|s| - 1]) <= rank(x) then s + [x] else PlaceIn(s[..|s| - 1], x, rank) + [s[|s| - 1]]
  }

  function StableSort(s: seq<Err>, rank: Rank): seq<Err> {
    if s == [] then [] else PlaceIn(StableSort(s[..|s| - 1], rank), s[|s| - 1], rank)
  }

  /** Sorted by rank, branch errors first. */
  function ReaderSort(s: seq<Err>, rank: Rank): seq<Err>
    decreases s
  {
    StableSort(seq(|s|, i requires 0 <= i < |s| => SettledErr(s[i], rank)), rank)
  }

  function SettledErr(x: Err, rank: Rank): Err
    decreases x
  {
    match x.branch case NoBranch => x case Branch(b) => x.(branch := Branch(ReaderSort(b, rank)))
  }

  lemma {:induction false} PlaceSorts(s: seq<Err>, x: Err, rank: Rank)
    requires Sorted(s, rank)
    ensures IsStableSort(s + [x], PlaceIn(s, x, rank), rank)
    ensures forall e :: e in PlaceIn(s, x, rank) ==> e in s || e == x
    decreases |s|
  {
    if s == [] || rank(s[|s| - 1]) <= rank(x) {
      SortedSnoc(s, x, rank);
    } else {
      hide Sorted, OfRank;
      var init, last := s[..|s| - 1], s[|s| - 1];
      assert s == init + [last];
      SortedInit(s, rank);
      PlaceSorts(init, x, rank);
      var p := PlaceIn(init, x, rank);
      assert forall e :: e in init ==> e in s;
      assert forall e :: e in p ==> rank(e) <= rank(last);
      SortedTop(p, last, rank);
      forall q ensures OfRank(p + [last], rank, q) == OfRank(s + [x], rank, q) {
        assert OfRank(p, rank, q) == OfRank(init + [x], rank, q);
        OfRankConcat(p, [last], rank, q);
        OfRankConcat(init + [x], [last], rank, q);
        MovePast(init, [last], x, rank, q);
      }
    }
  }

  lemma SortedSnoc(s: seq<Err>, x: Err, rank: Rank)
    requires Sorted(s, rank) && (s != [] ==> rank(s[|s| - 1]) <= rank(x))
    ensures Sorted(s + [x], rank)
  {
  }

  lemma SortedInit(s: seq<Err>, rank: Rank)
    requires Sorted(s, rank) && s != []
    ensures Sorted(s[..|s| - 1], rank) && forall e :: e in s[..|s| - 1] ==> rank(e) <= rank(s[|s| - 1])
  {
    var init := s[..|s| - 1];
    forall e | e in init ensures rank(e) <= rank(s[|s| - 1]) {
      var i :| 0 <= i < |init| && init[i] == e;
      assert s[i] == e;
    }
  }

  lemma SortedTop(p: seq<Err>, last: Err, rank: Rank)
    requires Sorted(p, rank) && forall e :: e in p ==> rank(e) <= rank(last)
    ensures Sorted(p + [last], rank)
  {
    assert forall i :: 0 <= i < |p| ==> p[i] in p;
  }

  lemma {:induction false} StableSortSorts(s: seq<Err>, rank: Rank)
    ensures IsStableSort(s, StableSort(s, rank), rank)
    decreases |s|
  {
    if s != [] {
      var init, last := s[..|s| - 1], s[|s| - 1];
      assert s == init + [last];
      StableSortSorts(init, rank);
      var r := StableSort(init, rank);
      PlaceSorts(r, last, rank);
      forall q ensures OfRank(PlaceIn(r, last, rank), rank, q) == OfRank(s, rank, q) {
        assert OfRank(r, rank, q) == OfRank(init, rank, q);
        OfRankConcat(r, [last], rank, q);
        OfRankConcat(init, [last], rank, q);
      }
    }
  }

  /** Whatever the ranks, there is a reader. */
  lemma ReaderExists(rank: Rank)
    ensures IsReader((s: seq<Err>) => ReaderSort(s, rank), rank)
  {
    var srt := (s: seq<Err>) => ReaderSort(s, rank);
    forall s ensures IsStableSort(SettleAll(s, srt), srt(s), rank) {
      var settled := seq(|s|, i requires 0 <= i < |s| => SettledErr(s[i], rank));
      assert SettleAll(s, srt) == settled;
      StableSortSorts(settled, rank);
    }
  }
}
