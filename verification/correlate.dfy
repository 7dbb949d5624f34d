/** Pairing a missing and an extra property that are one typo (lib/correlate.js), and grouping the errors (lib/diagnose.js:22-56). */
module Correlate {
  import opened Json

  /** A bounded edit distance (lib/levenshtein.js) answers a number, or that it is out of bounds. */
  datatype Dist = Infinity | Edits(n: nat)

  predicate Closer(a: Dist, b: Dist) { a.Edits? && (b.Infinity? || a.n < b.n) }

  type Distance = (string, string) -> Dist

  /** An error as the two functions read it; the list may hold empty entries. */
  datatype Error = Error(keyword: string, missing: Option<string>, extra: Option<string>, instancePath: Option<string>, path: Option<string>)

  type Errors = seq<Option<Error>>

  const MAX_DISTANCE := 2

  function Container(e: Error): string {
    if e.instancePath.Some? then e.instancePath.value else if e.path.Some? then e.path.value else ""
  }

  predicate IsMissing(es: Errors, i: nat) {
    i < |es| && es[i].Some? && es[i].value.keyword == "required" && es[i].value.missing.Some?
  }

  predicate IsExtra(es: Errors, i: nat) {
    i < |es| && es[i].Some? && es[i].value.keyword == "additionalProperties" && es[i].value.extra.Some?
  }

  function NameOf(es: Errors, i: nat): string
    requires IsMissing(es, i) || IsExtra(es, i)
  {
    if IsMissing(es, i) then es[i].value.missing.value else es[i].value.extra.value
  }

  predicate Together(es: Errors, i: nat, j: nat) {
    IsMissing(es, i) && IsExtra(es, j) && Container(es[i].value) == Container(es[j].value)
  }

  function Between(es: Errors, i: nat, j: nat, dist: Distance): Dist
    requires Together(es, i, j)
  {
    dist(NameOf(es, i), NameOf(es, j))
  }

  /** Each is the other's only nearest, at one or two edits. */
  ghost predicate OneTypo(es: Errors, i: nat, j: nat, dist: Distance) {
    && Together(es, i, j) && Between(es, i, j, dist).Edits? && 1 <= Between(es, i, j, dist).n <= MAX_DISTANCE
    && (forall x: nat :: x != j && Together(es, i, x) ==> Closer(Between(es, i, j, dist), Between(es, i, x, dist)))
    && (forall m: nat :: m != i && Together(es, m, j) ==> Closer(Between(es, i, j, dist), Between(es, m, j, dist)))
  }

  ghost predicate Paired(es: Errors, i: nat, j: nat, dist: Distance) {
    OneTypo(es, i, j, dist) || OneTypo(es, j, i, dist)
  }

  /** The map pairs exactly those. */
  ghost predicate Exactly(es: Errors, out: map<nat, nat>, dist: Distance) {
    && (forall i: nat :: i in out ==> Paired(es, i, out[i], dist))
    && (forall i: nat, j: nat :: Paired(es, i, j, dist) ==> i in out && out[i] == j)
  }

  /** A symmetric matching without fixed points. */
  lemma MatchingFacts(es: Errors, out: map<nat, nat>, dist: Distance)
    requires Exactly(es, out, dist)
    ensures forall i: nat :: i in out ==> out[i] != i && out[i] < |es| && out[i] in out && out[out[i]] == i
    ensures forall i: nat :: i in out ==> i < |es| && es[i].Some? && es[out[i]].Some?
  {
    forall i: nat | i in out ensures out[i] != i && out[i] in out && out[out[i]] == i && i < |es| && out[i] < |es| && es[i].Some? && es[out[i]].Some? {
      assert Paired(es, i, out[i], dist);
      assert Paired(es, out[i], i, dist);
    }
  }

  // ---------------------------------------------------------------- nearest in a row

  ghost predicate OnlyNearest(row: seq<Dist>, k: nat) {
    k < |row| && row[k].Edits? && forall x :: 0 <= x < |row| && x != k ==> Closer(row[k], row[x])
  }

  /** The best distance of a row, where it is first reached, and whether it is reached again. */
  method Nearest(row: seq<Dist>) returns (best: int, d: Dist, tied: bool)
    ensures -1 <= best < |row| && (best == -1 ==> d.Infinity?) && (best >= 0 ==> row[best] == d)
    ensures forall k: nat :: OnlyNearest(row, k) <==> best == k && !tied
  {
    best, d, tied := -1, Infinity, false;
    var x := 0;
    while x < |row|
      invariant 0 <= x <= |row| && -1 <= best < x
      invariant best == -1 ==> d.Infinity? && !tied && forall y :: 0 <= y < x ==> row[y].Infinity?
      invariant best >= 0 ==> row[best] == d && d.Edits? && forall y :: 0 <= y < x ==> !Closer(row[y], d)
      invariant tied ==> exists y :: 0 <= y < x && y != best && row[y] == d
      invariant best >= 0 && !tied ==> forall y :: 0 <= y < x && y != best ==> Closer(d, row[y])
    {
      if Closer(row[x], d) {
        best, d, tied := x, row[x], false;
      } else if row[x] == d && !d.Infinity? {
        tied := true;
      }
      x := x + 1;
    }
    assert best >= 0 && !tied ==> OnlyNearest(row, best);
    if best >= 0 && tied {
      var y :| 0 <= y < |row| && y != best && row[y] == d;
      forall k: nat | k < |row| ensures !OnlyNearest(row, k) {
        var other := if k != best then best else y;
        assert !Closer(row[k], row[other]);
      }
    }
  }

  // ---------------------------------------------------------------- one container

  /** The places in the list where a missing, or an extra, name of the container stands. */
  function Places(es: Errors, key: string, missing: bool, n: nat): (r: seq<nat>)
    requires n <= |es|
    ensures forall k :: 0 <= k < |r| ==> r[k] < n && InPlace(es, key, missing, r[k])
    ensures forall i: nat :: i < n && InPlace(es, key, missing, i) ==> i in r
    ensures forall k, l :: 0 <= k < l < |r| ==> r[k] < r[l]
  {
    if n == 0 then [] else Places(es, key, missing, n - 1) + (if InPlace(es, key, missing, n - 1) then [n - 1] else [])
  }

  predicate InPlace(es: Errors, key: string, missing: bool, i: nat) {
    (if missing then IsMissing(es, i) else IsExtra(es, i)) && Container(es[i].value) == key
  }

  datatype Bucket = Bucket(missing: seq<nat>, extra: seq<nat>)

  function BucketOf(es: Errors, key: string, n: nat): Bucket
    requires n <= |es|
  {
    Bucket(Places(es, key, true, n), Places(es, key, false, n))
  }

  ghost predicate Collected(es: Errors, by_: map<string, Bucket>, n: nat)
    requires n <= |es|
  {
    && (forall key :: key !in by_ ==> BucketOf(es, key, n) == Bucket([], []))
    && forall key :: key in by_ ==> by_[key] == BucketOf(es, key, n)
  }

  /** The errors by container. */
  method Buckets(es: Errors) returns (by_: map<string, Bucket>)
    ensures Collected(es, by_, |es|)
  {
    hide BucketOf, Container;
    by_ := map[];
    NoBuckets(es);
    var i := 0;
    while i < |es|
      invariant 0 <= i <= |es| && Collected(es, by_, i)
    {
      forall key ensures BucketOf(es, key, i + 1) == (if IsHere(es, i, key) then Extended(es, BucketOf(es, key, i), i) else BucketOf(es, key, i)) {
        NextBucket(es, key, i);
      }
      if IsMissing(es, i) || IsExtra(es, i) {
        var key := Container(es[i].value);
        var bucket := if key in by_ then by_[key] else Bucket([], []);
        by_ := by_[key := Extended(es, bucket, i)];
      }
      i := i + 1;
    }
  }

  lemma NoBuckets(es: Errors)
    ensures forall key :: BucketOf(es, key, 0) == Bucket([], [])
  {
  }

  predicate IsHere(es: Errors, i: nat, key: string) {
    (IsMissing(es, i) || IsExtra(es, i)) && Container(es[i].value) == key
  }

  function Extended(es: Errors, b: Bucket, i: nat): Bucket {
    if IsMissing(es, i) then b.(missing := b.missing + [i]) else b.(extra := b.extra + [i])
  }

  lemma NextBucket(es: Errors, key: string, i: nat)
    requires i < |es|
    ensures BucketOf(es, key, i + 1) == if IsHere(es, i, key) then Extended(es, BucketOf(es, key, i), i) else BucketOf(es, key, i)
  {
  }

  /** The distances from one missing name, and to one extra name, in a container. */
  function Row(es: Errors, b: Bucket, m: nat, dist: Distance): seq<Dist>
    requires Proper(es, b) && m < |b.missing|
  {
    seq(|b.extra|, x requires 0 <= x < |b.extra| => dist(NameOf(es, b.missing[m]), NameOf(es, b.extra[x])))
  }

  function Column(es: Errors, b: Bucket, x: nat, dist: Distance): seq<Dist>
    requires Proper(es, b) && x < |b.extra|
  {
    seq(|b.missing|, m requires 0 <= m < |b.missing| => dist(NameOf(es, b.missing[m]), NameOf(es, b.extra[x])))
  }

  predicate Proper(es: Errors, b: Bucket) {
    && (forall k :: 0 <= k < |b.missing| ==> IsMissing(es, b.missing[k]))
    && (forall k :: 0 <= k < |b.extra| ==> IsExtra(es, b.extra[k]))
  }

  /** What a container's two lists are. */
  ghost predicate Lists(es: Errors, key: string, b: Bucket) {
    && (forall k :: 0 <= k < |b.missing| ==> InPlace(es, key, true, b.missing[k]))
    && (forall k :: 0 <= k < |b.extra| ==> InPlace(es, key, false, b.extra[k]))
    && (forall i: nat :: InPlace(es, key, true, i) ==> i in b.missing)
    && (forall i: nat :: InPlace(es, key, false, i) ==> i in b.extra)
    && (forall k, l :: 0 <= k < l < |b.missing| ==> b.missing[k] != b.missing[l])
    && (forall k, l :: 0 <= k < l < |b.extra| ==> b.extra[k] != b.extra[l])
  }

  lemma BucketLists(es: Errors, key: string)
    ensures Lists(es, key, BucketOf(es, key, |es|)) && Proper(es, BucketOf(es, key, |es|))
  {
  }

  lemma InBucket(es: Errors, key: string, b: Bucket, m: nat, x: nat)
    requires Lists(es, key, b) && m < |b.missing| && x < |b.extra|
    ensures Proper(es, b) && Together(es, b.missing[m], b.extra[x]) && Container(es[b.missing[m]].value) == key
  {
    assert InPlace(es, key, true, b.missing[m]) && InPlace(es, key, false, b.extra[x]);
    forall k | 0 <= k < |b.missing| ensures IsMissing(es, b.missing[k]) { assert InPlace(es, key, true, b.missing[k]); }
    forall k | 0 <= k < |b.extra| ensures IsExtra(es, b.extra[k]) { assert InPlace(es, key, false, b.extra[k]); }
  }

  /** Nearest in its row and its column, at one or two edits. */
  ghost predicate Chosen(es: Errors, b: Bucket, m: nat, x: nat, dist: Distance)
    requires Proper(es, b) && m < |b.missing| && x < |b.extra|
  {
    OnlyNearest(Row(es, b, m, dist), x) && 1 <= Row(es, b, m, dist)[x].n <= MAX_DISTANCE && OnlyNearest(Column(es, b, x, dist), m)
  }

  lemma TypoChosen(es: Errors, key: string, b: Bucket, m: nat, x: nat, dist: Distance)
    requires Lists(es, key, b) && Proper(es, b) && m < |b.missing| && x < |b.extra| && OneTypo(es, b.missing[m], b.extra[x], dist)
    ensures Chosen(es, b, m, x, dist)
  {
    hide InPlace, Container, IsMissing, IsExtra;
    var i, j := b.missing[m], b.extra[x];
    var row, col := Row(es, b, m, dist), Column(es, b, x, dist);
    InBucket(es, key, b, m, x);
    forall y | 0 <= y < |row| && y != x ensures Closer(row[x], row[y]) {
      InBucket(es, key, b, m, y);
      assert b.extra[y] != j;
    }
    forall y | 0 <= y < |col| && y != m ensures Closer(col[m], col[y]) {
      InBucket(es, key, b, y, x);
      assert b.missing[y] != i;
    }
  }

  lemma ChosenTypo(es: Errors, key: string, b: Bucket, m: nat, x: nat, dist: Distance)
    requires Lists(es, key, b) && Proper(es, b) && m < |b.missing| && x < |b.extra| && Chosen(es, b, m, x, dist)
    ensures OneTypo(es, b.missing[m], b.extra[x], dist)
  {
    var i, j := b.missing[m], b.extra[x];
    var row, col := Row(es, b, m, dist), Column(es, b, x, dist);
    InBucket(es, key, b, m, x);
    forall z: nat | z != j && Together(es, i, z) ensures Closer(Between(es, i, j, dist), Between(es, i, z, dist)) {
      assert InPlace(es, key, false, z);
      var y :| 0 <= y < |b.extra| && b.extra[y] == z;
      assert Closer(row[x], row[y]);
    }
    forall z: nat | z != i && Together(es, z, j) ensures Closer(Between(es, i, j, dist), Between(es, z, j, dist)) {
      assert InPlace(es, key, true, z);
      var y :| 0 <= y < |b.missing| && b.missing[y] == z;
      assert Closer(col[m], col[y]);
    }
  }

  // ---------------------------------------------------------------- the pairing

  /** A missing name has one typo at most, an extra name stands for one at most. */
  lemma TypoOnce(es: Errors, i: nat, j: nat, k: nat, dist: Distance)
    requires j != k
    ensures !(OneTypo(es, i, j, dist) && OneTypo(es, i, k, dist))
    ensures !(OneTypo(es, j, i, dist) && OneTypo(es, k, i, dist))
  {
    hide Container;
    if Together(es, i, j) && Together(es, i, k) {
      assert !(Closer(Between(es, i, j, dist), Between(es, i, k, dist)) && Closer(Between(es, i, k, dist), Between(es, i, j, dist)));
    }
    if Together(es, j, i) && Together(es, k, i) {
      assert !(Closer(Between(es, j, i, dist), Between(es, k, i, dist)) && Closer(Between(es, k, i, dist), Between(es, j, i, dist)));
    }
  }

  /** Nothing is paired twice. */
  lemma PairedOnce(es: Errors, i: nat, j: nat, k: nat, dist: Distance)
    ensures Paired(es, i, j, dist) && Paired(es, i, k, dist) ==> j == k
  {
    if j != k { TypoOnce(es, i, j, k, dist); }
  }

  ghost predicate Sound(es: Errors, out: map<nat, nat>, dist: Distance) {
    forall i: nat :: i in out ==> Paired(es, i, out[i], dist)
  }

  ghost predicate Grown(before: map<nat, nat>, out: map<nat, nat>) {
    forall i: nat :: i in before ==> i in out && out[i] == before[i]
  }

  ghost predicate Holds(out: map<nat, nat>, i: nat, j: nat) {
    i in out && out[i] == j && j in out && out[j] == i
  }

  /** The typos among the first `n` missing names of a container are in the map. */
  ghost predicate Covers(es: Errors, b: Bucket, n: nat, out: map<nat, nat>, dist: Distance)
    requires n <= |b.missing|
  {
    forall m: nat, x: nat :: m < n && x < |b.extra| && OneTypo(es, b.missing[m], b.extra[x], dist) ==> Holds(out, b.missing[m], b.extra[x])
  }

  lemma AddPair(es: Errors, i: nat, j: nat, before: map<nat, nat>, dist: Distance)
    requires OneTypo(es, i, j, dist) && Sound(es, before, dist)
    ensures var out := before[i := j][j := i]; Sound(es, out, dist) && Grown(before, out) && Holds(out, i, j)
  {
    hide OneTypo;
    assert i != j by { Apart(es, i, j, dist); }
    assert Paired(es, i, j, dist) && Paired(es, j, i, dist);
    forall k: nat | k in before && (k == i || k == j) ensures before[k] == before[i := j][j := i][k] {
      PairedOnce(es, k, before[k], if k == i then j else i, dist);
    }
  }

  lemma Apart(es: Errors, i: nat, j: nat, dist: Distance)
    requires OneTypo(es, i, j, dist)
    ensures i != j
  {
  }

  method PairBucket(es: Errors, b: Bucket, dist: Distance, before: map<nat, nat>, ghost key: string) returns (out: map<nat, nat>)
    requires Lists(es, key, b) && Proper(es, b) && Sound(es, before, dist)
    ensures Sound(es, out, dist) && Grown(before, out) && Covers(es, b, |b.missing|, out, dist)
  {
    hide OneTypo, Sound, Lists, Row, Column, OnlyNearest;
    out := before;
    var m: nat := 0;
    while m < |b.missing|
      invariant m <= |b.missing| && Sound(es, out, dist) && Grown(before, out) && Covers(es, b, m, out, dist)
    {
      forall x: nat | x < |b.extra| ensures OneTypo(es, b.missing[m], b.extra[x], dist) <==> Chosen(es, b, m, x, dist) {
        if Chosen(es, b, m, x, dist) { ChosenTypo(es, key, b, m, x, dist); }
        if OneTypo(es, b.missing[m], b.extra[x], dist) { TypoChosen(es, key, b, m, x, dist); }
      }
      var found, x := MatchFor(es, b, m, dist);
      if found {
        ghost var prior := out;
        AddPair(es, b.missing[m], b.extra[x], out, dist);
        out := out[b.missing[m] := b.extra[x]];
        out := out[b.extra[x] := b.missing[m]];
        assert Grown(prior, out) && Holds(out, b.missing[m], b.extra[x]);
      }
      m := m + 1;
    }
  }

  /** The extra name that is the same typo as a missing one, asked from both sides. */
  method MatchFor(es: Errors, b: Bucket, m: nat, dist: Distance) returns (found: bool, x: nat)
    requires Proper(es, b) && m < |b.missing|
    ensures found ==> x < |b.extra| && Chosen(es, b, m, x, dist)
    ensures forall y: nat :: y < |b.extra| && Chosen(es, b, m, y, dist) ==> found && y == x
  {
    var row := Row(es, b, m, dist);
    var bestX, bestD, tied := Nearest(row);
    if bestX == -1 || tied { return false, 0; }
    assert OnlyNearest(row, bestX);
    if !(0 < bestD.n <= MAX_DISTANCE) { return false, 0; }
    var backM, backD, backTied := Nearest(Column(es, b, bestX, dist));
    if backTied || backM != m { return false, 0; }
    return true, bestX;
  }

  /** The symmetric pairs, or an empty map where the source answers null. */
  method CorrelateTypos(es: Errors, dist: Distance) returns (out: map<nat, nat>)
    ensures Exactly(es, out, dist)
  {
    hide BucketOf, OneTypo, Container, Covers;
    out := map[];
    if |es| < 2 {
      TooShort(es, dist);
      return;
    }
    var sawMissing, sawExtra := false, false;
    var i: nat := 0;
    while i < |es|
      invariant i <= |es|
      invariant sawMissing <==> exists k: nat :: k < i && es[k].Some? && es[k].value.keyword == "required"
      invariant sawExtra <==> exists k: nat :: k < i && es[k].Some? && es[k].value.keyword == "additionalProperties"
    {
      if es[i].Some? {
        if es[i].value.keyword == "required" { sawMissing := true; } else if es[i].value.keyword == "additionalProperties" { sawExtra := true; }
      }
      i := i + 1;
      if sawMissing && sawExtra { break; }
    }
    if !sawMissing || !sawExtra {
      OneKindOnly(es, dist);
      return;
    }
    var all := Buckets(es);
    var todo := all.Keys;
    while todo != {}
      invariant todo <= all.Keys && Sound(es, out, dist)
      invariant forall key :: key in all && key !in todo ==> Covers(es, all[key], |all[key].missing|, out, dist)
      decreases |todo|
    {
      var key :| key in todo;
      BucketLists(es, key);
      ghost var prior := out;
      if all[key].missing != [] && all[key].extra != [] {
        out := PairBucket(es, all[key], dist, out, key);
      } else {
        NothingToCover(es, all[key], out, dist);
      }
      forall k | k in all && k !in todo ensures Covers(es, all[k], |all[k].missing|, out, dist) { CoversMore(es, all[k], prior, out, dist); }
      todo := todo - {key};
    }
    AllCovered(es, all, out, dist);
  }

  lemma TooShort(es: Errors, dist: Distance)
    requires |es| < 2
    ensures Exactly(es, map[], dist)
  {
  }

  lemma OneKindOnly(es: Errors, dist: Distance)
    requires !(exists k: nat :: k < |es| && es[k].Some? && es[k].value.keyword == "required")
          || !(exists k: nat :: k < |es| && es[k].Some? && es[k].value.keyword == "additionalProperties")
    ensures Exactly(es, map[], dist)
  {
  }

  lemma NothingToCover(es: Errors, b: Bucket, out: map<nat, nat>, dist: Distance)
    requires b.missing == [] || b.extra == []
    ensures Covers(es, b, |b.missing|, out, dist)
  {
  }

  lemma CoversMore(es: Errors, b: Bucket, before: map<nat, nat>, out: map<nat, nat>, dist: Distance)
    requires Covers(es, b, |b.missing|, before, dist) && Grown(before, out)
    ensures Covers(es, b, |b.missing|, out, dist)
  {
    hide OneTypo;
  }

  lemma AllCovered(es: Errors, all: map<string, Bucket>, out: map<nat, nat>, dist: Distance)
    requires Collected(es, all, |es|) && Sound(es, out, dist) && forall key :: key in all ==> Covers(es, all[key], |all[key].missing|, out, dist)
    ensures Exactly(es, out, dist)
  {
    forall i: nat, j: nat | OneTypo(es, i, j, dist) ensures Holds(out, i, j) {
      var key := Container(es[i].value);
      var b := BucketOf(es, key, |es|);
      BucketLists(es, key);
      assert InPlace(es, key, true, i) && InPlace(es, key, false, j);
      var m: nat :| m < |b.missing| && b.missing[m] == i;
      var x: nat :| x < |b.extra| && b.extra[x] == j;
      assert key in all && all[key] == b;
    }
  }
}

/** Grouping errors into diagnostics (lib/diagnose.js:22-56): one each, a typo's two together. */
module Diagnose {
  import opened Json
  import opened Correlate
  import Canonical

  /** A diagnostic: the errors it was made from, and what it is sorted by. */
  datatype Diagnostic = Diagnostic(from: seq<nat>, sortPos: int, rank: int, pointer: string)

  /** Where in the text an error is shown. */
  datatype Frame = Frame(line: nat, col: nat)

  /**
   What the model takes as given: the frame of an error, that of the branch an error is anchored on, the rank
   an error carries, and the sort.
   */
  datatype Given = Given(
    frame: nat -> Option<Frame>,
    anchored: nat -> Option<Frame>,
    rank: nat -> Option<int>,
    sort: seq<Diagnostic> -> seq<Diagnostic>)

  predicate Before(a: Diagnostic, b: Diagnostic) {
    a.sortPos < b.sortPos || (a.sortPos == b.sortPos && (a.rank < b.rank || (a.rank == b.rank && Canonical.Before(a.pointer, b.pointer))))
  }

  /** Sorting keeps every diagnostic and puts none before one it should follow. */
  ghost predicate Sorts(g: Given) {
    forall ds :: multiset(g.sort(ds)) == multiset(ds) && forall i, j :: 0 <= i < j < |g.sort(ds)| ==> !Before(g.sort(ds)[j], g.sort(ds)[i])
  }

  // ---------------------------------------------------------------- where a diagnostic comes

  /** The frame of a diagnostic: of the anchor of its one error, or of the extra name of the two. */
  function FrameOf(g: Given, from: seq<nat>): Option<Frame>
    requires |from| == 1 || |from| == 2
  {
    if |from| == 1 then g.anchored(from[0]) else g.frame(from[1])
  }

  /** The first of the errors it was made from. */
  function FirstOf(from: seq<nat>): nat
    requires |from| == 1 || |from| == 2
  {
    if |from| == 2 && from[1] < from[0] then from[1] else from[0]
  }

  /** Further up in the text. */
  predicate Ahead(a: Frame, b: Frame) { a.line < b.line || (a.line == b.line && a.col < b.col) }

  const WIDEST: nat := 100000

  /** A typo ranks first, an error without a rank third. */
  function RankOf(g: Given, from: seq<nat>): int
    requires |from| == 1 || |from| == 2
  {
    if |from| == 2 then 0 else match g.rank(from[0]) case Some(r) => r case None => 2
  }

  predicate From(es: Errors, from: seq<nat>) { (|from| == 1 || |from| == 2) && from[0] < |es| && es[from[0]].Some? }

  /** Shown before another: what is shown nowhere first, by its place in the list, the rest by line and column. */
  predicate Upper(g: Given, a: seq<nat>, b: seq<nat>)
    requires (|a| == 1 || |a| == 2) && (|b| == 1 || |b| == 2)
  {
    match FrameOf(g, a)
    case Some(x) => FrameOf(g, b).Some? && Ahead(x, FrameOf(g, b).value)
    case None => FrameOf(g, b).Some? || FirstOf(a) < FirstOf(b)
  }

  /** One diagnostic comes before another, by the errors they were made from: where they are shown, then their rank, then the pointer. */
  predicate Comes(es: Errors, g: Given, a: seq<nat>, b: seq<nat>)
    requires From(es, a) && From(es, b)
  {
    Upper(g, a, b) || (!Upper(g, b, a)
      && (RankOf(g, a) < RankOf(g, b) || (RankOf(g, a) == RankOf(g, b) && Canonical.Before(Container(es[a[0]].value), Container(es[b[0]].value)))))
  }

  /** Its three fields, as its errors are shown, ranked and placed. */
  ghost predicate Labelled(es: Errors, g: Given, d: Diagnostic)
    requires From(es, d.from)
  {
    && d.rank == RankOf(g, d.from) && d.pointer == Container(es[d.from[0]].value)
    && d.sortPos == match FrameOf(g, d.from) case Some(f) => f.line * WIDEST + f.col case None => FirstOf(d.from)
  }

  /** Lines count from one, and neither columns nor places in the list reach what a line counts for. */
  predicate Narrow(g: Given, from: seq<nat>)
    requires |from| == 1 || |from| == 2
  {
    match FrameOf(g, from) case Some(f) => f.line >= 1 && f.col < WIDEST case None => FirstOf(from) < WIDEST
  }

  /** So the order of the fields is the order of the places. */
  lemma LabelsOrder(es: Errors, g: Given, a: Diagnostic, b: Diagnostic)
    requires From(es, a.from) && From(es, b.from) && Labelled(es, g, a) && Labelled(es, g, b) && Narrow(g, a.from) && Narrow(g, b.from)
    ensures Before(a, b) <==> Comes(es, g, a.from, b.from)
  {
    hide Canonical.Before;
    if FrameOf(g, a.from).Some? && FrameOf(g, b.from).Some? {
      var x, y := FrameOf(g, a.from).value, FrameOf(g, b.from).value;
      LinesApart(x, y);
      LinesApart(y, x);
    }
  }

  /** The diagnostics come in that order. */
  ghost predicate Ordered(es: Errors, g: Given, ds: seq<Diagnostic>) {
    forall i, j :: 0 <= i < j < |ds| ==> NotAfter(es, g, ds[i].from, ds[j].from)
  }

  predicate NotAfter(es: Errors, g: Given, a: seq<nat>, b: seq<nat>) {
    From(es, a) && From(es, b) && Narrow(g, a) && Narrow(g, b) ==> !Comes(es, g, b, a)
  }

  lemma LinesApart(x: Frame, y: Frame)
    requires x.col < WIDEST && y.col < WIDEST
    ensures x.line < y.line ==> x.line * WIDEST + x.col < y.line * WIDEST + y.col
  {
  }

  /** The diagnostics an error is in. */
  function InHowMany(ds: seq<Diagnostic>, i: nat): nat {
    if ds == [] then 0 else InHowMany(ds[..|ds| - 1], i) + (if i in ds[|ds| - 1].from then 1 else 0)
  }

  /** One error, or the two of one typo with the missing name first. */
  ghost predicate WellMade(es: Errors, d: Diagnostic, dist: Distance, g: Given) {
    && From(es, d.from) && Labelled(es, g, d)
    && (if |d.from| == 1 then forall j: nat :: !Paired(es, d.from[0], j, dist) else OneTypo(es, d.from[0], d.from[1], dist))
  }

  /** Every error among the first `n`, and every partner of one, is in one diagnostic. */
  ghost predicate Grouped(es: Errors, pairs: map<nat, nat>, ds: seq<Diagnostic>, consumed: set<nat>, n: nat)
    requires n <= |es|
  {
    && (forall k: nat :: k in consumed <==> k in pairs && (k < n || pairs[k] < n))
    && forall k: nat :: InHowMany(ds, k) == if k in consumed || (k < n && es[k].Some?) then 1 else 0
  }

  lemma Regroup(es: Errors, pairs: map<nat, nat>, ds: seq<Diagnostic>, consumed: set<nat>, n: nat, d: Diagnostic, dist: Distance)
    requires n < |es| && Grouped(es, pairs, ds, consumed, n) && Exactly(es, pairs, dist) && n !in consumed && es[n].Some?
    requires if n in pairs then multiset(d.from) == multiset{n, pairs[n]} else d.from == [n]
    ensures n in pairs ==> pairs[n] !in consumed
    ensures Grouped(es, pairs, ds + [d], if n in pairs then consumed + {n, pairs[n]} else consumed, n + 1)
  {
    hide Exactly;
    MatchingFacts(es, pairs, dist);
    CountMore(ds, d);
    if n in pairs {
      assert forall k: nat :: k in d.from <==> k in multiset{n, pairs[n]} by { assert forall k: nat :: k in d.from <==> k in multiset(d.from); }
    }
  }

  lemma Passed(es: Errors, pairs: map<nat, nat>, ds: seq<Diagnostic>, consumed: set<nat>, n: nat, dist: Distance)
    requires n < |es| && Grouped(es, pairs, ds, consumed, n) && Exactly(es, pairs, dist) && (n in consumed || es[n].None?)
    ensures Grouped(es, pairs, ds, consumed, n + 1)
  {
    hide Exactly;
    MatchingFacts(es, pairs, dist);
  }

  method Group(es: Errors, pairs: map<nat, nat>, dist: Distance, g: Given) returns (ds: seq<Diagnostic>)
    requires Exactly(es, pairs, dist)
    ensures forall i: nat :: InHowMany(ds, i) == if i < |es| && es[i].Some? then 1 else 0
    ensures forall k :: 0 <= k < |ds| ==> WellMade(es, ds[k], dist, g)
  {
    hide OneTypo, WellMade, Exactly, Paired;
    ds := [];
    var consumed: set<nat> := {};
    var i: nat := 0;
    while i < |es|
      invariant i <= |es| && Grouped(es, pairs, ds, consumed, i)
      invariant forall k :: 0 <= k < |ds| ==> WellMade(es, ds[k], dist, g)
    {
      hide Grouped;
      if i !in consumed && es[i].Some? {
        var d;
        if i in pairs {
          assert Paired(es, i, pairs[i], dist) by { PairsSay(es, pairs, i, dist); }
          d := Merged(es, i, pairs[i], dist, g);
        } else {
          d := Single(es, i, dist, pairs, g);
        }
        Regroup(es, pairs, ds, consumed, i, d, dist);
        if i in pairs { consumed := consumed + {i, pairs[i]}; }
        ds := ds + [d];
      } else {
        Passed(es, pairs, ds, consumed, i, dist);
      }
      i := i + 1;
    }
    MatchingFacts(es, pairs, dist);
  }

  lemma PairsSay(es: Errors, pairs: map<nat, nat>, i: nat, dist: Distance)
    requires Exactly(es, pairs, dist) && i in pairs
    ensures Paired(es, i, pairs[i], dist)
  {
  }

  method ToDiagnostics(es: Errors, dist: Distance, g: Given) returns (ds: seq<Diagnostic>)
    requires Sorts(g)
    ensures forall i: nat :: InHowMany(ds, i) == if i < |es| && es[i].Some? then 1 else 0
    ensures forall k :: 0 <= k < |ds| ==> WellMade(es, ds[k], dist, g)
    ensures Ordered(es, g, ds)
  {
    hide Labelled, OneTypo, Paired, Comes, Before;
    if es == [] { return []; }
    var pairs := CorrelateTypos(es, dist);
    var unsorted := Group(es, pairs, dist, g);
    ds := g.sort(unsorted);
    assert multiset(ds) == multiset(unsorted);
    forall k: nat ensures InHowMany(ds, k) == InHowMany(unsorted, k) { CountSorted(ds, unsorted, k); }
    forall k | 0 <= k < |ds| ensures WellMade(es, ds[k], dist, g) {
      assert ds[k] in multiset(ds);
      assert ds[k] in unsorted;
    }
    forall i, j | 0 <= i < j < |ds| ensures NotAfter(es, g, ds[i].from, ds[j].from) {
      assert WellMade(es, ds[i], dist, g) && WellMade(es, ds[j], dist, g);
      if Narrow(g, ds[i].from) && Narrow(g, ds[j].from) { LabelsOrder(es, g, ds[j], ds[i]); }
    }
  }

  method Merged(es: Errors, i: nat, j: nat, dist: Distance, g: Given) returns (d: Diagnostic)
    requires Paired(es, i, j, dist)
    ensures WellMade(es, d, dist, g) && d.from in [[i, j], [j, i]] && multiset(d.from) == multiset{i, j}
  {
    var missing, extra := i, j;
    if es[i].value.keyword != "required" { missing, extra := j, i; }
    var frame := g.frame(extra);
    d := Diagnostic([missing, extra], if frame.Some? then frame.value.line * 100000 + frame.value.col else if i < j then i else j, 0, Container(es[missing].value));
  }

  method Single(es: Errors, i: nat, dist: Distance, ghost pairs: map<nat, nat>, g: Given) returns (d: Diagnostic)
    requires i < |es| && es[i].Some? && Exactly(es, pairs, dist) && i !in pairs
    ensures WellMade(es, d, dist, g) && d.from == [i]
  {
    hide OneTypo;
    var frame, rank := g.anchored(i), g.rank(i);
    d := Diagnostic([i], if frame.Some? then frame.value.line * 100000 + frame.value.col else i, if rank.Some? then rank.value else 2, Container(es[i].value));
  }

  lemma CountMore(ds: seq<Diagnostic>, d: Diagnostic)
    ensures forall i: nat :: InHowMany(ds + [d], i) == InHowMany(ds, i) + (if i in d.from then 1 else 0)
  {
    assert (ds + [d])[..|ds|] == ds;
  }

  lemma {:induction false} CountRemove(ds: seq<Diagnostic>, k: nat, i: nat)
    requires k < |ds|
    ensures InHowMany(ds, i) == InHowMany(ds[..k] + ds[k + 1..], i) + (if i in ds[k].from then 1 else 0)
    decreases |ds|
  {
    var n := |ds| - 1;
    if k == n {
      assert ds[..k] + ds[k + 1..] == ds[..n];
    } else {
      CountRemove(ds[..n], k, i);
      var r := ds[..k] + ds[k + 1..];
      assert r[..|r| - 1] == ds[..n][..k] + ds[..n][k + 1..] && r[|r| - 1] == ds[n];
    }
  }

  lemma TakeOut(a: seq<Diagnostic>, b: seq<Diagnostic>, k: nat)
    requires a != [] && k < |b| && b[k] == a[|a| - 1] && multiset(a) == multiset(b)
    ensures multiset(a[..|a| - 1]) == multiset(b[..k] + b[k + 1..])
  {
    var n := |a| - 1;
    assert a == a[..n] + [a[n]] && b == b[..k] + [b[k]] + b[k + 1..];
    Cancel(multiset(a[..n]), multiset(b[..k]), multiset(b[k + 1..]), a[n]);
  }

  lemma Cancel(x: multiset<Diagnostic>, y: multiset<Diagnostic>, z: multiset<Diagnostic>, d: Diagnostic)
    requires x + multiset{d} == y + multiset{d} + z
    ensures x == y + z
  {
    var one := multiset{d};
    forall c ensures x[c] == (y + z)[c] {
      assert (x + one)[c] == (y + one + z)[c];
    }
  }

  lemma {:induction false} CountSorted(a: seq<Diagnostic>, b: seq<Diagnostic>, i: nat)
    requires multiset(a) == multiset(b)
    ensures InHowMany(a, i) == InHowMany(b, i)
    decreases |a|
  {
    if a == [] {
      assert |multiset(b)| == 0;
    } else {
      var n := |a| - 1;
      assert a[n] in multiset(b);
      var k :| 0 <= k < |b| && b[k] == a[n];
      CountRemove(b, k, i);
      TakeOut(a, b, k);
      CountSorted(a[..n], b[..k] + b[k + 1..], i);
    }
  }
}
