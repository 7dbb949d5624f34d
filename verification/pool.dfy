/**
 The native thread pool as a step relation, and the chunked parallel validation on top of it
 (binding/ata_napi.cpp:1060-1125, 1391-1576).
 */
module ThreadPool {

  /** One chunk of the observed call, or a task of some other caller. */
  datatype Task = Mine(k: nat) | Other(id: nat)

  /** A task under way: the next line it writes, and how many of its lines were valid so far. */
  datatype Job = Job(task: Task, at: nat, local: nat)

  /** `ended` holds what a worker has run but not yet taken off the counter. */
  datatype State = State(
    pending: int, counted: set<Task>, queue: seq<Task>, running: map<nat, Job>, ended: map<nat, Task>, finished: set<Task>,
    stop: bool, exited: set<nat>, results: seq<bool>, validCount: nat)

  /** The observed call: its chunks, and the verdict on each line. */
  datatype Call = Call(n: nat, chunks: seq<(nat, nat)>, ok: nat -> bool)

  function From(c: Call, t: Task): nat { if t.Mine? && t.k < |c.chunks| then c.chunks[t.k].0 else 0 }

  function To(c: Call, t: Task): nat { if t.Mine? && t.k < |c.chunks| then c.chunks[t.k].1 else 0 }

  function Init(c: Call): State {
    State(0, {}, [], map[], map[], {}, false, {}, seq(c.n, _ => false), 0)
  }

  predicate Idle(s: State, w: nat) { w !in s.running && w !in s.ended && w !in s.exited }

  predicate Known(s: State, t: Task) {
    t in s.counted || t in s.queue || (exists w :: w in s.running && s.running[w].task == t) || (exists w :: w in s.ended && s.ended[w] == t) || t in s.finished
  }

  // ---------------------------------------------------------------- the steps

  /** The first half of `submit`, under the counter's lock: counted before it can run. */
  ghost predicate Count(s: State, r: State, t: Task) {
    !Known(s, t) && r == s.(pending := s.pending + 1, counted := s.counted + {t})
  }

  /** The second half, under the queue's lock. */
  ghost predicate Push(s: State, r: State, t: Task) {
    t in s.counted && r == s.(counted := s.counted - {t}, queue := s.queue + [t])
  }

  ghost predicate Take(c: Call, s: State, r: State, w: nat) {
    Idle(s, w) && s.queue != [] && r == s.(queue := s.queue[1..], running := s.running[w := Job(s.queue[0], From(c, s.queue[0]), 0)])
  }

  /** One line of a chunk. */
  ghost predicate Line(c: Call, s: State, r: State, w: nat) {
    && w in s.running
    && var j := s.running[w];
       j.at < To(c, j.task) && j.at < |s.results|
       && r == s.(results := s.results[j.at := c.ok(j.at)], running := s.running[w := Job(j.task, j.at + 1, j.local + (if c.ok(j.at) then 1 else 0))])
  }

  /** A call is over; a counting one adds what it counted. */
  ghost predicate End(c: Call, s: State, r: State, w: nat) {
    && w in s.running
    && var j := s.running[w];
       j.at >= To(c, j.task)
       && r == s.(running := s.running - {w}, ended := s.ended[w := j.task], validCount := s.validCount + j.local)
  }

  /** Taken off the counter, under its lock. */
  ghost predicate Finish(s: State, r: State, w: nat) {
    w in s.ended && r == s.(pending := s.pending - 1, ended := s.ended - {w}, finished := s.finished + {s.ended[w]})
  }

  ghost predicate Stop(s: State, r: State) { r == s.(stop := true) }

  ghost predicate Exit(s: State, r: State, w: nat) { Idle(s, w) && s.stop && s.queue == [] && r == s.(exited := s.exited + {w}) }

  ghost predicate Step(c: Call, s: State, r: State) {
    || (exists t :: Count(s, r, t)) || (exists t :: Push(s, r, t))
    || (exists w :: Take(c, s, r, w)) || (exists w :: Line(c, s, r, w)) || (exists w :: End(c, s, r, w)) || (exists w :: Finish(s, r, w))
    || Stop(s, r) || (exists w :: Exit(s, r, w))
  }

  ghost predicate Run(c: Call, ss: seq<State>) {
    ss != [] && ss[0] == Init(c) && forall i, j :: 0 <= i < j < |ss| && j == i + 1 ==> Step(c, ss[i], ss[j])
  }

  // ---------------------------------------------------------------- the counter

  /** No task is in two places. */
  ghost predicate Apart(s: State) {
    && (forall i, j :: 0 <= i < j < |s.queue| ==> s.queue[i] != s.queue[j])
    && (forall w, x :: w in s.running && x in s.running && w != x ==> s.running[w].task != s.running[x].task)
    && (forall w, x :: w in s.ended && x in s.ended && w != x ==> s.ended[w] != s.ended[x])
    && (forall t :: t in s.queue ==> t !in s.counted && t !in s.finished)
    && (forall w :: w in s.running ==> w !in s.ended && s.running[w].task !in s.counted && s.running[w].task !in s.queue && s.running[w].task !in s.finished)
    && (forall w :: w in s.ended ==> s.ended[w] !in s.counted && s.ended[w] !in s.queue && s.ended[w] !in s.finished)
    && (forall w, x :: w in s.running && x in s.ended ==> s.running[w].task != s.ended[x])
    && s.counted !! s.finished
  }

  /** The counter is the number of tasks counted but not yet finished. */
  ghost predicate Counts(s: State) {
    s.pending == |s.counted| + |s.queue| + |s.running| + |s.ended|
  }

  lemma MapGrows<K, V>(m: map<K, V>, k: K, v: V)
    ensures |m[k := v]| == if k in m then |m| else |m| + 1
  {
    assert m[k := v].Keys == m.Keys + {k};
    if k in m { assert m.Keys + {k} == m.Keys; }
  }

  lemma MapShrinks<K, V>(m: map<K, V>, k: K)
    requires k in m
    ensures |m - {k}| == |m| - 1
  {
    assert (m - {k}).Keys == m.Keys - {k};
  }

  ghost predicate Good(s: State) { Counts(s) && Apart(s) }

  lemma CountGood(s: State, r: State, t: Task)
    requires Count(s, r, t) && Good(s)
    ensures Good(r)
  {
  }

  lemma PushGood(s: State, r: State, t: Task)
    requires Push(s, r, t) && Good(s)
    ensures Good(r)
  {
  }

  lemma TakeGood(c: Call, s: State, r: State, w: nat)
    requires Take(c, s, r, w) && Good(s)
    ensures Good(r)
  {
    var t := s.queue[0];
    MapGrows(s.running, w, Job(t, From(c, t), 0));
    forall i | 0 <= i < |r.queue| ensures r.queue[i] == s.queue[i + 1] && r.queue[i] != t {
    }
    forall i, j | 0 <= i < j < |r.queue| ensures r.queue[i] != r.queue[j] {
      assert r.queue[i] == s.queue[i + 1] && r.queue[j] == s.queue[j + 1];
    }
    assert t in s.queue && forall x :: x in r.queue ==> x in s.queue && x != t;
  }

  lemma LineGood(c: Call, s: State, r: State, w: nat)
    requires Line(c, s, r, w) && Good(s)
    ensures Good(r)
  {
    MapGrows(s.running, w, r.running[w]);
  }

  lemma EndGood(c: Call, s: State, r: State, w: nat)
    requires End(c, s, r, w) && Good(s)
    ensures Good(r)
  {
    MapShrinks(s.running, w);
    MapGrows(s.ended, w, s.running[w].task);
  }

  lemma FinishGood(s: State, r: State, w: nat)
    requires Finish(s, r, w) && Good(s)
    ensures Good(r)
  {
    MapShrinks(s.ended, w);
  }

  lemma StepGood(c: Call, s: State, r: State)
    requires Step(c, s, r) && Good(s)
    ensures Good(r)
  {
    hide Good, Count, Push, Take, Line, End, Finish, Idle;
    if t :| Count(s, r, t) {
      CountGood(s, r, t);
    } else if t :| Push(s, r, t) {
      PushGood(s, r, t);
    } else if w :| Take(c, s, r, w) {
      TakeGood(c, s, r, w);
    } else if w :| Line(c, s, r, w) {
      LineGood(c, s, r, w);
    } else if w :| End(c, s, r, w) {
      EndGood(c, s, r, w);
    } else if w :| Finish(s, r, w) {
      FinishGood(s, r, w);
    } else {
      OtherGood(s, r);
    }
  }

  lemma OtherGood(s: State, r: State)
    requires Good(s) && (Stop(s, r) || exists w :: Exit(s, r, w))
    ensures Good(r)
  {
  }

  lemma {:induction false} RunGood(c: Call, ss: seq<State>, k: nat)
    requires Run(c, ss) && k < |ss|
    ensures Good(ss[k])
    decreases k
  {
    hide Good, Step, Counts;
    if k == 0 {
      InitGood(c);
    } else {
      RunGood(c, ss, k - 1);
      StepGood(c, ss[k - 1], ss[k]);
    }
  }

  lemma InitGood(c: Call)
    ensures Good(Init(c))
  {
  }

  /** `wait` returns when the counter is zero: then whatever was counted is finished. */
  lemma WaitMeansFinished(c: Call, ss: seq<State>, k: nat, t: Task)
    requires Run(c, ss) && k < |ss| && ss[k].pending == 0 && Known(ss[k], t)
    ensures t in ss[k].finished
  {
    hide Run, Apart;
    RunGood(c, ss, k);
    var s := ss[k];
    assert |s.counted| == 0 && |s.queue| == 0 && |s.running| == 0 && |s.ended| == 0;
    assert |s.running.Keys| == 0 && |s.ended.Keys| == 0;
  }

  // ---------------------------------------------------------------- the chunks

  predicate ChunkAt(chunks: seq<(nat, nat)>, n: nat, k: nat)
    requires k < |chunks|
  {
    chunks[k].0 < chunks[k].1 <= n && chunks[k].0 == EndBefore(chunks, k)
  }

  function EndBefore(chunks: seq<(nat, nat)>, k: nat): nat
    requires k <= |chunks|
  {
    if k == 0 then 0 else chunks[k - 1].1
  }

  /** One chunk begins where the one before ends, the first at 0 and the last ending at `n`. */
  ghost predicate Partition(chunks: seq<(nat, nat)>, n: nat) {
    (forall k: nat :: k < |chunks| ==> ChunkAt(chunks, n, k)) && EndBefore(chunks, |chunks|) == n
  }

  lemma ChunkCovers(n: nat, w: nat)
    requires w > 0
    ensures (n + w - 1) / w * w >= n
  {
    var q := (n + w - 1) / w;
    assert n + w - 1 == q * w + (n + w - 1) % w;
  }

  function Times(t: nat, chunk: nat): nat { t * chunk }

  lemma TimesNext(t: nat, chunk: nat)
    ensures Times(t + 1, chunk) == Times(t, chunk) + chunk && Times(0, chunk) == 0
  {
    assert (t + 1) * chunk == t * chunk + chunk;
  }

  /** Where chunk after chunk of one size reaches, and no further than the end. */
  function Reach(t: nat, chunk: nat, n: nat): nat { if Times(t, chunk) < n then Times(t, chunk) else n }

  lemma ChunkAdded(chunks: seq<(nat, nat)>, n: nat, c: (nat, nat))
    requires (forall k: nat :: k < |chunks| ==> ChunkAt(chunks, n, k)) && c.0 == EndBefore(chunks, |chunks|) && c.0 < c.1 <= n
    ensures forall k: nat :: k < |chunks| + 1 ==> ChunkAt(chunks + [c], n, k)
    ensures EndBefore(chunks + [c], |chunks| + 1) == c.1
  {
    var r := chunks + [c];
    forall k: nat | k < |r| ensures ChunkAt(r, n, k) {
      if k < |chunks| { assert ChunkAt(chunks, n, k); }
    }
  }

  method ChunkBounds(n: nat, workers: nat) returns (chunks: seq<(nat, nat)>)
    requires workers > 0
    ensures Partition(chunks, n) && |chunks| <= workers
  {
    hide Times, ChunkAt, EndBefore;
    var chunk := (n + workers - 1) / workers;
    assert Times(workers, chunk) >= n by { ChunkCovers(n, workers); TimesIs(workers, chunk); }
    TimesNext(0, chunk);
    chunks := [];
    NoChunks();
    var t: nat := 0;
    while t < workers
      invariant t <= workers && |chunks| == t
      invariant (forall k: nat :: k < |chunks| ==> ChunkAt(chunks, n, k)) && EndBefore(chunks, |chunks|) == Reach(t, chunk, n)
    {
      TimesNext(t, chunk);
      var from := Times(t, chunk);
      var to := if from + chunk < n then from + chunk else n;
      if from >= n { break; }
      SomeChunk(n, workers, chunk);
      ChunkAdded(chunks, n, (from, to));
      chunks := chunks + [(from, to)];
      t := t + 1;
    }
  }

  lemma TimesIs(t: nat, chunk: nat)
    ensures Times(t, chunk) == chunk * t
  {
  }

  lemma NoChunks()
    ensures EndBefore([], 0) == 0
  {
  }

  lemma SomeChunk(n: nat, workers: nat, chunk: nat)
    requires workers > 0 && n > 0 && chunk == (n + workers - 1) / workers
    ensures chunk > 0
  {
    if chunk == 0 { ChunkCovers(n, workers); }
  }

  // ---------------------------------------------------------------- results and counts

  /** How many lines from `from` up to `to` are valid. */
  function Valid(ok: nat -> bool, from: nat, to: nat): nat {
    if to <= from then 0 else Valid(ok, from, to - 1) + (if ok(to - 1) then 1 else 0)
  }

  lemma {:induction false} ValidSplit(ok: nat -> bool, a: nat, b: nat, c: nat)
    requires a <= b <= c
    ensures Valid(ok, a, c) == Valid(ok, a, b) + Valid(ok, b, c)
    decreases c
  {
    if b < c { ValidSplit(ok, a, b, c - 1); }
  }

  /** Tasks that have run. */
  function Done(s: State): set<Task> { (set w | w in s.ended :: s.ended[w]) + s.finished }

  /** What the first `k` chunks contribute to the count, of those that have run. */
  function Total(c: Call, done: set<Task>, k: nat): nat
    requires k <= |c.chunks|
  {
    if k == 0 then 0 else Total(c, done, k - 1) + (if Mine(k - 1) in done then Valid(c.ok, c.chunks[k - 1].0, c.chunks[k - 1].1) else 0)
  }

  lemma {:induction false} TotalMore(c: Call, done: set<Task>, t: Task, k: nat)
    requires k <= |c.chunks| && t !in done
    ensures Total(c, done + {t}, k) == Total(c, done, k) + (if t.Mine? && t.k < k then Valid(c.ok, c.chunks[t.k].0, c.chunks[t.k].1) else 0)
    decreases k
  {
    if k > 0 { TotalMore(c, done, t, k - 1); }
  }

  ghost predicate LinesDone(c: Call, s: State, from: nat, to: nat) {
    forall i :: from <= i < to && i < |s.results| ==> s.results[i] == c.ok(i)
  }

  /** Every line behind a cursor, and every line of a task that has run, holds its verdict. */
  ghost predicate Written(c: Call, s: State) {
    && |s.results| == c.n
    && (forall w :: w in s.running ==> JobOk(c, s, s.running[w]))
    && (forall t :: t in Done(s) ==> LinesDone(c, s, From(c, t), To(c, t)))
    && s.validCount == Total(c, Done(s), |c.chunks|)
  }

  ghost predicate JobOk(c: Call, s: State, j: Job) {
    && From(c, j.task) <= j.at <= To(c, j.task)
    && LinesDone(c, s, From(c, j.task), j.at) && j.local == Valid(c.ok, From(c, j.task), j.at)
  }

  lemma ChunkOrder(c: Call, t: Task)
    requires Partition(c.chunks, c.n)
    ensures From(c, t) <= To(c, t) <= c.n
  {
    if t.Mine? && t.k < |c.chunks| { assert ChunkAt(c.chunks, c.n, t.k); }
  }

  lemma TakeWritten(c: Call, s: State, r: State, w: nat)
    requires Partition(c.chunks, c.n) && Take(c, s, r, w) && Written(c, s)
    ensures Written(c, r)
  {
    ChunkOrder(c, s.queue[0]);
    assert Done(r) == Done(s);
    forall x | x in r.running ensures JobOk(c, r, r.running[x]) {
      if x != w { assert JobOk(c, s, s.running[x]); }
    }
    forall t | t in Done(r) ensures LinesDone(c, r, From(c, t), To(c, t)) { assert LinesDone(c, s, From(c, t), To(c, t)); }
  }

  /** Writing a verdict where it belongs spoils no other. */
  lemma LinesStay(c: Call, s: State, r: State, at: nat, from: nat, to: nat)
    requires at < |s.results| && r.results == s.results[at := c.ok(at)] && LinesDone(c, s, from, to)
    ensures LinesDone(c, r, from, to)
  {
  }

  lemma LineWritten(c: Call, s: State, r: State, w: nat)
    requires Partition(c.chunks, c.n) && Line(c, s, r, w) && Written(c, s)
    ensures Written(c, r)
  {
    hide Total;
    var j := s.running[w];
    assert Done(r) == Done(s);
    assert JobOk(c, s, j);
    forall x | x in r.running ensures JobOk(c, r, r.running[x]) {
      assert JobOk(c, s, s.running[x]);
      LinesStay(c, s, r, j.at, From(c, s.running[x].task), s.running[x].at);
    }
    forall t | t in Done(r) ensures LinesDone(c, r, From(c, t), To(c, t)) { LinesStay(c, s, r, j.at, From(c, t), To(c, t)); }
  }

  lemma EndWritten(c: Call, s: State, r: State, w: nat)
    requires Partition(c.chunks, c.n) && End(c, s, r, w) && Written(c, s) && Apart(s)
    ensures Written(c, r)
  {
    hide Total;
    var j := s.running[w];
    EndDone(c, s, r, w);
    assert JobOk(c, s, j);
    TotalMore(c, Done(s), j.task, |c.chunks|);
    forall x | x in r.running ensures JobOk(c, r, r.running[x]) { assert JobOk(c, s, s.running[x]); }
    forall t | t in Done(r) ensures LinesDone(c, r, From(c, t), To(c, t)) {
      if t != j.task { assert LinesDone(c, s, From(c, t), To(c, t)); }
    }
  }

  lemma EndDone(c: Call, s: State, r: State, w: nat)
    requires End(c, s, r, w) && Apart(s)
    ensures Done(r) == Done(s) + {s.running[w].task} && s.running[w].task !in Done(s)
  {
    var t := s.running[w].task;
    assert r.ended[w] == t;
    forall x | x in s.ended ensures x in r.ended && r.ended[x] == s.ended[x] { }
    forall u | u in Done(s) + {t} ensures u in Done(r) {
      if u in s.finished {
      } else if u == t {
        assert w in r.ended;
      } else {
        var x :| x in s.ended && s.ended[x] == u;
        assert r.ended[x] == u;
      }
    }
  }

  lemma FinishWritten(c: Call, s: State, r: State, w: nat)
    requires Finish(s, r, w) && Written(c, s)
    ensures Written(c, r)
  {
    assert Done(r) == Done(s) by {
      forall u | u in Done(s) ensures u in Done(r) {
        if u !in r.finished {
          var x :| x in s.ended && s.ended[x] == u;
          assert x != w;
          assert r.ended[x] == u;
        }
      }
    }
    forall x | x in r.running ensures JobOk(c, r, r.running[x]) { assert JobOk(c, s, s.running[x]); }
    forall t | t in Done(r) ensures LinesDone(c, r, From(c, t), To(c, t)) { assert LinesDone(c, s, From(c, t), To(c, t)); }
  }

  /** Steps that touch neither the results nor what has run. */
  lemma QuietWritten(c: Call, s: State, r: State)
    requires Written(c, s) && r.results == s.results && r.running == s.running && r.ended == s.ended && r.finished == s.finished && r.validCount == s.validCount
    ensures Written(c, r)
  {
    assert Done(r) == Done(s);
    forall x | x in r.running ensures JobOk(c, r, r.running[x]) { assert JobOk(c, s, s.running[x]); }
    forall t | t in Done(r) ensures LinesDone(c, r, From(c, t), To(c, t)) { assert LinesDone(c, s, From(c, t), To(c, t)); }
  }

  lemma StepWritten(c: Call, s: State, r: State)
    requires Partition(c.chunks, c.n) && Step(c, s, r) && Written(c, s) && Apart(s)
    ensures Written(c, r)
  {
    hide Written, Partition, Apart;
    if w :| Take(c, s, r, w) {
      TakeWritten(c, s, r, w);
    } else if w :| Line(c, s, r, w) {
      LineWritten(c, s, r, w);
    } else if w :| End(c, s, r, w) {
      EndWritten(c, s, r, w);
    } else if w :| Finish(s, r, w) {
      FinishWritten(c, s, r, w);
    } else {
      QuietWritten(c, s, r);
    }
  }

  lemma {:induction false} NothingDone(c: Call, k: nat)
    requires k <= |c.chunks|
    ensures Total(c, {}, k) == 0
    decreases k
  {
    if k > 0 { NothingDone(c, k - 1); }
  }

  lemma {:induction false} RunWritten(c: Call, ss: seq<State>, k: nat)
    requires Partition(c.chunks, c.n) && Run(c, ss) && k < |ss|
    ensures Written(c, ss[k])
    decreases k
  {
    hide Step, Partition;
    if k == 0 {
      NothingDone(c, |c.chunks|);
      assert Done(Init(c)) == {};
    } else {
      RunWritten(c, ss, k - 1);
      RunGood(c, ss, k - 1);
      StepWritten(c, ss[k - 1], ss[k]);
    }
  }

  lemma {:induction false} AllChunks(c: Call, done: set<Task>, k: nat)
    requires Partition(c.chunks, c.n) && k <= |c.chunks| && forall i: nat :: i < k ==> Mine(i) in done
    ensures Total(c, done, k) == Valid(c.ok, 0, EndBefore(c.chunks, k))
    decreases k
  {
    if k > 0 {
      assert ChunkAt(c.chunks, c.n, k - 1);
      AllChunks(c, done, k - 1);
      ValidSplit(c.ok, 0, c.chunks[k - 1].0, c.chunks[k - 1].1);
    }
  }

  lemma {:induction false} ChunkOf(chunks: seq<(nat, nat)>, n: nat, i: nat, k: nat) returns (at: nat)
    requires Partition(chunks, n) && k < |chunks| && i < chunks[k].1
    ensures at <= k && chunks[at].0 <= i < chunks[at].1
    decreases k
  {
    assert ChunkAt(chunks, n, k);
    if chunks[k].0 <= i { at := k; } else { at := ChunkOf(chunks, n, i, k - 1); }
  }

  /**
   In every interleaving: once `wait` has returned to a caller that submitted all its chunks, the
   results are those of checking line after line, and so is the count.
   */
  lemma ParallelIsSequential(c: Call, ss: seq<State>, k: nat)
    requires Partition(c.chunks, c.n) && Run(c, ss) && k < |ss| && ss[k].pending == 0
    requires forall i: nat :: i < |c.chunks| ==> Known(ss[k], Mine(i))
    ensures ss[k].results == seq(c.n, i requires 0 <= i < c.n => c.ok(i))
    ensures ss[k].validCount == Valid(c.ok, 0, c.n)
  {
    hide Run, Known, Total, Valid;
    var s := ss[k];
    RunWritten(c, ss, k);
    forall i: nat | i < |c.chunks| ensures Mine(i) in Done(s) { WaitMeansFinished(c, ss, k, Mine(i)); }
    forall i: nat | i < c.n ensures s.results[i] == c.ok(i) {
      var at := ChunkOf(c.chunks, c.n, i, |c.chunks| - 1);
      assert LinesDone(c, s, From(c, Mine(at)), To(c, Mine(at)));
    }
    AllChunks(c, Done(s), |c.chunks|);
  }
}

/** The registry of compiled schemas shared by all callers (binding/ata_napi.cpp:1132-1184). */
module SlotRegistry {
  import opened Json

  const MAX_SLOTS := 4096

  datatype Answer = Slot(i: nat) | Full | NotCompiled

  /** `T` is what compiling a text gives; the call holds the registry's lock throughout. */
  class Registry<T(0)> {
    const compile: string -> Option<T>
    const schemas: array<T>
    const texts: array<string>
    var count: nat

    /** Every slot in use holds the compiled form of its text, and no text has two. */
    ghost predicate Valid() reads this, schemas, texts {
      && schemas.Length == texts.Length == MAX_SLOTS && count <= MAX_SLOTS && schemas as object != texts as object
      && (forall i :: 0 <= i < count ==> compile(texts[i]) == Some(schemas[i]))
      && forall i, j :: 0 <= i < j < count ==> texts[i] != texts[j]
    }

    constructor (compile: string -> Option<T>)
      ensures Valid() && count == 0 && this.compile == compile
    {
      this.compile := compile;
      schemas, texts, count := new T[MAX_SLOTS], new string[MAX_SLOTS], 0;
    }

    /** The same text gets the same slot for good; a slot once given out never changes. */
    method Register(text: string) returns (a: Answer)
      requires Valid()
      modifies this`count, schemas, texts
      ensures Valid() && old(count) <= count <= old(count) + 1
      ensures forall i :: 0 <= i < old(count) ==> texts[i] == old(texts[i]) && schemas[i] == old(schemas[i])
      ensures a.Slot? ==> a.i < count && texts[a.i] == text
      ensures (exists i :: 0 <= i < old(count) && old(texts[i]) == text) ==> a.Slot? && count == old(count)
      ensures (forall i :: 0 <= i < old(count) ==> old(texts[i]) != text) ==>
        a == if old(count) >= MAX_SLOTS then Full else if compile(text).None? then NotCompiled else Slot(old(count))
      ensures count > old(count) <==> a == Slot(old(count))
    {
      var i := 0;
      while i < count
        invariant 0 <= i <= count && forall k :: 0 <= k < i ==> texts[k] != text
      {
        if texts[i] == text { return Slot(i); }
        i := i + 1;
      }
      if count >= MAX_SLOTS { return Full; }
      var c := compile(text);
      if c.None? { return NotCompiled; }
      var slot := count;
      schemas[slot] := c.value;
      texts[slot] := text;
      count := slot + 1;
      a := Slot(slot);
    }

    /** What a registered slot is checked with: the compiled form of the text it was registered under. */
    method Lookup(i: nat) returns (schema: Option<T>)
      requires Valid()
      ensures schema == if i < count then compile(texts[i]) else None
    {
      schema := if i < count then Some(schemas[i]) else None;
    }
  }
}
