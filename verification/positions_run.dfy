/**
 The two walks as they run (lib/data-positions.js): a cursor, a counter of pointers still wanted and
 five parallel arrays, then line and column by binary search.
 */
module PositionRun {
  import opened Json
  import opened PositionWalk

  /** What a loop still has to do, after recording `done`. */
  function Resumed(done: seq<Entry>, rest: Walked): Walked {
    match rest case Throw => Throw case At(e, more) => At(e, done + more)
  }

  lemma ResumedMore(done: seq<Entry>, es: seq<Entry>, rest: Walked)
    ensures Resumed(done, Resumed(es, rest)) == Resumed(done + es, rest)
  {
    if rest.At? { assert done + (es + rest.es) == done + es + rest.es; }
  }

  ghost function TResumed(done: seq<Entry>, rest: Targeted): Targeted {
    match rest case TThrow => TThrow case TAt(e, more, n, stopped) => TAt(e, done + more, n, stopped)
  }

  lemma TResumedMore(done: seq<Entry>, es: seq<Entry>, rest: Targeted)
    ensures TResumed(done, TResumed(es, rest)) == TResumed(done + es, rest)
  {
    if rest.TAt? { assert done + (es + rest.es) == done + es + rest.es; }
  }

  lemma MembersFrom(t: string, i: nat, ptr: string, parse: Parse)
    requires i <= |t|
    ensures Members(t, i, ptr, parse) == Members(t, SkipWs(t, i), ptr, parse)
  {
    hide Walk, ReadString;
    SkipWsTwice(t, i);
  }

  lemma {:induction false} SkipWsTwice(t: string, i: nat)
    requires i <= |t|
    ensures SkipWs(t, SkipWs(t, i)) == SkipWs(t, i)
    decreases |t| - i
  {
    if i < |t| && IsWs(t[i]) { SkipWsTwice(t, i + 1); }
  }

  lemma MembersBad(t: string, s: nat, ptr: string, parse: Parse)
    requires s < |t| && !IsWs(t[s]) && t[s] != '}' && t[s] != ',' && ReadString(t, s, parse).Bad?
    ensures Members(t, s, ptr, parse) == Throw
  {
    hide Walk, ReadString;
  }

  lemma MembersOne(t: string, s: nat, ptr: string, parse: Parse, j: nat, name: string, k: nat)
    requires s < |t| && !IsWs(t[s]) && t[s] != '}' && t[s] != ',' && ReadString(t, s, parse) == Good(j, name) && k == SkipWs(t, j)
    ensures Members(t, s, ptr, parse) ==
      if k >= |t| || t[k] != ':' then Throw
      else
        match Walk(t, k + 1, Child(ptr, Escape(name)), Some((s, j - s)), parse)
        case Throw => Throw
        case At(m, es) => Resumed(es, Members(t, m, ptr, parse))
  {
    hide Walk, ReadString;
  }

  lemma ItemsOne(t: string, s: nat, ptr: string, idx: nat, parse: Parse)
    requires s < |t| && !IsWs(t[s]) && t[s] != ']' && t[s] != ','
    ensures Items(t, s, ptr, idx, parse) ==
      match Walk(t, s, Child(ptr, NatText(idx)), None, parse)
      case Throw => Throw
      case At(m, es) => if m == s then At(m, es) else Resumed(es, Items(t, m, ptr, idx + 1, parse))
  {
    hide Walk;
  }

  /** Where each loop ends, and where it only steps over a comma. */
  lemma MembersHere(t: string, s: nat, ptr: string, parse: Parse)
    requires s <= |t| && (s < |t| ==> !IsWs(t[s]))
    ensures s == |t| ==> Members(t, s, ptr, parse) == At(s, [])
    ensures s < |t| && t[s] == '}' ==> Members(t, s, ptr, parse) == At(s + 1, [])
    ensures s < |t| && t[s] == ',' ==> Members(t, s, ptr, parse) == Members(t, s + 1, ptr, parse)
  {
    hide Walk, ReadString;
  }

  lemma ItemsHere(t: string, s: nat, ptr: string, idx: nat, parse: Parse)
    requires s <= |t| && (s < |t| ==> !IsWs(t[s]))
    ensures s == |t| ==> Items(t, s, ptr, idx, parse) == At(s, [])
    ensures s < |t| && t[s] == ']' ==> Items(t, s, ptr, idx, parse) == At(s + 1, [])
    ensures s < |t| && t[s] == ',' ==> Items(t, s, ptr, idx, parse) == Items(t, s + 1, ptr, idx, parse)
  {
    hide Walk;
  }

  lemma ItemsFrom(t: string, i: nat, ptr: string, idx: nat, parse: Parse)
    requires i <= |t|
    ensures Items(t, i, ptr, idx, parse) == Items(t, SkipWs(t, i), ptr, idx, parse)
  {
    hide Walk;
    SkipWsTwice(t, i);
  }

  lemma TMembersFrom(t: string, i: nat, ptr: string, left: int, wanted: set<string>, parse: Parse)
    requires i <= |t|
    ensures TMembers(t, i, ptr, left, wanted, parse) == TMembers(t, SkipWs(t, i), ptr, left, wanted, parse)
  {
    hide TWalk, ReadString;
    SkipWsTwice(t, i);
  }

  lemma TItemsFrom(t: string, i: nat, ptr: string, idx: nat, left: int, wanted: set<string>, parse: Parse)
    requires i <= |t|
    ensures TItems(t, i, ptr, idx, left, wanted, parse) == TItems(t, SkipWs(t, i), ptr, idx, left, wanted, parse)
  {
    hide TWalk;
    SkipWsTwice(t, i);
  }

  lemma TMembersHere(t: string, s: nat, ptr: string, left: int, wanted: set<string>, parse: Parse)
    requires s <= |t| && (s < |t| ==> !IsWs(t[s]))
    ensures s == |t| ==> TMembers(t, s, ptr, left, wanted, parse) == TAt(s, [], left, false)
    ensures s < |t| && t[s] == '}' ==> TMembers(t, s, ptr, left, wanted, parse) == TAt(s + 1, [], left, false)
    ensures s < |t| && t[s] == ',' ==> TMembers(t, s, ptr, left, wanted, parse) == TMembers(t, s + 1, ptr, left, wanted, parse)
    ensures s < |t| && t[s] != '}' && t[s] != ',' && ReadString(t, s, parse).Bad? ==> TMembers(t, s, ptr, left, wanted, parse) == TThrow
  {
    hide TWalk, ReadString;
  }

  lemma TItemsHere(t: string, s: nat, ptr: string, idx: nat, left: int, wanted: set<string>, parse: Parse)
    requires s <= |t| && (s < |t| ==> !IsWs(t[s]))
    ensures s == |t| ==> TItems(t, s, ptr, idx, left, wanted, parse) == TAt(s, [], left, false)
    ensures s < |t| && t[s] == ']' ==> TItems(t, s, ptr, idx, left, wanted, parse) == TAt(s + 1, [], left, false)
    ensures s < |t| && t[s] == ',' ==> TItems(t, s, ptr, idx, left, wanted, parse) == TItems(t, s + 1, ptr, idx, left, wanted, parse)
  {
    hide TWalk;
  }

  lemma TMembersOne(t: string, s: nat, ptr: string, left: int, wanted: set<string>, parse: Parse, j: nat, name: string, k: nat)
    requires s < |t| && !IsWs(t[s]) && t[s] != '}' && t[s] != ',' && ReadString(t, s, parse) == Good(j, name) && k == SkipWs(t, j)
    ensures TMembers(t, s, ptr, left, wanted, parse) ==
      if k >= |t| || t[k] != ':' then TThrow
      else
        match TWalk(t, k + 1, Child(ptr, Escape(name)), Some((s, j - s)), left, wanted, parse)
        case TThrow => TThrow
        case TAt(m, es, n, _) => if n == 0 then TAt(m, es, n, true) else TResumed(es, TMembers(t, m, ptr, n, wanted, parse))
  {
    hide TWalk, ReadString;
  }

  lemma TItemsOne(t: string, s: nat, ptr: string, idx: nat, left: int, wanted: set<string>, parse: Parse)
    requires s < |t| && !IsWs(t[s]) && t[s] != ']' && t[s] != ','
    ensures TItems(t, s, ptr, idx, left, wanted, parse) ==
      match TWalk(t, s, Child(ptr, NatText(idx)), None, left, wanted, parse)
      case TThrow => TThrow
      case TAt(m, es, n, _) =>
        if n == 0 then TAt(m, es, n, true)
        else if m == s then TAt(m, es, n, false)
        else TResumed(es, TItems(t, m, ptr, idx + 1, n, wanted, parse))
  {
    hide TWalk;
  }

  // ---------------------------------------------------------------- the containers worth entering

  function IndexOfSlash(w: string, from: nat): (r: nat)
    ensures r <= |w| && (from <= r < |w| ==> w[r] == '/')
    ensures from <= |w| ==> from <= r && forall k :: from <= k < r ==> w[k] != '/'
    decreases |w| - from
  {
    if from >= |w| then |w| else if w[from] == '/' then from else IndexOfSlash(w, from + 1)
  }

  method AddPrefixes(w: string, interest: set<string>) returns (more: set<string>)
    ensures forall p :: p in more <==> p in interest || IsPrefix(p, w)
  {
    more := interest;
    var at := 0;
    while true
      invariant at <= |w| && (at < |w| || w == "")
      invariant forall p :: p in more <==> p in interest || (0 < |p| <= at && |p| < |w| && w[..|p|] == p && w[|p|] == '/')
      decreases |w| - at
    {
      var next := IndexOfSlash(w, at + 1);
      if next == |w| || at + 1 > |w| { break; }
      assert w[..next] <= w && |w[..next]| == next;
      more := more + {w[..next]};
      at := next;
    }
    more := more + {w};
  }

  /** Every prefix of every wanted pointer. */
  method InterestOf(wanted: set<string>) returns (interest: set<string>)
    ensures forall p :: p in interest <==> Interesting(p, wanted)
  {
    interest := {""};
    var todo := wanted;
    while todo != {}
      invariant todo <= wanted
      invariant forall p :: p in interest <==> Interesting(p, wanted - todo)
      decreases |todo|
    {
      var w :| w in todo;
      var more := AddPrefixes(w, interest);
      assert wanted - (todo - {w}) == (wanted - todo) + {w};
      InterestingMore(wanted - todo, w);
      todo := todo - {w};
      interest := more;
    }
    assert wanted - todo == wanted;
  }

  lemma InterestingMore(wanted: set<string>, w: string)
    ensures forall p :: Interesting(p, wanted + {w}) <==> Interesting(p, wanted) || IsPrefix(p, w)
  {
    hide IsPrefix;
    forall p ensures Interesting(p, wanted + {w}) <==> Interesting(p, wanted) || IsPrefix(p, w) {
      assert w in wanted + {w};
      if p != "" && (exists v :: v in wanted && IsPrefix(p, v)) {
        var v :| v in wanted && IsPrefix(p, v);
        assert v in wanted + {w};
      }
    }
  }

  // ---------------------------------------------------------------- the walks

  function KeySpan(start: int, len: nat): Option<(nat, nat)> {
    if start >= 0 then Some((start, len)) else None
  }

  /** The five arrays, read across. */
  function Zip(ptrs: seq<string>, starts: seq<nat>, lens: seq<nat>, keyStarts: seq<int>, keyLens: seq<nat>): (es: seq<Entry>)
    requires |ptrs| == |starts| == |lens| == |keyStarts| == |keyLens|
    ensures |es| == |ptrs|
  {
    seq(|ptrs|, k requires 0 <= k < |ptrs| => Entry(ptrs[k], starts[k], lens[k], KeySpan(keyStarts[k], keyLens[k])))
  }

  class Walker {
    const text: string
    const parse: Parse
    const wanted: set<string>
    var interest: set<string>
    var remaining: int
    var i: nat
    var ptrs: seq<string>
    var starts: seq<nat>
    var lens: seq<nat>
    var keyStarts: seq<int>
    var keyLens: seq<nat>

    ghost predicate Valid() reads `ptrs, `starts, `lens, `keyStarts, `keyLens {
      |ptrs| == |starts| == |lens| == |keyStarts| == |keyLens|
    }

    ghost predicate Ready() reads `interest {
      forall p :: p in interest <==> Interesting(p, wanted)
    }

    ghost function Entries(): (es: seq<Entry>)
      reads `ptrs, `starts, `lens, `keyStarts, `keyLens
      requires Valid()
      ensures |es| == |ptrs|
    {
      Zip(ptrs, starts, lens, keyStarts, keyLens)
    }

    constructor Full(text: string, parse: Parse)
      ensures this.text == text && this.parse == parse && Valid() && i == StartOf(text) && Entries() == []
    {
      this.text, this.parse, this.wanted, interest, remaining := text, parse, {}, {}, 0;
      i := if text != "" && text[0] == '\U{FEFF}' then 1 else 0;
      ptrs, starts, lens, keyStarts, keyLens := [], [], [], [], [];
    }

    constructor Targeted(text: string, wanted: set<string>, parse: Parse)
      ensures this.text == text && this.wanted == wanted && this.parse == parse && Valid() && i == StartOf(text) && Entries() == []
      ensures remaining == |wanted| && Ready()
    {
      this.text, this.parse, this.wanted, remaining := text, parse, wanted, |wanted|;
      i := if text != "" && text[0] == '\U{FEFF}' then 1 else 0;
      ptrs, starts, lens, keyStarts, keyLens := [], [], [], [], [];
      new;
      interest := InterestOf(wanted);
    }

    method SkipSpace()
      requires i <= |text|
      modifies `i
      ensures i == SkipWs(text, old(i))
    {
      while i < |text|
        invariant old(i) <= i <= |text| && SkipWs(text, old(i)) == SkipWs(text, i)
        decreases |text| - i
      {
        if IsWs(text[i]) { i := i + 1; } else { break; }
      }
    }

    method SkipToken()
      requires i <= |text|
      modifies `i
      ensures i == SkipScalar(text, old(i))
    {
      while i < |text|
        invariant old(i) <= i <= |text| && SkipScalar(text, old(i)) == SkipScalar(text, i)
        decreases |text| - i
      {
        if IsDelimiter(text[i]) { break; }
        i := i + 1;
      }
    }

    method TakeString() returns (r: Read)
      requires i < |text|
      modifies `i
      ensures r == ReadString(text, old(i), parse)
      ensures r.Good? ==> i == r.i
    {
      var start := i;
      var simple := text[i] == '"';
      i := i + 1;
      var closed := false;
      while i < |text|
        invariant start < i
        invariant !closed && ScanString(text, start + 1, text[start] == '"') == ScanString(text, i, simple)
        decreases |text| - i
      {
        if text[i] == '\\' { simple := false; i := i + 2; continue; }
        if text[i] == '"' { i := i + 1; closed := true; break; }
        if text[i] < ' ' { simple := false; }
        i := i + 1;
      }
      if !closed { return Bad; }
      if simple { return Good(i, text[start + 1..i - 1]); }
      var decoded := parse(text[start..i]);
      return if decoded.Some? then Good(i, decoded.value) else Bad;
    }

    method Record(ptr: string, start: nat, len: nat, keyStart: int, keyLen: nat)
      requires Valid()
      modifies `ptrs, `starts, `lens, `keyStarts, `keyLens
      ensures Valid() && Entries() == old(Entries()) + [Entry(ptr, start, len, KeySpan(keyStart, keyLen))]
    {
      ptrs, starts, lens, keyStarts, keyLens := ptrs + [ptr], starts + [start], lens + [len], keyStarts + [keyStart], keyLens + [keyLen];
    }

    /** `ok` is false where the source throws. */
    method WalkValue(ptr: string, keyStart: int, keyLen: nat) returns (ok: bool)
      requires Valid() && i <= |text|
      modifies this
      ensures ok <==> Walk(text, old(i), ptr, KeySpan(keyStart, keyLen), parse).At?
      ensures ok ==> Valid() && At(i, Entries()) == Resumed(old(Entries()), Walk(text, old(i), ptr, KeySpan(keyStart, keyLen), parse))
      decreases |text| - i, 2
    {
      hide Members, Items, ReadString, SkipScalar, SkipWs, Zip;
      SkipSpace();
      if i >= |text| { return true; }
      var start := i;
      if text[i] == '{' {
        i := i + 1;
        ok := WalkMembers(ptr);
        if !ok { return; }
      } else if text[i] == '[' {
        i := i + 1;
        ok := WalkItems(ptr);
        if !ok { return; }
      } else if text[i] == '"' {
        var r := TakeString();
        if r.Bad? { return false; }
      } else {
        SkipToken();
      }
      Record(ptr, start, i - start, keyStart, keyLen);
      ok := true;
    }

    method WalkMembers(ptr: string) returns (ok: bool)
      requires Valid() && i <= |text|
      modifies this
      ensures ok <==> Members(text, old(i), ptr, parse).At?
      ensures ok ==> Valid() && At(i, Entries()) == Resumed(old(Entries()), Members(text, old(i), ptr, parse))
      decreases |text| - i, 1
    {
      hide Walk, ReadString, Escape, SkipWs, Zip, Members, Child;
      ghost var base, whole := Entries(), Members(text, i, ptr, parse);
      ghost var done: seq<Entry> := [];
      while true
        invariant Valid() && old(i) <= i <= |text| && Entries() == base + done
        invariant whole == Resumed(done, Members(text, i, ptr, parse))
        decreases |text| - i
      {
        MembersFrom(text, i, ptr, parse);
        SkipSpace();
        MembersHere(text, i, ptr, parse);
        if i >= |text| { break; }
        if text[i] == '}' { i := i + 1; break; }
        if text[i] == ',' { i := i + 1; continue; }
        var memberKeyStart := i;
        var key := TakeString();
        if key.Bad? { MembersBad(text, memberKeyStart, ptr, parse); return false; }
        var memberKeyLen := i - memberKeyStart;
        SkipSpace();
        MembersOne(text, memberKeyStart, ptr, parse, key.i, key.value, i);
        if i >= |text| || text[i] != ':' { return false; }
        i := i + 1;
        ghost var inner := Walk(text, i, Child(ptr, Escape(key.value)), Some((memberKeyStart, memberKeyLen)), parse);
        var deep := WalkValue(Child(ptr, Escape(key.value)), memberKeyStart, memberKeyLen);
        if !deep { return false; }
        ResumedMore(done, inner.es, Members(text, i, ptr, parse));
        assert base + done + inner.es == base + (done + inner.es);
        done := done + inner.es;
      }
      assert whole == At(i, done);
      ok := true;
    }

    method WalkItems(ptr: string) returns (ok: bool)
      requires Valid() && i <= |text|
      modifies this
      ensures ok <==> Items(text, old(i), ptr, 0, parse).At?
      ensures ok ==> Valid() && At(i, Entries()) == Resumed(old(Entries()), Items(text, old(i), ptr, 0, parse))
      decreases |text| - i, 3
    {
      hide Walk, NatText, SkipWs, Zip, Items, Child;
      ghost var base, whole := Entries(), Items(text, i, ptr, 0, parse);
      ghost var done: seq<Entry> := [];
      var idx: nat := 0;
      while true
        invariant Valid() && old(i) <= i <= |text| && Entries() == base + done
        invariant whole == Resumed(done, Items(text, i, ptr, idx, parse))
        decreases |text| - i
      {
        ItemsFrom(text, i, ptr, idx, parse);
        SkipSpace();
        ItemsHere(text, i, ptr, idx, parse);
        if i >= |text| { break; }
        if text[i] == ']' { i := i + 1; break; }
        if text[i] == ',' { i := i + 1; continue; }
        var before := i;
        ItemsOne(text, before, ptr, idx, parse);
        ghost var inner := Walk(text, i, Child(ptr, NatText(idx)), None, parse);
        var deep := WalkValue(Child(ptr, NatText(idx)), -1, 0);
        if !deep { return false; }
        ResumedMore(done, inner.es, Items(text, i, ptr, idx + 1, parse));
        assert base + done + inner.es == base + (done + inner.es);
        done := done + inner.es;
        if i == before { break; }
        idx := idx + 1;
      }
      assert whole == At(i, done);
      ok := true;
    }

    // ---------------------------------------------------------------- for known pointers

    method SkipOne() returns (ok: bool)
      requires i <= |text|
      modifies `i
      ensures ok <==> SkipValue(text, old(i), parse).SkipAt?
      ensures ok ==> SkipValue(text, old(i), parse) == SkipAt(i)
    {
      hide SkipWs, ReadString, SkipScalar;
      SkipSpace();
      if i >= |text| { return true; }
      if text[i] == '"' {
        var r := TakeString();
        return r.Good?;
      }
      if text[i] == '{' || text[i] == '[' {
        var depth: nat := 0;
        ghost var whole := SkipNested(text, i, 0, parse);
        while i < |text|
          invariant old(i) <= i <= |text| && whole == SkipNested(text, i, depth, parse)
          decreases |text| - i
        {
          var c := text[i];
          if c == '"' {
            var r := TakeString();
            if r.Bad? { return false; }
          } else if c == '{' || c == '[' {
            depth, i := depth + 1, i + 1;
          } else if c == '}' || c == ']' {
            i := i + 1;
            if depth <= 1 { return true; }
            depth := depth - 1;
          } else {
            i := i + 1;
          }
        }
        return true;
      }
      SkipToken();
      ok := true;
    }

    /** What a targeted step leaves behind, against the function that says what it should. */
    ghost predicate Did(r: Targeted, base: seq<Entry>)
      reads `i, `remaining, `ptrs, `starts, `lens, `keyStarts, `keyLens
    {
      r.TAt? && Valid() && i == r.i && Entries() == base + r.es && remaining == r.left
    }

    method TargetValue(ptr: string, keyStart: int, keyLen: nat) returns (ok: bool)
      requires Valid() && Ready() && i <= |text|
      modifies `i, `remaining, `ptrs, `starts, `lens, `keyStarts, `keyLens
      ensures ok <==> TWalk(text, old(i), ptr, KeySpan(keyStart, keyLen), old(remaining), wanted, parse).TAt?
      ensures ok ==> Did(TWalk(text, old(i), ptr, KeySpan(keyStart, keyLen), old(remaining), wanted, parse), old(Entries()))
      decreases |text| - i, 2
    {
      hide TMembers, TItems, ReadString, SkipScalar, SkipWs, Zip, SkipValue, Interesting;
      SkipWsTwice(text, i);
      SkipSpace();
      if i >= |text| { return true; }
      var start := i;
      if ptr !in interest {
        // A wanted pointer is of interest, so nothing is recorded here.
        ok := SkipOne();
        return;
      }
      var stopped := false;
      if text[i] == '{' {
        i := i + 1;
        ok, stopped := TargetMembers(ptr);
        if !ok || stopped { return; }
      } else if text[i] == '[' {
        i := i + 1;
        ok, stopped := TargetItems(ptr);
        if !ok || stopped { return; }
      } else if text[i] == '"' {
        var r := TakeString();
        if r.Bad? { return false; }
      } else {
        SkipToken();
      }
      if ptr in wanted {
        Record(ptr, start, i - start, keyStart, keyLen);
        remaining := remaining - 1;
      }
      ok := true;
    }

    method TargetMembers(ptr: string) returns (ok: bool, stopped: bool)
      requires Valid() && Ready() && i <= |text|
      modifies `i, `remaining, `ptrs, `starts, `lens, `keyStarts, `keyLens
      ensures ok <==> TMembers(text, old(i), ptr, old(remaining), wanted, parse).TAt?
      ensures ok ==> Did(TMembers(text, old(i), ptr, old(remaining), wanted, parse), old(Entries()))
      ensures ok ==> stopped == TMembers(text, old(i), ptr, old(remaining), wanted, parse).stopped
      decreases |text| - i, 1
    {
      hide TWalk, ReadString, Escape, SkipWs, Zip, TMembers, Child, Interesting;
      stopped := false;
      ghost var base, whole := Entries(), TMembers(text, i, ptr, remaining, wanted, parse);
      ghost var done: seq<Entry> := [];
      while true
        invariant Valid() && Ready() && old(i) <= i <= |text| && Entries() == base + done
        invariant whole == TResumed(done, TMembers(text, i, ptr, remaining, wanted, parse))
        decreases |text| - i
      {
        TMembersFrom(text, i, ptr, remaining, wanted, parse);
        SkipSpace();
        TMembersHere(text, i, ptr, remaining, wanted, parse);
        if i >= |text| { break; }
        if text[i] == '}' { i := i + 1; break; }
        if text[i] == ',' { i := i + 1; continue; }
        var memberKeyStart := i;
        var key := TakeString();
        if key.Bad? { return false, false; }
        var memberKeyLen := i - memberKeyStart;
        SkipSpace();
        TMembersOne(text, memberKeyStart, ptr, remaining, wanted, parse, key.i, key.value, i);
        if i >= |text| || text[i] != ':' { return false, false; }
        i := i + 1;
        ghost var inner := TWalk(text, i, Child(ptr, Escape(key.value)), Some((memberKeyStart, memberKeyLen)), remaining, wanted, parse);
        var deep := TargetValue(Child(ptr, Escape(key.value)), memberKeyStart, memberKeyLen);
        if !deep { return false, false; }
        assert base + done + inner.es == base + (done + inner.es);
        if remaining == 0 { return true, true; }
        TResumedMore(done, inner.es, TMembers(text, i, ptr, remaining, wanted, parse));
        done := done + inner.es;
      }
      assert whole == TAt(i, done, remaining, false);
      ok := true;
    }

    method TargetItems(ptr: string) returns (ok: bool, stopped: bool)
      requires Valid() && Ready() && i <= |text|
      modifies `i, `remaining, `ptrs, `starts, `lens, `keyStarts, `keyLens
      ensures ok <==> TItems(text, old(i), ptr, 0, old(remaining), wanted, parse).TAt?
      ensures ok ==> Did(TItems(text, old(i), ptr, 0, old(remaining), wanted, parse), old(Entries()))
      ensures ok ==> stopped == TItems(text, old(i), ptr, 0, old(remaining), wanted, parse).stopped
      decreases |text| - i, 3
    {
      hide TWalk, NatText, SkipWs, Zip, TItems, Child, Interesting;
      stopped := false;
      ghost var base, whole := Entries(), TItems(text, i, ptr, 0, remaining, wanted, parse);
      ghost var done: seq<Entry> := [];
      var idx: nat := 0;
      while true
        invariant Valid() && Ready() && old(i) <= i <= |text| && Entries() == base + done
        invariant whole == TResumed(done, TItems(text, i, ptr, idx, remaining, wanted, parse))
        decreases |text| - i
      {
        TItemsFrom(text, i, ptr, idx, remaining, wanted, parse);
        SkipSpace();
        TItemsHere(text, i, ptr, idx, remaining, wanted, parse);
        if i >= |text| { break; }
        if text[i] == ']' { i := i + 1; break; }
        if text[i] == ',' { i := i + 1; continue; }
        var before := i;
        TItemsOne(text, before, ptr, idx, remaining, wanted, parse);
        ghost var inner := TWalk(text, i, Child(ptr, NatText(idx)), None, remaining, wanted, parse);
        var deep := TargetValue(Child(ptr, NatText(idx)), -1, 0);
        if !deep { return false, false; }
        assert inner == TAt(i, inner.es, remaining, inner.stopped);
        assert base + done + inner.es == base + (done + inner.es);
        if remaining == 0 { return true, true; }
        TResumedMore(done, inner.es, TItems(text, i, ptr, idx + 1, remaining, wanted, parse));
        done := done + inner.es;
        if i == before { break; }
        idx := idx + 1;
      }
      assert whole == TAt(i, done, remaining, false);
      ok := true;
    }
  }
}
