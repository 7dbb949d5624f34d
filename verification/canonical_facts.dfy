/** Two documents have the same canonical text exactly when they are equal up to the order of members. */
module CanonicalFacts {
  import opened Json
  import opened Canonical

  // ---------------------------------------------------------------- members as a map

  lemma {:induction false} MembersHold(ms: seq<DMember>)
    requires Distinct(ms)
    ensures forall i :: 0 <= i < |ms| ==> ms[i].key in MembersValue(ms) && MembersValue(ms)[ms[i].key] == Value(ms[i].value)
    ensures forall k :: k in MembersValue(ms) ==> exists i :: 0 <= i < |ms| && ms[i].key == k
    decreases |ms|
  {
    hide Value;
    if ms != [] {
      var init := ms[..|ms| - 1];
      MembersHold(init);
      assert forall i :: 0 <= i < |init| ==> init[i] == ms[i];
    }
  }

  lemma DistinctPermuted(ms: seq<DMember>, ns: seq<DMember>)
    requires Distinct(ms) && multiset(ms) == multiset(ns) && |ms| == |ns|
    ensures Distinct(ns)
  {
    forall i, j | 0 <= i < j < |ns| ensures ns[i].key != ns[j].key {
      if ns[i] == ns[j] {
        TwiceIn(ns, i, j);
        OnceIn(ms, ns[i]);
      } else {
        assert ns[i] in multiset(ns) && ns[j] in multiset(ns);
        var p :| 0 <= p < |ms| && ms[p] == ns[i];
        var q :| 0 <= q < |ms| && ms[q] == ns[j];
        assert p != q;
      }
    }
  }

  lemma TwiceIn(ns: seq<DMember>, i: nat, j: nat)
    requires i < j < |ns| && ns[i] == ns[j]
    ensures multiset(ns)[ns[i]] >= 2
  {
    assert ns == ns[..j] + [ns[j]] + ns[j + 1..];
    assert ns[..j] == ns[..i] + [ns[i]] + ns[i + 1..j];
  }

  lemma {:induction false} OnceIn(ms: seq<DMember>, m: DMember)
    requires Distinct(ms)
    ensures multiset(ms)[m] <= 1
    decreases |ms|
  {
    if ms != [] {
      var init, last := ms[..|ms| - 1], ms[|ms| - 1];
      assert ms == init + [last];
      OnceIn(init, m);
      if last == m {
        forall p | 0 <= p < |init| ensures init[p] != m { assert ms[p].key != last.key; }
        assert m !in init;
        assert multiset(init)[m] == 0;
      }
    }
  }

  // ---------------------------------------------------------------- the order of keys

  lemma {:induction false} BeforeApart(a: string, b: string)
    ensures !(Before(a, b) && Before(b, a)) && (a != b ==> Before(a, b) || Before(b, a)) && !Before(a, a)
    decreases |a|
  {
    if a != "" && b != "" {
      BeforeApart(a[1..], b[1..]);
      BeforeApart(a[1..], a[1..]);
      assert a == [a[0]] + a[1..] && b == [b[0]] + b[1..];
    } else if a != "" {
      BeforeApart(a[1..], a[1..]);
    }
  }

  lemma {:induction false} BeforeChain(a: string, b: string, c: string)
    requires Before(a, b) && Before(b, c)
    ensures Before(a, c)
    decreases |b|
  {
    if a != "" && a[0] == b[0] && b[0] == c[0] { BeforeChain(a[1..], b[1..], c[1..]); }
  }

  predicate InOrder(ms: seq<DMember>) { forall i, j :: 0 <= i < j < |ms| ==> !Before(ms[j].key, ms[i].key) }

  lemma NotAfter(a: string, b: string, c: string)
    requires !Before(b, a) && !Before(c, b)
    ensures !Before(c, a)
  {
    BeforeApart(a, b);
    BeforeApart(b, c);
    BeforeApart(a, c);
    if Before(c, a) {
      if a == b {
      } else if b == c {
      } else {
        BeforeChain(a, b, c);
      }
    }
  }

  lemma {:induction false} InsertOrders(ms: seq<DMember>, m: DMember)
    requires InOrder(ms)
    ensures InOrder(Insert(ms, m))
    decreases |ms|
  {
    hide Before;
    if ms == [] {
    } else {
      var last, init := ms[|ms| - 1], ms[..|ms| - 1];
      if !Before(m.key, last.key) {
        forall i | 0 <= i < |ms| ensures !Before(m.key, ms[i].key) {
          if i < |init| { NotAfter(ms[i].key, last.key, m.key); }
        }
      } else {
        InsertOrders(init, m);
        InsertKeeps(init, m);
        var r := Insert(init, m);
        forall i | 0 <= i < |r| ensures !Before(last.key, r[i].key) {
          assert r[i] in multiset(r);
          BeforeApart(m.key, last.key);
          if r[i] != m { assert r[i] in init; var p :| 0 <= p < |init| && init[p] == r[i]; assert ms[p] == r[i]; }
        }
      }
    }
  }

  lemma {:induction false} SortOrders(ms: seq<DMember>)
    ensures InOrder(SortMembers(ms))
    decreases |ms|
  {
    if ms != [] {
      SortOrders(ms[..|ms| - 1]);
      InsertOrders(SortMembers(ms[..|ms| - 1]), ms[|ms| - 1]);
    }
  }

  function KeySet(ms: seq<DMember>): set<string> { set i | 0 <= i < |ms| :: ms[i].key }

  lemma KeySetInit(ms: seq<DMember>)
    requires ms != [] && Distinct(ms)
    ensures KeySet(ms[..|ms| - 1]) == KeySet(ms) - {ms[|ms| - 1].key} && ms[|ms| - 1].key in KeySet(ms)
  {
    var n := |ms| - 1;
    var init := ms[..n];
    forall k | k in KeySet(ms) - {ms[n].key} ensures k in KeySet(init) {
      var i :| 0 <= i < |ms| && ms[i].key == k;
      assert init[i].key == k;
    }
    forall k | k in KeySet(init) ensures k in KeySet(ms) && k != ms[n].key {
      var i :| 0 <= i < |init| && init[i].key == k;
      assert ms[i].key == k;
    }
  }

  /** The last key of a sorted list is after every other. */
  lemma LastKey(ms: seq<DMember>, k: string)
    requires ms != [] && InOrder(ms) && k in KeySet(ms)
    ensures !Before(ms[|ms| - 1].key, k)
  {
    var i :| 0 <= i < |ms| && ms[i].key == k;
    BeforeApart(k, k);
  }

  lemma NoKeys(ms: seq<DMember>)
    ensures KeySet(ms) == {} <==> ms == []
  {
    if ms != [] { assert ms[0].key in KeySet(ms); }
  }

  /** Two sorted lists with the same distinct keys have them in the same places. */
  lemma {:induction false} SortedAlike(a: seq<DMember>, b: seq<DMember>)
    requires InOrder(a) && InOrder(b) && Distinct(a) && Distinct(b) && KeySet(a) == KeySet(b)
    ensures |a| == |b| && forall i :: 0 <= i < |a| ==> a[i].key == b[i].key
    decreases |a|
  {
    hide Before;
    if a == [] || b == [] {
      NoKeys(a);
      NoKeys(b);
    } else {
      var n, m := |a| - 1, |b| - 1;
      KeySetInit(a);
      KeySetInit(b);
      LastKey(a, b[m].key);
      LastKey(b, a[n].key);
      BeforeApart(a[n].key, b[m].key);
      SortedAlike(a[..n], b[..m]);
    }
  }

  /** A sorted member list, and the map it stands for. */
  lemma SortedValue(ms: seq<DMember>)
    requires Distinct(ms)
    ensures Distinct(SortMembers(ms)) && InOrder(SortMembers(ms)) && MembersValue(SortMembers(ms)) == MembersValue(ms)
  {
    hide Value, SortMembers;
    var r := SortMembers(ms);
    SortOrders(ms);
    DistinctPermuted(ms, r);
    SameEntries(ms, r);
  }

  lemma SameEntries(ms: seq<DMember>, r: seq<DMember>)
    requires Distinct(ms) && Distinct(r) && multiset(r) == multiset(ms)
    ensures MembersValue(r) == MembersValue(ms)
  {
    hide Value, MembersValue, Distinct;
    MembersHold(ms);
    MembersHold(r);
    EntriesWithin(r, ms);
    EntriesWithin(ms, r);
  }

  lemma EntriesWithin(ms: seq<DMember>, r: seq<DMember>)
    requires Distinct(ms) && Distinct(r) && multiset(r) == multiset(ms)
    ensures forall k :: k in MembersValue(r) ==> k in MembersValue(ms) && MembersValue(r)[k] == MembersValue(ms)[k]
  {
    hide Value, MembersValue, Distinct;
    MembersHold(ms);
    MembersHold(r);
    forall k | k in MembersValue(r) ensures k in MembersValue(ms) && MembersValue(r)[k] == MembersValue(ms)[k] {
      var i :| 0 <= i < |r| && r[i].key == k;
      assert r[i] in multiset(ms);
      var p :| 0 <= p < |ms| && ms[p] == r[i];
    }
  }

  lemma KeysOfMap(ms: seq<DMember>)
    requires Distinct(ms)
    ensures MembersValue(ms).Keys == KeySet(ms)
  {
    hide Value;
    MembersHold(ms);
  }

  /** Equal maps sort into the same keys with equal values. */
  lemma SortedSame(ms: seq<DMember>, ns: seq<DMember>)
    requires Distinct(ms) && Distinct(ns) && MembersValue(ms) == MembersValue(ns)
    ensures var a, b := SortMembers(ms), SortMembers(ns);
            |a| == |b| && forall i :: 0 <= i < |a| ==> a[i].key == b[i].key && Value(a[i].value) == Value(b[i].value)
  {
    hide Value, SortMembers, MembersValue;
    var a, b := SortMembers(ms), SortMembers(ns);
    SortedValue(ms);
    SortedValue(ns);
    KeysOfMap(a);
    KeysOfMap(b);
    SortedAlike(a, b);
    MembersHold(a);
    MembersHold(b);
    forall i | 0 <= i < |a| ensures Value(a[i].value) == Value(b[i].value) {
      assert MembersValue(a)[a[i].key] == MembersValue(b)[b[i].key];
    }
  }

  // ---------------------------------------------------------------- equal values, equal texts

  /** Equal up to member order, so the same text. */
  lemma {:induction false} SameText(a: Doc, b: Doc, num: NumText)
    requires WellFormed(a, num) && WellFormed(b, num) && Value(a) == Value(b)
    ensures Canon(a, num) == Canon(b, num)
    decreases a, 2
  {
    hide SortMembers;
    match a
    case DScalar(v) =>
    case DArr(xs) =>
      assert b.DArr?;
      var ys := b.items;
      assert |xs| == |ys|;
      forall i | 0 <= i < |xs| ensures Value(xs[i]) == Value(ys[i]) {
        assert Value(a).a[i] == Value(b).a[i];
      }
      SameItems(xs, ys, 0, num);
    case DObj(ms) =>
      SortedSame(ms, b.members);
      SameMembers(a, b, 0, num);
  }

  lemma {:induction false} SameItems(xs: seq<Doc>, ys: seq<Doc>, i: nat, num: NumText)
    requires |xs| == |ys| && i <= |xs| && forall k :: 0 <= k < |xs| ==> WellFormed(xs[k], num) && WellFormed(ys[k], num) && Value(xs[k]) == Value(ys[k])
    ensures CanonItems(xs, i, num) == CanonItems(ys, i, num)
    decreases xs, 1, |xs| - i
  {
    hide Canon, Value, WellFormed;
    if i < |xs| {
      SameText(xs[i], ys[i], num);
      SameItems(xs, ys, i + 1, num);
    }
  }

  lemma {:induction false} SameMembers(a: Doc, b: Doc, i: nat, num: NumText)
    requires a.DObj? && b.DObj? && WellFormed(a, num) && WellFormed(b, num)
    requires var ms, ns := SortMembers(a.members), SortMembers(b.members);
             i <= |ms| == |ns| && forall k :: 0 <= k < |ms| ==> ms[k].key == ns[k].key && Value(ms[k].value) == Value(ns[k].value)
    ensures CanonMembers(a, SortMembers(a.members), i, num) == CanonMembers(b, SortMembers(b.members), i, num)
    decreases a, 1, |a.members| - i
  {
    hide Canon, Value, SortMembers, Quote;
    var ms, ns := SortMembers(a.members), SortMembers(b.members);
    if i < |ms| {
      assert ms[i] in multiset(ms) && ms[i] in a.members && ns[i] in multiset(ns) && ns[i] in b.members;
      SameText(ms[i].value, ns[i].value, num);
      SameMembers(a, b, i + 1, num);
    }
  }

  // ---------------------------------------------------------------- equal texts, equal values

  /** Nothing follows, or something no token contains. */
  predicate Ends(x: string) { x != "" ==> x[0] == ',' || x[0] == ']' || x[0] == '}' }

  lemma Front(s: string, x: string)
    ensures s != "" ==> s + x != "" && (s + x)[0] == s[0] && (s + x)[1..] == s[1..] + x
    ensures s == "" ==> s + x == x
  {
  }

  lemma {:induction false} TokenSplit(s: string, t: string, x: string, y: string)
    requires (forall i :: 0 <= i < |s| ==> NumChar(s[i])) && (forall i :: 0 <= i < |t| ==> NumChar(t[i]))
    requires Ends(x) && Ends(y) && s + x == t + y
    ensures s == t && x == y
    decreases |s|
  {
    Front(s, x);
    Front(t, y);
    assert (s != "" ==> NumChar(s[0])) && (t != "" ==> NumChar(t[0]));
    if s != "" && t != "" {
      TokenSplit(s[1..], t[1..], x, y);
      assert s == [s[0]] + s[1..] && t == [t[0]] + t[1..];
    }
  }

  lemma HexOnce(a: nat, b: nat)
    requires a < 16 && b < 16 && Hex(a) == Hex(b)
    ensures a == b
  {
  }

  /** An escaped character ends where it ends. */
  lemma EscapeSplit(c: char, d: char, x: string, y: string)
    requires EscapeChar(c) + x == EscapeChar(d) + y
    ensures c == d && x == y
  {
    var s, t := EscapeChar(c), EscapeChar(d);
    var w := s + x;
    assert w[0] == s[0] && w[0] == t[0];
    if s[0] == '\\' {
      assert w[1] == s[1] && w[1] == t[1];
      assert |s| == |t|;
      if |s| == 6 {
        assert w[4] == s[4] && w[4] == t[4] && w[5] == s[5] && w[5] == t[5];
        HexOnce(c as nat / 16, d as nat / 16);
        HexOnce(c as nat % 16, d as nat % 16);
      }
    }
    assert x == w[|s|..] && y == (t + y)[|t|..];
  }

  lemma EscapeFirst(c: char)
    ensures EscapeChar(c) != "" && EscapeChar(c)[0] != '"'
  {
  }

  /** The closing quote is the first quote. */
  lemma QuoteFront(s: string, x: string)
    ensures var u := EscapeAll(s) + ("\"" + x);
            u != "" && (s == "" <==> u[0] == '"') && (s == "" ==> u[1..] == x)
  {
    hide EscapeChar;
    if s == "" {
      assert "" + ("\"" + x) == "\"" + x;
    } else {
      EscapeFirst(s[0]);
      assert (EscapeAll(s) + ("\"" + x))[0] == EscapeChar(s[0])[0];
    }
  }

  lemma {:induction false} QuoteSplit(s: string, t: string, x: string, y: string)
    requires EscapeAll(s) + ("\"" + x) == EscapeAll(t) + ("\"" + y)
    ensures s == t && x == y
    decreases |s|
  {
    hide EscapeChar;
    var u, v := EscapeAll(s) + ("\"" + x), EscapeAll(t) + ("\"" + y);
    if s == "" || t == "" {
      QuoteFront(s, x);
      QuoteFront(t, y);
    } else {
      assert u == EscapeChar(s[0]) + (EscapeAll(s[1..]) + ("\"" + x));
      assert v == EscapeChar(t[0]) + (EscapeAll(t[1..]) + ("\"" + y));
      EscapeSplit(s[0], t[0], EscapeAll(s[1..]) + ("\"" + x), EscapeAll(t[1..]) + ("\"" + y));
      QuoteSplit(s[1..], t[1..], x, y);
      assert s == [s[0]] + s[1..] && t == [t[0]] + t[1..];
    }
  }

  lemma StringSplit(s: string, t: string, x: string, y: string)
    requires Quote(s) + x == Quote(t) + y
    ensures s == t && x == y
  {
    hide EscapeAll;
    assert Quote(s) + x == "\"" + (EscapeAll(s) + ("\"" + x));
    assert Quote(t) + y == "\"" + (EscapeAll(t) + ("\"" + y));
    assert (Quote(s) + x)[1..] == EscapeAll(s) + ("\"" + x) && (Quote(t) + y)[1..] == EscapeAll(t) + ("\"" + y);
    QuoteSplit(s, t, x, y);
  }

  datatype Kind = KNull | KTrue | KFalse | KNum | KStr | KArr | KObj

  function KindOf(d: Doc): Kind {
    match d
    case DArr(_) => KArr
    case DObj(_) => KObj
    case DScalar(v) => (match v case Null => KNull case Bool(b) => if b then KTrue else KFalse case Num(_) => KNum case Str(_) => KStr case _ => KNull)
  }

  function KindBy(c: char): Kind {
    if c == 'n' then KNull else if c == 't' then KTrue else if c == 'f' then KFalse else if c == '"' then KStr else if c == '[' then KArr else if c == '{' then KObj else KNum
  }

  /** The first character tells the kind, and ends nothing. */
  lemma FirstTells(d: Doc, num: NumText)
    requires WellFormed(d, num) && NumbersOk(num)
    ensures Canon(d, num) != "" && KindBy(Canon(d, num)[0]) == KindOf(d)
    ensures Canon(d, num)[0] != ',' && Canon(d, num)[0] != ']' && Canon(d, num)[0] != '}' && Canon(d, num)[0] != ':'
  {
    hide CanonItems, CanonMembers, SortMembers, EscapeAll;
    if d.DScalar? && d.v.Num? { assert NumChar(num.text(d.v.n)[0]); }
  }

  lemma Cut(p: string, x: string, y: string)
    requires p + x == p + y
    ensures x == y
  {
    assert (p + x)[|p|..] == x && (p + y)[|p|..] == y;
  }

  /** The same text in front of something that ends a value: the same value, the same rest. */
  lemma {:induction false} TextTells(a: Doc, b: Doc, x: string, y: string, num: NumText)
    requires WellFormed(a, num) && WellFormed(b, num) && NumbersOk(num) && Ends(x) && Ends(y) && Canon(a, num) + x == Canon(b, num) + y
    ensures Value(a) == Value(b) && x == y
    decreases a, 2
  {
    hide CanonItems, CanonMembers, SortMembers, EscapeAll, Quote, WellFormed, Value, NumbersOk;
    FirstTells(a, num);
    FirstTells(b, num);
    assert (Canon(a, num) + x)[0] == Canon(a, num)[0] && (Canon(b, num) + y)[0] == Canon(b, num)[0];
    assert KindOf(a) == KindOf(b);
    match KindOf(a)
    case KArr =>
      ArrayTells(a, b, x, y, num);
    case KObj =>
      ObjectTells(a, b, x, y, num);
    case _ =>
      ScalarKinds(a, b, num);
      ScalarTells(a, b, x, y, num);
  }

  lemma ScalarKinds(a: Doc, b: Doc, num: NumText)
    requires WellFormed(a, num) && WellFormed(b, num) && KindOf(a) == KindOf(b) && KindOf(a) != KArr && KindOf(a) != KObj
    ensures a.DScalar? && b.DScalar? && IsScalar(a.v) && IsScalar(b.v)
  {
  }

  lemma ScalarTells(a: Doc, b: Doc, x: string, y: string, num: NumText)
    requires a.DScalar? && b.DScalar? && WellFormed(a, num) && WellFormed(b, num) && KindOf(a) == KindOf(b)
    requires NumbersOk(num) && Ends(x) && Ends(y) && Canon(a, num) + x == Canon(b, num) + y
    ensures Value(a) == Value(b) && x == y
  {
    hide Quote;
    match a.v
    case Null => Cut("null", x, y);
    case Bool(t) => Cut(if t then "true" else "false", x, y);
    case Num(n) =>
      var m := b.v.n;
      TokenSplit(num.text(n), num.text(m), x, y);
    case Str(s) => StringSplit(s, b.v.s, x, y);
  }

  lemma {:induction false} ArrayTells(a: Doc, b: Doc, x: string, y: string, num: NumText)
    requires a.DArr? && b.DArr? && WellFormed(a, num) && WellFormed(b, num) && NumbersOk(num) && Canon(a, num) + x == Canon(b, num) + y
    ensures Value(a) == Value(b) && x == y
    decreases a, 1
  {
    hide CanonItems, WellFormed, NumbersOk;
    var xs, ys := a.items, b.items;
    assert Canon(a, num) + x == "[" + (CanonItems(xs, 0, num) + ("]" + x));
    assert Canon(b, num) + y == "[" + (CanonItems(ys, 0, num) + ("]" + y));
    Cut("[", CanonItems(xs, 0, num) + ("]" + x), CanonItems(ys, 0, num) + ("]" + y));
    ItemsWellFormed(a, num);
    ItemsWellFormed(b, num);
    ItemsTell(xs, ys, 0, x, y, num);
    assert Value(a).a == Value(b).a;
  }

  lemma ItemsWellFormed(a: Doc, num: NumText)
    requires a.DArr? && WellFormed(a, num)
    ensures forall i :: 0 <= i < |a.items| ==> WellFormed(a.items[i], num)
  {
  }

  /** The closing bracket is where the items end. */
  lemma ItemsFront(xs: seq<Doc>, i: nat, x: string, num: NumText)
    requires i <= |xs| && NumbersOk(num) && forall k :: 0 <= k < |xs| ==> WellFormed(xs[k], num)
    ensures var u := CanonItems(xs, i, num) + ("]" + x);
            u != "" && (i == |xs| <==> u[0] == ']') && (i == |xs| ==> u[1..] == x)
  {
    hide Canon, WellFormed, NumbersOk;
    if i == |xs| {
      assert "" + ("]" + x) == "]" + x;
    } else {
      FirstTells(xs[i], num);
      assert (CanonItems(xs, i, num) + ("]" + x))[0] == (Comma(i) + Canon(xs[i], num))[0];
    }
  }

  lemma {:induction false} ItemsTell(xs: seq<Doc>, ys: seq<Doc>, i: nat, x: string, y: string, num: NumText)
    requires i <= |xs| && i <= |ys| && NumbersOk(num) && (forall k :: 0 <= k < |xs| ==> WellFormed(xs[k], num)) && (forall k :: 0 <= k < |ys| ==> WellFormed(ys[k], num))
    requires CanonItems(xs, i, num) + ("]" + x) == CanonItems(ys, i, num) + ("]" + y)
    ensures |xs| == |ys| && x == y && forall k :: i <= k < |xs| ==> Value(xs[k]) == Value(ys[k])
    decreases xs, 0, |xs| - i
  {
    hide Canon, Value, WellFormed, NumbersOk;
    var u, v := CanonItems(xs, i, num) + ("]" + x), CanonItems(ys, i, num) + ("]" + y);
    if i == |xs| || i == |ys| {
      ItemsFront(xs, i, x, num);
      ItemsFront(ys, i, y, num);
    } else {
      var r, s := CanonItems(xs, i + 1, num) + ("]" + x), CanonItems(ys, i + 1, num) + ("]" + y);
      assert u == Comma(i) + (Canon(xs[i], num) + r) && v == Comma(i) + (Canon(ys[i], num) + s);
      Cut(Comma(i), Canon(xs[i], num) + r, Canon(ys[i], num) + s);
      ItemsEnd(xs, i + 1, x, num);
      ItemsEnd(ys, i + 1, y, num);
      TextTells(xs[i], ys[i], r, s, num);
      ItemsTell(xs, ys, i + 1, x, y, num);
    }
  }

  lemma ItemsEnd(xs: seq<Doc>, i: nat, x: string, num: NumText)
    requires 0 < i <= |xs|
    ensures Ends(CanonItems(xs, i, num) + ("]" + x))
  {
    hide Canon;
    if i == |xs| { assert "" + ("]" + x) == "]" + x; }
  }

  lemma {:induction false} ObjectTells(a: Doc, b: Doc, x: string, y: string, num: NumText)
    requires a.DObj? && b.DObj? && WellFormed(a, num) && WellFormed(b, num) && NumbersOk(num) && Canon(a, num) + x == Canon(b, num) + y
    ensures Value(a) == Value(b) && x == y
    decreases a, 1
  {
    hide CanonMembers, WellFormed, SortMembers, NumbersOk, MembersValue;
    var ms, ns := SortMembers(a.members), SortMembers(b.members);
    var p, q := CanonMembers(a, ms, 0, num), CanonMembers(b, ns, 0, num);
    assert Canon(a, num) + x == "{" + (p + ("}" + x));
    assert Canon(b, num) + y == "{" + (q + ("}" + y));
    Cut("{", p + ("}" + x), q + ("}" + y));
    MembersWellFormed(a, num);
    MembersWellFormed(b, num);
    MembersTell(a, b, 0, x, y, num);
    SortedValue(a.members);
    SortedValue(b.members);
    SameMap(ms, ns);
  }

  lemma MembersWellFormed(a: Doc, num: NumText)
    requires a.DObj? && WellFormed(a, num)
    ensures Distinct(a.members) && forall i :: 0 <= i < |SortMembers(a.members)| ==> SortMembers(a.members)[i] in a.members && WellFormed(SortMembers(a.members)[i].value, num)
  {
    hide SortMembers;
    var ms := SortMembers(a.members);
    forall i | 0 <= i < |ms| ensures ms[i] in a.members && WellFormed(ms[i].value, num) {
      assert ms[i] in multiset(ms);
      assert ms[i] in a.members;
    }
  }

  lemma {:induction false} SameMap(ms: seq<DMember>, ns: seq<DMember>)
    requires |ms| == |ns| && forall k :: 0 <= k < |ms| ==> ms[k].key == ns[k].key && Value(ms[k].value) == Value(ns[k].value)
    ensures MembersValue(ms) == MembersValue(ns)
    decreases |ms|
  {
    hide Value;
    if ms != [] { SameMap(ms[..|ms| - 1], ns[..|ns| - 1]); }
  }

  lemma MembersStep(a: Doc, ms: seq<DMember>, i: nat, x: string, num: NumText)
    requires a.DObj? && multiset(ms) == multiset(a.members) && i < |ms| && ms[i] in a.members
    ensures CanonMembers(a, ms, i, num) + ("}" + x)
      == Comma(i) + (Quote(ms[i].key) + (":" + (Canon(ms[i].value, num) + (CanonMembers(a, ms, i + 1, num) + ("}" + x)))))
  {
    hide Canon, Quote, Comma;
    Five(Comma(i), Quote(ms[i].key), Canon(ms[i].value, num), CanonMembers(a, ms, i + 1, num), "}" + x);
  }

  lemma Five(a: string, b: string, c: string, d: string, e: string)
    ensures (a + (b + ":" + c) + d) + e == a + (b + (":" + (c + (d + e))))
  {
  }

  lemma {:induction false} MembersTell(a: Doc, b: Doc, i: nat, x: string, y: string, num: NumText)
    requires a.DObj? && b.DObj? && NumbersOk(num)
    requires var ms, ns := SortMembers(a.members), SortMembers(b.members);
             && i <= |ms| && i <= |ns| && (forall k :: 0 <= k < |ms| ==> ms[k] in a.members && WellFormed(ms[k].value, num)) && (forall k :: 0 <= k < |ns| ==> ns[k] in b.members && WellFormed(ns[k].value, num))
             && CanonMembers(a, ms, i, num) + ("}" + x) == CanonMembers(b, ns, i, num) + ("}" + y)
    ensures var ms, ns := SortMembers(a.members), SortMembers(b.members);
            |ms| == |ns| && x == y && forall k :: i <= k < |ms| ==> ms[k].key == ns[k].key && Value(ms[k].value) == Value(ns[k].value)
    decreases a, 0, |a.members| - i
  {
    hide Canon, Value, WellFormed, SortMembers, Quote, NumbersOk, CanonMembers, Comma;
    var ms, ns := SortMembers(a.members), SortMembers(b.members);
    var u, v := CanonMembers(a, ms, i, num) + ("}" + x), CanonMembers(b, ns, i, num) + ("}" + y);
    if i == |ms| || i == |ns| {
      MembersFront(a, ms, i, x, num);
      MembersFront(b, ns, i, y, num);
    } else {
      var r, s := CanonMembers(a, ms, i + 1, num) + ("}" + x), CanonMembers(b, ns, i + 1, num) + ("}" + y);
      var j, k := ":" + (Canon(ms[i].value, num) + r), ":" + (Canon(ns[i].value, num) + s);
      MembersStep(a, ms, i, x, num);
      MembersStep(b, ns, i, y, num);
      Cut(Comma(i), Quote(ms[i].key) + j, Quote(ns[i].key) + k);
      StringSplit(ms[i].key, ns[i].key, j, k);
      Cut(":", Canon(ms[i].value, num) + r, Canon(ns[i].value, num) + s);
      MembersEnd(a, ms, i + 1, x, num);
      MembersEnd(b, ns, i + 1, y, num);
      TextTells(ms[i].value, ns[i].value, r, s, num);
      MembersTell(a, b, i + 1, x, y, num);
    }
  }

  /** The closing brace is where the members end. */
  lemma MembersFront(a: Doc, ms: seq<DMember>, i: nat, x: string, num: NumText)
    requires a.DObj? && multiset(ms) == multiset(a.members) && i <= |ms|
    ensures var u := CanonMembers(a, ms, i, num) + ("}" + x);
            u != "" && (i == |ms| <==> u[0] == '}') && (i == |ms| ==> u[1..] == x)
  {
    hide Canon, EscapeAll;
    if i == |ms| { assert "" + ("}" + x) == "}" + x; }
  }

  lemma MembersEnd(a: Doc, ms: seq<DMember>, i: nat, x: string, num: NumText)
    requires a.DObj? && multiset(ms) == multiset(a.members) && 0 < i <= |ms|
    ensures Ends(CanonMembers(a, ms, i, num) + ("}" + x))
  {
    hide Canon, Quote;
    if i == |ms| { assert "" + ("}" + x) == "}" + x; }
  }

  /** Same canonical text exactly when equal up to the order of members, at every depth. */
  lemma CanonDecides(a: Doc, b: Doc, num: NumText)
    requires WellFormed(a, num) && WellFormed(b, num) && NumbersOk(num)
    ensures Canon(a, num) == Canon(b, num) <==> Value(a) == Value(b)
  {
    hide Canon, Value, WellFormed, NumbersOk;
    if Value(a) == Value(b) { SameText(a, b, num); }
    if Canon(a, num) == Canon(b, num) { TextTells(a, b, "", "", num); }
  }

  // ---------------------------------------------------------------- enum, const, uniqueItems

  /** A value is among the texts of the listed ones exactly when it equals one of them. */
  lemma EnumDecides(v: Doc, allowed: seq<Doc>, num: NumText)
    requires WellFormed(v, num) && NumbersOk(num) && forall i :: 0 <= i < |allowed| ==> WellFormed(allowed[i], num)
    ensures Canon(v, num) in Texts(allowed, num) <==> exists i :: 0 <= i < |allowed| && Value(v) == Value(allowed[i])
  {
    hide Canon, Value, WellFormed, NumbersOk;
    forall i | 0 <= i < |allowed| ensures Canon(v, num) == Texts(allowed, num)[i] <==> Value(v) == Value(allowed[i]) {
      CanonDecides(v, allowed[i], num);
    }
  }

  function Texts(ds: seq<Doc>, num: NumText): seq<string> { seq(|ds|, i requires 0 <= i < |ds| => Canon(ds[i], num)) }

  predicate TextTwice(a: seq<Doc>, num: NumText) { exists i, j :: 0 <= i < j < |a| && Canon(a[i], num) == Canon(a[j], num) }

  predicate ValueTwice(a: seq<Doc>) { exists i, j :: 0 <= i < j < |a| && Value(a[i]) == Value(a[j]) }

  /** A set of the texts seen so far finds a repeated value exactly when there is one. */
  method HasDuplicate(a: seq<Doc>, num: NumText) returns (dup: bool)
    ensures dup <==> TextTwice(a, num)
  {
    hide Canon;
    var seen: set<string> := {};
    var i: nat := 0;
    while i < |a|
      invariant i <= |a| && seen == set k | 0 <= k < i :: Canon(a[k], num)
      invariant forall k, l :: 0 <= k < l < i ==> Canon(a[k], num) != Canon(a[l], num)
    {
      var s := Canon(a[i], num);
      if s in seen {
        var k :| 0 <= k < i && Canon(a[k], num) == s;
        return true;
      }
      seen := seen + {s};
      i := i + 1;
    }
    dup := false;
  }

  lemma DuplicateDecides(a: seq<Doc>, num: NumText)
    requires NumbersOk(num) && forall i :: 0 <= i < |a| ==> WellFormed(a[i], num)
    ensures TextTwice(a, num) <==> ValueTwice(a)
  {
    hide Canon, Value, WellFormed, NumbersOk;
    forall i, j | 0 <= i < j < |a| ensures Canon(a[i], num) == Canon(a[j], num) <==> Value(a[i]) == Value(a[j]) {
      CanonDecides(a[i], a[j], num);
    }
  }
}
