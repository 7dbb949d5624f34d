/** The rewriting as it runs: one schema object changed in place, keyword by keyword, then its subschemas. */
module Draft7Run {
  import opened Json
  import opened Schemas
  import opened Draft7

  function Restrict(t: map<string, Json>, ks: set<string>): map<string, Json> { map k | k in t && k in ks :: t[k] }

  class SchemaObject {
    var m: map<string, Json>
    const d: Dialect

    constructor (m: map<string, Json>, d: Dialect)
      ensures this.m == m && this.d == d
    {
      this.m, this.d := m, d;
    }

    method DropRefSiblings()
      requires RefOf(Obj(m)).Some?
      modifies this
      ensures m == DropSiblings(old(m))
    {
      var todo := m.Keys;
      while todo != {}
        invariant todo <= m.Keys
        invariant forall k :: k in m <==> k in old(m) && (k in KEPT || k in todo)
        invariant forall k :: k in m ==> m[k] == old(m)[k]
        decreases |todo|
      {
        var key :| key in todo;
        if key !in KEPT { m := m - {key}; }
        todo := todo - {key};
      }
      assert m == DropSiblings(old(m));
    }

    method MoveDependencies()
      requires "dependencies" in m && Truthy(m["dependencies"])
      modifies this
      ensures m == SplitDependencies(old(m))
    {
      var t := Table(m, "dependencies");
      ghost var start := m;
      var todo := t.Keys;
      assert Restrict(t, t.Keys - todo) == map[];
      NothingAdded(start);
      while todo != {}
        invariant todo <= t.Keys && m == Added(start, Restrict(t, t.Keys - todo))
        decreases |todo|
      {
        var key :| key in todo;
        var target := if t[key].Arr? then "dependentRequired" else "dependentSchemas";
        OneMore(start, t, todo, key);
        m := m[target := Obj((if target in m && m[target].Obj? then m[target].m else map[])[key := t[key]])];
        todo := todo - {key};
      }
      assert Restrict(t, t.Keys - todo) == t;
      m := m - {"dependencies"};
    }

    method Rewrite()
      modifies this
      ensures m == Rewritten(old(m), d)
    {
      if SixthOrEarlier(d) { m := m - CONDITIONALS; }
      if d.Draft04? { m := m - SIXTH; }
      assert m == DropUnknown(old(m), d);
      if d.Draft04? {
        if "id" in m && m["id"].Str? && "$id" !in m && RefOf(Obj(m)).None? { m := m["$id" := m["id"]]; }
        m := m - {"id"};
      }
      assert m == RenameId(DropUnknown(old(m), d), d);
      if RefOf(Obj(m)).Some? { DropRefSiblings(); }
      assert m == DropSiblings(RenameId(DropUnknown(old(m), d), d));
      FinishRewrite();
    }

    method FinishRewrite()
      modifies this
      ensures m == SwapItems(SplitDependencies(MoveDefinitions(NameAnchor(old(m)))))
    {
      hide Truthy, NameAnchor, SplitDependencies, SwapItems;
      NameFragment();
      if "definitions" in m && Truthy(m["definitions"]) && !("$defs" in m && Truthy(m["$defs"])) {
        m := m["$defs" := m["definitions"]];
        m := m - {"definitions"};
      }
      assert m == MoveDefinitions(NameAnchor(old(m)));
      if "dependencies" in m && Truthy(m["dependencies"]) { MoveDependencies(); }
      assert m == SplitDependencies(MoveDefinitions(NameAnchor(old(m)))) by { NoDependencies(MoveDefinitions(NameAnchor(old(m)))); }
      MoveTuple();
    }

    /** A fragment `$id` becomes an anchor. */
    method NameFragment()
      modifies this
      ensures m == NameAnchor(old(m))
    {
      if "$id" in m && m["$id"].Str? && IsAnchor(m["$id"].s) {
        var name := m["$id"].s[1..];
        if "$anchor" !in m { m := m["$anchor" := Str(name)]; }
        m := m - {"$id"};
      }
    }

    /** The array form of `items`, and `additionalItems` in its place. */
    method MoveTuple()
      modifies this
      ensures m == SwapItems(old(m))
    {
      if "items" in m && m["items"].Arr? {
        m := m["prefixItems" := m["items"]];
        if "additionalItems" in m {
          m := m["items" := m["additionalItems"]];
          m := m - {"additionalItems"};
        } else {
          m := m - {"items"};
        }
      }
    }

    /** Tables of schemas, lists of schemas, single schemas. */
    method VisitAll(ghost bound: Json)
      requires Bounded(m, bound)
      modifies this
      ensures m == Subs(old(m), d, bound)
      decreases bound, 0, 2
    {
      hide SubsAt, TABLES, LISTS, SINGLES, Bounded;
      ghost var r := m;
      var todo := m.Keys;
      while todo != {}
        invariant todo <= r.Keys && m.Keys == r.Keys
        invariant forall k :: k in r ==> m[k] == if k in todo then r[k] else SubsAt(r, k, d, bound)
        decreases |todo|
      {
        var k :| k in todo;
        var v := VisitKeyword(m[k], k, d, r, bound);
        m := m[k := v];
        todo := todo - {k};
      }
      assert m == Subs(r, d, bound);
    }
  }

  lemma NoDependencies(m: map<string, Json>)
    ensures !("dependencies" in m && Truthy(m["dependencies"])) ==> SplitDependencies(m) == m
  {
  }

  method VisitKeyword(s: Json, k: string, d: Dialect, ghost r: map<string, Json>, ghost bound: Json) returns (v: Json)
    requires k in r && r[k] == s && Bounded(r, bound)
    ensures v == SubsAt(r, k, d, bound)
    decreases bound, 0, 1
  {
    assert Below(r, k, bound);
    OneKind(k);
    v := s;
    if k in TABLES && s.Obj? {
      v := VisitTable(s.m, d, bound);
    } else if k in TABLES + LISTS {
      if s.Arr? { v := VisitList(s.a, d, bound); }
    } else if k in SINGLES {
      v := NormalizeSchema(s, d);
    }
  }

  lemma OneKind(k: string)
    ensures !(k in TABLES && k in LISTS) && !(k in TABLES && k in SINGLES) && !(k in LISTS && k in SINGLES)
  {
  }

  method VisitTable(t: map<string, Json>, d: Dialect, ghost bound: Json) returns (out: Json)
    requires forall n :: n in t ==> t[n] < bound
    ensures out == Obj(map n | n in t :: Normalize(t[n], d))
    decreases bound, 0, 0
  {
    hide Normalize;
    var todo, m := t.Keys, t;
    while todo != {}
      invariant todo <= t.Keys == m.Keys
      invariant forall n :: n in t ==> m[n] == if n in todo then t[n] else Normalize(t[n], d)
      decreases |todo|
    {
      var n :| n in todo;
      var v := NormalizeSchema(t[n], d);
      m := m[n := v];
      todo := todo - {n};
    }
    assert m == map n | n in t :: Normalize(t[n], d);
    out := Obj(m);
  }

  method VisitList(a: seq<Json>, d: Dialect, ghost bound: Json) returns (out: Json)
    requires forall i :: 0 <= i < |a| ==> a[i] < bound
    ensures out == Arr(seq(|a|, i requires 0 <= i < |a| => Normalize(a[i], d)))
    decreases bound, 0, 0
  {
    hide Normalize;
    var l := a;
    for i := 0 to |a|
      invariant |l| == |a|
      invariant forall j :: 0 <= j < |a| ==> l[j] == if j < i then Normalize(a[j], d) else a[j]
    {
      var v := NormalizeSchema(a[i], d);
      l := l[i := v];
    }
    assert l == seq(|a|, i requires 0 <= i < |a| => Normalize(a[i], d));
    out := Arr(l);
  }

  /** The object is rewritten, then what it holds. */
  method NormalizeSchema(s: Json, d: Dialect) returns (out: Json)
    ensures out == Normalize(s, d)
    decreases s, 1
  {
    if !s.Obj? { return s; }
    var o := new SchemaObject(s.m, d);
    o.Rewrite();
    NormalizeObject(s.m, d);
    o.VisitAll(s);
    out := Obj(o.m);
  }

  // ---------------------------------------------------------------- moving one dependency

  function Added(m: map<string, Json>, t: map<string, Json>): map<string, Json> {
    AddTo(AddTo(m, "dependentRequired", DependenciesOf(t, true)), "dependentSchemas", DependenciesOf(t, false))
  }

  lemma NothingAdded(m: map<string, Json>)
    ensures Added(m, map[]) == m
  {
    assert DependenciesOf(map[], true) == map[] && DependenciesOf(map[], false) == map[];
  }

  lemma AddOne(m: map<string, Json>, target: string, add: map<string, Json>, key: string, v: Json)
    requires key !in add
    ensures var before := AddTo(m, target, add);
            AddTo(m, target, add[key := v]) == before[target := Obj((if target in before && before[target].Obj? then before[target].m else map[])[key := v])]
  {
    var had := if target in m && m[target].Obj? then m[target].m else map[];
    assert had + add[key := v] == (had + add)[key := v];
    assert had + map[] == had;
  }

  lemma OneMore(m: map<string, Json>, t: map<string, Json>, todo: set<string>, key: string)
    requires key in todo && todo <= t.Keys
    ensures var done, more := Restrict(t, t.Keys - todo), Restrict(t, t.Keys - (todo - {key}));
            var target := if t[key].Arr? then "dependentRequired" else "dependentSchemas";
            var before := Added(m, done);
            Added(m, more) == before[target := Obj((if target in before && before[target].Obj? then before[target].m else map[])[key := t[key]])]
  {
    hide AddTo;
    var done, more := Restrict(t, t.Keys - todo), Restrict(t, t.Keys - (todo - {key}));
    assert more == done[key := t[key]];
    var a, b := DependenciesOf(done, true), DependenciesOf(done, false);
    if t[key].Arr? {
      assert DependenciesOf(more, true) == a[key := t[key]] && DependenciesOf(more, false) == b;
      AddOne(m, "dependentRequired", a, key, t[key]);
      Commute(m, a, b, key, t[key]);
    } else {
      assert DependenciesOf(more, false) == b[key := t[key]] && DependenciesOf(more, true) == a;
      AddOne(AddTo(m, "dependentRequired", a), "dependentSchemas", b, key, t[key]);
    }
  }

  /** The two tables do not disturb each other. */
  lemma Commute(m: map<string, Json>, a: map<string, Json>, b: map<string, Json>, key: string, v: Json)
    requires key !in a
    ensures var before := AddTo(AddTo(m, "dependentRequired", a), "dependentSchemas", b);
            AddTo(AddTo(m, "dependentRequired", a[key := v]), "dependentSchemas", b)
              == before["dependentRequired" := Obj((if "dependentRequired" in before && before["dependentRequired"].Obj? then before["dependentRequired"].m else map[])[key := v])]
  {
    AddOne(m, "dependentRequired", a, key, v);
  }
}
