/** Inlining local references before the copy is compiled (lib/clone-emit.js:25-109), and that it preserves meaning. */
module Inline {
  import opened Json
  import opened Schemas

  const BUDGET := 512

  /** A reference with nothing beside it that constrains. */
  predicate Bare(s: Json) {
    RefOf(s).Some? && s.m.Keys <= ANNOTATIONS
  }

  function Target(g: Given, root: Json, s: Json): Option<Json> {
    match RefOf(s)
    case None => None
    case Some(ref) => match Resolve(g, root, ref) case None => None case Some(t) => if t.Obj? then Some(t) else None
  }

  predicate Unwalked(k: string) { k in DATA_KEYS || k in DEFINITIONS }

  // ---------------------------------------------------------------- the inliner as a function

  /** Where a chain of references ends; None where it has to be left as it stands. */
  datatype Chased = Chased(end: Option<Json>, active: set<string>, left: int)

  function Positive(n: int): nat { if n > 0 then n else 0 }

  function Chase(g: Given, root: Json, cur: Json, active: set<string>, left: int): (r: Chased)
    ensures cur.Obj? && r.end.Some? ==> r.end.value.Obj?
    ensures r.left <= left && (RefOf(cur).Some? && r.end.Some? ==> r.left < left && 0 < left)
    ensures r.end.Some? ==> RefOf(r.end.value).None? && (RefOf(cur).None? ==> r == Chased(Some(cur), active, left))
    decreases Positive(left)
  {
    if RefOf(cur).None? then Chased(Some(cur), active, left)
    else if !Bare(cur) || RefOf(cur).value in active then Chased(None, active, left)
    else if left <= 0 || Target(g, root, cur).None? then Chased(None, active, left - 1)
    else Chase(g, root, Target(g, root, cur).value, active + {RefOf(cur).value}, left - 1)
  }

  datatype Out = Out(doc: Json, left: int)
  datatype Outs = Outs(docs: seq<Json>, left: int)
  datatype OutMap = OutMap(m: map<string, Json>, left: int)

  function Walk(g: Given, root: Json, node: Json, active: set<string>, left: int): (r: Out)
    ensures r.left <= left
    decreases Positive(left), node, 1
  {
    match node
    case Arr(a) => (var r := WalkList(g, root, a, active, left); Out(Arr(r.docs), r.left))
    case Obj(m) =>
      var c := Chase(g, root, node, active, left);
      if c.end.None? then Out(node, c.left)
      else
        var entered := RefOf(node).Some?;
        var cur := c.end.value.m;
        var r := WalkKeys(g, root, cur, g.keys(cur), entered, c.active, c.left);
        Out(Obj(if entered && "default" in m then r.m["default" := m["default"]] else r.m), r.left)
    case _ => Out(node, left)
  }

  function WalkList(g: Given, root: Json, a: seq<Json>, active: set<string>, left: int): (r: Outs)
    ensures r.left <= left && |r.docs| == |a|
    decreases Positive(left), a, 0
  {
    if a == [] then Outs([], left)
    else
      var first := Walk(g, root, a[0], active, left);
      var rest := WalkList(g, root, a[1..], active, first.left);
      Outs([first.doc] + rest.docs, rest.left)
  }

  function WalkKeys(g: Given, root: Json, cur: map<string, Json>, ks: seq<string>, entered: bool, active: set<string>, left: int): (r: OutMap)
    ensures r.left <= left
    decreases Positive(left), Obj(cur), 0, |ks|
  {
    if ks == [] then OutMap(map[], left)
    else
      var k := ks[|ks| - 1];
      var before := WalkKeys(g, root, cur, ks[..|ks| - 1], entered, active, left);
      if k !in cur || (entered && k == "default") then before
      else if Unwalked(k) then OutMap(before.m[k := cur[k]], before.left)
      else
        var w := Walk(g, root, cur[k], active, before.left);
        OutMap(before.m[k := w.doc], w.left)
  }

  /** A subschema other than the root that is a resource of its own. */
  predicate Embeds(node: Json, isRoot: bool) {
    match node
    case Arr(a) => exists i :: 0 <= i < |a| && Embeds(a[i], false)
    case Obj(m) =>
      || (!isRoot && "$id" in m && m["$id"].Str? && !(m["$id"].s != "" && m["$id"].s[0] == '#'))
      || exists k :: k in m && k !in DATA_KEYS && Embeds(m[k], false)
    case _ => false
  }

  function Inlined(g: Given, root: Json): Json {
    if Embeds(root, true) then root else Walk(g, root, root, {}, BUDGET).doc
  }

  // ---------------------------------------------------------------- what it may change

  /** Both have the same default, or neither has one. */
  predicate SameDefault(a: Json, b: Json) {
    && a.Obj? && b.Obj? && ("default" in a.m <==> "default" in b.m)
    && ("default" in a.m ==> a.m["default"] == b.m["default"])
  }

  /**
   `b` is `a` with references replaced by what they name, at most `n` in a row, each with the default that
   stood beside the first; `entered` is behind one, where the default of what is named plays no part.
   */
  ghost predicate Same(g: Given, root: Json, a: Json, b: Json, n: nat, entered: bool)
    decreases n, a
  {
    || a == b
    || (n > 0 && Bare(a) && Target(g, root, a).Some? && (!entered ==> SameDefault(a, b)) && Same(g, root, Target(g, root, a).value, b, n - 1, true))
    || (a.Arr? && b.Arr? && |a.a| == |b.a| && forall i :: 0 <= i < |a.a| ==> Same(g, root, a.a[i], b.a[i], n, false))
    || (a.Obj? && b.Obj? && RefOf(a).None? && SameKeys(a.m, b.m, entered)
        && forall k :: k in a.m && !(entered && k == "default") ==> SameAt(g, root, a.m, b.m, k, n))
  }

  ghost predicate SameKeys(a: map<string, Json>, b: map<string, Json>, entered: bool) {
    forall k :: !(entered && k == "default") ==> (k in a <==> k in b)
  }

  ghost predicate SameAt(g: Given, root: Json, a: map<string, Json>, b: map<string, Json>, k: string, n: nat)
    requires k in a
    decreases n, Obj(a), 0
  {
    k in b && if Unwalked(k) then a[k] == b[k] else Same(g, root, a[k], b[k], n, false)
  }

  lemma {:induction false} SameMore(g: Given, root: Json, a: Json, b: Json, n: nat, more: nat, entered: bool)
    requires n <= more && Same(g, root, a, b, n, entered)
    ensures Same(g, root, a, b, more, entered)
    decreases n, a
  {
    if a != b {
      if n > 0 && Bare(a) && Target(g, root, a).Some? && (!entered ==> SameDefault(a, b)) && Same(g, root, Target(g, root, a).value, b, n - 1, true) {
        SameMore(g, root, Target(g, root, a).value, b, n - 1, more - 1, true);
      } else if a.Arr? {
        forall i | 0 <= i < |a.a| ensures Same(g, root, a.a[i], b.a[i], more, false) {
          SameMore(g, root, a.a[i], b.a[i], n, more, false);
        }
      } else {
        forall k | k in a.m && !(entered && k == "default") ensures SameAt(g, root, a.m, b.m, k, more) {
          assert SameAt(g, root, a.m, b.m, k, n);
          if !Unwalked(k) { SameMore(g, root, a.m[k], b.m[k], n, more, false); }
        }
      }
    }
  }

  /** `Object.keys` names every key. */
  ghost predicate KeysOk(g: Given) {
    forall m, k :: k in m ==> k in g.keys(m)
  }

  lemma {:induction false} ChaseSame(g: Given, root: Json, cur: Json, active: set<string>, left: int, b: Json, n: nat)
    requires cur.Obj? && Chase(g, root, cur, active, left).end.Some? && n == Positive(Chase(g, root, cur, active, left).left)
    requires Same(g, root, Chase(g, root, cur, active, left).end.value, b, n, RefOf(cur).Some?)
    ensures Same(g, root, cur, b, Positive(left), RefOf(cur).Some?)
    decreases Positive(left)
  {
    if RefOf(cur).Some? {
      var t := Target(g, root, cur).value;
      var c := Chase(g, root, t, active + {RefOf(cur).value}, left - 1);
      if RefOf(t).Some? {
        ChaseSame(g, root, t, active + {RefOf(cur).value}, left - 1, b, n);
      } else {
        assert c.end == Some(t) && c.left == left - 1;
      }
    }
  }

  lemma {:induction false} WalkSame(g: Given, root: Json, node: Json, active: set<string>, left: int)
    requires KeysOk(g)
    ensures Same(g, root, node, Walk(g, root, node, active, left).doc, Positive(left), false)
    decreases Positive(left), node, 1
  {
    match node
    case Arr(a) => WalkListSame(g, root, a, active, left);
    case Obj(m) =>
      var c := Chase(g, root, node, active, left);
      if c.end.Some? {
        var entered := RefOf(node).Some?;
        var cur := c.end.value.m;
        WalkKeysSame(g, root, cur, g.keys(cur), entered, c.active, c.left);
        var b := Walk(g, root, node, active, left).doc;
        assert Same(g, root, Obj(cur), b, Positive(c.left), entered);
        ChaseSame(g, root, node, active, left, b, Positive(c.left));
        if entered {
          assert SameDefault(node, b);
          AnyEntered(g, root, node, b, Positive(left));
        }
      }
    case _ =>
  }

  /** Behind a bare reference only the default depends on whether one was entered before. */
  lemma AnyEntered(g: Given, root: Json, a: Json, b: Json, n: nat)
    requires RefOf(a).Some? && Same(g, root, a, b, n, true) && SameDefault(a, b)
    ensures Same(g, root, a, b, n, false)
  {
  }

  /** Replaced or not, a schema keeps its own default: the definition's is never taken over, and none is lost. */
  lemma DefaultKept(g: Given, root: Json, a: Json, b: Json, n: nat)
    requires a.Obj? && Same(g, root, a, b, n, false)
    ensures SameDefault(a, b)
  {
    if a.Obj? && b.Obj? && RefOf(a).None? && "default" in a.m && SameKeys(a.m, b.m, false) && a != b { assert SameAt(g, root, a.m, b.m, "default", n); }
  }

  lemma {:induction false} WalkListSame(g: Given, root: Json, a: seq<Json>, active: set<string>, left: int)
    requires KeysOk(g)
    ensures forall i :: 0 <= i < |a| ==> Same(g, root, a[i], WalkList(g, root, a, active, left).docs[i], Positive(left), false)
    decreases Positive(left), a, 0
  {
    if a != [] {
      var first := Walk(g, root, a[0], active, left);
      WalkSame(g, root, a[0], active, left);
      WalkListSame(g, root, a[1..], active, first.left);
      var rest := WalkList(g, root, a[1..], active, first.left);
      forall i | 0 <= i < |a| ensures Same(g, root, a[i], ([first.doc] + rest.docs)[i], Positive(left), false) {
        if i > 0 {
          assert a[1..][i - 1] == a[i];
          SameMore(g, root, a[i], rest.docs[i - 1], Positive(first.left), Positive(left), false);
        }
      }
    }
  }

  lemma {:induction false} WalkKeysSame(g: Given, root: Json, cur: map<string, Json>, ks: seq<string>, entered: bool, active: set<string>, left: int)
    requires KeysOk(g)
    ensures var m := WalkKeys(g, root, cur, ks, entered, active, left).m;
            && (forall k :: k in m <==> k in ks && k in cur && !(entered && k == "default"))
            && (forall k :: k in m ==> SameAt(g, root, cur, m, k, Positive(left)))
    decreases Positive(left), Obj(cur), 0, |ks|
  {
    hide Walk, Same;
    if ks != [] {
      var k, init := ks[|ks| - 1], ks[..|ks| - 1];
      assert ks == init + [k];
      WalkKeysSame(g, root, cur, init, entered, active, left);
      var before := WalkKeys(g, root, cur, init, entered, active, left);
      if k in cur && !(entered && k == "default") && !Unwalked(k) {
        WalkSame(g, root, cur[k], active, before.left);
        var w := Walk(g, root, cur[k], active, before.left);
        SameMore(g, root, cur[k], w.doc, Positive(before.left), Positive(left), false);
      }
    }
  }

  // ---------------------------------------------------------------- which schemas it is written for

  /** No object in it is a reference. */
  predicate RefFree(s: Json) {
    match s
    case Arr(a) => forall i :: 0 <= i < |a| ==> RefFree(a[i])
    case Obj(m) => RefOf(s).None? && forall k :: k in m ==> RefFree(m[k])
    case _ => true
  }

  /** Every keyword has a value of its kind; `refs` holds every reference in it. */
  predicate Proper(s: Json, refs: set<string>)
    decreases s, 1
  {
    match s
    case Bool(_) => true
    case Obj(m) => (RefOf(s).Some? ==> RefOf(s).value in refs) && forall k :: k in m ==> ProperAt(m, k, refs)
    case _ => false
  }

  predicate ProperAt(m: map<string, Json>, k: string, refs: set<string>)
    requires k in m
    decreases Obj(m), 0
  {
    if k in ONE_SCHEMA then Proper(m[k], refs)
    else if k in SCHEMA_LISTS then m[k].Arr? && forall i :: 0 <= i < |m[k].a| ==> Proper(m[k].a[i], refs)
    else if k in SCHEMA_MAPS then m[k].Obj? && RefOf(m[k]).None? && forall n :: n in m[k].m ==> Proper(m[k].m[n], refs)
    else Unwalked(k) || RefFree(m[k])
  }

  /** Every reference in the schema, or in a schema a reference names, names a schema. */
  predicate Closed(g: Given, root: Json, refs: set<string>) {
    forall r :: r in refs && Resolve(g, root, r).Some? && Resolve(g, root, r).value.Obj? ==> Proper(Resolve(g, root, r).value, refs)
  }

  lemma {:induction false} SameKind(g: Given, root: Json, a: Json, b: Json, n: nat, entered: bool)
    requires Same(g, root, a, b, n, entered)
    ensures (a.Obj? <==> b.Obj?) && (a.Arr? <==> b.Arr?) && (!a.Obj? && !a.Arr? ==> a == b)
    decreases n
  {
    if a != b && n > 0 && Bare(a) && Target(g, root, a).Some? && Same(g, root, Target(g, root, a).value, b, n - 1, true) {
      SameKind(g, root, Target(g, root, a).value, b, n - 1, true);
    }
  }

  lemma {:induction false} SameRefFree(g: Given, root: Json, a: Json, b: Json, n: nat)
    requires RefFree(a) && Same(g, root, a, b, n, false)
    ensures a == b
    decreases a
  {
    SameKind(g, root, a, b, n, false);
    if a.Arr? {
      SameList(g, root, a, b, n);
      forall i | 0 <= i < |a.a| ensures a.a[i] == b.a[i] { SameRefFree(g, root, a.a[i], b.a[i], n); }
      assert a.a == b.a;
    } else if a.Obj? {
      SameMap(g, root, a, b, n);
      forall k | k in a.m ensures a.m[k] == b.m[k] { SameRefFree(g, root, a.m[k], b.m[k], n); }
      assert a.m == b.m;
    }
  }

  // ---------------------------------------------------------------- it preserves meaning

  /** Both are objects, neither is a reference, and every keyword but a default is the same or the same inlined. */
  ghost predicate SameObjects(g: Given, root: Json, a: map<string, Json>, b: map<string, Json>, n: nat, entered: bool) {
    SameKeys(a, b, entered) && forall k :: k in a && !(entered && k == "default") ==> SameAt(g, root, a, b, k, n)
  }

  ghost predicate SameLists(g: Given, root: Json, a: Json, b: Json, n: nat, refs: set<string>) {
    && a.Arr? && b.Arr? && |a.a| == |b.a|
    && forall i :: 0 <= i < |a.a| ==> Proper(a.a[i], refs) && Same(g, root, a.a[i], b.a[i], n, false)
  }

  ghost predicate SameMaps(g: Given, root: Json, a: Json, b: Json, n: nat, refs: set<string>) {
    && a.Obj? && b.Obj? && a.m.Keys == b.m.Keys
    && forall p :: p in a.m ==> Proper(a.m[p], refs) && Same(g, root, a.m[p], b.m[p], n, false)
  }

  lemma SameValue(g: Given, root: Json, a: map<string, Json>, b: map<string, Json>, n: nat, entered: bool, k: string, refs: set<string>)
    requires SameObjects(g, root, a, b, n, entered) && Proper(Obj(a), refs) && k != "default"
    ensures k in a <==> k in b
    ensures k in a && k !in ONE_SCHEMA && k !in SCHEMA_LISTS && k !in SCHEMA_MAPS ==> a[k] == b[k]
    ensures k in a && k in ONE_SCHEMA ==> Proper(a[k], refs) && Same(g, root, a[k], b[k], n, false)
    ensures k in a && k in SCHEMA_LISTS ==> SameLists(g, root, a[k], b[k], n, refs)
    ensures k in a && k in SCHEMA_MAPS ==> SameMaps(g, root, a[k], b[k], n, refs)
  {
    if k in a {
      assert SameAt(g, root, a, b, k, n) && ProperAt(a, k, refs);
      if !Unwalked(k) {
        SameKind(g, root, a[k], b[k], n, false);
        if k !in ONE_SCHEMA && k !in SCHEMA_LISTS && k !in SCHEMA_MAPS { SameRefFree(g, root, a[k], b[k], n); }
        if k in SCHEMA_LISTS { SameList(g, root, a[k], b[k], n); }
        if k in SCHEMA_MAPS { SameMap(g, root, a[k], b[k], n); }
      }
    }
  }

  lemma SameList(g: Given, root: Json, a: Json, b: Json, n: nat)
    requires a.Arr? && b.Arr? && Same(g, root, a, b, n, false)
    ensures |a.a| == |b.a| && forall i :: 0 <= i < |a.a| ==> Same(g, root, a.a[i], b.a[i], n, false)
  {
  }

  lemma SameMap(g: Given, root: Json, a: Json, b: Json, n: nat)
    requires a.Obj? && b.Obj? && RefOf(a).None? && Same(g, root, a, b, n, false)
    ensures a.m.Keys == b.m.Keys && forall p :: p in a.m ==> Same(g, root, a.m[p], b.m[p], n, false)
  {
    if a != b {
      forall p | p in a.m ensures Same(g, root, a.m[p], b.m[p], n, false) {
        assert SameAt(g, root, a.m, b.m, p, n);
      }
    }
  }

  ghost predicate PartSame(g: Given, root: Json, pa: Part, pb: Part, n: nat, refs: set<string>) {
    && (pa.Part? <==> pb.Part?)
    && (pa.Part? ==> pa.v == pb.v && Proper(pa.s, refs) && Same(g, root, pa.s, pb.s, n, false))
  }

  lemma PartsSame(g: Given, root: Json, a: map<string, Json>, b: map<string, Json>, n: nat, entered: bool, refs: set<string>, v: Json, w: Where)
    requires g.dialect.Draft2020?
    requires SameObjects(g, root, a, b, n, entered) && Proper(Obj(a), refs)
    ensures PartSame(g, root, PartAt(g, a, v, w), PartAt(g, b, v, w), n, refs)
  {
    hide SameObjects, Proper, Same, PartAt, PartSame;
    if w.AtProperty? || w.AtPattern? || w.AtDependent? {
      PartsSameMap(g, root, a, b, n, entered, refs, v, w);
    } else if w.AtPrefix? || w.AtAll? || w.AtAny? || w.AtOne? {
      PartsSameList(g, root, a, b, n, entered, refs, v, w);
    } else {
      PartsSameOne(g, root, a, b, n, entered, refs, v, w);
    }
  }

  lemma PartsSameMap(g: Given, root: Json, a: map<string, Json>, b: map<string, Json>, n: nat, entered: bool, refs: set<string>, v: Json, w: Where)
    requires g.dialect.Draft2020?
    requires SameObjects(g, root, a, b, n, entered) && Proper(Obj(a), refs) && (w.AtProperty? || w.AtPattern? || w.AtDependent?)
    ensures PartSame(g, root, PartAt(g, a, v, w), PartAt(g, b, v, w), n, refs)
  {
    hide SameObjects, Proper, Same;
    SameValue(g, root, a, b, n, entered, KeywordOf(w), refs);
    assert KeywordOf(w) in SCHEMA_MAPS;
  }

  lemma PartsSameList(g: Given, root: Json, a: map<string, Json>, b: map<string, Json>, n: nat, entered: bool, refs: set<string>, v: Json, w: Where)
    requires g.dialect.Draft2020?
    requires SameObjects(g, root, a, b, n, entered) && Proper(Obj(a), refs) && (w.AtPrefix? || w.AtAll? || w.AtAny? || w.AtOne?)
    ensures PartSame(g, root, PartAt(g, a, v, w), PartAt(g, b, v, w), n, refs)
  {
    hide SameObjects, Proper, Same;
    SameValue(g, root, a, b, n, entered, KeywordOf(w), refs);
    assert KeywordOf(w) in SCHEMA_LISTS;
  }

  lemma PrefixSame(g: Given, root: Json, a: map<string, Json>, b: map<string, Json>, n: nat, entered: bool, refs: set<string>)
    requires g.dialect.Draft2020?
    requires SameObjects(g, root, a, b, n, entered) && Proper(Obj(a), refs)
    ensures |Positions(g, a)| == |Positions(g, b)|
  {
    hide SameObjects, Proper, Same;
    SameValue(g, root, a, b, n, entered, "prefixItems", refs);
  }

  lemma PartsSameOne(g: Given, root: Json, a: map<string, Json>, b: map<string, Json>, n: nat, entered: bool, refs: set<string>, v: Json, w: Where)
    requires g.dialect.Draft2020?
    requires SameObjects(g, root, a, b, n, entered) && Proper(Obj(a), refs)
    requires w.AtMore? || w.AtName? || w.AtItem? || w.AtContains? || w.AtNot? || w.AtIf? || w.AtThen? || w.AtElse?
    ensures PartSame(g, root, PartAt(g, a, v, w), PartAt(g, b, v, w), n, refs)
  {
    hide SameObjects, Proper, Same, Named, Positions, SameMaps, SameLists;
    var k := KeywordOf(w);
    assert k in ONE_SCHEMA;
    SameValue(g, root, a, b, n, entered, k, refs);
    PrefixSame(g, root, a, b, n, entered, refs);
    if w.AtMore? { NamedSame(g, root, a, b, n, entered, refs, w.k); }
    SameValue(g, root, a, b, n, entered, "if", refs);
  }

  lemma NamedSame(g: Given, root: Json, a: map<string, Json>, b: map<string, Json>, n: nat, entered: bool, refs: set<string>, name: string)
    requires g.dialect.Draft2020?
    requires SameObjects(g, root, a, b, n, entered) && Proper(Obj(a), refs)
    ensures Named(g, a, name) == Named(g, b, name)
  {
    hide SameObjects, Proper, Same;
    SameValue(g, root, a, b, n, entered, "properties", refs);
    SameValue(g, root, a, b, n, entered, "patternProperties", refs);
    assert Table(a, "properties").Keys == Table(b, "properties").Keys;
    assert Table(a, "patternProperties").Keys == Table(b, "patternProperties").Keys;
  }

  /** A keyword that holds no schema is the same on both sides. */
  ghost predicate Agrees(a: map<string, Json>, b: map<string, Json>, k: string) {
    (k in a <==> k in b) && (k in a ==> a[k] == b[k])
  }

  lemma PlainAgrees(g: Given, root: Json, a: map<string, Json>, b: map<string, Json>, n: nat, entered: bool, refs: set<string>, k: string)
    requires SameObjects(g, root, a, b, n, entered) && Proper(Obj(a), refs)
    requires k != "default" && k !in ONE_SCHEMA && k !in SCHEMA_LISTS && k !in SCHEMA_MAPS
    ensures Agrees(a, b, k)
  {
    hide SameObjects, Proper, Same;
    SameValue(g, root, a, b, n, entered, k, refs);
  }

  lemma UnknownPlain(k: string)
    requires !Known(k)
    ensures k != "default" && k !in ONE_SCHEMA && k !in SCHEMA_LISTS && k !in SCHEMA_MAPS
  {
  }

  /** The keywords that decide by themselves. */
  const LOCAL := {"type", "required", "enum", "const", "dependentRequired", "nullable"} + BOUNDS

  lemma PlainKeywords()
    ensures forall k :: k in LOCAL + {"minContains", "maxContains", "$ref"} ==>
      k != "default" && k !in ONE_SCHEMA && k !in SCHEMA_LISTS && k !in SCHEMA_MAPS
  {
  }

  lemma LocalSame(g: Given, root: Json, a: map<string, Json>, b: map<string, Json>, n: nat, entered: bool, refs: set<string>, v: Json)
    requires g.dialect.Draft2020?
    requires SameObjects(g, root, a, b, n, entered) && Proper(Obj(a), refs)
    ensures LocalOk(g, a, v) == LocalOk(g, b, v) && RefOf(Obj(a)) == RefOf(Obj(b))
    ensures MinContains(g, a) == MinContains(g, b) && MaxContains(g, a) == MaxContains(g, b)
  {
    hide SameObjects, Proper, Same, ONE_SCHEMA, SCHEMA_LISTS, SCHEMA_MAPS, LocalOk;
    PlainKeywords();
    forall k | k in LOCAL + {"minContains", "maxContains", "$ref"} ensures Agrees(a, b, k) {
      PlainAgrees(g, root, a, b, n, entered, refs, k);
    }
    forall k | !Known(k) ensures Agrees(a, b, k) {
      UnknownPlain(k);
      PlainAgrees(g, root, a, b, n, entered, refs, k);
    }
    assert Agrees(a, b, "$ref") && Agrees(a, b, "minContains") && Agrees(a, b, "maxContains");
    LocalAgrees(g, a, b, v);
  }

  lemma LocalAgrees(g: Given, a: map<string, Json>, b: map<string, Json>, v: Json)
    requires g.dialect.Draft2020?
    requires forall k :: k in LOCAL ==> Agrees(a, b, k)
    requires forall k :: !Known(k) ==> Agrees(a, b, k)
    ensures LocalOk(g, a, v) == LocalOk(g, b, v)
  {
    hide Known, TypeOk, NamesPresent, DependentsPresent, BoundsOk, Rest;
    forall k | Agrees(a, b, k) ensures ReadsAlike(g, a, g, b, k) {}
    RestSame(g, a, g, b);
    if v.Num? { BoundsSame(g, a, g, b, v.n); }
    assert Agrees(a, b, "nullable") && Agrees(a, b, "type") && Agrees(a, b, "required") && Agrees(a, b, "enum") && Agrees(a, b, "const") && Agrees(a, b, "dependentRequired");
  }

  lemma PresentSame(g: Given, root: Json, a: map<string, Json>, b: map<string, Json>, n: nat, entered: bool, refs: set<string>, k: string)
    requires SameObjects(g, root, a, b, n, entered) && k != "default"
    ensures k in a <==> k in b
  {
    hide Same;
  }

  lemma ListSame(g: Given, root: Json, a: map<string, Json>, b: map<string, Json>, n: nat, entered: bool, refs: set<string>, k: string)
    requires SameObjects(g, root, a, b, n, entered) && Proper(Obj(a), refs) && k in {"anyOf", "oneOf"}
    ensures List(a, k).Some? <==> List(b, k).Some?
  {
    hide SameObjects, Proper, Same;
    SameValue(g, root, a, b, n, entered, k, refs);
  }

  lemma AlikeSame(g: Given, root: Json, a: map<string, Json>, b: map<string, Json>, n: nat, entered: bool, refs: set<string>, v: Json)
    requires g.dialect.Draft2020?
    requires SameObjects(g, root, a, b, n, entered) && Proper(Obj(a), refs)
    ensures Alike(Reading(g, root, a), Reading(g, root, b), v) && Alike(Reading(g, root, b), Reading(g, root, a), v)
  {
    hide SameObjects, Proper, Same, LocalOk, PartAt, List, MinContains, MaxContains, PartSame;
    LocalSame(g, root, a, b, n, entered, refs, v);
    ListSame(g, root, a, b, n, entered, refs, "anyOf");
    ListSame(g, root, a, b, n, entered, refs, "oneOf");
    forall k | k in {"contains", "not", "if", "then", "else", "anyOf", "oneOf"} ensures k in a <==> k in b {
      PresentSame(g, root, a, b, n, entered, refs, k);
    }
    forall w ensures PartAt(g, a, v, w).Part? <==> PartAt(g, b, v, w).Part? {
      PartsSame(g, root, a, b, n, entered, refs, v, w);
      PartSamePresent(g, root, PartAt(g, a, v, w), PartAt(g, b, v, w), n, refs);
    }
  }

  lemma PartSamePresent(g: Given, root: Json, pa: Part, pb: Part, n: nat, refs: set<string>)
    requires PartSame(g, root, pa, pb, n, refs)
    ensures pa.Part? <==> pb.Part?
  {
  }

  lemma NotAnnotation(m: map<string, Json>, k: string)
    requires m.Keys <= ANNOTATIONS && k !in ANNOTATIONS
    ensures k !in m
  {
  }

  lemma BareNoPart(g: Given, m: map<string, Json>, v: Json, w: Where)
    requires g.dialect.Draft2020?
    requires m.Keys <= ANNOTATIONS
    ensures PartAt(g, m, v, w).NoPart?
  {
    assert KeywordOf(w) !in ANNOTATIONS;
    NotAnnotation(m, KeywordOf(w));
  }

  lemma BareLocal(g: Given, m: map<string, Json>, v: Json)
    requires g.dialect.Draft2020?
    requires m.Keys <= ANNOTATIONS
    ensures LocalOk(g, m, v)
  {
    hide HasType;
    NotAnnotation(m, "type");
    NotAnnotation(m, "required");
    NotAnnotation(m, "enum");
    NotAnnotation(m, "const");
    NotAnnotation(m, "dependentRequired");
  }

  /** A bare reference means what it names. */
  lemma BareMeans(g: Given, root: Json, s: Json, v: Json, f: nat, want: bool)
    requires g.dialect.Draft2020?
    requires Bare(s) && Target(g, root, s).Some?
    ensures Decided(g, root, s, v, f, want) <==> f > 0 && Decided(g, root, Target(g, root, s).value, v, f - 1, want)
  {
    hide LocalOk, PartAt, Accepts, Refuses;
    var m := s.m;
    BareLocal(g, m, v);
    forall w ensures PartAt(g, m, v, w).NoPart? { BareNoPart(g, m, v, w); }
    BareParts(g, root, m, v, f);
    assert Decided(g, root, s, v, f, want) == RefOn(g, root, m, v, f, want);
  }

  lemma BareParts(g: Given, root: Json, m: map<string, Json>, v: Json, f: nat)
    requires g.dialect.Draft2020?
    requires LocalOk(g, m, v) && (forall w :: PartAt(g, m, v, w).NoPart?) && m.Keys <= ANNOTATIONS
    ensures Accepts(g, root, m, v, f) <==> RefOn(g, root, m, v, f, true)
    ensures Refuses(g, root, m, v, f) <==> RefOn(g, root, m, v, f, false)
  {
    hide LocalOk, RefOn, PartAt, Decided, On, Accepts, Refuses;
    assert "anyOf" !in m && "oneOf" !in m && "contains" !in m && "not" !in m && "if" !in m by { NoApplicators(m); }
    forall w, q ensures !On(g, root, m, v, w, f, q) { NothingOn(g, root, m, v, w, f, q); }
    OnlyRef(g, root, m, v, f);
  }

  lemma NoApplicators(m: map<string, Json>)
    requires m.Keys <= ANNOTATIONS
    ensures "anyOf" !in m && "oneOf" !in m && "contains" !in m && "not" !in m && "if" !in m
  {
    NotAnnotation(m, "contains");
    NotAnnotation(m, "anyOf");
    NotAnnotation(m, "oneOf");
    NotAnnotation(m, "not");
    NotAnnotation(m, "if");
  }

  lemma OnlyRef(g: Given, root: Json, m: map<string, Json>, v: Json, f: nat)
    requires g.dialect.Draft2020?
    requires LocalOk(g, m, v) && (forall w :: PartAt(g, m, v, w).NoPart?) && (forall w, q :: !On(g, root, m, v, w, f, q))
    requires "anyOf" !in m && "oneOf" !in m && "contains" !in m && "not" !in m && "if" !in m
    ensures Accepts(g, root, m, v, f) <==> RefOn(g, root, m, v, f, true)
    ensures Refuses(g, root, m, v, f) <==> RefOn(g, root, m, v, f, false)
  {
    hide LocalOk, RefOn, PartAt, Decided, On, OneOnly, IfOn;
  }

  /** One object level where no reference was followed. */
  ghost predicate Inside(g: Given, root: Json, a: Json, b: Json, n: nat, entered: bool) {
    a.Obj? && b.Obj? && RefOf(a).None? && SameObjects(g, root, a.m, b.m, n, entered)
  }

  ghost predicate Through(g: Given, root: Json, a: Json, b: Json, n: nat) {
    n > 0 && Bare(a) && Target(g, root, a).Some? && Same(g, root, Target(g, root, a).value, b, n - 1, true)
  }

  lemma SameCases(g: Given, root: Json, a: Json, b: Json, n: nat, entered: bool, refs: set<string>)
    requires Same(g, root, a, b, n, entered) && Proper(a, refs)
    ensures a == b || Through(g, root, a, b, n) || Inside(g, root, a, b, n, entered)
  {
  }

  lemma ThroughProper(g: Given, root: Json, a: Json, b: Json, n: nat, refs: set<string>)
    requires Closed(g, root, refs) && Proper(a, refs) && Through(g, root, a, b, n)
    ensures Proper(Target(g, root, a).value, refs)
  {
  }

  lemma InsideCarries(g: Given, root: Json, a: Json, b: Json, n: nat, entered: bool, refs: set<string>, v: Json, f: nat, more: nat, want: bool)
    requires g.dialect.Draft2020?
    requires Proper(a, refs) && Inside(g, root, a, b, n, entered)
    ensures var ra, rb := Reading(g, root, a.m), Reading(g, root, b.m);
            && (Carries(ra, rb, v, f, more) && Decided(g, root, a, v, f, want) ==> Decided(g, root, b, v, more, want))
            && (Carries(rb, ra, v, f, more) && Decided(g, root, b, v, f, want) ==> Decided(g, root, a, v, more, want))
  {
    hide PartAt, Accepts, Refuses, SameObjects, Proper, Alike, Carries;
    AlikeSame(g, root, a.m, b.m, n, entered, refs, v);
    LocalSame(g, root, a.m, b.m, n, entered, refs, v);
    var ra, rb := Reading(g, root, a.m), Reading(g, root, b.m);
    if Carries(ra, rb, v, f, more) && Decided(g, root, a, v, f, want) { Transfer(ra, rb, v, f, more, want); }
    if Carries(rb, ra, v, f, more) && Decided(g, root, b, v, f, want) { Transfer(rb, ra, v, f, more, want); }
  }

  /** What the original decides, its inlined form decides without more fuel. */
  lemma {:induction false} SameForward(g: Given, root: Json, a: Json, b: Json, n: nat, entered: bool, refs: set<string>, v: Json, f: nat, want: bool)
    requires g.dialect.Draft2020?
    requires Closed(g, root, refs) && Proper(a, refs) && Same(g, root, a, b, n, entered) && Decided(g, root, a, v, f, want)
    ensures Decided(g, root, b, v, f, want)
    decreases n, a
  {
    hide PartAt, Decided, Same, SameObjects, Proper, Closed;
    SameCases(g, root, a, b, n, entered, refs);
    if a != b {
      if Through(g, root, a, b, n) {
        ThroughProper(g, root, a, b, n, refs);
        BareMeans(g, root, a, v, f, want);
        SameForward(g, root, Target(g, root, a).value, b, n - 1, true, refs, v, f - 1, want);
        DecidedMore(g, root, b, v, f - 1, f, want);
      } else {
        forall w, q | On(g, root, a.m, v, w, f, q) ensures On(g, root, b.m, v, w, f, q) {
          PartsSame(g, root, a.m, b.m, n, entered, refs, v, w);
          SameForward(g, root, PartAt(g, a.m, v, w).s, PartAt(g, b.m, v, w).s, n, false, refs, PartAt(g, a.m, v, w).v, f, q);
        }
        assert Carries(Reading(g, root, a.m), Reading(g, root, b.m), v, f, f);
        InsideCarries(g, root, a, b, n, entered, refs, v, f, f, want);
      }
    }
  }

  /** What the inlined form decides, the original decides with fuel for the references replaced. */
  lemma {:induction false} SameBackward(g: Given, root: Json, a: Json, b: Json, n: nat, entered: bool, refs: set<string>, v: Json, f: nat, want: bool)
    requires g.dialect.Draft2020?
    requires Closed(g, root, refs) && Proper(a, refs) && Same(g, root, a, b, n, entered) && Decided(g, root, b, v, f, want)
    ensures Decided(g, root, a, v, f + n, want)
    decreases n, a
  {
    hide PartAt, Decided, Same, SameObjects, Proper, Closed;
    SameCases(g, root, a, b, n, entered, refs);
    if a == b {
      DecidedMore(g, root, b, v, f, f + n, want);
    } else if Through(g, root, a, b, n) {
      ThroughProper(g, root, a, b, n, refs);
      SameBackward(g, root, Target(g, root, a).value, b, n - 1, true, refs, v, f, want);
      BareMeans(g, root, a, v, f + n, want);
    } else {
      forall w, q | On(g, root, b.m, v, w, f, q) ensures On(g, root, a.m, v, w, f + n, q) {
        PartsSame(g, root, a.m, b.m, n, entered, refs, v, w);
        SameBackward(g, root, PartAt(g, a.m, v, w).s, PartAt(g, b.m, v, w).s, n, false, refs, PartAt(g, a.m, v, w).v, f, q);
      }
      assert Carries(Reading(g, root, b.m), Reading(g, root, a.m), v, f, f + n);
      InsideCarries(g, root, a, b, n, entered, refs, v, f, f + n, want);
    }
  }

  /** Accepts, however many references that takes. */
  ghost predicate Meets(g: Given, root: Json, s: Json, v: Json, want: bool) {
    exists f: nat :: Decided(g, root, s, v, f, want)
  }

  /** The inlined schema accepts and refuses exactly what the original does against its root. */
  lemma InlineExact(g: Given, root: Json, refs: set<string>, v: Json, want: bool)
    requires g.dialect.Draft2020?
    requires KeysOk(g) && Closed(g, root, refs) && Proper(root, refs)
    ensures Meets(g, root, root, v, want) <==> Meets(g, root, Inlined(g, root), v, want)
  {
    hide Same, Walk, Decided, Closed, Proper;
    if !Embeds(root, true) {
      var s := Inlined(g, root);
      WalkSame(g, root, root, {}, BUDGET);
      if f: nat :| Decided(g, root, root, v, f, want) {
        SameForward(g, root, root, s, BUDGET, false, refs, v, f, want);
      }
      if f: nat :| Decided(g, root, s, v, f, want) {
        SameBackward(g, root, root, s, BUDGET, false, refs, v, f, want);
      }
    }
  }

  // ---------------------------------------------------------------- it leaves no reference it could replace

  /** Every reference below is bare, names an object, and ranks below `r`. */
  ghost predicate Rising(g: Given, root: Json, s: Json, refs: set<string>, rank: string -> nat, r: nat) {
    match s
    case Arr(a) => forall i :: 0 <= i < |a| ==> Rising(g, root, a[i], refs, rank, r)
    case Obj(m) =>
      if RefOf(s).Some? then Bare(s) && Target(g, root, s).Some? && RefOf(s).value in refs && rank(RefOf(s).value) < r
      else forall k :: k in m && !Unwalked(k) ==> Rising(g, root, m[k], refs, rank, r)
    case _ => true
  }

  /** No cycle: what a reference names refers only to lower ranks. */
  ghost predicate Acyclic(g: Given, root: Json, refs: set<string>, rank: string -> nat) {
    forall x :: x in refs && Resolve(g, root, x).Some? ==> Rising(g, root, Resolve(g, root, x).value, refs, rank, rank(x))
  }

  /** No reference wherever the inliner looks. */
  ghost predicate Clean(s: Json) {
    match s
    case Arr(a) => forall i :: 0 <= i < |a| ==> Clean(a[i])
    case Obj(m) => RefOf(s).None? && forall k :: k in m && !Unwalked(k) ==> Clean(m[k])
    case _ => true
  }

  ghost predicate Above(active: set<string>, rank: string -> nat, r: nat) { forall x :: x in active ==> r <= rank(x) }

  lemma {:induction false} ChaseEnds(g: Given, root: Json, cur: Json, active: set<string>, left: int, refs: set<string>, rank: string -> nat, r: nat) returns (low: nat)
    requires Acyclic(g, root, refs, rank) && Rising(g, root, cur, refs, rank, r) && Above(active, rank, r)
    requires Chase(g, root, cur, active, left).left >= 0
    ensures var c := Chase(g, root, cur, active, left);
            c.end.Some? && Rising(g, root, c.end.value, refs, rank, low) && Above(c.active, rank, low)
    decreases Positive(left)
  {
    low := r;
    if RefOf(cur).Some? {
      var x := RefOf(cur).value;
      assert x !in active && Resolve(g, root, x).Some?;
      low := ChaseEnds(g, root, Target(g, root, cur).value, active + {x}, left - 1, refs, rank, rank(x));
    }
  }

  lemma {:induction false} WalkClean(g: Given, root: Json, node: Json, active: set<string>, left: int, refs: set<string>, rank: string -> nat, r: nat)
    requires KeysOk(g) && Acyclic(g, root, refs, rank) && Rising(g, root, node, refs, rank, r) && Above(active, rank, r)
    requires Walk(g, root, node, active, left).left >= 0
    ensures Clean(Walk(g, root, node, active, left).doc)
    decreases Positive(left), node, 1
  {
    hide Acyclic, Above;
    match node
    case Arr(a) => WalkListClean(g, root, a, active, left, refs, rank, r);
    case Obj(m) =>
      var c := Chase(g, root, node, active, left);
      ChaseLeft(g, root, node, active, left);
      var low := ChaseEnds(g, root, node, active, left, refs, rank, r);
      var entered := RefOf(node).Some?;
      var cur := c.end.value.m;
      var ks := g.keys(cur);
      WalkKeysClean(g, root, cur, ks, entered, c.active, c.left, refs, rank, low);
      WalkKeysSame(g, root, cur, ks, entered, c.active, c.left);
      var out := WalkKeys(g, root, cur, ks, entered, c.active, c.left).m;
      if "$ref" in out {
        assert SameAt(g, root, cur, out, "$ref", Positive(c.left));
        SameKind(g, root, cur["$ref"], out["$ref"], Positive(c.left), false);
      }
    case _ =>
  }

  lemma ChaseLeft(g: Given, root: Json, node: Json, active: set<string>, left: int)
    requires node.Obj? && Walk(g, root, node, active, left).left >= 0
    ensures Chase(g, root, node, active, left).left >= 0
  {
  }

  lemma {:induction false} WalkListClean(g: Given, root: Json, a: seq<Json>, active: set<string>, left: int, refs: set<string>, rank: string -> nat, r: nat)
    requires KeysOk(g) && Acyclic(g, root, refs, rank) && (forall i :: 0 <= i < |a| ==> Rising(g, root, a[i], refs, rank, r)) && Above(active, rank, r)
    requires WalkList(g, root, a, active, left).left >= 0
    ensures forall i :: 0 <= i < |a| ==> Clean(WalkList(g, root, a, active, left).docs[i])
    decreases Positive(left), a, 0
  {
    hide Acyclic, Above, Rising, Clean, Walk;
    if a != [] {
      var first := Walk(g, root, a[0], active, left);
      WalkClean(g, root, a[0], active, left, refs, rank, r);
      WalkListClean(g, root, a[1..], active, first.left, refs, rank, r);
    }
  }

  lemma {:induction false} WalkKeysClean(g: Given, root: Json, cur: map<string, Json>, ks: seq<string>, entered: bool, active: set<string>, left: int, refs: set<string>, rank: string -> nat, r: nat)
    requires KeysOk(g) && Acyclic(g, root, refs, rank) && Above(active, rank, r)
    requires forall k :: k in cur && !Unwalked(k) ==> Rising(g, root, cur[k], refs, rank, r)
    requires WalkKeys(g, root, cur, ks, entered, active, left).left >= 0
    ensures var m := WalkKeys(g, root, cur, ks, entered, active, left).m; forall k :: k in m && !Unwalked(k) ==> Clean(m[k])
    decreases Positive(left), Obj(cur), 0, |ks|
  {
    hide Acyclic, Above, Rising, Clean, Walk;
    if ks != [] {
      var k, init := ks[|ks| - 1], ks[..|ks| - 1];
      WalkKeysClean(g, root, cur, init, entered, active, left, refs, rank, r);
      var before := WalkKeys(g, root, cur, init, entered, active, left);
      if k in cur && !(entered && k == "default") && !Unwalked(k) {
        WalkClean(g, root, cur[k], active, before.left, refs, rank, r);
      }
    }
  }

  /** Bare references without a cycle are all replaced, unless the budget ran out. */
  lemma InlineComplete(g: Given, root: Json, refs: set<string>, rank: string -> nat, r: nat)
    requires KeysOk(g) && Acyclic(g, root, refs, rank) && Rising(g, root, root, refs, rank, r) && !Embeds(root, true)
    ensures Walk(g, root, root, {}, BUDGET).left >= 0 ==> Clean(Inlined(g, root))
  {
    if Walk(g, root, root, {}, BUDGET).left >= 0 {
      WalkClean(g, root, root, {}, BUDGET, refs, rank, r);
    }
  }

  // ---------------------------------------------------------------- as it runs

  class Inliner {
    const g: Given
    const root: Json
    var budget: int

    constructor (g: Given, root: Json)
      ensures this.g == g && this.root == root && budget == BUDGET
    {
      this.g, this.root, budget := g, root, BUDGET;
    }

    method Visit(node: Json, active: set<string>) returns (out: Json)
      modifies this
      ensures Out(out, budget) == Walk(g, root, node, active, old(budget))
      decreases Positive(budget), node, 1
    {
      if node.Arr? {
        out := VisitList(node.a, active);
        return;
      }
      if !node.Obj? { return node; }
      var cur, entered, seen := node, false, active;
      var siblingDefault: Option<Json> := None;
      while RefOf(cur).Some?
        invariant cur.Obj? && budget <= old(budget) && (entered ==> 0 < old(budget) && budget < old(budget)) && (!entered ==> cur == node && budget == old(budget))
        invariant Chase(g, root, cur, seen, budget) == Chase(g, root, node, active, old(budget))
        invariant entered ==> RefOf(node).Some?
        invariant siblingDefault == if entered && "default" in node.m then Some(node.m["default"]) else None
        decreases Positive(budget)
      {
        if !(cur.m.Keys <= ANNOTATIONS) { return node; }
        var ref := RefOf(cur).value;
        if ref in seen { return node; }
        var was := budget;
        budget := budget - 1;
        if was <= 0 { return node; }
        var target := Resolve(g, root, ref);
        if target.None? || !target.value.Obj? { return node; }
        if !entered && "default" in cur.m { siblingDefault := Some(cur.m["default"]); }
        seen := seen + {ref};
        cur, entered := target.value, true;
      }
      var m := VisitKeys(cur.m, entered, seen);
      if siblingDefault.Some? { m := m["default" := siblingDefault.value]; }
      out := Obj(m);
    }

    method VisitList(a: seq<Json>, active: set<string>) returns (out: Json)
      modifies this
      ensures out.Arr? && Outs(out.a, budget) == WalkList(g, root, a, active, old(budget))
      decreases Positive(budget), a, 0
    {
      hide Walk;
      if a == [] { return Arr([]); }
      var first := Visit(a[0], active);
      var rest := VisitList(a[1..], active);
      out := Arr([first] + rest.a);
    }

    method VisitKeys(cur: map<string, Json>, entered: bool, active: set<string>) returns (out: map<string, Json>)
      modifies this
      ensures OutMap(out, budget) == WalkKeys(g, root, cur, g.keys(cur), entered, active, old(budget))
      decreases Positive(budget), Obj(cur), 0
    {
      hide Walk;
      var ks := g.keys(cur);
      out := map[];
      var i := 0;
      while i < |ks|
        invariant 0 <= i <= |ks| && budget <= old(budget)
        invariant OutMap(out, budget) == WalkKeys(g, root, cur, ks[..i], entered, active, old(budget))
      {
        var k := ks[i];
        assert ks[..i + 1][..i] == ks[..i];
        i := i + 1;
        if k !in cur || (entered && k == "default") { continue; }
        var w := cur[k];
        if !Unwalked(k) { w := Visit(cur[k], active); }
        out := out[k := w];
      }
      assert ks[..i] == ks;
    }
  }

  method InlineRefsForClone(g: Given, root: Json) returns (out: Json)
    ensures out == Inlined(g, root)
  {
    if Embeds(root, true) { return root; }
    var inliner := new Inliner(g, root);
    out := inliner.Visit(root, {});
  }
}
