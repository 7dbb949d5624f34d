/** Rewriting draft-07, draft-06 and draft-04 schemas to 2020-12 (lib/draft7.js:23-126). */
module Draft7 {
  import opened Json
  import opened Schemas

  /** What may stand beside a reference in draft-07 without being applied. */
  const KEPT := {"$ref", "$defs", "definitions", "$schema", "$comment", "title", "description", "examples", "default", "readOnly", "writeOnly"}

  const CONDITIONALS := {"if", "then", "else"}
  const SIXTH := {"const", "contains", "propertyNames"}

  predicate SixthOrEarlier(d: Dialect) { d.Draft06? || d.Draft04? }

  predicate IsLetter(c: char) { 'A' <= c <= 'Z' || 'a' <= c <= 'z' }

  predicate IsAnchorChar(c: char) { IsLetter(c) || '0' <= c <= '9' || c == '_' || c == '.' || c == ':' || c == '-' }

  /** A plain-name fragment. */
  predicate IsAnchor(s: string) {
    |s| >= 2 && s[0] == '#' && IsLetter(s[1]) && forall i :: 2 <= i < |s| ==> IsAnchorChar(s[i])
  }

  // ---------------------------------------------------------------- one object, step by step

  function DropUnknown(m: map<string, Json>, d: Dialect): map<string, Json> {
    var m1 := if SixthOrEarlier(d) then m - CONDITIONALS else m;
    if d.Draft04? then m1 - SIXTH else m1
  }

  function RenameId(m: map<string, Json>, d: Dialect): map<string, Json> {
    if !d.Draft04? then m
    else if "id" in m && m["id"].Str? && "$id" !in m && RefOf(Obj(m)).None? then m["$id" := m["id"]] - {"id"}
    else m - {"id"}
  }

  function DropSiblings(m: map<string, Json>): map<string, Json> {
    if RefOf(Obj(m)).None? then m else map k | k in m && k in KEPT :: m[k]
  }

  function NameAnchor(m: map<string, Json>): map<string, Json> {
    if "$id" in m && m["$id"].Str? && IsAnchor(m["$id"].s) then
      (if "$anchor" in m then m else m["$anchor" := Str(m["$id"].s[1..])]) - {"$id"}
    else m
  }

  function MoveDefinitions(m: map<string, Json>): map<string, Json> {
    if "definitions" in m && Truthy(m["definitions"]) && !("$defs" in m && Truthy(m["$defs"])) then
      m["$defs" := m["definitions"]] - {"definitions"}
    else m
  }

  /** The dependencies that are lists of names, or those that are schemas. */
  function DependenciesOf(t: map<string, Json>, lists: bool): map<string, Json> {
    map k | k in t && t[k].Arr? == lists :: t[k]
  }

  function AddTo(m: map<string, Json>, target: string, add: map<string, Json>): map<string, Json> {
    if add == map[] then m
    else m[target := Obj((if target in m && m[target].Obj? then m[target].m else map[]) + add)]
  }

  function SplitDependencies(m: map<string, Json>): map<string, Json> {
    if "dependencies" in m && Truthy(m["dependencies"]) then
      var t := Table(m, "dependencies");
      AddTo(AddTo(m, "dependentRequired", DependenciesOf(t, true)), "dependentSchemas", DependenciesOf(t, false)) - {"dependencies"}
    else m
  }

  function SwapItems(m: map<string, Json>): map<string, Json> {
    if "items" in m && m["items"].Arr? then
      var m1 := m["prefixItems" := m["items"]];
      if "additionalItems" in m then m1["items" := m["additionalItems"]] - {"additionalItems"} else m1 - {"items"}
    else m
  }

  function Rewritten(m: map<string, Json>, d: Dialect): map<string, Json> {
    SwapItems(SplitDependencies(MoveDefinitions(NameAnchor(DropSiblings(RenameId(DropUnknown(m, d), d))))))
  }

  // ---------------------------------------------------------------- the whole schema

  const TABLES := {"properties", "patternProperties", "$defs", "definitions", "dependentSchemas"}
  const LISTS := {"allOf", "anyOf", "oneOf", "prefixItems"}
  const SINGLES := {"items", "contains", "not", "if", "then", "else", "additionalProperties", "propertyNames"}

  /** Every schema the recursion goes to is a proper part of `bound`. */
  ghost predicate Bounded(m: map<string, Json>, bound: Json) {
    forall k :: k in m ==> Below(m, k, bound)
  }

  ghost predicate Below(m: map<string, Json>, k: string, bound: Json)
    requires k in m
  {
    && (k in SINGLES ==> m[k] < bound)
    && (k in TABLES + LISTS && m[k].Arr? ==> forall i :: 0 <= i < |m[k].a| ==> m[k].a[i] < bound)
    && (k in TABLES && m[k].Obj? ==> forall n :: n in m[k].m ==> m[k].m[n] < bound)
  }

  function Normalize(s: Json, d: Dialect): Json
    decreases s, 1
  {
    match s
    case Obj(m) => (RewrittenBounded(m, d); Obj(Subs(Rewritten(m, d), d, s)))
    case _ => s
  }

  function Subs(m: map<string, Json>, d: Dialect, bound: Json): map<string, Json>
    requires Bounded(m, bound)
    decreases bound, 0, 1
  {
    map k | k in m :: SubsAt(m, k, d, bound)
  }

  function SubsAt(m: map<string, Json>, k: string, d: Dialect, bound: Json): Json
    requires k in m && Bounded(m, bound)
    decreases bound, 0, 0
  {
    assert Below(m, k, bound);
    if k in TABLES && m[k].Obj? then Obj(map n | n in m[k].m :: Normalize(m[k].m[n], d))
    else if k in TABLES + LISTS && m[k].Arr? then Arr(seq(|m[k].a|, i requires 0 <= i < |m[k].a| => Normalize(m[k].a[i], d)))
    else if k in SINGLES then Normalize(m[k], d)
    else m[k]
  }

  /** Everything but a freshly written anchor is a part of the schema as it was. */
  ghost predicate Parts(m: map<string, Json>, bound: Json) {
    forall k :: k in m && k != "$anchor" ==> m[k] < bound
  }

  lemma EarlyParts(m: map<string, Json>, d: Dialect)
    ensures Parts(MoveDefinitions(NameAnchor(DropSiblings(RenameId(DropUnknown(m, d), d)))), Obj(m))
  {
    hide CONDITIONALS, SIXTH, KEPT, IsAnchor, Truthy, RefOf;
    var m1 := DropUnknown(m, d);
    assert Parts(m1, Obj(m));
    var m2 := RenameId(m1, d);
    assert Parts(m2, Obj(m));
    var m3 := DropSiblings(m2);
    assert Parts(m3, Obj(m));
    var m4 := NameAnchor(m3);
    assert Parts(m4, Obj(m));
  }

  lemma SplitBounded(m: map<string, Json>, bound: Json)
    requires Parts(m, bound)
    ensures var r := SplitDependencies(m);
            && (forall k :: k in r && k !in {"$anchor", "dependentSchemas", "dependentRequired"} ==> r[k] < bound)
            && ("dependentSchemas" in r && r["dependentSchemas"].Obj? ==> forall n :: n in r["dependentSchemas"].m ==> r["dependentSchemas"].m[n] < bound)
            && ("dependentSchemas" in r && r["dependentSchemas"].Arr? ==> forall i :: 0 <= i < |r["dependentSchemas"].a| ==> r["dependentSchemas"].a[i] < bound)
  {
    hide Truthy;
  }

  lemma RewrittenBounded(m: map<string, Json>, d: Dialect)
    ensures Bounded(Rewritten(m, d), Obj(m))
  {
    hide SplitDependencies, MoveDefinitions, NameAnchor, DropSiblings, RenameId, DropUnknown;
    var early := MoveDefinitions(NameAnchor(DropSiblings(RenameId(DropUnknown(m, d), d))));
    EarlyParts(m, d);
    SplitBounded(early, Obj(m));
    var s := SplitDependencies(early);
    SwapBounded(s, Obj(m));
  }

  lemma SwapBounded(m: map<string, Json>, bound: Json)
    requires forall k :: k in m && k !in {"$anchor", "dependentSchemas", "dependentRequired"} ==> m[k] < bound
    requires "dependentSchemas" in m && m["dependentSchemas"].Obj? ==> forall n :: n in m["dependentSchemas"].m ==> m["dependentSchemas"].m[n] < bound
    requires "dependentSchemas" in m && m["dependentSchemas"].Arr? ==> forall i :: 0 <= i < |m["dependentSchemas"].a| ==> m["dependentSchemas"].a[i] < bound
    ensures Bounded(SwapItems(m), bound)
  {
    var r := SwapItems(m);
    forall k | k in r ensures Below(r, k, bound) {
      if k == "prefixItems" || k == "items" || k in m {
      }
    }
  }

  lemma NormalizeObject(m: map<string, Json>, d: Dialect)
    ensures Bounded(Rewritten(m, d), Obj(m))
    ensures Normalize(Obj(m), d) == Obj(Subs(Rewritten(m, d), d, Obj(m)))
  {
    hide Rewritten;
    RewrittenBounded(m, d);
  }
}
