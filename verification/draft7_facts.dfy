/** The rewriting accepts what the earlier draft accepted, and rewriting twice is rewriting once. */
module Draft7Facts {
  import opened Json
  import opened Schemas
  import opened Draft7

  /** Keywords the earlier drafts do not have. */
  const LATER := {"prefixItems", "dependentSchemas", "dependentRequired", "minContains", "maxContains", "unevaluatedItems", "unevaluatedProperties", "$dynamicRef", "$dynamicAnchor", "$recursiveRef", "$recursiveAnchor", "$anchor"}

  /** Written with the keywords of an earlier draft, each with a value of its kind, and with references to definitions. */
  predicate Legacy(s: Json)
    decreases s, 1
  {
    match s
    case Bool(_) => true
    case Obj(m) => m.Keys !! LATER && (RefOf(s).Some? ==> ToDefinition(RefOf(s).value)) && forall k :: k in m ==> LegacyAt(m, k)
    case _ => false
  }

  predicate LegacyAt(m: map<string, Json>, k: string)
    requires k in m
    decreases Obj(m), 0
  {
    if k in {"properties", "patternProperties", "$defs", "definitions"} then m[k].Obj? && forall n :: n in m[k].m ==> Legacy(m[k].m[n])
    else if k == "dependencies" then
      if m[k].Obj? then forall n :: n in m[k].m ==> m[k].m[n].Arr? || Legacy(m[k].m[n]) else !Truthy(m[k])
    else if k in {"allOf", "anyOf", "oneOf"} then m[k].Arr? && forall i :: 0 <= i < |m[k].a| ==> Legacy(m[k].a[i])
    else if k == "items" && m[k].Arr? then forall i :: 0 <= i < |m[k].a| ==> Legacy(m[k].a[i])
    else k in SINGLES || k == "additionalItems" ==> Legacy(m[k])
  }

  // ---------------------------------------------------------------- where each keyword ends up

  /** Keywords the rewriting moves or removes itself. */
  const MOVED := {"items", "additionalItems", "prefixItems", "dependencies", "dependentSchemas", "dependentRequired", "$id", "id", "$anchor", "definitions", "$defs"}

  const RENAMED := {"$id", "id", "$anchor", "definitions", "$defs"}

  lemma EarlyKeeps(g: Given, m: map<string, Json>, k: string)
    requires !g.dialect.Draft2020? && RefOf(Obj(m)).None? && k !in RENAMED
    ensures var r := MoveDefinitions(NameAnchor(DropSiblings(RenameId(DropUnknown(m, g.dialect), g.dialect))));
            (k in r <==> Reads(g, m, k)) && (k in r ==> r[k] == m[k]) && RefOf(Obj(r)).None?
  {
    hide IsAnchor, Truthy, KEPT;
    var m1 := DropUnknown(m, g.dialect);
    assert k in m1 <==> Reads(g, m, k);
    assert RefOf(Obj(m1)).None?;
    var m2 := RenameId(m1, g.dialect);
    var m3 := DropSiblings(m2);
    assert m3 == m2;
    var m4 := NameAnchor(m3);
  }

  lemma LateKeeps(m: map<string, Json>, k: string)
    requires k !in MOVED
    ensures var r := SwapItems(SplitDependencies(m)); (k in r <==> k in m) && (k in r ==> r[k] == m[k])
  {
    hide Truthy;
  }

  /** Every other keyword the draft reads is where it was; those it does not read are gone. */
  lemma Keeps(g: Given, m: map<string, Json>, k: string)
    requires !g.dialect.Draft2020? && RefOf(Obj(m)).None? && k !in MOVED
    ensures var r := Rewritten(m, g.dialect); (k in r <==> Reads(g, m, k)) && (k in r ==> r[k] == m[k]) && RefOf(Obj(r)).None?
  {
    hide SplitDependencies, SwapItems, MoveDefinitions, NameAnchor, DropSiblings, RenameId, DropUnknown, MOVED;
    var early := MoveDefinitions(NameAnchor(DropSiblings(RenameId(DropUnknown(m, g.dialect), g.dialect))));
    LateKeeps(early, k);
    NotMoved(k);
    EarlyKeeps(g, m, k);
    LateKeeps(early, "$ref");
  }

  lemma NotMoved(k: string)
    ensures "$ref" !in MOVED && (k !in MOVED ==> k !in RENAMED)
  {
  }

  /** The identifier under the draft's own name; in draft-04 `id`, unless `$id` is there. */
  function Identifier(m: map<string, Json>, d: Dialect): Option<Json> {
    if "$id" in m then Some(m["$id"]) else if d.Draft04? && "id" in m && m["id"].Str? then Some(m["id"]) else None
  }

  predicate PlainName(o: Option<Json>) { o.Some? && o.value.Str? && IsAnchor(o.value.s) }

  /**
   An identifier that is a plain name becomes the anchor of that name, unless the object has one already; any
   other is the `$id`.
   */
  lemma IdentifierMoved(m: map<string, Json>, d: Dialect)
    requires !d.Draft2020? && RefOf(Obj(m)).None?
    ensures var r, id := Rewritten(m, d), Identifier(m, d);
      && (PlainName(id) ==> "$id" !in r && "$anchor" in r)
      && (PlainName(id) && "$anchor" !in m ==> r["$anchor"].Str? && id.value.s == "#" + r["$anchor"].s)
      && ("$anchor" in m ==> "$anchor" in r && r["$anchor"] == m["$anchor"])
      && (!PlainName(id) ==> ("$anchor" in r <==> "$anchor" in m) && ("$id" in r <==> id.Some?) && (id.Some? ==> r["$id"] == id.value))
      && (d.Draft04? ==> "id" !in r)
  {
    hide SplitDependencies, SwapItems, MoveDefinitions, IsAnchor;
    var m3 := DropSiblings(RenameId(DropUnknown(m, d), d));
    EarlyIdentifier(m, d);
    var m4 := NameAnchor(m3);
    LateIdentifier(m4, "$id");
    LateIdentifier(m4, "id");
    LateIdentifier(m4, "$anchor");
    if PlainName(Identifier(m, d)) { Anchored(Identifier(m, d).value.s); }
  }

  lemma Anchored(s: string)
    requires IsAnchor(s)
    ensures |s| > 0 && s == "#" + s[1..]
  {
  }

  lemma EarlyIdentifier(m: map<string, Json>, d: Dialect)
    requires !d.Draft2020? && RefOf(Obj(m)).None?
    ensures var r, id := DropSiblings(RenameId(DropUnknown(m, d), d)), Identifier(m, d);
      && ("$id" in r <==> id.Some?) && (id.Some? ==> r["$id"] == id.value)
      && ("$anchor" in r <==> "$anchor" in m) && ("$anchor" in m ==> r["$anchor"] == m["$anchor"])
      && (d.Draft04? ==> "id" !in r)
  {
    hide KEPT;
    var m1 := DropUnknown(m, d);
    assert forall k :: k in {"$id", "id", "$anchor", "$ref"} ==> ((k in m1 <==> k in m) && (k in m1 ==> m1[k] == m[k]));
    assert RefOf(Obj(m1)).None?;
    var m2 := RenameId(m1, d);
    assert RefOf(Obj(m2)).None?;
  }

  ghost predicate SameUnder(a: map<string, Json>, b: map<string, Json>, k: string) { (k in a <==> k in b) && (k in a ==> a[k] == b[k]) }

  lemma LateIdentifier(m: map<string, Json>, k: string)
    requires k in {"$id", "id", "$anchor"}
    ensures SameUnder(SwapItems(SplitDependencies(MoveDefinitions(m))), m, k)
  {
    hide SplitDependencies, SwapItems, MoveDefinitions;
    DefinitionsAside(m, k);
    DependenciesAside(MoveDefinitions(m), k);
    ItemsAside(SplitDependencies(MoveDefinitions(m)), k);
  }

  lemma DefinitionsAside(m: map<string, Json>, k: string)
    requires k != "$defs" && k != "definitions"
    ensures SameUnder(MoveDefinitions(m), m, k)
  {
    hide Truthy;
  }

  lemma DependenciesAside(m: map<string, Json>, k: string)
    requires k != "dependencies" && k != "dependentRequired" && k != "dependentSchemas"
    ensures SameUnder(SplitDependencies(m), m, k)
  {
    hide Truthy, DependenciesOf, Table;
  }

  lemma ItemsAside(m: map<string, Json>, k: string)
    requires k != "items" && k != "prefixItems" && k != "additionalItems"
    ensures SameUnder(SwapItems(m), m, k)
  {
  }

  /** A reference stands alone. */
  lemma RefAlone(m: map<string, Json>, d: Dialect)
    requires RefOf(Obj(m)).Some?
    ensures Rewritten(m, d).Keys <= KEPT && RefOf(Obj(Rewritten(m, d))) == RefOf(Obj(m))
  {
    hide IsAnchor, Truthy;
    var m1 := DropUnknown(m, d);
    var m2 := RenameId(m1, d);
    assert RefOf(Obj(m2)) == RefOf(Obj(m));
    var m3 := DropSiblings(m2);
    assert m3.Keys <= KEPT && "$ref" in m3 && m3["$ref"] == m["$ref"];
    assert "$id" !in m3 && "dependencies" !in m3 && "items" !in m3;
    var m5 := MoveDefinitions(m3);
    assert "dependencies" !in m5 && "items" !in m5 && "$ref" in m5 && m5["$ref"] == m["$ref"];
  }

  lemma EarlyItems(g: Given, m: map<string, Json>, k: string)
    requires !g.dialect.Draft2020? && RefOf(Obj(m)).None? && k in {"items", "additionalItems", "prefixItems", "dependencies", "dependentSchemas", "dependentRequired"}
    ensures var r := MoveDefinitions(NameAnchor(DropSiblings(RenameId(DropUnknown(m, g.dialect), g.dialect))));
            (k in r <==> k in m) && (k in r ==> r[k] == m[k])
  {
    hide MoveDefinitions, NameAnchor, DropSiblings, RenameId, DropUnknown;
    EarlyKeeps(g, m, k);
  }

  lemma ItemsMoved(g: Given, m: map<string, Json>)
    requires !g.dialect.Draft2020? && RefOf(Obj(m)).None? && m.Keys !! LATER
    ensures var r := Rewritten(m, g.dialect);
            if List(m, "items").Some? then
              "prefixItems" in r && r["prefixItems"] == m["items"] && ("items" in r <==> "additionalItems" in m) && ("items" in r ==> r["items"] == m["additionalItems"])
            else "prefixItems" !in r && ("items" in r <==> "items" in m) && ("items" in r ==> r["items"] == m["items"])
  {
    hide MoveDefinitions, NameAnchor, DropSiblings, RenameId, DropUnknown, Truthy;
    EarlyItems(g, m, "items");
    EarlyItems(g, m, "additionalItems");
    EarlyItems(g, m, "prefixItems");
  }

  lemma DependenciesMoved(g: Given, m: map<string, Json>)
    requires !g.dialect.Draft2020? && RefOf(Obj(m)).None? && Legacy(Obj(m))
    ensures var r := Rewritten(m, g.dialect);
            && Table(r, "dependentSchemas") == DependenciesOf(Table(m, "dependencies"), false)
            && Table(r, "dependentRequired") == DependenciesOf(Table(m, "dependencies"), true)
  {
    hide MoveDefinitions, NameAnchor, DropSiblings, RenameId, DropUnknown;
    var early := MoveDefinitions(NameAnchor(DropSiblings(RenameId(DropUnknown(m, g.dialect), g.dialect))));
    EarlyItems(g, m, "dependencies");
    EarlyItems(g, m, "dependentSchemas");
    EarlyItems(g, m, "dependentRequired");
    assert "dependencies" in m ==> LegacyAt(m, "dependencies");
    assert "dependentSchemas" !in m && "dependentRequired" !in m;
    Split(early);
  }

  lemma Split(m: map<string, Json>)
    requires "dependentSchemas" !in m && "dependentRequired" !in m && ("dependencies" in m ==> m["dependencies"].Obj? || !Truthy(m["dependencies"]))
    ensures var r := SwapItems(SplitDependencies(m));
            && Table(r, "dependentSchemas") == DependenciesOf(Table(m, "dependencies"), false)
            && Table(r, "dependentRequired") == DependenciesOf(Table(m, "dependencies"), true)
  {
  }

  // ---------------------------------------------------------------- the rewritten object

  function NormalMap(m: map<string, Json>, d: Dialect): map<string, Json> { Normalize(Obj(m), d).m }

  lemma NormalKeys(m: map<string, Json>, d: Dialect, k: string)
    ensures k in NormalMap(m, d) <==> k in Rewritten(m, d)
    ensures k in Rewritten(m, d) && k !in TABLES && k !in LISTS && k !in SINGLES ==> NormalMap(m, d)[k] == Rewritten(m, d)[k]
    ensures k in Rewritten(m, d) && k in SINGLES ==> NormalMap(m, d)[k] == Normalize(Rewritten(m, d)[k], d)
    ensures k in Rewritten(m, d) && k in LISTS ==> ListNormal(Rewritten(m, d)[k], NormalMap(m, d)[k], d)
    ensures k in Rewritten(m, d) && k in TABLES ==> TableNormal(Rewritten(m, d)[k], NormalMap(m, d)[k], d)
  {
    hide Rewritten, Normalize;
    NormalizeObject(m, d);
    var r := Rewritten(m, d);
    if k in r { SubsNormal(r, k, d, Obj(m)); }
  }

  lemma SubsNormal(r: map<string, Json>, k: string, d: Dialect, bound: Json)
    requires k in r && Bounded(r, bound)
    ensures k !in TABLES && k !in LISTS && k !in SINGLES ==> SubsAt(r, k, d, bound) == r[k]
    ensures k in SINGLES ==> SubsAt(r, k, d, bound) == Normalize(r[k], d)
    ensures k in LISTS ==> ListNormal(r[k], SubsAt(r, k, d, bound), d)
    ensures k in TABLES ==> TableNormal(r[k], SubsAt(r, k, d, bound), d)
  {
    hide Normalize, TABLES, LISTS, SINGLES, Bounded;
    KindsDisjoint(k);
  }

  lemma KindsDisjoint(k: string)
    ensures !(k in TABLES && k in LISTS) && !(k in TABLES && k in SINGLES) && !(k in LISTS && k in SINGLES)
  {
  }

  ghost predicate ListNormal(a: Json, b: Json, d: Dialect) {
    (a.Arr? <==> b.Arr?) && (a.Arr? ==> |a.a| == |b.a| && forall i :: 0 <= i < |a.a| ==> b.a[i] == Normalize(a.a[i], d))
  }

  ghost predicate TableNormal(a: Json, b: Json, d: Dialect) {
    (a.Obj? <==> b.Obj?) && (a.Obj? ==> a.m.Keys == b.m.Keys && forall n :: n in a.m ==> b.m[n] == Normalize(a.m[n], d))
  }

  /** The given functions, with the schema now read under 2020-12. */
  function Now(g: Given): Given { g.(dialect := Draft2020) }

  ghost predicate PartNormal(pa: Part, pb: Part, d: Dialect) {
    (pa.Part? <==> pb.Part?) && (pa.Part? ==> pa.v == pb.v && Legacy(pa.s) && pb.s == Normalize(pa.s, d))
  }

  lemma KeptNoPart(g: Given, m: map<string, Json>, v: Json, w: Where)
    requires g.dialect.Draft2020? && m.Keys <= KEPT
    ensures PartAt(g, m, v, w).NoPart?
  {
    assert KeywordOf(w) !in KEPT;
    assert KeywordOf(w) !in m;
  }

  lemma RefNoPart(g: Given, m: map<string, Json>, v: Json, w: Where)
    requires !g.dialect.Draft2020? && RefOf(Obj(m)).Some?
    ensures PartAt(g, m, v, w).NoPart?
  {
  }

  lemma PartsNormal(g: Given, m: map<string, Json>, v: Json, w: Where)
    requires !g.dialect.Draft2020? && Legacy(Obj(m))
    ensures PartNormal(PartAt(g, m, v, w), PartAt(Now(g), NormalMap(m, g.dialect), v, w), g.dialect)
  {
    hide Rewritten, Normalize, Legacy, PartAt;
    if RefOf(Obj(m)).Some? {
      RefNoPart(g, m, v, w);
      RefAlone(m, g.dialect);
      NormalWithin(m, g.dialect);
      KeptNoPart(Now(g), NormalMap(m, g.dialect), v, w);
    } else if w.AtProperty? || w.AtPattern? {
      TablePart(g, m, v, w);
    } else if w.AtAll? || w.AtAny? || w.AtOne? {
      ListPartNormal(g, m, v, w);
    } else if w.AtPrefix? || w.AtItem? {
      ItemPartNormal(g, m, v, w);
    } else if w.AtDependent? {
      DependentPart(g, m, v, w);
    } else {
      SinglePart(g, m, v, w);
    }
  }

  lemma NormalWithin(m: map<string, Json>, d: Dialect)
    ensures NormalMap(m, d).Keys == Rewritten(m, d).Keys
  {
    hide Rewritten;
    NormalizeObject(m, d);
  }

  lemma LegacyValue(m: map<string, Json>, k: string)
    requires Legacy(Obj(m)) && k in m
    ensures LegacyAt(m, k) && m.Keys !! LATER
  {
  }

  lemma KeepsNormal(g: Given, m: map<string, Json>, k: string)
    requires !g.dialect.Draft2020? && RefOf(Obj(m)).None? && k !in MOVED
    ensures var r, n := Rewritten(m, g.dialect), NormalMap(m, g.dialect);
            (k in n <==> Reads(g, m, k)) && (k in r <==> Reads(g, m, k)) && (k in r ==> r[k] == m[k])
  {
    hide Rewritten, Normalize;
    Keeps(g, m, k);
    NormalKeys(m, g.dialect, k);
  }

  lemma TableSame(g: Given, m: map<string, Json>, k: string)
    requires !g.dialect.Draft2020? && RefOf(Obj(m)).None? && Legacy(Obj(m)) && k in {"properties", "patternProperties"}
    ensures var t, n := TableOf(g, m, k), TableOf(Now(g), NormalMap(m, g.dialect), k);
            t.Keys == n.Keys && forall p :: p in t ==> Legacy(t[p]) && n[p] == Normalize(t[p], g.dialect)
  {
    hide Rewritten, Normalize, Legacy;
    assert k !in MOVED && k in TABLES && k !in CONDITIONALS && k !in SIXTH;
    KeepsNormal(g, m, k);
    NormalKeys(m, g.dialect, k);
    if k in m { LegacyValue(m, k); }
  }

  lemma TablePart(g: Given, m: map<string, Json>, v: Json, w: Where)
    requires !g.dialect.Draft2020? && RefOf(Obj(m)).None? && Legacy(Obj(m)) && (w.AtProperty? || w.AtPattern?)
    ensures PartNormal(PartAt(g, m, v, w), PartAt(Now(g), NormalMap(m, g.dialect), v, w), g.dialect)
  {
    hide Rewritten, Normalize, Legacy;
    TableSame(g, m, "properties");
    TableSame(g, m, "patternProperties");
  }

  lemma NamedNormal(g: Given, m: map<string, Json>, k: string)
    requires !g.dialect.Draft2020? && RefOf(Obj(m)).None? && Legacy(Obj(m))
    ensures Named(g, m, k) == Named(Now(g), NormalMap(m, g.dialect), k)
  {
    hide Rewritten, Normalize, Legacy, TableOf;
    TableSame(g, m, "properties");
    TableSame(g, m, "patternProperties");
    var a, b := TableOf(g, m, "patternProperties"), TableOf(Now(g), NormalMap(m, g.dialect), "patternProperties");
    assert forall p :: p in a <==> p in b;
  }

  lemma ListPartNormal(g: Given, m: map<string, Json>, v: Json, w: Where)
    requires !g.dialect.Draft2020? && RefOf(Obj(m)).None? && Legacy(Obj(m)) && (w.AtAll? || w.AtAny? || w.AtOne?)
    ensures PartNormal(PartAt(g, m, v, w), PartAt(Now(g), NormalMap(m, g.dialect), v, w), g.dialect)
  {
    hide Rewritten, Normalize, Legacy;
    var k := KeywordOf(w);
    assert k !in MOVED && k in LISTS;
    KeepsNormal(g, m, k);
    NormalKeys(m, g.dialect, k);
    if k in m { LegacyValue(m, k); }
  }

  lemma SinglePart(g: Given, m: map<string, Json>, v: Json, w: Where)
    requires !g.dialect.Draft2020? && RefOf(Obj(m)).None? && Legacy(Obj(m))
    requires w.AtMore? || w.AtName? || w.AtContains? || w.AtNot? || w.AtIf? || w.AtThen? || w.AtElse?
    ensures PartNormal(PartAt(g, m, v, w), PartAt(Now(g), NormalMap(m, g.dialect), v, w), g.dialect)
  {
    hide Rewritten, Normalize, Legacy, Named, Positions, DependentOf;
    var k := KeywordOf(w);
    assert k !in MOVED && k in SINGLES && k != "items";
    KeepsNormal(g, m, k);
    NormalKeys(m, g.dialect, k);
    if k in m { LegacyValue(m, k); }
    if w.AtMore? { NamedNormal(g, m, w.k); }
    assert "if" !in MOVED;
    KeepsNormal(g, m, "if");
  }

  lemma ItemsValue(m: map<string, Json>, d: Dialect)
    requires Legacy(Obj(m))
    ensures "items" in m && m["items"].Arr? ==> forall i :: 0 <= i < |m["items"].a| ==> Legacy(m["items"].a[i])
    ensures "items" in m && !m["items"].Arr? ==> Legacy(m["items"])
    ensures "additionalItems" in m ==> Legacy(m["additionalItems"])
    ensures m.Keys !! LATER
  {
    hide Legacy;
    if "items" in m { LegacyValue(m, "items"); }
    if "additionalItems" in m { LegacyValue(m, "additionalItems"); }
    assert m.Keys !! LATER by { LegacyKeys(m); }
  }

  lemma LegacyKeys(m: map<string, Json>)
    requires Legacy(Obj(m))
    ensures m.Keys !! LATER
  {
  }

  lemma ItemPartNormal(g: Given, m: map<string, Json>, v: Json, w: Where)
    requires !g.dialect.Draft2020? && RefOf(Obj(m)).None? && Legacy(Obj(m)) && (w.AtPrefix? || w.AtItem?)
    ensures PartNormal(PartAt(g, m, v, w), PartAt(Now(g), NormalMap(m, g.dialect), v, w), g.dialect)
  {
    hide Rewritten, Normalize, Legacy;
    ItemsValue(m, g.dialect);
    ItemsMoved(g, m);
    assert "items" in SINGLES && "prefixItems" in LISTS;
    NormalKeys(m, g.dialect, "items");
    NormalKeys(m, g.dialect, "prefixItems");
  }

  lemma DependentPart(g: Given, m: map<string, Json>, v: Json, w: Where)
    requires !g.dialect.Draft2020? && RefOf(Obj(m)).None? && Legacy(Obj(m)) && w.AtDependent?
    ensures PartNormal(PartAt(g, m, v, w), PartAt(Now(g), NormalMap(m, g.dialect), v, w), g.dialect)
  {
    hide Rewritten, Normalize, Legacy;
    DependenciesMoved(g, m);
    assert "dependentSchemas" in TABLES;
    NormalKeys(m, g.dialect, "dependentSchemas");
    if "dependencies" in m { LegacyValue(m, "dependencies"); }
  }

  // ---------------------------------------------------------------- what an object decides by itself

  lemma LocalNormal(g: Given, m: map<string, Json>, v: Json)
    requires !g.dialect.Draft2020? && Legacy(Obj(m))
    ensures LocalOk(g, m, v) == LocalOk(Now(g), NormalMap(m, g.dialect), v)
  {
    hide Rewritten, Normalize, Legacy, LocalOk;
    if RefOf(Obj(m)).Some? {
      LocalOfRef(g, m, v);
    } else {
      var n := NormalMap(m, g.dialect);
      LocalKeys();
      forall k | k in LOCAL ensures SameRead(g, m, n, k) {
        ReadNormal(g, m, k);
      }
      forall k | !Known(k) ensures SameRead(g, m, n, k) {
        UnknownKey(k);
        ReadNormal(g, m, k);
      }
      DependenciesMoved(g, m);
      DependentTables(g, m);
      LocalSame(g, m, n, v);
    }
  }

  /** The old reading and the new one find the same value under the keyword, or both none. */
  ghost predicate SameRead(g: Given, m: map<string, Json>, n: map<string, Json>, k: string) {
    ReadsAlike(g, m, Now(g), n, k)
  }

  /** The keywords that decide by themselves, but for those that moved. */
  const LOCAL := {"type", "required", "enum", "const", "nullable"} + BOUNDS

  lemma LocalKeys()
    ensures forall k :: k in LOCAL ==> k !in MOVED && k !in TABLES && k !in LISTS && k !in SINGLES
  {
  }

  lemma UnknownKey(k: string)
    requires !Known(k)
    ensures k !in MOVED && k !in TABLES && k !in LISTS && k !in SINGLES
  {
  }

  lemma ReadNormal(g: Given, m: map<string, Json>, k: string)
    requires !g.dialect.Draft2020? && RefOf(Obj(m)).None? && k !in MOVED && k !in TABLES && k !in LISTS && k !in SINGLES
    ensures SameRead(g, m, NormalMap(m, g.dialect), k)
  {
    hide Rewritten, Normalize, MOVED, TABLES, LISTS, SINGLES;
    KeepsNormal(g, m, k);
    NormalKeys(m, g.dialect, k);
  }

  lemma DependentTables(g: Given, m: map<string, Json>)
    requires !g.dialect.Draft2020? && RefOf(Obj(m)).None? && Legacy(Obj(m))
    ensures TableOf(Now(g), NormalMap(m, g.dialect), "dependentRequired") == DependenciesOf(TableOf(g, m, "dependencies"), true)
  {
    hide Rewritten, Normalize, Legacy;
    DependenciesMoved(g, m);
    assert "dependentRequired" !in TABLES && "dependentRequired" !in LISTS && "dependentRequired" !in SINGLES;
    NormalKeys(m, g.dialect, "dependentRequired");
  }

  lemma LocalSame(g: Given, m: map<string, Json>, n: map<string, Json>, v: Json)
    requires !g.dialect.Draft2020?
    requires forall k :: k in LOCAL ==> SameRead(g, m, n, k)
    requires forall k :: !Known(k) ==> SameRead(g, m, n, k)
    requires TableOf(Now(g), n, "dependentRequired") == DependenciesOf(TableOf(g, m, "dependencies"), true)
    ensures LocalOk(g, m, v) == LocalOk(Now(g), n, v)
  {
    hide Known, TypeOk, NamesPresent, TableOf, BoundsOk, Rest;
    assert SameRead(g, m, n, "type") && SameRead(g, m, n, "required") && SameRead(g, m, n, "enum") && SameRead(g, m, n, "const") && SameRead(g, m, n, "nullable");
    RestSame(g, m, Now(g), n);
    if v.Num? { BoundsSame(g, m, Now(g), n, v.n); }
    var t := TableOf(g, m, "dependencies");
    assert DependentsPresent(t, v) == DependentsPresent(DependenciesOf(t, true), v) by { ListsOnly(t, v); }
    assert ListOf(g, m, "required") == ListOf(Now(g), n, "required") && ListOf(g, m, "enum") == ListOf(Now(g), n, "enum");
  }

  lemma ListsOnly(t: map<string, Json>, v: Json)
    ensures DependentsPresent(t, v) == DependentsPresent(DependenciesOf(t, true), v)
  {
    hide NamesPresent;
    var l := DependenciesOf(t, true);
    if v.Obj? && DependentsPresent(l, v) {
      forall k | k in t && k in v.m && t[k].Arr? ensures NamesPresent(t[k].a, v) { assert k in l; }
    }
  }

  lemma LocalOfRef(g: Given, m: map<string, Json>, v: Json)
    requires !g.dialect.Draft2020? && RefOf(Obj(m)).Some?
    ensures LocalOk(g, m, v) && LocalOk(Now(g), NormalMap(m, g.dialect), v)
  {
    hide Rewritten, Normalize;
    RefAlone(m, g.dialect);
    NormalWithin(m, g.dialect);
    KeptLocal(Now(g), NormalMap(m, g.dialect), v);
  }

  lemma KeptLocal(g: Given, m: map<string, Json>, v: Json)
    requires m.Keys <= KEPT
    ensures LocalOk(g, m, v)
  {
    hide TypeOk, NamesPresent;
    assert "type" !in m && "required" !in m && "enum" !in m && "const" !in m && "dependentRequired" !in m && "dependencies" !in m;
    assert m.Keys !! BOUNDS;
    forall k | k in m ensures Known(k) { assert k in KEPT; }
    assert Rest(g, m) == map[];
  }

  lemma AlikeNormal(g: Given, root: Json, m: map<string, Json>, v: Json)
    requires !g.dialect.Draft2020? && Legacy(Obj(m))
    ensures var a, b := Reading(g, root, m), Reading(Now(g), Normalize(root, g.dialect), NormalMap(m, g.dialect));
            Alike(a, b, v) && Alike(b, a, v)
  {
    hide Rewritten, Normalize, Legacy, LocalOk, PartAt, List;
    var n := NormalMap(m, g.dialect);
    LocalNormal(g, m, v);
    CountsNormal(g, m);
    forall k | k in {"anyOf", "oneOf", "not", "if", "then", "else", "contains"} ensures Reads(g, m, k) <==> Reads(Now(g), n, k) {
      PresentNormal(g, m, k);
    }
    ListKept(g, m, "anyOf");
    ListKept(g, m, "oneOf");
    forall w ensures PartAt(g, m, v, w).Part? <==> PartAt(Now(g), n, v, w).Part? {
      PartsNormal(g, m, v, w);
    }
  }

  lemma ListKept(g: Given, m: map<string, Json>, k: string)
    requires !g.dialect.Draft2020? && Legacy(Obj(m)) && k in {"anyOf", "oneOf"}
    ensures ListOf(g, m, k).Some? <==> ListOf(Now(g), NormalMap(m, g.dialect), k).Some?
  {
    hide Rewritten, Normalize, Legacy;
    PresentNormal(g, m, k);
    if RefOf(Obj(m)).None? {
      assert k !in MOVED && k in LISTS;
      KeepsNormal(g, m, k);
      NormalKeys(m, g.dialect, k);
    }
  }

  lemma PresentNormal(g: Given, m: map<string, Json>, k: string)
    requires !g.dialect.Draft2020? && k in {"anyOf", "oneOf", "not", "if", "then", "else", "contains"}
    ensures Reads(g, m, k) <==> Reads(Now(g), NormalMap(m, g.dialect), k)
  {
    hide Rewritten, Normalize;
    if RefOf(Obj(m)).Some? {
      RefAlone(m, g.dialect);
      NormalWithin(m, g.dialect);
      assert k !in KEPT;
    } else {
      assert k !in MOVED;
      KeepsNormal(g, m, k);
    }
  }

  /** No count of matches was written, and none is read. */
  lemma CountsNormal(g: Given, m: map<string, Json>)
    requires !g.dialect.Draft2020? && Legacy(Obj(m))
    ensures MinContains(Now(g), NormalMap(m, g.dialect)) == MinContains(g, m) && MaxContains(Now(g), NormalMap(m, g.dialect)) == MaxContains(g, m)
  {
    hide Rewritten, Normalize, Legacy;
    LegacyKeys(m);
    NormalWithin(m, g.dialect);
    if RefOf(Obj(m)).Some? {
      RefAlone(m, g.dialect);
      assert "minContains" !in KEPT && "maxContains" !in KEPT;
    } else {
      assert "minContains" !in MOVED && "maxContains" !in MOVED && "minContains" in LATER && "maxContains" in LATER;
      Keeps(g, m, "minContains");
      Keeps(g, m, "maxContains");
    }
  }

  // ---------------------------------------------------------------- references

  /** In a table, a name leads to its own entry, whatever the entries are. */
  lemma DescendNormal(g: Given, t: map<string, Json>, n: map<string, Json>, segs: seq<string>, d: Dialect)
    requires |segs| == 1 && t.Keys == n.Keys && forall k :: k in t ==> n[k] == Normalize(t[k], d)
    ensures match Descend(g, Obj(t), segs) case None => Descend(g, Obj(n), segs).None? case Some(s) => Descend(g, Obj(n), segs) == Some(Normalize(s, d))
    ensures Descend(g, Obj(t), segs).Some? ==> exists k :: k in t && t[k] == Descend(g, Obj(t), segs).value
  {
    hide Unescaped, Normalize;
    var seg := Unescaped(segs[0]);
    assert segs[1..] == [];
    assert forall x :: Descend(g, x, []) == Some(x);
  }

  lemma DefinitionsMoved(m: map<string, Json>, d: Dialect)
    requires forall k :: k in DEFINITIONS && k in m ==> m[k].Obj?
    ensures var r := Rewritten(m, d);
            if "definitions" in m && "$defs" !in m then "definitions" !in r && "$defs" in r && r["$defs"] == m["definitions"]
            else forall k :: k in DEFINITIONS ==> (k in r <==> k in m) && (k in r ==> r[k] == m[k])
  {
    hide DropUnknown, RenameId, DropSiblings, NameAnchor, SplitDependencies, SwapItems;
    var m4 := NameAnchor(DropSiblings(RenameId(DropUnknown(m, d), d)));
    forall k | k in DEFINITIONS ensures (k in m4 <==> k in m) && (k in m4 ==> m4[k] == m[k]) {
      FirstStepsKeep(m, d, k);
    }
    var m5 := MoveDefinitions(m4);
    forall k | k in DEFINITIONS ensures var r := SwapItems(SplitDependencies(m5)); (k in r <==> k in m5) && (k in r ==> r[k] == m5[k]) {
      LaterStepsKeep(m5, k);
    }
  }

  lemma FirstStepsKeep(m: map<string, Json>, d: Dialect, k: string)
    requires k in DEFINITIONS
    ensures var r := NameAnchor(DropSiblings(RenameId(DropUnknown(m, d), d))); (k in r <==> k in m) && (k in r ==> r[k] == m[k])
  {
    hide IsAnchor;
    var m1 := DropUnknown(m, d);
    assert (k in m1 <==> k in m) && (k in m1 ==> m1[k] == m[k]);
    var m2 := RenameId(m1, d);
    assert (k in m2 <==> k in m) && (k in m2 ==> m2[k] == m[k]);
    var m3 := DropSiblings(m2);
    assert (k in m3 <==> k in m) && (k in m3 ==> m3[k] == m[k]);
  }

  lemma LaterStepsKeep(m: map<string, Json>, k: string)
    requires k in DEFINITIONS
    ensures var r := SwapItems(SplitDependencies(m)); (k in r <==> k in m) && (k in r ==> r[k] == m[k])
  {
    hide Truthy;
  }

  lemma DefTableNormal(m: map<string, Json>, d: Dialect, k: string)
    requires Legacy(Obj(m)) && k in DEFINITIONS
    ensures DefTable(m, k).Some? <==> DefTable(NormalMap(m, d), k).Some?
    ensures DefTable(m, k).Some? ==> DefTable(m, k).value.Obj? && TableNormal(DefTable(m, k).value, DefTable(NormalMap(m, d), k).value, d)
    ensures DefTable(m, k).Some? ==> forall n :: n in DefTable(m, k).value.m ==> Legacy(DefTable(m, k).value.m[n])
  {
    hide Rewritten, Normalize, Legacy;
    if "definitions" in m { LegacyValue(m, "definitions"); }
    if "$defs" in m { LegacyValue(m, "$defs"); }
    DefinitionsMoved(m, d);
    assert "$defs" in TABLES && "definitions" in TABLES;
    NormalKeys(m, d, "$defs");
    NormalKeys(m, d, "definitions");
  }

  /** A reference names the rewritten form of what it named. */
  lemma LookupNormal(g: Given, root: Json, ref: string)
    requires !g.dialect.Draft2020? && Legacy(root) && Decodes(g) && ToDefinition(ref)
    ensures var was, now := Lookup(g, root, ref), Lookup(Now(g), Normalize(root, g.dialect), ref);
            if was.None? then now.None? else now == Some(Normalize(was.value, g.dialect)) && Legacy(was.value)
  {
    hide Rewritten, Normalize, Legacy, Descend, SplitAt;
    var d := g.dialect;
    if ref == "#" || !IsPointer(ref) {
    } else {
      var segs := SplitAt(ref[2..], '/');
      if root.Obj? {
        NormalizeKind(root, d);
        LookupDefinition(g, root.m, ref);
        LookupDefinition(Now(g), NormalMap(root.m, d), ref);
        DefTableNormal(root.m, d, segs[0]);
        if DefTable(root.m, segs[0]).Some? {
          var t, n := DefTable(root.m, segs[0]).value, DefTable(NormalMap(root.m, d), segs[0]).value;
          DescendGiven(g, Now(g), n, segs[1..]);
          DescendNormal(g, t.m, n.m, segs[1..], d);
        }
      } else {
        NormalizeKind(root, d);
        BoolRoot(g, root, ref);
        BoolRoot(Now(g), root, ref);
      }
    }
  }

  lemma NormalizeKind(s: Json, d: Dialect)
    ensures if s.Obj? then Normalize(s, d) == Obj(NormalMap(s.m, d)) else Normalize(s, d) == s
  {
    if s.Obj? { NormalizeObject(s.m, d); }
  }

  lemma BoolRoot(g: Given, root: Json, ref: string)
    requires IsPointer(ref) && (Legacy(root) && !root.Obj?)
    ensures Lookup(g, root, ref).None?
  {
    hide SplitAt, Unescaped;
    assert SplitAt(ref[2..], '/') != [];
  }

  // ---------------------------------------------------------------- the rewriting preserves meaning

  lemma RefSame(m: map<string, Json>, d: Dialect)
    requires Legacy(Obj(m)) && !d.Draft2020?
    ensures RefOf(Obj(NormalMap(m, d))) == RefOf(Obj(m)) && (RefOf(Obj(m)).Some? ==> ToDefinition(RefOf(Obj(m)).value))
  {
    hide Rewritten, Normalize;
    assert "$ref" !in TABLES && "$ref" !in LISTS && "$ref" !in SINGLES;
    NormalKeys(m, d, "$ref");
    if RefOf(Obj(m)).Some? { RefAlone(m, d); } else { RefKept(m, d); }
  }

  lemma RefKept(m: map<string, Json>, d: Dialect)
    requires RefOf(Obj(m)).None? && !d.Draft2020?
    ensures RefOf(Obj(Rewritten(m, d))).None?
  {
    hide Rewritten;
    var g := Given(d, false, _ => [], _ => None, (_, _) => false, (_, _) => false, (_, _) => false);
    assert "type" !in MOVED;
    Keeps(g, m, "type");
  }

  /**
   A value is accepted, or refused, under the earlier draft exactly when the rewritten schema accepts
   or refuses it under 2020-12, whatever the number of references in a row.
   */
  lemma {:induction false} NormalizeExact(g: Given, root: Json, s: Json, v: Json, f: nat, want: bool)
    requires !g.dialect.Draft2020? && Decodes(g) && Legacy(root) && Legacy(s)
    ensures Decided(g, root, s, v, f, want) <==> Decided(Now(g), Normalize(root, g.dialect), Normalize(s, g.dialect), v, f, want)
    decreases f, s
  {
    hide Legacy, Decided, Normalize, PartAt, Rewritten;
    var d := g.dialect;
    var r := Normalize(root, d);
    NormalizeKind(s, d);
    if s.Obj? {
      var m, n := s.m, NormalMap(s.m, d);
      var a, b := Reading(g, root, m), Reading(Now(g), r, n);
      forall w, q ensures On(g, root, m, v, w, f, q) <==> On(Now(g), r, n, v, w, f, q) {
        PartsNormal(g, m, v, w);
        if PartAt(g, m, v, w).Part? { NormalizeExact(g, root, PartAt(g, m, v, w).s, PartAt(g, m, v, w).v, f, q); }
      }
      RefSame(m, d);
      if RefOf(s).Some? {
        LookupNormal(g, root, RefOf(s).value);
        if Lookup(g, root, RefOf(s).value).Some? && f > 0 { NormalizeExact(g, root, Lookup(g, root, RefOf(s).value).value, v, f - 1, want); }
      }
      assert RefOn(g, root, m, v, f, want) <==> RefOn(Now(g), r, n, v, f, want);
      AlikeNormal(g, root, m, v);
      BothWays(a, b, v, f, want);
    } else {
      BoolDecides(g, root, s, v, f, want);
      BoolDecides(Now(g), r, s, v, f, want);
    }
  }

  // ---------------------------------------------------------------- once is enough

  /** Every schema the recursion goes to is legacy. */
  ghost predicate LegacyParts(m: map<string, Json>) {
    forall k :: k in m ==> LegacyPart(m, k)
  }

  ghost predicate LegacyPart(m: map<string, Json>, k: string)
    requires k in m
  {
    && (k in SINGLES ==> Legacy(m[k]))
    && (k in LISTS && m[k].Arr? ==> forall i :: 0 <= i < |m[k].a| ==> Legacy(m[k].a[i]))
    && (k in TABLES ==> m[k].Obj? && forall n :: n in m[k].m ==> Legacy(m[k].m[n]))
  }

  /** Values still where `LegacyAt` says what they are, definitions under either name. */
  ghost predicate StillLegacy(m: map<string, Json>) {
    && m.Keys !! (LATER - {"$anchor"})
    && forall k :: k in m && k != "$anchor" && k != "$id" ==> LegacyAt(m, k)
  }

  lemma LegacyAtSame(m: map<string, Json>, n: map<string, Json>, k: string)
    requires k in m && k in n && m[k] == n[k]
    ensures LegacyAt(m, k) == LegacyAt(n, k)
  {
    hide Legacy;
  }

  lemma EarlyLegacy(m: map<string, Json>, d: Dialect)
    requires Legacy(Obj(m))
    ensures StillLegacy(MoveDefinitions(NameAnchor(DropSiblings(RenameId(DropUnknown(m, d), d)))))
  {
    hide Legacy, LegacyAt, MoveDefinitions;
    LegacyKeys(m);
    forall k | k in m ensures LegacyAt(m, k) { LegacyValue(m, k); }
    var m4 := NameAnchor(DropSiblings(RenameId(DropUnknown(m, d), d)));
    OnlyRenamed(m, d);
    forall k | k in m4 && k != "$anchor" && k != "$id" ensures LegacyAt(m4, k) { LegacyAtSame(m, m4, k); }
    MovedLegacy(m4);
  }

  lemma OnlyRenamed(m: map<string, Json>, d: Dialect)
    ensures var r := NameAnchor(DropSiblings(RenameId(DropUnknown(m, d), d)));
            forall k :: k in r && k != "$anchor" && k != "$id" ==> k in m && r[k] == m[k]
  {
    hide IsAnchor;
  }

  lemma MovedLegacy(m: map<string, Json>)
    requires StillLegacy(m)
    ensures StillLegacy(MoveDefinitions(m))
  {
    hide Legacy;
    var r := MoveDefinitions(m);
    forall k | k in r && k != "$anchor" && k != "$id" ensures LegacyAt(r, k) {
      if k == "$defs" && r != m { assert LegacyAt(m, "definitions"); } else { LegacyAtSame(m, r, k); }
    }
  }

  lemma SplitLegacy(m: map<string, Json>)
    requires StillLegacy(m)
    ensures var r := SplitDependencies(m);
            && (forall k :: k in r && k !in {"$anchor", "$id", "dependentSchemas", "dependentRequired"} ==> LegacyAt(r, k))
            && (forall n :: n in Table(r, "dependentSchemas") ==> Legacy(Table(r, "dependentSchemas")[n])) && "prefixItems" !in r
            && ("dependentSchemas" in r ==> r["dependentSchemas"].Obj?)
  {
    hide Legacy;
    var r := SplitDependencies(m);
    if "dependencies" in m { assert LegacyAt(m, "dependencies"); }
    forall k | k in r && k !in {"$anchor", "$id", "dependentSchemas", "dependentRequired"} ensures LegacyAt(r, k) {
      LegacyAtSame(m, r, k);
    }
  }

  lemma SwapLegacy(m: map<string, Json>)
    requires forall k :: k in m && k !in {"$anchor", "$id", "dependentSchemas", "dependentRequired"} ==> LegacyAt(m, k)
    requires forall n :: n in Table(m, "dependentSchemas") ==> Legacy(Table(m, "dependentSchemas")[n])
    requires "prefixItems" !in m
    requires "dependentSchemas" in m ==> m["dependentSchemas"].Obj?
    ensures LegacyParts(SwapItems(m)) && ("items" in SwapItems(m) ==> !SwapItems(m)["items"].Arr?)
  {
    hide Legacy, SwapItems, LegacyPart, LegacyAt;
    var r := SwapItems(m);
    SwapTuple(m);
    forall k | k in r ensures LegacyPart(r, k) {
      if k != "prefixItems" && k != "items" { SwapOther(m, k); }
    }
    if "items" in r { SwapItemsSchema(m); }
  }

  lemma SwapTuple(m: map<string, Json>)
    requires ("items" in m ==> LegacyAt(m, "items")) && ("additionalItems" in m ==> LegacyAt(m, "additionalItems")) && "prefixItems" !in m
    ensures var r := SwapItems(m);
            ("prefixItems" in r ==> LegacyPart(r, "prefixItems")) && ("items" in r ==> LegacyPart(r, "items"))
  {
    hide Legacy;
    assert "items" in SINGLES && "items" !in LISTS && "items" !in TABLES;
    assert "prefixItems" !in SINGLES && "prefixItems" !in TABLES;
  }

  lemma SwapItemsSchema(m: map<string, Json>)
    requires "items" in SwapItems(m) && LegacyPart(SwapItems(m), "items")
    ensures !SwapItems(m)["items"].Arr?
  {
    hide Legacy, SwapItems;
    assert "items" in SINGLES;
    SchemaNotArray(SwapItems(m)["items"]);
  }

  lemma SwapOther(m: map<string, Json>, k: string)
    requires k in SwapItems(m) && k != "prefixItems" && k != "items"
    requires forall n :: n in m && n !in {"$anchor", "$id", "dependentSchemas", "dependentRequired"} ==> LegacyAt(m, n)
    requires forall n :: n in Table(m, "dependentSchemas") ==> Legacy(Table(m, "dependentSchemas")[n])
    requires "dependentSchemas" in m ==> m["dependentSchemas"].Obj?
    ensures LegacyPart(SwapItems(m), k)
  {
    hide Legacy;
    var r := SwapItems(m);
    assert k in m && r[k] == m[k];
    if k == "dependentSchemas" {
      assert k !in LISTS && k !in SINGLES;
      assert Table(m, "dependentSchemas") == r[k].m;
    } else if k !in {"$anchor", "$id", "dependentRequired"} {
      assert LegacyAt(m, k);
    } else {
      assert k !in SINGLES && k !in LISTS && k !in TABLES;
    }
  }

  lemma SchemaNotArray(s: Json)
    ensures Legacy(s) ==> !s.Arr?
  {
  }

  lemma RewrittenLegacy(m: map<string, Json>, d: Dialect)
    requires Legacy(Obj(m))
    ensures LegacyParts(Rewritten(m, d)) && ("items" in Rewritten(m, d) ==> !Rewritten(m, d)["items"].Arr?)
  {
    hide SplitDependencies, SwapItems, MoveDefinitions, NameAnchor, DropSiblings, RenameId, DropUnknown, Legacy, LegacyAt, LegacyParts;
    var early := MoveDefinitions(NameAnchor(DropSiblings(RenameId(DropUnknown(m, d), d))));
    EarlyLegacy(m, d);
    SplitLegacy(early);
    SwapLegacy(SplitDependencies(early));
  }

  /** What no step has anything left to do with. */
  ghost predicate Settled(m: map<string, Json>, d: Dialect) {
    && DropUnknown(m, d) == m && (d.Draft04? ==> "id" !in m) && (RefOf(Obj(m)).Some? ==> m.Keys <= KEPT)
    && ("$id" in m ==> !(m["$id"].Str? && IsAnchor(m["$id"].s)))
    && ("definitions" in m && Truthy(m["definitions"]) ==> "$defs" in m && Truthy(m["$defs"]))
    && ("dependencies" in m ==> !Truthy(m["dependencies"])) && ("items" in m ==> !m["items"].Arr?)
  }

  lemma SettledStays(m: map<string, Json>, d: Dialect)
    requires Settled(m, d)
    ensures Rewritten(m, d) == m
  {
    hide IsAnchor, Truthy, CONDITIONALS, SIXTH;
    assert RenameId(m, d) == m;
    assert DropSiblings(m) == m by { if RefOf(Obj(m)).Some? { assert forall k :: k in m ==> k in KEPT; } }
    assert NameAnchor(m) == m;
    assert MoveDefinitions(m) == m;
    assert SplitDependencies(m) == m;
    assert SwapItems(m) == m;
  }

  lemma SettledRewritten(m: map<string, Json>, d: Dialect)
    requires Legacy(Obj(m))
    ensures Settled(Rewritten(m, d), d)
  {
    hide Legacy, IsAnchor;
    var r := Rewritten(m, d);
    RewrittenLegacy(m, d);
    var m1 := DropUnknown(m, d);
    var m2 := RenameId(m1, d);
    var m3 := DropSiblings(m2);
    var m4 := NameAnchor(m3);
    var m5 := MoveDefinitions(m4);
    EarlySettled(m, d);
    LateSettled(m5, d);
    if RefOf(Obj(m)).Some? { RefAlone(m, d); } else { RefLost(m, d); }
  }

  lemma RefLost(m: map<string, Json>, d: Dialect)
    requires RefOf(Obj(m)).None?
    ensures RefOf(Obj(Rewritten(m, d))).None?
  {
    hide MoveDefinitions, NameAnchor, DropSiblings, RenameId, DropUnknown, SplitDependencies, SwapItems;
    var early := MoveDefinitions(NameAnchor(DropSiblings(RenameId(DropUnknown(m, d), d))));
    EarlyRef(m, d);
    assert "$ref" !in MOVED;
    LateKeeps(early, "$ref");
  }

  lemma EarlyRef(m: map<string, Json>, d: Dialect)
    requires RefOf(Obj(m)).None?
    ensures RefOf(Obj(MoveDefinitions(NameAnchor(DropSiblings(RenameId(DropUnknown(m, d), d)))))).None?
  {
    hide IsAnchor, Truthy, KEPT;
    var m1 := DropUnknown(m, d);
    assert RefOf(Obj(m1)).None?;
    var m2 := RenameId(m1, d);
    assert DropSiblings(m2) == m2 && RefOf(Obj(m2)).None?;
    var m4 := NameAnchor(m2);
    assert RefOf(Obj(m4)).None?;
  }

  ghost predicate EarlyDone(m: map<string, Json>, d: Dialect) {
    && DropUnknown(m, d) == m && (d.Draft04? ==> "id" !in m)
    && ("$id" in m ==> !(m["$id"].Str? && IsAnchor(m["$id"].s)))
    && ("definitions" in m && Truthy(m["definitions"]) ==> "$defs" in m && Truthy(m["$defs"]))
  }

  ghost predicate Lacks(m: map<string, Json>, ks: set<string>) { m.Keys !! ks }

  lemma EarlySettled(m: map<string, Json>, d: Dialect)
    ensures EarlyDone(MoveDefinitions(NameAnchor(DropSiblings(RenameId(DropUnknown(m, d), d)))), d)
  {
    hide IsAnchor, Truthy, KEPT;
    var gone := (if SixthOrEarlier(d) then CONDITIONALS else {}) + (if d.Draft04? then SIXTH else {});
    var m1 := DropUnknown(m, d);
    assert Lacks(m1, gone);
    var m2 := RenameId(m1, d);
    assert Lacks(m2, gone) && (d.Draft04? ==> "id" !in m2);
    var m3 := DropSiblings(m2);
    assert Lacks(m3, gone) && (d.Draft04? ==> "id" !in m3);
    var m4 := NameAnchor(m3);
    assert Lacks(m4, gone) && (d.Draft04? ==> "id" !in m4) && ("$id" in m4 ==> !(m4["$id"].Str? && IsAnchor(m4["$id"].s)));
    var m5 := MoveDefinitions(m4);
    assert Lacks(m5, gone) && (d.Draft04? ==> "id" !in m5);
    NothingToDrop(m5, d);
  }

  lemma NothingToDrop(m: map<string, Json>, d: Dialect)
    requires Lacks(m, (if SixthOrEarlier(d) then CONDITIONALS else {}) + (if d.Draft04? then SIXTH else {}))
    ensures DropUnknown(m, d) == m
  {
    hide CONDITIONALS, SIXTH;
    if SixthOrEarlier(d) { assert m - CONDITIONALS == m; }
    if d.Draft04? { assert m - SIXTH == m; }
  }

  lemma LateSettled(m: map<string, Json>, d: Dialect)
    requires EarlyDone(m, d)
    ensures var r := SwapItems(SplitDependencies(m)); EarlyDone(r, d) && ("dependencies" in r ==> !Truthy(r["dependencies"]))
  {
    hide IsAnchor, DropUnknown, Truthy;
    var r := SwapItems(SplitDependencies(m));
    assert forall k :: k in r ==> k in m || k in {"dependentSchemas", "dependentRequired", "prefixItems", "items"};
    LateKeepsDropped(m, r, d);
  }

  lemma LateKeepsDropped(m: map<string, Json>, r: map<string, Json>, d: Dialect)
    requires DropUnknown(m, d) == m && forall k :: k in r ==> k in m || k in {"dependentSchemas", "dependentRequired", "prefixItems", "items"}
    ensures DropUnknown(r, d) == r
  {
    var gone := (if SixthOrEarlier(d) then CONDITIONALS else {}) + (if d.Draft04? then SIXTH else {});
    forall k | k in r ensures k !in gone {
      if k in m { assert k in DropUnknown(m, d); }
    }
    NothingToDrop(r, d);
  }

  lemma SettledNormal(m: map<string, Json>, d: Dialect)
    requires Legacy(Obj(m))
    ensures Settled(NormalMap(m, d), d)
  {
    hide Legacy, Rewritten, Normalize, IsAnchor, DropUnknown;
    var r, n := Rewritten(m, d), NormalMap(m, d);
    SettledRewritten(m, d);
    NormalWithin(m, d);
    assert DropUnknown(n, d) == n by { SameKeysDropped(r, n, d); }
    forall k | k in {"$id", "dependencies", "$ref"} ensures k in r ==> n[k] == r[k] { NormalKeys(m, d, k); }
    forall k | k in {"definitions", "$defs"} ensures k in r ==> Truthy(n[k]) == Truthy(r[k]) { if k in r { TruthyTable(m, d, k); } }
    NormalKeys(m, d, "items");
    if "items" in r { NormalizeKind(r["items"], d); }
    assert RefOf(Obj(n)) == RefOf(Obj(r));
  }

  lemma SameKeysDropped(r: map<string, Json>, n: map<string, Json>, d: Dialect)
    requires DropUnknown(r, d) == r && r.Keys == n.Keys
    ensures DropUnknown(n, d) == n
  {
    LateKeepsDropped(r, n, d);
  }

  lemma TruthyTable(m: map<string, Json>, d: Dialect, k: string)
    requires k in Rewritten(m, d) && k in {"definitions", "$defs"}
    ensures k in NormalMap(m, d) && Truthy(NormalMap(m, d)[k]) == Truthy(Rewritten(m, d)[k])
  {
    hide Rewritten;
    NormalizeObject(m, d);
  }

  /** Rewriting twice is rewriting once. */
  lemma {:induction false} NormalizeTwice(s: Json, d: Dialect)
    requires Legacy(s)
    ensures Normalize(Normalize(s, d), d) == Normalize(s, d)
    decreases s
  {
    hide Legacy, Rewritten, Normalize, Settled, LegacyParts;
    NormalizeKind(s, d);
    if s.Obj? {
      var m := s.m;
      var r, n := Rewritten(m, d), NormalMap(m, d);
      SettledNormal(m, d);
      SettledStays(n, d);
      NormalizeKind(Obj(n), d);
      RewrittenLegacy(m, d);
      NormalWithin(m, d);
      NormalWithin(n, d);
      NormalizeObject(m, d);
      forall k | k in n ensures NormalMap(n, d)[k] == n[k] {
        TwiceAt(m, d, k);
      }
      assert NormalMap(n, d) == n;
    }
  }

  lemma {:induction false} TwiceAt(m: map<string, Json>, d: Dialect, k: string)
    requires LegacyParts(Rewritten(m, d)) && Bounded(Rewritten(m, d), Obj(m)) && k in Rewritten(m, d) && k in NormalMap(m, d)
    requires Rewritten(NormalMap(m, d), d) == NormalMap(m, d) && k in NormalMap(NormalMap(m, d), d)
    ensures NormalMap(NormalMap(m, d), d)[k] == NormalMap(m, d)[k]
    decreases Obj(m), 0
  {
    hide Legacy, Rewritten, Normalize;
    var r, n := Rewritten(m, d), NormalMap(m, d);
    var nn := NormalMap(n, d);
    NormalKeys(m, d, k);
    NormalKeys(n, d, k);
    assert LegacyPart(r, k) && Below(r, k, Obj(m));
    if k in TABLES {
      forall p | p in r[k].m ensures nn[k].m[p] == n[k].m[p] { NormalizeTwice(r[k].m[p], d); }
      assert nn[k].m == n[k].m;
    } else if k in LISTS && r[k].Arr? {
      forall i | 0 <= i < |r[k].a| ensures nn[k].a[i] == n[k].a[i] { NormalizeTwice(r[k].a[i], d); }
      assert nn[k].a == n[k].a;
    } else if k in SINGLES {
      NormalizeTwice(r[k], d);
    } else if k in LISTS {
      Untouched(m, d, k);
      Untouched(n, d, k);
    }
  }

  /** A list that is no array is left as it is. */
  lemma Untouched(m: map<string, Json>, d: Dialect, k: string)
    requires k in Rewritten(m, d) && k in LISTS && !Rewritten(m, d)[k].Arr?
    ensures k in NormalMap(m, d) && NormalMap(m, d)[k] == Rewritten(m, d)[k]
  {
    hide Rewritten;
    NormalizeObject(m, d);
  }
}
