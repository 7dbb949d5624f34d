/** OpenAPI's `nullable` folded into the type (lib/draft7.js:176-259). */
module NullableTypes {
  import opened Json
  import opened Schemas
  import opened Similar
  import opened Draft7

  /** The single schemas this walk goes to. */
  const MORE_SINGLES := SINGLES + {"unevaluatedItems", "unevaluatedProperties"}

  /** A type beside `nullable: true` gains null, once; the keyword goes in any case. */
  function FoldType(m: map<string, Json>): map<string, Json> {
    var m1 :=
      if "nullable" in m && m["nullable"] == Bool(true) && "type" in m then
        match m["type"]
        case Arr(ts) => if Str("null") in ts then m else m["type" := Arr(ts + [Str("null")])]
        case t => m["type" := Arr([t, Str("null")])]
      else m;
    m1 - {"nullable"}
  }

  /** A fragment with a percent escape is written decoded, unless a `%` is left in it. */
  function DecodeRef(g: Given, m: map<string, Json>): map<string, Json> {
    match RefOf(Obj(m))
    case Some(ref) =>
      if ref != "" && ref[0] == '#' && '%' in ref && g.decode(ref).Some? && '%' !in g.decode(ref).value then m["$ref" := Str(g.decode(ref).value)] else m
    case None => m
  }

  function FoldHere(g: Given, m: map<string, Json>): map<string, Json> { DecodeRef(g, FoldType(m)) }

  lemma FoldKeeps(g: Given, m: map<string, Json>, k: string)
    requires k != "type" && k != "nullable" && k != "$ref"
    ensures (k in FoldHere(g, m) <==> k in m) && (k in m ==> FoldHere(g, m)[k] == m[k])
  {
  }

  function Folded(g: Given, s: Json): Json
    decreases s, 1
  {
    match s
    case Obj(m) => Obj(map k | k in FoldHere(g, m) :: if k in m then FoldedAt(g, m, k, FoldHere(g, m)[k]) else FoldHere(g, m)[k])
    case _ => s
  }

  /** What becomes of the value under a keyword; `here` is the value as the object's own folding left it. */
  function FoldedAt(g: Given, m: map<string, Json>, k: string, here: Json): Json
    requires k in m
    decreases Obj(m), 0
  {
    if k in TABLES && m[k].Obj? then Obj(map n | n in m[k].m :: Folded(g, m[k].m[n]))
    else if k in TABLES + LISTS && m[k].Arr? then Arr(seq(|m[k].a|, i requires 0 <= i < |m[k].a| => Folded(g, m[k].a[i])))
    else if k in MORE_SINGLES then Folded(g, m[k])
    else here
  }

  function FoldedMap(g: Given, m: map<string, Json>): map<string, Json> { Folded(g, Obj(m)).m }

  lemma FoldedOther(g: Given, m: map<string, Json>, k: string)
    requires k != "type" && k != "nullable" && k != "$ref"
    ensures (k in FoldedMap(g, m) <==> k in m) && (k in m ==> FoldedMap(g, m)[k] == FoldedAt(g, m, k, m[k]))
  {
    hide FoldHere, FoldedAt;
    FoldKeeps(g, m, k);
  }

  function Pointer(table: string, name: string): string { "#/" + table + "/" + name }

  lemma {:induction false} SplitName(name: string)
    requires '/' !in name
    ensures SplitAt(name, '/') == [name]
    decreases |name|
  {
    if name != "" {
      SplitName(name[1..]);
      assert [name[0]] + name[1..] == name;
    }
  }

  lemma {:induction false} SplitTwo(table: string, name: string)
    requires '/' !in table && '/' !in name
    ensures SplitAt(table + "/" + name, '/') == [table, name]
    decreases |table|
  {
    if table == "" {
      assert (table + "/" + name)[1..] == name;
      SplitName(name);
    } else {
      assert (table + "/" + name)[1..] == table[1..] + "/" + name;
      SplitTwo(table[1..], name);
      assert (table + "/" + name)[0] == table[0] && [table[0]] + table[1..] == table;
      assert [table[1..], name][1..] == [name];
    }
  }

  lemma LookupPointer(g: Given, root: map<string, Json>, table: string, name: string)
    requires Decodes(g) && table in DEFINITIONS && '/' !in name
    ensures Lookup(g, Obj(root), Pointer(table, name)) == match DefTable(root, table) case Some(t) => Descend(g, t, [name]) case None => None
  {
    hide Descend, Lookup;
    var ref := Pointer(table, name);
    assert ref[2..] == table + "/" + name;
    SplitTwo(table, name);
    LookupDefinition(g, root, ref);
  }

  /**
   A reference to a definition by an escaped name is written with the name itself, and names the same
   definition: unless there is one whose name is the escaped text, which the reference named before.
   */
  lemma DecodedRefers(g: Given, m: map<string, Json>, root: map<string, Json>, table: string, name: string, plain: string)
    requires Decodes(g) && table in DEFINITIONS && RefOf(Obj(m)) == Some(Pointer(table, name))
    requires '%' in name && '/' !in name && '~' !in name && '/' !in plain && '~' !in plain && '%' !in plain
    requires g.decode(Pointer(table, name)) == Some(Pointer(table, plain)) && g.decode(name) == Some(plain) && g.decode(plain) == Some(plain)
    ensures DecodeRef(g, m) == m["$ref" := Str(Pointer(table, plain))]
    ensures var was := Lookup(g, Obj(root), Pointer(table, name));
            match DefTable(root, table)
            case None => was.None? && Lookup(g, Obj(root), Pointer(table, plain)).None?
            case Some(t) =>
              if Own(t, name).Some? then was == Own(t, name)
              else was == Lookup(g, Obj(root), Pointer(table, plain))
  {
    LookupPointer(g, root, table, name);
    LookupPointer(g, root, table, plain);
    NameUnescaped(name);
    NameUnescaped(plain);
    var ref := Pointer(table, name);
    assert ref[0] == '#' && '%' in ref by { assert ref[|ref| - |name|..] == name; }
    assert '%' !in table && '%' !in Pointer(table, plain);
    hide Lookup, Unescaped;
    if DefTable(root, table).Some? {
      var t := DefTable(root, table).value;
      DescendOne(g, t, name);
      DescendOne(g, t, plain);
      if IsScalar(t) { assert Own(t, plain).None? && Own(t, name).None?; }
    }
  }

  lemma DescendOne(g: Given, t: Json, name: string)
    requires Unescaped(name) == name
    ensures Descend(g, t, [name]) ==
            if Own(t, name).Some? then Own(t, name)
            else if IsScalar(t) || g.decode(name).None? then None
            else Own(t, g.decode(name).value)
  {
    hide Own, Unescaped;
    assert [name][1..] == [];
    assert forall x :: Descend(g, x, []) == Some(x);
  }

  /** A reference to one of the schemas that an OpenAPI document keeps. */
  predicate ToComponent(ref: string) {
    IsPointer(ref) && |SplitAt(ref[2..], '/')| == 3 && SplitAt(ref[2..], '/')[0] == "components" && SplitAt(ref[2..], '/')[1] == "schemas"
  }

  function ComponentOf(ref: string): string
    requires ToComponent(ref)
  {
    Unescaped(SplitAt(ref[2..], '/')[2])
  }

  predicate HasComponents(s: Json) {
    s.Obj? && "components" in s.m && s.m["components"].Obj? && "schemas" in s.m["components"].m && s.m["components"].m["schemas"].Obj?
  }

  function Components(s: Json): map<string, Json> {
    if HasComponents(s) then s.m["components"].m["schemas"].m else map[]
  }

  /** The named ones among them gone through as well. */
  function FoldedComponents(g: Given, root: Json, ns: set<string>): map<string, Json> {
    map n | n in Components(root) :: if n in ns then Folded(g, Components(root)[n]) else Components(root)[n]
  }

  function PutComponents(m: map<string, Json>, c: map<string, Json>): map<string, Json>
    requires HasComponents(Obj(m))
  {
    m["components" := Obj(m["components"].m["schemas" := Obj(c)])]
  }

  /** The document with the keywords of the root gone through, and the schemas named. */
  function Normal(g: Given, root: Json, ns: set<string>): Json {
    if HasComponents(root) then (ComponentsStay(g, root.m); Obj(PutComponents(FoldedMap(g, root.m), FoldedComponents(g, root, ns)))) else Folded(g, root)
  }

  lemma ComponentsStay(g: Given, m: map<string, Json>)
    ensures ("components" in m <==> "components" in FoldedMap(g, m)) && ("components" in m ==> FoldedMap(g, m)["components"] == m["components"])
  {
    hide FoldHere;
    FoldedOther(g, m, "components");
    assert "components" !in TABLES && "components" !in LISTS && "components" !in MORE_SINGLES;
  }

  /**
   Types are names or lists of them, references name definitions, or component schemas of `ns`, without an
   escape, and no schema under an unevaluated keyword is changed.
   */
  ghost predicate Nullable(g: Given, s: Json, ns: set<string>)
    decreases s, 1
  {
    match s
    case Bool(_) => true
    case Obj(m) => forall k :: k in m ==> NullableAt(g, m, k, ns)
    case _ => false
  }

  ghost predicate NullableAt(g: Given, m: map<string, Json>, k: string, ns: set<string>)
    requires k in m
    decreases Obj(m), 0
  {
    if k in SCHEMA_MAPS + DEFINITIONS then m[k].Obj? && forall n :: n in m[k].m ==> Nullable(g, m[k].m[n], ns)
    else if k in SCHEMA_LISTS then m[k].Arr? && forall i :: 0 <= i < |m[k].a| ==> Nullable(g, m[k].a[i], ns)
    else if k in ONE_SCHEMA then Nullable(g, m[k], ns)
    else if k == "type" then m[k].Str? || m[k].Arr?
    else if k == "$ref" then m[k].Str? ==> '%' !in m[k].s && (ToDefinition(m[k].s) || (ToComponent(m[k].s) && ComponentOf(m[k].s) in ns))
    else !Known(k) ==> FoldedAt(g, m, k, m[k]) == m[k]
  }

  /** A schema and what becomes of it; the whole document becomes more than its keywords lead to. */
  ghost function Rel(g: Given, root: Json, ns: set<string>): Relation {
    (s: Json, t: Json) => Nullable(g, s, ns) && (t == Folded(g, s) || (s == root && t == Normal(g, root, ns)))
  }

  lemma NullableThere(g: Given, m: map<string, Json>, k: string, ns: set<string>)
    requires Nullable(g, Obj(m), ns) && k in m
    ensures NullableAt(g, m, k, ns)
  {
  }

  lemma WalkSets()
    ensures SCHEMA_MAPS + DEFINITIONS == TABLES && SCHEMA_LISTS == LISTS && ONE_SCHEMA == SINGLES
  {
  }

  lemma Kinds(k: string)
    ensures (k in SCHEMA_MAPS + DEFINITIONS || k in SCHEMA_LISTS || k in ONE_SCHEMA) ==> k != "type" && k != "nullable" && k != "$ref"
    ensures k in SCHEMA_LISTS ==> k !in TABLES && k in LISTS
    ensures k in ONE_SCHEMA ==> k !in TABLES && k !in LISTS && k in MORE_SINGLES && k !in SCHEMA_LISTS && k !in SCHEMA_MAPS + DEFINITIONS
    ensures k in FIXED ==> k !in TABLES && k !in LISTS && k !in MORE_SINGLES && k != "type" && k != "nullable"
    ensures !Known(k) ==> k != "type" && k != "nullable" && k != "$ref" && k !in SCHEMA_MAPS + DEFINITIONS && k !in SCHEMA_LISTS && k !in ONE_SCHEMA
    ensures k in BOUNDS ==> k !in TABLES && k !in LISTS && k !in MORE_SINGLES && k != "type" && k != "nullable" && k != "$ref"
  {
  }

  lemma FoldTable(g: Given, root: Json, ns: set<string>, m: map<string, Json>, k: string)
    requires Nullable(g, Obj(m), ns) && k in SCHEMA_MAPS + DEFINITIONS
    ensures TableShape(Rel(g, root, ns), m, FoldedMap(g, m), k)
  {
    hide Folded, FoldedMap, Nullable;
    WalkSets();
    Kinds(k);
    FoldedOther(g, m, k);
    if k in m { NullableThere(g, m, k, ns); }
  }

  lemma FoldList(g: Given, root: Json, ns: set<string>, m: map<string, Json>, k: string)
    requires Nullable(g, Obj(m), ns) && k in SCHEMA_LISTS
    ensures ListShape(Rel(g, root, ns), m, FoldedMap(g, m), k)
  {
    hide Folded, FoldedMap, Nullable;
    Kinds(k);
    FoldedOther(g, m, k);
    if k in m { NullableThere(g, m, k, ns); }
  }

  lemma FoldOne(g: Given, root: Json, ns: set<string>, m: map<string, Json>, k: string)
    requires Nullable(g, Obj(m), ns) && k in ONE_SCHEMA
    ensures SchemaShape(Rel(g, root, ns), m, FoldedMap(g, m), k)
  {
    hide Folded, FoldedMap, Nullable;
    Kinds(k);
    FoldedOther(g, m, k);
    if k in m { NullableThere(g, m, k, ns); }
  }

  lemma FoldEqual(g: Given, m: map<string, Json>, k: string, ns: set<string>)
    requires Nullable(g, Obj(m), ns) && (k in FIXED || !Known(k) || k in BOUNDS)
    ensures EqualAt(m, FoldedMap(g, m), k)
  {
    hide Folded, FoldedMap, Nullable, Known;
    Kinds(k);
    if k == "$ref" {
      FoldRef(g, m, ns);
    } else {
      FoldedOther(g, m, k);
      if k in m { NullableThere(g, m, k, ns); }
    }
  }

  lemma FoldRef(g: Given, m: map<string, Json>, ns: set<string>)
    requires Nullable(g, Obj(m), ns)
    ensures EqualAt(m, FoldedMap(g, m), "$ref")
  {
    hide FoldType, Nullable, TABLES, LISTS, MORE_SINGLES;
    Kinds("$ref");
    assert "$ref" in FIXED;
    TypeKeepsRef(m);
    if "$ref" in m { NullableThere(g, m, "$ref", ns); }
    assert FoldHere(g, m) == FoldType(m);
    assert "$ref" in m ==> FoldedAt(g, m, "$ref", m["$ref"]) == m["$ref"];
  }

  lemma TypeKeepsRef(m: map<string, Json>)
    ensures EqualAt(m, FoldType(m), "$ref")
  {
  }

  lemma FoldShape(g: Given, root: Json, ns: set<string>, m: map<string, Json>)
    requires Nullable(g, Obj(m), ns)
    ensures Shape(Rel(g, root, ns), m, FoldedMap(g, m))
  {
    hide Nullable, FoldedMap, TableShape, ListShape, SchemaShape, EqualAt, Known, Rel;
    var n := FoldedMap(g, m);
    forall k | k in FIXED || !Known(k) ensures EqualAt(m, n, k) { FoldEqual(g, m, k, ns); }
    forall k | k in ONE_SCHEMA ensures SchemaShape(Rel(g, root, ns), m, n, k) { FoldOne(g, root, ns, m, k); }
    forall k | k in SCHEMA_LISTS ensures ListShape(Rel(g, root, ns), m, n, k) { FoldList(g, root, ns, m, k); }
    forall k | k in SCHEMA_MAPS ensures TableShape(Rel(g, root, ns), m, n, k) { FoldTable(g, root, ns, m, k); }
  }

  /** The reading once nothing is left for `nullable` to say. */
  function Off(g: Given): Given { g.(nullable := false) }

  lemma FoldTypes(g: Given, m: map<string, Json>, v: Json, ns: set<string>)
    requires g.dialect.Draft2020? && g.nullable && Nullable(g, Obj(m), ns)
    ensures var n := FoldedMap(g, m);
            (Reads(g, m, "type") ==> Schemas.TypeOk(m["type"], v) || NullToo(g, m, v)) <==> (Reads(Off(g), n, "type") ==> Schemas.TypeOk(n["type"], v) || NullToo(Off(g), n, v))
  {
    var n := FoldedMap(g, m);
    hide Folded, Nullable;
    TypeFolded(g, m);
    if "type" in m {
      NullableThere(g, m, "type", ns);
      TypeWidened(m["type"], n["type"], v);
    }
  }

  lemma TypeFolded(g: Given, m: map<string, Json>)
    ensures "type" in FoldedMap(g, m) <==> "type" in m
    ensures "type" in m ==> FoldedMap(g, m)["type"] == FoldType(m)["type"]
  {
    assert "type" !in TABLES && "type" !in LISTS && "type" !in MORE_SINGLES;
    hide FoldType;
    TypeStays(m);
    assert "type" in FoldHere(g, m) <==> "type" in FoldType(m);
    if "type" in m {
      assert FoldHere(g, m)["type"] == FoldType(m)["type"];
      assert FoldedAt(g, m, "type", FoldHere(g, m)["type"]) == FoldHere(g, m)["type"];
    }
  }

  lemma TypeStays(m: map<string, Json>)
    ensures "type" in FoldType(m) <==> "type" in m
  {
  }

  /** With null among its types, a value is of the type exactly when it was before or is null. */
  lemma TypeWidened(t: Json, u: Json, v: Json)
    requires t.Str? || t.Arr?
    ensures t.Str? ==> (Schemas.TypeOk(Arr([t, Str("null")]), v) <==> Schemas.TypeOk(t, v) || v.Null?)
    ensures t.Arr? ==> (Schemas.TypeOk(Arr(t.a + [Str("null")]), v) <==> Schemas.TypeOk(t, v) || v.Null?)
    ensures t.Arr? && Str("null") in t.a ==> v.Null? ==> Schemas.TypeOk(t, v)
  {
    if t.Str? {
      var l := [t, Str("null")];
      assert l[0] == t && l[1] == Str("null");
    } else {
      var l := t.a + [Str("null")];
      assert l[|t.a|] == Str("null");
      assert forall i :: 0 <= i < |t.a| ==> l[i] == t.a[i];
      if Str("null") in t.a && v.Null? {
        var i :| 0 <= i < |t.a| && t.a[i] == Str("null");
        assert t.a[i].Str? && HasType(t.a[i].s, v);
      }
    }
  }

  lemma FoldOpen(g: Given, m: map<string, Json>, v: Json, ns: set<string>)
    requires g.dialect.Draft2020? && g.nullable && Nullable(g, Obj(m), ns)
    ensures OpenSame(g, Off(g), m, FoldedMap(g, m), v)
  {
    hide Nullable, FoldedMap, TypeOk, NullToo, BoundsOk;
    FoldTypes(g, m, v, ns);
    if v.Num? {
      forall k | k in BOUNDS ensures ReadsAlike(g, m, Off(g), FoldedMap(g, m), k) { FoldEqual(g, m, k, ns); }
      BoundsSame(g, m, Off(g), FoldedMap(g, m), v.n);
    }
  }

  /** Where the document keeps schemas, it keeps them in tables. */
  predicate KeepsTables(root: Json) {
    root.Obj? && "components" in root.m ==> root.m["components"].Obj? && ("schemas" in root.m["components"].m ==> root.m["components"].m["schemas"].Obj?)
  }

  /** What the document has to be: itself, and each component schema named, readable without the keyword. */
  ghost predicate NullableDocument(g: Given, root: Json, ns: set<string>) {
    Nullable(g, root, ns) && KeepsTables(root) && forall n :: n in ns && n in Components(root) ==> Nullable(g, Components(root)[n], ns)
  }

  /** Percent-decoding leaves text without a percent sign alone. */
  predicate DecodesPlain(g: Given, ref: string) { IsPointer(ref) ==> forall seg :: seg in SplitAt(ref[2..], '/') ==> g.decode(Unescaped(seg)) == Some(Unescaped(seg)) }

  ghost predicate DecodesAll(g: Given) { Decodes(g) && forall ref :: '%' !in ref ==> DecodesPlain(g, ref) }

  /**
   Without the keyword, the document gone through accepts, and refuses, what the original does with it:
   references into its definitions, and to its component schemas, included.
   */
  lemma NullableExact(g: Given, root: Json, ns: set<string>, s: Json, v: Json, f: nat, want: bool)
    requires g.dialect.Draft2020? && g.nullable && DecodesAll(g) && NullableDocument(g, root, ns) && Nullable(g, s, ns)
    ensures Decided(g, root, s, v, f, want) <==> Decided(Off(g), Normal(g, root, ns), Folded(g, s), v, f, want)
    ensures Decided(g, root, root, v, f, want) <==> Decided(Off(g), Normal(g, root, ns), Normal(g, root, ns), v, f, want)
  {
    hide Decided, Folded, Nullable, Normal, DecodesAll;
    var x, y := View(g, root), View(Off(g), Normal(g, root, ns));
    forall s, t | Rel(g, root, ns)(s, t) ensures Related(x, y, Rel(g, root, ns), s, t) {
      if t == Folded(g, s) { FoldRelated(g, root, ns, s, t); } else { FoldRelated(g, root, ns, root, t); }
    }
    SimilarExact(x, y, Rel(g, root, ns), s, Folded(g, s), v, f, want);
    SimilarExact(x, y, Rel(g, root, ns), root, Normal(g, root, ns), v, f, want);
  }

  lemma FoldKind(g: Given, s: Json)
    ensures if s.Obj? then Folded(g, s) == Obj(FoldedMap(g, s.m)) else Folded(g, s) == s
  {
  }

  /** Alike but for what is under `components`. */
  ghost predicate AlikeOutside(a: map<string, Json>, b: map<string, Json>) { forall k :: k != "components" ==> EqualAt(a, b, k) }

  lemma NormalOutside(g: Given, root: Json, ns: set<string>)
    ensures if root.Obj? then Normal(g, root, ns).Obj? && AlikeOutside(FoldedMap(g, root.m), Normal(g, root, ns).m) else Normal(g, root, ns) == root
  {
    hide Folded, FoldedMap;
    FoldKind(g, root);
    if HasComponents(root) { ComponentsStay(g, root.m); }
  }

  lemma ShapeOutside(rel: Relation, m: map<string, Json>, a: map<string, Json>, b: map<string, Json>)
    requires Shape(rel, m, a) && AlikeOutside(a, b)
    ensures Shape(rel, m, b)
  {
    Outside();
    forall k | k in FIXED || !Known(k) ensures EqualAt(m, b, k) { assert EqualAt(m, a, k) && EqualAt(a, b, k); }
    hide Known;
    forall k | k in ONE_SCHEMA ensures SchemaShape(rel, m, b, k) { assert SchemaShape(rel, m, a, k) && EqualAt(a, b, k); }
    forall k | k in SCHEMA_LISTS ensures ListShape(rel, m, b, k) { assert ListShape(rel, m, a, k) && EqualAt(a, b, k); }
    forall k | k in SCHEMA_MAPS ensures TableShape(rel, m, b, k) { assert TableShape(rel, m, a, k) && EqualAt(a, b, k); }
  }

  lemma Outside()
    ensures "components" !in FIXED && Known("components") && "components" !in ONE_SCHEMA && "components" !in SCHEMA_LISTS && "components" !in SCHEMA_MAPS
    ensures "components" !in BOUNDS && "components" !in DEFINITIONS
  {
  }

  lemma OpenOutside(g: Given, h: Given, m: map<string, Json>, a: map<string, Json>, b: map<string, Json>, v: Json)
    requires SameDraft(g, h) && OpenSame(g, h, m, a, v) && AlikeOutside(a, b)
    ensures OpenSame(g, h, m, b, v)
  {
    hide Schemas.TypeOk, BoundsOk;
    Outside();
    assert EqualAt(a, b, "type") && EqualAt(a, b, "nullable");
    if v.Num? {
      forall k | k in BOUNDS ensures ReadsAlike(h, a, h, b, k) { assert EqualAt(a, b, k) && EqualAt(a, b, "$ref"); }
      BoundsSame(h, a, h, b, v.n);
    }
  }

  lemma FoldRelated(g: Given, root: Json, ns: set<string>, s: Json, t: Json)
    requires g.dialect.Draft2020? && g.nullable && DecodesAll(g) && NullableDocument(g, root, ns) && Nullable(g, s, ns)
    requires t == Folded(g, s) || (s == root && t == Normal(g, root, ns))
    ensures Related(View(g, root), View(Off(g), Normal(g, root, ns)), Rel(g, root, ns), s, t)
  {
    hide Folded, FoldedMap, Normal, ObjectsRelated, RefsRelated, Shape, OpenSame, Rel, AlikeOutside, DecodesAll;
    FoldKind(g, s);
    NormalOutside(g, root, ns);
    if s.Obj? {
      var m := s.m;
      var x, y := View(g, root), View(Off(g), Normal(g, root, ns));
      assert AlikeOutside(FoldedMap(g, m), t.m) by { AlikeSelf(FoldedMap(g, m)); }
      FoldShape(g, root, ns, m);
      ShapeOutside(Rel(g, root, ns), m, FoldedMap(g, m), t.m);
      FoldRefs(g, root, ns, m, t.m);
      forall v ensures ObjectsRelated(x, y, Rel(g, root, ns), m, t.m, v) {
        FoldOpen(g, m, v, ns);
        OpenOutside(g, Off(g), m, FoldedMap(g, m), t.m, v);
        ShapeRelated(x, y, Rel(g, root, ns), m, t.m, v);
      }
    }
  }

  lemma AlikeSelf(a: map<string, Json>)
    ensures AlikeOutside(a, a)
  {
  }

  lemma FoldRefs(g: Given, root: Json, ns: set<string>, m: map<string, Json>, n: map<string, Json>)
    requires g.dialect.Draft2020? && DecodesAll(g) && NullableDocument(g, root, ns) && Nullable(g, Obj(m), ns) && AlikeOutside(FoldedMap(g, m), n)
    ensures RefsRelated(View(g, root), View(Off(g), Normal(g, root, ns)), Rel(g, root, ns), m, n)
  {
    hide Folded, FoldedMap, Normal, Lookup, TableShape, Nullable, DecodesAll, ToDefinition, ToComponent, Rel;
    FoldEqual(g, m, "$ref", ns);
    assert EqualAt(FoldedMap(g, m), n, "$ref");
    if RefOf(Obj(m)).Some? {
      var ref := RefOf(Obj(m)).value;
      NullableThere(g, m, "$ref", ns);
      NullableRoot(g, root, ns);
      if ToDefinition(ref) { DefinitionRelated(g, root, ns, ref); } else { ComponentRelated(g, root, ns, ref); }
    }
  }

  lemma DefinitionRelated(g: Given, root: Json, ns: set<string>, ref: string)
    requires g.dialect.Draft2020? && DecodesAll(g) && NullableDocument(g, root, ns) && ToDefinition(ref)
    ensures match Lookup(g, root, ref)
            case None => Lookup(Off(g), Normal(g, root, ns), ref).None?
            case Some(s) => Lookup(Off(g), Normal(g, root, ns), ref).Some? && Rel(g, root, ns)(s, Lookup(Off(g), Normal(g, root, ns), ref).value)
  {
    hide Folded, FoldedMap, Normal, Lookup, TableShape, Nullable, AlikeOutside;
    FoldKind(g, root);
    NullableRoot(g, root, ns);
    NormalOutside(g, root, ns);
    if root.Obj? {
      forall k | k in DEFINITIONS ensures TableShape(Rel(g, root, ns), root.m, Normal(g, root, ns).m, k) {
        FoldTable(g, root, ns, root.m, k);
        TableOutside(Rel(g, root, ns), root.m, FoldedMap(g, root.m), Normal(g, root, ns).m, k);
      }
    }
    LookupRelated(View(g, root), View(Off(g), Normal(g, root, ns)), Rel(g, root, ns), ref);
  }

  lemma TableOutside(rel: Relation, m: map<string, Json>, a: map<string, Json>, b: map<string, Json>, k: string)
    requires TableShape(rel, m, a, k) && AlikeOutside(a, b) && k in DEFINITIONS
    ensures TableShape(rel, m, b, k)
  {
    Outside();
    assert EqualAt(a, b, k);
  }

  /** A reference to a component schema looks its name up among them. */
  lemma LookupComponent(g: Given, root: Json, ref: string)
    requires ToComponent(ref) && DecodesPlain(g, ref) && (root.Obj? || root.Bool?)
    requires KeepsTables(root)
    ensures Lookup(g, root, ref) == if ComponentOf(ref) in Components(root) then Some(Components(root)[ComponentOf(ref)]) else None
  {
    hide SplitAt, Unescaped, ReplacePair;
    var segs := SplitAt(ref[2..], '/');
    assert '~' !in "components" && '~' !in "schemas";
    NameUnescaped("components");
    NameUnescaped("schemas");
    assert segs[0] in segs && segs[1] in segs && segs[2] in segs;
    assert segs[1..][0] == segs[1] && segs[1..][1..] == segs[2..] && segs[2..][0] == segs[2] && segs[2..][1..] == [];
    assert ref != "#";
    Outside();
    assert forall x :: Descend(g, x, []) == Some(x);
    assert Alias(g, root, ref).None?;
    if root.Obj? {
      hide Descend;
      DescendKey(g, root.m, segs);
      if "components" in root.m {
        var c := root.m["components"].m;
        DescendKey(g, c, segs[1..]);
        if "schemas" in c { DescendKey(g, c["schemas"].m, segs[2..]); }
      }
    }
  }

  lemma DescendKey(g: Given, c: map<string, Json>, segs: seq<string>)
    requires segs != [] && g.decode(Unescaped(segs[0])) == Some(Unescaped(segs[0]))
    ensures Descend(g, Obj(c), segs) == if Unescaped(segs[0]) in c then Descend(g, c[Unescaped(segs[0])], segs[1..]) else None
  {
    hide Unescaped;
  }

  lemma NormalComponents(g: Given, root: Json, ns: set<string>)
    requires KeepsTables(root)
    ensures KeepsTables(Normal(g, root, ns)) && Components(Normal(g, root, ns)) == FoldedComponents(g, root, ns)
    ensures Normal(g, root, ns).Obj? <==> root.Obj?
    ensures !root.Obj? ==> Normal(g, root, ns) == root
  {
    hide Folded, FoldedMap;
    FoldKind(g, root);
    if root.Obj? { ComponentsStay(g, root.m); }
  }

  lemma ComponentRelated(g: Given, root: Json, ns: set<string>, ref: string)
    requires g.dialect.Draft2020? && DecodesAll(g) && NullableDocument(g, root, ns) && ToComponent(ref) && ComponentOf(ref) in ns && '%' !in ref
    ensures match Lookup(g, root, ref)
            case None => Lookup(Off(g), Normal(g, root, ns), ref).None?
            case Some(s) => Lookup(Off(g), Normal(g, root, ns), ref).Some? && Rel(g, root, ns)(s, Lookup(Off(g), Normal(g, root, ns), ref).value)
  {
    hide Folded, Normal, Lookup, Nullable, ToComponent, ComponentOf, DecodesPlain;
    NullableRoot(g, root, ns);
    NormalComponents(g, root, ns);
    assert DecodesPlain(g, ref);
    LookupComponent(g, root, ref);
    DecodesOff(g, ref);
    LookupComponent(Off(g), Normal(g, root, ns), ref);
  }

  lemma DecodesOff(g: Given, ref: string)
    requires DecodesPlain(g, ref)
    ensures DecodesPlain(Off(g), ref)
  {
  }

  lemma NullableRoot(g: Given, s: Json, ns: set<string>)
    requires Nullable(g, s, ns)
    ensures s.Obj? || s.Bool?
  {
  }

  // ---------------------------------------------------------------- walking again

  lemma HereTwice(g: Given, m: map<string, Json>)
    ensures FoldHere(g, FoldHere(g, m)) == FoldHere(g, m)
  {
    var n := FoldType(m);
    assert "nullable" !in n && FoldType(n) == n;
    RefTwice(g, n);
  }

  lemma RefTwice(g: Given, n: map<string, Json>)
    requires "nullable" !in n
    ensures FoldType(DecodeRef(g, n)) == DecodeRef(g, n) && DecodeRef(g, DecodeRef(g, n)) == DecodeRef(g, n)
  {
  }

  /** A schema walked once is left alone by a second walk. */
  lemma {:induction false} FoldTwice(g: Given, s: Json)
    ensures Folded(g, Folded(g, s)) == Folded(g, s)
    decreases s, 1
  {
    hide FoldHere, FoldedAt;
    if s.Obj? {
      var m, n := s.m, FoldedMap(g, s.m);
      FoldKind(g, s);
      FoldKind(g, Obj(n));
      HereOfFolded(g, m);
      KeysWithin(g, m);
      forall k | k in n ensures FoldedMap(g, n)[k] == n[k] { FoldTwiceAt(g, m, k); }
      assert FoldedMap(g, n) == n;
    }
  }

  /** The object's own folding finds nothing to do once it is done, whatever became of the schemas below. */
  lemma HereOfFolded(g: Given, m: map<string, Json>)
    ensures FoldHere(g, FoldedMap(g, m)) == FoldedMap(g, m) && FoldedMap(g, m).Keys == FoldHere(g, m).Keys
  {
    hide Folded, FoldedMap;
    HereTwice(g, m);
    FinalMap(g, m);
    OwnKeys(g, m);
    SameOwn(g, FoldHere(g, m), FoldedMap(g, m));
  }

  lemma OwnKeys(g: Given, m: map<string, Json>)
    ensures forall k :: k in FoldHere(g, m) && k in {"type", "nullable", "$ref"} ==> Final(g, m, k) == FoldHere(g, m)[k]
  {
    hide FoldHere, Folded;
    assert forall k :: k in {"type", "nullable", "$ref"} ==> k !in TABLES && k !in LISTS && k !in MORE_SINGLES;
  }

  lemma SameOwn(g: Given, a: map<string, Json>, b: map<string, Json>)
    requires FoldHere(g, a) == a && a.Keys == b.Keys && forall k :: k in a && k in {"type", "nullable", "$ref"} ==> a[k] == b[k]
    ensures FoldHere(g, b) == b
  {
    assert "nullable" !in a && FoldType(b) == b;
  }

  lemma KeysWithin(g: Given, m: map<string, Json>)
    ensures FoldHere(g, m).Keys <= m.Keys
  {
  }

  lemma {:induction false} FoldTwiceAt(g: Given, m: map<string, Json>, k: string)
    requires k in m && k in FoldedMap(g, m) && FoldHere(g, FoldedMap(g, m)) == FoldedMap(g, m)
    ensures k in FoldedMap(g, FoldedMap(g, m)) && FoldedMap(g, FoldedMap(g, m))[k] == FoldedMap(g, m)[k]
    decreases Obj(m), 0
  {
    hide FoldHere, Folded, FoldedMap, TABLES, LISTS, MORE_SINGLES;
    var n := FoldedMap(g, m);
    FinalMap(g, m);
    FinalMap(g, n);
    KeepsParts(g, m, k);
    KindsApart(k);
    assert n[k] == FoldedAt(g, m, k, FoldHere(g, m)[k]) && FoldedMap(g, n)[k] == FoldedAt(g, n, k, n[k]);
    if k in TABLES && m[k].Obj? {
      forall p | p in m[k].m ensures Folded(g, Folded(g, m[k].m[p])) == Folded(g, m[k].m[p]) { FoldTwice(g, m[k].m[p]); }
      TableAgain(g, m[k].m);
    } else if k in TABLES + LISTS && m[k].Arr? {
      forall i | 0 <= i < |m[k].a| ensures Folded(g, Folded(g, m[k].a[i])) == Folded(g, m[k].a[i]) { FoldTwice(g, m[k].a[i]); }
      ListAgain(g, m[k].a);
    } else if k in MORE_SINGLES {
      FoldTwice(g, m[k]);
    }
  }

  lemma TableAgain(g: Given, t: map<string, Json>)
    requires forall p :: p in t ==> Folded(g, Folded(g, t[p])) == Folded(g, t[p])
    ensures var u := map n | n in t :: Folded(g, t[n]); (map n | n in u :: Folded(g, u[n])) == u
  {
    hide Folded;
  }

  lemma ListAgain(g: Given, a: seq<Json>)
    requires forall i :: 0 <= i < |a| ==> Folded(g, Folded(g, a[i])) == Folded(g, a[i])
    ensures var b := seq(|a|, i requires 0 <= i < |a| => Folded(g, a[i])); seq(|b|, i requires 0 <= i < |b| => Folded(g, b[i])) == b
  {
    hide Folded;
  }

  /** What a reference into the definitions names has been walked already: walking it for the reference's sake changes nothing. */
  lemma ReferredIdle(g: Given, root: Json, ns: set<string>, ref: string)
    requires g.dialect.Draft2020? && DecodesAll(g) && NullableDocument(g, root, ns) && ToDefinition(ref) && ref != "#"
    requires Lookup(Off(g), Normal(g, root, ns), ref).Some?
    ensures Folded(g, Lookup(Off(g), Normal(g, root, ns), ref).value) == Lookup(Off(g), Normal(g, root, ns), ref).value
  {
    hide Folded, Lookup, Nullable, Normal, DecodesAll;
    DefinitionRelated(g, root, ns, ref);
    NullableRoot(g, root, ns);
    DefinitionWithin(g, root, ns, ref);
    FoldTwice(g, Lookup(g, root, ref).value);
  }

  /** A definition is not the whole document. */
  lemma DefinitionWithin(g: Given, root: Json, ns: set<string>, ref: string)
    requires DecodesAll(g) && Nullable(g, root, ns) && ToDefinition(ref) && ref != "#" && Lookup(g, root, ref).Some?
    ensures Lookup(g, root, ref).value != root
  {
    hide SplitAt, Nullable, Unescaped;
    NullableRoot(g, root, ns);
    if IsPointer(ref) {
      var segs := SplitAt(ref[2..], '/');
      if root.Obj? {
        LookupDefinition(g, root.m, ref);
        TableNames(segs[0]);
        var t := DefTable(root.m, segs[0]).value;
        var k := if segs[0] in root.m then segs[0] else OtherTable(segs[0]);
        assert t == root.m[k] && t < root;
        NullableThere(g, root.m, k, ns);
        Kinds(k);
        assert segs[1..][1..] == [];
        assert forall x :: Descend(g, x, []) == Some(x);
        assert Lookup(g, root, ref).value < t;
      } else {
        BoolRoot(g, root.b, ref);
      }
    }
  }

  // ---------------------------------------------------------------- the walk as it runs

  class SchemaObject {
    const g: Given
    var m: map<string, Json>

    constructor (g: Given, m: map<string, Json>)
      ensures this.g == g && this.m == m
    {
      this.g, this.m := g, m;
    }

    method FoldOwn()
      modifies this
      ensures m == FoldHere(g, old(m))
    {
      if "nullable" in m && m["nullable"] == Bool(true) && "type" in m {
        var t := m["type"];
        if t.Arr? {
          if Str("null") !in t.a { m := m["type" := Arr(t.a + [Str("null")])]; }
        } else {
          m := m["type" := Arr([t, Str("null")])];
        }
      }
      if "nullable" in m { m := m - {"nullable"}; }
      assert m == FoldType(old(m));
      if "$ref" in m && m["$ref"].Str? && m["$ref"].s != "" && m["$ref"].s[0] == '#' && '%' in m["$ref"].s {
        var decoded := g.decode(m["$ref"].s);
        if decoded.Some? && '%' !in decoded.value { m := m["$ref" := Str(decoded.value)]; }
      }
    }

    /** Tables of schemas, lists of schemas, single schemas; `was` is the object before its own folding. */
    method VisitAll(ghost was: map<string, Json>)
      requires m == FoldHere(g, was)
      modifies this
      ensures m == FoldedMap(g, was)
      decreases Obj(was), 0, 1
    {
      hide FoldHere, Folded, FoldedAt;
      ghost var r := m;
      var todo := m.Keys;
      while todo != {}
        invariant todo <= r.Keys && m.Keys == r.Keys
        invariant forall k :: k in r ==> m[k] == if k in todo then r[k] else Final(g, was, k)
        decreases |todo|
      {
        var k :| k in todo;
        KeepsParts(g, was, k);
        var v := VisitKeyword(g, m[k], k, was);
        m := m[k := v];
        todo := todo - {k};
      }
      assert m == FoldedMap(g, was) by { FinalMap(g, was); }
    }
  }

  /** What the walk leaves under a keyword. */
  function Final(g: Given, m: map<string, Json>, k: string): Json
    requires k in FoldHere(g, m)
  {
    if k in m then FoldedAt(g, m, k, FoldHere(g, m)[k]) else FoldHere(g, m)[k]
  }

  lemma FinalMap(g: Given, m: map<string, Json>)
    ensures FoldedMap(g, m).Keys == FoldHere(g, m).Keys && forall k :: k in FoldHere(g, m) ==> FoldedMap(g, m)[k] == Final(g, m, k)
  {
    hide FoldHere, FoldedAt;
  }

  lemma KeepsParts(g: Given, m: map<string, Json>, k: string)
    requires k in FoldHere(g, m)
    ensures k in TABLES + LISTS + MORE_SINGLES ==> k in m && FoldHere(g, m)[k] == m[k]
  {
    if k in TABLES + LISTS + MORE_SINGLES {
      assert k != "type" && k != "nullable" && k != "$ref";
      FoldKeeps(g, m, k);
    }
  }

  method VisitKeyword(g: Given, s: Json, k: string, ghost was: map<string, Json>) returns (v: Json)
    requires k in FoldHere(g, was) && s == FoldHere(g, was)[k]
    requires k in TABLES + LISTS + MORE_SINGLES ==> k in was && s == was[k]
    ensures v == Final(g, was, k)
    decreases Obj(was), 0, 0
  {
    hide FoldHere, Folded, TABLES, LISTS, MORE_SINGLES;
    KindsApart(k);
    if k in TABLES && s.Obj? {
      var todo, m := s.m.Keys, s.m;
      while todo != {}
        invariant todo <= s.m.Keys == m.Keys
        invariant forall n :: n in s.m ==> m[n] == if n in todo then s.m[n] else Folded(g, s.m[n])
        decreases |todo|
      {
        var n :| n in todo;
        var w := FoldNullable(g, s.m[n]);
        m := m[n := w];
        todo := todo - {n};
      }
      assert m == map n | n in s.m :: Folded(g, s.m[n]);
      return Obj(m);
    } else if k in TABLES + LISTS && s.Arr? {
      var l := s.a;
      for i := 0 to |s.a|
        invariant |l| == |s.a|
        invariant forall j :: 0 <= j < |s.a| ==> l[j] == if j < i then Folded(g, s.a[j]) else s.a[j]
      {
        var w := FoldNullable(g, s.a[i]);
        l := l[i := w];
      }
      assert l == seq(|s.a|, i requires 0 <= i < |s.a| => Folded(g, s.a[i]));
      return Arr(l);
    } else if k in MORE_SINGLES {
      v := FoldNullable(g, s);
    } else {
      v := s;
    }
  }

  lemma KindsApart(k: string)
    ensures k in MORE_SINGLES ==> k !in TABLES && k !in LISTS
  {
  }

  method FoldNullable(g: Given, s: Json) returns (out: Json)
    ensures out == Folded(g, s)
    decreases s, 1
  {
    if !s.Obj? { return s; }
    var o := new SchemaObject(g, s.m);
    o.FoldOwn();
    o.VisitAll(s.m);
    FoldKind(g, s);
    out := Obj(o.m);
  }

  // ---------------------------------------------------------------- schemas reached by reference

  /** The component schemas that the schemas gone through refer to. */
  function Mentioned(g: Given, s: Json): set<string>
    decreases s, 1
  {
    match s
    case Obj(m) => OwnMentioned(g, m) + set k, x | k in m && x in MentionedAt(g, m, k) :: x
    case _ => {}
  }

  function OwnMentioned(g: Given, m: map<string, Json>): set<string> {
    match RefOf(Obj(FoldHere(g, m)))
    case Some(ref) => if ToComponent(ref) then {ComponentOf(ref)} else {}
    case None => {}
  }

  function MentionedAt(g: Given, m: map<string, Json>, k: string): set<string>
    requires k in m
    decreases Obj(m), 0
  {
    if k in TABLES && m[k].Obj? then set n, x | n in m[k].m && x in Mentioned(g, m[k].m[n]) :: x
    else if k in TABLES + LISTS && m[k].Arr? then set i, x | 0 <= i < |m[k].a| && x in Mentioned(g, m[k].a[i]) :: x
    else if k in MORE_SINGLES then Mentioned(g, m[k])
    else {}
  }

  /** Every reference to a component schema, from the document or from one of those, leads to one of them. */
  predicate Reached(g: Given, root: Json, ns: set<string>) {
    Mentioned(g, root) <= ns && forall n :: n in ns && n in Components(root) ==> Mentioned(g, Components(root)[n]) <= ns
  }

  lemma {:induction false} NullableNarrow(g: Given, s: Json, all: set<string>, ns: set<string>)
    requires Nullable(g, s, all) && Mentioned(g, s) <= ns
    ensures Nullable(g, s, ns)
    decreases s, 1
  {
    hide MentionedAt, NullableAt, OwnMentioned;
    if s.Obj? {
      forall k | k in s.m ensures NullableAt(g, s.m, k, ns) {
        assert MentionedAt(g, s.m, k) <= ns;
        NarrowAt(g, s.m, k, all, ns);
      }
    }
  }

  lemma {:induction false} NarrowAt(g: Given, m: map<string, Json>, k: string, all: set<string>, ns: set<string>)
    requires k in m && NullableAt(g, m, k, all) && MentionedAt(g, m, k) <= ns && OwnMentioned(g, m) <= ns
    ensures NullableAt(g, m, k, ns)
    decreases Obj(m), 0
  {
    hide Nullable, Mentioned, Known, TABLES, LISTS, MORE_SINGLES, ToDefinition, ToComponent, FoldType;
    WalkSets();
    Kinds(k);
    if k in SCHEMA_MAPS + DEFINITIONS {
      forall n | n in m[k].m ensures Nullable(g, m[k].m[n], ns) { NullableNarrow(g, m[k].m[n], all, ns); }
    } else if k in SCHEMA_LISTS {
      forall i | 0 <= i < |m[k].a| ensures Nullable(g, m[k].a[i], ns) { NullableNarrow(g, m[k].a[i], all, ns); }
    } else if k in ONE_SCHEMA {
      NullableNarrow(g, m[k], all, ns);
    } else if k == "$ref" {
      TypeKeepsRef(m);
    }
  }

  lemma ReachedEnough(g: Given, root: Json, all: set<string>, ns: set<string>)
    requires NullableDocument(g, root, all) && Components(root).Keys <= all && Reached(g, root, ns)
    ensures NullableDocument(g, root, ns)
  {
    hide Nullable, Mentioned;
    NullableNarrow(g, root, all, ns);
    forall n | n in ns && n in Components(root) ensures Nullable(g, Components(root)[n], ns) {
      NullableNarrow(g, Components(root)[n], all, ns);
    }
  }

  /** Every reference leads to a name gone through or still to be, and all of these have to be gone through. */
  ghost predicate Underway(g: Given, root: Json, ns: set<string>, todo: set<string>) {
    && Mentioned(g, root) <= ns + todo && (forall n :: n in ns && n in Components(root) ==> Mentioned(g, Components(root)[n]) <= ns + todo)
    && forall all :: Reached(g, root, all) ==> ns + todo <= all
  }

  ghost function EveryName(g: Given, root: Json): set<string> {
    Mentioned(g, root) + set n, x | n in Components(root) && x in Mentioned(g, Components(root)[n]) :: x
  }

  lemma Begun(g: Given, root: Json)
    ensures Underway(g, root, {}, Mentioned(g, root)) && Mentioned(g, root) <= EveryName(g, root) && FoldedComponents(g, root, {}) == Components(root)
  {
    hide Mentioned, Components, Folded;
  }

  function Leads(g: Given, root: Json, n: string): set<string> { if n in Components(root) then Mentioned(g, Components(root)[n]) else {} }

  /** One name more, and the names it leads to. */
  lemma OneMore(g: Given, root: Json, ns: set<string>, todo: set<string>, n: string)
    requires Underway(g, root, ns, todo) && n in todo && n !in ns && ns + todo <= EveryName(g, root)
    ensures Underway(g, root, ns + {n}, todo - {n} + Leads(g, root, n)) && ns + {n} + (todo - {n} + Leads(g, root, n)) <= EveryName(g, root)
    ensures |EveryName(g, root) - (ns + {n})| < |EveryName(g, root) - ns|
  {
    hide Mentioned, Components, Reached, EveryName, Underway, Leads;
    var every, more := EveryName(g, root), Leads(g, root, n);
    OneFewer(every, ns, n);
    LeadsWithin(g, root, n);
    OneMoved(ns, todo, more, n);
    UnderwayMore(g, root, ns, todo, n, ns + {n}, todo - {n} + more);
  }

  lemma OneMoved(ns: set<string>, todo: set<string>, more: set<string>, n: string)
    requires n in todo
    ensures ns + {n} + (todo - {n} + more) == ns + todo + more
  {
  }

  lemma UnderwayMore(g: Given, root: Json, ns: set<string>, todo: set<string>, n: string, a: set<string>, b: set<string>)
    requires Underway(g, root, ns, todo) && n in todo && a == ns + {n} && a + b == ns + todo + Leads(g, root, n)
    ensures Underway(g, root, a, b)
  {
    hide Mentioned, Components, Reached;
    forall all | Reached(g, root, all) ensures a + b <= all { LeadsReached(g, root, all, n); }
    forall k | k in a && k in Components(root) ensures Mentioned(g, Components(root)[k]) <= a + b {
      if k == n { assert Leads(g, root, n) == Mentioned(g, Components(root)[k]); } else { assert k in ns; }
    }
  }

  lemma LeadsWithin(g: Given, root: Json, n: string)
    ensures Leads(g, root, n) <= EveryName(g, root)
  {
    hide Mentioned, Components;
  }

  lemma LeadsReached(g: Given, root: Json, all: set<string>, n: string)
    requires Reached(g, root, all) && n in all
    ensures Leads(g, root, n) <= all
  {
    hide Mentioned, Components;
  }

  lemma OneMoreFolded(g: Given, root: Json, ns: set<string>, n: string)
    requires n !in ns
    ensures FoldedComponents(g, root, ns + {n})
         == if n in Components(root) then FoldedComponents(g, root, ns)[n := Folded(g, Components(root)[n])] else FoldedComponents(g, root, ns)
  {
    hide Components, Folded;
  }

  lemma OneFewer(every: set<string>, ns: set<string>, n: string)
    requires n in every && n !in ns
    ensures |every - (ns + {n})| < |every - ns|
  {
    assert every - (ns + {n}) == (every - ns) - {n} && n in every - ns;
    SmallerBy(every - ns, n);
  }

  lemma SmallerBy(s: set<string>, x: string)
    requires x in s
    ensures |s - {x}| < |s|
  {
  }

  /**
   The walk over the document, then over each component schema that a schema gone through refers to, once:
   exactly those are gone through that references lead to.
   */
  method NormalizeNullable(g: Given, root: Json) returns (out: Json, ns: set<string>)
    ensures out == Normal(g, root, ns) && Reached(g, root, ns)
    ensures forall all :: Reached(g, root, all) ==> ns <= all
  {
    hide Folded, Mentioned, FoldedComponents, Underway, EveryName, Components;
    var first := FoldNullable(g, root);
    var table := Components(root);
    ns := {};
    var todo, cur := Mentioned(g, root), table;
    Begun(g, root);
    while todo != {}
      invariant cur == FoldedComponents(g, root, ns) && Underway(g, root, ns, todo) && ns + todo <= EveryName(g, root)
      decreases |EveryName(g, root) - ns|, |todo|
    {
      var n :| n in todo;
      if n in ns {
        OneLess(g, root, ns, todo, n);
        todo := todo - {n};
      } else {
        OneMore(g, root, ns, todo, n);
        OneMoreFolded(g, root, ns, n);
        todo := todo - {n} + Leads(g, root, n);
        if n in table {
          var w := FoldNullable(g, table[n]);
          cur := cur[n := w];
        }
        ns := ns + {n};
      }
    }
    Finished(g, root, ns);
    FoldKind(g, root);
    if HasComponents(root) {
      ComponentsStay(g, root.m);
      out := Obj(PutComponents(first.m, cur));
    } else {
      out := first;
    }
  }

  lemma OneLess(g: Given, root: Json, ns: set<string>, todo: set<string>, n: string)
    requires Underway(g, root, ns, todo) && n in todo && n in ns
    ensures Underway(g, root, ns, todo - {n})
  {
    hide Mentioned, Components;
    assert ns + (todo - {n}) == ns + todo;
  }

  lemma Finished(g: Given, root: Json, ns: set<string>)
    requires Underway(g, root, ns, {})
    ensures Reached(g, root, ns) && forall all :: Reached(g, root, all) ==> ns <= all
  {
    hide Mentioned, Components;
    assert ns + {} == ns;
  }
}
