/** Two ways of reading documents that ask the same of every value. */
module Similar {
  import opened Json
  import opened Schemas

  /** Documents read against a root. */
  datatype View = View(g: Given, root: Json)

  type Relation = (Json, Json) -> bool

  ghost predicate PartsRelated(rel: Relation, p: Part, q: Part) {
    match p
    case NoPart => q.NoPart?
    case Part(s, v) => q.Part? && q.v == v && rel(s, q.s)
  }

  /** The two objects decide alike by themselves, and apply related schemas to the same parts. */
  ghost predicate ObjectsRelated(x: View, y: View, rel: Relation, m: map<string, Json>, n: map<string, Json>, v: Json) {
    && LocalOk(x.g, m, v) == LocalOk(y.g, n, v)
    && MinContains(x.g, m) == MinContains(y.g, n) && MaxContains(x.g, m) == MaxContains(y.g, n)
    && (forall k :: k in {"anyOf", "oneOf"} ==> (ListOf(x.g, m, k).Some? <==> ListOf(y.g, n, k).Some?))
    && (forall k :: k in {"contains", "not", "if", "then", "else"} ==> (Reads(x.g, m, k) <==> Reads(y.g, n, k)))
    && forall w :: PartsRelated(rel, PartAt(x.g, m, v, w), PartAt(y.g, n, v, w))
  }

  /** The references lead to related schemas, or neither leads anywhere. */
  ghost predicate RefsRelated(x: View, y: View, rel: Relation, m: map<string, Json>, n: map<string, Json>) {
    match RefOf(Obj(m))
    case None => RefOf(Obj(n)).None?
    case Some(ref) =>
      && RefOf(Obj(n)) == Some(ref)
      && match Lookup(x.g, x.root, ref)
         case None => Lookup(y.g, y.root, ref).None? && forall v :: x.g.external(ref, v) == y.g.external(ref, v)
         case Some(t) => Lookup(y.g, y.root, ref).Some? && rel(t, Lookup(y.g, y.root, ref).value)
  }

  ghost predicate Related(x: View, y: View, rel: Relation, s: Json, t: Json) {
    if s.Obj? then t.Obj? && RefsRelated(x, y, rel, s.m, t.m) && forall v :: ObjectsRelated(x, y, rel, s.m, t.m, v)
    else s == t
  }

  /** The relation carries over to whatever a related pair applies or refers to. */
  ghost predicate Simulates(x: View, y: View, rel: Relation) {
    forall s, t :: rel(s, t) ==> Related(x, y, rel, s, t)
  }

  /** Related schemas accept, and refuse, the same values. */
  lemma {:induction false} SimilarExact(x: View, y: View, rel: Relation, s: Json, t: Json, v: Json, f: nat, want: bool)
    requires Simulates(x, y, rel) && rel(s, t)
    ensures Decided(x.g, x.root, s, v, f, want) <==> Decided(y.g, y.root, t, v, f, want)
    decreases f, s, 1
  {
    hide Decided, PartAt, LocalOk, RefsRelated, Lookup;
    assert Related(x, y, rel, s, t);
    if s.Obj? {
      var m, n := s.m, t.m;
      assert ObjectsRelated(x, y, rel, m, n, v);
      forall w, q ensures On(x.g, x.root, m, v, w, f, q) <==> On(y.g, y.root, n, v, w, f, q) {
        assert PartsRelated(rel, PartAt(x.g, m, v, w), PartAt(y.g, n, v, w));
        if PartAt(x.g, m, v, w).Part? {
          SimilarExact(x, y, rel, PartAt(x.g, m, v, w).s, PartAt(y.g, n, v, w).s, PartAt(x.g, m, v, w).v, f, q);
        }
      }
      SimilarRefs(x, y, rel, m, n, v, f, want);
      RelatedAlike(x, y, rel, m, n, v);
      BothWays(Reading(x.g, x.root, m), Reading(y.g, y.root, n), v, f, want);
    } else {
      BoolDecides(x.g, x.root, s, v, f, want);
      BoolDecides(y.g, y.root, t, v, f, want);
    }
  }

  lemma {:induction false} SimilarRefs(x: View, y: View, rel: Relation, m: map<string, Json>, n: map<string, Json>, v: Json, f: nat, want: bool)
    requires Simulates(x, y, rel) && RefsRelated(x, y, rel, m, n)
    ensures RefOn(x.g, x.root, m, v, f, want) <==> RefOn(y.g, y.root, n, v, f, want)
    decreases f, Obj(m), 0
  {
    hide Decided, Lookup, Simulates;
    if RefOf(Obj(m)).Some? && Lookup(x.g, x.root, RefOf(Obj(m)).value).Some? && f > 0 {
      var ref := RefOf(Obj(m)).value;
      SimilarExact(x, y, rel, Lookup(x.g, x.root, ref).value, Lookup(y.g, y.root, ref).value, v, f - 1, want);
    }
  }

  lemma RelatedAlike(x: View, y: View, rel: Relation, m: map<string, Json>, n: map<string, Json>, v: Json)
    requires ObjectsRelated(x, y, rel, m, n, v)
    ensures var a, b := Reading(x.g, x.root, m), Reading(y.g, y.root, n); Alike(a, b, v) && Alike(b, a, v)
  {
    hide LocalOk, PartAt, ListOf, Reads, MinContains, MaxContains;
    forall w ensures PartAt(x.g, m, v, w).Part? <==> PartAt(y.g, n, v, w).Part? {
      assert PartsRelated(rel, PartAt(x.g, m, v, w), PartAt(y.g, n, v, w));
    }
  }

  // ---------------------------------------------------------------- objects of the same shape

  const FIXED := {"required", "enum", "const", "dependentRequired", "minContains", "maxContains", "$ref"}

  ghost predicate EqualAt(m: map<string, Json>, n: map<string, Json>, k: string) {
    (k in m <==> k in n) && (k in m ==> m[k] == n[k])
  }

  ghost predicate SchemaShape(rel: Relation, m: map<string, Json>, n: map<string, Json>, k: string) {
    (k in m <==> k in n) && (k in m ==> rel(m[k], n[k]))
  }

  ghost predicate ListShape(rel: Relation, m: map<string, Json>, n: map<string, Json>, k: string) {
    && (k in m <==> k in n)
    && (k in m ==> m[k].Arr? && n[k].Arr? && |m[k].a| == |n[k].a| && forall i :: 0 <= i < |m[k].a| ==> rel(m[k].a[i], n[k].a[i]))
  }

  ghost predicate TableShape(rel: Relation, m: map<string, Json>, n: map<string, Json>, k: string) {
    && (k in m <==> k in n)
    && (k in m ==> m[k].Obj? && n[k].Obj? && m[k].m.Keys == n[k].m.Keys && forall p :: p in m[k].m ==> rel(m[k].m[p], n[k].m[p]))
  }

  /** The same keywords, with the same values or related schemas, but for `type`, `nullable` and the bounds. */
  ghost predicate Shape(rel: Relation, m: map<string, Json>, n: map<string, Json>) {
    && (forall k :: k in FIXED || !Known(k) ==> EqualAt(m, n, k))
    && (forall k :: k in ONE_SCHEMA ==> SchemaShape(rel, m, n, k))
    && (forall k :: k in SCHEMA_LISTS ==> ListShape(rel, m, n, k))
    && (forall k :: k in SCHEMA_MAPS ==> TableShape(rel, m, n, k))
  }

  /** Both read as 2020-12, one with `nullable` perhaps. */
  ghost predicate SameDraft(g: Given, h: Given) { g.dialect.Draft2020? && h == g.(nullable := h.nullable) }

  lemma ShapeReads(g: Given, h: Given, rel: Relation, m: map<string, Json>, n: map<string, Json>, k: string)
    requires SameDraft(g, h) && Shape(rel, m, n)
    ensures RefOf(Obj(m)) == RefOf(Obj(n)) && ((k in m <==> k in n) ==> (Reads(g, m, k) <==> Reads(h, n, k)))
  {
    hide Known;
    assert "$ref" in FIXED;
    assert EqualAt(m, n, "$ref");
  }

  lemma ShapeList(g: Given, h: Given, rel: Relation, m: map<string, Json>, n: map<string, Json>, k: string)
    requires SameDraft(g, h) && Shape(rel, m, n) && k in SCHEMA_LISTS
    ensures ListOf(g, m, k).Some? <==> ListOf(h, n, k).Some?
    ensures List(m, k).Some? <==> List(n, k).Some?
    ensures ListOf(g, m, k).Some? ==> |ListOf(g, m, k).value| == |ListOf(h, n, k).value|
    ensures ListOf(g, m, k).Some? ==> forall i :: 0 <= i < |ListOf(g, m, k).value| ==> rel(ListOf(g, m, k).value[i], ListOf(h, n, k).value[i])
  {
    hide Known, Reads;
    ShapeReads(g, h, rel, m, n, k);
    ReadsThere(g, m, k);
    ReadsThere(h, n, k);
    assert ListShape(rel, m, n, k);
  }

  lemma ShapeTable(g: Given, h: Given, rel: Relation, m: map<string, Json>, n: map<string, Json>, k: string)
    requires SameDraft(g, h) && Shape(rel, m, n) && k in SCHEMA_MAPS
    ensures var a, b := TableOf(g, m, k), TableOf(h, n, k); a.Keys == b.Keys && forall p :: p in a ==> rel(a[p], b[p])
  {
    hide Known, Reads;
    assert TableShape(rel, m, n, k);
    ShapeReads(g, h, rel, m, n, k);
    ReadsThere(g, m, k);
    ReadsThere(h, n, k);
  }

  lemma ShapeSchema(g: Given, h: Given, rel: Relation, m: map<string, Json>, n: map<string, Json>, k: string)
    requires SameDraft(g, h) && Shape(rel, m, n) && k in ONE_SCHEMA
    ensures Reads(g, m, k) <==> Reads(h, n, k)
    ensures Reads(g, m, k) ==> k in m && k in n && rel(m[k], n[k])
  {
    hide Known, Reads;
    assert SchemaShape(rel, m, n, k);
    ReadsThere(g, m, k);
    ShapeReads(g, h, rel, m, n, k);
  }

  lemma ShapeNamed(g: Given, h: Given, rel: Relation, m: map<string, Json>, n: map<string, Json>, k: string)
    requires SameDraft(g, h) && Shape(rel, m, n)
    ensures Named(g, m, k) == Named(h, n, k)
  {
    hide Known, TableOf, Shape;
    ShapeTable(g, h, rel, m, n, "properties");
    ShapeTable(g, h, rel, m, n, "patternProperties");
    var a, b := TableOf(g, m, "patternProperties"), TableOf(h, n, "patternProperties");
    assert forall p :: p in a <==> p in b;
  }

  lemma ShapeDependent(g: Given, h: Given, rel: Relation, m: map<string, Json>, n: map<string, Json>, k: string)
    requires SameDraft(g, h) && Shape(rel, m, n)
    ensures DependentOf(g, m, k).Some? <==> DependentOf(h, n, k).Some?
    ensures DependentOf(g, m, k).Some? ==> rel(DependentOf(g, m, k).value, DependentOf(h, n, k).value)
  {
    hide Known, Reads, Shape;
    ShapeTable(g, h, rel, m, n, "dependentSchemas");
  }

  /** Objects of the same shape apply related schemas to the same parts. */
  lemma ShapeParts(g: Given, h: Given, rel: Relation, m: map<string, Json>, n: map<string, Json>, v: Json, w: Where)
    requires SameDraft(g, h) && Shape(rel, m, n)
    ensures PartsRelated(rel, PartAt(g, m, v, w), PartAt(h, n, v, w))
  {
    hide Shape, Reads, TableOf, ListOf, Named, DependentOf, Known;
    match w
    case AtProperty(k) => TablePart(g, h, rel, m, n, v, w);
    case AtPattern(p, k) => TablePart(g, h, rel, m, n, v, w);
    case AtMore(k) =>
      ShapeSchema(g, h, rel, m, n, "additionalProperties");
      ShapeNamed(g, h, rel, m, n, k);
    case AtName(k) => ShapeSchema(g, h, rel, m, n, "propertyNames");
    case AtPrefix(i) => PositionParts(g, h, rel, m, n, v, w);
    case AtItem(i) => PositionParts(g, h, rel, m, n, v, w);
    case AtDependent(k) => ShapeDependent(g, h, rel, m, n, k);
    case AtAll(i) => ShapeListPart(g, h, rel, m, n, v, "allOf", i);
    case AtAny(i) => ShapeListPart(g, h, rel, m, n, v, "anyOf", i);
    case AtOne(i) => ShapeListPart(g, h, rel, m, n, v, "oneOf", i);
    case AtContains(i) => ShapeSchema(g, h, rel, m, n, "contains");
    case AtNot => OneParts(g, h, rel, m, n, v, "not");
    case AtIf => OneParts(g, h, rel, m, n, v, "if");
    case AtThen => ShapeSchema(g, h, rel, m, n, "if"); OneParts(g, h, rel, m, n, v, "then");
    case AtElse => ShapeSchema(g, h, rel, m, n, "if"); OneParts(g, h, rel, m, n, v, "else");
  }

  lemma TablePart(g: Given, h: Given, rel: Relation, m: map<string, Json>, n: map<string, Json>, v: Json, w: Where)
    requires SameDraft(g, h) && Shape(rel, m, n) && (w.AtProperty? || w.AtPattern?)
    ensures PartsRelated(rel, PartAt(g, m, v, w), PartAt(h, n, v, w))
  {
    hide Shape, Reads, Known;
    ShapeTable(g, h, rel, m, n, "properties");
    ShapeTable(g, h, rel, m, n, "patternProperties");
  }

  lemma ShapeListPart(g: Given, h: Given, rel: Relation, m: map<string, Json>, n: map<string, Json>, v: Json, k: string, i: nat)
    requires SameDraft(g, h) && Shape(rel, m, n) && k in SCHEMA_LISTS
    ensures PartsRelated(rel, ListPart(g, m, v, k, i), ListPart(h, n, v, k, i))
  {
    hide Shape, Reads, Known;
    ShapeList(g, h, rel, m, n, k);
  }

  lemma PositionParts(g: Given, h: Given, rel: Relation, m: map<string, Json>, n: map<string, Json>, v: Json, w: Where)
    requires SameDraft(g, h) && Shape(rel, m, n) && (w.AtPrefix? || w.AtItem?)
    ensures PartsRelated(rel, PartAt(g, m, v, w), PartAt(h, n, v, w))
  {
    hide Shape, Reads, Known, ListOf;
    ShapeList(g, h, rel, m, n, "prefixItems");
    ShapeSchema(g, h, rel, m, n, "items");
  }

  lemma OneParts(g: Given, h: Given, rel: Relation, m: map<string, Json>, n: map<string, Json>, v: Json, k: string)
    requires SameDraft(g, h) && Shape(rel, m, n) && k in ONE_SCHEMA
    ensures PartsRelated(rel, OnePart(g, m, v, k), OnePart(h, n, v, k))
  {
    hide Shape, Reads, Known;
    ShapeSchema(g, h, rel, m, n, k);
  }

  /** The keywords a shape leaves open: the type with `nullable`, and the bounds. */
  ghost predicate OpenSame(g: Given, h: Given, m: map<string, Json>, n: map<string, Json>, v: Json) {
    && ((Reads(g, m, "type") ==> Schemas.TypeOk(m["type"], v) || NullToo(g, m, v)) <==> (Reads(h, n, "type") ==> Schemas.TypeOk(n["type"], v) || NullToo(h, n, v)))
    && (v.Num? ==> BoundsOk(g, m, v.n) == BoundsOk(h, n, v.n))
  }

  lemma ShapeLocal(g: Given, h: Given, rel: Relation, m: map<string, Json>, n: map<string, Json>, v: Json)
    requires SameDraft(g, h) && Shape(rel, m, n) && OpenSame(g, h, m, n, v)
    ensures LocalOk(g, m, v) == LocalOk(h, n, v)
    ensures MinContains(g, m) == MinContains(h, n) && MaxContains(g, m) == MaxContains(h, n)
  {
    hide Shape, Known, TypeOk, BoundsOk, NullToo, NamesPresent, Rest;
    forall k | k in FIXED || !Known(k) ensures ReadsAlike(g, m, h, n, k) { ShapeFixed(g, h, rel, m, n, k); }
    RestSame(g, m, h, n);
    assert ReadsAlike(g, m, h, n, "required") && ReadsAlike(g, m, h, n, "enum") && ReadsAlike(g, m, h, n, "const") && ReadsAlike(g, m, h, n, "dependentRequired");
    ShapeCounts(g, h, rel, m, n);
  }

  lemma ShapeCounts(g: Given, h: Given, rel: Relation, m: map<string, Json>, n: map<string, Json>)
    requires SameDraft(g, h) && Shape(rel, m, n)
    ensures MinContains(g, m) == MinContains(h, n) && MaxContains(g, m) == MaxContains(h, n)
  {
    hide Known, Reads;
    assert EqualAt(m, n, "minContains") && EqualAt(m, n, "maxContains");
  }

  lemma ShapeFixed(g: Given, h: Given, rel: Relation, m: map<string, Json>, n: map<string, Json>, k: string)
    requires SameDraft(g, h) && Shape(rel, m, n) && (k in FIXED || !Known(k))
    ensures ReadsAlike(g, m, h, n, k)
  {
    hide Known;
    assert EqualAt(m, n, k);
    ShapeReads(g, h, rel, m, n, k);
  }

  /** So a shape, with the open keywords alike, relates the objects. */
  lemma ShapeRelated(x: View, y: View, rel: Relation, m: map<string, Json>, n: map<string, Json>, v: Json)
    requires SameDraft(x.g, y.g) && Shape(rel, m, n) && OpenSame(x.g, y.g, m, n, v)
    ensures ObjectsRelated(x, y, rel, m, n, v)
  {
    hide Shape, LocalOk, PartAt, Reads, ListOf, MinContains, MaxContains, OpenSame, PartsRelated;
    ShapeLocal(x.g, y.g, rel, m, n, v);
    ShapeList(x.g, y.g, rel, m, n, "anyOf");
    ShapeList(x.g, y.g, rel, m, n, "oneOf");
    ShapeSchema(x.g, y.g, rel, m, n, "contains");
    ShapeSchema(x.g, y.g, rel, m, n, "not");
    ShapeSchema(x.g, y.g, rel, m, n, "if");
    ShapeSchema(x.g, y.g, rel, m, n, "then");
    ShapeSchema(x.g, y.g, rel, m, n, "else");
    forall w ensures PartsRelated(rel, PartAt(x.g, m, v, w), PartAt(y.g, n, v, w)) { ShapeParts(x.g, y.g, rel, m, n, v, w); }
  }

  // ---------------------------------------------------------------- references to definitions

  lemma EntryRelated(g: Given, rel: Relation, t: map<string, Json>, n: map<string, Json>, segs: seq<string>)
    requires |segs| == 1 && t.Keys == n.Keys && forall k :: k in t ==> rel(t[k], n[k])
    ensures match Descend(g, Obj(t), segs)
            case None => Descend(g, Obj(n), segs).None?
            case Some(s) => Descend(g, Obj(n), segs).Some? && rel(s, Descend(g, Obj(n), segs).value)
  {
    hide Unescaped;
    assert segs[1..] == [];
    assert forall x :: Descend(g, x, []) == Some(x);
  }

  /** A reference to a definition leads to related schemas where the tables of definitions are related. */
  lemma LookupRelated(x: View, y: View, rel: Relation, ref: string)
    requires y.g == x.g.(nullable := y.g.nullable) && Decodes(x.g) && ToDefinition(ref) && rel(x.root, y.root)
    requires if x.root.Obj? then y.root.Obj? && forall k :: k in DEFINITIONS ==> TableShape(rel, x.root.m, y.root.m, k) else x.root == y.root && x.root.Bool?
    ensures match Lookup(x.g, x.root, ref)
            case None => Lookup(y.g, y.root, ref).None?
            case Some(s) => Lookup(y.g, y.root, ref).Some? && rel(s, Lookup(y.g, y.root, ref).value)
  {
    hide Descend, SplitAt;
    if ref != "#" && IsPointer(ref) {
      var segs := SplitAt(ref[2..], '/');
      if x.root.Obj? {
        var m, n := x.root.m, y.root.m;
        LookupDefinition(x.g, m, ref);
        LookupDefinition(y.g, n, ref);
        TableNames(segs[0]);
        assert TableShape(rel, m, n, segs[0]) && TableShape(rel, m, n, OtherTable(segs[0]));
        if DefTable(m, segs[0]).Some? {
          var t, u := DefTable(m, segs[0]).value, DefTable(n, segs[0]).value;
          DescendGiven(x.g, y.g, u, segs[1..]);
          EntryRelated(x.g, rel, t.m, u.m, segs[1..]);
        }
      } else {
        BoolRoot(x.g, x.root.b, ref);
        BoolRoot(y.g, x.root.b, ref);
      }
    }
  }

  lemma BoolRoot(g: Given, b: bool, ref: string)
    requires IsPointer(ref)
    ensures Lookup(g, Bool(b), ref).None?
  {
    hide SplitAt, Unescaped;
    assert SplitAt(ref[2..], '/') != [];
  }
}
