/**
 Whether the copy behind parse() is itself accepted (lib/clone-emit.js:172-414). It is where the objects
 and arrays that are rebuilt have no keyword about a whole value; one such keyword is enough to break it.
 */
module CloneAccepted {
  import opened Json
  import opened Schemas
  import opened CloneEmit
  import opened CloneFacts
  import opened CloneWitness
  import Inline

  // ---------------------------------------------------------------- which schemas

  const OBJECT_WORDS := {"type", "properties", "required", "additionalProperties"} + NOTES
  const ARRAY_WORDS := {"type", "items"} + NOTES

  /**
   Every object that is rebuilt has these keywords and no others, every array that is rebuilt those; what is
   copied whole may have any.
   */
  predicate Tame(s: Json)
    decreases s, 1
  {
    if !s.Obj? || IsTuple(s.m) || PrimitiveOnly(s) || "instanceof" in s.m then true
    else if HasTypeName(s.m, "object") && Recordable(s.m) then TameObject(s.m)
    else s.m.Keys <= ARRAY_WORDS && ("items" in s.m ==> TameItem(s.m["items"]))
  }

  predicate TameItem(it: Json)
    decreases it, 1
  {
    it.Obj? && !PrimitiveOnly(it) ==> TameObject(it.m)
  }

  predicate TameObject(m: map<string, Json>)
    decreases Obj(m), 0
  {
    && m.Keys <= OBJECT_WORDS && (forall k :: k in PropsOf(m) ==> Tame(PropsOf(m)[k]))
    && (IsRecord(m) ==> Tame(m["additionalProperties"]))
  }

  // ---------------------------------------------------------------- one object, one array

  /** Accepted so far, with so many references followed in a row. */
  ghost predicate AllMeet(g: Given, root: Json, m: map<string, Json>, c: map<string, Json>, ks: set<string>, f: nat) {
    forall k :: k in ks && k in c && (k in PropsOf(m) || IsRecord(m)) ==> Decided(g, root, SchemaAt(m, k), c[k], f, true)
  }

  lemma AllMeetMore(g: Given, root: Json, m: map<string, Json>, c: map<string, Json>, ks: set<string>, f: nat, more: nat)
    requires AllMeet(g, root, m, c, ks, f) && f <= more
    ensures AllMeet(g, root, m, c, ks, more)
  {
    hide Decided;
    forall k | k in ks && k in c && (k in PropsOf(m) || IsRecord(m)) ensures Decided(g, root, SchemaAt(m, k), c[k], more, true) {
      DecidedMore(g, root, SchemaAt(m, k), c[k], f, more, true);
    }
  }

  /** An object with the required names whose members are all accepted, none undeclared but under a record schema. */
  lemma ObjectAccepted(g: Given, root: Json, m: map<string, Json>, c: map<string, Json>, f: nat)
    requires Latest(g) && m.Keys <= OBJECT_WORDS && HasTypeName(m, "object")
    requires List(m, "required").Some? ==> NamesPresent(m["required"].a, Obj(c))
    requires forall k :: k in c ==> k in PropsOf(m) || IsRecord(m)
    requires AllMeet(g, root, m, c, c.Keys, f)
    ensures Decided(g, root, Obj(m), Obj(c), f, true)
  {
    hide Decided, Accepts, Refuses, LocalOk, PartAt, OBJECT_WORDS, FEW, NamesPresent, TypeOk;
    ObjectFew(m);
    assert TypeOk(m["type"], Obj(c)) by { TypedObject(c); }
    FewKeywords(g, root, m, Obj(c), f);
    FewLocal(g, m, Obj(c));
    forall w | PartAt(g, m, Obj(c), w).Part? ensures On(g, root, m, Obj(c), w, f, true) { FewParts(g, m, Obj(c), w); }
    assert EveryOn(g, root, m, Obj(c), f);
    ObjectDecided(g, root, m, Obj(c), f, true);
  }

  lemma TypedObject(c: map<string, Json>)
    ensures TypeOk(Str("object"), Obj(c))
  {
  }

  lemma ObjectFew(m: map<string, Json>)
    requires m.Keys <= OBJECT_WORDS
    ensures m.Keys <= FEW && "const" !in m && "enum" !in m && "items" !in m
  {
    assert OBJECT_WORDS <= FEW;
  }

  /** An array whose elements are all accepted. */
  lemma ArrayAccepted(g: Given, root: Json, m: map<string, Json>, c: seq<Json>, f: nat)
    requires Latest(g) && m.Keys <= ARRAY_WORDS && HasTypeName(m, "array") && "items" in m
    requires forall i :: 0 <= i < |c| ==> Decided(g, root, m["items"], c[i], f, true)
    ensures Decided(g, root, Obj(m), Arr(c), f, true)
  {
    hide Decided, Accepts, Refuses, LocalOk, PartAt, ARRAY_WORDS, FEW, TypeOk;
    ArrayFew(m);
    assert TypeOk(m["type"], Arr(c)) by { TypedArray(c); }
    FewKeywords(g, root, m, Arr(c), f);
    FewLocal(g, m, Arr(c));
    forall w | PartAt(g, m, Arr(c), w).Part? ensures On(g, root, m, Arr(c), w, f, true) { FewParts(g, m, Arr(c), w); }
    assert EveryOn(g, root, m, Arr(c), f);
    ObjectDecided(g, root, m, Arr(c), f, true);
  }

  lemma TypedArray(c: seq<Json>)
    ensures TypeOk(Str("array"), Arr(c))
  {
  }

  lemma ArrayFew(m: map<string, Json>)
    requires m.Keys <= ARRAY_WORDS
    ensures m.Keys <= FEW && "const" !in m && "enum" !in m && "required" !in m
  {
    assert ARRAY_WORDS <= FEW;
  }

  // ---------------------------------------------------------------- the copy

  /** The copy of an accepted value is accepted by the same schema; `more` is the fuel its defaults may take. */
  lemma {:induction false} CopyAccepted(g: Given, p: Probes, root: Json, prop: Json, read: Access, depth: nat, left: int, v: Json, f: nat) returns (more: nat)
    requires EmitValue(g, p, prop, read, depth, left).Emitted? && Usable(g) && Sound(g, root, p) && Tame(prop)
    requires Decided(g, root, prop, v, f, true)
    ensures f <= more && Decided(g, root, prop, CopyValue(prop, v), more, true)
    decreases prop, 3
  {
    hide EmitClone, Decided, PrimitiveOnly, FlatTuple, Closed, CopyObject, TameObject, PartAt, Sound, ARRAY_WORDS;
    var m := prop.m;
    more := f;
    if IsTuple(m) || PrimitiveOnly(prop) || "instanceof" in m {
    } else if HasTypeName(m, "object") && Recordable(m) {
      AcceptedObject(g, root, m, v, f);
      more := CopyAcceptedObject(g, p, root, prop, read, depth + 1, left, v, f);
    } else {
      AcceptedArray(g, root, m, v, f);
      var it := m["items"];
      var c := seq(|v.a|, i requires 0 <= i < |v.a| => CopyItem(it, v.a[i]));
      var i: nat := 0;
      while i < |v.a|
        invariant i <= |v.a| && f <= more && forall j :: 0 <= j < i ==> Decided(g, root, it, c[j], more, true)
      {
        ItemPart(g, m, v, i);
        AcceptedPart(g, root, m, v, f, AtItem(i));
        var one := ItemAccepted(g, p, root, it, depth, left, v.a[i], f);
        var top := if one <= more then more else one;
        forall j | 0 <= j < i ensures Decided(g, root, it, c[j], top, true) { DecidedMore(g, root, it, c[j], more, top, true); }
        DecidedMore(g, root, it, c[i], one, top, true);
        more := top;
        i := i + 1;
      }
      ArrayAccepted(g, root, m, c, more);
    }
  }

  lemma {:induction false} ItemAccepted(g: Given, p: Probes, root: Json, it: Json, depth: nat, left: int, v: Json, f: nat) returns (more: nat)
    requires it.Obj? && (!PrimitiveOnly(it) ==> HasTypeName(it.m, "object") && Recordable(it.m) && EmitClone(g, p, it, AVar(El(depth)), depth + 1, left).Emitted?)
    requires Usable(g) && Sound(g, root, p) && TameItem(it) && Decided(g, root, it, v, f, true)
    ensures f <= more && Decided(g, root, it, CopyItem(it, v), more, true)
    decreases it, 3
  {
    hide EmitClone, Decided, PrimitiveOnly, Closed, CopyObject, TameObject, PartAt, Sound;
    more := f;
    if !PrimitiveOnly(it) {
      AcceptedObject(g, root, it.m, v, f);
      more := CopyAcceptedObject(g, p, root, it, AVar(El(depth)), depth + 1, left, v, f);
    }
  }

  lemma {:induction false} CopyAcceptedObject(g: Given, p: Probes, root: Json, node: Json, a: Access, depth: nat, left: int, v: Json, f: nat) returns (more: nat)
    requires EmitClone(g, p, node, a, depth, left).Emitted? && Usable(g) && Sound(g, root, p) && TameObject(node.m)
    requires Decided(g, root, node, v, f, true) && v.Obj?
    ensures f <= more && Decided(g, root, node, Obj(CopyObject(node.m, v.m)), more, true)
    decreases node, 2
  {
    hide Decided, PartAt, EmitValue, EmitFields, Tame, CopyObject, CopyValue, PropsOf, IsRecord, Sound, Closed, AllMeet;
    var m := node.m;
    var c := CopyObject(m, v.m);
    more := f;
    var done, todo := {}, c.Keys;
    assert AllMeet(g, root, m, c, done, more) by { NoneMeet(g, root, m, c, more); }
    while todo != {}
      invariant done + todo == c.Keys && f <= more && AllMeet(g, root, m, c, done, more)
      decreases |todo|
    {
      var k :| k in todo;
      var one := MemberAccepted(g, p, root, node, a, depth, left, v, f, k);
      var top := if one <= more then more else one;
      AllMeetMore(g, root, m, c, done, more, top);
      OneMeets(g, root, m, c, done, k, one, top);
      more, done, todo := top, done + {k}, todo - {k};
    }
    assert done == c.Keys;
    CopiedNames(g, p, root, node, a, depth, left, v, f);
    ObjectAccepted(g, root, m, c, more);
  }

  lemma NoneMeet(g: Given, root: Json, m: map<string, Json>, c: map<string, Json>, f: nat)
    ensures AllMeet(g, root, m, c, {}, f)
  {
  }

  lemma OneMeets(g: Given, root: Json, m: map<string, Json>, c: map<string, Json>, done: set<string>, k: string, f: nat, top: nat)
    requires AllMeet(g, root, m, c, done, top) && f <= top && k in c && (k in PropsOf(m) || IsRecord(m)) && Decided(g, root, SchemaAt(m, k), c[k], f, true)
    ensures AllMeet(g, root, m, c, done + {k}, top)
  {
    hide Decided;
    DecidedMore(g, root, SchemaAt(m, k), c[k], f, top, true);
  }

  /** A member of the copy: the copy of the value's, or a default that was probed. */
  lemma {:induction false} MemberAccepted(g: Given, p: Probes, root: Json, node: Json, a: Access, depth: nat, left: int, v: Json, f: nat, k: string) returns (more: nat)
    requires EmitClone(g, p, node, a, depth, left).Emitted? && Usable(g) && Sound(g, root, p) && TameObject(node.m)
    requires Decided(g, root, node, v, f, true) && v.Obj? && k in CopyObject(node.m, v.m)
    ensures k in PropsOf(node.m) || IsRecord(node.m)
    ensures f <= more && Decided(g, root, SchemaAt(node.m, k), CopyObject(node.m, v.m)[k], more, true)
    decreases node, 1
  {
    hide Decided, PartAt, EmitValue, EmitFields, RequiredNames, Tame, CopyValue, OBJECT_WORDS;
    var m := node.m;
    var ks := g.keys(PropsOf(m));
    assert Lists(ks, PropsOf(m));
    if k in PropsOf(m) {
      var read, l := FieldTaken(g, p, m, ks, a, depth, left, k);
      if k in v.m {
        PropertyPart(g, m, v, k);
        AcceptedPart(g, root, m, v, f, AtProperty(k));
        more := CopyAccepted(g, p, root, PropsOf(m)[k], read, depth, l, v.m[k], f);
      } else {
        var d := DefaultOf(PropsOf(m)[k]).value;
        DefaultProbed(g, p, m, ks, a, depth, left, k);
        var f': nat :| Decided(g, root, PropsOf(m)[k], d, f', true);
        more := if f <= f' then f' else f;
        DecidedMore(g, root, PropsOf(m)[k], d, f', more, true);
      }
    } else {
      var l := EmitFields(g, p, m, ks, a, depth, left).left;
      MorePart(g, m, v, k);
      AcceptedPart(g, root, m, v, f, AtMore(k));
      more := CopyAccepted(g, p, root, m["additionalProperties"], AVar(Val(depth)), depth, l, v.m[k], f);
    }
  }

  /** The copy has the required names, and no undeclared one but under a record schema. */
  lemma CopiedNames(g: Given, p: Probes, root: Json, node: Json, a: Access, depth: nat, left: int, v: Json, f: nat)
    requires EmitClone(g, p, node, a, depth, left).Emitted? && Usable(g) && TameObject(node.m) && Decided(g, root, node, v, f, true) && v.Obj?
    ensures var m, c := node.m, CopyObject(node.m, v.m);
            && m.Keys <= OBJECT_WORDS && HasTypeName(m, "object")
            && (List(m, "required").Some? ==> NamesPresent(m["required"].a, Obj(c)))
            && forall k :: k in c ==> k in PropsOf(m) || IsRecord(m)
  {
    hide Decided, EmitValue, EmitFields, RequiredNames, Tame, CopyValue, OBJECT_WORDS;
    var m, c := node.m, CopyObject(node.m, v.m);
    AcceptedObject(g, root, m, v, f);
    assert Closed(g, m);
    if !IsRecord(m) { OwnWithin(m, 0); }
    if List(m, "required").Some? {
      var l := m["required"].a;
      forall i | 0 <= i < |l| && l[i].Str? ensures l[i].s in c {
        assert l[i].s in RequiredOf(m);
      }
    }
  }

  /** What the program returns for a document the schema accepts, the schema accepts. */
  lemma ParseAccepted(g: Given, p: Probes, schema: Json, refs: set<string>, v: Json)
    requires Usable(g) && Inline.Closed(g, schema, refs) && Inline.Proper(schema, refs) && Sound(g, schema, p)
    requires CloneExprFor(g, p, schema).Emitted? && Inline.Meets(g, schema, schema, v, true)
    requires Inline.Inlined(g, schema).Obj? && TameObject(Inline.Inlined(g, schema).m)
    ensures v.Obj?
    ensures var copy := Obj(CopyObject(Inline.Inlined(g, schema).m, v.m));
            Eval(CloneExprFor(g, p, schema).e, map[Data := v]) == Some(copy) && Inline.Meets(g, schema, schema, copy, true)
  {
    hide Inline.Inlined, EmitFields, Closed, Inline.Closed, Inline.Proper, Eval, CopyObject, TidyObject, TidyFillsObject, Decided, ShapedObject, Sound, TameObject;
    var s := Inline.Inlined(g, schema);
    ParseCopies(g, p, schema, refs, v);
    assert Inline.KeysOk(g) by { forall m, k | k in m ensures k in g.keys(m) { assert Lists(g.keys(m), m); } }
    Inline.InlineExact(g, schema, refs, v, true);
    var f: nat :| Decided(g, schema, s, v, f, true);
    var more := CopyAcceptedObject(g, p, schema, s, AVar(Data), 0, SOURCE_BUDGET, v, f);
    Inline.InlineExact(g, schema, refs, Obj(CopyObject(s.m, v.m)), true);
  }

  // ---------------------------------------------------------------- where it is not

  /** `{"type": "object", "properties": {"x": {"type": "number"}}, "enum": [{"x": 1, "y": 2}]}` */
  function ListedSchema(): Json {
    Obj(map["type" := S("object"), "properties" := Obj(map["x" := NumberProp()]), "enum" := Arr([LooseDefault()])])
  }

  lemma ListedSimple()
    ensures Simple(ListedSchema().m)
  {
    assert "x" in ListedSchema().m["properties"].m;
  }

  lemma ListedInlined(g: Given)
    requires Usable(g)
    ensures Inline.Inlined(g, ListedSchema()) == ListedSchema()
  {
    var s := ListedSchema();
    assert Inline.KeysOk(g) by { forall m, k | k in m ensures k in g.keys(m) { assert Lists(g.keys(m), m); } }
    Inline.WalkSame(g, s, s, {}, Inline.BUDGET);
    assert Inline.RefFree(s) by { ListedRefFree(); }
    Inline.SameRefFree(g, s, s, Inline.Walk(g, s, s, {}, Inline.BUDGET).doc, Inline.BUDGET);
  }

  lemma ListedRefFree()
    ensures Inline.RefFree(ListedSchema()) && Inline.RefFree(Arr([LooseDefault()]))
  {
    assert Inline.RefFree(NumberProp());
    assert Inline.RefFree(LooseDefault());
    assert Inline.RefFree(Arr([LooseDefault()]));
    assert Inline.RefFree(Obj(map["x" := NumberProp()]));
  }

  lemma ListedEmitted(g: Given)
    requires Usable(g)
    ensures CloneExprFor(g, LooseProbes(), ListedSchema()).Emitted?
  {
    hide EmitClone, EmitFields, Inline.Walk, Closed, PrimitiveOnly;
    var p := LooseProbes();
    ListedInlined(g);
    assert EmitValue(g, p, NumberProp(), AMember(AVar(Data), "x"), 0, SOURCE_BUDGET) == Emitted(Read(AMember(AVar(Data), "x")), SOURCE_BUDGET) by { NumberPrimitive(); }
    ListedSimple();
    OneProperty(g, p, ListedSchema().m, "x", NumberProp(), AVar(Data), 0, SOURCE_BUDGET);
  }

  lemma ListedDecides(g: Given)
    requires Latest(g)
    ensures Decided(g, ListedSchema(), ListedSchema(), LooseDefault(), 0, true)
    ensures Decided(g, ListedSchema(), ListedSchema(), Obj(map["x" := Num(1.0)]), 0, false)
  {
    hide Decided, Accepts, Refuses, LocalOk, PartAt;
    var s := ListedSchema();
    ListedSimple();
    NumberAccepts(g, s);
    SimpleAccepts(g, s, s.m, LooseDefault(), 0);
    var v := Obj(map["x" := Num(1.0)]);
    FewLocal(g, s.m, v);
    assert "y" in LooseDefault().m && "y" !in v.m;
    RefusesLocally(g, s, s.m, v, 0);
    ObjectDecided(g, s, s.m, v, 0, false);
  }

  lemma ListedProper(g: Given)
    ensures Inline.Proper(ListedSchema(), {}) && Inline.Closed(g, ListedSchema(), {})
  {
    hide Inline.Proper;
    SimpleProper(NumberProp().m);
    ListedRefFree();
    SimpleProper(ListedSchema().m);
  }

  /** The one document that schema accepts is copied without its undeclared member, and the copy is refused. */
  lemma CopyRefused(g: Given)
    requires Usable(g)
    ensures var p, schema := LooseProbes(), ListedSchema();
            var copy := Obj(map["x" := Num(1.0)]);
            && CloneExprFor(g, p, schema).Emitted? && Inline.Meets(g, schema, schema, LooseDefault(), true)
            && Eval(CloneExprFor(g, p, schema).e, map[Data := LooseDefault()]) == Some(copy)
            && Inline.Meets(g, schema, schema, copy, false)
  {
    hide Eval, CloneExprFor, CopyObject, TidyObject, TidyFillsObject, Inline.Proper, Inline.Closed, Decided;
    ListedEmitted(g);
    ListedInlined(g);
    ListedDecides(g);
    ListedProper(g);
    ParseCopies(g, LooseProbes(), ListedSchema(), {}, LooseDefault());
    ListedSimple();
    CopyOne(ListedSchema().m, "x", NumberProp(), LooseDefault().m);
    NumberCopied();
  }
}
