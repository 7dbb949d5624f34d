/** A default that its own property does not fully declare: what it does to the copy, and to the copy of the copy. */
module CloneWitness {
  import opened Json
  import opened Schemas
  import opened CloneEmit
  import opened CloneFacts
  import Inline

  function S(s: string): Json { Str(s) }

  /** `{"x": 1, "y": 2}`, the default of a property that declares only `x`. */
  function LooseDefault(): Json { Obj(map["x" := Num(1.0), "y" := Num(2.0)]) }

  function NumberProp(): Json { Obj(map["type" := S("number")]) }

  function LooseProp(): Json {
    Obj(map["type" := S("object"), "properties" := Obj(map["x" := NumberProp()]), "default" := LooseDefault()])
  }

  function LooseSchema(): Json {
    Obj(map["type" := S("object"), "properties" := Obj(map["a" := LooseProp()])])
  }

  /** A compiled check that answers as the schema does, for the one default there is. */
  function LooseProbes(): Probes { Probes((s: Json, d: Json) => s == LooseProp() && d == LooseDefault(), (d: Json) => 13) }

  predicate Simple(m: map<string, Json>) {
    m.Keys <= {"type", "properties", "default", "enum"} && HasTypeName(m, "object") && "properties" in m && m["properties"].Obj? && m["properties"].m != map[]
  }

  lemma SimpleKeys(m: map<string, Json>)
    requires Simple(m)
    ensures !IsRecord(m) && RequiredOf(m) == {} && !IsTuple(m) && "instanceof" !in m && !Set(m, "$ref") && Recordable(m)
    ensures !HasApplicator(m) && !HasOtherRef(m) && "unevaluatedProperties" !in m && !Set(m, "patternProperties") && "additionalProperties" !in m
  {
  }

  lemma SimpleClosed(g: Given, m: map<string, Json>)
    requires Usable(g) && Simple(m)
    ensures Closed(g, m) && !PrimitiveOnly(Obj(m))
  {
    hide Usable, HasApplicator, HasOtherRef, Set, IsRecord, Recordable, RequiredNames, PrimitiveOnly;
    assert Lists(g.keys(PropsOf(m)), PropsOf(m)) by { KeysListed(g, PropsOf(m)); }
    var k :| k in m["properties"].m;
    assert k in g.keys(PropsOf(m));
    NotPrimitive(m);
    SimpleKeys(m);
    SimpleNames(m);
  }

  lemma KeysListed(g: Given, m: map<string, Json>)
    requires Usable(g)
    ensures Lists(g.keys(m), m)
  {
  }

  lemma SimpleNames(m: map<string, Json>)
    requires Simple(m)
    ensures RequiredNames(Obj(m), 0) == Names({})
  {
    assert OwnNames(m) == {};
    assert AppliedNames(m, 0) == Names({});
  }

  lemma OneListed(ks: seq<string>, k: string, v: Json)
    requires Lists(ks, map[k := v])
    ensures ks == [k]
  {
    assert k in ks;
    assert ks[0] in ks && ks[|ks| - 1] in ks;
  }

  /** The program for an object with one optional property is that property's. */
  lemma OneProperty(g: Given, p: Probes, m: map<string, Json>, k: string, prop: Json, a: Access, depth: nat, left: int)
    requires Usable(g) && Simple(m) && m["properties"] == Obj(map[k := prop]) && depth <= MAX_DEPTH
    requires prop.Obj? && !Set(prop.m, "$ref") && (DefaultOf(prop).Some? ==> p.holds(prop, DefaultOf(prop).value))
    requires EmitValue(g, p, prop, AMember(a, k), depth, left).Emitted?
    requires var r := EmitValue(g, p, prop, AMember(a, k), depth, left);
             Spend(p, [Cond(k, r.e, DefaultOf(prop))], r.left) >= 0
    ensures var r := EmitValue(g, p, prop, AMember(a, k), depth, left);
            EmitClone(g, p, Obj(m), a, depth, left) == Emitted(Build(a, [], [Cond(k, r.e, DefaultOf(prop))], NoRecord), Spend(p, [Cond(k, r.e, DefaultOf(prop))], r.left))
  {
    hide EmitValue, Closed, Spend, RequiredOf, PrimitiveOnly, IsRecord;
    SimpleClosed(g, m);
    SimpleKeys(m);
    var ks := g.keys(PropsOf(m));
    assert Lists(ks, PropsOf(m));
    OneListed(ks, k, prop);
    assert EmitFields(g, p, m, ks[..0], a, depth, left) == Fields([], [], left);
    var r := EmitValue(g, p, prop, AMember(a, k), depth, left);
    assert EmitFields(g, p, m, ks, a, depth, left) == Fields([], [Cond(k, r.e, DefaultOf(prop))], r.left);
  }

  /** The program is emitted. */
  lemma LooseEmitted(g: Given)
    requires Usable(g)
    ensures CloneExprFor(g, LooseProbes(), LooseSchema()).Emitted? && Inline.Inlined(g, LooseSchema()) == LooseSchema()
  {
    hide EmitClone, EmitFields, Inline.Walk, Closed, PrimitiveOnly;
    var p := LooseProbes();
    LooseInlined(g);
    var a := AMember(AVar(Data), "a");
    assert EmitValue(g, p, NumberProp(), AMember(a, "x"), 1, SOURCE_BUDGET) == Emitted(Read(AMember(a, "x")), SOURCE_BUDGET) by { NumberPrimitive(); }
    LooseSimple();
    SimpleClosed(g, LooseProp().m);
    SimpleKeys(LooseProp().m);
    OneProperty(g, p, LooseProp().m, "x", NumberProp(), a, 1, SOURCE_BUDGET);
    OneProperty(g, p, LooseSchema().m, "a", LooseProp(), AVar(Data), 0, SOURCE_BUDGET);
  }

  lemma LooseSimple()
    ensures Simple(LooseProp().m) && Simple(LooseSchema().m)
  {
    assert "x" in LooseProp().m["properties"].m && "a" in LooseSchema().m["properties"].m;
  }

  lemma NumberPrimitive()
    ensures PrimitiveOnly(NumberProp())
  {
    assert "number" in PRIMITIVES;
  }

  lemma LooseInlined(g: Given)
    requires Usable(g)
    ensures Inline.Inlined(g, LooseSchema()) == LooseSchema()
  {
    var s := LooseSchema();
    assert Inline.KeysOk(g) by { forall m, k | k in m ensures k in g.keys(m) { assert Lists(g.keys(m), m); } }
    Inline.WalkSame(g, s, s, {}, Inline.BUDGET);
    assert Inline.RefFree(s) by { LooseRefFree(); }
    Inline.SameRefFree(g, s, s, Inline.Walk(g, s, s, {}, Inline.BUDGET).doc, Inline.BUDGET);
  }

  lemma LooseRefFree()
    ensures Inline.RefFree(LooseSchema())
  {
    assert Inline.RefFree(NumberProp());
    assert Inline.RefFree(LooseDefault());
    assert Inline.RefFree(Obj(map["x" := NumberProp()]));
    assert Inline.RefFree(LooseProp());
    assert Inline.RefFree(Obj(map["a" := LooseProp()]));
  }

  /** `{}` is accepted, and so is the default by the property's own schema. */
  lemma LooseAccepted(g: Given)
    requires Latest(g)
    ensures Inline.Meets(g, LooseSchema(), LooseSchema(), Obj(map[]), true) && Inline.Meets(g, LooseSchema(), LooseProp(), LooseDefault(), true)
  {
    hide Decided;
    var root := LooseSchema();
    LooseSimple();
    SimpleAccepts(g, root, root.m, Obj(map[]), 0);
    assert Decided(g, root, root, Obj(map[]), 0, true);
    var d := LooseDefault();
    assert Decided(g, root, NumberProp(), Num(1.0), 0, true) by { NumberAccepts(g, root); }
    SimpleAccepts(g, root, LooseProp().m, d, 0);
    assert Decided(g, root, LooseProp(), d, 0, true);
  }

  lemma NumberAccepts(g: Given, root: Json)
    requires Latest(g)
    ensures Decided(g, root, NumberProp(), Num(1.0), 0, true)
  {
    hide LocalOk, PartAt, Decided, Accepts, Refuses, On;
    var m := NumberProp().m;
    FewKeywords(g, root, m, Num(1.0), 0);
    FewLocal(g, m, Num(1.0));
    forall w ensures PartAt(g, m, Num(1.0), w).NoPart? { FewParts(g, m, Num(1.0), w); }
    assert EveryOn(g, root, m, Num(1.0), 0);
    ObjectDecided(g, root, m, Num(1.0), 0, true);
  }

  lemma SimpleAccepts(g: Given, root: Json, m: map<string, Json>, v: Json, f: nat)
    requires Latest(g) && Simple(m) && v.Obj? && (List(m, "enum").Some? ==> v in m["enum"].a)
    requires forall k :: k in v.m && k in m["properties"].m ==> Decided(g, root, m["properties"].m[k], v.m[k], f, true)
    ensures Decided(g, root, Obj(m), v, f, true)
  {
    hide Decided, Accepts, Refuses, LocalOk, PartAt;
    FewKeywords(g, root, m, v, f);
    FewLocal(g, m, v);
    forall w | PartAt(g, m, v, w).Part? ensures On(g, root, m, v, w, f, true) { FewParts(g, m, v, w); }
    assert EveryOn(g, root, m, v, f);
    ObjectDecided(g, root, m, v, f, true);
  }

  lemma SimpleProper(m: map<string, Json>)
    requires m.Keys <= {"type", "properties", "default", "enum"} && "type" in m && m["type"].Str?
    requires "properties" in m ==> m["properties"].Obj? && RefOf(m["properties"]).None? && forall n :: n in m["properties"].m ==> Inline.Proper(m["properties"].m[n], {})
    ensures Inline.Proper(Obj(m), {})
  {
    hide Inline.Proper, Inline.RefFree;
    forall k | k in m ensures Inline.ProperAt(m, k, {}) {
      if k == "type" { assert Inline.RefFree(m[k]) by { ScalarRefFree(m[k]); } }
      else if k == "properties" { assert k !in ONE_SCHEMA && k !in SCHEMA_LISTS && k in SCHEMA_MAPS; }
    }
    AllProper(m);
  }

  lemma ScalarRefFree(v: Json)
    requires IsScalar(v)
    ensures Inline.RefFree(v)
  {
  }

  lemma AllProper(m: map<string, Json>)
    requires RefOf(Obj(m)).None? && forall k :: k in m ==> Inline.ProperAt(m, k, {})
    ensures Inline.Proper(Obj(m), {})
  {
    hide Inline.ProperAt;
  }

  lemma LooseProper(g: Given)
    ensures Inline.Proper(LooseSchema(), {}) && Inline.Closed(g, LooseSchema(), {})
  {
    hide Inline.Proper;
    SimpleProper(NumberProp().m);
    SimpleProper(LooseProp().m);
    SimpleProper(LooseSchema().m);
  }

  /** The copy of an object with one property to declare. */
  lemma CopyOne(m: map<string, Json>, k: string, prop: Json, v: map<string, Json>)
    requires Simple(m) && m["properties"] == Obj(map[k := prop])
    ensures k in v ==> CopyObject(m, v) == map[k := CopyValue(prop, v[k])]
    ensures k !in v && DefaultOf(prop).Some? ==> CopyObject(m, v) == map[k := DefaultOf(prop).value]
  {
    hide CopyValue, IsRecord;
    SimpleKeys(m);
    assert PropsOf(m) == map[k := prop];
  }

  lemma LooseCopied()
    ensures CopyObject(LooseSchema().m, map[]) == map["a" := LooseDefault()]
    ensures CopyObject(LooseSchema().m, map["a" := LooseDefault()]) == map["a" := Obj(map["x" := Num(1.0)])]
  {
    hide CopyObject, CopyValue;
    LooseSimple();
    CopyOne(LooseSchema().m, "a", LooseProp(), map[]);
    CopyOne(LooseSchema().m, "a", LooseProp(), map["a" := LooseDefault()]);
    CopyOne(LooseProp().m, "x", NumberProp(), LooseDefault().m);
    NumberCopied();
    ObjectCopied(LooseProp().m, LooseDefault().m);
  }

  lemma NumberCopied()
    ensures CopyValue(NumberProp(), Num(1.0)) == Num(1.0)
  {
    NumberPrimitive();
  }

  lemma ObjectCopied(m: map<string, Json>, v: map<string, Json>)
    requires Simple(m)
    ensures CopyValue(Obj(m), Obj(v)) == Obj(CopyObject(m, v))
  {
    hide CopyObject, PrimitiveOnly;
    NotPrimitive(m);
    SimpleKeys(m);
  }

  lemma NotPrimitive(m: map<string, Json>)
    requires "type" in m && m["type"] == Str("object")
    ensures !PrimitiveOnly(Obj(m))
  {
    assert "object" !in PRIMITIVES;
  }

  lemma LooseUntidy()
    ensures !TidyObject(LooseSchema().m, Obj(map["a" := LooseDefault()]))
  {
    hide PrimitiveOnly, IsRecord;
    LooseSimple();
    NotPrimitive(LooseProp().m);
    SimpleKeys(LooseProp().m);
    assert "y" in LooseDefault().m && "y" !in PropsOf(LooseProp().m);
    assert !TidyObject(LooseProp().m, LooseDefault());
    assert !Tidy(LooseProp(), LooseDefault());
    var c := map["a" := LooseDefault()];
    assert "a" in c && PropsOf(LooseSchema().m)["a"] == LooseProp();
  }

  /**
   An object default need not be settled. `{"x": 1, "y": 2}` for a property that declares only `x` is
   accepted by it, the program is emitted, and `{}` is accepted: the copy carries the undeclared `y`,
   and the copy of the copy drops it.
   */
  lemma DefaultNotFixed(g: Given)
    requires Usable(g)
    ensures var p, schema := LooseProbes(), LooseSchema();
            var once, twice := Obj(map["a" := LooseDefault()]), Obj(map["a" := Obj(map["x" := Num(1.0)])]);
            && Sound(g, schema, p) && CloneExprFor(g, p, schema).Emitted? && Inline.Meets(g, schema, schema, Obj(map[]), true)
            && Eval(CloneExprFor(g, p, schema).e, map[Data := Obj(map[])]) == Some(once)
            && Eval(CloneExprFor(g, p, schema).e, map[Data := once]) == Some(twice)
            && !TidyObject(schema.m, once)
  {
    hide Eval, CloneExprFor, CopyObject, TidyObject, TidyFillsObject, FixedFillsObject, Inline.Proper, Inline.Closed;
    var p, s := LooseProbes(), LooseSchema();
    LooseEmitted(g);
    LooseAccepted(g);
    LooseProper(g);
    assert Sound(g, s, p);
    ParseTwice(g, p, s, {}, Obj(map[]));
    LooseCopied();
    LooseUntidy();
  }
}
