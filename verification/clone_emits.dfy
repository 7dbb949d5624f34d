/**
 Which schemas get a parse(): exactly those whose every level is one the copy can be built for, with defaults
 that hold and are short enough together (lib/clone-emit.js:172-414).
 */
module CloneEmits {
  import opened Json
  import opened Schemas
  import opened CloneEmit
  import CloneFacts
  import CloneGiven
  import Inline

  /** A closed object, or a record, all of whose properties can be copied. */
  predicate Copyable(g: Given, p: Probes, m: map<string, Json>, depth: int)
    decreases Obj(m), 1
  {
    && depth <= MAX_DEPTH && Closed(g, m)
    && (forall k :: k in PropsOf(m) ==> PropCopyable(g, p, m, k, depth))
    && (IsRecord(m) ==> ValueCopyable(g, p, m["additionalProperties"], depth))
  }

  /** A default is one of an optional property, and holds. */
  predicate PropCopyable(g: Given, p: Probes, m: map<string, Json>, k: string, depth: int)
    requires k in PropsOf(m)
    decreases Obj(m), 0
  {
    var prop := PropsOf(m)[k];
    && prop.Obj? && ("default" in prop.m ==> k !in RequiredOf(m) && p.holds(prop, prop.m["default"]))
    && ValueCopyable(g, p, prop, depth)
  }

  predicate ValueCopyable(g: Given, p: Probes, s: Json, depth: int)
    decreases s, 2
  {
    && s.Obj? && !CloneGiven.Refers(s)
    && if IsTuple(s.m) then FlatTuple(s.m)
       else
         || PrimitiveOnly(s) || "instanceof" in s.m
         || (CloneGiven.ForObjects(s) && Copyable(g, p, s.m, depth + 1))
         || (HasTypeName(s.m, "array") && "items" in s.m && ElementCopyable(g, p, s.m["items"], depth))
  }

  predicate ElementCopyable(g: Given, p: Probes, s: Json, depth: int)
    decreases s, 2
  {
    s.Obj? && (PrimitiveOnly(s) || (CloneGiven.ForObjects(s) && Copyable(g, p, s.m, depth + 1)))
  }

  // ---------------------------------------------------------------- what the defaults cost

  /** The length of every default the program writes out. */
  function Cost(g: Given, p: Probes, m: map<string, Json>): nat
    decreases Obj(m), 1
  {
    CostBelow(g, p, m, g.keys(PropsOf(m))) + CostHere(p, m, g.keys(PropsOf(m)))
    + (if IsRecord(m) then CostOf(g, p, m["additionalProperties"]) else 0)
  }

  function CostBelow(g: Given, p: Probes, m: map<string, Json>, ks: seq<string>): nat
    decreases Obj(m), 0, |ks|
  {
    if ks == [] then 0
    else CostBelow(g, p, m, ks[..|ks| - 1]) + (if ks[|ks| - 1] in PropsOf(m) then CostOf(g, p, PropsOf(m)[ks[|ks| - 1]]) else 0)
  }

  function CostHere(p: Probes, m: map<string, Json>, ks: seq<string>): nat {
    if ks == [] then 0
    else
      var k := ks[|ks| - 1];
      CostHere(p, m, ks[..|ks| - 1])
      + (if k in PropsOf(m) && k !in RequiredOf(m) && DefaultOf(PropsOf(m)[k]).Some? then p.sourceLength(DefaultOf(PropsOf(m)[k]).value) else 0)
  }

  function CostOf(g: Given, p: Probes, s: Json): nat
    decreases s, 2
  {
    if !s.Obj? || IsTuple(s.m) || PrimitiveOnly(s) || "instanceof" in s.m then 0
    else if CloneGiven.ForObjects(s) then Cost(g, p, s.m)
    else if HasTypeName(s.m, "array") && "items" in s.m && s.m["items"].Obj? && !PrimitiveOnly(s.m["items"]) && CloneGiven.ForObjects(s.m["items"])
    then Cost(g, p, s.m["items"].m)
    else 0
  }

  function Spent(p: Probes, conds: seq<Cond>): nat {
    if conds == [] then 0 else Spent(p, conds[..|conds| - 1]) + (var c := conds[|conds| - 1]; if c.dflt.Some? then p.sourceLength(c.dflt.value) else 0)
  }

  lemma {:induction false} SpendIff(p: Probes, conds: seq<Cond>, left: int)
    requires left >= 0
    ensures Spend(p, conds, left) < 0 <==> Spent(p, conds) > left
    ensures Spent(p, conds) <= left ==> Spend(p, conds, left) == left - Spent(p, conds)
    decreases |conds|
  {
    if conds != [] { SpendIff(p, conds[..|conds| - 1], left); }
  }

  // ---------------------------------------------------------------- exactly those are emitted

  lemma {:induction false} ValueIff(g: Given, p: Probes, s: Json, read: Access, depth: nat, left: int)
    requires Usable(g) && left >= 0
    ensures var e := EmitValue(g, p, s, read, depth, left);
            && (e.Emitted? <==> ValueCopyable(g, p, s, depth) && CostOf(g, p, s) <= left)
            && (e.Emitted? ==> e.left == left - CostOf(g, p, s))
    decreases s, 3
  {
    hide EmitClone, Cost, Copyable, FlatTuple, IsTuple, Recordable, Usable;
    if s.Obj? && !IsTuple(s.m) && !CloneGiven.Refers(s) {
      if PrimitiveOnly(s) || "instanceof" in s.m {
      } else if CloneGiven.ForObjects(s) {
        CloneIff(g, p, s, read, depth + 1, left);
      } else if HasTypeName(s.m, "array") && "items" in s.m && s.m["items"].Obj? && CloneGiven.ForObjects(s.m["items"]) {
        CloneIff(g, p, s.m["items"], AVar(El(depth)), depth + 1, left);
      }
    }
  }

  lemma {:induction false} FieldsIff(g: Given, p: Probes, m: map<string, Json>, ks: seq<string>, a: Access, depth: nat, left: int)
    requires Usable(g) && left >= 0 && forall k :: k in ks ==> k in PropsOf(m)
    ensures var f := EmitFields(g, p, m, ks, a, depth, left);
            && (f.Fields? <==> (forall k :: k in ks ==> PropCopyable(g, p, m, k, depth)) && CostBelow(g, p, m, ks) <= left)
            && (f.Fields? ==> f.left == left - CostBelow(g, p, m, ks) && Spent(p, f.conds) == CostHere(p, m, ks))
    decreases Obj(m), 0, |ks|
  {
    hide EmitValue, CostOf, Usable, PropsOf, RequiredOf, ValueCopyable;
    if ks != [] {
      var init, k := ks[..|ks| - 1], ks[|ks| - 1];
      assert ks == init + [k];
      FieldsIff(g, p, m, init, a, depth, left);
      var before := EmitFields(g, p, m, init, a, depth, left);
      PropSmaller(m, k);
      if before.Fields? { ValueIff(g, p, PropsOf(m)[k], AMember(a, k), depth, before.left); }
      FieldIff(g, p, m, k, before, a, depth, left, init);
    }
  }

  lemma PropSmaller(m: map<string, Json>, k: string)
    requires k in PropsOf(m)
    ensures PropsOf(m)[k] < Obj(m)
  {
  }

  /** One property more. */
  lemma FieldIff(g: Given, p: Probes, m: map<string, Json>, k: string, before: Fields, a: Access, depth: nat, left: int, init: seq<string>)
    requires k in PropsOf(m) && before == EmitFields(g, p, m, init, a, depth, left)
    requires before.Fields? <==> (forall x :: x in init ==> x in PropsOf(m) && PropCopyable(g, p, m, x, depth)) && CostBelow(g, p, m, init) <= left
    requires before.Fields? ==> before.left == left - CostBelow(g, p, m, init) && Spent(p, before.conds) == CostHere(p, m, init)
    requires before.Fields? ==>
      var e := EmitValue(g, p, PropsOf(m)[k], AMember(a, k), depth, before.left);
      && (e.Emitted? <==> ValueCopyable(g, p, PropsOf(m)[k], depth) && CostOf(g, p, PropsOf(m)[k]) <= before.left)
      && (e.Emitted? ==> e.left == before.left - CostOf(g, p, PropsOf(m)[k]))
    ensures var f := EmitFields(g, p, m, init + [k], a, depth, left);
            && (f.Fields? <==> before.Fields? && PropCopyable(g, p, m, k, depth) && CostBelow(g, p, m, init + [k]) <= left)
            && (f.Fields? ==> f.left == left - CostBelow(g, p, m, init + [k]) && Spent(p, f.conds) == CostHere(p, m, init + [k]))
  {
    hide EmitFields, EmitValue, CostOf, PropsOf, RequiredOf, CostHere, CostBelow, PropCopyable, Spent, DefaultOf, ValueCopyable;
    var ks := init + [k];
    var prop := PropsOf(m)[k];
    FieldStep(g, p, m, k, init, a, depth, left);
    CostSnoc(g, p, m, k, init);
    PropMeans(g, p, m, k, depth);
    var f := EmitFields(g, p, m, ks, a, depth, left);
    if f.Fields? && k !in RequiredOf(m) {
      SpentSnoc(p, before.conds, Cond(k, EmitValue(g, p, prop, AMember(a, k), depth, before.left).e, DefaultOf(prop)));
    }
  }

  lemma FieldStep(g: Given, p: Probes, m: map<string, Json>, k: string, init: seq<string>, a: Access, depth: nat, left: int)
    requires k in PropsOf(m)
    ensures var before, f := EmitFields(g, p, m, init, a, depth, left), EmitFields(g, p, m, init + [k], a, depth, left);
      var prop := PropsOf(m)[k];
      if before.NoFields? || !prop.Obj? || Set(prop.m, "$ref") || (DefaultOf(prop).Some? && (k in RequiredOf(m) || !p.holds(prop, DefaultOf(prop).value)))
         || EmitValue(g, p, prop, AMember(a, k), depth, before.left).Declined? then f.NoFields?
      else
        var e := EmitValue(g, p, prop, AMember(a, k), depth, before.left);
        f == if k in RequiredOf(m) then Fields(before.fixed + [Field(k, e.e)], before.conds, e.left)
             else Fields(before.fixed, before.conds + [Cond(k, e.e, DefaultOf(prop))], e.left)
  {
    hide EmitValue, PropsOf, RequiredOf, DefaultOf;
    assert (init + [k])[..|init|] == init;
  }

  lemma CostSnoc(g: Given, p: Probes, m: map<string, Json>, k: string, init: seq<string>)
    requires k in PropsOf(m)
    ensures CostBelow(g, p, m, init + [k]) == CostBelow(g, p, m, init) + CostOf(g, p, PropsOf(m)[k])
    ensures CostHere(p, m, init + [k]) == CostHere(p, m, init) + (if k !in RequiredOf(m) && DefaultOf(PropsOf(m)[k]).Some? then p.sourceLength(DefaultOf(PropsOf(m)[k]).value) else 0)
  {
    hide CostOf, PropsOf, RequiredOf, DefaultOf;
    assert (init + [k])[..|init|] == init;
  }

  lemma PropMeans(g: Given, p: Probes, m: map<string, Json>, k: string, depth: int)
    requires k in PropsOf(m)
    ensures var prop := PropsOf(m)[k];
      PropCopyable(g, p, m, k, depth) <==>
        && prop.Obj? && !Set(prop.m, "$ref") && (DefaultOf(prop).Some? ==> k !in RequiredOf(m) && p.holds(prop, DefaultOf(prop).value))
        && ValueCopyable(g, p, prop, depth)
  {
    hide PropsOf, RequiredOf, IsTuple, FlatTuple, PrimitiveOnly;
  }

  lemma SpentSnoc(p: Probes, conds: seq<Cond>, c: Cond)
    ensures Spent(p, conds + [c]) == Spent(p, conds) + (if c.dflt.Some? then p.sourceLength(c.dflt.value) else 0)
  {
    assert (conds + [c])[..|conds|] == conds;
  }

  lemma {:induction false} CloneIff(g: Given, p: Probes, s: Json, a: Access, depth: nat, left: int)
    requires Usable(g) && left >= 0
    ensures var e := EmitClone(g, p, s, a, depth, left);
            && (e.Emitted? <==> s.Obj? && Copyable(g, p, s.m, depth) && Cost(g, p, s.m) <= left)
            && (e.Emitted? ==> e.left == left - Cost(g, p, s.m))
    decreases s, 2
  {
    hide EmitFields, EmitValue, CostBelow, CostHere, CostOf, Closed, PropsOf, ValueCopyable, PropCopyable, Spend;
    if s.Obj? && depth <= MAX_DEPTH && Closed(g, s.m) {
      var m := s.m;
      var ks := g.keys(PropsOf(m));
      assert Lists(ks, PropsOf(m));
      FieldsIff(g, p, m, ks, a, depth, left);
      var f := EmitFields(g, p, m, ks, a, depth, left);
      if f.Fields? {
        if IsRecord(m) {
          ValueIff(g, p, m["additionalProperties"], AVar(Val(depth)), depth, f.left);
          var e := EmitValue(g, p, m["additionalProperties"], AVar(Val(depth)), depth, f.left);
          if e.Emitted? { SpendIff(p, f.conds, e.left); }
        } else {
          SpendIff(p, f.conds, f.left);
        }
      }
    }
  }

  /** A schema gets a parse() exactly when its inlined form can be copied and its defaults fit the budget. */
  lemma EmittedIff(g: Given, p: Probes, schema: Json)
    requires Usable(g)
    ensures var s := Inline.Inlined(g, schema);
            CloneFacts.CloneExprFor(g, p, schema).Emitted? <==> s.Obj? && Copyable(g, p, s.m, 0) && Cost(g, p, s.m) <= 256 * 1024
  {
    hide Inline.Inlined, EmitClone, Copyable, Cost;
    CloneIff(g, p, Inline.Inlined(g, schema), AVar(Data), 0, SOURCE_BUDGET);
  }
}
