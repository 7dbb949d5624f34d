/**
 What parse() returns, read off the schema as it was written: references followed where they stand, and the
 defaults those written under the properties (lib/clone-emit.js:51-97, 172-420).
 */
module CloneGiven {
  import opened Json
  import opened Schemas
  import opened CloneEmit
  import CloneFacts
  import Inline

  predicate Refers(s: Json) { s.Obj? && Set(s.m, "$ref") }

  predicate ForObjects(s: Json) { s.Obj? && HasTypeName(s.m, "object") && Recordable(s.m) }

  /** `c` is the copy of `v` under a schema, with at most `n` references followed in a row. */
  ghost predicate Copied(g: Given, root: Json, s: Json, v: Json, c: Json, n: nat)
    decreases n, s, 1
  {
    if Refers(s) then n > 0 && Inline.Target(g, root, s).Some? && Copied(g, root, Inline.Target(g, root, s).value, v, c, n - 1)
    else if !s.Obj? || IsTuple(s.m) || "instanceof" in s.m then c == v
    else if ForObjects(s) && v.Obj? then c.Obj? && CopiedMembers(g, root, s.m, v.m, c.m, n)
    else if HasTypeName(s.m, "array") && "items" in s.m && v.Arr? then
      c.Arr? && |c.a| == |v.a| && forall i :: 0 <= i < |v.a| ==> CopiedElement(g, root, s.m["items"], v.a[i], c.a[i], n)
    else c == v
  }

  /** An element, or the whole document, is rebuilt as an object or not at all. */
  ghost predicate CopiedElement(g: Given, root: Json, s: Json, v: Json, c: Json, n: nat)
    decreases n, s, 1
  {
    if Refers(s) then n > 0 && Inline.Target(g, root, s).Some? && CopiedElement(g, root, Inline.Target(g, root, s).value, v, c, n - 1)
    else if ForObjects(s) && v.Obj? then c.Obj? && CopiedMembers(g, root, s.m, v.m, c.m, n)
    else c == v
  }

  /**
   Declared members are copied, those of a record under its schema; an absent one is there with the default
   written under the property, beside a reference or not, exactly when one is written; and nothing else is.
   */
  ghost predicate CopiedMembers(g: Given, root: Json, m: map<string, Json>, v: map<string, Json>, c: map<string, Json>, n: nat)
    decreases n, Obj(m), 0
  {
    forall k ::
      if k in PropsOf(m) then
        if k in v then k in c && Copied(g, root, PropsOf(m)[k], v[k], c[k], n)
        else if PropsOf(m)[k].Obj? && "default" in PropsOf(m)[k].m then k in c && c[k] == PropsOf(m)[k].m["default"]
        else k !in c
      else if k in v && IsRecord(m) then k in c && Copied(g, root, m["additionalProperties"], v[k], c[k], n)
      else k !in c
  }

  /** Schema and inlined schema, level by level. */
  ghost predicate Pair(g: Given, root: Json, refs: set<string>, a: Json, b: Json, n: nat, entered: bool) {
    Inline.Proper(a, refs) && Inline.Same(g, root, a, b, n, entered)
  }

  ghost predicate Fits(g: Given, root: Json, refs: set<string>) {
    g.dialect.Draft2020? && Inline.Closed(g, root, refs)
  }

  lemma SameReflexive(g: Given, root: Json, a: map<string, Json>, n: nat, entered: bool)
    ensures Inline.SameObjects(g, root, a, a, n, entered)
  {
    forall k | k in a ensures Inline.SameAt(g, root, a, a, k, n) {}
  }

  /** Where no reference was followed, both are objects alike, and neither refers to anything. */
  lemma Level(g: Given, root: Json, refs: set<string>, a: Json, b: Json, n: nat, entered: bool)
    requires Fits(g, root, refs) && Pair(g, root, refs, a, b, n, entered) && !Inline.Through(g, root, a, b, n) && b.Obj?
    ensures a.Obj? && Inline.Proper(Obj(a.m), refs) && Inline.SameObjects(g, root, a.m, b.m, n, entered)
    ensures Refers(a) <==> Refers(b)
    ensures forall t :: HasTypeName(a.m, t) <==> HasTypeName(b.m, t)
    ensures IsTuple(a.m) <==> IsTuple(b.m)
    ensures "instanceof" in a.m <==> "instanceof" in b.m
    ensures "items" in a.m <==> "items" in b.m
    ensures "items" in a.m ==> Pair(g, root, refs, a.m["items"], b.m["items"], n, false)
  {
    hide Inline.Same, Inline.Proper, Inline.SameObjects, Inline.Through;
    Inline.SameCases(g, root, a, b, n, entered, refs);
    if a == b { SameReflexive(g, root, a.m, n, entered); }
    LevelKeys(g, root, refs, a.m, b.m, n, entered);
  }

  lemma LevelKeys(g: Given, root: Json, refs: set<string>, a: map<string, Json>, b: map<string, Json>, n: nat, entered: bool)
    requires Fits(g, root, refs) && Inline.Proper(Obj(a), refs) && Inline.SameObjects(g, root, a, b, n, entered)
    ensures Refers(Obj(a)) <==> Refers(Obj(b))
    ensures forall t :: HasTypeName(a, t) <==> HasTypeName(b, t)
    ensures IsTuple(a) <==> IsTuple(b)
    ensures "instanceof" in a <==> "instanceof" in b
    ensures "items" in a <==> "items" in b
    ensures "items" in a ==> Pair(g, root, refs, a["items"], b["items"], n, false)
  {
    hide Inline.Same, Inline.Proper, Inline.SameObjects, Inline.SameMaps;
    Inline.SameValue(g, root, a, b, n, entered, "$ref", refs);
    Inline.SameValue(g, root, a, b, n, entered, "type", refs);
    Inline.SameValue(g, root, a, b, n, entered, "prefixItems", refs);
    Inline.SameValue(g, root, a, b, n, entered, "instanceof", refs);
    Inline.SameValue(g, root, a, b, n, entered, "items", refs);
    if "items" in a { Inline.SameKind(g, root, a["items"], b["items"], n, false); }
  }

  /** Properties and members of a record correspond; so do the defaults written under the properties. */
  lemma LevelMembers(g: Given, root: Json, refs: set<string>, a: map<string, Json>, b: map<string, Json>, n: nat, entered: bool)
    requires Fits(g, root, refs) && Inline.Proper(Obj(a), refs) && Inline.SameObjects(g, root, a, b, n, entered)
    ensures Recordable(a) <==> Recordable(b)
    ensures IsRecord(a) <==> IsRecord(b)
    ensures IsRecord(a) ==> Pair(g, root, refs, a["additionalProperties"], b["additionalProperties"], n, false)
    ensures PropsOf(a).Keys == PropsOf(b).Keys
    ensures forall k :: k in PropsOf(a) ==> Pair(g, root, refs, PropsOf(a)[k], PropsOf(b)[k], n, false)
    ensures forall k :: k in PropsOf(a) ==> DefaultOf(PropsOf(b)[k]) == if PropsOf(a)[k].Obj? && "default" in PropsOf(a)[k].m then Some(PropsOf(a)[k].m["default"]) else None
  {
    hide Inline.Same, Inline.Proper, Inline.SameObjects;
    Inline.SameValue(g, root, a, b, n, entered, "properties", refs);
    Inline.SameValue(g, root, a, b, n, entered, "additionalProperties", refs);
    if "additionalProperties" in a { Inline.SameKind(g, root, a["additionalProperties"], b["additionalProperties"], n, false); }
    forall k | k in PropsOf(a) ensures DefaultOf(PropsOf(b)[k]) == if PropsOf(a)[k].Obj? && "default" in PropsOf(a)[k].m then Some(PropsOf(a)[k].m["default"]) else None {
      Inline.SameKind(g, root, PropsOf(a)[k], PropsOf(b)[k], n, false);
      if PropsOf(a)[k].Obj? { Inline.DefaultKept(g, root, PropsOf(a)[k], PropsOf(b)[k], n); }
    }
  }

  /** The schema a followed reference names. */
  lemma Onwards(g: Given, root: Json, refs: set<string>, a: Json, b: Json, n: nat, entered: bool)
    requires Fits(g, root, refs) && Pair(g, root, refs, a, b, n, entered) && Inline.Through(g, root, a, b, n)
    ensures n > 0 && Inline.Target(g, root, a).Some? && Refers(a) && Pair(g, root, refs, Inline.Target(g, root, a).value, b, n - 1, true)
  {
    hide Inline.Same, Inline.Proper;
    Inline.ThroughProper(g, root, a, b, n, refs);
    assert RefOf(a).value != "";
  }

  lemma {:induction false} CopyCopied(g: Given, p: Probes, root: Json, refs: set<string>, a: Json, b: Json, n: nat, entered: bool, read: Access, depth: nat, left: int, v: Json)
    requires Fits(g, root, refs) && Usable(g) && Pair(g, root, refs, a, b, n, entered) && EmitValue(g, p, b, read, depth, left).Emitted?
    ensures Copied(g, root, a, v, CopyValue(b, v), n)
    decreases n, a, 2
  {
    hide EmitValue, CopyValue, Pair, Inline.Through, Inline.SameObjects, Fits;
    assert b.Obj? by { Taken(g, p, b, read, depth, left); }
    if Inline.Through(g, root, a, b, n) {
      Onwards(g, root, refs, a, b, n, entered);
      CopyCopied(g, p, root, refs, Inline.Target(g, root, a).value, b, n - 1, true, read, depth, left, v);
    } else {
      Level(g, root, refs, a, b, n, entered);
      CopyHere(g, p, root, refs, a.m, b.m, n, entered, read, depth, left, v);
    }
  }

  lemma Taken(g: Given, p: Probes, b: Json, read: Access, depth: nat, left: int)
    requires EmitValue(g, p, b, read, depth, left).Emitted?
    ensures b.Obj? && !Refers(b)
    ensures || IsTuple(b.m) || PrimitiveOnly(b) || "instanceof" in b.m
            || (ForObjects(b) && EmitClone(g, p, b, read, depth + 1, left).Emitted?)
            || (!ForObjects(b) && HasTypeName(b.m, "array") && "items" in b.m
                && (PrimitiveOnly(b.m["items"]) || EmitClone(g, p, b.m["items"], AVar(El(depth)), depth + 1, left).Emitted?))
  {
    hide EmitClone, FlatTuple, PrimitiveOnly;
  }

  lemma {:induction false} CopyHere(g: Given, p: Probes, root: Json, refs: set<string>, a: map<string, Json>, b: map<string, Json>, n: nat, entered: bool, read: Access, depth: nat, left: int, v: Json)
    requires Fits(g, root, refs) && Usable(g) && Inline.Proper(Obj(a), refs) && Inline.SameObjects(g, root, a, b, n, entered)
    requires EmitValue(g, p, Obj(b), read, depth, left).Emitted?
    ensures Copied(g, root, Obj(a), v, CopyValue(Obj(b), v), n)
    decreases n, Obj(a), 1
  {
    hide EmitValue, EmitClone, CopyItem, CopyObject, IsTuple, Recordable, Pair, PrimitiveOnly, CopiedElement, CopiedMembers, Inline.Proper, Inline.SameObjects, Fits;
    Taken(g, p, Obj(b), read, depth, left);
    LevelKeys(g, root, refs, a, b, n, entered);
    assert Recordable(a) <==> Recordable(b) by { LevelMembers(g, root, refs, a, b, n, entered); }
    if IsTuple(b) || "instanceof" in b {
    } else if PrimitiveOnly(Obj(b)) {
      NotPrimitive(b);
    } else if ForObjects(Obj(b)) {
      if v.Obj? { CopyMembers(g, p, root, refs, a, b, n, entered, read, depth + 1, left, v.m); }
    } else if v.Arr? {
      forall i | 0 <= i < |v.a| ensures CopiedElement(g, root, a["items"], v.a[i], CopyItem(b["items"], v.a[i]), n) {
        CopyElement(g, p, root, refs, a["items"], b["items"], n, false, AVar(El(depth)), depth + 1, left, v.a[i]);
      }
    }
  }

  lemma NotPrimitive(m: map<string, Json>)
    requires PrimitiveOnly(Obj(m))
    ensures !HasTypeName(m, "object") && !HasTypeName(m, "array") && !Refers(Obj(m))
  {
  }

  lemma {:induction false} CopyElement(g: Given, p: Probes, root: Json, refs: set<string>, a: Json, b: Json, n: nat, entered: bool, read: Access, depth: nat, left: int, v: Json)
    requires Fits(g, root, refs) && Usable(g) && Pair(g, root, refs, a, b, n, entered)
    requires PrimitiveOnly(b) || EmitClone(g, p, b, read, depth, left).Emitted?
    ensures CopiedElement(g, root, a, v, CopyItem(b, v), n)
    decreases n, a, 1
  {
    hide EmitFields, CopyObject, Recordable, Pair, CopiedMembers, Inline.Through, Fits;
    if Inline.Through(g, root, a, b, n) {
      Onwards(g, root, refs, a, b, n, entered);
      CopyElement(g, p, root, refs, Inline.Target(g, root, a).value, b, n - 1, true, read, depth, left, v);
    } else {
      Level(g, root, refs, a, b, n, entered);
      LevelMembers(g, root, refs, a.m, b.m, n, entered);
      if PrimitiveOnly(b) {
        NotPrimitive(b.m);
      } else if v.Obj? {
        CopyMembers(g, p, root, refs, a.m, b.m, n, entered, read, depth, left, v.m);
      }
    }
  }

  lemma {:induction false} CopyMembers(g: Given, p: Probes, root: Json, refs: set<string>, a: map<string, Json>, b: map<string, Json>, n: nat, entered: bool, read: Access, depth: nat, left: int, v: map<string, Json>)
    requires Fits(g, root, refs) && Usable(g) && Inline.Proper(Obj(a), refs) && Inline.SameObjects(g, root, a, b, n, entered)
    requires EmitClone(g, p, Obj(b), read, depth, left).Emitted?
    ensures CopiedMembers(g, root, a, v, CopyObject(b, v), n)
    decreases n, Obj(a), 0
  {
    hide Copied, CopyValue, CopyObject, EmitClone, PropsOf, IsRecord, DefaultOf, Inline.Proper, Inline.SameObjects, Fits, Pair;
    LevelMembers(g, root, refs, a, b, n, entered);
    forall k | k in v && k in PropsOf(a) ensures Copied(g, root, PropsOf(a)[k], v[k], CopyValue(PropsOf(b)[k], v[k]), n) {
      var at, l := PropertyTaken(g, p, b, read, depth, left, k);
      Smaller(a, k);
      CopyCopied(g, p, root, refs, PropsOf(a)[k], PropsOf(b)[k], n, false, at, depth, l, v[k]);
    }
    if IsRecord(b) {
      var at, l := RecordTaken(g, p, b, read, depth, left);
      Smaller(a, "");
      Smaller(b, "");
      forall k | k in v ensures Copied(g, root, a["additionalProperties"], v[k], CopyValue(b["additionalProperties"], v[k]), n) {
        CopyCopied(g, p, root, refs, a["additionalProperties"], b["additionalProperties"], n, false, at, depth, l, v[k]);
      }
    }
    CopyKeys(b, v);
  }

  lemma Smaller(m: map<string, Json>, k: string)
    ensures k in PropsOf(m) ==> PropsOf(m)[k] < Obj(m)
    ensures IsRecord(m) ==> "additionalProperties" in m && m["additionalProperties"] < Obj(m)
  {
  }

  lemma PropertyTaken(g: Given, p: Probes, b: map<string, Json>, read: Access, depth: nat, left: int, k: string) returns (at: Access, l: int)
    requires Usable(g) && EmitClone(g, p, Obj(b), read, depth, left).Emitted? && k in PropsOf(b)
    ensures EmitValue(g, p, PropsOf(b)[k], at, depth, l).Emitted?
  {
    hide EmitValue, EmitFields, Closed, PropsOf;
    assert Lists(g.keys(PropsOf(b)), PropsOf(b));
    at, l := FieldTaken(g, p, b, g.keys(PropsOf(b)), read, depth, left, k);
  }

  lemma RecordTaken(g: Given, p: Probes, b: map<string, Json>, read: Access, depth: nat, left: int) returns (at: Access, l: int)
    requires EmitClone(g, p, Obj(b), read, depth, left).Emitted? && IsRecord(b)
    ensures EmitValue(g, p, b["additionalProperties"], at, depth, l).Emitted?
  {
    hide EmitValue, EmitFields, Closed, PropsOf;
    at, l := AVar(Val(depth)), EmitFields(g, p, b, g.keys(PropsOf(b)), read, depth, left).left;
  }

  lemma CopyKeys(b: map<string, Json>, v: map<string, Json>)
    ensures var c := CopyObject(b, v);
      forall k ::
        if k in PropsOf(b) then
          if k in v then k in c && c[k] == CopyValue(PropsOf(b)[k], v[k])
          else if DefaultOf(PropsOf(b)[k]).Some? then k in c && c[k] == DefaultOf(PropsOf(b)[k]).value
          else k !in c
        else if k in v && IsRecord(b) then k in c && c[k] == CopyValue(b["additionalProperties"], v[k])
        else k !in c
  {
    hide CopyValue, PropsOf, IsRecord, DefaultOf;
  }

  /**
   On every document the schema accepts, the emitted program returns the copy of it under the schema as it was
   written, with the defaults written there.
   */
  lemma ParseGiven(g: Given, p: Probes, schema: Json, refs: set<string>, v: Json)
    requires Usable(g) && Inline.Closed(g, schema, refs) && Inline.Proper(schema, refs)
    requires CloneFacts.CloneExprFor(g, p, schema).Emitted? && Inline.Meets(g, schema, schema, v, true)
    ensures v.Obj?
    ensures var c := Eval(CloneFacts.CloneExprFor(g, p, schema).e, map[Data := v]); c.Some? && CopiedElement(g, schema, schema, v, c.value, Inline.BUDGET)
  {
    hide Inline.Inlined, EmitFields, Closed, Inline.Closed, Inline.Proper, Inline.Same, Inline.Meets, Eval, CopyObject, CopiedElement;
    var s := Inline.Inlined(g, schema);
    CloneFacts.ParseCopies(g, p, schema, refs, v);
    InlinedSame(g, schema);
    ClosedObject(g, s.m);
    CopyElement(g, p, schema, refs, schema, s, Inline.BUDGET, false, AVar(Data), 0, SOURCE_BUDGET, v);
  }

  lemma ClosedObject(g: Given, m: map<string, Json>)
    requires Closed(g, m)
    ensures ForObjects(Obj(m)) && !PrimitiveOnly(Obj(m)) && !Refers(Obj(m))
  {
  }

  lemma InlinedSame(g: Given, schema: Json)
    requires Usable(g)
    ensures Inline.Same(g, schema, schema, Inline.Inlined(g, schema), Inline.BUDGET, false)
  {
    hide Inline.Walk, Inline.Same;
    assert Inline.KeysOk(g) by { forall m, k | k in m ensures k in g.keys(m) { assert Lists(g.keys(m), m); } }
    if Inline.Embeds(schema, true) { SameSelf(g, schema); } else { Inline.WalkSame(g, schema, schema, {}, Inline.BUDGET); }
  }

  lemma SameSelf(g: Given, schema: Json)
    ensures Inline.Same(g, schema, schema, schema, Inline.BUDGET, false)
  {
  }
}
