/** What the copy behind parse() promises: exact, nothing smuggled, names kept, and stable or not. */
module CloneFacts {
  import opened Json
  import opened Schemas
  import opened CloneEmit
  import Inline

  // ---------------------------------------------------------------- nothing hides in a scalar

  /** A schema read as primitive accepts nothing that could hold a key. */
  lemma {:induction false} PrimitiveScalar(g: Given, root: Json, s: Json, v: Json, f: nat)
    requires Latest(g)
    requires PrimitiveOnly(s) && Decided(g, root, s, v, f, true)
    ensures IsScalar(v)
    decreases s, 1
  {
    hide RefOn, EveryOn, IfOn, PartAt;
    var m := s.m;
    assert LocalOk(g, m, v);
    if "type" in m {
      PrimitiveType(m, v);
    } else if List(m, "enum").Some? && m["enum"].a != [] && "const" !in m && forall i :: 0 <= i < |m["enum"].a| ==> IsScalar(m["enum"].a[i]) {
    } else if "const" in m && IsScalar(m["const"]) && "enum" !in m {
    } else if List(m, "anyOf").Some? && m["anyOf"].a != [] && forall i :: 0 <= i < |m["anyOf"].a| ==> PrimitiveOnly(m["anyOf"].a[i]) {
      ScalarByAny(g, root, m, v, f);
    } else {
      ScalarByOne(g, root, m, v, f);
    }
  }

  lemma ScalarByAny(g: Given, root: Json, m: map<string, Json>, v: Json, f: nat)
    requires Latest(g) && Accepts(g, root, m, v, f)
    requires List(m, "anyOf").Some? && m["anyOf"].a != [] && forall i :: 0 <= i < |m["anyOf"].a| ==> PrimitiveOnly(m["anyOf"].a[i])
    ensures IsScalar(v)
    decreases Obj(m), 0
  {
    hide RefOn, EveryOn, IfOn, PartAt, PrimitiveOnly;
    var i: nat :| On(g, root, m, v, AtAny(i), f, true);
    AnyPart(g, m, v, i);
    PrimitiveScalar(g, root, m["anyOf"].a[i], v, f);
  }

  lemma ScalarByOne(g: Given, root: Json, m: map<string, Json>, v: Json, f: nat)
    requires Latest(g) && Accepts(g, root, m, v, f)
    requires List(m, "oneOf").Some? && m["oneOf"].a != [] && forall i :: 0 <= i < |m["oneOf"].a| ==> PrimitiveOnly(m["oneOf"].a[i])
    ensures IsScalar(v)
    decreases Obj(m), 0
  {
    hide RefOn, EveryOn, IfOn, PartAt, PrimitiveOnly;
    var i: nat :| OneOnly(g, root, m, v, i, f);
    assert On(g, root, m, v, AtOne(i), f, true);
    OneOfPart(g, m, v, i);
    PrimitiveScalar(g, root, m["oneOf"].a[i], v, f);
  }

  lemma PrimitiveType(m: map<string, Json>, v: Json)
    requires "type" in m && TypeOk(m["type"], v)
    requires match m["type"] case Arr(ts) => (forall i :: 0 <= i < |ts| ==> PrimitiveName(ts[i])) case t => PrimitiveName(t)
    ensures IsScalar(v)
  {
    if m["type"].Arr? {
      var ts := m["type"].a;
      var i :| 0 <= i < |ts| && ts[i].Str? && HasType(ts[i].s, v);
      assert PrimitiveName(ts[i]);
    }
  }

  lemma AnyPart(g: Given, m: map<string, Json>, v: Json, i: nat)
    requires Latest(g)
    requires PartAt(g, m, v, AtAny(i)).Part?
    ensures ListOf(g, m, "anyOf").Some? && i < |m["anyOf"].a| && PartAt(g, m, v, AtAny(i)) == Part(m["anyOf"].a[i], v)
  {
  }

  lemma OneOfPart(g: Given, m: map<string, Json>, v: Json, i: nat)
    requires Latest(g)
    requires PartAt(g, m, v, AtOne(i)).Part?
    ensures ListOf(g, m, "oneOf").Some? && i < |m["oneOf"].a| && PartAt(g, m, v, AtOne(i)) == Part(m["oneOf"].a[i], v)
  {
  }

  /** A tuple the emitter copies whole holds scalars only. */
  lemma TupleScalars(g: Given, root: Json, m: map<string, Json>, v: Json, f: nat)
    requires Latest(g)
    requires IsTuple(m) && FlatTuple(m) && Decided(g, root, Obj(m), v, f, true)
    ensures v.Arr? && forall i :: 0 <= i < |v.a| ==> IsScalar(v.a[i])
  {
    hide Accepts;
    AcceptedArray(g, root, m, v, f);
    forall i: nat | i < |v.a| ensures IsScalar(v.a[i]) {
      if i < |Positions(g, m)| {
        AcceptedPart(g, root, m, v, f, AtPrefix(i));
        PrimitiveScalar(g, root, m["prefixItems"].a[i], v.a[i], f);
      } else if "items" in m {
        AcceptedPart(g, root, m, v, f, AtItem(i));
        if !m["items"].Arr? && m["items"] != Bool(false) { PrimitiveScalar(g, root, m["items"], v.a[i], f); }
      }
    }
  }

  // ---------------------------------------------------------------- nothing undeclared is carried over

  /** No object in the copy holds a key its schema does not declare. */
  ghost predicate Tidy(s: Json, c: Json)
    decreases s, 1
  {
    if !s.Obj? then false
    else if IsTuple(s.m) then c.Arr? && forall i :: 0 <= i < |c.a| ==> IsScalar(c.a[i])
    else if PrimitiveOnly(s) then IsScalar(c)
    else if "instanceof" in s.m then true
    else if HasTypeName(s.m, "object") && Recordable(s.m) then TidyObject(s.m, c)
    else if HasTypeName(s.m, "array") && "items" in s.m then c.Arr? && forall i :: 0 <= i < |c.a| ==> TidyItem(s.m["items"], c.a[i])
    else false
  }

  ghost predicate TidyItem(it: Json, c: Json)
    decreases it, 1
  {
    if PrimitiveOnly(it) then IsScalar(c) else it.Obj? && TidyObject(it.m, c)
  }

  ghost predicate TidyObject(m: map<string, Json>, c: Json)
    decreases Obj(m), 0
  {
    c.Obj? && forall k :: k in c.m ==> (k in PropsOf(m) || IsRecord(m)) && Tidy(SchemaAt(m, k), c.m[k])
  }

  /** Every default filled in is itself tidy. */
  ghost predicate TidyFills(s: Json, v: Json)
    decreases s, 1
  {
    if !s.Obj? || IsTuple(s.m) || PrimitiveOnly(s) || "instanceof" in s.m then true
    else if HasTypeName(s.m, "object") && Recordable(s.m) then TidyFillsObject(s.m, v)
    else HasTypeName(s.m, "array") && "items" in s.m && v.Arr? ==> forall i :: 0 <= i < |v.a| ==> TidyFillsItem(s.m["items"], v.a[i])
  }

  ghost predicate TidyFillsItem(it: Json, v: Json)
    decreases it, 1
  {
    it.Obj? && !PrimitiveOnly(it) ==> TidyFillsObject(it.m, v)
  }

  ghost predicate TidyFillsObject(m: map<string, Json>, v: Json)
    decreases Obj(m), 0
  {
    v.Obj? ==>
      && (forall k :: KeepsKey(m, v.m, k) ==> TidyFills(SchemaAt(m, k), v.m[k]))
      && forall k :: Fills(m, v.m, k) ==> Tidy(PropsOf(m)[k], DefaultOf(PropsOf(m)[k]).value)
  }

  lemma {:induction false} CopyTidy(g: Given, p: Probes, root: Json, prop: Json, read: Access, depth: nat, left: int, v: Json, f: nat)
    requires EmitValue(g, p, prop, read, depth, left).Emitted? && Usable(g) && Decided(g, root, prop, v, f, true)
    ensures Tidy(prop, CopyValue(prop, v)) <==> TidyFills(prop, v)
    decreases prop, 3
  {
    hide EmitClone, Decided, FlatTuple, Closed, CopyObject, TidyObject, TidyFillsObject, PartAt;
    var m := prop.m;
    if IsTuple(m) {
      TupleScalars(g, root, m, v, f);
    } else if PrimitiveOnly(prop) {
      PrimitiveScalar(g, root, prop, v, f);
    } else if "instanceof" in m {
    } else if HasTypeName(m, "object") && Recordable(m) {
      AcceptedObject(g, root, m, v, f);
      CopyTidyObject(g, p, root, prop, read, depth + 1, left, v, f);
    } else {
      AcceptedArray(g, root, m, v, f);
      var it := m["items"];
      forall i: nat | i < |v.a| ensures TidyItem(it, CopyItem(it, v.a[i])) <==> TidyFillsItem(it, v.a[i]) {
        ItemPart(g, m, v, i);
        AcceptedPart(g, root, m, v, f, AtItem(i));
        if PrimitiveOnly(it) {
          PrimitiveScalar(g, root, it, v.a[i], f);
        } else {
          AcceptedObject(g, root, it.m, v.a[i], f);
          CopyTidyObject(g, p, root, it, AVar(El(depth)), depth + 1, left, v.a[i], f);
        }
      }
      TidyEach(it, v.a);
    }
  }

  lemma TidyEach(it: Json, a: seq<Json>)
    requires forall i: nat :: i < |a| ==> (TidyItem(it, CopyItem(it, a[i])) <==> TidyFillsItem(it, a[i]))
    ensures var c := seq(|a|, i requires 0 <= i < |a| => CopyItem(it, a[i]));
            (forall i :: 0 <= i < |c| ==> TidyItem(it, c[i])) <==> forall i :: 0 <= i < |a| ==> TidyFillsItem(it, a[i])
  {
    hide CopyItem, TidyItem, TidyFillsItem;
    var c := seq(|a|, i requires 0 <= i < |a| => CopyItem(it, a[i]));
    if forall i :: 0 <= i < |c| ==> TidyItem(it, c[i]) {
      forall i | 0 <= i < |a| ensures TidyFillsItem(it, a[i]) { assert TidyItem(it, c[i]); }
    }
  }

  lemma {:induction false} CopyTidyObject(g: Given, p: Probes, root: Json, node: Json, a: Access, depth: nat, left: int, v: Json, f: nat)
    requires EmitClone(g, p, node, a, depth, left).Emitted? && Usable(g) && Decided(g, root, node, v, f, true)
    ensures v.Obj? && (TidyObject(node.m, Obj(CopyObject(node.m, v.m))) <==> TidyFillsObject(node.m, v))
    decreases node, 2
  {
    hide Decided, PartAt, EmitValue, EmitFields, RequiredNames, Tidy, TidyFills, CopyValue;
    var m := node.m;
    var ks := g.keys(PropsOf(m));
    AcceptedObject(g, root, m, v, f);
    assert Lists(ks, PropsOf(m));
    var c := CopyObject(m, v.m);
    forall k | KeepsKey(m, v.m, k) ensures Tidy(SchemaAt(m, k), c[k]) <==> TidyFills(SchemaAt(m, k), v.m[k]) {
      if k in PropsOf(m) {
        var read, l := FieldTaken(g, p, m, ks, a, depth, left, k);
        PropertyPart(g, m, v, k);
        AcceptedPart(g, root, m, v, f, AtProperty(k));
        CopyTidy(g, p, root, PropsOf(m)[k], read, depth, l, v.m[k], f);
      } else {
        var l := EmitFields(g, p, m, ks, a, depth, left).left;
        MorePart(g, m, v, k);
        AcceptedPart(g, root, m, v, f, AtMore(k));
        CopyTidy(g, p, root, m["additionalProperties"], AVar(Val(depth)), depth, l, v.m[k], f);
      }
    }
    TidyByKey(m, v.m);
  }

  /** A copy is tidy key by key: what was kept, and what was filled in. */
  lemma TidyByKey(m: map<string, Json>, v: map<string, Json>)
    ensures var c := CopyObject(m, v);
            TidyObject(m, Obj(c)) <==>
            && (forall k :: KeepsKey(m, v, k) ==> Tidy(SchemaAt(m, k), c[k]))
            && forall k :: Fills(m, v, k) ==> Tidy(PropsOf(m)[k], DefaultOf(PropsOf(m)[k]).value)
  {
    hide Tidy, CopyValue, PropsOf, IsRecord, DefaultOf;
    var c := CopyObject(m, v);
    forall k | Fills(m, v, k) ensures k in c && c[k] == DefaultOf(PropsOf(m)[k]).value {}
  }

  // ---------------------------------------------------------------- copying the copy

  /**
   A value whose objects hold declared members only, or stand under a record schema, and lack no member
   with a default: what a copy leaves alone.
   */
  predicate Settled(s: Json, v: Json)
    decreases s, 1
  {
    if !s.Obj? || IsTuple(s.m) || PrimitiveOnly(s) || "instanceof" in s.m then true
    else if HasTypeName(s.m, "object") && Recordable(s.m) then v.Obj? ==> SettledObject(s.m, v.m)
    else HasTypeName(s.m, "array") && "items" in s.m && v.Arr? ==> forall i :: 0 <= i < |v.a| ==> SettledItem(s.m["items"], v.a[i])
  }

  predicate SettledItem(it: Json, v: Json)
    decreases it, 1
  {
    it.Obj? && !PrimitiveOnly(it) && HasTypeName(it.m, "object") && Recordable(it.m) && v.Obj? ==> SettledObject(it.m, v.m)
  }

  predicate SettledObject(m: map<string, Json>, v: map<string, Json>)
    decreases Obj(m), 0
  {
    && (forall k :: k in v ==> (k in PropsOf(m) || IsRecord(m)) && Settled(SchemaAt(m, k), v[k]))
    && forall k :: k in PropsOf(m) ==> !Fills(m, v, k)
  }

  /** Copying changes nothing exactly when the value is settled. */
  lemma {:induction false} CopySettled(s: Json, v: Json)
    ensures CopyValue(s, v) == v <==> Settled(s, v)
    decreases s, 1
  {
    hide CopyObject, SettledObject, PrimitiveOnly;
    if !s.Obj? || IsTuple(s.m) || PrimitiveOnly(s) || "instanceof" in s.m {
    } else if HasTypeName(s.m, "object") && Recordable(s.m) {
      if v.Obj? { CopySettledObject(s.m, v.m); }
    } else if HasTypeName(s.m, "array") && "items" in s.m && v.Arr? {
      var it, c := s.m["items"], CopyValue(s, v).a;
      forall i: nat | i < |v.a| ensures c[i] == v.a[i] <==> SettledItem(it, v.a[i]) { CopySettledItem(it, v.a[i]); }
      if c == v.a { assert forall i :: 0 <= i < |v.a| ==> c[i] == v.a[i]; }
    }
  }

  lemma {:induction false} CopySettledItem(it: Json, v: Json)
    ensures CopyItem(it, v) == v <==> SettledItem(it, v)
    decreases it, 1
  {
    hide CopyObject, SettledObject, PrimitiveOnly;
    if it.Obj? && !PrimitiveOnly(it) && HasTypeName(it.m, "object") && Recordable(it.m) && v.Obj? { CopySettledObject(it.m, v.m); }
  }

  lemma {:induction false} CopySettledObject(m: map<string, Json>, v: map<string, Json>)
    ensures CopyObject(m, v) == v <==> SettledObject(m, v)
    decreases Obj(m), 0
  {
    hide CopyValue, Settled, PropsOf, IsRecord, DefaultOf;
    var c := CopyObject(m, v);
    forall k | KeepsKey(m, v, k) ensures c[k] == v[k] <==> Settled(SchemaAt(m, k), v[k]) { CopySettled(SchemaAt(m, k), v[k]); }
    if c == v {
      forall k | k in v ensures KeepsKey(m, v, k) { assert k in c; }
      forall k | k in PropsOf(m) ensures !Fills(m, v, k) { assert Fills(m, v, k) ==> k in c; }
    } else if SettledObject(m, v) {
      forall k ensures k in c <==> k in v { assert Fills(m, v, k) ==> k in PropsOf(m); }
      assert forall k :: k in c ==> c[k] == v[k];
    }
  }

  /** Every default filled in is settled. */
  ghost predicate FixedFills(s: Json, v: Json)
    decreases s, 1
  {
    if !s.Obj? || IsTuple(s.m) || PrimitiveOnly(s) || "instanceof" in s.m then true
    else if HasTypeName(s.m, "object") && Recordable(s.m) then v.Obj? ==> FixedFillsObject(s.m, v.m)
    else HasTypeName(s.m, "array") && "items" in s.m && v.Arr? ==> forall i :: 0 <= i < |v.a| ==> FixedFillsItem(s.m["items"], v.a[i])
  }

  ghost predicate FixedFillsItem(it: Json, v: Json)
    decreases it, 1
  {
    it.Obj? && !PrimitiveOnly(it) && HasTypeName(it.m, "object") && Recordable(it.m) && v.Obj? ==> FixedFillsObject(it.m, v.m)
  }

  ghost predicate FixedFillsObject(m: map<string, Json>, v: map<string, Json>)
    decreases Obj(m), 0
  {
    && (forall k :: KeepsKey(m, v, k) ==> FixedFills(SchemaAt(m, k), v[k]))
    && forall k :: Fills(m, v, k) ==> FixedDefault(PropsOf(m)[k])
  }

  /** The default names no member its own schema does not declare, and leaves out none that has a default, at any depth. */
  predicate FixedDefault(prop: Json)
    requires DefaultOf(prop).Some?
  {
    Settled(prop, DefaultOf(prop).value)
  }

  /** A second copy changes nothing exactly when every default the first one filled in is settled. */
  lemma {:induction false} CopyTwice(s: Json, v: Json)
    ensures CopyValue(s, CopyValue(s, v)) == CopyValue(s, v) <==> FixedFills(s, v)
    decreases s, 1
  {
    hide CopyObject, FixedFillsObject, PrimitiveOnly;
    if !s.Obj? || IsTuple(s.m) || PrimitiveOnly(s) || "instanceof" in s.m {
    } else if HasTypeName(s.m, "object") && Recordable(s.m) {
      if v.Obj? { CopyTwiceObject(s.m, v.m); }
    } else if HasTypeName(s.m, "array") && "items" in s.m && v.Arr? {
      var it := s.m["items"];
      forall i: nat | i < |v.a| ensures CopyItem(it, CopyItem(it, v.a[i])) == CopyItem(it, v.a[i]) <==> FixedFillsItem(it, v.a[i]) {
        CopyTwiceItem(it, v.a[i]);
      }
      TwiceEach(it, v.a);
    }
  }

  lemma TwiceEach(it: Json, a: seq<Json>)
    requires forall i: nat :: i < |a| ==> (CopyItem(it, CopyItem(it, a[i])) == CopyItem(it, a[i]) <==> FixedFillsItem(it, a[i]))
    ensures var once := seq(|a|, i requires 0 <= i < |a| => CopyItem(it, a[i]));
            var twice := seq(|once|, i requires 0 <= i < |once| => CopyItem(it, once[i]));
            twice == once <==> forall i :: 0 <= i < |a| ==> FixedFillsItem(it, a[i])
  {
    hide CopyItem, FixedFillsItem;
    var once := seq(|a|, i requires 0 <= i < |a| => CopyItem(it, a[i]));
    var twice := seq(|once|, i requires 0 <= i < |once| => CopyItem(it, once[i]));
    forall i: nat | i < |a| ensures twice[i] == once[i] <==> FixedFillsItem(it, a[i]) {
    }
    if twice == once {
      forall i | 0 <= i < |a| ensures FixedFillsItem(it, a[i]) { assert twice[i] == once[i]; }
    }
  }

  lemma {:induction false} CopyTwiceItem(it: Json, v: Json)
    ensures CopyItem(it, CopyItem(it, v)) == CopyItem(it, v) <==> FixedFillsItem(it, v)
    decreases it, 1
  {
    hide CopyObject, FixedFillsObject, PrimitiveOnly;
    if it.Obj? && !PrimitiveOnly(it) && HasTypeName(it.m, "object") && Recordable(it.m) && v.Obj? { CopyTwiceObject(it.m, v.m); }
  }

  lemma {:induction false} CopyTwiceObject(m: map<string, Json>, v: map<string, Json>)
    ensures CopyObject(m, CopyObject(m, v)) == CopyObject(m, v) <==> FixedFillsObject(m, v)
    decreases Obj(m), 0
  {
    hide CopyValue, FixedFills, PropsOf, IsRecord, DefaultOf, Settled;
    var c := CopyObject(m, v);
    var cc := CopyObject(m, c);
    assert forall k :: k in cc <==> k in c;
    forall k | k in c ensures cc[k] == CopyValue(SchemaAt(m, k), c[k]) {
    }
    forall k | KeepsKey(m, v, k) ensures cc[k] == c[k] <==> FixedFills(SchemaAt(m, k), v[k]) {
      CopyTwice(SchemaAt(m, k), v[k]);
    }
    forall k | Fills(m, v, k) ensures cc[k] == c[k] <==> FixedDefault(PropsOf(m)[k]) {
      CopySettled(PropsOf(m)[k], DefaultOf(PropsOf(m)[k]).value);
    }
    assert FixedFillsObject(m, v) ==> forall k :: k in c ==> cc[k] == c[k];
    assert (forall k :: k in c ==> cc[k] == c[k]) ==> cc == c;
  }

  /** A scalar default always is. */
  lemma ScalarDefault(prop: Json)
    requires DefaultOf(prop).Some? && IsScalar(DefaultOf(prop).value)
    ensures FixedDefault(prop)
  {
  }

  // ---------------------------------------------------------------- the names the schema requires

  predicate NeedsAll(m: map<string, Json>, have: set<string>) {
    && RequiredOf(m) <= have
    && NeedsDependents(Table(m, "dependentRequired"), have) && NeedsDependents(Table(m, "dependencies"), have)
  }

  predicate NeedsDependents(t: map<string, Json>, have: set<string>) {
    forall k :: k in t && k in have ==> ListNames(t[k]) <= have
  }

  /**
   The demands on an object's names through a node and its in-place applicators; `rest` stands for
   every other keyword of a node.
   */
  ghost predicate Satisfied(node: Json, have: set<string>, rest: Json -> bool)
    decreases node, 1
  {
    match node
    case Bool(b) => b
    case Obj(m) =>
      && rest(node) && NeedsAll(m, have)
      && (List(m, "allOf").Some? ==> forall i :: 0 <= i < |m["allOf"].a| ==> Satisfied(m["allOf"].a[i], have, rest))
      && (List(m, "anyOf").Some? ==> exists i :: 0 <= i < |m["anyOf"].a| && Satisfied(m["anyOf"].a[i], have, rest))
      && (List(m, "oneOf").Some? ==> exists i :: 0 <= i < |m["oneOf"].a| && OnlyOne(m["oneOf"].a, i, have, rest))
      && ("if" in m ==>
        if Satisfied(m["if"], have, rest) then "then" in m ==> Satisfied(m["then"], have, rest)
        else "else" in m ==> Satisfied(m["else"], have, rest))
    case _ => true
  }

  ghost predicate OnlyOne(l: seq<Json>, i: nat, have: set<string>, rest: Json -> bool)
    requires i < |l|
    decreases l, 0
  {
    forall j :: 0 <= j < |l| ==> (Satisfied(l[j], have, rest) <==> j == i)
  }

  lemma {:induction false} AllNamesHold(l: seq<Json>, depth: nat, i: nat)
    requires i < |l| && AllNames(l, depth).Names?
    ensures RequiredNames(l[i], depth).Names? && RequiredNames(l[i], depth).all <= AllNames(l, depth).all
    decreases |l|
  {
    if i < |l| - 1 { AllNamesHold(l[..|l| - 1], depth, i); }
  }

  lemma OwnWithin(m: map<string, Json>, depth: nat)
    requires RequiredNames(Obj(m), depth).Names?
    ensures RequiredOf(m) <= RequiredNames(Obj(m), depth).all
    ensures DependentNames(Table(m, "dependentRequired")) <= RequiredNames(Obj(m), depth).all
    ensures DependentNames(Table(m, "dependencies")) <= RequiredNames(Obj(m), depth).all
  {
    hide BranchNames, OneNames, DependentNames, RequiredOf;
  }

  ghost predicate Within(n: Names, all: set<string>) { n.Names? && n.all <= all }

  lemma AppliedWithin(m: map<string, Json>, depth: nat)
    requires RequiredNames(Obj(m), depth).Names?
    ensures var all := RequiredNames(Obj(m), depth).all;
            && (forall k :: k in {"allOf", "anyOf", "oneOf"} ==> Within(BranchNames(m, k, depth), all))
            && (forall k :: k in {"if", "then", "else"} ==> Within(OneNames(m, k, depth), all))
  {
    hide BranchNames, OneNames, OwnNames;
    assert AppliedNames(m, depth).Names?;
  }

  lemma BranchWithin(m: map<string, Json>, depth: nat, k: string, i: nat)
    requires RequiredNames(Obj(m), depth).Names? && k in {"allOf", "anyOf", "oneOf"} && List(m, k).Some? && i < |m[k].a|
    ensures RequiredNames(m[k].a[i], depth + 1).Names? && RequiredNames(m[k].a[i], depth + 1).all <= RequiredNames(Obj(m), depth).all
  {
    hide AllNames, RequiredNames;
    AppliedWithin(m, depth);
    assert Within(BranchNames(m, k, depth), RequiredNames(Obj(m), depth).all);
    AllNamesHold(m[k].a, depth + 1, i);
  }

  lemma OneWithin(m: map<string, Json>, depth: nat, k: string)
    requires RequiredNames(Obj(m), depth).Names? && k in {"if", "then", "else"} && k in m
    ensures RequiredNames(m[k], depth + 1).Names? && RequiredNames(m[k], depth + 1).all <= RequiredNames(Obj(m), depth).all
  {
    hide RequiredNames;
    AppliedWithin(m, depth);
    assert Within(OneNames(m, k, depth), RequiredNames(Obj(m), depth).all);
  }

  lemma OwnNamesDecide(m: map<string, Json>, all: set<string>, a: set<string>, b: set<string>)
    requires RequiredOf(m) <= all && DependentNames(Table(m, "dependentRequired")) <= all && DependentNames(Table(m, "dependencies")) <= all
    requires forall n :: n in all ==> (n in a <==> n in b)
    ensures NeedsAll(m, a) <==> NeedsAll(m, b)
  {
    hide RequiredOf;
    DependentsDecide(Table(m, "dependentRequired"), all, a, b);
    DependentsDecide(Table(m, "dependencies"), all, a, b);
  }

  lemma DependentsDecide(t: map<string, Json>, all: set<string>, a: set<string>, b: set<string>)
    requires DependentNames(t) <= all && forall n :: n in all ==> (n in a <==> n in b)
    ensures NeedsDependents(t, a) <==> NeedsDependents(t, b)
  {
    hide ListNames;
    forall k | k in t ensures k in all && ListNames(t[k]) <= all {
      assert k in DependentNames(t);
      forall n | n in ListNames(t[k]) ensures n in all { assert n in DependentNames(t); }
    }
  }

  ghost predicate Agree(l: seq<Json>, a: set<string>, b: set<string>, rest: Json -> bool) {
    forall i :: 0 <= i < |l| ==> (Satisfied(l[i], a, rest) <==> Satisfied(l[i], b, rest))
  }

  ghost predicate AgreeAt(m: map<string, Json>, k: string, a: set<string>, b: set<string>, rest: Json -> bool) {
    k in m ==> (Satisfied(m[k], a, rest) <==> Satisfied(m[k], b, rest))
  }

  lemma Combine(m: map<string, Json>, a: set<string>, b: set<string>, rest: Json -> bool)
    requires NeedsAll(m, a) <==> NeedsAll(m, b)
    requires List(m, "allOf").Some? ==> Agree(m["allOf"].a, a, b, rest)
    requires List(m, "anyOf").Some? ==> Agree(m["anyOf"].a, a, b, rest)
    requires List(m, "oneOf").Some? ==> Agree(m["oneOf"].a, a, b, rest)
    requires AgreeAt(m, "if", a, b, rest) && AgreeAt(m, "then", a, b, rest) && AgreeAt(m, "else", a, b, rest)
    ensures Satisfied(Obj(m), a, rest) <==> Satisfied(Obj(m), b, rest)
  {
    hide NeedsAll;
    if List(m, "oneOf").Some? {
      var l := m["oneOf"].a;
      forall i: nat | i < |l| ensures OnlyOne(l, i, a, rest) <==> OnlyOne(l, i, b, rest) {
      }
    }
  }

  /** Two sets of names that agree on the demanded ones satisfy the same demands. */
  lemma {:induction false} NamesDecide(node: Json, depth: nat, a: set<string>, b: set<string>, rest: Json -> bool)
    requires RequiredNames(node, depth).Names?
    requires forall n :: n in RequiredNames(node, depth).all ==> (n in a <==> n in b)
    ensures Satisfied(node, a, rest) <==> Satisfied(node, b, rest)
    decreases node
  {
    if node.Obj? {
      var m := node.m;
      var all := RequiredNames(node, depth).all;
      OwnWithin(m, depth);
      OwnNamesDecide(m, all, a, b);
      forall k, i | k in {"allOf", "anyOf", "oneOf"} && List(m, k).Some? && 0 <= i < |m[k].a|
        ensures Satisfied(m[k].a[i], a, rest) <==> Satisfied(m[k].a[i], b, rest)
      {
        BranchWithin(m, depth, k, i);
        NamesDecide(m[k].a[i], depth + 1, a, b, rest);
      }
      forall k | k in {"if", "then", "else"} && k in m ensures Satisfied(m[k], a, rest) <==> Satisfied(m[k], b, rest) {
        OneWithin(m, depth, k);
        NamesDecide(m[k], depth + 1, a, b, rest);
      }
      hide Satisfied;
      Combine(m, a, b, rest);
    }
  }

  /** The names a value brings with it, once defaults are filled in. */
  ghost function FilledNames(m: map<string, Json>, v: map<string, Json>): set<string> {
    v.Keys + set k | k in PropsOf(m) && Fills(m, v, k)
  }

  /**
   Dropping undeclared keys costs nothing the schema asks for: every demanded name the value has is
   kept, and the demands of the node and its applicators come out the same on the copy as on the
   value with its defaults filled in.
   */
  lemma CopyKeepsNames(g: Given, p: Probes, node: Json, a: Access, depth: nat, left: int, v: map<string, Json>, rest: Json -> bool)
    requires EmitClone(g, p, node, a, depth, left).Emitted? && !IsRecord(node.m)
    ensures RequiredNames(node, 0).Names? && RequiredNames(node, 0).all * v.Keys <= CopyObject(node.m, v).Keys
    ensures Satisfied(node, FilledNames(node.m, v), rest) <==> Satisfied(node, CopyObject(node.m, v).Keys, rest)
  {
    hide Satisfied, RequiredNames, EmitFields, EmitValue, CopyValue;
    var m := node.m;
    assert Closed(g, m);
    NamesDecide(node, 0, FilledNames(m, v), CopyObject(m, v).Keys, rest);
  }

  // ---------------------------------------------------------------- the whole of parse()'s copy

  /** The compiled check of a default answers as the schema does. */
  ghost predicate Sound(g: Given, root: Json, p: Probes) {
    forall prop, d :: p.holds(prop, d) ==> Inline.Meets(g, root, prop, d, true)
  }

  lemma {:induction false} DefaultProbed(g: Given, p: Probes, m: map<string, Json>, ks: seq<string>, a: Access, depth: nat, left: int, k: string)
    requires EmitFields(g, p, m, ks, a, depth, left).Fields? && k in ks && k in PropsOf(m) && DefaultOf(PropsOf(m)[k]).Some?
    ensures p.holds(PropsOf(m)[k], DefaultOf(PropsOf(m)[k]).value)
    decreases |ks|
  {
    hide EmitValue;
    var init := ks[..|ks| - 1];
    if k in init { DefaultProbed(g, p, m, init, a, depth, left, k); }
  }

  /** A copy has the form the program reads, so that it can be copied again. */
  lemma {:induction false} CopyShaped(g: Given, p: Probes, root: Json, prop: Json, read: Access, depth: nat, left: int, v: Json)
    requires EmitValue(g, p, prop, read, depth, left).Emitted? && Usable(g) && Sound(g, root, p) && Shaped(prop, v)
    ensures Shaped(prop, CopyValue(prop, v))
    decreases prop, 3
  {
    hide EmitClone, CopyObject, ShapedObject, PrimitiveOnly, FlatTuple, Closed, Sound;
    var m := prop.m;
    if IsTuple(m) || PrimitiveOnly(prop) || "instanceof" in m {
    } else if HasTypeName(m, "object") && Recordable(m) {
      assert v.Obj? by { IsObject(m, v); }
      CopyShapedObject(g, p, root, prop, read, depth + 1, left, v);
    } else {
      var it := m["items"];
      forall i: nat | i < |v.a| ensures ShapedItem(it, CopyItem(it, v.a[i])) {
        assert ShapedItem(it, v.a[i]);
        if !PrimitiveOnly(it) {
          assert v.a[i].Obj? by { IsObject(it.m, v.a[i]); }
          CopyShapedObject(g, p, root, it, AVar(El(depth)), depth + 1, left, v.a[i]);
        }
      }
    }
  }

  lemma {:induction false} CopyShapedObject(g: Given, p: Probes, root: Json, node: Json, a: Access, depth: nat, left: int, v: Json)
    requires EmitClone(g, p, node, a, depth, left).Emitted? && Usable(g) && Sound(g, root, p) && ShapedObject(node.m, v)
    ensures v.Obj? && ShapedObject(node.m, Obj(CopyObject(node.m, v.m)))
    decreases node, 2
  {
    hide EmitValue, EmitFields, RequiredNames, Shaped, CopyValue, PropsOf, RequiredOf, Closed;
    var m := node.m;
    var ks := g.keys(PropsOf(m));
    assert Lists(ks, PropsOf(m));
    var c := CopyObject(m, v.m);
    forall k | KeepsKey(m, c, k) ensures Shaped(SchemaAt(m, k), c[k]) {
      if k in PropsOf(m) {
        var read, l := FieldTaken(g, p, m, ks, a, depth, left, k);
        if k in v.m {
          CopyShaped(g, p, root, PropsOf(m)[k], read, depth, l, v.m[k]);
        } else {
          var d := DefaultOf(PropsOf(m)[k]).value;
          DefaultProbed(g, p, m, ks, a, depth, left, k);
          var f: nat :| Decided(g, root, PropsOf(m)[k], d, f, true);
          AcceptedShaped(g, p, root, PropsOf(m)[k], read, depth, l, d, f);
        }
      } else {
        var l := EmitFields(g, p, m, ks, a, depth, left).left;
        CopyShaped(g, p, root, m["additionalProperties"], AVar(Val(depth)), depth, l, v.m[k]);
      }
    }
  }

  function CloneExprFor(g: Given, p: Probes, schema: Json): Emitted {
    EmitClone(g, p, Inline.Inlined(g, schema), AVar(Data), 0, SOURCE_BUDGET)
  }

  /**
   On every document the schema accepts, the emitted program returns the copy of it under the inlined
   schema; and nothing undeclared is in it exactly when no default it filled in brought it.
   */
  lemma ParseCopies(g: Given, p: Probes, schema: Json, refs: set<string>, v: Json)
    requires Usable(g) && Inline.Closed(g, schema, refs) && Inline.Proper(schema, refs)
    requires CloneExprFor(g, p, schema).Emitted? && Inline.Meets(g, schema, schema, v, true)
    ensures var m := Inline.Inlined(g, schema).m;
            && v.Obj? && Eval(CloneExprFor(g, p, schema).e, map[Data := v]) == Some(Obj(CopyObject(m, v.m)))
            && (TidyObject(m, Obj(CopyObject(m, v.m))) <==> TidyFillsObject(m, v))
  {
    hide Inline.Inlined, EmitFields, Closed, Inline.Closed, Inline.Proper, Eval, CopyObject, TidyObject, TidyFillsObject, Decided, ShapedObject;
    var s := Inline.Inlined(g, schema);
    assert Inline.KeysOk(g) by { forall m, k | k in m ensures k in g.keys(m) { assert Lists(g.keys(m), m); } }
    Inline.InlineExact(g, schema, refs, v, true);
    var f: nat :| Decided(g, schema, s, v, f, true);
    AcceptedShapedObject(g, p, schema, s, AVar(Data), 0, SOURCE_BUDGET, v, f);
    CloneRuns(g, p, s, AVar(Data), 0, SOURCE_BUDGET, map[Data := v], v);
    assert v.Obj? by { IsObject(s.m, v); }
    CopyTidyObject(g, p, schema, s, AVar(Data), 0, SOURCE_BUDGET, v, f);
  }

  /** Run on its own result, the program changes nothing exactly when the defaults it filled in are settled. */
  lemma ParseTwice(g: Given, p: Probes, schema: Json, refs: set<string>, v: Json)
    requires Usable(g) && Inline.Closed(g, schema, refs) && Inline.Proper(schema, refs) && Sound(g, schema, p)
    requires CloneExprFor(g, p, schema).Emitted? && Inline.Meets(g, schema, schema, v, true)
    ensures v.Obj?
    ensures var m := Inline.Inlined(g, schema).m;
            var e := CloneExprFor(g, p, schema).e;
            var copy := Obj(CopyObject(m, v.m));
            && Eval(e, map[Data := v]) == Some(copy) && Eval(e, map[Data := copy]) == Some(Obj(CopyObject(m, copy.m)))
            && (Eval(e, map[Data := copy]) == Some(copy) <==> FixedFillsObject(m, v.m))
  {
    hide Inline.Inlined, EmitFields, Closed, Inline.Closed, Inline.Proper, Eval, CopyObject, Decided, ShapedObject, FixedFillsObject, Sound;
    var s := Inline.Inlined(g, schema);
    ParseCopies(g, p, schema, refs, v);
    assert Inline.KeysOk(g) by { forall m, k | k in m ensures k in g.keys(m) { assert Lists(g.keys(m), m); } }
    Inline.InlineExact(g, schema, refs, v, true);
    var f: nat :| Decided(g, schema, s, v, f, true);
    AcceptedShapedObject(g, p, schema, s, AVar(Data), 0, SOURCE_BUDGET, v, f);
    CopyShapedObject(g, p, schema, s, AVar(Data), 0, SOURCE_BUDGET, v);
    var copy := Obj(CopyObject(s.m, v.m));
    CloneRuns(g, p, s, AVar(Data), 0, SOURCE_BUDGET, map[Data := copy], copy);
    CopyTwiceObject(s.m, v.m);
  }

  // ---------------------------------------------------------------- collecting the names, as it runs

  class NameCollector {
    var out: set<string>

    constructor ()
      ensures out == {}
    {
      out := {};
    }

    /** False where the walk cannot tell. */
    method Visit(node: Json, depth: nat) returns (ok: bool)
      modifies this
      ensures ok == RequiredNames(node, depth).Names?
      ensures ok ==> out == old(out) + RequiredNames(node, depth).all
      decreases node, 2
    {
      hide DependentNames, RequiredOf, AppliedNames;
      if !node.Obj? { return true; }
      var m := node.m;
      if depth > DEEPEST || (depth > 0 && "$ref" in m) || "dependentSchemas" in m { return false; }
      out := out + RequiredOf(m) + DependentNames(Table(m, "dependentRequired"));
      if "dependencies" in m && (!m["dependencies"].Obj? || exists k :: k in m["dependencies"].m && !m["dependencies"].m[k].Arr?) { return false; }
      out := out + DependentNames(Table(m, "dependencies"));
      ok := VisitApplicators(m, depth);
    }

    method VisitApplicators(m: map<string, Json>, depth: nat) returns (ok: bool)
      modifies this
      ensures ok == ((forall k :: k in {"allOf", "anyOf", "oneOf"} && k in m ==> m[k].Arr?) && AppliedNames(m, depth).Names?)
      ensures ok ==> out == old(out) + AppliedNames(m, depth).all
      decreases Obj(m), 1
    {
      hide BranchNames, OneNames;
      ok := VisitBranches(m, "allOf", depth);
      if !ok { return; }
      ok := VisitBranches(m, "anyOf", depth);
      if !ok { return; }
      ok := VisitBranches(m, "oneOf", depth);
      if !ok { return; }
      ok := VisitOne(m, "if", depth);
      if !ok { return; }
      ok := VisitOne(m, "then", depth);
      if !ok { return; }
      ok := VisitOne(m, "else", depth);
    }

    method VisitBranches(m: map<string, Json>, k: string, depth: nat) returns (ok: bool)
      modifies this
      ensures ok == ((k in m ==> m[k].Arr?) && BranchNames(m, k, depth).Names?)
      ensures ok ==> out == old(out) + BranchNames(m, k, depth).all
      decreases Obj(m), 0
    {
      hide RequiredNames;
      if k !in m { return true; }
      if !m[k].Arr? { return false; }
      var l := m[k].a;
      var i := 0;
      while i < |l|
        invariant 0 <= i <= |l| && AllNames(l[..i], depth + 1).Names?
        invariant out == old(out) + AllNames(l[..i], depth + 1).all
      {
        assert l[..i + 1][..i] == l[..i];
        var inner := Visit(l[i], depth + 1);
        if !inner {
          NamesPrefix(l, i + 1, depth + 1);
          return false;
        }
        i := i + 1;
      }
      assert l[..i] == l;
      ok := true;
    }

    method VisitOne(m: map<string, Json>, k: string, depth: nat) returns (ok: bool)
      modifies this
      ensures ok == OneNames(m, k, depth).Names?
      ensures ok ==> out == old(out) + OneNames(m, k, depth).all
      decreases Obj(m), 0
    {
      if k !in m { return true; }
      ok := Visit(m[k], depth + 1);
    }
  }

  lemma {:induction false} NamesPrefix(l: seq<Json>, n: nat, depth: nat)
    requires n <= |l| && AllNames(l[..n], depth).CannotTell?
    ensures AllNames(l, depth).CannotTell?
    decreases |l| - n
  {
    if n < |l| {
      assert l[..n + 1][..n] == l[..n];
      NamesPrefix(l, n + 1, depth);
    } else {
      assert l[..n] == l;
    }
  }
}
