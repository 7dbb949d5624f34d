/** The walk appends something exactly when the value is refused. */
module NativeFacts {
  import opened Json
  import opened Canonical
  import opened NativeWalk
  import PositionWalk

  lemma ScalarIff(c: Context, n: Node, v: Doc, path: string)
    ensures ScalarErrors(c, n, v, path) == [] <==> ScalarOk(c, n, v)
  {
    hide Canon, TypeAllowed, IsMultiple, TypeOf;
    if v.DScalar? && v.v.Num? { NumberIff(c, n, v.v.n, path); }
    if v.DScalar? && v.v.Str? { StringIff(c, n, v.v.s, path); }
  }

  lemma NumberIff(c: Context, n: Node, x: real, path: string)
    ensures NumberErrors(c, n, x, path) == [] <==> NumberOk(c, n, x)
  {
    hide IsMultiple;
  }

  lemma StringIff(c: Context, n: Node, s: string, path: string)
    ensures StringErrors(c, n, s, path) == [] <==> StringOk(c, n, s)
  {
  }

  lemma {:induction false} MissingIff(ms: seq<DMember>, names: seq<string>, path: string)
    ensures MissingErrors(ms, names, path) == [] <==> forall j :: 0 <= j < |names| ==> Has(ms, names[j])
    decreases |names|
  {
    hide Has;
    if names != [] {
      var init := names[..|names| - 1];
      MissingIff(ms, init, path);
      assert forall j :: 0 <= j < |init| ==> init[j] == names[j];
    }
  }

  lemma {:induction false} DependentRequiredIff(ms: seq<DMember>, ds: seq<DependentNames>, path: string)
    ensures DependentRequiredErrors(ms, ds, path) == [] <==>
      forall i :: 0 <= i < |ds| && Has(ms, ds[i].prop) ==> forall j :: 0 <= j < |ds[i].names| ==> Has(ms, ds[i].names[j])
    decreases |ds|
  {
    hide Has;
    if ds != [] {
      var init, d := ds[..|ds| - 1], ds[|ds| - 1];
      DependentRequiredIff(ms, init, path);
      MissingIff(ms, d.names, path);
      assert forall i :: 0 <= i < |init| ==> init[i] == ds[i];
    }
  }

  /** The list stays empty exactly when the value is accepted, at every depth. */
  lemma {:induction false} ErrorsIff(c: Context, n: Node, v: Doc, path: string, depth: nat)
    ensures Errors(c, n, v, path, depth) == [] <==> Ok(c, n, v, depth)
    decreases LIMIT + 1 - depth, 0
  {
    hide ScalarErrors, ScalarOk, ArrayErrors, ArrayOk, ObjectErrors, ObjectOk, CombinedErrors, CombinedOk, Resolve;
    if depth < LIMIT && n.boolean.None? {
      if n.ref != "" && Resolve(c, n.ref).Yes? { ErrorsIff(c, Resolve(c, n.ref).node, v, path, depth + 1); }
      ScalarIff(c, n, v, path);
      if v.DArr? { ArrayIff(c, n, v.items, path, depth + 1); }
      if v.DObj? { ObjectIff(c, n, v, path, depth + 1); }
      CombinedIff(c, n, v, path, depth + 1);
    }
  }

  lemma {:induction false} OptIff(c: Context, o: OptNode, v: Doc, path: string, depth: nat)
    requires 0 < depth <= LIMIT
    ensures OptErrors(c, o, v, path, depth) == [] <==> OptOk(c, o, v, depth)
    decreases LIMIT + 1 - depth, 1
  {
    if o.Yes? { ErrorsIff(c, o.node, v, path, depth); }
  }

  lemma {:induction false} ItemsIff(c: Context, n: Node, a: seq<Doc>, path: string, depth: nat)
    requires 0 < depth <= LIMIT
    ensures ItemErrors(c, n, a, path, depth) == [] <==> forall i :: 0 <= i < |a| ==> OptOk(c, ItemSchema(n, i), a[i], depth)
    decreases LIMIT + 1 - depth, 2, |a|
  {
    hide OptErrors, OptOk, ItemSchema;
    if a != [] {
      var i := |a| - 1;
      ItemsIff(c, n, a[..i], path, depth);
      assert forall k :: 0 <= k < i ==> a[..i][k] == a[k];
      OptIff(c, ItemSchema(n, i), a[i], path + "/" + PositionWalk.NatText(i), depth);
    }
  }

  lemma {:induction false} CountIff(c: Context, s: Node, a: seq<Doc>, path: string, depth: nat)
    requires 0 < depth <= LIMIT
    ensures CountClean(c, s, a, path, depth) == CountOk(c, s, a, depth)
    decreases LIMIT + 1 - depth, 1, |a|
  {
    hide Errors, Ok;
    if a != [] {
      CountIff(c, s, a[..|a| - 1], path, depth);
      ErrorsIff(c, s, a[|a| - 1], path, depth);
    }
  }

  lemma {:induction false} ArrayIff(c: Context, n: Node, a: seq<Doc>, path: string, depth: nat)
    requires 0 < depth <= LIMIT
    ensures ArrayErrors(c, n, a, path, depth) == [] <==> ArrayOk(c, n, a, depth)
    decreases LIMIT + 1 - depth, 3
  {
    hide ItemErrors, CountClean, CountOk, Canon, OptOk, ItemSchema;
    ItemsIff(c, n, a, path, depth);
    if n.contains.Yes? { CountIff(c, n.contains.node, a, path, depth); }
  }

  lemma {:induction false} PatternsIff(c: Context, ps: seq<PatternProp>, m: DMember, at: string, depth: nat)
    requires 0 < depth <= LIMIT
    ensures PatternErrors(c, ps, m, at, depth) == [] <==>
      forall i :: 0 <= i < |ps| && c.matches(ps[i].pattern, m.key) ==> Ok(c, ps[i].schema, m.value, depth)
    decreases LIMIT + 1 - depth, 1, |ps|
  {
    hide Errors, Ok;
    if ps != [] {
      var init, p := ps[..|ps| - 1], ps[|ps| - 1];
      PatternsIff(c, init, m, at, depth);
      assert forall k :: 0 <= k < |init| ==> init[k] == ps[k];
      ErrorsIff(c, p.schema, m.value, at, depth);
    }
  }

  lemma {:induction false} MemberIff(c: Context, n: Node, m: DMember, path: string, depth: nat)
    requires 0 < depth <= LIMIT
    ensures OneMemberErrors(c, n, m, path, depth) == [] <==> MemberOk(c, n, m, depth)
    decreases LIMIT + 1 - depth, 2
  {
    hide Errors, Ok, PatternErrors, OptErrors, OptOk, Named;
    var at := path + "/" + m.key;
    if m.key in n.properties { ErrorsIff(c, n.properties[m.key], m.value, at, depth); }
    PatternsIff(c, n.patterns, m, at, depth);
    OptIff(c, n.additionalSchema, m.value, at, depth);
  }

  lemma {:induction false} MembersIff(c: Context, n: Node, ms: seq<DMember>, path: string, depth: nat)
    requires 0 < depth <= LIMIT
    ensures MemberErrors(c, n, ms, path, depth) == [] <==> forall i :: 0 <= i < |ms| ==> MemberOk(c, n, ms[i], depth)
    decreases LIMIT + 1 - depth, 3, |ms|
  {
    hide OneMemberErrors, MemberOk;
    if ms != [] {
      var init := ms[..|ms| - 1];
      MembersIff(c, n, init, path, depth);
      assert forall k :: 0 <= k < |init| ==> init[k] == ms[k];
      MemberIff(c, n, ms[|ms| - 1], path, depth);
    }
  }

  lemma {:induction false} NamesIff(c: Context, s: Node, ms: seq<DMember>, path: string, depth: nat)
    requires 0 < depth <= LIMIT
    ensures NameErrors(c, s, ms, path, depth) == [] <==> forall i :: 0 <= i < |ms| ==> Ok(c, s, DScalar(Str(ms[i].key)), depth)
    decreases LIMIT + 1 - depth, 1, |ms|
  {
    hide Errors, Ok;
    if ms != [] {
      var init := ms[..|ms| - 1];
      NamesIff(c, s, init, path, depth);
      assert forall k :: 0 <= k < |init| ==> init[k] == ms[k];
      ErrorsIff(c, s, DScalar(Str(ms[|ms| - 1].key)), path, depth);
    }
  }

  lemma {:induction false} DependentIff(c: Context, ds: seq<DependentSchema>, v: Doc, path: string, depth: nat)
    requires 0 < depth <= LIMIT && v.DObj?
    ensures DependentErrors(c, ds, v, path, depth) == [] <==>
      forall i :: 0 <= i < |ds| && Has(v.members, ds[i].prop) ==> Ok(c, ds[i].schema, v, depth)
    decreases LIMIT + 1 - depth, 1, |ds|
  {
    hide Errors, Ok, Has;
    if ds != [] {
      var init, d := ds[..|ds| - 1], ds[|ds| - 1];
      DependentIff(c, init, v, path, depth);
      assert forall k :: 0 <= k < |init| ==> init[k] == ds[k];
      ErrorsIff(c, d.schema, v, path, depth);
    }
  }

  lemma {:induction false} ObjectIff(c: Context, n: Node, v: Doc, path: string, depth: nat)
    requires 0 < depth <= LIMIT && v.DObj?
    ensures ObjectErrors(c, n, v, path, depth) == [] <==> ObjectOk(c, n, v, depth)
    decreases LIMIT + 1 - depth, 4
  {
    hide MissingErrors, MemberErrors, NameErrors, DependentRequiredErrors, DependentErrors, Has, MemberOk, Ok;
    var ms := v.members;
    MissingIff(ms, n.required, path);
    MembersIff(c, n, ms, path, depth);
    if n.propertyNames.Yes? { NamesIff(c, n.propertyNames.node, ms, path, depth); }
    DependentRequiredIff(ms, n.dependentRequired, path);
    DependentIff(c, n.dependentSchemas, v, path, depth);
  }

  lemma {:induction false} AcceptedIff(c: Context, ss: seq<Node>, v: Doc, path: string, depth: nat)
    requires 0 < depth <= LIMIT
    ensures CountAccepted(c, ss, v, path, depth) == CountAccepting(c, ss, v, depth)
    ensures CountAccepting(c, ss, v, depth) > 0 <==> exists i :: 0 <= i < |ss| && Ok(c, ss[i], v, depth)
    decreases LIMIT + 1 - depth, 1, |ss|
  {
    hide Errors, Ok;
    if ss != [] {
      var init := ss[..|ss| - 1];
      AcceptedIff(c, init, v, path, depth);
      assert forall k :: 0 <= k < |init| ==> init[k] == ss[k];
      ErrorsIff(c, ss[|ss| - 1], v, path, depth);
    }
  }

  lemma {:induction false} AllOfIff(c: Context, ss: seq<Node>, v: Doc, path: string, depth: nat)
    requires 0 < depth <= LIMIT
    ensures AllOfErrors(c, ss, v, path, depth) == [] <==> forall i :: 0 <= i < |ss| ==> Ok(c, ss[i], v, depth)
    decreases LIMIT + 1 - depth, 1, |ss|
  {
    hide Errors, Ok;
    if ss != [] {
      var init := ss[..|ss| - 1];
      AllOfIff(c, init, v, path, depth);
      assert forall k :: 0 <= k < |init| ==> init[k] == ss[k];
      ErrorsIff(c, ss[|ss| - 1], v, path, depth);
    }
  }

  lemma {:induction false} CombinedIff(c: Context, n: Node, v: Doc, path: string, depth: nat)
    requires 0 < depth <= LIMIT
    ensures CombinedErrors(c, n, v, path, depth) == [] <==> CombinedOk(c, n, v, depth)
    decreases LIMIT + 1 - depth, 2
  {
    hide AllOfErrors, CountAccepted, CountAccepting, OptErrors, OptOk, Ok;
    AllOfIff(c, n.allOf, v, path, depth);
    AcceptedIff(c, n.anyOf, v, path, depth);
    AcceptedIff(c, n.oneOf, v, path, depth);
    OptIff(c, n.no, v, path, depth);
    OptIff(c, n.cond, v, path, depth);
    OptIff(c, n.yes, v, path, depth);
    OptIff(c, n.otherwise, v, path, depth);
    OptNodeOk(c, n.no, v, depth);
    OptNodeOk(c, n.cond, v, depth);
  }

  lemma OptNodeOk(c: Context, o: OptNode, v: Doc, depth: nat)
    requires 0 < depth <= LIMIT
    ensures o.Yes? ==> (OptOk(c, o, v, depth) <==> Ok(c, o.node, v, depth))
  {
    hide Ok;
  }
}
