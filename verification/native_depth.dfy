/** Below the limit the number of calls under way makes no difference. */
module NativeDepth {
  import opened Json
  import opened Canonical
  import opened NativeWalk

  /** No call that can be reached from here is past the limit. */
  predicate Fits(c: Context, n: Node, v: Doc, depth: nat)
    decreases LIMIT + 1 - depth, 0
  {
    && depth < LIMIT
    && (n.boolean.None? ==>
      && (n.ref != "" && Resolve(c, n.ref).Yes? ==> Fits(c, Resolve(c, n.ref).node, v, depth + 1))
      && (v.DArr? ==> ArrayFits(c, n, v.items, depth + 1))
      && (v.DObj? ==> ObjectFits(c, n, v, depth + 1))
      && CombinedFits(c, n, v, depth + 1))
  }

  predicate OptFits(c: Context, o: OptNode, v: Doc, depth: nat)
    requires 0 < depth <= LIMIT
    decreases LIMIT + 1 - depth, 1
  {
    o.Yes? ==> Fits(c, o.node, v, depth)
  }

  predicate ArrayFits(c: Context, n: Node, a: seq<Doc>, depth: nat)
    requires 0 < depth <= LIMIT
    decreases LIMIT + 1 - depth, 2
  {
    forall i :: 0 <= i < |a| ==> OptFits(c, ItemSchema(n, i), a[i], depth) && OptFits(c, n.contains, a[i], depth)
  }

  predicate MemberFits(c: Context, n: Node, m: DMember, depth: nat)
    requires 0 < depth <= LIMIT
    decreases LIMIT + 1 - depth, 2
  {
    && (m.key in n.properties ==> Fits(c, n.properties[m.key], m.value, depth))
    && (forall i :: 0 <= i < |n.patterns| && c.matches(n.patterns[i].pattern, m.key) ==> Fits(c, n.patterns[i].schema, m.value, depth))
    && OptFits(c, n.additionalSchema, m.value, depth) && OptFits(c, n.propertyNames, DScalar(Str(m.key)), depth)
  }

  predicate ObjectFits(c: Context, n: Node, v: Doc, depth: nat)
    requires 0 < depth <= LIMIT && v.DObj?
    decreases LIMIT + 1 - depth, 3
  {
    && (forall i :: 0 <= i < |v.members| ==> MemberFits(c, n, v.members[i], depth))
    && (forall i :: 0 <= i < |n.dependentSchemas| && Has(v.members, n.dependentSchemas[i].prop) ==> Fits(c, n.dependentSchemas[i].schema, v, depth))
  }

  predicate CombinedFits(c: Context, n: Node, v: Doc, depth: nat)
    requires 0 < depth <= LIMIT
    decreases LIMIT + 1 - depth, 2
  {
    && (forall i :: 0 <= i < |n.allOf| ==> Fits(c, n.allOf[i], v, depth)) && (forall i :: 0 <= i < |n.anyOf| ==> Fits(c, n.anyOf[i], v, depth))
    && (forall i :: 0 <= i < |n.oneOf| ==> Fits(c, n.oneOf[i], v, depth))
    && OptFits(c, n.no, v, depth) && OptFits(c, n.cond, v, depth) && OptFits(c, n.yes, v, depth) && OptFits(c, n.otherwise, v, depth)
  }

  /** Where the limit is not reached, the verdict is that of a walk with fewer calls under way. */
  lemma {:induction false} DepthFree(c: Context, n: Node, v: Doc, d: nat, e: nat)
    requires Fits(c, n, v, d) && e <= d
    ensures Ok(c, n, v, d) <==> Ok(c, n, v, e)
    decreases LIMIT + 1 - d, 0
  {
    hide ScalarOk, ArrayOk, ObjectOk, CombinedOk, ArrayFits, ObjectFits, CombinedFits;
    if n.boolean.None? {
      if n.ref != "" && Resolve(c, n.ref).Yes? { DepthFree(c, Resolve(c, n.ref).node, v, d + 1, e + 1); }
      if v.DArr? { ArrayFree(c, n, v.items, d + 1, e + 1); }
      if v.DObj? { ObjectFree(c, n, v, d + 1, e + 1); }
      CombinedFree(c, n, v, d + 1, e + 1);
    }
  }

  lemma {:induction false} OptFree(c: Context, o: OptNode, v: Doc, d: nat, e: nat)
    requires 0 < e <= d <= LIMIT && OptFits(c, o, v, d)
    ensures OptOk(c, o, v, d) <==> OptOk(c, o, v, e)
    decreases LIMIT + 1 - d, 1
  {
    if o.Yes? { DepthFree(c, o.node, v, d, e); }
  }

  lemma {:induction false} CountFree(c: Context, s: Node, a: seq<Doc>, d: nat, e: nat)
    requires 0 < e <= d <= LIMIT && forall i :: 0 <= i < |a| ==> Fits(c, s, a[i], d)
    ensures CountOk(c, s, a, d) == CountOk(c, s, a, e)
    decreases LIMIT + 1 - d, 1, |a|
  {
    hide Ok, Fits;
    if a != [] {
      assert forall i :: 0 <= i < |a| - 1 ==> a[..|a| - 1][i] == a[i];
      CountFree(c, s, a[..|a| - 1], d, e);
      DepthFree(c, s, a[|a| - 1], d, e);
    }
  }

  lemma {:induction false} ArrayFree(c: Context, n: Node, a: seq<Doc>, d: nat, e: nat)
    requires 0 < e <= d <= LIMIT && ArrayFits(c, n, a, d)
    ensures ArrayOk(c, n, a, d) <==> ArrayOk(c, n, a, e)
    decreases LIMIT + 1 - d, 2
  {
    hide OptOk, CountOk, Canon, ItemSchema, Fits;
    forall i | 0 <= i < |a| ensures OptOk(c, ItemSchema(n, i), a[i], d) <==> OptOk(c, ItemSchema(n, i), a[i], e) {
      OptFree(c, ItemSchema(n, i), a[i], d, e);
    }
    if n.contains.Yes? {
      forall i | 0 <= i < |a| ensures Fits(c, n.contains.node, a[i], d) { assert OptFits(c, n.contains, a[i], d); }
      CountFree(c, n.contains.node, a, d, e);
    }
  }

  lemma {:induction false} MemberFree(c: Context, n: Node, m: DMember, d: nat, e: nat)
    requires 0 < e <= d <= LIMIT && MemberFits(c, n, m, d)
    ensures MemberOk(c, n, m, d) <==> MemberOk(c, n, m, e)
    decreases LIMIT + 1 - d, 2
  {
    hide Ok, OptOk, OptFits, Fits, Named;
    if m.key in n.properties { DepthFree(c, n.properties[m.key], m.value, d, e); }
    forall i | 0 <= i < |n.patterns| && c.matches(n.patterns[i].pattern, m.key)
      ensures Ok(c, n.patterns[i].schema, m.value, d) <==> Ok(c, n.patterns[i].schema, m.value, e)
    {
      DepthFree(c, n.patterns[i].schema, m.value, d, e);
    }
    OptFree(c, n.additionalSchema, m.value, d, e);
  }

  lemma {:induction false} ObjectFree(c: Context, n: Node, v: Doc, d: nat, e: nat)
    requires 0 < e <= d <= LIMIT && v.DObj? && ObjectFits(c, n, v, d)
    ensures ObjectOk(c, n, v, d) <==> ObjectOk(c, n, v, e)
    decreases LIMIT + 1 - d, 3
  {
    hide Ok, MemberOk, MemberFits, Fits, Has;
    var ms := v.members;
    forall i | 0 <= i < |ms| ensures MemberOk(c, n, ms[i], d) <==> MemberOk(c, n, ms[i], e) { MemberFree(c, n, ms[i], d, e); }
    if n.propertyNames.Yes? {
      forall i | 0 <= i < |ms| ensures Ok(c, n.propertyNames.node, DScalar(Str(ms[i].key)), d) <==> Ok(c, n.propertyNames.node, DScalar(Str(ms[i].key)), e) {
        NameFits(c, n, ms[i], d);
        DepthFree(c, n.propertyNames.node, DScalar(Str(ms[i].key)), d, e);
      }
    }
    forall i | 0 <= i < |n.dependentSchemas| && Has(ms, n.dependentSchemas[i].prop)
      ensures Ok(c, n.dependentSchemas[i].schema, v, d) <==> Ok(c, n.dependentSchemas[i].schema, v, e)
    {
      DepthFree(c, n.dependentSchemas[i].schema, v, d, e);
    }
  }

  lemma NameFits(c: Context, n: Node, m: DMember, d: nat)
    requires 0 < d <= LIMIT && MemberFits(c, n, m, d) && n.propertyNames.Yes?
    ensures Fits(c, n.propertyNames.node, DScalar(Str(m.key)), d)
  {
    hide Fits;
  }

  lemma {:induction false} AcceptingFree(c: Context, ss: seq<Node>, v: Doc, d: nat, e: nat)
    requires 0 < e <= d <= LIMIT && forall i :: 0 <= i < |ss| ==> Fits(c, ss[i], v, d)
    ensures CountAccepting(c, ss, v, d) == CountAccepting(c, ss, v, e)
    decreases LIMIT + 1 - d, 1, |ss|
  {
    hide Ok, Fits;
    if ss != [] {
      assert forall i :: 0 <= i < |ss| - 1 ==> ss[..|ss| - 1][i] == ss[i];
      AcceptingFree(c, ss[..|ss| - 1], v, d, e);
      DepthFree(c, ss[|ss| - 1], v, d, e);
    }
  }

  lemma {:induction false} CombinedFree(c: Context, n: Node, v: Doc, d: nat, e: nat)
    requires 0 < e <= d <= LIMIT && CombinedFits(c, n, v, d)
    ensures CombinedOk(c, n, v, d) <==> CombinedOk(c, n, v, e)
    decreases LIMIT + 1 - d, 2
  {
    hide Ok, OptOk, CountAccepting, Fits;
    forall i | 0 <= i < |n.allOf| ensures Ok(c, n.allOf[i], v, d) <==> Ok(c, n.allOf[i], v, e) { DepthFree(c, n.allOf[i], v, d, e); }
    forall i | 0 <= i < |n.anyOf| ensures Ok(c, n.anyOf[i], v, d) <==> Ok(c, n.anyOf[i], v, e) { DepthFree(c, n.anyOf[i], v, d, e); }
    AcceptingFree(c, n.oneOf, v, d, e);
    if n.no.Yes? { DepthFree(c, n.no.node, v, d, e); }
    if n.cond.Yes? { DepthFree(c, n.cond.node, v, d, e); }
    OptFree(c, n.yes, v, d, e);
    OptFree(c, n.otherwise, v, d, e);
  }
}
