/**
 What each error says: its path names a value of the document, reached through the schema's places, and its
 code a keyword of the schema reached there that the value breaks (binding/ata_napi.cpp:304-794).
 */
module NativeErrors {
  import opened Json
  import opened Canonical
  import opened NativeWalk
  import opened NativeFacts
  import PositionWalk

  /** A schema applied to a value that a path names, so many calls deep. */
  datatype Site = Site(n: Node, v: Doc, path: string, depth: nat)

  /** The places of a schema object. */
  datatype Via =
    | ByRef | ByAllOf(i: nat) | ByItem(i: nat) | ByProperty(i: nat) | ByPattern(i: nat, j: nat) | ByRest(i: nat) | ByName(i: nat)
    | ByDependent(i: nat) | ByThen | ByElse

  /** No further: the limit on calls, or a boolean schema. */
  predicate Ends(s: Site) { s.depth >= LIMIT || s.n.boolean.Some? }

  predicate Numeric(v: Doc) { v.DScalar? && v.v.Num? }

  predicate Textual(v: Doc) { v.DScalar? && v.v.Str? }

  /** A member's value stands under its name, an element under its index. */
  function Child(path: string, name: string): string { path + "/" + name }

  /** What a place of the schema applies, to which value, and where that value is; nothing where the place says nothing about it. */
  function Step(c: Context, s: Site, via: Via): Option<Site> {
    if Ends(s) then None
    else
      match via
      case ByRef => if s.n.ref != "" && Resolve(c, s.n.ref).Yes? then Some(s.(n := Resolve(c, s.n.ref).node, depth := s.depth + 1)) else None
      case ByAllOf(i) => if i < |s.n.allOf| then Some(s.(n := s.n.allOf[i], depth := s.depth + 1)) else None
      case ByItem(i) =>
        if s.v.DArr? && i < |s.v.items| && ItemSchema(s.n, i).Yes?
        then Some(Site(ItemSchema(s.n, i).node, s.v.items[i], Child(s.path, PositionWalk.NatText(i)), s.depth + 1)) else None
      case ByProperty(i) =>
        if IsMember(s.v, i) && s.v.members[i].key in s.n.properties
        then Some(Site(s.n.properties[s.v.members[i].key], s.v.members[i].value, Child(s.path, s.v.members[i].key), s.depth + 1)) else None
      case ByPattern(i, j) =>
        if IsMember(s.v, i) && j < |s.n.patterns| && c.matches(s.n.patterns[j].pattern, s.v.members[i].key)
        then Some(Site(s.n.patterns[j].schema, s.v.members[i].value, Child(s.path, s.v.members[i].key), s.depth + 1)) else None
      case ByRest(i) =>
        if IsMember(s.v, i) && !Named(c, s.n, s.v.members[i].key) && s.n.additional != Some(false) && s.n.additionalSchema.Yes?
        then Some(Site(s.n.additionalSchema.node, s.v.members[i].value, Child(s.path, s.v.members[i].key), s.depth + 1)) else None
      case ByName(i) =>
        if IsMember(s.v, i) && s.n.propertyNames.Yes? then Some(Site(s.n.propertyNames.node, DScalar(Str(s.v.members[i].key)), s.path, s.depth + 1)) else None
      case ByDependent(i) =>
        if s.v.DObj? && i < |s.n.dependentSchemas| && Has(s.v.members, s.n.dependentSchemas[i].prop)
        then Some(s.(n := s.n.dependentSchemas[i].schema, depth := s.depth + 1)) else None
      case ByThen => if s.n.cond.Yes? && Ok(c, s.n.cond.node, s.v, s.depth + 1) && s.n.yes.Yes? then Some(s.(n := s.n.yes.node, depth := s.depth + 1)) else None
      case ByElse =>
        if s.n.cond.Yes? && !Ok(c, s.n.cond.node, s.v, s.depth + 1) && s.n.otherwise.Yes? then Some(s.(n := s.n.otherwise.node, depth := s.depth + 1)) else None
  }

  predicate IsMember(v: Doc, i: nat) { v.DObj? && i < |v.members| }

  /** The value breaks the keyword that the code stands for. */
  predicate Broken(c: Context, s: Site, code: Code) {
    if s.depth >= LIMIT then code.DepthExceeded?
    else if s.n.boolean.Some? then code.TypeMismatch? && !s.n.boolean.value
    else
      var n, v, d := s.n, s.v, s.depth + 1;
      match code
      case DepthExceeded => false
      case TypeMismatch => n.types != {} && !TypeAllowed(n.types, TypeOf(v))
      case RefNotFound => n.ref != "" && Resolve(c, n.ref).NoNode?
      case EnumMismatch => n.enums.Some? && Canon(v, c.num) !in n.enums.value
      case ConstMismatch => n.constant.Some? && Canon(v, c.num) != n.constant.value
      case Minimum => Numeric(v) && n.minimum.Some? && v.v.n < n.minimum.value
      case Maximum => Numeric(v) && n.maximum.Some? && v.v.n > n.maximum.value
      case ExclusiveMinimum => Numeric(v) && n.above.Some? && v.v.n <= n.above.value
      case ExclusiveMaximum => Numeric(v) && n.below.Some? && v.v.n >= n.below.value
      case MultipleOf => Numeric(v) && n.multipleOf.Some? && !IsMultiple(c, v.v.n, n.multipleOf.value)
      case MinLength => Textual(v) && n.minLength.Some? && |v.v.s| < n.minLength.value
      case MaxLength => Textual(v) && n.maxLength.Some? && |v.v.s| > n.maxLength.value
      case PatternMismatch => Textual(v) && n.pattern.Some? && !c.matches(n.pattern.value, v.v.s)
      case FormatMismatch => Textual(v) && n.format.Some? && !c.formatOk(n.format.value, v.v.s)
      case MinItems =>
        v.DArr? && ((n.minItems.Some? && |v.items| < n.minItems.value)
                    || (n.contains.Yes? && CountOk(c, n.contains.node, v.items, d) < (if n.minContains.Some? then n.minContains.value else 1)))
      case MaxItems =>
        v.DArr? && ((n.maxItems.Some? && |v.items| > n.maxItems.value)
                    || (n.contains.Yes? && n.maxContains.Some? && CountOk(c, n.contains.node, v.items, d) > n.maxContains.value))
      case UniqueItems => v.DArr? && n.uniqueItems && exists i, j :: 0 <= i < j < |v.items| && Canon(v.items[i], c.num) == Canon(v.items[j], c.num)
      case MinProperties => v.DObj? && n.minProperties.Some? && |v.members| < n.minProperties.value
      case MaxProperties => v.DObj? && n.maxProperties.Some? && |v.members| > n.maxProperties.value
      case RequiredMissing =>
        v.DObj? && ((exists i :: 0 <= i < |n.required| && !Has(v.members, n.required[i]))
                    || exists i, j :: 0 <= i < |n.dependentRequired| && Has(v.members, n.dependentRequired[i].prop)
                                      && 0 <= j < |n.dependentRequired[i].names| && !Has(v.members, n.dependentRequired[i].names[j]))
      case AdditionalProperty => v.DObj? && n.additional == Some(false) && exists i :: 0 <= i < |v.members| && !Named(c, n, v.members[i].key)
      case AllOfFailed => exists i :: 0 <= i < |n.allOf| && !Ok(c, n.allOf[i], v, d)
      case AnyOfFailed => n.anyOf != [] && forall i :: 0 <= i < |n.anyOf| ==> !Ok(c, n.anyOf[i], v, d)
      case OneOfFailed => n.oneOf != [] && CountAccepting(c, n.oneOf, v, d) != 1
      case NotFailed => n.no.Yes? && Ok(c, n.no.node, v, d)
  }

  /** The value at the error's path breaks the keyword of its code, at a schema the places lead to. */
  ghost predicate Fails(c: Context, s: Site, e: Error)
    decreases LIMIT + 1 - s.depth
  {
    (Broken(c, s, e.code) && e.path == s.path) || exists via :: Step(c, s, via).Some? && Fails(c, Step(c, s, via).value, e)
  }

  // ---------------------------------------------------------------- list by list

  ghost predicate Listed(c: Context, s: Site, e: Error) { e in Errors(c, s.n, s.v, s.path, s.depth) }

  ghost predicate ItemListed(c: Context, n: Node, a: seq<Doc>, path: string, depth: nat, e: Error, i: nat) {
    i < |a| && ItemSchema(n, i).Yes? && Listed(c, Site(ItemSchema(n, i).node, a[i], Child(path, PositionWalk.NatText(i)), depth), e)
  }

  lemma {:induction false} ItemsListed(c: Context, n: Node, a: seq<Doc>, path: string, depth: nat, e: Error)
    requires 0 < depth <= LIMIT
    ensures e in ItemErrors(c, n, a, path, depth) <==> exists i: nat :: ItemListed(c, n, a, path, depth, e, i)
    decreases |a|
  {
    hide ItemListed;
    if a != [] {
      var last := |a| - 1;
      ItemsListed(c, n, a[..last], path, depth, e);
      forall i: nat ensures ItemListed(c, n, a, path, depth, e, i) <==> ItemListed(c, n, a[..last], path, depth, e, i) || (i == last && ItemListed(c, n, a, path, depth, e, last)) {
        FirstItems(c, n, a, path, depth, e, i);
      }
      LastItem(c, n, a, path, depth, e);
    } else {
      forall i: nat ensures !ItemListed(c, n, a, path, depth, e, i) { NoItem(c, n, path, depth, e, i); }
    }
  }

  lemma NoItem(c: Context, n: Node, path: string, depth: nat, e: Error, i: nat)
    ensures !ItemListed(c, n, [], path, depth, e, i)
  {
    hide Listed;
  }

  lemma FirstItems(c: Context, n: Node, a: seq<Doc>, path: string, depth: nat, e: Error, i: nat)
    requires a != []
    ensures ItemListed(c, n, a, path, depth, e, i) <==> ItemListed(c, n, a[..|a| - 1], path, depth, e, i) || (i == |a| - 1 && ItemListed(c, n, a, path, depth, e, |a| - 1))
  {
    hide Listed, ItemSchema, PositionWalk.NatText, Child;
  }

  lemma LastItem(c: Context, n: Node, a: seq<Doc>, path: string, depth: nat, e: Error)
    requires 0 < depth <= LIMIT && a != []
    ensures e in ItemErrors(c, n, a, path, depth) <==> e in ItemErrors(c, n, a[..|a| - 1], path, depth) || ItemListed(c, n, a, path, depth, e, |a| - 1)
  {
    hide Errors, PositionWalk.NatText;
  }

  lemma {:induction false} PatternsListed(c: Context, ps: seq<PatternProp>, m: DMember, at: string, depth: nat, e: Error)
    requires 0 < depth <= LIMIT
    ensures e in PatternErrors(c, ps, m, at, depth) <==>
            exists j: nat :: j < |ps| && c.matches(ps[j].pattern, m.key) && Listed(c, Site(ps[j].schema, m.value, at, depth), e)
    decreases |ps|
  {
    hide Errors;
    if ps != [] {
      var init := ps[..|ps| - 1];
      PatternsListed(c, init, m, at, depth, e);
      assert forall k :: 0 <= k < |init| ==> init[k] == ps[k];
    }
  }

  lemma {:induction false} MembersListed(c: Context, n: Node, ms: seq<DMember>, path: string, depth: nat, e: Error)
    requires 0 < depth <= LIMIT
    ensures e in MemberErrors(c, n, ms, path, depth) <==> exists i: nat :: i < |ms| && e in OneMemberErrors(c, n, ms[i], path, depth)
    decreases |ms|
  {
    hide OneMemberErrors;
    if ms != [] {
      var init := ms[..|ms| - 1];
      MembersListed(c, n, init, path, depth, e);
      assert forall k :: 0 <= k < |init| ==> init[k] == ms[k];
    }
  }

  lemma {:induction false} NamesListed(c: Context, s: Node, ms: seq<DMember>, path: string, depth: nat, e: Error)
    requires 0 < depth <= LIMIT
    ensures e in NameErrors(c, s, ms, path, depth) <==> exists i: nat :: i < |ms| && Listed(c, Site(s, DScalar(Str(ms[i].key)), path, depth), e)
    decreases |ms|
  {
    hide Errors;
    if ms != [] {
      var init := ms[..|ms| - 1];
      NamesListed(c, s, init, path, depth, e);
      assert forall k :: 0 <= k < |init| ==> init[k] == ms[k];
    }
  }

  lemma {:induction false} DependentsListed(c: Context, ds: seq<DependentSchema>, v: Doc, path: string, depth: nat, e: Error)
    requires 0 < depth <= LIMIT && v.DObj?
    ensures e in DependentErrors(c, ds, v, path, depth) <==>
            exists i: nat :: i < |ds| && Has(v.members, ds[i].prop) && Listed(c, Site(ds[i].schema, v, path, depth), e)
    decreases |ds|
  {
    hide Errors, Has;
    if ds != [] {
      var init := ds[..|ds| - 1];
      DependentsListed(c, init, v, path, depth, e);
      assert forall k :: 0 <= k < |init| ==> init[k] == ds[k];
    }
  }

  lemma {:induction false} AllOfListed(c: Context, ss: seq<Node>, v: Doc, path: string, depth: nat, e: Error)
    requires 0 < depth <= LIMIT
    ensures e in AllOfErrors(c, ss, v, path, depth) <==>
            || (e == Error(AllOfFailed, path) && exists i :: 0 <= i < |ss| && !Ok(c, ss[i], v, depth))
            || exists i: nat :: i < |ss| && Listed(c, Site(ss[i], v, path, depth), e)
    decreases |ss|
  {
    hide Errors, Ok;
    if ss != [] {
      var init := ss[..|ss| - 1];
      AllOfListed(c, init, v, path, depth, e);
      assert forall k :: 0 <= k < |init| ==> init[k] == ss[k];
      ErrorsIff(c, ss[|ss| - 1], v, path, depth);
    }
  }

  lemma {:induction false} MissingListed(ms: seq<DMember>, names: seq<string>, path: string, e: Error)
    ensures e in MissingErrors(ms, names, path) <==> e == Error(RequiredMissing, path) && exists j :: 0 <= j < |names| && !Has(ms, names[j])
    decreases |names|
  {
    hide Has;
    if names != [] {
      var init := names[..|names| - 1];
      MissingListed(ms, init, path, e);
      assert forall k :: 0 <= k < |init| ==> init[k] == names[k];
    }
  }

  lemma {:induction false} DependentRequiredListed(ms: seq<DMember>, ds: seq<DependentNames>, path: string, e: Error)
    ensures e in DependentRequiredErrors(ms, ds, path) <==>
            e == Error(RequiredMissing, path)
            && exists i, j :: 0 <= i < |ds| && Has(ms, ds[i].prop) && 0 <= j < |ds[i].names| && !Has(ms, ds[i].names[j])
    decreases |ds|
  {
    hide Has;
    if ds != [] {
      var init := ds[..|ds| - 1];
      DependentRequiredListed(ms, init, path, e);
      MissingListed(ms, ds[|ds| - 1].names, path, e);
      assert forall k :: 0 <= k < |init| ==> init[k] == ds[k];
    }
  }

  // ---------------------------------------------------------------- part by part

  /** What a place leads to says the error. */
  ghost predicate Onward(c: Context, s: Site, via: Via, e: Error) {
    Step(c, s, via).Some? && Listed(c, Step(c, s, via).value, e)
  }

  lemma InWhen(b: bool, code: Code, path: string, e: Error)
    ensures e in When(b, code, path) <==> b && e == Error(code, path)
  {
  }

  const VALUE_CODES := {TypeMismatch, EnumMismatch, ConstMismatch}
  const NUMBER_CODES := {Minimum, Maximum, ExclusiveMinimum, ExclusiveMaximum, MultipleOf}
  const STRING_CODES := {MinLength, MaxLength, PatternMismatch, FormatMismatch}
  const ARRAY_CODES := {MinItems, MaxItems, UniqueItems}
  const OBJECT_CODES := {MinProperties, MaxProperties, RequiredMissing, AdditionalProperty}
  const COMBINED_CODES := {AllOfFailed, AnyOfFailed, OneOfFailed, NotFailed}

  /** The error is about the value itself, for a code of one of these. */
  predicate Here(c: Context, s: Site, e: Error, codes: set<Code>) { e.path == s.path && e.code in codes && Broken(c, s, e.code) }

  lemma ScalarListed(c: Context, s: Site, e: Error)
    requires !Ends(s)
    ensures e in ScalarErrors(c, s.n, s.v, s.path) <==> Here(c, s, e, VALUE_CODES) || Here(c, s, e, NUMBER_CODES) || Here(c, s, e, STRING_CODES)
  {
    hide Broken, When, Canon, TypeAllowed, TypeOf, NumberErrors, StringErrors;
    ValueBroken(c, s);
    InWhen(s.n.types != {} && !TypeAllowed(s.n.types, TypeOf(s.v)), TypeMismatch, s.path, e);
    InWhen(s.n.enums.Some? && Canon(s.v, c.num) !in s.n.enums.value, EnumMismatch, s.path, e);
    InWhen(s.n.constant.Some? && Canon(s.v, c.num) != s.n.constant.value, ConstMismatch, s.path, e);
    if Numeric(s.v) { NumberListed(c, s, e); } else { NotNumeric(c, s); }
    if Textual(s.v) { StringListed(c, s, e); } else { NotTextual(c, s); }
  }

  lemma ValueBroken(c: Context, s: Site)
    requires !Ends(s)
    ensures Broken(c, s, TypeMismatch) <==> s.n.types != {} && !TypeAllowed(s.n.types, TypeOf(s.v))
    ensures Broken(c, s, EnumMismatch) <==> s.n.enums.Some? && Canon(s.v, c.num) !in s.n.enums.value
    ensures Broken(c, s, ConstMismatch) <==> s.n.constant.Some? && Canon(s.v, c.num) != s.n.constant.value
    ensures Broken(c, s, RefNotFound) <==> s.n.ref != "" && Resolve(c, s.n.ref).NoNode?
    ensures !Broken(c, s, DepthExceeded)
  {
    hide Canon, TypeAllowed, TypeOf, Resolve;
  }

  lemma NotNumeric(c: Context, s: Site)
    requires !Ends(s) && !Numeric(s.v)
    ensures forall code :: code in NUMBER_CODES ==> !Broken(c, s, code)
  {
  }

  lemma NotTextual(c: Context, s: Site)
    requires !Ends(s) && !Textual(s.v)
    ensures forall code :: code in STRING_CODES ==> !Broken(c, s, code)
  {
  }

  lemma NumberBroken(c: Context, s: Site)
    requires !Ends(s) && Numeric(s.v)
    ensures Broken(c, s, Minimum) <==> s.n.minimum.Some? && s.v.v.n < s.n.minimum.value
    ensures Broken(c, s, Maximum) <==> s.n.maximum.Some? && s.v.v.n > s.n.maximum.value
    ensures Broken(c, s, ExclusiveMinimum) <==> s.n.above.Some? && s.v.v.n <= s.n.above.value
    ensures Broken(c, s, ExclusiveMaximum) <==> s.n.below.Some? && s.v.v.n >= s.n.below.value
    ensures Broken(c, s, MultipleOf) <==> s.n.multipleOf.Some? && !IsMultiple(c, s.v.v.n, s.n.multipleOf.value)
  {
    hide IsMultiple;
  }

  lemma NumberListed(c: Context, s: Site, e: Error)
    requires !Ends(s) && Numeric(s.v)
    ensures e in NumberErrors(c, s.n, s.v.v.n, s.path) <==> Here(c, s, e, NUMBER_CODES)
  {
    hide Broken, When, IsMultiple;
    var n, x := s.n, s.v.v.n;
    NumberBroken(c, s);
    InWhen(n.minimum.Some? && x < n.minimum.value, Minimum, s.path, e);
    InWhen(n.maximum.Some? && x > n.maximum.value, Maximum, s.path, e);
    InWhen(n.above.Some? && x <= n.above.value, ExclusiveMinimum, s.path, e);
    InWhen(n.below.Some? && x >= n.below.value, ExclusiveMaximum, s.path, e);
    InWhen(n.multipleOf.Some? && !IsMultiple(c, x, n.multipleOf.value), MultipleOf, s.path, e);
  }

  lemma StringBroken(c: Context, s: Site)
    requires !Ends(s) && Textual(s.v)
    ensures Broken(c, s, MinLength) <==> s.n.minLength.Some? && |s.v.v.s| < s.n.minLength.value
    ensures Broken(c, s, MaxLength) <==> s.n.maxLength.Some? && |s.v.v.s| > s.n.maxLength.value
    ensures Broken(c, s, PatternMismatch) <==> s.n.pattern.Some? && !c.matches(s.n.pattern.value, s.v.v.s)
    ensures Broken(c, s, FormatMismatch) <==> s.n.format.Some? && !c.formatOk(s.n.format.value, s.v.v.s)
  {
  }

  lemma StringListed(c: Context, s: Site, e: Error)
    requires !Ends(s) && Textual(s.v)
    ensures e in StringErrors(c, s.n, s.v.v.s, s.path) <==> Here(c, s, e, STRING_CODES)
  {
    hide Broken, When;
    var n, x := s.n, s.v.v.s;
    StringBroken(c, s);
    InWhen(n.minLength.Some? && |x| < n.minLength.value, MinLength, s.path, e);
    InWhen(n.maxLength.Some? && |x| > n.maxLength.value, MaxLength, s.path, e);
    InWhen(n.pattern.Some? && !c.matches(n.pattern.value, x), PatternMismatch, s.path, e);
    InWhen(n.format.Some? && !c.formatOk(n.format.value, x), FormatMismatch, s.path, e);
  }

  predicate Repeats(c: Context, a: seq<Doc>) { exists i, j :: 0 <= i < j < |a| && Canon(a[i], c.num) == Canon(a[j], c.num) }

  predicate TooFew(c: Context, s: Site)
    requires !Ends(s) && s.v.DArr?
  {
    s.n.contains.Yes? && CountOk(c, s.n.contains.node, s.v.items, s.depth + 1) < (if s.n.minContains.Some? then s.n.minContains.value else 1)
  }

  predicate TooMany(c: Context, s: Site)
    requires !Ends(s) && s.v.DArr?
  {
    s.n.contains.Yes? && s.n.maxContains.Some? && CountOk(c, s.n.contains.node, s.v.items, s.depth + 1) > s.n.maxContains.value
  }

  lemma ArrayBroken(c: Context, s: Site)
    requires !Ends(s) && s.v.DArr?
    ensures Broken(c, s, MinItems) <==> (s.n.minItems.Some? && |s.v.items| < s.n.minItems.value) || TooFew(c, s)
    ensures Broken(c, s, MaxItems) <==> (s.n.maxItems.Some? && |s.v.items| > s.n.maxItems.value) || TooMany(c, s)
    ensures Broken(c, s, UniqueItems) <==> s.n.uniqueItems && Repeats(c, s.v.items)
  {
    hide Canon, CountOk;
  }

  lemma ContainsListed(c: Context, s: Site, e: Error)
    requires !Ends(s) && s.v.DArr? && s.n.contains.Yes?
    ensures e in ContainsErrors(c, s.n, s.n.contains.node, s.v.items, s.path, s.depth + 1) <==>
            (TooFew(c, s) && e == Error(MinItems, s.path)) || (TooMany(c, s) && e == Error(MaxItems, s.path))
  {
    hide CountOk, CountClean, When;
    var n, a, d := s.n, s.v.items, s.depth + 1;
    CountIff(c, n.contains.node, a, s.path, d);
    var k := CountClean(c, n.contains.node, a, s.path, d);
    InWhen(k < (if n.minContains.Some? then n.minContains.value else 1), MinItems, s.path, e);
    InWhen(k > (if n.maxContains.Some? then n.maxContains.value else |a|), MaxItems, s.path, e);
  }

  lemma ArrayListed(c: Context, s: Site, e: Error)
    requires !Ends(s) && s.v.DArr?
    ensures e in ArrayErrors(c, s.n, s.v.items, s.path, s.depth + 1) <==> Here(c, s, e, ARRAY_CODES) || exists i: nat :: Onward(c, s, ByItem(i), e)
  {
    hide Broken, When, Canon, ContainsErrors, ItemErrors, TooFew, TooMany, Onward;
    var n, a := s.n, s.v.items;
    ItemsOnward(c, s, e);
    ArrayBroken(c, s);
    InWhen(n.minItems.Some? && |a| < n.minItems.value, MinItems, s.path, e);
    InWhen(n.maxItems.Some? && |a| > n.maxItems.value, MaxItems, s.path, e);
    InWhen(n.uniqueItems && exists i, j :: 0 <= i < j < |a| && Canon(a[i], c.num) == Canon(a[j], c.num), UniqueItems, s.path, e);
    if n.contains.Yes? { ContainsListed(c, s, e); } else { NoContains(c, s); }
  }

  lemma NoContains(c: Context, s: Site)
    requires !Ends(s) && s.v.DArr? && s.n.contains.NoNode?
    ensures !TooFew(c, s) && !TooMany(c, s)
  {
  }

  lemma ItemsOnward(c: Context, s: Site, e: Error)
    requires !Ends(s) && s.v.DArr?
    ensures e in ItemErrors(c, s.n, s.v.items, s.path, s.depth + 1) <==> exists i: nat :: Onward(c, s, ByItem(i), e)
  {
    hide ItemErrors, Onward, ItemListed;
    ItemsListed(c, s.n, s.v.items, s.path, s.depth + 1, e);
    forall i: nat ensures Onward(c, s, ByItem(i), e) <==> ItemListed(c, s.n, s.v.items, s.path, s.depth + 1, e, i) { ItemOnward(c, s, e, i); }
    if e in ItemErrors(c, s.n, s.v.items, s.path, s.depth + 1) {
      var i: nat :| ItemListed(c, s.n, s.v.items, s.path, s.depth + 1, e, i);
      assert Onward(c, s, ByItem(i), e);
    }
    if i: nat :| Onward(c, s, ByItem(i), e) {
      assert ItemListed(c, s.n, s.v.items, s.path, s.depth + 1, e, i);
    }
  }

  lemma ItemOnward(c: Context, s: Site, e: Error, i: nat)
    requires !Ends(s) && s.v.DArr?
    ensures Onward(c, s, ByItem(i), e) <==> ItemListed(c, s.n, s.v.items, s.path, s.depth + 1, e, i)
  {
    hide Errors, ItemSchema, PositionWalk.NatText;
  }

  lemma MemberListed(c: Context, s: Site, i: nat, e: Error)
    requires !Ends(s) && IsMember(s.v, i)
    ensures e in OneMemberErrors(c, s.n, s.v.members[i], s.path, s.depth + 1) <==>
            || (e == Error(AdditionalProperty, s.path) && s.n.additional == Some(false) && !Named(c, s.n, s.v.members[i].key))
            || Onward(c, s, ByProperty(i), e) || (exists j: nat :: Onward(c, s, ByPattern(i, j), e)) || Onward(c, s, ByRest(i), e)
  {
    hide Errors, Ok, Named, PatternErrors, Resolve, Has;
    var m := s.v.members[i];
    PatternsListed(c, s.n.patterns, m, Child(s.path, m.key), s.depth + 1, e);
    assert forall j: nat :: Onward(c, s, ByPattern(i, j), e) <==>
      j < |s.n.patterns| && c.matches(s.n.patterns[j].pattern, m.key) && Listed(c, Site(s.n.patterns[j].schema, m.value, Child(s.path, m.key), s.depth + 1), e);
  }

  /** Through a member, or its name. */
  predicate OfMember(via: Via) { via.ByProperty? || via.ByPattern? || via.ByRest? || via.ByName? || via.ByDependent? }

  predicate Lacks(ms: seq<DMember>, names: seq<string>) { exists j :: 0 <= j < |names| && !Has(ms, names[j]) }

  predicate LacksDependents(ms: seq<DMember>, ds: seq<DependentNames>) {
    exists i, j :: 0 <= i < |ds| && Has(ms, ds[i].prop) && 0 <= j < |ds[i].names| && !Has(ms, ds[i].names[j])
  }

  predicate Undeclared(c: Context, n: Node, ms: seq<DMember>) { n.additional == Some(false) && exists i :: 0 <= i < |ms| && !Named(c, n, ms[i].key) }

  lemma ObjectBroken(c: Context, s: Site)
    requires !Ends(s) && s.v.DObj?
    ensures Broken(c, s, MinProperties) <==> s.n.minProperties.Some? && |s.v.members| < s.n.minProperties.value
    ensures Broken(c, s, MaxProperties) <==> s.n.maxProperties.Some? && |s.v.members| > s.n.maxProperties.value
    ensures Broken(c, s, RequiredMissing) <==> Lacks(s.v.members, s.n.required) || LacksDependents(s.v.members, s.n.dependentRequired)
    ensures Broken(c, s, AdditionalProperty) <==> Undeclared(c, s.n, s.v.members)
  {
    hide Has, Named;
  }

  lemma ObjectListed(c: Context, s: Site, e: Error)
    requires !Ends(s) && s.v.DObj?
    ensures e in ObjectErrors(c, s.n, s.v, s.path, s.depth + 1) <==> Here(c, s, e, OBJECT_CODES) || exists via :: OfMember(via) && Onward(c, s, via, e)
  {
    hide Broken, When, Onward, OfMember, MemberErrors, NameErrors, DependentErrors, MissingErrors, DependentRequiredErrors, Has, Undeclared;
    var n, ms, d := s.n, s.v.members, s.depth + 1;
    ObjectBroken(c, s);
    InWhen(n.minProperties.Some? && |ms| < n.minProperties.value, MinProperties, s.path, e);
    InWhen(n.maxProperties.Some? && |ms| > n.maxProperties.value, MaxProperties, s.path, e);
    MissingListed(ms, n.required, s.path, e);
    DependentRequiredListed(ms, n.dependentRequired, s.path, e);
    MembersOnward(c, s, e);
    NamesOnward(c, s, e);
    DependentsOnward(c, s, e);
    OnwardMembers(c, s, e);
  }

  /** A place of the member. */
  ghost predicate OnwardMember(c: Context, s: Site, i: nat, e: Error) {
    IsMember(s.v, i) && (Onward(c, s, ByProperty(i), e) || (exists j: nat :: Onward(c, s, ByPattern(i, j), e)) || Onward(c, s, ByRest(i), e))
  }

  lemma MembersOnward(c: Context, s: Site, e: Error)
    requires !Ends(s) && s.v.DObj?
    ensures e in MemberErrors(c, s.n, s.v.members, s.path, s.depth + 1) <==>
            (e == Error(AdditionalProperty, s.path) && Undeclared(c, s.n, s.v.members)) || exists i: nat :: OnwardMember(c, s, i, e)
  {
    hide OneMemberErrors, MemberErrors, Named, Onward;
    var ms := s.v.members;
    MembersListed(c, s.n, ms, s.path, s.depth + 1, e);
    forall i: nat | i < |ms|
      ensures e in OneMemberErrors(c, s.n, ms[i], s.path, s.depth + 1) <==>
              (e == Error(AdditionalProperty, s.path) && s.n.additional == Some(false) && !Named(c, s.n, ms[i].key)) || OnwardMember(c, s, i, e)
    {
      MemberListed(c, s, i, e);
    }
  }

  lemma NamesOnward(c: Context, s: Site, e: Error)
    requires !Ends(s) && s.v.DObj?
    ensures (s.n.propertyNames.Yes? && e in NameErrors(c, s.n.propertyNames.node, s.v.members, s.path, s.depth + 1)) <==> exists i: nat :: Onward(c, s, ByName(i), e)
  {
    hide Errors, Ok, NameErrors, Resolve, Has;
    if s.n.propertyNames.Yes? { NamesListed(c, s.n.propertyNames.node, s.v.members, s.path, s.depth + 1, e); }
    assert forall i: nat :: Onward(c, s, ByName(i), e) <==>
      i < |s.v.members| && s.n.propertyNames.Yes? && Listed(c, Site(s.n.propertyNames.node, DScalar(Str(s.v.members[i].key)), s.path, s.depth + 1), e);
  }

  lemma DependentsOnward(c: Context, s: Site, e: Error)
    requires !Ends(s) && s.v.DObj?
    ensures e in DependentErrors(c, s.n.dependentSchemas, s.v, s.path, s.depth + 1) <==> exists i: nat :: Onward(c, s, ByDependent(i), e)
  {
    hide Errors, Ok, DependentErrors, Resolve, Has;
    DependentsListed(c, s.n.dependentSchemas, s.v, s.path, s.depth + 1, e);
    assert forall i: nat :: Onward(c, s, ByDependent(i), e) <==>
      i < |s.n.dependentSchemas| && Has(s.v.members, s.n.dependentSchemas[i].prop) && Listed(c, Site(s.n.dependentSchemas[i].schema, s.v, s.path, s.depth + 1), e);
  }

  lemma OnwardMembers(c: Context, s: Site, e: Error)
    requires !Ends(s) && s.v.DObj?
    ensures (exists via :: OfMember(via) && Onward(c, s, via, e)) <==>
            (exists i: nat :: OnwardMember(c, s, i, e)) || (exists i: nat :: Onward(c, s, ByName(i), e)) || (exists i: nat :: Onward(c, s, ByDependent(i), e))
  {
    hide Onward;
    if via :| OfMember(via) && Onward(c, s, via, e) { ViaMember(c, s, via, e); }
    if i: nat :| OnwardMember(c, s, i, e) {
      if j: nat :| Onward(c, s, ByPattern(i, j), e) {
        assert OfMember(ByPattern(i, j));
      } else {
        assert OfMember(ByProperty(i)) && OfMember(ByRest(i));
      }
    }
    if i: nat :| Onward(c, s, ByName(i), e) { assert OfMember(ByName(i)); }
    if i: nat :| Onward(c, s, ByDependent(i), e) { assert OfMember(ByDependent(i)); }
  }

  lemma ViaMember(c: Context, s: Site, via: Via, e: Error)
    requires OfMember(via) && Onward(c, s, via, e)
    ensures match via
            case ByProperty(i) => OnwardMember(c, s, i, e)
            case ByPattern(i, _) => OnwardMember(c, s, i, e)
            case ByRest(i) => OnwardMember(c, s, i, e)
            case _ => via.ByName? || via.ByDependent?
  {
    hide Ok, Resolve, Has, Named, Listed;
  }

  lemma CombinedBroken(c: Context, s: Site)
    requires !Ends(s)
    ensures Broken(c, s, AllOfFailed) <==> exists i :: 0 <= i < |s.n.allOf| && !Ok(c, s.n.allOf[i], s.v, s.depth + 1)
    ensures Broken(c, s, AnyOfFailed) <==> s.n.anyOf != [] && forall i :: 0 <= i < |s.n.anyOf| ==> !Ok(c, s.n.anyOf[i], s.v, s.depth + 1)
    ensures Broken(c, s, OneOfFailed) <==> s.n.oneOf != [] && CountAccepting(c, s.n.oneOf, s.v, s.depth + 1) != 1
    ensures Broken(c, s, NotFailed) <==> s.n.no.Yes? && Ok(c, s.n.no.node, s.v, s.depth + 1)
  {
    hide Ok, CountAccepting;
  }

  lemma CombinedListed(c: Context, s: Site, e: Error)
    requires !Ends(s)
    ensures e in CombinedErrors(c, s.n, s.v, s.path, s.depth + 1) <==>
            Here(c, s, e, COMBINED_CODES) || (exists i: nat :: Onward(c, s, ByAllOf(i), e)) || Onward(c, s, ByThen, e) || Onward(c, s, ByElse, e)
  {
    hide Broken, When, Errors, Ok, OptErrors, AllOfErrors, CountAccepted, CountAccepting, Onward;
    var n, d := s.n, s.depth + 1;
    CombinedBroken(c, s);
    AllOfOnward(c, s, e);
    AcceptedIff(c, n.anyOf, s.v, s.path, d);
    AcceptedIff(c, n.oneOf, s.v, s.path, d);
    NotListed(c, s);
    ConditionOnward(c, s, e);
    InWhen(n.anyOf != [] && CountAccepted(c, n.anyOf, s.v, s.path, d) == 0, AnyOfFailed, s.path, e);
    InWhen(n.oneOf != [] && CountAccepted(c, n.oneOf, s.v, s.path, d) != 1, OneOfFailed, s.path, e);
    InWhen(n.no.Yes? && OptErrors(c, n.no, s.v, s.path, d) == [], NotFailed, s.path, e);
  }

  lemma AllOfOnward(c: Context, s: Site, e: Error)
    requires !Ends(s)
    ensures e in AllOfErrors(c, s.n.allOf, s.v, s.path, s.depth + 1) <==>
            || (e == Error(AllOfFailed, s.path) && exists i :: 0 <= i < |s.n.allOf| && !Ok(c, s.n.allOf[i], s.v, s.depth + 1))
            || exists i: nat :: Onward(c, s, ByAllOf(i), e)
  {
    hide Errors, Ok, AllOfErrors, Resolve, Has, Named;
    AllOfListed(c, s.n.allOf, s.v, s.path, s.depth + 1, e);
    assert forall i: nat :: Onward(c, s, ByAllOf(i), e) <==> i < |s.n.allOf| && Listed(c, Site(s.n.allOf[i], s.v, s.path, s.depth + 1), e);
  }

  lemma NotListed(c: Context, s: Site)
    requires !Ends(s)
    ensures s.n.no.Yes? ==> (OptErrors(c, s.n.no, s.v, s.path, s.depth + 1) == [] <==> Ok(c, s.n.no.node, s.v, s.depth + 1))
  {
    hide Errors, Ok;
    if s.n.no.Yes? { ErrorsIff(c, s.n.no.node, s.v, s.path, s.depth + 1); }
  }

  function ConditionErrors(c: Context, s: Site): seq<Error>
    requires !Ends(s)
  {
    if s.n.cond.NoNode? then []
    else if OptErrors(c, s.n.cond, s.v, s.path, s.depth + 1) == [] then OptErrors(c, s.n.yes, s.v, s.path, s.depth + 1)
    else OptErrors(c, s.n.otherwise, s.v, s.path, s.depth + 1)
  }

  lemma ConditionOnward(c: Context, s: Site, e: Error)
    requires !Ends(s)
    ensures e in ConditionErrors(c, s) <==> Onward(c, s, ByThen, e) || Onward(c, s, ByElse, e)
  {
    hide Errors, Ok, Resolve, Has, Named;
    if s.n.cond.Yes? { ErrorsIff(c, s.n.cond.node, s.v, s.path, s.depth + 1); }
  }

  // ---------------------------------------------------------------- the whole list

  /** One step: an error is in the list when the value breaks a keyword here, or when a place leads to where it is listed. */
  lemma ListedByStep(c: Context, s: Site, e: Error)
    ensures Listed(c, s, e) <==> (Broken(c, s, e.code) && e.path == s.path) || exists via :: Onward(c, s, via, e)
  {
    hide Listed, Ok, ScalarErrors, ArrayErrors, ObjectErrors, CombinedErrors, Resolve, Broken, Onward, OfMember, Here;
    if Ends(s) {
      EndsListed(c, s, e);
    } else {
      ScalarListed(c, s, e);
      if s.v.DArr? { ArrayListed(c, s, e); }
      if s.v.DObj? { ObjectListed(c, s, e); }
      CombinedListed(c, s, e);
      RefListed(c, s, e);
      HereAny(c, s, e);
      ViasApart(c, s, e);
    }
  }

  /** Each code belongs to one part, and some only to arrays or objects. */
  lemma HereAny(c: Context, s: Site, e: Error)
    requires !Ends(s)
    ensures Broken(c, s, e.code) && e.path == s.path <==>
            || Here(c, s, e, {RefNotFound}) || Here(c, s, e, VALUE_CODES) || Here(c, s, e, NUMBER_CODES) || Here(c, s, e, STRING_CODES)
            || (s.v.DArr? && Here(c, s, e, ARRAY_CODES)) || (s.v.DObj? && Here(c, s, e, OBJECT_CODES)) || Here(c, s, e, COMBINED_CODES)
  {
    if Broken(c, s, e.code) { CodesApart(c, s, e.code); }
    hide Broken;
  }

  lemma EndsListed(c: Context, s: Site, e: Error)
    requires Ends(s)
    ensures Listed(c, s, e) <==> Broken(c, s, e.code) && e.path == s.path
    ensures forall via :: !Onward(c, s, via, e)
  {
    hide Ok, Resolve;
  }

  function RefErrors(c: Context, s: Site): seq<Error>
    requires !Ends(s)
  {
    if s.n.ref == "" then []
    else if Resolve(c, s.n.ref).Yes? then Errors(c, Resolve(c, s.n.ref).node, s.v, s.path, s.depth + 1)
    else [Error(RefNotFound, s.path)]
  }

  lemma RefListed(c: Context, s: Site, e: Error)
    requires !Ends(s)
    ensures e in RefErrors(c, s) <==> Here(c, s, e, {RefNotFound}) || Onward(c, s, ByRef, e)
    ensures Listed(c, s, e) <==>
            || e in RefErrors(c, s) || e in ScalarErrors(c, s.n, s.v, s.path)
            || (s.v.DArr? && e in ArrayErrors(c, s.n, s.v.items, s.path, s.depth + 1))
            || (s.v.DObj? && e in ObjectErrors(c, s.n, s.v, s.path, s.depth + 1))
            || e in CombinedErrors(c, s.n, s.v, s.path, s.depth + 1)
  {
    hide Ok, ScalarErrors, ArrayErrors, ObjectErrors, CombinedErrors, Resolve, Canon, CountOk, CountAccepting, Has, Named;
  }

  lemma CodesApart(c: Context, s: Site, code: Code)
    requires !Ends(s) && Broken(c, s, code)
    ensures || code == RefNotFound || code in VALUE_CODES || code in NUMBER_CODES || code in STRING_CODES
            || (s.v.DArr? && code in ARRAY_CODES) || (s.v.DObj? && code in OBJECT_CODES) || code in COMBINED_CODES
  {
    hide Ok, Resolve, Canon, CountOk, CountAccepting, Has, Named, TypeAllowed, TypeOf, IsMultiple;
  }

  lemma ViasApart(c: Context, s: Site, e: Error)
    requires !Ends(s)
    ensures (exists via :: Onward(c, s, via, e)) <==>
            || Onward(c, s, ByRef, e) || (s.v.DArr? && exists i: nat :: Onward(c, s, ByItem(i), e))
            || (s.v.DObj? && exists via :: OfMember(via) && Onward(c, s, via, e))
            || (exists i: nat :: Onward(c, s, ByAllOf(i), e)) || Onward(c, s, ByThen, e) || Onward(c, s, ByElse, e)
  {
    hide Ok, Resolve, Has, Named, Listed;
    if via :| Onward(c, s, via, e) {
      match via
      case ByItem(i) => assert s.v.DArr?;
      case ByAllOf(i) =>
      case ByRef =>
      case ByThen =>
      case ByElse =>
      case _ => assert s.v.DObj? && OfMember(via);
    }
  }

  /** An error is in the list exactly when the value its path leads to breaks the keyword of its code. */
  lemma {:induction false} ErrorsExact(c: Context, s: Site, e: Error)
    ensures e in Errors(c, s.n, s.v, s.path, s.depth) <==> Fails(c, s, e)
    decreases LIMIT + 1 - s.depth
  {
    hide Errors, Broken;
    ListedByStep(c, s, e);
    forall via | Step(c, s, via).Some? ensures Listed(c, Step(c, s, via).value, e) <==> Fails(c, Step(c, s, via).value, e) {
      StepDeeper(c, s, via);
      ErrorsExact(c, Step(c, s, via).value, e);
    }
    assert forall via :: Onward(c, s, via, e) <==> Step(c, s, via).Some? && Fails(c, Step(c, s, via).value, e);
  }

  lemma StepDeeper(c: Context, s: Site, via: Via)
    requires Step(c, s, via).Some?
    ensures Step(c, s, via).value.depth == s.depth + 1 <= LIMIT
  {
    hide Ok, Resolve, Named, Has;
  }

  // ---------------------------------------------------------------- paths name values

  /**
   The value that a path names below `doc`, which stands at `at`: the document itself, what its members by name
   and its elements by index lead to, and, at the path of an object, the names of its members.
   */
  ghost predicate Names(doc: Doc, at: string, path: string, v: Doc)
    decreases doc
  {
    || (path == at && (v == doc || exists i: nat :: IsMember(doc, i) && v == DScalar(Str(doc.members[i].key))))
    || (doc.DObj? && exists i :: 0 <= i < |doc.members| && Names(doc.members[i].value, Child(at, doc.members[i].key), path, v))
    || (doc.DArr? && exists i :: 0 <= i < |doc.items| && Names(doc.items[i], Child(at, PositionWalk.NatText(i)), path, v))
  }

  /** One place on, a value that is named is named from here. */
  lemma StepNames(c: Context, s: Site, via: Via, path: string, v: Doc)
    requires Step(c, s, via).Some? && Names(Step(c, s, via).value.v, Step(c, s, via).value.path, path, v)
    ensures Names(s.v, s.path, path, v)
  {
    hide Ok, Resolve, Named, Has, Child;
    match via
    case ByItem(i) => assert 0 <= i < |s.v.items|;
    case ByName(i) => assert IsMember(s.v, i);
    case ByProperty(i) => assert IsMember(s.v, i);
    case ByPattern(i, j) => assert IsMember(s.v, i);
    case ByRest(i) => assert IsMember(s.v, i);
    case _ =>
  }

  /** The path of every error names a value of the document, and some schema's keyword of that code is broken by it. */
  lemma {:induction false} EveryPathNames(c: Context, s: Site, e: Error)
    requires e in Errors(c, s.n, s.v, s.path, s.depth)
    ensures exists at: Site :: at.path == e.path && Names(s.v, s.path, at.path, at.v) && Broken(c, at, e.code)
    decreases LIMIT + 1 - s.depth
  {
    hide Errors, Broken, Step;
    ErrorsExact(c, s, e);
    if Broken(c, s, e.code) && e.path == s.path {
      assert Names(s.v, s.path, s.path, s.v);
    } else {
      var via :| Step(c, s, via).Some? && Fails(c, Step(c, s, via).value, e);
      var next := Step(c, s, via).value;
      StepDeeper(c, s, via);
      ErrorsExact(c, next, e);
      EveryPathNames(c, next, e);
      var at: Site :| at.path == e.path && Names(next.v, next.path, at.path, at.v) && Broken(c, at, e.code);
      StepNames(c, s, via, at.path, at.v);
    }
  }
}
