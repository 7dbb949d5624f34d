/** The native walk as it runs: an error vector grown in place, a depth counter taken up and put back. */
module NativeRun {
  import opened Json
  import opened Canonical
  import opened CanonicalFacts
  import opened NativeWalk
  import opened NativeFacts
  import NativeErrors
  import PositionWalk

  /** What was appended so far, with one part more. */
  ghost function Then(base: seq<Error>, acc: seq<Error>, part: seq<Error>): (r: seq<Error>)
    ensures r == acc + part && base + acc + part == base + r
    ensures part == [] ==> base + r == base + acc
  {
    Joined(base, acc, part);
    acc + part
  }

  lemma Joined(base: seq<Error>, acc: seq<Error>, part: seq<Error>)
    ensures base + acc + part == base + (acc + part)
  {
  }

  class ErrorList {
    var list: seq<Error>

    constructor ()
      ensures list == []
    {
      list := [];
    }

    method Push(code: Code, path: string)
      modifies this
      ensures list == old(list) + [Error(code, path)]
    {
      list := list + [Error(code, path)];
    }

    method PushIf(b: bool, code: Code, path: string)
      modifies this
      ensures list == old(list) + When(b, code, path)
    {
      if b { Push(code, path); }
    }
  }

  class Walker {
    const c: Context
    var depth: nat

    constructor (c: Context)
      ensures this.c == c && depth == 0
    {
      this.c, depth := c, 0;
    }

    /**
     The errors already in the list stay in front; what is appended is what the function says, and
     that is something exactly when the value is refused.
     */
    method Validate(n: Node, v: Doc, path: string, errors: ErrorList)
      requires depth <= LIMIT
      modifies `depth, errors
      ensures depth == old(depth)
      ensures errors.list == old(errors.list) + Errors(c, n, v, path, depth)
      ensures |errors.list| > |old(errors.list)| <==> !Ok(c, n, v, depth)
      decreases LIMIT + 1 - depth, 0
    {
      hide Ok, ScalarErrors, ArrayErrors, ObjectErrors, CombinedErrors;
      ErrorsIff(c, n, v, path, depth);
      depth := depth + 1;
      if depth > LIMIT {
        errors.Push(DepthExceeded, path);
      } else if n.boolean.Some? {
        errors.PushIf(!n.boolean.value, TypeMismatch, path);
      } else {
        WalkNode(n, v, path, errors);
      }
      depth := depth - 1;
    }

    method WalkNode(n: Node, v: Doc, path: string, errors: ErrorList)
      requires 0 < depth <= LIMIT && n.boolean.None?
      modifies `depth, errors
      ensures depth == old(depth) && errors.list == old(errors.list) + Errors(c, n, v, path, depth - 1)
      decreases LIMIT + 1 - depth, 5
    {
      hide Ok, ScalarErrors, ArrayErrors, ObjectErrors, CombinedErrors;
      ghost var base := errors.list;
      ghost var acc: seq<Error> := [];
      if n.ref != "" {
        var target := Resolve(c, n.ref);
        if target.Yes? {
          Validate(target.node, v, path, errors);
          acc := Errors(c, target.node, v, path, depth);
        } else {
          errors.Push(RefNotFound, path);
          acc := [Error(RefNotFound, path)];
        }
      }
      CheckScalars(n, v, path, errors);
      acc := Then(base, acc, ScalarErrors(c, n, v, path));
      if v.DArr? { WalkArray(n, v.items, path, errors); }
      acc := Then(base, acc, if v.DArr? then ArrayErrors(c, n, v.items, path, depth) else []);
      if v.DObj? { WalkObject(n, v, path, errors); }
      acc := Then(base, acc, if v.DObj? then ObjectErrors(c, n, v, path, depth) else []);
      WalkCombined(n, v, path, errors);
      acc := Then(base, acc, CombinedErrors(c, n, v, path, depth));
    }

    method ValidateOpt(o: OptNode, v: Doc, path: string, errors: ErrorList)
      requires 0 < depth <= LIMIT
      modifies `depth, errors
      ensures depth == old(depth) && errors.list == old(errors.list) + OptErrors(c, o, v, path, depth)
      decreases LIMIT + 1 - depth, 1
    {
      if o.Yes? { Validate(o.node, v, path, errors); }
    }

    /** A walk whose errors are only counted. */
    method Accepts(n: Node, v: Doc, path: string) returns (b: bool)
      requires 0 < depth <= LIMIT
      modifies `depth
      ensures depth == old(depth) && b == (Errors(c, n, v, path, depth) == []) && b == Ok(c, n, v, depth)
      decreases LIMIT + 1 - depth, 1
    {
      hide Errors, Ok;
      var tmp := new ErrorList();
      Validate(n, v, path, tmp);
      ErrorsIff(c, n, v, path, depth);
      b := tmp.list == [];
    }

    method CheckScalars(n: Node, v: Doc, path: string, errors: ErrorList)
      modifies errors
      ensures errors.list == old(errors.list) + ScalarErrors(c, n, v, path)
    {
      hide Canon, TypeAllowed, TypeOf, NumberErrors, StringErrors, When;
      ghost var base := errors.list;
      errors.PushIf(n.types != {} && !TypeAllowed(n.types, TypeOf(v)), TypeMismatch, path);
      ghost var acc := When(n.types != {} && !TypeAllowed(n.types, TypeOf(v)), TypeMismatch, path);
      CheckEnum(n, v, path, errors);
      acc := Then(base, acc, When(n.enums.Some? && Canon(v, c.num) !in n.enums.value, EnumMismatch, path));
      CheckConst(n, v, path, errors);
      acc := Then(base, acc, When(n.constant.Some? && Canon(v, c.num) != n.constant.value, ConstMismatch, path));
      if v.DScalar? && v.v.Num? { CheckNumber(n, v.v.n, path, errors); }
      acc := Then(base, acc, if v.DScalar? && v.v.Num? then NumberErrors(c, n, v.v.n, path) else []);
      if v.DScalar? && v.v.Str? { CheckString(n, v.v.s, path, errors); }
      acc := Then(base, acc, if v.DScalar? && v.v.Str? then StringErrors(c, n, v.v.s, path) else []);
    }

    method CheckEnum(n: Node, v: Doc, path: string, errors: ErrorList)
      modifies errors
      ensures errors.list == old(errors.list) + When(n.enums.Some? && Canon(v, c.num) !in n.enums.value, EnumMismatch, path)
    {
      hide Canon;
      if n.enums.Some? {
        var text := Canon(v, c.num);
        var found := FindText(n.enums.value, text);
        errors.PushIf(!found, EnumMismatch, path);
      }
    }

    method CheckConst(n: Node, v: Doc, path: string, errors: ErrorList)
      modifies errors
      ensures errors.list == old(errors.list) + When(n.constant.Some? && Canon(v, c.num) != n.constant.value, ConstMismatch, path)
    {
      hide Canon;
      if n.constant.Some? {
        errors.PushIf(Canon(v, c.num) != n.constant.value, ConstMismatch, path);
      }
    }

    method CheckUnique(n: Node, a: seq<Doc>, path: string, errors: ErrorList)
      modifies errors
      ensures errors.list == old(errors.list) + When(n.uniqueItems && TextTwice(a, c.num), UniqueItems, path)
    {
      hide TextTwice;
      if n.uniqueItems {
        var dup := HasDuplicate(a, c.num);
        errors.PushIf(dup, UniqueItems, path);
      }
    }

    method FindText(texts: seq<string>, text: string) returns (found: bool)
      ensures found <==> text in texts
    {
      found := false;
      var i := 0;
      while i < |texts|
        invariant 0 <= i <= |texts| && !found && forall k :: 0 <= k < i ==> texts[k] != text
      {
        if texts[i] == text { return true; }
        i := i + 1;
      }
    }

    method CheckNumber(n: Node, x: real, path: string, errors: ErrorList)
      modifies errors
      ensures errors.list == old(errors.list) + NumberErrors(c, n, x, path)
    {
      hide IsMultiple, When;
      ghost var base := errors.list;
      errors.PushIf(n.minimum.Some? && x < n.minimum.value, Minimum, path);
      ghost var acc := When(n.minimum.Some? && x < n.minimum.value, Minimum, path);
      errors.PushIf(n.maximum.Some? && x > n.maximum.value, Maximum, path);
      acc := Then(base, acc, When(n.maximum.Some? && x > n.maximum.value, Maximum, path));
      errors.PushIf(n.above.Some? && x <= n.above.value, ExclusiveMinimum, path);
      acc := Then(base, acc, When(n.above.Some? && x <= n.above.value, ExclusiveMinimum, path));
      errors.PushIf(n.below.Some? && x >= n.below.value, ExclusiveMaximum, path);
      acc := Then(base, acc, When(n.below.Some? && x >= n.below.value, ExclusiveMaximum, path));
      errors.PushIf(n.multipleOf.Some? && !IsMultiple(c, x, n.multipleOf.value), MultipleOf, path);
      acc := Then(base, acc, When(n.multipleOf.Some? && !IsMultiple(c, x, n.multipleOf.value), MultipleOf, path));
    }

    method CheckString(n: Node, s: string, path: string, errors: ErrorList)
      modifies errors
      ensures errors.list == old(errors.list) + StringErrors(c, n, s, path)
    {
      hide When;
      ghost var base := errors.list;
      errors.PushIf(n.minLength.Some? && |s| < n.minLength.value, MinLength, path);
      ghost var acc := When(n.minLength.Some? && |s| < n.minLength.value, MinLength, path);
      errors.PushIf(n.maxLength.Some? && |s| > n.maxLength.value, MaxLength, path);
      acc := Then(base, acc, When(n.maxLength.Some? && |s| > n.maxLength.value, MaxLength, path));
      errors.PushIf(n.pattern.Some? && !c.matches(n.pattern.value, s), PatternMismatch, path);
      acc := Then(base, acc, When(n.pattern.Some? && !c.matches(n.pattern.value, s), PatternMismatch, path));
      errors.PushIf(n.format.Some? && !c.formatOk(n.format.value, s), FormatMismatch, path);
      acc := Then(base, acc, When(n.format.Some? && !c.formatOk(n.format.value, s), FormatMismatch, path));
    }

    method WalkArray(n: Node, a: seq<Doc>, path: string, errors: ErrorList)
      requires 0 < depth <= LIMIT
      modifies `depth, errors
      ensures depth == old(depth) && errors.list == old(errors.list) + ArrayErrors(c, n, a, path, depth)
      decreases LIMIT + 1 - depth, 3
    {
      hide Canon, ItemErrors, CountClean, When, ContainsErrors;
      ghost var base := errors.list;
      errors.PushIf(n.minItems.Some? && |a| < n.minItems.value, MinItems, path);
      ghost var acc := When(n.minItems.Some? && |a| < n.minItems.value, MinItems, path);
      errors.PushIf(n.maxItems.Some? && |a| > n.maxItems.value, MaxItems, path);
      acc := Then(base, acc, When(n.maxItems.Some? && |a| > n.maxItems.value, MaxItems, path));
      CheckUnique(n, a, path, errors);
      acc := Then(base, acc, When(n.uniqueItems && TextTwice(a, c.num), UniqueItems, path));
      WalkItems(n, a, path, errors);
      acc := Then(base, acc, ItemErrors(c, n, a, path, depth));
      if n.contains.Yes? { CheckContains(n, n.contains.node, a, path, errors); }
      acc := Then(base, acc, if n.contains.Yes? then ContainsErrors(c, n, n.contains.node, a, path, depth) else []);
    }

    method CheckContains(n: Node, s: Node, a: seq<Doc>, path: string, errors: ErrorList)
      requires 0 < depth <= LIMIT
      modifies `depth, errors
      ensures depth == old(depth) && errors.list == old(errors.list) + ContainsErrors(c, n, s, a, path, depth)
      decreases LIMIT + 1 - depth, 3, 0
    {
      hide CountClean;
      ghost var base := errors.list;
      var k := CountMatches(s, a, path);
      errors.PushIf(k < (if n.minContains.Some? then n.minContains.value else 1), MinItems, path);
      ghost var acc := When(k < (if n.minContains.Some? then n.minContains.value else 1), MinItems, path);
      errors.PushIf(k > (if n.maxContains.Some? then n.maxContains.value else |a|), MaxItems, path);
      acc := Then(base, acc, When(k > (if n.maxContains.Some? then n.maxContains.value else |a|), MaxItems, path));
    }

    method WalkItems(n: Node, a: seq<Doc>, path: string, errors: ErrorList)
      requires 0 < depth <= LIMIT
      modifies `depth, errors
      ensures depth == old(depth) && errors.list == old(errors.list) + ItemErrors(c, n, a, path, depth)
      decreases LIMIT + 1 - depth, 2
    {
      hide OptErrors;
      var i := 0;
      while i < |a|
        invariant 0 <= i <= |a| && depth == old(depth)
        invariant errors.list == old(errors.list) + ItemErrors(c, n, a[..i], path, depth)
      {
        assert a[..i + 1][..i] == a[..i];
        ValidateOpt(ItemSchema(n, i), a[i], path + "/" + PositionWalk.NatText(i), errors);
        i := i + 1;
      }
      assert a[..i] == a;
    }

    method CountMatches(s: Node, a: seq<Doc>, path: string) returns (k: nat)
      requires 0 < depth <= LIMIT
      modifies `depth
      ensures depth == old(depth) && k == CountClean(c, s, a, path, depth)
      decreases LIMIT + 1 - depth, 2
    {
      hide Errors, Ok;
      k := 0;
      var i := 0;
      while i < |a|
        invariant 0 <= i <= |a| && depth == old(depth) && k == CountClean(c, s, a[..i], path, depth)
      {
        assert a[..i + 1][..i] == a[..i];
        var b := Accepts(s, a[i], path);
        if b { k := k + 1; }
        i := i + 1;
      }
      assert a[..i] == a;
    }

    method WalkObject(n: Node, v: Doc, path: string, errors: ErrorList)
      requires 0 < depth <= LIMIT && v.DObj?
      modifies `depth, errors
      ensures depth == old(depth) && errors.list == old(errors.list) + ObjectErrors(c, n, v, path, depth)
      decreases LIMIT + 1 - depth, 4
    {
      hide MissingErrors, MemberErrors, NameErrors, DependentRequiredErrors, DependentErrors;
      var ms := v.members;
      ghost var base := errors.list;
      errors.PushIf(n.minProperties.Some? && |ms| < n.minProperties.value, MinProperties, path);
      ghost var acc := When(n.minProperties.Some? && |ms| < n.minProperties.value, MinProperties, path);
      errors.PushIf(n.maxProperties.Some? && |ms| > n.maxProperties.value, MaxProperties, path);
      acc := Then(base, acc, When(n.maxProperties.Some? && |ms| > n.maxProperties.value, MaxProperties, path));
      CheckNames(ms, n.required, path, errors);
      acc := Then(base, acc, MissingErrors(ms, n.required, path));
      WalkMembers(n, ms, path, errors);
      acc := Then(base, acc, MemberErrors(c, n, ms, path, depth));
      if n.propertyNames.Yes? { WalkNames(n.propertyNames.node, ms, path, errors); }
      acc := Then(base, acc, if n.propertyNames.Yes? then NameErrors(c, n.propertyNames.node, ms, path, depth) else []);
      CheckDependents(ms, n.dependentRequired, path, errors);
      acc := Then(base, acc, DependentRequiredErrors(ms, n.dependentRequired, path));
      WalkDependents(n.dependentSchemas, v, path, errors);
      acc := Then(base, acc, DependentErrors(c, n.dependentSchemas, v, path, depth));
    }

    method CheckNames(ms: seq<DMember>, names: seq<string>, path: string, errors: ErrorList)
      modifies errors
      ensures errors.list == old(errors.list) + MissingErrors(ms, names, path)
    {
      hide Has;
      var i := 0;
      while i < |names|
        invariant 0 <= i <= |names| && errors.list == old(errors.list) + MissingErrors(ms, names[..i], path)
      {
        assert names[..i + 1][..i] == names[..i];
        errors.PushIf(!Has(ms, names[i]), RequiredMissing, path);
        i := i + 1;
      }
      assert names[..i] == names;
    }

    method CheckDependents(ms: seq<DMember>, ds: seq<DependentNames>, path: string, errors: ErrorList)
      modifies errors
      ensures errors.list == old(errors.list) + DependentRequiredErrors(ms, ds, path)
    {
      hide Has, MissingErrors;
      var i := 0;
      while i < |ds|
        invariant 0 <= i <= |ds| && errors.list == old(errors.list) + DependentRequiredErrors(ms, ds[..i], path)
      {
        assert ds[..i + 1][..i] == ds[..i];
        if Has(ms, ds[i].prop) { CheckNames(ms, ds[i].names, path, errors); }
        i := i + 1;
      }
      assert ds[..i] == ds;
    }

    method WalkMembers(n: Node, ms: seq<DMember>, path: string, errors: ErrorList)
      requires 0 < depth <= LIMIT
      modifies `depth, errors
      ensures depth == old(depth) && errors.list == old(errors.list) + MemberErrors(c, n, ms, path, depth)
      decreases LIMIT + 1 - depth, 3
    {
      hide OneMemberErrors;
      var i := 0;
      while i < |ms|
        invariant 0 <= i <= |ms| && depth == old(depth)
        invariant errors.list == old(errors.list) + MemberErrors(c, n, ms[..i], path, depth)
      {
        assert ms[..i + 1][..i] == ms[..i];
        WalkMember(n, ms[i], path, errors);
        i := i + 1;
      }
      assert ms[..i] == ms;
    }

    method WalkMember(n: Node, m: DMember, path: string, errors: ErrorList)
      requires 0 < depth <= LIMIT
      modifies `depth, errors
      ensures depth == old(depth) && errors.list == old(errors.list) + OneMemberErrors(c, n, m, path, depth)
      decreases LIMIT + 1 - depth, 2
    {
      hide Errors, Ok, PatternErrors, OptErrors;
      var at := path + "/" + m.key;
      var matched := false;
      if m.key in n.properties {
        Validate(n.properties[m.key], m.value, at, errors);
        matched := true;
      }
      var some := WalkPatterns(n.patterns, m, at, errors);
      matched := matched || some;
      if !matched {
        if n.additional == Some(false) { errors.Push(AdditionalProperty, path); } else { ValidateOpt(n.additionalSchema, m.value, at, errors); }
      }
    }

    method WalkPatterns(ps: seq<PatternProp>, m: DMember, at: string, errors: ErrorList) returns (some: bool)
      requires 0 < depth <= LIMIT
      modifies `depth, errors
      ensures depth == old(depth) && errors.list == old(errors.list) + PatternErrors(c, ps, m, at, depth)
      ensures some <==> exists i :: 0 <= i < |ps| && c.matches(ps[i].pattern, m.key)
      decreases LIMIT + 1 - depth, 1
    {
      hide Errors, Ok;
      some := false;
      var i := 0;
      while i < |ps|
        invariant 0 <= i <= |ps| && depth == old(depth)
        invariant errors.list == old(errors.list) + PatternErrors(c, ps[..i], m, at, depth)
        invariant some <==> exists k :: 0 <= k < i && c.matches(ps[k].pattern, m.key)
      {
        assert ps[..i + 1][..i] == ps[..i];
        if c.matches(ps[i].pattern, m.key) {
          Validate(ps[i].schema, m.value, at, errors);
          some := true;
        }
        i := i + 1;
      }
      assert ps[..i] == ps;
    }

    method WalkNames(s: Node, ms: seq<DMember>, path: string, errors: ErrorList)
      requires 0 < depth <= LIMIT
      modifies `depth, errors
      ensures depth == old(depth) && errors.list == old(errors.list) + NameErrors(c, s, ms, path, depth)
      decreases LIMIT + 1 - depth, 1
    {
      hide Errors, Ok;
      var i := 0;
      while i < |ms|
        invariant 0 <= i <= |ms| && depth == old(depth)
        invariant errors.list == old(errors.list) + NameErrors(c, s, ms[..i], path, depth)
      {
        assert ms[..i + 1][..i] == ms[..i];
        Validate(s, DScalar(Str(ms[i].key)), path, errors);
        i := i + 1;
      }
      assert ms[..i] == ms;
    }

    method WalkDependents(ds: seq<DependentSchema>, v: Doc, path: string, errors: ErrorList)
      requires 0 < depth <= LIMIT && v.DObj?
      modifies `depth, errors
      ensures depth == old(depth) && errors.list == old(errors.list) + DependentErrors(c, ds, v, path, depth)
      decreases LIMIT + 1 - depth, 1
    {
      hide Errors, Ok, Has;
      var i := 0;
      while i < |ds|
        invariant 0 <= i <= |ds| && depth == old(depth)
        invariant errors.list == old(errors.list) + DependentErrors(c, ds[..i], v, path, depth)
      {
        assert ds[..i + 1][..i] == ds[..i];
        if Has(v.members, ds[i].prop) { Validate(ds[i].schema, v, path, errors); }
        i := i + 1;
      }
      assert ds[..i] == ds;
    }

    method WalkCombined(n: Node, v: Doc, path: string, errors: ErrorList)
      requires 0 < depth <= LIMIT
      modifies `depth, errors
      ensures depth == old(depth) && errors.list == old(errors.list) + CombinedErrors(c, n, v, path, depth)
      decreases LIMIT + 1 - depth, 3
    {
      hide AllOfErrors, CountAccepted, OptErrors, Errors, Ok, When;
      ghost var base := errors.list;
      WalkAllOf(n.allOf, v, path, errors);
      ghost var acc := AllOfErrors(c, n.allOf, v, path, depth);
      CheckAnyOf(n, v, path, errors);
      acc := Then(base, acc, When(n.anyOf != [] && CountAccepted(c, n.anyOf, v, path, depth) == 0, AnyOfFailed, path));
      CheckOneOf(n, v, path, errors);
      acc := Then(base, acc, When(n.oneOf != [] && CountAccepted(c, n.oneOf, v, path, depth) != 1, OneOfFailed, path));
      CheckNot(n, v, path, errors);
      acc := Then(base, acc, When(n.no.Yes? && OptErrors(c, n.no, v, path, depth) == [], NotFailed, path));
      WalkConditional(n, v, path, errors);
      acc := Then(base, acc, ConditionalErrors(n, v, path));
    }

    ghost function ConditionalErrors(n: Node, v: Doc, path: string): seq<Error>
      reads `depth
      requires 0 < depth <= LIMIT
    {
      if n.cond.NoNode? then []
      else if OptErrors(c, n.cond, v, path, depth) == [] then OptErrors(c, n.yes, v, path, depth)
      else OptErrors(c, n.otherwise, v, path, depth)
    }

    method CheckAnyOf(n: Node, v: Doc, path: string, errors: ErrorList)
      requires 0 < depth <= LIMIT
      modifies `depth, errors
      ensures depth == old(depth)
      ensures errors.list == old(errors.list) + When(n.anyOf != [] && CountAccepted(c, n.anyOf, v, path, depth) == 0, AnyOfFailed, path)
      decreases LIMIT + 1 - depth, 3, 0
    {
      hide CountAccepted;
      if n.anyOf != [] {
        var any := SomeAccepts(n.anyOf, v, path);
        errors.PushIf(!any, AnyOfFailed, path);
      }
    }

    method CheckOneOf(n: Node, v: Doc, path: string, errors: ErrorList)
      requires 0 < depth <= LIMIT
      modifies `depth, errors
      ensures depth == old(depth)
      ensures errors.list == old(errors.list) + When(n.oneOf != [] && CountAccepted(c, n.oneOf, v, path, depth) != 1, OneOfFailed, path)
      decreases LIMIT + 1 - depth, 3, 0
    {
      hide CountAccepted;
      if n.oneOf != [] {
        var k := CountAcceptors(n.oneOf, v, path);
        errors.PushIf(k != 1, OneOfFailed, path);
      }
    }

    method CheckNot(n: Node, v: Doc, path: string, errors: ErrorList)
      requires 0 < depth <= LIMIT
      modifies `depth, errors
      ensures depth == old(depth)
      ensures errors.list == old(errors.list) + When(n.no.Yes? && OptErrors(c, n.no, v, path, depth) == [], NotFailed, path)
      decreases LIMIT + 1 - depth, 3, 0
    {
      hide Errors, Ok, OptErrors;
      if n.no.Yes? {
        OptIsErrors(n.no, v, path);
        var b := Accepts(n.no.node, v, path);
        errors.PushIf(b, NotFailed, path);
      }
    }

    method WalkConditional(n: Node, v: Doc, path: string, errors: ErrorList)
      requires 0 < depth <= LIMIT
      modifies `depth, errors
      ensures depth == old(depth) && errors.list == old(errors.list) + ConditionalErrors(n, v, path)
      decreases LIMIT + 1 - depth, 3, 0
    {
      hide Errors, Ok, OptErrors;
      if n.cond.Yes? {
        OptIsErrors(n.cond, v, path);
        var b := Accepts(n.cond.node, v, path);
        if b { ValidateOpt(n.yes, v, path, errors); } else { ValidateOpt(n.otherwise, v, path, errors); }
      }
    }

    lemma OptIsErrors(o: OptNode, v: Doc, path: string)
      requires 0 < depth <= LIMIT && o.Yes?
      ensures OptErrors(c, o, v, path, depth) == Errors(c, o.node, v, path, depth)
    {
      hide Errors;
    }

    method WalkAllOf(ss: seq<Node>, v: Doc, path: string, errors: ErrorList)
      requires 0 < depth <= LIMIT
      modifies `depth, errors
      ensures depth == old(depth) && errors.list == old(errors.list) + AllOfErrors(c, ss, v, path, depth)
      decreases LIMIT + 1 - depth, 1
    {
      hide Errors, Ok, AllOfErrors;
      ghost var base := errors.list;
      ghost var acc: seq<Error> := [];
      var i := 0;
      AllOfStart(ss, v, path);
      while i < |ss|
        invariant 0 <= i <= |ss| && depth == old(depth)
        invariant acc == AllOfErrors(c, ss[..i], v, path, depth) && errors.list == base + acc
      {
        var sub := new ErrorList();
        Validate(ss[i], v, path, sub);
        assert sub.list == Errors(c, ss[i], v, path, depth);
        AllOfNext(ss, i, v, path);
        if sub.list != [] {
          errors.Push(AllOfFailed, path);
          errors.list := errors.list + sub.list;
        }
        acc := Then(base, acc, if sub.list == [] then [] else [Error(AllOfFailed, path)] + sub.list);
        i := i + 1;
      }
      assert ss[..i] == ss;
    }

    lemma AllOfStart(ss: seq<Node>, v: Doc, path: string)
      requires 0 < depth <= LIMIT
      ensures AllOfErrors(c, ss[..0], v, path, depth) == []
    {
    }

    lemma AllOfNext(ss: seq<Node>, i: nat, v: Doc, path: string)
      requires 0 < depth <= LIMIT && i < |ss|
      ensures var e := Errors(c, ss[i], v, path, depth);
              AllOfErrors(c, ss[..i + 1], v, path, depth) == AllOfErrors(c, ss[..i], v, path, depth) + (if e == [] then [] else [Error(AllOfFailed, path)] + e)
    {
      hide Errors;
      assert ss[..i + 1][..i] == ss[..i];
    }

    /** Stops at the first schema that accepts. */
    method SomeAccepts(ss: seq<Node>, v: Doc, path: string) returns (any: bool)
      requires 0 < depth <= LIMIT
      modifies `depth
      ensures depth == old(depth) && (any <==> CountAccepted(c, ss, v, path, depth) > 0)
      decreases LIMIT + 1 - depth, 2
    {
      hide Errors, Ok;
      any := false;
      var i := 0;
      while i < |ss|
        invariant 0 <= i <= |ss| && depth == old(depth) && !any && CountAccepted(c, ss[..i], v, path, depth) == 0
      {
        assert ss[..i + 1][..i] == ss[..i];
        any := Accepts(ss[i], v, path);
        if any {
          MoreAccepted(ss, i + 1, v, path);
          return;
        }
        i := i + 1;
      }
      assert ss[..i] == ss;
    }

    lemma {:induction false} MoreAccepted(ss: seq<Node>, i: nat, v: Doc, path: string)
      requires 0 < depth <= LIMIT && i <= |ss|
      ensures CountAccepted(c, ss, v, path, depth) >= CountAccepted(c, ss[..i], v, path, depth)
      decreases |ss|
    {
      hide Errors;
      if i < |ss| {
        assert ss[..|ss| - 1][..i] == ss[..i];
        MoreAccepted(ss[..|ss| - 1], i, v, path);
      } else {
        assert ss[..i] == ss;
      }
    }

    method CountAcceptors(ss: seq<Node>, v: Doc, path: string) returns (k: nat)
      requires 0 < depth <= LIMIT
      modifies `depth
      ensures depth == old(depth) && k == CountAccepted(c, ss, v, path, depth)
      decreases LIMIT + 1 - depth, 2
    {
      hide Errors, Ok;
      k := 0;
      var i := 0;
      while i < |ss|
        invariant 0 <= i <= |ss| && depth == old(depth) && k == CountAccepted(c, ss[..i], v, path, depth)
      {
        assert ss[..i + 1][..i] == ss[..i];
        var b := Accepts(ss[i], v, path);
        if b { k := k + 1; }
        i := i + 1;
      }
      assert ss[..i] == ss;
    }
  }

  /** A document against the root: the verdict, and for each error the keyword broken and the value that breaks it. */
  method ValidateDirect(c: Context, v: Doc) returns (valid: bool, errors: seq<Error>)
    ensures valid == (errors == []) == Ok(c, c.root, v, 0)
    ensures forall e :: e in errors <==> NativeErrors.Fails(c, NativeErrors.Site(c.root, v, "", 0), e)
    ensures forall e :: e in errors ==>
      exists at: NativeErrors.Site :: at.path == e.path && NativeErrors.Names(v, "", at.path, at.v) && NativeErrors.Broken(c, at, e.code)
  {
    hide Errors, Ok, NativeErrors.Fails, NativeErrors.Broken, NativeErrors.Names;
    var list := new ErrorList();
    var walker := new Walker(c);
    walker.Validate(c.root, v, "", list);
    valid, errors := list.list == [], list.list;
    ghost var s := NativeErrors.Site(c.root, v, "", 0);
    forall e ensures e in errors <==> NativeErrors.Fails(c, s, e) { NativeErrors.ErrorsExact(c, s, e); }
    forall e | e in errors
      ensures exists at: NativeErrors.Site :: at.path == e.path && NativeErrors.Names(v, "", at.path, at.v) && NativeErrors.Broken(c, at, e.code)
    {
      NativeErrors.EveryPathNames(c, s, e);
    }
  }
}
