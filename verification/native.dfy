/**
 The native walk that collects errors (binding/ata_napi.cpp:304-794): what it accepts, as a plain
 question, and what it appends, as a list; both under the same limit on nested calls.
 */
module NativeWalk {
  import opened Json
  import opened Canonical
  import PositionWalk

  datatype OptNode = NoNode | Yes(node: Node)

  datatype PatternProp = PatternProp(pattern: string, schema: Node)

  datatype DependentSchema = DependentSchema(prop: string, schema: Node)

  datatype DependentNames = DependentNames(prop: string, names: seq<string>)

  datatype Type = TString | TNumber | TInteger | TBoolean | TNull | TObject | TArray | TUnknown

  /** A compiled schema node; enum and const values are kept as canonical texts. */
  datatype Node = Node(
    boolean: Option<bool>, ref: string, defs: map<string, Node>, types: set<Type>,
    enums: Option<seq<string>>, constant: Option<string>,
    minimum: Option<real>, maximum: Option<real>, above: Option<real>, below: Option<real>, multipleOf: Option<real>,
    minLength: Option<nat>, maxLength: Option<nat>, pattern: Option<string>, format: Option<string>,
    minItems: Option<nat>, maxItems: Option<nat>, uniqueItems: bool,
    prefixItems: seq<Node>, items: OptNode, contains: OptNode, minContains: Option<nat>, maxContains: Option<nat>,
    minProperties: Option<nat>, maxProperties: Option<nat>, required: seq<string>,
    properties: map<string, Node>, patterns: seq<PatternProp>, additional: Option<bool>, additionalSchema: OptNode,
    propertyNames: OptNode, dependentRequired: seq<DependentNames>, dependentSchemas: seq<DependentSchema>,
    allOf: seq<Node>, anyOf: seq<Node>, oneOf: seq<Node>, no: OptNode, cond: OptNode, yes: OptNode, otherwise: OptNode)

  /**
   The compiled schema: its root, and its definitions by the text of the references to them. Given: numbers,
   patterns, formats, the floating-point remainder, and how a text reads as an index.
   */
  datatype Context = Context(
    root: Node,
    defs: map<string, Node>,
    index: string -> nat,
    num: NumText,
    matches: (string, string) -> bool,
    formatOk: (string, string) -> bool,
    fmod: (real, real) -> real)

  datatype Code =
    | DepthExceeded | TypeMismatch | RefNotFound | EnumMismatch | ConstMismatch
    | Minimum | Maximum | ExclusiveMinimum | ExclusiveMaximum | MultipleOf
    | MinLength | MaxLength | PatternMismatch | FormatMismatch | MinItems | MaxItems | UniqueItems
    | MinProperties | MaxProperties | RequiredMissing | AdditionalProperty
    | AllOfFailed | AnyOfFailed | OneOfFailed | NotFailed

  datatype Error = Error(code: Code, path: string)

  const LIMIT := 100

  function TypeOf(v: Doc): Type {
    match v
    case DArr(_) => TArray
    case DObj(_) => TObject
    case DScalar(s) =>
      match s
      case Null => TNull
      case Bool(_) => TBoolean
      case Num(n) => if n.Floor as real == n && -9007199254740991.0 <= n <= 9007199254740991.0 then TInteger else TNumber
      case Str(_) => TString
      case _ => TUnknown
  }

  predicate TypeAllowed(ts: set<Type>, t: Type) { t in ts || (t.TInteger? && TNumber in ts) }

  function Abs(r: real): real { if r < 0.0 then -r else r }

  predicate IsMultiple(c: Context, n: real, d: real) {
    var rem := c.fmod(n, d);
    !(Abs(rem) > 0.00000001 && Abs(rem - d) > 0.00000001)
  }

  function When(b: bool, code: Code, path: string): seq<Error> { if b then [Error(code, path)] else [] }

  predicate Has(ms: seq<DMember>, k: string) { exists i :: 0 <= i < |ms| && ms[i].key == k }

  // ---------------------------------------------------------------- what a reference names

  /** Percent escapes decoded; what is none stays. */
  function PercentDecoded(s: string): string {
    if s == "" then ""
    else if s[0] == '%' && |s| > 2 && IsHex(s[1]) && IsHex(s[2]) then [(16 * HexDigit(s[1]) + HexDigit(s[2])) as char] + PercentDecoded(s[3..])
    else s[..1] + PercentDecoded(s[1..])
  }

  function TildeDecoded(s: string): string {
    if s == "" then ""
    else if s[0] == '~' && |s| > 1 && s[1] == '1' then "/" + TildeDecoded(s[2..])
    else if s[0] == '~' && |s| > 1 && s[1] == '0' then "~" + TildeDecoded(s[2..])
    else s[..1] + TildeDecoded(s[1..])
  }

  function Slash(s: string, i: nat): (j: nat)
    requires i <= |s|
    ensures i <= j <= |s| && (j < |s| ==> s[j] == '/') && forall k :: i <= k < j ==> s[k] != '/'
    decreases |s| - i
  {
    if i == |s| || s[i] == '/' then i else Slash(s, i + 1)
  }

  /** The segments of a pointer, decoded. A slash at the very end begins no further one. */
  function Segments(s: string): seq<string>
    decreases |s|
  {
    if s == "" then []
    else
      var j := Slash(s, 0);
      [TildeDecoded(PercentDecoded(s[..j]))] + if j == |s| then [] else Segments(s[j + 1..])
  }

  function At(ns: seq<Node>, i: nat): OptNode { if i < |ns| then Yes(ns[i]) else NoNode }

  /** The schema a keyword of one segment leads to. */
  function Under(n: Node, key: string): OptNode {
    match key
    case "items" => n.items
    case "not" => n.no
    case "if" => n.cond
    case "then" => n.yes
    case "else" => n.otherwise
    case "additionalProperties" => n.additionalSchema
    case _ => NoNode
  }

  /** The schema a keyword and a name or index under it lead to. */
  function Entry(c: Context, n: Node, key: string, name: string): OptNode {
    match key
    case "properties" => if name in n.properties then Yes(n.properties[name]) else NoNode
    case "allOf" => At(n.allOf, c.index(name))
    case "anyOf" => At(n.anyOf, c.index(name))
    case "oneOf" => At(n.oneOf, c.index(name))
    case "prefixItems" => At(n.prefixItems, c.index(name))
    case _ => // "$defs", "definitions"
      if name in n.defs then Yes(n.defs[name])
      else if "#/" + key + "/" + name in c.defs then Yes(c.defs["#/" + key + "/" + name]) else NoNode
  }

  const TAKES_NAME := {"properties", "allOf", "anyOf", "oneOf", "prefixItems", "$defs", "definitions"}

  function PointTo(c: Context, n: Node, segs: seq<string>): OptNode
    decreases |segs|
  {
    if segs == [] then Yes(n)
    else if segs[0] in TAKES_NAME then
      if |segs| == 1 then NoNode
      else match Entry(c, n, segs[0], segs[1]) case NoNode => NoNode case Yes(m) => PointTo(c, m, segs[2..])
    else
      match Under(n, segs[0]) case NoNode => NoNode case Yes(m) => PointTo(c, m, segs[1..])
  }

  /** By its text among the definitions, then as a pointer from the root, then the root itself. */
  function Resolve(c: Context, ref: string): OptNode {
    if ref in c.defs then Yes(c.defs[ref])
    else if |ref| > 1 && ref[0] == '#' && ref[1] == '/' then PointTo(c, c.root, Segments(ref[2..]))
    else if ref == "#" then Yes(c.root)
    else NoNode
  }

  // ---------------------------------------------------------------- keywords that look at the value alone

  predicate ScalarOk(c: Context, n: Node, v: Doc) {
    && (n.types != {} ==> TypeAllowed(n.types, TypeOf(v)))
    && (n.enums.Some? ==> Canon(v, c.num) in n.enums.value)
    && (n.constant.Some? ==> Canon(v, c.num) == n.constant.value)
    && (v.DScalar? && v.v.Num? ==> NumberOk(c, n, v.v.n))
    && (v.DScalar? && v.v.Str? ==> StringOk(c, n, v.v.s))
  }

  predicate NumberOk(c: Context, n: Node, x: real) {
    && (n.minimum.Some? ==> x >= n.minimum.value) && (n.maximum.Some? ==> x <= n.maximum.value)
    && (n.above.Some? ==> x > n.above.value) && (n.below.Some? ==> x < n.below.value)
    && (n.multipleOf.Some? ==> IsMultiple(c, x, n.multipleOf.value))
  }

  predicate StringOk(c: Context, n: Node, s: string) {
    && (n.minLength.Some? ==> |s| >= n.minLength.value) && (n.maxLength.Some? ==> |s| <= n.maxLength.value)
    && (n.pattern.Some? ==> c.matches(n.pattern.value, s)) && (n.format.Some? ==> c.formatOk(n.format.value, s))
  }

  function ScalarErrors(c: Context, n: Node, v: Doc, path: string): seq<Error> {
    When(n.types != {} && !TypeAllowed(n.types, TypeOf(v)), TypeMismatch, path)
    + When(n.enums.Some? && Canon(v, c.num) !in n.enums.value, EnumMismatch, path)
    + When(n.constant.Some? && Canon(v, c.num) != n.constant.value, ConstMismatch, path)
    + (if v.DScalar? && v.v.Num? then NumberErrors(c, n, v.v.n, path) else [])
    + (if v.DScalar? && v.v.Str? then StringErrors(c, n, v.v.s, path) else [])
  }

  function NumberErrors(c: Context, n: Node, x: real, path: string): seq<Error> {
    When(n.minimum.Some? && x < n.minimum.value, Minimum, path)
    + When(n.maximum.Some? && x > n.maximum.value, Maximum, path)
    + When(n.above.Some? && x <= n.above.value, ExclusiveMinimum, path)
    + When(n.below.Some? && x >= n.below.value, ExclusiveMaximum, path)
    + When(n.multipleOf.Some? && !IsMultiple(c, x, n.multipleOf.value), MultipleOf, path)
  }

  function StringErrors(c: Context, n: Node, s: string, path: string): seq<Error> {
    When(n.minLength.Some? && |s| < n.minLength.value, MinLength, path)
    + When(n.maxLength.Some? && |s| > n.maxLength.value, MaxLength, path)
    + When(n.pattern.Some? && !c.matches(n.pattern.value, s), PatternMismatch, path)
    + When(n.format.Some? && !c.formatOk(n.format.value, s), FormatMismatch, path)
  }

  // ---------------------------------------------------------------- what is accepted

  /** `depth` calls are already under way. */
  predicate Ok(c: Context, n: Node, v: Doc, depth: nat)
    decreases LIMIT + 1 - depth, 0
  {
    if depth >= LIMIT then false
    else if n.boolean.Some? then n.boolean.value
    else
      && (n.ref != "" ==> Resolve(c, n.ref).Yes? && Ok(c, Resolve(c, n.ref).node, v, depth + 1))
      && ScalarOk(c, n, v)
      && (v.DArr? ==> ArrayOk(c, n, v.items, depth + 1))
      && (v.DObj? ==> ObjectOk(c, n, v, depth + 1))
      && CombinedOk(c, n, v, depth + 1)
  }

  predicate OptOk(c: Context, o: OptNode, v: Doc, depth: nat)
    requires 0 < depth <= LIMIT
    decreases LIMIT + 1 - depth, 1
  {
    o.Yes? ==> Ok(c, o.node, v, depth)
  }

  predicate ArrayOk(c: Context, n: Node, a: seq<Doc>, depth: nat)
    requires 0 < depth <= LIMIT
    decreases LIMIT + 1 - depth, 3
  {
    && (n.minItems.Some? ==> |a| >= n.minItems.value) && (n.maxItems.Some? ==> |a| <= n.maxItems.value)
    && (n.uniqueItems ==> forall i, j :: 0 <= i < j < |a| ==> Canon(a[i], c.num) != Canon(a[j], c.num))
    && (forall i :: 0 <= i < |a| ==> OptOk(c, ItemSchema(n, i), a[i], depth))
    && (n.contains.Yes? ==>
      && CountOk(c, n.contains.node, a, depth) >= (if n.minContains.Some? then n.minContains.value else 1)
      && (n.maxContains.Some? ==> CountOk(c, n.contains.node, a, depth) <= n.maxContains.value))
  }

  function ItemSchema(n: Node, i: nat): OptNode { if i < |n.prefixItems| then Yes(n.prefixItems[i]) else n.items }

  /** How many items the schema accepts. */
  function CountOk(c: Context, s: Node, a: seq<Doc>, depth: nat): (k: nat)
    requires 0 < depth <= LIMIT
    ensures k <= |a|
    decreases LIMIT + 1 - depth, 1, |a|
  {
    if a == [] then 0 else CountOk(c, s, a[..|a| - 1], depth) + (if Ok(c, s, a[|a| - 1], depth) then 1 else 0)
  }

  /** How many of the schemas accept the value. */
  function CountAccepting(c: Context, ss: seq<Node>, v: Doc, depth: nat): nat
    requires 0 < depth <= LIMIT
    decreases LIMIT + 1 - depth, 1, |ss|
  {
    if ss == [] then 0 else CountAccepting(c, ss[..|ss| - 1], v, depth) + (if Ok(c, ss[|ss| - 1], v, depth) then 1 else 0)
  }

  predicate ObjectOk(c: Context, n: Node, v: Doc, depth: nat)
    requires 0 < depth <= LIMIT && v.DObj?
    decreases LIMIT + 1 - depth, 3
  {
    var ms := v.members;
    && (n.minProperties.Some? ==> |ms| >= n.minProperties.value) && (n.maxProperties.Some? ==> |ms| <= n.maxProperties.value)
    && (forall i :: 0 <= i < |n.required| ==> Has(ms, n.required[i]))
    && (forall i :: 0 <= i < |ms| ==> MemberOk(c, n, ms[i], depth))
    && (n.propertyNames.Yes? ==> forall i :: 0 <= i < |ms| ==> Ok(c, n.propertyNames.node, DScalar(Str(ms[i].key)), depth))
    && (forall i :: 0 <= i < |n.dependentRequired| && Has(ms, n.dependentRequired[i].prop) ==>
      forall j :: 0 <= j < |n.dependentRequired[i].names| ==> Has(ms, n.dependentRequired[i].names[j]))
    && (forall i :: 0 <= i < |n.dependentSchemas| && Has(ms, n.dependentSchemas[i].prop) ==> Ok(c, n.dependentSchemas[i].schema, v, depth))
  }

  predicate Named(c: Context, n: Node, k: string) {
    k in n.properties || exists i :: 0 <= i < |n.patterns| && c.matches(n.patterns[i].pattern, k)
  }

  predicate MemberOk(c: Context, n: Node, m: DMember, depth: nat)
    requires 0 < depth <= LIMIT
    decreases LIMIT + 1 - depth, 2
  {
    && (m.key in n.properties ==> Ok(c, n.properties[m.key], m.value, depth))
    && (forall i :: 0 <= i < |n.patterns| && c.matches(n.patterns[i].pattern, m.key) ==> Ok(c, n.patterns[i].schema, m.value, depth))
    && (!Named(c, n, m.key) ==> if n.additional == Some(false) then false else OptOk(c, n.additionalSchema, m.value, depth))
  }

  predicate CombinedOk(c: Context, n: Node, v: Doc, depth: nat)
    requires 0 < depth <= LIMIT
    decreases LIMIT + 1 - depth, 3
  {
    && (forall i :: 0 <= i < |n.allOf| ==> Ok(c, n.allOf[i], v, depth))
    && (n.anyOf != [] ==> exists i :: 0 <= i < |n.anyOf| && Ok(c, n.anyOf[i], v, depth))
    && (n.oneOf != [] ==> CountAccepting(c, n.oneOf, v, depth) == 1)
    && (n.no.Yes? ==> !Ok(c, n.no.node, v, depth))
    && (n.cond.Yes? ==> if Ok(c, n.cond.node, v, depth) then OptOk(c, n.yes, v, depth) else OptOk(c, n.otherwise, v, depth))
  }

  // ---------------------------------------------------------------- what is appended

  function Errors(c: Context, n: Node, v: Doc, path: string, depth: nat): seq<Error>
    decreases LIMIT + 1 - depth, 0
  {
    if depth >= LIMIT then [Error(DepthExceeded, path)]
    else if n.boolean.Some? then When(!n.boolean.value, TypeMismatch, path)
    else
      (if n.ref == "" then []
       else if Resolve(c, n.ref).Yes? then Errors(c, Resolve(c, n.ref).node, v, path, depth + 1)
       else [Error(RefNotFound, path)])
      + ScalarErrors(c, n, v, path)
      + (if v.DArr? then ArrayErrors(c, n, v.items, path, depth + 1) else [])
      + (if v.DObj? then ObjectErrors(c, n, v, path, depth + 1) else [])
      + CombinedErrors(c, n, v, path, depth + 1)
  }

  function OptErrors(c: Context, o: OptNode, v: Doc, path: string, depth: nat): seq<Error>
    requires 0 < depth <= LIMIT
    decreases LIMIT + 1 - depth, 1
  {
    if o.Yes? then Errors(c, o.node, v, path, depth) else []
  }

  function ArrayErrors(c: Context, n: Node, a: seq<Doc>, path: string, depth: nat): seq<Error>
    requires 0 < depth <= LIMIT
    decreases LIMIT + 1 - depth, 3
  {
    When(n.minItems.Some? && |a| < n.minItems.value, MinItems, path)
    + When(n.maxItems.Some? && |a| > n.maxItems.value, MaxItems, path)
    + When(n.uniqueItems && exists i, j :: 0 <= i < j < |a| && Canon(a[i], c.num) == Canon(a[j], c.num), UniqueItems, path)
    + ItemErrors(c, n, a, path, depth)
    + (if n.contains.Yes? then ContainsErrors(c, n, n.contains.node, a, path, depth) else [])
  }

  function ItemErrors(c: Context, n: Node, a: seq<Doc>, path: string, depth: nat): seq<Error>
    requires 0 < depth <= LIMIT
    decreases LIMIT + 1 - depth, 2, |a|
  {
    if a == [] then []
    else
      var i := |a| - 1;
      ItemErrors(c, n, a[..i], path, depth) + OptErrors(c, ItemSchema(n, i), a[i], path + "/" + PositionWalk.NatText(i), depth)
  }

  /** Matches are counted by walking into a list of their own. */
  function CountClean(c: Context, s: Node, a: seq<Doc>, path: string, depth: nat): nat
    requires 0 < depth <= LIMIT
    decreases LIMIT + 1 - depth, 1, |a|
  {
    if a == [] then 0 else CountClean(c, s, a[..|a| - 1], path, depth) + (if Errors(c, s, a[|a| - 1], path, depth) == [] then 1 else 0)
  }

  function ContainsErrors(c: Context, n: Node, s: Node, a: seq<Doc>, path: string, depth: nat): seq<Error>
    requires 0 < depth <= LIMIT
    decreases LIMIT + 1 - depth, 2
  {
    var k := CountClean(c, s, a, path, depth);
    When(k < (if n.minContains.Some? then n.minContains.value else 1), MinItems, path)
    + When(k > (if n.maxContains.Some? then n.maxContains.value else |a|), MaxItems, path)
  }

  function ObjectErrors(c: Context, n: Node, v: Doc, path: string, depth: nat): seq<Error>
    requires 0 < depth <= LIMIT && v.DObj?
    decreases LIMIT + 1 - depth, 4
  {
    var ms := v.members;
    When(n.minProperties.Some? && |ms| < n.minProperties.value, MinProperties, path)
    + When(n.maxProperties.Some? && |ms| > n.maxProperties.value, MaxProperties, path)
    + MissingErrors(ms, n.required, path)
    + MemberErrors(c, n, ms, path, depth)
    + (if n.propertyNames.Yes? then NameErrors(c, n.propertyNames.node, ms, path, depth) else [])
    + DependentRequiredErrors(ms, n.dependentRequired, path)
    + DependentErrors(c, n.dependentSchemas, v, path, depth)
  }

  function MissingErrors(ms: seq<DMember>, names: seq<string>, path: string): seq<Error> {
    if names == [] then [] else MissingErrors(ms, names[..|names| - 1], path) + When(!Has(ms, names[|names| - 1]), RequiredMissing, path)
  }

  function DependentRequiredErrors(ms: seq<DMember>, ds: seq<DependentNames>, path: string): seq<Error> {
    if ds == [] then []
    else
      var d := ds[|ds| - 1];
      DependentRequiredErrors(ms, ds[..|ds| - 1], path) + (if Has(ms, d.prop) then MissingErrors(ms, d.names, path) else [])
  }

  function MemberErrors(c: Context, n: Node, ms: seq<DMember>, path: string, depth: nat): seq<Error>
    requires 0 < depth <= LIMIT
    decreases LIMIT + 1 - depth, 3, |ms|
  {
    if ms == [] then [] else MemberErrors(c, n, ms[..|ms| - 1], path, depth) + OneMemberErrors(c, n, ms[|ms| - 1], path, depth)
  }

  function OneMemberErrors(c: Context, n: Node, m: DMember, path: string, depth: nat): seq<Error>
    requires 0 < depth <= LIMIT
    decreases LIMIT + 1 - depth, 2
  {
    var at := path + "/" + m.key;
    (if m.key in n.properties then Errors(c, n.properties[m.key], m.value, at, depth) else [])
    + PatternErrors(c, n.patterns, m, at, depth)
    + (if Named(c, n, m.key) then []
       else if n.additional == Some(false) then [Error(AdditionalProperty, path)]
       else OptErrors(c, n.additionalSchema, m.value, at, depth))
  }

  function PatternErrors(c: Context, ps: seq<PatternProp>, m: DMember, at: string, depth: nat): seq<Error>
    requires 0 < depth <= LIMIT
    decreases LIMIT + 1 - depth, 1, |ps|
  {
    if ps == [] then []
    else
      var p := ps[|ps| - 1];
      PatternErrors(c, ps[..|ps| - 1], m, at, depth) + (if c.matches(p.pattern, m.key) then Errors(c, p.schema, m.value, at, depth) else [])
  }

  function NameErrors(c: Context, s: Node, ms: seq<DMember>, path: string, depth: nat): seq<Error>
    requires 0 < depth <= LIMIT
    decreases LIMIT + 1 - depth, 1, |ms|
  {
    if ms == [] then [] else NameErrors(c, s, ms[..|ms| - 1], path, depth) + Errors(c, s, DScalar(Str(ms[|ms| - 1].key)), path, depth)
  }

  function DependentErrors(c: Context, ds: seq<DependentSchema>, v: Doc, path: string, depth: nat): seq<Error>
    requires 0 < depth <= LIMIT && v.DObj?
    decreases LIMIT + 1 - depth, 1, |ds|
  {
    if ds == [] then []
    else
      var d := ds[|ds| - 1];
      DependentErrors(c, ds[..|ds| - 1], v, path, depth) + (if Has(v.members, d.prop) then Errors(c, d.schema, v, path, depth) else [])
  }

  function CombinedErrors(c: Context, n: Node, v: Doc, path: string, depth: nat): seq<Error>
    requires 0 < depth <= LIMIT
    decreases LIMIT + 1 - depth, 2
  {
    AllOfErrors(c, n.allOf, v, path, depth)
    + When(n.anyOf != [] && CountAccepted(c, n.anyOf, v, path, depth) == 0, AnyOfFailed, path)
    + When(n.oneOf != [] && CountAccepted(c, n.oneOf, v, path, depth) != 1, OneOfFailed, path)
    + When(n.no.Yes? && OptErrors(c, n.no, v, path, depth) == [], NotFailed, path)
    + (if n.cond.NoNode? then []
       else if OptErrors(c, n.cond, v, path, depth) == [] then OptErrors(c, n.yes, v, path, depth)
       else OptErrors(c, n.otherwise, v, path, depth))
  }

  /** How many of the schemas appended nothing. */
  function CountAccepted(c: Context, ss: seq<Node>, v: Doc, path: string, depth: nat): nat
    requires 0 < depth <= LIMIT
    decreases LIMIT + 1 - depth, 1, |ss|
  {
    if ss == [] then 0 else CountAccepted(c, ss[..|ss| - 1], v, path, depth) + (if Errors(c, ss[|ss| - 1], v, path, depth) == [] then 1 else 0)
  }

  function AllOfErrors(c: Context, ss: seq<Node>, v: Doc, path: string, depth: nat): seq<Error>
    requires 0 < depth <= LIMIT
    decreases LIMIT + 1 - depth, 1, |ss|
  {
    if ss == [] then []
    else
      var sub := Errors(c, ss[|ss| - 1], v, path, depth);
      AllOfErrors(c, ss[..|ss| - 1], v, path, depth) + (if sub == [] then [] else [Error(AllOfFailed, path)] + sub)
  }
}
