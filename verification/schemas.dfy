/**
 What a JSON Schema accepts, in draft 2020-12 and in the drafts rewritten to it. A schema is a
 document; it is decided keyword by keyword, with fuel spent only on following a reference.
 */
module Schemas {
  import opened Json
  import PositionWalk

  datatype Dialect = Draft2020 | Draft07 | Draft06 | Draft04

  /**
   What the model takes as given, and the draft a schema is read under; with `nullable`, the keyword
   of that name is read as OpenAPI reads it. `other` answers for the keywords the model does not
   read, all of an object's at once.
   */
  datatype Given = Given(
    dialect: Dialect,
    nullable: bool,
    keys: map<string, Json> -> seq<string>,
    decode: string -> Option<string>,
    external: (string, Json) -> bool,
    matches: (string, string) -> bool,
    other: (map<string, Json>, Json) -> bool)

  // ---------------------------------------------------------------- local pointers

  function SplitAt(s: string, c: char): (r: seq<string>)
    ensures r != []
  {
    if s == "" then [""]
    else
      var rest := SplitAt(s[1..], c);
      if s[0] == c then [""] + rest else [[s[0]] + rest[0]] + rest[1..]
  }

  function ReplacePair(s: string, second: char, with: char): string {
    if s == "" then ""
    else if |s| > 1 && s[0] == '~' && s[1] == second then [with] + ReplacePair(s[2..], second, with)
    else [s[0]] + ReplacePair(s[1..], second, with)
  }

  function Unescaped(raw: string): string {
    ReplacePair(ReplacePair(raw, '1', '/'), '0', '~')
  }

  function IndexFor(seg: string, n: nat): Option<nat> {
    if n == 0 then None else if PositionWalk.NatText(n - 1) == seg then Some(n - 1) else IndexFor(seg, n - 1)
  }

  /** An own property: of an array, an index within it or its length. */
  function Own(cur: Json, seg: string): Option<Json> {
    match cur
    case Obj(m) => if seg in m then Some(m[seg]) else None
    case Arr(a) =>
      if seg == "length" then Some(Num(|a| as real))
      else
        var i := IndexFor(seg, |a|);
        if i.Some? && i.value < |a| then Some(a[i.value]) else None
    case _ => None
  }

  function Descend(g: Given, cur: Json, segs: seq<string>): Option<Json>
    decreases |segs|
  {
    if segs == [] then Some(cur)
    else
      var seg := Unescaped(segs[0]);
      match Own(cur, seg)
      case Some(next) => Descend(g, next, segs[1..])
      case None =>
        if IsScalar(cur) || g.decode(seg).None? then None
        else
          match Own(cur, g.decode(seg).value)
          case Some(next) => Descend(g, next, segs[1..])
          case None => None
  }

  /** A local JSON pointer against the root; None for anything else. */
  function Resolve(g: Given, root: Json, ref: string): Option<Json> {
    if ref == "#" then Some(root)
    else if IsPointer(ref) then Descend(g, root, SplitAt(ref[2..], '/'))
    else None
  }

  /** A pointer to a definition, under the other name the table of definitions goes by. */
  function Alias(g: Given, root: Json, ref: string): Option<Json> {
    var segs := if IsPointer(ref) then SplitAt(ref[2..], '/') else [];
    if |segs| == 2 && segs[0] in DEFINITIONS && root.Obj? && segs[0] !in root.m && OtherTable(segs[0]) in root.m then
      Descend(g, root.m[OtherTable(segs[0])], segs[1..])
    else None
  }

  predicate IsPointer(ref: string) { |ref| >= 2 && ref[..2] == "#/" }

  function OtherTable(k: string): string { if k == "$defs" then "definitions" else "$defs" }

  /** What a reference names: by its pointer, or else by its alias. */
  function Lookup(g: Given, root: Json, ref: string): Option<Json> {
    match Resolve(g, root, ref) case Some(t) => Some(t) case None => Alias(g, root, ref)
  }

  function RefOf(s: Json): Option<string> {
    if s.Obj? && "$ref" in s.m && s.m["$ref"].Str? then Some(s.m["$ref"].s) else None
  }

  // ---------------------------------------------------------------- references to definitions

  /** The whole document, or an entry of its table of definitions. */
  predicate ToDefinition(ref: string) {
    ref == "#" || (IsPointer(ref) ==> |SplitAt(ref[2..], '/')| == 2 && SplitAt(ref[2..], '/')[0] in DEFINITIONS)
  }

  /** Percent-decoding leaves the names of the tables alone. */
  predicate Decodes(g: Given) { forall k :: k in DEFINITIONS ==> g.decode(k) == Some(k) }

  /** The table of definitions, by either name. */
  function DefTable(m: map<string, Json>, k: string): Option<Json> {
    if k in m then Some(m[k]) else if OtherTable(k) in m then Some(m[OtherTable(k)]) else None
  }

  lemma TableNames(k: string)
    requires k in DEFINITIONS
    ensures Unescaped(k) == k && OtherTable(k) in DEFINITIONS && OtherTable(OtherTable(k)) == k
  {
    hide Unescaped;
    assert '~' !in "$defs" && '~' !in "definitions";
    NameUnescaped(k);
  }

  lemma NameUnescaped(s: string)
    requires '~' !in s
    ensures Unescaped(s) == s
  {
    hide ReplacePair;
    NothingEscaped(s, '1', '/');
    NothingEscaped(s, '0', '~');
  }

  lemma {:induction false} NothingEscaped(s: string, second: char, with: char)
    requires '~' !in s
    ensures ReplacePair(s, second, with) == s
    decreases |s|
  {
    if s != "" { NothingEscaped(s[1..], second, with); }
  }

  /** A reference to a definition looks its name up in that table. */
  lemma LookupDefinition(g: Given, m: map<string, Json>, ref: string)
    requires Decodes(g) && IsPointer(ref) && |SplitAt(ref[2..], '/')| == 2 && SplitAt(ref[2..], '/')[0] in DEFINITIONS
    ensures var segs := SplitAt(ref[2..], '/');
            Lookup(g, Obj(m), ref) == match DefTable(m, segs[0]) case Some(t) => Descend(g, t, segs[1..]) case None => None
  {
    hide Descend, SplitAt, Unescaped;
    var segs := SplitAt(ref[2..], '/');
    TableNames(segs[0]);
    assert ref != "#";
    DescendFirst(g, m, segs);
  }

  lemma DescendFirst(g: Given, m: map<string, Json>, segs: seq<string>)
    requires |segs| == 2 && Unescaped(segs[0]) == segs[0] && g.decode(segs[0]) == Some(segs[0])
    ensures Descend(g, Obj(m), segs) == if segs[0] in m then Descend(g, m[segs[0]], segs[1..]) else None
  {
    hide Unescaped;
  }

  /** What a pointer reaches depends on the decoder alone. */
  lemma {:induction false} DescendGiven(g: Given, h: Given, cur: Json, segs: seq<string>)
    requires h.decode == g.decode
    ensures Descend(h, cur, segs) == Descend(g, cur, segs)
    decreases |segs|
  {
    hide Unescaped;
    if segs != [] {
      var seg := Unescaped(segs[0]);
      match Own(cur, seg)
      case Some(next) => DescendGiven(g, h, next, segs[1..]);
      case None =>
        if !IsScalar(cur) && g.decode(seg).Some? && Own(cur, g.decode(seg).value).Some? {
          DescendGiven(g, h, Own(cur, g.decode(seg).value).value, segs[1..]);
        }
    }
  }

  // ---------------------------------------------------------------- what a schema accepts

  const ANNOTATIONS := {"$ref", "title", "description", "$comment", "examples", "deprecated", "readOnly", "writeOnly", "default"}
  const DATA_KEYS := {"default", "const", "enum", "examples"}
  const DEFINITIONS := {"$defs", "definitions"}
  const ONE_SCHEMA := {"additionalProperties", "propertyNames", "items", "contains", "not", "if", "then", "else"}
  const SCHEMA_LISTS := {"prefixItems", "allOf", "anyOf", "oneOf"}
  const SCHEMA_MAPS := {"properties", "patternProperties", "dependentSchemas"}
  const PLAIN := {"type", "required", "dependentRequired", "minContains", "maxContains"}
  const BOUNDS := {"minimum", "maximum", "exclusiveMinimum", "exclusiveMaximum"}
  /** Identifiers, what only an earlier draft reads, and the schemas of an OpenAPI document. */
  const ASIDE := {"$id", "id", "$anchor", "$schema", "additionalItems", "dependencies", "nullable", "components"}

  predicate Known(k: string) {
    k in ANNOTATIONS || k in DATA_KEYS || k in DEFINITIONS || k in ONE_SCHEMA || k in SCHEMA_LISTS || k in SCHEMA_MAPS || k in PLAIN || k in BOUNDS || k in ASIDE
  }

  function List(m: map<string, Json>, k: string): Option<seq<Json>> {
    if k in m && m[k].Arr? then Some(m[k].a) else None
  }

  function Table(m: map<string, Json>, k: string): map<string, Json> {
    if k in m && m[k].Obj? then m[k].m else map[]
  }

  /** A place where a keyword applies a schema to a part of the value. */
  datatype Where =
    | AtProperty(k: string) | AtPattern(p: string, k: string) | AtMore(k: string) | AtName(k: string)
    | AtPrefix(i: nat) | AtItem(i: nat) | AtAll(i: nat) | AtDependent(k: string)
    | AtAny(i: nat) | AtOne(i: nat) | AtContains(i: nat) | AtNot | AtIf | AtThen | AtElse

  /** Where every one of them has to accept. */
  predicate MustAll(w: Where) {
    !w.AtAny? && !w.AtOne? && !w.AtContains? && !w.AtNot? && !w.AtIf? && !w.AtThen? && !w.AtElse?
  }

  datatype Part = NoPart | Part(s: Json, v: Json)

  /** Read as 2020-12 and nothing besides. */
  predicate Latest(g: Given) { g.dialect.Draft2020? && !g.nullable }

  /** The draft reads the keyword here: before 2019-09 nothing beside a reference is read. */
  predicate Reads(g: Given, m: map<string, Json>, k: string) {
    && k in m
    && match g.dialect
       case Draft2020 => true
       case Draft07 => RefOf(Obj(m)).None?
       case Draft06 => RefOf(Obj(m)).None? && k !in {"if", "then", "else"}
       case Draft04 => RefOf(Obj(m)).None? && k !in {"if", "then", "else", "const", "contains", "propertyNames"}
  }

  function ListOf(g: Given, m: map<string, Json>, k: string): Option<seq<Json>> {
    if Reads(g, m, k) then List(m, k) else None
  }

  function TableOf(g: Given, m: map<string, Json>, k: string): map<string, Json> {
    if Reads(g, m, k) then Table(m, k) else map[]
  }

  /** A name that `properties` or `patternProperties` speaks for. */
  predicate Named(g: Given, m: map<string, Json>, k: string) {
    k in TableOf(g, m, "properties") || exists p :: p in TableOf(g, m, "patternProperties") && g.matches(p, k)
  }

  /** Schemas by position, and the keyword that holds them (section 10.3.1.1 of 2020-12, 6.4.1 of draft-07). */
  function Positions(g: Given, m: map<string, Json>): seq<Json> {
    match ListOf(g, m, if g.dialect.Draft2020? then "prefixItems" else "items") case Some(l) => l case None => []
  }

  /** The keyword for the items after those. */
  function RestKeyword(g: Given, m: map<string, Json>): string {
    if !g.dialect.Draft2020? && List(m, "items").Some? then "additionalItems" else "items"
  }

  /** A dependency that is a schema (section 10.2.2.4 of 2020-12, 6.5.7 of draft-07). */
  function DependentOf(g: Given, m: map<string, Json>, k: string): Option<Json> {
    var t := TableOf(g, m, if g.dialect.Draft2020? then "dependentSchemas" else "dependencies");
    if k in t && (g.dialect.Draft2020? || !t[k].Arr?) then Some(t[k]) else None
  }

  ghost function PartAt(g: Given, m: map<string, Json>, v: Json, w: Where): (r: Part)
    ensures r.Part? ==> r.s < Obj(m)
  {
    match w
    case AtProperty(k) => if v.Obj? && k in v.m && k in TableOf(g, m, "properties") then Part(Table(m, "properties")[k], v.m[k]) else NoPart
    case AtPattern(p, k) =>
      if v.Obj? && k in v.m && p in TableOf(g, m, "patternProperties") && g.matches(p, k) then Part(Table(m, "patternProperties")[p], v.m[k]) else NoPart
    case AtMore(k) =>
      if v.Obj? && k in v.m && Reads(g, m, "additionalProperties") && !Named(g, m, k) then Part(m["additionalProperties"], v.m[k]) else NoPart
    case AtName(k) => if v.Obj? && k in v.m && Reads(g, m, "propertyNames") then Part(m["propertyNames"], Str(k)) else NoPart
    case AtPrefix(i) => if v.Arr? && i < |v.a| && i < |Positions(g, m)| then Part(Positions(g, m)[i], v.a[i]) else NoPart
    case AtItem(i) =>
      if v.Arr? && |Positions(g, m)| <= i < |v.a| && Reads(g, m, RestKeyword(g, m)) then Part(m[RestKeyword(g, m)], v.a[i]) else NoPart
    case AtDependent(k) => if v.Obj? && k in v.m && DependentOf(g, m, k).Some? then Part(DependentOf(g, m, k).value, v) else NoPart
    case AtAll(i) => ListPart(g, m, v, "allOf", i)
    case AtAny(i) => ListPart(g, m, v, "anyOf", i)
    case AtOne(i) => ListPart(g, m, v, "oneOf", i)
    case AtContains(i) => if v.Arr? && i < |v.a| && Reads(g, m, "contains") then Part(m["contains"], v.a[i]) else NoPart
    case AtNot => OnePart(g, m, v, "not")
    case AtIf => OnePart(g, m, v, "if")
    case AtThen => if Reads(g, m, "if") then OnePart(g, m, v, "then") else NoPart
    case AtElse => if Reads(g, m, "if") then OnePart(g, m, v, "else") else NoPart
  }

  function ListPart(g: Given, m: map<string, Json>, v: Json, k: string, i: nat): (r: Part)
    ensures r.Part? ==> r.s < Obj(m)
  {
    if ListOf(g, m, k).Some? && i < |ListOf(g, m, k).value| then Part(m[k].a[i], v) else NoPart
  }

  function OnePart(g: Given, m: map<string, Json>, v: Json, k: string): (r: Part)
    ensures r.Part? ==> r.s < Obj(m)
  {
    if Reads(g, m, k) then Part(m[k], v) else NoPart
  }

  /** The keyword of 2020-12 behind a place. */
  function KeywordOf(w: Where): string {
    match w
    case AtProperty(_) => "properties" case AtPattern(_, _) => "patternProperties" case AtMore(_) => "additionalProperties"
    case AtName(_) => "propertyNames" case AtPrefix(_) => "prefixItems" case AtItem(_) => "items" case AtAll(_) => "allOf"
    case AtDependent(_) => "dependentSchemas" case AtAny(_) => "anyOf" case AtOne(_) => "oneOf" case AtNot => "not" case AtContains(_) => "contains"
    case AtIf => "if" case AtThen => "then" case AtElse => "else"
  }

  predicate HasType(t: string, v: Json) {
    match t
    case "null" => v.Null?
    case "boolean" => v.Bool?
    case "number" => v.Num?
    case "integer" => v.Num? && v.n.Floor as real == v.n
    case "string" => v.Str?
    case "array" => v.Arr?
    case "object" => v.Obj?
    case _ => false
  }

  predicate TypeOk(t: Json, v: Json) {
    match t
    case Str(name) => HasType(name, v)
    case Arr(ts) => exists i :: 0 <= i < |ts| && ts[i].Str? && HasType(ts[i].s, v)
    case _ => true
  }

  /** Every name in the list is a member. */
  predicate NamesPresent(l: seq<Json>, v: Json) {
    v.Obj? ==> forall i :: 0 <= i < |l| && l[i].Str? ==> l[i].s in v.m
  }

  /** The names a dependency brings with it are there whenever its key is. */
  predicate DependentsPresent(t: map<string, Json>, v: Json) {
    v.Obj? ==> forall k :: k in t && k in v.m && t[k].Arr? ==> NamesPresent(t[k].a, v)
  }

  function NatOf(m: map<string, Json>, k: string): Option<nat> {
    if k in m && m[k].Num? && m[k].n >= 0.0 then Some(m[k].n.Floor) else None
  }

  /** How many items must match `contains` at least, and at most. */
  function MinContains(g: Given, m: map<string, Json>): nat {
    if g.dialect.Draft2020? && NatOf(m, "minContains").Some? then NatOf(m, "minContains").value else 1
  }

  function MaxContains(g: Given, m: map<string, Json>): Option<nat> {
    if g.dialect.Draft2020? then NatOf(m, "maxContains") else None
  }

  /** `nullable: true` beside a type lets null through. */
  predicate NullToo(g: Given, m: map<string, Json>, v: Json) {
    g.nullable && v.Null? && Reads(g, m, "nullable") && m["nullable"] == Bool(true)
  }

  /** The number under a keyword. */
  function NumOf(g: Given, m: map<string, Json>, k: string): Option<real> {
    if Reads(g, m, k) && m[k].Num? then Some(m[k].n) else None
  }

  /** The bound beside it is exclusive, as draft-04 says it. */
  predicate Strict(g: Given, m: map<string, Json>, k: string) { Reads(g, m, k) && m[k] == Bool(true) }

  /** The four bounds: an exclusive one is a bound of its own, or in draft-04 a boolean about the other. */
  predicate BoundsOk(g: Given, m: map<string, Json>, x: real) {
    && (match NumOf(g, m, "minimum") case None => true case Some(b) => if Strict(g, m, "exclusiveMinimum") then x > b else x >= b)
    && (match NumOf(g, m, "maximum") case None => true case Some(b) => if Strict(g, m, "exclusiveMaximum") then x < b else x <= b)
    && (match NumOf(g, m, "exclusiveMinimum") case None => true case Some(b) => x > b)
    && (match NumOf(g, m, "exclusiveMaximum") case None => true case Some(b) => x < b)
  }

  /** What is left to `other`. */
  function Rest(g: Given, m: map<string, Json>): map<string, Json> {
    map k | k in m && Reads(g, m, k) && !Known(k) :: m[k]
  }

  /** Two readings find the same value under the keyword, or both none. */
  predicate ReadsAlike(g: Given, a: map<string, Json>, h: Given, b: map<string, Json>, k: string) {
    (Reads(g, a, k) <==> Reads(h, b, k)) && (Reads(g, a, k) ==> a[k] == b[k])
  }

  lemma RestSame(g: Given, a: map<string, Json>, h: Given, b: map<string, Json>)
    requires forall k :: !Known(k) ==> ReadsAlike(g, a, h, b, k)
    ensures Rest(g, a) == Rest(h, b)
  {
    hide Known, Reads;
    forall k ensures k in Rest(g, a) <==> k in Rest(h, b) {
      if !Known(k) { assert ReadsAlike(g, a, h, b, k); }
      ReadsThere(g, a, k);
      ReadsThere(h, b, k);
    }
    forall k | k in Rest(g, a) ensures Rest(g, a)[k] == Rest(h, b)[k] {
      assert ReadsAlike(g, a, h, b, k);
    }
  }

  lemma ReadsThere(g: Given, m: map<string, Json>, k: string)
    ensures Reads(g, m, k) ==> k in m
  {
  }

  lemma BoundsSame(g: Given, a: map<string, Json>, h: Given, b: map<string, Json>, x: real)
    requires forall k :: k in BOUNDS ==> ReadsAlike(g, a, h, b, k)
    ensures BoundsOk(g, a, x) == BoundsOk(h, b, x)
  {
    hide Reads;
    assert ReadsAlike(g, a, h, b, "minimum") && ReadsAlike(g, a, h, b, "maximum") && ReadsAlike(g, a, h, b, "exclusiveMinimum") && ReadsAlike(g, a, h, b, "exclusiveMaximum");
  }

  /** The keywords that decide without another schema. */
  ghost predicate LocalOk(g: Given, m: map<string, Json>, v: Json) {
    && (Reads(g, m, "type") ==> TypeOk(m["type"], v) || NullToo(g, m, v))
    && (v.Num? ==> BoundsOk(g, m, v.n))
    && (ListOf(g, m, "required").Some? ==> NamesPresent(m["required"].a, v))
    && DependentsPresent(TableOf(g, m, if g.dialect.Draft2020? then "dependentRequired" else "dependencies"), v)
    && (ListOf(g, m, "enum").Some? ==> v in m["enum"].a)
    && (Reads(g, m, "const") ==> m["const"] == v)
    && (Rest(g, m) == map[] || g.other(Rest(g, m), v))
  }

  /**
   The schema, read against `root`, is decided to accept (`want`) or to refuse the value after
   following at most `f` references in a row. A schema that only leads back to itself is decided
   neither way.
   */
  ghost predicate Decided(g: Given, root: Json, s: Json, v: Json, f: nat, want: bool)
    decreases f, s, 5
  {
    match s
    case Bool(b) => b == want
    case Obj(m) => if want then Accepts(g, root, m, v, f) else Refuses(g, root, m, v, f)
    case _ => false
  }

  ghost predicate On(g: Given, root: Json, m: map<string, Json>, v: Json, w: Where, f: nat, want: bool)
    decreases f, Obj(m), 1
  {
    PartAt(g, m, v, w).Part? && Decided(g, root, PartAt(g, m, v, w).s, PartAt(g, m, v, w).v, f, want)
  }

  ghost predicate RefOn(g: Given, root: Json, m: map<string, Json>, v: Json, f: nat, want: bool)
    decreases f, Obj(m), 1
  {
    match RefOf(Obj(m))
    case None => want
    case Some(ref) =>
      match Lookup(g, root, ref)
      case None => g.external(ref, v) == want
      case Some(t) => f > 0 && Decided(g, root, t, v, f - 1, want)
  }

  ghost predicate Accepts(g: Given, root: Json, m: map<string, Json>, v: Json, f: nat)
    decreases f, Obj(m), 4
  {
    && LocalOk(g, m, v)
    && RefOn(g, root, m, v, f, true)
    && EveryOn(g, root, m, v, f)
    && (ListOf(g, m, "anyOf").Some? ==> exists i: nat :: On(g, root, m, v, AtAny(i), f, true))
    && (ListOf(g, m, "oneOf").Some? ==> exists i: nat :: OneOnly(g, root, m, v, i, f))
    && (Reads(g, m, "contains") && v.Arr? ==> exists s, t :: ContainsOn(g, root, m, v, f, s, t))
    && (Reads(g, m, "not") ==> On(g, root, m, v, AtNot, f, false))
    && (Reads(g, m, "if") ==> IfOn(g, root, m, v, f))
  }

  ghost predicate EveryOn(g: Given, root: Json, m: map<string, Json>, v: Json, f: nat)
    decreases f, Obj(m), 2
  {
    forall w :: MustAll(w) && PartAt(g, m, v, w).Part? ==> On(g, root, m, v, w, f, true)
  }

  ghost predicate IfOn(g: Given, root: Json, m: map<string, Json>, v: Json, f: nat)
    decreases f, Obj(m), 2
  {
    || (On(g, root, m, v, AtIf, f, true) && (Reads(g, m, "then") ==> On(g, root, m, v, AtThen, f, true)))
    || (On(g, root, m, v, AtIf, f, false) && (Reads(g, m, "else") ==> On(g, root, m, v, AtElse, f, true)))
  }

  ghost predicate OneOnly(g: Given, root: Json, m: map<string, Json>, v: Json, i: nat, f: nat)
    decreases f, Obj(m), 2
  {
    && On(g, root, m, v, AtOne(i), f, true)
    && forall j: nat :: j != i && PartAt(g, m, v, AtOne(j)).Part? ==> On(g, root, m, v, AtOne(j), f, false)
  }

  /** The items in `s` match, and those outside `t` do not. */
  ghost predicate Matching(g: Given, root: Json, m: map<string, Json>, v: Json, f: nat, s: set<nat>)
    decreases f, Obj(m), 2
  {
    forall i: nat :: i in s ==> On(g, root, m, v, AtContains(i), f, true)
  }

  ghost predicate NotMatchingBut(g: Given, root: Json, m: map<string, Json>, v: Json, f: nat, t: set<nat>)
    decreases f, Obj(m), 2
  {
    forall i: nat :: PartAt(g, m, v, AtContains(i)).Part? && i !in t ==> On(g, root, m, v, AtContains(i), f, false)
  }

  ghost predicate ContainsOn(g: Given, root: Json, m: map<string, Json>, v: Json, f: nat, s: set<nat>, t: set<nat>)
    decreases f, Obj(m), 3
  {
    && Matching(g, root, m, v, f, s) && |s| >= MinContains(g, m)
    && (MaxContains(g, m).Some? ==> NotMatchingBut(g, root, m, v, f, t) && |t| <= MaxContains(g, m).value)
  }

  ghost predicate Refuses(g: Given, root: Json, m: map<string, Json>, v: Json, f: nat)
    decreases f, Obj(m), 4
  {
    || !LocalOk(g, m, v)
    || RefOn(g, root, m, v, f, false)
    || (exists w :: MustAll(w) && On(g, root, m, v, w, f, false))
    || (ListOf(g, m, "anyOf").Some? && forall i: nat :: PartAt(g, m, v, AtAny(i)).Part? ==> On(g, root, m, v, AtAny(i), f, false))
    || (ListOf(g, m, "oneOf").Some? && forall i: nat :: PartAt(g, m, v, AtOne(i)).Part? ==> On(g, root, m, v, AtOne(i), f, false))
    || (exists i: nat, j: nat :: i < j && On(g, root, m, v, AtOne(i), f, true) && On(g, root, m, v, AtOne(j), f, true))
    || (Reads(g, m, "contains") && v.Arr? && (TooFew(g, root, m, v, f) || TooMany(g, root, m, v, f)))
    || On(g, root, m, v, AtNot, f, true)
    || (On(g, root, m, v, AtIf, f, true) && On(g, root, m, v, AtThen, f, false))
    || (On(g, root, m, v, AtIf, f, false) && On(g, root, m, v, AtElse, f, false))
  }

  ghost predicate TooFew(g: Given, root: Json, m: map<string, Json>, v: Json, f: nat)
    decreases f, Obj(m), 3
  {
    exists t :: NotMatchingBut(g, root, m, v, f, t) && |t| < MinContains(g, m)
  }

  ghost predicate TooMany(g: Given, root: Json, m: map<string, Json>, v: Json, f: nat)
    decreases f, Obj(m), 3
  {
    MaxContains(g, m).Some? && exists s :: Matching(g, root, m, v, f, s) && |s| > MaxContains(g, m).value
  }

  // ---------------------------------------------------------------- from parts to the whole

  /** A schema object as read under a draft, against a root. */
  datatype Reading = Reading(g: Given, root: Json, m: map<string, Json>)

  ghost predicate SameKeyword(a: Reading, b: Reading, k: string) {
    Reads(a.g, a.m, k) <==> Reads(b.g, b.m, k)
  }

  /** Two schema objects that ask the same of every part, in the same places. */
  ghost predicate Alike(a: Reading, b: Reading, v: Json) {
    && LocalOk(a.g, a.m, v) == LocalOk(b.g, b.m, v)
    && (ListOf(a.g, a.m, "anyOf").Some? <==> ListOf(b.g, b.m, "anyOf").Some?)
    && (ListOf(a.g, a.m, "oneOf").Some? <==> ListOf(b.g, b.m, "oneOf").Some?)
    && SameKeyword(a, b, "not") && SameKeyword(a, b, "if") && SameKeyword(a, b, "then") && SameKeyword(a, b, "else") && SameKeyword(a, b, "contains")
    && MinContains(a.g, a.m) == MinContains(b.g, b.m) && MaxContains(a.g, a.m) == MaxContains(b.g, b.m)
    && forall w :: PartAt(a.g, a.m, v, w).Part? <==> PartAt(b.g, b.m, v, w).Part?
  }

  /** Whatever is decided of a part on the one side is decided the same way on the other. */
  ghost predicate Carries(a: Reading, b: Reading, v: Json, fa: nat, fb: nat) {
    forall w, q :: On(a.g, a.root, a.m, v, w, fa, q) ==> On(b.g, b.root, b.m, v, w, fb, q)
  }

  /** What is decided part by part carries over to the whole. */
  lemma Transfer(a: Reading, b: Reading, v: Json, fa: nat, fb: nat, want: bool)
    requires Alike(a, b, v) && Carries(a, b, v, fa, fb)
    requires RefOn(a.g, a.root, a.m, v, fa, want) ==> RefOn(b.g, b.root, b.m, v, fb, want)
    requires Decided(a.g, a.root, Obj(a.m), v, fa, want)
    ensures Decided(b.g, b.root, Obj(b.m), v, fb, want)
  {
    if want { TransferAccepts(a, b, v, fa, fb); } else { TransferRefuses(a, b, v, fa, fb); }
  }

  lemma TransferAccepts(a: Reading, b: Reading, v: Json, fa: nat, fb: nat)
    requires Alike(a, b, v) && Carries(a, b, v, fa, fb)
    requires RefOn(a.g, a.root, a.m, v, fa, true) ==> RefOn(b.g, b.root, b.m, v, fb, true)
    requires Accepts(a.g, a.root, a.m, v, fa)
    ensures Accepts(b.g, b.root, b.m, v, fb)
  {
    hide LocalOk, PartAt, RefOn, On, ListOf, OneOnly, EveryOn, IfOn, Reads, ContainsOn, MinContains, MaxContains;
    assert EveryOn(b.g, b.root, b.m, v, fb) by { TransferEvery(a, b, v, fa, fb); }
    assert Reads(b.g, b.m, "if") ==> IfOn(b.g, b.root, b.m, v, fb) by { if Reads(a.g, a.m, "if") { TransferIf(a, b, v, fa, fb); } }
    if ListOf(a.g, a.m, "anyOf").Some? {
      var i: nat :| On(a.g, a.root, a.m, v, AtAny(i), fa, true);
      assert On(b.g, b.root, b.m, v, AtAny(i), fb, true);
    }
    if ListOf(a.g, a.m, "oneOf").Some? {
      var i: nat :| OneOnly(a.g, a.root, a.m, v, i, fa);
      TransferOne(a, b, v, i, fa, fb);
    }
    if Reads(a.g, a.m, "contains") && v.Arr? {
      var s, t :| ContainsOn(a.g, a.root, a.m, v, fa, s, t);
      TransferContains(a, b, v, fa, fb, s, t);
    }
  }

  lemma TransferEvery(a: Reading, b: Reading, v: Json, fa: nat, fb: nat)
    requires Alike(a, b, v) && Carries(a, b, v, fa, fb) && EveryOn(a.g, a.root, a.m, v, fa)
    ensures EveryOn(b.g, b.root, b.m, v, fb)
  {
    hide LocalOk, PartAt, On, ListOf, Reads, MinContains, MaxContains;
  }

  lemma TransferIf(a: Reading, b: Reading, v: Json, fa: nat, fb: nat)
    requires Alike(a, b, v) && Carries(a, b, v, fa, fb) && IfOn(a.g, a.root, a.m, v, fa)
    ensures IfOn(b.g, b.root, b.m, v, fb)
  {
    hide LocalOk, PartAt, On, ListOf, Reads, MinContains, MaxContains;
  }

  lemma TransferOne(a: Reading, b: Reading, v: Json, i: nat, fa: nat, fb: nat)
    requires Alike(a, b, v) && Carries(a, b, v, fa, fb) && OneOnly(a.g, a.root, a.m, v, i, fa)
    ensures OneOnly(b.g, b.root, b.m, v, i, fb)
  {
    hide LocalOk, PartAt, On, ListOf, Reads, MinContains, MaxContains;
  }

  lemma TransferMatching(a: Reading, b: Reading, v: Json, fa: nat, fb: nat, s: set<nat>)
    requires Alike(a, b, v) && Carries(a, b, v, fa, fb)
    ensures Matching(a.g, a.root, a.m, v, fa, s) ==> Matching(b.g, b.root, b.m, v, fb, s)
    ensures NotMatchingBut(a.g, a.root, a.m, v, fa, s) ==> NotMatchingBut(b.g, b.root, b.m, v, fb, s)
  {
    hide LocalOk, PartAt, On, ListOf, Reads, MinContains, MaxContains;
  }

  lemma TransferContains(a: Reading, b: Reading, v: Json, fa: nat, fb: nat, s: set<nat>, t: set<nat>)
    requires Alike(a, b, v) && Carries(a, b, v, fa, fb) && ContainsOn(a.g, a.root, a.m, v, fa, s, t)
    ensures ContainsOn(b.g, b.root, b.m, v, fb, s, t)
  {
    hide LocalOk, PartAt, On, ListOf, Reads, MinContains, MaxContains, Carries, Matching, NotMatchingBut;
    TransferMatching(a, b, v, fa, fb, s);
    TransferMatching(a, b, v, fa, fb, t);
  }

  lemma TransferCounts(a: Reading, b: Reading, v: Json, fa: nat, fb: nat)
    requires Alike(a, b, v) && Carries(a, b, v, fa, fb)
    ensures TooFew(a.g, a.root, a.m, v, fa) ==> TooFew(b.g, b.root, b.m, v, fb)
    ensures TooMany(a.g, a.root, a.m, v, fa) ==> TooMany(b.g, b.root, b.m, v, fb)
  {
    hide LocalOk, PartAt, On, ListOf, Reads, MinContains, MaxContains, Carries, Matching, NotMatchingBut;
    if t :| NotMatchingBut(a.g, a.root, a.m, v, fa, t) && |t| < MinContains(a.g, a.m) { TransferMatching(a, b, v, fa, fb, t); }
    if TooMany(a.g, a.root, a.m, v, fa) {
      var s :| Matching(a.g, a.root, a.m, v, fa, s) && |s| > MaxContains(a.g, a.m).value;
      TransferMatching(a, b, v, fa, fb, s);
    }
  }

  lemma TransferRefuses(a: Reading, b: Reading, v: Json, fa: nat, fb: nat)
    requires Alike(a, b, v) && Carries(a, b, v, fa, fb)
    requires RefOn(a.g, a.root, a.m, v, fa, false) ==> RefOn(b.g, b.root, b.m, v, fb, false)
    requires Refuses(a.g, a.root, a.m, v, fa)
    ensures Refuses(b.g, b.root, b.m, v, fb)
  {
    hide LocalOk, PartAt, RefOn, On, ListOf, Reads, TooFew, TooMany, MinContains, MaxContains;
    TransferCounts(a, b, v, fa, fb);
  }

  lemma BoolDecides(g: Given, root: Json, s: Json, v: Json, f: nat, want: bool)
    requires !s.Obj?
    ensures Decided(g, root, s, v, f, want) <==> s.Bool? && s.b == want
  {
  }

  lemma BothWays(a: Reading, b: Reading, v: Json, f: nat, want: bool)
    requires Alike(a, b, v) && Alike(b, a, v)
    requires forall w, q :: On(a.g, a.root, a.m, v, w, f, q) <==> On(b.g, b.root, b.m, v, w, f, q)
    requires RefOn(a.g, a.root, a.m, v, f, want) <==> RefOn(b.g, b.root, b.m, v, f, want)
    ensures Decided(a.g, a.root, Obj(a.m), v, f, want) <==> Decided(b.g, b.root, Obj(b.m), v, f, want)
  {
    hide Decided, On, RefOn, Alike;
    if Decided(a.g, a.root, Obj(a.m), v, f, want) { Transfer(a, b, v, f, f, want); }
    if Decided(b.g, b.root, Obj(b.m), v, f, want) { Transfer(b, a, v, f, f, want); }
  }

  /** More fuel decides no less, and the same way. */
  lemma {:induction false} DecidedMore(g: Given, root: Json, s: Json, v: Json, f: nat, more: nat, want: bool)
    requires f <= more && Decided(g, root, s, v, f, want)
    ensures Decided(g, root, s, v, more, want)
    decreases f, s
  {
    hide LocalOk, PartAt, Accepts, Refuses;
    if s.Obj? {
      var m := s.m;
      forall w, q | On(g, root, m, v, w, f, q) ensures On(g, root, m, v, w, more, q) {
        DecidedMore(g, root, PartAt(g, m, v, w).s, PartAt(g, m, v, w).v, f, more, q);
      }
      if RefOn(g, root, m, v, f, want) && RefOf(s).Some? && Lookup(g, root, RefOf(s).value).Some? {
        DecidedMore(g, root, Lookup(g, root, RefOf(s).value).value, v, f - 1, more - 1, want);
      }
      var here := Reading(g, root, m);
      assert Carries(here, here, v, f, more);
      Transfer(here, here, v, f, more, want);
    }
  }

  // ---------------------------------------------------------------- nothing is decided both ways

  ghost predicate Apart(g: Given, root: Json, m: map<string, Json>, v: Json, f: nat) {
    forall w :: !(On(g, root, m, v, w, f, true) && On(g, root, m, v, w, f, false))
  }

  /** Nothing is decided both ways. */
  lemma {:induction false} DecidedOnce(g: Given, root: Json, s: Json, v: Json, f: nat)
    ensures !(Decided(g, root, s, v, f, true) && Decided(g, root, s, v, f, false))
    decreases f, s
  {
    hide LocalOk, PartAt, Accepts, Refuses;
    if s.Obj? && Decided(g, root, s, v, f, true) && Decided(g, root, s, v, f, false) {
      var m := s.m;
      forall w ensures !(On(g, root, m, v, w, f, true) && On(g, root, m, v, w, f, false)) {
        if PartAt(g, m, v, w).Part? { DecidedOnce(g, root, PartAt(g, m, v, w).s, PartAt(g, m, v, w).v, f); }
      }
      if f > 0 && RefOf(s).Some? && Lookup(g, root, RefOf(s).value).Some? {
        DecidedOnce(g, root, Lookup(g, root, RefOf(s).value).value, v, f - 1);
      }
      assert !(RefOn(g, root, m, v, f, true) && RefOn(g, root, m, v, f, false));
      OnceApart(g, root, m, v, f);
    }
  }

  lemma OnceApart(g: Given, root: Json, m: map<string, Json>, v: Json, f: nat)
    requires Apart(g, root, m, v, f) && !(RefOn(g, root, m, v, f, true) && RefOn(g, root, m, v, f, false))
    ensures !(Accepts(g, root, m, v, f) && Refuses(g, root, m, v, f))
  {
    hide LocalOk, RefOn, On, ListOf, Decided, EveryOn, IfOn, OneOnly, PartAt, ContainsOn, TooFew, TooMany, Reads, Refuses;
    if Accepts(g, root, m, v, f) {
      EveryApart(g, root, m, v, f);
      ContainsApart(g, root, m, v, f);
      NotRefused(g, root, m, v, f);
    }
  }

  lemma ContainsApart(g: Given, root: Json, m: map<string, Json>, v: Json, f: nat)
    requires Apart(g, root, m, v, f) && Accepts(g, root, m, v, f)
    ensures Reads(g, m, "contains") && v.Arr? ==> !TooFew(g, root, m, v, f) && !TooMany(g, root, m, v, f)
  {
    hide LocalOk, RefOn, On, ListOf, Decided, EveryOn, IfOn, OneOnly, PartAt, ContainsOn, TooFew, TooMany, Reads;
    if Reads(g, m, "contains") && v.Arr? {
      var s, t :| ContainsOn(g, root, m, v, f, s, t);
      CountsApart(g, root, m, v, f, s, t);
    }
  }

  lemma NotRefused(g: Given, root: Json, m: map<string, Json>, v: Json, f: nat)
    requires Apart(g, root, m, v, f) && Accepts(g, root, m, v, f) && !RefOn(g, root, m, v, f, false)
    requires !exists w :: MustAll(w) && On(g, root, m, v, w, f, false)
    requires Reads(g, m, "contains") && v.Arr? ==> !TooFew(g, root, m, v, f) && !TooMany(g, root, m, v, f)
    ensures !Refuses(g, root, m, v, f)
  {
    hide Refuses, PartAt, Decided, EveryOn, IfOn, OneOnly, ContainsOn, TooFew, TooMany, RefOn, On;
    assert LocalOk(g, m, v);
    AnyApart(g, root, m, v, f);
    OneApart(g, root, m, v, f);
    IfApart(g, root, m, v, f);
    RefusesMeans(g, root, m, v, f);
  }

  lemma RefusesMeans(g: Given, root: Json, m: map<string, Json>, v: Json, f: nat)
    requires LocalOk(g, m, v) && !RefOn(g, root, m, v, f, false)
    requires !exists w :: MustAll(w) && On(g, root, m, v, w, f, false)
    requires !(ListOf(g, m, "anyOf").Some? && forall i: nat :: PartAt(g, m, v, AtAny(i)).Part? ==> On(g, root, m, v, AtAny(i), f, false))
    requires !(ListOf(g, m, "oneOf").Some? && forall i: nat :: PartAt(g, m, v, AtOne(i)).Part? ==> On(g, root, m, v, AtOne(i), f, false))
    requires !exists i: nat, j: nat :: i < j && On(g, root, m, v, AtOne(i), f, true) && On(g, root, m, v, AtOne(j), f, true)
    requires Reads(g, m, "contains") && v.Arr? ==> !TooFew(g, root, m, v, f) && !TooMany(g, root, m, v, f)
    requires !On(g, root, m, v, AtNot, f, true)
    requires !(On(g, root, m, v, AtIf, f, true) && On(g, root, m, v, AtThen, f, false))
    requires !(On(g, root, m, v, AtIf, f, false) && On(g, root, m, v, AtElse, f, false))
    ensures !Refuses(g, root, m, v, f)
  {
    hide LocalOk, RefOn, On, ListOf, Decided, PartAt, TooFew, TooMany, Reads;
  }

  lemma EveryApart(g: Given, root: Json, m: map<string, Json>, v: Json, f: nat)
    requires Apart(g, root, m, v, f) && EveryOn(g, root, m, v, f)
    ensures !exists w :: MustAll(w) && On(g, root, m, v, w, f, false)
  {
    hide Decided, PartAt;
  }

  lemma AnyApart(g: Given, root: Json, m: map<string, Json>, v: Json, f: nat)
    requires Apart(g, root, m, v, f) && Accepts(g, root, m, v, f)
    ensures !(ListOf(g, m, "anyOf").Some? && forall i: nat :: PartAt(g, m, v, AtAny(i)).Part? ==> On(g, root, m, v, AtAny(i), f, false))
  {
    hide LocalOk, RefOn, ListOf, Decided, EveryOn, IfOn, OneOnly, PartAt, ContainsOn;
  }

  lemma IfApart(g: Given, root: Json, m: map<string, Json>, v: Json, f: nat)
    requires Apart(g, root, m, v, f) && Accepts(g, root, m, v, f)
    ensures !On(g, root, m, v, AtNot, f, true)
    ensures !(On(g, root, m, v, AtIf, f, true) && On(g, root, m, v, AtThen, f, false))
    ensures !(On(g, root, m, v, AtIf, f, false) && On(g, root, m, v, AtElse, f, false))
  {
    hide LocalOk, RefOn, ListOf, Decided, EveryOn, OneOnly, ContainsOn, Reads, Named, Positions, DependentOf, ListPart;
  }

  lemma OneApart(g: Given, root: Json, m: map<string, Json>, v: Json, f: nat)
    requires Apart(g, root, m, v, f) && Accepts(g, root, m, v, f)
    ensures !(ListOf(g, m, "oneOf").Some? && forall i: nat :: PartAt(g, m, v, AtOne(i)).Part? ==> On(g, root, m, v, AtOne(i), f, false))
    ensures !exists i: nat, j: nat :: i < j && On(g, root, m, v, AtOne(i), f, true) && On(g, root, m, v, AtOne(j), f, true)
  {
    hide LocalOk, RefOn, Decided, EveryOn, IfOn, ContainsOn, ListOf, Reads, PartAt, On, OneOnly;
    if ListOf(g, m, "oneOf").Some? {
      var i: nat :| OneOnly(g, root, m, v, i, f);
      OnlyOneApart(g, root, m, v, i, f);
    } else {
      NoneOf(g, root, m, v, f);
    }
  }

  lemma OnlyOneApart(g: Given, root: Json, m: map<string, Json>, v: Json, i: nat, f: nat)
    requires Apart(g, root, m, v, f) && OneOnly(g, root, m, v, i, f)
    ensures PartAt(g, m, v, AtOne(i)).Part? && !On(g, root, m, v, AtOne(i), f, false)
    ensures forall j: nat, k: nat :: j < k ==> !(On(g, root, m, v, AtOne(j), f, true) && On(g, root, m, v, AtOne(k), f, true))
  {
    hide Decided, PartAt;
    forall j: nat, k: nat | j < k ensures !(On(g, root, m, v, AtOne(j), f, true) && On(g, root, m, v, AtOne(k), f, true)) {
      if j != i { OneElse(g, root, m, v, i, j, f); } else { OneElse(g, root, m, v, i, k, f); }
    }
  }

  lemma OneElse(g: Given, root: Json, m: map<string, Json>, v: Json, i: nat, j: nat, f: nat)
    requires Apart(g, root, m, v, f) && OneOnly(g, root, m, v, i, f) && j != i
    ensures !On(g, root, m, v, AtOne(j), f, true)
  {
    hide Decided, PartAt;
  }

  lemma NoneOf(g: Given, root: Json, m: map<string, Json>, v: Json, f: nat)
    requires ListOf(g, m, "oneOf").None?
    ensures forall i: nat, q :: !On(g, root, m, v, AtOne(i), f, q)
  {
    hide Decided, Reads;
  }

  /** What matches is among what is not known not to match. */
  lemma MatchingWithin(g: Given, root: Json, m: map<string, Json>, v: Json, f: nat, s: set<nat>, t: set<nat>)
    requires Apart(g, root, m, v, f) && Matching(g, root, m, v, f, s) && NotMatchingBut(g, root, m, v, f, t)
    ensures |s| <= |t|
  {
    hide Decided, PartAt;
    forall i | i in s ensures i in t { assert On(g, root, m, v, AtContains(i), f, true); }
    SubsetSize(s, t);
  }

  lemma {:induction false} SubsetSize(s: set<nat>, t: set<nat>)
    requires s <= t
    ensures |s| <= |t|
    decreases |s|
  {
    if s != {} {
      var x :| x in s;
      SubsetSize(s - {x}, t - {x});
    }
  }

  lemma FewApart(g: Given, root: Json, m: map<string, Json>, v: Json, f: nat, s: set<nat>)
    requires Apart(g, root, m, v, f) && Matching(g, root, m, v, f, s) && |s| >= MinContains(g, m)
    ensures !TooFew(g, root, m, v, f)
  {
    hide Decided, PartAt, Apart, Matching, NotMatchingBut, MinContains, MaxContains;
    forall t | NotMatchingBut(g, root, m, v, f, t) ensures |t| >= MinContains(g, m) {
      MatchingWithin(g, root, m, v, f, s, t);
    }
  }

  lemma ManyApart(g: Given, root: Json, m: map<string, Json>, v: Json, f: nat, t: set<nat>)
    requires Apart(g, root, m, v, f)
    requires MaxContains(g, m).Some? ==> NotMatchingBut(g, root, m, v, f, t) && |t| <= MaxContains(g, m).value
    ensures !TooMany(g, root, m, v, f)
  {
    hide Decided, PartAt, Apart, Matching, NotMatchingBut, MinContains, MaxContains;
    forall s | MaxContains(g, m).Some? && Matching(g, root, m, v, f, s) ensures |s| <= MaxContains(g, m).value {
      MatchingWithin(g, root, m, v, f, s, t);
    }
  }

  lemma CountsApart(g: Given, root: Json, m: map<string, Json>, v: Json, f: nat, s: set<nat>, t: set<nat>)
    requires Apart(g, root, m, v, f) && ContainsOn(g, root, m, v, f, s, t)
    ensures !TooFew(g, root, m, v, f) && !TooMany(g, root, m, v, f)
  {
    hide Decided, PartAt, Apart, Matching, NotMatchingBut, MinContains, MaxContains, TooFew, TooMany;
    FewApart(g, root, m, v, f, s);
    ManyApart(g, root, m, v, f, t);
  }

  // ---------------------------------------------------------------- schemas of few keywords

  /** Keywords that accept and refuse nothing. */
  const NOTES := {"title", "description", "$comment", "examples", "deprecated", "readOnly", "writeOnly", "default", "$defs", "definitions", "$id", "$schema"}

  const FEW := {"const", "enum", "type", "required", "properties", "additionalProperties", "items"} + NOTES

  const OTHERS := {"patternProperties", "propertyNames", "prefixItems", "allOf", "anyOf", "oneOf", "contains", "not", "if", "then", "else", "dependentSchemas", "dependentRequired", "$ref"}

  lemma FewAbsent(m: map<string, Json>)
    requires m.Keys <= FEW
    ensures forall k :: k in OTHERS || k in BOUNDS ==> k !in m
    ensures forall k :: k in m ==> Known(k)
  {
    assert forall k :: k in OTHERS || k in BOUNDS ==> k !in FEW;
    assert forall k :: k in FEW ==> Known(k);
  }

  /** Such a schema decides by itself, by the members, under its properties' schemas or the one for the others, and by the elements. */
  lemma FewKeywords(g: Given, root: Json, m: map<string, Json>, v: Json, f: nat)
    requires g.dialect.Draft2020? && m.Keys <= FEW
    ensures Accepts(g, root, m, v, f) <==> LocalOk(g, m, v) && EveryOn(g, root, m, v, f)
    ensures Refuses(g, root, m, v, f) <==> !LocalOk(g, m, v) || exists w :: MustAll(w) && On(g, root, m, v, w, f, false)
  {
    hide LocalOk, EveryOn, On, Accepts, Refuses, FEW, Known;
    forall w, q | !MustAll(w) ensures !On(g, root, m, v, w, f, q) { FewApply(g, root, m, v, w, f, q); }
    FewAbsent(m);
    assert ListOf(g, m, "anyOf").None? && ListOf(g, m, "oneOf").None?;
    assert !Reads(g, m, "contains") && !Reads(g, m, "not") && !Reads(g, m, "if");
    assert RefOn(g, root, m, v, f, true) && !RefOn(g, root, m, v, f, false);
    FewAccepts(g, root, m, v, f);
    FewRefuses(g, root, m, v, f);
  }

  lemma FewAccepts(g: Given, root: Json, m: map<string, Json>, v: Json, f: nat)
    requires ListOf(g, m, "anyOf").None? && ListOf(g, m, "oneOf").None? && !Reads(g, m, "contains") && !Reads(g, m, "not") && !Reads(g, m, "if")
    requires RefOn(g, root, m, v, f, true)
    ensures Accepts(g, root, m, v, f) <==> LocalOk(g, m, v) && EveryOn(g, root, m, v, f)
  {
    hide LocalOk, EveryOn, On, Reads, ListOf, RefOn, IfOn, ContainsOn, OneOnly;
  }

  lemma FewRefuses(g: Given, root: Json, m: map<string, Json>, v: Json, f: nat)
    requires ListOf(g, m, "anyOf").None? && ListOf(g, m, "oneOf").None? && !Reads(g, m, "contains") && !RefOn(g, root, m, v, f, false)
    requires forall w, q :: !MustAll(w) ==> !On(g, root, m, v, w, f, q)
    ensures Refuses(g, root, m, v, f) <==> !LocalOk(g, m, v) || exists w :: MustAll(w) && On(g, root, m, v, w, f, false)
  {
    hide LocalOk, On, Reads, ListOf, RefOn, PartAt, Refuses;
    assert !On(g, root, m, v, AtNot, f, true) && !On(g, root, m, v, AtIf, f, true) && !On(g, root, m, v, AtIf, f, false);
    assert forall i: nat :: !On(g, root, m, v, AtOne(i), f, true);
    if Refuses(g, root, m, v, f) { RefusedThere(g, root, m, v, f); }
    if exists w :: MustAll(w) && On(g, root, m, v, w, f, false) {
      var w :| MustAll(w) && On(g, root, m, v, w, f, false);
      RefusesThere(g, root, m, v, f, w);
    } else if !LocalOk(g, m, v) {
      RefusesLocally(g, root, m, v, f);
    }
  }

  lemma RefusedThere(g: Given, root: Json, m: map<string, Json>, v: Json, f: nat)
    requires ListOf(g, m, "anyOf").None? && ListOf(g, m, "oneOf").None? && !Reads(g, m, "contains") && !RefOn(g, root, m, v, f, false)
    requires !On(g, root, m, v, AtNot, f, true) && !On(g, root, m, v, AtIf, f, true) && !On(g, root, m, v, AtIf, f, false)
    requires (forall i: nat :: !On(g, root, m, v, AtOne(i), f, true)) && Refuses(g, root, m, v, f)
    ensures !LocalOk(g, m, v) || exists w :: MustAll(w) && On(g, root, m, v, w, f, false)
  {
    hide LocalOk, On, Reads, ListOf, RefOn, TooFew, TooMany, PartAt;
  }

  lemma RefusesThere(g: Given, root: Json, m: map<string, Json>, v: Json, f: nat, w: Where)
    requires MustAll(w) && On(g, root, m, v, w, f, false)
    ensures Refuses(g, root, m, v, f)
  {
    hide LocalOk, On, Reads, ListOf, RefOn, TooFew, TooMany, PartAt;
  }

  lemma RefusesLocally(g: Given, root: Json, m: map<string, Json>, v: Json, f: nat)
    requires !LocalOk(g, m, v)
    ensures Refuses(g, root, m, v, f)
  {
    hide LocalOk, On, Reads, ListOf, RefOn, TooFew, TooMany, PartAt;
  }

  lemma FewApply(g: Given, root: Json, m: map<string, Json>, v: Json, w: Where, f: nat, q: bool)
    requires g.dialect.Draft2020? && m.Keys <= FEW && !MustAll(w)
    ensures !On(g, root, m, v, w, f, q)
  {
    hide Decided, FEW, Known, BOUNDS;
    FewAbsent(m);
  }

  lemma NothingOn(g: Given, root: Json, m: map<string, Json>, v: Json, w: Where, f: nat, q: bool)
    requires PartAt(g, m, v, w).NoPart?
    ensures !On(g, root, m, v, w, f, q)
  {
    hide PartAt, Decided;
  }

  lemma FewLocal(g: Given, m: map<string, Json>, v: Json)
    requires g.dialect.Draft2020? && m.Keys <= FEW
    ensures LocalOk(g, m, v) <==>
            && ("type" in m ==> TypeOk(m["type"], v) || NullToo(g, m, v)) && ("const" in m ==> m["const"] == v)
            && (List(m, "enum").Some? ==> v in m["enum"].a) && (List(m, "required").Some? ==> NamesPresent(m["required"].a, v))
  {
    hide TypeOk, NullToo, FEW, Known;
    FewAbsent(m);
    assert Rest(g, m) == map[];
    assert TableOf(g, m, "dependentRequired") == map[];
  }

  /** The schema for a member, if there is one. */
  function FewSchema(m: map<string, Json>, k: string): Option<Json> {
    if k in Table(m, "properties") then Some(Table(m, "properties")[k])
    else if "additionalProperties" in m then Some(m["additionalProperties"])
    else None
  }

  /** The only parts are members, each in one place, and elements. */
  lemma FewParts(g: Given, m: map<string, Json>, v: Json, w: Where)
    requires g.dialect.Draft2020? && m.Keys <= FEW
    ensures PartAt(g, m, v, w).Part? ==> w.AtProperty? || w.AtMore? || w.AtItem?
    ensures w.AtProperty? || w.AtMore? ==>
            (PartAt(g, m, v, w).Part? <==> v.Obj? && w.k in v.m && FewSchema(m, w.k).Some? && (w.AtProperty? <==> w.k in Table(m, "properties")))
    ensures w.AtItem? ==> (PartAt(g, m, v, w).Part? <==> v.Arr? && w.i < |v.a| && "items" in m)
    ensures PartAt(g, m, v, w).Part? ==> PartAt(g, m, v, w) == if w.AtItem? then Part(m["items"], v.a[w.i]) else Part(FewSchema(m, w.k).value, v.m[w.k])
  {
    hide FEW, Known, BOUNDS;
    FewAbsent(m);
    assert TableOf(g, m, "patternProperties") == map[];
    assert TableOf(g, m, "properties") == Table(m, "properties");
    assert Positions(g, m) == [];
  }

  lemma ObjectDecided(g: Given, root: Json, m: map<string, Json>, v: Json, f: nat, want: bool)
    ensures Decided(g, root, Obj(m), v, f, want) == if want then Accepts(g, root, m, v, f) else Refuses(g, root, m, v, f)
  {
    hide Accepts, Refuses;
  }
}
