/**
 The compiler of the copy behind parse() (lib/clone-emit.js:119-414). The emitted text is an
 expression tree over named variables, evaluated in an environment.
 */
module CloneEmit {
  import opened Json
  import opened Schemas

  /** The compiled check of a default, and the length of a value as source text. */
  datatype Probes = Probes(holds: (Json, Json) -> bool, sourceLength: Json -> nat)

  // ---------------------------------------------------------------- the emitted program

  /** `data`, the element variable of a map at a depth, the value variable of a record loop. */
  datatype Var = Data | El(d: nat) | Val(d: nat)

  datatype Access = AVar(x: Var) | AMember(from: Access, key: string)

  datatype Expr =
    | Read(a: Access)
    | Slice(a: Access)
    | MapEach(a: Access, el: Var, inner: Expr)
    | Build(a: Access, fixed: seq<Field>, conds: seq<Cond>, rec: Record)

  datatype Field = Field(key: string, value: Expr)

  datatype Cond = Cond(key: string, value: Expr, dflt: Option<Json>)

  datatype Record = NoRecord | Record(x: Var, declared: set<string>, value: Expr)

  type Env = map<Var, Json>

  /** None where JavaScript reads `undefined` or throws. */
  function Look(a: Access, env: Env): Option<Json> {
    match a
    case AVar(x) => if x in env then Some(env[x]) else None
    case AMember(from, key) =>
      match Look(from, env)
      case Some(Obj(m)) => if key in m then Some(m[key]) else None
      case _ => None
  }

  ghost function Eval(e: Expr, env: Env): Option<Json>
    decreases e, 2
  {
    match e
    case Read(a) => Look(a, env)
    case Slice(a) => (match Look(a, env) case Some(Arr(s)) => Some(Arr(s)) case _ => None)
    case MapEach(a, el, inner) =>
      (match Look(a, env)
       case Some(Arr(s)) =>
         if forall i :: 0 <= i < |s| ==> Eval(inner, env[el := s[i]]).Some?
         then Some(Arr(seq(|s|, i requires 0 <= i < |s| => Eval(inner, env[el := s[i]]).value)))
         else None
       case _ => None)
    case Build(a, fixed, conds, rec) =>
      (match Look(a, env)
       case Some(Obj(v)) =>
         var one := EvalFields(fixed, env);
         var two := EvalConds(conds, v, env);
         if one.None? || two.None? then None
         else if rec.NoRecord? then Some(Obj(one.value + two.value))
         else if forall k :: k in v && k !in rec.declared ==> Eval(rec.value, env[rec.x := v[k]]).Some?
         then Some(Obj(one.value + two.value + (map k | k in v && k !in rec.declared :: Eval(rec.value, env[rec.x := v[k]]).value)))
         else None
       case _ => None)
  }

  ghost function EvalFields(fs: seq<Field>, env: Env): Option<map<string, Json>>
    decreases fs, 1
  {
    if fs == [] then Some(map[])
    else
      var init, last := EvalFields(fs[..|fs| - 1], env), Eval(fs[|fs| - 1].value, env);
      if init.None? || last.None? then None else Some(init.value[fs[|fs| - 1].key := last.value])
  }

  ghost function EvalConds(cs: seq<Cond>, v: map<string, Json>, env: Env): Option<map<string, Json>>
    decreases cs, 1
  {
    if cs == [] then Some(map[])
    else
      var c := cs[|cs| - 1];
      match EvalConds(cs[..|cs| - 1], v, env)
      case None => None
      case Some(init) =>
        if c.key in v then (match Eval(c.value, env) case Some(r) => Some(init[c.key := r]) case None => None)
        else if c.dflt.Some? then Some(init[c.key := c.dflt.value])
        else Some(init)
  }

  // ---------------------------------------------------------------- what the emitter reads off a schema

  predicate Set(m: map<string, Json>, k: string) { k in m && Truthy(m[k]) }

  predicate ObjectLike(v: Json) { v.Obj? || v.Arr? }

  function PropsOf(m: map<string, Json>): map<string, Json> { Table(m, "properties") }

  /** The record shape: `additionalProperties` is a schema. */
  predicate IsRecord(m: map<string, Json>) { "additionalProperties" in m && ObjectLike(m["additionalProperties"]) }

  predicate HasTypeName(m: map<string, Json>, t: string) { "type" in m && m["type"] == Str(t) }

  function Strings(l: seq<Json>): set<string> { set i | 0 <= i < |l| && l[i].Str? :: l[i].s }

  function RequiredOf(m: map<string, Json>): set<string> {
    match List(m, "required") case Some(l) => Strings(l) case None => {}
  }

  predicate Recordable(m: map<string, Json>) { Set(m, "properties") || IsRecord(m) }

  const PRIMITIVES := {"string", "number", "integer", "boolean", "null"}

  predicate PrimitiveName(t: Json) { t.Str? && t.s in PRIMITIVES }

  /** Every value the schema accepts is a scalar. */
  predicate PrimitiveOnly(s: Json) {
    match s
    case Obj(m) =>
      if Set(m, "$ref") then false
      else if "type" in m then
        match m["type"]
        case Arr(ts) => forall i :: 0 <= i < |ts| ==> PrimitiveName(ts[i])
        case t => PrimitiveName(t)
      else
        || (List(m, "enum").Some? && m["enum"].a != [] && "const" !in m && forall i :: 0 <= i < |m["enum"].a| ==> IsScalar(m["enum"].a[i]))
        || ("const" in m && IsScalar(m["const"]) && "enum" !in m)
        || (List(m, "anyOf").Some? && m["anyOf"].a != [] && forall i :: 0 <= i < |m["anyOf"].a| ==> PrimitiveOnly(m["anyOf"].a[i]))
        || (List(m, "oneOf").Some? && m["oneOf"].a != [] && forall i :: 0 <= i < |m["oneOf"].a| ==> PrimitiveOnly(m["oneOf"].a[i]))
    case _ => false
  }

  // ---------------------------------------------------------------- the names a node requires

  datatype Names = CannotTell | Names(all: set<string>)

  function Union(a: Names, b: Names): Names {
    if a.CannotTell? || b.CannotTell? then CannotTell else Names(a.all + b.all)
  }

  function ListNames(v: Json): set<string> { if v.Arr? then Strings(v.a) else {} }

  /** The keys of `dependentRequired`, and the names they bring with them. */
  function DependentNames(t: map<string, Json>): set<string> {
    t.Keys + set k, n | k in t && n in ListNames(t[k]) :: n
  }

  const DEEPEST := 16

  function RequiredNames(node: Json, depth: nat): Names
    decreases node, 2
  {
    match node
    case Obj(m) =>
      if depth > DEEPEST || (depth > 0 && "$ref" in m) || "dependentSchemas" in m then CannotTell
      else if "dependencies" in m && !(m["dependencies"].Obj? && forall k :: k in m["dependencies"].m ==> m["dependencies"].m[k].Arr?) then CannotTell
      else if (exists k :: k in {"allOf", "anyOf", "oneOf"} && k in m && !m[k].Arr?) then CannotTell
      else
        Union(Names(OwnNames(m)), AppliedNames(m, depth))
    case _ => Names({})
  }

  /** Through the object's own keywords. */
  function OwnNames(m: map<string, Json>): set<string> {
    RequiredOf(m) + DependentNames(Table(m, "dependentRequired")) + DependentNames(Table(m, "dependencies"))
  }

  /** Through its in-place applicators. */
  function AppliedNames(m: map<string, Json>, depth: nat): Names
    decreases Obj(m), 1
  {
    Union(Union(BranchNames(m, "allOf", depth), Union(BranchNames(m, "anyOf", depth), BranchNames(m, "oneOf", depth))),
          Union(OneNames(m, "if", depth), Union(OneNames(m, "then", depth), OneNames(m, "else", depth))))
  }

  function BranchNames(m: map<string, Json>, k: string, depth: nat): Names
    decreases Obj(m), 0
  {
    if List(m, k).None? then Names({}) else AllNames(m[k].a, depth + 1)
  }

  function AllNames(l: seq<Json>, depth: nat): Names
    decreases l, 0
  {
    if l == [] then Names({}) else Union(AllNames(l[..|l| - 1], depth), RequiredNames(l[|l| - 1], depth))
  }

  function OneNames(m: map<string, Json>, k: string, depth: nat): Names
    decreases Obj(m), 0
  {
    if k in m then RequiredNames(m[k], depth + 1) else Names({})
  }

  /** The property names in-place applicators contribute (lib/js-compiler.js:5734-5763). */
  function Contributed(sub: Json, depth: nat): Names
    decreases sub, 1
  {
    if depth > 24 then CannotTell
    else
      match sub
      case Bool(_) => Names({})
      case Obj(m) =>
        if exists k :: k in {"patternProperties", "additionalProperties", "unevaluatedProperties", "$ref", "$dynamicRef", "$recursiveRef", "dependentSchemas", "dependencies"} && k in m then CannotTell
        else if "properties" in m && !m["properties"].Obj? then CannotTell
        else if (exists k :: k in {"allOf", "anyOf", "oneOf"} && k in m && !m[k].Arr?) then CannotTell
        else
          Union(Names(PropsOf(m).Keys),
            Union(Union(BranchContributed(m, "allOf", depth), Union(BranchContributed(m, "anyOf", depth), BranchContributed(m, "oneOf", depth))),
                  Union(OneContributed(m, "if", depth), Union(OneContributed(m, "then", depth), OneContributed(m, "else", depth)))))
      case _ => CannotTell
  }

  function BranchContributed(m: map<string, Json>, k: string, depth: nat): Names
    decreases Obj(m), 0
  {
    if List(m, k).None? then Names({}) else AllContributed(m[k].a, depth + 1)
  }

  function AllContributed(l: seq<Json>, depth: nat): Names
    decreases l, 0
  {
    if l == [] then Names({}) else Union(AllContributed(l[..|l| - 1], depth), Contributed(l[|l| - 1], depth))
  }

  function OneContributed(m: map<string, Json>, k: string, depth: nat): Names
    decreases Obj(m), 0
  {
    if k in m then Contributed(m[k], depth + 1) else Names({})
  }

  // ---------------------------------------------------------------- the emitter

  predicate HasApplicator(m: map<string, Json>) {
    Set(m, "allOf") || Set(m, "anyOf") || Set(m, "oneOf") || Set(m, "if") || Set(m, "then") || Set(m, "else")
  }

  predicate HasOtherRef(m: map<string, Json>) {
    "$dynamicRef" in m || "$recursiveRef" in m || "dependentSchemas" in m || "dependencies" in m
  }

  /** The node names every property its copy keeps, or keeps every key. */
  predicate Closed(g: Given, m: map<string, Json>) {
    && !Set(m, "$ref") && !Set(m, "patternProperties") && !("additionalProperties" in m && m["additionalProperties"] == Bool(true))
    && (IsRecord(m) ==> "unevaluatedProperties" !in m && !HasApplicator(m) && !HasOtherRef(m))
    && ("unevaluatedProperties" in m ==> m["unevaluatedProperties"] == Bool(false))
    && HasTypeName(m, "object") && Recordable(m) && (g.keys(PropsOf(m)) != [] || IsRecord(m))
    && (HasApplicator(m) || "unevaluatedProperties" in m ==> !HasOtherRef(m) && AppliedNamesDeclared(m))
    && (!IsRecord(m) ==> RequiredNames(Obj(m), 0).Names? && RequiredNames(Obj(m), 0).all <= PropsOf(m).Keys)
  }

  predicate AppliedNamesDeclared(m: map<string, Json>) {
    && (forall k :: k in {"allOf", "anyOf", "oneOf"} && k in m ==> m[k].Arr? && (forall i :: 0 <= i < |m[k].a| ==> Declares(m, Contributed(m[k].a[i], 0))))
    && (forall k :: k in {"if", "then", "else"} && k in m ==> Declares(m, Contributed(m[k], 0)))
  }

  predicate Declares(m: map<string, Json>, n: Names) { n.Names? && n.all <= PropsOf(m).Keys }

  datatype Emitted = Declined | Emitted(e: Expr, left: int)

  datatype Fields = NoFields | Fields(fixed: seq<Field>, conds: seq<Cond>, left: int)

  const MAX_DEPTH := 12
  const SOURCE_BUDGET := 256 * 1024

  function EmitClone(g: Given, p: Probes, node: Json, a: Access, depth: nat, left: int): Emitted
    decreases node, 2
  {
    if !node.Obj? || depth > MAX_DEPTH || !Closed(g, node.m) then Declined
    else
      var m := node.m;
      match EmitFields(g, p, m, g.keys(PropsOf(m)), a, depth, left)
      case NoFields => Declined
      case Fields(fixed, conds, l1) =>
        if !IsRecord(m) then
          if Spend(p, conds, l1) < 0 then Declined else Emitted(Build(a, fixed, conds, NoRecord), Spend(p, conds, l1))
        else
          match EmitValue(g, p, m["additionalProperties"], AVar(Val(depth)), depth, l1)
          case Declined => Declined
          case Emitted(e, l2) =>
            if Spend(p, conds, l2) < 0 then Declined
            else Emitted(Build(a, fixed, conds, Record(Val(depth), PropsOf(m).Keys, e)), Spend(p, conds, l2))
  }

  /** The source budget after every default, or a negative number once it has run out. */
  function Spend(p: Probes, conds: seq<Cond>, left: int): int {
    if conds == [] then left
    else
      var before := Spend(p, conds[..|conds| - 1], left);
      var c := conds[|conds| - 1];
      if c.dflt.None? then before else if before - p.sourceLength(c.dflt.value) < 0 then -1 else before - p.sourceLength(c.dflt.value)
  }

  function DefaultOf(prop: Json): Option<Json> {
    if prop.Obj? && "default" in prop.m then Some(prop.m["default"]) else None
  }

  function EmitFields(g: Given, p: Probes, m: map<string, Json>, ks: seq<string>, a: Access, depth: nat, left: int): Fields
    decreases Obj(m), 0, |ks|
  {
    if ks == [] then Fields([], [], left)
    else
      var key := ks[|ks| - 1];
      match EmitFields(g, p, m, ks[..|ks| - 1], a, depth, left)
      case NoFields => NoFields
      case Fields(fixed, conds, l1) =>
        if key !in PropsOf(m) || !PropsOf(m)[key].Obj? then NoFields
        else
          var prop := PropsOf(m)[key];
          if Set(prop.m, "$ref") then NoFields
          else if key in RequiredOf(m) && DefaultOf(prop).Some? then NoFields
          else if DefaultOf(prop).Some? && !p.holds(prop, DefaultOf(prop).value) then NoFields
          else
            match EmitValue(g, p, prop, AMember(a, key), depth, l1)
            case Declined => NoFields
            case Emitted(e, l2) =>
              if key in RequiredOf(m) then Fields(fixed + [Field(key, e)], conds, l2)
              else Fields(fixed, conds + [Cond(key, e, DefaultOf(prop))], l2)
  }

  /** Each position has a schema of its own. */
  predicate IsTuple(m: map<string, Json>) { "prefixItems" in m || List(m, "items").Some? }

  function TupleOf(m: map<string, Json>): Json
    requires IsTuple(m)
  {
    if List(m, "prefixItems").Some? then m["prefixItems"] else if "items" in m then m["items"] else Null
  }

  function RestOf(m: map<string, Json>): Option<Json> {
    var k := if List(m, "items").Some? then "additionalItems" else "items";
    if k in m then Some(m[k]) else None
  }

  predicate FlatTuple(m: map<string, Json>)
    requires IsTuple(m)
  {
    && HasTypeName(m, "array") && TupleOf(m).Arr? && (forall i :: 0 <= i < |TupleOf(m).a| ==> PrimitiveOnly(TupleOf(m).a[i]))
    && RestOf(m).Some? && (RestOf(m).value == Bool(false) || PrimitiveOnly(RestOf(m).value))
  }

  function EmitValue(g: Given, p: Probes, prop: Json, read: Access, depth: nat, left: int): Emitted
    decreases prop, 3
  {
    if !prop.Obj? || Set(prop.m, "$ref") then Declined
    else
      var m := prop.m;
      if IsTuple(m) then (if FlatTuple(m) then Emitted(Slice(read), left) else Declined)
      else if PrimitiveOnly(prop) || "instanceof" in m then Emitted(Read(read), left)
      else if HasTypeName(m, "object") && Recordable(m) then EmitClone(g, p, prop, read, depth + 1, left)
      else if HasTypeName(m, "array") && "items" in m && m["items"].Obj? then
        var it := m["items"];
        if PrimitiveOnly(it) then Emitted(Slice(read), left)
        else if HasTypeName(it.m, "object") && Recordable(it.m) then
          match EmitClone(g, p, it, AVar(El(depth)), depth + 1, left)
          case Declined => Declined
          case Emitted(e, l) => Emitted(MapEach(read, El(depth), e), l)
        else Declined
      else Declined
  }

  // ---------------------------------------------------------------- what a copy is

  /** The copy of a value under its schema, with no program in sight. */
  ghost function CopyValue(s: Json, v: Json): Json
    decreases s, 1
  {
    if !s.Obj? || IsTuple(s.m) || PrimitiveOnly(s) || "instanceof" in s.m then v
    else if HasTypeName(s.m, "object") && Recordable(s.m) then (if v.Obj? then Obj(CopyObject(s.m, v.m)) else v)
    else if HasTypeName(s.m, "array") && "items" in s.m && v.Arr? then Arr(seq(|v.a|, i requires 0 <= i < |v.a| => CopyItem(s.m["items"], v.a[i])))
    else v
  }

  /** An element is not asked for `prefixItems` or `instanceof`. */
  ghost function CopyItem(it: Json, v: Json): Json
    decreases it, 1
  {
    if it.Obj? && !PrimitiveOnly(it) && HasTypeName(it.m, "object") && Recordable(it.m) && v.Obj? then Obj(CopyObject(it.m, v.m)) else v
  }

  predicate KeepsKey(m: map<string, Json>, v: map<string, Json>, k: string) {
    k in v && (k in PropsOf(m) || IsRecord(m))
  }

  /** A declared property the value lacks and whose default is filled in. */
  predicate Fills(m: map<string, Json>, v: map<string, Json>, k: string) {
    k !in v && k in PropsOf(m) && DefaultOf(PropsOf(m)[k]).Some?
  }

  function SchemaAt(m: map<string, Json>, k: string): (s: Json)
    requires k in PropsOf(m) || IsRecord(m)
    ensures s < Obj(m)
  {
    if k in PropsOf(m) then PropsOf(m)[k] else m["additionalProperties"]
  }

  ghost function CopyObject(m: map<string, Json>, v: map<string, Json>): map<string, Json>
    decreases Obj(m), 0
  {
    map k | k in v.Keys + PropsOf(m).Keys && (KeepsKey(m, v, k) || Fills(m, v, k)) ::
      if k in v then CopyValue(SchemaAt(m, k), v[k]) else DefaultOf(PropsOf(m)[k]).value
  }

  /** The value has the form the program reads: objects with their required members, arrays, all the way down. */
  ghost predicate Shaped(s: Json, v: Json)
    decreases s, 1
  {
    if !s.Obj? || IsTuple(s.m) then (s.Obj? && HasTypeName(s.m, "array") ==> v.Arr?)
    else if PrimitiveOnly(s) || "instanceof" in s.m then true
    else if HasTypeName(s.m, "object") && Recordable(s.m) then ShapedObject(s.m, v)
    else if HasTypeName(s.m, "array") && "items" in s.m then v.Arr? && forall i :: 0 <= i < |v.a| ==> ShapedItem(s.m["items"], v.a[i])
    else true
  }

  ghost predicate ShapedItem(it: Json, v: Json)
    decreases it, 1
  {
    it.Obj? && !PrimitiveOnly(it) && HasTypeName(it.m, "object") && Recordable(it.m) ==> ShapedObject(it.m, v)
  }

  ghost predicate ShapedObject(m: map<string, Json>, v: Json)
    decreases Obj(m), 0
  {
    && v.Obj? && (forall k :: k in PropsOf(m) && k in RequiredOf(m) ==> k in v.m)
    && forall k :: KeepsKey(m, v.m, k) ==> Shaped(SchemaAt(m, k), v.m[k])
  }

  // ---------------------------------------------------------------- the program computes the copy

  lemma {:induction false} CloneRuns(g: Given, p: Probes, node: Json, a: Access, depth: nat, left: int, env: Env, v: Json)
    requires Usable(g) && EmitClone(g, p, node, a, depth, left).Emitted?
    requires Look(a, env) == Some(v) && ShapedObject(node.m, v)
    ensures Eval(EmitClone(g, p, node, a, depth, left).e, env) == Some(Obj(CopyObject(node.m, v.m)))
    decreases node, 2
  {
    hide Closed, Eval, EvalFields, EvalConds, CopyObject, ShapedObject, EmitFields, EmitValue, Copied, CopyValue;
    var m := node.m;
    var ks := g.keys(PropsOf(m));
    assert Lists(ks, PropsOf(m)) && v.Obj? by { IsObject(m, v); }
    FieldsRun(g, p, m, ks, a, depth, left, env, v.m);
    var fs := EmitFields(g, p, m, ks, a, depth, left);
    var one, two := EvalFields(fs.fixed, env).value, EvalConds(fs.conds, v.m, env).value;
    if IsRecord(m) {
      var s := m["additionalProperties"];
      var r := EmitValue(g, p, s, AVar(Val(depth)), depth, fs.left);
      forall k | k in v.m && k !in PropsOf(m).Keys ensures Eval(r.e, env[Val(depth) := v.m[k]]) == Some(CopyValue(s, v.m[k])) {
        ShapedMember(m, v, k);
        ValueRuns(g, p, s, AVar(Val(depth)), depth, fs.left, env[Val(depth) := v.m[k]], v.m[k]);
      }
      BuildsRecord(m, v.m, ks, a, fs.fixed, fs.conds, Val(depth), r.e, env);
    } else {
      BuildsPlain(m, v.m, ks, a, fs.fixed, fs.conds, env);
    }
  }

  lemma IsObject(m: map<string, Json>, v: Json)
    requires ShapedObject(m, v)
    ensures v.Obj?
  {
  }

  lemma ShapedMember(m: map<string, Json>, v: Json, k: string)
    requires ShapedObject(m, v) && KeepsKey(m, v.m, k)
    ensures Shaped(SchemaAt(m, k), v.m[k])
  {
    hide Shaped;
  }

  /** The declared members of a copy. */
  ghost function DeclaredPart(m: map<string, Json>, v: map<string, Json>): map<string, Json> {
    map k | k in PropsOf(m) && (k in v || Fills(m, v, k)) :: DeclaredValue(m, v, k)
  }

  ghost function DeclaredValue(m: map<string, Json>, v: map<string, Json>, k: string): Json
    requires k in PropsOf(m) && (k in v || Fills(m, v, k))
  {
    if k in v then CopyValue(PropsOf(m)[k], v[k]) else DefaultOf(PropsOf(m)[k]).value
  }

  lemma DeclaredTogether(m: map<string, Json>, v: map<string, Json>, ks: seq<string>, one: map<string, Json>, two: map<string, Json>)
    requires Lists(ks, PropsOf(m)) && Copied(m, v, ks, one, true) && Copied(m, v, ks, two, false)
    ensures one + two == DeclaredPart(m, v)
  {
    hide CopyValue, PropsOf, DefaultOf, RequiredOf, Fills;
  }

  lemma CopyParts(m: map<string, Json>, v: map<string, Json>, extra: map<string, Json>)
    requires forall k :: k in extra <==> IsRecord(m) && k in v && k !in PropsOf(m)
    requires forall k :: k in extra ==> extra[k] == CopyValue(m["additionalProperties"], v[k])
    ensures DeclaredPart(m, v) + extra == CopyObject(m, v)
  {
    hide CopyValue, PropsOf, IsRecord, DefaultOf;
  }

  lemma BuildsPlain(m: map<string, Json>, v: map<string, Json>, ks: seq<string>, a: Access, fixed: seq<Field>, conds: seq<Cond>, env: Env)
    requires Lists(ks, PropsOf(m)) && !IsRecord(m) && Look(a, env) == Some(Obj(v))
    requires EvalFields(fixed, env).Some? && EvalConds(conds, v, env).Some?
    requires Copied(m, v, ks, EvalFields(fixed, env).value, true) && Copied(m, v, ks, EvalConds(conds, v, env).value, false)
    ensures Eval(Build(a, fixed, conds, NoRecord), env) == Some(Obj(CopyObject(m, v)))
  {
    hide EvalFields, EvalConds, CopyValue, CopyObject, Copied, IsRecord, Lists, PropsOf, DeclaredPart;
    DeclaredTogether(m, v, ks, EvalFields(fixed, env).value, EvalConds(conds, v, env).value);
    CopyParts(m, v, map[]);
    assert DeclaredPart(m, v) + map[] == DeclaredPart(m, v);
  }

  lemma BuildsRecord(m: map<string, Json>, v: map<string, Json>, ks: seq<string>, a: Access, fixed: seq<Field>, conds: seq<Cond>, x: Var, value: Expr, env: Env)
    requires Lists(ks, PropsOf(m)) && IsRecord(m) && Look(a, env) == Some(Obj(v))
    requires EvalFields(fixed, env).Some? && EvalConds(conds, v, env).Some?
    requires Copied(m, v, ks, EvalFields(fixed, env).value, true) && Copied(m, v, ks, EvalConds(conds, v, env).value, false)
    requires forall k :: k in v && k !in PropsOf(m).Keys ==> Eval(value, env[x := v[k]]) == Some(CopyValue(m["additionalProperties"], v[k]))
    ensures Eval(Build(a, fixed, conds, Record(x, PropsOf(m).Keys, value)), env) == Some(Obj(CopyObject(m, v)))
  {
    hide EvalFields, EvalConds, CopyValue, CopyObject, Copied, IsRecord, Lists, PropsOf, DeclaredPart;
    var extra := map k | k in v && k !in PropsOf(m).Keys :: Eval(value, env[x := v[k]]).value;
    DeclaredTogether(m, v, ks, EvalFields(fixed, env).value, EvalConds(conds, v, env).value);
    CopyParts(m, v, extra);
  }

  /** `Object.keys` lists the keys, each once; the copy is compiled for the one draft every schema is rewritten to. */
  ghost predicate Usable(g: Given) {
    Latest(g) && forall m :: Lists(g.keys(m), m)
  }

  ghost predicate Lists(ks: seq<string>, m: map<string, Json>) {
    && (forall k :: k in ks <==> k in m)
    && forall i, j :: 0 <= i < j < |ks| ==> ks[i] != ks[j]
  }

  /** The declared keys among `ks` that end up in the copy, with their values. */
  ghost predicate Copied(m: map<string, Json>, v: map<string, Json>, ks: seq<string>, out: map<string, Json>, required: bool) {
    && (forall k :: k in out <==> k in ks && k in PropsOf(m) && (k in RequiredOf(m) <==> required) && (k in v || Fills(m, v, k)))
    && forall k :: k in out ==> out[k] == if k in v then CopyValue(PropsOf(m)[k], v[k]) else DefaultOf(PropsOf(m)[k]).value
  }

  lemma CopiedNext(m: map<string, Json>, v: map<string, Json>, init: seq<string>, key: string, out: map<string, Json>, required: bool)
    requires Copied(m, v, init, out, required) && key in PropsOf(m)
    ensures (key in RequiredOf(m) <==> !required) ==> Copied(m, v, init + [key], out, required)
    ensures key !in v && !Fills(m, v, key) ==> Copied(m, v, init + [key], out, required)
    ensures (key in RequiredOf(m) <==> required) && (key in v || Fills(m, v, key)) ==>
      Copied(m, v, init + [key], out[key := DeclaredValue(m, v, key)], required)
  {
    hide CopyValue, PropsOf, DefaultOf, RequiredOf, Fills;
  }

  lemma {:induction false} FieldsRun(g: Given, p: Probes, m: map<string, Json>, ks: seq<string>, a: Access, depth: nat, left: int, env: Env, v: map<string, Json>)
    requires Usable(g) && EmitFields(g, p, m, ks, a, depth, left).Fields?
    requires Look(a, env) == Some(Obj(v)) && ShapedObject(m, Obj(v))
    ensures var fs := EmitFields(g, p, m, ks, a, depth, left);
            && EvalFields(fs.fixed, env).Some? && EvalConds(fs.conds, v, env).Some?
            && Copied(m, v, ks, EvalFields(fs.fixed, env).value, true) && Copied(m, v, ks, EvalConds(fs.conds, v, env).value, false)
    decreases Obj(m), 0, |ks|
  {
    hide Copied, CopyValue, EmitValue, Eval, EvalFields, EvalConds, ShapedObject, Shaped, Usable, DeclaredValue;
    if ks == [] {
      NothingEvaluated(v, env);
      NoneCopied(m, v);
    } else {
      var key, init := ks[|ks| - 1], ks[..|ks| - 1];
      assert ks == init + [key];
      FieldsRun(g, p, m, init, a, depth, left, env, v);
      var before := EmitFields(g, p, m, init, a, depth, left);
      var prop := PropsOf(m)[key];
      var r := EmitValue(g, p, prop, AMember(a, key), depth, before.left);
      if key in v {
        ShapedMember(m, Obj(v), key);
        ValueRuns(g, p, prop, AMember(a, key), depth, before.left, env, v[key]);
      }
      var fs := EmitFields(g, p, m, ks, a, depth, left);
      CopiedNext(m, v, init, key, EvalFields(before.fixed, env).value, true);
      CopiedNext(m, v, init, key, EvalConds(before.conds, v, env).value, false);
      if key in v || Fills(m, v, key) { DeclaredIs(m, v, key); }
      if key in RequiredOf(m) {
        assert key in v by { HasRequired(m, Obj(v), key); }
        FieldPushed(before.fixed, Field(key, r.e), env);
      } else {
        CondPushed(before.conds, Cond(key, r.e, DefaultOf(prop)), v, env);
      }
    }
  }

  lemma NothingEvaluated(v: map<string, Json>, env: Env)
    ensures EvalFields([], env) == Some(map[]) && EvalConds([], v, env) == Some(map[])
  {
  }

  lemma DeclaredIs(m: map<string, Json>, v: map<string, Json>, k: string)
    requires k in PropsOf(m) && (k in v || Fills(m, v, k))
    ensures DeclaredValue(m, v, k) == if k in v then CopyValue(PropsOf(m)[k], v[k]) else DefaultOf(PropsOf(m)[k]).value
  {
    hide CopyValue;
  }

  lemma FieldPushed(fs: seq<Field>, f: Field, env: Env)
    requires EvalFields(fs, env).Some? && Eval(f.value, env).Some?
    ensures EvalFields(fs + [f], env) == Some(EvalFields(fs, env).value[f.key := Eval(f.value, env).value])
  {
    hide Eval;
    assert (fs + [f])[..|fs|] == fs;
  }

  lemma CondPushed(cs: seq<Cond>, c: Cond, v: map<string, Json>, env: Env)
    requires EvalConds(cs, v, env).Some? && (c.key in v ==> Eval(c.value, env).Some?)
    ensures EvalConds(cs + [c], v, env) == Some(
      var before := EvalConds(cs, v, env).value;
      if c.key in v then before[c.key := Eval(c.value, env).value] else if c.dflt.Some? then before[c.key := c.dflt.value] else before)
  {
    hide Eval;
    assert (cs + [c])[..|cs|] == cs;
  }

  lemma NoneCopied(m: map<string, Json>, v: map<string, Json>)
    ensures Copied(m, v, [], map[], true) && Copied(m, v, [], map[], false)
  {
  }

  lemma HasRequired(m: map<string, Json>, v: Json, k: string)
    requires ShapedObject(m, v) && k in PropsOf(m) && k in RequiredOf(m)
    ensures k in v.m
  {
  }

  lemma {:induction false} ValueRuns(g: Given, p: Probes, prop: Json, read: Access, depth: nat, left: int, env: Env, v: Json)
    requires Usable(g) && EmitValue(g, p, prop, read, depth, left).Emitted? && Look(read, env) == Some(v) && Shaped(prop, v)
    ensures Eval(EmitValue(g, p, prop, read, depth, left).e, env) == Some(CopyValue(prop, v))
    decreases prop, 3
  {
    hide EmitClone, CopyObject, ShapedObject, PrimitiveOnly, FlatTuple, Closed;
    var m := prop.m;
    if IsTuple(m) {
      assert HasTypeName(m, "array") by { TupleIsArray(m); }
    } else if PrimitiveOnly(prop) || "instanceof" in m {
    } else if HasTypeName(m, "object") && Recordable(m) {
      assert v.Obj? by { IsObject(m, v); }
      CloneRuns(g, p, prop, read, depth + 1, left, env, v);
    } else {
      var it := m["items"];
      if PrimitiveOnly(it) {
        assert v.a == seq(|v.a|, i requires 0 <= i < |v.a| => CopyItem(it, v.a[i]));
      } else {
        var inner := EmitClone(g, p, it, AVar(El(depth)), depth + 1, left);
        forall i | 0 <= i < |v.a| ensures Eval(inner.e, env[El(depth) := v.a[i]]) == Some(CopyItem(it, v.a[i])) {
          assert ShapedItem(it, v.a[i]);
          assert v.a[i].Obj? by { IsObject(it.m, v.a[i]); }
          CloneRuns(g, p, it, AVar(El(depth)), depth + 1, left, env[El(depth) := v.a[i]], v.a[i]);
        }
        MapsEach(read, El(depth), inner.e, env, v.a, it);
      }
    }
  }

  lemma TupleIsArray(m: map<string, Json>)
    requires IsTuple(m) && FlatTuple(m)
    ensures HasTypeName(m, "array")
  {
  }

  lemma MapsEach(read: Access, x: Var, inner: Expr, env: Env, a: seq<Json>, it: Json)
    requires Look(read, env) == Some(Arr(a))
    requires forall i :: 0 <= i < |a| ==> Eval(inner, env[x := a[i]]) == Some(CopyItem(it, a[i]))
    ensures Eval(MapEach(read, x, inner), env) == Some(Arr(seq(|a|, i requires 0 <= i < |a| => CopyItem(it, a[i]))))
  {
    hide CopyItem;
    assert seq(|a|, i requires 0 <= i < |a| => Eval(inner, env[x := a[i]]).value) == seq(|a|, i requires 0 <= i < |a| => CopyItem(it, a[i]));
  }

  // ---------------------------------------------------------------- what an accepted document is

  lemma AcceptedObject(g: Given, root: Json, m: map<string, Json>, v: Json, f: nat)
    requires Latest(g)
    requires Decided(g, root, Obj(m), v, f, true) && HasTypeName(m, "object")
    ensures v.Obj? && forall k :: k in RequiredOf(m) ==> k in v.m
  {
    hide PartAt, RefOn, EveryOn, OneOnly, IfOn, On;
    assert TypeOk(m["type"], v) && (ListOf(g, m, "required").Some? ==> NamesPresent(m["required"].a, v));
  }

  lemma AcceptedPart(g: Given, root: Json, m: map<string, Json>, v: Json, f: nat, w: Where)
    requires Decided(g, root, Obj(m), v, f, true) && MustAll(w) && PartAt(g, m, v, w).Part?
    ensures Decided(g, root, PartAt(g, m, v, w).s, PartAt(g, m, v, w).v, f, true)
  {
    hide PartAt, RefOn, OneOnly, IfOn, LocalOk;
    assert EveryOn(g, root, m, v, f);
    assert On(g, root, m, v, w, f, true);
  }

  /** An accepted value has the form the program reads. */
  lemma {:induction false} AcceptedShaped(g: Given, p: Probes, root: Json, prop: Json, read: Access, depth: nat, left: int, v: Json, f: nat)
    requires EmitValue(g, p, prop, read, depth, left).Emitted? && Usable(g) && Decided(g, root, prop, v, f, true)
    ensures Shaped(prop, v)
    decreases prop, 3
  {
    hide EmitClone, Decided, PrimitiveOnly, FlatTuple, ShapedObject, PartAt, Closed;
    var m := prop.m;
    if IsTuple(m) {
      if HasTypeName(m, "array") { AcceptedArray(g, root, m, v, f); }
    } else if PrimitiveOnly(prop) || "instanceof" in m {
    } else if HasTypeName(m, "object") && Recordable(m) {
      AcceptedShapedObject(g, p, root, prop, read, depth + 1, left, v, f);
    } else {
      AcceptedArray(g, root, m, v, f);
      var it := m["items"];
      if !PrimitiveOnly(it) {
        forall i | 0 <= i < |v.a| ensures ShapedItem(it, v.a[i]) {
          ItemPart(g, m, v, i);
          AcceptedPart(g, root, m, v, f, AtItem(i));
          AcceptedShapedObject(g, p, root, it, AVar(El(depth)), depth + 1, left, v.a[i], f);
        }
      }
    }
  }

  lemma ItemPart(g: Given, m: map<string, Json>, v: Json, i: nat)
    requires Latest(g)
    requires !IsTuple(m) && "items" in m && v.Arr? && i < |v.a|
    ensures PartAt(g, m, v, AtItem(i)) == Part(m["items"], v.a[i])
  {
  }

  lemma AcceptedArray(g: Given, root: Json, m: map<string, Json>, v: Json, f: nat)
    requires Latest(g)
    requires Decided(g, root, Obj(m), v, f, true) && HasTypeName(m, "array")
    ensures v.Arr?
  {
    hide PartAt, RefOn, EveryOn, OneOnly, IfOn, On;
    assert TypeOk(m["type"], v);
  }

  lemma {:induction false} AcceptedShapedObject(g: Given, p: Probes, root: Json, node: Json, a: Access, depth: nat, left: int, v: Json, f: nat)
    requires EmitClone(g, p, node, a, depth, left).Emitted? && Usable(g) && Decided(g, root, node, v, f, true)
    ensures ShapedObject(node.m, v)
    decreases node, 2
  {
    hide Decided, PartAt, EmitValue, Shaped, EmitFields, RequiredNames;
    var m := node.m;
    var ks := g.keys(PropsOf(m));
    AcceptedObject(g, root, m, v, f);
    assert Lists(ks, PropsOf(m));
    var fs := EmitFields(g, p, m, ks, a, depth, left);
    forall k | KeepsKey(m, v.m, k) ensures Shaped(SchemaAt(m, k), v.m[k]) {
      if k in PropsOf(m) {
        var read, l := FieldTaken(g, p, m, ks, a, depth, left, k);
        PropertyPart(g, m, v, k);
        AcceptedPart(g, root, m, v, f, AtProperty(k));
        AcceptedShaped(g, p, root, PropsOf(m)[k], read, depth, l, v.m[k], f);
      } else {
        MorePart(g, m, v, k);
        AcceptedPart(g, root, m, v, f, AtMore(k));
        AcceptedShaped(g, p, root, m["additionalProperties"], AVar(Val(depth)), depth, fs.left, v.m[k], f);
      }
    }
  }

  lemma PropertyPart(g: Given, m: map<string, Json>, v: Json, k: string)
    requires Latest(g)
    requires v.Obj? && k in v.m && k in PropsOf(m)
    ensures PartAt(g, m, v, AtProperty(k)) == Part(PropsOf(m)[k], v.m[k])
  {
  }

  /** With no pattern in force, the record schema speaks for every key not declared. */
  lemma MorePart(g: Given, m: map<string, Json>, v: Json, k: string)
    requires Latest(g)
    requires v.Obj? && k in v.m && k !in PropsOf(m) && IsRecord(m) && !Set(m, "patternProperties")
    ensures PartAt(g, m, v, AtMore(k)) == Part(m["additionalProperties"], v.m[k])
  {
  }

  /** Each listed key had an expression emitted for its value. */
  lemma {:induction false} FieldTaken(g: Given, p: Probes, m: map<string, Json>, ks: seq<string>, a: Access, depth: nat, left: int, k: string) returns (read: Access, l: int)
    requires EmitFields(g, p, m, ks, a, depth, left).Fields? && k in ks && k in PropsOf(m)
    ensures EmitValue(g, p, PropsOf(m)[k], read, depth, l).Emitted?
    decreases |ks|
  {
    hide EmitValue;
    var key, init := ks[|ks| - 1], ks[..|ks| - 1];
    if k in init {
      read, l := FieldTaken(g, p, m, init, a, depth, left, k);
    } else {
      read, l := AMember(a, key), EmitFields(g, p, m, init, a, depth, left).left;
    }
  }
}
