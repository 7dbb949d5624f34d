/** Where the split of a document with cyclic references loses a rule: inputs on which it accepts what the schema refuses. */
module SplitWitness {
  import opened Json
  import opened SplitModel
  import opened TypeAlgebra
  import opened Split
  import opened SplitRefs
  import opened SplitParts
  import opened SplitWalk

  function RefNode(t: Target): Schema { EMPTY_NODE.(ref := Some(Whole(t))) }

  function RestNode(t: Target): Schema { EMPTY_NODE.(ref := Some(RestOf(t))) }

  /** Any array has its elements under the reference; `other` is a rule no type carries. */
  function EachNode(t: Target, other: set<nat>): Schema {
    EMPTY_NODE.(arr := NO_ARRAY.(items := Sub(RefNode(t))), other := other)
  }

  function EachType(t: Target): Type {
    Type([StrAlt([])], [NumAlt([])], [BoolAlt], [NullAlt], [AnyRecord], [ArrAlt(Each(AliasType(t)), [])], [])
  }

  function EachRest(t: Target, other: set<nat>, g: Given): OptSchema {
    AsResidual(EMPTY_NODE.(arr := NO_ARRAY.(items := if t in g.kept then Sub(RestNode(t)) else NoSchema), other := other))
  }

  lemma RefConverts(t: Target, g: Given)
    ensures Conv(RefNode(t), g) == Split(AliasType(t), if t in g.kept then Sub(RestNode(t)) else NoSchema)
  {
    assert RestNode(t) != EMPTY_NODE;
    assert EMPTY_NODE.(ref := None) == EMPTY_NODE;
  }

  lemma EachOwn(t: Target, other: set<nat>, g: Given)
    ensures NodeOwn(EachNode(t, other), g) == (EachType(t), EMPTY_NODE.(arr := NO_ARRAY.(items := if t in g.kept then Sub(RestNode(t)) else NoSchema), other := other))
  {
    hide Conv;
    RefConverts(t, g);
    var s := EachNode(t, other);
    assert RuledKinds(s, g) == [TArray];
    assert AliasType(t) != Universal() && LengthTags(s.arr) == [];
    assert ArrayAlt(s.arr, g) == ArrAlt(Each(AliasType(t)), []);
    assert UntypedAlts(s, g) == EachType(t);
    assert TArray in [TArray] && TString !in [TArray] && TNumber !in [TArray] && TInteger !in [TArray] && TObject !in [TArray];
    assert HasRule(s, g);
    assert ArrayResidual(s.arr, g) == NO_ARRAY.(items := if t in g.kept then Sub(RestNode(t)) else NoSchema);
    assert KindResidual([TArray], s, g) == EMPTY_NODE.(arr := ArrayResidual(s.arr, g), other := other);
  }

  lemma EachConverts(t: Target, other: set<nat>, g: Given)
    ensures Conv(EachNode(t, other), g) == Split(EachType(t), EachRest(t, other, g))
  {
    hide NodeOwn;
    EachOwn(t, other, g);
    assert EachNode(t, other) != EMPTY_NODE;
  }

  // ---------------------------------------------------------------- two definitions that refer to each other

  const A := Def("#/$defs/a")
  const B := Def("#/$defs/b")

  /** `a` has elements under `b` and a rule no type carries; `b` has elements under `a`. */
  function Mutual(): Document { map[Root := RefNode(A), A := EachNode(B, {0}), B := EachNode(A, {})] }

  /** While `b` is written `a` is taken to have no residual, and it is not written again when `a` turns out to have one. */
  function MutualTable(): Table {
    map[Root := Entry(AliasType(A), Sub(RestNode(A))), A := Entry(EachType(B), Sub(EMPTY_NODE.(other := {0}))), B := Entry(EachType(A), NoSchema)]
  }

  /** A node that goes into one schema only. */
  lemma OneThrough(d: Document, g: Given, st: State, s: Schema, x: Schema)
    requires s.Node? && Own(s) && s != EMPTY_NODE && OwnParts(s, g) == [x] && s.allOf.NoList? && s.anyOf.NoList?
    ensures Through(d, g, st, s) == Through(d, g, st, x)
  {
    hide OwnParts, Conv;
    PartsSmaller(s, g);
    var st1 := Through(d, g, st, x);
    assert [x][..0] == [] && ThroughEach(d, g, st, [], s) == st;
    assert ThroughEach(d, g, st, [x], s) == st1;
    assert ThroughEach(d, g, st1, [], s) == st1 && ThroughAny(d, g, st1, [], 0, s) == st1;
    assert ListOf(s.allOf) == [] && ListOf(s.anyOf) == [];
    ThroughNode(d, g, st, s);
  }

  lemma ThroughNode(d: Document, g: Given, st: State, s: Schema)
    requires s.Node? && Own(s) && s != EMPTY_NODE
    requires forall i :: 0 <= i < |OwnParts(s, g)| ==> OwnParts(s, g)[i] < s
    requires forall i :: 0 <= i < |ListOf(s.allOf)| ==> ListOf(s.allOf)[i] < s
    requires forall i :: 0 <= i < |ListOf(s.anyOf)| ==> ListOf(s.anyOf)[i] < s
    ensures Through(d, g, st, s) == ThroughAny(d, g, ThroughEach(d, g, ThroughEach(d, g, st, OwnParts(s, g), s), ListOf(s.allOf), s), ListOf(s.anyOf), 0, s)
  {
    hide OwnParts, ThroughAny, ThroughEach;
  }

  lemma RefThrough(d: Document, g: Given, st: State, t: Target)
    ensures Through(d, g, st, RefNode(t)) == Referred(d, g, st, t)
  {
    hide Referred;
    assert RefNode(t) != EMPTY_NODE;
  }

  lemma EachThrough(d: Document, g: Given, st: State, t: Target, other: set<nat>)
    ensures Through(d, g, st, EachNode(t, other)) == Referred(d, g, st, t)
  {
    hide Referred, Through;
    var s := EachNode(t, other);
    assert OwnParts(s, g) == [RefNode(t)] && s != EMPTY_NODE;
    OneThrough(d, g, st, s, RefNode(t));
    RefThrough(d, g, st, t);
  }

  lemma MutualB(g: Given)
    ensures var st := State({Root, A}, {}, map[], false, false);
            Referred(Mutual(), g, st, B) == State({Root, A, B}, {}, map[B := Entry(EachType(A), NoSchema)], false, false)
  {
    hide Through, Conv;
    var d, st := Mutual(), State({Root, A}, {}, map[], false, false);
    var begun := st.(named := st.named + {B});
    assert begun.named == {Root, A, B};
    EachThrough(d, g, begun, A, {});
    EachConverts(A, {}, With(g, {}));
  }

  lemma MutualA(g: Given)
    ensures Referred(Mutual(), g, START, A)
         == State({Root, A, B}, {A}, map[A := MutualTable()[A], B := MutualTable()[B]], false, false)
  {
    hide Through, Conv;
    var d := Mutual();
    var begun := START.(named := START.named + {A});
    assert begun.named == {Root, A} && begun == State({Root, A}, {}, map[], false, false);
    EachThrough(d, g, begun, B, {0});
    MutualB(g);
    var st1 := Referred(d, g, begun, B);
    EachConverts(B, {0}, With(g, {}));
    var more := st1.(kept := {A});
    assert st1.kept + {A} == {A};
    EachThrough(d, g, more, B, {0});
    EachConverts(B, {0}, With(g, {A}));
    assert Referred(d, g, more, B) == more;
    assert EachRest(B, {0}, With(g, {A})) == Sub(EMPTY_NODE.(other := {0}));
    assert Repeated(d, g, st1, A, Conv(d[A], With(g, {}))) == State({Root, A, B}, {A}, map[A := MutualTable()[A], B := MutualTable()[B]], false, false);
  }

  lemma MutualSplit(g: Given)
    ensures SplitOf(Mutual(), g) == Some(MutualTable())
  {
    hide Conv, Referred;
    var d := Mutual();
    RefThrough(d, g, START, A);
    MutualA(g);
    RefConverts(A, With(g, {A}));
    var tab := Referred(d, g, START, A).table[Root := Entry(AliasType(A), Sub(RestNode(A)))];
    assert tab == MutualTable();
  }

  lemma RefAccepts(t: Target, v: Json, w: World)
    ensures Accepts(RefNode(t), v, w) <==> w.refOk(Whole(t), v)
    ensures Accepts(RestNode(t), v, w) <==> w.refOk(RestOf(t), v)
  {
    RefMeans(EMPTY_NODE, Whole(t), v, w);
    RefMeans(EMPTY_NODE, RestOf(t), v, w);
    assert EMPTY_NODE.(ref := None) == EMPTY_NODE;
    EmptyAccepts(v, w);
  }

  lemma EachAccepts(t: Target, other: set<nat>, v: Json, w: World)
    ensures Accepts(EachNode(t, other), v, w) <==>
            (forall k :: k in other ==> w.otherOk(k, v)) && (v.Arr? ==> forall i :: 0 <= i < |v.a| ==> w.refOk(Whole(t), v.a[i]))
    ensures Accepts(EMPTY_NODE.(other := other), v, w) <==> forall k :: k in other ==> w.otherOk(k, v)
  {
    var s := EachNode(t, other);
    if v.Arr? {
      forall i | 0 <= i < |v.a| ensures Accepts(RefNode(t), v.a[i], w) <==> w.refOk(Whole(t), v.a[i]) { RefAccepts(t, v.a[i], w); }
      hide Accepts;
      assert ArrayOk(s.arr, v.a, w) <==> forall i :: 0 <= i < |v.a| ==> w.refOk(Whole(t), v.a[i]);
    }
    NodeMeans(s, v, w);
    NodeMeans(EMPTY_NODE.(other := other), v, w);
    EmptyLists(v, w);
  }

  lemma EachInhabits(t: Target, v: Json, w: World)
    ensures Inhabits(v, EachType(t), w) <==> (v.Arr? ==> forall i :: 0 <= i < |v.a| ==> w.aliasOk(t, v.a[i]))
  {
    var alts := At(EachType(t), KindOf(v));
    assert alts[0] == if v.Arr? then ArrAlt(Each(AliasType(t)), []) else UniversalAlt(KindOf(v));
    if v.Arr? {
      forall i | 0 <= i < |v.a| ensures Inhabits(v.a[i], AliasType(t), w) <==> w.aliasOk(t, v.a[i]) { AliasMeans(t, v.a[i], w); }
      hide Inhabits;
      assert InAlt(v, alts[0], w) <==> forall i :: 0 <= i < |v.a| ==> w.aliasOk(t, v.a[i]);
    } else {
      assert InAlt(v, alts[0], w);
    }
  }

  function Nested(v: Json): Json { Arr([Arr([v])]) }

  /** A null two levels down, which the rule refuses: the schema refuses the document, the split accepts it. */
  lemma MutualLoses(g: Given, w: World, f: nat, beyond: bool)
    requires f >= 3 && forall v :: w.otherOk(0, v) <==> !v.Null?
    ensures var u, x, v := Level(w, Mutual(), MutualTable(), f, beyond), Written(w, Mutual(), MutualTable(), f, beyond), Nested(Null);
            && SplitOf(Mutual(), g) == Some(MutualTable())
            && Inhabits(v, MutualTable()[Root].t, u) && ResidualOk(MutualTable()[Root].res, v, x) && ResidualOk(MutualTable()[Root].res, v, u)
            && !Accepts(Mutual()[Root], v, u)
  {
    hide Accepts, Inhabits, SplitOf;
    var d, tab, v := Mutual(), MutualTable(), Nested(Null);
    MutualSplit(g);
    MutualRefuses(w, f - 3, beyond);
    MutualTyped(w, f - 3, beyond);
    var u, x := Level(w, d, tab, f, beyond), Written(w, d, tab, f, beyond);
    RefAccepts(A, v, u);
    RefAccepts(A, v, x);
    AliasMeans(A, v, u);
    LevelStep(w, d, tab, f - 1, beyond);
    WrittenStep(w, d, tab, f - 1, beyond);
    EachAccepts(B, {0}, v, Level(w, d, tab, f - 1, beyond));
    EachAccepts(B, {0}, v, Written(w, d, tab, f - 1, beyond));
    assert w.otherOk(0, v);
  }

  lemma MutualRefuses(w: World, f: nat, beyond: bool)
    requires forall v :: w.otherOk(0, v) <==> !v.Null?
    ensures !Accepts(Mutual()[A], Nested(Null), Level(w, Mutual(), MutualTable(), f + 2, beyond))
  {
    hide Accepts;
    var d, tab := Mutual(), MutualTable();
    LevelStep(w, d, tab, f, beyond);
    LevelStep(w, d, tab, f + 1, beyond);
    EachAccepts(B, {0}, Null, Level(w, d, tab, f, beyond));
    EachAccepts(A, {}, Arr([Null]), Level(w, d, tab, f + 1, beyond));
    EachAccepts(B, {0}, Nested(Null), Level(w, d, tab, f + 2, beyond));
    var one, two := Level(w, d, tab, f + 1, beyond), Level(w, d, tab, f + 2, beyond);
    assert !w.otherOk(0, Null);
    assert !one.refOk(Whole(A), Arr([Null]).a[0]);
    assert !two.refOk(Whole(B), Nested(Null).a[0]);
  }

  lemma MutualTyped(w: World, f: nat, beyond: bool)
    ensures Inhabits(Nested(Null), MutualTable()[A].t, Level(w, Mutual(), MutualTable(), f + 2, beyond))
  {
    hide Inhabits;
    var d, tab := Mutual(), MutualTable();
    LevelStep(w, d, tab, f, beyond);
    LevelStep(w, d, tab, f + 1, beyond);
    EachInhabits(B, Null, Level(w, d, tab, f, beyond));
    EachInhabits(A, Arr([Null]), Level(w, d, tab, f + 1, beyond));
    EachInhabits(B, Nested(Null), Level(w, d, tab, f + 2, beyond));
  }

  lemma WrittenStep(w: World, d: Document, tab: Table, f: nat, beyond: bool)
    ensures var u, v := Written(w, d, tab, f, beyond), Written(w, d, tab, f + 1, beyond);
            forall r, x :: v.refOk(r, x) <==> RefHolds(d, tab, if r == Whole(Root) then RestOf(Root) else r, x, u)
  {
    hide RefHolds, NameHolds;
  }

  // ---------------------------------------------------------------- a reference to the root, copied

  /** `{"anyOf": [{"$ref": "#"}]}` */
  function AnyNode(): Schema { EMPTY_NODE.(anyOf := List([RefNode(Root)])) }

  /** `{"type": "array", "items": {"anyOf": [{"$ref": "#"}]}}`: arrays of such arrays. */
  function Arrays(): Document { map[Root := EMPTY_NODE.(types := Some([TArray]), arr := NO_ARRAY.(items := Sub(AnyNode())))] }

  function ArraysRest(): Schema { EMPTY_NODE.(arr := NO_ARRAY.(items := Sub(AnyNode()))) }

  /** The anyOf goes to the residual as it is, where `#` no longer is the schema: that elements are arrays is lost. */
  function ArraysTable(): Table { map[Root := Entry(Single(KArray, ArrAlt(AnyElem, [])), Sub(ArraysRest()))] }

  lemma AnyConverts(g: Given)
    ensures Conv(AnyNode(), g) == Split(Universal(), Sub(AnyNode()))
  {
    var s := AnyNode();
    var bs := [RefNode(Root)];
    RefConverts(Root, g);
    assert bs[..0] == [] && FoldAnyOf([], g) == Some(Never());
    assert FoldAnyOf(bs, g).Some? ==> Root in Union(Never(), AliasType(Root)).aliases by { assert Union(Never(), AliasType(Root)).aliases == Dedupe([Root]); }
    assert NodeOwn(s, g) == (Universal(), EMPTY_NODE);
    hide FoldAnyOf, NodeOwn, Dedupe, Union;
    NodeConv(s, g);
    assert s != EMPTY_NODE;
  }

  lemma ArrayOnce()
    ensures Union(Never(), Single(KArray, ArrAlt(AnyElem, []))) == Single(KArray, ArrAlt(AnyElem, []))
  {
    var x := ArrAlt(AnyElem, []);
    assert [] + [x] == [x] && [x][..0] == [];
    assert Dedupe([x]) == [x];
  }

  lemma ArraysConvert(g: Given)
    ensures Conv(Arrays()[Root], g) == Split(ArraysTable()[Root].t, Sub(ArraysRest()))
  {
    hide Conv, Union;
    AnyConverts(g);
    ArrayOnce();
    var s := Arrays()[Root];
    assert LengthTags(s.arr) == [] && EachElem(Universal()) == AnyElem;
    assert ArrayAlt(s.arr, g) == ArrAlt(AnyElem, []);
    assert [TArray][..0] == [] && KindAlts([TArray], s, g) == Union(Never(), KindAlt(TArray, s, g));
    assert TArray in [TArray] && TString !in [TArray] && TNumber !in [TArray] && TInteger !in [TArray] && TObject !in [TArray];
    assert KindResidual([TArray], s, g) == ArraysRest();
    assert NodeOwn(s, g) == (ArraysTable()[Root].t, ArraysRest());
    hide NodeOwn;
    NodeConv(s, g);
    assert s != EMPTY_NODE && ArraysRest() != EMPTY_NODE;
  }

  lemma ArraysThrough(g: Given, st: State)
    requires Root in st.named
    ensures Through(Arrays(), g, st, Arrays()[Root]) == st.(rootSeen := true)
  {
    hide Conv, Through;
    var s := Arrays()[Root];
    ArraysParts(g);
    assert s != EMPTY_NODE;
    OneThrough(Arrays(), g, st, s, AnyNode());
    AnyThrough(g, st);
  }

  lemma ArraysParts(g: Given)
    ensures OwnParts(Arrays()[Root], g) == [AnyNode()]
  {
    var s := Arrays()[Root];
    assert ArrayParts(s.arr) == [AnyNode()];
    assert [TArray][..0] == [] && KindParts([TArray], s) == [] + [AnyNode()];
  }

  lemma AnyThrough(g: Given, st: State)
    requires Root in st.named
    ensures Through(Arrays(), g, st, AnyNode()) == st.(rootSeen := true)
  {
    hide Conv, Through;
    var d, s := Arrays(), AnyNode();
    var seen := st.(rootSeen := true);
    RefThrough(d, g, st, Root);
    assert OwnParts(s, g) == [] && s != EMPTY_NODE;
    PartsSmaller(s, g);
    ThroughNode(d, g, st, s);
    assert ThroughEach(d, g, st, [], s) == st;
    assert ThroughAny(d, g, seen, [RefNode(Root)], 1, s) == seen;
    assert ThroughAny(d, g, st, [RefNode(Root)], 0, s) == seen;
  }

  lemma ArraysSplit(g: Given)
    ensures SplitOf(Arrays(), g) == Some(ArraysTable())
  {
    hide Conv, Through;
    var d := Arrays();
    ArraysThrough(g, START);
    ArraysConvert(With(g, {}));
    var st1 := START.(rootSeen := true);
    ArraysThrough(g, st1.(kept := st1.kept + {Root}));
    ArraysConvert(With(g, st1.kept + {Root}));
    assert st1.table[Root := ArraysTable()[Root]] == ArraysTable();
    assert At(ArraysTable()[Root].t, KString) == [] && At(Universal(), KString) != [];
  }

  lemma AnyAccepts(v: Json, w: World)
    ensures Accepts(AnyNode(), v, w) <==> w.refOk(Whole(Root), v)
  {
    var s := AnyNode();
    RefAccepts(Root, v, w);
    assert Some_(s.anyOf, v, w) <==> Accepts(s.anyOf.list[0], v, w);
    NodeMeans(s, v, w);
  }

  lemma ArraysAccept(v: Json, w: World)
    ensures Accepts(ArraysRest(), v, w) <==> (v.Arr? ==> forall i :: 0 <= i < |v.a| ==> w.refOk(Whole(Root), v.a[i]))
    ensures Accepts(Arrays()[Root], v, w) <==> v.Arr? && Accepts(ArraysRest(), v, w)
  {
    var s, r := Arrays()[Root], ArraysRest();
    if v.Arr? {
      forall i | 0 <= i < |v.a| ensures Accepts(AnyNode(), v.a[i], w) <==> w.refOk(Whole(Root), v.a[i]) { AnyAccepts(v.a[i], w); }
      hide Accepts;
      assert ArrayOk(r.arr, v.a, w) <==> forall i :: 0 <= i < |v.a| ==> w.refOk(Whole(Root), v.a[i]);
    }
    NodeMeans(s, v, w);
    NodeMeans(r, v, w);
    EmptyLists(v, w);
    assert s.types.value[0] == TArray;
  }

  /** `[5]` is no array of arrays; the split accepts it. */
  lemma ArraysLose(g: Given, w: World, f: nat, beyond: bool)
    requires f >= 2
    ensures var u, x, v := Level(w, Arrays(), ArraysTable(), f, beyond), Written(w, Arrays(), ArraysTable(), f, beyond), Arr([Num(5.0)]);
            && SplitOf(Arrays(), g) == Some(ArraysTable())
            && Inhabits(v, ArraysTable()[Root].t, u) && ResidualOk(ArraysTable()[Root].res, v, x)
            && !Accepts(Arrays()[Root], v, u)
  {
    hide Accepts, Inhabits, SplitOf;
    var d, tab, v, five := Arrays(), ArraysTable(), Arr([Num(5.0)]), Num(5.0);
    ArraysSplit(g);
    var u, x := Level(w, d, tab, f, beyond), Written(w, d, tab, f, beyond);
    LevelStep(w, d, tab, f - 1, beyond);
    WrittenStep(w, d, tab, f - 1, beyond);
    ArraysAccept(v, u);
    ArraysAccept(v, x);
    ArraysAccept(five, Level(w, d, tab, f - 1, beyond));
    ArraysAccept(five, Written(w, d, tab, f - 1, beyond));
    assert v.a[0] == five;
    SingleExact(KArray, ArrAlt(AnyElem, []), v, u);
  }

  // ---------------------------------------------------------------- the type of the first time, the residual of the second

  const L := Def("#/$defs/l")

  /** `{"type": "array", "items": {"$ref": "#/$defs/l"}}` */
  function ListNode(): Schema { EMPTY_NODE.(types := Some([TArray]), arr := NO_ARRAY.(items := Sub(RefNode(L)))) }

  function BranchNode(): Schema { EMPTY_NODE.(anyOf := List([ListNode()])) }

  /** `{"type": "array", "minItems": 1}` */
  function FilledNode(): Schema { EMPTY_NODE.(types := Some([TArray]), arr := NO_ARRAY.(minItems := Some(1.0))) }

  /** `l` is `{"allOf": [{"anyOf": [a list of l]}, an array that is not empty]}`. */
  function Lists(): Document { map[Root := RefNode(L), L := EMPTY_NODE.(allOf := List([BranchNode(), FilledNode()]))] }

  function EachAlt(): Alt { ArrAlt(Each(AliasType(L)), []) }

  function FilledAlt(): Alt { ArrAlt(AnyElem, [TagMinItems(1.0)]) }

  /** The first time the two arrays cannot be met and the second branch is kept; the second time only the first is. */
  function ListsTable(): Table {
    map[Root := Entry(AliasType(L), Sub(RestNode(L))), L := Entry(Single(KArray, EachAlt()), Sub(EMPTY_NODE.(allOf := List([BranchNode()]))))]
  }

  lemma SingleOnce(x: Alt)
    ensures Union(Never(), Single(KArray, x)) == Single(KArray, x)
  {
    assert [] + [x] == [x] && [x][..0] == [];
    assert Dedupe([x]) == [x];
  }

  lemma MeetUniversal(k: Kind, ys: seq<Alt>)
    requires |ys| <= 1
    ensures IntersectKind(k, [UniversalAlt(k)], ys) == Some(ys)
  {
    hide Row, UniversalAlt, Dedupe;
    var u := UniversalAlt(k);
    RowUniversal(k, ys);
    FewOnce(ys);
    assert [u][..0] == [] && [] + ys == ys;
    assert Product(k, [], ys) == Some([]);
    assert Product(k, [u], ys) == Some(ys);
  }

  lemma RowUniversal(k: Kind, ys: seq<Alt>)
    requires |ys| <= 1
    ensures Row(k, UniversalAlt(k), ys) == Some(ys)
  {
    hide UniversalAlt;
    var u := UniversalAlt(k);
    assert Row(k, u, []) == Some([]);
    if ys != [] {
      assert ys[..0] == [] && ys == [] + [ys[0]];
      assert Meet(k, u, ys[0]) == One(ys[0]);
    }
  }

  lemma FewOnce(ys: seq<Alt>)
    requires |ys| <= 1
    ensures Dedupe(ys) == ys
  {
    if ys != [] { assert ys[..0] == [] && ys == [ys[0]]; }
  }

  lemma IntersectUniversal(t: Type)
    requires t.aliases == [] && forall k :: |At(t, k)| <= 1
    ensures Intersect(Universal(), t) == Some(t)
  {
    hide IntersectKind;
    forall k ensures IntersectKind(k, At(Universal(), k), At(t, k)) == Some(At(t, k)) {
      assert At(Universal(), k) == [UniversalAlt(k)];
      MeetUniversal(k, At(t, k));
    }
    assert forall k :: At(t, k) == At(t, k);
    assert At(t, KString) == t.strs && At(t, KNumber) == t.nums && At(t, KBoolean) == t.bools && At(t, KNull) == t.nulls && At(t, KObject) == t.objs && At(t, KArray) == t.arrs;
  }

  lemma ArraysApart(x: Alt, y: Alt)
    requires x.ArrAlt? && y.ArrAlt? && x != y && x != UniversalAlt(KArray) && y != UniversalAlt(KArray)
    ensures Intersect(Single(KArray, x), Single(KArray, y)).None?
  {
    assert Meet(KArray, x, y) == Unwritable;
    assert [x][..0] == [] && [y][..0] == [];
    assert Row(KArray, x, [y]).None?;
    assert Product(KArray, [x], [y]).None?;
  }

  /** An array type with one rule about its elements or its length. */
  lemma ArrayConverts(r: ArrayRules, g: Given)
    ensures var s := EMPTY_NODE.(types := Some([TArray]), arr := r);
            Conv(s, g) == Split(Single(KArray, ArrayAlt(r, g)), AsResidual(EMPTY_NODE.(arr := ArrayResidual(r, g))))
  {
    hide ArrayAlt, ArrayResidual, Union;
    var s := EMPTY_NODE.(types := Some([TArray]), arr := r);
    SingleOnce(ArrayAlt(r, g));
    assert [TArray][..0] == [] && KindAlts([TArray], s, g) == Union(Never(), KindAlt(TArray, s, g));
    assert TArray in [TArray] && TString !in [TArray] && TNumber !in [TArray] && TInteger !in [TArray] && TObject !in [TArray];
    assert KindResidual([TArray], s, g) == EMPTY_NODE.(arr := ArrayResidual(r, g));
    assert NodeOwn(s, g) == (Single(KArray, ArrayAlt(r, g)), EMPTY_NODE.(arr := ArrayResidual(r, g)));
    hide NodeOwn;
    NodeConv(s, g);
    assert s != EMPTY_NODE;
  }

  lemma ListConverts(g: Given)
    ensures Conv(ListNode(), g) == Split(Single(KArray, EachAlt()), if L in g.kept then Sub(EMPTY_NODE.(arr := NO_ARRAY.(items := Sub(RestNode(L))))) else NoSchema)
  {
    hide Conv;
    var r := ListNode().arr;
    ArrayConverts(r, g);
    RefConverts(L, g);
    assert LengthTags(r) == [] && AliasType(L) != Universal();
    assert EMPTY_NODE.(arr := NO_ARRAY) == EMPTY_NODE;
  }

  lemma FilledConverts(g: Given)
    ensures Conv(FilledNode(), g) == Split(Single(KArray, FilledAlt()), NoSchema)
  {
    hide Conv;
    var r := FilledNode().arr;
    ArrayConverts(r, g);
    assert LengthTags(r) == [TagMinItems(1.0)];
    assert EMPTY_NODE.(arr := NO_ARRAY) == EMPTY_NODE;
  }

  lemma BranchConverts(g: Given)
    ensures Conv(BranchNode(), g) == if L in g.kept then Split(Universal(), Sub(BranchNode())) else Split(Single(KArray, EachAlt()), NoSchema)
  {
    hide Conv, Intersect, Union;
    var s, bs := BranchNode(), [ListNode()];
    ListConverts(g);
    SingleOnce(EachAlt());
    IntersectUniversal(Single(KArray, EachAlt()));
    assert bs[..0] == [] && FoldAnyOf([], g) == Some(Never());
    assert FoldAnyOf(bs, g) == if L in g.kept then None else Some(Single(KArray, EachAlt()));
    assert NodeOwn(s, g) == (Universal(), EMPTY_NODE);
    hide FoldAnyOf, NodeOwn;
    NodeConv(s, g);
    assert s != EMPTY_NODE;
  }

  lemma ListsConvert(g: Given)
    ensures Conv(Lists()[L], g) == if L in g.kept then Split(Single(KArray, FilledAlt()), ListsTable()[L].res)
                                   else Split(Single(KArray, EachAlt()), Sub(EMPTY_NODE.(allOf := List([FilledNode()]))))
  {
    hide Conv, Intersect, Universal;
    var s, bs := Lists()[L], [BranchNode(), FilledNode()];
    BranchConverts(g);
    FilledConverts(g);
    assert bs[..1] == [BranchNode()] && [BranchNode()][..0] == [];
    IntersectUniversal(Universal()) by { UniversalOnes(); }
    IntersectUniversal(Single(KArray, EachAlt()));
    IntersectUniversal(Single(KArray, FilledAlt()));
    ArraysApart(EachAlt(), FilledAlt());
    assert FoldAllOf(Universal(), [], g) == Folded(Universal(), []);
    var one := FoldAllOf(Universal(), [BranchNode()], g);
    assert one == if L in g.kept then Folded(Universal(), [] + [BranchNode()]) else Folded(Single(KArray, EachAlt()), []);
    assert FoldAllOf(Universal(), bs, g) == if L in g.kept then Folded(Single(KArray, FilledAlt()), [BranchNode()]) else Folded(Single(KArray, EachAlt()), [FilledNode()]);
    ListsOwn(g);
    hide FoldAllOf, NodeOwn;
    NodeConv(s, g);
    assert s != EMPTY_NODE;
  }

  lemma UniversalOnes()
    ensures Universal().aliases == [] && forall k :: |At(Universal(), k)| == 1
  {
  }

  lemma ListsOwn(g: Given)
    ensures NodeOwn(Lists()[L], g) == (Universal(), EMPTY_NODE)
  {
  }

  // what is gone through, and what comes of it

  lemma ListsThrough(g: Given, k: set<Target>)
    ensures var st := State({Root, L}, k, map[], false, false); Through(Lists(), g, st, Lists()[L]) == st
  {
    hide Conv, Through;
    var d, s, st := Lists(), Lists()[L], State({Root, L}, k, map[], false, false);
    var bs := [BranchNode(), FilledNode()];
    BranchThrough(g, st);
    FilledThrough(g, st);
    ListsParts(g);
    PartsSmaller(s, g);
    ThroughNode(d, g, st, s);
    assert ListOf(s.allOf) == bs && ListOf(s.anyOf) == [];
    assert bs[..1] == [BranchNode()] && [BranchNode()][..0] == [];
    assert ThroughEach(d, g, st, [], s) == st;
    assert ThroughEach(d, g, st, [BranchNode()], s) == st;
    assert ThroughEach(d, g, st, bs, s) == st;
    assert ThroughAny(d, g, st, [], 0, s) == st;
  }

  lemma ListsParts(g: Given)
    ensures Lists()[L] != EMPTY_NODE && BranchNode() != EMPTY_NODE && FilledNode() != EMPTY_NODE && ListNode() != EMPTY_NODE
    ensures OwnParts(Lists()[L], g) == [] && OwnParts(BranchNode(), g) == [] && OwnParts(FilledNode(), g) == [] && OwnParts(ListNode(), g) == [RefNode(L)]
  {
    assert [TArray][..0] == [];
    assert KindParts([TArray], ListNode()) == [] + [RefNode(L)];
    assert KindParts([TArray], FilledNode()) == [] + [];
  }

  lemma FilledThrough(g: Given, st: State)
    ensures Through(Lists(), g, st, FilledNode()) == st
  {
    hide Conv, Through;
    var d, s := Lists(), FilledNode();
    ListsParts(g);
    ThroughNode(d, g, st, s);
    assert ThroughEach(d, g, st, [], s) == st && ThroughAny(d, g, st, [], 0, s) == st;
  }

  lemma BranchThrough(g: Given, st: State)
    requires L in st.named
    ensures Through(Lists(), g, st, BranchNode()) == st
  {
    hide Conv, Through;
    var d, s, bs := Lists(), BranchNode(), [ListNode()];
    ListsParts(g);
    OneThrough(d, g, st, ListNode(), RefNode(L));
    RefThrough(d, g, st, L);
    PartsSmaller(s, g);
    ThroughNode(d, g, st, s);
    assert ThroughEach(d, g, st, [], s) == st;
    assert ThroughAny(d, g, st, bs, 1, s) == st;
    assert ThroughAny(d, g, st, bs, 0, s) == st;
  }

  lemma ListsSplit(g: Given)
    ensures SplitOf(Lists(), g) == Some(ListsTable())
  {
    hide Conv, Through;
    var d := Lists();
    var begun := State({Root, L}, {}, map[], false, false);
    assert START.(named := START.named + {L}) == begun;
    ListsThrough(g, {});
    ListsConvert(With(g, {}));
    var more := begun.(kept := begun.kept + {L});
    assert more == State({Root, L}, {L}, map[], false, false);
    ListsThrough(g, {L});
    ListsConvert(With(g, {L}));
    var done := State({Root, L}, {L}, map[L := ListsTable()[L]], false, false);
    assert Repeated(d, g, begun, L, Conv(d[L], With(g, {}))) == done;
    assert Referred(d, g, START, L) == done;
    RefThrough(d, g, START, L);
    RefConverts(L, With(g, {L}));
    assert done.table[Root := ListsTable()[Root]] == ListsTable();
    assert AliasType(L) != Universal();
  }

  lemma ListsAccept(v: Json, w: World)
    requires v == Arr([])
    ensures Accepts(BranchNode(), v, w) && !Accepts(Lists()[L], v, w) && Accepts(EMPTY_NODE.(allOf := List([BranchNode()])), v, w)
  {
    var l, b, f := ListNode(), BranchNode(), FilledNode();
    EmptyLists(v, w);
    NodeMeans(l, v, w);
    assert l.types.value[0] == TArray;
    NodeMeans(b, v, w);
    assert Accepts(b.anyOf.list[0], v, w);
    NodeMeans(f, v, w);
    NodeMeans(Lists()[L], v, w);
    assert Lists()[L].allOf.list[1] == f;
    NodeMeans(EMPTY_NODE.(allOf := List([b])), v, w);
  }

  /** The empty array: the schema refuses it, the split accepts it. */
  lemma ListsLose(g: Given, w: World, f: nat, beyond: bool)
    requires f >= 1
    ensures var u, x, v := Level(w, Lists(), ListsTable(), f, beyond), Written(w, Lists(), ListsTable(), f, beyond), Arr([]);
            && SplitOf(Lists(), g) == Some(ListsTable())
            && Inhabits(v, ListsTable()[Root].t, u) && ResidualOk(ListsTable()[Root].res, v, x) && ResidualOk(ListsTable()[Root].res, v, u)
            && !Accepts(Lists()[Root], v, u)
  {
    hide Accepts, Inhabits, SplitOf;
    var d, tab, v := Lists(), ListsTable(), Arr([]);
    ListsSplit(g);
    var u, x := Level(w, d, tab, f, beyond), Written(w, d, tab, f, beyond);
    var u', x' := Level(w, d, tab, f - 1, beyond), Written(w, d, tab, f - 1, beyond);
    LevelStep(w, d, tab, f - 1, beyond);
    WrittenStep(w, d, tab, f - 1, beyond);
    RefAccepts(L, v, u);
    RefAccepts(L, v, x);
    AliasMeans(L, v, u);
    ListsAccept(v, u');
    ListsAccept(v, x');
    SingleExact(KArray, EachAlt(), v, u');
    assert InAlt(v, EachAlt(), u');
  }
}
