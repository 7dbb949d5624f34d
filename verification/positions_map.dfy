/** The maps on whole documents: the full one exact, the targeted one the same for every wanted pointer. */
module PositionMaps {
  import opened Json
  import opened PositionWalk
  import opened PositionFacts
  import opened PositionTargeted

  // ---------------------------------------------------------------- the pointers of a document

  datatype Step = Name(k: string) | Index(i: nat)

  function StepText(s: Step): string {
    match s case Name(k) => Escape(k) case Index(i) => NatText(i)
  }

  /** A JSON pointer, section 3 of RFC 6901: each reference token after a `/`. */
  function PointerText(path: seq<Step>): string {
    if path == [] then "" else "/" + StepText(path[0]) + PointerText(path[1..])
  }

  /** The path leads from the document to the value. */
  ghost predicate Leads(c: Cst, path: seq<Step>, v: Cst, parse: Parse)
    decreases c
  {
    if path == [] then v == c
    else
      match (c, path[0])
      case (CObject(ms, _), Name(k)) => exists i :: 0 <= i < |ms| && Decoded(ms[i].key, parse) == k && Leads(ms[i].value, path[1..], v, parse)
      case (CArray(xs, _), Index(n)) => n < |xs| && Leads(xs[n].value, path[1..], v, parse)
      case _ => false
  }

  /** An entry under the pointer whose span is the value's source text. */
  ghost predicate HasEntry(t: string, es: seq<Entry>, p: string, v: Cst) {
    exists j :: 0 <= j < |es| && es[j].ptr == p && es[j].len == |Render(v)| && Reads(t, es[j].start, Render(v))
  }

  lemma HasEntryWider(t: string, a: seq<Entry>, b: seq<Entry>, p: string, v: Cst)
    ensures HasEntry(t, a, p, v) || HasEntry(t, b, p, v) ==> HasEntry(t, a + b, p, v)
  {
    if HasEntry(t, a, p, v) {
      var j :| 0 <= j < |a| && a[j].ptr == p && a[j].len == |Render(v)| && Reads(t, a[j].start, Render(v));
      assert (a + b)[j] == a[j];
    } else if HasEntry(t, b, p, v) {
      var j :| 0 <= j < |b| && b[j].ptr == p && b[j].len == |Render(v)| && Reads(t, b[j].start, Render(v));
      assert (a + b)[|a| + j] == b[j];
    }
  }

  lemma {:induction false} NodesComplete(t: string, c: Cst, ptr: string, off: nat, key: Option<(nat, nat)>, path: seq<Step>, v: Cst, parse: Parse)
    requires WellFormed(c, parse) && Reads(t, off, Render(c)) && Leads(c, path, v, parse)
    ensures HasEntry(t, Nodes(c, ptr, off, key, parse), ptr + PointerText(path), v)
    decreases c, 3
  {
    hide Reads, Escape, NatText, StringOk, MembersText, ItemsText, MemberNodes, ItemNodes, HasEntry, Decoded;
    var es := Nodes(c, ptr, off, key, parse);
    if path == [] {
      OwnEntry(t, es, v);
      assert es[|es| - 1].ptr == ptr + "";
      assert ptr + PointerText(path) == ptr;
    } else {
      match c
      case CObject(ms, tail) =>
        var i :| 0 <= i < |ms| && Decoded(ms[i].key, parse) == path[0].k && Leads(ms[i].value, path[1..], v, parse);
        ReadsSplit(t, off, "{", MembersText(ms, tail));
        MembersComplete(t, ms, tail, ptr, off + 1, i, path, v, parse);
        HasEntryWider(t, es[..|es| - 1], es[|es| - 1..], ptr + PointerText(path), v);
        assert es == es[..|es| - 1] + es[|es| - 1..];
      case CArray(xs, tail) =>
        ReadsSplit(t, off, "[", ItemsText(xs, tail));
        ItemsComplete(t, xs, tail, ptr, 0, off + 1, path[0].i, path, v, parse);
        HasEntryWider(t, es[..|es| - 1], es[|es| - 1..], ptr + PointerText(path), v);
        assert es == es[..|es| - 1] + es[|es| - 1..];
    }
  }

  lemma OwnEntry(t: string, es: seq<Entry>, v: Cst)
    requires es != [] && es[|es| - 1].len == |Render(v)| && Reads(t, es[|es| - 1].start, Render(v))
    ensures HasEntry(t, es, es[|es| - 1].ptr, v)
  {
    hide Reads, Render;
  }

  lemma ChildPointer(ptr: string, path: seq<Step>)
    requires path != []
    ensures Child(ptr, StepText(path[0])) + PointerText(path[1..]) == ptr + PointerText(path)
  {
  }

  lemma {:induction false} MembersComplete(t: string, ms: seq<CMember>, tail: string, ptr: string, off: nat, i: nat, path: seq<Step>, v: Cst, parse: Parse)
    requires AllWs(tail) && (forall k :: 0 <= k < |ms| ==> MemberOk(ms[k], parse)) && Reads(t, off, MembersText(ms, tail))
    requires i < |ms| && path != [] && path[0] == Name(Decoded(ms[i].key, parse)) && Leads(ms[i].value, path[1..], v, parse)
    ensures HasEntry(t, MemberNodes(ms, tail, ptr, off, parse), ptr + PointerText(path), v)
    decreases ms, 2
  {
    hide Reads, AllWs, TokenEnds, Nodes, Render, MemberHead, Escape, StringOk, WellFormed, HasEntry, Leads, Decoded, MembersText;
    var m, rest := ms[0], ms[1..];
    assert MemberOk(m, parse);
    MembersParts(t, off, ms, tail, parse);
    var at := off + |MemberHead(m)|;
    var after := at + |Render(m.value)|;
    var next := after + |m.end| + |Comma(rest)|;
    var key := Some((off + |m.before|, |m.key| + 2));
    var a, b := Nodes(m.value, Child(ptr, Escape(Decoded(m.key, parse))), at, key, parse), MemberNodes(rest, tail, ptr, next, parse);
    if i == 0 {
      NodesComplete(t, m.value, Child(ptr, Escape(Decoded(m.key, parse))), at, key, path[1..], v, parse);
      ChildPointer(ptr, path);
    } else {
      ReadsSplit(t, after, m.end + Comma(rest), MembersText(rest, tail));
      assert rest[i - 1] == ms[i];
      MembersComplete(t, rest, tail, ptr, next, i - 1, path, v, parse);
    }
    HasEntryWider(t, a, b, ptr + PointerText(path), v);
  }

  lemma {:induction false} ItemsComplete(t: string, xs: seq<CItem>, tail: string, ptr: string, idx: nat, off: nat, i: nat, path: seq<Step>, v: Cst, parse: Parse)
    requires AllWs(tail) && (forall k :: 0 <= k < |xs| ==> AllWs(xs[k].before) && AllWs(xs[k].end) && WellFormed(xs[k].value, parse))
    requires Reads(t, off, ItemsText(xs, tail))
    requires i < |xs| && path != [] && path[0] == Index(idx + i) && Leads(xs[i].value, path[1..], v, parse)
    ensures HasEntry(t, ItemNodes(xs, tail, ptr, idx, off, parse), ptr + PointerText(path), v)
    decreases xs, 2
  {
    hide Reads, AllWs, TokenEnds, Nodes, Render, NatText, WellFormed, HasEntry, Leads, ItemsText;
    var x, rest := xs[0], xs[1..];
    assert WellFormed(x.value, parse) && AllWs(x.end);
    ItemsParts(t, off, xs, tail);
    var at := off + |x.before|;
    var after := at + |Render(x.value)|;
    var next := after + |x.end| + |Comma(rest)|;
    var a, b := Nodes(x.value, Child(ptr, NatText(idx)), at, None, parse), ItemNodes(rest, tail, ptr, idx + 1, next, parse);
    if i == 0 {
      NodesComplete(t, x.value, Child(ptr, NatText(idx)), at, None, path[1..], v, parse);
      ChildPointer(ptr, path);
    } else {
      ReadsSplit(t, after, x.end + Comma(rest), ItemsText(rest, tail));
      assert rest[i - 1] == xs[i];
      ItemsComplete(t, rest, tail, ptr, idx + 1, next, i - 1, path, v, parse);
    }
    HasEntryWider(t, a, b, ptr + PointerText(path), v);
  }

  ghost predicate Named(c: Cst, ptr: string, p: string, parse: Parse) {
    exists path, v :: Leads(c, path, v, parse) && p == ptr + PointerText(path)
  }

  /** The entry's pointer names a value, and its span is that value's source text. */
  ghost predicate NamesValue(t: string, c: Cst, ptr: string, e: Entry, parse: Parse) {
    exists path, v :: NamesAt(t, c, ptr, e, path, v, parse)
  }

  ghost predicate NamesAt(t: string, c: Cst, ptr: string, e: Entry, path: seq<Step>, v: Cst, parse: Parse) {
    Leads(c, path, v, parse) && e.ptr == ptr + PointerText(path) && e.len == |Render(v)| && Reads(t, e.start, Render(v))
  }

  lemma {:induction false} NodesSound(t: string, c: Cst, ptr: string, off: nat, key: Option<(nat, nat)>, j: nat, parse: Parse)
    requires WellFormed(c, parse) && Reads(t, off, Render(c)) && j < |Nodes(c, ptr, off, key, parse)|
    ensures NamesValue(t, c, ptr, Nodes(c, ptr, off, key, parse)[j], parse)
    decreases c, 3
  {
    hide Reads, MembersText, ItemsText;
    var es := Nodes(c, ptr, off, key, parse);
    if j == |es| - 1 {
      assert Leads(c, [], c, parse) && es[j].ptr == ptr + PointerText([]);
      assert NamesAt(t, c, ptr, es[j], [], c, parse);
    } else {
      match c
      case CObject(ms, tail) =>
        ReadsSplit(t, off, "{", MembersText(ms, tail));
        var k, path, v := MembersSound(t, ms, tail, ptr, off + 1, j, parse);
        var whole := [Name(Decoded(ms[k].key, parse))] + path;
        assert whole[1..] == path;
        ChildPointer(ptr, whole);
        assert Leads(c, whole, v, parse);
        assert NamesAt(t, c, ptr, es[j], whole, v, parse);
      case CArray(xs, tail) =>
        ReadsSplit(t, off, "[", ItemsText(xs, tail));
        var k, path, v := ItemsSound(t, xs, tail, ptr, 0, off + 1, j, parse);
        var whole := [Index(k)] + path;
        assert whole[1..] == path;
        ChildPointer(ptr, whole);
        assert Leads(c, whole, v, parse);
        assert NamesAt(t, c, ptr, es[j], whole, v, parse);
    }
  }

  lemma {:induction false} MembersSound(t: string, ms: seq<CMember>, tail: string, ptr: string, off: nat, j: nat, parse: Parse) returns (k: nat, path: seq<Step>, v: Cst)
    requires AllWs(tail) && (forall i :: 0 <= i < |ms| ==> MemberOk(ms[i], parse)) && Reads(t, off, MembersText(ms, tail))
    requires j < |MemberNodes(ms, tail, ptr, off, parse)|
    ensures k < |ms| && NamesAt(t, ms[k].value, Child(ptr, StepText(Name(Decoded(ms[k].key, parse)))), MemberNodes(ms, tail, ptr, off, parse)[j], path, v, parse)
    decreases ms, 2
  {
    hide Leads, Nodes, Render, MemberHead, Escape, StringOk, Decoded, WellFormed, Reads, AllWs, TokenEnds, MembersText, NamesAt, Child;
    var m, rest := ms[0], ms[1..];
    assert MemberOk(m, parse);
    MembersParts(t, off, ms, tail, parse);
    var at := off + |MemberHead(m)|;
    var next := at + |Render(m.value)| + |m.end| + |Comma(rest)|;
    var key := Some((off + |m.before|, |m.key| + 2));
    var p := Child(ptr, Escape(Decoded(m.key, parse)));
    var a := Nodes(m.value, p, at, key, parse);
    if j < |a| {
      NodesSound(t, m.value, p, at, key, j, parse);
      path, v :| NamesAt(t, m.value, p, a[j], path, v, parse);
      k := 0;
    } else {
      ReadsSplit(t, at + |Render(m.value)|, m.end + Comma(rest), MembersText(rest, tail));
      k, path, v := MembersSound(t, rest, tail, ptr, next, j - |a|, parse);
      k := k + 1;
    }
  }

  lemma {:induction false} ItemsSound(t: string, xs: seq<CItem>, tail: string, ptr: string, idx: nat, off: nat, j: nat, parse: Parse) returns (k: nat, path: seq<Step>, v: Cst)
    requires AllWs(tail) && (forall i :: 0 <= i < |xs| ==> AllWs(xs[i].before) && AllWs(xs[i].end) && WellFormed(xs[i].value, parse))
    requires Reads(t, off, ItemsText(xs, tail)) && j < |ItemNodes(xs, tail, ptr, idx, off, parse)|
    ensures k < |xs| && NamesAt(t, xs[k].value, Child(ptr, StepText(Index(idx + k))), ItemNodes(xs, tail, ptr, idx, off, parse)[j], path, v, parse)
    decreases xs, 2
  {
    hide Leads, Nodes, Render, NatText, WellFormed, Reads, AllWs, TokenEnds, ItemsText, NamesAt, Child;
    var x, rest := xs[0], xs[1..];
    assert WellFormed(x.value, parse) && AllWs(x.end);
    ItemsParts(t, off, xs, tail);
    var at := off + |x.before|;
    var next := at + |Render(x.value)| + |x.end| + |Comma(rest)|;
    var p := Child(ptr, NatText(idx));
    var a := Nodes(x.value, p, at, None, parse);
    if j < |a| {
      NodesSound(t, x.value, p, at, None, j, parse);
      path, v :| NamesAt(t, x.value, p, a[j], path, v, parse);
      k := 0;
    } else {
      ReadsSplit(t, at + |Render(x.value)|, x.end + Comma(rest), ItemsText(rest, tail));
      k, path, v := ItemsSound(t, rest, tail, ptr, idx + 1, next, j - |a|, parse);
      k := k + 1;
    }
  }

  // ---------------------------------------------------------------- the order of the entries

  /** Entries under one pointer come in the order of the text. */
  ghost predicate Ordered(es: seq<Entry>) {
    forall i, j :: 0 <= i < j < |es| && es[i].ptr == es[j].ptr ==> es[i].start < es[j].start
  }

  ghost predicate Between(es: seq<Entry>, low: nat, high: nat, ptr: nat) {
    forall i :: 0 <= i < |es| ==> low <= es[i].start < high && |es[i].ptr| >= ptr
  }

  lemma OrderedConcat(a: seq<Entry>, b: seq<Entry>, low: nat, mid: nat, next: nat, high: nat, ptr: nat)
    requires Ordered(a) && Ordered(b) && Between(a, low, mid, ptr) && Between(b, next, high, ptr) && low <= mid <= next <= high
    ensures Ordered(a + b) && Between(a + b, low, high, ptr)
  {
  }

  lemma {:induction false} NodesOrdered(c: Cst, ptr: string, off: nat, key: Option<(nat, nat)>, parse: Parse)
    requires WellFormed(c, parse)
    ensures Ordered(Nodes(c, ptr, off, key, parse)) && Between(Nodes(c, ptr, off, key, parse), off, off + |Render(c)|, |ptr|)
    decreases c, 3
  {
    hide MemberNodes, ItemNodes, MembersText, ItemsText;
    RenderStarts(c, parse);
    match c
    case CObject(ms, tail) => MemberNodesOrdered(ms, tail, ptr, off + 1, parse);
    case CArray(xs, tail) => ItemNodesOrdered(xs, tail, ptr, 0, off + 1, parse);
    case _ =>
  }

  lemma {:induction false} MemberNodesOrdered(ms: seq<CMember>, tail: string, ptr: string, off: nat, parse: Parse)
    requires forall i :: 0 <= i < |ms| ==> MemberOk(ms[i], parse)
    ensures Ordered(MemberNodes(ms, tail, ptr, off, parse))
    ensures Between(MemberNodes(ms, tail, ptr, off, parse), off, off + |MembersText(ms, tail)|, |ptr| + 1)
    decreases ms, 2
  {
    hide Nodes, Render, MemberHead, Seg, Ordered, Between, WellFormed, Child, MembersText, Comma;
    if ms == [] {
      NoneOrdered(off, off + |MembersText(ms, tail)|, |ptr| + 1);
    } else {
      var m, rest := ms[0], ms[1..];
      assert MemberOk(m, parse);
      var at := off + |MemberHead(m)|;
      var after := at + |Render(m.value)|;
      var next := after + |m.end| + |Comma(rest)|;
      var p, key := Child(ptr, Seg(m, parse)), Some((off + |m.before|, |m.key| + 2));
      var a, b := Nodes(m.value, p, at, key, parse), MemberNodes(rest, tail, ptr, next, parse);
      ChildLonger(ptr, Seg(m, parse));
      MembersLength(ms, tail);
      NodesOrdered(m.value, p, at, key, parse);
      MemberNodesOrdered(rest, tail, ptr, next, parse);
      BetweenWider(a, at, after, |p|, off, |ptr| + 1);
      OrderedConcat(a, b, off, after, next, off + |MembersText(ms, tail)|, |ptr| + 1);
    }
  }

  lemma {:induction false} ItemNodesOrdered(xs: seq<CItem>, tail: string, ptr: string, idx: nat, off: nat, parse: Parse)
    requires forall i :: 0 <= i < |xs| ==> WellFormed(xs[i].value, parse)
    ensures Ordered(ItemNodes(xs, tail, ptr, idx, off, parse))
    ensures Between(ItemNodes(xs, tail, ptr, idx, off, parse), off, off + |ItemsText(xs, tail)|, |ptr| + 1)
    decreases xs, 2
  {
    hide Nodes, Render, NatText, Ordered, Between, WellFormed;
    if xs == [] {
      NoneOrdered(off, off + |ItemsText(xs, tail)|, |ptr| + 1);
    } else {
      var x, rest := xs[0], xs[1..];
      assert WellFormed(x.value, parse);
      var at := off + |x.before|;
      var after := at + |Render(x.value)|;
      var next := after + |x.end| + |Comma(rest)|;
      var p := Child(ptr, NatText(idx));
      var a, b := Nodes(x.value, p, at, None, parse), ItemNodes(rest, tail, ptr, idx + 1, next, parse);
      NodesOrdered(x.value, p, at, None, parse);
      ItemNodesOrdered(rest, tail, ptr, idx + 1, next, parse);
      BetweenWider(a, at, after, |p|, off, |ptr| + 1);
      OrderedConcat(a, b, off, after, next, off + |ItemsText(xs, tail)|, |ptr| + 1);
    }
  }

  lemma MembersLength(ms: seq<CMember>, tail: string)
    requires ms != []
    ensures |MembersText(ms, tail)| == |MemberHead(ms[0])| + |Render(ms[0].value)| + |ms[0].end| + |Comma(ms[1..])| + |MembersText(ms[1..], tail)|
  {
    hide Render, MemberHead;
  }

  lemma ChildLonger(ptr: string, seg: string)
    ensures |Child(ptr, seg)| >= |ptr| + 1
  {
  }

  lemma NoneOrdered(low: nat, high: nat, ptr: nat)
    ensures Ordered([]) && Between([], low, high, ptr)
  {
  }

  lemma BetweenWider(es: seq<Entry>, low: nat, high: nat, ptr: nat, lower: nat, shorter: nat)
    requires Between(es, low, high, ptr) && lower <= low && shorter <= ptr
    ensures Between(es, lower, high, shorter)
  {
  }

  /** A map keeps the last of the entries under one pointer. */
  lemma {:induction false} MapOfLast(es: seq<Entry>)
    requires Ordered(es)
    ensures forall i :: 0 <= i < |es| ==> es[i].ptr in MapOf(es) && es[i].start <= MapOf(es)[es[i].ptr].start
    ensures forall p :: p in MapOf(es) ==> MapOf(es)[p] in es && MapOf(es)[p].ptr == p
    decreases |es|
  {
    if es != [] {
      var init, last := es[..|es| - 1], es[|es| - 1];
      MapOfLast(init);
      assert forall i :: 0 <= i < |init| ==> init[i] == es[i];
      forall i | 0 <= i < |es| ensures es[i].ptr in MapOf(es) && es[i].start <= MapOf(es)[es[i].ptr].start {
        if i < |init| { assert init[i] == es[i]; }
      }
    }
  }

  // ---------------------------------------------------------------- whole texts

  function Bom(mark: bool): string { if mark then "\U{FEFF}" else "" }

  /** A text holds a document: a byte order mark perhaps, then the document between white space. */
  predicate Holds(t: string, mark: bool, lead: string, c: Cst, trail: string) {
    AllWs(lead) && AllWs(trail) && t == Bom(mark) + lead + Render(c) + trail
  }

  function FullWalk(t: string, parse: Parse): Walked {
    Walk(t, StartOf(t), "", None, parse)
  }

  ghost function TargetedWalk(t: string, wanted: set<string>, parse: Parse): Targeted {
    TWalk(t, StartOf(t), "", None, |wanted|, wanted, parse)
  }

  lemma TextParts(t: string, mark: bool, lead: string, c: Cst, trail: string, parse: Parse)
    requires Holds(t, mark, lead, c, trail) && WellFormed(c, parse)
    ensures StartOf(t) == |Bom(mark)| && Reads(t, StartOf(t), lead)
    ensures var off := |Bom(mark)| + |lead|; Reads(t, off, Render(c)) && TokenEnds(t, off + |Render(c)|)
  {
    TextStart(t, mark, lead, c, trail, parse);
    HoldsParts(t, mark, lead, c, trail);
    ThreeParts(t, Bom(mark), lead, Render(c), trail);
  }

  lemma HoldsParts(t: string, mark: bool, lead: string, c: Cst, trail: string)
    requires Holds(t, mark, lead, c, trail)
    ensures AllWs(lead) && AllWs(trail) && t == Bom(mark) + lead + Render(c) + trail
  {
  }

  lemma ThreeParts(t: string, b: string, lead: string, r: string, trail: string)
    requires AllWs(trail) && t == b + lead + r + trail
    ensures Reads(t, |b|, lead) && Reads(t, |b| + |lead|, r) && TokenEnds(t, |b| + |lead| + |r|)
  {
    hide AllWs, Reads, TokenEnds;
    Associate(b, lead, r, trail);
    WholeReads(t, b + (lead + (r + trail)));
    ReadsSplit(t, 0, b, lead + (r + trail));
    ReadsSplit(t, |b|, lead, r + trail);
    ReadsSplit(t, |b| + |lead|, r, trail);
    var off := |b| + |lead| + |r|;
    if trail != "" { TrailEnds(t, off, trail); } else { TextEnds(t, off); }
  }

  lemma Associate(a: string, b: string, c: string, d: string)
    ensures a + b + c + d == a + (b + (c + d))
  {
  }

  lemma TextEnds(t: string, off: nat)
    requires off == |t|
    ensures TokenEnds(t, off)
  {
  }

  lemma WholeReads(t: string, s: string)
    requires t == s
    ensures Reads(t, 0, s)
  {
  }

  lemma TrailEnds(t: string, off: nat, trail: string)
    requires Reads(t, off, trail) && trail != "" && AllWs(trail)
    ensures TokenEnds(t, off)
  {
    FirstOf(t, off, trail);
  }

  lemma TextStart(t: string, mark: bool, lead: string, c: Cst, trail: string, parse: Parse)
    requires Holds(t, mark, lead, c, trail) && WellFormed(c, parse)
    ensures StartOf(t) == |Bom(mark)|
  {
    if mark {
      assert t[0] == '\U{FEFF}';
    } else {
      assert t == lead + (Render(c) + trail);
      StartsPlain(c, lead, trail, parse);
    }
  }

  lemma StartsPlain(c: Cst, lead: string, trail: string, parse: Parse)
    requires WellFormed(c, parse) && AllWs(lead)
    ensures Render(c) != "" && (lead + (Render(c) + trail))[0] != '\U{FEFF}'
  {
    RenderStarts(c, parse);
    assert (lead + (Render(c) + trail))[0] == if lead != "" then lead[0] else Render(c)[0];
  }

  lemma FullWalkIs(t: string, mark: bool, lead: string, c: Cst, trail: string, parse: Parse)
    requires Holds(t, mark, lead, c, trail) && WellFormed(c, parse)
    ensures FullWalk(t, parse) == At(|Bom(mark)| + |lead| + |Render(c)|, Nodes(c, "", |Bom(mark)| + |lead|, None, parse))
  {
    hide Holds, Walk, Nodes, Render, WellFormed, Reads, Bom, TokenEnds, StartOf, AllWs;
    LeadWs(t, mark, lead, c, trail);
    TextParts(t, mark, lead, c, trail, parse);
    WalkAfterWs(t, StartOf(t), lead, "", None, parse);
    WalkRender(t, StartOf(t) + |lead|, c, "", None, parse);
  }

  // ---------------------------------------------------------------- maps

  lemma {:induction false} MapOfMeans(es: seq<Entry>)
    requires DistinctPtrs(es)
    ensures forall i :: 0 <= i < |es| ==> es[i].ptr in MapOf(es) && MapOf(es)[es[i].ptr] == es[i]
    ensures forall p :: p in MapOf(es) ==> exists i :: 0 <= i < |es| && es[i].ptr == p
    decreases |es|
  {
    if es != [] {
      var init := es[..|es| - 1];
      MapOfMeans(init);
      assert forall i :: 0 <= i < |init| ==> init[i] == es[i];
    }
  }

  lemma {:induction false} WantedMeans(es: seq<Entry>, wanted: set<string>)
    requires DistinctPtrs(es)
    ensures forall e :: e in Wanted(es, wanted) <==> e in es && e.ptr in wanted
    ensures DistinctPtrs(Wanted(es, wanted))
    decreases |es|
  {
    if es != [] {
      var rest := es[1..];
      assert es == [es[0]] + rest;
      WantedMeans(rest, wanted);
      var more := Wanted(rest, wanted);
      if es[0].ptr in wanted {
        forall j | 0 <= j < |more| ensures more[j].ptr != es[0].ptr {
          assert more[j] in rest;
          var k :| 0 <= k < |rest| && rest[k] == more[j];
          assert es[k + 1] == more[j];
        }
      }
    }
  }

  /** Distinct wanted entries are no more than the wanted pointers. */
  lemma {:induction false} WantedCount(es: seq<Entry>, wanted: set<string>)
    requires DistinctPtrs(es) && forall i :: 0 <= i < |es| ==> es[i].ptr in wanted
    ensures |es| <= |wanted|
    decreases |es|
  {
    if es != [] {
      var init, last := es[..|es| - 1], es[|es| - 1];
      WantedCount(init, wanted - {last.ptr});
    }
  }

  /**
   The full map holds exactly the JSON pointers of the document, and each span is the source
   text of the value its pointer names.
   */
  lemma FullMapExact(t: string, mark: bool, lead: string, c: Cst, trail: string, parse: Parse)
    requires Holds(t, mark, lead, c, trail) && WellFormed(c, parse) && Unique(c, parse)
    ensures FullWalk(t, parse).At?
    ensures var m := MapOf(FullWalk(t, parse).es);
            && (forall p :: p in m ==> Named(c, "", p, parse))
            && (forall path, v :: Leads(c, path, v, parse) ==> Spans(t, m, PointerText(path), v))
  {
    hide Leads, Nodes, Reads, Render, PointerText, WellFormed, Holds, MapOf, Bom, TokenEnds, StartOf, Unique, DistinctPtrs, FullWalk, Spans, Named, NamesValue;
    FullWalkIs(t, mark, lead, c, trail, parse);
    TextParts(t, mark, lead, c, trail, parse);
    var off := |Bom(mark)| + |lead|;
    var es := Nodes(c, "", off, None, parse);
    NodesDistinct(c, "", off, None, parse);
    MapOfMeans(es);
    var m := MapOf(es);
    forall p | p in m ensures Named(c, "", p, parse) {
      var i: nat :| 0 <= i < |es| && es[i].ptr == p;
      NodesSound(t, c, "", off, None, i, parse);
      NamedEntry(t, c, es[i], parse);
    }
    forall path, v | Leads(c, path, v, parse) ensures Spans(t, m, PointerText(path), v) {
      NodesComplete(t, c, "", off, None, path, v, parse);
      assert "" + PointerText(path) == PointerText(path);
      SpanInMap(t, es, PointerText(path), v);
    }
  }

  /**
   With member names repeated, the map still holds exactly the JSON pointers of the document; each entry spans
   a value its pointer names, the last one in the text.
   */
  lemma FullMapLast(t: string, mark: bool, lead: string, c: Cst, trail: string, parse: Parse)
    requires Holds(t, mark, lead, c, trail) && WellFormed(c, parse)
    ensures FullWalk(t, parse).At?
    ensures var es := FullWalk(t, parse).es; var m := MapOf(es);
            && (forall p :: p in m <==> Named(c, "", p, parse))
            && (forall p :: p in m ==> NamesValue(t, c, "", m[p], parse))
            && (forall path, v :: Leads(c, path, v, parse) ==> HasEntry(t, es, PointerText(path), v))
            && (forall e :: e in es ==> e.ptr in m && e.start <= m[e.ptr].start)
  {
    hide Leads, Nodes, Reads, Render, PointerText, WellFormed, Holds, MapOf, Bom, TokenEnds, StartOf, Ordered, Between, FullWalk, NamesValue;
    FullWalkIs(t, mark, lead, c, trail, parse);
    TextParts(t, mark, lead, c, trail, parse);
    var off := |Bom(mark)| + |lead|;
    var es := Nodes(c, "", off, None, parse);
    var m := MapOf(es);
    NodesOrdered(c, "", off, None, parse);
    MapOfLast(es);
    forall e | e in es ensures NamesValue(t, c, "", e, parse) {
      var i :| 0 <= i < |es| && es[i] == e;
      NodesSound(t, c, "", off, None, i, parse);
    }
    forall path, v | Leads(c, path, v, parse) ensures HasEntry(t, es, PointerText(path), v) {
      NodesComplete(t, c, "", off, None, path, v, parse);
      assert "" + PointerText(path) == PointerText(path);
    }
    forall p ensures p in m <==> Named(c, "", p, parse) {
      if p in m { NamedEntry(t, c, m[p], parse); }
      if Named(c, "", p, parse) { NamedInMap(t, c, es, p, parse); }
    }
  }

  lemma NamedEntry(t: string, c: Cst, e: Entry, parse: Parse)
    requires NamesValue(t, c, "", e, parse)
    ensures Named(c, "", e.ptr, parse)
  {
    hide Leads, PointerText, Reads, Render;
    var path, v :| NamesAt(t, c, "", e, path, v, parse);
    assert Leads(c, path, v, parse);
  }

  lemma NamedInMap(t: string, c: Cst, es: seq<Entry>, p: string, parse: Parse)
    requires Named(c, "", p, parse) && (forall path, v :: Leads(c, path, v, parse) ==> HasEntry(t, es, PointerText(path), v))
    requires forall i :: 0 <= i < |es| ==> es[i].ptr in MapOf(es)
    ensures p in MapOf(es)
  {
    hide Leads, PointerText, Reads, Render, MapOf, HasEntry;
    var path, v :| Leads(c, path, v, parse) && p == "" + PointerText(path);
    assert "" + PointerText(path) == PointerText(path);
    EntryInMap(t, es, PointerText(path), v);
  }

  lemma EntryInMap(t: string, es: seq<Entry>, p: string, v: Cst)
    requires HasEntry(t, es, p, v) && forall i :: 0 <= i < |es| ==> es[i].ptr in MapOf(es)
    ensures p in MapOf(es)
  {
    hide Reads, Render, MapOf;
  }

  /** The map has an entry under the pointer, and its span is the value's source text. */
  ghost predicate Spans(t: string, m: map<string, Entry>, p: string, v: Cst) {
    p in m && m[p].len == |Render(v)| && Reads(t, m[p].start, Render(v))
  }

  lemma SpanInMap(t: string, es: seq<Entry>, p: string, v: Cst)
    requires DistinctPtrs(es) && HasEntry(t, es, p, v)
    ensures Spans(t, MapOf(es), p, v)
  {
    MapOfMeans(es);
    var j :| 0 <= j < |es| && es[j].ptr == p && es[j].len == |Render(v)| && Reads(t, es[j].start, Render(v));
  }

  /**
   For every wanted pointer the targeted map gives the entry the full map gives, none for one the
   document does not have, and nothing else, although it skips subtrees and stops early.
   */
  lemma TargetedAgrees(t: string, mark: bool, lead: string, c: Cst, trail: string, wanted: set<string>, parse: Parse)
    requires Holds(t, mark, lead, c, trail) && WellFormed(c, parse) && Unique(c, parse) && wanted != {}
    ensures FullWalk(t, parse).At? && TargetedWalk(t, wanted, parse).TAt?
    ensures var full, part := MapOf(FullWalk(t, parse).es), MapOf(TargetedWalk(t, wanted, parse).es);
            && (forall p :: p in part <==> p in full && p in wanted)
            && (forall p :: p in part ==> part[p] == full[p])
  {
    hide Nodes, Reads, Render, Interesting, WellFormed, Holds, Unique, TokenEnds, Bom, Walk, TWalk, MapOf, DistinctPtrs, AllWs, StartOf;
    assert AllWs(lead) by { LeadWs(t, mark, lead, c, trail); }
    FullWalkIs(t, mark, lead, c, trail, parse);
    TextParts(t, mark, lead, c, trail, parse);
    var off := |Bom(mark)| + |lead|;
    var es := Nodes(c, "", off, None, parse);
    var ws := Wanted(es, wanted);
    NodesDistinct(c, "", off, None, parse);
    WantedMeans(es, wanted);
    forall i | 0 <= i < |ws| ensures ws[i].ptr in wanted { assert ws[i] in ws; }
    WantedCount(ws, wanted);
    TWalkAfterWs(t, StartOf(t), lead, "", None, |wanted|, wanted, parse);
    TWalkRender(t, off, c, "", None, |wanted|, wanted, parse);
    assert TargetedWalk(t, wanted, parse).es == ws;
    MapOfMeans(es);
    MapOfMeans(ws);
    SameMaps(es, ws, wanted);
  }

  lemma LeadWs(t: string, mark: bool, lead: string, c: Cst, trail: string)
    requires Holds(t, mark, lead, c, trail)
    ensures AllWs(lead)
  {
  }

  lemma SameMaps(es: seq<Entry>, ws: seq<Entry>, wanted: set<string>)
    requires DistinctPtrs(es) && DistinctPtrs(ws) && forall e :: e in ws <==> e in es && e.ptr in wanted
    ensures forall p :: p in MapOf(ws) <==> p in MapOf(es) && p in wanted
    ensures forall p :: p in MapOf(ws) ==> MapOf(ws)[p] == MapOf(es)[p]
  {
    MapOfMeans(es);
    MapOfMeans(ws);
    forall p | p in MapOf(ws) ensures p in MapOf(es) && p in wanted && MapOf(ws)[p] == MapOf(es)[p] {
      var i :| 0 <= i < |ws| && ws[i].ptr == p;
      assert ws[i] in es;
      var j :| 0 <= j < |es| && es[j] == ws[i];
    }
    forall p | p in MapOf(es) && p in wanted ensures p in MapOf(ws) {
      var i :| 0 <= i < |es| && es[i].ptr == p;
      assert es[i] in ws;
      var j :| 0 <= j < |ws| && ws[j] == es[i];
    }
  }
}
