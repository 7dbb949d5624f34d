/**
 What the generated defaults pass costs when every reference is written out: lines, the lines written
 when the last block is entered, and characters of defaults. The emitter declines by these.
 */
module DefaultsCost {
  import opened Json
  import opened SchemaGraph

  const MAX_LINES: nat := 4000
  const MAX_BYTES: nat := 262144

  /** Which keys are additional depends on patterns, and a default depends on which keys are additional. */
  ghost predicate NeedsPatterns(g: Graph, n: NodeId)
    requires n in g
  {
    g[n].patterns != [] && ((exists i :: 0 <= i < |g[n].patterns| && SlotReaches(g, g[n].patterns[i].slot)) || SlotReaches(g, g[n].additional))
  }

  function SlotDefault(g: Graph, s: Slot): Option<Doc> {
    if s.Some? && s.value in g then g[s.value].dflt else None
  }

  // ---------------------------------------------------------------- pieces of a block

  /** Lines of text with so many characters of defaults in them, or the block for a place between its own lines. */
  datatype Piece = Text(lines: nat, bytes: nat) | Block(slot: Slot, before: nat, after: nat)

  /** Each default, then the block entered through the property. */
  function PropPieces(g: Graph, ps: seq<Property>, width: Doc -> nat): seq<Piece> {
    if ps == [] then []
    else
      var init, s := PropPieces(g, ps[..|ps| - 1], width), ps[|ps| - 1].slot;
      init + (if SlotDefault(g, s).Some? then [Text(1, width(SlotDefault(g, s).value))] else []) + [Block(s, 1, 1)]
  }

  function Blocks(slots: seq<Slot>, before: nat, after: nat): seq<Piece> {
    seq(|slots|, i requires 0 <= i < |slots| => Block(slots[i], before, after))
  }

  ghost predicate AnyReaches(g: Graph, slots: seq<Slot>) {
    exists i :: 0 <= i < |slots| && SlotReaches(g, slots[i])
  }

  /** The test for an array around its elements' blocks, when one of them is written. */
  ghost function ArrayPieces(g: Graph, s: Node): seq<Piece> {
    if AnyReaches(g, s.prefixItems) || SlotReaches(g, s.items) then
      [Text(1, 0)] + Blocks(s.prefixItems, 2, 1) + [Block(s.items, 2, 1)] + [Text(1, 0)]
    else []
  }

  function MorePieces(s: Node): seq<Piece> {
    [Block(s.additional, if s.props != [] then 3 else 2, 2)] + [Block(s.ref, 0, 0)] + Blocks(s.allOf, 0, 0)
  }

  ghost function Pieces(g: Graph, n: NodeId, width: Doc -> nat): seq<Piece>
    requires n in g
  {
    PropPieces(g, g[n].props, width) + ArrayPieces(g, g[n]) + MorePieces(g[n])
  }

  // ---------------------------------------------------------------- cost

  /** `last` is the number of lines in front of the last block entered, or -1 without one. */
  datatype Cost = Endless | Cost(lines: nat, last: int, bytes: nat)

  /** A last entry is within the lines. */
  type Bill = c: Cost | c.Cost? ==> -1 <= c.last <= c.lines witness Endless

  const FREE: Bill := Cost(0, -1, 0)

  function Plus(a: Bill, b: Bill): Bill {
    if a.Endless? || b.Endless? then Endless
    else Cost(a.lines + b.lines, if b.last < 0 then a.last else a.lines + b.last, a.bytes + b.bytes)
  }

  /** The block of a schema object under the schemas in `seen`; without end where it comes back to one, or needs a pattern. */
  ghost function NodeCost(g: Graph, n: NodeId, seen: set<NodeId>, width: Doc -> nat): Bill
    decreases |g.Keys - seen|, 2, 0
  {
    if n !in g || n in seen || NeedsPatterns(g, n) then Endless
    else
      SeenGrows(g, n, seen);
      Plus(Cost(1, 0, 0), PiecesCost(g, Pieces(g, n, width), seen + {n}, width))
  }

  ghost function PiecesCost(g: Graph, ps: seq<Piece>, seen: set<NodeId>, width: Doc -> nat): Bill
    decreases |g.Keys - seen|, 4, |ps|
  {
    if ps == [] then FREE else Plus(PiecesCost(g, ps[..|ps| - 1], seen, width), PieceCost(g, ps[|ps| - 1], seen, width))
  }

  ghost function PieceCost(g: Graph, p: Piece, seen: set<NodeId>, width: Doc -> nat): Bill
    decreases |g.Keys - seen|, 3, 0
  {
    match p
    case Text(lines, bytes) => Cost(lines, -1, bytes)
    case Block(s, before, after) =>
      if SlotReaches(g, s) then Plus(Plus(Cost(before, -1, 0), NodeCost(g, s.value, seen, width)), Cost(after, -1, 0)) else FREE
  }

  lemma SeenGrows(g: Graph, n: NodeId, seen: set<NodeId>)
    requires n in g && n !in seen
    ensures |g.Keys - (seen + {n})| < |g.Keys - seen|
  {
    assert n in g.Keys - seen;
    Shrinks(g.Keys - (seen + {n}), g.Keys - seen);
  }

  /** Whether that much can still be written: no block is entered past the bound on lines, and no default past the other. */
  predicate Fits(c: Cost, lines: nat, bytes: nat) {
    c.Cost? && (c.last >= 0 ==> lines + c.last <= MAX_LINES) && bytes + c.bytes <= MAX_BYTES
  }

  /** From so many lines and characters the bill was paid, or declined because it did not fit. */
  predicate Spent(c: Bill, lines0: nat, bytes0: nat, declined: bool, lines: nat, bytes: nat) {
    (!declined <==> Fits(c, lines0, bytes0)) && (!declined ==> lines == lines0 + c.lines && bytes == bytes0 + c.bytes)
  }

  /** One bill after another is the bill for both. */
  lemma SpentBoth(a: Bill, b: Bill, lines0: nat, bytes0: nat, declined1: bool, lines1: nat, bytes1: nat, declined2: bool, lines2: nat, bytes2: nat)
    requires Spent(a, lines0, bytes0, declined1, lines1, bytes1) && (declined1 ==> declined2)
    requires !declined1 ==> Spent(b, lines1, bytes1, declined2, lines2, bytes2)
    ensures Spent(Plus(a, b), lines0, bytes0, declined2, lines2, bytes2)
  {
    FitsPlus(a, b, lines0, bytes0);
  }

  lemma FitsPlus(a: Bill, b: Bill, lines: nat, bytes: nat)
    ensures Fits(Plus(a, b), lines, bytes) <==> Fits(a, lines, bytes) && Fits(b, lines + a.lines, bytes + a.bytes)
  {
  }

  lemma PlusChains(a: Bill, b: Bill, c: Bill)
    ensures Plus(Plus(a, b), c) == Plus(a, Plus(b, c)) && Plus(a, FREE) == a && Plus(FREE, a) == a
  {
  }

  lemma {:induction false} PiecesConcat(g: Graph, ps: seq<Piece>, qs: seq<Piece>, seen: set<NodeId>, width: Doc -> nat)
    ensures PiecesCost(g, ps + qs, seen, width) == Plus(PiecesCost(g, ps, seen, width), PiecesCost(g, qs, seen, width))
    decreases |qs|
  {
    hide PieceCost, Plus;
    if qs == [] {
      assert ps + qs == ps;
      PlusChains(PiecesCost(g, ps, seen, width), FREE, FREE);
    } else {
      var init, last := qs[..|qs| - 1], qs[|qs| - 1];
      assert (ps + qs)[..|ps + qs| - 1] == ps + init;
      PiecesConcat(g, ps, init, seen, width);
      PlusChains(PiecesCost(g, ps, seen, width), PiecesCost(g, init, seen, width), PieceCost(g, last, seen, width));
    }
  }

  lemma PiecesOne(g: Graph, p: Piece, seen: set<NodeId>, width: Doc -> nat)
    ensures PiecesCost(g, [p], seen, width) == PieceCost(g, p, seen, width)
  {
    hide PieceCost;
    assert [p][..0] == [];
    PlusChains(PieceCost(g, p, seen, width), FREE, FREE);
  }

  function DefaultCost(d: Option<Doc>, width: Doc -> nat): Bill {
    if d.Some? then Cost(1, -1, width(d.value)) else FREE
  }

  lemma NothingSpent(lines: nat, bytes: nat, declined: bool)
    requires !declined ==> bytes <= MAX_BYTES
    ensures !declined ==> Spent(FREE, lines, bytes, false, lines, bytes)
  {
  }

  lemma NoPieces(g: Graph, seen: set<NodeId>, width: Doc -> nat)
    ensures PiecesCost(g, [], seen, width) == FREE
  {
  }

  lemma OneLine(lines: nat, bytes: nat)
    ensures Spent(Cost(1, -1, 0), lines, bytes, bytes > MAX_BYTES, lines + 1, bytes)
  {
  }

  lemma NeverFits(lines0: nat, bytes0: nat, lines: nat, bytes: nat)
    ensures Spent(Endless, lines0, bytes0, true, lines, bytes)
  {
  }

  lemma DefaultSpent(d: Option<Doc>, width: Doc -> nat, declined: bool, lines: nat, bytes: nat)
    requires !declined ==> bytes <= MAX_BYTES
    ensures var w := if d.Some? then width(d.value) else 0;
            !declined ==> Spent(DefaultCost(d, width), lines, bytes, d.Some? && bytes + w > MAX_BYTES, if d.Some? then lines + 1 else lines, bytes + w)
  {
  }

  ghost function StepCost(g: Graph, p: Property, seen: set<NodeId>, width: Doc -> nat): Bill {
    Plus(DefaultCost(SlotDefault(g, p.slot), width), PieceCost(g, Block(p.slot, 1, 1), seen, width))
  }

  /** One more property: its default, then its block. */
  lemma PropCost(g: Graph, ps: seq<Property>, i: nat, seen: set<NodeId>, width: Doc -> nat)
    requires i < |ps|
    ensures PiecesCost(g, PropPieces(g, ps[..i + 1], width), seen, width)
         == Plus(PiecesCost(g, PropPieces(g, ps[..i], width), seen, width), StepCost(g, ps[i], seen, width))
  {
    hide NodeCost;
    assert ps[..i + 1][..i] == ps[..i];
    var init, s := PropPieces(g, ps[..i], width), ps[i].slot;
    var own := if SlotDefault(g, s).Some? then [Text(1, width(SlotDefault(g, s).value))] else [];
    PiecesConcat(g, init + own, [Block(s, 1, 1)], seen, width);
    PiecesConcat(g, init, own, seen, width);
    PiecesOne(g, Block(s, 1, 1), seen, width);
    if own != [] { PiecesOne(g, own[0], seen, width); }
    PlusChains(PiecesCost(g, init, seen, width), DefaultCost(SlotDefault(g, s), width), PieceCost(g, Block(s, 1, 1), seen, width));
  }

  lemma ArrayCost(g: Graph, node: Node, seen: set<NodeId>, width: Doc -> nat)
    requires AnyReaches(g, node.prefixItems) || SlotReaches(g, node.items)
    ensures PiecesCost(g, ArrayPieces(g, node), seen, width)
         == Plus(Plus(Plus(Cost(1, -1, 0), PiecesCost(g, Blocks(node.prefixItems, 2, 1), seen, width)), PieceCost(g, Block(node.items, 2, 1), seen, width)), Cost(1, -1, 0))
  {
    hide NodeCost, PiecesCost, Blocks, AnyReaches, SlotReaches, Plus;
    var t, b, i := [Text(1, 0)], Blocks(node.prefixItems, 2, 1), [Block(node.items, 2, 1)];
    PiecesConcat(g, t, b, seen, width);
    PiecesConcat(g, t + b, i, seen, width);
    PiecesConcat(g, t + b + i, t, seen, width);
    PiecesOne(g, t[0], seen, width);
    PiecesOne(g, i[0], seen, width);
  }

  lemma MoreCost(g: Graph, node: Node, seen: set<NodeId>, width: Doc -> nat)
    ensures PiecesCost(g, MorePieces(node), seen, width)
         == Plus(Plus(PieceCost(g, Block(node.additional, if node.props != [] then 3 else 2, 2), seen, width), PieceCost(g, Block(node.ref, 0, 0), seen, width)),
                 PiecesCost(g, Blocks(node.allOf, 0, 0), seen, width))
  {
    hide PieceCost, PiecesCost, Blocks, Plus;
    var e, f, m := [Block(node.additional, if node.props != [] then 3 else 2, 2)], [Block(node.ref, 0, 0)], Blocks(node.allOf, 0, 0);
    PiecesConcat(g, e + f, m, seen, width);
    PiecesConcat(g, e, f, seen, width);
    PiecesOne(g, e[0], seen, width);
    PiecesOne(g, f[0], seen, width);
  }

  // ---------------------------------------------------------------- when there is no end

  /** One block is written inside another. */
  ghost predicate Opens(g: Graph, a: NodeId, b: NodeId, width: Doc -> nat) {
    a in g && Reaches(g, b) && exists i :: 0 <= i < |Pieces(g, a, width)| && Pieces(g, a, width)[i].Block? && Pieces(g, a, width)[i].slot == Some(b)
  }

  ghost predicate Nested(g: Graph, chain: seq<NodeId>, width: Doc -> nat) {
    chain != [] && forall i, j :: 0 <= i && j == i + 1 && j < |chain| ==> Opens(g, chain[i], chain[j], width)
  }

  /** The chain of blocks ends at one that cannot be written: not there, in need of a pattern, or one of those around it. */
  ghost predicate Stuck(g: Graph, chain: seq<NodeId>, seen: set<NodeId>)
    requires chain != []
  {
    var n := chain[|chain| - 1];
    n !in g || NeedsPatterns(g, n) || n in seen || n in chain[..|chain| - 1]
  }

  lemma {:induction false} EndlessPiece(g: Graph, ps: seq<Piece>, seen: set<NodeId>, width: Doc -> nat)
    ensures PiecesCost(g, ps, seen, width).Endless? <==>
            exists i :: 0 <= i < |ps| && ps[i].Block? && SlotReaches(g, ps[i].slot) && NodeCost(g, ps[i].slot.value, seen, width).Endless?
    decreases |ps|
  {
    hide NodeCost, SlotReaches;
    if ps != [] { EndlessPiece(g, ps[..|ps| - 1], seen, width); }
  }

  /**
   Written out in full a block has no end exactly when some chain of blocks in blocks comes back to one
   of them, or comes to a schema that needs a pattern.
   */
  lemma {:induction false} EndlessIff(g: Graph, n: NodeId, seen: set<NodeId>, width: Doc -> nat)
    ensures NodeCost(g, n, seen, width).Endless? <==> exists chain :: Nested(g, chain, width) && chain[0] == n && Stuck(g, chain, seen)
    decreases |g.Keys - seen|
  {
    if n !in g || n in seen || NeedsPatterns(g, n) {
      assert Nested(g, [n], width) && [n][0] == n && Stuck(g, [n], seen);
    } else {
      SeenGrows(g, n, seen);
      var ps := Pieces(g, n, width);
      EndlessPiece(g, ps, seen + {n}, width);
      forall i | 0 <= i < |ps| && ps[i].Block? && SlotReaches(g, ps[i].slot)
        ensures NodeCost(g, ps[i].slot.value, seen + {n}, width).Endless? <==>
                exists chain :: Nested(g, chain, width) && chain[0] == ps[i].slot.value && Stuck(g, chain, seen + {n})
      {
        EndlessIff(g, ps[i].slot.value, seen + {n}, width);
      }
      if i :| 0 <= i < |ps| && ps[i].Block? && SlotReaches(g, ps[i].slot) && NodeCost(g, ps[i].slot.value, seen + {n}, width).Endless? {
        var chain :| Nested(g, chain, width) && chain[0] == ps[i].slot.value && Stuck(g, chain, seen + {n});
        Around(g, n, chain, seen, width);
      }
      if chain :| Nested(g, chain, width) && chain[0] == n && Stuck(g, chain, seen) {
        Inside(g, n, chain, seen, width);
      }
    }
  }

  lemma Around(g: Graph, n: NodeId, chain: seq<NodeId>, seen: set<NodeId>, width: Doc -> nat)
    requires Nested(g, chain, width) && Stuck(g, chain, seen + {n}) && Opens(g, n, chain[0], width)
    ensures Nested(g, [n] + chain, width) && ([n] + chain)[0] == n && Stuck(g, [n] + chain, seen)
  {
    hide Opens, NeedsPatterns;
    var more := [n] + chain;
    forall i, j | 0 <= i && j == i + 1 && j < |more| ensures Opens(g, more[i], more[j], width) {
      if i > 0 { assert Opens(g, chain[i - 1], chain[j - 1], width); }
    }
    assert more[..|more| - 1] == [n] + chain[..|chain| - 1];
  }

  lemma Inside(g: Graph, n: NodeId, chain: seq<NodeId>, seen: set<NodeId>, width: Doc -> nat)
    requires n in g && n !in seen && !NeedsPatterns(g, n)
    requires Nested(g, chain, width) && chain[0] == n && Stuck(g, chain, seen)
    ensures |chain| > 1 && Nested(g, chain[1..], width) && Stuck(g, chain[1..], seen + {n}) && Opens(g, n, chain[1], width)
  {
    hide Opens, NeedsPatterns;
    var rest := chain[1..];
    assert chain == [n] + rest;
    if rest != [] { assert chain[..|chain| - 1] == [n] + rest[..|rest| - 1]; }
  }
}
