/** The native walk's own reading of references (binding/ata_napi.cpp:330-436): which subschemas a pointer reaches. */
module NativePointer {
  import opened Json
  import opened NativeWalk
  import PositionWalk

  // ---------------------------------------------------------------- paths and their pointers

  datatype Step =
    | Property(k: string) | Def(k: string) | Definition(k: string) | InAllOf(i: nat) | InAnyOf(i: nat) | InOneOf(i: nat) | InPrefix(i: nat)
    | Items | Not | If | Then | Else | Additional

  /** The subschema one step below. */
  function Sub(n: Node, s: Step): OptNode {
    match s
    case Property(k) => if k in n.properties then Yes(n.properties[k]) else NoNode
    case Def(k) => if k in n.defs then Yes(n.defs[k]) else NoNode
    case Definition(k) => if k in n.defs then Yes(n.defs[k]) else NoNode
    case InAllOf(i) => At(n.allOf, i)
    case InAnyOf(i) => At(n.anyOf, i)
    case InOneOf(i) => At(n.oneOf, i)
    case InPrefix(i) => At(n.prefixItems, i)
    case Items => n.items
    case Not => n.no
    case If => n.cond
    case Then => n.yes
    case Else => n.otherwise
    case Additional => n.additionalSchema
  }

  function Follow(n: Node, steps: seq<Step>): OptNode
    decreases |steps|
  {
    if steps == [] then Yes(n)
    else match Sub(n, steps[0]) case NoNode => NoNode case Yes(m) => Follow(m, steps[1..])
  }

  /** The reference tokens of a step. */
  function Tokens(s: Step): (r: seq<string>)
    ensures 1 <= |r| <= 2 && r[0] != ""
  {
    match s
    case Property(k) => ["properties", k]
    case Def(k) => ["$defs", k]
    case Definition(k) => ["definitions", k]
    case InAllOf(i) => ["allOf", PositionWalk.NatText(i)]
    case InAnyOf(i) => ["anyOf", PositionWalk.NatText(i)]
    case InOneOf(i) => ["oneOf", PositionWalk.NatText(i)]
    case InPrefix(i) => ["prefixItems", PositionWalk.NatText(i)]
    case Items => ["items"]
    case Not => ["not"]
    case If => ["if"]
    case Then => ["then"]
    case Else => ["else"]
    case Additional => ["additionalProperties"]
  }

  function AllTokens(steps: seq<Step>): seq<string> {
    if steps == [] then [] else Tokens(steps[0]) + AllTokens(steps[1..])
  }

  /** A token as section 3 of RFC 6901 escapes it, and a percent sign as a URI fragment does. */
  function Escaped(s: string): string {
    if s == "" then ""
    else (match s[0] case '~' => "~0" case '/' => "~1" case '%' => "%25" case c => [c]) + Escaped(s[1..])
  }

  function Joined(tokens: seq<string>): string {
    if tokens == [] then ""
    else if |tokens| == 1 then Escaped(tokens[0])
    else Escaped(tokens[0]) + "/" + Joined(tokens[1..])
  }

  /** The reference to the subschema at the end of a path. */
  function PointerTo(steps: seq<Step>): string { "#/" + Joined(AllTokens(steps)) }

  // ---------------------------------------------------------------- tokens read back

  function TildesEscaped(s: string): string {
    if s == "" then "" else (match s[0] case '~' => "~0" case '/' => "~1" case c => [c]) + TildesEscaped(s[1..])
  }

  lemma PercentPlain(c: char, s: string)
    requires c != '%'
    ensures PercentDecoded([c] + s) == [c] + PercentDecoded(s)
  {
    var t := [c] + s;
    assert t[1..] == s && t[..1] == [c];
  }

  lemma PercentEscape(s: string)
    ensures PercentDecoded("%25" + s) == "%" + PercentDecoded(s)
  {
    var t := "%25" + s;
    assert t[0] == '%' && t[1] == '2' && t[2] == '5' && t[3..] == s;
    assert (16 * HexDigit('2') + HexDigit('5')) as char == '%';
  }

  lemma {:induction false} PercentBack(s: string)
    ensures PercentDecoded(Escaped(s)) == TildesEscaped(s) && '/' !in Escaped(s) && (Escaped(s) == "" <==> s == "")
    decreases |s|
  {
    hide PercentDecoded;
    if s == "" {
      NothingDecoded();
    } else {
      PercentBack(s[1..]);
      var rest := Escaped(s[1..]);
      match s[0]
      case '%' => PercentEscape(rest);
      case '~' => EscapedTilde('0', rest);
      case '/' => EscapedTilde('1', rest);
      case c => PercentPlain(c, rest);
    }
  }

  lemma NothingDecoded()
    ensures PercentDecoded("") == ""
  {
  }

  lemma EscapedTilde(c: char, s: string)
    requires c != '%'
    ensures PercentDecoded(['~', c] + s) == ['~', c] + PercentDecoded(s)
  {
    hide PercentDecoded;
    assert ['~', c] + s == ['~'] + ([c] + s);
    PercentPlain('~', [c] + s);
    PercentPlain(c, s);
    assert ['~'] + ([c] + PercentDecoded(s)) == ['~', c] + PercentDecoded(s);
  }

  lemma {:induction false} TildesBack(s: string)
    ensures TildeDecoded(TildesEscaped(s)) == s
    decreases |s|
  {
    if s != "" {
      TildesBack(s[1..]);
      var e, rest := TildesEscaped(s), TildesEscaped(s[1..]);
      assert s == [s[0]] + s[1..];
      if s[0] == '~' || s[0] == '/' { assert e[2..] == rest; } else { assert e[1..] == rest && e[..1] == [s[0]]; }
    }
  }

  /** Escaping is undone, and an escaped token holds no slash. */
  lemma TokenBack(s: string)
    ensures TildeDecoded(PercentDecoded(Escaped(s))) == s && '/' !in Escaped(s) && (Escaped(s) == "" <==> s == "")
  {
    PercentBack(s);
    TildesBack(s);
  }

  /** The tokens a joined text is read back as: all of them, but for an empty last one. */
  function Kept(tokens: seq<string>): seq<string> {
    if tokens != [] && tokens[|tokens| - 1] == "" then tokens[..|tokens| - 1] else tokens
  }

  lemma {:induction false} SegmentsBack(tokens: seq<string>)
    ensures Segments(Joined(tokens)) == Kept(tokens)
    decreases |tokens|
  {
    hide TildeDecoded, PercentDecoded, Escaped;
    if tokens == [] {
    } else {
      var e := Escaped(tokens[0]);
      TokenBack(tokens[0]);
      if |tokens| == 1 {
        SlashAt(e, 0, |e|);
        assert e[..|e|] == e;
      } else {
        var rest := Joined(tokens[1..]);
        var t := e + "/" + rest;
        SegmentsBack(tokens[1..]);
        assert forall k :: 0 <= k < |e| ==> t[k] == e[k];
        SlashAt(t, 0, |e|);
        assert t[..|e|] == e && t[|e| + 1..] == rest;
        KeptFirst(tokens);
      }
    }
  }

  lemma KeptFirst(tokens: seq<string>)
    requires |tokens| > 1
    ensures Kept(tokens) == [tokens[0]] + Kept(tokens[1..])
  {
    assert tokens == [tokens[0]] + tokens[1..];
  }

  lemma {:induction false} SlashAt(s: string, i: nat, j: nat)
    requires i <= j <= |s| && (j < |s| ==> s[j] == '/') && forall k :: i <= k < j ==> s[k] != '/'
    ensures Slash(s, i) == j
    decreases j - i
  {
    if i < j { SlashAt(s, i + 1, j); }
  }

  // ---------------------------------------------------------------- what is reached

  ghost predicate ReadsIndices(c: Context) { forall i: nat :: c.index(PositionWalk.NatText(i)) == i }

  lemma StepTaken(c: Context, n: Node, s: Step, more: seq<string>)
    requires ReadsIndices(c) && Sub(n, s).Yes?
    ensures PointTo(c, n, Tokens(s) + more) == PointTo(c, Sub(n, s).node, more)
  {
    var segs := Tokens(s) + more;
    assert segs[0] == Tokens(s)[0] && segs[|Tokens(s)|..] == more;
    if |Tokens(s)| == 2 { assert segs[1] == Tokens(s)[1]; }
  }

  lemma {:induction false} Reaches(c: Context, n: Node, steps: seq<Step>)
    requires ReadsIndices(c) && Follow(n, steps).Yes?
    ensures PointTo(c, n, AllTokens(steps)) == Follow(n, steps)
    decreases |steps|
  {
    hide PointTo;
    if steps != [] {
      StepTaken(c, n, steps[0], AllTokens(steps[1..]));
      Reaches(c, Sub(n, steps[0]).node, steps[1..]);
    } else {
      NothingLeft(c, n);
    }
  }

  lemma NothingLeft(c: Context, n: Node)
    ensures PointTo(c, n, []) == Yes(n)
  {
  }

  /** Without its name, a keyword that takes one leads nowhere. */
  lemma {:induction false} NameMissing(c: Context, n: Node, steps: seq<Step>)
    requires ReadsIndices(c) && steps != [] && Follow(n, steps).Yes? && AllTokens(steps)[|AllTokens(steps)| - 1] == ""
    ensures PointTo(c, n, Kept(AllTokens(steps))) == NoNode
    decreases |steps|
  {
    hide PointTo;
    var s, all := steps[0], AllTokens(steps);
    if |steps| == 1 {
      assert steps[1..] == [] && all == Tokens(s) + [] && all == Tokens(s);
      assert |Tokens(s)| == 2 && Kept(all) == [Tokens(s)[0]];
      TakesName(s);
      OneLeft(c, n, Tokens(s)[0]);
    } else {
      var more := AllTokens(steps[1..]);
      assert more != [] && all[|all| - 1] == more[|more| - 1];
      assert Kept(all) == Tokens(s) + Kept(more);
      StepTaken(c, n, s, Kept(more));
      NameMissing(c, Sub(n, s).node, steps[1..]);
    }
  }

  lemma TakesName(s: Step)
    requires |Tokens(s)| == 2
    ensures Tokens(s)[0] in TAKES_NAME
  {
  }

  lemma OneLeft(c: Context, n: Node, key: string)
    requires key in TAKES_NAME
    ensures PointTo(c, n, [key]) == NoNode
  {
  }

  /**
   The pointer to a subschema, read back, leads to it exactly when its last token is not empty: a schema under
   a property or a definition named by the empty string is not found.
   */
  lemma PointerReaches(c: Context, steps: seq<Step>)
    requires ReadsIndices(c) && steps != [] && Follow(c.root, steps).Yes? && PointerTo(steps) !in c.defs
    ensures Resolve(c, PointerTo(steps)) == Follow(c.root, steps) <==> AllTokens(steps)[|AllTokens(steps)| - 1] != ""
    ensures Resolve(c, PointerTo(steps)) in [Follow(c.root, steps), NoNode]
  {
    hide Segments, Joined, Escaped, PointTo;
    var text, tokens := PointerTo(steps), AllTokens(steps);
    assert text[0] == '#' && text[1] == '/' && text[2..] == Joined(tokens);
    SegmentsBack(tokens);
    if tokens[|tokens| - 1] == "" { NameMissing(c, c.root, steps); } else { Reaches(c, c.root, steps); }
  }
}
