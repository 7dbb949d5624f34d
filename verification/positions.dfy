/**
 Where every value of a JSON text is (lib/data-positions.js): the full walk, the walk for a known
 set of pointers that skips and stops early, both as functions of the cursor. The methods that run
 them are in PositionRun.
 */
module PositionWalk {
  import opened Json

  /** What `JSON.parse` makes of a string token that holds an escape or a control character; None when it throws. */
  type Parse = string -> Option<string>

  predicate IsWs(c: char) { c == ' ' || c == '\t' || c == '\n' || c == '\r' }

  /** The characters that end a scalar token. */
  predicate IsDelimiter(c: char) { c == ',' || c == '}' || c == ']' || IsWs(c) }

  /** One recorded value; `key` is the token span of the member name it stands under. */
  datatype Entry = Entry(ptr: string, start: nat, len: nat, key: Option<(nat, nat)>)

  datatype Walked = Throw | At(i: nat, es: seq<Entry>)

  function SkipWs(t: string, i: nat): (r: nat)
    requires i <= |t|
    ensures i <= r <= |t| && (r < |t| ==> !IsWs(t[r]))
    decreases |t| - i
  {
    if i < |t| && IsWs(t[i]) then SkipWs(t, i + 1) else i
  }

  function SkipScalar(t: string, i: nat): (r: nat)
    requires i <= |t|
    ensures i <= r <= |t|
    decreases |t| - i
  {
    if i < |t| && !IsDelimiter(t[i]) then SkipScalar(t, i + 1) else i
  }

  datatype Scan = Unclosed | Closed(i: nat, simple: bool)

  /** Past the closing quote; a backslash takes the next character with it. */
  function ScanString(t: string, i: nat, simple: bool): (r: Scan)
    ensures r.Closed? ==> i < r.i <= |t|
    decreases |t| - i
  {
    if i >= |t| then Unclosed
    else if t[i] == '\\' then ScanString(t, i + 2, false)
    else if t[i] == '"' then Closed(i + 1, simple)
    else ScanString(t, i + 1, simple && t[i] >= ' ')
  }

  datatype Read = Bad | Good(i: nat, value: string)

  /** The string token at the cursor: sliced when plain, parsed (and possibly refused) otherwise. */
  function ReadString(t: string, i: nat, parse: Parse): (r: Read)
    requires i < |t|
    ensures r.Good? ==> i + 1 < r.i <= |t|
  {
    match ScanString(t, i + 1, t[i] == '"')
    case Unclosed => Bad
    case Closed(j, simple) =>
      if simple then Good(j, t[i + 1..j - 1])
      else if parse(t[i..j]).Some? then Good(j, parse(t[i..j]).value) else Bad
  }

  // ---------------------------------------------------------------- pointers

  function Replace(s: string, c: char, sub: string): string {
    if s == "" then "" else (if s[0] == c then sub else [s[0]]) + Replace(s[1..], c, sub)
  }

  /** Section 3 of RFC 6901: `~` is written `~0`, then `/` is written `~1`. */
  function Escape(k: string): string {
    if '~' !in k && '/' !in k then k else Replace(Replace(k, '~', "~0"), '/', "~1")
  }

  function NatText(n: nat): string {
    if n < 10 then [('0' as int + n) as char] else NatText(n / 10) + [('0' as int + n % 10) as char]
  }

  function Child(ptr: string, seg: string): string {
    ptr + "/" + seg
  }

  // ---------------------------------------------------------------- the full walk

  function Walk(t: string, i: nat, ptr: string, key: Option<(nat, nat)>, parse: Parse): (r: Walked)
    requires i <= |t|
    ensures r.At? ==> i <= r.i <= |t|
    decreases |t| - i, 2
  {
    var s := SkipWs(t, i);
    if s >= |t| then At(s, [])
    else
      var inner :=
        if t[s] == '{' then Members(t, s + 1, ptr, parse)
        else if t[s] == '[' then Items(t, s + 1, ptr, 0, parse)
        else if t[s] == '"' then (match ReadString(t, s, parse) case Bad => Throw case Good(j, _) => At(j, []))
        else At(SkipScalar(t, s), []);
      match inner
      case Throw => Throw
      case At(j, es) => At(j, es + [Entry(ptr, s, j - s, key)])
  }

  function Members(t: string, i: nat, ptr: string, parse: Parse): (r: Walked)
    requires i <= |t|
    ensures r.At? ==> i <= r.i <= |t|
    decreases |t| - i, 1
  {
    var s := SkipWs(t, i);
    if s >= |t| then At(s, [])
    else if t[s] == '}' then At(s + 1, [])
    else if t[s] == ',' then Members(t, s + 1, ptr, parse)
    else
      match ReadString(t, s, parse)
      case Bad => Throw
      case Good(j, name) =>
        var k := SkipWs(t, j);
        if k >= |t| || t[k] != ':' then Throw
        else
          match Walk(t, k + 1, Child(ptr, Escape(name)), Some((s, j - s)), parse)
          case Throw => Throw
          case At(m, es) =>
            match Members(t, m, ptr, parse)
            case Throw => Throw
            case At(e, rest) => At(e, es + rest)
  }

  /** A character that begins no value leaves the cursor where it was, and the loop ends there. */
  function Items(t: string, i: nat, ptr: string, idx: nat, parse: Parse): (r: Walked)
    requires i <= |t|
    ensures r.At? ==> i <= r.i <= |t|
    decreases |t| - i, 3
  {
    var s := SkipWs(t, i);
    if s >= |t| then At(s, [])
    else if t[s] == ']' then At(s + 1, [])
    else if t[s] == ',' then Items(t, s + 1, ptr, idx, parse)
    else
      match Walk(t, s, Child(ptr, NatText(idx)), None, parse)
      case Throw => Throw
      case At(m, es) =>
        if m == s then At(m, es)
        else
          match Items(t, m, ptr, idx + 1, parse)
          case Throw => Throw
          case At(e, rest) => At(e, es + rest)
  }

  function StartOf(t: string): nat {
    if t != "" && t[0] == '\U{FEFF}' then 1 else 0
  }

  // ---------------------------------------------------------------- the walk for known pointers

  /** A container is worth entering when a wanted pointer is it or is below it. */
  ghost predicate Interesting(p: string, wanted: set<string>) {
    p == "" || exists w :: w in wanted && IsPrefix(p, w)
  }

  predicate IsPrefix(p: string, w: string) {
    p == w || (0 < |p| < |w| && w[..|p|] == p && w[|p|] == '/')
  }

  datatype Skipped = SkipThrow | SkipAt(i: nat)

  /** Past one container, counting brackets; strings go through the string reader. */
  function SkipNested(t: string, i: nat, depth: nat, parse: Parse): (r: Skipped)
    requires i <= |t|
    ensures r.SkipAt? ==> i <= r.i <= |t|
    decreases |t| - i
  {
    if i >= |t| then SkipAt(i)
    else if t[i] == '"' then
      match ReadString(t, i, parse)
      case Bad => SkipThrow
      case Good(j, _) => SkipNested(t, j, depth, parse)
    else if t[i] == '{' || t[i] == '[' then SkipNested(t, i + 1, depth + 1, parse)
    else if t[i] == '}' || t[i] == ']' then
      if depth <= 1 then SkipAt(i + 1) else SkipNested(t, i + 1, depth - 1, parse)
    else SkipNested(t, i + 1, depth, parse)
  }

  function SkipValue(t: string, i: nat, parse: Parse): (r: Skipped)
    requires i <= |t|
    ensures r.SkipAt? ==> i <= r.i <= |t|
  {
    var s := SkipWs(t, i);
    if s >= |t| then SkipAt(s)
    else if t[s] == '"' then (match ReadString(t, s, parse) case Bad => SkipThrow case Good(j, _) => SkipAt(j))
    else if t[s] == '{' || t[s] == '[' then SkipNested(t, s, 0, parse)
    else SkipAt(SkipScalar(t, s))
  }

  /** `left` counts the wanted pointers not yet recorded; `stopped` tells a loop left by the early exit. */
  datatype Targeted = TThrow | TAt(i: nat, es: seq<Entry>, left: int, stopped: bool)

  ghost function TWalk(t: string, i: nat, ptr: string, key: Option<(nat, nat)>, left: int, wanted: set<string>, parse: Parse): (r: Targeted)
    requires i <= |t|
    ensures r.TAt? ==> i <= r.i <= |t|
    decreases |t| - i, 2
  {
    var s := SkipWs(t, i);
    if s >= |t| then TAt(s, [], left, false)
    else if !Interesting(ptr, wanted) then
      match SkipValue(t, s, parse)
      case SkipThrow => TThrow
      case SkipAt(j) => TAt(j, [], left, false)
    else
      match TInside(t, s, ptr, left, wanted, parse)
      case TThrow => TThrow
      case TAt(j, es, n, stopped) =>
        if stopped then TAt(j, es, n, false)
        else if ptr in wanted then TAt(j, es + [Entry(ptr, s, j - s, key)], n - 1, false)
        else TAt(j, es, n, false)
  }

  ghost function TInside(t: string, s: nat, ptr: string, left: int, wanted: set<string>, parse: Parse): (r: Targeted)
    requires s < |t|
    ensures r.TAt? ==> s <= r.i <= |t|
    decreases |t| - s, 1
  {
    if t[s] == '{' then TMembers(t, s + 1, ptr, left, wanted, parse)
    else if t[s] == '[' then TItems(t, s + 1, ptr, 0, left, wanted, parse)
    else if t[s] == '"' then (match ReadString(t, s, parse) case Bad => TThrow case Good(j, _) => TAt(j, [], left, false))
    else TAt(SkipScalar(t, s), [], left, false)
  }

  ghost function TMembers(t: string, i: nat, ptr: string, left: int, wanted: set<string>, parse: Parse): (r: Targeted)
    requires i <= |t|
    ensures r.TAt? ==> i <= r.i <= |t|
    decreases |t| - i, 1
  {
    var s := SkipWs(t, i);
    if s >= |t| then TAt(s, [], left, false)
    else if t[s] == '}' then TAt(s + 1, [], left, false)
    else if t[s] == ',' then TMembers(t, s + 1, ptr, left, wanted, parse)
    else
      match ReadString(t, s, parse)
      case Bad => TThrow
      case Good(j, name) =>
        var k := SkipWs(t, j);
        if k >= |t| || t[k] != ':' then TThrow
        else
          match TWalk(t, k + 1, Child(ptr, Escape(name)), Some((s, j - s)), left, wanted, parse)
          case TThrow => TThrow
          case TAt(m, es, n, _) =>
            if n == 0 then TAt(m, es, n, true)
            else
              match TMembers(t, m, ptr, n, wanted, parse)
              case TThrow => TThrow
              case TAt(e, rest, n', stopped) => TAt(e, es + rest, n', stopped)
  }

  ghost function TItems(t: string, i: nat, ptr: string, idx: nat, left: int, wanted: set<string>, parse: Parse): (r: Targeted)
    requires i <= |t|
    ensures r.TAt? ==> i <= r.i <= |t|
    decreases |t| - i, 3
  {
    var s := SkipWs(t, i);
    if s >= |t| then TAt(s, [], left, false)
    else if t[s] == ']' then TAt(s + 1, [], left, false)
    else if t[s] == ',' then TItems(t, s + 1, ptr, idx, left, wanted, parse)
    else
      match TWalk(t, s, Child(ptr, NatText(idx)), None, left, wanted, parse)
      case TThrow => TThrow
      case TAt(m, es, n, _) =>
        if n == 0 then TAt(m, es, n, true)
        else if m == s then TAt(m, es, n, false)
        else
          match TItems(t, m, ptr, idx + 1, n, wanted, parse)
          case TThrow => TThrow
          case TAt(e, rest, n', stopped) => TAt(e, es + rest, n', stopped)
  }

  /** Written into the map in the order recorded: a pointer recorded twice keeps the last entry. */
  function MapOf(es: seq<Entry>): map<string, Entry> {
    if es == [] then map[] else MapOf(es[..|es| - 1])[es[|es| - 1].ptr := es[|es| - 1]]
  }
}

/** Well-formed texts, what their positions are, and that both walks find them. */
module PositionFacts {
  import opened Json
  import opened PositionWalk

  /** A document as written: its tokens and the white space between them. */
  datatype Cst =
    | CScalar(tok: string)
    | CString(body: string)
    | CObject(members: seq<CMember>, tail: string)
    | CArray(items: seq<CItem>, tail: string)

  /** `before "key" mid : after value end` */
  datatype CMember = CMember(before: string, key: string, mid: string, after: string, value: Cst, end: string)

  datatype CItem = CItem(before: string, value: Cst, end: string)

  predicate AllWs(w: string) { forall i :: 0 <= i < |w| ==> IsWs(w[i]) }

  /** Number, `true`, `false` and `null` tokens hold none of these characters. */
  predicate ScalarChar(c: char) { !IsDelimiter(c) && c != '"' && c != '{' && c != '[' && c != '\U{FEFF}' }

  predicate ScalarOk(tok: string) { tok != "" && forall i :: 0 <= i < |tok| ==> ScalarChar(tok[i]) }

  function Quoted(body: string): string { "\"" + body + "\"" }

  /** No quote but behind a backslash, and every backslash followed by something. */
  predicate BodyClosed(body: string) {
    if body == "" then true
    else if body[0] == '\\' then |body| > 1 && BodyClosed(body[2..])
    else body[0] != '"' && BodyClosed(body[1..])
  }

  predicate NoEscapes(body: string) { forall i :: 0 <= i < |body| ==> body[i] != '\\' && body[i] >= ' ' }

  predicate StringOk(body: string, parse: Parse) {
    BodyClosed(body) && (NoEscapes(body) || parse(Quoted(body)).Some?)
  }

  /** The string a token stands for (any string, for one `JSON.parse` refuses). */
  function Decoded(body: string, parse: Parse): string {
    if NoEscapes(body) then body
    else if parse(Quoted(body)).Some? then parse(Quoted(body)).value
    else ""
  }

  /** A member's segment in a pointer. */
  function Seg(m: CMember, parse: Parse): string { Escape(Decoded(m.key, parse)) }

  predicate WellFormed(c: Cst, parse: Parse)
    decreases c, 1
  {
    match c
    case CScalar(tok) => ScalarOk(tok)
    case CString(body) => StringOk(body, parse)
    case CObject(ms, tail) => AllWs(tail) && forall i :: 0 <= i < |ms| ==> MemberOk(ms[i], parse)
    case CArray(xs, tail) => AllWs(tail) && forall i :: 0 <= i < |xs| ==> AllWs(xs[i].before) && AllWs(xs[i].end) && WellFormed(xs[i].value, parse)
  }

  predicate MemberOk(m: CMember, parse: Parse)
    decreases m, 2
  {
    AllWs(m.before) && AllWs(m.mid) && AllWs(m.after) && AllWs(m.end) && StringOk(m.key, parse) && WellFormed(m.value, parse)
  }

  function Render(c: Cst): string
    decreases c, 3
  {
    match c
    case CScalar(tok) => tok
    case CString(body) => Quoted(body)
    case CObject(ms, tail) => "{" + MembersText(ms, tail)
    case CArray(xs, tail) => "[" + ItemsText(xs, tail)
  }

  function MemberHead(m: CMember): string {
    m.before + Quoted(m.key) + m.mid + ":" + m.after
  }

  function Comma<T>(rest: seq<T>): string { if rest == [] then "" else "," }

  function MembersText(ms: seq<CMember>, tail: string): string
    decreases ms, 2
  {
    if ms == [] then tail + "}"
    else MemberHead(ms[0]) + Render(ms[0].value) + ms[0].end + Comma(ms[1..]) + MembersText(ms[1..], tail)
  }

  function ItemsText(xs: seq<CItem>, tail: string): string
    decreases xs, 2
  {
    if xs == [] then tail + "]"
    else xs[0].before + Render(xs[0].value) + xs[0].end + Comma(xs[1..]) + ItemsText(xs[1..], tail)
  }

  // ---------------------------------------------------------------- what the positions are

  /** Every value of the document: its pointer, and the span of its source text. Children before their container. */
  function Nodes(c: Cst, ptr: string, off: nat, key: Option<(nat, nat)>, parse: Parse): seq<Entry>
    requires WellFormed(c, parse)
    decreases c, 3
  {
    (match c
     case CObject(ms, tail) => MemberNodes(ms, tail, ptr, off + 1, parse)
     case CArray(xs, tail) => ItemNodes(xs, tail, ptr, 0, off + 1, parse)
     case _ => [])
    + [Entry(ptr, off, |Render(c)|, key)]
  }

  function MemberNodes(ms: seq<CMember>, tail: string, ptr: string, off: nat, parse: Parse): seq<Entry>
    requires forall i :: 0 <= i < |ms| ==> MemberOk(ms[i], parse)
    decreases ms, 2
  {
    if ms == [] then []
    else
      var m := ms[0];
      var at := off + |MemberHead(m)|;
      assert MemberOk(ms[0], parse);
      Nodes(m.value, Child(ptr, Seg(m, parse)), at, Some((off + |m.before|, |m.key| + 2)), parse)
      + MemberNodes(ms[1..], tail, ptr, at + |Render(m.value)| + |m.end| + |Comma(ms[1..])|, parse)
  }

  function ItemNodes(xs: seq<CItem>, tail: string, ptr: string, idx: nat, off: nat, parse: Parse): seq<Entry>
    requires forall i :: 0 <= i < |xs| ==> WellFormed(xs[i].value, parse)
    decreases xs, 2
  {
    if xs == [] then []
    else
      var at := off + |xs[0].before|;
      Nodes(xs[0].value, Child(ptr, NatText(idx)), at, None, parse)
      + ItemNodes(xs[1..], tail, ptr, idx + 1, at + |Render(xs[0].value)| + |xs[0].end| + |Comma(xs[1..])|, parse)
  }

  // ---------------------------------------------------------------- reading tokens

  /** `s` is written at `i`. */
  predicate Reads(t: string, i: nat, s: string) {
    i + |s| <= |t| && t[i..i + |s|] == s
  }

  lemma ReadsSplit(t: string, i: nat, a: string, b: string)
    requires Reads(t, i, a + b)
    ensures Reads(t, i, a) && Reads(t, i + |a|, b) && i + |a| + |b| <= |t|
  {
    assert t[i..i + |a|] == (a + b)[..|a|];
    assert t[i + |a|..i + |a| + |b|] == (a + b)[|a|..];
  }

  lemma {:induction false} SkipWsRun(t: string, i: nat, w: string)
    requires Reads(t, i, w) && AllWs(w)
    ensures SkipWs(t, i) == SkipWs(t, i + |w|)
    decreases |w|
  {
    if w != "" {
      assert t[i] == w[0];
      ReadsSplit(t, i, w[..1], w[1..]);
      assert w == w[..1] + w[1..];
      SkipWsRun(t, i + 1, w[1..]);
    }
  }

  lemma {:induction false} SkipScalarRun(t: string, i: nat, tok: string)
    requires Reads(t, i, tok) && (forall k :: 0 <= k < |tok| ==> ScalarChar(tok[k]))
    requires i + |tok| < |t| ==> IsDelimiter(t[i + |tok|])
    ensures SkipScalar(t, i) == i + |tok|
    decreases |tok|
  {
    if tok != "" {
      assert t[i] == tok[0];
      assert tok == tok[..1] + tok[1..];
      ReadsSplit(t, i, tok[..1], tok[1..]);
      SkipScalarRun(t, i + 1, tok[1..]);
    }
  }

  lemma {:induction false} ScanBody(t: string, i: nat, body: string, simple: bool)
    requires Reads(t, i, body + "\"") && BodyClosed(body)
    ensures ScanString(t, i, simple) == Closed(i + |body| + 1, simple && NoEscapes(body))
    decreases |body|
  {
    ReadsSplit(t, i, body, "\"");
    if body == "" {
      assert t[i] == '"';
    } else if body[0] == '\\' {
      assert t[i] == body[0] && !NoEscapes(body);
      assert body + "\"" == body[..2] + (body[2..] + "\"");
      ReadsSplit(t, i, body[..2], body[2..] + "\"");
      ScanBody(t, i + 2, body[2..], false);
    } else {
      assert t[i] == body[0];
      assert body + "\"" == body[..1] + (body[1..] + "\"");
      ReadsSplit(t, i, body[..1], body[1..] + "\"");
      ScanBody(t, i + 1, body[1..], simple && t[i] >= ' ');
      assert NoEscapes(body) <==> body[0] >= ' ' && NoEscapes(body[1..]) by {
        assert forall k :: 0 <= k < |body[1..]| ==> body[1..][k] == body[k + 1];
        if body[0] >= ' ' && NoEscapes(body[1..]) {
          forall k | 0 <= k < |body| ensures body[k] != '\\' && body[k] >= ' ' {
            if k > 0 { assert body[k] == body[1..][k - 1]; }
          }
        }
      }
    }
  }

  lemma ReadsToken(t: string, i: nat, body: string, parse: Parse)
    requires Reads(t, i, Quoted(body)) && StringOk(body, parse)
    ensures i < |t| && t[i] == '"' && ReadString(t, i, parse) == Good(i + |body| + 2, Decoded(body, parse))
  {
    assert Quoted(body) == "\"" + (body + "\"");
    ReadsSplit(t, i, "\"", body + "\"");
    assert t[i] == t[i..i + 1][0];
    ScanBody(t, i + 1, body, true);
    ReadsSplit(t, i + 1, body, "\"");
    assert t[i + 1..i + 1 + |body|] == body;
  }

  // ---------------------------------------------------------------- the full walk finds them

  predicate TokenEnds(t: string, j: nat) {
    j < |t| ==> IsDelimiter(t[j])
  }

  lemma FirstOf(t: string, i: nat, s: string)
    requires Reads(t, i, s) && s != ""
    ensures i < |t| && t[i] == s[0]
  {
    assert t[i] == t[i..i + |s|][0];
  }

  /** After a value in a container comes white space, a comma or the closing bracket. */
  lemma AfterValue(t: string, j: nat, end: string, comma: string, rest: string)
    requires Reads(t, j, end + comma + rest) && AllWs(end) && (comma == "" || comma == ",")
    requires comma == "" ==> rest != "" && IsDelimiter(rest[0])
    ensures TokenEnds(t, j)
  {
    var s := end + comma + rest;
    if s != "" {
      FirstOf(t, j, s);
      assert s[0] == if end != "" then end[0] else if comma != "" then comma[0] else rest[0];
    }
  }

  lemma MembersTextStarts(tail: string)
    requires AllWs(tail)
    ensures MembersText([], tail) != "" && IsDelimiter(MembersText([], tail)[0])
    ensures ItemsText([], tail) != "" && IsDelimiter(ItemsText([], tail)[0])
  {
  }

  lemma RenderStarts(c: Cst, parse: Parse)
    requires WellFormed(c, parse)
    ensures Render(c) != "" && !IsDelimiter(Render(c)[0])
    ensures c.CScalar? ==> Render(c)[0] != '"' && Render(c)[0] != '{' && Render(c)[0] != '['
  {
  }

  lemma SkipNone(t: string, i: nat)
    requires i < |t| && !IsWs(t[i])
    ensures SkipWs(t, i) == i
  {
  }

  lemma MembersAfterWs(t: string, i: nat, j: nat, ptr: string, parse: Parse)
    requires i <= |t| && j <= |t| && SkipWs(t, i) == SkipWs(t, j)
    ensures Members(t, i, ptr, parse) == Members(t, j, ptr, parse)
  {
    hide Walk, ReadString;
  }

  lemma MembersComma(t: string, i: nat, ptr: string, parse: Parse)
    requires i < |t| && t[i] == ','
    ensures Members(t, i, ptr, parse) == Members(t, i + 1, ptr, parse)
  {
    hide Walk, ReadString;
    SkipNone(t, i);
  }

  lemma MembersStep(t: string, i: nat, ptr: string, parse: Parse, s: nat, j: nat, name: string, k: nat, m: nat, es: seq<Entry>, e: nat, rest: seq<Entry>)
    requires i <= |t| && SkipWs(t, i) == s && s < |t| && t[s] == '"' && ReadString(t, s, parse) == Good(j, name)
    requires SkipWs(t, j) == k && k < |t| && t[k] == ':'
    requires Walk(t, k + 1, Child(ptr, Escape(name)), Some((s, j - s)), parse) == At(m, es)
    requires Members(t, m, ptr, parse) == At(e, rest)
    ensures Members(t, i, ptr, parse) == At(e, es + rest)
  {
    hide Walk, ReadString, SkipWs, Escape;
  }

  lemma ItemsAfterWs(t: string, i: nat, j: nat, ptr: string, idx: nat, parse: Parse)
    requires i <= |t| && j <= |t| && SkipWs(t, i) == SkipWs(t, j)
    ensures Items(t, i, ptr, idx, parse) == Items(t, j, ptr, idx, parse)
  {
    hide Walk;
  }

  lemma ItemsComma(t: string, i: nat, ptr: string, idx: nat, parse: Parse)
    requires i < |t| && t[i] == ','
    ensures Items(t, i, ptr, idx, parse) == Items(t, i + 1, ptr, idx, parse)
  {
    hide Walk;
    SkipNone(t, i);
  }

  lemma ItemsStep(t: string, i: nat, ptr: string, idx: nat, parse: Parse, s: nat, m: nat, es: seq<Entry>, e: nat, rest: seq<Entry>)
    requires i <= |t| && SkipWs(t, i) == s && s < |t| && t[s] != ']' && t[s] != ',' && m != s
    requires Walk(t, s, Child(ptr, NatText(idx)), None, parse) == At(m, es)
    requires Items(t, m, ptr, idx + 1, parse) == At(e, rest)
    ensures Items(t, i, ptr, idx, parse) == At(e, es + rest)
  {
    hide Walk, SkipWs, NatText;
  }

  /** The loop over members passes the white space and the comma before the next one. */
  lemma MembersResume(t: string, m: nat, end: string, comma: string, rest: string, ptr: string, parse: Parse)
    requires Reads(t, m, end + comma + rest) && AllWs(end) && (comma == "" || comma == ",")
    ensures m + |end| + |comma| <= |t| && Reads(t, m + |end| + |comma|, rest)
    ensures Members(t, m, ptr, parse) == Members(t, m + |end| + |comma|, ptr, parse)
  {
    hide Reads, AllWs, Members, SkipWs;
    assert end + comma + rest == end + (comma + rest);
    ReadsSplit(t, m, end, comma + rest);
    ReadsSplit(t, m + |end|, comma, rest);
    SkipWsRun(t, m, end);
    MembersAfterWs(t, m, m + |end|, ptr, parse);
    if comma == "," {
      FirstOf(t, m + |end|, comma);
      MembersComma(t, m + |end|, ptr, parse);
    }
  }

  lemma ItemsResume(t: string, m: nat, end: string, comma: string, rest: string, ptr: string, idx: nat, parse: Parse)
    requires Reads(t, m, end + comma + rest) && AllWs(end) && (comma == "" || comma == ",")
    ensures m + |end| + |comma| <= |t| && Reads(t, m + |end| + |comma|, rest)
    ensures Items(t, m, ptr, idx, parse) == Items(t, m + |end| + |comma|, ptr, idx, parse)
  {
    hide Reads, AllWs, Items, SkipWs;
    assert end + comma + rest == end + (comma + rest);
    ReadsSplit(t, m, end, comma + rest);
    ReadsSplit(t, m + |end|, comma, rest);
    SkipWsRun(t, m, end);
    ItemsAfterWs(t, m, m + |end|, ptr, idx, parse);
    if comma == "," {
      FirstOf(t, m + |end|, comma);
      ItemsComma(t, m + |end|, ptr, idx, parse);
    }
  }

  lemma HeadSplit(t: string, i: nat, m: CMember)
    requires Reads(t, i, MemberHead(m))
    ensures var s := i + |m.before|;
            var k := s + |Quoted(m.key)| + |m.mid|;
            && Reads(t, i, m.before) && Reads(t, s, Quoted(m.key)) && Reads(t, s + |Quoted(m.key)|, m.mid) && Reads(t, k, ":") && Reads(t, k + 1, m.after)
            && i + |MemberHead(m)| == k + 1 + |m.after|
  {
    hide Reads, Quoted;
    var s, q := i + |m.before|, Quoted(m.key);
    assert MemberHead(m) == m.before + (q + (m.mid + (":" + m.after)));
    ReadsSplit(t, i, m.before, q + (m.mid + (":" + m.after)));
    ReadsSplit(t, s, q, m.mid + (":" + m.after));
    ReadsSplit(t, s + |q|, m.mid, ":" + m.after);
    ReadsSplit(t, s + |q| + |m.mid|, ":", m.after);
  }

  /** The head of a member: where its name token and its colon are. */
  lemma HeadReads(t: string, i: nat, m: CMember, parse: Parse)
    requires Reads(t, i, MemberHead(m)) && MemberOk(m, parse)
    ensures var s := i + |m.before|;
            && SkipWs(t, i) == s && s < |t| && t[s] == '"'
            && ReadString(t, s, parse) == Good(s + |m.key| + 2, Decoded(m.key, parse))
            && (var k := s + |m.key| + 2 + |m.mid|;
                SkipWs(t, s + |m.key| + 2) == k && k < |t| && t[k] == ':'
                && i + |MemberHead(m)| == k + 1 + |m.after| && Reads(t, k + 1, m.after))
  {
    hide Reads, AllWs, ReadString, SkipWs, StringOk, MemberHead, WellFormed;
    var s := i + |m.before|;
    HeadSplit(t, i, m);
    assert |Quoted(m.key)| == |m.key| + 2;
    var k := s + |m.key| + 2 + |m.mid|;
    SkipWsRun(t, i, m.before);
    ReadsToken(t, s, m.key, parse);
    SkipNone(t, s);
    FirstOf(t, k, ":");
    SkipNone(t, k);
    SkipWsRun(t, s + |m.key| + 2, m.mid);
  }

  /** The walk depends on where it starts only through the white space it skips. */
  lemma WalkAfterWs(t: string, i: nat, w: string, ptr: string, key: Option<(nat, nat)>, parse: Parse)
    requires Reads(t, i, w) && AllWs(w)
    ensures Walk(t, i, ptr, key, parse) == Walk(t, i + |w|, ptr, key, parse)
  {
    SkipWsRun(t, i, w);
  }

  lemma {:induction false} WalkRender(t: string, i: nat, c: Cst, ptr: string, key: Option<(nat, nat)>, parse: Parse)
    requires WellFormed(c, parse) && Reads(t, i, Render(c)) && TokenEnds(t, i + |Render(c)|)
    ensures Walk(t, i, ptr, key, parse) == At(i + |Render(c)|, Nodes(c, ptr, i, key, parse))
    decreases c, 3
  {
    hide Reads, AllWs, ReadString, SkipScalar, StringOk, Members, Items, SkipWs, MembersText, ItemsText, MemberNodes, ItemNodes;
    RenderStarts(c, parse);
    FirstOf(t, i, Render(c));
    SkipNone(t, i);
    match c
    case CScalar(tok) => SkipScalarRun(t, i, tok);
    case CString(body) => ReadsToken(t, i, body, parse);
    case CObject(ms, tail) =>
      ReadsSplit(t, i, "{", MembersText(ms, tail));
      MembersRender(t, i + 1, ms, tail, ptr, parse);
    case CArray(xs, tail) =>
      ReadsSplit(t, i, "[", ItemsText(xs, tail));
      ItemsRender(t, i + 1, xs, tail, ptr, 0, parse);
  }

  lemma MembersEnd(t: string, i: nat, tail: string, ptr: string, parse: Parse)
    requires AllWs(tail) && Reads(t, i, tail + "}")
    ensures Members(t, i, ptr, parse) == At(i + |tail| + 1, [])
  {
    hide Reads, AllWs, SkipWs;
    ReadsSplit(t, i, tail, "}");
    SkipWsRun(t, i, tail);
    FirstOf(t, i + |tail|, "}");
    SkipNone(t, i + |tail|);
  }

  lemma ItemsEnd(t: string, i: nat, tail: string, ptr: string, idx: nat, parse: Parse)
    requires AllWs(tail) && Reads(t, i, tail + "]")
    ensures Items(t, i, ptr, idx, parse) == At(i + |tail| + 1, [])
  {
    hide Reads, AllWs, SkipWs;
    ReadsSplit(t, i, tail, "]");
    SkipWsRun(t, i, tail);
    FirstOf(t, i + |tail|, "]");
    SkipNone(t, i + |tail|);
  }

  lemma RestStarts(rest: seq<CMember>, tail: string)
    requires AllWs(tail)
    ensures Comma(rest) == "" ==> MembersText(rest, tail) != "" && IsDelimiter(MembersText(rest, tail)[0])
  {
    MembersTextStarts(tail);
  }

  lemma Regroup(a: string, b: string, c: string, d: string, e: string)
    ensures a + b + c + d + e == a + (b + (c + d + e))
  {
  }

  lemma PiecesRead(t: string, i: nat, a: string, b: string, c: string)
    requires Reads(t, i, a + (b + c))
    ensures Reads(t, i, a) && Reads(t, i + |a|, b) && Reads(t, i + |a| + |b|, c)
  {
    hide Reads;
    ReadsSplit(t, i, a, b + c);
    ReadsSplit(t, i + |a|, b, c);
  }

  lemma MembersTextIs(ms: seq<CMember>, tail: string)
    requires ms != []
    ensures MembersText(ms, tail) == MemberHead(ms[0]) + (Render(ms[0].value) + (ms[0].end + Comma(ms[1..]) + MembersText(ms[1..], tail)))
  {
    hide Render, MemberHead;
    Regroup(MemberHead(ms[0]), Render(ms[0].value), ms[0].end, Comma(ms[1..]), MembersText(ms[1..], tail));
  }

  /** Where the parts of the first member, and the text of the others, are. */
  lemma MembersParts(t: string, i: nat, ms: seq<CMember>, tail: string, parse: Parse)
    requires ms != [] && AllWs(tail) && MemberOk(ms[0], parse) && Reads(t, i, MembersText(ms, tail))
    ensures var m, more := ms[0], MembersText(ms[1..], tail);
            var at := i + |MemberHead(m)|;
            var after := at + |Render(m.value)|;
            && Reads(t, i, MemberHead(m)) && Reads(t, at, Render(m.value)) && Reads(t, after, m.end + Comma(ms[1..]) + more)
            && TokenEnds(t, after) && |MembersText(ms, tail)| == |MemberHead(m)| + |Render(m.value)| + |m.end| + |Comma(ms[1..])| + |more|
  {
    hide Reads, AllWs, TokenEnds, Render, MemberHead, StringOk, WellFormed, MembersText;
    var m, rest := ms[0], ms[1..];
    var head, val, more := MemberHead(m), Render(m.value), MembersText(rest, tail);
    RestStarts(rest, tail);
    MembersTextIs(ms, tail);
    PiecesRead(t, i, head, val, m.end + Comma(rest) + more);
    AfterValue(t, i + |head| + |val|, m.end, Comma(rest), more);
  }

  lemma ItemsTextIs(xs: seq<CItem>, tail: string)
    requires xs != []
    ensures ItemsText(xs, tail) == xs[0].before + (Render(xs[0].value) + (xs[0].end + Comma(xs[1..]) + ItemsText(xs[1..], tail)))
  {
    hide Render;
    Regroup(xs[0].before, Render(xs[0].value), xs[0].end, Comma(xs[1..]), ItemsText(xs[1..], tail));
  }

  lemma RestItemsStart(rest: seq<CItem>, tail: string)
    requires AllWs(tail)
    ensures Comma(rest) == "" ==> ItemsText(rest, tail) != "" && IsDelimiter(ItemsText(rest, tail)[0])
  {
    MembersTextStarts(tail);
  }

  lemma ItemsParts(t: string, i: nat, xs: seq<CItem>, tail: string)
    requires xs != [] && AllWs(tail) && AllWs(xs[0].end) && Reads(t, i, ItemsText(xs, tail))
    ensures var x, more := xs[0], ItemsText(xs[1..], tail);
            var at := i + |x.before|;
            var after := at + |Render(x.value)|;
            && Reads(t, i, x.before) && Reads(t, at, Render(x.value)) && Reads(t, after, x.end + Comma(xs[1..]) + more)
            && TokenEnds(t, after) && |ItemsText(xs, tail)| == |x.before| + |Render(x.value)| + |x.end| + |Comma(xs[1..])| + |more|
  {
    hide Reads, AllWs, TokenEnds, Render, ItemsText;
    var x, rest := xs[0], xs[1..];
    var val, more := Render(x.value), ItemsText(rest, tail);
    ItemsTextIs(xs, tail);
    PiecesRead(t, i, x.before, val, x.end + Comma(rest) + more);
    RestItemsStart(rest, tail);
    AfterValue(t, i + |x.before| + |val|, x.end, Comma(rest), more);
  }

  lemma {:induction false} MembersRender(t: string, i: nat, ms: seq<CMember>, tail: string, ptr: string, parse: Parse)
    requires AllWs(tail) && (forall k :: 0 <= k < |ms| ==> MemberOk(ms[k], parse)) && Reads(t, i, MembersText(ms, tail))
    ensures Members(t, i, ptr, parse) == At(i + |MembersText(ms, tail)|, MemberNodes(ms, tail, ptr, i, parse))
    decreases ms, 2
  {
    hide Reads, AllWs, ReadString, StringOk, Walk, TokenEnds, MemberHead, SkipWs, Escape, WellFormed, Members, Render, Nodes;
    if ms == [] {
      MembersEnd(t, i, tail, ptr, parse);
    } else {
      hide MembersText, Child, Decoded, Quoted;
      var m, rest := ms[0], ms[1..];
      assert MemberOk(m, parse);
      MembersParts(t, i, ms, tail, parse);
      HeadReads(t, i, m, parse);
      var at, after, more := i + |MemberHead(m)|, i + |MemberHead(m)| + |Render(m.value)|, MembersText(rest, tail);
      var s := i + |m.before|;
      var k := s + |m.key| + 2 + |m.mid|;
      var p, key := Child(ptr, Seg(m, parse)), Some((s, |m.key| + 2));
      WalkAfterWs(t, k + 1, m.after, p, key, parse);
      WalkRender(t, at, m.value, p, key, parse);
      MembersResume(t, after, m.end, Comma(rest), more, ptr, parse);
      var next := after + |m.end| + |Comma(rest)|;
      MembersRender(t, next, rest, tail, ptr, parse);
      MembersStep(t, i, ptr, parse, s, s + |m.key| + 2, Decoded(m.key, parse), k, after, Nodes(m.value, p, at, key, parse),
                  next + |more|, MemberNodes(rest, tail, ptr, next, parse));
    }
  }

  lemma {:induction false} ItemsRender(t: string, i: nat, xs: seq<CItem>, tail: string, ptr: string, idx: nat, parse: Parse)
    requires AllWs(tail) && (forall k :: 0 <= k < |xs| ==> AllWs(xs[k].before) && AllWs(xs[k].end) && WellFormed(xs[k].value, parse))
    requires Reads(t, i, ItemsText(xs, tail))
    ensures Items(t, i, ptr, idx, parse) == At(i + |ItemsText(xs, tail)|, ItemNodes(xs, tail, ptr, idx, i, parse))
    decreases xs, 2
  {
    hide Reads, AllWs, Walk, TokenEnds, SkipWs, NatText, Items, Render, Nodes, WellFormed;
    if xs == [] {
      ItemsEnd(t, i, tail, ptr, idx, parse);
    } else {
      var x, rest := xs[0], xs[1..];
      assert WellFormed(x.value, parse) && AllWs(x.before) && AllWs(x.end);
      ItemsParts(t, i, xs, tail);
      var at, after, more := i + |x.before|, i + |x.before| + |Render(x.value)|, ItemsText(rest, tail);
      SkipWsRun(t, i, x.before);
      RenderStarts(x.value, parse);
      FirstOf(t, at, Render(x.value));
      SkipNone(t, at);
      WalkRender(t, at, x.value, Child(ptr, NatText(idx)), None, parse);
      ItemsResume(t, after, x.end, Comma(rest), more, ptr, idx + 1, parse);
      var next := after + |x.end| + |Comma(rest)|;
      ItemsRender(t, next, rest, tail, ptr, idx + 1, parse);
      ItemsStep(t, i, ptr, idx, parse, at, after, Nodes(x.value, Child(ptr, NatText(idx)), at, None, parse),
                next + |more|, ItemNodes(rest, tail, ptr, idx + 1, next, parse));
    }
  }

  // ---------------------------------------------------------------- pointers tell values apart

  function EscapeChar(c: char): string {
    if c == '~' then "~0" else if c == '/' then "~1" else [c]
  }

  function EscapeChars(k: string): string {
    if k == "" then "" else EscapeChar(k[0]) + EscapeChars(k[1..])
  }

  lemma {:induction false} ReplaceConcat(a: string, b: string, c: char, sub: string)
    ensures Replace(a + b, c, sub) == Replace(a, c, sub) + Replace(b, c, sub)
    decreases |a|
  {
    if a == "" {
      assert a + b == b;
    } else {
      assert (a + b)[1..] == a[1..] + b;
      ReplaceConcat(a[1..], b, c, sub);
    }
  }

  lemma {:induction false} ReplaceOnce(k: string)
    ensures Replace(Replace(k, '~', "~0"), '/', "~1") == EscapeChars(k)
    decreases |k|
  {
    if k != "" {
      var head := if k[0] == '~' then "~0" else [k[0]];
      ReplaceOnce(k[1..]);
      ReplaceConcat(head, Replace(k[1..], '~', "~0"), '/', "~1");
      assert Replace(head, '/', "~1") == EscapeChar(k[0]) by {
        assert head[1..] == "" || head[1..] == "0";
      }
    }
  }

  lemma {:induction false} EscapeNothing(k: string)
    requires '~' !in k && '/' !in k
    ensures EscapeChars(k) == k
    decreases |k|
  {
    if k != "" { EscapeNothing(k[1..]); }
  }

  /** The two replacements, in their order, are one escape per character. */
  lemma EscapeByChar(k: string)
    ensures Escape(k) == EscapeChars(k)
  {
    if '~' !in k && '/' !in k { EscapeNothing(k); } else { ReplaceOnce(k); }
  }

  function Unescape(s: string): string {
    if s == "" then ""
    else if s[0] == '~' && |s| > 1 then [if s[1] == '1' then '/' else '~'] + Unescape(s[2..])
    else [s[0]] + Unescape(s[1..])
  }

  lemma {:induction false} UnescapeChars(k: string)
    ensures Unescape(EscapeChars(k)) == k && '/' !in EscapeChars(k)
    decreases |k|
  {
    if k != "" {
      UnescapeChars(k[1..]);
      var e := EscapeChar(k[0]);
      var s := e + EscapeChars(k[1..]);
      if |e| == 2 { assert s[2..] == EscapeChars(k[1..]); } else { assert s[1..] == EscapeChars(k[1..]); }
    }
  }

  /** An escaped name reads back as the name, and holds no `/`. */
  lemma EscapeRoundTrip(k: string)
    ensures Unescape(Escape(k)) == k && '/' !in Escape(k)
  {
    EscapeByChar(k);
    UnescapeChars(k);
  }

  function ValueOf(s: string): int {
    if s == "" then 0 else ValueOf(s[..|s| - 1]) * 10 + (s[|s| - 1] as int - '0' as int)
  }

  lemma {:induction false} NatTextRoundTrip(n: nat)
    ensures ValueOf(NatText(n)) == n && '/' !in NatText(n) && NatText(n) != ""
    decreases n
  {
    var d := ('0' as int + n % 10) as char;
    if n >= 10 {
      NatTextRoundTrip(n / 10);
      assert NatText(n)[..|NatText(n)| - 1] == NatText(n / 10);
    } else {
      assert NatText(n) == [d] && [d][..0] == "";
    }
  }

  predicate Under(p: string, ptr: string) {
    p == ptr || (|p| > |ptr| && p[..|ptr|] == ptr && p[|ptr|] == '/')
  }

  predicate AllUnder(es: seq<Entry>, ptr: string) {
    forall i :: 0 <= i < |es| ==> Under(es[i].ptr, ptr)
  }

  lemma UnderChild(p: string, ptr: string, seg: string)
    requires Under(p, Child(ptr, seg))
    ensures Under(p, ptr) && |p| > |ptr|
  {
    assert Child(ptr, seg)[..|ptr|] == ptr;
    assert p[..|ptr|] == p[..|Child(ptr, seg)|][..|ptr|];
    assert p[|ptr|] == Child(ptr, seg)[|ptr|];
  }

  lemma UnderOneChild(p: string, ptr: string, a: string, b: string)
    requires Under(p, Child(ptr, a)) && Under(p, Child(ptr, b)) && '/' !in a && '/' !in b
    ensures a == b
  {
    var n := |ptr| + 1;
    var ca, cb := Child(ptr, a), Child(ptr, b);
    assert p[n..n + |a|] == a by { assert p[..n + |a|] == ca; assert ca[n..] == a; }
    assert p[n..n + |b|] == b by { assert p[..n + |b|] == cb; assert cb[n..] == b; }
  }

  predicate NamesUnique(ms: seq<CMember>, parse: Parse) {
    forall i, j :: 0 <= i < j < |ms| ==> Decoded(ms[i].key, parse) != Decoded(ms[j].key, parse)
  }

  /** No object names a member twice. */
  predicate Unique(c: Cst, parse: Parse)
    decreases c
  {
    match c
    case CObject(ms, _) => NamesUnique(ms, parse) && forall i :: 0 <= i < |ms| ==> Unique(ms[i].value, parse)
    case CArray(xs, _) => forall i :: 0 <= i < |xs| ==> Unique(xs[i].value, parse)
    case _ => true
  }

  predicate DistinctPtrs(es: seq<Entry>) {
    forall i, j :: 0 <= i < j < |es| ==> es[i].ptr != es[j].ptr
  }

  lemma DistinctConcat(a: seq<Entry>, b: seq<Entry>)
    requires DistinctPtrs(a) && DistinctPtrs(b)
    requires forall i, j :: 0 <= i < |a| && 0 <= j < |b| ==> a[i].ptr != b[j].ptr
    ensures DistinctPtrs(a + b)
  {
  }

  /** Every entry below one of the members named from here on. */
  predicate MembersUnder(es: seq<Entry>, ms: seq<CMember>, ptr: string, parse: Parse) {
    forall i :: 0 <= i < |es| ==> UnderMember(es[i].ptr, ms, ptr, parse)
  }

  predicate UnderMember(p: string, ms: seq<CMember>, ptr: string, parse: Parse) {
    exists k :: 0 <= k < |ms| && Under(p, Child(ptr, Seg(ms[k], parse)))
  }

  predicate ItemsUnder(es: seq<Entry>, ptr: string, idx: nat, n: nat) {
    forall i :: 0 <= i < |es| ==> UnderItem(es[i].ptr, ptr, idx, n)
  }

  predicate UnderItem(p: string, ptr: string, idx: nat, n: nat) {
    exists k: nat :: idx <= k < n && Under(p, Child(ptr, NatText(k)))
  }

  lemma OwnApart(es: seq<Entry>, self: Entry)
    requires DistinctPtrs(es) && forall i :: 0 <= i < |es| ==> Under(es[i].ptr, self.ptr) && es[i].ptr != self.ptr
    ensures AllUnder(es + [self], self.ptr) && DistinctPtrs(es + [self])
  {
    DistinctConcat(es, [self]);
  }

  lemma MembersBelow(es: seq<Entry>, ms: seq<CMember>, ptr: string, parse: Parse)
    requires MembersUnder(es, ms, ptr, parse)
    ensures forall i :: 0 <= i < |es| ==> Under(es[i].ptr, ptr) && es[i].ptr != ptr
  {
    hide Under, Child, Seg;
    forall i | 0 <= i < |es| ensures Under(es[i].ptr, ptr) && es[i].ptr != ptr {
      assert UnderMember(es[i].ptr, ms, ptr, parse);
      var k :| 0 <= k < |ms| && Under(es[i].ptr, Child(ptr, Seg(ms[k], parse)));
      UnderChild(es[i].ptr, ptr, Seg(ms[k], parse));
    }
  }

  lemma ItemsBelow(es: seq<Entry>, ptr: string, idx: nat, n: nat)
    requires ItemsUnder(es, ptr, idx, n)
    ensures forall i :: 0 <= i < |es| ==> Under(es[i].ptr, ptr) && es[i].ptr != ptr
  {
    hide Under, Child, NatText;
    forall i | 0 <= i < |es| ensures Under(es[i].ptr, ptr) && es[i].ptr != ptr {
      assert UnderItem(es[i].ptr, ptr, idx, n);
      var k: nat :| idx <= k < n && Under(es[i].ptr, Child(ptr, NatText(k)));
      UnderChild(es[i].ptr, ptr, NatText(k));
    }
  }

  lemma {:induction false} NodesDistinct(c: Cst, ptr: string, off: nat, key: Option<(nat, nat)>, parse: Parse)
    requires WellFormed(c, parse) && Unique(c, parse)
    ensures AllUnder(Nodes(c, ptr, off, key, parse), ptr) && DistinctPtrs(Nodes(c, ptr, off, key, parse))
    decreases c, 3
  {
    hide Under, Child, Seg, Render, DistinctPtrs, AllUnder, MembersUnder, ItemsUnder, MemberNodes, ItemNodes;
    var self := Entry(ptr, off, |Render(c)|, key);
    match c
    case CObject(ms, tail) =>
      MemberNodesDistinct(ms, tail, ptr, off + 1, parse);
      MembersBelow(MemberNodes(ms, tail, ptr, off + 1, parse), ms, ptr, parse);
      OwnApart(MemberNodes(ms, tail, ptr, off + 1, parse), self);
    case CArray(xs, tail) =>
      ItemNodesDistinct(xs, tail, ptr, 0, off + 1, parse);
      ItemsBelow(ItemNodes(xs, tail, ptr, 0, off + 1, parse), ptr, 0, |xs|);
      OwnApart(ItemNodes(xs, tail, ptr, 0, off + 1, parse), self);
    case _ =>
      NothingDistinct();
      OwnApart([], self);
  }

  lemma NothingDistinct()
    ensures DistinctPtrs([])
  {
  }

  lemma {:induction false} MemberNodesDistinct(ms: seq<CMember>, tail: string, ptr: string, off: nat, parse: Parse)
    requires forall i :: 0 <= i < |ms| ==> MemberOk(ms[i], parse) && Unique(ms[i].value, parse)
    requires NamesUnique(ms, parse)
    ensures MembersUnder(MemberNodes(ms, tail, ptr, off, parse), ms, ptr, parse)
    ensures DistinctPtrs(MemberNodes(ms, tail, ptr, off, parse))
    decreases ms, 2
  {
    hide Under, Child, Seg, Nodes, Render, MemberHead, Unique;
    if ms != [] {
      var m, rest := ms[0], ms[1..];
      assert MemberOk(m, parse) && Unique(m.value, parse);
      var at := off + |MemberHead(m)|;
      var next := at + |Render(m.value)| + |m.end| + |Comma(rest)|;
      var key := Some((off + |m.before|, |m.key| + 2));
      var a, b := Nodes(m.value, Child(ptr, Seg(m, parse)), at, key, parse), MemberNodes(rest, tail, ptr, next, parse);
      NodesDistinct(m.value, Child(ptr, Seg(m, parse)), at, key, parse);
      MemberNodesDistinct(rest, tail, ptr, next, parse);
      FirstApart(a, b, ms, ptr, parse);
      assert MemberNodes(ms, tail, ptr, off, parse) == a + b;
    }
  }

  lemma FirstApart(a: seq<Entry>, b: seq<Entry>, ms: seq<CMember>, ptr: string, parse: Parse)
    requires ms != [] && NamesUnique(ms, parse) && AllUnder(a, Child(ptr, Seg(ms[0], parse))) && MembersUnder(b, ms[1..], ptr, parse)
    requires DistinctPtrs(a) && DistinctPtrs(b)
    ensures DistinctPtrs(a + b) && MembersUnder(a + b, ms, ptr, parse)
  {
    hide Under, Child, Seg;
    var rest := ms[1..];
    forall i, j | 0 <= i < |a| && 0 <= j < |b| ensures a[i].ptr != b[j].ptr {
      assert UnderMember(b[j].ptr, rest, ptr, parse);
      var k :| 0 <= k < |rest| && Under(b[j].ptr, Child(ptr, Seg(rest[k], parse)));
      assert rest[k] == ms[k + 1];
      SegmentsDiffer(ms, k + 1, parse);
      if a[i].ptr == b[j].ptr { UnderOneChild(a[i].ptr, ptr, Seg(ms[0], parse), Seg(rest[k], parse)); }
    }
    DistinctConcat(a, b);
    forall i | 0 <= i < |a + b| ensures UnderMember((a + b)[i].ptr, ms, ptr, parse) {
      if i < |a| {
        assert Under((a + b)[i].ptr, Child(ptr, Seg(ms[0], parse)));
      } else {
        assert UnderMember(b[i - |a|].ptr, rest, ptr, parse);
        var k :| 0 <= k < |rest| && Under(b[i - |a|].ptr, Child(ptr, Seg(rest[k], parse)));
        assert rest[k] == ms[k + 1];
      }
    }
  }

  lemma SegmentsDiffer(ms: seq<CMember>, k: nat, parse: Parse)
    requires 0 < k < |ms| && NamesUnique(ms, parse)
    ensures var a, b := Seg(ms[0], parse), Seg(ms[k], parse); a != b && '/' !in a && '/' !in b
  {
    EscapeRoundTrip(Decoded(ms[0].key, parse));
    EscapeRoundTrip(Decoded(ms[k].key, parse));
  }

  lemma FirstItemApart(a: seq<Entry>, b: seq<Entry>, ptr: string, idx: nat, n: nat)
    requires idx < n && AllUnder(a, Child(ptr, NatText(idx))) && ItemsUnder(b, ptr, idx + 1, n) && DistinctPtrs(a) && DistinctPtrs(b)
    ensures DistinctPtrs(a + b) && ItemsUnder(a + b, ptr, idx, n)
  {
    hide Under, Child, NatText, DistinctPtrs, UnderItem;
    forall i, j | 0 <= i < |a| && 0 <= j < |b| ensures a[i].ptr != b[j].ptr {
      assert UnderItem(b[j].ptr, ptr, idx + 1, n);
      OtherItem(a[i].ptr, b[j].ptr, ptr, idx, n);
    }
    DistinctConcat(a, b);
    forall i | 0 <= i < |a + b| ensures UnderItem((a + b)[i].ptr, ptr, idx, n) {
      if i < |a| {
        ThisItem((a + b)[i].ptr, ptr, idx, n);
      } else {
        assert UnderItem(b[i - |a|].ptr, ptr, idx + 1, n);
        LaterItem(b[i - |a|].ptr, ptr, idx, n);
      }
    }
  }

  lemma ThisItem(p: string, ptr: string, idx: nat, n: nat)
    requires idx < n && Under(p, Child(ptr, NatText(idx)))
    ensures UnderItem(p, ptr, idx, n)
  {
  }

  lemma LaterItem(p: string, ptr: string, idx: nat, n: nat)
    requires UnderItem(p, ptr, idx + 1, n)
    ensures UnderItem(p, ptr, idx, n)
  {
    hide Under, Child, NatText;
    var k: nat :| idx + 1 <= k < n && Under(p, Child(ptr, NatText(k)));
  }

  lemma OtherItem(p: string, q: string, ptr: string, idx: nat, n: nat)
    requires Under(p, Child(ptr, NatText(idx))) && UnderItem(q, ptr, idx + 1, n)
    ensures p != q
  {
    hide Under, Child, NatText;
    var k: nat :| idx + 1 <= k < n && Under(q, Child(ptr, NatText(k)));
    NatTextRoundTrip(idx);
    NatTextRoundTrip(k);
    if p == q { UnderOneChild(p, ptr, NatText(idx), NatText(k)); }
  }

  lemma {:induction false} ItemNodesDistinct(xs: seq<CItem>, tail: string, ptr: string, idx: nat, off: nat, parse: Parse)
    requires forall i :: 0 <= i < |xs| ==> WellFormed(xs[i].value, parse) && Unique(xs[i].value, parse)
    ensures ItemsUnder(ItemNodes(xs, tail, ptr, idx, off, parse), ptr, idx, idx + |xs|)
    ensures DistinctPtrs(ItemNodes(xs, tail, ptr, idx, off, parse))
    decreases xs, 2
  {
    hide Under, Child, NatText, Nodes, Render, Unique, DistinctPtrs, AllUnder, WellFormed;
    if xs == [] {
      NothingDistinct();
    } else {
      var x, rest := xs[0], xs[1..];
      assert WellFormed(x.value, parse) && Unique(x.value, parse);
      var at := off + |x.before|;
      var next := at + |Render(x.value)| + |x.end| + |Comma(rest)|;
      var a, b := Nodes(x.value, Child(ptr, NatText(idx)), at, None, parse), ItemNodes(rest, tail, ptr, idx + 1, next, parse);
      NodesDistinct(x.value, Child(ptr, NatText(idx)), at, None, parse);
      ItemNodesDistinct(rest, tail, ptr, idx + 1, next, parse);
      FirstItemApart(a, b, ptr, idx, idx + |xs|);
      assert ItemNodes(xs, tail, ptr, idx, off, parse) == a + b;
    }
  }
}

/** The skipping walk finds, for the wanted pointers, exactly what the full walk finds. */
module PositionTargeted {
  import opened Json
  import opened PositionWalk
  import opened PositionFacts

  // ---------------------------------------------------------------- skipping

  /** A character the bracket counter passes over. */
  predicate Bland(c: char) { c != '"' && c != '{' && c != '[' && c != '}' && c != ']' }

  predicate AllBland(w: string) { forall k :: 0 <= k < |w| ==> Bland(w[k]) }

  lemma {:induction false} SkipBland(t: string, i: nat, w: string, d: nat, parse: Parse)
    requires Reads(t, i, w) && AllBland(w)
    ensures SkipNested(t, i, d, parse) == SkipNested(t, i + |w|, d, parse)
    decreases |w|
  {
    if w != "" {
      assert t[i] == w[0];
      assert w == w[..1] + w[1..];
      ReadsSplit(t, i, w[..1], w[1..]);
      SkipBland(t, i + 1, w[1..], d, parse);
    }
  }

  /** What the counter answers just past a closing bracket met at depth `d`. */
  function Closing(t: string, j: nat, d: nat, parse: Parse): Skipped
    requires j <= |t|
  {
    if d <= 1 then SkipAt(j) else SkipNested(t, j, d - 1, parse)
  }

  lemma SkipToken(t: string, i: nat, body: string, d: nat, parse: Parse)
    requires Reads(t, i, Quoted(body)) && StringOk(body, parse)
    ensures i + |body| + 2 <= |t| && SkipNested(t, i, d, parse) == SkipNested(t, i + |body| + 2, d, parse)
  {
    ReadsToken(t, i, body, parse);
  }

  lemma SkipOpen(t: string, i: nat, d: nat, parse: Parse)
    requires i < |t| && (t[i] == '{' || t[i] == '[')
    ensures SkipNested(t, i, d, parse) == SkipNested(t, i + 1, d + 1, parse)
  {
  }

  lemma SkipClose(t: string, i: nat, tail: string, close: string, d: nat, parse: Parse)
    requires Reads(t, i, tail + close) && AllWs(tail) && (close == "}" || close == "]")
    ensures i + |tail| + 1 <= |t| && SkipNested(t, i, d, parse) == Closing(t, i + |tail| + 1, d, parse)
  {
    ReadsSplit(t, i, tail, close);
    SkipBland(t, i, tail, d, parse);
    FirstOf(t, i + |tail|, close);
  }

  lemma ReadsBound(t: string, i: nat, s: string)
    requires Reads(t, i, s)
    ensures i + |s| <= |t|
  {
  }

  lemma SkipHead(t: string, i: nat, m: CMember, d: nat, parse: Parse)
    requires Reads(t, i, MemberHead(m)) && MemberOk(m, parse)
    ensures i + |MemberHead(m)| <= |t| && SkipNested(t, i, d, parse) == SkipNested(t, i + |MemberHead(m)|, d, parse)
  {
    var s, q := i + |m.before|, Quoted(m.key);
    var tail := m.mid + (":" + m.after);
    hide Reads, AllWs, AllBland, MemberHead, StringOk, WellFormed, SkipNested;
    HeadText(m);
    ReadsSplit(t, i, m.before, q + tail);
    ReadsSplit(t, s, q, tail);
    BlandWs(m.before);
    SkipBland(t, i, m.before, d, parse);
    SkipToken(t, s, m.key, d, parse);
    ColonBland(m.mid, m.after);
    SkipBland(t, s + |q|, tail, d, parse);
  }

  lemma HeadText(m: CMember)
    ensures MemberHead(m) == m.before + (Quoted(m.key) + (m.mid + (":" + m.after)))
  {
  }

  lemma ColonBland(mid: string, after: string)
    requires AllWs(mid) && AllWs(after)
    ensures AllBland(mid + (":" + after))
  {
    BlandWs(mid);
    BlandWs(after);
  }

  lemma BlandWs(w: string)
    requires AllWs(w)
    ensures AllBland(w)
  {
  }

  lemma {:induction false} SkipRender(t: string, i: nat, c: Cst, d: nat, parse: Parse)
    requires WellFormed(c, parse) && Reads(t, i, Render(c)) && d >= 1
    ensures i + |Render(c)| <= |t| && SkipNested(t, i, d, parse) == SkipNested(t, i + |Render(c)|, d, parse)
    decreases c, 3
  {
    hide Reads, AllWs, StringOk, SkipNested;
    ReadsBound(t, i, Render(c));
    RenderStarts(c, parse);
    FirstOf(t, i, Render(c));
    match c
    case CScalar(tok) =>
      assert AllBland(tok);
      SkipBland(t, i, tok, d, parse);
    case CString(body) => SkipToken(t, i, body, d, parse);
    case CObject(ms, tail) =>
      ReadsSplit(t, i, "{", MembersText(ms, tail));
      SkipOpen(t, i, d, parse);
      SkipMembers(t, i + 1, ms, tail, d + 1, parse);
    case CArray(xs, tail) =>
      ReadsSplit(t, i, "[", ItemsText(xs, tail));
      SkipOpen(t, i, d, parse);
      SkipItems(t, i + 1, xs, tail, d + 1, parse);
  }

  lemma {:induction false} SkipMembers(t: string, i: nat, ms: seq<CMember>, tail: string, d: nat, parse: Parse)
    requires AllWs(tail) && (forall k :: 0 <= k < |ms| ==> MemberOk(ms[k], parse)) && Reads(t, i, MembersText(ms, tail)) && d >= 1
    ensures i + |MembersText(ms, tail)| <= |t| && SkipNested(t, i, d, parse) == Closing(t, i + |MembersText(ms, tail)|, d, parse)
    decreases ms, 2
  {
    hide Reads, AllWs, StringOk, WellFormed, SkipNested, MemberHead, Render, TokenEnds;
    if ms == [] {
      SkipClose(t, i, tail, "}", d, parse);
    } else {
      var m, rest := ms[0], ms[1..];
      assert MemberOk(m, parse);
      MembersParts(t, i, ms, tail, parse);
      SkipHead(t, i, m, d, parse);
      var at := i + |MemberHead(m)|;
      SkipRender(t, at, m.value, d, parse);
      SkipBetween(t, at + |Render(m.value)|, m.end, Comma(rest), MembersText(rest, tail), d, parse);
      SkipMembers(t, at + |Render(m.value)| + |m.end| + |Comma(rest)|, rest, tail, d, parse);
    }
  }

  lemma SkipBetween(t: string, i: nat, end: string, comma: string, rest: string, d: nat, parse: Parse)
    requires Reads(t, i, end + comma + rest) && AllWs(end) && (comma == "" || comma == ",")
    ensures i + |end| + |comma| <= |t| && Reads(t, i + |end| + |comma|, rest)
    ensures SkipNested(t, i, d, parse) == SkipNested(t, i + |end| + |comma|, d, parse)
  {
    ReadsSplit(t, i, end + comma, rest);
    SkipBland(t, i, end + comma, d, parse);
  }

  lemma {:induction false} SkipItems(t: string, i: nat, xs: seq<CItem>, tail: string, d: nat, parse: Parse)
    requires AllWs(tail) && (forall k :: 0 <= k < |xs| ==> AllWs(xs[k].before) && AllWs(xs[k].end) && WellFormed(xs[k].value, parse))
    requires Reads(t, i, ItemsText(xs, tail)) && d >= 1
    ensures i + |ItemsText(xs, tail)| <= |t| && SkipNested(t, i, d, parse) == Closing(t, i + |ItemsText(xs, tail)|, d, parse)
    decreases xs, 2
  {
    hide Reads, AllWs, WellFormed, SkipNested, Render, TokenEnds;
    if xs == [] {
      SkipClose(t, i, tail, "]", d, parse);
    } else {
      var x, rest := xs[0], xs[1..];
      assert WellFormed(x.value, parse) && AllWs(x.before) && AllWs(x.end);
      ItemsParts(t, i, xs, tail);
      BlandWs(x.before);
      SkipBland(t, i, x.before, d, parse);
      var at := i + |x.before|;
      SkipRender(t, at, x.value, d, parse);
      SkipBetween(t, at + |Render(x.value)|, x.end, Comma(rest), ItemsText(rest, tail), d, parse);
      SkipItems(t, at + |Render(x.value)| + |x.end| + |Comma(rest)|, rest, tail, d, parse);
    }
  }

  /** The skip ends where the value does. */
  lemma SkipValueRender(t: string, i: nat, c: Cst, parse: Parse)
    requires WellFormed(c, parse) && Reads(t, i, Render(c)) && TokenEnds(t, i + |Render(c)|)
    ensures i <= |t| && SkipValue(t, i, parse) == SkipAt(i + |Render(c)|)
  {
    hide SkipNested, ReadString, MembersText, ItemsText, StringOk;
    RenderStarts(c, parse);
    FirstOf(t, i, Render(c));
    SkipNone(t, i);
    match c
    case CScalar(tok) => SkipScalarRun(t, i, tok);
    case CString(body) => ReadsToken(t, i, body, parse);
    case CObject(ms, tail) =>
      ReadsSplit(t, i, "{", MembersText(ms, tail));
      SkipOpen(t, i, 0, parse);
      SkipMembers(t, i + 1, ms, tail, 1, parse);
    case CArray(xs, tail) =>
      ReadsSplit(t, i, "[", ItemsText(xs, tail));
      SkipOpen(t, i, 0, parse);
      SkipItems(t, i + 1, xs, tail, 1, parse);
  }

  // ---------------------------------------------------------------- the wanted entries

  function Wanted(es: seq<Entry>, wanted: set<string>): seq<Entry> {
    if es == [] then []
    else (if es[0].ptr in wanted then [es[0]] else []) + Wanted(es[1..], wanted)
  }

  lemma {:induction false} WantedConcat(a: seq<Entry>, b: seq<Entry>, wanted: set<string>)
    ensures Wanted(a + b, wanted) == Wanted(a, wanted) + Wanted(b, wanted)
    decreases |a|
  {
    if a == [] {
      assert a + b == b;
    } else {
      assert (a + b)[1..] == a[1..] + b;
      WantedConcat(a[1..], b, wanted);
    }
  }

  lemma {:induction false} NoneWanted(es: seq<Entry>, ptr: string, wanted: set<string>)
    requires AllUnder(es, ptr) && ptr != "" && !Interesting(ptr, wanted)
    ensures Wanted(es, wanted) == []
    decreases |es|
  {
    if es != [] {
      if es[0].ptr in wanted { assert IsPrefix(ptr, es[0].ptr); }
      assert AllUnder(es[1..], ptr);
      NoneWanted(es[1..], ptr, wanted);
    }
  }

  // ---------------------------------------------------------------- one step of each loop

  lemma TMembersSame(t: string, i: nat, j: nat, ptr: string, left: int, wanted: set<string>, parse: Parse)
    requires i <= |t| && j <= |t| && SkipWs(t, i) == SkipWs(t, j)
    ensures TMembers(t, i, ptr, left, wanted, parse) == TMembers(t, j, ptr, left, wanted, parse)
  {
    hide TWalk, ReadString;
  }

  lemma TMembersComma(t: string, i: nat, ptr: string, left: int, wanted: set<string>, parse: Parse)
    requires i < |t| && t[i] == ','
    ensures TMembers(t, i, ptr, left, wanted, parse) == TMembers(t, i + 1, ptr, left, wanted, parse)
  {
    hide TWalk, ReadString;
    SkipNone(t, i);
  }

  lemma TItemsSame(t: string, i: nat, j: nat, ptr: string, idx: nat, left: int, wanted: set<string>, parse: Parse)
    requires i <= |t| && j <= |t| && SkipWs(t, i) == SkipWs(t, j)
    ensures TItems(t, i, ptr, idx, left, wanted, parse) == TItems(t, j, ptr, idx, left, wanted, parse)
  {
    hide TWalk;
  }

  lemma TItemsComma(t: string, i: nat, ptr: string, idx: nat, left: int, wanted: set<string>, parse: Parse)
    requires i < |t| && t[i] == ','
    ensures TItems(t, i, ptr, idx, left, wanted, parse) == TItems(t, i + 1, ptr, idx, left, wanted, parse)
  {
    hide TWalk;
    SkipNone(t, i);
  }

  lemma TMembersResume(t: string, m: nat, end: string, comma: string, rest: string, ptr: string, left: int, wanted: set<string>, parse: Parse)
    requires Reads(t, m, end + comma + rest) && AllWs(end) && (comma == "" || comma == ",")
    ensures m + |end| + |comma| <= |t| && Reads(t, m + |end| + |comma|, rest)
    ensures TMembers(t, m, ptr, left, wanted, parse) == TMembers(t, m + |end| + |comma|, ptr, left, wanted, parse)
  {
    hide Reads, AllWs, TMembers, SkipWs;
    assert end + comma + rest == end + (comma + rest);
    ReadsSplit(t, m, end, comma + rest);
    ReadsSplit(t, m + |end|, comma, rest);
    SkipWsRun(t, m, end);
    TMembersSame(t, m, m + |end|, ptr, left, wanted, parse);
    if comma == "," {
      FirstOf(t, m + |end|, comma);
      TMembersComma(t, m + |end|, ptr, left, wanted, parse);
    }
  }

  lemma TItemsResume(t: string, m: nat, end: string, comma: string, rest: string, ptr: string, idx: nat, left: int, wanted: set<string>, parse: Parse)
    requires Reads(t, m, end + comma + rest) && AllWs(end) && (comma == "" || comma == ",")
    ensures m + |end| + |comma| <= |t| && Reads(t, m + |end| + |comma|, rest)
    ensures TItems(t, m, ptr, idx, left, wanted, parse) == TItems(t, m + |end| + |comma|, ptr, idx, left, wanted, parse)
  {
    hide Reads, AllWs, TItems, SkipWs;
    assert end + comma + rest == end + (comma + rest);
    ReadsSplit(t, m, end, comma + rest);
    ReadsSplit(t, m + |end|, comma, rest);
    SkipWsRun(t, m, end);
    TItemsSame(t, m, m + |end|, ptr, idx, left, wanted, parse);
    if comma == "," {
      FirstOf(t, m + |end|, comma);
      TItemsComma(t, m + |end|, ptr, idx, left, wanted, parse);
    }
  }

  /** The result of a loop whose body recorded `es` and then the rest. */
  function Chain(m: nat, es: seq<Entry>, n: int, rest: Targeted): Targeted {
    if n == 0 then TAt(m, es, n, true)
    else match rest case TThrow => TThrow case TAt(e, more, n', stopped) => TAt(e, es + more, n', stopped)
  }

  lemma TMembersStep(t: string, i: nat, ptr: string, left: int, wanted: set<string>, parse: Parse, s: nat, j: nat, name: string, k: nat, m: nat, es: seq<Entry>, n: int)
    requires i <= |t| && SkipWs(t, i) == s && s < |t| && t[s] == '"' && ReadString(t, s, parse) == Good(j, name)
    requires SkipWs(t, j) == k && k < |t| && t[k] == ':' && m <= |t|
    requires TWalk(t, k + 1, Child(ptr, Escape(name)), Some((s, j - s)), left, wanted, parse) == TAt(m, es, n, false)
    ensures TMembers(t, i, ptr, left, wanted, parse) == Chain(m, es, n, TMembers(t, m, ptr, n, wanted, parse))
  {
    hide TWalk, ReadString, SkipWs, Escape;
  }

  lemma TItemsStep(t: string, i: nat, ptr: string, idx: nat, left: int, wanted: set<string>, parse: Parse, s: nat, m: nat, es: seq<Entry>, n: int)
    requires i <= |t| && SkipWs(t, i) == s && s < |t| && t[s] != ']' && t[s] != ',' && m <= |t| && (n != 0 ==> m != s)
    requires TWalk(t, s, Child(ptr, NatText(idx)), None, left, wanted, parse) == TAt(m, es, n, false)
    ensures TItems(t, i, ptr, idx, left, wanted, parse) == Chain(m, es, n, TItems(t, m, ptr, idx + 1, n, wanted, parse))
  {
    hide TWalk, SkipWs, NatText;
  }

  // ---------------------------------------------------------------- the walk

  /** A walk that still had something to find found exactly the wanted entries, and ran on unless it found the last. */
  ghost predicate Found(r: Targeted, es: seq<Entry>, end: nat, left: int, wanted: set<string>) {
    && r.TAt? && r.es == Wanted(es, wanted) && r.left == left - |r.es|
    && (r.left > 0 ==> r.i == end)
  }

  lemma TWalkAfterWs(t: string, i: nat, w: string, ptr: string, key: Option<(nat, nat)>, left: int, wanted: set<string>, parse: Parse)
    requires Reads(t, i, w) && AllWs(w)
    ensures i + |w| <= |t| && TWalk(t, i, ptr, key, left, wanted, parse) == TWalk(t, i + |w|, ptr, key, left, wanted, parse)
  {
    SkipWsRun(t, i, w);
  }

  lemma {:induction false} TWalkRender(t: string, i: nat, c: Cst, ptr: string, key: Option<(nat, nat)>, left: int, wanted: set<string>, parse: Parse)
    requires WellFormed(c, parse) && Unique(c, parse) && Reads(t, i, Render(c)) && TokenEnds(t, i + |Render(c)|)
    requires left > 0 && |Wanted(Nodes(c, ptr, i, key, parse), wanted)| <= left
    ensures i <= |t| && Found(TWalk(t, i, ptr, key, left, wanted, parse), Nodes(c, ptr, i, key, parse), i + |Render(c)|, left, wanted)
    ensures !TWalk(t, i, ptr, key, left, wanted, parse).stopped
    decreases c, 3
  {
    hide Reads, AllWs, TInside, SkipValue, Under, Interesting, Render, SkipWs, Unique, WellFormed, TokenEnds;
    RenderStarts(c, parse);
    FirstOf(t, i, Render(c));
    SkipNone(t, i);
    var es, self := Nodes(c, ptr, i, key, parse), Entry(ptr, i, |Render(c)|, key);
    if !Interesting(ptr, wanted) {
      assert ptr != "" by { RootInteresting(wanted); }
      NothingInside(c, ptr, i, key, wanted, parse);
      SkipValueRender(t, i, c, parse);
    } else {
      var inner := Inner(c, ptr, i, parse);
      assert es == inner + [self];
      WantedConcat(inner, [self], wanted);
      assert Wanted([self], wanted) == if ptr in wanted then [self] else [];
      TInsideRender(t, i, c, ptr, left, wanted, parse);
    }
  }

  lemma NothingInside(c: Cst, ptr: string, i: nat, key: Option<(nat, nat)>, wanted: set<string>, parse: Parse)
    requires WellFormed(c, parse) && Unique(c, parse) && ptr != "" && !Interesting(ptr, wanted)
    ensures Wanted(Nodes(c, ptr, i, key, parse), wanted) == []
  {
    hide Nodes, Interesting, Wanted, AllUnder, DistinctPtrs;
    NodesDistinct(c, ptr, i, key, parse);
    NoneWanted(Nodes(c, ptr, i, key, parse), ptr, wanted);
  }

  function Inner(c: Cst, ptr: string, off: nat, parse: Parse): seq<Entry>
    requires WellFormed(c, parse)
  {
    match c
    case CObject(ms, tail) => MemberNodes(ms, tail, ptr, off + 1, parse)
    case CArray(xs, tail) => ItemNodes(xs, tail, ptr, 0, off + 1, parse)
    case _ => []
  }

  lemma {:induction false} TInsideRender(t: string, i: nat, c: Cst, ptr: string, left: int, wanted: set<string>, parse: Parse)
    requires WellFormed(c, parse) && Unique(c, parse) && Reads(t, i, Render(c)) && TokenEnds(t, i + |Render(c)|)
    requires left > 0 && |Wanted(Inner(c, ptr, i, parse), wanted)| <= left && i < |t| && t[i] == Render(c)[0]
    ensures Found(TInside(t, i, ptr, left, wanted, parse), Inner(c, ptr, i, parse), i + |Render(c)|, left, wanted)
    ensures TInside(t, i, ptr, left, wanted, parse).stopped <==> TInside(t, i, ptr, left, wanted, parse).left == 0
    decreases c, 2
  {
    hide Reads, AllWs, TMembers, TItems, Wanted, MemberNodes, ItemNodes, MembersText, ItemsText, Found, ReadString, SkipScalar;
    match c
    case CObject(ms, tail) =>
      assert "{"[0] == '{';
      ReadsSplit(t, i, "{", MembersText(ms, tail));
      TMembersRender(t, i + 1, ms, tail, ptr, left, wanted, parse);
    case CArray(xs, tail) =>
      assert "["[0] == '[';
      ReadsSplit(t, i, "[", ItemsText(xs, tail));
      TItemsRender(t, i + 1, xs, tail, ptr, 0, left, wanted, parse);
    case _ => TInsideScalar(t, i, c, ptr, left, wanted, parse);
  }

  lemma TInsideScalar(t: string, i: nat, c: Cst, ptr: string, left: int, wanted: set<string>, parse: Parse)
    requires c.CScalar? || c.CString?
    requires WellFormed(c, parse) && Reads(t, i, Render(c)) && TokenEnds(t, i + |Render(c)|) && left > 0 && i < |t| && t[i] == Render(c)[0]
    ensures TInside(t, i, ptr, left, wanted, parse) == TAt(i + |Render(c)|, [], left, false)
    ensures Found(TInside(t, i, ptr, left, wanted, parse), [], i + |Render(c)|, left, wanted)
  {
    hide Reads, ReadString, SkipScalar, StringOk, TMembers, TItems;
    RenderStarts(c, parse);
    match c
    case CScalar(tok) => SkipScalarRun(t, i, tok);
    case CString(body) => ReadsToken(t, i, body, parse);
  }

  lemma RootInteresting(wanted: set<string>)
    ensures Interesting("", wanted)
  {
  }

  lemma {:induction false} TMembersRender(t: string, i: nat, ms: seq<CMember>, tail: string, ptr: string, left: int, wanted: set<string>, parse: Parse)
    requires AllWs(tail) && (forall k :: 0 <= k < |ms| ==> MemberOk(ms[k], parse) && Unique(ms[k].value, parse)) && Reads(t, i, MembersText(ms, tail))
    requires left > 0 && |Wanted(MemberNodes(ms, tail, ptr, i, parse), wanted)| <= left
    ensures i <= |t| && Found(TMembers(t, i, ptr, left, wanted, parse), MemberNodes(ms, tail, ptr, i, parse), i + |MembersText(ms, tail)|, left, wanted)
    ensures TMembers(t, i, ptr, left, wanted, parse).stopped <==> TMembers(t, i, ptr, left, wanted, parse).left == 0
    decreases ms, 2
  {
    hide Reads, AllWs, ReadString, StringOk, TWalk, TokenEnds, MemberHead, SkipWs, Escape, WellFormed, TMembers, Render, Nodes, Unique;
    if ms == [] {
      TMembersEnd(t, i, tail, ptr, left, wanted, parse);
    } else {
      hide MembersText, Child, Decoded, Quoted, Wanted;
      var m, rest := ms[0], ms[1..];
      assert MemberOk(m, parse) && Unique(m.value, parse);
      MembersParts(t, i, ms, tail, parse);
      var at, after, more := i + |MemberHead(m)|, i + |MemberHead(m)| + |Render(m.value)|, MembersText(rest, tail);
      var next := after + |m.end| + |Comma(rest)|;
      var p, key := Child(ptr, Escape(Decoded(m.key, parse))), Some((i + |m.before|, |m.key| + 2));
      var a, b := Nodes(m.value, p, at, key, parse), MemberNodes(rest, tail, ptr, next, parse);
      assert MemberNodes(ms, tail, ptr, i, parse) == a + b;
      WantedConcat(a, b, wanted);
      TWalkRender(t, at, m.value, p, key, left, wanted, parse);
      var r := TWalk(t, at, p, key, left, wanted, parse);
      TMemberRead(t, i, m, ptr, left, wanted, parse, r.i, r.es, r.left);
      if r.left > 0 {
        TMembersResume(t, after, m.end, Comma(rest), more, ptr, r.left, wanted, parse);
        TMembersRender(t, next, rest, tail, ptr, r.left, wanted, parse);
      }
      ChainFound(r.i, r.es, r.left, TMembers(t, r.i, ptr, r.left, wanted, parse), a, b, after, i + |MembersText(ms, tail)|, left, wanted);
    }
  }

  /** One member read: its name, then its value walked, then the members that follow. */
  lemma TMemberRead(t: string, i: nat, m: CMember, ptr: string, left: int, wanted: set<string>, parse: Parse, mid: nat, es: seq<Entry>, n: int)
    requires Reads(t, i, MemberHead(m)) && MemberOk(m, parse) && i + |MemberHead(m)| <= |t| && mid <= |t|
    requires TWalk(t, i + |MemberHead(m)|, Child(ptr, Escape(Decoded(m.key, parse))), Some((i + |m.before|, |m.key| + 2)), left, wanted, parse) == TAt(mid, es, n, false)
    ensures i <= |t| && TMembers(t, i, ptr, left, wanted, parse) == Chain(mid, es, n, TMembers(t, mid, ptr, n, wanted, parse))
  {
    hide Reads, AllWs, ReadString, StringOk, TWalk, MemberHead, SkipWs, Escape, WellFormed, TMembers, Render, Child, Decoded, Quoted, Chain;
    HeadReads(t, i, m, parse);
    var s := i + |m.before|;
    var k := s + |m.key| + 2 + |m.mid|;
    var p, key := Child(ptr, Escape(Decoded(m.key, parse))), Some((s, |m.key| + 2));
    TWalkAfterWs(t, k + 1, m.after, p, key, left, wanted, parse);
    TMembersStep(t, i, ptr, left, wanted, parse, s, s + |m.key| + 2, Decoded(m.key, parse), k, mid, es, n);
  }

  lemma TItemRead(t: string, i: nat, x: CItem, ptr: string, idx: nat, left: int, wanted: set<string>, parse: Parse, mid: nat, es: seq<Entry>, n: int)
    requires AllWs(x.before) && WellFormed(x.value, parse) && Reads(t, i, x.before) && Reads(t, i + |x.before|, Render(x.value))
    requires i + |x.before| <= |t| && mid <= |t| && (n != 0 ==> mid != i + |x.before|)
    requires TWalk(t, i + |x.before|, Child(ptr, NatText(idx)), None, left, wanted, parse) == TAt(mid, es, n, false)
    ensures i <= |t| && TItems(t, i, ptr, idx, left, wanted, parse) == Chain(mid, es, n, TItems(t, mid, ptr, idx + 1, n, wanted, parse))
  {
    hide Reads, AllWs, TWalk, SkipWs, NatText, WellFormed, TItems, Render, Child, Chain;
    SkipWsRun(t, i, x.before);
    RenderStarts(x.value, parse);
    FirstOf(t, i + |x.before|, Render(x.value));
    SkipNone(t, i + |x.before|);
    TItemsStep(t, i, ptr, idx, left, wanted, parse, i + |x.before|, mid, es, n);
  }

  /** What a loop finds is what its first element holds and what the rest hold. */
  lemma ChainFound(m: nat, es: seq<Entry>, n: int, rest: Targeted, a: seq<Entry>, b: seq<Entry>, mid: nat, end: nat, left: int, wanted: set<string>)
    requires left > 0 && |Wanted(a + b, wanted)| <= left && Found(TAt(m, es, n, false), a, mid, left, wanted)
    requires n > 0 ==> Found(rest, b, end, n, wanted) && (rest.stopped <==> rest.left == 0)
    ensures var r := Chain(m, es, n, rest); Found(r, a + b, end, left, wanted) && (r.stopped <==> r.left == 0)
  {
    hide Wanted;
    WantedConcat(a, b, wanted);
  }

  lemma TMembersEnd(t: string, i: nat, tail: string, ptr: string, left: int, wanted: set<string>, parse: Parse)
    requires AllWs(tail) && Reads(t, i, tail + "}")
    ensures i <= |t| && TMembers(t, i, ptr, left, wanted, parse) == TAt(i + |tail| + 1, [], left, false)
  {
    hide Reads, AllWs, SkipWs;
    ReadsSplit(t, i, tail, "}");
    SkipWsRun(t, i, tail);
    FirstOf(t, i + |tail|, "}");
    SkipNone(t, i + |tail|);
  }

  lemma TItemsEnd(t: string, i: nat, tail: string, ptr: string, idx: nat, left: int, wanted: set<string>, parse: Parse)
    requires AllWs(tail) && Reads(t, i, tail + "]")
    ensures i <= |t| && TItems(t, i, ptr, idx, left, wanted, parse) == TAt(i + |tail| + 1, [], left, false)
  {
    hide Reads, AllWs, SkipWs;
    ReadsSplit(t, i, tail, "]");
    SkipWsRun(t, i, tail);
    FirstOf(t, i + |tail|, "]");
    SkipNone(t, i + |tail|);
  }

  lemma {:induction false} TItemsRender(t: string, i: nat, xs: seq<CItem>, tail: string, ptr: string, idx: nat, left: int, wanted: set<string>, parse: Parse)
    requires AllWs(tail) && (forall k :: 0 <= k < |xs| ==> AllWs(xs[k].before) && AllWs(xs[k].end) && WellFormed(xs[k].value, parse) && Unique(xs[k].value, parse))
    requires Reads(t, i, ItemsText(xs, tail))
    requires left > 0 && |Wanted(ItemNodes(xs, tail, ptr, idx, i, parse), wanted)| <= left
    ensures i <= |t| && Found(TItems(t, i, ptr, idx, left, wanted, parse), ItemNodes(xs, tail, ptr, idx, i, parse), i + |ItemsText(xs, tail)|, left, wanted)
    ensures TItems(t, i, ptr, idx, left, wanted, parse).stopped <==> TItems(t, i, ptr, idx, left, wanted, parse).left == 0
    decreases xs, 2
  {
    hide Reads, AllWs, TWalk, TokenEnds, SkipWs, NatText, TItems, Render, Nodes, WellFormed, Unique, Child;
    if xs == [] {
      TItemsEnd(t, i, tail, ptr, idx, left, wanted, parse);
    } else {
      hide ItemsText, Wanted;
      var x, rest := xs[0], xs[1..];
      assert WellFormed(x.value, parse) && AllWs(x.before) && AllWs(x.end) && Unique(x.value, parse);
      ItemsParts(t, i, xs, tail);
      var at, after, more := i + |x.before|, i + |x.before| + |Render(x.value)|, ItemsText(rest, tail);
      var next := after + |x.end| + |Comma(rest)|;
      var p := Child(ptr, NatText(idx));
      var a, b := Nodes(x.value, p, at, None, parse), ItemNodes(rest, tail, ptr, idx + 1, next, parse);
      assert ItemNodes(xs, tail, ptr, idx, i, parse) == a + b;
      WantedConcat(a, b, wanted);
      RenderStarts(x.value, parse);
      TWalkRender(t, at, x.value, p, None, left, wanted, parse);
      var r := TWalk(t, at, p, None, left, wanted, parse);
      TItemRead(t, i, x, ptr, idx, left, wanted, parse, r.i, r.es, r.left);
      if r.left > 0 {
        TItemsResume(t, after, x.end, Comma(rest), more, ptr, idx + 1, r.left, wanted, parse);
        TItemsRender(t, next, rest, tail, ptr, idx + 1, r.left, wanted, parse);
      }
      ChainFound(r.i, r.es, r.left, TItems(t, r.i, ptr, idx + 1, r.left, wanted, parse), a, b, after, i + |ItemsText(xs, tail)|, left, wanted);
    }
  }
}
