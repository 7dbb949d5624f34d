/**
 Offsets turned into lines and columns (lib/data-positions.js:136-177), and the cache in front of
 both maps (lib/data-position-cache.js).
 */
module PositionLines {
  import opened Json
  import opened PositionWalk

  // ---------------------------------------------------------------- what a line and a column are

  /** How many lines end before the offset. */
  function LineNo(t: string, off: nat): nat
    requires off <= |t|
  {
    if off == 0 then 0 else LineNo(t, off - 1) + (if t[off - 1] == '\n' then 1 else 0)
  }

  function LineStart(t: string, off: nat): (s: nat)
    requires off <= |t|
    ensures s <= off && (s == 0 || t[s - 1] == '\n') && forall k :: s <= k < off ==> t[k] != '\n'
  {
    if off == 0 || t[off - 1] == '\n' then off else LineStart(t, off - 1)
  }

  function LineEnd(t: string, off: nat): (e: nat)
    requires off <= |t|
    ensures off <= e <= |t| && (e == |t| || t[e] == '\n') && forall k :: off <= k < e ==> t[k] != '\n'
    decreases |t| - off
  {
    if off == |t| || t[off] == '\n' then off else LineEnd(t, off + 1)
  }

  datatype KeyPlace = KeyPlace(offset: nat, length: nat, line: nat, col: nat)

  /** What an error's frame reads; `textCol` is there when the line was cut. */
  datatype Placed = Placed(offset: nat, length: nat, line: nat, col: nat, text: string, textCol: Option<int>, key: Option<KeyPlace>)

  const WINDOW := 200
  const BEFORE := 60

  /** Where the cut of a long line starts, for a value in column `col`. */
  function CutAt(col: nat, len: nat): (s: nat)
    requires 1 <= col && WINDOW < len
    ensures s + WINDOW <= len
  {
    var s := if col > BEFORE + 1 then col - BEFORE - 1 else 0;
    if s + WINDOW > len then len - WINDOW else s
  }

  function PlaceKey(t: string, off: nat, len: nat): KeyPlace
    requires off <= |t|
  {
    KeyPlace(off, len, LineNo(t, off) + 1, off - LineStart(t, off) + 1)
  }

  predicate InText(t: string, e: Entry) {
    e.start < |t| && t[e.start] != '\n' && (e.key.Some? ==> e.key.value.0 <= |t|)
  }

  function Place(t: string, e: Entry): Placed
    requires InText(t, e)
  {
    var from := LineStart(t, e.start);
    var line := t[from..LineEnd(t, e.start)];
    var col := e.start - from + 1;
    var key := if e.key.Some? then Some(PlaceKey(t, e.key.value.0, e.key.value.1)) else None;
    if |line| > WINDOW then
      var s := CutAt(col, |line|);
      Placed(e.start, e.len, LineNo(t, e.start) + 1, col, line[s..s + WINDOW], Some(col - s), key)
    else Placed(e.start, e.len, LineNo(t, e.start) + 1, col, line, None, key)
  }

  // ---------------------------------------------------------------- what that gives a reader

  /** The offset a line and a column name. */
  function OffsetOf(t: string, line: nat, col: nat): Option<nat>
  {
    OffsetFrom(t, 0, line, col)
  }

  function OffsetFrom(t: string, from: nat, line: nat, col: nat): Option<nat>
    requires from <= |t|
    decreases line
  {
    if line == 0 || col == 0 then None
    else if line == 1 then
      if from + col - 1 <= LineEnd(t, from) then Some(from + col - 1) else None
    else if LineEnd(t, from) == |t| then None
    else OffsetFrom(t, LineEnd(t, from) + 1, line - 1, col)
  }

  lemma {:induction false} SameLine(t: string, a: nat, b: nat)
    requires a <= b <= |t| && forall k :: a <= k < b ==> t[k] != '\n'
    ensures LineNo(t, b) == LineNo(t, a) && LineStart(t, b) == LineStart(t, a) && LineEnd(t, b) == LineEnd(t, a)
    decreases b - a
  {
    if a < b { SameLine(t, a, b - 1); }
  }

  /** Line and column convert back to the offset they came from. */
  lemma {:induction false} OffsetRoundTrip(t: string, from: nat, off: nat)
    requires from <= off <= |t| && LineStart(t, from) == from
    ensures LineNo(t, off) >= LineNo(t, from)
    ensures OffsetFrom(t, from, LineNo(t, off) - LineNo(t, from) + 1, off - LineStart(t, off) + 1) == Some(off)
    decreases |t| - from
  {
    hide LineNo, LineStart, LineEnd;
    var e := LineEnd(t, from);
    if off <= e {
      SameLine(t, from, off);
    } else {
      NextLine(t, from);
      OffsetRoundTrip(t, e + 1, off);
    }
  }

  lemma NextLine(t: string, from: nat)
    requires from <= |t| && LineEnd(t, from) < |t|
    ensures var e := LineEnd(t, from); LineStart(t, e + 1) == e + 1 && LineNo(t, e + 1) == LineNo(t, from) + 1
  {
    hide LineEnd;
    SameLine(t, from, LineEnd(t, from));
  }

  lemma PlaceRoundTrip(t: string, e: Entry)
    requires InText(t, e)
    ensures var p := Place(t, e);
            OffsetOf(t, p.line, p.col) == Some(p.offset)
    ensures var p := Place(t, e);
            p.key.Some? ==> OffsetOf(t, p.key.value.line, p.key.value.col) == Some(p.key.value.offset)
  {
    hide LineEnd, OffsetFrom;
    LineZero(t);
    hide LineNo, LineStart;
    OffsetRoundTrip(t, 0, e.start);
    if e.key.Some? { OffsetRoundTrip(t, 0, e.key.value.0); }
  }

  lemma LineZero(t: string)
    ensures LineNo(t, 0) == 0 && LineStart(t, 0) == 0
  {
  }

  /** The text is exactly this part of the document. */
  predicate Shows(t: string, text: string, from: nat, until: nat) { from <= until <= |t| && text == t[from..until] }

  /**
   A line of up to 200 characters is shown whole, with the value's first character at `col`. A longer one is
   cut to 200 characters, with that character at `textCol`: after 60 others, or fewer where the line begins
   within them, or more where the line ends within the rest.
   */
  lemma CutShowsValue(t: string, e: Entry)
    requires InText(t, e)
    ensures var p := Place(t, e);
            var from, end := LineStart(t, e.start), LineEnd(t, e.start);
            && '\n' !in p.text && p.col == e.start - from + 1 && (p.textCol.None? <==> end - from <= 200)
            && (p.textCol.None? ==> 1 <= p.col <= |p.text| && p.text[p.col - 1] == t[p.offset] && Shows(t, p.text, from, end))
            && (p.textCol.Some? ==>
                  var at := p.textCol.value;
                  && |p.text| == 200 && 1 <= at <= 200 && p.text[at - 1] == t[p.offset] && at <= p.col
                  && Shows(t, p.text, from + p.col - at, from + p.col - at + 200)
                  && (at == 61 || (at < 61 && at == p.col) || (at > 61 && from + p.col - at + 200 == end)))
  {
    hide LineNo, LineStart, LineEnd, CutAt;
    var from := LineStart(t, e.start);
    var end := LineEnd(t, e.start);
    var line := t[from..end];
    var col := e.start - from + 1;
    LineEndPast(t, e.start);
    assert line[col - 1] == t[e.start];
    LineUnbroken(t, e.start, line);
    if |line| > WINDOW {
      CutKeeps(line, col);
      CutShown(t, from, end, CutAt(col, |line|));
    }
  }

  lemma LineUnbroken(t: string, off: nat, line: string)
    requires off <= |t| && line == t[LineStart(t, off)..LineEnd(t, off)]
    ensures '\n' !in line
  {
    hide LineStart, LineEnd;
    var from := LineStart(t, off);
    forall k | 0 <= k < |line| ensures line[k] != '\n' {
      assert line[k] == t[from + k];
      if from + k < off {} else { assert off <= from + k < LineEnd(t, off); }
    }
  }

  lemma CutShown(t: string, from: nat, end: nat, s: nat)
    requires from <= end <= |t| && s + WINDOW <= end - from
    ensures Shows(t, t[from..end][s..s + WINDOW], from + s, from + s + WINDOW)
  {
    var a, b := t[from..end][s..s + WINDOW], t[from + s..from + s + WINDOW];
    assert |a| == |b|;
    forall k | 0 <= k < |a| ensures a[k] == b[k] {}
  }

  /** The window holds the column, where its own column says. */
  lemma CutKeeps(line: string, col: nat)
    requires 1 <= col <= |line| && WINDOW < |line| && '\n' !in line
    ensures var s := CutAt(col, |line|);
            && 1 <= col - s <= WINDOW && line[s..s + WINDOW][col - s - 1] == line[col - 1] && '\n' !in line[s..s + WINDOW]
            && (col - s == 61 || (col - s < 61 && s == 0) || (col - s > 61 && s + WINDOW == |line|))
  {
    var s := CutAt(col, |line|);
    assert forall c :: c in line[s..s + WINDOW] ==> c in line;
  }

  lemma LineEndPast(t: string, off: nat)
    requires off < |t| && t[off] != '\n'
    ensures off < LineEnd(t, off)
  {
  }

  // ---------------------------------------------------------------- splitting and searching

  /** The lines of a text from an offset on, as splitting at each line feed leaves them. */
  function Lines(t: string, from: nat): (r: seq<string>)
    requires from <= |t|
    ensures r != []
    decreases |t| - from
  {
    var e := LineEnd(t, from);
    [t[from..e]] + if e == |t| then [] else Lines(t, e + 1)
  }

  ghost predicate LineAt(t: string, line: string, start: nat, k: nat) {
    && start <= |t| && LineNo(t, start) == k && LineStart(t, start) == start
    && start + |line| == LineEnd(t, start) && line == t[start..start + |line|]
  }

  /** The first `k` lines begin where the table says, and the next entry is where the rest begins. */
  ghost predicate StartsTo(t: string, lines: seq<string>, starts: seq<nat>, k: nat) {
    && |starts| == k + 1 && k <= |lines| && starts[0] == 0
    && (forall j :: 0 <= j < k ==> LineAt(t, lines[j], starts[j], j))
    && (forall j, l :: 0 <= j < l <= k && l == j + 1 ==> starts[l] == starts[j] + |lines[j]| + 1)
    && (if k == |lines| then starts[k] == |t| + 1 else Rest(t, lines[k..], starts[k], k))
  }

  ghost predicate Rest(t: string, lines: seq<string>, start: nat, k: nat) {
    start <= |t| && lines == Lines(t, start) && LineNo(t, start) == k && LineStart(t, start) == start
  }

  lemma StartsStep(t: string, lines: seq<string>, starts: seq<nat>, k: nat)
    requires k < |lines| && StartsTo(t, lines, starts, k)
    ensures StartsTo(t, lines, starts + [starts[k] + |lines[k]| + 1], k + 1)
  {
    hide LineAt, Rest;
    assert lines[k..][0] == lines[k] && lines[k + 1..] == lines[k..][1..];
    RestStep(t, lines[k..], starts[k], k);
    var more := starts + [starts[k] + |lines[k]| + 1];
    forall j | 0 <= j < k + 1 ensures LineAt(t, lines[j], more[j], j) {
      if j < k { assert LineAt(t, lines[j], starts[j], j); }
    }
  }

  lemma RestStep(t: string, lines: seq<string>, start: nat, k: nat)
    requires lines != [] && Rest(t, lines, start, k)
    ensures LineAt(t, lines[0], start, k)
    ensures if |lines| == 1 then start + |lines[0]| == |t| else Rest(t, lines[1..], start + |lines[0]| + 1, k + 1)
  {
    hide LineNo, LineStart, LineEnd;
    var e := LineEnd(t, start);
    assert lines[0] == t[start..e];
    if e < |t| {
      NextLine(t, start); assert lines[1..] == Lines(t, e + 1); }
  }

  method StartTable(t: string, lines: seq<string>) returns (lineStart: array<nat>)
    requires lines == Lines(t, 0)
    ensures fresh(lineStart) && StartsTo(t, lines, lineStart[..], |lines|)
  {
    hide StartsTo;
    lineStart := new nat[|lines| + 1];
    lineStart[0] := 0;
    StartsBegin(t, lines);
    assert lineStart[..1] == [0];
    var k := 0;
    while k < |lines|
      invariant 0 <= k <= |lines| && StartsTo(t, lines, lineStart[..k + 1], k)
    {
      ghost var before := lineStart[..k + 1];
      StartsStep(t, lines, before, k);
      lineStart[k + 1] := lineStart[k] + |lines[k]| + 1;
      assert lineStart[..k + 2] == before + [before[k] + |lines[k]| + 1];
      k := k + 1;
    }
    assert lineStart[..k + 1] == lineStart[..];
  }

  lemma StartsBegin(t: string, lines: seq<string>)
    requires lines == Lines(t, 0)
    ensures StartsTo(t, lines, [0], 0)
  {
    assert lines[0..] == lines;
  }

  /** The last line that starts at or before the offset: the line the offset is on. */
  method LineOf(lineStart: array<nat>, off: nat, ghost t: string, ghost lines: seq<string>) returns (line: nat)
    requires StartsTo(t, lines, lineStart[..], |lines|) && off <= |t|
    ensures line == LineNo(t, off) && line < |lines| && line < lineStart.Length
    ensures lineStart[line] == LineStart(t, off) && lines[line] == t[LineStart(t, off)..LineEnd(t, off)]
  {
    hide LineNo, LineAt;
    var lo, hi := 0, lineStart.Length - 1;
    while lo < hi
      invariant 0 <= lo <= hi < lineStart.Length && lineStart[lo] <= off
      invariant hi < lineStart.Length - 1 ==> off < lineStart[hi + 1]
      decreases hi - lo
    {
      var mid := (lo + hi + 1) / 2;
      if lineStart[mid] <= off { lo := mid; } else { hi := mid - 1; }
    }
    FoundLine(t, lines, lineStart[..], lo, off);
    line := lo;
  }

  lemma FoundLine(t: string, lines: seq<string>, starts: seq<nat>, line: nat, off: nat)
    requires StartsTo(t, lines, starts, |lines|) && off <= |t| && line < |lines| && starts[line] <= off < starts[line + 1]
    ensures LineNo(t, off) == line && LineStart(t, off) == starts[line]
    ensures lines[line] == t[LineStart(t, off)..LineEnd(t, off)]
  {
    assert LineAt(t, lines[line], starts[line], line);
    SameLine(t, starts[line], off);
  }

  method PlaceOne(t: string, lines: seq<string>, lineStart: array<nat>, off: nat, len: nat, keyStart: int, keyLen: nat) returns (p: Placed)
    requires StartsTo(t, lines, lineStart[..], |lines|)
    requires off < |t| && t[off] != '\n' && keyStart <= |t|
    ensures p == Place(t, Entry("", off, len, if keyStart >= 0 then Some((keyStart, keyLen)) else None))
  {
    hide LineNo, LineStart, LineEnd, StartsTo;
    var line := LineOf(lineStart, off, t, lines);
    var col := off - lineStart[line] + 1;
    var text, textCol := lines[line], None;
    if |text| > WINDOW {
      var s := if col > BEFORE + 1 then col - BEFORE - 1 else 0;
      if s + WINDOW > |text| { s := |text| - WINDOW; }
      text, textCol := text[s..s + WINDOW], Some(col - s);
    }
    var key := None;
    if keyStart >= 0 {
      var keyLine := LineOf(lineStart, keyStart, t, lines);
      key := Some(KeyPlace(keyStart, keyLen, keyLine + 1, keyStart - lineStart[keyLine] + 1));
    }
    p := Placed(off, len, line + 1, col, text, textCol, key);
  }
}
