/** Making emitted source safe inside a script element (lib/aot-impl.js:1343-1372). */
module HtmlSafe {
  import opened Json

  function Lower(c: char): char { if 'A' <= c <= 'Z' then ((c as int) + 32) as char else c }

  /** `s` holds `p` at `i`, letters in either case. */
  predicate HasAt(s: string, i: nat, p: string) {
    i + |p| <= |s| && forall k :: 0 <= k < |p| ==> Lower(s[i + k]) == p[k]
  }

  const SCRIPT := "</script"
  const COMMENT := "<!--"

  /** The length of what would end or change a script element at `i`; 0 for none. */
  function MatchLen(s: string, i: nat): (n: nat)
    ensures n > 0 ==> i + n <= |s| && s[i] == '<' && n >= 4
  {
    assert HasAt(s, i, SCRIPT) ==> Lower(s[i + 0]) == SCRIPT[0];
    assert HasAt(s, i, COMMENT) ==> Lower(s[i + 0]) == COMMENT[0];
    if HasAt(s, i, SCRIPT) then 8 else if HasAt(s, i, COMMENT) then 4 else 0
  }

  /** The escape that means `<` in a string, a template and a regular expression. */
  const LESS := "\\x3C"

  /** A backslash goes with the character after it, unless that is a `<` to be rewritten: then it is dropped. */
  function Safe(s: string): string
    decreases |s|
  {
    if s == "" then ""
    else if s[0] == '\\' then
      if |s| == 1 then s
      else if MatchLen(s, 1) > 0 then LESS + s[2..1 + MatchLen(s, 1)] + Safe(s[1 + MatchLen(s, 1)..])
      else s[..2] + Safe(s[2..])
    else if MatchLen(s, 0) > 0 then LESS + s[1..MatchLen(s, 0)] + Safe(s[MatchLen(s, 0)..])
    else s[..1] + Safe(s[1..])
  }

  // ---------------------------------------------------------------- nothing is left to find

  predicate PatternChar(c: char) { c != '<' && c != '\\' }

  lemma MatchShift(s: string, t: string, i: nat)
    ensures MatchLen(t + s, |t| + i) == MatchLen(s, i)
  {
    assert forall k :: 0 <= k < |s| ==> (t + s)[|t| + k] == s[k];
    MatchTail(s, t, i, SCRIPT);
    MatchTail(s, t, i, COMMENT);
  }

  lemma MatchTail(s: string, t: string, i: nat, p: string)
    ensures HasAt(t + s, |t| + i, p) <==> HasAt(s, i, p)
  {
    if HasAt(t + s, |t| + i, p) {
      forall k | 0 <= k < |p| ensures Lower(s[i + k]) == p[k] { assert (t + s)[|t| + i + k] == s[i + k]; }
    }
    if HasAt(s, i, p) {
      forall k | 0 <= k < |p| ensures Lower((t + s)[|t| + i + k]) == p[k] { assert (t + s)[|t| + i + k] == s[i + k]; }
    }
  }

  /** Characters that are neither `<` nor a backslash come through at the front of the output as they stood. */
  lemma {:induction false} PlainFront(s: string, n: nat)
    requires n <= |Safe(s)| && forall k :: 0 <= k < n ==> PatternChar(Safe(s)[k])
    ensures n <= |s| && s[..n] == Safe(s)[..n]
    decreases n
  {
    if n > 0 {
      assert PatternChar(Safe(s)[0]);
      assert s[0] != '\\' && MatchLen(s, 0) == 0;
      var rest := Safe(s[1..]);
      assert Safe(s) == s[..1] + rest;
      forall k | 0 <= k < n - 1 ensures PatternChar(rest[k]) { assert Safe(s)[k + 1] == rest[k]; }
      PlainFront(s[1..], n - 1);
      assert s[..n] == s[..1] + s[1..][..n - 1];
      assert Safe(s)[..n] == s[..1] + rest[..n - 1];
    }
  }

  /** A match in front of an output was there in front of the input. */
  lemma FrontMatch(s: string, p: string)
    requires p in {SCRIPT, COMMENT} && HasAt("<" + Safe(s), 0, p)
    ensures HasAt("<" + s, 0, p)
  {
    var n := |p| - 1;
    var o := Safe(s);
    forall k | 0 <= k < n ensures PatternChar(o[k]) {
      assert ("<" + o)[k + 1] == o[k];
      assert Lower(("<" + o)[0 + (k + 1)]) == p[k + 1];
    }
    PlainFront(s, n);
    forall k | 0 <= k < |p| ensures Lower(("<" + s)[0 + k]) == p[k] {
      assert Lower(("<" + o)[0 + k]) == p[k];
      if k > 0 { assert ("<" + s)[k] == s[k - 1] == s[..n][k - 1] == o[..n][k - 1] == o[k - 1] == ("<" + o)[k]; }
    }
  }

  predicate Clean(s: string) { forall i: nat :: i < |s| ==> MatchLen(s, i) == 0 }

  /** A match begins with `<`, so a clean tail after text without one is clean. */
  lemma CleanAfter(t: string, s: string)
    requires Clean(s) && '<' !in t
    ensures Clean(t + s)
  {
    forall i: nat | i < |t + s| ensures MatchLen(t + s, i) == 0 {
      if i < |t| {
        assert (t + s)[i] == t[i];
      } else {
        MatchShift(s, t, i - |t|);
      }
    }
  }

  lemma CleanLess(s: string)
    requires Clean(Safe(s)) && MatchLen("<" + s, 0) == 0
    ensures Clean("<" + Safe(s))
  {
    var t := "<" + Safe(s);
    if HasAt(t, 0, SCRIPT) { FrontMatch(s, SCRIPT); }
    if HasAt(t, 0, COMMENT) { FrontMatch(s, COMMENT); }
    forall i: nat | i < |t| ensures MatchLen(t, i) == 0 {
      if i > 0 { MatchShift(Safe(s), "<", i - 1); }
    }
  }

  lemma MatchBody(s: string, i: nat)
    requires MatchLen(s, i) > 0
    ensures '<' !in s[i + 1..i + MatchLen(s, i)]
  {
    var n := MatchLen(s, i);
    var p := if HasAt(s, i, SCRIPT) then SCRIPT else COMMENT;
    forall j | i < j < i + n ensures s[j] != '<' {
      assert Lower(s[i + (j - i)]) == p[j - i];
      assert p[j - i] != '<';
    }
  }

  /** The output holds no `</script`, in any case, and no `<!--`. */
  lemma {:induction false} SafeIsClean(s: string)
    ensures Clean(Safe(s))
    decreases |s|
  {
    if s != "" {
      if s[0] == '\\' {
        if |s| > 1 {
          var n := MatchLen(s, 1);
          if n > 0 {
            SafeIsClean(s[1 + n..]);
            MatchBody(s, 1);
            CleanAfter(LESS + s[2..1 + n], Safe(s[1 + n..]));
          } else {
            SafeIsClean(s[2..]);
            if s[1] == '<' {
              assert s == s[..1] + ("<" + s[2..]);
              MatchShift("<" + s[2..], s[..1], 0);
              CleanLess(s[2..]);
              CleanAfter(s[..1], "<" + Safe(s[2..]));
              assert s[..2] + Safe(s[2..]) == s[..1] + ("<" + Safe(s[2..]));
            } else {
              CleanAfter(s[..2], Safe(s[2..]));
            }
          }
        }
      } else if MatchLen(s, 0) > 0 {
        var n := MatchLen(s, 0);
        SafeIsClean(s[n..]);
        MatchBody(s, 0);
        CleanAfter(LESS + s[1..n], Safe(s[n..]));
      } else {
        SafeIsClean(s[1..]);
        if s[0] == '<' {
          assert s == "<" + s[1..];
          CleanLess(s[1..]);
          assert s[..1] + Safe(s[1..]) == "<" + Safe(s[1..]);
        } else {
          CleanAfter(s[..1], Safe(s[1..]));
        }
      }
    }
  }

  // ---------------------------------------------------------------- literals mean what they meant

  function Lit(front: string, rest: Option<string>): Option<string> {
    match rest case None => None case Some(r) => Some(front + r)
  }

  /** Where the hexadecimal digits from `i` on end. */
  function HexEnd(s: string, i: nat): (j: nat)
    requires i <= |s|
    ensures i <= j <= |s| && (j < |s| ==> !IsHex(s[j])) && forall k :: i <= k < j ==> IsHex(s[k])
    decreases |s| - i
  {
    if i == |s| || !IsHex(s[i]) then i else HexEnd(s, i + 1)
  }

  function HexValue(h: string): nat
    requires forall k :: 0 <= k < |h| ==> IsHex(h[k])
  {
    if h == "" then 0 else 16 * HexValue(h[..|h| - 1]) + HexDigit(h[|h| - 1])
  }

  const LAST_CODE_POINT := 0x10FFFF

  /** The length of a backslash, a `u` and a code point in braces; 0 for none. */
  function BraceLen(s: string): (n: nat)
    requires |s| >= 2
    ensures n == 0 || 5 <= n <= |s|
    ensures n > 0 ==> s[2] == '{' && s[n - 1] == '}' && forall k :: 3 <= k < n - 1 ==> IsHex(s[k])
  {
    if |s| < 5 || s[2] != '{' then 0
    else
      var j := HexEnd(s, 3);
      if j == 3 || j == |s| || s[j] != '}' || HexValue(s[3..j]) > LAST_CODE_POINT then 0 else j + 1
  }

  /** The characters an escape can hold after its second. */
  predicate InEscape(c: char) { IsHex(c) || c == '{' || c == '}' }

  /** The length of a well-formed escape in front; 0 for none. */
  function EscapeLen(s: string): (n: nat)
    requires s != "" && s[0] == '\\'
    ensures n == 0 || 2 <= n <= |s|
    ensures n > 0 ==> forall k :: 2 <= k < n ==> InEscape(s[k])
  {
    if |s| == 1 then 0
    else if s[1] == 'x' then (if |s| >= 4 && IsHex(s[2]) && IsHex(s[3]) then 4 else 0)
    else if s[1] == 'u' && |s| >= 3 && s[2] == '{' then BraceLen(s)
    else if s[1] == 'u' then (if |s| >= 6 && IsHex(s[2]) && IsHex(s[3]) && IsHex(s[4]) && IsHex(s[5]) then 6 else 0)
    else 2
  }

  /** What an escape stands for; `single` answers for those of one character, and `<` stands for itself. */
  function EscapeValue(e: string, single: char -> string): string
    requires |e| >= 2 && e[0] == '\\' && EscapeLen(e) == |e|
  {
    if e[1] == 'x' then [(16 * HexDigit(e[2]) + HexDigit(e[3])) as char]
    else if e[1] == 'u' && e[2] == '{' then CodePoint(e[3..|e| - 1])
    else if e[1] == 'u' then CodeUnit(e[2..6])
    else if e[1] == '<' then "<"
    else single(e[1])
  }

  /** What the inside of a literal between `quote`s stands for; None when it is not well formed. */
  function Value(s: string, quote: char, single: char -> string): Option<string>
    decreases |s|
  {
    if s == "" then Some("")
    else if s[0] == quote then None
    else if s[0] != '\\' then Lit(s[..1], Value(s[1..], quote, single))
    else if EscapeLen(s) == 0 then None
    else
      EscapeFront(s);
      Lit(EscapeValue(s[..EscapeLen(s)], single), Value(s[EscapeLen(s)..], quote, single))
  }

  /** A code unit written with four digits; those a `char` cannot hold are kept as written. */
  function CodeUnit(h: string): string
    requires |h| == 4 && forall k :: 0 <= k < 4 ==> IsHex(h[k])
  {
    var n := 4096 * HexDigit(h[0]) + 256 * HexDigit(h[1]) + 16 * HexDigit(h[2]) + HexDigit(h[3]);
    if n < 0xD800 || 0xE000 <= n then [n as char] else h
  }

  /** A code point in braces, read the same way. */
  function CodePoint(h: string): string
    requires forall k :: 0 <= k < |h| ==> IsHex(h[k])
  {
    var n := HexValue(h);
    if n < 0xD800 || 0xE000 <= n <= LAST_CODE_POINT then [n as char] else h
  }

  lemma BraceSame(s: string, w: string)
    requires |s| >= 2 && BraceLen(s) > 0 && BraceLen(s) <= |w| && forall k :: 0 <= k < BraceLen(s) ==> w[k] == s[k]
    ensures BraceLen(w) == BraceLen(s)
  {
    var n := BraceLen(s);
    HexEndTo(w, 3, n - 1);
    assert w[3..n - 1] == s[3..n - 1];
  }

  lemma {:induction false} HexEndTo(s: string, i: nat, j: nat)
    requires i <= j < |s| && !IsHex(s[j]) && forall k :: i <= k < j ==> IsHex(s[k])
    ensures HexEnd(s, i) == j
    decreases j - i
  {
    if i < j { HexEndTo(s, i + 1, j); }
  }

  /** An escape ends where it ends, whatever follows it. */
  lemma EscapeSame(s: string, w: string)
    requires s != "" && s[0] == '\\' && EscapeLen(s) > 0 && EscapeLen(s) <= |w| && forall k :: 0 <= k < EscapeLen(s) ==> w[k] == s[k]
    ensures EscapeLen(w) == EscapeLen(s)
  {
    if s[1] == 'u' && |s| >= 3 && s[2] == '{' { BraceSame(s, w); }
  }

  lemma EscapeFront(s: string)
    requires s != "" && s[0] == '\\' && EscapeLen(s) > 0
    ensures EscapeLen(s[..EscapeLen(s)]) == EscapeLen(s)
  {
    EscapeSame(s, s[..EscapeLen(s)]);
  }

  /** Characters that are neither `<` nor a backslash are copied. */
  lemma {:induction false} SafeCopies(t: string, s: string)
    requires forall k :: 0 <= k < |t| ==> PatternChar(t[k])
    ensures Safe(t + s) == t + Safe(s)
    decreases |t|
  {
    if t == "" {
      assert t + s == s;
    } else {
      assert (t + s)[0] == t[0] && (t + s)[1..] == t[1..] + s && (t + s)[..1] == t[..1];
      SafeCopies(t[1..], s);
      assert t == t[..1] + t[1..];
    }
  }

  lemma ValueOfEscape(e: string, s: string, quote: char, single: char -> string)
    requires |e| >= 2 && e[0] == '\\' && EscapeLen(e) == |e| && quote != '\\'
    ensures Value(e + s, quote, single) == Lit(EscapeValue(e, single), Value(s, quote, single))
  {
    var w := e + s;
    assert forall k :: 0 <= k < |e| ==> w[k] == e[k];
    EscapeSame(e, w);
    assert w[..|e|] == e && w[|e|..] == s;
  }

  lemma ValueOfLess(m: string, s: string, quote: char, single: char -> string)
    requires quote !in m && '\\' !in m && quote != '\\'
    ensures Value(LESS + m + s, quote, single) == Lit("<" + m, Value(s, quote, single))
  {
    assert LESS + m + s == LESS + (m + s);
    assert EscapeLen(LESS) == 4 && EscapeValue(LESS, single) == "<";
    ValueOfEscape(LESS, m + s, quote, single);
    ValueOfPlain(m, s, quote, single);
    if Value(s, quote, single).Some? { assert "<" + (m + Value(s, quote, single).value) == "<" + m + Value(s, quote, single).value; }
  }

  lemma {:induction false} ValueOfPlain(m: string, s: string, quote: char, single: char -> string)
    requires quote !in m && '\\' !in m
    ensures Value(m + s, quote, single) == Lit(m, Value(s, quote, single))
    decreases |m|
  {
    if m == "" {
      assert m + s == s;
      if Value(s, quote, single).Some? { assert m + Value(s, quote, single).value == Value(s, quote, single).value; }
    } else {
      assert (m + s)[0] == m[0] && (m + s)[1..] == m[1..] + s && (m + s)[..1] == m[..1];
      ValueOfPlain(m[1..], s, quote, single);
      if Value(s, quote, single).Some? { assert m[..1] + (m[1..] + Value(s, quote, single).value) == m + Value(s, quote, single).value; }
    }
  }

  /** The characters a match can hold. */
  predicate InMatch(c: char) { c in "</script!-" || c in "SCRIPT" }

  lemma MatchChars(s: string, i: nat)
    requires MatchLen(s, i) > 0
    ensures forall k :: i <= k < i + MatchLen(s, i) ==> InMatch(s[k])
  {
    var p := if HasAt(s, i, SCRIPT) then SCRIPT else COMMENT;
    forall k | i <= k < i + MatchLen(s, i) ensures InMatch(s[k]) {
      assert Lower(s[i + (k - i)]) == p[k - i];
      assert p[k - i] in "</script!-";
      LowerBack(s[k], p[k - i]);
    }
  }

  lemma LowerBack(c: char, p: char)
    requires Lower(c) == p && p in "</script!-"
    ensures InMatch(c)
  {
    if 'A' <= c <= 'Z' {
      assert c == ((p as int) - 32) as char;
    }
  }

  /** A well-formed literal decodes to the same string after the rewriting, however many backslashes stand before a `<`. */
  lemma {:induction false} LiteralKept(s: string, quote: char, single: char -> string)
    requires quote in {'"', '\'', '`'} && Value(s, quote, single).Some?
    ensures Value(Safe(s), quote, single) == Value(s, quote, single)
    decreases |s|
  {
    hide Value, EscapeLen, MatchLen, EscapeValue;
    if s == "" {
    } else if s[0] == '\\' {
      ValueParts(s, quote, single);
      var n := MatchLen(s, 1);
      if n > 0 {
        MatchAfterBackslash(s, quote, single);
        LiteralKept(s[1 + n..], quote, single);
        MatchChars(s, 1);
        NotInMatch(s[2..1 + n], quote);
        ValueOfLess(s[2..1 + n], Safe(s[1 + n..]), quote, single);
      } else {
        LiteralKept(s[EscapeLen(s)..], quote, single);
        EscapeCopied(s);
        ValueOfEscape(s[..EscapeLen(s)], Safe(s[EscapeLen(s)..]), quote, single);
      }
    } else if MatchLen(s, 0) > 0 {
      var n := MatchLen(s, 0);
      MatchChars(s, 0);
      assert s == s[..n] + s[n..] && s[..n] == "<" + s[1..n];
      NotInMatch(s[..n], quote);
      NotInMatch(s[1..n], quote);
      ValueOfPlain(s[..n], s[n..], quote, single);
      LiteralKept(s[n..], quote, single);
      ValueOfLess(s[1..n], Safe(s[n..]), quote, single);
    } else {
      ValueParts(s, quote, single);
      LiteralKept(s[1..], quote, single);
      ValueOfPlain(s[..1], Safe(s[1..]), quote, single);
    }
  }

  lemma ValueParts(s: string, quote: char, single: char -> string)
    requires s != "" && Value(s, quote, single).Some? && quote != '\\'
    ensures s[0] != quote
    ensures s[0] != '\\' ==> Value(s, quote, single) == Lit(s[..1], Value(s[1..], quote, single)) && Value(s[1..], quote, single).Some?
    ensures s[0] == '\\' ==> EscapeLen(s) > 0 && EscapeLen(s[..EscapeLen(s)]) == EscapeLen(s)
    ensures s[0] == '\\' ==> Value(s[EscapeLen(s)..], quote, single).Some?
    ensures s[0] == '\\' ==> Value(s, quote, single) == Lit(EscapeValue(s[..EscapeLen(s)], single), Value(s[EscapeLen(s)..], quote, single))
  {
    if s[0] == '\\' { EscapeFront(s); }
  }

  /** An escaped `<` and the rest of the match stand for the match. */
  lemma MatchAfterBackslash(s: string, quote: char, single: char -> string)
    requires s != "" && s[0] == '\\' && MatchLen(s, 1) > 0 && quote in {'"', '\'', '`'} && Value(s, quote, single).Some?
    ensures var n := MatchLen(s, 1);
            Value(s, quote, single) == Lit("<" + s[2..1 + n], Value(s[1 + n..], quote, single)) && Value(s[1 + n..], quote, single).Some?
  {
    var n := MatchLen(s, 1);
    MatchChars(s, 1);
    hide MatchLen, InMatch, Value;
    LessAt(s, 1);
    var m, rest := s[2..1 + n], s[1 + n..];
    NotInMatch(m, quote);
    assert s == "\\<" + (m + rest);
    EscapedRun(m, rest, quote, single);
  }

  lemma EscapedRun(m: string, rest: string, quote: char, single: char -> string)
    requires quote !in m && '\\' !in m && quote != '\\'
    ensures Value("\\<" + (m + rest), quote, single) == Lit("<" + m, Value(rest, quote, single))
  {
    assert EscapeLen("\\<") == 2 && EscapeValue("\\<", single) == "<";
    hide EscapeLen, EscapeValue, Value;
    ValueOfEscape("\\<", m + rest, quote, single);
    ValueOfPlain(m, rest, quote, single);
    if Value(rest, quote, single).Some? { assert "<" + (m + Value(rest, quote, single).value) == "<" + m + Value(rest, quote, single).value; }
  }

  lemma LessAt(s: string, i: nat)
    requires MatchLen(s, i) > 0
    ensures i + MatchLen(s, i) <= |s| && s[i] == '<'
  {
  }

  lemma EscapeCopied(s: string)
    requires s != "" && s[0] == '\\' && EscapeLen(s) > 0 && MatchLen(s, 1) == 0
    ensures Safe(s) == s[..EscapeLen(s)] + Safe(s[EscapeLen(s)..])
  {
    hide Safe, EscapeLen, MatchLen;
    var n := EscapeLen(s);
    PairCopied(s);
    var t, rest := s[2..n], s[n..];
    assert s[2..] == t + rest;
    assert forall k :: 0 <= k < |t| ==> t[k] == s[k + 2];
    SafeCopies(t, rest);
    assert s[..2] + (t + Safe(rest)) == s[..n] + Safe(rest);
  }

  lemma PairCopied(s: string)
    requires |s| > 1 && s[0] == '\\' && MatchLen(s, 1) == 0
    ensures Safe(s) == s[..2] + Safe(s[2..])
  {
    hide MatchLen;
  }

  lemma NotInMatch(m: string, quote: char)
    requires (forall k :: 0 <= k < |m| ==> InMatch(m[k])) && quote in {'"', '\'', '`'}
    ensures quote !in m && '\\' !in m && quote !in LESS + m
  {
  }

  // ---------------------------------------------------------------- literals stay where they are

  predicate IsQuote(c: char) { c in {'"', '\'', '`'} }

  /** No match reaches across a quote. */
  lemma MatchBeforeQuote(a: string, c: char, b: string, i: nat)
    requires IsQuote(c) && i < |a|
    ensures MatchLen(a + [c] + b, i) == MatchLen(a, i)
  {
    PatternBeforeQuote(a, c, b, i, SCRIPT);
    PatternBeforeQuote(a, c, b, i, COMMENT);
  }

  lemma NoQuoteIn(w: string, i: nat, p: string)
    requires p in {SCRIPT, COMMENT} && HasAt(w, i, p)
    ensures forall at :: i <= at < i + |p| ==> !IsQuote(w[at])
  {
    forall at | i <= at < i + |p| ensures !IsQuote(w[at]) {
      assert Lower(w[i + (at - i)]) == p[at - i];
    }
  }

  lemma PatternBeforeQuote(a: string, c: char, b: string, i: nat, p: string)
    requires IsQuote(c) && i < |a| && p in {SCRIPT, COMMENT}
    ensures HasAt(a + [c] + b, i, p) <==> HasAt(a, i, p)
  {
    var w := a + [c] + b;
    assert forall k :: 0 <= k < |a| ==> w[k] == a[k];
    if HasAt(w, i, p) {
      NoQuoteIn(w, i, p);
      assert w[|a|] == c;
      forall k | 0 <= k < |p| ensures Lower(a[i + k]) == p[k] { assert Lower(w[i + k]) == p[k]; }
    }
    if HasAt(a, i, p) {
      forall k | 0 <= k < |p| ensures Lower(w[i + k]) == p[k] { assert Lower(a[i + k]) == p[k]; }
    }
  }

  /** How much of the text is rewritten in one step, and into what. */
  function HeadLen(s: string): (n: nat)
    requires s != ""
    ensures 1 <= n <= |s|
  {
    if s[0] == '\\' then (if |s| == 1 then 1 else if MatchLen(s, 1) > 0 then 1 + MatchLen(s, 1) else 2)
    else if MatchLen(s, 0) > 0 then MatchLen(s, 0) else 1
  }

  function HeadOut(s: string): string
    requires s != ""
  {
    if s[0] == '\\' then (if |s| > 1 && MatchLen(s, 1) > 0 then LESS + s[2..HeadLen(s)] else s[..HeadLen(s)])
    else if MatchLen(s, 0) > 0 then LESS + s[1..HeadLen(s)] else s[..1]
  }

  lemma SafeHead(s: string)
    requires s != ""
    ensures Safe(s) == HeadOut(s) + Safe(s[HeadLen(s)..])
  {
    hide MatchLen;
    if |s| == 1 { assert s[1..] == ""; }
  }

  /** A step before a quote is the same step, unless it is a last backslash. */
  lemma HeadAtQuote(a: string, c: char, b: string)
    requires IsQuote(c) && a != "" && a != "\\"
    ensures var w := a + [c] + b; HeadLen(w) == HeadLen(a) && HeadOut(w) == HeadOut(a) && w[HeadLen(a)..] == a[HeadLen(a)..] + [c] + b
  {
    hide MatchLen;
    var w := a + [c] + b;
    MatchBeforeQuote(a, c, b, 0);
    if |a| > 1 { MatchBeforeQuote(a, c, b, 1); }
    assert w[0] == a[0];
    var n := HeadLen(a);
    assert w[..n] == a[..n] && w[n..] == a[n..] + [c] + b;
    if n > 1 { assert w[1..n] == a[1..n] && w[2..n] == a[2..n]; }
  }

  /** What stands on either side of a quote is rewritten on its own. */
  lemma {:induction false} SafeAtQuote(a: string, c: char, b: string)
    requires IsQuote(c)
    ensures Safe(a + [c] + b) == Safe(a) + [c] + Safe(b)
    decreases |a|
  {
    hide MatchLen, Safe, HeadLen, HeadOut;
    var w := a + [c] + b;
    if a == "" {
      QuoteFirst(c, b);
      assert w == [c] + b;
    } else if a == "\\" {
      SlashQuote(c, b);
    } else {
      var n := HeadLen(a);
      SafeHead(a);
      SafeHead(w);
      HeadAtQuote(a, c, b);
      SafeAtQuote(a[n..], c, b);
      assert HeadOut(a) + (Safe(a[n..]) + [c] + Safe(b)) == HeadOut(a) + Safe(a[n..]) + [c] + Safe(b);
    }
  }

  lemma QuoteFirst(c: char, b: string)
    requires IsQuote(c)
    ensures Safe([c] + b) == [c] + Safe(b) && Safe("") == ""
  {
    hide MatchLen;
    NoMatchAtQuote([c] + b);
    assert ([c] + b)[1..] == b && ([c] + b)[..1] == [c];
  }

  lemma SlashQuote(c: char, b: string)
    requires IsQuote(c)
    ensures Safe("\\" + [c] + b) == Safe("\\") + [c] + Safe(b)
  {
    hide MatchLen;
    var w := "\\" + [c] + b;
    MatchShift([c] + b, "\\", 0);
    assert "\\" + ([c] + b) == w;
    NoMatchAtQuote([c] + b);
    assert w[2..] == b && w[..2] == "\\" + [c];
  }

  lemma NoMatchAtQuote(s: string)
    requires s != "" && IsQuote(s[0])
    ensures MatchLen(s, 0) == 0
  {
  }

  /** A literal in the source is a literal in the output, between the rewritten surroundings, and means the same. */
  lemma LiteralInPlace(a: string, quote: char, body: string, b: string, single: char -> string)
    requires IsQuote(quote) && Value(body, quote, single).Some?
    ensures Safe(a + [quote] + (body + [quote] + b)) == Safe(a) + [quote] + (Safe(body) + [quote] + Safe(b))
    ensures Value(Safe(body), quote, single) == Value(body, quote, single)
  {
    SafeAtQuote(a, quote, body + [quote] + b);
    SafeAtQuote(body, quote, b);
    LiteralKept(body, quote, single);
  }

  // ---------------------------------------------------------------- as it runs

  /** The first match at or after `from`; the length of the text for none. */
  function NextMatch(s: string, from: nat): (r: nat)
    requires from <= |s|
    ensures from <= r <= |s| && (r < |s| ==> MatchLen(s, r) > 0) && forall k: nat :: from <= k < r ==> MatchLen(s, k) == 0
    decreases |s| - from
  {
    if from == |s| || MatchLen(s, from) > 0 then from else NextMatch(s, from + 1)
  }

  /** How many backslashes stand directly before `at`, no further back than `last`. */
  function Run(s: string, last: nat, at: nat): (n: nat)
    requires last <= at <= |s|
    ensures n <= at - last
  {
    if at == last || s[at - 1] != '\\' then 0 else 1 + Run(s, last, at - 1)
  }

  /** What the text from `last` becomes when its first match is at `at`. */
  function Tail(s: string, last: nat, at: nat): string
    requires last <= at <= |s|
  {
    if at == |s| then s[last..]
    else s[last..at - Run(s, last, at) % 2] + Resumed(s, at)
  }

  /** The match written with the escape, and what follows it. */
  function Resumed(s: string, at: nat): string
    requires at < |s|
  {
    LESS + s[at + 1..at + Max1(MatchLen(s, at))] + Safe(s[at + MatchLen(s, at)..])
  }

  function Max1(n: nat): nat { if n > 0 then n else 1 }

  /** Up to the next match the text is kept, but for the last of an odd run of backslashes. */
  lemma {:induction false} SafeNext(s: string, last: nat, at: nat)
    requires last <= at <= |s| && (at < |s| ==> MatchLen(s, at) > 0) && forall k: nat :: last <= k < at ==> MatchLen(s, k) == 0
    ensures Safe(s[last..]) == Tail(s, last, at)
    decreases at - last
  {
    hide MatchLen, Safe, Run, Tail;
    if last == at {
      SafeHere(s, at);
    } else if s[last] == '\\' {
      if at == last + 1 {
        SafeSlash(s, last);
      } else {
        SafeNext(s, last + 2, at);
        RunParity(s, last, at);
        SafePair(s, last, 2);
        TailFront(s, last, at, 2);
      }
    } else {
      SafeNext(s, last + 1, at);
      RunStops(s, last, at);
      SafePair(s, last, 1);
      TailFront(s, last, at, 1);
    }
  }

  lemma SafeHere(s: string, at: nat)
    requires at <= |s| && (at < |s| ==> MatchLen(s, at) > 0)
    ensures Safe(s[at..]) == Tail(s, at, at)
  {
    hide MatchLen, Safe, Run;
    if at < |s| {
      LessAt(s, at);
      MatchIn(s, at, 0);
      var t, n := s[at..], MatchLen(s, at);
      assert t[0] == s[at] && t != "";
      SafeHead(t);
      assert HeadLen(t) == n && HeadOut(t) == LESS + t[1..n];
      assert t[1..n] == s[at + 1..at + n] && t[n..] == s[at + n..];
      assert s[at..at - Run(s, at, at) % 2] == "";
      assert "" + Resumed(s, at) == Resumed(s, at);
    } else {
      SafeEmpty();
    }
  }

  lemma SafeEmpty()
    ensures Safe("") == ""
  {
  }

  lemma MatchIn(s: string, from: nat, i: nat)
    requires from <= |s|
    ensures MatchLen(s[from..], i) == MatchLen(s, from + i)
  {
    assert s == s[..from] + s[from..];
    MatchShift(s[from..], s[..from], i);
  }

  lemma HeadSlash(t: string)
    requires t != "" && t[0] == '\\'
    ensures |t| == 1 ==> HeadLen(t) == 1 && HeadOut(t) == t
    ensures |t| > 1 && MatchLen(t, 1) > 0 ==> HeadLen(t) == 1 + MatchLen(t, 1) && HeadOut(t) == LESS + t[2..HeadLen(t)]
  {
    hide MatchLen;
    if |t| == 1 { assert t[..1] == t; }
  }

  /** One backslash right before the match, or right before the end. */
  lemma SafeSlash(s: string, last: nat)
    requires last + 1 <= |s| && s[last] == '\\' && (last + 1 < |s| ==> MatchLen(s, last + 1) > 0)
    ensures Safe(s[last..]) == Tail(s, last, last + 1)
  {
    hide MatchLen, Safe, HeadLen, HeadOut, Resumed, Run;
    var t := s[last..];
    SafeHead(t);
    HeadSlash(t);
    RunOne(s, last);
    if last + 1 < |s| {
      MatchIn(s, last, 1);
      SlashResumed(s, last, t);
    } else {
      SafeEmpty();
      assert t[1..] == "" && t + "" == t;
    }
  }

  lemma RunOne(s: string, last: nat)
    requires last < |s| && s[last] == '\\'
    ensures Run(s, last, last + 1) == 1
  {
    assert Run(s, last, last) == 0;
  }

  lemma SlashResumed(s: string, last: nat, t: string)
    requires last + 1 < |s| && t == s[last..] && MatchLen(s, last + 1) == MatchLen(t, 1) > 0
    ensures LESS + t[2..1 + MatchLen(t, 1)] + Safe(t[1 + MatchLen(t, 1)..]) == s[last..last] + Resumed(s, last + 1)
  {
    hide MatchLen, Safe;
    var n := MatchLen(t, 1);
    assert t[2..1 + n] == s[last + 2..last + 1 + n] && t[1 + n..] == s[last + 1 + n..];
    assert s[last..last] == "";
  }

  /** A step that keeps what it reads. */
  lemma SafePair(s: string, last: nat, n: nat)
    requires last + n <= |s| && n == (if last < |s| && s[last] == '\\' then 2 else 1) && MatchLen(s, last) == 0
    requires n == 2 ==> MatchLen(s, last + 1) == 0
    ensures Safe(s[last..]) == s[last..last + n] + Safe(s[last + n..])
  {
    hide MatchLen, Safe;
    var t := s[last..];
    SafeHead(t);
    MatchIn(s, last, 0);
    MatchIn(s, last, 1);
    assert t[..n] == s[last..last + n] && t[n..] == s[last + n..];
  }

  lemma TailFront(s: string, last: nat, at: nat, n: nat)
    requires last + n <= at <= |s| && Run(s, last, at) % 2 == Run(s, last + n, at) % 2
    ensures Tail(s, last, at) == s[last..last + n] + Tail(s, last + n, at)
  {
    hide Resumed, Run;
    if at == |s| {
      assert s[last..] == s[last..last + n] + s[last + n..];
    } else {
      var cut := at - Run(s, last, at) % 2;
      assert last + n <= cut;
      assert s[last..cut] == s[last..last + n] + s[last + n..cut];
      Regroup(s[last..last + n], s[last + n..cut], Resumed(s, at));
    }
  }

  lemma Regroup(a: string, b: string, c: string)
    ensures (a + b) + c == a + (b + c)
  {
  }

  lemma {:induction false} RunStops(s: string, last: nat, at: nat)
    requires last < at <= |s| && s[last] != '\\'
    ensures Run(s, last, at) == Run(s, last + 1, at)
    decreases at
  {
    if at > last + 1 && s[at - 1] == '\\' { RunStops(s, last, at - 1); }
  }

  /** Leaving out the backslash in front and the character after it does not change the parity of a run. */
  lemma {:induction false} RunParity(s: string, last: nat, at: nat)
    requires last + 2 <= at <= |s| && s[last] == '\\'
    ensures Run(s, last, at) % 2 == Run(s, last + 2, at) % 2
    decreases at
  {
    if at == last + 2 {
      assert Run(s, last, last) == 0 && Run(s, last, last + 1) == 1;
    } else if s[at - 1] == '\\' {
      RunParity(s, last, at - 1);
    }
  }

  method MakeSafe(src: string) returns (out: string)
    ensures out == Safe(src)
  {
    hide Safe, MatchLen, Run, Resumed;
    if '<' !in src {
      NoLess(src);
      return src;
    }
    out := "";
    var last: nat := 0;
    assert src[0..] == src;
    assert out + Safe(src[last..]) == Safe(src);
    var at := NextMatch(src, last);
    while at < |src|
      invariant last <= at <= |src| && at == NextMatch(src, last)
      invariant Safe(src) == out + Safe(src[last..])
      decreases |src| - at
    {
      var bs := CountBackslashes(src, last, at);
      var n := MatchLen(src, at);
      SafeNext(src, last, at);
      ResumedMatch(src, at);
      out := Joined(out, src[last..at - bs % 2], LESS + src[at + 1..at + n], src[at + n..]);
      last := at + n;
      at := NextMatch(src, last);
    }
    SafeNext(src, last, at);
    out := out + src[last..];
  }

  /** The output so far with one more piece; `rest` is what is still to be rewritten. */
  function Joined(out: string, kept: string, piece: string, ghost rest: string): (r: string)
    ensures r + Safe(rest) == out + (kept + (piece + Safe(rest)))
  {
    out + (kept + piece)
  }

  lemma ResumedMatch(s: string, at: nat)
    requires at < |s| && MatchLen(s, at) > 0
    ensures Resumed(s, at) == LESS + s[at + 1..at + MatchLen(s, at)] + Safe(s[at + MatchLen(s, at)..])
  {
    hide MatchLen, Safe;
  }

  method CountBackslashes(s: string, last: nat, at: nat) returns (bs: nat)
    requires last <= at <= |s|
    ensures bs == Run(s, last, at)
  {
    bs := 0;
    while at - bs >= last + 1 && s[at - bs - 1] == '\\'
      invariant 0 <= bs <= at - last && Run(s, last, at) == bs + Run(s, last, at - bs)
      decreases at - bs
    {
      bs := bs + 1;
    }
  }

  lemma {:induction false} NoLess(s: string)
    requires '<' !in s
    ensures Safe(s) == s
    decreases |s|
  {
    if s == "" {
    } else if s[0] == '\\' {
      if |s| > 1 {
        assert MatchLen(s, 1) == 0;
        NoLess(s[2..]);
      }
    } else {
      assert MatchLen(s, 0) == 0;
      NoLess(s[1..]);
    }
  }
}
