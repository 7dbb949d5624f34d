/** The canonical printer equality is decided by (binding/ata_napi.cpp:229-282). */
module Canonical {
  import opened Json

  /** The numbers a document can hold, and how each is written; the model takes both as given. */
  datatype NumText = NumText(text: real -> string, holds: real -> bool)

  predicate NumChar(c: char) { '0' <= c <= '9' || c == '-' || c == '+' || c == '.' || c == 'e' || c == 'E' }

  predicate NumToken(s: string) { s != "" && s[0] != 'e' && s[0] != 'E' && forall i :: 0 <= i < |s| ==> NumChar(s[i]) }

  /** Numbers of documents are written with the characters of a number token, different ones differently. */
  ghost predicate NumbersOk(num: NumText) {
    && (forall n :: num.holds(n) ==> NumToken(num.text(n)))
    && forall a, b :: num.holds(a) && num.holds(b) && num.text(a) == num.text(b) ==> a == b
  }

  // ---------------------------------------------------------------- values

  /** The value without the order of its members. */
  function Value(d: Doc): Json {
    match d
    case DScalar(v) => v
    case DArr(a) => Arr(seq(|a|, i requires 0 <= i < |a| => Value(a[i])))
    case DObj(ms) => Obj(MembersValue(ms))
  }

  function MembersValue(ms: seq<DMember>): map<string, Json> {
    if ms == [] then map[] else MembersValue(ms[..|ms| - 1])[ms[|ms| - 1].key := Value(ms[|ms| - 1].value)]
  }

  predicate Distinct(ms: seq<DMember>) { forall i, j :: 0 <= i < j < |ms| ==> ms[i].key != ms[j].key }

  /** A JSON document: scalars are scalars, numbers are numbers of documents, no member name twice. */
  predicate WellFormed(d: Doc, num: NumText) {
    match d
    case DScalar(v) => IsScalar(v) && (v.Num? ==> num.holds(v.n))
    case DArr(a) => forall i :: 0 <= i < |a| ==> WellFormed(a[i], num)
    case DObj(ms) => Distinct(ms) && forall i :: 0 <= i < |ms| ==> WellFormed(ms[i].value, num)
  }

  // ---------------------------------------------------------------- strings

  function Hex(n: nat): char
    requires n < 16
  {
    "0123456789abcdef"[n]
  }

  function EscapeChar(c: char): string {
    if c == '"' then "\\\"" else if c == '\\' then "\\\\"
    else if c == '\U{08}' then "\\b" else if c == '\U{0C}' then "\\f" else if c == '\n' then "\\n" else if c == '\r' then "\\r" else if c == '\t' then "\\t"
    else if c < ' ' then "\\u00" + [Hex(c as nat / 16), Hex(c as nat % 16)]
    else [c]
  }

  function EscapeAll(s: string): string {
    if s == "" then "" else EscapeChar(s[0]) + EscapeAll(s[1..])
  }

  /** `JSON.stringify` of a string. */
  function Quote(s: string): string { "\"" + EscapeAll(s) + "\"" }

  // ---------------------------------------------------------------- the printer

  predicate Before(a: string, b: string) {
    if a == "" then b != "" else b != "" && (a[0] < b[0] || (a[0] == b[0] && Before(a[1..], b[1..])))
  }

  function Insert(ms: seq<DMember>, m: DMember): seq<DMember> {
    if ms == [] || !Before(m.key, ms[|ms| - 1].key) then ms + [m] else Insert(ms[..|ms| - 1], m) + [ms[|ms| - 1]]
  }

  function SortMembers(ms: seq<DMember>): (r: seq<DMember>)
    ensures |r| == |ms| && multiset(r) == multiset(ms)
  {
    if ms == [] then []
    else
      var m := ms[|ms| - 1];
      var rest := SortMembers(ms[..|ms| - 1]);
      InsertKeeps(rest, m);
      assert ms == ms[..|ms| - 1] + [m];
      Insert(rest, m)
  }

  lemma {:induction false} InsertKeeps(ms: seq<DMember>, m: DMember)
    ensures |Insert(ms, m)| == |ms| + 1 && multiset(Insert(ms, m)) == multiset(ms) + multiset{m}
    decreases |ms|
  {
    if ms != [] && Before(m.key, ms[|ms| - 1].key) {
      InsertKeeps(ms[..|ms| - 1], m);
      assert ms == ms[..|ms| - 1] + [ms[|ms| - 1]];
    }
  }

  function Comma(i: nat): string { if i > 0 then "," else "" }

  function Canon(d: Doc, num: NumText): string
    decreases d, 2
  {
    match d
    case DScalar(v) =>
      (match v case Null => "null" case Bool(b) => if b then "true" else "false" case Num(n) => num.text(n) case Str(s) => Quote(s) case _ => "null")
    case DArr(a) => "[" + CanonItems(a, 0, num) + "]"
    case DObj(ms) => "{" + CanonMembers(d, SortMembers(ms), 0, num) + "}"
  }

  function CanonItems(a: seq<Doc>, i: nat, num: NumText): string
    requires i <= |a|
    decreases a, 1, |a| - i
  {
    if i == |a| then "" else Comma(i) + Canon(a[i], num) + CanonItems(a, i + 1, num)
  }

  function CanonMembers(d: Doc, ms: seq<DMember>, i: nat, num: NumText): string
    requires d.DObj? && multiset(ms) == multiset(d.members) && i <= |ms|
    decreases d, 1, |ms| - i
  {
    if i == |ms| then ""
    else
      assert ms[i] in multiset(ms) && ms[i] in d.members;
      Comma(i) + (Quote(ms[i].key) + ":" + Canon(ms[i].value, num)) + CanonMembers(d, ms, i + 1, num)
  }
}
