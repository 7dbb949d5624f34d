/** JSON documents, and the small optional type the other modules share. */
module Json {

  datatype Option<+T> = None | Some(value: T)

  /** A document. An object is a finite map: member order plays no part in validation. */
  datatype Json =
    | Null
    | Bool(b: bool)
    | Num(n: real)
    | Str(s: string)
    | Arr(a: seq<Json>)
    | Obj(m: map<string, Json>)

  predicate IsScalar(v: Json) {
    !v.Arr? && !v.Obj?
  }

  /** What JavaScript takes for true. */
  predicate Truthy(v: Json) {
    match v
    case Null => false
    case Bool(b) => b
    case Num(n) => n != 0.0
    case Str(s) => s != ""
    case _ => true
  }

  // A hexadecimal digit, as escapes in strings and in references write it.

  predicate IsHex(c: char) { '0' <= c <= '9' || 'a' <= c <= 'f' || 'A' <= c <= 'F' }

  function HexDigit(c: char): nat
    requires IsHex(c)
  {
    if c <= '9' then c as int - '0' as int else if c >= 'a' then c as int - 'a' as int + 10 else c as int - 'A' as int + 10
  }

  /** A document as it was written, members in order. */
  datatype Doc =
    | DScalar(v: Json)
    | DArr(items: seq<Doc>)
    | DObj(members: seq<DMember>)

  datatype DMember = DMember(key: string, value: Doc)
}
