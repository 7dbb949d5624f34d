/**
 Numbers of documents: decimals with finitely many digits, as every number token and every double is.
 Written exactly, as an integer and a power of ten, they meet what the canonical printer needs.
 */
module Numbers {
  import opened Canonical
  import opened CanonicalFacts

  function Power(k: nat): (p: real)
    ensures p > 0.0
  {
    if k == 0 then 1.0 else 10.0 * Power(k - 1)
  }

  /** `n` is `m` shifted by `k` decimal places. */
  predicate Places(n: real, m: int, k: nat) { n * Power(k) == m as real }

  ghost predicate Finite(n: real) { exists m, k :: Places(n, m, k) }

  function Digit(d: nat): char
    requires d < 10
  {
    "0123456789"[d]
  }

  function Natural(n: nat): string {
    if n < 10 then [Digit(n)] else Natural(n / 10) + [Digit(n % 10)]
  }

  function Whole(n: int): string { if n < 0 then "-" + Natural(-n) else Natural(n) }

  function Shifted(m: int, k: nat): string { Whole(m) + "e-" + Natural(k) }

  ghost function Exactly(n: real): string {
    if Finite(n) then var m, k :| Places(n, m, k); Shifted(m, k) else ""
  }

  ghost function Decimals(): NumText { NumText(n => Exactly(n), n => Finite(n)) }

  predicate Digits(s: string) { s != "" && forall i :: 0 <= i < |s| ==> '0' <= s[i] <= '9' }

  lemma {:induction false} NaturalDigits(n: nat)
    ensures Digits(Natural(n))
  {
    if n >= 10 { NaturalDigits(n / 10); }
  }

  lemma {:induction false} NaturalOnce(a: nat, b: nat)
    requires Natural(a) == Natural(b)
    ensures a == b
    decreases a
  {
    NaturalLast(a);
    NaturalLast(b);
    if a >= 10 && b >= 10 {
      assert Natural(a)[..|Natural(a)| - 1] == Natural(a / 10);
      assert Natural(b)[..|Natural(b)| - 1] == Natural(b / 10);
      NaturalOnce(a / 10, b / 10);
    } else if a >= 10 {
      NaturalDigits(a / 10);
    } else if b >= 10 {
      NaturalDigits(b / 10);
    }
  }

  lemma NaturalLast(n: nat)
    ensures Natural(n) != "" && Natural(n)[|Natural(n)| - 1] == Digit(n % 10)
    ensures forall d: nat, e: nat :: d < 10 && e < 10 && Digit(d) == Digit(e) ==> d == e
  {
  }

  lemma WholeOnce(a: int, b: int)
    requires Whole(a) == Whole(b)
    ensures a == b
  {
    NaturalDigits(if a < 0 then -a else a);
    NaturalDigits(if b < 0 then -b else b);
    assert a < 0 ==> Whole(a)[1..] == Natural(-a);
    assert b < 0 ==> Whole(b)[1..] == Natural(-b);
    assert (a < 0 <==> Whole(a)[0] == '-') && (b < 0 <==> Whole(b)[0] == '-');
    NaturalOnce(if a < 0 then -a else a, if b < 0 then -b else b);
  }

  /** No `e` before the one that ends the digits. */
  lemma WholeDigits(m: int)
    ensures Whole(m) != "" && forall i :: 0 <= i < |Whole(m)| ==> '0' <= Whole(m)[i] <= '9' || Whole(m)[i] == '-'
  {
    NaturalDigits(if m < 0 then -m else m);
  }

  lemma ShiftedToken(m: int, k: nat)
    ensures NumToken(Shifted(m, k))
  {
    WholeDigits(m);
    NaturalDigits(k);
    assert Shifted(m, k)[0] == Whole(m)[0];
  }

  lemma ShiftedOnce(m: int, k: nat, n: int, j: nat)
    requires Shifted(m, k) == Shifted(n, j)
    ensures m == n && k == j
  {
    WholeDigits(m);
    WholeDigits(n);
    var s, p, q := Shifted(m, k), |Whole(m)|, |Whole(n)|;
    assert s[p] == 'e' && s[q] == 'e';
    assert forall i :: 0 <= i < p ==> s[i] == Whole(m)[i];
    assert forall i :: 0 <= i < q ==> s[i] == Whole(n)[i];
    assert p == q;
    assert s[..p] == Whole(m) && s[..p] == Whole(n);
    assert s[p + 2..] == Natural(k) && s[p + 2..] == Natural(j);
    WholeOnce(m, n);
    NaturalOnce(k, j);
  }

  lemma ExactlyPlaces(n: real) returns (m: int, k: nat)
    requires Finite(n)
    ensures Places(n, m, k) && Exactly(n) == Shifted(m, k)
  {
    m, k :| Places(n, m, k) && Exactly(n) == Shifted(m, k);
  }

  /** What the canonical printer needs of numbers is met on all of them by exact decimals. */
  lemma DecimalsOk()
    ensures NumbersOk(Decimals()) && forall n :: Decimals().holds(n) <==> Finite(n)
  {
    hide Exactly, Shifted, NumToken;
    forall n | Finite(n) ensures NumToken(Exactly(n)) {
      var m, k := ExactlyPlaces(n);
      ShiftedToken(m, k);
    }
    forall a, b | Finite(a) && Finite(b) && Exactly(a) == Exactly(b) ensures a == b {
      var m, k := ExactlyPlaces(a);
      var n, j := ExactlyPlaces(b);
      ShiftedOnce(m, k, n, j);
      SamePlaces(a, b, m, k);
    }
  }

  lemma SamePlaces(a: real, b: real, m: int, k: nat)
    requires Places(a, m, k) && Places(b, m, k)
    ensures a == b
  {
    assert (a - b) * Power(k) == 0.0;
  }

  function Two(k: nat): nat { if k == 0 then 1 else 2 * Two(k - 1) }

  function Five(k: nat): nat { if k == 0 then 1 else 5 * Five(k - 1) }

  lemma {:induction false} TenIsTwoFive(k: nat)
    ensures Power(k) == Two(k) as real * Five(k) as real
  {
    if k > 0 {
      TenIsTwoFive(k - 1);
      assert (2.0 * Two(k - 1) as real) * (5.0 * Five(k - 1) as real) == 10.0 * (Two(k - 1) as real * Five(k - 1) as real);
    }
  }

  /** Every double is among them: an integer, halved any number of times. */
  lemma DoubleFinite(n: real, m: int, k: nat)
    requires n * Two(k) as real == m as real
    ensures Finite(n)
  {
    TenIsTwoFive(k);
    assert n * (Two(k) as real * Five(k) as real) == (n * Two(k) as real) * Five(k) as real;
    assert (m * Five(k)) as real == m as real * Five(k) as real;
    assert Places(n, m * Five(k), k);
  }
}
