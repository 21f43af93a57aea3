/** Decimal numbers as the kernel prints (%llu) and parses (kstrtoull) them. */
module Numerals {
  import opened Options

  const U64_LIMIT: nat := 0x1_0000_0000_0000_0000

  function Min(a: nat, b: nat): nat {
    if a < b then a else b
  }

  function DigitChar(n: nat): char
    requires n < 10
  {
    '0' + n as char
  }

  /** %llu */
  function Decimal(n: nat): string {
    if n < 10 then [DigitChar(n)] else Decimal(n / 10) + [DigitChar(n % 10)]
  }

  function Power10(k: nat): nat {
    if k == 0 then 1 else 10 * Power10(k - 1)
  }

  lemma {:induction false} DecimalLength(n: nat, k: nat)
    requires 1 <= k && n < Power10(k)
    ensures 1 <= |Decimal(n)| <= k
  {
    if n >= 10 {
      assert k >= 2;
      DecimalLength(n / 10, k - 1);
    }
  }

  // ------------------------------------------------------------------ parsing

  predicate IsDigit(c: char) {
    '0' <= c <= '9'
  }

  function DigitValue(c: char): (n: nat)
    requires IsDigit(c)
    ensures n < 10 && DigitChar(n) == c
  {
    (c - '0') as int
  }

  predicate AllDigits(s: string) {
    forall i | 0 <= i < |s| :: IsDigit(s[i])
  }

  function Value(s: string): nat
    requires AllDigits(s)
  {
    if s == "" then 0 else 10 * Value(s[..|s| - 1]) + DigitValue(s[|s| - 1])
  }

  /** The length of the longest prefix of digits. */
  function DigitPrefix(s: string): (n: nat)
    ensures n <= |s| && AllDigits(s[..n]) && (n < |s| ==> !IsDigit(s[n]))
  {
    if s == "" || !IsDigit(s[0]) then 0
    else
      var n := DigitPrefix(s[1..]);
      assert s[..n + 1] == [s[0]] + s[1..][..n];
      n + 1
  }

  /** kstrtoull(s, 10, ...): an optional plus sign, at least one digit, an optional final newline,
      and no overflow. */
  function Parse(s: string): Option<nat> {
    var t := if s != "" && s[0] == '+' then s[1..] else s;
    var n := DigitPrefix(t);
    if n == 0 || Value(t[..n]) >= U64_LIMIT then None
    else if t[n..] == "" || t[n..] == "\n" then Some(Value(t[..n]))
    else None
  }

  lemma {:induction false} DecimalDigits(n: nat)
    ensures |Decimal(n)| >= 1 && AllDigits(Decimal(n)) && Value(Decimal(n)) == n
    ensures n > 0 ==> Decimal(n)[0] != '0'
  {
    if n >= 10 {
      DecimalDigits(n / 10);
      assert Decimal(n)[..|Decimal(n)| - 1] == Decimal(n / 10);
    }
  }

  /** What is printed parses back to itself. */
  lemma PrintThenParse(n: nat)
    requires n < U64_LIMIT
    ensures Parse(Decimal(n)) == Some(n)
  {
    var s := Decimal(n);
    DecimalDigits(n);
    assert DigitPrefix(s) == |s|;
    assert s[..|s|] == s && s[|s|..] == "";
  }

  /** Digits without a leading zero are what their value prints as. */
  lemma {:induction false} CanonicalPrints(s: string)
    requires |s| >= 1 && AllDigits(s) && (s[0] == '0' ==> |s| == 1)
    ensures Decimal(Value(s)) == s
    ensures s[0] != '0' ==> Value(s) > 0
  {
    var n := |s| - 1;
    if n > 0 {
      CanonicalPrints(s[..n]);
      assert Value(s) / 10 == Value(s[..n]) && Value(s) % 10 == DigitValue(s[n]);
      assert s == s[..n] + [s[n]];
    } else {
      assert s[..0] == "";
      assert s == [s[0]];
    }
  }

  /** A name in the form the kernel prints: digits only, no leading zero. */
  predicate Canonical(s: string) {
    |s| >= 1 && AllDigits(s) && (s[0] == '0' ==> |s| == 1)
  }

  /** Parsing is not one to one: of all the names that parse to a number, exactly the canonical
      one is what the number prints as. */
  lemma ParseThenPrint(s: string)
    requires Parse(s).Some?
    ensures Decimal(Parse(s).value) == s <==> Canonical(s)
  {
    DecimalDigits(Parse(s).value);
    if Canonical(s) {
      assert DigitPrefix(s) == |s|;
      assert s[..|s|] == s;
      CanonicalPrints(s);
    }
  }

  /** A leading zero does not change what a number parses to. */
  lemma ZeroThenDigits(n: nat)
    requires n < U64_LIMIT
    ensures Parse("0" + Decimal(n)) == Some(n) && !Canonical("0" + Decimal(n))
  {
    var s := Decimal(n);
    var z := "0" + s;
    DecimalDigits(n);
    ZeroFirst(s);
    assert DigitPrefix(z) == |z|;
    assert z[..|z|] == z && z[|z|..] == "";
  }

  lemma {:induction false} ZeroFirst(s: string)
    requires AllDigits(s)
    ensures AllDigits("0" + s) && Value("0" + s) == Value(s)
  {
    var z := "0" + s;
    if s == "" {
      assert z[..0] == "";
    } else {
      ZeroFirst(s[..|s| - 1]);
      assert z[..|z| - 1] == "0" + s[..|s| - 1];
    }
  }
}
