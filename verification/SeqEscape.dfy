/** seq_escape() of glue/vendor_kernel_ovl_vfs_compat.c: backslash escapes for the bytes of a
    given set. */
module SeqEscape {

  /** A byte of a C string; the terminating NUL is not part of it. */
  type Char = x: int | 1 <= x < 256 witness 1

  const NEWLINE: Char := 10
  const TAB: Char := 9
  const BACKSLASH: Char := 92
  const LETTER_N: Char := 110
  const LETTER_T: Char := 116
  const DIGIT_0: Char := 48

  function Digit(n: int): Char
    requires 0 <= n < 8
  {
    DIGIT_0 + n
  }

  /** What follows the backslash when `c` is escaped. */
  function Body(c: Char): (b: seq<Char>)
    ensures |b| == 1 || |b| == 3
  {
    if c == NEWLINE then [LETTER_N]
    else if c == TAB then [LETTER_T]
    else if c == BACKSLASH then [BACKSLASH]
    else [Digit(c / 64), Digit(c / 8 % 8), Digit(c % 8)]
  }

  function EscapeChar(c: Char, esc: set<Char>): (r: seq<Char>)
    ensures |r| >= 1
  {
    if c in esc then [BACKSLASH] + Body(c) else [c]
  }

  function Escape(s: seq<Char>, esc: set<Char>): seq<Char> {
    if s == [] then [] else EscapeChar(s[0], esc) + Escape(s[1..], esc)
  }

  lemma {:induction false} EscapeAppend(s: seq<Char>, c: Char, esc: set<Char>)
    ensures Escape(s + [c], esc) == Escape(s, esc) + EscapeChar(c, esc)
  {
    if s == [] {
      assert [c][1..] == [];
    } else {
      assert (s + [c])[1..] == s[1..] + [c];
      EscapeAppend(s[1..], c, esc);
    }
  }

  /** The switch of seq_escape(): the escape of one byte, written to the seq_file. */
  method PutEscape(m: seq<Char>, c: Char) returns (r: seq<Char>)
    ensures r == m + ([BACKSLASH] + Body(c))
  {
    if c == NEWLINE {
      r := m + [BACKSLASH, LETTER_N];
    } else if c == TAB {
      r := m + [BACKSLASH, LETTER_T];
    } else if c == BACKSLASH {
      r := m + [BACKSLASH, BACKSLASH];
    } else {
      var code: int := c;
      r := m + [BACKSLASH];
      r := r + [Digit(code / 64)];
      r := r + [Digit(code / 8 % 8)];
      r := r + [Digit(code % 8)];
    }
  }

  /** The loop of seq_escape(): one byte of input at a time. */
  method WriteEscaped(s: seq<Char>, esc: set<Char>) returns (m: seq<Char>)
    ensures m == Escape(s, esc)
  {
    m := [];
    for i := 0 to |s|
      invariant m == Escape(s[..i], esc)
    {
      assert s[..i + 1] == s[..i] + [s[i]];
      EscapeAppend(s[..i], s[i], esc);
      if s[i] !in esc {
        m := m + [s[i]];
        continue;
      }
      m := PutEscape(m, s[i]);
    }
    assert s[..|s|] == s;
  }

  // ------------------------------------------------------------------ a decoder

  /** Reads the escapes back; a backslash always begins one. */
  function Unescape(t: seq<Char>): seq<Char>
    decreases |t|
  {
    if t == [] then []
    else if t[0] != BACKSLASH then [t[0]] + Unescape(t[1..])
    else if |t| < 2 then t
    else if t[1] == LETTER_N then [NEWLINE] + Unescape(t[2..])
    else if t[1] == LETTER_T then [TAB] + Unescape(t[2..])
    else if t[1] == BACKSLASH then [BACKSLASH] + Unescape(t[2..])
    else if |t| < 4 || !(1 <= Octal(t[1], t[2], t[3]) < 256) then t
    else [Octal(t[1], t[2], t[3])] + Unescape(t[4..])
  }

  function Octal(a: Char, b: Char, c: Char): int {
    64 * (a - DIGIT_0) + 8 * (b - DIGIT_0) + (c - DIGIT_0)
  }

  lemma OctalOfBody(c: Char)
    requires |Body(c)| == 3
    ensures Octal(Body(c)[0], Body(c)[1], Body(c)[2]) == c
    ensures forall k | 0 <= k < 3 :: DIGIT_0 <= Body(c)[k] <= DIGIT_0 + 7
  {
    assert c / 8 == 8 * (c / 64) + c / 8 % 8;
  }

  lemma UnescapeOne(c: Char, rest: seq<Char>, esc: set<Char>)
    requires BACKSLASH in esc
    ensures Unescape(EscapeChar(c, esc) + rest) == [c] + Unescape(rest)
  {
    var t := EscapeChar(c, esc) + rest;
    if c !in esc {
      assert t[1..] == rest;
    } else if |Body(c)| == 1 {
      assert t[2..] == rest;
    } else {
      OctalOfBody(c);
      assert t[1] == Body(c)[0] && t[2] == Body(c)[1] && t[3] == Body(c)[2];
      assert t[4..] == rest;
    }
  }

  /** With the backslash in the set the decoder recovers every input. */
  lemma {:induction false} RoundTrip(s: seq<Char>, esc: set<Char>)
    requires BACKSLASH in esc
    ensures Unescape(Escape(s, esc)) == s
  {
    if s != [] {
      RoundTrip(s[1..], esc);
      UnescapeOne(s[0], Escape(s[1..], esc), esc);
    }
  }

  // ------------------------------------------------------------------ when the output is unambiguous

  predicate Touches(b: seq<Char>, esc: set<Char>) {
    exists k | 0 <= k < |b| :: b[k] in esc
  }

  /** The backslash is escaped, or no escape can be spelled out by hand. */
  predicate Decodable(esc: set<Char>) {
    BACKSLASH in esc || forall c | c in esc :: Touches(Body(c), esc)
  }

  lemma BodyHasNoBackslash(c: Char)
    requires c != BACKSLASH
    ensures BACKSLASH !in Body(c)
  {
    if |Body(c)| == 3 { OctalOfBody(c); }
  }

  /** Output that starts with backslash-free text was typed, not escaped. */
  lemma {:induction false} Literal(s: seq<Char>, b: seq<Char>, esc: set<Char>)
    requires BACKSLASH !in b && b <= Escape(s, esc)
    ensures forall k | 0 <= k < |b| :: b[k] !in esc
  {
    if b != [] {
      assert b[0] == EscapeChar(s[0], esc)[0];
      assert s[0] !in esc;
      var rest := Escape(s[1..], esc);
      assert Escape(s, esc) == [s[0]] + rest;
      assert b[1..] <= rest;
      Literal(s[1..], b[1..], esc);
      assert forall k | 0 < k < |b| :: b[k] == b[1..][k - 1];
    }
  }

  /** No text can be typed that reads like the body of an escape. */
  lemma NotTyped(c: Char, t: seq<Char>, esc: set<Char>)
    requires BACKSLASH !in esc && c in esc && Touches(Body(c), esc)
    ensures !(Body(c) <= Escape(t, esc))
  {
    BodyHasNoBackslash(c);
    if Body(c) <= Escape(t, esc) {
      Literal(t, Body(c), esc);
    }
  }

  lemma EscapedHead(s: seq<Char>, esc: set<Char>)
    requires s != [] && s[0] in esc
    ensures Escape(s, esc)[0] == BACKSLASH && Body(s[0]) <= Escape(s, esc)[1..]
  {
    var e := Escape(s, esc);
    assert e == [BACKSLASH] + Body(s[0]) + Escape(s[1..], esc);
    assert e[1..] == Body(s[0]) + Escape(s[1..], esc);
  }

  lemma TypedHead(t: seq<Char>, esc: set<Char>)
    requires t != [] && t[0] !in esc
    ensures Escape(t, esc)[0] == t[0] && Escape(t, esc)[1..] == Escape(t[1..], esc)
  {
  }

  /** A backslash that one string escapes is not one that the other types. */
  lemma NotBoth(s: seq<Char>, t: seq<Char>, esc: set<Char>)
    requires Decodable(esc) && s != [] && t != [] && Escape(s, esc) == Escape(t, esc)
    ensures s[0] in esc ==> t[0] in esc
  {
    if s[0] in esc && t[0] !in esc {
      EscapedHead(s, esc);
      TypedHead(t, esc);
      NotTyped(s[0], t[1..], esc);
    }
  }

  /** Two escapes that agree on their common length are the same. */
  lemma SameEscape(c: Char, d: Char, s: seq<Char>, t: seq<Char>)
    requires [BACKSLASH] + Body(c) + s == [BACKSLASH] + Body(d) + t
    ensures c == d
  {
    var u, v := [BACKSLASH] + Body(c) + s, [BACKSLASH] + Body(d) + t;
    assert u[1] == Body(c)[0] && v[1] == Body(d)[0];
    if |Body(c)| == 3 { OctalOfBody(c); }
    if |Body(d)| == 3 { OctalOfBody(d); }
    if |Body(c)| == 3 && |Body(d)| == 3 {
      assert u[2] == Body(c)[1] && u[3] == Body(c)[2] && v[2] == Body(d)[1] && v[3] == Body(d)[2];
    }
  }

  lemma SameHead(s: seq<Char>, t: seq<Char>, esc: set<Char>)
    requires Decodable(esc) && s != [] && t != [] && Escape(s, esc) == Escape(t, esc)
    ensures s[0] == t[0]
  {
    NotBoth(s, t, esc);
    NotBoth(t, s, esc);
    var x, y := Escape(s[1..], esc), Escape(t[1..], esc);
    if s[0] in esc {
      SameEscape(s[0], t[0], x, y);
    } else {
      assert Escape(s, esc)[0] == s[0] && Escape(t, esc)[0] == t[0];
    }
  }

  lemma {:induction false} Injective(s: seq<Char>, t: seq<Char>, esc: set<Char>)
    requires Decodable(esc) && Escape(s, esc) == Escape(t, esc)
    ensures s == t
  {
    if s != [] && t != [] {
      SameHead(s, t, esc);
      var n := |EscapeChar(s[0], esc)|;
      assert Escape(s, esc)[n..] == Escape(s[1..], esc);
      assert Escape(t, esc)[n..] == Escape(t[1..], esc);
      Injective(s[1..], t[1..], esc);
    }
  }

  lemma {:induction false} TypedLiterally(b: seq<Char>, esc: set<Char>)
    requires !Touches(b, esc)
    ensures Escape(b, esc) == b
  {
    if b != [] {
      assert b[0] !in esc;
      assert !Touches(b[1..], esc) by {
        assert forall k | 0 <= k < |b[1..]| :: b[1..][k] == b[k + 1];
      }
      TypedLiterally(b[1..], esc);
    }
  }

  /** A byte whose escape can be typed by hand makes the output ambiguous. */
  lemma Ambiguous(c: Char, esc: set<Char>)
    requires BACKSLASH !in esc && c in esc && !Touches(Body(c), esc)
    ensures Escape([c], esc) == Escape([BACKSLASH] + Body(c), esc)
  {
    var b := [BACKSLASH] + Body(c);
    assert !Touches(b, esc) by {
      assert forall k | 0 < k < |b| :: b[k] == Body(c)[k - 1];
    }
    TypedLiterally(b, esc);
    assert [c][1..] == [];
  }

  ghost predicate OneToOne(esc: set<Char>) {
    forall s, t :: Escape(s, esc) == Escape(t, esc) ==> s == t
  }

  /** The output determines the input, for all strings, exactly when the set contains the
      backslash or every escape it produces contains an escaped byte itself. */
  lemma OneToOneIff(esc: set<Char>)
    ensures OneToOne(esc) <==> Decodable(esc)
  {
    if Decodable(esc) {
      forall s, t | Escape(s, esc) == Escape(t, esc) ensures s == t {
        Injective(s, t, esc);
      }
    } else {
      var c :| c in esc && !Touches(Body(c), esc);
      Ambiguous(c, esc);
      assert |[c]| != |[BACKSLASH] + Body(c)|;
    }
  }

  // ------------------------------------------------------------------ when the output is clean

  /** No escaped byte but the backslash is left in `t`. */
  predicate Clean(t: seq<Char>, esc: set<Char>) {
    forall k | 0 <= k < |t| :: t[k] in esc ==> t[k] == BACKSLASH
  }

  predicate Harmless(esc: set<Char>) {
    forall c | c in esc && c != BACKSLASH :: !Touches(Body(c), esc)
  }

  lemma {:induction false} EscapeClean(s: seq<Char>, esc: set<Char>)
    requires Harmless(esc)
    ensures Clean(Escape(s, esc), esc)
  {
    if s != [] {
      EscapeClean(s[1..], esc);
      var e := EscapeChar(s[0], esc);
      assert Clean(e, esc) by {
        if s[0] in esc && s[0] != BACKSLASH {
          assert !Touches(Body(s[0]), esc);
          assert forall k | 0 < k < |e| :: e[k] == Body(s[0])[k - 1];
        }
      }
    }
  }

  lemma SpelledWithEscaped(c: Char, k: nat, esc: set<Char>)
    requires c in esc && c != BACKSLASH && k < |Body(c)| && Body(c)[k] in esc
    ensures !Clean(Escape([c], esc), esc)
  {
    BodyHasNoBackslash(c);
    assert [c][1..] == [];
    assert Escape([c], esc) == [BACKSLASH] + Body(c);
    assert Escape([c], esc)[k + 1] == Body(c)[k];
  }

  /** Every output is free of escaped bytes other than the backslash exactly when no escape is
      spelled with one, for instance when the set avoids `n`, `t` and the octal digits. */
  lemma CleanIff(esc: set<Char>)
    ensures (forall s :: Clean(Escape(s, esc), esc)) <==> Harmless(esc)
  {
    if Harmless(esc) {
      forall s ensures Clean(Escape(s, esc), esc) {
        EscapeClean(s, esc);
      }
    } else {
      var c :| c in esc && c != BACKSLASH && Touches(Body(c), esc);
      var k :| 0 <= k < |Body(c)| && Body(c)[k] in esc;
      SpelledWithEscaped(c, k, esc);
    }
  }

  lemma AvoidsSpelling(esc: set<Char>)
    requires LETTER_N !in esc && LETTER_T !in esc
    requires forall d: Char | DIGIT_0 <= d <= DIGIT_0 + 7 :: d !in esc
    ensures Harmless(esc)
    ensures esc != {} ==> (Decodable(esc) <==> BACKSLASH in esc)
  {
    forall c | c in esc && c != BACKSLASH ensures !Touches(Body(c), esc) {
      if |Body(c)| == 3 { OctalOfBody(c); }
    }
  }
}
