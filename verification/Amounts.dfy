/**
 Comparing decimal strings without floating point (frontend/lib/format.ts).

 `Normalize` and `EqualsAmount` are the code.  The meaning of an amount is a sign flag and a real
 magnitude; the lemmas say that normalising keeps both and that equal text is equal meaning.
 */
module Amounts {
  predicate IsDigit(c: char) {
    '0' <= c <= '9'
  }

  lemma DigitsAreTheseTen(c: char)
    ensures IsDigit(c) <==> c in "0123456789"
  {
  }

  predicate AllDigits(s: string) {
    forall i :: 0 <= i < |s| ==> IsDigit(s[i])
  }

  // ---------- the code ----------

  // The text before the first dot, and after it.
  function Before(s: string): (r: string)
    ensures '.' !in r && |r| <= |s| && r == s[..|r|]
  {
    if s == "" || s[0] == '.' then "" else [s[0]] + Before(s[1..])
  }

  function After(s: string): string {
    if s == "" then "" else if s[0] == '.' then s[1..] else After(s[1..])
  }

  // Zeros at the front go as long as a digit follows.
  function StripLeadingZeros(s: string): string {
    if 2 <= |s| && s[0] == '0' && IsDigit(s[1]) then StripLeadingZeros(s[1..]) else s
  }

  function StripTrailingZeros(s: string): string {
    if s != "" && s[|s| - 1] == '0' then StripTrailingZeros(s[..|s| - 1]) else s
  }

  predicate Negative(s: string) {
    s != "" && s[0] == '-'
  }

  function Body(s: string): string {
    if Negative(s) then s[1..] else s
  }

  function Whole(s: string): string {
    Before(Body(s))
  }

  function Fraction(s: string): string {
    Before(After(Body(s)))
  }

  function CanonicalWhole(whole: string): string {
    var stripped := StripLeadingZeros(whole);
    if stripped == "" then "0" else stripped
  }

  function Assemble(negative: bool, whole: string, fraction: string): string {
    (if negative then "-" else "") + (if fraction != "" then whole + "." + fraction else whole)
  }

  function Normalize(s: string): string {
    Assemble(Negative(s), CanonicalWhole(Whole(s)), StripTrailingZeros(Fraction(s)))
  }

  predicate EqualsAmount(a: string, b: string) {
    Normalize(a) == Normalize(b)
  }

  // ---------- the meaning ----------

  // An optional sign, digits, and at most one dot among them.
  predicate WellFormed(s: string) {
    AllDigits(Before(Body(s))) && AllDigits(After(Body(s)))
  }

  function Digit(c: char): int {
    c as int - '0' as int
  }

  function Nat(s: string): int {
    if s == "" then 0 else 10 * Nat(s[..|s| - 1]) + Digit(s[|s| - 1])
  }

  function Frac(s: string): real {
    if s == "" then 0.0 else (Digit(s[0]) as real + Frac(s[1..])) / 10.0
  }

  function Magnitude(s: string): real {
    Nat(Whole(s)) as real + Frac(Fraction(s))
  }

  function Value(s: string): real {
    if Negative(s) then -Magnitude(s) else Magnitude(s)
  }

  // ---------- parsing what was assembled ----------

  lemma {:induction false} BeforeJoined(w: string, rest: string)
    requires '.' !in w && (rest == "" || rest[0] == '.')
    ensures Before(w + rest) == w
    ensures After(w + rest) == if rest == "" then "" else rest[1..]
  {
    if w == "" {
      assert w + rest == rest;
    } else {
      assert (w + rest)[1..] == w[1..] + rest;
      BeforeJoined(w[1..], rest);
    }
  }

  lemma {:induction false} BeforeOfDotless(s: string)
    requires '.' !in s
    ensures Before(s) == s
  {
    BeforeJoined(s, "");
    assert s + "" == s;
  }

  lemma AssembledParts(negative: bool, w: string, f: string)
    requires w != "" && '.' !in w && '.' !in f && (!negative ==> w[0] != '-')
    ensures var s := Assemble(negative, w, f);
            Negative(s) == negative && Whole(s) == w && Fraction(s) == f && After(Body(s)) == f
  {
    var s, rest := Assemble(negative, w, f), if f != "" then "." + f else "";
    assert Body(s) == w + rest;
    BeforeJoined(w, rest);
    assert rest != "" ==> rest[1..] == f;
    BeforeOfDotless(f);
  }

  lemma {:induction false} StrippedLeading(s: string)
    ensures var r := StripLeadingZeros(s);
            && StripLeadingZeros(r) == r && (s == "" <==> r == "")
            && ('.' !in s ==> '.' !in r) && (AllDigits(s) ==> AllDigits(r) && Nat(r) == Nat(s))
            && (r != "" && r[0] == '-' ==> s[0] == '-')
            && (2 <= |r| && AllDigits(s) ==> r[0] != '0')
  {
    if 2 <= |s| && s[0] == '0' && IsDigit(s[1]) {
      StrippedLeading(s[1..]);
      NatOfLeadingZero(s);
    }
  }

  lemma {:induction false} NatOfLeadingZero(s: string)
    requires s != "" && s[0] == '0'
    ensures Nat(s) == Nat(s[1..])
  {
    if 1 < |s| {
      NatOfLeadingZero(s[..|s| - 1]);
      assert s[1..][..|s| - 2] == s[..|s| - 1][1..];
    } else {
      assert s[..0] == "";
    }
  }

  lemma {:induction false} StrippedTrailing(s: string)
    ensures var r := StripTrailingZeros(s);
            && StripTrailingZeros(r) == r && |r| <= |s| && r == s[..|r|] && Frac(r) == Frac(s)
            && (r != "" ==> r[|r| - 1] != '0')
  {
    if s != "" && s[|s| - 1] == '0' {
      StrippedTrailing(s[..|s| - 1]);
      FracOfTrailingZero(s);
    }
  }

  lemma {:induction false} FracOfTrailingZero(s: string)
    requires s != "" && s[|s| - 1] == '0'
    ensures Frac(s) == Frac(s[..|s| - 1])
  {
    if 1 < |s| {
      FracOfTrailingZero(s[1..]);
      assert s[1..][..|s| - 2] == s[..|s| - 1][1..];
    }
  }

  lemma NormalizedParts(s: string)
    ensures Negative(Normalize(s)) == Negative(s)
    ensures Whole(Normalize(s)) == CanonicalWhole(Whole(s)) && Fraction(Normalize(s)) == StripTrailingZeros(Fraction(s))
    ensures After(Body(Normalize(s))) == Fraction(Normalize(s))
  {
    StrippedLeading(Whole(s));
    StrippedTrailing(Fraction(s));
    AssembledParts(Negative(s), CanonicalWhole(Whole(s)), StripTrailingZeros(Fraction(s)));
  }

  // ---------- canonical form ----------

  // Normalising twice is normalising once, on every string.
  lemma NormalizeIsIdempotent(s: string)
    ensures Normalize(Normalize(s)) == Normalize(s)
  {
    NormalizedParts(s);
    StrippedLeading(Whole(s));
    StrippedTrailing(Fraction(s));
  }

  // The sign flag and the magnitude survive, and the result is again well formed.
  lemma NormalizeKeepsTheAmount(s: string)
    requires WellFormed(s)
    ensures WellFormed(Normalize(s)) && Negative(Normalize(s)) == Negative(s) && Magnitude(Normalize(s)) == Magnitude(s)
  {
    NormalizedParts(s);
    StrippedLeading(Whole(s));
    StrippedTrailing(Fraction(s));
    assert AllDigits(Fraction(s));
    assert Nat("0") == 10 * Nat("0"[..0]) + 0;
  }

  lemma {:induction false} FracBounds(s: string)
    requires AllDigits(s)
    ensures 0.0 <= Frac(s) < 1.0
    ensures s != "" && s[|s| - 1] != '0' ==> 0.0 < Frac(s)
  {
    if s != "" {
      FracBounds(s[1..]);
    }
  }

  lemma {:induction false} FracIsInjective(a: string, b: string)
    requires AllDigits(a) && AllDigits(b) && Frac(a) == Frac(b)
    requires (a != "" ==> a[|a| - 1] != '0') && (b != "" ==> b[|b| - 1] != '0')
    ensures a == b
  {
    FracBounds(a);
    FracBounds(b);
    if a != "" && b != "" {
      FracBounds(a[1..]);
      FracBounds(b[1..]);
      assert Digit(a[0]) as real + Frac(a[1..]) == Digit(b[0]) as real + Frac(b[1..]);
      SameFloor(Digit(a[0]), Frac(a[1..]), Digit(b[0]), Frac(b[1..]));
      FracIsInjective(a[1..], b[1..]);
      assert a == [a[0]] + a[1..] && b == [b[0]] + b[1..];
    }
  }

  lemma SameFloor(m: int, x: real, n: int, y: real)
    requires 0.0 <= x < 1.0 && 0.0 <= y < 1.0 && m as real + x == n as real + y
    ensures m == n && x == y
  {
  }

  lemma {:induction false} NatBounds(s: string)
    requires AllDigits(s)
    ensures 0 <= Nat(s) && (s != "" && s[0] != '0' ==> 1 <= Nat(s)) && (2 <= |s| && s[0] != '0' ==> 10 <= Nat(s))
  {
    if s != "" {
      NatBounds(s[..|s| - 1]);
    }
  }

  lemma {:induction false} NatIsInjective(a: string, b: string)
    requires AllDigits(a) && AllDigits(b) && a != "" && b != "" && Nat(a) == Nat(b)
    requires (2 <= |a| ==> a[0] != '0') && (2 <= |b| ==> b[0] != '0')
    ensures a == b
    decreases |a|
  {
    NatBounds(a);
    NatBounds(b);
    var a0, b0 := a[..|a| - 1], b[..|b| - 1];
    assert Nat(a) == 10 * Nat(a0) + Digit(a[|a| - 1]) && Nat(b) == 10 * Nat(b0) + Digit(b[|b| - 1]);
    assert Nat(a0) == Nat(b0) && Digit(a[|a| - 1]) == Digit(b[|b| - 1]);
    if 2 <= |a| && 2 <= |b| {
      NatIsInjective(a0, b0);
    } else {
      assert |a| == 1 && |b| == 1 by {
        if |a| == 1 { assert Nat(a0) == 0; }
        if |b| == 1 { assert Nat(b0) == 0; }
      }
    }
    assert a == a0 + [a[|a| - 1]] && b == b0 + [b[|b| - 1]];
  }

  predicate Canonical(w: string, f: string) {
    && w != "" && AllDigits(w) && AllDigits(f)
    && (2 <= |w| ==> w[0] != '0') && (f != "" ==> f[|f| - 1] != '0')
  }

  // A canonical whole part and fraction are the only ones with their value.
  lemma CanonicalPartsAreUnique(w: string, f: string, w': string, f': string)
    requires Canonical(w, f) && Canonical(w', f')
    requires Nat(w) as real + Frac(f) == Nat(w') as real + Frac(f')
    ensures w == w' && f == f'
  {
    FracBounds(f);
    FracBounds(f');
    SameFloor(Nat(w), Frac(f), Nat(w'), Frac(f'));
    NatIsInjective(w, w');
    FracIsInjective(f, f');
  }

  lemma NormalizedIsCanonical(s: string)
    requires WellFormed(s)
    ensures Canonical(CanonicalWhole(Whole(s)), StripTrailingZeros(Fraction(s)))
    ensures Nat(CanonicalWhole(Whole(s))) as real + Frac(StripTrailingZeros(Fraction(s))) == Magnitude(s)
  {
    StrippedLeading(Whole(s));
    StrippedTrailing(Fraction(s));
    assert AllDigits(Fraction(s));
    assert Nat("0") == 10 * Nat("0"[..0]) + 0;
  }

  // Two well-formed amounts compare equal exactly when their sign flags and magnitudes agree.
  lemma EqualsAmountIff(a: string, b: string)
    requires WellFormed(a) && WellFormed(b)
    ensures EqualsAmount(a, b) <==> Negative(a) == Negative(b) && Magnitude(a) == Magnitude(b)
  {
    if EqualsAmount(a, b) {
      NormalizeKeepsTheAmount(a);
      NormalizeKeepsTheAmount(b);
    }
    if Magnitude(a) == Magnitude(b) {
      NormalizedIsCanonical(a);
      NormalizedIsCanonical(b);
      CanonicalPartsAreUnique(CanonicalWhole(Whole(a)), StripTrailingZeros(Fraction(a)),
                              CanonicalWhole(Whole(b)), StripTrailingZeros(Fraction(b)));
    }
  }

  // That is numeric equality, except that zero written with a minus differs from zero written without.
  lemma EqualsAmountIsNumericExceptNegativeZero(a: string, b: string)
    requires WellFormed(a) && WellFormed(b)
    ensures EqualsAmount(a, b) ==> Value(a) == Value(b)
    ensures Value(a) == Value(b) && !EqualsAmount(a, b) <==>
              Value(a) == 0.0 && Value(b) == 0.0 && Negative(a) != Negative(b)
  {
    EqualsAmountIff(a, b);
    FracBounds(Fraction(a));
    FracBounds(Fraction(b));
    NatBounds(Whole(a));
    NatBounds(Whole(b));
  }
}
