/**
 Decimal numerals carried as strings: `decimal_value`, which admits one spelling per number, and the
 recipe price `_price`, which bounds a fixed-point amount. `Decimal` values are a sign, a
 coefficient and a power of ten; strings are parsed and printed digit by digit.
 */
module Decimals {
  import opened Basics

  datatype Dec = Dec(neg: bool, coeff: nat, exp: int)

  // ------------------------------------------------------------------ digits and powers of ten

  predicate IsDigit(c: char) { '0' <= c <= '9' }

  predicate AllDigits(s: string) { forall i :: 0 <= i < |s| ==> IsDigit(s[i]) }

  function DigitValue(c: char): nat { if IsDigit(c) then (c - '0') as nat else 0 }

  // The first n characters, read as a number.
  function NatOf(s: string, n: nat): nat
    requires n <= |s|
  {
    if n == 0 then 0 else 10 * NatOf(s, n - 1) + DigitValue(s[n - 1])
  }

  function Nat(s: string): nat { NatOf(s, |s|) }

  function Zeros(n: nat): (s: string)
    ensures |s| == n
  {
    seq(n, _ => '0')
  }

  // x followed by n zeros.
  function Scale(x: nat, n: nat): (r: nat)
    ensures r >= x
  {
    if n == 0 then x else 10 * Scale(x, n - 1)
  }

  // x moved n places to the left, or -n places to the right.
  function Shift(x: real, n: int): real
    decreases if n < 0 then -n else n
  {
    if n == 0 then x else if n > 0 then 10.0 * Shift(x, n - 1) else Shift(x, n + 1) / 10.0
  }

  function Signed(d: Dec): real { if d.neg then -(d.coeff as real) else d.coeff as real }

  // The number a Decimal stands for.
  function Number(d: Dec): real { Shift(Signed(d), d.exp) }

  lemma {:induction false} ShiftOnce(x: real, n: int)
    ensures Shift(x, n + 1) == 10.0 * Shift(x, n)
  {}

  lemma {:induction false} ShiftTwice(x: real, a: int, b: int)
    ensures Shift(Shift(x, a), b) == Shift(x, a + b)
    decreases if b < 0 then -b else b
  {
    if b > 0 {
      ShiftTwice(x, a, b - 1);
      ShiftOnce(x, a + b - 1);
    } else if b < 0 {
      ShiftTwice(x, a, b + 1);
      ShiftOnce(x, a + b);
    }
  }

  lemma {:induction false} ShiftOrder(x: real, y: real, n: int)
    ensures Shift(x, n) < Shift(y, n) <==> x < y
    ensures Shift(-x, n) == -Shift(x, n)
    decreases if n < 0 then -n else n
  {
    if n > 0 { ShiftOrder(x, y, n - 1); } else if n < 0 { ShiftOrder(x, y, n + 1); }
  }

  lemma {:induction false} ShiftIsScale(x: nat, n: nat)
    ensures Shift(x as real, n) == Scale(x, n) as real
    decreases n
  {
    if n > 0 { ShiftIsScale(x, n - 1); }
  }

  lemma {:induction false} NatOfConcat(a: string, b: string, n: nat)
    requires n <= |b|
    ensures NatOf(a + b, |a| + n) == Scale(Nat(a), n) + NatOf(b, n)
  {
    if n > 0 { NatOfConcat(a, b, n - 1); } else { NatOfPrefix(a, b, |a|); }
  }

  lemma {:induction false} NatOfPrefix(a: string, b: string, n: nat)
    requires n <= |a|
    ensures NatOf(a + b, n) == NatOf(a, n)
  {
    if n > 0 { NatOfPrefix(a, b, n - 1); }
  }

  lemma {:induction false} NatOfDigits(n: nat)
    ensures Nat(Digits(n)) == n && AllDigits(Digits(n)) && (n > 0 ==> Digits(n)[0] != '0')
  {
    if n < 10 {
      assert DigitValue('0' + n as char) == n;
      assert NatOf(Digits(n), 0) == 0;
    } else {
      var t, c := Digits(n / 10), '0' + (n % 10) as char;
      NatOfDigits(n / 10);
      NatOfPrefix(t, [c], |t|);
      assert Digits(n) == t + [c] && DigitValue(c) == n % 10;
    }
  }

  lemma {:induction false} NatOfZeros(s: string, n: nat)
    requires n <= |s| && forall i :: 0 <= i < n ==> s[i] == '0'
    ensures NatOf(s, n) == 0
  {
    if n > 0 { NatOfZeros(s, n - 1); }
  }

  lemma {:induction false} NatIsBelow(s: string, n: nat)
    requires n <= |s|
    ensures NatOf(s, n) < Scale(1, n)
  {
    if n > 0 { NatIsBelow(s, n - 1); }
  }

  lemma {:induction false} NatIsAtLeast(s: string, n: nat)
    requires 1 <= n <= |s| && IsDigit(s[0]) && s[0] != '0'
    ensures NatOf(s, n) >= Scale(1, n - 1)
  {
    if n > 1 { NatIsAtLeast(s, n - 1); }
  }

  lemma {:induction false} ScaleGrows(x: nat, a: nat, b: nat)
    requires a <= b
    ensures Scale(x, a) <= Scale(x, b)
    decreases b
  {
    if a < b { ScaleGrows(x, a, b - 1); }
  }

  lemma {:induction false} SameNumberSameDigits(a: string, b: string, n: nat)
    requires AllDigits(a) && AllDigits(b) && n <= |a| && n <= |b| && NatOf(a, n) == NatOf(b, n)
    ensures forall k :: 0 <= k < n ==> a[k] == b[k]
  {
    if n > 0 {
      SameNumberSameDigits(a, b, n - 1);
    }
  }

  // ------------------------------------------------------------------ parsing

  // What has been read of a numeral: its digits as a number, how many of them stood behind the
  // point, whether there was any, and whether the point has been seen.
  datatype Reading = Reading(neg: bool, coeff: nat, places: nat, any: bool, point: bool)

  predicate IsSign(c: char) { c == '-' || c == '+' }

  // digits [. digits] [e exponent], with a digit in front of the exponent.
  function Read(s: string, i: nat, r: Reading): Option<Dec>
    requires i <= |s|
    decreases |s| - i, 2
  {
    if i == |s| then (if r.any then Some(Dec(r.neg, r.coeff, 0 - r.places)) else None)
    else if IsDigit(s[i]) then
      Read(s, i + 1, r.(coeff := 10 * r.coeff + DigitValue(s[i]), any := true,
                        places := if r.point then r.places + 1 else 0))
    else if s[i] == '.' && !r.point then Read(s, i + 1, r.(point := true))
    else if (s[i] == 'e' || s[i] == 'E') && r.any then ReadExponent(s, i + 1, r)
    else None
  }

  // [sign] digits
  function ReadExponent(s: string, i: nat, r: Reading): Option<Dec>
    requires i <= |s|
    decreases |s| - i, 1
  {
    if i < |s| && IsSign(s[i]) then ReadPower(s, i + 1, s[i] == '-', 0, false, r)
    else ReadPower(s, i, false, 0, false, r)
  }

  function ReadPower(s: string, i: nat, neg: bool, exp: nat, any: bool, r: Reading): Option<Dec>
    requires i <= |s|
    decreases |s| - i, 0
  {
    if i == |s| then (if any then Some(Dec(r.neg, r.coeff, (if neg then 0 - exp else exp) - r.places)) else None)
    else if IsDigit(s[i]) then ReadPower(s, i + 1, neg, 10 * exp + DigitValue(s[i]), true, r)
    else None
  }

  // `Decimal(value)`, for its finite plain-digit grammar.
  function Parse(s: string): Option<Dec> {
    if s != [] && IsSign(s[0]) then Read(s, 1, Reading(s[0] == '-', 0, 0, false, false))
    else Read(s, 0, Reading(false, 0, 0, false, false))
  }

  // ------------------------------------------------------------------ printing

  function Sign(neg: bool): string { if neg then "-" else "" }

  function Point(frac: string): string { if frac == [] then [] else "." + frac }

  // A fixed-notation numeral.
  function Fixed(neg: bool, whole: string, frac: string): string {
    Sign(neg) + whole + Point(frac)
  }

  function Whole(d: Dec): (s: string)
    ensures s != []
  {
    var digits := Digits(d.coeff);
    var left := |digits| + d.exp;
    if d.coeff == 0 && d.exp > 0 then "0"
    else if left <= 0 then "0"
    else if left > |digits| then digits + Zeros(left - |digits|)
    else digits[..left]
  }

  function Fraction(d: Dec): string
  {
    var digits := Digits(d.coeff);
    var left := |digits| + d.exp;
    if d.exp >= 0 then "" else if left < 0 then Zeros(-left) + digits else digits[left..]
  }

  // `format(number, "f")`.
  function Format(d: Dec): string { Fixed(d.neg, Whole(d), Fraction(d)) }

  // Where the run of c that ends at n begins.
  function RunStart(s: string, c: char, n: nat): (k: nat)
    requires n <= |s|
    ensures k <= n
  {
    if n > 0 && s[n - 1] == c then RunStart(s, c, n - 1) else n
  }

  // `s.rstrip(c)`
  function StripEnd(s: string, c: char): string { s[..RunStart(s, c, |s|)] }

  // The canonical spelling: no zeros behind the last other digit of the fraction, no bare point.
  function Canonical(d: Dec): string {
    if d.coeff == 0 then "0" else Fixed(d.neg, Whole(d), StripEnd(Fraction(d), '0'))
  }

  function Adjusted(d: Dec): int { d.exp + |Digits(d.coeff)| - 1 }

  function Abs(n: int): nat { if n < 0 then -n else n }

  // `decimal_value` returns its argument.
  predicate Accepts(s: string) {
    && 1 <= |s| <= 64
    && Parse(s).Some?
    && Abs(Adjusted(Parse(s).value)) <= 32
    && s == Canonical(Parse(s).value)
  }

  // `_price` returns without an error.
  predicate PriceOk(s: string) {
    && 1 <= |s| <= 30
    && Parse(s).Some?
    && var d := Parse(s).value;
       0.0 <= Number(d) <= 1_000_000_000.0 && -6 <= d.exp <= 29 && Format(d) == s
  }

  // ------------------------------------------------------------------ fixed notation

  // No leading zero, unless it is the only digit.
  predicate IsWhole(w: string) { AllDigits(w) && w != [] && (w == "0" || w[0] != '0') }

  lemma {:induction false} ReadWhole(s: string, start: nat, q: string, n: nat, neg: bool)
    requires start + n <= |s| && n <= |q| && AllDigits(q)
    requires forall j :: start <= j < start + n ==> s[j] == q[j - start]
    ensures Read(s, start, Reading(neg, 0, 0, false, false))
         == Read(s, start + n, Reading(neg, NatOf(q, n), 0, n > 0, false))
  {
    if n > 0 { ReadWhole(s, start, q, n - 1, neg); }
  }

  lemma {:induction false} ReadFraction(s: string, i: nat, q: string, at: nat, m: nat, neg: bool)
    requires at <= i && i + m <= |s| && at + m <= |q| && AllDigits(q)
    requires forall j :: i <= j < i + m ==> s[j] == q[j - i + at]
    ensures Read(s, i, Reading(neg, NatOf(q, at), 0, true, true))
         == Read(s, i + m, Reading(neg, NatOf(q, at + m), m, true, true))
  {
    if m > 0 { ReadFraction(s, i, q, at, m - 1, neg); }
  }

  lemma ReadBody(s: string, start: nat, w: nat, q: string, neg: bool)
    requires 1 <= w <= |q| && AllDigits(q)
    requires |s| == start + |q| + (if w < |q| then 1 else 0)
    requires forall j :: start <= j < start + w ==> s[j] == q[j - start]
    requires w < |q| ==> s[start + w] == '.'
    requires forall j :: start + w < j < |s| ==> s[j] == q[j - start - 1]
    ensures Read(s, start, Reading(neg, 0, 0, false, false)) == Some(Dec(neg, Nat(q), w - |q|))
  {
    ReadWhole(s, start, q, w, neg);
    if w < |q| { ReadFraction(s, start + w + 1, q, w, |q| - w, neg); }
  }

  lemma SignIsRead(neg: bool, body: string)
    requires body != [] && IsDigit(body[0])
    ensures Parse(Sign(neg) + body) == Read(Sign(neg) + body, |Sign(neg)|, Reading(neg, 0, 0, false, false))
  {
    if neg { assert (Sign(neg) + body)[0] == '-'; } else { assert Sign(neg) + body == body; }
  }

  lemma ParseFixed(neg: bool, w: string, f: string)
    requires AllDigits(w) && AllDigits(f) && w != []
    ensures Parse(Fixed(neg, w, f)) == Some(Dec(neg, Nat(w + f), -|f|))
  {
    var s, start := Fixed(neg, w, f), |Sign(neg)|;
    SignIsRead(neg, w + Point(f));
    assert s == Sign(neg) + (w + Point(f));
    assert forall j :: start <= j < start + |w| ==> s[j] == w[j - start];
    assert forall j :: start + |w| < j < |s| ==> s[j] == f[j - start - 1 - |w|];
    ReadBody(s, start, |w|, w + f, neg);
  }

  lemma NoLeadingZeros(z: nat, s: string)
    ensures Nat(Zeros(z) + s) == Nat(s)
  {
    NatOfConcat(Zeros(z), s, |s|);
    NatOfZeros(Zeros(z), z);
    ScaleOfZero(|s|);
  }

  lemma {:induction false} ScaleOfZero(n: nat)
    ensures Scale(0, n) == 0
  {
    if n > 0 { ScaleOfZero(n - 1); }
  }

  lemma NatOfTrailingZeros(s: string, z: nat)
    ensures Nat(s + Zeros(z)) == Scale(Nat(s), z)
  {
    NatOfConcat(s, Zeros(z), z);
    NatOfZeros(Zeros(z), z);
  }

  // What `format` prints has no superfluous leading zero, as many decimal places as the exponent
  // says, and the digits of the coefficient.
  lemma FormatParts(d: Dec)
    ensures IsWhole(Whole(d)) && AllDigits(Fraction(d)) && |Fraction(d)| == (if d.exp < 0 then -d.exp else 0)
    ensures Nat(Whole(d) + Fraction(d)) == Scale(d.coeff, if d.exp > 0 then d.exp else 0)
  {
    var digits, w, f := Digits(d.coeff), Whole(d), Fraction(d);
    var left := |digits| + d.exp;
    NatOfDigits(d.coeff);
    if d.coeff == 0 && d.exp > 0 {
      ScaleOfZero(d.exp);
      assert w + f == "0";
    } else if left > |digits| {
      NatOfTrailingZeros(digits, d.exp);
      assert w + f == digits + Zeros(d.exp);
    } else if left > 0 {
      assert w + f == digits;
    } else {
      assert w + f == Zeros(1 - left) + digits;
      NoLeadingZeros(1 - left, digits);
    }
  }

  lemma LongerIsLarger(a: string, b: string)
    requires AllDigits(b) && |a| < |b| && b[0] != '0'
    ensures Nat(a) < Nat(b)
  {
    NatIsBelow(a, |a|);
    NatIsAtLeast(b, |b|);
    ScaleGrows(1, |a|, |b| - 1);
  }

  // Equal numbers with equally many decimal places are spelled alike.
  lemma SamePlaces(v: string, e: string, w: string, f: string)
    requires IsWhole(v) && IsWhole(w) && AllDigits(e) && AllDigits(f) && |e| == |f|
    requires Nat(v + e) == Nat(w + f)
    ensures v == w && e == f
  {
    var a, b := v + e, w + f;
    if |v| < |w| { LongerIsLarger(a, b); }
    if |w| < |v| { LongerIsLarger(b, a); }
    SameNumberSameDigits(a, b, |a|);
    assert v == a[..|v|] && w == b[..|w|];
    assert e == a[|v|..] && f == b[|w|..];
  }

  lemma PartsOfFixed(neg: bool, w: string, f: string)
    requires IsWhole(w) && AllDigits(f)
    ensures var d := Dec(neg, Nat(w + f), -|f|); Whole(d) == w && Fraction(d) == f
  {
    var d := Dec(neg, Nat(w + f), -|f|);
    FormatParts(d);
    SamePlaces(Whole(d), Fraction(d), w, f);
  }

  // ------------------------------------------------------------------ canonical numerals

  lemma {:induction false} RunStartIs(s: string, c: char, n: nat, k: nat)
    requires k <= n <= |s| && (forall j :: k <= j < n ==> s[j] == c) && (k > 0 ==> s[k - 1] != c)
    ensures RunStart(s, c, n) == k
  {
    if k < n { RunStartIs(s, c, n - 1, k); }
  }

  lemma {:induction false} RunIsUniform(s: string, c: char, n: nat)
    requires n <= |s|
    ensures var k := RunStart(s, c, n); (forall j :: k <= j < n ==> s[j] == c) && (k > 0 ==> s[k - 1] != c)
  {
    if n > 0 && s[n - 1] == c { RunIsUniform(s, c, n - 1); }
  }

  lemma StripBehindPoint(a: string, f: string)
    ensures StripEnd(a + "." + f, '0') == a + "." + StripEnd(f, '0')
  {
    var s, k := a + "." + f, RunStart(f, '0', |f|);
    RunIsUniform(f, '0', |f|);
    RunStartIs(s, '0', |s|, |a| + 1 + k);
  }

  lemma StripIsZeros(f: string)
    ensures var t := StripEnd(f, '0'); |t| <= |f| && f == t + Zeros(|f| - |t|)
  {
    RunIsUniform(f, '0', |f|);
  }

  lemma PointlessTail(a: string, t: string)
    requires AllDigits(t) && a != [] && IsDigit(a[|a| - 1])
    ensures StripEnd(a + "." + t, '.') == a + Point(t)
  {
    var r := a + "." + t;
    assert r == a + ("." + t);
    RunStartIs(r, '.', |r|, if t == [] then |a| else |r|);
  }

  lemma NoPoint(d: Dec)
    requires d.coeff > 0 && Fraction(d) == []
    ensures '.' !in Format(d) && Format(d) == Canonical(d)
  {
    FormatParts(d);
    assert StripEnd(Fraction(d), '0') == [];
  }

  lemma PointStripped(d: Dec)
    requires d.coeff > 0 && Fraction(d) != []
    ensures '.' in Format(d) && StripEnd(StripEnd(Format(d), '0'), '.') == Canonical(d)
  {
    var w, f := Whole(d), Fraction(d);
    var a := Sign(d.neg) + w;
    FormatParts(d);
    assert a[|a| - 1] == w[|w| - 1];
    var s := a + "." + f;
    assert Format(d) == s by { assert s == a + ("." + f); }
    assert s[|a|] == '.';
    StripBehindPoint(a, f);
    StripIsZeros(f);
    PointlessTail(a, StripEnd(f, '0'));
  }

  /** The text `decimal_value` compares its argument with. */
  method CanonicalText(d: Dec) returns (canonical: string)
    ensures canonical == Canonical(d)
  {
    canonical := if d.coeff == 0 then "0" else Format(d);
    if d.coeff > 0 {
      if Fraction(d) == [] { NoPoint(d); } else { PointStripped(d); }
    }
    if '.' in canonical {
      canonical := StripEnd(StripEnd(canonical, '0'), '.');
    }
  }

  lemma ScaledNumber(neg: bool, c: nat, z: nat, exp: int)
    ensures Number(Dec(neg, Scale(c, z), exp)) == Number(Dec(neg, c, exp + z))
  {
    ShiftIsScale(c, z);
    ShiftOrder(c as real, 0.0, z);
    ShiftTwice(Signed(Dec(neg, c, 0)), z, exp);
  }

  // Dropping trailing zeros behind the point keeps the number.
  lemma StrippedNumber(neg: bool, w: string, f: string)
    ensures var t := StripEnd(f, '0');
            && Number(Dec(neg, Nat(w + t), -|t|)) == Number(Dec(neg, Nat(w + f), -|f|))
            && (Nat(w + t) == 0 <==> Nat(w + f) == 0)
  {
    var t := StripEnd(f, '0');
    StripIsZeros(f);
    var z := |f| - |t|;
    assert w + f == w + t + Zeros(z);
    NatOfTrailingZeros(w + t, z);
    ScaledNumber(neg, Nat(w + t), z, -|f|);
    if Nat(w + t) == 0 { ScaleOfZero(z); }
  }

  lemma ZeroIsZero(d: Dec)
    requires d.coeff == 0
    ensures Number(d) == 0.0
  {
    ShiftOrder(0.0, 0.0, d.exp);
  }

  lemma ParseZero()
    ensures Parse("0") == Some(Dec(false, 0, 0))
  {
    ParseFixed(false, "0", "");
    assert Fixed(false, "0", "") == "0" && "0" + "" == "0";
    assert Nat("0") == 0;
  }

  lemma FixedKeepsNumber(d: Dec)
    ensures Number(Dec(d.neg, Nat(Whole(d) + Fraction(d)), -|Fraction(d)|)) == Number(d)
    ensures d.coeff > 0 ==> Nat(Whole(d) + Fraction(d)) > 0
  {
    FormatParts(d);
    if d.exp > 0 { ScaledNumber(d.neg, d.coeff, d.exp, 0); }
  }

  // The decimal that the canonical spelling of d denotes.
  function Trimmed(d: Dec): Dec {
    var t := StripEnd(Fraction(d), '0');
    Dec(d.neg, Nat(Whole(d) + t), -|t|)
  }

  lemma CanonicalIsParsed(d: Dec)
    requires d.coeff > 0
    ensures Parse(Canonical(d)) == Some(Trimmed(d))
  {
    FormatParts(d);
    StripIsZeros(Fraction(d));
    ParseFixed(d.neg, Whole(d), StripEnd(Fraction(d), '0'));
  }

  lemma TrimmedNumber(d: Dec)
    ensures Number(Trimmed(d)) == Number(d)
    ensures d.coeff > 0 ==> Trimmed(d).coeff > 0
  {
    FixedKeepsNumber(d);
    StrippedNumber(d.neg, Whole(d), Fraction(d));
  }

  /** Canonicalising a decimal keeps its number, for every decimal. */
  lemma CanonicalKeepsNumber(d: Dec)
    ensures Parse(Canonical(d)).Some?
    ensures Number(Parse(Canonical(d)).value) == Number(d)
  {
    if d.coeff == 0 {
      ParseZero();
      ZeroIsZero(d);
      ZeroIsZero(Dec(false, 0, 0));
    } else {
      CanonicalIsParsed(d);
      TrimmedNumber(d);
    }
  }

  // ------------------------------------------------------------------ what is accepted

  // A canonical numeral other than "0": no superfluous leading or trailing zero, not zero.
  predicate InForm(w: string, f: string) {
    IsWhole(w) && AllDigits(f) && (f != [] ==> f[|f| - 1] != '0') && Nat(w + f) > 0
  }

  ghost predicate CanonicalNumeral(s: string) {
    s == "0" || exists neg: bool, w: string, f: string :: InForm(w, f) && s == Fixed(neg, w, f)
  }

  // Zero, or from 10^-32 up to but excluding 10^33 in magnitude.
  predicate InRange(x: real) {
    x == 0.0 || Shift(1.0, -32) <= (if x < 0.0 then -x else x) < Shift(1.0, 33)
  }

  lemma {:induction false} NatOfDigitsIsLarge(n: nat)
    requires n > 0
    ensures Scale(1, |Digits(n)| - 1) <= n < Scale(1, |Digits(n)|)
  {
    var s := Digits(n);
    NatOfDigits(n);
    NatIsBelow(s, |s|);
    NatIsAtLeast(s, |s|);
  }

  lemma {:induction false} ShiftGrows(a: int, b: int)
    requires a <= b
    ensures Shift(1.0, a) <= Shift(1.0, b) && Shift(1.0, a) > 0.0
    decreases b - a
  {
    ShiftOrder(0.0, 1.0, a);
    ShiftOrder(0.0, 0.0, a);
    if a < b {
      ShiftOnce(1.0, a);
      ShiftGrows(a + 1, b);
    }
  }

  // The adjusted exponent is the power of ten below the number.
  lemma AdjustedIsMagnitude(d: Dec)
    requires d.coeff > 0
    ensures var x := if d.neg then -Number(d) else Number(d);
            Shift(1.0, Adjusted(d)) <= x < Shift(1.0, Adjusted(d) + 1)
  {
    var n := |Digits(d.coeff)|;
    NatOfDigitsIsLarge(d.coeff);
    ShiftOrder(d.coeff as real, 0.0, d.exp);
    ShiftIsScale(1, n - 1);
    ShiftIsScale(1, n);
    ShiftTwice(1.0, n - 1, d.exp);
    ShiftTwice(1.0, n, d.exp);
    ShiftOrder(d.coeff as real, Shift(1.0, n - 1), d.exp);
    ShiftOrder(d.coeff as real, Shift(1.0, n), d.exp);
  }

  lemma BoundedExponents(d: Dec)
    requires d.coeff > 0
    ensures Abs(Adjusted(d)) <= 32 <==> InRange(Number(d))
  {
    AdjustedIsMagnitude(d);
    var a := Adjusted(d);
    ShiftGrows(a, a);
    if a < -32 { ShiftGrows(a + 1, -32); } else { ShiftGrows(-32, a); }
    if a > 32 { ShiftGrows(33, a); } else { ShiftGrows(a + 1, 33); }
  }

  lemma FormIsCanonical(neg: bool, w: string, f: string)
    requires InForm(w, f)
    ensures var d := Dec(neg, Nat(w + f), -|f|);
            Parse(Fixed(neg, w, f)) == Some(d) && Canonical(d) == Fixed(neg, w, f)
  {
    ParseFixed(neg, w, f);
    PartsOfFixed(neg, w, f);
    RunStartIs(f, '0', |f|, |f|);
  }

  lemma CanonicalInForm(d: Dec)
    requires d.coeff > 0
    ensures InForm(Whole(d), StripEnd(Fraction(d), '0'))
  {
    FormatParts(d);
    TrimmedNumber(d);
    StripIsZeros(Fraction(d));
    RunIsUniform(Fraction(d), '0', |Fraction(d)|);
  }

  lemma AcceptedZero()
    ensures Accepts("0") && Parse("0").Some? && InRange(Number(Parse("0").value))
  {
    ParseZero();
    ZeroIsZero(Dec(false, 0, 0));
  }

  lemma AcceptedIsCanonical(s: string)
    requires Accepts(s) && s != "0"
    ensures var d := Parse(s).value;
            d.coeff > 0 && InForm(Whole(d), StripEnd(Fraction(d), '0')) && InRange(Number(d))
            && s == Fixed(d.neg, Whole(d), StripEnd(Fraction(d), '0'))
  {
    var d := Parse(s).value;
    CanonicalInForm(d);
    BoundedExponents(d);
  }

  lemma CanonicalIsAccepted(neg: bool, w: string, f: string)
    requires InForm(w, f)
    ensures var s := Fixed(neg, w, f);
            && Parse(s).Some?
            && (Accepts(s) <==> |s| <= 64 && InRange(Number(Parse(s).value)))
  {
    FormIsCanonical(neg, w, f);
    BoundedExponents(Dec(neg, Nat(w + f), -|f|));
  }

  /** `decimal_value` accepts exactly the canonical numerals of at most 64 characters whose number
      lies within its bounds. */
  lemma AcceptsCanonicalNumerals(s: string)
    ensures Accepts(s)
       <==> |s| <= 64 && CanonicalNumeral(s) && Parse(s).Some? && InRange(Number(Parse(s).value))
  {
    if s == "0" {
      AcceptedZero();
    } else if Accepts(s) {
      AcceptedIsCanonical(s);
    } else if CanonicalNumeral(s) {
      var neg, w, f :| InForm(w, f) && s == Fixed(neg, w, f);
      CanonicalIsAccepted(neg, w, f);
    }
  }

  lemma LastDigitCounts(w: string, f: string)
    requires InForm(w, f) && f != []
    ensures Nat(w + f) % 10 != 0
  {
    assert (w + f)[|w + f| - 1] == f[|f| - 1];
  }

  lemma SameNumberSameParts(m: bool, v: string, e: string, n: bool, w: string, f: string)
    requires InForm(v, e) && InForm(w, f) && |e| <= |f|
    requires Number(Dec(m, Nat(v + e), -|e|)) == Number(Dec(n, Nat(w + f), -|f|))
    ensures m == n && v == w && e == f
  {
    var b, c, z := Nat(v + e), Nat(w + f), |f| - |e|;
    ScaledNumber(m, b, z, -|f|);
    var x, y := Dec(m, Scale(b, z), -|f|), Dec(n, c, -|f|);
    ShiftOrder(Signed(x), Signed(y), -|f|);
    ShiftOrder(Signed(y), Signed(x), -|f|);
    if f != [] { LastDigitCounts(w, f); }
    SamePlaces(v, e, w, f);
  }

  lemma ZeroOnlyIsZero(d: Dec)
    ensures Number(d) == 0.0 <==> d.coeff == 0
  {
    ShiftOrder(Signed(d), 0.0, d.exp);
    ShiftOrder(0.0, Signed(d), d.exp);
    ShiftOrder(0.0, 0.0, d.exp);
  }

  /** One spelling per number: accepted strings that denote the same number are the same string. */
  lemma OneSpellingPerNumber(s: string, t: string)
    requires Accepts(s) && Accepts(t)
    requires Number(Parse(s).value) == Number(Parse(t).value)
    ensures s == t
  {
    var c, d := Parse(s).value, Parse(t).value;
    if c.coeff == 0 || d.coeff == 0 {
      ZeroOnlyIsZero(c);
      ZeroOnlyIsZero(d);
    } else {
      var v, e := Whole(c), StripEnd(Fraction(c), '0');
      var w, f := Whole(d), StripEnd(Fraction(d), '0');
      CanonicalInForm(c);
      CanonicalInForm(d);
      FormIsCanonical(c.neg, v, e);
      FormIsCanonical(d.neg, w, f);
      if |e| <= |f| {
        SameNumberSameParts(c.neg, v, e, d.neg, w, f);
      } else {
        SameNumberSameParts(d.neg, w, f, c.neg, v, e);
      }
    }
  }

  /** And every number in the bounds has that spelling, unless it needs more than 64 characters:
      canonicalising any decimal of that number gives a string `decimal_value` accepts. */
  lemma EveryNumberHasItsSpelling(d: Dec)
    requires InRange(Number(d)) && |Canonical(d)| <= 64
    ensures Accepts(Canonical(d)) && Number(Parse(Canonical(d)).value) == Number(d)
  {
    CanonicalKeepsNumber(d);
    if d.coeff > 0 { CanonicalInForm(d); }
    AcceptsCanonicalNumerals(Canonical(d));
  }

  /** `decimal_value` */
  method DecimalValue(value: string) returns (r: Option<string>)
    ensures r == if Accepts(value) then Some(value) else None
  {
    if value == [] || |value| > 64 || Parse(value).None? || Abs(Adjusted(Parse(value).value)) > 32 {
      return None;
    }
    var canonical := CanonicalText(Parse(value).value);
    r := if value == canonical then Some(value) else None;
  }

  // ------------------------------------------------------------------ recipe prices

  lemma ScaleOfSum(x: nat, a: nat, b: nat)
    ensures Scale(Scale(x, a), b) == Scale(x, a + b)
  {
    if b > 0 { ScaleOfSum(x, a, b - 1); }
  }

  lemma {:induction false} ScaleOrder(x: nat, y: nat, n: nat)
    ensures x <= y <==> Scale(x, n) <= Scale(y, n)
  {
    if n > 0 { ScaleOrder(x, y, n - 1); }
  }

  // A number with k decimal places, against a limit.
  lemma PlacesAgainstLimit(c: nat, k: nat, limit: nat)
    ensures Shift(c as real, 0 - k) <= limit as real <==> c <= Scale(limit, k)
  {
    ShiftTwice(limit as real, k, 0 - k);
    ShiftIsScale(limit, k);
    ShiftOrder(Scale(limit, k) as real, c as real, 0 - k);
  }

  lemma SixPlaces(x: real)
    ensures Shift(x, -6) * 1_000_000.0 == x
  {
    ShiftOnce(x, -6);
    ShiftOnce(x, -5);
    ShiftOnce(x, -4);
    ShiftOnce(x, -3);
    ShiftOnce(x, -2);
    ShiftOnce(x, -1);
  }

  lemma PriceRange(neg: bool, c: nat, k: nat)
    ensures 0.0 <= Number(Dec(neg, c, 0 - k)) <= 1_000_000_000.0
       <==> (neg ==> c == 0) && c <= Scale(1_000_000_000, k)
  {
    var d := Dec(neg, c, 0 - k);
    ZeroOnlyIsZero(d);
    ShiftOrder(Signed(d), 0.0, 0 - k);
    ShiftOrder(0.0, 0.0, 0 - k);
    PlacesAgainstLimit(c, k, 1_000_000_000);
  }

  lemma FixedIsFormatted(neg: bool, w: string, f: string)
    requires IsWhole(w) && AllDigits(f)
    ensures var d := Dec(neg, Nat(w + f), -|f|);
            Parse(Fixed(neg, w, f)) == Some(d) && Format(d) == Fixed(neg, w, f)
  {
    ParseFixed(neg, w, f);
    PartsOfFixed(neg, w, f);
  }

  lemma FixedPriceOk(neg: bool, w: string, f: string)
    requires IsWhole(w) && AllDigits(f)
    ensures PriceOk(Fixed(neg, w, f))
       <==> |Fixed(neg, w, f)| <= 30 && |f| <= 6 && (neg ==> Nat(w + f) == 0)
            && Nat(w + f) <= Scale(1_000_000_000, |f|)
  {
    FixedIsFormatted(neg, w, f);
    PriceRange(neg, Nat(w + f), |f|);
  }

  /** `_price` accepts exactly the fixed-notation numerals of at most 30 characters without
      superfluous leading zeros, with at most six decimal places, not below zero and at most 10^9.
      Trailing zeros and the sign of "-0" are free. */
  lemma PricesAreFixedPoint(s: string)
    ensures PriceOk(s)
       <==> exists neg: bool, w: string, f: string ::
              && s == Fixed(neg, w, f) && IsWhole(w) && AllDigits(f)
              && |s| <= 30 && |f| <= 6 && (neg ==> Nat(w + f) == 0)
              && Nat(w + f) <= Scale(1_000_000_000, |f|)
  {
    if PriceOk(s) {
      var d := Parse(s).value;
      FormatParts(d);
      FixedPriceOk(d.neg, Whole(d), Fraction(d));
    }
    if neg: bool, w: string, f: string :|
        && s == Fixed(neg, w, f) && IsWhole(w) && AllDigits(f)
        && |s| <= 30 && |f| <= 6 && (neg ==> Nat(w + f) == 0)
        && Nat(w + f) <= Scale(1_000_000_000, |f|)
    {
      FixedPriceOk(neg, w, f);
    }
  }

  /** An accepted price is an exact number of millionths between 0 and 10^15. */
  lemma PriceIsMillionths(s: string) returns (n: nat)
    requires PriceOk(s)
    ensures n <= 1_000_000_000_000_000 && Number(Parse(s).value) * 1_000_000.0 == n as real
  {
    var d := Parse(s).value;
    var w, f := Whole(d), Fraction(d);
    FormatParts(d);
    FixedPriceOk(d.neg, w, f);
    ParseFixed(d.neg, w, f);
    n := FixedMillionths(d);
  }

  lemma FixedMillionths(d: Dec) returns (n: nat)
    requires -6 <= d.exp <= 0 && (d.neg ==> d.coeff == 0) && d.coeff <= Scale(1_000_000_000, -d.exp)
    ensures n <= 1_000_000_000_000_000 && Number(d) * 1_000_000.0 == n as real
  {
    var k := -d.exp;
    n := Scale(d.coeff, 6 - k);
    ScaledNumber(d.neg, d.coeff, 6 - k, -6);
    SixPlaces(n as real);
    if d.coeff == 0 { ScaleOfZero(6 - k); }
    ScaleOrder(d.coeff, Scale(1_000_000_000, k), 6 - k);
    ScaleOfSum(1_000_000_000, k, 6 - k);
    assert Scale(1_000_000_000, 6) == 1_000_000_000_000_000 by {
      assert Scale(1_000_000_000, 3) == 1_000_000_000_000;
    }
  }

  lemma PriceOfOne()
    ensures PriceOk("1") && Number(Parse("1").value) == 1.0
  {
    assert Fixed(false, "1", "") == "1" && "1" + "" == "1";
    assert NatOf("1", 1) == 1;
    FixedPriceOk(false, "1", "");
    ParseFixed(false, "1", "");
  }

  lemma PriceOfOnePointZero()
    ensures PriceOk("1.0") && Number(Parse("1.0").value) == 1.0
  {
    assert Fixed(false, "1", "0") == "1.0" && "1" + "0" == "10";
    assert NatOf("10", 1) == 1;
    FixedPriceOk(false, "1", "0");
    ParseFixed(false, "1", "0");
    ScaledNumber(false, 1, 1, -1);
  }

  lemma PriceOfMinusZero()
    ensures PriceOk("-0")
  {
    assert Fixed(true, "0", "") == "-0" && "0" + "" == "0";
    assert NatOf("0", 1) == 0;
    FixedPriceOk(true, "0", "");
  }

  /** Unlike `decimal_value`, `_price` admits several spellings of one number, and minus zero. */
  lemma PricesAreNotUnique()
    ensures PriceOk("1") && PriceOk("1.0") && PriceOk("-0")
    ensures Number(Parse("1").value) == Number(Parse("1.0").value)
  {
    PriceOfOne();
    PriceOfOnePointZero();
    PriceOfMinusZero();
  }
}
