/** The calculator's number text: ftoa and print_float of dev/os/user/user_printf.c:101-199
    and atof of dev/os/user/atof.c, over exact real numbers. */
module NumberText {
  import opened Numerals

  // ---------------------------------------------------------------------------
  // What the two conversions mean
  // ---------------------------------------------------------------------------

  function Abs(f: real): (a: real)
    ensures a >= 0.0
  {
    if f < 0.0 then -f else f
  }

  function Power(n: nat): (p: real)
    ensures p >= 1.0 && p == Pow(10, n) as real
  {
    PowPositive(10, n);
    Pow(10, n) as real
  }

  // Products and quotients under names of their own, so that proofs can keep them whole.

  function Prod(x: real, y: real): (z: real)
    ensures y == 1.0 ==> z == x
  {
    x * y
  }

  function Quot(x: real, y: real): real
    requires y >= 1.0
  {
    x / y
  }

  /** v units of the n-th decimal. */
  function Units(v: int, n: nat): real {
    Quot(v as real, Power(n))
  }

  /** a in units of the p-th decimal, cut to an integer. */
  function CutUnits(a: real, p: nat): int {
    Prod(a, Power(p)).Floor
  }

  /** a cut off after p decimals. */
  function Cut(a: real, p: nat): real {
    Units(CutUnits(a, p), p)
  }

  /** The first p decimals of x, 0 <= x < 1. */
  function FracDigits(x: real, p: nat): (s: string)
    requires 0.0 <= x < 1.0
    ensures |s| == p
    decreases p
  {
    if p == 0 then "" else
      var d := (x * 10.0).Floor;
      [Digit(d)] + FracDigits(x * 10.0 - d as real, p - 1)
  }

  /** The text of f with p decimals (none when p <= 0). */
  function FloatText(f: real, p: int): string {
    var a := Abs(f);
    (if f < 0.0 then "-" else "") + Decimal(a.Floor)
    + (if p > 0 then "." + FracDigits(a - a.Floor as real, p) else "")
  }

  predicate IsDigit(c: char) {
    '0' <= c <= '9'
  }

  predicate IsBlank(c: char) {
    c == ' ' || c == '\t'
  }

  /** The character at position i of a NUL-terminated string. */
  function At(s: string, i: nat): char {
    if i < |s| then s[i] else '\0'
  }

  /** Where a run of blanks, or of digits, that starts at i ends. */
  function BlanksEnd(s: string, i: nat): (j: nat)
    requires i <= |s|
    ensures i <= j <= |s|
    decreases |s| - i
  {
    if IsBlank(At(s, i)) then BlanksEnd(s, i + 1) else i
  }

  function DigitsEnd(s: string, i: nat): (j: nat)
    requires i <= |s|
    ensures i <= j <= |s|
    decreases |s| - i
  {
    if IsDigit(At(s, i)) then DigitsEnd(s, i + 1) else i
  }

  function SignEnd(s: string, i: nat): (j: nat)
    requires i <= |s|
    ensures i <= j <= |s|
  {
    if At(s, i) == '-' || At(s, i) == '+' then i + 1 else i
  }

  /** Value of the digits s[i..j]. */
  function Whole(s: string, i: nat, j: nat): nat
    requires i <= j <= |s|
  {
    ValueOf(s[i..j], 10)
  }

  /** The exponent factor written from position i on: 1 when there is none. */
  function ExponentAt(s: string, i: nat): real
    requires i <= |s|
  {
    if At(s, i) != 'e' && At(s, i) != 'E' then 1.0 else
      var d := SignEnd(s, i + 1);
      var n := Whole(s, d, DigitsEnd(s, d));
      if At(s, i + 1) == '-' then Quot(1.0, Power(n)) else Power(n)
  }

  /** Where the fraction, if any, ends. */
  function FracEnd(s: string, i: nat): (j: nat)
    requires i <= |s|
    ensures i <= j <= |s|
  {
    if At(s, i) == '.' then DigitsEnd(s, i + 1) else i
  }

  /** The fraction written from position i on. */
  function FracAt(s: string, i: nat): real
    requires i <= |s|
  {
    if At(s, i) == '.' then
      var j := DigitsEnd(s, i + 1);
      Units(Whole(s, i + 1, j), j - (i + 1))
    else 0.0
  }

  /** The number a text spells: [blanks] [sign] digits [. digits] [e [sign] digits]. */
  function NumberOf(s: string): real {
    var i := BlanksEnd(s, 0);
    var d := SignEnd(s, i);
    var k := DigitsEnd(s, d);
    var m := Prod(Whole(s, d, k) as real + FracAt(s, k), ExponentAt(s, FracEnd(s, k)));
    if At(s, i) == '-' then -m else m
  }

  /** f cut off after p decimals, towards zero. */
  function Truncated(f: real, p: nat): real {
    if f < 0.0 then -Cut(Abs(f), p) else Cut(Abs(f), p)
  }

  // ---------------------------------------------------------------------------
  // The round trip
  // ---------------------------------------------------------------------------

  lemma FloorOfSum(n: int, x: real)
    ensures (n as real + x).Floor == n + x.Floor
  {
  }

  lemma {:induction false} ValueOfPrepend(d: char, s: string)
    ensures ValueOf([d] + s, 10) == DigitValue(d) * Pow(10, |s|) + ValueOf(s, 10)
  {
    hide DigitValue;
    if s == "" {
      assert ([d] + s)[..0] == "";
      assert ValueOf([d], 10) == ValueOf("", 10) * 10 + DigitValue(d);
    } else {
      var n := |s|;
      ValueOfPrepend(d, s[..n - 1]);
      assert ([d] + s)[..n] == [d] + s[..n - 1];
      ShiftLeft(DigitValue(d), Pow(10, n - 1), ValueOf(s[..n - 1], 10), DigitValue(s[n - 1]));
    }
  }

  lemma ShiftLeft(a: int, q: int, b: int, c: int)
    ensures (a * q + b) * 10 + c == a * (10 * q) + (b * 10 + c)
  {
  }

  /** The first p decimals of x spell x * 10^p, cut to an integer. */
  lemma {:induction false} FracDigitsMean(x: real, p: nat)
    requires 0.0 <= x < 1.0
    ensures ValueOf(FracDigits(x, p), 10) == CutUnits(x, p)
    decreases p
  {
    hide Digit, DigitValue, CutUnits;
    if p == 0 {
      NoDecimals(x);
    } else {
      hide ValueOf;
      var d := (x * 10.0).Floor;
      var y := x * 10.0 - d as real;
      FracDigitsMean(y, p - 1);
      DigitReadsBack(d);
      ValueOfPrepend(Digit(d), FracDigits(y, p - 1));
      ShiftIn(x, d, y, p);
    }
  }

  lemma NoDecimals(x: real)
    requires 0.0 <= x < 1.0
    ensures CutUnits(x, 0) == 0
  {
    assert Power(0) == 1.0;
  }

  /** Ten times x is d + y: the scaled value splits at the digit d. */
  lemma ShiftIn(x: real, d: nat, y: real, p: nat)
    requires x * 10.0 == d as real + y && p > 0
    ensures CutUnits(x, p) == d * Pow(10, p - 1) + CutUnits(y, p - 1)
  {
    var q := Pow(10, p - 1);
    assert Power(p) == (10 * q) as real && Power(p - 1) == q as real;
    hide Pow, Power, Prod;
    SplitDigit(x, d, y, q);
  }

  lemma SplitDigit(x: real, d: nat, y: real, q: nat)
    requires x * 10.0 == d as real + y
    ensures Prod(x, (10 * q) as real).Floor == d * q + Prod(y, q as real).Floor
  {
    CastMul(10, q);
    CastMul(d, q);
    var z := q as real;
    Spread(d as real, y, z);
    assert x * (10.0 * z) == (x * 10.0) * z;
    FloorOfSum(d * q, y * z);
  }

  lemma CastMul(n: int, w: int)
    ensures (n * w) as real == n as real * w as real
  {
  }

  lemma Spread(n: real, x: real, w: real)
    ensures (n + x) * w == n * w + x * w
  {
  }

  lemma DivideSum(n: real, b: real, w: real)
    requires w > 0.0
    ensures (n * w + b) / w == n + b / w
  {
  }

  lemma {:induction false} DecimalIsDigits(n: nat)
    ensures forall k :: 0 <= k < |Decimal(n)| ==> IsDigit(Decimal(n)[k])
  {
    if n >= 10 {
      DecimalIsDigits(n / 10);
    }
  }

  lemma {:induction false} FracIsDigits(x: real, p: nat)
    requires 0.0 <= x < 1.0
    ensures forall k :: 0 <= k < p ==> IsDigit(FracDigits(x, p)[k])
    decreases p
  {
    if p > 0 {
      FracIsDigits(x * 10.0 - (x * 10.0).Floor as real, p - 1);
    }
  }

  lemma {:induction false} DigitsRun(s: string, i: nat, n: nat)
    requires i + n <= |s| && !IsDigit(At(s, i + n))
    requires forall k :: i <= k < i + n ==> IsDigit(s[k])
    ensures DigitsEnd(s, i) == i + n
    decreases n
  {
    if n > 0 {
      DigitsRun(s, i + 1, n - 1);
    }
  }

  /** Reading a text of the shape ftoa writes. */
  lemma ReadsShape(neg: bool, whole: string, point: bool, frac: string)
    requires whole != "" && forall k :: 0 <= k < |whole| ==> IsDigit(whole[k])
    requires forall k :: 0 <= k < |frac| ==> IsDigit(frac[k])
    requires !point ==> frac == ""
    ensures var s := (if neg then "-" else "") + whole + (if point then "." + frac else "");
            var m := ValueOf(whole, 10) as real + Units(ValueOf(frac, 10), |frac|);
            NumberOf(s) == if neg then -m else m
  {
    hide Units, Prod, Power, ValueOf;
    var s := (if neg then "-" else "") + whole + (if point then "." + frac else "");
    var d := if neg then 1 else 0;
    var k := d + |whole|;
    assert BlanksEnd(s, 0) == 0 && SignEnd(s, 0) == d;
    assert s[k..] == (if point then "." + frac else "");
    ReadsFraction(s, k, point, frac);
    DigitsRun(s, d, |whole|);
    assert s[d..k] == whole;
  }

  lemma OnePlace()
    ensures Units(ValueOf("", 10), 0) == 0.0
  {
  }

  lemma ReadsFraction(s: string, k: nat, point: bool, frac: string)
    requires k <= |s| && s[k..] == (if point then "." + frac else "")
    requires forall i :: 0 <= i < |frac| ==> IsDigit(frac[i])
    requires !point ==> frac == ""
    ensures FracAt(s, k) == Units(ValueOf(frac, 10), |frac|)
    ensures ExponentAt(s, FracEnd(s, k)) == 1.0
    ensures !IsDigit(At(s, k))
  {
    hide Units, Prod, Power, ValueOf, DigitsEnd, SignEnd;
    OnePlace();
    if point {
      AfterPoint(s, k, frac);
    }
  }

  lemma AfterPoint(s: string, k: nat, frac: string)
    requires k < |s| && s[k..] == "." + frac
    requires forall i :: 0 <= i < |frac| ==> IsDigit(frac[i])
    ensures s[k] == '.' && DigitsEnd(s, k + 1) == |s| == k + 1 + |frac| && s[k + 1..|s|] == frac
  {
    hide IsDigit;
    assert s[k] == s[k..][0];
    assert s[k + 1..|s|] == s[k..][1..];
    forall i | k + 1 <= i < |s|
      ensures IsDigit(s[i])
    {
      assert s[i] == s[k + 1..|s|][i - (k + 1)];
    }
    NulIsNoDigit();
    DigitsRun(s, k + 1, |frac|);
  }

  // ---------------------------------------------------------------------------
  // Signs and exponents
  // ---------------------------------------------------------------------------

  lemma {:induction false} DigitsEndAppend(a: string, b: string, i: nat)
    requires i <= |b|
    ensures DigitsEnd(a + b, |a| + i) == |a| + DigitsEnd(b, i)
    decreases |b| - i
  {
    assert At(a + b, |a| + i) == At(b, i);
    if IsDigit(At(b, i)) {
      DigitsEndAppend(a, b, i + 1);
    }
  }

  lemma WholeAppend(a: string, b: string, i: nat, j: nat)
    requires i <= j <= |b|
    ensures Whole(a + b, |a| + i, |a| + j) == Whole(b, i, j)
  {
    assert (a + b)[|a| + i..|a| + j] == b[i..j];
  }

  /** Exponent and fraction depend on nothing before them. */
  lemma ExponentAppend(a: string, b: string, i: nat)
    requires i <= |b|
    ensures ExponentAt(a + b, |a| + i) == ExponentAt(b, i)
  {
    hide Power, Quot, DigitsEnd, Whole;
    assert At(a + b, |a| + i) == At(b, i) && At(a + b, |a| + i + 1) == At(b, i + 1);
    if At(b, i) == 'e' || At(b, i) == 'E' {
      var d := SignEnd(b, i + 1);
      assert SignEnd(a + b, |a| + i + 1) == |a| + d;
      DigitsEndAppend(a, b, d);
      WholeAppend(a, b, d, DigitsEnd(b, d));
    }
  }

  lemma FracAppend(a: string, b: string, i: nat)
    requires i <= |b|
    ensures FracEnd(a + b, |a| + i) == |a| + FracEnd(b, i) && FracAt(a + b, |a| + i) == FracAt(b, i)
  {
    hide Units, DigitsEnd, Whole;
    assert At(a + b, |a| + i) == At(b, i);
    if At(b, i) == '.' {
      DigitsEndAppend(a, b, i + 1);
      WholeAppend(a, b, i + 1, DigitsEnd(b, i + 1));
    }
  }

  /** A text without blanks or a sign in front. */
  predicate Unsigned(s: string) {
    s == "" || s[0] !in {' ', '\t', '+', '-'}
  }

  /** A plus in front of a text without a sign changes nothing, a minus negates. */
  lemma SignInFront(s: string)
    requires Unsigned(s)
    ensures NumberOf("+" + s) == NumberOf(s)
    ensures NumberOf("-" + s) == -NumberOf(s)
  {
    hide Prod, ExponentAt, FracAt, FracEnd, Whole, DigitsEnd;
    var k := DigitsEnd(s, 0);
    forall c | c in {"+", "-"}
      ensures NumberOf(c + s) == if c == "-" then -NumberOf(s) else NumberOf(s)
    {
      assert BlanksEnd(c + s, 0) == 0 && SignEnd(c + s, 0) == 1 && BlanksEnd(s, 0) == 0 && SignEnd(s, 0) == 0;
      DigitsEndAppend(c, s, 0);
      WholeAppend(c, s, 0, k);
      FracAppend(c, s, k);
      ExponentAppend(c, s, FracEnd(s, k));
    }
  }

  ghost predicate AllDigits(s: string) {
    forall k :: 0 <= k < |s| ==> IsDigit(s[k])
  }

  /** digits [. digits] [e [sign] digits], each run possibly empty. */
  lemma ReadsUnsigned(whole: string, point: bool, frac: string, tail: string)
    requires AllDigits(whole) && AllDigits(frac) && (!point ==> frac == "")
    requires tail == "" || tail[0] in {'e', 'E'}
    ensures var s := whole + ((if point then "." + frac else "") + tail);
            Unsigned(s)
            && NumberOf(s) == Prod(ValueOf(whole, 10) as real + Units(ValueOf(frac, 10), |frac|), ExponentAt(tail, 0))
  {
    hide NumberOf, ExponentAt, FracAt, FracEnd, ValueOf, Units, Prod, AllDigits;
    var rest := (if point then "." + frac else "") + tail;
    TailStarts(point, frac, tail);
    ReadsTail(point, frac, tail);
    ReadsParts(whole, rest);
  }

  lemma TailStarts(point: bool, frac: string, tail: string)
    requires tail == "" || tail[0] in {'e', 'E'}
    requires !point ==> frac == ""
    ensures var rest := (if point then "." + frac else "") + tail; rest == "" || (!IsDigit(rest[0]) && Unsigned(rest))
  {
  }

  lemma ReadsParts(whole: string, rest: string)
    requires AllDigits(whole) && (rest == "" || (!IsDigit(rest[0]) && Unsigned(rest)))
    ensures Unsigned(whole + rest)
    ensures NumberOf(whole + rest) == Prod(ValueOf(whole, 10) as real + FracAt(rest, 0), ExponentAt(rest, FracEnd(rest, 0)))
  {
    hide Units, Prod, ValueOf, ExponentAt, FracAt, FracEnd, DigitsEnd, AllDigits, BlanksEnd, SignEnd;
    WholeRun(whole, rest);
    FracAppend(whole, rest, 0);
    ExponentAppend(whole, rest, FracEnd(rest, 0));
    assert At(whole + rest, 0) != '-';
  }

  lemma WholeRun(whole: string, rest: string)
    requires AllDigits(whole) && (rest == "" || (!IsDigit(rest[0]) && Unsigned(rest)))
    ensures var s := whole + rest;
            && Unsigned(s) && BlanksEnd(s, 0) == 0 && SignEnd(s, 0) == 0 && DigitsEnd(s, 0) == |whole|
            && Whole(s, 0, |whole|) == ValueOf(whole, 10)
  {
    var s := whole + rest;
    assert At(s, |whole|) == At(rest, 0) && forall k :: 0 <= k < |whole| ==> s[k] == whole[k];
    NulIsNoDigit();
    DigitsRun(s, 0, |whole|);
    assert s[0..|whole|] == whole;
  }

  lemma ReadsTail(point: bool, frac: string, tail: string)
    requires AllDigits(frac) && (!point ==> frac == "")
    requires tail == "" || tail[0] in {'e', 'E'}
    ensures var rest := (if point then "." + frac else "") + tail;
            FracAt(rest, 0) == Units(ValueOf(frac, 10), |frac|) && ExponentAt(rest, FracEnd(rest, 0)) == ExponentAt(tail, 0)
  {
    hide Units, ValueOf, ExponentAt;
    var rest := (if point then "." + frac else "") + tail;
    OnePlace();
    if point {
      var n := 1 + |frac|;
      assert At(rest, n) == At(tail, 0) && forall k :: 1 <= k < n ==> rest[k] == frac[k - 1];
      DigitsRun(rest, 1, |frac|);
      assert rest[1..n] == frac;
      ExponentAppend("." + frac, tail, 0);
    } else {
      assert rest == tail;
    }
  }

  lemma ExponentReads(e: char, sign: string, n: nat)
    requires e in {'e', 'E'} && sign in {"", "+", "-"}
    ensures ExponentAt([e] + sign + Decimal(n), 0) == if sign == "-" then Quot(1.0, Power(n)) else Power(n)
  {
    hide Power, Quot, ValueOf, Decimal, DigitsEnd;
    DecimalIsDigits(n);
    DecimalReadsBack(n);
    DigitsAfter([e] + sign, Decimal(n));
    var s := [e] + sign + Decimal(n);
    assert s[1] == (sign + Decimal(n))[0];
  }

  lemma DigitsAfter(a: string, digits: string)
    requires AllDigits(digits)
    ensures var s := a + digits; DigitsEnd(s, |a|) == |s| && Whole(s, |a|, |s|) == ValueOf(digits, 10)
  {
    hide ValueOf;
    var s := a + digits;
    assert forall k :: |a| <= k < |s| ==> s[k] == digits[k - |a|];
    NulIsNoDigit();
    DigitsRun(s, |a|, |digits|);
    assert s[|a|..|s|] == digits;
  }

  /** v * 10^n or v / 10^n. */
  ghost function ScaledBy(v: real, esign: string, n: nat): real {
    if esign == "-" then v / Power(n) else v * Power(n)
  }

  /** What a numeral in scientific notation means, for every sign, digit run and exponent. */
  lemma ReadsScientific(sign: string, whole: string, point: bool, frac: string, e: char, esign: string, n: nat)
    requires sign in {"", "+", "-"} && e in {'e', 'E'} && esign in {"", "+", "-"}
    requires AllDigits(whole) && AllDigits(frac) && (!point ==> frac == "")
    ensures var s := whole + ((if point then "." + frac else "") + ([e] + esign + Decimal(n)));
            var v := ScaledBy(ValueOf(whole, 10) as real + ValueOf(frac, 10) as real / Power(|frac|), esign, n);
            NumberOf(sign + s) == if sign == "-" then -v else v
  {
    hide NumberOf, ExponentAt, ValueOf, Decimal, AllDigits, Power, Unsigned, Units, Prod, Quot, ScaledBy;
    var tail := [e] + esign + Decimal(n);
    var s := whole + ((if point then "." + frac else "") + tail);
    assert tail[0] == e;
    ReadsUnsigned(whole, point, frac, tail);
    ExponentReads(e, esign, n);
    SignInFront(s);
    assert "" + s == s;
    UnitsIs(ValueOf(frac, 10), |frac|);
    Scaled(ValueOf(whole, 10) as real + Units(ValueOf(frac, 10), |frac|), esign, n);
  }

  lemma UnitsIs(v: int, n: nat)
    ensures Units(v, n) == v as real / Power(n)
  {
  }

  lemma Scaled(x: real, esign: string, n: nat)
    ensures Prod(x, if esign == "-" then Quot(1.0, Power(n)) else Power(n)) == ScaledBy(x, esign, n)
  {
    assert x * (1.0 / Power(n)) == x / Power(n);
  }

  lemma NulIsNoDigit()
    ensures !IsDigit('\0')
  {
  }

  /** atof undoes ftoa up to the decimals it writes. */
  lemma RoundTrip(f: real, p: int)
    ensures NumberOf(FloatText(f, p)) == Truncated(f, if p > 0 then p else 0)
  {
    hide NumberOf, FracDigits, Decimal, ValueOf, Cut, Power;
    var a := Abs(f);
    var n, x := a.Floor, a - a.Floor as real;
    var q: nat := if p > 0 then p else 0;
    var frac := FracDigits(x, q);
    DecimalIsDigits(n);
    FracIsDigits(x, q);
    CutOfParts(n, x, q);
    ReadsShape(f < 0.0, Decimal(n), p > 0, frac);
  }

  lemma CutOfParts(n: nat, x: real, q: nat)
    requires 0.0 <= x < 1.0
    ensures ValueOf(Decimal(n), 10) as real + Units(ValueOf(FracDigits(x, q), 10), q) == Cut(n as real + x, q)
  {
    hide Decimal, FracDigits, ValueOf, CutUnits, Units;
    DecimalReadsBack(n);
    FracDigitsMean(x, q);
    CutOfSum(n, x, q);
  }

  lemma CutOfSum(n: nat, x: real, q: nat)
    ensures Cut(n as real + x, q) == n as real + Cut(x, q)
  {
    hide Power, Prod, Quot;
    ScaledFloor(n, x, Pow(10, q), Power(q));
  }

  lemma ScaledFloor(n: nat, x: real, k: nat, w: real)
    requires w >= 1.0 && w == k as real
    ensures Quot(Prod(n as real + x, w).Floor as real, w) == n as real + Quot(Prod(x, w).Floor as real, w)
  {
    hide Prod, Quot;
    ProdOfSum(n as real, x, w);
    ProdOfInts(n, k);
    FloorOfSum(n * k, Prod(x, w));
    QuotOfSum(n as real, Prod(x, w).Floor as real, w);
  }

  lemma ProdOfSum(n: real, x: real, w: real)
    ensures Prod(n + x, w) == Prod(n, w) + Prod(x, w)
  {
    Spread(n, x, w);
  }

  lemma ProdOfInts(n: int, k: int)
    ensures Prod(n as real, k as real) == (n * k) as real
  {
    CastMul(n, k);
  }

  lemma QuotOfSum(n: real, b: real, w: real)
    requires w >= 1.0
    ensures Quot(Prod(n, w) + b, w) == n + Quot(b, w)
  {
    DivideSum(n, b, w);
  }

  /** Cutting off loses less than one unit of the last decimal and never grows. */
  lemma TruncatedIsClose(f: real, p: nat)
    ensures Abs(Truncated(f, p)) <= Abs(f)
    ensures Abs(f - Truncated(f, p)) < Quot(1.0, Power(p))
    ensures f < 0.0 ==> Truncated(f, p) <= 0.0
    ensures f >= 0.0 ==> Truncated(f, p) >= 0.0
  {
    hide Cut, Power, Quot;
    CutBounds(Abs(f), p);
  }

  lemma CutBounds(a: real, p: nat)
    requires a >= 0.0
    ensures 0.0 <= Cut(a, p) <= a < Cut(a, p) + Quot(1.0, Power(p))
  {
    hide Power, Prod, Quot;
    CutIsClose(a, Power(p));
  }

  lemma CutIsClose(a: real, w: real)
    requires a >= 0.0 && w >= 1.0
    ensures var t := Quot(Prod(a, w).Floor as real, w); 0.0 <= t <= a < t + Quot(1.0, w)
  {
    var y := a * w;
    var t := y.Floor as real;
    MulNonNegative(a, w);
    assert y / w == a;
    Quotients(t, y, w);
    Quotients(y, t + 1.0, w);
    SplitQuotient(t, 1.0, w);
  }

  lemma MulNonNegative(a: real, w: real)
    requires a >= 0.0 && w >= 0.0
    ensures a * w >= 0.0
  {
  }

  lemma SplitQuotient(x: real, y: real, w: real)
    requires w > 0.0
    ensures (x + y) / w == x / w + y / w
  {
  }

  lemma Quotients(x: real, y: real, w: real)
    requires w > 0.0
    ensures x <= y ==> x / w <= y / w
    ensures x < y ==> x / w < y / w
    ensures x >= 0.0 ==> x / w >= 0.0
  {
  }

  // ---------------------------------------------------------------------------
  // ftoa
  // ---------------------------------------------------------------------------

  function Reversed(s: string): (r: string)
    ensures |r| == |s|
  {
    if s == "" then "" else [s[|s| - 1]] + Reversed(s[..|s| - 1])
  }

  lemma {:induction false} ReversedAt(s: string, k: nat)
    requires k < |s|
    ensures Reversed(s)[k] == s[|s| - 1 - k]
  {
    if k > 0 {
      ReversedAt(s[..|s| - 1], k - 1);
    }
  }

  /** Digits least significant first. */
  function LowFirst(s: string): nat {
    if s == "" then 0 else LowFirst(s[..|s| - 1]) + DigitValue(s[|s| - 1]) * Pow(10, |s| - 1)
  }

  lemma {:induction false} LowFirstIsReversed(s: string)
    ensures LowFirst(s) == ValueOf(Reversed(s), 10)
  {
    hide DigitValue;
    if s != "" {
      LowFirstIsReversed(s[..|s| - 1]);
      ValueOfPrepend(s[|s| - 1], Reversed(s[..|s| - 1]));
    }
  }

  lemma TenthFloor(x: real)
    requires x >= 0.0
    ensures (x / 10.0).Floor == x.Floor / 10
  {
  }

  /** The loop of ftoa that peels integer digits off by repeated division by ten, least
      significant digit first. Its safety break never fires. */
  method IntDigits(f: real, intBuf: array<char>) returns (intLen: nat)
    requires 1.0 <= f < 2147483648.0 && intBuf.Length == 12
    modifies intBuf
    ensures intLen < 11 && Reversed(intBuf[..intLen]) == Decimal(f.Floor)
  {
    hide Decimal, Digit, Pow;
    var fi := f;
    intLen := 0;
    TenDigits();
    ZeroUnprinted(f.Floor);
    while fi >= 1.0
      invariant 0.0 <= fi < 2147483648.0 && 0 <= intLen <= 10 && fi.Floor < Pow(10, 10 - intLen)
      invariant Decimal(f.Floor) == Unprinted(fi.Floor) + Reversed(intBuf[..intLen])
      decreases fi.Floor
    {
      PeelDigit(fi.Floor, 10 - intLen);
      TenthFloor(fi);
      var digit := fi.Floor % 10;
      ghost var n, was := fi.Floor, intBuf[..intLen];
      intBuf[intLen] := '0' + digit as char;
      assert intBuf[..intLen + 1][..intLen] == was && intBuf[intLen] == Digit(digit);
      assert Unprinted(n) + Reversed(was) == Unprinted(n / 10) + ([Digit(digit)] + Reversed(was));
      intLen := intLen + 1;
      fi := fi / 10.0;
      if intLen >= 11 {
        break;
      }
    }
  }

  lemma ZeroUnprinted(n: nat)
    requires n > 0
    ensures Unprinted(0) == "" && Unprinted(n) == Decimal(n) && Reversed("") == ""
    ensures Unprinted(n) + "" == Unprinted(n)
  {
  }

  /** Copy the digits to the output, most significant first. */
  method PutReversed(intBuf: array<char>, intLen: nat, buf: array<char>, start: nat) returns (pos: nat)
    requires intLen <= intBuf.Length && start + intLen < buf.Length && buf != intBuf
    modifies buf
    ensures pos == start + intLen && buf[..pos] == old(buf[..start]) + Reversed(intBuf[..intLen])
  {
    ghost var all := Reversed(intBuf[..intLen]);
    pos := start;
    var i := intLen - 1;
    while i >= 0
      invariant -1 <= i < intLen && pos == start + (intLen - 1 - i)
      invariant intBuf[..intLen] == old(intBuf[..intLen])
      invariant buf[..pos] == old(buf[..start]) + all[..pos - start]
    {
      ReversedAt(intBuf[..intLen], pos - start);
      buf[pos] := intBuf[i];
      assert buf[..pos + 1] == buf[..pos] + [all[pos - start]];
      pos := pos + 1;
      i := i - 1;
    }
  }

  /** The integer part, put together again from its digits. */
  method IntValue(intBuf: array<char>, intLen: nat) returns (v: real)
    requires intLen <= intBuf.Length && forall k :: 0 <= k < intLen ==> IsDigit(intBuf[k])
    ensures v == ValueOf(Reversed(intBuf[..intLen]), 10) as real
  {
    v := 0.0;
    var place := 1.0;
    ZeroPlaces();
    for i := 0 to intLen
      invariant place == Power(i) && v == LowFirst(intBuf[..i]) as real
    {
      hide Power, Pow, DigitValue;
      NextPlace(i, DigitValue(intBuf[i]));
      assert intBuf[..i + 1][..i] == intBuf[..i];
      v := v + DigitValue(intBuf[i]) as real * place;
      place := place * 10.0;
    }
    LowFirstIsReversed(intBuf[..intLen]);
  }

  lemma ZeroPlaces()
    ensures Power(0) == 1.0 && LowFirst("") == 0
  {
  }

  lemma NextPlace(i: nat, d: int)
    ensures Power(i) * 10.0 == Power(i + 1)
    ensures d as real * Power(i) == (d * Pow(10, i)) as real
  {
    CastMul(d, Pow(10, i));
    assert Pow(10, i + 1) == 10 * Pow(10, i);
  }

  /** The loop of ftoa that writes the decimals. The clamps to 0..9 never fire. */
  method PutFraction(x: real, buf: array<char>, start: nat, precision: nat) returns (pos: nat)
    requires 0.0 <= x < 1.0 && start + precision < buf.Length
    modifies buf
    ensures pos == start + precision && buf[..pos] == old(buf[..start]) + FracDigits(x, precision)
  {
    hide Digit;
    var frac := x;
    pos := start;
    assert old(buf[..start]) + FracDigits(x, precision) == buf[..pos] + FracDigits(frac, precision);
    for i := 0 to precision
      invariant 0.0 <= frac < 1.0 && pos == start + i
      invariant old(buf[..start]) + FracDigits(x, precision) == buf[..pos] + FracDigits(frac, precision - i)
    {
      frac := frac * 10.0;
      var digit := frac.Floor;
      assert 0 <= digit <= 9;
      if digit > 9 {
        digit := 9;
      }
      if digit < 0 {
        digit := 0;
      }
      ghost var was := buf[..pos];
      buf[pos] := '0' + digit as char;
      assert buf[..pos + 1] == was + [Digit(digit)];
      pos := pos + 1;
      frac := frac - digit as real;
    }
  }

  /** The integer part of ftoa: a zero, or the digits of the integer. */
  method PutInteger(a: real, buf: array<char>, start: nat) returns (pos: nat, intVal: real)
    requires 0.0 <= a < 2147483648.0 && start + |Decimal(a.Floor)| < buf.Length
    modifies buf
    ensures pos == start + |Decimal(a.Floor)| && buf[..pos] == old(buf[..start]) + Decimal(a.Floor)
    ensures intVal == a.Floor as real
  {
    hide Decimal;
    DecimalOfSmall();
    var intBuf := new char[12];
    if a >= 1.0 {
      var intLen := IntDigits(a, intBuf);
      pos := PutReversed(intBuf, intLen, buf, start);
      DecimalReadsBack(a.Floor);
      ReversedDigits(intBuf[..intLen], a.Floor);
      intVal := IntValue(intBuf, intLen);
    } else {
      buf[start] := '0';
      pos := start + 1;
      intVal := 0.0;
    }
  }

  /** ftoa for finite values within the range of int. */
  method Ftoa(f: real, buf: array<char>, precision: int) returns (pos: nat)
    requires -2147483648.0 < f < 2147483648.0
    requires |FloatText(f, precision)| < buf.Length
    modifies buf
    ensures pos == |FloatText(f, precision)| && buf[..pos] == FloatText(f, precision) && buf[pos] == '\0'
  {
    hide Decimal, FracDigits;
    var a := f;
    pos := 0;
    if a < 0.0 {
      buf[pos] := '-';
      pos := pos + 1;
      a := -a;
    }
    ghost var sign := if f < 0.0 then "-" else "";
    assert buf[..pos] == sign;
    if a == 0.0 {
      pos := PutZeroText(buf, precision);
      return;
    }
    var intVal;
    pos, intVal := PutInteger(a, buf, pos);
    if precision > 0 {
      buf[pos] := '.';
      pos := pos + 1;
      assert buf[..pos] == sign + Decimal(a.Floor) + ".";
      pos := PutFraction(a - intVal, buf, pos, precision);
    }
    buf[pos] := '\0';
  }

  /** The text of zero. */
  method PutZeroText(buf: array<char>, precision: int) returns (pos: nat)
    requires |FloatText(0.0, precision)| < buf.Length
    modifies buf
    ensures pos == |FloatText(0.0, precision)| && buf[..pos] == FloatText(0.0, precision) && buf[pos] == '\0'
  {
    hide Decimal, FracDigits;
    DecimalOfSmall();
    buf[0] := '0';
    pos := 1;
    assert buf[..pos] == "0";
    if precision > 0 {
      buf[pos] := '.';
      pos := pos + 1;
      assert buf[..pos] == "0.";
      PutZeros(buf, pos, precision);
      pos := pos + precision;
    }
    buf[pos] := '\0';
  }

  method PutZeros(buf: array<char>, start: nat, n: nat)
    requires start + n < buf.Length
    modifies buf
    ensures buf[..start + n] == old(buf[..start]) + FracDigits(0.0, n)
  {
    hide FracDigits;
    for i := 0 to n
      invariant buf[..start + i] == old(buf[..start]) + Zeros(i)
    {
      buf[start + i] := '0';
      assert buf[..start + i + 1] == buf[..start + i] + ['0'];
    }
    ZeroDecimals(n);
  }

  function Zeros(n: nat): string {
    seq(n, _ => '0')
  }

  lemma DecimalOfSmall()
    ensures Decimal(0) == "0"
  {
  }

  lemma {:induction false} ZeroDecimals(p: nat)
    ensures FracDigits(0.0, p) == Zeros(p)
  {
    if p > 0 {
      ZeroDecimals(p - 1);
      assert (0.0 * 10.0).Floor == 0;
    }
  }

  lemma ReversedDigits(s: string, n: nat)
    requires Reversed(s) == Decimal(n)
    ensures forall k :: 0 <= k < |s| ==> IsDigit(s[k])
  {
    hide Decimal, IsDigit, Reversed;
    DecimalIsDigits(n);
    forall k | 0 <= k < |s|
      ensures IsDigit(s[k])
    {
      var j := |s| - 1 - k;
      ReversedAt(s, j);
      assert Decimal(n)[j] == s[k];
    }
  }

  // ---------------------------------------------------------------------------
  // print_float's buffer
  // ---------------------------------------------------------------------------

  const PRINT_BUF := 16

  lemma {:induction false} DecimalLength(n: nat, width: nat)
    requires width > 0
    ensures |Decimal(n)| <= width <==> n < Pow(10, width)
  {
    if n >= 10 && width > 1 {
      DecimalLength(n / 10, width - 1);
    } else if n >= 10 {
      assert Decimal(n / 10) != "";
    } else {
      PowPositive(10, width - 1);
    }
  }

  /** With six decimals the text and its NUL fit print_float's 16 bytes exactly when the
      integer part has at most seven digits, or eight without a sign. */
  lemma PrintFits(f: real)
    ensures |FloatText(f, 6)| + 1 <= PRINT_BUF <==> -10_000_000.0 < f < 100_000_000.0
  {
    hide Decimal, FracDigits, Pow;
    DecimalLength(Abs(f).Floor, 7);
    DecimalLength(Abs(f).Floor, 8);
    SevenAndEight();
  }

  lemma SevenAndEight()
    ensures Pow(10, 7) == 10_000_000 && Pow(10, 8) == 100_000_000
  {
    assert Pow(10, 4) == 10_000;
  }

  /** print_float: what user_puts sends. */
  method PrintFloat(f: real, precision: int) returns (sent: string)
    requires -2147483648.0 < f < 2147483648.0 && |FloatText(f, precision)| + 1 <= PRINT_BUF
    ensures sent == FloatText(f, precision)
  {
    var buf := new char[PRINT_BUF];
    var pos := Ftoa(f, buf, precision);
    sent := buf[..pos];
  }

  // ---------------------------------------------------------------------------
  // atof
  // ---------------------------------------------------------------------------

  lemma WholeGrows(s: string, i: nat, j: nat)
    requires i <= j < |s|
    ensures Whole(s, i, j + 1) == Whole(s, i, j) * 10 + DigitValue(s[j])
  {
    assert s[i..j + 1][..j - i] == s[i..j];
  }

  lemma WholeStarts(s: string, i: nat)
    requires i <= |s|
    ensures Whole(s, i, i) == 0
  {
  }

  lemma TenthOfUnit(n: nat)
    ensures Quot(1.0, Power(n)) * 0.1 == Quot(1.0, Power(n + 1))
    ensures Quot(1.0, Power(0)) == 1.0 && Units(0, 0) == 0.0
  {
    assert Pow(10, n + 1) == 10 * Pow(10, n);
    var w := Power(n);
    assert Power(n + 1) == 10.0 * w;
    TenthOf(w);
  }

  lemma TenthOf(w: real)
    requires w >= 1.0
    ensures Quot(1.0, w) * 0.1 == Quot(1.0, 10.0 * w)
  {
  }

  /** One more decimal adds its digit in its own unit. */
  lemma UnitsGrow(v: int, d: int, n: nat)
    ensures Units(v * 10 + d, n + 1) == Units(v, n) + d as real * Quot(1.0, Power(n + 1))
  {
    assert Pow(10, n + 1) == 10 * Pow(10, n);
    var w := Power(n);
    assert Power(n + 1) == 10.0 * w;
    NextUnit(v, d, w);
  }

  lemma NextUnit(v: int, d: int, w: real)
    requires w >= 1.0
    ensures Quot((v * 10 + d) as real, 10.0 * w) == Quot(v as real, w) + d as real * Quot(1.0, 10.0 * w)
  {
    var x, y := v as real, d as real;
    assert (v * 10 + d) as real == x * 10.0 + y;
    var q := 1.0 / (10.0 * w);
    assert (x * 10.0 + y) / (10.0 * w) == (x * 10.0 + y) * q;
    assert x / w == x * 10.0 * q;
  }

  /** The digit loop of the integer part. */
  method ReadWhole(s: string, start: nat) returns (v: real, i: nat)
    requires start <= |s|
    ensures i == DigitsEnd(s, start) && v == Whole(s, start, i) as real
  {
    v, i := 0.0, start;
    WholeStarts(s, start);
    while '0' <= At(s, i) <= '9'
      invariant start <= i <= |s| && DigitsEnd(s, i) == DigitsEnd(s, start)
      invariant v == Whole(s, start, i) as real
      decreases |s| - i
    {
      hide ValueOf, Whole, DigitValue;
      WholeGrows(s, start, i);
      DigitOf(s[i]);
      v := v * 10.0 + (s[i] as int - '0' as int) as real;
      i := i + 1;
    }
  }

  lemma DigitOf(c: char)
    requires IsDigit(c)
    ensures DigitValue(c) == c as int - '0' as int
  {
  }

  /** The digit loop of the fraction: each digit is weighed a tenth of the one before. */
  method AddFraction(s: string, start: nat, whole: real) returns (v: real, i: nat)
    requires start <= |s|
    ensures i == DigitsEnd(s, start) && v == whole + Units(Whole(s, start, i), i - start)
  {
    hide Power, Quot, Units, Whole, DigitValue;
    v, i := whole, start;
    WholeStarts(s, start);
    TenthOfUnit(0);
    var place := 0.1;
    while '0' <= At(s, i) <= '9'
      invariant start <= i <= |s| && DigitsEnd(s, i) == DigitsEnd(s, start)
      invariant v == whole + Units(Whole(s, start, i), i - start) && place == Quot(1.0, Power(i - start + 1))
      decreases |s| - i
    {
      WholeGrows(s, start, i);
      DigitOf(s[i]);
      UnitsGrow(Whole(s, start, i), DigitValue(s[i]), i - start);
      TenthOfUnit(i - start + 1);
      v := v + (s[i] as int - '0' as int) as real * place;
      place := place * 0.1;
      i := i + 1;
    }
  }

  /** The exponent: its digits, then that many factors. */
  method ReadExponent(s: string, start: nat) returns (mult: real)
    requires start <= |s|
    ensures mult == ExponentAt(s, start)
  {
    hide Power, Quot, Whole, DigitValue;
    mult := 1.0;
    if At(s, start) == 'e' || At(s, start) == 'E' {
      var i := start + 1;
      var expNeg := false;
      if At(s, i) == '-' {
        expNeg := true;
        i := i + 1;
      } else if At(s, i) == '+' {
        i := i + 1;
      }
      ghost var d := i;
      var expVal := 0;
      WholeStarts(s, d);
      while '0' <= At(s, i) <= '9'
        invariant d <= i <= |s| && DigitsEnd(s, i) == DigitsEnd(s, d)
        invariant expVal == Whole(s, d, i)
        decreases |s| - i
      {
        WholeGrows(s, d, i);
        DigitOf(s[i]);
        expVal := expVal * 10 + (s[i] as int - '0' as int);
        i := i + 1;
      }
      var base := if expNeg then 0.1 else 10.0;
      UnitFactors();
      for j := 0 to expVal
        invariant mult == if expNeg then Quot(1.0, Power(j)) else Power(j)
      {
        TenthOfUnit(j);
        NextPlace(j, 0);
        mult := mult * base;
      }
    }
  }

  lemma UnitFactors()
    ensures Quot(1.0, Power(0)) == 1.0 && Power(0) == 1.0
  {
  }

  /** atof, for every string. */
  method Atof(s: string) returns (result: real)
    ensures result == NumberOf(s)
  {
    hide ExponentAt, Units, Whole, DigitsEnd, Prod;
    var i := 0;
    while At(s, i) == ' ' || At(s, i) == '\t'
      invariant i <= |s| && BlanksEnd(s, i) == BlanksEnd(s, 0)
      decreases |s| - i
    {
      i := i + 1;
    }
    var neg := false;
    if At(s, i) == '-' {
      neg := true;
      i := i + 1;
    } else if At(s, i) == '+' {
      i := i + 1;
    }
    result, i := ReadWhole(s, i);
    if At(s, i) == '.' {
      result, i := AddFraction(s, i + 1, result);
    }
    var mult := ReadExponent(s, i);
    result := Prod(result, mult);
    if neg {
      result := -result;
    }
  }
}
