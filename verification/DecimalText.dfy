/**
 Numbers as text: the default stream format (six significant digits, trailing
 zeros dropped, exponent form outside the usual range) and the reader that
 takes the longest decimal prefix.
 */
module DecimalText {
  import opened Prelude
  import opened Rounding

  // ----- Powers of ten -----

  /** x times ten to the k. */
  function Scale(x: real, k: int): real
    decreases if k < 0 then -k else k
  {
    if k == 0 then x else if k > 0 then Scale(x, k - 1) * 10.0 else Scale(x, k + 1) / 10.0
  }

  lemma ScaleNext(x: real, k: int)
    ensures Scale(x, k + 1) == Scale(x, k) * 10.0
  {}

  lemma {:induction false} ScaleAdd(x: real, a: int, b: int)
    ensures Scale(Scale(x, a), b) == Scale(x, a + b)
    decreases if b < 0 then -b else b
  {
    if b > 0 {
      ScaleAdd(x, a, b - 1);
      ScaleNext(x, a + b - 1);
    } else if b < 0 {
      ScaleAdd(x, a, b + 1);
      ScaleNext(x, a + b);
    }
  }

  lemma {:induction false} ScaleOrder(x: real, y: real, k: int)
    ensures x < y ==> Scale(x, k) < Scale(y, k)
    ensures x == y ==> Scale(x, k) == Scale(y, k)
    decreases if k < 0 then -k else k
  {
    if k > 0 { ScaleOrder(x, y, k - 1); } else if k < 0 { ScaleOrder(x, y, k + 1); }
  }

  lemma {:induction false} ScaleNegate(x: real, k: int)
    ensures Scale(-x, k) == -Scale(x, k)
    decreases if k < 0 then -k else k
  {
    if k > 0 { ScaleNegate(x, k - 1); } else if k < 0 { ScaleNegate(x, k + 1); }
  }

  /** Scaling a whole number up gives a whole number. */
  lemma {:induction false} ScaleWhole(n: int, k: nat)
    ensures Scale(n as real, k).Floor as real == Scale(n as real, k)
  {
    if k > 0 {
      ScaleWhole(n, k - 1);
      assert Scale(n as real, k) == (Scale(n as real, k - 1).Floor * 10) as real;
    }
  }

  // ----- Digit strings -----

  predicate IsDigit(c: char) {
    '0' <= c <= '9'
  }

  predicate AllDigits(s: string) {
    forall i | 0 <= i < |s| :: IsDigit(s[i])
  }

  function Digit(d: nat): (c: char)
    requires d < 10
    ensures IsDigit(c) && c as int - '0' as int == d
  {
    '0' + d as char
  }

  function Digits(n: nat): (s: string)
    ensures AllDigits(s) && s != ""
  {
    if n < 10 then [Digit(n)] else Digits(n / 10) + [Digit(n % 10)]
  }

  function NatOf(s: string): nat
    requires AllDigits(s)
  {
    if s == "" then 0 else NatOf(s[..|s| - 1]) * 10 + (s[|s| - 1] as int - '0' as int)
  }

  lemma {:induction false} NatOfDigits(n: nat)
    ensures NatOf(Digits(n)) == n
  {
    if n >= 10 {
      NatOfDigits(n / 10);
      assert Digits(n)[..|Digits(n)| - 1] == Digits(n / 10);
    }
  }

  function Zeros(n: nat): (s: string)
    ensures |s| == n && AllDigits(s)
  {
    seq(n, i => '0')
  }

  lemma {:induction false} ZerosLeft(n: nat, s: string)
    requires AllDigits(s)
    ensures NatOf(Zeros(n) + s) == NatOf(s)
    decreases |s|, n
  {
    var t := Zeros(n) + s;
    if s == "" {
      if n > 0 {
        assert t[..n - 1] == Zeros(n - 1) + s;
        ZerosLeft(n - 1, s);
      }
    } else {
      assert t[..|t| - 1] == Zeros(n) + s[..|s| - 1];
      ZerosLeft(n, s[..|s| - 1]);
    }
  }

  lemma {:induction false} ZerosRight(s: string, n: nat)
    requires AllDigits(s)
    ensures NatOf(s + Zeros(n)) as real == Scale(NatOf(s) as real, n)
  {
    var t := s + Zeros(n);
    if n == 0 {
      assert t == s;
    } else {
      assert t[..|t| - 1] == s + Zeros(n - 1);
      ZerosRight(s, n - 1);
      assert NatOf(t) == NatOf(s + Zeros(n - 1)) * 10;
    }
  }

  // ----- Reading -----

  function LeadingDigits(s: string): (d: string)
    ensures AllDigits(d) && d <= s
  {
    if s != "" && IsDigit(s[0]) then [s[0]] + LeadingDigits(s[1..]) else ""
  }

  lemma {:induction false} LeadingIs(d: string, rest: string)
    requires AllDigits(d) && (rest == "" || !IsDigit(rest[0]))
    ensures LeadingDigits(d + rest) == d
  {
    if d == "" {
      assert d + rest == rest;
    } else {
      assert (d + rest)[1..] == d[1..] + rest;
      LeadingIs(d[1..], rest);
    }
  }

  /** The exponent part, if a complete one follows; anything else ends the number. */
  function ReadExponent(s: string): int {
    if |s| >= 2 && s[0] == 'e' && (s[1] == '+' || s[1] == '-') then
      var n: int := NatOf(LeadingDigits(s[2..]));
      if s[1] == '-' then -n else n
    else 0
  }

  /** The digits before the point, the digits after it, and what follows the number. */
  datatype Parts = Parts(whole: string, frac: string, rest: string)

  predicate DigitParts(p: Parts) {
    AllDigits(p.whole) && AllDigits(p.frac)
  }

  function Split(s: string): (p: Parts)
    ensures DigitParts(p)
  {
    var whole := LeadingDigits(s);
    var r := s[|whole|..];
    if r != "" && r[0] == '.' then
      var t := r[1..];
      var frac := LeadingDigits(t);
      Parts(whole, frac, t[|frac|..])
    else
      Parts(whole, "", r)
  }

  function ValueOf(p: Parts): Option<real>
    requires DigitParts(p)
  {
    if p.whole + p.frac == "" then None
    else Some(Scale(NatOf(p.whole + p.frac) as real, ReadExponent(p.rest) - |p.frac|))
  }

  function ReadUnsigned(s: string): Option<real> {
    ValueOf(Split(s))
  }

  function Read(s: string): Option<real> {
    if s != "" && s[0] == '-' then
      var r := ReadUnsigned(s[1..]);
      if r.Some? then Some(-r.value) else None
    else ReadUnsigned(s)
  }

  // ----- Printing -----

  /** The decimal exponent: 10^e <= x < 10^(e+1). */
  function Exponent(x: real): int
    requires x > 0.0
    decreases if x >= 10.0 then x.Floor else if x < 1.0 then (1.0 / x).Floor else 0
  {
    if x >= 10.0 then Exponent(x / 10.0) + 1
    else if x < 1.0 then Shrinks(x); Exponent(x * 10.0) - 1
    else 0
  }

  lemma Shrinks(x: real)
    requires 0.0 < x < 1.0
    ensures x * 10.0 < 1.0 ==> 0 <= (1.0 / (x * 10.0)).Floor < (1.0 / x).Floor
    ensures (1.0 / x).Floor > 0
  {
    var q := 1.0 / x;
    assert q * x == 1.0;
    assert q > 1.0;
    if x * 10.0 < 1.0 {
      assert q / 10.0 * (x * 10.0) == 1.0;
      assert 1.0 / (x * 10.0) == q / 10.0;
    }
  }

  lemma {:induction false} ExponentBounds(x: real)
    requires x > 0.0
    ensures Scale(1.0, Exponent(x)) <= x < Scale(1.0, Exponent(x) + 1)
    decreases if x >= 10.0 then x.Floor else if x < 1.0 then (1.0 / x).Floor else 0
  {
    if x >= 10.0 {
      ExponentBounds(x / 10.0);
      ScaleNext(1.0, Exponent(x / 10.0));
      ScaleNext(1.0, Exponent(x / 10.0) + 1);
    } else if x < 1.0 {
      Shrinks(x);
      ExponentBounds(x * 10.0);
      ScaleNext(1.0, Exponent(x * 10.0) - 1);
      ScaleNext(1.0, Exponent(x * 10.0));
    } else {
      assert Scale(1.0, 1) == 10.0;
    }
  }

  const LOW := 100000
  const HIGH := 1000000

  lemma PowersFiveSix()
    ensures Scale(1.0, 5) == LOW as real && Scale(1.0, 6) == HIGH as real
  {
    assert Scale(1.0, 2) == 100.0;
    assert Scale(1.0, 4) == 10000.0;
  }

  /** Moving the decimal point behind the sixth significant digit. */
  lemma SixBeforePoint(x: real)
    requires x > 0.0
    ensures LOW as real <= Scale(x, 5 - Exponent(x)) < HIGH as real
  {
    var e := Exponent(x);
    ExponentBounds(x);
    ScaleAdd(1.0, e, 5 - e);
    ScaleAdd(1.0, e + 1, 5 - e);
    ScaleOrder(Scale(1.0, e), x, 5 - e);
    ScaleOrder(x, Scale(1.0, e + 1), 5 - e);
    PowersFiveSix();
  }

  lemma RoundSix(y: real)
    requires LOW as real <= y < HIGH as real
    ensures LOW <= Round(y) <= HIGH
  {
    RoundMonotone(LOW as real, y);
    RoundMonotone(y, HIGH as real);
    assert Round(LOW as real) == LOW && Round(HIGH as real) == HIGH;
  }

  /** Six significant digits as a whole number, with the decimal exponent of the first. */
  datatype Scientific = Scientific(digits: nat, exponent: int)

  function Six(x: real): (s: Scientific)
    requires x > 0.0
    ensures LOW <= s.digits < HIGH
  {
    var e := Exponent(x);
    SixBeforePoint(x);
    RoundSix(Scale(x, 5 - e));
    var m := Round(Scale(x, 5 - e));
    if m >= HIGH then Scientific(LOW, e + 1) else Scientific(m, e)
  }

  datatype Significant = Zero | Number(negative: bool, s: Scientific)

  predicate SixLong(g: Significant) {
    g.Number? ==> LOW <= g.s.digits < HIGH
  }

  function SignificantOf(x: real): (g: Significant)
    ensures SixLong(g)
  {
    if x == 0.0 then Zero else Number(x < 0.0, Six(if x < 0.0 then -x else x))
  }

  function SignedValue(g: Significant): real {
    if g.Zero? then 0.0 else Negated(g.negative, Magnitude(g.s))
  }

  function Negated(negative: bool, v: real): real {
    if negative then -v else v
  }

  /** What the printed text stands for: x to six significant digits. */
  function Rounded(x: real): real {
    SignedValue(SignificantOf(x))
  }

  function Magnitude(s: Scientific): real {
    Scale(s.digits as real, s.exponent - 5)
  }

  function Strip(m: nat): (r: nat)
    ensures m > 0 ==> r > 0
  {
    if m > 0 && m % 10 == 0 then Strip(m / 10) else m
  }

  function TwoDigits(n: nat): (s: string)
    ensures AllDigits(s) && NatOf(s) == n
  {
    NatOfDigits(n);
    ZerosLeft(1, Digits(n));
    if n < 10 then Zeros(1) + Digits(n) else Digits(n)
  }

  function ExponentText(e: int): string {
    "e" + (if e < 0 then "-" else "+") + TwoDigits(if e < 0 then -e else e)
  }

  /** The point is printed only in front of digits. */
  function Join(p: Parts): string {
    if p.frac == "" then p.whole + p.rest else p.whole + ("." + (p.frac + p.rest))
  }

  /** The digits d.ddd... with exponent e, in exponent form when e < -4 or e >= 6. */
  function Layout(d: string, e: int): (p: Parts)
    requires d != "" && AllDigits(d)
    ensures DigitParts(p) && p.whole != "" && (p.rest == "" || p.rest[0] == 'e')
  {
    if e < -4 || e >= 6 then Parts(d[..1], d[1..], ExponentText(e))
    else if e < 0 then Parts("0", Zeros(-e - 1) + d, "")
    else if |d| <= e + 1 then Parts(d + Zeros(e + 1 - |d|), "", "")
    else Parts(d[..e + 1], d[e + 1..], "")
  }

  function ShowScientific(s: Scientific): string {
    Join(Layout(Digits(Strip(s.digits)), s.exponent))
  }

  function Signed(negative: bool, t: string): string {
    if negative then "-" + t else t
  }

  function ShowSignificant(g: Significant): string {
    if g.Zero? then "0" else Signed(g.negative, ShowScientific(g.s))
  }

  function Show(x: real): string {
    ShowSignificant(SignificantOf(x))
  }

  // ----- Reading what was printed -----

  lemma AfterDigits(d: string, rest: string)
    requires AllDigits(d) && (rest == "" || !IsDigit(rest[0]))
    ensures LeadingDigits(d + rest) == d && (d + rest)[|d|..] == rest
  {
    LeadingIs(d, rest);
  }

  lemma AfterPoint(t: string)
    ensures var r := "." + t; r[0] == '.' && !IsDigit(r[0]) && r[1..] == t
  {}

  lemma SplitWhole(whole: string, rest: string)
    requires AllDigits(whole) && (rest == "" || rest[0] == 'e')
    ensures Split(whole + rest) == Parts(whole, "", rest)
  {
    AfterDigits(whole, rest);
  }

  lemma SplitPoint(whole: string, frac: string, rest: string)
    requires AllDigits(whole) && AllDigits(frac) && (rest == "" || rest[0] == 'e')
    ensures Split(whole + ("." + (frac + rest))) == Parts(whole, frac, rest)
  {
    AfterPoint(frac + rest);
    AfterDigits(whole, "." + (frac + rest));
    AfterDigits(frac, rest);
  }

  lemma SplitJoin(p: Parts)
    requires DigitParts(p) && p.whole != "" && (p.rest == "" || p.rest[0] == 'e')
    ensures Split(Join(p)) == p && Join(p) != "" && IsDigit(Join(p)[0])
  {
    if p.frac == "" { SplitWhole(p.whole, p.rest); } else { SplitPoint(p.whole, p.frac, p.rest); }
  }

  lemma ExponentRead(negative: bool, t: string)
    requires AllDigits(t)
    ensures ReadExponent("e" + (if negative then "-" else "+") + t) == if negative then -(NatOf(t) as int) else NatOf(t)
  {
    var s := "e" + (if negative then "-" else "+") + t;
    assert s[2..] == t;
    LeadingIs(t, "");
    assert t + "" == t;
  }

  lemma ExponentBack(e: int)
    ensures ReadExponent(ExponentText(e)) == e
  {
    ExponentRead(e < 0, TwoDigits(if e < 0 then -e else e));
  }

  lemma SmallDigits(d: string, k: nat)
    requires AllDigits(d)
    ensures NatOf("0" + (Zeros(k) + d)) == NatOf(d)
  {
    assert "0" + (Zeros(k) + d) == Zeros(k + 1) + d;
    ZerosLeft(k + 1, d);
  }

  lemma WholeDigits(d: string, k: nat)
    requires AllDigits(d)
    ensures NatOf((d + Zeros(k)) + "") as real == Scale(NatOf(d) as real, k)
  {
    assert (d + Zeros(k)) + "" == d + Zeros(k);
    ZerosRight(d, k);
  }

  lemma ValueIs(p: Parts, n: nat, j: int)
    requires DigitParts(p) && p.whole != ""
    requires NatOf(p.whole + p.frac) == n && ReadExponent(p.rest) - |p.frac| == j
    ensures ValueOf(p) == Some(Scale(n as real, j))
  {}

  /** Splitting digits at a point does not change them; the places after the point count against the exponent. */
  lemma SplitDigitsValue(d: string, at: nat, rest: string, j: int)
    requires AllDigits(d) && 0 < at <= |d| && ReadExponent(rest) - (|d| - at) == j
    ensures ValueOf(Parts(d[..at], d[at..], rest)) == Some(Scale(NatOf(d) as real, j))
  {
    assert d[..at] + d[at..] == d;
    ValueIs(Parts(d[..at], d[at..], rest), NatOf(d), j);
  }

  lemma NoExponent()
    ensures ReadExponent("") == 0
  {}

  lemma SmallValue(d: string, k: nat, j: int)
    requires AllDigits(d) && j == 0 - k - |d|
    ensures ValueOf(Parts("0", Zeros(k) + d, "")) == Some(Scale(NatOf(d) as real, j))
  {
    var frac := Zeros(k) + d;
    SmallDigits(d, k);
    NoExponent();
    assert |frac| == k + |d|;
    ValueIs(Parts("0", frac, ""), NatOf(d), j);
  }

  lemma WholeValue(d: string, k: nat)
    requires AllDigits(d) && d != ""
    ensures ValueOf(Parts(d + Zeros(k), "", "")) == Some(Scale(NatOf(d) as real, k))
  {
    WholeDigits(d, k);
    NoExponent();
    ValueIs(Parts(d + Zeros(k), "", ""), NatOf(d + Zeros(k) + ""), 0);
  }

  lemma ExponentFormValue(d: string, e: int, j: int)
    requires AllDigits(d) && d != "" && j == e + 1 - |d|
    ensures ValueOf(Parts(d[..1], d[1..], ExponentText(e))) == Some(Scale(NatOf(d) as real, j))
  {
    ExponentBack(e);
    SplitDigitsValue(d, 1, ExponentText(e), j);
  }

  lemma PointFormValue(d: string, e: nat, j: int)
    requires AllDigits(d) && |d| > e + 1 && j == e + 1 - |d|
    ensures ValueOf(Parts(d[..e + 1], d[e + 1..], "")) == Some(Scale(NatOf(d) as real, j))
  {
    NoExponent();
    SplitDigitsValue(d, e + 1, "", j);
  }

  /** Laid-out digits are worth their value with the point after the first, times ten to the exponent. */
  lemma LayoutValue(d: string, e: int, j: int)
    requires AllDigits(d) && d != "" && j == e + 1 - |d|
    ensures ValueOf(Layout(d, e)) == Some(Scale(NatOf(d) as real, j))
  {
    if e < -4 || e >= 6 { ExponentFormValue(d, e, j); }
    else if e < 0 { SmallValue(d, -e - 1, j); }
    else if |d| <= e + 1 { WholeValue(d, j); }
    else { PointFormValue(d, e, j); }
  }

  lemma {:induction false} StripScales(m: nat)
    requires m > 0
    ensures Scale(Strip(m) as real, |Digits(m)| - |Digits(Strip(m))|) == m as real
  {
    if m % 10 == 0 {
      StripScales(m / 10);
      assert m >= 10;
      var k := |Digits(m / 10)| - |Digits(Strip(m))|;
      ScaleNext(Strip(m) as real, k);
      assert (m / 10) * 10 == m;
    }
  }

  lemma SixDigitsLong(m: nat)
    requires LOW <= m < HIGH
    ensures |Digits(m)| == 6
  {
    var a := m / 10;
    var b := a / 10;
    var c := b / 10;
    var d := c / 10;
    var f := d / 10;
    assert 1 <= f < 10 && |Digits(f)| == 1;
    assert |Digits(d)| == 2;
    assert |Digits(c)| == 3;
    assert |Digits(b)| == 4;
    assert |Digits(a)| == 5;
  }

  lemma StripToSix(digits: nat, d: string, e: int, j: int)
    requires LOW <= digits < HIGH && d == Digits(Strip(digits)) && j == e + 1 - |d|
    ensures Scale(NatOf(d) as real, j) == Scale(digits as real, e - 5)
  {
    var k := 6 - |d|;
    StripScales(digits);
    SixDigitsLong(digits);
    NatOfDigits(Strip(digits));
    ScaleAdd(Strip(digits) as real, k, e - 5);
    assert k + (e - 5) == j;
  }

  /** Six digits are laid out, after stripping their trailing zeros, with their full value. */
  lemma SixValue(digits: nat, e: int)
    requires LOW <= digits < HIGH
    ensures ValueOf(Layout(Digits(Strip(digits)), e)) == Some(Scale(digits as real, e - 5))
  {
    var d := Digits(Strip(digits));
    var j := e + 1 - |d|;
    LayoutValue(d, e, j);
    StripToSix(digits, d, e, j);
  }

  lemma ReadSigned(negative: bool, t: string, v: real)
    requires t != "" && IsDigit(t[0]) && ReadUnsigned(t) == Some(v)
    ensures Read(Signed(negative, t)) == Some(Negated(negative, v))
  {
    if negative { assert ("-" + t)[1..] == t; }
  }

  lemma ReadJoined(p: Parts)
    requires DigitParts(p) && p.whole != "" && (p.rest == "" || p.rest[0] == 'e')
    ensures ReadUnsigned(Join(p)) == ValueOf(p) && Join(p) != "" && IsDigit(Join(p)[0])
  {
    SplitJoin(p);
  }

  lemma ReadZero()
    ensures Read("0") == Some(0.0)
  {
    var p := Parts("0", "", "");
    assert NatOf("0" + "") == 0;
    NoExponent();
    ReadJoined(p);
    assert Join(p) == "0";
    ReadSigned(false, "0", 0.0);
  }

  lemma UnsignedBack(s: Scientific)
    requires LOW <= s.digits < HIGH
    ensures ReadUnsigned(ShowScientific(s)) == Some(Magnitude(s))
    ensures ShowScientific(s) != "" && IsDigit(ShowScientific(s)[0])
  {
    SixValue(s.digits, s.exponent);
    ReadJoined(Layout(Digits(Strip(s.digits)), s.exponent));
  }

  lemma ReadSignificant(g: Significant)
    requires SixLong(g)
    ensures Read(ShowSignificant(g)) == Some(SignedValue(g))
  {
    if g.Zero? {
      ReadZero();
    } else {
      UnsignedBack(g.s);
      ReadSigned(g.negative, ShowScientific(g.s), Magnitude(g.s));
    }
  }

  /** Reading a printed number gives it back to six significant digits. */
  lemma ReadShow(x: real)
    ensures Read(Show(x)) == Some(Rounded(x))
  {
    ReadSignificant(SignificantOf(x));
  }

  // ----- Which numbers survive -----

  predicate IsScaled(x: real, n: int, k: int) {
    x == Scale(n as real, k)
  }

  /** The number can be written with at most six significant decimal digits. */
  ghost predicate SixDigits(x: real) {
    exists n: int, k: int :: -HIGH < n < HIGH && IsScaled(x, n, k)
  }

  lemma SixDigitsExact(x: real, n: int, k: int)
    requires x > 0.0 && n < HIGH && IsScaled(x, n, k)
    ensures Magnitude(Six(x)) == x
  {
    var e := Exponent(x);
    SixBeforePoint(x);
    ScaleAdd(n as real, k, 5 - e);
    WholeScaled(n, k + 5 - e);
    RoundInt(Scale(x, 5 - e).Floor);
    ScaleAdd(x, 5 - e, e - 5);
  }

  lemma WholeScaled(n: int, j: int)
    requires n < HIGH && Scale(n as real, j) >= LOW as real
    ensures Scale(n as real, j).Floor as real == Scale(n as real, j)
  {
    ScaleUpNeeded(n, j);
    ScaleWhole(n, j);
  }

  /** A whole number below a million cannot be scaled down and still reach six digits before the point. */
  lemma {:induction false} ScaleUpNeeded(n: int, j: int)
    requires n < HIGH && Scale(n as real, j) >= LOW as real
    ensures j >= 0
  {
    if j < 0 {
      ScaleDown(n as real, j);
    }
  }

  lemma {:induction false} ScaleDown(x: real, j: int)
    requires j < 0 && x < HIGH as real
    ensures Scale(x, j) < LOW as real
    decreases -j
  {
    if j < -1 {
      ScaleDown(x, j + 1);
    }
  }

  lemma NegatedSixDigits(x: real)
    ensures SixDigits(x) ==> SixDigits(-x)
  {
    if SixDigits(x) {
      var n: int, k: int :| -HIGH < n < HIGH && IsScaled(x, n, k);
      ScaleNegate(n as real, k);
      assert IsScaled(-x, -n, k);
    }
  }

  lemma PositiveExactIff(x: real)
    requires x > 0.0
    ensures Magnitude(Six(x)) == x <==> SixDigits(x)
  {
    if SixDigits(x) {
      var n: int, k: int :| -HIGH < n < HIGH && IsScaled(x, n, k);
      SixDigitsExact(x, n, k);
    }
    if Magnitude(Six(x)) == x { assert IsScaled(x, Six(x).digits, Six(x).exponent - 5); }
  }

  lemma RoundedExactIff(x: real)
    ensures Rounded(x) == x <==> SixDigits(x)
  {
    if x == 0.0 {
      assert IsScaled(x, 0, 0);
    } else if x > 0.0 {
      PositiveExactIff(x);
    } else {
      PositiveExactIff(-x);
      NegatedSixDigits(x);
      NegatedSixDigits(-x);
      assert -(-x) == x;
    }
  }

  /** A number with seven significant digits, and what is left of it. */
  lemma MillionRounds()
    ensures Rounded(1234567.0) == 1234570.0 && !SixDigits(1234567.0)
  {
    assert Exponent(1.234567) == 0;
    assert Exponent(123.4567) == 2;
    assert Exponent(12345.67) == 4;
    assert Exponent(1234567.0) == 6;
    assert Scale(1234567.0, -1) == 123456.7;
    assert Round(123456.7) == 123457;
    assert Scale(123457.0, 1) == 1234570.0;
    RoundedExactIff(1234567.0);
  }

  /** A number is read back exactly iff it can be written with at most six significant digits. */
  lemma SurvivesIffSixDigits(x: real)
    ensures Read(Show(x)) == Some(x) <==> SixDigits(x)
  {
    ReadShow(x);
    RoundedExactIff(x);
  }

  predicate PlainText(s: string) {
    forall i | 0 <= i < |s| :: IsDigit(s[i]) || s[i] in {'-', '+', '.', 'e'}
  }

  lemma JoinPlain(p: Parts)
    requires DigitParts(p) && PlainText(p.rest)
    ensures PlainText(Join(p))
  {}

  lemma SignificantPlain(g: Significant)
    ensures PlainText(ShowSignificant(g))
  {
    if !g.Zero? { JoinPlain(Layout(Digits(Strip(g.s.digits)), g.s.exponent)); }
  }

  /** Printed numbers consist of digits, signs, point and exponent letter only. */
  lemma ShowIsPlain(x: real)
    ensures PlainText(Show(x))
  {
    SignificantPlain(SignificantOf(x));
  }

  // ----- The error -----

  lemma {:induction false} ScaleDifference(x: real, y: real, k: int)
    ensures Scale(x, k) - Scale(y, k) == Scale(x - y, k)
    decreases if k < 0 then -k else k
  {
    if k > 0 { ScaleDifference(x, y, k - 1); } else if k < 0 { ScaleDifference(x, y, k + 1); }
  }

  lemma ScaleWithin(x: real, y: real, bound: real, k: int)
    requires Abs(x - y) <= bound
    ensures Abs(Scale(x, k) - Scale(y, k)) <= Scale(bound, k)
  {
    ScaleDifference(x, y, k);
    ScaleDifference(y, x, k);
    ScaleOrder(x - y, bound, k);
    ScaleOrder(y - x, bound, k);
  }

  lemma SixIs(x: real)
    requires x > 0.0
    ensures Magnitude(Six(x)) == Scale(Round(Scale(x, 5 - Exponent(x))) as real, Exponent(x) - 5)
  {
    var e := Exponent(x);
    SixBeforePoint(x);
    RoundSix(Scale(x, 5 - e));
    if Round(Scale(x, 5 - e)) >= HIGH {
      PowersFiveSix();
      ScaleAdd(1.0, 5, e - 4);
      ScaleAdd(1.0, 6, e - 5);
    }
  }

  /** A printed number is off by at most half a unit in its sixth significant digit. */
  lemma RoundedNear(x: real, e: int)
    requires x > 0.0 && Scale(1.0, e) <= x < Scale(1.0, e + 1)
    ensures Abs(Rounded(x) - x) <= Scale(0.5, e - 5)
  {
    ExponentIs(x, e);
    SixIs(x);
    var y := Scale(x, 5 - e);
    ScaleWithin(Round(y) as real, y, 0.5, e - 5);
    ScaleAdd(x, 5 - e, e - 5);
  }

  lemma ExponentIs(x: real, e: int)
    requires x > 0.0 && Scale(1.0, e) <= x < Scale(1.0, e + 1)
    ensures Exponent(x) == e
  {
    ExponentBounds(x);
    if e < Exponent(x) { PowersGrow(e + 1, Exponent(x)); }
    else if e > Exponent(x) { PowersGrow(Exponent(x) + 1, e); }
  }

  // ----- The notation -----

  lemma {:induction false} PowersGrow(a: int, b: int)
    requires a <= b
    ensures Scale(1.0, a) <= Scale(1.0, b)
    ensures 0.0 < Scale(1.0, a)
    decreases b - a
  {
    if a < b {
      PowersGrow(a, b - 1);
      ScaleNext(1.0, b - 1);
    } else {
      ScaleOrder(0.0, 1.0, a);
      ScaleZero(a);
    }
  }

  lemma {:induction false} ScaleZero(k: int)
    ensures Scale(0.0, k) == 0.0
    decreases if k < 0 then -k else k
  {
    if k > 0 { ScaleZero(k - 1); } else if k < 0 { ScaleZero(k + 1); }
  }

  lemma MagnitudeBounds(s: Scientific)
    requires LOW <= s.digits < HIGH
    ensures Scale(1.0, s.exponent) <= Magnitude(s) < Scale(1.0, s.exponent + 1)
  {
    var k := s.exponent - 5;
    PowersFiveSix();
    ScaleAdd(1.0, 5, k);
    ScaleAdd(1.0, 6, k);
    ScaleOrder(LOW as real, s.digits as real, k);
    ScaleOrder(s.digits as real, HIGH as real, k);
  }

  lemma EdgePowers()
    ensures Scale(1.0, -4) == 0.0001 && Scale(1.0, 6) == 1000000.0
  {
    PowersFiveSix();
    assert Scale(1.0, -2) == 0.01;
  }

  lemma ExponentFormIff(s: Scientific)
    requires LOW <= s.digits < HIGH
    ensures s.exponent < -4 || s.exponent >= 6 <==> Magnitude(s) < 0.0001 || Magnitude(s) >= 1000000.0
  {
    MagnitudeBounds(s);
    EdgePowers();
    if s.exponent < -4 { PowersGrow(s.exponent + 1, -4); } else { PowersGrow(-4, s.exponent); }
    if s.exponent >= 6 { PowersGrow(6, s.exponent); } else { PowersGrow(s.exponent + 1, 6); }
  }

  lemma {:induction false} StripEnds(m: nat)
    requires m > 0
    ensures Strip(m) % 10 != 0
  {
    if m % 10 == 0 { StripEnds(m / 10); }
  }

  lemma DigitsEnd(n: nat)
    requires n % 10 != 0
    ensures Digits(n)[|Digits(n)| - 1] != '0'
  {}

  /** The parts of a number's text: its point form inside the usual range, one digit and an exponent outside. */
  predicate Notation(p: Parts, v: real) {
    && (p.frac != "" ==> p.frac[|p.frac| - 1] != '0')
    && (p.rest != "" <==> v < 0.0001 || v >= 1000000.0)
    && (p.rest != "" ==> |p.whole| == 1 && p.whole != "0" && |p.rest| >= 4 && p.rest[0] == 'e')
  }

  lemma LayoutEnds(d: string, e: int)
    requires AllDigits(d) && d != "" && d[|d| - 1] != '0' && d[0] != '0'
    ensures var p := Layout(d, e);
            && (p.frac != "" ==> p.frac[|p.frac| - 1] != '0')
            && (p.rest != "" <==> e < -4 || e >= 6)
            && (p.rest != "" ==> |p.whole| == 1 && p.whole != "0" && |p.rest| >= 4 && p.rest[0] == 'e')
  {
    if e < -4 || e >= 6 { TwoDigitsLong(if e < 0 then -e else e); }
  }

  lemma TwoDigitsLong(n: nat)
    ensures |TwoDigits(n)| >= 2
  {}

  lemma {:induction false} DigitsStart(n: nat)
    requires n > 0
    ensures Digits(n)[0] != '0'
  {
    if n >= 10 { DigitsStart(n / 10); }
  }

  /**
   A positive number is printed with an exponent of at least two digits, and
   one digit before the point, exactly when it rounds to less than 0.0001 or to
   a million or more; its decimals never end in a zero.
   */
  lemma NotationIs(x: real)
    requires x > 0.0
    ensures Join(Split(Show(x))) == Show(x) && Notation(Split(Show(x)), Rounded(x))
  {
    var s := Six(x);
    var d := Digits(Strip(s.digits));
    StripEnds(s.digits);
    DigitsEnd(Strip(s.digits));
    DigitsStart(Strip(s.digits));
    LayoutEnds(d, s.exponent);
    ExponentFormIff(s);
    SplitJoin(Layout(d, s.exponent));
  }
}
