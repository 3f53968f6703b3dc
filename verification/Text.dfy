/** Decimal numerals and string order, as far as identification codes and cache keys need them. */
module Text {

  function Digit(d: nat): char
    requires d < 10
  {
    "0123456789"[d]
  }

  predicate IsDigit(c: char) {
    '0' <= c <= '9'
  }

  predicate AllDigits(s: string) {
    forall i | 0 <= i < |s| :: IsDigit(s[i])
  }

  function DigitValue(c: char): nat
    requires IsDigit(c)
  {
    c as int - '0' as int
  }

  /** `String(n)` */
  function Decimal(n: nat): string {
    if n < 10 then [Digit(n)] else Decimal(n / 10) + [Digit(n % 10)]
  }

  /** `Number(s)` for a string of digits; the empty string is 0. */
  function Value(s: string): nat
    requires AllDigits(s)
  {
    if s == "" then 0 else Value(s[..|s| - 1]) * 10 + DigitValue(s[|s| - 1])
  }

  lemma {:induction false} DecimalReadsBack(n: nat)
    ensures AllDigits(Decimal(n)) && Value(Decimal(n)) == n && |Decimal(n)| >= 1
  {
    if n >= 10 {
      DecimalReadsBack(n / 10);
      assert Decimal(n)[..|Decimal(n)| - 1] == Decimal(n / 10);
    }
  }

  lemma DecimalInjective(m: nat, n: nat)
    requires Decimal(m) == Decimal(n)
    ensures m == n
  {
    DecimalReadsBack(m);
    DecimalReadsBack(n);
  }

  /** `padStart(3, '0')` */
  function Pad3(s: string): string {
    if |s| >= 3 then s else if |s| == 2 then "0" + s else if |s| == 1 then "00" + s else "000"
  }

  lemma {:induction false} LeadingZero(s: string)
    requires AllDigits(s)
    ensures AllDigits("0" + s) && Value("0" + s) == Value(s)
  {
    var t := "0" + s;
    forall i | 0 <= i < |t| ensures IsDigit(t[i]) { if i > 0 { assert t[i] == s[i - 1]; } }
    if s != "" {
      LeadingZero(s[..|s| - 1]);
      assert t[..|t| - 1] == "0" + s[..|s| - 1];
    }
  }

  lemma PaddedReadsBack(n: nat)
    ensures var p := Pad3(Decimal(n)); AllDigits(p) && Value(p) == n
    ensures |Pad3(Decimal(n))| == 3 <==> n < 1000
    ensures |Pad3(Decimal(n))| >= 3
  {
    var s := Decimal(n);
    DecimalReadsBack(n);
    LeadingZero(s);
    LeadingZero("0" + s);
    assert "0" + ("0" + s) == "00" + s;
    if n < 10 {
    } else if n < 100 {
      assert |Decimal(n / 10)| == 1;
    } else if n < 1000 {
      assert |Decimal(n / 10 / 10)| == 1;
      assert |Decimal(n / 10)| == 2;
    } else {
      DecimalReadsBack(n / 10 / 10 / 10);
      assert |Decimal(n / 10 / 10)| >= 2;
      assert |Decimal(n / 10)| >= 3;
    }
  }

  /** The order of `orderBy: desc` on text columns, read ascending. */
  predicate LexLeq(a: string, b: string) {
    a == "" || (b != "" && (a[0] < b[0] || (a[0] == b[0] && LexLeq(a[1..], b[1..]))))
  }

  lemma {:induction false} LexTotal(a: string, b: string)
    ensures LexLeq(a, b) || LexLeq(b, a)
  {
    if a != "" && b != "" && a[0] == b[0] { LexTotal(a[1..], b[1..]); }
  }

  lemma {:induction false} LexAntisymmetric(a: string, b: string)
    requires LexLeq(a, b) && LexLeq(b, a)
    ensures a == b
  {
    if a != "" {
      LexAntisymmetric(a[1..], b[1..]);
      assert a == [a[0]] + a[1..] && b == [b[0]] + b[1..];
    }
  }

  lemma {:induction false} LexTransitive(a: string, b: string, c: string)
    requires LexLeq(a, b) && LexLeq(b, c)
    ensures LexLeq(a, c)
  {
    if a != "" && a[0] == b[0] && b[0] == c[0] { LexTransitive(a[1..], b[1..], c[1..]); }
  }

  lemma {:induction false} LexUnderPrefix(p: string, a: string, b: string)
    ensures LexLeq(p + a, p + b) == LexLeq(a, b)
  {
    if p == "" {
      assert p + a == a && p + b == b;
    } else {
      assert (p + a)[1..] == p[1..] + a && (p + b)[1..] == p[1..] + b;
      LexUnderPrefix(p[1..], a, b);
    }
  }

  /** Among three-digit numerals, string order is number order. */
  lemma ThreeDigitOrder(a: string, b: string)
    requires AllDigits(a) && AllDigits(b) && |a| == |b| == 3
    ensures LexLeq(a, b) <==> Value(a) <= Value(b)
  {
    ThreeDigitValue(a);
    ThreeDigitValue(b);
    assert a[1..][1..] == a[2..] && b[1..][1..] == b[2..];
    assert a[2..][1..] == "" && b[2..][1..] == "";
    assert LexLeq(a[2..], b[2..]) <==> a[2] <= b[2];
    assert LexLeq(a[1..], b[1..]) <==> a[1] < b[1] || (a[1] == b[1] && a[2] <= b[2]);
  }

  lemma ThreeDigitValue(a: string)
    requires AllDigits(a) && |a| == 3
    ensures Value(a) == 100 * DigitValue(a[0]) + 10 * DigitValue(a[1]) + DigitValue(a[2])
  {
    assert a[..2][..1] == a[..1] && a[..1][..0] == "";
    assert Value(a[..1][..0]) == 0;
    assert Value(a[..1]) == DigitValue(a[0]);
    assert Value(a[..2]) == 10 * DigitValue(a[0]) + DigitValue(a[1]);
  }

  // ---------------------------------------------------------------------------------------------
  // Numerals of any length: string order is the order of the decimal fractions they spell
  // ---------------------------------------------------------------------------------------------

  function Pow10(n: nat): nat {
    if n == 0 then 1 else 10 * Pow10(n - 1)
  }

  predicate AllNines(s: string) {
    forall i | 0 <= i < |s| :: s[i] == '9'
  }

  lemma {:induction false} ValueFromLeft(s: string)
    requires AllDigits(s) && s != ""
    ensures Value(s) == DigitValue(s[0]) * Pow10(|s| - 1) + Value(s[1..])
  {
    var n := |s|;
    if n == 1 {
      assert s[..0] == "" && s[1..] == "";
      assert Pow10(0) == 1;
    } else {
      ValueFromLeft(s[..n - 1]);
      assert s[..n - 1][1..] == s[1..][..n - 2];
      assert Value(s[1..]) == Value(s[1..][..n - 2]) * 10 + DigitValue(s[n - 1]);
      TenTimes(DigitValue(s[0]), Pow10(n - 2));
    }
  }

  lemma TenTimes(d: nat, p: nat)
    ensures d * (10 * p) == 10 * (d * p)
  {}

  lemma {:induction false} ValueBelow(s: string)
    requires AllDigits(s)
    ensures Value(s) < Pow10(|s|)
    ensures Value(s) == Pow10(|s|) - 1 <==> AllNines(s)
  {
    if s != "" {
      var front, last := s[..|s| - 1], s[|s| - 1];
      ValueBelow(front);
      if AllNines(front) && last == '9' {
        forall i | 0 <= i < |s| ensures s[i] == '9' { if i < |front| { assert front[i] == '9'; } }
      }
    }
  }

  lemma {:induction false} Pow10Grows(m: nat, n: nat)
    requires m <= n
    ensures 1 <= Pow10(m) <= Pow10(n)
  {
    if m < n { Pow10Grows(m, n - 1); } else if m > 0 { Pow10Grows(m - 1, m - 1); }
  }

  /** 0.a <= 0.b whenever the string a sorts no later than b. */
  lemma {:induction false} LexFractions(a: string, b: string)
    requires AllDigits(a) && AllDigits(b) && LexLeq(a, b)
    ensures Value(a) * Pow10(|b|) <= Value(b) * Pow10(|a|)
  {
    if a != "" {
      var m, n := |a| - 1, |b| - 1;
      ValueFromLeft(a);
      ValueFromLeft(b);
      if a[0] == b[0] {
        LexFractions(a[1..], b[1..]);
        SameHead(DigitValue(a[0]), Value(a[1..]), Pow10(m), Value(b[1..]), Pow10(n));
      } else {
        ValueBelow(a[1..]);
        LessHead(DigitValue(a[0]), Value(a[1..]), Pow10(m), DigitValue(b[0]), Value(b[1..]), Pow10(n));
      }
    }
  }

  lemma SameHead(d: nat, x: nat, p: nat, y: nat, q: nat)
    requires x * q <= y * p
    ensures (d * p + x) * (10 * q) <= (d * q + y) * (10 * p)
  {
    assert (d * p + x) * (10 * q) == 10 * (d * (p * q)) + 10 * (x * q);
    assert (d * q + y) * (10 * p) == 10 * (d * (p * q)) + 10 * (y * p);
  }

  lemma LessHead(d: nat, x: nat, p: nat, e: nat, y: nat, q: nat)
    requires d < e && x < p
    ensures (d * p + x) * (10 * q) <= (e * q + y) * (10 * p)
  {
    assert d * p + x <= (d + 1) * p <= e * p by { Scaled(d + 1, e, p); }
    Scaled(d * p + x, e * p, 10 * q);
    Scaled(e * q, e * q + y, 10 * p);
    assert e * p * (10 * q) == e * q * (10 * p);
  }

  lemma Scaled(a: nat, b: nat, c: nat)
    requires a <= b
    ensures a * c <= b * c
  {}

  /** `String(n)` has more than k digits exactly from 10^k on. */
  lemma {:induction false} DecimalLength(n: nat, k: nat)
    requires k >= 1
    ensures |Decimal(n)| <= k <==> n < Pow10(k)
  {
    DecimalReadsBack(n);
    ValueBelow(Decimal(n));
    if |Decimal(n)| <= k { Pow10Grows(|Decimal(n)|, k); }
    if n < Pow10(k) && n >= 10 {
      if k > 1 { DecimalLength(n / 10, k - 1); }
    }
  }
}
