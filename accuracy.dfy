/** `calculateAccuracy`: `(correctCount * 100 / numberOfSymbols).toFixed() + '%'`.
    Number.prototype.toFixed(0) picks the nearest integer and, between two
    equally near ones, the larger, so the figure is the percentage rounded
    half up. */
module Accuracy {

  /** The percentage 100 * correct / total rounded half up: the integer p with
      p - 1/2 <= 100 * correct / total < p + 1/2. */
  function Percent(correct: nat, total: nat): (p: nat)
    requires total > 0
    ensures -(total as int) <= 200 * correct - 2 * p * total < total
  {
    var d := 2 * total;
    var q := (200 * correct + total) / d;
    DivBracket(200 * correct + total, d);
    q
  }

  lemma DivBracket(x: nat, d: nat)
    requires d > 0
    ensures d * (x / d) <= x < d * (x / d) + d
  {
  }

  /** The only multiple of n strictly between -n and n is 0. */
  lemma OnlyZeroMultiple(k: int, n: nat)
    requires n > 0 && -(n as int) < k * n < n
    ensures k == 0
  {
  }

  /** The rounding has only one answer: any p inside the bracket is Percent. */
  lemma PercentUnique(correct: nat, total: nat, p: int)
    requires total > 0
    requires -(total as int) <= 200 * correct - 2 * p * total < total
    ensures p == Percent(correct, total)
  {
    var q := Percent(correct, total);
    assert 2 * p * total - 2 * q * total == 2 * ((p - q) * total);
    OnlyZeroMultiple(p - q, total);
  }

  /** No correct answers reads 0%, all symbols correct reads 100%, and
      in between the figure stays within 0 .. 100. */
  lemma PercentRange(correct: nat, total: nat)
    requires total > 0
    ensures correct == 0 ==> Percent(correct, total) == 0
    ensures correct == total ==> Percent(correct, total) == 100
    ensures correct <= total ==> Percent(correct, total) <= 100
  {
    if correct == 0 {
      PercentUnique(correct, total, 0);
    }
    if correct == total {
      PercentUnique(correct, total, 100);
    }
    if correct <= total {
      PercentMonotone(correct, total, total);
      PercentUnique(total, total, 100);
    }
  }

  /** More correct answers never lower the figure. */
  lemma PercentMonotone(c1: nat, c2: nat, total: nat)
    requires total > 0 && c1 <= c2
    ensures Percent(c1, total) <= Percent(c2, total)
  {
    var p1: int, p2: int := Percent(c1, total), Percent(c2, total);
    MulDifference(p1, p2, total);
    BelowOneMultiple(p1 - p2, total);
  }

  lemma MulDifference(p: int, q: int, n: int)
    ensures 2 * p * n - 2 * q * n == 2 * ((p - q) * n)
  {
  }

  /** A multiple of n below n is a multiple by at most 0. */
  lemma BelowOneMultiple(k: int, n: nat)
    requires n > 0 && k * n < n
    ensures k <= 0
  {
  }

  // ---------------------------------------------------------------------------
  // The decimal text

  predicate IsDigits(s: string)
  {
    forall i :: 0 <= i < |s| ==> '0' <= s[i] <= '9'
  }

  function DigitChar(d: nat): (c: char)
    requires d < 10
    ensures '0' <= c <= '9' && (c as int) - ('0' as int) == d
  {
    (('0' as int) + d) as char
  }

  /** The decimal numeral of x, as toFixed(0) writes a number below 10^21. */
  function Decimal(x: nat): (s: string)
    ensures |s| > 0 && IsDigits(s)
    ensures |s| > 1 ==> s[0] != '0'
  {
    if x < 10 then [DigitChar(x)] else Decimal(x / 10) + [DigitChar(x % 10)]
  }

  /** The number a string of decimal digits denotes. */
  function ValueOf(s: string): nat
    requires IsDigits(s)
  {
    if s == [] then 0 else 10 * ValueOf(s[..|s| - 1]) + ((s[|s| - 1] as int) - ('0' as int))
  }

  /** Reading the numeral back gives the number. */
  lemma {:induction false} DecimalRoundTrip(x: nat)
    ensures ValueOf(Decimal(x)) == x
  {
    if x >= 10 {
      DecimalRoundTrip(x / 10);
      var s := Decimal(x);
      assert s[..|s| - 1] == Decimal(x / 10);
    }
  }

  /** A numeral whose first digit is not 0 denotes at least 1. */
  lemma {:induction false} LeadingDigitPositive(d: string)
    requires |d| > 0 && IsDigits(d) && d[0] != '0'
    ensures ValueOf(d) >= 1
  {
    if |d| > 1 {
      LeadingDigitPositive(d[..|d| - 1]);
    }
  }

  /** The numeral without leading zeros is unique: any such digit string
      denoting x is `Decimal(x)`. */
  lemma {:induction false} DecimalUnique(d: string, x: nat)
    requires |d| > 0 && IsDigits(d) && (|d| > 1 ==> d[0] != '0')
    requires ValueOf(d) == x
    ensures d == Decimal(x)
  {
    var p := d[..|d| - 1];
    var c := (d[|d| - 1] as int) - ('0' as int);
    if |d| == 1 {
      assert p == [];
      assert x == c;
    } else {
      LeadingDigitPositive(p);
      assert x / 10 == ValueOf(p) && x % 10 == c;
      DecimalUnique(p, x / 10);
      assert d == p + [d[|d| - 1]];
    }
  }

  /** `calculateAccuracy()`: the rounded percentage followed by '%'. */
  function AccuracyText(correct: nat, total: nat): (s: string)
    requires total > 0
    ensures |s| >= 2 && s[|s| - 1] == '%' && IsDigits(s[..|s| - 1])
    ensures |s| > 2 ==> s[0] != '0'
    ensures ValueOf(s[..|s| - 1]) == Percent(correct, total)
    ensures correct <= total ==> ValueOf(s[..|s| - 1]) <= 100
  {
    var digits := Decimal(Percent(correct, total));
    DecimalRoundTrip(Percent(correct, total));
    PercentRange(correct, total);
    assert (digits + "%")[..|digits|] == digits;
    digits + "%"
  }

  /** The contract of `AccuracyText` fixes the text: any string of digits
      without a leading zero, followed by '%', that reads as the rounded
      percentage is the accuracy text. */
  lemma AccuracyTextUnique(s: string, correct: nat, total: nat)
    requires total > 0
    requires |s| >= 2 && s[|s| - 1] == '%' && IsDigits(s[..|s| - 1])
    requires |s| > 2 ==> s[0] != '0'
    requires ValueOf(s[..|s| - 1]) == Percent(correct, total)
    ensures s == AccuracyText(correct, total)
  {
    DecimalUnique(s[..|s| - 1], Percent(correct, total));
    assert s == s[..|s| - 1] + "%";
  }

  /** The accuracies of a 46-symbol table at 0, 23 and 46 correct answers, a tie rounded up, and a one-symbol table answered. */
  lemma AccuracyExamples()
    ensures AccuracyText(0, 46) == "0%"
    ensures AccuracyText(23, 46) == "50%"
    ensures AccuracyText(46, 46) == "100%"
    ensures AccuracyText(1, 8) == "13%"
    ensures AccuracyText(1, 1) == "100%"
  {
    PercentUnique(0, 46, 0);
    PercentUnique(23, 46, 50);
    PercentUnique(46, 46, 100);
    PercentUnique(1, 8, 13);
    PercentUnique(1, 1, 100);
  }
}
