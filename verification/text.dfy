/** String helpers used by the proxy engine: decimal rendering of counters and
    indices, `String.lastIndexOf`, `String.replace(char, char)` and the order of
    `String.compareTo`. */
module Text {

  predicate IsDigit(c: char)
  {
    '0' <= c <= '9'
  }

  predicate AllDigits(s: string)
  {
    forall i :: 0 <= i < |s| ==> IsDigit(s[i])
  }

  function DigitChar(d: nat): (c: char)
    requires d < 10
    ensures IsDigit(c)
  {
    ('0' as int + d) as char
  }

  function DigitValue(c: char): (d: nat)
    requires IsDigit(c)
    ensures d < 10
  {
    c as int - '0' as int
  }

  /** The decimal rendering of a non-negative number, as Java's string
      concatenation renders an `int` or `long` index or counter value. */
  function Decimal(n: nat): (s: string)
    ensures |s| > 0
    ensures AllDigits(s)
  {
    if n < 10 then [DigitChar(n)] else Decimal(n / 10) + [DigitChar(n % 10)]
  }

  /** Reads a string of decimal digits back as a number. */
  function ParseDecimal(s: string): nat
    requires AllDigits(s)
  {
    if |s| == 0 then 0 else ParseDecimal(s[..|s| - 1]) * 10 + DigitValue(s[|s| - 1])
  }

  /** Reading back the decimal rendering of n gives n. */
  lemma {:induction false} ParseDecimalOfDecimal(n: nat)
    ensures ParseDecimal(Decimal(n)) == n
  {
    if n >= 10 {
      var s := Decimal(n);
      assert s[..|s| - 1] == Decimal(n / 10);
      ParseDecimalOfDecimal(n / 10);
    }
  }

  /** Distinct numbers have distinct decimal renderings. */
  lemma DecimalInjective(m: nat, n: nat)
    ensures Decimal(m) == Decimal(n) ==> m == n
  {
    ParseDecimalOfDecimal(m);
    ParseDecimalOfDecimal(n);
  }

  /** `s.lastIndexOf(c)`: the position of the last c in s, or -1 when there is none. */
  function LastIndexOf(s: string, c: char): (k: int)
    ensures -1 <= k < |s|
    ensures k >= 0 ==> s[k] == c
    ensures forall i :: k < i < |s| ==> s[i] != c
  {
    if |s| == 0 then -1
    else if s[|s| - 1] == c then |s| - 1
    else LastIndexOf(s[..|s| - 1], c)
  }

  /** In `a + [c] + b` where b holds no c, the last c is the one between a and b. */
  lemma {:induction false} LastIndexOfSplit(a: string, c: char, b: string)
    requires forall i :: 0 <= i < |b| ==> b[i] != c
    ensures LastIndexOf(a + [c] + b, c) == |a|
  {
    var s := a + [c] + b;
    var k := LastIndexOf(s, c);
    assert s[|a|] == c;
  }

  /** `s.replace(a, b)`: every occurrence of the character a becomes b. */
  function Replace(s: string, a: char, b: char): (r: string)
    ensures |r| == |s|
    ensures forall i :: 0 <= i < |s| ==> r[i] == (if s[i] == a then b else s[i])
  {
    if |s| == 0 then []
    else Replace(s[..|s| - 1], a, b) + [if s[|s| - 1] == a then b else s[|s| - 1]]
  }

  /** Replacing distributes over concatenation. */
  lemma ReplaceConcat(x: string, y: string, a: char, b: char)
    ensures Replace(x + y, a, b) == Replace(x, a, b) + Replace(y, a, b)
  {
    var l := Replace(x + y, a, b);
    var r := Replace(x, a, b) + Replace(y, a, b);
    assert |l| == |r|;
    forall i | 0 <= i < |l|
      ensures l[i] == r[i]
    {
      if i >= |x| {
        assert (x + y)[i] == y[i - |x|];
      }
    }
  }

  /** Replacing a character that does not occur changes nothing. */
  lemma ReplaceAbsent(s: string, a: char, b: char)
    requires forall i :: 0 <= i < |s| ==> s[i] != a
    ensures Replace(s, a, b) == s
  {
  }

  /** `x.compareTo(y) < 0`: the first differing character decides, and a
      proper prefix comes first. */
  predicate Less(x: string, y: string)
  {
    if |x| == 0 then |y| > 0
    else if |y| == 0 then false
    else if x[0] != y[0] then x[0] < y[0]
    else Less(x[1..], y[1..])
  }

  lemma {:induction false} LessIrreflexive(x: string)
    ensures !Less(x, x)
  {
    if |x| > 0 {
      LessIrreflexive(x[1..]);
    }
  }

  lemma {:induction false} LessAsymmetric(x: string, y: string)
    ensures Less(x, y) ==> !Less(y, x)
  {
    if |x| > 0 && |y| > 0 && x[0] == y[0] {
      LessAsymmetric(x[1..], y[1..]);
    }
  }

  lemma {:induction false} LessTransitive(x: string, y: string, z: string)
    ensures Less(x, y) && Less(y, z) ==> Less(x, z)
  {
    if |x| > 0 && |y| > 0 && |z| > 0 && x[0] == y[0] && y[0] == z[0] {
      LessTransitive(x[1..], y[1..], z[1..]);
    }
  }

  /** Any two different strings are ordered one way or the other. */
  lemma {:induction false} LessTotal(x: string, y: string)
    ensures x == y || Less(x, y) || Less(y, x)
  {
    if |x| > 0 && |y| > 0 && x[0] == y[0] {
      LessTotal(x[1..], y[1..]);
      if x[1..] == y[1..] {
        assert x == [x[0]] + x[1..] && y == [y[0]] + y[1..];
      }
    }
  }
}
