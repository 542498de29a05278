/** Decimal numerals, and the few string operations the program leans on. */
module Text {

  datatype Option<+T> = None | Some(value: T)

  // ---- powers of ten ----

  function Pow10(n: nat): (p: int)
    ensures p >= 1
    ensures n > 0 ==> p >= 10
  {
    if n == 0 then 1 else 10 * Pow10(n - 1)
  }

  lemma {:induction false} Pow10Sum(a: nat, b: nat)
    ensures Pow10(a + b) == Pow10(a) * Pow10(b)
  {
    if a > 0 {
      Pow10Sum(a - 1, b);
      assert Pow10(a + b) == 10 * Pow10(a - 1 + b);
      TenfoldProduct(Pow10(a - 1), Pow10(b));
    }
  }

  lemma TenfoldProduct(p: int, q: int)
    ensures 10 * (p * q) == (10 * p) * q
  {
  }

  // ---- numerals ----

  predicate IsDigit(c: char) {
    '0' <= c <= '9'
  }

  predicate AllDigits(s: string) {
    forall i :: 0 <= i < |s| ==> IsDigit(s[i])
  }

  function DigitChar(d: nat): (c: char)
    requires d < 10
    ensures IsDigit(c) && DigitValue(c) == d
  {
    '0' + d as char
  }

  function DigitValue(c: char): (d: nat)
    requires IsDigit(c)
    ensures d < 10
  {
    (c - '0') as int
  }

  /** The numeral of `n`, without leading zeros. */
  function Digits(n: nat): (s: string)
    ensures s != "" && AllDigits(s)
  {
    if n < 10 then [DigitChar(n)] else Digits(n / 10) + [DigitChar(n % 10)]
  }

  /** The number a numeral denotes. */
  function NatOf(s: string): (n: nat)
    requires AllDigits(s)
  {
    if s == "" then 0 else 10 * NatOf(s[..|s| - 1]) + DigitValue(s[|s| - 1])
  }

  lemma {:induction false} NatOfDigits(n: nat)
    ensures NatOf(Digits(n)) == n
  {
    if n >= 10 {
      NatOfDigits(n / 10);
      assert Digits(n)[..|Digits(n)| - 1] == Digits(n / 10);
    }
  }

  lemma DigitsInjective(a: nat, b: nat)
    requires Digits(a) == Digits(b)
    ensures a == b
  {
    NatOfDigits(a);
    NatOfDigits(b);
  }

  /** A number below ten to the `k` has at most `k` digits. */
  lemma {:induction false} DigitsLength(n: nat, k: nat)
    requires k >= 1 && n < Pow10(k)
    ensures |Digits(n)| <= k
  {
    if n >= 10 {
      assert k != 1;
      assert Pow10(k) == 10 * Pow10(k - 1);
      DigitsLength(n / 10, k - 1);
    }
  }

  lemma {:induction false} NatOfConcat(a: string, b: string)
    requires AllDigits(a) && AllDigits(b)
    ensures AllDigits(a + b)
    ensures NatOf(a + b) == NatOf(a) * Pow10(|b|) + NatOf(b)
  {
    if b == "" {
      assert a + b == a;
    } else {
      var c, last := b[..|b| - 1], b[|b| - 1];
      NatOfConcat(a, c);
      var s := a + b;
      assert s[..|s| - 1] == a + c && s[|s| - 1] == last;
      TenfoldShift(NatOf(a), Pow10(|c|), NatOf(c));
      assert Pow10(|b|) == 10 * Pow10(|c|);
    }
  }

  lemma TenfoldShift(a: int, p: int, c: int)
    ensures 10 * (a * p + c) == a * (10 * p) + 10 * c
  {
  }

  function Zeros(n: nat): (s: string)
    ensures |s| == n && AllDigits(s)
  {
    seq(n, _ => '0')
  }

  lemma {:induction false} NatOfZeros(n: nat)
    ensures NatOf(Zeros(n)) == 0
  {
    if n > 0 {
      NatOfZeros(n - 1);
      assert Zeros(n)[..n - 1] == Zeros(n - 1);
    }
  }

  /** `s` with zeros in front, at least `width` characters long. */
  function PadLeft(s: string, width: nat): (r: string)
    ensures |r| >= width && |r| >= |s|
  {
    if |s| >= width then s else Zeros(width - |s|) + s
  }

  lemma NatOfPadLeft(s: string, width: nat)
    requires AllDigits(s)
    ensures AllDigits(PadLeft(s, width)) && NatOf(PadLeft(s, width)) == NatOf(s)
  {
    if |s| < width {
      NatOfZeros(width - |s|);
      NatOfConcat(Zeros(width - |s|), s);
    }
  }

  // ---- character-wise editing ----

  /** Every `from` becomes `to`. */
  function ReplaceAll(s: string, from: char, to: char): (r: string) {
    if s == "" then "" else [if s[0] == from then to else s[0]] + ReplaceAll(s[1..], from, to)
  }

  /** Every `c` disappears. */
  function Remove(s: string, c: char): (r: string) {
    if s == "" then "" else if s[0] == c then Remove(s[1..], c) else [s[0]] + Remove(s[1..], c)
  }

  /** Only the first `from` becomes `to`. */
  function ReplaceFirst(s: string, from: char, to: char): (r: string) {
    if s == "" then "" else if s[0] == from then [to] + s[1..] else [s[0]] + ReplaceFirst(s[1..], from, to)
  }

  lemma {:induction false} RemoveConcat(a: string, b: string, c: char)
    ensures Remove(a + b, c) == Remove(a, c) + Remove(b, c)
  {
    if a == "" {
      assert a + b == b;
    } else {
      var s := a + b;
      assert s[0] == a[0] && s[1..] == a[1..] + b;
      RemoveConcat(a[1..], b, c);
      if a[0] != c {
        assert Remove(s, c) == [a[0]] + (Remove(a[1..], c) + Remove(b, c));
      }
    }
  }

  lemma {:induction false} RemoveAbsent(s: string, c: char)
    requires c !in s
    ensures Remove(s, c) == s
  {
    if s != "" {
      RemoveAbsent(s[1..], c);
    }
  }

  lemma {:induction false} ReplaceFirstConcat(a: string, b: string, from: char, to: char)
    requires from !in a
    ensures ReplaceFirst(a + b, from, to) == a + ReplaceFirst(b, from, to)
  {
    if a == "" {
      assert a + b == b;
    } else {
      ReplaceFirstConcat(a[1..], b, from, to);
      assert (a + b)[1..] == a[1..] + b;
    }
  }

  // ---- order ----

  /** Strings in code-point order, as Python compares them. */
  predicate LexLeq(a: string, b: string) {
    a == "" || (b != "" && (a[0] < b[0] || (a[0] == b[0] && LexLeq(a[1..], b[1..]))))
  }

  lemma {:induction false} LexTotal(a: string, b: string)
    ensures LexLeq(a, b) || LexLeq(b, a)
  {
    if a != "" && b != "" && a[0] == b[0] { LexTotal(a[1..], b[1..]); }
  }

  lemma {:induction false} LexTransitive(a: string, b: string, c: string)
    requires LexLeq(a, b) && LexLeq(b, c)
    ensures LexLeq(a, c)
  {
    if a != "" && a[0] == b[0] && b[0] == c[0] { LexTransitive(a[1..], b[1..], c[1..]); }
  }
}
