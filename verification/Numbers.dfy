/**
 * How the course prints a number for a locale, and how the app reads one back.
 *
 * Printing belongs to the server, reading to the client; each has its own idea of a locale's separators.
 * A Decimal is its exact coefficient and exponent. The client's numbers are idealised as reals.
 */
module Numbers {
  import opened Text
  import opened Sequences

  datatype Dec = Dec(coeff: int, exp: int)

  function Abs(n: int): (r: nat) {
    if n < 0 then -n else n
  }

  /** Decimal places to print: exactly the ones the value carries. */
  function Places(d: Dec): (p: nat) {
    if d.exp < 0 then -d.exp else 0
  }

  /** The coefficient once a positive exponent is written out. */
  function Written(d: Dec): (n: int) {
    if d.exp > 0 then d.coeff * Pow10(d.exp) else d.coeff
  }

  /** Ten to the minus `k`. */
  function Tenth(k: nat): (t: real)
    ensures t > 0.0
  {
    if k == 0 then 1.0 else Tenth(k - 1) / 10.0
  }

  /** `n` units of ten to the minus `k`. */
  function Units(n: int, k: nat): (v: real) {
    n as real * Tenth(k)
  }

  function Value(d: Dec): (v: real) {
    Units(Written(d), Places(d))
  }

  lemma Cancel(x: real, y: real, t: real)
    requires t > 0.0 && x * t == y * t
    ensures x == y
  {
    assert (x - y) * t == 0.0;
  }

  lemma Associate(x: real, y: real, z: real)
    ensures x * (y * z) == (x * y) * z
  {
  }

  lemma UnitsInjective(a: int, b: int, k: nat)
    ensures Units(a, k) == Units(b, k) <==> a == b
  {
    if Units(a, k) == Units(b, k) { Cancel(a as real, b as real, Tenth(k)); }
  }

  lemma {:induction false} TenthRescaled(j: nat, more: nat)
    ensures Tenth(j) == Pow10(more) as real * Tenth(j + more)
  {
    if more > 0 {
      TenthRescaled(j, more - 1);
      assert Tenth(j + more) == Tenth(j + (more - 1)) / 10.0;
      TenfoldTenth(Pow10(more - 1), Tenth(j + (more - 1)));
    }
  }

  lemma TenfoldTenth(p: int, t: real)
    ensures p as real * t == (10 * p) as real * (t / 10.0)
  {
    assert (10 * p) as real == 10.0 * p as real;
    Associate(p as real, 10.0, t / 10.0);
  }

  lemma UnitsRescaled(n: int, j: nat, more: nat)
    ensures Units(n, j) == Units(n * Pow10(more), j + more)
  {
    TenthRescaled(j, more);
    Associate(n as real, Pow10(more) as real, Tenth(j + more));
    assert (n * Pow10(more)) as real == n as real * Pow10(more) as real;
  }

  // ---- printing ----

  function Grouped(digits: string, sep: char): (s: string) {
    if |digits| <= 3 then digits
    else Grouped(digits[..|digits| - 3], sep) + [sep] + digits[|digits| - 3..]
  }

  /** All digits of the number, enough of them to fill the decimal places and one more. */
  function AllDigitsOf(d: Dec): (s: string)
    ensures AllDigits(s) && |s| > Places(d) && NatOf(s) == Abs(Written(d))
  {
    NatOfDigits(Abs(Written(d)));
    NatOfPadLeft(Digits(Abs(Written(d))), Places(d) + 1);
    PadLeft(Digits(Abs(Written(d))), Places(d) + 1)
  }

  function WholePart(d: Dec): (s: string)
    ensures AllDigits(s) && s != ""
  {
    AllDigitsOf(d)[..|AllDigitsOf(d)| - Places(d)]
  }

  function FractionPart(d: Dec): (s: string)
    ensures AllDigits(s) && |s| == Places(d)
    ensures WholePart(d) + s == AllDigitsOf(d)
  {
    AllDigitsOf(d)[|AllDigitsOf(d)| - Places(d)..]
  }

  function Sign(d: Dec): (s: string) {
    if d.coeff < 0 then "-" else ""
  }

  /** Sign, grouped whole part, and the fraction after the decimal mark where there is one. */
  function Layout(sign: string, whole: string, fraction: string, thousands: char, decimal: char): (s: string) {
    sign + Grouped(whole, thousands) + Tail(fraction, decimal)
  }

  function Tail(fraction: string, decimal: char): (s: string) {
    if fraction != "" then [decimal] + fraction else ""
  }

  /** The number laid out with given separators. */
  function Laid(d: Dec, thousands: char, decimal: char): (s: string) {
    Layout(Sign(d), WholePart(d), FractionPart(d), thousands, decimal)
  }

  datatype Separators = Separators(thousands: char, decimal: char)

  /** The server's table: Spanish is the exact code `es`, everything else prints as English. */
  function ServerSeparators(locale: string): (s: Separators) {
    if locale == "es" then Separators('.', ',') else Separators(',', '.')
  }

  /** Three replacements in a row, the middle one through a placeholder. */
  function SwapSeparators(text: string, s: Separators): (r: string) {
    ReplaceAll(ReplaceAll(ReplaceAll(text, ',', '\0'), '.', s.decimal), '\0', s.thousands)
  }

  function FormatNumber(d: Dec, locale: string): (s: string) {
    SwapSeparators(Laid(d, ',', '.'), ServerSeparators(locale))
  }

  // ---- the placeholder swap is one simultaneous swap ----

  function SwapChar(c: char, s: Separators): (r: char) {
    if c == ',' then s.thousands else if c == '.' then s.decimal else c
  }

  function SwapAtOnce(text: string, s: Separators): (r: string) {
    seq(|text|, i requires 0 <= i < |text| => SwapChar(text[i], s))
  }

  predicate Printable(s: Separators) {
    s == Separators(',', '.') || s == Separators('.', ',')
  }

  lemma {:induction false} ThreeStepsPointwise(text: string, s: Separators)
    requires Printable(s)
    ensures |SwapSeparators(text, s)| == |text|
    ensures forall i :: 0 <= i < |text| ==>
      SwapSeparators(text, s)[i] == (if text[i] == '\0' then s.thousands else SwapChar(text[i], s))
  {
    if text != "" {
      ThreeStepsPointwise(text[1..], s);
      var one := ReplaceAll(text, ',', '\0');
      assert one[1..] == ReplaceAll(text[1..], ',', '\0');
      var two := ReplaceAll(one, '.', s.decimal);
      assert two[1..] == ReplaceAll(one[1..], '.', s.decimal);
      assert SwapSeparators(text, s)[1..] == SwapSeparators(text[1..], s);
      forall i | 0 < i < |text|
        ensures SwapSeparators(text, s)[i] == (if text[i] == '\0' then s.thousands else SwapChar(text[i], s))
      {
        assert text[i] == text[1..][i - 1];
        assert SwapSeparators(text, s)[i] == SwapSeparators(text, s)[1..][i - 1];
      }
    }
  }

  /** The three-step replacement is the simultaneous swap on exactly the texts free of the placeholder. */
  lemma ThreeStepsSwapAtOnce(text: string, s: Separators)
    requires Printable(s)
    ensures SwapSeparators(text, s) == SwapAtOnce(text, s) <==> '\0' !in text
  {
    ThreeStepsPointwise(text, s);
    if '\0' in text {
      var i :| 0 <= i < |text| && text[i] == '\0';
      assert SwapSeparators(text, s)[i] != SwapAtOnce(text, s)[i];
    }
  }

  lemma SwapConcat(a: string, b: string, s: Separators)
    ensures SwapAtOnce(a + b, s) == SwapAtOnce(a, s) + SwapAtOnce(b, s)
  {
  }

  lemma SwapDigits(a: string, s: Separators)
    requires AllDigits(a)
    ensures SwapAtOnce(a, s) == a
  {
  }

  lemma {:induction false} GroupedChars(digits: string, sep: char)
    requires AllDigits(digits)
    ensures forall c :: c in Grouped(digits, sep) ==> IsDigit(c) || c == sep
    ensures digits != "" ==> Grouped(digits, sep) != ""
    ensures digits != "" ==> IsDigit(Grouped(digits, sep)[0])
    ensures digits != "" ==> IsDigit(Grouped(digits, sep)[|Grouped(digits, sep)| - 1])
  {
    if |digits| > 3 {
      GroupedChars(digits[..|digits| - 3], sep);
    }
  }

  lemma {:induction false} SwapGrouped(digits: string, s: Separators)
    requires AllDigits(digits)
    ensures SwapAtOnce(Grouped(digits, ','), s) == Grouped(digits, s.thousands)
  {
    if |digits| <= 3 {
      SwapDigits(digits, s);
    } else {
      var front, back := digits[..|digits| - 3], digits[|digits| - 3..];
      SwapGrouped(front, s);
      SwapDigits(back, s);
      SwapConcat(Grouped(front, ',') + ",", back, s);
      SwapConcat(Grouped(front, ','), ",", s);
    }
  }

  predicate IsSign(sign: string) {
    sign == "" || sign == "-"
  }

  lemma SwapLayout(sign: string, whole: string, fraction: string, s: Separators)
    requires IsSign(sign) && AllDigits(whole) && AllDigits(fraction)
    ensures SwapAtOnce(Layout(sign, whole, fraction, ',', '.'), s)
         == Layout(sign, whole, fraction, s.thousands, s.decimal)
  {
    SwapConcat(sign + Grouped(whole, ','), Tail(fraction, '.'), s);
    SwapConcat(sign, Grouped(whole, ','), s);
    assert SwapAtOnce(sign, s) == sign;
    SwapGrouped(whole, s);
    SwapTail(fraction, s);
  }

  lemma SwapTail(fraction: string, s: Separators)
    requires AllDigits(fraction)
    ensures SwapAtOnce(Tail(fraction, '.'), s) == Tail(fraction, s.decimal)
  {
    SwapConcat(".", fraction, s);
    SwapDigits(fraction, s);
  }

  lemma NoPlaceholder(sign: string, whole: string, fraction: string)
    requires IsSign(sign) && AllDigits(whole) && AllDigits(fraction)
    ensures '\0' !in Layout(sign, whole, fraction, ',', '.')
  {
    GroupedChars(whole, ',');
    assert '\0' !in Grouped(whole, ',') && '\0' !in sign && '\0' !in Tail(fraction, '.');
  }

  /** What a locale prints is the English text with the two separators exchanged: no digit differs. */
  lemma FormatIsLaid(d: Dec, locale: string)
    ensures FormatNumber(d, locale)
         == Laid(d, ServerSeparators(locale).thousands, ServerSeparators(locale).decimal)
  {
    NoPlaceholder(Sign(d), WholePart(d), FractionPart(d));
    ThreeStepsSwapAtOnce(Laid(d, ',', '.'), ServerSeparators(locale));
    SwapLayout(Sign(d), WholePart(d), FractionPart(d), ServerSeparators(locale));
  }

  // ---- what a printed number looks like ----

  /** Read from its end, every fourth character of a grouped numeral is the separator, the others digits. */
  lemma {:induction false} GroupsOfThree(digits: string, sep: char, j: nat)
    requires AllDigits(digits) && !IsDigit(sep) && j < |Grouped(digits, sep)|
    ensures
      var c := Grouped(digits, sep)[|Grouped(digits, sep)| - 1 - j];
      if j % 4 == 3 then c == sep else IsDigit(c)
    decreases |digits|
  {
    if |digits| > 3 && j >= 4 { GroupsOfThree(digits[..|digits| - 3], sep, j - 4); }
  }

  lemma {:induction false} FirstOfGrouped(digits: string, sep: char)
    requires digits != ""
    ensures Grouped(digits, sep) != "" && Grouped(digits, sep)[0] == digits[0]
    ensures |Grouped(digits, sep)| >= |digits| && (|digits| == 1 ==> |Grouped(digits, sep)| == 1)
  {
    if |digits| > 3 { FirstOfGrouped(digits[..|digits| - 3], sep); }
  }

  lemma {:induction false} NoLeadingZero(n: nat)
    ensures if n < 10 then |Digits(n)| == 1 else Digits(n)[0] != '0'
  {
    if n >= 10 {
      NoLeadingZero(n / 10);
      assert Digits(n)[0] == Digits(n / 10)[0];
      if n < 100 { assert DigitValue(DigitChar(n / 10)) != 0; }
    }
  }

  lemma WholeWithoutLeadingZero(d: Dec)
    ensures WholePart(d)[0] == '0' ==> |WholePart(d)| == 1
  {
    NoLeadingZero(Abs(Written(d)));
  }

  /** Digits in threes, parted by the thousands mark, up to the last `tail` characters. */
  predicate InThrees(t: string, sign: nat, tail: nat, thousands: char) {
    forall j :: 0 <= j < |t| - tail - sign ==>
      var c := t[|t| - tail - 1 - j]; if j % 4 == 3 then c == thousands else IsDigit(c)
  }

  /** After them the decimal mark and so many decimals, or nothing where there are none. */
  predicate EndsIn(t: string, places: nat, decimal: char) {
    && |t| > places && (forall j :: |t| - places <= j < |t| ==> IsDigit(t[j]))
    && (places > 0 ==> t[|t| - places - 1] == decimal)
  }

  /** How many characters the decimal mark and the decimals take. */
  function TailLength(places: nat): (n: nat) {
    if places == 0 then 0 else places + 1
  }

  lemma LaidInThrees(sign: string, whole: string, f: string, sep: char)
    requires AllDigits(whole) && !IsDigit(sep)
    ensures InThrees(sign + Grouped(whole, sep) + f, |sign|, |f|, sep)
  {
    var (g, t) := (Grouped(whole, sep), sign + Grouped(whole, sep) + f);
    forall j | 0 <= j < |t| - |f| - |sign|
      ensures var c := t[|t| - |f| - 1 - j]; if j % 4 == 3 then c == sep else IsDigit(c)
    {
      GroupsOfThree(whole, sep, j);
      assert t[|t| - |f| - 1 - j] == g[|g| - 1 - j];
    }
  }

  lemma LaidEndsIn(front: string, fraction: string, decimal: char)
    requires AllDigits(fraction) && front != ""
    ensures EndsIn(front + Tail(fraction, decimal), |fraction|, decimal)
  {
    var t := front + Tail(fraction, decimal);
    forall j | |t| - |fraction| <= j < |t| ensures IsDigit(t[j]) {
      assert t[j] == fraction[j - (|t| - |fraction|)];
    }
  }

  /**
   * A minus exactly for a negative number; as many decimals as the value carries, after the decimal mark
   * where there are any; digits in threes before it, parted by the thousands mark, and no idle zero in front.
   */
  lemma PrintedShape(d: Dec, locale: string)
    ensures
      var (t, marks, sign) := (FormatNumber(d, locale), ServerSeparators(locale), if d.coeff < 0 then 1 else 0);
      && |t| > sign + TailLength(Places(d)) && (t[0] == '-' <==> d.coeff < 0)
      && InThrees(t, sign, TailLength(Places(d)), marks.thousands) && EndsIn(t, Places(d), marks.decimal)
      && (t[sign] == '0' ==> |t| == sign + 1 + TailLength(Places(d)))
  {
    var (marks, whole, fraction) := (ServerSeparators(locale), WholePart(d), FractionPart(d));
    FormatIsLaid(d, locale);
    FirstOfGrouped(whole, marks.thousands);
    WholeWithoutLeadingZero(d);
    LaidInThrees(Sign(d), whole, Tail(fraction, marks.decimal), marks.thousands);
    LaidEndsIn(Sign(d) + Grouped(whole, marks.thousands), fraction, marks.decimal);
  }

  // ---- reading back ----

  predicate IsSpace(c: char) {
    c == ' ' || '\t' <= c <= '\r' || c == '\U{00A0}' || c == '\U{FEFF}' || c == '\U{1680}'
    || '\U{2000}' <= c <= '\U{200A}' || c == '\U{2028}' || c == '\U{2029}' || c == '\U{202F}'
    || c == '\U{205F}' || c == '\U{3000}'
  }

  function TrimStart(s: string): (r: string) {
    if s != "" && IsSpace(s[0]) then TrimStart(s[1..]) else s
  }

  function TrimEnd(s: string): (r: string) {
    if s != "" && IsSpace(s[|s| - 1]) then TrimEnd(s[..|s| - 1]) else s
  }

  predicate StartsWithEs(locale: string) {
    "es" <= locale
  }

  /** The client's table: every locale that begins with `es` reads as Spanish. */
  function ClientSeparators(locale: string): (s: Separators) {
    if StartsWithEs(locale) then Separators('.', ',') else Separators(',', '.')
  }

  /** An unsigned numeral: digits, optionally a point, and at least one digit at the end. */
  function Unsigned(s: string): (r: Option<(string, string)>)
    ensures r.Some? ==> AllDigits(r.value.0) && AllDigits(r.value.1)
  {
    var i := IndexOf(s, '.');
    if i == |s| then
      if s != "" && AllDigits(s) then Some((s, "")) else None
    else if AllDigits(s[..i]) && AllDigits(s[i + 1..]) && s[i + 1..] != "" then
      Some((s[..i], s[i + 1..]))
    else None
  }

  function Signed(negative: bool, n: int): (r: int) {
    if negative then -n else n
  }

  /** The number with these digits, the last of them `|fraction|` places down. */
  function Denoted(negative: bool, whole: string, fraction: string): (v: real)
    requires AllDigits(whole) && AllDigits(fraction)
  {
    Units(Signed(negative, NatOf(whole + fraction)), |fraction|)
  }

  /** The number a cleaned text denotes, `None` standing for NaN. */
  function NumberOf(s: string): (r: Option<real>) {
    var signed := s != "" && (s[0] == '-' || s[0] == '+');
    match Unsigned(if signed then s[1..] else s)
    case None => None
    case Some((whole, fraction)) => Some(Denoted(signed && s[0] == '-', whole, fraction))
  }

  function ParseLocalized(text: string, locale: string): (r: Option<real>) {
    var s := ClientSeparators(locale);
    NumberOf(ReplaceFirst(Remove(TrimEnd(TrimStart(text)), s.thousands), s.decimal, '.'))
  }

  // ---- the round trip ----

  lemma {:induction false} UngroupGrouped(digits: string, sep: char)
    requires AllDigits(digits) && !IsDigit(sep)
    ensures Remove(Grouped(digits, sep), sep) == digits
  {
    if |digits| <= 3 {
      RemoveAbsent(digits, sep);
    } else {
      var front, back := digits[..|digits| - 3], digits[|digits| - 3..];
      UngroupGrouped(front, sep);
      RemoveBetween(Grouped(front, sep), back, sep);
      assert front + back == digits;
    }
  }

  lemma RemoveBetween(a: string, b: string, c: char)
    requires c !in b
    ensures Remove(a + [c] + b, c) == Remove(a, c) + b
  {
    RemoveConcat(a + [c], b, c);
    RemoveConcat(a, [c], c);
    RemoveAbsent(b, c);
    assert [c][1..] == "";
  }

  lemma LayoutNeedsNoTrim(sign: string, whole: string, fraction: string, s: Separators)
    requires IsSign(sign) && AllDigits(whole) && AllDigits(fraction) && whole != ""
    ensures var text := Layout(sign, whole, fraction, s.thousands, s.decimal);
      TrimEnd(TrimStart(text)) == text
  {
    GroupedChars(whole, s.thousands);
    var text := Layout(sign, whole, fraction, s.thousands, s.decimal);
    assert text != "" && !IsSpace(text[0]);
    assert !IsSpace(text[|text| - 1]);
  }

  /** The plain numeral: sign, digits, and a point where the fraction starts. */
  function Plain(sign: string, whole: string, fraction: string): (s: string) {
    sign + whole + Tail(fraction, '.')
  }

  lemma CleaningUndoesLayout(sign: string, whole: string, fraction: string, s: Separators)
    requires Printable(s) && IsSign(sign) && AllDigits(whole) && AllDigits(fraction)
    ensures ReplaceFirst(Remove(Layout(sign, whole, fraction, s.thousands, s.decimal), s.thousands), s.decimal, '.')
         == Plain(sign, whole, fraction)
  {
    var tail := Tail(fraction, s.decimal);
    RemoveConcat(sign + Grouped(whole, s.thousands), tail, s.thousands);
    RemoveConcat(sign, Grouped(whole, s.thousands), s.thousands);
    RemoveAbsent(sign, s.thousands);
    UngroupGrouped(whole, s.thousands);
    RemoveAbsent(tail, s.thousands);
    assert s.decimal !in sign + whole;
    ReplaceFirstConcat(sign + whole, tail, s.decimal, '.');
  }

  lemma {:induction false} IndexAfterDigits(a: string, b: string)
    requires AllDigits(a)
    ensures IndexOf(a + b, '.') == |a| + IndexOf(b, '.')
  {
    if a == "" {
      assert a + b == b;
    } else {
      IndexAfterDigits(a[1..], b);
      assert (a + b)[1..] == a[1..] + b;
    }
  }

  lemma UnsignedPlain(whole: string, fraction: string)
    requires AllDigits(whole) && AllDigits(fraction) && whole != ""
    ensures Unsigned(whole + Tail(fraction, '.')) == Some((whole, fraction))
  {
    IndexAfterDigits(whole, Tail(fraction, '.'));
    var s := whole + Tail(fraction, '.');
    if fraction == "" {
      assert s == whole;
    } else {
      assert s[..|whole|] == whole && s[|whole| + 1..] == fraction;
    }
  }

  /** A plain numeral denotes its digits, as many places down as its fraction is long. */
  lemma PlainDenotes(sign: string, whole: string, fraction: string, digits: string)
    requires IsSign(sign) && AllDigits(whole) && AllDigits(fraction) && whole != ""
    requires digits == whole + fraction && AllDigits(digits)
    ensures NumberOf(Plain(sign, whole, fraction))
         == Some(Units(Signed(sign == "-", NatOf(digits)), |fraction|))
  {
    UnsignedPlain(whole, fraction);
    var rest := whole + Tail(fraction, '.');
    PlainSplit(sign, whole, fraction);
    assert rest[0] == whole[0];
    NumberOfSigned(sign, rest, whole, fraction);
  }

  lemma PlainSplit(sign: string, whole: string, fraction: string)
    ensures Plain(sign, whole, fraction) == sign + (whole + Tail(fraction, '.'))
  {
  }

  lemma NumberOfSigned(sign: string, rest: string, whole: string, fraction: string)
    requires IsSign(sign) && rest != "" && IsDigit(rest[0])
    requires AllDigits(whole) && AllDigits(fraction) && Unsigned(rest) == Some((whole, fraction))
    ensures NumberOf(sign + rest) == Some(Denoted(sign == "-", whole, fraction))
  {
    if sign == "-" {
      assert (sign + rest)[1..] == rest;
    } else {
      assert sign + rest == rest;
    }
  }

  lemma WrittenSign(d: Dec)
    ensures d.coeff < 0 ==> Written(d) < 0
    ensures d.coeff > 0 ==> Written(d) > 0
    ensures d.coeff == 0 ==> Written(d) == 0
  {
    if d.exp > 0 && d.coeff != 0 {
      SignOfProduct(d.coeff, Pow10(d.exp));
    }
  }

  lemma SignOfProduct(a: int, b: int)
    requires b > 0
    ensures a < 0 ==> a * b < 0
    ensures a > 0 ==> a * b > 0
  {
  }

  /** The client reads with the separators the server printed with. */
  predicate Agree(printed: string, read: string) {
    ServerSeparators(printed) == ClientSeparators(read)
  }

  /** Reading with the separators of the printer gives the number back. */
  lemma RoundTrip(d: Dec, printed: string, read: string)
    requires Agree(printed, read)
    ensures ParseLocalized(FormatNumber(d, printed), read) == Some(Value(d))
  {
    FormatIsLaid(d, printed);
    WrittenSign(d);
    LayoutRoundTrip(Sign(d), WholePart(d), FractionPart(d), AllDigitsOf(d), read);
  }

  lemma LayoutRoundTrip(sign: string, whole: string, fraction: string, digits: string, locale: string)
    requires IsSign(sign) && AllDigits(whole) && AllDigits(fraction) && whole != ""
    requires digits == whole + fraction && AllDigits(digits)
    ensures var s := ClientSeparators(locale);
      ParseLocalized(Layout(sign, whole, fraction, s.thousands, s.decimal), locale)
      == Some(Units(Signed(sign == "-", NatOf(digits)), |fraction|))
  {
    var s := ClientSeparators(locale);
    LayoutNeedsNoTrim(sign, whole, fraction, s);
    CleaningUndoesLayout(sign, whole, fraction, s);
    PlainDenotes(sign, whole, fraction, digits);
  }

  /** At one scale, different numbers print differently: no two option labels look the same. */
  lemma PrinterInjective(a: Dec, b: Dec, locale: string)
    requires a.exp == b.exp
    ensures FormatNumber(a, locale) == FormatNumber(b, locale) <==> a == b
  {
    if FormatNumber(a, locale) == FormatNumber(b, locale) {
      var code := if locale == "es" then "es" else "en";
      assert FormatNumber(a, code) == FormatNumber(b, code);
      RoundTrip(a, code, code);
      RoundTrip(b, code, code);
      ValueInjective(a, b);
    }
  }

  lemma ValueInjective(a: Dec, b: Dec)
    requires a.exp == b.exp && Value(a) == Value(b)
    ensures a == b
  {
    UnitsInjective(Written(a), Written(b), Places(a));
    if a.exp > 0 { SameFactor(a.coeff, b.coeff, Pow10(a.exp)); }
  }

  lemma SameFactor(a: int, b: int, p: int)
    requires p > 0 && a * p == b * p
    ensures a == b
  {
    if a != b {
      SignOfProduct(a - b, p);
    }
  }

  // ---- where server and client disagree about the separators ----

  /**
   * Text read with its two separators exchanged: the decimal mark vanishes, and the first thousands
   * separator becomes the point.
   */
  function Misread(sign: string, whole: string, fraction: string, thousands: char): (s: string) {
    ReplaceFirst(sign + Grouped(whole, thousands) + fraction, thousands, '.')
  }

  lemma MisreadIsWhatHappens(d: Dec, printed: string, read: string)
    requires !Agree(printed, read)
    ensures ParseLocalized(FormatNumber(d, printed), read)
         == NumberOf(Misread(Sign(d), WholePart(d), FractionPart(d), ServerSeparators(printed).thousands))
  {
    FormatIsLaid(d, printed);
    LayoutNeedsNoTrim(Sign(d), WholePart(d), FractionPart(d), ServerSeparators(printed));
    LosePoint(Sign(d), WholePart(d), FractionPart(d), ServerSeparators(printed));
  }

  lemma LosePoint(sign: string, whole: string, fraction: string, s: Separators)
    requires Printable(s) && IsSign(sign) && AllDigits(whole) && AllDigits(fraction)
    ensures Remove(Layout(sign, whole, fraction, s.thousands, s.decimal), s.decimal)
         == sign + Grouped(whole, s.thousands) + fraction
  {
    GroupedChars(whole, s.thousands);
    var front := sign + Grouped(whole, s.thousands);
    RemoveConcat(front, Tail(fraction, s.decimal), s.decimal);
    RemoveAbsent(front, s.decimal);
    RemoveConcat([s.decimal], fraction, s.decimal);
    RemoveAbsent(fraction, s.decimal);
    assert [s.decimal][1..] == "";
    assert Remove(Tail(fraction, s.decimal), s.decimal) == fraction;
  }

  predicate IsMark(c: char) {
    c == ',' || c == '.'
  }

  /** Short numbers carry no thousands separator, so only the lost point matters. */
  lemma MisreadShort(sign: string, whole: string, fraction: string, digits: string, t: char)
    requires IsMark(t) && IsSign(sign) && AllDigits(whole) && AllDigits(fraction) && 0 < |whole| <= 3
    requires digits == whole + fraction && AllDigits(digits)
    ensures NumberOf(Misread(sign, whole, fraction, t)) == Some(Units(Signed(sign == "-", NatOf(digits)), 0))
  {
    MisreadShortIsPlain(sign, whole, fraction, digits, t);
    assert digits == digits + "";
    PlainDenotes(sign, digits, "", digits);
  }

  lemma MisreadShortIsPlain(sign: string, whole: string, fraction: string, digits: string, t: char)
    requires IsMark(t) && IsSign(sign) && |whole| <= 3 && digits == whole + fraction && AllDigits(digits)
    ensures Misread(sign, whole, fraction, t) == Plain(sign, digits, "")
  {
    assert sign + Grouped(whole, t) + fraction == (sign + digits) + "";
    assert t !in sign + digits;
    ReplaceFirstConcat(sign + digits, "", t, '.');
  }

  /** With one thousands separator, the thousands end up in front of the point. */
  lemma MisreadThousands(sign: string, front: string, back: string, fraction: string, digits: string, t: char)
    requires IsMark(t) && IsSign(sign) && AllDigits(front) && AllDigits(back) && AllDigits(fraction)
    requires |back| == 3 && 0 < |front| <= 3
    requires digits == front + (back + fraction) && AllDigits(digits)
    ensures NumberOf(Misread(sign, front + back, fraction, t))
         == Some(Units(Signed(sign == "-", NatOf(digits)), 3 + |fraction|))
  {
    MisreadAsPlain(sign, front, back, fraction, t);
    PlainDenotes(sign, front, back + fraction, digits);
  }

  lemma MisreadAsPlain(sign: string, front: string, back: string, fraction: string, t: char)
    requires IsMark(t) && IsSign(sign) && AllDigits(front) && AllDigits(back) && AllDigits(fraction)
    requires |back| == 3 && 0 < |front| <= 3
    ensures Misread(sign, front + back, fraction, t) == Plain(sign, front, back + fraction)
  {
    var whole, after := front + back, back + fraction;
    assert whole[..|whole| - 3] == front && whole[|whole| - 3..] == back;
    assert sign + Grouped(whole, t) + fraction == (sign + front) + ([t] + after);
    assert t !in sign + front;
    ReplaceFirstConcat(sign + front, [t] + after, t, '.');
    assert ([t] + after)[1..] == after;
  }

  /** A point, and later the mark `t`. */
  ghost predicate PointThen(s: string, t: char) {
    exists i, j :: 0 <= i < j < |s| && s[i] == '.' && s[j] == t
  }

  /** Replacing the first of two marks leaves a point, and the other mark behind it. */
  lemma {:induction false} ReplaceFirstLeavesTwo(a: string, b: string, t: char)
    requires t in a && t in b
    ensures PointThen(ReplaceFirst(a + b, t, '.'), t)
    decreases |a|
  {
    var r := ReplaceFirst(a + b, t, '.');
    assert (a + b)[1..] == a[1..] + b;
    if a[0] == t {
      var k :| 0 <= k < |b| && b[k] == t;
      assert r == "." + (a[1..] + b);
      assert r[0] == '.' && r[|a| + k] == t;
    } else {
      ReplaceFirstLeavesTwo(a[1..], b, t);
      var rest := ReplaceFirst(a[1..] + b, t, '.');
      var i, j :| 0 <= i < j < |rest| && rest[i] == '.' && rest[j] == t;
      assert r == [a[0]] + rest;
      var p, q := i + 1, j + 1;
      assert 0 <= p < q < |r| && r[p] == '.' && r[q] == t;
    }
  }

  /** With two thousands separators or more, one is left over, and the text is no number. */
  lemma MisreadMillions(sign: string, whole: string, fraction: string, t: char)
    requires IsMark(t) && IsSign(sign) && AllDigits(whole) && AllDigits(fraction) && |whole| > 6
    ensures NumberOf(Misread(sign, whole, fraction, t)).None?
  {
    var front, back := whole[..|whole| - 3], whole[|whole| - 3..];
    var a, b := sign + Grouped(front, t), [t] + back + fraction;
    assert sign + Grouped(whole, t) + fraction == a + b;
    assert Grouped(front, t)[|Grouped(front[..|front| - 3], t)|] == t;
    assert t in a;
    assert b[0] == t;
    ReplaceFirstLeavesTwo(a, b, t);
    var r := Misread(sign, whole, fraction, t);
    var i, j :| 0 <= i < j < |r| && r[i] == '.' && r[j] == t;
    MarkBehindPoint(r, i, j);
  }

  /** A numeral has no mark behind its point. */
  lemma MarkBehindPoint(s: string, i: nat, j: nat)
    requires i < j < |s| && s[i] == '.' && IsMark(s[j])
    ensures NumberOf(s).None?
  {
    if s[0] == '-' || s[0] == '+' {
      NotUnsigned(s[1..], i - 1, j - 1);
    } else {
      NotUnsigned(s, i, j);
    }
  }

  lemma NotUnsigned(s: string, i: nat, j: nat)
    requires i < j < |s| && s[i] == '.' && IsMark(s[j])
    ensures Unsigned(s).None?
  {
    var at := IndexOf(s, '.');
    assert at <= i;
    assert s[at + 1..][j - at - 1] == s[j];
  }

  lemma WholeLength(d: Dec)
    ensures |WholePart(d)| > 3 <==> Abs(Written(d)) >= Pow10(3 + Places(d))
  {
    var n, p := Abs(Written(d)), Places(d);
    if n < Pow10(3 + p) {
      DigitsLength(n, 3 + p);
    }
    if |WholePart(d)| <= 3 {
      NumeralBelow(AllDigitsOf(d));
      Pow10Monotone(|AllDigitsOf(d)|, 3 + p);
    }
  }

  lemma {:induction false} NumeralBelow(s: string)
    requires AllDigits(s)
    ensures NatOf(s) < Pow10(|s|)
  {
    if s != "" {
      NumeralBelow(s[..|s| - 1]);
    }
  }

  lemma Pow10Monotone(a: nat, b: nat)
    requires a <= b
    ensures Pow10(a) <= Pow10(b)
  {
    Pow10Sum(a, b - a);
    GrowsByFactor(Pow10(a), Pow10(b - a));
  }

  lemma GrowsByFactor(a: int, f: int)
    requires a >= 0 && f >= 1
    ensures a * f >= a
  {
  }

  lemma UnitsAtTwoScales(n: int, j: nat, k: nat)
    requires j < k
    ensures Units(n, j) == Units(n, k) <==> n == 0
  {
    UnitsRescaled(n, j, k - j);
    UnitsInjective(n * Pow10(k - j), n, k);
    FactorMoves(n, Pow10(k - j));
  }

  lemma FactorMoves(n: int, f: int)
    requires f >= 2
    ensures n * f == n <==> n == 0
  {
    if n != 0 { SignOfProduct(n, f - 1); }
  }

  /** A short misread number keeps its value only if it has no point to lose, or is zero. */
  lemma ShortMisreadMisses(sign: string, whole: string, fraction: string, digits: string, t: char)
    requires IsMark(t) && IsSign(sign) && AllDigits(whole) && AllDigits(fraction) && 0 < |whole| <= 3
    requires digits == whole + fraction && AllDigits(digits)
    ensures NumberOf(Misread(sign, whole, fraction, t)) == Some(Units(Signed(sign == "-", NatOf(digits)), |fraction|))
       <==> NatOf(digits) == 0 || |fraction| == 0
  {
    MisreadShort(sign, whole, fraction, digits, t);
    if |fraction| > 0 { UnitsAtTwoScales(Signed(sign == "-", NatOf(digits)), 0, |fraction|); }
  }

  /** A long one never does. */
  lemma LongMisreadMisses(sign: string, whole: string, fraction: string, digits: string, t: char)
    requires IsMark(t) && IsSign(sign) && AllDigits(whole) && AllDigits(fraction) && |whole| > 3
    requires digits == whole + fraction && AllDigits(digits) && NatOf(digits) != 0
    ensures NumberOf(Misread(sign, whole, fraction, t)) != Some(Units(Signed(sign == "-", NatOf(digits)), |fraction|))
  {
    if |whole| <= 6 {
      var front, back := whole[..|whole| - 3], whole[|whole| - 3..];
      Reassociate(whole, front, back, fraction);
      ThousandsMiss(sign, front, back, fraction, digits, t);
    } else {
      MisreadMillions(sign, whole, fraction, t);
    }
  }

  lemma ThousandsMiss(sign: string, front: string, back: string, fraction: string, digits: string, t: char)
    requires IsMark(t) && IsSign(sign) && AllDigits(front) && AllDigits(back) && AllDigits(fraction)
    requires |back| == 3 && 0 < |front| <= 3
    requires digits == front + (back + fraction) && AllDigits(digits) && NatOf(digits) != 0
    ensures NumberOf(Misread(sign, front + back, fraction, t))
         != Some(Units(Signed(sign == "-", NatOf(digits)), |fraction|))
  {
    MisreadThousands(sign, front, back, fraction, digits, t);
    UnitsAtTwoScales(Signed(sign == "-", NatOf(digits)), |fraction|, 3 + |fraction|);
  }

  lemma Reassociate(whole: string, front: string, back: string, fraction: string)
    requires |whole| > 3 && front == whole[..|whole| - 3] && back == whole[|whole| - 3..]
    ensures whole == front + back && whole + fraction == front + (back + fraction)
  {
  }

  lemma LongIsNotZero(d: Dec)
    ensures |WholePart(d)| > 3 ==> Abs(Written(d)) >= 1000
    ensures |WholePart(d)| <= 3 && d.exp >= 0 ==> Abs(Written(d)) < 1000
  {
    WholeLength(d);
    Pow10Monotone(3, 3 + Places(d));
    assert Pow10(3) == 1000;
  }

  /**
   * The round trip over the code the server prints in and the code the client reads with: it holds exactly
   * when the two agree on the separators, or the number prints without any, or it is zero.
   */
  lemma RoundTripExactly(d: Dec, printed: string, read: string)
    ensures ParseLocalized(FormatNumber(d, printed), read) == Some(Value(d))
       <==> Agree(printed, read) || d.coeff == 0 || (d.exp >= 0 && Abs(Written(d)) < 1000)
  {
    if Agree(printed, read) {
      RoundTrip(d, printed, read);
    } else {
      var sign, whole, fraction, digits := Sign(d), WholePart(d), FractionPart(d), AllDigitsOf(d);
      var t := ServerSeparators(printed).thousands;
      MisreadIsWhatHappens(d, printed, read);
      WrittenSign(d);
      LongIsNotZero(d);
      assert Written(d) == Signed(sign == "-", NatOf(digits));
      if |whole| <= 3 {
        ShortMisreadMisses(sign, whole, fraction, digits, t);
      } else {
        LongMisreadMisses(sign, whole, fraction, digits, t);
      }
    }
  }

  /** Up to six digits before the point, what is read is the number with its point moved. */
  lemma MisreadMovesThePoint(d: Dec, printed: string, read: string)
    requires !Agree(printed, read) && |WholePart(d)| <= 6
    ensures ParseLocalized(FormatNumber(d, printed), read)
         == Some(Units(Written(d), if |WholePart(d)| <= 3 then 0 else 3 + Places(d)))
  {
    var sign, whole, fraction, digits := Sign(d), WholePart(d), FractionPart(d), AllDigitsOf(d);
    var t := ServerSeparators(printed).thousands;
    MisreadIsWhatHappens(d, printed, read);
    WrittenSign(d);
    assert Written(d) == Signed(sign == "-", NatOf(digits));
    MisreadDenotes(sign, whole, fraction, digits, t);
  }

  lemma MisreadDenotes(sign: string, whole: string, fraction: string, digits: string, t: char)
    requires IsMark(t) && IsSign(sign) && AllDigits(whole) && AllDigits(fraction) && 0 < |whole| <= 6
    requires digits == whole + fraction && AllDigits(digits)
    ensures NumberOf(Misread(sign, whole, fraction, t))
         == Some(Units(Signed(sign == "-", NatOf(digits)), if |whole| <= 3 then 0 else 3 + |fraction|))
  {
    if |whole| <= 3 {
      MisreadShort(sign, whole, fraction, digits, t);
    } else {
      var front, back := whole[..|whole| - 3], whole[|whole| - 3..];
      Reassociate(whole, front, back, fraction);
      MisreadThousands(sign, front, back, fraction, digits, t);
    }
  }

  lemma LanguagesDisagree(printed: string, read: string)
    requires (printed == "es" && read == "en") || (printed == "en" && read == "es")
    ensures !Agree(printed, read)
  {
    assert "en"[1] == 'n' && "es"[1] == 's';
  }

  /** Between the two languages of the course one half reads as five, and 1234 as 1.234, both ways round. */
  lemma MisreadAcrossLanguages(printed: string, read: string, half: Dec, large: Dec)
    requires (printed == "es" && read == "en") || (printed == "en" && read == "es")
    requires half == Dec(5, -1) && large == Dec(1234, 0)
    ensures ParseLocalized(FormatNumber(half, printed), read) == Some(5.0) && Value(half) == 0.5
    ensures ParseLocalized(FormatNumber(large, printed), read) == Some(1.234) && Value(large) == 1234.0
  {
    LanguagesDisagree(printed, read);
    HalfMisread(half, printed, read);
    LargeMisread(large, printed, read);
  }

  lemma HalfMisread(d: Dec, printed: string, read: string)
    requires d == Dec(5, -1) && !Agree(printed, read)
    ensures ParseLocalized(FormatNumber(d, printed), read) == Some(5.0) && Value(d) == 0.5
  {
    DigitsOfExamples();
    UnitsOfExamples();
    PointMoved(d, printed, read, 5, 1, 0);
  }

  lemma LargeMisread(d: Dec, printed: string, read: string)
    requires d == Dec(1234, 0) && !Agree(printed, read)
    ensures ParseLocalized(FormatNumber(d, printed), read) == Some(1.234) && Value(d) == 1234.0
  {
    DigitsOfExamples();
    UnitsOfExamples();
    PointMoved(d, printed, read, 1234, 0, 3);
  }

  lemma PointMoved(d: Dec, printed: string, read: string, n: int, places: nat, moved: nat)
    requires !Agree(printed, read) && Written(d) == n && Places(d) == places && |WholePart(d)| <= 6
    requires moved == if |WholePart(d)| <= 3 then 0 else 3 + places
    ensures ParseLocalized(FormatNumber(d, printed), read) == Some(Units(n, moved)) && Value(d) == Units(n, places)
  {
    MisreadMovesThePoint(d, printed, read);
  }

  lemma DigitsOfExamples()
    ensures |WholePart(Dec(5, -1))| == 1 && Written(Dec(5, -1)) == 5 && Places(Dec(5, -1)) == 1
    ensures |WholePart(Dec(1234, 0))| == 4 && Written(Dec(1234, 0)) == 1234 && Places(Dec(1234, 0)) == 0
  {
    assert |Digits(5)| == 1;
    assert |Digits(12)| == |Digits(1)| + 1;
    assert |Digits(123)| == |Digits(12)| + 1;
    assert |Digits(1234)| == |Digits(123)| + 1;
  }

  lemma UnitsOfExamples()
    ensures Units(5, 0) == 5.0 && Units(5, 1) == 0.5 && Units(1234, 3) == 1.234 && Units(1234, 0) == 1234.0
  {
    assert Tenth(1) == 0.1 && Tenth(2) == 0.01 && Tenth(3) == 0.001;
  }

  // ---- percentages ----

  /** Decimal's `normalize`: trailing zeros move into the exponent, and zero is plain 0. */
  function Normalize(d: Dec): (r: Dec)
    decreases Abs(d.coeff)
  {
    if d.coeff == 0 then Dec(0, 0)
    else if d.coeff % 10 == 0 then Normalize(Dec(d.coeff / 10, d.exp + 1))
    else d
  }

  /** The fraction as a percentage without trailing zeros, a power of ten written out again. */
  function Percent(fraction: Dec): (r: Dec) {
    var percent := Normalize(Dec(fraction.coeff * 100, fraction.exp));
    if percent.exp > 0 then Dec(Written(percent), 0) else percent
  }

  function FormatPercent(fraction: Dec, locale: string): (s: string) {
    FormatNumber(Percent(fraction), locale) + "%"
  }

  /** The value as a whole number of units `10^-k`, where it is one. */
  function AtScale(d: Dec, k: nat): (n: int)
    requires k >= Places(d)
  {
    d.coeff * Pow10(d.exp + k)
  }

  lemma ValueAtScale(d: Dec, k: nat)
    requires k >= Places(d)
    ensures Value(d) == Units(AtScale(d, k), k)
  {
    UnitsRescaled(Written(d), Places(d), k - Places(d));
    if d.exp > 0 {
      Pow10Sum(d.exp, k);
      assert d.coeff * Pow10(d.exp) * Pow10(k) == d.coeff * (Pow10(d.exp) * Pow10(k));
    }
  }

  lemma TenfoldShift(d: Dec)
    requires d.coeff % 10 == 0
    ensures Value(Dec(d.coeff / 10, d.exp + 1)) == Value(d)
  {
    var e, k := Dec(d.coeff / 10, d.exp + 1), Places(d);
    ValueAtScale(d, k);
    ValueAtScale(e, k);
    assert Pow10(e.exp + k) == 10 * Pow10(d.exp + k);
    assert e.coeff * (10 * Pow10(d.exp + k)) == (e.coeff * 10) * Pow10(d.exp + k);
  }

  lemma {:induction false} NormalizeKeepsValue(d: Dec)
    ensures Value(Normalize(d)) == Value(d)
    ensures Normalize(d) == Dec(0, 0) || Normalize(d).coeff % 10 != 0
    decreases Abs(d.coeff)
  {
    if d.coeff == 0 {
      assert Written(d) == 0;
    } else if d.coeff % 10 == 0 {
      TenfoldShift(d);
      NormalizeKeepsValue(Dec(d.coeff / 10, d.exp + 1));
    }
  }

  lemma CanonicalUnique(a: Dec, b: Dec)
    requires Value(a) == Value(b) && a.exp <= b.exp
    requires a == Dec(0, 0) || a.coeff % 10 != 0
    requires b == Dec(0, 0) || b.coeff % 10 != 0
    ensures a == b
  {
    var k, gap := Places(a), b.exp - a.exp;
    ValueAtScale(a, k);
    ValueAtScale(b, k);
    UnitsInjective(AtScale(a, k), AtScale(b, k), k);
    ScaleGap(a.coeff, b.coeff, a.exp + k, gap);
    NoTrailingZeros(a.coeff, b.coeff, gap);
  }

  lemma NoTrailingZeros(a: int, b: int, gap: nat)
    requires a == b * Pow10(gap) && (a == 0 || a % 10 != 0)
    ensures gap > 0 ==> a == 0 && b == 0
    ensures gap == 0 ==> a == b
  {
    if gap > 0 {
      MultipleOfTen(b, Pow10(gap - 1));
      SignOfProduct(b, Pow10(gap));
    }
  }

  lemma ScaleGap(a: int, b: int, low: nat, gap: nat)
    requires a * Pow10(low) == b * Pow10(gap + low)
    ensures a == b * Pow10(gap)
  {
    Pow10Sum(gap, low);
    assert b * (Pow10(gap) * Pow10(low)) == (b * Pow10(gap)) * Pow10(low);
    SameFactor(a, b * Pow10(gap), Pow10(low));
  }

  lemma MultipleOfTen(a: int, p: int)
    ensures (a * (10 * p)) % 10 == 0
  {
    assert a * (10 * p) == 10 * (a * p);
  }

  /** A rate prints as exactly one hundred times the fraction. */
  lemma PercentIsHundredfold(fraction: Dec, printed: string, read: string)
    requires Agree(printed, read)
    ensures var text := FormatPercent(fraction, printed);
      && text[|text| - 1] == '%'
      && ParseLocalized(text[..|text| - 1], read) == Some(100.0 * Value(fraction))
  {
    PercentValue(fraction);
    RoundTrip(Percent(fraction), printed, read);
    SignComesOff(FormatNumber(Percent(fraction), printed), FormatPercent(fraction, printed));
  }

  lemma SignComesOff(number: string, text: string)
    requires text == number + "%"
    ensures text[|text| - 1] == '%' && text[..|text| - 1] == number
  {
  }

  lemma HundredfoldValue(d: Dec)
    ensures Value(Dec(d.coeff * 100, d.exp)) == 100.0 * Value(d)
  {
    var x := Dec(d.coeff * 100, d.exp);
    if d.exp > 0 { assert d.coeff * 100 * Pow10(d.exp) == 100 * (d.coeff * Pow10(d.exp)); }
    assert Written(x) == 100 * Written(d);
    Associate(100.0, Written(d) as real, Tenth(Places(d)));
  }

  lemma PercentValue(fraction: Dec)
    ensures Value(Percent(fraction)) == 100.0 * Value(fraction)
  {
    var percent := Normalize(Dec(fraction.coeff * 100, fraction.exp));
    NormalizeKeepsValue(Dec(fraction.coeff * 100, fraction.exp));
    HundredfoldValue(fraction);
    assert percent.exp > 0 ==> Written(Dec(Written(percent), 0)) == Written(percent);
  }

  /** However many zeros a rate was stored with, it prints the same. */
  lemma PercentIgnoresStoredScale(a: Dec, b: Dec, locale: string)
    ensures Value(a) == Value(b) <==> Percent(a) == Percent(b)
    ensures Value(a) == Value(b) ==> FormatPercent(a, locale) == FormatPercent(b, locale)
  {
    PercentValue(a);
    PercentValue(b);
    if Value(a) == Value(b) {
      var x, y := Dec(a.coeff * 100, a.exp), Dec(b.coeff * 100, b.exp);
      NormalizeKeepsValue(x);
      NormalizeKeepsValue(y);
      HundredfoldValue(a);
      HundredfoldValue(b);
      if Normalize(x).exp <= Normalize(y).exp {
        CanonicalUnique(Normalize(x), Normalize(y));
      } else {
        CanonicalUnique(Normalize(y), Normalize(x));
      }
    }
  }
}
