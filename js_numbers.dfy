/**
 * JavaScript numbers as the calorie tracker's forms see them: the `Number(text)`
 * conversion applied to text fields, the number-to-text conversion applied by
 * `toString()` and template literals, and JavaScript truthiness of a nullable
 * number column. IEEE rounding is not modelled: a finite number is a `real`.
 */
module JsNumbers {
  import opened Options

  /** A JavaScript number value. */
  datatype JsNum = Finite(value: real) | NaN | Infinity(negative: bool)

  /** JavaScript truthiness of a nullable numeric column: neither null nor 0. */
  predicate Truthy(n: Option<real>) {
    n.Some? && n.value != 0.0
  }

  /** The value JavaScript arithmetic uses for a nullable number: `null` counts as 0. */
  function NullAsZero(n: Option<real>): real {
    match n
    case Some(v) => v
    case None => 0.0
  }

  // ---------------------------------------------------------------------------
  // Decimal digits

  predicate IsDigit(c: char) {
    '0' <= c <= '9'
  }

  predicate AllDigits(s: string) {
    forall i :: 0 <= i < |s| ==> IsDigit(s[i])
  }

  /** The regular expression `^[0-9]+$`: one or more ASCII digits and nothing else. */
  predicate MatchesDigitsPattern(s: string) {
    s != [] && AllDigits(s)
  }

  function Pow10(k: nat): (r: nat)
    ensures r >= 1
  {
    if k == 0 then 1 else 10 * Pow10(k - 1)
  }

  function DigitValue(c: char): nat
    requires IsDigit(c)
  {
    c as int - '0' as int
  }

  /** The natural number a string of decimal digits denotes (leading zeros allowed). */
  function DigitsValue(s: string): nat
    requires AllDigits(s)
  {
    if s == [] then 0 else 10 * DigitsValue(s[..|s| - 1]) + DigitValue(s[|s| - 1])
  }

  lemma {:induction false} DigitsValueAppend(a: string, b: string)
    requires AllDigits(a) && AllDigits(b)
    ensures AllDigits(a + b)
    ensures DigitsValue(a + b) == DigitsValue(a) * Pow10(|b|) + DigitsValue(b)
    decreases |b|
  {
    if b == [] {
      assert a + b == a;
    } else {
      var b' := b[..|b| - 1];
      assert (a + b)[..|a + b| - 1] == a + b';
      DigitsValueAppend(a, b');
      assert b[..|b| - 1] == b';
      assert (a + b)[|a + b| - 1] == b[|b| - 1];
      var d := DigitValue(b[|b| - 1]);
      assert DigitsValue(a + b) == 10 * DigitsValue(a + b') + d;
      assert DigitsValue(b) == 10 * DigitsValue(b') + d;
      assert Pow10(|b|) == 10 * Pow10(|b'|);
      ShiftDigit(DigitsValue(a), Pow10(|b'|), DigitsValue(b'), d);
    }
  }

  lemma ShiftDigit(a: int, p: int, b: int, d: int)
    ensures 10 * (a * p + b) + d == a * (10 * p) + (10 * b + d)
  {
  }

  /** A text is the prefix of itself followed by anything. */
  lemma PrefixOfConcat(a: string, b: string)
    ensures (a + b)[..|a|] == a
  {
  }

  // ---------------------------------------------------------------------------
  // Number(text)

  /**
   * The white space that `Number` strips from both ends: the WhiteSpace and
   * LineTerminator code points of ECMAScript (tab, vertical tab, form feed,
   * the byte order mark, the Unicode space separators, LF, CR, and the line
   * and paragraph separators).
   */
  predicate IsSpace(c: char) {
    c == '\t' || c == '\U{000B}' || c == '\U{000C}' || c == '\U{FEFF}'
    || c == ' ' || c == '\U{00A0}' || c == '\U{1680}' || ('\U{2000}' <= c <= '\U{200A}')
    || c == '\U{202F}' || c == '\U{205F}' || c == '\U{3000}'
    || c == '\n' || c == '\r' || c == '\U{2028}' || c == '\U{2029}'
  }

  function TrimStart(s: string): (r: string)
    ensures |r| <= |s| && r == s[|s| - |r|..]
    ensures r != [] ==> !IsSpace(r[0])
  {
    if s != [] && IsSpace(s[0]) then TrimStart(s[1..]) else s
  }

  function TrimEnd(s: string): (r: string)
    ensures |r| <= |s| && r == s[..|r|]
    ensures r != [] ==> !IsSpace(r[|r| - 1])
  {
    if s != [] && IsSpace(s[|s| - 1]) then TrimEnd(s[..|s| - 1]) else s
  }

  function Trim(s: string): string {
    TrimEnd(TrimStart(s))
  }

  /** Position of the first '.', or |s| when there is none. */
  function IndexOfDot(s: string): (r: nat)
    ensures r <= |s|
    ensures forall i :: 0 <= i < r ==> s[i] != '.'
    ensures r < |s| ==> s[r] == '.'
  {
    if s == [] || s[0] == '.' then 0 else 1 + IndexOfDot(s[1..])
  }

  /** y with the decimal point moved k places to the left. */
  function Unscale(y: real, k: nat): real {
    y / Pow10(k) as real
  }

  /** The value of the decimal literal `whole.fraction`. */
  function DecimalValue(whole: string, fraction: string): real
    requires AllDigits(whole) && AllDigits(fraction)
  {
    DigitsValue(whole) as real + Unscale(DigitsValue(fraction) as real, |fraction|)
  }

  /**
   * An unsigned decimal literal `digits`, `digits.`, `.digits` or `digits.digits`;
   * anything else is not a number.
   */
  function UnsignedDecimal(s: string): Option<real> {
    var i := IndexOfDot(s);
    var whole := s[..i];
    var fraction := if i < |s| then s[i + 1..] else [];
    if AllDigits(whole) && AllDigits(fraction) && (whole != [] || fraction != []) then
      Some(DecimalValue(whole, fraction))
    else
      None
  }

  /**
   * JavaScript's `Number(text)` on the decimal literals a numeric text field
   * produces: surrounding white space is ignored, blank text is 0, an optional
   * sign precedes an unsigned decimal, and any other text is NaN.
   */
  function Number(s: string): JsNum {
    var t := Trim(s);
    if t == [] then
      Finite(0.0)
    else
      var body := if t[0] == '-' || t[0] == '+' then t[1..] else t;
      match UnsignedDecimal(body)
      case Some(v) => Finite(if t[0] == '-' then -v else v)
      case None => NaN
  }

  lemma NoDotInDigits(s: string)
    requires AllDigits(s)
    ensures IndexOfDot(s) == |s|
  {
  }

  lemma {:induction false} IndexOfDotAfterDigits(whole: string, rest: string)
    requires AllDigits(whole)
    ensures IndexOfDot(whole + "." + rest) == |whole|
  {
    if whole != [] {
      assert (whole + "." + rest)[1..] == whole[1..] + "." + rest;
      IndexOfDotAfterDigits(whole[1..], rest);
    }
  }

  lemma TrimOfUnpadded(s: string)
    requires s != [] && !IsSpace(s[0]) && !IsSpace(s[|s| - 1])
    ensures Trim(s) == s
  {
  }

  /** The empty text is 0. */
  lemma BlankIsZero()
    ensures Number("") == Finite(0.0)
  {
    assert Trim("") == [];
  }

  /** A text that starts with a letter and does not end in white space is NaN. */
  lemma WordIsNotANumber(s: string)
    requires s != [] && 'a' <= s[0] <= 'z' && !IsSpace(s[|s| - 1])
    ensures Number(s) == NaN
  {
    TrimOfUnpadded(s);
    var i := IndexOfDot(s);
    assert s[..i][0] == s[0];
  }

  /** A digit string is a non-negative integer for `Number`. */
  lemma NumberOfDigits(s: string)
    requires MatchesDigitsPattern(s)
    ensures Number(s) == Finite(DigitsValue(s) as real)
  {
    TrimOfUnpadded(s);
    assert s[0] != '-' && s[0] != '+';
    DecimalOfDigits(s);
  }

  // ---------------------------------------------------------------------------
  // Number to text

  function DigitChar(d: nat): (c: char)
    requires d < 10
    ensures IsDigit(c) && DigitValue(c) == d
  {
    ('0' as int + d) as char
  }

  /** The decimal digits of n, without leading zeros. */
  function NatText(n: nat): (r: string)
    ensures MatchesDigitsPattern(r)
  {
    if n < 10 then [DigitChar(n)] else NatText(n / 10) + [DigitChar(n % 10)]
  }

  lemma {:induction false} NatTextValue(n: nat)
    ensures DigitsValue(NatText(n)) == n
  {
    if n >= 10 {
      NatTextValue(n / 10);
      var s := NatText(n);
      assert s[..|s| - 1] == NatText(n / 10);
    }
  }

  /** The most fractional digits the number-to-text conversion writes out. */
  const MaxFractionDigits: nat := 20

  predicate IsWhole(y: real) {
    y.Floor as real == y
  }

  /** x with the decimal point moved k places to the right. */
  function Scale(x: real, k: nat): real {
    x * Pow10(k) as real
  }

  /** x has at most k digits after the decimal point. */
  predicate ScaledIsInteger(x: real, k: nat) {
    IsWhole(Scale(x, k))
  }

  /** The fewest fractional digits, from k on, that write x out exactly (capped). */
  function FractionDigits(x: real, k: nat): (r: nat)
    requires k <= MaxFractionDigits
    ensures k <= r <= MaxFractionDigits
    decreases MaxFractionDigits - k
  {
    if k == MaxFractionDigits || ScaledIsInteger(x, k) then k else FractionDigits(x, k + 1)
  }

  lemma {:induction false} FractionDigitsExact(x: real, j: nat, k: nat)
    requires j <= k <= MaxFractionDigits && ScaledIsInteger(x, k)
    ensures FractionDigits(x, j) <= k && ScaledIsInteger(x, FractionDigits(x, j))
    decreases k - j
  {
    if j < k && !ScaledIsInteger(x, j) {
      FractionDigitsExact(x, j + 1, k);
    }
  }

  function PadLeft(s: string, width: nat): (r: string)
    requires AllDigits(s)
    ensures AllDigits(r) && |r| >= width && |r| >= |s|
    ensures DigitsValue(r) == DigitsValue(s)
    decreases width - |s|
  {
    if |s| >= width then s
    else
      DigitsValueAppend("0", s);
      PadLeft("0" + s, width)
  }

  /** The text of a non-negative number: digits, then '.' and the fraction if any. */
  function UnsignedText(x: real): string
    requires x >= 0.0
  {
    var k := FractionDigits(x, 0);
    var m := Scale(x, k).Floor;
    assert m >= 0 by { ScaleNonNegative(x, k); }
    PointedDigits(m, k)
  }

  /** The digits of m with a decimal point r places from the right, zero-padded to one whole digit. */
  function PointedDigits(m: nat, r: nat): string {
    if r == 0 then NatText(m)
    else
      var d := PadLeft(NatText(m), r + 1);
      d[..|d| - r] + "." + d[|d| - r..]
  }

  /** `String(x)` for a number written with at most MaxFractionDigits fractional digits. */
  function NumText(x: real): string {
    if x < 0.0 then "-" + UnsignedText(-x) else UnsignedText(x)
  }

  lemma ScaleNonNegative(x: real, k: nat)
    requires x >= 0.0
    ensures Scale(x, k) >= 0.0
  {
    MultiplyNonNegative(x, Pow10(k) as real);
  }

  lemma MultiplyNonNegative(a: real, b: real)
    requires a >= 0.0 && b >= 0.0
    ensures a * b >= 0.0
  {
  }

  lemma WholeNegate(y: real)
    requires IsWhole(y)
    ensures IsWhole(-y)
  {
    var n := y.Floor;
    assert -y == (-n) as real;
  }

  lemma ScaleNegate(x: real, k: nat)
    ensures Scale(-x, k) == -Scale(x, k)
  {
    var p := Pow10(k) as real;
    assert (-x) * p == -(x * p);
  }

  lemma ScaledIsIntegerNegate(x: real, k: nat)
    requires ScaledIsInteger(x, k)
    ensures ScaledIsInteger(-x, k)
  {
    ScaleNegate(x, k);
    WholeNegate(Scale(x, k));
  }

  lemma UnscaleScale(x: real, k: nat)
    ensures Unscale(Scale(x, k), k) == x
  {
    var p := Pow10(k) as real;
    assert (x * p) / p == x;
  }

  lemma UnscaleSplit(w: nat, f: nat, n: nat, k: nat)
    requires n == w * Pow10(k) + f
    ensures w as real + Unscale(f as real, k) == Unscale(n as real, k)
  {
    var p := Pow10(k);
    CastSum(w, p, f);
    DivideSum(w as real, f as real, p as real);
  }

  lemma CastSum(a: nat, b: nat, c: nat)
    ensures (a * b + c) as real == a as real * b as real + c as real
  {
  }

  lemma DivideSum(w: real, f: real, p: real)
    requires p > 0.0
    ensures w + f / p == (w * p + f) / p
  {
  }

  /** A digit string with no point reads as the number its digits denote. */
  lemma DecimalOfDigits(d: string)
    requires MatchesDigitsPattern(d)
    ensures UnsignedDecimal(d) == Some(DigitsValue(d) as real)
  {
    NoDotInDigits(d);
    assert d[..|d|] == d;
    UnscaleOfZero(0);
    assert DecimalValue(d, []) == DigitsValue(d) as real;
  }

  lemma UnscaleOfZero(k: nat)
    ensures Unscale(0.0, k) == 0.0
  {
  }

  /** Digits, a point and more digits read as all the digits over 10 to the number of fractional digits. */
  lemma DecimalOfSplit(whole: string, fraction: string)
    requires AllDigits(whole) && AllDigits(fraction) && whole != []
    ensures AllDigits(whole + fraction)
    ensures UnsignedDecimal(whole + "." + fraction) == Some(Unscale(DigitsValue(whole + fraction) as real, |fraction|))
  {
    DecimalOfParts(whole, fraction);
    DigitsValueAppend(whole, fraction);
    UnscaleSplit(DigitsValue(whole), DigitsValue(fraction), DigitsValue(whole + fraction), |fraction|);
  }

  lemma DecimalOfParts(whole: string, fraction: string)
    requires AllDigits(whole) && AllDigits(fraction) && whole != []
    ensures UnsignedDecimal(whole + "." + fraction) == Some(DecimalValue(whole, fraction))
  {
    var t := whole + "." + fraction;
    IndexOfDotAfterDigits(whole, fraction);
    assert t[..|whole|] == whole;
    assert t[|whole| + 1..] == fraction;
  }

  lemma {:induction false} UnsignedTextValue(x: real, k: nat)
    requires x >= 0.0 && k <= MaxFractionDigits && ScaledIsInteger(x, k)
    ensures var t := UnsignedText(x);
      t != [] && IsDigit(t[0]) && IsDigit(t[|t| - 1]) && UnsignedDecimal(t) == Some(x)
  {
    FractionDigitsExact(x, 0, k);
    var r := FractionDigits(x, 0);
    var m := Scale(x, r).Floor;
    assert m as real == Scale(x, r);
    assert m >= 0 by { ScaleNonNegative(x, r); }
    UnscaleScale(x, r);
    assert UnsignedText(x) == PointedDigits(m, r);
    PointedDigitsValue(m, r);
  }

  lemma PointedDigitsValue(m: nat, r: nat)
    ensures var t := PointedDigits(m, r);
      t != [] && IsDigit(t[0]) && IsDigit(t[|t| - 1]) && UnsignedDecimal(t) == Some(Unscale(m as real, r))
  {
    if r == 0 {
      WholeText(m);
    } else {
      PointedText(m, r);
    }
  }

  /** The text of a whole number is its digits, and reads back as the number. */
  lemma WholeText(m: nat)
    ensures var t := PointedDigits(m, 0);
      t != [] && IsDigit(t[0]) && IsDigit(t[|t| - 1]) && UnsignedDecimal(t) == Some(Unscale(m as real, 0))
  {
    var t := NatText(m);
    assert PointedDigits(m, 0) == t;
    NatTextValue(m);
    DecimalOfDigits(t);
    assert Unscale(m as real, 0) == m as real;
  }

  /** Padded digits with a point r places from the right read back as the number over 10^r. */
  lemma PointedText(m: nat, r: nat)
    requires 0 < r
    ensures var t := PointedDigits(m, r);
      t != [] && IsDigit(t[0]) && IsDigit(t[|t| - 1]) && UnsignedDecimal(t) == Some(Unscale(m as real, r))
  {
    NatTextValue(m);
    var d := PadLeft(NatText(m), r + 1);
    var whole, fraction := d[..|d| - r], d[|d| - r..];
    assert whole + fraction == d && |fraction| == r;
    DecimalOfSplit(whole, fraction);
    var t := whole + "." + fraction;
    assert PointedDigits(m, r) == t;
    assert t[0] == d[0];
    assert t[|t| - 1] == d[|d| - 1];
  }

  /**
   * Writing a number out and reading it back with `Number` gives the number back,
   * for every number with at most MaxFractionDigits fractional digits.
   */
  lemma NumberOfNumText(x: real, k: nat)
    requires k <= MaxFractionDigits && ScaledIsInteger(x, k)
    ensures Number(NumText(x)) == Finite(x)
  {
    if x < 0.0 {
      ScaledIsIntegerNegate(x, k);
      UnsignedTextValue(-x, k);
      NumberOfSigned(UnsignedText(-x), -x);
    } else {
      UnsignedTextValue(x, k);
      NumberOfSigned(UnsignedText(x), x);
    }
  }

  /** A decimal that starts and ends with a digit reads as its value, and with a leading '-' as its negation. */
  lemma NumberOfSigned(u: string, v: real)
    requires u != [] && IsDigit(u[0]) && IsDigit(u[|u| - 1]) && UnsignedDecimal(u) == Some(v)
    ensures Number(u) == Finite(v)
    ensures Number("-" + u) == Finite(-v)
  {
    TrimOfUnpadded(u);
    var t := "-" + u;
    TrimOfUnpadded(t);
    assert t[0] == '-' && t[1..] == u;
  }

  /** Every whole number survives the text round trip. */
  lemma NumberOfIntegerText(n: int)
    ensures Number(NumText(n as real)) == Finite(n as real)
  {
    assert Pow10(0) == 1;
    assert Scale(n as real, 0) == n as real;
    assert (n as real).Floor == n;
    NumberOfNumText(n as real, 0);
  }
}
