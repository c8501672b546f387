/** The few JavaScript value semantics the platform code relies on: the
    values a flow-builder parameter or a condition field can hold, their
    truthiness (which decides `a || b`), and the `Number(v)` and `String(v)`
    conversions.

    Numbers are modelled as exact decimals `digits · 10^-scale`, or NaN.
    Binary rounding, infinities and the exponent notation that `String`
    uses for very large or very small magnitudes are outside this model. */
module Js {

  datatype Number = NaN | Dec(digits: int, scale: nat)

  datatype JsValue = Undefined | Null | Bool(b: bool) | Num(n: Number) | Str(s: string)

  function Pow10(n: nat): (p: nat)
    ensures p >= 1
  {
    if n == 0 then 1 else 10 * Pow10(n - 1)
  }

  /** The mathematical value of a finite number. */
  function Value(n: Number): real
    requires n.Dec?
  {
    n.digits as real / Pow10(n.scale) as real
  }

  /** JavaScript truthiness: undefined, null, false, 0, NaN and "" are falsy. */
  predicate Truthy(v: JsValue) {
    match v
    case Undefined => false
    case Null => false
    case Bool(b) => b
    case Num(n) => n.Dec? && n.digits != 0
    case Str(s) => s != ""
  }

  /** `a || b`: the left operand when it is truthy, else the right one. */
  function Or(a: JsValue, b: JsValue): (r: JsValue)
    ensures r == a || r == b
    ensures Truthy(b) ==> Truthy(r)
    ensures Truthy(r) <==> Truthy(a) || Truthy(b)
  {
    if Truthy(a) then a else b
  }

  // ---- decimal digit strings ----

  predicate IsDigit(c: char) {
    '0' <= c <= '9'
  }

  predicate AllDigits(s: string) {
    forall i :: 0 <= i < |s| ==> IsDigit(s[i])
  }

  function DigitChar(d: nat): (c: char)
    requires d < 10
    ensures IsDigit(c) && DigitValue(c) == d
  {
    "0123456789"[d]
  }

  function DigitValue(c: char): int {
    (c as int) - ('0' as int)
  }

  /** The value of a string of decimal digits, most significant first. */
  function DigitsValue(s: string): int {
    if s == [] then 0 else 10 * DigitsValue(s[..|s| - 1]) + DigitValue(s[|s| - 1])
  }

  /** The shortest decimal digits of n. */
  function NatToDigits(n: nat): (s: string)
    ensures |s| >= 1 && AllDigits(s)
  {
    if n < 10 then [DigitChar(n)] else NatToDigits(n / 10) + [DigitChar(n % 10)]
  }

  /** `s.padStart(width, "0")` */
  function PadZeros(s: string, width: nat): (r: string)
    ensures |r| == if |s| < width then width else |s|
  {
    if |s| < width then seq(width - |s|, _ => '0') + s else s
  }

  // ---- Number(v) ----

  function Negate(n: Number): Number {
    if n.NaN? then NaN else Dec(-n.digits, n.scale)
  }

  /** The index of the first '.' in s, or |s| when there is none. */
  function DotIndex(s: string): (k: nat)
    ensures k <= |s|
    ensures k < |s| ==> s[k] == '.'
  {
    if s == [] then 0 else if s[0] == '.' then 0 else 1 + DotIndex(s[1..])
  }

  /** No '.' comes before the one DotIndex finds. */
  lemma {:induction false} DotIndexFirst(s: string, i: nat)
    requires i < DotIndex(s)
    ensures s[i] != '.'
    decreases i
  {
    if i > 0 {
      DotIndexFirst(s[1..], i - 1);
    }
  }

  /** An unsigned decimal literal: digits, optionally with one '.' and more
      digits, not both parts empty. Anything else is NaN. */
  function UnsignedToNumber(s: string): Number {
    var k := DotIndex(s);
    var whole := s[..k];
    var frac := if k < |s| then s[k + 1..] else "";
    if AllDigits(whole) && AllDigits(frac) && (whole != "" || frac != "") && (k < |s| || whole != "")
    then Dec(DigitsValue(whole + frac), |frac|)
    else NaN
  }

  /** `Number(s)` for a string: the empty string is 0, an optional sign
      precedes an unsigned decimal literal. Surrounding white space,
      "Infinity", hexadecimal and exponent forms are not modelled (NaN). */
  function StringToNumber(s: string): Number {
    if s == [] then Dec(0, 0)
    else if s[0] == '-' then Negate(UnsignedToNumber(s[1..]))
    else if s[0] == '+' then UnsignedToNumber(s[1..])
    else UnsignedToNumber(s)
  }

  /** `Number(v)` */
  function ToNumber(v: JsValue): (r: Number)
    ensures v.Num? ==> r == v.n
    ensures v.Undefined? ==> r.NaN?
    ensures v.Null? ==> r == Dec(0, 0)
    ensures v.Bool? ==> r == Dec(if v.b then 1 else 0, 0)
  {
    match v
    case Undefined => NaN
    case Null => Dec(0, 0)
    case Bool(b) => Dec(if b then 1 else 0, 0)
    case Num(n) => n
    case Str(s) => StringToNumber(s)
  }

  // ---- String(v) ----

  /** Drops trailing zero digits after the decimal point. */
  function Normalize(n: Number): (m: Number)
    requires n.Dec?
    ensures m.Dec? && (m.scale == 0 || m.digits % 10 != 0)
    decreases n.scale
  {
    if n.scale > 0 && n.digits % 10 == 0 then Normalize(Dec(n.digits / 10, n.scale - 1)) else n
  }

  /** The decimal text of d · 10^-scale for d >= 0: the digits of d, padded
      with leading zeros to more than `scale` digits, with a '.' before the
      last `scale` of them. */
  function UnsignedToString(d: nat, scale: nat): (s: string)
    ensures |s| >= 1
  {
    if scale == 0 then NatToDigits(d)
    else
      var s := PadZeros(NatToDigits(d), scale + 1);
      s[..|s| - scale] + "." + s[|s| - scale..]
  }

  /** `String(n)` for a number, in positional notation. */
  function NumberToString(n: Number): (s: string)
    ensures |s| >= 1
  {
    if n.NaN? then "NaN"
    else
      var m := Normalize(n);
      if m.digits < 0 then "-" + UnsignedToString(-m.digits, m.scale) else UnsignedToString(m.digits, m.scale)
  }

  /** `String(v)` */
  function ToJsString(v: JsValue): (r: string)
    ensures v.Str? ==> r == v.s
    ensures r == "" <==> v == Str("")
  {
    match v
    case Undefined => "undefined"
    case Null => "null"
    case Bool(b) => if b then "true" else "false"
    case Num(n) => NumberToString(n)
    case Str(s) => s
  }

  // ---- Number(String(n)) gives back n ----

  /** Dropping the last character of a concatenation with a non-empty
      second part. */
  lemma DropLast(a: string, b: string)
    requires b != []
    ensures (a + b)[..|a + b| - 1] == a + b[..|b| - 1]
    ensures (a + b)[|a + b| - 1] == b[|b| - 1]
  {
  }

  /** One more digit after x·p + y, as arithmetic. */
  lemma ShiftDigit(x: int, p: int, y: int, last: int)
    ensures 10 * (x * p + y) + last == x * (10 * p) + (10 * y + last)
  {
  }

  lemma {:induction false} DigitsValueAppend(a: string, b: string)
    ensures DigitsValue(a + b) == DigitsValue(a) * Pow10(|b|) + DigitsValue(b)
    decreases |b|
  {
    if b == [] {
      assert a + b == a;
    } else {
      var b' := b[..|b| - 1];
      var last := DigitValue(b[|b| - 1]);
      DropLast(a, b);
      DigitsValueAppend(a, b');
      var x := DigitsValue(a);
      var p := Pow10(|b'|);
      assert DigitsValue(a + b) == 10 * (x * p + DigitsValue(b')) + last;
      assert DigitsValue(b) == 10 * DigitsValue(b') + last;
      assert Pow10(|b|) == 10 * p;
      ShiftDigit(x, p, DigitsValue(b'), last);
    }
  }

  /** Digit strings have non-negative values. */
  lemma {:induction false} DigitsValueNonNegative(s: string)
    requires AllDigits(s)
    ensures DigitsValue(s) >= 0
  {
    if s != [] {
      var t := s[..|s| - 1];
      assert forall i :: 0 <= i < |t| ==> t[i] == s[i];
      DigitsValueNonNegative(t);
      assert IsDigit(s[|s| - 1]);
    }
  }

  lemma {:induction false} NatToDigitsValue(n: nat)
    ensures DigitsValue(NatToDigits(n)) == n
  {
    if n >= 10 {
      NatToDigitsValue(n / 10);
      var s := NatToDigits(n);
      assert s[..|s| - 1] == NatToDigits(n / 10);
    }
  }

  lemma {:induction false} ZerosValue(w: nat)
    ensures DigitsValue(seq(w, _ => '0')) == 0
  {
    if w > 0 {
      assert seq(w, _ => '0')[..w - 1] == seq(w - 1, _ => '0');
      ZerosValue(w - 1);
    }
  }

  lemma PadZerosValue(s: string, width: nat)
    requires AllDigits(s)
    ensures AllDigits(PadZeros(s, width))
    ensures DigitsValue(PadZeros(s, width)) == DigitsValue(s)
  {
    if |s| < width {
      var z := seq(width - |s|, _ => '0');
      ZerosValue(width - |s|);
      DigitsValueAppend(z, s);
      var r := z + s;
      forall i | 0 <= i < |r| ensures IsDigit(r[i]) {
        if i >= |z| { assert r[i] == s[i - |z|]; }
      }
    }
  }

  /** In digits followed by a '.', the first '.' is the one after the digits. */
  lemma {:induction false} DotAfterDigits(w: string, rest: string)
    requires AllDigits(w)
    ensures DotIndex(w + "." + rest) == |w|
    decreases |w|
  {
    if w != [] {
      assert IsDigit(w[0]);
      assert (w + "." + rest)[1..] == w[1..] + "." + rest;
      DotAfterDigits(w[1..], rest);
    }
  }

  /** A digit string contains no '.'. */
  lemma {:induction false} NoDot(s: string)
    requires AllDigits(s)
    ensures DotIndex(s) == |s|
    decreases |s|
  {
    if s != [] {
      assert IsDigit(s[0]);
      NoDot(s[1..]);
    }
  }

  /** A non-empty digit string reads as an integer. */
  lemma ParseInteger(s: string)
    requires AllDigits(s) && s != []
    ensures UnsignedToNumber(s) == Dec(DigitsValue(s), 0)
  {
    NoDot(s);
    assert s[..|s|] == s;
    assert s + "" == s;
  }

  /** Both pieces of a digit string are digit strings. */
  lemma DigitsSlices(s: string, k: nat)
    requires AllDigits(s) && k <= |s|
    ensures AllDigits(s[..k]) && AllDigits(s[k..])
  {
    assert forall i :: 0 <= i < k ==> s[..k][i] == s[i];
    assert forall i :: 0 <= i < |s| - k ==> s[k..][i] == s[k + i];
  }

  /** Digits, a '.' and digits read as a decimal with the digits after the
      '.' as places. */
  lemma ParseDotted(w: string, f: string, s: string)
    requires AllDigits(w) && AllDigits(f) && w != [] && w + f == s
    ensures UnsignedToNumber(w + "." + f) == Dec(DigitsValue(s), |f|)
  {
    var str := w + "." + f;
    DotAfterDigits(w, f);
    assert str[..|w|] == w;
    assert str[|w| + 1..] == f;
  }

  /** A string is its two pieces put back together. */
  lemma JoinSlices(s: string, k: nat)
    requires k <= |s|
    ensures s[..k] + s[k..] == s
  {
  }

  /** A digit string with a '.' put after its first k >= 1 digits reads
      back as its value with the remaining digits as places. */
  lemma ParseDecimal(s: string, k: nat)
    requires AllDigits(s) && 1 <= k <= |s|
    ensures UnsignedToNumber(s[..k] + "." + s[k..]) == Dec(DigitsValue(s), |s| - k)
  {
    DigitsSlices(s, k);
    JoinSlices(s, k);
    ParseDotted(s[..k], s[k..], s);
  }

  /** With places, the text is the padded digits split by a '.'. */
  lemma DecimalText(d: nat, scale: nat)
    requires scale > 0
    ensures var s := PadZeros(NatToDigits(d), scale + 1);
            UnsignedToString(d, scale) == s[..|s| - scale] + "." + s[|s| - scale..]
  {
  }

  /** Reading back the text of an unsigned decimal with places. */
  lemma DecimalRoundTrip(d: nat, scale: nat)
    requires scale > 0
    ensures UnsignedToNumber(UnsignedToString(d, scale)) == Dec(d, scale)
  {
    var s := PadZeros(NatToDigits(d), scale + 1);
    var k := |s| - scale;
    assert AllDigits(s) && DigitsValue(s) == d by {
      NatToDigitsValue(d);
      PadZerosValue(NatToDigits(d), scale + 1);
    }
    assert UnsignedToString(d, scale) == s[..k] + "." + s[k..] by {
      DecimalText(d, scale);
    }
    ParseDecimal(s, k);
  }

  /** Reading back the text of an unsigned decimal gives the same digits and scale. */
  lemma UnsignedRoundTrip(d: nat, scale: nat)
    ensures UnsignedToNumber(UnsignedToString(d, scale)) == Dec(d, scale)
  {
    if scale == 0 {
      NatToDigitsValue(d);
      ParseInteger(NatToDigits(d));
    } else {
      DecimalRoundTrip(d, scale);
    }
  }

  /** The text of an unsigned decimal starts with a digit, never a sign. */
  lemma UnsignedLeadingDigit(d: nat, scale: nat)
    ensures |UnsignedToString(d, scale)| >= 1 && IsDigit(UnsignedToString(d, scale)[0])
  {
    if scale > 0 {
      var s := PadZeros(NatToDigits(d), scale + 1);
      PadZerosValue(NatToDigits(d), scale + 1);
      assert UnsignedToString(d, scale)[0] == s[0];
    }
  }

  /** `Number` of an unsigned literal, bare or behind a '-'. */
  lemma SignedParse(u: string)
    requires |u| >= 1 && IsDigit(u[0])
    ensures StringToNumber(u) == UnsignedToNumber(u)
    ensures StringToNumber("-" + u) == Negate(UnsignedToNumber(u))
  {
    assert ("-" + u)[1..] == u;
  }

  /** `Number(String(n))` is `n` again, up to trailing zeros of the fraction,
      which do not change its value. */
  lemma NumberStringRoundTrip(n: Number)
    requires n.Dec?
    ensures StringToNumber(NumberToString(n)) == Normalize(n)
    ensures Value(StringToNumber(NumberToString(n))) == Value(n)
  {
    var m := Normalize(n);
    var a: nat := if m.digits < 0 then -m.digits else m.digits;
    var u := UnsignedToString(a, m.scale);
    assert NumberToString(n) == if m.digits < 0 then "-" + u else u;
    UnsignedLeadingDigit(a, m.scale);
    UnsignedRoundTrip(a, m.scale);
    SignedParse(u);
    assert StringToNumber(NumberToString(n)) == m;
    NormalizeValue(n);
  }

  lemma CancelTen(a: real, q: real)
    requires q > 0.0
    ensures (10.0 * a) / (10.0 * q) == a / q
  {
    assert (10.0 * a) / (10.0 * q) * (10.0 * q) == 10.0 * a;
  }

  /** Dropping trailing zeros keeps the value. */
  lemma {:induction false} NormalizeValue(n: Number)
    requires n.Dec?
    ensures Value(Normalize(n)) == Value(n)
    decreases n.scale
  {
    if n.scale > 0 && n.digits % 10 == 0 {
      var n' := Dec(n.digits / 10, n.scale - 1);
      NormalizeValue(n');
      assert n.digits == 10 * n'.digits;
      assert Pow10(n.scale) == 10 * Pow10(n'.scale);
      CancelTen(n'.digits as real, Pow10(n'.scale) as real);
    }
  }
}
