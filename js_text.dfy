/**
 * The small part of JavaScript's string/number conversions the application relies on:
 * `parseFloat`, `parseInt`, the `Number(...)` conversion that `<` applies to a string,
 * `Number.prototype.toString` for integers, the two `replace` calls that delete
 * characters, and the truthiness of a stored primitive.
 *
 * A JavaScript number is modelled as an exact `real`; NaN is `None`, so every
 * comparison with NaN is false.
 */
module JsText {
  import opened Wrappers

  /** A JavaScript number: `None` stands for NaN. */
  type Number = Option<real>

  /** A primitive stored in a record: a string or an integral number. */
  datatype Value = Str(s: string) | Num(n: int)

  /** A form field's state: an input's text, a checkbox's `checked`, or a list of entries. */
  datatype FormValue = Text(s: string) | Flag(b: bool) | List(items: seq<string>)

  /** JavaScript `a < b` on numbers: false as soon as either side is NaN. */
  predicate Less(a: Number, b: Number) {
    a.Some? && b.Some? && a.value < b.value
  }

  /** JavaScript `a >= b` on numbers: false as soon as either side is NaN. */
  predicate AtLeast(a: Number, b: Number) {
    a.Some? && b.Some? && a.value >= b.value
  }

  /** Truthiness of a possibly undefined primitive: undefined, `""` and `0` are falsy. */
  predicate Truthy(v: Option<Value>) {
    match v
    case None => false
    case Some(Str(s)) => s != ""
    case Some(Num(n)) => n != 0
  }

  predicate IsDigit(c: char) { '0' <= c <= '9' }

  predicate AllDigits(s: string) {
    forall i | 0 <= i < |s| :: IsDigit(s[i])
  }

  /**
   * The characters the conversions skip: ECMAScript's white space (tab, vertical tab,
   * form feed, space, no-break space, the byte order mark and the other space
   * separators) and its line terminators.
   */
  predicate IsSpace(c: char) {
    var n := c as int;
    || n == 0x09 || n == 0x0A || n == 0x0B || n == 0x0C || n == 0x0D || n == 0x20
    || n == 0xA0 || n == 0x1680 || 0x2000 <= n <= 0x200A || n == 0x2028 || n == 0x2029
    || n == 0x202F || n == 0x205F || n == 0x3000 || n == 0xFEFF
  }

  function DigitValue(c: char): (d: nat)
    requires IsDigit(c)
    ensures d < 10
  {
    c as int - '0' as int
  }

  function DigitChar(d: nat): (c: char)
    requires d < 10
    ensures IsDigit(c) && DigitValue(c) == d
  {
    ('0' as int + d) as char
  }

  /** The value of a run of decimal digits, most significant digit first. */
  function DigitsValue(ds: string): nat
    requires AllDigits(ds)
  {
    if ds == [] then 0 else 10 * DigitsValue(ds[..|ds| - 1]) + DigitValue(ds[|ds| - 1])
  }

  /** `x / 10^k`, one division by ten at a time. */
  function Shift(x: real, k: nat): (r: real)
    ensures x >= 0.0 ==> r >= 0.0
  {
    if k == 0 then x else Shift(x, k - 1) / 10.0
  }

  /** The length of the longest prefix of `s` made of digits. */
  function DigitRun(s: string): (n: nat)
    ensures n <= |s|
    ensures AllDigits(s[..n])
    ensures n < |s| ==> !IsDigit(s[n])
  {
    if s == [] || !IsDigit(s[0]) then 0
    else
      var m := DigitRun(s[1..]);
      assert s[..1 + m] == [s[0]] + s[1..][..m];
      1 + m
  }

  /** `s` with its leading white space removed. */
  function TrimStart(s: string): (r: string)
    ensures |r| <= |s| && r == s[|s| - |r|..]
    ensures r == [] || !IsSpace(r[0])
  {
    if s != [] && IsSpace(s[0]) then TrimStart(s[1..]) else s
  }

  /** `s` with its trailing white space removed. */
  function TrimEnd(s: string): (r: string)
    ensures |r| <= |s| && r == s[..|r|]
    ensures r == [] || !IsSpace(r[|r| - 1])
  {
    if s != [] && IsSpace(s[|s| - 1]) then TrimEnd(s[..|s| - 1]) else s
  }

  /**
   * The unsigned decimal literal `digits [ "." digits ]` at the head of `s`, with at
   * least one digit on either side of the point, as its value and the number of
   * characters it spans; `None` when `s` does not start with one.
   */
  function DecimalPrefix(s: string): (r: Option<(real, nat)>)
    ensures r.Some? ==> r.value.1 <= |s| && r.value.0 >= 0.0
    ensures r.None? <==> (s == [] || !IsDigit(s[0])) && (|s| < 2 || s[0] != '.' || !IsDigit(s[1]))
  {
    var n := DigitRun(s);
    if n < |s| && s[n] == '.' then
      var m := DigitRun(s[n + 1..]);
      if n == 0 && m == 0 then None
      else Some((DecimalValue(s[..n], s[n + 1..][..m]), n + 1 + m))
    else if n == 0 then None
    else Some((DigitsValue(s[..n]) as real, n))
  }

  /** The value of the literal `i.f`. */
  function DecimalValue(i: string, f: string): (v: real)
    requires AllDigits(i) && AllDigits(f)
    ensures v >= 0.0
  {
    DigitsValue(i) as real + Shift(DigitsValue(f) as real, |f|)
  }

  /** Splits an optional leading `+` or `-` off `t`: whether it was `-`, and the rest. */
  function SplitSign(t: string): (r: (bool, string))
    ensures r.1 == t || (t != [] && (t[0] == '-' || t[0] == '+') && r.1 == t[1..])
    ensures r.0 <==> t != [] && t[0] == '-'
  {
    if t != [] && t[0] == '-' then (true, t[1..])
    else if t != [] && t[0] == '+' then (false, t[1..])
    else (false, t)
  }

  function Negated(x: Number, neg: bool): Number {
    match x
    case None => None
    case Some(v) => if neg then Some(-v) else Some(v)
  }

  function PrefixValue(u: string): Number {
    match DecimalPrefix(u)
    case None => None
    case Some(p) => Some(p.0)
  }

  /**
   * JavaScript `parseFloat(s)`: leading white space and a sign are skipped, then the
   * longest decimal literal is read and the rest ignored; NaN when there is none.
   */
  function ParseFloat(s: string): Number {
    var (neg, u) := SplitSign(TrimStart(s));
    Negated(PrefixValue(u), neg)
  }

  function WholeValue(u: string): Number {
    match DecimalPrefix(u)
    case Some(p) => if p.1 == |u| then Some(p.0) else None
    case None => None
  }

  /**
   * JavaScript `Number(s)`, which `<` applies to a string operand: the empty (or
   * all-blank) string is 0; otherwise the whole trimmed string must be an unsigned
   * `0x`, `0o` or `0b` integer literal, or an optionally signed decimal literal.
   */
  function ToNumber(s: string): Number {
    var t := TrimEnd(TrimStart(s));
    if t == [] then Some(0.0)
    else if PrefixRadix(t) != 10 then WholeRadix(t[2..], PrefixRadix(t))
    else
      var (neg, u) := SplitSign(t);
      Negated(WholeValue(u), neg)
  }

  function IntPrefix(u: string): Number {
    var n := DigitRun(u);
    if n == 0 then None else Some(DigitsValue(u[..n]) as real)
  }

  /**
   * JavaScript `parseInt(s)` with no radix: after the leading white space and an optional
   * sign, a `0x` or `0X` prefix selects base 16, otherwise base 10, and the longest run of
   * digits of that base is read; NaN when the run is empty.
   */
  function ParseInt(s: string): Number {
    var (neg, u) := SplitSign(TrimStart(s));
    Negated(if PrefixRadix(u) == 16 then RadixPrefixValue(u[2..], 16) else IntPrefix(u), neg)
  }

  // ---------------------------------------------------------------------------
  // Integer literals in base 2, 8 and 16.
  // ---------------------------------------------------------------------------

  /** The base a `0x`, `0o` or `0b` prefix of `u` announces, in either case; 10 without one. */
  function PrefixRadix(u: string): (radix: nat)
    ensures radix != 10 ==> |u| >= 2
  {
    if |u| < 2 || u[0] != '0' then 10
    else if u[1] == 'x' || u[1] == 'X' then 16
    else if u[1] == 'o' || u[1] == 'O' then 8
    else if u[1] == 'b' || u[1] == 'B' then 2
    else 10
  }

  /** The value of `c` as a digit of a base up to 16 (`0`-`9`, `a`-`f`, `A`-`F`); 16 when it is none. */
  function HexDigitValue(c: char): (d: nat)
    ensures d <= 16
    ensures IsDigit(c) ==> d == DigitValue(c)
  {
    if '0' <= c <= '9' then c as int - '0' as int
    else if 'a' <= c <= 'f' then c as int - 'a' as int + 10
    else if 'A' <= c <= 'F' then c as int - 'A' as int + 10
    else 16
  }

  predicate IsRadixDigit(c: char, radix: nat) { HexDigitValue(c) < radix }

  predicate AllRadixDigits(s: string, radix: nat) {
    forall i | 0 <= i < |s| :: IsRadixDigit(s[i], radix)
  }

  /** The value of a run of base-`radix` digits, most significant digit first. */
  function RadixValue(ds: string, radix: nat): nat
    requires AllRadixDigits(ds, radix)
  {
    if ds == [] then 0 else radix * RadixValue(ds[..|ds| - 1], radix) + HexDigitValue(ds[|ds| - 1])
  }

  /** The length of the longest prefix of `s` made of base-`radix` digits. */
  function RadixRun(s: string, radix: nat): (n: nat)
    ensures n <= |s|
    ensures AllRadixDigits(s[..n], radix)
    ensures n < |s| ==> !IsRadixDigit(s[n], radix)
  {
    if s == [] || !IsRadixDigit(s[0], radix) then 0
    else
      var m := RadixRun(s[1..], radix);
      assert s[..1 + m] == [s[0]] + s[1..][..m];
      1 + m
  }

  /** The value of the leading run of base-`radix` digits of `u`; NaN when there is none. */
  function RadixPrefixValue(u: string, radix: nat): Number {
    var n := RadixRun(u, radix);
    if n == 0 then None else Some(RadixValue(u[..n], radix) as real)
  }

  /** The value of `u` when it is a non-empty run of base-`radix` digits; NaN otherwise. */
  function WholeRadix(u: string, radix: nat): Number {
    if u != [] && RadixRun(u, radix) == |u| then Some(RadixValue(u[..|u|], radix) as real) else None
  }

  /** The digits of `n`, most significant first, without leading zeros. */
  function NatToDigits(n: nat): (ds: string)
    ensures AllDigits(ds) && ds != []
  {
    if n < 10 then [DigitChar(n)] else NatToDigits(n / 10) + [DigitChar(n % 10)]
  }

  /** JavaScript `String(n)` for an integral number. */
  function IntToString(n: int): string {
    if n < 0 then "-" + NatToDigits(-n) else NatToDigits(n)
  }

  /** `value.toString()` of a stored primitive. */
  function ToDisplayString(v: Value): string {
    match v
    case Str(s) => s
    case Num(n) => IntToString(n)
  }

  /** `parseFloat` applied to a stored primitive (a number is returned as it is). */
  function ParseValue(v: Value): Number {
    match v
    case Str(s) => ParseFloat(s)
    case Num(n) => Some(n as real)
  }

  /** The numeric view `<` takes of a possibly undefined primitive: undefined is NaN. */
  function NumericValue(v: Option<Value>): Number {
    match v
    case None => None
    case Some(Str(s)) => ToNumber(s)
    case Some(Num(n)) => Some(n as real)
  }

  /** `s.replace(/[^\d]/g, '')`: every character that is not a digit deleted. */
  function StripNonDigits(s: string): (r: string)
    ensures AllDigits(r) && |r| <= |s|
    ensures AllDigits(s) ==> r == s
  {
    if s == [] then []
    else
      var rest := StripNonDigits(s[1..]);
      assert s == [s[0]] + s[1..];
      if IsDigit(s[0]) then [s[0]] + rest else rest
  }

  predicate IsNumeric(c: char) { IsDigit(c) || c == '.' }

  /** `s.replace(/[^\d.]/g, '')`: every character other than a digit or `.` deleted. */
  function StripNonNumeric(s: string): (r: string)
    ensures |r| <= |s|
    ensures forall i | 0 <= i < |r| :: IsNumeric(r[i])
    ensures AllDigits(s) ==> r == s
  {
    if s == [] then []
    else
      var rest := StripNonNumeric(s[1..]);
      assert s == [s[0]] + s[1..];
      if IsNumeric(s[0]) then [s[0]] + rest else rest
  }

  // ---------------------------------------------------------------------------
  // Lemmas: the conversions agree with one another on the strings the app uses.
  // ---------------------------------------------------------------------------

  lemma {:induction false} DigitsValueSnoc(ds: string, c: char)
    requires AllDigits(ds) && IsDigit(c)
    ensures AllDigits(ds + [c])
    ensures DigitsValue(ds + [c]) == 10 * DigitsValue(ds) + DigitValue(c)
  {
    assert (ds + [c])[..|ds|] == ds;
  }

  /** Printing a natural number and reading its digits back gives the number. */
  lemma {:induction false} DigitsOfNat(n: nat)
    ensures DigitsValue(NatToDigits(n)) == n
  {
    if n >= 10 {
      DigitsOfNat(n / 10);
      DigitsValueSnoc(NatToDigits(n / 10), DigitChar(n % 10));
    }
  }

  lemma {:induction false} DigitRunAll(ds: string)
    requires AllDigits(ds)
    ensures DigitRun(ds) == |ds|
  {
  }

  /** `parseFloat("")` is NaN. */
  lemma {:induction false} ParseFloatEmpty()
    ensures ParseFloat("") == None
  {
    assert TrimStart("") == "";
    assert SplitSign("") == (false, "");
    assert DecimalPrefix("") == None;
  }

  /** `parseFloat` of a non-empty digit string is the value of its digits. */
  lemma {:induction false} ParseFloatDigits(ds: string)
    requires AllDigits(ds) && ds != []
    ensures ParseFloat(ds) == Some(DigitsValue(ds) as real)
  {
    assert !IsSpace(ds[0]);
    assert TrimStart(ds) == ds;
    assert SplitSign(ds) == (false, ds);
    DigitRunAll(ds);
    assert ds[..|ds|] == ds;
    assert DecimalPrefix(ds) == Some((DigitsValue(ds) as real, |ds|));
  }

  /** `parseFloat` of `i.f` with a non-empty integer part is `i + f / 10^|f|`. */
  lemma {:induction false} ParseFloatDecimal(i: string, f: string)
    requires AllDigits(i) && i != [] && AllDigits(f)
    ensures ParseFloat(i + "." + f) == Some(DecimalValue(i, f))
  {
    var s := i + "." + f;
    assert s[0] == i[0] && !IsSpace(s[0]);
    assert TrimStart(s) == s;
    assert SplitSign(s) == (false, s);
    assert s[..|i|] == i;
    assert DigitRun(s) == |i| by {
      assert s[|i|] == '.';
      DigitRunPrefix(s, |i|);
    }
    assert s[|i| + 1..] == f;
    DigitRunAll(f);
    assert f[..|f|] == f;
    DecimalPrefixWithPoint(s, |i|, |f|);
    assert s[|i| + 1..][..|f|] == f;
    assert |i| + 1 + |f| == |s|;
    var v := DecimalValue(i, f);
    assert DecimalPrefix(s) == Some((v, |s|));
    assert PrefixValue(s) == Some(v);
    assert ParseFloat(s) == Negated(PrefixValue(s), false);
  }

  lemma {:induction false} DecimalPrefixWithPoint(s: string, n: nat, m: nat)
    requires n < |s| && DigitRun(s) == n && s[n] == '.' && DigitRun(s[n + 1..]) == m && 0 < n + m
    ensures DecimalPrefix(s) == Some((DecimalValue(s[..n], s[n + 1..][..m]), n + 1 + m))
  {
  }

  /** The digit run of `s` ends at the first non-digit. */
  lemma {:induction false} DigitRunPrefix(s: string, k: nat)
    requires k < |s| && AllDigits(s[..k]) && !IsDigit(s[k])
    ensures DigitRun(s) == k
  {
    if k > 0 {
      assert IsDigit(s[..k][0]);
      assert s[1..][..k - 1] == s[..k][1..];
      DigitRunPrefix(s[1..], k - 1);
    }
  }

  lemma {:induction false} IntPrefixDigits(ds: string)
    requires AllDigits(ds) && ds != []
    ensures IntPrefix(ds) == Some(DigitsValue(ds) as real)
  {
    DigitRunAll(ds);
    assert ds[..|ds|] == ds;
  }

  /** `parseInt` of a digit string, with or without a leading `-`. */
  lemma {:induction false} ParseIntDigits(ds: string)
    requires AllDigits(ds) && ds != []
    ensures ParseInt(ds) == Some(DigitsValue(ds) as real)
    ensures ParseInt("-" + ds) == Some(-(DigitsValue(ds) as real))
  {
    IntPrefixDigits(ds);
    DigitsUnprefixed(ds);
    ParseIntPlain(ds);
    NegativeDigits("-" + ds, ds);
  }

  lemma {:induction false} NegativeDigits(t: string, ds: string)
    requires AllDigits(ds) && ds != [] && t == "-" + ds
    ensures ParseInt(t) == Some(-(DigitsValue(ds) as real))
  {
    assert t[0] == '-' && t[1..] == ds;
    IntPrefixDigits(ds);
    DigitsUnprefixed(ds);
    ParseIntMinus(t);
  }

  /** A digit string carries no `0x`, `0o` or `0b` prefix. */
  lemma {:induction false} DigitsUnprefixed(ds: string)
    requires AllDigits(ds)
    ensures PrefixRadix(ds) == 10
  {
    if |ds| >= 2 {
      assert IsDigit(ds[1]);
    }
  }

  lemma {:induction false} ParseIntPlain(u: string)
    requires u != [] && IsDigit(u[0]) && PrefixRadix(u) == 10
    ensures ParseInt(u) == IntPrefix(u)
  {
    assert TrimStart(u) == u;
    assert SplitSign(u) == (false, u);
  }

  lemma {:induction false} ParseIntMinus(t: string)
    requires t != [] && t[0] == '-' && PrefixRadix(t[1..]) == 10
    ensures ParseInt(t) == Negated(IntPrefix(t[1..]), true)
  {
    assert TrimStart(t) == t;
    assert SplitSign(t) == (true, t[1..]);
  }

  /** A run made only of base-`radix` digits is read whole. */
  lemma {:induction false} RadixRunAll(ds: string, radix: nat)
    requires AllRadixDigits(ds, radix)
    ensures RadixRun(ds, radix) == |ds|
  {
    if ds != [] {
      assert AllRadixDigits(ds[1..], radix) by {
        forall i | 0 <= i < |ds[1..]| ensures IsRadixDigit(ds[1..][i], radix) {
          assert ds[1..][i] == ds[i + 1];
        }
      }
      RadixRunAll(ds[1..], radix);
    }
  }

  /** `parseInt("0x" + ds)` reads the hexadecimal digits `ds`. */
  lemma {:induction false} ParseIntHex(t: string, ds: string)
    requires AllRadixDigits(ds, 16) && ds != [] && (t == "0x" + ds || t == "0X" + ds)
    ensures ParseInt(t) == Some(RadixValue(ds, 16) as real)
  {
    assert t[0] == '0' && !IsSpace(t[0]);
    assert TrimStart(t) == t;
    assert SplitSign(t) == (false, t);
    assert PrefixRadix(t) == 16;
    assert t[2..] == ds;
    RadixRunAll(ds, 16);
    assert ds[..|ds|] == ds;
  }

  /** `Number("0x" + ds)` is the value of the hexadecimal digits `ds`. */
  lemma {:induction false} ToNumberHex(t: string, ds: string)
    requires AllRadixDigits(ds, 16) && ds != [] && (t == "0x" + ds || t == "0X" + ds)
    ensures ToNumber(t) == Some(RadixValue(ds, 16) as real)
  {
    assert t[0] == '0' && !IsSpace(t[0]);
    assert TrimStart(t) == t;
    assert t[|t| - 1] == ds[|ds| - 1] && IsRadixDigit(ds[|ds| - 1], 16);
    assert TrimEnd(t) == t;
    assert PrefixRadix(t) == 16;
    assert t[2..] == ds;
    RadixRunAll(ds, 16);
    assert ds[..|ds|] == ds;
    assert WholeRadix(ds, 16) == Some(RadixValue(ds, 16) as real);
  }

  /** A sign before a `0x` literal makes `Number` NaN. */
  lemma {:induction false} ToNumberSignedHex(t: string, ds: string)
    requires AllRadixDigits(ds, 16) && ds != [] && t == "-0x" + ds
    ensures ToNumber(t) == None
  {
    assert t[0] == '-' && !IsSpace(t[0]);
    assert TrimStart(t) == t;
    assert t[|t| - 1] == ds[|ds| - 1] && IsRadixDigit(ds[|ds| - 1], 16);
    assert TrimEnd(t) == t;
    assert PrefixRadix(t) == 10;
    var u := t[1..];
    assert SplitSign(t) == (true, u);
    assert u[0] == '0' && u[1] == 'x';
    assert DigitRun(u) == 1 by { DigitRunPrefix(u, 1); }
    assert WholeValue(u) == None;
  }

  /** `parseInt(String(n))` gives back `n`. */
  lemma {:induction false} ParseIntOfIntString(n: int)
    ensures ParseInt(IntToString(n)) == Some(n as real)
  {
    var m: nat := if n < 0 then -n else n;
    DigitsOfNat(m);
    ParseIntDigits(NatToDigits(m));
  }

  /**
   * Cleaning `String(n)` of everything but digits and `.` and parsing it gives the
   * magnitude of `n`: the sign is one of the deleted characters.
   */
  lemma {:induction false} CleanedIntString(n: int)
    ensures ParseFloat(StripNonNumeric(IntToString(n))) == Some((if n < 0 then -n else n) as real)
  {
    var m: nat := if n < 0 then -n else n;
    var ds := NatToDigits(m);
    DigitsOfNat(m);
    if n < 0 {
      assert StripNonNumeric("-" + ds) == StripNonNumeric(ds) by {
        assert ("-" + ds)[1..] == ds;
      }
    }
    ParseFloatDigits(ds);
  }
}
