/**
 * The few JavaScript value semantics the views rely on: the values stored in
 * bookmark records (compared with strict `===`), the result of `parseInt`,
 * `Math.max`/`Math.min` with `NaN`, and ASCII lower-casing and substring search.
 */
module JsValues {

  /** A field of a bookmark record: a string, a number, or absent (`undefined`). */
  datatype Val = Str(s: string) | Num(n: int) | Undef

  /** A JavaScript number as produced by `parseInt`: not-a-number or an integer. */
  datatype JsNumber = NaN | Int(i: int)

  predicate IsAsciiSpace(c: char) {
    c == ' ' || c == '\t' || c == '\n' || c == '\r' || c == '\U{000B}' || c == '\U{000C}'
  }

  /** The value of `c` as a digit in base `radix`, or -1 when it is not one. */
  function DigitValue(c: char, radix: nat): (d: int)
    requires radix == 10 || radix == 16
    ensures -1 <= d < radix as int
    ensures '0' <= c <= '9' ==> d == c as int - '0' as int
  {
    if '0' <= c <= '9' then c as int - '0' as int
    else if radix == 16 && 'a' <= c <= 'f' then c as int - 'a' as int + 10
    else if radix == 16 && 'A' <= c <= 'F' then c as int - 'A' as int + 10
    else -1
  }

  /** Length of the longest prefix of `s` made of digits in base `radix`. */
  function DigitRun(s: string, radix: nat): (k: nat)
    requires radix == 10 || radix == 16
    ensures k <= |s|
    ensures forall i :: 0 <= i < k ==> DigitValue(s[i], radix) >= 0
    ensures k < |s| ==> DigitValue(s[k], radix) < 0
  {
    if s == [] || DigitValue(s[0], radix) < 0 then 0 else 1 + DigitRun(s[1..], radix)
  }

  /** The numeric value of a string of digits in base `radix`, most significant first. */
  function DigitsValue(s: string, radix: nat): (v: nat)
    requires radix == 10 || radix == 16
    requires forall i :: 0 <= i < |s| ==> DigitValue(s[i], radix) >= 0
  {
    if s == [] then 0
    else DigitsValue(s[..|s| - 1], radix) * radix + DigitValue(s[|s| - 1], radix)
  }

  function SkipSpaces(s: string): (r: string)
    ensures |r| <= |s| && r == s[|s| - |r|..]
    ensures r != [] ==> !IsAsciiSpace(r[0])
  {
    if s != [] && IsAsciiSpace(s[0]) then SkipSpaces(s[1..]) else s
  }

  /**
   * `parseInt(s)` (when `radixTen` is false, no radix is passed and a `0x`/`0X`
   * prefix selects base 16) or `parseInt(s, 10)` (when `radixTen` is true):
   * leading white space, an optional sign, then the longest run of digits;
   * `NaN` when that run is empty.
   */
  function ParseInt(s: string, radixTen: bool): (r: JsNumber) {
    var t := SkipSpaces(s);
    var neg := t != [] && t[0] == '-';
    var u := if t != [] && (t[0] == '-' || t[0] == '+') then t[1..] else t;
    match ParseMagnitude(u, radixTen)
    case NaN => NaN
    case Int(v) => Int(if neg then -v else v)
  }

  /** The unsigned part: an optional `0x` prefix (only when no radix is given), then the longest run of digits. */
  function ParseMagnitude(u: string, radixTen: bool): (r: JsNumber)
    ensures r.Int? ==> r.i >= 0
  {
    var hex := !radixTen && |u| >= 2 && u[0] == '0' && (u[1] == 'x' || u[1] == 'X');
    var radix: nat := if hex then 16 else 10;
    var w := if hex then u[2..] else u;
    var k := DigitRun(w, radix);
    if k == 0 then NaN else Int(DigitsValue(w[..k], radix))
  }

  /** The decimal spelling of a natural number, as JavaScript's `String(n)` gives it. */
  function NatToString(n: nat): (s: string)
    ensures s != []
    ensures forall i :: 0 <= i < |s| ==> '0' <= s[i] <= '9'
    ensures |s| > 1 ==> s[0] != '0'
  {
    if n < 10 then [('0' as int + n) as char]
    else NatToString(n / 10) + [('0' as int + n % 10) as char]
  }

  lemma {:induction false} DigitsValueOfNatToString(n: nat)
    ensures forall i :: 0 <= i < |NatToString(n)| ==> DigitValue(NatToString(n)[i], 10) >= 0
    ensures DigitsValue(NatToString(n), 10) == n
  {
    var s := NatToString(n);
    if n >= 10 {
      DigitsValueOfNatToString(n / 10);
      assert s[..|s| - 1] == NatToString(n / 10);
    }
  }

  /** `parseInt` reads a string of decimal digits without a `0x` prefix as its value. */
  lemma ParseIntOfDigits(s: string, radixTen: bool)
    requires s != []
    requires forall i :: 0 <= i < |s| ==> '0' <= s[i] <= '9'
    requires |s| > 1 ==> s[0] != '0'
    ensures ParseInt(s, radixTen) == Int(DigitsValue(s, 10))
  {
    ParseIntOfUnsigned(s, radixTen);
    MagnitudeOfDigits(s, radixTen);
  }

  lemma MagnitudeOfDigits(s: string, radixTen: bool)
    requires s != []
    requires forall i :: 0 <= i < |s| ==> '0' <= s[i] <= '9'
    requires |s| > 1 ==> s[0] != '0'
    ensures ParseMagnitude(s, radixTen) == Int(DigitsValue(s, 10))
  {
    assert !(|s| >= 2 && s[0] == '0');
    DigitRunAll(s, 10);
    assert s[..|s|] == s;
  }

  /** `parseInt` reads back the decimal spelling of every natural number. */
  lemma ParseIntOfNatToString(n: nat, radixTen: bool)
    ensures ParseInt(NatToString(n), radixTen) == Int(n)
  {
    DigitsValueOfNatToString(n);
    ParseIntOfDigits(NatToString(n), radixTen);
  }

  /**
   * `parseInt` ignores whatever follows the digits: the spelling of a
   * positive number followed by anything that does not start with a digit
   * reads as that number.
   */
  lemma ParseIntIgnoresTail(n: nat, rest: string, radixTen: bool)
    requires n >= 1
    requires rest == [] || DigitValue(rest[0], 10) < 0
    ensures ParseInt(NatToString(n) + rest, radixTen) == Int(n)
  {
    var d := NatToString(n);
    DigitsValueOfNatToString(n);
    assert d[0] != '0' by {
      if |d| == 1 { assert d == [('0' as int + n) as char]; }
    }
    var s := d + rest;
    assert s[0] == d[0];
    ParseIntOfUnsigned(s, radixTen);
    MagnitudeIgnoresTail(d, rest, radixTen);
  }

  /** A zero in front of a decimal spelling does not change what `parseInt` reads. */
  lemma ParseIntLeadingZero(n: nat, radixTen: bool)
    ensures ParseInt("0" + NatToString(n), radixTen) == Int(n)
  {
    var d := NatToString(n);
    DigitsValueOfNatToString(n);
    ParseIntOfUnsigned("0" + d, radixTen);
    MagnitudeOfLeadingZero(d, radixTen);
  }

  lemma MagnitudeOfLeadingZero(d: string, radixTen: bool)
    requires d != [] && '0' <= d[0] <= '9'
    requires forall i :: 0 <= i < |d| ==> DigitValue(d[i], 10) >= 0
    ensures ParseMagnitude("0" + d, radixTen) == Int(DigitsValue(d, 10))
  {
    var s := "0" + d;
    assert s[1] == d[0];
    DigitsValueLeadingZero(d);
    DigitRunAll(s, 10);
    assert s[..|s|] == s;
  }

  lemma {:induction false} DigitsValueLeadingZero(d: string)
    requires forall i :: 0 <= i < |d| ==> DigitValue(d[i], 10) >= 0
    ensures forall i :: 0 <= i < |"0" + d| ==> DigitValue(("0" + d)[i], 10) >= 0
    ensures DigitsValue("0" + d, 10) == DigitsValue(d, 10)
  {
    var s := "0" + d;
    assert forall i :: 0 < i < |s| ==> s[i] == d[i - 1];
    if d == [] {
      assert s[..|s| - 1] == [];
    } else {
      var init := d[..|d| - 1];
      DigitsValueLeadingZero(init);
      assert s[..|s| - 1] == "0" + init;
      assert s[|s| - 1] == d[|d| - 1];
    }
  }

  /** Without leading space or sign, `parseInt` reads just the magnitude. */
  lemma ParseIntOfUnsigned(s: string, radixTen: bool)
    requires s != [] && '0' <= s[0] <= '9'
    ensures ParseInt(s, radixTen) == ParseMagnitude(s, radixTen)
  {
    assert !IsAsciiSpace(s[0]) && s[0] != '-' && s[0] != '+';
    assert SkipSpaces(s) == s;
  }

  /** The magnitude read from decimal digits (no leading zero) followed by a non-digit. */
  lemma MagnitudeIgnoresTail(d: string, rest: string, radixTen: bool)
    requires d != [] && d[0] != '0'
    requires forall i :: 0 <= i < |d| ==> DigitValue(d[i], 10) >= 0
    requires rest == [] || DigitValue(rest[0], 10) < 0
    ensures ParseMagnitude(d + rest, radixTen) == Int(DigitsValue(d, 10))
  {
    var s := d + rest;
    assert s[0] == d[0];
    DigitRunPrefix(d, rest, 10);
    assert s[..|d|] == d;
  }

  lemma {:induction false} DigitRunPrefix(d: string, rest: string, radix: nat)
    requires radix == 10 || radix == 16
    requires forall i :: 0 <= i < |d| ==> DigitValue(d[i], radix) >= 0
    requires rest == [] || DigitValue(rest[0], radix) < 0
    ensures DigitRun(d + rest, radix) == |d|
  {
    if d == [] {
      assert d + rest == rest;
    } else {
      assert (d + rest)[1..] == d[1..] + rest;
      DigitRunPrefix(d[1..], rest, radix);
    }
  }

  lemma {:induction false} DigitRunAll(s: string, radix: nat)
    requires radix == 10 || radix == 16
    requires forall i :: 0 <= i < |s| ==> DigitValue(s[i], radix) >= 0
    ensures DigitRun(s, radix) == |s|
  {
    if s != [] { DigitRunAll(s[1..], radix); }
  }

  /** `Math.max(a, b)` with an integer `a`: `NaN` when `b` is. */
  function MaxJs(a: int, b: JsNumber): (r: JsNumber)
    ensures b.NaN? <==> r.NaN?
    ensures b.Int? ==> r.i >= a && r.i >= b.i && (r.i == a || r.i == b.i)
  {
    match b
    case NaN => NaN
    case Int(i) => Int(if a >= i then a else i)
  }

  /** `Math.min(a, b)` with an integer `a`: `NaN` when `b` is. */
  function MinJs(a: int, b: JsNumber): (r: JsNumber)
    ensures b.NaN? <==> r.NaN?
    ensures b.Int? ==> r.i <= a && r.i <= b.i && (r.i == a || r.i == b.i)
  {
    match b
    case NaN => NaN
    case Int(i) => Int(if a <= i then a else i)
  }

  /** `n + d` on a JavaScript number (`NaN` stays `NaN`). */
  function AddJs(n: JsNumber, d: int): JsNumber {
    match n
    case NaN => NaN
    case Int(i) => Int(i + d)
  }

  /** `n < k`, `n > k`, `n <= k`, `n >= k` are all false when `n` is `NaN`. */
  predicate LessJs(n: JsNumber, k: int) { n.Int? && n.i < k }
  predicate GreaterJs(n: JsNumber, k: int) { n.Int? && n.i > k }
  predicate AtMostJs(n: JsNumber, k: int) { n.Int? && n.i <= k }
  predicate AtLeastJs(n: JsNumber, k: int) { n.Int? && n.i >= k }

  function LowerChar(c: char): char {
    if 'A' <= c <= 'Z' then (c as int + 32) as char else c
  }

  /** `toLowerCase` restricted to ASCII letters. */
  function Lower(s: string): (r: string)
    ensures |r| == |s|
    ensures forall i :: 0 <= i < |s| ==> r[i] == LowerChar(s[i])
  {
    if s == [] then [] else [LowerChar(s[0])] + Lower(s[1..])
  }

  /** `s.includes(q)`: `q` occurs in `s` as a contiguous piece. */
  predicate Includes(s: string, q: string) {
    exists i | 0 <= i <= |s| - |q| :: OccursAt(s, q, i)
  }

  /** `q` occurs in `s` starting at position `i`. */
  predicate OccursAt(s: string, q: string, i: int) {
    0 <= i <= |s| - |q| && s[i..i + |q|] == q
  }

  /** Every string includes the empty string. */
  lemma IncludesEmpty(s: string)
    ensures Includes(s, [])
  {
    assert OccursAt(s, [], 0);
  }
}
