/**
 * JavaScript values and the handful of coercions (`Number`, `String`,
 * `Boolean`, `trim`, `toLowerCase`, `includes`) that the diagram editor's
 * data layer relies on. Numbers are modelled as mathematical reals; NaN is
 * a separate value.
 */
module Js {

  datatype Option<+T> = None | Some(value: T)

  /** A JavaScript value as it can appear in node and edge records. */
  datatype Value = Num(n: real) | NaN | Str(s: string) | Bool(b: bool) | Null | Undef

  /** Truthiness, the coercion performed by `Boolean(v)`, `!v`, `v || d` and `if (v)`. */
  predicate Truthy(v: Value)
  {
    match v
    case Num(n) => n != 0.0
    case NaN => false
    case Str(s) => s != ""
    case Bool(b) => b
    case Null => false
    case Undef => false
  }

  /** `v ?? d`: the default replaces null and undefined only. */
  function Coalesce(v: Value, d: Value): (r: Value)
    ensures (v.Null? || v.Undef?) ==> r == d
    ensures !(v.Null? || v.Undef?) ==> r == v
  {
    if v.Null? || v.Undef? then d else v
  }

  /** `v || d`: the default replaces every falsy value. */
  function Or(v: Value, d: Value): (r: Value)
    ensures Truthy(v) ==> r == v
    ensures !Truthy(v) ==> r == d
  {
    if Truthy(v) then v else d
  }

  /** Property read on a record: a missing key reads as undefined. */
  function Get(m: map<string, Value>, k: string): (r: Value)
    ensures k !in m ==> r == Undef
    ensures k in m ==> r == m[k]
  {
    if k in m then m[k] else Undef
  }

  /**
   * The property names every plain object inherits from `Object.prototype`.
   * Indexing a record literal with one of them reads the inherited member (a
   * function, or `Object.prototype` itself for `__proto__`), which is truthy.
   */
  predicate InheritedName(k: string)
  {
    k in {"constructor", "toString", "toLocaleString", "valueOf", "hasOwnProperty", "isPrototypeOf",
          "propertyIsEnumerable", "__proto__", "__defineGetter__", "__defineSetter__",
          "__lookupGetter__", "__lookupSetter__"}
  }

  /** An inherited name starts with a lower-case letter or `_`. */
  lemma InheritedNameStart(k: string)
    requires InheritedName(k)
    ensures |k| > 0 && ('a' <= k[0] <= 'z' || k[0] == '_')
  {
  }

  // ---------------------------------------------------------------------
  // Characters and strings
  // ---------------------------------------------------------------------

  /** ECMAScript WhiteSpace and LineTerminator code points (what `trim` removes). */
  predicate IsWhite(c: char)
  {
    c == '\t' || c == '\n' || c == '\U{B}' || c == '\U{C}' || c == '\r' || c == ' '
    || c == '\U{A0}' || c == '\U{1680}' || ('\U{2000}' <= c <= '\U{200A}')
    || c == '\U{2028}' || c == '\U{2029}' || c == '\U{202F}' || c == '\U{205F}'
    || c == '\U{3000}' || c == '\U{FEFF}'
  }

  function TrimStart(s: string): (r: string)
    ensures |r| <= |s|
    ensures r != [] ==> !IsWhite(r[0])
  {
    if s != [] && IsWhite(s[0]) then TrimStart(s[1..]) else s
  }

  function TrimEnd(s: string): (r: string)
    ensures |r| <= |s|
    ensures r != [] ==> !IsWhite(r[|r| - 1])
  {
    if s != [] && IsWhite(s[|s| - 1]) then TrimEnd(s[..|s| - 1]) else s
  }

  /** `trimStart` removes a prefix and keeps the rest. */
  lemma {:induction false} TrimStartSuffix(s: string)
    ensures TrimStart(s) == s[|s| - |TrimStart(s)|..]
  {
    if s != [] && IsWhite(s[0]) {
      TrimStartSuffix(s[1..]);
      assert s[1..][|s| - 1 - |TrimStart(s)|..] == s[|s| - |TrimStart(s)|..];
    }
  }

  /** `trimEnd` removes a suffix and keeps the rest. */
  lemma {:induction false} TrimEndPrefix(s: string)
    ensures TrimEnd(s) == s[..|TrimEnd(s)|]
  {
    if s != [] && IsWhite(s[|s| - 1]) {
      TrimEndPrefix(s[..|s| - 1]);
      assert s[..|s| - 1][..|TrimEnd(s)|] == s[..|TrimEnd(s)|];
    }
  }

  /** What `trimStart` removes is white space. */
  lemma {:induction false} TrimStartRemovesWhite(s: string)
    ensures forall i :: 0 <= i < |s| - |TrimStart(s)| ==> IsWhite(s[i])
  {
    if s != [] && IsWhite(s[0]) {
      var t := s[1..];
      TrimStartRemovesWhite(t);
      assert TrimStart(s) == TrimStart(t);
      forall i | 0 < i < |s| - |TrimStart(s)|
        ensures IsWhite(s[i])
      {
        assert s[i] == t[i - 1];
      }
    }
  }

  /** What `trimEnd` removes is white space. */
  lemma {:induction false} TrimEndRemovesWhite(s: string)
    ensures forall i :: |TrimEnd(s)| <= i < |s| ==> IsWhite(s[i])
  {
    if s != [] && IsWhite(s[|s| - 1]) {
      var t := s[..|s| - 1];
      TrimEndRemovesWhite(t);
      assert TrimEnd(s) == TrimEnd(t);
      forall i | |TrimEnd(s)| <= i < |s| - 1
        ensures IsWhite(s[i])
      {
        assert s[i] == t[i];
      }
    }
  }

  /** `String.prototype.trim`. */
  function Trim(s: string): string
  {
    TrimEnd(TrimStart(s))
  }

  predicate NoWhite(s: string)
  {
    forall i :: 0 <= i < |s| ==> !IsWhite(s[i])
  }

  lemma TrimNoWhite(s: string)
    requires NoWhite(s)
    ensures Trim(s) == s
  {
    var a := TrimStart(s);
    assert a == s;
    assert TrimEnd(a) == a;
  }

  /** `toLowerCase` restricted to ASCII letters. */
  function LowerChar(c: char): (r: char)
    ensures 'A' <= c <= 'Z' ==> r as int == c as int + 32
    ensures !('A' <= c <= 'Z') ==> r == c
  {
    if 'A' <= c <= 'Z' then (c as int + 32) as char else c
  }

  function Lower(s: string): (r: string)
    ensures |r| == |s|
    ensures forall i {:trigger r[i]} :: 0 <= i < |s| ==> r[i] == LowerChar(s[i])
  {
    seq(|s|, i requires 0 <= i < |s| => LowerChar(s[i]))
  }

  /** `s.includes(t)`: t occurs as a contiguous substring of s. */
  predicate Includes(s: string, t: string)
    decreases |s|
  {
    t <= s || (s != [] && Includes(s[1..], t))
  }

  lemma {:induction false} IncludesAt(s: string, t: string, i: nat)
    requires i + |t| <= |s| && s[i..i + |t|] == t
    ensures Includes(s, t)
    decreases i
  {
    if i == 0 {
      assert s[..|t|] == t;
    } else {
      assert s[1..][i - 1..i - 1 + |t|] == s[i..i + |t|];
      IncludesAt(s[1..], t, i - 1);
    }
  }

  lemma IncludesAppend(a: string, t: string, b: string)
    ensures Includes(a + t + b, t)
  {
    assert (a + t + b)[|a|..|a| + |t|] == t;
    IncludesAt(a + t + b, t, |a|);
  }

  // ---------------------------------------------------------------------
  // Digits
  // ---------------------------------------------------------------------

  predicate IsDigit(c: char) { '0' <= c <= '9' }

  function DigitChar(d: nat): (c: char)
    requires d < 10
    ensures IsDigit(c) && c as int - '0' as int == d
  {
    ('0' as int + d) as char
  }

  predicate AllDigits(s: string)
  {
    forall i :: 0 <= i < |s| ==> IsDigit(s[i])
  }

  /** Value of a string of decimal digits, most significant first. */
  function DigitsValue(s: string): nat
    requires AllDigits(s)
  {
    if s == [] then 0 else 10 * DigitsValue(s[..|s| - 1]) + (s[|s| - 1] as int - '0' as int)
  }

  /** Decimal rendering of a natural number without leading zeros. */
  function NatToString(n: nat): (r: string)
    ensures |r| > 0 && AllDigits(r)
    ensures |r| > 1 ==> r[0] != '0'
  {
    if n < 10 then [DigitChar(n)] else NatToString(n / 10) + [DigitChar(n % 10)]
  }

  lemma {:induction false} NatToStringValue(n: nat)
    ensures DigitsValue(NatToString(n)) == n
  {
    if n >= 10 {
      var s := NatToString(n);
      assert s[..|s| - 1] == NatToString(n / 10);
      NatToStringValue(n / 10);
    }
  }

  lemma NatToStringInjective(m: nat, n: nat)
    requires NatToString(m) == NatToString(n)
    ensures m == n
  {
    NatToStringValue(m);
    NatToStringValue(n);
  }

  /** In a run of digits followed by a separator, the separator first occurs right after the digits. */
  lemma SeparatorAfterDigits(x: string, rest: string, sep: char)
    requires AllDigits(x) && !IsDigit(sep)
    ensures (x + [sep] + rest)[|x|] == sep
    ensures forall i :: 0 <= i < |x| ==> (x + [sep] + rest)[i] != sep
  {
  }

  /** A run of digits followed by a separator can be split off unambiguously. */
  lemma DigitsSeparated(a: string, b: string, c: string, d: string, sep: char)
    requires AllDigits(a) && AllDigits(c) && !IsDigit(sep)
    requires a + [sep] + b == c + [sep] + d
    ensures a == c && b == d
  {
    var l := a + [sep] + b;
    SeparatorAfterDigits(a, b, sep);
    SeparatorAfterDigits(c, d, sep);
    assert |a| == |c|;
    assert a == l[..|a|] == c;
    assert b == l[|a| + 1..] == d;
  }

  function IntToString(i: int): (r: string)
    ensures |r| > 0
    ensures i < 0 <==> r[0] == '-'
  {
    if i < 0 then "-" + NatToString(-i) else NatToString(i)
  }

  /** `m` times ten to the power `e`, by repeated multiplication or division by ten. */
  function TimesPow10(m: real, e: int): real
    decreases if e < 0 then -e else e
  {
    if e == 0 then m else if e > 0 then 10.0 * TimesPow10(m, e - 1) else TimesPow10(m, e + 1) / 10.0
  }

  // ---------------------------------------------------------------------
  // Number(s): StringToNumber
  // ---------------------------------------------------------------------

  /** Index of the first position at or after i that does not hold a decimal digit. */
  function DigitSpan(s: string, i: nat): (j: nat)
    requires i <= |s|
    ensures i <= j <= |s|
    ensures AllDigits(s[i..j])
    ensures j < |s| ==> !IsDigit(s[j])
    decreases |s| - i
  {
    if i < |s| && IsDigit(s[i]) then DigitSpan(s, i + 1) else i
  }

  /** Digit value in the given radix (2, 8 or 16), if c is such a digit. */
  function RadixDigit(c: char, radix: nat): Option<nat>
  {
    var d :=
      if '0' <= c <= '9' then c as int - '0' as int
      else if 'a' <= c <= 'f' then c as int - 'a' as int + 10
      else if 'A' <= c <= 'F' then c as int - 'A' as int + 10
      else 99;
    if 0 <= d < radix then Some(d) else None
  }

  /** Value of a whole string of radix digits; None if the string is empty or holds another character. */
  function RadixValue(s: string, radix: nat): (r: Option<nat>)
    ensures s == [] ==> r.None?
  {
    if s == [] then None
    else
      var last := RadixDigit(s[|s| - 1], radix);
      if last.None? then None
      else if |s| == 1 then last
      else
        var front := RadixValue(s[..|s| - 1], radix);
        if front.None? then None else Some(radix * front.value + last.value)
  }

  /** An unsigned decimal literal: digits, an optional fraction, an optional exponent. */
  function UnsignedDecimal(t: string): Option<real>
  {
    var i := DigitSpan(t, 0);
    var hasDot := i < |t| && t[i] == '.';
    var j := if hasDot then DigitSpan(t, i + 1) else i;
    var frac := if hasDot then t[i + 1..j] else "";
    if i + |frac| == 0 then None
    else WithExponent(DigitsValue(t[..i]) as real + TimesPow10(DigitsValue(frac) as real, -|frac|), t[j..])
  }

  /**
   * What follows the digits of a decimal literal: nothing, or `e`/`E`, an
   * optional sign and at least one digit, which scale the mantissa `m`.
   */
  function WithExponent(m: real, rest: string): Option<real>
  {
    if rest == [] then Some(m)
    else if rest[0] != 'e' && rest[0] != 'E' then None
    else
      var k := if 1 < |rest| && (rest[1] == '+' || rest[1] == '-') then 2 else 1;
      var e := DigitSpan(rest, k);
      if e != |rest| || e == k then None
      else
        var ex: int := DigitsValue(rest[k..e]);
        Some(TimesPow10(m, if rest[1] == '-' then -ex else ex))
  }

  lemma {:induction false} DigitSpanAll(t: string, i: nat)
    requires AllDigits(t) && i <= |t|
    ensures DigitSpan(t, i) == |t|
    decreases |t| - i
  {
    if i < |t| { DigitSpanAll(t, i + 1); }
  }

  lemma UnsignedDecimalDigits(t: string)
    requires AllDigits(t) && t != []
    ensures UnsignedDecimal(t) == Some(DigitsValue(t) as real)
  {
    DigitSpanAll(t, 0);
    assert t[..|t|] == t;
  }

  /**
   * `Number(s)` for a string: surrounding white space is ignored, the empty
   * string is 0, and a signed decimal literal or an unsigned 0x/0o/0b
   * literal gives its value; anything else is NaN (None).
   */
  function ParseNumber(s: string): (r: Option<real>)
    ensures Trim(s) == [] ==> r == Some(0.0)
  {
    var t := Trim(s);
    if t == [] then Some(0.0) else ParseLiteral(t)
  }

  /** A trimmed, nonempty literal: 0x/0o/0b followed by digits of that radix, or a signed decimal. */
  function ParseLiteral(t: string): Option<real>
    requires t != []
  {
    if |t| > 2 && t[0] == '0' && (t[1] == 'x' || t[1] == 'X') then RadixNumber(t[2..], 16)
    else if |t| > 2 && t[0] == '0' && (t[1] == 'o' || t[1] == 'O') then RadixNumber(t[2..], 8)
    else if |t| > 2 && t[0] == '0' && (t[1] == 'b' || t[1] == 'B') then RadixNumber(t[2..], 2)
    else SignedDecimal(t)
  }

  function RadixNumber(s: string, radix: nat): Option<real>
  {
    var v := RadixValue(s, radix);
    if v.Some? then Some(v.value as real) else None
  }

  /** A decimal literal with an optional leading sign. */
  function SignedDecimal(t: string): Option<real>
    requires t != []
  {
    if t[0] == '-' then
      var v := UnsignedDecimal(t[1..]); if v.Some? then Some(-v.value) else None
    else if t[0] == '+' then UnsignedDecimal(t[1..])
    else UnsignedDecimal(t)
  }


  lemma AllDigitsNoWhite(s: string)
    requires AllDigits(s)
    ensures NoWhite(s)
  {
  }

  /** A digit string with no 0x/0o/0b prefix reads as its decimal value. */
  lemma ParseDigits(d: string)
    requires AllDigits(d) && d != []
    ensures ParseNumber(d) == Some(DigitsValue(d) as real)
  {
    AllDigitsNoWhite(d);
    TrimNoWhite(d);
    assert IsDigit(d[0]);
    assert |d| > 1 ==> IsDigit(d[1]);
    UnsignedDecimalDigits(d);
  }

  /** A minus sign followed by digits reads as the negated decimal value. */
  lemma ParseNegDigits(d: string)
    requires AllDigits(d) && d != []
    ensures ParseNumber("-" + d) == Some(-(DigitsValue(d) as real))
  {
    var s := "-" + d;
    AllDigitsNoWhite(d);
    assert NoWhite(s) by {
      forall i | 0 <= i < |s| ensures !IsWhite(s[i]) {
        if i > 0 { assert s[i] == d[i - 1]; }
      }
    }
    TrimNoWhite(s);
    assert ParseNumber(s) == SignedDecimal(s);
    assert s[1..] == d;
    UnsignedDecimalDigits(d);
  }

  /** Every integer survives `Number(String(i))`. */
  lemma ParseIntToString(i: int)
    ensures ParseNumber(IntToString(i)) == Some(i as real)
  {
    if i < 0 {
      var d := NatToString(-i);
      assert IntToString(i) == "-" + d;
      NatToStringValue(-i);
      ParseNegDigits(d);
    } else {
      var d := NatToString(i);
      assert IntToString(i) == d;
      NatToStringValue(i);
      ParseDigits(d);
    }
  }

  // ---------------------------------------------------------------------
  // String(n) and the value coercions
  // ---------------------------------------------------------------------

  /** Up to k fractional digits of f (0 <= f < 1), stopping as soon as the rest is zero. */
  function FractionDigits(f: real, k: nat): (r: string)
    requires 0.0 <= f < 1.0
    ensures AllDigits(r) && |r| <= k
    decreases k
  {
    if k == 0 || f == 0.0 then ""
    else
      var d := (f * 10.0).Floor;
      [DigitChar(d)] + FractionDigits(f * 10.0 - d as real, k - 1)
  }

  /**
   * `String(n)` for a number: integers print exactly; other values print
   * their decimal expansion, cut off after 20 fractional digits.
   */
  function NumToString(n: real): (r: string)
    ensures n == n.Floor as real ==> r == IntToString(n.Floor)
  {
    if n == n.Floor as real then IntToString(n.Floor)
    else
      var a := if n < 0.0 then -n else n;
      var whole := a.Floor;
      (if n < 0.0 then "-" else "") + NatToString(whole) + "." + FractionDigits(a - whole as real, 20)
  }

  /** `String(v)`. */
  function ToStr(v: Value): string
  {
    match v
    case Num(n) => NumToString(n)
    case NaN => "NaN"
    case Str(s) => s
    case Bool(b) => if b then "true" else "false"
    case Null => "null"
    case Undef => "undefined"
  }

  /** `Number(v)`; None stands for NaN. */
  function ToNumber(v: Value): (r: Option<real>)
    ensures v.Num? ==> r == Some(v.n)
    ensures v.NaN? || v.Undef? ==> r.None?
    ensures v.Null? ==> r == Some(0.0)
    ensures v.Bool? ==> r == Some(if v.b then 1.0 else 0.0)
  {
    match v
    case Num(n) => Some(n)
    case NaN => None
    case Str(s) => ParseNumber(s)
    case Bool(b) => Some(if b then 1.0 else 0.0)
    case Null => Some(0.0)
    case Undef => None
  }

  /** The value a JavaScript number has once it is stored. */
  function FromNumber(r: Option<real>): (v: Value)
    ensures r.Some? <==> v.Num?
    ensures r.Some? ==> v == Num(r.value)
    ensures ToNumber(v) == r
  {
    if r.Some? then Num(r.value) else NaN
  }

  lemma ToStrOfIntRoundTrips(i: int)
    ensures ToNumber(Str(ToStr(Num(i as real)))) == Some(i as real)
  {
    assert (i as real).Floor == i;
    ParseIntToString(i);
  }
}
