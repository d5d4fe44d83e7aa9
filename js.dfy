/** The slice of JavaScript semantics the dog-park finder relies on: values as
    `JSON.parse` produces them, truthiness, `||` chains, optional property
    access, `Number(...)` coercion and the string helpers `trim` and
    `toLowerCase`. Numbers are exact reals; NaN is kept apart in `Numeric`. */
module Js {

  datatype Option<T> = None | Some(value: T)

  /** A value as it arrives from `JSON.parse`, plus `undefined` for a property
      that is not there. */
  datatype Value =
    | Undefined
    | Null
    | Bool(b: bool)
    | Num(x: real)
    | Str(s: string)
    | Arr(items: seq<Value>)
    | Obj(fields: map<string, Value>)

  /** The outcome of `Number(...)`: NaN, or a number. */
  datatype Numeric = NaN | Finite(value: real)

  /** JavaScript truthiness, `!!v`. */
  predicate Truthy(v: Value) {
    match v
    case Undefined => false
    case Null => false
    case Bool(b) => b
    case Num(x) => x != 0.0
    case Str(s) => s != ""
    case Arr(_) => true
    case Obj(_) => true
  }

  /** `a || b` */
  function Or(a: Value, b: Value): Value {
    if Truthy(a) then a else b
  }

  /** `v?.key` for the named (non-index) properties the program reads: only a
      plain object owns them, and `?.` turns null and undefined into undefined. */
  function Prop(v: Value, key: string): Value {
    if v.Obj? && key in v.fields then v.fields[key] else Undefined
  }

  /** `m[key]` on the program's own state objects. */
  function Get(m: map<string, Value>, key: string): Value {
    if key in m then m[key] else Undefined
  }

  /** `v[i]` on a value that is neither null nor undefined. */
  function At(v: Value, i: nat): Value {
    match v
    case Arr(items) => if i < |items| then items[i] else Undefined
    case Str(s) => if i < |s| then Str([s[i]]) else Undefined
    case Obj(m) => Get(m, NatToDecimal(i))
    case _ => Undefined
  }

  /** `o.k0 || o.k1 || ... || fallback`: the first truthy property of `o`
      among `keys`, and `fallback` when there is none. */
  function FirstTruthy(o: Value, keys: seq<string>, fallback: Value): (r: Value)
    ensures (forall i :: 0 <= i < |keys| ==> !Truthy(Prop(o, keys[i]))) ==> r == fallback
    ensures forall i :: 0 <= i < |keys| ==>
              (Truthy(Prop(o, keys[i])) && (forall j :: 0 <= j < i ==> !Truthy(Prop(o, keys[j])))) ==>
              r == Prop(o, keys[i])
  {
    if keys == [] then fallback
    else Or(Prop(o, keys[0]), FirstTruthy(o, keys[1..], fallback))
  }

  // ---- strings -------------------------------------------------------------

  /** The characters `String.prototype.trim` removes: ECMAScript WhiteSpace
      and LineTerminator. */
  predicate IsSpace(c: char) {
    || c == ' ' || c == '\t' || c == '\n' || c == '\r'
    || c == '\U{B}' || c == '\U{C}' || c == '\U{A0}' || c == '\U{FEFF}'
    || c == '\U{1680}' || ('\U{2000}' <= c <= '\U{200A}')
    || c == '\U{2028}' || c == '\U{2029}' || c == '\U{202F}' || c == '\U{205F}' || c == '\U{3000}'
  }

  predicate AllSpace(s: string) {
    forall i :: 0 <= i < |s| ==> IsSpace(s[i])
  }

  function TrimStart(s: string): (r: string)
    ensures |r| <= |s| && r == s[|s| - |r|..]
    ensures AllSpace(s[..|s| - |r|])
    ensures r == [] || !IsSpace(r[0])
  {
    if s != [] && IsSpace(s[0]) then
      var r := TrimStart(s[1..]);
      assert s[..|s| - |r|] == [s[0]] + s[1..][..|s| - 1 - |r|];
      r
    else s
  }

  function TrimEnd(s: string): (r: string)
    ensures |r| <= |s| && r == s[..|r|]
    ensures AllSpace(s[|r|..])
    ensures r == [] || !IsSpace(r[|r| - 1])
  {
    if s != [] && IsSpace(s[|s| - 1]) then
      var r := TrimEnd(s[..|s| - 1]);
      assert s[|r|..] == s[..|s| - 1][|r|..] + [s[|s| - 1]];
      r
    else s
  }

  /** `s.trim()` */
  function Trim(s: string): (r: string)
    ensures |r| <= |s|
    ensures r == [] || (!IsSpace(r[0]) && !IsSpace(r[|r| - 1]))
  {
    TrimEnd(TrimStart(s))
  }

  /** `toLowerCase` on one character, for the ASCII letters only. */
  function LowerChar(c: char): (d: char)
    ensures IsSpace(d) == IsSpace(c)
  {
    if 'A' <= c <= 'Z' then (c as int + 32) as char else c
  }

  /** `s.toLowerCase()`, ASCII letters only. */
  function Lower(s: string): (r: string)
    ensures |r| == |s|
    ensures forall i :: 0 <= i < |s| ==> r[i] == LowerChar(s[i])
  {
    seq(|s|, i requires 0 <= i < |s| => LowerChar(s[i]))
  }

  /** `s.includes(t)` */
  predicate Contains(s: string, t: string)
    decreases |s|
  {
    |t| <= |s| && (s[..|t|] == t || Contains(s[1..], t))
  }

  // ---- numbers -------------------------------------------------------------

  predicate IsDigit(c: char) {
    '0' <= c <= '9'
  }

  predicate AllDigits(s: string) {
    forall i :: 0 <= i < |s| ==> IsDigit(s[i])
  }

  function DigitChar(d: nat): (c: char)
    requires d < 10
    ensures IsDigit(c) && c as int - '0' as int == d
  {
    ('0' as int + d) as char
  }

  /** `String(n)` for a natural number: its decimal digits. */
  function NatToDecimal(n: nat): (r: string)
    ensures |r| >= 1 && AllDigits(r)
    decreases n
  {
    if n < 10 then [DigitChar(n)] else NatToDecimal(n / 10) + [DigitChar(n % 10)]
  }

  /** The number a run of decimal digits denotes. */
  function DigitsValue(s: string): nat
    requires AllDigits(s)
  {
    if s == [] then 0 else DigitsValue(s[..|s| - 1]) * 10 + (s[|s| - 1] as int - '0' as int)
  }

  /** The length of the run of decimal digits that starts `s`. */
  function LeadingDigits(s: string): (n: nat)
    ensures n <= |s| && AllDigits(s[..n])
    ensures n == |s| || !IsDigit(s[n])
  {
    if s != [] && IsDigit(s[0]) then 1 + LeadingDigits(s[1..]) else 0
  }

  function Pow10(e: nat): (r: real)
    ensures r >= 1.0
  {
    if e == 0 then 1.0 else 10.0 * Pow10(e - 1)
  }

  /** An optional exponent part `e[+-]digits` that must run to the end of `s`;
      `None` when `s` is anything else. */
  function Exponent(s: string): Option<real> {
    if s == [] then Some(1.0)
    else if s[0] != 'e' && s[0] != 'E' then None
    else
      var t := s[1..];
      var negative := t != [] && t[0] == '-';
      var u := if t != [] && (t[0] == '-' || t[0] == '+') then t[1..] else t;
      if u == [] || LeadingDigits(u) != |u| then None
      else if negative then Some(1.0 / Pow10(DigitsValue(u)))
      else Some(Pow10(DigitsValue(u)))
  }

  /** An unsigned decimal literal: digits, an optional fraction, an optional
      exponent, with at least one digit before the exponent. */
  function ParseUnsigned(u: string): Numeric {
    var i := LeadingDigits(u);
    var intPart, rest := u[..i], u[i..];
    var hasFraction := rest != [] && rest[0] == '.';
    var afterDot := if hasFraction then rest[1..] else [];
    var j := LeadingDigits(afterDot);
    var fraction := afterDot[..j];
    var tail := if hasFraction then afterDot[j..] else rest;
    if intPart == [] && fraction == [] then NaN
    else match Exponent(tail)
      case None => NaN
      case Some(scale) =>
        Finite((DigitsValue(intPart) as real + DigitsValue(fraction) as real / Pow10(|fraction|)) * scale)
  }

  /** `Number(s)` for a string: surrounding white space is ignored, the empty
      string is 0, otherwise an optionally signed decimal literal. */
  function ParseNumber(s: string): Numeric {
    var t := Trim(s);
    if t == [] then Finite(0.0)
    else if t[0] == '-' then
      match ParseUnsigned(t[1..])
      case NaN => NaN
      case Finite(x) => Finite(-x)
    else if t[0] == '+' then ParseUnsigned(t[1..])
    else ParseUnsigned(t)
  }

  /** `Number(v)` */
  function ToNumber(v: Value): Numeric {
    match v
    case Undefined => NaN
    case Null => Finite(0.0)
    case Bool(b) => Finite(if b then 1.0 else 0.0)
    case Num(x) => Finite(x)
    case Str(s) => ParseNumber(s)
    case Arr(items) =>
      // an array converts through its joined string: "" for no element or a
      // null one, "true"/"false" for a boolean, and a comma once there are two
      if |items| == 0 then Finite(0.0)
      else if |items| > 1 then NaN
      else if items[0].Null? || items[0].Undefined? then Finite(0.0)
      else if items[0].Bool? then NaN
      else ToNumber(items[0])
    case Obj(_) => NaN
  }

  // ---- lemmas --------------------------------------------------------------

  lemma {:induction false} DigitsValueSnoc(s: string, c: char)
    requires AllDigits(s) && IsDigit(c)
    ensures AllDigits(s + [c])
    ensures DigitsValue(s + [c]) == DigitsValue(s) * 10 + (c as int - '0' as int)
  {
    assert (s + [c])[..|s + [c]| - 1] == s;
  }

  /** Reading back the digits `String` writes for a natural number gives the
      number again. */
  lemma {:induction false} DigitsValueOfDecimal(n: nat)
    ensures DigitsValue(NatToDecimal(n)) == n
    decreases n
  {
    if n >= 10 {
      DigitsValueOfDecimal(n / 10);
      DigitsValueSnoc(NatToDecimal(n / 10), DigitChar(n % 10));
    }
  }

  lemma {:induction false} LeadingDigitsAll(s: string)
    requires AllDigits(s)
    ensures LeadingDigits(s) == |s|
    decreases |s|
  {
    if s != [] {
      LeadingDigitsAll(s[1..]);
    }
  }

  /** `parseInt(s)` in base 10: leading white space is skipped, then an
      optional sign and the longest run of digits; `None` is the NaN it
      gives when no digit follows. */
  function ParseInt(s: string): Option<int> {
    var t := TrimStart(s);
    var negative := t != [] && t[0] == '-';
    var u := if t != [] && (t[0] == '-' || t[0] == '+') then t[1..] else t;
    var k := LeadingDigits(u);
    if k == 0 then None
    else if negative then Some(-(DigitsValue(u[..k]) as int))
    else Some(DigitsValue(u[..k]) as int)
  }

  /** `parseInt` of a run of digits is its digit value. */
  lemma ParseIntDigits(s: string)
    requires s != [] && AllDigits(s)
    ensures ParseInt(s) == Some(DigitsValue(s) as int)
  {
    assert IsDigit(s[0]);
    assert !IsSpace(s[0]) && s[0] != '-' && s[0] != '+';
    assert TrimStart(s) == s;
    LeadingDigitsAll(s);
    assert s[..LeadingDigits(s)] == s;
  }

  /** `parseInt(String(n)) == n` for the natural numbers. */
  lemma ParseIntOfDecimal(n: nat)
    ensures ParseInt(NatToDecimal(n)) == Some(n)
  {
    ParseIntDigits(NatToDecimal(n));
    DigitsValueOfDecimal(n);
  }

  /** Distinct natural numbers are written with distinct digit strings. */
  lemma DecimalInjective(a: nat, b: nat)
    requires NatToDecimal(a) == NatToDecimal(b)
    ensures a == b
  {
    DigitsValueOfDecimal(a);
    DigitsValueOfDecimal(b);
  }

  lemma {:induction false} TrimStartPadded(w: string, s: string)
    requires AllSpace(w)
    ensures TrimStart(w + s) == TrimStart(s)
    decreases |w|
  {
    if w != [] {
      assert (w + s)[0] == w[0] && (w + s)[1..] == w[1..] + s;
      TrimStartPadded(w[1..], s);
    } else {
      assert w + s == s;
    }
  }

  lemma {:induction false} TrimEndPadded(s: string, w: string)
    requires AllSpace(w)
    ensures TrimEnd(s + w) == TrimEnd(s)
    decreases |w|
  {
    if w != [] {
      assert (s + w)[|s + w| - 1] == w[|w| - 1] && (s + w)[..|s + w| - 1] == s + w[..|w| - 1];
      TrimEndPadded(s, w[..|w| - 1]);
    } else {
      assert s + w == s;
    }
  }

  lemma {:induction false} TrimStartOfTrimmedEnd(s: string, w: string)
    requires AllSpace(w)
    ensures TrimStart(s + w) == TrimStart(s) + w || (AllSpace(s) && TrimStart(s + w) == [])
    decreases |s|
  {
    if s != [] {
      if IsSpace(s[0]) {
        assert (s + w)[1..] == s[1..] + w;
        TrimStartOfTrimmedEnd(s[1..], w);
        if AllSpace(s[1..]) {
          assert AllSpace(s) by {
            forall i | 0 <= i < |s| ensures IsSpace(s[i]) {
              if i > 0 { assert s[i] == s[1..][i - 1]; }
            }
          }
        }
      }
    } else {
      assert s + w == w;
      TrimStartPadded(w, []);
      assert w + [] == w;
    }
  }

  /** Leading and trailing white space never changes what `trim` returns. */
  lemma TrimPadded(w1: string, s: string, w2: string)
    requires AllSpace(w1) && AllSpace(w2)
    ensures Trim(w1 + s + w2) == Trim(s)
  {
    assert w1 + s + w2 == w1 + (s + w2);
    TrimStartPadded(w1, s + w2);
    TrimStartOfTrimmedEnd(s, w2);
    if TrimStart(s + w2) == TrimStart(s) + w2 {
      TrimEndPadded(TrimStart(s), w2);
    } else {
      TrimStartPadded(s, []);
      assert s + [] == s;
    }
  }

  lemma {:induction false} LowerTrimStart(s: string)
    ensures Lower(TrimStart(s)) == TrimStart(Lower(s))
    decreases |s|
  {
    if s != [] {
      assert Lower(s)[1..] == Lower(s[1..]);
      LowerTrimStart(s[1..]);
    }
  }

  lemma {:induction false} LowerTrimEnd(s: string)
    ensures Lower(TrimEnd(s)) == TrimEnd(Lower(s))
    decreases |s|
  {
    if s != [] {
      assert Lower(s)[..|s| - 1] == Lower(s[..|s| - 1]);
      LowerTrimEnd(s[..|s| - 1]);
    }
  }

  /** Lower-casing and trimming commute, so their order never matters. */
  lemma LowerTrim(s: string)
    ensures Lower(Trim(s)) == Trim(Lower(s))
  {
    LowerTrimStart(s);
    LowerTrimEnd(TrimStart(s));
  }

  lemma LowerAppend(a: string, b: string)
    ensures Lower(a + b) == Lower(a) + Lower(b)
  {
  }

  lemma {:induction false} ContainsAfter(x: string, t: string, y: string)
    ensures Contains(x + t + y, t)
    decreases |x|
  {
    if x == [] {
      assert ([] + t + y)[..|t|] == t;
    } else {
      assert (x + t + y)[1..] == x[1..] + t + y;
      ContainsAfter(x[1..], t, y);
    }
  }
}
