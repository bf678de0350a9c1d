/** JavaScript values as the route handlers see them in parsed JSON bodies,
    and the coercions the handlers lean on: truthiness, optional chaining
    (`v?.key`), `||`, `??`, `Number(...)`, `parseInt(...)`, `String(...)`,
    `Math.round` and `*` on numbers. */
module JsValues {

  /** A value of a parsed JSON document, plus `undefined` for a missing
      property. JSON numbers are always finite, so `Num` holds a real. Object
      fields keep their order, as JavaScript objects do. */
  datatype JsValue =
    | Undefined
    | Null
    | Bool(b: bool)
    | Num(n: real)
    | Str(s: string)
    | Arr(items: seq<JsValue>)
    | Obj(fields: seq<(string, JsValue)>)

  /** JavaScript truthiness (`!!v`). */
  predicate Truthy(v: JsValue) {
    match v
    case Undefined => false
    case Null => false
    case Bool(b) => b
    case Num(n) => n != 0.0
    case Str(s) => s != ""
    case Arr(_) => true
    case Obj(_) => true
  }

  predicate IsNullish(v: JsValue) {
    v.Undefined? || v.Null?
  }

  /** The value of `key` among an object's fields; `JSON.parse` keeps the last
      of several equal keys, so the search runs from the end. */
  function Lookup(fields: seq<(string, JsValue)>, key: string): JsValue
  {
    if |fields| == 0 then Undefined
    else if fields[|fields| - 1].0 == key then fields[|fields| - 1].1
    else Lookup(fields[..|fields| - 1], key)
  }

  /** `v?.key`: a property of an object, `undefined` for anything else. */
  function Get(v: JsValue, key: string): JsValue {
    if v.Obj? then Lookup(v.fields, key) else Undefined
  }

  /** `a || b` */
  function Or(a: JsValue, b: JsValue): JsValue {
    if Truthy(a) then a else b
  }

  /** `a ?? b` */
  function Coalesce(a: JsValue, b: JsValue): JsValue {
    if IsNullish(a) then b else a
  }

  /** Reference reading of a chain `c0 || c1 || ... || fallback`: the first
      truthy candidate, or the fallback when there is none. */
  function FirstTruthy(cands: seq<JsValue>, fallback: JsValue): JsValue
  {
    if |cands| == 0 then fallback else Or(cands[0], FirstTruthy(cands[1..], fallback))
  }

  lemma {:induction false} FirstTruthyIsFirst(cands: seq<JsValue>, fallback: JsValue, i: nat)
    requires i < |cands| && Truthy(cands[i])
    requires forall j :: 0 <= j < i ==> !Truthy(cands[j])
    ensures FirstTruthy(cands, fallback) == cands[i]
  {
    if i > 0 {
      assert !Truthy(cands[0]);
      FirstTruthyIsFirst(cands[1..], fallback, i - 1);
    }
  }

  lemma {:induction false} FirstTruthyNone(cands: seq<JsValue>, fallback: JsValue)
    requires forall j :: 0 <= j < |cands| ==> !Truthy(cands[j])
    ensures FirstTruthy(cands, fallback) == fallback
  {
    if |cands| > 0 {
      assert !Truthy(cands[0]);
      FirstTruthyNone(cands[1..], fallback);
    }
  }

  /** A chain written `a || b || c` (which groups as `(a || b) || c`) is the
      first truthy of `a`, `b`, else `c`. */
  lemma OrChainIsFirstTruthy(a: JsValue, b: JsValue, c: JsValue)
    ensures Or(Or(a, b), c) == FirstTruthy([a, b], c)
  {
    var cands := [a, b];
    assert cands[1..] == [b] && cands[1..][1..] == [];
    assert FirstTruthy(cands[1..], c) == Or(b, FirstTruthy([], c)) == Or(b, c);
  }

  /** The same for a chain of three candidates and a fallback. */
  lemma OrChain3IsFirstTruthy(a: JsValue, b: JsValue, c: JsValue, d: JsValue)
    ensures Or(Or(Or(a, b), c), d) == FirstTruthy([a, b, c], d)
  {
    var cands := [a, b, c];
    assert cands[1..] == [b, c];
    OrChainIsFirstTruthy(b, c, d);
    assert FirstTruthy(cands[1..], d) == Or(Or(b, c), d);
  }

  /** A key that no field carries reads as `undefined`. */
  lemma {:induction false} LookupAbsent(fields: seq<(string, JsValue)>, key: string)
    requires forall j :: 0 <= j < |fields| ==> fields[j].0 != key
    ensures Lookup(fields, key) == Undefined
  {
    if |fields| > 0 {
      LookupAbsent(fields[..|fields| - 1], key);
    }
  }

  /** The value of a key is the one of its last occurrence. */
  lemma {:induction false} LookupFound(fields: seq<(string, JsValue)>, key: string, i: nat)
    requires i < |fields| && fields[i].0 == key
    requires forall j :: i < j < |fields| ==> fields[j].0 != key
    ensures Lookup(fields, key) == fields[i].1
  {
    if i < |fields| - 1 {
      LookupFound(fields[..|fields| - 1], key, i);
    }
  }

  // ---------------------------------------------------------------------
  // Numbers

  /** A JavaScript number as produced by a conversion: finite, NaN or an
      infinity. Rounding of double-precision arithmetic is not modelled. */
  datatype JsNumber = Finite(r: real) | NaN | Infinity(negative: bool)

  predicate NumTruthy(x: JsNumber) {
    match x
    case Finite(r) => r != 0.0
    case NaN => false
    case Infinity(_) => true
  }

  /** `x || d` on numbers, as in `Number(v) || 0`. */
  function NumOr(x: JsNumber, d: real): JsNumber {
    if NumTruthy(x) then x else Finite(d)
  }

  function Negate(x: JsNumber): JsNumber {
    match x
    case Finite(r) => Finite(-r)
    case NaN => NaN
    case Infinity(neg) => Infinity(!neg)
  }

  /** `a * b` with IEEE-754 special values. */
  function Mul(a: JsNumber, b: JsNumber): JsNumber {
    match (a, b)
    case (Finite(x), Finite(y)) => Finite(x * y)
    case (NaN, _) => NaN
    case (_, NaN) => NaN
    case (Infinity(n), Finite(y)) =>
      if y == 0.0 then NaN else Infinity(n != (y < 0.0))
    case (Finite(x), Infinity(n)) =>
      if x == 0.0 then NaN else Infinity(n != (x < 0.0))
    case (Infinity(m), Infinity(n)) => Infinity(m != n)
  }

  /** `Math.round(x)`: the nearest integer, halves rounded up. */
  function Round(x: JsNumber): JsNumber {
    match x
    case Finite(r) => Finite((r + 0.5).Floor as real)
    case NaN => NaN
    case Infinity(n) => Infinity(n)
  }

  /** `Math.round` of a finite number is the integer nearest to it, a half
      going up. */
  lemma RoundIsNearestInteger(r: real)
    ensures Round(Finite(r)).Finite?
    ensures var k := Round(Finite(r)).r;
      k == k.Floor as real && r - 0.5 < k <= r + 0.5
  {
  }

  /** How `JSON.stringify` writes a number: non-finite values become `null`. */
  function NumberToJson(x: JsNumber): JsValue {
    if x.Finite? then Num(x.r) else Null
  }

  /** `Number(v)`. Strings follow `StringToNumber`; an empty array is 0 and
      every other array or object is NaN (JavaScript would convert a
      one-element array through its text). */
  function ToNumber(v: JsValue): JsNumber {
    match v
    case Undefined => NaN
    case Null => Finite(0.0)
    case Bool(b) => Finite(if b then 1.0 else 0.0)
    case Num(n) => Finite(n)
    case Str(s) => StringToNumber(s)
    case Arr(items) => if |items| == 0 then Finite(0.0) else NaN
    case Obj(_) => NaN
  }

  // ---------------------------------------------------------------------
  // Decimal text

  /** White space and line terminators that `Number` and `parseInt` skip. */
  predicate IsSpace(c: char) {
    c == ' ' || c == '\t' || c == '\n' || c == '\r' || c == '\U{000B}' || c == '\U{000C}'
    || c == '\U{00A0}' || c == '\U{FEFF}' || c == '\U{2028}' || c == '\U{2029}'
  }

  function TrimStart(s: string): string {
    if |s| > 0 && IsSpace(s[0]) then TrimStart(s[1..]) else s
  }

  function TrimEnd(s: string): string {
    if |s| > 0 && IsSpace(s[|s| - 1]) then TrimEnd(s[..|s| - 1]) else s
  }

  predicate IsDigit(c: char) {
    '0' <= c <= '9'
  }

  predicate AllDigits(s: string) {
    forall i :: 0 <= i < |s| ==> IsDigit(s[i])
  }

  function DigitValue(c: char): nat
    requires IsDigit(c)
  {
    (c as int) - ('0' as int)
  }

  /** The value of a string of decimal digits, most significant first. */
  function DigitsValue(s: string): nat
    requires AllDigits(s)
  {
    if |s| == 0 then 0 else 10 * DigitsValue(s[..|s| - 1]) + DigitValue(s[|s| - 1])
  }

  function Pow10(k: nat): (p: nat)
    ensures p > 0
  {
    if k == 0 then 1 else 10 * Pow10(k - 1)
  }

  /** Index of the first `c` in `s`, or `|s|` when there is none. */
  function IndexOf(s: string, c: char): (k: nat)
    ensures k <= |s|
    ensures forall j :: 0 <= j < k ==> s[j] != c
    ensures k < |s| ==> s[k] == c
  {
    if |s| == 0 then 0 else if s[0] == c then 0 else 1 + IndexOf(s[1..], c)
  }

  /** An unsigned decimal literal: `Infinity`, or digits with an optional
      fraction (`12`, `1.5`, `.5`, `5.`). Exponents and `0x`/`0o`/`0b`
      literals are read as NaN. */
  function UnsignedDecimal(t: string): JsNumber {
    if t == "Infinity" then Infinity(false)
    else
      var dot := IndexOf(t, '.');
      var ip := t[..dot];
      var fp := if dot < |t| then t[dot + 1..] else "";
      if AllDigits(ip) && AllDigits(fp) && |ip| + |fp| > 0 then
        Finite(DigitsValue(ip) as real + DigitsValue(fp) as real / Pow10(|fp|) as real)
      else NaN
  }

  /** `Number(s)` for a string: surrounding white space is ignored, the empty
      string is 0, an optional sign precedes the literal. */
  function StringToNumber(s: string): JsNumber {
    var t := TrimEnd(TrimStart(s));
    if t == "" then Finite(0.0)
    else if t[0] == '+' then UnsignedDecimal(t[1..])
    else if t[0] == '-' then Negate(UnsignedDecimal(t[1..]))
    else UnsignedDecimal(t)
  }

  function DigitChar(d: nat): char
    requires d < 10
  {
    ('0' as int + d) as char
  }

  /** Decimal text of a natural number, as `String(n)` writes it. */
  function NatText(n: nat): (s: string)
    ensures |s| > 0 && AllDigits(s)
  {
    if n < 10 then [DigitChar(n)] else NatText(n / 10) + [DigitChar(n % 10)]
  }

  /** Decimal text of an integer, as `String(n)` writes it. */
  function IntText(n: int): string {
    if n < 0 then "-" + NatText(-n) else NatText(n)
  }

  lemma {:induction false} NatTextValue(n: nat)
    ensures DigitsValue(NatText(n)) == n
  {
    var s := NatText(n);
    if n >= 10 {
      NatTextValue(n / 10);
      assert s[..|s| - 1] == NatText(n / 10);
    }
  }

  lemma AllDigitsHasNoSpace(s: string)
    requires AllDigits(s)
    ensures TrimStart(s) == s && TrimEnd(s) == s
  {
  }

  lemma AllDigitsNoDot(s: string)
    requires AllDigits(s)
    ensures IndexOf(s, '.') == |s|
  {
  }

  lemma {:induction false} UnsignedNatText(n: nat)
    ensures UnsignedDecimal(NatText(n)) == Finite(n as real)
  {
    var s := NatText(n);
    AllDigitsNoDot(s);
    NatTextValue(n);
    assert s[..|s|] == s;
    assert s != "Infinity" by { assert IsDigit(s[0]); }
  }

  /** `Number(String(n))` gives `n` back for every integer. */
  lemma {:induction false} NumberOfIntText(n: int)
    ensures StringToNumber(IntText(n)) == Finite(n as real)
  {
    var s := IntText(n);
    if n < 0 {
      var d := NatText(-n);
      assert IsDigit(d[0]) && IsDigit(d[|d| - 1]);
      assert TrimStart(s) == s;
      assert TrimEnd(s) == s by { assert s[|s| - 1] == d[|d| - 1]; }
      assert s[1..] == d;
      UnsignedNatText(-n);
    } else {
      AllDigitsHasNoSpace(s);
      assert IsDigit(s[0]);
      UnsignedNatText(n);
    }
  }

  // ---------------------------------------------------------------------
  // parseInt

  predicate IsHexDigit(c: char) {
    IsDigit(c) || 'a' <= c <= 'f' || 'A' <= c <= 'F'
  }

  function HexValue(c: char): nat
    requires IsHexDigit(c)
  {
    if IsDigit(c) then DigitValue(c)
    else if 'a' <= c <= 'f' then 10 + (c as int - 'a' as int)
    else 10 + (c as int - 'A' as int)
  }

  predicate IsRadixDigit(c: char, hex: bool) {
    if hex then IsHexDigit(c) else IsDigit(c)
  }

  /** Length of the longest prefix of `s` made of digits of the radix. */
  function DigitRun(s: string, hex: bool): (k: nat)
    ensures k <= |s|
    ensures forall j :: 0 <= j < k ==> IsRadixDigit(s[j], hex)
    ensures k < |s| ==> !IsRadixDigit(s[k], hex)
  {
    if |s| > 0 && IsRadixDigit(s[0], hex) then 1 + DigitRun(s[1..], hex) else 0
  }

  function RadixValue(s: string, hex: bool): nat
    requires forall j :: 0 <= j < |s| ==> IsRadixDigit(s[j], hex)
  {
    if |s| == 0 then 0
    else
      var last := s[|s| - 1];
      assert IsRadixDigit(last, hex);
      (if hex then 16 else 10) * RadixValue(s[..|s| - 1], hex)
        + (if hex then HexValue(last) else DigitValue(last))
  }

  /** `parseInt(s)` with no radix: leading white space skipped, an optional
      sign, a `0x`/`0X` prefix selecting hexadecimal, then the longest run of
      digits; NaN when that run is empty. */
  function ParseInt(s: string): (r: JsNumber)
    ensures r.Finite? || r.NaN?
  {
    var t := TrimStart(s);
    var neg := |t| > 0 && t[0] == '-';
    var u := if |t| > 0 && (t[0] == '-' || t[0] == '+') then t[1..] else t;
    var hex := |u| >= 2 && u[0] == '0' && (u[1] == 'x' || u[1] == 'X');
    var w := if hex then u[2..] else u;
    var k := DigitRun(w, hex);
    if k == 0 then NaN
    else
      var v := RadixValue(w[..k], hex) as real;
      Finite(if neg then -v else v)
  }

  lemma {:induction false} RadixValueDecimal(s: string)
    requires AllDigits(s)
    ensures RadixValue(s, false) == DigitsValue(s)
  {
    if |s| > 0 {
      RadixValueDecimal(s[..|s| - 1]);
    }
  }

  /** A run of decimal digits is read to its end. */
  lemma {:induction false} DigitRunOfDigits(d: string)
    requires AllDigits(d)
    ensures DigitRun(d, false) == |d|
  {
    if |d| > 0 {
      assert IsDigit(d[0]);
      DigitRunOfDigits(d[1..]);
    }
  }

  lemma DigitsPlain(d: string)
    requires AllDigits(d) && |d| > 0
    ensures TrimStart(d) == d && d[0] != '-' && d[0] != '+'
    ensures !(|d| >= 2 && d[0] == '0' && (d[1] == 'x' || d[1] == 'X'))
  {
    assert IsDigit(d[0]);
    if |d| >= 2 { assert IsDigit(d[1]); }
  }

  /** `parseInt` of text whose digits start right away (after an optional
      minus sign) is the value of those digits. */
  lemma ParseIntAfterSign(t: string, d: string, neg: bool)
    requires AllDigits(d) && |d| > 0
    requires TrimStart(t) == t
    requires neg ==> |t| > 0 && t[0] == '-' && t[1..] == d
    requires !neg ==> t == d && d[0] != '-' && d[0] != '+'
    requires !(|d| >= 2 && d[0] == '0' && (d[1] == 'x' || d[1] == 'X'))
    ensures ParseInt(t) == Finite(if neg then -(DigitsValue(d) as real) else DigitsValue(d) as real)
  {
    DigitRunOfDigits(d);
    assert d[..|d|] == d;
    RadixValueDecimal(d);
  }

  /** `parseInt` of a non-empty digit string, with or without a minus
      sign, is its value. */
  lemma ParseIntOfDigits(d: string, neg: bool)
    requires AllDigits(d) && |d| > 0
    ensures var t := if neg then "-" + d else d;
      ParseInt(t) == Finite(if neg then -(DigitsValue(d) as real) else DigitsValue(d) as real)
  {
    DigitsPlain(d);
    if neg {
      var t := "-" + d;
      assert t[1..] == d;
      assert TrimStart(t) == t;
      ParseIntAfterSign(t, d, true);
    } else {
      ParseIntAfterSign(d, d, false);
    }
  }

  /** `parseInt(String(n))` gives `n` back for every integer. */
  lemma {:induction false} ParseIntOfIntText(n: int)
    ensures ParseInt(IntText(n)) == Finite(n as real)
  {
    var m: nat := if n < 0 then -n else n;
    ParseIntOfDigits(NatText(m), n < 0);
    NatTextValue(m);
  }

  // ---------------------------------------------------------------------
  // String(...)

  /** `String(v)`. Number formatting (Number::toString of ECMA-262) is the
      parameter `numberText`; an array is its elements joined by commas, with
      `null` and `undefined` elements written as empty text. */
  function ToStr(v: JsValue, numberText: real -> string): string
    decreases v, if v.Arr? then |v.items| + 1 else 0
  {
    match v
    case Undefined => "undefined"
    case Null => "null"
    case Bool(b) => if b then "true" else "false"
    case Num(n) => numberText(n)
    case Str(s) => s
    case Arr(items) => JoinFrom(v, 0, numberText)
    case Obj(_) => "[object Object]"
  }

  function JoinFrom(v: JsValue, i: nat, numberText: real -> string): string
    requires v.Arr? && i <= |v.items|
    decreases v, |v.items| - i
  {
    if i == |v.items| then ""
    else
      var item := v.items[i];
      var text := if IsNullish(item) then "" else ToStr(item, numberText);
      (if i == 0 then "" else ",") + text + JoinFrom(v, i + 1, numberText)
  }
}
