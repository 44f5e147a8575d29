/** JSON values as the merge endpoint and the client see them, together with
    the few JavaScript coercions the code relies on: truthiness (`x || y`),
    object spread (`{ ...x }`), `Number(x)` and `String(x)`.

    Numbers are integers. `Number(x)` yields `None` where JavaScript yields NaN. */
module Json {
  import opened Optional

  datatype Json =
    | JNull
    | JBool(b: bool)
    | JNum(n: int)
    | JStr(s: string)
    | JArr(elems: seq<Json>)
    | JObj(fields: map<string, Json>)

  /** JavaScript truthiness: null, false, 0 and "" are falsy; every array and object is truthy. */
  predicate Truthy(j: Json) {
    match j
    case JNull => false
    case JBool(b) => b
    case JNum(n) => n != 0
    case JStr(s) => s != ""
    case _ => true
  }

  /** `m[k]`, where a missing key reads as `undefined` (None). */
  function Lookup(m: map<string, Json>, k: string): Option<Json> {
    if k in m then Some(m[k]) else None
  }

  /** `x || y` where `x` may be `undefined`. */
  function OrElse(x: Option<Json>, y: Json): Json {
    if x.Some? && Truthy(x.value) then x.value else y
  }

  // ----- decimal strings -----

  function DigitChar(d: nat): char
    requires d < 10
  {
    "0123456789"[d]
  }

  predicate IsDigit(c: char) {
    '0' <= c <= '9'
  }

  function DigitValue(c: char): nat
    requires IsDigit(c)
  {
    (c as int) - ('0' as int)
  }

  /** `String(n)` for a non-negative integer. */
  function NatToString(n: nat): (s: string)
    ensures |s| > 0
    ensures forall i :: 0 <= i < |s| ==> IsDigit(s[i])
    decreases n
  {
    if n < 10 then [DigitChar(n)] else NatToString(n / 10) + [DigitChar(n % 10)]
  }

  /** `String(n)` for any integer. */
  function IntToString(n: int): string {
    if n < 0 then "-" + NatToString(-n) else NatToString(n)
  }

  /** The value of a string of decimal digits. */
  function DigitsValue(s: string): nat
    requires forall i :: 0 <= i < |s| ==> IsDigit(s[i])
    decreases |s|
  {
    if s == [] then 0 else 10 * DigitsValue(s[..|s| - 1]) + DigitValue(s[|s| - 1])
  }

  predicate AllDigits(s: string) {
    forall i :: 0 <= i < |s| ==> IsDigit(s[i])
  }

  /** The characters `String.prototype.trim` removes (white space and line terminators). */
  predicate IsJsSpace(c: char) {
    c == ' ' || c == '\t' || c == '\n' || c == '\r' || c == '\U{000B}' || c == '\U{000C}'
    || c == '\U{00A0}' || c == '\U{1680}' || ('\U{2000}' <= c <= '\U{200A}')
    || c == '\U{2028}' || c == '\U{2029}' || c == '\U{202F}' || c == '\U{205F}'
    || c == '\U{3000}' || c == '\U{FEFF}'
  }

  function TrimStart(s: string): (r: string)
    ensures |r| <= |s|
    decreases |s|
  {
    if s != [] && IsJsSpace(s[0]) then TrimStart(s[1..]) else s
  }

  function TrimEnd(s: string): (r: string)
    ensures |r| <= |s|
    decreases |s|
  {
    if s != [] && IsJsSpace(s[|s| - 1]) then TrimEnd(s[..|s| - 1]) else s
  }

  function Trim(s: string): string {
    TrimEnd(TrimStart(s))
  }

  /** `Number(s)` for a string whose trimmed form is empty, or an optionally
      signed run of decimal digits; every other string is NaN here. */
  function StringToNumber(s: string): Option<int> {
    var t := Trim(s);
    if t == [] then Some(0)
    else if AllDigits(t) then Some(DigitsValue(t))
    else if (t[0] == '-' || t[0] == '+') && |t| > 1 && AllDigits(t[1..]) then
      Some(if t[0] == '-' then 0 - DigitsValue(t[1..]) else DigitsValue(t[1..]))
    else None
  }

  /** `String(j)`; inside an array, `null` contributes the empty string (Array.prototype.join). */
  function ToJsString(j: Json): string
    decreases j
  {
    match j
    case JNull => "null"
    case JBool(b) => if b then "true" else "false"
    case JNum(n) => IntToString(n)
    case JStr(s) => s
    case JObj(_) => "[object Object]"
    case JArr(elems) => Join(seq(|elems|, i requires 0 <= i < |elems| =>
                                   if elems[i] == JNull then "" else ToJsString(elems[i])))
  }

  /** `parts.join(",")`. */
  function Join(parts: seq<string>): string
    decreases |parts|
  {
    if parts == [] then ""
    else if |parts| == 1 then parts[0]
    else Join(parts[..|parts| - 1]) + "," + parts[|parts| - 1]
  }

  /** `Number(j)`; None stands for NaN. */
  function ToNumber(j: Json): Option<int> {
    match j
    case JNull => Some(0)
    case JBool(b) => Some(if b then 1 else 0)
    case JNum(n) => Some(n)
    case JStr(s) => StringToNumber(s)
    case _ => StringToNumber(ToJsString(j))
  }

  // ----- object spread -----

  /** The own enumerable properties `{ ...s }` produces for an array or string:
      index i (as a decimal string) holds the i-th element. */
  function Indexed(s: seq<Json>): (m: map<string, Json>)
    decreases |s|
  {
    if s == [] then map[] else Indexed(s[..|s| - 1])[NatToString(|s| - 1) := s[|s| - 1]]
  }

  /** `{ ...j }`: an object's own fields, an array's or string's index keys,
      and nothing for null, booleans and numbers. */
  function Spread(j: Json): map<string, Json> {
    match j
    case JObj(m) => m
    case JArr(elems) => Indexed(elems)
    case JStr(s) => Indexed(seq(|s|, i requires 0 <= i < |s| => JStr([s[i]])))
    case _ => map[]
  }

  // ----- lemmas -----

  /** Decimal digits read back as the number they were written from. */
  lemma {:induction false} DigitsOfNat(n: nat)
    ensures DigitsValue(NatToString(n)) == n
    decreases n
  {
    var s := NatToString(n);
    if n >= 10 {
      DigitsOfNat(n / 10);
      assert s[..|s| - 1] == NatToString(n / 10);
      assert s[|s| - 1] == DigitChar(n % 10);
    } else {
      assert s[..|s| - 1] == [];
    }
  }

  /** `Number(String(n)) == n` for every integer n. */
  lemma NumberOfString(n: int)
    ensures StringToNumber(IntToString(n)) == Some(n)
  {
    var s := IntToString(n);
    if n < 0 {
      var d := NatToString(-n);
      assert s == "-" + d;
      assert s[1..] == d;
      TrimOfSigned(s);
      DigitsOfNat(-n);
    } else {
      NoSpaceTrim(s);
      DigitsOfNat(n);
    }
  }

  lemma NoSpaceTrim(s: string)
    requires |s| > 0 && AllDigits(s)
    ensures Trim(s) == s
  {
    assert !IsJsSpace(s[0]);
    assert !IsJsSpace(s[|s| - 1]);
  }

  lemma TrimOfSigned(s: string)
    requires |s| > 1 && s[0] == '-' && AllDigits(s[1..])
    ensures Trim(s) == s
  {
    assert s[|s| - 1] == s[1..][|s| - 2];
    assert !IsJsSpace(s[|s| - 1]);
  }
}
