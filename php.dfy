/**
 * PHP value semantics shared by every endpoint: the values `json_decode($raw, true)`
 * produces, truthiness (`empty($x)`, `!$x`), null coalescing (`??`), string conversion
 * (`.` and `addslashes`), the `(int)` cast, PHP 8 loose comparison against a string label
 * (`switch`, `==`) and against `0` (`<= 0`), and operand conversion for `/`.
 *
 * Floats are not modelled: JSON numbers are integers here and numeric strings are
 * integer-form strings (optional leading whitespace, optional sign, digits, optional
 * trailing whitespace).
 */
module Php {

  datatype Option<T> = None | Some(value: T)

  /** An array key: PHP arrays are ordered maps from integers and strings to values. */
  datatype Key = IntKey(n: int) | StrKey(name: string)

  /** A PHP value; an array keeps its entries in insertion order. */
  datatype Value =
    | Null
    | Bool(b: bool)
    | Int(i: int)
    | Str(s: string)
    | Arr(entries: seq<Entry>)

  datatype Entry = Entry(key: Key, val: Value)

  /** What an endpoint sends back: a JSON body with a status code, or a bare status
      (the preflight `exit()`, or the engine's answer to an uncaught `Error`). */
  datatype Response = Json(status: int, body: Value) | Bare(status: int)

  /** The three things a script reads after `curl_exec`: `curl_error`, the HTTP code
      and `json_decode` of the body (Null when the body is not JSON). */
  datatype CurlReply = CurlReply(error: string, httpCode: int, body: Value)

  // ---------------------------------------------------------------- truthiness

  /** `(bool) $v`: false exactly for null, false, 0, "", "0" and the empty array. */
  predicate Truthy(v: Value) {
    match v
    case Null => false
    case Bool(b) => b
    case Int(i) => i != 0
    case Str(s) => s != "" && s != "0"
    case Arr(es) => es != []
  }

  /** `empty($v)`; for an array element, a missing key reads as Null and is empty too. */
  predicate IsEmpty(v: Value) {
    !Truthy(v)
  }

  /** `$v ?? $d`: the default replaces only null (a missing key reads as null). */
  function Coalesce(v: Value, d: Value): Value {
    if v.Null? then d else v
  }

  // ---------------------------------------------------------------- array access

  /** The value stored under `k`, first match in insertion order. */
  function Lookup(es: seq<Entry>, k: Key): (r: Option<Value>)
    ensures r.Some? <==> exists j :: 0 <= j < |es| && es[j].key == k
    ensures r.Some? ==> exists j :: 0 <= j < |es| && es[j].key == k && es[j].val == r.value
  {
    if es == [] then None
    else if es[0].key == k then Some(es[0].val)
    else
      var r := Lookup(es[1..], k);
      assert forall j :: 1 <= j < |es| ==> es[j] == es[1..][j - 1];
      r
  }

  /** `$v[k] ?? null`: an array yields its entry, a string yields its character at an
      integer offset (negative offsets count from the end), everything else yields null. */
  function Get(v: Value, k: Key): Value {
    match v
    case Arr(es) => (match Lookup(es, k) case Some(x) => x case None => Null)
    case Str(s) =>
      if k.IntKey? && -|s| <= k.n < |s| then Str([s[if k.n < 0 then |s| + k.n else k.n]]) else Null
    case _ => Null
  }

  /** `$v['name'] ?? null` for a non-numeric key name. */
  function Field(v: Value, name: string): Value {
    Get(v, StrKey(name))
  }

  /** The values `foreach ($v as $x)` visits: an array's values in order; anything
      else is skipped with a warning. */
  function Elements(v: Value): (xs: seq<Value>)
    ensures v.Arr? ==> |xs| == |v.entries| && forall j :: 0 <= j < |xs| ==> xs[j] == v.entries[j].val
    ensures !v.Arr? ==> xs == []
  {
    if v.Arr? then seq(|v.entries|, j requires 0 <= j < |v.entries| => v.entries[j].val) else []
  }

  /** An associative array literal `['k1' => v1, ...]`. */
  function Obj(fields: seq<(string, Value)>): (v: Value)
    ensures v.Arr? && |v.entries| == |fields|
    ensures forall j :: 0 <= j < |fields| ==> v.entries[j] == Entry(StrKey(fields[j].0), fields[j].1)
  {
    Arr(seq(|fields|, j requires 0 <= j < |fields| => Entry(StrKey(fields[j].0), fields[j].1)))
  }

  /** The value under the first entry with a given key. */
  lemma {:induction false} LookupAt(es: seq<Entry>, j: nat)
    requires j < |es|
    requires forall i :: 0 <= i < j ==> es[i].key != es[j].key
    ensures Lookup(es, es[j].key) == Some(es[j].val)
    decreases j
  {
    if j > 0 {
      LookupAt(es[1..], j - 1);
    }
  }

  /** Reading back a field of an array literal in which its key occurs once. (With a
      repeated key PHP keeps the last value; no literal of the scripts repeats one.) */
  lemma ObjField(fields: seq<(string, Value)>, j: nat)
    requires j < |fields|
    requires forall i :: 0 <= i < |fields| && i != j ==> fields[i].0 != fields[j].0
    ensures Field(Obj(fields), fields[j].0) == fields[j].1
  {
    LookupAt(Obj(fields).entries, j);
  }

  /** The `['success' => false, 'message' => $m]` body every endpoint uses for errors. */
  function Failure(message: string): Value {
    Obj([("success", Bool(false)), ("message", Str(message))])
  }

  // ---------------------------------------------------------------- strings and digits

  predicate IsDigit(c: char) {
    '0' <= c <= '9'
  }

  /** The whitespace PHP skips around a numeric string. */
  predicate IsSpace(c: char) {
    c == ' ' || c == '\t' || c == '\n' || c == '\r' || c == '\U{000B}' || c == '\U{000C}'
  }

  function DigitChar(d: nat): char
    requires d < 10
  {
    ('0' as int + d) as char
  }

  function DigitValue(c: char): nat
    requires IsDigit(c)
  {
    c as int - '0' as int
  }

  /** Decimal text of a natural number, most significant digit first, no leading zeros. */
  function NatToDecimal(n: nat): (s: string)
    ensures |s| > 0 && forall j :: 0 <= j < |s| ==> IsDigit(s[j])
  {
    if n < 10 then [DigitChar(n)] else NatToDecimal(n / 10) + [DigitChar(n % 10)]
  }

  /** `(string) $i` for an integer. */
  function IntToDecimal(i: int): string {
    if i < 0 then "-" + NatToDecimal(-i) else NatToDecimal(i)
  }

  /** The value of a run of decimal digits. */
  function DigitsValue(ds: string): nat
    requires forall j :: 0 <= j < |ds| ==> IsDigit(ds[j])
  {
    if ds == [] then 0 else DigitsValue(ds[..|ds| - 1]) * 10 + DigitValue(ds[|ds| - 1])
  }

  function TrimLeft(s: string): (t: string)
    ensures |t| <= |s| && t == s[|s| - |t|..]
    ensures t == [] || !IsSpace(t[0])
  {
    if s != [] && IsSpace(s[0]) then TrimLeft(s[1..]) else s
  }

  predicate AllSpace(s: string) {
    forall j :: 0 <= j < |s| ==> IsSpace(s[j])
  }

  /** The longest prefix of `s` made of decimal digits. */
  function DigitPrefix(s: string): (ds: string)
    ensures |ds| <= |s| && ds == s[..|ds|]
    ensures forall j :: 0 <= j < |ds| ==> IsDigit(ds[j])
    ensures |ds| < |s| ==> !IsDigit(s[|ds|])
  {
    if s != [] && IsDigit(s[0]) then [s[0]] + DigitPrefix(s[1..]) else []
  }

  /** A string split as PHP reads a number off its front: leading whitespace skipped,
      an optional sign, the digits, and what follows them. */
  datatype NumberPrefix = NumberPrefix(negative: bool, digits: string, tail: string)

  function ReadNumber(s: string): (p: NumberPrefix)
    ensures forall j :: 0 <= j < |p.digits| ==> IsDigit(p.digits[j])
  {
    var t := TrimLeft(s);
    var signed := t != [] && (t[0] == '-' || t[0] == '+');
    var u := if signed then t[1..] else t;
    var ds := DigitPrefix(u);
    NumberPrefix(signed && t[0] == '-', ds, u[|ds|..])
  }

  /** The number a leading-numeric string starts with ("12abc" gives 12), if any. */
  function LeadingInt(s: string): Option<int> {
    var p := ReadNumber(s);
    if p.digits == [] then None
    else
      var n: int := DigitsValue(p.digits);
      Some(if p.negative then -n else n)
  }

  /** A numeric string in PHP 8's sense (integer form only). */
  predicate IsNumeric(s: string) {
    var p := ReadNumber(s);
    p.digits != [] && AllSpace(p.tail)
  }

  /** `(string) $v`, as `.` and the string functions see a value. */
  function ToStr(v: Value): string {
    match v
    case Null => ""
    case Bool(b) => if b then "1" else ""
    case Int(i) => IntToDecimal(i)
    case Str(s) => s
    case Arr(_) => "Array"
  }

  /** `(int) $v`. */
  function IntCast(v: Value): int {
    match v
    case Null => 0
    case Bool(b) => if b then 1 else 0
    case Int(i) => i
    case Str(s) => (match LeadingInt(s) case Some(n) => n case None => 0)
    case Arr(es) => if es == [] then 0 else 1
  }

  /** Byte-wise string order (UTF-8 byte order agrees with code point order). */
  predicate StrLeq(a: string, b: string) {
    a == [] || (b != [] && (a[0] < b[0] || (a[0] == b[0] && StrLeq(a[1..], b[1..]))))
  }

  /** PHP 8 `$v == 'label'`, as `switch` compares: numeric strings compare as numbers,
      an integer against a non-numeric string compares as text, a boolean compares
      with the label's truthiness, null equals only "", an array equals no string. */
  predicate LooseEqualsStr(v: Value, lit: string) {
    match v
    case Null => lit == ""
    case Bool(b) => b == Truthy(Str(lit))
    case Int(i) => if IsNumeric(lit) then i == IntCast(Str(lit)) else IntToDecimal(i) == lit
    case Str(s) => if IsNumeric(lit) && IsNumeric(s) then IntCast(v) == IntCast(Str(lit)) else s == lit
    case Arr(_) => false
  }

  /** PHP 8 `$v <= 0`. */
  predicate LooseLeqZero(v: Value) {
    match v
    case Null => true
    case Bool(b) => !b
    case Int(i) => i <= 0
    case Str(s) => if IsNumeric(s) then IntCast(v) <= 0 else StrLeq(s, "0")
    case Arr(_) => false
  }

  /** The number `$v` stands for as an operand of `/`; None where PHP 8 throws a
      TypeError (an array, or a string that does not start with a number). */
  function NumericOperand(v: Value): Option<int> {
    match v
    case Null => Some(0)
    case Bool(b) => Some(if b then 1 else 0)
    case Int(i) => Some(i)
    case Str(s) => LeadingInt(s)
    case Arr(_) => None
  }

  /** `intval($a / $b)` for integers and `b > 0`: the quotient truncated toward zero. */
  function TruncDiv(a: int, b: int): (q: int)
    requires b > 0
    ensures a >= 0 ==> q * b <= a < (q + 1) * b
    ensures a < 0 ==> q == -((-a) / b)
  {
    if a >= 0 then a / b else -((-a) / b)
  }

  /** `implode($sep, $xs)`. */
  function Join(xs: seq<string>, sep: string): string {
    if xs == [] then "" else if |xs| == 1 then xs[0] else xs[0] + sep + Join(xs[1..], sep)
  }

  /** `strpos($s, $t) !== false`. */
  predicate Contains(s: string, t: string)
    decreases |s|
  {
    |t| <= |s| && (s[..|t|] == t || (s != [] && Contains(s[1..], t)))
  }

  // ---------------------------------------------------------------- lemmas

  lemma {:induction false} DigitPrefixOfDigits(s: string, rest: string)
    requires forall j :: 0 <= j < |s| ==> IsDigit(s[j])
    requires rest == [] || !IsDigit(rest[0])
    ensures DigitPrefix(s + rest) == s
  {
    if s != [] {
      assert (s + rest)[1..] == s[1..] + rest;
      DigitPrefixOfDigits(s[1..], rest);
      assert [s[0]] + s[1..] == s;
    } else {
      assert s + rest == rest;
    }
  }

  lemma {:induction false} DigitsValueOfDecimal(n: nat)
    ensures DigitsValue(NatToDecimal(n)) == n
  {
    if n >= 10 {
      var s := NatToDecimal(n);
      assert s[..|s| - 1] == NatToDecimal(n / 10);
      DigitsValueOfDecimal(n / 10);
    }
  }

  lemma ReadUnsigned(ds: string)
    requires ds != [] && forall j :: 0 <= j < |ds| ==> IsDigit(ds[j])
    ensures ReadNumber(ds) == NumberPrefix(false, ds, [])
  {
    assert TrimLeft(ds) == ds;
    assert !(ds[0] == '-' || ds[0] == '+');
    DigitPrefixOfDigits(ds, []);
    assert ds + [] == ds;
    assert ds[|ds|..] == [];
  }

  lemma ReadNegative(ds: string)
    requires ds != [] && forall j :: 0 <= j < |ds| ==> IsDigit(ds[j])
    ensures ReadNumber("-" + ds) == NumberPrefix(true, ds, [])
  {
    var s := "-" + ds;
    assert TrimLeft(s) == s;
    assert s[1..] == ds;
    DigitPrefixOfDigits(ds, []);
    assert ds + [] == ds;
    assert ds[|ds|..] == [];
  }

  /** Writing an integer as text and casting it back yields the integer, and the
      text is a numeric string: `(int) (string) $i === $i`. */
  lemma {:induction false} IntTextRoundTrip(i: int)
    ensures IsNumeric(IntToDecimal(i))
    ensures IntCast(Str(ToStr(Int(i)))) == i
  {
    if i < 0 {
      ReadNegative(NatToDecimal(-i));
      DigitsValueOfDecimal(-i);
    } else {
      ReadUnsigned(NatToDecimal(i));
      DigitsValueOfDecimal(i);
    }
  }

  predicate IsLowerLetter(c: char) {
    'a' <= c <= 'z'
  }

  /** A word starting with a lower-case letter is not a numeric string. */
  lemma WordNotNumeric(w: string)
    requires w != [] && IsLowerLetter(w[0])
    ensures !IsNumeric(w)
  {
    assert !IsSpace(w[0]) && !IsDigit(w[0]) && w[0] != '-' && w[0] != '+';
    assert TrimLeft(w) == w;
    assert DigitPrefix(w) == [];
    assert ReadNumber(w).digits == [];
  }

  /** Against a word, PHP's loose `==` on two strings is plain equality. */
  lemma LooseEqualsWord(s: string, w: string)
    requires w != [] && IsLowerLetter(w[0])
    ensures LooseEqualsStr(Str(s), w) <==> s == w
  {
    WordNotNumeric(w);
  }
}
