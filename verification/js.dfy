/**
 * JavaScript values as the theme code sees them: the results of `JSON.parse`, of
 * object property reads and of the host page's callbacks. Numbers are modelled as
 * integers; the prototype chain is not part of this module (see ThemeUtils for the
 * one place where it matters).
 */
module Js {
  import opened Wrappers
  import opened Text
  import opened Dicts

  datatype Value =
    | Undefined
    | Null
    | Bool(b: bool)
    | Num(n: int)
    | Str(s: string)
    | Arr(items: seq<Value>)
    | Obj(entries: Entries<Value>)

  /** JavaScript truthiness (`if (v)`, `!v`, `v || w`). */
  predicate Truthy(v: Value)
  {
    match v
    case Undefined => false
    case Null => false
    case Bool(b) => b
    case Num(n) => n != 0
    case Str(s) => s != ""
    case Arr(_) => true
    case Obj(_) => true
  }

  /** `v == null` (loose equality): true for null and undefined only. */
  predicate Nullish(v: Value) { v.Undefined? || v.Null? }

  /** `typeof v === 'object'` (null included, as in JavaScript). */
  predicate TypeofObject(v: Value) { v.Null? || v.Arr? || v.Obj? }

  /**
   * `Object.entries(v)` for a value that is not null or undefined: the own
   * properties of an object, the indices of an array or of a string, nothing for
   * booleans and numbers.
   */
  function ObjectEntries(v: Value): (es: Entries<Value>)
    ensures v.Obj? ==> es == v.entries
    ensures v.Arr? ==> |es| == |v.items|
    ensures v.Str? ==> |es| == |v.s|
    ensures v.Arr? || v.Str? ==> forall i :: 0 <= i < |es| ==> es[i].0 == IntToString(i)
  {
    match v
    case Obj(entries) => entries
    case Arr(items) => seq(|items|, i requires 0 <= i < |items| => (IntToString(i), items[i]))
    case Str(s) => seq(|s|, i requires 0 <= i < |s| => (IntToString(i), Str([s[i]])))
    case _ => []
  }

  /** `v.name` for an own property of an object; undefined otherwise. */
  function GetProp(v: Value, name: string): (r: Value)
    ensures v.Obj? && HasKey(v.entries, name) ==> Some(r) == Get(v.entries, name)
    ensures !(v.Obj? && HasKey(v.entries, name)) ==> r == Undefined
  {
    if v.Obj? then
      match Get(v.entries, name)
      case Some(x) => x
      case None => Undefined
    else Undefined
  }

  /** Leading characters that `parseInt` skips. */
  function TrimStart(s: string): (r: string)
    ensures |r| <= |s| && r == s[|s| - |r|..]
    ensures r != [] ==> !IsJsWhitespace(r[0])
  {
    if s != [] && IsJsWhitespace(s[0]) then TrimStart(s[1..]) else s
  }

  /** The longest prefix made of hexadecimal digits. */
  function HexPrefix(s: string): (r: string)
    ensures r <= s
    ensures forall i :: 0 <= i < |r| ==> IsHexDigit(r[i])
    ensures |r| < |s| ==> !IsHexDigit(s[|r|])
  {
    if s != [] && IsHexDigit(s[0]) then [s[0]] + HexPrefix(s[1..]) else []
  }

  /** The value of a string of hexadecimal digits, most significant first. */
  function HexValue(s: string): nat
    requires forall i :: 0 <= i < |s| ==> IsHexDigit(s[i])
  {
    if s == [] then 0 else HexValue(s[..|s| - 1]) * 16 + HexDigitValue(s[|s| - 1])
  }

  /**
   * `parseInt(s, 16)`: skip leading white space, take an optional sign and an
   * optional `0x`/`0X` prefix, then read the longest run of hexadecimal digits;
   * NaN (here None) when that run is empty. Trailing characters are ignored.
   */
  function ParseIntHex(s: string): (r: Option<int>)
    ensures r.Some? ==> exists i :: 0 <= i < |s| && IsHexDigit(s[i])
  {
    var t := TrimStart(s);
    var negative := t != [] && t[0] == '-';
    var u := if t != [] && (t[0] == '-' || t[0] == '+') then t[1..] else t;
    var w := if |u| >= 2 && u[0] == '0' && (u[1] == 'x' || u[1] == 'X') then u[2..] else u;
    var digits := HexPrefix(w);
    if digits == [] then None
    else
      assert s[|s| - |w|] == digits[0];
      var n: int := HexValue(digits);
      Some(if negative then -n else n)
  }

  /** Two hexadecimal digits parse to their value: the case `hexToRgba` relies on. */
  lemma ParseTwoHexDigits(s: string)
    requires |s| == 2 && IsHexDigit(s[0]) && IsHexDigit(s[1])
    ensures ParseIntHex(s) == Some(ByteValue(s[0], s[1]))
  {
    assert TrimStart(s) == s;
    assert s[0] != '-' && s[0] != '+' && s[1] != 'x' && s[1] != 'X';
    HexPrefixOfDigits(s);
    HexValueOfTwo(s);
  }

  /** A run made only of hexadecimal digits is its own longest hexadecimal prefix. */
  lemma {:induction false} HexPrefixOfDigits(s: string)
    requires forall i :: 0 <= i < |s| ==> IsHexDigit(s[i])
    ensures HexPrefix(s) == s
  {
    if s != [] {
      HexPrefixOfDigits(s[1..]);
      assert [s[0]] + s[1..] == s;
    }
  }

  lemma HexValueOfTwo(s: string)
    requires |s| == 2 && IsHexDigit(s[0]) && IsHexDigit(s[1])
    ensures HexValue(s) == ByteValue(s[0], s[1])
  {
    var high := s[..1];
    assert high[..0] == [] && high[0] == s[0];
    assert HexValue(high) == HexDigitValue(s[0]);
    assert s[..|s| - 1] == high;
  }

  /** `String(v)`, as a template literal prints a value. */
  function ToText(v: Value): string
  {
    match v
    case Undefined => "undefined"
    case Null => "null"
    case Bool(b) => if b then "true" else "false"
    case Num(n) => IntToString(n)
    case Str(s) => s
    case Arr(items) => JoinItems(items)
    case Obj(_) => "[object Object]"
  }

  /** `items.join(',')`, with null and undefined shown as nothing. */
  function JoinItems(items: seq<Value>): string
    decreases items
  {
    if items == [] then ""
    else
      var first := if items[0].Null? || items[0].Undefined? then "" else ToText(items[0]);
      if |items| == 1 then first else first + "," + JoinItems(items[1..])
  }
}
