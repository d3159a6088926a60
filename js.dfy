/**
 * The few pieces of JavaScript's own semantics that the page script leans on:
 * truthiness, the `||` operator and the text a template literal `${...}`
 * substitutes for a value.
 */
module Js {

  /**
   * A JavaScript value as it reaches a template literal in the page script.
   * A number is kept as the text JavaScript renders it with (`String(n)`);
   * the script does no arithmetic on numbers, only tests and prints them.
   */
  datatype Value = Null | Str(s: string) | Num(shown: string)

  /** Truthiness: `null`, the empty string, zero and NaN are falsy.
      Both `0` and `-0` render as "0". */
  predicate Truthy(v: Value)
    ensures v == Null || v == Str("") || v == Num("0") || v == Num("NaN") ==> !Truthy(v)
    ensures v.Str? && v.s != "" ==> Truthy(v)
    ensures Truthy(v) ==> !v.Null?
    ensures !Truthy(v) ==> Interpolate(v) in ["null", "", "0", "NaN"]
  {
    match v
    case Null => false
    case Str(s) => s != ""
    case Num(t) => t != "0" && t != "NaN"
  }

  /** `a || b`: the left operand when it is truthy, the right one otherwise. */
  function Or(a: Value, b: Value): (r: Value)
    ensures r == a || r == b
    ensures Truthy(r) <==> Truthy(a) || Truthy(b)
    ensures Truthy(a) ==> r == a
    ensures !Truthy(a) ==> r == b
  {
    if Truthy(a) then a else b
  }

  /** The text `${v}` substitutes into a template literal. */
  function Interpolate(v: Value): (r: string)
    ensures (v.Null? && r == "null") || v == Str(r) || v == Num(r)
  {
    match v
    case Null => "null"
    case Str(s) => s
    case Num(t) => t
  }

  /** The decimal digit for 0..9. */
  function Digit(d: nat): (c: char)
    requires d < 10
    ensures '0' <= c <= '9' && c as int - '0' as int == d
  {
    ('0' as int + d) as char
  }

  /** The number a string of decimal digits denotes, most significant digit first. */
  function DigitsValue(s: string): nat
    requires forall k :: 0 <= k < |s| ==> '0' <= s[k] <= '9'
  {
    if s == [] then 0
    else DigitsValue(s[..|s| - 1]) * 10 + (s[|s| - 1] as int - '0' as int)
  }

  /** Decimal text of a natural number, most significant digit first, no leading zeros. */
  function NatText(n: nat): (r: string)
    ensures |r| >= 1
    ensures forall k :: 0 <= k < |r| ==> '0' <= r[k] <= '9'
    ensures DigitsValue(r) == n
    ensures n > 0 ==> r[0] != '0'
    ensures r == "0" <==> n == 0
    decreases n
  {
    if n < 10 then [Digit(n)]
    else
      var prefix := NatText(n / 10);
      var r := prefix + [Digit(n % 10)];
      assert r[..|r| - 1] == prefix;
      r
  }

  /** `String(n)` for an integer `n` below 10^21 in magnitude (from there on
      JavaScript switches to exponent form): its decimal text, with a leading
      '-' when negative. */
  function NumberText(n: int): (r: string)
    ensures |r| >= 1 && (r[0] == '-' || '0' <= r[0] <= '9')
    ensures n >= 0 ==> (forall k :: 0 <= k < |r| ==> '0' <= r[k] <= '9') && DigitsValue(r) == n
    ensures n < 0 ==> r[0] == '-'
    ensures n < 0 ==> forall k :: 1 <= k < |r| ==> '0' <= r[k] <= '9'
    ensures n < 0 ==> DigitsValue(r[1..]) == -n
    ensures n < 0 ==> |r| > 1 && r[1] != '0'
    ensures |r| > 1 ==> r[0] != '0'
    ensures r == "0" <==> n == 0
  {
    if n < 0 then
      var r := "-" + NatText(-n);
      assert r[1..] == NatText(-n);
      assert r[1] == NatText(-n)[0];
      r
    else NatText(n)
  }
}
