/** The few JavaScript built-ins the booking service leans on, stated over
    Dafny values: `undefined` as an option, `Array.prototype.indexOf`,
    `Array.prototype.join`, `String.prototype.charAt`, `String(n)` for an
    integer, and the truthiness of a query-string value. */
module JsRuntime {

  /** A value that may be `undefined`. */
  datatype Option<+T> = None | Some(value: T)

  /** `Array.prototype.indexOf`: the first position holding `x`, or -1. */
  function IndexOf<T(==)>(s: seq<T>, x: T): (i: int)
    ensures -1 <= i < |s|
    ensures i == -1 <==> x !in s
    ensures 0 <= i ==> s[i] == x && x !in s[..i]
  {
    if s == [] then -1
    else if s[0] == x then 0
    else
      var k := IndexOf(s[1..], x);
      if k == -1 then -1
      else
        assert s[..k + 1] == [s[0]] + s[1..][..k];
        k + 1
  }

  /** No element occurs twice. */
  predicate NoDuplicates<T(==)>(s: seq<T>) {
    forall i, j :: 0 <= i < j < |s| ==> s[i] != s[j]
  }

  /** In a list without duplicates, `indexOf` finds every element at its own position. */
  lemma {:induction false} IndexOfDistinct<T>(s: seq<T>, i: nat)
    requires NoDuplicates(s)
    requires i < |s|
    ensures IndexOf(s, s[i]) == i
  {
  }

  /** A query-string value is truthy exactly when it is not the empty string. */
  predicate Truthy(v: string) {
    v != ""
  }

  /** `String.prototype.charAt`: a one-character string, or "" past the end. */
  function CharAt(s: string, i: nat): (c: string)
    ensures |c| <= 1
    ensures c == "" <==> |s| <= i
  {
    if i < |s| then [s[i]] else ""
  }

  /** `Array.prototype.join`: the parts with `sep` between neighbours. */
  function Join(parts: seq<string>, sep: string): string
  {
    if parts == [] then ""
    else if |parts| == 1 then parts[0]
    else parts[0] + sep + Join(parts[1..], sep)
  }

  /** The decimal digit `d` as a character. */
  function DigitChar(d: nat): (c: char)
    requires d < 10
    ensures '0' <= c <= '9'
    ensures c as int - '0' as int == d
  {
    (d + '0' as int) as char
  }

  /** `String(n)` for a natural number: its shortest decimal numeral. */
  function NatToString(n: nat): (s: string)
    ensures |s| >= 1
    ensures forall i :: 0 <= i < |s| ==> '0' <= s[i] <= '9'
    ensures s[0] == '0' ==> n == 0
    decreases n
  {
    if n < 10 then [DigitChar(n)]
    else NatToString(n / 10) + [DigitChar(n % 10)]
  }

  /** `String(n)` for an integer: a minus sign before the numeral of |n| when negative. */
  function IntToString(n: int): (s: string)
    ensures |s| >= 1
    ensures s[0] == '-' <==> n < 0
  {
    if n < 0 then "-" + NatToString(-n) else NatToString(n)
  }
}
