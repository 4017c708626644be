/** The string conversions the adapters and the YAML backend rely on:
    `String.valueOf(int/long/boolean)`, `Integer.parseInt`/`Long.parseLong`,
    `Boolean.parseBoolean`, and ASCII case mapping. */
module Text {
  import opened Wrappers

  predicate IsDigit(c: char) { '0' <= c <= '9' }

  function DigitChar(d: nat): (c: char)
    requires d < 10
    ensures IsDigit(c) && DigitValue(c) == d
  {
    ['0', '1', '2', '3', '4', '5', '6', '7', '8', '9'][d]
  }

  function DigitValue(c: char): nat
    requires IsDigit(c)
  {
    (c as int - '0' as int) as nat
  }

  predicate AllDigits(s: string) {
    forall i :: 0 <= i < |s| ==> IsDigit(s[i])
  }

  /** The decimal text of a natural number, without leading zeros. */
  function ShowNat(n: nat): (s: string)
    ensures |s| > 0 && AllDigits(s)
    decreases n
  {
    if n < 10 then [DigitChar(n)] else ShowNat(n / 10) + [DigitChar(n % 10)]
  }

  /** The number a digit string denotes. */
  function DigitsValue(s: string): nat
    requires AllDigits(s)
  {
    if s == [] then 0 else DigitsValue(s[..|s| - 1]) * 10 + DigitValue(s[|s| - 1])
  }

  /** `String.valueOf(i)` for an `int` or a `long`. */
  function ShowInt(i: int): (s: string)
    ensures |s| > 0
  {
    if i < 0 then "-" + ShowNat(-i) else ShowNat(i)
  }

  /** `Integer.parseInt(s)` (lo, hi = the int range) and `Long.parseLong(s)`
      (the long range): an optional sign, then one or more decimal digits
      whose value lies in range; anything else is a `NumberFormatException`. */
  function ParseInt(s: string, lo: int, hi: int): (r: Option<int>)
    ensures r.Some? ==> lo <= r.value <= hi
  {
    if |s| == 0 then None
    else if s[0] == '-' || s[0] == '+' then
      if |s| == 1 || !AllDigits(s[1..]) then None
      else
        var m: int := DigitsValue(s[1..]);
        var v: int := if s[0] == '-' then -m else m;
        if lo <= v <= hi then Some(v) else None
    else if !AllDigits(s) then None
    else
      var v := DigitsValue(s);
      if lo <= v <= hi then Some(v) else None
  }

  lemma {:induction false} DigitsOfShowNat(n: nat)
    ensures DigitsValue(ShowNat(n)) == n
    decreases n
  {
    var s := ShowNat(n);
    if n >= 10 {
      DigitsOfShowNat(n / 10);
      assert s[..|s| - 1] == ShowNat(n / 10);
    }
  }

  /** The canonical decimal text parses back to the same number. */
  lemma ParseShowInt(i: int, lo: int, hi: int)
    requires lo <= i <= hi
    ensures ParseInt(ShowInt(i), lo, hi) == Some(i)
  {
    if i < 0 {
      ParseShowNegative(i, lo, hi);
    } else {
      ParseShowNonNegative(i, lo, hi);
    }
  }

  lemma ParseShowNegative(i: int, lo: int, hi: int)
    requires lo <= i <= hi && i < 0
    ensures ParseInt(ShowInt(i), lo, hi) == Some(i)
  {
    DigitsOfShowNat(-i);
    ParseNegated(ShowNat(-i), lo, hi);
  }

  /** A minus sign followed by digits parses to the negated digit value. */
  lemma ParseNegated(d: string, lo: int, hi: int)
    requires |d| > 0 && AllDigits(d) && lo <= -(DigitsValue(d) as int) <= hi
    ensures ParseInt("-" + d, lo, hi) == Some(-(DigitsValue(d) as int))
  {
    var s := "-" + d;
    assert s[0] == '-' && s[1..] == d;
  }

  lemma ParseShowNonNegative(i: int, lo: int, hi: int)
    requires lo <= i <= hi && i >= 0
    ensures ParseInt(ShowInt(i), lo, hi) == Some(i)
  {
    var s := ShowInt(i);
    assert s == ShowNat(i);
    assert IsDigit(s[0]);
    assert s[0] != '-' && s[0] != '+';
    DigitsOfShowNat(i);
  }

  /** A key that parses has digits after its optional sign: text such as
      "abc" or "" is rejected rather than read as 0. */
  lemma ParsedTextIsNumeric(s: string, lo: int, hi: int)
    requires ParseInt(s, lo, hi).Some?
    ensures |s| > 0
    ensures AllDigits(s) || ((s[0] == '-' || s[0] == '+') && |s| > 1 && AllDigits(s[1..]))
  {
  }

  function ToLowerAscii(c: char): (d: char)
    ensures 'A' <= c <= 'Z' ==> d as int == c as int + 32
    ensures !('A' <= c <= 'Z') ==> d == c
  {
    if 'A' <= c <= 'Z' then (c as int + 32) as char else c
  }

  function ToUpperAscii(c: char): (d: char)
    ensures 'a' <= c <= 'z' ==> d as int == c as int - 32
    ensures !('a' <= c <= 'z') ==> d == c
  {
    if 'a' <= c <= 'z' then (c as int - 32) as char else c
  }

  /** `String.equalsIgnoreCase`, with case folded on ASCII letters. */
  predicate EqualsIgnoreCase(a: string, b: string) {
    |a| == |b| && forall i :: 0 <= i < |a| ==> ToLowerAscii(a[i]) == ToLowerAscii(b[i])
  }

  /** `Boolean.parseBoolean(s)` / `Boolean.valueOf(s)`: true exactly for a
      case-insensitive "true"; every other string is false, never an error. */
  function ParseBoolean(s: string): (b: bool)
    ensures b ==> |s| == 4
    ensures s == "true" || s == "True" || s == "TRUE" ==> b
    ensures s == "false" || s == "" || s == "yes" || s == "1" ==> !b
  {
    EqualsIgnoreCase(s, "true")
  }

  /** `String.valueOf(b)`. */
  function ShowBool(b: bool): string {
    if b then "true" else "false"
  }

  lemma ParseShowBool(b: bool)
    ensures ParseBoolean(ShowBool(b)) == b
  {
    if !b {
      assert ToLowerAscii(ShowBool(b)[0]) != ToLowerAscii("true"[0]);
    }
  }
}
