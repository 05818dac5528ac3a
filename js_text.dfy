/**
 * The JavaScript string and number conversions the form relies on:
 * `Number.prototype.toString` for integers, `parseInt`, `String.prototype.split`
 * with a one-character separator, and `String.prototype.startsWith`.
 */
module JsText {

  import opened Optional

  predicate IsDigit(c: char) { '0' <= c <= '9' }

  predicate AllDigits(s: string) { forall i :: 0 <= i < |s| ==> IsDigit(s[i]) }

  /** The leading white space `parseInt` skips (the common part of ECMAScript's set). */
  predicate IsSpace(c: char)
  {
    c == ' ' || c == '\t' || c == '\n' || c == '\r' || c == '\U{000B}' || c == '\U{000C}'
    || c == '\U{00A0}' || c == '\U{FEFF}'
  }

  function DigitChar(d: int): (c: char)
    requires 0 <= d < 10
    ensures IsDigit(c)
  {
    (48 + d) as char
  }

  function DigitValue(c: char): (d: int)
    requires IsDigit(c)
    ensures 0 <= d < 10
  {
    c as int - 48
  }

  /** The decimal digits of `n`, most significant first, without leading zeros. */
  function NatDigits(n: nat): (s: string)
    ensures |s| > 0 && AllDigits(s)
    decreases n
  {
    if n < 10 then [DigitChar(n)] else NatDigits(n / 10) + [DigitChar(n % 10)]
  }

  /** `n.toString()` for an integral number `n`: an optional minus sign, then digits. */
  function IntToString(n: int): (s: string)
    ensures |s| > 0 && (s[0] == '-' || IsDigit(s[0]))
    ensures forall i :: 0 < i < |s| ==> IsDigit(s[i])
  {
    if n < 0 then "-" + NatDigits(-n) else NatDigits(n)
  }

  /** The text of an integer holds only digits and a minus sign. */
  lemma IntToStringChars(n: int)
    ensures forall c :: c in IntToString(n) ==> c == '-' || IsDigit(c)
  {
    var s := IntToString(n);
    forall c | c in s ensures c == '-' || IsDigit(c) {
      var j :| 0 <= j < |s| && s[j] == c;
    }
  }

  /** The value of a string of decimal digits, read most significant first. */
  function DigitsValue(s: string): nat
    requires AllDigits(s)
    decreases |s|
  {
    if s == [] then 0 else DigitsValue(s[..|s| - 1]) * 10 + DigitValue(s[|s| - 1])
  }

  /** `s` without its leading white space. */
  function TrimStart(s: string): (t: string)
    ensures t == [] || !IsSpace(t[0])
    decreases |s|
  {
    if s != [] && IsSpace(s[0]) then TrimStart(s[1..]) else s
  }

  /** The longest prefix of `s` made of decimal digits. */
  function DigitPrefix(s: string): (p: string)
    ensures AllDigits(p)
    decreases |s|
  {
    if s != [] && IsDigit(s[0]) then [s[0]] + DigitPrefix(s[1..]) else []
  }

  /**
   * `parseInt(s)` with the default radix on a numeral without a `0x` prefix:
   * skip white space, read an optional sign, then the longest run of digits.
   * `None` stands for `NaN`, the result when there is no digit to read.
   */
  function ParseInt(s: string): Option<int>
  {
    var t := TrimStart(s);
    var digits := DigitPrefix(Unsigned(t));
    var magnitude: int := DigitsValue(digits);
    if digits == [] then None else Some(if IsNegative(t) then -magnitude else magnitude)
  }

  predicate IsNegative(t: string) { t != [] && t[0] == '-' }

  /** `t` without a leading sign. */
  function Unsigned(t: string): string
  {
    if t != [] && (t[0] == '-' || t[0] == '+') then t[1..] else t
  }

  /** `parseInt(s) || 0`: `NaN` (and zero) fall back to 0. */
  function ParseIntOrZero(s: string): int
  {
    match ParseInt(s)
    case None => 0
    case Some(v) => v
  }

  /** `s.startsWith(prefix)`. */
  predicate StartsWith(s: string, prefix: string) { prefix <= s }

  /** `s.split(sep)` for a one-character separator: the pieces between separators, at least one. */
  function Split(s: string, sep: char): (parts: seq<string>)
    ensures |parts| >= 1
    decreases |s|
  {
    if s == [] then [""]
    else if s[0] == sep then [""] + Split(s[1..], sep)
    else
      var rest := Split(s[1..], sep);
      [[s[0]] + rest[0]] + rest[1..]
  }

  lemma {:induction false} DigitsValueOfNatDigits(n: nat)
    ensures DigitsValue(NatDigits(n)) == n
    decreases n
  {
    if n >= 10 {
      var s := NatDigits(n);
      assert s[..|s| - 1] == NatDigits(n / 10);
      DigitsValueOfNatDigits(n / 10);
    }
  }

  lemma {:induction false} DigitPrefixOfDigits(d: string, rest: string)
    requires AllDigits(d)
    requires rest == [] || !IsDigit(rest[0])
    ensures DigitPrefix(d + rest) == d
    decreases |d|
  {
    if d != [] {
      assert (d + rest)[1..] == d[1..] + rest;
      DigitPrefixOfDigits(d[1..], rest);
    } else {
      assert d + rest == rest;
    }
  }

  /** `parseInt` of a run of digits followed by a non-digit reads the run. */
  lemma ParseIntOfDigits(d: string, rest: string)
    requires d != [] && AllDigits(d)
    requires rest == [] || !IsDigit(rest[0])
    ensures ParseInt(d + rest) == Some(DigitsValue(d))
  {
    var s := d + rest;
    assert s[0] == d[0];
    assert TrimStart(s) == s;
    assert !IsNegative(s) && Unsigned(s) == s;
    DigitPrefixOfDigits(d, rest);
    assert DigitPrefix(Unsigned(TrimStart(s))) == d;
  }

  /** The same after a minus sign. */
  lemma ParseIntOfNegatedDigits(d: string, rest: string)
    requires d != [] && AllDigits(d)
    requires rest == [] || !IsDigit(rest[0])
    ensures ParseInt("-" + d + rest) == Some(-(DigitsValue(d) as int))
  {
    var s := "-" + d + rest;
    assert s[0] == '-';
    assert TrimStart(s) == s;
    assert IsNegative(s);
    assert Unsigned(s) == d + rest by {
      assert s[1..] == d + rest;
    }
    DigitPrefixOfDigits(d, rest);
    assert DigitPrefix(Unsigned(TrimStart(s))) == d;
  }

  /** `parseInt` reads back what `toString` wrote, whatever non-digit text follows it. */
  lemma ParseIntOfRendered(n: int, rest: string)
    requires rest == [] || !IsDigit(rest[0])
    ensures ParseInt(IntToString(n) + rest) == Some(n)
  {
    if n < 0 {
      var d := NatDigits(-n);
      assert IntToString(n) + rest == "-" + d + rest;
      ParseIntOfNegatedDigits(d, rest);
      DigitsValueOfNatDigits(-n);
    } else {
      var d := NatDigits(n);
      assert IntToString(n) + rest == d + rest;
      ParseIntOfDigits(d, rest);
      DigitsValueOfNatDigits(n);
    }
  }

  lemma {:induction false} TrimStartIsSuffix(s: string)
    ensures |TrimStart(s)| <= |s| && TrimStart(s) == s[|s| - |TrimStart(s)|..]
    decreases |s|
  {
    if s != [] && IsSpace(s[0]) {
      TrimStartIsSuffix(s[1..]);
      assert s[1..][|s[1..]| - |TrimStart(s[1..])|..] == s[|s| - |TrimStart(s)|..];
    }
  }

  /** `parseInt` skips leading white space, and so does its `|| 0` form. */
  lemma ParseIntSkipsLeadingSpace(s: string)
    requires s != [] && IsSpace(s[0])
    ensures ParseInt(s) == ParseInt(s[1..])
    ensures ParseIntOrZero(s) == ParseIntOrZero(s[1..])
  {
    assert TrimStart(s) == TrimStart(s[1..]);
  }

  /** Text without a digit is `NaN` to `parseInt`, and 0 with the `|| 0` fallback. */
  lemma ParseIntWithoutDigits(s: string)
    requires forall i :: 0 <= i < |s| ==> !IsDigit(s[i])
    ensures ParseInt(s).None?
    ensures ParseIntOrZero(s) == 0
  {
    var t := TrimStart(s);
    TrimStartIsSuffix(s);
    var u := Unsigned(t);
    if u != [] {
      assert u[0] == s[|s| - |u|];
    }
    assert DigitPrefix(u) == [];
  }

  /** Rendering an integer and parsing it back gives the integer. */
  lemma ParseIntRoundTrip(n: int)
    ensures ParseInt(IntToString(n)) == Some(n)
    ensures ParseIntOrZero(IntToString(n)) == n
  {
    ParseIntOfRendered(n, []);
    assert IntToString(n) + [] == IntToString(n);
  }

  lemma {:induction false} SplitWithoutSeparator(a: string, sep: char)
    requires sep !in a
    ensures Split(a, sep) == [a]
    decreases |a|
  {
    if a != [] {
      SplitWithoutSeparator(a[1..], sep);
      assert [a[0]] + a[1..] == a;
    }
  }

  /** Splitting at the first separator: the piece before it, then the pieces of the rest. */
  lemma {:induction false} SplitAtFirstSeparator(a: string, sep: char, b: string)
    requires sep !in a
    ensures Split(a + [sep] + b, sep) == [a] + Split(b, sep)
    decreases |a|
  {
    var s := a + [sep] + b;
    if a == [] {
      assert s == [sep] + b;
      assert s[1..] == b;
    } else {
      assert s[1..] == a[1..] + [sep] + b;
      SplitAtFirstSeparator(a[1..], sep, b);
      assert [a[0]] + a[1..] == a;
    }
  }
}
