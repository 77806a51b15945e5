/** The two JavaScript built-ins the merge engine relies on:
    `String.prototype.trimEnd` and `Number.parseInt` without a radix
    (sections 22.1.3.33 and 19.2.5 of ECMA-262). */
module JsText {
  import opened Wrappers

  /** ECMAScript WhiteSpace and LineTerminator code points: what `trimEnd`
      strips and what `parseInt` skips before the number. */
  predicate IsWhitespace(c: char): (b: bool)
    ensures b ==> DigitValue(c).None? && c != '-' && c != '+'
  {
    var n := c as int;
    n == 0x09 || n == 0x0A || n == 0x0B || n == 0x0C || n == 0x0D || n == 0x20
    || n == 0xA0 || n == 0x1680 || (0x2000 <= n <= 0x200A) || n == 0x2028
    || n == 0x2029 || n == 0x202F || n == 0x205F || n == 0x3000 || n == 0xFEFF
  }

  /** `s.trimEnd()`: the longest prefix of `s` that does not end in whitespace. */
  function TrimEnd(s: string): (r: string)
    ensures r <= s
    ensures r == [] || !IsWhitespace(r[|r| - 1])
    ensures forall i :: |r| <= i < |s| ==> IsWhitespace(s[i])
  {
    if s == [] || !IsWhitespace(s[|s| - 1]) then s else TrimEnd(s[..|s| - 1])
  }

  /** The three postconditions of TrimEnd determine its result. */
  lemma TrimEndUnique(s: string, r: string)
    requires r <= s
    requires r == [] || !IsWhitespace(r[|r| - 1])
    requires forall i :: |r| <= i < |s| ==> IsWhitespace(s[i])
    ensures r == TrimEnd(s)
  {
    var t := TrimEnd(s);
    assert r == s[..|r|] && t == s[..|t|];
  }

  /** Trimming twice is trimming once. */
  lemma TrimEndIdempotent(s: string)
    ensures TrimEnd(TrimEnd(s)) == TrimEnd(s)
  {
    var t := TrimEnd(s);
    TrimEndUnique(t, t);
  }

  /** The value of an ASCII letter or digit as a digit of radix up to 36. */
  function DigitValue(c: char): Option<nat> {
    if '0' <= c <= '9' then Some(c as int - '0' as int)
    else if 'a' <= c <= 'z' then Some(c as int - 'a' as int + 10)
    else if 'A' <= c <= 'Z' then Some(c as int - 'A' as int + 10)
    else None
  }

  predicate IsDigit(c: char, radix: nat) {
    DigitValue(c).Some? && DigitValue(c).value < radix
  }

  /** Length of the longest prefix of `s` made of radix-`radix` digits. */
  function DigitRun(s: string, radix: nat): (n: nat)
    ensures n <= |s|
    ensures forall i :: 0 <= i < n ==> IsDigit(s[i], radix)
    ensures n < |s| ==> !IsDigit(s[n], radix)
  {
    if s == [] || !IsDigit(s[0], radix) then 0 else 1 + DigitRun(s[1..], radix)
  }

  /** The number a string of digits denotes, most significant digit first
      (only ever applied to a run of digits of `radix`). */
  function DigitsValue(d: string, radix: nat): nat {
    if d == [] then 0
    else DigitsValue(d[..|d| - 1], radix) * radix + DigitValue(d[|d| - 1]).GetOr(0)
  }

  /** `Number.parseInt(s)`: skip leading whitespace, then read a signed number.
      `None` stands for NaN (no digit at all). */
  function ParseInt(s: string): (r: Option<int>)
    ensures r.Some? ==> exists i :: 0 <= i < |s| && IsDigit(s[i], 10)
    ensures r.Some? && r.value < 0 ==> exists i :: 0 <= i < |s| && s[i] == '-'
  {
    if s != [] && IsWhitespace(s[0]) then
      var r := ParseInt(s[1..]);
      assert r.Some? ==> exists i :: 1 <= i < |s| && IsDigit(s[i], 10) by {
        if r.Some? {
          var j :| 0 <= j < |s[1..]| && IsDigit(s[1..][j], 10);
          assert s[j + 1] == s[1..][j];
        }
      }
      assert r.Some? && r.value < 0 ==> exists i :: 1 <= i < |s| && s[i] == '-' by {
        if r.Some? && r.value < 0 {
          var j :| 0 <= j < |s[1..]| && s[1..][j] == '-';
          assert s[j + 1] == s[1..][j];
        }
      }
      r
    else
      ParseSigned(s)
  }

  /** An optional sign, then a magnitude; only a leading `-` gives a negative. */
  function ParseSigned(t: string): (r: Option<int>)
    ensures r.Some? ==> (|t| > 0 && IsDigit(t[0], 10)) || (|t| > 1 && IsDigit(t[1], 10))
    ensures r.Some? && r.value < 0 ==> |t| > 0 && t[0] == '-'
  {
    if t != [] && t[0] == '-' then
      match ParseMagnitude(t[1..])
      case Some(m) => Some(0 - m)
      case None => None
    else if t != [] && t[0] == '+' then ParseMagnitude(t[1..])
    else ParseMagnitude(t)
  }

  /** Radix 16 after a `0x`/`0X` prefix, radix 10 otherwise; the longest run of
      digits of that radix, which must not be empty. Either way the text starts
      with a decimal digit (the `0` of the prefix, or the first digit). */
  function ParseMagnitude(u: string): (r: Option<nat>)
    ensures r.Some? ==> |u| > 0 && IsDigit(u[0], 10)
  {
    var hex := |u| >= 2 && u[0] == '0' && (u[1] == 'x' || u[1] == 'X');
    var radix := if hex then 16 else 10;
    var d := if hex then u[2..] else u;
    var n := DigitRun(d, radix);
    if n == 0 then None else Some(DigitsValue(d[..n], radix))
  }

  function DecimalDigit(k: nat): (c: char)
    requires k < 10
  {
    ('0' as int + k) as char
  }

  /** The plain decimal digits of `n`: what JavaScript's `String(n)` gives
      below 10^21. */
  function Decimal(n: nat): (s: string)
    ensures |s| > 0
    ensures forall i :: 0 <= i < |s| ==> IsDigit(s[i], 10)
    ensures s[0] == '0' ==> n == 0
  {
    if n < 10 then [DecimalDigit(n)] else Decimal(n / 10) + [DecimalDigit(n % 10)]
  }

  lemma {:induction false} DecimalValue(n: nat)
    ensures DigitsValue(Decimal(n), 10) == n
  {
    var s := Decimal(n);
    if n < 10 {
      assert s[..0] == [];
    } else {
      DecimalValue(n / 10);
      assert s[..|s| - 1] == Decimal(n / 10);
    }
  }

  /** On a string that starts with a decimal digit and not with `0x`/`0X`,
      `parseInt` is the value of the leading run of decimal digits. */
  lemma ParseIntDecimalPrefix(s: string)
    requires |s| > 0 && IsDigit(s[0], 10)
    requires !(|s| >= 2 && s[0] == '0' && (s[1] == 'x' || s[1] == 'X'))
    ensures DigitRun(s, 10) > 0
    ensures ParseInt(s) == Some(DigitsValue(s[..DigitRun(s, 10)], 10))
  {
    assert !IsWhitespace(s[0]);
  }

  /** `parseInt` reads back the decimal rendering of a natural number, whatever
      non-digit text follows it ("2", "2.0", "2 done", "2x" all give 2). Only
      after a lone "0" does a following `x` or `X` switch to radix 16. */
  lemma ParseIntOfDecimal(n: nat, rest: string)
    requires rest == [] || (!IsDigit(rest[0], 10) && (n != 0 || (rest[0] != 'x' && rest[0] != 'X')))
    ensures ParseInt(Decimal(n) + rest) == Some(n)
  {
    var digits := Decimal(n);
    var s := digits + rest;
    var k := |digits|;
    assert s[0] == digits[0];
    assert digits[0] == '0' ==> k == 1;
    assert k < |s| ==> s[k] == rest[0];
    forall i | 0 <= i < k
      ensures IsDigit(s[i], 10)
    {
      assert s[i] == digits[i];
    }
    ParseIntDecimalPrefix(s);
    DigitRunExact(s, k);
    assert s[..k] == digits;
    DecimalValue(n);
  }

  lemma {:induction false} DigitRunExact(s: string, k: nat)
    requires k <= |s|
    requires forall i :: 0 <= i < k ==> IsDigit(s[i], 10)
    requires k == |s| || !IsDigit(s[k], 10)
    ensures DigitRun(s, 10) == k
  {
    if k > 0 {
      DigitRunExact(s[1..], k - 1);
    }
  }
}
