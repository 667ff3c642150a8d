/**
 * The JavaScript built-ins the application relies on, on Dafny strings:
 * whitespace (`String.prototype.trim` and the regex class `\s`), `startsWith`,
 * ASCII upper-casing, and `parseInt` with no radix argument.
 */
module JsText {
  import opened Wrappers

  /** The WhiteSpace and LineTerminator characters that `trim` removes and `\s` matches. */
  predicate IsSpace(c: char) {
    || c == ' ' || c == '\t' || c == '\n' || c == '\r' || c == '\U{B}' || c == '\U{C}'
    || c == '\U{A0}' || c == '\U{1680}' || ('\U{2000}' <= c <= '\U{200A}')
    || c == '\U{2028}' || c == '\U{2029}' || c == '\U{202F}' || c == '\U{205F}'
    || c == '\U{3000}' || c == '\U{FEFF}'
  }

  /** `s` with its leading whitespace removed. */
  function TrimStart(s: string): (r: string)
    ensures |r| <= |s| && r == s[|s| - |r|..]
    ensures r == [] || !IsSpace(r[0])
    ensures forall i :: 0 <= i < |s| - |r| ==> IsSpace(s[i])
  {
    if s != [] && IsSpace(s[0]) then TrimStart(s[1..]) else s
  }

  /** `s` with its trailing whitespace removed. */
  function TrimEnd(s: string): (r: string)
    ensures |r| <= |s| && r == s[..|r|]
    ensures r == [] || !IsSpace(r[|r| - 1])
    ensures forall i :: |r| <= i < |s| ==> IsSpace(s[i])
  {
    if s != [] && IsSpace(s[|s| - 1]) then TrimEnd(s[..|s| - 1]) else s
  }

  /** How many leading whitespace characters `TrimStart` removes. */
  function TrimOffset(s: string): (k: nat)
    ensures k <= |s|
  {
    |s| - |TrimStart(s)|
  }

  /** `s.trim()`: the piece of `s` after its leading and before its trailing whitespace. */
  function Trim(s: string): (r: string)
    ensures r == [] || (!IsSpace(r[0]) && !IsSpace(r[|r| - 1]))
    ensures TrimOffset(s) + |r| <= |s| && r == s[TrimOffset(s)..TrimOffset(s) + |r|]
  {
    TrimEnd(TrimStart(s))
  }

  /** Trimming leaves nothing exactly when every character is whitespace. */
  lemma {:induction false} TrimEmptyIffAllSpace(s: string)
    ensures Trim(s) == [] <==> forall i :: 0 <= i < |s| ==> IsSpace(s[i])
  {
    var t := TrimStart(s);
    if t != [] {
      assert !IsSpace(t[0]);
      var r := TrimEnd(t);
      assert |r| > 0;
      assert s[|s| - |t|] == t[0];
    }
  }

  /** `s.startsWith(prefix)`. */
  predicate StartsWith(s: string, prefix: string) {
    |prefix| <= |s| && s[..|prefix|] == prefix
  }

  /** `toUpperCase` on one character, for the ASCII letters. */
  function UpperChar(c: char): (u: char)
    ensures 'a' <= c <= 'z' ==> u as int == c as int - 32
    ensures !('a' <= c <= 'z') ==> u == c
    ensures !('a' <= u <= 'z')
  {
    if 'a' <= c <= 'z' then (c as int - 32) as char else c
  }

  /** The value of `c` as a digit in base 36 (0-9, then a-z or A-Z), or 36 when it is none. */
  function DigitValue(c: char): (d: nat)
    ensures d <= 36
  {
    if '0' <= c <= '9' then c as int - '0' as int
    else if 'a' <= c <= 'z' then c as int - 'a' as int + 10
    else if 'A' <= c <= 'Z' then c as int - 'A' as int + 10
    else 36
  }

  /** The length of the longest prefix of `s` made of digits of base `radix`. */
  function DigitRun(s: string, radix: nat): (k: nat)
    ensures k <= |s|
    ensures forall i :: 0 <= i < k ==> DigitValue(s[i]) < radix
    ensures k < |s| ==> DigitValue(s[k]) >= radix
  {
    if s != [] && DigitValue(s[0]) < radix then 1 + DigitRun(s[1..], radix) else 0
  }

  /** The number that the digit string `ds` denotes in base `radix`, most significant first. */
  function DigitsValue(ds: string, radix: nat): nat
  {
    if ds == [] then 0
    else DigitsValue(ds[..|ds| - 1], radix) * radix + (if DigitValue(ds[|ds| - 1]) < radix then DigitValue(ds[|ds| - 1]) else 0)
  }

  /** A `0x` or `0X` prefix, which switches `parseInt` to base 16. */
  predicate HasHexPrefix(u: string) {
    |u| >= 2 && u[0] == '0' && (u[1] == 'x' || u[1] == 'X')
  }

  /** The unsigned part of `parseInt`: the longest run of digits, or NaN (`None`) when empty. */
  function ParseUnsigned(u: string): Option<nat>
  {
    var radix := if HasHexPrefix(u) then 16 else 10;
    var body := if HasHexPrefix(u) then u[2..] else u;
    var k := DigitRun(body, radix);
    if k == 0 then None else Some(DigitsValue(body[..k], radix))
  }

  /** The signed part of `parseInt`: an optional `+` or `-` before the unsigned part. */
  function ParseSigned(t: string): Option<int>
  {
    if t != [] && (t[0] == '-' || t[0] == '+') then
      match ParseUnsigned(t[1..])
      case None => None
      case Some(m) => var v: int := m; Some(if t[0] == '-' then -v else v)
    else
      match ParseUnsigned(t)
      case None => None
      case Some(m) => Some(m)
  }

  /**
   * `parseInt(s)` with no radix: skip leading whitespace, take an optional sign, switch to
   * base 16 after a `0x`/`0X` prefix, and read the longest run of digits; no digit at all is
   * NaN (`None`). What follows the digits is ignored.
   */
  function ParseInt(s: string): Option<int>
  {
    ParseSigned(TrimStart(s))
  }

  /** The decimal digit character for `d`. */
  function DigitChar(d: nat): (c: char)
    requires d < 10
    ensures '0' <= c <= '9' && DigitValue(c) == d
  {
    ('0' as int + d) as char
  }

  /** The decimal rendering of `n`, without leading zeros. */
  function NatToDecimal(n: nat): (s: string)
    ensures |s| >= 1
    ensures forall i :: 0 <= i < |s| ==> '0' <= s[i] <= '9'
    ensures s[0] == '0' ==> n == 0 && s == "0"
  {
    if n < 10 then [DigitChar(n)] else NatToDecimal(n / 10) + [DigitChar(n % 10)]
  }

  /** The decimal rendering of `n`, with a `-` when negative (`String(n)` for an integer). */
  function IntToDecimal(n: int): string {
    if n < 0 then "-" + NatToDecimal(-n) else NatToDecimal(n)
  }

  lemma {:induction false} DigitsValueOfDecimal(n: nat)
    ensures DigitsValue(NatToDecimal(n), 10) == n
  {
    if n >= 10 {
      var s := NatToDecimal(n);
      assert s[..|s| - 1] == NatToDecimal(n / 10);
      DigitsValueOfDecimal(n / 10);
    }
  }

  lemma {:induction false} DigitRunOfDigitsThenRest(ds: string, rest: string, radix: nat)
    requires forall i :: 0 <= i < |ds| ==> DigitValue(ds[i]) < radix
    requires rest == [] || DigitValue(rest[0]) >= radix
    ensures DigitRun(ds + rest, radix) == |ds|
  {
    if ds != [] {
      assert (ds + rest)[1..] == ds[1..] + rest;
      DigitRunOfDigitsThenRest(ds[1..], rest, radix);
    }
  }

  lemma {:induction false} ParseUnsignedOfDecimal(m: nat, rest: string)
    requires rest == [] || !('0' <= rest[0] <= '9')
    requires m == 0 && rest != [] ==> rest[0] != 'x' && rest[0] != 'X'
    ensures ParseUnsigned(NatToDecimal(m) + rest) == Some(m)
  {
    var digits := NatToDecimal(m);
    var u := digits + rest;
    assert !HasHexPrefix(u) by {
      if m == 0 { assert u[0] == '0'; if |u| >= 2 { assert u[1] == rest[0]; } }
      else { assert u[0] == digits[0]; }
    }
    assert rest == [] || DigitValue(rest[0]) >= 10;
    DigitRunOfDigitsThenRest(digits, rest, 10);
    assert u[..|digits|] == digits;
    DigitsValueOfDecimal(m);
  }

  /**
   * `parseInt` reads back what `String(n)` wrote, also when other text follows, as long as
   * that text does not continue the number: it must not start with a decimal digit, and after
   * a bare `0` it must not start with `x` or `X` (`parseInt("0x1")` is 1, read as hexadecimal).
   */
  lemma {:induction false} ParseIntOfDecimal(n: int, rest: string)
    requires rest == [] || !('0' <= rest[0] <= '9')
    requires n == 0 && rest != [] ==> rest[0] != 'x' && rest[0] != 'X'
    ensures ParseInt(IntToDecimal(n) + rest) == Some(n)
  {
    if n < 0 {
      var m: nat := -n;
      var digits := NatToDecimal(m);
      assert IntToDecimal(n) == ['-'] + digits;
      assert (['-'] + digits) + rest == ['-'] + (digits + rest);
      ParseSignedOfNegative(m, rest);
    } else {
      ParseSignedOfNonNegative(n, rest);
    }
  }

  lemma {:induction false} ParseSignedOfNegative(m: nat, rest: string)
    requires m > 0
    requires rest == [] || !('0' <= rest[0] <= '9')
    ensures ParseInt(['-'] + (NatToDecimal(m) + rest)) == Some(-(m as int))
  {
    ParseUnsignedOfDecimal(m, rest);
    MinusThenUnsigned(NatToDecimal(m) + rest, m);
  }

  lemma MinusThenUnsigned(u: string, m: nat)
    requires ParseUnsigned(u) == Some(m)
    ensures ParseInt(['-'] + u) == Some(-(m as int))
  {
    var s := ['-'] + u;
    assert s[1..] == u;
    assert TrimStart(s) == s;
  }

  lemma {:induction false} ParseSignedOfNonNegative(m: nat, rest: string)
    requires rest == [] || !('0' <= rest[0] <= '9')
    requires m == 0 && rest != [] ==> rest[0] != 'x' && rest[0] != 'X'
    ensures ParseInt(NatToDecimal(m) + rest) == Some(m)
  {
    var s := NatToDecimal(m) + rest;
    assert s[0] == NatToDecimal(m)[0];
    assert TrimStart(s) == s;
    ParseUnsignedOfDecimal(m, rest);
  }

  /** Leading whitespace does not change what `parseInt` reads. */
  lemma {:induction false} ParseIntSkipsLeadingSpace(ws: string, s: string)
    requires forall i :: 0 <= i < |ws| ==> IsSpace(ws[i])
    ensures ParseInt(ws + s) == ParseInt(s)
  {
    TrimStartSkipsSpace(ws, s);
  }

  lemma {:induction false} TrimStartSkipsSpace(ws: string, s: string)
    requires forall i :: 0 <= i < |ws| ==> IsSpace(ws[i])
    ensures TrimStart(ws + s) == TrimStart(s)
  {
    if ws != [] {
      assert (ws + s)[1..] == ws[1..] + s;
      TrimStartSkipsSpace(ws[1..], s);
    } else {
      assert ws + s == s;
    }
  }

  lemma {:induction false} TrimEndSkipsSpace(s: string, ws: string)
    requires forall i :: 0 <= i < |ws| ==> IsSpace(ws[i])
    ensures TrimEnd(s + ws) == TrimEnd(s)
  {
    if ws != [] {
      assert (s + ws)[..|s + ws| - 1] == s + ws[..|ws| - 1];
      TrimEndSkipsSpace(s, ws[..|ws| - 1]);
    } else {
      assert s + ws == s;
    }
  }

  /** Whitespace on either side of a text with no whitespace at its ends is what `trim` removes. */
  lemma TrimSkipsPadding(ws: string, s: string, ws2: string)
    requires forall i :: 0 <= i < |ws| ==> IsSpace(ws[i])
    requires forall i :: 0 <= i < |ws2| ==> IsSpace(ws2[i])
    requires s != [] && !IsSpace(s[0]) && !IsSpace(s[|s| - 1])
    ensures Trim(ws + s + ws2) == s
  {
    assert ws + s + ws2 == ws + (s + ws2);
    TrimStartSkipsSpace(ws, s + ws2);
    assert TrimStart(s + ws2) == s + ws2;
    TrimEndSkipsSpace(s, ws2);
  }
}
