/**
 The slice of JavaScript's built-in string and number behaviour that the
 dashboard relies on: `String.prototype.trim`, `toUpperCase`/`toLowerCase`
 (ASCII letters only), `includes`, `startsWith`, the global `parseInt` and
 the decimal rendering of an integer (`String(n)`, `n.toString()`).
 */
module Js {
  import opened Results

  /** JavaScript truthiness of a string that may be `null`/`undefined`: present
      and non-empty. */
  predicate Present(s: Option<string>) {
    s.Some? && s.value != ""
  }

  /** The completion of an awaited callback: it returned, or it threw an error with a message. */
  datatype Completion = Returned | Threw(message: string)

  // ---------------------------------------------------------------------------
  // Whitespace and trim
  // ---------------------------------------------------------------------------

  /** JavaScript's WhiteSpace and LineTerminator code points: what `trim` removes
      and what `parseInt` skips. */
  predicate IsSpace(c: char) {
    var n := c as int;
    n == 0x09 || n == 0x0A || n == 0x0B || n == 0x0C || n == 0x0D || n == 0x20
    || n == 0xA0 || n == 0x1680 || (0x2000 <= n <= 0x200A) || n == 0x2028 || n == 0x2029
    || n == 0x202F || n == 0x205F || n == 0x3000 || n == 0xFEFF
  }

  /** Every character is whitespace (the empty string included). */
  predicate IsBlank(s: string) {
    forall i :: 0 <= i < |s| ==> IsSpace(s[i])
  }

  /** `s` with its leading whitespace removed. */
  function TrimStart(s: string): string {
    if |s| > 0 && IsSpace(s[0]) then TrimStart(s[1..]) else s
  }

  /** `s` with its trailing whitespace removed. */
  function TrimEnd(s: string): string {
    if |s| > 0 && IsSpace(s[|s| - 1]) then TrimEnd(s[..|s| - 1]) else s
  }

  /** `TrimStart` drops a blank prefix and stops at the first non-space character. */
  lemma {:induction false} TrimStartSpec(s: string)
    ensures var r := TrimStart(s);
      && |r| <= |s| && r == s[|s| - |r|..]
      && (r == [] || !IsSpace(r[0]))
      && IsBlank(s[..|s| - |r|])
  {
    if |s| > 0 && IsSpace(s[0]) {
      TrimStartSpec(s[1..]);
      var r := TrimStart(s[1..]);
      assert s[1..][..|s| - 1 - |r|] == s[1..|s| - |r|];
    }
  }

  /** `TrimEnd` drops a blank suffix and stops at the last non-space character. */
  lemma {:induction false} TrimEndSpec(s: string)
    ensures var r := TrimEnd(s);
      && |r| <= |s| && r == s[..|r|]
      && (r == [] || !IsSpace(r[|r| - 1]))
      && IsBlank(s[|r|..])
  {
    if |s| > 0 && IsSpace(s[|s| - 1]) {
      TrimEndSpec(s[..|s| - 1]);
      var r := TrimEnd(s[..|s| - 1]);
      assert s[|r|..] == s[..|s| - 1][|r|..] + [s[|s| - 1]];
    }
  }

  /** `String.prototype.trim`. */
  function Trim(s: string): string {
    TrimEnd(TrimStart(s))
  }

  /** What `trim` yields: a contiguous piece of `s` that neither starts nor ends
      with whitespace, and is empty exactly when `s` is blank. */
  lemma TrimSpec(s: string)
    ensures |Trim(s)| <= |s|
    ensures Trim(s) == [] || (!IsSpace(Trim(s)[0]) && !IsSpace(Trim(s)[|Trim(s)| - 1]))
    ensures |TrimStart(s)| <= |s|
    ensures var k := |s| - |TrimStart(s)|; k + |Trim(s)| <= |s| && Trim(s) == s[k..k + |Trim(s)|]
    ensures Trim(s) == [] <==> IsBlank(s)
  {
    var t := TrimStart(s);
    var r := TrimEnd(t);
    TrimStartSpec(s);
    TrimEndSpec(t);
    TrimPieces(s, t, r);
  }

  /** The facts `Trim` promises, from those of `TrimStart` and `TrimEnd`. */
  lemma {:induction false} TrimPieces(s: string, t: string, r: string)
    requires t == TrimStart(s) && r == TrimEnd(t)
    ensures |t| <= |s|
    ensures var k := |s| - |t|; k + |r| <= |s| && r == s[k..k + |r|]
    ensures r == [] <==> IsBlank(s)
  {
    TrimStartSpec(s);
    TrimEndSpec(t);
    var k := |s| - |t|;
    assert r == s[k..k + |r|];
    if r == [] {
      assert t == [] by {
        assert t[|r|..] == t;
      }
      assert s[..k] == s;
    } else {
      assert s[k] == t[0] == r[0];
    }
  }

  /** Trimming twice is trimming once. */
  lemma TrimIdempotent(s: string)
    ensures Trim(Trim(s)) == Trim(s)
  {
    TrimSpec(s);
    TrimOfTrimmed(Trim(s));
  }

  /** A string that neither starts nor ends with whitespace is its own trim. */
  lemma TrimOfTrimmed(r: string)
    requires r == [] || (!IsSpace(r[0]) && !IsSpace(r[|r| - 1]))
    ensures Trim(r) == r
  {
    assert TrimStart(r) == r;
    assert TrimEnd(r) == r;
  }

  // ---------------------------------------------------------------------------
  // Case mapping (ASCII letters)
  // ---------------------------------------------------------------------------

  predicate IsLowerLetter(c: char) { 'a' <= c <= 'z' }

  predicate IsUpperLetter(c: char) { 'A' <= c <= 'Z' }

  function UpperChar(c: char): (r: char)
    ensures !IsLowerLetter(r)
    ensures IsLowerLetter(c) ==> r as int == c as int - 32
    ensures !IsLowerLetter(c) ==> r == c
  {
    if IsLowerLetter(c) then (c as int - 32) as char else c
  }

  function LowerChar(c: char): (r: char)
    ensures !IsUpperLetter(r)
    ensures IsUpperLetter(c) ==> r as int == c as int + 32
    ensures !IsUpperLetter(c) ==> r == c
  {
    if IsUpperLetter(c) then (c as int + 32) as char else c
  }

  /** `toUpperCase` on ASCII letters; every other character is kept. */
  function Upper(s: string): (r: string)
    ensures |r| == |s|
    ensures forall i :: 0 <= i < |s| ==> r[i] == UpperChar(s[i])
  {
    seq(|s|, i requires 0 <= i < |s| => UpperChar(s[i]))
  }

  /** `toLowerCase` on ASCII letters; every other character is kept. */
  function Lower(s: string): (r: string)
    ensures |r| == |s|
    ensures forall i :: 0 <= i < |s| ==> r[i] == LowerChar(s[i])
  {
    seq(|s|, i requires 0 <= i < |s| => LowerChar(s[i]))
  }

  /** Upper-casing leaves no lower-case letter, so it is idempotent. */
  lemma UpperIdempotent(s: string)
    ensures Upper(Upper(s)) == Upper(s)
  {
  }

  /** A string without lower-case letters is its own upper case. */
  lemma UpperOfUpper(s: string)
    requires forall i :: 0 <= i < |s| ==> !IsLowerLetter(s[i])
    ensures Upper(s) == s
  {
  }

  /** Two strings with the same lower case have the same upper case. */
  lemma SameLowerSameUpper(s: string, t: string)
    requires Lower(s) == Lower(t)
    ensures Upper(s) == Upper(t)
  {
    forall i | 0 <= i < |s| ensures UpperChar(s[i]) == UpperChar(t[i]) {
      assert LowerChar(s[i]) == LowerChar(t[i]);
    }
  }

  lemma LowerOfUpper(s: string)
    ensures Lower(Upper(s)) == Lower(s)
  {
  }

  // ---------------------------------------------------------------------------
  // Substrings
  // ---------------------------------------------------------------------------

  /** `s.startsWith(p)`. */
  predicate StartsWith(s: string, p: string) {
    |p| <= |s| && s[..|p|] == p
  }

  /** `s.includes(sub)`: `sub` occurs at some position of `s`. */
  predicate Contains(s: string, sub: string)
    decreases |s|
  {
    StartsWith(s, sub) || (|s| > 0 && Contains(s[1..], sub))
  }

  /** Whatever is appended to a string, what it contained it still contains. */
  lemma {:induction false} ContainsExtend(s: string, sub: string, tail: string)
    requires Contains(s, sub)
    ensures Contains(s + tail, sub)
    decreases |s|
  {
    if StartsWith(s, sub) {
      assert (s + tail)[..|sub|] == s[..|sub|];
    } else {
      ContainsExtend(s[1..], sub, tail);
      assert (s + tail)[1..] == s[1..] + tail;
    }
  }

  /** Whatever is prepended to a string, what it contained it still contains. */
  lemma {:induction false} ContainsPrepend(head: string, s: string, sub: string)
    requires Contains(s, sub)
    ensures Contains(head + s, sub)
    decreases |head|
  {
    if |head| > 0 {
      ContainsPrepend(head[1..], s, sub);
      assert (head + s)[1..] == head[1..] + s;
    } else {
      assert head + s == s;
    }
  }

  // ---------------------------------------------------------------------------
  // Numbers
  // ---------------------------------------------------------------------------

  /** The integer-valued JavaScript numbers the dashboard produces: `NaN` or an
      integer (`-0` is modelled as `0`, which behaves the same in every comparison these handlers make). */
  datatype Number = NaN | Num(value: int) {

    /** JavaScript truthiness of a number: `NaN` and `0` are falsy. */
    predicate Truthy() {
      Num? && value != 0
    }
  }

  /** `parseInt(s)` with no radix detects a `0x` prefix; `parseInt(s, 10)` does not. */
  datatype Radix = NoRadix | Radix10

  predicate IsDecDigit(c: char) { '0' <= c <= '9' }

  predicate IsHexDigit(c: char) {
    IsDecDigit(c) || ('a' <= c <= 'f') || ('A' <= c <= 'F')
  }

  predicate IsDigitIn(c: char, base: int) {
    if base == 16 then IsHexDigit(c) else IsDecDigit(c)
  }

  function DigitValue(c: char): (r: nat)
    requires IsHexDigit(c)
    ensures r < 16
    ensures IsDecDigit(c) ==> r < 10
  {
    if IsDecDigit(c) then c as int - '0' as int
    else if 'a' <= c <= 'f' then c as int - 'a' as int + 10
    else c as int - 'A' as int + 10
  }

  /** The length of the longest prefix of `s` made of digits of `base`. */
  function DigitPrefixLength(s: string, base: int): (n: nat)
    ensures n <= |s|
    ensures forall i :: 0 <= i < n ==> IsDigitIn(s[i], base)
    ensures n == |s| || !IsDigitIn(s[n], base)
  {
    if |s| > 0 && IsDigitIn(s[0], base) then 1 + DigitPrefixLength(s[1..], base) else 0
  }

  /** The value of a string of digits of `base`, most significant digit first. */
  function DigitsValue(ds: string, base: int): nat
    requires base == 10 || base == 16
    requires forall i :: 0 <= i < |ds| ==> IsDigitIn(ds[i], base)
  {
    if |ds| == 0 then 0
    else
      var last := ds[|ds| - 1];
      assert IsDigitIn(last, base);
      DigitsValue(ds[..|ds| - 1], base) * base + DigitValue(last)
  }

  /** The longest run of digits of `base` at the front of `body`, read as a
      number; no digit at all is `NaN`. */
  function ParseDigitRun(body: string, base: int): (r: Number)
    requires base == 10 || base == 16
    ensures r == NaN <==> (body == [] || !IsDigitIn(body[0], base))
  {
    var n := DigitPrefixLength(body, base);
    if n == 0 then NaN else Num(DigitsValue(body[..n], base))
  }

  /** `0x` or `0X` at the front of `u`. */
  predicate HasHexPrefix(u: string) {
    |u| >= 2 && u[0] == '0' && (u[1] == 'x' || u[1] == 'X')
  }

  /** `parseInt` after the sign: with no radix a `0x` prefix switches to base 16. */
  function ParseUnsigned(u: string, radix: Radix): Number {
    if radix == NoRadix && HasHexPrefix(u) then ParseDigitRun(u[2..], 16)
    else ParseDigitRun(u, 10)
  }

  function Negate(x: Number): (r: Number)
    ensures r.NaN? <==> x.NaN?
  {
    match x
    case NaN => NaN
    case Num(v) => Num(-v)
  }

  /** The global `parseInt` on a string: skip leading whitespace, take an optional
      sign, then (radix absent) an optional `0x`/`0X` prefix, then the longest run
      of digits; no digits gives `NaN`. */
  function ParseInt(s: string, radix: Radix): Number {
    var t := TrimStart(s);
    if |t| > 0 && t[0] == '-' then Negate(ParseUnsigned(t[1..], radix))
    else if |t| > 0 && t[0] == '+' then ParseUnsigned(t[1..], radix)
    else ParseUnsigned(t, radix)
  }

  /** The decimal digits of a natural number, most significant first, no leading zeros. */
  function Digits(n: nat): (r: string)
    ensures |r| >= 1
    ensures forall i :: 0 <= i < |r| ==> IsDecDigit(r[i])
    ensures n > 0 ==> r[0] != '0'
    decreases n
  {
    if n < 10 then [('0' as int + n) as char]
    else Digits(n / 10) + [('0' as int + n % 10) as char]
  }

  /** `String(n)` for an integer `n`: an optional minus sign, then its digits. */
  function Decimal(n: int): (r: string)
    ensures |r| >= 1
    ensures n >= 0 ==> r == Digits(n)
    ensures n < 0 ==> r == "-" + Digits(-n)
  {
    if n < 0 then "-" + Digits(-n) else Digits(n)
  }

  /** Reading back the digits of `n` gives `n`. */
  lemma {:induction false} DigitsValueOfDigits(n: nat)
    ensures DigitsValue(Digits(n), 10) == n
    decreases n
  {
    var ds := Digits(n);
    if n >= 10 {
      DigitsValueOfDigits(n / 10);
      assert ds[..|ds| - 1] == Digits(n / 10);
    }
  }

  /** In `p + rest`, the digit run stops exactly where the digits of `p` stop. */
  lemma {:induction false} DigitPrefixOfConcat(p: string, rest: string, base: int)
    requires forall i :: 0 <= i < |p| ==> IsDigitIn(p[i], base)
    requires rest == [] || !IsDigitIn(rest[0], base)
    ensures DigitPrefixLength(p + rest, base) == |p|
    decreases |p|
  {
    if |p| > 0 {
      assert (p + rest)[1..] == p[1..] + rest;
      DigitPrefixOfConcat(p[1..], rest, base);
    } else {
      assert p + rest == rest;
    }
  }

  /** A character that can follow a rendered number without being read as part of it. */
  predicate EndsNumber(rest: string) {
    rest == [] || (!IsHexDigit(rest[0]) && rest[0] != 'x' && rest[0] != 'X')
  }

  /** The digit run of `String(m) + rest` is exactly the digits of `m`. */
  lemma ParseDigitsOfDigits(m: nat, rest: string, radix: Radix)
    requires EndsNumber(rest)
    ensures ParseUnsigned(Digits(m) + rest, radix) == Num(m)
  {
    var ds := Digits(m);
    var u := ds + rest;
    assert !HasHexPrefix(u) by {
      if |ds| >= 2 {
        assert u[1] == ds[1];
      } else if |u| >= 2 {
        assert u[1] == rest[0];
      }
    }
    DigitPrefixOfConcat(ds, rest, 10);
    assert u[..|ds|] == ds;
    DigitsValueOfDigits(m);
  }

  /** `parseInt` reads back `String(n)`, whatever non-digit text follows it: the
      decimal rendering and `parseInt` are inverse on the integers. */
  lemma {:induction false} ParseIntOfDecimal(n: int, rest: string, radix: Radix)
    requires EndsNumber(rest)
    ensures ParseInt(Decimal(n) + rest, radix) == Num(n)
  {
    var m: nat := if n < 0 then -n else n;
    var u := Digits(m) + rest;
    ParseDigitsOfDigits(m, rest, radix);
    if n < 0 {
      assert Decimal(n) + rest == ['-'] + u;
      ParseIntOfNegative(Decimal(n) + rest, u, radix, m);
    } else {
      assert Decimal(n) + rest == u;
      assert u[0] == Digits(m)[0];
      ParseIntOfUnsigned(u, radix, m);
    }
  }

  /** A minus sign in front negates what follows. */
  lemma ParseIntOfNegative(s: string, u: string, radix: Radix, m: nat)
    requires s == ['-'] + u
    requires ParseUnsigned(u, radix) == Num(m)
    ensures ParseInt(s, radix) == Num(-(m as int))
  {
    assert TrimStart(s) == s;
    assert s[1..] == u;
  }

  /** A string that starts with a digit is read with no sign. */
  lemma ParseIntOfUnsigned(u: string, radix: Radix, m: nat)
    requires |u| > 0 && IsDecDigit(u[0])
    requires ParseUnsigned(u, radix) == Num(m)
    ensures ParseInt(u, radix) == Num(m)
  {
    DigitIsNotSpace(u[0]);
    TrimStartOfNonSpace(u);
  }

  lemma DigitIsNotSpace(c: char)
    requires IsDecDigit(c)
    ensures !IsSpace(c) && c != '-' && c != '+'
  {
  }

  /** Nothing is trimmed from a string that does not start with whitespace. */
  lemma TrimStartOfNonSpace(s: string)
    requires |s| > 0 && !IsSpace(s[0])
    ensures TrimStart(s) == s
  {
  }

  /** A string with no digit at all parses to `NaN`. */
  lemma ParseIntWithoutDigits(s: string, radix: Radix)
    requires forall i :: 0 <= i < |s| ==> !IsHexDigit(s[i])
    ensures ParseInt(s, radix) == NaN
  {
    var t := TrimStart(s);
    TrimStartSpec(s);
    var body := if |t| > 0 && (t[0] == '-' || t[0] == '+') then t[1..] else t;
    assert |body| > 0 ==> body[0] == s[|s| - |body|];
    assert !HasHexPrefix(body);
    assert ParseUnsigned(body, radix) == ParseDigitRun(body, 10) == NaN;
  }
}
