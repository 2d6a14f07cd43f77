/** The JavaScript string and number built-ins the handlers lean on:
    `trim`, `toLowerCase`/`toUpperCase`, `includes`, `startsWith`, `split`,
    `parseInt(s, 10)` and `Number(s)`.  Case mapping is restricted to ASCII
    letters, and numbers are exact values rather than doubles. */
module JsText {
  import opened Wrappers

  /** The WhiteSpace and LineTerminator code points that `String.prototype.trim`
      strips (sections 12.2 and 12.3 of ECMA-262). */
  predicate IsWhitespace(c: char) {
    c == ' ' || c == '\t' || c == '\n' || c == '\r' || c == '\U{000B}' || c == '\U{000C}'
    || c == '\U{00A0}' || c == '\U{FEFF}' || c == '\U{1680}' || ('\U{2000}' <= c <= '\U{200A}')
    || c == '\U{2028}' || c == '\U{2029}' || c == '\U{202F}' || c == '\U{205F}' || c == '\U{3000}'
  }

  predicate AllWhitespace(s: string) {
    forall i :: 0 <= i < |s| ==> IsWhitespace(s[i])
  }

  /** `s.trimStart()`: drops the leading whitespace and nothing else. */
  function TrimStart(s: string): (r: string)
    ensures |r| <= |s| && r == s[|s| - |r|..]
    ensures r == [] || !IsWhitespace(r[0])
    ensures AllWhitespace(s[..|s| - |r|])
  {
    if s == [] || !IsWhitespace(s[0]) then s
    else
      var r := TrimStart(s[1..]);
      assert s[..|s| - |r|] == [s[0]] + s[1..][..|s| - 1 - |r|];
      r
  }

  /** `s.trimEnd()`: drops the trailing whitespace and nothing else. */
  function TrimEnd(s: string): (r: string)
    ensures |r| <= |s| && r == s[..|r|]
    ensures r == [] || !IsWhitespace(r[|r| - 1])
    ensures AllWhitespace(s[|r|..])
  {
    if s == [] || !IsWhitespace(s[|s| - 1]) then s
    else
      var r := TrimEnd(s[..|s| - 1]);
      assert s[|r|..] == s[..|s| - 1][|r|..] + [s[|s| - 1]];
      r
  }

  /** `s.trim()`: the text between the leading and the trailing whitespace. */
  function Trim(s: string): (r: string)
    ensures |r| <= |TrimStart(s)| <= |s|
    ensures r == [] || (!IsWhitespace(r[0]) && !IsWhitespace(r[|r| - 1]))
    ensures r == TrimStart(s)[..|r|] && AllWhitespace(TrimStart(s)[|r|..])
  {
    TrimEnd(TrimStart(s))
  }

  /** A string is blank after `trim()` exactly when every character is whitespace. */
  lemma TrimEmptyIffBlank(s: string)
    ensures Trim(s) == [] <==> AllWhitespace(s)
  {
    var t := TrimStart(s);
    if t == [] {
      assert s[..|s|] == s;
    } else {
      assert s[|s| - |t|] == t[0];
      assert t[0..] == t;
    }
  }

  predicate IsUpperAscii(c: char) { 'A' <= c <= 'Z' }
  predicate IsLowerAscii(c: char) { 'a' <= c <= 'z' }
  predicate IsDigit(c: char) { '0' <= c <= '9' }

  function LowerChar(c: char): char {
    if IsUpperAscii(c) then (c as int - 'A' as int + 'a' as int) as char else c
  }

  function UpperChar(c: char): char {
    if IsLowerAscii(c) then (c as int - 'a' as int + 'A' as int) as char else c
  }

  /** `s.toLowerCase()` on ASCII letters. */
  function ToLower(s: string): (r: string)
    ensures |r| == |s|
    ensures forall i :: 0 <= i < |s| ==> r[i] == LowerChar(s[i])
  {
    if s == [] then [] else [LowerChar(s[0])] + ToLower(s[1..])
  }

  /** `s.toUpperCase()` on ASCII letters. */
  function ToUpper(s: string): (r: string)
    ensures |r| == |s|
    ensures forall i :: 0 <= i < |s| ==> r[i] == UpperChar(s[i])
  {
    if s == [] then [] else [UpperChar(s[0])] + ToUpper(s[1..])
  }

  /** Upper-casing twice is upper-casing once. */
  lemma ToUpperIdempotent(s: string)
    ensures ToUpper(ToUpper(s)) == ToUpper(s)
  {
  }

  /** `s.startsWith(p)`. */
  predicate StartsWith(s: string, p: string) {
    |p| <= |s| && s[..|p|] == p
  }

  /** `s.includes(sub)`. */
  predicate Contains(s: string, sub: string) {
    exists i :: 0 <= i <= |s| - |sub| && OccursAt(s, sub, i)
  }

  predicate OccursAt(s: string, sub: string, i: int) {
    0 <= i <= |s| - |sub| && s[i..i + |sub|] == sub
  }

  /** Every string includes the empty string. */
  lemma ContainsEmpty(s: string)
    ensures Contains(s, [])
  {
    assert OccursAt(s, [], 0);
  }

  /** `s.split(sep)` for a one-character separator. */
  function Split(s: string, sep: char): (parts: seq<string>)
    ensures |parts| >= 1
    ensures forall k :: 0 <= k < |parts| ==> sep !in parts[k]
  {
    if s == [] then [[]]
    else
      var rest := Split(s[1..], sep);
      if s[0] == sep then [[]] + rest
      else [[s[0]] + rest[0]] + rest[1..]
  }

  /** `parts.join(sep)`. */
  function Join(parts: seq<string>, sep: char): string
    requires |parts| >= 1
  {
    if |parts| == 1 then parts[0] else parts[0] + [sep] + Join(parts[1..], sep)
  }

  /** Splitting and joining again on the same separator gives back the string. */
  lemma {:induction false} SplitJoin(s: string, sep: char)
    ensures Join(Split(s, sep), sep) == s
  {
    if s != [] {
      var rest := Split(s[1..], sep);
      SplitJoin(s[1..], sep);
      if s[0] == sep {
        assert Split(s, sep) == [[]] + rest;
        assert Join(Split(s, sep), sep) == [] + [sep] + Join(rest, sep);
      } else if |rest| == 1 {
        assert Split(s, sep) == [[s[0]] + rest[0]];
      } else {
        var parts := Split(s, sep);
        assert parts == [[s[0]] + rest[0]] + rest[1..];
        assert parts[1..] == rest[1..];
        assert Join(rest, sep) == rest[0] + [sep] + Join(rest[1..], sep);
      }
    }
  }

  /** The longest prefix of ASCII digits. */
  function DigitPrefix(s: string): (r: string)
    ensures |r| <= |s| && r == s[..|r|]
    ensures forall i :: 0 <= i < |r| ==> IsDigit(r[i])
    ensures |r| == |s| || !IsDigit(s[|r|])
  {
    if s == [] || !IsDigit(s[0]) then [] else [s[0]] + DigitPrefix(s[1..])
  }

  predicate AllDigits(s: string) {
    forall i :: 0 <= i < |s| ==> IsDigit(s[i])
  }

  /** The decimal value of a digit string (most significant digit first). */
  function DigitsValue(ds: string): nat
    requires AllDigits(ds)
  {
    if ds == [] then 0 else DigitsValue(ds[..|ds| - 1]) * 10 + (ds[|ds| - 1] as int - '0' as int)
  }

  /** The decimal digits of `n` (no leading zeros, "0" for zero). */
  function NatToDigits(n: nat): (ds: string)
    ensures |ds| >= 1 && AllDigits(ds)
  {
    if n < 10 then [(n + '0' as int) as char] else NatToDigits(n / 10) + [(n % 10 + '0' as int) as char]
  }

  lemma {:induction false} DigitsRoundTrip(n: nat)
    ensures DigitsValue(NatToDigits(n)) == n
  {
    if n >= 10 {
      DigitsRoundTrip(n / 10);
      var ds := NatToDigits(n);
      assert ds[..|ds| - 1] == NatToDigits(n / 10);
    }
  }

  /** `String(n)` for an integer. */
  function IntToString(n: int): string {
    if n < 0 then "-" + NatToDigits(-n) else NatToDigits(n)
  }

  /** `parseInt(s, 10)`: leading whitespace, an optional sign and the longest run
      of decimal digits; `None` stands for NaN. */
  function ParseInt(s: string): Option<int> {
    var t := TrimStart(s);
    var negative := |t| > 0 && t[0] == '-';
    var body := if |t| > 0 && (t[0] == '-' || t[0] == '+') then t[1..] else t;
    var ds := DigitPrefix(body);
    if ds == [] then None
    else
      var v: int := DigitsValue(ds);
      Some(if negative then -v else v)
  }

  /** `parseInt(String(n), 10) === n`. */
  lemma ParseIntOfString(n: int)
    ensures ParseInt(IntToString(n)) == Some(n)
  {
    var m: nat := if n < 0 then -n else n;
    DigitsRoundTrip(m);
    ParseIntOfDigits(IntToString(n), n < 0, NatToDigits(m));
  }

  /** `parseInt` of an optional minus sign followed by digits. */
  lemma ParseIntOfDigits(s: string, negative: bool, ds: string)
    requires |ds| >= 1 && AllDigits(ds)
    requires s == (if negative then "-" else "") + ds
    ensures ParseInt(s) == Some(Signed(negative, DigitsValue(ds)))
  {
    DigitPrefixOfDigits(ds);
    assert !IsWhitespace(s[0]);
    assert TrimStart(s) == s;
    if negative {
      assert s[1..] == ds;
    } else {
      assert s == ds && !(s[0] == '-' || s[0] == '+');
    }
  }

  lemma {:induction false} DigitPrefixOfDigits(ds: string)
    requires AllDigits(ds)
    ensures DigitPrefix(ds) == ds
  {
    if ds != [] { DigitPrefixOfDigits(ds[1..]); }
  }

  predicate IsHexDigit(c: char) {
    IsDigit(c) || 'a' <= c <= 'f' || 'A' <= c <= 'F'
  }

  /** The longest prefix of hexadecimal digits. */
  function HexPrefix(s: string): (r: string)
    ensures |r| <= |s| && r == s[..|r|]
    ensures forall i :: 0 <= i < |r| ==> IsHexDigit(r[i])
    ensures |r| == |s| || !IsHexDigit(s[|r|])
  {
    if s == [] || !IsHexDigit(s[0]) then [] else [s[0]] + HexPrefix(s[1..])
  }

  /** A `0x` or `0X` prefix. */
  predicate HasHexPrefix(body: string) {
    |body| >= 2 && body[0] == '0' && (body[1] == 'x' || body[1] == 'X')
  }

  /** The text after an optional leading sign. */
  function Unsigned(t: string): string {
    if |t| > 0 && (t[0] == '-' || t[0] == '+') then t[1..] else t
  }

  /** `parseInt(s)` with no radix (section 19.2.5 of ECMA-262): after the
      leading whitespace and an optional sign, a `0x` or `0X` prefix selects
      radix 16 and the longest run of hexadecimal digits after it is read;
      any other text is read as by `parseInt(s, 10)`.  `None` stands for NaN. */
  function ParseIntAuto(s: string): Option<int> {
    var t := TrimStart(s);
    var body := Unsigned(t);
    if HasHexPrefix(body) then
      var hs := HexPrefix(body[2..]);
      if hs == [] then None else Some(Signed(|t| > 0 && t[0] == '-', RadixValue(hs, 'x')))
    else ParseInt(s)
  }

  /** Without a hexadecimal prefix, the radix-less `parseInt` is
      `parseInt(s, 10)`; with one, it reads the hexadecimal digits after it,
      and the sign in front still applies. */
  lemma ParseIntAutoCases(s: string)
    ensures !HasHexPrefix(Unsigned(TrimStart(s))) ==> ParseIntAuto(s) == ParseInt(s)
    ensures HasHexPrefix(Unsigned(TrimStart(s))) ==>
      var t := TrimStart(s);
      var hs := HexPrefix(Unsigned(t)[2..]);
      && (hs == [] ==> ParseIntAuto(s).None?)
      && (hs != [] ==> ParseIntAuto(s) == Some(Signed(|t| > 0 && t[0] == '-', RadixValue(hs, 'x'))))
  {
  }

  /** `parseInt(String(n)) === n`: decimal text never carries an `x`. */
  lemma ParseIntAutoOfString(n: int)
    ensures ParseIntAuto(IntToString(n)) == Some(n)
  {
    var m: nat := if n < 0 then -n else n;
    ParseIntOfString(n);
    SignedDigitsNotHex(IntToString(n), n < 0, NatToDigits(m));
  }

  /** A signed digit run has no hexadecimal prefix, so the radix-less
      `parseInt` reads it as decimal. */
  lemma SignedDigitsNotHex(s: string, negative: bool, ds: string)
    requires |ds| >= 1 && AllDigits(ds)
    requires s == (if negative then "-" else "") + ds
    ensures ParseIntAuto(s) == ParseInt(s)
  {
    assert !IsWhitespace(s[0]);
    assert TrimStart(s) == s;
    assert Unsigned(s) == ds;
    assert |ds| >= 2 ==> IsDigit(ds[1]);
  }

  /** A sign, `0x` and a run of hexadecimal digits: the radix-less
      `parseInt` gives the run's value with the sign applied. */
  lemma HexDigitsValue(s: string, negative: bool, hs: string)
    requires |hs| >= 1 && forall i :: 0 <= i < |hs| ==> IsHexDigit(hs[i])
    requires s == (if negative then "-" else "") + "0x" + hs
    ensures ParseIntAuto(s) == Some(Signed(negative, RadixValue(hs, 'x')))
  {
    HexLiteralShape(s, negative, hs);
    HexPrefixOfHex(hs);
  }

  /** How the radix-less `parseInt` splits a signed hexadecimal literal. */
  lemma HexLiteralShape(s: string, negative: bool, hs: string)
    requires |hs| >= 1
    requires s == (if negative then "-" else "") + "0x" + hs
    ensures TrimStart(s) == s && (|s| > 0 && s[0] == '-') == negative
    ensures HasHexPrefix(Unsigned(s)) && Unsigned(s)[2..] == hs
  {
    assert !IsWhitespace(s[0]);
    assert Unsigned(s) == "0x" + hs;
    assert ("0x" + hs)[2..] == hs;
  }

  lemma {:induction false} HexPrefixOfHex(hs: string)
    requires forall i :: 0 <= i < |hs| ==> IsHexDigit(hs[i])
    ensures HexPrefix(hs) == hs
  {
    if hs != [] { HexPrefixOfHex(hs[1..]); }
  }

  /** `parseInt("0x5")` is 5. */
  lemma HexParseIntAuto()
    ensures ParseIntAuto("0x5") == Some(5)
  {
    HexValue("0x5", false, "5", 5);
  }

  /** A hexadecimal literal whose digits are known to have value `v`. */
  lemma HexValue(s: string, negative: bool, hs: string, v: int)
    requires |hs| >= 1 && forall i :: 0 <= i < |hs| ==> IsHexDigit(hs[i])
    requires s == (if negative then "-" else "") + "0x" + hs
    requires Signed(negative, RadixValue(hs, 'x')) == v
    ensures ParseIntAuto(s) == Some(v)
  {
    HexDigitsValue(s, negative, hs);
  }

  /** `parseInt("0x5", 10)` reads the `0` and stops at the `x`. */
  lemma DecimalStopsAtX(s: string)
    requires s == "0x5"
    ensures ParseInt(s) == Some(0)
  {
    assert !IsWhitespace(s[0]);
    assert TrimStart(s) == s;
    assert s[1..] == "x5";
    assert DigitPrefix(s[1..]) == [];
    assert DigitPrefix(s) == "0";
    assert "0"[..0] == [];
    assert DigitsValue("0") == 0;
  }

  /** Optional sign followed by one or more decimal digits. */
  predicate IsSignedInteger(t: string) {
    if |t| > 0 && (t[0] == '-' || t[0] == '+') then |t| > 1 && AllDigits(t[1..])
    else |t| > 0 && AllDigits(t)
  }

  function SignedIntegerValue(t: string): int
    requires IsSignedInteger(t)
  {
    if t[0] == '-' then 0 - DigitsValue(t[1..]) else if t[0] == '+' then DigitsValue(t[1..]) else DigitsValue(t)
  }

  /** The sign applied to a magnitude. */
  function Signed(negative: bool, v: int): int {
    if negative then 0 - v else v
  }

  /** 10^n. */
  function Pow10(n: nat): (r: nat)
    ensures r >= 1
  {
    if n == 0 then 1 else 10 * Pow10(n - 1)
  }

  lemma {:induction false} Pow10Add(a: nat, b: nat)
    ensures Pow10(a + b) == Pow10(a) * Pow10(b)
  {
    if b > 0 {
      Pow10Add(a, b - 1);
      calc {
        Pow10(a + b);
        10 * Pow10(a + b - 1);
        10 * (Pow10(a) * Pow10(b - 1));
        Pow10(a) * (10 * Pow10(b - 1));
      }
    }
  }

  /** Pow10Add with the two factors already known. */
  lemma Pow10Product(a: nat, b: nat, x: nat, y: nat)
    requires Pow10(a) == x && Pow10(b) == y
    ensures Pow10(a + b) == x * y
  {
    Pow10Add(a, b);
  }

  /** 10^309 is past the overflow bound. */
  lemma Pow10At309()
    ensures Pow10(309) > OverflowBound
  {
    assert Pow10(9) == 1000000000;
    assert Pow10(10) == 10000000000;
    Pow10Product(10, 10, 10000000000, 10000000000);
    Pow10Product(20, 20, 100000000000000000000, 100000000000000000000);
    Pow10Product(40, 40, 10000000000000000000000000000000000000000, 10000000000000000000000000000000000000000);
    Pow10Product(80, 80, 100000000000000000000000000000000000000000000000000000000000000000000000000000000, 100000000000000000000000000000000000000000000000000000000000000000000000000000000);
    Pow10Product(160, 80, 10000000000000000000000000000000000000000000000000000000000000000000000000000000000000000000000000000000000000000000000000000000000000000000000000000000000000000, 100000000000000000000000000000000000000000000000000000000000000000000000000000000);
    Pow10Product(240, 40, 1000000000000000000000000000000000000000000000000000000000000000000000000000000000000000000000000000000000000000000000000000000000000000000000000000000000000000000000000000000000000000000000000000000000000000000000000000000000000000000000000, 10000000000000000000000000000000000000000);
    Pow10Product(280, 20, 10000000000000000000000000000000000000000000000000000000000000000000000000000000000000000000000000000000000000000000000000000000000000000000000000000000000000000000000000000000000000000000000000000000000000000000000000000000000000000000000000000000000000000000000000000000000000000, 100000000000000000000);
    Pow10Product(300, 9, 1000000000000000000000000000000000000000000000000000000000000000000000000000000000000000000000000000000000000000000000000000000000000000000000000000000000000000000000000000000000000000000000000000000000000000000000000000000000000000000000000000000000000000000000000000000000000000000000000000000000000, 1000000000);
  }

  /** Every power of ten from 10^309 on is past the overflow bound. */
  lemma Pow10Past308(e: nat)
    requires e >= 309
    ensures Pow10(e) > OverflowBound
  {
    Pow10At309();
    Pow10Grows(309, e);
  }

  lemma {:induction false} Pow10Grows(a: nat, b: nat)
    requires a <= b
    ensures Pow10(a) <= Pow10(b)
  {
    if a < b {
      Pow10Grows(a, b - 1);
    }
  }

  /** What `Number(s)` reads from a string (StringNumericLiteral, section
      7.1.4.1 of ECMA-262): NaN, an infinity, or the exact value
      `(negative ? -1 : 1) * mantissa * 10^exponent` before rounding. */
  datatype NumberText = NaN | Infinite(negative: bool) | Finite(negative: bool, mantissa: nat, exponent: int)

  /** A StrUnsignedDecimalLiteral other than `Infinity`: digits with an optional
      fraction, or a fraction alone, then an optional exponent. */
  function UnsignedDecimal(t: string, negative: bool): (r: NumberText)
    ensures r.NaN? || r.Finite?
  {
    DecimalScan(t, [], negative)
  }

  /** `UnsignedDecimal` read left to right: `ip` holds the integer digits
      already read, `t` what follows them. */
  function DecimalScan(t: string, ip: string, negative: bool): (r: NumberText)
    requires AllDigits(ip)
    ensures r.NaN? || r.Finite?
    decreases |t|
  {
    if t != [] && IsDigit(t[0]) then DecimalScan(t[1..], ip + [t[0]], negative)
    else
      var hasDot := t != [] && t[0] == '.';
      var fp := if hasDot then DigitPrefix(t[1..]) else [];
      var rest := if hasDot then t[1 + |fp|..] else t;
      if (|ip| > 0 || |fp| > 0) && (rest == [] || ((rest[0] == 'e' || rest[0] == 'E') && IsSignedInteger(rest[1..]))) then
        assert AllDigits(ip + fp);
        var exp := if rest == [] then 0 else SignedIntegerValue(rest[1..]);
        Finite(negative, DigitsValue(ip + fp), exp - |fp|)
      else NaN
  }

  /** Scanning a run of digits moves them onto the integer part. */
  lemma {:induction false} ScanDigits(ds: string, rest: string, ip: string, negative: bool)
    requires AllDigits(ip) && AllDigits(ds) && (rest == [] || !IsDigit(rest[0]))
    ensures AllDigits(ip + ds)
    ensures DecimalScan(ds + rest, ip, negative) == DecimalScan(rest, ip + ds, negative)
  {
    if ds == [] {
      assert ds + rest == rest && ip + ds == ip;
    } else {
      assert (ds + rest)[1..] == ds[1..] + rest;
      assert ip + [ds[0]] + ds[1..] == ip + ds;
      ScanDigits(ds[1..], rest, ip + [ds[0]], negative);
    }
  }

  /** Digits of the given radix after a `0x`, `0o` or `0b` prefix. */
  predicate IsRadixDigits(t: string, radix: char) {
    |t| > 0 && forall i :: 0 <= i < |t| ==>
      if radix == 'b' then t[i] == '0' || t[i] == '1'
      else if radix == 'o' then '0' <= t[i] <= '7'
      else IsDigit(t[i]) || 'a' <= t[i] <= 'f' || 'A' <= t[i] <= 'F'
  }

  function HexDigitValue(c: char): nat {
    if IsDigit(c) then c as int - '0' as int
    else if 'a' <= c <= 'f' then c as int - 'a' as int + 10
    else if 'A' <= c <= 'F' then c as int - 'A' as int + 10
    else 0
  }

  /** The value of a binary, octal or hexadecimal digit string. */
  function RadixValue(t: string, radix: char): nat {
    if t == [] then 0
    else
      var v := RadixValue(t[..|t| - 1], radix);
      (if radix == 'b' then 2 * v else if radix == 'o' then 8 * v else 16 * v) + HexDigitValue(t[|t| - 1])
  }

  /** The StringNumericLiteral grammar over the trimmed text: blank is 0, a
      radix literal takes no sign, a decimal literal or `Infinity` may. */
  function NumberLiteral(s: string): NumberText {
    var t := Trim(s);
    if t == [] then Finite(false, 0, 0)
    else if |t| >= 2 && t[0] == '0' && LowerChar(t[1]) in {'x', 'o', 'b'} then
      if IsRadixDigits(t[2..], LowerChar(t[1])) then Finite(false, RadixValue(t[2..], LowerChar(t[1])), 0) else NaN
    else
      var negative := t[0] == '-';
      var body := if t[0] == '-' || t[0] == '+' then t[1..] else t;
      if body == "Infinity" then Infinite(negative) else UnsignedDecimal(body, negative)
  }

  /** 2^1024 - 2^970: the least magnitude that rounds to an infinity rather
      than to the largest finite double (section 6.1.6.1 of ECMA-262). */
  const OverflowBound: nat := 179769313486231580793728971405303415079934132710037826936173778980444968292764750946649017977587207096330286416692887910946555547851940402630657488671505820681908902000708383676273854845817711531764475730270069855571366959622842914819860834936475292719074168444365510704342711559699508093042880177904174497792

  /** Number.MAX_SAFE_INTEGER, 2^53 - 1. */
  const MaxSafeInteger: int := 9007199254740991

  /** `mantissa * 10^exponent` rounds to an infinity. */
  predicate Overflows(mantissa: nat, exponent: int) {
    if exponent >= 0 then Scale(mantissa, exponent) >= OverflowBound
    else mantissa >= Scale(OverflowBound, -exponent)
  }

  /** `m * 10^e`, one digit at a time. */
  function Scale(m: nat, e: nat): nat {
    if e == 0 then m else 10 * Scale(m, e - 1)
  }

  /** `m / 10^k` rounded down, one digit at a time. */
  function Shrink(m: nat, k: nat): nat {
    if k == 0 then m else Shrink(m / 10, k - 1)
  }

  /** `m % 10^k == 0`: the last `k` digits of `m` are zeros. */
  predicate EndsInZeros(m: nat, k: nat) {
    k == 0 || (m % 10 == 0 && EndsInZeros(m / 10, k - 1))
  }

  /** A mantissa below the bound with no positive exponent stays finite. */
  lemma {:induction false} NoOverflowBelowBound(m: nat, e: int)
    requires m < OverflowBound && e <= 0
    ensures !Overflows(m, e)
  {
    if e < 0 {
      ScaleGrows(OverflowBound, -e);
    }
  }

  lemma {:induction false} ScaleGrows(m: nat, e: nat)
    ensures Scale(m, e) >= m
  {
    if e > 0 {
      ScaleGrows(m, e - 1);
    }
  }

  /** Scaling a positive mantissa up by `e` digits reaches at least 10^e. */
  lemma {:induction false} ScaleAtLeast(m: nat, e: nat)
    requires m >= 1
    ensures Scale(m, e) >= Pow10(e)
  {
    if e > 0 {
      ScaleAtLeast(m, e - 1);
    }
  }

  /** `Number(s)` (StringToNumber, section 7.1.4.1.1 of ECMA-262), with the
      rounding to a double modelled only where it yields an infinity. */
  function StringToNumber(s: string): NumberText {
    match NumberLiteral(s)
    case Finite(negative, m, e) => if Overflows(m, e) then Infinite(negative) else Finite(negative, m, e)
    case other => other
  }

  /** `Number.isFinite(Number(s))`. */
  predicate IsFiniteNumber(s: string) {
    StringToNumber(s).Finite?
  }

  /** `Number(s)` when it is a finite integer; `None` for NaN, the infinities
      and values with a fractional part. */
  function StringToInt(s: string): (r: Option<int>)
    ensures r.Some? ==> IsFiniteNumber(s)
    ensures Trim(s) == [] ==> r == Some(0)
  {
    match StringToNumber(s)
    case Finite(negative, m, e) => IntegralValue(negative, m, e)
    case _ => None
  }

  /** `(negative ? -1 : 1) * m * 10^e` when it is an integer. */
  function IntegralValue(negative: bool, m: nat, e: int): Option<int> {
    if e >= 0 then Some(Signed(negative, Scale(m, e)))
    else if EndsInZeros(m, -e) then Some(Signed(negative, Shrink(m, -e)))
    else None
  }

  /** A run of digits is a decimal literal with exponent 0. */
  lemma DigitsDecimal(body: string, negative: bool)
    requires |body| > 0 && AllDigits(body)
    ensures UnsignedDecimal(body, negative) == Finite(negative, DigitsValue(body), 0)
  {
    assert body + [] == body && [] + body == body;
    ScanDigits(body, [], [], negative);
  }

  /** Text that is an optional sign and decimal digits, once trimmed, reads as
      that integer with exponent 0. */
  lemma SignedIntegerLiteral(s: string)
    requires IsSignedInteger(Trim(s))
    ensures NumberLiteral(s) == Finite(Trim(s)[0] == '-', if Trim(s)[0] == '-' || Trim(s)[0] == '+' then DigitsValue(Trim(s)[1..]) else DigitsValue(Trim(s)), 0)
  {
    var t := Trim(s);
    var body := if t[0] == '-' || t[0] == '+' then t[1..] else t;
    assert AllDigits(body) && |body| > 0;
    assert !(|t| >= 2 && t[0] == '0' && LowerChar(t[1]) in {'x', 'o', 'b'}) by {
      if |t| >= 2 && t[0] == '0' {
        assert IsDigit(t[1]);
      }
    }
    assert body != "Infinity" by {
      assert IsDigit(body[0]);
    }
    DigitsDecimal(body, t[0] == '-');
  }

  /** Trimmed text that is a signed decimal integer and not too large is that
      integer. */
  lemma SignedIntegerNumber(s: string)
    requires IsSignedInteger(Trim(s)) && IsFiniteNumber(s)
    ensures StringToInt(s) == Some(SignedIntegerValue(Trim(s)))
  {
    SignedIntegerLiteral(s);
    var lit := NumberLiteral(s);
    assert !Overflows(lit.mantissa, 0);
    FiniteLiteral(s, lit.negative, lit.mantissa, 0);
  }

  /** `String(n)` has no surrounding whitespace and is an optionally signed
      run of digits whose value is `|n|`. */
  lemma IntStringShape(n: int)
    ensures Trim(IntToString(n)) == IntToString(n)
    ensures IsSignedInteger(IntToString(n))
    ensures IntToString(n)[0] != '+' && (IntToString(n)[0] == '-' <==> n < 0)
    ensures n < 0 ==> DigitsValue(IntToString(n)[1..]) == -n
    ensures n >= 0 ==> DigitsValue(IntToString(n)) == n
  {
    IntStringDigits(n);
    IntStringTrim(IntToString(n));
  }

  lemma IntStringDigits(n: int)
    ensures |IntToString(n)| > 0 && IsDigit(IntToString(n)[|IntToString(n)| - 1])
    ensures IsDigit(IntToString(n)[0]) || IntToString(n)[0] == '-'
    ensures IsSignedInteger(IntToString(n))
    ensures IntToString(n)[0] != '+' && (IntToString(n)[0] == '-' <==> n < 0)
    ensures n < 0 ==> DigitsValue(IntToString(n)[1..]) == -n
    ensures n >= 0 ==> DigitsValue(IntToString(n)) == n
  {
    var m: nat := if n < 0 then -n else n;
    var ds := NatToDigits(m);
    DigitsRoundTrip(m);
    if n < 0 {
      assert IntToString(n)[1..] == ds;
    }
  }

  lemma IntStringTrim(s: string)
    requires |s| > 0 && (IsDigit(s[0]) || s[0] == '-') && IsDigit(s[|s| - 1])
    ensures Trim(s) == s
  {
    TrimPlain(s);
  }

  /** `String(n)` reads back as `n` for every safe integer. */
  lemma NumberOfString(n: int)
    requires -MaxSafeInteger <= n <= MaxSafeInteger
    ensures StringToNumber(IntToString(n)) == Finite(n < 0, if n < 0 then -n else n, 0)
  {
    var m: nat := if n < 0 then -n else n;
    IntStringShape(n);
    SignedIntegerLiteral(IntToString(n));
    assert NumberLiteral(IntToString(n)) == Finite(n < 0, m, 0);
    assert !Overflows(m, 0);
  }

  /** `Number(String(n)) === n` for a safe integer. */
  lemma StringToIntOfString(n: int)
    requires -MaxSafeInteger <= n <= MaxSafeInteger
    ensures StringToInt(IntToString(n)) == Some(n)
  {
    NumberOfString(n);
  }

  /** `parseInt` of text that, trimmed, is a signed decimal integer is that
      integer. */
  lemma ParseIntOfSignedInteger(s: string)
    requires IsSignedInteger(Trim(s))
    ensures ParseInt(s) == Some(SignedIntegerValue(Trim(s)))
  {
    var t := TrimStart(s);
    var u := Trim(s);
    assert t[0] == u[0];
    SignedDigitPrefix(t, u);
  }

  /** A signed integer followed only by whitespace: the digits `parseInt`
      reads after the sign are exactly the integer's digits. */
  lemma SignedDigitPrefix(t: string, u: string)
    requires IsSignedInteger(u) && |u| <= |t| && u == t[..|u|] && AllWhitespace(t[|u|..])
    ensures var k := if u[0] == '-' || u[0] == '+' then 1 else 0;
      DigitPrefix(t[k..]) == u[k..]
  {
    var k := if u[0] == '-' || u[0] == '+' then 1 else 0;
    assert AllDigits(u[k..]);
    assert t[k..] == u[k..] + t[|u|..];
    if |u| < |t| {
      assert IsWhitespace(t[|u|..][0]);
      DigitPrefixStops(u[k..], t[|u|..]);
    } else {
      assert t[k..] == u[k..];
      DigitPrefixOfDigits(u[k..]);
    }
  }

  /** Text with no whitespace at either end is its own trim. */
  lemma TrimPlain(s: string)
    requires s != [] && !IsWhitespace(s[0]) && !IsWhitespace(s[|s| - 1])
    ensures Trim(s) == s
  {
  }

  /** Unsigned text that starts with a non-zero digit is read as a decimal
      literal. */
  lemma DecimalText(s: string)
    requires s != [] && IsDigit(s[0]) && s[0] != '0' && !IsWhitespace(s[|s| - 1])
    ensures NumberLiteral(s) == UnsignedDecimal(s, false)
  {
    TrimPlain(s);
    assert s != "Infinity";
  }

  /** Digits, `e` and a signed integer: the digits times ten to that power. */
  lemma ExponentLiteral(ip: string, ex: string, negative: bool)
    requires |ip| > 0 && AllDigits(ip) && IsSignedInteger(ex)
    ensures UnsignedDecimal(ip + ['e'] + ex, negative) == Finite(negative, DigitsValue(ip), SignedIntegerValue(ex))
  {
    var rest := ['e'] + ex;
    assert ip + ['e'] + ex == ip + rest && [] + ip == ip;
    ScanDigits(ip, rest, [], negative);
    ScanExponent(rest, ex, ip, negative);
  }

  /** After the integer digits, `e` and a signed integer end the literal. */
  lemma ScanExponent(rest: string, ex: string, ip: string, negative: bool)
    requires |ip| > 0 && AllDigits(ip) && IsSignedInteger(ex) && rest == ['e'] + ex
    ensures DecimalScan(rest, ip, negative) == Finite(negative, DigitsValue(ip), SignedIntegerValue(ex))
  {
    assert rest[0] == 'e' && rest[1..] == ex;
    assert ip + [] == ip;
  }

  /** Digits, `.` and digits: all the digits, scaled down by the fraction's
      length. */
  lemma FractionLiteral(ip: string, fp: string, negative: bool)
    requires AllDigits(ip) && |fp| > 0 && AllDigits(fp)
    ensures UnsignedDecimal(ip + ['.'] + fp, negative) == Finite(negative, DigitsValue(ip + fp), 0 - |fp|)
  {
    var rest := ['.'] + fp;
    assert ip + ['.'] + fp == ip + rest && [] + ip == ip;
    ScanDigits(ip, rest, [], negative);
    ScanFraction(rest, fp, ip, negative);
  }

  /** After the integer digits, `.` and digits end the literal. */
  lemma ScanFraction(rest: string, fp: string, ip: string, negative: bool)
    requires AllDigits(ip) && |fp| > 0 && AllDigits(fp) && rest == ['.'] + fp
    ensures AllDigits(ip + fp)
    ensures DecimalScan(rest, ip, negative) == Finite(negative, DigitsValue(ip + fp), 0 - |fp|)
  {
    assert rest[0] == '.' && rest[1..] == fp;
    DigitPrefixOfDigits(fp);
    assert rest[1 + |fp|..] == [];
  }

  /** The digit prefix of digits followed by a non-digit is those digits. */
  lemma {:induction false} DigitPrefixStops(ds: string, rest: string)
    requires AllDigits(ds) && rest != [] && !IsDigit(rest[0])
    ensures DigitPrefix(ds + rest) == ds
  {
    if ds != [] {
      DigitPrefixStops(ds[1..], rest);
      assert (ds + rest)[1..] == ds[1..] + rest;
    } else {
      assert ds + rest == rest;
    }
  }

  /** Unsigned digits, `e` and digits: the first digits times ten to the
      power of the others. */
  lemma ExponentText(ip: string, ex: string)
    requires |ip| > 0 && AllDigits(ip) && ip[0] != '0' && |ex| > 0 && AllDigits(ex)
    ensures NumberLiteral(ip + ['e'] + ex) == Finite(false, DigitsValue(ip), DigitsValue(ex))
  {
    var s := ip + ['e'] + ex;
    assert s[0] == ip[0] && s[|s| - 1] == ex[|ex| - 1];
    DecimalText(s);
    ExponentLiteral(ip, ex, false);
  }

  /** Unsigned digits, `.` and digits: all the digits over ten to the power
      of the fraction's length. */
  lemma FractionText(s: string, ip: string, fp: string, m: nat)
    requires |ip| > 0 && AllDigits(ip) && ip[0] != '0' && |fp| > 0 && AllDigits(fp)
    requires s == ip + ['.'] + fp && AllDigits(ip + fp) && DigitsValue(ip + fp) == m
    ensures NumberLiteral(s) == Finite(false, m, 0 - |fp|)
  {
    assert s[0] == ip[0] && s[|s| - 1] == fp[|fp| - 1];
    DecimalText(s);
    FractionLiteral(ip, fp, false);
  }

  /** A digit run without a leading zero is at least ten to the power of
      its length less one. */
  lemma {:induction false} DigitsAtLeast(ds: string)
    requires |ds| > 0 && AllDigits(ds) && ds[0] != '0'
    ensures DigitsValue(ds) >= Pow10(|ds| - 1)
  {
    if |ds| > 1 {
      var init := ds[..|ds| - 1];
      assert init[0] == ds[0];
      DigitsAtLeast(init);
    }
  }

  /** A magnitude of at least 10^309 rounds to an infinity. */
  lemma OverflowPast308(m: nat, e: nat)
    requires m >= 1 && e >= 309
    ensures Overflows(m, e)
  {
    Pow10Past308(e);
    ScaleAtLeast(m, e);
  }

  /** Digits, `e` and an exponent of 309 or more: always an infinity. */
  lemma LargeExponentOverflows(ip: string, ex: string)
    requires |ip| > 0 && AllDigits(ip) && ip[0] != '0' && |ex| > 0 && AllDigits(ex)
    requires DigitsValue(ex) >= 309
    ensures StringToNumber(ip + ['e'] + ex) == Infinite(false)
  {
    ExponentText(ip, ex);
    assert DigitsValue(ip) >= 1 by {
      DigitsAtLeast(ip);
    }
    OverflowPast308(DigitsValue(ip), DigitsValue(ex));
  }

  /** A run of more than 309 digits without a leading zero: an infinity. */
  lemma LongDigitRunOverflows(ds: string)
    requires |ds| > 309 && AllDigits(ds) && ds[0] != '0'
    ensures StringToNumber(ds) == Infinite(false)
  {
    DecimalText(ds);
    DigitsDecimal(ds, false);
    LongDigitsValue(ds);
  }

  lemma LongDigitsValue(ds: string)
    requires |ds| > 309 && AllDigits(ds) && ds[0] != '0'
    ensures Overflows(DigitsValue(ds), 0)
  {
    DigitsAtLeast(ds);
    Pow10Past308(|ds| - 1);
  }

  /** A literal whose value does not overflow is that finite number. */
  lemma FiniteLiteral(s: string, negative: bool, m: nat, e: int)
    requires NumberLiteral(s) == Finite(negative, m, e) && !Overflows(m, e)
    ensures StringToNumber(s) == Finite(negative, m, e)
    ensures StringToInt(s) == IntegralValue(negative, m, e)
  {
  }

  /** `Number("1e3")` is 1000. */
  lemma ExponentExample()
    ensures StringToInt("1e3") == Some(1000)
  {
    assert "1e3" == "1" + ['e'] + "3";
    assert DigitsValue("1") == 1 && DigitsValue("3") == 3;
    ExponentText("1", "3");
    assert Scale(1, 3) == 1000;
    FiniteLiteral("1e3", false, 1, 3);
  }

  /** `Number("1e400")` is Infinity. */
  lemma OverflowExample()
    ensures StringToNumber("1e400") == Infinite(false)
  {
    assert "1e400" == "1" + ['e'] + "400";
    assert DigitsValue("400") == 400 by {
      assert "400"[..2] == "40" && "40"[..1] == "4";
    }
    LargeExponentOverflows("1", "400");
  }

  /** `Number("0x10")` is 16. */
  lemma HexExample()
    ensures StringToInt("0x10") == Some(16)
  {
    assert NumberLiteral("0x10") == Finite(false, 16, 0) by {
      TrimPlain("0x10");
      assert "0x10"[2..] == "10";
      assert IsRadixDigits("10", 'x');
      assert "10"[..1] == "1";
      assert RadixValue("10", 'x') == 16;
    }
    FiniteLiteral("0x10", false, 16, 0);
  }

  /** `Number("5432.0")` is 5432. */
  lemma WholeFractionExample()
    ensures StringToInt("5432.0") == Some(5432)
  {
    WholeFractionLiteral();
    FiniteLiteral("5432.0", false, 54320, -1);
  }

  lemma WholeFractionLiteral()
    ensures NumberLiteral("5432.0") == Finite(false, 54320, -1)
  {
    assert "5432" + "0" == "54320";
    Digits54320();
    FractionText("5432.0", "5432", "0", 54320);
  }

  lemma Digits54320()
    ensures DigitsValue("54320") == 54320
  {
    assert "54320"[..4] == "5432" && "5432"[..3] == "543" && "543"[..2] == "54" && "54"[..1] == "5";
  }

  /** `Number` of any whole number followed by ".5", such as "1.5", is
      not an integer: it is finite with a fractional part, or it overflows. */
  lemma HalfIsNotInteger(ip: string)
    requires |ip| > 0 && AllDigits(ip) && ip[0] != '0'
    ensures StringToInt(ip + ".5") == None
  {
    var s := ip + ".5";
    var ds := ip + "5";
    assert s == ip + ['.'] + "5";
    assert AllDigits(ds);
    var m := DigitsValue(ds);
    FractionText(s, ip, "5", m);
    LastDigitValue(ds);
    OneTenthsDigit(s, m);
  }

  /** The last digit of a digit run is its value modulo 10. */
  lemma LastDigitValue(ds: string)
    requires |ds| > 0 && AllDigits(ds)
    ensures DigitsValue(ds) % 10 == ds[|ds| - 1] as int - '0' as int
  {
    var v := DigitsValue(ds[..|ds| - 1]);
    assert DigitsValue(ds) == v * 10 + (ds[|ds| - 1] as int - '0' as int);
  }

  /** A literal with one fractional digit other than zero is no integer,
      whether it stays finite or overflows. */
  lemma OneTenthsDigit(s: string, m: nat)
    requires NumberLiteral(s) == Finite(false, m, -1) && m % 10 != 0
    ensures StringToInt(s) == None
  {
    if !Overflows(m, -1) {
      FiniteLiteral(s, false, m, -1);
    }
  }

  /** `Number("-Infinity")` keeps its sign. */
  lemma InfinityExample()
    ensures StringToNumber("-Infinity") == Infinite(true)
  {
    TrimPlain("-Infinity");
    assert "-Infinity"[1..] == "Infinity";
  }

  /** Letters are NaN. */
  lemma LettersExample()
    ensures StringToNumber("abc") == NaN
  {
    TrimPlain("abc");
    assert DigitPrefix("abc") == [];
  }

  /** A radix prefix without digits is NaN. */
  lemma EmptyRadixExample()
    ensures StringToNumber("0x") == NaN
  {
    TrimPlain("0x");
  }
}
