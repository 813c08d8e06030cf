/**
 * String and number helpers with the JavaScript semantics the core relies on:
 * `startsWith`, ASCII lower-casing, `includes`, `slice`, `padStart`, digit
 * values, `Number.prototype.toString(16)` on integers and `BigInt(string)`.
 */
module Text {
  import opened Wrappers

  /** JavaScript's StrWhiteSpaceChar: the WhiteSpace and LineTerminator code points. */
  predicate IsJsWhiteSpace(c: char) {
    c == '\t' || c == '\n' || c == '\U{B}' || c == '\U{C}' || c == '\r' || c == ' '
    || c == '\U{A0}' || c == '\U{1680}' || ('\U{2000}' <= c <= '\U{200A}')
    || c == '\U{2028}' || c == '\U{2029}' || c == '\U{202F}' || c == '\U{205F}'
    || c == '\U{3000}' || c == '\U{FEFF}'
  }

  /** Drops leading white space. */
  function TrimStart(s: string): (r: string)
    ensures |r| <= |s| && r == s[|s| - |r|..]
    ensures r == [] || !IsJsWhiteSpace(r[0])
    ensures forall i :: 0 <= i < |s| - |r| ==> IsJsWhiteSpace(s[i])
  {
    if s != [] && IsJsWhiteSpace(s[0]) then TrimStart(s[1..]) else s
  }

  /** Drops trailing white space. */
  function TrimEnd(s: string): (r: string)
    ensures |r| <= |s| && r == s[..|r|]
    ensures r == [] || !IsJsWhiteSpace(r[|r| - 1])
    ensures forall i :: |r| <= i < |s| ==> IsJsWhiteSpace(s[i])
  {
    if s != [] && IsJsWhiteSpace(s[|s| - 1]) then TrimEnd(s[..|s| - 1]) else s
  }

  /** `a || b` on strings, where an absent string is "": a unless it is empty. */
  function Or(a: string, b: string): string {
    if a != "" then a else b
  }

  /** `s.startsWith(p)`. */
  predicate StartsWith(s: string, p: string) {
    |p| <= |s| && s[..|p|] == p
  }

  lemma StartsWithConcat(p: string, q: string)
    ensures StartsWith(p + q, p)
  {
    assert (p + q)[..|p|] == p;
  }

  /** `s.includes(sub)`. */
  predicate Contains(s: string, sub: string)
    decreases |s|
  {
    StartsWith(s, sub) || (s != [] && Contains(s[1..], sub))
  }

  /** A string shorter than sub does not contain it. */
  lemma {:induction false} ShortNotContained(s: string, sub: string)
    requires |s| < |sub|
    ensures !Contains(s, sub)
    decreases |s|
  {
    if s != [] {
      ShortNotContained(s[1..], sub);
    }
  }

  /** Lower-cases the ASCII letters A-Z and leaves every other character alone. */
  function LowerChar(c: char): (r: char)
    ensures 'A' <= c <= 'Z' ==> r as int == c as int + 32
    ensures !('A' <= c <= 'Z') ==> r == c
  {
    if 'A' <= c <= 'Z' then (c as int + 32) as char else c
  }

  /** `s.toLowerCase()` restricted to ASCII letters. */
  function ToLower(s: string): (r: string)
    ensures |r| == |s| && forall i :: 0 <= i < |s| ==> r[i] == LowerChar(s[i])
  {
    if s == [] then [] else [LowerChar(s[0])] + ToLower(s[1..])
  }

  /** `s.slice(n)` for n >= 0: the empty string when s is shorter than n. */
  function Drop(s: string, n: nat): (r: string)
    ensures |s| <= n ==> r == []
    ensures n < |s| ==> r == s[n..]
  {
    if |s| <= n then [] else s[n..]
  }

  /** n copies of c. */
  function Repeat(c: char, n: nat): (r: string)
    ensures |r| == n && forall i :: 0 <= i < n ==> r[i] == c
  {
    if n == 0 then [] else [c] + Repeat(c, n - 1)
  }

  /** `s.padStart(width, fill)`: pads on the left and never truncates. */
  function PadStart(s: string, width: nat, fill: char): (r: string)
    ensures |r| == if |s| < width then width else |s|
    ensures r[|r| - |s|..] == s
    ensures forall i :: 0 <= i < |r| - |s| ==> r[i] == fill
  {
    if |s| < width then Repeat(fill, width - |s|) + s else s
  }

  /** The value of a character as a digit in bases up to 36 (case-insensitive); 36 when it is none. */
  function DigitOf(c: char): (d: nat)
    ensures d <= 36
  {
    if '0' <= c <= '9' then c as int - '0' as int
    else if 'a' <= c <= 'z' then c as int - 'a' as int + 10
    else if 'A' <= c <= 'Z' then c as int - 'A' as int + 10
    else 36
  }

  predicate IsDigit(c: char, radix: nat) {
    DigitOf(c) < radix
  }

  predicate AllDigits(s: string, radix: nat) {
    forall i :: 0 <= i < |s| ==> IsDigit(s[i], radix)
  }

  /** The number that a string of digits in the given radix denotes, most significant digit first. */
  function ValueOf(s: string, radix: nat): nat {
    if s == [] then 0 else ValueOf(s[..|s| - 1], radix) * radix + DigitOf(s[|s| - 1])
  }

  /** The longest prefix of s that consists of digits of the radix. */
  function DigitPrefix(s: string, radix: nat): (r: string)
    ensures |r| <= |s| && r == s[..|r|] && AllDigits(r, radix)
    ensures |r| < |s| ==> !IsDigit(s[|r|], radix)
  {
    if s != [] && IsDigit(s[0], radix) then [s[0]] + DigitPrefix(s[1..], radix) else []
  }

  /** A string of digits denotes zero exactly when each digit is '0'. */
  lemma {:induction false} ValueZero(s: string, radix: nat)
    requires 2 <= radix && AllDigits(s, radix)
    ensures ValueOf(s, radix) == 0 <==> forall i :: 0 <= i < |s| ==> s[i] == '0'
  {
    if s != [] {
      var init, last := s[..|s| - 1], s[|s| - 1];
      ValueZero(init, radix);
      assert forall i :: 0 <= i < |init| ==> init[i] == s[i];
      PlaceValueZero(ValueOf(init, radix), radix, DigitOf(last));
      assert DigitOf(last) == 0 <==> last == '0';
    }
  }

  /** One more digit place: the value is zero exactly when the higher places and the digit are. */
  lemma PlaceValueZero(v: nat, radix: nat, d: nat)
    requires radix >= 2
    ensures v * radix + d == 0 <==> v == 0 && d == 0
  {
    if v > 0 {
      assert v * radix >= radix;
    }
  }

  /** Lower-case hexadecimal digit for 0..15. */
  function HexChar(d: nat): (c: char)
    requires d < 16
    ensures DigitOf(c) == d && ('0' <= c <= '9' || 'a' <= c <= 'f')
  {
    if d < 10 then ('0' as int + d) as char else ('a' as int + d - 10) as char
  }

  /** `n.toString(16)` for a natural n: lower-case, without leading zeros. */
  function ToHex(n: nat): (r: string)
    ensures r != [] && AllDigits(r, 16)
    ensures |r| > 1 ==> r[0] != '0'
    decreases n
  {
    if n < 16 then [HexChar(n)] else ToHex(n / 16) + [HexChar(n % 16)]
  }

  /** Reading back what ToHex wrote gives the number. */
  lemma {:induction false} ToHexRoundTrip(n: nat)
    ensures ValueOf(ToHex(n), 16) == n
    decreases n
  {
    if n >= 16 {
      ToHexRoundTrip(n / 16);
      var r := ToHex(n);
      assert r[..|r| - 1] == ToHex(n / 16);
    }
  }

  function Pow16(k: nat): (p: nat)
    ensures p >= 1
  {
    if k == 0 then 1 else 16 * Pow16(k - 1)
  }

  /** n has at most k hexadecimal digits exactly when it is below 16^k. */
  lemma {:induction false} ToHexFits(n: nat, k: nat)
    requires k >= 1
    ensures |ToHex(n)| <= k <==> n < Pow16(k)
    decreases n
  {
    if n >= 16 {
      if k == 1 {
        assert |ToHex(n)| >= 2;
      } else {
        ToHexFits(n / 16, k - 1);
        assert n / 16 < Pow16(k - 1) <==> n < 16 * Pow16(k - 1);
      }
    } else {
      assert Pow16(k) >= 16 by { assert Pow16(k) == 16 * Pow16(k - 1); }
    }
  }

  /** Digits of a radix, non-empty, as a BigInt literal body. */
  function RadixLiteral(d: string, radix: nat): (r: Option<int>)
    ensures r.Some? <==> d != [] && AllDigits(d, radix)
    ensures r.Some? ==> r.value == ValueOf(d, radix)
  {
    if d != [] && AllDigits(d, radix) then Some(ValueOf(d, radix)) else None
  }

  /**
   * `BigInt(s)` for a string s: surrounding white space is ignored, the empty
   * string is 0, "0x"/"0o"/"0b" (either case) select a radix, otherwise an
   * optionally signed decimal. None stands for the SyntaxError it throws.
   */
  function ParseBigInt(s: string): (r: Option<int>)
  {
    ParseTrimmed(TrimEnd(TrimStart(s)))
  }

  /** `BigInt` of a string that has no surrounding white space. */
  function ParseTrimmed(t: string): (r: Option<int>)
  {
    if t == [] then Some(0)
    else if |t| >= 2 && t[0] == '0' && (t[1] == 'x' || t[1] == 'X') then RadixLiteral(t[2..], 16)
    else if |t| >= 2 && t[0] == '0' && (t[1] == 'o' || t[1] == 'O') then RadixLiteral(t[2..], 8)
    else if |t| >= 2 && t[0] == '0' && (t[1] == 'b' || t[1] == 'B') then RadixLiteral(t[2..], 2)
    else if t[0] == '-' then
      (match RadixLiteral(t[1..], 10) case Some(v) => Some(-v) case None => None)
    else if t[0] == '+' then RadixLiteral(t[1..], 10)
    else RadixLiteral(t, 10)
  }

  /** A plain decimal numeral is read as its value. */
  lemma DecimalParses(d: string)
    requires d != [] && AllDigits(d, 10)
    ensures ParseBigInt(d) == Some(ValueOf(d, 10))
  {
    assert !IsJsWhiteSpace(d[0]) by { assert IsDigit(d[0], 10); }
    assert TrimStart(d) == d;
    assert !IsJsWhiteSpace(d[|d| - 1]) by { assert IsDigit(d[|d| - 1], 10); }
    assert TrimEnd(d) == d;
    DecimalTrimmed(d);
  }

  /** A "0x" literal with hex digits after it is read as the digits' base-16 value. */
  lemma HexLiteralParses(h: string)
    requires h != [] && AllDigits(h, 16)
    ensures ParseBigInt("0x" + h) == Some(ValueOf(h, 16))
  {
    var s := "0x" + h;
    assert !IsJsWhiteSpace(s[0]);
    assert TrimStart(s) == s;
    assert s[|s| - 1] == h[|h| - 1];
    assert !IsJsWhiteSpace(s[|s| - 1]) by { assert IsDigit(h[|h| - 1], 16); }
    assert TrimEnd(s) == s;
    assert s[2..] == h;
  }

  lemma DecimalTrimmed(d: string)
    requires d != [] && AllDigits(d, 10)
    ensures ParseTrimmed(d) == Some(ValueOf(d, 10))
  {
    assert DigitOf(d[0]) < 10;
    if |d| >= 2 {
      assert DigitOf(d[1]) < 10;
      assert d[1] != 'x' && d[1] != 'X' && d[1] != 'o' && d[1] != 'O' && d[1] != 'b' && d[1] != 'B';
    }
    assert d[0] != '-' && d[0] != '+';
  }

  /** `BigInt(n).toString(16)` for any integer n: a minus sign, then the digits of |n|. */
  function IntToHex(n: int): (r: string)
    ensures n >= 0 ==> r == ToHex(n)
    ensures n < 0 ==> r == "-" + ToHex(-n)
  {
    if n >= 0 then ToHex(n) else "-" + ToHex(-n)
  }

  /**
   * The hexadecimal digits `Number.parseInt(s, 16)` reads: after leading
   * white space, one optional sign and one optional "0x"/"0X", the longest
   * run of hexadecimal digits.
   */
  function HexDigitsOf(s: string): (d: string)
    ensures AllDigits(d, 16)
  {
    var t := TrimStart(s);
    var u := if t != [] && (t[0] == '-' || t[0] == '+') then t[1..] else t;
    var v := if |u| >= 2 && u[0] == '0' && (u[1] == 'x' || u[1] == 'X') then u[2..] else u;
    DigitPrefix(v, 16)
  }

  /** `Number.parseInt(s, 16)`; None stands for NaN, the result when there is no digit to read. */
  function ParseIntHex(s: string): (r: Option<int>)
    ensures r.None? <==> HexDigitsOf(s) == []
  {
    var t := TrimStart(s);
    var d := HexDigitsOf(s);
    if d == [] then None
    else if t != [] && t[0] == '-' then Some(0 - ValueOf(d, 16))
    else Some(ValueOf(d, 16))
  }

  /** A single hexadecimal digit is read as its own value. */
  lemma SingleHexDigit(c: char)
    requires IsDigit(c, 16)
    ensures HexDigitsOf([c]) == [c]
    ensures ParseIntHex([c]) == Some(DigitOf(c))
  {
    assert !IsJsWhiteSpace(c);
    assert TrimStart([c]) == [c];
    assert DigitPrefix([c], 16) == [c] by {
      assert [c][1..] == [];
    }
    assert ValueOf([c], 16) == DigitOf(c) by {
      assert [c][..0] == [];
    }
  }

  /** parseInt in base 16 gives 0 exactly when it reads at least one digit and every digit it reads is '0'. */
  lemma ParseIntHexZero(s: string)
    ensures ParseIntHex(s) == Some(0) <==>
      HexDigitsOf(s) != [] && forall i :: 0 <= i < |HexDigitsOf(s)| ==> HexDigitsOf(s)[i] == '0'
  {
    ValueZero(HexDigitsOf(s), 16);
  }
}
