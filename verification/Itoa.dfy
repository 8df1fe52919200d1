/** itoa of native/hal/include/zimodem_hal/arduino/Arduino.h: 32-bit `int`, bases 2 to 36. */
module Itoa {
  import opened Prelude


  const TWO_32 := 0x1_0000_0000
  const NUL: char := '\0'

  /** A digit's character: '0'..'9', then 'a'..'z'. */
  function DigitChar(d: int): char
    requires 0 <= d < 36
  {
    if d < 10 then '0' + d as char else 'a' + (d - 10) as char
  }

  /** The character read back as a digit, or -1. */
  function DigitValue(c: char): int {
    if '0' <= c <= '9' then c as int - '0' as int
    else if 'a' <= c <= 'z' then 10 + (c as int - 'a' as int)
    else -1
  }

  lemma DigitRoundTrip(d: int)
    requires 0 <= d < 36
    ensures DigitChar(d) == "0123456789abcdefghijklmnopqrstuvwxyz"[d] && DigitValue(DigitChar(d)) == d
    ensures DigitChar(d) == '0' <==> d == 0
    ensures DigitChar(d) != '-' && DigitChar(d) != NUL
  {
  }

  /** The digits of `u`, most significant first; "0" for zero. */
  function Digits(u: nat, base: int): (s: string)
    requires 2 <= base <= 36
    ensures |s| > 0
    decreases u
  {
    if u < base then [DigitChar(u)] else Digits(u / base, base) + [DigitChar(u % base)]
  }

  /** The magnitude printed: the absolute value in base 10, else the value modulo 2^32. */
  function Magnitude(value: int, base: int): nat
    requires -0x8000_0000 <= value < 0x8000_0000
  {
    if base == 10 && value < 0 then -value else value % TWO_32
  }

  function Text(value: int, base: int): string
    requires -0x8000_0000 <= value < 0x8000_0000 && 2 <= base <= 36
  {
    (if base == 10 && value < 0 then "-" else "") + Digits(Magnitude(value, base), base)
  }

  // ------------------------------------------------------------------ reading back

  /** A digit string read in `base`. */
  function Parsed(s: string, base: int): int {
    if s == "" then 0 else Parsed(s[..|s| - 1], base) * base + DigitValue(s[|s| - 1])
  }

  /** A signed digit string read in `base`. */
  function ParsedSigned(s: string, base: int): int {
    if s != "" && s[0] == '-' then -Parsed(s[1..], base) else Parsed(s, base)
  }

  lemma DivMod(u: nat, base: int)
    requires base >= 2
    ensures u / base * base + u % base == u && 0 <= u % base < base
    ensures if u < base then u / base == 0 && u % base == u else 1 <= u / base < u
  {
    var q := u / base;
    assert q * base + u % base == u;
    if q > 0 { assert q * 2 <= q * base; }
  }

  lemma ParsedSnoc(s: string, c: char, base: int)
    ensures Parsed(s + [c], base) == Parsed(s, base) * base + DigitValue(c)
  {
    assert (s + [c])[..|s|] == s;
  }

  lemma {:induction false} DigitsRoundTrip(u: nat, base: int)
    requires 2 <= base <= 36
    ensures Parsed(Digits(u, base), base) == u
    ensures Digits(u, base)[0] == '0' <==> u == 0
    ensures u == 0 ==> Digits(u, base) == "0"
    ensures forall c | c in Digits(u, base) :: c != '-' && c != '\0'
    decreases u
  {
    DivMod(u, base);
    var q, r := u / base, u % base;
    if u < base {
      DigitRoundTrip(u);
      assert Digits(u, base)[..0] == "";
    } else {
      DigitsRoundTrip(q, base);
      DigitRoundTrip(r);
      var s, c := Digits(q, base), DigitChar(r);
      assert Digits(u, base) == s + [c];
      ParsedSnoc(s, c, base);
      assert (s + [c])[0] == s[0];
    }
  }

  const ALPHABET := "0123456789abcdefghijklmnopqrstuvwxyz"

  /** Every character is one of the first `base` of the ten digits and the lower-case letters. */
  lemma {:induction false} DigitsAlphabet(u: nat, base: int, k: nat)
    requires 2 <= base <= 36 && k < |Digits(u, base)|
    ensures exists d :: 0 <= d < base && Digits(u, base)[k] == ALPHABET[d]
    decreases u
  {
    DivMod(u, base);
    DigitRoundTrip(u % base);
    assert DigitChar(u % base) == ALPHABET[u % base];
    if u >= base && k < |Digits(u / base, base)| { DigitsAlphabet(u / base, base, k); }
  }

  /** Reading the text back gives the value in base 10, INT_MIN included, and the value modulo 2^32
      in every other base; there is no leading zero but in "0" itself. */
  lemma RoundTrip(value: int, base: int)
    requires -0x8000_0000 <= value < 0x8000_0000 && 2 <= base <= 36
    ensures base == 10 ==> ParsedSigned(Text(value, base), base) == value
    ensures base != 10 ==> ParsedSigned(Text(value, base), base) == value % TWO_32
    ensures '0' == Text(value, base)[if base == 10 && value < 0 then 1 else 0] <==> value == 0
    ensures value == 0 ==> Text(value, base) == "0"
    ensures forall c | c in Text(value, base) :: c != NUL
  {
    var u := Magnitude(value, base);
    DigitsRoundTrip(u, base);
    var d := Digits(u, base);
    if base == 10 && value < 0 {
      MinusSign(d);
    } else {
      NoSign(d);
      assert d[0] in d;
    }
  }

  lemma MinusSign(d: string)
    ensures ("-" + d)[0] == '-' && ("-" + d)[1..] == d
    ensures forall c | c in "-" + d :: c == '-' || c in d
    ensures d != "" ==> ("-" + d)[1] == d[0]
  {
  }

  lemma NoSign(d: string)
    ensures "" + d == d
  {
  }

  // ------------------------------------------------------------------ the buffer bound

  function Pow2(n: nat): nat { if n == 0 then 1 else 2 * Pow2(n - 1) }

  lemma {:induction false} DigitsBound(u: nat, base: int, n: nat)
    requires 2 <= base <= 36 && u < Pow2(n) && n > 0
    ensures |Digits(u, base)| <= n
    decreases u
  {
    if u >= base {
      assert u / base <= u / 2 by { Halves(u, base); }
      assert n > 1;
      DigitsBound(u / base, base, n - 1);
    }
  }

  lemma Halves(u: nat, base: int)
    requires base >= 2
    ensures u / base <= u / 2
  {
    var q := u / base;
    assert q * base <= u;
    assert q * 2 <= q * base;
  }

  lemma Pow2Of32()
    ensures Pow2(32) == TWO_32
  {
    assert Pow2(8) == 0x100;
    assert Pow2(16) == 0x1_0000;
    assert Pow2(24) == 0x100_0000;
  }

  /** No value in any base overruns the 32-byte digit buffer. */
  lemma FitsBuffer(value: int, base: int)
    requires -0x8000_0000 <= value < 0x8000_0000 && 2 <= base <= 36
    ensures |Digits(Magnitude(value, base), base)| <= 32
  {
    Pow2Of32();
    DigitsBound(Magnitude(value, base), base, 32);
  }

  // ------------------------------------------------------------------ the routine

  /** What one turn of the do-while loop peels off. */
  lemma DigitsStep(u: nat, base: int)
    requires 2 <= base <= 36
    ensures Digits(u, base) == (if u / base == 0 then "" else Digits(u / base, base)) + [DigitChar(u % base)]
  {
    DivMod(u, base);
  }

  /** One turn: the digit peeled off goes behind those already there. */
  lemma Peel(u: nat, base: int, before: string)
    requires 2 <= base <= 36
    ensures |before| < |Digits(u, base) + Backwards(before)|
    ensures Digits(u, base) + Backwards(before)
         == (if u / base == 0 then "" else Digits(u / base, base)) + Backwards(before + [DigitChar(u % base)])
  {
    DivMod(u, base);
    DigitsStep(u, base);
    BackwardsLength(before);
    BackwardsSnoc(before, DigitChar(u % base));
    Assoc(if u / base == 0 then "" else Digits(u / base, base), [DigitChar(u % base)], Backwards(before));
  }

  /** The do-while loop: the digits of `u` in `digits`, least significant first. */
  method FillDigits(u: nat, base: int, digits: array<char>) returns (count: nat)
    requires 2 <= base <= 36 && |Digits(u, base)| <= digits.Length
    modifies digits
    ensures count == |Digits(u, base)|
    ensures Backwards(digits[..count]) == Digits(u, base)
  {
    var uvalue: nat := u;
    count := 0;
    var first := true;
    while first || uvalue != 0
      invariant 0 <= count <= |Digits(u, base)|
      invariant first ==> count == 0 && uvalue == u
      invariant Digits(u, base) ==
                (if first || uvalue != 0 then Digits(uvalue, base) else "") + Backwards(digits[..count])
      decreases first, uvalue
    {
      DivMod(uvalue, base);
      ghost var before, c := digits[..count], DigitChar(uvalue % base);
      Peel(uvalue, base, before);
      digits[count] := DigitChar(uvalue % base);
      count := count + 1;
      assert digits[..count] == before + [c];
      uvalue := uvalue / base;
      first := false;
    }
    BackwardsLength(digits[..count]);
  }

  /** Writes the text and a terminating NUL to the front of `str`, and nothing beyond it. The caller
      supplies room for them, as for the C routine. */
  method Itoa(value: int, str: array<char>, base: int)
    requires -0x8000_0000 <= value < 0x8000_0000 && 2 <= base <= 36
    requires |Text(value, base)| < str.Length
    modifies str
    ensures str[..|Text(value, base)|] == Text(value, base) && str[|Text(value, base)|] == NUL
    ensures forall i | |Text(value, base)| < i < str.Length :: str[i] == old(str[i])
  {
    var negative := base == 10 && value < 0;
    // The magnitude without overflowing for INT_MIN; otherwise the value modulo 2^32.
    var uvalue: nat := if negative then (-(value + 1)) % TWO_32 + 1 else value % TWO_32;
    assert uvalue == Magnitude(value, base);
    FitsBuffer(value, base);

    var digits := new char[32];
    var count := FillDigits(uvalue, base, digits);

    var out := 0;
    if negative {
      str[0] := '-';
      out := 1;
    }
    ghost var sign := if negative then "-" else "";
    assert str[..out] == sign;
    WriteBackwards(digits, count, str, out, sign);
  }

  /** The second loop: the digits after the sign, most significant first, then the terminator. */
  method WriteBackwards(digits: array<char>, n: nat, str: array<char>, start: nat, ghost sign: string)
    requires digits != str && n <= digits.Length
    requires start + n < str.Length && str[..start] == sign
    modifies str
    ensures str[..start + n] == sign + Backwards(digits[..n]) && str[start + n] == NUL
    ensures forall i | start + n < i < str.Length :: str[i] == old(str[i])
  {
    ghost var text := sign + Backwards(digits[..n]);
    var count, out := n, start;
    while count > 0
      invariant 0 <= count <= n && out + count == start + n
      invariant str[..out] + Backwards(digits[..count]) == text
      invariant forall i | start + n < i < str.Length :: str[i] == old(str[i])
    {
      count := count - 1;
      ghost var done, last := str[..out], digits[count];
      assert digits[..count + 1] == digits[..count] + [last];
      BackwardsSnoc(digits[..count], last);
      str[out] := digits[count];
      out := out + 1;
      assert str[..out] == done + [last];
    }
    str[out] := NUL;
    assert str[..out] == text;
  }

  function Backwards(s: string): string {
    if s == "" then "" else Backwards(s[1..]) + [s[0]]
  }

  lemma {:induction false} BackwardsSnoc(s: string, c: char)
    ensures Backwards(s + [c]) == [c] + Backwards(s)
  {
    if s != "" {
      assert (s + [c])[1..] == s[1..] + [c];
      BackwardsSnoc(s[1..], c);
    } else {
      assert ("" + [c])[1..] == "";
    }
  }

  lemma {:induction false} BackwardsLength(s: string)
    ensures |Backwards(s)| == |s|
  {
    if s != "" { BackwardsLength(s[1..]); }
  }
}
