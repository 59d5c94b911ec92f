/** Number formatting of the C++ streams the agent writes to, and its inverse. */
module Text {
  import opened Words

  type radix = r: int | r == 10 || r == 16 witness 10

  function DigitChar(d: nat, upper: bool): char
    requires d < 16
  {
    if d < 10 then '0' + d as char
    else if upper then 'A' + (d - 10) as char
    else 'a' + (d - 10) as char
  }

  function DigitValue(c: char): nat {
    if '0' <= c <= '9' then c as int - '0' as int
    else if 'a' <= c <= 'f' then c as int - 'a' as int + 10
    else if 'A' <= c <= 'F' then c as int - 'A' as int + 10
    else 0
  }

  predicate IsDigit(c: char) { '0' <= c <= '9' }

  predicate IsHexDigit(c: char) { '0' <= c <= '9' || 'a' <= c <= 'f' || 'A' <= c <= 'F' }

  /** n written in a radix, most significant digit first, without leading zeros. */
  function Digits(n: nat, r: radix, upper: bool): (s: string)
    ensures s != []
    decreases n
  {
    if n < r then [DigitChar(n, upper)] else Digits(n / r, r, upper) + [DigitChar(n % r, upper)]
  }

  function Dec(n: nat): string { Digits(n, 10, false) }

  function Hex(n: nat): string { Digits(n, 16, false) }

  function HexUpper(n: nat): string { Digits(n, 16, true) }

  /** A signed decimal. */
  function Signed(n: int): string {
    if n < 0 then "-" + Dec(-n) else Dec(n)
  }

  function FromDigits(s: string, r: radix): nat {
    if s == [] then 0 else FromDigits(s[..|s| - 1], r) * r + DigitValue(s[|s| - 1])
  }

  function FromSigned(s: string): int {
    if s != [] && s[0] == '-' then 0 - FromDigits(s[1..], 10) else FromDigits(s, 10)
  }

  lemma DigitRoundTrip(d: nat, upper: bool)
    requires d < 16
    ensures DigitValue(DigitChar(d, upper)) == d && IsHexDigit(DigitChar(d, upper))
    ensures d < 10 ==> IsDigit(DigitChar(d, upper))
  {
  }

  /** Reading back what was written, for every number, radix and case. */
  lemma {:induction false} DigitsRoundTrip(n: nat, r: radix, upper: bool)
    ensures FromDigits(Digits(n, r, upper), r) == n
    decreases n
  {
    if n < r {
      assert [DigitChar(n, upper)][..0] == [];
      DigitRoundTrip(n, upper);
    } else {
      DigitsRoundTrip(n / r, r, upper);
      DigitRoundTrip(n % r, upper);
      AppendDigit(Digits(n / r, r, upper), DigitChar(n % r, upper), r);
      if r == 10 {
        assert n / 10 * 10 + n % 10 == n;
      } else {
        assert n / 16 * 16 + n % 16 == n;
      }
    }
  }

  lemma AppendDigit(s: string, c: char, r: radix)
    ensures FromDigits(s + [c], r) == FromDigits(s, r) * r + DigitValue(c)
  {
    assert (s + [c])[..|s|] == s;
  }

  predicate AllDigits(s: string) {
    forall i :: 0 <= i < |s| ==> IsDigit(s[i])
  }

  /** Decimals are digits throughout and have no leading zero unless they are zero. */
  lemma {:induction false} DecDigits(n: nat)
    ensures AllDigits(Dec(n)) && (n > 0 ==> Dec(n)[0] != '0') && (n == 0 ==> Dec(n) == "0")
    decreases n
  {
    if n < 10 {
      DigitRoundTrip(n, false);
    } else {
      DecDigits(n / 10);
      DigitRoundTrip(n % 10, false);
    }
  }

  lemma {:induction false} HexDigits(n: nat, upper: bool)
    ensures forall i :: 0 <= i < |Digits(n, 16, upper)| ==> IsHexDigit(Digits(n, 16, upper)[i])
    decreases n
  {
    if n < 16 {
      DigitRoundTrip(n, upper);
    } else {
      HexDigits(n / 16, upper);
      DigitRoundTrip(n % 16, upper);
    }
  }

  /** Hexadecimal digits whose letters are all upper case, or all lower case. */
  predicate InCase(s: string, upper: bool) {
    forall i :: 0 <= i < |s| ==> IsDigit(s[i]) || (if upper then 'A' <= s[i] <= 'F' else 'a' <= s[i] <= 'f')
  }

  /** Letters are all of the case asked for, and there is no leading zero unless the number is zero. */
  lemma {:induction false} DigitCase(n: nat, upper: bool)
    ensures var s := Digits(n, 16, upper);
      InCase(s, upper) && (s[0] == '0' <==> n == 0) && (n == 0 ==> s == "0")
    decreases n
  {
    if n >= 16 {
      DigitCase(n / 16, upper);
    }
  }

  lemma SignedRoundTrip(n: int)
    ensures FromSigned(Signed(n)) == n
  {
    if n < 0 {
      assert Signed(n)[1..] == Dec(-n);
      DigitsRoundTrip(-n, 10, false);
    } else {
      DecDigits(n);
      assert IsDigit(Dec(n)[0]);
      DigitsRoundTrip(n, 10, false);
    }
  }

  /** Two lower-case hexadecimal digits per byte. */
  function HexBytes(b: seq<byte>): string {
    if b == [] then "" else [DigitChar(b[0] / 16, false), DigitChar(b[0] % 16, false)] + HexBytes(b[1..])
  }

  function FromHexBytes(s: string): seq<byte> {
    if |s| < 2 then [] else [(DigitValue(s[0]) * 16 + DigitValue(s[1])) % 0x100] + FromHexBytes(s[2..])
  }

  lemma {:induction false} HexBytesRoundTrip(b: seq<byte>)
    ensures FromHexBytes(HexBytes(b)) == b
  {
    if b != [] {
      DigitRoundTrip(b[0] / 16, false);
      DigitRoundTrip(b[0] % 16, false);
      HexBytesRoundTrip(b[1..]);
      assert HexBytes(b)[2..] == HexBytes(b[1..]);
    }
  }

  lemma {:induction false} HexBytesCase(b: seq<byte>)
    ensures InCase(HexBytes(b), false) && |HexBytes(b)| == 2 * |b|
  {
    if b != [] {
      HexBytesCase(b[1..]);
    }
  }

  // ---------------------------------------------------------------------------------------------
  // Characters that stand for themselves in a JSON string.

  predicate Plain(c: char) {
    ' ' <= c && c != '"' && c != '\\'
  }

  predicate AllPlain(s: string) {
    forall i :: 0 <= i < |s| ==> Plain(s[i])
  }

  lemma PlainDigits(n: nat, upper: bool)
    ensures AllPlain(Digits(n, 16, upper)) && AllPlain(Dec(n))
  {
    HexDigits(n, upper);
    DecDigits(n);
  }

  lemma {:induction false} PlainHexBytes(b: seq<byte>)
    ensures AllPlain(HexBytes(b))
  {
    if b != [] {
      DigitRoundTrip(b[0] / 16, false);
      DigitRoundTrip(b[0] % 16, false);
      PlainHexBytes(b[1..]);
    }
  }
}
