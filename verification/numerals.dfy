/**
 The textual encodings the indexer stores: decimal numerals for token amounts
 and lower-case hexadecimal for hashes and addresses.
 */
module Numerals {

  type Byte = b: int | 0 <= b < 256

  function Pow(base: nat, exponent: nat): (p: nat)
    ensures base >= 1 ==> p >= 1
  {
    if exponent == 0 then 1 else base * Pow(base, exponent - 1)
  }

  /** The unsigned integer a byte string denotes, most significant byte first. */
  function BigEndian(bytes: seq<Byte>): nat {
    if bytes == [] then 0
    else 256 * BigEndian(bytes[..|bytes| - 1]) + bytes[|bytes| - 1]
  }

  lemma {:induction false} BigEndianBound(bytes: seq<Byte>)
    ensures BigEndian(bytes) < Pow(256, |bytes|)
  {
    if bytes != [] {
      BigEndianBound(bytes[..|bytes| - 1]);
    }
  }

  lemma {:induction false} BigEndianInjective(a: seq<Byte>, b: seq<Byte>)
    requires |a| == |b| && BigEndian(a) == BigEndian(b)
    ensures a == b
  {
    if a != [] {
      var m, n := |a| - 1, |b| - 1;
      BigEndianInjective(a[..m], b[..n]);
      assert a == a[..m] + [a[m]] && b == b[..n] + [b[n]];
    }
  }

  // ---------------------------------------------------------------- decimal

  function Digit(d: nat): char
    requires d < 10
  {
    '0' + d as char
  }

  predicate IsDigit(c: char) {
    '0' <= c <= '9'
  }

  function DigitValue(c: char): (d: nat)
    requires IsDigit(c)
    ensures d < 10 && Digit(d) == c
  {
    (c - '0') as int
  }

  function Decimal(n: nat): (s: string)
    ensures s != [] && forall i :: 0 <= i < |s| ==> IsDigit(s[i])
  {
    if n < 10 then [Digit(n)] else Decimal(n / 10) + [Digit(n % 10)]
  }

  function ParseDecimal(s: string): nat
    requires forall i :: 0 <= i < |s| ==> IsDigit(s[i])
  {
    if s == [] then 0
    else 10 * ParseDecimal(s[..|s| - 1]) + DigitValue(s[|s| - 1])
  }

  /** Digits only, and no leading zero except in "0" itself. */
  predicate Canonical(s: string) {
    && s != []
    && (forall i :: 0 <= i < |s| ==> IsDigit(s[i]))
    && (s[0] == '0' ==> |s| == 1)
  }

  lemma {:induction false} DecimalRoundTrip(n: nat)
    ensures Canonical(Decimal(n)) && ParseDecimal(Decimal(n)) == n
    ensures Decimal(n)[0] == '0' ==> n == 0
  {
    if n < 10 {
      assert Decimal(n)[..0] == [];
    } else {
      DecimalRoundTrip(n / 10);
      var s := Decimal(n);
      assert s[..|s| - 1] == Decimal(n / 10);
      assert s[0] == Decimal(n / 10)[0];
    }
  }

  lemma DecimalStep(q: nat, c: char)
    requires q > 0 && IsDigit(c)
    ensures Decimal(10 * q + DigitValue(c)) == Decimal(q) + [c]
  {
    var n := 10 * q + DigitValue(c);
    assert n / 10 == q && n % 10 == DigitValue(c);
  }

  lemma {:induction false} CanonicalRoundTrip(s: string)
    requires Canonical(s)
    ensures Decimal(ParseDecimal(s)) == s
    ensures s[0] != '0' ==> ParseDecimal(s) > 0
  {
    var m := |s| - 1;
    if m == 0 {
      assert s[..0] == [] && ParseDecimal(s) == DigitValue(s[0]);
      assert s == [s[0]];
    } else {
      assert Canonical(s[..m]);
      CanonicalRoundTrip(s[..m]);
      DecimalStep(ParseDecimal(s[..m]), s[m]);
      assert s == s[..m] + [s[m]];
    }
  }

  lemma {:induction false} DecimalLength(n: nat, k: nat)
    requires k >= 1 && n < Pow(10, k)
    ensures |Decimal(n)| <= k
  {
    if n >= 10 {
      assert Pow(10, k) == 10 * Pow(10, k - 1);
      assert k > 1;
      DecimalLength(n / 10, k - 1);
    }
  }

  /** The largest 32-byte word, 2^256 - 1, has 78 decimal digits. */
  lemma WordFitsIn78Digits()
    ensures Pow(256, 32) < Pow(10, 78)
  {
    PowerOf256();
    PowerOf10();
  }

  lemma PowerOf256()
    ensures Pow(256, 32) == 115792089237316195423570985008687907853269984665640564039457584007913129639936
  {
    assert Pow(256, 4) == 4294967296;
    PowAdd(256, 4, 4);
    PowAdd(256, 8, 8);
    PowAdd(256, 16, 16);
  }

  lemma PowerOf10To26()
    ensures Pow(10, 26) == 100000000000000000000000000
  {
    assert Pow(10, 6) == 1000000;
    PowAdd(10, 6, 6);
    PowAdd(10, 12, 1);
    PowAdd(10, 13, 13);
  }

  lemma PowerOf10()
    ensures Pow(10, 78) == 1000000000000000000000000000000000000000000000000000000000000000000000000000000
  {
    PowerOf10To26();
    PowAdd(10, 26, 26);
    PowAdd(10, 52, 26);
  }

  lemma {:induction false} PowAdd(base: nat, a: nat, b: nat)
    ensures Pow(base, a + b) == Pow(base, a) * Pow(base, b)
  {
    if a > 0 {
      PowAdd(base, a - 1, b);
      assert Pow(base, a + b) == base * (Pow(base, a - 1) * Pow(base, b));
      assert (base * Pow(base, a - 1)) * Pow(base, b) == base * (Pow(base, a - 1) * Pow(base, b));
    }
  }

  // ------------------------------------------------------------ hexadecimal

  function Nibble(n: nat): char
    requires n < 16
  {
    if n < 10 then '0' + n as char else 'a' + (n - 10) as char
  }

  predicate IsNibble(c: char) {
    '0' <= c <= '9' || 'a' <= c <= 'f'
  }

  function NibbleValue(c: char): (n: nat)
    requires IsNibble(c)
    ensures n < 16 && Nibble(n) == c
  {
    if '0' <= c <= '9' then (c - '0') as int else 10 + (c - 'a') as int
  }

  function HexDigits(bytes: seq<Byte>): (s: string)
    ensures |s| == 2 * |bytes| && forall i :: 0 <= i < |s| ==> IsNibble(s[i])
  {
    if bytes == [] then []
    else [Nibble(bytes[0] / 16), Nibble(bytes[0] % 16)] + HexDigits(bytes[1..])
  }

  /** "0x" followed by two lower-case digits a byte. */
  function Hex(bytes: seq<Byte>): string {
    "0x" + HexDigits(bytes)
  }

  function DecodeDigits(s: string): (bytes: seq<Byte>)
    requires |s| % 2 == 0 && forall i :: 0 <= i < |s| ==> IsNibble(s[i])
    ensures |bytes| == |s| / 2
  {
    if s == [] then []
    else [16 * NibbleValue(s[0]) + NibbleValue(s[1])] + DecodeDigits(s[2..])
  }

  predicate IsHex(s: string) {
    && |s| >= 2 && s[..2] == "0x" && |s| % 2 == 0
    && forall i :: 2 <= i < |s| ==> IsNibble(s[i])
  }

  function DecodeHex(s: string): seq<Byte>
    requires IsHex(s)
  {
    DecodeDigits(s[2..])
  }

  lemma NibbleInverse(n: nat)
    requires n < 16
    ensures IsNibble(Nibble(n)) && NibbleValue(Nibble(n)) == n
  {
  }

  lemma {:induction false} DigitsRoundTrip(bytes: seq<Byte>)
    ensures DecodeDigits(HexDigits(bytes)) == bytes
  {
    if bytes != [] {
      DigitsRoundTrip(bytes[1..]);
      NibbleInverse(bytes[0] / 16);
      NibbleInverse(bytes[0] % 16);
      var s := HexDigits(bytes);
      assert s[2..] == HexDigits(bytes[1..]);
      assert bytes == [bytes[0]] + bytes[1..];
    }
  }

  lemma HexRoundTrip(bytes: seq<Byte>)
    ensures IsHex(Hex(bytes)) && DecodeHex(Hex(bytes)) == bytes
  {
    DigitsRoundTrip(bytes);
    assert Hex(bytes)[2..] == HexDigits(bytes);
  }
}
