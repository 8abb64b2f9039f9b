/**
 * The printf conversions the board code uses to build environment values
 * (%x, %0Nx, %d, %pM), the snprintf truncation, and tolower, each with the
 * parser that inverts it.
 */
module Format {
  import opened Wrappers

  /** C's uint8_t and uint32_t as ranges of int. */
  type Uint8 = x: int | 0 <= x < 0x100
  type Uint32 = x: int | 0 <= x < 0x1_0000_0000

  /** The bases printf prints in here: 10 for %d, 16 for %x. */
  type Base = b: int | 2 <= b <= 16 witness 10

  // ---------------------------------------------------------------------
  // Digits
  // ---------------------------------------------------------------------

  /** The lower-case digit printf writes for d. */
  function DigitChar(d: nat): (c: char)
    requires d < 16
    ensures DigitValue(c) == Some(d)
  {
    if d < 10 then ('0' as int + d) as char else ('a' as int + d - 10) as char
  }

  /** The value of a digit character in any base up to 16 (both letter cases). */
  function DigitValue(c: char): Option<nat> {
    if '0' <= c <= '9' then Some(c as int - '0' as int)
    else if 'a' <= c <= 'f' then Some(c as int - 'a' as int + 10)
    else if 'A' <= c <= 'F' then Some(c as int - 'A' as int + 10)
    else None
  }

  predicate IsDigit(c: char, base: Base) {
    DigitValue(c).Some? && DigitValue(c).value < base
  }

  predicate AllDigits(s: string, base: Base) {
    forall i :: 0 <= i < |s| ==> IsDigit(s[i], base)
  }

  /** The shortest digit string for n: what %d and %x print for a non-negative value. */
  function Digits(n: nat, base: Base): (s: string)
    ensures |s| >= 1
    ensures AllDigits(s, base)
    decreases n
  {
    if n < base then [DigitChar(n)] else Digits(n / base, base) + [DigitChar(n % base)]
  }

  /** The number a string of digits denotes, most significant digit first. */
  function ValueOf(s: string, base: Base): nat
    requires AllDigits(s, base)
  {
    if |s| == 0 then 0
    else ValueOf(s[..|s| - 1], base) * base + DigitValue(s[|s| - 1]).value
  }

  lemma {:induction false} ValueOfDigits(n: nat, base: Base)
    ensures ValueOf(Digits(n, base), base) == n
    decreases n
  {
    if n < base {
      assert Digits(n, base)[..0] == [];
    } else {
      ValueOfDigits(n / base, base);
      ValueOfDigitsStep(n, base);
      DivMod(n, base);
    }
  }

  lemma ValueOfDigitsStep(n: nat, base: Base)
    requires n >= base
    ensures ValueOf(Digits(n, base), base) == ValueOf(Digits(n / base, base), base) * base + n % base
  {
    ValueOfSnoc(Digits(n / base, base), DigitChar(n % base), base);
  }

  lemma DivMod(n: nat, base: Base)
    ensures n == (n / base) * base + n % base
  {
  }

  /** Appending a digit shifts the value one place and adds the digit. */
  lemma ValueOfSnoc(s: string, c: char, base: Base)
    requires AllDigits(s, base) && IsDigit(c, base)
    ensures AllDigits(s + [c], base)
    ensures ValueOf(s + [c], base) == ValueOf(s, base) * base + DigitValue(c).value
  {
    assert (s + [c])[..|s|] == s;
  }

  function Pow16(k: nat): nat {
    if k == 0 then 1 else 16 * Pow16(k - 1)
  }

  /** A value below 16^k takes at most k hexadecimal digits. */
  lemma {:induction false} HexLength(n: nat, k: nat)
    requires 1 <= k && n < Pow16(k)
    ensures |Digits(n, 16)| <= k
    decreases k
  {
    if n >= 16 {
      assert k >= 2;
      assert n / 16 < Pow16(k - 1);
      HexLength(n / 16, k - 1);
    }
  }

  /** k '0' characters: the padding of %0Nx. */
  function Zeros(k: nat): (s: string)
    ensures |s| == k
    ensures forall i :: 0 <= i < k ==> s[i] == '0'
  {
    seq(k, _ => '0')
  }

  /** Leading zeros do not change a value. */
  lemma {:induction false} ValueOfZerosPrefix(k: nat, s: string, base: Base)
    requires AllDigits(s, base)
    ensures AllDigits(Zeros(k) + s, base)
    ensures ValueOf(Zeros(k) + s, base) == ValueOf(s, base)
    decreases |s|
  {
    var t := Zeros(k) + s;
    assert AllDigits(t, base) by {
      forall i | 0 <= i < |t| ensures IsDigit(t[i], base) {
        if i >= k { assert t[i] == s[i - k]; }
      }
    }
    if |s| == 0 {
      ValueOfZeros(k, base);
      assert t == Zeros(k);
    } else {
      var s' := s[..|s| - 1];
      assert t[..|t| - 1] == Zeros(k) + s';
      ValueOfZerosPrefix(k, s', base);
    }
  }

  lemma {:induction false} ValueOfZeros(k: nat, base: Base)
    ensures AllDigits(Zeros(k), base)
    ensures ValueOf(Zeros(k), base) == 0
    decreases k
  {
    if k > 0 {
      assert Zeros(k)[..k - 1] == Zeros(k - 1);
      ValueOfZeros(k - 1, base);
    }
  }

  // ---------------------------------------------------------------------
  // %x, %0Nx, %d and their parsers
  // ---------------------------------------------------------------------

  /** %x of an unsigned value. */
  function Hex(n: nat): string {
    Digits(n, 16)
  }

  /** %0wx: %x padded on the left with zeros to at least w characters. */
  function HexPad(n: nat, w: nat): (s: string)
    ensures |s| == if |Hex(n)| < w then w else |Hex(n)|
  {
    if |Hex(n)| < w then Zeros(w - |Hex(n)|) + Hex(n) else Hex(n)
  }

  /** %d of a signed value. */
  function Decimal(i: int): string {
    if i < 0 then "-" + Digits(-i, 10) else Digits(i, 10)
  }

  /** A non-empty run of hexadecimal digits. */
  function ParseHex(s: string): Option<nat> {
    if |s| > 0 && AllDigits(s, 16) then Some(ValueOf(s, 16)) else None
  }

  /** A non-empty run of decimal digits, with an optional leading '-'. */
  function ParseDecimal(s: string): Option<int> {
    if |s| > 1 && s[0] == '-' && AllDigits(s[1..], 10) then Some(-(ValueOf(s[1..], 10) as int))
    else if |s| > 0 && AllDigits(s, 10) then Some(ValueOf(s, 10))
    else None
  }

  lemma HexRoundTrip(n: nat)
    ensures ParseHex(Hex(n)) == Some(n)
  {
    ValueOfDigits(n, 16);
  }

  lemma HexPadRoundTrip(n: nat, w: nat)
    ensures ParseHex(HexPad(n, w)) == Some(n)
  {
    ValueOfDigits(n, 16);
    if |Hex(n)| < w {
      ValueOfZerosPrefix(w - |Hex(n)|, Hex(n), 16);
    }
  }

  lemma DecimalRoundTrip(i: int)
    ensures ParseDecimal(Decimal(i)) == Some(i)
  {
    if i < 0 {
      ValueOfDigits(-i, 10);
      assert Decimal(i)[1..] == Digits(-i, 10);
    } else {
      ValueOfDigits(i, 10);
      assert Digits(i, 10)[0] != '-';
    }
  }

  /** Distinct values print differently. */
  lemma DecimalInjective(i: int, j: int)
    requires Decimal(i) == Decimal(j)
    ensures i == j
  {
    DecimalRoundTrip(i);
    DecimalRoundTrip(j);
  }

  /** %02x of a byte is exactly two digits. */
  lemma HexPadByte(b: Uint8)
    ensures |HexPad(b, 2)| == 2
  {
    assert Pow16(2) == 256;
    HexLength(b, 2);
  }

  /** %08x of a 32-bit word is exactly eight digits. */
  lemma HexPadWord(w: Uint32)
    ensures |HexPad(w, 8)| == 8
  {
    assert Pow16(8) == 0x1_0000_0000 by {
      assert Pow16(4) == 0x1_0000;
    }
    HexLength(w, 8);
  }

  // ---------------------------------------------------------------------
  // %pM
  // ---------------------------------------------------------------------

  /** %pM: six bytes as two lower-case hex digits each, separated by colons. */
  function MacText(mac: seq<Uint8>): string
    requires |mac| == 6
  {
    Join(seq(6, i requires 0 <= i < 6 => HexPad(mac[i], 2)))
  }

  /** The strings with a colon between neighbours. */
  function Join(groups: seq<string>): string
    decreases |groups|
  {
    if |groups| == 0 then ""
    else if |groups| == 1 then groups[0]
    else groups[0] + ":" + Join(groups[1..])
  }

  /** Joining two-character groups puts group k at 3 * k and a colon after it. */
  lemma {:induction false} JoinLayout(groups: seq<string>, k: nat)
    requires k < |groups|
    requires forall i :: 0 <= i < |groups| ==> |groups[i]| == 2
    ensures |Join(groups)| == 3 * |groups| - 1
    ensures Join(groups)[3 * k..3 * k + 2] == groups[k]
    ensures k < |groups| - 1 ==> Join(groups)[3 * k + 2] == ':'
    decreases |groups|
  {
    if |groups| > 1 {
      var rest := Join(groups[1..]);
      var t := groups[0] + ":" + rest;
      JoinLayout(groups[1..], if k == 0 then 0 else k - 1);
      assert t[3..] == rest;
      if k > 0 {
        var o := 3 * k;
        assert t[o..o + 2] == rest[o - 3..o - 1];
      } else {
        assert t[..2] == groups[0];
      }
    }
  }

  /** The byte in the two characters at s[k*3..k*3+2]. */
  function MacByte(s: string, k: nat): Option<Uint8>
    requires k < 6 && |s| == 17
  {
    var v := ParseHex(s[3 * k..3 * k + 2]);
    if v.Some? && v.value < 0x100 then Some(v.value as Uint8) else None
  }

  /** Reads back what %pM writes: 17 characters, colons at every third place. */
  function ParseMac(s: string): Option<seq<Uint8>> {
    if |s| != 17 then None
    else if !(forall k :: 0 <= k < 5 ==> s[3 * k + 2] == ':') then None
    else if !(forall k :: 0 <= k < 6 ==> MacByte(s, k).Some?) then None
    else Some(seq(6, k requires 0 <= k < 6 => MacByte(s, k).value))
  }

  lemma MacTextLayout(mac: seq<Uint8>, k: nat)
    requires |mac| == 6 && k < 6
    ensures |MacText(mac)| == 17
    ensures MacText(mac)[3 * k..3 * k + 2] == HexPad(mac[k], 2)
    ensures k < 5 ==> MacText(mac)[3 * k + 2] == ':'
  {
    var groups := seq(6, i requires 0 <= i < 6 => HexPad(mac[i], 2));
    forall i | 0 <= i < 6 ensures |groups[i]| == 2 {
      HexPadByte(mac[i]);
    }
    JoinLayout(groups, k);
  }

  lemma MacByteOfText(mac: seq<Uint8>, k: nat)
    requires |mac| == 6 && k < 6
    ensures |MacText(mac)| == 17
    ensures MacByte(MacText(mac), k) == Some(mac[k])
  {
    MacTextLayout(mac, k);
    HexPadRoundTrip(mac[k], 2);
  }

  lemma MacRoundTrip(mac: seq<Uint8>)
    requires |mac| == 6
    ensures ParseMac(MacText(mac)) == Some(mac)
  {
    var s := MacText(mac);
    forall k | 0 <= k < 6
      ensures |s| == 17 && MacByte(s, k) == Some(mac[k])
      ensures k < 5 ==> s[3 * k + 2] == ':'
    {
      MacByteOfText(mac, k);
      MacTextLayout(mac, k);
    }
    assert |s| == 17 by { MacByteOfText(mac, 0); }
    assert seq(6, k requires 0 <= k < 6 => MacByte(s, k).value) == mac;
  }

  // ---------------------------------------------------------------------
  // snprintf and tolower
  // ---------------------------------------------------------------------

  /** What snprintf leaves in a buffer of `size` bytes: at most size - 1 characters. */
  function Truncate(s: string, size: nat): (t: string)
    requires size >= 1
    ensures |t| <= size - 1
    ensures t <= s
    ensures |s| < size ==> t == s
  {
    if |s| < size then s else s[..size - 1]
  }

  /** tolower on one character: only 'A'..'Z' change. */
  function ToLower(c: char): char {
    if 'A' <= c <= 'Z' then (c as int - 'A' as int + 'a' as int) as char else c
  }

  predicate IsUpper(c: char) {
    'A' <= c <= 'Z'
  }

  /** tolower applied to every character. */
  function Lower(s: string): (t: string)
    ensures |t| == |s|
  {
    seq(|s|, i requires 0 <= i < |s| => ToLower(s[i]))
  }

  lemma ToLowerMeaning(c: char)
    ensures !IsUpper(ToLower(c))
    ensures IsUpper(c) ==> ToLower(c) as int == c as int + 32
    ensures !IsUpper(c) ==> ToLower(c) == c
  {
  }

  lemma LowerIdempotent(s: string)
    ensures Lower(Lower(s)) == Lower(s)
  {
    forall i | 0 <= i < |s| ensures Lower(Lower(s))[i] == Lower(s)[i] {
      ToLowerMeaning(s[i]);
      ToLowerMeaning(ToLower(s[i]));
    }
  }

  /** printf writes its digits in lower case. */
  lemma {:induction false} DigitsLowerCase(n: nat, base: Base)
    ensures forall i :: 0 <= i < |Digits(n, base)| ==> !IsUpper(Digits(n, base)[i])
    decreases n
  {
    if n >= base {
      DigitsLowerCase(n / base, base);
    }
  }

  /** ... so tolower leaves them as they are. */
  lemma LowerKeepsHex(n: nat)
    ensures Lower(Hex(n)) == Hex(n)
  {
    var s := Hex(n);
    DigitsLowerCase(n, 16);
    forall i | 0 <= i < |s| ensures ToLower(s[i]) == s[i] {
      ToLowerMeaning(s[i]);
    }
  }
}
