/** What the texts mean: UTF-8 (section 3 of RFC 3629), escapes and numbers (sections 7 and 6 of RFC 8259). */
module JsonStandard {
  import opened Bytes
  import opened Json

  // ----- UTF-8 -----

  /** The code points that have an encoding: not those of the surrogate pairs of UTF-16. */
  predicate IsScalar(cp: int) {
    0 <= cp <= 0xD7FF || 0xE000 <= cp <= 0x10FFFF
  }

  // The numbers in the free bits of two, three and four bytes.
  function Value2(a: int, b: int): int { (a - 0xC0) * 64 + (b - 0x80) }
  function Value3(a: int, b: int, c: int): int { (a - 0xE0) * 4096 + (b - 0x80) * 64 + (c - 0x80) }
  function Value4(a: int, b: int, c: int, d: int): int {
    (a - 0xF0) * 262144 + (b - 0x80) * 4096 + (c - 0x80) * 64 + (d - 0x80)
  }

  predicate Following(c: Byte) { 0x80 <= c < 0xC0 }

  /** The bytes are the code point in its shortest form. */
  predicate Writes(s: Text, cp: int) {
    match |s|
    case 1 => cp == s[0] < 0x80
    case 2 => cp == Value2(s[0], s[1]) && Following(s[1]) && 0x80 <= cp < 0x800
    case 3 => cp == Value3(s[0], s[1], s[2]) && Following(s[1]) && Following(s[2]) && 0x800 <= cp < 0x10000
    case 4 =>
      && cp == Value4(s[0], s[1], s[2], s[3]) && Following(s[1]) && Following(s[2]) && Following(s[3])
      && 0x10000 <= cp < 0x110000
    case _ => false
  }

  lemma ThreeParts(cp: nat)
    ensures cp == cp / 4096 * 4096 + cp / 64 % 64 * 64 + cp % 64
  {
    var q := cp / 64;
    assert q / 64 == cp / 4096;
  }

  lemma FourParts(cp: nat)
    ensures cp == cp / 262144 * 262144 + cp / 4096 % 64 * 4096 + cp / 64 % 64 * 64 + cp % 64
  {
    var q := cp / 4096;
    ThreeParts(cp);
    assert q / 64 == cp / 262144;
  }

  lemma EncodedWrites(cp: nat)
    requires cp < 0x110000
    ensures Writes(EncodeUtf8(cp), cp)
  {
    ThreeParts(cp);
    FourParts(cp);
    var q, r, t, u, v := cp / 262144, cp / 4096, cp / 4096 % 64, cp / 64 % 64, cp % 64;
    if cp < 0x800 {
    } else if cp < 0x10000 {
      assert EncodeUtf8(cp) == [0xE0 + r, 0x80 + u, 0x80 + v];
    } else {
      assert EncodeUtf8(cp) == [0xF0 + q, 0x80 + t, 0x80 + u, 0x80 + v];
    }
  }

  /** What is accepted as a character is the shortest form of a code point that may be encoded. */
  lemma CharWrites(s: Text) returns (cp: nat)
    requires CharLen(s) > 0
    ensures IsScalar(cp) && Writes(s[..CharLen(s)], cp)
  {
    var k := CharLen(s);
    cp := if k == 1 then s[0]
          else if k == 2 then Value2(s[0], s[1])
          else if k == 3 then Value3(s[0], s[1], s[2])
          else Value4(s[0], s[1], s[2], s[3]);
  }

  /** The other way round, every such form is accepted, whatever follows it. */
  lemma WritesChar(s: Text, cp: int, t: Text)
    requires Writes(s, cp) && IsScalar(cp)
    ensures CharLen(s + t) == |s|
  {
  }

  // ----- escapes -----

  const LOWER := "0123456789abcdef"
  const UPPER := "0123456789ABCDEF"

  /** The short escapes. */
  lemma ShortEscapes()
    ensures EscapeByte(8) == Ascii("\\b") && EscapeByte(9) == Ascii("\\t") && EscapeByte(10) == Ascii("\\n")
    ensures EscapeByte(12) == Ascii("\\f") && EscapeByte(13) == Ascii("\\r")
    ensures EscapeByte(34) == Ascii("\\\"") && EscapeByte(92) == Ascii("\\\\")
  {
  }

  lemma HexDigitIs(v: nat)
    requires v < 16
    ensures HexDigit(v) == LOWER[v] as int
  {
  }

  /** The other control characters are written as codes, all other characters as they are. */
  lemma CodeEscapes(c: Byte)
    requires c !in {8, 9, 10, 12, 13, 34, 92}
    ensures EscapeByte(c)
         == if c < 32 then Ascii("\\u00") + [LOWER[c / 16] as int, LOWER[c % 16] as int] else [c]
  {
    hide HexDigit, LOWER;
    if c < 32 {
      HexDigitIs(c / 16);
      HexDigitIs(c % 16);
    }
  }

  /** What the short escapes stand for, the slash among them. */
  lemma UnescapeTable(t: Text)
    ensures Unescape(Ascii("\\b") + t) == Some(([8], 2)) && Unescape(Ascii("\\t") + t) == Some(([9], 2))
    ensures Unescape(Ascii("\\n") + t) == Some(([10], 2)) && Unescape(Ascii("\\f") + t) == Some(([12], 2))
    ensures Unescape(Ascii("\\r") + t) == Some(([13], 2)) && Unescape(Ascii("\\\"") + t) == Some(([34], 2))
    ensures Unescape(Ascii("\\\\") + t) == Some(([92], 2)) && Unescape(Ascii("\\/") + t) == Some(([47], 2))
  {
    hide Hex4, EncodeUtf8;
  }

  /** A digit for the value `v`, in either case. */
  predicate IsHex(c: Byte, v: nat) {
    v < 16 && (c == LOWER[v] as int || c == UPPER[v] as int)
  }

  lemma HexValueIs(c: Byte, v: nat)
    requires IsHex(c, v)
    ensures HexValue(c) == v
  {
  }

  /** Four digits for the value `n`. */
  ghost predicate FourHex(s: Text, n: int) {
    exists a: nat, b: nat, c: nat, d: nat ::
      |s| == 4 && IsHex(s[0], a) && IsHex(s[1], b) && IsHex(s[2], c) && IsHex(s[3], d)
      && n == a * 4096 + b * 256 + c * 16 + d
  }

  lemma Hex4Is(s: Text, n: int, t: Text)
    requires FourHex(s, n)
    ensures Hex4(s + t) == n
  {
    hide HexValue, IsHex;
    var a: nat, b: nat, c: nat, d: nat :|
      |s| == 4 && IsHex(s[0], a) && IsHex(s[1], b) && IsHex(s[2], c) && IsHex(s[3], d)
      && n == a * 4096 + b * 256 + c * 16 + d;
    HexValueIs(s[0], a);
    HexValueIs(s[1], b);
    HexValueIs(s[2], c);
    HexValueIs(s[3], d);
  }

  /** A code outside the surrogates is that code point; a lone second surrogate is an error. */
  lemma UnescapeCode(digits: Text, cp: int, t: Text)
    requires FourHex(digits, cp)
    ensures IsScalar(cp) ==>
              var r := Unescape(Ascii("\\u") + (digits + t));
              r.Some? && r.value.1 == 6 && Writes(r.value.0, cp)
    ensures 0xDC00 <= cp <= 0xDFFF ==> Unescape(Ascii("\\u") + (digits + t)).None?
  {
    hide Hex4, EncodeUtf8, Writes, FourHex;
    var s := Ascii("\\u") + (digits + t);
    Hex4Is(digits, cp, t);
    assert s[2..] == digits + t;
    if IsScalar(cp) {
      EncodedWrites(cp);
    }
  }

  /** Two codes of a pair are the code point above 0xFFFF that UTF-16 writes so. */
  lemma UnescapePair(first: Text, hi: int, second: Text, lo: int, t: Text)
    requires FourHex(first, hi) && 0xD800 <= hi <= 0xDBFF
    requires FourHex(second, lo) && 0xDC00 <= lo <= 0xDFFF
    ensures var r := Unescape(Ascii("\\u") + (first + (Ascii("\\u") + (second + t))));
            r.Some? && r.value.1 == 12 && Writes(r.value.0, 0x10000 + (hi - 0xD800) * 0x400 + (lo - 0xDC00))
  {
    hide Hex4, EncodeUtf8, Writes, FourHex;
    FourLong(first, hi);
    var rest := Ascii("\\u") + (second + t);
    var s := Ascii("\\u") + (first + rest);
    Hex4Is(first, hi, rest);
    Hex4Is(second, lo, t);
    assert s[2..] == first + rest;
    assert s[8..] == second + t;
    EncodedWrites(0x10000 + (hi - 0xD800) * 0x400 + (lo - 0xDC00));
  }

  lemma FourLong(s: Text, n: int)
    requires FourHex(s, n)
    ensures |s| == 4
  {
  }

  // ----- numbers -----

  /** The value of decimal digits. */
  function Decimal(s: Text): int {
    if s == [] then 0 else 10 * Decimal(s[..|s| - 1]) + (s[|s| - 1] - '0' as int)
  }

  ghost predicate AllDigits(s: Text) {
    forall i :: 0 <= i < |s| ==> '0' as int <= s[i] <= '9' as int
  }

  lemma {:induction false} DigitsAre(n: nat)
    ensures Decimal(Digits(n)) == n && AllDigits(Digits(n))
    ensures n > 0 ==> Digits(n)[0] != '0' as int
    decreases n
  {
    if n >= 10 {
      DigitsAre(n / 10);
      assert Digits(n)[..|Digits(n)| - 1] == Digits(n / 10);
    }
  }

  /** An integer is printed as a minus sign, if it is negative, and its decimal digits without leading zeros. */
  lemma PrintIntIs(n: int)
    ensures var digits := if n < 0 then PrintInt(n)[1..] else PrintInt(n);
            && (n < 0 ==> PrintInt(n)[0] == '-' as int)
            && digits != [] && AllDigits(digits) && Decimal(digits) == (if n < 0 then -n else n)
            && (digits[0] == '0' as int ==> digits == Ascii("0"))
  {
    hide AllDigits, Decimal;
    DigitsAre(if n < 0 then -n else n);
  }
}
