/**
 * The part of the JSON library the messages use: compact objects of strings and integers, string escapes
 * (section 7 of RFC 8259) and the well-formedness check of UTF-8 (section 4 of RFC 3629) on both sides.
 */
module Json {
  import opened Bytes

  const QUOTE: Byte := 34
  const BACKSLASH: Byte := 92

  // ----- UTF-8 -----

  predicate Tail(s: Text, i: nat, low: Byte, high: Byte) {
    i < |s| && low <= s[i] <= high
  }

  /** The length of the well-formed UTF-8 sequence that `s` starts with, or 0. */
  function CharLen(s: Text): (k: nat)
    ensures k <= 4 && k <= |s|
  {
    if s == [] then 0
    else if s[0] < 0x80 then 1
    else if 0xC2 <= s[0] <= 0xDF then if Tail(s, 1, 0x80, 0xBF) then 2 else 0
    else if 0xE0 <= s[0] <= 0xEF then
      var low := if s[0] == 0xE0 then 0xA0 else 0x80;
      var high := if s[0] == 0xED then 0x9F else 0xBF;
      if Tail(s, 1, low, high) && Tail(s, 2, 0x80, 0xBF) then 3 else 0
    else if 0xF0 <= s[0] <= 0xF4 then
      var low := if s[0] == 0xF0 then 0x90 else 0x80;
      var high := if s[0] == 0xF4 then 0x8F else 0xBF;
      if Tail(s, 1, low, high) && Tail(s, 2, 0x80, 0xBF) && Tail(s, 3, 0x80, 0xBF) then 4 else 0
    else 0
  }

  predicate ValidUtf8(s: Text) {
    s == [] || (CharLen(s) > 0 && ValidUtf8(s[CharLen(s)..]))
  }

  // ----- strings -----

  function HexDigit(n: nat): Byte
    requires n < 16
  {
    if n < 10 then 48 + n else 97 + (n - 10)
  }

  function HexValue(c: Byte): (r: int)
    ensures -1 <= r < 16
  {
    if 48 <= c <= 57 then c - 48 else if 97 <= c <= 102 then c - 87 else if 65 <= c <= 70 then c - 55 else -1
  }

  function EscapeByte(c: Byte): Text {
    match c
    case 8 => [BACKSLASH, 98]
    case 9 => [BACKSLASH, 116]
    case 10 => [BACKSLASH, 110]
    case 12 => [BACKSLASH, 102]
    case 13 => [BACKSLASH, 114]
    case 34 => [BACKSLASH, QUOTE]
    case 92 => [BACKSLASH, BACKSLASH]
    case _ => if c < 0x20 then [BACKSLASH, 117, 48, 48, HexDigit(c / 16), HexDigit(c % 16)] else [c]
  }

  /** The characters of a string as `dump` writes them between the quotes; it throws on ill-formed UTF-8. */
  function Escape(s: Text): Option<Text> {
    if s == [] then Some([])
    else
      var k := CharLen(s);
      if k == 0 then None
      else match Escape(s[k..])
        case None => None
        case Some(rest) => Some((if k == 1 then EscapeByte(s[0]) else s[..k]) + rest)
  }

  /** The value of the four hexadecimal digits at the start, or -1. */
  function Hex4(s: Text): (r: int)
    ensures -1 <= r < 0x10000
    ensures r >= 0 ==> |s| >= 4
  {
    if |s| < 4 || HexValue(s[0]) < 0 || HexValue(s[1]) < 0 || HexValue(s[2]) < 0 || HexValue(s[3]) < 0 then -1
    else HexValue(s[0]) * 4096 + HexValue(s[1]) * 256 + HexValue(s[2]) * 16 + HexValue(s[3])
  }

  function EncodeUtf8(cp: nat): Text
    requires cp < 0x110000
  {
    if cp < 0x80 then [cp]
    else if cp < 0x800 then [0xC0 + cp / 64, 0x80 + cp % 64]
    else if cp < 0x10000 then [0xE0 + cp / 4096, 0x80 + cp / 64 % 64, 0x80 + cp % 64]
    else [0xF0 + cp / 262144, 0x80 + cp / 4096 % 64, 0x80 + cp / 64 % 64, 0x80 + cp % 64]
  }

  /** What an escape sequence stands for, and how long it is, `s` starting at the backslash. */
  function Unescape(s: Text): (r: Option<(Text, nat)>)
    ensures r.Some? ==> 0 < r.value.1 <= |s|
  {
    if |s| < 2 then None
    else match s[1]
      case 34 => Some(([34], 2))
      case 92 => Some(([92], 2))
      case 47 => Some(([47], 2))
      case 98 => Some(([8], 2))
      case 102 => Some(([12], 2))
      case 110 => Some(([10], 2))
      case 114 => Some(([13], 2))
      case 116 => Some(([9], 2))
      case 117 =>
        var cp := Hex4(s[2..]);
        if cp < 0 || 0xDC00 <= cp < 0xE000 then None
        else if cp < 0xD800 || cp >= 0xE000 then Some((EncodeUtf8(cp), 6))
        else if |s| < 8 || s[6] != BACKSLASH || s[7] != 117 then None
        else
          var low := Hex4(s[8..]);
          if !(0xDC00 <= low < 0xE000) then None
          else Some((EncodeUtf8(0x10000 + (cp - 0xD800) * 1024 + (low - 0xDC00)), 12))
      case _ => None
  }

  /** Reads the characters of a string up to the closing quote: the value and what follows the quote. */
  function Scan(s: Text): (r: Option<(Text, Text)>)
    ensures r.Some? ==> |r.value.1| < |s|
  {
    if s == [] || s[0] < 0x20 then None
    else if s[0] == QUOTE then Some(([], s[1..]))
    else if s[0] == BACKSLASH then
      match Unescape(s)
      case None => None
      case Some((value, k)) => Prepend(value, Scan(s[k..]))
    else
      var k := CharLen(s);
      if k == 0 then None else Prepend(s[..k], Scan(s[k..]))
  }

  function Prepend(value: Text, r: Option<(Text, Text)>): Option<(Text, Text)> {
    match r
    case None => None
    case Some((more, rest)) => Some((value + more, rest))
  }

  ghost predicate NoControl(s: Text) {
    forall i :: 0 <= i < |s| ==> s[i] >= 0x20
  }

  lemma CharLenPrefix(s: Text, t: Text)
    requires CharLen(s) > 0
    ensures CharLen(s[..CharLen(s)] + t) == CharLen(s)
  {
  }

  lemma CharLenWide(s: Text)
    requires CharLen(s) > 1
    ensures NoControl(s[..CharLen(s)]) && s[0] >= 0x80
  {
  }

  /** The control characters without a short escape. */
  lemma ScanCodeEscape(c: Byte, t: Text)
    requires c < 0x20 && EscapeByte(c) == [BACKSLASH, 117, 48, 48, HexDigit(c / 16), HexDigit(c % 16)]
    ensures Scan(EscapeByte(c) + t) == Prepend([c], Scan(t))
  {
    hide EscapeByte;
    var s := EscapeByte(c) + t;
    var u := s[2..];
    assert u[0] == 48 && u[1] == 48 && u[2] == HexDigit(c / 16) && u[3] == HexDigit(c % 16);
    assert Hex4(u) == c;
    assert s[6..] == t;
  }

  lemma ScanEscapedByte(c: Byte, t: Text)
    requires c < 0x80
    ensures Scan(EscapeByte(c) + t) == Prepend([c], Scan(t))
    ensures NoControl(EscapeByte(c))
  {
    hide Hex4;
    var s := EscapeByte(c) + t;
    if s[0] == BACKSLASH && s[1] == 117 {
      ScanCodeEscape(c, t);
    } else if s[0] == BACKSLASH {
      assert s[2..] == t;
    } else {
      assert s[..1] == [c] && s[1..] == t;
    }
  }

  lemma ScanWideChar(s: Text, t: Text)
    requires CharLen(s) > 1
    ensures Scan(s[..CharLen(s)] + t) == Prepend(s[..CharLen(s)], Scan(t))
  {
    var k := CharLen(s);
    CharLenPrefix(s, t);
    CharLenWide(s);
    assert (s[..k] + t)[..k] == s[..k] && (s[..k] + t)[k..] == t;
  }

  lemma ScanQuote(rest: Text)
    ensures Scan([QUOTE] + rest) == Some(([], rest))
  {
    assert ([QUOTE] + rest)[1..] == rest;
  }

  /** One character as `dump` writes it. */
  function EscapeChar(s: Text): Text
    requires CharLen(s) > 0
  {
    if CharLen(s) == 1 then EscapeByte(s[0]) else s[..CharLen(s)]
  }

  lemma ScanChar(s: Text, t: Text)
    requires CharLen(s) > 0
    ensures Scan(EscapeChar(s) + t) == Prepend(s[..CharLen(s)], Scan(t))
    ensures NoControl(EscapeChar(s))
  {
    hide Scan, EscapeByte;
    if CharLen(s) == 1 {
      ScanEscapedByte(s[0], t);
      assert s[..1] == [s[0]];
    } else {
      ScanWideChar(s, t);
      CharLenWide(s);
    }
  }

  /** A string survives writing and reading; writing fails exactly on ill-formed UTF-8. */
  lemma {:induction false} StringRoundTrip(s: Text, rest: Text)
    ensures Escape(s).Some? <==> ValidUtf8(s)
    ensures Escape(s).Some? ==> NoControl(Escape(s).value)
    ensures Escape(s).Some? ==> Scan(Escape(s).value + ([QUOTE] + rest)) == Some((s, rest))
    decreases s
  {
    hide CharLen, Scan, EscapeByte, EscapeChar;
    if s == [] {
      ScanQuote(rest);
      assert [] + ([QUOTE] + rest) == [QUOTE] + rest;
    } else if CharLen(s) > 0 {
      var k := CharLen(s);
      StringRoundTrip(s[k..], rest);
      EscapeStep(s);
      if Escape(s).Some? {
        var tail := Escape(s[k..]).value;
        ScanChar(s, tail + ([QUOTE] + rest));
        assert Escape(s).value + ([QUOTE] + rest) == EscapeChar(s) + (tail + ([QUOTE] + rest));
        assert s == s[..k] + s[k..];
      }
    }
  }

  lemma EscapeStep(s: Text)
    requires CharLen(s) > 0
    ensures Escape(s) == match Escape(s[CharLen(s)..]) case None => None case Some(rest) => Some(EscapeChar(s) + rest)
  {
  }

  // ----- integers -----

  function Digits(n: nat): (r: Text)
    ensures |r| > 0
  {
    if n < 10 then [48 + n] else Digits(n / 10) + [48 + n % 10]
  }

  function PrintInt(n: int): Text {
    if n < 0 then [45] + Digits(-n) else Digits(n)
  }

  predicate IsDigit(c: Byte) { 48 <= c <= 57 }

  /** Reads the digits at the start of `s`, continuing the number `n`. */
  function ReadDigits(n: nat, s: Text): (r: (nat, Text))
    ensures |r.1| <= |s|
    ensures s != [] && IsDigit(s[0]) ==> |r.1| < |s|
    decreases s
  {
    if s == [] || !IsDigit(s[0]) then (n, s) else ReadDigits(10 * n + (s[0] - 48), s[1..])
  }

  /** A number: an optional minus and digits without a superfluous leading zero. */
  function ReadNat(s: Text): (r: Option<(nat, Text)>)
    ensures r.Some? ==> |r.value.1| < |s|
  {
    if s == [] || !IsDigit(s[0]) then None
    else if s[0] == 48 then Some((0, s[1..]))
    else Some(ReadDigits(0, s))
  }

  function ReadInt(s: Text): (r: Option<(int, Text)>)
    ensures r.Some? ==> |r.value.1| < |s|
  {
    if s != [] && s[0] == 45 then
      var r := ReadNat(s[1..]);
      if r.None? then None else Some((0 - r.value.0, r.value.1))
    else
      var r := ReadNat(s);
      if r.None? then None else Some((r.value.0, r.value.1))
  }

  lemma {:induction false} DigitsShape(m: nat)
    ensures m > 0 ==> 49 <= Digits(m)[0] <= 57
    ensures forall i :: 0 <= i < |Digits(m)| ==> IsDigit(Digits(m)[i])
    decreases m
  {
    if m >= 10 {
      DigitsShape(m / 10);
    }
  }

  /** The digits of `m` in front of more digits: reading them continues from `m`. */
  lemma {:induction false} ReadDigitsOf(m: nat, t: Text)
    ensures ReadDigits(0, Digits(m) + t) == ReadDigits(m, t)
    decreases m
  {
    if m < 10 {
      assert (Digits(m) + t)[1..] == t;
    } else {
      ReadDigitsOf(m / 10, [48 + m % 10] + t);
      assert Digits(m) + t == Digits(m / 10) + ([48 + m % 10] + t);
      ReadOne(m / 10, m % 10, t);
    }
  }

  lemma ReadOne(n: nat, d: nat, t: Text)
    requires d < 10
    ensures ReadDigits(n, [48 + d] + t) == ReadDigits(10 * n + d, t)
  {
    assert ([48 + d] + t)[1..] == t;
  }

  /** An integer survives writing and reading in front of anything but a digit. */
  lemma IntRoundTrip(n: int, rest: Text)
    requires rest == [] || !IsDigit(rest[0])
    ensures ReadInt(PrintInt(n) + rest) == Some((n, rest))
    ensures NoControl(PrintInt(n))
  {
    var m := if n < 0 then -n else n;
    hide Digits, ReadNat;
    DigitsShape(m);
    NatRoundTrip(m, rest);
    if n < 0 {
      assert (PrintInt(n) + rest)[1..] == Digits(m) + rest;
    }
  }

  lemma NatRoundTrip(m: nat, rest: Text)
    requires rest == [] || !IsDigit(rest[0])
    ensures ReadNat(Digits(m) + rest) == Some((m, rest))
  {
    ReadDigitsOf(m, rest);
    DigitsShape(m);
    if m == 0 {
      assert (Digits(m) + rest)[1..] == rest;
    }
  }

  // ----- fixed text -----

  /** The bytes of a literal; the literals of this project are printable ASCII. */
  function Ascii(s: string): (r: Text)
    ensures |r| == |s| && NoControl(r)
  {
    seq(|s|, i requires 0 <= i < |s| => if ' ' <= s[i] <= '~' then s[i] as int else 63)
  }

  function Expect(lit: Text, s: Text): Option<Text> {
    if lit <= s then Some(s[|lit|..]) else None
  }

  lemma ExpectRoundTrip(lit: Text, rest: Text)
    ensures Expect(lit, lit + rest) == Some(rest)
  {
    assert (lit + rest)[..|lit|] == lit;
  }

  // ----- reading does not look ahead -----

  lemma CharLenMore(s: Text, t: Text)
    requires CharLen(s) > 0
    ensures CharLen(s + t) == CharLen(s)
  {
  }

  lemma Hex4More(s: Text, t: Text)
    requires Hex4(s) >= 0
    ensures Hex4(s + t) == Hex4(s)
  {
  }

  lemma UnescapeMore(s: Text, t: Text)
    requires Unescape(s).Some?
    ensures Unescape(s + t) == Unescape(s)
  {
    hide Hex4, EncodeUtf8;
    if s[1] == 117 {
      assert (s + t)[2..] == s[2..] + t;
      Hex4More(s[2..], t);
      if |s| >= 8 && Hex4(s[8..]) >= 0 {
        assert (s + t)[8..] == s[8..] + t;
        Hex4More(s[8..], t);
      }
    }
  }

  /** A string that has been read is read in the same way in front of any more text. */
  lemma {:induction false} ScanMore(s: Text, t: Text)
    requires Scan(s).Some?
    ensures Scan(s + t) == Some((Scan(s).value.0, Scan(s).value.1 + t))
    decreases |s|
  {
    hide CharLen, Unescape;
    if s[0] == QUOTE {
      assert (s + t)[1..] == s[1..] + t;
    } else if s[0] == BACKSLASH {
      var k := Unescape(s).value.1;
      UnescapeMore(s, t);
      assert (s + t)[k..] == s[k..] + t;
      ScanMore(s[k..], t);
    } else {
      var k := CharLen(s);
      CharLenMore(s, t);
      assert (s + t)[k..] == s[k..] + t && (s + t)[..k] == s[..k];
      ScanMore(s[k..], t);
    }
  }

  lemma {:induction false} ReadDigitsMore(n: nat, s: Text, t: Text)
    requires ReadDigits(n, s).1 != []
    ensures ReadDigits(n, s + t) == (ReadDigits(n, s).0, ReadDigits(n, s).1 + t)
    decreases |s|
  {
    if s != [] && IsDigit(s[0]) {
      assert (s + t)[1..] == s[1..] + t;
      ReadDigitsMore(10 * n + (s[0] - 48), s[1..], t);
    }
  }

  lemma ReadNatMore(s: Text, t: Text)
    requires ReadNat(s).Some? && ReadNat(s).value.1 != []
    ensures ReadNat(s + t) == Some((ReadNat(s).value.0, ReadNat(s).value.1 + t))
  {
    hide ReadDigits;
    if s[0] == 48 {
      assert (s + t)[1..] == s[1..] + t;
    } else {
      ReadDigitsMore(0, s, t);
    }
  }

  /** So is an integer, once something has followed it. */
  lemma ReadIntMore(s: Text, t: Text)
    requires ReadInt(s).Some? && ReadInt(s).value.1 != []
    ensures ReadInt(s + t) == Some((ReadInt(s).value.0, ReadInt(s).value.1 + t))
  {
    hide ReadDigits;
    if s[0] == 45 {
      assert (s + t)[1..] == s[1..] + t;
      ReadNatMore(s[1..], t);
    } else {
      ReadNatMore(s, t);
    }
  }

  lemma ExpectMore(lit: Text, s: Text, t: Text)
    requires Expect(lit, s).Some?
    ensures Expect(lit, s + t) == Some(Expect(lit, s).value + t)
  {
    assert (s + t)[|lit|..] == s[|lit|..] + t;
  }

  // ----- what is read is well-formed -----

  lemma {:induction false} ValidConcat(a: Text, b: Text)
    requires ValidUtf8(a) && ValidUtf8(b)
    ensures ValidUtf8(a + b)
    decreases |a|
  {
    hide CharLen;
    if a == [] {
      assert a + b == b;
    } else {
      var k := CharLen(a);
      CharLenMore(a, b);
      assert (a + b)[k..] == a[k..] + b;
      ValidConcat(a[k..], b);
    }
  }

  lemma CharValid(s: Text)
    requires CharLen(s) > 0
    ensures ValidUtf8(s[..CharLen(s)])
  {
    var k := CharLen(s);
    CharLenPrefix(s, []);
    assert s[..k] + [] == s[..k] && s[..k][k..] == [];
  }

  lemma EncodedValid(cp: nat)
    requires cp < 0x110000 && !(0xD800 <= cp < 0xE000)
    ensures ValidUtf8(EncodeUtf8(cp))
  {
    hide ValidUtf8;
    var s := EncodeUtf8(cp);
    assert CharLen(s) == |s|;
    CharValid(s);
    assert s[..|s|] == s;
  }

  lemma AsciiValid(c: Byte)
    requires c < 0x80
    ensures ValidUtf8([c])
  {
    assert [c][1..] == [];
  }

  lemma UnescapedValid(s: Text)
    requires Unescape(s).Some?
    ensures ValidUtf8(Unescape(s).value.0)
  {
    hide Hex4, EncodeUtf8, ValidUtf8;
    if s[1] == 117 {
      var cp := Hex4(s[2..]);
      if cp < 0xD800 || cp >= 0xE000 {
        EncodedValid(cp);
      } else {
        EncodedValid(0x10000 + (cp - 0xD800) * 1024 + (Hex4(s[8..]) - 0xDC00));
      }
    } else {
      AsciiValid(Unescape(s).value.0[0]);
      assert Unescape(s).value.0 == [Unescape(s).value.0[0]];
    }
  }

  /** A string that can be read is well-formed UTF-8, whatever escapes it was written with. */
  lemma {:induction false} ScanValid(s: Text)
    requires Scan(s).Some?
    ensures ValidUtf8(Scan(s).value.0)
    decreases |s|
  {
    hide CharLen, Unescape, ValidUtf8;
    if s[0] == QUOTE {
      assert ValidUtf8([]) by { NothingValid(); }
    } else if s[0] == BACKSLASH {
      var (value, k) := Unescape(s).value;
      UnescapedValid(s);
      ScanValid(s[k..]);
      ValidConcat(value, Scan(s[k..]).value.0);
    } else {
      var k := CharLen(s);
      CharValid(s);
      ScanValid(s[k..]);
      ValidConcat(s[..k], Scan(s[k..]).value.0);
    }
  }

  lemma NothingValid()
    ensures ValidUtf8([])
  {
  }
}
