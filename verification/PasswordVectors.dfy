/** The password hash measured from outside: which way it rotates, how it prints, and the digests of given passwords. */
module PasswordVectors {
  import opened Bytes
  import opened Words
  import opened PasswordHasher
  import opened Json

  // ----- the rotation -----

  predicate Bit(v: bv32, k: bv32)
    requires k < 32
  {
    (v >> k) & 1 == 1
  }

  /** Bit k goes to bit k + s, and those that would leave at the high end come back at the low end. */
  lemma RotateLeft5(v: bv32, k: bv32)
    requires k < 32
    ensures Bit(RotateLeft(v, 5), (k + 5) % 32) <==> Bit(v, k)
  {
  }

  lemma RotateLeft7(v: bv32, k: bv32)
    requires k < 32
    ensures Bit(RotateLeft(v, 7), (k + 7) % 32) <==> Bit(v, k)
  {
  }

  lemma RotateLeft11(v: bv32, k: bv32)
    requires k < 32
    ensures Bit(RotateLeft(v, 11), (k + 11) % 32) <==> Bit(v, k)
  {
  }

  lemma RotateLeft13(v: bv32, k: bv32)
    requires k < 32
    ensures Bit(RotateLeft(v, 13), (k + 13) % 32) <==> Bit(v, k)
  {
  }

  lemma RotateLeft17(v: bv32, k: bv32)
    requires k < 32
    ensures Bit(RotateLeft(v, 17), (k + 17) % 32) <==> Bit(v, k)
  {
  }

  // ----- the digits -----

  /** The value of a lower-case hexadecimal digit. */
  function DigitValue(c: Byte): bv32 {
    match c
    case 48 => 0 case 49 => 1 case 50 => 2 case 51 => 3 case 52 => 4
    case 53 => 5 case 54 => 6 case 55 => 7 case 56 => 8 case 57 => 9
    case 97 => 10 case 98 => 11 case 99 => 12 case 100 => 13 case 101 => 14 case 102 => 15
    case _ => 0
  }

  predicate IsLowerHex(c: Byte) { 48 <= c <= 57 || 97 <= c <= 102 }

  function Horner(n: bv32, d: bv32): bv32 { n * 16 + d }

  /** The number that the digits write, high digit first, modulo 2^32. */
  function ReadHex(s: Text): bv32 {
    if s == [] then 0 else Horner(ReadHex(s[..|s| - 1]), DigitValue(s[|s| - 1]))
  }

  lemma NibbleReads(n: bv4)
    ensures DigitValue(NibbleDigit(n)) == n as bv32 && IsLowerHex(NibbleDigit(n))
  {
  }

  lemma ReadMore(s: Text, c: Byte)
    ensures ReadHex(s + [c]) == Horner(ReadHex(s), DigitValue(c))
  {
    hide DigitValue, Horner;
    assert (s + [c])[..|s|] == s;
  }

  /** Eight digits by Horner's rule. */
  function Eight(a: bv32, b: bv32, c: bv32, d: bv32, e: bv32, f: bv32, g: bv32, h: bv32): bv32 {
    Horner(Horner(Horner(Horner(Horner(Horner(Horner(Horner(0, a), b), c), d), e), f), g), h)
  }

  lemma ReadEight(a: Byte, b: Byte, c: Byte, d: Byte, e: Byte, f: Byte, g: Byte, h: Byte)
    ensures ReadHex([a, b, c, d, e, f, g, h])
         == Eight(DigitValue(a), DigitValue(b), DigitValue(c), DigitValue(d),
                  DigitValue(e), DigitValue(f), DigitValue(g), DigitValue(h))
  {
    hide DigitValue, ReadHex, Horner;
    ReadNothing();
    ReadMore([], a);
    ReadMore([a], b);
    ReadMore([a, b], c);
    ReadMore([a, b, c], d);
    ReadMore([a, b, c, d], e);
    ReadMore([a, b, c, d, e], f);
    ReadMore([a, b, c, d, e, f], g);
    ReadMore([a, b, c, d, e, f, g], h);
    assert [a, b, c, d, e, f, g] + [h] == [a, b, c, d, e, f, g, h];
    assert [a, b, c, d, e, f] + [g] == [a, b, c, d, e, f, g];
    assert [a, b, c, d, e] + [f] == [a, b, c, d, e, f];
    assert [a, b, c, d] + [e] == [a, b, c, d, e];
    assert [a, b, c] + [d] == [a, b, c, d] && [a, b] + [c] == [a, b, c];
    assert [a] + [b] == [a, b] && [] + [a] == [a];
  }

  lemma ReadNothing()
    ensures ReadHex([]) == 0
  {
  }

  lemma NibblesJoin(w: bv32)
    ensures Eight(Nibble(w, 28) as bv32, Nibble(w, 24) as bv32, Nibble(w, 20) as bv32, Nibble(w, 16) as bv32,
                  Nibble(w, 12) as bv32, Nibble(w, 8) as bv32, Nibble(w, 4) as bv32, Nibble(w, 0) as bv32) == w
  {
  }

  /** A word is printed as the eight lower-case digits that write it. */
  lemma HexWordReads(w: bv32)
    ensures ReadHex(HexWord(w)) == w
    ensures forall i :: 0 <= i < 8 ==> IsLowerHex(HexWord(w)[i])
  {
    hide DigitValue, NibbleDigit, Nibble, ReadHex, IsLowerHex, Eight;
    ReadEight(NibbleDigit(Nibble(w, 28)), NibbleDigit(Nibble(w, 24)), NibbleDigit(Nibble(w, 20)),
              NibbleDigit(Nibble(w, 16)), NibbleDigit(Nibble(w, 12)), NibbleDigit(Nibble(w, 8)),
              NibbleDigit(Nibble(w, 4)), NibbleDigit(Nibble(w, 0)));
    NibbleReads(Nibble(w, 28));
    NibbleReads(Nibble(w, 24));
    NibbleReads(Nibble(w, 20));
    NibbleReads(Nibble(w, 16));
    NibbleReads(Nibble(w, 12));
    NibbleReads(Nibble(w, 8));
    NibbleReads(Nibble(w, 4));
    NibbleReads(Nibble(w, 0));
    NibblesJoin(w);
  }

  /** The digest is the four words, first to last. */
  lemma PrintReads(s: State)
    ensures |Print(s)| == 32
    ensures ReadHex(Print(s)[..8]) == s.h0 && ReadHex(Print(s)[8..16]) == s.h1
    ensures ReadHex(Print(s)[16..24]) == s.h2 && ReadHex(Print(s)[24..]) == s.h3
  {
    hide HexWord, ReadHex;
    PrintParts(s);
    assert Print(s)[24..] == Print(s)[24..32];
    HexWordReads(s.h0);
    HexWordReads(s.h1);
    HexWordReads(s.h2);
    HexWordReads(s.h3);
  }

  // ----- digests -----

  lemma MixEmpty()
    ensures Mix(State(0x6A09E667, 0xBB67AE85, 0x3C6EF372, 0xA54FF53A))
         == State(0xC3F74133, 0xC58F88FD, 0x8D9FECCA, 0x16B26C6B)
  {
  }

  lemma OctetIs(b: bv8)
    ensures Octet(b as int) == b
  {
    CastBack(b);
  }

  lemma AbsorbA()
    ensures Absorb(State(0x6A09E667, 0xBB67AE85, 0x3C6EF372, 0xA54FF53A), 97)
         == State(0xAEEC44A5, 0xFD887A5D, 0x4F12818D, 0x3A839015)
  {
  }

  lemma MixA()
    ensures Mix(State(0xAEEC44A5, 0xFD887A5D, 0x4F12818D, 0x3A839015))
         == State(0xFE9E4602, 0x2E40BA02, 0x8705C1C8, 0xDA3BA905)
  {
  }

  lemma AbsorbHigh()
    ensures Absorb(State(0x6A09E667, 0xBB67AE85, 0x3C6EF372, 0xA54FF53A), 255)
         == State(0x809FBDA5, 0x5ED07B90, 0x4F2B35E6, 0x011A1724)
    ensures Absorb(State(0x809FBDA5, 0x5ED07B90, 0x4F2B35E6, 0x011A1724), 97)
         == State(0xADCAAE40, 0x74E60149, 0x38A29EC8, 0x660DC531)
  {
  }

  lemma MixHigh()
    ensures Mix(State(0xADCAAE40, 0x74E60149, 0x38A29EC8, 0x660DC531))
         == State(0x6C72086C, 0xFAA70CC4, 0x6C430657, 0xEE6D0FDC)
  {
  }

  lemma WordNothing0()
    ensures HexWord(0xC3F74133) == [99, 51, 102, 55, 52, 49, 51, 51]
  {
  }

  lemma WordNothing1()
    ensures HexWord(0xC58F88FD) == [99, 53, 56, 102, 56, 56, 102, 100]
  {
  }

  lemma WordNothing2()
    ensures HexWord(0x8D9FECCA) == [56, 100, 57, 102, 101, 99, 99, 97]
  {
  }

  lemma WordNothing3()
    ensures HexWord(0x16B26C6B) == [49, 54, 98, 50, 54, 99, 54, 98]
  {
  }

  lemma PrintNothing()
    ensures Print(State(0xC3F74133, 0xC58F88FD, 0x8D9FECCA, 0x16B26C6B)) == Ascii("c3f74133c58f88fd8d9fecca16b26c6b")
  {
    hide HexWord;
    WordNothing0();
    WordNothing1();
    WordNothing2();
    WordNothing3();
  }

  lemma WordA0()
    ensures HexWord(0xFE9E4602) == [102, 101, 57, 101, 52, 54, 48, 50]
  {
  }

  lemma WordA1()
    ensures HexWord(0x2E40BA02) == [50, 101, 52, 48, 98, 97, 48, 50]
  {
  }

  lemma WordA2()
    ensures HexWord(0x8705C1C8) == [56, 55, 48, 53, 99, 49, 99, 56]
  {
  }

  lemma WordA3()
    ensures HexWord(0xDA3BA905) == [100, 97, 51, 98, 97, 57, 48, 53]
  {
  }

  lemma PrintA()
    ensures Print(State(0xFE9E4602, 0x2E40BA02, 0x8705C1C8, 0xDA3BA905)) == Ascii("fe9e46022e40ba028705c1c8da3ba905")
  {
    hide HexWord;
    WordA0();
    WordA1();
    WordA2();
    WordA3();
  }

  lemma WordHigh0()
    ensures HexWord(0x6C72086C) == [54, 99, 55, 50, 48, 56, 54, 99]
  {
  }

  lemma WordHigh1()
    ensures HexWord(0xFAA70CC4) == [102, 97, 97, 55, 48, 99, 99, 52]
  {
  }

  lemma WordHigh2()
    ensures HexWord(0x6C430657) == [54, 99, 52, 51, 48, 54, 53, 55]
  {
  }

  lemma WordHigh3()
    ensures HexWord(0xEE6D0FDC) == [101, 101, 54, 100, 48, 102, 100, 99]
  {
  }

  lemma PrintHigh()
    ensures Print(State(0x6C72086C, 0xFAA70CC4, 0x6C430657, 0xEE6D0FDC)) == Ascii("6c72086cfaa70cc46c430657ee6d0fdc")
  {
    hide HexWord;
    WordHigh0();
    WordHigh1();
    WordHigh2();
    WordHigh3();
  }

  /** The digest of the empty password: the start words, the final mix and the digits. */
  lemma DigestOfNothing()
    ensures HashOf([]) == Ascii("c3f74133c58f88fd8d9fecca16b26c6b")
  {
    hide Mix, Print;
    MixEmpty();
    PrintNothing();
  }

  lemma OneRound(s: State, c: Byte, b: bv8)
    requires Octet(c) == b
    ensures AbsorbAll(s, [c]) == Absorb(s, b)
  {
    hide Absorb, Octet;
    assert [c][1..] == [];
  }

  /** The digest of "a": one round. */
  lemma DigestOfA()
    ensures HashOf(Ascii("a")) == Ascii("fe9e46022e40ba028705c1c8da3ba905")
  {
    hide Mix, Absorb, AbsorbAll, Print;
    assert Ascii("a") == [97];
    OctetIs(97);
    OneRound(INITIAL, 97, 97);
    AbsorbA();
    MixA();
    PrintA();
  }

  /** The digest of the bytes 255 and 97: no sign extension, and the order of the bytes. */
  lemma DigestOfHighByte()
    ensures HashOf([255, 97]) == Ascii("6c72086cfaa70cc46c430657ee6d0fdc")
  {
    hide Mix, Absorb, AbsorbAll, Print;
    OctetIs(255);
    OctetIs(97);
    TwoRounds(INITIAL);
    AbsorbHigh();
    MixHigh();
    PrintHigh();
  }

  lemma TwoRounds(s: State)
    requires Octet(255) == 255 && Octet(97) == 97
    ensures AbsorbAll(s, [255, 97]) == Absorb(Absorb(s, 255), 97)
  {
    hide Absorb, Octet;
    assert [255 as Byte, 97][1..] == [97];
    OneRound(Absorb(s, 255), 97, 97);
  }
}
