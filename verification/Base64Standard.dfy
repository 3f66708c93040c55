/** The encoding in the words of section 4 of RFC 4648: its alphabet, its groups of three bytes and its two endings. */
module Base64Standard {
  import opened Bytes
  import opened Common
  import opened Base64
  import opened Json

  // ----- the alphabet -----

  function Capitals(): (r: string) ensures |r| == 26 { "ABCDEFGHIJKLMNOPQRSTUVWXYZ" }

  function Smalls(): (r: string) ensures |r| == 26 { "abcdefghijklmnopqrstuvwxyz" }

  function Others(): (r: string) ensures |r| == 12 { "0123456789+/" }

  lemma CapitalIs(v: nat)
    requires v < 26
    ensures Letter(v) == Capitals()[v] as int
  {
  }

  lemma SmallIs(v: nat)
    requires v < 26
    ensures Letter(26 + v) == Smalls()[v] as int
  {
  }

  lemma OtherIs(v: nat)
    requires v < 12
    ensures Letter(52 + v) == Others()[v] as int
  {
  }

  function Alphabet(): (r: string)
    ensures |r| == 64
  {
    Capitals() + Smalls() + Others()
  }

  /** Every value has its letter, in the order of the alphabet. */
  lemma LetterIs(v: nat)
    requires v < 64
    ensures Alphabet()[v] as int == Letter(v)
  {
    hide Letter, Capitals, Smalls, Others;
    if v < 26 {
      CapitalIs(v);
    } else if v < 52 {
      SmallIs(v - 26);
    } else {
      OtherIs(v - 52);
    }
  }

  // ----- bits in two parts -----

  lemma LowBit(v: nat, m: nat)
    ensures BitsOf(v, m + 1) == BitsOf(v / 2, m) + [v % 2 == 1]
  {
  }

  lemma SplitTwo(v: nat, m: nat)
    ensures BitsOf(v, m + 2) == BitsOf(v / 4, m) + BitsOf(v % 4, 2)
  {
    hide BitsOf;
    LowBit(v, m + 1);
    LowBit(v / 2, m);
    assert v / 2 / 2 == v / 4;
    var w := v % 4;
    LowBit(w, 1);
    LowBit(w / 2, 0);
    assert BitsOf(w / 2 / 2, 0) == [];
    assert w / 2 % 2 == v / 2 % 2 && w % 2 == v % 2;
  }

  lemma SplitFour(v: nat, m: nat)
    ensures BitsOf(v, m + 4) == BitsOf(v / 16, m) + BitsOf(v % 16, 4)
  {
    hide BitsOf;
    SplitTwo(v, m + 2);
    SplitTwo(v / 4, m);
    SplitTwo(v % 16, 2);
    assert v / 4 / 4 == v / 16 && v % 16 / 4 == v / 4 % 4 && v % 16 % 4 == v % 4;
    SplitTwo(v / 4 % 4, 0);
  }

  lemma SplitSix(v: nat, m: nat)
    ensures BitsOf(v, m + 6) == BitsOf(v / 64, m) + BitsOf(v % 64, 6)
  {
    hide BitsOf;
    SplitTwo(v, m + 4);
    SplitFour(v / 4, m);
    SplitTwo(v % 64, 4);
    assert v / 4 / 16 == v / 64 && v % 64 / 4 == v / 4 % 16 && v % 64 % 4 == v % 4;
  }

  lemma NoBits(n: nat)
    requires n <= 4
    ensures BitsOf(0, n) == Zeros(n)
  {
  }

  // ----- three bytes are four letters -----

  lemma ThreeBytes(a: Byte, b: Byte, c: Byte)
    ensures Concat([a, b, c], 8) == Concat([a / 4, a % 4 * 16 + b / 16, b % 16 * 4 + c / 64, c % 64], 6)
  {
    hide BitsOf, Concat;
    var p, q, r, s := a / 4, a % 4 * 16 + b / 16, b % 16 * 4 + c / 64, c % 64;
    ConcatThree(a, b, c, 8);
    ConcatFour(p, q, r, s, 6);
    SplitTwo(a, 6);
    SplitFour(b, 4);
    SplitSix(c, 2);
    SplitFour(q, 2);
    assert q / 16 == a % 4 && q % 16 == b / 16;
    SplitTwo(r, 4);
    assert r / 4 == b % 16 && r % 4 == c / 64;
  }

  lemma ConcatThree(a: nat, b: nat, c: nat, w: nat)
    ensures Concat([a, b, c], w) == BitsOf(a, w) + BitsOf(b, w) + BitsOf(c, w)
  {
    hide BitsOf, Concat;
    ConcatOne(a, w);
    ConcatSnoc([a], b, w);
    ConcatSnoc([a, b], c, w);
    assert [a] + [b] == [a, b] && [a, b] + [c] == [a, b, c];
  }

  lemma ConcatFour(a: nat, b: nat, c: nat, d: nat, w: nat)
    ensures Concat([a, b, c, d], w) == BitsOf(a, w) + BitsOf(b, w) + BitsOf(c, w) + BitsOf(d, w)
  {
    hide BitsOf, Concat;
    ConcatThree(a, b, c, w);
    ConcatSnoc([a, b, c], d, w);
    assert [a, b, c] + [d] == [a, b, c, d];
  }

  /** Bytes whose bits are those of these sextets are encoded as their letters, padded. */
  lemma EncodesAs(data: Text, vs: seq<nat>)
    requires Below(vs, 64) && FilledBits(data) == Concat(vs, 6)
    ensures EncodeSpec(data) == Letters(vs) + Padding(|vs|)
  {
    hide FilledBits, Concat, Regroup, Letters;
    assert Pow2(6) == 64;
    RegroupConcat(vs, 6);
  }

  lemma LettersCons(v: nat, vs: seq<nat>)
    requires v < 64 && Below(vs, 64)
    ensures Below([v] + vs, 64) && Letters([v] + vs) == [Letter(v)] + Letters(vs)
  {
    assert ([v] + vs)[1..] == vs;
  }

  lemma TwoLetters(p: nat, q: nat)
    requires p < 64 && q < 64
    ensures Letters([p, q]) == [Letter(p), Letter(q)]
  {
    hide Letter;
    LettersCons(q, []);
    LettersCons(p, [q]);
    assert [q] + [] == [q] && [p] + [q] == [p, q];
  }

  lemma ThreeLetters(p: nat, q: nat, r: nat)
    requires p < 64 && q < 64 && r < 64
    ensures Letters([p, q, r]) == [Letter(p), Letter(q), Letter(r)]
  {
    hide Letter, Letters;
    TwoLetters(q, r);
    LettersCons(p, [q, r]);
    assert [p] + [q, r] == [p, q, r];
  }

  lemma FourLetters(p: nat, q: nat, r: nat, s: nat)
    requires p < 64 && q < 64 && r < 64 && s < 64
    ensures Letters([p, q, r, s]) == [Letter(p), Letter(q), Letter(r), Letter(s)]
  {
    hide Letter, Letters;
    ThreeLetters(q, r, s);
    LettersCons(p, [q, r, s]);
    assert [p] + [q, r, s] == [p, q, r, s];
  }

  lemma FilledThree(a: Byte, b: Byte, c: Byte)
    ensures FilledBits([a, b, c]) == Concat([a, b, c], 8)
  {
    hide Concat, FilledBits;
    ConcatLength([a, b, c]);
    FillIs([a, b, c]);
    assert Fill(24) == 0;
    NoZeros(Concat([a, b, c], 8));
  }

  /** A whole group: the four letters at the four quarters of its 24 bits. */
  lemma EncodeThree(a: Byte, b: Byte, c: Byte)
    ensures EncodeSpec([a, b, c])
         == [Letter(a / 4), Letter(a % 4 * 16 + b / 16), Letter(b % 16 * 4 + c / 64), Letter(c % 64)]
  {
    hide Concat, FilledBits, EncodeSpec, Letter, Letters;
    ThreeBytes(a, b, c);
    FilledThree(a, b, c);
    EncodesAs([a, b, c], [a / 4, a % 4 * 16 + b / 16, b % 16 * 4 + c / 64, c % 64]);
    FourLetters(a / 4, a % 4 * 16 + b / 16, b % 16 * 4 + c / 64, c % 64);
    assert Padding(4) == [];
  }

  /** Two bytes at the end: three letters and one sign. */
  lemma EncodeTwo(a: Byte, b: Byte)
    ensures EncodeSpec([a, b])
         == [Letter(a / 4), Letter(a % 4 * 16 + b / 16), Letter(b % 16 * 4)] + Ascii("=")
  {
    hide BitsOf, Concat, EncodeSpec, Letter, Letters;
    var q, r := a % 4 * 16 + b / 16, b % 16 * 4;
    var vs: seq<nat> := [a / 4, q, r];
    ConcatOne(a, 8);
    ConcatSnoc([a], b, 8);
    assert [a] + [b] == [a, b];
    ConcatThree(a / 4, q, r, 6);
    SplitTwo(a, 6);
    SplitFour(b, 4);
    SplitFour(q, 2);
    assert q / 16 == a % 4 && q % 16 == b / 16;
    SplitTwo(r, 4);
    assert r / 4 == b % 16 && r % 4 == 0;
    NoBits(2);
    assert FilledBits([a, b]) == Concat(vs, 6);
    EncodesAs([a, b], vs);
    ThreeLetters(a / 4, q, r);
    assert Padding(3) == Ascii("=");
  }

  /** One byte at the end: two letters and two signs. */
  lemma EncodeOne(a: Byte)
    ensures EncodeSpec([a]) == [Letter(a / 4), Letter(a % 4 * 16)] + Ascii("==")
  {
    hide BitsOf, Concat, EncodeSpec, Letter, Letters;
    var q := a % 4 * 16;
    var vs: seq<nat> := [a / 4, q];
    ConcatOne(a, 8);
    ConcatOne(a / 4, 6);
    ConcatSnoc([a / 4], q, 6);
    assert [a / 4] + [q] == [a / 4, q];
    SplitTwo(a, 6);
    SplitFour(q, 2);
    assert q / 16 == a % 4 && q % 16 == 0;
    NoBits(4);
    assert FilledBits([a]) == Concat(vs, 6);
    EncodesAs([a], vs);
    TwoLetters(a / 4, q);
    assert Padding(2) == Ascii("==");
  }

  lemma EncodeNothing()
    ensures EncodeSpec([]) == []
  {
    EncodesAs([], []);
  }

  /** The values of the groups of six bits. */
  function Groups(data: Text): (r: seq<nat>)
    ensures Below(r, 64)
  {
    assert Pow2(6) == 64;
    Regroup(FilledBits(data), 6)
  }

  lemma SpecIs(data: Text)
    ensures EncodeSpec(data) == Letters(Groups(data)) + Padding(|Groups(data)|)
  {
    hide Regroup, Letters, FilledBits;
  }

  lemma GroupsAppend(x: Text, y: Text)
    requires |x| % 3 == 0
    ensures Groups(x + y) == Groups(x) + Groups(y) && |Groups(x)| % 4 == 0
  {
    hide Regroup, FilledBits, Whole;
    BitsAppend(x, y);
    RegroupAppend(FilledBits(x), FilledBits(y), 6);
    RegroupLength(FilledBits(x));
    ByTwentyFour(|FilledBits(x)|);
  }

  lemma ByTwentyFour(n: nat)
    requires n % 24 == 0
    ensures n / 6 % 4 == 0
  {
    var k := n / 24;
    assert n == 24 * k;
    assert n / 6 == 4 * k;
  }

  /** Groups of three bytes are encoded one after the other. */
  lemma EncodeAppend(x: Text, y: Text)
    requires |x| % 3 == 0
    ensures EncodeSpec(x + y) == EncodeSpec(x) + EncodeSpec(y)
  {
    hide EncodeSpec, Groups, Letters, Padding;
    SpecIs(x);
    SpecIs(y);
    SpecIs(x + y);
    GroupsAppend(x, y);
    LettersAppend(Groups(x), Groups(y));
    PaddingAppend(|Groups(x)|, |Groups(y)|);
  }

  /** How many zeros fill `n` bits up. */
  function Fill(n: nat): nat { (6 - n % 6) % 6 }

  lemma FillIs(data: Text)
    ensures FilledBits(data) == Concat(data, 8) + Zeros(Fill(|Concat(data, 8)|))
  {
    hide Concat;
  }

  lemma FillByThree(n: nat, m: nat)
    requires n % 3 == 0
    ensures Fill(8 * n) == 0 && Fill(8 * n + m) == Fill(m) && 8 * n % 6 == 0 && 8 * n % 24 == 0
  {
    var k := n / 3;
    assert 8 * n == 24 * k;
    SixTimes(4 * k, m);
    SixTimes(4 * k, 0);
  }

  lemma SixTimes(k: nat, m: nat)
    ensures (6 * k + m) % 6 == m % 6
  {
  }

  lemma NoZeros(b: Bits)
    ensures b + Zeros(0) == b
  {
  }

  lemma BitsAppend(x: Text, y: Text)
    requires |x| % 3 == 0
    ensures FilledBits(x + y) == FilledBits(x) + FilledBits(y)
    ensures Whole(|FilledBits(x)|, 6) && |FilledBits(x)| % 24 == 0
  {
    hide Concat, Whole, Fill, FilledBits;
    ConcatLength(x);
    ConcatLength(y);
    ConcatAppend(x, y, 8);
    FillIs(x);
    FillIs(y);
    FillIs(x + y);
    FillByThree(|x|, |Concat(y, 8)|);
    MultipleOfSixIsWhole(|Concat(x, 8)|);
    NoZeros(Concat(x, 8));
  }

  lemma PaddingAppend(m: nat, n: nat)
    requires m % 4 == 0
    ensures Padding(m) == [] && Padding(m + n) == Padding(n)
  {
  }

  lemma {:induction false} ConcatLength(xs: seq<nat>)
    ensures |Concat(xs, 8)| == 8 * |xs|
  {
    hide BitsOf;
    if xs != [] {
      ConcatLength(xs[..|xs| - 1]);
    }
  }

  lemma {:induction false} RegroupLength(b: Bits)
    ensures |Regroup(b, 6)| == |b| / 6
  {
    hide ValueOf;
    if |b| >= 6 {
      RegroupLength(b[6..]);
    }
  }

  // ----- back -----

  /** Any four letters are three bytes. */
  lemma DecodeFour(p: nat, q: nat, r: nat, s: nat)
    requires p < 64 && q < 64 && r < 64 && s < 64
    ensures DecodeSpec([Letter(p), Letter(q), Letter(r), Letter(s)])
         == [p * 4 + q / 16, q % 16 * 16 + r / 4, r % 4 * 64 + s]
  {
    hide EncodeSpec, DecodeSpec, Letter;
    var a, b, c := p * 4 + q / 16, q % 16 * 16 + r / 4, r % 4 * 64 + s;
    EncodeThree(a, b, c);
    assert a / 4 == p && a % 4 == q / 16 && b / 16 == q % 16 && b % 16 == r / 4 && c / 64 == r % 4 && c % 64 == s;
    RoundTrip([a, b, c]);
  }

  /** Bits that are those of these bytes, but for fewer than eight at the end, are decoded as the bytes. */
  lemma DecodesAs(vs: seq<nat>, data: Text, dropped: Bits)
    requires Below(vs, 64) && Concat(vs, 6) == Concat(data, 8) + dropped && |dropped| < 8
    ensures DecodeSpec(Letters(vs)) == data
  {
    hide Concat, Regroup, Letters, Sextets, Whole;
    assert Pow2(8) == 256;
    SextetsOfLetters(vs, []);
    assert Letters(vs) + [] == Letters(vs);
    ConcatWhole(data, 8);
    RegroupAppend(Concat(data, 8), dropped, 8);
    RegroupShort(dropped, 8);
    RegroupConcat(data, 8);
    assert data + [] == data;
  }

  /** Three letters at the end are two bytes; the low two bits of the last one are not looked at. */
  lemma DecodeThree(p: nat, q: nat, r: nat)
    requires p < 64 && q < 64 && r < 64
    ensures DecodeSpec([Letter(p), Letter(q), Letter(r)]) == [p * 4 + q / 16, q % 16 * 16 + r / 4]
  {
    hide BitsOf, Concat, DecodeSpec, Letter, Letters;
    var a, b := p * 4 + q / 16, q % 16 * 16 + r / 4;
    TwoBytes(a, b);
    ConcatThree(p, q, r, 6);
    SplitTwo(a, 6);
    SplitFour(b, 4);
    SplitFour(q, 2);
    SplitTwo(r, 4);
    assert a / 4 == p && a % 4 == q / 16 && b / 16 == q % 16 && b % 16 == r / 4;
    ThreeLetters(p, q, r);
    DecodesAs([p, q, r], [a, b], BitsOf(r % 4, 2));
  }

  lemma TwoBytes(a: nat, b: nat)
    ensures Concat([a, b], 8) == BitsOf(a, 8) + BitsOf(b, 8)
  {
    hide BitsOf, Concat;
    ConcatOne(a, 8);
    ConcatSnoc([a], b, 8);
    assert [a] + [b] == [a, b];
  }

  lemma TwoSextets(p: nat, q: nat)
    ensures Concat([p, q], 6) == BitsOf(p, 6) + BitsOf(q, 6)
  {
    hide BitsOf, Concat;
    ConcatOne(p, 6);
    ConcatSnoc([p], q, 6);
    assert [p] + [q] == [p, q];
  }

  /** Two letters at the end are one byte; a single one is none. */
  lemma DecodeTwo(p: nat, q: nat)
    requires p < 64 && q < 64
    ensures DecodeSpec([Letter(p), Letter(q)]) == [p * 4 + q / 16]
  {
    hide BitsOf, Concat, DecodeSpec, Letter, Letters;
    var a := p * 4 + q / 16;
    ConcatOne(a, 8);
    TwoSextets(p, q);
    SplitTwo(a, 6);
    SplitFour(q, 2);
    assert a / 4 == p && a % 4 == q / 16;
    TwoLetters(p, q);
    DecodesAs([p, q], [a], BitsOf(q % 16, 4));
  }

  lemma DecodeOne(p: nat)
    requires p < 64
    ensures DecodeSpec([Letter(p)]) == [] && DecodeSpec([]) == []
  {
    hide BitsOf, DecodeSpec, Letter;
    ConcatOne(p, 6);
    LettersCons(p, []);
    assert [p] + [] == [p];
    assert [] + BitsOf(p, 6) == BitsOf(p, 6);
    assert Letters([p]) == [Letter(p)];
    DecodesAs([p], [], BitsOf(p, 6));
    DecodesAs([], [], []);
    assert Letters([]) == [];
  }

  lemma {:induction false} SextetsLength(xs: seq<nat>)
    ensures |Concat(xs, 6)| == 6 * |xs|
  {
    hide BitsOf;
    if xs != [] {
      SextetsLength(xs[..|xs| - 1]);
    }
  }

  lemma {:induction false} FoursAreWhole(k: nat)
    ensures Whole(24 * k, 8)
  {
    if k != 0 {
      FoursAreWhole(k - 1);
      assert Whole(0, 8) && Whole(8, 8) && Whole(16, 8) && Whole(24, 8);
      WholeSum(24, 24 * (k - 1), 8);
      assert 24 + 24 * (k - 1) == 24 * k;
    }
  }

  lemma Quarter(n: nat) returns (k: nat)
    requires n % 4 == 0
    ensures n == 4 * k
  {
    k := n / 4;
  }

  lemma DecodeLetters(vs: seq<nat>)
    requires Below(vs, 64)
    ensures DecodeSpec(Letters(vs)) == Regroup(Concat(vs, 6), 8)
  {
    hide Concat, Regroup, Letters, Sextets;
    assert Pow2(8) == 256;
    SextetsOfLetters(vs, []);
    assert Letters(vs) + [] == Letters(vs);
  }

  /** Groups of four letters are decoded one after the other. */
  lemma DecodeAppend(us: seq<nat>, vs: seq<nat>)
    requires Below(us, 64) && Below(vs, 64) && |us| % 4 == 0
    ensures DecodeSpec(Letters(us) + Letters(vs)) == DecodeSpec(Letters(us)) + DecodeSpec(Letters(vs))
  {
    hide Concat, Regroup, Letters, DecodeSpec, Whole;
    LettersAppend(us, vs);
    DecodeLetters(us);
    DecodeLetters(vs);
    DecodeLetters(us + vs);
    SextetsLength(us);
    var k := Quarter(|us|);
    FoursAreWhole(k);
    ConcatAppend(us, vs, 6);
    RegroupAppend(Concat(us, 6), Concat(vs, 6), 8);
  }

  /** Nothing from the first byte on that is not in the alphabet is looked at. */
  lemma DecodeStops(vs: seq<nat>, c: Byte, rest: Text)
    requires Below(vs, 64)
    requires forall v :: 0 <= v < 64 ==> Alphabet()[v] as int != c
    ensures DecodeSpec(Letters(vs) + ([c] + rest)) == DecodeSpec(Letters(vs))
  {
    hide Letter, Letters, Sextets, Alphabet, Concat, Regroup;
    assert Sextet(c) == -1 by {
      if Sextet(c) >= 0 {
        LetterIs(Sextet(c));
        assert false;
      }
    }
    SextetsOfLetters(vs, [c] + rest);
    SextetsOfLetters(vs, []);
    assert Letters(vs) + [] == Letters(vs);
  }
}
