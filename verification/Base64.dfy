/** Base64 (section 4 of RFC 4648): the bit accumulators of the source against plain bit regrouping. */
module Base64 {
  import opened Bytes
  import opened Common

  // ----- bits -----

  type Bits = seq<bool>

  /** The low `w` bits of `v`, high bit first. */
  function BitsOf(v: nat, w: nat): (r: Bits)
    ensures |r| == w
    decreases w
  {
    if w == 0 then [] else BitsOf(v / 2, w - 1) + [v % 2 == 1]
  }

  function ValueOf(b: Bits): (r: nat)
    ensures r < Pow2(|b|)
  {
    if b == [] then 0 else 2 * ValueOf(b[..|b| - 1]) + (if b[|b| - 1] then 1 else 0)
  }

  /** Concatenate the `w`-bit forms of the values. */
  function Concat(xs: seq<nat>, w: nat): Bits {
    if xs == [] then [] else Concat(xs[..|xs| - 1], w) + BitsOf(xs[|xs| - 1], w)
  }

  ghost predicate Below(xs: seq<nat>, bound: nat) {
    forall i :: 0 <= i < |xs| ==> xs[i] < bound
  }

  /** Cut the bits into groups of `w`; an incomplete last group is dropped. */
  function Regroup(b: Bits, w: nat): (r: seq<nat>)
    requires w > 0
    ensures Below(r, Pow2(w))
  {
    if |b| < w then [] else [ValueOf(b[..w])] + Regroup(b[w..], w)
  }

  function Zeros(n: nat): (r: Bits)
    ensures |r| == n
  {
    seq(n, _ => false)
  }

  /** `n` is a number of whole groups of `w`. */
  ghost predicate Whole(n: nat, w: nat)
    requires w > 0
  {
    n == 0 || (n >= w && Whole(n - w, w))
  }

  lemma {:induction false} ValueOfBits(v: nat, w: nat)
    requires v < Pow2(w)
    ensures ValueOf(BitsOf(v, w)) == v
    decreases w
  {
    if w != 0 {
      ValueOfBits(v / 2, w - 1);
      assert BitsOf(v, w)[..w - 1] == BitsOf(v / 2, w - 1);
    }
  }

  lemma {:induction false} BitsOfValue(b: Bits)
    ensures BitsOf(ValueOf(b), |b|) == b
  {
    if b != [] {
      BitsOfValue(b[..|b| - 1]);
      assert b == b[..|b| - 1] + [b[|b| - 1]];
    }
  }

  lemma ValueSnoc(a: Bits, bit: bool)
    ensures ValueOf(a + [bit]) == 2 * ValueOf(a) + (if bit then 1 else 0)
  {
    assert (a + [bit])[..|a|] == a;
  }

  lemma DoubleRight(v: nat, p: nat)
    ensures v * (2 * p) == 2 * (v * p)
  {
  }

  lemma {:induction false} ValueSplit(a: Bits, b: Bits)
    ensures ValueOf(a + b) == ValueOf(a) * Pow2(|b|) + ValueOf(b)
  {
    if b == [] {
      assert a + b == a;
    } else {
      var c, bit := b[..|b| - 1], b[|b| - 1];
      assert b == c + [bit] && a + b == (a + c) + [bit];
      ValueSplit(a, c);
      ValueSnoc(c, bit);
      ValueSnoc(a + c, bit);
      DoubleRight(ValueOf(a), Pow2(|c|));
    }
  }

  lemma {:induction false} WholeSum(m: nat, n: nat, w: nat)
    requires w > 0 && Whole(m, w) && Whole(n, w)
    ensures Whole(m + n, w)
  {
    if m != 0 {
      WholeSum(m - w, n, w);
    }
  }

  lemma {:induction false} ConcatWhole(xs: seq<nat>, w: nat)
    requires w > 0
    ensures Whole(|Concat(xs, w)|, w)
  {
    if xs != [] {
      ConcatWhole(xs[..|xs| - 1], w);
      assert Whole(0, w) && Whole(w, w);
      WholeSum(|Concat(xs[..|xs| - 1], w)|, w, w);
    }
  }

  lemma {:induction false} RegroupAppend(a: Bits, b: Bits, w: nat)
    requires w > 0 && Whole(|a|, w)
    ensures Regroup(a + b, w) == Regroup(a, w) + Regroup(b, w)
  {
    if a == [] {
      assert a + b == b;
    } else {
      assert (a + b)[..w] == a[..w] && (a + b)[w..] == a[w..] + b;
      RegroupAppend(a[w..], b, w);
    }
  }

  lemma ConcatSnoc(xs: seq<nat>, x: nat, w: nat)
    ensures Concat(xs + [x], w) == Concat(xs, w) + BitsOf(x, w)
  {
    assert (xs + [x])[..|xs|] == xs;
  }

  lemma {:induction false} ConcatAppend(xs: seq<nat>, ys: seq<nat>, w: nat)
    ensures Concat(xs + ys, w) == Concat(xs, w) + Concat(ys, w)
  {
    if ys == [] {
      assert xs + ys == xs;
    } else {
      var zs, y := ys[..|ys| - 1], ys[|ys| - 1];
      assert ys == zs + [y] && xs + ys == (xs + zs) + [y];
      ConcatAppend(xs, zs, w);
      ConcatSnoc(zs, y, w);
      ConcatSnoc(xs + zs, y, w);
    }
  }

  lemma RegroupShort(b: Bits, w: nat)
    requires |b| < w
    ensures Regroup(b, w) == []
  {
  }

  lemma RegroupOne(b: Bits)
    requires b != []
    ensures Regroup(b, |b|) == [ValueOf(b)]
  {
    assert b[..|b|] == b;
  }

  /** Cutting at the width the bits were joined with gives the values back. */
  lemma {:induction false} RegroupConcat(xs: seq<nat>, w: nat)
    requires w > 0 && Below(xs, Pow2(w))
    ensures Regroup(Concat(xs, w), w) == xs
  {
    hide BitsOf, ValueOf, Regroup;
    if xs == [] {
      RegroupShort([], w);
    } else {
      var ys, x := xs[..|xs| - 1], xs[|xs| - 1];
      RegroupConcat(ys, w);
      ConcatWhole(ys, w);
      RegroupAppend(Concat(ys, w), BitsOf(x, w), w);
      ValueOfBits(x, w);
      RegroupOne(BitsOf(x, w));
      assert xs == ys + [x];
    }
  }

  lemma ConcatOne(x: nat, w: nat)
    ensures Concat([x], w) == BitsOf(x, w)
  {
    assert [x][..0] == [];
    assert Concat([], w) == [];
  }

  lemma RegroupFirst(b: Bits, w: nat)
    requires w > 0
    ensures |b| >= w ==> Regroup(b, w) == [ValueOf(b[..w])] + Regroup(b[w..], w)
    ensures Regroup([], w) == [] && Concat([], w) == []
  {
  }

  /** Joining what was cut gives the bits back when nothing was dropped. */
  lemma {:induction false} ConcatRegroup(b: Bits, w: nat)
    requires w > 0 && Whole(|b|, w)
    ensures Concat(Regroup(b, w), w) == b
  {
    hide BitsOf, ValueOf, Regroup, Concat;
    RegroupFirst(b, w);
    if b != [] {
      var g, rest := b[..w], b[w..];
      ConcatRegroup(rest, w);
      ConcatAppend([ValueOf(g)], Regroup(rest, w), w);
      ConcatOne(ValueOf(g), w);
      BitsOfValue(g);
      assert b == g + rest;
    }
  }

  lemma {:induction false} MultipleOfSixIsWhole(n: nat)
    requires n % 6 == 0
    ensures Whole(n, 6)
  {
    if n != 0 {
      MultipleOfSixIsWhole(n - 6);
    }
  }

  // ----- the alphabet -----

  /** `s_Chars`: A-Z, a-z, 0-9, plus and slash. */
  function Letter(v: nat): Byte
    requires v < 64
  {
    if v < 26 then 65 + v else if v < 52 then 97 + (v - 26) else if v < 62 then 48 + (v - 52)
    else if v == 62 then 43 else 47
  }

  const PAD: Byte := 61

  /** The value of a letter, or -1: the content of the decoding table. */
  function Sextet(c: Byte): (r: int)
    ensures -1 <= r < 64
    ensures r >= 0 ==> Letter(r) == c
  {
    if 65 <= c <= 90 then c - 65 else if 97 <= c <= 122 then c - 97 + 26
    else if 48 <= c <= 57 then c - 48 + 52 else if c == 43 then 62 else if c == 47 then 63 else -1
  }

  function Letters(vs: seq<nat>): (r: Text)
    requires Below(vs, 64)
    ensures |r| == |vs|
  {
    if vs == [] then [] else [Letter(vs[0])] + Letters(vs[1..])
  }

  // ----- the plain specification -----

  function Padding(n: nat): Text { seq((4 - n % 4) % 4, _ => PAD) }

  /** The bits of the bytes, filled up with zeros to a multiple of six. */
  function FilledBits(data: Text): Bits {
    var bits := Concat(data, 8);
    bits + Zeros((6 - |bits| % 6) % 6)
  }

  lemma FilledBitsWhole(data: Text)
    ensures Whole(|FilledBits(data)|, 6)
  {
    hide Concat;
    MultipleOfSixIsWhole(|FilledBits(data)|);
  }

  /** Cut the filled bits by six, take a letter for each group, pad the text to a multiple of four. */
  function EncodeSpec(data: Text): Text {
    assert Pow2(6) == 64;
    var letters := Letters(Regroup(FilledBits(data), 6));
    letters + Padding(|letters|)
  }

  /** Appending pads until the length is a multiple of four appends exactly the padding. */
  lemma PaddingStep(len: nat, n: nat)
    requires n <= |Padding(len)| && (len + n) % 4 != 0
    ensures n + 1 <= |Padding(len)| <= 3
    ensures seq(n, _ => PAD) + [PAD] == seq(n + 1, _ => PAD)
  {
  }

  lemma PaddingDone(len: nat, n: nat)
    requires n <= |Padding(len)| && (len + n) % 4 == 0
    ensures seq(n, _ => PAD) == Padding(len)
  {
  }

  /** The values of the letters before the first byte outside the alphabet. */
  function Sextets(text: Text): (r: seq<nat>)
    ensures Below(r, 64)
  {
    if text == [] || Sextet(text[0]) == -1 then [] else [Sextet(text[0])] + Sextets(text[1..])
  }

  function Octets(vs: seq<nat>): Text
    requires Below(vs, 256)
  {
    seq(|vs|, i requires 0 <= i < |vs| => vs[i])
  }

  /** Join the sextets' bits and cut them by eight; what is left over is dropped. */
  function DecodeSpec(text: Text): Text {
    assert Pow2(8) == 256;
    Octets(Regroup(Concat(Sextets(text), 6), 8))
  }

  lemma {:induction false} LettersAppend(us: seq<nat>, vs: seq<nat>)
    requires Below(us, 64) && Below(vs, 64)
    ensures Below(us + vs, 64)
    ensures Letters(us + vs) == Letters(us) + Letters(vs)
  {
    hide Letter;
    if us == [] {
      assert us + vs == vs;
    } else {
      assert (us + vs)[0] == us[0];
      assert (us + vs)[1..] == us[1..] + vs;
      LettersAppend(us[1..], vs);
    }
  }

  lemma EmptySextets(text: Text)
    requires text == [] || Sextet(text[0]) == -1
    ensures Sextets(text) == []
  {
  }

  lemma SextetsCons(v: nat, text: Text)
    requires v < 64
    ensures Sextets([Letter(v)] + text) == [v] + Sextets(text)
  {
    assert ([Letter(v)] + text)[1..] == text;
  }

  lemma {:induction false} SextetsOfLetters(vs: seq<nat>, rest: Text)
    requires Below(vs, 64)
    requires rest == [] || Sextet(rest[0]) == -1
    ensures Sextets(Letters(vs) + rest) == vs
  {
    hide Letter, Sextet, Sextets;
    if vs == [] {
      assert Letters(vs) + rest == rest;
      EmptySextets(rest);
    } else {
      SextetsOfLetters(vs[1..], rest);
      assert Letters(vs) + rest == [Letter(vs[0])] + (Letters(vs[1..]) + rest);
      SextetsCons(vs[0], Letters(vs[1..]) + rest);
    }
  }

  /** Every byte string comes back from its encoding. */
  lemma RoundTrip(data: Text)
    ensures DecodeSpec(EncodeSpec(data)) == data
  {
    hide Concat, Regroup, Letters, Sextets, Letter;
    var bits, filled := Concat(data, 8), FilledBits(data);
    var fill := filled[|bits|..];
    var vs := Regroup(filled, 6);
    assert Pow2(6) == 64 && Pow2(8) == 256;
    SextetsOfLetters(vs, Padding(|vs|));
    FilledBitsWhole(data);
    ConcatRegroup(filled, 6);
    ConcatWhole(data, 8);
    assert filled == bits + fill;
    RegroupAppend(bits, fill, 8);
    RegroupShort(fill, 8);
    RegroupConcat(data, 8);
  }

  // ----- 32-bit signed accumulators -----

  newtype int32 = x: int | -0x8000_0000 <= x < 0x8000_0000

  function Power(k: nat): (r: nat)
    requires k <= 12
    ensures r == Pow2(k)
  {
    if k == 0 then 1 else 2 * Power(k - 1)
  }

  /** How often the range of a 32-bit signed integer has to be passed to bring `p` back into it. */
  function Wraps(p: int): int { (p + 0x8000_0000) / 0x1_0000_0000 }

  /** `v << k` since C++20: the product with 2^k, reduced modulo 2^32 into the signed range. */
  function ShiftLeft(v: int32, k: nat): (r: int32)
    requires k == 6 || k == 8
    ensures r <= if k == 6 then 0x7FFF_FFC0 else 0x7FFF_FF00
  {
    var p := v as int * (if k == 6 then 64 else 256);
    var r := p - Wraps(p) * 0x1_0000_0000;
    assert k == 6 ==> r == 64 * (v as int - Wraps(p) * 0x400_0000);
    assert k == 8 ==> r == 256 * (v as int - Wraps(p) * 0x100_0000);
    r as int32
  }

  /** `v >> k`: an arithmetic shift, which rounds down. */
  function ShiftRight(v: int32, k: int32): int
    requires 0 <= k <= 12
  {
    v as int / Power(k as nat)
  }

  /** `x & (m - 1)` in two's complement, for a power of two `m`. */
  function Mask(x: int, m: nat): (r: nat)
    requires m > 0
    ensures r < m
  {
    x % m
  }

  lemma DivMod(x: int, k: int, b: nat, p: nat)
    requires p in {1, 4, 16, 64, 256, 1024, 4096}
    requires b < p && x == k * p + b
    ensures x / p == k && x % p == b
  {
    if p == 1 { assert x == k; } else if p == 4 { assert x == 4 * k + b; } else if p == 16 { assert x == 16 * k + b; }
    else if p == 64 { assert x == 64 * k + b; } else if p == 256 { assert x == 256 * k + b; }
    else if p == 1024 { assert x == 1024 * k + b; } else { assert x == 4096 * k + b; }
  }

  lemma PowerValues()
    ensures Power(0) == 1 && Power(2) == 4 && Power(4) == 16 && Power(6) == 64
    ensures Power(8) == 256 && Power(10) == 1024 && Power(12) == 4096
  {
    assert Power(1) == 2 && Power(3) == 8 && Power(5) == 32 && Power(7) == 128 && Power(9) == 512 && Power(11) == 2048;
  }

  lemma Distribute(q: int, m: int, a: int, p: int)
    ensures (q * m + a) * p == q * (m * p) + a * p
  {
  }

  lemma SplitLow(x: int, a: nat, b: nat, m: nat, p: nat)
    requires p in {1, 4, 16, 64} && m in {64, 256} && m * p in {64, 256, 1024, 4096}
    requires b < p && a < m
    requires x % (m * p) == a * p + b
    ensures Mask(x / p, m) == a && x % p == b
  {
    var q := x / (m * p);
    Distribute(q, m, a, p);
    DivMod(x, q * m + a, b, p);
    DivMod(q * m + a, q, a, m);
  }

  /** Reading the `g` high bits of the pending bits out of the accumulator. */
  lemma ReadGroup(val: int32, pending: Bits, g: nat)
    requires g == 6 || g == 8
    requires g <= |pending| <= 12 && |pending| % 2 == 0
    requires val as int % Power(|pending|) == ValueOf(pending)
    ensures Mask(ShiftRight(val, (|pending| - g) as int32), Power(g)) == ValueOf(pending[..g])
    ensures val as int % Power(|pending| - g) == ValueOf(pending[g..])
  {
    hide BitsOf, ValueOf, Power, Pow2;
    var high, low := pending[..g], pending[g..];
    assert pending == high + low;
    ValueSplit(high, low);
    PowerValues();
    SplitLow(val as int, ValueOf(high), ValueOf(low), Power(g), Power(|low|));
  }

  /** A wrap-around of the accumulator leaves the low bits alone. */
  lemma WrapsWhole(q: int, n: nat, t: int) returns (k: int)
    requires n in {64, 256, 1024, 4096}
    ensures k * n == q * n + t * 0x10000
  {
    k := q + t * (if n == 64 then 1024 else if n == 256 then 256 else if n == 1024 then 64 else 16);
  }

  lemma Below2(low: nat, p: nat, x: nat, g: nat)
    requires low < p && x < g
    ensures low * g + x < p * g
  {
    assert (low + 1) * g <= p * g;
  }

  lemma AddLow(v: int, low: nat, p: nat, x: nat, g: nat, t: int)
    requires p in {1, 4, 16, 64} && g in {64, 256} && p * g in {64, 256, 1024, 4096}
    requires v % p == low && x < g
    ensures (v * g + x + t * 0x10000) % (p * g) == low * g + x
  {
    var q, n := v / p, p * g;
    Distribute(q, p, low, g);
    var k := WrapsWhole(q, n, t);
    Below2(low, p, x, g);
    assert v * g == q * n + low * g;
    DivMod(v * g + x + t * 0x10000, k, low * g + x, n);
  }

  lemma AddGroup(val: int32, pending: Bits, x: nat, g: nat)
    requires g == 6 || g == 8
    requires |pending| <= 12 - g && |pending| % 2 == 0 && x < Power(g)
    requires val as int % Power(|pending|) == ValueOf(pending)
    ensures (ShiftLeft(val, g) as int + x) % Power(|pending| + g) == ValueOf(pending + BitsOf(x, g))
  {
    hide BitsOf, ValueOf, Power, Pow2;
    ValueSplit(pending, BitsOf(x, g));
    ValueOfBits(x, g);
    PowerValues();
    var p := if g == 6 then 64 else 256;
    AddLow(val as int, ValueOf(pending), Power(|pending|), x, p, -0x10000 * Wraps(val as int * p));
  }

  // ----- the loops -----

  /** What a run of the encoder's inner loop adds to the text. */
  lemma EmitLetter(done: Bits, pending: Bits)
    requires Whole(|done|, 6) && |pending| >= 6
    ensures Whole(|done + pending[..6]|, 6) && ValueOf(pending[..6]) < 64
    ensures Below(Regroup(done, 6), 64) && Below(Regroup(done + pending[..6], 6), 64)
    ensures Letters(Regroup(done + pending[..6], 6)) == Letters(Regroup(done, 6)) + [Letter(ValueOf(pending[..6]))]
  {
    hide ValueOf, Regroup, Letter;
    var group := pending[..6];
    assert Pow2(6) == 64;
    assert Whole(6, 6);
    WholeSum(|done|, 6, 6);
    RegroupAppend(done, group, 6);
    RegroupOne(group);
    LettersAppend(Regroup(done, 6), [ValueOf(group)]);
    assert Letters([ValueOf(group)]) == [Letter(ValueOf(group))];
  }

  /** The state of the encoder: the bits read are those written out plus the ones the accumulator still holds. */
  ghost predicate Encoding(bits: Bits, done: Bits, pending: Bits, val: int32, valb: int32, out: Text) {
    && bits == done + pending && Whole(|done|, 6)
    && Below(Regroup(done, 6), 64) && out == Letters(Regroup(done, 6))
    && |pending| == valb as int + 6 && |pending| <= 12 && |pending| % 2 == 0
    && val as int % Power(|pending|) == ValueOf(pending)
  }

  lemma TakeByte(bits: Bits, done: Bits, pending: Bits, val: int32, valb: int32, out: Text, c: Byte)
    requires Encoding(bits, done, pending, val, valb, out) && valb < 0
    ensures Encoding(bits + BitsOf(c, 8), done, pending + BitsOf(c, 8), ShiftLeft(val, 8) + c as int32, valb + 8, out)
  {
    hide BitsOf, ValueOf, Power, Regroup, Letters, Whole, ShiftLeft;
    PowerValues();
    AddGroup(val, pending, c, 8);
    assert bits + BitsOf(c, 8) == done + (pending + BitsOf(c, 8));
  }

  lemma PutLetter(bits: Bits, done: Bits, pending: Bits, val: int32, valb: int32, out: Text)
    requires Encoding(bits, done, pending, val, valb, out) && valb >= 0
    ensures |pending| >= 6
    ensures Encoding(bits, done + pending[..6], pending[6..], val, valb - 6,
                     out + [Letter(Mask(ShiftRight(val, valb), 64))])
  {
    hide BitsOf, ValueOf, Power, Regroup, Letters, Letter, Whole, ShiftRight, Mask;
    PowerValues();
    ReadGroup(val, pending, 6);
    EmitLetter(done, pending);
    assert done + pending == (done + pending[..6]) + pending[6..];
  }

  lemma {:induction false} ZerosValue(n: nat)
    ensures ValueOf(Zeros(n)) == 0
  {
    if n != 0 {
      ZerosValue(n - 1);
      assert Zeros(n)[..n - 1] == Zeros(n - 1);
    }
  }

  /** The incomplete last group: the pending bits moved up, zeros below. */
  lemma LastLetter(val: int32, pending: Bits)
    requires |pending| == 2 || |pending| == 4
    requires val as int % Power(|pending|) == ValueOf(pending)
    ensures Mask(ShiftRight(ShiftLeft(val, 8), |pending| as int32 + 2), 64) == ValueOf(pending + Zeros(6 - |pending|))
  {
    hide BitsOf, ValueOf, Power, Pow2, Zeros;
    ZerosValue(6 - |pending|);
    ValueSplit(pending, Zeros(6 - |pending|));
    PowerValues();
    var v, wraps, low := val as int, Wraps(val as int * 256), ValueOf(pending);
    if |pending| == 2 {
      var k := v * 16 - wraps * 0x1000_0000;
      DivMod(ShiftLeft(val, 8) as int, k, 0, 16);
      assert v == 4 * (v / 4) + low;
      DivMod(k, v / 4 - wraps * 0x40_0000, low * 16, 64);
    } else {
      var k := v * 4 - wraps * 0x400_0000;
      DivMod(ShiftLeft(val, 8) as int, k, 0, 64);
      assert v == 16 * (v / 16) + low;
      DivMod(k, v / 16 - wraps * 0x10_0000, low * 4, 64);
    }
  }

  lemma {:induction false} WholeIsMultipleOfSix(n: nat)
    requires Whole(n, 6)
    ensures n % 6 == 0
  {
    if n != 0 {
      WholeIsMultipleOfSix(n - 6);
    }
  }

  lemma EncodeEnd(data: Text, done: Bits, pending: Bits, val: int32, valb: int32, out: Text)
    requires Encoding(Concat(data, 8), done, pending, val, valb, out) && valb < 0
    ensures Below(Regroup(FilledBits(data), 6), 64)
    ensures Letters(Regroup(FilledBits(data), 6))
         == if valb > -6 then out + [Letter(Mask(ShiftRight(ShiftLeft(val, 8), valb + 8), 64))] else out
  {
    hide BitsOf, ValueOf, Power, Regroup, Letters, Letter, Whole, ShiftRight, ShiftLeft, Mask, Concat, Zeros;
    WholeIsMultipleOfSix(|done|);
    if valb > -6 {
      var fill := Zeros(6 - |pending|);
      LastLetter(val, pending);
      EmitLetter(done, pending + fill);
      assert (pending + fill)[..6] == pending + fill;
      assert FilledBits(data) == done + (pending + fill);
    } else {
      assert Zeros(0) == [];
      assert FilledBits(data) == done;
    }
  }

  method Encode(data: Text) returns (out: Text)
    ensures out == EncodeSpec(data)
  {
    hide BitsOf, Letter, ShiftLeft, ShiftRight, Mask, Concat, Encoding, Regroup, FilledBits, Letters;
    var val: int32, valb: int32 := 0, -6;
    out := [];
    ghost var bits: Bits, done: Bits, pending: Bits := [], [], [];
    EncodeStart();
    for i := 0 to |data|
      invariant -6 <= valb < 0
      invariant bits == Concat(data[..i], 8) && Encoding(bits, done, pending, val, valb, out)
    {
      var c := data[i];
      TakeByte(bits, done, pending, val, valb, out, c);
      ConcatNext(data, i);
      val := ShiftLeft(val, 8) + c as int32;
      valb := valb + 8;
      bits, pending := bits + BitsOf(c, 8), pending + BitsOf(c, 8);
      while valb >= 0
        invariant -6 <= valb <= 7
        invariant Encoding(bits, done, pending, val, valb, out)
      {
        PutLetter(bits, done, pending, val, valb, out);
        done, pending := done + pending[..6], pending[6..];
        out := out + [Letter(Mask(ShiftRight(val, valb), 64))];
        valb := valb - 6;
      }
    }
    assert data[..|data|] == data;
    EncodeEnd(data, done, pending, val, valb, out);
    if valb > -6 {
      out := out + [Letter(Mask(ShiftRight(ShiftLeft(val, 8), valb + 8), 64))];
    }
    out := PadText(out);
  }

  /** The closing loop of the encoder. */
  method PadText(letters: Text) returns (out: Text)
    ensures out == letters + Padding(|letters|)
    ensures |out| % 4 == 0
  {
    hide Padding;
    out := letters;
    ghost var n := 0;
    while |out| % 4 != 0
      invariant n <= |Padding(|letters|)|
      invariant out == letters + seq(n, _ => PAD)
      decreases |Padding(|letters|)| - n
    {
      PaddingStep(|letters|, n);
      out := out + [PAD];
      n := n + 1;
    }
    PaddingDone(|letters|, n);
  }

  lemma ConcatNext(data: Text, i: nat)
    requires i < |data|
    ensures Concat(data[..i + 1], 8) == Concat(data[..i], 8) + BitsOf(data[i], 8)
  {
    hide BitsOf, Concat;
    ConcatSnoc(data[..i], data[i], 8);
    assert data[..i + 1] == data[..i] + [data[i]];
  }

  lemma EncodeStart()
    ensures Encoding(Concat([], 8), [], [], 0, -6, [])
  {
  }

  /** The state of the decoder, as for the encoder. */
  ghost predicate Decoding(bits: Bits, done: Bits, pending: Bits, val: int32, valb: int32, out: Text) {
    && bits == done + pending && Whole(|done|, 8)
    && out == Regroup(done, 8)
    && |pending| == valb as int + 8 && |pending| <= 12 && |pending| % 2 == 0
    && val as int % Power(|pending|) == ValueOf(pending)
  }

  lemma TakeLetter(bits: Bits, done: Bits, pending: Bits, val: int32, valb: int32, out: Text, x: nat)
    requires Decoding(bits, done, pending, val, valb, out) && valb < 0 && x < 64
    ensures Decoding(bits + BitsOf(x, 6), done, pending + BitsOf(x, 6), ShiftLeft(val, 6) + x as int32, valb + 6, out)
  {
    hide BitsOf, ValueOf, Power, Regroup, Whole, ShiftLeft;
    PowerValues();
    AddGroup(val, pending, x, 6);
    assert bits + BitsOf(x, 6) == done + (pending + BitsOf(x, 6));
  }

  lemma PutByte(bits: Bits, done: Bits, pending: Bits, val: int32, valb: int32, out: Text)
    requires Decoding(bits, done, pending, val, valb, out) && valb >= 0
    ensures |pending| >= 8
    ensures Decoding(bits, done + pending[..8], pending[8..], val, valb - 8, out + [Mask(ShiftRight(val, valb), 256)])
  {
    hide BitsOf, ValueOf, Power, Regroup, ShiftRight, Mask;
    PowerValues();
    ReadGroup(val, pending, 8);
    assert done + pending == (done + pending[..8]) + pending[8..];
    assert Whole(8, 8);
    WholeSum(|done|, 8, 8);
    RegroupAppend(done, pending[..8], 8);
    RegroupOne(pending[..8]);
  }

  lemma DecodeStart()
    ensures Decoding(Concat([], 6), [], [], 0, -8, [])
  {
  }

  /** The bits left in the accumulator are fewer than eight and are dropped. */
  lemma DecodeEnd(bits: Bits, done: Bits, pending: Bits, val: int32, valb: int32, out: Text)
    requires Decoding(bits, done, pending, val, valb, out) && valb < 0
    ensures Regroup(bits, 8) == out
  {
    hide BitsOf, ValueOf, Power, Regroup, Whole;
    RegroupAppend(done, pending, 8);
    RegroupShort(pending, 8);
  }

  /** The table holds the value of every letter, and -1 for the other bytes. */
  ghost predicate IsTable(t: array<int>)
    reads t
  {
    t.Length == 256 && forall c: Byte :: t[c] == Sextet(c)
  }

  lemma TableAt(t: array<int>, c: Byte)
    requires IsTable(t)
    ensures t.Length == 256 && t[c] == Sextet(c)
  {
  }

  /** Filling the decoding table. */
  method DecodingTable() returns (t: array<int>)
    ensures fresh(t) && IsTable(t)
  {
    t := new int[256](_ => -1);
    for i := 0 to 64
      invariant forall k :: 0 <= k < 256 ==> t[k] == if Sextet(k) < i then Sextet(k) else -1
    {
      t[Letter(i)] := i;
    }
  }

  lemma SextetsStep(text: Text, i: nat)
    requires i < |text|
    ensures Sextets(text[i..])
         == if Sextet(text[i]) == -1 then [] else [Sextet(text[i])] + Sextets(text[i + 1..])
  {
    assert text[i..][1..] == text[i + 1..];
  }

  method Decode(text: Text) returns (out: Text)
    ensures out == DecodeSpec(text)
  {
    hide BitsOf, ShiftLeft, ShiftRight, Mask, Concat, Decoding, Regroup, Sextet, Sextets, IsTable;
    var t := DecodingTable();
    var val: int32, valb: int32 := 0, -8;
    out := [];
    ghost var bits: Bits, done: Bits, pending: Bits, sextets: seq<nat> := [], [], [], [];
    DecodeStart();
    EmptySextets([]);
    var i := 0;
    while i < |text|
      invariant 0 <= i <= |text| && -8 <= valb < 0 && IsTable(t)
      invariant sextets + Sextets(text[i..]) == Sextets(text)
      invariant bits == Concat(sextets, 6) && Decoding(bits, done, pending, val, valb, out)
    {
      var c := text[i];
      TableAt(t, c);
      SextetsStep(text, i);
      if t[c] == -1 {
        break;
      }
      TakeLetter(bits, done, pending, val, valb, out, t[c]);
      ConcatSnoc(sextets, t[c], 6);
      sextets, bits, pending := sextets + [t[c]], bits + BitsOf(t[c], 6), pending + BitsOf(t[c], 6);
      val := ShiftLeft(val, 6) + t[c] as int32;
      valb := valb + 6;
      if valb >= 0 {
        PutByte(bits, done, pending, val, valb, out);
        done, pending := done + pending[..8], pending[8..];
        out := out + [Mask(ShiftRight(val, valb), 256)];
        valb := valb - 8;
      }
      i := i + 1;
    }
    assert i == |text| ==> text[i..] == [];
    assert sextets + [] == sextets;
    assert sextets == Sextets(text);
    DecodeEnd(bits, done, pending, val, valb, out);
  }
}
