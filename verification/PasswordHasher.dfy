/** The password hash: a four-word mixing state over 32-bit words, printed as 32 hexadecimal digits. */
module PasswordHasher {
  import opened Bytes
  import opened Words

  const LARGE_PRIME: bv32 := 0x9E3779B1

  // ----- the hash as a function of the password -----

  datatype State = State(h0: bv32, h1: bv32, h2: bv32, h3: bv32)

  const INITIAL := State(0x6A09E667, 0xBB67AE85, 0x3C6EF372, 0xA54FF53A)

  /** One round of the byte loop; each word reads the new value of the word before it. */
  function Absorb(s: State, c: bv8): State {
    var h0 := TimesPrime(RotateLeft(Xor(s.h0, Widen(c)), 7));
    var h1 := Add(RotateLeft(Xor(s.h1, h0), 11), LARGE_PRIME);
    var h2 := Xor(RotateLeft(Xor(s.h2, h1), 13), LARGE_PRIME);
    var h3 := Subtract(RotateLeft(Xor(s.h3, h2), 17), h0);
    State(h0, h1, h2, h3)
  }

  function AbsorbAll(s: State, password: Text): State
    decreases password
  {
    if password == [] then s else AbsorbAll(Absorb(s, Octet(password[0])), password[1..])
  }

  /** The four final assignments; each one reads the word the one before it wrote. */
  function Mix(s: State): State {
    var h0 := Xor(s.h0, RotateLeft(s.h3, 5));
    var h1 := Xor(s.h1, RotateLeft(h0, 5));
    var h2 := Xor(s.h2, RotateLeft(h1, 5));
    var h3 := Xor(s.h3, RotateLeft(h2, 5));
    State(h0, h1, h2, h3)
  }

  function NibbleDigit(nibble: bv4): (r: Byte)
    ensures r != NUL
  {
    match nibble
    case 0 => 48 case 1 => 49 case 2 => 50 case 3 => 51 case 4 => 52
    case 5 => 53 case 6 => 54 case 7 => 55 case 8 => 56 case 9 => 57
    case 10 => 97 case 11 => 98 case 12 => 99 case 13 => 100 case 14 => 101
    case _ => 102
  }

  function Nibble(w: bv32, shift: bv32): bv4
    requires shift < 32
  {
    ((w >> shift) & 0xF) as bv4
  }

  /** A word as `hex`, `setw(8)` and `setfill('0')` print it: eight lower-case digits, high digit first. */
  function HexWord(w: bv32): (r: Text)
    ensures |r| == 8
  {
    [NibbleDigit(Nibble(w, 28)), NibbleDigit(Nibble(w, 24)), NibbleDigit(Nibble(w, 20)), NibbleDigit(Nibble(w, 16)),
     NibbleDigit(Nibble(w, 12)), NibbleDigit(Nibble(w, 8)), NibbleDigit(Nibble(w, 4)), NibbleDigit(Nibble(w, 0))]
  }

  function Print(s: State): Text {
    HexWord(s.h0) + HexWord(s.h1) + HexWord(s.h2) + HexWord(s.h3)
  }

  function HashOf(password: Text): Text {
    Print(Mix(AbsorbAll(INITIAL, password)))
  }

  // ----- the loops -----

  method Hash(password: Text) returns (out: Text)
    ensures out == HashOf(password)
    ensures |out| == 32
  {
    hide TimesPrime, RotateLeft, Xor, Add, Subtract, Octet, Widen, HexWord;
    var h0, h1, h2, h3 := INITIAL.h0, INITIAL.h1, INITIAL.h2, INITIAL.h3;
    for i := 0 to |password|
      invariant AbsorbAll(State(h0, h1, h2, h3), password[i..]) == AbsorbAll(INITIAL, password)
    {
      var unsignedCharacter := Octet(password[i]);
      h0 := TimesPrime(RotateLeft(Xor(h0, Widen(unsignedCharacter)), 7));
      h1 := Add(RotateLeft(Xor(h1, h0), 11), LARGE_PRIME);
      h2 := Xor(RotateLeft(Xor(h2, h1), 13), LARGE_PRIME);
      h3 := Subtract(RotateLeft(Xor(h3, h2), 17), h0);
      assert password[i..][1..] == password[i + 1..];
    }
    h0 := Xor(h0, RotateLeft(h3, 5));
    h1 := Xor(h1, RotateLeft(h0, 5));
    h2 := Xor(h2, RotateLeft(h1, 5));
    h3 := Xor(h3, RotateLeft(h2, 5));
    var states := [h0, h1, h2, h3];
    out := [];
    for i := 0 to |states|
      invariant |out| == 8 * i
      invariant i > 0 ==> out[..8] == HexWord(h0)
      invariant i > 1 ==> out[8..16] == HexWord(h1)
      invariant i > 2 ==> out[16..24] == HexWord(h2)
      invariant i > 3 ==> out[24..32] == HexWord(h3)
    {
      out := out + HexWord(states[i]);
    }
    FourParts(out);
  }

  lemma FourParts(t: Text)
    requires |t| == 32
    ensures t == t[..8] + t[8..16] + t[16..24] + t[24..32]
  {
  }

  // ----- one round, the final mix and the digits -----

  /** What two equal states after a round say about the states and bytes before it. */
  lemma AbsorbBackwards(s: State, c: bv8, t: State, d: bv8)
    requires Absorb(s, c) == Absorb(t, d)
    ensures s.h1 == t.h1 && s.h2 == t.h2 && s.h3 == t.h3
    ensures Xor(s.h0, Widen(c)) == Xor(t.h0, Widen(d))
  {
    hide TimesPrime, RotateLeft, Xor, Add, Subtract, Widen;
    var r := Absorb(s, c);
    var x, y := Xor(s.h0, Widen(c)), Xor(t.h0, Widen(d));
    TimesPrimeInjective(RotateLeft(x, 7), RotateLeft(y, 7));
    Rotate7Injective(x, y);
    AddInjective(RotateLeft(Xor(s.h1, r.h0), 11), RotateLeft(Xor(t.h1, r.h0), 11), LARGE_PRIME);
    Rotate11Injective(Xor(s.h1, r.h0), Xor(t.h1, r.h0));
    XorInjective(s.h1, t.h1, r.h0);
    XorInjective(RotateLeft(Xor(s.h2, r.h1), 13), RotateLeft(Xor(t.h2, r.h1), 13), LARGE_PRIME);
    Rotate13Injective(Xor(s.h2, r.h1), Xor(t.h2, r.h1));
    XorInjective(s.h2, t.h2, r.h1);
    SubtractInjective(RotateLeft(Xor(s.h3, r.h2), 17), RotateLeft(Xor(t.h3, r.h2), 17), r.h0);
    Rotate17Injective(Xor(s.h3, r.h2), Xor(t.h3, r.h2));
    XorInjective(s.h3, t.h3, r.h2);
  }

  /** The round of a fixed byte loses nothing of the state. */
  lemma AbsorbInjective(s: State, t: State, c: bv8)
    requires Absorb(s, c) == Absorb(t, c)
    ensures s == t
  {
    hide Absorb, Xor, Widen;
    AbsorbBackwards(s, c, t, c);
    XorInjective(s.h0, t.h0, Widen(c));
  }

  lemma MixInjective(s: State, t: State)
    requires Mix(s) == Mix(t)
    ensures s == t
  {
    hide RotateLeft, Xor;
    var r := Mix(s);
    XorInjective(s.h3, t.h3, RotateLeft(r.h2, 5));
    XorInjective(s.h2, t.h2, RotateLeft(r.h1, 5));
    XorInjective(s.h1, t.h1, RotateLeft(r.h0, 5));
    XorInjective(s.h0, t.h0, RotateLeft(s.h3, 5));
  }

  lemma NibbleDigitInjective(a: bv4, b: bv4)
    requires NibbleDigit(a) == NibbleDigit(b)
    ensures a == b
  {
  }

  lemma NibblesDetermine(v: bv32, w: bv32)
    requires Nibble(v, 28) == Nibble(w, 28) && Nibble(v, 24) == Nibble(w, 24)
    requires Nibble(v, 20) == Nibble(w, 20) && Nibble(v, 16) == Nibble(w, 16)
    requires Nibble(v, 12) == Nibble(w, 12) && Nibble(v, 8) == Nibble(w, 8)
    requires Nibble(v, 4) == Nibble(w, 4) && Nibble(v, 0) == Nibble(w, 0)
    ensures v == w
  {
  }

  /** Fixed-width printing loses nothing of the word. */
  lemma HexWordInjective(v: bv32, w: bv32)
    requires HexWord(v) == HexWord(w)
    ensures v == w
  {
    hide Nibble, NibbleDigit;
    var a, b := HexWord(v), HexWord(w);
    assert forall k :: 0 <= k < 8 ==> a[k] == b[k];
    NibbleDigitInjective(Nibble(v, 28), Nibble(w, 28));
    NibbleDigitInjective(Nibble(v, 24), Nibble(w, 24));
    NibbleDigitInjective(Nibble(v, 20), Nibble(w, 20));
    NibbleDigitInjective(Nibble(v, 16), Nibble(w, 16));
    NibbleDigitInjective(Nibble(v, 12), Nibble(w, 12));
    NibbleDigitInjective(Nibble(v, 8), Nibble(w, 8));
    NibbleDigitInjective(Nibble(v, 4), Nibble(w, 4));
    NibbleDigitInjective(Nibble(v, 0), Nibble(w, 0));
    NibblesDetermine(v, w);
  }

  lemma PrintInjective(s: State, t: State)
    requires Print(s) == Print(t)
    ensures s == t
  {
    hide HexWord;
    PrintParts(s);
    PrintParts(t);
    HexWordInjective(s.h0, t.h0);
    HexWordInjective(s.h1, t.h1);
    HexWordInjective(s.h2, t.h2);
    HexWordInjective(s.h3, t.h3);
  }

  lemma PrintParts(s: State)
    ensures |Print(s)| == 32
    ensures Print(s)[..8] == HexWord(s.h0) && Print(s)[8..16] == HexWord(s.h1)
    ensures Print(s)[16..24] == HexWord(s.h2) && Print(s)[24..32] == HexWord(s.h3)
  {
    hide HexWord;
  }

  // ----- the hash of a password -----

  /** The hash is the state before the final mix, no more and no less. */
  lemma HashIsState(p: Text, q: Text)
    ensures HashOf(p) == HashOf(q) <==> AbsorbAll(INITIAL, p) == AbsorbAll(INITIAL, q)
  {
    hide AbsorbAll, Mix, Print;
    if HashOf(p) == HashOf(q) {
      PrintInjective(Mix(AbsorbAll(INITIAL, p)), Mix(AbsorbAll(INITIAL, q)));
      MixInjective(AbsorbAll(INITIAL, p), AbsorbAll(INITIAL, q));
    }
  }

  lemma {:induction false} AbsorbAllConcat(s: State, p: Text, q: Text)
    ensures AbsorbAll(s, p + q) == AbsorbAll(AbsorbAll(s, p), q)
    decreases p
  {
    hide Absorb, Octet;
    if p == [] {
      assert p + q == q;
    } else {
      assert (p + q)[1..] == p[1..] + q;
      AbsorbAllConcat(Absorb(s, Octet(p[0])), p[1..], q);
    }
  }

  lemma {:induction false} AbsorbAllInjective(s: State, t: State, p: Text)
    requires AbsorbAll(s, p) == AbsorbAll(t, p)
    ensures s == t
    decreases p
  {
    hide Absorb, Octet;
    if p != [] {
      AbsorbAllInjective(Absorb(s, Octet(p[0])), Absorb(t, Octet(p[0])), p[1..]);
      AbsorbInjective(s, t, Octet(p[0]));
    }
  }

  /** A common suffix neither creates nor removes a collision. */
  lemma CommonSuffix(p: Text, q: Text, s: Text)
    ensures HashOf(p + s) == HashOf(q + s) <==> HashOf(p) == HashOf(q)
  {
    hide AbsorbAll, HashOf;
    HashIsState(p, q);
    HashIsState(p + s, q + s);
    AbsorbAllConcat(INITIAL, p, s);
    AbsorbAllConcat(INITIAL, q, s);
    if HashOf(p + s) == HashOf(q + s) {
      AbsorbAllInjective(AbsorbAll(INITIAL, p), AbsorbAll(INITIAL, q), s);
    }
  }

  /** From one state, the third word after a round already tells the byte. */
  lemma SameStart(s: State, c: Byte, d: Byte)
    requires Absorb(s, Octet(c)).h2 == Absorb(s, Octet(d)).h2
    ensures c == d
  {
    hide TimesPrime, RotateLeft, Xor, Add, Subtract, Octet, Widen;
    var v, w := Absorb(s, Octet(c)), Absorb(s, Octet(d));
    var x, y := Xor(s.h0, Widen(Octet(c))), Xor(s.h0, Widen(Octet(d)));
    XorInjective(RotateLeft(Xor(s.h2, v.h1), 13), RotateLeft(Xor(s.h2, w.h1), 13), LARGE_PRIME);
    Rotate13Injective(Xor(s.h2, v.h1), Xor(s.h2, w.h1));
    XorLeftInjective(s.h2, v.h1, w.h1);
    AddInjective(RotateLeft(Xor(s.h1, v.h0), 11), RotateLeft(Xor(s.h1, w.h0), 11), LARGE_PRIME);
    Rotate11Injective(Xor(s.h1, v.h0), Xor(s.h1, w.h0));
    XorLeftInjective(s.h1, v.h0, w.h0);
    TimesPrimeInjective(RotateLeft(x, 7), RotateLeft(y, 7));
    Rotate7Injective(x, y);
    XorLeftInjective(s.h0, Widen(Octet(c)), Widen(Octet(d)));
    WidenInjective(Octet(c), Octet(d));
    OctetInjective(c, d);
  }

  lemma ThirdWordBackwards(s: State, c: bv8, t: State, d: bv8)
    requires Absorb(s, c).h1 == Absorb(t, d).h1 && Absorb(s, c).h2 == Absorb(t, d).h2
    ensures s.h2 == t.h2
  {
    hide TimesPrime, RotateLeft, Xor, Add, Subtract, Widen;
    var h1 := Absorb(s, c).h1;
    XorInjective(RotateLeft(Xor(s.h2, h1), 13), RotateLeft(Xor(t.h2, h1), 13), LARGE_PRIME);
    Rotate13Injective(Xor(s.h2, h1), Xor(t.h2, h1));
    XorInjective(s.h2, t.h2, h1);
  }

  lemma ThreeBytes(s: State, v0: Byte, v1: Byte, v2: Byte, w0: Byte, w1: Byte, w2: Byte)
    requires Absorb(Absorb(Absorb(s, Octet(v0)), Octet(v1)), Octet(v2))
          == Absorb(Absorb(Absorb(s, Octet(w0)), Octet(w1)), Octet(w2))
    ensures v0 == w0 && v1 == w1 && v2 == w2
  {
    hide Absorb, Octet, Xor, Widen;
    var s1, t1 := Absorb(s, Octet(v0)), Absorb(s, Octet(w0));
    var s2, t2 := Absorb(s1, Octet(v1)), Absorb(t1, Octet(w1));
    AbsorbBackwards(s2, Octet(v2), t2, Octet(w2));
    ThirdWordBackwards(s1, Octet(v1), t1, Octet(w1));
    SameStart(s, v0, w0);
    SameStart(s1, v1, w1);
    SameStart(s2, v2, w2);
  }

  lemma AbsorbThree(s: State, v: Text)
    requires |v| == 3
    ensures AbsorbAll(s, v) == Absorb(Absorb(Absorb(s, Octet(v[0])), Octet(v[1])), Octet(v[2]))
  {
    hide Absorb, Octet;
    assert v[1..][1..] == [v[2]];
    assert AbsorbAll(s, v) == AbsorbAll(Absorb(s, Octet(v[0])), v[1..]);
    assert AbsorbAll(Absorb(s, Octet(v[0])), v[1..]) == AbsorbAll(Absorb(Absorb(s, Octet(v[0])), Octet(v[1])), [v[2]]);
  }

  /** From one state, no two windows of at most three bytes lead to the same state. */
  lemma WindowInjective(s: State, v: Text, w: Text)
    requires |v| == |w| <= 3
    requires AbsorbAll(s, v) == AbsorbAll(s, w)
    ensures v == w
  {
    hide Absorb, Octet, AbsorbAll;
    var pad: Text := seq(3 - |v|, _ => NUL);
    var x, y := v + pad, w + pad;
    AbsorbAllConcat(s, v, pad);
    AbsorbAllConcat(s, w, pad);
    AbsorbThree(s, x);
    AbsorbThree(s, y);
    ThreeBytes(s, x[0], x[1], x[2], y[0], y[1], y[2]);
    assert v == x[..|v|] && w == y[..|w|];
  }

  /**
   * Changing up to three neighbouring bytes of a password, wherever they stand, always changes its hash.
   * One changed byte is the case of a window of length one.
   */
  lemma LocalChangeChangesHash(p: Text, v: Text, w: Text, s: Text)
    requires |v| == |w| <= 3
    ensures HashOf(p + v + s) == HashOf(p + w + s) <==> v == w
  {
    hide AbsorbAll, HashOf;
    CommonSuffix(p + v, p + w, s);
    HashIsState(p + v, p + w);
    AbsorbAllConcat(INITIAL, p, v);
    AbsorbAllConcat(INITIAL, p, w);
    if AbsorbAll(INITIAL, p + v) == AbsorbAll(INITIAL, p + w) {
      WindowInjective(AbsorbAll(INITIAL, p), v, w);
    }
  }

  /** A password cut at a NUL byte can hash differently from the whole password. */
  lemma CutPasswordWitness()
    ensures HashOf([NUL]) != HashOf(CStr([NUL]))
  {
    hide Print, Mix;
    HashIsState([NUL], []);
    assert AbsorbAll(INITIAL, [NUL]) == AbsorbAll(Absorb(INITIAL, Octet(NUL)), []);
    assert Octet(NUL) == 0;
    assert Absorb(INITIAL, 0).h0 != INITIAL.h0;
  }

  lemma HexWordNulFree(w: bv32)
    ensures NulFree(HexWord(w))
  {
    hide Nibble, NibbleDigit;
  }

  /** The printed hash survives being stored and read back as a C string. */
  lemma HashNulFree(p: Text)
    ensures CStr(HashOf(p)) == HashOf(p)
  {
    hide AbsorbAll, Mix, HexWord;
    var s := Mix(AbsorbAll(INITIAL, p));
    HexWordNulFree(s.h0);
    HexWordNulFree(s.h1);
    HexWordNulFree(s.h2);
    HexWordNulFree(s.h3);
  }
}
