/** The unsigned 32-bit operations the password hash uses, and why each of them can be undone. */
module Words {
  import opened Bytes

  function Xor(a: bv32, b: bv32): bv32 { a ^ b }

  function Add(a: bv32, b: bv32): bv32 { a + b }

  function Subtract(a: bv32, b: bv32): bv32 { a - b }

  /** Multiplication by the large prime, modulo 2^32. */
  function TimesPrime(a: bv32): bv32 { a * 0x9E3779B1 }

  /** Multiplication by the inverse of the large prime modulo 2^32. */
  function DividePrime(a: bv32): bv32 { a * 244002641 }

  function RotateLeft(val: bv32, shift: bv32): bv32
    requires 0 < shift < 32
  {
    (val << shift) | (val >> (32 - shift))
  }

  /** `static_cast<uint8_t>`, then the promotion to 32 bits. */
  function Octet(c: Byte): bv8 { c as bv8 }

  function Widen(c: bv8): bv32 { c as bv32 }

  // ----- each 32-bit operation can be undone -----

  lemma PrimeCancels(a: bv32)
    ensures DividePrime(TimesPrime(a)) == a
  {
    assert DividePrime(a * 0x9E3779B1) == a * 0x9E3779B1 * 244002641;
    assert TimesPrime(a) == a * 0x9E3779B1;
  }

  lemma TimesPrimeInjective(a: bv32, b: bv32)
    requires TimesPrime(a) == TimesPrime(b)
    ensures a == b
  {
    hide TimesPrime, DividePrime;
    PrimeCancels(a);
    PrimeCancels(b);
  }

  lemma AddCancels(a: bv32, k: bv32)
    ensures Subtract(Add(a, k), k) == a
  {
    assert Subtract(a + k, k) == a + k - k;
    assert Add(a, k) == a + k;
  }

  lemma AddInjective(a: bv32, b: bv32, k: bv32)
    requires Add(a, k) == Add(b, k)
    ensures a == b
  {
    hide Add, Subtract;
    AddCancels(a, k);
    AddCancels(b, k);
  }

  lemma SubtractCancels(a: bv32, k: bv32)
    ensures Add(Subtract(a, k), k) == a
  {
    assert Add(a - k, k) == a - k + k;
    assert Subtract(a, k) == a - k;
  }

  lemma SubtractInjective(a: bv32, b: bv32, k: bv32)
    requires Subtract(a, k) == Subtract(b, k)
    ensures a == b
  {
    hide Add, Subtract;
    SubtractCancels(a, k);
    SubtractCancels(b, k);
  }

  lemma XorInjective(a: bv32, b: bv32, k: bv32)
    requires Xor(a, k) == Xor(b, k)
    ensures a == b
  {
  }

  lemma XorLeftInjective(k: bv32, a: bv32, b: bv32)
    requires Xor(k, a) == Xor(k, b)
    ensures a == b
  {
  }

  lemma Rotate7Injective(a: bv32, b: bv32)
    requires RotateLeft(a, 7) == RotateLeft(b, 7)
    ensures a == b
  {
  }

  lemma Rotate11Injective(a: bv32, b: bv32)
    requires RotateLeft(a, 11) == RotateLeft(b, 11)
    ensures a == b
  {
  }

  lemma Rotate13Injective(a: bv32, b: bv32)
    requires RotateLeft(a, 13) == RotateLeft(b, 13)
    ensures a == b
  {
  }

  lemma Rotate17Injective(a: bv32, b: bv32)
    requires RotateLeft(a, 17) == RotateLeft(b, 17)
    ensures a == b
  {
  }

  lemma CastBack(b: bv8)
    ensures (b as int) as bv8 == b
  {
  }

  lemma CastSuccessor(b: bv8)
    requires b != 255
    ensures (b + 1) as int == b as int + 1
  {
  }

  lemma {:induction false} OctetExists(c: Byte) returns (b: bv8)
    ensures b as int == c
  {
    if c == 0 {
      b := 0;
    } else {
      b := OctetExists(c - 1);
      CastSuccessor(b);
      b := b + 1;
    }
  }

  lemma OctetRoundTrip(c: Byte)
    ensures Octet(c) as int == c
  {
    var b := OctetExists(c);
    CastBack(b);
    assert Octet(c) == b;
  }

  lemma OctetInjective(a: Byte, b: Byte)
    requires Octet(a) == Octet(b)
    ensures a == b
  {
    hide Octet;
    OctetRoundTrip(a);
    OctetRoundTrip(b);
  }

  lemma WidenInjective(a: bv8, b: bv8)
    requires Widen(a) == Widen(b)
    ensures a == b
  {
  }
}
