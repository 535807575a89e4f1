/** FNV-1a over 64 bits (section 2 of draft-eastlake-fnv): every byte is xored into the state, which
    is then multiplied by a prime modulo 2^64. */
module Fnv {

  type Byte = b: nat | b < 256

  type Bytes = seq<Byte>

  const MODULUS := 0x1_0000_0000_0000_0000
  const OFFSET_BASIS := 14695981039346656037
  const PRIME := 1099511628211

  /** The inverse of the prime modulo 2^64. */
  const INVERSE := 14886173955864302971

  type Word = h: nat | h < MODULUS

  function Pow2(k: nat): nat {
    if k == 0 then 1 else 2 * Pow2(k - 1)
  }

  /** Whether the lowest bits differ. */
  function Differ(x: nat, y: nat): (d: nat)
    ensures d < 2
  {
    if x % 2 == y % 2 then 0 else 1
  }

  /** Exclusive or, bit by bit from the lowest. */
  function Xor(x: nat, y: nat): nat {
    if x == 0 && y == 0 then 0 else 2 * Xor(x / 2, y / 2) + Differ(x, y)
  }

  lemma {:induction false} XorBound(x: nat, y: nat, k: nat)
    requires x < Pow2(k) && y < Pow2(k)
    ensures Xor(x, y) < Pow2(k)
  {
    if k > 0 {
      XorBound(x / 2, y / 2, k - 1);
    }
  }

  lemma XorHalves(x: nat, y: nat)
    ensures Xor(x, y) / 2 == Xor(x / 2, y / 2) && Xor(x, y) % 2 == Differ(x, y)
  {
  }

  lemma {:induction false} XorTwice(x: nat, y: nat)
    ensures Xor(Xor(x, y), y) == x
    decreases x + y
  {
    if x != 0 || y != 0 {
      XorTwice(x / 2, y / 2);
      XorHalves(x, y);
      XorHalves(Xor(x, y), y);
    }
  }

  function Bit(x: nat, k: nat): nat {
    if k == 0 then x % 2 else Bit(x / 2, k - 1)
  }

  /** A bit is set exactly when the bits of the arguments differ. */
  lemma {:induction false} XorBits(x: nat, y: nat, k: nat)
    ensures Bit(Xor(x, y), k) == if Bit(x, k) == Bit(y, k) then 0 else 1
    decreases k
  {
    XorHalves(x, y);
    if k > 0 {
      XorBits(x / 2, y / 2, k - 1);
    }
  }

  /** Dropping the n lowest bits. */
  function ShiftRight(x: nat, n: nat): nat {
    if n == 0 then x else ShiftRight(x / 2, n - 1)
  }

  lemma {:induction false} ShiftBound(x: nat, n: nat, k: nat)
    requires x < Pow2(n + k)
    ensures ShiftRight(x, n) < Pow2(k)
    decreases n
  {
    if n > 0 {
      ShiftBound(x / 2, n - 1, k);
    }
  }

  lemma {:induction false} ShiftedBits(x: nat, n: nat, k: nat)
    ensures Bit(ShiftRight(x, n), k) == Bit(x, n + k)
    decreases n
  {
    if n > 0 {
      ShiftedBits(x / 2, n - 1, k);
    }
  }

  lemma {:induction false} BitsDetermine(x: nat, y: nat)
    requires forall k: nat :: Bit(x, k) == Bit(y, k)
    ensures x == y
    decreases x + y
  {
    assert Bit(x, 0) == Bit(y, 0);
    if x > 0 || y > 0 {
      forall k: nat ensures Bit(x / 2, k) == Bit(y / 2, k) {
        assert Bit(x, k + 1) == Bit(y, k + 1);
      }
      BitsDetermine(x / 2, y / 2);
    }
  }

  lemma Pow2Byte(k: nat)
    ensures Pow2(k + 8) == 256 * Pow2(k)
  {
    assert Pow2(k + 2) == 4 * Pow2(k);
    assert Pow2(k + 4) == 4 * Pow2(k + 2);
    assert Pow2(k + 6) == 4 * Pow2(k + 4);
    assert Pow2(k + 8) == 4 * Pow2(k + 6);
  }

  lemma Pow2Of64()
    ensures Pow2(64) == MODULUS
  {
    Pow2Byte(0);
    Pow2Byte(8);
    Pow2Byte(16);
    Pow2Byte(24);
    Pow2Byte(32);
    Pow2Byte(40);
    Pow2Byte(48);
    Pow2Byte(56);
  }

  function Mix(h: Word, b: Byte): Word {
    Pow2Of64();
    XorBound(h, b, 64);
    Xor(h, b)
  }

  function Times(h: Word): Word {
    h * PRIME % MODULUS
  }

  function Step(h: Word, b: Byte): Word {
    Times(Mix(h, b))
  }

  function Fold(h: Word, bytes: Bytes): Word
    decreases |bytes|
  {
    if bytes == [] then h else Fold(Step(h, bytes[0]), bytes[1..])
  }

  function Hash(bytes: Bytes): Word {
    Fold(OFFSET_BASIS, bytes)
  }

  /** A step as the standard has it: the number whose bits are the exclusive or of state and byte,
      times the FNV prime, modulo 2^64. */
  lemma StepIsFnv1a(h: Word, b: Byte, mixed: nat)
    requires forall k: nat :: Bit(mixed, k) == if Bit(h, k) == Bit(b, k) then 0 else 1
    ensures Step(h, b) == mixed * 0x100000001b3 % 0x1_0000_0000_0000_0000
  {
    forall k: nat ensures Bit(mixed, k) == Bit(Mix(h, b), k) {
      XorBits(h, b, k);
    }
    BitsDetermine(mixed, Mix(h, b));
  }

  /** The hash takes the bytes in order, from the offset basis of the standard. */
  lemma HashInOrder(bytes: Bytes, b: Byte)
    ensures Hash([]) == 0xcbf29ce484222325
    ensures Hash(bytes + [b]) == Step(Hash(bytes), b)
  {
    FoldConcat(OFFSET_BASIS, bytes, [b]);
    FoldOne(Hash(bytes), b);
  }

  /** Writing in pieces hashes the concatenation. */
  lemma {:induction false} FoldConcat(h: Word, a: Bytes, b: Bytes)
    ensures Fold(h, a + b) == Fold(Fold(h, a), b)
    decreases |a|
  {
    if a == [] {
      assert a + b == b;
    } else {
      assert (a + b)[1..] == a[1..] + b;
      FoldConcat(Step(h, a[0]), a[1..], b);
    }
  }

  // ---------- Every step is a bijection of the states ----------

  lemma MixTwice(h: Word, b: Byte)
    ensures Mix(Mix(h, b), b) == h
  {
    XorTwice(h, b);
  }

  function Divide(h: Word): Word {
    h * INVERSE % MODULUS
  }

  lemma InverseOfPrime()
    ensures PRIME * INVERSE == 1 + 887285111055 * MODULUS
  {
  }

  /** Multiplying by the inverse undoes multiplying by the prime, and the other way round. */
  lemma TimesDivide(h: Word)
    ensures Divide(Times(h)) == h
    ensures Times(Divide(h)) == h
  {
    InverseOfPrime();
    var q := h * PRIME / MODULUS;
    assert Times(h) == h * PRIME - q * MODULUS;
    assert Times(h) * INVERSE == h + MODULUS * (887285111055 * h - q * INVERSE);
    RemainderOf(h, 887285111055 * h - q * INVERSE);
    var p := h * INVERSE / MODULUS;
    assert Divide(h) == h * INVERSE - p * MODULUS;
    assert Divide(h) * PRIME == h + MODULUS * (887285111055 * h - p * PRIME);
    RemainderOf(h, 887285111055 * h - p * PRIME);
  }

  lemma RemainderOf(h: Word, k: int)
    ensures (h + MODULUS * k) % MODULUS == h
  {
  }

  /** The step that undoes a step. */
  function Unstep(h: Word, b: Byte): Word {
    Mix(Divide(h), b)
  }

  /** For a fixed byte, a step permutes the 2^64 states. */
  lemma StepIsBijective(h: Word, b: Byte)
    ensures Unstep(Step(h, b), b) == h
    ensures Step(Unstep(h, b), b) == h
  {
    TimesDivide(Mix(h, b));
    TimesDivide(h);
    MixTwice(h, b);
    MixTwice(Divide(h), b);
  }

  lemma {:induction false} XorCommutes(x: nat, y: nat)
    ensures Xor(x, y) == Xor(y, x)
    decreases x + y
  {
    if x != 0 || y != 0 {
      XorCommutes(x / 2, y / 2);
    }
  }

  lemma XorCancels(x: nat, y: nat, z: nat)
    requires Xor(x, y) == Xor(x, z)
    ensures y == z
  {
    XorCommutes(x, y);
    XorCommutes(x, z);
    XorTwice(y, x);
    XorTwice(z, x);
  }

  /** For a fixed state, different bytes lead to different states. */
  lemma StepSeparatesBytes(h: Word, a: Byte, b: Byte)
    requires Step(h, a) == Step(h, b)
    ensures a == b
  {
    TimesDivide(Mix(h, a));
    TimesDivide(Mix(h, b));
    XorCancels(h, a, b);
  }

  /** A shared suffix neither creates nor removes a collision. */
  lemma {:induction false} SuffixKeepsCollisions(h1: Word, h2: Word, suffix: Bytes)
    ensures Fold(h1, suffix) == Fold(h2, suffix) <==> h1 == h2
    decreases |suffix|
  {
    if suffix != [] {
      StepIsBijective(h1, suffix[0]);
      StepIsBijective(h2, suffix[0]);
      SuffixKeepsCollisions(Step(h1, suffix[0]), Step(h2, suffix[0]), suffix[1..]);
    }
  }

  lemma FoldOne(h: Word, b: Byte)
    ensures Fold(h, [b]) == Step(h, b)
  {
    assert [b][1..] == [];
  }

  /** Inputs of one length that differ in exactly one byte never collide. */
  lemma OneByteSeparates(prefix: Bytes, a: Byte, b: Byte, suffix: Bytes)
    requires a != b
    ensures Hash(prefix + [a] + suffix) != Hash(prefix + [b] + suffix)
  {
    var h := Hash(prefix);
    FoldConcat(OFFSET_BASIS, prefix + [a], suffix);
    FoldConcat(OFFSET_BASIS, prefix + [b], suffix);
    FoldConcat(OFFSET_BASIS, prefix, [a]);
    FoldConcat(OFFSET_BASIS, prefix, [b]);
    FoldOne(h, a);
    FoldOne(h, b);
    SuffixKeepsCollisions(Step(h, a), Step(h, b), suffix);
    if Step(h, a) == Step(h, b) {
      StepSeparatesBytes(h, a, b);
    }
  }
}
