/** The tracer's change detector: FNV-1a over 64-bit words with wrap-around, and what it is guaranteed to notice. */
module Fnv {

  // --- hashes made of steps that can be undone ---

  /** The state after the first `n` bytes. */
  function Absorb<S, B>(step: (S, B) -> S, state: S, data: seq<B>, n: nat): S
    requires n <= |data|
  {
    if n == 0 then state else step(Absorb(step, state, data, n - 1), data[n - 1])
  }

  /** Knowing the byte, a step can be undone; knowing the state, the byte can be read back. */
  ghost predicate Undone<S(!new), B(!new)>(step: (S, B) -> S, undo: (S, B) -> S, byte: (S, S) -> B) {
    forall s, b :: undo(step(s, b), b) == s && byte(step(s, b), s) == b
  }

  /** Equal bytes keep equal states equal and different states different, however many there are. */
  lemma {:induction false} AbsorbInjective<S(!new), B(!new)>(
    step: (S, B) -> S, undo: (S, B) -> S, byte: (S, S) -> B, state: S, d1: seq<B>, d2: seq<B>, from: nat, n: nat)
    requires Undone(step, undo, byte)
    requires from <= n <= |d1| == |d2| && (forall i :: from <= i < n ==> d1[i] == d2[i])
    ensures Absorb(step, state, d1, n) == Absorb(step, state, d2, n) <==> Absorb(step, state, d1, from) == Absorb(step, state, d2, from)
    decreases n - from
  {
    if from < n {
      AbsorbInjective(step, undo, byte, state, d1, d2, from, n - 1);
      var b := d1[n - 1];
      assert undo(step(Absorb(step, state, d1, n - 1), b), b) == Absorb(step, state, d1, n - 1);
      assert undo(step(Absorb(step, state, d2, n - 1), b), b) == Absorb(step, state, d2, n - 1);
    }
  }

  lemma {:induction false} AbsorbPrefix<S, B>(step: (S, B) -> S, state: S, d1: seq<B>, d2: seq<B>, n: nat)
    requires n <= |d1| && n <= |d2| && (forall i :: 0 <= i < n ==> d1[i] == d2[i])
    ensures Absorb(step, state, d1, n) == Absorb(step, state, d2, n)
  {
    if n > 0 {
      AbsorbPrefix(step, state, d1, d2, n - 1);
    }
  }

  lemma OneChange<S(!new), B(!new)>(step: (S, B) -> S, undo: (S, B) -> S, byte: (S, S) -> B, state: S, d1: seq<B>, d2: seq<B>, k: nat)
    requires Undone(step, undo, byte)
    requires k < |d1| == |d2| && d1[k] != d2[k] && (forall i :: 0 <= i < |d1| && i != k ==> d1[i] == d2[i])
    ensures Absorb(step, state, d1, |d1|) != Absorb(step, state, d2, |d2|)
  {
    AbsorbPrefix(step, state, d1, d2, k);
    var s := Absorb(step, state, d1, k);
    assert byte(step(s, d1[k]), s) == d1[k] && byte(step(s, d2[k]), s) == d2[k];
    AbsorbInjective(step, undo, byte, state, d1, d2, k + 1, |d1|);
  }

  // --- FNV-1a ---

  type Word = x: nat | x < 0x1_0000_0000_0000_0000
  type Byte = b: nat | b < 0x100

  /** Bitwise exclusive or. */
  function Xor(a: nat, b: nat): nat {
    if a == 0 && b == 0 then 0 else 2 * Xor(a / 2, b / 2) + (if a % 2 == b % 2 then 0 else 1)
  }

  function PowerOfTwo(bits: nat): nat {
    if bits == 0 then 1 else 2 * PowerOfTwo(bits - 1)
  }

  lemma {:induction false} XorBelow(a: nat, b: nat, bits: nat)
    requires a < PowerOfTwo(bits) && b < PowerOfTwo(bits)
    ensures Xor(a, b) < PowerOfTwo(bits)
  {
    if bits > 0 {
      XorBelow(a / 2, b / 2, bits - 1);
    }
  }

  lemma {:induction false} XorUndone(a: nat, b: nat)
    ensures Xor(Xor(a, b), b) == a && Xor(Xor(a, b), a) == b
  {
    if a != 0 || b != 0 {
      XorUndone(a / 2, b / 2);
      var x, rest := Xor(a, b), Xor(a / 2, b / 2);
      assert x / 2 == rest && x % 2 == (if a % 2 == b % 2 then 0 else 1);
      assert rest == 0 ==> (a / 2 == 0 <==> b / 2 == 0);
    }
  }

  function Mix(state: Word, b: Byte): Word {
    assert PowerOfTwo(8) == 0x100;
    assert PowerOfTwo(16) == 0x100 * PowerOfTwo(8);
    assert PowerOfTwo(24) == 0x100 * PowerOfTwo(16);
    assert PowerOfTwo(32) == 0x100 * PowerOfTwo(24);
    assert PowerOfTwo(40) == 0x100 * PowerOfTwo(32);
    assert PowerOfTwo(48) == 0x100 * PowerOfTwo(40);
    assert PowerOfTwo(56) == 0x100 * PowerOfTwo(48);
    assert PowerOfTwo(64) == 0x100 * PowerOfTwo(56);
    XorBelow(state, b, 64);
    Xor(state, b)
  }

  /** Wrapping multiplication by the FNV prime. */
  function Scramble(state: Word): Word {
    (state * 0x100_0000_01b3) % 0x1_0000_0000_0000_0000
  }

  /** Wrapping multiplication by the prime's inverse modulo 2^64. */
  function Unscramble(state: Word): Word {
    (state * 0xce96_5057_aff6_957b) % 0x1_0000_0000_0000_0000
  }

  function Step(state: Word, b: Byte): Word {
    Scramble(Mix(state, b))
  }

  function Undo(state: Word, b: Byte): Word {
    Mix(Unscramble(state), b)
  }

  /** The byte that led from one state to the next; 0 if none did. */
  function ByteOf(state: Word, before: Word): Byte {
    var b := Xor(Unscramble(state), before);
    if b < 0x100 then b else 0
  }

  const BASIS: Word := 0xcbf2_9ce4_8422_2325

  function Hash(data: seq<Byte>): Word {
    Absorb(Step, BASIS, data, |data|)
  }

  method ComputeHash(data: seq<Byte>) returns (hash: Word)
    ensures hash == Hash(data)
  {
    hash := BASIS;
    for i := 0 to |data|
      invariant hash == Absorb(Step, BASIS, data, i)
    {
      hash := Mix(hash, data[i]);
      hash := Scramble(hash);
    }
  }

  // --- what is computed ---

  /** Bit `k` of a number. */
  function Bit(x: nat, k: nat): nat {
    if k == 0 then x % 2 else Bit(x / 2, k - 1)
  }

  /** Exclusive or, bit by bit. */
  lemma {:induction false} XorBit(a: nat, b: nat, k: nat)
    ensures Bit(Xor(a, b), k) == 1 <==> Bit(a, k) != Bit(b, k)
    ensures Bit(a, k) < 2 && Bit(b, k) < 2
  {
    var rest := if a == 0 && b == 0 then 0 else Xor(a / 2, b / 2);
    assert Xor(a, b) / 2 == rest && Xor(a, b) % 2 == (if a % 2 == b % 2 then 0 else 1);
    if k > 0 {
      XorBit(a / 2, b / 2, k - 1);
    }
  }

  lemma {:induction false} XorZero(a: nat)
    ensures Xor(a, 0) == a
  {
    if a > 0 {
      XorZero(a / 2);
    }
  }

  /** FNV-1a as published: start at the offset basis; for each byte exclusive-or first, then multiply by the
      prime, modulo 2^64. */
  lemma HashSteps(d: seq<Byte>, b: Byte)
    ensures Hash([]) == 0xcbf2_9ce4_8422_2325
    ensures Hash(d + [b]) == (Xor(Hash(d), b) * 0x100_0000_01b3) % 0x1_0000_0000_0000_0000
  {
    AbsorbPrefix(Step, BASIS, d + [b], d, |d|);
  }

  lemma XorHalves(a: nat, b: nat)
    ensures Xor(a, b) == 2 * Xor(a / 2, b / 2) + if a % 2 == b % 2 then 0 else 1
  {
  }

  /** The low byte of the basis with the letter "a". */
  lemma BasisWithA()
    ensures Xor(0xcbf2_9ce4_8422_2325, 0x61) == 0xcbf2_9ce4_8422_2344
  {
    XorZero(0x197_e539_c908_4446);
    XorHalves(0x32f_ca73_9210_888c, 0x1);
    XorHalves(0x65f_94e7_2421_1119, 0x3);
    XorHalves(0xcbf_29ce_4842_2232, 0x6);
    XorHalves(0x197e_539c_9084_4464, 0xc);
    XorHalves(0x32fc_a739_2108_88c9, 0x18);
    XorHalves(0x65f9_4e72_4211_1192, 0x30);
    XorHalves(0xcbf2_9ce4_8422_2325, 0x61);
  }

  /** The published value for the one-byte string "a". */
  lemma HashOfA()
    ensures Hash([0x61]) == 0xaf63_dc4c_8601_ec8c
  {
    HashSteps([], 0x61);
    assert [] + [0x61] == [0x61];
    BasisWithA();
    Wrapped(0xcbf2_9ce4_8422_2344 * 0x100_0000_01b3, 0xcb_f29c_e5de, 0xaf63_dc4c_8601_ec8c);
  }

  lemma Wrapped(x: nat, q: nat, r: nat)
    requires x == q * 0x1_0000_0000_0000_0000 + r && r < 0x1_0000_0000_0000_0000
    ensures x % 0x1_0000_0000_0000_0000 == r
  {
  }

  lemma WrapBack(x: Word, turns: int)
    ensures (x + 0x1_0000_0000_0000_0000 * turns) % 0x1_0000_0000_0000_0000 == x
  {
  }

  lemma ScrambleUndone(x: Word)
    ensures Unscramble(Scramble(x)) == x
  {
    var q := (x * 0x100_0000_01b3) / 0x1_0000_0000_0000_0000;
    assert 0x100_0000_01b3 * 0xce96_5057_aff6_957b == 1 + 0x1_0000_0000_0000_0000 * 887285111055;
    WrapBack(x, 887285111055 * x - q * 0xce96_5057_aff6_957b);
  }

  lemma FnvUndone()
    ensures Undone(Step, Undo, ByteOf)
  {
    forall s: Word, b: Byte ensures Undo(Step(s, b), b) == s && ByteOf(Step(s, b), s) == b {
      ScrambleUndone(Mix(s, b));
      XorUndone(s, b);
    }
  }

  /** A single changed byte always changes the hash. */
  lemma OneByteChange(d1: seq<Byte>, d2: seq<Byte>, k: nat)
    requires k < |d1| == |d2| && d1[k] != d2[k] && (forall i :: 0 <= i < |d1| && i != k ==> d1[i] == d2[i])
    ensures Hash(d1) != Hash(d2)
  {
    FnvUndone();
    OneChange(Step, Undo, ByteOf, BASIS, d1, d2, k);
  }

  /** After a common suffix, two inputs of the same length collide exactly when they did before it. */
  lemma CommonSuffix(d1: seq<Byte>, d2: seq<Byte>, suffix: seq<Byte>)
    requires |d1| == |d2|
    ensures Hash(d1 + suffix) == Hash(d2 + suffix) <==> Hash(d1) == Hash(d2)
  {
    FnvUndone();
    AbsorbInjective(Step, Undo, ByteOf, BASIS, d1 + suffix, d2 + suffix, |d1|, |d1| + |suffix|);
    AbsorbPrefix(Step, BASIS, d1 + suffix, d1, |d1|);
    AbsorbPrefix(Step, BASIS, d2 + suffix, d2, |d2|);
  }
}
