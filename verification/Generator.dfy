/** The deterministic bit source of seed vectors: FNV-1a of the text, four splitmix64
    words as the state, and xoshiro256+ outputs, all on 64-bit wrap-around words. */
module Generator {
  import opened BitWords

  /** The four state words of `Xoshiro256Plus`. */
  datatype State = State(s0: Word, s1: Word, s2: Word, s3: Word)

  const ZERO := State(0, 0, 0, 0)
  const GAMMA: Word := 0x9E3779B97F4A7C15
  const MIX_A: Word := 0xBF58476D1CE4E5B9
  const MIX_B: Word := 0x94D049BB133111EB
  const UNMIX_A: Word := 0x96DE1B173F119089
  const UNMIX_B: Word := 0x319642B2D24D8EC3
  const FNV_OFFSET: Word := 0xcbf29ce484222325
  const FNV_PRIME: Word := 0x100000001b3

  // --------------------------------------------------------------- splitmix64

  /** The finalizer of `splitmix64`, applied to the already incremented counter. */
  function Mix(z: Word): Word {
    var z1 := WrappingMul(XorShiftRight(z, 30), MIX_A);
    var z2 := WrappingMul(XorShiftRight(z1, 27), MIX_B);
    XorShiftRight(z2, 31)
  }

  /** Its inverse: undo the xor-shifts, multiply by the inverses modulo 2^64. */
  function Unmix(y: Word): Word {
    var z2 := WrappingMul(UnXorShiftRight(y, 31), UNMIX_B);
    var z1 := WrappingMul(UnXorShiftRight(z2, 27), UNMIX_A);
    UnXorShiftRight(z1, 30)
  }

  lemma MulOut(a: int, m: int, w: int, r: int)
    ensures a * (m * w + r) == (a * m) * w + a * r
  {
    assert a * (m * w) == (a * m) * w;
  }

  lemma ProductUndone(z: Word, c: Word, d: Word)
    requires (c * d) % WORD_SIZE == 1
    ensures WrappingMul(WrappingMul(z, c), d) == z
  {
    var k, q, r := (c * d) / WORD_SIZE, (z * c) / WORD_SIZE, (z * c) % WORD_SIZE;
    assert c * d == k * WORD_SIZE + 1 && z * c == q * WORD_SIZE + r;
    MulOut(z, k, WORD_SIZE, 1);
    MulOut(d, q, WORD_SIZE, r);
    assert (z * c) * d == z * (c * d) by { Associates(z, c, d); }
    RemainderOfMultiple(r * d, z * k - d * q, z);
  }

  lemma Associates(a: int, b: int, c: int)
    ensures (a * b) * c == a * (b * c)
  {
  }

  lemma RemainderOfMultiple(x: int, m: int, z: Word)
    requires x == m * WORD_SIZE + z
    ensures x % WORD_SIZE == z
  {
  }

  /** The finalizer of splitmix64 is a bijection on 64-bit words. */
  lemma MixIsBijection(z: Word)
    ensures Unmix(Mix(z)) == z
    ensures Mix(Unmix(z)) == z
  {
    hide XorShiftRight, UnXorShiftRight, WrappingMul;
    var a := XorShiftRight(z, 30);
    var z1 := WrappingMul(a, MIX_A);
    var b := XorShiftRight(z1, 27);
    var z2 := WrappingMul(b, MIX_B);
    XorShiftRightUndone(z, 30);
    ProductUndone(a, MIX_A, UNMIX_A);
    XorShiftRightUndone(z1, 27);
    ProductUndone(b, MIX_B, UNMIX_B);
    XorShiftRightUndone(z2, 31);
    var p := UnXorShiftRight(z, 31);
    var y2 := WrappingMul(p, UNMIX_B);
    var q := UnXorShiftRight(y2, 27);
    var y1 := WrappingMul(q, UNMIX_A);
    XorShiftRightUndone(z, 31);
    ProductUndone(p, UNMIX_B, MIX_B);
    XorShiftRightUndone(y2, 27);
    ProductUndone(q, UNMIX_A, MIX_A);
    XorShiftRightUndone(y1, 30);
  }

  /** `splitmix64`: bump the counter, then mix it. */
  method SplitMix64(state: Word) returns (next: Word, z: Word)
    ensures next == WrappingAdd(state, GAMMA)
    ensures z == Mix(next)
  {
    next := WrappingAdd(state, GAMMA);
    z := next;
    z := WrappingMul(Xor(z, ShiftRight(z, 30)), MIX_A);
    z := WrappingMul(Xor(z, ShiftRight(z, 27)), MIX_B);
    z := Xor(z, ShiftRight(z, 31));
  }

  // --------------------------------------------------------------- xoshiro256+

  /** The counter after n increments. */
  function Counter(seed: Word, n: nat): Word {
    if n == 0 then seed else WrappingAdd(Counter(seed, n - 1), GAMMA)
  }

  /** The counter runs through the multiples of the constant, from the seed on. */
  lemma {:induction false} CounterIs(seed: Word, n: nat)
    ensures Counter(seed, n) == (seed + n * 0x9E3779B97F4A7C15) % WORD_SIZE
  {
    if n > 0 {
      CounterIs(seed, n - 1);
      var x := seed + (n - 1) * GAMMA;
      assert seed + n * GAMMA == x + GAMMA;
      WrapOnce(x);
    }
  }

  lemma WrapOnce(x: nat)
    ensures (x % WORD_SIZE + GAMMA) % WORD_SIZE == (x + GAMMA) % WORD_SIZE
  {
    var q, s := x / WORD_SIZE, x % WORD_SIZE + GAMMA;
    if s < WORD_SIZE {
      RemainderOfMultiple(x + GAMMA, q, s);
    } else {
      RemainderOfMultiple(x + GAMMA, q + 1, s - WORD_SIZE);
    }
  }

  function Seeded(seed: Word): State {
    State(Mix(Counter(seed, 1)), Mix(Counter(seed, 2)), Mix(Counter(seed, 3)), Mix(Counter(seed, 4)))
  }

  function Output(s: State): Word {
    WrappingAdd(s.s0, s.s3)
  }

  /** One step of the state. */
  function Step(s: State): State {
    var t := ShiftLeft(s.s1, 17);
    var a2 := Xor(s.s2, s.s0);
    var a3 := Xor(s.s3, s.s1);
    State(Xor(s.s0, a3), Xor(s.s1, a2), Xor(a2, t), RotateWord(a3, 45))
  }

  /** The state one step earlier. */
  function Unstep(s: State): State {
    var a3 := RotateWord(s.s3, 19);
    var s0 := Xor(s.s0, a3);
    var s1 := UnXorShiftLeft(Xor(s.s1, s.s2), 17);
    var a2 := Xor(s.s1, s1);
    State(s0, s1, Xor(a2, s0), Xor(a3, s1))
  }

  /** The step is a bijection on its image, and only the zero state steps to the zero state. */
  lemma StepIsInjective(s: State)
    ensures Unstep(Step(s)) == s
    ensures Step(s) == ZERO <==> s == ZERO
  {
    hide Xor, ShiftLeft, RotateWord, UnXorShiftLeft;
    var t := ShiftLeft(s.s1, 17);
    var a2, a3 := Xor(s.s2, s.s0), Xor(s.s3, s.s1);
    RotateWordUndone(a3, 45);
    XorCancels(s.s0, a3);
    XorCancels(s.s3, s.s1);
    XorCancels(s.s2, s.s0);
    XorCancels(a2, s.s1);
    XorMiddle(s.s1, a2, t);
    XorShiftLeftUndone(s.s1, 17);
    StepOfZero();
    UnstepOfZero();
  }

  lemma StepOfZero()
    ensures Step(ZERO) == ZERO
  {
    ZeroStays(17);
    ZeroStays(45);
  }

  lemma {:induction false} ZeroStays(k: nat)
    ensures ShiftLeft(0, k) == 0 && ShiftRight(0, k) == 0
    ensures BitXor(0, 0) == 0 == BitOr(0, 0)
    ensures k <= WORD_BITS ==> RotateWord(0, k) == 0
  {
    if k > 0 {
      ZeroStays(k - 1);
    }
    forall i: nat | i <= k
      ensures ShiftRight(0, i) == 0
    {
      ShiftRightZero(i);
    }
    if k <= WORD_BITS {
      ShiftRightZero(WORD_BITS - k);
    }
  }

  lemma {:induction false} ShiftRightZero(k: nat)
    ensures ShiftRight(0, k) == 0
  {
    if k > 0 {
      ShiftRightZero(k - 1);
    }
  }

  lemma UnstepOfZero()
    ensures Unstep(ZERO) == ZERO
  {
    ZeroStays(19);
    ZeroStays(17);
    ZeroStays(34);
    ZeroStays(51);
  }

  /** The state after n outputs. */
  function StateAfter(s: State, n: nat): State {
    if n == 0 then s else Step(StateAfter(s, n - 1))
  }

  /** From any seed the generator never reaches the all-zero state, where it would stick. */
  lemma {:induction false} NeverAllZero(seed: Word, n: nat)
    ensures StateAfter(Seeded(seed), n) != ZERO
  {
    hide Mix, Unmix, Step;
    if n == 0 {
      MixIsBijection(Counter(seed, 1));
      MixIsBijection(Counter(seed, 2));
      assert Counter(seed, 1) != Counter(seed, 2);
    } else {
      NeverAllZero(seed, n - 1);
      StepIsInjective(StateAfter(Seeded(seed), n - 1));
    }
  }

  /** `Xoshiro256Plus` */
  class Xoshiro256Plus {
    var s: State

    /** `seed_from_u64`: four splitmix64 words. */
    constructor SeedFromU64(seed: Word)
      ensures s == Seeded(seed)
      ensures s == State(Mix(Counter(seed, 1)), Mix(Counter(seed, 2)), Mix(Counter(seed, 3)), Mix(Counter(seed, 4)))
    {
      hide Mix, WrappingAdd;
      var x, words: seq<Word> := seed, [0, 0, 0, 0];
      for i := 0 to 4
        invariant x == Counter(seed, i) && |words| == 4
        invariant forall j: nat | j < i :: words[j] == Mix(Counter(seed, j + 1))
      {
        var z;
        x, z := SplitMix64(x);
        words := words[i := z];
      }
      s := State(words[0], words[1], words[2], words[3]);
    }

    /** `next_u64` */
    method NextU64() returns (result: Word)
      modifies this
      ensures result == (old(s).s0 + old(s).s3) % 0x1_0000_0000_0000_0000
      ensures result == Output(old(s))
      ensures s == Step(old(s))
    {
      result := WrappingAdd(s.s0, s.s3);
      var t := ShiftLeft(s.s1, 17);
      s := s.(s2 := Xor(s.s2, s.s0));
      s := s.(s3 := Xor(s.s3, s.s1));
      s := s.(s1 := Xor(s.s1, s.s2));
      s := s.(s0 := Xor(s.s0, s.s3));
      s := s.(s2 := Xor(s.s2, t));
      s := s.(s3 := RotateWord(s.s3, 45));
    }
  }

  // -------------------------------------------------------------------- FNV-1a

  type Byte = b: nat | b < 256

  function Fnv1a(text: seq<Byte>): Word {
    if text == [] then FNV_OFFSET
    else WrappingMul(Xor(Fnv1a(text[..|text| - 1]), text[|text| - 1]), FNV_PRIME)
  }

  /** `fnv1a_hash64` over the bytes of the text. */
  method Fnv1aHash64(text: seq<Byte>) returns (hash: Word)
    ensures hash == Fnv1a(text)
  {
    hash := FNV_OFFSET;
    for i := 0 to |text|
      invariant hash == Fnv1a(text[..i])
    {
      assert text[..i + 1][..i] == text[..i];
      hash := Xor(hash, text[i]);
      hash := WrappingMul(hash, FNV_PRIME);
    }
    assert text[..|text|] == text;
  }

  /** The i-th coin of a text: the low bit of the i-th output. */
  predicate Coin(text: seq<Byte>, i: nat) {
    Output(StateAfter(Seeded(Fnv1a(text)), i)) % 2 == 1
  }

  /** A coin shows whether the outer state words differ in their low bits. */
  lemma CoinIsParity(text: seq<Byte>, i: nat)
    ensures var s := StateAfter(Seeded(Fnv1a(text)), i);
      Coin(text, i) <==> s.s0 % 2 != s.s3 % 2
  {
    hide StateAfter, Seeded, Fnv1a, Output;
    OutputParity(StateAfter(Seeded(Fnv1a(text)), i));
  }

  lemma OutputParity(s: State)
    ensures Output(s) % 2 == 1 <==> s.s0 % 2 != s.s3 % 2
  {
    var sum := s.s0 + s.s3;
    assert Output(s) == if sum < WORD_SIZE then sum else sum - WORD_SIZE;
  }
}
