/** 64-bit words as numbers, and the bitwise operations packed vectors use.
    A word is read from its low bit up, so every operation below recurses on `w / 2`. */
module BitWords {

  const WORD_BITS := 64

  function Pow2(n: nat): (p: nat)
    ensures p > 0
  {
    if n == 0 then 1 else 2 * Pow2(n - 1)
  }

  /** A `u64`. */
  type Word = w: nat | w < WORD_SIZE

  const WORD_SIZE: nat := 0x1_0000_0000_0000_0000

  /** `a.wrapping_add(b)` */
  function WrappingAdd(a: Word, b: Word): Word {
    (a + b) % WORD_SIZE
  }

  /** `a.wrapping_mul(b)` */
  function WrappingMul(a: Word, b: Word): Word {
    (a * b) % WORD_SIZE
  }

  /** Bit `i` of a word: `(w >> i) & 1 == 1`. */
  predicate Bit(w: nat, i: nat) {
    if i == 0 then w % 2 == 1 else Bit(w / 2, i - 1)
  }

  /** `a ^ b` */
  function BitXor(a: nat, b: nat): nat
    decreases a + b
  {
    if a + b == 0 then 0
    else 2 * BitXor(a / 2, b / 2) + (if a % 2 == b % 2 then 0 else 1)
  }

  /** `a | b` */
  function BitOr(a: nat, b: nat): nat
    decreases a + b
  {
    if a + b == 0 then 0
    else 2 * BitOr(a / 2, b / 2) + (if a % 2 == 1 || b % 2 == 1 then 1 else 0)
  }

  /** `a ^ b` on words. */
  function Xor(a: Word, b: Word): Word {
    WordBound();
    XorFits(a, b, WORD_BITS);
    BitXor(a, b)
  }

  /** `a | b` on words. */
  function Or(a: Word, b: Word): Word {
    WordBound();
    OrFits(a, b, WORD_BITS);
    BitOr(a, b)
  }

  /** `1 << k` */
  function One(k: nat): Word
    requires k < WORD_BITS
  {
    Pow2Fits(k, WORD_BITS);
    WordBound();
    Pow2(k)
  }

  /** `w >> k`, one place at a time. */
  function ShiftRight(w: Word, k: nat): Word {
    if k == 0 then w else ShiftRight(w / 2, k - 1)
  }

  /** `w << k`, one place at a time; the top bit drops out. */
  function ShiftLeft(w: Word, k: nat): Word {
    if k == 0 then w else (2 * ShiftLeft(w, k - 1)) % WORD_SIZE
  }

  /** `w.rotate_left(k)` */
  function RotateWord(w: Word, k: nat): Word
    requires k <= WORD_BITS
  {
    Or(ShiftLeft(w, k), ShiftRight(w, WORD_BITS - k))
  }

  /** `w.count_ones()` */
  function CountOnes(w: nat): nat {
    if w == 0 then 0 else w % 2 + CountOnes(w / 2)
  }

  lemma {:induction false} WordBound()
    ensures Pow2(WORD_BITS) == WORD_SIZE
  {
    assert Pow2(4) == 16;
    hide Pow2;
    Pow2Adds(4, 4);
    assert Pow2(8) == 256;
    Pow2Adds(8, 8);
    assert Pow2(16) == 0x1_0000;
    Pow2Adds(16, 16);
    assert Pow2(32) == 0x1_0000_0000;
    Pow2Adds(32, 32);
  }

  lemma {:induction false} Pow2Adds(a: nat, b: nat)
    ensures Pow2(a + b) == Pow2(a) * Pow2(b)
  {
    if a > 0 {
      Pow2Adds(a - 1, b);
    }
  }

  lemma {:induction false} XorFits(a: nat, b: nat, n: nat)
    requires a < Pow2(n) && b < Pow2(n)
    ensures BitXor(a, b) < Pow2(n)
  {
    if n > 0 && a + b > 0 {
      XorFits(a / 2, b / 2, n - 1);
    }
  }

  lemma {:induction false} OrFits(a: nat, b: nat, n: nat)
    requires a < Pow2(n) && b < Pow2(n)
    ensures BitOr(a, b) < Pow2(n)
  {
    if n > 0 && a + b > 0 {
      OrFits(a / 2, b / 2, n - 1);
    }
  }

  lemma {:induction false} Pow2Fits(k: nat, n: nat)
    requires k < n
    ensures Pow2(k) < Pow2(n)
  {
    if k > 0 {
      Pow2Fits(k - 1, n - 1);
    }
  }

  lemma {:induction false} BitOfZero(i: nat)
    ensures !Bit(0, i)
  {
    if i > 0 {
      BitOfZero(i - 1);
    }
  }

  /** Bit i is the binary digit of weight 2^i. */
  lemma {:induction false} BitIsDigit(w: nat, i: nat)
    ensures Bit(w, i) <==> (w / Pow2(i)) % 2 == 1
  {
    if i > 0 {
      BitIsDigit(w / 2, i - 1);
      HalveTwice(w, Pow2(i - 1));
    }
  }

  lemma HalveTwice(w: nat, p: nat)
    requires p > 0
    ensures (w / 2) / p == w / (2 * p)
  {
    var q, r := w / (2 * p), w % (2 * p);
    assert w == (2 * p) * q + r == 2 * (p * q) + r;
    assert w / 2 == p * q + r / 2 && r / 2 < p;
    QuotientIs(w / 2, q, r / 2, p);
  }

  lemma QuotientIs(x: nat, q: nat, r: nat, p: nat)
    requires r < p && x == p * q + r
    ensures x / p == q
  {
    var d := q - x / p;
    assert p * d == x % p - r;
    assert d >= 1 ==> p * d >= p;
    assert d <= -1 ==> p * d + p <= 0;
  }

  lemma {:induction false} BitOfXor(a: nat, b: nat, i: nat)
    ensures Bit(BitXor(a, b), i) <==> Bit(a, i) != Bit(b, i)
  {
    if a + b == 0 {
      BitOfZero(i);
    } else if i > 0 {
      BitOfXor(a / 2, b / 2, i - 1);
    }
  }

  lemma {:induction false} BitOfOr(a: nat, b: nat, i: nat)
    ensures Bit(BitOr(a, b), i) <==> Bit(a, i) || Bit(b, i)
  {
    if a + b == 0 {
      BitOfZero(i);
    } else if i > 0 {
      BitOfOr(a / 2, b / 2, i - 1);
    }
  }

  /** `1 << k` has exactly bit k set. */
  lemma {:induction false} BitOfPow2(k: nat, i: nat)
    ensures Bit(Pow2(k), i) <==> i == k
  {
    if k == 0 {
      if i > 0 {
        BitOfZero(i - 1);
      }
    } else if i > 0 {
      BitOfPow2(k - 1, i - 1);
    }
  }

  /** A word below 2^n is its low n bits. */
  lemma {:induction false} WordExtensional(a: nat, b: nat, n: nat)
    requires a < Pow2(n) && b < Pow2(n)
    requires forall i: nat | i < n :: Bit(a, i) == Bit(b, i)
    ensures a == b
  {
    if n > 0 {
      assert Bit(a, 0) == Bit(b, 0);
      forall i: nat | i < n - 1
        ensures Bit(a / 2, i) == Bit(b / 2, i)
      {
        assert Bit(a, i + 1) == Bit(b, i + 1);
      }
      WordExtensional(a / 2, b / 2, n - 1);
    }
  }

  lemma {:induction false} BitBeyond(w: nat, n: nat, i: nat)
    requires w < Pow2(n) && n <= i
    ensures !Bit(w, i)
  {
    if n > 0 {
      BitBeyond(w / 2, n - 1, i - 1);
    } else {
      BitOfZero(i);
    }
  }

  lemma {:induction false} BitOfShiftRight(w: Word, k: nat, i: nat)
    ensures Bit(ShiftRight(w, k), i) == Bit(w, i + k)
  {
    if k > 0 {
      BitOfShiftRight(w / 2, k - 1, i);
    }
  }

  lemma {:induction false} BitIgnoresHigher(w: nat, n: nat, i: nat)
    requires i < n
    ensures Bit(w + Pow2(n), i) == Bit(w, i)
  {
    if i > 0 {
      assert (w + Pow2(n)) / 2 == w / 2 + Pow2(n - 1);
      BitIgnoresHigher(w / 2, n - 1, i - 1);
    }
  }

  /** Doubling moves every bit up by one. */
  lemma BitOfDouble(m: Word, i: nat)
    requires i < WORD_BITS
    ensures Bit((2 * m) % WORD_SIZE, i) == (i > 0 && Bit(m, i - 1))
  {
    var doubled := (2 * m) % WORD_SIZE;
    WordBound();
    if 2 * m >= WORD_SIZE {
      BitIgnoresHigher(doubled, WORD_BITS, i);
    }
    assert Bit(2 * m, i) == Bit(doubled, i);
    assert (2 * m) % 2 == 0 && (2 * m) / 2 == m;
  }

  lemma {:induction false} BitOfShiftLeft(w: Word, k: nat, i: nat)
    requires i < WORD_BITS
    ensures Bit(ShiftLeft(w, k), i) == (k <= i && Bit(w, i - k))
  {
    if k > 0 {
      BitOfDouble(ShiftLeft(w, k - 1), i);
      hide Bit;
      if i > 0 {
        BitOfShiftLeft(w, k - 1, i - 1);
      }
    }
  }

  /** Rotation moves bit i - k (cyclically) to place i. */
  lemma BitOfRotateWord(w: Word, k: nat, i: nat)
    requires 0 < k < WORD_BITS && i < WORD_BITS
    ensures Bit(RotateWord(w, k), i) == Bit(w, if k <= i then i - k else i + WORD_BITS - k)
  {
    BitOfOr(ShiftLeft(w, k), ShiftRight(w, WORD_BITS - k), i);
    BitOfShiftLeft(w, k, i);
    BitOfShiftRight(w, WORD_BITS - k, i);
    if k <= i {
      WordBound();
      BitBeyond(w, WORD_BITS, i + WORD_BITS - k);
    }
  }

  lemma SameBitsSameWord(a: Word, b: Word)
    requires forall i: nat | i < WORD_BITS :: Bit(a, i) == Bit(b, i)
    ensures a == b
  {
    WordBound();
    WordExtensional(a, b, WORD_BITS);
  }

  lemma {:induction false} XorCommutes(a: nat, b: nat)
    ensures BitXor(a, b) == BitXor(b, a)
    decreases a + b
  {
    if a + b > 0 {
      XorCommutes(a / 2, b / 2);
    }
  }

  lemma {:induction false} XorSelf(a: nat)
    ensures BitXor(a, a) == 0 && BitXor(a, 0) == a
  {
    if a > 0 {
      XorSelf(a / 2);
    }
  }

  /** The last bit and the rest of an xor. */
  lemma XorHalves(a: nat, b: nat)
    ensures BitXor(a, b) / 2 == BitXor(a / 2, b / 2)
    ensures BitXor(a, b) % 2 == if a % 2 == b % 2 then 0 else 1
  {
  }

  lemma {:induction false} XorAssociates(a: nat, b: nat, c: nat)
    ensures BitXor(BitXor(a, b), c) == BitXor(a, BitXor(b, c))
    decreases a + b + c
  {
    if a + b + c > 0 {
      XorAssociates(a / 2, b / 2, c / 2);
      var l, r := BitXor(BitXor(a, b), c), BitXor(a, BitXor(b, c));
      XorHalves(a, b);
      XorHalves(b, c);
      XorHalves(BitXor(a, b), c);
      XorHalves(a, BitXor(b, c));
      hide BitXor;
      assert l / 2 == r / 2 && l % 2 == r % 2;
    }
  }

  lemma XorLaws(a: nat, b: nat, c: nat)
    ensures BitXor(a, b) == BitXor(b, a)
    ensures BitXor(BitXor(a, b), c) == BitXor(a, BitXor(b, c))
    ensures BitXor(a, a) == 0 && BitXor(a, 0) == a
  {
    XorCommutes(a, b);
    XorAssociates(a, b, c);
    XorSelf(a);
  }

  /** A second xor with the same word undoes the first. */
  lemma XorCancels(a: Word, b: Word)
    ensures Xor(Xor(a, b), b) == a && Xor(Xor(b, a), b) == a && Xor(b, Xor(b, a)) == a
  {
    XorLaws(a, b, b);
    XorLaws(b, b, a);
    XorLaws(a, b, a);
    XorLaws(b, a, b);
    XorLaws(b, 0, 0);
    XorLaws(a, 0, 0);
    XorLaws(0, a, 0);
  }

  lemma XorMiddle(a: Word, b: Word, c: Word)
    ensures Xor(Xor(a, b), Xor(b, c)) == Xor(a, c)
  {
    XorLaws(a, b, BitXor(b, c));
    XorLaws(b, b, c);
    XorLaws(0, c, 0);
    XorLaws(c, 0, 0);
  }

  lemma RotateWordUndone(w: Word, k: nat)
    requires 0 < k < WORD_BITS
    ensures RotateWord(RotateWord(w, k), WORD_BITS - k) == w
  {
    var r := RotateWord(w, k);
    forall i: nat | i < WORD_BITS
      ensures Bit(RotateWord(r, WORD_BITS - k), i) == Bit(w, i)
    {
      BitOfRotateWord(r, WORD_BITS - k, i);
      BitOfRotateWord(w, k, if WORD_BITS - k <= i then i - (WORD_BITS - k) else i + k);
    }
    SameBitsSameWord(RotateWord(r, WORD_BITS - k), w);
  }

  /** `w ^ (w >> k)` */
  function XorShiftRight(w: Word, k: nat): Word {
    Xor(w, ShiftRight(w, k))
  }

  /** `w ^ (w << k)` */
  function XorShiftLeft(w: Word, k: nat): Word {
    Xor(w, ShiftLeft(w, k))
  }

  /** Undoes `XorShiftRight`: bit i is the sum of bits i, i + k, i + 2k, ... */
  function UnXorShiftRight(y: Word, k: nat): Word
    requires k > 0
  {
    Xor(y, Xor(ShiftRight(y, k), ShiftRight(y, 2 * k)))
  }

  /** Undoes `XorShiftLeft`. */
  function UnXorShiftLeft(y: Word, k: nat): Word
    requires k > 0
  {
    Xor(Xor(y, ShiftLeft(y, k)), Xor(ShiftLeft(y, 2 * k), ShiftLeft(y, 3 * k)))
  }

  lemma BitOfXorShiftRight(w: Word, k: nat, i: nat)
    ensures Bit(XorShiftRight(w, k), i) <==> Bit(w, i) != Bit(w, i + k)
  {
    BitOfXor(w, ShiftRight(w, k), i);
    BitOfShiftRight(w, k, i);
  }

  lemma BitOfUnXorShiftRight(y: Word, k: nat, i: nat)
    requires k > 0
    ensures Bit(UnXorShiftRight(y, k), i) <==> Bit(y, i) != (Bit(y, i + k) != Bit(y, i + 2 * k))
  {
    BitOfXor(y, Xor(ShiftRight(y, k), ShiftRight(y, 2 * k)), i);
    BitOfXor(ShiftRight(y, k), ShiftRight(y, 2 * k), i);
    BitOfShiftRight(y, k, i);
    BitOfShiftRight(y, 2 * k, i);
  }

  /** For shifts of at least a third of the word the two are inverse, in both orders. */
  lemma XorShiftRightUndone(w: Word, k: nat)
    requires WORD_BITS <= 3 * k
    ensures UnXorShiftRight(XorShiftRight(w, k), k) == w
    ensures XorShiftRight(UnXorShiftRight(w, k), k) == w
  {
    var y, u := XorShiftRight(w, k), UnXorShiftRight(w, k);
    forall i: nat | i < WORD_BITS
      ensures Bit(UnXorShiftRight(y, k), i) == Bit(w, i)
      ensures Bit(XorShiftRight(u, k), i) == Bit(w, i)
    {
      BitOfUnXorShiftRight(y, k, i);
      BitOfXorShiftRight(w, k, i);
      BitOfXorShiftRight(w, k, i + k);
      BitOfXorShiftRight(w, k, i + 2 * k);
      BitOfXorShiftRight(u, k, i);
      BitOfUnXorShiftRight(w, k, i);
      BitOfUnXorShiftRight(w, k, i + k);
      WordBound();
      BitBeyond(w, WORD_BITS, i + 3 * k);
    }
    SameBitsSameWord(UnXorShiftRight(y, k), w);
    SameBitsSameWord(XorShiftRight(u, k), w);
  }

  lemma BitOfXorShiftLeft(w: Word, k: nat, i: nat)
    requires i < WORD_BITS
    ensures Bit(XorShiftLeft(w, k), i) <==> Bit(w, i) != (k <= i && Bit(w, i - k))
  {
    BitOfXor(w, ShiftLeft(w, k), i);
    BitOfShiftLeft(w, k, i);
  }

  lemma XorShiftLeftUndone(w: Word, k: nat)
    requires WORD_BITS <= 4 * k
    ensures UnXorShiftLeft(XorShiftLeft(w, k), k) == w
  {
    var y := XorShiftLeft(w, k);
    forall i: nat | i < WORD_BITS
      ensures Bit(UnXorShiftLeft(y, k), i) == Bit(w, i)
    {
      BitOfXor(Xor(y, ShiftLeft(y, k)), Xor(ShiftLeft(y, 2 * k), ShiftLeft(y, 3 * k)), i);
      BitOfXor(y, ShiftLeft(y, k), i);
      BitOfXor(ShiftLeft(y, 2 * k), ShiftLeft(y, 3 * k), i);
      BitOfShiftLeft(y, k, i);
      BitOfShiftLeft(y, 2 * k, i);
      BitOfShiftLeft(y, 3 * k, i);
      BitOfXorShiftLeft(w, k, i);
      if k <= i { BitOfXorShiftLeft(w, k, i - k); }
      if 2 * k <= i { BitOfXorShiftLeft(w, k, i - 2 * k); }
      if 3 * k <= i { BitOfXorShiftLeft(w, k, i - 3 * k); }
    }
    SameBitsSameWord(UnXorShiftLeft(y, k), w);
  }

  /** The low n bits of a word, lowest first. */
  function LowBits(w: nat, n: nat): (bits: seq<bool>)
    ensures |bits| == n
    ensures forall i: nat | i < n :: bits[i] == Bit(w, i)
  {
    if n == 0 then [] else [w % 2 == 1] + LowBits(w / 2, n - 1)
  }

  /** The number of true entries. */
  function CountTrue(s: seq<bool>): nat {
    if s == [] then 0 else (if s[0] then 1 else 0) + CountTrue(s[1..])
  }

  /** Population count is the number of set bits. */
  lemma {:induction false} CountOnesIsCountTrue(w: nat, n: nat)
    requires w < Pow2(n)
    ensures CountOnes(w) == CountTrue(LowBits(w, n))
  {
    if n > 0 {
      CountOnesIsCountTrue(w / 2, n - 1);
      assert LowBits(w, n)[1..] == LowBits(w / 2, n - 1);
    }
  }
}
