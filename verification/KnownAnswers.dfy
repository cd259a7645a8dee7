/** Published test vectors of the hash and the generator behind seed vectors. */
module KnownAnswers {
  import opened BitWords
  import opened Generator

  /** Xor works on the low k bits and on the rest apart. */
  lemma {:induction false} XorParts(a: nat, b: nat, c: nat, d: nat, k: nat)
    requires c < Pow2(k) && d < Pow2(k)
    ensures BitXor(a * Pow2(k) + c, b * Pow2(k) + d) == BitXor(a, b) * Pow2(k) + BitXor(c, d)
  {
    if k > 0 {
      hide Pow2, BitXor;
      var m := Pow2(k - 1);
      HalfOfPow2(k, c);
      HalfOfPow2(k, d);
      XorParts(a, b, c / 2, d / 2, k - 1);
      XorOfHalves(a, b, c, d, m);
    }
  }

  lemma HalfOfPow2(k: nat, c: nat)
    requires k > 0 && c < Pow2(k)
    ensures Pow2(k) == 2 * Pow2(k - 1) && c / 2 < Pow2(k - 1)
  {
  }

  lemma XorOfHalves(a: nat, b: nat, c: nat, d: nat, m: nat)
    requires BitXor(a * m + c / 2, b * m + d / 2) == BitXor(a, b) * m + BitXor(c / 2, d / 2)
    ensures BitXor(a * (2 * m) + c, b * (2 * m) + d) == BitXor(a, b) * (2 * m) + BitXor(c, d)
  {
    hide BitXor;
    var x, y := a * (2 * m) + c, b * (2 * m) + d;
    Halves(a, c, m);
    Halves(b, d, m);
    assert x / 2 == a * m + c / 2 && y / 2 == b * m + d / 2 && x % 2 == c % 2 && y % 2 == d % 2;
    XorHalves(x, y);
    XorHalves(c, d);
    var q, r, p := BitXor(a, b), BitXor(c, d), BitXor(x, y);
    assert p / 2 == q * m + r / 2 && p % 2 == r % 2;
    Halves(q, r, m);
    SameHalves(p, q * (2 * m) + r);
  }

  lemma SameHalves(x: nat, y: nat)
    requires x / 2 == y / 2 && x % 2 == y % 2
    ensures x == y
  {
  }

  lemma Halves(a: nat, c: nat, m: nat)
    ensures (a * (2 * m) + c) / 2 == a * m + c / 2
    ensures (a * (2 * m) + c) % 2 == c % 2
  {
    assert a * (2 * m) == 2 * (a * m);
  }

  lemma {:induction false} ShiftLeftIs(w: Word, k: nat)
    requires w * Pow2(k) < WORD_SIZE
    ensures ShiftLeft(w, k) == w * Pow2(k)
  {
    if k > 0 {
      HalfOfPow2(k, 0);
      hide Pow2;
      Doubled(w, Pow2(k - 1));
      ShiftLeftIs(w, k - 1);
      assert ShiftLeft(w, k) == (2 * ShiftLeft(w, k - 1)) % WORD_SIZE;
      hide ShiftLeft;
      Unwrapped(2 * (w * Pow2(k - 1)));
    }
  }

  lemma Unwrapped(x: nat)
    requires x < WORD_SIZE
    ensures x % WORD_SIZE == x
  {
  }

  lemma Doubled(w: nat, p: nat)
    ensures w * (2 * p) == 2 * (w * p)
  {
  }

  /** FNV-1a, 64 bits, of the empty text and of the letter a. */
  lemma Fnv1aVectors()
    ensures Fnv1a([]) == 0xcbf29ce484222325
    ensures Fnv1a([97]) == 0xaf63dc4c8601ec8c
  {
    assert [97][..0] == [];
    assert Pow2(8) == 256 by { Pow2Adds(4, 4); assert Pow2(4) == 16; }
    XorParts(0xcbf29ce4842223, 0, 0x25, 97, 8);
    XorSelf(0xcbf29ce4842223);
    LowByte();
  }

  /** Xor, one low bit at a time. */
  lemma XorOne(a: nat, b: nat)
    ensures BitXor(a, b) == 2 * BitXor(a / 2, b / 2) + (if a % 2 == b % 2 then 0 else 1)
  {
  }

  lemma LowByte()
    ensures BitXor(0x25, 97) == 0x44
  {
    hide BitXor;
    XorOne(0x25, 97);
    XorOne(18, 48);
    XorOne(9, 24);
    XorOne(4, 12);
    XorOne(2, 6);
    XorOne(1, 3);
    XorOne(0, 1);
    XorSelf(0);
  }

  /** xoshiro256+ from the state 1, 2, 3, 4: the first two outputs, and the state between them. */
  lemma Xoshiro256PlusVectors()
    ensures var s := State(1, 2, 3, 4);
      Output(s) == 5 && Output(Step(s)) == 211106232532999 && Step(s) == State(7, 0, 262146, 211106232532992)
  {
    Powers();
    hide BitXor, ShiftLeft, RotateWord, Pow2;
    assert ShiftLeft(2, 17) == 262144 by { ShiftLeftIs(2, 17); }
    assert RotateWord(6, 45) == 211106232532992 by { SixTurned(); }
    SmallXors();
  }

  lemma Powers()
    ensures Pow2(2) == 4 && Pow2(17) == 131072 && Pow2(19) == 524288 && Pow2(45) == 35184372088832
  {
    assert Pow2(2) == 4;
    assert Pow2(15) == 32768 by { assert Pow2(5) == 32; Pow2Adds(5, 5); Pow2Adds(10, 5); }
    Pow2Adds(15, 2);
    Pow2Adds(17, 2);
    Pow2Adds(15, 15);
    Pow2Adds(30, 15);
  }

  lemma SmallXors()
    ensures BitXor(3, 1) == 2 && BitXor(4, 2) == 6 && BitXor(1, 6) == 7 && BitXor(2, 2) == 0
    ensures BitXor(2, 262144) == 262146
  {
    hide BitXor, Pow2;
    Powers();
    XorSelf(0);
    XorSelf(1);
    XorSelf(2);
    XorSelf(65536);
    XorOne(0, 1);
    XorOne(3, 1);
    XorOne(2, 1);
    XorOne(1, 0);
    XorOne(4, 2);
    XorOne(0, 3);
    XorOne(1, 6);
    XorParts(0, 65536, 2, 0, 2);
    XorCommutes(0, 65536);
  }

  lemma SixTurned()
    ensures RotateWord(6, 45) == 211106232532992
  {
    Powers();
    hide Pow2;
    ShiftLeftIs(6, 45);
    assert ShiftRight(6, 19) == 0 by { ShiftedOut(); }
    OrZero(211106232532992);
  }

  lemma ShiftedOut()
    ensures ShiftRight(6, 19) == 0
  {
    ShiftRightZero(16);
    assert ShiftRight(1, 17) == 0 && ShiftRight(3, 18) == 0;
  }

  lemma {:induction false} OrZero(a: nat)
    ensures BitOr(a, 0) == a
  {
    if a > 0 {
      OrZero(a / 2);
    }
  }
}
