/** Hyper-dimensional 0/1 vectors packed into 64-bit lanes, and the laws that make the
    packed form behave as a plain sequence of booleans. */
module BitVectors {
  import opened BitWords
  import opened Generator

  datatype BitVec = BitVec(dim: nat, lanes: seq<Word>)

  function LaneCount(dim: nat): nat {
    (dim + 63) / 64
  }

  /** As many lanes as it takes to hold the bits, and no more. */
  lemma LanesAreEnough(dim: nat)
    ensures 64 * (LaneCount(dim) - 1) < dim <= 64 * LaneCount(dim)
  {
  }

  /** `BitVec::new` */
  function New(dim: nat): BitVec {
    BitVec(dim, seq(LaneCount(dim), i => 0))
  }

  /** Exactly the lanes the dimension needs, and nothing set beyond the dimension. */
  ghost predicate WellFormed(v: BitVec) {
    && |v.lanes| == LaneCount(v.dim)
    && forall i: nat | v.dim <= i < 64 * |v.lanes| :: !GetBit(v, i)
  }

  /** `get_bit`; the source panics when the lane does not exist. */
  predicate GetBit(v: BitVec, i: nat)
    requires i / 64 < |v.lanes|
  {
    Bit(v.lanes[i / 64], i % 64)
  }

  /** Bits are numbered from the low end of the first lane. */
  lemma GetBitIsDigit(v: BitVec, i: nat)
    requires i / 64 < |v.lanes|
    ensures GetBit(v, i) <==> (v.lanes[i / 64] / Pow2(i % 64)) % 2 == 1
  {
    BitIsDigit(v.lanes[i / 64], i % 64);
  }

  /** `set_bit` on the updated copy. */
  function SetBit(v: BitVec, i: nat): BitVec
    requires i / 64 < |v.lanes|
  {
    v.(lanes := v.lanes[i / 64 := Or(v.lanes[i / 64], One(i % 64))])
  }

  function Min(a: nat, b: nat): nat {
    if a < b then a else b
  }

  /** The lanes of `xor`: a zip, so the shorter vector decides the length. */
  function XorLanes(a: seq<Word>, b: seq<Word>): seq<Word> {
    seq(Min(|a|, |b|), i requires 0 <= i < |a| && i < |b| => BitWords.Xor(a[i], b[i]))
  }

  /** `xor`; the source asserts equal dimensions. */
  function Xor(a: BitVec, b: BitVec): BitVec
    requires a.dim == b.dim
  {
    BitVec(a.dim, XorLanes(a.lanes, b.lanes))
  }

  function SumOfOnes(lanes: seq<Word>): nat {
    if lanes == [] then 0 else CountOnes(lanes[0]) + SumOfOnes(lanes[1..])
  }

  /** `hamming_distance`: population counts of the xored lanes, summed. */
  function HammingDistance(a: BitVec, b: BitVec): nat
    requires a.dim == b.dim
  {
    SumOfOnes(XorLanes(a.lanes, b.lanes))
  }

  /** The vector as the sequence of booleans it stands for. */
  function Bits(v: BitVec): (bits: seq<bool>)
    requires |v.lanes| == LaneCount(v.dim)
    ensures |bits| == v.dim
    ensures forall i: nat | i < v.dim :: bits[i] == GetBit(v, i)
  {
    seq(v.dim, i requires 0 <= i < v.dim => GetBit(v, i))
  }

  // ---------------------------------------------------------------- packing

  lemma NewIsAllFalse(dim: nat)
    ensures WellFormed(New(dim))
    ensures forall i: nat | i < dim :: !Bits(New(dim))[i]
  {
    forall i: nat | i < 64 * LaneCount(dim)
      ensures !GetBit(New(dim), i)
    {
      BitOfZero(i % 64);
    }
  }

  lemma SetBitSets(v: BitVec, k: nat, i: nat)
    requires k / 64 < |v.lanes| && i / 64 < |v.lanes|
    ensures GetBit(SetBit(v, k), i) <==> GetBit(v, i) || i == k
  {
    if i / 64 == k / 64 {
      BitOfOr(v.lanes[k / 64], One(k % 64), i % 64);
      BitOfPow2(k % 64, i % 64);
    }
  }

  /** Setting a bit inside the dimension keeps a well-formed vector well-formed. */
  lemma SetBitKeepsWellFormed(v: BitVec, k: nat)
    requires WellFormed(v) && k < v.dim
    ensures WellFormed(SetBit(v, k))
    ensures Bits(SetBit(v, k)) == Bits(v)[k := true]
  {
    forall i: nat | i < 64 * |v.lanes|
      ensures GetBit(SetBit(v, k), i) <==> GetBit(v, i) || i == k
    {
      SetBitSets(v, k, i);
    }
  }

  /** Well-formed vectors are their bits: equal bits, equal lanes. */
  lemma BitsDetermineVector(a: BitVec, b: BitVec)
    requires WellFormed(a) && WellFormed(b)
    requires Bits(a) == Bits(b)
    ensures a == b
  {
    assert a.dim == |Bits(a)| == b.dim;
    forall l: nat | l < |a.lanes|
      ensures a.lanes[l] == b.lanes[l]
    {
      forall i: nat | i < 64
        ensures Bit(a.lanes[l], i) == Bit(b.lanes[l], i)
      {
        var p := 64 * l + i;
        assert p / 64 == l && p % 64 == i;
        assert Bit(a.lanes[l], i) == GetBit(a, p);
        assert Bit(b.lanes[l], i) == GetBit(b, p);
        if p < a.dim {
          assert Bits(a)[p] == Bits(b)[p];
        }
      }
      WordBound();
      WordExtensional(a.lanes[l], b.lanes[l], 64);
    }
  }

  // -------------------------------------------------------- distance as a count

  function Differences(a: seq<bool>, b: seq<bool>): (d: seq<bool>)
    requires |a| == |b|
    ensures |d| == |a|
  {
    seq(|a|, i requires 0 <= i < |a| && |a| == |b| => a[i] != b[i])
  }

  /** All bits of all lanes, padding included. */
  function LaneBits(lanes: seq<Word>): seq<bool> {
    if lanes == [] then [] else LowBits(lanes[0], 64) + LaneBits(lanes[1..])
  }

  lemma {:induction false} LaneBitsAt(lanes: seq<Word>, i: nat)
    requires i < 64 * |lanes|
    ensures |LaneBits(lanes)| == 64 * |lanes|
    ensures LaneBits(lanes)[i] == Bit(lanes[i / 64], i % 64)
  {
    if |lanes| > 1 {
      if i < 64 {
        LaneBitsAt(lanes[1..], 0);
      } else {
        LaneBitsAt(lanes[1..], i - 64);
        assert (i - 64) / 64 == i / 64 - 1 && (i - 64) % 64 == i % 64;
      }
    }
  }

  lemma {:induction false} CountTrueAppend(a: seq<bool>, b: seq<bool>)
    ensures CountTrue(a + b) == CountTrue(a) + CountTrue(b)
  {
    if a == [] {
      assert a + b == b;
    } else {
      CountTrueAppend(a[1..], b);
      assert (a + b)[1..] == a[1..] + b;
    }
  }

  lemma {:induction false} CountTrueNone(a: seq<bool>)
    requires forall i | 0 <= i < |a| :: !a[i]
    ensures CountTrue(a) == 0
  {
    if a != [] {
      CountTrueNone(a[1..]);
    }
  }

  lemma {:induction false} SumOfOnesCounts(lanes: seq<Word>)
    ensures SumOfOnes(lanes) == CountTrue(LaneBits(lanes))
  {
    if lanes != [] {
      WordBound();
      CountOnesIsCountTrue(lanes[0], 64);
      SumOfOnesCounts(lanes[1..]);
      CountTrueAppend(LowBits(lanes[0], 64), LaneBits(lanes[1..]));
    }
  }

  lemma XorBits(a: BitVec, b: BitVec)
    requires WellFormed(a) && WellFormed(b) && a.dim == b.dim
    ensures WellFormed(Xor(a, b))
    ensures Bits(Xor(a, b)) == Differences(Bits(a), Bits(b))
  {
    forall i: nat | i < 64 * |a.lanes|
      ensures GetBit(Xor(a, b), i) <==> GetBit(a, i) != GetBit(b, i)
    {
      BitOfXor(a.lanes[i / 64], b.lanes[i / 64], i % 64);
    }
  }

  lemma {:induction false} CountIsBits(v: BitVec)
    requires WellFormed(v)
    ensures SumOfOnes(v.lanes) == CountTrue(Bits(v))
  {
    var all := LaneBits(v.lanes);
    forall i: nat | i < 64 * |v.lanes|
      ensures |all| == 64 * |v.lanes| && all[i] == GetBit(v, i)
    {
      LaneBitsAt(v.lanes, i);
    }
    SumOfOnesCounts(v.lanes);
    if v.lanes == [] {
      assert Bits(v) == [] == all;
    } else {
      assert |all| == 64 * |v.lanes| by { LaneBitsAt(v.lanes, 0); }
      assert all == all[..v.dim] + all[v.dim..];
      assert all[..v.dim] == Bits(v);
      CountTrueAppend(all[..v.dim], all[v.dim..]);
      CountTrueNone(all[v.dim..]);
    }
  }

  /** Lane-wise population counts count the positions where the two vectors differ. */
  lemma HammingCountsDifferences(a: BitVec, b: BitVec)
    requires WellFormed(a) && WellFormed(b) && a.dim == b.dim
    ensures HammingDistance(a, b) == CountTrue(Differences(Bits(a), Bits(b)))
  {
    XorBits(a, b);
    CountIsBits(Xor(a, b));
  }

  // ------------------------------------------------------------- metric space

  lemma {:induction false} CountTrueZero(a: seq<bool>)
    requires CountTrue(a) == 0
    ensures forall i | 0 <= i < |a| :: !a[i]
  {
    if a != [] {
      CountTrueZero(a[1..]);
      assert forall i | 1 <= i < |a| :: a[i] == a[1..][i - 1];
    }
  }

  lemma {:induction false} CountTrueTriangle(ac: seq<bool>, ab: seq<bool>, bc: seq<bool>)
    requires |ac| == |ab| == |bc|
    requires forall i | 0 <= i < |ac| && ac[i] :: ab[i] || bc[i]
    ensures CountTrue(ac) <= CountTrue(ab) + CountTrue(bc)
  {
    if ac != [] {
      CountTrueTriangle(ac[1..], ab[1..], bc[1..]);
    }
  }

  /** `hamming_distance` is a metric on well-formed vectors of one dimension. */
  lemma HammingIsMetric(a: BitVec, b: BitVec, c: BitVec)
    requires WellFormed(a) && WellFormed(b) && WellFormed(c)
    requires a.dim == b.dim == c.dim
    ensures HammingDistance(a, b) == 0 <==> a == b
    ensures HammingDistance(a, b) == HammingDistance(b, a)
    ensures HammingDistance(a, c) <= HammingDistance(a, b) + HammingDistance(b, c)
    ensures HammingDistance(a, b) <= a.dim
  {
    HammingCountsDifferences(a, b);
    HammingCountsDifferences(b, a);
    HammingCountsDifferences(a, c);
    HammingCountsDifferences(b, c);
    var ab, bc, ac := Differences(Bits(a), Bits(b)), Differences(Bits(b), Bits(c)), Differences(Bits(a), Bits(c));
    assert ab == Differences(Bits(b), Bits(a));
    CountTrueTriangle(ac, ab, bc);
    CountTrueBound(ab);
    if CountTrue(ab) == 0 {
      CountTrueZero(ab);
      forall i: nat | i < a.dim
        ensures Bits(a)[i] == Bits(b)[i]
      {
        assert !ab[i];
      }
      BitsDetermineVector(a, b);
    }
    if a == b {
      CountTrueNone(ab);
    }
  }

  lemma {:induction false} CountTrueBound(a: seq<bool>)
    ensures CountTrue(a) <= |a|
  {
    if a != [] {
      CountTrueBound(a[1..]);
    }
  }

  /** Merging the same vector twice undoes it, and merging moves no two vectors closer or apart. */
  lemma XorIsInvolutiveIsometry(a: BitVec, b: BitVec, c: BitVec)
    requires WellFormed(a) && WellFormed(b) && WellFormed(c)
    requires a.dim == b.dim == c.dim
    ensures Xor(Xor(a, c), c) == a
    ensures Xor(a, c) == Xor(c, a)
    ensures HammingDistance(Xor(a, c), Xor(b, c)) == HammingDistance(a, b)
  {
    XorBits(a, c);
    XorBits(c, a);
    XorBits(b, c);
    XorBits(Xor(a, c), c);
    assert Bits(Xor(Xor(a, c), c)) == Bits(a);
    BitsDetermineVector(Xor(Xor(a, c), c), a);
    assert Bits(Xor(a, c)) == Bits(Xor(c, a));
    BitsDetermineVector(Xor(a, c), Xor(c, a));
    HammingCountsDifferences(Xor(a, c), Xor(b, c));
    HammingCountsDifferences(a, b);
    assert Differences(Bits(Xor(a, c)), Bits(Xor(b, c))) == Differences(Bits(a), Bits(b));
  }

  // ----------------------------------------------------------------- rotation

  /** The rotation of a bit sequence: position i receives position i - k. */
  function Rotated(s: seq<bool>, k: nat): (r: seq<bool>)
    requires s != []
    ensures |r| == |s|
  {
    seq(|s|, i requires 0 <= i && s != [] => s[RotateSource(i, k % |s|, |s|)])
  }

  /** `rotate_left`; the source divides by `dim`, so a zero dimension panics. */
  method RotateLeft(v: BitVec, k: nat) returns (res: BitVec)
    requires WellFormed(v) && v.dim > 0
    ensures WellFormed(res) && res.dim == v.dim
    ensures Bits(res) == Rotated(Bits(v), k)
  {
    var shift := k % v.dim;
    if shift == 0 {
      RotatedIsSplit(Bits(v), k);
      return v;
    }
    res := New(v.dim);
    NewIsAllFalse(v.dim);
    for i := 0 to v.dim
      invariant WellFormed(res) && res.dim == v.dim
      invariant forall j: nat | j < i :: Bits(res)[j] == Rotated(Bits(v), k)[j]
      invariant forall j: nat | i <= j < v.dim :: !Bits(res)[j]
    {
      var src := RotateSource(i, shift, v.dim);
      if GetBit(v, src) {
        SetBitKeepsWellFormed(res, i);
        res := SetBit(res, i);
      }
    }
  }

  /** The position whose bit lands on position `i`. */
  function RotateSource(i: nat, shift: nat, dim: nat): (src: nat)
    requires shift < dim
    ensures src < dim
  {
    (i + dim - shift) % dim
  }

  lemma ModOnce(i: nat, n: nat)
    requires i < n
    ensures (i + n) % n == i
  {
  }

  lemma RotatedIsSplit(s: seq<bool>, k: nat)
    requires s != []
    ensures Rotated(s, k) == s[|s| - k % |s|..] + s[..|s| - k % |s|]
  {
    var n := |s|;
    var shift := k % n;
    forall i: nat | i < n
      ensures Rotated(s, k)[i] == (s[n - shift..] + s[..n - shift])[i]
    {
      SourceIs(i, shift, n);
    }
  }

  /** Where a bit comes from does not depend on turning in one step or in two. */
  lemma SourcesCompose(x: nat, a: nat, b: nat, n: nat)
    requires n > 0 && x < n
    ensures RotateSource(RotateSource(x, b % n, n), a % n, n) == RotateSource(x, (a + b) % n, n)
  {
    ModSum(a, b, n);
    var sum := a % n + b % n;
    if sum < n { SmallMod(sum, n); } else { ModOnce(sum - n, n); }
    SourceIs(x, b % n, n);
    SourceIs(RotateSource(x, b % n, n), a % n, n);
    SourceIs(x, (a + b) % n, n);
  }

  lemma SourceIs(x: nat, shift: nat, n: nat)
    requires x < n && shift < n
    ensures RotateSource(x, shift, n) == if x < shift then x + n - shift else x - shift
  {
    if x < shift { SmallMod(x + n - shift, n); } else { ModOnce(x - shift, n); }
  }

  lemma SmallMod(x: nat, n: nat)
    requires x < n
    ensures x % n == x
  {
  }

  /** Division with remainder is unique. */
  lemma RemainderIs(x: nat, q: int, r: nat, n: nat)
    requires r < n && x == q * n + r
    ensures x % n == r
  {
    var d := q - x / n;
    assert d * n == x % n - r;
    MultipleIsFar(d, n);
  }

  lemma MultipleIsFar(d: int, n: nat)
    ensures d >= 1 ==> d * n >= n
    ensures d <= -1 ==> d * n + n <= 0
  {
  }

  lemma ModSum(a: nat, b: nat, n: nat)
    requires n > 0
    ensures (a + b) % n == (a % n + b % n) % n
  {
    var r := a % n + b % n;
    var q := a / n + b / n + r / n;
    assert a + b == (a / n + b / n) * n + r;
    assert r == (r / n) * n + r % n;
    RemainderIs(a + b, q, r % n, n);
  }

  /** Rotations compose additively modulo the dimension. */
  lemma RotationsCompose(s: seq<bool>, a: nat, b: nat)
    requires s != []
    ensures Rotated(Rotated(s, a), b) == Rotated(s, a + b)
    ensures Rotated(s, a) == Rotated(s, a % |s|)
  {
    var n := |s|;
    forall i: nat | i < n
      ensures Rotated(Rotated(s, a), b)[i] == Rotated(s, a + b)[i]
    {
      SourcesCompose(i, a, b, n);
    }
    SmallMod(a % n, n);
  }

  /** Any three results of `rotate_left` on one vector agree: turning by a and then by b
      is turning by a + b, on the 64-bit lanes themselves. */
  lemma RotateLeftComposes(v: BitVec, a: nat, b: nat, byA: BitVec, byAB: BitVec, bySum: BitVec)
    requires WellFormed(v) && v.dim > 0
    requires WellFormed(byA) && Bits(byA) == Rotated(Bits(v), a)
    requires WellFormed(byAB) && Bits(byAB) == Rotated(Bits(byA), b)
    requires WellFormed(bySum) && Bits(bySum) == Rotated(Bits(v), a + b)
    ensures byAB == bySum
    ensures (a + b) % v.dim == 0 ==> byAB == v
  {
    hide GetBit, Rotated, Bits;
    RotationsCompose(Bits(v), a, b);
    BitsDetermineVector(byAB, bySum);
    if (a + b) % v.dim == 0 {
      RotatedIsSplit(Bits(v), a + b);
      assert Bits(byAB) == Bits(v);
      BitsDetermineVector(byAB, v);
    }
  }

  /** Rotating both vectors by the same amount preserves their distance. */
  lemma RotateLeftIsIsometry(a: BitVec, b: BitVec, k: nat, ra: BitVec, rb: BitVec)
    requires WellFormed(a) && WellFormed(b) && a.dim == b.dim > 0
    requires WellFormed(ra) && Bits(ra) == Rotated(Bits(a), k)
    requires WellFormed(rb) && Bits(rb) == Rotated(Bits(b), k)
    ensures ra.dim == rb.dim == a.dim
    ensures HammingDistance(ra, rb) == HammingDistance(a, b)
  {
    assert ra.dim == |Bits(ra)| && rb.dim == |Bits(rb)|;
    var d := Differences(Bits(a), Bits(b));
    var cut := |d| - k % |d|;
    assert Differences(Bits(ra), Bits(rb)) == Rotated(d, k);
    RotatedIsSplit(d, k);
    CountTrueAppend(d[cut..], d[..cut]);
    CountTrueAppend(d[..cut], d[cut..]);
    assert d == d[..cut] + d[cut..];
    HammingCountsDifferences(a, b);
    HammingCountsDifferences(ra, rb);
  }

  // -------------------------------------------------------------- seed vectors

  /** `BitVec::seed`: one generator output per position, its low bit decides. */
  method Seed(text: seq<Byte>, dim: nat) returns (res: BitVec)
    ensures WellFormed(res) && res.dim == dim
    ensures forall i: nat | i < dim :: Bits(res)[i] == Coin(text, i)
  {
    hide Step, Seeded, Fnv1a, Output, GetBit, SetBit, Mix, Counter;
    var hash := Fnv1aHash64(text);
    var rng := new Xoshiro256Plus.SeedFromU64(hash);
    res := New(dim);
    NewIsAllFalse(dim);
    for i := 0 to dim
      invariant WellFormed(res) && res.dim == dim
      invariant rng.s == StateAfter(Seeded(Fnv1a(text)), i)
      invariant forall j: nat | j < i :: Bits(res)[j] == Coin(text, j)
      invariant forall j: nat | i <= j < dim :: !Bits(res)[j]
    {
      var word := rng.NextU64();
      if word % 2 == 1 {
        SetBitKeepsWellFormed(res, i);
        res := SetBit(res, i);
      }
    }
  }

  /** Two seed vectors of one text: the shorter is the bit prefix of the longer, and
      equal dimensions give the very same lanes. */
  lemma SeedsArePrefixes(text: seq<Byte>, shorter: BitVec, longer: BitVec)
    requires WellFormed(shorter) && WellFormed(longer) && shorter.dim <= longer.dim
    requires forall i: nat | i < shorter.dim :: Bits(shorter)[i] == Coin(text, i)
    requires forall i: nat | i < longer.dim :: Bits(longer)[i] == Coin(text, i)
    ensures Bits(shorter) <= Bits(longer)
    ensures shorter.dim == longer.dim ==> shorter == longer
  {
    assert Bits(shorter) == Bits(longer)[..shorter.dim];
    if shorter.dim == longer.dim {
      assert Bits(longer)[..shorter.dim] == Bits(longer);
      BitsDetermineVector(shorter, longer);
    }
  }

  // ----------------------------------------------------------------- bundling

  function Unit(b: bool): real {
    if b then 1.0 else 0.0
  }

  /** `threshold_sum` */
  method ThresholdSum(a: BitVec, b: BitVec, theta: real) returns (res: BitVec)
    requires WellFormed(a) && WellFormed(b) && a.dim == b.dim
    ensures WellFormed(res) && res.dim == a.dim
    ensures forall i: nat | i < a.dim ::
              Bits(res)[i] <==>
              theta <= 0.0
              || (theta <= 0.5 && (Bits(a)[i] || Bits(b)[i]))
              || (theta <= 1.0 && Bits(a)[i] && Bits(b)[i])
  {
    res := New(a.dim);
    NewIsAllFalse(a.dim);
    for i := 0 to a.dim
      invariant WellFormed(res) && res.dim == a.dim
      invariant forall j: nat | j < i ::
          Bits(res)[j] <==> (Unit(Bits(a)[j]) + Unit(Bits(b)[j])) / 2.0 >= theta
      invariant forall j: nat | i <= j < a.dim :: !Bits(res)[j]
    {
      var ones := Unit(GetBit(a, i)) + Unit(GetBit(b, i));
      if ones / 2.0 >= theta {
        SetBitKeepsWellFormed(res, i);
        res := SetBit(res, i);
      }
    }
  }

  /** Bundling at the majority threshold one half is union, at one it is intersection. */
  lemma ThresholdOrAnd(a: BitVec, b: BitVec, theta: real, res: BitVec)
    requires WellFormed(a) && WellFormed(b) && WellFormed(res) && a.dim == b.dim == res.dim
    requires 0.0 < theta <= 1.0
    requires forall i: nat | i < a.dim ::
               Bits(res)[i] <==> if theta <= 0.5 then Bits(a)[i] || Bits(b)[i] else Bits(a)[i] && Bits(b)[i]
    ensures HammingDistance(a, res) + HammingDistance(res, b) == HammingDistance(a, b)
  {
    HammingCountsDifferences(a, res);
    HammingCountsDifferences(res, b);
    HammingCountsDifferences(a, b);
    CountTrueDisjoint(Differences(Bits(a), Bits(b)), Differences(Bits(a), Bits(res)), Differences(Bits(res), Bits(b)));
  }

  lemma {:induction false} CountTrueDisjoint(whole: seq<bool>, p: seq<bool>, q: seq<bool>)
    requires |whole| == |p| == |q|
    requires forall i | 0 <= i < |whole| :: !(p[i] && q[i]) && (whole[i] <==> p[i] || q[i])
    ensures CountTrue(whole) == CountTrue(p) + CountTrue(q)
  {
    if whole != [] {
      CountTrueDisjoint(whole[1..], p[1..], q[1..]);
    }
  }
}
