/** Lexicographic order, on number sequences and on strings by code point. */
module Order {

  predicate LexLe(a: seq<nat>, b: seq<nat>) {
    a == [] || (b != [] && (a[0] < b[0] || (a[0] == b[0] && LexLe(a[1..], b[1..]))))
  }

  predicate LexLess(a: seq<nat>, b: seq<nat>) {
    a != b && LexLe(a, b)
  }

  lemma {:induction false} LexTotalOrder(a: seq<nat>, b: seq<nat>, c: seq<nat>)
    ensures LexLe(a, a)
    ensures LexLe(a, b) || LexLe(b, a)
    ensures LexLe(a, b) && LexLe(b, a) ==> a == b
    ensures LexLe(a, b) && LexLe(b, c) ==> LexLe(a, c)
    decreases |a| + |b| + |c|
  {
    if a != [] {
      LexTotalOrder(a[1..], if b == [] then b else b[1..], if c == [] then c else c[1..]);
      if b != [] && LexLe(a, b) && LexLe(b, a) {
        assert a == [a[0]] + a[1..] && b == [b[0]] + b[1..];
      }
    }
  }

  /** In plain words: one sequence opens the other, or they differ first where it is smaller. */
  predicate FirstDifference(a: seq<nat>, b: seq<nat>, k: nat) {
    k < |a| && k < |b| && a[..k] == b[..k] && a[k] < b[k]
  }

  lemma {:induction false} LexLeIff(a: seq<nat>, b: seq<nat>)
    ensures LexLe(a, b) <==> a <= b || exists k: nat :: FirstDifference(a, b, k)
  {
    if a != [] && b != [] && a[0] == b[0] {
      var x, y := a[1..], b[1..];
      LexLeIff(x, y);
      assert a == [a[0]] + x && b == [b[0]] + y;
      assert a <= b <==> x <= y;
      if k: nat :| FirstDifference(x, y, k) {
        assert a[..k + 1] == [a[0]] + x[..k] && b[..k + 1] == [b[0]] + y[..k];
        assert FirstDifference(a, b, k + 1);
      }
      if k: nat :| FirstDifference(a, b, k) {
        assert x[..k - 1] == a[..k][1..] && y[..k - 1] == b[..k][1..];
        assert FirstDifference(x, y, k - 1);
      }
    } else if a != [] && b != [] && a[0] < b[0] {
      assert FirstDifference(a, b, 0);
    } else {
      forall k: nat
        ensures !FirstDifference(a, b, k)
      {
        assert 0 < k < |a| && k < |b| ==> a[..k][0] == a[0] && b[..k][0] == b[0];
      }
    }
  }

  function Codes(s: string): (codes: seq<nat>)
    ensures |codes| == |s|
  {
    seq(|s|, i requires 0 <= i < |s| => s[i] as nat)
  }

  /** `a <= b` on Rust strings that print timestamps. */
  predicate TextLe(a: string, b: string) {
    LexLe(Codes(a), Codes(b))
  }

  /** Strings compare by their first difference, and a string comes after what it opens with. */
  lemma TextLeIff(a: string, b: string)
    ensures TextLe(a, b)
            <==> a <= b || exists k: nat :: k < |a| && k < |b| && a[..k] == b[..k] && a[k] < b[k]
  {
    var x, y := Codes(a), Codes(b);
    LexLeIff(x, y);
    forall k: nat | k <= |a| && k <= |b|
      ensures x[..k] == y[..k] <==> a[..k] == b[..k]
    {
      SameCodes(a[..k], b[..k]);
      assert Codes(a[..k]) == x[..k] && Codes(b[..k]) == y[..k];
    }
    if k: nat :| FirstDifference(x, y, k) {
      assert a[k] < b[k];
    }
    if k: nat :| k < |a| && k < |b| && a[..k] == b[..k] && a[k] < b[k] {
      assert FirstDifference(x, y, k);
    }
    assert a <= b <==> |a| <= |b| && a[..|a|] == b[..|a|];
    assert x <= y <==> |x| <= |y| && x[..|x|] == y[..|x|];
  }

  lemma SameCodes(a: string, b: string)
    ensures Codes(a) == Codes(b) <==> a == b
  {
    if Codes(a) == Codes(b) {
      assert forall i | 0 <= i < |a| :: Codes(a)[i] == a[i] as nat && Codes(b)[i] == b[i] as nat;
    }
  }

  lemma TextTotalOrder(a: string, b: string, c: string)
    ensures TextLe(a, a)
    ensures TextLe(a, b) || TextLe(b, a)
    ensures TextLe(a, b) && TextLe(b, a) ==> a == b
    ensures TextLe(a, b) && TextLe(b, c) ==> TextLe(a, c)
  {
    LexTotalOrder(Codes(a), Codes(b), Codes(c));
    if Codes(a) == Codes(b) {
      assert forall i | 0 <= i < |a| :: Codes(a)[i] == a[i] as nat && Codes(b)[i] == b[i] as nat;
      assert a == b;
    }
  }
}
