/** Recursive Douglas-Peucker over a whole series: the reference definition that
    the optimizer's queue-driven loop is proved against, and the error bounds
    that make its weights useful. */
module SplitTree {
  import opened Chord

  /** How far sample k lies from the chord (l, r). */
  function Dev(y: seq<real>, l: nat, r: nat, k: nat): real
    requires l < r < |y| && k < |y|
  {
    Abs(y[k] - Chord.At(y, l, r, k))
  }

  /** The first sample of (l, m] with the largest deviation from the chord (l, r). */
  function FarthestUpTo(y: seq<real>, l: nat, r: nat, m: nat): (i: nat)
    requires l < m < r < |y|
    ensures l < i <= m
    ensures forall k :: l < k <= m ==> Dev(y, l, r, k) <= Dev(y, l, r, i)
    ensures forall k :: l < k < i ==> Dev(y, l, r, k) < Dev(y, l, r, i)
    decreases m
  {
    if m == l + 1 then m
    else
      var i := FarthestUpTo(y, l, r, m - 1);
      if Dev(y, l, r, i) < Dev(y, l, r, m) then m else i
  }

  /** Where the interval (l, r) is split: its first farthest interior sample. */
  function Split(y: seq<real>, l: nat, r: nat): (i: nat)
    requires l + 1 < r < |y|
    ensures l < i < r
  {
    FarthestUpTo(y, l, r, r - 1)
  }

  /** The error of an interval: the deviation of the sample it is split at. */
  function Err(y: seq<real>, l: nat, r: nat): real
    requires l + 1 < r < |y|
  {
    Dev(y, l, r, Split(y, l, r))
  }

  /** Recursive Douglas-Peucker: the weight of sample k in the split tree rooted at
      (l, r) is the error of the interval that k splits; anything outside weighs 0. */
  function Weight(y: seq<real>, l: nat, r: nat, k: nat): (w: real)
    requires l < r < |y|
    ensures w >= 0.0
    decreases r - l
  {
    if k <= l || r <= k then 0.0
    else
      var i := Split(y, l, r);
      if k == i then Err(y, l, r)
      else if k < i then Weight(y, l, i, k)
      else Weight(y, i, r, k)
  }

  /** (l, r) is an interval of the split tree rooted at (L, R). */
  predicate Node(y: seq<real>, L: nat, R: nat, l: nat, r: nat)
    requires L < R < |y|
    decreases R - L
  {
    (l == L && r == R) ||
    (R - L > 1 && (Node(y, L, Split(y, L, R), l, r) || Node(y, Split(y, L, R), R, l, r)))
  }

  lemma DevEnds(y: seq<real>, l: nat, r: nat)
    requires l < r < |y|
    ensures Dev(y, l, r, l) == 0.0 && Dev(y, l, r, r) == 0.0
  {
    LineEnds(l, y[l], r, y[r]);
  }

  /** Splitting pays attention to every interior sample. */
  lemma ErrIsMax(y: seq<real>, l: nat, r: nat, k: nat)
    requires l + 1 < r < |y| && l <= k <= r
    ensures Dev(y, l, r, k) <= Err(y, l, r)
  {
    DevEnds(y, l, r);
  }

  lemma NodeRange(y: seq<real>, L: nat, R: nat, l: nat, r: nat)
    requires L < R < |y| && Node(y, L, R, l, r)
    ensures L <= l < r <= R
    decreases R - L
  {
  }

  /** Inside a node, weights in the whole tree are weights in the node's own tree. */
  lemma {:induction false} NodeWeight(y: seq<real>, L: nat, R: nat, l: nat, r: nat, k: nat)
    requires L < R < |y| && Node(y, L, R, l, r) && l < k < r
    ensures L <= l && r <= R && Weight(y, L, R, k) == Weight(y, l, r, k)
    decreases R - L
  {
    if !(l == L && r == R) {
      var i := Split(y, L, R);
      if Node(y, L, i, l, r) {
        NodeRange(y, L, i, l, r);
        NodeWeight(y, L, i, l, r, k);
      } else {
        NodeRange(y, i, R, l, r);
        NodeWeight(y, i, R, l, r, k);
      }
    }
  }

  /** The halves of a node are nodes. */
  lemma {:induction false} NodeHalves(y: seq<real>, L: nat, R: nat, l: nat, r: nat)
    requires L < R < |y| && Node(y, L, R, l, r) && l + 1 < r
    ensures r <= R
    ensures Node(y, L, R, l, Split(y, l, r)) && Node(y, L, R, Split(y, l, r), r)
    decreases R - L
  {
    NodeRange(y, L, R, l, r);
    if !(l == L && r == R) {
      var i := Split(y, L, R);
      if Node(y, L, i, l, r) {
        NodeHalves(y, L, i, l, r);
      } else {
        NodeHalves(y, i, R, l, r);
      }
    }
  }

  /** Every sample strictly between a and b weighs at most tau in the tree of (l, r). */
  ghost predicate LightGap(y: seq<real>, l: nat, r: nat, a: nat, b: nat, tau: real)
    requires l < r < |y|
  {
    forall j: nat :: a < j < b ==> Weight(y, l, r, j) <= tau
  }

  // The node that is split strictly between a and b pays for the whole gap.
  lemma GapAroundSplit(y: seq<real>, l: nat, r: nat, a: nat, b: nat, k: nat, tau: real)
    requires l <= a < b <= r < |y| && a <= k <= b && l + 1 < r
    requires Err(y, l, r) <= tau
    ensures Dev(y, a, b, k) <= 2.0 * tau
  {
    ErrIsMax(y, l, r, a);
    ErrIsMax(y, l, r, b);
    ErrIsMax(y, l, r, k);
    Rebase(l, y[l], r, y[r], a, y[a], b, y[b], k, y[k], tau);
  }

  /** The bound that makes weights usable without looking at the tree: whatever the
      tree's shape, if every sample strictly between a and b weighs at most tau, then
      the straight line from a to b misses none of them by more than 2 tau. The
      samples a and b need not be split points, and nothing is asked of their weights. */
  lemma {:induction false} GapBound(y: seq<real>, l: nat, r: nat, a: nat, b: nat, k: nat, tau: real)
    requires l <= a < b <= r < |y| && a <= k <= b && tau >= 0.0
    requires LightGap(y, l, r, a, b, tau)
    ensures Dev(y, a, b, k) <= 2.0 * tau
    decreases r - l
  {
    hide Dev;
    if b == a + 1 {
      DevEnds(y, a, b);
    } else {
      var i := Split(y, l, r);
      if b <= i {
        forall j: nat | a < j < b ensures Weight(y, l, i, j) <= tau { assert Weight(y, l, r, j) <= tau; }
        GapBound(y, l, i, a, b, k, tau);
      } else if i <= a {
        forall j: nat | a < j < b ensures Weight(y, i, r, j) <= tau { assert Weight(y, l, r, j) <= tau; }
        GapBound(y, i, r, a, b, k, tau);
      } else {
        assert Err(y, l, r) == Weight(y, l, r, i) <= tau;
        GapAroundSplit(y, l, r, a, b, k, tau);
      }
    }
  }

  /** A sample weighs at least half of what it stands out from its two neighbours. */
  lemma StandsOut(y: seq<real>, l: nat, r: nat, k: nat)
    requires l < k < r < |y|
    ensures Dev(y, k - 1, k + 1, k) <= 2.0 * Weight(y, l, r, k)
  {
    hide Dev; hide Weight;
    GapBound(y, l, r, k - 1, k + 1, k, Weight(y, l, r, k));
  }

  lemma ErrNonNegative(y: seq<real>, l: nat, r: nat)
    requires l + 1 < r < |y|
    ensures Err(y, l, r) >= 0.0
  {
  }

  /** A child's error is at most twice its parent's. */
  lemma ChildError(y: seq<real>, l: nat, r: nat)
    requires l + 1 < r < |y|
    ensures var i := Split(y, l, r);
            && (l + 1 < i ==> Err(y, l, i) <= 2.0 * Err(y, l, r))
            && (i + 1 < r ==> Err(y, i, r) <= 2.0 * Err(y, l, r))
  {
    hide Dev;
    var i, e := Split(y, l, r), Err(y, l, r);
    if l + 1 < i {
      GapAroundSplit(y, l, r, l, i, Split(y, l, i), e);
    }
    if i + 1 < r {
      GapAroundSplit(y, l, r, i, r, Split(y, i, r), e);
    }
  }

  /** A split with error 0 makes its whole subtree weigh 0, and only then. */
  lemma {:induction false} ZeroSubtree(y: seq<real>, l: nat, r: nat)
    requires l + 1 < r < |y|
    ensures Err(y, l, r) == 0.0 <==> forall k :: l < k < r ==> Weight(y, l, r, k) == 0.0
    decreases r - l
  {
    hide Dev;
    var i := Split(y, l, r);
    if Err(y, l, r) == 0.0 {
      ChildError(y, l, r);
      if l + 1 < i { ErrNonNegative(y, l, i); ZeroSubtree(y, l, i); }
      if i + 1 < r { ErrNonNegative(y, i, r); ZeroSubtree(y, i, r); }
      forall k | l < k < r ensures Weight(y, l, r, k) == 0.0 {
        if k < i { assert Weight(y, l, i, k) == 0.0; } else if i < k { assert Weight(y, i, r, k) == 0.0; }
      }
    } else {
      assert Weight(y, l, r, i) != 0.0;
    }
  }

  /** All of a node's samples weigh 0 exactly when they lie on its chord. */
  lemma ZeroIsCollinear(y: seq<real>, l: nat, r: nat)
    requires l < r < |y|
    ensures (forall k :: l < k < r ==> Weight(y, l, r, k) == 0.0)
       <==> (forall k :: l <= k <= r ==> y[k] == Chord.At(y, l, r, k))
  {
    LineEnds(l, y[l], r, y[r]);
    if r > l + 1 {
      ZeroSubtree(y, l, r);
      if Err(y, l, r) == 0.0 {
        forall k | l <= k <= r ensures y[k] == Chord.At(y, l, r, k) { ErrIsMax(y, l, r, k); }
      } else {
        assert Dev(y, l, r, Split(y, l, r)) != 0.0;
      }
    }
  }

  /** A zig-zag whose middle sample is the only one the root split pays for. */
  function Zigzag(d: real): seq<real> { [0.0, -d, 1.0, -d, 0.0] }

  lemma ZigzagTree(d: real)
    requires 0.0 <= d < 1.0
    ensures Weight(Zigzag(d), 0, 4, 2) == 1.0
    ensures Split(Zigzag(d), 0, 4) == 2
    ensures Dev(Zigzag(d), 1, 3, 2) == 1.0 + d
  {
    var y := Zigzag(d);
    assert Dev(y, 0, 4, 1) == d && Dev(y, 0, 4, 2) == 1.0 && Dev(y, 0, 4, 3) == d;
  }

  /** The chord over a gap whose samples weigh at most tau misses one of them by more
      than c times tau. */
  ghost predicate Exceeds(y: seq<real>, a: nat, b: nat, k: nat, tau: real, c: real)
  {
    && a < k < b < |y| && tau > 0.0
    && LightGap(y, 0, |y| - 1, a, b, tau)
    && Dev(y, a, b, k) > c * tau
  }

  /** The factor 2 cannot be improved: for every smaller factor there are a series
      and a gap in which the chord misses a sample by more than that. */
  lemma TwoIsBestPossible(c: real)
    ensures c < 2.0 <==> exists y, a, b, k, tau :: Exceeds(y, a, b, k, tau, c)
  {
    if c < 2.0 {
      var d := if c < 0.0 then 0.0 else c / 2.0;
      ZigzagTree(d);
      assert Exceeds(Zigzag(d), 1, 3, 2, 1.0, c);
    } else {
      forall y, a, b, k, tau | Exceeds(y, a, b, k, tau, c) ensures false {
        GapBound(y, 0, |y| - 1, a, b, k, tau);
        Chord.MulMono(tau, 2.0, c);
      }
    }
  }

  /** Flat, a dip just before the peak, and back: the dip is hardly worse than the peak until
      the split at the peak tilts the chord away from it. */
  function Dip(i: nat): (y: seq<real>)
    requires i >= 2
    ensures |y| == i + 2
  {
    seq(i + 2, k requires 0 <= k < i + 2 =>
      if k == i - 1 then 1.0 / i as real - 1.0 else if k == i then 1.0 else 0.0)
  }

  lemma DipRoot(i: nat)
    requires i >= 2
    ensures Split(Dip(i), 0, i + 1) == i && Err(Dip(i), 0, i + 1) == 1.0
  {
    var y, root := Dip(i), i + 1;
    assert 0.0 < 1.0 / i as real <= 1.0 / 2.0 by { DivFacts(1.0, i as real, 1.0 / i as real); }
    forall k: nat | k <= i + 1 ensures Dev(y, 0, root, k) == Abs(y[k]) {
      LineIsMean(0, 0.0, i + 1, 0.0, k);
    }
    hide Chord.At; hide Dev;
    assert Dev(y, 0, root, i) == 1.0;
    var split := Split(y, 0, root);
    assert Dev(y, 0, root, i) <= Dev(y, 0, root, split) == Abs(y[split]);
    assert split == i;
  }

  lemma DipChild(i: nat)
    requires i >= 2
    ensures Err(Dip(i), 0, i) >= 2.0 - 2.0 / i as real
  {
    var y := Dip(i);
    DipChord(i);
    ErrIsMax(y, 0, i, i - 1);
  }

  lemma DipChord(i: nat)
    requires i >= 2
    ensures Dev(Dip(i), 0, i, i - 1) == 2.0 - 2.0 / i as real
  {
    var n := i as real;
    var t := 1.0 / n;
    LineIsMean(0, 0.0, i, 1.0, i - 1);
    DivFacts(1.0, n, t);
    assert 2.0 / n == 2.0 * t by { MulDiv(2.0, 1.0, n); }
    assert Frac(0, i, i - 1) == 1.0 - t by { LessOne(n, t); }
    assert 0.0 < t <= 0.5 by { LessOne(n, t); }
    assert Dip(i)[i - 1] == t - 1.0;
    assert Dip(i)[0] == 0.0 && Dip(i)[i] == 1.0;
    hide Dip; hide Line;
  }

  lemma LessOne(n: real, t: real)
    requires n >= 2.0 && t == 1.0 / n
    ensures (n - 1.0) / n == 1.0 - t && 0.0 < t <= 0.5
  {
  }

  /** A child interval of (l, r) has an error more than c times its parent's. */
  ghost predicate ChildExceeds(y: seq<real>, l: nat, r: nat, c: real) {
    && l + 1 < r < |y| && Err(y, l, r) > 0.0
    && var i := Split(y, l, r);
       || (l + 1 < i && Err(y, l, i) > c * Err(y, l, r))
       || (i + 1 < r && Err(y, i, r) > c * Err(y, l, r))
  }

  /** A child can weigh more than its parent, so "the heaviest N samples" need not contain
      the ancestors of what it contains: by any factor below 2, and by no other. */
  lemma ChildFactorIsTwo(c: real)
    ensures c < 2.0 <==> exists y, l, r :: ChildExceeds(y, l, r, c)
  {
    if c < 2.0 {
      var i := RankBeyond(2.0 - c);
      DipRoot(i);
      DipChild(i);
      assert ChildExceeds(Dip(i), 0, i + 1, c);
    } else {
      forall y, l, r | ChildExceeds(y, l, r, c) ensures false { ChildBelowTwice(y, l, r, c); }
    }
  }

  lemma ChildBelowTwice(y: seq<real>, l: nat, r: nat, c: real)
    requires ChildExceeds(y, l, r, c)
    ensures c < 2.0
  {
    hide Err; hide Split;
    var e, i := Err(y, l, r), Split(y, l, r);
    ChildError(y, l, r);
    if l + 1 < i && Err(y, l, i) > c * e {
      BelowTwice(e, Err(y, l, i), c);
    } else {
      BelowTwice(e, Err(y, i, r), c);
    }
  }

  lemma BelowTwice(e: real, x: real, c: real)
    requires e > 0.0 && c * e < x <= 2.0 * e
    ensures c < 2.0
  {
    if c >= 2.0 {
      var product := c * e;
      assert product == e * c;
      Chord.MulMono(e, 2.0, c);
      assert false;
    }
  }

  lemma RankBeyond(gap: real) returns (i: nat)
    requires gap > 0.0
    ensures i >= 2 && 2.0 / i as real < gap
  {
    var q := 2.0 / gap;
    i := q.Floor + 2;
    var n := i as real;
    var t, above := 2.0 / n, gap * (n - q);
    DivFacts(2.0, gap, q);
    DivFacts(2.0, n, t);
    assert n - q > 0.0 && above > 0.0;
    assert n * gap == q * gap + above;
    assert n * t == t * n == 2.0;
    if t >= gap {
      Chord.MulMono(n, gap, t);
      assert false;
    }
  }
}
