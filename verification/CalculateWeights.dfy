/** The optimizer's queue-driven Douglas-Peucker loop, and the proof that it computes
    the recursive weights of SplitTree whatever order the queue is popped in. */
module CalculateWeights {
  import opened Chord
  import opened SplitTree

  datatype Failure = IndexError | ValueError
  datatype Result<T> = Ok(value: T) | Raised(failure: Failure)

  /** A queued interval with its heap key, the negated error of the split that made it. */
  datatype Entry = Entry(priority: real, left: nat, right: nat)

  /** Tuple comparison of (priority, (left, right)). */
  predicate Less(e: Entry, f: Entry) {
    e.priority < f.priority ||
    (e.priority == f.priority && (e.left < f.left || (e.left == f.left && e.right < f.right)))
  }

  /** No queued entry precedes the one at position j. */
  predicate IsMinimum(queue: seq<Entry>, j: nat) {
    j < |queue| && forall i :: 0 <= i < |queue| ==> !Less(queue[i], queue[j])
  }

  function Without(queue: seq<Entry>, j: nat): seq<Entry>
    requires j < |queue|
  {
    queue[..j] + queue[j + 1..]
  }

  method HeapPop(queue: seq<Entry>) returns (j: nat)
    requires queue != []
    ensures IsMinimum(queue, j)
  {
    j := 0;
    for i := 1 to |queue|
      invariant j < i
      invariant forall h :: 0 <= h < i ==> !Less(queue[h], queue[j])
    {
      if Less(queue[i], queue[j]) { j := i; }
    }
  }

  /** The position and value of the first largest element. */
  method ArgMax(diff: seq<real>) returns (i: nat)
    requires diff != []
    ensures i < |diff|
    ensures forall k :: 0 <= k < |diff| ==> diff[k] <= diff[i]
    ensures forall k :: 0 <= k < i ==> diff[k] < diff[i]
  {
    i := 0;
    for k := 1 to |diff|
      invariant i < k
      invariant forall h :: 0 <= h < k ==> diff[h] <= diff[i]
      invariant forall h :: 0 <= h < i ==> diff[h] < diff[i]
    {
      if diff[i] < diff[k] { i := k; }
    }
  }

  /** Conversion of a real to an integer, toward zero. */
  function Truncate(x: real): int {
    if x >= 0.0 then x.Floor else -((-x).Floor)
  }

  /** max(10, int(n * ratio)). */
  function Limit(n: nat, ratio: real): (limit: nat)
    ensures limit >= 10
    ensures limit > 10 ==> limit as real <= n as real * ratio < (limit + 1) as real
    ensures limit == 10 ==> n as real * ratio < 11.0
  {
    var wanted := Truncate(n as real * ratio);
    if wanted > 10 then wanted else 10
  }

  /** The loop's variables. `dropped` is history: the unit intervals popped so far. */
  datatype State = State(chosen: map<nat, real>, queue: seq<Entry>, dropped: set<(nat, nat)>)

  ghost function Init(y: seq<real>): State
    requires |y| >= 2
  {
    State(map[0 := 0.0, |y| - 1 := 0.0], [Entry(0.0, 0, |y| - 1)], {})
  }

  /** One pass through the loop body, popping position j. */
  ghost function Iterate(y: seq<real>, s: State, j: nat): State
  {
    if |s.queue| <= j then s
    else
      var Entry(_, l, r) := s.queue[j];
      var rest := Without(s.queue, j);
      if r == l + 1 then
        s.(queue := rest, dropped := s.dropped + {(l, r)})
      else if l + 1 < r < |y| then
        var i, e := Split(y, l, r), Err(y, l, r);
        s.(chosen := s.chosen[i := e], queue := rest + [Entry(-e, l, i)] + [Entry(-e, i, r)])
      else s
  }

  /** The state after popping the given positions one after the other. */
  ghost function Run(y: seq<real>, picks: seq<nat>): State
    requires |y| >= 2
    decreases |picks|
  {
    if picks == [] then Init(y)
    else Iterate(y, Run(y, picks[..|picks| - 1]), picks[|picks| - 1])
  }

  ghost predicate Running(s: State, limit: nat) {
    s.queue != [] && |s.chosen| < limit
  }

  /** The loop could make these pops: its guard held before each. With `greedy`, each
      pop also took a heap minimum. */
  ghost predicate Possible(y: seq<real>, limit: nat, picks: seq<nat>, greedy: bool)
    requires |y| >= 2
    decreases |picks|
  {
    picks == [] ||
    (var before, j := picks[..|picks| - 1], picks[|picks| - 1];
     var s := Run(y, before);
     && Possible(y, limit, before, greedy)
     && Running(s, limit) && j < |s.queue|
     && (greedy ==> IsMinimum(s.queue, j)))
  }

  // ---- What every iteration keeps ----

  /** l and r are consecutive in the set of chosen indices. */
  ghost predicate Adjacent(chosen: map<nat, real>, l: nat, r: nat) {
    l in chosen && r in chosen && l < r && forall k: nat :: l < k < r ==> k !in chosen
  }

  ghost predicate Pending(queue: seq<Entry>, l: nat, r: nat) {
    exists j :: 0 <= j < |queue| && queue[j].left == l && queue[j].right == r
  }

  /** Queued and dropped intervals together are exactly the consecutive pairs of chosen
      indices, each held once, and every queued one is a node of the split tree. */
  ghost predicate Tiling(y: seq<real>, s: State)
    requires |y| >= 2
  {
    && (forall l: nat, r: nat :: Adjacent(s.chosen, l, r) <==> Pending(s.queue, l, r) || (l, r) in s.dropped)
    && (forall l: nat, r: nat :: (l, r) in s.dropped ==> r == l + 1 && !Pending(s.queue, l, r))
    && (forall i, j :: 0 <= i < j < |s.queue| ==>
          s.queue[i].left != s.queue[j].left || s.queue[i].right != s.queue[j].right)
    && (forall j :: 0 <= j < |s.queue| ==>
          s.queue[j].left < s.queue[j].right && Node(y, 0, |y| - 1, s.queue[j].left, s.queue[j].right))
  }

  /** Within (l, r), the chosen set contains the split point of every node it reaches into. */
  ghost predicate AncestorClosed(y: seq<real>, l: nat, r: nat, chosen: map<nat, real>)
    requires l < r < |y|
    decreases r - l
  {
    (exists k: nat :: l < k < r && k in chosen) ==>
      && Split(y, l, r) in chosen
      && AncestorClosed(y, l, Split(y, l, r), chosen)
      && AncestorClosed(y, Split(y, l, r), r, chosen)
  }

  ghost predicate Weighed(y: seq<real>, chosen: map<nat, real>)
    requires |y| >= 2
  {
    && 0 in chosen && |y| - 1 in chosen
    && forall k <- chosen :: k < |y| && chosen[k] == Weight(y, 0, |y| - 1, k)
  }

  ghost predicate Invariant(y: seq<real>, s: State)
    requires |y| >= 2
  {
    Weighed(y, s.chosen) && Tiling(y, s) && AncestorClosed(y, 0, |y| - 1, s.chosen)
  }

  /** Work left: 2 (r - l) - 1 for each queued interval. */
  ghost function Potential(queue: seq<Entry>): int {
    if queue == [] then 0
    else
      var e := queue[|queue| - 1];
      Potential(queue[..|queue| - 1]) + 2 * (e.right - e.left) - 1
  }

  lemma PotentialAppend(queue: seq<Entry>, e: Entry)
    ensures Potential(queue + [e]) == Potential(queue) + 2 * (e.right - e.left) - 1
  {
    assert (queue + [e])[..|queue|] == queue;
  }

  lemma {:induction false} PotentialWithout(queue: seq<Entry>, j: nat)
    requires j < |queue|
    ensures Potential(Without(queue, j)) == Potential(queue) - 2 * (queue[j].right - queue[j].left) + 1
  {
    var last := |queue| - 1;
    if j == last {
      assert Without(queue, j) == queue[..last];
    } else {
      PotentialWithout(queue[..last], j);
      assert Without(queue, j) == Without(queue[..last], j) + [queue[last]];
      PotentialAppend(Without(queue[..last], j), queue[last]);
    }
  }

  lemma {:induction false} PotentialNonNegative(queue: seq<Entry>)
    requires forall j :: 0 <= j < |queue| ==> queue[j].left < queue[j].right
    ensures Potential(queue) >= |queue|
  {
    if queue != [] {
      PotentialNonNegative(queue[..|queue| - 1]);
    }
  }

  lemma InitInvariant(y: seq<real>)
    requires |y| >= 2
    ensures Invariant(y, Init(y))
    ensures |Init(y).chosen| == 2 && Potential(Init(y).queue) == 2 * |y| - 3
  {
    InitPotential(y);
    hide Potential; hide Err; hide Split; hide Dev;
    var s := Init(y);
    assert s.queue[0].left == 0 && s.queue[0].right == |y| - 1;
    assert s.chosen.Keys == {0, |y| - 1};
  }

  lemma InitPotential(y: seq<real>)
    requires |y| >= 2
    ensures Potential(Init(y).queue) == 2 * |y| - 3
  {
    OnePotential(Init(y).queue[0]);
  }

  lemma OnePotential(e: Entry)
    ensures Potential([e]) == 2 * (e.right - e.left) - 1
  {
    PotentialAppend([], e);
    assert [] + [e] == [e];
  }

  lemma PendingWithout(queue: seq<Entry>, j: nat, l: nat, r: nat)
    requires j < |queue|
    requires forall i, k :: 0 <= i < k < |queue| ==> queue[i].left != queue[k].left || queue[i].right != queue[k].right
    ensures Pending(Without(queue, j), l, r) <==> Pending(queue, l, r) && !(l == queue[j].left && r == queue[j].right)
  {
    var rest := Without(queue, j);
    if Pending(rest, l, r) {
      var i :| 0 <= i < |rest| && rest[i].left == l && rest[i].right == r;
      assert rest[i] == queue[if i < j then i else i + 1];
    }
    if Pending(queue, l, r) && !(l == queue[j].left && r == queue[j].right) {
      var i :| 0 <= i < |queue| && queue[i].left == l && queue[i].right == r;
      assert rest[if i < j then i else i - 1] == queue[i];
    }
  }

  lemma PendingAppend(queue: seq<Entry>, e: Entry, l: nat, r: nat)
    ensures Pending(queue + [e], l, r) <==> Pending(queue, l, r) || (l == e.left && r == e.right)
  {
    var q := queue + [e];
    if Pending(queue, l, r) {
      var i :| 0 <= i < |queue| && queue[i].left == l && queue[i].right == r;
      assert q[i] == queue[i];
    }
    assert q[|queue|] == e;
  }

  /** Dropping a unit interval keeps the tiling. */
  lemma DropKeepsTiling(y: seq<real>, s: State, j: nat)
    requires |y| >= 2 && Tiling(y, s) && j < |s.queue| && s.queue[j].right == s.queue[j].left + 1
    ensures Tiling(y, Iterate(y, s, j))
  {
    var t := Iterate(y, s, j);
    var l0, r0 := s.queue[j].left, s.queue[j].right;
    forall l: nat, r: nat
      ensures Adjacent(t.chosen, l, r) <==> Pending(t.queue, l, r) || (l, r) in t.dropped
      ensures (l, r) in t.dropped ==> r == l + 1 && !Pending(t.queue, l, r)
    {
      PendingWithout(s.queue, j, l, r);
      assert Pending(s.queue, l0, r0);
      assert Adjacent(s.chosen, l, r) <==> Pending(s.queue, l, r) || (l, r) in s.dropped;
    }
  }

  /** Splitting a queued interval keeps the tiling, and its split point is fresh. */
  lemma SplitKeepsTiling(y: seq<real>, s: State, j: nat)
    requires |y| >= 2 && Tiling(y, s) && j < |s.queue| && s.queue[j].left + 1 < s.queue[j].right < |y|
    ensures Split(y, s.queue[j].left, s.queue[j].right) !in s.chosen
    ensures Tiling(y, Iterate(y, s, j))
  {
    hide Dev; hide FarthestUpTo; hide Err;
    var t := Iterate(y, s, j);
    var Entry(_, l0, r0) := s.queue[j];
    var i0, e0 := Split(y, l0, r0), Err(y, l0, r0);
    var rest := Without(s.queue, j);
    assert Pending(s.queue, l0, r0);
    assert Adjacent(s.chosen, l0, r0);
    NodeHalves(y, 0, |y| - 1, l0, r0);
    forall l: nat, r: nat
      ensures Pending(t.queue, l, r) <==>
        (Pending(s.queue, l, r) && !(l == l0 && r == r0)) || (l == l0 && r == i0) || (l == i0 && r == r0)
    {
      PendingWithout(s.queue, j, l, r);
      PendingAppend(rest, Entry(-e0, l0, i0), l, r);
      PendingAppend(rest + [Entry(-e0, l0, i0)], Entry(-e0, i0, r0), l, r);
    }
    forall l: nat, r: nat
      ensures Adjacent(t.chosen, l, r) <==>
        (Adjacent(s.chosen, l, r) && !(l == l0 && r == r0)) || (l == l0 && r == i0) || (l == i0 && r == r0)
    {
      AdjacentAfterSplit(s.chosen, l0, i0, r0, e0, l, r);
    }
    forall l: nat, r: nat
      ensures Adjacent(t.chosen, l, r) <==> Pending(t.queue, l, r) || (l, r) in t.dropped
      ensures (l, r) in t.dropped ==> r == l + 1 && !Pending(t.queue, l, r)
    {
      assert Adjacent(s.chosen, l, r) <==> Pending(s.queue, l, r) || (l, r) in s.dropped;
    }
    forall h | 0 <= h < |s.queue| ensures s.queue[h].left in s.chosen && s.queue[h].right in s.chosen {
      assert Pending(s.queue, s.queue[h].left, s.queue[h].right);
      assert Adjacent(s.chosen, s.queue[h].left, s.queue[h].right);
    }
    SplitKeepsDistinct(s.queue, j, i0, -e0, s.chosen);
  }

  lemma AdjacentAfterSplit(chosen: map<nat, real>, l0: nat, i0: nat, r0: nat, e0: real, l: nat, r: nat)
    requires Adjacent(chosen, l0, r0) && l0 < i0 < r0
    ensures Adjacent(chosen[i0 := e0], l, r) <==>
      (Adjacent(chosen, l, r) && !(l == l0 && r == r0)) || (l == l0 && r == i0) || (l == i0 && r == r0)
  {
    var after := chosen[i0 := e0];
    if Adjacent(after, l, r) {
      assert l < l0 < r ==> l0 !in after;
      assert l < r0 < r ==> r0 !in after;
      assert l < i0 < r ==> i0 !in after;
      assert l0 < l < r0 ==> l == i0;
      assert l0 < r < r0 ==> r == i0;
      forall k: nat | l < k < r ensures k !in chosen { assert k !in after; }
    }
    if Adjacent(chosen, l, r) && !(l == l0 && r == r0) {
      assert l < l0 < r ==> l0 !in chosen;
      assert l < r0 < r ==> r0 !in chosen;
      assert !(l0 < l < r0) && !(l0 < r < r0);
      assert !(l < i0 < r);
    }
  }

  lemma SplitKeepsDistinct(queue: seq<Entry>, j: nat, i0: nat, p: real, chosen: map<nat, real>)
    requires j < |queue| && i0 !in chosen
    requires forall i, k :: 0 <= i < k < |queue| ==> queue[i].left != queue[k].left || queue[i].right != queue[k].right
    requires forall i :: 0 <= i < |queue| ==> queue[i].left in chosen && queue[i].right in chosen
    ensures var l, r := queue[j].left, queue[j].right;
            var q := Without(queue, j) + [Entry(p, l, i0)] + [Entry(p, i0, r)];
            forall i, k :: 0 <= i < k < |q| ==> q[i].left != q[k].left || q[i].right != q[k].right
  {
    var l, r := queue[j].left, queue[j].right;
    var rest := Without(queue, j);
    var q := rest + [Entry(p, l, i0)] + [Entry(p, i0, r)];
    assert forall i :: 0 <= i < |rest| ==> rest[i] == queue[if i < j then i else i + 1];
    assert forall i :: 0 <= i < |rest| ==> q[i] == rest[i];
    assert q[|rest|] == Entry(p, l, i0) && q[|rest| + 1] == Entry(p, i0, r);
  }

  /** Choosing the split point of an untouched node keeps the chosen set ancestor-closed. */
  lemma {:induction false} ClosedAfterSplit(y: seq<real>, L: nat, R: nat, l: nat, r: nat, chosen: map<nat, real>, e: real)
    requires L < R < |y| && Node(y, L, R, l, r) && l + 1 < r < |y|
    requires AncestorClosed(y, L, R, chosen)
    requires forall k: nat :: l < k < r ==> k !in chosen
    requires (l == L || l in chosen) && (r == R || r in chosen)
    ensures AncestorClosed(y, L, R, chosen[Split(y, l, r) := e])
    decreases R - L
  {
    NodeRange(y, L, R, l, r);
    var i, I := Split(y, l, r), Split(y, L, R);
    var after := chosen[i := e];
    if l == L && r == R {
      ClosedElsewhere(y, L, I, i, chosen, e);
      ClosedElsewhere(y, I, R, i, chosen, e);
    } else {
      assert exists k: nat :: L < k < R && k in chosen by { assert if l == L then r in chosen else l in chosen; }
      if Node(y, L, I, l, r) {
        NodeRange(y, L, I, l, r);
        ClosedAfterSplit(y, L, I, l, r, chosen, e);
        ClosedElsewhere(y, I, R, i, chosen, e);
      } else {
        NodeRange(y, I, R, l, r);
        ClosedAfterSplit(y, I, R, l, r, chosen, e);
        ClosedElsewhere(y, L, I, i, chosen, e);
      }
    }
  }

  lemma {:induction false} ClosedElsewhere(y: seq<real>, L: nat, R: nat, i: nat, chosen: map<nat, real>, e: real)
    requires L < R < |y| && !(L < i < R)
    requires (exists k: nat :: L < k < R && k in chosen) ==> AncestorClosed(y, L, R, chosen)
    ensures AncestorClosed(y, L, R, chosen[i := e])
    decreases R - L
  {
    if k: nat :| L < k < R && k in chosen {
      ClosedElsewhere(y, L, Split(y, L, R), i, chosen, e);
      ClosedElsewhere(y, Split(y, L, R), R, i, chosen, e);
    }
  }

  /** One iteration, whichever queued interval it pops, keeps the invariant, uses up
      exactly one unit of potential, and chooses at most one new index. */
  lemma IterateKeeps(y: seq<real>, s: State, j: nat)
    requires |y| >= 2 && Invariant(y, s) && j < |s.queue|
    ensures Invariant(y, Iterate(y, s, j))
    ensures Potential(Iterate(y, s, j).queue) == Potential(s.queue) - 1
    ensures |Iterate(y, s, j).chosen| == |s.chosen| + if s.queue[j].right == s.queue[j].left + 1 then 0 else 1
  {
    hide Invariant; hide Potential; hide Iterate;
    IterateUses(y, s, j);
    NodeOf(y, s, j);
    if s.queue[j].right == s.queue[j].left + 1 { DropKeeps(y, s, j); } else { SplitKeeps(y, s, j); }
  }

  lemma NodeOf(y: seq<real>, s: State, j: nat)
    requires |y| >= 2 && Invariant(y, s) && j < |s.queue|
    ensures var l, r := s.queue[j].left, s.queue[j].right;
            && l < r < |y| && Node(y, 0, |y| - 1, l, r) && l in s.chosen && r in s.chosen
            && forall k: nat :: l < k < r ==> k !in s.chosen
  {
    var l, r := s.queue[j].left, s.queue[j].right;
    assert Pending(s.queue, l, r);
    assert Adjacent(s.chosen, l, r) && Node(y, 0, |y| - 1, l, r);
    hide Invariant; hide Pending;
    NodeRange(y, 0, |y| - 1, l, r);
  }

  lemma DropKeeps(y: seq<real>, s: State, j: nat)
    requires |y| >= 2 && Invariant(y, s) && j < |s.queue| && s.queue[j].right == s.queue[j].left + 1
    ensures Invariant(y, Iterate(y, s, j)) && Iterate(y, s, j).chosen == s.chosen
  {
    hide Tiling; hide Weighed; hide AncestorClosed;
    DropKeepsTiling(y, s, j);
  }

  lemma SplitKeeps(y: seq<real>, s: State, j: nat)
    requires |y| >= 2 && Invariant(y, s) && j < |s.queue| && s.queue[j].left + 1 < s.queue[j].right < |y|
    ensures Invariant(y, Iterate(y, s, j)) && |Iterate(y, s, j).chosen| == |s.chosen| + 1
  {
    var l, r := s.queue[j].left, s.queue[j].right;
    NodeOf(y, s, j);
    hide Tiling; hide Weighed; hide AncestorClosed; hide Node; hide Split; hide Err;
    IterateSplits(y, s, j);
    SplitKeepsTiling(y, s, j);
    SplitWeighs(y, s.chosen, l, r);
    EndsChosen(y, s.chosen);
    hide Iterate;
    ClosedAfterSplit(y, 0, |y| - 1, l, r, s.chosen, Err(y, l, r));
  }

  lemma EndsChosen(y: seq<real>, chosen: map<nat, real>)
    requires |y| >= 2 && Weighed(y, chosen)
    ensures 0 in chosen && |y| - 1 in chosen
  {
  }

  lemma SplitWeighs(y: seq<real>, chosen: map<nat, real>, l: nat, r: nat)
    requires |y| >= 2 && Weighed(y, chosen) && l + 1 < r < |y| && Node(y, 0, |y| - 1, l, r)
    ensures Weighed(y, chosen[Split(y, l, r) := Err(y, l, r)])
  {
    hide Err; hide Node; hide Split; hide Weight;
    var i := Split(y, l, r);
    WeightOfSplit(y, l, r);
    NodeWeight(y, 0, |y| - 1, l, r, i);
  }

  lemma WeightOfSplit(y: seq<real>, l: nat, r: nat)
    requires l + 1 < r < |y|
    ensures Weight(y, l, r, Split(y, l, r)) == Err(y, l, r)
  {
  }

  lemma IterateUses(y: seq<real>, s: State, j: nat)
    requires |y| >= 2 && Invariant(y, s) && j < |s.queue|
    ensures Potential(Iterate(y, s, j).queue) == Potential(s.queue) - 1
  {
    var Entry(_, l, r) := s.queue[j];
    NodeRange(y, 0, |y| - 1, l, r);
    hide Invariant; hide Potential; hide Err; hide Split; hide Node;
    PotentialWithout(s.queue, j);
    if r != l + 1 {
      var i, e, rest := Split(y, l, r), Err(y, l, r), Without(s.queue, j);
      hide Without;
      PotentialAppend(rest, Entry(-e, l, i));
      PotentialAppend(rest + [Entry(-e, l, i)], Entry(-e, i, r));
    }
  }

  // ---- What holds when the loop stops ----

  lemma {:induction false} KeysWithin(n: nat, chosen: set<nat>)
    requires forall k <- chosen :: k < n
    ensures |chosen| <= n
    ensures |chosen| == n ==> forall k: nat :: k < n ==> k in chosen
  {
    if n > 0 {
      var rest := chosen - {n - 1};
      KeysWithin(n - 1, rest);
      if n - 1 in chosen {
        assert |rest| == |chosen| - 1;
        assert forall k: nat :: k in rest ==> k in chosen;
      } else {
        assert rest == chosen;
      }
    }
  }

  /** With nothing queued, every consecutive pair is a unit interval: all indices are chosen. */
  lemma {:induction false} EmptyQueueChoosesAll(y: seq<real>, s: State, k: nat)
    requires |y| >= 2 && Invariant(y, s) && s.queue == [] && k < |y|
    ensures k in s.chosen
  {
    if k > 0 {
      EmptyQueueChoosesAll(y, s, k - 1);
      var r := NextChosen(y, s.chosen, k);
      assert Adjacent(s.chosen, k - 1, r);
      assert !Pending(s.queue, k - 1, r);
    }
  }

  lemma NextChosen(y: seq<real>, chosen: map<nat, real>, k: nat) returns (r: nat)
    requires |y| >= 2 && k < |y| && |y| - 1 in chosen
    ensures k <= r < |y| && r in chosen && forall h: nat :: k <= h < r ==> h !in chosen
    decreases |y| - k
  {
    if k in chosen { r := k; } else { r := NextChosen(y, chosen, k + 1); }
  }

  lemma AllChosenCount(n: nat, chosen: set<nat>)
    requires forall k: nat :: k in chosen <==> k < n
    ensures |chosen| == n
  {
    if n > 0 {
      var rest := chosen - {n - 1};
      assert forall k: nat :: k in rest <==> k < n - 1;
      AllChosenCount(n - 1, rest);
      assert chosen == rest + {n - 1};
    }
  }

  /** However the loop stops, the number of chosen samples is fixed by n and the limit,
      and when the limit does not bind every sample carries its recursive weight. */
  lemma Stopped(y: seq<real>, limit: nat, s: State)
    requires |y| >= 2 && Invariant(y, s) && !Running(s, limit) && |s.chosen| <= limit
    ensures |s.chosen| == if |y| < limit then |y| else limit
    ensures limit >= |y| ==> forall k: nat :: k < |y| ==> k in s.chosen && s.chosen[k] == Weight(y, 0, |y| - 1, k)
  {
    KeysWithin(|y|, s.chosen.Keys);
    if s.queue == [] {
      forall k: nat | k < |y| ensures k in s.chosen.Keys { EmptyQueueChoosesAll(y, s, k); }
      AllChosenCount(|y|, s.chosen.Keys);
    }
  }

  lemma {:induction false} RunKeeps(y: seq<real>, limit: nat, picks: seq<nat>, greedy: bool)
    requires |y| >= 2 && limit >= 2 && Possible(y, limit, picks, greedy)
    ensures Invariant(y, Run(y, picks))
    ensures Potential(Run(y, picks).queue) == 2 * |y| - 3 - |picks|
    ensures |Run(y, picks).chosen| <= limit
    decreases |picks|
  {
    InitInvariant(y);
    if picks != [] {
      var before := picks[..|picks| - 1];
      RunKeeps(y, limit, before, greedy);
      IterateKeeps(y, Run(y, before), picks[|picks| - 1]);
    }
  }

  /** Refinement in any pop order: every possible run makes at most 2n - 3 iterations and
      keeps the tiling and closure; and if it has stopped, it has chosen min(n, limit)
      samples, each weighing what recursive Douglas-Peucker says. */
  lemma AnyPopOrder(y: seq<real>, limit: nat, picks: seq<nat>, greedy: bool)
    requires |y| >= 2 && limit >= 2 && Possible(y, limit, picks, greedy)
    ensures |picks| <= 2 * |y| - 3
    ensures Invariant(y, Run(y, picks))
    ensures var s := Run(y, picks);
            !Running(s, limit) ==>
              && |s.chosen| == (if |y| < limit then |y| else limit)
              && (limit >= |y| ==> forall k: nat :: k < |y| ==> k in s.chosen && s.chosen[k] == Weight(y, 0, |y| - 1, k))
  {
    RunKeeps(y, limit, picks, greedy);
    PotentialNonNegative(Run(y, picks).queue);
    if !Running(Run(y, picks), limit) {
      Stopped(y, limit, Run(y, picks));
    }
  }

  // ---- Largest error first ----

  /** The error of the split that made the interval (l, r) of the tree of (L, R). */
  ghost function MadeBy(y: seq<real>, L: nat, R: nat, l: nat, r: nat): real
    requires L < R < |y|
    decreases R - L
  {
    if (l == L && r == R) || R - L == 1 then 0.0
    else
      var i := Split(y, L, R);
      if (l == L && r == i) || (l == i && r == R) then Err(y, L, R)
      else if r <= i then MadeBy(y, L, i, l, r) else MadeBy(y, i, R, l, r)
  }

  lemma {:induction false} HalvesMadeBy(y: seq<real>, L: nat, R: nat, l: nat, r: nat)
    requires L < R < |y| && Node(y, L, R, l, r) && l + 1 < r <= R
    ensures var i := Split(y, l, r); MadeBy(y, L, R, l, i) == Err(y, l, r) == MadeBy(y, L, R, i, r)
    decreases R - L
  {
    hide Err;
    if !(l == L && r == R) {
      var i := Split(y, L, R);
      if Node(y, L, i, l, r) {
        NodeRange(y, L, i, l, r);
        HalvesMadeBy(y, L, i, l, r);
      } else {
        NodeRange(y, i, R, l, r);
        HalvesMadeBy(y, i, R, l, r);
      }
    }
  }

  /** Every queued entry is keyed by the negated error of the split that made it. */
  ghost predicate Keyed(y: seq<real>, s: State)
    requires |y| >= 2
  {
    forall j :: 0 <= j < |s.queue| ==> s.queue[j].priority == -MadeBy(y, 0, |y| - 1, s.queue[j].left, s.queue[j].right)
  }

  lemma IterateKeyed(y: seq<real>, s: State, j: nat)
    requires |y| >= 2 && Invariant(y, s) && Keyed(y, s) && j < |s.queue|
    ensures Keyed(y, Iterate(y, s, j))
  {
    hide MadeBy; hide Err; hide Split; hide Node; hide AncestorClosed; hide Weighed; hide Iterate;
    var l, r := s.queue[j].left, s.queue[j].right;
    assert l < r && Node(y, 0, |y| - 1, l, r);
    hide Invariant; hide Tiling;
    NodeRange(y, 0, |y| - 1, l, r);
    if l + 1 < r {
      HalvesMadeBy(y, 0, |y| - 1, l, r);
      IterateSplits(y, s, j);
    } else {
      IterateDrops(y, s, j);
    }
  }

  lemma {:induction false} RunKeyed(y: seq<real>, limit: nat, picks: seq<nat>)
    requires |y| >= 2 && limit >= 2 && Possible(y, limit, picks, true)
    ensures Keyed(y, Run(y, picks))
    decreases |picks|
  {
    if picks != [] {
      var before := picks[..|picks| - 1];
      RunKeyed(y, limit, before);
      RunKeeps(y, limit, before, true);
      hide Invariant; hide Keyed; hide Iterate;
      IterateKeyed(y, Run(y, before), picks[|picks| - 1]);
    }
  }

  /** The loop always goes on with an interval whose making split had the largest error of
      those queued. */
  lemma LargestErrorFirst(y: seq<real>, limit: nat, picks: seq<nat>, j: nat)
    requires |y| >= 2 && limit >= 2 && Possible(y, limit, picks + [j], true)
    ensures var queue := Run(y, picks).queue;
            && j < |queue|
            && forall i :: 0 <= i < |queue| ==>
                 MadeBy(y, 0, |y| - 1, queue[i].left, queue[i].right) <= MadeBy(y, 0, |y| - 1, queue[j].left, queue[j].right)
  {
    assert (picks + [j])[..|picks|] == picks;
    RunKeyed(y, limit, picks);
    hide MadeBy;
  }

  lemma QueuedRange(y: seq<real>, s: State, j: nat)
    requires |y| >= 2 && Invariant(y, s) && j < |s.queue|
    ensures s.queue[j].left < s.queue[j].right < |y|
    ensures Potential(s.queue) > 0
  {
    NodeRange(y, 0, |y| - 1, s.queue[j].left, s.queue[j].right);
    PotentialNonNegative(s.queue);
  }

  /** The array the loop's dictionary is turned into: 0 where no error was recorded. */
  function ToArray(chosen: map<nat, real>, n: nat): (w: seq<real>)
    ensures |w| == n
  {
    seq(n, k requires 0 <= k < n => if k in chosen then chosen[k] else 0.0)
  }

  /** The weights recursive Douglas-Peucker gives a whole series. */
  function TreeWeights(y: seq<real>): (w: seq<real>)
    requires |y| >= 2
    ensures |w| == |y|
  {
    seq(|y|, k requires 0 <= k < |y| => Weight(y, 0, |y| - 1, k))
  }

  /** The loop itself. `picks` records, for the proof only, which positions it popped. */
  method SplitLoop(data: seq<real>, limit: nat) returns (chosen: map<nat, real>, ghost picks: seq<nat>)
    requires |data| >= 2 && limit >= 2
    ensures Possible(data, limit, picks, true)
    ensures !Running(Run(data, picks), limit)
    ensures chosen == Run(data, picks).chosen
    ensures Weighed(data, chosen) && AncestorClosed(data, 0, |data| - 1, chosen)
    ensures |chosen| == if |data| < limit then |data| else limit
  {
    hide Dev; hide FarthestUpTo; hide Split; hide Err; hide Weight; hide Invariant; hide Iterate;
    hide IsMinimum; hide Possible; hide Run;
    chosen := map[0 := 0.0, |data| - 1 := 0.0];
    picks := [];
    var processed := 2;
    var queue := [Entry(0.0, 0, |data| - 1)];
    ghost var s := Init(data);
    InitInvariant(data);
    RunStarts(data, limit);

    while queue != [] && processed < limit
      invariant chosen == s.chosen && queue == s.queue && processed == |chosen| <= limit
      invariant Possible(data, limit, picks, true) && s == Run(data, picks)
      invariant Invariant(data, s)
      decreases Potential(queue)
    {
      var j := HeapPop(queue);
      var left, right := queue[j].left, queue[j].right;
      QueuedRange(data, s, j);
      IterateKeeps(data, s, j);
      PickOne(data, limit, picks, true, j);
      picks := picks + [j];
      if right - left == 1 {
        queue := Without(queue, j);
        IterateDrops(data, s, j);
        s := Iterate(data, s, j);
        continue;
      }
      var i, error := Farthest(data, left, right);
      chosen := chosen[i := error];
      queue := Without(queue, j) + [Entry(-error, left, i)] + [Entry(-error, i, right)];
      processed := processed + 1;
      IterateSplits(data, s, j);
      s := Iterate(data, s, j);
    }
    LoopEnds(data, limit, s);
  }

  lemma LoopEnds(y: seq<real>, limit: nat, s: State)
    requires |y| >= 2 && Invariant(y, s) && !Running(s, limit) && |s.chosen| <= limit
    ensures Weighed(y, s.chosen) && AncestorClosed(y, 0, |y| - 1, s.chosen)
    ensures |s.chosen| == if |y| < limit then |y| else limit
  {
    Stopped(y, limit, s);
  }

  /** The weights of a whole series, one per sample, with the source's two exceptions. */
  method Compute(data: seq<real>, ratio: real) returns (res: Result<seq<real>>, ghost picks: seq<nat>)
    ensures |data| == 0 ==> res == Raised(IndexError)
    ensures |data| == 1 ==> res == Raised(ValueError)
    ensures |data| >= 2 ==>
      && Possible(data, Limit(|data|, ratio), picks, true)
      && !Running(Run(data, picks), Limit(|data|, ratio))
      && res == Ok(ToArray(Run(data, picks).chosen, |data|))
    ensures |data| >= 2 && ratio >= 1.0 ==> res == Ok(TreeWeights(data))
    ensures |data| >= 2 ==> res.Ok? && |res.value| == |data| && forall k :: 0 <= k < |data| ==>
              res.value[k] == if k in Run(data, picks).chosen then Weight(data, 0, |data| - 1, k) else 0.0
  {
    if |data| == 0 {
      return Raised(IndexError), [];  // the ends of an empty slice
    }
    if |data| == 1 {
      return Raised(ValueError), [];  // argmax of an empty slice
    }
    var limit := Limit(|data|, ratio);
    var chosen;
    chosen, picks := SplitLoop(data, limit);
    res := Ok(ToArray(chosen, |data|));
    if ratio >= 1.0 {
      LimitAtLeast(|data|, ratio);
      AnyPopOrder(data, limit, picks, true);
      assert ToArray(chosen, |data|) == TreeWeights(data);
    }
  }

  /** The value at rank k on the straight way from sample l to sample r. */
  function Between(y: seq<real>, l: nat, r: nat, k: nat): real
    requires l < r < |y| && l <= k <= r
  {
    y[l] + (k - l) as real / (r - l) as real * (y[r] - y[l])
  }

  lemma DevIsDistance(y: seq<real>, l: nat, r: nat, k: nat)
    requires l < r < |y| && l <= k <= r
    ensures Dev(y, l, r, k) == Abs(y[k] - Between(y, l, r, k))
  {
    LineIsMean(l, y[l], r, y[r], k);
  }

  /** The interior sample of (left, right) farthest from its chord, and how far it is: the
      first of those with the largest vertical distance. */
  method Farthest(data: seq<real>, left: nat, right: nat) returns (i: nat, error: real)
    requires left + 1 < right < |data|
    ensures i == Split(data, left, right) && error == Err(data, left, right)
    ensures left < i < right && error == Abs(data[i] - Between(data, left, right, i))
    ensures forall k :: left < k < right ==> Abs(data[k] - Between(data, left, right, k)) <= error
    ensures forall k :: left < k < i ==> Abs(data[k] - Between(data, left, right, k)) < error
  {
    hide Dev; hide Between;
    forall k | left <= k <= right ensures Dev(data, left, right, k) == Abs(data[k] - Between(data, left, right, k)) {
      DevIsDistance(data, left, right, k);
    }
    var diff := seq(right - left - 1, k requires 0 <= k < right - left - 1 => Dev(data, left, right, left + 1 + k));
    i := ArgMax(diff);
    error := diff[i];
    i := i + left + 1;
    FirstFarthest(data, left, right, diff, i);
  }

  lemma RunStarts(y: seq<real>, limit: nat)
    requires |y| >= 2
    ensures Possible(y, limit, [], true) && Run(y, []) == Init(y)
  {
  }

  lemma PickOne(y: seq<real>, limit: nat, picks: seq<nat>, greedy: bool, j: nat)
    requires |y| >= 2 && Possible(y, limit, picks, greedy)
    requires Running(Run(y, picks), limit) && j < |Run(y, picks).queue|
    requires greedy ==> IsMinimum(Run(y, picks).queue, j)
    ensures Possible(y, limit, picks + [j], greedy)
    ensures Run(y, picks + [j]) == Iterate(y, Run(y, picks), j)
  {
    assert (picks + [j])[..|picks|] == picks;
  }

  lemma IterateDrops(y: seq<real>, s: State, j: nat)
    requires j < |s.queue| && s.queue[j].right == s.queue[j].left + 1
    ensures Iterate(y, s, j) ==
            s.(queue := Without(s.queue, j), dropped := s.dropped + {(s.queue[j].left, s.queue[j].right)})
  {
  }

  lemma IterateSplits(y: seq<real>, s: State, j: nat)
    requires j < |s.queue| && s.queue[j].left + 1 < s.queue[j].right < |y|
    ensures var l, r := s.queue[j].left, s.queue[j].right;
            var i, e := Split(y, l, r), Err(y, l, r);
            Iterate(y, s, j) ==
            s.(chosen := s.chosen[i := e], queue := Without(s.queue, j) + [Entry(-e, l, i)] + [Entry(-e, i, r)])
  {
  }

  lemma LimitAtLeast(n: nat, ratio: real)
    requires ratio >= 1.0
    ensures Limit(n, ratio) >= n
  {
    hide Limit;
    var wanted := n as real * ratio;
    MulMono(n as real, 1.0, ratio);
    assert wanted >= n as real;
  }

  /** The first largest deviation determines the split point. */
  lemma FirstFarthest(y: seq<real>, l: nat, r: nat, diff: seq<real>, i: nat)
    requires l + 1 < r < |y| && l < i < r && |diff| == r - l - 1
    requires forall k :: 0 <= k < |diff| ==> diff[k] == Dev(y, l, r, l + 1 + k)
    requires forall k :: 0 <= k < |diff| ==> diff[k] <= diff[i - l - 1]
    requires forall k :: 0 <= k < i - l - 1 ==> diff[k] < diff[i - l - 1]
    ensures i == Split(y, l, r) && diff[i - l - 1] == Err(y, l, r)
  {
    hide Dev;
    var s := Split(y, l, r);
    assert diff[s - l - 1] == Dev(y, l, r, s) && diff[i - l - 1] == Dev(y, l, r, i);
  }
}
