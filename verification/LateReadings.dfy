/** What a replayed older reading, which ingest accepts, can do: stay off the chart until the
    next full pass, and make every tail pass fail. Two concrete tables show it. */
module LateReadings {
  import opened Chord
  import opened CalculateWeights
  import opened SplitTree
  import opened Tables
  import opened Coverage
  import opened Transactions
  import opened TailPass
  import opened Chart

  const STREAM := Stream(1, "temperature")

  lemma HatWeights(x: real)
    requires x > 0.0
    ensures TreeWeights([0.0, x, 0.0]) == [0.0, x, 0.0]
  {
    var y := [0.0, x, 0.0];
    assert Dev(y, 0, 2, 1) == x && Split(y, 0, 2) == 1;
  }

  lemma UpsertMiddle(weights: map<nat, real>, a: Row, b: Row, c: Row, x: real, onlyHigher: bool)
    requires x > 0.0
    ensures Upsert(weights, [a, b, c], [0.0, x, 0.0], onlyHigher) == UpsertRow(weights, b.id, x, onlyHigher)
  {
    assert [a, b, c][..2] == [a, b] && [a, b][..1] == [a] && [a][..0] == [];
    assert [0.0, x, 0.0][..2] == [0.0, x] && [0.0, x][..1] == [0.0] && [0.0][..0] == [];
    assert Upsert(weights, [a], [0.0], onlyHigher) == weights;
    assert Upsert(weights, [a, b], [0.0, x], onlyHigher) == UpsertRow(weights, b.id, x, onlyHigher);
  }

  // A pass over a low, a high and a low reading gives the middle one a weight.
  lemma HatPass(db: Db, a: Row, b: Row, c: Row, x: real, full: bool)
    requires x > 0.0 && a.value == 0.0 && b.value == x && c.value == 0.0
    ensures Apply(db, Pass([a, b, c], full)) == db.(weights := UpsertRow(db.weights, b.id, x, !full))
  {
    assert Values([a, b, c]) == [0.0, x, 0.0];
    HatWeights(x);
    UpsertMiddle(db.weights, a, b, c, x, !full);
  }

  // ---- A reading that stays off the chart ----

  const EARLY := Row(1, STREAM, 0.0, 0)
  const PEAK := Row(2, STREAM, 2.0, 2_000_000)
  const FINAL := Row(3, STREAM, 0.0, 3_000_000)
  const LATE := Row(4, STREAM, 0.0, 1_000_000)

  const REPLAY: seq<Op> := [Pass([EARLY, PEAK, FINAL], true), Append(STREAM, 0.0, 1_000_000), Pass([LATE, PEAK, FINAL], false)]

  lemma ReplayRun(db: Db)
    requires db == Db([EARLY, PEAK, FINAL], map[], 4)
    ensures Valid(db) && AllowedAll(db, REPLAY)
    ensures TablesAt(db, REPLAY, 2) == Db([EARLY, PEAK, FINAL, LATE], map[2 := 2.0], 5) == ApplyAll(db, REPLAY)
  {
    var full, late, after := Db([EARLY, PEAK, FINAL], map[2 := 2.0], 4), REPLAY[..2], Db([EARLY, PEAK, FINAL, LATE], map[2 := 2.0], 5);
    HatPass(db, EARLY, PEAK, FINAL, 2.0, true);
    HatPass(after, LATE, PEAK, FINAL, 2.0, false);
    hide Upsert; hide TreeWeights;
    OneMoreStep(db, [], REPLAY[0]);
    assert [] + [REPLAY[0]] == [REPLAY[0]] && [REPLAY[0]] + [REPLAY[1]] == late && late + [REPLAY[2]] == REPLAY;
    OneMoreStep(db, [REPLAY[0]], REPLAY[1]);
    assert Allowed(after, REPLAY[2]);
    OneMoreStep(db, late, REPLAY[2]);
  }

  lemma ReplayTail(db: Db, tail: seq<Row>)
    requires db == Db([EARLY, PEAK, FINAL, LATE], map[2 := 2.0], 5)
    ensures IsTail(db, STREAM, tail) <==> tail == [LATE, PEAK, FINAL]
  {
    SelectSpec(db.rows, (r: Row) => r.stream == STREAM && r.id >= 2);
    hide Select;
    OrderUnique(FromId(db.rows, STREAM, 2), [LATE, PEAK, FINAL]);
    forall r ensures Weighted(db, STREAM, r) <==> r == PEAK {}
    assert Weighted(db, STREAM, PEAK) && Peak(db, STREAM, PEAK, PEAK);
    forall last, peak | Peak(db, STREAM, last, peak) ensures peak == PEAK {}
  }

  lemma ReplayWindow(db: Db)
    requires db.rows == [EARLY, PEAK, FINAL, LATE]
    ensures Window(db.rows, STREAM, 0, 3_000_000) == [EARLY, LATE, PEAK, FINAL]
  {
    SelectSpec(db.rows, (r: Row) => r.stream == STREAM && 0 <= r.at <= 3_000_000);
    hide Select;
    OrderUnique(Window(db.rows, STREAM, 0, 3_000_000), [EARLY, LATE, PEAK, FINAL]);
  }

  lemma ReplaySelection(win: seq<Row>, limit: nat, sel: set<nat>)
    requires win == [EARLY, LATE, PEAK, FINAL] && limit > 0
    ensures Selection(map[2 := 2.0], win, limit, sel) <==> sel == {0, 2, 3}
  {
    assert Top(map[2 := 2.0], win, limit, {2});
    assert Ends(win) + {2} == {0, 2, 3};
    forall top | Top(map[2 := 2.0], win, limit, top) ensures top == {2} {
      assert forall k <- top :: k == 2;
      assert 2 !in top ==> top == {};
    }
  }

  lemma ReplayMiss(win: seq<Row>)
    requires win == [EARLY, LATE, PEAK, FINAL]
    ensures Abs(win[1].value - Drawn(Values(win), {0, 2, 3}, 1)) == 1.0
  {
    assert Prev({0, 2, 3}, 1) == 0 && Next({0, 2, 3}, 1, 4) == 2;
  }

  /** A stream gets its full pass; a device replays an older reading from between two that
      pass covered; the next tail pass starts from a peak later than it by time but older by
      id, so the replayed row is its first and weighs nothing. Nothing that is left out has
      a weight, and yet the line misses it, for every limit the server may pass; and further
      tail passes change nothing. */
  lemma LateReadingStaysMissed(db: Db, after: Db, limit: nat, sel: set<nat>)
    requires db == Db([EARLY, PEAK, FINAL], map[], 4) && after == ApplyAll(db, REPLAY) && limit > 0
    ensures Valid(db) && AllowedAll(db, REPLAY)
    ensures IsTail(TablesAt(db, REPLAY, 2), STREAM, [LATE, PEAK, FINAL])
    ensures forall tail :: IsTail(after, STREAM, tail) ==> Apply(after, Pass(tail, false)) == after
    ensures var win := Window(after.rows, STREAM, 0, 3_000_000);
            && win == [EARLY, LATE, PEAK, FINAL]
            && (Selection(after.weights, win, limit, sel) <==> sel == {0, 2, 3})
            && LeftOutWithin(after.weights, win, {0, 2, 3}, 0.0)
            && Abs(win[1].value - Drawn(Values(win), {0, 2, 3}, 1)) == 1.0
  {
    hide Select; hide Drawn; hide TreeWeights; hide Upsert; hide IsTail;
    ReplayRun(db);
    ReplayTail(after, [LATE, PEAK, FINAL]);
    forall tail | IsTail(after, STREAM, tail) ensures Apply(after, Pass(tail, false)) == after {
      ReplayTail(after, tail);
      HatPass(after, LATE, PEAK, FINAL, 2.0, false);
    }
    ReplayWindow(after);
    ReplaySelection([EARLY, LATE, PEAK, FINAL], limit, sel);
    ReplayMiss([EARLY, LATE, PEAK, FINAL]);
  }

  // ---- A reading that makes tail passes fail ----

  const LEFT := Row(1, STREAM, 0.0, 0)
  const RIGHT := Row(2, STREAM, 0.0, 2_000_000)
  const SPIKE := Row(3, STREAM, 1.0, 1_000_000)

  const SPIKED: seq<Op> := [Append(STREAM, 1.0, 1_000_000), Pass([LEFT, SPIKE, RIGHT], true)]

  lemma SpikedRun(db: Db)
    requires db == Db([LEFT, RIGHT], map[], 3)
    ensures Valid(db) && AllowedAll(db, SPIKED)
    ensures ApplyAll(db, SPIKED) == Db([LEFT, RIGHT, SPIKE], map[3 := 1.0], 4)
  {
    var grown := Db([LEFT, RIGHT, SPIKE], map[], 4);
    HatPass(grown, LEFT, SPIKE, RIGHT, 1.0, true);
    hide Upsert; hide TreeWeights;
    OneMoreStep(db, [], SPIKED[0]);
    assert [] + [SPIKED[0]] == [SPIKED[0]] && [SPIKED[0]] + [SPIKED[1]] == SPIKED;
    OneMoreStep(db, [SPIKED[0]], SPIKED[1]);
  }

  /** A full pass can leave the newest row by id as the only weighted one, although it is not
      the newest by time. Then every tail pass reads that row alone and fails, on a stream of
      three rows that every full pass can read. */
  lemma LatePeakRaises(db: Db, after: Db)
    requires db == Db([LEFT, RIGHT], map[], 3) && after == ApplyAll(db, SPIKED)
    ensures Valid(db) && AllowedAll(db, SPIKED) && Valid(after)
    ensures Fetch(TablesAt(db, SPIKED, 1).rows, STREAM) == [LEFT, SPIKE, RIGHT] == Fetch(after.rows, STREAM)
    ensures MustRaise(after, STREAM, false) && !MayRaise(after, STREAM, true)
  {
    hide Upsert; hide TreeWeights;
    SpikedRun(db);
    RunValid(db, SPIKED);
    assert SPIKED[..1] == [SPIKED[0]] && [SPIKED[0]][..0] == [];
    assert TablesAt(db, SPIKED, 1).rows == after.rows;
    SelectSpec(after.rows, (r: Row) => r.stream == STREAM);
    hide Select;
    OrderUnique(Fetch(after.rows, STREAM), [LEFT, SPIKE, RIGHT]);
    TailRaisesExactly(after, STREAM);
    assert Weighted(after, STREAM, SPIKE);
    assert forall r :: Weighted(after, STREAM, r) ==> r == SPIKE;
    assert !HasSuccessor(after.rows, SPIKE);
  }
}
