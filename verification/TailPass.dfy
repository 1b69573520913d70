/** When a tail pass reads a single row, which makes it fail: exactly if the heaviest recent
    row has no successor in its stream, which cannot happen while readings arrive in time order. */
module TailPass {
  import opened CalculateWeights
  import opened SplitTree
  import opened Tables
  import opened Transactions
  import Coverage

  /** Within a stream ids follow time, and every weighted row has a later row of its stream. */
  ghost predicate Orderly(db: Db) {
    && (forall r, s :: r in db.rows && s in db.rows && r.stream == s.stream && r.id < s.id ==> r.at < s.at)
    && (forall r :: r in db.rows && r.id in db.weights ==> HasSuccessor(db.rows, r))
  }

  ghost predicate HasSuccessor(rows: seq<Row>, r: Row) {
    exists s :: s in rows && s.stream == r.stream && r.id < s.id
  }

  ghost predicate InTimeOrder(db: Db, op: Op) {
    match op
    case Append(stream, _, at) => forall r <- db.rows :: r.stream == stream ==> r.at < at
    case Retain(_) => true
    case Pass(series, _) => forall r, s :: r in series && s in series ==> r.stream == s.stream
  }

  lemma OrderlyAppend(db: Db, op: Op)
    requires Valid(db) && Orderly(db) && InTimeOrder(db, op) && op.Append?
    ensures Orderly(Apply(db, op))
  {
    var after := Apply(db, op);
    forall id | id in db.weights ensures id < db.nextId {
      var s :| s in db.rows && s.id == id;
    }
    forall r | r in after.rows && r.id in after.weights ensures HasSuccessor(after.rows, r) {
      var s :| s in db.rows && s.stream == r.stream && r.id < s.id;
      assert s in after.rows;
    }
  }

  lemma OrderlyRetain(db: Db, op: Op)
    requires Valid(db) && Orderly(db) && op.Retain?
    ensures Orderly(Apply(db, op))
  {
    var after := Apply(db, op);
    WhereSpec(db.rows, (r: Row) => r.at >= op.cutoff);
    hide Where; hide Valid;
    assert forall r :: r in after.rows <==> r in db.rows && r.at >= op.cutoff;
    assert forall id <- after.weights :: id in db.weights;
    hide Apply;
    forall r | r in after.rows && r.id in after.weights ensures HasSuccessor(after.rows, r) {
      var s :| s in db.rows && s.stream == r.stream && r.id < s.id;
      assert s in after.rows;
    }
  }

  /** Every step of an in-order run keeps the tables orderly. */
  lemma OrderlyStep(db: Db, op: Op)
    requires Valid(db) && Orderly(db) && Allowed(db, op) && InTimeOrder(db, op)
    ensures Orderly(Apply(db, op))
  {
    match op
    case Append(_, _, _) => OrderlyAppend(db, op);
    case Retain(_) => OrderlyRetain(db, op);
    case Pass(series, full) =>
      if |series| >= 2 {
        var after := Apply(db, op);
        forall r | r in after.rows && r.id in after.weights ensures HasSuccessor(after.rows, r) {
          if r.id !in db.weights { NewlyWeighted(db, series, TreeWeights(Values(series)), !full, r); }
        }
      }
  }

  ghost predicate InTimeOrderAll(db: Db, ops: seq<Op>) {
    ops == [] ||
    (InTimeOrderAll(db, ops[..|ops| - 1]) && InTimeOrder(ApplyAll(db, ops[..|ops| - 1]), ops[|ops| - 1]))
  }

  /** So every in-order run from orderly tables stays orderly. */
  lemma {:induction false} OrderlyRun(db: Db, ops: seq<Op>)
    requires Valid(db) && Orderly(db) && AllowedAll(db, ops) && InTimeOrderAll(db, ops)
    ensures Valid(ApplyAll(db, ops)) && Orderly(ApplyAll(db, ops))
    decreases |ops|
  {
    if ops != [] {
      var mid := ApplyAll(db, ops[..|ops| - 1]);
      OrderlyRun(db, ops[..|ops| - 1]);
      OrderlyStep(mid, ops[|ops| - 1]);
      ApplyValid(mid, ops[|ops| - 1]);
    }
  }

  // A row that gains a weight is interior to the series.
  lemma NewlyWeighted(db: Db, series: seq<Row>, ws: seq<real>, onlyHigher: bool, r: Row)
    requires Valid(db) && Orderly(db) && |series| >= 2 && ws == TreeWeights(Values(series))
    requires Allowed(db, Pass(series, true)) && InTimeOrder(db, Pass(series, true))
    requires r in db.rows && r.id !in db.weights && r.id in Upsert(db.weights, series, ws, onlyHigher)
    ensures HasSuccessor(db.rows, r)
  {
    UpsertPositive(db.weights, series, ws, onlyHigher);
    OrderedAreDistinct(db, series);
    var q :| q in series && q.id == r.id;
    Coverage.SameIdSameRow(db, q, r);
    var k :| 0 <= k < |series| && series[k] == r;
    UpsertAt(db.weights, series, ws, onlyHigher, k);
    assert ws[k] > 0.0 && k < |series| - 1;
    var s := series[k + 1];
    assert s in series && s in db.rows && Before(r, s);
    assert r.id < s.id;
  }

  lemma PairLength(rows: seq<Row>, r: Row, s: Row)
    requires r in rows && s in rows && r != s
    ensures |rows| >= 2
  {
  }

  lemma ValidIds(db: Db)
    requires Valid(db)
    ensures DistinctIds(db.rows)
  {
  }

  /** The exact condition, in any order of arrival: the rows from a peak on are a single row
      if and only if the peak is the stream's newest row. */
  lemma TailSingleExactly(db: Db, stream: Stream, last: Row, peak: Row)
    requires Valid(db) && Peak(db, stream, last, peak)
    ensures |FromId(db.rows, stream, peak.id)| == 1 <==> !HasSuccessor(db.rows, peak)
  {
    hide Select; hide Valid;
    var tail := FromId(db.rows, stream, peak.id);
    assert DistinctIds(db.rows) by { ValidIds(db); }
    SelectSpec(db.rows, (r: Row) => r.stream == stream && r.id >= peak.id);
    if s :| s in db.rows && s.stream == peak.stream && peak.id < s.id {
      PairLength(tail, peak, s);
    } else {
      assert peak in tail;
      if |tail| != 1 {
        assert Before(tail[0], tail[1]) && tail[0] in tail && tail[1] in tail;
        NewestIsAlone(db, peak, tail[0]);
        NewestIsAlone(db, peak, tail[1]);
        assert false;
      }
    }
  }

  lemma NewestIsAlone(db: Db, peak: Row, r: Row)
    requires DistinctIds(db.rows) && peak in db.rows && r in db.rows && !HasSuccessor(db.rows, peak)
    requires r.stream == peak.stream && r.id >= peak.id
    ensures r == peak
  {
    assert r.id == peak.id;
    var i :| 0 <= i < |db.rows| && db.rows[i] == r;
    var j :| 0 <= j < |db.rows| && db.rows[j] == peak;
  }

  lemma WholeTail(db: Db, stream: Stream)
    requires Valid(db)
    ensures FromId(db.rows, stream, 0) == Fetch(db.rows, stream)
  {
    SelectSpec(db.rows, (r: Row) => r.stream == stream);
    SelectSpec(db.rows, (r: Row) => r.stream == stream && r.id >= 0);
    hide Select;
    OrderUnique(Fetch(db.rows, stream), FromId(db.rows, stream, 0));
  }

  ghost predicate AnyWeighted(db: Db, stream: Stream) {
    exists r :: Weighted(db, stream, r)
  }

  /** Some heaviest recent row is the stream's newest row. */
  ghost predicate NewestIsPeak(db: Db, stream: Stream) {
    exists last, peak :: Peak(db, stream, last, peak) && !HasSuccessor(db.rows, peak)
  }

  /** Every heaviest recent row is; the two differ only if several rows are heaviest. */
  ghost predicate OnlyNewestIsPeak(db: Db, stream: Stream) {
    forall last, peak :: Peak(db, stream, last, peak) ==> !HasSuccessor(db.rows, peak)
  }

  /** So a tail pass over a stream can raise exactly if its newest row is a peak, or if
      nothing of it is weighted and it is a single row; and it cannot but raise exactly if no
      other row is a peak. */
  lemma TailRaisesExactly(db: Db, stream: Stream)
    requires Valid(db)
    ensures MayRaise(db, stream, false) <==>
            if AnyWeighted(db, stream) then NewestIsPeak(db, stream) else Single(db.rows, stream)
    ensures MustRaise(db, stream, false) <==>
            if AnyWeighted(db, stream) then OnlyNewestIsPeak(db, stream) else Single(db.rows, stream)
  {
    hide Peak; hide FromId; hide Fetch; hide Valid; hide HasSuccessor; hide Weighted;
    if AnyWeighted(db, stream) {
      forall last, peak | Peak(db, stream, last, peak)
        ensures |FromId(db.rows, stream, peak.id)| == 1 <==> !HasSuccessor(db.rows, peak)
        ensures FetchedOne(db, stream, FromId(db.rows, stream, peak.id), false)
      {
        TailSingleExactly(db, stream, last, peak);
      }
    } else {
      WholeTail(db, stream);
      assert FetchedOne(db, stream, FromId(db.rows, stream, 0), false);
    }
  }

  /** In orderly tables both come down to the stream being a single row. */
  lemma OrderlyRaisesExactly(db: Db, stream: Stream, full: bool)
    requires Valid(db) && (full || Orderly(db))
    ensures MayRaise(db, stream, full) <==> Single(db.rows, stream)
    ensures MustRaise(db, stream, full) <==> Single(db.rows, stream)
  {
    if full {
      assert FetchedOne(db, stream, Fetch(db.rows, stream), true);
    } else {
      TailRaisesExactly(db, stream);
      if AnyWeighted(db, stream) { PeaksHaveSuccessors(db, stream); }
    }
  }

  lemma PeaksHaveSuccessors(db: Db, stream: Stream)
    requires Valid(db) && Orderly(db) && AnyWeighted(db, stream)
    ensures !NewestIsPeak(db, stream) && !OnlyNewestIsPeak(db, stream) && !Single(db.rows, stream)
  {
    var tail := SomeFetch(db, stream, false);
    var last, peak :| Peak(db, stream, last, peak) && tail == FromId(db.rows, stream, peak.id);
    assert DistinctIds(db.rows) by { ValidIds(db); }
    hide Valid;
    assert Peak(db, stream, last, peak) && HasSuccessor(db.rows, peak);
    var s :| s in db.rows && s.stream == peak.stream && peak.id < s.id;
    SelectSpec(db.rows, (r: Row) => r.stream == stream);
    hide Select; hide DistinctIds;
    PairLength(Fetch(db.rows, stream), peak, s);
  }

  /** When readings arrive in time order a transaction of tail passes fails in the same case
      as one of full passes: exactly if some stream is a single row. */
  lemma OrderlyTransaction(db: Db, streams: seq<Stream>, full: bool)
    requires Valid(db) && Distinct(streams) && (full || Orderly(db))
    ensures CanFail(db, streams, full) <==> exists s <- streams :: Single(db.rows, s)
    ensures CanCommit(db, streams, full) <==> forall s <- streams :: !Single(db.rows, s)
  {
    CanFailExactly(db, streams, full);
    CanCommitExactly(db, streams, full);
    forall s | s in streams
      ensures (MayRaise(db, s, full) <==> Single(db.rows, s)) && (MustRaise(db, s, full) <==> Single(db.rows, s))
    {
      OrderlyRaisesExactly(db, s, full);
    }
  }
}
