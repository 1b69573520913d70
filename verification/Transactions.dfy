/** One transaction of the optimizer: a pass per stream, each on the tables the previous one
    left. When it can fail, when it can commit, and what its passes read. */
module Transactions {
  import opened CalculateWeights
  import opened Tables
  import opened Coverage

  const WEEK: int := 7 * 24 * 3600 * 1_000_000

  ghost predicate HasRows(rows: seq<Row>, stream: Stream) {
    exists r <- rows :: r.stream == stream
  }

  ghost predicate Single(rows: seq<Row>, stream: Stream) {
    |Fetch(rows, stream)| == 1
  }

  ghost predicate Distinct(streams: seq<Stream>) {
    forall i, j :: 0 <= i < j < |streams| ==> streams[i] != streams[j]
  }

  /** What a pass over one stream may read. */
  ghost predicate FetchedOne(db: Db, stream: Stream, series: seq<Row>, full: bool) {
    if full then series == Fetch(db.rows, stream) else IsTail(db, stream, series)
  }

  /** The tables after passes over the given series, one after the other. */
  ghost function PassAll(db: Db, passes: seq<seq<Row>>, full: bool): Db {
    if passes == [] then db
    else Apply(PassAll(db, passes[..|passes| - 1], full), Pass(passes[|passes| - 1], full))
  }

  /** Each series was read from the tables as the previous passes left them, and none was a
      single row. */
  ghost predicate Fetched(db: Db, streams: seq<Stream>, passes: seq<seq<Row>>, full: bool)
    decreases |passes|
  {
    |streams| == |passes| &&
    (passes == [] ||
     (var n := |passes| - 1;
      && Fetched(db, streams[..n], passes[..n], full)
      && FetchedOne(PassAll(db, passes[..n], full), streams[n], passes[n], full)
      && |passes[n]| != 1))
  }

  /** After these passes, the next stream's series is a single row. */
  ghost predicate Stuck(db: Db, streams: seq<Stream>, passes: seq<seq<Row>>, full: bool) {
    && |passes| < |streams| && Fetched(db, streams[..|passes|], passes, full)
    && exists series :: FetchedOne(PassAll(db, passes, full), streams[|passes|], series, full) && |series| == 1
  }

  lemma FetchedAllowed(db: Db, stream: Stream, series: seq<Row>, full: bool)
    requires Valid(db) && FetchedOne(db, stream, series, full)
    ensures Allowed(db, Pass(series, full)) && Valid(Apply(db, Pass(series, full)))
    ensures forall r <- series :: r.stream == stream
  {
    if full {
      SelectSpec(db.rows, (r: Row) => r.stream == stream);
    } else if exists r :: Weighted(db, stream, r) {
      var last, peak :| Peak(db, stream, last, peak) && series == FromId(db.rows, stream, peak.id);
      SelectSpec(db.rows, (r: Row) => r.stream == stream && r.id >= peak.id);
    } else {
      SelectSpec(db.rows, (r: Row) => r.stream == stream && r.id >= 0);
      assert series == FromId(db.rows, stream, 0);
    }
    ApplyValid(db, Pass(series, full));
  }

  lemma PassOne(db: Db, streams: seq<Stream>, passes: seq<seq<Row>>, full: bool, stream: Stream, series: seq<Row>)
    requires Fetched(db, streams, passes, full)
    requires FetchedOne(PassAll(db, passes, full), stream, series, full) && |series| != 1
    ensures Fetched(db, streams + [stream], passes + [series], full)
    ensures PassAll(db, passes + [series], full) == Apply(PassAll(db, passes, full), Pass(series, full))
  {
    assert (passes + [series])[..|passes|] == passes && (streams + [stream])[..|passes|] == streams;
  }

  lemma NoPasses(db: Db, streams: seq<Stream>, full: bool)
    requires streams == []
    ensures Fetched(db, streams, [], full) && PassAll(db, [], full) == db
  {
  }

  // ---- Passes do not disturb each other's reads ----

  /** The stream's rows and their weights are the same in both tables. */
  ghost predicate SameStream(db: Db, db': Db, stream: Stream) {
    && db'.rows == db.rows
    && forall r <- db.rows :: r.stream == stream ==>
         (r.id in db'.weights <==> r.id in db.weights) && Stored(db'.weights, r.id) == Stored(db.weights, r.id)
  }

  lemma SameFetch(db: Db, db': Db, stream: Stream, series: seq<Row>, full: bool)
    requires SameStream(db, db', stream)
    ensures FetchedOne(db, stream, series, full) <==> FetchedOne(db', stream, series, full)
  {
    forall r ensures Weighted(db, stream, r) <==> Weighted(db', stream, r) {}
    forall r ensures Weighted(db, stream, r) ==> db.weights[r.id] == db'.weights[r.id] {}
    hide Weighted; hide SameStream;
    forall last, peak ensures Peak(db, stream, last, peak) <==> Peak(db', stream, last, peak) {
      assert Latest(db, stream, last) <==> Latest(db', stream, last);
    }
  }

  lemma PassKeepsOther(db: Db, stream: Stream, other: Stream, series: seq<Row>, full: bool)
    requires Valid(db) && FetchedOne(db, other, series, full) && other != stream
    ensures SameStream(db, Apply(db, Pass(series, full)), stream)
  {
    FetchedAllowed(db, other, series, full);
    forall r | r in db.rows && r.stream == stream
      ensures var w := Apply(db, Pass(series, full)).weights;
              (r.id in w <==> r.id in db.weights) && Stored(w, r.id) == Stored(db.weights, r.id)
    {
      if |series| >= 2 {
        forall q | q in series ensures q.id != r.id {
          if q.id == r.id { SameIdSameRow(db, q, r); }
        }
        UpsertElsewhere(db.weights, series, TreeWeights(Values(series)), !full, r.id);
      }
    }
  }

  lemma {:induction false} PassesKeepOther(db: Db, streams: seq<Stream>, passes: seq<seq<Row>>, full: bool, stream: Stream)
    requires Valid(db) && Fetched(db, streams, passes, full) && stream !in streams
    ensures Valid(PassAll(db, passes, full)) && SameStream(db, PassAll(db, passes, full), stream)
  {
    if passes != [] {
      var n := |passes| - 1;
      var mid := PassAll(db, passes[..n], full);
      PassesKeepOther(db, streams[..n], passes[..n], full, stream);
      assert streams[n] in streams;
      FetchedAllowed(mid, streams[n], passes[n], full);
      PassKeepsOther(mid, stream, streams[n], passes[n], full);
    }
  }

  /** A pass reads the same series it could have read at the start of the transaction. */
  lemma {:induction false} FetchesAreIndependent(db: Db, streams: seq<Stream>, passes: seq<seq<Row>>, full: bool, t: nat)
    requires Valid(db) && Fetched(db, streams, passes, full) && Distinct(streams) && t < |passes|
    ensures FetchedOne(db, streams[t], passes[t], full) && |passes[t]| != 1
    ensures FetchedOne(PassAll(db, passes[..t], full), streams[t], passes[t], full)
    decreases |passes|
  {
    var n := |passes| - 1;
    if t < n {
      FetchesAreIndependent(db, streams[..n], passes[..n], full, t);
      assert passes[..n][..t] == passes[..t];
    } else {
      PassesKeepOther(db, streams[..n], passes[..n], full, streams[n]);
      SameFetch(db, PassAll(db, passes[..n], full), streams[n], passes[n], full);
    }
  }

  // ---- When a transaction fails ----

  /** Some read of this stream is a single row, which makes calculate_weights raise. */
  ghost predicate MayRaise(db: Db, stream: Stream, full: bool) {
    exists series :: FetchedOne(db, stream, series, full) && |series| == 1
  }

  /** Every read of it is. Only rows of equal weight make the two differ. */
  ghost predicate MustRaise(db: Db, stream: Stream, full: bool) {
    forall series :: FetchedOne(db, stream, series, full) ==> |series| == 1
  }

  ghost predicate CanCommit(db: Db, streams: seq<Stream>, full: bool) {
    exists passes :: Fetched(db, streams, passes, full)
  }

  ghost predicate CanFail(db: Db, streams: seq<Stream>, full: bool) {
    exists passes :: Stuck(db, streams, passes, full)
  }

  lemma {:induction false} BuildPasses(db: Db, streams: seq<Stream>, full: bool) returns (passes: seq<seq<Row>>)
    requires Valid(db) && Distinct(streams) && forall s <- streams :: !MustRaise(db, s, full)
    ensures Fetched(db, streams, passes, full)
  {
    if streams == [] {
      passes := [];
    } else {
      var n := |streams| - 1;
      var front := BuildPasses(db, streams[..n], full);
      assert streams == streams[..n] + [streams[n]] && !MustRaise(db, streams[n], full);
      var series :| FetchedOne(db, streams[n], series, full) && |series| != 1;
      hide Fetched; hide FetchedOne; hide MustRaise; hide Valid; hide PassAll; hide SameStream;
      PassesKeepOther(db, streams[..n], front, full, streams[n]);
      SameFetch(db, PassAll(db, front, full), streams[n], series, full);
      PassOne(db, streams[..n], front, full, streams[n], series);
      passes := front + [series];
    }
  }

  /** A transaction can commit exactly if every stream can be read as other than one row. */
  lemma CanCommitExactly(db: Db, streams: seq<Stream>, full: bool)
    requires Valid(db) && Distinct(streams)
    ensures CanCommit(db, streams, full) <==> forall s <- streams :: !MustRaise(db, s, full)
  {
    if CanCommit(db, streams, full) {
      var passes :| Fetched(db, streams, passes, full);
      forall s | s in streams ensures !MustRaise(db, s, full) {
        var t: nat :| t < |streams| && streams[t] == s;
        FetchesAreIndependent(db, streams, passes, full, t);
      }
    }
    if forall s <- streams :: !MustRaise(db, s, full) {
      var passes := BuildPasses(db, streams, full);
      assert Fetched(db, streams, passes, full);
    }
  }

  lemma StuckMeansMayRaise(db: Db, streams: seq<Stream>, passes: seq<seq<Row>>, full: bool)
    requires Valid(db) && Distinct(streams) && Stuck(db, streams, passes, full)
    ensures exists s <- streams :: MayRaise(db, s, full)
  {
    var n := |passes|;
    var series :| FetchedOne(PassAll(db, passes, full), streams[n], series, full) && |series| == 1;
    PassesKeepOther(db, streams[..n], passes, full, streams[n]);
    SameFetch(db, PassAll(db, passes, full), streams[n], series, full);
    assert streams[n] in streams && MayRaise(db, streams[n], full);
  }

  /** It can fail exactly if some stream can be read as one row. */
  lemma CanFailExactly(db: Db, streams: seq<Stream>, full: bool)
    requires Valid(db) && Distinct(streams)
    ensures CanFail(db, streams, full) <==> exists s <- streams :: MayRaise(db, s, full)
  {
    if CanFail(db, streams, full) {
      var passes :| Stuck(db, streams, passes, full);
      StuckMeansMayRaise(db, streams, passes, full);
    }
    if s :| s in streams && MayRaise(db, s, full) {
      var t: nat :| t < |streams| && streams[t] == s;
      var passes := FirstFailure(db, streams, full, t);
    }
  }

  lemma {:induction false} FirstFailure(db: Db, streams: seq<Stream>, full: bool, t: nat) returns (passes: seq<seq<Row>>)
    requires Valid(db) && Distinct(streams) && t < |streams| && MayRaise(db, streams[t], full)
    ensures Stuck(db, streams, passes, full)
  {
    if u: nat :| u < t && MayRaise(db, streams[u], full) {
      passes := FirstFailure(db, streams, full, u);
    } else {
      forall s | s in streams[..t] ensures !MustRaise(db, s, full) {
        var u: nat :| u < t && streams[u] == s;
        var series := SomeFetch(db, s, full);
      }
      passes := BuildPasses(db, streams[..t], full);
      PassesKeepOther(db, streams[..t], passes, full, streams[t]);
      var series :| FetchedOne(db, streams[t], series, full) && |series| == 1;
      SameFetch(db, PassAll(db, passes, full), streams[t], series, full);
    }
  }

  lemma {:induction false} LargestBy(rows: seq<Row>, key: Row -> real) returns (m: Row)
    requires rows != []
    ensures m in rows && forall r <- rows :: key(r) <= key(m)
  {
    m := rows[0];
    if |rows| > 1 {
      var rest := LargestBy(rows[1..], key);
      assert rows == [rows[0]] + rows[1..];
      if key(m) < key(rest) { m := rest; }
    }
  }

  /** Whatever the tables hold, a fetch returns something. */
  lemma SomeFetch(db: Db, stream: Stream, full: bool) returns (series: seq<Row>)
    ensures FetchedOne(db, stream, series, full)
  {
    if full {
      series := Fetch(db.rows, stream);
    } else if exists r :: Weighted(db, stream, r) {
      var weighted := (r: Row) => r.stream == stream && r.id in db.weights;
      WhereSpec(db.rows, weighted);
      var r :| Weighted(db, stream, r);
      var last := LargestBy(Where(db.rows, weighted), (r: Row) => r.at as real);
      assert Latest(db, stream, last) by {
        forall s | Weighted(db, stream, s) ensures s.at <= last.at { assert s in Where(db.rows, weighted); }
      }
      var recent := (r: Row) => weighted(r) && r.at > last.at - QUARTER_HOUR;
      WhereSpec(db.rows, recent);
      assert last in Where(db.rows, recent);
      var peak := LargestBy(Where(db.rows, recent), (r: Row) => Stored(db.weights, r.id));
      assert Peak(db, stream, last, peak) by {
        forall s | Weighted(db, stream, s) && s.at > last.at - QUARTER_HOUR ensures db.weights[s.id] <= db.weights[peak.id] {
          assert s in Where(db.rows, recent);
        }
      }
      series := FromId(db.rows, stream, peak.id);
    } else {
      series := FromId(db.rows, stream, 0);
    }
  }

  lemma {:induction false} PassAllRows(db: Db, passes: seq<seq<Row>>, full: bool)
    ensures PassAll(db, passes, full).rows == db.rows
  {
    if passes != [] { PassAllRows(db, passes[..|passes| - 1], full); }
  }

  // ---- A transaction as part of a run ----

  /** The steps of a committed transaction: retention, then its passes. */
  function Steps(now: int, passes: seq<seq<Row>>, full: bool): (ops: seq<Op>)
    ensures |ops| == 1 + |passes|
  {
    [Retain(now - WEEK)] + seq(|passes|, i requires 0 <= i < |passes| => Pass(passes[i], full))
  }

  lemma {:induction false} StepsAreRun(db: Db, now: int, streams: seq<Stream>, passes: seq<seq<Row>>, full: bool)
    requires Valid(db) && Fetched(Apply(db, Retain(now - WEEK)), streams, passes, full)
    ensures var ops := Steps(now, passes, full); var start := Apply(db, Retain(now - WEEK));
            AllowedAll(db, ops) && ApplyAll(db, ops) == PassAll(start, passes, full) && Valid(ApplyAll(db, ops))
  {
    var ops, start := Steps(now, passes, full), Apply(db, Retain(now - WEEK));
    if passes == [] {
      ApplyValid(db, Retain(now - WEEK));
      assert ops[..0] == [] && ApplyAll(db, ops[..0]) == db;
    } else {
      var n := |passes| - 1;
      StepsAreRun(db, now, streams[..n], passes[..n], full);
      assert ops[..n + 1] == Steps(now, passes[..n], full);
      FetchedAllowed(PassAll(start, passes[..n], full), streams[n], passes[n], full);
    }
  }
}
