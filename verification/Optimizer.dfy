/** The optimizer worker: its statements against the two tables, in place, and one whole
    pass over all streams as one transaction. */
module Optimizer {
  import C = CalculateWeights
  import opened SplitTree
  import opened Tables
  import opened Coverage
  import opened TailPass
  import opened Transactions

  class Worker {
    var rows: seq<Row>
    var weights: map<nat, real>
    var nextId: nat

    ghost function State(): Db
      reads this
    {
      Db(rows, weights, nextId)
    }

    constructor ()
      ensures State() == Db([], map[], 1) && Valid(State())
    {
      rows, weights, nextId := [], map[], 1;
    }

    /** The server inserts a reading, under an id not used before. */
    method InsertReading(stream: Stream, value: real, at: int)
      modifies this
      ensures State() == Apply(old(State()), Append(stream, value, at))
      ensures |rows| == |old(rows)| + 1 && rows[..|old(rows)|] == old(rows) && weights == old(weights)
      ensures var r := rows[|rows| - 1];
              r.stream == stream && r.value == value && r.at == at
      ensures old(Valid(State())) ==> Valid(State()) && forall s <- old(rows) :: s.id != rows[|rows| - 1].id
    {
      if Valid(State()) { ApplyValid(State(), Append(stream, value, at)); }
      rows := rows + [Row(nextId, stream, value, at)];
      nextId := nextId + 1;
    }

    /** Deletes exactly the rows older than a week. What is left keeps its weights, and every
        chart window that starts within the week is answered as before. */
    method RemoveOldData(now: int)
      requires Valid(State())
      modifies this`rows, this`weights
      ensures State() == Apply(old(State()), Retain(now - WEEK)) && Valid(State())
      ensures forall r :: r in rows <==> r in old(rows) && r.at >= now - 604_800_000_000
      ensures forall r <- rows :: Stored(weights, r.id) == Stored(old(weights), r.id)
      ensures forall stream, start, end :: start >= now - WEEK ==>
                Window(rows, stream, start, end) == Window(old(rows), stream, start, end)
    {
      ghost var before := State();
      rows := Kept(rows, now - WEEK);
      weights := map id | id in weights && (exists r <- rows :: r.id == id) :: weights[id];
      RetainEffect(before, now - WEEK);
    }

    /** The distinct streams that have rows. */
    method FetchDevices() returns (streams: seq<Stream>)
      ensures forall i, j :: 0 <= i < j < |streams| ==> streams[i] != streams[j]
      ensures forall s :: s in streams <==> HasRows(rows, s)
    {
      streams := [];
      for i := 0 to |rows|
        invariant forall h, j :: 0 <= h < j < |streams| ==> streams[h] != streams[j]
        invariant forall s :: s in streams <==> exists j :: 0 <= j < i && rows[j].stream == s
      {
        if rows[i].stream !in streams {
          streams := streams + [rows[i].stream];
        }
      }
    }

    /** If the stream has a weighted row: its rows, oldest first, from the id of a heaviest
        row among those weighted less than 15 minutes (of 60,000,000 microseconds) before its
        newest weighted row. Otherwise all its rows. */
    method FetchTail(stream: Stream) returns (tail: seq<Row>, ghost last: Row, ghost peak: Row)
      ensures IsTail(State(), stream, tail)
      ensures Valid(State()) ==> forall i, j :: 0 <= i < j < |tail| ==>
                tail[i].at < tail[j].at || (tail[i].at == tail[j].at && tail[i].id < tail[j].id)
      ensures (exists r <- rows :: r.stream == stream && r.id in weights) ==>
        && last in rows && last.stream == stream && last.id in weights
        && (forall s <- rows :: s.stream == stream && s.id in weights ==> s.at <= last.at)
        && peak in rows && peak.stream == stream && peak.id in weights && last.at - peak.at < 900_000_000
        && (forall s <- rows :: s.stream == stream && s.id in weights && last.at - s.at < 900_000_000 ==>
              weights[s.id] <= weights[peak.id])
        && (forall r :: r in tail <==> r in rows && r.stream == stream && r.id >= peak.id)
      ensures !(exists r <- rows :: r.stream == stream && r.id in weights) ==>
        forall r :: r in tail <==> r in rows && r.stream == stream
    {
      var found := false;
      var newest := Row(0, stream, 0.0, 0);
      for i := 0 to |rows|
        invariant !found ==> forall j :: 0 <= j < i ==> !Weighted(State(), stream, rows[j])
        invariant found ==> Weighted(State(), stream, newest)
        invariant found ==> forall j :: 0 <= j < i && Weighted(State(), stream, rows[j]) ==> rows[j].at <= newest.at
      {
        if rows[i].stream == stream && rows[i].id in weights && (!found || newest.at < rows[i].at) {
          found, newest := true, rows[i];
        }
      }
      last, peak := newest, newest;
      if !found {
        tail := FromId(rows, stream, 0);
        TailRows(State(), stream, 0);
        return;
      }
      var best := newest;
      for i := 0 to |rows|
        invariant Weighted(State(), stream, best) && best.at > newest.at - QUARTER_HOUR
        invariant forall j :: 0 <= j < i && Weighted(State(), stream, rows[j]) && rows[j].at > newest.at - QUARTER_HOUR ==>
                    weights[rows[j].id] <= weights[best.id]
      {
        if rows[i].stream == stream && rows[i].id in weights && rows[i].at > newest.at - QUARTER_HOUR
           && weights[best.id] < weights[rows[i].id] {
          best := rows[i];
        }
      }
      peak := best;
      assert Peak(State(), stream, last, peak);
      tail := FromId(rows, stream, best.id);
      TailRows(State(), stream, best.id);
    }

    /** Upserts the positive weights of a series. */
    method UpdateWeight(series: seq<Row>, ws: seq<real>, onlyHigher: bool)
      requires |ws| == |series|
      modifies this`weights
      ensures weights == Upsert(old(weights), series, ws, onlyHigher)
    {
      for i := 0 to |series|
        invariant weights == Upsert(old(weights), series[..i], ws[..i], onlyHigher)
      {
        assert series[..i + 1][..i] == series[..i] && ws[..i + 1][..i] == ws[..i];
        if ws[i] > 0.0 {
          weights := UpsertRow(weights, series[i].id, ws[i], onlyHigher);
        }
      }
      assert series[..|series|] == series && ws[..|ws|] == ws;
    }

    /** One stream's pass: fetch, compute with ratio 1, upsert what is positive. Computing
        raises exactly on a single row. A row's weight is then the one computed, or for a tail
        pass the larger of that and the one it had; a computed 0, and every row that was not
        read, leaves what was there. */
    method ProcessStream(stream: Stream, recalculate: bool) returns (raised: bool, ghost series: seq<Row>)
      requires Valid(State())
      modifies `weights
      ensures FetchedOne(old(State()), stream, series, recalculate)
      ensures recalculate ==> forall r :: r in series <==> r in rows && r.stream == stream
      ensures forall i, j :: 0 <= i < j < |series| ==>
                series[i].at < series[j].at || (series[i].at == series[j].at && series[i].id < series[j].id)
      ensures raised <==> |series| == 1
      ensures State() == if raised then old(State()) else Apply(old(State()), Pass(series, recalculate))
      ensures Valid(State())
      ensures |series| >= 2 ==> forall k: nat :: k < |series| ==>
        Merged(old(weights), weights, series[k].id, Weight(Values(series), 0, |series| - 1, k), recalculate)
      ensures forall id :: (forall r <- series :: r.id != id) ==>
        (id in weights <==> id in old(weights)) && (id in weights ==> weights[id] == old(weights)[id])
    {
      hide Fetch; hide IsTail; hide Merged; hide Upsert; hide Weight; hide C.TreeWeights; hide Valid;
      ghost var before := State();
      var df;
      if recalculate {
        df := Fetch(rows, stream);
      } else {
        var tail, _, _ := FetchTail(stream);
        df := tail;
      }
      series := df;
      FetchedAllowed(State(), stream, series, recalculate);
      FetchRows(State(), stream, series, recalculate);
      PassEffect(before, series, recalculate);
      if |df| == 0 { return false, series; }
      var res, _ := C.Compute(Values(df), 1.0);
      if res.Raised? { return true, series; }
      UpdateWeight(df, res.value, !recalculate);
      raised := false;
    }

    /** One transaction: delete what retention drops, then a pass per stream, each on the
        tables the previous one left. A commit is a run of its steps. A series of a single
        row raises, and then everything, retention included, is rolled back; this needs a
        stream that may be read as one row, and follows from one that must. Full passes, and
        tail passes while readings arrive in time order, commit exactly when no stream is
        left with a single row. */
    method ProcessWeights(recalculate: bool, now: int)
      returns (ok: bool, ghost streams: seq<Stream>, ghost passes: seq<seq<Row>>)
      requires Valid(State())
      modifies this`rows, this`weights
      ensures Valid(State())
      ensures forall s :: s in streams <==> HasRows(Kept(old(rows), now - WEEK), s)
      ensures Distinct(streams)
      ensures ok ==> Fetched(Apply(old(State()), Retain(now - WEEK)), streams, passes, recalculate)
      ensures ok ==> var ops := Transactions.Steps(now, passes, recalculate);
                     AllowedAll(old(State()), ops) && State() == ApplyAll(old(State()), ops)
      ensures !ok ==> State() == old(State())
      ensures !ok ==> exists s <- streams :: MayRaise(Apply(old(State()), Retain(now - WEEK)), s, recalculate)
      ensures ok ==> forall s <- streams :: !MustRaise(Apply(old(State()), Retain(now - WEEK)), s, recalculate)
      ensures recalculate || Orderly(old(State())) ==>
                (ok <==> forall s <- streams :: !Single(Kept(old(rows), now - WEEK), s))
    {
      hide Fetched; hide PassAll; hide Fetch; hide Valid; hide Kept; hide IsTail; hide Stored; hide Single; hide HasRows;
      hide Orderly; hide Stuck; hide MayRaise; hide MustRaise; hide Merged; hide Weight; hide FetchedOne; hide AllowedAll; hide ApplyAll;
      var savedRows, savedWeights := rows, weights;
      ghost var start := Apply(State(), Retain(now - WEEK));
      if !recalculate && Orderly(State()) { OrderlyRetain(State(), Retain(now - WEEK)); }
      RemoveOldData(now);
      var list := FetchDevices();
      streams, passes := list, [];
      NoPasses(start, list[..0], recalculate);
      for i := 0 to |list|
        invariant Fetched(start, list[..i], passes, recalculate)
        invariant |passes| == i && State() == PassAll(start, passes, recalculate) && Valid(State())
      {
        var raised, series := ProcessStream(list[i], recalculate);
        if raised {
          rows, weights := savedRows, savedWeights;  // the exception rolls the transaction back
          StuckHere(start, streams, passes, recalculate, series);
          FailureMeans(start, streams, passes, recalculate);
          return false, streams, passes;
        }
        PassOne(start, list[..i], passes, recalculate, list[i], series);
        assert list[..i + 1] == list[..i] + [list[i]];
        passes := passes + [series];
      }
      assert list[..|list|] == list;
      ok := true;
      StepsAreRun(old(State()), now, streams, passes, recalculate);
      CommitMeans(start, streams, passes, recalculate);
    }
  }

  lemma TailRows(db: Db, stream: Stream, id: nat)
    ensures forall r :: r in FromId(db.rows, stream, id) <==> r in db.rows && r.stream == stream && r.id >= id
    ensures Valid(db) ==> InOrder(FromId(db.rows, stream, id))
  {
    SelectMembers(db.rows, (r: Row) => r.stream == stream && r.id >= id);
    if Valid(db) { SelectSpec(db.rows, (r: Row) => r.stream == stream && r.id >= id); }
  }

  lemma FetchRows(db: Db, stream: Stream, series: seq<Row>, full: bool)
    requires Valid(db) && FetchedOne(db, stream, series, full)
    ensures InOrder(series) && (full ==> forall r :: r in series <==> r in db.rows && r.stream == stream)
  {
    FetchedAllowed(db, stream, series, full);
    SelectSpec(db.rows, (r: Row) => r.stream == stream);
  }

  /** What a pass leaves stored, row by row. */
  lemma PassEffect(db: Db, series: seq<Row>, full: bool)
    requires Valid(db) && Allowed(db, Pass(series, full))
    ensures var after := Apply(db, Pass(series, full)).weights;
            && (|series| >= 2 ==> forall k: nat :: k < |series| ==>
                  Merged(db.weights, after, series[k].id, Weight(Values(series), 0, |series| - 1, k), full))
            && (forall id :: (forall r <- series :: r.id != id) ==>
                  (id in after <==> id in db.weights) && (id in after ==> after[id] == db.weights[id]))
  {
    if |series| >= 2 {
      var ws := C.TreeWeights(Values(series));
      OrderedAreDistinct(db, series);
      UpsertKeys(db.weights, series, ws, !full);
      forall k: nat | k < |series|
        ensures Merged(db.weights, Apply(db, Pass(series, full)).weights, series[k].id, Weight(Values(series), 0, |series| - 1, k), full)
      {
        UpsertAt(db.weights, series, ws, !full, k);
      }
      forall id | forall r <- series :: r.id != id
        ensures var after := Apply(db, Pass(series, full)).weights;
                (id in after <==> id in db.weights) && (id in after ==> after[id] == db.weights[id])
      {
        UpsertElsewhere(db.weights, series, ws, !full, id);
      }
    }
  }

  lemma RetainEffect(db: Db, cutoff: int)
    requires Valid(db)
    ensures var after := Apply(db, Retain(cutoff));
            && Valid(after)
            && (forall r :: r in after.rows <==> r in db.rows && r.at >= cutoff)
            && (forall r <- after.rows :: Stored(after.weights, r.id) == Stored(db.weights, r.id))
            && (forall stream, start, end :: start >= cutoff ==>
                  Window(after.rows, stream, start, end) == Window(db.rows, stream, start, end))
  {
    var after := Apply(db, Retain(cutoff));
    ApplyValid(db, Retain(cutoff));
    WhereSpec(db.rows, (r: Row) => r.at >= cutoff);
    hide Kept; hide Window; hide Valid; hide InOrder;
    forall stream, start, end | start >= cutoff
      ensures Window(after.rows, stream, start, end) == Window(db.rows, stream, start, end)
    {
      WindowRows(db, stream, start, end);
      WindowRows(after, stream, start, end);
      OrderUnique(Window(after.rows, stream, start, end), Window(db.rows, stream, start, end));
    }
  }

  lemma StuckHere(db: Db, streams: seq<Stream>, passes: seq<seq<Row>>, full: bool, series: seq<Row>)
    requires |passes| < |streams| && Fetched(db, streams[..|passes|], passes, full)
    requires FetchedOne(PassAll(db, passes, full), streams[|passes|], series, full) && |series| == 1
    ensures Stuck(db, streams, passes, full)
  {
  }

  lemma FailureMeans(db: Db, streams: seq<Stream>, passes: seq<seq<Row>>, full: bool)
    requires Valid(db) && Distinct(streams) && Stuck(db, streams, passes, full)
    ensures exists s <- streams :: MayRaise(db, s, full)
    ensures full || Orderly(db) ==> exists s <- streams :: Single(db.rows, s)
  {
    StuckMeansMayRaise(db, streams, passes, full);
    if full || Orderly(db) { OrderlyTransaction(db, streams, full); }
  }

  lemma CommitMeans(db: Db, streams: seq<Stream>, passes: seq<seq<Row>>, full: bool)
    requires Valid(db) && Distinct(streams) && Fetched(db, streams, passes, full)
    ensures forall s <- streams :: !MustRaise(db, s, full)
    ensures full || Orderly(db) ==> forall s <- streams :: !Single(db.rows, s)
  {
    CanCommitExactly(db, streams, full);
    if full || Orderly(db) { OrderlyTransaction(db, streams, full); }
  }
}
