/** Over whole runs of inserts, retention and passes, the stored weights of the rows a
    pass covered stay at least the weights that pass computed for them. */
module Coverage {
  import opened CalculateWeights
  import opened SplitTree
  import opened Tables

  /** Every surviving row of the series is stored with at least its split-tree weight. */
  ghost predicate Covered(db: Db, series: seq<Row>) {
    && |series| >= 2
    && forall k :: 0 <= k < |series| && series[k] in db.rows ==>
         Stored(db.weights, series[k].id) >= Weight(Values(series), 0, |series| - 1, k)
  }

  /** The rows were all in the table at some point: their ids are taken. */
  ghost predicate Known(db: Db, series: seq<Row>) {
    InOrder(series) && DistinctIds(series) && forall r <- series :: r.id < db.nextId
  }

  /** A pass, full or tail, covers its series, stale rows included. */
  lemma PassCovers(db: Db, series: seq<Row>, full: bool)
    requires Valid(db) && Allowed(db, Pass(series, full)) && |series| >= 2
    ensures Covered(Apply(db, Pass(series, full)), series)
  {
    OrderedAreDistinct(db, series);
    var ws := TreeWeights(Values(series));
    forall k | 0 <= k < |series|
      ensures Stored(Apply(db, Pass(series, full)).weights, series[k].id) >= Weight(Values(series), 0, |series| - 1, k)
    {
      UpsertAt(db.weights, series, ws, !full, k);
    }
  }

  /** A full pass over one of the stream's rows is the one step that may lower a weight. */
  ghost predicate Overwrites(op: Op, stream: Stream) {
    op.Pass? && op.full && exists r <- op.series :: r.stream == stream
  }

  /** Anything else keeps what an earlier pass covered. */
  lemma StepKeepsCovered(db: Db, series: seq<Row>, stream: Stream, op: Op)
    requires Valid(db) && Allowed(db, op) && Covered(db, series) && Known(db, series)
    requires forall r <- series :: r.stream == stream
    requires !Overwrites(op, stream)
    ensures Covered(Apply(db, op), series)
  {
    var after := Apply(db, op);
    forall k | 0 <= k < |series| && series[k] in after.rows
      ensures series[k] in db.rows
      ensures Stored(after.weights, series[k].id) >= Stored(db.weights, series[k].id)
    {
      match op
      case Append(_, _, _) =>
      case Retain(cutoff) =>
        WhereSpec(db.rows, (r: Row) => r.at >= cutoff);
      case Pass(other, full) =>
        if |other| >= 2 {
          var ws := TreeWeights(Values(other));
          if full {
            forall r | r in other ensures r.id != series[k].id {
              SameIdSameRow(db, r, series[k]);
            }
            UpsertElsewhere(db.weights, other, ws, false, series[k].id);
          } else {
            UpsertNeverLowers(db.weights, other, ws, series[k].id);
          }
        }
    }
  }

  lemma SameIdSameRow(db: Db, r: Row, s: Row)
    requires Valid(db) && r in db.rows && s in db.rows
    ensures r.id == s.id ==> r == s
  {
    var i :| 0 <= i < |db.rows| && db.rows[i] == r;
    var j :| 0 <= j < |db.rows| && db.rows[j] == s;
    if i < j { assert db.rows[i].id != db.rows[j].id; }
    if j < i { assert db.rows[j].id != db.rows[i].id; }
  }

  lemma {:induction false} RunValid(db: Db, ops: seq<Op>)
    requires Valid(db) && AllowedAll(db, ops)
    ensures Valid(ApplyAll(db, ops))
    decreases |ops|
  {
    if ops != [] {
      RunValid(db, ops[..|ops| - 1]);
      ApplyValid(ApplyAll(db, ops[..|ops| - 1]), ops[|ops| - 1]);
    }
  }

  /** The tables before step n of a run. */
  ghost function TablesAt(db: Db, ops: seq<Op>, n: nat): Db
    requires n <= |ops|
  {
    ApplyAll(db, ops[..n])
  }

  lemma {:induction false} AllowedPrefix(db: Db, ops: seq<Op>, n: nat)
    requires AllowedAll(db, ops) && n <= |ops|
    ensures AllowedAll(db, ops[..n])
    decreases |ops|
  {
    if n < |ops| {
      AllowedPrefix(db, ops[..|ops| - 1], n);
      assert ops[..|ops| - 1][..n] == ops[..n];
    } else {
      assert ops[..n] == ops;
    }
  }

  lemma OneMoreStep(db: Db, ops: seq<Op>, op: Op)
    requires AllowedAll(db, ops) && Allowed(ApplyAll(db, ops), op)
    ensures AllowedAll(db, ops + [op]) && ApplyAll(db, ops + [op]) == Apply(ApplyAll(db, ops), op)
  {
    assert (ops + [op])[..|ops|] == ops;
  }

  lemma {:induction false} RunAppend(db: Db, ops: seq<Op>, more: seq<Op>)
    requires AllowedAll(db, ops) && AllowedAll(ApplyAll(db, ops), more)
    ensures AllowedAll(db, ops + more) && ApplyAll(db, ops + more) == ApplyAll(ApplyAll(db, ops), more)
    decreases |more|
  {
    if more == [] {
      assert ops + more == ops;
    } else {
      var front, last := more[..|more| - 1], more[|more| - 1];
      RunAppend(db, ops, front);
      OneMoreStep(db, ops + front, last);
      assert ops + more == ops + front + [last];
    }
  }

  lemma StepOf(db: Db, ops: seq<Op>, n: nat)
    requires Valid(db) && AllowedAll(db, ops) && n < |ops|
    ensures Valid(TablesAt(db, ops, n)) && Allowed(TablesAt(db, ops, n), ops[n])
    ensures TablesAt(db, ops, n + 1) == Apply(TablesAt(db, ops, n), ops[n])
  {
    AllowedPrefix(db, ops, n + 1);
    assert ops[..n + 1][..n] == ops[..n];
    AllowedPrefix(db, ops, n);
    RunValid(db, ops[..n]);
  }

  /** Step j is a pass over some of the stream's rows, and no later full pass replaces it. */
  ghost predicate StandingPass(ops: seq<Op>, j: nat, stream: Stream) {
    && j < |ops| && ops[j].Pass? && |ops[j].series| >= 2
    && (forall r <- ops[j].series :: r.stream == stream)
    && (forall n :: j < n < |ops| ==> !Overwrites(ops[n], stream))
  }

  /** From the moment a pass, full or tail, writes its weights, through any inserts (also
      late ones), tail passes and retention, it covers its series. */
  lemma {:induction false} RunCovers(db: Db, ops: seq<Op>, j: nat, n: nat, stream: Stream)
    requires Valid(db) && AllowedAll(db, ops) && StandingPass(ops, j, stream) && j < n <= |ops|
    ensures Covered(TablesAt(db, ops, n), ops[j].series) && Known(TablesAt(db, ops, n), ops[j].series)
    decreases n
  {
    var series, mid := ops[j].series, TablesAt(db, ops, n - 1);
    StepOf(db, ops, n - 1);
    if n - 1 == j {
      OrderedAreDistinct(mid, series);
      PassCovers(mid, series, ops[j].full);
    } else {
      RunCovers(db, ops, j, n - 1, stream);
      StepKeepsCovered(mid, series, stream, ops[n - 1]);
    }
  }

  // ---- Which rows a window sees ----

  /** From lo to hi, the stream's rows are those of the series from `from` on. */
  ghost predicate HoldsRange(db: Db, series: seq<Row>, stream: Stream, lo: int, hi: int, from: int) {
    forall r: Row :: r.stream == stream && lo <= r.at <= hi ==> (r in db.rows <==> r in series && r.at >= from)
  }

  /** A pass that spans the times lo to hi: its series, fetched before step i, held the
      stream's rows of that range; none is inserted into the range afterwards; and the
      weights it wrote at step j still stand. */
  ghost predicate Spans(db: Db, ops: seq<Op>, i: nat, j: nat, stream: Stream, lo: int, hi: int) {
    && i <= j && StandingPass(ops, j, stream)
    && HoldsRange(TablesAt(db, ops, i), ops[j].series, stream, lo, hi, lo)
    && (forall n :: i <= n < |ops| ==> !InsertsWithin(ops[n], stream, lo, hi))
  }

  ghost predicate InsertsWithin(op: Op, stream: Stream, lo: int, hi: int) {
    op.Append? && op.stream == stream && lo <= op.at <= hi
  }

  lemma NarrowerSpan(db: Db, ops: seq<Op>, i: nat, j: nat, stream: Stream, lo: int, hi: int, lo': int, hi': int)
    requires Spans(db, ops, i, j, stream, lo, hi) && lo <= lo' && hi' <= hi
    ensures Spans(db, ops, i, j, stream, lo', hi')
  {
  }

  /** Retention only removes rows from the front of what a pass fetched. */
  lemma {:induction false} RunHolds(db: Db, ops: seq<Op>, i: nat, j: nat, n: nat, stream: Stream, lo: int, hi: int) returns (from: int)
    requires Valid(db) && AllowedAll(db, ops) && Spans(db, ops, i, j, stream, lo, hi) && i <= n <= |ops|
    ensures HoldsRange(TablesAt(db, ops, n), ops[j].series, stream, lo, hi, from)
    decreases n
  {
    if n == i {
      from := lo;
    } else {
      var mid := TablesAt(db, ops, n - 1);
      StepOf(db, ops, n - 1);
      from := RunHolds(db, ops, i, j, n - 1, stream, lo, hi);
      match ops[n - 1]
      case Append(_, _, _) => assert !InsertsWithin(ops[n - 1], stream, lo, hi);
      case Retain(cutoff) =>
        WhereSpec(mid.rows, (r: Row) => r.at >= cutoff);
        from := if from < cutoff then cutoff else from;
      case Pass(_, _) =>
    }
  }

  /** The first position in a series at or after a time. */
  function FirstAt(series: seq<Row>, at: int): (p: nat)
    ensures p <= |series|
    ensures p < |series| ==> series[p].at >= at
    ensures forall i :: 0 <= i < p ==> series[i].at < at
  {
    if series == [] || series[0].at >= at then 0
    else
      var p := FirstAt(series[1..], at);
      assert forall i :: 1 <= i < |series| ==> series[1..][i - 1] == series[i];
      p + 1
  }

  /** The rows of an ordered series within a time range form a contiguous block. */
  lemma RangeIsBlock(series: seq<Row>, lo: int, hi: int) returns (p: nat, q: nat)
    requires InOrder(series)
    ensures p <= q <= |series|
    ensures InOrder(series[p..q])
    ensures forall i :: 0 <= i < |series| ==> (p <= i < q <==> lo <= series[i].at <= hi)
    ensures forall r :: r in series[p..q] <==> r in series && lo <= r.at <= hi
  {
    p, q := FirstAt(series, lo), FirstAt(series, hi + 1);
    q := if q < p then p else q;
    forall i, j | 0 <= i <= j < |series| ensures series[i].at <= series[j].at {
      assert i < j ==> Before(series[i], series[j]);
    }
    forall i | 0 <= i < |series| ensures lo <= series[i].at <= hi <==> p <= i < q {
      assert p <= i ==> series[p].at <= series[i].at;
      assert FirstAt(series, hi + 1) <= i ==> series[FirstAt(series, hi + 1)].at <= series[i].at;
    }
    InSlice(series, lo, hi, p, q);
  }

  lemma InSlice(series: seq<Row>, lo: int, hi: int, p: nat, q: nat)
    requires p <= q <= |series| && forall i :: 0 <= i < |series| ==> (p <= i < q <==> lo <= series[i].at <= hi)
    ensures forall r :: r in series[p..q] <==> r in series && lo <= r.at <= hi
  {
    forall r ensures r in series[p..q] <==> r in series && lo <= r.at <= hi {
      if r in series && lo <= r.at <= hi {
        var i :| 0 <= i < |series| && series[i] == r;
        assert series[p..q][i - p] == r;
      }
    }
  }

  lemma WindowRows(db: Db, stream: Stream, start: int, end: int)
    requires Valid(db)
    ensures InOrder(Window(db.rows, stream, start, end))
    ensures forall r :: r in Window(db.rows, stream, start, end) <==>
              r in db.rows && r.stream == stream && start <= r.at <= end
  {
    SelectSpec(db.rows, (r: Row) => r.stream == stream && start <= r.at <= end);
  }

  lemma OrderedPair(rows: seq<Row>, a: nat, b: nat)
    requires InOrder(rows) && a < b < |rows|
    ensures rows[a].at <= rows[b].at
  {
    assert Before(rows[a], rows[b]);
  }

  /** Between two of its rows, a window is a contiguous block of the series of any pass that
      spans them, whatever retention removed. */
  lemma SpanIsBlock(db: Db, series: seq<Row>, stream: Stream, from: int, start: int, end: int,
                    win: seq<Row>, a: nat, b: nat) returns (p: nat)
    requires Valid(db) && InOrder(series) && forall r <- series :: r.stream == stream
    requires win == Window(db.rows, stream, start, end) && a < b < |win|
    requires HoldsRange(db, series, stream, win[a].at, win[b].at, from)
    ensures p + (b - a) < |series|
    ensures forall j :: a <= j <= b ==> series[j - a + p] == win[j]
  {
    WindowRows(db, stream, start, end);
    OrderedPair(win, a, b);
    hide InOrder; hide Window; hide Valid;
    var lo, hi := win[a].at, win[b].at;
    var first, last := RangeIsBlock(win, lo, hi);
    var left, right := RangeIsBlock(series, if lo < from then from else lo, hi);
    SameBlock(db, series, stream, from, start, end, win, lo, hi, win[first..last], series[left..right]);
    p := Aligned(win, first, last, series, left, right, a, b);
  }

  lemma SameBlock(db: Db, series: seq<Row>, stream: Stream, from: int, start: int, end: int,
                  win: seq<Row>, lo: int, hi: int, seen: seq<Row>, block: seq<Row>)
    requires forall r <- series :: r.stream == stream
    requires forall r :: r in win <==> r in db.rows && r.stream == stream && start <= r.at <= end
    requires start <= lo && hi <= end && HoldsRange(db, series, stream, lo, hi, from)
    requires InOrder(seen) && InOrder(block)
    requires forall r :: r in seen <==> r in win && lo <= r.at <= hi
    requires forall r :: r in block <==> r in series && (if lo < from then from else lo) <= r.at <= hi
    ensures seen == block
  {
    hide InOrder;
    OrderUnique(seen, block);
  }

  lemma Aligned(win: seq<Row>, first: nat, last: nat, series: seq<Row>, left: nat, right: nat, a: nat, b: nat) returns (p: nat)
    requires first <= a < b < last <= |win| && left <= right <= |series| && win[first..last] == series[left..right]
    ensures p + (b - a) < |series|
    ensures forall j :: a <= j <= b ==> series[j - a + p] == win[j]
  {
    p := a - first + left;
    forall j | a <= j <= b ensures series[j - a + p] == win[j] {
      assert win[first..last][j - first] == series[left..right][j - first];
    }
  }
}
