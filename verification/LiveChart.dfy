/** The chart bound for runs made of the worker's committed transactions: windows inside one
    transaction's series, and windows that run from a full pass into the tail pass after it. */
module LiveChart {
  import opened Chord
  import opened Tables
  import opened Coverage
  import opened Transactions
  import opened TailPass
  import opened Chart

  /** A transaction whose steps begin at position `at` of a run. */
  datatype Transaction = Transaction(at: nat, now: int, streams: seq<Stream>, passes: seq<seq<Row>>, full: bool)

  ghost predicate Committed(db: Db, ops: seq<Op>, t: Transaction) {
    && t.at + 1 + |t.passes| <= |ops|
    && ops[t.at] == Retain(t.now - WEEK) && (forall u: nat :: u < |t.passes| ==> ops[t.at + 1 + u] == Pass(t.passes[u], t.full))
    && Distinct(t.streams) && Fetched(TablesAt(db, ops, t.at + 1), t.streams, t.passes, t.full)
  }

  /** What the worker reports of a call that committed, wherever it falls in a run. */
  lemma WorkerCommits(db: Db, before: seq<Op>, now: int, streams: seq<Stream>, passes: seq<seq<Row>>, full: bool, rest: seq<Op>)
    requires Valid(db) && AllowedAll(db, before) && Distinct(streams)
    requires Fetched(Apply(ApplyAll(db, before), Retain(now - WEEK)), streams, passes, full)
    requires AllowedAll(ApplyAll(db, before + Steps(now, passes, full)), rest)
    ensures var ops := before + Steps(now, passes, full) + rest;
            AllowedAll(db, ops) && Committed(db, ops, Transaction(|before|, now, streams, passes, full))
  {
    var steps := Steps(now, passes, full);
    hide Fetched; hide Valid; hide Apply; hide Allowed; hide Steps; hide AllowedAll; hide ApplyAll;
    RunValid(db, before);
    StepsAreRun(ApplyAll(db, before), now, streams, passes, full);
    RunAppend(db, before, steps);
    RunAppend(db, before + steps, rest);
    StepsInPlace(db, before, now, streams, passes, full, rest);
  }

  lemma StepsInPlace(db: Db, before: seq<Op>, now: int, streams: seq<Stream>, passes: seq<seq<Row>>, full: bool, rest: seq<Op>)
    requires AllowedAll(db, before) && Distinct(streams)
    requires Fetched(Apply(ApplyAll(db, before), Retain(now - WEEK)), streams, passes, full)
    ensures Committed(db, before + Steps(now, passes, full) + rest, Transaction(|before|, now, streams, passes, full))
  {
    var steps := Steps(now, passes, full);
    var ops := before + steps + rest;
    hide Fetched; hide Apply; hide Distinct; hide AllowedAll;
    OneMoreStep(db, before, Retain(now - WEEK));
    assert ops[..|before| + 1] == before + [Retain(now - WEEK)];
    hide ApplyAll;
    forall u: nat | u < |passes| ensures ops[|before| + 1 + u] == Pass(passes[u], full) {
      assert ops[|before| + 1 + u] == steps[1 + u];
    }
  }

  lemma {:induction false} PassState(db: Db, ops: seq<Op>, t: Transaction, u: nat)
    requires Valid(db) && AllowedAll(db, ops) && Committed(db, ops, t) && u <= |t.passes|
    ensures TablesAt(db, ops, t.at + 1 + u) == PassAll(TablesAt(db, ops, t.at + 1), t.passes[..u], t.full)
  {
    hide Valid; hide Allowed; hide Apply; hide Fetched;
    if u > 0 {
      PassState(db, ops, t, u - 1);
      StepOf(db, ops, t.at + u);
      assert t.passes[..u][..u - 1] == t.passes[..u - 1];
    }
  }

  /** The transaction's u-th pass was over this stream, and read something. */
  ghost predicate PassOver(db: Db, ops: seq<Op>, t: Transaction, u: nat, stream: Stream) {
    Committed(db, ops, t) && u < |t.passes| == |t.streams| && t.streams[u] == stream && t.passes[u] != []
  }

  lemma StartState(db: Db, ops: seq<Op>, t: Transaction)
    requires Valid(db) && AllowedAll(db, ops) && t.at < |ops|
    ensures Valid(TablesAt(db, ops, t.at + 1))
  {
    hide Valid; hide Allowed; hide Apply;
    StepOf(db, ops, t.at);
    ApplyValid(TablesAt(db, ops, t.at), ops[t.at]);
  }

  /** A valid read of two rows or more. */
  ghost predicate Read(db: Db, stream: Stream, series: seq<Row>, full: bool) {
    Valid(db) && FetchedOne(db, stream, series, full) && |series| >= 2 && forall r <- series :: r.stream == stream
  }

  lemma ReadInTurn(start: Db, streams: seq<Stream>, passes: seq<seq<Row>>, full: bool, u: nat)
    requires Valid(start) && Fetched(start, streams, passes, full) && Distinct(streams)
    requires u < |passes| == |streams| && passes[u] != [] && Valid(PassAll(start, passes[..u], full))
    ensures Read(PassAll(start, passes[..u], full), streams[u], passes[u], full)
  {
    hide Valid; hide Fetched; hide Distinct; hide FetchedOne; hide Apply; hide Allowed;
    FetchesAreIndependent(start, streams, passes, full, u);
    FetchedAllowed(PassAll(start, passes[..u], full), streams[u], passes[u], full);
  }

  /** What a transaction's pass over a stream read. */
  lemma PassRead(db: Db, ops: seq<Op>, t: Transaction, u: nat, stream: Stream)
    requires Valid(db) && AllowedAll(db, ops) && PassOver(db, ops, t, u, stream)
    ensures Read(TablesAt(db, ops, t.at + 1 + u), stream, t.passes[u], t.full)
  {
    hide Valid; hide AllowedAll; hide Allowed; hide Apply; hide Fetched; hide Read; hide Distinct; hide TablesAt;
    StartState(db, ops, t);
    PassState(db, ops, t, u);
    StepOf(db, ops, t.at + 1 + u);
    ReadInTurn(TablesAt(db, ops, t.at + 1), t.streams, t.passes, t.full, u);
  }

  /** After the transaction no full pass runs over the stream. */
  ghost predicate LastFull(ops: seq<Op>, t: Transaction, stream: Stream) {
    forall n :: t.at + 1 + |t.passes| <= n < |ops| ==> !Overwrites(ops[n], stream)
  }

  /** From the transaction on, the stream's readings are newer than this time. */
  ghost predicate Newer(ops: seq<Op>, t: Transaction, stream: Stream, time: int) {
    forall n :: t.at <= n < |ops| && ops[n].Append? && ops[n].stream == stream ==> ops[n].at > time
  }

  /** Within a stream, ids follow time. */
  ghost predicate IdsFollowTime(rows: seq<Row>, stream: Stream) {
    forall r, s :: r in rows && s in rows && r.stream == s.stream == stream && r.id < s.id ==> r.at < s.at
  }

  lemma PassStands(db: Db, ops: seq<Op>, t: Transaction, u: nat, stream: Stream)
    requires Valid(db) && AllowedAll(db, ops) && PassOver(db, ops, t, u, stream) && LastFull(ops, t, stream)
    ensures StandingPass(ops, t.at + 1 + u, stream)
  {
    hide Valid; hide AllowedAll; hide Fetched; hide FetchedOne; hide TablesAt;
    PassRead(db, ops, t, u, stream);
    forall n | t.at + 1 + u < n < |ops| ensures !Overwrites(ops[n], stream) {
      if n < t.at + 1 + |t.passes| {
        var v := n - t.at - 1;
        if t.passes[v] != [] { PassRead(db, ops, t, v, t.streams[v]); }
      }
    }
  }

  /** A full pass holds every row of its stream, and a tail pass over a stream whose ids
      follow time every row from its first on. */
  lemma FetchHolds(db: Db, stream: Stream, series: seq<Row>, full: bool, lo: int, hi: int)
    requires Read(db, stream, series, full)
    requires full || (IdsFollowTime(db.rows, stream) && series[0].at <= lo)
    ensures HoldsRange(db, series, stream, lo, hi, lo)
  {
    SelectSpec(db.rows, (r: Row) => r.stream == stream);
    hide Select;
    if !full { TailHolds(db, stream, series, lo); }
  }

  lemma TailHolds(db: Db, stream: Stream, tail: seq<Row>, lo: int)
    requires Valid(db) && IsTail(db, stream, tail) && tail != [] && IdsFollowTime(db.rows, stream) && tail[0].at <= lo
    ensures forall r: Row :: r.stream == stream && lo <= r.at ==> (r in db.rows <==> r in tail)
  {
    if exists r :: Weighted(db, stream, r) {
      var last, peak :| Peak(db, stream, last, peak) && tail == FromId(db.rows, stream, peak.id);
      SelectSpec(db.rows, (r: Row) => r.stream == stream && r.id >= peak.id);
      hide Select; hide Valid;
      assert tail[0] in tail;
      forall r | r in db.rows && r.stream == stream && lo <= r.at ensures r.id >= peak.id {}
    } else {
      WholeTail(db, stream);
      SelectSpec(db.rows, (r: Row) => r.stream == stream);
      hide Select; hide Valid;
      assert tail == FromId(db.rows, stream, 0);
    }
  }

  /** A committed pass spans the times its series holds, up to the last of them. */
  lemma CommittedSpans(db: Db, ops: seq<Op>, t: Transaction, u: nat, stream: Stream, lo: int, hi: int)
    requires Valid(db) && AllowedAll(db, ops) && PassOver(db, ops, t, u, stream)
    requires LastFull(ops, t, stream) && Newer(ops, t, stream, hi)
    requires t.full || (IdsFollowTime(TablesAt(db, ops, t.at + 1 + u).rows, stream) && t.passes[u][0].at <= lo)
    ensures Spans(db, ops, t.at + 1 + u, t.at + 1 + u, stream, lo, hi)
  {
    PassStands(db, ops, t, u, stream);
    PassRead(db, ops, t, u, stream);
    FetchHolds(TablesAt(db, ops, t.at + 1 + u), stream, t.passes[u], t.full, lo, hi);
  }

  /** In any window, also one up to now, a row meets the bound if some committed transaction,
      full or tail, with no full pass over the stream after it, read back to the drawn row
      before it, and no reading arrived since that is as old as the drawn row after it. */
  lemma TransactionBound(db: Db, ops: seq<Op>, t: Transaction, u: nat, stream: Stream, start: int, end: int,
                         after: Db, win: seq<Row>, limit: nat, sel: set<nat>, eps: real, k: nat)
    requires Valid(db) && AllowedAll(db, ops) && after == ApplyAll(db, ops)
    requires win == Window(after.rows, stream, start, end) && k < |win|
    requires Selection(after.weights, win, limit, sel) && LeftOutWithin(after.weights, win, sel, eps) && eps >= 0.0
    requires PassOver(db, ops, t, u, stream) && LastFull(ops, t, stream)
    requires Newer(ops, t, stream, win[Next(sel, k, |win|)].at)
    requires t.full || (IdsFollowTime(TablesAt(db, ops, t.at + 1 + u).rows, stream) && t.passes[u][0].at <= win[Prev(sel, k)].at)
    ensures Abs(win[k].value - Drawn(Values(win), sel, k)) <= 2.0 * eps
    ensures Abs(win[k].value - Drawn(Floored(Values(win)), sel, k)) < 2.0 * eps + 0.001
  {
    hide Drawn; hide Window; hide PassOver; hide LastFull; hide Newer; hide Spans; hide Valid; hide LeftOutWithin;
    CommittedSpans(db, ops, t, u, stream, win[Prev(sel, k)].at, win[Next(sel, k, |win|)].at);
    ChartBound(db, ops, stream, start, end, after, win, limit, sel, eps, k);
  }

  /** The time of the last row a pass read. */
  function Reach(series: seq<Row>): int
    requires series != []
  {
    series[|series| - 1].at
  }

  lemma EarlierEdge(ops: seq<Op>, t: Transaction, stream: Stream, time: int, edge: int)
    requires Newer(ops, t, stream, time) && edge <= time
    ensures Newer(ops, t, stream, edge)
  {
  }

  lemma StillLastFull(ops: seq<Op>, f: Transaction, g: Transaction, stream: Stream)
    requires LastFull(ops, f, stream) && f.at + |f.passes| < g.at
    ensures LastFull(ops, g, stream)
  {
  }

  /** After the last full transaction f a tail transaction g extended the stream's weights,
      from a row that f's pass had read. Readings arrived in time order. */
  ghost predicate Extended(db: Db, ops: seq<Op>, f: Transaction, u: nat, g: Transaction, v: nat, stream: Stream) {
    && PassOver(db, ops, f, u, stream) && f.full && LastFull(ops, f, stream) && Newer(ops, f, stream, Reach(f.passes[u]))
    && PassOver(db, ops, g, v, stream) && !g.full && f.at + |f.passes| < g.at && Newer(ops, g, stream, Reach(g.passes[v]))
    && IdsFollowTime(TablesAt(db, ops, g.at + 1 + v).rows, stream)
    && g.passes[v][0].at <= Reach(f.passes[u])
  }

  lemma FullPart(db: Db, ops: seq<Op>, f: Transaction, u: nat, stream: Stream, start: int, meet: int)
    requires Valid(db) && AllowedAll(db, ops) && PassOver(db, ops, f, u, stream) && f.full && LastFull(ops, f, stream)
    requires Newer(ops, f, stream, Reach(f.passes[u])) && meet <= Reach(f.passes[u])
    ensures Spanned(db, ops, stream, start, meet)
  {
    EarlierEdge(ops, f, stream, Reach(f.passes[u]), meet);
    hide Spans; hide Valid; hide AllowedAll; hide PassOver; hide Newer; hide LastFull; hide TablesAt;
    CommittedSpans(db, ops, f, u, stream, start, meet);
  }

  lemma TailPart(db: Db, ops: seq<Op>, g: Transaction, v: nat, stream: Stream, meet: int, edge: int)
    requires Valid(db) && AllowedAll(db, ops) && PassOver(db, ops, g, v, stream) && LastFull(ops, g, stream)
    requires IdsFollowTime(TablesAt(db, ops, g.at + 1 + v).rows, stream) && meet == g.passes[v][0].at
    requires Newer(ops, g, stream, Reach(g.passes[v])) && edge <= Reach(g.passes[v])
    ensures Spanned(db, ops, stream, meet, edge)
  {
    EarlierEdge(ops, g, stream, Reach(g.passes[v]), edge);
    hide Spans; hide Valid; hide AllowedAll; hide Committed; hide Newer; hide LastFull; hide TablesAt; hide IdsFollowTime;
    CommittedSpans(db, ops, g, v, stream, meet, edge);
  }

  lemma ExtendedSpans(db: Db, ops: seq<Op>, f: Transaction, u: nat, g: Transaction, v: nat, stream: Stream,
                      start: int, meet: int, edge: int)
    requires Valid(db) && AllowedAll(db, ops) && Extended(db, ops, f, u, g, v, stream)
    requires meet == g.passes[v][0].at && edge <= Reach(g.passes[v])
    ensures Spanned(db, ops, stream, start, meet) && Spanned(db, ops, stream, meet, edge)
  {
    hide Committed; hide Spanned; hide Valid; hide AllowedAll; hide Newer; hide TablesAt; hide IdsFollowTime;
    StillLastFull(ops, f, g, stream);
    hide LastFull;
    FullPart(db, ops, f, u, stream, start, meet);
    TailPart(db, ops, g, v, stream, meet, edge);
  }

  /** The live chart: if the row the tail pass starts from is drawn, then in any window, also
      one up to now, every row whose next drawn row is no newer than what the tail pass read
      meets the bound. */
  lemma LiveChartBound(db: Db, ops: seq<Op>, f: Transaction, u: nat, g: Transaction, v: nat, stream: Stream,
                       start: int, end: int, after: Db, win: seq<Row>, limit: nat, sel: set<nat>, join: nat,
                       eps: real, k: nat)
    requires Valid(db) && AllowedAll(db, ops) && after == ApplyAll(db, ops)
    requires Extended(db, ops, f, u, g, v, stream)
    requires win == Window(after.rows, stream, start, end) && k < |win|
    requires Selection(after.weights, win, limit, sel) && LeftOutWithin(after.weights, win, sel, eps) && eps >= 0.0
    requires join < |win| && join in sel && win[join].at == g.passes[v][0].at
    requires win[Next(sel, k, |win|)].at <= Reach(g.passes[v])
    ensures Abs(win[k].value - Drawn(Values(win), sel, k)) <= 2.0 * eps
    ensures Abs(win[k].value - Drawn(Floored(Values(win)), sel, k)) < 2.0 * eps + 0.001
  {
    hide Drawn; hide Window; hide Extended; hide Spans; hide Valid; hide AllowedAll; hide LeftOutWithin; hide GapAroundSpanned;
    var meet, edge := win[join].at, win[Next(sel, k, |win|)].at;
    ExtendedSpans(db, ops, f, u, g, v, stream, start, meet, edge);
    SelectionRange(after.weights, win, limit, sel);
    TwoPassesSpan(db, ops, stream, start, end, after, win, sel, join, k);
    ChartBound(db, ops, stream, start, end, after, win, limit, sel, eps, k);
  }
}
