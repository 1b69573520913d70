/** The chart query: first, heaviest and last rows of a window, and how far the line
    drawn through them can be from the rows it leaves out. */
module Chart {
  import opened Chord
  import opened SplitTree
  import opened Tables
  import opened Coverage

  // ---- The query ----

  /** ORDER BY weight DESC LIMIT n over the window's weighted rows, given by their ranks;
      rows of equal weight may be taken in any order. */
  ghost predicate Top(weights: map<nat, real>, win: seq<Row>, limit: nat, top: set<nat>) {
    && (forall k <- top :: k < |win| && win[k].id in weights)
    && |top| <= limit
    && (forall k: nat, h: nat :: k in top && h < |win| && win[h].id in weights && h !in top ==>
          weights[win[h].id] <= weights[win[k].id])
    && (|top| < limit ==> forall h: nat :: h < |win| && win[h].id in weights ==> h in top)
  }

  /** The ranks the query returns: the first row, the top rows and the last row. */
  ghost predicate Selection(weights: map<nat, real>, win: seq<Row>, limit: nat, sel: set<nat>) {
    exists top :: Top(weights, win, limit, top) && sel == Ends(win) + top
  }

  function Ends(win: seq<Row>): set<nat> {
    if win == [] then {} else {0, |win| - 1}
  }

  function Floor3(v: real): real {
    (v * 1000.0).Floor as real / 1000.0
  }

  /** The largest thousandth not above a value. */
  ghost predicate IsFloored(f: real, v: real) {
    exists n: int :: Thousandths(n, f, v)
  }

  ghost predicate Thousandths(n: int, f: real, v: real) {
    f == n as real / 1000.0 && n as real <= v * 1000.0 < (n + 1) as real
  }

  lemma Floor3Close(v: real)
    ensures IsFloored(Floor3(v), v) && v - 0.001 < Floor3(v) <= v
  {
    var n := (v * 1000.0).Floor;
    assert Thousandths(n, Floor3(v), v);
  }

  datatype Point = Point(millis: int, value: real)

  /** A scanned row: microseconds become milliseconds, the value is floored. */
  function ToPoint(v: real, at: int): Point {
    Point(at / 1000, Floor3(v))
  }

  /** The point of a row: its time in whole milliseconds and its value to three decimals, both
      rounded down. */
  ghost predicate PointOf(p: Point, r: Row) {
    p.millis * 1000 <= r.at < p.millis * 1000 + 1000 && IsFloored(p.value, r.value)
  }

  lemma ToPointIsPointOf(r: Row)
    ensures PointOf(ToPoint(r.value, r.at), r)
  {
    Floor3Close(r.value);
  }

  ghost predicate Sorted(pts: seq<Point>) {
    forall i, j :: 0 <= i < j < |pts| ==> pts[i].millis <= pts[j].millis
  }

  method SelectTop(weights: map<nat, real>, win: seq<Row>, limit: nat) returns (top: set<nat>)
    ensures Top(weights, win, limit, top)
  {
    top := {};
    var rest := set k: nat | k < |win| && win[k].id in weights;
    while |top| < limit && rest != {}
      invariant rest !! top && |top| <= limit
      invariant forall k: nat :: k in top || k in rest <==> k < |win| && win[k].id in weights
      invariant forall k, h :: k in top && h in rest ==> weights[win[h].id] <= weights[win[k].id]
      decreases rest
    {
      var k := Heaviest(weights, win, rest);
      top, rest := top + {k}, rest - {k};
    }
  }

  method Heaviest(weights: map<nat, real>, win: seq<Row>, ranks: set<nat>) returns (k: nat)
    requires ranks != {} && forall h <- ranks :: h < |win| && win[h].id in weights
    ensures k in ranks && forall h <- ranks :: weights[win[h].id] <= weights[win[k].id]
  {
    k :| k in ranks;
    var left := ranks - {k};
    while left != {}
      invariant left <= ranks && k in ranks
      invariant forall h <- ranks - left :: weights[win[h].id] <= weights[win[k].id]
    {
      var h :| h in left;
      if weights[win[k].id] < weights[win[h].id] { k := h; }
      left := left - {h};
    }
  }

  function InsertPoint(pts: seq<Point>, p: Point): seq<Point> {
    if pts == [] || pts[|pts| - 1].millis <= p.millis then pts + [p]
    else InsertPoint(pts[..|pts| - 1], p) + [pts[|pts| - 1]]
  }

  ghost predicate AtMost(pts: seq<Point>, m: int) {
    forall i :: 0 <= i < |pts| ==> pts[i].millis <= m
  }

  lemma SortedAppend(pts: seq<Point>, p: Point)
    requires Sorted(pts) && AtMost(pts, p.millis)
    ensures Sorted(pts + [p]) && AtMost(pts + [p], p.millis)
  {
  }

  lemma {:induction false} InsertPointSpec(pts: seq<Point>, p: Point, m: int)
    requires Sorted(pts) && AtMost(pts, m) && p.millis <= m
    ensures Sorted(InsertPoint(pts, p)) && AtMost(InsertPoint(pts, p), m)
    ensures multiset(InsertPoint(pts, p)) == multiset(pts) + multiset{p}
  {
    if pts == [] || pts[|pts| - 1].millis <= p.millis {
      assert AtMost(pts, p.millis);
      SortedAppend(pts, p);
    } else {
      var front, last := pts[..|pts| - 1], pts[|pts| - 1];
      assert pts == front + [last];
      InsertPointSpec(front, p, last.millis);
      SortedAppend(InsertPoint(front, p), last);
    }
  }

  lemma Bounded(pts: seq<Point>, p: Point) returns (m: int)
    requires Sorted(pts)
    ensures AtMost(pts, m) && p.millis <= m
  {
    m := if pts == [] || pts[|pts| - 1].millis <= p.millis then p.millis else pts[|pts| - 1].millis;
  }

  method SortByTime(pts: seq<Point>) returns (out: seq<Point>)
    ensures Sorted(out) && multiset(out) == multiset(pts)
  {
    out := [];
    for i := 0 to |pts|
      invariant Sorted(out) && multiset(out) == multiset(pts[..i])
    {
      ghost var m := Bounded(out, pts[i]);
      InsertPointSpec(out, pts[i], m);
      out := InsertPoint(out, pts[i]);
      assert pts[..i + 1] == pts[..i] + [pts[i]];
    }
    assert pts[..|pts|] == pts;
  }

  /** The (value, time) pairs of the selected ranks. UNION keeps each pair once. */
  function Union(win: seq<Row>, sel: set<nat>): set<(real, int)> {
    set k | k in sel && k < |win| :: (win[k].value, win[k].at)
  }

  /** Which rows a query returns, given the window's rows: the first, the last, and up to
      `limit` weighted ones, all of them if they fit, else none lighter than one left out. */
  ghost predicate Answer(db: Db, win: seq<Row>, limit: nat, sel: set<nat>, top: set<nat>) {
    && (forall k: nat :: k in sel <==> (win != [] && (k == 0 || k == |win| - 1)) || k in top)
    && (forall k <- top :: k < |win| && win[k].id in db.weights)
    && |top| <= limit
    && (forall h: nat :: h < |win| && win[h].id in db.weights && h !in top ==>
          |top| == limit && forall k <- top :: db.weights[win[h].id] <= db.weights[win[k].id])
  }

  /** The stream's rows from start to end, both included. */
  ghost predicate RowsOf(win: seq<Row>, rows: seq<Row>, stream: Stream, start: int, end: int) {
    forall r :: r in win <==> r in rows && r.stream == stream && start <= r.at && r.at <= end
  }

  /** By time, and by id among rows of one time. */
  ghost predicate OldestFirst(win: seq<Row>) {
    forall i, j :: 0 <= i < j < |win| ==> win[i].at < win[j].at || (win[i].at == win[j].at && win[i].id < win[j].id)
  }

  /** In ascending time, each point is that of a returned row and each returned row has one. */
  ghost predicate PointsFor(pts: seq<Point>, win: seq<Row>, sel: set<nat>) {
    && (forall i, j :: 0 <= i < j < |pts| ==> pts[i].millis <= pts[j].millis)
    && (forall p <- pts :: exists k: nat :: k in sel && k < |win| && PointOf(p, win[k]))
    && (forall k <- sel :: k < |win| && exists p <- pts :: PointOf(p, win[k]))
  }

  /** The query and the scan. The window holds the stream's rows from start to end, both
      included, oldest first and by id among rows of one time. The points are those of the
      rows the query returns, each such row's point among them, in ascending time. */
  method SmartFind(db: Db, stream: Stream, start: int, end: int, limit: nat)
    returns (pts: seq<Point>, ghost win: seq<Row>, ghost sel: set<nat>, ghost top: set<nat>, ghost order: seq<(real, int)>)
    ensures win == Window(db.rows, stream, start, end)
    ensures RowsOf(win, db.rows, stream, start, end) && (DistinctIds(db.rows) ==> OldestFirst(win))
    ensures Selection(db.weights, win, limit, sel) && Answer(db, win, limit, sel, top)
    ensures forall x :: x in order <==> x in Union(win, sel)
    ensures forall i, j :: 0 <= i < j < |order| ==> order[i] != order[j]
    ensures Sorted(pts) && multiset(pts) == multiset(Points(order))
    ensures PointsFor(pts, win, sel)
  {
    WindowExactly(db.rows, stream, start, end);
    hide RowsOf; hide OldestFirst; hide PointsFor; hide Window; hide Answer; hide Selection; hide Top; hide PointOf; hide Union; hide InOrder; hide Sorted; hide Points; hide DistinctIds; hide Ends;
    var seen := Window(db.rows, stream, start, end);
    var best := SelectTop(db.weights, seen, limit);
    IsAnswer(db, seen, limit, best);
    win, top, sel := seen, best, Ends(seen) + best;
    var scanned;
    scanned, order := Scan(Union(seen, Ends(seen) + best));
    pts := SortByTime(scanned);
    SelectionRange(db.weights, seen, limit, sel);
    PointsOfRows(seen, sel, order, pts);
  }

  /** Turns each row into a point, in whatever order the rows come. */
  method Scan(rows: set<(real, int)>) returns (pts: seq<Point>, ghost order: seq<(real, int)>)
    ensures forall x :: x in order <==> x in rows
    ensures forall i, j :: 0 <= i < j < |order| ==> order[i] != order[j]
    ensures pts == Points(order)
  {
    var rest := rows;
    order := [];
    pts := [];
    while rest != {}
      invariant forall x :: x in order || x in rest <==> x in rows
      invariant forall x :: x in order ==> x !in rest
      invariant forall i, j :: 0 <= i < j < |order| ==> order[i] != order[j]
      invariant pts == Points(order)
      decreases rest
    {
      var row :| row in rest;
      rest := rest - {row};
      pts := pts + [ToPoint(row.0, row.1)];
      order := order + [row];
    }
  }

  lemma WindowExactly(rows: seq<Row>, stream: Stream, start: int, end: int)
    ensures RowsOf(Window(rows, stream, start, end), rows, stream, start, end)
    ensures DistinctIds(rows) ==> OldestFirst(Window(rows, stream, start, end))
  {
    SelectMembers(rows, (r: Row) => r.stream == stream && start <= r.at <= end);
    if DistinctIds(rows) {
      var win := Window(rows, stream, start, end);
      SelectSpec(rows, (r: Row) => r.stream == stream && start <= r.at <= end);
      hide Select;
      forall i, j | 0 <= i < j < |win| ensures Before(win[i], win[j]) {}
    }
  }

  lemma IsAnswer(db: Db, win: seq<Row>, limit: nat, top: set<nat>)
    requires Top(db.weights, win, limit, top)
    ensures Selection(db.weights, win, limit, Ends(win) + top) && Answer(db, win, limit, Ends(win) + top, top)
  {
  }

  lemma PointsOfRows(win: seq<Row>, sel: set<nat>, order: seq<(real, int)>, pts: seq<Point>)
    requires forall x :: x in order <==> x in Union(win, sel)
    requires multiset(pts) == multiset(Points(order)) && forall k <- sel :: k < |win|
    requires Sorted(pts)
    ensures PointsFor(pts, win, sel)
  {
    hide PointOf; hide ToPoint;
    forall p | p in pts ensures exists k: nat :: k in sel && k < |win| && PointOf(p, win[k]) {
      assert p in multiset(Points(order));
      var i :| 0 <= i < |order| && Points(order)[i] == p;
      assert order[i] in order;
      var k :| k in sel && k < |win| && order[i] == (win[k].value, win[k].at);
      ToPointIsPointOf(win[k]);
    }
    forall k | k in sel ensures exists p <- pts :: PointOf(p, win[k]) {
      assert (win[k].value, win[k].at) in Union(win, sel);
      var i :| 0 <= i < |order| && order[i] == (win[k].value, win[k].at);
      ToPointIsPointOf(win[k]);
      assert Points(order)[i] in multiset(Points(order));
      assert Points(order)[i] in pts;
    }
  }

  function Points(rows: seq<(real, int)>): (pts: seq<Point>)
    ensures |pts| == |rows|
  {
    seq(|rows|, i requires 0 <= i < |rows| => ToPoint(rows[i].0, rows[i].1))
  }

  // ---- The line the chart draws, over rank ----

  /** The nearest selected rank at or before k (or 0), and at or after k (or the last). */
  function Prev(sel: set<nat>, k: nat): (a: nat)
    ensures a <= k && (a in sel || a == 0) && forall j: nat :: a < j <= k ==> j !in sel
  {
    if k in sel || k == 0 then k else Prev(sel, k - 1)
  }

  function Next(sel: set<nat>, k: nat, n: nat): (b: nat)
    requires k < n
    ensures k <= b < n && (b in sel || b == n - 1) && forall j: nat :: k <= j < b ==> j !in sel
    decreases n - k
  {
    if k in sel || k == n - 1 then k else Next(sel, k + 1, n)
  }

  /** The polyline through the selected ranks of v, at rank k. */
  function Drawn(v: seq<real>, sel: set<nat>, k: nat): real
    requires k < |v|
  {
    var a, b := Prev(sel, k), Next(sel, k, |v|);
    if a == b then v[a] else Line(a, v[a], b, v[b], k)
  }

  function Floored(v: seq<real>): (w: seq<real>)
    ensures |w| == |v|
  {
    seq(|v|, k requires 0 <= k < |v| => Floor3(v[k]))
  }

  // ---- Error bounds ----

  /** The ranks whose stored weight exceeds tau. */
  ghost function Heavy(weights: map<nat, real>, win: seq<Row>, tau: real): set<nat> {
    set k: nat | k < |win| && Stored(weights, win[k].id) > tau
  }

  /** No row of the window that is left out weighs more than eps. */
  ghost predicate LeftOutWithin(weights: map<nat, real>, win: seq<Row>, sel: set<nat>, eps: real) {
    forall k: nat :: k < |win| && k !in sel ==> Stored(weights, win[k].id) <= eps
  }

  /** If no more rows than the limit exceed tau, none of those is left out. */
  lemma UnselectedIsLight(weights: map<nat, real>, win: seq<Row>, limit: nat, sel: set<nat>, tau: real)
    requires Selection(weights, win, limit, sel) && tau >= 0.0
    requires |Heavy(weights, win, tau)| <= limit
    ensures LeftOutWithin(weights, win, sel, tau)
  {
    var top :| Top(weights, win, limit, top) && sel == Ends(win) + top;
    var heavy := Heavy(weights, win, tau);
    forall k: nat | k < |win| && k !in sel ensures Stored(weights, win[k].id) <= tau {
      if k in heavy {
        assert |top| == limit && |top + {k}| == limit + 1;
        assert top + {k} <= heavy;
        Bigger(top + {k}, heavy);
        assert false;
      }
    }
  }

  lemma Bigger(a: set<nat>, b: set<nat>)
    requires a <= b
    ensures |a| <= |b|
  {
    assert b == a + (b - a);
  }

  /** Samples a to b of the window are a block of a series some pass covers. */
  ghost predicate GapCovered(db: Db, win: seq<Row>, a: nat, b: nat) {
    exists series: seq<Row>, p: nat :: GapIn(db, win, a, b, series, p)
  }

  ghost predicate GapIn(db: Db, win: seq<Row>, a: nat, b: nat, series: seq<Row>, p: nat) {
    && a <= b < |win| && p + (b - a) < |series| && Covered(db, series)
    && forall j :: a <= j <= b ==> series[j - a + p] == win[j]
  }

  lemma GapWithin(db: Db, win: seq<Row>, a: nat, b: nat, k: nat, tau: real)
    requires a < k < b < |win| && GapCovered(db, win, a, b) && tau >= 0.0
    requires forall r <- win :: r in db.rows
    requires forall j :: a < j < b ==> Stored(db.weights, win[j].id) <= tau
    ensures Abs(win[k].value - Line(a, win[a].value, b, win[b].value, k)) <= 2.0 * tau
  {
    hide Line; hide Weight; hide Covered;
    var series, p: nat :| GapIn(db, win, a, b, series, p);
    var y, c := Values(series), p - a;
    LightInSeries(db, win, a, b, series, p, tau);
    GapBound(y, 0, |y| - 1, p, b + c, k + c, tau);
    assert series[a - a + p] == win[a] && series[b - a + p] == win[b] && series[k - a + p] == win[k];
    LineShift(a, win[a].value, b, win[b].value, k, c);
  }

  lemma LightInSeries(db: Db, win: seq<Row>, a: nat, b: nat, series: seq<Row>, p: nat, tau: real)
    requires a < b < |win| && GapIn(db, win, a, b, series, p)
    requires forall r <- win :: r in db.rows
    requires forall j :: a < j < b ==> Stored(db.weights, win[j].id) <= tau
    ensures LightGap(Values(series), 0, |series| - 1, p, p + (b - a), tau)
  {
    hide Weight;
    var y, n: nat, end := Values(series), |series| - 1, p + (b - a);
    forall j: nat | p < j < end ensures Weight(y, 0, n, j) <= tau {
      var h := j - p + a;
      assert series[h - a + p] == win[h];
    }
  }

  /** If sample k is left out, the drawn samples around it and what lies between them are in
      one pass's series. */
  ghost predicate GapAroundCovered(db: Db, win: seq<Row>, sel: set<nat>, k: nat)
    requires k < |win|
  {
    k !in sel ==> GapCovered(db, win, Prev(sel, k), Next(sel, k, |win|))
  }

  lemma DrawnGap(win: seq<Row>, sel: set<nat>, k: nat) returns (a: nat, b: nat)
    requires k < |win| && Ends(win) <= sel
    ensures k in sel ==> a == k == b
    ensures k !in sel ==> a < k < b < |win| && a in sel && b in sel && forall j: nat :: a < j < b ==> j !in sel
    ensures a == Prev(sel, k) && b == Next(sel, k, |win|)
  {
    a, b := Prev(sel, k), Next(sel, k, |win|);
    if k !in sel {
      assert 0 in sel && |win| - 1 in sel;
      assert k != 0 && k != |win| - 1;
    }
  }

  /** The bound: whatever rows are drawn besides the two ends, if none left out weighs more
      than eps, the line misses a row whose gap is covered by at most 2 eps; drawn through
      the floored values, it misses by less than 0.001 more. */
  lemma WindowBound(db: Db, win: seq<Row>, sel: set<nat>, eps: real, k: nat)
    requires forall r <- win :: r in db.rows
    requires Ends(win) <= sel && LeftOutWithin(db.weights, win, sel, eps) && eps >= 0.0
    requires k < |win| && GapAroundCovered(db, win, sel, k)
    ensures Abs(win[k].value - Drawn(Values(win), sel, k)) <= 2.0 * eps
    ensures Abs(win[k].value - Drawn(Floored(Values(win)), sel, k)) < 2.0 * eps + 0.001
  {
    var v := Values(win);
    var a, b := DrawnGap(win, sel, k);
    if k !in sel { GapWithin(db, win, a, b, k, eps); }
    FlooredLine(v, sel, k);
  }

  lemma FlooredLine(v: seq<real>, sel: set<nat>, k: nat)
    requires k < |v|
    ensures Abs(Drawn(Floored(v), sel, k) - Drawn(v, sel, k)) < 0.001
  {
    var a, b := Prev(sel, k), Next(sel, k, |v|);
    Floor3Close(v[a]);
    Floor3Close(v[b]);
    if a != b {
      var p, q := v[a] - Floor3(v[a]), v[b] - Floor3(v[b]);
      LineMoves(a, b, k, v[a], v[b], Floor3(v[a]), Floor3(v[b]), if p < q then q else p);
    }
  }

  ghost function WeightedRanks(weights: map<nat, real>, win: seq<Row>): set<nat> {
    set k: nat | k < |win| && win[k].id in weights
  }

  /** When every weighted row is drawn, nothing is lost: the line is exact. */
  lemma Lossless(db: Db, win: seq<Row>, sel: set<nat>, k: nat)
    requires forall r <- win :: r in db.rows
    requires Ends(win) <= sel && WeightedRanks(db.weights, win) <= sel
    requires k < |win| && GapAroundCovered(db, win, sel, k)
    ensures win[k].value == Drawn(Values(win), sel, k)
  {
    hide Drawn; hide GapAroundCovered; hide Ends;
    WindowBound(db, win, sel, 0.0, k);
  }

  /** The query returns every weighted row of a window that has no more than the limit. */
  lemma AllWeightedReturned(weights: map<nat, real>, win: seq<Row>, limit: nat, sel: set<nat>)
    requires Selection(weights, win, limit, sel) && |WeightedRanks(weights, win)| <= limit
    ensures WeightedRanks(weights, win) <= sel
  {
    var top :| Top(weights, win, limit, top) && sel == Ends(win) + top;
    var all := WeightedRanks(weights, win);
    forall k | k in all ensures k in sel {
      if k !in top {
        assert |top + {k}| == limit + 1;
        Bigger(top + {k}, all);
        assert false;
      }
    }
  }

  lemma SelectionRange(weights: map<nat, real>, win: seq<Row>, limit: nat, sel: set<nat>)
    requires Selection(weights, win, limit, sel)
    ensures Ends(win) <= sel && forall k <- sel :: k < |win|
  {
  }

  // ---- Over whole runs ----

  /** Some pass of the run spans the times lo to hi. */
  ghost predicate Spanned(db: Db, ops: seq<Op>, stream: Stream, lo: int, hi: int) {
    exists i: nat, j: nat :: Spans(db, ops, i, j, stream, lo, hi)
  }

  /** If sample k is left out, some pass spans the drawn samples around it. */
  ghost predicate GapAroundSpanned(db: Db, ops: seq<Op>, stream: Stream, win: seq<Row>, sel: set<nat>, k: nat)
    requires k < |win|
  {
    k !in sel ==> Spanned(db, ops, stream, win[Prev(sel, k)].at, win[Next(sel, k, |win|)].at)
  }

  lemma NarrowerSpanned(db: Db, ops: seq<Op>, stream: Stream, lo: int, hi: int, lo': int, hi': int)
    requires Spanned(db, ops, stream, lo, hi) && lo <= lo' && hi' <= hi
    ensures Spanned(db, ops, stream, lo', hi')
  {
    var i: nat, j: nat :| Spans(db, ops, i, j, stream, lo, hi);
    NarrowerSpan(db, ops, i, j, stream, lo, hi, lo', hi');
  }

  lemma SpannedGap(db: Db, ops: seq<Op>, stream: Stream, start: int, end: int, after: Db, win: seq<Row>, a: nat, b: nat)
    requires Valid(db) && AllowedAll(db, ops) && after == ApplyAll(db, ops)
    requires win == Window(after.rows, stream, start, end) && a < b < |win|
    requires Spanned(db, ops, stream, win[a].at, win[b].at)
    ensures GapCovered(after, win, a, b)
  {
    hide Window; hide Valid; hide Covered;
    assert ops[..|ops|] == ops;
    var i: nat, j: nat :| Spans(db, ops, i, j, stream, win[a].at, win[b].at);
    RunValid(db, ops);
    RunCovers(db, ops, j, |ops|, stream);
    var from := RunHolds(db, ops, i, j, |ops|, stream, win[a].at, win[b].at);
    var p := SpanIsBlock(after, ops[j].series, stream, from, start, end, win, a, b);
    assert GapIn(after, win, a, b, ops[j].series, p);
  }

  /** End to end: after any run of inserts, retention and passes, in any order, and for any
      window and any selection the query may make, a row is missed by at most twice the
      largest stored weight that was left out, if it is drawn or some pass spans the drawn
      rows around it. */
  lemma ChartBound(db: Db, ops: seq<Op>, stream: Stream, start: int, end: int,
                   after: Db, win: seq<Row>, limit: nat, sel: set<nat>, eps: real, k: nat)
    requires Valid(db) && AllowedAll(db, ops) && after == ApplyAll(db, ops)
    requires win == Window(after.rows, stream, start, end)
    requires Selection(after.weights, win, limit, sel) && LeftOutWithin(after.weights, win, sel, eps) && eps >= 0.0
    requires k < |win| && GapAroundSpanned(db, ops, stream, win, sel, k)
    ensures Abs(win[k].value - Drawn(Values(win), sel, k)) <= 2.0 * eps
    ensures Abs(win[k].value - Drawn(Floored(Values(win)), sel, k)) < 2.0 * eps + 0.001
  {
    hide Drawn; hide Window; hide Spanned; hide GapCovered; hide LeftOutWithin;
    RunValid(db, ops);
    WindowRows(after, stream, start, end);
    SelectionRange(after.weights, win, limit, sel);
    var a, b := DrawnGap(win, sel, k);
    if k !in sel { SpannedGap(db, ops, stream, start, end, after, win, a, b); }
    WindowBound(after, win, sel, eps, k);
  }

  /** If one pass, full or tail, spans the whole window and at most `limit` of its rows weigh
      more than tau, no row is missed by more than 2 tau. */
  lemma OnePassBound(db: Db, ops: seq<Op>, stream: Stream, start: int, end: int,
                     after: Db, win: seq<Row>, limit: nat, sel: set<nat>, tau: real, k: nat)
    requires Valid(db) && AllowedAll(db, ops) && after == ApplyAll(db, ops)
    requires win == Window(after.rows, stream, start, end) && Spanned(db, ops, stream, start, end)
    requires Selection(after.weights, win, limit, sel) && k < |win|
    requires tau >= 0.0 && |Heavy(after.weights, win, tau)| <= limit
    ensures Abs(win[k].value - Drawn(Values(win), sel, k)) <= 2.0 * tau
    ensures Abs(win[k].value - Drawn(Floored(Values(win)), sel, k)) < 2.0 * tau + 0.001
  {
    hide Drawn; hide Window; hide Heavy;
    UnselectedIsLight(after.weights, win, limit, sel, tau);
    SpanCoversGaps(db, ops, stream, start, end, after, win, sel, k);
    ChartBound(db, ops, stream, start, end, after, win, limit, sel, tau, k);
  }

  /** Such a window with at most `limit` weighted rows is drawn exactly. */
  lemma LosslessWindow(db: Db, ops: seq<Op>, stream: Stream, start: int, end: int,
                       after: Db, win: seq<Row>, limit: nat, sel: set<nat>, k: nat)
    requires Valid(db) && AllowedAll(db, ops) && after == ApplyAll(db, ops)
    requires win == Window(after.rows, stream, start, end) && Spanned(db, ops, stream, start, end)
    requires Selection(after.weights, win, limit, sel) && k < |win|
    requires |WeightedRanks(after.weights, win)| <= limit
    ensures win[k].value == Drawn(Values(win), sel, k)
  {
    hide Drawn; hide Window; hide Spanned;
    AllWeightedReturned(after.weights, win, limit, sel);
    SpanCoversGaps(db, ops, stream, start, end, after, win, sel, k);
    ChartBound(db, ops, stream, start, end, after, win, limit, sel, 0.0, k);
  }

  lemma SpanCoversGaps(db: Db, ops: seq<Op>, stream: Stream, start: int, end: int,
                       after: Db, win: seq<Row>, sel: set<nat>, k: nat)
    requires Valid(db) && AllowedAll(db, ops) && after == ApplyAll(db, ops) && k < |win|
    requires win == Window(after.rows, stream, start, end) && Spanned(db, ops, stream, start, end)
    ensures GapAroundSpanned(db, ops, stream, win, sel, k)
  {
    hide Window; hide Spanned;
    RunValid(db, ops);
    WindowRows(after, stream, start, end);
    var a, b := Prev(sel, k), Next(sel, k, |win|);
    assert win[a] in win && win[b] in win;
    NarrowerSpanned(db, ops, stream, start, end, win[a].at, win[b].at);
  }

  /** How a full pass and the tail passes after it combine: two passes that meet at a drawn
      row span every gap between them. */
  lemma TwoPassesSpan(db: Db, ops: seq<Op>, stream: Stream,
                      start: int, end: int, after: Db, win: seq<Row>, sel: set<nat>, join: nat, k: nat)
    requires Valid(db) && AllowedAll(db, ops) && after == ApplyAll(db, ops) && k < |win|
    requires win == Window(after.rows, stream, start, end) && join < |win| && join in sel && Ends(win) <= sel
    requires Spanned(db, ops, stream, start, win[join].at)
    requires Spanned(db, ops, stream, win[join].at, win[Next(sel, k, |win|)].at)
    ensures GapAroundSpanned(db, ops, stream, win, sel, k)
  {
    hide Window; hide Spanned;
    RunValid(db, ops);
    WindowRows(after, stream, start, end);
    if k !in sel {
      var a, b := DrawnGap(win, sel, k);
      assert win[a] in win && win[b] in win;
      if b <= join {
        if b < join { OrderedPair(win, b, join); }
        NarrowerSpanned(db, ops, stream, start, win[join].at, win[a].at, win[b].at);
      } else {
        if join < a { OrderedPair(win, join, a); }
        NarrowerSpanned(db, ops, stream, win[join].at, win[b].at, win[a].at, win[b].at);
      }
    }
  }
}
