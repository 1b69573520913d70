/** Where the chart bound stops: for every limit, a run after which a window across the peak a
    tail pass started from is drawn without that peak and misses it by more than the bound. */
module ChartLimits {
  import opened Chord
  import opened CalculateWeights
  import opened SplitTree
  import opened Tables
  import opened Coverage
  import opened Transactions
  import opened Chart
  import opened LiveChart

  const STREAM := Stream(1, "temperature")

  /** n readings that swing wildly; more than a quarter of an hour later, flat, a step up, and
      then a steady fall. The full pass sees the first n + 5 of them. */
  function Height(n: nat, k: nat): real {
    if k < n then (if k % 2 == 0 then 100.0 else -100.0)
    else if k < n + 3 then 0.0 else (n + 4 - k) as real
  }

  function R(n: nat, k: nat): Row {
    Row(k + 1, STREAM, Height(n, k), if k <= n then k else k + QUARTER_HOUR)
  }

  function Block(n: nat, p: nat, len: nat): (rows: seq<Row>)
    ensures |rows| == len && forall i :: 0 <= i < len ==> rows[i] == R(n, p + i)
    ensures InOrder(rows) && DistinctIds(rows)
  {
    var rows := seq(len, i requires 0 <= i < len => R(n, p + i));
    assert forall i :: 0 <= i < len ==> rows[i] == R(n, p + i);
    rows
  }

  lemma BlockMember(n: nat, p: nat, len: nat, r: Row)
    ensures r in Block(n, p, len) <==> p < r.id <= p + len && r == R(n, r.id - 1)
  {
    if p < r.id <= p + len && r == R(n, r.id - 1) {
      assert Block(n, p, len)[r.id - 1 - p] == r;
    }
  }

  // ---- The weights the full pass computes ----

  function Seen(n: nat): (y: seq<real>)
    ensures |y| == n + 5 && forall k :: 0 <= k < n + 5 ==> y[k] == Height(n, k)
  {
    Values(Block(n, 0, n + 5))
  }

  // Each swing stands out between its neighbours, so it must weigh a lot.
  lemma SwingsAreHeavy(n: nat, k: nat)
    requires 1 <= k <= n
    ensures Weight(Seen(n), 0, n + 4, k) > 1.0
  {
    hide Dev; hide Weight; hide Height; hide Seen;
    var y, r := Seen(n), n + 4;
    SwingStandsOut(n, y, k);
    StandsOut(y, 0, r, k);
  }

  lemma SwingStandsOut(n: nat, y: seq<real>, k: nat)
    requires 1 <= k <= n && y == Seen(n)
    ensures Dev(y, k - 1, k + 1, k) > 2.0
  {
    var u, v := Height(n, k - 1), Height(n, k + 1);
    LineIsMean(k - 1, u, k + 1, v, k);
    assert Frac(k - 1, k + 1, k) == 0.5;
    hide Line; hide Frac;
    assert if k < n then Abs(Height(n, k)) == 100.0 && u == -Height(n, k) && (v == u || v == 0.0)
           else Height(n, k) == 0.0 && Abs(u) == 100.0 && v == 0.0;
  }

  // Over an interval that starts at a swing the chord runs down from it to 0.
  lemma SwingChord(n: nat, y: seq<real>, l: nat, r: nat, k: nat)
    requires y == Seen(n) && r == n + 4 && l < n && l < k < r
    ensures Dev(y, l, r, k) == Abs(Height(n, k) - (1.0 - Frac(l, r, k)) * Height(n, l))
  {
    assert Height(n, r) == 0.0;
    hide Frac; hide Line; hide Height; hide Seen;
    var h, f := Height(n, l), Frac(l, r, k);
    LineIsMean(l, h, r, 0.0, k);
    RunsDown(h, f);
  }

  lemma RunsDown(h: real, f: real)
    ensures h + f * (0.0 - h) == (1.0 - f) * h
  {
  }

  lemma Later(l: int, r: int, j: int, k: int)
    requires l < j < k < r
    ensures 0.0 < Frac(l, r, j) < Frac(l, r, k) < 1.0
    ensures r == l + 5 && j == l + 1 ==> Frac(l, r, j) == 0.2 && Frac(l, r, k) >= 0.4
  {
    var d, j', k' := (r - l) as real, (j - l) as real, (k - l) as real;
    DivFacts(j', d, j' / d);
    DivFacts(k', d, k' / d);
  }

  // Its second reading is farther from that chord than any reading of the flat part.
  lemma SwingBeatsFlat(n: nat, y: seq<real>, l: nat, r: nat, k: nat)
    requires y == Seen(n) && r == n + 4 && l < n < k < r
    ensures Dev(y, l, r, k) < Dev(y, l, r, l + 1)
  {
    SwingChord(n, y, l, r, l + 1);
    SwingChord(n, y, l, r, k);
    Later(l, r, l + 1, k);
    var f, g, h, a, b := Frac(l, r, l + 1), Frac(l, r, k), Height(n, l), Height(n, l + 1), Height(n, k);
    assert 0.0 <= b <= 1.0 && (h == 100.0 || h == -100.0);
    assert if l + 1 < n then a == -h else a == 0.0 && r == l + 5;
    hide Frac; hide Dev; hide Height; hide Seen;
    Beats(f, g, h, a, b);
  }

  lemma Beats(f: real, g: real, h: real, a: real, b: real)
    requires 0.0 < f < g < 1.0 && 0.0 <= b <= 1.0 && (h == 100.0 || h == -100.0)
    requires a == -h || (a == 0.0 && f == 0.2 && g >= 0.4)
    ensures Abs(b - (1.0 - g) * h) < Abs(a - (1.0 - f) * h)
  {
  }

  // So it is split before the flat part is entered.
  lemma SwingsSplitFirst(n: nat, l: nat)
    requires l < n
    ensures l < Split(Seen(n), l, n + 4) <= n
  {
    var y, r, i := Seen(n), n + 4, Split(Seen(n), l, n + 4);
    assert Dev(y, l, r, l + 1) <= Dev(y, l, r, i);
    if i > n { SwingBeatsFlat(n, y, l, r, i); }
  }

  lemma {:induction false} FlatPartIsNode(n: nat, l: nat)
    requires l <= n
    ensures Node(Seen(n), l, n + 4, n, n + 4)
    decreases n - l
  {
    if l < n {
      SwingsSplitFirst(n, l);
      hide Split;
      FlatPartIsNode(n, Split(Seen(n), l, n + 4));
    }
  }

  lemma FlatDev(n: nat, y: seq<real>, k: nat)
    requires y == Seen(n) && n < k
    ensures k < n + 4 ==> Dev(y, n, n + 4, k) == Height(n, k)
    ensures k < n + 3 ==> Dev(y, n, n + 3, k) == (k - n) as real / 3.0
    ensures k < n + 2 ==> Dev(y, n, n + 2, k) == 0.0
  {
    if k < n + 4 { LineIsMean(n, 0.0, n + 4, 0.0, k); }
    if k < n + 3 { LineIsMean(n, 0.0, n + 3, 1.0, k); }
    if k < n + 2 { LineIsMean(n, 0.0, n + 2, 0.0, k); }
  }

  lemma FlatPartTree(n: nat, y: seq<real>)
    requires y == Seen(n)
    ensures Weight(y, n, n + 4, n + 1) <= 1.0 && Weight(y, n, n + 4, n + 2) <= 1.0 && Weight(y, n, n + 4, n + 3) == 1.0
  {
    FlatDev(n, y, n + 1);
    FlatDev(n, y, n + 2);
    FlatDev(n, y, n + 3);
    hide Dev; hide Seen;
    assert Split(y, n, n + 4) == n + 3;
    assert Split(y, n, n + 3) == n + 2;
    assert Split(y, n, n + 2) == n + 1;
    hide Split;
    assert Weight(y, n, n + 4, n + 2) == Weight(y, n, n + 3, n + 2) == Err(y, n, n + 3);
    assert Weight(y, n, n + 4, n + 1) == Weight(y, n, n + 3, n + 1) == Weight(y, n, n + 2, n + 1);
  }

  ghost predicate FullWeights(n: nat, ws: seq<real>) {
    && |ws| == n + 5 && ws[0] == 0.0 && ws[n + 3] == 1.0 && ws[n + 4] == 0.0
    && (forall k :: 1 <= k <= n ==> ws[k] > 1.0)
    && (forall k :: n < k < n + 5 ==> 0.0 <= ws[k] <= 1.0)
  }

  lemma FullPassWeights(n: nat, ws: seq<real>)
    requires ws == TreeWeights(Seen(n))
    ensures FullWeights(n, ws)
  {
    hide Node; hide Seen; hide Split; hide Err; hide Weight; hide Height;
    var y, r: nat := Seen(n), n + 4;
    assert |ws| == n + 5 && forall k: nat :: k <= r ==> ws[k] == Weight(y, 0, r, k);
    hide TreeWeights;
    OutsideWeighsNothing(y, r);
    FlatWeights(n, y);
    forall k: nat | 1 <= k <= n ensures ws[k] > 1.0 { SwingsAreHeavy(n, k); }
  }

  lemma FlatWeights(n: nat, y: seq<real>)
    requires y == Seen(n)
    ensures Weight(y, 0, n + 4, n + 1) <= 1.0 && Weight(y, 0, n + 4, n + 2) <= 1.0 && Weight(y, 0, n + 4, n + 3) == 1.0
  {
    hide Node; hide Seen; hide Weight; hide Height;
    var r: nat := n + 4;
    FlatPartIsNode(n, 0);
    FlatPartTree(n, y);
    NodeWeight(y, 0, r, n, r, n + 1);
    NodeWeight(y, 0, r, n, r, n + 2);
    NodeWeight(y, 0, r, n, r, n + 3);
  }

  lemma OutsideWeighsNothing(y: seq<real>, r: nat)
    requires 0 < r < |y|
    ensures Weight(y, 0, r, 0) == 0.0 && Weight(y, 0, r, r) == 0.0
  {
  }

  /** What it leaves stored: the swings outweigh the step, and nothing else weighs more. */
  ghost predicate Stores(n: nat, w: map<nat, real>) {
    && (forall id <- w :: 0.0 < w[id] && 2 <= id <= n + 4)
    && (forall id: nat :: 2 <= id <= n + 1 ==> id in w && w[id] > 1.0)
    && (forall id <- w :: id > n + 1 ==> w[id] <= 1.0)
    && n + 4 in w && w[n + 4] == 1.0
  }

  lemma FullPassStores(n: nat, ws: seq<real>)
    requires FullWeights(n, ws)
    ensures Stores(n, Upsert(map[], Block(n, 0, n + 5), ws, false))
  {
    var rows := Block(n, 0, n + 5);
    var w := Upsert(map[], rows, ws, false);
    assert forall k :: 0 <= k < |ws| ==> ws[k] >= 0.0;
    assert forall k :: 0 <= k < |rows| ==> rows[k].id == k + 1;
    hide Upsert; hide FullWeights; hide Stores; hide Block;
    UpsertPositive(map[], rows, ws, false);
    forall k: nat | k < n + 5 ensures Stored(w, k + 1) == ws[k] { UpsertAt(map[], rows, ws, false, k); }
    forall id | id in w ensures 1 <= id <= n + 5 && w[id] == ws[id - 1] > 0.0 {
      var r :| r in rows && r.id == id;
      assert Stored(w, (id - 1) + 1) == ws[id - 1];
    }
    forall id: nat | 1 <= id <= n + 5 && ws[id - 1] > 0.0 ensures id in w {
      assert Stored(w, (id - 1) + 1) == ws[id - 1];
    }
    StoresFrom(n, ws, w);
  }

  lemma StoresFrom(n: nat, ws: seq<real>, w: map<nat, real>)
    requires FullWeights(n, ws)
    requires forall id <- w :: 1 <= id <= n + 5 && w[id] == ws[id - 1] > 0.0
    requires forall id: nat :: 1 <= id <= n + 5 && ws[id - 1] > 0.0 ==> id in w
    ensures Stores(n, w)
  {
  }

  // ---- The tail pass ----

  // Over the steady fall it finds nothing to weigh.
  lemma TailPassWeights(n: nat, tail: seq<Row>)
    requires tail == Block(n, n + 3, 5)
    ensures forall k :: 0 <= k < 5 ==> TreeWeights(Values(tail))[k] == 0.0
  {
    assert forall k :: 0 <= k < 5 ==> tail[k].value == 1.0 - k as real;
    hide Block; hide Height;
    StraightTail(Values(tail));
  }

  lemma StraightTail(y: seq<real>)
    requires |y| == 5 && forall k :: 0 <= k < 5 ==> y[k] == 1.0 - k as real
    ensures forall k :: 0 <= k < 5 ==> TreeWeights(y)[k] == 0.0
  {
    forall k: nat | k <= 4 ensures y[k] == Chord.At(y, 0, 4, k) { SteadyFall(k); }
    hide Chord.Line;
    ZeroIsCollinear(y, 0, 4);
    OutsideWeighsNothing(y, 4);
    hide Weight;
    forall k: nat | k <= 4 ensures TreeWeights(y)[k] == 0.0 { assert TreeWeights(y)[k] == Weight(y, 0, 4, k); }
  }

  lemma SteadyFall(k: int)
    ensures Line(0, 1.0, 4, -3.0, k) == 1.0 - k as real
  {
  }

  lemma StepIsPeak(n: nat, grown: Db)
    requires grown.rows == Block(n, 0, n + 8) && Stores(n, grown.weights)
    ensures IsTail(grown, STREAM, Block(n, n + 3, 5))
  {
    var step := R(n, n + 3);
    assert grown.rows[n + 3] == step;
    assert Weighted(grown, STREAM, step);
    forall s | Weighted(grown, STREAM, s)
      ensures s.at <= step.at && (s.at > step.at - QUARTER_HOUR ==> grown.weights[s.id] <= 1.0)
    {
      BlockMember(n, 0, n + 8, s);
    }
    assert Peak(grown, STREAM, step, step);
    TailOfBlock(n);
  }

  lemma TailOfBlock(n: nat)
    ensures FromId(Block(n, 0, n + 8), STREAM, n + 4) == Block(n, n + 3, 5)
  {
    var all, tail := Block(n, 0, n + 8), Block(n, n + 3, 5);
    SelectSpec(all, (r: Row) => r.stream == STREAM && r.id >= n + 4);
    hide Select; hide Block;
    forall r ensures r in tail <==> r in all && r.stream == STREAM && r.id >= n + 4 {
      BlockMember(n, 0, n + 8, r);
      BlockMember(n, n + 3, 5, r);
    }
    OrderUnique(FromId(all, STREAM, n + 4), tail);
  }

  lemma WholeStream(n: nat, len: nat, end: int)
    requires end >= len + QUARTER_HOUR
    ensures Fetch(Block(n, 0, len), STREAM) == Block(n, 0, len) == Window(Block(n, 0, len), STREAM, 0, end)
  {
    var rows := Block(n, 0, len);
    SelectSpec(rows, (r: Row) => r.stream == STREAM);
    SelectSpec(rows, (r: Row) => r.stream == STREAM && 0 <= r.at <= end);
    forall r | r in rows ensures r.stream == STREAM && 0 <= r.at <= end { BlockMember(n, 0, len, r); }
    hide Select;
    OrderUnique(Fetch(rows, STREAM), rows);
    OrderUnique(Window(rows, STREAM, 0, end), rows);
  }

  // ---- The run ----

  function Arrival(n: nat, k: nat): Op {
    Append(STREAM, Height(n, k), R(n, k).at)
  }

  /** A full transaction, three more readings, and the tail transaction after them. */
  function Straddling(n: nat): seq<Op> {
    [Retain(0), Pass(Block(n, 0, n + 5), true),
     Arrival(n, n + 5), Arrival(n, n + 6), Arrival(n, n + 7),
     Retain(0), Pass(Block(n, n + 3, 5), false)]
  }

  function FullOne(n: nat): Transaction {
    Transaction(0, WEEK, [STREAM], [Block(n, 0, n + 5)], true)
  }

  function TailOne(n: nat): Transaction {
    Transaction(5, WEEK, [STREAM], [Block(n, n + 3, 5)], false)
  }

  lemma Grows(n: nat, len: nat)
    ensures Block(n, 0, len) + [R(n, len)] == Block(n, 0, len + 1)
  {
  }

  lemma BlockWithin(n: nat, p: nat, len: nat, p': nat, len': nat)
    requires p' <= p && p + len <= p' + len'
    ensures forall r <- Block(n, p, len) :: r in Block(n, p', len')
  {
    forall r | r in Block(n, p, len) ensures r in Block(n, p', len') {
      BlockMember(n, p, len, r);
      BlockMember(n, p', len', r);
    }
  }

  lemma ArrivalsGrow(n: nat, db: Db, ops: seq<Op>, w: map<nat, real>, len: nat)
    requires AllowedAll(db, ops) && ApplyAll(db, ops) == Db(Block(n, 0, len), w, len + 1)
    ensures AllowedAll(db, ops + [Arrival(n, len)])
    ensures ApplyAll(db, ops + [Arrival(n, len)]) == Db(Block(n, 0, len + 1), w, len + 2)
  {
    Grows(n, len);
    hide Block;
    OneMoreStep(db, ops, Arrival(n, len));
  }

  lemma BlockValid(n: nat, len: nat)
    ensures Valid(Db(Block(n, 0, len), map[], len + 1)) && forall r <- Block(n, 0, len) :: r.at >= 0
  {
    forall r | r in Block(n, 0, len) ensures 0 < r.id < len + 1 && r.at >= 0 { BlockMember(n, 0, len, r); }
  }

  lemma AfterFull(n: nat, db: Db, w: map<nat, real>)
    requires db == Db(Block(n, 0, n + 5), map[], n + 6) && w == Apply(db, Pass(Block(n, 0, n + 5), true)).weights
    ensures Valid(db) && AllowedAll(db, Straddling(n)[..2]) && TablesAt(db, Straddling(n), 1) == db
    ensures ApplyAll(db, Straddling(n)[..2]) == Db(Block(n, 0, n + 5), w, n + 6)
  {
    var ops := Straddling(n);
    BlockValid(n, n + 5);
    RetainNothing(db, 0);
    hide Block; hide Arrival; hide Upsert; hide TreeWeights; hide Valid;
    OneMoreStep(db, [], ops[0]);
    assert [] + [ops[0]] == ops[..1] && ops[..1] + [ops[1]] == ops[..2];
    OneMoreStep(db, ops[..1], ops[1]);
  }

  lemma StraddlingRun(n: nat, db: Db, w: map<nat, real>)
    requires db == Db(Block(n, 0, n + 5), map[], n + 6) && w == Apply(db, Pass(Block(n, 0, n + 5), true)).weights
    ensures Valid(db) && AllowedAll(db, Straddling(n)) && TablesAt(db, Straddling(n), 1) == db
    ensures TablesAt(db, Straddling(n), 6) == Db(Block(n, 0, n + 8), w, n + 9)
    ensures ApplyAll(db, Straddling(n)) == Apply(Db(Block(n, 0, n + 8), w, n + 9), Pass(Block(n, n + 3, 5), false))
  {
    var ops, grown := Straddling(n), Db(Block(n, 0, n + 8), w, n + 9);
    AfterFull(n, db, w);
    BlockWithin(n, n + 3, 5, 0, n + 8);
    BlockValid(n, n + 8);
    assert ops[..2] + [ops[2]] == ops[..3] && ops[..3] + [ops[3]] == ops[..4] && ops[..4] + [ops[4]] == ops[..5];
    assert ops[..5] + [ops[5]] == ops[..6] && ops[..6] + [ops[6]] == ops;
    hide Arrival; hide Block; hide Apply; hide Valid;
    ArrivalsGrow(n, db, ops[..2], w, n + 5);
    ArrivalsGrow(n, db, ops[..3], w, n + 6);
    ArrivalsGrow(n, db, ops[..4], w, n + 7);
    RunValid(db, ops[..5]);
    RetainNothing(grown, 0);
    OneMoreStep(db, ops[..5], ops[5]);
    OneMoreStep(db, ops[..6], ops[6]);
  }

  // A transaction over the one stream.
  lemma OneFetched(start: Db, series: seq<Row>, full: bool)
    requires FetchedOne(start, STREAM, series, full) && |series| != 1
    ensures Fetched(start, [STREAM], [series], full)
  {
    hide FetchedOne; hide Apply;
    NoPasses(start, [], full);
    PassOne(start, [], [], full, STREAM, series);
    assert [] + [series] == [series] && [] + [STREAM] == [STREAM];
  }

  lemma OneCommits(db: Db, ops: seq<Op>, at: nat, series: seq<Row>, full: bool)
    requires at + 1 < |ops| && ops[at] == Retain(0) && ops[at + 1] == Pass(series, full) && |series| > 1
    requires FetchedOne(TablesAt(db, ops, at + 1), STREAM, series, full)
    ensures PassOver(db, ops, Transaction(at, WEEK, [STREAM], [series], full), 0, STREAM)
  {
    hide FetchedOne; hide TablesAt; hide Fetched;
    OneFetched(TablesAt(db, ops, at + 1), series, full);
  }

  lemma BlockIdsFollowTime(n: nat, len: nat)
    ensures IdsFollowTime(Block(n, 0, len), STREAM)
  {
    forall r, s | r in Block(n, 0, len) && s in Block(n, 0, len) && r.id < s.id ensures r.at < s.at {
      BlockMember(n, 0, len, r);
      BlockMember(n, 0, len, s);
    }
  }

  lemma BothCommit(n: nat, db: Db, w: map<nat, real>, ops: seq<Op>)
    requires db == Db(Block(n, 0, n + 5), map[], n + 6) && w == Apply(db, Pass(Block(n, 0, n + 5), true)).weights
    requires Stores(n, w) && ops == Straddling(n)
    ensures PassOver(db, ops, FullOne(n), 0, STREAM) && PassOver(db, ops, TailOne(n), 0, STREAM)
    ensures TablesAt(db, ops, 6).rows == Block(n, 0, n + 8)
  {
    hide Block; hide IsTail; hide Select; hide Valid; hide Apply; hide AllowedAll; hide Arrival; hide TablesAt; hide Stores;
    hide ApplyAll; hide PassOver; hide R;
    var full, tail := Block(n, 0, n + 5), Block(n, n + 3, 5);
    assert ops[0] == ops[5] == Retain(0) && ops[1] == Pass(full, true) && ops[6] == Pass(tail, false);
    StraddlingRun(n, db, w);
    hide Straddling;
    WholeStream(n, n + 5, n + 5 + QUARTER_HOUR);
    OneCommits(db, ops, 0, full, true);
    StepIsPeak(n, Db(Block(n, 0, n + 8), w, n + 9));
    OneCommits(db, ops, 5, tail, false);
  }

  lemma OnlyNewer(n: nat, ops: seq<Op>)
    requires ops == Straddling(n)
    ensures LastFull(ops, FullOne(n), STREAM)
    ensures Newer(ops, FullOne(n), STREAM, R(n, n + 4).at) && Newer(ops, TailOne(n), STREAM, R(n, n + 7).at)
  {
    hide Block;
    assert ops[2].Append? && ops[3].Append? && ops[4].Append?;
  }

  // The run is the worker's, in time order, and meets every premise of LiveChartBound but one.
  lemma StraddlingIsExtended(n: nat, db: Db, w: map<nat, real>)
    requires db == Db(Block(n, 0, n + 5), map[], n + 6) && w == Apply(db, Pass(Block(n, 0, n + 5), true)).weights
    requires Stores(n, w)
    ensures Extended(db, Straddling(n), FullOne(n), 0, TailOne(n), 0, STREAM)
  {
    var ops := Straddling(n);
    BlockIdsFollowTime(n, n + 8);
    var full, tail := Block(n, 0, n + 5), Block(n, n + 3, 5);
    assert full[n + 4] == R(n, n + 4) && tail[0] == R(n, n + 3) && tail[4] == R(n, n + 7);
    BothCommit(n, db, w, ops);
    OnlyNewer(n, ops);
    hide Block; hide Stores; hide TablesAt; hide Apply; hide IdsFollowTime; hide PassOver; hide Straddling; hide LastFull; hide Newer;
  }

  // ---- What the query draws ----

  /** The ranks of the readings that outweigh the step. */
  function Swings(n: nat): (s: set<nat>)
    ensures |s| == n && forall k: nat :: k in s <==> 1 <= k <= n
  {
    if n == 0 then {} else Swings(n - 1) + {n}
  }

  /** The first row, those, and the last row. */
  function Shown(n: nat): set<nat> {
    {0} + Swings(n) + {n + 7}
  }

  lemma SwingsOnTop(n: nat, w: map<nat, real>, win: seq<Row>, top: set<nat>)
    requires Stores(n, w) && win == Block(n, 0, n + 8) && Top(w, win, n, top)
    ensures Swings(n) <= top
  {
    assert forall k: nat :: k < n + 8 ==> win[k].id == k + 1;
    hide Block; hide Swings;
    forall h | h in Swings(n) ensures h in top {
      if h !in top {
        forall k | k in top ensures k in Swings(n) - {h} { assert w[win[h].id] <= w[win[k].id]; }
        Bigger(top, Swings(n) - {h});
        assert false;
      }
    }
  }

  lemma SwingsAreTop(n: nat, w: map<nat, real>, win: seq<Row>)
    requires Stores(n, w) && win == Block(n, 0, n + 8)
    ensures Top(w, win, n, Swings(n))
  {
    assert forall k: nat :: k < n + 8 ==> win[k].id == k + 1;
    hide Block; hide Swings;
    forall k | k in Swings(n) ensures win[k].id in w && w[win[k].id] > 1.0 {}
    forall h: nat | h < |win| && win[h].id in w && h !in Swings(n) ensures w[win[h].id] <= 1.0 {}
    hide Stores;
  }

  lemma NothingElse(n: nat, w: map<nat, real>, win: seq<Row>, top: set<nat>)
    requires Top(w, win, n, top) && Swings(n) <= top
    ensures top == Swings(n)
  {
    var swings := Swings(n);
    assert |top| <= n == |swings|;
    hide Top; hide Swings;
    if k :| k in top && k !in swings {
      assert |swings + {k}| == n + 1;
      Bigger(swings + {k}, top);
      assert false;
    }
  }

  lemma TopIsSwings(n: nat, w: map<nat, real>, win: seq<Row>, top: set<nat>)
    requires Stores(n, w) && win == Block(n, 0, n + 8)
    ensures Top(w, win, n, top) <==> top == Swings(n)
  {
    hide Stores; hide Block; hide Swings; hide Top;
    SwingsAreTop(n, w, win);
    if Top(w, win, n, top) {
      SwingsOnTop(n, w, win, top);
      NothingElse(n, w, win, top);
    }
  }

  lemma SelectionIsShown(n: nat, w: map<nat, real>, win: seq<Row>, sel: set<nat>)
    requires Stores(n, w) && win == Block(n, 0, n + 8)
    ensures Selection(w, win, n, sel) <==> sel == Shown(n)
  {
    hide Stores; hide Top; hide Block; hide Swings;
    assert Ends(win) + Swings(n) == Shown(n);
    if Selection(w, win, n, sel) {
      var top :| Top(w, win, n, top) && sel == Ends(win) + top;
      TopIsSwings(n, w, win, top);
    }
    TopIsSwings(n, w, win, Swings(n));
  }

  lemma OthersAreLight(n: nat, w: map<nat, real>, win: seq<Row>)
    requires Stores(n, w) && win == Block(n, 0, n + 8)
    ensures LeftOutWithin(w, win, Shown(n), 1.0)
  {
    forall k: nat | k < |win| && k !in Shown(n) ensures Stored(w, win[k].id) <= 1.0 {
      assert win[k].id == k + 1;
      assert k > n;
    }
  }

  lemma StepChord(n: nat)
    ensures Line(n, 0.0, n + 7, -3.0, n + 3) == -9.0 / 7.0
  {
    LineIsMean(n, 0.0, n + 7, -3.0, n + 3);
    assert Frac(n, n + 7, n + 3) == 3.0 / 7.0;
  }

  lemma StepGap(n: nat)
    ensures Prev(Shown(n), n + 3) == n && Next(Shown(n), n + 3, n + 8) == n + 7
  {
    assert forall k: nat :: k in Shown(n) <==> k <= n || k == n + 7;
    hide Shown; hide Swings; hide Prev; hide Next;
    var a, b := Prev(Shown(n), n + 3), Next(Shown(n), n + 3, n + 8);
    assert n in Shown(n);
  }

  lemma StepIsMissed(n: nat)
    ensures Abs(R(n, n + 3).value - Drawn(Values(Block(n, 0, n + 8)), Shown(n), n + 3)) > 2.0
  {
    var v := Values(Block(n, 0, n + 8));
    assert v[n] == 0.0 && v[n + 7] == -3.0 && R(n, n + 3).value == 1.0;
    hide Block; hide Height; hide Line; hide Shown; hide Prev; hide Next;
    StepGap(n);
    StepChord(n);
  }

  /** The row where two passes meet must be drawn. In this run of the worker, whatever the
      limit n, everything else that LiveChartBound asks for holds; but n older rows outweigh
      the step the tail pass starts from, so the one selection the query can make leaves it
      out. Nothing left out weighs more than 1, and yet the line misses the step by more
      than 2. */
  lemma StraddledPeakIsMissed(n: nat, db: Db, after: Db, end: int, sel: set<nat>)
    requires db == Db(Block(n, 0, n + 5), map[], n + 6) && after == ApplyAll(db, Straddling(n))
    requires end >= n + 8 + QUARTER_HOUR
    ensures Valid(db) && AllowedAll(db, Straddling(n))
    ensures Extended(db, Straddling(n), FullOne(n), 0, TailOne(n), 0, STREAM)
    ensures var win := Window(after.rows, STREAM, 0, end); var tail := TailOne(n).passes[0];
            && |win| == n + 8 && win[n + 3] == tail[0] && win[n + 7].at == Reach(tail)
            && (Selection(after.weights, win, n, sel) <==> sel == Shown(n)) && n + 3 !in Shown(n)
            && LeftOutWithin(after.weights, win, Shown(n), 1.0)
            && Abs(win[n + 3].value - Drawn(Values(win), Shown(n), n + 3)) > 2.0
  {
    var w := Apply(db, Pass(Block(n, 0, n + 5), true)).weights;
    hide Weight; hide Select; hide Drawn; hide Upsert; hide TreeWeights; hide Shown; hide Height; hide Stores; hide Apply;
    hide Selection; hide LeftOutWithin; hide Extended; hide Straddling; hide Block; hide AllowedAll; hide ApplyAll; hide Valid;
    FullLeaves(n, db, w);
    TailChangesNothing(n, w);
    StraddlingRun(n, db, w);
    StraddlingIsExtended(n, db, w);
    WholeStream(n, n + 8, end);
    SelectionIsShown(n, w, Block(n, 0, n + 8), sel);
    OthersAreLight(n, w, Block(n, 0, n + 8));
    StepIsMissed(n);
    StepNotShown(n);
  }

  lemma FullLeaves(n: nat, db: Db, w: map<nat, real>)
    requires db == Db(Block(n, 0, n + 5), map[], n + 6) && w == Apply(db, Pass(Block(n, 0, n + 5), true)).weights
    ensures Stores(n, w)
  {
    hide Block; hide TreeWeights; hide Upsert; hide Stores; hide FullWeights;
    FullPassWeights(n, TreeWeights(Seen(n)));
    FullPassStores(n, TreeWeights(Seen(n)));
  }

  lemma TailChangesNothing(n: nat, w: map<nat, real>)
    ensures var grown := Db(Block(n, 0, n + 8), w, n + 9); Apply(grown, Pass(Block(n, n + 3, 5), false)) == grown
  {
    hide Block; hide TreeWeights; hide Upsert;
    TailPassWeights(n, Block(n, n + 3, 5));
    UpsertNothing(w, Block(n, n + 3, 5), TreeWeights(Values(Block(n, n + 3, 5))), true);
  }

  lemma StepNotShown(n: nat)
    ensures n + 3 !in Shown(n)
  {
  }
}
