/** The two tables the optimizer and the chart share, sensor_data and
    sensor_data_weights, as values, with the statements that change them. */
module Tables {
  import opened CalculateWeights
  import opened SplitTree

  datatype Stream = Stream(device: int, sensor: string)

  /** A sensor_data row; `at` is received_at in microseconds. */
  datatype Row = Row(id: nat, stream: Stream, value: real, at: int)

  datatype Db = Db(rows: seq<Row>, weights: map<nat, real>, nextId: nat)

  /** Row ids are unique, below the sequence counter and never 0; every weight is
      positive and belongs to a row (the foreign key). */
  ghost predicate Valid(db: Db) {
    && DistinctIds(db.rows) && db.nextId > 0
    && (forall r <- db.rows :: 0 < r.id < db.nextId)
    && (forall id <- db.weights :: db.weights[id] > 0.0 && exists r :: r in db.rows && r.id == id)
  }

  ghost predicate DistinctIds(rows: seq<Row>) {
    forall i, j :: 0 <= i < j < |rows| ==> rows[i].id != rows[j].id
  }

  // ---- ORDER BY received_at, id ----

  predicate Before(r: Row, s: Row) {
    r.at < s.at || (r.at == s.at && r.id < s.id)
  }

  ghost predicate InOrder(rows: seq<Row>) {
    forall i, j :: 0 <= i < j < |rows| ==> Before(rows[i], rows[j])
  }

  function Insert(r: Row, sorted: seq<Row>): seq<Row> {
    if sorted == [] || Before(r, sorted[0]) then [r] + sorted
    else [sorted[0]] + Insert(r, sorted[1..])
  }

  function TimeOrder(rows: seq<Row>): seq<Row> {
    if rows == [] then [] else Insert(rows[0], TimeOrder(rows[1..]))
  }

  function Where(rows: seq<Row>, p: Row -> bool): seq<Row> {
    if rows == [] then []
    else if p(rows[0]) then [rows[0]] + Where(rows[1..], p)
    else Where(rows[1..], p)
  }

  lemma {:induction false} InsertSpec(r: Row, sorted: seq<Row>)
    requires InOrder(sorted) && forall s <- sorted :: s.id != r.id
    ensures InOrder(Insert(r, sorted))
    ensures forall s :: s in Insert(r, sorted) <==> s == r || s in sorted
  {
    if sorted != [] && !Before(r, sorted[0]) {
      var rest := sorted[1..];
      InsertSpec(r, rest);
      assert sorted == [sorted[0]] + rest;
      assert forall s :: s in Insert(r, rest) ==> Before(sorted[0], s);
    }
  }

  lemma {:induction false} TimeOrderSpec(rows: seq<Row>)
    requires DistinctIds(rows)
    ensures InOrder(TimeOrder(rows))
    ensures forall s :: s in TimeOrder(rows) <==> s in rows
  {
    if rows != [] {
      TimeOrderSpec(rows[1..]);
      assert rows == [rows[0]] + rows[1..];
      InsertSpec(rows[0], TimeOrder(rows[1..]));
    }
  }

  lemma {:induction false} WhereSpec(rows: seq<Row>, p: Row -> bool)
    ensures forall s :: s in Where(rows, p) <==> s in rows && p(s)
    ensures DistinctIds(rows) ==> DistinctIds(Where(rows, p))
  {
    if rows != [] {
      assert rows == [rows[0]] + rows[1..];
      WhereSpec(rows[1..], p);
      if DistinctIds(rows) {
        forall s | s in Where(rows[1..], p) ensures s.id != rows[0].id {
          var j :| 1 <= j < |rows| && rows[j] == s;
        }
      }
    }
  }

  lemma {:induction false} WhereAll(rows: seq<Row>, p: Row -> bool)
    requires forall r <- rows :: p(r)
    ensures Where(rows, p) == rows
  {
    if rows != [] {
      WhereAll(rows[1..], p);
      assert rows == [rows[0]] + rows[1..];
    }
  }

  /** ORDER BY leaves no freedom: an ordered list is determined by its rows. */
  lemma {:induction false} OrderUnique(a: seq<Row>, b: seq<Row>)
    requires InOrder(a) && InOrder(b)
    requires forall s :: s in a <==> s in b
    ensures a == b
  {
    assert |b| > 0 ==> b[0] in a;
    if a != [] {
      assert a[0] in b && b != [];
      assert b[0] in a;
      assert a[0] == b[0];
      var a', b' := a[1..], b[1..];
      assert a == [a[0]] + a' && b == [b[0]] + b';
      forall i | 1 <= i < |a| ensures a[i] != a[0] { assert Before(a[0], a[i]); }
      forall i | 1 <= i < |b| ensures b[i] != b[0] { assert Before(b[0], b[i]); }
      forall s ensures s in a' <==> s in b' {
        assert s in a' ==> s in a && s != a[0];
        assert s in b' ==> s in b && s != b[0];
      }
      OrderUnique(a', b');
    }
  }

  // ---- Queries ----

  function Select(rows: seq<Row>, p: Row -> bool): seq<Row> {
    TimeOrder(Where(rows, p))
  }

  lemma {:induction false} InsertMembers(r: Row, sorted: seq<Row>)
    ensures forall s :: s in Insert(r, sorted) <==> s == r || s in sorted
  {
    if sorted != [] && !Before(r, sorted[0]) {
      InsertMembers(r, sorted[1..]);
      assert sorted == [sorted[0]] + sorted[1..];
    }
  }

  lemma {:induction false} TimeOrderMembers(rows: seq<Row>)
    ensures forall s :: s in TimeOrder(rows) <==> s in rows
  {
    if rows != [] {
      TimeOrderMembers(rows[1..]);
      InsertMembers(rows[0], TimeOrder(rows[1..]));
      assert rows == [rows[0]] + rows[1..];
    }
  }

  lemma SelectMembers(rows: seq<Row>, p: Row -> bool)
    ensures forall s :: s in Select(rows, p) <==> s in rows && p(s)
  {
    WhereSpec(rows, p);
    TimeOrderMembers(Where(rows, p));
  }

  lemma SelectSpec(rows: seq<Row>, p: Row -> bool)
    requires DistinctIds(rows)
    ensures InOrder(Select(rows, p))
    ensures forall s :: s in Select(rows, p) <==> s in rows && p(s)
  {
    WhereSpec(rows, p);
    TimeOrderSpec(Where(rows, p));
  }

  /** A stream's whole series, as a full pass fetches it. */
  function Fetch(rows: seq<Row>, stream: Stream): seq<Row> {
    Select(rows, (r: Row) => r.stream == stream)
  }

  /** The rows a chart window asks for. */
  function Window(rows: seq<Row>, stream: Stream, start: int, end: int): seq<Row> {
    Select(rows, (r: Row) => r.stream == stream && start <= r.at <= end)
  }

  const QUARTER_HOUR: int := 15 * 60 * 1_000_000

  ghost predicate Weighted(db: Db, stream: Stream, r: Row) {
    r in db.rows && r.stream == stream && r.id in db.weights
  }

  ghost predicate Latest(db: Db, stream: Stream, r: Row) {
    Weighted(db, stream, r) && forall s :: Weighted(db, stream, s) ==> s.at <= r.at
  }

  /** A heaviest row among those weighted in the quarter hour before the stream's last weighted row. */
  ghost predicate Peak(db: Db, stream: Stream, last: Row, peak: Row) {
    && Latest(db, stream, last)
    && Weighted(db, stream, peak) && peak.at > last.at - QUARTER_HOUR
    && forall s :: Weighted(db, stream, s) && s.at > last.at - QUARTER_HOUR ==>
         db.weights[s.id] <= db.weights[peak.id]
  }

  function FromId(rows: seq<Row>, stream: Stream, id: nat): seq<Row> {
    Select(rows, (r: Row) => r.stream == stream && r.id >= id)
  }

  /** What a tail pass may fetch: the rows from a recent peak on, or all if none is weighted. */
  ghost predicate IsTail(db: Db, stream: Stream, tail: seq<Row>) {
    if exists r :: Weighted(db, stream, r) then
      exists last, peak :: Peak(db, stream, last, peak) && tail == FromId(db.rows, stream, peak.id)
    else tail == FromId(db.rows, stream, 0)
  }

  // ---- Statements ----

  function Values(rows: seq<Row>): (y: seq<real>)
    ensures |y| == |rows|
  {
    seq(|rows|, k requires 0 <= k < |rows| => rows[k].value)
  }

  /** One row of INSERT .. ON CONFLICT (id) DO UPDATE, with the optional WHERE clause. */
  function UpsertRow(weights: map<nat, real>, id: nat, w: real, onlyHigher: bool): map<nat, real> {
    if id in weights && onlyHigher && !(weights[id] < w) then weights else weights[id := w]
  }

  /** Upserting the positive ones of a series' weights, in order. */
  function Upsert(weights: map<nat, real>, series: seq<Row>, ws: seq<real>, onlyHigher: bool): map<nat, real>
    requires |ws| == |series|
  {
    if series == [] then weights
    else
      var n := |series| - 1;
      var before := Upsert(weights, series[..n], ws[..n], onlyHigher);
      if ws[n] > 0.0 then UpsertRow(before, series[n].id, ws[n], onlyHigher) else before
  }

  /** What can happen to the tables between two moments: the server inserts a reading,
      retention deletes old rows (cascading to their weights), or the optimizer upserts
      the weights it computed for some series it had fetched. */
  datatype Op =
    | Append(stream: Stream, value: real, at: int)
    | Retain(cutoff: int)
    | Pass(series: seq<Row>, full: bool)

  function Kept(rows: seq<Row>, cutoff: int): seq<Row> {
    Where(rows, (r: Row) => r.at >= cutoff)
  }

  function Apply(db: Db, op: Op): Db {
    match op
    case Append(stream, value, at) =>
      db.(rows := db.rows + [Row(db.nextId, stream, value, at)], nextId := db.nextId + 1)
    case Retain(cutoff) =>
      var rows := Kept(db.rows, cutoff);
      db.(rows := rows, weights := map id | id in db.weights && (exists r <- rows :: r.id == id) :: db.weights[id])
    case Pass(series, full) =>
      if |series| < 2 then db
      else db.(weights := Upsert(db.weights, series, TreeWeights(Values(series)), !full))
  }

  /** A pass upserts weights of rows that still exist (its foreign key demands it). */
  ghost predicate Allowed(db: Db, op: Op) {
    op.Pass? ==> InOrder(op.series) && forall r <- op.series :: r in db.rows
  }

  function ApplyAll(db: Db, ops: seq<Op>): Db {
    if ops == [] then db else Apply(ApplyAll(db, ops[..|ops| - 1]), ops[|ops| - 1])
  }

  ghost predicate AllowedAll(db: Db, ops: seq<Op>) {
    ops == [] ||
    (AllowedAll(db, ops[..|ops| - 1]) && Allowed(ApplyAll(db, ops[..|ops| - 1]), ops[|ops| - 1]))
  }

  // ---- What upserting does to one id ----

  function Stored(weights: map<nat, real>, id: nat): real {
    if id in weights then weights[id] else 0.0
  }

  lemma {:induction false} UpsertElsewhere(weights: map<nat, real>, series: seq<Row>, ws: seq<real>, onlyHigher: bool, id: nat)
    requires |ws| == |series| && forall r <- series :: r.id != id
    ensures var w := Upsert(weights, series, ws, onlyHigher);
            (id in w <==> id in weights) && Stored(w, id) == Stored(weights, id)
  {
    if series != [] {
      var n := |series| - 1;
      UpsertElsewhere(weights, series[..n], ws[..n], onlyHigher, id);
    }
  }

  /** A tail pass leaves every id it touches with the larger of its old and new weight; a
      full pass overwrites, except that a new weight of 0 leaves the old row in place. */
  lemma {:induction false} UpsertAt(weights: map<nat, real>, series: seq<Row>, ws: seq<real>, onlyHigher: bool, k: nat)
    requires |ws| == |series| && k < |series| && InOrder(series)
    requires DistinctIds(series) && forall id <- weights :: weights[id] > 0.0
    requires forall j :: 0 <= j < |ws| ==> ws[j] >= 0.0
    ensures Stored(Upsert(weights, series, ws, onlyHigher), series[k].id) ==
            var before := Stored(weights, series[k].id);
            if ws[k] == 0.0 then before
            else if onlyHigher && before >= ws[k] then before else ws[k]
  {
    var n := |series| - 1;
    if k < n {
      UpsertAt(weights, series[..n], ws[..n], onlyHigher, k);
      assert series[k].id != series[n].id;
    } else {
      UpsertElsewhere(weights, series[..n], ws[..n], onlyHigher, series[n].id);
    }
  }

  /** What a pass leaves stored for a row it gave the weight w. */
  ghost predicate Merged(was: map<nat, real>, now: map<nat, real>, id: nat, w: real, full: bool) {
    && (w > 0.0 ==> id in now)
    && (w == 0.0 ==> (id in now <==> id in was))
    && (id in now ==>
          now[id] == if w == 0.0 then was[id]
                     else if !full && id in was && was[id] > w then was[id] else w)
  }

  lemma {:induction false} UpsertKeys(weights: map<nat, real>, series: seq<Row>, ws: seq<real>, onlyHigher: bool)
    requires |ws| == |series| && DistinctIds(series)
    ensures forall k :: 0 <= k < |series| ==>
              (series[k].id in Upsert(weights, series, ws, onlyHigher) <==> series[k].id in weights || ws[k] > 0.0)
  {
    if series != [] {
      var n := |series| - 1;
      UpsertKeys(weights, series[..n], ws[..n], onlyHigher);
      UpsertElsewhere(weights, series[..n], ws[..n], onlyHigher, series[n].id);
    }
  }

  lemma {:induction false} UpsertNothing(weights: map<nat, real>, series: seq<Row>, ws: seq<real>, onlyHigher: bool)
    requires |ws| == |series| && forall j :: 0 <= j < |ws| ==> ws[j] == 0.0
    ensures Upsert(weights, series, ws, onlyHigher) == weights
  {
    if series != [] {
      var n := |series| - 1;
      UpsertNothing(weights, series[..n], ws[..n], onlyHigher);
    }
  }

  lemma {:induction false} UpsertPositive(weights: map<nat, real>, series: seq<Row>, ws: seq<real>, onlyHigher: bool)
    requires |ws| == |series| && forall id <- weights :: weights[id] > 0.0
    ensures forall id <- Upsert(weights, series, ws, onlyHigher) ::
      Upsert(weights, series, ws, onlyHigher)[id] > 0.0 && (id in weights || exists r <- series :: r.id == id)
  {
    if series != [] {
      var n := |series| - 1;
      UpsertPositive(weights, series[..n], ws[..n], onlyHigher);
      assert series[n] in series && forall r <- series[..n] :: r in series;
    }
  }

  lemma {:induction false} UpsertNeverLowers(weights: map<nat, real>, series: seq<Row>, ws: seq<real>, id: nat)
    requires |ws| == |series| && forall i <- weights :: weights[i] > 0.0
    ensures Stored(Upsert(weights, series, ws, true), id) >= Stored(weights, id)
  {
    if series != [] {
      var n := |series| - 1;
      UpsertNeverLowers(weights, series[..n], ws[..n], id);
    }
  }

  lemma OrderedAreDistinct(db: Db, series: seq<Row>)
    requires Valid(db) && InOrder(series) && forall r <- series :: r in db.rows
    ensures DistinctIds(series)
  {
    forall i, j | 0 <= i < j < |series| ensures series[i].id != series[j].id {
      assert Before(series[i], series[j]);
      assert series[i] in db.rows && series[j] in db.rows;
    }
  }

  /** Retention without anything to delete changes nothing. */
  lemma RetainNothing(db: Db, cutoff: int)
    requires Valid(db) && forall r <- db.rows :: r.at >= cutoff
    ensures Apply(db, Retain(cutoff)) == db
  {
    WhereAll(db.rows, (r: Row) => r.at >= cutoff);
    forall id | id in db.weights ensures exists r <- db.rows :: r.id == id {
      var r :| r in db.rows && r.id == id;
    }
    hide Valid; hide Where;
    assert Kept(db.rows, cutoff) == db.rows;
    hide Kept;
    assert Apply(db, Retain(cutoff)).weights == db.weights;
  }

  lemma ApplyValid(db: Db, op: Op)
    requires Valid(db) && Allowed(db, op)
    ensures Valid(Apply(db, op))
  {
    var after := Apply(db, op);
    match op
    case Append(_, _, _) =>
      forall id | id in after.weights ensures exists r :: r in after.rows && r.id == id {
        var r :| r in db.rows && r.id == id;
        assert r in after.rows;
      }
    case Retain(cutoff) =>
      WhereSpec(db.rows, (r: Row) => r.at >= cutoff);
    case Pass(series, full) =>
      if |series| >= 2 {
        UpsertPositive(db.weights, series, TreeWeights(Values(series)), !full);
      }
  }
}
