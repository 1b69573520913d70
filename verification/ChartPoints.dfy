/** The points the chart query hands out are the vertices of the drawn line, in rank order. */
module ChartPoints {
  import opened Chord
  import opened Tables
  import opened Coverage
  import opened Chart

  /** The selected ranks below n, ascending. */
  function Ranks(sel: set<nat>, n: nat): (ranks: seq<nat>)
    ensures forall k: nat :: k in ranks <==> k in sel && k < n
    ensures forall i, j :: 0 <= i < j < |ranks| ==> ranks[i] < ranks[j]
  {
    if n == 0 then []
    else if n - 1 in sel then
      var front := Ranks(sel, n - 1);
      assert forall i :: 0 <= i < |front| ==> front[i] in front;
      front + [n - 1]
    else Ranks(sel, n - 1)
  }

  function Vertices(win: seq<Row>, ranks: seq<nat>): (pts: seq<Point>)
    requires forall i :: 0 <= i < |ranks| ==> ranks[i] < |win|
    ensures |pts| == |ranks|
  {
    seq(|ranks|, i requires 0 <= i < |ranks| => ToPoint(win[ranks[i]].value, win[ranks[i]].at))
  }

  ghost predicate Strict(pts: seq<Point>) {
    forall i, j :: 0 <= i < j < |pts| ==> pts[i].millis < pts[j].millis
  }

  lemma {:induction false} StrictUnique(a: seq<Point>, b: seq<Point>)
    requires Strict(a) && Strict(b) && forall p :: p in a <==> p in b
    ensures a == b
  {
    assert |b| > 0 ==> b[0] in a;
    if a != [] {
      assert a[0] in b && b[0] in a;
      assert a[0] == b[0];
      var a', b' := a[1..], b[1..];
      assert a == [a[0]] + a' && b == [b[0]] + b';
      forall p ensures p in a' <==> p in b' {
        assert p in a' ==> p in a && p != a[0];
        assert p in b' ==> p in b && p != b[0];
      }
      StrictUnique(a', b');
    }
  }

  lemma OnceOrTwice(s: seq<Point>, i: nat, j: nat)
    requires i < j < |s| && s[i] == s[j]
    ensures multiset(s)[s[i]] >= 2
  {
    assert s == s[..j] + [s[j]] + s[j + 1..];
    assert s[i] in s[..j];
  }

  lemma {:induction false} AtMostOnce(s: seq<Point>, p: Point)
    requires forall i, j :: 0 <= i < j < |s| ==> s[i] != s[j]
    ensures multiset(s)[p] <= 1
  {
    if s != [] {
      var n := |s| - 1;
      assert s == s[..n] + [s[n]];
      AtMostOnce(s[..n], p);
      if p == s[n] {
        assert p !in s[..n];
      }
    }
  }

  /** Readings of the window fall into different milliseconds. */
  ghost predicate SpacedOut(win: seq<Row>) {
    forall i, j :: 0 <= i < j < |win| ==> win[i].at / 1000 < win[j].at / 1000
  }

  ghost predicate RanksBelow(win: seq<Row>, sel: set<nat>) {
    forall i :: 0 <= i < |Ranks(sel, |win|)| ==> Ranks(sel, |win|)[i] < |win|
  }

  lemma ScannedApart(win: seq<Row>, sel: set<nat>, order: seq<(real, int)>)
    requires SpacedOut(win) && forall x :: x in order <==> x in Union(win, sel)
    requires forall i, j :: 0 <= i < j < |order| ==> order[i] != order[j]
    ensures forall i, j :: 0 <= i < j < |order| ==> Points(order)[i].millis != Points(order)[j].millis
  {
    forall i, j | 0 <= i < j < |order| ensures Points(order)[i].millis != Points(order)[j].millis {
      assert order[i] in order && order[j] in order;
      var k :| k in sel && k < |win| && order[i] == (win[k].value, win[k].at);
      var h :| h in sel && h < |win| && order[j] == (win[h].value, win[h].at);
      assert k != h;
    }
  }

  lemma ScannedAreVertices(win: seq<Row>, sel: set<nat>, order: seq<(real, int)>)
    requires forall x :: x in order <==> x in Union(win, sel)
    ensures RanksBelow(win, sel)
    ensures forall p :: p in Points(order) <==> p in Vertices(win, Ranks(sel, |win|))
  {
    var ranks := Ranks(sel, |win|);
    forall i | 0 <= i < |ranks| ensures ranks[i] < |win| { assert ranks[i] in ranks; }
    forall p ensures p in Points(order) <==> p in Vertices(win, ranks) {
      if p in Points(order) {
        var i :| 0 <= i < |order| && Points(order)[i] == p;
        assert order[i] in order;
        var k :| k in sel && k < |win| && order[i] == (win[k].value, win[k].at);
        assert k in ranks;
        var h :| 0 <= h < |ranks| && ranks[h] == k;
        assert Vertices(win, ranks)[h] == p;
      }
      if p in Vertices(win, ranks) {
        var h :| 0 <= h < |ranks| && Vertices(win, ranks)[h] == p;
        var k := ranks[h];
        assert k in ranks;
        assert (win[k].value, win[k].at) in Union(win, sel);
        var i :| 0 <= i < |order| && order[i] == (win[k].value, win[k].at);
        assert Points(order)[i] == p;
      }
    }
  }

  /** Whatever order the database returns the rows in, sorting by millisecond puts the
      points into rank order, each selected rank exactly once. */
  lemma PointsAreVertices(win: seq<Row>, sel: set<nat>, order: seq<(real, int)>, pts: seq<Point>)
    requires SpacedOut(win) && forall x :: x in order <==> x in Union(win, sel)
    requires forall i, j :: 0 <= i < j < |order| ==> order[i] != order[j]
    requires Sorted(pts) && multiset(pts) == multiset(Points(order))
    ensures RanksBelow(win, sel) && pts == Vertices(win, Ranks(sel, |win|))
    ensures |pts| == |Ranks(sel, |win|)|
    ensures forall i :: 0 <= i < |pts| ==> PointOf(pts[i], win[Ranks(sel, |win|)[i]])
  {
    forall r: Row ensures PointOf(ToPoint(r.value, r.at), r) { ToPointIsPointOf(r); }
    hide PointOf;
    ScannedApart(win, sel, order);
    ScannedAreVertices(win, sel, order);
    hide Union;
    var scanned := Points(order);
    forall p ensures p in pts <==> p in scanned {
      assert p in multiset(pts) <==> p in multiset(scanned);
    }
    forall i, j | 0 <= i < j < |pts| ensures pts[i].millis < pts[j].millis {
      if pts[i].millis == pts[j].millis {
        assert pts[i] in scanned && pts[j] in scanned;
        assert pts[i] == pts[j];
        OnceOrTwice(pts, i, j);
        AtMostOnce(scanned, pts[i]);
        assert false;
      }
    }
    var ranks := Ranks(sel, |win|);
    forall i, j | 0 <= i < j < |ranks| ensures Vertices(win, ranks)[i].millis < Vertices(win, ranks)[j].millis {
      assert win[ranks[i]].at / 1000 < win[ranks[j]].at / 1000;
    }
    StrictUnique(pts, Vertices(win, ranks));
  }

  // ---- The bound, over the returned points ----

  /** Two consecutive returned points belong to the window's rows a and b, with row k between
      them, which the line through the two points misses by less than 2 eps + 0.001. */
  ghost predicate DrawnNear(pts: seq<Point>, win: seq<Row>, i: nat, a: nat, b: nat, k: nat, eps: real) {
    && i + 1 < |pts| && a < k < b < |win|
    && PointOf(pts[i], win[a]) && PointOf(pts[i + 1], win[b])
    && Abs(win[k].value - Line(a, pts[i].value, b, pts[i + 1].value, k)) < 2.0 * eps + 0.001
  }

  lemma RankOf(sel: set<nat>, n: nat, k: nat) returns (i: nat)
    requires k in sel && k < n
    ensures i < |Ranks(sel, n)| && Ranks(sel, n)[i] == k
  {
    assert k in Ranks(sel, n);
    i :| 0 <= i < |Ranks(sel, n)| && Ranks(sel, n)[i] == k;
  }

  // Selected ranks with none selected between them are neighbours.
  lemma NextRank(sel: set<nat>, n: nat, a: nat, b: nat) returns (i: nat)
    requires a in sel && b in sel && a < b < n && forall j: nat :: a < j < b ==> j !in sel
    ensures i + 1 < |Ranks(sel, n)| && Ranks(sel, n)[i] == a && Ranks(sel, n)[i + 1] == b
  {
    var ranks := Ranks(sel, n);
    i := RankOf(sel, n, a);
    var j := RankOf(sel, n, b);
    assert i < j;
    assert ranks[i + 1] in ranks;
  }

  /** What the chart's user sees: after any run, for any window whose rows fall into different
      milliseconds and whatever the query selects, each row either has its point among the
      returned ones or, if some pass spans the drawn rows around it, is missed by the line
      through the two returned points around it by less than twice the largest stored weight
      left out plus 0.001. */
  lemma ReturnedBound(db: Db, ops: seq<Op>, stream: Stream, start: int, end: int,
                      after: Db, win: seq<Row>, limit: nat, sel: set<nat>, order: seq<(real, int)>, pts: seq<Point>,
                      eps: real, k: nat)
    requires Valid(db) && AllowedAll(db, ops) && after == ApplyAll(db, ops)
    requires win == Window(after.rows, stream, start, end) && SpacedOut(win)
    requires Selection(after.weights, win, limit, sel) && LeftOutWithin(after.weights, win, sel, eps) && eps >= 0.0
    requires forall x :: x in order <==> x in Union(win, sel)
    requires forall i, j :: 0 <= i < j < |order| ==> order[i] != order[j]
    requires Sorted(pts) && multiset(pts) == multiset(Points(order))
    requires k < |win| && GapAroundSpanned(db, ops, stream, win, sel, k)
    ensures if k in sel then exists p <- pts :: PointOf(p, win[k])
            else exists i: nat, a: nat, b: nat :: DrawnNear(pts, win, i, a, b, k, eps)
  {
    hide Window; hide Points; hide Union; hide PointOf; hide SpacedOut; hide Selection; hide LeftOutWithin; hide Sorted;
    hide GapAroundSpanned; hide Valid; hide AllowedAll;
    PointsAreVertices(win, sel, order, pts);
    if k in sel {
      var i := RankOf(sel, |win|, k);
      assert PointOf(pts[i], win[k]);
    } else {
      SelectionRange(after.weights, win, limit, sel);
      var a, b := DrawnGap(win, sel, k);
      var i := NextRank(sel, |win|, a, b);
      ChartBound(db, ops, stream, start, end, after, win, limit, sel, eps, k);
      VertexValues(win, sel, i);
      assert DrawnNear(pts, win, i, a, b, k, eps);
    }
  }

  lemma VertexValues(win: seq<Row>, sel: set<nat>, i: nat)
    requires RanksBelow(win, sel) && i + 1 < |Ranks(sel, |win|)|
    ensures var ranks := Ranks(sel, |win|); var pts := Vertices(win, ranks);
            && pts[i].value == Floored(Values(win))[ranks[i]] && pts[i + 1].value == Floored(Values(win))[ranks[i + 1]]
  {
  }
}
