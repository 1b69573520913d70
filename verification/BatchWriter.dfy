/** The batch writer as a protocol: many producers, a bounded queue that is never closed,
    and one loop that owns the buffer and the timer. Every select is a nondeterministic
    choice among its ready cases; database calls take time, so other steps come between. */
module BatchWriter {
  import opened Model

  /** Where the loop is. A flush remembers where it returns to and how its tries went. */
  datatype Then = Serve | Drain | Stop
  datatype Phase = Serving | Draining | Stopped | Flushing(next: Then, tries: seq<bool>)

  datatype Config = Config(queueCap: nat, maxSize: nat, maxLatency: int)

  /** A finished flush: its readings, and whether each database call succeeded. */
  datatype Batch = Batch(readings: seq<Reading>, tries: seq<bool>)

  /** What was accepted, and how many producers were past the closed-check, at Close. */
  datatype Mark = Mark(accepted: nat, passed: nat)

  /** `timer` is the running timer's deadline. `passed` holds the producers between the two
      selects of Enqueue. The last four fields are history. */
  datatype Writer = Writer(
    queue: seq<Reading>, buf: seq<Reading>, closed: bool, phase: Phase,
    timerActive: bool, timer: Option<int>, now: int, passed: map<int, Reading>,
    accepted: seq<(int, Reading)>, arrivals: seq<int>, batches: seq<Batch>, mark: Option<Mark>)

  const FLUSH_ATTEMPTS := 2

  function New(now: int): Writer {
    Writer([], [], false, Serving, false, None, now, map[], [], [], [], None)
  }

  datatype Action =
    | Check(p: int, r: Reading)  // first select of Enqueue
    | Send(p: int)               // second select: the queue took it
    | HandOff(p: int)            // second select: the waiting loop took it directly
    | GiveUp(p: int)             // second select: closed
    | Close
    | Receive
    | Fire                       // the timer case
    | SeeClosed
    | Exec(ok: bool)
    | Finish                     // the drain's default case
    | Tick(t: int)

  predicate Enabled(c: Config, w: Writer, a: Action) {
    match a
    case Check(p, _) => p !in w.passed
    case Send(p) => p in w.passed && |w.queue| < c.queueCap
    case HandOff(p) => p in w.passed && w.queue == [] && (w.phase.Serving? || w.phase.Draining?)
    case GiveUp(p) => p in w.passed && w.closed
    case Close => true
    case Receive => w.queue != [] && (w.phase.Serving? || w.phase.Draining?)
    case Fire => w.phase.Serving? && w.timer.Some? && w.timer.value <= w.now
    case SeeClosed => w.phase.Serving? && w.closed
    case Exec(_) => w.phase.Flushing?
    case Finish => w.phase.Draining? && w.queue == []
    case Tick(t) => w.now <= t
  }

  function Landing(next: Then): Phase {
    match next case Serve => Serving case Drain => Draining case Stop => Stopped
  }

  /** flush(): nothing to do on an empty buffer. */
  function StartFlush(w: Writer, next: Then): Writer {
    w.(phase := if w.buf == [] then Landing(next) else Flushing(next, []))
  }

  /** The loop buffers a reading; only the main loop arms the timer, and only once. */
  function Take(c: Config, w: Writer, r: Reading): Writer {
    var armed := if w.phase.Serving? && !w.timerActive
                 then w.(timerActive := true, timer := Some(w.now + c.maxLatency)) else w;
    var taken := armed.(buf := w.buf + [r], arrivals := w.arrivals + [w.now]);
    if |taken.buf| >= c.maxSize then StartFlush(taken, if w.phase.Serving? then Serve else Drain) else taken
  }

  /** One database call of a flush; the flush ends at a success or after the last attempt. */
  function Tried(w: Writer, ok: bool): Writer
    requires w.phase.Flushing?
  {
    var tries := w.phase.tries + [ok];
    if ok || |tries| >= FLUSH_ATTEMPTS then
      var done := w.(batches := w.batches + [Batch(w.buf, tries)], buf := [], arrivals := [], phase := Landing(w.phase.next));
      if w.timerActive then done.(timerActive := false, timer := None) else done
    else w.(phase := Flushing(w.phase.next, tries))
  }

  function Without(passed: map<int, Reading>, p: int): map<int, Reading> {
    passed - {p}
  }

  function Next(c: Config, w: Writer, a: Action): Writer
    requires Enabled(c, w, a)
  {
    match a
    case Check(p, r) => if w.closed then w else w.(passed := w.passed[p := r])
    case Send(p) =>
      w.(queue := w.queue + [w.passed[p]], passed := Without(w.passed, p), accepted := w.accepted + [(p, w.passed[p])])
    case HandOff(p) =>
      Take(c, w.(passed := Without(w.passed, p), accepted := w.accepted + [(p, w.passed[p])]), w.passed[p])
    case GiveUp(p) => w.(passed := Without(w.passed, p))
    case Close => if w.closed then w else w.(closed := true, mark := Some(Mark(|w.accepted|, |w.passed|)))
    case Receive => Take(c, w.(queue := w.queue[1..]), w.queue[0])
    case Fire => StartFlush(w.(timerActive := false, timer := None), Serve)
    case SeeClosed => w.(phase := Draining)
    case Exec(ok) => Tried(w, ok)
    case Finish => StartFlush(w, Stop)
    case Tick(t) => w.(now := t)
  }

  // ---- Runs ----

  /** A run: a non-empty sequence of states, each reached from the previous by an enabled action. */
  ghost predicate Steps(c: Config, w: Writer, w': Writer) {
    exists a :: Enabled(c, w, a) && w' == Next(c, w, a)
  }

  ghost predicate Run(c: Config, run: seq<Writer>) {
    && run != [] && (exists now :: run[0] == New(now))
    && forall i :: 0 <= i < |run| - 1 ==> Steps(c, run[i], run[i + 1])
  }

  /** A continuation of a state by enabled actions. */
  ghost predicate Path(c: Config, w: Writer, acts: seq<Action>, w': Writer)
    decreases |acts|
  {
    if acts == [] then w == w'
    else Enabled(c, w, acts[0]) && Path(c, Next(c, w, acts[0]), acts[1..], w')
  }

  lemma {:induction false} PathAppend(c: Config, w: Writer, acts: seq<Action>, m: Writer, a: Action)
    requires Path(c, w, acts, m) && Enabled(c, m, a)
    ensures Path(c, w, acts + [a], Next(c, m, a))
    decreases |acts|
  {
    if acts == [] {
      assert (acts + [a])[1..] == [];
    } else {
      PathAppend(c, Next(c, w, acts[0]), acts[1..], m, a);
      assert (acts + [a])[1..] == acts[1..] + [a];
    }
  }

  // ---- What every step keeps ----

  function Readings(accepted: seq<(int, Reading)>): (s: seq<Reading>)
    ensures |s| == |accepted|
  {
    seq(|accepted|, i requires 0 <= i < |accepted| => accepted[i].1)
  }

  function Flat(batches: seq<Batch>): seq<Reading> {
    if batches == [] then [] else Flat(batches[..|batches| - 1]) + batches[|batches| - 1].readings
  }

  function BatchCap(c: Config): nat {
    if c.maxSize == 0 then 1 else c.maxSize
  }

  /** Nothing is lost, duplicated or reordered on the way to the database. */
  ghost predicate Conserved(w: Writer) {
    Readings(w.accepted) == Flat(w.batches) + w.buf + w.queue
  }

  /** A flush succeeds at once, or on its second call, or fails twice and drops its batch. */
  predicate Outcome(tries: seq<bool>) {
    tries == [true] || tries == [false, true] || tries == [false, false]
  }

  ghost predicate Bounded(c: Config, w: Writer) {
    && |w.queue| <= c.queueCap
    && |w.buf| <= BatchCap(c)
    && (w.phase.Serving? || w.phase.Draining? ==> |w.buf| < BatchCap(c))
    && (w.phase.Flushing? ==> w.buf != [] && (w.phase.tries == [] || w.phase.tries == [false]))
    && (w.phase.Stopped? ==> w.buf == [])
    && forall b <- w.batches :: 1 <= |b.readings| <= BatchCap(c) && Outcome(b.tries)
  }

  /** In the main loop the timer runs exactly while something is buffered, and its deadline
      is the oldest buffered arrival plus the latency bound. */
  ghost predicate Timed(c: Config, w: Writer) {
    && |w.arrivals| == |w.buf|
    && (forall i :: 0 <= i < |w.arrivals| ==> w.arrivals[0] <= w.arrivals[i] <= w.now)
    && (w.timerActive <==> w.timer.Some?)
    && (w.phase.Serving? ==> (w.timerActive <==> w.buf != []))
    && (w.phase.Serving? && w.buf != [] ==> w.timer == Some(w.arrivals[0] + c.maxLatency))
  }

  /** After Close only producers that were already past the check can still get in. */
  ghost predicate Closing(w: Writer) {
    && (w.mark.Some? <==> w.closed)
    && (!w.closed ==> w.phase.Serving? || (w.phase.Flushing? && w.phase.next.Serve?))
    && (w.closed ==>
          && w.mark.value.accepted <= |w.accepted|
          && |w.accepted| - w.mark.value.accepted + |w.passed| <= w.mark.value.passed)
    && (w.phase.Stopped? || (w.phase.Flushing? && w.phase.next.Stop?) ==>
          w.mark.value.accepted <= |Flat(w.batches)| + |w.buf|)
  }

  ghost predicate Inv(c: Config, w: Writer) {
    Conserved(w) && Bounded(c, w) && Timed(c, w) && Closing(w)
  }

  lemma FlatAppend(batches: seq<Batch>, b: Batch)
    ensures Flat(batches + [b]) == Flat(batches) + b.readings
  {
    assert (batches + [b])[..|batches|] == batches;
  }

  lemma ReadingsAppend(accepted: seq<(int, Reading)>, x: (int, Reading))
    ensures Readings(accepted + [x]) == Readings(accepted) + [x.1]
  {
  }

  lemma TakeKeeps(c: Config, w: Writer, r: Reading)
    requires Bounded(c, w) && Timed(c, w) && Closing(w) && (w.phase.Serving? || w.phase.Draining?)
    ensures var t := Take(c, w, r);
            && Bounded(c, t) && Timed(c, t) && Closing(t)
            && t.buf == w.buf + [r] && t.batches == w.batches && t.queue == w.queue && t.accepted == w.accepted
  {
  }

  lemma TriedConserves(c: Config, w: Writer, ok: bool)
    requires Conserved(w) && w.phase.Flushing?
    ensures Conserved(Tried(w, ok))
  {
    FlushedFlat(w, ok);
    TriedFrame(w, ok);
    hide Flat; hide Readings; hide Tried;
  }

  lemma TriedFrame(w: Writer, ok: bool)
    requires w.phase.Flushing?
    ensures var n := Tried(w, ok);
            && n.accepted == w.accepted && n.queue == w.queue && n.passed == w.passed && n.closed == w.closed && n.mark == w.mark
            && (n.phase == Landing(w.phase.next) || (n.phase.Flushing? && n.phase.next == w.phase.next))
  {
  }

  lemma TriedCloses(w: Writer, ok: bool)
    requires Closing(w) && w.phase.Flushing?
    ensures Closing(Tried(w, ok))
  {
    hide Flat; hide Tried;
    FlushedFlat(w, ok);
    TriedFrame(w, ok);
  }

  // What a flush moves from the buffer to the batches stays in place.
  lemma FlushedFlat(w: Writer, ok: bool)
    requires w.phase.Flushing?
    ensures var n := Tried(w, ok);
            && |Flat(n.batches)| + |n.buf| == |Flat(w.batches)| + |w.buf|
            && Flat(n.batches) + n.buf + n.queue == Flat(w.batches) + w.buf + w.queue
  {
    var b := Batch(w.buf, w.phase.tries + [ok]);
    FlatAppend(w.batches, b);
    hide Flat;
    assert Flat(w.batches + [b]) + [] == Flat(w.batches) + w.buf;
    assert |Flat(w.batches + [b])| == |Flat(w.batches)| + |w.buf|;
  }

  lemma TriedStaysBounded(c: Config, w: Writer, ok: bool)
    requires Bounded(c, w) && w.phase.Flushing?
    ensures Bounded(c, Tried(w, ok))
  {
    var b := Batch(w.buf, w.phase.tries + [ok]);
    assert Tried(w, ok).phase.Flushing? || Outcome(b.tries);
  }

  lemma TriedKeeps(c: Config, w: Writer, ok: bool)
    requires Inv(c, w) && w.phase.Flushing?
    ensures Inv(c, Tried(w, ok))
  {
    TriedConserves(c, w, ok);
    TriedCloses(w, ok);
    TriedStaysBounded(c, w, ok);
    assert Timed(c, Tried(w, ok)) by { hide Conserved; hide Bounded; hide Closing; }
  }

  lemma SizeWithout(passed: map<int, Reading>, p: int)
    requires p in passed
    ensures |Without(passed, p)| == |passed| - 1
  {
    assert Without(passed, p).Keys == passed.Keys - {p};
  }

  lemma SendKeeps(c: Config, w: Writer, p: int)
    requires Inv(c, w) && Enabled(c, w, Send(p))
    ensures Inv(c, Next(c, w, Send(p)))
  {
    ReadingsAppend(w.accepted, (p, w.passed[p]));
    SizeWithout(w.passed, p);
    var base, r := Flat(w.batches) + w.buf, w.passed[p];
    assert base + w.queue + [r] == base + (w.queue + [r]);
  }

  lemma HandOffKeeps(c: Config, w: Writer, p: int)
    requires Inv(c, w) && Enabled(c, w, HandOff(p))
    ensures Inv(c, Next(c, w, HandOff(p)))
  {
    var r := w.passed[p];
    ReadingsAppend(w.accepted, (p, r));
    SizeWithout(w.passed, p);
    TakeKeeps(c, w.(passed := Without(w.passed, p), accepted := w.accepted + [(p, r)]), r);
    assert Flat(w.batches) + w.buf + [] + [r] == Flat(w.batches) + (w.buf + [r]) + [];
  }

  lemma ReceiveKeeps(c: Config, w: Writer)
    requires Inv(c, w) && Enabled(c, w, Receive)
    ensures Inv(c, Next(c, w, Receive))
  {
    TakeKeeps(c, w.(queue := w.queue[1..]), w.queue[0]);
    assert Flat(w.batches) + w.buf + w.queue == Flat(w.batches) + (w.buf + [w.queue[0]]) + w.queue[1..];
  }

  lemma GiveUpKeeps(c: Config, w: Writer, p: int)
    requires Inv(c, w) && Enabled(c, w, GiveUp(p))
    ensures Inv(c, Next(c, w, GiveUp(p)))
  {
    SizeWithout(w.passed, p);
  }

  lemma StartFlushKeeps(c: Config, w: Writer, a: Action)
    requires Inv(c, w) && Enabled(c, w, a) && (a.Fire? || a.Finish?)
    ensures Inv(c, Next(c, w, a))
  {
    assert |Readings(w.accepted)| == |Flat(w.batches)| + |w.buf| + |w.queue|;
  }

  /** Every step, whichever select case it takes, keeps the invariant. */
  lemma NextKeeps(c: Config, w: Writer, a: Action)
    requires Inv(c, w) && Enabled(c, w, a)
    ensures Inv(c, Next(c, w, a))
  {
    match a
    case Send(p) => SendKeeps(c, w, p);
    case HandOff(p) => HandOffKeeps(c, w, p);
    case GiveUp(p) => GiveUpKeeps(c, w, p);
    case Receive => ReceiveKeeps(c, w);
    case Exec(ok) => TriedKeeps(c, w, ok);
    case Fire => StartFlushKeeps(c, w, a);
    case Finish => StartFlushKeeps(c, w, a);
    case Check(_, _) =>
    case Close =>
    case SeeClosed =>
    case Tick(_) =>
  }

  lemma {:induction false} Always(c: Config, run: seq<Writer>, i: nat)
    requires Run(c, run) && i < |run|
    ensures Inv(c, run[i])
  {
    if i > 0 {
      Always(c, run, i - 1);
      assert Steps(c, run[i - 1], run[i - 1 + 1]);
      var a :| Enabled(c, run[i - 1], a) && run[i] == Next(c, run[i - 1], a);
      NextKeeps(c, run[i - 1], a);
    }
  }
}
