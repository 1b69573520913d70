/** What the batch writer promises its callers, over every run of the protocol. */
module WriterGuarantees {
  import opened Model
  import opened BatchWriter

  /** In every reachable state the accepted readings, in the order the queue took them, are
      the flushed batches, then the buffer, then the queue; batches hold 1 to maxSize
      readings; and at most queueCap plus maxSize readings are not yet flushed. */
  lemma NothingLostInFlight(c: Config, run: seq<Writer>, i: nat)
    requires Run(c, run) && i < |run|
    ensures Readings(run[i].accepted) == Flat(run[i].batches) + run[i].buf + run[i].queue
    ensures |run[i].buf| + |run[i].queue| <= c.queueCap + BatchCap(c)
    ensures forall b <- run[i].batches :: 1 <= |b.readings| <= BatchCap(c) && Outcome(b.tries)
  {
    Always(c, run, i);
  }

  /** In the main loop a buffered reading always has a running timer that fires no later
      than maxLatency after it arrived. */
  lemma LatencyDeadline(c: Config, run: seq<Writer>, i: nat, k: nat)
    requires Run(c, run) && i < |run| && run[i].phase.Serving? && k < |run[i].buf|
    ensures k < |run[i].arrivals| && run[i].timer.Some?
    ensures run[i].timer.value <= run[i].arrivals[k] + c.maxLatency
  {
    Always(c, run, i);
  }

  // ---- A due reading is flushed ----

  /** Some buffered reading has waited for maxLatency. */
  ghost predicate Overdue(c: Config, w: Writer) {
    exists k :: 0 <= k < |w.arrivals| && w.arrivals[k] + c.maxLatency <= w.now
  }

  /** In the main loop, open or closed, the timer case is ready exactly when a reading is
      due, and it begins a flush of the whole buffer; and nothing but the clock is needed
      for a reading to become due. */
  lemma DueMeansFire(c: Config, run: seq<Writer>, i: nat)
    requires Run(c, run) && i < |run| && run[i].phase.Serving?
    ensures |run[i].arrivals| == |run[i].buf|
    ensures Enabled(c, run[i], Fire) <==> Overdue(c, run[i])
    ensures Enabled(c, run[i], Fire) ==>
              run[i].buf != [] && Next(c, run[i], Fire).phase == Flushing(Serve, []) && Next(c, run[i], Fire).buf == run[i].buf
    ensures run[i].buf != [] ==> forall t :: t >= run[i].now && t >= run[i].arrivals[0] + c.maxLatency ==>
              Enabled(c, run[i], Tick(t)) && Enabled(c, Next(c, run[i], Tick(t)), Fire)
  {
    Always(c, run, i);
    hide Conserved; hide Closing;
    var w := run[i];
    if w.buf != [] { assert w.arrivals[0] <= w.now; }
  }

  /** Database calls among some actions. */
  function Execs(acts: seq<Action>): nat {
    if acts == [] then 0 else (if acts[0].Exec? then 1 else 0) + Execs(acts[1..])
  }

  /** A flush is over after at most two database calls, which can always be made, whatever
      else happens between them; its readings have then been handed to the database. */
  lemma {:induction false} FlushEnds(c: Config, w: Writer, acts: seq<Action>, w': Writer)
    requires Inv(c, w) && w.phase.Flushing? && Path(c, w, acts, w')
    ensures Enabled(c, w, Exec(true)) && Enabled(c, w, Exec(false))
    ensures Execs(acts) + |w.phase.tries| >= 2 ==> Flat(w.batches) + w.buf <= Flat(w'.batches)
    decreases |acts|
  {
    TriesSoFar(c, w);
    if acts != [] {
      var n := Next(c, w, acts[0]);
      NextKeeps(c, w, acts[0]);
      WhileFlushing(c, w, acts[0]);
      hide Next; hide Inv;
      if n.phase.Flushing? {
        FlushEnds(c, n, acts[1..], w');
      } else {
        BatchesGrow(c, n, acts[1..], w');
      }
    }
  }

  lemma TriesSoFar(c: Config, w: Writer)
    requires Inv(c, w) && w.phase.Flushing?
    ensures |w.phase.tries| < 2
  {
  }

  lemma WhileFlushing(c: Config, w: Writer, a: Action)
    requires Enabled(c, w, a) && w.phase.Flushing?
    ensures var n := Next(c, w, a);
            if n.phase.Flushing? then
              n.buf == w.buf && n.batches == w.batches && |n.phase.tries| == |w.phase.tries| + if a.Exec? then 1 else 0
            else Flat(n.batches) == Flat(w.batches) + w.buf
  {
    if a.Exec? { FlatAppend(w.batches, Batch(w.buf, w.phase.tries + [a.ok])); }
  }

  ghost predicate AddsBatch(was: seq<Batch>, now: seq<Batch>, readings: seq<Reading>) {
    |now| == |was| + 1 && now[..|was|] == was && now[|was|].readings == readings
  }

  lemma BatchesChange(c: Config, w: Writer, a: Action)
    requires Enabled(c, w, a)
    ensures var n := Next(c, w, a);
            n.batches != w.batches ==> a.Exec? && w.phase.Flushing? && AddsBatch(w.batches, n.batches, w.buf)
  {
  }

  lemma FlatGrows(c: Config, w: Writer, a: Action)
    requires Enabled(c, w, a)
    ensures Flat(w.batches) <= Flat(Next(c, w, a).batches)
  {
    BatchesChange(c, w, a);
    hide Next; hide Flat;
    var now := Next(c, w, a).batches;
    if now != w.batches {
      FlatAppend(w.batches, now[|w.batches|]);
      assert now == w.batches + [now[|w.batches|]];
    }
  }

  lemma {:induction false} BatchesGrow(c: Config, w: Writer, acts: seq<Action>, w': Writer)
    requires Path(c, w, acts, w')
    ensures Flat(w.batches) <= Flat(w'.batches)
    decreases |acts|
  {
    if acts != [] {
      FlatGrows(c, w, acts[0]);
      BatchesGrow(c, Next(c, w, acts[0]), acts[1..], w');
    }
  }

  /** So a due reading is handed to the database by the timer and two calls. */
  lemma DueIsFlushed(c: Config, run: seq<Writer>, i: nat, acts: seq<Action>, w': Writer)
    requires Run(c, run) && i < |run| && run[i].phase.Serving? && Overdue(c, run[i])
    ensures Enabled(c, run[i], Fire)
    ensures Path(c, Next(c, run[i], Fire), acts, w') && Execs(acts) >= 2 ==>
              Flat(run[i].batches) + run[i].buf <= Flat(w'.batches)
  {
    DueMeansFire(c, run, i);
    Always(c, run, i);
    NextKeeps(c, run[i], Fire);
    hide Inv; hide Next;
    if Path(c, Next(c, run[i], Fire), acts, w') && Execs(acts) >= 2 {
      FireKeeps(c, run[i]);
      FlushEnds(c, Next(c, run[i], Fire), acts, w');
    }
  }

  lemma FireKeeps(c: Config, w: Writer)
    requires Enabled(c, w, Fire)
    ensures Next(c, w, Fire).batches == w.batches && Next(c, w, Fire).buf == w.buf
  {
  }

  // ---- Nothing is flushed early ----

  /** Why a flush is under way: in the main loop because the batch is full or its oldest
      reading has waited for maxLatency, in the drain because it is full, at the end because
      the writer was closed. */
  ghost predicate Justified(c: Config, w: Writer) {
    w.phase.Flushing? ==>
      match w.phase.next
      case Serve => |w.buf| >= c.maxSize || Overdue(c, w)
      case Drain => |w.buf| >= c.maxSize
      case Stop => w.closed
  }

  lemma NextJustified(c: Config, w: Writer, a: Action)
    requires Inv(c, w) && Justified(c, w) && Enabled(c, w, a)
    ensures Justified(c, Next(c, w, a))
  {
    hide Conserved;
    match a
    case Send(_) => SameJustified(c, w, a);
    case Check(_, _) => SameJustified(c, w, a);
    case GiveUp(_) => SameJustified(c, w, a);
    case Close => SameJustified(c, w, a);
    case Tick(t) =>
      if Overdue(c, w) {
        var k :| 0 <= k < |w.arrivals| && w.arrivals[k] + c.maxLatency <= w.now;
        assert Next(c, w, a).arrivals[k] + c.maxLatency <= t;
      }
    case HandOff(p) =>
      TakeJustified(c, w.(passed := Without(w.passed, p), accepted := w.accepted + [(p, w.passed[p])]), w.passed[p]);
    case Receive => TakeJustified(c, w.(queue := w.queue[1..]), w.queue[0]);
    case Fire =>
      var n := Next(c, w, a);
      if n.phase.Flushing? { assert n.arrivals[0] + c.maxLatency <= n.now; }
    case Exec(_) => hide Overdue;
    case SeeClosed =>
    case Finish =>
  }

  lemma SameJustified(c: Config, w: Writer, a: Action)
    requires Justified(c, w) && Enabled(c, w, a) && (a.Send? || a.Check? || a.GiveUp? || a.Close?)
    ensures Justified(c, Next(c, w, a))
  {
    var n := Next(c, w, a);
    assert n.phase == w.phase && n.buf == w.buf && (w.closed ==> n.closed) && n.arrivals == w.arrivals && n.now == w.now;
    assert Overdue(c, n) <==> Overdue(c, w);
    hide Overdue; hide Next;
  }

  lemma TakeJustified(c: Config, w: Writer, r: Reading)
    requires w.phase.Serving? || w.phase.Draining?
    ensures Justified(c, Take(c, w, r))
  {
    hide Overdue;
  }

  /** In every run: a flush happens only for one of these reasons, a batch is only ever added
      by a flush and is what was buffered, and no full buffer waits. */
  lemma {:induction false} NoEarlyFlush(c: Config, run: seq<Writer>, i: nat)
    requires Run(c, run) && i < |run|
    ensures Justified(c, run[i])
    ensures i > 0 && run[i].batches != run[i - 1].batches ==>
              run[i - 1].phase.Flushing? && AddsBatch(run[i - 1].batches, run[i].batches, run[i - 1].buf)
    ensures run[i].phase.Serving? || run[i].phase.Draining? ==> run[i].buf == [] || |run[i].buf| < c.maxSize
  {
    Always(c, run, i);
    assert run[i].phase.Serving? || run[i].phase.Draining? ==> run[i].buf == [] || |run[i].buf| < c.maxSize;
    hide Inv; hide Next; hide Enabled; hide AddsBatch;
    if i > 0 {
      NoEarlyFlush(c, run, i - 1);
      Always(c, run, i - 1);
      assert Steps(c, run[i - 1], run[i - 1 + 1]);
      var a :| Enabled(c, run[i - 1], a) && run[i] == Next(c, run[i - 1], a);
      hide Justified;
      NextJustified(c, run[i - 1], a);
      BatchesChange(c, run[i - 1], a);
    } else {
      NewJustified(c, run);
    }
  }

  lemma NewJustified(c: Config, run: seq<Writer>)
    requires Run(c, run)
    ensures Justified(c, run[0])
  {
  }

  // ---- Enqueue ----

  /** Enqueue on an open writer passes the first check, and on a closed one is refused. */
  lemma CheckExactly(c: Config, w: Writer, p: int, r: Reading)
    requires p !in w.passed
    ensures Enabled(c, w, Check(p, r))
    ensures Next(c, w, Check(p, r)) == if w.closed then w else w.(passed := w.passed[p := r])
  {
  }

  /** Past the check, Enqueue can go on exactly if the queue has room, the loop is waiting at an
      empty queue, or the writer is closed; it is refused only if the writer is closed, and
      else its reading becomes the last of those accepted, flushed, buffered and queued. */
  lemma EnqueueExactly(c: Config, w: Writer, p: int)
    requires Inv(c, w) && p in w.passed
    ensures Enabled(c, w, Send(p)) <==> |w.queue| < c.queueCap
    ensures Enabled(c, w, HandOff(p)) <==> w.queue == [] && (w.phase.Serving? || w.phase.Draining?)
    ensures Enabled(c, w, GiveUp(p)) <==> w.closed
    ensures forall a :: Enabled(c, w, a) && p !in Next(c, w, a).passed ==> a == Send(p) || a == HandOff(p) || a == GiveUp(p)
    ensures forall a :: Enabled(c, w, a) && (a == Send(p) || a == HandOff(p)) ==>
              var n := Next(c, w, a);
              && p !in n.passed && n.accepted == w.accepted + [(p, w.passed[p])]
              && Flat(n.batches) + n.buf + n.queue == Flat(w.batches) + w.buf + w.queue + [w.passed[p]]
    ensures Enabled(c, w, GiveUp(p)) ==> Next(c, w, GiveUp(p)) == w.(passed := w.passed - {p})
  {
    forall a | Enabled(c, w, a) && p !in Next(c, w, a).passed ensures a == Send(p) || a == HandOff(p) || a == GiveUp(p) {
      LeavesBy(c, w, p, a);
    }
    forall a | Enabled(c, w, a) && (a == Send(p) || a == HandOff(p))
      ensures var n := Next(c, w, a);
              && p !in n.passed && n.accepted == w.accepted + [(p, w.passed[p])]
              && Flat(n.batches) + n.buf + n.queue == Flat(w.batches) + w.buf + w.queue + [w.passed[p]]
    {
      Accepts(c, w, p, a);
    }
  }

  lemma LeavesBy(c: Config, w: Writer, p: int, a: Action)
    requires p in w.passed && Enabled(c, w, a) && p !in Next(c, w, a).passed
    ensures a == Send(p) || a == HandOff(p) || a == GiveUp(p)
  {
  }

  lemma Accepts(c: Config, w: Writer, p: int, a: Action)
    requires Inv(c, w) && Enabled(c, w, a) && (a == Send(p) || a == HandOff(p))
    ensures var n := Next(c, w, a);
            && p !in n.passed && n.accepted == w.accepted + [(p, w.passed[p])]
            && Flat(n.batches) + n.buf + n.queue == Flat(w.batches) + w.buf + w.queue + [w.passed[p]]
  {
    NextKeeps(c, w, a);
    var n := Next(c, w, a);
    assert p !in n.passed && n.accepted == w.accepted + [(p, w.passed[p])];
    assert Conserved(w) && Conserved(n);
    hide Next; hide Inv; hide Flat; hide Readings;
    ReadingsAppend(w.accepted, (p, w.passed[p]));
  }

  /** The loop takes readings in the order of the queue, whenever it is at its select. */
  lemma ReceiveExactly(c: Config, w: Writer)
    requires Inv(c, w)
    ensures Enabled(c, w, Receive) <==> w.queue != [] && (w.phase.Serving? || w.phase.Draining?)
    ensures Enabled(c, w, Receive) ==>
              Next(c, w, Receive).queue == w.queue[1..] && Next(c, w, Receive).buf == w.buf + [w.queue[0]]
  {
  }

  // ---- Close ----

  /** History only grows. */
  ghost predicate Extends(w: Writer, w': Writer) {
    && w.accepted <= w'.accepted
    && (w.closed ==> w'.closed && w'.mark == w.mark)
  }

  lemma NextExtends(c: Config, w: Writer, a: Action)
    requires Enabled(c, w, a)
    ensures Extends(w, Next(c, w, a))
  {
  }

  lemma {:induction false} RunExtends(c: Config, run: seq<Writer>, i: nat, j: nat)
    requires Run(c, run) && i <= j < |run|
    ensures Extends(run[i], run[j])
    decreases j - i
  {
    hide Next; hide Enabled;
    if i < j {
      RunExtends(c, run, i, j - 1);
      assert Steps(c, run[j - 1], run[j - 1 + 1]);
      var a :| Enabled(c, run[j - 1], a) && run[j] == Next(c, run[j - 1], a);
      NextExtends(c, run[j - 1], a);
    }
  }

  /** When Close takes effect in state i and the final flush is over in state j, every
      reading accepted by state i has been handed to the database, in order. What is still
      in the queue was accepted later, and is no more than the producers that were between
      the two selects of Enqueue in state i. */
  lemma CloseLosesNothing(c: Config, run: seq<Writer>, i: nat, j: nat)
    requires Run(c, run) && i < j < |run| && !run[i].closed && run[i + 1] == Next(c, run[i], Close)
    requires run[j].phase.Stopped?
    ensures Readings(run[i].accepted) <= Flat(run[j].batches)
    ensures |run[j].queue| <= |run[i].passed|
    ensures Readings(run[j].accepted) == Flat(run[j].batches) + run[j].queue
  {
    Always(c, run, j);
    RunExtends(c, run, i, j);
    RunExtends(c, run, i + 1, j);
    var n, flat := |run[i].accepted|, Flat(run[j].batches);
    assert Readings(run[j].accepted) == flat + run[j].queue;
    assert Readings(run[i].accepted) == Readings(run[j].accepted)[..n] == flat[..n];
  }

  // ---- The drain ends ----

  ghost function Rank(w: Writer): nat {
    match w.phase
    case Stopped => 0
    case Draining => 4
    case Serving => if w.buf == [] then 5 else 9
    case Flushing(next, tries) =>
      (match next case Stop => 1 case Drain => 5 case Serve => 6) + if tries == [] then 2 else 1
  }

  /** Work left after Close: producers past the check, queued readings, and the loop's phase. */
  ghost function Work(w: Writer): nat {
    6 * |w.passed| + 5 * |w.queue| + Rank(w)
  }

  ghost predicate Idle(w: Writer, a: Action) {
    a.Check? || a.Close? || a.Tick?
  }

  lemma TakeWork(c: Config, w: Writer, r: Reading)
    requires Bounded(c, w) && (w.phase.Serving? || w.phase.Draining?)
    ensures Take(c, w, r).passed == w.passed && Take(c, w, r).queue == w.queue
    ensures Rank(Take(c, w, r)) <= Rank(w) + 4
  {
  }

  lemma TriedWork(w: Writer, ok: bool)
    requires w.phase.Flushing? && (w.phase.tries == [] || w.phase.tries == [false])
    ensures Tried(w, ok).passed == w.passed && Tried(w, ok).queue == w.queue
    ensures Rank(Tried(w, ok)) < Rank(w)
  {
  }

  lemma HandOffWork(c: Config, w: Writer, p: int)
    requires Bounded(c, w) && Enabled(c, w, HandOff(p))
    ensures Work(Next(c, w, HandOff(p))) < Work(w)
  {
    SizeWithout(w.passed, p);
    TakeWork(c, w.(passed := Without(w.passed, p), accepted := w.accepted + [(p, w.passed[p])]), w.passed[p]);
  }

  lemma ReceiveWork(c: Config, w: Writer)
    requires Bounded(c, w) && Enabled(c, w, Receive)
    ensures Work(Next(c, w, Receive)) < Work(w)
  {
    TakeWork(c, w.(queue := w.queue[1..]), w.queue[0]);
  }

  // The loop's own steps, and a refused or repeated call.
  lemma LoopWork(c: Config, w: Writer, a: Action)
    requires Inv(c, w) && w.closed && Enabled(c, w, a)
    requires a.Fire? || a.SeeClosed? || a.Finish? || a.Exec?
    ensures Work(Next(c, w, a)) < Work(w)
  {
    if a.Exec? { TriedWork(w, a.ok); }
  }

  lemma ProducerWork(c: Config, w: Writer, a: Action)
    requires Bounded(c, w) && w.closed && Enabled(c, w, a)
    requires a.Send? || a.GiveUp? || a.HandOff?
    ensures Work(Next(c, w, a)) < Work(w)
  {
    SizeWithout(w.passed, a.p);
    if a.HandOff? { HandOffWork(c, w, a.p); }
  }

  /** After Close every step that is not a refused Enqueue, a repeated Close or the passing
      of time uses up work; so racing producers cannot keep the drain alive. */
  lemma DrainProgress(c: Config, w: Writer, a: Action)
    requires Inv(c, w) && w.closed && Enabled(c, w, a)
    ensures if Idle(w, a) then Work(Next(c, w, a)) == Work(w) else Work(Next(c, w, a)) < Work(w)
  {
    if a.Receive? {
      ReceiveWork(c, w);
    } else if a.Send? || a.GiveUp? || a.HandOff? {
      ProducerWork(c, w, a);
    } else if !Idle(w, a) {
      LoopWork(c, w, a);
    }
  }

  lemma TakeBacklog(c: Config, w: Writer, r: Reading)
    ensures Take(c, w, r).passed == w.passed && Take(c, w, r).queue == w.queue
  {
  }

  /** In terms of readings: what is queued or about to be never grows after Close, and
      falls with every reading the loop takes from the queue. */
  lemma BacklogShrinks(c: Config, w: Writer, a: Action)
    requires w.closed && Enabled(c, w, a)
    ensures var n := Next(c, w, a);
            && |n.queue| + |n.passed| <= |w.queue| + |w.passed|
            && (a.Receive? ==> |n.queue| + |n.passed| < |w.queue| + |w.passed|)
  {
    hide Take;
    if a.Send? || a.GiveUp? || a.HandOff? { SizeWithout(w.passed, a.p); }
    if a.HandOff? {
      TakeBacklog(c, w.(passed := Without(w.passed, a.p), accepted := w.accepted + [(a.p, w.passed[a.p])]), w.passed[a.p]);
    }
    if a.Receive? { TakeBacklog(c, w.(queue := w.queue[1..]), w.queue[0]); }
    hide Without; hide StartFlush; hide Tried;
    if !a.Send? && !a.GiveUp? && !a.HandOff? && !a.Receive? { OthersKeepBacklog(c, w, a); }
  }

  lemma OthersKeepBacklog(c: Config, w: Writer, a: Action)
    requires w.closed && Enabled(c, w, a) && !a.Send? && !a.GiveUp? && !a.HandOff? && !a.Receive?
    ensures Next(c, w, a).queue == w.queue && Next(c, w, a).passed == w.passed
  {
  }

  ghost predicate EndsEmpty(w: Writer) {
    w.phase.Stopped? || (w.phase.Flushing? && w.phase.next.Stop?) ==> w.queue == []
  }

  /** Until the final flush is over, the loop itself can always take a step, and it needs
      no producer to move. */
  lemma LoopNeverStuck(c: Config, w: Writer) returns (a: Action)
    requires Inv(c, w) && w.closed && !w.phase.Stopped?
    ensures Enabled(c, w, a) && (a.SeeClosed? || a.Receive? || a.Finish? || a.Exec?)
    ensures Next(c, w, a).passed == w.passed
    ensures EndsEmpty(w) ==> EndsEmpty(Next(c, w, a))
  {
    hide Conserved; hide Timed; hide Closing;
    a := match w.phase
      case Serving => SeeClosed
      case Flushing(_, _) => Exec(true)
      case Draining => if w.queue == [] then Finish else Receive
      case Stopped => Close;
  }

  lemma {:induction false} PathInv(c: Config, w: Writer, acts: seq<Action>, w': Writer)
    requires Inv(c, w) && Path(c, w, acts, w')
    ensures Inv(c, w') && Extends(w, w')
    decreases |acts|
  {
    if acts != [] {
      NextKeeps(c, w, acts[0]);
      NextExtends(c, w, acts[0]);
      PathInv(c, Next(c, w, acts[0]), acts[1..], w');
    }
  }

  ghost function Busy(w: Writer, acts: seq<Action>): nat {
    if acts == [] then 0 else (if Idle(w, acts[0]) then 0 else 1) + Busy(w, acts[1..])
  }

  /** However the steps interleave, at most Work(w) of them are not idle. */
  lemma {:induction false} DrainIsBounded(c: Config, w: Writer, acts: seq<Action>, w': Writer)
    requires Inv(c, w) && w.closed && Path(c, w, acts, w')
    ensures Busy(w, acts) + Work(w') <= Work(w)
    decreases |acts|
  {
    if acts != [] {
      var n := Next(c, w, acts[0]);
      DrainProgress(c, w, acts[0]);
      NextKeeps(c, w, acts[0]);
      NextExtends(c, w, acts[0]);
      DrainIsBounded(c, n, acts[1..], w');
      BusySame(w, n, acts[1..]);
    }
  }

  lemma {:induction false} BusySame(w: Writer, w': Writer, acts: seq<Action>)
    ensures Busy(w, acts) == Busy(w', acts)
  {
    if acts != [] { BusySame(w, w', acts[1..]); }
  }

  /** The loop can always be run to its end with the producers standing still. */
  lemma {:induction false} RunToEnd(c: Config, w: Writer) returns (acts: seq<Action>, w': Writer)
    requires Inv(c, w) && w.closed && EndsEmpty(w)
    ensures Path(c, w, acts, w') && w'.phase.Stopped? && w'.passed == w.passed && w'.queue == []
    ensures forall a <- acts :: a.SeeClosed? || a.Receive? || a.Finish? || a.Exec?
    decreases Work(w)
  {
    if w.phase.Stopped? {
      acts, w' := [], w;
    } else {
      var a := LoopNeverStuck(c, w);
      var n := Next(c, w, a);
      DrainProgress(c, w, a);
      NextKeeps(c, w, a);
      NextExtends(c, w, a);
      hide Inv; hide Next; hide Work; hide EndsEmpty;
      var rest;
      rest, w' := RunToEnd(c, n);
      acts := [a] + rest;
      assert acts[1..] == rest;
    }
  }

  /** From this state the writer may finish and still leave an accepted reading behind. */
  ghost predicate MayStrand(c: Config, w: Writer) {
    exists acts, w' :: Path(c, w, acts, w') && w'.phase.Stopped? && w'.queue != []
  }

  lemma SomeMember<T>(ps: set<T>) returns (p: T)
    requires ps != {}
    ensures p in ps
  {
    p :| p in ps;
  }

  /** Exactly when Close can strand a reading: some producer was between the two selects of
      Enqueue, and the queue has room for anything at all. The caller of Close can rule it
      out by first waiting for every Enqueue to return, and not otherwise. */
  lemma StrandingExactly(c: Config, w: Writer)
    requires Inv(c, w) && !w.closed
    ensures MayStrand(c, Next(c, w, Close)) <==> w.passed.Keys != {} && c.queueCap > 0
  {
    var closed := Next(c, w, Close);
    NextKeeps(c, w, Close);
    if MayStrand(c, closed) {
      var acts, w' :| Path(c, closed, acts, w') && w'.phase.Stopped? && w'.queue != [];
      PathInv(c, closed, acts, w');
      assert w'.mark == closed.mark;
      assert |Readings(w'.accepted)| == |Flat(w'.batches)| + |w'.queue|;
      assert |w'.queue| <= |w.passed|;
      assert w.passed.Keys == {} ==> |w.passed| == 0;
    }
    if w.passed.Keys != {} && c.queueCap > 0 {
      var acts, end := RunToEnd(c, closed);
      var p := SomeMember(w.passed.Keys);
      PathAppend(c, closed, acts, end, Send(p));
      assert Next(c, end, Send(p)).queue != [];
    }
  }
}
