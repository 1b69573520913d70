/** The batch writer as code: one object whose fields the producers and the loop update, and
    the loop itself. Every method up to TryInsert is one atomic step of the protocol; the loop
    calls them, and between its steps the other goroutines do whatever they can. */
module WriterLoop {
  import opened Model
  import opened BatchWriter
  import opened WriterGuarantees
  import opened InsertSql

  class Buffered {
    const c: Config
    var queue: seq<Reading>
    var buf: seq<Reading>
    var closed: bool
    var phase: Phase
    var timerActive: bool
    var timer: Option<int>
    var now: int
    var passed: map<int, Reading>
    ghost var accepted: seq<(int, Reading)>
    ghost var arrivals: seq<int>
    ghost var batches: seq<Batch>
    ghost var mark: Option<Mark>

    ghost function State(): Writer
      reads this
    {
      Writer(queue, buf, closed, phase, timerActive, timer, now, passed, accepted, arrivals, batches, mark)
    }

    constructor (c: Config, now: int)
      ensures this.c == c && State() == New(now) && Inv(c, State())
    {
      this.c := c;
      this.now := now;
      queue, buf, closed, phase := [], [], false, Serving;
      timerActive, timer, passed := false, None, map[];
      accepted, arrivals, batches, mark := [], [], [], None;
    }

    /** Enqueue's first select: refused if closed, else on to the second. */
    method EnqueueCheck(p: int, r: Reading) returns (refused: bool)
      requires Enabled(c, State(), Check(p, r))
      modifies this
      ensures State() == Next(c, old(State()), Check(p, r)) && refused == old(closed)
      ensures passed == if refused then old(passed) else old(passed)[p := r]
    {
      if closed { return true; }
      passed := passed[p := r];
      refused := false;
    }

    /** Enqueue's second select, when the queue has room. */
    method EnqueueSend(p: int)
      requires Enabled(c, State(), Send(p))
      modifies this
      ensures State() == Next(c, old(State()), Send(p))
    {
      var r := passed[p];
      queue := queue + [r];
      accepted := accepted + [(p, r)];
      passed := passed - {p};
    }

    /** Enqueue's second select, when the loop is waiting: the reading goes straight to it. */
    method EnqueueHandOff(p: int)
      requires Enabled(c, State(), HandOff(p))
      modifies this
      ensures State() == Next(c, old(State()), HandOff(p))
    {
      var r := passed[p];
      accepted := accepted + [(p, r)];
      passed := passed - {p};
      Append(r);
    }

    /** Enqueue's second select, when the writer closed while it waited. */
    method EnqueueGiveUp(p: int)
      requires Enabled(c, State(), GiveUp(p))
      modifies this
      ensures State() == Next(c, old(State()), GiveUp(p))
    {
      passed := passed - {p};
    }

    /** Closing twice is closing once. */
    method CloseOnce()
      modifies this
      ensures State() == Next(c, old(State()), Close)
    {
      if !closed {
        mark := Some(Mark(|accepted|, |passed|));
        closed := true;
      }
    }

    /** Arms the timer unless it is running. */
    method ResetTimer()
      modifies `timer, `timerActive
      ensures timerActive
      ensures timer == if old(timerActive) then old(timer) else Some(now + c.maxLatency)
    {
      if !timerActive {
        timer := Some(now + c.maxLatency);
        timerActive := true;
      }
    }

    method BeginFlush(next: Then)
      modifies `phase
      ensures State() == StartFlush(old(State()), next)
    {
      if |buf| == 0 {
        phase := match next case Serve => Serving case Drain => Draining case Stop => Stopped;
        return;
      }
      phase := Flushing(next, []);
    }

    /** A reading reaches the loop. */
    method Append(r: Reading)
      requires phase.Serving? || phase.Draining?
      modifies this
      ensures State() == Take(c, old(State()), r)
    {
      buf := buf + [r];
      arrivals := arrivals + [now];
      if phase.Serving? { ResetTimer(); }
      if |buf| >= c.maxSize {
        BeginFlush(if phase.Serving? then Serve else Drain);
      }
    }

    method OnReceive()
      requires Enabled(c, State(), Receive)
      modifies this
      ensures State() == Next(c, old(State()), Receive)
    {
      var r := queue[0];
      queue := queue[1..];
      Append(r);
    }

    method OnTimer()
      requires Enabled(c, State(), Fire)
      modifies this
      ensures State() == Next(c, old(State()), Fire)
    {
      timer := None;
      timerActive := false;
      BeginFlush(Serve);
    }

    method OnClosed()
      requires Enabled(c, State(), SeeClosed)
      modifies this
      ensures State() == Next(c, old(State()), SeeClosed)
    {
      phase := Draining;
    }

    method OnDrained()
      requires Enabled(c, State(), Finish)
      modifies this
      ensures State() == Next(c, old(State()), Finish)
    {
      BeginFlush(Stop);
    }

    /** One database call: the statement it sends inserts exactly the buffer. */
    method TryInsert(ok: bool) returns (sql: string, args: seq<Arg>)
      requires phase.Flushing? && buf != []
      modifies this
      ensures State() == Next(c, old(State()), Exec(ok))
      ensures Inserted(sql, args) == Some(old(buf))
    {
      hide Inserted;
      sql, args := BuildInsert(buf);
      AfterInsert(ok);
    }

    /** A failed call is tried again unless it was the last; otherwise the flush is over. */
    method AfterInsert(ok: bool)
      requires phase.Flushing?
      modifies this
      ensures State() == Tried(old(State()), ok)
    {
      var tries := phase.tries + [ok];
      if !ok && |tries| < FLUSH_ATTEMPTS {
        phase := Flushing(phase.next, tries);
        return;
      }
      batches := batches + [Batch(buf, tries)];
      buf, arrivals := [], [];
      if timerActive {
        timer := None;
        timerActive := false;
      }
      phase := match phase.next case Serve => Serving case Drain => Draining case Stop => Stopped;
    }

    // ---- The loop ----

    /** One step of another goroutine: a producer inside Enqueue, Close, or the clock. */
    method Other(a: Action)
      requires Inv(c, State())
      modifies this
      ensures Inv(c, State()) && Interfered(old(State()), State())
    {
      hide Inv; hide Work; hide Next;
      InterferedSame(State());
      match a
      case Check(p, r) =>
        if p !in passed {
          OtherStep(c, State(), a);
          var _ := EnqueueCheck(p, r);
        }
      case Send(p) =>
        if p in passed && |queue| < c.queueCap {
          OtherStep(c, State(), a);
          EnqueueSend(p);
        }
      case GiveUp(p) =>
        if p in passed && closed {
          OtherStep(c, State(), a);
          EnqueueGiveUp(p);
        }
      case Close =>
        OtherStep(c, State(), a);
        CloseOnce();
      case Tick(t) =>
        if now <= t {
          OtherStep(c, State(), a);
          Wait(t);
        }
      case _ =>  // not theirs to make
    }

    method Wait(t: int)
      requires Enabled(c, State(), Tick(t))
      modifies `now
      ensures State() == Next(c, old(State()), Tick(t))
    {
      now := t;
    }

    /** Anything the other goroutines may do between two steps of the loop. */
    method Others()
      requires Inv(c, State())
      modifies this
      ensures Inv(c, State()) && Interfered(old(State()), State())
    {
      hide Inv; hide Work;
      InterferedSame(State());
      var acts: seq<Action> := *;
      for i := 0 to |acts|
        invariant Inv(c, State()) && Interfered(old(State()), State())
      {
        Other(acts[i]);
      }
    }

    /** flush(): the same batch is tried at most twice, up to the first success; whatever the
        producers do meanwhile, it then counts as one batch, and the loop goes on with an empty
        buffer and no timer. */
    method Flush()
      requires Inv(c, State()) && phase.Flushing? && phase.tries == []
      modifies this
      ensures Inv(c, State()) && Extends(old(State()), State()) && phase == Landing(old(phase).next)
      ensures buf == [] && timer == None && !timerActive
      ensures AddsBatch(old(batches), batches, old(buf)) && Outcome(batches[|batches| - 1].tries)
      ensures old(closed) ==> Work(State()) < Work(old(State()))
    {
      hide Inv; hide Inserted; hide Work;
      for i := 0 to FLUSH_ATTEMPTS
        invariant Inv(c, State()) && Extends(old(State()), State()) && i < FLUSH_ATTEMPTS
        invariant phase == Flushing(old(phase).next, if i == 0 then [] else [false])
        invariant buf == old(buf) && batches == old(batches)
        invariant old(closed) ==> Work(State()) <= Work(old(State()))
      {
        Others();
        var ok: bool := *;
        FlushStep(c, State(), ok);
        var _, _ := TryInsert(ok);
        if !phase.Flushing? { return; }
      }
    }

    /** The case the main loop's select takes, before a flush it may begin. */
    method PickCase()
      requires Inv(c, State()) && phase.Serving?
      modifies this
      ensures Turned(c, old(State()), State())
    {
      TimerIsDeadline(c, State());
      hide Inv; hide Next; hide Turned;
      if {
        case queue != [] =>
          LoopTurn(c, State(), Receive);
          OnReceive();
        case p :| p in passed && queue == [] =>
          LoopTurn(c, State(), HandOff(p));
          EnqueueHandOff(p);
        case timer.Some? && timer.value <= now =>
          LoopTurn(c, State(), Fire);
          OnTimer();
        case closed =>
          LoopTurn(c, State(), SeeClosed);
          OnClosed();
        case queue == [] && !closed && !(timer.Some? && timer.value <= now) =>
          Waits(c, State());
      }
    }

    /** One turn of the main loop's select. It waits only if the queue is empty, nothing
        buffered is due and the writer is open. Else it takes one reading, which may fill the
        batch and flush it, or flushes the whole buffer because a reading is due, or goes on
        to the drain. */
    method SelectOnce()
      requires Inv(c, State()) && phase.Serving?
      modifies this
      ensures Inv(c, State()) && Extends(old(State()), State())
      ensures phase.Serving? || (phase.Draining? && closed)
      ensures old(closed) ==> Work(State()) < Work(old(State()))
      ensures
        || Took(old(buf), old(batches), buf, batches)
        || (Due(c, old(State())) && buf == [] && AddsBatch(old(batches), batches, old(buf)))
        || (old(closed) && phase.Draining? && buf == old(buf) && batches == old(batches))
        || (old(queue == [] && !closed) && !Due(c, old(State())) && State() == old(State()))
      ensures Due(c, old(State())) && old(queue == [] && passed == map[] && !closed) ==>
        buf == [] && AddsBatch(old(batches), batches, old(buf))
    {
      hide Inv; hide Work; hide Took; hide OneMore; hide AddsBatch; hide Extends;
      ghost var start := State();
      PickCase();
      ghost var picked := State();
      if phase.Flushing? {
        Flush();
        TookByFlush(start.buf, start.batches, picked.buf, batches);
        ExtendsOn(start, picked, State());
      } else {
        TookSoFar(start.buf, buf, batches);
      }
    }

    /** The main loop, up to the turn that sees the writer closed. Someone calls Close after
        at most `turns` turns. */
    method ServeUntilClosed(turns: nat)
      requires Inv(c, State()) && phase.Serving?
      modifies this
      ensures Inv(c, State()) && Extends(old(State()), State()) && closed && phase.Draining?
    {
      hide Inv; hide Work; hide Next;
      var t := 0;
      while phase.Serving?
        invariant Inv(c, State()) && Extends(old(State()), State()) && t <= turns
        invariant phase.Serving? || (phase.Draining? && closed)
        decreases turns - t, Work(State())
      {
        if t == turns {
          OtherStep(c, State(), Close);
          CloseOnce();
        } else {
          t := t + 1;
        }
        Others();
        SelectOnce();
      }
    }

    /** The inner loop after Close: takes what is queued or arrives, and stops at a final
        flush once the queue is found empty. */
    method DrainQueue()
      requires Inv(c, State()) && closed && phase.Draining?
      modifies this
      ensures Inv(c, State()) && Extends(old(State()), State()) && phase.Stopped?
    {
      hide Inv; hide Work; hide Next;
      while !phase.Stopped?
        invariant Inv(c, State()) && Extends(old(State()), State()) && closed
        invariant phase.Draining? || phase.Stopped?
        decreases Work(State())
      {
        Others();
        if {
          case queue != [] =>
            LoopStep(c, State(), Receive);
            OnReceive();
          case p :| p in passed && queue == [] =>
            LoopStep(c, State(), HandOff(p));
            EnqueueHandOff(p);
          case queue == [] =>
            LoopStep(c, State(), Finish);
            OnDrained();
        }
        if phase.Flushing? { Flush(); }
      }
    }

    /** run(): serves, drains and stops, whatever the other goroutines do. Everything accepted
        before Close was called has then been flushed, in order; what is left in the queue was
        accepted after it, from producers that were past the first closed-check. */
    method Run(turns: nat)
      requires Inv(c, State()) && phase.Serving?
      modifies this
      ensures Inv(c, State()) && closed && phase.Stopped? && buf == []
      ensures old(accepted) <= accepted && Readings(accepted) == Flat(batches) + queue
      ensures mark.Some? && mark.value.accepted <= |Flat(batches)| <= |accepted| && |queue| <= mark.value.passed
      ensures old(closed) ==> mark == old(mark)
    {
      ServeUntilClosed(turns);
      DrainQueue();
      WhenStopped(c, State());
    }
  }

  /** What the loop may rely on when other goroutines have stepped: what it owns is as it was,
      and once the writer is closed they add no work. */
  ghost predicate Interfered(w: Writer, w': Writer) {
    && Extends(w, w')
    && w'.phase == w.phase && w'.buf == w.buf && w'.batches == w.batches && w'.arrivals == w.arrivals
    && w'.timer == w.timer && w'.timerActive == w.timerActive
    && (w.closed ==> Work(w') <= Work(w))
  }

  lemma InterferedSame(w: Writer)
    ensures Interfered(w, w)
  {
  }

  lemma OtherStep(c: Config, w: Writer, a: Action)
    requires Inv(c, w) && Enabled(c, w, a) && (a.Check? || a.Send? || a.GiveUp? || a.Close? || a.Tick?)
    ensures Inv(c, Next(c, w, a)) && Interfered(w, Next(c, w, a))
    ensures a.Close? ==> Next(c, w, a).closed && Work(Next(c, w, a)) == Work(w)
  {
    NextKeeps(c, w, a);
    NextExtends(c, w, a);
    if w.closed { DrainProgress(c, w, a); }
  }

  /** One more reading is buffered, or was and the batch it filled is flushed. */
  ghost predicate Took(was: seq<Reading>, batchesWere: seq<Batch>, buf: seq<Reading>, batches: seq<Batch>) {
    || (OneMore(was, buf) && batches == batchesWere)
    || (buf == [] && |batches| == |batchesWere| + 1 && batches[..|batchesWere|] == batchesWere
        && OneMore(was, batches[|batchesWere|].readings))
  }

  ghost predicate OneMore(was: seq<Reading>, now: seq<Reading>) {
    |now| == |was| + 1 && now[..|was|] == was
  }

  ghost predicate Due(c: Config, w: Writer) {
    w.buf != [] && |w.arrivals| == |w.buf| && w.arrivals[0] + c.maxLatency <= w.now
  }

  /** What one case of the main loop's select does to the loop's own state. */
  ghost predicate Turned(c: Config, w: Writer, n: Writer) {
    && Inv(c, n) && Extends(w, n) && n.batches == w.batches && n.closed == w.closed
    && (w.closed ==> Work(n) < Work(w))
    && (n.phase.Serving? || n.phase == Flushing(Serve, []) || (n.phase.Draining? && n.closed))
    && (|| (OneMore(w.buf, n.buf) && !n.phase.Draining? && (w.queue != [] || w.passed != map[]))
        || (n.buf == w.buf && n.phase.Flushing? && Due(c, w))
        || (n.buf == w.buf && n.phase.Draining?)
        || (n == w && w.queue == [] && !w.closed && !Due(c, w)))
  }

  lemma LoopTurn(c: Config, w: Writer, a: Action)
    requires Inv(c, w) && w.phase.Serving? && Enabled(c, w, a) && (a.Receive? || a.HandOff? || a.Fire? || a.SeeClosed?)
    ensures Turned(c, w, Next(c, w, a))
  {
    TimerIsDeadline(c, w);
    hide Inv; hide Work; hide Next; hide OneMore; hide Extends;
    LoopStep(c, w, a);
  }

  lemma Waits(c: Config, w: Writer)
    requires Inv(c, w) && w.phase.Serving? && w.queue == [] && !w.closed && !(w.timer.Some? && w.timer.value <= w.now)
    ensures Turned(c, w, w)
  {
    TimerIsDeadline(c, w);
    hide Inv;
  }

  lemma ExtendsOn(w: Writer, w': Writer, w'': Writer)
    requires Extends(w, w') && Extends(w', w'')
    ensures Extends(w, w'')
  {
  }

  lemma TookSoFar(was: seq<Reading>, buf: seq<Reading>, batches: seq<Batch>)
    ensures OneMore(was, buf) ==> Took(was, batches, buf, batches)
  {
  }

  lemma TookByFlush(was: seq<Reading>, batchesWere: seq<Batch>, filled: seq<Reading>, batches: seq<Batch>)
    ensures OneMore(was, filled) && AddsBatch(batchesWere, batches, filled) ==> Took(was, batchesWere, [], batches)
  {
  }

  lemma TimerIsDeadline(c: Config, w: Writer)
    requires Inv(c, w) && w.phase.Serving?
    ensures |w.arrivals| == |w.buf|
    ensures w.timer == if w.buf == [] then None else Some(w.arrivals[0] + c.maxLatency)
  {
  }

  /** Where the loop goes on after a step, once a flush it may start is over. */
  function Target(w: Writer, a: Action): Then {
    if a.Finish? then Stop else if a.SeeClosed? || w.phase.Draining? then Drain else Serve
  }

  lemma LoopStep(c: Config, w: Writer, a: Action)
    requires Inv(c, w) && Enabled(c, w, a) && (a.Receive? || a.HandOff? || a.Fire? || a.SeeClosed? || a.Finish?)
    ensures var n := Next(c, w, a);
            && Inv(c, n) && Extends(w, n) && n.closed == w.closed && (w.closed ==> Work(n) < Work(w))
            && (n.phase == Landing(Target(w, a)) || n.phase == Flushing(Target(w, a), []))
            && n.batches == w.batches
            && (if a.Receive? || a.HandOff? then OneMore(w.buf, n.buf) else n.buf == w.buf)
            && (a.Fire? ==> n.phase.Flushing?)
  {
    StepLands(c, w, a);
    hide Inv; hide Work; hide Next; hide Extends;
    NextKeeps(c, w, a);
    NextExtends(c, w, a);
    if w.closed { DrainProgress(c, w, a); }
  }

  lemma StepLands(c: Config, w: Writer, a: Action)
    requires Inv(c, w) && Enabled(c, w, a) && (a.Receive? || a.HandOff? || a.Fire? || a.SeeClosed? || a.Finish?)
    ensures var n := Next(c, w, a);
            && n.closed == w.closed
            && (n.phase == Landing(Target(w, a)) || n.phase == Flushing(Target(w, a), []))
            && n.batches == w.batches
            && (if a.Receive? || a.HandOff? then OneMore(w.buf, n.buf) else n.buf == w.buf)
            && (a.Fire? ==> n.phase.Flushing?)
  {
  }

  lemma FlushStep(c: Config, w: Writer, ok: bool)
    requires Inv(c, w) && w.phase.Flushing?
    ensures var n := Next(c, w, Exec(ok)); var tries := w.phase.tries + [ok];
            && w.buf != [] && Inv(c, n) && Extends(w, n) && n.closed == w.closed && (w.closed ==> Work(n) < Work(w))
            && (if ok || w.phase.tries != [] then
                  && n.phase == Landing(w.phase.next) && n.buf == [] && n.timer == None && !n.timerActive
                  && Outcome(tries) && n.batches == w.batches + [Batch(w.buf, tries)]
                else
                  && n.phase == Flushing(w.phase.next, [false]) && n.buf == w.buf && n.batches == w.batches)
  {
    NextKeeps(c, w, Exec(ok));
    NextExtends(c, w, Exec(ok));
    if w.closed { DrainProgress(c, w, Exec(ok)); }
    hide Work; hide Extends; hide Conserved; hide Closing;
  }

  lemma WhenStopped(c: Config, w: Writer)
    requires Inv(c, w) && w.phase.Stopped?
    ensures w.buf == [] && w.closed && Readings(w.accepted) == Flat(w.batches) + w.queue
    ensures w.mark.Some? && w.mark.value.accepted <= |Flat(w.batches)| <= |w.accepted| && |w.queue| <= w.mark.value.passed
  {
    assert |Readings(w.accepted)| == |Flat(w.batches)| + |w.queue|;
  }
}
