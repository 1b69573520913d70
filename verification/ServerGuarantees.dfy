/** What the data plane promises end to end: one stream's books, and what a shutdown may lose. */
module ServerGuarantees {
  import opened Model
  import W = BatchWriter
  import G = WriterGuarantees
  import H = Hub
  import HG = HubGuarantees
  import opened Ingest
  import opened Server

  /** Per stream, in every reachable state: what the writer accepted from it is its valid
      messages so far, in order and under the stream's device, less at most one still in
      hand or refused; what it published is that, less at most one. */
  lemma StreamBooks(c: Config, run: seq<State>, i: nat, id: int)
    requires Run(c, run) && i < |run| && id in run[i].conns
    ensures var s := run[i]; var conn := s.conns[id];
            var valid := Valid(conn.device, conn.received);
            var taken, published := Mine(s.writer.accepted, id), Mine(s.hub.history, id);
            && taken <= valid && |valid| <= |taken| + 1
            && published <= taken && |taken| <= |published| + 1
            && (conn.pc.AtRecv? ==> published == taken == valid && conn.accepted == |valid|)
            && conn.rejected + |valid| == |conn.received|
            && forall r <- taken :: r.device == conn.device && r.sensor in ALLOWED
  {
    Always(c, run, i);
    var s := run[i];
    var conn := s.conns[id];
    assert Books(conn, Mine(s.writer.accepted, id), Mine(s.hub.history, id));
    ValidityCounts(conn.device, conn.received);
    forall r | r in Mine(s.writer.accepted, id) ensures r.device == conn.device && r.sensor in ALLOWED {
      assert r in Valid(conn.device, conn.received);
    }
  }

  /** At half-close the summary tells the truth: accepted is what was both stored and
      published, and with rejected it is every message received. */
  lemma SummaryIsTrue(c: Config, run: seq<State>, i: nat, id: int)
    requires Run(c, run) && i < |run| && id in run[i].conns
    requires run[i].conns[id].pc.Returned? && run[i].conns[id].pc.result.Summary?
    ensures var s := run[i]; var conn := s.conns[id]; var Summary(accepted, rejected) := conn.pc.result;
            && accepted + rejected == |conn.received|
            && Mine(s.writer.accepted, id) == Mine(s.hub.history, id) == Valid(conn.device, conn.received)
            && accepted == |Valid(conn.device, conn.received)|
  {
    Always(c, run, i);
    var s := run[i];
    assert Books(s.conns[id], Mine(s.writer.accepted, id), Mine(s.hub.history, id));
    ValidityCounts(s.conns[id].device, s.conns[id].received);
  }

  // ---- What can hold a stream up ----

  /** A stream that is publishing has its own publish under way. */
  ghost predicate Publishing(s: State) {
    forall id <- s.conns :: s.conns[id].pc.InPublish? ==>
      var n := s.conns[id].pc.n; n in s.hub.pubs && n < |s.hub.history| && s.hub.history[n].0 == id
  }

  lemma FanKeepsPubs(h: H.State, a: H.Action)
    requires H.Enabled(h, a) && IsFan(a)
    ensures H.Next(h, a).pubs.Keys == h.pubs.Keys && H.Next(h, a).history == h.history
  {
  }

  lemma PublishingKept(c: Config, s: State, a: Action)
    requires Publishing(s) && Enabled(c, s, a)
    ensures Publishing(Next(c, s, a))
  {
    var s' := Next(c, s, a);
    hide W.Next; hide W.Enabled;
    match a
    case Fan(h) => FanKeepsPubs(s.hub, h); hide H.Next;
    case EndPublish(id) =>
      forall o | o in s'.conns && s'.conns[o].pc.InPublish? ensures s'.conns[o].pc.n in s'.hub.pubs {
        assert o != id && s.conns[o] == s'.conns[o];
      }
    case _ =>
  }

  lemma {:induction false} AlwaysPublishing(c: Config, run: seq<State>, i: nat)
    requires Run(c, run) && i < |run|
    ensures Publishing(run[i])
  {
    if i > 0 {
      AlwaysPublishing(c, run, i - 1);
      assert Server.Steps(c, run[i - 1], run[i - 1 + 1]);
      hide Publishing; hide Next; hide Enabled;
      var a :| Enabled(c, run[i - 1], a) && run[i] == Next(c, run[i - 1], a);
      PublishingKept(c, run[i - 1], a);
    }
  }

  /** The queue of an open writer is full, and the loop is not waiting for a reading. */
  ghost predicate Backpressure(c: Config, w: W.Writer) {
    !w.closed && |w.queue| >= c.writer.queueCap && !(w.queue == [] && (w.phase.Serving? || w.phase.Draining?))
  }

  /** A step of this stream's handler, or of the publish it is making. */
  ghost predicate StepOf(s: State, a: Action, id: int)
    requires id in s.conns
  {
    match s.conns[id].pc
    case AtRecv => a.Message? && a.id == id
    case BeforeEnqueue(_) => a == Check(id)
    case InEnqueue(_) => a == Accept(id, false) || a == Accept(id, true) || a == Refuse(id)
    case BeforePublish(_) => a == BeginPublish(id)
    case InPublish(n) => a == EndPublish(id) || (a.Fan? && (a.h.Send? || a.h.Count?) && HG.Advances(s.hub, n, a.h))
    case Returned(_) => false
  }

  /** The handler can take this step, and goes on as it should. */
  ghost predicate GoesOn(c: Config, s: State, a: Action, id: int) {
    && Enabled(c, s, a) && id in s.conns && StepOf(s, a, id)
    && (a.Refuse? ==> s.writer.closed)
    && (a.Check? ==> Next(c, s, a).conns[id].pc == if s.writer.closed then Returned(Unavailable) else InEnqueue(s.conns[id].pc.r))
    && (a.Accept? ==> Next(c, s, a).conns[id].pc == BeforePublish(s.conns[id].pc.r))
  }

  /** Only a full queue can hold a handler up: neither the other streams, nor slow subscribers,
      nor the shutdown. When a message is there it takes it; Enqueue goes on unless there is
      backpressure, and refuses only once the writer is closed; a publish can always be carried
      on, with less left to do at each step. */
  lemma OnlyBackpressureHolds(c: Config, run: seq<State>, i: nat, id: int, msg: Ingest.Message, now: int) returns (a: Action)
    requires Run(c, run) && i < |run| && id in run[i].conns && !run[i].conns[id].pc.Returned?
    requires !(run[i].conns[id].pc.InEnqueue? && Backpressure(c, run[i].writer))
    ensures GoesOn(c, run[i], a, id) && (a.Message? ==> a.msg == msg && a.now == now)
  {
    hide Inv; hide GoesOn; hide Publishing;
    Always(c, run, i);
    AlwaysPublishing(c, run, i);
    match run[i].conns[id].pc
    case AtRecv => a := Action.Message(id, msg, now); AwayFromEnqueue(c, run[i], a, id);
    case BeforeEnqueue(_) => a := Check(id); CheckGoesOn(c, run[i], id);
    case InEnqueue(_) => a := EnqueueGoesOn(c, run[i], id);
    case BeforePublish(_) => a := BeginPublish(id); AwayFromEnqueue(c, run[i], a, id);
    case InPublish(_) => a := PublishGoesOn(c, run[i], id);
  }

  lemma AwayFromEnqueue(c: Config, s: State, a: Action, id: int)
    requires id in s.conns && (a.Message? || a.BeginPublish?) && a.id == id && Enabled(c, s, a)
    ensures GoesOn(c, s, a, id)
  {
  }

  lemma CheckGoesOn(c: Config, s: State, id: int)
    requires Inv(c, s) && id in s.conns && s.conns[id].pc.BeforeEnqueue?
    ensures GoesOn(c, s, Check(id), id)
  {
    assert id !in s.writer.passed;
    hide Inv; hide W.Next;
  }

  lemma InsideWriter(c: Config, s: State, id: int)
    requires Inv(c, s) && id in s.conns && s.conns[id].pc.InEnqueue?
    ensures id in s.writer.passed
  {
  }

  lemma EnqueueGoesOn(c: Config, s: State, id: int) returns (a: Action)
    requires Inv(c, s) && id in s.conns && s.conns[id].pc.InEnqueue? && !Backpressure(c, s.writer)
    ensures GoesOn(c, s, a, id) && !a.Message?
  {
    hide Inv; hide W.Next;
    InsideWriter(c, s, id);
    a := if |s.writer.queue| < c.writer.queueCap then Accept(id, false)
         else if s.writer.closed then Refuse(id) else Accept(id, true);
  }

  lemma PublishGoesOn(c: Config, s: State, id: int) returns (a: Action)
    requires Inv(c, s) && Publishing(s) && id in s.conns && s.conns[id].pc.InPublish?
    ensures GoesOn(c, s, a, id) && !a.Message?
  {
    var n := s.conns[id].pc.n;
    HubInv(c, s);
    assert n in s.hub.pubs;
    hide Publishing; hide Inv; hide H.Inv; hide HG.Advances; hide H.Enabled; hide H.Next; hide GoesOn; hide Enabled; hide Next;
    var h := HG.CanStep(s.hub, n);
    a := if h.End? then EndPublish(id) else Fan(h);
    PublishStep(s.hub, n, h);
    FromHub(c, s, id, h, a);
  }

  lemma HubInv(c: Config, s: State)
    requires Inv(c, s)
    ensures H.Inv(s.hub)
  {
  }

  lemma FromHub(c: Config, s: State, id: int, h: H.Action, a: Action)
    requires id in s.conns && s.conns[id].pc.InPublish? && HG.Advances(s.hub, s.conns[id].pc.n, h)
    requires H.Enabled(s.hub, h) && (h == H.End(s.conns[id].pc.n) || ((h.Send? || h.Count?) && IsFan(h)))
    requires a == if h.End? then EndPublish(id) else Fan(h)
    ensures GoesOn(c, s, a, id)
  {
    hide HG.Advances; hide H.Enabled; hide H.Next; hide Next;
  }

  lemma PublishStep(h: H.State, n: nat, a: H.Action)
    requires HG.Advances(h, n, a)
    ensures H.Enabled(h, a) && (a == H.End(n) || ((a.Send? || a.Count?) && IsFan(a)))
  {
  }

  /** Once a graceful stop has been followed by a finished close, everything any stream ever
      had accepted has been handed to the database. */
  lemma GracefulShutdownLosesNothing(c: Config, run: seq<State>, i: nat)
    requires Run(c, run) && i < |run| && run[i].stop == Closed(true) && run[i].writer.phase.Stopped?
    ensures run[i].writer.queue == []
    ensures W.Readings(run[i].writer.accepted) == W.Flat(run[i].writer.batches)
  {
    Always(c, run, i);
    var w := run[i].writer;
    assert |W.Readings(w.accepted)| == |W.Flat(w.batches)| + |w.queue|;
  }

  // ---- When a stop was forced ----

  ghost predicate InsideEnqueue(s: State) {
    exists id: int :: id in s.conns && s.conns[id].pc.InEnqueue?
  }

  /** The writer is finished, and an accepted reading is still in its queue. */
  ghost predicate LeavesBehind(s: State) {
    s.writer.phase.Stopped? && s.writer.queue != []
  }

  /** The writer may report a finished flush and yet leave an accepted reading behind. */
  ghost predicate MayLose(c: Config, s: State) {
    exists acts, s' :: Path(c, s, acts, s') && LeavesBehind(s')
  }

  /** Closing the writer now may lose a reading. */
  ghost predicate CloseMayLose(c: Config, s: State) {
    s.stop.Stopped? && MayLose(c, Next(c, s, CloseWriter))
  }

  lemma {:induction false} PathKeeps(c: Config, s: State, acts: seq<Action>, s': State)
    requires Inv(c, s) && s.writer.closed && Path(c, s, acts, s')
    ensures Inv(c, s') && s'.writer.closed && s'.writer.mark == s.writer.mark
    decreases |acts|
  {
    if acts != [] {
      NextKeeps(c, s, acts[0]);
      MarkKept(c, s, acts[0]);
      PathKeeps(c, Next(c, s, acts[0]), acts[1..], s');
    }
  }

  lemma MarkKept(c: Config, s: State, a: Action)
    requires Inv(c, s) && Enabled(c, s, a) && s.writer.closed
    ensures Next(c, s, a).writer.closed && Next(c, s, a).writer.mark == s.writer.mark
  {
    match a
    case Accept(_, _) => PutEffect(c.writer, s.writer, a);
    case Loop(w) => LoopFrame(c.writer, s.writer, w);
    case _ =>
  }

  function LoopSteps(acts: seq<W.Action>): (steps: seq<Action>)
    ensures |steps| == |acts|
  {
    if acts == [] then [] else [Loop(acts[0])] + LoopSteps(acts[1..])
  }

  // The writer's own steps, replayed in the whole system, followed by one more step.
  lemma {:induction false} ReplayLoop(c: Config, s: State, acts: seq<W.Action>, w: W.Writer, last: Action)
    requires W.Path(c.writer, s.writer, acts, w) && forall a <- acts :: IsLoop(a)
    requires Enabled(c, s.(writer := w), last)
    ensures Path(c, s, LoopSteps(acts) + [last], Next(c, s.(writer := w), last))
    decreases |acts|
  {
    if acts == [] {
      assert LoopSteps(acts) + [last] == [last] && [last][1..] == [];
    } else {
      var n := Next(c, s, Loop(acts[0]));
      assert n.(writer := w) == s.(writer := w);
      ReplayLoop(c, n, acts[1..], w, last);
      var steps := LoopSteps(acts) + [last];
      assert steps[0] == Loop(acts[0]) && steps[1..] == LoopSteps(acts[1..]) + [last];
    }
  }

  lemma LeftBehind(c: W.Config, w: W.Writer)
    requires W.Inv(c, w) && w.phase.Stopped? && w.queue != []
    ensures w.closed && w.mark.value.passed > 0 && c.queueCap > 0
  {
    assert |W.Readings(w.accepted)| == |W.Flat(w.batches)| + |w.queue|;
  }

  /** The writer was just closed. */
  ghost predicate JustClosed(c: Config, s: State, closed: State) {
    && s.stop.Stopped? && closed == Next(c, s, CloseWriter) && closed.conns == s.conns
    && closed.writer.closed && closed.writer.passed == s.writer.passed && G.EndsEmpty(closed.writer)
    && closed.writer.mark == Some(W.Mark(|s.writer.accepted|, |s.writer.passed|))
  }

  lemma CloseEffect(c: Config, s: State) returns (closed: State)
    requires Inv(c, s) && s.stop.Stopped?
    ensures JustClosed(c, s, closed) && Inv(c, closed) && W.Inv(c.writer, closed.writer)
  {
    hide Inv; hide W.Inv; hide W.Next; hide G.EndsEmpty;
    OpenBefore(c, s);
    CloseOnly(c.writer, s.writer);
    closed := Next(c, s, CloseWriter);
    NextKeeps(c, s, CloseWriter);
    OpenBefore(c, closed);
  }

  lemma OpenBefore(c: Config, s: State)
    requires Inv(c, s)
    ensures W.Inv(c.writer, s.writer) && (s.stop.Stopped? ==> !s.writer.closed)
  {
  }

  lemma CloseOnly(c: W.Config, w: W.Writer)
    requires W.Inv(c, w) && !w.closed
    ensures var n := W.Next(c, w, W.Close);
            && n.closed && n.passed == w.passed && n.mark == Some(W.Mark(|w.accepted|, |w.passed|)) && G.EndsEmpty(n)
  {
  }

  lemma SomeoneInside(c: Config, s: State)
    requires Inv(c, s) && |s.writer.passed| > 0
    ensures InsideEnqueue(s)
  {
    assert s.writer.passed.Keys != {};
    var id := G.SomeMember(s.writer.passed.Keys);
    assert id in s.conns && s.conns[id].pc.InEnqueue?;
  }

  lemma LosingNeedsAHandler(c: Config, s: State)
    requires Inv(c, s) && CloseMayLose(c, s)
    ensures InsideEnqueue(s) && c.writer.queueCap > 0
  {
    var closed := CloseEffect(c, s);
    var acts, s' :| Path(c, closed, acts, s') && LeavesBehind(s');
    PathKeeps(c, closed, acts, s');
    assert W.Inv(c.writer, s'.writer);
    hide W.Inv; hide Inv; hide Next; hide Path;
    LeftBehind(c.writer, s'.writer);
    SomeoneInside(c, s);
  }

  // A handler inside Enqueue can still put its reading in the queue of a finished writer.
  lemma LateAccept(c: Config, s: State, w: W.Writer, id: int)
    requires id in s.conns && s.conns[id].pc.InEnqueue? && id in w.passed
    requires w.phase.Stopped? && w.queue == [] && c.writer.queueCap > 0
    ensures var t := s.(writer := w);
            && Enabled(c, t, Accept(id, false))
            && LeavesBehind(Next(c, t, Accept(id, false)))
  {
  }

  lemma AHandlerCanLose(c: Config, s: State)
    requires Inv(c, s) && s.stop.Stopped? && InsideEnqueue(s) && c.writer.queueCap > 0
    ensures CloseMayLose(c, s)
  {
    hide W.Inv; hide Inv; hide G.EndsEmpty; hide Next; hide LeavesBehind; hide Enabled; hide Path;
    var closed := CloseEffect(c, s);
    var id := HandlerInside(c, s);
    var acts, w := G.RunToEnd(c.writer, closed.writer);
    LateAccept(c, closed, w, id);
    forall a | a in acts ensures IsLoop(a) {}
    ReplayLoop(c, closed, acts, w, Accept(id, false));
  }

  lemma HandlerInside(c: Config, s: State) returns (id: int)
    requires Inv(c, s) && InsideEnqueue(s)
    ensures id in s.conns && s.conns[id].pc.InEnqueue? && id in s.writer.passed
  {
    id :| id in s.conns && s.conns[id].pc.InEnqueue?;
  }

  /** When the writer is closed after ingest stopped, a reading that its stream saw accepted
      can be left behind exactly if a handler is still inside Enqueue, which only a forced
      stop allows, and the queue can hold anything. */
  lemma ShutdownLosesExactly(c: Config, s: State)
    requires Inv(c, s) && s.stop.Stopped?
    ensures CloseMayLose(c, s) <==> InsideEnqueue(s) && c.writer.queueCap > 0
    ensures s.stop.graceful ==> !InsideEnqueue(s)
  {
    if CloseMayLose(c, s) { LosingNeedsAHandler(c, s); }
    if InsideEnqueue(s) && c.writer.queueCap > 0 { AHandlerCanLose(c, s); }
  }

  // ---- It happens ----

  lemma {:induction false} RunAlong(c: Config, run: seq<State>, acts: seq<Action>, s': State) returns (run': seq<State>)
    requires Run(c, run) && Path(c, run[|run| - 1], acts, s')
    ensures Run(c, run') && run'[|run'| - 1] == s'
    decreases |acts|
  {
    if acts == [] {
      run' := run;
    } else {
      var n := Next(c, run[|run| - 1], acts[0]);
      assert Server.Steps(c, run[|run| - 1], n);
      hide Next; hide Enabled; hide Initial;
      run' := RunAlong(c, run + [n], acts[1..], s');
    }
  }

  // One stream sends one reading, and the stop is forced while its handler is in Enqueue.
  lemma ForcedMidEnqueue(c: Config) returns (run: seq<State>)
    ensures Run(c, run) && run[|run| - 1].stop == Stopped(false) && InsideEnqueue(run[|run| - 1])
  {
    var msg := Ingest.Message("temperature", 20.0, Some(0));
    var s0 := State(W.New(0), H.New(c.hubBuffer), map[], Running);
    var s1 := Next(c, s0, Open(1, 7));
    var s2 := Next(c, s1, Action.Message(1, msg, 0));
    var s3 := Next(c, s2, Check(1));
    var s4 := Next(c, s3, BeginStop);
    var s5 := Next(c, s4, ForceStop);
    assert Server.Steps(c, s0, s1) && Server.Steps(c, s1, s2) && Server.Steps(c, s2, s3);
    assert Server.Steps(c, s3, s4) && Server.Steps(c, s4, s5);
    assert Initial(c, s0);
    run := [s0, s1, s2, s3, s4, s5];
    assert s5.conns[1].pc.InEnqueue?;
  }

  lemma LossNeedsRoom(c: Config, s: State)
    requires Inv(c, s) && LeavesBehind(s)
    ensures c.writer.queueCap > 0
  {
    LeftBehind(c.writer, s.writer);
  }

  lemma LossFromHere(c: Config, run: seq<State>) returns (longer: seq<State>)
    requires Run(c, run) && CloseMayLose(c, run[|run| - 1])
    ensures Run(c, longer) && LeavesBehind(longer[|longer| - 1])
  {
    var s := run[|run| - 1];
    hide Next; hide Run; hide LeavesBehind; hide Initial;
    var acts, s' :| Path(c, Next(c, s, CloseWriter), acts, s') && LeavesBehind(s');
    assert ([CloseWriter] + acts)[1..] == acts && ([CloseWriter] + acts)[0] == CloseWriter;
    longer := RunAlong(c, run, [CloseWriter] + acts, s');
  }

  /** Some run ends with the writer finished and an accepted reading left in its queue: so
      the comment that the queue is final once ingest has stopped is wrong, for every
      configuration whose queue can hold anything. */
  lemma LossIsReachable(c: Config)
    ensures (exists run: seq<State> :: Run(c, run) && LeavesBehind(run[|run| - 1])) <==> c.writer.queueCap > 0
  {
    hide Next; hide Inv; hide LeavesBehind; hide InsideEnqueue; hide MayLose;
    if run: seq<State> :| Run(c, run) && LeavesBehind(run[|run| - 1]) {
      Always(c, run, |run| - 1);
      LossNeedsRoom(c, run[|run| - 1]);
    }
    if c.writer.queueCap > 0 {
      var run := ForcedMidEnqueue(c);
      Always(c, run, |run| - 1);
      AHandlerCanLose(c, run[|run| - 1]);
      var longer := LossFromHere(c, run);
    }
  }
}
