/** The data plane put together: streams feeding the batch writer and the hub, and the
    shutdown that stops ingest before it closes the writer. Every step is one of a stream,
    of the writer's loop, of the hub's publishes and readers, or of the shutdown. */
module Server {
  import opened Model
  import W = BatchWriter
  import G = WriterGuarantees
  import H = Hub
  import opened Ingest

  /** Where a stream's handler is: at Recv, before or inside Enqueue, about to publish,
      publishing (with the number of its publish), or returned. */
  datatype Pc =
    | AtRecv | BeforeEnqueue(r: Reading) | InEnqueue(r: Reading) | BeforePublish(r: Reading) | InPublish(n: nat)
    | Returned(result: Result)

  datatype Conn = Conn(device: int, pc: Pc, received: seq<Received>, accepted: nat, rejected: nat)

  /** The shutdown sequence: stop taking streams; ingest stopped, gracefully or by force; the
      writer closed. */
  datatype Stop = Running | Stopping | Stopped(graceful: bool) | Closed(graceful: bool)

  datatype State = State(writer: W.Writer, hub: H.State, conns: map<int, Conn>, stop: Stop)

  datatype Config = Config(writer: W.Config, hubBuffer: nat)

  datatype Action =
    | Open(id: int, device: int)
    | Message(id: int, msg: Ingest.Message, now: int)
    | HalfClose(id: int)
    | Break(id: int)
    | Check(id: int)
    | Accept(id: int, direct: bool)
    | Refuse(id: int)
    | BeginPublish(id: int)
    | EndPublish(id: int)
    | Loop(w: W.Action)
    | Fan(h: H.Action)
    | BeginStop
    | GracefulStop
    | ForceStop
    | CloseWriter

  predicate IsLoop(a: W.Action) {
    a.Receive? || a.Fire? || a.SeeClosed? || a.Exec? || a.Finish? || a.Tick?
  }

  predicate IsFan(a: H.Action) {
    !a.Begin? && !a.End?
  }

  function Put(a: Action): W.Action
    requires a.Accept?
  {
    if a.direct then W.HandOff(a.id) else W.Send(a.id)
  }

  predicate AllReturned(conns: map<int, Conn>) {
    forall id <- conns :: conns[id].pc.Returned?
  }

  predicate Enabled(c: Config, s: State, a: Action) {
    match a
    case Open(id, _) => id !in s.conns && s.stop.Running?
    case Message(id, _, _) => id in s.conns && s.conns[id].pc.AtRecv?
    case HalfClose(id) => id in s.conns && s.conns[id].pc.AtRecv?
    case Break(id) => id in s.conns && s.conns[id].pc.AtRecv?
    case Check(id) => id in s.conns && s.conns[id].pc.BeforeEnqueue? && W.Enabled(c.writer, s.writer, W.Check(id, s.conns[id].pc.r))
    case Accept(id, _) => id in s.conns && s.conns[id].pc.InEnqueue? && W.Enabled(c.writer, s.writer, Put(a))
    case Refuse(id) => id in s.conns && s.conns[id].pc.InEnqueue? && W.Enabled(c.writer, s.writer, W.GiveUp(id))
    case BeginPublish(id) => id in s.conns && s.conns[id].pc.BeforePublish?
    case EndPublish(id) => id in s.conns && s.conns[id].pc.InPublish? && H.Enabled(s.hub, H.End(s.conns[id].pc.n))
    case Loop(w) => IsLoop(w) && W.Enabled(c.writer, s.writer, w)
    case Fan(h) => IsFan(h) && H.Enabled(s.hub, h)
    case BeginStop => s.stop.Running?
    case GracefulStop => s.stop.Stopping? && AllReturned(s.conns)
    case ForceStop => s.stop.Stopping?
    case CloseWriter => s.stop.Stopped?
  }

  function At(s: State, id: int, pc: Pc): State
    requires id in s.conns
  {
    s.(conns := s.conns[id := s.conns[id].(pc := pc)])
  }

  function Next(c: Config, s: State, a: Action): State
    requires Enabled(c, s, a)
  {
    match a
    case Open(id, device) => s.(conns := s.conns[id := Conn(device, AtRecv, [], 0, 0)])
    case Message(id, msg, now) =>
      var conn := s.conns[id].(received := s.conns[id].received + [(msg, now)]);
      s.(conns := s.conns[id :=
        match ToReading(conn.device, msg, now)
        case None => conn.(rejected := conn.rejected + 1)
        case Some(r) => conn.(pc := BeforeEnqueue(r))])
    case HalfClose(id) => At(s, id, Returned(Summary(s.conns[id].accepted, s.conns[id].rejected)))
    case Break(id) => At(s, id, Returned(Broken))
    case Check(id) =>
      var r := s.conns[id].pc.r;
      At(s.(writer := W.Next(c.writer, s.writer, W.Check(id, r))), id,
         if s.writer.closed then Returned(Unavailable) else InEnqueue(r))
    case Accept(id, _) => At(s.(writer := W.Next(c.writer, s.writer, Put(a))), id, BeforePublish(s.conns[id].pc.r))
    case Refuse(id) => At(s.(writer := W.Next(c.writer, s.writer, W.GiveUp(id))), id, Returned(Unavailable))
    case BeginPublish(id) =>
      At(s.(hub := H.Next(s.hub, H.Begin(id, s.conns[id].pc.r))), id, InPublish(|s.hub.history|))
    case EndPublish(id) =>
      var conn := s.conns[id];
      s.(hub := H.Next(s.hub, H.End(conn.pc.n)), conns := s.conns[id := conn.(pc := AtRecv, accepted := conn.accepted + 1)])
    case Loop(w) => s.(writer := W.Next(c.writer, s.writer, w))
    case Fan(h) => s.(hub := H.Next(s.hub, h))
    case BeginStop => s.(stop := Stopping)
    case GracefulStop => s.(stop := Stopped(true))
    case ForceStop => s.(stop := Stopped(false))
    case CloseWriter => s.(stop := Closed(s.stop.graceful), writer := W.Next(c.writer, s.writer, W.Close))
  }

  ghost predicate Initial(c: Config, s: State) {
    exists now :: s == State(W.New(now), H.New(c.hubBuffer), map[], Running)
  }

  ghost predicate Steps(c: Config, s: State, s': State) {
    exists a :: Enabled(c, s, a) && s' == Next(c, s, a)
  }

  ghost predicate Run(c: Config, run: seq<State>) {
    && run != [] && Initial(c, run[0])
    && forall i :: 0 <= i < |run| - 1 ==> Steps(c, run[i], run[i + 1])
  }

  /** A continuation of a state by enabled actions. */
  ghost predicate Path(c: Config, s: State, acts: seq<Action>, s': State)
    decreases |acts|
  {
    if acts == [] then s == s'
    else Enabled(c, s, acts[0]) && Path(c, Next(c, s, acts[0]), acts[1..], s')
  }

  // ---- What every step keeps ----

  /** The entries of one stream in a history, in order. */
  function Mine(history: seq<(int, Reading)>, id: int): seq<Reading> {
    if history == [] then []
    else
      var n := |history| - 1;
      Mine(history[..n], id) + if history[n].0 == id then [history[n].1] else []
  }

  lemma MineAppend(history: seq<(int, Reading)>, x: (int, Reading), id: int)
    ensures Mine(history + [x], id) == Mine(history, id) + if x.0 == id then [x.1] else []
  {
    assert (history + [x])[..|history|] == history;
  }

  /** The valid reading that is not (yet) accepted: in hand before or inside Enqueue. */
  function InHand(pc: Pc): seq<Reading> {
    if pc.BeforeEnqueue? || pc.InEnqueue? then [pc.r] else []
  }

  /** One stream's books. What the writer accepted from it is its valid readings so far, in
      order, less the one in hand or refused; what it published is that, less one about to be
      published; the counters say so. */
  ghost predicate Books(conn: Conn, taken: seq<Reading>, published: seq<Reading>) {
    var valid := Valid(conn.device, conn.received);
    && conn.rejected == Invalid(conn.device, conn.received)
    && (conn.pc == Returned(Unavailable) ==> |valid| == |taken| + 1 && taken <= valid)
    && (conn.pc != Returned(Unavailable) ==> valid == taken + InHand(conn.pc))
    && taken == published + (if conn.pc.BeforePublish? then [conn.pc.r] else [])
    && |published| == conn.accepted + (if conn.pc.InPublish? then 1 else 0)
    && (conn.pc.Returned? && conn.pc.result.Summary? ==> conn.pc.result == Summary(conn.accepted, conn.rejected))
    && conn.pc != Returned(Unauthenticated)
  }

  ghost predicate AllBooks(s: State) {
    && (forall id <- s.conns :: Books(s.conns[id], Mine(s.writer.accepted, id), Mine(s.hub.history, id)))
    && (forall id: int :: id !in s.conns ==> Mine(s.writer.accepted, id) == [] && Mine(s.hub.history, id) == [])
  }

  /** The producers inside Enqueue are the streams inside Enqueue. */
  ghost predicate Producers(s: State) {
    forall id: int :: id in s.writer.passed <==>
      id in s.conns && s.conns[id].pc.InEnqueue?
  }

  ghost predicate SameReading(s: State) {
    forall id <- s.writer.passed :: id in s.conns && s.conns[id].pc == InEnqueue(s.writer.passed[id])
  }

  /** The writer is closed only at the end, and after a graceful stop no handler is left. */
  ghost predicate Ordered(s: State) {
    && (s.writer.closed <==> s.stop.Closed?)
    && ((s.stop.Stopped? || s.stop.Closed?) && s.stop.graceful ==> AllReturned(s.conns))
    && (s.stop == Closed(true) ==> s.writer.mark.Some? && s.writer.mark.value.passed == 0)
  }

  ghost predicate Inv(c: Config, s: State) {
    W.Inv(c.writer, s.writer) && H.Inv(s.hub) && AllBooks(s) && Producers(s) && SameReading(s) && Ordered(s)
  }

  lemma LoopFrame(c: W.Config, w: W.Writer, a: W.Action)
    requires W.Enabled(c, w, a) && IsLoop(a)
    ensures var n := W.Next(c, w, a); n.accepted == w.accepted && n.passed == w.passed && n.closed == w.closed && n.mark == w.mark
  {
  }

  lemma PutEffect(c: W.Config, w: W.Writer, a: Action)
    requires a.Accept? && W.Enabled(c, w, Put(a))
    ensures var n := W.Next(c, w, Put(a));
            && n.accepted == w.accepted + [(a.id, w.passed[a.id])] && n.passed == W.Without(w.passed, a.id)
            && n.closed == w.closed && n.mark == w.mark
  {
  }

  lemma FanFrame(h: H.State, a: H.Action)
    requires H.Enabled(h, a) && IsFan(a)
    ensures H.Next(h, a).history == h.history
  {
  }

  /** Every step is at most one step of the writer and one of the hub. */
  lemma ComponentsKeep(c: Config, s: State, a: Action)
    requires W.Inv(c.writer, s.writer) && H.Inv(s.hub) && Enabled(c, s, a)
    ensures W.Inv(c.writer, Next(c, s, a).writer) && H.Inv(Next(c, s, a).hub)
  {
    hide W.Inv; hide H.Inv; hide W.Next; hide H.Next;
    match a
    case Check(id) => W.NextKeeps(c.writer, s.writer, W.Check(id, s.conns[id].pc.r));
    case Accept(_, _) => W.NextKeeps(c.writer, s.writer, Put(a));
    case Refuse(id) => W.NextKeeps(c.writer, s.writer, W.GiveUp(id));
    case BeginPublish(id) => H.NextKeeps(s.hub, H.Begin(id, s.conns[id].pc.r));
    case EndPublish(id) => H.NextKeeps(s.hub, H.End(s.conns[id].pc.n));
    case Loop(w) => W.NextKeeps(c.writer, s.writer, w);
    case Fan(h) => H.NextKeeps(s.hub, h);
    case CloseWriter => W.NextKeeps(c.writer, s.writer, W.Close);
    case _ =>
  }

  /** Only one stream's books changed. */
  lemma OneBook(s: State, s': State, id: int)
    requires AllBooks(s) && id in s'.conns
    requires s'.conns.Keys == s.conns.Keys + {id}
    requires forall o: int :: o != id ==>
      && (o in s.conns ==> s'.conns[o] == s.conns[o])
      && Mine(s'.writer.accepted, o) == Mine(s.writer.accepted, o) && Mine(s'.hub.history, o) == Mine(s.hub.history, o)
    requires Books(s'.conns[id], Mine(s'.writer.accepted, id), Mine(s'.hub.history, id))
    ensures AllBooks(s')
  {
  }

  lemma MessageInBook(conn: Conn, msg: Ingest.Message, now: int, taken: seq<Reading>, published: seq<Reading>)
    requires Books(conn, taken, published) && conn.pc.AtRecv?
    ensures var heard := conn.(received := conn.received + [(msg, now)]);
            Books(match ToReading(conn.device, msg, now)
                  case None => heard.(rejected := conn.rejected + 1)
                  case Some(r) => heard.(pc := BeforeEnqueue(r)), taken, published)
  {
    ValidAppend(conn.device, conn.received, (msg, now));
  }

  lemma MessageKeepsBooks(c: Config, s: State, a: Action)
    requires AllBooks(s) && Enabled(c, s, a) && a.Message?
    ensures AllBooks(Next(c, s, a))
  {
    hide Books; hide Mine; hide ToReading;
    assert Books(s.conns[a.id], Mine(s.writer.accepted, a.id), Mine(s.hub.history, a.id));
    MessageInBook(s.conns[a.id], a.msg, a.now, Mine(s.writer.accepted, a.id), Mine(s.hub.history, a.id));
    OneBook(s, Next(c, s, a), a.id);
  }

  lemma StreamOnlyKeepsBooks(c: Config, s: State, a: Action)
    requires AllBooks(s) && Enabled(c, s, a) && (a.Open? || a.HalfClose? || a.Break?)
    ensures AllBooks(Next(c, s, a))
  {
    OneBook(s, Next(c, s, a), a.id);
  }

  lemma CheckKeepsBooks(c: Config, s: State, id: int)
    requires AllBooks(s) && Enabled(c, s, Check(id))
    ensures AllBooks(Next(c, s, Check(id)))
  {
    OneBook(s, Next(c, s, Check(id)), id);
  }

  lemma AcceptKeepsBooks(c: Config, s: State, a: Action)
    requires AllBooks(s) && SameReading(s) && Enabled(c, s, a) && a.Accept?
    ensures AllBooks(Next(c, s, a))
  {
    var s', conn := Next(c, s, a), s.conns[a.id];
    PutEffect(c.writer, s.writer, a);
    assert s.writer.passed[a.id] == conn.pc.r;
    hide W.Next; hide Books; hide Mine;
    assert Books(conn, Mine(s.writer.accepted, a.id), Mine(s.hub.history, a.id));
    forall o: int ensures Mine(s'.writer.accepted, o) == Mine(s.writer.accepted, o) + if o == a.id then [conn.pc.r] else [] {
      MineAppend(s.writer.accepted, (a.id, conn.pc.r), o);
    }
    AcceptInBook(conn, Mine(s.writer.accepted, a.id), Mine(s.hub.history, a.id));
    OneBook(s, s', a.id);
  }

  lemma AcceptInBook(conn: Conn, taken: seq<Reading>, published: seq<Reading>)
    requires Books(conn, taken, published) && conn.pc.InEnqueue?
    ensures Books(conn.(pc := BeforePublish(conn.pc.r)), taken + [conn.pc.r], published)
  {
  }

  lemma RefuseKeepsBooks(c: Config, s: State, id: int)
    requires AllBooks(s) && Enabled(c, s, Refuse(id))
    ensures AllBooks(Next(c, s, Refuse(id)))
  {
    OneBook(s, Next(c, s, Refuse(id)), id);
  }

  lemma BeginPublishKeepsBooks(c: Config, s: State, id: int)
    requires AllBooks(s) && Enabled(c, s, BeginPublish(id))
    ensures AllBooks(Next(c, s, BeginPublish(id)))
  {
    var s' := Next(c, s, BeginPublish(id));
    var r := s.conns[id].pc.r;
    forall o: int ensures Mine(s'.hub.history, o) == Mine(s.hub.history, o) + if o == id then [r] else [] {
      MineAppend(s.hub.history, (id, r), o);
    }
    OneBook(s, s', id);
  }

  lemma EndPublishKeepsBooks(c: Config, s: State, id: int)
    requires AllBooks(s) && Enabled(c, s, EndPublish(id))
    ensures AllBooks(Next(c, s, EndPublish(id)))
  {
    OneBook(s, Next(c, s, EndPublish(id)), id);
  }

  lemma BooksKept(c: Config, s: State, a: Action)
    requires AllBooks(s) && SameReading(s) && Enabled(c, s, a)
    ensures AllBooks(Next(c, s, a))
  {
    hide AllBooks;
    match a
    case Message(_, _, _) => MessageKeepsBooks(c, s, a);
    case Check(id) => CheckKeepsBooks(c, s, id);
    case Accept(_, _) => AcceptKeepsBooks(c, s, a);
    case Refuse(id) => RefuseKeepsBooks(c, s, id);
    case BeginPublish(id) => BeginPublishKeepsBooks(c, s, id);
    case EndPublish(id) => EndPublishKeepsBooks(c, s, id);
    case Loop(w) => LoopFrame(c.writer, s.writer, w); SameBooks(s, Next(c, s, a));
    case Fan(h) => FanFrame(s.hub, h); SameBooks(s, Next(c, s, a));
    case BeginStop => SameBooks(s, Next(c, s, a));
    case GracefulStop => SameBooks(s, Next(c, s, a));
    case ForceStop => SameBooks(s, Next(c, s, a));
    case CloseWriter => SameBooks(s, Next(c, s, a));
    case _ => StreamOnlyKeepsBooks(c, s, a);
  }

  lemma SameBooks(s: State, s': State)
    requires AllBooks(s) && s'.conns == s.conns
    requires s'.writer.accepted == s.writer.accepted && s'.hub.history == s.hub.history
    ensures AllBooks(s')
  {
  }

  lemma ProducersKept(c: Config, s: State, a: Action)
    requires Producers(s) && SameReading(s) && Enabled(c, s, a)
    ensures Producers(Next(c, s, a)) && SameReading(Next(c, s, a))
  {
    match a
    case Accept(_, _) => PutEffect(c.writer, s.writer, a);
    case Loop(w) => LoopFrame(c.writer, s.writer, w);
    case _ =>
  }

  lemma NobodyInside(s: State)
    requires SameReading(s) && AllReturned(s.conns)
    ensures |s.writer.passed| == 0
  {
    assert forall id <- s.writer.passed :: false;
    assert s.writer.passed.Keys == {};
  }

  lemma OrderKept(c: Config, s: State, a: Action)
    requires Ordered(s) && SameReading(s) && Enabled(c, s, a)
    ensures Ordered(Next(c, s, a))
  {
    match a
    case Accept(_, _) => PutEffect(c.writer, s.writer, a);
    case Loop(w) => LoopFrame(c.writer, s.writer, w);
    case CloseWriter => if s.stop.graceful { NobodyInside(s); }
    case _ =>
  }

  lemma NextKeeps(c: Config, s: State, a: Action)
    requires Inv(c, s) && Enabled(c, s, a)
    ensures Inv(c, Next(c, s, a))
  {
    ComponentsKeep(c, s, a);
    BooksKept(c, s, a);
    ProducersKept(c, s, a);
    OrderKept(c, s, a);
    hide W.Inv; hide H.Inv; hide AllBooks; hide Producers; hide SameReading; hide Ordered; hide Next;
  }

  lemma {:induction false} Always(c: Config, run: seq<State>, i: nat)
    requires Run(c, run) && i < |run|
    ensures Inv(c, run[i])
  {
    if i > 0 {
      Always(c, run, i - 1);
      assert Steps(c, run[i - 1], run[i - 1 + 1]);
      var a :| Enabled(c, run[i - 1], a) && run[i] == Next(c, run[i - 1], a);
      NextKeeps(c, run[i - 1], a);
    }
  }
}
