/** The in-memory hub as a protocol: publishes hold the read lock and visit their
    subscribers one at a time; registering and closing need the write lock, so they happen
    only while no publish is under way. Sending on a closed channel, or closing one twice,
    would set `panicked`. */
module Hub {
  import opened Model

  /** One attempt to send: which publish made it, and whether the channel took the reading. */
  datatype Attempt = Attempt(pub: nat, delivered: bool)

  /** A subscription; no device means all devices. `consumed` and `log` are history. */
  datatype Sub = Sub(device: Option<int>, cap: nat, open: bool, ch: seq<Reading>, dropped: nat,
                     consumed: seq<Reading>, log: seq<Attempt>)

  /** A publish under way: the subscribers it has yet to visit (device ones first), and
      whether it is between counting a drop for the subscription and for the hub. */
  datatype Pub = Pub(dev: set<nat>, all: set<nat>, counting: bool)

  /** Subscriptions and publishes are known by their position in `table` and `history`;
      `history` tags readings with their publisher, `targets` says whom each publish was for. */
  datatype State = State(subs: map<int, set<nat>>, all: set<nat>, table: seq<Sub>, buffer: nat, dropped: nat,
                         pubs: map<nat, Pub>, panicked: bool,
                         history: seq<(int, Reading)>, targets: seq<set<nat>>)

  function New(buffer: nat): State {
    State(map[], {}, [], buffer, 0, map[], false, [], [])
  }

  datatype Action =
    | Subscribe(device: int)
    | SubscribeAll
    | Unsubscribe(s: nat)
    | Begin(from: int, r: Reading)          // Publish takes the read lock
    | Send(n: nat, s: nat, direct: bool)  // one subscriber; direct: a waiting reader takes it
    | Count(n: nat)                       // the hub-wide counter catches up
    | End(n: nat)                         // the read lock is released
    | Consume(s: nat)

  predicate Enabled(h: State, a: Action) {
    match a
    case Subscribe(_) => h.pubs == map[]
    case SubscribeAll => h.pubs == map[]
    case Unsubscribe(s) => h.pubs == map[] && s < |h.table| && h.table[s].device.Some?
    case Begin(_, _) => true
    case Send(n, s, direct) =>
      && n in h.pubs && !h.pubs[n].counting && n < |h.history| && s < |h.table|
      && (s in h.pubs[n].dev || (h.pubs[n].dev == {} && s in h.pubs[n].all))
      && (direct ==> h.table[s].ch == [])
    case Count(n) => n in h.pubs && h.pubs[n].counting
    case End(n) => n in h.pubs && !h.pubs[n].counting && h.pubs[n].dev == {} && h.pubs[n].all == {}
    case Consume(s) => s < |h.table| && h.table[s].ch != []
  }

  function ForDevice(subs: map<int, set<nat>>, device: int): set<nat> {
    if device in subs then subs[device] else {}
  }

  /** select { case s.ch <- r: default: drop }, up to the subscription's own counter. */
  function Offered(sub: Sub, n: nat, r: Reading, direct: bool): Sub {
    if direct then sub.(consumed := sub.consumed + [r], log := sub.log + [Attempt(n, true)])
    else if |sub.ch| < sub.cap then sub.(ch := sub.ch + [r], log := sub.log + [Attempt(n, true)])
    else sub.(dropped := sub.dropped + 1, log := sub.log + [Attempt(n, false)])
  }

  function Removed(h: State, s: nat): State
    requires s < |h.table| && h.table[s].device.Some?
  {
    var d := h.table[s].device.value;
    var m := ForDevice(h.subs, d);
    if d !in h.subs then h
    else
      var closed := if s in m then h.(table := h.table[s := h.table[s].(open := false)],
                                      panicked := h.panicked || !h.table[s].open) else h;
      var left := m - {s};
      if left == {} then closed.(subs := h.subs - {d}) else closed.(subs := h.subs[d := left])
  }

  function Next(h: State, a: Action): State
    requires Enabled(h, a)
  {
    match a
    case Subscribe(d) =>
      h.(table := h.table + [Sub(Some(d), h.buffer, true, [], 0, [], [])],
         subs := h.subs[d := ForDevice(h.subs, d) + {|h.table|}])
    case SubscribeAll =>
      h.(table := h.table + [Sub(None, 4 * h.buffer, true, [], 0, [], [])], all := h.all + {|h.table|})
    case Unsubscribe(s) => Removed(h, s)
    case Begin(from, r) =>
      var dev := ForDevice(h.subs, r.device);
      h.(pubs := h.pubs[|h.history| := Pub(dev, h.all, false)],
         history := h.history + [(from, r)], targets := h.targets + [dev + h.all])
    case Send(n, s, direct) =>
      var sub := Offered(h.table[s], n, h.history[n].1, direct);
      var full := sub.dropped > h.table[s].dropped;
      h.(table := h.table[s := sub],
         pubs := h.pubs[n := Pub(h.pubs[n].dev - {s}, if s in h.pubs[n].dev then h.pubs[n].all else h.pubs[n].all - {s}, full)],
         panicked := h.panicked || !h.table[s].open)
    case Count(n) => h.(dropped := h.dropped + 1, pubs := h.pubs[n := h.pubs[n].(counting := false)])
    case End(n) => h.(pubs := h.pubs - {n})
    case Consume(s) =>
      var sub := h.table[s];
      h.(table := h.table[s := sub.(ch := sub.ch[1..], consumed := sub.consumed + [sub.ch[0]])])
  }

  // ---- Invariants ----

  /** A device subscription is open exactly while it is registered; no device keeps an empty
      set of subscribers; all-device subscriptions stay open and registered. */
  ghost predicate Registered(h: State) {
    && (forall s: nat :: s < |h.table| ==>
          if h.table[s].device.Some? then h.table[s].open <==> s in ForDevice(h.subs, h.table[s].device.value)
          else h.table[s].open && s in h.all)
    && (forall s: nat :: s in h.all ==> s < |h.table| && h.table[s].device.None?)
    && (forall d: int :: d in h.subs ==> h.subs[d] != {} && OnlyFor(h.subs[d], h.table, d))
  }

  ghost predicate OnlyFor(subs: set<nat>, table: seq<Sub>, device: int) {
    forall s <- subs :: s < |table| && table[s].device == Some(device)
  }

  /** Publishes under way only have registered subscribers left to visit. */
  ghost predicate UnderWay(h: State) {
    && |h.targets| == |h.history|
    && (forall n: nat :: n in h.pubs ==>
          && n < |h.history|
          && h.pubs[n].dev <= ForDevice(h.subs, h.history[n].1.device) && h.pubs[n].all <= h.all
          && h.pubs[n].dev + h.pubs[n].all <= h.targets[n])
    && (forall n: nat :: n < |h.targets| ==> Fits(h.targets[n], h.table, h.history[n].1.device))
  }

  /** Subscriptions to this device, or to all devices. */
  ghost predicate Fits(targets: set<nat>, table: seq<Sub>, device: int) {
    forall s <- targets :: s < |table| && (table[s].device == None || table[s].device == Some(device))
  }

  function Took(log: seq<Attempt>, history: seq<(int, Reading)>): seq<Reading>
    requires forall a <- log :: a.pub < |history|
  {
    if log == [] then []
    else
      var n := |log| - 1;
      assert forall a <- log[..n] :: a in log;
      assert log[n] in log;
      Took(log[..n], history) + if log[n].delivered then [history[log[n].pub].1] else []
  }

  function Missed(log: seq<Attempt>): nat {
    if log == [] then 0 else Missed(log[..|log| - 1]) + if log[|log| - 1].delivered then 0 else 1
  }

  function TriesFor(log: seq<Attempt>, n: nat): nat {
    if log == [] then 0 else TriesFor(log[..|log| - 1], n) + if log[|log| - 1].pub == n then 1 else 0
  }

  /** What a subscription received and still buffers are the delivered attempts in order; the
      rest of its attempts are its dropped count. */
  ghost predicate Accounted(sub: Sub, history: seq<(int, Reading)>) {
    && (forall a <- sub.log :: a.pub < |history|)
    && sub.consumed + sub.ch == Took(sub.log, history)
    && sub.dropped == Missed(sub.log)
    && |sub.ch| <= sub.cap
  }

  ghost predicate Waiting(h: State, n: nat, s: nat) {
    n in h.pubs && (s in h.pubs[n].dev || s in h.pubs[n].all)
  }

  /** Each publish offers its reading exactly once to each of its targets it has visited, and
      to nobody else. */
  ghost predicate Offers(h: State, s: nat)
    requires s < |h.table|
  {
    forall n: nat {:trigger TriesFor(h.table[s].log, n)} ::
      TriesFor(h.table[s].log, n) ==
      if n < |h.targets| && s in h.targets[n] && !Waiting(h, n, s) then 1 else 0
  }

  function TotalDropped(table: seq<Sub>): nat {
    if table == [] then 0 else TotalDropped(table[..|table| - 1]) + table[|table| - 1].dropped
  }

  ghost function CountingPubs(pubs: map<nat, Pub>): set<nat> {
    set n | n in pubs && pubs[n].counting
  }

  /** The hub-wide counter trails the subscriptions' counters by the increments under way. */
  ghost predicate Counted(h: State) {
    h.dropped + |CountingPubs(h.pubs)| == TotalDropped(h.table)
  }

  ghost predicate Logged(h: State) {
    forall s: nat :: s < |h.table| ==> Accounted(h.table[s], h.history) && Offers(h, s)
  }

  ghost predicate Inv(h: State) {
    !h.panicked && Registered(h) && UnderWay(h) && Logged(h) && Counted(h)
  }

  // ---- Bookkeeping lemmas ----

  lemma LogAppend(log: seq<Attempt>, a: Attempt, history: seq<(int, Reading)>)
    requires (forall x <- log :: x.pub < |history|) && a.pub < |history|
    ensures Took(log + [a], history) == Took(log, history) + if a.delivered then [history[a.pub].1] else []
    ensures Missed(log + [a]) == Missed(log) + if a.delivered then 0 else 1
  {
    assert (log + [a])[..|log|] == log;
  }

  lemma TriesAppend(log: seq<Attempt>, a: Attempt, n: nat)
    ensures TriesFor(log + [a], n) == TriesFor(log, n) + if a.pub == n then 1 else 0
  {
    assert (log + [a])[..|log|] == log;
  }

  lemma {:induction false} TookGrows(log: seq<Attempt>, history: seq<(int, Reading)>, x: (int, Reading))
    requires forall a <- log :: a.pub < |history|
    ensures Took(log, history + [x]) == Took(log, history)
  {
    if log != [] {
      var n := |log| - 1;
      assert log[n] in log;
      TookGrows(log[..n], history, x);
    }
  }

  lemma {:induction false} TotalUpdate(table: seq<Sub>, s: nat, sub: Sub)
    requires s < |table|
    ensures TotalDropped(table[s := sub]) == TotalDropped(table) - table[s].dropped + sub.dropped
  {
    var n := |table| - 1;
    if s == n {
      assert table[s := sub][..n] == table[..n];
    } else {
      TotalUpdate(table[..n], s, sub);
      assert table[s := sub][..n] == table[..n][s := sub];
    }
  }

  lemma TotalAppend(table: seq<Sub>, sub: Sub)
    ensures TotalDropped(table + [sub]) == TotalDropped(table) + sub.dropped
  {
    assert (table + [sub])[..|table|] == table;
  }

  // ---- Every step keeps the invariant ----

  lemma OfferKeepsAccount(sub: Sub, n: nat, r: Reading, direct: bool, history: seq<(int, Reading)>)
    requires Accounted(sub, history) && n < |history| && history[n].1 == r && (direct ==> sub.ch == [])
    ensures Accounted(Offered(sub, n, r, direct), history)
  {
    var o := Offered(sub, n, r, direct);
    var a := o.log[|sub.log|];
    LogAppend(sub.log, a, history);
    assert o.log == sub.log + [a];
    if direct {
      assert o.consumed + o.ch == sub.consumed + sub.ch + [r];
    } else if |sub.ch| < sub.cap {
      assert o.consumed + o.ch == sub.consumed + sub.ch + [r];
    }
  }

  lemma SendKeepsLog(h: State, n: nat, s: nat, direct: bool)
    requires Inv(h) && Enabled(h, Send(n, s, direct))
    ensures Logged(Next(h, Send(n, s, direct)))
  {
    var h' := Next(h, Send(n, s, direct));
    var r := h.history[n].1;
    assert Accounted(h.table[s], h.history) && Offers(h, s);
    OfferKeepsAccount(h.table[s], n, r, direct, h.history);
    var a := h'.table[s].log[|h.table[s].log|];
    assert h'.table[s].log == h.table[s].log + [a] && a.pub == n;
    SendLeavesOneFewer(h, n, s, direct);
    forall t: nat | t < |h'.table| ensures Accounted(h'.table[t], h'.history) && Offers(h', t) {
      assert Accounted(h.table[t], h.history) && Offers(h, t);
      forall m: nat
        ensures TriesFor(h'.table[t].log, m) == if m < |h'.targets| && t in h'.targets[m] && !Waiting(h', m, t) then 1 else 0
      {
        assert TriesFor(h.table[t].log, m) == if m < |h.targets| && t in h.targets[m] && !Waiting(h, m, t) then 1 else 0;
        if t == s { TriesAppend(h.table[s].log, a, m); }
      }
    }
  }

  // A send takes exactly one waiting subscriber off one publish.
  lemma SendLeavesOneFewer(h: State, n: nat, s: nat, direct: bool)
    requires Inv(h) && Enabled(h, Send(n, s, direct))
    ensures Waiting(h, n, s) && n < |h.targets| && s in h.targets[n]
    ensures forall m: nat, t: nat :: Waiting(Next(h, Send(n, s, direct)), m, t) <==> Waiting(h, m, t) && !(m == n && t == s)
  {
    // Device subscribers and all-device subscribers are different subscriptions.
    if s in h.pubs[n].dev {
      assert s in ForDevice(h.subs, h.history[n].1.device);
      assert s !in h.pubs[n].all;
    }
  }

  lemma SendKeepsCount(h: State, n: nat, s: nat, direct: bool)
    requires Counted(h) && Enabled(h, Send(n, s, direct))
    ensures Counted(Next(h, Send(n, s, direct)))
  {
    var sub := Offered(h.table[s], n, h.history[n].1, direct);
    var full := sub.dropped > h.table[s].dropped;
    var h' := Next(h, Send(n, s, direct));
    TotalUpdate(h.table, s, sub);
    assert sub.dropped == h.table[s].dropped + if full then 1 else 0;
    CountOne(h.pubs, n, h'.pubs[n]);
  }

  lemma CountOne(pubs: map<nat, Pub>, n: nat, p: Pub)
    requires n in pubs && !pubs[n].counting
    ensures |CountingPubs(pubs[n := p])| == |CountingPubs(pubs)| + if p.counting then 1 else 0
  {
    if p.counting {
      assert CountingPubs(pubs[n := p]) == CountingPubs(pubs) + {n};
    } else {
      assert CountingPubs(pubs[n := p]) == CountingPubs(pubs);
    }
  }

  /** Nothing about registration changed. */
  ghost predicate SameSubs(h: State, h': State) {
    && h'.subs == h.subs && h'.all == h.all && |h'.table| == |h.table|
    && forall t: nat :: t < |h.table| ==> h'.table[t].device == h.table[t].device && h'.table[t].open == h.table[t].open
  }

  lemma SameSubsRegistered(h: State, h': State)
    requires Registered(h) && SameSubs(h, h')
    ensures Registered(h')
  {
  }

  /** No attempt was made, and nobody's account changed. */
  ghost predicate SameAccounts(h: State, h': State) {
    && h'.history == h.history && h'.targets == h.targets && |h.table| <= |h'.table|
    && (forall t: nat :: t < |h.table| ==>
          && h'.table[t].log == h.table[t].log && h'.table[t].dropped == h.table[t].dropped
          && h'.table[t].device == h.table[t].device
          && h'.table[t].consumed + h'.table[t].ch == h.table[t].consumed + h.table[t].ch
          && |h'.table[t].ch| <= h'.table[t].cap)
    && (forall t: nat :: |h.table| <= t < |h'.table| ==>
          h'.table[t].log == [] && h'.table[t].consumed == [] && h'.table[t].ch == [] && h'.table[t].dropped == 0)
    && (forall n: nat, t: nat :: Waiting(h', n, t) <==> Waiting(h, n, t))
  }

  lemma SameAccountsLogged(h: State, h': State)
    requires UnderWay(h) && Logged(h) && SameAccounts(h, h')
    ensures Logged(h')
    ensures forall n: nat :: n < |h'.targets| ==> Fits(h'.targets[n], h'.table, h'.history[n].1.device)
  {
    forall n: nat | n < |h'.targets| ensures Fits(h'.targets[n], h'.table, h'.history[n].1.device) {
      assert Fits(h.targets[n], h.table, h.history[n].1.device);
    }
    forall t: nat | t < |h'.table| ensures Accounted(h'.table[t], h'.history) && Offers(h', t) {
      if t < |h.table| {
        assert Accounted(h.table[t], h.history) && Offers(h, t);
      } else {
        forall n: nat | n < |h.targets| ensures t !in h.targets[n] {
          assert Fits(h.targets[n], h.table, h.history[n].1.device);
        }
      }
      forall m: nat
        ensures TriesFor(h'.table[t].log, m) == if m < |h'.targets| && t in h'.targets[m] && !Waiting(h', m, t) then 1 else 0
      {
        assert t < |h.table| ==> TriesFor(h.table[t].log, m) == if m < |h.targets| && t in h.targets[m] && !Waiting(h, m, t) then 1 else 0;
      }
    }
  }

  lemma SendKeeps(h: State, n: nat, s: nat, direct: bool)
    requires Inv(h) && Enabled(h, Send(n, s, direct))
    ensures Inv(Next(h, Send(n, s, direct)))
  {
    var h' := Next(h, Send(n, s, direct));
    SendKeepsLog(h, n, s, direct);
    SendKeepsCount(h, n, s, direct);
    SendIsSafe(h, n, s, direct);
    SendStaysUnderWay(h, n, s, direct);
    SameSubsRegistered(h, h');
  }

  /** A publish never sends on a closed channel. */
  lemma SendIsSafe(h: State, n: nat, s: nat, direct: bool)
    requires Registered(h) && UnderWay(h) && Enabled(h, Send(n, s, direct))
    ensures h.table[s].open && SameSubs(h, Next(h, Send(n, s, direct)))
  {
    assert s in h.pubs[n].dev ==> s in ForDevice(h.subs, h.history[n].1.device);
  }

  lemma SendStaysUnderWay(h: State, n: nat, s: nat, direct: bool)
    requires UnderWay(h) && Enabled(h, Send(n, s, direct))
    ensures UnderWay(Next(h, Send(n, s, direct)))
  {
    var h' := Next(h, Send(n, s, direct));
    forall m: nat | m < |h'.targets| ensures Fits(h'.targets[m], h'.table, h'.history[m].1.device) {
      assert Fits(h.targets[m], h.table, h.history[m].1.device);
    }
  }

  lemma AppendSubKeeps(h: State, a: Action)
    requires Inv(h) && Enabled(h, a) && (a.Subscribe? || a.SubscribeAll?)
    ensures Inv(Next(h, a))
  {
    AppendSubRegisters(h, a);
    AppendSubAccounts(h, a);
    AppendSubCounted(h, a);
    hide Registered; hide Logged; hide SameAccounts; hide Counted;
    SameAccountsLogged(h, Next(h, a));
  }

  lemma AppendSubCounted(h: State, a: Action)
    requires Counted(h) && Enabled(h, a) && (a.Subscribe? || a.SubscribeAll?)
    ensures Counted(Next(h, a))
  {
    TotalAppend(h.table, Next(h, a).table[|h.table|]);
  }

  lemma AppendSubAccounts(h: State, a: Action)
    requires Logged(h) && Enabled(h, a) && (a.Subscribe? || a.SubscribeAll?)
    ensures SameAccounts(h, Next(h, a))
  {
    Capped(h);
    hide Logged;
  }

  lemma AppendSubRegisters(h: State, a: Action)
    requires Registered(h) && Enabled(h, a) && (a.Subscribe? || a.SubscribeAll?)
    ensures Registered(Next(h, a))
  {
    var h' := Next(h, a);
    assert forall t: nat :: t < |h.table| ==> h'.table[t] == h.table[t];
    if a.Subscribe? {
      assert forall e: int :: ForDevice(h'.subs, e) == if e == a.device then ForDevice(h.subs, e) + {|h.table|} else ForDevice(h.subs, e);
    }
  }

  lemma RemovedEffect(h: State, s: nat)
    requires Registered(h) && Enabled(h, Unsubscribe(s))
    ensures var h' := Removed(h, s); var d := h.table[s].device.value;
            && h'.table == h.table[s := h.table[s].(open := false)]
            && (forall e: int :: ForDevice(h'.subs, e) == ForDevice(h.subs, e) - {s})
            && (forall e: int :: e in h'.subs ==> h'.subs[e] != {})
            && h' == h.(table := h'.table, subs := h'.subs)
  {
    var h' := Removed(h, s);
    var d := h.table[s].device.value;
    if s !in ForDevice(h.subs, d) {
      assert !h.table[s].open;
      assert h.table[s := h.table[s].(open := false)] == h.table;
      assert ForDevice(h.subs, d) - {s} == ForDevice(h.subs, d);
    }
    forall e: int ensures ForDevice(h'.subs, e) == ForDevice(h.subs, e) - {s} {
      if e != d { assert s !in ForDevice(h.subs, e); }
    }
  }

  lemma Capped(h: State)
    requires Logged(h)
    ensures forall t: nat :: t < |h.table| ==> |h.table[t].ch| <= h.table[t].cap
  {
    forall t: nat | t < |h.table| ensures |h.table[t].ch| <= h.table[t].cap {
      assert Accounted(h.table[t], h.history);
    }
  }

  lemma UnsubscribeRegistered(h: State, s: nat)
    requires Registered(h) && Enabled(h, Unsubscribe(s))
    ensures Registered(Next(h, Unsubscribe(s)))
  {
    var h' := Next(h, Unsubscribe(s));
    RemovedEffect(h, s);
    hide Removed;
    forall e: int | e in h'.subs ensures OnlyFor(h'.subs[e], h'.table, e) {
      assert ForDevice(h'.subs, e) == ForDevice(h.subs, e) - {s};
    }
  }

  lemma CloseOneAccounts(h: State, h': State, s: nat)
    requires s < |h.table| && Logged(h)
    requires h'.table == h.table[s := h.table[s].(open := false)] && h' == h.(table := h'.table, subs := h'.subs)
    ensures SameAccounts(h, h')
  {
    Capped(h);
    hide Logged;
  }

  lemma CloseOneCounted(h: State, h': State, s: nat)
    requires s < |h.table| && Counted(h)
    requires h'.table == h.table[s := h.table[s].(open := false)] && h' == h.(table := h'.table, subs := h'.subs)
    ensures Counted(h')
  {
    TotalUpdate(h.table, s, h'.table[s]);
  }

  lemma UnsubscribeKeeps(h: State, s: nat)
    requires Inv(h) && Enabled(h, Unsubscribe(s))
    ensures Inv(Next(h, Unsubscribe(s)))
  {
    var h' := Next(h, Unsubscribe(s));
    UnsubscribeRegistered(h, s);
    RemovedEffect(h, s);
    CloseOneAccounts(h, h', s);
    CloseOneCounted(h, h', s);
    SameAccountsLogged(h, h');
    hide Removed; hide Registered; hide Logged; hide Counted; hide SameAccounts;
    assert h'.pubs == map[];
  }

  lemma FreshPub(h: State)
    requires UnderWay(h)
    ensures |h.history| !in h.pubs
  {
  }

  lemma BeginCounted(h: State, from: int, r: Reading)
    requires |h.history| !in h.pubs && Counted(h)
    ensures Counted(Next(h, Begin(from, r)))
  {
    assert CountingPubs(Next(h, Begin(from, r)).pubs) == CountingPubs(h.pubs);
  }

  lemma BeginKeeps(h: State, from: int, r: Reading)
    requires Inv(h) && Enabled(h, Begin(from, r))
    ensures Inv(Next(h, Begin(from, r)))
  {
    var h' := Next(h, Begin(from, r));
    BeginKeepsLog(h, from, r);
    BeginUnderWay(h, from, r);
    FreshPub(h);
    BeginCounted(h, from, r);
    SameSubsRegistered(h, h');
    hide Registered; hide Logged; hide Counted; hide UnderWay;
  }

  lemma BeginUnderWay(h: State, from: int, r: Reading)
    requires Registered(h) && UnderWay(h)
    ensures UnderWay(Next(h, Begin(from, r)))
  {
    var h' := Next(h, Begin(from, r));
    forall m: nat | m < |h'.targets| ensures Fits(h'.targets[m], h'.table, h'.history[m].1.device) {
      if m < |h.targets| {
        assert Fits(h.targets[m], h.table, h.history[m].1.device);
        assert h'.targets[m] == h.targets[m] && h'.history[m] == h.history[m];
      }
    }
  }

  lemma BeginKeepsLog(h: State, from: int, r: Reading)
    requires UnderWay(h) && Logged(h)
    ensures Logged(Next(h, Begin(from, r)))
  {
    var h' := Next(h, Begin(from, r));
    forall t: nat | t < |h'.table| ensures Accounted(h'.table[t], h'.history) && Offers(h', t) {
      assert Accounted(h.table[t], h.history) && Offers(h, t);
      TookGrows(h.table[t].log, h.history, (from, r));
      forall m: nat
        ensures TriesFor(h'.table[t].log, m) == if m < |h'.targets| && t in h'.targets[m] && !Waiting(h', m, t) then 1 else 0
      {
        assert TriesFor(h.table[t].log, m) == if m < |h.targets| && t in h.targets[m] && !Waiting(h, m, t) then 1 else 0;
        if m < |h.history| { assert h'.targets[m] == h.targets[m]; }
      }
    }
  }

  lemma BetweenSendsAccounts(h: State, a: Action)
    requires Logged(h) && Enabled(h, a) && (a.Count? || a.End?)
    ensures SameAccounts(h, Next(h, a)) && SameSubs(h, Next(h, a))
  {
    Capped(h);
    hide Logged;
  }

  /** Accounts, registration and publishes under way are as they were. */
  lemma QuietKeeps(h: State, h': State)
    requires !h.panicked && Registered(h) && UnderWay(h) && Logged(h)
    requires SameAccounts(h, h') && SameSubs(h, h') && h'.panicked == h.panicked
    requires forall n: nat :: n in h'.pubs ==> n in h.pubs && h'.pubs[n].dev == h.pubs[n].dev && h'.pubs[n].all == h.pubs[n].all
    ensures !h'.panicked && Registered(h') && UnderWay(h') && Logged(h')
  {
    SameSubsRegistered(h, h');
    SameAccountsLogged(h, h');
    hide Registered; hide Logged; hide Waiting;
  }

  lemma BetweenSendsKeeps(h: State, a: Action)
    requires Inv(h) && Enabled(h, a) && (a.Count? || a.End?)
    ensures Inv(Next(h, a))
  {
    BetweenSendsCount(h, a);
    BetweenSendsAccounts(h, a);
    hide Registered; hide Logged; hide Counted; hide UnderWay; hide SameAccounts; hide SameSubs;
    QuietKeeps(h, Next(h, a));
  }

  lemma CountDone(pubs: map<nat, Pub>, n: nat)
    requires n in pubs && pubs[n].counting
    ensures |CountingPubs(pubs[n := pubs[n].(counting := false)])| == |CountingPubs(pubs)| - 1
  {
    assert CountingPubs(pubs) == CountingPubs(pubs[n := pubs[n].(counting := false)]) + {n};
  }

  lemma CountGone(pubs: map<nat, Pub>, n: nat)
    requires n in pubs && !pubs[n].counting
    ensures CountingPubs(pubs - {n}) == CountingPubs(pubs)
  {
  }

  lemma BetweenSendsCount(h: State, a: Action)
    requires Counted(h) && Enabled(h, a) && (a.Count? || a.End?)
    ensures Counted(Next(h, a))
  {
    if a.Count? { CountDone(h.pubs, a.n); } else { CountGone(h.pubs, a.n); }
    hide CountingPubs;
  }

  /** One subscription changed, but not its attempts or its total receipts. */
  lemma OneSubAccounts(h: State, h': State, s: nat, sub: Sub)
    requires s < |h.table| && h' == h.(table := h.table[s := sub]) && Logged(h) && Counted(h)
    requires sub.log == h.table[s].log && sub.dropped == h.table[s].dropped && |sub.ch| <= sub.cap
    requires sub.device == h.table[s].device && sub.open == h.table[s].open
    requires sub.consumed + sub.ch == h.table[s].consumed + h.table[s].ch
    ensures SameAccounts(h, h') && SameSubs(h, h') && Counted(h')
  {
    Capped(h);
    TotalUpdate(h.table, s, sub);
    hide Logged; hide TotalDropped; hide CountingPubs;
  }

  lemma ConsumeAccounts(h: State, s: nat)
    requires Logged(h) && Counted(h) && Enabled(h, Consume(s))
    ensures SameAccounts(h, Next(h, Consume(s))) && SameSubs(h, Next(h, Consume(s))) && Counted(Next(h, Consume(s)))
  {
    var sub := h.table[s];
    var sub' := sub.(ch := sub.ch[1..], consumed := sub.consumed + [sub.ch[0]]);
    Capped(h);
    assert sub'.consumed + sub'.ch == sub.consumed + sub.ch;
    hide Logged; hide Counted; hide SameAccounts; hide SameSubs;
    OneSubAccounts(h, Next(h, Consume(s)), s, sub');
  }

  lemma ConsumeKeeps(h: State, s: nat)
    requires Inv(h) && Enabled(h, Consume(s))
    ensures Inv(Next(h, Consume(s)))
  {
    ConsumeAccounts(h, s);
    hide Registered; hide Logged; hide Counted; hide UnderWay; hide SameAccounts; hide SameSubs;
    QuietKeeps(h, Next(h, Consume(s)));
  }

  lemma NextKeeps(h: State, a: Action)
    requires Inv(h) && Enabled(h, a)
    ensures Inv(Next(h, a))
  {
    match a
    case Send(n, s, direct) => SendKeeps(h, n, s, direct);
    case Unsubscribe(s) => UnsubscribeKeeps(h, s);
    case Begin(from, r) => BeginKeeps(h, from, r);
    case Consume(s) => ConsumeKeeps(h, s);
    case Subscribe(_) => AppendSubKeeps(h, a);
    case SubscribeAll => AppendSubKeeps(h, a);
    case Count(_) => BetweenSendsKeeps(h, a);
    case End(_) => BetweenSendsKeeps(h, a);
  }

  // ---- Runs ----

  ghost predicate Steps(h: State, h': State) {
    exists a :: Enabled(h, a) && h' == Next(h, a)
  }

  ghost predicate Run(run: seq<State>) {
    && run != [] && (exists buffer :: run[0] == New(buffer))
    && forall i :: 0 <= i < |run| - 1 ==> Steps(run[i], run[i + 1])
  }

  /** A continuation of a state by enabled actions. */
  ghost predicate Path(h: State, acts: seq<Action>, h': State)
    decreases |acts|
  {
    if acts == [] then h == h'
    else Enabled(h, acts[0]) && Path(Next(h, acts[0]), acts[1..], h')
  }

  lemma {:induction false} PathAppend(h: State, acts: seq<Action>, m: State, a: Action)
    requires Path(h, acts, m) && Enabled(m, a)
    ensures Path(h, acts + [a], Next(m, a))
    decreases |acts|
  {
    if acts == [] {
      assert (acts + [a])[1..] == [];
    } else {
      PathAppend(Next(h, acts[0]), acts[1..], m, a);
      assert (acts + [a])[1..] == acts[1..] + [a];
    }
  }

  lemma {:induction false} Always(run: seq<State>, i: nat)
    requires Run(run) && i < |run|
    ensures Inv(run[i])
  {
    if i > 0 {
      Always(run, i - 1);
      assert Steps(run[i - 1], run[i - 1 + 1]);
      var a :| Enabled(run[i - 1], a) && run[i] == Next(run[i - 1], a);
      NextKeeps(run[i - 1], a);
    }
  }
}
