/** The hub as code: one object whose maps, channels and counters its methods update. The
    locked methods are single steps of the protocol; Publish is the run of steps that its
    two loops make when nothing comes between. */
module HubService {
  import opened Model
  import H = Hub
  import opened HubGuarantees

  class Hub {
    var subs: map<int, set<nat>>
    var all: set<nat>
    var table: seq<H.Sub>
    var dropped: nat
    const buffer: nat
    ghost var pubs: map<nat, H.Pub>
    ghost var panicked: bool
    var history: seq<(int, Reading)>  // only to number the attempts
    ghost var targets: seq<set<nat>>

    ghost function State(): H.State
      reads this
    {
      H.State(subs, all, table, buffer, dropped, pubs, panicked, history, targets)
    }

    constructor (buffer: nat)
      ensures State() == H.New(buffer) && H.Inv(State())
    {
      this.buffer := buffer;
      subs, all, table, dropped := map[], {}, [], 0;
      pubs, panicked, history, targets := map[], false, [], [];
    }

    /** The subscriptions a publish for this device reaches. */
    ghost function Receivers(device: int): set<nat>
      reads this
    {
      H.ForDevice(subs, device) + all
    }

    /** A new, open and empty subscription, which publishes for its device reach from now on;
        nobody else gains or loses anything. */
    method Subscribe(device: int) returns (s: nat)
      requires H.Inv(State()) && pubs == map[]
      modifies this
      ensures H.Inv(State()) && State() == H.Next(old(State()), H.Subscribe(device))
      ensures s == |old(table)| && |table| == s + 1 && table[..s] == old(table)
      ensures table[s].open && table[s].ch == [] && table[s].cap == buffer && table[s].dropped == 0
      ensures forall d: int :: Receivers(d) == old(Receivers(d)) + if d == device then {s} else {}
    {
      hide H.Inv;
      H.NextKeeps(State(), H.Subscribe(device));
      s := |table|;
      table := table + [H.Sub(Some(device), buffer, true, [], 0, [], [])];
      var m := {};
      if device in subs { m := subs[device]; }
      subs := subs[device := m + {s}];
    }

    /** The same for publishes of every device, with four times the buffer. */
    method SubscribeAll() returns (s: nat)
      requires H.Inv(State()) && pubs == map[]
      modifies this
      ensures H.Inv(State()) && State() == H.Next(old(State()), H.SubscribeAll)
      ensures s == |old(table)| && |table| == s + 1 && table[..s] == old(table)
      ensures table[s].open && table[s].ch == [] && table[s].cap == 4 * buffer && table[s].dropped == 0
      ensures forall d: int :: Receivers(d) == old(Receivers(d)) + {s}
    {
      hide H.Inv;
      H.NextKeeps(State(), H.SubscribeAll);
      s := |table|;
      table := table + [H.Sub(None, buffer * 4, true, [], 0, [], [])];
      all := all + {s};
    }

    /** The subscription is closed, with what it still buffers, and no publish reaches it
        again; no other changes. Doing it again does nothing. */
    method Unsubscribe(s: nat)
      requires H.Inv(State()) && pubs == map[] && s < |table| && table[s].device.Some?
      modifies this
      ensures H.Inv(State()) && State() == H.Next(old(State()), H.Unsubscribe(s))
      ensures table == old(table)[s := old(table)[s].(open := false)]
      ensures forall d: int :: Receivers(d) == old(Receivers(d)) - {s}
      ensures !old(table)[s].open ==> State() == old(State())
    {
      hide H.Inv;
      H.NextKeeps(State(), H.Unsubscribe(s));
      UnsubscribeEffect(State(), s);
      var d := table[s].device.value;
      if d !in subs { return; }
      var m := subs[d];
      if s in m {
        m := m - {s};
        panicked := panicked || !table[s].open;
        table := table[s := table[s].(open := false)];  // close
      }
      assert m == subs[d] - {s};
      if m == {} {
        subs := subs - {d};
      } else {
        subs := subs[d := m];
      }
    }

    /** Offers a reading to one subscription without blocking; a full buffer counts a drop
        for the subscription, then for the hub. */
    method Send(n: nat, s: nat, r: Reading)
      requires H.Enabled(State(), H.Send(n, s, false)) && history[n].1 == r
      modifies `table, `dropped, `pubs, `panicked
      ensures State() == Settled(old(State()), n, s)
    {
      SettledIs(State(), n, s);
      ghost var settled := Settled(State(), n, s);
      panicked, pubs := settled.panicked, settled.pubs;
      var sub := table[s];
      if |sub.ch| < sub.cap {
        table := table[s := sub.(ch := sub.ch + [r], log := sub.log + [H.Attempt(n, true)])];
      } else {
        table := table[s := sub.(dropped := sub.dropped + 1, log := sub.log + [H.Attempt(n, false)])];
        dropped := dropped + 1;
      }
    }

    /** One of Publish's loops: visits the given subscribers in some order. */
    method Visit(visited: set<nat>, n: nat, r: Reading, ghost ofDevice: bool, ghost before: H.State, ghost acts: seq<H.Action>)
      returns (ghost acts': seq<H.Action>)
      requires H.Path(before, acts, State()) && n < |history| && history[n].1 == r
      requires n in pubs && pubs[n] == Remaining(visited, all, ofDevice)
      requires forall s <- visited :: s < |table| && (ofDevice ==> s !in all)
      modifies `table, `dropped, `pubs, `panicked
      ensures H.Path(before, acts', State())
      ensures pubs == old(pubs)[n := Remaining({}, all, ofDevice)] && |table| == |old(table)|
      ensures forall s: nat :: s < |table| ==>
        table[s] == if s in visited then H.Offered(old(table)[s], n, r, false) else old(table)[s]
    {
      hide H.Path; hide Settled;
      acts' := acts;
      var rest := visited;
      assert pubs == pubs[n := pubs[n]];
      while rest != {}
        invariant H.Path(before, acts', State()) && rest <= visited
        invariant pubs == old(pubs)[n := Remaining(rest, all, ofDevice)] && |table| == |old(table)|
        invariant forall s: nat :: s < |table| ==>
          table[s] == if s in visited && s !in rest then H.Offered(old(table)[s], n, r, false) else old(table)[s]
        decreases rest
      {
        var s :| s in rest;
        SettledIs(State(), n, s);
        acts' := SettledPath(before, acts', State(), n, s);
        Send(n, s, r);
        assert {} - {s} == {};
        rest := rest - {s};
      }
    }

    /** Both loops, one after the other. */
    method VisitBoth(device: set<nat>, n: nat, r: Reading, ghost before: H.State, ghost acts: seq<H.Action>)
      returns (ghost acts': seq<H.Action>)
      requires H.Path(before, acts, State()) && n < |history| && history[n].1 == r
      requires n in pubs && pubs[n] == Remaining(device, all, true)
      requires forall s <- device :: s < |table| && s !in all
      requires forall s <- all :: s < |table|
      modifies `table, `dropped, `pubs, `panicked
      ensures H.Path(before, acts', State()) && |table| == |old(table)|
      ensures pubs == old(pubs)[n := H.Pub({}, {}, false)]
      ensures forall s: nat :: s < |table| ==>
        table[s] == if s in device + all then H.Offered(old(table)[s], n, r, false) else old(table)[s]
    {
      hide H.Path; hide H.Offered;
      acts' := Visit(device, n, r, true, before, acts);
      acts' := Visit(all, n, r, false, before, acts');
    }

    /** Under the read lock: every subscriber of the reading's device, then every
        all-device subscriber, is offered the reading once. Where the buffer has room it is
        put last; where it is full it is dropped and counted; nobody else is touched. */
    method Publish(from: int, r: Reading) returns (ghost acts: seq<H.Action>)
      requires H.Inv(State())
      modifies this
      ensures H.Inv(State()) && H.Path(old(State()), acts, State())
      ensures pubs == old(pubs) && subs == old(subs) && all == old(all)
      ensures history == old(history) + [(from, r)]
      ensures |table| == |old(table)|
      ensures forall s: nat :: s < |table| ==>
        table[s] == if s in Receivers(r.device)
                    then H.Offered(old(table)[s], |old(history)|, r, false) else old(table)[s]
      ensures forall s: nat :: s < |table| ==>
        if s in Receivers(r.device) then Delivered(old(table)[s], table[s], r) else table[s] == old(table)[s]
    {
      hide H.Inv; hide H.Path; hide H.Offered; hide Delivered;
      forall was: H.Sub ensures Delivered(was, H.Offered(was, |history|, r, false), r) { OfferDelivers(was, |history|, r); }
      ghost var before := State();
      InRange(before, r.device);
      var n := |history|;
      var device: set<nat> := {};
      if r.device in subs { device := subs[r.device]; }
      StartPath(before, from, r);
      history := history + [(from, r)];
      pubs, targets := pubs[n := Remaining(device, all, true)], targets + [device + all];
      acts := VisitBoth(device, n, r, before, [H.Begin(from, r)]);
      H.PathAppend(before, acts, State(), H.End(n));
      acts := acts + [H.End(n)];
      pubs := pubs - {n};
      assert pubs == before.pubs;
      PathInv(before, acts, State());
    }
  }

  /** A reading offered when no reader is waiting: last in the buffer if there is room, else
      dropped and counted. */
  ghost predicate Delivered(was: H.Sub, sub: H.Sub, r: Reading) {
    && (|was.ch| < was.cap ==> sub.ch == was.ch + [r] && sub.dropped == was.dropped)
    && (|was.ch| >= was.cap ==> sub.ch == was.ch && sub.dropped == was.dropped + 1)
    && sub.consumed == was.consumed && sub.open == was.open && sub.cap == was.cap && sub.device == was.device
  }

  lemma OfferDelivers(was: H.Sub, n: nat, r: Reading)
    ensures Delivered(was, H.Offered(was, n, r, false), r)
  {
  }

  lemma UnsubscribeEffect(h: H.State, s: nat)
    requires H.Inv(h) && H.Enabled(h, H.Unsubscribe(s))
    ensures var h' := H.Next(h, H.Unsubscribe(s));
            && h'.table == h.table[s := h.table[s].(open := false)] && h'.all == h.all && s !in h.all
            && (forall d: int :: H.ForDevice(h'.subs, d) == H.ForDevice(h.subs, d) - {s})
            && (!h.table[s].open ==> h' == h)
  {
    H.RemovedEffect(h, s);
    ClosedIsGone(h, s);
  }

  /** What a publish has left to visit, in its first and in its second loop. */
  ghost function Remaining(rest: set<nat>, all: set<nat>, ofDevice: bool): H.Pub {
    if ofDevice then H.Pub(rest, all, false) else H.Pub({}, rest, false)
  }

  /** One undisturbed send: the attempt, and the hub-wide count if it was a drop. */
  ghost function Settled(h: H.State, n: nat, s: nat): H.State
    requires H.Enabled(h, H.Send(n, s, false))
  {
    var sent := H.Next(h, H.Send(n, s, false));
    if sent.pubs[n].counting then H.Next(sent, H.Count(n)) else sent
  }

  lemma SettledIs(h: H.State, n: nat, s: nat)
    requires H.Enabled(h, H.Send(n, s, false))
    ensures var p := h.pubs[n]; var o := H.Offered(h.table[s], n, h.history[n].1, false);
            Settled(h, n, s) == h.(
              table := h.table[s := o],
              dropped := h.dropped + (o.dropped - h.table[s].dropped),
              pubs := h.pubs[n := H.Pub(p.dev - {s}, if s in p.dev then p.all else p.all - {s}, false)],
              panicked := h.panicked || !h.table[s].open)
  {
  }

  lemma SettledPath(before: H.State, acts: seq<H.Action>, h: H.State, n: nat, s: nat) returns (acts': seq<H.Action>)
    requires H.Path(before, acts, h) && H.Enabled(h, H.Send(n, s, false))
    ensures H.Path(before, acts', Settled(h, n, s))
  {
    var sent := H.Next(h, H.Send(n, s, false));
    acts' := acts + [H.Send(n, s, false)];
    H.PathAppend(before, acts, h, H.Send(n, s, false));
    if sent.pubs[n].counting {
      H.PathAppend(before, acts', sent, H.Count(n));
      acts' := acts' + [H.Count(n)];
    }
  }

  lemma StartPath(h: H.State, from: int, r: Reading)
    ensures H.Path(h, [H.Begin(from, r)], H.Next(h, H.Begin(from, r)))
  {
    assert H.Path(h, [], h);
    H.PathAppend(h, [], h, H.Begin(from, r));
    assert [] + [H.Begin(from, r)] == [H.Begin(from, r)];
  }

  lemma InRange(h: H.State, device: int)
    requires H.Inv(h)
    ensures forall s <- H.ForDevice(h.subs, device) :: s < |h.table| && s !in h.all
    ensures forall s <- h.all :: s < |h.table|
    ensures |h.history| !in h.pubs
  {
    if device in h.subs { assert H.OnlyFor(h.subs[device], h.table, device); }
  }
}
