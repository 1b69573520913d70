/** What the hub promises, in every interleaving of publishes, subscriptions and readers. */
module HubGuarantees {
  import opened Model
  import opened Hub

  /** No send ever reaches a closed channel and none is closed twice; a device subscription
      is open exactly while it is registered; no device keeps an empty subscriber set. */
  lemma NeverPanics(run: seq<State>, i: nat)
    requires Run(run) && i < |run|
    ensures !run[i].panicked
    ensures forall s: nat :: s < |run[i].table| && run[i].table[s].device.Some? ==>
      (run[i].table[s].open <==> s in ForDevice(run[i].subs, run[i].table[s].device.value))
    ensures forall d <- run[i].subs :: run[i].subs[d] != {}
  {
    Always(run, i);
  }

  /** Each subscription's received and buffered readings are, in order, the attempts it took;
      with its drops they are all the attempts made to it; each attempt is for its device.
      The hub-wide counter plus the increments under way is the sum over all subscriptions
      ever made. */
  lemma EveryAttemptAccountedFor(run: seq<State>, i: nat, s: nat)
    requires Run(run) && i < |run| && s < |run[i].table|
    ensures var h := run[i]; var sub := h.table[s];
            && (forall a <- sub.log :: a.pub < |h.history|)
            && sub.consumed + sub.ch == Took(sub.log, h.history)
            && |sub.consumed| + |sub.ch| + sub.dropped == |sub.log|
            && (forall a <- sub.log :: sub.device == None || sub.device == Some(h.history[a.pub].1.device))
    ensures run[i].dropped + |CountingPubs(run[i].pubs)| == TotalDropped(run[i].table)
  {
    Always(run, i);
    var h := run[i];
    assert Accounted(h.table[s], h.history) && Offers(h, s);
    LogLength(h.table[s].log, h.history);
    forall a | a in h.table[s].log
      ensures h.table[s].device == None || h.table[s].device == Some(h.history[a.pub].1.device)
    {
      TriedOnce(h.table[s].log, a);
      assert TriesFor(h.table[s].log, a.pub) > 0;
      assert Fits(h.targets[a.pub], h.table, h.history[a.pub].1.device);
    }
  }

  lemma {:induction false} LogLength(log: seq<Attempt>, history: seq<(int, Reading)>)
    requires forall a <- log :: a.pub < |history|
    ensures |Took(log, history)| + Missed(log) == |log|
  {
    if log != [] { LogLength(log[..|log| - 1], history); }
  }

  lemma {:induction false} TriedOnce(log: seq<Attempt>, a: Attempt)
    requires a in log
    ensures TriesFor(log, a.pub) > 0
  {
    var n := |log| - 1;
    if a in log[..n] { TriedOnce(log[..n], a); } else { assert log[n] == a; }
  }

  /** A reading is dropped exactly when it finds the channel's buffer full and no reader
      waiting; otherwise it is received at once or put last in the buffer. No other step
      drops anything or takes anything away but what the reader consumes. */
  lemma DropsExactlyWhenFull(run: seq<State>, i: nat, n: nat, s: nat, direct: bool)
    requires Run(run) && i < |run| && Enabled(run[i], Send(n, s, direct))
    ensures var h := run[i]; var was, sub, r := h.table[s], Next(h, Send(n, s, direct)).table[s], h.history[n].1;
            var full := !direct && |was.ch| == was.cap;
            && |was.ch| <= was.cap && (direct ==> was.ch == [])
            && sub.dropped == was.dropped + (if full then 1 else 0)
            && sub.consumed == was.consumed + (if direct then [r] else [])
            && sub.ch == was.ch + (if full || direct then [] else [r])
            && sub.log == was.log + [Attempt(n, !full)]
  {
    Always(run, i);
    assert Accounted(run[i].table[s], run[i].history);
  }

  lemma OnlySendsDrop(run: seq<State>, i: nat, a: Action, s: nat)
    requires Run(run) && i < |run| && Enabled(run[i], a) && s < |run[i].table|
    ensures var h := run[i]; var was, sub := h.table[s], Next(h, a).table[s];
            && (!(a.Send? && a.s == s) ==> sub.dropped == was.dropped && sub.log == was.log)
            && (!(a.Send? && a.s == s) && !(a.Consume? && a.s == s) ==> sub.ch == was.ch && sub.consumed == was.consumed)
            && (a.Consume? && a.s == s ==> was.ch == [sub.consumed[|was.consumed|]] + sub.ch && sub.consumed[..|was.consumed|] == was.consumed)
  {
    Always(run, i);
    if a.Unsubscribe? { RemovedEffect(run[i], a.s); }
  }

  /** What a publish under way has still to do. */
  function ToVisit(p: Pub): nat {
    2 * |p.dev| + 2 * |p.all| + if p.counting then 1 else 0
  }

  /** Publish never blocks: whatever readers do or fail to do, a publish under way can take
      its next step, and each of its steps leaves it less to do; it ends when nothing is left. */
  lemma PublishNeverBlocks(run: seq<State>, i: nat, n: nat) returns (a: Action)
    requires Run(run) && i < |run| && n in run[i].pubs
    ensures Advances(run[i], n, a)
  {
    hide Inv;
    Always(run, i);
    a := CanStep(run[i], n);
  }

  /** A step of publish n that leaves it less to do, or ends it. */
  ghost predicate Advances(h: State, n: nat, a: Action) {
    && Enabled(h, a) && (a.Send? || a.Count? || a.End?) && a.n == n && n in h.pubs
    && (if ToVisit(h.pubs[n]) == 0 then a.End? && n !in Next(h, a).pubs
        else n in Next(h, a).pubs && ToVisit(Next(h, a).pubs[n]) < ToVisit(h.pubs[n]))
  }

  lemma CanStep(h: State, n: nat) returns (a: Action)
    requires Inv(h) && n in h.pubs
    ensures Advances(h, n, a)
  {
    hide Inv; hide Advances;
    var p := h.pubs[n];
    StillThere(h, n);
    if p.counting {
      a := Count(n);
      CountOrEndAdvances(h, n);
    } else if p.dev != {} {
      var s :| s in p.dev;
      a := Send(n, s, false);
      SendAdvances(h, n, s);
    } else if p.all != {} {
      var s :| s in p.all;
      a := Send(n, s, false);
      SendAdvances(h, n, s);
    } else {
      a := End(n);
      CountOrEndAdvances(h, n);
    }
  }

  lemma CountOrEndAdvances(h: State, n: nat)
    ensures Enabled(h, Count(n)) ==> Advances(h, n, Count(n))
    ensures Enabled(h, End(n)) ==> Advances(h, n, End(n))
  {
  }

  lemma SendAdvances(h: State, n: nat, s: nat)
    requires Enabled(h, Send(n, s, false))
    ensures Advances(h, n, Send(n, s, false))
  {
    var p := h.pubs[n];
    hide Offered;
    if s in p.dev { assert |p.dev - {s}| == |p.dev| - 1; } else { assert p.dev - {s} == p.dev && |p.all - {s}| == |p.all| - 1; }
  }

  lemma StillThere(h: State, n: nat)
    requires Inv(h) && n in h.pubs
    ensures n < |h.history| && forall s :: s in h.pubs[n].dev || s in h.pubs[n].all ==> s < |h.table|
  {
    assert Fits(h.targets[n], h.table, h.history[n].1.device);
  }

  /** A finished publish offered its reading exactly once to each of its targets and to
      nobody else, drops included. */
  lemma PublishReachesEachOnce(run: seq<State>, i: nat, n: nat, s: nat)
    requires Run(run) && i < |run| && n < |run[i].history| && n !in run[i].pubs && s < |run[i].table|
    ensures |run[i].targets| == |run[i].history|
    ensures TriesFor(run[i].table[s].log, n) == if s in run[i].targets[n] then 1 else 0
  {
    Always(run, i);
    assert Offers(run[i], s);
  }

  /** The targets of a publish are exactly the subscriptions open when it starts that are
      for its device or for all devices. */
  lemma TargetsAreOpenSubscriptions(run: seq<State>, i: nat, from: int, r: Reading)
    requires Run(run) && i < |run|
    ensures var h := run[i]; var h' := Next(h, Begin(from, r));
            h'.targets[|h.targets|] == set s: nat | s < |h.table| && h.table[s].open
                                                   && (h.table[s].device == None || h.table[s].device == Some(r.device))
  {
    Always(run, i);
    var h := run[i];
    var targets := ForDevice(h.subs, r.device) + h.all;
    forall s: nat
      ensures s in targets <==> s < |h.table| && h.table[s].open && (h.table[s].device == None || h.table[s].device == Some(r.device))
    {
      assert r.device in h.subs ==> OnlyFor(h.subs[r.device], h.table, r.device);
    }
  }

  /** Cleaning up a subscription that is already closed changes nothing. */
  lemma CleanupAgainIsNothing(h: State, s: nat)
    requires Inv(h) && Enabled(h, Unsubscribe(s))
    ensures !h.table[s].open ==> Next(h, Unsubscribe(s)) == h
    ensures Enabled(Next(h, Unsubscribe(s)), Unsubscribe(s))
    ensures Next(Next(h, Unsubscribe(s)), Unsubscribe(s)) == Next(h, Unsubscribe(s))
    ensures var h' := Next(h, Unsubscribe(s));
            && !h'.table[s].open && s !in ForDevice(h'.subs, h.table[s].device.value)
            && h'.table[s].ch == h.table[s].ch
            && forall t: nat :: t < |h.table| && t != s ==> h'.table[t] == h.table[t]
  {
    NextKeeps(h, Unsubscribe(s));
    RemovedEffect(h, s);
    ClosedIsGone(h, s);
    ClosedIsGone(Next(h, Unsubscribe(s)), s);
  }

  lemma ClosedIsGone(h: State, s: nat)
    requires Registered(h) && Enabled(h, Unsubscribe(s))
    ensures !h.table[s].open ==> Next(h, Unsubscribe(s)) == h
  {
    if !h.table[s].open {
      var d := h.table[s].device.value;
      assert ForDevice(h.subs, d) - {s} == ForDevice(h.subs, d);
      if d in h.subs { assert h.subs[d := h.subs[d]] == h.subs; }
    }
  }

  lemma {:induction false} PathInv(h: State, acts: seq<Action>, h': State)
    requires Inv(h) && Path(h, acts, h')
    ensures Inv(h')
    decreases |acts|
  {
    if acts != [] {
      NextKeeps(h, acts[0]);
      PathInv(Next(h, acts[0]), acts[1..], h');
    }
  }
}
