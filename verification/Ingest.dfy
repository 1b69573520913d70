/** The ingest service: which messages become readings, and the receive loop of one stream. */
module Ingest {
  import opened Model

  /** A device message; the timestamp may be missing. */
  datatype Message = Message(sensor: string, value: real, observedAt: Option<int>)

  const ALLOWED: set<string> := {"temperature", "humidity", "voc", "ppm", "pressure"}

  const HOUR: int := 3600 * 1_000_000_000
  const MAX_CLOCK_SKEW_FUTURE: int := 24 * HOUR
  const MAX_BACKFILL: int := 7 * 24 * HOUR

  function ToReading(device: int, msg: Message, now: int): Option<Reading> {
    if msg.sensor !in ALLOWED then None
    else if msg.observedAt.None? then None
    else
      var observed := msg.observedAt.value;
      if observed > now + MAX_CLOCK_SKEW_FUTURE || observed < now - MAX_BACKFILL then None
      else Some(Reading(device, msg.sensor, msg.value, observed))
  }

  /** A message with the server's clock when it was received. */
  type Received = (Message, int)

  /** The readings of a stream's valid messages, in order. */
  function Valid(device: int, msgs: seq<Received>): seq<Reading> {
    if msgs == [] then []
    else
      var n := |msgs| - 1;
      Valid(device, msgs[..n]) +
      match ToReading(device, msgs[n].0, msgs[n].1) case None => [] case Some(r) => [r]
  }

  function Invalid(device: int, msgs: seq<Received>): nat {
    if msgs == [] then 0
    else
      var n := |msgs| - 1;
      Invalid(device, msgs[..n]) + if ToReading(device, msgs[n].0, msgs[n].1).None? then 1 else 0
  }

  lemma {:induction false} ValidAppend(device: int, msgs: seq<Received>, x: Received)
    ensures Valid(device, msgs + [x]) == Valid(device, msgs) + match ToReading(device, x.0, x.1) case None => [] case Some(r) => [r]
    ensures Invalid(device, msgs + [x]) == Invalid(device, msgs) + if ToReading(device, x.0, x.1).None? then 1 else 0
  {
    assert (msgs + [x])[..|msgs|] == msgs;
  }

  /** The reading is this message's: under the stream's device, with the message's sensor,
      value and timestamp, which lies between a week before and a day after the server's
      clock, in nanoseconds, when it was received. */
  predicate Reports(r: Reading, device: int, x: Received) {
    && r.device == device && r.sensor == x.0.sensor && r.value == x.0.value
    && r.sensor in {"temperature", "humidity", "voc", "ppm", "pressure"}
    && x.0.observedAt == Some(r.observedAt)
    && x.1 - 604_800_000_000_000 <= r.observedAt <= x.1 + 86_400_000_000_000
  }

  /** The positions of the valid messages. */
  function Sources(device: int, msgs: seq<Received>): seq<nat> {
    if msgs == [] then []
    else
      var n := |msgs| - 1;
      Sources(device, msgs[..n]) + if ToReading(device, msgs[n].0, msgs[n].1).None? then [] else [n]
  }

  /** Every message is either valid or not. The readings are those of the valid messages, in
      their order, one each, and a message is valid exactly if some reading could report it. */
  lemma {:induction false} ValidityCounts(device: int, msgs: seq<Received>)
    ensures |Valid(device, msgs)| + Invalid(device, msgs) == |msgs|
    ensures |Sources(device, msgs)| == |Valid(device, msgs)|
    ensures forall j :: 0 <= j < |Valid(device, msgs)| ==>
              Sources(device, msgs)[j] < |msgs| && Reports(Valid(device, msgs)[j], device, msgs[Sources(device, msgs)[j]])
    ensures forall j, k :: 0 <= j < k < |Sources(device, msgs)| ==> Sources(device, msgs)[j] < Sources(device, msgs)[k]
    ensures forall i: nat :: i < |msgs| ==> (i in Sources(device, msgs) <==> exists r :: Reports(r, device, msgs[i]))
  {
    hide ToReading; hide Reports;
    if msgs != [] {
      var n := |msgs| - 1;
      var front, x := msgs[..n], msgs[n];
      ValidityCounts(device, front);
      ReportsExactly(device, x);
      assert forall j :: 0 <= j < |Sources(device, front)| ==> Sources(device, front)[j] < n;
      forall i: nat | i < n ensures msgs[i] == front[i] {}
    }
  }

  lemma ReportsExactly(device: int, x: Received)
    ensures var r := ToReading(device, x.0, x.1);
            && (r.Some? ==> Reports(r.value, device, x))
            && (r.Some? <==> exists q :: Reports(q, device, x))
  {
    var r := ToReading(device, x.0, x.1);
    assert r.Some? ==> Reports(r.value, device, x);
    forall q | Reports(q, device, x) ensures r == Some(q) {}
  }

  datatype Result = Summary(accepted: nat, rejected: nat) | Unavailable | Broken | Unauthenticated

  /** One stream, given what it receives, how it ends, and after how many acceptances (if
      ever) the writer refuses. Returns what was enqueued and published. */
  method Stream(device: Option<int>, msgs: seq<Received>, halfClosed: bool, refusal: Option<nat>)
    returns (res: Result, enqueued: seq<Reading>, published: seq<Reading>)
    ensures published == enqueued
    ensures device.None? ==> res == Unauthenticated && enqueued == []
    ensures device.Some? ==>
      var valid := Valid(device.value, msgs);
      if refusal.Some? && refusal.value < |valid| then
        res == Unavailable && enqueued == valid[..refusal.value]
      else
        enqueued == valid && res == if halfClosed then Summary(|valid|, Invalid(device.value, msgs)) else Broken
  {
    res, enqueued, published := Unauthenticated, [], [];
    if device.None? { return; }
    var accepted: nat, rejected: nat := 0, 0;
    var i := 0;
    while i < |msgs|
      invariant 0 <= i <= |msgs|
      invariant enqueued == published == Valid(device.value, msgs[..i])
      invariant accepted == |enqueued| && rejected == Invalid(device.value, msgs[..i])
      invariant refusal.Some? ==> |enqueued| <= refusal.value
    {
      ValidAppend(device.value, msgs[..i], msgs[i]);
      assert msgs[..i + 1] == msgs[..i] + [msgs[i]];
      ValidPrefix(device.value, msgs, i + 1);
      var r := ToReading(device.value, msgs[i].0, msgs[i].1);
      i := i + 1;
      if r.None? {
        rejected := rejected + 1;
        continue;
      }
      if refusal == Some(accepted) {
        return Unavailable, enqueued, published;
      }
      enqueued := enqueued + [r.value];
      published := published + [r.value];
      accepted := accepted + 1;
    }
    assert msgs[..i] == msgs;
    res := if halfClosed then Summary(accepted, rejected) else Broken;
  }

  lemma {:induction false} ValidPrefix(device: int, msgs: seq<Received>, i: nat)
    requires i <= |msgs|
    ensures Valid(device, msgs[..i]) <= Valid(device, msgs)
    decreases |msgs| - i
  {
    if i < |msgs| {
      ValidAppend(device, msgs[..i], msgs[i]);
      assert msgs[..i + 1] == msgs[..i] + [msgs[i]];
      ValidPrefix(device, msgs, i + 1);
    } else {
      assert msgs[..i] == msgs;
    }
  }
}
