/** The metrics aggregator: a map of latest samples from which idle series are evicted
    whenever they are observed, against a history in which nothing is ever evicted. */
module Aggregator {
  import opened Model

  datatype Key = Key(device: int, sensor: string)
  datatype Sample = Sample(value: real, at: int)

  /** Locked sections in the order the mutex serves them. A record reads its clock inside
      the lock; an observation reads it before. */
  datatype Event = Record(k: Key, value: real, at: int) | Observe(asOf: int)

  function Surviving(latest: map<Key, Sample>, cutoff: int): map<Key, Sample> {
    map k | k in latest && !(latest[k].at < cutoff) :: latest[k]
  }

  function Apply(latest: map<Key, Sample>, e: Event, idleTTL: int): map<Key, Sample> {
    match e
    case Record(k, value, at) => latest[k := Sample(value, at)]
    case Observe(asOf) => Surviving(latest, asOf - idleTTL)
  }

  /** The cache after a history of events. */
  function Cache(events: seq<Event>, idleTTL: int): map<Key, Sample> {
    if events == [] then map[]
    else Apply(Cache(events[..|events| - 1], idleTTL), events[|events| - 1], idleTTL)
  }

  /** The last sample ever recorded for a key. */
  function Last(events: seq<Event>, k: Key): Option<Sample> {
    if events == [] then None
    else
      var e := events[|events| - 1];
      if e.Record? && e.k == k then Some(Sample(e.value, e.at)) else Last(events[..|events| - 1], k)
  }

  /** The clock does not run backwards: a record locked after an observation reads a clock
      no earlier than the observation did. */
  ghost predicate ClockMonotone(events: seq<Event>) {
    forall i, j :: 0 <= i < j < |events| && events[i].Observe? && events[j].Record? ==> events[i].asOf <= events[j].at
  }

  /** The key's last sample was idle at no observation so far. */
  ghost predicate NeverIdle(events: seq<Event>, at: int, idleTTL: int) {
    forall i :: 0 <= i < |events| && events[i].Observe? ==> at >= events[i].asOf - idleTTL
  }

  /** The cache holds exactly the last samples that no observation found idle. */
  lemma {:induction false} CacheIsLast(events: seq<Event>, idleTTL: int, k: Key)
    requires ClockMonotone(events) && idleTTL >= 0
    ensures k in Cache(events, idleTTL) <==>
      Last(events, k).Some? && NeverIdle(events, Last(events, k).value.at, idleTTL)
    ensures k in Cache(events, idleTTL) ==> Cache(events, idleTTL)[k] == Last(events, k).value
  {
    if events != [] {
      var n := |events| - 1;
      var before, e := events[..n], events[n];
      CacheIsLast(before, idleTTL, k);
      assert events == before + [e];
      if e.Record? && e.k == k {
        assert NeverIdle(events, e.at, idleTTL);
      } else if Last(before, k).Some? {
        var at := Last(before, k).value.at;
        assert NeverIdle(events, at, idleTTL) <==>
          NeverIdle(before, at, idleTTL) && (e.Observe? ==> at >= e.asOf - idleTTL);
      }
    }
  }

  /** Observations take place one after the other, so their clocks do not decrease. */
  ghost predicate OneAtATime(events: seq<Event>, asOf: int) {
    forall i :: 0 <= i < |events| && events[i].Observe? ==> events[i].asOf <= asOf
  }

  /** Eviction is invisible: an observation emits exactly the keys whose last sample ever is
      no older than the idle limit, with that sample's value. */
  lemma EvictionIsInvisible(events: seq<Event>, asOf: int, idleTTL: int, k: Key)
    requires ClockMonotone(events) && idleTTL >= 0 && OneAtATime(events, asOf)
    ensures var seen := Surviving(Cache(events, idleTTL), asOf - idleTTL);
            && (k in seen <==> Last(events, k).Some? && Last(events, k).value.at >= asOf - idleTTL)
            && (k in seen ==> seen[k] == Last(events, k).value)
  {
    CacheIsLast(events, idleTTL, k);
    if Last(events, k).Some? && Last(events, k).value.at >= asOf - idleTTL {
      assert NeverIdle(events, Last(events, k).value.at, idleTTL);
    }
  }

  /** With overlapping observations eviction of a key can show, and shows exactly when an
      earlier-locked observation that read a later clock found the key's last sample idle. */
  lemma EvictionShowsExactly(events: seq<Event>, asOf: int, idleTTL: int, k: Key)
    requires ClockMonotone(events) && idleTTL >= 0
    requires Last(events, k).Some? && Last(events, k).value.at >= asOf - idleTTL
    ensures k !in Surviving(Cache(events, idleTTL), asOf - idleTTL) <==>
      exists i :: 0 <= i < |events| && events[i].Observe? && events[i].asOf > asOf
               && Last(events, k).value.at < events[i].asOf - idleTTL
  {
    CacheIsLast(events, idleTTL, k);
  }

  class Gauge {
    var latest: map<Key, Sample>
    const idleTTL: int
    ghost var events: seq<Event>

    ghost predicate Valid()
      reads this
    {
      latest == Cache(events, idleTTL)
    }

    constructor (idleTTL: int)
      ensures Valid() && events == [] && this.idleTTL == idleTTL
    {
      this.idleTTL := idleTTL;
      latest := map[];
      events := [];
    }

    method RecordReading(r: Reading, now: int)
      requires Valid()
      modifies this
      ensures Valid() && events == old(events) + [Record(Key(r.device, r.sensor), r.value, now)]
      ensures latest == old(latest)[Key(r.device, r.sensor) := Sample(r.value, now)]
    {
      latest := latest[Key(r.device, r.sensor) := Sample(r.value, now)];
      events := events + [Record(Key(r.device, r.sensor), r.value, now)];
      assert events[..|events| - 1] == old(events);
    }

    /** Visits every series once: emits it, or deletes it if it was idle at the given clock.
        With observations one at a time and a clock that does not run backwards, what is
        emitted are the last samples ever recorded that are recent enough. */
    method ObserveLatest(asOf: int) returns (emitted: map<Key, real>)
      requires Valid()
      modifies this
      ensures Valid() && events == old(events) + [Observe(asOf)]
      ensures forall k :: k in emitted <==> k in old(latest) && asOf - old(latest)[k].at <= idleTTL
      ensures forall k <- emitted :: emitted[k] == old(latest)[k].value
      ensures forall k :: k in latest <==> k in emitted
      ensures forall k <- latest :: latest[k] == old(latest)[k]
      ensures idleTTL >= 0 && ClockMonotone(old(events)) && OneAtATime(old(events), asOf) ==>
        && (forall k :: k in emitted <==> Last(old(events), k).Some? && asOf - Last(old(events), k).value.at <= idleTTL)
        && (forall k <- emitted :: Last(old(events), k) == Some(old(latest)[k]))
    {
      var cutoff := asOf - idleTTL;
      var rest := latest.Keys;
      emitted := map[];
      while rest != {}
        invariant rest <= latest.Keys <= old(latest).Keys
        invariant forall k <- old(latest) :: k in latest <==> k in rest || old(latest)[k].at >= cutoff
        invariant forall k <- latest :: latest[k] == old(latest)[k]
        invariant emitted == map k | k in latest && k !in rest :: latest[k].value
        invariant events == old(events)
        decreases rest
      {
        var k :| k in rest;
        rest := rest - {k};
        if latest[k].at < cutoff {
          latest := latest - {k};
          continue;
        }
        emitted := emitted[k := latest[k].value];
      }
      events := events + [Observe(asOf)];
      assert events[..|events| - 1] == old(events);
      assert latest == Surviving(old(latest), asOf - idleTTL);
      if idleTTL >= 0 && ClockMonotone(old(events)) && OneAtATime(old(events), asOf) {
        forall k
          ensures k in emitted <==> Last(old(events), k).Some? && asOf - Last(old(events), k).value.at <= idleTTL
          ensures k in emitted ==> Last(old(events), k) == Some(old(latest)[k])
        {
          EvictionIsInvisible(old(events), asOf, idleTTL, k);
        }
      }
    }
  }
}
