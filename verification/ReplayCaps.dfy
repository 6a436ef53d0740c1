/**
  From discrete DER events to one cap per tick (scripts/replay-compare.py, build_caps).
 */
module ReplayCaps {
  import opened Replay

  datatype EventType = ExportEvent | ImportEvent | GenEvent | OtherEvent

  datatype Event = Event(day: nat, typ: EventType, limit: real, start: real, end: real)
  {
    /** The event is in force on tick `t`. */
    predicate Covers(t: nat) {
      t / TPD == day && start <= (t % TPD) as real * DT < end
    }
  }

  /** An event is in force on its own day's ticks from its start, inclusive, to its end, exclusive, and on no other day's. */
  lemma InForceExactly(ev: Event, day: nat, i: nat)
    requires i < 96
    ensures ev.Covers(96 * day + i) <==> day == ev.day && ev.start <= 0.25 * i as real && 0.25 * i as real < ev.end
  {
    assert (96 * day + i) / 96 == day && (96 * day + i) % 96 == i;
  }

  /** The tighter of a cap and a new limit. */
  function Tighten(c: Cap, limit: real): Cap {
    Limit(if c.Limit? then Min(c.kw, limit) else limit)
  }

  /** The cap of one kind on a tick, from the first `n` events. */
  function CapOf(events: seq<Event>, n: nat, typ: EventType, t: nat): Cap
    requires n <= |events|
  {
    if n == 0 then Unlimited
    else
      var c, ev := CapOf(events, n - 1, typ, t), events[n - 1];
      if ev.typ == typ && ev.Covers(t) then Tighten(c, ev.limit) else c
  }

  /**
    The cap of a tick is the greatest lower bound of the limits in force: there is one exactly when an
    event is in force, no limit in force is tighter, and some limit in force is attained.
   */
  lemma {:induction false} CapIsTightest(events: seq<Event>, n: nat, typ: EventType, t: nat)
    requires n <= |events|
    ensures CapOf(events, n, typ, t).Limit? <==> exists k :: 0 <= k < n && events[k].typ == typ && events[k].Covers(t)
    ensures forall k :: 0 <= k < n && events[k].typ == typ && events[k].Covers(t) ==>
              CapOf(events, n, typ, t).Limit? && CapOf(events, n, typ, t).kw <= events[k].limit
    ensures CapOf(events, n, typ, t).Limit? ==>
              exists k :: 0 <= k < n && events[k].typ == typ && events[k].Covers(t) && events[k].limit == CapOf(events, n, typ, t).kw
  {
    if n > 0 {
      CapIsTightest(events, n - 1, typ, t);
    }
  }

  /** Tighten the buffer over one event's ticks. */
  method ApplyEvent(cap: array<Cap>, ev: Event)
    requires (ev.day + 1) * TPD <= cap.Length
    modifies cap
    ensures forall t :: 0 <= t < cap.Length ==>
              cap[t] == if ev.Covers(t) then Tighten(old(cap[t]), ev.limit) else old(cap[t])
  {
    var first := ev.day * TPD;
    for i := 0 to TPD
      invariant forall t :: 0 <= t < cap.Length ==>
                  cap[t] == if first <= t < first + i && ev.Covers(t) then Tighten(old(cap[t]), ev.limit) else old(cap[t])
    {
      var h := i as real * DT;
      TickOfEvent(ev, first + i, i);
      if ev.start <= h < ev.end {
        cap[first + i] := Tighten(cap[first + i], ev.limit);
      }
    }
    forall t: nat | ev.Covers(t)
      ensures first <= t < first + TPD
    {
    }
  }

  lemma TickOfEvent(ev: Event, t: nat, i: nat)
    requires i < TPD && t == ev.day * TPD + i
    ensures ev.Covers(t) <==> ev.start <= i as real * DT < ev.end
  {
  }

  /** One buffer per kind of cap; every event's day must lie within the run. */
  method BuildCaps(events: seq<Event>, days: nat) returns (expCap: array<Cap>, impCap: array<Cap>, genCap: array<Cap>)
    requires forall k :: 0 <= k < |events| ==> events[k].day < days
    ensures fresh(expCap) && fresh(impCap) && fresh(genCap)
    ensures expCap.Length == impCap.Length == genCap.Length == days * TPD
    ensures forall t :: 0 <= t < days * TPD ==> expCap[t] == CapOf(events, |events|, ExportEvent, t)
    ensures forall t :: 0 <= t < days * TPD ==> impCap[t] == CapOf(events, |events|, ImportEvent, t)
    ensures forall t :: 0 <= t < days * TPD ==> genCap[t] == CapOf(events, |events|, GenEvent, t)
  {
    var n := days * TPD;
    expCap := new Cap[n](_ => Unlimited);
    impCap := new Cap[n](_ => Unlimited);
    genCap := new Cap[n](_ => Unlimited);
    for k := 0 to |events|
      invariant fresh(expCap) && fresh(impCap) && fresh(genCap)
      invariant expCap != impCap && expCap != genCap && impCap != genCap
      invariant forall t :: 0 <= t < n ==> expCap[t] == CapOf(events, k, ExportEvent, t)
      invariant forall t :: 0 <= t < n ==> impCap[t] == CapOf(events, k, ImportEvent, t)
      invariant forall t :: 0 <= t < n ==> genCap[t] == CapOf(events, k, GenEvent, t)
    {
      var ev := events[k];
      assert (ev.day + 1) * TPD <= n;
      match ev.typ {
        case ExportEvent => ApplyEvent(expCap, ev);
        case ImportEvent => ApplyEvent(impCap, ev);
        case GenEvent => ApplyEvent(genCap, ev);
        case OtherEvent =>
      }
    }
  }
}
