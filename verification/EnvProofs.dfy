/**
  What every generated summer satisfies: a shorter run is a prefix of a longer one, and arrivals, events
  and clouds stay where they belong.
 */
module EnvProofs {
  import opened Mulberry
  import opened EnvGen
  import ReplayCaps

  // ---------------------------------------------------------------- prefixes

  /** The events of more days begin with the events of fewer, and what follows belongs to the later days. */
  lemma {:induction false} EventsGrow(src: Source, seed: int, d1: nat, d2: nat)
    requires d1 <= d2
    ensures var a, b := EventsTo(src, seed, d1), EventsTo(src, seed, d2);
            && a <= b
            && (forall k :: |a| <= k < |b| ==> d1 <= b[k].day < d2)
  {
    hide EveningOf, DayHead, SkyAt;
    if d1 < d2 {
      EventsGrow(src, seed, d1, d2 - 1);
      var hd := DayHead(src, seed, d2 - 1);
      EveningBelongsToDay(src, d2 - 1, hd, SkyAt(src, hd, TPD).s);
    }
  }

  /** An event of day `d`, from mid-morning to before midnight, with a positive duration. */
  predicate InDay(ev: ReplayCaps.Event, d: nat) {
    ev.day == d && 10.5 <= ev.start && ev.start + 1.5 <= ev.end < 24.0
  }

  /** Each event lies within its own day. */
  lemma EveningBelongsToDay(src: Source, d: nat, hd: Head, s: Word)
    ensures forall k :: 0 <= k < |EveningOf(src, d, hd, s).events| ==> InDay(EveningOf(src, d, hd, s).events[k], d)
  {
    CapEventsInDay(src, d, hd, s);
    PeakEventsInDay(src, d, hd, CapEvents(src, d, hd, s).s);
    hide CapEvents, PeakEvents, InDay;
  }

  lemma CapEventsInDay(src: Source, d: nat, hd: Head, s: Word)
    ensures forall k :: 0 <= k < |CapEvents(src, d, hd, s).events| ==> InDay(CapEvents(src, d, hd, s).events[k], d)
  {
  }

  lemma PeakEventsInDay(src: Source, d: nat, hd: Head, s: Word)
    ensures forall k :: 0 <= k < |PeakEvents(src, d, hd, s).events| ==> InDay(PeakEvents(src, d, hd, s).events[k], d)
  {
  }

  /**
    Main result.  With the same seed, the first `d1` days of a longer run are the shorter run: every series
    and every event of the shorter is a prefix of the longer.
   */
  lemma PrefixStable(src: Source, seed: int, d1: nat, d2: nat)
    requires d1 <= d2
    ensures var a, b, n := SummerOf(src, seed, d1), SummerOf(src, seed, d2), d1 * TPD;
            && n <= |b.pv| == |b.load| == |b.home| == |b.arrive|
            && a.pv == b.pv[..n] && a.load == b.load[..n] && a.home == b.home[..n] && a.arrive == b.arrive[..n]
            && a.events <= b.events && a.dates == b.dates[..d1]
            && (forall k :: 0 <= k < |b.events| ==> (b.events[k].day < d1 <==> k < |a.events|))
  {
    hide PvAt, LoadAt, AwayAt, ArrivalAt, EventsTo, TallyTo;
    EventsGrow(src, seed, 0, d1);
    EventsGrow(src, seed, d1, d2);
    NoEventsYet(src, seed);
  }

  lemma NoEventsYet(src: Source, seed: int)
    ensures EventsTo(src, seed, 0) == []
  {
  }

  /** The events of a run can be turned into caps: each falls on a day of the run. */
  lemma EventsFitTheRun(src: Source, seed: int, days: nat)
    ensures forall k :: 0 <= k < |EventsTo(src, seed, days)| ==> EventsTo(src, seed, days)[k].day < days
  {
    EventsGrow(src, seed, 0, days);
    NoEventsYet(src, seed);
  }

  // ---------------------------------------------------------------- weather

  /** How hot day `d` gets. */
  function HeatAt(src: Source, seed: int, d: nat): real {
    DayHead(src, seed, d).heat
  }

  /** Every day is counted under one weather, and the greatest heat is that of some day and of none exceeded. */
  lemma {:induction false} TallyIsExact(src: Source, seed: int, d: nat)
    ensures var x := TallyTo(src, seed, d);
            && x.clear + x.partly + x.rain == d
            && (forall k: nat :: k < d ==> HeatAt(src, seed, k) <= x.maxHeat)
            && (d > 0 ==> exists k: nat :: k < d && HeatAt(src, seed, k) == x.maxHeat)
  {
    hide DayHead;
    if d > 0 {
      TallyIsExact(src, seed, d - 1);
      HeatIsPositive(src, seed, d - 1);
      var k := d - 1;
      assert HeatAt(src, seed, k) <= TallyTo(src, seed, d).maxHeat;
    }
  }

  lemma HeatIsPositive(src: Source, seed: int, d: nat)
    ensures HeatAt(src, seed, d) >= 66.0
  {
    var dawn := DawnOf(src, seed, d);
    hide DawnOf, TripOf;
    assert HeatAt(src, seed, d) == HeadOf(src, d, dawn.s, dawn.w).heat;
  }

  // ---------------------------------------------------------------- clouds and trips

  /** The cloud walk never leaves its band. */
  lemma {:induction false} CloudStaysInBand(src: Source, hd: Head, i: nat)
    ensures 0.25 <= SkyAt(src, hd, i).cloud <= 0.95
  {
    if i > 0 {
      CloudStaysInBand(src, hd, i - 1);
    }
  }

  /** A day without a trip, or one that leaves after seven and is back, three hours later at least, before seven in the evening. */
  lemma TripWithinDay(src: Source, d: nat, s: Word)
    ensures var t := TripOf(src, d, s);
            || (t.dep < 0.0 && t.ret < 0.0 && t.kwh == 0.0)
            || (7.0 <= t.dep && t.dep + 3.0 <= t.ret < 19.0 && 2.0 <= t.kwh <= 22.0)
  {
  }

  /**
    The arrival is booked on the tick that contains the return, never clamped to the end of the day.  On
    that tick the EV still counts as away, unless it returned at its very start; on the next it is home.
   */
  lemma ArrivalTick(src: Source, d: nat, s: Word)
    ensures var t := TripOf(src, d, s);
            t.dep >= 0.0 ==>
              var i := BackAt(t);
              && i < TPD - 1 && Hour(i) <= t.ret < Hour(i + 1)
              && (Away(t, i) <==> Hour(i) != t.ret) && !Away(t, i + 1)
  {
    TripWithinDay(src, d, s);
    hide TripOf;
    var t := TripOf(src, d, s);
    if t.dep >= 0.0 {
      var q := t.ret / DT;
      assert q.Floor as real <= q < q.Floor as real + 1.0;
    }
  }
}
