/**
  The whole comparison (scripts/replay-compare.py, run_models): generate a summer from a seed, turn its
  events into caps, and run the four policies over it.
 */
module Comparison {
  import opened Mulberry
  import EnvGen
  import EnvProofs
  import opened Replay
  import ReplayCaps
  import ReplayCost
  import opened ReplaySafety

  type Source = EnvGen.Source

  /** The cap of one kind, tick by tick. */
  function CapSeries(events: seq<ReplayCaps.Event>, typ: ReplayCaps.EventType, n: nat): (c: seq<Cap>)
    ensures |c| == n
    ensures forall t: nat :: t < n ==> c[t] == ReplayCaps.CapOf(events, |events|, typ, t)
  {
    seq(n, (t: nat) => ReplayCaps.CapOf(events, |events|, typ, t))
  }

  function EnvFrom(x: EnvGen.Summer, n: nat): Env {
    Env(x.pv, x.load, x.home, x.arrive, CapSeries(x.events, ReplayCaps.ExportEvent, n),
        CapSeries(x.events, ReplayCaps.ImportEvent, n), CapSeries(x.events, ReplayCaps.GenEvent, n))
  }

  /** What a comparison of `days` days is run over. */
  function EnvOf(src: Source, seed: int, days: nat): (env: Env)
    ensures env.Covers(days * TPD)
  {
    EnvFrom(EnvGen.SummerOf(src, seed, days), days * TPD)
  }

  /** Each account ends where its policy alone would, over the environment of the seed. */
  method RunFromSeed(src: Source, seed: int, days: nat)
      returns (dumb: Account, loadonly: Account, deferral: Account, smart: Account)
    requires src.out == Output
    ensures dumb.policy == DumbPolicy && HasRun(dumb, EnvOf(src, seed, days), days)
    ensures loadonly.policy == LoadOnlyPolicy && HasRun(loadonly, EnvOf(src, seed, days), days)
    ensures deferral.policy == DeferralPolicy && HasRun(deferral, EnvOf(src, seed, days), days)
    ensures smart.policy == SmartPolicy && HasRun(smart, EnvOf(src, seed, days), days)
  {
    hide EnvGen.SummerOf, EnvGen.EventsTo, ReplayCaps.CapOf, HasRun, EnvOf;
    var pv, load, home, arrive, events, dates, weather, maxHeat := EnvGen.GenEnv(src, seed, days);
    EventsOfSummer(src, seed, days);
    EnvProofs.EventsFitTheRun(src, seed, days);
    var expCap, impCap, genCap := ReplayCaps.BuildCaps(events, days);
    var env := Env(pv[..], load[..], home[..], arrive[..], expCap[..], impCap[..], genCap[..]);
    assert env == EnvOf(src, seed, days) by {
      BuffersAreEnv(src, seed, days, events, expCap[..], impCap[..], genCap[..]);
    }
    dumb, loadonly, deferral, smart := RunModels(env, days);
  }

  lemma EventsOfSummer(src: Source, seed: int, days: nat)
    ensures EnvGen.SummerOf(src, seed, days).events == EnvGen.EventsTo(src, seed, days)
  {
  }

  lemma BuffersAreEnv(src: Source, seed: int, days: nat, events: seq<ReplayCaps.Event>, exp: seq<Cap>, imp: seq<Cap>, gen: seq<Cap>)
    requires events == EnvGen.SummerOf(src, seed, days).events && |exp| == |imp| == |gen| == days * TPD
    requires forall t :: 0 <= t < days * TPD ==> exp[t] == ReplayCaps.CapOf(events, |events|, ReplayCaps.ExportEvent, t)
    requires forall t :: 0 <= t < days * TPD ==> imp[t] == ReplayCaps.CapOf(events, |events|, ReplayCaps.ImportEvent, t)
    requires forall t :: 0 <= t < days * TPD ==> gen[t] == ReplayCaps.CapOf(events, |events|, ReplayCaps.GenEvent, t)
    ensures var x := EnvGen.SummerOf(src, seed, days);
            EnvOf(src, seed, days) == Env(x.pv, x.load, x.home, x.arrive, exp, imp, gen)
  {
    hide EnvGen.SummerOf, ReplayCaps.CapOf;
    var n := days * TPD;
    assert exp == CapSeries(events, ReplayCaps.ExportEvent, n);
    assert imp == CapSeries(events, ReplayCaps.ImportEvent, n);
    assert gen == CapSeries(events, ReplayCaps.GenEvent, n);
  }

  // ---------------------------------------------------------------- a longer comparison continues a shorter one

  /** Events that do not cover a tick have no say in its cap. */
  lemma {:induction false} LaterEventsDoNotMatter(a: seq<ReplayCaps.Event>, b: seq<ReplayCaps.Event>, n: nat, typ: ReplayCaps.EventType, t: nat)
    requires a <= b && |a| <= n <= |b| && forall k :: |a| <= k < n ==> !b[k].Covers(t)
    ensures ReplayCaps.CapOf(b, n, typ, t) == ReplayCaps.CapOf(a, |a|, typ, t)
  {
    if n > |a| {
      LaterEventsDoNotMatter(a, b, n - 1, typ, t);
    } else {
      SameEventsSameCap(a, b, n, typ, t);
    }
  }

  lemma {:induction false} SameEventsSameCap(a: seq<ReplayCaps.Event>, b: seq<ReplayCaps.Event>, n: nat, typ: ReplayCaps.EventType, t: nat)
    requires a <= b && n <= |a|
    ensures ReplayCaps.CapOf(b, n, typ, t) == ReplayCaps.CapOf(a, n, typ, t)
  {
    if n > 0 {
      SameEventsSameCap(a, b, n - 1, typ, t);
    }
  }

  /** Two environments are the same on their first `n` ticks. */
  ghost predicate SameTo(a: Env, b: Env, n: nat) {
    && a.Covers(n) && b.Covers(n)
    && forall t :: 0 <= t < n ==> TickAt(a, t) == TickAt(b, t) && a.evArrive[t] == b.evArrive[t]
  }

  lemma SummersAgree(src: Source, seed: int, d1: nat, d2: nat)
    requires d1 <= d2
    ensures SameTo(EnvOf(src, seed, d1), EnvOf(src, seed, d2), d1 * TPD)
  {
    var x, y, n := EnvGen.SummerOf(src, seed, d1), EnvGen.SummerOf(src, seed, d2), d1 * TPD;
    EnvProofs.PrefixStable(src, seed, d1, d2);
    hide EnvGen.SummerOf, ReplayCaps.CapOf;
    forall t, typ | 0 <= t < n
      ensures ReplayCaps.CapOf(x.events, |x.events|, typ, t) == ReplayCaps.CapOf(y.events, |y.events|, typ, t)
    {
      forall k | |x.events| <= k < |y.events|
        ensures !y.events[k].Covers(t)
      {
        assert y.events[k].day >= d1 > t / TPD;
      }
      LaterEventsDoNotMatter(x.events, y.events, |y.events|, typ, t);
    }
  }

  lemma {:induction false} SameBooks(p: Policy, a: Env, b: Env, n: nat, t: nat)
    requires t <= n && SameTo(a, b, n)
    ensures RunTo(p, a, t) == RunTo(p, b, t)
  {
    hide StepOf, Arrive, TickAt;
    if t > 0 {
      SameBooks(p, a, b, n, t - 1);
    }
  }

  /**
    Main result.  A comparison over more days begins with the comparison over fewer: from the same seed,
    every policy's books agree at every tick they share, caps and all.
   */
  lemma ComparisonIsPrefixStable(p: Policy, src: Source, seed: int, d1: nat, d2: nat, t: nat)
    requires d1 <= d2 && t <= d1 * TPD
    ensures t <= d2 * TPD && RunTo(p, EnvOf(src, seed, d1), t) == RunTo(p, EnvOf(src, seed, d2), t)
  {
    hide EnvOf, SameTo;
    SummersAgree(src, seed, d1, d2);
    SameBooks(p, EnvOf(src, seed, d1), EnvOf(src, seed, d2), d1 * TPD, t);
  }

  // ---------------------------------------------------------------- generated environments are sane

  /** All that is asked of the transcendental parts: nothing negative where the real ones are not. */
  ghost predicate SaneMaths(m: EnvGen.Maths) {
    && (forall x :: x >= 0.0 ==> m.lift(x) >= 0.0)
    && (forall x :: 0.0 <= x <= 1.0 ==> m.sinPi(x) >= 0.0)
    && (forall x :: x >= 0.0 ==> m.round1(x) >= 0.0)
  }

  lemma ProductNonNegative(a: real, b: real)
    requires a >= 0.0 && b >= 0.0
    ensures a * b >= 0.0
  {
  }

  lemma PvNonNegative(src: Source, seed: int, t: nat)
    requires SaneMaths(src.m)
    ensures EnvGen.PvAt(src, seed, t) >= 0.0
  {
    var hd, i := EnvGen.DayHead(src, seed, t / TPD), t % TPD;
    var sky := EnvGen.SkyAt(src, hd, i);
    var u := Uniform(src.out, Succ(sky.s));
    var wf := EnvGen.LightOf(hd.w, sky.cloud, u);
    assert wf >= 0.0;
    hide EnvGen.DayHead, EnvGen.SkyAt, EnvGen.LightOf;
    PvPowerNonNegative(src.m, EnvGen.Hour(i), wf);
  }

  lemma PvPowerNonNegative(m: EnvGen.Maths, h: real, wf: real)
    requires SaneMaths(m) && wf >= 0.0
    ensures EnvGen.PvPower(m, h, wf) >= 0.0
  {
    var elev := if 5.4 < h < 20.2 then m.sinPi((h - 5.4) / 14.8) else 0.0;
    ProductNonNegative(EnvGen.PV_KW * m.lift(elev), wf);
  }

  lemma PlainLoadNonNegative(m: EnvGen.Maths, h: real, u: real)
    requires SaneMaths(m) && 0.0 <= u
    ensures EnvGen.PlainLoad(m, h, u) >= 0.0
  {
    if 6.0 <= h < 9.0 {
      assert 0.0 <= (h - 6.0) / 3.0 <= 1.0;
    }
    if 17.0 <= h < 22.0 {
      assert 0.0 <= (h - 17.0) / 5.0 <= 1.0;
    }
  }

  lemma AcLoadNonNegative(m: EnvGen.Maths, heat: real, h: real, u: real)
    requires SaneMaths(m) && 0.0 <= u && EnvGen.AcHours(h)
    ensures EnvGen.AcLoad(m, heat, h, u) >= 0.0
  {
    var f := (heat - 72.0) / 22.0;
    var g := if f > 0.0 then f else 0.0;
    var s := m.sinPi((h - 12.0) / 11.0);
    assert 0.0 <= (h - 12.0) / 11.0 <= 1.0;
    ProductNonNegative(g * 2.6, s);
    ProductNonNegative(g * 2.6 * s, 0.75 + 0.5 * u);
  }

  lemma LoadNonNegative(src: Source, seed: int, t: nat)
    requires SaneMaths(src.m)
    ensures EnvGen.LoadAt(src, seed, t) >= 0.0
  {
    hide EnvGen.DayHead, EnvGen.SkyAt, EnvGen.PlainLoad, EnvGen.AcLoad;
    var hd, i := EnvGen.DayHead(src, seed, t / TPD), t % TPD;
    var h, s2 := EnvGen.Hour(i), Succ(Succ(EnvGen.SkyAt(src, hd, i).s));
    PlainLoadNonNegative(src.m, h, Uniform(src.out, s2));
    if EnvGen.AcHours(h) {
      AcLoadNonNegative(src.m, hd.heat, h, Uniform(src.out, Succ(s2)));
    }
  }

  /** No event's limit is negative. */
  predicate LimitsNonNegative(events: seq<ReplayCaps.Event>) {
    forall k :: 0 <= k < |events| ==> events[k].limit >= 0.0
  }

  lemma EveningLimits(src: Source, d: nat, hd: EnvGen.Head, s: Word)
    requires SaneMaths(src.m)
    ensures LimitsNonNegative(EnvGen.EveningOf(src, d, hd, s).events)
  {
    assert LimitsNonNegative(EnvGen.CapEvents(src, d, hd, s).events);
    var s1 := EnvGen.CapEvents(src, d, hd, s).s;
    hide EnvGen.CapEvents;
    assert LimitsNonNegative(EnvGen.PeakEvents(src, d, hd, s1).events);
  }

  lemma {:induction false} GeneratedLimits(src: Source, seed: int, d: nat)
    requires SaneMaths(src.m)
    ensures LimitsNonNegative(EnvGen.EventsTo(src, seed, d))
  {
    hide EnvGen.DayHead, EnvGen.SkyAt, EnvGen.EveningOf;
    if d > 0 {
      GeneratedLimits(src, seed, d - 1);
      var hd := EnvGen.DayHead(src, seed, d - 1);
      EveningLimits(src, d - 1, hd, EnvGen.SkyAt(src, hd, EnvGen.TPD).s);
    }
  }

  lemma CapNonNegative(events: seq<ReplayCaps.Event>, typ: ReplayCaps.EventType, t: nat)
    requires LimitsNonNegative(events)
    ensures ReplayCost.NonNegative(ReplayCaps.CapOf(events, |events|, typ, t))
  {
    ReplayCaps.CapIsTightest(events, |events|, typ, t);
    hide ReplayCaps.CapOf;
  }

  lemma GeneratedEnvIsSane(src: Source, seed: int, days: nat)
    requires SaneMaths(src.m)
    ensures SaneEnv(EnvOf(src, seed, days), days * TPD)
  {
    hide EnvGen.PvAt, EnvGen.LoadAt, EnvGen.AwayAt, EnvGen.ArrivalAt, EnvGen.TallyTo, ReplayCaps.CapOf;
    var events := EnvGen.SummerOf(src, seed, days).events;
    GeneratedLimits(src, seed, days);
    forall t: nat | t < days * TPD
      ensures EnvGen.PvAt(src, seed, t) >= 0.0 && EnvGen.LoadAt(src, seed, t) >= 0.0
    {
      PvNonNegative(src, seed, t);
      LoadNonNegative(src, seed, t);
    }
    forall t: nat, typ
      ensures ReplayCost.NonNegative(ReplayCaps.CapOf(events, |events|, typ, t))
    {
      CapNonNegative(events, typ, t);
    }
  }

  /**
    Main result.  From any seed and for any number of days, the violations booked against the smart policy
    are exactly the ticks on which no feasible dispatch could have complied, and its battery and EV deficit
    stay in their ranges.
   */
  lemma ComparisonBooksHopelessTicks(src: Source, seed: int, days: nat)
    requires SaneMaths(src.m)
    ensures var env, n := EnvOf(src, seed, days), days * TPD;
            && RunTo(SmartPolicy, env, n).vio == HopelessTicks(env, n)
            && Healthy(RunTo(SmartPolicy, env, n))
  {
    hide EnvOf, RunTo, HopelessTicks;
    GeneratedEnvIsSane(src, seed, days);
    RunBooksHopelessTicks(EnvOf(src, seed, days), days * TPD);
    SmartRunIsHealthy(EnvOf(src, seed, days), days * TPD);
  }

  /** A summer that only ever limits import never makes smart much worse than deferral. */
  lemma MildSummerNeverMuchWorse(src: Source, seed: int, days: nat)
    requires SaneMaths(src.m)
    requires forall k :: 0 <= k < |EnvGen.EventsTo(src, seed, days)| ==> EnvGen.EventsTo(src, seed, days)[k].typ == ReplayCaps.ImportEvent
    ensures var env, n := EnvOf(src, seed, days), days * TPD;
            ReplayCost.NeverMuchWorse(RunTo(SmartPolicy, env, n), RunTo(DeferralPolicy, env, n))
  {
    hide RunTo, ReplayCaps.CapOf, EnvGen.PvAt, EnvGen.LoadAt, EnvGen.AwayAt, EnvGen.ArrivalAt, EnvGen.TallyTo;
    var env, n, events := EnvOf(src, seed, days), days * TPD, EnvGen.SummerOf(src, seed, days).events;
    GeneratedEnvIsSane(src, seed, days);
    forall t: nat | t < n
      ensures env.expCap[t] == Unlimited && env.genCap[t] == Unlimited
    {
      ReplayCaps.CapIsTightest(events, |events|, ReplayCaps.ExportEvent, t);
      ReplayCaps.CapIsTightest(events, |events|, ReplayCaps.GenEvent, t);
    }
    ReplayCost.SmartNeverMuchWorse(env, n);
  }
}
