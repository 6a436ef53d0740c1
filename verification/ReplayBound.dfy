/**
  Under which cap schedules the smart policy is never much worse than deferral: exactly those that never
  cap export or generation.
 */
module ReplayBound {
  import opened Replay
  import opened ReplayCost
  import opened ReplaySafety
  import ReplayCaps

  /** The caps of a run, tick by tick. */
  datatype Schedule = Schedule(exp: seq<Cap>, imp: seq<Cap>, gen: seq<Cap>)

  /** A schedule for `n` ticks, with no negative cap. */
  predicate Proper(c: Schedule, n: nat) {
    && |c.exp| == |c.imp| == |c.gen| == n
    && forall k :: 0 <= k < n ==> NonNegative(c.exp[k]) && NonNegative(c.imp[k]) && NonNegative(c.gen[k])
  }

  predicate NeverCapsExport(c: Schedule, n: nat)
    requires Proper(c, n)
  {
    forall k :: 0 <= k < n ==> c.exp[k] == Unlimited && c.gen[k] == Unlimited
  }

  /** An environment for `n` ticks under the schedule. */
  predicate Under(env: Env, c: Schedule, n: nat) {
    env.Covers(n) && env.expCap == c.exp && env.impCap == c.imp && env.genCap == c.gen
  }

  // ---------------------------------------------------------------- one bright tick breaks the bound

  /** Nothing owed to the EV by either policy, and smart at least `gap` more expensive. */
  predicate Behind(s: Books, d: Books, gap: real) {
    s.evDef == 0.0 && d.evDef == 0.0 && InRange(s.soc) && s.Net() - d.Net() >= gap
  }

  /** In darkness, without load, nothing moves. */
  lemma IdleKeepsBehind(s: Books, d: Books, e: Tick, gap: real)
    requires Behind(s, d, gap) && Sane(s, e) && e.pv == 0.0 && e.load == 0.0
    ensures Behind(Smart(s, e), Deferral(d, e), gap)
  {
    var p := SmartPlan(s, e);
    assert p.net == 0.0 && Stored(p) == 0.0 && p.ev == 0.0;
    SmartMoves(s, e);
    DeferralMoves(d, e);
  }

  /** Far more sun than a cap lets out: deferral books all of it, smart what the cap allows. */
  lemma BrightTickFallsBehind(s: Books, d: Books, e: Tick, kw: real)
    requires Behind(s, d, 0.0) && Sane(s, e) && e.load == 0.0 && e.pv == kw + 100.0
    requires e.expCap == Limit(kw) || e.genCap == Limit(kw)
    ensures Behind(Smart(s, e), Deferral(d, e), 1.0)
  {
    var p := SmartPlan(s, e);
    SmartIsSafe(s, e);
    FeasibleKeepsRange(p, s, e);
    SmartMoves(s, e);
    DeferralMoves(d, e);
    assert p.net >= -kw - BAT_KW;
    assert Bill(p.net, e.h) >= -(kw + BAT_KW) * DT * EXPORT_CREDIT;
    assert Bill(-(kw + 100.0), e.h) == -(kw + 100.0) * DT * EXPORT_CREDIT;
    assert p.ev == 0.0 && EvDraw(d, e, IsOff(e.h)) == 0.0;
    hide SmartPlan, Smart, Deferral, Bill;
  }

  /** Dark and idle but for tick `k`, which is bright. */
  function Flash(c: Schedule, n: nat, k: nat, pv: real): Env {
    Env(seq(n, i => if i == k then pv else 0.0), seq(n, _ => 0.0), seq(n, _ => false), seq(n, _ => 0.0), c.exp, c.imp, c.gen)
  }

  lemma FlashTick(c: Schedule, n: nat, k: nat, pv: real, t: nat)
    requires Proper(c, n) && k < n && t < n && pv >= 0.0
    ensures Flash(c, n, k, pv).Covers(n) && Flash(c, n, k, pv).evArrive[t] == 0.0
    ensures var e := TickAt(Flash(c, n, k, pv), t);
            && e.load == 0.0 && e.pv == (if t == k then pv else 0.0) && e.expCap == c.exp[t] && e.genCap == c.gen[t]
            && NonNegative(e.expCap) && NonNegative(e.impCap) && NonNegative(e.genCap)
  {
  }

  /** Before the flash nothing has happened; from then on smart is behind. */
  predicate FlashGap(s: Books, d: Books, k: nat, t: nat) {
    Behind(s, d, if t <= k then 0.0 else 1.0)
  }

  /** One tick of the flash. */
  lemma FlashStep(s: Books, d: Books, e: Tick, k: nat, kw: real, t: nat)
    requires FlashGap(s, d, k, t) && kw >= 0.0 && e.load == 0.0 && e.pv == if t == k then kw + 100.0 else 0.0
    requires NonNegative(e.expCap) && NonNegative(e.impCap) && NonNegative(e.genCap)
    requires t == k ==> e.expCap == Limit(kw) || e.genCap == Limit(kw)
    ensures FlashGap(Smart(Arrive(s, 0.0), e), Deferral(Arrive(d, 0.0), e), k, t + 1)
  {
    hide Smart, Deferral;
    if t == k {
      BrightTickFallsBehind(s, d, e, kw);
    } else {
      IdleKeepsBehind(s, d, e, if t <= k then 0.0 else 1.0);
    }
  }

  lemma {:induction false} FlashFallsBehind(c: Schedule, n: nat, k: nat, kw: real, t: nat)
    requires Proper(c, n) && k < n && t <= n && kw >= 0.0 && (c.exp[k] == Limit(kw) || c.gen[k] == Limit(kw))
    ensures Flash(c, n, k, kw + 100.0).Covers(n)
    ensures var env := Flash(c, n, k, kw + 100.0); FlashGap(RunTo(SmartPolicy, env, t), RunTo(DeferralPolicy, env, t), k, t)
  {
    hide Flash, Smart, Deferral, Arrive, TickAt;
    var env := Flash(c, n, k, kw + 100.0);
    FlashTick(c, n, k, kw + 100.0, k);
    if t > 0 {
      hide FlashGap;
      FlashFallsBehind(c, n, k, kw, t - 1);
      FlashTick(c, n, k, kw + 100.0, t - 1);
      FlashStep(RunTo(SmartPolicy, env, t - 1), RunTo(DeferralPolicy, env, t - 1), TickAt(env, t - 1), k, kw, t - 1);
    }
  }

  /** Any export or generation cap, at any hour, lets some environment break the bound. */
  lemma AnyExportCapCanBreakTheBound(c: Schedule, n: nat, k: nat)
    requires Proper(c, n) && k < n && (c.exp[k].Limit? || c.gen[k].Limit?)
    ensures exists env :: Under(env, c, n) && SaneEnv(env, n)
                          && !NeverMuchWorse(RunTo(SmartPolicy, env, n), RunTo(DeferralPolicy, env, n))
  {
    var kw := if c.exp[k].Limit? then c.exp[k].kw else c.gen[k].kw;
    assert kw >= 0.0 by {
      assert NonNegative(c.exp[k]) && NonNegative(c.gen[k]);
    }
    var env := Flash(c, n, k, kw + 100.0);
    FlashFallsBehind(c, n, k, kw, n);
    assert Under(env, c, n) && SaneEnv(env, n);
  }

  /**
    Main result.  For any schedule of non-negative caps, smart is never much worse than deferral in any
    environment under it if and only if the schedule never caps export or generation.
   */
  lemma BoundHoldsExactly(c: Schedule, n: nat)
    requires Proper(c, n)
    ensures NeverCapsExport(c, n)
       <==> forall env :: Under(env, c, n) ==> NeverMuchWorse(RunTo(SmartPolicy, env, n), RunTo(DeferralPolicy, env, n))
  {
    if NeverCapsExport(c, n) {
      forall env | Under(env, c, n)
        ensures NeverMuchWorse(RunTo(SmartPolicy, env, n), RunTo(DeferralPolicy, env, n))
      {
        SmartNeverMuchWorse(env, n);
      }
    } else {
      var k :| 0 <= k < n && !(c.exp[k] == Unlimited && c.gen[k] == Unlimited);
      AnyExportCapCanBreakTheBound(c, n, k);
    }
  }

  // ---------------------------------------------------------------- an ordinary day on which it breaks

  /** One generation limit, from half past ten to half past twelve. */
  function Curtailment(limit: real): seq<ReplayCaps.Event> {
    [ReplayCaps.Event(0, ReplayCaps.GenEvent, limit, 10.5, 12.5)]
  }

  /** A day with a steady load of 0.5 kW, and 6.5 kW of sun from half past ten to noon. */
  function LateMorning(limit: real): Env {
    var ev := Curtailment(limit);
    Env(seq(TPD, i => if 42 <= i < 48 then 6.5 else 0.0), seq(TPD, _ => 0.5), seq(TPD, _ => false), seq(TPD, _ => 0.0),
        seq(TPD, (t: nat) => ReplayCaps.CapOf(ev, 1, ReplayCaps.ExportEvent, t)),
        seq(TPD, (t: nat) => ReplayCaps.CapOf(ev, 1, ReplayCaps.ImportEvent, t)),
        seq(TPD, (t: nat) => ReplayCaps.CapOf(ev, 1, ReplayCaps.GenEvent, t)))
  }

  lemma LateMorningTick(limit: real, t: nat)
    requires t < 48
    ensures var e := TickAt(LateMorning(limit), t);
            && e.load == 0.5 && !e.evHome && e.h == t as real * DT && e.expCap == e.impCap == Unlimited
            && e.pv == (if 42 <= t then 6.5 else 0.0) && e.genCap == if 42 <= t then Limit(limit) else Unlimited
  {
    var ev := Curtailment(limit);
    assert t % TPD == t && t / TPD == 0;
    OneEventCaps(ev, t);
  }

  /** The caps of a single event. */
  lemma OneEventCaps(ev: seq<ReplayCaps.Event>, t: nat)
    requires |ev| == 1
    ensures forall typ :: ReplayCaps.CapOf(ev, 1, typ, t) == if ev[0].typ == typ && ev[0].Covers(t) then Limit(ev[0].limit) else Unlimited
  {
    assert forall typ :: ReplayCaps.CapOf(ev, 0, typ, t) == Unlimited;
  }

  /** What a bright tick leaves in the battery, and what `j` of them do. */
  function PerTick(limit: real): real {
    (limit - 0.5) * DT * CHG_EFF
  }

  function Gained(limit: real, j: nat): real {
    if j == 0 then 0.0 else Gained(limit, j - 1) + PerTick(limit)
  }

  /** After `j` bright ticks: smart has charged what the limit let through beyond the load, deferral has sold it all. */
  predicate Curtailed(s: Books, d: Books, limit: real, j: nat) {
    && s.evDef == 0.0 && d.evDef == 0.0
    && s.soc == BAT_KWH * 0.5 + Gained(limit, j)
    && s.Net() - d.Net() == j as real * 0.105
  }

  lemma DarkTick(s: Books, d: Books, e: Tick, limit: real)
    requires Curtailed(s, d, limit, 0) && ImportCapOnly(e) && e.impCap == Unlimited
    requires e.pv == 0.0 && e.load == 0.5 && e.h < 16.0
    ensures Curtailed(Smart(s, e), Deferral(d, e), limit, 0)
  {
    assert Stored(SmartPlan(s, e)) == 0.0 && SmartPlan(s, e).net == 0.5;
    SmartMoves(s, e);
    DeferralMoves(d, e);
  }

  lemma {:induction false} GainedAtMost(limit: real, j: nat)
    requires limit <= 5.2
    ensures Gained(limit, j) <= j as real * 1.1
  {
    if j > 0 {
      GainedAtMost(limit, j - 1);
    }
  }

  lemma BrightTick(s: Books, d: Books, e: Tick, limit: real, j: nat)
    requires 2.8 <= limit <= 5.2 && j < 6 && Curtailed(s, d, limit, j)
    requires e.pv == 6.5 && e.load == 0.5 && e.expCap == Unlimited && e.impCap == Unlimited && e.genCap == Limit(limit)
    ensures Curtailed(Smart(s, e), Deferral(d, e), limit, j + 1)
  {
    GainedAtMost(limit, j);
    assert s.soc + PerTick(limit) <= BAT_KWH;
    hide SmartPlan, Stored, Smart, Deferral;
    ChargesTheRest(s, e, limit);
    SmartMoves(s, e);
    DeferralMoves(d, e);
    assert (j + 1) as real * 0.105 == j as real * 0.105 + 0.105;
  }

  /** With room for it, smart charges all the limit lets through beyond the load, and trades nothing. */
  lemma ChargesTheRest(s: Books, e: Tick, limit: real)
    requires 2.8 <= limit <= 5.2 && s.evDef == 0.0 && s.soc + PerTick(limit) <= BAT_KWH
    requires e.pv == 6.5 && e.load == 0.5 && e.expCap == Unlimited && e.impCap == Unlimited && e.genCap == Limit(limit)
    ensures var p := SmartPlan(s, e); p.net == 0.0 && Stored(p) == PerTick(limit) && p.ev == 0.0
  {
    assert Room(s.soc) >= limit - 0.5;
  }

  /** Where the two stand before tick `t` of the late morning. */
  predicate MorningGap(s: Books, d: Books, limit: real, t: nat) {
    Curtailed(s, d, limit, if t <= 42 then 0 else t - 42)
  }

  lemma MorningStep(s: Books, d: Books, limit: real, t: nat)
    requires 2.8 <= limit <= 5.2 && t < 48 && MorningGap(s, d, limit, t)
    ensures var e, arr := TickAt(LateMorning(limit), t), LateMorning(limit).evArrive[t];
            MorningGap(Smart(Arrive(s, arr), e), Deferral(Arrive(d, arr), e), limit, t + 1)
  {
    hide Smart, Deferral, Curtailed;
    LateMorningTick(limit, t);
    var e := TickAt(LateMorning(limit), t);
    if t < 42 {
      DarkTick(s, d, e, limit);
    } else {
      BrightTick(s, d, e, limit, t - 42);
    }
  }

  lemma {:induction false} LateMorningRun(limit: real, t: nat)
    requires 2.8 <= limit <= 5.2 && t <= 48
    ensures MorningGap(RunTo(SmartPolicy, LateMorning(limit), t), RunTo(DeferralPolicy, LateMorning(limit), t), limit, t)
  {
    hide Smart, Deferral, Arrive, TickAt;
    if t > 0 {
      hide MorningGap;
      LateMorningRun(limit, t - 1);
      MorningStep(RunTo(SmartPolicy, LateMorning(limit), t - 1), RunTo(DeferralPolicy, LateMorning(limit), t - 1), limit, t - 1);
    }
  }

  /**
    The failure on an ordinary day: under a generation limit of any size the environment generator draws,
    2.8 to 5.2 kW, turned into caps as the replay does it, the bound is broken by noon.
   */
  lemma CapsCanBreakTheBound(limit: real)
    requires 2.8 <= limit <= 5.2
    ensures LateMorning(limit).Covers(48) && SaneEnv(LateMorning(limit), 48)
    ensures !NeverMuchWorse(RunTo(SmartPolicy, LateMorning(limit), 48), RunTo(DeferralPolicy, LateMorning(limit), 48))
  {
    var env := LateMorning(limit);
    hide RunTo;
    LateMorningRun(limit, 48);
    CurtailedTooLong(RunTo(SmartPolicy, env, 48), RunTo(DeferralPolicy, env, 48), limit);
    hide Curtailed, NeverMuchWorse;
    forall t | 0 <= t < 48
      ensures NonNegative(env.expCap[t]) && NonNegative(env.impCap[t]) && NonNegative(env.genCap[t])
    {
      LateMorningTick(limit, t);
    }
  }

  lemma CurtailedTooLong(s: Books, d: Books, limit: real)
    requires Curtailed(s, d, limit, 6)
    ensures !NeverMuchWorse(s, d)
  {
  }
}
