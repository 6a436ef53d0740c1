/**
  The dispatch policies by what they must do to the plant and to the books, in kilowatts, kilowatt-hours and
  prices: conservation of energy and money, and the smart dispatch as the only one that keeps its rules.
 */
module ReplayLaws {
  import opened Replay
  import opened ReplayCost
  import opened ReplaySafety

  // ---------------------------------------------------------------- energy and money

  /** A quarter hour in which `kwh` flowed from the grid (or into it), at the tariff of the hour and 0.07 for exports. */
  predicate Traded(st: Books, t: Books, kwh: real, h: real) {
    var bought, sold := t.imp - st.imp, t.exp - st.exp;
    && bought >= 0.0 && sold >= 0.0 && (bought == 0.0 || sold == 0.0) && bought - sold == kwh
    && (16.0 <= h < 21.0 ==> t.cost - st.cost == 0.38 * bought)
    && (7.0 <= h < 16.0 ==> t.cost - st.cost == 0.18 * bought)
    && (h < 7.0 || h >= 21.0 ==> t.cost - st.cost == 0.10 * bought)
    && t.credit - st.credit == 0.07 * sold
  }

  /** A capped tick is counted, and counted as violated when 50 W past a cap on export, import or generation. */
  predicate Counted(st: Books, t: Books, e: Tick, grid: real, pvOut: real) {
    var past := || (e.expCap.Limit? && -grid - e.expCap.kw > 0.05)
                || (e.impCap.Limit? && grid - e.impCap.kw > 0.05)
                || (e.genCap.Limit? && pvOut - e.genCap.kw > 0.05);
    && t.cons == st.cons + (if e.expCap != Unlimited || e.impCap != Unlimited || e.genCap != Unlimited then 1 else 0)
    && t.vio == st.vio + (if past then 1 else 0)
  }

  /** The EV took `kwh` of what it was owed. */
  predicate Took(st: Books, t: Books, kwh: real) {
    t.evKWh == st.evKWh + kwh && t.evDef == st.evDef - kwh
  }

  /** What a plugged-in EV takes in a quarter hour: what it is owed, at 7.2 kW at most. */
  function FullCharge(st: Books, e: Tick): real {
    if e.evHome && st.evDef > 0.0 then (if st.evDef < 1.8 then st.evDef else 1.8) else 0.0
  }

  lemma SettleTrades(st: Books, grid: real, e: Tick, pvOut: real)
    ensures var t := Settle(st, grid, e, pvOut);
            && Traded(st, t, grid * 0.25, e.h) && Counted(st, t, e, grid, pvOut)
            && t.soc == st.soc && t.curt == st.curt && t.evDef == st.evDef && t.evKWh == st.evKWh
  {
  }

  /** Without management the EV charges at any hour, and the grid meets load and EV less all the sun. */
  lemma DumbLedger(st: Books, e: Tick)
    ensures var t, ev := Dumb(st, e), FullCharge(st, e);
            && Took(st, t, ev) && Traded(st, t, (e.load - e.pv) * 0.25 + ev, e.h)
            && Counted(st, t, e, e.load - e.pv + ev * 4.0, e.pv) && t.soc == st.soc && t.curt == st.curt
  {
    SettleTrades(Charge(st, EvDraw(st, e, true)), e.load + EvDraw(st, e, true) - e.pv, e, e.pv);
    hide Settle;
  }

  /** The same without any sun. */
  lemma LoadOnlyLedger(st: Books, e: Tick)
    ensures var t, ev := LoadOnly(st, e), FullCharge(st, e);
            && Took(st, t, ev) && Traded(st, t, e.load * 0.25 + ev, e.h)
            && Counted(st, t, e, e.load + ev * 4.0, 0.0) && t.soc == st.soc && t.curt == st.curt
  {
    SettleTrades(Charge(st, EvDraw(st, e, true)), e.load + EvDraw(st, e, true), e, 0.0);
    hide Settle;
  }

  /** Deferral charges the EV before seven and from nine in the evening, and at no other hour. */
  lemma DeferralLedger(st: Books, e: Tick)
    ensures var t, ev := Deferral(st, e), if e.h < 7.0 || e.h >= 21.0 then FullCharge(st, e) else 0.0;
            && Took(st, t, ev) && Traded(st, t, (e.load - e.pv) * 0.25 + ev, e.h)
            && Counted(st, t, e, e.load - e.pv + ev * 4.0, e.pv) && t.soc == st.soc && t.curt == st.curt
  {
    var draw := EvDraw(st, e, IsOff(e.h));
    SettleTrades(Charge(st, draw), e.load + draw - e.pv, e, e.pv);
    hide Settle;
  }

  /** Smart books its dispatch: 92% of what it charges reaches the battery, and sun given up is written down. */
  lemma SmartLedger(st: Books, e: Tick)
    ensures var p, t := SmartPlan(st, e), Smart(st, e);
            && Took(st, t, p.ev * 0.25) && Traded(st, t, p.net * 0.25, e.h) && Counted(st, t, e, p.net, p.pvOut)
            && t.soc == st.soc + p.ch * 0.25 * 0.92 - p.dis * 0.25 && t.curt == st.curt + p.lost
  {
    var p := SmartPlan(st, e);
    var st1 := st.(curt := st.curt + p.lost, soc := st.soc + (p.ch * DT * CHG_EFF - p.dis * DT));
    SettleTrades(Charge(st1, p.ev), p.net, e, p.pvOut);
    hide Settle, SmartPlan;
  }

  // ---------------------------------------------------------------- the rules of the smart dispatch

  /** What the plant offers on a tick: usable sun, what the EV wants off-peak, what the battery can give and take. */
  datatype Offer = Offer(sun: real, want: real, give: real, take: real)

  function OfferOf(st: Books, e: Tick): Offer {
    Offer(if e.genCap.Limit? && e.genCap.kw < e.pv then e.genCap.kw else e.pv,
          if e.h < 7.0 || e.h >= 21.0 then FullCharge(st, e) * 4.0 else 0.0,
          if st.soc < 1.35 then 0.0 else if st.soc - 1.35 < 1.25 then (st.soc - 1.35) * 4.0 else 5.0,
          if 13.5 - st.soc < 1.15 then (13.5 - st.soc) / 0.23 else 5.0)
  }

  /**
    The rules.  The plant can do it.  A surplus goes to the battery before it is sold, and is given up only to
    stay at the export cap with the battery taking all it can.  The battery never charges from the grid; it
    meets a deficit at peak as far as it goes, and otherwise only what an import cap leaves once the EV is off.
    The EV waits only as far as the import cap demands.
   */
  predicate KeepsRules(p: Plan, st: Books, e: Tick) {
    var o := OfferOf(st, e);
    var peak := 16.0 <= e.h < 21.0;
    && 0.0 <= p.pvOut <= o.sun && 0.0 <= p.ev <= o.want && 0.0 <= p.ch <= o.take && 0.0 <= p.dis <= o.give
    && (p.ch == 0.0 || p.dis == 0.0)
    && p.net == e.load + p.ev - p.pvOut + p.ch - p.dis && p.lost == (e.pv - p.pvOut) * 0.25
    && (p.net < 0.0 ==> p.ch == o.take)
    && (p.ch > 0.0 ==> p.net <= 0.0)
    && (p.pvOut < o.sun ==> e.expCap == Limit(-p.net) && p.ch == o.take)
    && (e.expCap.Limit? ==> -p.net <= e.expCap.kw)
    && (peak && p.net > 0.0 ==> p.dis == o.give)
    && (p.dis > 0.0 ==> p.net >= 0.0 && p.pvOut == o.sun && (peak || (e.impCap.Limit? && p.net >= e.impCap.kw && p.ev == 0.0)))
    && (p.ev < o.want ==> p.pvOut == o.sun && p.ch == 0.0 && e.impCap.Limit? && p.net >= e.impCap.kw)
    && (e.impCap.Limit? && p.net > e.impCap.kw ==> p.ev == 0.0 && p.dis == o.give)
  }

  /** The rules leave no choice. */
  lemma RulesLeaveNoChoice(p: Plan, q: Plan, st: Books, e: Tick)
    requires Sane(st, e) && KeepsRules(p, st, e) && KeepsRules(q, st, e)
    ensures p == q
  {
    var o := OfferOf(st, e);
    assert o.sun >= 0.0 && o.want >= 0.0 && o.give >= 0.0 && o.take >= 0.0;
    hide OfferOf;
  }

  lemma OfferIsThePlants(st: Books, e: Tick)
    requires Sane(st, e)
    ensures OfferOf(st, e) == Offer(e.genCap.Clip(e.pv), EvDraw(st, e, IsOff(e.h)), Reserve(st), Intake(st))
  {
  }

  lemma BalanceRules(st: Books, e: Tick)
    requires Sane(st, e)
    ensures var p := Balance(st, e);
            && p.pvOut == e.genCap.Clip(e.pv) && p.ev == EvDraw(st, e, IsOff(e.h))
            && (p.net > 0.0 && IsPeak(e.h) ==> p.dis == Reserve(st)) && (p.dis > 0.0 ==> p.net >= 0.0 && IsPeak(e.h))
            && (p.net < 0.0 ==> p.ch == Intake(st)) && (IsPeak(e.h) ==> p.ev == 0.0)
  {
  }

  /** The import stage keeps the rules it meets with, and leaves everything else alone. */
  lemma ImportRules(p: Plan, st: Books, e: Tick)
    requires Sane(st, e) && Feasible(p, st, e) && (p.ch > 0.0 ==> p.net <= 0.0)
    requires (p.net > 0.0 && IsPeak(e.h) ==> p.dis == Reserve(st)) && (p.dis > 0.0 ==> p.net >= 0.0 && IsPeak(e.h))
    requires IsPeak(e.h) ==> p.ev == 0.0
    ensures var q := MeetImport(p, st, e);
            && (q.net > 0.0 && IsPeak(e.h) ==> q.dis == Reserve(st))
            && (q.dis > 0.0 ==> q.net >= 0.0 && (IsPeak(e.h) || (e.impCap.Limit? && q.net >= e.impCap.kw && q.ev == 0.0)))
            && (q.ev < p.ev ==> e.impCap.Limit? && q.net >= e.impCap.kw && p.net > 0.0)
            && (q.net < 0.0 ==> q == p) && (q.dis > p.dis ==> p.net > 0.0)
  {
  }

  lemma SmartKeepsRules(st: Books, e: Tick)
    requires Sane(st, e)
    ensures KeepsRules(SmartPlan(st, e), st, e)
  {
    var b := Balance(st, e);
    var x := MeetExport(b, st, e);
    BalanceRules(st, e);
    BalanceFeasible(st, e);
    ExportStageOnlyCurtails(st, e);
    ExportFeasible(st, e);
    ImportRules(x, st, e);
    ImportFeasible(x, st, e);
    OfferIsThePlants(st, e);
    hide Balance, MeetExport, MeetImport, OfferOf, EvDraw, Reserve, Intake;
  }

  /** Main result.  A dispatch is the smart one if and only if it keeps the rules. */
  lemma SmartIsTheOnlyDispatch(p: Plan, st: Books, e: Tick)
    requires Sane(st, e)
    ensures KeepsRules(p, st, e) <==> p == SmartPlan(st, e)
  {
    hide KeepsRules, SmartPlan;
    SmartKeepsRules(st, e);
    if KeepsRules(p, st, e) {
      RulesLeaveNoChoice(p, SmartPlan(st, e), st, e);
    }
  }

  // ---------------------------------------------------------------- the run

  /** An EV that arrives is owed its trip, grossed up for charging losses, and starts charging on the same tick. */
  lemma ArrivalChargesAtOnce(env: Env, t: nat)
    requires env.Covers(t + 1) && env.evHome[t] && env.evArrive[t] > 0.0
    ensures var before, after := RunTo(DumbPolicy, env, t), RunTo(DumbPolicy, env, t + 1);
            var owed := before.evDef + env.evArrive[t] / 0.9;
            before.evDef >= 0.0 ==> after.evKWh - before.evKWh == if owed < 1.8 then owed else 1.8
  {
    var before := RunTo(DumbPolicy, env, t);
    DumbLedger(Arrive(before, env.evArrive[t]), TickAt(env, t));
    hide Dumb;
  }

  /** `n` is nearest to `x`, and even if it is one of two. */
  predicate Nearest(x: real, n: int) {
    -0.5 <= x - n as real <= 0.5 && (x - n as real == 0.5 || x - n as real == -0.5 ==> n % 2 == 0)
  }

  lemma NearestIsOne(x: real, m: int, n: int)
    requires Nearest(x, m) && Nearest(x, n)
    ensures m == n
  {
    var d := m - n;
    assert -1.0 <= d as real <= 1.0;
  }

  /** Cents are rounded to the nearest, a tie to the even one. */
  lemma CentsAreNearest(v: real, n: int)
    ensures RoundCents(v) == n as real / 100.0 <==> Nearest(v * 100.0, n)
  {
    var x := v * 100.0;
    var m := x.Floor;
    var rest := x - m as real;
    var k := if rest > 0.5 || (rest == 0.5 && m % 2 != 0) then m + 1 else m;
    assert m as real <= x < m as real + 1.0;
    assert Nearest(x, k);
    assert RoundCents(v) == k as real / 100.0;
    assert k as real / 100.0 == n as real / 100.0 <==> k == n;
    if Nearest(x, n) {
      NearestIsOne(x, k, n);
    }
  }
}
