/**
  What the smart policy can cost: an amortised bound against plain EV deferral over whole runs.  The
  potential is the energy in the battery, less the value of EV charging that import caps put off.
 */
module ReplayCost {
  import opened Replay

  /** What a quarter hour of grid power costs; negative when exporting. */
  function Bill(grid: real, h: real): real {
    if grid > 0.0 then grid * DT * RateAt(h) else grid * DT * EXPORT_CREDIT
  }

  /** Settling changes the net cost by the bill, and touches neither battery nor EV. */
  lemma SettleBills(st: Books, grid: real, e: Tick, pvOut: real)
    ensures var t := Settle(st, grid, e, pvOut);
            t.Net() == st.Net() + Bill(grid, e.h) && t.soc == st.soc && t.evDef == st.evDef && t.evKWh == st.evKWh
  {
  }

  predicate NonNegative(c: Cap) {
    c.Limit? ==> c.kw >= 0.0
  }

  /** Only the import may be capped. */
  predicate ImportCapOnly(e: Tick) {
    e.expCap == Unlimited && e.genCap == Unlimited && NonNegative(e.impCap)
  }

  predicate InRange(soc: real) {
    BAT_RES <= soc <= BAT_KWH
  }

  /** Energy a plan puts into the battery, or takes out. */
  function Stored(p: Plan): real {
    p.ch * DT * CHG_EFF - p.dis * DT
  }

  /** Moving power through the battery: never both ways, never out of its range. */
  lemma BalanceKeepsRange(st: Books, e: Tick)
    requires InRange(st.soc)
    ensures var p := Balance(st, e);
            p.ch >= 0.0 && p.dis >= 0.0 && (p.ch == 0.0 || p.dis == 0.0) && InRange(st.soc + Stored(p))
  {
  }

  /** What a kWh in the battery is worth, and what a deferred kWh for the EV costs when it is charged after all. */
  const STORED_VALUE: real := EXPORT_CREDIT / CHG_EFF
  const OFF_RATE: real := 0.10

  /** The first bill exceeds the second by no more than the worth of what was stored and of the extra EV draw. */
  predicate WorthIt(bill: real, plain: real, stored: real, extraEv: real) {
    bill - plain <= STORED_VALUE * stored + OFF_RATE * DT * extraEv
  }

  /** Buying a kWh later instead of selling it now costs at most what the battery keeps of it is worth. */
  lemma BalanceCost(st: Books, e: Tick)
    requires InRange(st.soc) && ImportCapOnly(e)
    ensures var p, n := Balance(st, e), e.load + EvDraw(st, e, IsOff(e.h)) - e.pv;
            WorthIt(Bill(p.net, e.h), Bill(n, e.h), Stored(p), 0.0)
  {
    var p := Balance(st, e);
    if p.dis > 0.0 {
      assert RateAt(e.h) == 0.38;
    }
  }

  /** The import stage lowers a positive import by what it sheds and what it discharges, and stops at the cap. */
  lemma ShedShape(p: Plan, st: Books, e: Tick)
    requires InRange(st.soc + Stored(p)) && NonNegative(e.impCap) && p == Balance(st, e)
    ensures var q := MeetImport(p, st, e);
            && 0.0 <= q.ev <= p.ev && p.dis <= q.dis && q.ch == p.ch
            && q.net == p.net - (p.ev - q.ev) - (q.dis - p.dis)
            && (q.net == p.net || 0.0 <= q.net)
            && InRange(st.soc + Stored(q))
  {
  }

  /** Lowering an import saves at least the off-peak rate, which is the lowest. */
  lemma ImportSaves(a: real, b: real, h: real)
    requires a >= b >= 0.0
    ensures Bill(b, h) - Bill(a, h) <= -OFF_RATE * DT * (a - b)
  {
  }

  /** Meeting an import cap: EV charging is put off at the off-peak rate, and the battery replaces dearer power. */
  lemma ShedCost(p: Plan, st: Books, e: Tick)
    requires InRange(st.soc + Stored(p)) && NonNegative(e.impCap) && p == Balance(st, e)
    ensures var q := MeetImport(p, st, e);
            && WorthIt(Bill(q.net, e.h), Bill(p.net, e.h), Stored(q) - Stored(p), q.ev - p.ev)
            && InRange(st.soc + Stored(q)) && 0.0 <= q.ev <= p.ev
  {
    var q := MeetImport(p, st, e);
    ShedShape(p, st, e);
    hide Balance, MeetImport, Bill, Stored, WorthIt;
    if q.net != p.net {
      ImportSaves(p.net, q.net, e.h);
    }
    LessForLess(p, q, Bill(p.net, e.h), Bill(q.net, e.h));
  }

  lemma LessForLess(p: Plan, q: Plan, before: real, after: real)
    requires after - before <= -OFF_RATE * DT * (p.net - q.net)
    requires q.ch == p.ch && q.dis >= p.dis && q.net == p.net - (p.ev - q.ev) - (q.dis - p.dis)
    ensures WorthIt(after, before, Stored(q) - Stored(p), q.ev - p.ev)
  {
  }

  /** Where smart still owes the EV more it may draw more, at the off-peak rate at most. */
  lemma EvGapCost(s: Books, d: Books, e: Tick)
    requires s.evDef >= d.evDef >= 0.0
    ensures var mine, plain := EvDraw(s, e, IsOff(e.h)), EvDraw(d, e, IsOff(e.h));
            WorthIt(Bill(e.load + mine - e.pv, e.h), Bill(e.load + plain - e.pv, e.h), 0.0, mine - plain)
  {
    assert EvDraw(s, e, IsOff(e.h)) > 0.0 ==> RateAt(e.h) == OFF_RATE;
  }

  /** Charging no more than it wants leaves smart owing the EV at least what deferral owes it. */
  lemma DeficitStays(s: Books, d: Books, e: Tick, draw: real)
    requires s.evDef >= d.evDef >= 0.0 && 0.0 <= draw <= EvDraw(s, e, IsOff(e.h))
    ensures s.evDef - draw * DT >= d.evDef - EvDraw(d, e, IsOff(e.h)) * DT >= 0.0
  {
  }

  /** A tick moved the books by a bill, by energy stored, and by an EV draw. */
  predicate Moved(st: Books, t: Books, bill: real, stored: real, draw: real) {
    && t.Net() == st.Net() + bill && t.soc == st.soc + stored
    && t.evDef == st.evDef - draw * DT && t.evKWh == st.evKWh + draw * DT
  }

  lemma SettleMoves(st: Books, stored: real, lost: real, draw: real, grid: real, e: Tick, pvOut: real)
    ensures var st1 := st.(curt := st.curt + lost, soc := st.soc + stored);
            Moved(st, Settle(Charge(st1, draw), grid, e, pvOut), Bill(grid, e.h), stored, draw)
    ensures Moved(st, Settle(Charge(st, draw), grid, e, pvOut), Bill(grid, e.h), 0.0, draw)
  {
    var st1 := st.(curt := st.curt + lost, soc := st.soc + stored);
    SettleBills(Charge(st1, draw), grid, e, pvOut);
    SettleBills(Charge(st, draw), grid, e, pvOut);
  }

  lemma SmartMoves(st: Books, e: Tick)
    ensures var p := SmartPlan(st, e); Moved(st, Smart(st, e), Bill(p.net, e.h), Stored(p), p.ev)
  {
    EnactMoves(st, SmartPlan(st, e), e);
  }

  lemma EnactMoves(st: Books, p: Plan, e: Tick)
    ensures Moved(st, Enact(st, p, e), Bill(p.net, e.h), Stored(p), p.ev)
  {
    SettleMoves(st, Stored(p), p.lost, p.ev, p.net, e, p.pvOut);
  }

  lemma DeferralMoves(st: Books, e: Tick)
    ensures var ev := EvDraw(st, e, IsOff(e.h)); Moved(st, Deferral(st, e), Bill(e.load + ev - e.pv, e.h), 0.0, ev)
  {
    var ev := EvDraw(st, e, IsOff(e.h));
    SettleMoves(st, 0.0, 0.0, ev, e.load + ev - e.pv, e, e.pv);
  }

  /**
    Smart's books against deferral's: smart owes the EV at least as much, its battery is in range, and it
    is ahead or behind by no more than its battery and the charging it has put off account for.
   */
  predicate Coupled(s: Books, d: Books) {
    && s.evDef >= d.evDef >= 0.0 && InRange(s.soc)
    && s.Net() - d.Net() <= STORED_VALUE * (s.soc - BAT_KWH * 0.5) - OFF_RATE * (s.evDef - d.evDef)
  }

  /** Books that move by a bill each, with the bills' difference bounded by what it was for, stay coupled. */
  lemma BillsKeepCoupled(s: Books, d: Books, s': Books, d': Books,
                         billS: real, billD: real, stored: real, drawS: real, drawD: real)
    requires Coupled(s, d)
    requires Moved(s, s', billS, stored, drawS) && Moved(d, d', billD, 0.0, drawD)
    requires InRange(s.soc + stored) && WorthIt(billS, billD, stored, drawS - drawD)
    requires s.evDef - drawS * DT >= d.evDef - drawD * DT >= 0.0
    ensures Coupled(s', d')
  {
  }

  /** One tick, with at most its import capped, keeps the books coupled. */
  lemma TickKeepsCoupled(s: Books, d: Books, e: Tick)
    requires ImportCapOnly(e) && Coupled(s, d)
    ensures Coupled(Smart(s, e), Deferral(d, e))
  {
    hide Balance, MeetImport, SmartPlan, Smart, Deferral, Bill, EvDraw, Stored;
    var p := Balance(s, e);
    var q := MeetImport(p, s, e);
    ImportCapOnlyPlan(s, e);
    BalanceKeepsRange(s, e);
    BalanceCost(s, e);
    ShedCost(p, s, e);
    EvGapCost(s, d, e);
    DeficitStays(s, d, e, q.ev);
    SmartMoves(s, e);
    DeferralMoves(d, e);
    var drawD := EvDraw(d, e, IsOff(e.h));
    BillsKeepCoupled(s, d, Smart(s, e), Deferral(d, e), Bill(q.net, e.h), Bill(e.load + drawD - e.pv, e.h), Stored(q), q.ev, drawD);
  }

  /** Without an export or generation cap only the balance and the import stage act, from what the EV wants. */
  lemma ImportCapOnlyPlan(s: Books, e: Tick)
    requires ImportCapOnly(e)
    ensures SmartPlan(s, e) == MeetImport(Balance(s, e), s, e) && Balance(s, e).ev == EvDraw(s, e, IsOff(e.h))
  {
  }

  lemma ArrivalKeepsCoupled(s: Books, d: Books, arr: real)
    requires Coupled(s, d)
    ensures Coupled(Arrive(s, arr), Arrive(d, arr))
  {
  }

  ghost predicate ImportCapsOnly(env: Env, t: nat)
    requires env.Covers(t)
  {
    forall k :: 0 <= k < t ==> env.expCap[k] == Unlimited && env.genCap[k] == Unlimited && NonNegative(env.impCap[k])
  }

  lemma {:induction false} CoupledRun(env: Env, t: nat)
    requires env.Covers(t) && ImportCapsOnly(env, t)
    ensures Coupled(RunTo(SmartPolicy, env, t), RunTo(DeferralPolicy, env, t))
  {
    if t > 0 {
      CoupledRun(env, t - 1);
      var s, d, arr := RunTo(SmartPolicy, env, t - 1), RunTo(DeferralPolicy, env, t - 1), env.evArrive[t - 1];
      ArrivalKeepsCoupled(s, d, arr);
      TickKeepsCoupled(Arrive(s, arr), Arrive(d, arr), TickAt(env, t - 1));
    }
  }

  /** Smart costs at most half a battery's worth more, and nothing more when the battery is no fuller than at the start. */
  predicate NeverMuchWorse(s: Books, d: Books) {
    && s.Net() - d.Net() <= STORED_VALUE * (BAT_KWH * 0.5) < 0.52
    && (s.soc <= BAT_KWH * 0.5 ==> s.Net() <= d.Net())
  }

  lemma CoupledMeans(s: Books, d: Books)
    requires Coupled(s, d)
    ensures NeverMuchWorse(s, d)
  {
  }

  /**
    Main result.  On any run of any length whose only caps are import caps, from any solar, load and
    arrivals, the smart policy costs at most the value of the energy it has put into the battery more than
    plain deferral, and every kWh it has put off charging is already paid for.
   */
  lemma SmartNeverMuchWorse(env: Env, t: nat)
    requires env.Covers(t) && ImportCapsOnly(env, t)
    ensures Coupled(RunTo(SmartPolicy, env, t), RunTo(DeferralPolicy, env, t))
    ensures NeverMuchWorse(RunTo(SmartPolicy, env, t), RunTo(DeferralPolicy, env, t))
  {
    CoupledRun(env, t);
    CoupledMeans(RunTo(SmartPolicy, env, t), RunTo(DeferralPolicy, env, t));
  }

  // ---------------------------------------------------------------- nothing is lost

  /** kWh asked of the charger by the arrivals before tick `t`. */
  function Arrived(env: Env, t: nat): real
    requires env.Covers(t)
  {
    if t == 0 then 0.0
    else Arrived(env, t - 1) + if env.evArrive[t - 1] > 0.0 then env.evArrive[t - 1] / EV_CHG_EFF else 0.0
  }

  /** Charging moves energy from owed to charged, whatever the policy. */
  predicate EvKept(st: Books, t: Books) {
    t.evKWh + t.evDef == st.evKWh + st.evDef
  }

  lemma StepKeepsEv(p: Policy, st: Books, e: Tick)
    ensures EvKept(st, StepOf(p)(st, e))
  {
    var now, later := EvDraw(st, e, true), EvDraw(st, e, IsOff(e.h));
    match p
    case DumbPolicy => SettleMoves(st, 0.0, 0.0, now, e.load + now - e.pv, e, e.pv);
    case LoadOnlyPolicy => SettleMoves(st, 0.0, 0.0, now, e.load + now, e, 0.0);
    case DeferralPolicy => DeferralMoves(st, e);
    case SmartPolicy => SmartMoves(st, e);
  }

  /** Over any run of any policy, under any caps: what was charged and what is still owed is exactly what arrived. */
  lemma {:induction false} EvEnergyConserved(p: Policy, env: Env, t: nat)
    requires env.Covers(t)
    ensures RunTo(p, env, t).evKWh + RunTo(p, env, t).evDef == Arrived(env, t)
  {
    if t > 0 {
      EvEnergyConserved(p, env, t - 1);
      StepKeepsEv(p, Arrive(RunTo(p, env, t - 1), env.evArrive[t - 1]), TickAt(env, t - 1));
    }
  }
}
