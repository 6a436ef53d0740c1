/**
  What the smart policy does with its levers: the plant stays in its ranges, and a cap is broken exactly
  when no dispatch of the plant could have met it.
 */
module ReplaySafety {
  import opened Replay
  import opened ReplayCost

  /** Powers and caps are not negative, the battery is in range, nothing was overcharged. */
  predicate Sane(st: Books, e: Tick) {
    && e.pv >= 0.0 && e.load >= 0.0 && st.evDef >= 0.0 && InRange(st.soc)
    && NonNegative(e.expCap) && NonNegative(e.impCap) && NonNegative(e.genCap)
  }

  /** What the battery can give on this tick. */
  function Reserve(st: Books): real {
    Min(BAT_KW, Avail(st.soc))
  }

  /** What it can take. */
  function Intake(st: Books): real {
    Min(BAT_KW, Room(st.soc))
  }

  /** A dispatch the plant can carry out, whatever the caps on grid power say. */
  predicate Feasible(p: Plan, st: Books, e: Tick) {
    && 0.0 <= p.pvOut <= e.genCap.Clip(e.pv)
    && 0.0 <= p.ev <= EvDraw(st, e, IsOff(e.h))
    && 0.0 <= p.ch <= Intake(st)
    && 0.0 <= p.dis <= Reserve(st)
    && (p.ch == 0.0 || p.dis == 0.0)
    && p.net == e.load + p.ev - p.pvOut + p.ch - p.dis
  }

  /** Solar given up is accounted for. */
  predicate Accounted(p: Plan, e: Tick) {
    p.lost == (e.pv - p.pvOut) * DT
  }

  lemma BalanceFeasible(st: Books, e: Tick)
    requires Sane(st, e)
    ensures var p := Balance(st, e);
            && Feasible(p, st, e) && Accounted(p, e)
            && (p.net < 0.0 ==> p.dis == 0.0 && p.ch == Intake(st))
            && (p.ch > 0.0 ==> p.net <= 0.0)
  {
  }

  /** The extra-charging lever of the export stage never engages: the balance stage has already charged all it can. */
  lemma ExportStageOnlyCurtails(st: Books, e: Tick)
    requires Sane(st, e)
    ensures var p := Balance(st, e);
            var cut := e.expCap.Excess(-p.net);
            && MeetExport(p, st, e) == p.(pvOut := p.pvOut - cut, lost := p.lost + cut * DT, net := p.net + cut)
            && 0.0 <= cut <= p.pvOut && (cut > 0.0 ==> p.ch == Intake(st))
  {
    BalanceFeasible(st, e);
  }

  lemma ExportFeasible(st: Books, e: Tick)
    requires Sane(st, e)
    ensures var p := MeetExport(Balance(st, e), st, e);
            && Feasible(p, st, e) && Accounted(p, e)
            && !e.expCap.Below(-p.net, 0.0)
            && (p.ch > 0.0 ==> p.net <= 0.0)
            && (p.net > 0.0 ==> p.pvOut == e.genCap.Clip(e.pv))
  {
    BalanceFeasible(st, e);
    ExportStageOnlyCurtails(st, e);
  }

  /** Starting from a feasible plan, the import stage sheds the EV before it touches the battery, and stops at the cap. */
  lemma ImportFeasible(p: Plan, st: Books, e: Tick)
    requires Sane(st, e) && Feasible(p, st, e) && (p.ch > 0.0 ==> p.net <= 0.0)
    ensures var q := MeetImport(p, st, e);
            && Feasible(q, st, e) && q.pvOut == p.pvOut && q.lost == p.lost && q.ch == p.ch
            && (q.net != p.net ==> e.impCap.Limit? && e.impCap.kw <= q.net < p.net)
            && (q.dis > p.dis ==> q.ev == 0.0)
            && (e.impCap.Below(q.net, 0.0) ==> q.ev == 0.0 && q.dis == Reserve(st) && p.net > 0.0 && q.ch == 0.0)
  {
  }

  /**
    Main result.  Whatever the caps, the smart dispatch is feasible, keeps the battery in range, respects
    the export and generation caps, accounts for every kWh of solar, and exceeds an import cap only with
    the EV off, the battery at its limit and all permitted solar in use.
   */
  lemma SmartIsSafe(st: Books, e: Tick)
    requires Sane(st, e)
    ensures var p := SmartPlan(st, e);
            && Feasible(p, st, e) && Accounted(p, e)
            && !e.expCap.Below(-p.net, 0.0) && !e.genCap.Below(p.pvOut, 0.0)
            && (e.impCap.Below(p.net, 0.0) ==>
                  p.ev == 0.0 && p.ch == 0.0 && p.dis == Reserve(st) && p.pvOut == e.genCap.Clip(e.pv))
  {
    ExportFeasible(st, e);
    ImportFeasible(MeetExport(Balance(st, e), st, e), st, e);
  }

  lemma FeasibleKeepsRange(p: Plan, st: Books, e: Tick)
    requires Sane(st, e) && Feasible(p, st, e)
    ensures InRange(st.soc + Stored(p)) && st.evDef - p.ev * DT >= 0.0
  {
  }

  /** No dispatch of the plant draws less from the grid than one with every lever pulled. */
  lemma LeversBoundTheGrid(p: Plan, q: Plan, st: Books, e: Tick)
    requires Feasible(p, st, e) && Feasible(q, st, e)
    requires p.ev == 0.0 && p.ch == 0.0 && p.dis == Reserve(st) && p.pvOut == e.genCap.Clip(e.pv)
    ensures q.net >= p.net
  {
  }

  /** The dispatch keeps all three caps, within the tolerance violations are counted with. */
  predicate Complies(p: Plan, e: Tick) {
    !e.Violated(p.net, p.pvOut)
  }

  /**
    Main result.  A cap is broken by the smart dispatch exactly when no feasible dispatch complies.
   */
  lemma BreaksCapOnlyIfUnavoidable(st: Books, e: Tick)
    requires Sane(st, e)
    ensures Complies(SmartPlan(st, e), e) <==> exists q :: Feasible(q, st, e) && Complies(q, e)
  {
    var p := SmartPlan(st, e);
    SmartIsSafe(st, e);
    if !Complies(p, e) {
      forall q | Feasible(q, st, e)
        ensures !Complies(q, e)
      {
        LeversBoundTheGrid(p, q, st, e);
      }
    }
  }

  /** A violation is booked exactly when the tick was capped and could not be complied with. */
  lemma ViolationsAreUnavoidable(st: Books, e: Tick)
    requires Sane(st, e)
    ensures Smart(st, e).vio == st.vio + (if Complies(SmartPlan(st, e), e) then 0 else 1)
    ensures Smart(st, e).cons == st.cons + if e.Capped() then 1 else 0
  {
  }

  // ---------------------------------------------------------------- over whole runs

  /** Nothing in the environment is negative. */
  ghost predicate SaneEnv(env: Env, t: nat)
    requires env.Covers(t)
  {
    forall k :: 0 <= k < t ==>
      && env.pv[k] >= 0.0 && env.load[k] >= 0.0
      && NonNegative(env.expCap[k]) && NonNegative(env.impCap[k]) && NonNegative(env.genCap[k])
  }

  predicate Healthy(st: Books) {
    InRange(st.soc) && st.evDef >= 0.0
  }

  lemma SmartKeepsHealthy(st: Books, e: Tick)
    requires Sane(st, e)
    ensures Healthy(Smart(st, e))
  {
    var p := SmartPlan(st, e);
    SmartIsSafe(st, e);
    FeasibleKeepsRange(p, st, e);
    SmartMoves(st, e);
  }

  lemma ArrivalKeepsHealthy(st: Books, arr: real)
    requires Healthy(st)
    ensures Healthy(Arrive(st, arr))
  {
  }

  /** So on every tick of every run, with any caps and arrivals, the smart policy stands where its guarantees apply. */
  lemma {:induction false} SmartRunIsHealthy(env: Env, t: nat)
    requires env.Covers(t) && SaneEnv(env, t)
    ensures Healthy(RunTo(SmartPolicy, env, t))
  {
    if t > 0 {
      SmartRunIsHealthy(env, t - 1);
      var st, arr := RunTo(SmartPolicy, env, t - 1), env.evArrive[t - 1];
      ArrivalKeepsHealthy(st, arr);
      SmartKeepsHealthy(Arrive(st, arr), TickAt(env, t - 1));
    }
  }

  /** No feasible dispatch complies with the caps. */
  ghost predicate Hopeless(st: Books, e: Tick) {
    forall q :: Feasible(q, st, e) ==> !Complies(q, e)
  }

  /** How many of the first `t` ticks of the smart run were hopeless when they came. */
  ghost function HopelessTicks(env: Env, t: nat): nat
    requires env.Covers(t)
  {
    if t == 0 then 0
    else HopelessTicks(env, t - 1)
         + if Hopeless(Arrive(RunTo(SmartPolicy, env, t - 1), env.evArrive[t - 1]), TickAt(env, t - 1)) then 1 else 0
  }

  predicate BookedViolations(st: Books, n: nat) {
    st.vio == n
  }

  /** One tick, arrivals included, books a violation exactly when it is hopeless. */
  lemma TickBooksHopeless(st: Books, arr: real, e: Tick, n: nat)
    requires BookedViolations(st, n) && Sane(Arrive(st, arr), e)
    ensures BookedViolations(Smart(Arrive(st, arr), e), n + if Hopeless(Arrive(st, arr), e) then 1 else 0)
  {
    BreaksCapOnlyIfUnavoidable(Arrive(st, arr), e);
    ViolationsAreUnavoidable(Arrive(st, arr), e);
  }

  /** Main result.  Over any run the violations booked against the smart policy are exactly the hopeless ticks. */
  lemma {:induction false} RunBooksHopelessTicks(env: Env, t: nat)
    requires env.Covers(t) && SaneEnv(env, t)
    ensures BookedViolations(RunTo(SmartPolicy, env, t), HopelessTicks(env, t))
  {
    if t > 0 {
      RunBooksHopelessTicks(env, t - 1);
      SmartRunIsHealthy(env, t - 1);
      var st, arr := RunTo(SmartPolicy, env, t - 1), env.evArrive[t - 1];
      ArrivalKeepsHealthy(st, arr);
      TickBooksHopeless(st, arr, TickAt(env, t - 1), HopelessTicks(env, t - 1));
    }
  }
}
