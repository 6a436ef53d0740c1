/**
  The replay energy model (scripts/replay-compare.py): four dispatch policies run over the same days of
  solar, load, EV arrivals, tariff and caps.  Floats are exact reals.
 */
module Replay {
  const DT: real := 0.25
  const TPD := 96
  const BAT_KWH: real := 13.5
  const BAT_KW: real := 5.0
  const BAT_RES: real := 1.35
  const CHG_EFF: real := 0.92
  const EV_KW: real := 7.2
  const EV_CHG_EFF: real := 0.90
  const EXPORT_CREDIT: real := 0.07
  const TOL: real := 0.05

  function RateAt(h: real): real {
    if 16.0 <= h < 21.0 then 0.38 else if 7.0 <= h < 16.0 then 0.18 else 0.10
  }

  predicate IsPeak(h: real) {
    16.0 <= h < 21.0
  }

  predicate IsOff(h: real) {
    h < 7.0 || h >= 21.0
  }

  function Min(a: real, b: real): real {
    if b < a then b else a
  }

  function Max(a: real, b: real): real {
    if b > a then b else a
  }

  /** A power limit; without one it is infinite. */
  datatype Cap = Unlimited | Limit(kw: real)
  {
    predicate Below(x: real, slack: real) {
      Limit? && x > kw + slack
    }

    function Clip(x: real): real {
      if Limit? then Min(x, kw) else x
    }

    /** By how much `x` exceeds the limit, or nothing. */
    function Excess(x: real): real {
      if Below(x, 0.0) then x - kw else 0.0
    }
  }

  /** The environment of one quarter hour. */
  datatype Tick = Tick(pv: real, load: real, evHome: bool, h: real, expCap: Cap, impCap: Cap, genCap: Cap)
  {
    predicate Capped() {
      expCap.Limit? || impCap.Limit? || genCap.Limit?
    }

    predicate Violated(grid: real, pvOut: real) {
      expCap.Below(-grid, TOL) || impCap.Below(grid, TOL) || genCap.Below(pvOut, TOL)
    }
  }

  /** The books of one policy. */
  datatype Books = Books(soc: real, evDef: real, evKWh: real, imp: real, exp: real, cost: real, credit: real, curt: real,
                         vio: nat, cons: nat)
  {
    function Net(): real {
      cost - credit
    }
  }

  const OPENING := Books(BAT_KWH * 0.5, 0.0, 0.0, 0.0, 0.0, 0.0, 0.0, 0.0, 0, 0)

  function Settle(st: Books, grid: real, e: Tick, pvOut: real): Books {
    var paid := if grid > 0.0 then st.(cost := st.cost + grid * DT * RateAt(e.h), imp := st.imp + grid * DT)
                else st.(credit := st.credit + -grid * DT * EXPORT_CREDIT, exp := st.exp + -grid * DT);
    if !e.Capped() then paid
    else if e.Violated(grid, pvOut) then paid.(cons := st.cons + 1, vio := st.vio + 1)
    else paid.(cons := st.cons + 1)
  }

  // ---------------------------------------------------------------- the policies

  /** What a plugged-in EV with a deficit draws. */
  function EvDraw(st: Books, e: Tick, allowed: bool): real {
    if e.evHome && st.evDef > 0.0 && allowed then Min(EV_KW, st.evDef / DT) else 0.0
  }

  function Charge(st: Books, ev: real): Books {
    st.(evDef := st.evDef - ev * DT, evKWh := st.evKWh + ev * DT)
  }

  function Dumb(st: Books, e: Tick): Books {
    var ev := EvDraw(st, e, true);
    Settle(Charge(st, ev), e.load + ev - e.pv, e, e.pv)
  }

  function LoadOnly(st: Books, e: Tick): Books {
    var ev := EvDraw(st, e, true);
    Settle(Charge(st, ev), e.load + ev, e, 0.0)
  }

  function Deferral(st: Books, e: Tick): Books {
    var ev := EvDraw(st, e, IsOff(e.h));
    Settle(Charge(st, ev), e.load + ev - e.pv, e, e.pv)
  }

  /** Power the battery has room for, and power it can give. */
  function Room(soc: real): real {
    (BAT_KWH - soc) / (DT * CHG_EFF)
  }

  function Avail(soc: real): real {
    Max(0.0, (soc - BAT_RES) / DT)
  }

  /** One tick's dispatch, with the solar it gives up. */
  datatype Plan = Plan(pvOut: real, ev: real, ch: real, dis: real, net: real, lost: real)

  /** Absorb a surplus in the battery; discharge into a deficit, at peak only. */
  function Balance(st: Books, e: Tick): Plan {
    var pvOut := e.genCap.Clip(e.pv);
    var ev := EvDraw(st, e, IsOff(e.h));
    var net := e.load + ev - pvOut;
    var lost := (e.pv - pvOut) * DT;
    if net > 0.0 && IsPeak(e.h) then
      var dis := Min(Min(net, BAT_KW), Avail(st.soc));
      Plan(pvOut, ev, 0.0, dis, net - dis, lost)
    else if net < 0.0 then
      var ch := Min(Min(-net, BAT_KW), Room(st.soc));
      Plan(pvOut, ev, ch, 0.0, net + ch, lost)
    else Plan(pvOut, ev, 0.0, 0.0, net, lost)
  }

  /** Then meet an export cap: charge on if the battery still can, and curtail the rest. */
  function MeetExport(p: Plan, st: Books, e: Tick): Plan {
    if !e.expCap.Below(-p.net, 0.0) then p
    else
      var extra := Min(Min(-p.net - e.expCap.kw, BAT_KW - p.ch), Room(st.soc) - p.ch);
      var q := if extra > 0.0 then p.(ch := p.ch + extra, net := p.net + extra) else p;
      var cut := e.expCap.Excess(-q.net);
      q.(pvOut := q.pvOut - cut, lost := q.lost + cut * DT, net := q.net + cut)
  }

  /** Then meet an import cap: shed the EV first, and discharge for the rest. */
  function MeetImport(p: Plan, st: Books, e: Tick): Plan {
    if !e.impCap.Below(p.net, 0.0) then p
    else
      var cutEv := Min(p.ev, p.net - e.impCap.kw);
      var q := p.(ev := p.ev - cutEv, net := p.net - cutEv);
      var need := q.net - e.impCap.kw;
      var d2 := Min(Min(need, BAT_KW - q.dis), Avail(st.soc) - q.dis);
      if need > 0.0 && d2 > 0.0 then q.(dis := q.dis + d2, net := q.net - d2) else q
  }

  function SmartPlan(st: Books, e: Tick): Plan {
    MeetImport(MeetExport(Balance(st, e), st, e), st, e)
  }

  function Enact(st: Books, p: Plan, e: Tick): Books {
    var st1 := st.(curt := st.curt + p.lost, soc := st.soc + (p.ch * DT * CHG_EFF - p.dis * DT));
    Settle(Charge(st1, p.ev), p.net, e, p.pvOut)
  }

  function Smart(st: Books, e: Tick): Books {
    Enact(st, SmartPlan(st, e), e)
  }

  datatype Policy = DumbPolicy | LoadOnlyPolicy | DeferralPolicy | SmartPolicy

  function StepOf(p: Policy): (Books, Tick) -> Books {
    match p
    case DumbPolicy => Dumb
    case LoadOnlyPolicy => LoadOnly
    case DeferralPolicy => Deferral
    case SmartPolicy => Smart
  }

  function Arrive(st: Books, arr: real): Books {
    if arr > 0.0 then st.(evDef := st.evDef + arr / EV_CHG_EFF) else st
  }

  // The three stages of the smart dispatch, on running values of every lever.

  method BalanceStage(st: Books, e: Tick) returns (p: Plan)
    ensures p == Balance(st, e)
  {
    var pvOut := e.genCap.Clip(e.pv);
    var lost := (e.pv - pvOut) * DT;
    var ev := EvDraw(st, e, IsOff(e.h));
    var net := e.load + ev - pvOut;
    var dis, ch := 0.0, 0.0;
    if net > 0.0 && IsPeak(e.h) {
      dis := Min(Min(net, BAT_KW), Avail(st.soc));
      net := net - dis;
    } else if net < 0.0 {
      ch := Min(Min(-net, BAT_KW), Room(st.soc));
      net := net + ch;
    }
    p := Plan(pvOut, ev, ch, dis, net, lost);
  }

  method ExportStage(p0: Plan, st: Books, e: Tick) returns (p: Plan)
    ensures p == MeetExport(p0, st, e)
  {
    p := p0;
    if e.expCap.Below(-p.net, 0.0) {
      var extra := Min(Min(-p.net - e.expCap.kw, BAT_KW - p.ch), Room(st.soc) - p.ch);
      if extra > 0.0 {
        p := p.(ch := p.ch + extra, net := p.net + extra);
      }
      if e.expCap.Below(-p.net, 0.0) {
        var cut := -p.net - e.expCap.kw;
        p := p.(pvOut := p.pvOut - cut, lost := p.lost + cut * DT, net := p.net + cut);
      }
    }
  }

  method ImportStage(p0: Plan, st: Books, e: Tick) returns (p: Plan)
    ensures p == MeetImport(p0, st, e)
  {
    p := p0;
    if e.impCap.Below(p.net, 0.0) {
      var need := p.net - e.impCap.kw;
      var cutEv := Min(p.ev, need);
      p := p.(ev := p.ev - cutEv, net := p.net - cutEv);
      need := p.net - e.impCap.kw;
      if need > 0.0 {
        var d2 := Min(Min(need, BAT_KW - p.dis), Avail(st.soc) - p.dis);
        if d2 > 0.0 {
          p := p.(dis := p.dis + d2, net := p.net - d2);
        }
      }
    }
  }

  // ---------------------------------------------------------------- the accounts that are kept

  /** The state dict of one policy, updated in place, and the policy that steps it. */
  class Account {
    const policy: Policy
    var soc: real
    var evDef: real
    var evKWh: real
    var imp: real
    var exp: real
    var cost: real
    var credit: real
    var curt: real
    var vio: nat
    var cons: nat
    var cum: seq<real>

    function Value(): Books
      reads this
    {
      Books(soc, evDef, evKWh, imp, exp, cost, credit, curt, vio, cons)
    }

    constructor (policy: Policy)
      ensures this.policy == policy && Value() == OPENING && cum == []
    {
      this.policy := policy;
      soc, evDef, evKWh, imp, exp, cost, credit, curt := BAT_KWH * 0.5, 0.0, 0.0, 0.0, 0.0, 0.0, 0.0, 0.0;
      vio, cons, cum := 0, 0, [];
    }

    method SettleTick(grid: real, e: Tick, pvOut: real)
      modifies this
      ensures Value() == Settle(old(Value()), grid, e, pvOut) && cum == old(cum)
    {
      if grid > 0.0 {
        cost := cost + grid * DT * RateAt(e.h);
        imp := imp + grid * DT;
      } else {
        credit := credit + -grid * DT * EXPORT_CREDIT;
        exp := exp + -grid * DT;
      }
      if e.expCap.Limit? || e.impCap.Limit? || e.genCap.Limit? {
        cons := cons + 1;
        if e.expCap.Below(-grid, TOL) || e.impCap.Below(grid, TOL) || e.genCap.Below(pvOut, TOL) {
          vio := vio + 1;
        }
      }
    }

    method StepDumb(e: Tick)
      modifies this
      ensures Value() == Dumb(old(Value()), e) && cum == old(cum)
    {
      var ev := EvDraw(Value(), e, true);
      evDef := evDef - ev * DT;
      evKWh := evKWh + ev * DT;
      SettleTick(e.load + ev - e.pv, e, e.pv);
    }

    method StepLoadOnly(e: Tick)
      modifies this
      ensures Value() == LoadOnly(old(Value()), e) && cum == old(cum)
    {
      var ev := EvDraw(Value(), e, true);
      evDef := evDef - ev * DT;
      evKWh := evKWh + ev * DT;
      SettleTick(e.load + ev, e, 0.0);
    }

    method StepDeferral(e: Tick)
      modifies this
      ensures Value() == Deferral(old(Value()), e) && cum == old(cum)
    {
      var ev := EvDraw(Value(), e, IsOff(e.h));
      evDef := evDef - ev * DT;
      evKWh := evKWh + ev * DT;
      SettleTick(e.load + ev - e.pv, e, e.pv);
    }

    method EnactPlan(p: Plan, e: Tick)
      modifies this
      ensures Value() == Enact(old(Value()), p, e) && cum == old(cum)
    {
      curt := curt + p.lost;
      soc := soc + (p.ch * DT * CHG_EFF - p.dis * DT);
      evDef := evDef - p.ev * DT;
      evKWh := evKWh + p.ev * DT;
      SettleTick(p.net, e, p.pvOut);
    }

    method StepSmart(e: Tick)
      modifies this
      ensures Value() == Smart(old(Value()), e) && cum == old(cum)
    {
      var p := BalanceStage(Value(), e);
      p := ExportStage(p, Value(), e);
      p := ImportStage(p, Value(), e);
      EnactPlan(p, e);
    }

    method Step(e: Tick)
      modifies this
      ensures Value() == StepOf(policy)(old(Value()), e) && cum == old(cum)
    {
      match policy {
        case DumbPolicy => StepDumb(e);
        case LoadOnlyPolicy => StepLoadOnly(e);
        case DeferralPolicy => StepDeferral(e);
        case SmartPolicy => StepSmart(e);
      }
    }

    method PlugIn(arr: real)
      modifies this`evDef
      ensures Value() == Arrive(old(Value()), arr) && cum == old(cum)
    {
      if arr > 0.0 {
        evDef := evDef + arr / EV_CHG_EFF;
      }
    }

    /** The books stand where the policy has them before tick `t`. */
    ghost predicate At(env: Env, t: nat)
      requires env.Covers(t)
      reads this
    {
      Value() == RunTo(policy, env, t)
    }

    /** One tick of a run: arrivals, then the policy. */
    method Advance(env: Env, t: nat, e: Tick)
      requires env.Covers(t + 1) && e == TickAt(env, t) && At(env, t)
      modifies this
      ensures At(env, t + 1) && cum == old(cum)
    {
      PlugIn(env.evArrive[t]);
      Step(e);
    }

    /** Write down the day's running net cost. */
    method CloseDay(env: Env, d: nat)
      requires env.Covers((d + 1) * TPD) && Value() == RunTo(policy, env, (d + 1) * TPD)
      requires |cum| == d && Closed(cum, policy, env)
      modifies this`cum
      ensures cum == old(cum) + [RoundCents(Value().Net())]
      ensures HasRun(this, env, d + 1)
    {
      hide RunTo, RoundCents;
      cum := cum + [RoundCents(cost - credit)];
    }
  }

  /** Rounding to cents, halves to even. */
  function RoundCents(v: real): real {
    var n := (v * 100.0).Floor;
    var rest := v * 100.0 - n as real;
    (if rest > 0.5 || (rest == 0.5 && n % 2 != 0) then n + 1 else n) as real / 100.0
  }

  // ---------------------------------------------------------------- whole runs

  /** What a run is driven with: one entry per tick. */
  datatype Env = Env(pv: seq<real>, load: seq<real>, evHome: seq<bool>, evArrive: seq<real>,
                     expCap: seq<Cap>, impCap: seq<Cap>, genCap: seq<Cap>)
  {
    /** Every series covers the first `n` ticks. */
    predicate Covers(n: nat) {
      |pv| >= n && |load| >= n && |evHome| >= n && |evArrive| >= n && |expCap| >= n && |impCap| >= n && |genCap| >= n
    }
  }

  function TickAt(env: Env, t: nat): Tick
    requires env.Covers(t + 1)
  {
    Tick(env.pv[t], env.load[t], env.evHome[t], (t % TPD) as real * DT, env.expCap[t], env.impCap[t], env.genCap[t])
  }

  /** The books of a policy before tick `t`. */
  function RunTo(p: Policy, env: Env, t: nat): Books
    requires env.Covers(t)
  {
    if t == 0 then OPENING
    else StepOf(p)(Arrive(RunTo(p, env, t - 1), env.evArrive[t - 1]), TickAt(env, t - 1))
  }

  /** The day's end entries of a policy. */
  ghost predicate Closed(cum: seq<real>, p: Policy, env: Env)
    requires env.Covers(|cum| * TPD)
  {
    forall d :: 0 <= d < |cum| ==> cum[d] == RoundCents(RunTo(p, env, (d + 1) * TPD).Net())
  }

  /** A whole run: the four policies, driven side by side over the same environment. */
  method RunModels(env: Env, days: nat) returns (dumb: Account, loadonly: Account, deferral: Account, smart: Account)
    requires env.Covers(days * TPD)
    ensures fresh(dumb) && fresh(loadonly) && fresh(deferral) && fresh(smart)
    ensures dumb.policy == DumbPolicy && HasRun(dumb, env, days)
    ensures loadonly.policy == LoadOnlyPolicy && HasRun(loadonly, env, days)
    ensures deferral.policy == DeferralPolicy && HasRun(deferral, env, days)
    ensures smart.policy == SmartPolicy && HasRun(smart, env, days)
  {
    dumb := new Account(DumbPolicy);
    loadonly := new Account(LoadOnlyPolicy);
    deferral := new Account(DeferralPolicy);
    smart := new Account(SmartPolicy);
    for d := 0 to days
      invariant HasRun(dumb, env, d) && HasRun(loadonly, env, d) && HasRun(deferral, env, d) && HasRun(smart, env, d)
    {
      RunDay(env, d, dumb, loadonly, deferral, smart);
    }
  }

  /** The account holds what its policy has earned by the end of day `d`, and every day's closing entry. */
  ghost predicate HasRun(a: Account, env: Env, d: nat)
    requires env.Covers(d * TPD)
    reads a
  {
    a.Value() == RunTo(a.policy, env, d * TPD) && |a.cum| == d && Closed(a.cum, a.policy, env)
  }

  method RunDay(env: Env, d: nat, a1: Account, a2: Account, a3: Account, a4: Account)
    requires env.Covers((d + 1) * TPD)
    requires a1 != a2 && a1 != a3 && a1 != a4 && a2 != a3 && a2 != a4 && a3 != a4
    requires HasRun(a1, env, d) && HasRun(a2, env, d) && HasRun(a3, env, d) && HasRun(a4, env, d)
    modifies a1, a2, a3, a4
    ensures HasRun(a1, env, d + 1) && HasRun(a2, env, d + 1) && HasRun(a3, env, d + 1) && HasRun(a4, env, d + 1)
  {
    RunTicks(env, d, a1, a2, a3, a4);
    a1.CloseDay(env, d);
    a2.CloseDay(env, d);
    a3.CloseDay(env, d);
    a4.CloseDay(env, d);
  }

  lemma TickOfDay(env: Env, d: nat, i: nat, t: nat)
    requires i < TPD && t == d * TPD + i && env.Covers(t + 1)
    ensures TickAt(env, t)
         == Tick(env.pv[t], env.load[t], env.evHome[t], i as real * DT, env.expCap[t], env.impCap[t], env.genCap[t])
  {
  }

  method RunTicks(env: Env, d: nat, a1: Account, a2: Account, a3: Account, a4: Account)
    requires env.Covers((d + 1) * TPD)
    requires a1 != a2 && a1 != a3 && a1 != a4 && a2 != a3 && a2 != a4 && a3 != a4
    requires a1.At(env, d * TPD) && a2.At(env, d * TPD) && a3.At(env, d * TPD) && a4.At(env, d * TPD)
    modifies a1, a2, a3, a4
    ensures a1.At(env, (d + 1) * TPD) && a2.At(env, (d + 1) * TPD) && a3.At(env, (d + 1) * TPD) && a4.At(env, (d + 1) * TPD)
    ensures a1.cum == old(a1.cum) && a2.cum == old(a2.cum) && a3.cum == old(a3.cum) && a4.cum == old(a4.cum)
  {
    hide RunTo, StepOf, TickAt;
    var start, end := d * TPD, (d + 1) * TPD;
    assert end == start + TPD;
    for i := 0 to TPD
      invariant a1.At(env, start + i) && a2.At(env, start + i) && a3.At(env, start + i) && a4.At(env, start + i)
      invariant a1.cum == old(a1.cum) && a2.cum == old(a2.cum) && a3.cum == old(a3.cum) && a4.cum == old(a4.cum)
    {
      var t := start + i;
      var h := i as real * DT;
      var e := Tick(env.pv[t], env.load[t], env.evHome[t], h, env.expCap[t], env.impCap[t], env.genCap[t]);
      TickOfDay(env, d, i, t);
      a1.Advance(env, t, e);
      a2.Advance(env, t, e);
      a3.Advance(env, t, e);
      a4.Advance(env, t, e);
    }
  }
}
