/**
  The safety invariants audited over every scenario's timeline (cmd/dashboard/invariants.go).
  Each loop of the source is a method, proved to collect exactly the samples its rule flags.
 */
module Invariants {
  import opened Timeline

  const SOC_RESERVE_FLOOR_PCT: real := 10.0
  const SOC_CEILING_PCT: real := 95.0
  const SOC_ACTIVE_W: real := 50.0
  const CONNECT_ENERGIZE_W: real := 250.0
  const EXPIRED_GRACE_S := 30
  const EV_MAX_TOL_A: real := 1.0
  const HUNT_UP_CROSSINGS := 3
  const HUNT_HYSTERESIS_W: real := 300.0
  const AUDIT_ESCALATE_MIN_SAMPLES := 3

  datatype Inv = InvExport | InvConverge | InvSoc | InvConnect | InvExpired | InvEvMax | InvHunt

  /** One timestamped breach of a named invariant. */
  datatype Violation = Violation(inv: Inv, t: real)

  datatype Verdict = Pass | Degraded | Fail | Blind | Inconclusive | Infra | NotApplicable | OtherVerdict(text: string)

  // ---------------------------------------------------------------- per-sample rules

  type Rule = Sample -> seq<Violation>

  function ExportRule(c: Constraint): Rule {
    (s: Sample) => if PastDeadline(s) && Breaches(c, s) then [Violation(InvExport, s.t)] else []
  }

  function SocRule(): Rule {
    (s: Sample) =>
      if s.batterySimOk
         && ((s.batterySimW > SOC_ACTIVE_W && s.batSimSoc <= SOC_RESERVE_FLOOR_PCT)
             || (s.batterySimW < -SOC_ACTIVE_W && s.batSimSoc >= SOC_CEILING_PCT))
      then [Violation(InvSoc, s.t)] else []
  }

  /** A sample can back-feed through the inverter, through the battery, or through both. */
  function ConnectRule(): Rule {
    (s: Sample) =>
      if !s.disconnectActive then []
      else (if s.solarOk && s.solarW > CONNECT_ENERGIZE_W then [Violation(InvConnect, s.t)] else [])
           + (if s.batteryW > CONNECT_ENERGIZE_W then [Violation(InvConnect, s.t)] else [])
  }

  function ExpiredRule(): Rule {
    (s: Sample) =>
      if s.hubAdopted && s.validUntil > 0 && s.wallUnix != 0
         && s.wallUnix + s.clockOffsetS > s.validUntil + EXPIRED_GRACE_S
      then [Violation(InvExpired, s.t)] else []
  }

  function EvMaxRule(): Rule {
    (s: Sample) => if s.evMaxA > 0.0 && s.evCurrentA > s.evMaxA + EV_MAX_TOL_A then [Violation(InvEvMax, s.t)] else []
  }

  /** Everything a rule flags in the first `n` samples, in order. */
  function Collect(s: seq<Sample>, n: nat, rule: Rule): seq<Violation>
    requires n <= |s|
  {
    if n == 0 then [] else Collect(s, n - 1, rule) + rule(s[n - 1])
  }

  lemma CollectNext(s: seq<Sample>, i: nat, rule: Rule)
    requires i < |s|
    ensures Collect(s, 0, rule) == [] && Collect(s, i + 1, rule) == Collect(s, i, rule) + rule(s[i])
  {
  }

  lemma {:induction false} CollectEmpty(s: seq<Sample>, n: nat, rule: Rule)
    requires n <= |s|
    ensures Collect(s, n, rule) == [] <==> forall i :: 0 <= i < n ==> rule(s[i]) == []
  {
    if n > 0 {
      CollectEmpty(s, n - 1, rule);
    }
  }

  // ---------------------------------------------------------------- the loops

  function Export(c: Constraint, s: seq<Sample>): seq<Violation> {
    Collect(s, |s|, ExportRule(c))
  }

  /** Without a cap there is nothing to exceed. */
  lemma NoCapNeverExports(c: Constraint, s: seq<Sample>)
    requires !c.IsCap()
    ensures Export(c, s) == []
  {
    CollectEmpty(s, |s|, ExportRule(c));
  }

  method FlagExport(c: Constraint, s: seq<Sample>) returns (v: seq<Violation>)
    ensures v == Export(c, s)
  {
    v := [];
    if c.typ.NoCap? || c.typ.EmptyTyp? {
      NoCapNeverExports(c, s);
      return;
    }
    for i := 0 to |s|
      invariant v == Collect(s, i, ExportRule(c))
    {
      if s[i].t <= CONVERGE_DEADLINE_S {
        continue;
      }
      if BreachOver(c, s[i]) > 0.0 {
        v := v + [Violation(InvExport, s[i].t)];
      }
    }
  }

  /** The export oracle is silent exactly when no sample past the deadline is over the cap. */
  lemma ExportSilentExactly(c: Constraint, s: seq<Sample>)
    ensures Export(c, s) == [] <==> forall i :: 0 <= i < |s| && PastDeadline(s[i]) ==> BreachOver(c, s[i]) <= 0.0
  {
    CollectEmpty(s, |s|, ExportRule(c));
    assert forall i :: 0 <= i < |s| ==> (ExportRule(c)(s[i]) == [] <==> !(PastDeadline(s[i]) && Breaches(c, s[i])));
  }

  predicate Admitted(s: seq<Sample>) {
    exists i :: 0 <= i < |s| && s[i].cannotComply
  }

  function Relabelled(v: seq<Violation>): (r: seq<Violation>)
    ensures |r| == |v|
    ensures forall i :: 0 <= i < |v| ==> r[i] == Violation(InvConverge, v[i].t)
  {
    seq(|v|, i requires 0 <= i < |v| => Violation(InvConverge, v[i].t))
  }

  function Converge(c: Constraint, s: seq<Sample>): seq<Violation> {
    if Admitted(s) then [] else Relabelled(Export(c, s))
  }

  method FlagConverge(c: Constraint, s: seq<Sample>) returns (out: seq<Violation>)
    ensures out == Converge(c, s)
  {
    var breaches := FlagExport(c, s);
    if |breaches| == 0 {
      assert Relabelled(breaches) == [];
      return [];
    }
    for i := 0 to |s|
      invariant forall j :: 0 <= j < i ==> !s[j].cannotComply
    {
      if s[i].cannotComply {
        return [];
      }
    }
    out := [];
    for i := 0 to |breaches|
      invariant out == Relabelled(breaches)[..i]
    {
      out := out + [Violation(InvConverge, breaches[i].t)];
    }
  }

  method FlagSoc(s: seq<Sample>) returns (v: seq<Violation>)
    ensures v == Collect(s, |s|, SocRule())
  {
    v := [];
    for i := 0 to |s|
      invariant v == Collect(s, i, SocRule())
    {
      if !s[i].batterySimOk {
        continue;
      }
      if s[i].batterySimW > SOC_ACTIVE_W && s[i].batSimSoc <= SOC_RESERVE_FLOOR_PCT {
        v := v + [Violation(InvSoc, s[i].t)];
      } else if s[i].batterySimW < -SOC_ACTIVE_W && s[i].batSimSoc >= SOC_CEILING_PCT {
        v := v + [Violation(InvSoc, s[i].t)];
      }
    }
  }

  method FlagConnect(s: seq<Sample>) returns (v: seq<Violation>)
    ensures v == Collect(s, |s|, ConnectRule())
  {
    v := [];
    for i := 0 to |s|
      invariant v == Collect(s, i, ConnectRule())
    {
      hide Collect;
      CollectNext(s, i, ConnectRule());
      if !s[i].disconnectActive {
        assert ConnectRule()(s[i]) == [];
        continue;
      }
      ghost var before := v;
      if s[i].solarOk && s[i].solarW > CONNECT_ENERGIZE_W {
        v := v + [Violation(InvConnect, s[i].t)];
      }
      if s[i].batteryW > CONNECT_ENERGIZE_W {
        v := v + [Violation(InvConnect, s[i].t)];
      }
      assert v == before + ConnectRule()(s[i]);
    }
  }

  method FlagExpired(s: seq<Sample>) returns (v: seq<Violation>)
    ensures v == Collect(s, |s|, ExpiredRule())
  {
    v := [];
    for i := 0 to |s|
      invariant v == Collect(s, i, ExpiredRule())
    {
      if !s[i].hubAdopted || s[i].validUntil <= 0 || s[i].wallUnix == 0 {
        continue;
      }
      var serverNow := s[i].wallUnix + s[i].clockOffsetS;
      if serverNow > s[i].validUntil + EXPIRED_GRACE_S {
        v := v + [Violation(InvExpired, s[i].t)];
      }
    }
  }

  method FlagEvMax(s: seq<Sample>) returns (v: seq<Violation>)
    ensures v == Collect(s, |s|, EvMaxRule())
  {
    v := [];
    for i := 0 to |s|
      invariant v == Collect(s, i, EvMaxRule())
    {
      if s[i].evMaxA > 0.0 && s[i].evCurrentA > s[i].evMaxA + EV_MAX_TOL_A {
        v := v + [Violation(InvEvMax, s[i].t)];
      }
    }
  }

  /** Those of the first `n` violations that lie after the settling deadline. */
  function SettledTo(v: seq<Violation>, n: nat): seq<Violation>
    requires n <= |v|
  {
    if n == 0 then [] else SettledTo(v, n - 1) + if v[n - 1].t > CONVERGE_DEADLINE_S then [v[n - 1]] else []
  }

  function Settled(v: seq<Violation>): seq<Violation> {
    SettledTo(v, |v|)
  }

  method PastSettling(v: seq<Violation>) returns (out: seq<Violation>)
    ensures out == Settled(v)
  {
    out := [];
    for i := 0 to |v|
      invariant out == SettledTo(v, i)
    {
      if v[i].t > CONVERGE_DEADLINE_S {
        out := out + [v[i]];
      }
    }
  }

  // ---------------------------------------------------------------- hunting

  datatype Hunter = Hunter(recovered: bool, crossings: seq<Violation>)

  /** The flag machine of the hunting oracle after the first `n` samples. */
  function HuntRun(c: Constraint, s: seq<Sample>, n: nat): Hunter
    requires n <= |s|
  {
    if n == 0 then Hunter(false, [])
    else
      var h, smp := HuntRun(c, s, n - 1), s[n - 1];
      if !PastDeadline(smp) then h
      else if Breaches(c, smp) && h.recovered then Hunter(false, h.crossings + [Violation(InvHunt, smp.t)])
      else if BreachOver(c, smp) < -HUNT_HYSTERESIS_W then h.(recovered := true)
      else h
  }

  function Hunt(c: Constraint, s: seq<Sample>): seq<Violation> {
    var crossings := HuntRun(c, s, |s|).crossings;
    if |crossings| < HUNT_UP_CROSSINGS then [] else crossings
  }

  method FlagHunt(c: Constraint, s: seq<Sample>) returns (v: seq<Violation>)
    ensures v == Hunt(c, s)
  {
    if c.typ.NoCap? || c.typ.EmptyTyp? {
      NoCapNeverHunts(c, s, |s|);
      return [];
    }
    var crossings, recovered := [], false;
    for i := 0 to |s|
      invariant HuntRun(c, s, i) == Hunter(recovered, crossings)
    {
      if s[i].t <= CONVERGE_DEADLINE_S {
        continue;
      }
      var over := BreachOver(c, s[i]);
      if over > 0.0 && recovered {
        recovered := false;
        crossings := crossings + [Violation(InvHunt, s[i].t)];
      } else if over < -HUNT_HYSTERESIS_W {
        recovered := true;
      }
    }
    if |crossings| < HUNT_UP_CROSSINGS {
      return [];
    }
    return crossings;
  }

  lemma {:induction false} NoCapNeverHunts(c: Constraint, s: seq<Sample>, n: nat)
    requires !c.IsCap() && n <= |s|
    ensures HuntRun(c, s, n).crossings == []
  {
    if n > 0 {
      NoCapNeverHunts(c, s, n - 1);
    }
  }

  // ---------------------------------------------------------------- the audit

  /** The cross-cutting audit of a timeline. */
  function Audit(c: Constraint, s: seq<Sample>): seq<Violation> {
    Settled(Collect(s, |s|, ConnectRule())) + Settled(Collect(s, |s|, SocRule()))
    + Collect(s, |s|, ExpiredRule()) + Settled(Collect(s, |s|, EvMaxRule())) + Hunt(c, s)
  }

  method SafetyAudit(c: Constraint, s: seq<Sample>) returns (v: seq<Violation>)
    ensures v == Audit(c, s)
  {
    var connect := FlagConnect(s);
    connect := PastSettling(connect);
    var soc := FlagSoc(s);
    soc := PastSettling(soc);
    var expired := FlagExpired(s);
    var evMax := FlagEvMax(s);
    evMax := PastSettling(evMax);
    var hunt := FlagHunt(c, s);
    v := connect + soc + expired + evMax + hunt;
  }

  /** How many of the first `n` violations carry a label. */
  function CountTo(v: seq<Violation>, n: nat, inv: Inv): (k: nat)
    requires n <= |v|
    ensures k <= n
  {
    if n == 0 then 0 else CountTo(v, n - 1, inv) + if v[n - 1].inv == inv then 1 else 0
  }

  function Count(v: seq<Violation>, inv: Inv): nat {
    CountTo(v, |v|, inv)
  }

  /** FAIL outranks DEGRADED outranks PASS; the rest are not judgements the audit may touch. */
  function Severity(v: Verdict): nat {
    match v
    case Pass => 0
    case Degraded => 1
    case _ => 2
  }

  /** What the audit makes of a verdict.  It only ever tightens a PASS or a DEGRADED, and never looks at the rest. */
  function Escalated(verdict: Verdict, audit: seq<Violation>): (nv: Verdict)
    ensures Severity(nv) >= Severity(verdict)
    ensures Severity(verdict) == 2 ==> nv == verdict
    ensures nv == Pass
       <==> verdict == Pass && Count(audit, InvConnect) == 0 && Count(audit, InvSoc) < 3 && Count(audit, InvEvMax) < 3
            && Count(audit, InvExpired) < 3 && Count(audit, InvHunt) == 0
  {
    if verdict != Pass && verdict != Degraded then verdict
    else if Count(audit, InvConnect) > 0 then Fail
    else if Count(audit, InvSoc) >= AUDIT_ESCALATE_MIN_SAMPLES || Count(audit, InvEvMax) >= AUDIT_ESCALATE_MIN_SAMPLES then Fail
    else if verdict == Pass && (Count(audit, InvExpired) >= AUDIT_ESCALATE_MIN_SAMPLES || Count(audit, InvHunt) > 0) then Degraded
    else verdict
  }

  method EscalateForAudit(verdict: Verdict, audit: seq<Violation>) returns (nv: Verdict)
    ensures nv == Escalated(verdict, audit)
  {
    if verdict != Pass && verdict != Degraded {
      return verdict;
    }
    var count: map<Inv, nat> := map[];
    for i := 0 to |audit|
      invariant forall k :: Tally(count, k) == CountTo(audit, i, k)
    {
      count := count[audit[i].inv := Tally(count, audit[i].inv) + 1];
    }
    if Tally(count, InvConnect) > 0 {
      return Fail;
    }
    var sustained := [InvSoc, InvEvMax];
    for i := 0 to |sustained|
      invariant forall j :: 0 <= j < i ==> Tally(count, sustained[j]) < AUDIT_ESCALATE_MIN_SAMPLES
    {
      if Tally(count, sustained[i]) >= AUDIT_ESCALATE_MIN_SAMPLES {
        return Fail;
      }
    }
    assert Tally(count, sustained[0]) < AUDIT_ESCALATE_MIN_SAMPLES && Tally(count, sustained[1]) < AUDIT_ESCALATE_MIN_SAMPLES;
    if Tally(count, InvExpired) >= AUDIT_ESCALATE_MIN_SAMPLES && verdict == Pass {
      return Degraded;
    }
    if Tally(count, InvHunt) > 0 && verdict == Pass {
      return Degraded;
    }
    return verdict;
  }

  /** A count that was never made is zero. */
  function Tally(count: map<Inv, nat>, k: Inv): nat {
    if k in count then count[k] else 0
  }

  // ---------------------------------------------------------------- what the audit says about a timeline

  lemma {:induction false} CountConcatTo(a: seq<Violation>, b: seq<Violation>, n: nat, inv: Inv)
    requires n <= |a + b|
    ensures CountTo(a + b, n, inv) == if n <= |a| then CountTo(a, n, inv) else Count(a, inv) + CountTo(b, n - |a|, inv)
  {
    if n > 0 {
      CountConcatTo(a, b, n - 1, inv);
    }
  }

  lemma CountConcat(a: seq<Violation>, b: seq<Violation>, inv: Inv)
    ensures Count(a + b, inv) == Count(a, inv) + Count(b, inv)
  {
    CountConcatTo(a, b, |a + b|, inv);
  }

  /** Every entry carries the same label. */
  predicate Only(v: seq<Violation>, inv: Inv) {
    forall i :: 0 <= i < |v| ==> v[i].inv == inv
  }

  lemma {:induction false} CountOnly(v: seq<Violation>, n: nat, inv: Inv, k: Inv)
    requires n <= |v| && Only(v, inv)
    ensures CountTo(v, n, k) == if k == inv then n else 0
  {
    if n > 0 {
      CountOnly(v, n - 1, inv, k);
    }
  }

  lemma {:induction false} CollectOnly(s: seq<Sample>, n: nat, rule: Rule, inv: Inv)
    requires n <= |s|
    requires forall x :: Only(rule(x), inv)
    ensures Only(Collect(s, n, rule), inv)
  {
    if n > 0 {
      CollectOnly(s, n - 1, rule, inv);
    }
  }

  lemma {:induction false} SettledOnly(v: seq<Violation>, n: nat, inv: Inv)
    requires n <= |v| && Only(v, inv)
    ensures Only(SettledTo(v, n), inv)
  {
    if n > 0 {
      SettledOnly(v, n - 1, inv);
    }
  }

  lemma {:induction false} HuntOnly(c: Constraint, s: seq<Sample>, n: nat)
    requires n <= |s|
    ensures Only(HuntRun(c, s, n).crossings, InvHunt)
  {
    if n > 0 {
      HuntOnly(c, s, n - 1);
    }
  }

  lemma SettledCollectOnly(s: seq<Sample>, rule: Rule, inv: Inv)
    requires forall x :: Only(rule(x), inv)
    ensures Only(Settled(Collect(s, |s|, rule)), inv)
  {
    CollectOnly(s, |s|, rule, inv);
    SettledOnly(Collect(s, |s|, rule), |Collect(s, |s|, rule)|, inv);
  }

  /** What each invariant's own oracle contributes to the audit. */
  function OracleOf(c: Constraint, s: seq<Sample>, k: Inv): seq<Violation> {
    match k
    case InvConnect => Settled(Collect(s, |s|, ConnectRule()))
    case InvSoc => Settled(Collect(s, |s|, SocRule()))
    case InvExpired => Collect(s, |s|, ExpiredRule())
    case InvEvMax => Settled(Collect(s, |s|, EvMaxRule()))
    case InvHunt => Hunt(c, s)
    case _ => []
  }

  lemma OracleOnly(c: Constraint, s: seq<Sample>, k: Inv)
    ensures Only(OracleOf(c, s, k), k)
  {
    match k
    case InvConnect => SettledCollectOnly(s, ConnectRule(), k);
    case InvSoc => SettledCollectOnly(s, SocRule(), k);
    case InvExpired => CollectOnly(s, |s|, ExpiredRule(), k);
    case InvEvMax => SettledCollectOnly(s, EvMaxRule(), k);
    case InvHunt => HuntOnly(c, s, |s|);
    case _ =>
  }

  lemma OracleCount(c: Constraint, s: seq<Sample>, l: Inv, k: Inv)
    ensures Count(OracleOf(c, s, l), k) == if k == l then |OracleOf(c, s, l)| else 0
  {
    OracleOnly(c, s, l);
    CountOnly(OracleOf(c, s, l), |OracleOf(c, s, l)|, l, k);
  }

  lemma CountFive(a: seq<Violation>, b: seq<Violation>, c: seq<Violation>, d: seq<Violation>, e: seq<Violation>, k: Inv)
    ensures Count(a + b + c + d + e, k) == Count(a, k) + Count(b, k) + Count(c, k) + Count(d, k) + Count(e, k)
  {
    CountConcat(a, b, k);
    CountConcat(a + b, c, k);
    CountConcat(a + b + c, d, k);
    CountConcat(a + b + c + d, e, k);
  }

  /** The audit's tally of each invariant is exactly what that invariant's own oracle reports. */
  lemma AuditTally(c: Constraint, s: seq<Sample>, k: Inv)
    ensures Count(Audit(c, s), k) == |OracleOf(c, s, k)|
  {
    CountFive(OracleOf(c, s, InvConnect), OracleOf(c, s, InvSoc), OracleOf(c, s, InvExpired),
              OracleOf(c, s, InvEvMax), OracleOf(c, s, InvHunt), k);
    OracleCount(c, s, InvConnect, k);
    OracleCount(c, s, InvSoc, k);
    OracleCount(c, s, InvExpired, k);
    OracleCount(c, s, InvEvMax, k);
    OracleCount(c, s, InvHunt, k);
  }
}
