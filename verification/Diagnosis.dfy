/**
  The constraint diagnosers (cmd/dashboard/mayhem.go): metrics scanned from a timeline, convergence,
  the verdict chain, the probe-availability gates and the safety audit on top.
 */
module Diagnosis {
  import opened Timeline
  import opened Invariants

  datatype Metrics = Metrics(
    samples: nat, sampleErrors: nat,
    breachSeconds: real, peakBreachW: real,
    convergedAt: real, tailClean: bool, converging: bool,
    hubAdopted: bool, hubReacted: bool, reportedCannot: bool, hubBlind: bool)

  const NO_METRICS := Metrics(0, 0, 0.0, 0.0, 0.0, false, false, false, false, false, false)

  /** A per-scenario verdict with the numbers behind it; the prose is left out. */
  datatype Finding = Finding(verdict: Verdict, metrics: Metrics, violations: seq<Violation>)

  // ---------------------------------------------------------------- convergence

  /** The index of the last breaching one of the first `n` samples, or -1. */
  function LastBreach(c: Constraint, s: seq<Sample>, n: nat): (k: int)
    requires n <= |s|
    ensures -1 <= k < n
    ensures k >= 0 ==> Breaches(c, s[k])
    ensures forall i :: k < i < n ==> !Breaches(c, s[i])
  {
    if n == 0 then -1 else if Breaches(c, s[n - 1]) then n - 1 else LastBreach(c, s, n - 1)
  }

  /** Timestamp of the first sample after which no sample breaches; 0 if none ever does, -1 if the last one does. */
  function ConvergedAt(c: Constraint, s: seq<Sample>): real {
    if s == [] then -1.0
    else
      var k := LastBreach(c, s, |s|);
      if k < 0 then 0.0 else if k < |s| - 1 then s[k + 1].t else -1.0
  }

  /** No breach in the closing seconds of the window. */
  predicate TailClean(c: Constraint, s: seq<Sample>) {
    s != [] && forall i :: 0 <= i < |s| && s[i].t >= s[|s| - 1].t - CONVERGE_HOLD_S ==> !Breaches(c, s[i])
  }

  method Convergence(c: Constraint, s: seq<Sample>) returns (convergedAt: real, tailClean: bool)
    ensures convergedAt == ConvergedAt(c, s)
    ensures tailClean == TailClean(c, s)
  {
    if |s| == 0 {
      return -1.0, false;
    }
    var lastBreach := -1;
    for i := 0 to |s|
      invariant lastBreach == LastBreach(c, s, i)
    {
      if BreachOver(c, s[i]) > 0.0 {
        lastBreach := i;
      }
    }
    if lastBreach < 0 {
      convergedAt := 0.0;
    } else if lastBreach < |s| - 1 {
      convergedAt := s[lastBreach + 1].t;
    } else {
      convergedAt := -1.0;
    }

    var endT := s[|s| - 1].t;
    var sawTail := false;
    tailClean := true;
    for i := 0 to |s|
      invariant tailClean
      invariant sawTail <==> exists j :: 0 <= j < i && s[j].t >= endT - CONVERGE_HOLD_S
      invariant forall j :: 0 <= j < i && s[j].t >= endT - CONVERGE_HOLD_S ==> !Breaches(c, s[j])
    {
      if s[i].t < endT - CONVERGE_HOLD_S {
        continue;
      }
      sawTail := true;
      if BreachOver(c, s[i]) > 0.0 {
        tailClean := false;
        break;
      }
    }
    if tailClean {
      assert s[|s| - 1].t >= endT - CONVERGE_HOLD_S;
    }
    if !sawTail {
      tailClean := false;
    }
  }

  /** From index `k` on, no sample breaches. */
  ghost predicate CleanFrom(c: Constraint, s: seq<Sample>, k: nat) {
    forall i :: k <= i < |s| ==> !Breaches(c, s[i])
  }

  /** Index `k` starts the longest clean suffix. */
  ghost predicate LongestCleanSuffix(c: Constraint, s: seq<Sample>, k: nat) {
    k <= |s| && CleanFrom(c, s, k) && forall j :: 0 <= j < k ==> !CleanFrom(c, s, j)
  }

  /**
    The settle time is exact on any timeline with timestamps from 0 upwards: the start of the longest
    clean suffix, 0 when the whole timeline is clean, and -1 when the suffix is empty.
   */
  lemma ConvergenceIsExact(c: Constraint, s: seq<Sample>, k: nat)
    requires s != [] && s[0].t >= 0.0 && Ordered(s)
    requires LongestCleanSuffix(c, s, k)
    ensures ConvergedAt(c, s) == if k == 0 then 0.0 else if k < |s| then s[k].t else -1.0
    ensures ConvergedAt(c, s) < 0.0 <==> Breaches(c, s[|s| - 1])
    ensures TailClean(c, s) <==> forall i :: 0 <= i < |s| && s[i].t >= s[|s| - 1].t - 10.0 ==> i >= k
    ensures TailClean(c, s) ==> ConvergedAt(c, s) >= 0.0
  {
    var b := LastBreach(c, s, |s|);
    if b >= 0 {
      assert CleanFrom(c, s, b + 1);
      assert k > b;
    }
    if k > b + 1 {
      assert CleanFrom(c, s, k - 1);
    }
    assert k == b + 1;
    assert forall i :: 0 <= i < k ==> s[i].t <= s[b].t;
  }

  /** Settling by the deadline and a post-deadline breach exclude each other. */
  lemma SettledMeansNoExportViolation(c: Constraint, s: seq<Sample>)
    requires Ordered(s)
    requires 0.0 <= ConvergedAt(c, s) <= CONVERGE_DEADLINE_S
    ensures Export(c, s) == []
  {
    var b := LastBreach(c, s, |s|);
    forall i | 0 <= i < |s|
      ensures ExportRule(c)(s[i]) == []
    {
      if i <= b {
        assert s[i].t <= s[b + 1].t;
      }
    }
    CollectEmpty(s, |s|, ExportRule(c));
  }

  // ---------------------------------------------------------------- the scan

  /** A visible corrective action, through the lever that suits the constraint. */
  function ReactRule(c: Constraint): Sample -> bool {
    (s: Sample) =>
      var battW := if s.batterySimOk then s.batterySimW else s.batteryW;
      if s.solarOk && s.solarPossibleW - s.solarW > REACT_THRESH_W then true
      else if c.typ.ExportCap? || c.typ.GenLimit? then battW < -REACT_THRESH_W
      else if c.typ.ImportCap? || c.typ.Fixed? then battW > REACT_THRESH_W
      else false
  }

  function AdoptRule(c: Constraint): Sample -> bool {
    (s: Sample) => s.hubAdopted && c.AdoptedMatches(s.adoptedTyp, s.adoptedMrid)
  }

  function NoGridRule(): Sample -> bool {
    (s: Sample) => !s.gridOk
  }

  /** Seconds in breach over the first `n` samples: each breaching sample counts the gap since the previous one, the first one nothing. */
  function BreachTime(c: Constraint, s: seq<Sample>, n: nat): real
    requires n <= |s|
  {
    if n <= 1 then 0.0
    else BreachTime(c, s, n - 1) + if Breaches(c, s[n - 1]) then s[n - 1].t - s[n - 2].t else 0.0
  }

  /** The worst overage of the first `n` samples. */
  function Peak(c: Constraint, s: seq<Sample>, n: nat): real
    requires n <= |s|
  {
    if n == 0 then 0.0
    else
      var p, over := Peak(c, s, n - 1), BreachOver(c, s[n - 1]);
      if over > p then over else p
  }

  /** The peak is the greatest overage, and positive exactly when something breaches. */
  lemma {:induction false} PeakIsWorst(c: Constraint, s: seq<Sample>, n: nat)
    requires n <= |s|
    ensures Peak(c, s, n) >= 0.0
    ensures forall i :: 0 <= i < n ==> BreachOver(c, s[i]) <= Peak(c, s, n)
    ensures Peak(c, s, n) > 0.0 ==> exists i :: 0 <= i < n && BreachOver(c, s[i]) == Peak(c, s, n)
  {
    if n > 0 {
      PeakIsWorst(c, s, n - 1);
      assert BreachOver(c, s[n - 1]) <= Peak(c, s, n);
    }
  }

  /** Overage of one sample, or nothing when within the cap. */
  function Excess(c: Constraint, s: Sample): real {
    if Breaches(c, s) then BreachOver(c, s) else 0.0
  }

  /** The overage of the last three samples averages below half the peak: the output is slewing to the limit, not ignoring it. */
  predicate Converging(c: Constraint, s: seq<Sample>) {
    && |s| >= 4
    && Peak(c, s, |s|) > 0.0
    && (Excess(c, s[|s| - 3]) + Excess(c, s[|s| - 2]) + Excess(c, s[|s| - 1])) / 3.0 < 0.5 * Peak(c, s, |s|)
  }

  method BreachConverging(c: Constraint, s: seq<Sample>) returns (b: bool)
    ensures b == Converging(c, s)
  {
    if |s| < 4 {
      return false;
    }
    var peakOver := 0.0;
    for i := 0 to |s|
      invariant peakOver == Peak(c, s, i)
    {
      if BreachOver(c, s[i]) > peakOver {
        peakOver := BreachOver(c, s[i]);
      }
    }
    if peakOver <= 0.0 {
      return false;
    }
    var n := |s|;
    var tail := 0.0;
    for i := n - 3 to n
      invariant tail == (if i > n - 3 then Excess(c, s[n - 3]) else 0.0) + (if i > n - 2 then Excess(c, s[n - 2]) else 0.0)
                        + (if i > n - 1 then Excess(c, s[n - 1]) else 0.0)
    {
      if BreachOver(c, s[i]) > 0.0 {
        tail := tail + BreachOver(c, s[i]);
      }
    }
    return tail / 3.0 < 0.5 * peakOver;
  }

  function Scan(c: Constraint, s: seq<Sample>): Metrics {
    var n := |s|;
    Metrics(n, CountIf(s, n, NoGridRule()), Round2(BreachTime(c, s, n)), Round2(Peak(c, s, n)),
            ConvergedAt(c, s), TailClean(c, s), Converging(c, s),
            CountIf(s, n, AdoptRule(c)) > 0, CountIf(s, n, ReactRule(c)) > n / 4, Admitted(s), false)
  }

  method ScanSamples(c: Constraint, s: seq<Sample>) returns (m: Metrics)
    ensures m == Scan(c, s)
  {
    var sampleErrors, adopted, reacted := 0, 0, 0;
    var breachSeconds, peak, prevT, cannot := 0.0, 0.0, 0.0, false;
    for i := 0 to |s|
      invariant sampleErrors == CountIf(s, i, NoGridRule())
      invariant adopted == CountIf(s, i, AdoptRule(c))
      invariant reacted == CountIf(s, i, ReactRule(c))
      invariant breachSeconds == BreachTime(c, s, i)
      invariant peak == Peak(c, s, i)
      invariant cannot <==> exists j :: 0 <= j < i && s[j].cannotComply
      invariant i > 0 ==> prevT == s[i - 1].t
    {
      if !s[i].gridOk {
        sampleErrors := sampleErrors + 1;
      }
      if s[i].hubAdopted && c.AdoptedMatches(s[i].adoptedTyp, s[i].adoptedMrid) {
        adopted := adopted + 1;
      }
      if s[i].cannotComply {
        cannot := true;
      }
      if ReactRule(c)(s[i]) {
        reacted := reacted + 1;
      }
      var over := BreachOver(c, s[i]);
      if over > 0.0 {
        var dt := s[i].t - prevT;
        if i == 0 {
          dt := 0.0;
        }
        breachSeconds := breachSeconds + dt;
        if over > peak {
          peak := over;
        }
      }
      prevT := s[i].t;
    }
    var convergedAt, tailClean := Convergence(c, s);
    var converging := BreachConverging(c, s);
    m := Metrics(|s|, sampleErrors, Round2(breachSeconds), Round2(peak), convergedAt, tailClean, converging,
                 adopted > 0, reacted > |s| / 4, cannot, false);
  }

  // ---------------------------------------------------------------- probe availability

  function JudgeRule(c: Constraint): Sample -> bool {
    (s: Sample) => JudgedBy(c, s)
  }

  function BatteryRule(): Sample -> bool {
    (s: Sample) => s.batterySimOk
  }

  /** The sensor answered on at least 80% of a non-empty window, as an integer inequality. */
  predicate Available(s: seq<Sample>, ok: Sample -> bool) {
    s != [] && 5 * CountIf(s, |s|, ok) >= 4 * |s|
  }

  method ProbeAvailFrac(s: seq<Sample>, ok: Sample -> bool) returns (frac: real)
    ensures frac >= 1.0 - 0.20 <==> Available(s, ok)
  {
    if |s| == 0 {
      return 0.0;
    }
    var n := 0;
    for i := 0 to |s|
      invariant n == CountIf(s, i, ok)
    {
      if ok(s[i]) {
        n := n + 1;
      }
    }
    frac := n as real / |s| as real;
    QuotientAtLeast(n as real, |s| as real, 0.8);
  }

  /** Comparing a quotient with `k` is comparing the dividend with `k` times the divisor. */
  lemma QuotientAtLeast(p: real, q: real, k: real)
    requires q > 0.0
    ensures p / q >= k <==> p >= k * q
  {
    var f := p / q;
    assert f * q == p;
    assert (f - k) * q == p - k * q;
    if f >= k {
      assert (f - k) * q >= 0.0;
    } else {
      assert (f - k) * q < 0.0;
    }
  }

  /** A PASS read through a mostly absent sensor is BLIND; every other verdict stands. */
  function GapGated(f: Finding, available: bool): Finding {
    if f.verdict != Pass || available then f
    else f.(verdict := Blind, metrics := f.metrics.(hubBlind := true))
  }

  method ForceBlindOnConstraintProbeGap(f: Finding, c: Constraint, s: seq<Sample>) returns (g: Finding)
    ensures g == if c.IsCap() then GapGated(f, Available(s, JudgeRule(c))) else f
  {
    if !c.IsCap() {
      return f;
    }
    var avail := ProbeAvailFrac(s, JudgeRule(c));
    g := GapGated(f, avail >= 1.0 - 0.20);
  }

  method ForceBlindOnBatteryProbeGap(f: Finding, s: seq<Sample>) returns (g: Finding)
    ensures g == GapGated(f, Available(s, BatteryRule()))
  {
    var avail := ProbeAvailFrac(s, BatteryRule());
    g := GapGated(f, avail >= 1.0 - 0.20);
  }

  // ---------------------------------------------------------------- the constraint diagnoser

  /** The adoption, reaction, compliance, admission chain: the first broken link names the verdict. */
  function Judge(m: Metrics): Verdict {
    if m.breachSeconds == 0.0 then Pass
    else if m.reportedCannot then Degraded
    else if !m.hubAdopted then Fail
    else if m.tailClean && m.convergedAt >= 0.0 then
      if m.convergedAt <= CONVERGE_DEADLINE_S then Pass else Degraded
    else Fail
  }

  function Diagnosed(c: Constraint, s: seq<Sample>): Finding {
    if s == [] then Finding(Inconclusive, NO_METRICS, [])
    else
      var m := Scan(c, s);
      if m.sampleErrors > |s| / 2 then Finding(Inconclusive, m, [])
      else
        var f := Finding(Judge(m), m, []);
        if c.IsCap() then GapGated(f, Available(s, JudgeRule(c))) else f
  }

  method DiagnoseConstraint(c: Constraint, s: seq<Sample>) returns (f: Finding)
    ensures f == Diagnosed(c, s)
  {
    f := Finding(Inconclusive, NO_METRICS, []);
    if |s| == 0 {
      return;
    }
    var m := ScanSamples(c, s);
    f := f.(metrics := m);
    if m.sampleErrors > |s| / 2 {
      return;
    }
    if m.breachSeconds == 0.0 {
      f := f.(verdict := Pass);
      f := ForceBlindOnConstraintProbeGap(f, c, s);
      return;
    }
    if m.reportedCannot {
      f := f.(verdict := Degraded);
    } else if !m.hubAdopted {
      f := f.(verdict := Fail);
    } else if m.tailClean && m.convergedAt >= 0.0 {
      if m.convergedAt <= CONVERGE_DEADLINE_S {
        f := f.(verdict := Pass);
      } else {
        f := f.(verdict := Degraded);
      }
    } else if m.hubAdopted && !m.hubReacted {
      f := f.(verdict := Fail);
    } else {
      f := f.(verdict := Fail);
    }
    f := ForceBlindOnConstraintProbeGap(f, c, s);
  }

  /** The accept-but-do-not-converge diagnoser re-reads a FAIL or DEGRADED as a question of admission. */
  function ConvergeDiagnosed(c: Constraint, s: seq<Sample>): Finding {
    var f := Diagnosed(c, s);
    if f.verdict == Pass || f.verdict == Inconclusive || f.verdict == Blind then f
    else if f.metrics.reportedCannot || f.verdict == Degraded || f.metrics.converging then f.(verdict := Degraded)
    else f.(verdict := Fail)
  }

  method DiagnoseConverge(c: Constraint, s: seq<Sample>) returns (f: Finding)
    ensures f == ConvergeDiagnosed(c, s)
  {
    f := DiagnoseConstraint(c, s);
    if f.verdict == Pass || f.verdict == Inconclusive || f.verdict == Blind {
      return;
    }
    if f.metrics.reportedCannot {
      f := f.(verdict := Degraded);
      return;
    }
    if f.verdict == Degraded {
      return;
    }
    if f.metrics.converging {
      f := f.(verdict := Degraded);
      return;
    }
    f := f.(verdict := Fail);
  }

  // ---------------------------------------------------------------- the audit on top

  function Audited(f: Finding, c: Constraint, s: seq<Sample>): Finding {
    var audit := Audit(c, s);
    GapGated(f.(violations := audit, verdict := Escalated(f.verdict, audit)), Available(s, BatteryRule()))
  }

  method ApplySafetyAudit(f: Finding, c: Constraint, s: seq<Sample>) returns (g: Finding)
    ensures g == Audited(f, c, s)
  {
    var audit := SafetyAudit(c, s);
    g := f.(violations := audit);
    if |audit| > 0 {
      var nv := EscalateForAudit(f.verdict, audit);
      if nv != f.verdict {
        g := g.(verdict := nv);
      }
    } else {
      assert Escalated(f.verdict, audit) == f.verdict;
    }
    g := ForceBlindOnBatteryProbeGap(g, s);
  }

  /** The verdict a constraint scenario ends with. */
  function FinalVerdict(c: Constraint, s: seq<Sample>): Verdict {
    Audited(Diagnosed(c, s), c, s).verdict
  }
}
