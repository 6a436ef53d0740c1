/**
  Verdicts and invariants judged together.  The header of cmd/dashboard/invariants.go promises that an
  invariant and a verdict never disagree about what a breach is, since both ask the same question of a
  sample.  This module proves what a PASS establishes, and for exactly which sampling times the two agree
  on whether a breach was sustained.
 */
module Agreement {
  import opened Timeline
  import opened Invariants
  import opened Diagnosis

  // ---------------------------------------------------------------- what a PASS means

  /** Some sample shows the hub applying this scenario's own control. */
  ghost predicate EverAdopted(c: Constraint, s: seq<Sample>) {
    exists i :: 0 <= i < |s| && s[i].hubAdopted && c.AdoptedMatches(s[i].adoptedTyp, s[i].adoptedMrid)
  }

  /** The breach was a ramp: not admitted to be unmeetable, adopted, settled in time and held to the end. */
  ghost predicate BoundedRamp(c: Constraint, s: seq<Sample>) {
    !Admitted(s) && EverAdopted(c, s) && TailClean(c, s) && 0.0 <= ConvergedAt(c, s) <= CONVERGE_DEADLINE_S
  }

  /** Every oracle of the audit is quiet, or below the number of samples it escalates on. */
  ghost predicate AuditQuiet(c: Constraint, s: seq<Sample>) {
    && Settled(Collect(s, |s|, ConnectRule())) == []
    && |Settled(Collect(s, |s|, SocRule()))| < AUDIT_ESCALATE_MIN_SAMPLES
    && |Settled(Collect(s, |s|, EvMaxRule()))| < AUDIT_ESCALATE_MIN_SAMPLES
    && |Collect(s, |s|, ExpiredRule())| < AUDIT_ESCALATE_MIN_SAMPLES
    && Hunt(c, s) == []
  }

  lemma AuditKeepsPassExactly(c: Constraint, s: seq<Sample>)
    ensures Escalated(Pass, Audit(c, s)) == Pass <==> AuditQuiet(c, s)
  {
    AuditTally(c, s, InvConnect);
    AuditTally(c, s, InvSoc);
    AuditTally(c, s, InvEvMax);
    AuditTally(c, s, InvExpired);
    AuditTally(c, s, InvHunt);
  }

  /** When the constraint diagnoser itself says PASS. */
  lemma DiagnosedPassExactly(c: Constraint, s: seq<Sample>)
    requires c.IsCap()
    ensures Diagnosed(c, s).verdict == Pass
       <==> s != [] && 2 * CountIf(s, |s|, NoGridRule()) <= |s| && Available(s, JudgeRule(c))
            && (-0.005 < BreachTime(c, s, |s|) < 0.005 || BoundedRamp(c, s))
  {
    Round2IsZero(BreachTime(c, s, |s|));
    CountIfPositive(s, |s|, AdoptRule(c));
    assert EverAdopted(c, s) <==> CountIf(s, |s|, AdoptRule(c)) > 0;
  }

  /** The window can be judged: it was sampled, and at least half of it with the grid meter answering. */
  predicate Judgeable(s: seq<Sample>) {
    s != [] && 2 * CountIf(s, |s|, NoGridRule()) <= |s|
  }

  /** The time in breach rounds to nothing. */
  predicate Negligible(c: Constraint, s: seq<Sample>) {
    -0.005 < BreachTime(c, s, |s|) < 0.005
  }

  /** The hub adopted the control, and the output settled and held to the end. */
  ghost predicate SettledIn(c: Constraint, s: seq<Sample>) {
    EverAdopted(c, s) && TailClean(c, s) && ConvergedAt(c, s) >= 0.0
  }

  /**
    Every verdict of the constraint diagnoser, in terms of the window.  INCONCLUSIVE: it could not be judged.
    PASS and BLIND: the breach was negligible or a bounded ramp, and the judging sensor decides between
    them.  DEGRADED: a breach that was admitted, or settled late.  FAIL: one that was neither admitted nor
    followed by an adopted control that settled.
   */
  lemma DiagnosedExactly(c: Constraint, s: seq<Sample>)
    requires c.IsCap()
    ensures var v := Diagnosed(c, s).verdict;
            && (v == Inconclusive <==> !Judgeable(s))
            && (v == Pass <==> Judgeable(s) && (Negligible(c, s) || BoundedRamp(c, s)) && Available(s, JudgeRule(c)))
            && (v == Blind <==> Judgeable(s) && (Negligible(c, s) || BoundedRamp(c, s)) && !Available(s, JudgeRule(c)))
            && (v == Degraded <==> Judgeable(s) && !Negligible(c, s)
                                   && (Admitted(s) || (SettledIn(c, s) && ConvergedAt(c, s) > 30.0)))
            && (v == Fail <==> Judgeable(s) && !Negligible(c, s) && !Admitted(s) && !SettledIn(c, s))
  {
    Round2IsZero(BreachTime(c, s, |s|));
    CountIfPositive(s, |s|, AdoptRule(c));
    assert EverAdopted(c, s) <==> CountIf(s, |s|, AdoptRule(c)) > 0;
  }

  /** Every verdict of the accept-but-do-not-converge diagnoser: only a FAIL that is still slewing is eased. */
  lemma ConvergeDiagnosedExactly(c: Constraint, s: seq<Sample>)
    requires c.IsCap()
    ensures var v := ConvergeDiagnosed(c, s).verdict;
            && (v == Fail <==> Judgeable(s) && !Negligible(c, s) && !Admitted(s) && !SettledIn(c, s) && !Converging(c, s))
            && (v == Degraded <==> Judgeable(s) && !Negligible(c, s)
                                   && (Admitted(s) || (SettledIn(c, s) && ConvergedAt(c, s) > 30.0) || (!SettledIn(c, s) && Converging(c, s))))
            && (v in {Pass, Blind, Inconclusive} ==> v == Diagnosed(c, s).verdict)
  {
    DiagnosedExactly(c, s);
    DiagnosedMetrics(c, s);
    hide Diagnosed, Judgeable, Negligible, SettledIn, BoundedRamp, Available, Converging, Admitted;
  }

  lemma DiagnosedMetrics(c: Constraint, s: seq<Sample>)
    ensures var f := Diagnosed(c, s);
            f.verdict in {Degraded, Fail} ==> f.metrics.reportedCannot == Admitted(s) && f.metrics.converging == Converging(c, s)
    ensures Diagnosed(c, s).verdict in {Pass, Degraded, Fail, Blind, Inconclusive}
  {
  }

  /** A control with another identity than the scenario's own, where both have one, or of another type, where one has none. */
  predicate Foreign(c: Constraint, typ: CapTyp, mrid: string) {
    if c.mrid != "" && mrid != "" then mrid != c.mrid else typ != c.typ
  }

  /** A hub that only ever applied foreign controls fails an unadmitted breach, whatever they looked like. */
  lemma ForeignControlIsNoAdoption(c: Constraint, s: seq<Sample>)
    requires c.IsCap() && Judgeable(s) && !Negligible(c, s) && !Admitted(s)
    requires forall i :: 0 <= i < |s| && s[i].hubAdopted ==> Foreign(c, s[i].adoptedTyp, s[i].adoptedMrid)
    ensures Diagnosed(c, s).verdict == Fail && !Diagnosed(c, s).metrics.hubAdopted
  {
    hide Judgeable, Negligible, Admitted;
    DiagnosedExactly(c, s);
    CountIfPositive(s, |s|, AdoptRule(c));
  }

  /** ... and one sample with a control that is not foreign is adoption. */
  lemma OwnControlIsAdoption(c: Constraint, s: seq<Sample>, i: nat)
    requires i < |s| && s[i].hubAdopted && !Foreign(c, s[i].adoptedTyp, s[i].adoptedMrid)
    ensures Scan(c, s).hubAdopted && EverAdopted(c, s)
  {
    CountIfPositive(s, |s|, AdoptRule(c));
  }

  /** When the audit and the battery gate let a PASS stand. */
  lemma AuditedPassExactly(f: Finding, c: Constraint, s: seq<Sample>)
    ensures Audited(f, c, s).verdict == Pass
       <==> f.verdict == Pass && AuditQuiet(c, s) && Available(s, BatteryRule())
  {
    AuditKeepsPassExactly(c, s);
  }

  /**
    The verdict chain end to end.  A cap scenario ends PASS exactly when it was sampled, both judging
    sensors answered on at least 80% of the window, the time in breach rounds to nothing or the breach
    was a bounded ramp, and the audit is quiet.
   */
  lemma PassExactly(c: Constraint, s: seq<Sample>)
    requires c.IsCap()
    ensures FinalVerdict(c, s) == Pass
       <==> s != [] && 2 * CountIf(s, |s|, NoGridRule()) <= |s|
            && Available(s, JudgeRule(c)) && Available(s, BatteryRule())
            && (-0.005 < BreachTime(c, s, |s|) < 0.005 || BoundedRamp(c, s))
            && AuditQuiet(c, s)
  {
    DiagnosedPassExactly(c, s);
    AuditedPassExactly(Diagnosed(c, s), c, s);
  }

  function BothRule(c: Constraint): Sample -> bool {
    (s: Sample) => JudgedBy(c, s) && s.batterySimOk
  }

  /** Two sensors that each answered on 80% of a window answered together on 60% of it, so a PASS was read through both. */
  lemma PassWasWatched(c: Constraint, s: seq<Sample>)
    requires Available(s, JudgeRule(c)) && Available(s, BatteryRule())
    ensures 5 * CountIf(s, |s|, BothRule(c)) >= 3 * |s| > 0
  {
    CountBoth(s, |s|, JudgeRule(c), BatteryRule(), BothRule(c));
  }

  // ---------------------------------------------------------------- when verdict and invariant agree

  function Stamps(s: seq<Sample>): (ts: seq<real>)
    ensures |ts| == |s|
    ensures forall i :: 0 <= i < |s| ==> ts[i] == s[i].t
  {
    seq(|s|, i requires 0 <= i < |s| => s[i].t)
  }

  predicate OrderedStamps(ts: seq<real>) {
    forall i, j :: 0 <= i < j < |ts| ==> ts[i] <= ts[j]
  }

  /** The window opens before the deadline, and every later sample is at least half a hundredth of a second after the one before it. */
  predicate WellSpaced(ts: seq<real>) {
    forall i :: 0 <= i < |ts| && ts[i] > CONVERGE_DEADLINE_S ==> i > 0 && ts[i] - ts[i - 1] >= 0.005
  }

  lemma {:induction false} BreachTimeCovers(c: Constraint, s: seq<Sample>, n: nat, i: nat)
    requires Ordered(s)
    requires i < n <= |s|
    ensures BreachTime(c, s, n) >= 0.0
    ensures i > 0 && Breaches(c, s[i]) ==> BreachTime(c, s, n) >= s[i].t - s[i - 1].t
  {
    if n > 1 {
      BreachTimeCovers(c, s, n - 1, if i < n - 1 then i else 0);
    }
  }

  /** On well-spaced samples a PASS leaves no sustained breach behind. */
  lemma PassMeansNoExportViolation(c: Constraint, s: seq<Sample>)
    requires c.IsCap() && Ordered(s) && WellSpaced(Stamps(s))
    requires Diagnosed(c, s).verdict == Pass
    ensures Export(c, s) == []
  {
    DiagnosedPassExactly(c, s);
    if -0.005 < BreachTime(c, s, |s|) < 0.005 {
      forall i | 0 <= i < |s|
        ensures ExportRule(c)(s[i]) == []
      {
        BreachTimeCovers(c, s, |s|, i);
        assert Stamps(s)[i] == s[i].t;
      }
      CollectEmpty(s, |s|, ExportRule(c));
    } else {
      SettledMeansNoExportViolation(c, s);
    }
  }

  /** A sample with every sensor answering, `over` W past the cap, and nothing else of note. */
  function Plain(c: Constraint, t: real, over: real): (s: Sample)
    ensures s.t == t && s.gridOk && s.solarOk && s.batterySimOk
    ensures c.IsCap() ==> BreachOver(c, s) == over
  {
    var edge := c.limW + COMPLIANCE_TOL_W + over;
    Sample(t, if c.typ.ExportCap? then -edge else edge, true, edge, edge, true, 0.0, 0.0, 50.0, true, 0.0, 0.0,
           false, false, NoCap, "", 0, 0, 0, false)
  }

  /** On the cap at every sample but the k-th, which is 1 W over it. */
  function Spike(c: Constraint, ts: seq<real>, k: nat): (s: seq<Sample>)
    ensures |s| == |ts|
    ensures forall i :: 0 <= i < |ts| ==> s[i] == Plain(c, ts[i], if i == k then 1.0 else 0.0)
    ensures Stamps(s) == ts
  {
    seq(|ts|, i requires 0 <= i < |ts| => Plain(c, ts[i], if i == k then 1.0 else 0.0))
  }

  lemma {:induction false} SpikeBreachTime(c: Constraint, s: seq<Sample>, n: nat, k: nat)
    requires c.IsCap() && n <= |s|
    requires forall i :: 0 <= i < |s| ==> (Breaches(c, s[i]) <==> i == k)
    ensures BreachTime(c, s, n) == if 0 < k < n then s[k].t - s[k - 1].t else 0.0
  {
    if n > 1 {
      SpikeBreachTime(c, s, n - 1, k);
    }
  }

  lemma {:induction false} NeverRecoveredNeverHunts(c: Constraint, s: seq<Sample>, n: nat)
    requires n <= |s| && forall i :: 0 <= i < n ==> BreachOver(c, s[i]) >= 0.0
    ensures HuntRun(c, s, n) == Hunter(false, [])
  {
    if n > 0 {
      NeverRecoveredNeverHunts(c, s, n - 1);
    }
  }

  /** No per-sample rule of the audit sees anything in a plain sample. */
  lemma PlainIsQuiet(c: Constraint, t: real, over: real)
    ensures var x := Plain(c, t, over);
            ConnectRule()(x) == [] && SocRule()(x) == [] && EvMaxRule()(x) == [] && ExpiredRule()(x) == []
  {
  }

  lemma NothingCollected(c: Constraint, ts: seq<real>, k: nat, rule: Rule)
    requires forall t, over :: rule(Plain(c, t, over)) == []
    ensures Collect(Spike(c, ts, k), |ts|, rule) == []
  {
    hide Plain;
    CollectEmpty(Spike(c, ts, k), |ts|, rule);
  }

  /** No rule of the audit sees anything in a spike. */
  lemma SpikeIsQuiet(c: Constraint, ts: seq<real>, k: nat)
    requires c.IsCap()
    ensures AuditQuiet(c, Spike(c, ts, k))
  {
    hide Plain, ConnectRule, SocRule, EvMaxRule, ExpiredRule, Spike;
    forall t, over
      ensures var x := Plain(c, t, over);
              ConnectRule()(x) == [] && SocRule()(x) == [] && EvMaxRule()(x) == [] && ExpiredRule()(x) == []
    {
      PlainIsQuiet(c, t, over);
    }
    NothingCollected(c, ts, k, ConnectRule());
    NothingCollected(c, ts, k, SocRule());
    NothingCollected(c, ts, k, EvMaxRule());
    NothingCollected(c, ts, k, ExpiredRule());
    NeverRecoveredNeverHunts(c, Spike(c, ts, k), |ts|);
  }

  lemma SpikeIsWatched(c: Constraint, ts: seq<real>, k: nat)
    requires c.IsCap() && ts != []
    ensures Available(Spike(c, ts, k), JudgeRule(c)) && Available(Spike(c, ts, k), BatteryRule())
    ensures CountIf(Spike(c, ts, k), |ts|, NoGridRule()) == 0
  {
    var s := Spike(c, ts, k);
    CountIfAll(s, |s|, JudgeRule(c));
    CountIfAll(s, |s|, BatteryRule());
    CountIfPositive(s, |s|, NoGridRule());
  }

  /** A late spike whose gap rounds away is a PASS with a sustained-breach violation. */
  lemma SpikeIsPassedOver(c: Constraint, ts: seq<real>, k: nat)
    requires c.IsCap() && OrderedStamps(ts)
    requires k < |ts| && ts[k] > CONVERGE_DEADLINE_S
    requires k == 0 || ts[k] - ts[k - 1] < 0.005
    ensures FinalVerdict(c, Spike(c, ts, k)) == Pass
    ensures Export(c, Spike(c, ts, k)) != []
  {
    var s := Spike(c, ts, k);
    assert FinalVerdict(c, s) == Pass by {
      assert -0.005 < BreachTime(c, s, |s|) < 0.005 by {
        SpikeBreachTime(c, s, |s|, k);
      }
      SpikeIsQuiet(c, ts, k);
      SpikeIsWatched(c, ts, k);
      PassExactly(c, s);
    }
    assert ExportRule(c)(s[k]) != [];
    CollectEmpty(s, |s|, ExportRule(c));
  }

  /** On well-spaced times a final PASS leaves no sustained breach. */
  lemma FinalPassMeansNoExportViolation(c: Constraint, ts: seq<real>, s: seq<Sample>)
    requires c.IsCap() && OrderedStamps(ts) && WellSpaced(ts) && Stamps(s) == ts && FinalVerdict(c, s) == Pass
    ensures Export(c, s) == []
  {
    hide Diagnosed, Audited, Export, AuditQuiet, WellSpaced;
    assert Ordered(s) by {
      forall i, j | 0 <= i < j < |s|
        ensures s[i].t <= s[j].t
      {
        assert Stamps(s)[i] <= Stamps(s)[j];
      }
    }
    AuditedPassExactly(Diagnosed(c, s), c, s);
    PassMeansNoExportViolation(c, s);
  }

  /**
    Main result.  Over all timelines with the given sampling times, "the chain ends PASS" implies "no
    sustained breach" if and only if the times are well spaced.
   */
  lemma VerdictAndInvariantAgreeExactly(c: Constraint, ts: seq<real>)
    requires c.IsCap() && OrderedStamps(ts)
    ensures WellSpaced(ts)
       <==> forall s: seq<Sample> :: Stamps(s) == ts && FinalVerdict(c, s) == Pass ==> Export(c, s) == []
  {
    hide FinalVerdict, Export, Spike, Stamps, OrderedStamps;
    if WellSpaced(ts) {
      forall s: seq<Sample> | Stamps(s) == ts && FinalVerdict(c, s) == Pass
        ensures Export(c, s) == []
      {
        FinalPassMeansNoExportViolation(c, ts, s);
      }
    } else {
      var k :| 0 <= k < |ts| && ts[k] > CONVERGE_DEADLINE_S && !(k > 0 && ts[k] - ts[k - 1] >= 0.005);
      SpikeIsPassedOver(c, ts, k);
      assert Stamps(Spike(c, ts, k)) == ts;
    }
  }

  /** The shortest interval (s) the driver samples at; a shorter request gets the default. */
  const MIN_INTERVAL_S: real := 0.2

  /** The times samples are taken: the first after one interval, each later one at least an interval after. */
  predicate Sampled(elapsed: seq<real>) {
    && (elapsed != [] ==> elapsed[0] >= MIN_INTERVAL_S)
    && forall i :: 0 < i < |elapsed| ==> elapsed[i] - elapsed[i - 1] >= MIN_INTERVAL_S
  }

  /** What the samples are stamped with. */
  function Stamped(elapsed: seq<real>): (ts: seq<real>)
    ensures |ts| == |elapsed|
    ensures forall i :: 0 <= i < |ts| ==> ts[i] == Round2(elapsed[i])
  {
    seq(|elapsed|, i requires 0 <= i < |elapsed| => Round2(elapsed[i]))
  }

  lemma {:induction false} SampledIsPositive(elapsed: seq<real>, i: nat)
    requires Sampled(elapsed) && i < |elapsed|
    ensures elapsed[i] >= MIN_INTERVAL_S
  {
    if i > 0 {
      SampledIsPositive(elapsed, i - 1);
    }
  }

  /** Stamps increase by at least a hundredth less than the shortest interval. */
  lemma StampsIncrease(elapsed: seq<real>, i: nat)
    requires Sampled(elapsed) && 0 < i < |elapsed|
    ensures Stamped(elapsed)[i] - Stamped(elapsed)[i - 1] >= MIN_INTERVAL_S - 0.01
  {
    SampledIsPositive(elapsed, i);
    SampledIsPositive(elapsed, i - 1);
    Round2IsClose(elapsed[i]);
    Round2IsClose(elapsed[i - 1]);
    hide Round2;
    assert elapsed[i] - elapsed[i - 1] >= MIN_INTERVAL_S;
  }

  lemma {:induction false} StampsAreOrdered(elapsed: seq<real>, i: nat, j: nat)
    requires Sampled(elapsed) && i <= j < |elapsed|
    ensures Stamped(elapsed)[i] <= Stamped(elapsed)[j]
  {
    if i < j {
      StampsAreOrdered(elapsed, i, j - 1);
      StampsIncrease(elapsed, j);
    }
  }

  /** The driver's stamps are in order, and well spaced but for a late first one. */
  lemma DriverStampsAreSpaced(elapsed: seq<real>)
    requires Sampled(elapsed)
    ensures OrderedStamps(Stamped(elapsed))
    ensures WellSpaced(Stamped(elapsed)) <==> elapsed == [] || Stamped(elapsed)[0] <= CONVERGE_DEADLINE_S
  {
    var ts := Stamped(elapsed);
    hide Stamped;
    forall i, j | 0 <= i < j < |ts|
      ensures ts[i] <= ts[j]
    {
      StampsAreOrdered(elapsed, i, j);
    }
    forall i | 0 < i < |ts|
      ensures ts[i] - ts[i - 1] >= 0.005
    {
      StampsIncrease(elapsed, i);
    }
  }

  /**
    On the driver's own clock, which never samples twice within a fifth of a second, verdict and invariant
    agree exactly when the first sample is stamped by the settling deadline, or there is none.
   */
  lemma AgreementOnTheDriversClock(c: Constraint, elapsed: seq<real>)
    requires c.IsCap() && Sampled(elapsed)
    ensures elapsed == [] || Stamped(elapsed)[0] <= CONVERGE_DEADLINE_S
       <==> forall s: seq<Sample> :: Stamps(s) == Stamped(elapsed) && FinalVerdict(c, s) == Pass ==> Export(c, s) == []
  {
    hide FinalVerdict, Export, Stamped, Stamps, WellSpaced, OrderedStamps;
    DriverStampsAreSpaced(elapsed);
    VerdictAndInvariantAgreeExactly(c, Stamped(elapsed));
  }

  /** The converge diagnoser re-reads no verdict into a PASS or out of one. */
  lemma ConvergePassIsPass(c: Constraint, s: seq<Sample>)
    ensures ConvergeDiagnosed(c, s).verdict == Pass <==> Diagnosed(c, s).verdict == Pass
  {
  }

  lemma RelabelledEmpty(c: Constraint, s: seq<Sample>)
    ensures Export(c, s) == [] ==> Converge(c, s) == []
    ensures !Admitted(s) && Export(c, s) != [] ==> Converge(c, s) != []
  {
    hide Export;
  }

  /** On well-spaced times a PASS of the converge diagnoser is silence of its oracle. */
  lemma ConvergePassMeansSilence(c: Constraint, ts: seq<real>, s: seq<Sample>)
    requires c.IsCap() && OrderedStamps(ts) && WellSpaced(ts) && Stamps(s) == ts && ConvergeDiagnosed(c, s).verdict == Pass
    ensures Converge(c, s) == []
  {
    hide Diagnosed, ConvergeDiagnosed, Export, Converge, WellSpaced;
    assert Ordered(s) by {
      forall i, j | 0 <= i < j < |s|
        ensures s[i].t <= s[j].t
      {
        assert Stamps(s)[i] <= Stamps(s)[j];
      }
    }
    ConvergePassIsPass(c, s);
    PassMeansNoExportViolation(c, s);
    RelabelledEmpty(c, s);
  }

  /** A spike that is passed over is passed over by the converge diagnoser too, and nobody admits to it. */
  lemma SpikeConvergesToo(c: Constraint, ts: seq<real>, k: nat)
    requires FinalVerdict(c, Spike(c, ts, k)) == Pass && Export(c, Spike(c, ts, k)) != []
    ensures ConvergeDiagnosed(c, Spike(c, ts, k)).verdict == Pass && Converge(c, Spike(c, ts, k)) != []
  {
    var s := Spike(c, ts, k);
    assert !Admitted(s);
    hide Diagnosed, ConvergeDiagnosed, Export, Converge, Spike, AuditQuiet, Audited, Admitted;
    AuditedPassExactly(Diagnosed(c, s), c, s);
    ConvergePassIsPass(c, s);
    RelabelledEmpty(c, s);
  }

  /**
    The converge oracle and its diagnoser: over all timelines with the given sampling times, a PASS of the
    one is silence of the other if and only if the times are well spaced.
   */
  lemma ConvergeVerdictAgreesExactly(c: Constraint, ts: seq<real>)
    requires c.IsCap() && OrderedStamps(ts)
    ensures WellSpaced(ts)
       <==> forall s: seq<Sample> :: Stamps(s) == ts && ConvergeDiagnosed(c, s).verdict == Pass ==> Converge(c, s) == []
  {
    hide FinalVerdict, Export, Converge, ConvergeDiagnosed, Spike, Stamps, OrderedStamps;
    if WellSpaced(ts) {
      forall s: seq<Sample> | Stamps(s) == ts && ConvergeDiagnosed(c, s).verdict == Pass
        ensures Converge(c, s) == []
      {
        ConvergePassMeansSilence(c, ts, s);
      }
    } else {
      var k :| 0 <= k < |ts| && ts[k] > CONVERGE_DEADLINE_S && !(k > 0 && ts[k] - ts[k - 1] >= 0.005);
      SpikeIsPassedOver(c, ts, k);
      SpikeConvergesToo(c, ts, k);
      assert Stamps(Spike(c, ts, k)) == ts;
    }
  }

  /** An admission clears both, on any timeline. */
  lemma AdmissionClearsBoth(c: Constraint, s: seq<Sample>)
    requires Admitted(s)
    ensures Converge(c, s) == [] && ConvergeDiagnosed(c, s).verdict != Fail
  {
  }
}
