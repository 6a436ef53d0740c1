/**
  What the rules of the verdict engine say about a sample, a window or a verdict, in the fields that are
  measured and the numbers the safety case is written in.
 */
module RuleLaws {
  import opened Timeline
  import opened Invariants
  import opened Diagnosis
  import Hunting

  /** Measured past the cap by more than the 150 W tolerance; an absent sensor shows nothing. */
  predicate Over(c: Constraint, s: Sample, margin: real) {
    || (c.typ == ExportCap && s.gridOk && -s.realGridW - c.limW > 150.0 + margin)
    || (c.typ == ImportCap && s.gridOk && s.realGridW - c.limW > 150.0 + margin)
    || (c.typ == GenLimit && s.solarOk && s.solarW - c.limW > 150.0 + margin)
  }

  /** Measured more than 150 W short of the cap itself, so more than 300 W short of cap and tolerance. */
  predicate Within(c: Constraint, s: Sample) {
    || (c.typ == ExportCap && s.gridOk && -s.realGridW - c.limW < -150.0)
    || (c.typ == ImportCap && s.gridOk && s.realGridW - c.limW < -150.0)
    || (c.typ == GenLimit && s.solarOk && s.solarW - c.limW < -150.0)
  }

  /** A breach is a measurement past cap and tolerance, and its size is how far; a clear recovery is 300 W within them: hysteresis that no absent sensor can cross. */
  lemma BreachIsMeasured(c: Constraint, s: Sample, margin: real)
    ensures Breaches(c, s) <==> Over(c, s, 0.0)
    ensures margin >= 0.0 ==> (BreachOver(c, s) > margin <==> Over(c, s, margin))
    ensures BreachOver(c, s) < -300.0 <==> Within(c, s)
  {
  }

  /** What the hunting oracle counts: clear recoveries and breaches, after 30 s. */
  lemma MarksAreMeasured(c: Constraint, s: Sample)
    ensures Hunting.MarkOf(c, s) == Hunting.Recovery <==> s.t > 30.0 && Within(c, s)
    ensures Hunting.MarkOf(c, s) == Hunting.Breach <==> s.t > 30.0 && Over(c, s, 0.0)
  {
    BreachIsMeasured(c, s, 0.0);
  }

  /** Which sensor each availability count is about. */
  lemma SensorsCounted(c: Constraint, s: Sample)
    ensures NoGridRule()(s) <==> !s.gridOk
    ensures BatteryRule()(s) <==> s.batterySimOk
    ensures JudgeRule(c)(s) <==> if c.typ == GenLimit then s.solarOk else s.gridOk
  {
  }

  // ---------------------------------------------------------------- the per-sample rules

  lemma {:induction false} CollectMembers(s: seq<Sample>, n: nat, rule: Rule, v: Violation)
    requires n <= |s|
    ensures v in Collect(s, n, rule) <==> exists i :: 0 <= i < n && v in rule(s[i])
  {
    if n > 0 {
      CollectMembers(s, n - 1, rule, v);
    }
  }

  /** The SoC oracle flags exactly the samples that discharge above 50 W at 10% or less, or charge so at 95% or more. */
  lemma SocFlagsExactly(s: seq<Sample>, t: real)
    ensures Violation(InvSoc, t) in Collect(s, |s|, SocRule())
       <==> exists i :: 0 <= i < |s| && s[i].t == t && s[i].batterySimOk
                        && ((s[i].batterySimW > 50.0 && s[i].batSimSoc <= 10.0) || (s[i].batterySimW < -50.0 && s[i].batSimSoc >= 95.0))
  {
    CollectMembers(s, |s|, SocRule(), Violation(InvSoc, t));
  }

  /** The back-feed oracle flags exactly the samples with solar seen, or battery, above 250 W during a disconnect. */
  lemma ConnectFlagsExactly(s: seq<Sample>, t: real)
    ensures Violation(InvConnect, t) in Collect(s, |s|, ConnectRule())
       <==> exists i :: 0 <= i < |s| && s[i].t == t && s[i].disconnectActive
                        && ((s[i].solarOk && s[i].solarW > 250.0) || s[i].batteryW > 250.0)
  {
    CollectMembers(s, |s|, ConnectRule(), Violation(InvConnect, t));
    hide Collect;
    forall i | 0 <= i < |s|
      ensures Violation(InvConnect, t) in ConnectRule()(s[i])
         <==> s[i].t == t && s[i].disconnectActive && ((s[i].solarOk && s[i].solarW > 250.0) || s[i].batteryW > 250.0)
    {
      ConnectFlagsSample(s[i], t);
    }
    hide ConnectRule;
  }

  lemma ConnectFlagsSample(x: Sample, t: real)
    ensures Violation(InvConnect, t) in ConnectRule()(x)
       <==> x.t == t && x.disconnectActive && ((x.solarOk && x.solarW > 250.0) || x.batteryW > 250.0)
  {
  }

  /** The stale-control oracle flags exactly the samples whose control has been over for more than 30 s of server time. */
  lemma ExpiredFlagsExactly(s: seq<Sample>, t: real)
    ensures Violation(InvExpired, t) in Collect(s, |s|, ExpiredRule())
       <==> exists i :: 0 <= i < |s| && s[i].t == t && s[i].hubAdopted && s[i].validUntil > 0 && s[i].wallUnix != 0
                        && s[i].wallUnix + s[i].clockOffsetS - s[i].validUntil > 30
  {
    CollectMembers(s, |s|, ExpiredRule(), Violation(InvExpired, t));
  }

  /** The charger oracle flags exactly the samples drawing over 1 A more than a known maximum. */
  lemma EvMaxFlagsExactly(s: seq<Sample>, t: real)
    ensures Violation(InvEvMax, t) in Collect(s, |s|, EvMaxRule())
       <==> exists i :: 0 <= i < |s| && s[i].t == t && s[i].evMaxA > 0.0 && s[i].evCurrentA - s[i].evMaxA > 1.0
  {
    CollectMembers(s, |s|, EvMaxRule(), Violation(InvEvMax, t));
  }

  /** How often `x` occurs among the first `n`. */
  function Occurs(v: seq<Violation>, n: nat, x: Violation): nat
    requires n <= |v|
  {
    if n == 0 then 0 else Occurs(v, n - 1, x) + if v[n - 1] == x then 1 else 0
  }

  lemma {:induction false} OccursReadsPrefix(v: seq<Violation>, more: seq<Violation>, n: nat, x: Violation)
    requires n <= |v|
    ensures Occurs(v + more, n, x) == Occurs(v, n, x)
  {
    if n > 0 {
      OccursReadsPrefix(v, more, n - 1, x);
    }
  }

  lemma OccursInAppend(v: seq<Violation>, y: Violation, x: Violation)
    ensures Occurs(v + [y], |v| + 1, x) == Occurs(v, |v|, x) + if y == x then 1 else 0
  {
    OccursReadsPrefix(v, [y], |v|, x);
  }

  /** `part` holds `x` as often as the first `n` of `v` do, or not at all if it came before settling. */
  predicate KeepsOccurrences(part: seq<Violation>, v: seq<Violation>, n: nat, x: Violation)
    requires n <= |v|
  {
    Occurs(part, |part|, x) == if x.t > 30.0 then Occurs(v, n, x) else 0
  }

  lemma KeepsNothing(v: seq<Violation>, x: Violation)
    ensures KeepsOccurrences(SettledTo(v, 0), v, 0, x)
  {
  }

  lemma KeepsNext(part: seq<Violation>, v: seq<Violation>, n: nat, x: Violation)
    requires n < |v| && KeepsOccurrences(part, v, n, x)
    ensures KeepsOccurrences(if v[n].t > 30.0 then part + [v[n]] else part, v, n + 1, x)
  {
    OccursInAppend(part, v[n], x);
  }

  lemma SettledNext(v: seq<Violation>, n: nat)
    requires n < |v|
    ensures SettledTo(v, n + 1) == if v[n].t > 30.0 then SettledTo(v, n) + [v[n]] else SettledTo(v, n)
  {
  }

  /** Settling keeps every violation after 30 s, as often as it occurs, and no other. */
  lemma {:induction false} SettledKeepsExactly(v: seq<Violation>, n: nat, x: Violation)
    requires n <= |v|
    ensures KeepsOccurrences(SettledTo(v, n), v, n, x)
  {
    hide SettledTo, KeepsOccurrences;
    if n == 0 {
      KeepsNothing(v, x);
    } else {
      SettledKeepsExactly(v, n - 1, x);
      SettledNext(v, n - 1);
      KeepsNext(SettledTo(v, n - 1), v, n - 1, x);
    }
  }

  /** The converge oracle speaks exactly when a sustained breach was never admitted. */
  lemma ConvergeSpeaksExactly(c: Constraint, s: seq<Sample>)
    ensures Converge(c, s) != []
       <==> (exists i :: 0 <= i < |s| && s[i].t > 30.0 && Over(c, s[i], 0.0)) && forall i :: 0 <= i < |s| ==> !s[i].cannotComply
  {
    ExportSilentExactly(c, s);
    assert forall i :: 0 <= i < |s| ==> (Breaches(c, s[i]) <==> Over(c, s[i], 0.0));
  }

  // ---------------------------------------------------------------- escalation

  /** Back-feed at all, or three samples outside the battery's or the charger's limits. */
  predicate Dangerous(audit: seq<Violation>) {
    Count(audit, InvConnect) >= 1 || Count(audit, InvSoc) >= 3 || Count(audit, InvEvMax) >= 3
  }

  /** Three samples on a stale control, or any hunting. */
  predicate Sloppy(audit: seq<Violation>) {
    Count(audit, InvExpired) >= 3 || Count(audit, InvHunt) >= 1
  }

  /** Which audits turn which verdict into what. */
  lemma EscalatesExactly(verdict: Verdict, audit: seq<Violation>)
    ensures verdict in {Pass, Degraded} ==> (Escalated(verdict, audit) == Fail <==> Dangerous(audit))
    ensures verdict == Pass ==> (Escalated(verdict, audit) == Degraded <==> !Dangerous(audit) && Sloppy(audit))
    ensures verdict == Degraded && !Dangerous(audit) ==> Escalated(verdict, audit) == Degraded
    ensures verdict !in {Pass, Degraded} ==> Escalated(verdict, audit) == verdict
  {
  }

  /** What audit and battery gate make of a finding: which verdicts end where. */
  lemma AuditedExactly(f: Finding, c: Constraint, s: seq<Sample>)
    ensures var audit, v, watched := Audit(c, s), Audited(f, c, s).verdict, Available(s, BatteryRule());
            && Audited(f, c, s).violations == audit
            && (v == Fail <==> f.verdict == Fail || (f.verdict in {Pass, Degraded} && Dangerous(audit)))
            && (v == Degraded <==> !Dangerous(audit) && (f.verdict == Degraded || (f.verdict == Pass && Sloppy(audit))))
            && (v == Blind <==> f.verdict == Blind || (f.verdict == Pass && !Dangerous(audit) && !Sloppy(audit) && !watched))
            && (v == Pass <==> f.verdict == Pass && !Dangerous(audit) && !Sloppy(audit) && watched)
            && (f.verdict !in {Pass, Degraded} ==> v == f.verdict)
  {
    hide Audit, Available, Escalated, Dangerous, Sloppy;
    EscalatesExactly(f.verdict, Audit(c, s));
    EscalatedStaysJudged(f.verdict, Audit(c, s));
  }

  lemma EscalatedStaysJudged(verdict: Verdict, audit: seq<Violation>)
    ensures verdict in {Pass, Degraded} ==> Escalated(verdict, audit) in {Pass, Degraded, Fail}
  {
  }

  /** A violation adds one to the count under its own label and nothing to any other. */
  lemma CountOfAppend(v: seq<Violation>, x: Violation, k: Inv)
    ensures Count([], k) == 0 && Count(v + [x], k) == Count(v, k) + if x.inv == k then 1 else 0
  {
    CountConcat(v, [x], k);
  }

  // ---------------------------------------------------------------- metrics

  /** Battery power, from its own simulator if that answers, else as the hub reports it. */
  function BatteryPower(s: Sample): real {
    if s.batterySimOk then s.batterySimW else s.batteryW
  }

  /** A visible reaction: 250 W of solar given up, or of battery power in the direction that helps. */
  lemma ReactionIsVisible(c: Constraint, s: Sample)
    ensures ReactRule(c)(s)
       <==> || (s.solarOk && s.solarPossibleW - s.solarW > 250.0)
            || (c.typ in {ExportCap, GenLimit} && BatteryPower(s) < -250.0)
            || (c.typ in {ImportCap, Fixed} && BatteryPower(s) > 250.0)
  {
  }

  /** What the scan reports: how many samples, how many without the grid, rounded totals, and a reaction on more than a quarter of them. */
  lemma ScanMeans(c: Constraint, s: seq<Sample>)
    ensures var m, n := Scan(c, s), |s|;
            && m.samples == n && m.sampleErrors == CountIf(s, n, NoGridRule())
            && m.breachSeconds == Round2(BreachTime(c, s, n)) && m.peakBreachW == Round2(Peak(c, s, n))
            && (m.hubReacted <==> CountIf(s, n, ReactRule(c)) >= n / 4 + 1)
            && (m.reportedCannot <==> exists i :: 0 <= i < n && s[i].cannotComply)
            && (m.hubAdopted <==> CountIf(s, n, AdoptRule(c)) >= 1) && !m.hubBlind
  {
    hide BreachTime, Peak, Converging, ConvergedAt, TailClean;
  }

  /** Converging: over once at its worst, and by less than half of that, on average, over the last three samples. */
  lemma ConvergingExactly(c: Constraint, s: seq<Sample>)
    ensures Converging(c, s)
       <==> |s| >= 4
            && exists i :: 0 <= i < |s| && BreachOver(c, s[i]) > 0.0 && (forall j :: 0 <= j < |s| ==> BreachOver(c, s[j]) <= BreachOver(c, s[i]))
                           && Positive(BreachOver(c, s[|s| - 3])) + Positive(BreachOver(c, s[|s| - 2])) + Positive(BreachOver(c, s[|s| - 1]))
                              < 1.5 * BreachOver(c, s[i])
  {
    PeakIsWorst(c, s, |s|);
    hide Peak, BreachOver;
    if |s| >= 4 && Peak(c, s, |s|) > 0.0 {
      var i :| 0 <= i < |s| && BreachOver(c, s[i]) == Peak(c, s, |s|);
    }
  }

  function Positive(x: real): real {
    if x > 0.0 then x else 0.0
  }

  /** Time in breach: nothing for a window that never breaches, the whole length of one that always does. */
  lemma {:induction false} BreachTimeExtremes(c: Constraint, s: seq<Sample>, n: nat)
    requires n <= |s|
    ensures (forall i :: 0 <= i < n ==> !Breaches(c, s[i])) ==> BreachTime(c, s, n) == 0.0
    ensures n > 0 && (forall i :: 0 <= i < n ==> Breaches(c, s[i])) ==> BreachTime(c, s, n) == s[n - 1].t - s[0].t
  {
    if n > 1 {
      BreachTimeExtremes(c, s, n - 1);
    }
  }

  /** Two windows that follow each other: the times in breach add up, with the step between counted by the sample it leads to. */
  lemma {:induction false} BreachTimeAdds(c: Constraint, s: seq<Sample>, m: nat, n: nat)
    requires 0 < m <= n <= |s|
    ensures BreachTime(c, s, n) == BreachTime(c, s, m) + BreachTime(c, s[m - 1..], n - m + 1)
  {
    if n > m {
      BreachTimeAdds(c, s, m, n - 1);
    }
  }
}
