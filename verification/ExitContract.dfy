/**
  The headless runner's exit code (scripts/mayhem.py) over every status a run can show.
 */
module ExitContract {
  import opened Invariants
  import Diagnosis
  import opened RunLoop

  /** 1 for a failed or blind hub, 2 for a run that did not complete or whose bench broke, 3 for an unjudged scenario. */
  function ExitCode(st: Status, allowInconclusive: bool): int {
    var b := st.summary.buckets;
    if b.fail + b.blind != 0 then 1
    else if !(st.finished && st.total > 0 && |st.findings| >= st.total) then 2
    else if b.infra != 0 then 2
    else if b.inconclusive != 0 && !allowInconclusive then 3
    else 0
  }

  /** Some finding is counted under this verdict. */
  ghost predicate Some(rows: seq<Row>, v: Verdict) {
    exists i :: 0 <= i < |rows| && BucketOf(rows[i].f.verdict) == v
  }

  lemma {:induction false} NumberPositive(rows: seq<Row>, n: nat, v: Verdict)
    requires n <= |rows|
    ensures Number(rows, n, v) > 0 <==> exists i :: 0 <= i < n && BucketOf(rows[i].f.verdict) == v
  {
    if n > 0 {
      NumberPositive(rows, n - 1, v);
    }
  }

  /** Every finding is in exactly one bucket. */
  lemma {:induction false} NumbersAddUp(rows: seq<Row>, n: nat)
    requires n <= |rows|
    ensures Number(rows, n, Pass) + Number(rows, n, Degraded) + Number(rows, n, Fail) + Number(rows, n, Blind)
            + Number(rows, n, Inconclusive) + Number(rows, n, Infra) + Number(rows, n, NotApplicable) == n
  {
    if n > 0 {
      NumbersAddUp(rows, n - 1);
    }
  }

  /** In every visible status the buckets sum to the findings, and the findings follow the scenario order. */
  lemma SnapshotAddsUp(st: Status, order: seq<string>)
    requires Accounted(st, order)
    ensures st.summary.buckets.Sum() == |st.findings| <= st.total
    ensures forall i :: 0 <= i < |st.findings| ==> st.findings[i].id == order[i]
  {
    NumbersAddUp(st.findings, |st.findings|);
  }

  /** The verdicts a clean run may end with. */
  predicate Clean(v: Verdict) {
    v == Pass || v == Degraded || v == NotApplicable
  }

  /**
    Main result: the exit contract.  Over every status a run can show, the code is 1 exactly when a hub
    verdict is FAIL or BLIND; 0 exactly when the run finished and nothing is left to explain; an
    incomplete run never looks like success, with or without the override.
   */
  lemma ExitCodeContract(st: Status, order: seq<string>)
    requires Accounted(st, order)
    ensures ExitCode(st, false) in {0, 1, 2, 3}
    ensures ExitCode(st, false) == 1 <==> Some(st.findings, Fail) || Some(st.findings, Blind)
    ensures ExitCode(st, false) == 0 <==> st.finished && forall i :: 0 <= i < |st.findings| ==> Clean(st.findings[i].f.verdict)
    ensures ExitCode(st, false) == 3
       <==> st.finished && !Some(st.findings, Fail) && !Some(st.findings, Blind) && !Some(st.findings, Infra)
            && Some(st.findings, Inconclusive)
    ensures ExitCode(st, true) == if ExitCode(st, false) == 3 then 0 else ExitCode(st, false)
    ensures !st.finished ==> ExitCode(st, true) in {1, 2}
  {
    var rows := st.findings;
    NumberPositive(rows, |rows|, Fail);
    NumberPositive(rows, |rows|, Blind);
    NumberPositive(rows, |rows|, Infra);
    NumberPositive(rows, |rows|, Inconclusive);
    assert forall i :: 0 <= i < |rows| ==>
      (Clean(rows[i].f.verdict) <==> BucketOf(rows[i].f.verdict) !in {Fail, Blind, Infra, Inconclusive});
  }

  /** A run ended by a panic, at any moment, never looks like success: 1 if the hub had already failed, 2 otherwise. */
  lemma PanicIsNeverSuccess(st: Status, order: seq<string>, what: string, allowInconclusive: bool)
    requires Accounted(st, order)
    ensures ExitCode(Recovered(st, what), allowInconclusive)
         == if Some(st.findings, Fail) || Some(st.findings, Blind) then 1 else 2
  {
    PanicKeepsAccounted(st, order, what);
    ExitCodeContract(Recovered(st, what), order);
  }

  /**
    What success says about the bench: in a finished run that exits 0 every applicable scenario found it
    healthy, was armed, was sampled in full, and left it healthy.
   */
  lemma SuccessMeansHealthyBench(st: Status, order: seq<string>, held: seq<Held>, bench: Bench, scenarios: seq<Scenario>, sampleMs: nat)
    requires sampleMs > 0 && Accounted(st, order) && st.finished
    requires |st.findings| == |held| == |scenarios|
    requires forall k :: 0 <= k < |scenarios| ==> Grounded(st.findings[k].f, held[k], bench, scenarios[k], k)
    requires forall k :: 0 <= k < |scenarios| ==> Finalised(st.findings[k].f, held[k], bench, scenarios[k], k, sampleMs)
    ensures ExitCode(st, false) == 0 ==>
              forall k :: 0 <= k < |scenarios| && !scenarios[k].notApplicable ==>
                && bench.healthyBefore(k) && !bench.setup(k).SetupFailed? && bench.healthyAfter(k)
                && held[k].sampled == held[k].planned >= 1
    ensures ExitCode(st, true) == 0 ==>
              forall k :: 0 <= k < |scenarios| && !scenarios[k].notApplicable ==>
                bench.healthyBefore(k) && (bench.setup(k).SetupFailed? || bench.healthyAfter(k))
  {
    hide Diagnosis.Audited, Diagnosis.Diagnosed, Audit, Accounted;
    ExitCodeContract(st, order);
    if ExitCode(st, true) == 0 {
      forall k | 0 <= k < |scenarios|
        ensures st.findings[k].f.verdict != Infra
      {
        assert ExitCode(st, false) in {0, 3};
        assert st.findings[k].f.verdict == Infra ==> BucketOf(st.findings[k].f.verdict) == Infra;
      }
    }
  }
}
