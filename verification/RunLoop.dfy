/**
  The Mayhem run loop (cmd/dashboard/mayhem.go): scenarios are run in order, each appends one finding,
  an abort truncates the window under way, and the runner (scripts/mayhem.py) turns the status into an exit code.

  The bench is a record of answers indexed by scenario and tick.  When an abort lands is a number: the
  look at the run context that is the first to see it.  Both are arbitrary, so every bench and every
  moment of abort is covered.
 */
module RunLoop {
  import opened Options
  import opened Timeline
  import opened Invariants
  import opened Diagnosis
  import Hunting

  datatype SetupResult = SetupFailed | NoConstraint | Armed(c: Constraint)

  datatype Evaluator = DefaultOracle | OwnOracle(judge: (Constraint, seq<Sample>) -> Finding)

  datatype Scenario = Scenario(id: string, notApplicable: bool, extended: bool, holdS: nat, evaluate: Evaluator)

  datatype Bench = Bench(
    baseline: Option<string>,
    healthyBefore: nat -> bool,
    setup: nat -> SetupResult,
    sampleAt: (nat, nat) -> Sample,
    healthyAfter: nat -> bool)

  const NO_CONSTRAINT := Constraint(NoCap, 0.0, "")
  const LIVE_MAX := 120

  // ---------------------------------------------------------------- status

  /** One finding as reported, under its scenario's id. */
  datatype Row = Row(id: string, f: Finding)

  /** How many findings there are of each verdict. */
  datatype Buckets = Buckets(pass: nat, degraded: nat, fail: nat, blind: nat, inconclusive: nat, infra: nat, notApplicable: nat)
  {
    function Sum(): nat {
      pass + degraded + fail + blind + inconclusive + infra + notApplicable
    }

    /** One more finding: one bucket grows by one, whatever the verdict says. */
    function Plus(v: Verdict): (b: Buckets)
      ensures b.Sum() == Sum() + 1
    {
      match v
      case Pass => this.(pass := pass + 1)
      case Degraded => this.(degraded := degraded + 1)
      case Fail => this.(fail := fail + 1)
      case Blind => this.(blind := blind + 1)
      case Infra => this.(infra := infra + 1)
      case NotApplicable => this.(notApplicable := notApplicable + 1)
      case _ => this.(inconclusive := inconclusive + 1)
    }
  }

  datatype Summary = Summary(buckets: Buckets, totalBreachS: real, worstPeakW: real)

  const EMPTY_BUCKETS := Buckets(0, 0, 0, 0, 0, 0, 0)
  const EMPTY_SUMMARY := Summary(EMPTY_BUCKETS, 0.0, 0.0)

  datatype Phase = Setup | Hold | Recover | Done

  datatype Status = Status(
    running: bool, finished: bool, aborted: bool, lastError: string,
    idx: nat, total: nat, phase: Phase, current: string, pct: real,
    summary: Summary, findings: seq<Row>, live: seq<Sample>)

  const ZERO_STATUS := Status(false, false, false, "", 0, 0, Setup, "", 0.0, EMPTY_SUMMARY, [], [])

  /** The bucket a verdict is counted in: anything that is not one of the six others is inconclusive. */
  function BucketOf(v: Verdict): Verdict {
    if v.OtherVerdict? then Inconclusive else v
  }

  /** How many of the first `n` findings are counted under a verdict. */
  function Number(rows: seq<Row>, n: nat, v: Verdict): nat
    requires n <= |rows|
  {
    if n == 0 then 0 else Number(rows, n - 1, v) + if BucketOf(rows[n - 1].f.verdict) == v then 1 else 0
  }

  function BucketsOf(rows: seq<Row>): Buckets {
    var n := |rows|;
    Buckets(Number(rows, n, Pass), Number(rows, n, Degraded), Number(rows, n, Fail), Number(rows, n, Blind),
            Number(rows, n, Inconclusive), Number(rows, n, Infra), Number(rows, n, NotApplicable))
  }

  lemma {:induction false} NumberReadsPrefix(rows: seq<Row>, more: seq<Row>, n: nat, v: Verdict)
    requires n <= |rows|
    ensures Number(rows + more, n, v) == Number(rows, n, v)
  {
    if n > 0 {
      NumberReadsPrefix(rows, more, n - 1, v);
    }
  }

  lemma NumberOfAppend(rows: seq<Row>, row: Row, v: Verdict)
    ensures Number(rows + [row], |rows| + 1, v) == Number(rows, |rows|, v) + if BucketOf(row.f.verdict) == v then 1 else 0
  {
    NumberReadsPrefix(rows, [row], |rows|, v);
  }

  /** Counting a new finding in its bucket keeps every bucket the number of findings counted in it. */
  lemma BucketsOfAppend(rows: seq<Row>, row: Row)
    ensures BucketsOf(rows + [row]) == BucketsOf(rows).Plus(row.f.verdict)
  {
    NumberOfAppend(rows, row, Pass);
    NumberOfAppend(rows, row, Degraded);
    NumberOfAppend(rows, row, Fail);
    NumberOfAppend(rows, row, Blind);
    NumberOfAppend(rows, row, Inconclusive);
    NumberOfAppend(rows, row, Infra);
    NumberOfAppend(rows, row, NotApplicable);
  }

  /** What the status page may show at any moment of a run over the scenarios `order`. */
  ghost predicate Accounted(st: Status, order: seq<string>) {
    && st.total == |order|
    && |st.findings| <= |order|
    && (forall i :: 0 <= i < |st.findings| ==> st.findings[i].id == order[i])
    && st.summary.buckets == BucketsOf(st.findings)
    && |st.live| <= LIVE_MAX
    && 0.0 <= st.pct <= 100.0
    && st.idx <= st.total && (st.idx > 0 ==> st.current == order[st.idx - 1])
    && (st.finished ==> !st.running && !st.aborted && |st.findings| == st.total > 0)
  }

  /** Only progress changed between two statuses of a run. */
  predicate SameRun(a: Status, b: Status) {
    a.running == b.running && a.finished == b.finished && a.aborted == b.aborted && a.lastError == b.lastError && a.total == b.total
  }

  /** How far a run is, in percent, when scenario `i` of `total` begins a phase. */
  function PctOf(i: nat, total: nat): real
    requires total > 0
  {
    Round2(i as real / total as real * 100.0)
  }

  /** Progress is a percentage: the scenarios done of those there are, to the nearest hundredth. */
  lemma PctInRange(i: nat, total: nat)
    requires i < total
    ensures 0.0 <= PctOf(i, total) <= 100.0
    ensures -0.005 <= PctOf(i, total) - i as real / total as real * 100.0 <= 0.005
  {
    Round2IsClose(if i as real / total as real * 100.0 >= 0.0 then i as real / total as real * 100.0 else 0.0);
    var f := i as real / total as real;
    QuotientAtLeast(i as real, total as real, 0.0);
    QuotientAtLeast(i as real, total as real, 1.0);
    assert 0.0 <= f < 1.0;
    var w := f * 100.0 * 100.0 + 0.5;
    assert 0.0 <= w.Floor as real <= w < 10001.0;
  }

  // ---------------------------------------------------------------- what a request selects

  const MIN_SAMPLE_MS := 200
  const DEFAULT_SAMPLE_MS := 1000

  /** A start request, already decoded; a seeded suite counts as given. */
  datatype Request = Request(sampleMs: int, only: seq<string>, matrix: bool, chaos: bool, includeExtended: bool)

  datatype Suites = Suites(curated: seq<Scenario>, matrix: seq<Scenario>, chaos: seq<Scenario>)

  datatype Reply = NoMatch | Busy | Started(scenarios: seq<Scenario>, sampleMs: nat)

  function SuiteOf(req: Request, suites: Suites): seq<Scenario> {
    if req.chaos then suites.chaos else if req.matrix then suites.matrix else suites.curated
  }

  /** By name if names are given; otherwise everything but the long ones, unless those are asked for. */
  predicate Wanted(req: Request, sc: Scenario) {
    if req.only != [] then sc.id in req.only else req.includeExtended || !sc.extended
  }

  function Mask(req: Request, suite: seq<Scenario>): (keep: seq<bool>)
    ensures |keep| == |suite|
    ensures forall i :: 0 <= i < |suite| ==> keep[i] == Wanted(req, suite[i])
  {
    seq(|suite|, i requires 0 <= i < |suite| => Wanted(req, suite[i]))
  }

  /** The wanted scenarios among the first `n`, in the order of the suite. */
  function SelectedTo(req: Request, suite: seq<Scenario>, n: nat): seq<Scenario>
    requires n <= |suite|
  {
    Hunting.Kept(suite, Mask(req, suite), n)
  }

  function Selected(req: Request, suites: Suites): seq<Scenario> {
    SelectedTo(req, SuiteOf(req, suites), |SuiteOf(req, suites)|)
  }

  lemma SelectedNext(req: Request, suite: seq<Scenario>, i: nat)
    requires i < |suite|
    ensures SelectedTo(req, suite, i + 1)
         == if Wanted(req, suite[i]) then SelectedTo(req, suite, i) + [suite[i]] else SelectedTo(req, suite, i)
  {
  }

  lemma SelectedNone(req: Request, suite: seq<Scenario>)
    ensures SelectedTo(req, suite, 0) == []
  {
  }

  /** A suite that is wanted in full is selected as it is. */
  lemma {:induction false} AllSelected(req: Request, suite: seq<Scenario>, n: nat)
    requires n <= |suite| && forall i :: 0 <= i < n ==> Wanted(req, suite[i])
    ensures SelectedTo(req, suite, n) == suite[..n]
  {
    hide SelectedTo;
    if n == 0 {
      SelectedNone(req, suite);
    } else {
      AllSelected(req, suite, n - 1);
      SelectedNext(req, suite, n - 1);
      assert suite[..n] == suite[..n - 1] + [suite[n - 1]];
    }
  }

  /** The selection is exactly the wanted part of the suite: nothing else is in it, nothing wanted is missing. */
  lemma {:induction false} SelectedExactly(req: Request, suite: seq<Scenario>, n: nat, sc: Scenario)
    requires n <= |suite|
    ensures sc in SelectedTo(req, suite, n) <==> Wanted(req, sc) && sc in suite[..n]
  {
    hide SelectedTo, Wanted;
    if n == 0 {
      SelectedNone(req, suite);
    } else {
      SelectedNext(req, suite, n - 1);
      SelectedExactly(req, suite, n - 1, sc);
      assert suite[..n] == suite[..n - 1] + [suite[n - 1]];
    }
  }

  method FilterExtended(scenarios: seq<Scenario>, req: Request) returns (out: seq<Scenario>)
    requires req.only == []
    ensures out == SelectedTo(req, scenarios, |scenarios|)
  {
    if req.includeExtended {
      AllSelected(req, scenarios, |scenarios|);
      return scenarios;
    }
    out := [];
    for i := 0 to |scenarios|
      invariant out == SelectedTo(req, scenarios, i)
    {
      SelectedNext(req, scenarios, i);
      if !scenarios[i].extended {
        out := out + [scenarios[i]];
      }
    }
  }

  method FilterOnly(scenarios: seq<Scenario>, req: Request) returns (out: seq<Scenario>)
    requires req.only != []
    ensures out == SelectedTo(req, scenarios, |scenarios|)
  {
    var want: map<string, bool> := map[];
    for i := 0 to |req.only|
      invariant forall id :: id in want <==> id in req.only[..i]
    {
      want := want[req.only[i] := true];
    }
    assert req.only[..|req.only|] == req.only;
    out := [];
    for i := 0 to |scenarios|
      invariant out == SelectedTo(req, scenarios, i)
    {
      SelectedNext(req, scenarios, i);
      if scenarios[i].id in want {
        out := out + [scenarios[i]];
      }
    }
  }

  // ---------------------------------------------------------------- what one scenario amounts to

  function Ticks(sc: Scenario, sampleMs: nat): (n: nat)
    requires sampleMs > 0
    ensures n >= 1
  {
    if sc.holdS * 1000 / sampleMs < 1 then 1 else sc.holdS * 1000 / sampleMs
  }

  /** The first `n` samples of scenario `i`. */
  function Window(bench: Bench, i: nat, n: nat): (w: seq<Sample>)
    ensures |w| == n
    ensures forall k :: 0 <= k < n ==> w[k] == bench.sampleAt(i, k)
  {
    seq(n, k requires 0 <= k < n => bench.sampleAt(i, k))
  }

  function Verdicted(v: Verdict): Finding {
    Finding(v, NO_METRICS, [])
  }

  function ConstraintOf(r: SetupResult): Constraint {
    if r.Armed? then r.c else NO_CONSTRAINT
  }

  function Evaluated(sc: Scenario, c: Constraint, s: seq<Sample>): Finding {
    match sc.evaluate
    case DefaultOracle => Diagnosed(c, s)
    case OwnOracle(judge) => judge(c, s)
  }

  /** The audited judgement of a full window. */
  function Judged(bench: Bench, sc: Scenario, i: nat, sampleMs: nat): Finding
    requires sampleMs > 0
  {
    var c, s := ConstraintOf(bench.setup(i)), Window(bench, i, Ticks(sc, sampleMs));
    Audited(Evaluated(sc, c, s), c, s)
  }

  /** The finding of scenario `i` when no abort touches it. */
  function Completed(bench: Bench, sc: Scenario, i: nat, sampleMs: nat): Finding
    requires sampleMs > 0
  {
    if sc.notApplicable then Verdicted(NotApplicable)
    else if !bench.healthyBefore(i) then Verdicted(Infra)
    else if bench.setup(i).SetupFailed? then Verdicted(Inconclusive)
    else
      var f := Judged(bench, sc, i, sampleMs);
      if bench.healthyAfter(i) then f else f.(verdict := Infra)
  }

  /** Neither the audit nor the probe gate judges a window that was cut short. */
  lemma CutStaysInconclusive(f: Finding, c: Constraint, s: seq<Sample>)
    requires f.verdict == Inconclusive
    ensures Audited(f, c, s).verdict == Inconclusive
  {
  }

  /** How much of a scenario's window was sampled, of how much was planned; nothing of nothing for one that was never held. */
  datatype Held = Held(sampled: nat, planned: nat)

  /** The scenario applies, its bench was found healthy, and its setup went through: it was held. */
  predicate WasHeld(bench: Bench, sc: Scenario, i: nat) {
    !sc.notApplicable && bench.healthyBefore(i) && !bench.setup(i).SetupFailed?
  }

  /**
    What a finding rests on, abort or not.  A scenario that was not held is reported as what kept it from
    being held, and a judgement of the hub by the default oracle has a held scenario and a full window behind it.
   */
  predicate Grounded(f: Finding, h: Held, bench: Bench, sc: Scenario, i: nat) {
    && (sc.notApplicable ==> f.verdict == NotApplicable)
    && (!sc.notApplicable && !bench.healthyBefore(i) ==> f.verdict == Infra)
    && (!sc.notApplicable && bench.healthyBefore(i) && bench.setup(i).SetupFailed? ==> f.verdict == Inconclusive)
    && (WasHeld(bench, sc, i) ==> h.planned >= 1)
    && (sc.evaluate.DefaultOracle? && f.verdict in {Pass, Degraded, Fail, Blind} ==>
          WasHeld(bench, sc, i) && h.sampled == h.planned >= 1)
  }

  /**
    What a held scenario amounts to when no abort is seen: a window as long as planned, and INFRA if the bench
    broke meanwhile, or else the audited verdict of its oracle on exactly that window.
   */
  predicate Finalised(f: Finding, h: Held, bench: Bench, sc: Scenario, i: nat, sampleMs: nat)
    requires sampleMs > 0
  {
    var c := if bench.setup(i).Armed? then bench.setup(i).c else Constraint(NoCap, 0.0, "");
    var s := Window(bench, i, h.sampled);
    var judged := match sc.evaluate case DefaultOracle => Diagnosed(c, s) case OwnOracle(judge) => judge(c, s);
    WasHeld(bench, sc, i) ==>
      && h.sampled == h.planned == (if sc.holdS * 1000 / sampleMs >= 1 then sc.holdS * 1000 / sampleMs else 1)
      && f.verdict == (if bench.healthyAfter(i) then Audited(judged, c, s).verdict else Infra)
      && f.violations == Audit(c, s)
  }

  lemma UnheldIsGrounded(bench: Bench, sc: Scenario, i: nat, sampleMs: nat)
    requires sampleMs > 0 && !WasHeld(bench, sc, i)
    ensures Grounded(Completed(bench, sc, i, sampleMs), Held(0, 0), bench, sc, i)
    ensures Finalised(Completed(bench, sc, i, sampleMs), Held(0, 0), bench, sc, i, sampleMs)
  {
  }

  lemma JudgedIsFinal(f: Finding, bench: Bench, sc: Scenario, i: nat, sampleMs: nat)
    requires sampleMs > 0 && WasHeld(bench, sc, i)
    requires f == if bench.healthyAfter(i) then Judged(bench, sc, i, sampleMs) else Judged(bench, sc, i, sampleMs).(verdict := Infra)
    ensures Finalised(f, Held(Ticks(sc, sampleMs), Ticks(sc, sampleMs)), bench, sc, i, sampleMs)
  {
    hide Diagnosed, Audit, Available, Escalated;
  }

  /** Abort or not, a reported finding is the completed one, or a full window whose closing probe the abort skipped, or INCONCLUSIVE. */
  ghost predicate Honest(row: Row, h: Held, bench: Bench, sc: Scenario, i: nat, sampleMs: nat)
    requires sampleMs > 0
  {
    && row.id == sc.id
    && Grounded(row.f, h, bench, sc, i)
    && (h.sampled < h.planned ==> row.f.verdict == Inconclusive)
    && (row.f == Completed(bench, sc, i, sampleMs) || row.f == Judged(bench, sc, i, sampleMs) || row.f.verdict == Inconclusive)
  }

  /** A run's findings are honest throughout, and the first `n` are what an undisturbed run reports. */
  ghost predicate Report(rows: seq<Row>, held: seq<Held>, n: nat, bench: Bench, scenarios: seq<Scenario>, sampleMs: nat)
    requires sampleMs > 0
  {
    && n <= |rows| == |held| <= |scenarios|
    && (forall k :: 0 <= k < |rows| ==> Honest(rows[k], held[k], bench, scenarios[k], k, sampleMs))
    && (forall k :: 0 <= k < n ==> rows[k].f == Completed(bench, scenarios[k], k, sampleMs)
                                   && Finalised(rows[k].f, held[k], bench, scenarios[k], k, sampleMs))
  }

  lemma ReportExtends(rows: seq<Row>, held: seq<Held>, row: Row, h: Held, bench: Bench, scenarios: seq<Scenario>, sampleMs: nat)
    requires sampleMs > 0 && |rows| < |scenarios|
    requires Report(rows, held, |rows|, bench, scenarios, sampleMs)
    requires Honest(row, h, bench, scenarios[|rows|], |rows|, sampleMs)
    ensures Report(rows + [row], held + [h], |rows|, bench, scenarios, sampleMs)
    ensures row.f == Completed(bench, scenarios[|rows|], |rows|, sampleMs)
            && Finalised(row.f, h, bench, scenarios[|rows|], |rows|, sampleMs) ==>
              Report(rows + [row], held + [h], |rows| + 1, bench, scenarios, sampleMs)
  {
  }

  /** What a request selects: from chaos before matrix before curated, by name if any is given, else all but the long ones unless wanted. */
  lemma SelectionExactly(req: Request, suites: Suites, sc: Scenario)
    ensures sc in Selected(req, suites)
       <==> && sc in (if req.chaos then suites.chaos else if req.matrix then suites.matrix else suites.curated)
            && (if |req.only| > 0 then exists k :: 0 <= k < |req.only| && req.only[k] == sc.id else req.includeExtended || !sc.extended)
  {
    var suite := SuiteOf(req, suites);
    SelectedExactly(req, suite, |suite|, sc);
    assert suite[..|suite|] == suite;
  }

  lemma SelectedOfSuite(req: Request, suites: Suites)
    ensures var suite := SuiteOf(req, suites); Selected(req, suites) == SelectedTo(req, suite, |suite|)
  {
  }

  /** A run that is about to begin is accounted for. */
  lemma AtStart(st: Status, order: seq<string>)
    requires order != [] && st == ZERO_STATUS.(running := true, total := |order|)
    ensures Accounted(st, order)
  {
  }

  /** The status a panic leaves, whatever it showed when the panic struck. */
  function Recovered(st: Status, what: string): Status {
    st.(running := false, finished := false, aborted := true, phase := Done, lastError := "internal panic: " + what)
  }

  /** A panic at any moment of a run leaves a status that is accounted for. */
  lemma PanicKeepsAccounted(st: Status, order: seq<string>, what: string)
    requires Accounted(st, order)
    ensures Accounted(Recovered(st, what), order)
  {
  }

  lemma EmptyReport(bench: Bench, scenarios: seq<Scenario>, sampleMs: nat)
    requires sampleMs > 0
    ensures Report([], [], 0, bench, scenarios, sampleMs)
  {
  }

  lemma ReportMeans(rows: seq<Row>, held: seq<Held>, n: nat, bench: Bench, scenarios: seq<Scenario>, sampleMs: nat)
    requires sampleMs > 0 && Report(rows, held, n, bench, scenarios, sampleMs)
    ensures forall k :: 0 <= k < |rows| ==> Grounded(rows[k].f, held[k], bench, scenarios[k], k)
    ensures forall k :: 0 <= k < n ==> Finalised(rows[k].f, held[k], bench, scenarios[k], k, sampleMs)
  {
    hide Grounded, Finalised;
  }

  /** A report that stands for some rows stands for fewer. */
  lemma ReportStandsForFewer(rows: seq<Row>, held: seq<Held>, n: nat, m: nat, bench: Bench, scenarios: seq<Scenario>, sampleMs: nat)
    requires sampleMs > 0 && Report(rows, held, n, bench, scenarios, sampleMs) && m <= n
    ensures Report(rows, held, m, bench, scenarios, sampleMs)
  {
    hide Grounded, Finalised;
  }

  // ---------------------------------------------------------------- the run context

  /** A cancellable context, looked at now and then; the abort is first seen at look number `cancelAt`, if at all. */
  class Context {
    const cancelAt: int
    var looks: nat

    constructor (cancelAt: int)
      ensures this.cancelAt == cancelAt && looks == 0
    {
      this.cancelAt := cancelAt;
      looks := 0;
    }

    /** Some look has seen the abort. */
    ghost predicate Noticed()
      reads this
    {
      0 <= cancelAt < looks
    }

    method Err() returns (cancelled: bool)
      modifies this
      ensures looks == old(looks) + 1
      ensures cancelled == (0 <= cancelAt <= old(looks))
      ensures cancelled == Noticed()
    {
      cancelled := 0 <= cancelAt <= looks;
      looks := looks + 1;
    }
  }

  // ---------------------------------------------------------------- the driver

  class Driver {
    var status: Status
    ghost var order: seq<string>          // the scenarios of the run, by id
    ghost var snapshots: seq<Status>      // every status that was ever visible in this run
    ghost var held: seq<Held>             // one entry per finding

    ghost predicate Valid()
      reads this
    {
      && snapshots != [] && snapshots[|snapshots| - 1] == status
      && (forall k :: 0 <= k < |snapshots| ==> Accounted(snapshots[k], order))
      && |held| == |status.findings|
    }

    constructor ()
      ensures Valid() && status == ZERO_STATUS
    {
      status, order, snapshots, held := ZERO_STATUS, [], [ZERO_STATUS], [];
    }

    /** Start a run of what the request selects, unless that is nothing or a run is under way. */
    method HandleStart(req: Request, suites: Suites) returns (reply: Reply)
      requires Valid()
      modifies this
      ensures Valid()
      ensures reply == if Selected(req, suites) == [] then NoMatch else if old(status).running then Busy
                       else Started(Selected(req, suites), if req.sampleMs < MIN_SAMPLE_MS then DEFAULT_SAMPLE_MS else req.sampleMs)
      ensures !reply.Started? ==> status == old(status) && snapshots == old(snapshots) && held == old(held) && order == old(order)
      ensures reply.Started? ==> Ready(reply.scenarios) && snapshots == [status]
    {
      hide Selected, SelectedTo, Accounted;
      var sampleMs := req.sampleMs;
      if sampleMs < MIN_SAMPLE_MS {
        sampleMs := DEFAULT_SAMPLE_MS;
      }
      var scenarios := suites.curated;
      if req.chaos {
        scenarios := suites.chaos;
      } else if req.matrix {
        scenarios := suites.matrix;
      }
      if |req.only| > 0 {
        scenarios := FilterOnly(scenarios, req);
      } else {
        scenarios := FilterExtended(scenarios, req);
      }
      assert scenarios == Selected(req, suites) by { SelectedOfSuite(req, suites); }
      if |scenarios| == 0 {
        return NoMatch;
      }
      if status.running {
        return Busy;
      }
      status := ZERO_STATUS.(running := true, total := |scenarios|);
      order := seq(|scenarios|, i requires 0 <= i < |scenarios| => scenarios[i].id);
      snapshots, held := [status], [];
      AtStart(status, order);
      return Started(scenarios, sampleMs);
    }

    /** A run of these scenarios is about to begin. */
    ghost predicate Ready(scenarios: seq<Scenario>)
      reads this
    {
      && scenarios != [] && status == ZERO_STATUS.(running := true, total := |scenarios|)
      && |order| == |scenarios| && forall i :: 0 <= i < |order| ==> order[i] == scenarios[i].id
    }

    method SetPhase(i: nat, id: string, phase: Phase)
      requires Valid() && i < status.total && id == order[i]
      modifies this`status, this`snapshots
      ensures Valid()
      ensures status == old(status).(idx := i + 1, current := id, phase := phase, pct := PctOf(i, old(status).total))
    {
      PctInRange(i, status.total);
      status := status.(idx := i + 1, current := id, phase := phase, pct := PctOf(i, status.total));
      snapshots := snapshots + [status];
    }

    method ClearLive()
      requires Valid()
      modifies this`status, this`snapshots
      ensures Valid()
      ensures status == old(status).(live := [])
    {
      status := status.(live := []);
      snapshots := snapshots + [status];
    }

    method PushLive(s: Sample)
      requires Valid()
      modifies this`status, this`snapshots
      ensures Valid()
      ensures var all := old(status).live + [s];
              status == old(status).(live := if |all| > LIVE_MAX then all[|all| - LIVE_MAX..] else all)
    {
      var live := status.live + [s];
      if |live| > LIVE_MAX {
        live := live[|live| - LIVE_MAX..];
      }
      status := status.(live := live);
      snapshots := snapshots + [status];
    }

    method AppendFinding(row: Row, ghost h: Held)
      requires Valid() && !status.finished
      requires |status.findings| < |order| && row.id == order[|status.findings|]
      modifies this`status, this`snapshots, this`held
      ensures Valid()
      ensures status.findings == old(status).findings + [row]
      ensures held == old(held) + [h]
      ensures status == old(status).(findings := status.findings, summary := status.summary)
      ensures status.summary.buckets == old(status).summary.buckets.Plus(row.f.verdict)
      ensures status.summary.totalBreachS == Round2(old(status).summary.totalBreachS + row.f.metrics.breachSeconds)
      ensures status.summary.worstPeakW >= old(status).summary.worstPeakW
      ensures status.summary.worstPeakW >= row.f.metrics.peakBreachW
      ensures status.summary.worstPeakW in {old(status).summary.worstPeakW, row.f.metrics.peakBreachW}
    {
      BucketsOfAppend(status.findings, row);
      var sum := status.summary;
      sum := sum.(buckets := sum.buckets.Plus(row.f.verdict));
      sum := sum.(totalBreachS := Round2(sum.totalBreachS + row.f.metrics.breachSeconds));
      if row.f.metrics.peakBreachW > sum.worstPeakW {
        sum := sum.(worstPeakW := row.f.metrics.peakBreachW);
      }
      status := status.(findings := status.findings + [row], summary := sum);
      snapshots, held := snapshots + [status], held + [h];
    }

    method Finish(aborted: bool, errMsg: string)
      requires Valid() && status.total > 0
      requires !aborted && errMsg == "" ==> |status.findings| == status.total
      modifies this`status, this`snapshots
      ensures Valid()
      ensures status == old(status).(running := false, finished := !aborted && errMsg == "", aborted := aborted, phase := Done,
                                     pct := 100.0, lastError := if errMsg != "" then errMsg else old(status).lastError)
    {
      status := status.(running := false, finished := !aborted && errMsg == "", aborted := aborted, phase := Done, pct := 100.0);
      if errMsg != "" {
        status := status.(lastError := errMsg);
      }
      snapshots := snapshots + [status];
    }

    /** What a panic that escapes a run leaves behind. */
    method RecoverFromPanic(what: string)
      requires Valid()
      modifies this`status, this`snapshots
      ensures Valid()
      ensures status == Recovered(old(status), what) && snapshots == old(snapshots) + [status]
    {
      PanicKeepsAccounted(status, order, what);
      status := status.(running := false, finished := false, aborted := true, phase := Done, lastError := "internal panic: " + what);
      snapshots := snapshots + [status];
    }

    /** Sample the hold; an abort seen at a tick ends it early. */
    method HoldAndSample(ctx: Context, sc: Scenario, i: nat, bench: Bench, sampleMs: nat) returns (samples: seq<Sample>)
      requires Valid() && sampleMs > 0
      modifies this`status, this`snapshots, ctx
      ensures Valid() && ctx.looks >= old(ctx.looks)
      ensures status == old(status).(live := status.live)
      ensures |samples| <= Ticks(sc, sampleMs) && samples == Window(bench, i, |samples|)
      ensures |samples| < Ticks(sc, sampleMs) ==> ctx.Noticed()
    {
      hide Accounted, Ticks;
      var ticks := Ticks(sc, sampleMs);
      samples := [];
      ClearLive();
      for k := 0 to ticks
        invariant Valid() && ctx.looks >= old(ctx.looks)
        invariant status == old(status).(live := status.live)
        invariant |samples| == k && samples == Window(bench, i, k)
      {
        var done := ctx.Err();
        if done {
          return;
        }
        var s := bench.sampleAt(i, k);
        samples := samples + [s];
        PushLive(s);
      }
    }

    /** Judge a sampled window: the oracle, then INCONCLUSIVE if the abort has been seen, then the audit. */
    method JudgeWindow(ctx: Context, sc: Scenario, i: nat, bench: Bench, sampleMs: nat, samples: seq<Sample>)
        returns (f: Finding, cut: bool)
      requires sampleMs > 0
      requires |samples| <= Ticks(sc, sampleMs) && samples == Window(bench, i, |samples|)
      requires |samples| < Ticks(sc, sampleMs) ==> ctx.Noticed()
      modifies ctx
      ensures ctx.looks >= old(ctx.looks) && cut == ctx.Noticed()
      ensures if cut then f.verdict == Inconclusive else f == Judged(bench, sc, i, sampleMs)
      ensures |samples| < Ticks(sc, sampleMs) ==> cut
    {
      hide Audit, Escalated, GapGated, Available, Diagnosed;
      var cons := ConstraintOf(bench.setup(i));
      f := Evaluated(sc, cons, samples);
      cut := ctx.Err();
      if cut {
        f := f.(verdict := Inconclusive);
        CutStaysInconclusive(f, cons, samples);
      }
      f := ApplySafetyAudit(f, cons, samples);
    }

    /** The finding to report; a bench that broke meanwhile makes it INFRA, which is only probed while no abort has been seen. */
    method Conclude(ctx: Context, sc: Scenario, i: nat, bench: Bench, sampleMs: nat, samples: seq<Sample>) returns (f: Finding)
      requires sampleMs > 0
      requires |samples| <= Ticks(sc, sampleMs) && samples == Window(bench, i, |samples|)
      requires |samples| < Ticks(sc, sampleMs) ==> ctx.Noticed()
      requires !sc.notApplicable && bench.healthyBefore(i) && !bench.setup(i).SetupFailed?
      modifies ctx
      ensures ctx.looks >= old(ctx.looks)
      ensures Honest(Row(sc.id, f), Held(|samples|, Ticks(sc, sampleMs)), bench, sc, i, sampleMs)
      ensures !ctx.Noticed() ==> f == Completed(bench, sc, i, sampleMs)
      ensures !ctx.Noticed() ==> Finalised(f, Held(|samples|, Ticks(sc, sampleMs)), bench, sc, i, sampleMs)
    {
      var cut;
      hide Finalised, Judged, Ticks, Window;
      f, cut := JudgeWindow(ctx, sc, i, bench, sampleMs, samples);
      var skipProbe := ctx.Err();
      if !skipProbe {
        if !bench.healthyAfter(i) {
          f := f.(verdict := Infra);
        }
        if !cut {
          JudgedIsFinal(f, bench, sc, i, sampleMs);
        }
      }
    }

    /** Hold, judge and report a scenario whose setup armed it; `stop` is the abort seen at its end. */
    method HoldAndReport(ctx: Context, sc: Scenario, i: nat, bench: Bench, sampleMs: nat) returns (stop: bool)
      requires Valid() && sampleMs > 0 && !status.finished
      requires i == |status.findings| < |order| && order[i] == sc.id
      requires !sc.notApplicable && bench.healthyBefore(i) && !bench.setup(i).SetupFailed? && !ctx.Noticed()
      modifies this`status, this`snapshots, this`held, ctx
      ensures Valid() && SameRun(status, old(status))
      ensures |status.findings| == i + 1 && status.findings == old(status).findings + [status.findings[i]]
      ensures held == old(held) + [held[i]]
      ensures Honest(status.findings[i], held[i], bench, sc, i, sampleMs)
      ensures stop == ctx.Noticed()
      ensures !stop ==> status.findings[i].f == Completed(bench, sc, i, sampleMs)
      ensures !stop ==> Finalised(status.findings[i].f, held[i], bench, sc, i, sampleMs)
    {
      SetPhase(i, sc.id, Hold);
      var samples := HoldAndSample(ctx, sc, i, bench, sampleMs);
      SetPhase(i, sc.id, Recover);
      var f := Conclude(ctx, sc, i, bench, sampleMs, samples);
      AppendFinding(Row(sc.id, f), Held(|samples|, Ticks(sc, sampleMs)));
      stop := ctx.Err();
    }

    /** One turn of the run loop: exactly one finding, under the scenario's id. */
    method RunScenario(ctx: Context, sc: Scenario, i: nat, bench: Bench, sampleMs: nat) returns (stop: bool)
      requires Valid() && sampleMs > 0 && !status.finished
      requires i == |status.findings| < |order| && order[i] == sc.id && !ctx.Noticed()
      modifies this`status, this`snapshots, this`held, ctx
      ensures Valid() && SameRun(status, old(status))
      ensures |status.findings| == i + 1 && status.findings == old(status).findings + [status.findings[i]]
      ensures held == old(held) + [held[i]]
      ensures Honest(status.findings[i], held[i], bench, sc, i, sampleMs)
      ensures stop == ctx.Noticed()
      ensures !stop ==> status.findings[i].f == Completed(bench, sc, i, sampleMs)
      ensures !stop ==> Finalised(status.findings[i].f, held[i], bench, sc, i, sampleMs)
    {
      hide Finalised, Grounded, Judged, BucketsOf, PctOf, Audited, Evaluated;
      SetPhase(i, sc.id, Setup);
      stop := false;
      if !WasHeld(bench, sc, i) {
        UnheldIsGrounded(bench, sc, i, sampleMs);
      }
      if sc.notApplicable {
        AppendFinding(Row(sc.id, Verdicted(NotApplicable)), Held(0, 0));
      } else if !bench.healthyBefore(i) {
        AppendFinding(Row(sc.id, Verdicted(Infra)), Held(0, 0));
      } else if bench.setup(i).SetupFailed? {
        AppendFinding(Row(sc.id, Verdicted(Inconclusive)), Held(0, 0));
      } else {
        stop := HoldAndReport(ctx, sc, i, bench, sampleMs);
      }
    }

    /** The whole run. */
    method Run(ctx: Context, scenarios: seq<Scenario>, bench: Bench, sampleMs: nat)
      requires Valid() && sampleMs > 0
      requires Ready(scenarios) && !ctx.Noticed()
      modifies this`status, this`snapshots, this`held, ctx
      // every status visible on the way was accounted for
      ensures Valid() && !status.running
      // how it ended
      ensures status.finished <==> !status.aborted && status.lastError == ""
      ensures status.lastError != "" <==> bench.baseline.Some?
      ensures status.aborted <==> ctx.Noticed()
      // what was reported
      ensures Report(status.findings, held, if status.findings == [] then 0 else |status.findings| - 1, bench, scenarios, sampleMs)
      ensures status.finished ==> Report(status.findings, held, |scenarios|, bench, scenarios, sampleMs)
      // what every finding rests on, and what each amounts to in a run that finished
      ensures forall k :: 0 <= k < |status.findings| ==> Grounded(status.findings[k].f, held[k], bench, scenarios[k], k)
      ensures status.finished ==>
                forall k :: 0 <= k < |scenarios| ==> Finalised(status.findings[k].f, held[k], bench, scenarios[k], k, sampleMs)
    {
      hide Report, Honest, Grounded, Finalised, Completed, Judged, BucketsOf, PctOf;
      EmptyReport(bench, scenarios, sampleMs);
      if bench.baseline.Some? {
        Finish(false, "bench baseline failed: " + bench.baseline.value);
        return;
      }
      for i := 0 to |scenarios|
        invariant Valid() && status.running && !status.finished && !status.aborted && status.lastError == ""
        invariant status.total == |scenarios| && |status.findings| == i && !ctx.Noticed()
        invariant Report(status.findings, held, i, bench, scenarios, sampleMs)
      {
        ReportMeans(status.findings, held, i, bench, scenarios, sampleMs);
        if i > 0 {
          ReportStandsForFewer(status.findings, held, i, i - 1, bench, scenarios, sampleMs);
        }
        var done := ctx.Err();
        if done {
          Finish(true, "");
          return;
        }
        ghost var rows, windows := status.findings, held;
        var stop := RunScenario(ctx, scenarios[i], i, bench, sampleMs);
        ReportExtends(rows, windows, status.findings[i], held[i], bench, scenarios, sampleMs);
        if stop {
          ReportMeans(status.findings, held, i, bench, scenarios, sampleMs);
          Finish(true, "");
          return;
        }
      }
      ReportMeans(status.findings, held, |scenarios|, bench, scenarios, sampleMs);
      ReportStandsForFewer(status.findings, held, |scenarios|, |scenarios| - 1, bench, scenarios, sampleMs);
      Finish(false, "");
    }
  }
}
