/**
  The delayed-fault protocol (cmd/dashboard/mayhem.go): the run goroutine, an abort, and fault goroutines
  that wait for a timer or an adoption, look at their scenario's context, and only then act.

  Every interleaving is a sequence of events.  Looking at the context and acting are two events, as they
  are two steps in the code; the panic path, which cancels nothing, is left out.
 */
module DelayedFaults {
  import opened Timeline

  datatype Arming = AfterDelay | AfterAdoption | AfterCapAdopted(c: Constraint)

  /** What the hub reports when polled. */
  datatype Report = Report(active: bool, typ: CapTyp, mrid: string)

  datatype Phase = Waiting | Ready | Passed | Landed | Dropped

  /** A fault goroutine: the scenario whose context it captured, what it waits for, how far it is. */
  datatype Fault = Fault(scen: nat, kind: Arming, phase: Phase)

  datatype Event =
    | Begin                        // a scenario starts, with a fresh context
    | Arm(kind: Arming)            // its setup or a tick starts a fault goroutine
    | Expire(g: nat)               // the goroutine's delay or deadline fires
    | Poll(g: nat, h: Report)      // an adoption poll answers
    | Check(g: nat)                // the goroutine looks at its context
    | Land(g: nat)                 // the fault takes effect
    | Leave(g: nat)                // the goroutine sees its context done while waiting
    | Cancel                       // the hold is over, or setup failed: the scenario's context is cancelled
    | Teardown                     // the scenario's own cleanup, right after
    | Abort                        // the whole run is cancelled

  datatype Stage = Between | Holding | Cancelled

  datatype State = State(stage: Stage, begun: nat, done: set<nat>, aborted: bool, faults: seq<Fault>)
  {
    /** The context of a scenario is done: cancelled itself, or through the run it belongs to. */
    predicate Done(scen: nat) {
      aborted || scen in done
    }
  }

  const START := State(Between, 0, {}, false, [])

  function Fires(kind: Arming, h: Report): bool {
    match kind
    case AfterDelay => false
    case AfterAdoption => h.active
    case AfterCapAdopted(c) => h.active && c.AdoptedMatches(h.typ, h.mrid)
  }

  /** The current scenario is the last one begun. */
  predicate Enabled(st: State, e: Event) {
    match e
    case Begin => st.stage == Between
    case Arm(_) => st.stage == Holding
    case Expire(g) => g < |st.faults| && st.faults[g].phase == Waiting
    case Poll(g, _) => g < |st.faults| && st.faults[g].phase == Waiting && !st.faults[g].kind.AfterDelay?
    case Check(g) => g < |st.faults| && st.faults[g].phase == Ready
    case Land(g) => g < |st.faults| && st.faults[g].phase == Passed
    case Leave(g) => g < |st.faults| && st.faults[g].phase == Waiting && st.Done(st.faults[g].scen)
    case Cancel => st.stage == Holding
    case Teardown => st.stage == Cancelled
    case Abort => true
  }

  function Put(st: State, g: nat, p: Phase): State
    requires g < |st.faults|
  {
    st.(faults := st.faults[g := st.faults[g].(phase := p)])
  }

  function Step(st: State, e: Event): State
    requires Enabled(st, e)
  {
    match e
    case Begin => st.(stage := Holding, begun := st.begun + 1)
    case Arm(kind) => st.(faults := st.faults + [Fault(st.begun, kind, Waiting)])
    case Expire(g) => Put(st, g, if st.faults[g].kind.AfterCapAdopted? then Dropped else Ready)
    case Poll(g, h) => if Fires(st.faults[g].kind, h) then Put(st, g, Ready) else st
    case Check(g) => Put(st, g, if st.Done(st.faults[g].scen) then Dropped else Passed)
    case Land(g) => Put(st, g, Landed)
    case Leave(g) => Put(st, g, Dropped)
    case Cancel => st.(stage := Cancelled, done := st.done + {st.begun})
    case Teardown => st.(stage := Between)
    case Abort => st.(aborted := true)
  }

  /** A history: events, and the states before, between and after them. */
  datatype History = History(tr: seq<Event>, ss: seq<State>)

  /** Event `k` was possible when it happened, and led to the next state. */
  ghost predicate StepsAt(h: History, k: nat)
    requires k < |h.tr| && |h.ss| == |h.tr| + 1
  {
    Enabled(h.ss[k], h.tr[k]) && h.ss[k + 1] == Step(h.ss[k], h.tr[k])
  }

  ghost predicate Run(h: History) {
    && |h.ss| == |h.tr| + 1 && h.ss[0] == START
    && forall k :: 0 <= k < |h.tr| ==> StepsAt(h, k)
  }

  lemma Follows(h: History, k: nat)
    requires Run(h) && k < |h.tr|
    ensures StepsAt(h, k)
  {
  }

  // ---------------------------------------------------------------- what one step can do

  /** Goroutines keep their scenario and what they wait for; contexts that are done stay done. */
  lemma StepKeeps(st: State, e: Event, g: nat)
    requires Enabled(st, e) && g < |st.faults|
    ensures var t := Step(st, e);
            && g < |t.faults| && t.faults[g].scen == st.faults[g].scen && t.faults[g].kind == st.faults[g].kind
            && (st.Done(st.faults[g].scen) ==> t.Done(st.faults[g].scen))
            && (t.faults[g].phase == st.faults[g].phase
                || e in {Expire(g), Check(g), Land(g), Leave(g)} || (e.Poll? && e.g == g))
  {
  }

  lemma {:induction false} RunKeeps(h: History, j: nat, k: nat, g: nat)
    requires Run(h) && j <= k <= |h.tr| && g < |h.ss[j].faults|
    ensures var a, b := h.ss[j], h.ss[k];
            && g < |b.faults| && b.faults[g].scen == a.faults[g].scen && b.faults[g].kind == a.faults[g].kind
            && (a.Done(a.faults[g].scen) ==> b.Done(a.faults[g].scen))
  {
    if j < k {
      RunKeeps(h, j, k - 1, g);
      assert StepsAt(h, k - 1);
      StepKeeps(h.ss[k - 1], h.tr[k - 1], g);
    }
  }

  /** A fault past its guard passed it at some `q`, when its context was not done, and has been on its way ever since. */
  lemma {:induction false} PassedAt(h: History, k: nat, g: nat) returns (q: nat)
    requires Run(h) && k <= |h.tr| && g < |h.ss[k].faults| && h.ss[k].faults[g].phase == Passed
    ensures q < k && h.tr[q] == Check(g)
    ensures g < |h.ss[q].faults| && !h.ss[q].Done(h.ss[q].faults[g].scen)
    ensures forall j :: q < j <= k ==> g < |h.ss[j].faults| && h.ss[j].faults[g].phase == Passed
  {
    if k == 0 {
      assert false;
    } else {
      assert StepsAt(h, k - 1);
      if g < |h.ss[k - 1].faults| && h.ss[k - 1].faults[g].phase == Passed {
        q := PassedAt(h, k - 1, g);
      } else {
        q := k - 1;
      }
    }
  }

  // ---------------------------------------------------------------- late landings

  /** The fault lands at `p` although its scenario's context is done. */
  ghost predicate LandsLate(h: History, p: nat)
    requires Run(h)
  {
    && p < |h.tr| && h.tr[p].Land?
    && h.tr[p].g < |h.ss[p].faults| && h.ss[p].Done(h.ss[p].faults[h.tr[p].g].scen)
  }

  /** Event `c` ends the context of a fault that has passed its guard and not acted yet. */
  ghost predicate CatchesInFlight(h: History, c: nat, g: nat)
    requires Run(h)
  {
    && c < |h.tr| && g < |h.ss[c].faults|
    && h.ss[c].faults[g].phase == Passed
    && !h.ss[c].Done(h.ss[c].faults[g].scen)
    && h.ss[c + 1].Done(h.ss[c].faults[g].scen)
  }

  /** A context not done at `q` and done at `p` became done at a single event between. */
  lemma {:induction false} DoneAt(h: History, q: nat, p: nat, scen: nat) returns (c: nat)
    requires Run(h) && q <= p <= |h.tr| && !h.ss[q].Done(scen) && h.ss[p].Done(scen)
    ensures q <= c < p && !h.ss[c].Done(scen) && h.ss[c + 1].Done(scen)
  {
    if h.ss[p - 1].Done(scen) {
      c := DoneAt(h, q, p - 1, scen);
    } else {
      c := p - 1;
    }
  }

  /** At event `q` the fault looks at its context and finds it alive. */
  ghost predicate PassesGuard(h: History, q: nat, g: nat)
    requires Run(h)
  {
    q < |h.tr| && h.tr[q] == Check(g) && g < |h.ss[q].faults| && !h.ss[q].Done(h.ss[q].faults[g].scen)
  }

  /** A late landing passed its guard before the cancel, and the cancel caught it between guard and act. */
  lemma LateLandingWasInFlight(h: History, p: nat) returns (q: nat, c: nat)
    requires Run(h) && LandsLate(h, p)
    ensures q < c < p && PassesGuard(h, q, h.tr[p].g) && CatchesInFlight(h, c, h.tr[p].g)
    ensures forall j :: q < j <= p ==> h.tr[p].g < |h.ss[j].faults| && h.ss[j].faults[h.tr[p].g].phase == Passed
  {
    var g := h.tr[p].g;
    assert StepsAt(h, p);
    q := PassedAt(h, p, g);
    assert StepsAt(h, q);
    RunKeeps(h, q, p, g);
    c := DoneAt(h, q, p, h.ss[p].faults[g].scen);
    RunKeeps(h, q, c, g);
  }

  /** A fault on its way at `k` and no longer so at the end has landed in between. */
  lemma {:induction false} InFlightLands(h: History, k: nat, n: nat, g: nat) returns (p: nat)
    requires Run(h) && k <= n <= |h.tr|
    requires g < |h.ss[k].faults| && h.ss[k].faults[g].phase == Passed
    requires g < |h.ss[n].faults| && h.ss[n].faults[g].phase != Passed
    ensures k <= p < n && h.tr[p] == Land(g)
  {
    RunKeeps(h, k, n - 1, g);
    assert StepsAt(h, n - 1);
    if h.ss[n - 1].faults[g].phase == Passed {
      p := n - 1;
    } else {
      p := InFlightLands(h, k, n - 1, g);
    }
  }

  /** No fault is left between guard and act. */
  ghost predicate Quiescent(st: State) {
    forall g :: 0 <= g < |st.faults| ==> st.faults[g].phase != Passed
  }

  /**
    Main result.  In a run whose faults have all come to rest, no fault lands after its scenario's
    context is done if and only if no cancel or abort ever catches a fault between looking and acting.
   */
  lemma NoLateLandingExactly(h: History)
    requires Run(h) && Quiescent(h.ss[|h.tr|])
    ensures (forall p: nat :: !LandsLate(h, p)) <==> (forall c: nat, g: nat :: !CatchesInFlight(h, c, g))
  {
    if p: nat :| LandsLate(h, p) {
      var q, c := LateLandingWasInFlight(h, p);
      assert CatchesInFlight(h, c, h.tr[p].g);
    }
    if c: nat, g: nat :| CatchesInFlight(h, c, g) {
      assert StepsAt(h, c);
      assert h.ss[c + 1].faults[g].phase == Passed;
      RunKeeps(h, c + 1, |h.tr|, g);
      var p := InFlightLands(h, c + 1, |h.tr|, g);
      RunKeeps(h, c + 1, p, g);
      assert LandsLate(h, p);
    }
  }

  // ---------------------------------------------------------------- guard and act as one step

  /** Every guard that is passed is acted on at once. */
  ghost predicate Atomic(h: History)
    requires Run(h)
  {
    forall q: nat, g: nat :: PassesGuard(h, q, g) ==> q + 1 < |h.tr| && h.tr[q + 1] == Land(g)
  }

  /** The teardown of the `i`-th scenario happens at `t`. */
  ghost predicate TearsDown(h: History, t: nat, i: nat)
    requires Run(h)
  {
    t < |h.tr| && h.tr[t] == Teardown && h.ss[t].begun == i
  }

  /** Contexts of scenarios already torn down or cancelled are done. */
  lemma {:induction false} EarlierContextsAreDone(h: History, k: nat, i: nat)
    requires Run(h) && k <= |h.tr| && 1 <= i
    requires i < h.ss[k].begun || (i == h.ss[k].begun && h.ss[k].stage != Holding)
    ensures i in h.ss[k].done
  {
    if k > 0 {
      var st := h.ss[k - 1];
      assert StepsAt(h, k - 1);
      if i < st.begun || (i == st.begun && st.stage != Holding) {
        EarlierContextsAreDone(h, k - 1, i);
      }
    }
  }

  lemma {:induction false} BegunBeforeHolding(h: History, k: nat)
    requires Run(h) && k <= |h.tr|
    ensures h.ss[k].stage != Between ==> h.ss[k].begun >= 1
  {
    if k > 0 {
      assert StepsAt(h, k - 1);
      BegunBeforeHolding(h, k - 1);
    }
  }

  /** A fault belongs to a scenario that has begun: the one current when it was armed. */
  lemma {:induction false} FaultsBelongToBegun(h: History, k: nat, g: nat)
    requires Run(h) && k <= |h.tr| && g < |h.ss[k].faults|
    ensures 1 <= h.ss[k].faults[g].scen <= h.ss[k].begun
  {
    if k > 0 {
      assert StepsAt(h, k - 1);
      BegunBeforeHolding(h, k - 1);
      if g < |h.ss[k - 1].faults| {
        FaultsBelongToBegun(h, k - 1, g);
        StepKeeps(h.ss[k - 1], h.tr[k - 1], g);
      }
    }
  }

  /** Where guard and act are one step no fault lands late. */
  lemma AtomicNeverLandsLate(h: History, p: nat)
    requires Run(h) && Atomic(h)
    ensures !LandsLate(h, p)
  {
    if LandsLate(h, p) {
      var q, c := LateLandingWasInFlight(h, p);
      Follows(h, q + 1);
      assert false;
    }
  }

  /** There a fault only ever lands in its own scenario, during the hold, and in a run nobody has aborted. */
  lemma AtomicLandsInItsHold(h: History, p: nat)
    requires Run(h) && Atomic(h) && p < |h.tr| && h.tr[p].Land?
    ensures h.tr[p].g < |h.ss[p].faults| && h.ss[p].faults[h.tr[p].g].scen == h.ss[p].begun
    ensures h.ss[p].stage == Holding && !h.ss[p].aborted
  {
    assert StepsAt(h, p);
    AtomicNeverLandsLate(h, p);
    FaultsBelongToBegun(h, p, h.tr[p].g);
    var scen := h.ss[p].faults[h.tr[p].g].scen;
    if scen != h.ss[p].begun || h.ss[p].stage != Holding {
      EarlierContextsAreDone(h, p, scen);
    }
  }

  /**
    Main result.  Where guard and act are one step, teardown is the last writer: after the teardown of
    scenario `i` no fault of it, nor of any earlier scenario, ever lands.
   */
  lemma TeardownIsLastWriter(h: History, t: nat, i: nat, p: nat)
    requires Run(h) && Atomic(h) && TearsDown(h, t, i)
    requires t < p < |h.tr| && h.tr[p].Land?
    ensures h.tr[p].g < |h.ss[p].faults| && h.ss[p].faults[h.tr[p].g].scen > i
  {
    var g := h.tr[p].g;
    assert StepsAt(h, p);
    AtomicNeverLandsLate(h, p);
    FaultsBelongToBegun(h, p, g);
    var scen := h.ss[p].faults[g].scen;
    if scen <= i {
      assert StepsAt(h, t);
      BegunGrows(h, t, p);
      EarlierContextsAreDone(h, t, scen);
      DoneStaysDone(h, t, p, scen);
    }
  }

  lemma {:induction false} BegunGrows(h: History, j: nat, k: nat)
    requires Run(h) && j <= k <= |h.tr|
    ensures h.ss[j].begun <= h.ss[k].begun
  {
    if j < k {
      assert StepsAt(h, k - 1);
      BegunGrows(h, j, k - 1);
    }
  }

  lemma {:induction false} DoneStaysDone(h: History, j: nat, k: nat, scen: nat)
    requires Run(h) && j <= k <= |h.tr| && h.ss[j].Done(scen)
    ensures h.ss[k].Done(scen)
  {
    if j < k {
      assert StepsAt(h, k - 1);
      DoneStaysDone(h, j, k - 1, scen);
    }
  }

  // ---------------------------------------------------------------- as written, teardown is not the last writer

  /** A fault looks, and is then overtaken by cancel, teardown and the next scenario before it acts. */
  function Overtaken(): History {
    var w, r, d, l := Fault(1, AfterDelay, Waiting), Fault(1, AfterDelay, Ready), Fault(1, AfterDelay, Passed), Fault(1, AfterDelay, Landed);
    History(
      [Begin, Arm(AfterDelay), Expire(0), Check(0), Cancel, Teardown, Begin, Land(0)],
      [START,
       State(Holding, 1, {}, false, []), State(Holding, 1, {}, false, [w]), State(Holding, 1, {}, false, [r]),
       State(Holding, 1, {}, false, [d]), State(Cancelled, 1, {1}, false, [d]), State(Between, 1, {1}, false, [d]),
       State(Holding, 2, {1}, false, [d]), State(Holding, 2, {1}, false, [l])])
  }

  lemma OvertakenSteps(k: nat)
    requires k < 8
    ensures StepsAt(Overtaken(), k)
  {
    var h := Overtaken();
    if k < 4 {
      assert k == 0 || k == 1 || k == 2 || k == 3;
    } else {
      assert k == 4 || k == 5 || k == 6 || k == 7;
    }
  }

  /**
    Looking at the context and acting are two steps of the code, so its own promise that teardown is
    always the last writer fails on a concrete run: the fault of scenario 1 lands in scenario 2.
   */
  lemma TeardownCanBeOvertaken()
    ensures var h := Overtaken();
            && Run(h) && Quiescent(h.ss[8])
            && TearsDown(h, 5, 1) && LandsLate(h, 7)
            && h.ss[7].faults[0].scen == 1 && h.ss[7].begun == 2
  {
    var h := Overtaken();
    forall k | 0 <= k < |h.tr|
      ensures StepsAt(h, k)
    {
      OvertakenSteps(k);
    }
  }

  // ---------------------------------------------------------------- exactly when teardown is the last writer

  /** At `p` a fault lands whose scenario, or a later one, was torn down at `t`, before. */
  ghost predicate LandsAfterTeardown(h: History, t: nat, p: nat)
    requires Run(h)
  {
    && t < p < |h.tr| && h.tr[t] == Teardown && h.tr[p].Land?
    && h.tr[p].g < |h.ss[p].faults| && h.ss[p].faults[h.tr[p].g].scen <= h.ss[t].begun
  }

  /** At the teardown `t` a fault has passed its guard and not acted yet. */
  ghost predicate TearsDownInFlight(h: History, t: nat, g: nat)
    requires Run(h)
  {
    t < |h.tr| && h.tr[t] == Teardown && g < |h.ss[t].faults| && h.ss[t].faults[g].phase == Passed
  }

  /** A fault that lands after a teardown was in flight when it came: it could not have passed its guard since. */
  lemma LaterLandingWasInFlight(h: History, t: nat, p: nat)
    requires Run(h) && LandsAfterTeardown(h, t, p)
    ensures TearsDownInFlight(h, t, h.tr[p].g)
  {
    var g := h.tr[p].g;
    assert StepsAt(h, p) && StepsAt(h, t);
    var q := PassedAt(h, p, g);
    RunKeeps(h, q, p, g);
    if q > t {
      var scen := h.ss[q].faults[g].scen;
      FaultsBelongToBegun(h, q, g);
      EarlierContextsAreDone(h, t, scen);
      DoneStaysDone(h, t, q, scen);
    }
  }

  /** A fault in flight at a teardown lands after it, unless it never comes to rest. */
  lemma InFlightLandsLater(h: History, t: nat, g: nat) returns (p: nat)
    requires Run(h) && Quiescent(h.ss[|h.tr|]) && TearsDownInFlight(h, t, g)
    ensures LandsAfterTeardown(h, t, p)
  {
    RunKeeps(h, t, |h.tr|, g);
    p := InFlightLands(h, t, |h.tr|, g);
    RunKeeps(h, t, p, g);
    FaultsBelongToBegun(h, t, g);
  }

  /**
    Main result.  In a run whose faults have all come to rest, teardown is the last writer, so that no fault
    of a scenario lands once it or a later one has been torn down, if and only if no teardown ever comes
    while a fault is between looking and acting.
   */
  lemma TeardownIsLastWriterExactly(h: History)
    requires Run(h) && Quiescent(h.ss[|h.tr|])
    ensures (forall t: nat, p: nat :: !LandsAfterTeardown(h, t, p)) <==> (forall t: nat, g: nat :: !TearsDownInFlight(h, t, g))
  {
    if t: nat, p: nat :| LandsAfterTeardown(h, t, p) {
      LaterLandingWasInFlight(h, t, p);
    }
    if t: nat, g: nat :| TearsDownInFlight(h, t, g) {
      var p := InFlightLandsLater(h, t, g);
    }
  }

  // ---------------------------------------------------------------- a fault that waits for its cap

  /** A fault that has landed never lands again. */
  lemma LandsOnce(h: History, p: nat, q: nat)
    requires Run(h) && p < q < |h.tr| && h.tr[p].Land?
    ensures h.tr[q] != h.tr[p]
  {
    var g := h.tr[p].g;
    assert StepsAt(h, p) && StepsAt(h, q);
    LandedStays(h, p + 1, q, g);
  }

  lemma {:induction false} LandedStays(h: History, j: nat, k: nat, g: nat)
    requires Run(h) && j <= k <= |h.tr| && g < |h.ss[j].faults| && h.ss[j].faults[g].phase in {Landed, Dropped}
    ensures g < |h.ss[k].faults| && h.ss[k].faults[g].phase == h.ss[j].faults[g].phase
  {
    if j < k {
      LandedStays(h, j, k - 1, g);
      assert StepsAt(h, k - 1);
      StepKeeps(h.ss[k - 1], h.tr[k - 1], g);
    }
  }

  /**
    A fault that waits for its own cap acts only after a poll saw that cap in force: never on a deadline,
    and never on another scenario's control with an identity of its own.
   */
  lemma {:induction false} CapWasSeenInForce(h: History, k: nat, g: nat) returns (q: nat)
    requires Run(h) && k <= |h.tr| && g < |h.ss[k].faults|
    requires h.ss[k].faults[g].kind.AfterCapAdopted? && h.ss[k].faults[g].phase in {Ready, Passed, Landed}
    ensures q < k && h.tr[q].Poll? && h.tr[q].g == g && h.tr[q].h.active
    ensures h.ss[k].faults[g].kind.c.AdoptedMatches(h.tr[q].h.typ, h.tr[q].h.mrid)
  {
    if k == 0 {
      assert false;
    } else {
      assert StepsAt(h, k - 1);
      if g < |h.ss[k - 1].faults| {
        StepKeeps(h.ss[k - 1], h.tr[k - 1], g);
      }
      if g < |h.ss[k - 1].faults| && h.ss[k - 1].faults[g].phase in {Ready, Passed, Landed} {
        q := CapWasSeenInForce(h, k - 1, g);
      } else {
        q := k - 1;
      }
    }
  }

  /** A report of a control that is not this cap: another identity, or, where either has none, another type. */
  predicate Foreign(c: Constraint, r: Report) {
    if c.mrid != "" && r.mrid != "" then r.mrid != c.mrid else r.typ != c.typ
  }

  /** A poll releases a waiting fault exactly when a control is active and, for one that waits for its cap, not foreign. */
  lemma PollReleasesExactly(h: History, k: nat, g: nat)
    requires Run(h) && k < |h.tr| && h.tr[k].Poll? && h.tr[k].g == g && g < |h.ss[k].faults|
    ensures g < |h.ss[k + 1].faults|
    ensures h.ss[k + 1].faults[g].phase == Ready
       <==> h.tr[k].h.active && (h.ss[k].faults[g].kind.AfterCapAdopted? ==> !Foreign(h.ss[k].faults[g].kind.c, h.tr[k].h))
  {
    assert StepsAt(h, k);
  }

  /** Before `k`, whenever a poll of `g` saw an active control, it was foreign to the cap. */
  ghost predicate OnlyForeignSeen(h: History, k: nat, g: nat, c: Constraint)
    requires Run(h) && k <= |h.tr|
  {
    forall q :: 0 <= q < k && h.tr[q].Poll? && h.tr[q].g == g && h.tr[q].h.active ==> Foreign(c, h.tr[q].h)
  }

  /** Another scenario's control, with an identity of its own, never releases a fault that waits for its cap. */
  lemma ForeignControlNeverReleases(h: History, k: nat, g: nat)
    requires Run(h) && k <= |h.tr| && g < |h.ss[k].faults| && h.ss[k].faults[g].kind.AfterCapAdopted?
    requires OnlyForeignSeen(h, k, g, h.ss[k].faults[g].kind.c)
    ensures h.ss[k].faults[g].phase !in {Ready, Passed, Landed}
  {
    if h.ss[k].faults[g].phase in {Ready, Passed, Landed} {
      var q := CapWasSeenInForce(h, k, g);
    }
  }

  /**
    What released a fault: its delay or deadline, unless it waits for its cap; or a poll that saw an active
    control, unless it waits for a delay.
   */
  lemma {:induction false} ReleasedBy(h: History, k: nat, g: nat) returns (q: nat)
    requires Run(h) && k <= |h.tr| && g < |h.ss[k].faults| && h.ss[k].faults[g].phase in {Ready, Passed, Landed}
    ensures q < k
    ensures var kind := h.ss[k].faults[g].kind;
            || (h.tr[q] == Expire(g) && !kind.AfterCapAdopted?)
            || (h.tr[q].Poll? && h.tr[q].g == g && h.tr[q].h.active && !kind.AfterDelay?)
  {
    if k == 0 {
      assert false;
    } else {
      assert StepsAt(h, k - 1);
      if g < |h.ss[k - 1].faults| {
        StepKeeps(h.ss[k - 1], h.tr[k - 1], g);
      }
      if g < |h.ss[k - 1].faults| && h.ss[k - 1].faults[g].phase in {Ready, Passed, Landed} {
        q := ReleasedBy(h, k - 1, g);
      } else {
        q := k - 1;
      }
    }
  }

  // ---------------------------------------------------------------- cancels and aborts, by event

  /** After the abort of the run no fault passes its guard: one that lands had passed it before. */
  lemma AbortStopsFaults(h: History, a: nat, p: nat) returns (q: nat)
    requires Run(h) && a < p < |h.tr| && h.tr[a] == Abort && h.tr[p].Land?
    ensures q < a && h.tr[q] == Check(h.tr[p].g)
  {
    assert StepsAt(h, a) && StepsAt(h, p);
    q := PassedAt(h, p, h.tr[p].g);
    if q > a {
      AbortedStays(h, a + 1, q);
    }
  }

  lemma {:induction false} AbortedStays(h: History, j: nat, k: nat)
    requires Run(h) && j <= k <= |h.tr| && h.ss[j].aborted
    ensures h.ss[k].aborted
  {
    if j < k {
      assert StepsAt(h, k - 1);
      AbortedStays(h, j, k - 1);
    }
  }

  /** After the cancel of a scenario none of its faults passes its guard: one that lands had passed it before. */
  lemma CancelStopsFaults(h: History, c: nat, p: nat) returns (q: nat)
    requires Run(h) && c < p < |h.tr| && h.tr[c] == Cancel && h.tr[p].Land?
    requires h.tr[p].g < |h.ss[p].faults| && h.ss[p].faults[h.tr[p].g].scen == h.ss[c].begun
    ensures q < c && h.tr[q] == Check(h.tr[p].g)
  {
    var g := h.tr[p].g;
    assert StepsAt(h, c) && StepsAt(h, p);
    q := PassedAt(h, p, g);
    if q > c {
      RunKeeps(h, q, p, g);
      DoneStaysDone(h, c + 1, q, h.ss[c].begun);
    }
  }

  lemma {:induction false} AliveUnlessStopped(h: History, k: nat, scen: nat)
    requires Run(h) && k <= |h.tr|
    requires forall c :: 0 <= c < k ==> h.tr[c] != Abort && (h.tr[c] == Cancel ==> h.ss[c].begun != scen)
    ensures !h.ss[k].Done(scen)
  {
    if k > 0 {
      assert StepsAt(h, k - 1);
      AliveUnlessStopped(h, k - 1, scen);
    }
  }

  /** Nothing else stops one: a fault that looks while neither has happened passes its guard. */
  lemma OnlyCancelAndAbortStop(h: History, k: nat, g: nat)
    requires Run(h) && k < |h.tr| && h.tr[k] == Check(g) && g < |h.ss[k].faults|
    requires forall c :: 0 <= c < k ==> h.tr[c] != Abort && (h.tr[c] == Cancel ==> h.ss[c].begun != h.ss[k].faults[g].scen)
    ensures g < |h.ss[k + 1].faults| && h.ss[k + 1].faults[g].phase == Passed
  {
    assert StepsAt(h, k);
    AliveUnlessStopped(h, k, h.ss[k].faults[g].scen);
  }
}
