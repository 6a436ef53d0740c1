/**
  The observations every judgement of the Mayhem suite is made from: one sample of the
  bench per tick, the grid limit a scenario is judged against, and how far a sample is
  past that limit.  Floats are exact reals, and report text is left out.
 */
module Timeline {

  /** Tolerance (W) every cap comparison allows. */
  const COMPLIANCE_TOL_W: real := 150.0

  /** A breach that clears within this many seconds is a settling ramp. */
  const CONVERGE_DEADLINE_S: real := 30.0

  /** How long (s) the tail of the window must stay within the cap. */
  const CONVERGE_HOLD_S: real := 10.0

  /** Curtailed solar, or battery power, above this counts as a visible reaction. */
  const REACT_THRESH_W: real := 250.0

  datatype CapTyp =
    | ExportCap
    | ImportCap
    | GenLimit
    | NoCap                  // "none"
    | EmptyTyp               // ""
    | Fixed                  // "fixed"
    | OtherTyp(name: string)

  /** The grid limit a scenario is judged against. */
  datatype Constraint = Constraint(typ: CapTyp, limW: real, mrid: string)
  {
    /** The three types that are judged from a probe. */
    predicate IsCap() {
      typ.ExportCap? || typ.ImportCap? || typ.GenLimit?
    }

    /** Is a hub-adopted control this scenario's own cap?  Identity decides where both sides have one. */
    predicate AdoptedMatches(t: CapTyp, m: string) {
      if mrid != "" && m != "" then m == mrid else t == typ
    }
  }

  datatype Sample = Sample(
    t: real,
    realGridW: real, gridOk: bool,
    solarW: real, solarPossibleW: real, solarOk: bool,
    batteryW: real,
    batterySimW: real, batSimSoc: real, batterySimOk: bool,
    evCurrentA: real, evMaxA: real,
    hubAdopted: bool, disconnectActive: bool,
    adoptedTyp: CapTyp, adoptedMrid: string,
    validUntil: int, wallUnix: int, clockOffsetS: int,
    cannotComply: bool)

  /** How far (W) a sample is past the limit; negative within it, and -1 where no sensor answered. */
  function BreachOver(c: Constraint, s: Sample): real {
    match c.typ
    case ExportCap => if !s.gridOk then -1.0 else -s.realGridW - (c.limW + COMPLIANCE_TOL_W)
    case ImportCap => if !s.gridOk then -1.0 else s.realGridW - (c.limW + COMPLIANCE_TOL_W)
    case GenLimit => if !s.solarOk then -1.0 else s.solarW - (c.limW + COMPLIANCE_TOL_W)
    case _ => -1.0
  }

  predicate Breaches(c: Constraint, s: Sample) {
    BreachOver(c, s) > 0.0
  }

  /** Did the sensor the cap is judged from answer on this sample? */
  predicate JudgedBy(c: Constraint, s: Sample) {
    if c.typ.GenLimit? then s.solarOk else s.gridOk
  }

  predicate PastDeadline(s: Sample) {
    s.t > CONVERGE_DEADLINE_S
  }

  /** Timestamps never go backwards. */
  predicate Ordered(s: seq<Sample>) {
    forall i, j :: 0 <= i < j < |s| ==> s[i].t <= s[j].t
  }

  /** Rounding to two decimals, halves away from zero. */
  function Round2(v: real): real {
    if v >= 0.0 then (v * 100.0 + 0.5).Floor as real / 100.0
    else -((-v * 100.0 + 0.5).Floor as real / 100.0)
  }

  /** Rounding loses exactly the values closer to zero than half a hundredth. */
  lemma Round2IsZero(v: real)
    ensures Round2(v) == 0.0 <==> -0.005 < v < 0.005
  {
    var w := if v >= 0.0 then v * 100.0 + 0.5 else -v * 100.0 + 0.5;
    assert w.Floor as real <= w < w.Floor as real + 1.0;
  }

  /** Rounding moves a value by at most half a hundredth. */
  lemma Round2IsClose(v: real)
    requires v >= 0.0
    ensures v - 0.005 <= Round2(v) <= v + 0.005
  {
    var w := v * 100.0 + 0.5;
    assert w.Floor as real <= w < w.Floor as real + 1.0;
  }

  /** How many of the first `n` samples satisfy `p`. */
  function CountIf(s: seq<Sample>, n: nat, p: Sample -> bool): (k: nat)
    requires n <= |s|
    ensures k <= n
  {
    if n == 0 then 0 else CountIf(s, n - 1, p) + if p(s[n - 1]) then 1 else 0
  }

  lemma {:induction false} CountIfAll(s: seq<Sample>, n: nat, p: Sample -> bool)
    requires n <= |s| && forall i :: 0 <= i < n ==> p(s[i])
    ensures CountIf(s, n, p) == n
  {
    if n > 0 {
      CountIfAll(s, n - 1, p);
    }
  }

  lemma {:induction false} CountIfPositive(s: seq<Sample>, n: nat, p: Sample -> bool)
    requires n <= |s|
    ensures CountIf(s, n, p) > 0 <==> exists i :: 0 <= i < n && p(s[i])
  {
    if n > 0 {
      CountIfPositive(s, n - 1, p);
    }
  }

  /** Two sensors that each answer often enough must answer together: inclusion-exclusion over a window. */
  lemma {:induction false} CountBoth(s: seq<Sample>, n: nat, p: Sample -> bool, q: Sample -> bool, pq: Sample -> bool)
    requires n <= |s|
    requires forall x :: pq(x) <==> p(x) && q(x)
    ensures CountIf(s, n, pq) >= CountIf(s, n, p) + CountIf(s, n, q) - n
  {
    if n > 0 {
      CountBoth(s, n - 1, p, q, pq);
    }
  }
}
