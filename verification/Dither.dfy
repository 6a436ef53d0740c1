/**
  The reserve-line dither oracle (cmd/dashboard/mayhem_world.go): battery sign flaps against the number
  of transitions the injected square wave explains.
 */
module Dither {
  import opened Timeline
  import opened Invariants
  import opened Diagnosis
  import Hunting

  const HALF_PERIOD_TICKS := 4
  const BATT_FLAP_SLACK := 3
  const DITHER_RESERVE_LINE: real := 20.0

  /** The phase the square wave asserts on a tick. */
  predicate PhaseA(halfPeriodTicks: int, i: int) {
    var h := if halfPeriodTicks < 1 then 1 else halfPeriodTicks;
    (i / h) % 2 == 0
  }

  /** At most one transition per half-cycle of the hold, and never fewer than one. */
  function ExpectedTransitions(holdS: int): (n: int)
    requires holdS >= 0
    ensures n >= 1
  {
    if holdS / HALF_PERIOD_TICKS < 1 then 1 else holdS / HALF_PERIOD_TICKS
  }

  /** What a sample says about the battery: 1 discharging, -1 charging, 0 nothing. */
  function Sign(s: Sample): int {
    if s.t <= CONVERGE_DEADLINE_S || !s.batterySimOk then 0
    else if s.batterySimW > SOC_ACTIVE_W then 1
    else if s.batterySimW < -SOC_ACTIVE_W then -1
    else 0
  }

  function Signs(s: seq<Sample>): (g: seq<int>)
    ensures |g| == |s|
    ensures forall i :: 0 <= i < |s| ==> g[i] == Sign(s[i])
  {
    seq(|s|, i requires 0 <= i < |s| => Sign(s[i]))
  }

  datatype Flapper = Flapper(sign: int, flips: nat)

  function Observe(f: Flapper, cur: int): Flapper {
    if cur == 0 then f
    else Flapper(cur, f.flips + if f.sign != 0 && cur != f.sign then 1 else 0)
  }

  /** The last sign seen and the number of sign changes in the first `n` entries; zeros are no entry at all. */
  function Flap(g: seq<int>, n: nat): Flapper
    requires n <= |g|
  {
    if n == 0 then Flapper(0, 0) else Observe(Flap(g, n - 1), g[n - 1])
  }

  method BatteryCommandFlaps(s: seq<Sample>) returns (flips: nat)
    ensures flips == Flap(Signs(s), |s|).flips
  {
    flips := 0;
    var sign := 0;
    for i := 0 to |s|
      invariant Flap(Signs(s), i) == Flapper(sign, flips)
    {
      if s[i].t <= CONVERGE_DEADLINE_S || !s[i].batterySimOk {
        continue;
      }
      var cur;
      if s[i].batterySimW > SOC_ACTIVE_W {
        cur := 1;
      } else if s[i].batterySimW < -SOC_ACTIVE_W {
        cur := -1;
      } else {
        continue;
      }
      if sign != 0 && cur != sign {
        flips := flips + 1;
      }
      sign := cur;
    }
  }

  /** Discharging at or below the reserve line. */
  predicate OverDischarge(s: Sample) {
    s.t > CONVERGE_DEADLINE_S && s.batterySimOk && s.batterySimW > SOC_ACTIVE_W && s.batSimSoc <= DITHER_RESERVE_LINE
  }

  /** The reserve-line rule; its report carries a label of its own, which nothing tallies. */
  function ReserveRule(): Rule {
    (s: Sample) => if OverDischarge(s) then [Violation(InvSoc, s.t)] else []
  }

  method SocReserveOverDischarge(s: seq<Sample>) returns (v: seq<Violation>)
    ensures v == Collect(s, |s|, ReserveRule())
  {
    v := [];
    for i := 0 to |s|
      invariant v == Collect(s, i, ReserveRule())
    {
      if s[i].t <= CONVERGE_DEADLINE_S || !s[i].batterySimOk {
        continue;
      }
      if s[i].batterySimW > SOC_ACTIVE_W && s[i].batSimSoc <= DITHER_RESERVE_LINE {
        v := v + [Violation(InvSoc, s[i].t)];
      }
    }
  }

  // ---------------------------------------------------------------- what a flap is

  /** After settling, with its sensor answering, the battery moves more than 50 W one way or the other. */
  predicate Moving(s: Sample) {
    s.t > 30.0 && s.batterySimOk && (s.batterySimW > 50.0 || s.batterySimW < -50.0)
  }

  /** Among the first `n` samples, `w` picks moving ones, in order, each against the direction of the one before. */
  ghost predicate Alternates(s: seq<Sample>, n: nat, w: seq<nat>) {
    && n <= |s|
    && (forall i :: 0 <= i < |w| ==> w[i] < n && Moving(s[w[i]]))
    && (forall i, j :: 0 <= i < j < |w| ==> w[i] < w[j])
    && (forall i :: 0 < i < |w| ==> (s[w[i]].batterySimW > 0.0) != (s[w[i - 1]].batterySimW > 0.0))
  }

  function Direction(s: Sample): int {
    if s.batterySimW > 0.0 then 1 else -1
  }

  lemma MovingHasSign(s: Sample)
    ensures Sign(s) == if Moving(s) then Direction(s) else 0
  {
  }

  /** What one sample does to the count. */
  function AfterSample(f: Flapper, s: Sample): Flapper {
    if !Moving(s) then f else Flapper(Direction(s), f.flips + if f.sign == -Direction(s) then 1 else 0)
  }

  lemma FlapNext(s: seq<Sample>, n: nat)
    requires n < |s|
    ensures Flap(Signs(s), n + 1) == AfterSample(Flap(Signs(s), n), s[n])
    ensures Flap(Signs(s), n).sign in {-1, 0, 1}
  {
    MovingHasSign(s[n]);
    FlapSign(Signs(s), n);
  }

  lemma FlapOfNothing(s: seq<Sample>)
    ensures Flap(Signs(s), 0) == Flapper(0, 0)
  {
  }

  lemma {:induction false} FlapSign(g: seq<int>, n: nat)
    requires n <= |g| && forall i :: 0 <= i < |g| ==> g[i] in {-1, 0, 1}
    ensures Flap(g, n).sign in {-1, 0, 1}
  {
    if n > 0 {
      FlapSign(g, n - 1);
    }
  }

  /** No alternation is longer than the flips and the first move, and one that ends against the last sign seen is shorter. */
  lemma {:induction false} FlipsBoundAlternations(s: seq<Sample>, n: nat, w: seq<nat>)
    requires Alternates(s, n, w) && w != []
    ensures var f := Flap(Signs(s), n);
            f.sign != 0 && |w| <= f.flips + if f.sign == Direction(s[w[|w| - 1]]) then 1 else 0
  {
    var last := |w| - 1;
    assert w[last] < n;
    hide Flap, Signs, Moving;
    FlapNext(s, n - 1);
    if w[last] == n - 1 {
      assert Moving(s[n - 1]);
      if last > 0 {
        assert Alternates(s, n - 1, w[..last]);
        FlipsBoundAlternations(s, n - 1, w[..last]);
      }
    } else {
      assert Alternates(s, n - 1, w);
      FlipsBoundAlternations(s, n - 1, w);
    }
  }

  lemma AlternationGrows(s: seq<Sample>, n: nat, w: seq<nat>)
    requires n < |s| && Alternates(s, n, w)
    ensures Alternates(s, n + 1, w)
    ensures Moving(s[n]) && (w == [] || Direction(s[w[|w| - 1]]) != Direction(s[n])) ==> Alternates(s, n + 1, w + [n])
  {
    hide Moving;
  }

  /** `w` accounts for the count: it has one move more than there are flips, and ends in the direction last seen. */
  ghost predicate AccountsFor(s: seq<Sample>, n: nat, w: seq<nat>, f: Flapper) {
    && Alternates(s, n, w)
    && if w == [] then f == Flapper(0, 0) && forall i :: 0 <= i < n ==> !Moving(s[i])
       else |w| == f.flips + 1 && f.sign == Direction(s[w[|w| - 1]])
  }

  lemma NothingAccounted(s: seq<Sample>)
    ensures AccountsFor(s, 0, [], Flapper(0, 0))
  {
  }

  lemma AccountsForNext(s: seq<Sample>, n: nat, w: seq<nat>, f: Flapper) returns (w': seq<nat>)
    requires n < |s| && AccountsFor(s, n, w, f)
    ensures AccountsFor(s, n + 1, w', AfterSample(f, s[n]))
  {
    AlternationGrows(s, n, w);
    hide Moving, Alternates;
    w' := if Moving(s[n]) && (w == [] || Direction(s[w[|w| - 1]]) != Direction(s[n])) then w + [n] else w;
  }

  /** The alternation the counter actually follows. */
  lemma {:induction false} FlipsWitness(s: seq<Sample>, n: nat) returns (w: seq<nat>)
    requires n <= |s|
    ensures AccountsFor(s, n, w, Flap(Signs(s), n))
  {
    hide AccountsFor, Flap, Signs, AfterSample;
    if n == 0 {
      w := [];
      FlapOfNothing(s);
      NothingAccounted(s);
    } else {
      w := FlipsWitness(s, n - 1);
      FlapNext(s, n - 1);
      w := AccountsForNext(s, n - 1, w, Flap(Signs(s), n - 1));
    }
  }

  /**
    Main result.  The flap count is the greatest number of reversals that can be found among the moving
    samples at all: one less than the longest alternation, and 0 if the battery never moved.
   */
  lemma FlipsAreReversals(s: seq<Sample>)
    ensures var flips := Flap(Signs(s), |s|).flips;
            && (forall w :: Alternates(s, |s|, w) ==> |w| <= flips + 1)
            && (if forall i :: 0 <= i < |s| ==> !Moving(s[i]) then flips == 0
                else exists w :: Alternates(s, |s|, w) && |w| == flips + 1)
  {
    hide Moving, Flap;
    var w := FlipsWitness(s, |s|);
    forall v | Alternates(s, |s|, v) && v != []
      ensures |v| <= Flap(Signs(s), |s|).flips + 1
    {
      FlipsBoundAlternations(s, |s|, v);
    }
  }

  /** Discharging above 50 W at or below 20%, after settling. */
  predicate DrainsReserve(s: Sample) {
    s.t > 30.0 && s.batterySimOk && s.batterySimW > 50.0 && s.batSimSoc <= 20.0
  }

  /** How often the battery may reverse: once per half-cycle of 4 s, at least once, and 3 times more. */
  function Allowance(holdS: nat): nat {
    3 + if holdS >= 8 then holdS / 4 else 1
  }

  /** Alternations with one move more than a number of reversals exist exactly when the flap count reaches it. */
  lemma ReversalsReach(s: seq<Sample>, limit: nat)
    ensures Flap(Signs(s), |s|).flips <= limit <==> forall w :: Alternates(s, |s|, w) ==> |w| <= limit + 1
  {
    hide Moving, Flap;
    FlipsAreReversals(s);
    assert Alternates(s, |s|, []);
  }

  /** The over-discharge report is empty exactly when no sample drains the reserve. */
  lemma ReserveSilentExactly(s: seq<Sample>)
    ensures Collect(s, |s|, ReserveRule()) == [] <==> forall i :: 0 <= i < |s| ==> !DrainsReserve(s[i])
  {
    CollectEmpty(s, |s|, ReserveRule());
    assert forall i :: 0 <= i < |s| ==> (ReserveRule()(s[i]) == [] <==> !DrainsReserve(s[i]));
  }

  /** The verdict on the reserve-line dither: over-discharge first, then chatter beyond the slack. */
  method DiagnoseSocDither(holdS: nat, c: Constraint, s: seq<Sample>) returns (f: Finding)
    ensures f.verdict == Inconclusive <==> s == []
    ensures f.verdict == Pass
       <==> s != [] && (forall i :: 0 <= i < |s| ==> !DrainsReserve(s[i]))
            && forall w :: Alternates(s, |s|, w) ==> |w| <= Allowance(holdS) + 1
    ensures s != [] ==> f.metrics == Scan(c, s) && f.verdict in {Pass, Fail}
  {
    if |s| == 0 {
      return Finding(Inconclusive, NO_METRICS, []);
    }
    hide Flap, Signs, Alternates, DrainsReserve, Scan, ReserveRule;
    var m := ScanSamples(c, s);
    var reserveViol := SocReserveOverDischarge(s);
    ReserveSilentExactly(s);
    var flips := BatteryCommandFlaps(s);
    ReversalsReach(s, Allowance(holdS));
    assert Allowance(holdS) == ExpectedTransitions(holdS) + BATT_FLAP_SLACK;
    var excess := flips - ExpectedTransitions(holdS);
    if |reserveViol| > 0 {
      f := Finding(Fail, m, []);
    } else if excess > BATT_FLAP_SLACK {
      f := Finding(Fail, m, []);
    } else {
      f := Finding(Pass, m, []);
    }
  }

  // ---------------------------------------------------------------- the wave

  /** The injected wave is square: it starts in phase A, keeps its phase for a half period, and reverses with the next one. */
  lemma WaveIsSquare(half: nat, i: nat, j: nat)
    requires half >= 1
    ensures PhaseA(half, 0)
    ensures i / half == j / half ==> PhaseA(half, i) == PhaseA(half, j)
    ensures PhaseA(half, i + half) != PhaseA(half, i)
    ensures PhaseA(0, i) == PhaseA(1, i)
  {
    assert (i + half) / half == i / half + 1 by {
      NextHalf(i, half);
    }
  }

  lemma NextHalf(i: nat, half: nat)
    requires half >= 1
    ensures (i + half) / half == i / half + 1
  {
    var q, r := i / half, i % half;
    assert i + half == (q + 1) * half + r;
    QuotientIs(i + half, half, q + 1, r);
  }

  lemma QuotientIs(x: nat, d: nat, q: nat, r: nat)
    requires d >= 1 && r < d && x == q * d + r
    ensures x / d == q
  {
    var p := x / d;
    assert p * d <= x < p * d + d;
    assert p < q ==> (p + 1) * d <= q * d;
    assert p > q ==> (q + 1) * d <= p * d;
  }

  // ---------------------------------------------------------------- no false alarm

  /** Where the samples of a timeline sit on the ticks of the hold: in order, within the hold, any subset of them. */
  ghost predicate SampledAt(s: seq<Sample>, ticks: seq<nat>, holdTicks: nat) {
    && |ticks| == |s|
    && (forall i :: 0 <= i < |s| ==> ticks[i] < holdTicks)
    && (forall i, j :: 0 <= i < j < |s| ==> ticks[i] < ticks[j])
  }

  /** Whenever the battery is seen moving, it moves with the wave of `lag` ticks ago, in the direction `dir` in phase A. */
  ghost predicate Follows(s: seq<Sample>, ticks: seq<nat>, lag: nat, dir: int) {
    && |ticks| == |s| && dir != 0
    && forall i :: 0 <= i < |s| && Sign(s[i]) != 0 ==>
         Sign(s[i]) == if PhaseA(HALF_PERIOD_TICKS, ticks[i] - lag) then dir else -dir
  }

  /** The half-cycle a tick falls in. */
  function Block(tick: int, lag: nat): int {
    (tick - lag) / HALF_PERIOD_TICKS
  }

  /** Opposite signs of the wave lie in different half-cycles. */
  lemma SignChangeNeedsBoundary(a: nat, b: nat, lag: nat)
    requires a <= b
    ensures Block(a, lag) <= Block(b, lag)
    ensures PhaseA(HALF_PERIOD_TICKS, a - lag) != PhaseA(HALF_PERIOD_TICKS, b - lag) ==> Block(a, lag) < Block(b, lag)
  {
  }

  /** Each flip needs a half-cycle boundary of its own; `last` is the tick of the last sample that moved. */
  lemma {:induction false} FlipsCrossBlocks(s: seq<Sample>, ticks: seq<nat>, h: nat, lag: nat, dir: int, n: nat)
      returns (last: nat)
    requires SampledAt(s, ticks, h) && Follows(s, ticks, lag, dir)
    requires n <= |s|
    ensures if n == 0 then last == 0 else last <= ticks[n - 1]
    ensures Flap(Signs(s), n).flips <= Block(last, lag) - Block(0, lag)
    ensures Flap(Signs(s), n).sign == 0
         || Flap(Signs(s), n).sign == if PhaseA(HALF_PERIOD_TICKS, last - lag) then dir else -dir
  {
    if n == 0 {
      last := 0;
    } else {
      last := FlipsCrossBlocks(s, ticks, h, lag, dir, n - 1);
      if Sign(s[n - 1]) != 0 {
        SignChangeNeedsBoundary(last, ticks[n - 1], lag);
        last := ticks[n - 1];
      }
    }
  }

  /** A hold of `h` ticks crosses no more boundaries than its whole half-cycles, give or take a lag. */
  lemma BoundariesOfHold(h: nat, lag: nat)
    requires h >= 1
    ensures Block(h - 1, lag) - Block(0, lag)
         <= h / HALF_PERIOD_TICKS + if lag % HALF_PERIOD_TICKS == 0 || h % HALF_PERIOD_TICKS == 0 then 0 else 1
  {
    assert Block(h - 1, lag) * 4 + lag < h <= Block(h - 1, lag) * 4 + 4 + lag;
    assert Block(0, lag) * 4 + lag <= 0 < Block(0, lag) * 4 + 4 + lag;
    assert (h / 4) * 4 + h % 4 == h;
  }

  /**
    Main result.  Over any hold, with any subset of samples dropped, idle or still settling, a battery
    that follows the injected wave shows no more flips than expected when it follows without lag or the
    hold is a whole number of half-cycles, and at most one more for any constant lag.
   */
  lemma NoFalseChatterAlarm(s: seq<Sample>, ticks: seq<nat>, holdS: nat, lag: nat, dir: int)
    requires SampledAt(s, ticks, if holdS < 1 then 1 else holdS) && Follows(s, ticks, lag, dir)
    ensures Flap(Signs(s), |s|).flips
         <= ExpectedTransitions(holdS) + if lag % HALF_PERIOD_TICKS == 0 || holdS % HALF_PERIOD_TICKS == 0 then 0 else 1
    ensures Flap(Signs(s), |s|).flips <= ExpectedTransitions(holdS) + BATT_FLAP_SLACK
  {
    var h := if holdS < 1 then 1 else holdS;
    var last := FlipsCrossBlocks(s, ticks, h, lag, dir, |s|);
    SignChangeNeedsBoundary(last, h - 1, lag);
    BoundariesOfHold(h, lag);
  }

  // ---------------------------------------------------------------- dropping samples

  /** No more flips than `b`, and strictly fewer when it last saw another sign than `b` did. */
  ghost predicate Behind(a: Flapper, b: Flapper) {
    a.flips <= b.flips && (a.sign != 0 && a.sign != b.sign ==> a.flips < b.flips) && (a.sign == 0 ==> a.flips == 0)
  }

  lemma {:induction false} FlapReadsPrefix(g: seq<int>, more: seq<int>, n: nat)
    requires n <= |g|
    ensures Flap(g + more, n) == Flap(g, n)
  {
    if n > 0 {
      FlapReadsPrefix(g, more, n - 1);
    }
  }

  lemma FlapOfAppend(g: seq<int>, x: int)
    ensures Flap(g + [x], |g| + 1) == Observe(Flap(g, |g|), x)
  {
    hide Observe;
    FlapReadsPrefix(g, [x], |g|);
  }

  lemma ObserveKeepsBehind(a: Flapper, b: Flapper, x: int)
    requires Behind(a, b)
    ensures Behind(Observe(a, x), Observe(b, x)) && Behind(a, Observe(b, x))
  {
  }

  ghost predicate KeptBehind(g: seq<int>, keep: seq<bool>, n: nat)
    requires n <= |g| == |keep|
  {
    var k := Hunting.Kept(g, keep, n); Behind(Flap(k, |k|), Flap(g, n))
  }

  lemma KeptBehindStep(g: seq<int>, keep: seq<bool>, n: nat)
    requires n < |g| == |keep| && KeptBehind(g, keep, n)
    ensures KeptBehind(g, keep, n + 1)
  {
    Hunting.KeptOfNext(g, keep, n);
    hide Hunting.Kept, Observe, Behind;
    var k := Hunting.Kept(g, keep, n);
    ObserveKeepsBehind(Flap(k, |k|), Flap(g, n), g[n]);
    FlapOfAppend(k, g[n]);
  }

  lemma NothingKeptBehind(g: seq<int>, keep: seq<bool>)
    requires |g| == |keep|
    ensures KeptBehind(g, keep, 0)
  {
  }

  /** A dropped entry can hide sign changes but never make one. */
  lemma {:induction false} KeptFlapsNoMore(g: seq<int>, keep: seq<bool>, n: nat)
    requires n <= |g| == |keep|
    ensures KeptBehind(g, keep, n)
  {
    hide KeptBehind;
    if n == 0 {
      NothingKeptBehind(g, keep);
    } else {
      KeptFlapsNoMore(g, keep, n - 1);
      KeptBehindStep(g, keep, n - 1);
    }
  }

  /** Losing samples never turns a quiet battery into a chattering one. */
  lemma DroppingNeverAddsFlaps(s: seq<Sample>, keep: seq<bool>)
    requires |keep| == |s|
    ensures var k := Hunting.Kept(s, keep, |s|); Flap(Signs(k), |k|).flips <= Flap(Signs(s), |s|).flips
  {
    KeptFlapsNoMore(Signs(s), keep, |s|);
    assert Signs(Hunting.Kept(s, keep, |s|)) == Hunting.Kept(Signs(s), keep, |s|);
  }
}
