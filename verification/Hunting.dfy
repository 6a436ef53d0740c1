/**
  The one-pass flag machine of the hunting oracle is optimal: its crossing count is the greatest
  number of recover-then-breach alternations that can be found in the post-settling timeline at all.
 */
module Hunting {
  import opened Timeline
  import opened Invariants

  /** What the hunting oracle sees in a sample. */
  datatype Mark = Recovery | Breach | Neither

  function MarkOf(c: Constraint, s: Sample): Mark {
    if !PastDeadline(s) then Neither
    else if Breaches(c, s) then Breach
    else if BreachOver(c, s) < -HUNT_HYSTERESIS_W then Recovery
    else Neither
  }

  function Marks(c: Constraint, s: seq<Sample>): (m: seq<Mark>)
    ensures |m| == |s|
    ensures forall i :: 0 <= i < |s| ==> m[i] == MarkOf(c, s[i])
  {
    seq(|s|, i requires 0 <= i < |s| => MarkOf(c, s[i]))
  }

  datatype Flag = Flag(up: bool, count: nat)

  function Advance(f: Flag, x: Mark): Flag {
    if x.Breach? && f.up then Flag(false, f.count + 1)
    else if x.Recovery? then f.(up := true)
    else f
  }

  /** The flag machine on marks alone. */
  function Sweep(m: seq<Mark>, n: nat): Flag
    requires n <= |m|
  {
    if n == 0 then Flag(false, 0) else Advance(Sweep(m, n - 1), m[n - 1])
  }

  /** The oracle is the flag machine on the marks of the timeline. */
  lemma {:induction false} SweepIsHuntRun(c: Constraint, s: seq<Sample>, n: nat)
    requires n <= |s|
    ensures Sweep(Marks(c, s), n) == Flag(HuntRun(c, s, n).recovered, |HuntRun(c, s, n).crossings|)
  {
    if n > 0 {
      SweepIsHuntRun(c, s, n - 1);
    }
  }

  // ---------------------------------------------------------------- optimality

  /** One cycle: a clear recovery at `r`, a breach at `b`. */
  datatype Cycle = Cycle(r: nat, b: nat)

  /** Within the first `n` marks, recoveries and breaches alternate r1 < b1 < r2 < b2 < ... */
  ghost predicate Alternation(m: seq<Mark>, n: nat, w: seq<Cycle>) {
    && n <= |m|
    && (forall i :: 0 <= i < |w| ==> w[i].r < w[i].b < n && m[w[i].r] == Recovery && m[w[i].b] == Breach)
    && (forall i, j :: 0 <= i < j < |w| ==> w[i].b < w[j].r)
  }

  /** The first `n` marks show a recovery, at `r`, after the last cycle of `w`. */
  ghost predicate Pending(m: seq<Mark>, n: nat, w: seq<Cycle>, r: nat) {
    r < n <= |m| && m[r] == Recovery && (w != [] ==> w[|w| - 1].b < r)
  }

  /** No alternation is longer than the count, and one with a recovery to spare is shorter unless the flag is up. */
  lemma {:induction false} SweepUpperBound(m: seq<Mark>, n: nat, w: seq<Cycle>)
    requires Alternation(m, n, w)
    ensures |w| <= Sweep(m, n).count
    ensures forall r :: Pending(m, n, w, r) && !Sweep(m, n).up ==> |w| < Sweep(m, n).count
  {
    assert w != [] ==> w[0].b < n;
    if n > 0 {
      if w != [] && w[|w| - 1].b == n - 1 {
        var u := w[..|w| - 1];
        assert Alternation(m, n - 1, u);
        assert Pending(m, n - 1, u, w[|w| - 1].r);
        SweepUpperBound(m, n - 1, u);
      } else {
        assert Alternation(m, n - 1, w);
        SweepUpperBound(m, n - 1, w);
        forall r: nat | Pending(m, n, w, r) && !Sweep(m, n).up
          ensures |w| < Sweep(m, n).count
        {
          assert r < n - 1 ==> Pending(m, n - 1, w, r);
        }
      }
    }
  }

  lemma AlternationGrows(m: seq<Mark>, n: nat, w: seq<Cycle>, r: nat)
    requires n < |m| && Alternation(m, n, w)
    ensures Alternation(m, n + 1, w)
    ensures m[n] == Breach && Pending(m, n, w, r) ==> Alternation(m, n + 1, w + [Cycle(r, n)])
    ensures Pending(m, n, w, r) ==> Pending(m, n + 1, w, r)
    ensures m[n] == Recovery ==> Pending(m, n + 1, w, n)
  {
  }

  lemma SweepNext(m: seq<Mark>, n: nat)
    requires n < |m|
    ensures Sweep(m, 0) == Flag(false, 0) && Sweep(m, n + 1) == Advance(Sweep(m, n), m[n])
  {
  }

  /** The alternation the flag machine actually finds. */
  lemma {:induction false} SweepWitness(m: seq<Mark>, n: nat) returns (w: seq<Cycle>, r: nat)
    requires n <= |m|
    ensures Alternation(m, n, w)
    ensures |w| == Sweep(m, n).count
    ensures Sweep(m, n).up ==> Pending(m, n, w, r)
  {
    if n == 0 {
      w, r := [], 0;
    } else {
      w, r := SweepWitness(m, n - 1);
      SweepNext(m, n - 1);
      AlternationGrows(m, n - 1, w, r);
      hide Sweep, Alternation, Pending;
      if m[n - 1].Breach? && Sweep(m, n - 1).up {
        w := w + [Cycle(r, n - 1)];
      } else if m[n - 1].Recovery? {
        r := n - 1;
      }
    }
  }

  /** The crossing count is the maximum number of alternations. */
  lemma SweepIsOptimal(m: seq<Mark>)
    ensures exists w :: Alternation(m, |m|, w) && |w| == Sweep(m, |m|).count
    ensures forall w :: Alternation(m, |m|, w) ==> |w| <= Sweep(m, |m|).count
  {
    var w, _ := SweepWitness(m, |m|);
    forall v | Alternation(m, |m|, v)
      ensures |v| <= Sweep(m, |m|).count
    {
      SweepUpperBound(m, |m|, v);
    }
  }

  /** Main result.  The oracle reports hunting exactly when three recover-then-breach cycles exist, and then reports every one it counted. */
  lemma HuntIsOptimal(c: Constraint, s: seq<Sample>)
    ensures Hunt(c, s) != [] <==> exists w :: Alternation(Marks(c, s), |s|, w) && |w| == HUNT_UP_CROSSINGS
    ensures Hunt(c, s) != [] ==> forall w :: Alternation(Marks(c, s), |s|, w) ==> |w| <= |Hunt(c, s)|
    ensures Hunt(c, s) != [] ==> exists w :: Alternation(Marks(c, s), |s|, w) && |w| == |Hunt(c, s)|
    ensures |Hunt(c, s)| == 0 || |Hunt(c, s)| >= 3
  {
    var m := Marks(c, s);
    SweepIsHuntRun(c, s, |s|);
    SweepIsOptimal(m);
    var w :| Alternation(m, |m|, w) && |w| == Sweep(m, |m|).count;
    if |w| >= HUNT_UP_CROSSINGS {
      assert Alternation(m, |m|, w[..HUNT_UP_CROSSINGS]);
    }
  }

  // ---------------------------------------------------------------- deleting samples

  /** Which of the first `n` samples a mask keeps, as positions in the full timeline. */
  function Origins(keep: seq<bool>, n: nat): (o: seq<nat>)
    requires n <= |keep|
    ensures forall i :: 0 <= i < |o| ==> o[i] < n
    ensures forall i, j :: 0 <= i < j < |o| ==> o[i] < o[j]
  {
    if n == 0 then [] else Origins(keep, n - 1) + if keep[n - 1] then [n - 1] else []
  }

  /** The kept elements among the first `n`, in order. */
  function Kept<T>(s: seq<T>, keep: seq<bool>, n: nat): (k: seq<T>)
    requires n <= |s| == |keep|
    ensures |k| == |Origins(keep, n)|
    ensures forall i :: 0 <= i < |k| ==> k[i] == s[Origins(keep, n)[i]]
  {
    if n == 0 then [] else Kept(s, keep, n - 1) + if keep[n - 1] then [s[n - 1]] else []
  }

  lemma MarksOfKept(c: Constraint, s: seq<Sample>, keep: seq<bool>)
    requires |keep| == |s|
    ensures Marks(c, Kept(s, keep, |s|)) == Kept(Marks(c, s), keep, |s|)
  {
  }

  /** Deleting marks never raises the count. */
  lemma KeptCountsNoMore(m: seq<Mark>, keep: seq<bool>)
    requires |keep| == |m|
    ensures var k := Kept(m, keep, |m|); Sweep(k, |k|).count <= Sweep(m, |m|).count
  {
    var k, o := Kept(m, keep, |m|), Origins(keep, |m|);
    var w, _ := SweepWitness(k, |k|);
    var v := seq(|w|, i requires 0 <= i < |w| => Cycle(o[w[i].r], o[w[i].b]));
    assert Alternation(m, |m|, v);
    SweepUpperBound(m, |m|, v);
  }

  /** Dropping samples never makes a timeline look more like hunting. */
  lemma DeletionNeverAddsHunting(c: Constraint, s: seq<Sample>, keep: seq<bool>)
    requires |keep| == |s|
    ensures |Hunt(c, Kept(s, keep, |s|))| <= |Hunt(c, s)|
  {
    var k := Kept(s, keep, |s|);
    SweepIsHuntRun(c, s, |s|);
    SweepIsHuntRun(c, k, |k|);
    MarksOfKept(c, s, keep);
    KeptCountsNoMore(Marks(c, s), keep);
  }

  /** The flag machine reads no further than it is told to. */
  lemma {:induction false} SweepReadsPrefix(m: seq<Mark>, more: seq<Mark>, n: nat)
    requires n <= |m|
    ensures Sweep(m + more, n) == Sweep(m, n)
  {
    if n > 0 {
      SweepReadsPrefix(m, more, n - 1);
    }
  }

  lemma SweepOfAppend(m: seq<Mark>, x: Mark)
    ensures Sweep(m + [x], |m| + 1) == Advance(Sweep(m, |m|), x)
  {
    hide Advance;
    SweepReadsPrefix(m, [x], |m|);
  }

  lemma KeptOfNext<T>(s: seq<T>, keep: seq<bool>, n: nat)
    requires n < |s| == |keep|
    ensures Kept(s, keep, n + 1) == if keep[n] then Kept(s, keep, n) + [s[n]] else Kept(s, keep, n)
  {
  }

  /** The flag machine stands the same after the kept marks as after all of them. */
  ghost predicate SweepsAlike(m: seq<Mark>, keep: seq<bool>, n: nat)
    requires n <= |m| == |keep|
  {
    var k := Kept(m, keep, n); Sweep(k, |k|) == Sweep(m, n)
  }

  lemma NeutralMarkStep(m: seq<Mark>, keep: seq<bool>, n: nat)
    requires n < |m| == |keep| && SweepsAlike(m, keep, n)
    requires !keep[n] ==> m[n] == Neither
    ensures SweepsAlike(m, keep, n + 1)
  {
    KeptOfNext(m, keep, n);
    hide Kept;
    if keep[n] {
      SweepOfAppend(Kept(m, keep, n), m[n]);
    }
  }

  lemma NoMarksSweepAlike(m: seq<Mark>, keep: seq<bool>)
    requires |m| == |keep|
    ensures SweepsAlike(m, keep, 0)
  {
  }

  lemma {:induction false} NeutralMarksAreInvisible(m: seq<Mark>, keep: seq<bool>, n: nat)
    requires n <= |m| == |keep|
    requires forall i :: 0 <= i < n && !keep[i] ==> m[i] == Neither
    ensures SweepsAlike(m, keep, n)
  {
    hide SweepsAlike;
    if n == 0 {
      NoMarksSweepAlike(m, keep);
    } else {
      NeutralMarksAreInvisible(m, keep, n - 1);
      NeutralMarkStep(m, keep, n - 1);
    }
  }

  /** Dropping samples whose judging sensor was absent changes nothing at all. */
  lemma AbsentSamplesAreInvisible(c: Constraint, s: seq<Sample>, keep: seq<bool>)
    requires |keep| == |s|
    requires forall i :: 0 <= i < |s| && !keep[i] ==> !JudgedBy(c, s[i])
    ensures |Hunt(c, Kept(s, keep, |s|))| == |Hunt(c, s)|
  {
    var k := Kept(s, keep, |s|);
    SweepIsHuntRun(c, s, |s|);
    SweepIsHuntRun(c, k, |k|);
    MarksOfKept(c, s, keep);
    NeutralMarksAreInvisible(Marks(c, s), keep, |s|);
  }
}
