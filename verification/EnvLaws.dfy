/**
  The synthetic summer by its numbers: which draws are used for what, and the ranges and thresholds the
  weather, trips, sun, load and events keep.
 */
module EnvLaws {
  import opened Mulberry
  import opened EnvGen
  import ReplayCaps

  /** The number drawn `k` steps on. */
  function Drawn(src: Source, s: Word, k: nat): (u: real)
    ensures 0.0 <= u < 1.0
  {
    Uniform(src.out, Walk(s, k))
  }

  lemma FirstSteps(s: Word)
    ensures Walk(s, 1) == Succ(s) && Walk(s, 2) == Succ(Succ(s)) && Walk(s, 3) == Succ(Succ(Succ(s)))
    ensures Walk(s, 4) == Succ(Succ(Succ(Succ(s)))) && Walk(s, 5) == Succ(Succ(Succ(Succ(Succ(s)))))
  {
    assert Walk(s, 0) == s;
    assert Walk(s, 2) == Succ(Walk(s, 1)) && Walk(s, 3) == Succ(Walk(s, 2));
    assert Walk(s, 4) == Succ(Walk(s, 3)) && Walk(s, 5) == Succ(Walk(s, 4));
  }

  lemma {:induction false} WalkAdds(s: Word, j: nat, k: nat)
    ensures Walk(Walk(s, j), k) == Walk(s, j + k)
  {
    if k > 0 {
      WalkAdds(s, j, k - 1);
    }
  }

  /** The first numbers from seed 0, and the first from seed 1337, as 32-bit outputs; a number drawn is its output over 2^32. */
  lemma FirstOutputs()
    ensures Mix(0x6D2B79F5) == 1144304738 && Mix(0xDA56F3EA) == 1416247 && Mix(0x47826DDF) == 958946056
    ensures Mix(0x6D2B7F2E) == 792042790
    ensures Orbit(0, 1) == 0x6D2B79F5 && Orbit(0, 2) == 0xDA56F3EA && Orbit(0, 3) == 0x47826DDF && Orbit(1337, 1) == 0x6D2B7F2E
    ensures forall n: Word :: Unit(n) * 4294967296.0 == n as real
  {
  }

  // ---------------------------------------------------------------- the morning of a day

  /** The weather moves by one draw: clear days stay clear at 55%, half-clear ones clear up at 35%, rain at 30%; it rains next at 15, 25 and 30%. */
  lemma WeatherTurns(w: Weather, u: real)
    ensures Turn(w, u) == Clear <==> (w == Clear && u < 0.55) || (w == Partly && u < 0.35) || (w == Rain && u < 0.30)
    ensures Turn(w, u) == Rain <==> (w == Clear && u >= 0.85) || (w == Partly && u >= 0.75) || (w == Rain && u >= 0.70)
  {
  }

  /** The first draw of a day turns the weather, the second sets the heat: 78 to 95, 73 to 87 or 66 to 75 degrees. */
  lemma DayOpens(src: Source, d: nat, s: Word, w: Weather)
    ensures var hd, u := HeadOf(src, d, s, w), Drawn(src, s, 2);
            && hd.w == Turn(w, Drawn(src, s, 1)) && hd.trip == TripOf(src, d, Walk(s, 2))
            && (hd.w == Clear ==> hd.heat == 78.0 + 17.0 * u && 78.0 <= hd.heat < 95.0)
            && (hd.w == Partly ==> hd.heat == 73.0 + 14.0 * u && 73.0 <= hd.heat < 87.0)
            && (hd.w == Rain ==> hd.heat == 66.0 + 9.0 * u && 66.0 <= hd.heat < 75.0)
  {
    FirstSteps(s);
    hide TripOf, Turn;
  }

  /** On weekdays the EV leaves between seven and nine and is back between four and six in the afternoon. */
  lemma WeekdayTrip(src: Source, d: nat, s: Word)
    requires d % 7 < 5
    ensures var t := TripOf(src, d, s);
            && t.dep == 7.0 + 2.0 * Drawn(src, s, 1) && t.ret == 16.0 + 2.0 * Drawn(src, s, 2)
            && t.s == Gauss(src, Walk(s, 2), 11.0, 4.0).s && 4.0 <= t.kwh <= 22.0
            && (4.0 <= Gauss(src, Walk(s, 2), 11.0, 4.0).v <= 22.0 ==> t.kwh == Gauss(src, Walk(s, 2), 11.0, 4.0).v)
  {
    FirstSteps(s);
    hide Gauss;
  }

  /** At weekends it goes out on 65% of days, between nine and noon, for three to seven hours. */
  lemma WeekendTrip(src: Source, d: nat, s: Word)
    requires d % 7 >= 5
    ensures var t, out := TripOf(src, d, s), Drawn(src, s, 1) < 0.65;
            && (!out ==> t == Trip(Walk(s, 1), -1.0, -1.0, 0.0))
            && (out ==>
                  && t.dep == 9.0 + 3.0 * Drawn(src, s, 2) && t.ret - t.dep == 3.0 + 4.0 * Drawn(src, s, 3)
                  && t.s == Gauss(src, Walk(s, 3), 7.0, 3.0).s && 2.0 <= t.kwh <= 14.0
                  && (2.0 <= Gauss(src, Walk(s, 3), 7.0, 3.0).v <= 14.0 ==> t.kwh == Gauss(src, Walk(s, 3), 7.0, 3.0).v))
  {
    FirstSteps(s);
    hide Gauss;
  }

  /** A Gaussian number is shaped from two draws, each the next that is not zero. */
  lemma GaussDraws(src: Source, s: Word, mu: real, sd: real) returns (j: nat, k: nat)
    ensures 1 <= j < k
    ensures Gauss(src, s, mu, sd) == Draw(Walk(s, k), mu + sd * src.m.bell(Drawn(src, s, j), Drawn(src, s, k)))
    ensures forall i :: 1 <= i < k ==> (src.out(Walk(s, i)) != 0 <==> i == j)
    ensures src.out(Walk(s, k)) != 0
  {
    j := NonZeroIsFirst(src.out, s);
    var s1 := NonZero(src.out, s);
    var m := NonZeroIsFirst(src.out, s1);
    k := j + m;
    WalkAdds(s, j, m);
    forall i | 1 <= i < k
      ensures src.out(Walk(s, i)) != 0 <==> i == j
    {
      if i > j {
        WalkAdds(s, j, i - j);
      }
    }
  }

  // ---------------------------------------------------------------- the ticks of a day

  /** How many numbers the ticks before `i` use: two each, and a third from noon to eleven in the evening. */
  function DrawsBefore(i: nat): nat {
    2 * i + if i <= 48 then 0 else if i <= 92 then i - 48 else 44
  }

  /** Every tick's draws are at a fixed place after the trip's, whatever the weather: a day's ticks use 236 numbers. */
  lemma {:induction false} TickDraws(src: Source, hd: Head, i: nat)
    requires i <= 96
    ensures SkyAt(src, hd, i).s == Walk(hd.trip.s, DrawsBefore(i))
    ensures DrawsBefore(96) == 236
  {
    if i > 0 {
      TickDraws(src, hd, i - 1);
      var s := SkyAt(src, hd, i - 1).s;
      FirstSteps(s);
      WalkAdds(hd.trip.s, DrawsBefore(i - 1), 2);
      WalkAdds(hd.trip.s, DrawsBefore(i - 1), 3);
      hide Walk, CloudOf;
      assert AcHours(Hour(i - 1)) <==> 48 <= i - 1 < 92;
    }
  }

  /** The light of a tick: 93 to 100% on a clear day, 10 to 25% in rain, the cloud walk in between. */
  lemma LightFits(w: Weather, cloud: real, u: real)
    requires 0.0 <= u < 1.0
    ensures w == Clear ==> LightOf(w, cloud, u) == 0.93 + 0.07 * u && CloudOf(w, cloud, u) == cloud
    ensures w == Rain ==> LightOf(w, cloud, u) == 0.10 + 0.15 * u && CloudOf(w, cloud, u) == cloud
    ensures w == Partly ==> LightOf(w, cloud, u) == CloudOf(w, cloud, u) && 0.25 <= CloudOf(w, cloud, u) <= 0.95
    ensures w == Partly && 0.25 <= cloud + 0.25 * (u - 0.5) <= 0.95 ==> CloudOf(w, cloud, u) == cloud + 0.25 * (u - 0.5)
    ensures 0.25 <= cloud <= 0.95 ==> -0.125 <= CloudOf(w, cloud, u) - cloud <= 0.125
  {
  }

  /** The cloud walk starts a day at 70%, and moves by the first draw of each tick. */
  lemma CloudMoves(src: Source, hd: Head, i: nat)
    ensures SkyAt(src, hd, 0).cloud == 0.7
    ensures SkyAt(src, hd, i + 1).cloud == CloudOf(hd.w, SkyAt(src, hd, i).cloud, Drawn(src, SkyAt(src, hd, i).s, 1))
  {
    FirstSteps(SkyAt(src, hd, i).s);
    hide CloudOf;
  }

  /** 8 kW of panels: lit by the height of the sun between 5:24 and 20:12 and by the light of the tick's first draw. */
  lemma SunShines(src: Source, hd: Head, sky: Sky, i: nat)
    ensures var light, h := LightOf(hd.w, sky.cloud, Drawn(src, sky.s, 1)), i as real * 0.25;
            && (5.4 < h < 20.2 ==> PvOf(src, hd, sky, i) == 8.0 * src.m.lift(src.m.sinPi((h - 5.4) / (20.2 - 5.4))) * light)
            && (!(5.4 < h < 20.2) ==> PvOf(src, hd, sky, i) == 8.0 * src.m.lift(0.0) * light)
  {
    FirstSteps(sky.s);
    hide LightOf;
  }

  /** What the house draws apart from cooling: 450 to 550 W, and arches over it from six to nine and from five to ten. */
  lemma HouseDraws(src: Source, hd: Head, sky: Sky, i: nat)
    requires !(48 <= i < 92)
    ensures var h, base := i as real * 0.25, 0.45 + 0.1 * Drawn(src, sky.s, 2);
            && (6.0 <= h < 9.0 ==> LoadOf(src, hd, sky, i) == base + 0.7 * src.m.sinPi((h - 6.0) / 3.0))
            && (h < 6.0 || 9.0 <= h ==> LoadOf(src, hd, sky, i) == base)
  {
    FirstSteps(sky.s);
  }

  /** From noon to eleven cooling comes on top, by the third draw: nothing at 72 degrees or less, and in proportion above. */
  lemma CoolingDraws(src: Source, hd: Head, sky: Sky, i: nat)
    requires 48 <= i < 92
    ensures var h, base := i as real * 0.25, 0.45 + 0.1 * Drawn(src, sky.s, 2);
            var evening := if 17.0 <= h < 22.0 then 1.0 * src.m.sinPi((h - 17.0) / 5.0) else 0.0;
            var cooling := LoadOf(src, hd, sky, i) - base - evening;
            && (hd.heat <= 72.0 ==> cooling == 0.0)
            && (hd.heat > 72.0 ==> cooling == (hd.heat - 72.0) / 22.0 * 2.6 * src.m.sinPi((h - 12.0) / 11.0) * (0.75 + 0.5 * Drawn(src, sky.s, 3)))
  {
    FirstSteps(sky.s);
    var h := i as real * 0.25;
    assert 12.0 <= h < 23.0;
  }

  /** The EV is away from its departure to its return, and its energy is booked once a day. */
  lemma EvIsAway(t: Trip, i: nat)
    ensures Away(t, i) <==> t.dep >= 0.0 && t.dep <= i as real * 0.25 < t.ret
    ensures t.ret >= 0.0 && t.dep >= 0.0 ==> ArriveOf(t, i) == if i == BackAt(t) then t.kwh else 0.0
    ensures t.dep < 0.0 ==> ArriveOf(t, i) == 0.0
  {
  }

  // ---------------------------------------------------------------- the events of a day

  /** On a dry day, at 30% when over 85 degrees and at 10% otherwise, one export or generation limit is drawn. */
  lemma CapEventDrawn(src: Source, d: nat, hd: Head, s: Word)
    ensures var e, chance := CapEvents(src, d, hd, s), if hd.heat > 85.0 then 0.30 else 0.10;
            && (hd.w == Rain ==> e == Evening(s, []))
            && (hd.w != Rain && Drawn(src, s, 1) >= chance ==> e == Evening(Walk(s, 1), []))
            && (hd.w != Rain && Drawn(src, s, 1) < chance ==>
                  && e.s == Walk(s, 5) && |e.events| == 1 && e.events[0].day == d
                  && e.events[0].start == 10.5 + 2.0 * Drawn(src, s, 2)
                  && e.events[0].end - e.events[0].start == 2.0 + 3.0 * Drawn(src, s, 3)
                  && (if Drawn(src, s, 4) < 0.6
                      then e.events[0].typ == ReplayCaps.ExportEvent && e.events[0].limit == src.m.round1(1.0 + 2.0 * Drawn(src, s, 5))
                      else e.events[0].typ == ReplayCaps.GenEvent
                           && e.events[0].limit == src.m.round1(8.0 * (0.35 + 0.3 * Drawn(src, s, 5)))))
  {
    FirstSteps(s);
  }

  /** Over 86 degrees, at 28%, one import limit for the evening is drawn. */
  lemma PeakEventDrawn(src: Source, d: nat, hd: Head, s: Word)
    ensures var e := PeakEvents(src, d, hd, s);
            && (hd.heat <= 86.0 ==> e == Evening(s, []))
            && (hd.heat > 86.0 && Drawn(src, s, 1) >= 0.28 ==> e == Evening(Walk(s, 1), []))
            && (hd.heat > 86.0 && Drawn(src, s, 1) < 0.28 ==>
                  && e.s == Walk(s, 4) && |e.events| == 1 && e.events[0].day == d && e.events[0].typ == ReplayCaps.ImportEvent
                  && e.events[0].start == 16.5 + 1.5 * Drawn(src, s, 2)
                  && e.events[0].end - e.events[0].start == 1.5 + 2.5 * Drawn(src, s, 3)
                  && e.events[0].limit == src.m.round1(1.5 + 1.5 * Drawn(src, s, 4)))
  {
    FirstSteps(s);
  }

  /** A day goes on where the one before ended, the first from the seed and a clear sky. */
  lemma DaysFollow(src: Source, seed: int, d: nat)
    ensures DawnOf(src, seed, 0) == Dawn(seed % 0x1_0000_0000, Clear)
    ensures var hd := DayHead(src, seed, d);
            && hd == HeadOf(src, d, DawnOf(src, seed, d).s, DawnOf(src, seed, d).w)
            && DawnOf(src, seed, d + 1).w == hd.w
            && DawnOf(src, seed, d + 1).s
            == PeakEvents(src, d, hd, CapEvents(src, d, hd, Walk(hd.trip.s, 236)).s).s
  {
    TickDraws(src, DayHead(src, seed, d), 96);
    hide HeadOf, CapEvents, PeakEvents, SkyAt;
  }
}
