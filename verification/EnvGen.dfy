/**
  The synthetic summer (scripts/replay-launch.py, gen_env).  Every number of a day is a function of the
  generator state and the weather the day starts with, so the specification never mentions how many
  days are generated; the method fills the arrays in place and is proved against it.
 */
module EnvGen {
  import opened Mulberry
  import ReplayCaps

  const DT: real := 0.25
  const TPD := 96
  const PV_KW: real := 8.0

  /** The transcendental parts, left uninterpreted: the Gaussian's shape, sin of a multiple of pi, the elevation power, rounding; and the calendar's label of a day. */
  datatype Maths = Maths(bell: (real, real) -> real, sinPi: real -> real, lift: real -> real, round1: real -> real,
                         round0: real -> int, dayName: nat -> string)

  /** What the generator is run with. */
  datatype Source = Source(out: Generator, m: Maths)

  datatype Weather = Clear | Partly | Rain

  function Clamp(v: real, lo: real, hi: real): (r: real)
    ensures lo <= hi ==> lo <= r <= hi
    ensures lo <= v <= hi ==> r == v
  {
    var a := if v > lo then v else lo;
    if hi < a then hi else a
  }

  /** The run starts on a Monday. */
  predicate Weekend(d: nat) {
    d % 7 == 5 || d % 7 == 6
  }

  function Turn(w: Weather, r: real): Weather {
    match w
    case Clear => if r < 0.55 then Clear else if r < 0.85 then Partly else Rain
    case Partly => if r < 0.35 then Clear else if r < 0.75 then Partly else Rain
    case Rain => if r < 0.30 then Clear else if r < 0.70 then Partly else Rain
  }

  function HeatOf(w: Weather, u: real): real {
    match w
    case Clear => 78.0 + u * 17.0
    case Partly => 73.0 + u * 14.0
    case Rain => 66.0 + u * 9.0
  }

  // ---------------------------------------------------------------- one day

  /** The state two non-zero draws later, and the Gaussian value they give. */
  datatype Draw = Draw(s: Word, v: real)

  function Gauss(src: Source, s: Word, mu: real, sd: real): Draw
  {
    var s1 := NonZero(src.out, s);
    var s2 := NonZero(src.out, s1);
    Draw(s2, mu + sd * src.m.bell(Uniform(src.out, s1), Uniform(src.out, s2)))
  }

  /** An EV trip: left at `dep`, back at `ret`, using `kwh`; a day without one has `dep` negative. */
  datatype Trip = Trip(s: Word, dep: real, ret: real, kwh: real)

  function TripOf(src: Source, d: nat, s: Word): Trip
  {
    var s1 := Succ(s);
    var u1 := Uniform(src.out, s1);
    if !Weekend(d) then
      var s2 := Succ(s1);
      var g := Gauss(src, s2, 11.0, 4.0);
      Trip(g.s, 7.0 + u1 * 2.0, 16.0 + Uniform(src.out, s2) * 2.0, Clamp(g.v, 4.0, 22.0))
    else if u1 < 0.65 then
      var s2 := Succ(s1);
      var s3 := Succ(s2);
      var dep := 9.0 + Uniform(src.out, s2) * 3.0;
      var g := Gauss(src, s3, 7.0, 3.0);
      Trip(g.s, dep, dep + 3.0 + Uniform(src.out, s3) * 4.0, Clamp(g.v, 2.0, 14.0))
    else Trip(s1, -1.0, -1.0, 0.0)
  }

  /** What is settled before the first tick of a day. */
  datatype Head = Head(w: Weather, heat: real, trip: Trip)

  function HeadOf(src: Source, d: nat, s: Word, w: Weather): Head
  {
    var s1 := Succ(s);
    var s2 := Succ(s1);
    var today := Turn(w, Uniform(src.out, s1));
    Head(today, HeatOf(today, Uniform(src.out, s2)), TripOf(src, d, s2))
  }

  /** Generator state and cloud cover before a tick. */
  datatype Sky = Sky(s: Word, cloud: real)

  /** Cloud cover and light factor of a tick, from one draw. */
  function CloudOf(w: Weather, cloud: real, u: real): real {
    if w == Partly then Clamp(cloud + (u - 0.5) * 0.25, 0.25, 0.95) else cloud
  }

  function LightOf(w: Weather, cloud: real, u: real): real {
    match w
    case Clear => 0.93 + 0.07 * u
    case Rain => 0.10 + 0.15 * u
    case Partly => CloudOf(w, cloud, u)
  }

  /** The air conditioner draws a number of its own on these ticks. */
  predicate AcHours(h: real) {
    12.0 <= h < 23.0
  }

  function Hour(i: nat): real {
    i as real * DT
  }

  function AfterTick(src: Source, w: Weather, sky: Sky, i: nat): Sky {
    var s1 := Succ(sky.s);
    var s2 := Succ(s1);
    Sky(if AcHours(Hour(i)) then Succ(s2) else s2, CloudOf(w, sky.cloud, Uniform(src.out, s1)))
  }

  function SkyAt(src: Source, hd: Head, i: nat): Sky {
    if i == 0 then Sky(hd.trip.s, 0.7) else AfterTick(src, hd.w, SkyAt(src, hd, i - 1), i - 1)
  }

  /** Solar power at an hour of the day, by light factor. */
  function PvPower(m: Maths, h: real, wf: real): real {
    var elev := if 5.4 < h < 20.2 then m.sinPi((h - 5.4) / 14.8) else 0.0;
    PV_KW * m.lift(elev) * wf
  }

  function PvOf(src: Source, hd: Head, sky: Sky, i: nat): real {
    PvPower(src.m, Hour(i), LightOf(hd.w, sky.cloud, Uniform(src.out, Succ(sky.s))))
  }

  /** What a house draws without cooling, by its random share. */
  function PlainLoad(m: Maths, h: real, u: real): real {
    var base := 0.45 + 0.1 * u;
    var morning := if 6.0 <= h < 9.0 then base + 0.7 * m.sinPi((h - 6.0) / 3.0) else base;
    if 17.0 <= h < 22.0 then morning + 1.0 * m.sinPi((h - 17.0) / 5.0) else morning
  }

  /** What cooling adds on a hot day. */
  function AcLoad(m: Maths, heat: real, h: real, u: real): real {
    var f := (heat - 72.0) / 22.0;
    (if f > 0.0 then f else 0.0) * 2.6 * m.sinPi((h - 12.0) / 11.0) * (0.75 + 0.5 * u)
  }

  function LoadOf(src: Source, hd: Head, sky: Sky, i: nat): real {
    var h, s2 := Hour(i), Succ(Succ(sky.s));
    PlainLoad(src.m, h, Uniform(src.out, s2))
    + if AcHours(h) then AcLoad(src.m, hd.heat, h, Uniform(src.out, Succ(s2))) else 0.0
  }

  predicate Away(t: Trip, i: nat) {
    t.dep >= 0.0 && t.dep <= Hour(i) < t.ret
  }

  /** The tick of the day an EV that went out is booked as back on. */
  function BackAt(t: Trip): (i: nat)
    requires t.ret >= 0.0
    ensures i < TPD
  {
    var i := (t.ret / DT).Floor;
    if i < TPD - 1 then i else TPD - 1
  }

  function ArriveOf(t: Trip, i: nat): real {
    if t.dep >= 0.0 && t.ret >= 0.0 && i == BackAt(t) then t.kwh else 0.0
  }

  /** The day's DER events, and the generator state they leave. */
  datatype Evening = Evening(s: Word, events: seq<ReplayCaps.Event>)

  function CapEvents(src: Source, d: nat, hd: Head, s: Word): Evening {
    if hd.w == Rain then Evening(s, [])
    else
      var s1 := Succ(s);
      if !(Uniform(src.out, s1) < if hd.heat > 85.0 then 0.30 else 0.10) then Evening(s1, [])
      else
        var s2, s3, s4, s5 := Succ(s1), Succ(Succ(s1)), Succ(Succ(Succ(s1))), Succ(Succ(Succ(Succ(s1))));
        var start := 10.5 + Uniform(src.out, s2) * 2.0;
        var end := start + (2.0 + Uniform(src.out, s3) * 3.0);
        var u := Uniform(src.out, s5);
        if Uniform(src.out, s4) < 0.6
        then Evening(s5, [ReplayCaps.Event(d, ReplayCaps.ExportEvent, src.m.round1(1.0 + u * 2.0), start, end)])
        else Evening(s5, [ReplayCaps.Event(d, ReplayCaps.GenEvent, src.m.round1(PV_KW * (0.35 + u * 0.3)), start, end)])
  }

  function PeakEvents(src: Source, d: nat, hd: Head, s: Word): Evening {
    if !(hd.heat > 86.0) then Evening(s, [])
    else
      var s1 := Succ(s);
      if !(Uniform(src.out, s1) < 0.28) then Evening(s1, [])
      else
        var s2, s3, s4 := Succ(s1), Succ(Succ(s1)), Succ(Succ(Succ(s1)));
        var start := 16.5 + Uniform(src.out, s2) * 1.5;
        var end := start + (1.5 + Uniform(src.out, s3) * 2.5);
        Evening(s4, [ReplayCaps.Event(d, ReplayCaps.ImportEvent, src.m.round1(1.5 + Uniform(src.out, s4) * 1.5), start, end)])
  }

  function EveningOf(src: Source, d: nat, hd: Head, s: Word): Evening {
    var e1 := CapEvents(src, d, hd, s);
    var e2 := PeakEvents(src, d, hd, e1.s);
    Evening(e2.s, e1.events + e2.events)
  }

  // ---------------------------------------------------------------- all days

  /** Generator state and weather before day `d`. */
  datatype Dawn = Dawn(s: Word, w: Weather)

  function DawnOf(src: Source, seed: int, d: nat): Dawn
    decreases d, 0
  {
    if d == 0 then Dawn(seed % M, Clear)
    else
      var hd := DayHead(src, seed, d - 1);
      Dawn(EveningOf(src, d - 1, hd, SkyAt(src, hd, TPD).s).s, hd.w)
  }

  function DayHead(src: Source, seed: int, d: nat): Head
    decreases d, 1
  {
    var dawn := DawnOf(src, seed, d);
    HeadOf(src, d, dawn.s, dawn.w)
  }

  function PvAt(src: Source, seed: int, t: nat): real
  {
    var hd := DayHead(src, seed, t / TPD);
    PvOf(src, hd, SkyAt(src, hd, t % TPD), t % TPD)
  }

  function LoadAt(src: Source, seed: int, t: nat): real
  {
    var hd := DayHead(src, seed, t / TPD);
    LoadOf(src, hd, SkyAt(src, hd, t % TPD), t % TPD)
  }

  predicate AwayAt(src: Source, seed: int, t: nat)
  {
    Away(DayHead(src, seed, t / TPD).trip, t % TPD)
  }

  function ArrivalAt(src: Source, seed: int, t: nat): real
  {
    ArriveOf(DayHead(src, seed, t / TPD).trip, t % TPD)
  }

  function EventsTo(src: Source, seed: int, d: nat): seq<ReplayCaps.Event>
  {
    if d == 0 then []
    else
      var hd := DayHead(src, seed, d - 1);
      EventsTo(src, seed, d - 1) + EveningOf(src, d - 1, hd, SkyAt(src, hd, TPD).s).events
  }

  /** How many days had which weather, and the greatest heat. */
  datatype Tally = Tally(clear: nat, partly: nat, rain: nat, maxHeat: real)
  {
    function Plus(w: Weather, heat: real): Tally {
      Tally(clear + if w == Clear then 1 else 0, partly + if w == Partly then 1 else 0, rain + if w == Rain then 1 else 0,
            if heat > maxHeat then heat else maxHeat)
    }
  }

  function TallyTo(src: Source, seed: int, d: nat): Tally {
    if d == 0 then Tally(0, 0, 0, 0.0)
    else
      var hd := DayHead(src, seed, d - 1);
      TallyTo(src, seed, d - 1).Plus(hd.w, hd.heat)
  }

  function DatesTo(src: Source, d: nat): (dates: seq<string>)
    ensures |dates| == d
  {
    seq(d, (k: nat) => src.m.dayName(k))
  }

  /** The environment of a run. */
  datatype Summer = Summer(pv: seq<real>, load: seq<real>, home: seq<bool>, arrive: seq<real>, events: seq<ReplayCaps.Event>,
                           dates: seq<string>, weather: Tally, maxHeat: int)

  function SummerOf(src: Source, seed: int, days: nat): Summer {
    var n := days * TPD;
    var tally := TallyTo(src, seed, days);
    Summer(seq(n, (t: nat) => PvAt(src, seed, t)), seq(n, (t: nat) => LoadAt(src, seed, t)),
           seq(n, (t: nat) => !AwayAt(src, seed, t)), seq(n, (t: nat) => ArrivalAt(src, seed, t)), EventsTo(src, seed, days),
           DatesTo(src, days), tally, src.m.round0(tally.maxHeat))
  }

  // ---------------------------------------------------------------- the generator itself

  method DrawGauss(src: Source, rnd: Rng, mu: real, sd: real) returns (v: real)
    requires rnd.out == src.out
    modifies rnd
    ensures Gauss(src, old(rnd.s), mu, sd) == Draw(rnd.s, v)
  {
    var u := rnd.NextNonZero();
    var w := rnd.NextNonZero();
    v := mu + sd * src.m.bell(u, w);
  }

  method DrawHead(src: Source, rnd: Rng, d: nat, wType: Weather) returns (hd: Head)
    requires rnd.out == src.out
    modifies rnd
    ensures hd == HeadOf(src, d, old(rnd.s), wType) && rnd.s == hd.trip.s
  {
    var r := rnd.Next();
    var w := Turn(wType, r);
    var u := rnd.Next();
    var dep, ret, trip := -1.0, -1.0, 0.0;
    var u1 := rnd.Next();
    if !Weekend(d) {
      dep := 7.0 + u1 * 2.0;
      var u2 := rnd.Next();
      ret := 16.0 + u2 * 2.0;
      var g := DrawGauss(src, rnd, 11.0, 4.0);
      trip := Clamp(g, 4.0, 22.0);
    } else if u1 < 0.65 {
      var u2 := rnd.Next();
      dep := 9.0 + u2 * 3.0;
      var u3 := rnd.Next();
      ret := dep + 3.0 + u3 * 4.0;
      var g := DrawGauss(src, rnd, 7.0, 3.0);
      trip := Clamp(g, 2.0, 14.0);
    }
    hd := Head(w, HeatOf(w, u), Trip(rnd.s, dep, ret, trip));
  }

  /** One tick: cloud, light, load, and the air conditioner's extra number in its hours. */
  method DrawTick(src: Source, rnd: Rng, hd: Head, cloud: real, i: nat) returns (cloud': real, pv: real, load: real)
    requires rnd.out == src.out
    modifies rnd
    ensures AfterTick(src, hd.w, Sky(old(rnd.s), cloud), i) == Sky(rnd.s, cloud')
    ensures pv == PvOf(src, hd, Sky(old(rnd.s), cloud), i) && load == LoadOf(src, hd, Sky(old(rnd.s), cloud), i)
  {
    var h := i as real * DT;
    cloud' := cloud;
    var wf;
    var u := rnd.Next();
    match hd.w {
      case Clear => wf := 0.93 + 0.07 * u;
      case Rain => wf := 0.10 + 0.15 * u;
      case Partly =>
        cloud' := Clamp(cloud + (u - 0.5) * 0.25, 0.25, 0.95);
        wf := cloud';
    }
    pv := PvPower(src.m, h, wf);
    var u2 := rnd.Next();
    load := PlainLoad(src.m, h, u2);
    if AcHours(h) {
      var u3 := rnd.Next();
      load := load + AcLoad(src.m, hd.heat, h, u3);
    }
  }

  method DrawCapEvents(src: Source, rnd: Rng, d: nat, hd: Head) returns (evts: seq<ReplayCaps.Event>)
    requires rnd.out == src.out
    modifies rnd
    ensures CapEvents(src, d, hd, old(rnd.s)) == Evening(rnd.s, evts)
  {
    hide Succ, Uniform;
    evts := [];
    if hd.w != Rain {
      var u := rnd.Next();
      if u < if hd.heat > 85.0 then 0.30 else 0.10 {
        var u2 := rnd.Next();
        var u3 := rnd.Next();
        var start, dur := 10.5 + u2 * 2.0, 2.0 + u3 * 3.0;
        var u4 := rnd.Next();
        var u5 := rnd.Next();
        if u4 < 0.6 {
          evts := [ReplayCaps.Event(d, ReplayCaps.ExportEvent, src.m.round1(1.0 + u5 * 2.0), start, start + dur)];
        } else {
          evts := [ReplayCaps.Event(d, ReplayCaps.GenEvent, src.m.round1(PV_KW * (0.35 + u5 * 0.3)), start, start + dur)];
        }
      }
    }
  }

  method DrawPeakEvents(src: Source, rnd: Rng, d: nat, hd: Head) returns (evts: seq<ReplayCaps.Event>)
    requires rnd.out == src.out
    modifies rnd
    ensures PeakEvents(src, d, hd, old(rnd.s)) == Evening(rnd.s, evts)
  {
    hide Succ, Uniform;
    evts := [];
    if hd.heat > 86.0 {
      var u := rnd.Next();
      if u < 0.28 {
        var u2 := rnd.Next();
        var u3 := rnd.Next();
        var start, dur := 16.5 + u2 * 1.5, 1.5 + u3 * 2.5;
        var u4 := rnd.Next();
        evts := [ReplayCaps.Event(d, ReplayCaps.ImportEvent, src.m.round1(1.5 + u4 * 1.5), start, start + dur)];
      }
    }
  }

  method DrawEvening(src: Source, rnd: Rng, d: nat, hd: Head) returns (evts: seq<ReplayCaps.Event>)
    requires rnd.out == src.out
    modifies rnd
    ensures EveningOf(src, d, hd, old(rnd.s)) == Evening(rnd.s, evts)
  {
    var caps := DrawCapEvents(src, rnd, d, hd);
    var peak := DrawPeakEvents(src, rnd, d, hd);
    evts := caps + peak;
  }

  // ---------------------------------------------------------------- filling the arrays

  /** What the series are to hold, tick by tick. */
  datatype Target = Target(pv: nat -> real, load: nat -> real, away: nat -> bool, arrive: nat -> real)

  function TargetOf(src: Source, seed: int): Target {
    Target((t: nat) => PvAt(src, seed, t), (t: nat) => LoadAt(src, seed, t),
           (t: nat) => AwayAt(src, seed, t), (t: nat) => ArrivalAt(src, seed, t))
  }

  /** The target on tick `t`, tick `i` of its day, is what the day's head and sky give. */
  ghost predicate OnTarget(g: Target, src: Source, t: nat, hd: Head, sky: Sky, i: nat) {
    g.pv(t) == PvOf(src, hd, sky, i) && g.load(t) == LoadOf(src, hd, sky, i) && g.away(t) == Away(hd.trip, i)
  }

  ghost predicate DayOnTarget(g: Target, src: Source, first: nat, hd: Head) {
    forall i :: 0 <= i < TPD ==> OnTarget(g, src, first + i, hd, SkyAt(src, hd, i), i)
  }

  lemma TargetOfTick(src: Source, seed: int, d: nat, i: nat)
    requires i < TPD
    ensures var hd := DayHead(src, seed, d); OnTarget(TargetOf(src, seed), src, d * TPD + i, hd, SkyAt(src, hd, i), i)
    ensures TargetOf(src, seed).arrive(d * TPD + i) == ArriveOf(DayHead(src, seed, d).trip, i)
  {
    hide PvOf, LoadOf, Away, ArriveOf, DayHead, SkyAt;
    var t := d * TPD + i;
    assert t / TPD == d && t % TPD == i;
  }

  /** The three series one loop fills are on target before tick `n`, and the house is occupied from there on. */
  ghost predicate Filled(g: Target, pv: array<real>, load: array<real>, home: array<bool>, n: nat)
    reads pv, load, home
  {
    && n <= pv.Length == load.Length == home.Length
    && (forall t :: 0 <= t < n ==> pv[t] == g.pv(t))
    && (forall t :: 0 <= t < n ==> load[t] == g.load(t))
    && (forall t :: 0 <= t < n ==> home[t] == !g.away(t))
    && (forall t :: n <= t < home.Length ==> home[t])
  }

  /** Write one tick into the series. */
  method Store(ghost g: Target, pv: array<real>, load: array<real>, home: array<bool>, t: nat, p: real, l: real, away: bool)
    requires pv != load && t < pv.Length && Filled(g, pv, load, home, t)
    requires p == g.pv(t) && l == g.load(t) && away == g.away(t)
    modifies pv, load, home
    ensures Filled(g, pv, load, home, t + 1)
  {
    pv[t] := p;
    load[t] := l;
    if away {
      home[t] := false;
    }
  }

  /** Draw one tick and store it. */
  method FillTick(src: Source, rnd: Rng, ghost g: Target, pv: array<real>, load: array<real>, home: array<bool>,
                  t: nat, hd: Head, cloud: real, i: nat) returns (cloud': real)
    requires rnd.out == src.out && pv != load && t < pv.Length && Filled(g, pv, load, home, t)
    requires Sky(rnd.s, cloud) == SkyAt(src, hd, i) && OnTarget(g, src, t, hd, SkyAt(src, hd, i), i)
    modifies rnd, pv, load, home
    ensures Filled(g, pv, load, home, t + 1)
    ensures Sky(rnd.s, cloud') == SkyAt(src, hd, i + 1)
  {
    var p, l;
    cloud', p, l := DrawTick(src, rnd, hd, cloud, i);
    Store(g, pv, load, home, t, p, l, Away(hd.trip, i));
  }

  /** Fill one day's ticks. */
  method FillDay(src: Source, rnd: Rng, ghost g: Target, pv: array<real>, load: array<real>, home: array<bool>, first: nat, hd: Head)
    requires rnd.out == src.out && pv != load && first + TPD <= pv.Length
    requires Filled(g, pv, load, home, first) && rnd.s == hd.trip.s && DayOnTarget(g, src, first, hd)
    modifies rnd, pv, load, home
    ensures Filled(g, pv, load, home, first + TPD)
    ensures rnd.s == SkyAt(src, hd, TPD).s
  {
    hide PvOf, LoadOf, AfterTick, PvPower, PlainLoad;
    var cloud := 0.7;
    for i := 0 to TPD
      invariant Filled(g, pv, load, home, first + i)
      invariant Sky(rnd.s, cloud) == SkyAt(src, hd, i)
    {
      assert OnTarget(g, src, first + i, hd, SkyAt(src, hd, i), i);
      cloud := FillTick(src, rnd, g, pv, load, home, first + i, hd, cloud, i);
    }
  }

  /** The arrivals before tick `n` are booked, and none after. */
  ghost predicate Booked(g: Target, arrive: array<real>, n: nat)
    reads arrive
  {
    && (forall t :: 0 <= t < arrive.Length && t < n ==> arrive[t] == g.arrive(t))
    && (forall t :: 0 <= t < arrive.Length && t >= n ==> arrive[t] == 0.0)
  }

  /** Book the day's arrival, on a tick of the same day. */
  method BookArrival(ghost g: Target, arrive: array<real>, d: nat, trip: Trip)
    requires (d + 1) * TPD <= arrive.Length && Booked(g, arrive, d * TPD)
    requires forall i :: 0 <= i < TPD ==> g.arrive(d * TPD + i) == ArriveOf(trip, i)
    modifies arrive
    ensures Booked(g, arrive, d * TPD + TPD)
  {
    var first := d * TPD;
    if trip.dep >= 0.0 && trip.ret >= 0.0 {
      arrive[first + BackAt(trip)] := trip.kwh;
    }
    forall t | first <= t < first + TPD
      ensures arrive[t] == g.arrive(t)
    {
      assert g.arrive(d * TPD + (t - first)) == ArriveOf(trip, t - first);
    }
  }

  /** One day: its head, its ticks, its arrival and its events. */
  method GenDay(src: Source, rnd: Rng, ghost seed: int, pv: array<real>, load: array<real>, home: array<bool>, arrive: array<real>,
                d: nat, wType: Weather) returns (wType': Weather, heat: real, evts: seq<ReplayCaps.Event>)
    requires rnd.out == src.out && DawnOf(src, seed, d) == Dawn(rnd.s, wType)
    requires pv != load && pv != arrive && load != arrive && (d + 1) * TPD <= pv.Length == arrive.Length
    requires Filled(TargetOf(src, seed), pv, load, home, d * TPD) && Booked(TargetOf(src, seed), arrive, d * TPD)
    modifies rnd, pv, load, home, arrive
    ensures DawnOf(src, seed, d + 1) == Dawn(rnd.s, wType')
    ensures Filled(TargetOf(src, seed), pv, load, home, d * TPD + TPD) && Booked(TargetOf(src, seed), arrive, d * TPD + TPD)
    ensures EventsTo(src, seed, d + 1) == EventsTo(src, seed, d) + evts
    ensures TallyTo(src, seed, d + 1) == TallyTo(src, seed, d).Plus(wType', heat)
  {
    hide PvOf, LoadOf, ArriveOf, AfterTick, CapEvents, PeakEvents, TripOf;
    ghost var g := TargetOf(src, seed);
    var hd := DrawHead(src, rnd, d, wType);
    forall i | 0 <= i < TPD
      ensures OnTarget(g, src, d * TPD + i, hd, SkyAt(src, hd, i), i) && g.arrive(d * TPD + i) == ArriveOf(hd.trip, i)
    {
      TargetOfTick(src, seed, d, i);
    }
    FillDay(src, rnd, g, pv, load, home, d * TPD, hd);
    BookArrival(g, arrive, d, hd.trip);
    evts := DrawEvening(src, rnd, d, hd);
    wType', heat := hd.w, hd.heat;
  }

  lemma FilledIsSummer(src: Source, seed: int, days: nat, pv: array<real>, load: array<real>, home: array<bool>, arrive: array<real>)
    requires pv.Length == arrive.Length == days * TPD
    requires Filled(TargetOf(src, seed), pv, load, home, days * TPD) && Booked(TargetOf(src, seed), arrive, days * TPD)
    ensures var tally := TallyTo(src, seed, days);
            Summer(pv[..], load[..], home[..], arrive[..], EventsTo(src, seed, days), DatesTo(src, days), tally,
                   src.m.round0(tally.maxHeat)) == SummerOf(src, seed, days)
  {
    hide PvAt, LoadAt, AwayAt, ArrivalAt, EventsTo, TallyTo, DatesTo;
    var g, x := TargetOf(src, seed), SummerOf(src, seed, days);
    assert forall t: nat :: g.pv(t) == PvAt(src, seed, t) && g.load(t) == LoadAt(src, seed, t);
    assert forall t: nat :: g.away(t) == AwayAt(src, seed, t) && g.arrive(t) == ArrivalAt(src, seed, t);
    assert pv[..] == x.pv && load[..] == x.load;
    assert home[..] == x.home && arrive[..] == x.arrive;
  }

  lemma DatesOfNext(src: Source, d: nat)
    ensures DatesTo(src, d + 1) == DatesTo(src, d) + [src.m.dayName(d)]
  {
  }

  lemma NothingGenerated(src: Source, seed: int)
    ensures DatesTo(src, 0) == [] && TallyTo(src, seed, 0) == Tally(0, 0, 0, 0.0) && EventsTo(src, seed, 0) == []
    ensures DawnOf(src, seed, 0) == Dawn(seed % M, Clear)
  {
  }

  lemma NothingFilled(g: Target, pv: array<real>, load: array<real>, home: array<bool>, arrive: array<real>)
    requires pv.Length == load.Length == home.Length
    requires forall t :: 0 <= t < home.Length ==> home[t]
    requires forall t :: 0 <= t < arrive.Length ==> arrive[t] == 0.0
    ensures Filled(g, pv, load, home, 0) && Booked(g, arrive, 0)
  {
  }

  /** The whole environment: the series in place, and what is counted and listed day by day. */
  method GenEnv(src: Source, seed: int, days: nat)
      returns (pv: array<real>, load: array<real>, home: array<bool>, arrive: array<real>, events: seq<ReplayCaps.Event>,
               dates: seq<string>, weather: Tally, maxHeat: int)
    requires src.out == Output
    ensures Summer(pv[..], load[..], home[..], arrive[..], events, dates, weather, maxHeat) == SummerOf(src, seed, days)
  {
    hide DawnOf, DayHead, EveningOf, SkyAt, TargetOf, DatesTo, TallyTo, EventsTo, SummerOf, Filled, Booked;
    var n := days * TPD;
    var rnd := new Rng(seed);
    pv := new real[n](_ => 0.0);
    load := new real[n](_ => 0.0);
    home := new bool[n](_ => true);
    arrive := new real[n](_ => 0.0);
    events, dates, weather := [], [], Tally(0, 0, 0, 0.0);
    var wType := Clear;
    NothingGenerated(src, seed);
    NothingFilled(TargetOf(src, seed), pv, load, home, arrive);
    for d := 0 to days
      invariant rnd.out == src.out && DawnOf(src, seed, d) == Dawn(rnd.s, wType)
      invariant Filled(TargetOf(src, seed), pv, load, home, d * TPD) && Booked(TargetOf(src, seed), arrive, d * TPD)
      invariant events == EventsTo(src, seed, d) && dates == DatesTo(src, d) && weather == TallyTo(src, seed, d)
    {
      assert (d + 1) * TPD == d * TPD + TPD <= n;
      DatesOfNext(src, d);
      dates := dates + [src.m.dayName(d)];
      var heat, evts;
      wType, heat, evts := GenDay(src, rnd, seed, pv, load, home, arrive, d, wType);
      weather := weather.Plus(wType, heat);
      events := events + evts;
    }
    maxHeat := src.m.round0(weather.maxHeat);
    FilledIsSummer(src, seed, days, pv, load, home, arrive);
  }
}
