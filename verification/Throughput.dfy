/** The starvation guard (`eval_throughput`, chat2/src/openai.rs:491-513). Instants and durations are nanoseconds;
    the average is an exact real where the code uses a double. */
module Throughput {
  import opened Text

  const SECOND: nat := 1_000_000_000

  /** The running average and the instant since when it has been below the floor. */
  datatype Gauge = Gauge(average: real, starvedSince: Option<nat>)

  /** One evaluated window: content bytes in it, whether warm-up is over, and when it was evaluated. */
  datatype Window = Window(bytes: nat, warmed: bool, at: nat)

  function Since(now: nat, start: nat): nat { if now >= start then now - start else 0 }

  function Average(prev: real, bytes: nat): real { 0.6 * prev + 0.4 * (bytes as real) }

  predicate Low(average: real, w: Window, floor: nat) { w.warmed && average < floor as real }

  function Evaluate(g: Gauge, w: Window, floor: nat): Gauge {
    var average := Average(g.average, w.bytes);
    if !Low(average, w, floor) then Gauge(average, None)
    else if g.starvedSince.Some? then Gauge(average, g.starvedSince)
    else Gauge(average, Some(w.at))
  }

  predicate Overdue(g: Gauge, now: nat, sustained: nat) {
    g.starvedSince.Some? && Since(now, g.starvedSince.value) >= sustained
  }

  method EvalThroughput(prevAverage: real, bytesThisWindow: nat, floorBps: nat, warmed: bool,
                        starvedSince: Option<nat>, nowSinceStart: nat, sustained: nat)
    returns (average: real, starved: bool, starvedSince': Option<nat>)
    ensures Gauge(average, starvedSince')
         == Evaluate(Gauge(prevAverage, starvedSince), Window(bytesThisWindow, warmed, nowSinceStart), floorBps)
    ensures starved <==> Overdue(Gauge(average, starvedSince'), nowSinceStart, sustained)
  {
    average := 0.6 * prevAverage + 0.4 * (bytesThisWindow as real);
    starvedSince' := starvedSince;
    if warmed && average < floorBps as real {
      if starvedSince'.None? {
        starvedSince' := Some(nowSinceStart);
      }
      var elapsed := if nowSinceStart >= starvedSince'.value then nowSinceStart - starvedSince'.value else 0;
      starved := elapsed >= sustained;
    } else {
      starvedSince' := None;
      starved := false;
    }
  }

  // ---- whole runs of windows ----

  function After(g: Gauge, ws: seq<Window>, floor: nat): Gauge {
    if ws == [] then g else Evaluate(After(g, ws[..|ws| - 1], floor), ws[|ws| - 1], floor)
  }

  /** The guard trips at the last window of `ws`. */
  predicate TripsAt(g: Gauge, ws: seq<Window>, floor: nat, sustained: nat) {
    ws != [] && Overdue(After(g, ws, floor), ws[|ws| - 1].at, sustained)
  }

  predicate LowAt(g: Gauge, ws: seq<Window>, floor: nat, i: nat)
    requires i < |ws|
  {
    Low(After(g, ws[..i + 1], floor).average, ws[i], floor)
  }

  /** The last `k` windows are all warmed up and below the floor. */
  predicate LowStreak(g: Gauge, ws: seq<Window>, floor: nat, k: nat) {
    k <= |ws| && forall i: nat | |ws| - k <= i < |ws| :: LowAt(g, ws, floor, i)
  }

  predicate Ordered(ws: seq<Window>) { forall i, j | 0 <= i <= j < |ws| :: ws[i].at <= ws[j].at }

  lemma {:induction false} LowAtPrefix(g: Gauge, ws: seq<Window>, floor: nat, n: nat, i: nat)
    requires i < n <= |ws|
    ensures LowAt(g, ws[..n], floor, i) == LowAt(g, ws, floor, i)
  {
    assert ws[..n][..i + 1] == ws[..i + 1];
  }

  /** The clock shows the first window of the longest low streak. */
  lemma {:induction false} ClockStart(g: Gauge, ws: seq<Window>, floor: nat) returns (k: nat)
    requires g.starvedSince.None?
    ensures LowStreak(g, ws, floor, k)
    ensures k < |ws| ==> !LowAt(g, ws, floor, |ws| - 1 - k)
    ensures After(g, ws, floor).starvedSince == if k == 0 then None else Some(ws[|ws| - k].at)
    decreases |ws|
  {
    var n := |ws| - 1;
    if ws == [] {
      k := 0;
    } else if !LowAt(g, ws, floor, n) {
      assert ws[..n + 1] == ws;
      k := 0;
    } else {
      assert ws[..n + 1] == ws;
      var init := ws[..n];
      var k' := ClockStart(g, init, floor);
      k := k' + 1;
      forall i: nat | i < n ensures LowAt(g, init, floor, i) == LowAt(g, ws, floor, i) {
        LowAtPrefix(g, ws, floor, n, i);
      }
    }
  }

  /** The guard trips exactly when some low streak ending now spans the sustained time. */
  lemma {:induction false} TripsIff(g: Gauge, ws: seq<Window>, floor: nat, sustained: nat)
    requires g.starvedSince.None? && Ordered(ws)
    ensures TripsAt(g, ws, floor, sustained) <==>
            exists k: nat | 0 < k <= |ws| ::
              LowStreak(g, ws, floor, k) && Since(ws[|ws| - 1].at, ws[|ws| - k].at) >= sustained
  {
    var k0 := ClockStart(g, ws, floor);
    forall k: nat | 0 < k <= |ws| && LowStreak(g, ws, floor, k) ensures k <= k0 { }
  }

  function Total(ws: seq<Window>): nat {
    if ws == [] then 0 else Total(ws[..|ws| - 1]) + ws[|ws| - 1].bytes
  }

  lemma {:induction false} AverageNonNegative(g: Gauge, ws: seq<Window>, floor: nat)
    requires g.average >= 0.0
    ensures After(g, ws, floor).average >= 0.0
    decreases |ws|
  {
    if ws != [] { AverageNonNegative(g, ws[..|ws| - 1], floor); }
  }

  lemma AddFloor(k: nat, f: real)
    requires k >= 1
    ensures (k as real - 1.0) * f == ((k - 1) as real - 1.0) * f + f
  {
  }

  /** Bytes seen in a low streak, against the average it ended with and the one it started from. */
  lemma {:induction false} StreakBytes(g: Gauge, ws: seq<Window>, floor: nat, k: nat)
    requires 0 < k && LowStreak(g, ws, floor, k)
    ensures var before, now := After(g, ws[..|ws| - k], floor).average, After(g, ws, floor).average;
            0.4 * (Total(ws[|ws| - k..]) as real) <= now - 0.6 * before + 0.4 * ((k as real - 1.0) * (floor as real))
    decreases k
  {
    var n := |ws| - 1;
    var init, last := ws[..n], ws[n];
    var tail := ws[|ws| - k..];
    assert tail[..|tail| - 1] == init[|init| - (k - 1)..];
    assert tail[|tail| - 1] == last;
    assert Total(tail) == Total(init[|init| - (k - 1)..]) + last.bytes;
    assert After(g, ws, floor).average == 0.6 * After(g, init, floor).average + 0.4 * (last.bytes as real);
    if k == 1 {
      assert Total(init[|init|..]) == 0;
      assert ws[..|ws| - k] == init;
    } else {
      forall i: nat | |init| - (k - 1) <= i < |init| ensures LowAt(g, init, floor, i) {
        LowAtPrefix(g, ws, floor, n, i);
      }
      StreakBytes(g, init, floor, k - 1);
      assert init[..|init| - (k - 1)] == ws[..|ws| - k];
      assert LowAt(g, init, floor, n - 1);
      assert init[..n - 1 + 1] == init;
      AddFloor(k, floor as real);
    }
  }

  /** If the guard trips, some windows ending now are all warmed up, below the floor and span the sustained time,
      and their content is less than floor * (k + 1.5); less than floor * k if the streak began by dropping below it. */
  lemma {:induction false} StarvationSoundness(g: Gauge, ws: seq<Window>, floor: nat, sustained: nat) returns (k: nat)
    requires g.starvedSince.None? && g.average >= 0.0
    requires TripsAt(g, ws, floor, sustained)
    ensures 0 < k <= |ws| && LowStreak(g, ws, floor, k)
    ensures Since(ws[|ws| - 1].at, ws[|ws| - k].at) >= sustained
    ensures Total(ws[|ws| - k..]) as real < (floor as real) * (k as real + 1.5)
    ensures k < |ws| && ws[|ws| - 1 - k].warmed ==> Total(ws[|ws| - k..]) as real < (floor as real) * (k as real)
  {
    k := ClockStart(g, ws, floor);
    StreakBytes(g, ws, floor, k);
    AverageNonNegative(g, ws[..|ws| - k], floor);
    assert LowAt(g, ws, floor, |ws| - 1);
    assert ws[..|ws| - 1 + 1] == ws;
    if k < |ws| && ws[|ws| - 1 - k].warmed {
      assert !LowAt(g, ws, floor, |ws| - 1 - k);
      assert ws[..|ws| - 1 - k + 1] == ws[..|ws| - k];
    }
  }

  // ---- silence ----

  function Decay(j: nat): real { if j == 0 then 1.0 else 0.6 * Decay(j - 1) }

  predicate Silent(ws: seq<Window>) {
    && (forall i | 0 <= i < |ws| :: ws[i].bytes == 0 && ws[i].warmed)
    && (forall i | 0 < i < |ws| :: ws[i].at >= ws[i - 1].at + SECOND)
  }

  lemma {:induction false} SilentDecay(g: Gauge, ws: seq<Window>, floor: nat)
    requires Silent(ws)
    ensures After(g, ws, floor).average == Decay(|ws|) * g.average
    decreases |ws|
  {
    if ws != [] {
      SilentDecay(g, ws[..|ws| - 1], floor);
      Scale(Decay(|ws| - 1), g.average);
    }
  }

  lemma Scale(d: real, e: real)
    ensures 0.6 * (d * e) == (0.6 * d) * e
  {
  }

  lemma {:induction false} DecayFalls(e: real, j: nat, n: nat)
    requires e >= 0.0 && j <= n
    ensures 0.0 <= Decay(n) * e <= Decay(j) * e
    decreases n
  {
    if n == j {
      DecaySign(n);
    } else {
      DecayFalls(e, j, n - 1);
      Scale(Decay(n - 1), e);
    }
  }

  lemma {:induction false} DecaySign(n: nat)
    ensures Decay(n) > 0.0
  {
    if n > 0 { DecaySign(n - 1); }
  }

  lemma {:induction false} SilentPace(ws: seq<Window>, i: nat, j: nat)
    requires Silent(ws) && i <= j < |ws|
    ensures ws[j].at >= ws[i].at + (j - i) * SECOND
    decreases j
  {
    if i < j { SilentPace(ws, i, j - 1); }
  }

  function WholeSeconds(d: nat): nat { (d + SECOND - 1) / SECOND }

  /** Under silence the clock has started by window `j`, if the average decays below the floor in `j` windows. */
  lemma {:induction false} SilentClock(g: Gauge, ws: seq<Window>, floor: nat, j: nat)
    requires Silent(ws) && g.average >= 0.0 && 1 <= j <= |ws|
    requires Decay(j) * g.average < floor as real
    requires g.starvedSince.Some? ==> g.starvedSince.value <= ws[0].at
    ensures After(g, ws, floor).starvedSince.Some? && After(g, ws, floor).starvedSince.value <= ws[j - 1].at
    decreases |ws|
  {
    hide Decay;
    var init := ws[..|ws| - 1];
    SilentDecay(g, ws, floor);
    DecayFalls(g.average, j, |ws|);
    assert Low(After(g, ws, floor).average, ws[|ws| - 1], floor);
    if |ws| > j {
      SilentClock(g, init, floor, j);
    } else {
      ClockNotAhead(g, init, floor);
      assert j - 1 > 0 ==> init[|init| - 1].at <= ws[j - 1].at;
      SilentPace(ws, 0, j - 1);
    }
  }

  lemma {:induction false} ClockNotAhead(g: Gauge, ws: seq<Window>, floor: nat)
    requires Silent(ws)
    requires g.starvedSince.Some? && ws != [] ==> g.starvedSince.value <= ws[0].at
    ensures var s := After(g, ws, floor).starvedSince;
            s.Some? ==> s == g.starvedSince || (ws != [] && s.value <= ws[|ws| - 1].at)
    decreases |ws|
  {
    if ws != [] { ClockNotAhead(g, ws[..|ws| - 1], floor); }
  }

  /** Silence trips the guard within `j` windows of decay plus the sustained time in whole seconds. */
  lemma {:induction false} StarvationLiveness(g: Gauge, ws: seq<Window>, floor: nat, sustained: nat, j: nat)
    requires Silent(ws) && g.average >= 0.0
    requires j >= 1 && Decay(j) * g.average < floor as real
    requires g.starvedSince.Some? && ws != [] ==> g.starvedSince.value <= ws[0].at
    requires |ws| >= j + WholeSeconds(sustained)
    ensures TripsAt(g, ws, floor, sustained)
  {
    SilentClock(g, ws, floor, j);
    SilentPace(ws, j - 1, |ws| - 1);
    assert WholeSeconds(sustained) * SECOND >= sustained;
  }

  /** With no floor, or from an average and with windows at the floor or above, the guard never trips. */
  lemma {:induction false} NeverTrips(g: Gauge, ws: seq<Window>, floor: nat, sustained: nat)
    requires g.starvedSince.None? && g.average >= floor as real
    requires floor == 0 || forall i | 0 <= i < |ws| :: ws[i].bytes >= floor
    ensures !TripsAt(g, ws, floor, sustained)
    ensures After(g, ws, floor).average >= floor as real && After(g, ws, floor).starvedSince.None?
    decreases |ws|
  {
    if ws != [] { NeverTrips(g, ws[..|ws| - 1], floor, sustained); }
  }

  // ---- from rest ----

  /** Where every attempt starts. */
  const RESTING := Gauge(0.0, None)

  predicate AtMost(ws: seq<Window>, bytes: nat) { forall i | 0 <= i < |ws| :: ws[i].bytes <= bytes }

  predicate AtLeast(ws: seq<Window>, bytes: nat) { forall i | 0 <= i < |ws| :: ws[i].bytes >= bytes }

  /** Windows at the floor or below never bring the average up to it. */
  lemma {:induction false} NeverUp(ws: seq<Window>, floor: nat)
    requires floor > 0 && AtMost(ws, floor)
    ensures After(RESTING, ws, floor).average < floor as real
    decreases |ws|
  {
    if ws != [] { NeverUp(ws[..|ws| - 1], floor); }
  }

  /** The last `k` windows are warmed up and span the sustained time. */
  predicate WarmSpan(ws: seq<Window>, sustained: nat, k: nat) {
    && 0 < k <= |ws| && Since(ws[|ws| - 1].at, ws[|ws| - k].at) >= sustained
    && forall i | |ws| - k <= i < |ws| :: ws[i].warmed
  }

  /** So a stream that keeps exactly to the floor, or below it, is starved as soon as its warmed windows span the
      sustained time: to live it must exceed the floor. */
  lemma {:induction false} AtFloorTripsIff(ws: seq<Window>, floor: nat, sustained: nat)
    requires floor > 0 && AtMost(ws, floor) && Ordered(ws)
    ensures TripsAt(RESTING, ws, floor, sustained) <==> exists k: nat :: WarmSpan(ws, sustained, k)
  {
    hide After, TripsAt;
    TripsIff(RESTING, ws, floor, sustained);
    forall i: nat | i < |ws| ensures LowAt(RESTING, ws, floor, i) <==> ws[i].warmed { NeverUp(ws[..i + 1], floor); }
    forall k: nat ensures WarmSpan(ws, sustained, k) <==>
      0 < k <= |ws| && LowStreak(RESTING, ws, floor, k) && Since(ws[|ws| - 1].at, ws[|ws| - k].at) >= sustained
    {
      if 0 < k <= |ws| && LowStreak(RESTING, ws, floor, k) {
        forall i | |ws| - k <= i < |ws| ensures ws[i].warmed { assert LowAt(RESTING, ws, floor, i); }
      }
    }
  }

  /** Windows of `bytes` or more bring the average from rest to this at least. */
  lemma {:induction false} RisesTo(ws: seq<Window>, floor: nat, bytes: nat)
    requires AtLeast(ws, bytes)
    ensures After(RESTING, ws, floor).average >= (1.0 - Decay(|ws|)) * (bytes as real)
    decreases |ws|
  {
    if ws != [] {
      var d, b := Decay(|ws| - 1), bytes as real;
      RisesTo(ws[..|ws| - 1], floor, bytes);
      RiseStep(d, b);
    }
  }

  lemma {:induction false} RiseStep(d: real, b: real)
    ensures 0.6 * ((1.0 - d) * b) + 0.4 * b == (1.0 - 0.6 * d) * b
  {
  }

  /** From rest, windows that exceed the floor by enough never trip the guard: by the time warm-up is over, at each
      warmed window, the average must have had the windows to rise. */
  lemma {:induction false} NeverTripsFromRest(ws: seq<Window>, floor: nat, sustained: nat, bytes: nat)
    requires AtLeast(ws, bytes)
    requires forall i: nat | i < |ws| && ws[i].warmed :: (1.0 - Decay(i + 1)) * (bytes as real) >= floor as real
    ensures !TripsAt(RESTING, ws, floor, sustained) && After(RESTING, ws, floor).starvedSince.None?
    decreases |ws|
  {
    hide Decay;
    if ws != [] {
      RisesTo(ws, floor, bytes);
      assert !Low(After(RESTING, ws, floor).average, ws[|ws| - 1], floor);
    }
  }

  // ---- the average, without its history ----

  /** What a window contributes once its weight has decayed to `d`. */
  function Share(d: real, bytes: nat): real { 0.4 * d * (bytes as real) }

  /** Each window's bytes, less by two fifths for every window since. */
  function Weighted(ws: seq<Window>): real {
    if ws == [] then 0.0 else Share(Decay(|ws| - 1), ws[0].bytes) + Weighted(ws[1..])
  }

  lemma {:induction false} ShareDecays(d: real, bytes: nat)
    ensures Share(0.6 * d, bytes) == 0.6 * Share(d, bytes)
  {
  }

  lemma {:induction false} WeightedOneMore(ws: seq<Window>, w: Window)
    ensures Weighted(ws + [w]) == 0.6 * Weighted(ws) + 0.4 * (w.bytes as real)
    decreases |ws|
  {
    hide Share;
    var more := ws + [w];
    if ws == [] {
      assert more[1..] == [];
      FullShare(w.bytes);
    } else {
      assert more[1..] == ws[1..] + [w];
      WeightedOneMore(ws[1..], w);
      ShareDecays(Decay(|ws| - 1), ws[0].bytes);
    }
  }

  lemma FullShare(bytes: nat)
    ensures Share(Decay(0), bytes) == 0.4 * (bytes as real)
  {
  }

  /** The average after any windows from rest is their weighted sum, whatever the floor. */
  lemma {:induction false} AverageIsWeighted(ws: seq<Window>, floor: nat)
    ensures After(RESTING, ws, floor).average == Weighted(ws)
    decreases |ws|
  {
    hide Weighted;
    if ws == [] {
      NoWeight();
    } else {
      AverageIsWeighted(ws[..|ws| - 1], floor);
      WeightedOneMore(ws[..|ws| - 1], ws[|ws| - 1]);
      assert ws[..|ws| - 1] + [ws[|ws| - 1]] == ws;
    }
  }

  lemma NoWeight()
    ensures Weighted([]) == 0.0
  {
  }
}
