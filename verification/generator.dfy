/**
 * The telemetry generator: 40 temperatures of a clamped random walk that
 * climbs while the cooling system is on and falls while it is off, with a
 * hysteresis that switches it off above 90 and on again below 55. Each
 * temperature is written to the measurements file as a decimal line.
 *
 * `rand() % 40` is taken as a parameter: `draws[i]` is the value it gives
 * in step `i`.
 */
module Generator {
  import opened CText

  const Steps: nat := 40
  const Start: int := 45
  const Floor: int := 45
  const Cap: int := 105
  const SwitchOffAbove: int := 90
  const SwitchOnBelow: int := 55

  /** A value `rand() % 40` can give. */
  predicate IsDraw(d: int)
  {
    0 <= d < 40
  }

  predicate AllDraws(draws: seq<int>)
  {
    forall i :: 0 <= i < |draws| ==> IsDraw(draws[i])
  }

  /**
   * One step of the walk: up by 10 to 49 and capped at 105 while active,
   * down by 10 to 49 and floored at 45 while inactive.
   */
  function NextTemp(temp: int, active: bool, draw: int): (t: int)
    requires IsDraw(draw)
    ensures active ==> t <= Cap && (t == Cap || 10 <= t - temp < 50) && (temp < Cap ==> t > temp)
    ensures !active ==> t >= Floor && (t == Floor || 10 <= temp - t < 50) && (temp > Floor ==> t < temp)
  {
    if active then
      var up := temp + draw + 10;
      if up > Cap then Cap else up
    else
      var down := temp - (draw + 10);
      if down < Floor then Floor else down
  }

  /**
   * The flag after writing `temp`: off above 90, then on below 55, in that
   * order; otherwise as it was. The two thresholds never both apply.
   */
  function Hysteresis(temp: int, active: bool): (a: bool)
    ensures temp > SwitchOffAbove ==> !a
    ensures temp < SwitchOnBelow ==> a
    ensures SwitchOnBelow <= temp <= SwitchOffAbove ==> a == active
  {
    var afterOff := if temp > SwitchOffAbove then false else active;
    if temp < SwitchOnBelow then true else afterOff
  }

  /** What holds of the walk at the head of every iteration. */
  predicate Safe(temp: int, active: bool)
  {
    && Floor <= temp <= Cap
    && (active ==> temp <= SwitchOffAbove)
    && (!active ==> temp >= SwitchOnBelow)
  }

  /** The temperatures the walk writes from `temp` with the flag `active`. */
  function Walk(temp: int, active: bool, draws: seq<int>): seq<int>
    requires AllDraws(draws)
    decreases |draws|
  {
    if draws == [] then []
    else
      var t := NextTemp(temp, active, draws[0]);
      [t] + Walk(t, Hysteresis(t, active), draws[1..])
  }

  /** The flag after the walk has written its temperatures. */
  function ActiveAfter(temp: int, active: bool, draws: seq<int>): bool
    requires AllDraws(draws)
    decreases |draws|
  {
    if draws == [] then active
    else
      var t := NextTemp(temp, active, draws[0]);
      ActiveAfter(t, Hysteresis(t, active), draws[1..])
  }

  /** The temperature after the walk has written its temperatures. */
  function TempAfter(temp: int, active: bool, draws: seq<int>): int
    requires AllDraws(draws)
    decreases |draws|
  {
    if draws == [] then temp
    else
      var t := NextTemp(temp, active, draws[0]);
      TempAfter(t, Hysteresis(t, active), draws[1..])
  }

  /** Each step keeps the walk safe: the hysteresis invariant of the loop. */
  lemma StepKeepsSafe(temp: int, active: bool, draw: int)
    requires Safe(temp, active) && IsDraw(draw)
    ensures var t := NextTemp(temp, active, draw); Safe(t, Hysteresis(t, active))
  {
  }

  /**
   * From a safe state, every temperature written lies in [45, 105]; every
   * step moves the temperature (up while active, down while inactive); and
   * a temperature above 90 is followed by a fall, one below 55 by a rise.
   */
  lemma {:induction false} WalkBounds(temp: int, active: bool, draws: seq<int>)
    requires Safe(temp, active) && AllDraws(draws)
    ensures var w := Walk(temp, active, draws);
      && |w| == |draws|
      && (forall i :: 0 <= i < |w| ==> Floor <= w[i] <= Cap)
      && (|w| > 0 ==> (if active then w[0] > temp else w[0] < temp))
      && (forall i :: 0 <= i < |w| - 1 ==> w[i] != w[i + 1])
      && (forall i :: 0 <= i < |w| - 1 && w[i] > SwitchOffAbove ==> w[i + 1] < w[i])
      && (forall i :: 0 <= i < |w| - 1 && w[i] < SwitchOnBelow ==> w[i + 1] > w[i])
    decreases |draws|
  {
    if draws != [] {
      var t := NextTemp(temp, active, draws[0]);
      var a := Hysteresis(t, active);
      StepKeepsSafe(temp, active, draws[0]);
      WalkBounds(t, a, draws[1..]);
      var w := Walk(temp, active, draws);
      var rest := Walk(t, a, draws[1..]);
      assert w == [t] + rest;
      forall i | 0 <= i < |w| - 1
        ensures w[i] != w[i + 1]
        ensures w[i] > SwitchOffAbove ==> w[i + 1] < w[i]
        ensures w[i] < SwitchOnBelow ==> w[i + 1] > w[i]
      {
        if i > 0 {
          assert w[i] == rest[i - 1] && w[i + 1] == rest[i];
        } else {
          assert w[1] == rest[0];
        }
      }
    }
  }

  /** The walk one step longer: the last draw adds one temperature. */
  lemma {:induction false} WalkSnoc(temp: int, active: bool, draws: seq<int>, d: int)
    requires AllDraws(draws) && IsDraw(d)
    ensures AllDraws(draws + [d])
    ensures var t := NextTemp(TempAfter(temp, active, draws), ActiveAfter(temp, active, draws), d);
      && Walk(temp, active, draws + [d]) == Walk(temp, active, draws) + [t]
      && TempAfter(temp, active, draws + [d]) == t
      && ActiveAfter(temp, active, draws + [d]) == Hysteresis(t, ActiveAfter(temp, active, draws))
    decreases |draws|
  {
    if draws != [] {
      assert (draws + [d])[1..] == draws[1..] + [d];
      var t := NextTemp(temp, active, draws[0]);
      WalkSnoc(t, Hysteresis(t, active), draws[1..], d);
    }
  }

  /** The walk over the first `i + 1` draws: the walk over the first `i`, one step further. */
  lemma WalkPrefixStep(draws: seq<int>, i: nat)
    requires AllDraws(draws) && i < |draws|
    ensures AllDraws(draws[..i]) && AllDraws(draws[..i + 1])
    ensures var p := draws[..i];
      var t := NextTemp(TempAfter(Start, true, p), ActiveAfter(Start, true, p), draws[i]);
      && Walk(Start, true, draws[..i + 1]) == Walk(Start, true, p) + [t]
      && TempAfter(Start, true, draws[..i + 1]) == t
      && ActiveAfter(Start, true, draws[..i + 1]) == Hysteresis(t, ActiveAfter(Start, true, p))
  {
    assert draws[..i + 1] == draws[..i] + [draws[i]];
    WalkSnoc(Start, true, draws[..i], draws[i]);
  }

  /** The measurements file: one `%d\n` line per temperature. */
  function Render(temps: seq<int>): string
  {
    if temps == [] then "" else Render(temps[..|temps| - 1]) + Decimal(temps[|temps| - 1]) + "\n"
  }

  /** A file ending in a line "n\n" ends with that number, whatever came before. */
  lemma RenderLastLine(temps: seq<int>, n: int)
    ensures Render(temps + [n]) == Render(temps) + Decimal(n) + "\n"
  {
    assert (temps + [n])[..|temps + [n]| - 1] == temps;
  }

  /** `fprintf(f, "%d\n", temp)`: one more temperature, one more line. */
  method WriteLine(temps: seq<int>, file: string, temp: int) returns (temps': seq<int>, file': string)
    requires file == Render(temps)
    ensures temps' == temps + [temp]
    ensures file' == Render(temps')
  {
    RenderLastLine(temps, temp);
    temps' := temps + [temp];
    file' := file + Decimal(temp) + "\n";
  }

  /**
   * The generator's loop: exactly 40 temperatures, each in [45, 105], the
   * one the walk gives, written as decimal lines.
   */
  method Generate(draws: seq<int>) returns (temps: seq<int>, file: string)
    requires |draws| == Steps && AllDraws(draws)
    ensures temps == Walk(Start, true, draws)
    ensures |temps| == Steps
    ensures forall i :: 0 <= i < |temps| ==> Floor <= temps[i] <= Cap
    ensures file == Render(temps)
  {
    var active := true;
    var temp := Start;
    temps := [];
    file := "";
    for i := 0 to Steps
      invariant temps == Walk(Start, true, draws[..i])
      invariant temp == TempAfter(Start, true, draws[..i])
      invariant active == ActiveAfter(Start, true, draws[..i])
      invariant file == Render(temps)
      invariant Safe(temp, active)
    {
      WalkPrefixStep(draws, i);
      StepKeepsSafe(temp, active, draws[i]);
      ghost var next := NextTemp(temp, active, draws[i]);
      if active {
        temp := temp + (draws[i] + 10);
        if temp > Cap {
          temp := Cap;
        }
      } else {
        temp := temp - (draws[i] + 10);
        if temp < Floor {
          temp := Floor;
        }
      }
      assert temp == next;
      temps, file := WriteLine(temps, file, temp);
      if temp > SwitchOffAbove {
        active := false;
      }
      if temp < SwitchOnBelow {
        active := true;
      }
    }
    assert draws[..Steps] == draws;
    WalkBounds(Start, true, draws);
  }
}
