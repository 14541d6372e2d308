/** The three difficulty knobs of app.js (pipeSpeed, pipeGap, spawnDelay) and
    the ramp applied to them every 8 seconds.

    Speed is held in tenths of a pixel per frame: the source's 2 is 20 here and
    its increment 0.3 is 3. Gap is in whole pixels, delay in milliseconds. */
module Difficulty {

  const InitialSpeed: int := 20
  const SpeedStep: int := 3
  /** The ramp adds a step only while the speed is strictly below this value. */
  const SpeedCap: int := 40
  /** Where the speed ends up: the cap is tested before the add, so 38 + 3. */
  const TopSpeed: int := 41

  const InitialGap: int := 160
  const GapStep: int := 5
  const MinGap: int := 120

  const InitialDelay: int := 1500
  const DelayStep: int := 100
  const MinDelay: int := 1000

  datatype Knobs = Knobs(speed: int, gap: int, delay: int)

  const Initial: Knobs := Knobs(InitialSpeed, InitialGap, InitialDelay)

  /** Every value the knobs can take when they start from Initial. */
  ghost predicate InRange(d: Knobs)
  {
    && InitialSpeed <= d.speed <= TopSpeed && (d.speed - InitialSpeed) % SpeedStep == 0
    && MinGap <= d.gap <= InitialGap && d.gap % GapStep == 0
    && MinDelay <= d.delay <= InitialDelay && d.delay % DelayStep == 0
  }

  /** One firing of the ramp callback: three independent clamped updates. */
  function Ramp(d: Knobs): (r: Knobs)
    ensures r.speed >= d.speed && r.gap <= d.gap && r.delay <= d.delay
    ensures r.speed != d.speed <==> d.speed < SpeedCap
    ensures r.gap != d.gap <==> d.gap > MinGap
    ensures r.delay != d.delay <==> d.delay > MinDelay
    ensures InRange(d) ==> InRange(r)
  {
    Knobs(
      if d.speed < SpeedCap then d.speed + SpeedStep else d.speed,
      if d.gap > MinGap then d.gap - GapStep else d.gap,
      if d.delay > MinDelay then d.delay - DelayStep else d.delay)
  }

  /** The knobs after n ramp ticks. */
  function RampN(d: Knobs, n: nat): Knobs
  {
    if n == 0 then d else Ramp(RampN(d, n - 1))
  }

  function Min(a: int, b: int): int { if a <= b then a else b }
  function Max(a: int, b: int): int { if a >= b then a else b }

  /** Closed form of the ramp from the initial knobs: the speed climbs 20, 23,
      ..., 38, 41 and then stays at 41 (4.1 px, not the 4 px of the cap test);
      the gap falls to 120 after 8 ticks, the delay to 1000 after 5. */
  lemma {:induction false} RampFromInitial(n: nat)
    ensures RampN(Initial, n).speed == Min(InitialSpeed + SpeedStep * n, TopSpeed)
    ensures RampN(Initial, n).gap == Max(InitialGap - GapStep * n, MinGap)
    ensures RampN(Initial, n).delay == Max(InitialDelay - DelayStep * n, MinDelay)
  {
    if n > 0 {
      RampFromInitial(n - 1);
    }
  }

  /** From any in-range knobs, however many ticks fire, the knobs stay in range. */
  lemma {:induction false} RampNInRange(d: Knobs, n: nat)
    requires InRange(d)
    ensures InRange(RampN(d, n))
  {
    if n > 0 {
      RampNInRange(d, n - 1);
    }
  }

  /** Over any number of ticks speed never falls and gap and delay never rise. */
  lemma {:induction false} RampNMonotone(d: Knobs, m: nat, n: nat)
    requires m <= n
    ensures RampN(d, m).speed <= RampN(d, n).speed
    ensures RampN(d, m).gap >= RampN(d, n).gap
    ensures RampN(d, m).delay >= RampN(d, n).delay
  {
    if m < n {
      RampNMonotone(d, m, n - 1);
    }
  }

  /** The fixed point: once every knob has passed its clamp, ticks change nothing. */
  lemma {:induction false} RampNStable(d: Knobs, n: nat)
    requires d.speed >= SpeedCap && d.gap <= MinGap && d.delay <= MinDelay
    ensures RampN(d, n) == d
  {
    if n > 0 {
      RampNStable(d, n - 1);
    }
  }

  /** The ramp from Initial settles at (41, 120, 1000) after 8 ticks and not before. */
  lemma RampSettles(n: nat)
    ensures n >= 8 <==> RampN(Initial, n) == Knobs(TopSpeed, MinGap, MinDelay)
    ensures RampN(Initial, n).speed != SpeedCap
  {
    RampFromInitial(n);
  }
}
