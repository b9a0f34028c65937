// The effect state machine's arithmetic: 32-bit millisecond gates, the Effect
// enumeration, and the modular phase counters of Rainbow, Breathing and Running.

module Animation {
  import opened Colors

  const TwoTo32: int := 0x1_0000_0000

  /** unsigned long on the ESP8266: 32 bits. */
  type u32 = x: int | 0 <= x < TwoTo32

  /** currentMillis - last in unsigned 32-bit arithmetic. */
  function Elapsed(now: u32, last: u32): (d: u32)
    ensures now >= last ==> d == now - last
    ensures now < last ==> d == now + TwoTo32 - last
    ensures (last + d) % TwoTo32 == now
  {
    (now - last) % TwoTo32
  }

  /** A minimum-interval gate: at least `period` ms have passed since `last`. */
  predicate Due(now: u32, last: u32, period: nat)
  {
    Elapsed(now, last) >= period
  }

  /** The master effect tick. */
  const MasterPeriod: nat := 50
  /** Sparkle's own re-roll gate. */
  const SparklePeriod: nat := 200
  /** The colon blink (src/main.cpp). */
  const ColonPeriod: nat := 500
  /** The wall-clock refresh (src/main.cpp). */
  const TimePeriod: nat := 1000

  /** The timestamp a gate last fired at `last` holds after calls at `times`: a call
      that finds `period` ms elapsed fires and re-arms the gate at its own time, any
      other call leaves it alone. */
  function GateAfter(last: u32, times: seq<u32>, period: nat): u32
  {
    if |times| == 0 then last
    else
      var before := GateAfter(last, times[..|times| - 1], period);
      if Due(times[|times| - 1], before, period) then times[|times| - 1] else before
  }

  /** The times of the calls among `times` at which the gate fires. */
  function Firings(last: u32, times: seq<u32>, period: nat): seq<u32>
  {
    if |times| == 0 then []
    else
      var before := Firings(last, times[..|times| - 1], period);
      if Due(times[|times| - 1], GateAfter(last, times[..|times| - 1], period), period)
      then before + [times[|times| - 1]] else before
  }

  /** One more call extends the gate's history by that call alone. */
  lemma GateStep(last: u32, times: seq<u32>, i: nat, period: nat)
    requires i < |times|
    ensures var before := GateAfter(last, times[..i], period);
      var fired := Due(times[i], before, period);
      GateAfter(last, times[..i + 1], period) == (if fired then times[i] else before) &&
      |Firings(last, times[..i + 1], period)| == |Firings(last, times[..i], period)| + (if fired then 1 else 0) &&
      (|Firings(last, times[..i + 1], period)| % 2 == 1) == ((|Firings(last, times[..i], period)| % 2 == 1) != fired)
  {
    assert times[..i + 1][..i] == times[..i];
  }

  /** A gate fires at most once per call; the first firing comes `period` ms or more
      after `last` and each later one `period` ms or more after the one before; a
      missed interval is skipped, never queued; the gate ends at its last firing. */
  lemma {:induction false} FiringsSpaced(last: u32, times: seq<u32>, period: nat)
    ensures var f := Firings(last, times, period);
      |f| <= |times| &&
      (|f| == 0 ==> GateAfter(last, times, period) == last) &&
      (|f| > 0 ==> Due(f[0], last, period) && GateAfter(last, times, period) == f[|f| - 1]) &&
      (forall i :: 0 < i < |f| ==> Due(f[i], f[i - 1], period))
  {
    if |times| > 0 {
      var init := times[..|times| - 1];
      FiringsSpaced(last, init, period);
      var f0 := Firings(last, init, period);
      var f := Firings(last, times, period);
      if Due(times[|times| - 1], GateAfter(last, init, period), period) {
        assert f == f0 + [times[|times| - 1]];
        forall i | 0 < i < |f|
          ensures Due(f[i], f[i - 1], period)
        {
          if i < |f0| {
            assert f[i] == f0[i] && f[i - 1] == f0[i - 1];
          }
        }
      }
    }
  }

  datatype Effect = Static | Rainbow | Breathing | Running | Sparkle

  /** EFFECT_COUNT. */
  const EffectCount: nat := 5

  /** The enumerator's value. */
  function Code(e: Effect): (c: nat)
    ensures c < EffectCount
  {
    match e
    case Static => 0
    case Rainbow => 1
    case Breathing => 2
    case Running => 3
    case Sparkle => 4
  }

  /** The switch over currentEffect: every value outside STATIC..SPARKLE takes
      the default branch, which is the static effect. */
  function Dispatch(code: nat): (e: Effect)
    ensures code < EffectCount ==> Code(e) == code
    ensures code >= EffectCount ==> e == Static
  {
    if code == 1 then Rainbow
    else if code == 2 then Breathing
    else if code == 3 then Running
    else if code == 4 then Sparkle
    else Static
  }

  /** Code and Dispatch are inverse on the enumerators, and EFFECT_COUNT bounds
      exactly the codes of effects. */
  lemma CodeRoundTrip(e: Effect, code: nat)
    ensures Dispatch(Code(e)) == e
    ensures code < EffectCount <==> exists e': Effect :: Code(e') == code
  {
    if code < EffectCount {
      assert Code(Dispatch(code)) == code;
    }
  }

  /** One tick of a phase counter: (phase + step) % 256 on a uint8_t. */
  function Advance(phase: byte, step: nat): byte
  {
    (phase + step) % 256
  }

  /** k ticks of a phase counter. */
  function AdvanceTimes(phase: byte, step: nat, k: nat): byte
  {
    if k == 0 then phase else Advance(AdvanceTimes(phase, step, k - 1), step)
  }

  /** Adding a multiple of 256 does not change a value modulo 256. */
  lemma ModMultiple(y: int, q: int)
    ensures (256 * q + y) % 256 == y % 256
  {
    var r := y % 256;
    assert y == 256 * (y / 256) + r;
    assert 256 * q + y == 256 * (q + y / 256) + r;
  }

  /** After k ticks the counter has moved by step * k modulo 256. */
  lemma {:induction false} AdvanceTimesClosed(phase: byte, step: nat, k: nat)
    ensures AdvanceTimes(phase, step, k) == (phase + step * k) % 256
  {
    if k > 0 {
      AdvanceTimesClosed(phase, step, k - 1);
      var x := phase + step * (k - 1);
      assert step * k == step * (k - 1) + step;
      assert x == 256 * (x / 256) + x % 256;
      ModMultiple(x % 256 + step, x / 256);
    }
  }

  /** Rainbow (+1 per tick) returns to its phase after exactly 256 ticks. */
  lemma RainbowPeriod(phase: byte, k: nat)
    ensures AdvanceTimes(phase, 1, k) == phase <==> k % 256 == 0
  {
    AdvanceTimesClosed(phase, 1, k);
    var q, r := k / 256, k % 256;
    assert k == 256 * q + r && 0 <= r < 256;
    var y := phase + r;
    assert phase + 1 * k == 256 * q + y;
    ModMultiple(y, q);
    assert AdvanceTimes(phase, 1, k) == y % 256;
    if y < 256 {
      assert y % 256 == y;
    } else {
      assert y % 256 == y - 256;
      assert y - 256 < phase;
    }
  }

  /** Breathing (+2 per tick) returns to its phase after exactly 128 ticks. */
  lemma BreathingPeriod(phase: byte, k: nat)
    ensures AdvanceTimes(phase, 2, k) == phase <==> k % 128 == 0
  {
    AdvanceTimesClosed(phase, 2, k);
    var y := phase + 2 * (k % 128);
    assert k == 128 * (k / 128) + k % 128;
    assert phase + 2 * k == 256 * (k / 128) + y;
    ModMultiple(y, k / 128);
    if y < 256 {
      assert y % 256 == y;
    } else {
      assert y % 256 == y - 256;
    }
  }

  /** Running's active slot: (runningPhase / 64) % 4. */
  function ActiveDisplay(phase: byte): (d: nat)
    ensures d < 4
  {
    (phase / 64) % 4
  }

  /** Running's position within the active slot's pulse: runningPhase % 64. */
  function TransitionPhase(phase: byte): (t: nat)
    ensures t < 64
  {
    phase % 64
  }

  /** The phase is split exactly into slot and transition; +2 keeps it even. */
  lemma RunningPhaseSplit(phase: byte)
    ensures phase == 64 * ActiveDisplay(phase) + TransitionPhase(phase)
    ensures phase % 2 == 0 ==> Advance(phase, 2) % 2 == 0 && TransitionPhase(phase) % 2 == 0
  {
  }

  /** Within one sweep (phase 2j, j < 128): slot j / 32, transition 2 (j % 32). */
  lemma SweepWithinCycle(j: nat)
    requires j < 128
    ensures ActiveDisplay(2 * j) == j / 32 && TransitionPhase(2 * j) == 2 * (j % 32)
  {
    assert j == 32 * (j / 32) + j % 32;
    assert 2 * j == 64 * (j / 32) + 2 * (j % 32);
  }

  lemma Mod32OfMod128(k: nat)
    ensures (k % 128) % 32 == k % 32
  {
    var j := k % 128;
    assert k == 128 * (k / 128) + j;
    assert j == 32 * (j / 32) + j % 32;
    assert k == 32 * (4 * (k / 128) + j / 32) + j % 32;
  }

  /** Starting from 0, the Running phase after k ticks is 2 (k % 128). */
  lemma RunningPhaseAfter(k: nat)
    ensures AdvanceTimes(0, 2, k) == 2 * (k % 128)
  {
    AdvanceTimesClosed(0, 2, k);
    assert AdvanceTimes(0, 2, k) == (2 * k) % 256;
    DoubleMod(k);
  }

  lemma DoubleMod(k: nat)
    ensures (2 * k) % 256 == 2 * (k % 128)
  {
    var j, q := k % 128, k / 128;
    assert 2 * k == 256 * q + 2 * j;
    ModMultiple(2 * j, q);
  }

  /** Starting from phase 0, tick k of Running lights slot (k % 128) / 32: each
      slot is active for 32 consecutive ticks (64 phase units), in order 0, 1, 2, 3,
      and the sweep repeats every 128 ticks. */
  lemma RunningSweep(k: nat)
    ensures ActiveDisplay(AdvanceTimes(0, 2, k)) == (k % 128) / 32
    ensures TransitionPhase(AdvanceTimes(0, 2, k)) == 2 * (k % 32)
  {
    RunningPhaseAfter(k);
    SweepWithinCycle(k % 128);
    Mod32OfMod128(k);
  }

  /** The counters the effect routines advance; both engines keep these fields. */
  datatype Counters = Counters(effectStep: byte, runningPhase: byte, lastSparkleUpdate: u32)

  /** A Sparkle tick at `sparkleNow` re-rolls only when its own 200 ms gate is open. */
  predicate SparkleFires(c: Counters, sparkleNow: u32)
  {
    Due(sparkleNow, c.lastSparkleUpdate, SparklePeriod)
  }

  /** What one dispatched effect routine does to the counters. */
  function Tick(e: Effect, c: Counters, sparkleNow: u32): Counters
  {
    match e
    case Static => c
    case Rainbow => c.(effectStep := Advance(c.effectStep, 1))
    case Breathing => c.(effectStep := Advance(c.effectStep, 2))
    case Running => c.(runningPhase := Advance(c.runningPhase, 2))
    case Sparkle => if SparkleFires(c, sparkleNow) then c.(lastSparkleUpdate := sparkleNow) else c
  }

  /** Each routine changes only its own counter, and runningPhase stays even. */
  lemma TickTouchesOwnCounter(e: Effect, c: Counters, sparkleNow: u32)
    ensures var d := Tick(e, c, sparkleNow);
      (d.effectStep != c.effectStep ==> e == Rainbow || e == Breathing) &&
      (d.runningPhase != c.runningPhase ==> e == Running) &&
      (d.lastSparkleUpdate != c.lastSparkleUpdate ==> e == Sparkle && d.lastSparkleUpdate == sparkleNow) &&
      (c.runningPhase % 2 == 0 ==> d.runningPhase % 2 == 0)
  {
  }

  /** k dispatches of an effect whose routine does not read the clock. */
  function Repeat(e: Effect, c: Counters, k: nat): Counters
    requires e != Sparkle
  {
    if k == 0 then c else Tick(e, Repeat(e, c, k - 1), 0)
  }

  /** A clock-independent effect ignores the time it is dispatched at, so one more
      dispatch extends the repetition by one. */
  lemma RepeatStep(e: Effect, c: Counters, k: nat, now: u32)
    requires e != Sparkle
    ensures Tick(e, Repeat(e, c, k), now) == Repeat(e, c, k + 1)
  {
  }

  /** k dispatches move the effect's own counter k steps and nothing else. */
  lemma {:induction false} RepeatAdvances(e: Effect, c: Counters, k: nat)
    requires e != Sparkle
    ensures Repeat(e, c, k) ==
      match e
      case Rainbow => c.(effectStep := AdvanceTimes(c.effectStep, 1, k))
      case Breathing => c.(effectStep := AdvanceTimes(c.effectStep, 2, k))
      case Running => c.(runningPhase := AdvanceTimes(c.runningPhase, 2, k))
      case _ => c
  {
    if k > 0 {
      RepeatAdvances(e, c, k - 1);
    }
  }

  /** Rainbow's counters return to where they started after 256 dispatches, Breathing's
      and Running's after 128, and no earlier. */
  lemma EffectCycles(c: Counters, k: nat)
    requires 0 < k
    ensures Repeat(Rainbow, c, k) == c <==> k % 256 == 0
    ensures Repeat(Breathing, c, k) == c <==> k % 128 == 0
    ensures Repeat(Running, c, k) == c <==> k % 128 == 0
  {
    RepeatAdvances(Rainbow, c, k);
    RepeatAdvances(Breathing, c, k);
    RepeatAdvances(Running, c, k);
    RainbowPeriod(c.effectStep, k);
    BreathingPeriod(c.effectStep, k);
    BreathingPeriod(c.runningPhase, k);
  }

  /** After Sparkle re-rolls at t1, a tick less than 200 ms later changes nothing. */
  lemma SparkleRateLimited(c: Counters, t1: u32, t2: u32)
    requires SparkleFires(c, t1)
    requires Elapsed(t2, t1) < SparklePeriod
    ensures !SparkleFires(Tick(Sparkle, c, t1), t2)
    ensures Tick(Sparkle, Tick(Sparkle, c, t1), t2) == Tick(Sparkle, c, t1)
  {
  }
}
