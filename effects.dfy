// The Effects class of src/effects.h and src/effects.cpp: the same effect state
// machine as src/main.cpp's updateEffect, packaged as an object that is handed
// the time and the colon state on every update.

module EffectsEngine {
  import opened Geometry
  import opened Colors
  import opened Frames
  import opened Render
  import opened Animation
  import opened EffectFrames
  import Clock

  /** The colours of one Effects tick, after the counters have advanced: the capped
      colour for Static and the Sparkle separator, the sine Rainbow, and the
      configured colour times a float factor for the rest. Every factor except
      Running's 0.3 base goes through limitBrightness first. */
  function ClassPalette(red: byte, green: byte, blue: byte, cap: byte, effectStep: byte, runningPhase: byte,
                        waves: Waves): Palette
    requires waves.InRange()
  {
    var capped := CappedColor(red, green, blue, cap);
    Palette(capped, SineRainbowColor(waves, effectStep, cap),
            FactorColor(red, green, blue, cap, LimitBrightness(waves.breathing(effectStep), cap)),
            FactorColor(red, green, blue, cap, BaseBrightness),
            FactorColor(red, green, blue, cap, LimitBrightness(waves.pulse(TransitionPhase(runningPhase)), cap)),
            FactorColor(red, green, blue, cap, LimitBrightness(DimBrightness, cap)),
            FactorColor(red, green, blue, cap, LimitBrightness(1.0, cap)),
            capped)
  }

  /** Where the two engines compose the same frame: Static always, and every effect
      but Rainbow when the cap is 255, where limitBrightness changes no factor. */
  lemma EnginesAgree(buf: seq<Color>, e: Effect, step: byte, phase: byte, red: byte, green: byte, blue: byte,
                     cap: byte, waves: Waves, rolls: seq<int>, hours: nat, minutes: nat, colonVisible: bool)
    requires |buf| == PixelCount && |rolls| == DigitCount && waves.InRange()
    requires e == Static || (cap == 255 && e != Rainbow)
    ensures TickFrame(buf, e, phase, Clock.MainPalette(red, green, blue, cap, step, phase, waves), rolls, hours, minutes, colonVisible) ==
            TickFrame(buf, e, phase, ClassPalette(red, green, blue, cap, step, phase, waves), rolls, hours, minutes, colonVisible)
  {
    if cap == 255 {
      FactorColorBelowCapped(red, green, blue, cap, 1.0);
      var main := Clock.MainPalette(red, green, blue, cap, step, phase, waves);
      var cls := ClassPalette(red, green, blue, cap, step, phase, waves);
      assert main.(rainbow := cls.rainbow) == cls;
    }
  }

  /** Running's base slots and separator agree for every cap (its 0.3 factor is not
      limited in either engine), and so does Sparkle's separator. */
  lemma EnginesShareBase(step: byte, phase: byte, red: byte, green: byte, blue: byte, cap: byte,
                         waves: Waves, rolls: seq<int>, s: nat)
    requires |rolls| == DigitCount && waves.InRange() && s < DigitCount
    ensures var main, cls := Clock.MainPalette(red, green, blue, cap, step, phase, waves),
                               ClassPalette(red, green, blue, cap, step, phase, waves);
      (s != ActiveDisplay(phase) ==>
        SlotColors(Running, phase, main, rolls)[s] == SlotColors(Running, phase, cls, rolls)[s]) &&
      SeparatorColor(Running, main) == SeparatorColor(Running, cls) &&
      SeparatorColor(Sparkle, main) == SeparatorColor(Sparkle, cls)
  {
  }

  /** The Effects class is never brighter than updateEffect: limitBrightness only
      lowers the Breathing, Running-pulse and Sparkle factors, and Sparkle's full
      slots use the float factor where updateEffect uses the integer capped colour. */
  lemma ClassNeverBrighter(step: byte, phase: byte, red: byte, green: byte, blue: byte, cap: byte, waves: Waves)
    requires waves.InRange()
    ensures var main, cls := Clock.MainPalette(red, green, blue, cap, step, phase, waves),
                               ClassPalette(red, green, blue, cap, step, phase, waves);
      NoBrighter(cls.breathing, main.breathing) && NoBrighter(cls.runningActive, main.runningActive) &&
      NoBrighter(cls.sparkleDim, main.sparkleDim) && NoBrighter(cls.sparkleFull, main.sparkleFull)
  {
    var breathing, pulse := waves.breathing(step), waves.pulse(TransitionPhase(phase));
    FactorColorMonotone(red, green, blue, cap, LimitBrightness(breathing, cap), breathing);
    FactorColorMonotone(red, green, blue, cap, LimitBrightness(pulse, cap), pulse);
    FactorColorMonotone(red, green, blue, cap, LimitBrightness(DimBrightness, cap), DimBrightness);
    FactorColorBelowCapped(red, green, blue, cap, LimitBrightness(1.0, cap));
  }

  /** Below a cap of 255 the engines differ: with cap 100, white, and the breathing
      wave at its peak 1.0, updateEffect shows 100 in each channel and the Effects
      class 39, since limitBrightness scales by the cap a second time. */
  lemma EnginesDiffer(step: byte, phase: byte, waves: Waves)
    requires waves.InRange() && waves.breathing(step) == 1.0
    ensures Clock.MainPalette(255, 255, 255, 100, step, phase, waves).breathing == Color(100, 100, 100, 0)
    ensures ClassPalette(255, 255, 255, 100, step, phase, waves).breathing == Color(39, 39, 39, 0)
  {
    assert LimitBrightness(1.0, 100) == 100.0 / 255.0;
    assert ShadeChannel(255, 100, 1.0) == 100;
    assert ShadeChannel(255, 100, 100.0 / 255.0) == 39;
  }

  class Effects {
    const strip: Strip
    var currentEffect: nat
    var currentRed: byte
    var currentGreen: byte
    var currentBlue: byte
    var maxBrightness: byte
    var effectStep: byte
    var runningPhase: byte
    var lastUpdate: u32
    var lastSparkleUpdate: u32

    /** A 90-pixel strip and an even Running phase. */
    predicate Valid()
      reads this
    {
      strip.pixels.Length == PixelCount && runningPhase % 2 == 0
    }

    /** The counters the effect routines advance. */
    function TickCounters(): Counters
      reads this
    {
      Counters(effectStep, runningPhase, lastSparkleUpdate)
    }

    /** Effects(strip): STATIC, counters and timestamps 0, full brightness, red. */
    constructor (strip: Strip)
      requires strip.pixels.Length == PixelCount
      ensures Valid() && this.strip == strip
      ensures currentEffect == Code(Static) && effectStep == 0 && runningPhase == 0
      ensures lastUpdate == 0 && lastSparkleUpdate == 0 && maxBrightness == 255
      ensures currentRed == 255 && currentGreen == 0 && currentBlue == 0
    {
      this.strip := strip;
      currentEffect := Code(Static);
      effectStep, runningPhase := 0, 0;
      lastUpdate, lastSparkleUpdate := 0, 0;
      maxBrightness := 255;
      currentRed, currentGreen, currentBlue := 255, 0, 0;
    }

    /** getCurrentEffect. */
    function GetCurrentEffect(): nat
      reads this
    {
      currentEffect
    }

    /** setEffect: assigns the effect and nothing else; neither counter is reset. */
    method SetEffect(effect: nat)
      modifies this`currentEffect
      ensures GetCurrentEffect() == effect
      ensures effectStep == old(effectStep) && runningPhase == old(runningPhase)
    {
      currentEffect := effect;
    }

    /** setColor: assigns the three colour fields and nothing else. */
    method SetColor(r: byte, g: byte, b: byte)
      modifies this`currentRed, this`currentGreen, this`currentBlue
      ensures currentRed == r && currentGreen == g && currentBlue == b
      ensures GetCurrentEffect() == old(GetCurrentEffect()) && maxBrightness == old(maxBrightness)
    {
      currentRed, currentGreen, currentBlue := r, g, b;
    }

    /** setBrightness: assigns the brightness cap and nothing else. */
    method SetBrightness(brightness: byte)
      modifies this`maxBrightness
      ensures maxBrightness == brightness
      ensures GetCurrentEffect() == old(GetCurrentEffect())
      ensures currentRed == old(currentRed) && currentGreen == old(currentGreen) && currentBlue == old(currentBlue)
    {
      maxBrightness := brightness;
    }

    /** update at millis() == now: unless 50 ms have passed since the last run nothing
        happens; otherwise the timestamp is taken and exactly one effect routine runs,
        any value outside the enumeration running staticEffect. Sparkle reads the
        clock again (`sparkleNow`). */
    method Update(now: u32, sparkleNow: u32, hours: byte, minutes: byte, colonVisible: bool,
                  waves: Waves, rolls: seq<int>)
      requires Valid() && |rolls| == DigitCount && waves.InRange()
      modifies this`lastUpdate, this`effectStep, this`runningPhase, this`lastSparkleUpdate, strip, strip.pixels
      ensures Valid()
      ensures !Due(now, old(lastUpdate), MasterPeriod) ==>
        lastUpdate == old(lastUpdate) && TickCounters() == old(TickCounters()) && Untouched(strip)
      ensures Due(now, old(lastUpdate), MasterPeriod) ==>
        lastUpdate == now && TickCounters() == Tick(Dispatch(currentEffect), old(TickCounters()), sparkleNow)
      ensures (Due(now, old(lastUpdate), MasterPeriod) &&
               TickShows(Dispatch(currentEffect), SparkleFires(old(TickCounters()), sparkleNow))) ==>
        ShowedFrame(strip, TickFrame(old(strip.pixels[..]), Dispatch(currentEffect), runningPhase,
                                     ClassPalette(currentRed, currentGreen, currentBlue, maxBrightness, effectStep, runningPhase, waves),
                                     rolls, hours, minutes, colonVisible))
      ensures (Due(now, old(lastUpdate), MasterPeriod) &&
               !TickShows(Dispatch(currentEffect), SparkleFires(old(TickCounters()), sparkleNow))) ==>
        Untouched(strip)
    {
      if Elapsed(now, lastUpdate) >= MasterPeriod {
        lastUpdate := now;
        match Dispatch(currentEffect)
        case Static => StaticEffect(hours, minutes, colonVisible, waves, rolls);
        case Rainbow => RainbowEffect(hours, minutes, colonVisible, waves, rolls);
        case Breathing => BreathingEffect(hours, minutes, colonVisible, waves, rolls);
        case Running => RunningEffect(hours, minutes, colonVisible, waves, rolls);
        case Sparkle => SparkleEffect(sparkleNow, hours, minutes, colonVisible, waves, rolls);
      }
    }

    /** staticEffect: the time in the capped colour. */
    method StaticEffect(hours: byte, minutes: byte, colonVisible: bool, waves: Waves, rolls: seq<int>)
      requires Valid() && |rolls| == DigitCount && waves.InRange()
      modifies strip, strip.pixels
      ensures ShowedFrame(strip, TickFrame(old(strip.pixels[..]), Static, runningPhase,
                                           ClassPalette(currentRed, currentGreen, currentBlue, maxBrightness, effectStep, runningPhase, waves),
                                           rolls, hours, minutes, colonVisible))
    {
      var color := Color(Scale(currentGreen, maxBrightness), Scale(currentRed, maxBrightness),
                         Scale(currentBlue, maxBrightness), 0);
      ShowAllDigits(strip, color, hours, minutes, colonVisible);
    }

    /** rainbowEffect: effectStep + 1, the time in the sine Rainbow colour. */
    method RainbowEffect(hours: byte, minutes: byte, colonVisible: bool, waves: Waves, rolls: seq<int>)
      requires Valid() && |rolls| == DigitCount && waves.InRange()
      modifies this`effectStep, strip, strip.pixels
      ensures Valid()
      ensures TickCounters() == Tick(Rainbow, old(TickCounters()), 0)
      ensures ShowedFrame(strip, TickFrame(old(strip.pixels[..]), Rainbow, runningPhase,
                                           ClassPalette(currentRed, currentGreen, currentBlue, maxBrightness, effectStep, runningPhase, waves),
                                           rolls, hours, minutes, colonVisible))
    {
      effectStep := (effectStep + 1) % 256;
      var red := WaveChannel(waves.sine(effectStep, 0), maxBrightness);
      var green := WaveChannel(waves.sine(effectStep, 1), maxBrightness);
      var blue := WaveChannel(waves.sine(effectStep, 2), maxBrightness);
      ShowAllDigits(strip, Color(red, green, blue, 0), hours, minutes, colonVisible);
    }

    /** breathingEffect: effectStep + 2, the time in the breathing colour. */
    method BreathingEffect(hours: byte, minutes: byte, colonVisible: bool, waves: Waves, rolls: seq<int>)
      requires Valid() && |rolls| == DigitCount && waves.InRange()
      modifies this`effectStep, strip, strip.pixels
      ensures Valid()
      ensures TickCounters() == Tick(Breathing, old(TickCounters()), 0)
      ensures ShowedFrame(strip, TickFrame(old(strip.pixels[..]), Breathing, runningPhase,
                                           ClassPalette(currentRed, currentGreen, currentBlue, maxBrightness, effectStep, runningPhase, waves),
                                           rolls, hours, minutes, colonVisible))
    {
      effectStep := (effectStep + 2) % 256;
      var brightness := waves.breathing(effectStep);
      brightness := LimitBrightness(brightness, maxBrightness);
      var color := FactorColor(currentRed, currentGreen, currentBlue, maxBrightness, brightness);
      ShowAllDigits(strip, color, hours, minutes, colonVisible);
    }

    /** runningEffect: runningPhase + 2, the active slot (phase / 64) % 4 over the
        base colour, separator in the base colour when visible, spare black. */
    method RunningEffect(hours: byte, minutes: byte, colonVisible: bool, waves: Waves, rolls: seq<int>)
      requires Valid() && |rolls| == DigitCount && waves.InRange()
      modifies this`runningPhase, strip, strip.pixels
      ensures Valid()
      ensures TickCounters() == Tick(Running, old(TickCounters()), 0)
      ensures ShowedFrame(strip, TickFrame(old(strip.pixels[..]), Running, runningPhase,
                                           ClassPalette(currentRed, currentGreen, currentBlue, maxBrightness, effectStep, runningPhase, waves),
                                           rolls, hours, minutes, colonVisible))
    {
      RunningPhaseSplit(runningPhase);
      runningPhase := (runningPhase + 2) % 256;
      var activeDisplay := (runningPhase / 64) % 4;
      var transitionPhase := runningPhase % 64;
      assert activeDisplay == ActiveDisplay(runningPhase);
      var baseColor := FactorColor(currentRed, currentGreen, currentBlue, maxBrightness, BaseBrightness);
      var activeBrightness := waves.pulse(transitionPhase);
      activeBrightness := LimitBrightness(activeBrightness, maxBrightness);
      var activeColor := FactorColor(currentRed, currentGreen, currentBlue, maxBrightness, activeBrightness);
      ShowRunning(strip, baseColor, activeColor, activeDisplay, hours, minutes, colonVisible);
    }

    /** sparkleEffect at millis() == now: nothing unless 200 ms have passed; then
        every slot is rolled, the separator is drawn in the full capped colour when
        visible, the spare black, and the frame is shown once. */
    method SparkleEffect(now: u32, hours: byte, minutes: byte, colonVisible: bool, waves: Waves, rolls: seq<int>)
      requires Valid() && |rolls| == DigitCount && waves.InRange()
      modifies this`lastSparkleUpdate, strip, strip.pixels
      ensures Valid()
      ensures TickCounters() == Tick(Sparkle, old(TickCounters()), now)
      ensures SparkleFires(old(TickCounters()), now) ==>
        ShowedFrame(strip, TickFrame(old(strip.pixels[..]), Sparkle, runningPhase,
                                     ClassPalette(currentRed, currentGreen, currentBlue, maxBrightness, effectStep, runningPhase, waves),
                                     rolls, hours, minutes, colonVisible))
      ensures !SparkleFires(old(TickCounters()), now) ==> Untouched(strip)
    {
      if Elapsed(now, lastSparkleUpdate) >= SparklePeriod {
        lastSparkleUpdate := now;
        var separator := Color(Scale(currentGreen, maxBrightness), Scale(currentRed, maxBrightness),
                               Scale(currentBlue, maxBrightness), 0);
        var dimColor := FactorColor(currentRed, currentGreen, currentBlue, maxBrightness,
                                    LimitBrightness(DimBrightness, maxBrightness));
        var fullColor := FactorColor(currentRed, currentGreen, currentBlue, maxBrightness,
                                     LimitBrightness(1.0, maxBrightness));
        ShowSparkle(strip, SparkleColors(rolls, dimColor, fullColor), separator, hours, minutes, colonVisible);
      }
    }
  }
}
