// The live engine of src/main.cpp: its globals as the fields of one object, the
// configuration load of setup(), updateEffect, and the state changes of the
// /effect, /set-time, /strip-config, /update-strip and /brightness handlers.

module Clock {
  import opened Geometry
  import opened Colors
  import opened Frames
  import opened Render
  import opened Animation
  import opened EffectFrames
  import opened Settings

  /** The colours of one updateEffect tick, after the counters have advanced: the
      configured colour capped for Static and for Sparkle's full slots and separator,
      the integer wheel for Rainbow, and the configured colour times a float factor
      (the breathing wave, 0.3, the Running pulse, 0.8) for the rest. No factor is
      passed through limitBrightness. */
  function MainPalette(red: byte, green: byte, blue: byte, cap: byte, effectStep: byte, runningPhase: byte,
                       waves: Waves): Palette
    requires waves.InRange()
  {
    var capped := CappedColor(red, green, blue, cap);
    Palette(capped, RainbowColor(effectStep, cap),
            FactorColor(red, green, blue, cap, waves.breathing(effectStep)),
            FactorColor(red, green, blue, cap, BaseBrightness),
            FactorColor(red, green, blue, cap, waves.pulse(TransitionPhase(runningPhase))),
            FactorColor(red, green, blue, cap, DimBrightness),
            capped, capped)
  }

  /** The globals of src/main.cpp (and updateEffect's two function-static timestamps). */
  class Clock {
    const strip: Strip
    var currentStripType: nat
    var currentEffect: nat
    var effectStep: byte
    var runningPhase: byte
    var currentHours: nat
    var currentMinutes: nat
    var colonVisible: bool
    var lastColonUpdate: u32
    var lastSparkleUpdate: u32
    /** updateEffect's static lastTimeUpdate. */
    var lastTimeUpdate: u32
    /** updateEffect's static lastEffectUpdate. */
    var lastEffectUpdate: u32
    var currentRed: byte
    var currentGreen: byte
    var currentBlue: byte
    var currentWhite: byte
    var currentBrightness: byte
    var maxBrightness: byte
    /** The 512-byte EEPROM area. */
    var eeprom: seq<byte>

    /** 90 pixels, a 512-byte record, a valid time, a known effect and strip type,
        and an even Running phase. */
    predicate Valid()
      reads this
    {
      strip.pixels.Length == PixelCount && |eeprom| == EepromSize &&
      currentHours <= 23 && currentMinutes <= 59 && currentEffect < EffectCount &&
      currentStripType <= WS2812BRgb && runningPhase % 2 == 0
    }

    /** The counters the effect routines advance. */
    function TickCounters(): Counters
      reads this
    {
      Counters(effectStep, runningPhase, lastSparkleUpdate)
    }

    /** The globals' initial values, before setup() runs; `flash` is the EEPROM
        content. */
    constructor (flash: seq<byte>)
      requires |flash| == EepromSize
      ensures Valid() && fresh(strip) && fresh(strip.pixels)
      ensures currentStripType == SK6812Rgbw && currentEffect == Code(Static)
      ensures effectStep == 0 && runningPhase == 0
      ensures currentHours == 0 && currentMinutes == 0 && colonVisible
      ensures lastColonUpdate == 0 && lastSparkleUpdate == 0 && lastTimeUpdate == 0 && lastEffectUpdate == 0
      ensures currentRed == 0 && currentGreen == 0 && currentBlue == 0 && currentWhite == 0
      ensures currentBrightness == 255 && maxBrightness == 255
      ensures eeprom == flash && strip.shown == []
    {
      strip := new Strip(PixelCount);
      currentStripType := SK6812Rgbw;
      currentEffect := Code(Static);
      effectStep, runningPhase := 0, 0;
      currentHours, currentMinutes := 0, 0;
      colonVisible := true;
      lastColonUpdate, lastSparkleUpdate := 0, 0;
      lastTimeUpdate, lastEffectUpdate := 0, 0;
      currentRed, currentGreen, currentBlue, currentWhite := 0, 0, 0, 0;
      currentBrightness, maxBrightness := 255, 255;
      eeprom := flash;
    }

    /** The configuration part of setup(): the record is loaded with its fallbacks,
        every pixel is filled with the capped colour, and the frame is shown. */
    method Setup()
      requires Valid()
      modifies this`currentStripType, this`currentRed, this`currentGreen, this`currentBlue,
               this`currentWhite, this`currentBrightness, this`maxBrightness, this`currentEffect,
               strip, strip.pixels
      ensures Valid()
      ensures Config(currentStripType, maxBrightness, currentRed, currentGreen, currentBlue, currentEffect) ==
        LoadConfig(eeprom, Config(old(currentStripType), old(maxBrightness), 255, 0, 0, old(currentEffect)))
      ensures currentWhite == 0 && currentBrightness == 255
      ensures ShowedFrame(strip, Fill(old(strip.pixels[..]), 0, PixelCount,
                                      CappedColor(currentRed, currentGreen, currentBlue, maxBrightness)))
    {
      LoadStripSettings();
      var color := Color(Scale(currentGreen, maxBrightness), Scale(currentRed, maxBrightness),
                         Scale(currentBlue, maxBrightness), currentWhite);
      ShowFill(strip, color);
      LoadEffect();
    }

    /** setup(): strip type, default red, brightness cap and colour from the record. */
    method LoadStripSettings()
      requires Valid()
      modifies this`currentStripType, this`currentRed, this`currentGreen, this`currentBlue,
               this`currentWhite, this`currentBrightness, this`maxBrightness
      ensures Valid()
      ensures var c := LoadConfig(eeprom, Config(old(currentStripType), old(maxBrightness), 255, 0, 0, currentEffect));
        currentStripType == c.stripType && maxBrightness == c.maxBrightness &&
        currentRed == c.red && currentGreen == c.green && currentBlue == c.blue
      ensures currentWhite == 0 && currentBrightness == 255
    {
      var savedType := eeprom[TypeAddress];
      if savedType <= WS2812BRgb {
        currentStripType := savedType;
      }
      currentRed, currentGreen, currentBlue, currentWhite := 255, 0, 0, 0;
      currentBrightness := 255;
      var savedBrightness := eeprom[BrightnessLimitAddress];
      if savedBrightness > 0 && savedBrightness <= 255 {
        maxBrightness := savedBrightness;
      }
      LoadColor();
    }

    /** The colour part of setup()'s load: the saved colour unless it is all-255. */
    method LoadColor()
      requires Valid()
      modifies this`currentRed, this`currentGreen, this`currentBlue
      ensures Valid()
      ensures var c := LoadConfig(eeprom, Config(0, 1, 255, 0, 0, 0));
        currentRed == c.red && currentGreen == c.green && currentBlue == c.blue
    {
      var savedRed, savedGreen, savedBlue := eeprom[RedAddress], eeprom[GreenAddress], eeprom[BlueAddress];
      if savedRed != 255 || savedGreen != 255 || savedBlue != 255 {
        currentRed, currentGreen, currentBlue := savedRed, savedGreen, savedBlue;
      } else {
        currentRed, currentGreen, currentBlue := 255, 0, 0;
      }
    }

    /** setup(): the effect from the record, if it names one. */
    method LoadEffect()
      requires Valid()
      modifies this`currentEffect
      ensures Valid()
      ensures currentEffect == LoadConfig(eeprom, Config(0, 1, 0, 0, 0, old(currentEffect))).effect
    {
      var savedEffect := eeprom[EffectAddress];
      if savedEffect < EffectCount {
        currentEffect := savedEffect;
      }
    }

    /** showTime and main.cpp's showAllDigits(color): the time frame from the globals. */
    method ShowTime(color: Color)
      requires Valid()
      modifies strip, strip.pixels
      ensures ShowedFrame(strip, ComposeTime(old(strip.pixels[..]), color, currentHours, currentMinutes, colonVisible))
    {
      ShowAllDigits(strip, color, currentHours, currentMinutes, colonVisible);
    }

    /** The effect switch of updateEffect, run when the 50 ms gate is open. */
    method RunEffect(now: u32, waves: Waves, rolls: seq<int>)
      requires Valid() && |rolls| == DigitCount && waves.InRange()
      modifies this`effectStep, this`runningPhase, this`lastSparkleUpdate, strip, strip.pixels
      ensures Valid()
      ensures TickCounters() == Tick(Dispatch(currentEffect), old(TickCounters()), now)
      ensures TickShows(Dispatch(currentEffect), SparkleFires(old(TickCounters()), now)) ==>
        ShowedFrame(strip, TickFrame(old(strip.pixels[..]), Dispatch(currentEffect), runningPhase,
                                     MainPalette(currentRed, currentGreen, currentBlue, maxBrightness, effectStep, runningPhase, waves),
                                     rolls, currentHours, currentMinutes, colonVisible))
      ensures !TickShows(Dispatch(currentEffect), SparkleFires(old(TickCounters()), now)) ==> Untouched(strip)
    {
      match Dispatch(currentEffect)
      case Static => StaticTick(now, waves, rolls);
      case Rainbow => RainbowTick(now, waves, rolls);
      case Breathing => BreathingTick(now, waves, rolls);
      case Running => RunningTick(now, waves, rolls);
      case Sparkle => SparkleTick(now, waves, rolls);
    }

    /** STATIC (and the default branch): the time in the capped colour. */
    method StaticTick(now: u32, waves: Waves, rolls: seq<int>)
      requires Valid() && |rolls| == DigitCount && waves.InRange()
      modifies strip, strip.pixels
      ensures Valid()
      ensures TickCounters() == Tick(Static, old(TickCounters()), now)
      ensures ShowedFrame(strip, TickFrame(old(strip.pixels[..]), Static, runningPhase,
                                     MainPalette(currentRed, currentGreen, currentBlue, maxBrightness, effectStep, runningPhase, waves),
                                     rolls, currentHours, currentMinutes, colonVisible))
    {
      ShowAllDigits(strip, CappedColor(currentRed, currentGreen, currentBlue, maxBrightness),
                    currentHours, currentMinutes, colonVisible);
    }

    /** RAINBOW: effectStep + 1, the time in the integer wheel colour of the new step. */
    method RainbowTick(now: u32, waves: Waves, rolls: seq<int>)
      requires Valid() && |rolls| == DigitCount && waves.InRange()
      modifies this`effectStep, strip, strip.pixels
      ensures Valid()
      ensures TickCounters() == Tick(Rainbow, old(TickCounters()), now)
      ensures ShowedFrame(strip, TickFrame(old(strip.pixels[..]), Rainbow, runningPhase,
                                     MainPalette(currentRed, currentGreen, currentBlue, maxBrightness, effectStep, runningPhase, waves),
                                     rolls, currentHours, currentMinutes, colonVisible))
    {
      effectStep := (effectStep + 1) % 256;
      ShowAllDigits(strip, RainbowColor(effectStep, maxBrightness), currentHours, currentMinutes, colonVisible);
    }

    /** BREATHING: effectStep + 2, the time in the breathing colour of the new step. */
    method BreathingTick(now: u32, waves: Waves, rolls: seq<int>)
      requires Valid() && |rolls| == DigitCount && waves.InRange()
      modifies this`effectStep, strip, strip.pixels
      ensures Valid()
      ensures TickCounters() == Tick(Breathing, old(TickCounters()), now)
      ensures ShowedFrame(strip, TickFrame(old(strip.pixels[..]), Breathing, runningPhase,
                                     MainPalette(currentRed, currentGreen, currentBlue, maxBrightness, effectStep, runningPhase, waves),
                                     rolls, currentHours, currentMinutes, colonVisible))
    {
      effectStep := (effectStep + 2) % 256;
      var brightness := waves.breathing(effectStep);
      var color := FactorColor(currentRed, currentGreen, currentBlue, maxBrightness, brightness);
      ShowAllDigits(strip, color, currentHours, currentMinutes, colonVisible);
    }

    /** RUNNING: runningPhase + 2, the active slot (phase / 64) % 4 pulsing over the base colour. */
    method RunningTick(now: u32, waves: Waves, rolls: seq<int>)
      requires Valid() && |rolls| == DigitCount && waves.InRange()
      modifies this`runningPhase, strip, strip.pixels
      ensures Valid()
      ensures TickCounters() == Tick(Running, old(TickCounters()), now)
      ensures ShowedFrame(strip, TickFrame(old(strip.pixels[..]), Running, runningPhase,
                                     MainPalette(currentRed, currentGreen, currentBlue, maxBrightness, effectStep, runningPhase, waves),
                                     rolls, currentHours, currentMinutes, colonVisible))
    {
      RunningPhaseSplit(runningPhase);
      runningPhase := (runningPhase + 2) % 256;
      var activeDisplay := (runningPhase / 64) % 4;
      var transitionPhase := runningPhase % 64;
      assert activeDisplay == ActiveDisplay(runningPhase);
      var baseColor := FactorColor(currentRed, currentGreen, currentBlue, maxBrightness, BaseBrightness);
      var activeBrightness := waves.pulse(transitionPhase);
      var activeColor := FactorColor(currentRed, currentGreen, currentBlue, maxBrightness, activeBrightness);
      ShowRunning(strip, baseColor, activeColor, activeDisplay, currentHours, currentMinutes, colonVisible);
    }

    /** SPARKLE: every 200 ms each slot is rolled (dim below 30, else capped); the separator is capped. */
    method SparkleTick(now: u32, waves: Waves, rolls: seq<int>)
      requires Valid() && |rolls| == DigitCount && waves.InRange()
      modifies this`lastSparkleUpdate, strip, strip.pixels
      ensures Valid()
      ensures TickCounters() == Tick(Sparkle, old(TickCounters()), now)
      ensures TickShows(Sparkle, SparkleFires(old(TickCounters()), now)) ==>
        ShowedFrame(strip, TickFrame(old(strip.pixels[..]), Sparkle, runningPhase,
                                     MainPalette(currentRed, currentGreen, currentBlue, maxBrightness, effectStep, runningPhase, waves),
                                     rolls, currentHours, currentMinutes, colonVisible))
      ensures !TickShows(Sparkle, SparkleFires(old(TickCounters()), now)) ==> Untouched(strip)
    {
      if Elapsed(now, lastSparkleUpdate) >= SparklePeriod {
        lastSparkleUpdate := now;
        var capped := CappedColor(currentRed, currentGreen, currentBlue, maxBrightness);
        var dimColor := FactorColor(currentRed, currentGreen, currentBlue, maxBrightness, DimBrightness);
        ShowSparkle(strip, SparkleColors(rolls, dimColor, capped), capped,
                    currentHours, currentMinutes, colonVisible);
      }
    }

    /** updateEffect at millis() == now: the wall clock (hours, minutes from the
        time source) is copied every 1000 ms, the colon flips every 500 ms, and
        every 50 ms the current effect's routine runs. */
    method UpdateEffect(now: u32, clockHours: nat, clockMinutes: nat, waves: Waves, rolls: seq<int>)
      requires Valid() && clockHours <= 23 && clockMinutes <= 59 && |rolls| == DigitCount && waves.InRange()
      modifies this`lastTimeUpdate, this`currentHours, this`currentMinutes, this`lastColonUpdate,
               this`colonVisible, this`lastEffectUpdate, this`effectStep, this`runningPhase,
               this`lastSparkleUpdate, strip, strip.pixels
      ensures Valid()
      ensures if Due(now, old(lastTimeUpdate), TimePeriod)
        then lastTimeUpdate == now && currentHours == clockHours && currentMinutes == clockMinutes
        else lastTimeUpdate == old(lastTimeUpdate) && currentHours == old(currentHours) && currentMinutes == old(currentMinutes)
      ensures if Due(now, old(lastColonUpdate), ColonPeriod)
        then lastColonUpdate == now && colonVisible == !old(colonVisible)
        else lastColonUpdate == old(lastColonUpdate) && colonVisible == old(colonVisible)
      ensures !Due(now, old(lastEffectUpdate), MasterPeriod) ==>
        lastEffectUpdate == old(lastEffectUpdate) && TickCounters() == old(TickCounters()) && Untouched(strip)
      ensures Due(now, old(lastEffectUpdate), MasterPeriod) ==>
        lastEffectUpdate == now &&
        TickCounters() == Tick(Dispatch(currentEffect), old(TickCounters()), now) &&
        var e := Dispatch(currentEffect);
        if TickShows(e, SparkleFires(old(TickCounters()), now)) then
          ShowedFrame(strip, TickFrame(old(strip.pixels[..]), e, runningPhase,
                                       MainPalette(currentRed, currentGreen, currentBlue, maxBrightness, effectStep, runningPhase, waves),
                                       rolls, currentHours, currentMinutes, colonVisible))
        else Untouched(strip)
    {
      if Elapsed(now, lastTimeUpdate) >= TimePeriod {
        lastTimeUpdate := now;
        currentHours, currentMinutes := clockHours, clockMinutes;
      }
      if Elapsed(now, lastColonUpdate) >= ColonPeriod {
        lastColonUpdate := now;
        colonVisible := !colonVisible;
      }
      if Elapsed(now, lastEffectUpdate) >= MasterPeriod {
        lastEffectUpdate := now;
        RunEffect(now, waves, rolls);
      }
    }

    /** loop(): OTA and the web server are left out, so one call is one updateEffect.
        Stated without the frame: each gate's timestamp moves to `now` exactly when it
        fires, the colon flips with its gate, and the counters tick with the 50 ms gate. */
    method Loop(now: u32, clockHours: nat, clockMinutes: nat, waves: Waves, rolls: seq<int>)
      requires Valid() && clockHours <= 23 && clockMinutes <= 59 && |rolls| == DigitCount && waves.InRange()
      modifies this`lastTimeUpdate, this`currentHours, this`currentMinutes, this`lastColonUpdate,
               this`colonVisible, this`lastEffectUpdate, this`effectStep, this`runningPhase,
               this`lastSparkleUpdate, strip, strip.pixels
      ensures Valid()
      ensures lastEffectUpdate == (if Due(now, old(lastEffectUpdate), MasterPeriod) then now else old(lastEffectUpdate))
      ensures lastTimeUpdate == (if Due(now, old(lastTimeUpdate), TimePeriod) then now else old(lastTimeUpdate))
      ensures lastColonUpdate == (if Due(now, old(lastColonUpdate), ColonPeriod) then now else old(lastColonUpdate))
      ensures colonVisible == (old(colonVisible) != Due(now, old(lastColonUpdate), ColonPeriod))
      ensures TickCounters() == if Due(now, old(lastEffectUpdate), MasterPeriod)
        then Tick(Dispatch(currentEffect), old(TickCounters()), now) else old(TickCounters())
    {
      UpdateEffect(now, clockHours, clockMinutes, waves, rolls);
    }

    /** The Arduino core calling loop() over and over, the i-th call reading millis()
        as times[i], the wall clock as clocks[i] and Sparkle's rolls as rolls[i]. Each
        of the three gates ends where GateAfter puts it, the colon has flipped once
        per firing of its gate, and a clock-independent effect has ticked once per
        firing of the 50 ms gate. */
    method RunLoop(times: seq<u32>, clocks: seq<(nat, nat)>, waves: Waves, rolls: seq<seq<int>>)
      requires Valid() && waves.InRange()
      requires |clocks| == |times| && |rolls| == |times|
      requires forall i :: 0 <= i < |times| ==> clocks[i].0 <= 23 && clocks[i].1 <= 59 && |rolls[i]| == DigitCount
      modifies this`lastTimeUpdate, this`currentHours, this`currentMinutes, this`lastColonUpdate,
               this`colonVisible, this`lastEffectUpdate, this`effectStep, this`runningPhase,
               this`lastSparkleUpdate, strip, strip.pixels
      ensures Valid()
      ensures lastEffectUpdate == GateAfter(old(lastEffectUpdate), times, MasterPeriod)
      ensures lastTimeUpdate == GateAfter(old(lastTimeUpdate), times, TimePeriod)
      ensures lastColonUpdate == GateAfter(old(lastColonUpdate), times, ColonPeriod)
      ensures colonVisible == (old(colonVisible) != (|Firings(old(lastColonUpdate), times, ColonPeriod)| % 2 == 1))
      ensures Dispatch(currentEffect) != Sparkle ==>
        TickCounters() == Repeat(Dispatch(currentEffect), old(TickCounters()),
                                 |Firings(old(lastEffectUpdate), times, MasterPeriod)|)
    {
      for i := 0 to |times|
        invariant Valid()
        invariant lastEffectUpdate == GateAfter(old(lastEffectUpdate), times[..i], MasterPeriod)
        invariant lastTimeUpdate == GateAfter(old(lastTimeUpdate), times[..i], TimePeriod)
        invariant lastColonUpdate == GateAfter(old(lastColonUpdate), times[..i], ColonPeriod)
        invariant colonVisible == (old(colonVisible) != (|Firings(old(lastColonUpdate), times[..i], ColonPeriod)| % 2 == 1))
        invariant Dispatch(currentEffect) != Sparkle ==>
          TickCounters() == Repeat(Dispatch(currentEffect), old(TickCounters()),
                                   |Firings(old(lastEffectUpdate), times[..i], MasterPeriod)|)
      {
        GateStep(old(lastEffectUpdate), times, i, MasterPeriod);
        GateStep(old(lastTimeUpdate), times, i, TimePeriod);
        GateStep(old(lastColonUpdate), times, i, ColonPeriod);
        ghost var fired := |Firings(old(lastEffectUpdate), times[..i], MasterPeriod)|;
        if Dispatch(currentEffect) != Sparkle {
          RepeatStep(Dispatch(currentEffect), old(TickCounters()), fired, times[i]);
        }
        Loop(times[i], clocks[i].0, clocks[i].1, waves, rolls[i]);
      }
      assert times[..|times|] == times;
    }

    /** /effect?value=v: a value in 0 .. EFFECT_COUNT - 1 becomes the effect, resets
        effectStep (not runningPhase) and is written to offset 6; anything else is
        refused with 400 and changes nothing. */
    method HandleEffect(value: int) returns (status: nat)
      requires Valid()
      modifies this`currentEffect, this`effectStep, this`eeprom
      ensures Valid()
      ensures ValidEffectValue(value) ==>
        status == 200 && currentEffect == value && effectStep == 0 &&
        eeprom == old(eeprom)[EffectAddress := value]
      ensures !ValidEffectValue(value) ==>
        status == 400 && currentEffect == old(currentEffect) && effectStep == old(effectStep) &&
        eeprom == old(eeprom)
      ensures runningPhase == old(runningPhase)
    {
      if value >= 0 && value < EffectCount {
        currentEffect := value;
        effectStep := 0;
        eeprom := eeprom[EffectAddress := value];
        status := 200;
      } else {
        status := 400;
      }
    }

    /** /set-time?hours=h&minutes=m: a valid time is set and shown at once in the
        capped colour; anything else is refused with 400 and changes nothing. */
    method HandleSetTime(hours: int, minutes: int) returns (status: nat)
      requires Valid()
      modifies this`currentHours, this`currentMinutes, strip, strip.pixels
      ensures Valid()
      ensures ValidTime(hours, minutes) ==>
        status == 200 && currentHours == hours && currentMinutes == minutes &&
        ShowedFrame(strip, ComposeTime(old(strip.pixels[..]), CappedColor(currentRed, currentGreen, currentBlue, maxBrightness),
                                       hours, minutes, colonVisible))
      ensures !ValidTime(hours, minutes) ==>
        status == 400 && currentHours == old(currentHours) && currentMinutes == old(currentMinutes) && Untouched(strip)
    {
      if hours >= 0 && hours <= 23 && minutes >= 0 && minutes <= 59 {
        currentHours, currentMinutes := hours, minutes;
        ShowTime(CappedColor(currentRed, currentGreen, currentBlue, maxBrightness));
        status := 200;
      } else {
        status := 400;
      }
    }

    /** /strip-config?count=n&type=t&brightness=b as written: the arguments are
        converted to uint16_t, StripType and uint8_t, then range-checked; an accepted
        request saves the converted type and brightness, the current colour and the
        current effect to the record (the device then restarts); anything else is
        refused with 400 and changes nothing. */
    method HandleStripConfig(count: int, stripType: int, brightness: int) returns (status: nat)
      requires Valid()
      modifies this`eeprom
      ensures Valid()
      ensures StripConfigAsWritten(count, stripType, brightness).Some? ==>
        var request := StripConfigAsWritten(count, stripType, brightness).value;
        status == 200 &&
        eeprom == SaveStripConfig(old(eeprom), request.stripType, request.brightness,
                                  currentRed, currentGreen, currentBlue, currentEffect)
      ensures StripConfigAsWritten(count, stripType, brightness).None? ==> status == 400 && eeprom == old(eeprom)
    {
      var newCount := ToUint16(count);
      var newType := ToStripType(stripType);
      var newBrightness := ToUint8(brightness);
      if newCount > 0 && newCount <= 1000 && newType <= WS2812BRgb && newBrightness > 0 && newBrightness <= 255 {
        eeprom := SaveStripConfig(eeprom, newType, newBrightness, currentRed, currentGreen, currentBlue, currentEffect);
        status := 200;
      } else {
        status := 400;
      }
    }

    /** /update-strip?color=c: the decoded colour becomes the current colour (white
        channel 0), is written to offsets 3..5, and the time is shown in it, capped;
        the reply is a 302 redirect. */
    method HandleUpdateStrip(color: seq<char>) returns (status: nat)
      requires Valid()
      modifies this`currentRed, this`currentGreen, this`currentBlue, this`currentWhite, this`eeprom,
               strip, strip.pixels
      ensures Valid() && status == 302
      ensures (currentRed, currentGreen, currentBlue) == DecodeColor(color) && currentWhite == 0
      ensures eeprom == WriteColor(old(eeprom), currentRed, currentGreen, currentBlue)
      ensures ShowedFrame(strip, ComposeTime(old(strip.pixels[..]), CappedColor(currentRed, currentGreen, currentBlue, maxBrightness),
                                             currentHours, currentMinutes, colonVisible))
    {
      StoreColor(color);
      ShowTime(CappedColor(currentRed, currentGreen, currentBlue, maxBrightness));
      status := 302;
    }

    /** The decode and EEPROM part of /update-strip. */
    method StoreColor(color: seq<char>)
      requires Valid()
      modifies this`currentRed, this`currentGreen, this`currentBlue, this`currentWhite, this`eeprom
      ensures Valid()
      ensures (currentRed, currentGreen, currentBlue) == DecodeColor(color) && currentWhite == 0
      ensures eeprom == WriteColor(old(eeprom), currentRed, currentGreen, currentBlue)
    {
      var (red, green, blue) := DecodeColor(color);
      currentRed, currentGreen, currentBlue, currentWhite := red, green, blue, 0;
      eeprom := WriteColor(eeprom, red, green, blue);
    }

    /** /brightness?value=v: the value, converted to uint8_t, becomes the brightness
        cap and is written to offset 2; the reply is a 302 redirect. */
    method HandleBrightness(value: int) returns (status: nat)
      requires Valid()
      modifies this`maxBrightness, this`eeprom
      ensures Valid() && status == 302
      ensures maxBrightness == ToUint8(value) && eeprom == old(eeprom)[BrightnessLimitAddress := maxBrightness]
    {
      maxBrightness := value % 256;
      eeprom := eeprom[BrightnessLimitAddress := maxBrightness];
      status := 302;
    }
  }
}
