# LED clock rendering core in Dafny

This project models the firmware of a four-digit seven-segment LED clock on an
ESP8266. The clock is a strip of 90 RGBW pixels. Four digit slots use 21 pixels
each (7 segments of 3 pixels). Two separator pixels sit between the hours and the
minutes, followed by one spare pixel. The digit and effect renderers never address
pixels 87..89. Only the whole-strip fill of `setup()` (and of the `/color` and
`/white` handlers) writes all 90.

The firmware draws the time in one of five effects: Static, Rainbow, Breathing,
Running and Sparkle. An effect routine runs every 50 ms. Settings are kept in a
512-byte EEPROM record and changed through small web handlers.

The rendering core exists twice in the source:

- the live, globals-based engine of `src/main.cpp`, modelled by the class
  `Clock.Clock`;
- the `Effects` class of `src/effects.cpp` and `src/effects.h`, modelled by the
  class `EffectsEngine.Effects`.

The two engines share one geometry and font (`Geometry`) and one set of drawing
routines (`Render`). The drawing routines are imperative methods over a `Strip`
class that holds `pixels: array<Color>` and the list of frames transmitted by
`Show()`. Each drawing method is proved against a pure buffer function in
`Frames`. The pixel-by-pixel lemmas of `Frames` then say what every composed
frame holds.

Both engines are proved against one shared specification of an effect tick:

- `Animation.Tick` says what one dispatched routine does to the counters.
- `EffectFrames.TickFrame` says which frame the routine transmits.

The engines pass different palettes into that specification
(`Clock.MainPalette` and `EffectsEngine.ClassPalette`):

- Rainbow uses an integer colour wheel in `src/main.cpp` and three sine channels in the `Effects` class.
- The `Effects` class passes the Breathing factor, the Running pulse and both Sparkle factors through `limitBrightness`; `updateEffect` does not.
- `updateEffect` draws Sparkle's full slots in the integer capped colour; the class uses the float factor 1.0.

`EffectsEngine.EnginesAgree` says where the engines coincide (Static always, and every effect but Rainbow at cap 255). `EffectsEngine.EnginesDiffer` shows a colour where they do not, and `EffectsEngine.ClassNeverBrighter` says which way they differ.

Modules, one per file:

| file | module | content |
|---|---|---|
| geometry.dfy | Geometry | constants, `getSegmentStart`, pixel ownership, the font and `SEG_*` order |
| colors.dfy | Colors | `RgbwColor`, integer scaling `c * cap / 255`, the integer colour wheel, `limitBrightness` |
| frames.dfy | Frames | buffer functions for every drawing routine, and pixel-by-pixel lemmas |
| render.dfy | Render | the `Strip` class and the drawing methods (`setSegmentColor`, `showDigit`, `showAllDigits`, `showNumber`, ...) |
| animation.dfy | Animation | 32-bit millisecond gates, the `Effect` enum, the phase counters, `Tick` |
| effect_frames.dfy | EffectFrames | the frame one effect tick transmits |
| settings.dfy | Settings | the EEPROM record, handler range checks, `strtol` hex colour decode |
| clock.dfy | Clock | `src/main.cpp`: globals, `setup` load, `updateEffect`, handlers |
| effects.dfy | EffectsEngine | `src/effects.cpp` / `src/effects.h`: the `Effects` class |

Inputs that come from outside the program are passed in as parameters:

- `millis()` is `now`. `Effects::sparkleEffect` reads the clock a second time, so it also receives `sparkleNow`.
- The four `random(100)` draws of a Sparkle tick are `rolls`.
- The hours and minutes from `localtime` are `clockHours` and `clockMinutes`.
- The sine values are taken from a `Waves` record: effects.cpp's three Rainbow channels as a function of the step, the Breathing wave as a function of the step, and the Running pulse as a function of the transition phase. Each lies in the range its formula guarantees. The products with these factors, the 0.3 / 0.8 constants and `limitBrightness` are computed in the model.

## Model

| member | source | states |
|---|---|---|
| Geometry.SegmentStart | src/main.cpp:43-52 | every (slot, segment) run of 3 pixels ends at or below pixel 87; slots 0-1 lie below the separator (42) and slots 2-3 above the spare (44) |
| Geometry.Owner | src/main.cpp:77-83 | the inverse of getSegmentStart: a pixel is in a segment run, is a separator pixel exactly when it is 42..43, the spare exactly when it is 44, unused exactly when it is 87 or more |
| Geometry.OwnerOfRun | src/main.cpp:43-52 | pixel p lies in the run of (s, k) if and only if p is owned by segment (s, k) |
| Geometry.RunsDisjoint | src/main.cpp:43-52 | the 28 segment runs are pairwise disjoint |
| Geometry.LayoutConstants | src/effects.h:7-15 | DISPLAY3_START = 2 * 7 * 3, DISPLAY4_START = DISPLAY3_START + DISPLAY3_LEDS, slot 2 starts right after the spare, slot 1 ends right before the separator, 87 addressed pixels plus 3 unused make 90 |
| Geometry.Column | src/effects.h:18-24 | every SEG_* constant is a font column 0..6 |
| Geometry.ColumnsArePermutation | src/effects.h:18-24 | the SEG_* constants are a bijection between the seven segments and the columns 0..6, in the order G, B, A, F, E, D, C |
| Geometry.FontIsStandard | src/main.cpp:29-40 | every DIGITS entry is 0 or 1, and read through SEG_* the table is the conventional seven-segment encoding of 0..9 (the table of src/effects.cpp:5-16 is identical) |
| Colors.Scale | src/main.cpp:875-880 | `c * cap / 255` is at most the cap and at most c, equals c at cap 255, equals cap at c 255, and is 0 when either is 0 |
| Colors.CappedColor | src/effects.cpp:108-113 | the capped colour has every channel at most the cap and white 0; at cap 255 it is (green, red, blue, 0), with the configured green in the first channel; at cap 0 it is black |
| Colors.WheelBand | src/main.cpp:885-908 | each band of the integer wheel has one zero channel, and its three channels are in 0..255 and sum to 255 |
| Colors.RainbowColor | src/main.cpp:883-909 | every Rainbow channel is at most maxBrightness, white 0 |
| Colors.WheelContinuous | src/main.cpp:885-908 | from one effectStep to the next, including 255 to 0, no wheel channel moves by more than 3 |
| Colors.WheelCorners | src/main.cpp:885-908 | the wheel is pure first channel at 0 and 255, pure second at 85, pure third at 170 |
| Colors.LimitBrightness | src/effects.cpp:24-27 | the result is min(brightness, maxBrightness / 255): never above either, equal to one of them, and in [0, 1] for a non-negative brightness |
| Colors.WaveChannel | src/effects.cpp:122-124 | a sine channel in [0, 255] times the cap over 255, truncated to uint8_t, is at most the cap |
| Colors.ShadeChannelBelowScale | src/main.cpp:913-919 | `c * cap * factor / 255` truncated, for a factor in [0, 1], is at most the integer `c * cap / 255`, and equal to it at factor 1 |
| Colors.ShadeChannelMonotone | src/effects.cpp:136-141 | a larger brightness factor never gives a darker channel |
| Colors.FactorColorBelowCapped | src/effects.cpp:203-210 | a colour times a factor in [0, 1] is no brighter in any channel than the capped colour, and is the capped colour at factor 1 |
| Colors.FactorColorMonotone | src/effects.cpp:134-141 | a smaller factor gives a colour no brighter in any channel |
| Colors.SineRainbowColor | src/effects.cpp:117-127 | every channel of the sine Rainbow colour is at most maxBrightness, white 0 |
| Frames.FillAt | src/main.cpp:569-571 | a run of SetPixelColor sets exactly pixels start .. start + n - 1 and keeps the others |
| Frames.PaintSegmentAt | src/main.cpp:55-60 | setSegmentColor writes the colour to the three pixels owned by that segment and to no other pixel |
| Frames.ExtrasAt | src/main.cpp:85-94 | the separator loop writes exactly the two separator pixels and the spare write exactly the spare pixel |
| Frames.TimeDigitsSpellTime | src/main.cpp:1048-1072 | for hours <= 23 and minutes <= 59 the four slot numerals are digits 0..9 that spell hh:mm |
| Frames.Clamp | src/main.cpp:99 | constrain(number, 0, 9999) is at most 9999 and is the identity on 0..9999 |
| Frames.NumberDigitsSpellNumber | src/main.cpp:97-106 | the four digits of showNumber are numerals that spell the clamped number |
| Frames.PaintDigitAt | src/main.cpp:63-74 | showDigit with number > 9 writes nothing; otherwise a pixel of slot d's 21 gets the colour if its segment is lit and black if not, and no pixel outside the slot changes |
| Frames.PaintSlotsAt | src/effects.cpp:160-165 | the per-slot loop paints slots 0 .. k - 1 by the font and changes nothing else |
| Frames.TimeFrameAt | src/main.cpp:1048-1072 | the time frame, pixel by pixel: the four digits of the time, the separator in the colour when visible and black otherwise, the spare black, pixels 87..89 kept |
| Frames.TimeFrameRepaints | src/main.cpp:177-203 | for a valid time, pixels 0..86 of the frame do not depend on the old buffer, 87..89 are untouched, and drawing the same time again changes nothing |
| Frames.NumberFrameAt | src/main.cpp:97-120 | the number frame, pixel by pixel: the four digits of the clamped number, and all of 42..44 in the colour |
| Frames.RunningFrameAt | src/main.cpp:922-986 | the Running frame, pixel by pixel: the active slot in activeColor, the other three in baseColor, the separator in baseColor when visible, the spare black |
| Frames.SparkleFrameAt | src/main.cpp:988-1039 | the Sparkle frame, pixel by pixel: slot i in its rolled colour, the separator in the separator colour when visible, the spare black |
| Frames.StaticExample | src/main.cpp:873-881 | 09:05 in configured red at full brightness lights the digits 0, 9, 0, 5 and the separator in (0, 255, 0, 0), and the spare stays black |
| Render.SetSegmentColor | src/main.cpp:55-60 | the buffer after the loop is the old buffer with the segment's 3 pixels set |
| Render.ShowDigit | src/main.cpp:63-74 | the buffer after showDigit is PaintDigit of the old buffer (see Frames.PaintDigitAt) |
| Render.SetSeparator | src/main.cpp:184-192 | the two separator pixels are set and nothing else changes |
| Render.SetSpare | src/main.cpp:196 | only the spare pixel is set |
| Render.ShowAllDigits | src/effects.cpp:56-76 | the buffer holds the composed time frame and exactly that frame is transmitted, once |
| Render.ShowSlots | src/effects.cpp:160-165 | after the loop, slots 0..3 are painted with their own colours and nothing else changes |
| Render.ShowRunning | src/effects.cpp:160-194 | the Running frame is in the buffer and is transmitted once |
| Render.ShowSparkle | src/effects.cpp:202-236 | the Sparkle frame is in the buffer and is transmitted once |
| Render.SetExtraDisplays | src/main.cpp:86-94 | pixels 42, 43 and 44 get the colour and nothing else changes |
| Render.ShowNumber | src/main.cpp:97-120 | the number frame is in the buffer and is transmitted once |
| Render.ShowFill | src/main.cpp:561-572 | all 90 pixels hold the colour and that frame is transmitted once |
| Animation.Elapsed | src/main.cpp:869 | `currentMillis - last` on 32 bits is the distance forward from last to now, across the wrap |
| Animation.GateStep | src/main.cpp:869-870 | one more call moves the gate's timestamp to that call's time exactly when the call finds the gate open, and adds one firing exactly then |
| Animation.FiringsSpaced | src/main.cpp:834-870 | over any run of calls the gate ends at its last firing (or where it started when none), the first firing is a full period after the start, and consecutive firings are a full period apart, across the wrap of millis() |
| Animation.Code | src/main.cpp:130-137 | every enumerator is below EFFECT_COUNT |
| Animation.Dispatch | src/effects.cpp:84-103 | a value below 5 selects the effect with that value; any other value takes the default branch, staticEffect |
| Animation.CodeRoundTrip | src/effects.h:27-34 | dispatching an enumerator's value gives the enumerator back, and EFFECT_COUNT bounds exactly the enumerators' values |
| Animation.AdvanceTimesClosed | src/main.cpp:884 | k ticks of a uint8_t counter advancing by step move it by step * k modulo 256 |
| Animation.RainbowPeriod | src/effects.cpp:119 | effectStep + 1 returns to its start after k ticks exactly when 256 divides k |
| Animation.BreathingPeriod | src/effects.cpp:133 | effectStep + 2 returns to its start after k ticks exactly when 128 divides k |
| Animation.ActiveDisplay | src/main.cpp:931 | activeDisplay is in 0..3 |
| Animation.TransitionPhase | src/main.cpp:934 | transitionPhase is in 0..63 |
| Animation.RunningPhaseSplit | src/main.cpp:925-934 | runningPhase == 64 * activeDisplay + transitionPhase, and an even phase stays even after + 2 |
| Animation.SweepWithinCycle | src/main.cpp:931-934 | at phase 2j the active slot is j / 32 and the transition is 2 (j % 32) |
| Animation.RunningPhaseAfter | src/main.cpp:925 | from phase 0, k Running ticks give phase 2 (k % 128) |
| Animation.RunningSweep | src/main.cpp:925-934 | from phase 0, tick k lights slot (k % 128) / 32: each slot is active for 32 ticks in the order 0, 1, 2, 3, repeating every 128 ticks |
| Animation.TickTouchesOwnCounter | src/main.cpp:872-1040 | each effect routine changes only its own counter (effectStep for Rainbow and Breathing, runningPhase for Running, lastSparkleUpdate for Sparkle), and runningPhase stays even |
| Animation.RepeatAdvances | src/effects.cpp:84-103 | k dispatches of a clock-independent effect advance its own counter k times and leave the others alone |
| Animation.EffectCycles | src/main.cpp:883-925 | the Rainbow counters return to their start after exactly a multiple of 256 dispatches; Breathing and Running after a multiple of 128 |
| Animation.SparkleRateLimited | src/effects.cpp:197-200 | after Sparkle re-rolls at t1, a tick less than 200 ms later neither re-rolls nor changes any counter |
| EffectFrames.TickFrameAt | src/main.cpp:872-1043 | the frame of every effect, pixel by pixel: slot s shows its digit in the effect's slot colour, the separator shows the effect's separator colour when visible, the spare is black, pixels 87..89 are kept |
| EffectFrames.TickFrameRepaints | src/effects.cpp:56-76 | for a valid time every effect frame repaints pixels 0..86 from the tick's inputs alone and never touches 87..89 |
| EffectFrames.SlotColorsOfRunningAndSparkle | src/main.cpp:922-1015 | in Running exactly the active slot carries the active colour; in Sparkle exactly the slots whose roll is below 30 are dimmed |
| Settings.SaveStripConfig | src/main.cpp:206-215 | saveStripConfig keeps the record's 512 bytes, writes offsets 0 and 2..6, and leaves offset 1 and offsets 7..511 as they were |
| Settings.LoadConfig | src/main.cpp:518-559 | the setup load ends with a known strip type, a non-zero brightness, a known effect and a colour other than all-255 whenever the values it starts from are valid |
| Settings.ConfigRoundTrip | src/main.cpp:206-215 | loading what saveStripConfig wrote returns the same type, brightness, colour and effect when type <= 2, brightness > 0, effect < 5 and the colour is not all-255 |
| Settings.ConfigFallbacks | src/main.cpp:518-559 | a bad type or effect keeps the value held before the load, brightness 0 keeps it too, and an all-255 colour loads as red (255, 0, 0) |
| Settings.LoadSaveLoad | src/main.cpp:518-559 | a loaded configuration, saved again, loads unchanged |
| Settings.ErasedEepromLoadsDefaults | src/main.cpp:545-559 | erased flash (all 255) loads brightness 255, red, and the strip type and effect held before the load |
| Settings.EffectValuesAreEffects | src/main.cpp:759-762 | /effect accepts a value exactly when it is the value of one of the five effects |
| Settings.StripConfigTruncates | src/main.cpp:735-750 | as written, /strip-config accepts brightness 257 as 1 and count 65537 as 1; the checked version rejects both |
| Settings.StripConfigCheckedCorrect | src/main.cpp:735-750 | the checked /strip-config accepts exactly count 1..1000, type 0..2 and brightness 1..255, keeps the values as given, agrees with the code as written on those requests, and what it stores passes the load's checks |
| Settings.StripConfigPersists | src/main.cpp:735-745 | a request the as-written check accepts, saved as converted together with the current colour and effect, is exactly what the next boot loads |
| Settings.HandlerWritesLoad | src/main.cpp:666-767 | the next boot loads an accepted /effect value, a /brightness value unless it truncates to 0, and an /update-strip colour unless it is all-255 (white), which loads as red |
| Settings.SkipSpaces | src/main.cpp:705 | what strtol skips is no longer than the input |
| Settings.SkipSpacesSkipsSpaces | src/main.cpp:705 | strtol skips a prefix made only of white space, and the rest does not start with white space |
| Settings.HexRun | src/main.cpp:705 | the run strtol reads is within the input and made only of hexadecimal digits |
| Settings.HexRunIsLongest | src/main.cpp:705 | the run of hexadecimal digits strtol reads cannot be extended: it ends the input or is followed by a non-digit |
| Settings.SkipHexPrefix | src/main.cpp:705 | without an `x`/`X` in second place the input is read from its first character |
| Settings.Saturate | src/main.cpp:705 | an out-of-range value gives LONG_MAX or LONG_MIN, and an in-range value is kept |
| Settings.StrToL16 | src/main.cpp:705 | strtol(s, NULL, 16) is always a 32-bit long |
| Settings.StrToL16OfHexDigits | src/main.cpp:705 | a string of hexadecimal digits is read as its value, saturated at LONG_MAX |
| Settings.HexPrefixSkipped | src/main.cpp:705 | `0x` or `0X` in front of a non-empty run of hexadecimal digits is skipped: the result is that of the digits alone |
| Settings.BarePrefixIsZero | src/main.cpp:705 | `0x` or `0X` not followed by a hexadecimal digit is not a prefix: only the `0` is read, giving 0 |
| Settings.BytesOfValue | src/main.cpp:706-708 | `(n >> 16) & 0xFF`, `(n >> 8) & 0xFF` and `n & 0xFF` of red * 65536 + green * 256 + blue give red, green and blue |
| Settings.FormatColor | src/main.cpp:416 | the colour picker's value is `#` followed by six hexadecimal digits |
| Settings.DecodeFormatRoundTrip | src/main.cpp:697-709 | decoding `#rrggbb` gives back (red, green, blue) |
| Settings.OverflowIsWhite | src/main.cpp:705-708 | a digit string above LONG_MAX saturates and decodes as white (255, 255, 255) |
| Settings.DoubleHashIsBlack | src/main.cpp:699-708 | only one `#` is stripped, so `##...` reads no digits and decodes as black |
| Clock.Clock.constructor | src/main.cpp:150-171 | the globals start as declared: SK6812_RGBW, STATIC, counters and timestamps 0, 00:00, colon visible, colour 0, brightness and cap 255 |
| Clock.Clock.Setup | src/main.cpp:518-572 | setup leaves strip type, cap, colour and effect as LoadConfig of the record, white 0, brightness 255, and transmits a frame with all 90 pixels in the capped colour |
| Clock.Clock.LoadStripSettings | src/main.cpp:518-556 | strip type, cap and colour are those of LoadConfig of the record, starting from the current type and cap and red |
| Clock.Clock.LoadColor | src/main.cpp:545-556 | the colour is the saved one unless all three bytes are 255, which gives red (255, 0, 0) |
| Clock.Clock.LoadEffect | src/main.cpp:753-756 | the effect is the saved one when it is below EFFECT_COUNT, else unchanged |
| Clock.Clock.ShowTime | src/main.cpp:177-203 | the time frame of the globals is in the buffer and is transmitted once |
| Clock.Clock.RunEffect | src/main.cpp:872-1043 | the switch runs the routine of the current effect (the default one is Static): the counters follow Tick, and the frame is TickFrame with the main.cpp palette, or nothing at all for a Sparkle tick whose 200 ms gate is shut |
| Clock.Clock.StaticTick | src/main.cpp:873-881 | STATIC changes no counter and shows the time in the capped colour |
| Clock.Clock.RainbowTick | src/main.cpp:883-909 | RAINBOW advances effectStep by 1 mod 256 and shows the time in the integer wheel colour of the new step |
| Clock.Clock.BreathingTick | src/main.cpp:911-920 | BREATHING advances effectStep by 2 mod 256 and shows the time in the breathing colour |
| Clock.Clock.RunningTick | src/main.cpp:922-986 | RUNNING advances runningPhase by 2 mod 256 and shows the Running frame for active slot (phase / 64) % 4 |
| Clock.Clock.SparkleTick | src/main.cpp:988-1039 | SPARKLE re-rolls only when 200 ms have passed: then lastSparkleUpdate := now and the Sparkle frame is shown with the separator in the capped colour; otherwise no pixel is written and nothing is transmitted |
| Clock.Clock.UpdateEffect | src/main.cpp:841-1045 | the time is copied when 1000 ms have passed, the colon flips when 500 ms have passed, and the effect routine runs (and the timestamp is taken) only when 50 ms have passed; otherwise no counter and no pixel changes |
| Clock.Clock.Loop | src/main.cpp:834-838 | one loop() call is one updateEffect: each gate's timestamp moves to the call's time exactly when its period has passed, the colon flips exactly when its gate fires, and the counters tick exactly when the 50 ms gate fires |
| Clock.Clock.RunLoop | src/main.cpp:834-870 | over any run of loop() calls each gate's timestamp ends at GateAfter of the call times, so with Animation.FiringsSpaced consecutive effect runs are at least 50 ms apart; the colon has flipped once per firing of its gate, and a clock-independent effect has ticked once per firing of the 50 ms gate |
| Clock.Clock.HandleEffect | src/main.cpp:759-774 | an accepted value becomes the effect, resets effectStep and is written to offset 6 with status 200; a rejected one gives 400 and changes nothing; runningPhase is never reset |
| Clock.Clock.HandleSetTime | src/main.cpp:800-822 | a valid time is set and shown at once in the capped colour with status 200; an invalid one gives 400 and changes nothing |
| Clock.Clock.HandleStripConfig | src/main.cpp:735-750 | a request the as-written check accepts after its uint16_t / StripType / uint8_t conversions saves the converted type and brightness with the current colour and effect, status 200; any other gives 400 and leaves the record alone |
| Clock.Clock.HandleUpdateStrip | src/main.cpp:697-732 | the decoded colour becomes the current colour with white 0, is written to offsets 3..5, and the time is shown in it capped; status 302 |
| Clock.Clock.StoreColor | src/main.cpp:697-716 | the decoded colour is stored in the globals and in offsets 3..5 |
| Clock.Clock.HandleBrightness | src/main.cpp:666-678 | the value truncated to uint8_t becomes the cap and is written to offset 2; status 302 |
| EffectsEngine.EnginesAgree | src/effects.cpp:107-238 | the two engines compose the same frame for Static at any cap, and for every effect but Rainbow at cap 255, where limitBrightness changes no factor |
| EffectsEngine.EnginesShareBase | src/effects.cpp:146-195 | at any cap the Running base slots, the Running separator and the Sparkle separator are the same in both engines |
| EffectsEngine.ClassNeverBrighter | src/effects.cpp:132-238 | the Effects class's Breathing, Running-pulse, dimmed and full Sparkle colours are never brighter in any channel than updateEffect's |
| EffectsEngine.EnginesDiffer | src/effects.cpp:132-144 | below cap 255 the engines differ: white at cap 100 with the wave at 1.0 breathes at 100 in updateEffect and at 39 in the Effects class |
| EffectsEngine.Effects.constructor | src/effects.cpp:18-22 | STATIC, effectStep and runningPhase 0, both timestamps 0, cap 255, colour (255, 0, 0) |
| EffectsEngine.Effects.SetEffect | src/effects.h:40 | getCurrentEffect returns the value just set, and neither counter is reset |
| EffectsEngine.Effects.SetColor | src/effects.h:41-45 | only the three colour fields change |
| EffectsEngine.Effects.SetBrightness | src/effects.h:46 | only maxBrightness changes |
| EffectsEngine.Effects.Update | src/effects.cpp:78-105 | nothing happens unless 50 ms have passed; then lastUpdate := now and exactly one routine runs (the static one for a value outside the enum), with counters as Tick and the frame as TickFrame with the class palette |
| EffectsEngine.Effects.StaticEffect | src/effects.cpp:107-115 | the time in the capped colour, through showAllDigits |
| EffectsEngine.Effects.RainbowEffect | src/effects.cpp:117-130 | effectStep + 1 mod 256, the time in the sine Rainbow colour |
| EffectsEngine.Effects.BreathingEffect | src/effects.cpp:132-144 | effectStep + 2 mod 256, the time in the breathing colour |
| EffectsEngine.Effects.RunningEffect | src/effects.cpp:146-195 | runningPhase + 2 mod 256, the same phase split as main.cpp, the active slot over the base colour, separator in the base colour when visible, spare black |
| EffectsEngine.Effects.SparkleEffect | src/effects.cpp:197-238 | nothing is written or transmitted unless 200 ms have passed; then all four slots are rolled, the separator is drawn in the full capped colour when visible, the spare black, one Show |

## Left out

- WiFi, the web server plumbing, the HTML page (src/main.cpp:232-501), OTA updates and mDNS are network I/O and user interface. Handlers are modelled from their parsed arguments to their state change and status code.
- NTP and `configTime`, `time()` and `localtime` are left out. The current hour and minute are parameters of `Clock.Clock.UpdateEffect`, with hours <= 23 and minutes <= 59.
- The `/get-time` handler only reads the clock and is not modelled.
- `EEPROM.begin` and `EEPROM.commit` are left out. The record is a 512-byte sequence, and `EEPROM.write` is a sequence update.
- NeoPixelBus transmission is not modelled. `Show()` appends a snapshot of the buffer to `Strip.shown`.
- `sin` is not computed. Its values arrive as the functions of a `Waves` record, constrained only to the ranges their formulas guarantee.
- Floating-point rounding is not modelled. Float products are exact reals, truncated toward zero where the source stores them in `uint8_t`, and 0.3f, 0.8 and `maxBrightness / 255.0f` are exact. A product that rounds across an integer in `float` can therefore differ by 1 from the model.
- Colors.LimitBrightness: computed with exact reals instead of `float`, so rounding is not modelled.
- `random(100)` is an input, `rolls`.
- `Serial` logging, `delay` and `ESP.restart` are left out. After an accepted `/strip-config` the model stops at the EEPROM write.
- The strip reallocation in `setup()` (delete and `new NeoPixelBus`) is not modelled. The strip is created once, with 90 pixels.
- The `/color` and `/white` handlers are left out. They fill all 90 pixels, and the next effect tick overwrites that.
- The globals `lastUpdate` and `lastRunningUpdate` of src/main.cpp are declared but never read, so they are not modelled.
- The `/strip-config` count only passes the range check. The source always allocates 90 pixels, so the count has no other effect.
- Clock.Clock.Setup: loads the effect after the fill, while the source loads it later in `setup()` (src/main.cpp:753-756). The fill does not depend on the effect, so the end state is the same.
- Sparkle colours are computed for all four slots before any slot is painted, while the source computes them as it paints. No painting step reads a colour, so the frame is the same.
- A white colour (`ffffff`) sent to `/update-strip` is shown but loads as red after a reboot. This is what the code does, and `Settings.HandlerWritesLoad` states it.
- Changing the effect resets no counter in `Effects::setEffect`, and `/effect` resets only `effectStep`. The model follows the code here, not a reset of both counters.

## Findings

| source | as written | input that shows it | evidently intended | confidence | as-written member | corrected member |
|---|---|---|---|---|---|---|
| src/main.cpp:735-750 | `count`, `type` and `brightness` are converted to `uint16_t`, `StripType` and `uint8_t` before the range check | count=1, type=0, brightness=257 is accepted and saves brightness 1; count=65537 passes as 1 | reject a request unless 0 < count <= 1000, 0 <= type <= 2 and 0 < brightness <= 255, as received | not executed | Settings.StripConfigTruncates | Settings.StripConfigCheckedCorrect |

`Settings.StripConfigAsWritten` models the check as written, and `Clock.Clock.HandleStripConfig` follows it, so the handler saves what the code saves. `Settings.StripConfigChecked` is the corrected check. `Settings.StripConfigCheckedCorrect` proves it accepts exactly the in-range requests and agrees with the code on them.
