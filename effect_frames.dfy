// The frame one dispatched effect routine shows, shared by both engines: which
// colour each slot and the separator get, given the colours of the tick.

module EffectFrames {
  import opened Geometry
  import opened Colors
  import opened Frames
  import opened Animation

  /** The colours available to one tick. The two engines fill it differently
      (integer wheel or sine Rainbow, capped or limitBrightness Sparkle). */
  datatype Palette = Palette(
    staticColor: Color,       // Static, and the default branch
    rainbow: Color,           // Rainbow at the advanced effectStep
    breathing: Color,         // Breathing at the advanced effectStep
    runningBase: Color,       // Running, the three other slots and the separator
    runningActive: Color,     // Running, the active slot
    sparkleDim: Color,        // Sparkle, a slot whose roll is below 30
    sparkleFull: Color,       // Sparkle, the other slots
    sparkleSeparator: Color)  // Sparkle, the separator when visible

  /** Every routine transmits a frame except a Sparkle tick whose gate is shut. */
  predicate TickShows(e: Effect, fired: bool)
  {
    e != Sparkle || fired
  }

  /** The frame the routine for `e` transmits, from the buffer it starts with;
      `phase` is runningPhase after the tick. */
  function TickFrame(buf: seq<Color>, e: Effect, phase: byte, pal: Palette, rolls: seq<int>,
                     hours: nat, minutes: nat, colonVisible: bool): (r: seq<Color>)
    requires |buf| == PixelCount && |rolls| == DigitCount
    ensures |r| == PixelCount
  {
    match e
    case Static => ComposeTime(buf, pal.staticColor, hours, minutes, colonVisible)
    case Rainbow => ComposeTime(buf, pal.rainbow, hours, minutes, colonVisible)
    case Breathing => ComposeTime(buf, pal.breathing, hours, minutes, colonVisible)
    case Running =>
      ComposeRunning(buf, pal.runningBase, pal.runningActive, ActiveDisplay(phase), hours, minutes, colonVisible)
    case Sparkle =>
      ComposeSparkle(buf, SparkleColors(rolls, pal.sparkleDim, pal.sparkleFull), pal.sparkleSeparator,
                     hours, minutes, colonVisible)
  }

  /** The colour each slot gets in the frame of `e`. */
  function SlotColors(e: Effect, phase: byte, pal: Palette, rolls: seq<int>): (cs: seq<Color>)
    requires |rolls| == DigitCount
    ensures |cs| == DigitCount
  {
    match e
    case Static => Uniform(pal.staticColor)
    case Rainbow => Uniform(pal.rainbow)
    case Breathing => Uniform(pal.breathing)
    case Running => RunningColors(pal.runningBase, pal.runningActive, ActiveDisplay(phase))
    case Sparkle => SparkleColors(rolls, pal.sparkleDim, pal.sparkleFull)
  }

  /** The colour the separator gets in the frame of `e` when it is visible. */
  function SeparatorColor(e: Effect, pal: Palette): Color
  {
    match e
    case Static => pal.staticColor
    case Rainbow => pal.rainbow
    case Breathing => pal.breathing
    case Running => pal.runningBase
    case Sparkle => pal.sparkleSeparator
  }

  /** Every effect frame, pixel by pixel: the segment pixels of slot s in the font
      colour of its digit and SlotColors(..)[s], the separator in SeparatorColor when
      visible (else black), the spare black, pixels 87..89 as they were. */
  lemma TickFrameAt(buf: seq<Color>, e: Effect, phase: byte, pal: Palette, rolls: seq<int>,
                    hours: nat, minutes: nat, colonVisible: bool, p: nat)
    requires |buf| == PixelCount && |rolls| == DigitCount && p < PixelCount
    ensures TickFrame(buf, e, phase, pal, rolls, hours, minutes, colonVisible)[p] ==
      FramePixel(p, TimeDigits(hours, minutes), SlotColors(e, phase, pal, rolls),
                 ColonColor(colonVisible, SeparatorColor(e, pal)), Black, buf[p])
  {
    match e
    case Static => TimeFrameAt(buf, pal.staticColor, hours, minutes, colonVisible, p);
    case Rainbow => TimeFrameAt(buf, pal.rainbow, hours, minutes, colonVisible, p);
    case Breathing => TimeFrameAt(buf, pal.breathing, hours, minutes, colonVisible, p);
    case Running =>
      RunningFrameAt(buf, pal.runningBase, pal.runningActive, ActiveDisplay(phase), hours, minutes, colonVisible, p);
    case Sparkle =>
      SparkleFrameAt(buf, SparkleColors(rolls, pal.sparkleDim, pal.sparkleFull), pal.sparkleSeparator,
                     hours, minutes, colonVisible, p);
  }

  /** For a valid time every effect frame repaints all addressed pixels 0..86 from
      the tick's inputs alone, and never touches 87..89. */
  lemma TickFrameRepaints(buf1: seq<Color>, buf2: seq<Color>, e: Effect, phase: byte, pal: Palette,
                          rolls: seq<int>, hours: nat, minutes: nat, colonVisible: bool)
    requires |buf1| == PixelCount && |buf2| == PixelCount && |rolls| == DigitCount
    requires hours <= 23 && minutes <= 59
    ensures TickFrame(buf1, e, phase, pal, rolls, hours, minutes, colonVisible)[..AddressedPixels] ==
            TickFrame(buf2, e, phase, pal, rolls, hours, minutes, colonVisible)[..AddressedPixels]
    ensures TickFrame(buf1, e, phase, pal, rolls, hours, minutes, colonVisible)[AddressedPixels..] ==
            buf1[AddressedPixels..]
  {
    var f1 := TickFrame(buf1, e, phase, pal, rolls, hours, minutes, colonVisible);
    var f2 := TickFrame(buf2, e, phase, pal, rolls, hours, minutes, colonVisible);
    forall p | 0 <= p < AddressedPixels
      ensures f1[p] == f2[p]
    {
      TickPixelRepaints(buf1, buf2, e, phase, pal, rolls, hours, minutes, colonVisible, p);
    }
    forall p | AddressedPixels <= p < PixelCount
      ensures f1[p] == buf1[p]
    {
      TickPixelRepaints(buf1, buf2, e, phase, pal, rolls, hours, minutes, colonVisible, p);
    }
    assert f1[..AddressedPixels] == f2[..AddressedPixels];
    assert f1[AddressedPixels..] == buf1[AddressedPixels..];
  }

  /** TickFrameRepaints for one pixel. */
  lemma TickPixelRepaints(buf1: seq<Color>, buf2: seq<Color>, e: Effect, phase: byte, pal: Palette,
                          rolls: seq<int>, hours: nat, minutes: nat, colonVisible: bool, p: nat)
    requires |buf1| == PixelCount && |buf2| == PixelCount && |rolls| == DigitCount
    requires hours <= 23 && minutes <= 59 && p < PixelCount
    ensures p < AddressedPixels ==>
      TickFrame(buf1, e, phase, pal, rolls, hours, minutes, colonVisible)[p] ==
      TickFrame(buf2, e, phase, pal, rolls, hours, minutes, colonVisible)[p]
    ensures AddressedPixels <= p ==>
      TickFrame(buf1, e, phase, pal, rolls, hours, minutes, colonVisible)[p] == buf1[p]
  {
    TimeDigitsSpellTime(hours, minutes);
    TickFrameAt(buf1, e, phase, pal, rolls, hours, minutes, colonVisible, p);
    TickFrameAt(buf2, e, phase, pal, rolls, hours, minutes, colonVisible, p);
    FramePixelOfNumerals(p, TimeDigits(hours, minutes), SlotColors(e, phase, pal, rolls),
                         ColonColor(colonVisible, SeparatorColor(e, pal)), buf1[p], buf2[p]);
  }

  /** When every slot shows a numeral, a frame pixel below 87 does not depend on the
      old pixel, and one at or above 87 is the old pixel. */
  lemma FramePixelOfNumerals(p: nat, digits: seq<nat>, colors: seq<Color>, sep: Color, prev1: Color, prev2: Color)
    requires |digits| == DigitCount && |colors| == DigitCount
    requires forall s :: 0 <= s < DigitCount ==> digits[s] <= 9
    ensures p < AddressedPixels ==>
      FramePixel(p, digits, colors, sep, Black, prev1) == FramePixel(p, digits, colors, sep, Black, prev2)
    ensures AddressedPixels <= p ==> FramePixel(p, digits, colors, sep, Black, prev1) == prev1
  {
  }

  /** In a Running frame exactly one slot, the active one, carries activeColor when
      it differs from baseColor; Sparkle dims exactly the slots whose roll is below 30. */
  lemma SlotColorsOfRunningAndSparkle(phase: byte, pal: Palette, rolls: seq<int>, s: nat)
    requires |rolls| == DigitCount && s < DigitCount
    ensures pal.runningActive != pal.runningBase ==>
      (SlotColors(Running, phase, pal, rolls)[s] == pal.runningActive <==> s == ActiveDisplay(phase))
    ensures pal.sparkleDim != pal.sparkleFull ==>
      (SlotColors(Sparkle, phase, pal, rolls)[s] == pal.sparkleDim <==> rolls[s] < 30)
  {
  }
}
