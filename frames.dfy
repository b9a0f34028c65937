// What each rendering routine does to the pixel buffer, as functions from the
// buffer before the call to the buffer after it, and lemmas saying pixel by
// pixel what a composed frame holds.

module Frames {
  import opened Geometry
  import opened Colors

  /** The buffer after n SetPixelColor calls with c, at start, start + 1, ... */
  function Fill(buf: seq<Color>, start: nat, n: nat, c: Color): (r: seq<Color>)
    requires start + n <= |buf|
    ensures |r| == |buf|
  {
    if n == 0 then buf else Fill(buf, start, n - 1, c)[start + n - 1 := c]
  }

  /** A run of SetPixelColor sets exactly pixels start .. start + n - 1 to c. */
  lemma {:induction false} FillAt(buf: seq<Color>, start: nat, n: nat, c: Color, p: nat)
    requires start + n <= |buf| && p < |buf|
    ensures Fill(buf, start, n, c)[p] == if start <= p < start + n then c else buf[p]
  {
    if n > 0 {
      FillAt(buf, start, n - 1, c, p);
    }
  }

  /** The colour segment `seg` of numeral `number` gets: `color` if lit, else black. */
  function SegmentColor(number: nat, seg: nat, color: Color): Color
    requires number < 10 && seg < SegmentsPerDigit
  {
    if Lit(number, seg) then color else Black
  }

  /** setSegmentColor. */
  function PaintSegment(buf: seq<Color>, digit: nat, segment: nat, color: Color): (r: seq<Color>)
    requires |buf| == PixelCount && digit < DigitCount && segment < SegmentsPerDigit
    ensures |r| == PixelCount
  {
    Fill(buf, SegmentStart(digit, segment), LedsPerSegment, color)
  }

  /** showDigit: a no-op for number > 9, else all seven segments of the slot are
      repainted, in the source's call order G, B, A, F, E, D, C. */
  function PaintDigit(buf: seq<Color>, digit: nat, number: nat, color: Color): (r: seq<Color>)
    requires |buf| == PixelCount && digit < DigitCount
    ensures |r| == PixelCount
  {
    if number > 9 then buf
    else
      var b0 := PaintSegment(buf, digit, SegG, SegmentColor(number, 0, color));
      var b1 := PaintSegment(b0, digit, SegB, SegmentColor(number, 1, color));
      var b2 := PaintSegment(b1, digit, SegA, SegmentColor(number, 2, color));
      var b3 := PaintSegment(b2, digit, SegF, SegmentColor(number, 3, color));
      var b4 := PaintSegment(b3, digit, SegE, SegmentColor(number, 4, color));
      var b5 := PaintSegment(b4, digit, SegD, SegmentColor(number, 5, color));
      PaintSegment(b5, digit, SegC, SegmentColor(number, 6, color))
  }

  /** The numeral shown in a slot: hours / 10, hours % 10, minutes / 10, minutes % 10
      (the conditional expression the effect loops pass to showDigit). */
  function DigitOf(slot: nat, hours: nat, minutes: nat): nat
    requires slot < DigitCount
  {
    if slot < 2 then (if slot == 0 then hours / 10 else hours % 10)
    else (if slot == 2 then minutes / 10 else minutes % 10)
  }

  function TimeDigits(hours: nat, minutes: nat): (d: seq<nat>)
    ensures |d| == DigitCount
  {
    [DigitOf(0, hours, minutes), DigitOf(1, hours, minutes), DigitOf(2, hours, minutes), DigitOf(3, hours, minutes)]
  }

  /** For a valid time every slot shows a numeral 0..9 and the slots spell the time. */
  lemma TimeDigitsSpellTime(hours: nat, minutes: nat)
    requires hours <= 23 && minutes <= 59
    ensures forall s :: 0 <= s < DigitCount ==> TimeDigits(hours, minutes)[s] <= 9
    ensures var d := TimeDigits(hours, minutes);
      10 * d[0] + d[1] == hours && 10 * d[2] + d[3] == minutes && d[0] <= 2 && d[2] <= 5
  {
  }

  /** Slots 0 .. k - 1 painted in order, slot i with colors[i] (the per-slot loops of
      the Running and Sparkle effects). */
  function PaintSlots(buf: seq<Color>, colors: seq<Color>, hours: nat, minutes: nat, k: nat): (r: seq<Color>)
    requires |buf| == PixelCount && |colors| == DigitCount && k <= DigitCount
    ensures |r| == PixelCount
  {
    if k == 0 then buf
    else PaintDigit(PaintSlots(buf, colors, hours, minutes, k - 1), k - 1, DigitOf(k - 1, hours, minutes), colors[k - 1])
  }

  /** The colour the separator gets: `color` when visible, else black. */
  function ColonColor(colonVisible: bool, color: Color): Color
  {
    if colonVisible then color else Black
  }

  /** The two separator pixels set to c. */
  function PaintSeparator(buf: seq<Color>, c: Color): (r: seq<Color>)
    requires |buf| == PixelCount
    ensures |r| == PixelCount
  {
    Fill(buf, Display3Start, Display3Leds, c)
  }

  /** The spare pixel set to c. */
  function PaintSpare(buf: seq<Color>, c: Color): (r: seq<Color>)
    requires |buf| == PixelCount
    ensures |r| == PixelCount
  {
    Fill(buf, Display4Start, Display4Leds, c)
  }

  /** The separator loop and the spare write touch exactly their own region. */
  lemma ExtrasAt(buf: seq<Color>, sep: Color, spare: Color, p: nat)
    requires |buf| == PixelCount && p < PixelCount
    ensures PaintSeparator(buf, sep)[p] == if Owner(p) == Separator then sep else buf[p]
    ensures PaintSpare(buf, spare)[p] == if Owner(p) == Spare then spare else buf[p]
  {
    FillAt(buf, Display3Start, Display3Leds, sep, p);
    FillAt(buf, Display4Start, Display4Leds, spare, p);
  }

  /** showTime / showAllDigits: hour digits, separator by colonVisible, black spare,
      minute digits. */
  function ComposeTime(buf: seq<Color>, color: Color, hours: nat, minutes: nat, colonVisible: bool): (r: seq<Color>)
    requires |buf| == PixelCount
    ensures |r| == PixelCount
  {
    var b0 := PaintDigit(buf, 0, hours / 10, color);
    var b1 := PaintDigit(b0, 1, hours % 10, color);
    var b2 := PaintSeparator(b1, ColonColor(colonVisible, color));
    var b3 := PaintSpare(b2, Black);
    var b4 := PaintDigit(b3, 2, minutes / 10, color);
    PaintDigit(b4, 3, minutes % 10, color)
  }

  /** constrain(number, 0, 9999). */
  function Clamp(number: int): (n: nat)
    ensures n <= 9999
    ensures 0 <= number <= 9999 ==> n == number
  {
    if number < 0 then 0 else if number > 9999 then 9999 else number
  }

  /** The four decimal digits showNumber splits the clamped number into. */
  function NumberDigits(number: int): (d: seq<nat>)
    ensures |d| == DigitCount
  {
    var n := Clamp(number);
    [n / 1000, (n / 100) % 10, (n / 10) % 10, n % 10]
  }

  /** The four digits are numerals 0..9 and spell the clamped number. */
  lemma NumberDigitsSpellNumber(number: int)
    ensures forall s :: 0 <= s < DigitCount ==> NumberDigits(number)[s] <= 9
    ensures var d := NumberDigits(number);
      1000 * d[0] + 100 * d[1] + 10 * d[2] + d[3] == Clamp(number)
  {
    var n := Clamp(number);
    var q1, r1 := n / 10, n % 10;
    var q2, r2 := q1 / 10, q1 % 10;
    var q3, r3 := q2 / 10, q2 % 10;
    assert n == 10 * q1 + r1;
    assert q1 == 10 * q2 + r2;
    assert q2 == 10 * q3 + r3;
    assert n == 100 * q2 + (10 * r2 + r1);
    assert n / 100 == q2;
    assert n == 1000 * q3 + (100 * r3 + 10 * r2 + r1);
    assert n / 1000 == q3;
    assert q3 <= 9;
  }

  /** showNumber: the digits of the clamped number, all three extra pixels (42..44)
      lit with `color` by setExtraDisplays. */
  function ComposeNumber(buf: seq<Color>, number: int, color: Color): (r: seq<Color>)
    requires |buf| == PixelCount
    ensures |r| == PixelCount
  {
    var d := NumberDigits(number);
    var b0 := PaintDigit(buf, 0, d[0], color);
    var b1 := PaintDigit(b0, 1, d[1], color);
    var b2 := PaintSpare(PaintSeparator(b1, color), color);
    var b3 := PaintDigit(b2, 2, d[2], color);
    PaintDigit(b3, 3, d[3], color)
  }

  /** All four slots in one colour. */
  function Uniform(c: Color): (cs: seq<Color>)
    ensures |cs| == DigitCount && forall i :: 0 <= i < DigitCount ==> cs[i] == c
  {
    [c, c, c, c]
  }

  /** The Running frame: every slot in baseColor, then the active slot repainted in
      activeColor, separator in baseColor when visible, spare black. */
  function ComposeRunning(buf: seq<Color>, baseColor: Color, activeColor: Color, active: nat,
                          hours: nat, minutes: nat, colonVisible: bool): (r: seq<Color>)
    requires |buf| == PixelCount && active < DigitCount
    ensures |r| == PixelCount
  {
    var b0 := PaintSlots(buf, Uniform(baseColor), hours, minutes, DigitCount);
    var b1 := PaintDigit(b0, active, DigitOf(active, hours, minutes), activeColor);
    PaintSpare(PaintSeparator(b1, ColonColor(colonVisible, baseColor)), Black)
  }

  /** The Sparkle frame: slot i in slotColors[i], separator in sepColor when
      visible, spare black. */
  function ComposeSparkle(buf: seq<Color>, slotColors: seq<Color>, sepColor: Color,
                          hours: nat, minutes: nat, colonVisible: bool): (r: seq<Color>)
    requires |buf| == PixelCount && |slotColors| == DigitCount
    ensures |r| == PixelCount
  {
    var b0 := PaintSlots(buf, slotColors, hours, minutes, DigitCount);
    PaintSpare(PaintSeparator(b0, ColonColor(colonVisible, sepColor)), Black)
  }

  /** The per-slot colours of a Sparkle roll: slot i is dimmed iff rolls[i] < 30. */
  function SparkleColors(rolls: seq<int>, dim: Color, full: Color): (cs: seq<Color>)
    requires |rolls| == DigitCount
    ensures |cs| == DigitCount
    ensures forall i :: 0 <= i < DigitCount ==> cs[i] == (if rolls[i] < 30 then dim else full)
  {
    seq(DigitCount, i requires 0 <= i < DigitCount => if rolls[i] < 30 then dim else full)
  }

  /** Reference description of a composed frame, pixel by pixel: a segment pixel of
      slot s shows its font colour for digits[s] in colors[s] (and keeps its old value
      if digits[s] > 9), the separator shows sep, the spare shows spare, and pixels
      87..89 keep their old value. */
  function FramePixel(p: nat, digits: seq<nat>, colors: seq<Color>, sep: Color, spare: Color, prev: Color): Color
    requires |digits| == DigitCount && |colors| == DigitCount
  {
    match Owner(p)
    case Segment(s, k) => if digits[s] <= 9 then SegmentColor(digits[s], k, colors[s]) else prev
    case Separator => sep
    case Spare => spare
    case Unused => prev
  }

  /** showDigit writes exactly the 21 pixels of its slot, each with its segment's
      font colour, and only when number <= 9. */
  lemma PaintDigitAt(buf: seq<Color>, digit: nat, number: nat, color: Color, p: nat)
    requires |buf| == PixelCount && digit < DigitCount && p < PixelCount
    ensures PaintDigit(buf, digit, number, color)[p] ==
      if number <= 9 && Owner(p).Segment? && Owner(p).slot == digit
      then SegmentColor(number, Owner(p).seg, color) else buf[p]
  {
    if number <= 9 {
      var b0 := PaintSegment(buf, digit, SegG, SegmentColor(number, 0, color));
      var b1 := PaintSegment(b0, digit, SegB, SegmentColor(number, 1, color));
      var b2 := PaintSegment(b1, digit, SegA, SegmentColor(number, 2, color));
      var b3 := PaintSegment(b2, digit, SegF, SegmentColor(number, 3, color));
      var b4 := PaintSegment(b3, digit, SegE, SegmentColor(number, 4, color));
      var b5 := PaintSegment(b4, digit, SegD, SegmentColor(number, 5, color));
      PaintSegmentAt(buf, digit, SegG, SegmentColor(number, 0, color), p);
      PaintSegmentAt(b0, digit, SegB, SegmentColor(number, 1, color), p);
      PaintSegmentAt(b1, digit, SegA, SegmentColor(number, 2, color), p);
      PaintSegmentAt(b2, digit, SegF, SegmentColor(number, 3, color), p);
      PaintSegmentAt(b3, digit, SegE, SegmentColor(number, 4, color), p);
      PaintSegmentAt(b4, digit, SegD, SegmentColor(number, 5, color), p);
      PaintSegmentAt(b5, digit, SegC, SegmentColor(number, 6, color), p);
    }
  }

  /** setSegmentColor writes exactly the three pixels of its segment. */
  lemma PaintSegmentAt(buf: seq<Color>, digit: nat, segment: nat, color: Color, p: nat)
    requires |buf| == PixelCount && digit < DigitCount && segment < SegmentsPerDigit && p < PixelCount
    ensures PaintSegment(buf, digit, segment, color)[p] ==
      if Owner(p) == Segment(digit, segment) then color else buf[p]
  {
    FillAt(buf, SegmentStart(digit, segment), LedsPerSegment, color, p);
    OwnerOfRun(digit, segment, p);
  }

  /** The slot loop paints slots 0 .. k - 1 and nothing else. */
  lemma {:induction false} PaintSlotsAt(buf: seq<Color>, colors: seq<Color>, hours: nat, minutes: nat, k: nat, p: nat)
    requires |buf| == PixelCount && |colors| == DigitCount && k <= DigitCount && p < PixelCount
    ensures PaintSlots(buf, colors, hours, minutes, k)[p] ==
      if Owner(p).Segment? && Owner(p).slot < k && DigitOf(Owner(p).slot, hours, minutes) <= 9
      then SegmentColor(DigitOf(Owner(p).slot, hours, minutes), Owner(p).seg, colors[Owner(p).slot])
      else buf[p]
  {
    if k > 0 {
      PaintSlotsAt(buf, colors, hours, minutes, k - 1, p);
      PaintDigitAt(PaintSlots(buf, colors, hours, minutes, k - 1), k - 1, DigitOf(k - 1, hours, minutes), colors[k - 1], p);
    }
  }

  /** The time frame, pixel by pixel. */
  lemma TimeFrameAt(buf: seq<Color>, color: Color, hours: nat, minutes: nat, colonVisible: bool, p: nat)
    requires |buf| == PixelCount && p < PixelCount
    ensures ComposeTime(buf, color, hours, minutes, colonVisible)[p] ==
      FramePixel(p, TimeDigits(hours, minutes), Uniform(color), ColonColor(colonVisible, color), Black, buf[p])
  {
    var b0 := PaintDigit(buf, 0, hours / 10, color);
    var b1 := PaintDigit(b0, 1, hours % 10, color);
    var b2 := PaintSeparator(b1, ColonColor(colonVisible, color));
    var b3 := PaintSpare(b2, Black);
    var b4 := PaintDigit(b3, 2, minutes / 10, color);
    PaintDigitAt(buf, 0, hours / 10, color, p);
    PaintDigitAt(b0, 1, hours % 10, color, p);
    ExtrasAt(b1, ColonColor(colonVisible, color), Black, p);
    ExtrasAt(b2, Black, Black, p);
    PaintDigitAt(b3, 2, minutes / 10, color, p);
    PaintDigitAt(b4, 3, minutes % 10, color, p);
  }

  /** Every time frame repaints all addressed pixels (0..86) from the inputs alone,
      leaves 87..89 alone, and composing twice gives the same frame. */
  lemma TimeFrameRepaints(buf1: seq<Color>, buf2: seq<Color>, color: Color, hours: nat, minutes: nat, colonVisible: bool)
    requires |buf1| == PixelCount && |buf2| == PixelCount
    requires hours <= 23 && minutes <= 59
    ensures ComposeTime(buf1, color, hours, minutes, colonVisible)[..AddressedPixels] ==
            ComposeTime(buf2, color, hours, minutes, colonVisible)[..AddressedPixels]
    ensures ComposeTime(buf1, color, hours, minutes, colonVisible)[AddressedPixels..] == buf1[AddressedPixels..]
    ensures ComposeTime(ComposeTime(buf1, color, hours, minutes, colonVisible), color, hours, minutes, colonVisible) ==
            ComposeTime(buf1, color, hours, minutes, colonVisible)
  {
    var f1 := ComposeTime(buf1, color, hours, minutes, colonVisible);
    var f2 := ComposeTime(buf2, color, hours, minutes, colonVisible);
    var ff := ComposeTime(f1, color, hours, minutes, colonVisible);
    forall p | 0 <= p < AddressedPixels
      ensures f1[p] == f2[p]
    {
      TimePixelRepaints(buf1, buf2, color, hours, minutes, colonVisible, p);
    }
    forall p | AddressedPixels <= p < PixelCount
      ensures f1[p] == buf1[p]
    {
      TimePixelRepaints(buf1, buf2, color, hours, minutes, colonVisible, p);
    }
    forall p | 0 <= p < PixelCount
      ensures ff[p] == f1[p]
    {
      TimePixelRepaints(f1, buf1, color, hours, minutes, colonVisible, p);
    }
    assert f1[..AddressedPixels] == f2[..AddressedPixels];
    assert f1[AddressedPixels..] == buf1[AddressedPixels..];
  }

  /** TimeFrameRepaints for one pixel. */
  lemma TimePixelRepaints(buf1: seq<Color>, buf2: seq<Color>, color: Color, hours: nat, minutes: nat,
                          colonVisible: bool, p: nat)
    requires |buf1| == PixelCount && |buf2| == PixelCount
    requires hours <= 23 && minutes <= 59 && p < PixelCount
    ensures p < AddressedPixels ==>
      ComposeTime(buf1, color, hours, minutes, colonVisible)[p] == ComposeTime(buf2, color, hours, minutes, colonVisible)[p]
    ensures AddressedPixels <= p ==> ComposeTime(buf1, color, hours, minutes, colonVisible)[p] == buf1[p]
  {
    TimeDigitsSpellTime(hours, minutes);
    TimeFrameAt(buf1, color, hours, minutes, colonVisible, p);
    TimeFrameAt(buf2, color, hours, minutes, colonVisible, p);
  }

  /** The number frame, pixel by pixel: all three extra pixels carry the colour. */
  lemma NumberFrameAt(buf: seq<Color>, number: int, color: Color, p: nat)
    requires |buf| == PixelCount && p < PixelCount
    ensures ComposeNumber(buf, number, color)[p] ==
      FramePixel(p, NumberDigits(number), Uniform(color), color, color, buf[p])
  {
    var d := NumberDigits(number);
    var b0 := PaintDigit(buf, 0, d[0], color);
    var b1 := PaintDigit(b0, 1, d[1], color);
    var b2 := PaintSpare(PaintSeparator(b1, color), color);
    var b3 := PaintDigit(b2, 2, d[2], color);
    PaintDigitAt(buf, 0, d[0], color, p);
    PaintDigitAt(b0, 1, d[1], color, p);
    ExtrasAt(b1, color, color, p);
    ExtrasAt(PaintSeparator(b1, color), color, color, p);
    PaintDigitAt(b2, 2, d[2], color, p);
    PaintDigitAt(b3, 3, d[3], color, p);
  }

  /** The slot colours of a Running frame: activeColor on the active slot only. */
  function RunningColors(baseColor: Color, activeColor: Color, active: nat): (cs: seq<Color>)
    ensures |cs| == DigitCount
  {
    seq(DigitCount, i => if i == active then activeColor else baseColor)
  }

  /** The Running frame, pixel by pixel: only the active slot carries activeColor,
      the other three carry baseColor, the separator baseColor when visible. */
  lemma RunningFrameAt(buf: seq<Color>, baseColor: Color, activeColor: Color, active: nat,
                       hours: nat, minutes: nat, colonVisible: bool, p: nat)
    requires |buf| == PixelCount && active < DigitCount && p < PixelCount
    ensures ComposeRunning(buf, baseColor, activeColor, active, hours, minutes, colonVisible)[p] ==
      FramePixel(p, TimeDigits(hours, minutes), RunningColors(baseColor, activeColor, active),
                 ColonColor(colonVisible, baseColor), Black, buf[p])
  {
    var b0 := PaintSlots(buf, Uniform(baseColor), hours, minutes, DigitCount);
    var b1 := PaintDigit(b0, active, DigitOf(active, hours, minutes), activeColor);
    PaintSlotsAt(buf, Uniform(baseColor), hours, minutes, DigitCount, p);
    PaintDigitAt(b0, active, DigitOf(active, hours, minutes), activeColor, p);
    ExtrasAt(b1, ColonColor(colonVisible, baseColor), Black, p);
    ExtrasAt(PaintSeparator(b1, ColonColor(colonVisible, baseColor)), Black, Black, p);
  }

  /** The Sparkle frame, pixel by pixel. */
  lemma SparkleFrameAt(buf: seq<Color>, slotColors: seq<Color>, sepColor: Color,
                       hours: nat, minutes: nat, colonVisible: bool, p: nat)
    requires |buf| == PixelCount && |slotColors| == DigitCount && p < PixelCount
    ensures ComposeSparkle(buf, slotColors, sepColor, hours, minutes, colonVisible)[p] ==
      FramePixel(p, TimeDigits(hours, minutes), slotColors, ColonColor(colonVisible, sepColor), Black, buf[p])
  {
    var b0 := PaintSlots(buf, slotColors, hours, minutes, DigitCount);
    PaintSlotsAt(buf, slotColors, hours, minutes, DigitCount, p);
    ExtrasAt(b0, ColonColor(colonVisible, sepColor), Black, p);
    ExtrasAt(PaintSeparator(b0, ColonColor(colonVisible, sepColor)), Black, Black, p);
  }

  /** Worked example: 09:05 with the separator visible, configured red at full
      brightness. The slots show 0, 9, 0, 5 and every lit pixel holds the configured
      red in the constructor's second channel. */
  lemma StaticExample(buf: seq<Color>, p: nat)
    requires |buf| == PixelCount && p < AddressedPixels
    ensures CappedColor(255, 0, 0, 255) == Color(0, 255, 0, 0)
    ensures TimeDigits(9, 5) == [0, 9, 0, 5]
    ensures ComposeTime(buf, CappedColor(255, 0, 0, 255), 9, 5, true)[p] ==
      match Owner(p)
      case Segment(s, k) => SegmentColor([0, 9, 0, 5][s], k, Color(0, 255, 0, 0))
      case Separator => Color(0, 255, 0, 0)
      case _ => Black
  {
    TimeFrameAt(buf, CappedColor(255, 0, 0, 255), 9, 5, true, p);
  }
}
