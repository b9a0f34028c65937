// The pixel strip and the rendering routines both engines drive: setSegmentColor,
// showDigit and the frame composer showAllDigits, written once and proved against
// the buffer functions of module Frames.

module Render {
  import opened Geometry
  import opened Colors
  import opened Frames

  /** The NeoPixelBus strip: a buffer of pixels and the frames sent by Show(). */
  class Strip {
    const pixels: array<Color>
    /** Every buffer snapshot transmitted so far, oldest first. */
    var shown: seq<seq<Color>>

    /** A strip of `count` pixels, all black, nothing transmitted yet. */
    constructor (count: nat)
      ensures pixels.Length == count && fresh(pixels)
      ensures forall i :: 0 <= i < count ==> pixels[i] == Black
      ensures shown == []
    {
      pixels := new Color[count](_ => Black);
      shown := [];
    }

    /** SetPixelColor. */
    method SetPixelColor(i: nat, c: Color)
      requires i < pixels.Length
      modifies pixels
      ensures pixels[..] == old(pixels[..])[i := c]
    {
      pixels[i] := c;
    }

    /** Show(): transmits the current buffer. */
    method Show()
      modifies this
      ensures shown == old(shown) + [pixels[..]]
    {
      shown := shown + [pixels[..]];
    }
  }

  /** The strip just transmitted `frame`, and the buffer holds it. */
  twostate predicate ShowedFrame(strip: Strip, frame: seq<Color>)
    reads strip, strip.pixels
  {
    strip.pixels[..] == frame && strip.shown == old(strip.shown) + [frame]
  }

  /** Nothing was written to the buffer and nothing was transmitted. */
  twostate predicate Untouched(strip: Strip)
    reads strip, strip.pixels
  {
    strip.pixels[..] == old(strip.pixels[..]) && strip.shown == old(strip.shown)
  }

  /** setSegmentColor: the three pixels of the run get `color`. */
  method SetSegmentColor(strip: Strip, digit: nat, segment: nat, color: Color)
    requires strip.pixels.Length == PixelCount && digit < DigitCount && segment < SegmentsPerDigit
    modifies strip.pixels
    ensures strip.pixels[..] == PaintSegment(old(strip.pixels[..]), digit, segment, color)
  {
    var start := SegmentStart(digit, segment);
    for i := 0 to LedsPerSegment
      invariant strip.pixels[..] == Fill(old(strip.pixels[..]), start, i, color)
    {
      strip.SetPixelColor(start + i, color);
    }
  }

  /** showDigit. */
  method ShowDigit(strip: Strip, digit: nat, number: nat, color: Color)
    requires strip.pixels.Length == PixelCount && digit < DigitCount
    modifies strip.pixels
    ensures strip.pixels[..] == PaintDigit(old(strip.pixels[..]), digit, number, color)
  {
    if number > 9 {
      return;
    }
    SetSegmentColor(strip, digit, SegG, SegmentColor(number, 0, color));
    SetSegmentColor(strip, digit, SegB, SegmentColor(number, 1, color));
    SetSegmentColor(strip, digit, SegA, SegmentColor(number, 2, color));
    SetSegmentColor(strip, digit, SegF, SegmentColor(number, 3, color));
    SetSegmentColor(strip, digit, SegE, SegmentColor(number, 4, color));
    SetSegmentColor(strip, digit, SegD, SegmentColor(number, 5, color));
    SetSegmentColor(strip, digit, SegC, SegmentColor(number, 6, color));
  }

  /** The loop over the two separator pixels. */
  method SetSeparator(strip: Strip, color: Color)
    requires strip.pixels.Length == PixelCount
    modifies strip.pixels
    ensures strip.pixels[..] == PaintSeparator(old(strip.pixels[..]), color)
  {
    for i := 0 to Display3Leds
      invariant strip.pixels[..] == Fill(old(strip.pixels[..]), Display3Start, i, color)
    {
      strip.SetPixelColor(Display3Start + i, color);
    }
  }

  /** The spare pixel. */
  method SetSpare(strip: Strip, color: Color)
    requires strip.pixels.Length == PixelCount
    modifies strip.pixels
    ensures strip.pixels[..] == PaintSpare(old(strip.pixels[..]), color)
  {
    assert Fill(old(strip.pixels[..]), Display4Start, 0, color) == old(strip.pixels[..]);
    strip.SetPixelColor(Display4Start, color);
  }

  /** showAllDigits (effects.cpp) and showTime / showAllDigits (main.cpp): the
      composed time frame, transmitted once. */
  method ShowAllDigits(strip: Strip, color: Color, hours: nat, minutes: nat, colonVisible: bool)
    requires strip.pixels.Length == PixelCount
    modifies strip, strip.pixels
    ensures ShowedFrame(strip, ComposeTime(old(strip.pixels[..]), color, hours, minutes, colonVisible))
  {
    ShowDigit(strip, 0, hours / 10, color);
    ShowDigit(strip, 1, hours % 10, color);
    if colonVisible {
      SetSeparator(strip, color);
    } else {
      SetSeparator(strip, Black);
    }
    SetSpare(strip, Black);
    ShowDigit(strip, 2, minutes / 10, color);
    ShowDigit(strip, 3, minutes % 10, color);
    strip.Show();
  }

  /** The per-slot loops of Running and Sparkle: slot i shows its digit of the time
      in colors[i]. */
  method ShowSlots(strip: Strip, colors: seq<Color>, hours: nat, minutes: nat)
    requires strip.pixels.Length == PixelCount && |colors| == DigitCount
    modifies strip.pixels
    ensures strip.pixels[..] == PaintSlots(old(strip.pixels[..]), colors, hours, minutes, DigitCount)
  {
    for i := 0 to DigitCount
      invariant strip.pixels[..] == PaintSlots(old(strip.pixels[..]), colors, hours, minutes, i)
    {
      ShowDigit(strip, i, if i < 2 then (if i == 0 then hours / 10 else hours % 10)
                          else (if i == 2 then minutes / 10 else minutes % 10), colors[i]);
    }
  }

  /** The drawing part of Running (both engines): all slots in baseColor, the active
      slot repainted in activeColor, separator in baseColor or black, spare black,
      one Show. */
  method ShowRunning(strip: Strip, baseColor: Color, activeColor: Color, active: nat,
                     hours: nat, minutes: nat, colonVisible: bool)
    requires strip.pixels.Length == PixelCount && active < DigitCount
    modifies strip, strip.pixels
    ensures ShowedFrame(strip, ComposeRunning(old(strip.pixels[..]), baseColor, activeColor, active,
                                              hours, minutes, colonVisible))
  {
    ShowSlots(strip, Uniform(baseColor), hours, minutes);
    ShowDigit(strip, active, if active < 2 then (if active == 0 then hours / 10 else hours % 10)
                             else (if active == 2 then minutes / 10 else minutes % 10), activeColor);
    if colonVisible {
      SetSeparator(strip, baseColor);
    } else {
      SetSeparator(strip, Black);
    }
    SetSpare(strip, Black);
    strip.Show();
  }

  /** The drawing part of a Sparkle re-roll (both engines): slot i in slotColors[i],
      separator in sepColor or black, spare black, one Show. */
  method ShowSparkle(strip: Strip, slotColors: seq<Color>, sepColor: Color,
                     hours: nat, minutes: nat, colonVisible: bool)
    requires strip.pixels.Length == PixelCount && |slotColors| == DigitCount
    modifies strip, strip.pixels
    ensures ShowedFrame(strip, ComposeSparkle(old(strip.pixels[..]), slotColors, sepColor,
                                              hours, minutes, colonVisible))
  {
    ShowSlots(strip, slotColors, hours, minutes);
    if colonVisible {
      SetSeparator(strip, sepColor);
    } else {
      SetSeparator(strip, Black);
    }
    SetSpare(strip, Black);
    strip.Show();
  }

  /** setExtraDisplays: the two separator pixels and the spare get `color`. */
  method SetExtraDisplays(strip: Strip, color: Color)
    requires strip.pixels.Length == PixelCount
    modifies strip.pixels
    ensures strip.pixels[..] == PaintSpare(PaintSeparator(old(strip.pixels[..]), color), color)
  {
    SetSeparator(strip, color);
    SetSpare(strip, color);
  }

  /** showNumber. */
  method ShowNumber(strip: Strip, number: int, color: Color)
    requires strip.pixels.Length == PixelCount
    modifies strip, strip.pixels
    ensures ShowedFrame(strip, ComposeNumber(old(strip.pixels[..]), number, color))
  {
    var n := if number < 0 then 0 else if number > 9999 then 9999 else number;
    var digits := [n / 1000, (n / 100) % 10, (n / 10) % 10, n % 10];
    ShowDigit(strip, 0, digits[0], color);
    ShowDigit(strip, 1, digits[1], color);
    SetExtraDisplays(strip, color);
    ShowDigit(strip, 2, digits[2], color);
    ShowDigit(strip, 3, digits[3], color);
    strip.Show();
  }

  /** The fill of all 90 pixels in setup(), followed by Show. */
  method ShowFill(strip: Strip, color: Color)
    requires strip.pixels.Length == PixelCount
    modifies strip, strip.pixels
    ensures ShowedFrame(strip, Fill(old(strip.pixels[..]), 0, PixelCount, color))
    ensures forall p :: 0 <= p < PixelCount ==> strip.pixels[p] == color
  {
    for i := 0 to PixelCount
      invariant strip.pixels[..] == Fill(old(strip.pixels[..]), 0, i, color)
      invariant strip.shown == old(strip.shown)
    {
      strip.SetPixelColor(i, color);
    }
    forall p | 0 <= p < PixelCount
      ensures strip.pixels[p] == color
    {
      FillAt(old(strip.pixels[..]), 0, PixelCount, color, p);
    }
    strip.Show();
  }
}
