// RGBW colours and the integer colour arithmetic shared by both effect engines.

module Colors {

  type byte = x: int | 0 <= x < 256

  /** An RgbwColor, channels in the order of its constructor (R, G, B, W). */
  datatype Color = Color(r: byte, g: byte, b: byte, w: byte)

  /** RgbwColor(0). */
  const Black := Color(0, 0, 0, 0)

  /** Integer brightness capping `c * cap / 255` of one channel. */
  function Scale(c: byte, cap: byte): (v: byte)
    ensures v <= cap && v <= c
    ensures cap == 255 ==> v == c
    ensures c == 255 ==> v == cap
    ensures c == 0 || cap == 0 ==> v == 0
  {
    ScaleBounds(c, cap);
    c * cap / 255
  }

  lemma ScaleBounds(c: byte, cap: byte)
    ensures 0 <= c * cap / 255 <= cap && c * cap / 255 <= c
  {
    MulBelow(c, 255, cap);
    MulBelow(cap, 255, c);
    DivBelow(c * cap, cap);
    DivBelow(c * cap, c);
  }

  /** a <= b gives a * k <= b * k for k >= 0. */
  lemma {:induction false} MulBelow(a: nat, b: nat, k: nat)
    requires a <= b
    ensures a * k <= b * k && 0 <= a * k
  {
    if k > 0 {
      MulBelow(a, b, k - 1);
      assert a * k == a * (k - 1) + a;
      assert b * k == b * (k - 1) + b;
    }
  }

  lemma DivBelow(x: int, y: int)
    requires 0 <= x <= 255 * y
    ensures 0 <= x / 255 <= y
  {
  }

  /** The configured colour capped by the brightness limit. The source builds it as
      RgbwColor(green * cap / 255, red * cap / 255, blue * cap / 255, 0): the configured
      green goes into the constructor's first channel and red into the second. */
  function CappedColor(red: byte, green: byte, blue: byte, cap: byte): (c: Color)
    ensures c.r <= cap && c.g <= cap && c.b <= cap && c.w == 0
    ensures cap == 255 ==> c == Color(green, red, blue, 0)
    ensures cap == 0 ==> c == Black
  {
    Color(Scale(green, cap), Scale(red, cap), Scale(blue, cap), 0)
  }

  /** The three-band integer colour wheel of the Rainbow effect in src/main.cpp,
      before capping: the channels handed to RgbwColor for phase `step`. */
  function WheelBand(step: byte): (band: (int, int, int))
    ensures 0 <= band.0 <= 255 && 0 <= band.1 <= 255 && 0 <= band.2 <= 255
    ensures band.0 + band.1 + band.2 == 255
    ensures band.0 == 0 || band.1 == 0 || band.2 == 0
  {
    if step < 85 then
      (255 - step * 3, step * 3, 0)
    else if step < 170 then
      var s := step - 85;
      (0, 255 - s * 3, s * 3)
    else
      var s := step - 170;
      (s * 3, 0, 255 - s * 3)
  }

  /** Rainbow colour of src/main.cpp for phase `step` under brightness cap `cap`. */
  function RainbowColor(step: byte, cap: byte): (c: Color)
    ensures c.r <= cap && c.g <= cap && c.b <= cap && c.w == 0
  {
    var band := WheelBand(step);
    Color(Scale(band.0, cap), Scale(band.1, cap), Scale(band.2, cap), 0)
  }

  /** The wheel is continuous: from one phase to the next (including 255 -> 0)
      no channel moves by more than 3 before capping. */
  lemma WheelContinuous(step: byte)
    ensures var now, next := WheelBand(step), WheelBand((step + 1) % 256);
      -3 <= next.0 - now.0 <= 3 && -3 <= next.1 - now.1 <= 3 && -3 <= next.2 - now.2 <= 3
  {
    if step == 255 {
      assert WheelBand(0) == (255, 0, 0);
    } else {
      assert (step + 1) % 256 == step + 1;
    }
  }

  /** The wheel starts at pure first channel, passes pure second channel at 85 and
      pure third channel at 170. */
  lemma WheelCorners()
    ensures WheelBand(0) == (255, 0, 0) && WheelBand(85) == (0, 255, 0)
    ensures WheelBand(170) == (0, 0, 255) && WheelBand(255) == (255, 0, 0)
  {
  }

  /** limitBrightness: a brightness factor clipped to the cap expressed as a
      fraction of 255 (exact arithmetic stands in for the source's float). */
  function LimitBrightness(brightness: real, cap: byte): (f: real)
    ensures f <= brightness && f <= cap as real / 255.0
    ensures f == brightness || f == cap as real / 255.0
    ensures 0.0 <= brightness ==> 0.0 <= f <= 1.0
  {
    var maxValue := cap as real / 255.0;
    if brightness < maxValue then brightness else maxValue
  }

  /** Running's baseBrightness, 0.3f. */
  const BaseBrightness: real := 0.3
  /** Sparkle's dimmed factor, 0.8. */
  const DimBrightness: real := 0.8

  /** A float value `value` in [0, 255] times the cap, divided by 255 and stored in
      a uint8_t (conversion truncates toward zero). */
  function WaveChannel(value: real, cap: byte): (v: byte)
    requires 0.0 <= value <= 255.0
    ensures v <= cap
  {
    var x := value * cap as real / 255.0;
    assert x <= cap as real by {
      assert value * cap as real <= 255.0 * cap as real;
    }
    x.Floor
  }

  /** (channel * cap * factor) / 255 for a float factor in [0, 1], stored in a uint8_t. */
  function ShadeChannel(c: byte, cap: byte, factor: real): (v: byte)
    requires 0.0 <= factor <= 1.0
  {
    var n := c * cap;
    MulBelow(c, 255, cap);
    MulBelow(cap, 255, 255);
    assert 0.0 <= n as real * factor <= n as real <= 65025.0;
    (n as real * factor / 255.0).Floor
  }

  /** A factor in [0, 1] never brightens a channel beyond the integer capped value,
      and the factor 1 gives exactly that value. */
  lemma ShadeChannelBelowScale(c: byte, cap: byte, factor: real)
    requires 0.0 <= factor <= 1.0
    ensures ShadeChannel(c, cap, factor) <= Scale(c, cap)
    ensures factor == 1.0 ==> ShadeChannel(c, cap, factor) == Scale(c, cap)
  {
    var n := c * cap;
    MulBelow(c, 255, cap);
    var q, r := n / 255, n % 255;
    assert n == 255 * q + r;
    assert n as real / 255.0 == q as real + r as real / 255.0;
    assert (n as real / 255.0).Floor == q;
    var x, y := n as real * factor / 255.0, n as real / 255.0;
    assert x <= y by {
      assert n as real * factor <= n as real;
    }
    assert x.Floor as real <= x && y < y.Floor as real + 1.0;
    assert Scale(c, cap) == q;
  }

  /** A larger factor never gives a darker channel. */
  lemma ShadeChannelMonotone(c: byte, cap: byte, f1: real, f2: real)
    requires 0.0 <= f1 <= f2 <= 1.0
    ensures ShadeChannel(c, cap, f1) <= ShadeChannel(c, cap, f2)
  {
    var n := c * cap;
    MulBelow(c, 255, cap);
    var x1, x2 := n as real * f1 / 255.0, n as real * f2 / 255.0;
    assert x1 <= x2 by {
      assert n as real * f1 <= n as real * f2;
    }
    assert x1.Floor as real <= x1 && x2 < x2.Floor as real + 1.0;
  }

  /** Channel by channel, a is no brighter than b. */
  predicate NoBrighter(a: Color, b: Color)
  {
    a.r <= b.r && a.g <= b.g && a.b <= b.b && a.w <= b.w
  }

  /** The configured colour times a float brightness factor, capped, in the order
      RgbwColor(green, red, blue, 0). */
  function FactorColor(red: byte, green: byte, blue: byte, cap: byte, factor: real): (c: Color)
    requires 0.0 <= factor <= 1.0
    ensures c.w == 0
  {
    Color(ShadeChannel(green, cap, factor), ShadeChannel(red, cap, factor), ShadeChannel(blue, cap, factor), 0)
  }

  /** A factored colour is channel by channel at most the capped colour; the factor
      1 gives the capped colour. */
  lemma FactorColorBelowCapped(red: byte, green: byte, blue: byte, cap: byte, factor: real)
    requires 0.0 <= factor <= 1.0
    ensures NoBrighter(FactorColor(red, green, blue, cap, factor), CappedColor(red, green, blue, cap))
    ensures factor == 1.0 ==> FactorColor(red, green, blue, cap, factor) == CappedColor(red, green, blue, cap)
  {
    ShadeChannelBelowScale(green, cap, factor);
    ShadeChannelBelowScale(red, cap, factor);
    ShadeChannelBelowScale(blue, cap, factor);
  }

  /** A smaller factor gives a colour no brighter in any channel. */
  lemma FactorColorMonotone(red: byte, green: byte, blue: byte, cap: byte, f1: real, f2: real)
    requires 0.0 <= f1 <= f2 <= 1.0
    ensures NoBrighter(FactorColor(red, green, blue, cap, f1), FactorColor(red, green, blue, cap, f2))
  {
    ShadeChannelMonotone(green, cap, f1, f2);
    ShadeChannelMonotone(red, cap, f1, f2);
    ShadeChannelMonotone(blue, cap, f1, f2);
  }

  /** The values the source computes with floating-point sine. The model does not
      compute sin: each is a function of the counter it is computed from. */
  datatype Waves = Waves(
    sine: (byte, nat) -> real,  // effects.cpp Rainbow: sin(step * 0.02 + 2k) * 127 + 128 for channel k
    breathing: byte -> real,    // Breathing: sin(step * PI / 128) * 0.4 + 0.6
    pulse: byte -> real)        // Running's active slot: 0.3 + 0.7 * sin(transitionPhase / 63 * PI)
  {
    /** The ranges the sine formulas stay within. */
    predicate InRange()
    {
      (forall step: byte, k: nat | k < 3 :: 0.0 <= sine(step, k) <= 255.0) &&
      (forall step: byte :: 0.0 <= breathing(step) <= 1.0) &&
      (forall t: byte :: 0.0 <= pulse(t) <= 1.0)
    }
  }

  /** effects.cpp's Rainbow colour for step `step` under cap `cap`: three phase-shifted
      sine channels, each scaled by the cap. */
  function SineRainbowColor(waves: Waves, step: byte, cap: byte): (c: Color)
    requires waves.InRange()
    ensures c.r <= cap && c.g <= cap && c.b <= cap && c.w == 0
  {
    Color(WaveChannel(waves.sine(step, 0), cap), WaveChannel(waves.sine(step, 1), cap),
          WaveChannel(waves.sine(step, 2), cap), 0)
  }
}
