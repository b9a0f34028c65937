// Settings persisted in the EEPROM record, the range checks of the web handlers,
// and the hexadecimal colour decode of /update-strip (src/main.cpp).

module Settings {
  import opened Colors
  import opened Animation

  datatype Option<T> = None | Some(value: T)

  /** EEPROM.begin(512). */
  const EepromSize: nat := 512

  const TypeAddress: nat := 0
  const BrightnessLimitAddress: nat := 2
  const RedAddress: nat := 3
  const GreenAddress: nat := 4
  const BlueAddress: nat := 5
  const EffectAddress: nat := 6

  /** StripType: SK6812_RGBW = 0, WS2812_RGB = 1, WS2812B_RGB = 2. */
  const SK6812Rgbw: nat := 0
  const WS2812BRgb: nat := 2

  /** The settings the record holds. */
  datatype Config = Config(stripType: nat, maxBrightness: byte, red: byte, green: byte, blue: byte, effect: nat)

  /** A configuration setup() can end with: known strip type, non-zero brightness,
      a known effect and a colour other than all-255. */
  predicate Loadable(c: Config)
  {
    c.stripType <= WS2812BRgb && c.maxBrightness > 0 && c.effect < EffectCount &&
    !(c.red == 255 && c.green == 255 && c.blue == 255)
  }

  /** saveStripConfig: writes offsets 0, 2, 3, 4, 5 and 6; offset 1 and the rest of
      the 512 bytes keep what they held. */
  function SaveStripConfig(mem: seq<byte>, stripType: byte, brightness: byte,
                           red: byte, green: byte, blue: byte, effect: byte): (m: seq<byte>)
    requires |mem| == EepromSize
    ensures |m| == EepromSize
    ensures forall i :: 0 <= i < EepromSize && (i == 1 || i > EffectAddress) ==> m[i] == mem[i]
  {
    mem[TypeAddress := stripType][BrightnessLimitAddress := brightness]
       [RedAddress := red][GreenAddress := green][BlueAddress := blue][EffectAddress := effect]
  }

  /** The three colour writes of /update-strip (offsets 3, 4, 5). */
  function WriteColor(mem: seq<byte>, red: byte, green: byte, blue: byte): (m: seq<byte>)
    requires |mem| == EepromSize
    ensures |m| == EepromSize
  {
    mem[RedAddress := red][GreenAddress := green][BlueAddress := blue]
  }

  /** The configuration load of setup(): each field is taken from the record when it
      passes its check, else keeps the value it had before (`prior`); a colour of
      all-255 (erased flash) falls back to red (255, 0, 0). */
  function LoadConfig(mem: seq<byte>, prior: Config): (c: Config)
    requires |mem| == EepromSize
    ensures prior.stripType <= WS2812BRgb && prior.maxBrightness > 0 && prior.effect < EffectCount ==> Loadable(c)
  {
    var savedType := mem[TypeAddress];
    var savedBrightness := mem[BrightnessLimitAddress];
    var savedRed, savedGreen, savedBlue := mem[RedAddress], mem[GreenAddress], mem[BlueAddress];
    var savedEffect := mem[EffectAddress];
    var colorValid := savedRed != 255 || savedGreen != 255 || savedBlue != 255;
    Config(
      if savedType <= WS2812BRgb then savedType else prior.stripType,
      if savedBrightness > 0 && savedBrightness <= 255 then savedBrightness else prior.maxBrightness,
      if colorValid then savedRed else 255,
      if colorValid then savedGreen else 0,
      if colorValid then savedBlue else 0,
      if savedEffect < EffectCount then savedEffect else prior.effect)
  }

  /** Loading what saveStripConfig wrote gives back every field, provided the
      fields pass the load's checks. */
  lemma ConfigRoundTrip(mem: seq<byte>, prior: Config, stripType: byte, brightness: byte,
                        red: byte, green: byte, blue: byte, effect: byte)
    requires |mem| == EepromSize
    requires Loadable(Config(stripType, brightness, red, green, blue, effect))
    ensures LoadConfig(SaveStripConfig(mem, stripType, brightness, red, green, blue, effect), prior) ==
            Config(stripType, brightness, red, green, blue, effect)
  {
  }

  /** Each field that fails its check loads as its fallback, whatever the others hold. */
  lemma ConfigFallbacks(mem: seq<byte>, prior: Config, stripType: byte, brightness: byte,
                        red: byte, green: byte, blue: byte, effect: byte)
    requires |mem| == EepromSize
    ensures var c := LoadConfig(SaveStripConfig(mem, stripType, brightness, red, green, blue, effect), prior);
      (stripType > WS2812BRgb ==> c.stripType == prior.stripType) &&
      (brightness == 0 ==> c.maxBrightness == prior.maxBrightness) &&
      (red == 255 && green == 255 && blue == 255 ==> (c.red, c.green, c.blue) == (255, 0, 0)) &&
      (effect >= EffectCount ==> c.effect == prior.effect)
  {
  }

  /** A loaded configuration saved again loads unchanged. */
  lemma LoadSaveLoad(mem: seq<byte>, prior: Config)
    requires |mem| == EepromSize
    requires prior.stripType <= WS2812BRgb && prior.maxBrightness > 0 && prior.effect < EffectCount
    ensures var c := LoadConfig(mem, prior);
      LoadConfig(SaveStripConfig(mem, c.stripType, c.maxBrightness, c.red, c.green, c.blue, c.effect), prior) == c
  {
    var c := LoadConfig(mem, prior);
    ConfigRoundTrip(mem, prior, c.stripType, c.maxBrightness, c.red, c.green, c.blue, c.effect);
  }

  /** Erased flash (every byte 255) loads the prior strip type and effect, full
      brightness and red. */
  lemma ErasedEepromLoadsDefaults(mem: seq<byte>, prior: Config)
    requires |mem| == EepromSize
    requires forall i :: 0 <= i < EepromSize ==> mem[i] == 255
    ensures LoadConfig(mem, prior) == Config(prior.stripType, 255, 255, 0, 0, prior.effect)
  {
    assert mem[TypeAddress] == 255 && mem[BrightnessLimitAddress] == 255 && mem[RedAddress] == 255;
    assert mem[GreenAddress] == 255 && mem[BlueAddress] == 255 && mem[EffectAddress] == 255;
  }

  // ---------------------------------------------------------------------------
  // Range checks of the web handlers

  /** /effect accepts 0 <= value < EFFECT_COUNT. */
  predicate ValidEffectValue(value: int)
  {
    0 <= value < EffectCount
  }

  /** /effect accepts exactly the codes of the five effects. */
  lemma EffectValuesAreEffects(value: int)
    ensures ValidEffectValue(value) <==> exists e: Effect :: Code(e) == value
  {
    if ValidEffectValue(value) {
      assert Code(Dispatch(value)) == value;
    }
  }

  /** /set-time accepts 0 <= hours <= 23 and 0 <= minutes <= 59. */
  predicate ValidTime(hours: int, minutes: int)
  {
    0 <= hours <= 23 && 0 <= minutes <= 59
  }

  /** Implicit conversion of a long to uint8_t. */
  function ToUint8(v: int): byte
  {
    v % 256
  }

  /** Implicit conversion of a long to uint16_t. */
  function ToUint16(v: int): nat
  {
    v % 65536
  }

  /** The cast of a long to StripType; GCC gives this enum the underlying type
      unsigned int, so negative values become large. */
  function ToStripType(v: int): nat
  {
    v % TwoTo32
  }

  datatype StripRequest = StripRequest(stripType: nat, brightness: byte)

  /** /strip-config as written: count, type and brightness are converted to
      uint16_t, StripType and uint8_t before they are range-checked. */
  function StripConfigAsWritten(count: int, stripType: int, brightness: int): Option<StripRequest>
  {
    var newCount := ToUint16(count);
    var newType := ToStripType(stripType);
    var newBrightness := ToUint8(brightness);
    if newCount > 0 && newCount <= 1000 && newType <= WS2812BRgb && newBrightness > 0 && newBrightness <= 255
    then Some(StripRequest(newType, newBrightness))
    else None
  }

  /** The as-written check lets out-of-range arguments through after truncation:
      brightness 257 is stored as 1, count 65537 passes as 1. */
  lemma StripConfigTruncates()
    ensures StripConfigAsWritten(1, 0, 257) == Some(StripRequest(0, 1))
    ensures StripConfigAsWritten(65537, 0, 128) == Some(StripRequest(0, 128))
    ensures StripConfigChecked(1, 0, 257) == None
    ensures StripConfigChecked(65537, 0, 128) == None
  {
  }

  /** /strip-config with the range checks applied to the arguments as received. */
  function StripConfigChecked(count: int, stripType: int, brightness: int): Option<StripRequest>
  {
    if 0 < count <= 1000 && 0 <= stripType <= WS2812BRgb && 0 < brightness <= 255
    then Some(StripRequest(stripType, brightness))
    else None
  }

  /** The checked handler accepts exactly the in-range requests and stores them as
      given; on those the as-written handler agrees with it, so the correction only
      rejects the requests that truncation used to let through. */
  lemma StripConfigCheckedCorrect(count: int, stripType: int, brightness: int)
    ensures StripConfigChecked(count, stripType, brightness).Some? <==>
      0 < count <= 1000 && 0 <= stripType <= WS2812BRgb && 0 < brightness <= 255
    ensures StripConfigChecked(count, stripType, brightness).Some? ==>
      StripConfigChecked(count, stripType, brightness).value.stripType == stripType &&
      StripConfigChecked(count, stripType, brightness).value.brightness == brightness &&
      StripConfigAsWritten(count, stripType, brightness) == StripConfigChecked(count, stripType, brightness)
    ensures StripConfigChecked(count, stripType, brightness).Some? ==>
      Loadable(Config(stripType, brightness, 0, 0, 0, 0))
  {
  }

  /** Whatever /strip-config accepts as written, saved with a known effect and a
      colour other than all-255, is what the next boot loads: the converted type
      and brightness always pass the load's checks. */
  lemma StripConfigPersists(mem: seq<byte>, prior: Config, count: int, stripType: int, brightness: int,
                            red: byte, green: byte, blue: byte, effect: nat)
    requires |mem| == EepromSize
    requires StripConfigAsWritten(count, stripType, brightness).Some?
    requires effect < EffectCount && !(red == 255 && green == 255 && blue == 255)
    ensures var request := StripConfigAsWritten(count, stripType, brightness).value;
      LoadConfig(SaveStripConfig(mem, request.stripType, request.brightness, red, green, blue, effect), prior) ==
      Config(request.stripType, request.brightness, red, green, blue, effect)
  {
    var request := StripConfigAsWritten(count, stripType, brightness).value;
    ConfigRoundTrip(mem, prior, request.stripType, request.brightness, red, green, blue, effect);
  }

  /** The single-field writes of the handlers as the next boot loads them: an
      accepted /effect value comes back; a /brightness value comes back unless it
      truncates to 0; an /update-strip colour comes back unless it is all-255,
      which loads as red. */
  lemma HandlerWritesLoad(mem: seq<byte>, prior: Config, effect: int, brightness: int,
                          red: byte, green: byte, blue: byte)
    requires |mem| == EepromSize
    ensures ValidEffectValue(effect) ==> LoadConfig(mem[EffectAddress := effect], prior).effect == effect
    ensures var b := ToUint8(brightness);
      LoadConfig(mem[BrightnessLimitAddress := b], prior).maxBrightness == (if b == 0 then prior.maxBrightness else b)
    ensures var c := LoadConfig(WriteColor(mem, red, green, blue), prior);
      (c.red, c.green, c.blue) == (if red == 255 && green == 255 && blue == 255 then (255, 0, 0) else (red, green, blue))
  {
  }

  // ---------------------------------------------------------------------------
  // /update-strip: strip one '#', strtol(color, NULL, 16), bytes 2, 1, 0

  const LongMin: int := -0x8000_0000
  const LongMax: int := 0x7FFF_FFFF

  /** isspace in the "C" locale: space, \t, \n, \v, \f, \r. */
  predicate IsSpace(c: char)
  {
    c == ' ' || '\t' <= c <= '\r'
  }

  predicate IsHexDigit(c: char)
  {
    '0' <= c <= '9' || 'a' <= c <= 'f' || 'A' <= c <= 'F'
  }

  function HexDigitValue(c: char): (v: nat)
    requires IsHexDigit(c)
    ensures v < 16
  {
    if '0' <= c <= '9' then c as int - '0' as int
    else if 'a' <= c <= 'f' then c as int - 'a' as int + 10
    else c as int - 'A' as int + 10
  }

  /** The input after its leading white space. */
  function SkipSpaces(s: seq<char>): (t: seq<char>)
    ensures |t| <= |s|
  {
    if |s| > 0 && IsSpace(s[0]) then SkipSpaces(s[1..]) else s
  }

  /** SkipSpaces drops exactly the leading white space: what it drops is all
      white space, and what it keeps is a suffix that does not start with any. */
  lemma {:induction false} SkipSpacesSkipsSpaces(s: seq<char>)
    ensures var t := SkipSpaces(s);
      t == s[|s| - |t|..] && (forall i :: 0 <= i < |s| - |t| ==> IsSpace(s[i])) &&
      (|t| == 0 || !IsSpace(t[0]))
  {
    if |s| > 0 && IsSpace(s[0]) {
      SkipSpacesSkipsSpaces(s[1..]);
      var t := SkipSpaces(s[1..]);
      assert s[1..][|s| - 1 - |t|..] == s[|s| - |t|..];
      forall i | 0 <= i < |s| - |t|
        ensures IsSpace(s[i])
      {
        if i > 0 {
          assert s[i] == s[1..][i - 1];
        }
      }
    }
  }

  /** Length of the longest prefix of hexadecimal digits. */
  function HexRun(s: seq<char>): (n: nat)
    ensures n <= |s|
    ensures forall i :: 0 <= i < n ==> IsHexDigit(s[i])
  {
    if |s| > 0 && IsHexDigit(s[0]) then 1 + HexRun(s[1..]) else 0
  }

  /** The run of hexadecimal digits HexRun measures cannot be extended. */
  lemma {:induction false} HexRunIsLongest(s: seq<char>)
    ensures HexRun(s) == |s| || !IsHexDigit(s[HexRun(s)])
  {
    if |s| > 0 && IsHexDigit(s[0]) {
      HexRunIsLongest(s[1..]);
      assert HexRun(s) == 1 + HexRun(s[1..]);
    }
  }

  /** The value of a string of hexadecimal digits, most significant first. */
  function HexValue(s: seq<char>): nat
    requires forall i :: 0 <= i < |s| ==> IsHexDigit(s[i])
  {
    if |s| == 0 then 0 else HexValue(s[..|s| - 1]) * 16 + HexDigitValue(s[|s| - 1])
  }

  /** The digits after an optional 0x / 0X prefix; the prefix counts only when a
      hexadecimal digit follows it. */
  function SkipHexPrefix(u: seq<char>): (w: seq<char>)
    ensures |u| < 2 || (u[1] != 'x' && u[1] != 'X') ==> w == u
  {
    if |u| >= 3 && u[0] == '0' && (u[1] == 'x' || u[1] == 'X') && IsHexDigit(u[2]) then u[2..] else u
  }

  /** The value of the longest prefix of hexadecimal digits (0 when there is none). */
  function LeadingHexValue(w: seq<char>): nat
  {
    HexValue(w[..HexRun(w)])
  }

  /** Out-of-range results of strtol give LONG_MAX / LONG_MIN. */
  function Saturate(value: int): (v: int)
    ensures LongMin <= v <= LongMax
    ensures LongMin <= value <= LongMax ==> v == value
    ensures value > LongMax ==> v == LongMax
    ensures value < LongMin ==> v == LongMin
  {
    if value > LongMax then LongMax else if value < LongMin then LongMin else value
  }

  /** strtol(s, NULL, 16) with a 32-bit long, after C11 section 7.22.1.4: leading
      white space, an optional sign, an optional 0x / 0X prefix, the longest run of
      hexadecimal digits (none gives 0); out-of-range values give LONG_MAX / LONG_MIN. */
  function StrToL16(s: seq<char>): (v: int)
    ensures LongMin <= v <= LongMax
  {
    Saturate(SignedHexValue(SkipSpaces(s)))
  }

  /** The value of an optionally signed, optionally 0x-prefixed hexadecimal prefix. */
  function SignedHexValue(t: seq<char>): int
  {
    if |t| > 0 && t[0] == '-' then -(LeadingHexValue(SkipHexPrefix(t[1..])) as int)
    else if |t| > 0 && t[0] == '+' then LeadingHexValue(SkipHexPrefix(t[1..]))
    else LeadingHexValue(SkipHexPrefix(t))
  }

  /** color.startsWith("#") ? color.substring(1) : color. */
  function StripHash(s: seq<char>): seq<char>
  {
    if |s| > 0 && s[0] == '#' then s[1..] else s
  }

  /** (number >> shift) & 0xFF on a long (the shift is arithmetic). */
  function ByteOf(number: int, shift: nat): byte
    requires shift == 0 || shift == 8 || shift == 16
  {
    if shift == 0 then number % 256
    else if shift == 8 then (number / 256) % 256
    else (number / 65536) % 256
  }

  /** The (red, green, blue) the /update-strip handler stores for argument `color`. */
  function DecodeColor(color: seq<char>): (byte, byte, byte)
  {
    var number := StrToL16(StripHash(color));
    (ByteOf(number, 16), ByteOf(number, 8), ByteOf(number, 0))
  }

  /** Lower-case hexadecimal digit of d < 16. */
  function HexChar(d: nat): (c: char)
    requires d < 16
    ensures IsHexDigit(c) && HexDigitValue(c) == d
  {
    "0123456789abcdef"[d]
  }

  function HexByte(x: byte): (s: seq<char>)
    ensures |s| == 2 && IsHexDigit(s[0]) && IsHexDigit(s[1])
  {
    [HexChar(x / 16), HexChar(x % 16)]
  }

  /** "#rrggbb", the form the page's colour picker sends. */
  function FormatColor(red: byte, green: byte, blue: byte): (s: seq<char>)
    ensures |s| == 7 && s[0] == '#'
    ensures forall i :: 1 <= i < 7 ==> IsHexDigit(s[i])
  {
    "#" + (HexByte(red) + HexByte(green) + HexByte(blue))
  }

  /** Appending two digits of x multiplies the value by 256 and adds x. */
  lemma HexValueAppendByte(s: seq<char>, x: byte)
    requires forall i :: 0 <= i < |s| ==> IsHexDigit(s[i])
    ensures forall i :: 0 <= i < |s + HexByte(x)| ==> IsHexDigit((s + HexByte(x))[i])
    ensures HexValue(s + HexByte(x)) == HexValue(s) * 256 + x
  {
    var t := s + HexByte(x);
    assert t[..|t| - 1] == s + [HexChar(x / 16)];
    assert (s + [HexChar(x / 16)])[..|s|] == s;
  }

  /** The six digits of "rrggbb" read as red * 65536 + green * 256 + blue. */
  lemma HexValueOfDigits(red: byte, green: byte, blue: byte)
    ensures var digits := HexByte(red) + HexByte(green) + HexByte(blue);
      (forall i :: 0 <= i < |digits| ==> IsHexDigit(digits[i])) &&
      HexValue(digits) == red * 65536 + green * 256 + blue
  {
    HexValueAppendByte([], red);
    assert [] + HexByte(red) == HexByte(red);
    HexValueAppendByte(HexByte(red), green);
    HexValueAppendByte(HexByte(red) + HexByte(green), blue);
  }

  /** strtol reads a string made only of hexadecimal digits as its value,
      saturated at LONG_MAX. */
  lemma StrToL16OfHexDigits(w: seq<char>)
    requires forall i :: 0 <= i < |w| ==> IsHexDigit(w[i])
    ensures StrToL16(w) == Saturate(HexValue(w))
  {
    assert SkipSpaces(w) == w;
    assert |w| >= 2 ==> IsHexDigit(w[1]);
    assert SkipHexPrefix(w) == w;
    assert SignedHexValue(w) == LeadingHexValue(w);
    assert LeadingHexValue(w) == HexValue(w) by {
      HexRunIsLongest(w);
      assert HexRun(w) == |w|;
      assert w[..|w|] == w;
    }
  }

  /** A 0x / 0X prefix in front of hexadecimal digits is skipped: the digits read
      as they would without it. */
  lemma HexPrefixSkipped(x: char, w: seq<char>)
    requires x == 'x' || x == 'X'
    requires |w| > 0 && forall i :: 0 <= i < |w| ==> IsHexDigit(w[i])
    ensures StrToL16(['0', x] + w) == StrToL16(w) == Saturate(HexValue(w))
  {
    var u := ['0', x] + w;
    assert SkipSpaces(u) == u;
    assert SkipHexPrefix(u) == w by {
      assert u[2] == w[0] && u[2..] == w;
    }
    assert SignedHexValue(u) == LeadingHexValue(w);
    StrToL16OfHexDigits(w);
    assert LeadingHexValue(w) == HexValue(w) by {
      HexRunIsLongest(w);
      assert w[..|w|] == w;
    }
  }

  /** A 0x / 0X prefix with no hexadecimal digit after it is not a prefix: strtol
      reads the leading "0" alone and gives 0. */
  lemma BarePrefixIsZero(x: char, t: seq<char>)
    requires x == 'x' || x == 'X'
    requires |t| == 0 || !IsHexDigit(t[0])
    ensures StrToL16(['0', x] + t) == 0
  {
    var u := ['0', x] + t;
    assert SkipSpaces(u) == u;
    assert SkipHexPrefix(u) == u;
    assert HexRun(u) == 1 by {
      assert u[1..][0] == x;
    }
    assert u[..1] == ['0'];
    assert HexValue(u[..1]) == HexValue(['0'][..0]) * 16 + 0;
  }

  /** strtol reads six hexadecimal digits as their value. */
  lemma StrToL16OfDigits(red: byte, green: byte, blue: byte)
    ensures StrToL16(HexByte(red) + HexByte(green) + HexByte(blue)) == red * 65536 + green * 256 + blue
  {
    HexValueOfDigits(red, green, blue);
    StrToL16OfHexDigits(HexByte(red) + HexByte(green) + HexByte(blue));
    assert red * 65536 + green * 256 + blue <= LongMax;
  }

  /** The three bytes of red * 65536 + green * 256 + blue. */
  lemma BytesOfValue(red: byte, green: byte, blue: byte)
    ensures var v := red * 65536 + green * 256 + blue;
      ByteOf(v, 16) == red && ByteOf(v, 8) == green && ByteOf(v, 0) == blue
  {
    var v := red * 65536 + green * 256 + blue;
    assert v / 65536 == red;
    assert v / 256 == red * 256 + green;
    assert (red * 256 + green) % 256 == green;
  }

  /** Decoding the colour picker's "#rrggbb" gives back (red, green, blue). */
  lemma DecodeFormatRoundTrip(red: byte, green: byte, blue: byte)
    ensures DecodeColor(FormatColor(red, green, blue)) == (red, green, blue)
  {
    var digits := HexByte(red) + HexByte(green) + HexByte(blue);
    assert StripHash(FormatColor(red, green, blue)) == digits;
    StrToL16OfDigits(red, green, blue);
    DecodeValue(FormatColor(red, green, blue), red * 65536 + green * 256 + blue);
    BytesOfValue(red, green, blue);
  }

  /** DecodeColor splits whatever strtol read into its three low bytes. */
  lemma DecodeValue(color: seq<char>, v: int)
    requires StrToL16(StripHash(color)) == v
    ensures DecodeColor(color) == (ByteOf(v, 16), ByteOf(v, 8), ByteOf(v, 0))
  {
  }

  /** A digit string whose value exceeds LONG_MAX saturates to 0x7FFFFFFF, whose
      three low bytes are white. */
  lemma OverflowIsWhite(w: seq<char>)
    requires forall i :: 0 <= i < |w| ==> IsHexDigit(w[i])
    requires HexValue(w) > LongMax
    ensures DecodeColor(w) == (255, 255, 255)
  {
    assert StripHash(w) == w;
    StrToL16OfHexDigits(w);
    LongMaxBytes();
  }

  lemma LongMaxBytes()
    ensures ByteOf(LongMax, 16) == 255 && ByteOf(LongMax, 8) == 255 && ByteOf(LongMax, 0) == 255
  {
    assert LongMax / 65536 == 32767 && 32767 % 256 == 255;
    assert LongMax / 256 == 8388607 && 8388607 % 256 == 255;
  }

  /** The handler strips a single '#': "##..." parses no digits and gives black. */
  lemma DoubleHashIsBlack(rest: seq<char>)
    ensures DecodeColor("##" + rest) == (0, 0, 0)
  {
    assert StripHash("##" + rest) == "#" + rest;
    assert SkipSpaces("#" + rest) == "#" + rest;
    assert HexRun("#" + rest) == 0;
  }
}
