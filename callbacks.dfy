/** The request handling of gradio_server/callbacks.py: parsing `#rrggbb`
    colours (the six-digit hexadecimal notation of section 5.2 of CSS Color
    Module Level 4), cutting the colour-picker list to the requested length,
    and assembling the configuration from the defaults and the form values. */
module Callbacks {
  import opened Pixels

  /** `str.lstrip("#")`: drops every leading '#', not just one. */
  function LStripHash(s: string): (t: string)
    ensures |t| <= |s| && t == s[|s| - |t|..]
    ensures |t| == 0 || t[0] != '#'
    ensures forall i :: 0 <= i < |s| - |t| ==> s[i] == '#'
  {
    if |s| > 0 && s[0] == '#' then LStripHash(s[1..]) else s
  }

  /** A character `int(..., 16)` accepts as a digit. */
  predicate IsHexDigit(ch: char)
  {
    '0' <= ch <= '9' || 'a' <= ch <= 'f' || 'A' <= ch <= 'F'
  }

  predicate AllHex(s: string)
  {
    forall i :: 0 <= i < |s| ==> IsHexDigit(s[i])
  }

  function HexDigitValue(ch: char): (v: int)
    requires IsHexDigit(ch)
    ensures 0 <= v < 16
  {
    if '0' <= ch <= '9' then ch as int - '0' as int
    else if 'a' <= ch <= 'f' then ch as int - 'a' as int + 10
    else ch as int - 'A' as int + 10
  }

  function Pow16(n: nat): nat
  {
    if n == 0 then 1 else 16 * Pow16(n - 1)
  }

  /** The value of a string of hexadecimal digits, most significant first. */
  function HexValue(s: string): (v: int)
    requires AllHex(s)
    ensures 0 <= v < Pow16(|s|)
  {
    if |s| == 0 then 0 else HexValue(s[..|s| - 1]) * 16 + HexDigitValue(s[|s| - 1])
  }

  /** `int(s, 16)` on strings of hexadecimal digits: an empty string or any
      other character raises `ValueError`, here `None`. */
  function ParseHex(s: string): (r: Option<int>)
    ensures r.Some? <==> |s| > 0 && AllHex(s)
    ensures r.Some? ==> 0 <= r.value < Pow16(|s|)
  {
    if |s| > 0 && AllHex(s) then Some(HexValue(s)) else None
  }

  function Min(a: int, b: int): int
  {
    if a <= b then a else b
  }

  /** Python's `s[i:j]` for `0 <= i <= j`: both ends are clamped to the length. */
  function PySlice(s: string, i: nat, j: nat): (t: string)
    requires i <= j
    ensures |t| == Min(j, |s|) - Min(i, |s|)
    ensures forall k :: 0 <= k < |t| ==> t[k] == s[Min(i, |s|) + k]
  {
    s[Min(i, |s|)..Min(j, |s|)]
  }

  /** `_hex_to_rgb`: strips the leading '#'s and reads the slices [0:2], [2:4]
      and [4:6] as hexadecimal numbers. */
  function HexToRgb(hexColor: string): (r: Result<Rgb>)
    ensures r.Success? ==> 0 <= r.value.r < 256 && 0 <= r.value.g < 256 && 0 <= r.value.b < 256
    ensures r.Failure? ==> r.error == InvalidHex
  {
    ReadChannels(LStripHash(hexColor))
  }

  /** The generator over the offsets 0, 2 and 4 of `_hex_to_rgb`: each
      two-character slice read as a hexadecimal number. */
  function ReadChannels(t: string): (r: Result<Rgb>)
    ensures r.Success? ==> 0 <= r.value.r < 256 && 0 <= r.value.g < 256 && 0 <= r.value.b < 256
    ensures r.Failure? ==> r.error == InvalidHex
  {
    var red, green, blue := ParseHex(PySlice(t, 0, 2)), ParseHex(PySlice(t, 2, 4)), ParseHex(PySlice(t, 4, 6));
    if red.Some? && green.Some? && blue.Some? then Success(Rgb(red.value, green.value, blue.value))
    else Failure(InvalidHex)
  }

  /** The three slices are all non-empty and all hexadecimal exactly when the
      string has at least five characters and its first six (or five) are
      hexadecimal digits. */
  lemma SlicesCover(t: string)
    ensures (|PySlice(t, 0, 2)| > 0 && AllHex(PySlice(t, 0, 2)) &&
             |PySlice(t, 2, 4)| > 0 && AllHex(PySlice(t, 2, 4)) &&
             |PySlice(t, 4, 6)| > 0 && AllHex(PySlice(t, 4, 6)))
            <==> |t| >= 5 && AllHex(t[..Min(6, |t|)])
  {
    if |t| >= 5 && AllHex(PySlice(t, 0, 2)) && AllHex(PySlice(t, 2, 4)) && AllHex(PySlice(t, 4, 6)) {
      var p := t[..Min(6, |t|)];
      forall i | 0 <= i < |p| ensures IsHexDigit(p[i]) {
        if i < 2 {
          assert p[i] == PySlice(t, 0, 2)[i];
        } else if i < 4 {
          assert p[i] == PySlice(t, 2, 4)[i - 2];
        } else {
          assert p[i] == PySlice(t, 4, 6)[i - 4];
        }
      }
    }
  }

  /** A colour parses exactly when, after the leading '#'s, at least five
      characters remain and the first six of them (or all five) are
      hexadecimal digits. */
  lemma HexToRgbSucceeds(hexColor: string)
    ensures var t := LStripHash(hexColor);
            HexToRgb(hexColor).Success? <==> |t| >= 5 && AllHex(t[..Min(6, |t|)])
  {
    SlicesCover(LStripHash(hexColor));
  }

  /** The lower-case digit of a value below 16. */
  function HexChar(d: int): (ch: char)
    requires 0 <= d < 16
    ensures IsHexDigit(ch) && ch != '#' && HexDigitValue(ch) == d
  {
    if d < 10 then ('0' as int + d) as char else ('a' as int + d - 10) as char
  }

  /** The two-digit form of a channel value, as a colour picker writes it. */
  function Hex2(v: int): (s: string)
    requires 0 <= v < 256
    ensures |s| == 2 && AllHex(s) && HexValue(s) == v
  {
    var s := [HexChar(v / 16), HexChar(v % 16)];
    assert s[..1][..0] == [];
    s
  }

  function Repeat(ch: char, n: nat): (s: string)
    ensures |s| == n
  {
    if n == 0 then [] else [ch] + Repeat(ch, n - 1)
  }

  /** Stripping any number of leading '#'s from a string that does not start
      with '#' gives the string back. */
  lemma {:induction false} LStripHashPrefix(n: nat, s: string)
    requires |s| > 0 && s[0] != '#'
    ensures LStripHash(Repeat('#', n) + s) == s
  {
    if n == 0 {
      assert Repeat('#', n) + s == s;
    } else {
      var tail := Repeat('#', n - 1) + s;
      assert Repeat('#', n) + s == ['#'] + tail;
      LStripHashPrefix(n - 1, s);
      LStripHashCons(tail);
    }
  }

  lemma LStripHashCons(tail: string)
    ensures LStripHash(['#'] + tail) == LStripHash(tail)
  {
    assert (['#'] + tail)[1..] == tail;
  }

  /** Round trip: any number of '#'s followed by the two-digit forms of three
      channel values parses back to those values. */
  lemma HexToRgbRoundTrip(hashes: nat, c: Rgb)
    requires 0 <= c.r < 256 && 0 <= c.g < 256 && 0 <= c.b < 256
    ensures HexToRgb(Repeat('#', hashes) + Hex2(c.r) + Hex2(c.g) + Hex2(c.b)) == Success(c)
  {
    var digits := Hex2(c.r) + Hex2(c.g) + Hex2(c.b);
    assert Repeat('#', hashes) + Hex2(c.r) + Hex2(c.g) + Hex2(c.b) == Repeat('#', hashes) + digits;
    LStripHashPrefix(hashes, digits);
    ReadHex2(c);
  }

  /** Six digits, two per channel, read back as the three channels. */
  lemma ReadHex2(c: Rgb)
    requires 0 <= c.r < 256 && 0 <= c.g < 256 && 0 <= c.b < 256
    ensures ReadChannels(Hex2(c.r) + Hex2(c.g) + Hex2(c.b)) == Success(c)
  {
    ThreePairs(Hex2(c.r), Hex2(c.g), Hex2(c.b));
  }

  lemma ThreePairs(x: string, y: string, z: string)
    requires |x| == 2 && |y| == 2 && |z| == 2
    ensures PySlice(x + y + z, 0, 2) == x && PySlice(x + y + z, 2, 4) == y && PySlice(x + y + z, 4, 6) == z
  {
    var d := x + y + z;
    assert d[0..2] == x && d[2..4] == y && d[4..6] == z;
  }

  /** ASCII upper-casing of one character. */
  function UpperChar(ch: char): char
  {
    if 'a' <= ch <= 'z' then (ch as int - 32) as char else ch
  }

  function Upper(s: string): (u: string)
    ensures |u| == |s| && forall i :: 0 <= i < |s| ==> u[i] == UpperChar(s[i])
  {
    if |s| == 0 then [] else Upper(s[..|s| - 1]) + [UpperChar(s[|s| - 1])]
  }

  lemma {:induction false} LStripHashUpper(s: string)
    ensures LStripHash(Upper(s)) == Upper(LStripHash(s))
  {
    if |s| > 0 && s[0] == '#' {
      assert Upper(s)[1..] == Upper(s[1..]);
      LStripHashUpper(s[1..]);
    }
  }

  lemma {:induction false} HexValueUpper(s: string)
    requires AllHex(s)
    ensures AllHex(Upper(s)) && HexValue(Upper(s)) == HexValue(s)
  {
    if |s| > 0 {
      assert Upper(s)[..|s| - 1] == Upper(s[..|s| - 1]);
      HexValueUpper(s[..|s| - 1]);
    }
  }

  lemma ParseHexUpper(s: string)
    ensures ParseHex(Upper(s)) == ParseHex(s)
  {
    if |s| > 0 && AllHex(s) {
      HexValueUpper(s);
    } else if |s| > 0 {
      var i :| 0 <= i < |s| && !IsHexDigit(s[i]);
      assert !IsHexDigit(Upper(s)[i]);
    }
  }

  lemma SliceUpper(t: string, i: nat, j: nat)
    requires i <= j
    ensures PySlice(Upper(t), i, j) == Upper(PySlice(t, i, j))
  {
    var a, b := PySlice(Upper(t), i, j), Upper(PySlice(t, i, j));
    forall k | 0 <= k < |a| ensures a[k] == b[k] {}
  }

  lemma SliceParseUpper(t: string, i: nat, j: nat)
    requires i <= j
    ensures ParseHex(PySlice(Upper(t), i, j)) == ParseHex(PySlice(t, i, j))
  {
    SliceUpper(t, i, j);
    ParseHexUpper(PySlice(t, i, j));
  }

  lemma ReadChannelsUpper(t: string)
    ensures ReadChannels(Upper(t)) == ReadChannels(t)
  {
    SliceParseUpper(t, 0, 2);
    SliceParseUpper(t, 2, 4);
    SliceParseUpper(t, 4, 6);
  }

  /** Upper- and lower-case digits read the same: upper-casing the input does
      not change the result. */
  lemma HexToRgbCaseInsensitive(s: string)
    ensures HexToRgb(Upper(s)) == HexToRgb(s)
  {
    LStripHashUpper(s);
    ReadChannelsUpper(LStripHash(s));
  }

  lemma {:induction false} LStripHashAppend(s: string, extra: string)
    requires |LStripHash(s)| > 0
    ensures LStripHash(s + extra) == LStripHash(s) + extra
  {
    if s[0] == '#' {
      assert (s + extra)[1..] == s[1..] + extra;
      LStripHashAppend(s[1..], extra);
    }
  }

  lemma SliceAppend(t: string, extra: string, i: nat, j: nat)
    requires i <= j <= |t|
    ensures PySlice(t + extra, i, j) == PySlice(t, i, j)
  {
    var a, b := PySlice(t + extra, i, j), PySlice(t, i, j);
    forall k | 0 <= k < |a| ensures a[k] == b[k] {}
  }

  /** Only the first six characters after the '#'s are read: anything after
      them changes nothing. */
  lemma HexToRgbIgnoresTail(s: string, extra: string)
    requires |LStripHash(s)| >= 6
    ensures HexToRgb(s + extra) == HexToRgb(s)
  {
    var t := LStripHash(s);
    LStripHashAppend(s, extra);
    SliceAppend(t, extra, 0, 2);
    SliceAppend(t, extra, 2, 4);
    SliceAppend(t, extra, 4, 6);
  }

  /** `seq[:n]` for any integer `n`: a negative `n` counts from the end. */
  function PyPrefix<T>(s: seq<T>, n: int): (p: seq<T>)
    ensures |p| == if n >= 0 then Min(n, |s|) else if |s| + n >= 0 then |s| + n else 0
    ensures p == s[..|p|]
  {
    if n >= 0 then s[..Min(n, |s|)] else if |s| + n >= 0 then s[..|s| + n] else []
  }

  /** Every colour of the list parses. */
  ghost predicate AllParse(hexes: seq<string>)
  {
    forall i :: 0 <= i < |hexes| ==> HexToRgb(hexes[i]).Success?
  }

  /** `colors` is `hexes` parsed element by element, in order. */
  ghost predicate Converted(hexes: seq<string>, colors: seq<Rgb>)
  {
    |colors| == |hexes| && forall i :: 0 <= i < |hexes| ==> HexToRgb(hexes[i]) == Success(colors[i])
  }

  /** `[_hex_to_rgb(h) for h in colors]`: converts in order and fails at the
      first colour that does not parse. */
  function ConvertColors(hexes: seq<string>): (r: Result<seq<Rgb>>)
    ensures r.Success? <==> AllParse(hexes)
    ensures r.Success? ==> Converted(hexes, r.value)
    ensures r.Failure? ==> r.error == InvalidHex
  {
    if |hexes| == 0 then Success([])
    else
      match HexToRgb(hexes[0])
      case Failure(e) => Failure(e)
      case Success(c) =>
        match ConvertColors(hexes[1..])
        case Failure(e) =>
          AllParseTail(hexes);
          Failure(e)
        case Success(rest) =>
          ConvertCons(hexes, c, rest);
          Success([c] + rest)
  }

  lemma AllParseTail(hexes: seq<string>)
    requires |hexes| > 0
    ensures AllParse(hexes) ==> AllParse(hexes[1..])
  {
    if AllParse(hexes) {
      forall i | 0 <= i < |hexes| - 1 ensures HexToRgb(hexes[1..][i]).Success? {
        assert hexes[1..][i] == hexes[i + 1];
      }
    }
  }

  lemma ConvertCons(hexes: seq<string>, c: Rgb, rest: seq<Rgb>)
    requires |hexes| > 0 && HexToRgb(hexes[0]) == Success(c)
    requires Converted(hexes[1..], rest)
    ensures Converted(hexes, [c] + rest) && AllParse(hexes)
  {
    var colors := [c] + rest;
    forall i | 0 <= i < |hexes| ensures HexToRgb(hexes[i]) == Success(colors[i]) {
      if i == 0 {
        assert colors[0] == c;
      } else {
        assert hexes[i] == hexes[1..][i - 1] && colors[i] == rest[i - 1];
      }
    }
  }

  /** A configuration value as the form delivers it. */
  datatype Value = Flag(b: bool) | Number(x: real) | Text(s: string) | Color(c: Rgb)

  /** The keys of the configuration dictionary, one constructor per string
      key the program uses. */
  datatype Key =
    | Denoise | DenoiseH | BorderPadding | AreaPercThreshold | CheckShapeValidity
    | ArcLengthAreaRatioThreshold | BorderColor | FontSize | FontColor | FontThickness
    | DenoiseOrder | DenoiseType | BlurSize | OpenKernelSize

  type Config = map<Key, Value>

  /** `default_config` of colorbynumber/config.py. */
  const DefaultConfig: Config := map[
    Denoise := Flag(true),
    DenoiseH := Number(100.0),
    BorderPadding := Number(2.0),
    AreaPercThreshold := Number(0.05),
    CheckShapeValidity := Flag(true),
    ArcLengthAreaRatioThreshold := Number(1.0),
    BorderColor := Color(Rgb(0, 0, 0)),
    FontSize := Number(0.5),
    FontColor := Color(Rgb(0, 0, 0)),
    FontThickness := Number(2.0)
  ]

  /** The twelve keys the form overrides. */
  const FormKeys: set<Key> := {
    Denoise, DenoiseOrder, DenoiseType, BlurSize, DenoiseH, OpenKernelSize,
    AreaPercThreshold, CheckShapeValidity, ArcLengthAreaRatioThreshold,
    FontSize, FontColor, FontThickness
  }

  /** The form's values, one per overridden key. */
  datatype Form = Form(
    denoiseFlag: bool, denoiseOrder: string, denoiseType: string, blurSize: real, denoiseH: real,
    openKernelSize: real, areaPercThreshold: real, checkShapeValidity: bool,
    arcLengthAreaRatioThreshold: real, fontSize: real, fontColor: string, fontThickness: real)

  /** Which palette the page asked for: `number_of_colors` automatic colours,
      or the converted picker colours. */
  datatype PaletteRequest = Automatic(numberOfColors: int) | Explicit(colors: seq<Rgb>)

  /** What `get_color_by_number` hands to the pipeline. */
  datatype Request = Request(imagePath: string, palette: PaletteRequest, config: Config)

  /** `get_color_by_number` up to the construction of the pipeline object:
      keeps the first `num_colors` picker values and converts them (even when
      automatic colours are chosen), then builds the configuration; either
      conversion raises on a malformed colour. */
  method GetColorByNumber(imagePath: string, numberOfColors: int, isAutomaticColors: bool, numColors: int,
                          form: Form, colorList: seq<string>)
    returns (r: Result<Request>)
    ensures r.Success? <==>
              ConvertColors(PyPrefix(colorList, numColors)).Success? && HexToRgb(form.fontColor).Success?
    ensures r.Failure? ==> r.error == InvalidHex
    ensures r.Success? ==> r.value.imagePath == imagePath
    ensures r.Success? ==>
              r.value.palette == if isAutomaticColors then Automatic(numberOfColors)
                                 else Explicit(ConvertColors(PyPrefix(colorList, numColors)).value)
    ensures r.Success? ==> ConfigFromForm(r.value.config, form, HexToRgb(form.fontColor).value)
  {
    var pickers := PyPrefix(colorList, numColors);
    var colors := ConvertColors(pickers);
    if colors.Failure? {
      return Failure(colors.error);
    }
    var config := UpdateConfig(form);
    if config.Failure? {
      return Failure(config.error);
    }
    var palette := if isAutomaticColors then Automatic(numberOfColors) else Explicit(colors.value);
    return Success(Request(imagePath, palette, config.value));
  }

  /** The configuration part of `get_color_by_number`: copies the defaults,
      overrides the form keys one after another and parses `font_color` from
      hex in its turn (a malformed colour raises there). */
  method UpdateConfig(form: Form) returns (r: Result<Config>)
    ensures r.Success? <==> HexToRgb(form.fontColor).Success?
    ensures r.Failure? ==> r.error == InvalidHex
    ensures r.Success? ==> ConfigFromForm(r.value, form, HexToRgb(form.fontColor).value)
  {
    var settings := OverrideSettings(form);
    var fontColor := HexToRgb(form.fontColor);
    if fontColor.Failure? {
      return Failure(fontColor.error);
    }
    var config := settings[FontColor := Color(fontColor.value)];
    config := config[FontThickness := Number(form.fontThickness)];
    FontOverrides(settings, form, fontColor.value);
    return Success(config);
  }

  /** Setting the font colour and thickness on the other ten settings gives
      the whole configuration. */
  lemma FontOverrides(settings: Config, form: Form, fontColor: Rgb)
    requires SettingsFromForm(settings, form)
    ensures ConfigFromForm(settings[FontColor := Color(fontColor)][FontThickness := Number(form.fontThickness)],
                           form, fontColor)
  {
  }

  /** The ten assignments before `font_color`, on a copy of the defaults. */
  method OverrideSettings(form: Form) returns (config: Config)
    ensures SettingsFromForm(config, form)
    ensures config[FontColor] == DefaultConfig[FontColor] && config[FontThickness] == DefaultConfig[FontThickness]
  {
    config := DefaultConfig;
    config := config[Denoise := Flag(form.denoiseFlag)];
    config := config[DenoiseOrder := Text(form.denoiseOrder)];
    config := config[DenoiseType := Text(form.denoiseType)];
    config := config[BlurSize := Number(form.blurSize)];
    config := config[DenoiseH := Number(form.denoiseH)];
    config := config[OpenKernelSize := Number(form.openKernelSize)];
    config := config[AreaPercThreshold := Number(form.areaPercThreshold)];
    config := config[CheckShapeValidity := Flag(form.checkShapeValidity)];
    config := config[ArcLengthAreaRatioThreshold := Number(form.arcLengthAreaRatioThreshold)];
    config := config[FontSize := Number(form.fontSize)];
  }

  /** The key set of the finished configuration, the untouched defaults and
      the ten settings other than the font colour and thickness. */
  ghost predicate SettingsFromForm(config: Config, form: Form)
  {
    && config.Keys == DefaultConfig.Keys + FormKeys
    && (forall k :: k in DefaultConfig && k !in FormKeys ==> config[k] == DefaultConfig[k])
    && config[Denoise] == Flag(form.denoiseFlag)
    && config[DenoiseOrder] == Text(form.denoiseOrder)
    && config[DenoiseType] == Text(form.denoiseType)
    && config[BlurSize] == Number(form.blurSize)
    && config[DenoiseH] == Number(form.denoiseH)
    && config[OpenKernelSize] == Number(form.openKernelSize)
    && config[AreaPercThreshold] == Number(form.areaPercThreshold)
    && config[CheckShapeValidity] == Flag(form.checkShapeValidity)
    && config[ArcLengthAreaRatioThreshold] == Number(form.arcLengthAreaRatioThreshold)
    && config[FontSize] == Number(form.fontSize)
  }

  /** The configuration the form produces: the default keys plus the form
      keys, each form key holding the form's value (`fontColor` parsed),
      every other key its default. */
  ghost predicate ConfigFromForm(config: Config, form: Form, fontColor: Rgb)
  {
    && SettingsFromForm(config, form)
    && config[FontColor] == Color(fontColor)
    && config[FontThickness] == Number(form.fontThickness)
  }

  /** `change_font_on_image`: without an image there is nothing to redraw and
      the font colour is not even parsed; otherwise the colour is parsed and
      the numbers are redrawn by `addNumbers` (a function this model does not
      define). */
  function ChangeFontOnImage<I>(image: Option<I>, fontColor: string, addNumbers: (I, Rgb) -> I): (r: Result<Option<I>>)
    ensures image.None? ==> r == Success(None)
    ensures image.Some? ==> (r.Success? <==> HexToRgb(fontColor).Success?)
    ensures image.Some? && r.Success? ==> r.value == Some(addNumbers(image.value, HexToRgb(fontColor).value))
  {
    if image.None? then Success(None)
    else
      match HexToRgb(fontColor)
      case Failure(e) => Failure(e)
      case Success(c) => Success(Some(addNumbers(image.value, c)))
  }
}
