/** The text form of a configuration: parsing it, printing it, and why the two agree. */
module Hub75Text {
  import Arith
  import opened Options
  import opened Text
  import opened Hub75Config

  // ---- names ----

  /** Every effect name that is understood, with its effect; an effect's first name is the one printed. */
  const EFFECTS: seq<(string, Effect)> := [
    ("plasma", Plasma), ("rainbow", Plasma), ("stripes", Stripes), ("wave", Wave), ("scroll", Scroll),
    ("cycle", Cycle), ("fade", Fade), ("fire", Fire), ("sparkle", Sparkle), ("ripple", Ripple),
    ("gradient", Gradient)]

  const CHIPS: seq<(string, Chip)> := [
    ("shift", Shift), ("fm6126a", Fm6126a), ("fm6124", Fm6126a), ("icn2038s", Fm6126a)]

  const PRESETS: seq<(string, nat, bool)> := [
    ("4s", 4, false), ("8s", 8, false), ("8sf", 8, true), ("16s", 16, false), ("32s", 32, false)]

  const PALETTE_LETTERS: string := "krgybmcw"

  function EffectNamed(name: string, i: nat): Option<Effect>
    requires i <= |EFFECTS|
    decreases |EFFECTS| - i
  {
    if i == |EFFECTS| then None
    else if name == EFFECTS[i].0 then Some(EFFECTS[i].1)
    else EffectNamed(name, i + 1)
  }

  function EffectName(e: Effect): string {
    match e
    case Plasma => "plasma"
    case Stripes => "stripes"
    case Wave => "wave"
    case Scroll => "scroll"
    case Cycle => "cycle"
    case Fade => "fade"
    case Fire => "fire"
    case Sparkle => "sparkle"
    case Ripple => "ripple"
    case Gradient => "gradient"
  }

  function ChipNamed(name: string, i: nat): Option<Chip>
    requires i <= |CHIPS|
    decreases |CHIPS| - i
  {
    if i == |CHIPS| then None
    else if name == CHIPS[i].0 then Some(CHIPS[i].1)
    else ChipNamed(name, i + 1)
  }

  function ChipName(chip: Chip): string {
    match chip
    case Shift => "shift"
    case Fm6126a => "fm6126a"
  }

  function PresetNamed(name: string, i: nat): Option<(nat, bool)>
    requires i <= |PRESETS|
    decreases |PRESETS| - i
  {
    if i == |PRESETS| then None
    else if name == PRESETS[i].0 then Some((PRESETS[i].1, PRESETS[i].2))
    else PresetNamed(name, i + 1)
  }

  // ---- colours ----

  function LetterAt(c: char): (i: nat)
    ensures i <= 8 && (i < 8 ==> PALETTE_LETTERS[i] == c)
  {
    IndexOf(PALETTE_LETTERS, c)
  }

  function PaletteOf(s: string): Option<seq<nat>> {
    if s == [] then Some([])
    else if LetterAt(s[|s| - 1]) == 8 then None
    else
      var rest :- PaletteOf(s[..|s| - 1]);
      Some(rest + [LetterAt(s[|s| - 1])])
  }

  function PaletteText(p: seq<nat>): (s: string)
    requires forall i | 0 <= i < |p| :: p[i] < 8
    ensures |s| == |p|
  {
    seq(|p|, i requires 0 <= i < |p| => PALETTE_LETTERS[p[i]])
  }

  function HexValue(c: char): Option<nat> {
    if '0' <= c <= '9' then Some(c as int - '0' as int)
    else if 'a' <= c <= 'f' then Some(c as int - 'a' as int + 10)
    else if 'A' <= c <= 'F' then Some(c as int - 'A' as int + 10)
    else None
  }

  function HexDigit(d: nat): (c: char)
    requires d < 16
    ensures HexValue(c) == Some(d) && c != ' ' && c != ',' && c != ':'
  {
    if d < 10 then ('0' as int + d) as char else ('a' as int + (d - 10)) as char
  }

  const HEX_WEIGHTS: seq<nat> := [0x100000, 0x10000, 0x1000, 0x100, 0x10, 1]

  /** Up to six hex digits, the first ones first; missing ones are 0. */
  function HexRgb(s: string): Option<nat>
    requires |s| <= 6
  {
    if s == [] then Some(0)
    else
      var before :- HexRgb(s[..|s| - 1]);
      var d :- HexValue(s[|s| - 1]);
      Some(before + d * HEX_WEIGHTS[|s| - 1])
  }

  function HexText(rgb: nat): string
    requires rgb < 0x1000000
  {
    [HexDigit(rgb / 0x100000), HexDigit(rgb / 0x10000 % 16), HexDigit(rgb / 0x1000 % 16),
     HexDigit(rgb / 0x100 % 16), HexDigit(rgb / 0x10 % 16), HexDigit(rgb % 16)]
  }

  function ColorOf(s: string): Option<Color> {
    if s != "" && s[0] == '#' then
      if |s| > 7 then None
      else
        var rgb :- HexRgb(s[1..]);
        Some(Fixed(rgb))
    else
      var (name, s1) :- Field(At(s), ':', 12);
      var (speedText, s2) :- Field(s1, ':', 4);
      var (paletteText, s3) :- Field(s2, ':', PALETTE_MAX + 1);
      var (scaleText, s4) :- Field(s3, ':', 4);
      if s4 != End then None else EffectOf(name, speedText, paletteText, scaleText)
  }

  function EffectOf(name: string, speedText: string, paletteText: string, scaleText: string): Option<Color> {
    var effect :- EffectNamed(name, 0);
    if speedText != "" && DefaultSpeed(effect) == 0 then None
    else
      var speed :- if speedText == "" then Some(DefaultSpeed(effect) as int)
                   else Number(speedText, 1, EFFECT_SPEED_MAX);
      var palette :- PaletteOf(paletteText);
      var scale :- if scaleText == "" then Some(SCALE_DEFAULT as int) else Number(scaleText, 1, SCALE_MAX);
      Some(Animated(effect, speed, palette, scale))
  }

  /** An effect's text: four fields, the later ones left out as far as they are empty. */
  function EffectText(name: string, speed: string, palette: string, scale: string): string {
    if scale != "" then name + ":" + (speed + ":" + (palette + ":" + scale))
    else if palette != "" then name + ":" + (speed + ":" + palette)
    else if speed != "" then name + ":" + speed
    else name
  }

  function SpeedText(effect: Effect, speed: nat): string {
    if speed != DefaultSpeed(effect) then Decimal(speed) else ""
  }

  function ScaleText(scale: nat): string {
    if scale != SCALE_DEFAULT then Decimal(scale) else ""
  }

  /** A colour's text: of an effect's parts, none after the last that differs from the default. */
  function ColorText(k: Color): string
    requires ColorOk(k)
  {
    match k
    case Fixed(rgb) => "#" + HexText(rgb)
    case Animated(effect, speed, palette, scale) =>
      EffectText(EffectName(effect), SpeedText(effect, speed), PaletteText(palette), ScaleText(scale))
  }

  // ---- geometry ----

  /** Up to two letters, each side once: the input's side and row 0's. */
  function LayoutOf(s: string): Option<(bool, bool)> {
    if forall i | 0 <= i < |s| :: s[i] in "lrtb" then
      if CountIn(s, "lr") <= 1 && CountIn(s, "tb") <= 1 then Some(('r' in s, 'b' in s)) else None
    else None
  }

  function CountIn(s: string, letters: string): nat {
    if s == [] then 0 else CountIn(s[..|s| - 1], letters) + if s[|s| - 1] in letters then 1 else 0
  }

  /** "<cols>[x<rows>][i]". */
  function GridOf(s: string): Option<(nat, nat, bool)> {
    var (cols, used) := Strtol(s);
    if used == 0 || cols < 1 || cols > 16 then None
    else if used < |s| && s[used] == 'x' then GridRows(s[used + 1..], cols)
    else GridEnd(s[used..], cols, 1)
  }

  function GridRows(s: string, cols: nat): Option<(nat, nat, bool)> {
    var (rows, used) := Strtol(s);
    if used == 0 || rows < 1 || rows > 16 then None else GridEnd(s[used..], cols, rows)
  }

  function GridEnd(rest: string, cols: nat, rows: nat): Option<(nat, nat, bool)> {
    if (rest == "" || rest == "i") && cols * rows <= 16 then Some((cols, rows, rest == "i")) else None
  }

  function GeometryOf(s: string, c: Config): Option<Config> {
    var (widthText, s1) :- Field(At(s), ':', 16);
    var width :- Number(widthText, 1, MAX_PIXELS);
    var (heightText, s2) :- Field(s1, ':', 16);
    var height :- Number(heightText, 1, MAX_PIXELS);
    var (layoutText, s3) :- Field(s2, ':', 16);
    var (flipX, flipY) :- LayoutOf(layoutText);
    var (gridText, s4) :- Field(s3, ':', 16);
    if s4 != End then None
    else
      var (gridX, gridY, serpentine) :- if gridText == "" then Some((1 as nat, 1 as nat, false)) else GridOf(gridText);
      Some(c.(width := width, height := height, flipX := flipX, flipY := flipY,
              gridX := gridX, gridY := gridY, serpentine := serpentine))
  }

  function GridText(c: Config): string {
    Decimal(c.gridX) + ("x" + (Decimal(c.gridY) + if c.serpentine then "i" else ""))
  }

  function LayoutText(c: Config): string {
    [if c.flipX then 'r' else 'l', if c.flipY then 'b' else 't']
  }

  function GeometryText(c: Config): string {
    Decimal(c.width) + ":" + (Decimal(c.height) + ":" + (LayoutText(c) + ":" + GridText(c)))
  }

  // ---- protocol ----

  /** "<n|f>[<segment>][z]". */
  function ChainOf(s: string): Option<(bool, nat, bool)> {
    if s == "" || (s[0] != 'n' && s[0] != 'f') then None
    else if |s| > 1 && '1' <= s[1] <= '9' then
      var (v, used) := Strtol(s[1..]);
      if v > 255 || v < 0 then None else ChainEnd(s[1 + used..], s[0] == 'f', v)
    else ChainEnd(s[1..], s[0] == 'f', 0)
  }

  function ChainEnd(rest: string, farFirst: bool, segment: nat): Option<(bool, nat, bool)> {
    if rest == "" || rest == "z" then Some((farFirst, segment, rest == "z")) else None
  }

  function ProtocolOf(s: string, c: Config): Option<Config> {
    match PresetNamed(s, 0)
    case Some((scan, farFirst)) =>
      Some(c.(scan := scan, farFirst := farFirst, segment := 0, zigzag := false,
              clockKhz := 500, chip := Shift, depth := DEPTH_DEFAULT))
    case None => ProtocolParts(At(s), c)
  }

  function ProtocolParts(s: Cursor, c: Config): Option<Config> {
    var (scanText, s1) :- Field(s, ':', 16);
    var scan :- if scanText == "" then Some(c.scan as int) else PowerOfTwo(scanText);
    ChainPart(s1, c.(scan := scan))
  }

  function ChainPart(s: Cursor, c: Config): Option<Config> {
    var (chainText, s2) :- Field(s, ':', 16);
    var (farFirst, segment, zigzag) :-
      if chainText == "" then Some((c.farFirst, c.segment, c.zigzag)) else ChainOf(chainText);
    ClockParts(s2, c.(farFirst := farFirst, segment := segment, zigzag := zigzag))
  }

  function ClockParts(s: Cursor, c: Config): Option<Config> {
    var (clockText, s3) :- Field(s, ':', 16);
    var clockKhz :- if clockText == "" then Some(c.clockKhz as int)
                    else Number(clockText, CLOCK_MIN_KHZ, CLOCK_MAX_KHZ);
    var (chipText, s4) :- Field(s3, ':', 16);
    var chip :- if chipText == "" then Some(c.chip) else ChipNamed(chipText, 0);
    DepthPart(s4, c.(clockKhz := clockKhz, chip := chip))
  }

  function DepthPart(s: Cursor, c: Config): Option<Config> {
    var (depthText, s5) :- Field(s, ':', 16);
    if s5 != End then None
    else
      var depth :- if depthText == "" then Some(c.depth as int) else Number(depthText, 1, MAX_DEPTH);
      Some(c.(depth := depth))
  }

  /** A number of row addresses: v & (v - 1) leaves nothing of it. */
  function PowerOfTwo(s: string): (r: Option<int>)
    ensures r.Some? ==> 2 <= r.value <= 32
  {
    var v :- Number(s, 2, 32);
    if (v as bv8) & ((v - 1) as bv8) != 0 then None else Some(v)
  }

  function ChainText(c: Config): string {
    [if c.farFirst then 'f' else 'n']
    + ((if c.segment != 0 then Decimal(c.segment) else "") + if c.zigzag then "z" else "")
  }

  function ProtocolText(c: Config): string {
    Decimal(c.scan) + ":" + (ChainText(c) + ":"
    + (Decimal(c.clockKhz) + ":" + (ChipName(c.chip) + ":" + Decimal(c.depth))))
  }

  // ---- the whole ----

  const VALUE_LEN: nat := 128

  datatype Parsed = Disabled | Malformed | Enabled(c: Config)

  const DEFAULT: Config := Config(
    64, 32, true, false, 1, 1, false, 8, false, 0, false, 500, Shift, DEPTH_DEFAULT,
    Fixed(0xff0000), Fixed(0), 512)

  // Its text, field by field: 64:32:rt:1x1,8:n:500:shift:4,#ff0000,#000000,512
  const DEFAULT_TEXT: string := "64:32:rt:1x1" + "," + ("8:n:500:shift:4" + ","
    + ("#ff0000" + "," + ("#000000" + "," + "512")))

  function Checked(c: Config): Option<Config> {
    if 0 < c.gridX && 0 < c.gridY && 0 < c.scan then
      var panelW, panelH := c.width / c.gridX, c.height / c.gridY;
      if c.width * c.height > MAX_PIXELS || c.width % c.gridX != 0 || c.height % c.gridY != 0 ||
         panelH % (2 * c.scan) != 0 || (c.segment != 0 && panelW % c.segment != 0)
      then None else Some(c)
    else None
  }

  /** The default with the fields that aren't empty read over it. */
  function Assembled(geometry: string, protocol: string, color: string, offColor: string, brightness: string)
    : Option<Config>
  {
    var c1 :- if geometry == "" then Some(DEFAULT) else GeometryOf(geometry, DEFAULT);
    var c2 :- if protocol == "" then Some(c1) else ProtocolOf(protocol, c1);
    var k1 :- if color == "" then Some(c2.color) else ColorOf(color);
    var k2 :- if offColor == "" then Some(c2.offColor) else ColorOf(offColor);
    var b :- if brightness == "" then Some(c2.brightness as int) else Number(brightness, 0, BRIGHTNESS_MAX);
    Checked(c2.(color := k1, offColor := k2, brightness := b))
  }

  function FieldsOf(s: string): Option<Config> {
    var (geometry, s1) :- Field(At(s), ',', 32);
    var (protocol, s2) :- Field(s1, ',', 32);
    var (color, s3) :- Field(s2, ',', 32);
    var (offColor, s4) :- Field(s3, ',', 32);
    var (brightness, s5) :- Field(s4, ',', 32);
    if s5 != End then None else Assembled(geometry, protocol, color, offColor, brightness)
  }

  function ConfigOf(value: string): Parsed {
    var s := TrimLeft(value);
    if s == "" then Disabled
    else match FieldsOf(s)
      case None => Malformed
      case Some(c) => Enabled(c)
  }

  function ConfigText(c: Config): string
    requires Accepted(c)
  {
    GeometryText(c) + "," +
      (ProtocolText(c) + "," + (ColorText(c.color) + "," + (ColorText(c.offColor) + "," + Decimal(c.brightness))))
  }

  // ---- printing and parsing again ----

  /** Enough of a name to tell the known ones apart. */
  function Key(s: string): (nat, char, char)
    requires |s| >= 2
  {
    (|s|, s[0], s[1])
  }

  function EffectIndex(e: Effect): (i: nat)
    ensures i < |EFFECTS| && EFFECTS[i] == (EffectName(e), e)
  {
    match e
    case Plasma => 0
    case Stripes => 2
    case Wave => 3
    case Scroll => 4
    case Cycle => 5
    case Fade => 6
    case Fire => 7
    case Sparkle => 8
    case Ripple => 9
    case Gradient => 10
  }

  lemma EffectKeys()
    ensures forall i | 0 <= i < |EFFECTS| :: |EFFECTS[i].0| >= 2
    ensures forall i, j | 0 <= i < j < |EFFECTS| :: Key(EFFECTS[i].0) != Key(EFFECTS[j].0)
  {
    var keys := [(6, 'p', 'l'), (7, 'r', 'a'), (7, 's', 't'), (4, 'w', 'a'), (6, 's', 'c'), (5, 'c', 'y'),
                 (4, 'f', 'a'), (4, 'f', 'i'), (7, 's', 'p'), (6, 'r', 'i'), (8, 'g', 'r')];
    assert forall i | 0 <= i < 11 :: |EFFECTS[i].0| >= 2 && Key(EFFECTS[i].0) == keys[i];
    assert forall i, j | 0 <= i < j < 11 :: keys[i] != keys[j];
  }

  lemma {:induction false} EffectNamedFrom(e: Effect, i: nat)
    requires i <= EffectIndex(e)
    ensures EffectNamed(EffectName(e), i) == Some(e)
    decreases EffectIndex(e) - i
  {
    if i < EffectIndex(e) {
      EffectKeys();
      assert Key(EFFECTS[i].0) != Key(EFFECTS[EffectIndex(e)].0);
      EffectNamedFrom(e, i + 1);
    }
  }

  lemma NamesPlain(e: Effect, chip: Chip)
    ensures Plain(EffectName(e), ':') && Plain(EffectName(e), ',')
            && 2 <= |EffectName(e)| <= 8 && EffectName(e)[0] != '#'
    ensures Plain(ChipName(chip), ':') && Plain(ChipName(chip), ',') && 0 < |ChipName(chip)| <= 7
    ensures ChipNamed(ChipName(chip), 0) == Some(chip)
  {
    assert CHIPS[0].0[0] == 's' && CHIPS[1].0[0] == 'f';
  }

  lemma HexDigitsSum(rgb: nat)
    requires rgb < 0x1000000
    ensures rgb / 0x100000 * 0x100000 + rgb / 0x10000 % 16 * 0x10000 + rgb / 0x1000 % 16 * 0x1000
          + rgb / 0x100 % 16 * 0x100 + rgb / 0x10 % 16 * 0x10 + rgb % 16 == rgb
    ensures rgb / 0x100000 < 16
  {
    Arith.DivDiv(rgb, 0x10, 16); Arith.DivDiv(rgb, 0x100, 16);
    Arith.DivDiv(rgb, 0x1000, 16); Arith.DivDiv(rgb, 0x10000, 16);
    NibbleSum(rgb, rgb / 0x10, rgb / 0x100, rgb / 0x1000, rgb / 0x10000, rgb / 0x100000);
  }

  lemma NibbleSum(a: nat, b: nat, c: nat, d: nat, e: nat, f: nat)
    requires b == a / 16 && c == b / 16 && d == c / 16 && e == d / 16 && f == e / 16
    ensures f * 0x100000 + e % 16 * 0x10000 + d % 16 * 0x1000 + c % 16 * 0x100 + b % 16 * 0x10 + a % 16 == a
  {
  }

  lemma HexRoundTrip(rgb: nat)
    requires rgb < 0x1000000
    ensures HexRgb(HexText(rgb)) == Some(rgb)
  {
    var d := [rgb / 0x100000, rgb / 0x10000 % 16, rgb / 0x1000 % 16, rgb / 0x100 % 16, rgb / 0x10 % 16, rgb % 16];
    HexDigitsSum(rgb);
    HexSix(HexText(rgb), d);
  }

  lemma HexSix(t: string, d: seq<nat>)
    requires |t| == |d| == 6 && forall i | 0 <= i < 6 :: HexValue(t[i]) == Some(d[i])
    ensures HexRgb(t) == Some(d[0] * 0x100000 + d[1] * 0x10000 + d[2] * 0x1000 + d[3] * 0x100 + d[4] * 0x10 + d[5])
  {
    hide HexValue;
    assert t[..0] == [] && t[..6] == t;
    HexStep(t, 0); HexStep(t, 1); HexStep(t, 2); HexStep(t, 3); HexStep(t, 4); HexStep(t, 5);
  }

  lemma HexStep(t: string, m: nat)
    requires m < |t| <= 6 && HexRgb(t[..m]).Some? && HexValue(t[m]).Some?
    ensures HexRgb(t[..m + 1]) == Some(HexRgb(t[..m]).value + HexValue(t[m]).value * HEX_WEIGHTS[m])
  {
    assert t[..m + 1][..m] == t[..m];
  }

  lemma LettersDistinct(i: nat)
    requires i < 8
    ensures LetterAt(PALETTE_LETTERS[i]) == i
    ensures PALETTE_LETTERS[i] != ' ' && PALETTE_LETTERS[i] != ':' && PALETTE_LETTERS[i] != ','
  {
    var n := LetterAt(PALETTE_LETTERS[i]);
    assert n <= i;
  }

  lemma {:induction false} PaletteRoundTrip(p: seq<nat>)
    requires forall i | 0 <= i < |p| :: p[i] < 8
    ensures PaletteOf(PaletteText(p)) == Some(p)
    ensures Plain(PaletteText(p), ':') && Plain(PaletteText(p), ',')
  {
    if p == [] {
    } else {
      var n := |p| - 1;
      PaletteRoundTrip(p[..n]);
      assert PaletteText(p)[..n] == PaletteText(p[..n]);
      assert PaletteText(p) == PaletteText(p[..n]) + [PALETTE_LETTERS[p[n]]];
      LettersDistinct(p[n]);
      assert p == p[..n] + [p[n]];
    }
  }

  lemma EffectFields(name: string, speed: string, palette: string, scale: string)
    returns (s1: Cursor, s2: Cursor, s3: Cursor)
    requires Plain(name, ':') && Plain(speed, ':') && Plain(palette, ':') && Plain(scale, ':')
    requires |name| < 12 && |speed| < 4 && |palette| <= PALETTE_MAX && |scale| < 4
    ensures Field(At(EffectText(name, speed, palette, scale)), ':', 12) == Some((name, s1))
    ensures Field(s1, ':', 4) == Some((speed, s2))
    ensures Field(s2, ':', PALETTE_MAX + 1) == Some((palette, s3))
    ensures Field(s3, ':', 4) == Some((scale, End))
  {
    NoMoreFields(4);
    NoMoreFields(PALETTE_MAX + 1);
    hide Field, Plain;
    s1, s2, s3 := End, End, End;
    if scale != "" {
      FieldHead(name, ':', speed + ":" + (palette + ":" + scale), 12);
      FieldHead(speed, ':', palette + ":" + scale, 4);
      FieldHead(palette, ':', scale, PALETTE_MAX + 1);
      FieldHead(scale, ':', "", 4);
      s1, s2, s3 := At(speed + ":" + (palette + ":" + scale)), At(palette + ":" + scale), At(scale);
    } else if palette != "" {
      FieldHead(name, ':', speed + ":" + palette, 12);
      FieldHead(speed, ':', palette, 4);
      FieldHead(palette, ':', "", PALETTE_MAX + 1);
      s1, s2 := At(speed + ":" + palette), At(palette);
    } else if speed != "" {
      FieldHead(name, ':', speed, 12);
      FieldHead(speed, ':', "", 4);
      s1 := At(speed);
    } else {
      FieldHead(name, ':', "", 12);
    }
  }

  lemma NoMoreFields(outLen: nat)
    ensures Field(End, ':', outLen) == Some(("", End))
  {
  }

  lemma EffectOfRoundTrip(effect: Effect, speed: nat, palette: seq<nat>, scale: nat)
    requires ColorOk(Animated(effect, speed, palette, scale))
    ensures EffectOf(EffectName(effect), SpeedText(effect, speed), PaletteText(palette), ScaleText(scale))
         == Some(Animated(effect, speed, palette, scale))
  {
    EffectNamedFrom(effect, 0);
    PaletteRoundTrip(palette);
    if speed != DefaultSpeed(effect) { NumberDecimal(speed, 1, EFFECT_SPEED_MAX); }
    if scale != SCALE_DEFAULT { NumberDecimal(scale, 1, SCALE_MAX); }
    hide Decimal, EffectNamed, EffectName, PaletteText, PaletteOf, Number;
  }

  lemma EffectTextsFit(effect: Effect, speed: nat, palette: seq<nat>, scale: nat)
    requires ColorOk(Animated(effect, speed, palette, scale))
    ensures Plain(SpeedText(effect, speed), ':') && Plain(SpeedText(effect, speed), ',')
            && |SpeedText(effect, speed)| <= 2
    ensures Plain(ScaleText(scale), ':') && Plain(ScaleText(scale), ',') && |ScaleText(scale)| <= 2
    ensures Plain(PaletteText(palette), ':') && Plain(PaletteText(palette), ',')
            && |PaletteText(palette)| <= PALETTE_MAX
  {
    DecimalLength(speed);
    DecimalLength(scale);
    PaletteRoundTrip(palette);
    DecimalPlain(speed);
    DecimalPlain(scale);
  }

  lemma AnimatedRoundTrip(effect: Effect, speed: nat, palette: seq<nat>, scale: nat)
    requires ColorOk(Animated(effect, speed, palette, scale))
    ensures ColorOf(ColorText(Animated(effect, speed, palette, scale))) == Some(Animated(effect, speed, palette, scale))
  {
    NamesPlain(effect, Shift);
    EffectTextsFit(effect, speed, palette, scale);
    EffectOfRoundTrip(effect, speed, palette, scale);
    hide Field, Plain, Decimal, EffectName, PaletteText, EffectOf, SpeedText, ScaleText;
    var s1, s2, s3 :=
      EffectFields(EffectName(effect), SpeedText(effect, speed), PaletteText(palette), ScaleText(scale));
    assert ColorText(Animated(effect, speed, palette, scale))[0] == EffectName(effect)[0];
  }

  lemma ColorRoundTrip(k: Color)
    requires ColorOk(k)
    ensures ColorOf(ColorText(k)) == Some(k)
  {
    match k
    case Fixed(rgb) =>
      HexRoundTrip(rgb);
      assert ColorText(k)[1..] == HexText(rgb);
    case Animated(effect, speed, palette, scale) =>
      AnimatedRoundTrip(effect, speed, palette, scale);
  }

  /** A colour's text fits its buffer and is one plain field. */
  lemma ColorTextFits(k: Color)
    requires ColorOk(k)
    ensures 0 < |ColorText(k)| <= 23 && Plain(ColorText(k), ',')
  {
    match k
    case Fixed(rgb) =>
      hide HexDigit;
    case Animated(effect, speed, palette, scale) =>
      NamesPlain(effect, Shift);
      EffectTextsFit(effect, speed, palette, scale);
      hide SpeedText, ScaleText, PaletteText, EffectName;
  }

  lemma LayoutRoundTrip(c: Config)
    ensures LayoutOf(LayoutText(c)) == Some((c.flipX, c.flipY))
    ensures Plain(LayoutText(c), ':') && Plain(LayoutText(c), ',')
  {
    var t := LayoutText(c);
    assert t[..1] == [t[0]] && [t[0]][..0] == [];
    assert CountIn([t[0]], "lr") == 1 && CountIn([t[0]], "tb") == 0;
  }

  lemma GridBounds(gridX: nat, gridY: nat)
    requires 1 <= gridX && 1 <= gridY && gridX * gridY <= 16
    ensures gridX <= 16 && gridY <= 16
  {
    Arith.MulMono(1, gridX, gridY);
    Arith.MulMono(1, gridY, gridX);
  }

  lemma GridRowsRoundTrip(cols: nat, rows: nat, tail: string)
    requires 1 <= rows <= 16 && cols * rows <= 16 && (tail == "" || tail == "i")
    ensures GridRows(Decimal(rows) + tail, cols) == Some((cols, rows, tail == "i"))
  {
    StrtolDecimal(rows, tail);
    hide Strtol, Decimal;
    assert (Decimal(rows) + tail)[|Decimal(rows)|..] == tail;
  }

  lemma GridColsRoundTrip(cols: nat, rest: string)
    requires 1 <= cols <= 16
    ensures GridOf(Decimal(cols) + ("x" + rest)) == GridRows(rest, cols)
  {
    hide Strtol, Decimal, GridRows;
    var text, n := Decimal(cols) + ("x" + rest), |Decimal(cols)|;
    StrtolDecimal(cols, "x" + rest);
    BehindX(Decimal(cols), rest);
  }

  lemma BehindX(head: string, rest: string)
    ensures (head + ("x" + rest))[|head|] == 'x' && (head + ("x" + rest))[|head| + 1..] == rest
  {
  }

  lemma GridRoundTrip(c: Config)
    requires 1 <= c.gridX && 1 <= c.gridY && c.gridX * c.gridY <= 16
    ensures GridOf(GridText(c)) == Some((c.gridX, c.gridY, c.serpentine))
  {
    GridBounds(c.gridX, c.gridY);
    var tail := if c.serpentine then "i" else "";
    GridRowsRoundTrip(c.gridX, c.gridY, tail);
    GridColsRoundTrip(c.gridX, Decimal(c.gridY) + tail);
  }

  lemma GridTextFits(c: Config)
    requires 1 <= c.gridX && 1 <= c.gridY && c.gridX * c.gridY <= 16
    ensures Plain(GridText(c), ':') && Plain(GridText(c), ',') && 0 < |GridText(c)| <= 6
  {
    GridBounds(c.gridX, c.gridY);
    DecimalLength(c.gridX);
    DecimalLength(c.gridY);
    DecimalPlain(c.gridX);
    DecimalPlain(c.gridY);
    hide Decimal;
  }

  // ---- geometry and protocol ----

  lemma SizeBounds(c: Config)
    requires GeometryOk(c)
    ensures c.width <= MAX_PIXELS && c.height <= MAX_PIXELS
  {
    Arith.MulMono(1, c.width, c.height);
    Arith.MulMono(1, c.height, c.width);
  }

  lemma GeometryTextFits(c: Config)
    requires GeometryOk(c)
    ensures Plain(Decimal(c.width), ':') && |Decimal(c.width)| <= 5
            && Plain(Decimal(c.height), ':') && |Decimal(c.height)| <= 5
    ensures Plain(LayoutText(c), ':') && Plain(GridText(c), ':') && 0 < |GridText(c)| <= 6
    ensures Plain(GeometryText(c), ',') && 0 < |GeometryText(c)| <= 21
  {
    SizeBounds(c);
    DecimalLength(c.width);
    DecimalLength(c.height);
    DecimalPlain(c.width);
    DecimalPlain(c.height);
    LayoutRoundTrip(c);
    GridTextFits(c);
    hide Decimal, GridText;
  }

  lemma GeometryRoundTrip(c: Config, d: Config)
    requires GeometryOk(c)
    ensures GeometryOf(GeometryText(c), d)
         == Some(d.(width := c.width, height := c.height, flipX := c.flipX, flipY := c.flipY,
                    gridX := c.gridX, gridY := c.gridY, serpentine := c.serpentine))
  {
    SizeBounds(c);
    GeometryTextFits(c);
    NumberDecimal(c.width, 1, MAX_PIXELS);
    NumberDecimal(c.height, 1, MAX_PIXELS);
    LayoutRoundTrip(c);
    GridRoundTrip(c);
    var w, h, l, g := Decimal(c.width), Decimal(c.height), LayoutText(c), GridText(c);
    FieldHead(w, ':', h + ":" + (l + ":" + g), 16);
    FieldHead(h, ':', l + ":" + g, 16);
    FieldHead(l, ':', g, 16);
    FieldHead(g, ':', "", 16);
    hide Decimal, GridText, LayoutText, LayoutOf, GridOf, Number, Field, Plain, GeometryOk;
  }

  lemma ScanRoundTrip(scan: nat)
    requires scan in {2, 4, 8, 16, 32}
    ensures PowerOfTwo(Decimal(scan)) == Some(scan)
  {
    NumberDecimal(scan, 2, 32);
    PowerBits(scan);
    hide Number, Decimal;
  }

  lemma PowerBits(scan: nat)
    requires scan in {2, 4, 8, 16, 32}
    ensures (scan as bv8) & ((scan - 1) as bv8) == 0
  {
    if scan == 2 {
    } else if scan == 4 {
    } else if scan == 8 {
    } else if scan == 16 {
    } else {
      assert scan == 32;
    }
  }

  /** The only numbers of row addresses there are. */
  lemma PowersOfTwo(s: string)
    ensures PowerOfTwo(s).Some? ==> PowerOfTwo(s).value in {2, 4, 8, 16, 32}
  {
    hide Number;
    if PowerOfTwo(s).Some? {
      var v := PowerOfTwo(s).value;
      assert v as bv8 & (v - 1) as bv8 == 0;
    }
  }

  lemma SegmentRoundTrip(head: char, segment: nat, tail: string)
    requires 1 <= segment <= 255 && (tail == "" || tail == "z") && (head == 'n' || head == 'f')
    ensures ChainOf([head] + (Decimal(segment) + tail)) == ChainEnd(tail, head == 'f', segment)
  {
    hide Strtol, Decimal, ChainEnd;
    var text, n := [head] + (Decimal(segment) + tail), |Decimal(segment)|;
    StrtolDecimal(segment, tail);
    assert text[1..] == Decimal(segment) + tail;
    assert text[1] == Decimal(segment)[0];
    assert text[1 + n..] == tail;
  }

  lemma ChainRoundTrip(c: Config)
    requires c.segment <= 255
    ensures ChainOf(ChainText(c)) == Some((c.farFirst, c.segment, c.zigzag))
  {
    var tail := if c.zigzag then "z" else "";
    if c.segment != 0 {
      SegmentRoundTrip(ChainText(c)[0], c.segment, tail);
    } else {
      assert ChainText(c)[1..] == tail;
    }
  }

  lemma ChainTextFits(c: Config)
    requires c.segment <= 255
    ensures Plain(ChainText(c), ':') && Plain(ChainText(c), ',') && 0 < |ChainText(c)| <= 5
  {
    DecimalLength(c.segment);
    DecimalPlain(c.segment);
    hide Decimal;
  }

  lemma ProtocolTextFits(c: Config)
    requires Accepted(c)
    ensures Plain(Decimal(c.scan), ':') && |Decimal(c.scan)| <= 2
    ensures Plain(ChainText(c), ':') && 0 < |ChainText(c)| <= 5
    ensures Plain(Decimal(c.clockKhz), ':') && |Decimal(c.clockKhz)| <= 4
    ensures Plain(ChipName(c.chip), ':') && 0 < |ChipName(c.chip)| <= 7
    ensures Plain(Decimal(c.depth), ':') && |Decimal(c.depth)| <= 1
    ensures Plain(ProtocolText(c), ',') && 0 < |ProtocolText(c)| <= 23 && ':' in ProtocolText(c)
  {
    DecimalLength(c.scan);
    DecimalLength(c.clockKhz);
    DecimalLength(c.depth);
    DecimalPlain(c.scan);
    DecimalPlain(c.clockKhz);
    DecimalPlain(c.depth);
    ChainTextFits(c);
    NamesPlain(Plasma, c.chip);
    hide Decimal, ChainText, ChipName, GeometryOk;
  }

  lemma {:induction false} NoPreset(name: string, i: nat)
    requires ':' in name && i <= |PRESETS|
    ensures PresetNamed(name, i) == None
    decreases |PRESETS| - i
  {
    if i < |PRESETS| {
      assert ':' !in PRESETS[i].0;
      NoPreset(name, i + 1);
    }
  }

  lemma ProtocolRoundTrip(c: Config, d: Config)
    requires Accepted(c)
    ensures ProtocolOf(ProtocolText(c), d)
         == Some(d.(scan := c.scan, farFirst := c.farFirst, segment := c.segment, zigzag := c.zigzag,
                    clockKhz := c.clockKhz, chip := c.chip, depth := c.depth))
  {
    ProtocolTextFits(c);
    ScanRoundTrip(c.scan);
    ChainRoundTrip(c);
    NumberDecimal(c.clockKhz, CLOCK_MIN_KHZ, CLOCK_MAX_KHZ);
    NamesPlain(Plasma, c.chip);
    NumberDecimal(c.depth, 1, MAX_DEPTH);
    NoPreset(ProtocolText(c), 0);
    var s, chain, khz, chip, dep :=
      Decimal(c.scan), ChainText(c), Decimal(c.clockKhz), ChipName(c.chip), Decimal(c.depth);
    FieldHead(s, ':', chain + ":" + (khz + ":" + (chip + ":" + dep)), 16);
    FieldHead(chain, ':', khz + ":" + (chip + ":" + dep), 16);
    FieldHead(khz, ':', chip + ":" + dep, 16);
    FieldHead(chip, ':', dep, 16);
    FieldHead(dep, ':', "", 16);
    hide Decimal, ChainText, ChainOf, ChipName, ChipNamed, PowerOfTwo, PresetNamed, Number, Field, Plain, GeometryOk,
         ColorOk;
  }

  // ---- the whole ----

  lemma FieldsOfText(c: Config)
    requires Accepted(c)
    ensures FieldsOf(ConfigText(c)) == Checked(c)
  {
    GeometryTextFits(c);
    ProtocolTextFits(c);
    ColorTextFits(c.color);
    ColorTextFits(c.offColor);
    DecimalLength(c.brightness);
    DecimalPlain(c.brightness);
    GeometryRoundTrip(c, DEFAULT);
    ProtocolRoundTrip(c, DEFAULT.(width := c.width, height := c.height, flipX := c.flipX, flipY := c.flipY,
                                  gridX := c.gridX, gridY := c.gridY, serpentine := c.serpentine));
    ColorRoundTrip(c.color);
    ColorRoundTrip(c.offColor);
    NumberDecimal(c.brightness, 0, BRIGHTNESS_MAX);
    var g, p, k, o, b :=
      GeometryText(c), ProtocolText(c), ColorText(c.color), ColorText(c.offColor), Decimal(c.brightness);
    FieldHead(g, ',', p + "," + (k + "," + (o + "," + b)), 32);
    FieldHead(p, ',', k + "," + (o + "," + b), 32);
    FieldHead(k, ',', o + "," + b, 32);
    FieldHead(o, ',', b, 32);
    FieldHead(b, ',', "", 32);
    hide GeometryText, ProtocolText, ColorText, Decimal, GeometryOf, ProtocolOf, ColorOf, Number, Field, Plain,
         GeometryOk, ColorOk, Checked;
  }

  lemma CheckedAccepts(c: Config)
    requires GeometryOk(c)
    ensures Checked(c) == Some(c)
  {
    GridBounds(c.gridX, c.gridY);
  }

  lemma TextStartsPlain(c: Config)
    requires Accepted(c)
    ensures TrimLeft(ConfigText(c)) == ConfigText(c) != ""
  {
    GeometryTextFits(c);
    hide GeometryText, ProtocolText, ColorText, Decimal;
    assert ConfigText(c)[0] == GeometryText(c)[0];
  }

  /** What is printed of an accepted configuration parses to exactly that configuration. */
  lemma ConfigRoundTrip(c: Config)
    requires Accepted(c)
    ensures ConfigOf(ConfigText(c)) == Enabled(c)
  {
    FieldsOfText(c);
    CheckedAccepts(c);
    TextStartsPlain(c);
    hide ConfigText, FieldsOf, Accepted;
  }

  /** The printed text, and each piece of it, fits the buffers it is put together in and the store's limit. */
  lemma ConfigTextFits(c: Config)
    requires Accepted(c)
    ensures |ConfigText(c)| < VALUE_LEN
    ensures |ChainText(c)| < 8 && |ColorText(c.color)| < 32 && |ColorText(c.offColor)| < 32
  {
    GeometryTextFits(c);
    ProtocolTextFits(c);
    ColorTextFits(c.color);
    ColorTextFits(c.offColor);
    DecimalLength(c.brightness);
    hide GeometryText, ProtocolText, ColorText, Decimal;
  }

  // ---- what the parser accepts ----

  lemma {:induction false} HexRgbBound(s: string)
    requires |s| <= 6 && HexRgb(s).Some?
    ensures HexRgb(s).value + (if s == [] then 0x1000000 else HEX_WEIGHTS[|s| - 1]) <= 0x1000000
  {
    if s == [] {
    } else {
      HexRgbBound(s[..|s| - 1]);
    }
  }

  lemma {:induction false} PaletteAccepted(s: string)
    requires PaletteOf(s).Some?
    ensures |PaletteOf(s).value| == |s| && forall i | 0 <= i < |s| :: PaletteOf(s).value[i] < 8
  {
    if s == [] {
    } else {
      PaletteAccepted(s[..|s| - 1]);
    }
  }

  lemma FieldShort(s: Cursor, sep: char, outLen: nat)
    requires Field(s, sep, outLen).Some? && 0 < outLen
    ensures |Field(s, sep, outLen).value.0| < outLen
  {
  }

  lemma ColorAccepted(s: string)
    requires ColorOf(s).Some?
    ensures ColorOk(ColorOf(s).value)
  {
    hide Field, Number, PaletteOf, EffectNamed, HexRgb;
    if s != "" && s[0] == '#' {
      HexRgbBound(s[1..]);
    } else {
      var (name, s1) := Field(At(s), ':', 12).value;
      var (speed, s2) := Field(s1, ':', 4).value;
      var (palette, s3) := Field(s2, ':', PALETTE_MAX + 1).value;
      var (scale, s4) := Field(s3, ':', 4).value;
      FieldShort(s2, ':', PALETTE_MAX + 1);
      PaletteAccepted(palette);
      assert ColorOf(s) == EffectOf(name, speed, palette, scale);
    }
  }

  lemma GridAccepted(s: string)
    requires GridOf(s).Some?
    ensures var (cols, rows, i) := GridOf(s).value; 1 <= cols && 1 <= rows && cols * rows <= 16
  {
    hide Strtol;
  }

  lemma GeometryAccepted(s: string, d: Config)
    requires GeometryOf(s, d).Some?
    ensures var c := GeometryOf(s, d).value;
            && 1 <= c.width && 1 <= c.height && 1 <= c.gridX && 1 <= c.gridY && c.gridX * c.gridY <= 16
            && c == d.(width := c.width, height := c.height, flipX := c.flipX, flipY := c.flipY,
                       gridX := c.gridX, gridY := c.gridY, serpentine := c.serpentine)
  {
    hide Field, Number, LayoutOf, GridOf;
    var (w, s1) := Field(At(s), ':', 16).value;
    var (h, s2) := Field(s1, ':', 16).value;
    var (l, s3) := Field(s2, ':', 16).value;
    var (g, s4) := Field(s3, ':', 16).value;
    if g != "" {
      GridAccepted(g);
    }
  }

  lemma ClockAccepted(s: Cursor, d: Config)
    requires ClockParts(s, d).Some? && d.clockKhz == 500 && d.depth == DEPTH_DEFAULT
    ensures var c := ClockParts(s, d).value;
            && CLOCK_MIN_KHZ <= c.clockKhz <= CLOCK_MAX_KHZ && 1 <= c.depth <= MAX_DEPTH
            && c == d.(clockKhz := c.clockKhz, chip := c.chip, depth := c.depth)
  {
    hide Field, Number, ChipNamed;
  }

  lemma ChainPartAccepted(s: Cursor, d: Config)
    requires ChainPart(s, d).Some? && d.segment == 0 && d.clockKhz == 500 && d.depth == DEPTH_DEFAULT
    ensures var c := ChainPart(s, d).value;
            && c.segment <= 255 && CLOCK_MIN_KHZ <= c.clockKhz <= CLOCK_MAX_KHZ && 1 <= c.depth <= MAX_DEPTH
            && c == d.(farFirst := c.farFirst, segment := c.segment, zigzag := c.zigzag,
                       clockKhz := c.clockKhz, chip := c.chip, depth := c.depth)
  {
    hide Field, ChainOf, ClockParts;
    var (chainText, s2) := Field(s, ':', 16).value;
    if chainText == "" {
      ClockAccepted(s2, d);
    } else {
      ChainAccepted(chainText);
      var (farFirst, segment, zigzag) := ChainOf(chainText).value;
      ClockAccepted(s2, d.(farFirst := farFirst, segment := segment, zigzag := zigzag));
    }
  }

  lemma PartsAccepted(s: Cursor, d: Config)
    requires ProtocolParts(s, d).Some? && d.scan == 8 && d.segment == 0 && d.clockKhz == 500 && d.depth == DEPTH_DEFAULT
    ensures var c := ProtocolParts(s, d).value;
            && c.scan in {2, 4, 8, 16, 32} && c.segment <= 255
            && CLOCK_MIN_KHZ <= c.clockKhz <= CLOCK_MAX_KHZ && 1 <= c.depth <= MAX_DEPTH
            && c == d.(scan := c.scan, farFirst := c.farFirst, segment := c.segment, zigzag := c.zigzag,
                       clockKhz := c.clockKhz, chip := c.chip, depth := c.depth)
  {
    hide Field, PowerOfTwo, ChainPart;
    var (scanText, s1) := Field(s, ':', 16).value;
    PowersOfTwo(scanText);
    ChainPartAccepted(s1, d.(scan := if scanText == "" then d.scan else PowerOfTwo(scanText).value));
  }

  lemma ProtocolAccepted(s: string, d: Config)
    requires ProtocolOf(s, d).Some? && d.scan == 8 && d.segment == 0 && d.clockKhz == 500 && d.depth == DEPTH_DEFAULT
    ensures var c := ProtocolOf(s, d).value;
            && c.scan in {2, 4, 8, 16, 32} && c.segment <= 255
            && CLOCK_MIN_KHZ <= c.clockKhz <= CLOCK_MAX_KHZ && 1 <= c.depth <= MAX_DEPTH
            && c == d.(scan := c.scan, farFirst := c.farFirst, segment := c.segment, zigzag := c.zigzag,
                       clockKhz := c.clockKhz, chip := c.chip, depth := c.depth)
  {
    hide PresetNamed, ProtocolParts;
    if PresetNamed(s, 0).Some? {
      PresetScans(s, 0);
    } else {
      PartsAccepted(At(s), d);
    }
  }

  lemma ChainAccepted(s: string)
    requires ChainOf(s).Some?
    ensures ChainOf(s).value.1 <= 255
  {
    hide Strtol;
  }

  lemma {:induction false} PresetScans(name: string, i: nat)
    requires i <= |PRESETS| && PresetNamed(name, i).Some?
    ensures PresetNamed(name, i).value.0 in {4, 8, 16, 32}
    decreases |PRESETS| - i
  {
    if name != PRESETS[i].0 {
      PresetScans(name, i + 1);
    }
  }

  lemma FieldsAccepted(s: string)
    requires FieldsOf(s).Some?
    ensures Accepted(FieldsOf(s).value)
  {
    hide Field, GeometryOf, ProtocolOf, ColorOf, Number;
    var (g, s1) := Field(At(s), ',', 32).value;
    var c1 := if g == "" then DEFAULT else GeometryOf(g, DEFAULT).value;
    if g != "" { GeometryAccepted(g, DEFAULT); }
    var (p, s2) := Field(s1, ',', 32).value;
    if p != "" { ProtocolAccepted(p, c1); }
    var (k, s3) := Field(s2, ',', 32).value;
    if k != "" { ColorAccepted(k); }
    var (o, s4) := Field(s3, ',', 32).value;
    if o != "" { ColorAccepted(o); }
  }

  /** Everything the parser accepts meets the geometry rules and ranges the driver relies on. */
  lemma ParsedIsAccepted(value: string)
    requires ConfigOf(value).Enabled?
    ensures Accepted(ConfigOf(value).c)
  {
    FieldsAccepted(TrimLeft(value));
    hide FieldsOf, Accepted;
  }

  /** The value that is stored for one that is set: printed out, empty when it disables the panel. */
  function Normalized(value: string): Option<string> {
    match ConfigOf(value)
    case Malformed => None
    case Disabled => Some("")
    case Enabled(c) =>
      ParsedIsAccepted(value);
      Some(ConfigText(c))
  }

  /** Normalizing keeps what a value means, fits the store, and is idempotent. */
  lemma NormalizedMeansTheSame(value: string)
    requires Normalized(value).Some?
    ensures ConfigOf(Normalized(value).value) == ConfigOf(value)
    ensures Normalized(Normalized(value).value) == Normalized(value)
    ensures |Normalized(value).value| < VALUE_LEN
  {
    if ConfigOf(value).Enabled? {
      ParsedIsAccepted(value);
      ConfigRoundTrip(ConfigOf(value).c);
      ConfigTextFits(ConfigOf(value).c);
    }
    hide FieldsOf, Accepted, ConfigText;
  }

  // ---- what the parser doesn't check ----

  /** A display one pixel wide and 1024 high on one panel with two row addresses. */
  function TallPanel(): (c: Config)
    ensures Accepted(c) && RowBlocks(c) == 256
  {
    DEFAULT.(width := 1, height := 1024, scan := 2)
  }

  /** The parser accepts configurations whose rows sharing an address don't fit a byte. */
  lemma RowBlocksUnchecked()
    ensures exists value: string ::
              ConfigOf(value).Enabled? && GeometryOk(ConfigOf(value).c) && RowBlocks(ConfigOf(value).c) == 256
  {
    var c := TallPanel();
    hide TallPanel, ConfigOf, ConfigText, RowBlocks;
    ConfigRoundTrip(c);
    ParsedIsAccepted(ConfigText(c));
    assert ConfigOf(ConfigText(c)).Enabled? && RowBlocks(ConfigOf(ConfigText(c)).c) == 256;
  }
}
