/** The parsers and printers step by step: cursors advanced, fields of the configuration filled in. */
module Hub75Parser {
  import opened Options
  import opened Text
  import opened Hub75Config
  import opened Hub75Text

  // ---- loops over one field ----

  lemma {:induction false} CountInGrows(s: string, letters: string, i: nat)
    requires i <= |s|
    ensures CountIn(s[..i], letters) <= CountIn(s, letters)
    decreases |s| - i
  {
    if i == |s| {
      assert s[..i] == s;
    } else {
      assert s[..i + 1][..i] == s[..i];
      CountInGrows(s, letters, i + 1);
    }
  }

  method ParseLayout(s: string) returns (r: Option<(bool, bool)>)
    ensures r == LayoutOf(s)
  {
    var haveX, haveY, flipX, flipY := false, false, false, false;
    for i := 0 to |s|
      invariant forall j | 0 <= j < i :: s[j] in "lrtb"
      invariant CountIn(s[..i], "lr") == if haveX then 1 else 0
      invariant CountIn(s[..i], "tb") == if haveY then 1 else 0
      invariant flipX <==> 'r' in s[..i]
      invariant flipY <==> 'b' in s[..i]
    {
      CountInGrows(s, "lr", i + 1);
      CountInGrows(s, "tb", i + 1);
      assert s[..i + 1][..i] == s[..i];
      if (s[i] == 'l' || s[i] == 'r') && !haveX {
        flipX, haveX := s[i] == 'r', true;
        assert 'r' !in s[..i] by { NoneCounted(s[..i], "lr", 'r'); }
      } else if (s[i] == 't' || s[i] == 'b') && !haveY {
        flipY, haveY := s[i] == 'b', true;
        assert 'b' !in s[..i] by { NoneCounted(s[..i], "tb", 'b'); }
      } else {
        return None;
      }
    }
    assert s[..|s|] == s;
    r := Some((flipX, flipY));
  }

  lemma {:induction false} NoneCounted(s: string, letters: string, c: char)
    requires c in letters && CountIn(s, letters) == 0
    ensures c !in s
  {
    if s == [] {
    } else {
      NoneCounted(s[..|s| - 1], letters, c);
    }
  }

  method FindEffect(name: string) returns (r: Option<Effect>)
    ensures r == EffectNamed(name, 0)
  {
    for i := 0 to |EFFECTS|
      invariant EffectNamed(name, 0) == EffectNamed(name, i)
    {
      if name == EFFECTS[i].0 {
        return Some(EFFECTS[i].1);
      }
    }
    r := None;
  }

  method FindChip(name: string) returns (r: Option<Chip>)
    ensures r == ChipNamed(name, 0)
  {
    for i := 0 to |CHIPS|
      invariant ChipNamed(name, 0) == ChipNamed(name, i)
    {
      if name == CHIPS[i].0 {
        return Some(CHIPS[i].1);
      }
    }
    r := None;
  }

  method FindPreset(name: string) returns (r: Option<(nat, bool)>)
    ensures r == PresetNamed(name, 0)
  {
    for i := 0 to |PRESETS|
      invariant PresetNamed(name, 0) == PresetNamed(name, i)
    {
      if name == PRESETS[i].0 {
        return Some((PRESETS[i].1, PRESETS[i].2));
      }
    }
    r := None;
  }

  lemma {:induction false} PaletteStops(s: string, i: nat)
    requires i <= |s| && PaletteOf(s[..i]) == None
    ensures PaletteOf(s) == None
    decreases |s| - i
  {
    if i == |s| {
      assert s[..i] == s;
    } else {
      assert s[..i + 1][..i] == s[..i];
      PaletteStops(s, i + 1);
    }
  }

  method ParsePalette(s: string) returns (r: Option<seq<nat>>)
    ensures r == PaletteOf(s)
  {
    var palette: seq<nat> := [];
    for i := 0 to |s|
      invariant PaletteOf(s[..i]) == Some(palette)
    {
      assert s[..i + 1][..i] == s[..i];
      var at := LetterAt(s[i]);
      if at == 8 {
        PaletteStops(s, i + 1);
        return None;
      }
      palette := palette + [at];
    }
    assert s[..|s|] == s;
    r := Some(palette);
  }

  lemma {:induction false} HexStops(s: string, i: nat)
    requires i <= |s| <= 6 && HexRgb(s[..i]) == None
    ensures HexRgb(s) == None
    decreases |s| - i
  {
    if i == |s| {
      assert s[..i] == s;
    } else {
      assert s[..i + 1][..i] == s[..i];
      HexStops(s, i + 1);
    }
  }

  method ParseHex(s: string) returns (r: Option<nat>)
    requires |s| <= 6
    ensures r == HexRgb(s)
  {
    var v: nat := 0;
    for n := 0 to |s|
      invariant HexRgb(s[..n]) == Some(v)
    {
      assert s[..n + 1][..n] == s[..n];
      var d := HexValue(s[n]);
      if d.None? {
        HexStops(s, n + 1);
        return None;
      }
      v := v + d.value * HEX_WEIGHTS[n];
    }
    assert s[..|s|] == s;
    r := Some(v);
  }

  // ---- fields in turn ----

  method ParseColor(s: string) returns (r: Option<Color>)
    ensures r == ColorOf(s)
  {
    if s == "" || s[0] != '#' {
      var cursor := At(s);
      var name := NextField(cursor, ':', 12);
      if name.None? { return None; }
      cursor := name.value.1;
      var speed := NextField(cursor, ':', 4);
      if speed.None? { return None; }
      cursor := speed.value.1;
      var palette := NextField(cursor, ':', PALETTE_MAX + 1);
      if palette.None? { return None; }
      cursor := palette.value.1;
      var scale := NextField(cursor, ':', 4);
      if scale.None? || scale.value.1 != End { return None; }
      r := ParseEffect(name.value.0, speed.value.0, palette.value.0, scale.value.0);
      return;
    }
    if |s| > 7 {
      return None;
    }
    var rgb := ParseHex(s[1..]);
    if rgb.None? { return None; }
    r := Some(Fixed(rgb.value));
  }

  method ParseEffect(name: string, speedText: string, paletteText: string, scaleText: string) returns (r: Option<Color>)
    ensures r == EffectOf(name, speedText, paletteText, scaleText)
  {
    hide Number;
    var effect := FindEffect(name);
    if effect.None? { return None; }
    var speed, scale := DefaultSpeed(effect.value), SCALE_DEFAULT;
    if speedText != "" {
      var v := Number(speedText, 1, EFFECT_SPEED_MAX);
      if DefaultSpeed(effect.value) == 0 || v.None? { return None; }
      speed := v.value;
    }
    var palette := ParsePalette(paletteText);
    if palette.None? { return None; }
    if scaleText != "" {
      var v := Number(scaleText, 1, SCALE_MAX);
      if v.None? { return None; }
      scale := v.value;
    }
    r := Some(Animated(effect.value, speed, palette.value, scale));
  }

  method ParseGeometry(s: string, d: Config) returns (r: Option<Config>)
    ensures r == GeometryOf(s, d)
  {
    hide Field, Number, LayoutOf, GridOf;
    var c, cursor := d, At(s);
    var width := NextField(cursor, ':', 16);
    if width.None? { return None; }
    var w := Number(width.value.0, 1, MAX_PIXELS);
    if w.None? { return None; }
    cursor := width.value.1;
    var height := NextField(cursor, ':', 16);
    if height.None? { return None; }
    var h := Number(height.value.0, 1, MAX_PIXELS);
    if h.None? { return None; }
    cursor := height.value.1;
    var layout := NextField(cursor, ':', 16);
    if layout.None? { return None; }
    var flips := ParseLayout(layout.value.0);
    if flips.None? { return None; }
    c := c.(flipX := flips.value.0, flipY := flips.value.1);
    cursor := layout.value.1;
    c := c.(gridX := 1, gridY := 1, serpentine := false);
    var grid := NextField(cursor, ':', 16);
    if grid.None? || grid.value.1 != End { return None; }
    if grid.value.0 != "" {
      var g := GridOf(grid.value.0);
      if g.None? { return None; }
      c := c.(gridX := g.value.0, gridY := g.value.1, serpentine := g.value.2);
    }
    r := Some(c.(width := w.value, height := h.value));
  }

  method ParseProtocol(s: string, d: Config) returns (r: Option<Config>)
    ensures r == ProtocolOf(s, d)
  {
    hide Field, PowerOfTwo, PresetNamed, ChainPart;
    var c, cursor := d, At(s);
    var preset := FindPreset(s);
    if preset.Some? {
      c := c.(scan := preset.value.0, farFirst := preset.value.1, segment := 0, zigzag := false);
      return Some(c.(clockKhz := 500, chip := Shift, depth := DEPTH_DEFAULT));
    }
    var field := NextField(cursor, ':', 16);
    if field.None? { return None; }
    if field.value.0 != "" {
      var v := PowerOfTwo(field.value.0);
      if v.None? { return None; }
      c := c.(scan := v.value);
    }
    r := ParseChain(field.value.1, c);
  }

  method ParseChain(from: Cursor, d: Config) returns (r: Option<Config>)
    ensures r == ChainPart(from, d)
  {
    hide Field, ChainOf, ClockParts;
    var c := d;
    var field := NextField(from, ':', 16);
    if field.None? { return None; }
    if field.value.0 != "" {
      var chain := ChainOf(field.value.0);
      if chain.None? { return None; }
      c := c.(farFirst := chain.value.0, segment := chain.value.1, zigzag := chain.value.2);
    }
    r := ParseClock(field.value.1, c);
  }

  /** The protocol's last three parts. */
  method ParseClock(from: Cursor, d: Config) returns (r: Option<Config>)
    ensures r == ClockParts(from, d)
  {
    hide Field, Number, ChipNamed, DepthPart;
    var c, cursor := d, from;
    var field := NextField(cursor, ':', 16);
    if field.None? { return None; }
    if field.value.0 != "" {
      var v := Number(field.value.0, CLOCK_MIN_KHZ, CLOCK_MAX_KHZ);
      if v.None? { return None; }
      c := c.(clockKhz := v.value);
    }
    cursor := field.value.1;
    field := NextField(cursor, ':', 16);
    if field.None? { return None; }
    if field.value.0 != "" {
      var chip := FindChip(field.value.0);
      if chip.None? { return None; }
      c := c.(chip := chip.value);
    }
    r := ParseDepth(field.value.1, c);
  }

  method ParseDepth(from: Cursor, d: Config) returns (r: Option<Config>)
    ensures r == DepthPart(from, d)
  {
    hide Field, Number;
    var field := NextField(from, ':', 16);
    if field.None? || field.value.1 != End { return None; }
    if field.value.0 == "" {
      return Some(d);
    }
    var v := Number(field.value.0, 1, MAX_DEPTH);
    if v.None? { return None; }
    r := Some(d.(depth := v.value));
  }

  /** A stored or newly set value: disabled, malformed, or the configuration it spells out over the default. */
  method ParseConfig(value: string) returns (r: Parsed)
    ensures r == ConfigOf(value)
    ensures r.Enabled? ==> Accepted(r.c)
  {
    var from := 0;
    assert value[0..] == value;
    while from < |value| && value[from] == ' '
      invariant 0 <= from <= |value| && TrimLeft(value) == TrimLeft(value[from..])
    {
      assert value[from..][1..] == value[from + 1..];
      from := from + 1;
    }
    assert TrimLeft(value) == value[from..];
    if from == |value| {
      return Disabled;
    }
    var fields := ParseFields(value[from..]);
    if fields.None? { return Malformed; }
    ParsedIsAccepted(value);
    r := Enabled(fields.value);
  }

  method ParseFields(s: string) returns (r: Option<Config>)
    ensures r == FieldsOf(s)
  {
    hide Field, GeometryOf, ProtocolOf, ColorOf, Number, Checked;
    var c, cursor := DEFAULT, At(s);
    var field := NextField(cursor, ',', 32);
    if field.None? { return None; }
    if field.value.0 != "" {
      var g := ParseGeometry(field.value.0, c);
      if g.None? { return None; }
      c := g.value;
    }
    cursor := field.value.1;
    field := NextField(cursor, ',', 32);
    if field.None? { return None; }
    if field.value.0 != "" {
      var p := ParseProtocol(field.value.0, c);
      if p.None? { return None; }
      c := p.value;
    }
    cursor := field.value.1;
    field := NextField(cursor, ',', 32);
    if field.None? { return None; }
    var color := c.color;
    if field.value.0 != "" {
      var k := ParseColor(field.value.0);
      if k.None? { return None; }
      color := k.value;
    }
    cursor := field.value.1;
    field := NextField(cursor, ',', 32);
    if field.None? { return None; }
    var offColor := c.offColor;
    if field.value.0 != "" {
      var k := ParseColor(field.value.0);
      if k.None? { return None; }
      offColor := k.value;
    }
    cursor := field.value.1;
    field := NextField(cursor, ',', 32);
    if field.None? { return None; }
    var brightness := c.brightness;
    if field.value.0 != "" {
      var v := Number(field.value.0, 0, BRIGHTNESS_MAX);
      if v.None? { return None; }
      brightness := v.value;
    }
    if field.value.1 != End { return None; }
    r := Checked(c.(color := color, offColor := offColor, brightness := brightness));
  }

  // ---- printing ----

  /** What snprintf leaves in a buffer: the text, cut to fit with its NUL. */
  function Printed(text: string, bufLen: nat): string
    requires 0 < bufLen
  {
    if |text| < bufLen then text else text[..bufLen - 1]
  }

  /** The name an effect is printed with: the first of its names. */
  method FirstName(e: Effect) returns (name: string)
    ensures name == EffectName(e)
  {
    for i := 0 to |EFFECTS|
      invariant i <= EffectIndex(e)
    {
      if EFFECTS[i].1 == e {
        EffectOrder(e, i);
        return EFFECTS[i].0;
      }
      assert i != EffectIndex(e);
    }
    assert false;
  }

  lemma EffectOrder(e: Effect, i: nat)
    requires i <= EffectIndex(e) && EFFECTS[i].1 == e
    ensures EFFECTS[i].0 == EffectName(e)
  {
  }

  method FormatPalette(p: seq<nat>) returns (s: string)
    requires forall i | 0 <= i < |p| :: p[i] < 8
    ensures s == PaletteText(p)
  {
    s := "";
    for j := 0 to |p|
      invariant s == PaletteText(p)[..j]
    {
      s := s + [PALETTE_LETTERS[p[j]]];
    }
  }

  method FormatColor(k: Color, bufLen: nat) returns (buf: string)
    requires ColorOk(k) && 0 < bufLen
    ensures buf == Printed(ColorText(k), bufLen)
  {
    hide HexText, Decimal, PaletteText, EffectName, EffectText;
    if k.Fixed? {
      return Printed("#" + HexText(k.rgb), bufLen);
    }
    var name := FirstName(k.effect);
    var palette := FormatPalette(k.palette);
    var speed := if k.speed != DefaultSpeed(k.effect) then Decimal(k.speed) else "";
    var scale := if k.scale != SCALE_DEFAULT then Decimal(k.scale) else "";
    buf := Printed(EffectText(name, speed, palette, scale), bufLen);
  }

  /** Every part spelled out; the pieces' own buffers cut nothing off. */
  method FormatConfig(c: Config, bufLen: nat) returns (buf: string)
    requires Accepted(c) && bufLen == VALUE_LEN
    ensures buf == ConfigText(c)
  {
    hide GeometryText, ChainText, ColorText, Decimal, ChipName;
    ConfigTextFits(c);
    var chain := Printed(ChainText(c), 8);
    var color := FormatColor(c.color, 32);
    var offColor := FormatColor(c.offColor, 32);
    var protocol := Decimal(c.scan) + ":" +
      (chain + ":" + (Decimal(c.clockKhz) + ":" + (ChipName(c.chip) + ":" + Decimal(c.depth))));
    var text := GeometryText(c) + "," + (protocol + "," + (color + "," + (offColor + "," + Decimal(c.brightness))));
    buf := Printed(text, bufLen);
  }
}
