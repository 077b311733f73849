/** What the text of a configuration may leave out, and the short forms it may use: each means the same as a text that
    spells everything out. */
module Hub75Defaults {
  import opened Options
  import opened Text
  import opened Hub75Config
  import opened Hub75Text

  // ---- texts of fields ----

  function Joined(fields: seq<string>, sep: char): string {
    if fields == [] then "" else if |fields| == 1 then fields[0] else fields[0] + [sep] + Joined(fields[1..], sep)
  }

  /** Fields with the empty and the missing ones filled in. */
  function Filled(fields: seq<string>, defaults: seq<string>): (filled: seq<string>)
    ensures |filled| == |defaults|
  {
    seq(|defaults|, i requires 0 <= i < |defaults| =>
      if i < |fields| && fields[i] != "" then fields[i] else defaults[i])
  }

  predicate AllPlain(fields: seq<string>, sep: char) {
    forall i | 0 <= i < |fields| :: Plain(fields[i], sep)
  }

  predicate AllShort(fields: seq<string>, outLen: nat) {
    forall i | 0 <= i < |fields| :: |fields[i]| < outLen
  }

  // The default configuration's text and its protocol, field by field.
  const FIELDS: seq<string> := ["64:32:rt:1x1", "8:n:500:shift:4", "#ff0000", "#000000", "512"]
  const PARTS: seq<string> := ["8", "n", "500", "shift", "4"]

  lemma DefaultsJoined()
    ensures Joined(FIELDS, ',') == DEFAULT_TEXT && Joined(PARTS, ':') == FIELDS[1]
  {
    var f, p := FIELDS, PARTS;
    assert f[1..][1..][1..][1..] == ["512"] && p[1..][1..][1..][1..] == ["4"];
  }

  function Cursors(fields: seq<string>, sep: char): Cursor {
    if fields == [] then End else At(Joined(fields, sep))
  }

  function First(fields: seq<string>): string {
    if fields == [] then "" else fields[0]
  }

  function Rest(fields: seq<string>): seq<string> {
    if fields == [] then [] else fields[1..]
  }

  /** Reading a joined text gives its fields one by one, then empty ones. */
  lemma FieldOfJoined(fields: seq<string>, sep: char, outLen: nat)
    requires AllPlain(fields, sep) && 0 < outLen
    ensures AllPlain(Rest(fields), sep)
    ensures AllShort(fields, outLen) <==> AllShort(Rest(fields), outLen) && |First(fields)| < outLen
    ensures Field(Cursors(fields, sep), sep, outLen)
         == if |First(fields)| < outLen then Some((First(fields), Cursors(Rest(fields), sep))) else None
  {
    if fields != [] {
      var a := fields[0];
      assert fields == [a] + fields[1..];
      if |a| < outLen {
        FieldHead(a, sep, Joined(fields[1..], sep), outLen);
      } else {
        FieldTooLong(a, sep, Joined(fields[1..], sep), outLen);
      }
    }
  }

  lemma FieldTooLong(a: string, sep: char, rest: string, outLen: nat)
    requires Plain(a, sep) && outLen <= |a|
    ensures Field(At(a + [sep] + rest), sep, outLen) == None && Field(At(a), sep, outLen) == None
  {
    IndexOfHead(a, sep, rest);
    PlainTrims(a, sep);
    assert (a + [sep] + rest)[..|a|] == a && a[..|a|] == a;
  }

  function FieldNo(fields: seq<string>, i: nat): string {
    if i < |fields| then fields[i] else ""
  }

  /** A joined text's configuration is put together from its fields, if they fit and there are no more than five. */
  lemma FieldsOfJoined(fields: seq<string>)
    requires fields != [] && AllPlain(fields, ',')
    ensures FieldsOf(Joined(fields, ','))
         == if |fields| <= 5 && AllShort(fields, 32)
            then Assembled(FieldNo(fields, 0), FieldNo(fields, 1), FieldNo(fields, 2), FieldNo(fields, 3),
                           FieldNo(fields, 4))
            else None
  {
    hide Field, Plain, Assembled, Joined;
    var f1, f2, f3, f4 := Rest(fields), Rest(Rest(fields)), Rest(Rest(Rest(fields))), Rest(Rest(Rest(Rest(fields))));
    FieldOfJoined(fields, ',', 32);
    FieldOfJoined(f1, ',', 32);
    FieldOfJoined(f2, ',', 32);
    FieldOfJoined(f3, ',', 32);
    FieldOfJoined(f4, ',', 32);
  }

  lemma {:induction false} NoSpaces(fields: seq<string>, sep: char)
    requires AllPlain(fields, sep) && sep != ' '
    ensures ' ' !in Joined(fields, sep)
  {
    if |fields| > 1 {
      NoSpaces(fields[1..], sep);
    }
  }

  /** What a configuration's text means, field by field. */
  lemma ConfigOfJoined(fields: seq<string>)
    requires fields != [] && AllPlain(fields, ',') && Joined(fields, ',') != ""
    ensures var read := if |fields| <= 5 && AllShort(fields, 32)
                        then Assembled(FieldNo(fields, 0), FieldNo(fields, 1), FieldNo(fields, 2), FieldNo(fields, 3),
                                       FieldNo(fields, 4))
                        else None;
            ConfigOf(Joined(fields, ',')) == if read.Some? then Enabled(read.value) else Malformed
  {
    hide FieldsOf, Assembled, Joined, Plain, AllPlain, AllShort, FieldNo;
    NoSpaces(fields, ',');
    FieldsOfJoined(fields);
    assert TrimLeft(Joined(fields, ',')) == Joined(fields, ',');
  }

  // ---- the default ----

  lemma DefaultGeometryText()
    ensures GeometryText(DEFAULT) == "64:32:rt:1x1"
  {
    assert Decimal(64) == "64" && Decimal(32) == "32" && Decimal(1) == "1";
  }

  lemma DefaultProtocolText()
    ensures ProtocolText(DEFAULT) == "8:n:500:shift:4"
  {
    assert Decimal(5) == "5" && Decimal(50) == "50" && Decimal(500) == "500" && Decimal(8) == "8" && Decimal(4) == "4";
    assert ChainText(DEFAULT) == "n";
  }

  lemma DefaultColorTexts()
    ensures ColorText(DEFAULT.color) == "#ff0000" && ColorText(DEFAULT.offColor) == "#000000"
  {
    assert HexDigit(15) == 'f' && HexDigit(0) == '0';
    hide HexDigit;
    assert HexText(0xff0000) == "ff0000" && HexText(0) == "000000";
  }

  lemma DefaultBrightnessText()
    ensures Decimal(512) == "512"
  {
    assert Decimal(5) == "5" && Decimal(51) == "51";
  }

  /** The text of the default, as it is persisted for a device that was never configured. */
  lemma DefaultText()
    ensures Accepted(DEFAULT) && ConfigText(DEFAULT) == DEFAULT_TEXT
    ensures ConfigOf(DEFAULT_TEXT) == Enabled(DEFAULT)
  {
    assert Accepted(DEFAULT);
    hide GeometryText, ProtocolText, ColorText, Decimal, ConfigOf, Accepted;
    DefaultGeometryText();
    DefaultProtocolText();
    DefaultColorTexts();
    DefaultBrightnessText();
    ConfigRoundTrip(DEFAULT);
  }

  lemma DefaultAccepted()
    ensures Accepted(DEFAULT)
  {
  }

  lemma DefaultGeometry()
    ensures GeometryOf(FIELDS[0], DEFAULT) == Some(DEFAULT)
  {
    hide GeometryOf, GeometryText, Accepted;
    DefaultAccepted();
    DefaultGeometryText();
    GeometryRoundTrip(DEFAULT, DEFAULT);
  }

  /** The default's protocol, whatever the geometry. */
  predicate DefaultProtocol(c: Config) {
    c == c.(scan := 8, farFirst := false, segment := 0, zigzag := false, clockKhz := 500, chip := Shift,
            depth := DEPTH_DEFAULT)
  }

  lemma DefaultProtocolRead(c: Config)
    requires DefaultProtocol(c)
    ensures ProtocolOf(FIELDS[1], c) == Some(c)
  {
    hide ProtocolOf, ProtocolText, Accepted;
    DefaultAccepted();
    DefaultProtocolText();
    ProtocolRoundTrip(DEFAULT, c);
  }

  lemma DefaultRestRead()
    ensures ColorOf(FIELDS[2]) == Some(DEFAULT.color) && ColorOf(FIELDS[3]) == Some(DEFAULT.offColor)
    ensures Number(FIELDS[4], 0, BRIGHTNESS_MAX) == Some(DEFAULT.brightness)
  {
    hide ColorOf, Number, ColorText, Decimal;
    DefaultColorTexts();
    DefaultBrightnessText();
    ColorRoundTrip(DEFAULT.color);
    ColorRoundTrip(DEFAULT.offColor);
    NumberDecimal(DEFAULT.brightness, 0, BRIGHTNESS_MAX);
  }

  // ---- empty and missing fields ----

  /** A field's default, read over the default, changes nothing: so an empty one means the same. */
  lemma FilledAssembles(g: string, p: string, k: string, o: string, b: string)
    ensures Assembled(g, p, k, o, b)
         == Assembled(if g != "" then g else FIELDS[0], if p != "" then p else FIELDS[1],
                      if k != "" then k else FIELDS[2], if o != "" then o else FIELDS[3],
                      if b != "" then b else FIELDS[4])
  {
    DefaultGeometry();
    DefaultRestRead();
    var c1 := if g == "" then Some(DEFAULT) else GeometryOf(g, DEFAULT);
    hide GeometryOf, ProtocolOf, ColorOf, Number, Checked;
    if c1.Some? {
      if g != "" { GeometryAccepted(g, DEFAULT); }
      DefaultProtocolRead(c1.value);
      if p != "" && ProtocolOf(p, c1.value).Some? { ProtocolAccepted(p, c1.value); }
    }
  }

  /** Any of a configuration's fields that is empty, or missing at the end, is the default's. */
  lemma EmptyFieldsTakeDefaults(fields: seq<string>)
    requires 1 <= |fields| <= 5 && AllPlain(fields, ',') && AllShort(fields, 32) && Joined(fields, ',') != ""
    ensures ConfigOf(Joined(fields, ',')) == ConfigOf(Joined(Filled(fields, FIELDS), ','))
  {
    hide Joined, Plain, Assembled, ConfigOf;
    var filled := Filled(fields, FIELDS);
    FieldsPlain();
    assert filled[0] != "" && |filled| == 5;
    JoinedSome(filled, ',');
    ConfigOfJoined(fields);
    ConfigOfJoined(filled);
    FilledAssembles(FieldNo(fields, 0), FieldNo(fields, 1), FieldNo(fields, 2), FieldNo(fields, 3), FieldNo(fields, 4));
  }

  lemma FieldsPlain()
    ensures |FIELDS| == 5 && AllPlain(FIELDS, ',') && AllShort(FIELDS, 32)
    ensures forall i | 0 <= i < 5 :: FIELDS[i] != ""
  {
  }

  lemma JoinedSome(fields: seq<string>, sep: char)
    requires |fields| > 1
    ensures Joined(fields, sep) != ""
  {
  }

  /** More fields than five, or one that doesn't fit its buffer, and the text is malformed. */
  lemma MalformedFields(fields: seq<string>)
    requires fields != [] && AllPlain(fields, ',') && Joined(fields, ',') != ""
    requires |fields| > 5 || exists i | 0 <= i < |fields| :: |fields[i]| >= 32
    ensures ConfigOf(Joined(fields, ',')) == Malformed
  {
    ConfigOfJoined(fields);
    hide ConfigOf, Assembled, Joined, Plain;
  }

  // ---- parts of a protocol ----

  function ReadClock(clock: string, chip: string, depth: string, c: Config): Option<Config> {
    var clockKhz :- if clock == "" then Some(c.clockKhz as int) else Number(clock, CLOCK_MIN_KHZ, CLOCK_MAX_KHZ);
    var driver :- if chip == "" then Some(c.chip) else ChipNamed(chip, 0);
    var bits :- if depth == "" then Some(c.depth as int) else Number(depth, 1, MAX_DEPTH);
    Some(c.(clockKhz := clockKhz, chip := driver, depth := bits))
  }

  /** A configuration with the parts that aren't empty read over it. */
  function ReadParts(scan: string, chain: string, clock: string, chip: string, depth: string, c: Config)
    : Option<Config>
  {
    var rows :- if scan == "" then Some(c.scan as int) else PowerOfTwo(scan);
    var (farFirst, segment, zigzag) :-
      if chain == "" then Some((c.farFirst, c.segment, c.zigzag)) else ChainOf(chain);
    ReadClock(clock, chip, depth, c.(scan := rows, farFirst := farFirst, segment := segment, zigzag := zigzag))
  }

  lemma DepthOfJoined(parts: seq<string>, c: Config)
    requires AllPlain(parts, ':') && AllShort(parts, 16)
    ensures DepthPart(Cursors(parts, ':'), c)
         == if |parts| <= 1 then ReadClock("", "", First(parts), c) else None
  {
    hide Field, Number, Joined, Plain;
    FieldOfJoined(parts, ':', 16);
  }

  lemma ClockOfJoined(parts: seq<string>, c: Config)
    requires AllPlain(parts, ':') && AllShort(parts, 16)
    ensures ClockParts(Cursors(parts, ':'), c)
         == if |parts| <= 3 then ReadClock(First(parts), First(Rest(parts)), First(Rest(Rest(parts))), c) else None
  {
    hide Field, Number, Joined, Plain, ChipNamed, DepthPart, AllPlain, AllShort;
    FieldOfJoined(parts, ':', 16);
    FieldOfJoined(Rest(parts), ':', 16);
    var rest := Rest(Rest(parts));
    var clock := if First(parts) == "" then Some(c.clockKhz as int)
                 else Number(First(parts), CLOCK_MIN_KHZ, CLOCK_MAX_KHZ);
    var chip := if First(Rest(parts)) == "" then Some(c.chip) else ChipNamed(First(Rest(parts)), 0);
    if clock.Some? && chip.Some? {
      DepthOfJoined(rest, c.(clockKhz := clock.value, chip := chip.value));
    }
  }

  lemma InTurn(parts: seq<string>)
    ensures FieldNo(parts, 0) == First(parts) && FieldNo(parts, 1) == First(Rest(parts))
    ensures var rest := Rest(Rest(parts));
            && FieldNo(parts, 2) == First(rest) && FieldNo(parts, 3) == First(Rest(rest))
            && FieldNo(parts, 4) == First(Rest(Rest(rest))) && (|parts| <= 5 <==> |rest| <= 3)
  {
  }

  lemma PartsOfJoined(parts: seq<string>, c: Config)
    requires AllPlain(parts, ':') && AllShort(parts, 16)
    ensures ProtocolParts(Cursors(parts, ':'), c)
         == if |parts| <= 5
            then ReadParts(FieldNo(parts, 0), FieldNo(parts, 1), FieldNo(parts, 2), FieldNo(parts, 3),
                           FieldNo(parts, 4), c)
            else None
  {
    hide Field, Joined, Plain, PowerOfTwo, ChainOf, ClockParts, ReadClock, AllPlain, AllShort, FieldNo, First, Rest,
         Cursors;
    InTurn(parts);
    FieldOfJoined(parts, ':', 16);
    FieldOfJoined(Rest(parts), ':', 16);
    var scan := if First(parts) == "" then Some(c.scan as int) else PowerOfTwo(First(parts));
    var chain :=
      if First(Rest(parts)) == "" then Some((c.farFirst, c.segment, c.zigzag)) else ChainOf(First(Rest(parts)));
    if scan.Some? && chain.Some? {
      ClockOfJoined(Rest(Rest(parts)), c.(scan := scan.value, farFirst := chain.value.0, segment := chain.value.1,
                                          zigzag := chain.value.2));
    }
  }

  lemma ScanAndChainRead()
    ensures PowerOfTwo(PARTS[0]) == Some(8) && ChainOf(PARTS[1]) == Some((false, 0, false))
  {
    assert Decimal(8) == "8";
    ScanRoundTrip(8);
  }

  lemma ClockAndDepthText()
    ensures Decimal(500) == "500" && Decimal(4) == "4"
  {
    assert Decimal(5) == "5" && Decimal(50) == "50";
  }

  lemma ClockAndDepthRead()
    ensures Number(PARTS[2], CLOCK_MIN_KHZ, CLOCK_MAX_KHZ) == Some(500) && Number(PARTS[4], 1, MAX_DEPTH) == Some(4)
  {
    hide Number, Decimal;
    ClockAndDepthText();
    NumberDecimal(500, CLOCK_MIN_KHZ, CLOCK_MAX_KHZ);
    NumberDecimal(4, 1, MAX_DEPTH);
  }

  lemma PartsPlain()
    ensures |PARTS| == 5 && AllPlain(PARTS, ':') && AllShort(PARTS, 16) && forall i | 0 <= i < 5 :: PARTS[i] != ""
    ensures ChipNamed(PARTS[3], 0) == Some(Shift)
  {
  }

  lemma FilledReads(scan: string, chain: string, clock: string, chip: string, depth: string, c: Config)
    requires DefaultProtocol(c)
    ensures ReadParts(scan, chain, clock, chip, depth, c)
         == ReadParts(if scan != "" then scan else PARTS[0], if chain != "" then chain else PARTS[1],
                      if clock != "" then clock else PARTS[2], if chip != "" then chip else PARTS[3],
                      if depth != "" then depth else PARTS[4], c)
  {
    hide PowerOfTwo, ChainOf, Number, ChipNamed;
    ScanAndChainRead();
    ClockAndDepthRead();
    PartsPlain();
  }

  /** A text that isn't a preset's name, as a protocol over the default one. */
  lemma FilledProtocol(parts: seq<string>, c: Config)
    requires 1 <= |parts| <= 5 && AllPlain(parts, ':') && AllShort(parts, 16) && DefaultProtocol(c)
    requires Joined(parts, ':') !in {"4s", "8s", "8sf", "16s", "32s"}
    ensures ProtocolOf(Joined(parts, ':'), c) == ProtocolOf(Joined(Filled(parts, PARTS), ':'), c)
  {
    hide Joined, Plain, ProtocolParts, PresetNamed, ReadParts, AllPlain, AllShort, Filled, FieldNo, DefaultProtocol;
    var filled := Filled(parts, PARTS);
    PartsPlain();
    FilledFields(parts, PARTS);
    NotPreset(Joined(parts, ':'));
    ManyHaveSep(filled, ':');
    NoPreset(Joined(filled, ':'), 0);
    PartsOfJoined(parts, c);
    PartsOfJoined(filled, c);
    FilledReads(FieldNo(parts, 0), FieldNo(parts, 1), FieldNo(parts, 2), FieldNo(parts, 3), FieldNo(parts, 4), c);
  }

  lemma FilledFields(parts: seq<string>, defaults: seq<string>)
    requires AllPlain(parts, ':') && AllShort(parts, 16) && AllPlain(defaults, ':') && AllShort(defaults, 16)
    ensures AllPlain(Filled(parts, defaults), ':') && AllShort(Filled(parts, defaults), 16)
    ensures forall i | 0 <= i < |defaults| ::
              FieldNo(Filled(parts, defaults), i) == if FieldNo(parts, i) != "" then FieldNo(parts, i) else defaults[i]
  {
    hide Plain;
  }

  lemma NotPreset(name: string)
    requires name !in {"4s", "8s", "8sf", "16s", "32s"}
    ensures PresetNamed(name, 0) == None
  {
    assert PRESETS[0].0 == "4s" && PRESETS[1].0 == "8s" && PRESETS[2].0 == "8sf" && PRESETS[3].0 == "16s"
           && PRESETS[4].0 == "32s" && |PRESETS| == 5;
    assert PresetNamed(name, 5) == None;
    assert PresetNamed(name, 4) == None;
    assert PresetNamed(name, 3) == None;
    assert PresetNamed(name, 2) == None;
    assert PresetNamed(name, 1) == None;
  }

  lemma ManyHaveSep(fields: seq<string>, sep: char)
    requires |fields| > 1
    ensures sep in Joined(fields, sep)
  {
    assert Joined(fields, sep)[|fields[0]|] == sep;
  }

  // ---- one field for another ----

  predicate OneField(s: string) {
    Plain(s, ',') && 0 < |s| < 32
  }

  /** A configuration's text with one field replaced. */
  function With(fields: seq<string>, i: nat, field: string): (s: string)
    requires i < |fields|
  {
    Joined(fields[i := field], ',')
  }

  predicate FieldsFit(fields: seq<string>) {
    2 <= |fields| <= 5 && AllPlain(fields, ',') && AllShort(fields, 32)
  }

  function Result(read: Option<Config>): Parsed {
    if read.Some? then Enabled(read.value) else Malformed
  }

  lemma ConfigOfWith(fields: seq<string>, i: nat, a: string)
    requires FieldsFit(fields) && i < |fields| && Plain(a, ',') && |a| < 32
    ensures var f := fields[i := a];
            ConfigOf(With(fields, i, a))
            == Result(Assembled(FieldNo(f, 0), FieldNo(f, 1), FieldNo(f, 2), FieldNo(f, 3), FieldNo(f, 4)))
    ensures forall j: nat | j != i :: FieldNo(fields[i := a], j) == FieldNo(fields, j)
    ensures FieldNo(fields[i := a], i) == a
  {
    var f := fields[i := a];
    JoinedSome(f, ',');
    hide Joined, Plain, Assembled, ConfigOf;
    assert AllPlain(f, ',') && AllShort(f, 32);
    ConfigOfJoined(f);
  }

  lemma SameGeometry(a: string, a': string, p: string, k: string, o: string, b: string)
    requires a != "" && a' != "" && GeometryOf(a, DEFAULT) == GeometryOf(a', DEFAULT)
    ensures Assembled(a, p, k, o, b) == Assembled(a', p, k, o, b)
  {
    hide GeometryOf, ProtocolOf, ColorOf, Number, Checked;
  }

  lemma SameProtocol(g: string, a: string, a': string, k: string, o: string, b: string)
    requires a' != "" && (a == "" ==> a' == FIELDS[1])
    requires a != "" ==> forall c | DefaultProtocol(c) :: ProtocolOf(a, c) == ProtocolOf(a', c)
    ensures Assembled(g, a, k, o, b) == Assembled(g, a', k, o, b)
  {
    hide GeometryOf, ProtocolOf, ColorOf, Number, Checked;
    var c1 := if g == "" then Some(DEFAULT) else GeometryOf(g, DEFAULT);
    if c1.Some? {
      if g != "" { GeometryAccepted(g, DEFAULT); }
      DefaultProtocolRead(c1.value);
    }
  }

  lemma SameColor(g: string, p: string, k: string, k': string, o: string, o': string, b: string)
    requires k == k' || (k != "" && k' != "" && ColorOf(k) == ColorOf(k'))
    requires o == o' || (o != "" && o' != "" && ColorOf(o) == ColorOf(o'))
    ensures Assembled(g, p, k, o, b) == Assembled(g, p, k', o', b)
  {
    hide GeometryOf, ProtocolOf, ColorOf, Number, Checked;
  }

  lemma OtherGeometry(fields: seq<string>, a: string, b: string)
    requires FieldsFit(fields) && OneField(a) && OneField(b) && GeometryOf(a, DEFAULT) == GeometryOf(b, DEFAULT)
    ensures ConfigOf(With(fields, 0, a)) == ConfigOf(With(fields, 0, b))
  {
    hide Plain, GeometryOf, Assembled, ConfigOf, With, FieldNo;
    ConfigOfWith(fields, 0, a);
    ConfigOfWith(fields, 0, b);
    SameGeometry(a, b, FieldNo(fields, 1), FieldNo(fields, 2), FieldNo(fields, 3), FieldNo(fields, 4));
  }

  lemma OtherProtocol(fields: seq<string>, a: string, b: string)
    requires FieldsFit(fields) && Plain(a, ',') && |a| < 32 && OneField(b)
    requires a != "" || b == FIELDS[1]
    requires a != "" ==> forall c | DefaultProtocol(c) :: ProtocolOf(a, c) == ProtocolOf(b, c)
    ensures ConfigOf(With(fields, 1, a)) == ConfigOf(With(fields, 1, b))
  {
    hide Plain, ProtocolOf, Assembled, ConfigOf, With, FieldNo;
    ConfigOfWith(fields, 1, a);
    ConfigOfWith(fields, 1, b);
    SameProtocol(FieldNo(fields, 0), a, b, FieldNo(fields, 2), FieldNo(fields, 3), FieldNo(fields, 4));
  }

  lemma OtherColor(fields: seq<string>, i: nat, a: string, b: string)
    requires FieldsFit(fields) && 2 <= i <= 3 && i < |fields| && OneField(a) && OneField(b) && ColorOf(a) == ColorOf(b)
    ensures ConfigOf(With(fields, i, a)) == ConfigOf(With(fields, i, b))
  {
    hide Plain, ColorOf, Assembled, ConfigOf, With, FieldNo;
    ConfigOfWith(fields, i, a);
    ConfigOfWith(fields, i, b);
    var g, p, k, o, br :=
      FieldNo(fields, 0), FieldNo(fields, 1), FieldNo(fields, 2), FieldNo(fields, 3), FieldNo(fields, 4);
    if i == 2 {
      SameColor(g, p, a, b, o, o, br);
    } else {
      SameColor(g, p, k, k, a, b, br);
    }
  }

  lemma {:induction false} JoinedPlain(parts: seq<string>, sep: char, other: char)
    requires AllPlain(parts, other) && sep != other && sep != ' '
    ensures Plain(Joined(parts, sep), other)
  {
    if |parts| > 1 {
      JoinedPlain(parts[1..], sep, other);
    }
  }

  // ---- protocols ----

  /** Any part of a protocol that is empty, or missing at the end, is the default's. */
  lemma EmptyPartsTakeDefaults(fields: seq<string>, parts: seq<string>)
    requires FieldsFit(fields) && 1 <= |parts| <= 5
    requires AllPlain(parts, ':') && AllPlain(parts, ',') && AllShort(parts, 16)
    requires |Joined(parts, ':')| < 32 && |Joined(Filled(parts, PARTS), ':')| < 32
    requires Joined(parts, ':') !in {"4s", "8s", "8sf", "16s", "32s"}
    ensures ConfigOf(With(fields, 1, Joined(parts, ':')))
         == ConfigOf(With(fields, 1, Joined(Filled(parts, PARTS), ':')))
  {
    var a, b := Joined(parts, ':'), Joined(Filled(parts, PARTS), ':');
    PartsPlain();
    JoinedSome(Filled(parts, PARTS), ':');
    JoinedPlain(parts, ':', ',');
    JoinedPlain(Filled(parts, PARTS), ':', ',');
    if a == "" {
      JoinedNone(parts, ':');
      FilledNone();
    }
    hide Joined, Plain, ProtocolOf, Filled, ConfigOf, With;
    forall c | DefaultProtocol(c)
      ensures ProtocolOf(a, c) == ProtocolOf(b, c)
    {
      FilledProtocol(parts, c);
    }
    OtherProtocol(fields, a, b);
  }

  lemma JoinedNone(parts: seq<string>, sep: char)
    requires parts != [] && Joined(parts, sep) == ""
    ensures parts == [""]
  {
    if |parts| > 1 {
      JoinedSome(parts, sep);
    }
  }

  lemma FilledNone()
    ensures Joined(Filled([""], PARTS), ':') == FIELDS[1]
  {
    DefaultsJoined();
    PartsPlain();
    hide Joined, Plain;
    assert Filled([""], PARTS) == PARTS;
  }

  // Each preset's name, its number of row addresses and its chain.
  const SPELLED: seq<(string, string, string)> := [
    ("4s", "4", "n"), ("8s", "8", "n"), ("8sf", "8", "f"), ("16s", "16", "n"), ("32s", "32", "n")]

  function SpelledOut(i: nat): seq<string>
    requires i < |SPELLED|
  {
    [SPELLED[i].1, SPELLED[i].2, "500", "shift", "4"]
  }

  /** A preset is its spelled-out form: "8sf" is "8:f:500:shift:4", and so on. */
  lemma PresetsSpelledOut(fields: seq<string>, i: nat)
    requires FieldsFit(fields) && i < |SPELLED|
    ensures ConfigOf(With(fields, 1, SPELLED[i].0)) == ConfigOf(With(fields, 1, Joined(SpelledOut(i), ':')))
  {
    SpelledFit(i);
    var name, spelled := SPELLED[i].0, Joined(SpelledOut(i), ':');
    hide ProtocolOf, ConfigOf, With, Joined, SpelledOut;
    forall c | DefaultProtocol(c)
      ensures ProtocolOf(name, c) == ProtocolOf(spelled, c)
    {
      PresetMeans(i, c);
    }
    OtherProtocol(fields, name, spelled);
  }

  lemma SpelledFit(i: nat)
    requires i < |SPELLED|
    ensures OneField(SPELLED[i].0) && OneField(Joined(SpelledOut(i), ':'))
    ensures AllPlain(SpelledOut(i), ':') && AllShort(SpelledOut(i), 16)
  {
    var parts := SpelledOut(i);
    assert |parts[0]| <= 2 && |parts[1]| == 1 && |parts[2]| == 3 && |parts[3]| == 5 && |parts[4]| == 1;
    assert AllPlain(parts, ',') && AllPlain(parts, ':');
    JoinedPlain(parts, ':', ',');
    FiveLong(parts, ':');
    hide Plain;
  }

  lemma FiveLong(parts: seq<string>, sep: char)
    requires |parts| == 5
    ensures |Joined(parts, sep)| == |parts[0]| + |parts[1]| + |parts[2]| + |parts[3]| + |parts[4]| + 4
  {
    var a := parts[1..];
    var b := a[1..];
    var c := b[1..];
    assert |Joined(c, sep)| == |parts[3]| + 1 + |parts[4]|;
    assert |Joined(b, sep)| == |parts[2]| + 1 + |Joined(c, sep)|;
    assert |Joined(a, sep)| == |parts[1]| + 1 + |Joined(b, sep)|;
  }

  lemma PresetMeans(i: nat, c: Config)
    requires i < |SPELLED|
    ensures ProtocolOf(SPELLED[i].0, c) == ProtocolOf(Joined(SpelledOut(i), ':'), c)
  {
    var parts := SpelledOut(i);
    SpelledFit(i);
    ManyHaveSep(parts, ':');
    NoPreset(Joined(parts, ':'), 0);
    PartsInTurn(parts);
    hide Joined, ProtocolParts, PresetNamed, Plain, AllPlain, AllShort, ReadParts, SpelledOut, FieldNo;
    PartsOfJoined(parts, c);
    PresetFound(i, 0);
    SpelledReads(i, c);
  }

  lemma PartsInTurn(parts: seq<string>)
    requires |parts| == 5
    ensures forall i | 0 <= i < 5 :: FieldNo(parts, i) == parts[i]
    ensures Cursors(parts, ':') == At(Joined(parts, ':'))
  {
    hide Joined;
  }

  lemma SpelledReads(i: nat, c: Config)
    requires i < |SPELLED|
    ensures var parts := SpelledOut(i);
            ReadParts(parts[0], parts[1], parts[2], parts[3], parts[4], c)
            == Some(c.(scan := PRESETS[i].1, farFirst := PRESETS[i].2, segment := 0, zigzag := false,
                       clockKhz := 500, chip := Shift, depth := DEPTH_DEFAULT))
  {
    PresetKeys();
    PresetScan(i);
    assert ChainOf("n") == Some((false, 0, false)) && ChainOf("f") == Some((true, 0, false));
    assert SPELLED[i].1 != "" && SPELLED[i].2 != "";
    hide PowerOfTwo, Number, ChipNamed, ChainOf;
    ClockAndDepthRead();
    PartsPlain();
  }

  lemma PresetKeys()
    ensures |PRESETS| == |SPELLED| == 5
    ensures forall i | 0 <= i < 5 :: PRESETS[i].0 == SPELLED[i].0
    ensures forall i | 0 <= i < 5 :: PRESETS[i].2 == (i == 2) && SPELLED[i].2 == if i == 2 then "f" else "n"
    ensures forall i, j | 0 <= i < j < 5 :: PRESETS[i].0 != PRESETS[j].0
  {
    var keys := [(2, '4', 's'), (2, '8', 's'), (3, '8', 's'), (3, '1', '6'), (3, '3', '2')];
    assert forall i | 0 <= i < 5 :: |PRESETS[i].0| >= 2 && Key(PRESETS[i].0) == keys[i];
    assert forall i, j | 0 <= i < j < 5 :: keys[i] != keys[j];
  }

  lemma {:induction false} PresetFound(k: nat, i: nat)
    requires i <= k < |SPELLED|
    ensures PresetNamed(SPELLED[k].0, i) == Some((PRESETS[k].1, PRESETS[k].2))
    decreases k - i
  {
    PresetKeys();
    if i < k {
      PresetFound(k, i + 1);
    }
  }

  lemma PresetScan(i: nat)
    requires i < |SPELLED|
    ensures PowerOfTwo(SPELLED[i].1) == Some(PRESETS[i].1)
  {
    ScansSpelled();
    ScanText(PRESETS[i].1, SPELLED[i].1);
    ScanRoundTrip(PRESETS[i].1);
    hide PowerOfTwo, Decimal;
  }

  lemma ScansSpelled()
    ensures |PRESETS| == |SPELLED| == 5
    ensures forall i | 0 <= i < 5 :: (PRESETS[i].1, SPELLED[i].1) in {(4, "4"), (8, "8"), (16, "16"), (32, "32")}
  {
    var scans := [(4, "4"), (8, "8"), (8, "8"), (16, "16"), (32, "32")];
    assert forall i | 0 <= i < 5 :: (PRESETS[i].1, SPELLED[i].1) == scans[i];
  }

  lemma ScanText(scan: nat, text: string)
    requires (scan, text) in {(4, "4"), (8, "8"), (16, "16"), (32, "32")}
    ensures Decimal(scan) == text
  {
    if scan == 4 {
    } else if scan == 8 {
    } else if scan == 16 {
      assert Decimal(1) == "1";
    } else {
      assert scan == 32 && Decimal(3) == "3";
    }
  }

  /** The chips that are set up alike have names that mean the same. */
  lemma ChipAliases(fields: seq<string>, parts: seq<string>, alias: string)
    requires FieldsFit(fields) && 4 <= |parts| <= 5 && alias in {"fm6124", "icn2038s"}
    requires AllPlain(parts, ':') && AllPlain(parts, ',') && AllShort(parts, 16)
    requires |Joined(parts[3 := alias], ':')| < 32 && |Joined(parts[3 := "fm6126a"], ':')| < 32
    ensures ConfigOf(With(fields, 1, Joined(parts[3 := alias], ':')))
         == ConfigOf(With(fields, 1, Joined(parts[3 := "fm6126a"], ':')))
  {
    var p, q := parts[3 := alias], parts[3 := "fm6126a"];
    hide Joined, Plain, ConfigOf, With, ProtocolOf, FieldsFit, DefaultProtocol;
    AliasPlain(alias);
    var a, b := Joined(p, ':'), Joined(q, ':');
    JoinedPlain(p, ':', ',');
    JoinedPlain(q, ':', ',');
    JoinedSome(p, ':');
    JoinedSome(q, ':');
    forall c | DefaultProtocol(c)
      ensures ProtocolOf(a, c) == ProtocolOf(b, c)
    {
      AliasMeans(parts, alias, c);
    }
    OtherProtocol(fields, a, b);
  }

  lemma AliasMeans(parts: seq<string>, alias: string, c: Config)
    requires 4 <= |parts| <= 5 && alias in {"fm6124", "icn2038s"} && AllPlain(parts, ':') && AllShort(parts, 16)
    ensures ProtocolOf(Joined(parts[3 := alias], ':'), c) == ProtocolOf(Joined(parts[3 := "fm6126a"], ':'), c)
  {
    var p, q := parts[3 := alias], parts[3 := "fm6126a"];
    AliasPlain(alias);
    AliasFound(alias);
    ManyHaveSep(p, ':');
    ManyHaveSep(q, ':');
    NoPreset(Joined(p, ':'), 0);
    NoPreset(Joined(q, ':'), 0);
    hide Joined, Plain, ReadParts, ProtocolParts, PresetNamed, FieldNo;
    assert AllPlain(p, ':') && AllPlain(q, ':') && AllShort(p, 16) && AllShort(q, 16);
    PartsOfJoined(p, c);
    PartsOfJoined(q, c);
    AllButOne(parts, 3, alias);
    AllButOne(parts, 3, "fm6126a");
    AliasReads(FieldNo(parts, 0), FieldNo(parts, 1), FieldNo(parts, 2), alias, FieldNo(parts, 4), c);
  }

  lemma AllButOne(parts: seq<string>, i: nat, part: string)
    requires i < |parts|
    ensures FieldNo(parts[i := part], i) == part
    ensures forall j: nat | j != i :: FieldNo(parts[i := part], j) == FieldNo(parts, j)
  {
  }

  lemma AliasReads(scan: string, chain: string, clock: string, alias: string, depth: string, c: Config)
    requires alias in {"fm6124", "icn2038s"}
    ensures ReadParts(scan, chain, clock, alias, depth, c) == ReadParts(scan, chain, clock, "fm6126a", depth, c)
  {
    AliasFound(alias);
    hide PowerOfTwo, ChainOf, Number, ChipNamed;
  }

  lemma AliasPlain(alias: string)
    requires alias in {"fm6124", "icn2038s"}
    ensures Plain(alias, ':') && Plain(alias, ',') && 0 < |alias| < 16
    ensures Plain("fm6126a", ':') && Plain("fm6126a", ',') && 0 < |"fm6126a"| < 16
  {
  }

  lemma AliasFound(alias: string)
    requires alias in {"fm6124", "icn2038s"}
    ensures ChipNamed(alias, 0) == ChipNamed("fm6126a", 0) == Some(Fm6126a)
  {
    assert CHIPS[0].0[0] == 's' && CHIPS[1].0 == "fm6126a" && CHIPS[2].0 == "fm6124" && CHIPS[3].0 == "icn2038s";
    assert |CHIPS[1].0| == 7 && |CHIPS[2].0| == 6 && |CHIPS[3].0| == 8;
    assert ChipNamed("fm6126a", 1) == Some(Fm6126a);
    assert ChipNamed(alias, 3) == if alias == "icn2038s" then Some(Fm6126a) else ChipNamed(alias, 4);
    assert ChipNamed(alias, 2) == Some(Fm6126a);
    assert ChipNamed(alias, 1) == Some(Fm6126a);
  }

  // ---- colours ----

  // Each effect's names, and the speed it has unless the text says otherwise; none for one that doesn't move.
  const SPEEDS: seq<(string, string, string)> := [
    ("plasma", "plasma", "2"), ("rainbow", "plasma", "2"), ("stripes", "stripes", "4"), ("wave", "wave", "4"),
    ("scroll", "scroll", "3"), ("cycle", "cycle", "3"), ("fade", "fade", "2"), ("fire", "fire", "4"),
    ("sparkle", "sparkle", "4"), ("ripple", "ripple", "4"), ("gradient", "gradient", "")]

  lemma ColorOfJoined(name: string, speed: string, palette: string, scale: string)
    requires PartOk(name, 12) && PartOk(speed, 4) && PartOk(palette, PALETTE_MAX + 1) && PartOk(scale, 4)
    requires name != "" && name[0] != '#'
    ensures ColorOf(Joined([name, speed, palette, scale], ':')) == EffectOf(name, speed, palette, scale)
  {
    var f := [name, speed, palette, scale];
    assert Rest(f) == [speed, palette, scale] && Rest(Rest(f)) == [palette, scale] && Rest(Rest(Rest(f))) == [scale];
    assert Joined(f, ':')[0] == name[0];
    hide Field, Joined, Plain, EffectOf;
    FieldOfJoined(f, ':', 12);
    FieldOfJoined(Rest(f), ':', 4);
    FieldOfJoined(Rest(Rest(f)), ':', PALETTE_MAX + 1);
    FieldOfJoined(Rest(Rest(Rest(f))), ':', 4);
  }

  lemma SpeedsKnown(i: nat)
    requires i < |SPEEDS|
    ensures |SPEEDS| == |EFFECTS| == 11 && EFFECTS[i].0 == SPEEDS[i].0
    ensures SPEEDS[i].1 == EffectName(EFFECTS[i].1)
    ensures if SPEEDS[i].2 == "" then DefaultSpeed(EFFECTS[i].1) == 0
            else DefaultSpeed(EFFECTS[i].1) in {2, 3, 4} && SPEEDS[i].2 == Decimal(DefaultSpeed(EFFECTS[i].1))
  {
    hide Decimal;
    assert Decimal(2) == "2" && Decimal(3) == "3" && Decimal(4) == "4" by {
      OneDigit(2);
      OneDigit(3);
      OneDigit(4);
    }
  }

  lemma OneDigit(n: nat)
    requires n < 10
    ensures Decimal(n) == [DigitOf(n)]
  {
  }

  lemma {:induction false} EffectFound(k: nat, i: nat)
    requires i <= k < |EFFECTS|
    ensures EffectNamed(EFFECTS[k].0, i) == Some(EFFECTS[k].1)
    decreases k - i
  {
    EffectKeys();
    if i < k {
      assert Key(EFFECTS[i].0) != Key(EFFECTS[k].0);
      EffectFound(k, i + 1);
    }
  }

  /** An effect's empty parts are its own speed and a scale of 8, and each of its names means the same. */
  lemma EffectMeans(i: nat, speed: string, palette: string, scale: string)
    requires i < |SPEEDS|
    ensures EffectOf(SPEEDS[i].0, speed, palette, scale)
         == EffectOf(SPEEDS[i].1, if speed != "" then speed else SPEEDS[i].2, palette,
                     if scale != "" then scale else "8")
  {
    var e := EFFECTS[i].1;
    hide Number, PaletteOf, EffectNamed, Decimal, EffectOf, DefaultSpeed, EffectName;
    SpeedsKnown(i);
    EffectFound(i, 0);
    EffectNamedFrom(e, 0);
    if DefaultSpeed(e) != 0 {
      NumberDecimal(DefaultSpeed(e), 1, EFFECT_SPEED_MAX);
    }
    EffectFilled(e, SPEEDS[i].0, SPEEDS[i].1, SPEEDS[i].2, speed, palette, scale);
  }

  lemma EffectFilled(e: Effect, name: string, canon: string, digit: string,
                     speed: string, palette: string, scale: string)
    requires EffectNamed(name, 0) == EffectNamed(canon, 0) == Some(e)
    requires if digit == "" then DefaultSpeed(e) == 0
             else DefaultSpeed(e) != 0 && Number(digit, 1, EFFECT_SPEED_MAX) == Some(DefaultSpeed(e))
    ensures EffectOf(name, speed, palette, scale)
         == EffectOf(canon, if speed != "" then speed else digit, palette, if scale != "" then scale else "8")
  {
    OneDigit(8);
    hide Number, PaletteOf, EffectNamed, Decimal, DefaultSpeed;
    NumberDecimal(8, 1, SCALE_MAX);
  }

  /** Both for the lit pixels' colour and for the others'. */
  lemma EffectsSpelledOut(fields: seq<string>, at: nat, i: nat, speed: string, palette: string, scale: string)
    requires FieldsFit(fields) && 2 <= at <= 3 && at < |fields| && i < |SPEEDS|
    requires PartOk(speed, 4) && PartOk(palette, PALETTE_MAX + 1) && PartOk(scale, 4)
    ensures ConfigOf(With(fields, at, Joined([SPEEDS[i].0, speed, palette, scale], ':')))
         == ConfigOf(With(fields, at, Joined([SPEEDS[i].1, if speed != "" then speed else SPEEDS[i].2, palette,
                                              if scale != "" then scale else "8"], ':')))
  {
    var speed', scale' := if speed != "" then speed else SPEEDS[i].2, if scale != "" then scale else "8";
    var p, q := [SPEEDS[i].0, speed, palette, scale], [SPEEDS[i].1, speed', palette, scale'];
    hide Joined, Plain, ColorOf, EffectOf, ConfigOf, With, FieldsFit, PartOk;
    EffectPlain(i);
    EffectMeans(i, speed, palette, scale);
    ColorOfJoined(SPEEDS[i].0, speed, palette, scale);
    ColorOfJoined(SPEEDS[i].1, speed', palette, scale');
    FourFit(SPEEDS[i].0, speed, palette, scale);
    FourFit(SPEEDS[i].1, speed', palette, scale');
    OtherColor(fields, at, Joined(p, ':'), Joined(q, ':'));
  }

  predicate PartOk(s: string, outLen: nat) {
    Plain(s, ':') && Plain(s, ',') && |s| < outLen
  }

  lemma FourFit(name: string, speed: string, palette: string, scale: string)
    requires PartOk(name, 12) && PartOk(speed, 4) && PartOk(palette, 9) && PartOk(scale, 4)
    ensures OneField(Joined([name, speed, palette, scale], ':'))
  {
    hide Plain;
    var parts := [name, speed, palette, scale];
    JoinedPlain(parts, ':', ',');
    FourLong(parts, ':');
  }

  lemma EffectPlain(i: nat)
    requires i < |SPEEDS|
    ensures PartOk(SPEEDS[i].0, 12) && PartOk(SPEEDS[i].1, 12) && PartOk(SPEEDS[i].2, 4) && PartOk("8", 4)
    ensures 0 < |SPEEDS[i].0| && 0 < |SPEEDS[i].1| && SPEEDS[i].0[0] != '#' && SPEEDS[i].1[0] != '#'
  {
  }

  lemma FourLong(parts: seq<string>, sep: char)
    requires |parts| == 4
    ensures |Joined(parts, sep)| == |parts[0]| + |parts[1]| + |parts[2]| + |parts[3]| + 3
  {
    var a := parts[1..];
    var b := a[1..];
    assert |Joined(b, sep)| == |parts[2]| + 1 + |parts[3]|;
    assert |Joined(a, sep)| == |parts[1]| + 1 + |Joined(b, sep)|;
  }

  lemma HexPadded(s: string)
    requires |s| < 6 && HexRgb(s).Some?
    ensures HexRgb(s + "0") == HexRgb(s)
  {
    var t := s + "0";
    assert HexValue('0') == Some(0);
    hide HexRgb, HexValue;
    assert t[..|s|] == s && t[..|s| + 1] == t;
    HexStep(t, |s|);
  }

  /** A colour's missing hex digits are zeroes: "#f" is "#f0", and that "#f00". */
  lemma ShortHex(fields: seq<string>, at: nat, s: string)
    requires FieldsFit(fields) && 2 <= at <= 3 && at < |fields| && |s| < 6 && HexRgb(s).Some? && Plain(s, ',')
    ensures ConfigOf(With(fields, at, "#" + s)) == ConfigOf(With(fields, at, "#" + (s + "0")))
  {
    hide ColorOf, HexRgb, ConfigOf, With, FieldsFit;
    HexPadded(s);
    HashColor(s);
    HashColor(s + "0");
    HashField(s);
    HashField(s + "0");
    hide Plain, OneField;
    OtherColor(fields, at, "#" + s, "#" + (s + "0"));
  }

  lemma HashField(s: string)
    requires |s| <= 6 && Plain(s, ',')
    ensures OneField("#" + s)
  {
  }

  lemma HashColor(s: string)
    requires |s| <= 6 && HexRgb(s).Some?
    ensures ColorOf("#" + s) == Some(Fixed(HexRgb(s).value))
  {
    hide HexRgb;
    assert ("#" + s)[1..] == s;
  }

  /** Capital digits are digits like the others. */
  lemma {:induction false} HexCapitals(s: string, t: string)
    requires |s| == |t| <= 6
    requires forall i | 0 <= i < |s| ::
               t[i] == s[i] || ('a' <= s[i] <= 'f' && t[i] as int - 'A' as int == s[i] as int - 'a' as int)
    ensures HexRgb(t) == HexRgb(s)
  {
    if s != [] {
      HexCapitals(s[..|s| - 1], t[..|s| - 1]);
    }
  }

  lemma PaletteOrder()
    ensures PaletteOf("krgybmcw") == Some([0, 1, 2, 3, 4, 5, 6, 7])
  {
    PaletteRoundTrip([0, 1, 2, 3, 4, 5, 6, 7]);
    assert PaletteText([0, 1, 2, 3, 4, 5, 6, 7]) == "krgybmcw";
  }

  // ---- geometries ----

  lemma GeometryOfJoined(f: seq<string>, d: Config)
    requires 3 <= |f| && AllPlain(f, ':') && AllShort(f, 16)
    ensures GeometryOf(Joined(f, ':'), d)
         == if |f| <= 4 then ReadGeometry(f[0], f[1], f[2], FieldNo(f, 3), d) else None
  {
    hide Joined, Plain, Field, Number, LayoutOf, GridOf, AllPlain, AllShort;
    FieldOfJoined(f, ':', 16);
    FieldOfJoined(Rest(f), ':', 16);
    FieldOfJoined(Rest(Rest(f)), ':', 16);
    FieldOfJoined(Rest(Rest(Rest(f))), ':', 16);
  }

  function ReadGeometry(widthText: string, heightText: string, layoutText: string, gridText: string, d: Config)
    : Option<Config>
  {
    var width :- Number(widthText, 1, MAX_PIXELS);
    var height :- Number(heightText, 1, MAX_PIXELS);
    var (flipX, flipY) :- LayoutOf(layoutText);
    var (gridX, gridY, serpentine) :- if gridText == "" then Some((1 as nat, 1 as nat, false)) else GridOf(gridText);
    Some(d.(width := width, height := height, flipX := flipX, flipY := flipY,
            gridX := gridX, gridY := gridY, serpentine := serpentine))
  }

  lemma GeometryFits(f: seq<string>)
    requires 3 <= |f| <= 4 && AllPlain(f, ',') && |Joined(f, ':')| < 32
    ensures OneField(Joined(f, ':'))
  {
    JoinedPlain(f, ':', ',');
    JoinedSome(f, ':');
  }

  lemma SameGrid(f: seq<string>, a: string, b: string)
    requires |f| == 3 && AllPlain(f, ':') && AllShort(f, 16) && Plain(a, ':') && |a| < 16 && Plain(b, ':') && |b| < 16
    requires (if a == "" then Some((1, 1, false)) else GridOf(a))
          == (if b == "" then Some((1, 1, false)) else GridOf(b))
    ensures GeometryOf(Joined(f + [a], ':'), DEFAULT) == GeometryOf(Joined(f + [b], ':'), DEFAULT)
    ensures a == "" ==> GeometryOf(Joined(f, ':'), DEFAULT) == GeometryOf(Joined(f + [b], ':'), DEFAULT)
  {
    hide Joined, Plain, GridOf, LayoutOf, Number, GeometryOf;
    GeometryOfJoined(f, DEFAULT);
    GeometryOfJoined(f + [a], DEFAULT);
    GeometryOfJoined(f + [b], DEFAULT);
  }

  /** A grid that is empty or missing is one panel. */
  lemma EmptyGridIsOnePanel(fields: seq<string>, f: seq<string>)
    requires FieldsFit(fields) && |f| == 3 && AllPlain(f, ':') && AllPlain(f, ',') && AllShort(f, 16)
    requires |Joined(f + ["1x1"], ':')| < 32 && |Joined(f + [""], ':')| < 32 && |Joined(f, ':')| < 32
    ensures ConfigOf(With(fields, 0, Joined(f, ':'))) == ConfigOf(With(fields, 0, Joined(f + ["1x1"], ':')))
    ensures ConfigOf(With(fields, 0, Joined(f + [""], ':'))) == ConfigOf(With(fields, 0, Joined(f + ["1x1"], ':')))
  {
    OnePanel();
    hide Joined, Plain, GridOf, GeometryOf, ConfigOf, With, FieldsFit;
    SameGrid(f, "", "1x1");
    GeometryFits(f);
    GeometryFits(f + [""]);
    GeometryFits(f + ["1x1"]);
    OtherGeometry(fields, Joined(f, ':'), Joined(f + ["1x1"], ':'));
    OtherGeometry(fields, Joined(f + [""], ':'), Joined(f + ["1x1"], ':'));
  }

  lemma OnePanel()
    ensures GridOf("1x1") == Some((1, 1, false)) && Plain("1x1", ':') && Plain("1x1", ',')
    ensures Plain("", ':') && Plain("", ',')
  {
    hide GridOf;
    OnePanelText("1x1", "1");
  }

  lemma OnePanelText(text: string, one: string)
    requires one == "1" && text == one + "x1"
    ensures GridOf(text) == Some((1, 1, false))
  {
    OneDigit(1);
    hide Decimal, GridOf;
    LoneNumberIsOneRow(1, "");
    assert Decimal(1) == one && "x1" + "" == "x1";
  }

  /** A lone number is that many panels side by side. */
  lemma LoneNumberIsOneRow(n: nat, tail: string)
    requires 1 <= n <= 16 && tail in {"", "i"}
    ensures GridOf(Decimal(n) + tail) == GridOf(Decimal(n) + ("x1" + tail)) == Some((n, 1, tail == "i"))
  {
    hide Strtol, Decimal;
    StrtolDecimal(n, tail);
    OneDigit(1);
    GridRowsRoundTrip(n, 1, tail);
    GridColsRoundTrip(n, Decimal(1) + tail);
    assert (Decimal(n) + tail)[|Decimal(n)|..] == tail;
    assert "x1" + tail == "x" + (Decimal(1) + tail);
    LoneTail(Decimal(n), tail);
  }

  lemma LoneTail(digits: string, tail: string)
    requires tail in {"", "i"}
    ensures |digits| < |digits + tail| ==> (digits + tail)[|digits|] == 'i'
  {
  }

  /** A layout is up to one letter for each side, in either order, and a missing one is "l" or "t". */
  lemma LayoutLetters(s: string)
    ensures LayoutOf(s).Some? <==> s in {"", "l", "r", "t", "b", "lt", "lb", "rt", "rb", "tl", "tr", "bl", "br"}
    ensures LayoutOf(s).Some? ==>
              LayoutOf(s).value == (s in {"r", "rt", "rb", "tr", "br"}, s in {"b", "lb", "rb", "bl", "br"})
  {
    if s in {"", "l", "r", "t", "b", "lt", "lb", "rt", "rb", "tl", "tr", "bl", "br"} {
      LayoutShort(s);
    }
    if LayoutOf(s).Some? {
      CountsAll(s);
      if |s| == 1 {
        assert s == [s[0]];
      } else if |s| == 2 {
        assert s == [s[0], s[1]];
        assert s[..1] == [s[0]] && [s[0]][..0] == [];
      }
    }
  }

  lemma {:induction false} CountsAll(s: string)
    requires forall i | 0 <= i < |s| :: s[i] in "lrtb"
    ensures CountIn(s, "lr") + CountIn(s, "tb") == |s|
  {
    if s != "" {
      CountsAll(s[..|s| - 1]);
    }
  }

  lemma LayoutShort(s: string)
    requires s in {"", "l", "r", "t", "b", "lt", "lb", "rt", "rb", "tl", "tr", "bl", "br"}
    ensures LayoutOf(s).Some?
  {
    if s in {"lt", "lb", "rt", "rb", "tl", "tr", "bl", "br"} {
      assert s[0] in "lrtb" && s[1] in "lrtb" && (s[0] in "lr" <==> s[1] in "tb");
      LayoutFits(s);
    } else if s != "" {
      LayoutFits(s);
    }
  }

  lemma LayoutFits(s: string)
    requires |s| <= 2 && forall i | 0 <= i < |s| :: s[i] in "lrtb"
    requires |s| == 2 ==> (s[0] in "lr" <==> s[1] in "tb")
    ensures LayoutOf(s).Some?
  {
    if |s| == 2 {
      assert s[..1] == [s[0]] && [s[0]][..0] == [];
      OneLetter(s[0]);
    } else if |s| == 1 {
      assert s == [s[0]];
      OneLetter(s[0]);
    }
  }

  lemma OneLetter(c: char)
    requires c in "lrtb"
    ensures CountIn([c], "lr") + CountIn([c], "tb") == 1 && (CountIn([c], "lr") == 1 <==> c in "lr")
  {
    assert [c][..0] == [];
  }

  // ---- malformed and short texts ----

  /** A protocol of more than five parts, a geometry of more than four and a colour of more than four are malformed,
      whatever the parts are, and so is one with a part that doesn't fit its buffer. */
  lemma TooManyParts(parts: seq<string>, c: Config)
    requires AllPlain(parts, ':') && parts != []
    ensures |parts| > 5 || !AllShort(parts, 16) ==> ProtocolOf(Joined(parts, ':'), c) == None
    ensures |parts| > 4 || !AllShort(parts, 16) ==> GeometryOf(Joined(parts, ':'), c) == None
    ensures |parts| > 4 || LongInColor(parts) ==>
              parts[0] == "" || parts[0][0] != '#' ==> ColorOf(Joined(parts, ':')) == None
  {
    hide Joined, Plain, ProtocolParts, PresetNamed, GeometryOf, ColorOf, AllPlain;
    if |parts| > 4 || !AllShort(parts, 16) {
      FifthOfGeometry(parts, c);
    }
    if (|parts| > 4 || LongInColor(parts)) && (parts[0] == "" || parts[0][0] != '#') {
      FifthOfColor(parts);
    }
    if |parts| > 5 || !AllShort(parts, 16) {
      LongNoPreset(parts);
      SixthOfProtocol(parts, c);
    }
  }

  /** A name, speed, palette or scale that doesn't fit. */
  predicate LongInColor(parts: seq<string>) {
    || |FieldNo(parts, 0)| >= 12 || |FieldNo(parts, 1)| >= 4
    || |FieldNo(parts, 2)| > PALETTE_MAX || |FieldNo(parts, 3)| >= 4
  }

  lemma LongNoPreset(parts: seq<string>)
    requires |parts| > 5 || (parts != [] && !AllShort(parts, 16))
    ensures PresetNamed(Joined(parts, ':'), 0) == None
  {
    if |parts| > 1 {
      ManyHaveSep(parts, ':');
      NoPreset(Joined(parts, ':'), 0);
    } else {
      NotPreset(Joined(parts, ':'));
    }
  }

  lemma FourthOfClock(parts: seq<string>, c: Config)
    requires AllPlain(parts, ':') && (|parts| > 3 || !AllShort(parts, 16))
    ensures ClockParts(Cursors(parts, ':'), c) == None
  {
    hide Field, Number, Joined, Plain, ChipNamed, AllPlain;
    FieldOfJoined(parts, ':', 16);
    FieldOfJoined(Rest(parts), ':', 16);
    FieldOfJoined(Rest(Rest(parts)), ':', 16);
  }

  lemma FifthOfChain(parts: seq<string>, c: Config)
    requires AllPlain(parts, ':') && (|parts| > 4 || !AllShort(parts, 16))
    ensures ChainPart(Cursors(parts, ':'), c) == None
  {
    hide Field, Joined, Plain, ChainOf, ClockParts, AllPlain, Cursors;
    FieldOfJoined(parts, ':', 16);
    var chain := if First(parts) == "" then Some((c.farFirst, c.segment, c.zigzag)) else ChainOf(First(parts));
    if chain.Some? && |First(parts)| < 16 {
      FourthOfClock(Rest(parts), c.(farFirst := chain.value.0, segment := chain.value.1, zigzag := chain.value.2));
    }
  }

  lemma SixthOfProtocol(parts: seq<string>, c: Config)
    requires AllPlain(parts, ':') && (|parts| > 5 || !AllShort(parts, 16))
    ensures ProtocolParts(Cursors(parts, ':'), c) == None
  {
    hide Field, Joined, Plain, PowerOfTwo, ChainPart, AllPlain, Cursors;
    FieldOfJoined(parts, ':', 16);
    var scan := if First(parts) == "" then Some(c.scan as int) else PowerOfTwo(First(parts));
    if scan.Some? && |First(parts)| < 16 {
      FifthOfChain(Rest(parts), c.(scan := scan.value));
    }
  }

  lemma FifthOfGeometry(parts: seq<string>, c: Config)
    requires parts != [] && AllPlain(parts, ':') && (|parts| > 4 || !AllShort(parts, 16))
    ensures GeometryOf(Joined(parts, ':'), c) == None
  {
    hide Joined, Plain, Field, Number, LayoutOf, GridOf, AllPlain;
    FieldOfJoined(parts, ':', 16);
    FieldOfJoined(Rest(parts), ':', 16);
    FieldOfJoined(Rest(Rest(parts)), ':', 16);
    FieldOfJoined(Rest(Rest(Rest(parts))), ':', 16);
  }

  lemma FifthOfColor(parts: seq<string>)
    requires parts != [] && AllPlain(parts, ':') && (|parts| > 4 || LongInColor(parts))
    requires parts[0] == "" || parts[0][0] != '#'
    ensures ColorOf(Joined(parts, ':')) == None
  {
    hide Field, Joined, Plain, ColorOf, AllPlain, AllShort, FieldNo, First, Rest, Cursors;
    var r1, r2, r3 := Rest(parts), Rest(Rest(parts)), Rest(Rest(Rest(parts)));
    NoHash(parts);
    InTurn(parts);
    if |parts| > 4 {
      FifthIsLeft(parts);
    }
    FieldOfJoined(parts, ':', 12);
    FieldOfJoined(r1, ':', 4);
    FieldOfJoined(r2, ':', PALETTE_MAX + 1);
    FieldOfJoined(r3, ':', 4);
    ColorLeftOver(Joined(parts, ':'), Cursors(r1, ':'), Cursors(r2, ':'), Cursors(r3, ':'), Cursors(Rest(r3), ':'));
  }

  lemma NoHash(parts: seq<string>)
    requires parts != [] && (parts[0] == "" || parts[0][0] != '#')
    ensures Joined(parts, ':') == "" || Joined(parts, ':')[0] != '#'
    ensures Cursors(parts, ':') == At(Joined(parts, ':'))
  {
  }

  lemma FifthIsLeft(parts: seq<string>)
    requires |parts| > 4
    ensures Cursors(Rest(Rest(Rest(Rest(parts)))), ':') != End
  {
    hide Joined;
  }

  lemma ColorLeftOver(s: string, s1: Cursor, s2: Cursor, s3: Cursor, s4: Cursor)
    requires s == "" || s[0] != '#'
    requires var f := Field(At(s), ':', 12); f.Some? ==> f.value.1 == s1
    requires var f := Field(s1, ':', 4); f.Some? ==> f.value.1 == s2
    requires var f := Field(s2, ':', PALETTE_MAX + 1); f.Some? ==> f.value.1 == s3
    requires var f := Field(s3, ':', 4); f.Some? ==> f.value.1 == s4
    requires s4 != End || Field(At(s), ':', 12) == None || Field(s1, ':', 4) == None
             || Field(s2, ':', PALETTE_MAX + 1) == None || Field(s3, ':', 4) == None
    ensures ColorOf(s) == None
  {
    hide Field, EffectOf, HexRgb;
  }

  /** Spaces in front of a value don't count, and spaces alone disable the panel like an empty value. */
  lemma SpacesBefore(n: nat, value: string)
    ensures ConfigOf(Spaces(n) + value) == ConfigOf(value)
    ensures ConfigOf(Spaces(n)) == Disabled
  {
    TrimSpacesLeft(n, value);
    TrimSpacesLeft(n, "");
    assert Spaces(n) + "" == Spaces(n);
    hide FieldsOf, Spaces;
  }

  /** A colour is printed without its parts behind the last one that isn't the default's. */
  lemma NothingTrailing(k: Color)
    requires ColorOk(k)
    ensures ColorText(k) != "" && ColorText(k)[|ColorText(k)| - 1] != ':'
  {
    match k
    case Fixed(rgb) =>
      hide HexDigit;
    case Animated(effect, speed, palette, scale) =>
      NamesPlain(effect, Shift);
      EffectTextsFit(effect, speed, palette, scale);
      hide SpeedText, ScaleText, PaletteText, EffectName;
  }
}
