/** The HUB75 driver's configuration and the sizes derived from it. */
module Hub75Config {
  import opened Arith

  const MAX_PIXELS: nat := 16384
  const MAX_PANELS: nat := 16
  const MAX_DEPTH: nat := 8
  const DEPTH_DEFAULT: nat := 4
  const BRIGHTNESS_MAX: nat := 0x7FFF
  const CLOCK_MIN_KHZ: nat := 100
  const CLOCK_MAX_KHZ: nat := 1000
  const PALETTE_MAX: nat := 8
  const SCALE_MAX: nat := 32
  const SCALE_DEFAULT: nat := 8
  const EFFECT_SPEED_MAX: nat := 32

  datatype Chip = Shift | Fm6126a

  datatype Effect = Plasma | Stripes | Wave | Scroll | Cycle | Fade | Fire | Sparkle | Ripple | Gradient

  /** A colour field: one 0xRRGGBB value, or an effect with its parameters. */
  datatype Color =
    | Fixed(rgb: nat)
    | Animated(effect: Effect, speed: nat, palette: seq<nat>, scale: nat)

  datatype Config = Config(
    width: nat, height: nat, flipX: bool, flipY: bool,
    gridX: nat, gridY: nat, serpentine: bool,
    scan: nat, farFirst: bool, segment: nat, zigzag: bool,
    clockKhz: nat, chip: Chip, depth: nat,
    color: Color, offColor: Color, brightness: nat)

  // The geometry rules, clause by clause as the parser enforces them.
  predicate GeometryOk(c: Config) {
    && 1 <= c.gridX && 1 <= c.gridY && c.gridX * c.gridY <= MAX_PANELS
    && 1 <= c.width && 1 <= c.height && c.width * c.height <= MAX_PIXELS
    && c.width % c.gridX == 0 && c.height % c.gridY == 0
    && c.scan in {2, 4, 8, 16, 32}
    && c.height / c.gridY % (2 * c.scan) == 0
    && c.segment <= 255
    && (c.segment != 0 ==> c.width / c.gridX % c.segment == 0)
  }

  function DefaultSpeed(e: Effect): nat {
    match e
    case Plasma => 2
    case Stripes => 4
    case Wave => 4
    case Scroll => 3
    case Cycle => 3
    case Fade => 2
    case Fire => 4
    case Sparkle => 4
    case Ripple => 4
    case Gradient => 0
  }

  predicate ColorOk(k: Color) {
    match k
    case Fixed(rgb) => rgb < 0x1000000
    case Animated(effect, speed, palette, scale) =>
      && (if DefaultSpeed(effect) == 0 then speed == 0 else 1 <= speed <= EFFECT_SPEED_MAX)
      && |palette| <= PALETTE_MAX
      && (forall i | 0 <= i < |palette| :: palette[i] < 8)
      && 1 <= scale <= SCALE_MAX
  }

  predicate Accepted(c: Config) {
    && GeometryOk(c)
    && CLOCK_MIN_KHZ <= c.clockKhz <= CLOCK_MAX_KHZ
    && 1 <= c.depth <= MAX_DEPTH
    && ColorOk(c.color) && ColorOk(c.offColor)
    && c.brightness <= BRIGHTNESS_MAX
  }

  // ---- derived sizes ----

  function PanelW(c: Config): (w: nat)
    requires GeometryOk(c)
    ensures 0 < w && c.gridX * w == c.width
  {
    DivModParts(c.width, c.gridX);
    c.width / c.gridX
  }

  function PanelH(c: Config): (h: nat)
    requires GeometryOk(c)
    ensures 0 < h && c.gridY * h == c.height
  {
    DivModParts(c.height, c.gridY);
    c.height / c.gridY
  }

  function HalfRows(c: Config): (h: nat)
    requires GeometryOk(c)
    ensures 0 < h && 2 * h == PanelH(c)
  {
    DivModParts(PanelH(c), 2 * c.scan);
    assert PanelH(c) == 2 * (PanelH(c) / (2 * c.scan) * c.scan) by {
      MulAssoc(PanelH(c) / (2 * c.scan), 2, c.scan);
    }
    PanelH(c) / 2
  }

  /** How many rows of a panel half share one row address. */
  function RowBlocks(c: Config): (n: nat)
    requires GeometryOk(c)
    ensures 0 < n && n * c.scan == HalfRows(c)
  {
    DivModParts(PanelH(c), 2 * c.scan);
    var q := PanelH(c) / (2 * c.scan);
    assert HalfRows(c) == q * c.scan + 0 by { MulAssoc(q, 2, c.scan); }
    DivModUnique(q, 0, c.scan);
    HalfRows(c) / c.scan
  }

  /** The rows sharing an address fit a byte exactly if a panel has less than 512 rows for each address. */
  lemma RowBlocksFitByte(c: Config)
    requires GeometryOk(c)
    ensures RowBlocks(c) <= 255 <==> PanelH(c) < 512 * c.scan
  {
    var n := RowBlocks(c);
    if n <= 255 {
      MulMono(n, 255, c.scan);
    } else {
      MulMono(256, n, c.scan);
    }
  }

  /** The index of column x of row block b in a table of so many columns a block. */
  function TableIndex(b: nat, x: nat, columns: nat): nat {
    b * columns + x
  }

  lemma LastBlockStart(n: nat, columns: nat)
    requires 255 < n
    ensures TableIndex(n - 1, 0, columns) >= n % 256 * columns
  {
    MulMono(n % 256, n - 1, columns);
  }

  /** The table is as large as the byte says: it has a place for every column of the rows sharing an address exactly if
      their number fits one. */
  lemma TableHoldsRows(c: Config)
    requires GeometryOk(c)
    ensures (forall b, x | 0 <= b < RowBlocks(c) && 0 <= x < c.width ::
               TableIndex(b, x, c.width) < RowBlocks(c) % 256 * c.width)
            <==> RowBlocks(c) <= 255
  {
    var n := RowBlocks(c);
    assert 0 < c.width;
    hide RowBlocks, GeometryOk, TableIndex;
    if n <= 255 {
      forall b, x | 0 <= b < n && 0 <= x < c.width
        ensures TableIndex(b, x, c.width) < n % 256 * c.width
      {
        PlaceInTable(b, x, n, c.width);
      }
    } else {
      LastBlockStart(n, c.width);
    }
  }

  lemma PlaceInTable(b: nat, x: nat, n: nat, columns: nat)
    requires b < n <= 255 && x < columns
    ensures TableIndex(b, x, columns) < n % 256 * columns
  {
    PairBound(b, x, n, columns);
  }

  /** Columns of a piece of a panel's rows: a segment, or the panel's whole width. */
  function SegW(c: Config): (w: nat)
    requires GeometryOk(c)
    ensures 0 < w
  {
    if c.segment != 0 then c.segment else PanelW(c)
  }

  /** Pieces a panel's width is cut into. */
  function Segs(c: Config): (n: nat)
    requires GeometryOk(c)
    ensures 0 < n && n * SegW(c) == PanelW(c)
  {
    DivModParts(PanelW(c), SegW(c));
    if c.segment == 0 then
      DivModUnique(1, 0, PanelW(c));
      1
    else
      PanelW(c) / SegW(c)
  }

  /** Chain positions one panel takes on one row address. */
  function PanelCells(c: Config): (n: nat)
    requires GeometryOk(c)
    ensures 0 < n
  {
    PanelW(c) * RowBlocks(c)
  }

  /** Chain positions one row of panels takes on one row address. */
  function GridRowCells(c: Config): (n: nat)
    requires GeometryOk(c)
    ensures 0 < n && n == c.gridX * PanelCells(c) == c.width * RowBlocks(c)
  {
    MulAssoc(c.gridX, PanelW(c), RowBlocks(c));
    c.width * RowBlocks(c)
  }

  function TotalPanels(c: Config): (n: nat)
    requires GeometryOk(c)
    ensures 1 <= n <= MAX_PANELS
  {
    MulMono(1, c.gridX, c.gridY);
    c.gridX * c.gridY
  }

  function ChainLen(c: Config): (n: nat)
    requires GeometryOk(c)
    ensures 0 < n && n == c.gridY * GridRowCells(c) == TotalPanels(c) * PanelCells(c)
  {
    var rowCells := GridRowCells(c);
    assert c.width * c.gridY * RowBlocks(c) == c.gridY * rowCells by {
      MulAssoc(c.gridY, c.width, RowBlocks(c));
    }
    assert TotalPanels(c) * PanelCells(c) == c.gridY * rowCells by {
      MulAssoc(c.gridY, c.gridX, PanelCells(c));
    }
    MulMono(1, c.gridY, rowCells);
    c.width * c.gridY * RowBlocks(c)
  }

  lemma ChainProduct(scan: nat, gridX: nat, gridY: nat, pw: nat, ph: nat, rb: nat)
    requires 2 * (rb * scan) == ph
    ensures scan * (gridY * (gridX * pw * rb)) * 2 == (gridX * pw) * (gridY * ph)
  {
    var w := gridX * pw;
    calc {
      scan * (gridY * (w * rb)) * 2;
      { MulAssoc(gridY, w, rb); MulAssoc(scan, gridY * w, rb); }
      (gridY * w) * (rb * scan) * 2;
      { MulAssoc(gridY * w, rb * scan, 2); }
      (w * gridY) * ph;
      { MulAssoc(w, gridY, ph); }
      w * (gridY * ph);
    }
  }

  /** Every pixel pair a chain drives is one of the display's: nothing is lost, nothing is driven twice,
      and the chain's counters stay inside their 16-bit variables. */
  lemma ChainCountsPixels(c: Config)
    requires GeometryOk(c)
    ensures c.scan * ChainLen(c) * 2 == c.width * c.height
    ensures ChainLen(c) <= 4096
  {
    ChainProduct(c.scan, c.gridX, c.gridY, PanelW(c), PanelH(c), RowBlocks(c));
    MulMono(2, c.scan, ChainLen(c));
  }
}
