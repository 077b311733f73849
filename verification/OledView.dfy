/** The OLED's geometry: rotation between software and controller, and the window of its RAM that is drawn. */
module OledView {
  import Arith

  const RAM_COLS: nat := 128
  const RAM_ROWS: nat := 64

  datatype OledConfig = OledConfig(width: nat, height: nat, x: nat, y: nat, rotation: nat)

  /** A supported panel: its size and its first column in display RAM. */
  datatype OledSize = OledSize(width: nat, height: nat, offsetX: nat)

  const SIZES: seq<OledSize> := [
    OledSize(128, 64, 0), OledSize(128, 32, 0), OledSize(96, 16, 0),
    OledSize(72, 40, 28), OledSize(64, 48, 32), OledSize(64, 32, 32)]

  function SizeFind(width: nat, height: nat, i: nat): (j: nat)
    requires i <= |SIZES|
    ensures i <= j <= |SIZES| && (j < |SIZES| ==> SIZES[j].width == width && SIZES[j].height == height)
    decreases |SIZES| - i
  {
    if i == |SIZES| || (SIZES[i].width == width && SIZES[i].height == height) then i else SizeFind(width, height, i + 1)
  }

  predicate ConfigOk(c: OledConfig) {
    && SizeFind(c.width, c.height, 0) < |SIZES| && c.x < RAM_COLS && c.y < RAM_ROWS
    && c.rotation in {0, 90, 180, 270}
  }

  function OffsetX(c: OledConfig): nat
    requires ConfigOk(c)
  {
    SIZES[SizeFind(c.width, c.height, 0)].offsetX
  }

  lemma SizeBounds(c: OledConfig)
    requires ConfigOk(c)
    ensures 0 < c.width <= RAM_COLS && 0 < c.height <= RAM_ROWS && c.height % 8 == 0 && OffsetX(c) <= 32
  {
    assert forall i | 0 <= i < |SIZES| ::
        0 < SIZES[i].width <= RAM_COLS && 0 < SIZES[i].height <= RAM_ROWS
        && SIZES[i].height % 8 == 0 && SIZES[i].offsetX <= 32;
  }

  /** Where each panel is bonded to the controller. */
  lemma OffsetOfSize(c: OledConfig)
    requires ConfigOk(c)
    ensures OffsetX(c) == if c.width == 72 then 28 else if c.width == 64 then 32 else 0
    ensures (c.width, c.height) in {(128, 64), (128, 32), (96, 16), (72, 40), (64, 48), (64, 32)}
  {
  }

  // ---- rotation ----

  predicate FlipsCols(rotation: nat) {
    rotation == 90 || rotation == 180
  }

  predicate FlipsRows(rotation: nat) {
    rotation == 180 || rotation == 270
  }

  predicate Transposes(rotation: nat) {
    rotation == 90 || rotation == 270
  }

  /** The image's size as it is drawn, before rotation. */
  function ViewW(c: OledConfig): nat {
    if Transposes(c.rotation) then c.height else c.width
  }

  function ViewH(c: OledConfig): nat {
    if Transposes(c.rotation) then c.width else c.height
  }

  /** Where the image's pixel (vx, vy) is put in the panel's frame. */
  function FramePixel(c: OledConfig, vx: int, vy: int): (int, int) {
    if Transposes(c.rotation) then (vy, vx) else (vx, vy)
  }

  /** The segment that shows a RAM column; the unflipped setting is the remapped one, column 127 on segment 0. */
  function Segment(flipped: bool, ramCol: int): int {
    if flipped then ramCol else RAM_COLS - 1 - ramCol
  }

  /** The common line that shows a row; the unflipped setting scans from the last one. */
  function Common(flipped: bool, row: int, height: nat): int {
    if flipped then row else height - 1 - row
  }

  /** The RAM column of frame column 0; a controller that flips columns counts it from the other end. */
  function Start(c: OledConfig): int
    requires ConfigOk(c)
  {
    var start := OffsetX(c) + c.x;
    if FlipsCols(c.rotation) then RAM_COLS - start - c.width else start
  }

  /** Unrotated, the frame starts the configured number of columns behind the panel's first. */
  lemma UnrotatedStart(c: OledConfig)
    requires ConfigOk(c) && c.rotation == 0
    ensures Start(c) == OffsetX(c) + c.x
  {
  }

  /** Where a frame pixel is seen on the glass, counted as an unrotated panel of this configuration shows it: its
      frame pixel (0, 0) at the top left. */
  function Glass(c: OledConfig, px: int, py: int): (int, int)
    requires ConfigOk(c)
  {
    var unrotated := c.(rotation := 0);
    (Segment(false, Start(unrotated)) - Segment(FlipsCols(c.rotation), Start(c) + px),
     Common(false, 0, c.height) - Common(FlipsRows(c.rotation), py, c.height))
  }

  /** The clockwise rotation of an image of the given size. */
  function Rotated(rotation: nat, w: nat, h: nat, vx: int, vy: int): (int, int) {
    if rotation == 90 then (h - 1 - vy, vx)
    else if rotation == 180 then (w - 1 - vx, h - 1 - vy)
    else if rotation == 270 then (vy, w - 1 - vx)
    else (vx, vy)
  }

  /** A quarter turn clockwise puts the image's top left corner at the top right and its left edge at the top; two of
      them are the half turn, three the turn to the left. */
  lemma QuarterTurns(w: nat, h: nat, vx: int, vy: int)
    ensures Rotated(90, w, h, 0, 0) == (h - 1, 0) && Rotated(90, w, h, 0, h - 1) == (0, 0)
    ensures var (x, y) := Rotated(90, w, h, vx, vy);
            && Rotated(90, w, h, vx + 1, vy) == (x, y + 1) && Rotated(90, w, h, vx, vy + 1) == (x - 1, y)
            && Rotated(180, w, h, vx, vy) == Rotated(90, h, w, x, y)
    ensures var (x, y) := Rotated(180, w, h, vx, vy); Rotated(270, w, h, vx, vy) == Rotated(90, w, h, x, y)
    ensures Rotated(0, w, h, vx, vy) == (vx, vy)
  {
  }

  /** The controller's flips and the software's transpose together are exactly the clockwise rotation, on the same
      glass columns and rows as the unrotated image. */
  lemma FlipsAndTransposeRotate(c: OledConfig, vx: int, vy: int)
    requires ConfigOk(c) && 0 <= vx < ViewW(c) && 0 <= vy < ViewH(c)
    ensures var (px, py) := FramePixel(c, vx, vy);
            && 0 <= px < c.width && 0 <= py < c.height
            && Glass(c, px, py) == Rotated(c.rotation, ViewW(c), ViewH(c), vx, vy)
            && 0 <= Glass(c, px, py).0 < c.width && 0 <= Glass(c, px, py).1 < c.height
  {
    var u := c.(rotation := 0);
    assert OffsetX(u) == OffsetX(c);
    hide OffsetX, SizeFind;
    if c.rotation == 0 {
    } else if c.rotation == 90 {
    } else if c.rotation == 180 {
    } else {
      assert c.rotation == 270;
    }
  }

  // ---- the draw window ----

  /** The part of the frame that fits RAM: frame columns left out before it, its place and width in RAM, its pages. */
  datatype Window = Window(skip: nat, col: nat, cols: nat, pages: nat)

  function WindowOf(c: OledConfig): Window
    requires ConfigOk(c)
  {
    var start := Start(c);
    var skip := if start < 0 then -start else 0;
    Window(skip, start + skip, Arith.Max(Arith.Min(c.width, RAM_COLS - start) - skip, 0), c.height / 8)
  }

  /** The window lies in RAM and in the frame, and takes in every frame column whose RAM column exists. */
  lemma WindowFits(c: OledConfig, px: int)
    requires ConfigOk(c)
    ensures var w := WindowOf(c);
            && w.skip <= 255 && w.col <= 255 && w.pages <= RAM_ROWS / 8 && w.pages * 8 == c.height
            && (w.cols > 0 ==> w.col + w.cols <= RAM_COLS && w.skip + w.cols <= c.width)
            && (0 <= px < c.width && 0 <= Start(c) + px < RAM_COLS <==> w.skip <= px < w.skip + w.cols)
            && (w.skip <= px < w.skip + w.cols ==> w.col + (px - w.skip) == Start(c) + px)
  {
    SizeBounds(c);
  }
}
