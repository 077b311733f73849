/** The OLED's pages: what each byte shows, pixel by pixel, and the tables that get there faster. */
module OledRender {
  import Arith
  import opened AxisMap
  import opened OledView

  datatype Mapping = Mapping(present: bool, x: int, y: int, scaleX: nat, scaleY: nat)

  datatype NodemConfig = NodemConfig(width: nat, height: nat, oled: Mapping)

  predicate NodemOk(nc: NodemConfig) {
    && 1 <= nc.width <= MAX_DIMENSION && 1 <= nc.height <= MAX_DIMENSION
    && 1 <= nc.oled.scaleX && 1 <= nc.oled.scaleY
  }

  /** Bytes of a framebuffer: a bit per pixel, rows packed without padding. */
  function BufferLen(nc: NodemConfig): nat {
    (nc.width * nc.height + 7) / 8
  }

  type Fb = seq<bv8>

  function BitMask(k: nat): bv8
    requires k < 8
  {
    [0x80, 0x40, 0x20, 0x10, 0x08, 0x04, 0x02, 0x01][k]
  }

  function RowMask(b: nat): bv8
    requires b < 8
  {
    [0x01, 0x02, 0x04, 0x08, 0x10, 0x20, 0x40, 0x80][b]
  }

  predicate FbLit(fb: Fb, bit: nat)
    requires bit < 8 * |fb|
  {
    fb[bit / 8] & BitMask(bit % 8) != 0
  }

  lemma PixelInBuffer(nc: NodemConfig, fx: nat, fy: nat)
    requires fx < nc.width && fy < nc.height
    ensures 0 <= fy * nc.width + fx < nc.width * nc.height <= 8 * BufferLen(nc)
  {
    Arith.PairBound(fy, fx, nc.height, nc.width);
    Arith.DivModParts(nc.width * nc.height + 7, 8);
  }

  // ---- what a panel pixel shows ----

  /** The framebuffer column and row an image pixel reads, possibly outside. */
  function FbColumn(oc: OledConfig, nc: NodemConfig, vx: nat): int
    requires NodemOk(nc)
  {
    MapAxis(vx, ViewW(oc), nc.width, nc.oled.scaleX, nc.oled.x)
  }

  function FbRow(oc: OledConfig, nc: NodemConfig, vy: nat): int
    requires NodemOk(nc)
  {
    MapAxis(vy, ViewH(oc), nc.height, nc.oled.scaleY, nc.oled.y)
  }

  predicate Inside(v: int, size: nat) {
    0 <= v < size
  }

  /** An image pixel, mapped and looked up on its own: outside the framebuffer it is off. */
  predicate ImageLit(oc: OledConfig, nc: NodemConfig, fb: Fb, vx: nat, vy: nat)
    requires NodemOk(nc) && |fb| >= BufferLen(nc)
  {
    var fx, fy := FbColumn(oc, nc, vx), FbRow(oc, nc, vy);
    Inside(fx, nc.width) && Inside(fy, nc.height) && (PixelInBuffer(nc, fx, fy); FbLit(fb, fy * nc.width + fx))
  }

  /** What is shown without a mapping: a dotted border, its dots moving on by one with the phase. */
  predicate FallbackLit(oc: OledConfig, phase: nat, vx: nat, vy: nat) {
    (vx == 0 || vy == 0 || vx + 1 == ViewW(oc) || vy + 1 == ViewH(oc)) && (vx + vy + phase) % 2 == 0
  }

  /** A pixel of the panel's frame: the image's, with rows and columns swapped for a transposed rotation. */
  predicate PanelLit(oc: OledConfig, nc: NodemConfig, fb: Fb, phase: nat, px: nat, py: nat)
    requires NodemOk(nc) && |fb| >= BufferLen(nc)
  {
    var vx, vy := if Transposes(oc.rotation) then py else px, if Transposes(oc.rotation) then px else py;
    if nc.oled.present then ImageLit(oc, nc, fb, vx, vy) else FallbackLit(oc, phase, vx, vy)
  }

  /** The lower n bits of eight pixels' byte, the first one lowest. */
  function Bits(lit: seq<bool>, n: nat): bv8
    requires n <= |lit| <= 8
  {
    if n == 0 then 0 else Bits(lit, n - 1) | if lit[n - 1] then RowMask(n - 1) else 0
  }

  function Column8(oc: OledConfig, nc: NodemConfig, fb: Fb, phase: nat, px: nat, pg: nat): (lit: seq<bool>)
    requires NodemOk(nc) && |fb| >= BufferLen(nc)
    ensures |lit| == 8
  {
    seq(8, b requires 0 <= b < 8 => PanelLit(oc, nc, fb, phase, px, pg * 8 + b))
  }

  /** The byte of page pg and frame column px. */
  function PageByte(oc: OledConfig, nc: NodemConfig, fb: Fb, phase: nat, px: nat, pg: nat): bv8
    requires NodemOk(nc) && |fb| >= BufferLen(nc)
  {
    Bits(Column8(oc, nc, fb, phase, px, pg), 8)
  }

  /** The bytes of one page, from frame column `skip` on. */
  function PageBytes(oc: OledConfig, nc: NodemConfig, fb: Fb, phase: nat, skip: nat, cols: nat, pg: nat):
    (bytes: seq<bv8>)
    requires NodemOk(nc) && |fb| >= BufferLen(nc)
    ensures |bytes| == cols
  {
    seq(cols, c requires 0 <= c => PageByte(oc, nc, fb, phase, skip + c, pg))
  }

  predicate BitSet(v: bv8, b: nat)
    requires b < 8
  {
    (v >> b) & 1 == 1
  }

  lemma {:induction false} BitsAreSet(lit: seq<bool>, n: nat, b: nat)
    requires n <= |lit| <= 8 && b < 8
    ensures BitSet(Bits(lit, n), b) <==> b < n && lit[b]
  {
    hide RowMask, BitSet;
    if n == 0 {
      BitOfMask(0, b);
    } else {
      BitsAreSet(lit, n - 1, b);
      OrMask(Bits(lit, n - 1), n - 1, b);
      BitOfMask(Bits(lit, n - 1), b);
      BitOfMask(Bits(lit, n), b);
    }
  }

  /** Bit b of a page byte is pixel b's. */
  lemma BitsShowPixels(lit: seq<bool>, n: nat, b: nat)
    requires n <= |lit| <= 8 && b < 8
    ensures (Bits(lit, n) >> b) & 1 == 1 <==> b < n && lit[b]
  {
    hide Bits;
    BitsAreSet(lit, n, b);
  }

  lemma BitOfMask(v: bv8, b: nat)
    requires b < 8
    ensures BitSet(v, b) <==> v & RowMask(b) != 0
  {
    if b == 0 {
    } else if b == 1 {
    } else if b == 2 {
    } else if b == 3 {
    } else if b == 4 {
    } else if b == 5 {
    } else if b == 6 {
    } else {
      assert b == 7;
    }
  }

  /** Bit by bit from the lowest, a byte is eight pixels. */
  ghost predicate ByteShows(byte: bv8, lit: seq<bool>)
    requires |lit| == 8
  {
    forall b | 0 <= b < 8 :: (byte >> b) & 1 == 1 <==> lit[b]
  }

  /** A page byte shows the eight rows of its page from its lowest bit up. */
  lemma PageShowsRows(oc: OledConfig, nc: NodemConfig, fb: Fb, phase: nat, px: nat, pg: nat)
    requires NodemOk(nc) && |fb| >= BufferLen(nc)
    ensures ByteShows(PageByte(oc, nc, fb, phase, px, pg), Column8(oc, nc, fb, phase, px, pg))
    ensures forall b | 0 <= b < 8 ::
              Column8(oc, nc, fb, phase, px, pg)[b] <==> PanelLit(oc, nc, fb, phase, px, pg * 8 + b)
  {
    hide Bits, PanelLit;
    var lit := Column8(oc, nc, fb, phase, px, pg);
    forall b | 0 <= b < 8
      ensures (Bits(lit, 8) >> b) & 1 == 1 <==> lit[b]
    {
      BitsShowPixels(lit, 8, b);
    }
  }

  /** Column by column from frame column `skip` on, a page's bytes show the frame. */
  ghost predicate PageShows(bytes: seq<bv8>, oc: OledConfig, nc: NodemConfig, fb: Fb, phase: nat, skip: nat, pg: nat)
    requires NodemOk(nc) && |fb| >= BufferLen(nc)
  {
    forall c | 0 <= c < |bytes| :: ByteShows(bytes[c], Column8(oc, nc, fb, phase, skip + c, pg))
  }

  lemma PageBytesShow(oc: OledConfig, nc: NodemConfig, fb: Fb, phase: nat, skip: nat, cols: nat, pg: nat)
    requires NodemOk(nc) && |fb| >= BufferLen(nc)
    ensures PageShows(PageBytes(oc, nc, fb, phase, skip, cols, pg), oc, nc, fb, phase, skip, pg)
  {
    var bytes := PageBytes(oc, nc, fb, phase, skip, cols, pg);
    forall c | 0 <= c < |bytes|
      ensures ByteShows(bytes[c], Column8(oc, nc, fb, phase, skip + c, pg))
    {
      PageShowsRows(oc, nc, fb, phase, skip + c, pg);
    }
  }

  /** A framebuffer's pixels are packed from the highest bit of each byte down. */
  lemma FbHighBitFirst(fb: Fb, bit: nat)
    requires bit < 8 * |fb|
    ensures FbLit(fb, bit) <==> (fb[bit / 8] >> (7 - bit % 8)) & 1 == 1
  {
    var k := bit % 8;
    MasksMirrored(k);
    hide BitMask, RowMask;
    BitOfMask(fb[bit / 8], 7 - k);
  }

  lemma MasksMirrored(k: nat)
    requires k < 8
    ensures BitMask(k) == RowMask(7 - k)
  {
  }

  /** The panel shows each image pixel where the rotation's software part puts it - the image's, or the fallback's. */
  lemma FrameShowsImage(oc: OledConfig, nc: NodemConfig, fb: Fb, phase: nat, vx: nat, vy: nat)
    requires NodemOk(nc) && |fb| >= BufferLen(nc)
    ensures var (px, py) := FramePixel(oc, vx, vy);
            PanelLit(oc, nc, fb, phase, px, py)
            <==> if nc.oled.present then ImageLit(oc, nc, fb, vx, vy) else FallbackLit(oc, phase, vx, vy)
  {
    hide ImageLit, FallbackLit;
  }

  /** An image pixel inside the framebuffer is lit exactly if its bit is set, row by row, `width` bits a row, each
      byte's highest first; one outside is not. */
  lemma ImageReadsFramebuffer(oc: OledConfig, nc: NodemConfig, fb: Fb, vx: nat, vy: nat)
    requires NodemOk(nc) && |fb| >= BufferLen(nc)
    ensures var fx := MapAxis(vx, ViewW(oc), nc.width, nc.oled.scaleX, nc.oled.x);
            var fy := MapAxis(vy, ViewH(oc), nc.height, nc.oled.scaleY, nc.oled.y);
            if 0 <= fx < nc.width && 0 <= fy < nc.height then
              PixelInBuffer(nc, fx, fy);
              var bit := fy * nc.width + fx;
              ImageLit(oc, nc, fb, vx, vy) <==> (fb[bit / 8] >> (7 - bit % 8)) & 1 == 1
            else
              !ImageLit(oc, nc, fb, vx, vy)
  {
    var fx, fy := FbColumn(oc, nc, vx), FbRow(oc, nc, vy);
    hide MapAxis, FbLit, BufferLen;
    if Inside(fx, nc.width) && Inside(fy, nc.height) {
      PixelInBuffer(nc, fx, fy);
      FbHighBitFirst(fb, fy * nc.width + fx);
    }
  }

  /** Without a mapping the dots are on the edge alone, every second one of it, starting at the corner in phase 0, and
      the next phase shows the others. */
  lemma FallbackDots(oc: OledConfig, phase: nat, vx: nat, vy: nat)
    requires vx < ViewW(oc) && vy < ViewH(oc)
    ensures FallbackLit(oc, 0, 0, 0)
    ensures 0 < vx < ViewW(oc) - 1 && 0 < vy < ViewH(oc) - 1 ==> !FallbackLit(oc, phase, vx, vy)
    ensures var edge := vx in {0, ViewW(oc) - 1} || vy in {0, ViewH(oc) - 1};
            edge ==>
              && (FallbackLit(oc, phase + 1, vx, vy) <==> !FallbackLit(oc, phase, vx, vy))
              && (vy in {0, ViewH(oc) - 1} ==>
                    (FallbackLit(oc, phase, vx + 1, vy) <==> !FallbackLit(oc, phase, vx, vy)))
              && (vx in {0, ViewW(oc) - 1} ==>
                    (FallbackLit(oc, phase, vx, vy + 1) <==> !FallbackLit(oc, phase, vx, vy)))
  {
  }

  lemma OrMask(v: bv8, c: nat, b: nat)
    requires c < 8 && b < 8
    ensures (v | RowMask(c)) & RowMask(b) != 0 <==> b == c || v & RowMask(b) != 0
    ensures v | 0 == v
  {
  }

  lemma {:induction false} BitsSkipDark(lit: seq<bool>, low: nat, high: nat)
    requires low <= high <= |lit| <= 8 && forall b | low <= b < high :: !lit[b]
    ensures Bits(lit, high) == Bits(lit, low)
    decreases high
  {
    if low < high {
      BitsSkipDark(lit, low, high - 1);
      OrMask(Bits(lit, high - 1), 0, 0);
    }
  }

  // ---- tables ----

  /** The bit offset a coordinate contributes along an axis, -1 outside it. */
  function AxisBit(v: int, size: nat, stride: nat): int {
    if 0 <= v < size then v * stride else -1
  }

  function ColBit(oc: OledConfig, nc: NodemConfig, c: nat): int
    requires NodemOk(nc)
  {
    if Transposes(oc.rotation) then AxisBit(FbRow(oc, nc, c), nc.height, nc.width)
    else AxisBit(FbColumn(oc, nc, c), nc.width, 1)
  }

  function RowBit(oc: OledConfig, nc: NodemConfig, r: nat): int
    requires NodemOk(nc)
  {
    if Transposes(oc.rotation) then AxisBit(FbColumn(oc, nc, r), nc.width, 1)
    else AxisBit(FbRow(oc, nc, r), nc.height, nc.width)
  }

  /** Adding the two table entries gives the pixel's bit, inside the framebuffer exactly when neither is -1. */
  lemma TablesGivePixel(oc: OledConfig, nc: NodemConfig, fb: Fb, phase: nat, px: nat, py: nat)
    requires NodemOk(nc) && |fb| >= BufferLen(nc) && nc.oled.present
    ensures var c, r := ColBit(oc, nc, px), RowBit(oc, nc, py);
            && (c >= 0 && r >= 0 ==> c + r < nc.width * nc.height <= 8 * |fb|)
            && (PanelLit(oc, nc, fb, phase, px, py) <==> c >= 0 && r >= 0 && c + r < 8 * |fb| && FbLit(fb, c + r))
  {
    var vx, vy := if Transposes(oc.rotation) then py else px, if Transposes(oc.rotation) then px else py;
    var fx, fy := FbColumn(oc, nc, vx), FbRow(oc, nc, vy);
    hide MapAxis, FbLit;
    if Inside(fy, nc.height) {
      Arith.MulMono(0, fy, nc.width);
      if Inside(fx, nc.width) {
        PixelInBuffer(nc, fx, fy);
      }
    }
  }

  class Renderer {
    // The I2C data control byte's room, then one page of the frame.
    const pageBuf: array<bv8>
    // What the tables were built from.
    var valid: bool
    var width: nat
    var height: nat
    var rotation: nat
    var fbWidth: nat
    var fbHeight: nat
    var mapping: Mapping
    // Bit offsets per panel column and row.
    const colBit: array<int>
    const rowBit: array<int>

    ghost predicate Valid()
      reads this, colBit, rowBit
    {
      && pageBuf.Length == 1 + RAM_COLS && colBit.Length == RAM_COLS && rowBit.Length == RAM_ROWS && colBit != rowBit
      && (valid ==> TablesFor(OledConfig(width, height, 0, 0, rotation), NodemConfig(fbWidth, fbHeight, mapping)))
    }

    /** The tables are those of a configuration, as far as it maps the framebuffer at all. */
    ghost predicate TablesFor(oc: OledConfig, nc: NodemConfig)
      reads colBit, rowBit
    {
      && oc.width <= colBit.Length && oc.height <= rowBit.Length && NodemOk(nc)
      && (nc.oled.present ==>
            && (forall c | 0 <= c < oc.width :: colBit[c] == ColBit(oc, nc, c))
            && (forall r | 0 <= r < oc.height :: rowBit[r] == RowBit(oc, nc, r)))
    }

    constructor ()
      ensures Valid() && fresh(pageBuf) && fresh(colBit) && fresh(rowBit)
    {
      pageBuf := new bv8[1 + RAM_COLS](_ => 0);
      colBit := new int[RAM_COLS](_ => 0);
      rowBit := new int[RAM_ROWS](_ => 0);
      valid, width, height, rotation, fbWidth, fbHeight := false, 0, 0, 0, 0, 0;
      mapping := Mapping(false, 0, 0, 0, 0);
    }

    /** Rebuilds the tables unless they were built from the same configuration already. */
    method FramePrepare(oc: OledConfig, nc: NodemConfig)
      requires Valid() && ConfigOk(oc) && NodemOk(nc)
      modifies this, colBit, rowBit
      ensures Valid() && TablesFor(oc, nc)
    {
      SizeBounds(oc);
      if valid && width == oc.width && height == oc.height && rotation == oc.rotation && fbWidth == nc.width &&
         fbHeight == nc.height && mapping == nc.oled {
        return;
      }
      valid, width, height, rotation := true, oc.width, oc.height, oc.rotation;
      fbWidth, fbHeight, mapping := nc.width, nc.height, nc.oled;
      if !nc.oled.present {
        return;
      }
      BuildTables(oc, nc);
    }

    method BuildTables(oc: OledConfig, nc: NodemConfig)
      requires oc.width <= colBit.Length && oc.height <= rowBit.Length && NodemOk(nc) && colBit != rowBit
      modifies colBit, rowBit
      ensures forall c | 0 <= c < oc.width :: colBit[c] == ColBit(oc, nc, c)
      ensures forall r | 0 <= r < oc.height :: rowBit[r] == RowBit(oc, nc, r)
    {
      hide MapAxis;
      var transposed := Transposes(oc.rotation);
      var viewW := if transposed then oc.height else oc.width;
      var viewH := if transposed then oc.width else oc.height;
      var m, w, h := nc.oled, nc.width, nc.height;
      for c := 0 to oc.width
        invariant forall c' | 0 <= c' < c :: colBit[c'] == ColBit(oc, nc, c')
      {
        colBit[c] := if transposed then AxisBit(MapAxis(c, viewH, h, m.scaleY, m.y), h, w)
                     else AxisBit(MapAxis(c, viewW, w, m.scaleX, m.x), w, 1);
      }
      for r := 0 to oc.height
        invariant forall c | 0 <= c < oc.width :: colBit[c] == ColBit(oc, nc, c)
        invariant forall r' | 0 <= r' < r :: rowBit[r'] == RowBit(oc, nc, r')
      {
        rowBit[r] := if transposed then AxisBit(MapAxis(r, viewW, w, m.scaleX, m.x), w, 1)
                     else AxisBit(MapAxis(r, viewH, h, m.scaleY, m.y), h, w);
      }
    }

    /** The page's rows that are inside the framebuffer: their offsets and masks, and which rows they are. */
    method PageRows(pg: nat) returns (rows: seq<int>, masks: seq<bv8>, ghost at: seq<nat>)
      requires pg * 8 + 8 <= rowBit.Length
      ensures |rows| == |masks| == |at|
      ensures forall i | 0 <= i < |at| ::
                at[i] < 8 && rows[i] == rowBit[pg * 8 + at[i]] && rows[i] >= 0 && masks[i] == RowMask(at[i])
      ensures forall i, j | 0 <= i < j < |at| :: at[i] < at[j]
      ensures forall b | 0 <= b < 8 && rowBit[pg * 8 + b] >= 0 :: b in at
    {
      rows, masks, at := [], [], [];
      for b := 0 to 8
        invariant |rows| == |masks| == |at|
        invariant forall i | 0 <= i < |at| ::
                    at[i] < b && rows[i] == rowBit[pg * 8 + at[i]] && rows[i] >= 0 && masks[i] == RowMask(at[i])
        invariant forall i, j | 0 <= i < j < |at| :: at[i] < at[j]
        invariant forall b' | 0 <= b' < b && rowBit[pg * 8 + b'] >= 0 :: b' in at
      {
        var r := rowBit[pg * 8 + b];
        if r >= 0 {
          rows, masks, at := rows + [r], masks + [RowMask(b)], at + [b];
        }
      }
    }

    /** One byte of a page: the rows' bits whose framebuffer pixel is lit. */
    method BuildByte(oc: OledConfig, nc: NodemConfig, fb: Fb, phase: nat, px: nat, pg: nat,
                     rows: seq<int>, masks: seq<bv8>, ghost at: seq<nat>) returns (byte: bv8)
      requires Valid() && TablesFor(oc, nc) && nc.oled.present && |fb| >= BufferLen(nc)
      requires px < oc.width && pg * 8 + 8 <= oc.height && |rows| == |masks| == |at|
      requires forall i | 0 <= i < |at| ::
                 at[i] < 8 && rows[i] == rowBit[pg * 8 + at[i]] && rows[i] >= 0 && masks[i] == RowMask(at[i])
      requires forall i, j | 0 <= i < j < |at| :: at[i] < at[j]
      requires forall b | 0 <= b < 8 && rowBit[pg * 8 + b] >= 0 :: b in at
      ensures byte == PageByte(oc, nc, fb, phase, px, pg)
    {
      hide ColBit, RowBit, PanelLit, FbLit, Bits;
      ghost var lit := Column8(oc, nc, fb, phase, px, pg);
      var col := colBit[px];
      byte := 0;
      forall b | 0 <= b < 8
        ensures lit[b] <==> col >= 0 && rowBit[pg * 8 + b] >= 0 && col + rowBit[pg * 8 + b] < 8 * |fb|
                            && FbLit(fb, col + rowBit[pg * 8 + b])
      {
        TablesGivePixel(oc, nc, fb, phase, px, pg * 8 + b);
      }
      NoBits(lit);
      if col < 0 {
        BitsSkipDark(lit, 0, 8);
        return;
      }
      ghost var done := 0;
      for i := 0 to |rows|
        invariant done <= 8 && byte == Bits(lit, done) && done == if i == 0 then 0 else at[i - 1] + 1
      {
        TablesGivePixel(oc, nc, fb, phase, px, pg * 8 + at[i]);
        forall b | done <= b < at[i]
          ensures !lit[b]
        {
          NotBetween(at, i, b);
        }
        BitsSkipDark(lit, done, at[i]);
        BitsNext(lit, at[i]);
        var bit := col + rows[i];
        if FbLit(fb, bit) {
          byte := byte | masks[i];
        }
        done := at[i] + 1;
      }
      forall b | done <= b < 8
        ensures !lit[b]
      {
        NotBetween(at, |at|, b);
      }
      BitsSkipDark(lit, done, 8);
    }

    /** The bytes of one page, for the columns that are drawn. */
    method BuildPage(oc: OledConfig, nc: NodemConfig, fb: Fb, phase: nat, skip: nat, cols: nat, pg: nat)
      requires Valid() && TablesFor(oc, nc) && |fb| >= BufferLen(nc)
      requires oc.width <= RAM_COLS && skip + cols <= oc.width && pg * 8 + 8 <= oc.height
      modifies pageBuf
      ensures pageBuf[1..1 + cols] == PageBytes(oc, nc, fb, phase, skip, cols, pg)
      ensures PageShows(pageBuf[1..1 + cols], oc, nc, fb, phase, skip, pg)
    {
      hide PageByte;
      PageBytesShow(oc, nc, fb, phase, skip, cols, pg);
      BuildBytes(oc, nc, fb, phase, skip, cols, pg);
    }

    method BuildBytes(oc: OledConfig, nc: NodemConfig, fb: Fb, phase: nat, skip: nat, cols: nat, pg: nat)
      requires Valid() && TablesFor(oc, nc) && |fb| >= BufferLen(nc)
      requires oc.width <= RAM_COLS && skip + cols <= oc.width && pg * 8 + 8 <= oc.height
      modifies pageBuf
      ensures pageBuf[1..1 + cols] == PageBytes(oc, nc, fb, phase, skip, cols, pg)
    {
      hide PageByte;
      if !nc.oled.present {
        BuildFallbackPage(oc, nc, fb, phase, skip, cols, pg);
        return;
      }
      var rows, masks, at := PageRows(pg);
      for c := 0 to cols
        invariant Valid() && TablesFor(oc, nc)
        invariant forall b | 0 <= b < 8 && rowBit[pg * 8 + b] >= 0 :: b in at
        invariant forall i | 0 <= i < |at| ::
                    at[i] < 8 && rows[i] == rowBit[pg * 8 + at[i]] && rows[i] >= 0 && masks[i] == RowMask(at[i])
        invariant pageBuf[1..1 + c] == PageBytes(oc, nc, fb, phase, skip, cols, pg)[..c]
      {
        var byte := BuildByte(oc, nc, fb, phase, skip + c, pg, rows, masks, at);
        pageBuf[1 + c] := byte;
      }
    }

    /** The page without a mapping: the dotted edge. */
    method BuildFallbackPage(oc: OledConfig, nc: NodemConfig, fb: Fb, phase: nat, skip: nat, cols: nat, pg: nat)
      requires pageBuf.Length == 1 + RAM_COLS && !nc.oled.present && NodemOk(nc) && |fb| >= BufferLen(nc)
      requires oc.width <= RAM_COLS && skip + cols <= oc.width
      modifies pageBuf
      ensures pageBuf[1..1 + cols] == PageBytes(oc, nc, fb, phase, skip, cols, pg)
    {
      hide PageByte, BufferLen;
      for c := 0 to cols
        invariant pageBuf[1..1 + c] == PageBytes(oc, nc, fb, phase, skip, cols, pg)[..c]
      {
        var byte := FallbackByte(oc, nc, fb, phase, skip + c, pg);
        ghost var done := pageBuf[1..1 + c];
        pageBuf[1 + c] := byte;
        assert pageBuf[1..1 + (c + 1)] == done + [byte];
      }
    }
  }

  method FallbackByte(oc: OledConfig, nc: NodemConfig, fb: Fb, phase: nat, px: nat, pg: nat) returns (byte: bv8)
    requires !nc.oled.present && NodemOk(nc) && |fb| >= BufferLen(nc)
    ensures byte == PageByte(oc, nc, fb, phase, px, pg)
  {
    hide Bits, BufferLen, RowMask, ImageLit, FbLit;
    var transposed, viewW, viewH := Transposes(oc.rotation), ViewW(oc), ViewH(oc);
    ghost var lit := Column8(oc, nc, fb, phase, px, pg);
    byte := 0;
    NoBits(lit);
    for b := 0 to 8
      invariant byte == Bits(lit, b)
    {
      var py := pg * 8 + b;
      var vx := if transposed then py else px;
      var vy := if transposed then px else py;
      BitsNext(lit, b);
      assert lit[b] == PanelLit(oc, nc, fb, phase, px, py);
      if (vx == 0 || vy == 0 || vx + 1 == viewW || vy + 1 == viewH) && (vx + vy + phase) % 2 == 0 {
        byte := byte | RowMask(b);
      }
    }
  }

  lemma NoBits(lit: seq<bool>)
    requires |lit| == 8
    ensures Bits(lit, 0) == 0
  {
  }

  lemma BitsNext(lit: seq<bool>, b: nat)
    requires b < |lit| == 8
    ensures Bits(lit, b + 1) == if lit[b] then Bits(lit, b) | RowMask(b) else Bits(lit, b)
  {
    OrMask(Bits(lit, b), 0, 0);
  }

  /** Nothing of an increasing list lies between two neighbours, nor after its end. */
  lemma NotBetween(at: seq<nat>, i: nat, b: nat)
    requires i <= |at| && forall k, j | 0 <= k < j < |at| :: at[k] < at[j]
    requires (i > 0 ==> at[i - 1] < b) && (i < |at| ==> b < at[i])
    ensures b !in at
  {
    forall k | 0 <= k < |at|
      ensures at[k] != b
    {
      if k < i {
        assert at[k] <= at[i - 1];
      } else {
        assert at[i] <= at[k];
      }
    }
  }
}
