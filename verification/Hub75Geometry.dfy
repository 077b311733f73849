/** Where a display pixel lives on the panel chain, and which pixel a chain position shows. */
module Hub75Geometry {
  import opened Arith
  import opened Hub75Config

  /** A pixel's place: its row address, its chain position (0 nearest the input) and its half's data lines. */
  datatype Place = Place(addr: nat, pos: nat, half: nat)

  predicate InDisplay(c: Config, x: int, y: int) {
    0 <= x < c.width && 0 <= y < c.height
  }

  predicate OnChain(c: Config, p: Place)
    requires GeometryOk(c)
  {
    p.addr < c.scan && p.pos < ChainLen(c) && p.half < 2
  }

  function Flip(flip: bool, v: nat, n: nat): (w: nat)
    requires v < n
    ensures w < n
  {
    if flip then n - 1 - v else v
  }

  // ---- one row of panels: (row block, column) <-> position ----

  /** The position of column x of row block b along its row of panels. */
  function ChainPos(c: Config, b: nat, x: nat): (p: nat)
    requires GeometryOk(c) && b < RowBlocks(c) && x < c.width
    ensures p < GridRowCells(c)
  {
    var pw, sw, rb := PanelW(c), SegW(c), RowBlocks(c);
    var order := Flip(c.farFirst, b, rb);
    DivModParts(x, pw); DivModParts(x % pw, sw);
    DivBelow(x, c.gridX, pw);
    DivBelow(x % pw, Segs(c), sw);
    var seg := x % pw / sw * rb + order;
    var off := Flip(c.zigzag && seg % 2 == 1, x % pw % sw, sw);
    PairBound(x % pw / sw, order, Segs(c), rb);
    SegCells(c);
    PairBound(seg, off, Segs(c) * rb, sw);
    PairBound(x / pw, seg * sw + off, c.gridX, PanelCells(c));
    x / pw * PanelCells(c) + (seg * sw + off)
  }

  /** The position put together the way the driver does. */
  lemma ChainPosParts(c: Config, b: nat, x: nat, order: nat, seg: nat, off: nat)
    requires GeometryOk(c) && b < RowBlocks(c) && x < c.width
    requires order == if c.farFirst then RowBlocks(c) - 1 - b else b
    requires seg == x % PanelW(c) / SegW(c) * RowBlocks(c) + order
    requires off == if c.zigzag && seg % 2 == 1 then SegW(c) - 1 - x % PanelW(c) % SegW(c) else x % PanelW(c) % SegW(c)
    ensures x / PanelW(c) * PanelW(c) * RowBlocks(c) + seg * SegW(c) + off == ChainPos(c, b, x)
  {
    MulAssoc(x / PanelW(c), PanelW(c), RowBlocks(c));
  }

  /** With one row per address, the position of a column is its own unless its piece is one that zigzag turns. */
  lemma OneRowPos(c: Config, x: nat)
    requires GeometryOk(c) && RowBlocks(c) == 1 && x < c.width
    ensures var off := x % PanelW(c) % SegW(c);
            var turned := c.zigzag && x % PanelW(c) / SegW(c) % 2 == 1;
            ChainPos(c, 0, x) == if turned then x - off + (SegW(c) - 1 - off) else x
  {
    var pw, sw := PanelW(c), SegW(c);
    DivModParts(x, pw);
    DivModParts(x % pw, sw);
    assert PanelCells(c) == pw;
  }

  /** The chain's own order is meant not to matter with one row per address. It doesn't exactly if no piece is turned
      by zigzag: there is no zigzag, the pieces are single columns, or a panel is a single piece. */
  lemma OneRowIgnoresChain(c: Config)
    requires GeometryOk(c) && RowBlocks(c) == 1
    ensures (forall x | 0 <= x < c.width :: ChainPos(c, 0, x) == x) <==> !(c.zigzag && SegW(c) > 1 && Segs(c) > 1)
  {
    var pw, sw := PanelW(c), SegW(c);
    if c.zigzag && sw > 1 && Segs(c) > 1 {
      MulMono(2, Segs(c), sw);
      MulMono(1, c.gridX, pw);
      DivModUnique(0, sw, pw);
      DivModUnique(1, 0, sw);
      OneRowPos(c, sw);
    } else {
      forall x | 0 <= x < c.width
        ensures ChainPos(c, 0, x) == x
      {
        OneRowPos(c, x);
        DivModParts(x, pw);
        DivModParts(x % pw, sw);
        DivBelow(x % pw, Segs(c), sw);
      }
    }
  }

  /** So it does matter on a 64x32 panel with 16 row addresses and pieces of 8 columns in a zigzag: column 8 is at
      15. */
  lemma TurnedWithOneRow()
    ensures exists c: Config :: Accepted(c) && RowBlocks(c) == 1 && 8 < c.width && ChainPos(c, 0, 8) == 15
  {
    var c :=
      Config(64, 32, true, false, 1, 1, false, 16, false, 8, true, 500, Shift, 4, Fixed(0xff0000), Fixed(0), 512);
    assert Accepted(c) && RowBlocks(c) == 1 && PanelW(c) == 64 && SegW(c) == 8;
    hide ChainPos, Accepted, RowBlocks, PanelW, SegW;
    OneRowPos(c, 8);
  }

  lemma SegCells(c: Config)
    requires GeometryOk(c)
    ensures Segs(c) * RowBlocks(c) * SegW(c) == PanelCells(c)
  {
    MulAssoc(Segs(c), RowBlocks(c), SegW(c));
    MulAssoc(Segs(c), SegW(c), RowBlocks(c));
  }

  /** The row block and column at position p along a row of panels: ChainPos backwards. */
  function ChainCell(c: Config, p: nat): (cell: (nat, nat))
    requires GeometryOk(c) && p < GridRowCells(c)
    ensures cell.0 < RowBlocks(c) && cell.1 < c.width
  {
    var pw, sw, rb, cells := PanelW(c), SegW(c), RowBlocks(c), PanelCells(c);
    DivBelow(p, c.gridX, cells);
    DivModParts(p, cells);
    var r := p % cells;
    SegCells(c);
    DivBelow(r, Segs(c) * rb, sw);
    DivModParts(r, sw);
    var seg := r / sw;
    DivBelow(seg, Segs(c), rb);
    DivModParts(seg, rb);
    var off := Flip(c.zigzag && seg % 2 == 1, r % sw, sw);
    PairBound(seg / rb, off, Segs(c), sw);
    PairBound(p / cells, seg / rb * sw + off, c.gridX, pw);
    (Flip(c.farFirst, seg % rb, rb), p / cells * pw + (seg / rb * sw + off))
  }

  /** Along a row of panels, the panels come one after the other. */
  lemma ChainPosPanel(c: Config, b: nat, x: nat)
    requires GeometryOk(c) && b < RowBlocks(c) && x < c.width
    ensures ChainPos(c, b, x) / PanelCells(c) == x / PanelW(c)
  {
    var pw, sw, rb := PanelW(c), SegW(c), RowBlocks(c);
    var order := Flip(c.farFirst, b, rb);
    DivModParts(x, pw); DivModParts(x % pw, sw);
    DivBelow(x % pw, Segs(c), sw);
    var seg := x % pw / sw * rb + order;
    var off := Flip(c.zigzag && seg % 2 == 1, x % pw % sw, sw);
    PairBound(x % pw / sw, order, Segs(c), rb);
    SegCells(c);
    PairBound(seg, off, Segs(c) * rb, sw);
    DivModUnique(x / pw, seg * sw + off, PanelCells(c));
  }

  lemma ChainPosRoundTrip(c: Config, b: nat, x: nat)
    requires GeometryOk(c) && b < RowBlocks(c) && x < c.width
    ensures ChainCell(c, ChainPos(c, b, x)) == (b, x)
  {
    var pw, sw, rb := PanelW(c), SegW(c), RowBlocks(c);
    var order := Flip(c.farFirst, b, rb);
    DivModParts(x, pw); DivModParts(x % pw, sw);
    DivBelow(x % pw, Segs(c), sw);
    var piece := x % pw / sw;
    var seg := piece * rb + order;
    var off := Flip(c.zigzag && seg % 2 == 1, x % pw % sw, sw);
    PairBound(piece, order, Segs(c), rb);
    SegCells(c);
    PairBound(seg, off, Segs(c) * rb, sw);
    DivModUnique(x / pw, seg * sw + off, PanelCells(c));
    DivModUnique(seg, off, sw);
    DivModUnique(piece, order, rb);
  }

  lemma ChainCellRoundTrip(c: Config, p: nat)
    requires GeometryOk(c) && p < GridRowCells(c)
    ensures var cell := ChainCell(c, p); ChainPos(c, cell.0, cell.1) == p
  {
    var pw, sw, rb, cells := PanelW(c), SegW(c), RowBlocks(c), PanelCells(c);
    DivBelow(p, c.gridX, cells);
    DivModParts(p, cells);
    var r := p % cells;
    SegCells(c);
    DivBelow(r, Segs(c) * rb, sw);
    DivModParts(r, sw);
    var seg := r / sw;
    DivBelow(seg, Segs(c), rb);
    DivModParts(seg, rb);
    var off := Flip(c.zigzag && seg % 2 == 1, r % sw, sw);
    PairBound(seg / rb, off, Segs(c), sw);
    DivModUnique(p / cells, seg / rb * sw + off, pw);
    DivModUnique(seg / rb, off, sw);
  }

  /** The table the driver keeps of a row of panels: block after block, column after column. */
  function TableEntry(c: Config, i: nat): (p: nat)
    requires GeometryOk(c) && i < GridRowCells(c)
    ensures p < GridRowCells(c)
  {
    DivBelow(i, RowBlocks(c), c.width);
    DivModParts(i, c.width);
    ChainPos(c, i / c.width, i % c.width)
  }

  lemma TableEntryAt(c: Config, b: nat, x: nat)
    requires GeometryOk(c) && b < RowBlocks(c) && x < c.width
    ensures b * c.width + x < GridRowCells(c)
    ensures TableEntry(c, b * c.width + x) == ChainPos(c, b, x)
  {
    PairBound(b, x, RowBlocks(c), c.width);
    DivModUnique(b, x, c.width);
  }

  /** The table is a permutation of the positions of a row of panels: every position is in it, at one place. */
  lemma TableIsPermutation(c: Config, table: seq<nat>)
    requires GeometryOk(c) && |table| == GridRowCells(c)
    requires forall i | 0 <= i < |table| :: table[i] == TableEntry(c, i)
    ensures forall i | 0 <= i < |table| :: table[i] < |table|
    ensures forall i, j | 0 <= i < |table| && 0 <= j < |table| && table[i] == table[j] :: i == j
    ensures forall p | 0 <= p < |table| :: p in table
  {
    forall i, j | 0 <= i < |table| && 0 <= j < |table| && table[i] == table[j]
      ensures i == j
    {
      CellOfEntry(c, i);
      CellOfEntry(c, j);
    }
    forall p | 0 <= p < |table|
      ensures p in table
    {
      var cell := ChainCell(c, p);
      ChainCellRoundTrip(c, p);
      TableEntryAt(c, cell.0, cell.1);
      assert table[cell.0 * c.width + cell.1] == p;
    }
  }

  lemma CellOfEntry(c: Config, i: nat)
    requires GeometryOk(c) && i < GridRowCells(c)
    ensures var cell := ChainCell(c, TableEntry(c, i)); cell.0 * c.width + cell.1 == i
  {
    DivBelow(i, RowBlocks(c), c.width);
    DivModParts(i, c.width);
    ChainPosRoundTrip(c, i / c.width, i % c.width);
  }

  // ---- the whole display ----

  predicate UpsideDown(c: Config, gridRow: nat) {
    c.serpentine && gridRow % 2 == 1
  }

  /** A display row's place: its row of panels, half, row block and row address, and whether the chain runs
      through its columns from the right. */
  datatype Row = Row(gridRow: nat, half: nat, block: nat, addr: nat, reverse: bool)

  predicate RowOk(c: Config, r: Row)
    requires GeometryOk(c)
  {
    && r.gridRow < c.gridY && r.half < 2 && r.block < RowBlocks(c) && r.addr < c.scan
    && r.reverse == (c.flipX != UpsideDown(c, r.gridRow))
  }

  function LocateRow(c: Config, y: nat): (r: Row)
    requires GeometryOk(c) && y < c.height
    ensures RowOk(c, r)
  {
    var h, hr := PanelH(c), HalfRows(c);
    var fy := Flip(c.flipY, y, c.height);
    DivBelow(fy, c.gridY, h);
    DivModParts(fy, h);
    var gridRow := fy / h;
    var py := Flip(UpsideDown(c, gridRow), fy % h, h);
    DivBelow(py, 2, hr);
    DivModParts(py, hr);
    var row := py % hr;
    DivBelow(row, RowBlocks(c), c.scan);
    DivModParts(row, c.scan);
    Row(gridRow, py / hr, row / c.scan, row % c.scan, c.flipX != UpsideDown(c, gridRow))
  }

  function RowAt(c: Config, r: Row): (y: nat)
    requires GeometryOk(c) && RowOk(c, r)
    ensures y < c.height
  {
    var h, hr := PanelH(c), HalfRows(c);
    PairBound(r.block, r.addr, RowBlocks(c), c.scan);
    var row := r.block * c.scan + r.addr;
    PairBound(r.half, row, 2, hr);
    var py := Flip(UpsideDown(c, r.gridRow), r.half * hr + row, h);
    PairBound(r.gridRow, py, c.gridY, h);
    Flip(c.flipY, r.gridRow * h + py, c.height)
  }

  lemma LocateRowRoundTrip(c: Config, y: nat)
    requires GeometryOk(c) && y < c.height
    ensures RowAt(c, LocateRow(c, y)) == y
  {
    var h, hr := PanelH(c), HalfRows(c);
    var fy := Flip(c.flipY, y, c.height);
    DivBelow(fy, c.gridY, h);
    DivModParts(fy, h);
    var py := Flip(UpsideDown(c, fy / h), fy % h, h);
    DivBelow(py, 2, hr);
    DivModParts(py, hr);
    DivModParts(py % hr, c.scan);
  }

  lemma RowAtRoundTrip(c: Config, r: Row)
    requires GeometryOk(c) && RowOk(c, r)
    ensures LocateRow(c, RowAt(c, r)) == r
  {
    var h, hr := PanelH(c), HalfRows(c);
    PairBound(r.block, r.addr, RowBlocks(c), c.scan);
    var row := r.block * c.scan + r.addr;
    PairBound(r.half, row, 2, hr);
    var py := Flip(UpsideDown(c, r.gridRow), r.half * hr + row, h);
    PairBound(r.gridRow, py, c.gridY, h);
    DivModUnique(r.gridRow, py, h);
    DivModUnique(r.half, row, hr);
    DivModUnique(r.block, r.addr, c.scan);
  }

  /** Pixel (x, y)'s place. */
  function Locate(c: Config, x: nat, y: nat): (p: Place)
    requires GeometryOk(c) && InDisplay(c, x, y)
    ensures OnChain(c, p)
  {
    var r := LocateRow(c, y);
    var local := ChainPos(c, r.block, Flip(r.reverse, x, c.width));
    PairBound(r.gridRow, local, c.gridY, GridRowCells(c));
    Place(r.addr, r.gridRow * GridRowCells(c) + local, r.half)
  }

  function RowThrough(c: Config, p: Place): (r: Row)
    requires GeometryOk(c) && OnChain(c, p)
    ensures RowOk(c, r)
  {
    DivBelow(p.pos, c.gridY, GridRowCells(c));
    DivModParts(p.pos, GridRowCells(c));
    var gridRow := p.pos / GridRowCells(c);
    Row(gridRow, p.half, ChainCell(c, p.pos % GridRowCells(c)).0, p.addr, c.flipX != UpsideDown(c, gridRow))
  }

  /** The pixel shown at a place: Locate backwards. */
  function PixelAt(c: Config, p: Place): (xy: (nat, nat))
    requires GeometryOk(c) && OnChain(c, p)
    ensures InDisplay(c, xy.0, xy.1)
  {
    DivModParts(p.pos, GridRowCells(c));
    var r := RowThrough(c, p);
    (Flip(r.reverse, ChainCell(c, p.pos % GridRowCells(c)).1, c.width), RowAt(c, r))
  }

  lemma LocateRoundTrip(c: Config, x: nat, y: nat)
    requires GeometryOk(c) && InDisplay(c, x, y)
    ensures PixelAt(c, Locate(c, x, y)) == (x, y)
  {
    var r := LocateRow(c, y);
    var col := Flip(r.reverse, x, c.width);
    ChainPosRoundTrip(c, r.block, col);
    DivModUnique(r.gridRow, ChainPos(c, r.block, col), GridRowCells(c));
    LocateRowRoundTrip(c, y);
  }

  lemma PixelAtRoundTrip(c: Config, p: Place)
    requires GeometryOk(c) && OnChain(c, p)
    ensures var xy := PixelAt(c, p); Locate(c, xy.0, xy.1) == p
  {
    DivModParts(p.pos, GridRowCells(c));
    RowAtRoundTrip(c, RowThrough(c, p));
    ChainCellRoundTrip(c, p.pos % GridRowCells(c));
  }

  /** Two pixels never share a place. */
  lemma LocateInjective(c: Config, x: nat, y: nat, x': nat, y': nat)
    requires GeometryOk(c) && InDisplay(c, x, y) && InDisplay(c, x', y')
    requires Locate(c, x, y) == Locate(c, x', y')
    ensures x == x' && y == y'
  {
    LocateRoundTrip(c, x, y);
    LocateRoundTrip(c, x', y');
  }
}
