/** How the chain runs through the display, as the configuration's documentation puts it: where it enters, how it goes
    on from pixel to pixel, and what mirroring, serpentine and zigzag do to it. Together they fix every pixel's
    place. */
module Hub75Layout {
  import opened Arith
  import opened Hub75Config
  import opened Hub75Geometry

  /** Seen with the layout's mirroring applied. */
  predicate Upright(c: Config) {
    !c.flipX && !c.flipY
  }

  /** A piece is as many columns as the segment says, or else a whole panel's width. */
  lemma PieceWidth(c: Config)
    requires GeometryOk(c)
    ensures if c.segment != 0 then SegW(c) == c.segment else c.gridX * SegW(c) == c.width
  {
  }

  // ---- mirroring ----

  lemma SameSizes(c: Config, u: Config)
    requires GeometryOk(c) && u == c.(flipX := u.flipX, flipY := u.flipY, zigzag := u.zigzag)
    ensures GeometryOk(u) && PanelW(u) == PanelW(c) && PanelH(u) == PanelH(c) && HalfRows(u) == HalfRows(c)
    ensures RowBlocks(u) == RowBlocks(c) && SegW(u) == SegW(c) && Segs(u) == Segs(c)
    ensures PanelCells(u) == PanelCells(c) && GridRowCells(u) == GridRowCells(c)
  {
  }

  /** "r" and "b" are the display seen in a mirror. */
  lemma Mirrored(c: Config, x: nat, y: nat)
    requires GeometryOk(c) && InDisplay(c, x, y)
    ensures var u := c.(flipX := false, flipY := false);
            && GeometryOk(u)
            && Locate(c, x, y)
               == Locate(u, if c.flipX then c.width - 1 - x else x, if c.flipY then c.height - 1 - y else y)
  {
    var u := c.(flipX := false, flipY := false);
    SameSizes(c, u);
    hide PanelW, PanelH, HalfRows, RowBlocks, SegW, Segs, PanelCells, GridRowCells, GeometryOk;
  }

  // ---- from panel to panel ----

  /** Row y of a row of panels, counted down the panels as they are mounted: in each half the rows go round the row
      addresses from 0 on. */
  lemma RowOfPanels(c: Config, g: nat, y: nat)
    requires GeometryOk(c) && Upright(c) && g < c.gridY && y < PanelH(c)
    ensures g * PanelH(c) + y < c.height
    ensures var hr, py := HalfRows(c), if UpsideDown(c, g) then PanelH(c) - 1 - y else y;
            && LocateRow(c, g * PanelH(c) + y)
               == Row(g, if py < hr then 0 else 1, py % hr / c.scan, py % hr % c.scan, UpsideDown(c, g))
            && py % hr == if py < hr then py else py - hr
  {
    var h, hr := PanelH(c), HalfRows(c);
    PairBound(g, y, c.gridY, h);
    DivModUnique(g, y, h);
    var py := if UpsideDown(c, g) then h - 1 - y else y;
    hide PanelH, HalfRows, RowBlocks, GeometryOk;
    if py < hr {
      DivModUnique(0, py, hr);
    } else {
      DivModUnique(1, py - hr, hr);
    }
  }

  lemma FirstRowOfPanels(c: Config, y: nat)
    requires GeometryOk(c) && Upright(c) && y < PanelH(c)
    ensures y < c.height
    ensures var hr := HalfRows(c);
            && LocateRow(c, y) == Row(0, if y < hr then 0 else 1, y % hr / c.scan, y % hr % c.scan, false)
            && y % hr == if y < hr then y else y - hr
  {
    RowOfPanels(c, 0, y);
  }

  /** A row's place does not depend on the columns, and the positions of a row of panels follow those before it. */
  lemma Located(c: Config, x: nat, y: nat, r: Row)
    requires GeometryOk(c) && Upright(c) && InDisplay(c, x, y) && r == LocateRow(c, y)
    ensures var col := if r.reverse then c.width - 1 - x else x;
            Locate(c, x, y) == Place(r.addr, r.gridRow * GridRowCells(c) + ChainPos(c, r.block, col), r.half)
  {
    hide ChainPos, LocateRow, PanelH, HalfRows, RowBlocks, GeometryOk, GridRowCells;
  }

  /** The row of panels k below, if it is mounted the same way round, has the row at the same place. */
  lemma RowsBelow(c: Config, g: nat, y: nat, k: nat)
    requires GeometryOk(c) && Upright(c) && ((k == 1 && !c.serpentine) || k == 2)
    requires g + k < c.gridY && y < PanelH(c)
    ensures g * PanelH(c) + y < c.height && (g + k) * PanelH(c) + y < c.height
    ensures LocateRow(c, g * PanelH(c) + y).gridRow == g
    ensures LocateRow(c, (g + k) * PanelH(c) + y) == LocateRow(c, g * PanelH(c) + y).(gridRow := g + k)
  {
    hide LocateRow, PanelH, HalfRows, RowBlocks, GeometryOk, UpsideDown;
    SameWayRound(c, g, k);
    RowOfPanels(c, g, y);
    RowOfPanels(c, g + k, y);
  }

  lemma SameWayRound(c: Config, g: nat, k: nat)
    requires (k == 1 && !c.serpentine) || k == 2
    ensures UpsideDown(c, g + k) == UpsideDown(c, g)
  {
  }

  /** A row of the display as a row of panels and a row of it, with k rows of panels below. */
  lemma PanelsDown(y: nat, k: nat, h: nat, panels: nat) returns (g: nat, py: nat)
    requires 0 < h && y + k * h < panels * h
    ensures y == g * h + py && y + k * h == (g + k) * h + py && g + k < panels && py < h
  {
    g, py := y / h, y % h;
    DivModParts(y, h);
    MulAdd(g, k, h);
    DivModUnique(g + k, py, h);
    DivBelow(y + k * h, panels, h);
  }

  lemma MulAdd(a: nat, b: nat, d: nat)
    ensures (a + b) * d == a * d + b * d
  {
  }

  lemma PlacesBelow(c: Config, x: nat, y: nat, below: nat, g: nat, py: nat, k: nat)
    requires GeometryOk(c) && Upright(c) && ((k == 1 && !c.serpentine) || k == 2)
    requires g + k < c.gridY && py < PanelH(c) && x < c.width
    requires y == g * PanelH(c) + py && below == (g + k) * PanelH(c) + py
    ensures InDisplay(c, x, y) && InDisplay(c, x, below)
    ensures var p := Locate(c, x, y);
            Locate(c, x, below) == p.(pos := p.pos + k * GridRowCells(c))
  {
    hide ChainPos, LocateRow, Locate, PanelH, HalfRows, RowBlocks, GeometryOk, GridRowCells;
    RowsBelow(c, g, py, k);
    Located(c, x, y, LocateRow(c, y));
    Located(c, x, below, LocateRow(c, below));
    MulAdd(g, k, GridRowCells(c));
  }

  /** Without serpentine the chain runs through the next row of panels just like through the one above it. */
  lemma NextRowOfPanels(c: Config, x: nat, y: nat)
    requires GeometryOk(c) && Upright(c) && !c.serpentine && InDisplay(c, x, y + PanelH(c))
    ensures var p := Locate(c, x, y);
            Locate(c, x, y + PanelH(c)) == p.(pos := p.pos + GridRowCells(c))
  {
    var h := PanelH(c);
    hide ChainPos, LocateRow, Locate, PanelH, HalfRows, RowBlocks, GeometryOk, GridRowCells;
    var g, py := PanelsDown(y, 1, h, c.gridY);
    PlacesBelow(c, x, y, y + h, g, py, 1);
  }

  /** With it, every second row of panels shows what is turned upside down, and the chain runs on from where it left the
      row before: the pixel diagonally opposite over the two rows is as far along in the second as this one in the
      first. */
  lemma SerpentineTurns(c: Config, x: nat, y: nat)
    requires GeometryOk(c) && Upright(c) && c.serpentine && x < c.width && y < PanelH(c) && 2 <= c.gridY
    ensures y < 2 * PanelH(c) <= c.height
    ensures var p := Locate(c, x, y);
            Locate(c, c.width - 1 - x, 2 * PanelH(c) - 1 - y) == p.(pos := p.pos + GridRowCells(c))
  {
    hide ChainPos, LocateRow, Locate, PanelH, HalfRows, RowBlocks, GeometryOk, GridRowCells;
    var h := PanelH(c);
    MulMono(2, c.gridY, h);
    RowOfPanels(c, 0, y);
    RowOfPanels(c, 1, h - 1 - y);
    Located(c, x, y, LocateRow(c, y));
    Located(c, c.width - 1 - x, 2 * h - 1 - y, LocateRow(c, 2 * h - 1 - y));
  }

  /** Two rows of panels further down it is all the same again, serpentine or not. */
  lemma SecondNextRowOfPanels(c: Config, x: nat, y: nat)
    requires GeometryOk(c) && Upright(c) && InDisplay(c, x, y + 2 * PanelH(c))
    ensures var p := Locate(c, x, y);
            Locate(c, x, y + 2 * PanelH(c)) == p.(pos := p.pos + 2 * GridRowCells(c))
  {
    var h := PanelH(c);
    hide ChainPos, LocateRow, Locate, PanelH, HalfRows, RowBlocks, GeometryOk, GridRowCells;
    var g, py := PanelsDown(y, 2, h, c.gridY);
    PlacesBelow(c, x, y, y + 2 * h, g, py, 2);
  }

  // ---- within the first row of panels ----

  /** The chain enters at the top left, on row address 0 of the upper half: with "n" at its first row, with "f" at its
      last. */
  lemma Entry(c: Config)
    requires GeometryOk(c) && Upright(c)
    ensures c.scan <= HalfRows(c) < c.height
    ensures Locate(c, 0, if c.farFirst then HalfRows(c) - c.scan else 0) == Place(0, 0, 0)
  {
    var hr, rb := HalfRows(c), RowBlocks(c);
    var y, b := if c.farFirst then hr - c.scan else 0, if c.farFirst then rb - 1 else 0;
    MulMono(1, rb, c.scan);
    FirstRowOfPanels(c, hr);
    FirstRowOfPanels(c, y);
    MulSucc(rb - 1, c.scan);
    DivModUnique(b, 0, c.scan);
    StartOfPanel(c, b);
    Located(c, 0, y, LocateRow(c, y));
    hide ChainPos, LocateRow, Locate, PanelH, HalfRows, RowBlocks, GridRowCells;
  }

  lemma StartOfPanel(c: Config, b: nat)
    requires GeometryOk(c) && b == if c.farFirst then RowBlocks(c) - 1 else 0
    ensures ChainPos(c, b, 0) == 0
  {
    DivModUnique(0, 0, PanelW(c));
    DivModUnique(0, 0, SegW(c));
  }

  /** The halves are at the same places, on the second data lines in the lower one. */
  lemma LowerHalf(c: Config, x: nat, y: nat)
    requires GeometryOk(c) && Upright(c) && x < c.width && y < HalfRows(c)
    ensures InDisplay(c, x, y + HalfRows(c)) && Locate(c, x, y).half == 0
    ensures Locate(c, x, y + HalfRows(c)) == Locate(c, x, y).(half := 1)
  {
    var hr := HalfRows(c);
    FirstRowOfPanels(c, y);
    FirstRowOfPanels(c, y + hr);
    Located(c, x, y, LocateRow(c, y));
    Located(c, x, y + hr, LocateRow(c, y + hr));
    hide ChainPos, LocateRow, Locate, PanelH, HalfRows, RowBlocks, GeometryOk, GridRowCells;
  }

  /** One row further down a half it is the next row address at the same position, and after the last one the first
      again. */
  lemma NextRow(c: Config, x: nat, y: nat)
    requires GeometryOk(c) && Upright(c) && x < c.width && y + 1 < HalfRows(c)
    ensures InDisplay(c, x, y + 1)
    ensures var p, q := Locate(c, x, y), Locate(c, x, y + 1);
            if p.addr + 1 < c.scan then q == p.(addr := p.addr + 1) else q.addr == 0
  {
    FirstRowOfPanels(c, y);
    FirstRowOfPanels(c, y + 1);
    DivModSucc(y, c.scan);
    Located(c, x, y, LocateRow(c, y));
    Located(c, x, y + 1, LocateRow(c, y + 1));
    hide ChainPos, LocateRow, Locate, PanelH, HalfRows, RowBlocks, GridRowCells;
  }

  lemma NextBlockRow(c: Config, y: nat)
    requires GeometryOk(c) && Upright(c) && y + c.scan < HalfRows(c)
    ensures y + c.scan < c.height
    ensures LocateRow(c, y + c.scan) == LocateRow(c, y).(block := LocateRow(c, y).block + 1)
  {
    hide LocateRow, PanelH, HalfRows, RowBlocks;
    FirstRowOfPanels(c, y);
    FirstRowOfPanels(c, y + c.scan);
    DivModParts(y, c.scan);
    MulSucc(y / c.scan, c.scan);
    DivModUnique(y / c.scan + 1, y % c.scan, c.scan);
  }

  /** The next row of the same address is one piece further along with "n", one piece nearer with "f". */
  lemma NextRowOfAddress(c: Config, x: nat, y: nat)
    requires GeometryOk(c) && Upright(c) && !c.zigzag && x < c.width && y + c.scan < HalfRows(c)
    ensures InDisplay(c, x, y + c.scan)
    ensures var p, q := Locate(c, x, y), Locate(c, x, y + c.scan);
            && q == p.(pos := q.pos)
            && if c.farFirst then q.pos + SegW(c) == p.pos else q.pos == p.pos + SegW(c)
  {
    hide ChainPos, LocateRow, Locate, PanelH, PanelW, HalfRows, RowBlocks, GridRowCells, SegW;
    FirstRowOfPanels(c, y);
    NextBlockRow(c, y);
    var r := LocateRow(c, y);
    NextBlock(c, r.block, x);
    Located(c, x, y, r);
    Located(c, x, y + c.scan, LocateRow(c, y + c.scan));
  }

  /** The column that is `off` columns into piece k of panel n. */
  function ColumnAt(c: Config, n: nat, k: nat, off: nat): (x: nat)
    requires GeometryOk(c)
  {
    n * PanelW(c) + (k * SegW(c) + off)
  }

  lemma ColumnParts(c: Config, x: nat) returns (n: nat, k: nat, off: nat)
    requires GeometryOk(c) && x < c.width
    ensures n < c.gridX && k < Segs(c) && off < SegW(c) && x == ColumnAt(c, n, k, off)
    ensures x % PanelW(c) == k * SegW(c) + off && x % PanelW(c) % SegW(c) == off
  {
    var pw, sw := PanelW(c), SegW(c);
    DivModParts(x, pw);
    DivModParts(x % pw, sw);
    DivBelow(x, c.gridX, pw);
    DivBelow(x % pw, Segs(c), sw);
    n, k, off := x / pw, x % pw / sw, x % pw % sw;
  }

  /** Its position: panels before its own, pieces before its own with those of the other rows in between. */
  lemma PosAt(c: Config, b: nat, n: nat, k: nat, off: nat)
    requires GeometryOk(c) && b < RowBlocks(c) && n < c.gridX && k < Segs(c) && off < SegW(c)
    ensures ColumnAt(c, n, k, off) < c.width
    ensures var seg := k * RowBlocks(c) + if c.farFirst then RowBlocks(c) - 1 - b else b;
            ChainPos(c, b, ColumnAt(c, n, k, off))
            == n * PanelCells(c) + (seg * SegW(c) + if c.zigzag && seg % 2 == 1 then SegW(c) - 1 - off else off)
  {
    var pw, sw := PanelW(c), SegW(c);
    PairBound(k, off, Segs(c), sw);
    PairBound(n, k * sw + off, c.gridX, pw);
    DivModUnique(n, k * sw + off, pw);
    DivModUnique(k, off, sw);
    hide PanelW, SegW, Segs, RowBlocks, PanelCells, GridRowCells, GeometryOk;
  }

  lemma NextBlock(c: Config, b: nat, x: nat)
    requires GeometryOk(c) && !c.zigzag && b + 1 < RowBlocks(c) && x < c.width
    ensures ChainPos(c, b + 1, x) == if c.farFirst then ChainPos(c, b, x) - SegW(c) else ChainPos(c, b, x) + SegW(c)
  {
    var n, k, off := ColumnParts(c, x);
    PosAt(c, b, n, k, off);
    PosAt(c, b + 1, n, k, off);
    hide ChainPos, PanelW, SegW, Segs, RowBlocks, PanelCells, GridRowCells, GeometryOk, ColumnAt;
    var seg := k * RowBlocks(c) + if c.farFirst then RowBlocks(c) - 1 - b else b;
    MulSucc(seg, SegW(c));
    MulSucc(seg - 1, SegW(c));
  }

  /** Along a row: one column further in a piece is one position further, the same column of the next piece is a piece
      of every row sharing the address further, and that of the next panel a whole panel. */
  lemma AlongRow(c: Config, x: nat, y: nat)
    requires GeometryOk(c) && Upright(c) && x < c.width && y < PanelH(c)
    ensures InDisplay(c, x, y)
    ensures var p, pw, sw := Locate(c, x, y), PanelW(c), SegW(c);
            && (!c.zigzag && x % pw % sw + 1 < sw ==>
                  x + 1 < c.width && Locate(c, x + 1, y) == p.(pos := p.pos + 1))
            && (!c.zigzag && x % pw + sw < pw ==>
                  x + sw < c.width && Locate(c, x + sw, y) == p.(pos := p.pos + sw * RowBlocks(c)))
            && (x + pw < c.width ==> Locate(c, x + pw, y) == p.(pos := p.pos + pw * RowBlocks(c)))
  {
    FirstRowOfPanels(c, y);
    var r, pw, sw := LocateRow(c, y), PanelW(c), SegW(c);
    NextColumn(c, r.block, x);
    NextPiece(c, r.block, x);
    NextPanel(c, r.block, x);
    Located(c, x, y, r);
    if x + 1 < c.width { Located(c, x + 1, y, r); }
    if x + sw < c.width { Located(c, x + sw, y, r); }
    if x + pw < c.width { Located(c, x + pw, y, r); }
    hide ChainPos, LocateRow, Locate, PanelH, PanelW, HalfRows, RowBlocks, GridRowCells, SegW, GeometryOk;
  }

  lemma NextColumn(c: Config, b: nat, x: nat)
    requires GeometryOk(c) && b < RowBlocks(c) && x < c.width
    ensures !c.zigzag && x % PanelW(c) % SegW(c) + 1 < SegW(c) ==>
              x + 1 < c.width && ChainPos(c, b, x + 1) == ChainPos(c, b, x) + 1
  {
    var n, k, off := ColumnParts(c, x);
    if !c.zigzag && off + 1 < SegW(c) {
      PosAt(c, b, n, k, off);
      PosAt(c, b, n, k, off + 1);
    }
    hide ChainPos, PanelW, SegW, Segs, RowBlocks, PanelCells, GridRowCells, GeometryOk;
  }

  lemma NextPiece(c: Config, b: nat, x: nat)
    requires GeometryOk(c) && b < RowBlocks(c) && x < c.width
    ensures !c.zigzag && x % PanelW(c) + SegW(c) < PanelW(c) ==>
              x + SegW(c) < c.width && ChainPos(c, b, x + SegW(c)) == ChainPos(c, b, x) + SegW(c) * RowBlocks(c)
  {
    var pw, sw, rb := PanelW(c), SegW(c), RowBlocks(c);
    var n, k, off := ColumnParts(c, x);
    if !c.zigzag && x % pw + sw < pw {
      hide ChainPos, PanelW, SegW, Segs, RowBlocks, PanelCells, GridRowCells, GeometryOk;
      MulSucc(k, sw);
      DivModUnique(k + 1, off, sw);
      DivBelow((k + 1) * sw + off, Segs(c), sw);
      PosAt(c, b, n, k, off);
      PosAt(c, b, n, k + 1, off);
      PieceFurther(k, rb, if c.farFirst then rb - 1 - b else b, sw);
    }
  }

  lemma PieceFurther(q: nat, rb: nat, order: nat, sw: nat)
    ensures ((q + 1) * rb + order) * sw == (q * rb + order) * sw + sw * rb
  {
  }

  lemma NextPanel(c: Config, b: nat, x: nat)
    requires GeometryOk(c) && b < RowBlocks(c) && x < c.width
    ensures x + PanelW(c) < c.width ==>
              ChainPos(c, b, x + PanelW(c)) == ChainPos(c, b, x) + PanelW(c) * RowBlocks(c)
  {
    assert PanelCells(c) == PanelW(c) * RowBlocks(c);
    var pw := PanelW(c);
    var n, k, off := ColumnParts(c, x);
    hide ChainPos, PanelW, SegW, Segs, RowBlocks, PanelCells, GridRowCells, GeometryOk;
    if x + pw < c.width {
      MulSucc(n, pw);
      MulSucc(n, PanelCells(c));
      DivBelow(x + pw, c.gridX, pw);
      DivModParts(x, pw);
      DivModUnique(x / pw + 1, x % pw, pw);
      DivModUnique(n, k * SegW(c) + off, pw);
      PosAt(c, b, n, k, off);
      PosAt(c, b, n + 1, k, off);
    }
  }

  // ---- zigzag ----

  /** With "z" every second piece of a panel, counted from its input, runs backwards: what would be its first column is
      its last. Nothing else changes. */
  lemma ZigzagTurns(c: Config, x: nat, y: nat)
    requires GeometryOk(c) && c.zigzag && InDisplay(c, x, y)
    ensures var u := c.(zigzag := false);
            && GeometryOk(u)
            && var p, q := Locate(u, x, y), Locate(c, x, y);
               var piece, off := p.pos % PanelCells(c) / SegW(c), p.pos % SegW(c);
               q == p.(pos := q.pos) && q.pos == if piece % 2 == 1 then p.pos - off + (SegW(c) - 1 - off) else p.pos
  {
    var u := c.(zigzag := false);
    SameSizes(c, u);
    var r := LocateRow(c, y);
    SameRow(c, u, y);
    var col := if r.reverse then c.width - 1 - x else x;
    TurnedPiece(c, u, r.block, col);
    TurnedBehind(c, r.gridRow, ChainPos(u, r.block, col));
    DivModParts(Locate(u, x, y).pos, SegW(c));
    hide ChainPos, LocateRow, PanelW, PanelH, HalfRows, RowBlocks, SegW, Segs, PanelCells, GridRowCells, GeometryOk;
  }

  /** Position p with every second piece of its panel turned round. */
  function Turned(c: Config, p: nat): (q: nat)
    requires GeometryOk(c)
  {
    var piece, off := p % PanelCells(c) / SegW(c), p % SegW(c);
    DivModParts(p, SegW(c));
    MulMono(0, p / SegW(c), SegW(c));
    if piece % 2 == 1 then p - off + (SegW(c) - 1 - off) else p
  }

  lemma TurnedBehind(c: Config, g: nat, p: nat)
    requires GeometryOk(c)
    ensures Turned(c, g * GridRowCells(c) + p) == g * GridRowCells(c) + Turned(c, p)
  {
    SegCells(c);
    var cells := PanelCells(c);
    assert GridRowCells(c) == c.gridX * cells;
    hide PanelW, RowBlocks, SegW, Segs, PanelCells, GridRowCells, GeometryOk;
    MulAssoc(g, c.gridX, cells);
    WholePanelsBefore(g * c.gridX, p, cells, Segs(c) * RowBlocks(c), SegW(c));
  }

  lemma SameRow(c: Config, u: Config, y: nat)
    requires GeometryOk(c) && u == c.(zigzag := u.zigzag) && GeometryOk(u) && y < c.height
    ensures LocateRow(u, y) == LocateRow(c, y)
  {
    SameSizes(c, u);
    hide PanelW, PanelH, HalfRows, RowBlocks, GeometryOk;
  }

  lemma TurnedPiece(c: Config, u: Config, b: nat, x: nat)
    requires GeometryOk(c) && c.zigzag && u == c.(zigzag := false) && GeometryOk(u) && b < RowBlocks(c) && x < c.width
    requires RowBlocks(u) == RowBlocks(c)
    ensures ChainPos(c, b, x) == Turned(c, ChainPos(u, b, x))
  {
    SameSizes(c, u);
    SegCells(c);
    var n, k, off := ColumnParts(c, x);
    assert ColumnAt(u, n, k, off) == ColumnAt(c, n, k, off);
    hide ChainPos, PanelW, SegW, Segs, RowBlocks, PanelCells, GridRowCells, GeometryOk, ColumnAt;
    PosAt(c, b, n, k, off);
    PosAt(u, b, n, k, off);
    var rb, sw, cells := RowBlocks(c), SegW(c), PanelCells(c);
    var order := if c.farFirst then rb - 1 - b else b;
    var seg := k * rb + order;
    PairBound(k, order, Segs(c), rb);
    PairBound(seg, off, Segs(c) * rb, sw);
    DivModUnique(n, seg * sw + off, cells);
    DivModUnique(seg, off, sw);
    WholePanelsBefore(n, seg * sw + off, cells, Segs(c) * rb, sw);
  }

  /** Whole panels in front of a position change neither its place in its panel nor that in its piece. */
  lemma WholePanelsBefore(n: nat, p: nat, cells: nat, pieces: nat, sw: nat)
    requires 0 < sw && 0 < cells == pieces * sw
    ensures (n * cells + p) % cells == p % cells && (n * cells + p) % sw == p % sw
  {
    AddMultiple(n, p, cells);
    MulAssoc(n, pieces, sw);
    AddMultiple(n * pieces, p, sw);
  }

  lemma AddMultiple(n: nat, p: nat, d: nat)
    requires 0 < d
    ensures (n * d + p) % d == p % d
  {
    DivModParts(p, d);
    assert n * d + p == (n + p / d) * d + p % d;
    DivModUnique(n + p / d, p % d, d);
  }
}
