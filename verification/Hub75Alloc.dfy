/** The arena every size-dependent buffer of a running config is laid out in. */
module Hub75Alloc {
  import opened Arith
  import opened Hub75Config
  import opened Hub75Frame
  import Hub75Light
  import opened Hub75Pwm

  const ARENA_SIZE: nat := 22 * 1024
  const PAINT_LUT_LEN: nat := 256
  // Bytes per step_t, uint64_t, uint16_t and int16_t.
  const STEP_BYTES: nat := 8
  const LUT_ENTRY_BYTES: nat := 8
  const POS_BYTES: nat := 2

  function Align8(n: nat): (m: nat)
    ensures n <= m < n + 8 && m % 8 == 0
  {
    (n + 7) / 8 * 8
  }

  datatype Region = Region(at: nat, len: nat)

  /** Offsets into the arena: two colour tables, the two buffer pairs, the chain table, the column table, the
      frame. */
  datatype Layout = Layout(
    luts: seq<Region>, seqA: seq<Region>, seqB: seq<Region>, chainPos: Region, mapCols: Region, frame: Region)

  /** Every buffer, in the order the allocator hands them out. */
  function Regions(l: Layout): seq<Region>
    requires |l.luts| == |l.seqA| == |l.seqB| == 2
  {
    [l.luts[0], l.luts[1], l.seqA[0], l.seqB[0], l.seqA[1], l.seqB[1], l.chainPos, l.mapCols, l.frame]
  }

  function LutBytes(): nat { 2 * Align8(PAINT_LUT_LEN * LUT_ENTRY_BYTES) }

  function PosBytes(c: Config): nat
    requires GeometryOk(c)
  {
    Align8(GridRowCells(c) * POS_BYTES)
  }

  function ColsBytes(c: Config): nat {
    Align8(c.width * POS_BYTES)
  }

  function SeqBytes(d: Drive): nat
    requires DriveOk(d)
  {
    Align8((DriveLen(d) + IDLE_STEPS) * STEP_BYTES)
  }

  function FrameBytes(d: Drive): nat
    requires DriveOk(d)
  {
    Align8(FrameLen(d))
  }

  /** Bytes a number of driven panels takes. */
  function TotalBytes(d: Drive): nat
    requires DriveOk(d)
  {
    LutBytes() + 4 * SeqBytes(d) + PosBytes(d.c) + ColsBytes(d.c) + FrameBytes(d)
  }

  predicate Fits(c: Config, panels: nat)
    requires Accepted(c) && 1 <= panels <= TotalPanels(c)
  {
    TotalBytes(Drive(c, panels)) <= ARENA_SIZE
  }

  lemma Align8Mono(a: nat, b: nat)
    requires a <= b
    ensures Align8(a) <= Align8(b)
  {
  }

  /** Fewer panels never take more. */
  lemma FitsFewer(c: Config, few: nat, many: nat)
    requires Accepted(c) && 1 <= few <= many <= TotalPanels(c) && Fits(c, many)
    ensures Fits(c, few)
  {
    var a, b := Drive(c, few), Drive(c, many);
    MulMono(few, many, PanelCells(c));
    Align8Mono((DriveLen(a) + IDLE_STEPS) * STEP_BYTES, (DriveLen(b) + IDLE_STEPS) * STEP_BYTES);
    MulMono(DriveLen(a), DriveLen(b), c.scan);
    MulMono(c.scan * DriveLen(a), c.scan * DriveLen(b), c.depth);
    Align8Mono(FrameLen(a), FrameLen(b));
  }

  lemma AllFewerFit(c: Config, panels: nat)
    requires Accepted(c) && 1 <= panels <= TotalPanels(c) && Fits(c, panels)
    ensures forall n | 1 <= n <= panels :: Fits(c, n)
  {
    hide Fits, TotalPanels;
    forall n | 1 <= n <= panels
      ensures Fits(c, n)
    {
      FitsFewer(c, n, panels);
    }
  }

  /** One buffer after the other, for the given sizes. */
  function Packed(lut: nat, sq: nat, pos: nat, cols: nat, frame: nat): Layout {
    var steps := 2 * lut;
    var table := steps + 4 * sq;
    Layout([Region(0, lut), Region(lut, lut)],
           [Region(steps, sq), Region(steps + 2 * sq, sq)], [Region(steps + sq, sq), Region(steps + 3 * sq, sq)],
           Region(table, pos), Region(table + pos, cols), Region(table + pos + cols, frame))
  }

  function LayoutOf(d: Drive): Layout
    requires DriveOk(d)
  {
    Packed(LutBytes() / 2, SeqBytes(d), PosBytes(d.c), ColsBytes(d.c), FrameBytes(d))
  }

  predicate Disjoint(a: Region, b: Region) {
    a.at + a.len <= b.at || b.at + b.len <= a.at
  }

  /** No two buffers overlap, each starts on a multiple of eight and none leaves the arena. */
  ghost predicate LayoutOk(l: Layout) {
    |l.luts| == |l.seqA| == |l.seqB| == 2 &&
    var rs := Regions(l);
    && (forall i, j | 0 <= i < j < |rs| :: Disjoint(rs[i], rs[j]))
    && (forall i | 0 <= i < |rs| :: rs[i].at % 8 == 0 && rs[i].at + rs[i].len <= ARENA_SIZE)
  }

  lemma {:induction false} PackedInOrder(rs: seq<Region>, i: nat, j: nat)
    requires i < j < |rs| && rs[0].at == 0
    requires forall k | 0 < k < |rs| :: rs[k].at == rs[k - 1].at + rs[k - 1].len
    requires forall k | 0 <= k < |rs| - 1 :: rs[k].len % 8 == 0
    ensures rs[i].at + rs[i].len <= rs[j].at && rs[j].at % 8 == 0
  {
    if j > 1 {
      PackedInOrder(rs, if i + 1 < j then i else 0, j - 1);
    }
  }

  lemma PackedIsOk(lut: nat, sq: nat, pos: nat, cols: nat, frame: nat)
    requires lut % 8 == sq % 8 == pos % 8 == cols % 8 == 0
    requires 2 * lut + 4 * sq + pos + cols + frame <= ARENA_SIZE
    ensures LayoutOk(Packed(lut, sq, pos, cols, frame))
  {
    var l := Packed(lut, sq, pos, cols, frame);
    var rs := Regions(l);
    assert rs == [l.luts[0], l.luts[1], l.seqA[0], l.seqB[0], l.seqA[1], l.seqB[1], l.chainPos, l.mapCols, l.frame];
    forall i, j | 0 <= i < j < 9
      ensures Disjoint(rs[i], rs[j]) && rs[j].at % 8 == 0 && rs[i].at + rs[i].len <= rs[j].at
    {
      PackedInOrder(rs, i, j);
    }
    forall i | 0 <= i < 9
      ensures rs[i].at % 8 == 0 && rs[i].at + rs[i].len <= ARENA_SIZE
    {
      if i < 8 {
        assert rs[i].at + rs[i].len <= rs[8].at;
      }
    }
  }

  lemma DriveLenBytes(c: Config, panels: nat)
    requires DriveOk(Drive(c, panels))
    ensures panels * PanelW(c) * RowBlocks(c) == DriveLen(Drive(c, panels))
    ensures RowBlocks(c) * c.width == GridRowCells(c)
  {
    MulAssoc(panels, PanelW(c), RowBlocks(c));
  }

  /** Every element the driver indexes lies inside its buffer's region. */
  lemma IndicesStayInside(d: Drive, addr: nat, i: nat, k: nat, b: nat, x: nat)
    requires DriveOk(d)
    requires addr < d.c.scan && i < DriveLen(d) && k < d.c.depth && b < RowBlocks(d.c) && x < d.c.width
    ensures var l := LayoutOf(d);
            && FrameIndex(d, addr, i, k) < l.frame.len
            && (i + IDLE_STEPS + 1) * STEP_BYTES <= l.seqA[0].len == l.seqB[0].len == l.seqA[1].len == l.seqB[1].len
            && (b * d.c.width + x + 1) * POS_BYTES <= l.chainPos.len
            && (x + 1) * POS_BYTES <= l.mapCols.len
  {
    PairBound(b, x, RowBlocks(d.c), d.c.width);
  }

  /** The bytes each region is for: 256 entries of a colour table, steps, chain positions, columns, frame bytes. */
  function NeededBytes(d: Drive): (bytes: seq<int>)
    requires DriveOk(d)
    ensures |bytes| == 9
  {
    var steps := (DriveLen(d) + IDLE_STEPS) * STEP_BYTES;
    [256 * 8, 256 * 8, steps, steps, steps, steps, d.c.width * RowBlocks(d.c) * 2, d.c.width * 2,
     d.c.scan * DriveLen(d) * d.c.depth]
  }

  /** The regions follow each other without a gap, from the arena's start on, each as large as what it is for, rounded
      up to eight bytes. */
  lemma LayoutIsTight(d: Drive)
    requires DriveOk(d)
    ensures var rs := Regions(LayoutOf(d));
            && |rs| == 9 && rs[0].at == 0 && (forall i | 0 < i < 9 :: rs[i].at == rs[i - 1].at + rs[i - 1].len)
            && forall i | 0 <= i < 9 :: NeededBytes(d)[i] <= rs[i].len < NeededBytes(d)[i] + 8 && rs[i].len % 8 == 0
  {
    hide DriveLen, PanelW, PanelCells, RowBlocks;
    assert LutBytes() / 2 == 256 * 8;
  }

  /** A number of panels fits exactly if all of its layout is inside the arena. */
  lemma FitsIfLaidOut(c: Config, panels: nat)
    requires Accepted(c) && 1 <= panels <= TotalPanels(c)
    ensures var rs := Regions(LayoutOf(Drive(c, panels)));
            Fits(c, panels) <==> forall i | 0 <= i < |rs| :: rs[i].at + rs[i].len <= ARENA_SIZE
  {
    hide DriveLen, FrameLen, PanelW, PanelCells, RowBlocks, SeqBytes, PosBytes, ColsBytes, FrameBytes;
    var d := Drive(c, panels);
    var l := LayoutOf(d);
    var rs := Regions(l);
    assert l.frame == rs[8] && rs[8].at + rs[8].len == TotalBytes(d);
    forall i | 0 <= i < 9
      ensures rs[i].at + rs[i].len <= rs[8].at + rs[8].len
    {
      assert rs[i] in [l.luts[0], l.luts[1], l.seqA[0], l.seqB[0], l.seqA[1], l.seqB[1], l.chainPos, l.mapCols,
                       l.frame];
    }
  }

  /** The buffers one after the other, the step buffers in two pairs. */
  method Place(lutBytes: nat, seqBytes: nat, posBytes: nat, colsBytes: nat, frameBytes: nat) returns (layout: Layout)
    requires lutBytes % 2 == 0
    ensures layout == Packed(lutBytes / 2, seqBytes, posBytes, colsBytes, frameBytes)
  {
    var m := 0;
    var luts := [Region(m, lutBytes / 2), Region(m + lutBytes / 2, lutBytes / 2)];
    m := m + lutBytes;
    var seqA, seqB := [], [];
    for i := 0 to 2
      invariant m == lutBytes + 2 * i * seqBytes
      invariant seqA == [Region(lutBytes, seqBytes), Region(lutBytes + 2 * seqBytes, seqBytes)][..i]
      invariant seqB == [Region(lutBytes + seqBytes, seqBytes), Region(lutBytes + 3 * seqBytes, seqBytes)][..i]
    {
      seqA := seqA + [Region(m, seqBytes)];
      m := m + seqBytes;
      seqB := seqB + [Region(m, seqBytes)];
      m := m + seqBytes;
    }
    var chainPos := Region(m, posBytes);
    m := m + posBytes;
    var mapCols := Region(m, colsBytes);
    m := m + colsBytes;
    layout := Layout(luts, seqA, seqB, chainPos, mapCols, Region(m, frameBytes));
  }

  /** The largest number of panels, from all of them down, whose buffers fit; 0 if not even one's do. */
  method Alloc(c: Config) returns (panels: nat, layout: Layout)
    requires Accepted(c)
    ensures panels <= TotalPanels(c)
    ensures forall n | 1 <= n <= TotalPanels(c) :: Fits(c, n) <==> n <= panels
    ensures panels > 0 ==> layout == LayoutOf(Drive(c, panels)) && LayoutOk(layout)
  {
    hide FrameLen, DriveLen, GridRowCells, PanelCells, PanelW, RowBlocks, TotalPanels, Align8;
    layout := Layout([], [], [], Region(0, 0), Region(0, 0), Region(0, 0));
    var lutBytes := 2 * Align8(PAINT_LUT_LEN * LUT_ENTRY_BYTES);
    var posBytes := Align8(RowBlocks(c) * c.width * POS_BYTES);
    var colsBytes := Align8(c.width * POS_BYTES);
    panels := TotalPanels(c);
    while panels > 0
      invariant panels <= TotalPanels(c)
      invariant forall n | panels < n <= TotalPanels(c) :: !Fits(c, n)
    {
      var d := Drive(c, panels);
      var driveLen := panels * PanelW(c) * RowBlocks(c);
      DriveLenBytes(c, panels);
      var seqBytes := Align8((driveLen + IDLE_STEPS) * STEP_BYTES);
      var frameBytes := Align8(FrameLen(d));
      var total := lutBytes + 4 * seqBytes + posBytes + colsBytes + frameBytes;
      assert total == TotalBytes(d);
      if total <= ARENA_SIZE {
        layout := Place(lutBytes, seqBytes, posBytes, colsBytes, frameBytes);
        PackedIsOk(lutBytes / 2, seqBytes, posBytes, colsBytes, frameBytes);
        AllFewerFit(c, panels);
        return;
      }
      panels := panels - 1;
    }
  }

  /** The arena bounds a driven chain, and with it every product the OE arithmetic makes in 32 bits. */
  lemma ArenaBoundsOe(d: Drive, k: nat)
    requires DriveOk(d) && TotalBytes(d) <= ARENA_SIZE && k < d.c.depth
    ensures DriveLen(d) <= 574
    ensures DriveLen(d) * PwmTop(d.c) * d.c.brightness + BRIGHTNESS_MAX / 2 < 0x1_0000_0000
    ensures DriveOn(d) * Pow2(k) < 0x1_0000_0000
    ensures OeFull(d, k) < 0x1_0000
  {
    hide *;
    BrightnessOk(d);
    ArenaBoundsDriveLen(d);
    var top := PwmTop(d.c);
    var row := DriveLen(d) * top;
    MulMono(top, 160, DriveLen(d));
    MulMono(d.c.brightness, BRIGHTNESS_MAX, row);
    TicksFit(d, row, k);
  }

  lemma BrightnessOk(d: Drive)
    requires DriveOk(d)
    ensures d.c.brightness <= 0x7FFF == BRIGHTNESS_MAX && Accepted(d.c)
  {
  }

  lemma ArenaBoundsDriveLen(d: Drive)
    requires DriveOk(d) && TotalBytes(d) <= ARENA_SIZE
    ensures DriveLen(d) <= 574
  {
    hide FrameLen, GridRowCells, PwmTop, DriveLen;
  }

  lemma TicksFit(d: Drive, row: nat, k: nat)
    requires DriveOk(d) && k < d.c.depth && row == DriveLen(d) * PwmTop(d.c) <= 91840
    ensures DriveOn(d) * Pow2(k) < 0x1_0000_0000
    ensures OeFull(d, k) < 0x1_0000
  {
    hide FrameLen, GridRowCells, PwmTop, DriveLen, Hub75Light.OnTicks;
    Hub75Light.OnTicksBound(DriveLen(d), PwmTop(d.c), d.c.brightness);
    Pow2Mono(k, 7);
    assert Pow2(7) == 128;
    MulMono(Pow2(k), 128, DriveOn(d));
    Hub75Light.PlaneTicksBound(DriveOn(d), d.c.depth, k);
    DivMono(Ticks(d, k), 91840, PwmTop(d.c));
    DivMono(16 * 91840, 91840 * PwmTop(d.c), PwmTop(d.c));
    DivModParts(91840, PwmTop(d.c));
    MulMono(16, PwmTop(d.c), 91840 / PwmTop(d.c));
  }
}
