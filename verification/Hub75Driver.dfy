/** The driver itself: its tables, buffers and interrupt handler, updated in place. */
module Hub75Driver {
  import opened Arith
  import opened Hub75Config
  import opened Hub75Geometry
  import opened Hub75Light
  import opened Hub75Frame
  import opened Hub75Pwm
  import opened Hub75Pipeline
  import opened Hub75Alloc

  datatype Overload = NoOverload | Overrun | Stuck

  const OVERRUN_LIMIT: nat := 32
  const PX_COMBOS: nat := 64

  /** How a display row is found in the frame: its last entry, how far along the chain its row of panels begins, its
      stretch of the position table, which way that is read, and its half's place in a byte. */
  datatype FrameRow = FrameRow(end: nat, before: nat, pos: nat, reverse: bool, shift: bv8)

  datatype Lut = Lut(a: Step, b: Step)

  /** The sizes a started panel works with: of the scan, of the chain, of a panel, of all panels and of the driven ones,
      of the data in a shift, of a colour and of a PWM period. */
  datatype Sizes = Sizes(
    scanRows: nat, rowBlocks: nat, chainLen: nat, panelW: nat, panelH: nat,
    totalPanels: nat, drivePanels: nat, driveLen: nat, depth: nat, pwmTop: nat)

  function SizesOf(d: Drive): Sizes
    requires DriveOk(d)
  {
    Sizes(d.c.scan, RowBlocks(d.c), ChainLen(d.c), PanelW(d.c), PanelH(d.c),
          TotalPanels(d.c), d.panels, DriveLen(d), d.c.depth, PwmTop(d.c))
  }

  class Driver {
    // The configuration that was started, and its sizes.
    var active: Config
    var g: Sizes
    // Its tables and buffers.
    var chainPos: array<nat>
    var frame: array<bv8>
    var lut: array<Lut>
    var oeFullSteps: seq<nat>
    var oePartial: seq<Word>
    var seqA: seq<array<Step>>
    var seqB: seq<array<Step>>
    // Where the arena has them.
    var layout: Layout
    var fillerA: Step
    var fillerB: Step
    var addrAllMask: set<nat>
    // The shift going out.
    var shiftSeq: nat
    var shiftBuf: nat
    var overruns: nat
    var overload: Overload
    var irqEnabled: bool
    // What the two PWM instances play, and which of their sequences holds the data.
    var pwmA: Pwm
    var pwmB: Pwm
    var dataSeq: nat
    // What the driver acts on: the P0 outputs, the chain's shift registers and its output latches.
    var pins: set<nat>
    var reg: seq<bv8>
    var latched: seq<bv8>

    ghost function D(): Drive
      reads `active, `g
    {
      Drive(active, g.drivePanels)
    }

    ghost predicate Sized()
      reads `active, `g, `chainPos, `frame
    {
      && DriveOk(D()) && g == SizesOf(D())
      && chainPos.Length == GridRowCells(active) && frame.Length == FrameLen(D())
      && chainPos as object != frame
    }

    ghost predicate TableFilled(n: nat)
      requires Sized()
      reads `active, `g, `chainPos, `frame, chainPos
    {
      n <= chainPos.Length && forall i | 0 <= i < n :: chainPos[i] == TableEntry(active, i)
    }

    ghost predicate TableBuilt()
      requires Sized()
      reads `active, `g, `chainPos, `frame, chainPos
    {
      TableFilled(chainPos.Length)
    }

    lemma SizedFacts()
      requires Sized()
      ensures g == SizesOf(D()) && DriveOk(D())
      ensures g.rowBlocks == RowBlocks(active) && g.panelW == PanelW(active) && g.driveLen == DriveLen(D())
      ensures GeometryOk(active)
    {
    }

    /** The position of one column of one row block, its block taken `order`-th. */
    method ChainEntry(b: nat, x: nat, order: nat, segW: nat) returns (pos: nat)
      requires Sized() && b < g.rowBlocks && x < active.width
      requires segW == SegW(active) && order == if active.farFirst then g.rowBlocks - 1 - b else b
      ensures pos == ChainPos(active, b, x)
    {
      hide *;
      SizedFacts();
      var pw, rb := g.panelW, g.rowBlocks;
      DivModParts(x, pw);
      DivModParts(x % pw, segW);
      MulMono(0, x % pw / segW, rb);
      var panel := x / pw;
      var px := x % pw;
      var seg := px / segW * rb + order;
      var off := px % segW;
      if active.zigzag && seg % 2 == 1 {
        off := segW - 1 - off;
      }
      ChainPosParts(active, b, x, order, seg, off);
      pos := panel * pw * rb + seg * segW + off;
    }

    /** Fills the position of every row block and column along a row of panels. */
    method ChainBuild()
      requires Sized()
      modifies chainPos
      ensures TableBuilt()
    {
      hide TableEntry, ChainPos, DriveLen, FrameLen, ChainLen, GridRowCells;
      var segW := if active.segment != 0 then active.segment else g.panelW;
      var width := active.width;
      ghost var n := 0;
      for b := 0 to g.rowBlocks
        invariant n == b * width && TableFilled(n)
      {
        var order := if active.farFirst then g.rowBlocks - 1 - b else b;
        for x := 0 to width
          invariant n == b * width + x && TableFilled(n)
        {
          var pos := ChainEntry(b, x, order, segW);
          TableEntryAt(active, b, x);
          chainPos[b * width + x] := pos;
          n := n + 1;
        }
        MulSucc(b, width);
      }
      TableCells(active);
    }

    /** Where display row y lives in the frame. */
    function FrameLocateRow(y: nat): (r: FrameRow)
      requires Sized() && y < active.height
      reads this
      ensures var row := LocateRow(active, y);
              && r.end == row.addr * g.driveLen + g.driveLen - 1
              && r.before == row.gridRow * GridRowCells(active)
              && r.pos == row.block * active.width
              && r.reverse == row.reverse
              && r.shift == FieldShift(row.half)
    {
      var fy := if active.flipY then active.height - 1 - y else y;
      DivBelow(fy, active.gridY, g.panelH);
      DivModParts(fy, g.panelH);
      var gridRow := fy / g.panelH;
      var upsideDown := active.serpentine && gridRow % 2 == 1;
      var py := if upsideDown then g.panelH - 1 - fy % g.panelH else fy % g.panelH;
      var halfRows := g.panelH / 2;
      DivBelow(py, 2, halfRows);
      DivModParts(py, halfRows);
      var row := py % halfRows;
      DivModParts(row, g.scanRows);
      MulAssoc(gridRow, active.width, g.rowBlocks);
      MulMono(0, gridRow * active.width, g.rowBlocks);
      MulMono(0, row % g.scanRows, g.driveLen);
      FrameRow(row % g.scanRows * g.driveLen + g.driveLen - 1,
               gridRow * active.width * g.rowBlocks,
               row / g.scanRows * active.width,
               active.flipX != upsideDown,
               if py / halfRows == 1 then 3 else 0)
    }

    /** Pixel x of display row y, located as r: one byte's field per bit plane, unless its panel isn't driven. */
    method FrameRowSet(r: FrameRow, x: nat, planes: seq<bv8>, ghost y: nat)
      requires Sized() && TableBuilt() && InDisplay(active, x, y) && r == FrameLocateRow(y) && |planes| == g.depth
      modifies frame
      ensures frame[..] == Store(D(), old(frame[..]), Locate(active, x, y), planes)
    {
      hide ChainPos, DriveLen, FrameLen, ChainLen, GridRowCells, RowBlocks, FrameIndex;
      ghost var row, p, d := LocateRow(active, y), Locate(active, x, y), D();
      var col := if r.reverse then active.width - 1 - x else x;
      TableEntryAt(active, row.block, col);
      var pos := r.before + chainPos[r.pos + col];
      assert pos == p.pos;
      if pos >= g.driveLen {
        return;
      }
      EntryInFrame(d, p);
      var e := (r.end - pos) * g.depth;
      for k := 0 to g.depth
        invariant frame[..] == Stored(d, old(frame[..]), p, planes, k)
      {
        PlaceIndexIs(d, p, k);
        frame[e + k] := StoreField(frame[e + k], r.shift, planes[k]);
      }
    }

    /** Draws row after row of the display, every pixel in its colour - all of them, or those before row `until` when
        there is no picture to draw from there on. The rows not reached show what they did. */
    method FrameDraw(picture: (nat, nat) -> Rgb, until: nat)
      requires Sized() && TableBuilt() && FrameOk(D(), frame[..]) && until <= active.height
      modifies frame
      ensures Drawn(D(), frame[..], picture, 0, until) && Kept(D(), old(frame[..]), frame[..], 0, until)
    {
      hide DriveLen, FrameLen, ChainLen, GridRowCells, RowBlocks, Locate, Store, Drawn, Kept, TableEntry;
      ghost var d, was := D(), frame[..];
      DrawnNone(d, was, picture);
      KeptAll(d, was);
      for y := 0 to until
        invariant TableBuilt() && Drawn(d, frame[..], picture, 0, y) && Kept(d, was, frame[..], 0, y)
      {
        var r := FrameLocateRow(y);
        for x := 0 to active.width
          invariant TableBuilt() && Drawn(d, frame[..], picture, x, y) && Kept(d, was, frame[..], x, y)
        {
          DrawnNext(d, frame[..], picture, x, y);
          KeptNext(d, was, frame[..], x, y, picture(x, y));
          var planes := Spread(g.depth, picture(x, y));
          FrameRowSet(r, x, planes, y);
        }
        DrawnRow(d, frame[..], picture, y);
        KeptRow(d, was, frame[..], y);
      }
    }

    // ---- OE ----

    ghost predicate OeReady()
      requires Sized()
      reads `active, `g, `chainPos, `frame, `oeFullSteps, `oePartial
    {
      OeFor(oeFullSteps, oePartial, DriveOn(D()), g.depth, g.pwmTop)
    }

    /** OE for a brightness, per bit plane: whole columns, and what is left of the next one. */
    method OeSet(brightness: nat)
      requires Sized() && brightness <= BRIGHTNESS_MAX
      modifies this`oeFullSteps, this`oePartial
      ensures OeFor(oeFullSteps, oePartial, OnTicks(g.driveLen, g.pwmTop, brightness), g.depth, g.pwmTop)
    {
      hide DriveLen, FrameLen, ChainLen, PwmTop;
      var rowTicks := g.driveLen * g.pwmTop;
      ProductNat(g.driveLen, g.pwmTop, brightness);
      DivModParts(rowTicks * brightness + BRIGHTNESS_MAX / 2, BRIGHTNESS_MAX);
      var onTicks: nat := (rowTicks * brightness + BRIGHTNESS_MAX / 2) / BRIGHTNESS_MAX;
      var full: seq<nat> := seq(MAX_DEPTH, _ => 0);
      var partial := seq(MAX_DEPTH, _ => Word(0, 0));
      for k := 0 to g.depth
        invariant |full| == MAX_DEPTH && |partial| == MAX_DEPTH
        invariant forall j | 0 <= j < k :: OeEntry(full[j], partial[j], PlaneTicks(onTicks, g.depth, j), g.pwmTop)
      {
        var ticks := onTicks * Pow2(k) / Pow2(g.depth - 1);
        assert ticks == PlaneTicks(onTicks, g.depth, k);
        DivModParts(ticks, g.pwmTop);
        var rest := ticks % g.pwmTop;
        full := full[k := ticks / g.pwmTop];
        partial := partial[k := Word(0, if rest != 0 then rest else PWM_HIGH)];
      }
      oeFullSteps, oePartial := full, partial;
    }

    // ---- rendering ----

    ghost predicate LutReady()
      reads `g, `lut, lut
    {
      lut.Length == PX_COMBOS && LutMeans(lut[..], g.pwmTop)
    }

    /** Columns from..to-1 of a row, all with the same OE. `px` names the bytes the span reads. */
    static method RenderSpan(a: array<Step>, b: array<Step>, frame: array<bv8>, src: nat, stride: nat,
                             from: nat, to: nat, oe: Word, lut: array<Lut>, ghost px: seq<bv8>, ghost top: nat)
      requires a != b && a as object != frame && b as object != frame && a as object != lut && b as object != lut
      requires a.Length == b.Length && from <= to <= |px| <= a.Length
      requires oe.lo == 0 && lut.Length == PX_COMBOS && LutMeans(lut[..], top)
      requires forall i | 0 <= i < |px| ::
                 px[i] < 64 && 0 <= src + i * stride < frame.Length && frame[src + i * stride] == px[i]
      modifies a, b
      ensures forall i | 0 <= i < a.Length ::
                a[i] == if from <= i < to then DataColumn(top, px[i], oe.hi).a else old(a[i])
      ensures forall i | 0 <= i < b.Length ::
                b[i] == if from <= i < to then DataColumn(top, px[i], oe.hi).b else old(b[i])
    {
      for i := from to to
        invariant forall j | 0 <= j < a.Length ::
                    a[j] == if from <= j < i then DataColumn(top, px[j], oe.hi).a else old(a[j])
        invariant forall j | 0 <= j < b.Length ::
                    b[j] == if from <= j < i then DataColumn(top, px[j], oe.hi).b else old(b[j])
      {
        assert px[i] < 64;
        var e := frame[src + i * stride];
        assert lut[..][e as int] == Lut(LutA(top, e), LutB(e));
        var l := lut[e as int];
        a[i] := l.a;
        b[i] := Step(l.b.w0, OrWords(l.b.w1, oe));
      }
    }

    ghost predicate BuffersOk()
      requires Sized()
      reads `active, `g, `chainPos, `frame, `lut, `seqA, `seqB, seqA, seqB
    {
      && |seqA| == 2 && |seqB| == 2
      && seqA[0] != seqA[1] && seqB[0] != seqB[1]
      && (forall i, j | 0 <= i < 2 && 0 <= j < 2 :: seqA[i] != seqB[j])
      && (forall i | 0 <= i < 2 :: BufferOk(seqA[i], seqB[i]))
    }

    /** A buffer pair's size, its place beside the other buffers, and its trailing idle columns. */
    ghost predicate BufferOk(a: array<Step>, b: array<Step>)
      reads `g, `chainPos, `frame, `lut, a, b
    {
      && a.Length == g.driveLen + IDLE_STEPS && b.Length == g.driveLen + IDLE_STEPS
      && a as object != frame && b as object != frame && a as object != lut && b as object != lut
      && a as object != chainPos && b as object != chainPos
      && a[g.driveLen] == IDLE.a && a[g.driveLen + 1] == IDLE.a
      && b[g.driveLen] == IDLE.b && b[g.driveLen + 1] == IDLE.b
    }

    /** Everything a running panel keeps ready for its interrupt. */
    ghost predicate Ready()
      reads `active, `g, `chainPos, `frame, `lut, `oeFullSteps, `oePartial, `seqA, `seqB,
            `fillerA, `fillerB, `addrAllMask
      reads chainPos, frame, lut, seqA, seqB
    {
      && Sized() && TableBuilt() && OeReady() && LutReady() && BuffersOk() && FrameOk(D(), frame[..])
      && Column(fillerA, fillerB) == Filler(g.pwmTop) && addrAllMask == AddrPins(g.scanRows, 5)
      && lut as object != frame
    }

    lemma ReadyFacts()
      requires Ready()
      ensures DriveOk(D()) && g.scanRows == active.scan && g.depth == active.depth && g.pwmTop == PwmTop(active)
      ensures g.chainLen == ChainLen(active) && g.driveLen == DriveLen(D()) && |seqA| == 2 && |seqB| == 2
      ensures forall i | 0 <= i < 2 ::
                seqA[i].Length == g.driveLen + IDLE_STEPS && seqB[i].Length == g.driveLen + IDLE_STEPS
      ensures Column(fillerA, fillerB) == Filler(g.pwmTop) && addrAllMask == AddrPins(g.scanRows, 5)
      ensures GeometryOk(active) && g.drivePanels == D().panels && g.totalPanels == TotalPanels(active)
    {
    }

    /** What a buffer pair plays. */
    ghost function Columns(buf: nat): seq<Column>
      requires Ready() && buf < 2
      reads `active, `g, `chainPos, `frame, `lut, `oeFullSteps, `oePartial, `seqA, `seqB,
            `fillerA, `fillerB, `addrAllMask
      reads chainPos, frame, lut, seqA, seqB
    {
      Zipped(seqA[buf][..], seqB[buf][..])
    }

    /** Shift s of the cycle into a buffer pair: lit columns, the partial one, blanked ones. */
    method RenderRow(buf: nat, s: nat)
      requires Ready() && buf < 2 && s < CycleLen(D())
      modifies seqA[buf], seqB[buf]
      ensures Ready()
      ensures Columns(buf) == Rendering(D(), frame[..], s)
      ensures Columns(1 - buf) == old(Columns(1 - buf))
      ensures unchanged(this) && frame[..] == old(frame[..])
    {
      hide DriveLen, FrameLen, ChainLen, PwmTop, PlaneTicks, DriveOn, LutMeans, ShiftBytes, CycleLen, Rendering;
      RenderPair(seqA[buf], seqB[buf], s);
      assert BufferOk(seqA[1 - buf], seqB[1 - buf]);
    }

    method RenderPair(a: array<Step>, b: array<Step>, s: nat)
      requires Sized() && BufferOk(a, b) && a != b && OeReady() && LutReady() && FrameOk(D(), frame[..])
      requires s < CycleLen(D())
      modifies a, b
      ensures BufferOk(a, b)
      ensures Zipped(a[..], b[..]) == Rendering(D(), frame[..], s)
    {
      hide DriveLen, FrameLen, ChainLen, PwmTop, PlaneTicks, DriveOn, LutMeans, ShiftBytes, CycleLen, Rendering;
      ghost var d, f := D(), frame[..];
      var n := g.driveLen;
      DivModParts(s, g.depth);
      var row := s / g.depth;
      var plane := s % g.depth;
      var litPlane := (plane + g.depth - 1) % g.depth;
      assert litPlane == LitPlane(d, s);
      var lit := if oeFullSteps[litPlane] < n then oeFullSteps[litPlane] else n;
      ProductNat(row, n, g.depth);
      var src := row * n * g.depth + plane;
      ghost var px := ShiftBytes(d, f, s);
      forall i | 0 <= i < n
        ensures px[i] < 64 && 0 <= src + i * g.depth < frame.Length && frame[src + i * g.depth] == px[i]
      {
        ShiftByteAt(d, f, s, i);
      }
      RenderSpan(a, b, frame, src, g.depth, 0, lit, Word(0, PWM_LOW), lut, px, g.pwmTop);
      if lit < n {
        RenderSpan(a, b, frame, src, g.depth, lit, lit + 1, oePartial[litPlane], lut, px, g.pwmTop);
        RenderSpan(a, b, frame, src, g.depth, lit + 1, n, Word(0, PWM_HIGH), lut, px, g.pwmTop);
      }
      RenderingOf(d, f, s, a[..], b[..]);
    }

    // ---- the interrupt ----

    ghost predicate Valid()
      reads `active, `g, `chainPos, `frame, `lut, `oeFullSteps, `oePartial, `seqA, `seqB,
            `fillerA, `fillerB, `addrAllMask
      reads chainPos, frame, lut, seqA, seqB
      reads `shiftSeq, `shiftBuf, `reg, `latched, `pwmA, `pwmB, `dataSeq
    {
      && Ready() && shiftSeq < CycleLen(D()) && shiftBuf < 2 && |reg| == g.chainLen && |latched| == g.chainLen
      && PwmsSet(shiftBuf)
    }

    /** Both instances are set up to shift a row out of a buffer pair. */
    ghost predicate PwmsSet(buf: nat)
      requires DriveOk(D())
      reads `active, `g, `pwmA, `pwmB, `dataSeq
    {
      dataSeq == DataSeq(D()) && PwmSet(D(), pwmA, buf) && PwmSet(D(), pwmB, buf)
    }

    ghost function View(): (st: Pipe)
      requires Valid()
      reads `active, `g, `chainPos, `frame, `lut, `oeFullSteps, `oePartial, `seqA, `seqB,
            `fillerA, `fillerB, `addrAllMask
      reads chainPos, frame, lut, seqA, seqB
      reads `shiftSeq, `shiftBuf, `pins, `reg, `latched, `pwmA, `pwmB, `dataSeq
      ensures PipeOk(D(), st)
    {
      Pipe(shiftSeq, shiftBuf, [Columns(0), Columns(1)], pins, reg, latched)
    }

    /** What a source has to play. */
    ghost function SourceColumns(source: Source): seq<Column>
      requires Ready() && (source.Steps? ==> source.buf < 2)
      reads `active, `g, `chainPos, `frame, `lut, `oeFullSteps, `oePartial, `seqA, `seqB,
            `fillerA, `fillerB, `addrAllMask
      reads chainPos, frame, lut, seqA, seqB
    {
      match source
      case FillerStep => [Column(fillerA, fillerB)]
      case Steps(buf) => Columns(buf)
    }

    /** Step i of a source, for the first instance and for the second. */
    function StepA(source: Source, i: nat): Step
      requires source.Steps? ==> source.buf < |seqA| && i < seqA[source.buf].Length
      reads `fillerA, `seqA, seqA
    {
      if source.FillerStep? then fillerA else seqA[source.buf][i]
    }

    function StepB(source: Source, i: nat): Step
      requires source.Steps? ==> source.buf < |seqB| && i < seqB[source.buf].Length
      reads `fillerB, `seqB, seqB
    {
      if source.FillerStep? then fillerB else seqB[source.buf][i]
    }

    /** The instances each play a sequence of their own, period by period: every step it has values for, for as many
        periods as it says. Set alike, they stay in step. */
    method PlaySequence(a: Sequence, b: Sequence)
      requires Ready() && (a.source.Steps? ==> a.source.buf < 2) && a.repeats >= 0 && a == b
      requires a.length / CHANNELS <= |SourceColumns(a.source)|
      modifies this`reg
      ensures reg == Shifted(old(reg), Held(SourceColumns(a.source)[..a.length / CHANNELS], a.repeats + 1), g.pwmTop)
    {
      hide Ready, Clocked, Shifted, Held, Repeated;
      ReadyFacts();
      ghost var before, cols := reg, SourceColumns(a.source);
      var top := g.pwmTop;
      ghost var times := a.repeats + 1;
      var ia, ib, periodA, periodB := 0, 0, 0, 0;
      ShiftedNone(before, cols, top);
      HeldNone(cols[..0], times);
      if a.length / CHANNELS > 0 {
        ShiftedOnce(before, Held(cols[..0], times), cols[0], 0, top);
      }
      while ia < a.length / CHANNELS && ib < b.length / CHANNELS
        invariant ia == ib <= a.length / CHANNELS && 0 <= periodA == periodB < times
        invariant ia == a.length / CHANNELS ==> reg == Shifted(before, Held(cols[..ia], times), top)
        invariant ia < a.length / CHANNELS ==>
            reg == Shifted(before, Held(cols[..ia], times) + Repeated(cols[ia], periodA), top)
        decreases a.length / CHANNELS - ia, times - periodA
      {
        ghost var sofar := Held(cols[..ia], times);
        ShiftedOnce(before, sofar, cols[ia], periodA, top);
        HeldNext(cols, ia, times);
        if ia + 1 < a.length / CHANNELS {
          ShiftedOnce(before, Held(cols[..ia + 1], times), cols[ia + 1], 0, top);
        }
        assert cols[ia] == Column(StepA(a.source, ia), StepB(b.source, ib));
        reg := Clocked(reg, Column(StepA(a.source, ia), StepB(b.source, ib)), top);
        ia, periodA := if periodA == a.repeats then ia + 1 else ia, if periodA == a.repeats then 0 else periodA + 1;
        ib, periodB := if periodB == b.repeats then ib + 1 else ib, if periodB == b.repeats then 0 else periodB + 1;
      }
    }

    /** The shift in progress plays to its end: the instances' first sequence, and the second if they loop. */
    method PlayShift()
      requires Valid()
      modifies this`reg
      ensures Valid() && View() == PlayedOut(D(), old(View()))
    {
      hide Ready, ChainLen, PwmTop, CycleLen, Clocked, DriveLen, Shifted, DriveOk, SizesOf, Held, Played, Filler;
      ReadyFacts();
      ghost var before, cols, filler := reg, Columns(shiftBuf), Column(fillerA, fillerB);
      SetPlaysShift(D(), pwmA, shiftBuf, filler, cols);
      assert cols[..|cols|] == cols && [filler][..1] == [filler];
      PlaySequence(pwmA.seq0, pwmB.seq0);
      if pwmA.loop != 0 {
        PlaySequence(pwmA.seq1, pwmB.seq1);
        ShiftedConcat(before, Held([filler], pwmA.seq0.repeats + 1), Held(cols, 1), g.pwmTop);
      }
    }

    static method AddrMaskOf(row: nat) returns (mask: set<nat>)
      ensures mask == AddrMask(row, 5)
    {
      mask := {};
      for i := 0 to 5
        invariant mask == AddrMask(row, i)
      {
        if row / BITS[i] % 2 == 1 {
          mask := mask + {ADDR_PINS[i]};
        }
      }
    }

    method Trip(why: Overload)
      modifies this`irqEnabled, this`overload
      ensures !irqEnabled && overload == why
    {
      irqEnabled := false;
      overload := why;
    }

    /** The row just shifted: its address on the pins, its data in the latches. */
    method SelectAndLatch()
      requires Valid()
      modifies `pins, `latched
      ensures Valid()
      ensures pins == PinsFor(g.scanRows, old(pins), ShiftRow(D(), shiftSeq)) && latched == reg
    {
      hide Ready, ChainLen, CycleLen;
      ReadyFacts();
      assert ShiftRow(D(), shiftSeq) == shiftSeq / g.depth;
      pins := pins - addrAllMask;
      DivModParts(shiftSeq, g.depth);
      var mask := AddrMaskOf(shiftSeq / g.depth);
      pins := pins + mask;
      latched := reg;
    }

    /** Starts both instances on the current buffer pair. */
    method ShiftStart()
      requires shiftBuf < 2 && DriveOk(D()) && PwmsSet(1 - shiftBuf)
      modifies `pwmA, `pwmB
      ensures PwmsSet(shiftBuf)
    {
      hide DriveOk, PwmSet, DataSeq, Pointed;
      PointedSet(D(), pwmA, 1 - shiftBuf, shiftBuf);
      PointedSet(D(), pwmB, 1 - shiftBuf, shiftBuf);
      pwmA := Pointed(pwmA, dataSeq, Steps(shiftBuf));
      pwmB := Pointed(pwmB, dataSeq, Steps(shiftBuf));
    }

    /** On to the next shift, already rendered, with the one after it rendered into the buffers just freed. */
    method Advance()
      requires Valid()
      modifies `shiftSeq, `shiftBuf, `pwmA, `pwmB, seqA[shiftBuf], seqB[shiftBuf]
      ensures Valid()
      ensures shiftSeq == Next(D(), old(shiftSeq)) && shiftBuf == 1 - old(shiftBuf)
      ensures Columns(1 - shiftBuf) == Rendering(D(), frame[..], Next(D(), shiftSeq))
      ensures Columns(shiftBuf) == old(Columns(1 - shiftBuf))
      ensures unchanged(`active, `g, `frame, `overruns, `overload, `irqEnabled) && frame[..] == old(frame[..])
    {
      hide Ready, Columns, DriveLen, FrameLen, ChainLen, PwmsSet, CycleLen, Next, Rendering;
      ReadyFacts();
      NextShiftOf(D(), shiftSeq);
      var cycle := g.scanRows * g.depth;
      shiftSeq := (shiftSeq + 1) % cycle;
      shiftBuf := 1 - shiftBuf;
      assert Ready();
      ShiftStart();
      assert Ready();
      RenderRow(1 - shiftBuf, (shiftSeq + 1) % cycle);
    }

    /** Stopped again already once is a hiccup, every row it is an overload. */
    method CountOverrun(again: bool)
      modifies `overruns, `irqEnabled, `overload
      ensures overruns == if again then old(overruns) + 1 else 0
      ensures overruns >= OVERRUN_LIMIT ==> overload == Overrun && !irqEnabled
      ensures overruns < OVERRUN_LIMIT ==> overload == old(overload) && irqEnabled == old(irqEnabled)
    {
      if again {
        overruns := overruns + 1;
        if overruns >= OVERRUN_LIMIT {
          Trip(Overrun);
        }
      } else {
        overruns := 0;
      }
    }

    /** The next shift goes out: select and latch the one just through, start the next one's buffers, render the
        one after it. */
    method NextShift()
      requires Valid()
      modifies `pins, `latched, `shiftSeq, `shiftBuf, `pwmA, `pwmB, seqA[shiftBuf], seqB[shiftBuf]
      ensures Valid() && View() == Interrupted(D(), frame[..], old(View()))
      ensures unchanged(`active, `g, `frame, `overruns, `overload, `irqEnabled) && frame[..] == old(frame[..])
    {
      hide Ready, Columns, DriveLen, FrameLen, ChainLen, Rendering, CycleLen, Next, PinsFor, ShiftRow, GeometryOk;
      ReadyFacts();
      SelectAndLatch();
      Advance();
    }

    /** Both PWMs have stopped - or the second one never does (`stuck`); `again` when rendering took so long that
        they have stopped again. */
    method Isr(stuck: bool, again: bool)
      requires Valid()
      modifies `pins, `latched, `shiftSeq, `shiftBuf, `pwmA, `pwmB, `overruns, `irqEnabled, `overload
      modifies seqA[shiftBuf], seqB[shiftBuf]
      ensures Valid() && View() == if stuck then old(View()) else Interrupted(D(), frame[..], old(View()))
      ensures unchanged(`active, `g, `frame) && frame[..] == old(frame[..])
      ensures stuck ==> overruns == old(overruns) && overload == Stuck && !irqEnabled
      ensures !stuck ==> overruns == if again then old(overruns) + 1 else 0
      ensures !stuck && overruns >= OVERRUN_LIMIT ==> overload == Overrun && !irqEnabled
      ensures !stuck && overruns < OVERRUN_LIMIT ==> overload == old(overload) && irqEnabled == old(irqEnabled)
    {
      hide *;
      if stuck {
        Trip(Stuck);
      } else {
        NextShift();
        CountOverrun(again);
      }
    }

    /** One row of a running panel: its shift plays to the end, then the interrupt handles it. */
    method Row(again: bool)
      requires Valid()
      modifies `reg, `pins, `latched, `shiftSeq, `shiftBuf, `pwmA, `pwmB, `overruns, `irqEnabled, `overload
      modifies seqA[shiftBuf], seqB[shiftBuf]
      ensures Valid() && View() == Interrupted(D(), frame[..], PlayedOut(D(), old(View())))
      ensures unchanged(`active, `g, `frame) && frame[..] == old(frame[..])
      ensures overruns == if again then old(overruns) + 1 else 0
      ensures irqEnabled == (old(irqEnabled) && overruns < OVERRUN_LIMIT)
    {
      hide Ready, Valid, View, Interrupted, PlayedOut, PipeOk;
      PlayShift();
      Isr(false, again);
    }

    // ---- a run ----

    /** The driver is where a run from `st` with these frames leads: see Reached. */
    ghost predicate Follows(st: Pipe, frames: seq<Frame>)
      requires Valid()
      reads `active, `g, `chainPos, `frame, `lut, `oeFullSteps, `oePartial, `seqA, `seqB,
            `fillerA, `fillerB, `addrAllMask
      reads chainPos, frame, lut, seqA, seqB
      reads `shiftSeq, `shiftBuf, `pins, `reg, `latched, `pwmA, `pwmB, `dataSeq
    {
      && |frames| >= 2 && FramesOk(D(), frames) && |st.reg| == ChainLen(active) && |st.latched| == ChainLen(active)
      && View() == Reached(D(), st, frames)
    }

    lemma StartFollows(f: Frame)
      requires Valid() && FrameOk(D(), f) && View() == Started(D(), f, f, pins, reg, latched)
      ensures Follows(View(), [f, f])
    {
    }

    /** A row of the run, and the ticks an LED is lit for in it; `again` when its rendering overran. */
    method RunRow(again: bool, ghost st: Pipe, ghost frames: seq<Frame>, ghost p: Place, ghost ch: nat)
      returns (ghost after: seq<Frame>, ghost lit: nat)
      requires Valid() && Follows(st, frames) && OnChain(active, p) && ch < 3
      modifies `reg, `pins, `latched, `shiftSeq, `shiftBuf, `pwmA, `pwmB, `overruns, `irqEnabled, `overload
      modifies seqA[0], seqA[1], seqB[0], seqB[1]
      ensures Valid() && unchanged(`active, `g, `frame) && frame[..] == old(frame[..])
      ensures overruns == if again then old(overruns) + 1 else 0
      ensures irqEnabled == (old(irqEnabled) && overruns < OVERRUN_LIMIT)
      ensures after == frames + [frame[..]] && Follows(st, after)
      ensures lit == LedTicks(D(), Reached(D(), st, after), p, ch)
    {
      hide Ready, PwmsSet, View, Interrupted, PlayedOut, LedTicks, Started, DriveOk, Columns;
      ReadyFacts();
      FrameIsOk();
      Row(again);
      after := frames + [frame[..]];
      assert after[..|frames|] == frames;
      lit := LedTicks(D(), View(), p, ch);
    }

    /** Rows with nothing drawn in between, as long as there are interrupts, and the ticks an LED is lit for over them;
        `late` says whose rendering overruns. All of them come if those keep up, and only then. */
    method RunRows(late: seq<bool>, ghost st: Pipe, ghost frames: seq<Frame>, ghost p: Place, ghost ch: nat)
      returns (ghost after: seq<Frame>, ghost lit: nat)
      requires Valid() && Follows(st, frames) && OnChain(active, p) && ch < 3
      modifies `reg, `pins, `latched, `shiftSeq, `shiftBuf, `pwmA, `pwmB, `overruns, `irqEnabled, `overload
      modifies seqA[0], seqA[1], seqB[0], seqB[1]
      ensures Valid() && unchanged(`active, `g, `frame) && frame[..] == old(frame[..])
      ensures |frames| <= |after| <= |frames| + |late| && after[..|frames|] == frames && Follows(st, after)
      ensures forall i | |frames| <= i < |after| :: after[i] == frame[..]
      ensures lit == LedTicksOver(D(), st, after, |frames| - 2, |after| - |frames|, p, ch)
      ensures irqEnabled == (old(irqEnabled) && KeepsUp(old(overruns), late))
      ensures irqEnabled ==> |after| == |frames| + |late|
      ensures var n := |after| - |frames|;
              && overruns == Overran(old(overruns), late[..n])
              && (n < |late| ==> !(old(irqEnabled) && KeepsUp(old(overruns), late[..n])))
              && (n > 0 ==> old(irqEnabled) && KeepsUp(old(overruns), late[..n - 1]))
    {
      hide Ready, PwmsSet, View, LedTicks, Reached, Columns, FrameOk, DriveOk, OnChain, Overran, KeepsUp;
      ReadyFacts();
      after, lit := frames, 0;
      var i := 0;
      OverranNext(overruns, late, 0);
      while i < |late| && irqEnabled
        invariant i <= |late| && Valid()
        invariant unchanged(`active, `g, `frame, `seqA, `seqB) && frame[..] == old(frame[..])
        invariant |after| == |frames| + i && after[..|frames|] == frames && Follows(st, after)
        invariant forall j | |frames| <= j < |after| :: after[j] == frame[..]
        invariant lit == LedTicksOver(D(), st, after, |frames| - 2, i, p, ch)
        invariant overruns == Overran(old(overruns), late[..i])
        invariant irqEnabled == (old(irqEnabled) && KeepsUp(old(overruns), late[..i]))
        invariant i > 0 ==> old(irqEnabled) && KeepsUp(old(overruns), late[..i - 1])
      {
        FrameIsOk();
        OverPrefix(D(), st, after, frame[..], |frames| - 2, i, p, ch);
        OverranNext(old(overruns), late, i);
        ghost var ticks: nat;
        after, ticks := RunRow(late[i], st, after, p, ch);
        assert after[..|frames| - 2 + i + 1 + 2] == after;
        lit := lit + ticks;
        i := i + 1;
      }
      assert late[..|late|] == late;
      KeptUpBefore(old(overruns), late, i);
    }

    /** Draws while the panel runs: what is going out stays what it is. */
    method Draw(picture: (nat, nat) -> Rgb, until: nat)
      requires Valid() && until <= active.height
      modifies frame
      ensures Valid() && View() == old(View())
      ensures Drawn(D(), frame[..], picture, 0, until) && Kept(D(), old(frame[..]), frame[..], 0, until)
    {
      hide DriveLen, FrameLen, ChainLen, GridRowCells, RowBlocks, Drawn, TableEntry, PwmsSet, SizesOf, OeFor, LutMeans,
        AddrPins, PwmTop, CycleLen, FrameOk, DriveOk;
      hide Kept;
      FrameDraw(picture, until);
      DrawnIsOk(picture, until);
    }

    lemma DrawnIsOk(picture: (nat, nat) -> Rgb, until: nat)
      requires Sized() && Drawn(D(), frame[..], picture, 0, until)
      ensures FrameOk(D(), frame[..])
    {
    }

    /** Two rows for what has been drawn to go out, then a whole cycle, and the ticks an LED is lit for over that. */
    method RunCycle(late: seq<bool>, ghost st: Pipe, ghost frames: seq<Frame>, ghost p: Place, ghost ch: nat)
      returns (ghost after: seq<Frame>, ghost lit: nat)
      requires Valid() && Follows(st, frames) && OnChain(active, p) && ch < 3
      requires |late| == 2 + CycleLen(D())
      modifies `reg, `pins, `latched, `shiftSeq, `shiftBuf, `pwmA, `pwmB, `overruns, `irqEnabled, `overload
      modifies seqA[0], seqA[1], seqB[0], seqB[1]
      ensures Valid() && unchanged(`active, `g, `frame) && frame[..] == old(frame[..]) && Follows(st, after)
      ensures |after| >= |frames| && after[..|frames|] == frames
      ensures forall i | |frames| <= i < |after| :: after[i] == frame[..]
      ensures irqEnabled == (old(irqEnabled) && KeepsUp(old(overruns), late))
      ensures irqEnabled ==>
                && |after| == |frames| + 2 + CycleLen(D())
                && lit == LedTicksOver(D(), st, after, |frames|, CycleLen(D()), p, ch)
    {
      hide Ready, PwmsSet, View, LedTicks, LedTicksOver, Reached, Columns, DriveOk, CycleLen, OnChain, FramesOk,
        FrameOk, Overran, KeepsUp;
      ReadyFacts();
      OverranInTwo(overruns, late, 2);
      after, lit := RunRows(late[..2], st, frames, p, ch);
      ghost var first := after;
      assert late[..2][..2] == late[..2];
      after, lit := RunRows(late[2..], st, first, p, ch);
      assert after[..|frames|] == after[..|first|][..|frames|];
      assert forall i | |frames| <= i < |first| :: after[i] == after[..|first|][i];
    }

    /** Draws a picture and keeps the panel running for as long as it takes to go out, then for one whole cycle: over
        that cycle every LED is lit for exactly the light of its pixel's colour, on every channel - and not at all on a
        panel that isn't driven. Whichever renderings overrun, unless there are so many in a row that the interrupt is
        switched off. */
    method ShowPicture(picture: (nat, nat) -> Rgb, late: seq<bool>, ghost st: Pipe, ghost frames: seq<Frame>,
                       ghost x: nat, ghost y: nat, ghost ch: nat)
      returns (ghost after: seq<Frame>, ghost lit: nat)
      requires Valid() && Follows(st, frames) && InDisplay(active, x, y) && ch < 3
      requires |late| == 2 + CycleLen(D())
      modifies frame, `reg, `pins, `latched, `shiftSeq, `shiftBuf, `pwmA, `pwmB, `overruns, `irqEnabled, `overload
      modifies seqA[0], seqA[1], seqB[0], seqB[1]
      ensures Valid() && unchanged(`active, `g, `frame) && Follows(st, after)
      ensures Drawn(D(), frame[..], picture, 0, active.height)
      ensures irqEnabled == (old(irqEnabled) && KeepsUp(old(overruns), late))
      ensures |after| >= |frames| && after[..|frames|] == frames
      ensures forall i | |frames| <= i < |after| :: after[i] == frame[..]
      ensures irqEnabled ==>
                && |after| == |frames| + 2 + CycleLen(D())
                && lit == LedTicksOver(D(), st, after, |frames|, CycleLen(D()), Locate(active, x, y), ch)
      ensures irqEnabled ==>
                lit == if PanelIndex(active, x, y) < g.drivePanels
                       then Light(DriveOn(D()), active.depth, Level(active.depth, Channel(picture(x, y), ch))) else 0
    {
      hide Ready, PwmsSet, View, LedTicks, Reached, Columns, DriveOk, Drawn, Light, Level, PanelIndex, Locate, Shows,
        CycleLen, LedTicksOver, Overran, KeepsUp;
      ReadyFacts();
      ghost var p := Locate(active, x, y);
      Draw(picture, active.height);
      ghost var f := frame[..];
      FirstShifts(D());
      after, lit := RunCycle(late, st, frames, p, ch);
      if irqEnabled {
        PictureShows(picture, x, y);
        PixelLight(D(), st, after, f, |frames|, x, y, picture(x, y), ch);
      }
    }

    lemma PictureShows(picture: (nat, nat) -> Rgb, x: nat, y: nat)
      requires Ready() && Drawn(D(), frame[..], picture, 0, active.height) && InDisplay(active, x, y)
      ensures FrameOk(D(), frame[..]) && Shows(D(), frame[..], x, y, picture(x, y))
    {
    }

    lemma FrameIsOk()
      requires Ready()
      ensures FrameOk(D(), frame[..])
    {
    }

    // ---- the start ----

    constructor ()
      ensures fresh(chainPos) && fresh(frame) && fresh(lut)
    {
      chainPos := new nat[0];
      frame := new bv8[0];
      lut := new Lut[0];
      oeFullSteps, oePartial := [], [];
      seqA, seqB := [], [];
      irqEnabled := false;
      dataSeq := 0;
    }

    /** Buffers of the given sizes: chain table, frame (blank), lookup table and the two step buffer pairs. */
    method Allocate(cells: nat, frameLen: nat, steps: nat)
      modifies `chainPos, `frame, `lut, `seqA, `seqB
      ensures chainPos.Length == cells && frame.Length == frameLen && lut.Length == PX_COMBOS
      ensures forall i | 0 <= i < frameLen :: frame[i] == 0
      ensures |seqA| == 2 && |seqB| == 2 && PairFits(seqA[0], seqB[0], steps) && PairFits(seqA[1], seqB[1], steps)
      ensures seqA[0] != seqA[1] && seqB[0] != seqB[1]
      ensures forall i, j | 0 <= i < 2 && 0 <= j < 2 :: seqA[i] != seqB[j]
      ensures chainPos as object != frame && lut as object != frame && lut as object != chainPos
      ensures fresh(chainPos) && fresh(frame) && fresh(lut)
      ensures fresh(seqA[0]) && fresh(seqA[1]) && fresh(seqB[0]) && fresh(seqB[1])
    {
      chainPos := new nat[cells];
      frame := new bv8[frameLen](_ => 0);
      lut := new Lut[PX_COMBOS];
      var a0, a1 := new Step[steps], new Step[steps];
      var b0, b1 := new Step[steps], new Step[steps];
      seqA, seqB := [a0, a1], [b0, b1];
    }

    /** The sizes of a configuration driving `panels` panels, with buffers of those sizes and the frame blank. */
    method Configure(c: Config, panels: nat)
      requires DriveOk(Drive(c, panels))
      modifies `active, `g, `chainPos, `frame, `lut, `seqA, `seqB
      ensures Sized() && D() == Drive(c, panels) && FrameOk(D(), frame[..]) && frame[..] == Blank(D())
      ensures |seqA| == 2 && |seqB| == 2 && lut.Length == PX_COMBOS
      ensures PairFits(seqA[0], seqB[0], g.driveLen + IDLE_STEPS) && PairFits(seqA[1], seqB[1], g.driveLen + IDLE_STEPS)
      ensures seqA[0] != seqA[1] && seqB[0] != seqB[1]
      ensures forall i, j | 0 <= i < 2 && 0 <= j < 2 :: seqA[i] != seqB[j]
      ensures lut as object != frame && lut as object != chainPos
      ensures fresh(chainPos) && fresh(frame) && fresh(lut)
      ensures fresh(seqA[0]) && fresh(seqA[1]) && fresh(seqB[0]) && fresh(seqB[1])
    {
      hide SizesOf, DriveLen, FrameLen, GridRowCells, PwmTop, PanelW, PanelH, RowBlocks, GeometryOk, TotalPanels;
      SizesFrom(c, panels);
      active := c;
      var rb := PanelH(c) / 2 / c.scan;
      var n := panels * PanelW(c) * rb;
      g := Sizes(c.scan, rb, c.width * c.gridY * rb, c.width / c.gridX, c.height / c.gridY,
                 c.gridX * c.gridY, panels, n, c.depth, PwmTop(c));
      Allocate(rb * c.width, c.scan * n * c.depth, n + IDLE_STEPS);
    }

    ghost predicate PairFits(a: array<Step>, b: array<Step>, steps: nat)
      reads `chainPos, `frame, `lut
    {
      && a.Length == steps && b.Length == steps
      && a as object != frame && b as object != frame && a as object != lut && b as object != lut
      && a as object != chainPos && b as object != chainPos
    }

    method FillLut()
      requires Sized() && lut.Length == PX_COMBOS
      modifies lut
      ensures LutReady()
    {
      for px := 0 to PX_COMBOS
        invariant forall e: bv8 | e < 64 && e as int < px :: lut[e as int] == Lut(LutA(g.pwmTop, e), LutB(e))
      {
        lut[px] := Lut(LutA(g.pwmTop, px as bv8), LutB(px as bv8));
      }
    }

    /** The trailing idle columns, which no rendering touches. */
    static method FillIdle(a: array<Step>, b: array<Step>, n: nat)
      requires a != b && a.Length == n + IDLE_STEPS && b.Length == n + IDLE_STEPS
      modifies a, b
      ensures a[n] == IDLE.a && a[n + 1] == IDLE.a && b[n] == IDLE.b && b[n + 1] == IDLE.b
    {
      for i := n to n + IDLE_STEPS
        invariant forall j | n <= j < i :: a[j] == IDLE.a && b[j] == IDLE.b
      {
        a[i] := Step(Word(PWM_LOW, PWM_LOW), Word(PWM_LOW, PWM_LOW));
        b[i] := Step(Word(PWM_LOW, PWM_LOW), Word(PWM_LOW, PWM_HIGH));
      }
    }

    /** The panel's address pins become outputs, low. */
    method SetupAddrPins()
      requires g.scanRows in {2, 4, 8, 16, 32}
      modifies `addrAllMask, `pins
      ensures addrAllMask == AddrPins(g.scanRows, 5) && pins == old(pins) - addrAllMask
    {
      addrAllMask := {};
      var i := 0;
      while i < 5 && BITS[i] < g.scanRows
        invariant i <= 5 && addrAllMask == AddrPins(g.scanRows, i) && pins == old(pins) - addrAllMask
        invariant forall j | 0 <= j < i :: BITS[j] < g.scanRows
      {
        addrAllMask := addrAllMask + {ADDR_PINS[i]};
        pins := pins - {ADDR_PINS[i]};
        i := i + 1;
      }
      AddrPinsStop(g.scanRows, i, 5);
    }

    /** The tables of a configuration whose sizes are set. */
    method BuildTables()
      requires Sized() && lut.Length == PX_COMBOS && lut as object != frame && lut as object != chainPos
      modifies `oeFullSteps, `oePartial, `fillerA, `fillerB, `addrAllMask, `pins, lut, chainPos
      ensures Sized() && TableBuilt() && OeReady() && LutReady()
      ensures Column(fillerA, fillerB) == Filler(g.pwmTop) && addrAllMask == AddrPins(g.scanRows, 5)
      ensures pins == old(pins) - AddrPins(g.scanRows, 5) && frame[..] == old(frame[..])
    {
      hide DriveLen, FrameLen, ChainLen, GridRowCells, PwmTop, TableEntry, OnTicks, PlaneTicks, OeFor, LutMeans,
           AddrPins;
      OeSet(active.brightness);
      FillLut();
      fillerA := Step(Word(PWM_LOW, PWM_LOW), Word(PWM_LOW, g.pwmTop / 2));
      fillerB := Step(Word(PWM_LOW, PWM_LOW), Word(PWM_LOW, PWM_HIGH));
      SetupAddrPins();
      ChainBuild();
    }

    method FillIdles()
      requires Sized() && |seqA| == 2 && |seqB| == 2
      requires PairFits(seqA[0], seqB[0], g.driveLen + IDLE_STEPS)
               && PairFits(seqA[1], seqB[1], g.driveLen + IDLE_STEPS)
      requires seqA[0] != seqA[1] && seqB[0] != seqB[1]
      requires forall i, j | 0 <= i < 2 && 0 <= j < 2 :: seqA[i] != seqB[j]
      modifies seqA[0], seqA[1], seqB[0], seqB[1]
      ensures unchanged(this, frame, lut, chainPos) && BuffersOk()
    {
      hide Sized;
      var a0, b0, a1, b1 := seqA[0], seqB[0], seqA[1], seqB[1];
      FillIdle(a0, b0, g.driveLen);
      FillIdle(a1, b1, g.driveLen);
    }

    /** Everything the interrupt needs, for `panels` panels of a configuration. */
    method Prepare(c: Config, panels: nat)
      requires DriveOk(Drive(c, panels))
      modifies this
      ensures Ready() && D() == Drive(c, panels) && frame[..] == Blank(D())
      ensures fresh(seqA[0]) && fresh(seqA[1]) && fresh(seqB[0]) && fresh(seqB[1])
      ensures pins == old(pins) - AddrPins(c.scan, 5)
    {
      hide DriveLen, FrameLen, ChainLen, GridRowCells, Blank, TableFilled, OeFor, LutMeans, AddrPins;
      Configure(c, panels);
      BuildTables();
      FillIdles();
    }

    /** The first two shifts into the two buffer pairs. */
    method RenderFirst()
      requires Ready()
      modifies seqA[0], seqA[1], seqB[0], seqB[1]
      ensures Ready() && unchanged(this) && frame[..] == old(frame[..]) && 0 < CycleLen(D())
      ensures Columns(0) == Rendering(D(), frame[..], 0) && Columns(1) == Rendering(D(), frame[..], Next(D(), 0))
    {
      hide Ready, Columns, Rendering, DriveLen, FrameLen, ChainLen, CycleLen, Accepted, SizesOf, PwmTop, FrameOk, Next,
        GridRowCells, TotalPanels;
      ReadyFacts();
      FirstShifts(D());
      RenderRow(0, 0);
      RenderRow(1, 1 % (g.scanRows * g.depth));
    }

    /** What an instance is given at the start: the filler and the data, or just the data when every panel is driven. */
    method PwmSetup(was: Pwm) returns (p: Pwm)
      requires DriveOk(D()) && g.driveLen == DriveLen(D()) && g.chainLen == ChainLen(active) && dataSeq == DataSeq(D())
      ensures PwmSet(D(), p, 0)
    {
      hide DriveLen, ChainLen, TotalPanels;
      var data := Sequence(Steps(0), (g.driveLen + IDLE_STEPS) * CHANNELS, 0);
      var fill := Sequence(FillerStep, CHANNELS, g.chainLen - g.driveLen - 1);
      if dataSeq == 0 {
        p := was.(seq0 := data, loop := 0);
      } else {
        p := was.(seq0 := fill, seq1 := data, loop := 1);
      }
    }

    /** Both instances set up for the first buffer pair. */
    method SetupPwms()
      requires Ready()
      modifies `pwmA, `pwmB, `dataSeq
      ensures PwmsSet(0) && Ready()
    {
      hide Ready, DriveLen, ChainLen, TotalPanels;
      ReadyFacts();
      dataSeq := if g.drivePanels < g.totalPanels then 1 else 0;
      assert Ready();
      pwmA := PwmSetup(pwmA);
      assert Ready();
      pwmB := PwmSetup(pwmB);
    }

    /** The interrupt's variables and the PWMs, as shift 0 goes out. */
    method GoOut(reg0: seq<bv8>, latched0: seq<bv8>)
      requires Ready()
      modifies `shiftSeq, `shiftBuf, `reg, `latched, `overruns, `overload, `irqEnabled, `pwmA, `pwmB, `dataSeq
      ensures Ready() && PwmsSet(0) && shiftSeq == shiftBuf == 0 && reg == reg0 && latched == latched0
      ensures overruns == 0 && overload == NoOverload && irqEnabled
    {
      hide Ready, PwmsSet;
      shiftSeq, shiftBuf := 0, 0;
      reg, latched := reg0, latched0;
      assert Ready();
      overruns, overload, irqEnabled := 0, NoOverload, true;
      assert Ready();
      SetupPwms();
    }

    /** What the chip needs first, on a chain that holds anything: nothing for plain shift registers; for the others,
        once their registers are written, one row of all off. */
    method ChipInit(reg0: seq<bv8>, latched0: seq<bv8>) returns (reg1: seq<bv8>, latched1: seq<bv8>)
      requires |reg0| == |latched0| == g.chainLen
      ensures reg1 == ChipInited(active, reg0) && latched1 == ChipInited(active, latched0)
      ensures active.chip == Shift ==> reg1 == reg0 && latched1 == latched0
      ensures active.chip == Fm6126a ==>
                |reg1| == |latched1| == g.chainLen && forall i | 0 <= i < g.chainLen :: reg1[i] == latched1[i] == 0
    {
      reg1, latched1 := reg0, latched0;
      if active.chip == Fm6126a {
        for i := 0 to g.chainLen
          invariant reg1 == seq(i, _ => 0) + reg0[..g.chainLen - i]
        {
          reg1 := [0] + reg1[..g.chainLen - 1];
        }
        latched1 := reg1;
      }
    }

    /** The first two shifts rendered, the first one going out. */
    method StartShifting(reg0: seq<bv8>, latched0: seq<bv8>)
      requires Ready() && |reg0| == g.chainLen && |latched0| == g.chainLen
      modifies `shiftSeq, `shiftBuf, `reg, `latched, `overruns, `overload, `irqEnabled, `pwmA, `pwmB, `dataSeq
      modifies seqA[0], seqA[1], seqB[0], seqB[1]
      ensures Valid() && unchanged(`active, `g, `frame, `pins) && frame[..] == old(frame[..])
      ensures View() == Started(D(), frame[..], frame[..], pins, ChipInited(active, reg0), ChipInited(active, latched0))
      ensures overruns == 0 && overload == NoOverload && irqEnabled
    {
      hide Ready, Columns, Rendering, DriveLen, FrameLen, ChainLen, CycleLen, Accepted, SizesOf, PwmTop, FrameOk, Next,
        PipeOk, GridRowCells, TotalPanels, PwmsSet;
      ReadyFacts();
      var reg1, latched1 := ChipInit(reg0, latched0);
      GoOut(reg1, latched1);
      ReadyFacts();
      RenderFirst();
    }

    /** The buffers in use are no larger than their regions of the arena. */
    ghost predicate Placed()
      requires |seqA| == 2 && |seqB| == 2 && LayoutOk(layout)
      reads `active, `g, `chainPos, `frame, `seqA, `seqB, `layout
    {
      && chainPos.Length * POS_BYTES <= layout.chainPos.len && active.width * POS_BYTES <= layout.mapCols.len
      && frame.Length <= layout.frame.len
      && forall i | 0 <= i < 2 ::
           seqA[i].Length * STEP_BYTES <= layout.seqA[i].len && seqB[i].Length * STEP_BYTES <= layout.seqB[i].len
    }

    lemma LayoutPlaces()
      requires Ready() && layout == LayoutOf(D()) && LayoutOk(layout)
      ensures Placed()
    {
      hide DriveLen, FrameLen, ChainLen, GridRowCells, PwmTop, LutMeans, OeFor, TableFilled, AddrPins, FrameOk,
           LayoutOk;
    }

    /** Everything ready for `panels` panels, in buffers placed by the allocator. */
    method PreparePlaced(c: Config, panels: nat, placed: Layout)
      requires DriveOk(Drive(c, panels)) && placed == LayoutOf(Drive(c, panels)) && LayoutOk(placed)
      modifies this
      ensures Ready() && D() == Drive(c, panels) && frame[..] == Blank(D()) && FrameOk(D(), frame[..])
      ensures fresh(seqA[0]) && fresh(seqA[1]) && fresh(seqB[0]) && fresh(seqB[1])
      ensures pins == old(pins) - AddrPins(c.scan, 5)
      ensures layout == placed && Placed()
    {
      hide Ready, DriveOk, LayoutOf, LayoutOk, Blank, FrameOk, Placed;
      Prepare(c, panels);
      layout := placed;
      assert Ready();
      ReadyFacts();
      FrameIsOk();
      LayoutPlaces();
    }

    /** Sets every size, table and buffer up for a configuration, with the first two shifts rendered; false when
        there is no memory for even one panel. `reg0` and `latched0` are what the chain happens to hold. */
    method Start(c: Config, reg0: seq<bv8>, latched0: seq<bv8>) returns (ok: bool)
      requires Accepted(c) && RowBlocks(c) <= 255
      requires |reg0| == ChainLen(c) && |latched0| == ChainLen(c)
      modifies this
      ensures ok <==> Fits(c, 1)
      ensures ok ==> Valid() && active == c && overruns == 0 && overload == NoOverload && irqEnabled
      ensures ok ==> forall n | 1 <= n <= TotalPanels(c) :: Fits(c, n) <==> n <= D().panels
      ensures ok ==>
                && frame[..] == Blank(D())
                && View() == Started(D(), Blank(D()), Blank(D()), pins, ChipInited(c, reg0), ChipInited(c, latched0))
      ensures ok ==> Follows(View(), [Blank(D()), Blank(D())])
      ensures ok ==> pins == old(pins) - AddrPins(c.scan, 5)
      ensures ok ==> layout == LayoutOf(D()) && LayoutOk(layout) && |seqA| == 2 && |seqB| == 2 && Placed()
    {
      hide Ready, Columns, Rendering, Fits, DriveLen, FrameLen, ChainLen, Blank, CycleLen, Accepted, DriveOk,
        SizesOf, PwmTop, RowBlocks, TotalPanels, FrameOk, Next, LayoutOf, LayoutOk, Placed, PwmsSet, Follows;
      var panels, placed := Alloc(c);
      SomePanels(c, panels);
      assert Fits(c, 1) <==> 1 <= panels;
      if panels == 0 {
        return false;
      }
      PreparePlaced(c, panels, placed);
      ReadyFacts();
      StartShifting(reg0, latched0);
      StartFollows(frame[..]);
      ok := true;
    }
  }

  /** What a chain's registers or latches hold once the chip is set up. */
  function ChipInited(c: Config, held: seq<bv8>): (after: seq<bv8>)
    ensures |after| == |held|
  {
    if c.chip == Fm6126a then seq(|held|, _ => 0) else held
  }

  // ---- overruns ----

  /** How many of the last renderings in a row overran, when before them it was n. */
  function Overran(n: nat, late: seq<bool>): nat {
    if late == [] then n else if late[|late| - 1] then Overran(n, late[..|late| - 1]) + 1 else 0
  }

  /** It is never OVERRUN_LIMIT. */
  predicate KeepsUp(n: nat, late: seq<bool>) {
    forall i | 0 < i <= |late| :: Overran(n, late[..i]) < OVERRUN_LIMIT
  }

  lemma OverranNext(n: nat, late: seq<bool>, i: nat)
    requires i <= |late|
    ensures i == 0 ==> Overran(n, late[..i]) == n && KeepsUp(n, late[..i])
    ensures i < |late| ==> Overran(n, late[..i + 1]) == if late[i] then Overran(n, late[..i]) + 1 else 0
    ensures i < |late| ==>
              (KeepsUp(n, late[..i + 1]) <==> KeepsUp(n, late[..i]) && Overran(n, late[..i + 1]) < OVERRUN_LIMIT)
  {
    if i < |late| {
      var next := late[..i + 1];
      assert forall j | 0 <= j <= i :: next[..j] == late[..i][..j] == late[..j];
      assert next[..i + 1] == next;
    }
  }

  lemma KeptUpBefore(n: nat, late: seq<bool>, i: nat)
    requires i <= |late|
    ensures KeepsUp(n, late) ==> KeepsUp(n, late[..i])
  {
    assert forall j | 0 <= j <= i :: late[..i][..j] == late[..j];
  }

  lemma {:induction false} OverranConcat(n: nat, a: seq<bool>, b: seq<bool>)
    ensures Overran(n, a + b) == Overran(Overran(n, a), b)
    decreases |b|
  {
    if b == [] {
      assert a + b == a;
    } else {
      assert (a + b)[..|a + b| - 1] == a + b[..|b| - 1];
      OverranConcat(n, a, b[..|b| - 1]);
    }
  }

  lemma OverranInTwo(n: nat, late: seq<bool>, i: nat)
    requires i <= |late|
    ensures KeepsUp(n, late) <==> KeepsUp(n, late[..i]) && KeepsUp(Overran(n, late[..i]), late[i..])
  {
    var a, b := late[..i], late[i..];
    forall j | 0 < j <= |b|
      ensures Overran(n, late[..i + j]) == Overran(Overran(n, a), b[..j])
    {
      assert late[..i + j] == a + b[..j];
      OverranConcat(n, a, b[..j]);
    }
    hide Overran;
    assert forall j | 0 <= j <= i :: a[..j] == late[..j];
    if KeepsUp(n, late) {
      forall j | 0 < j <= |b|
        ensures Overran(Overran(n, a), b[..j]) < OVERRUN_LIMIT
      {
        assert Overran(n, late[..i + j]) < OVERRUN_LIMIT;
      }
    }
    if KeepsUp(n, a) && KeepsUp(Overran(n, a), b) {
      forall j | 0 < j <= |late|
        ensures Overran(n, late[..j]) < OVERRUN_LIMIT
      {
        if j <= i {
          assert Overran(n, a[..j]) < OVERRUN_LIMIT;
        } else {
          assert Overran(Overran(n, a), b[..j - i]) < OVERRUN_LIMIT;
        }
      }
    }
  }

  lemma NextShiftOf(d: Drive, s: nat)
    requires DriveOk(d) && s < CycleLen(d)
    ensures CycleLen(d) == d.c.scan * d.c.depth
    ensures Next(d, s) == (s + 1) % CycleLen(d) < CycleLen(d)
    ensures Next(d, Next(d, s)) == (Next(d, s) + 1) % CycleLen(d) < CycleLen(d)
  {
  }

  lemma FirstShifts(d: Drive)
    requires DriveOk(d)
    ensures CycleLen(d) == d.c.scan * d.c.depth && 0 < CycleLen(d)
    ensures Next(d, 0) == 1 % (d.c.scan * d.c.depth)
  {
  }

  /** Any configuration has at least one panel and can be driven on one. */
  lemma SomePanels(c: Config, panels: nat)
    requires Accepted(c) && panels <= TotalPanels(c)
    ensures 1 <= TotalPanels(c)
    ensures 0 < panels ==> DriveOk(Drive(c, panels))
  {
  }

  /** The sizes as the start computes them. */
  lemma SizesFrom(c: Config, panels: nat)
    requires DriveOk(Drive(c, panels))
    ensures var d, rb := Drive(c, panels), PanelH(c) / 2 / c.scan;
            && SizesOf(d) == Sizes(c.scan, rb, c.width * c.gridY * rb, c.width / c.gridX, c.height / c.gridY,
                 c.gridX * c.gridY, panels, panels * PanelW(c) * rb, c.depth, PwmTop(c))
            && rb * c.width == GridRowCells(c)
            && c.scan * (panels * PanelW(c) * rb) * c.depth == FrameLen(d)
            && 0 <= panels * PanelW(c) * rb && 0 <= c.scan * (panels * PanelW(c) * rb) * c.depth
            && c.gridX > 0 && c.gridY > 0 && c.scan > 0
  {
    hide PwmTop;
    MulAssoc(panels, PanelW(c), RowBlocks(c));
  }

  lemma {:induction false} AddrPinsStop(scan: nat, i: nat, n: nat)
    requires i <= n <= 5 && (i == 5 || BITS[i] >= scan)
    ensures AddrPins(scan, n) == AddrPins(scan, i)
  {
    if i < n {
      AddrPinsStop(scan, i, n - 1);
    }
  }

  function Blank(d: Drive): Frame
    requires DriveOk(d)
  {
    seq(FrameLen(d), _ => 0)
  }

  /** Steps that carry a shift's columns and the idle ones are its rendering. */
  lemma RenderingOf(d: Drive, f: Frame, s: nat, a: seq<Step>, b: seq<Step>)
    requires DriveOk(d) && FrameOk(d, f) && s < CycleLen(d)
    requires |a| == |b| == DriveLen(d) + IDLE_STEPS
    requires forall i | 0 <= i < DriveLen(d) ::
               Column(a[i], b[i]) == DataColumn(PwmTop(d.c), ShiftBytes(d, f, s)[i], OeAt(d, LitPlane(d, s), i))
    requires forall i | DriveLen(d) <= i < |a| :: Column(a[i], b[i]) == IDLE
    ensures Zipped(a, b) == Rendering(d, f, s)
  {
    hide DriveLen, ShiftBytes, PwmTop, OeAt, CycleLen, FrameLen;
  }

  function Zipped(a: seq<Step>, b: seq<Step>): (c: seq<Column>)
    requires |a| == |b|
    ensures |c| == |a|
  {
    seq(|a|, i requires 0 <= i < |a| => Column(a[i], b[i]))
  }

  /** A lookup table turns every frame byte into its columns. */
  ghost predicate LutMeans(lut: seq<Lut>, top: nat)
    requires |lut| == PX_COMBOS
  {
    forall e: bv8 | e < 64 :: lut[e as int] == Lut(LutA(top, e), LutB(e))
  }

  predicate OeEntry(full: nat, partial: Word, ticks: nat, top: nat)
    requires 0 < top
  {
    full == ticks / top && partial == Word(0, if ticks % top != 0 then ticks % top else PWM_HIGH)
  }

  predicate OeFor(full: seq<nat>, partial: seq<Word>, on: nat, depth: nat, top: nat)
    requires 0 < depth <= MAX_DEPTH && 0 < top
  {
    |full| == MAX_DEPTH && |partial| == MAX_DEPTH &&
    forall k | 0 <= k < depth :: OeEntry(full[k], partial[k], PlaneTicks(on, depth, k), top)
  }

  /** What the driver keeps for a plane lights it for exactly the plane's ticks: whole columns, then the partial. */
  lemma OeEntryAddsUp(full: nat, partial: Word, ticks: nat, top: nat)
    requires 0 < top <= 160 && OeEntry(full, partial, ticks, top)
    ensures full * top + LowTicks(partial.hi, top) == ticks
  {
    DivModParts(ticks, top);
  }

  lemma TableCells(c: Config)
    requires GeometryOk(c)
    ensures RowBlocks(c) * c.width == GridRowCells(c)
  {
  }
}
