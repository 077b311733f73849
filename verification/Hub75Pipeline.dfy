/** The interrupt pipeline: every reachable state of the ping-pong buffers, the chain, the latches and the
    address pins, and how long every LED is lit. */
module Hub75Pipeline {
  import Arith
  import opened Hub75Config
  import opened Hub75Geometry
  import opened Hub75Light
  import opened Hub75Frame
  import opened Hub75Pwm

  // ---- row address pins ----

  /** P0 pins carrying A, B, C, D and E, in address bit order. */
  const ADDR_PINS: seq<nat> := [4, 11, 5, 12, 10]
  const BITS: seq<nat> := [1, 2, 4, 8, 16]

  /** The address pins a row needs high, looking at the first n bits. */
  function AddrMask(row: nat, n: nat): set<nat>
    requires n <= 5
  {
    if n == 0 then {}
    else AddrMask(row, n - 1) + if row / BITS[n - 1] % 2 == 1 then {ADDR_PINS[n - 1]} else {}
  }

  /** The address pins a panel with `scan` row addresses has. */
  function AddrPins(scan: nat, n: nat): set<nat>
    requires n <= 5
  {
    if n == 0 then {}
    else AddrPins(scan, n - 1) + if BITS[n - 1] < scan then {ADDR_PINS[n - 1]} else {}
  }

  /** The row a panel's address decoder selects. */
  function DecodedRow(scan: nat, pins: set<nat>, n: nat): nat
    requires n <= 5
  {
    if n == 0 then 0
    else DecodedRow(scan, pins, n - 1) + if BITS[n - 1] < scan && ADDR_PINS[n - 1] in pins then BITS[n - 1] else 0
  }

  function PinsFor(scan: nat, pins: set<nat>, row: nat): set<nat> {
    pins - AddrPins(scan, 5) + AddrMask(row, 5)
  }

  lemma {:induction false} AddrMaskMember(row: nat, scan: nat, n: nat)
    requires n <= 5
    ensures forall i | 0 <= i < n :: ADDR_PINS[i] in AddrMask(row, n) <==> row / BITS[i] % 2 == 1
    ensures forall i | n <= i < 5 :: ADDR_PINS[i] !in AddrMask(row, n) && ADDR_PINS[i] !in AddrPins(scan, n)
    ensures forall i | 0 <= i < n :: ADDR_PINS[i] in AddrPins(scan, n) <==> BITS[i] < scan
    ensures forall pin | pin in AddrMask(row, n) || pin in AddrPins(scan, n) :: pin in ADDR_PINS
  {
    if n == 0 {
    } else {
      AddrMaskMember(row, scan, n - 1);
    }
  }

  lemma {:induction false} DecodedRowSum(scan: nat, pins: set<nat>, row: nat, n: nat)
    requires n <= 5
    requires forall i | 0 <= i < n && BITS[i] < scan :: ADDR_PINS[i] in pins <==> row / BITS[i] % 2 == 1
    ensures DecodedRow(scan, pins, n)
         == (if n > 0 && 1 < scan && row % 2 == 1 then 1 else 0)
          + (if n > 1 && 2 < scan && row / 2 % 2 == 1 then 2 else 0)
          + (if n > 2 && 4 < scan && row / 4 % 2 == 1 then 4 else 0)
          + (if n > 3 && 8 < scan && row / 8 % 2 == 1 then 8 else 0)
          + (if n > 4 && 16 < scan && row / 16 % 2 == 1 then 16 else 0)
  {
    if n == 0 {
    } else {
      DecodedRowSum(scan, pins, row, n - 1);
    }
  }

  lemma PinsForMember(scan: nat, pins: set<nat>, row: nat)
    requires scan in {2, 4, 8, 16, 32} && row < scan
    ensures forall i | 0 <= i < 5 && BITS[i] < scan ::
              ADDR_PINS[i] in PinsFor(scan, pins, row) <==> row / BITS[i] % 2 == 1
    ensures AddrMask(row, 5) <= AddrPins(scan, 5)
  {
    AddrMaskMember(row, scan, 5);
    forall pin | pin in AddrMask(row, 5)
      ensures pin in AddrPins(scan, 5)
    {
      var i :| 0 <= i < 5 && pin == ADDR_PINS[i];
      BitBelowScan(scan, row, i);
    }
  }

  lemma BitBelowScan(scan: nat, row: nat, i: nat)
    requires i < 5 && row < scan && row / BITS[i] % 2 == 1
    ensures BITS[i] < scan
  {
    Arith.DivModParts(row, BITS[i]);
  }

  lemma RowBits(scan: nat, row: nat)
    requires scan in {2, 4, 8, 16, 32} && row < scan
    ensures row == (if 1 < scan && row % 2 == 1 then 1 else 0) + (if 2 < scan && row / 2 % 2 == 1 then 2 else 0)
                 + (if 4 < scan && row / 4 % 2 == 1 then 4 else 0) + (if 8 < scan && row / 8 % 2 == 1 then 8 else 0)
                 + (if 16 < scan && row / 16 % 2 == 1 then 16 else 0)
  {
    var b0, b1, b2, b3, b4 := row % 2, row / 2 % 2, row / 4 % 2, row / 8 % 2, row / 16 % 2;
    assert row == b0 + 2 * b1 + 4 * b2 + 8 * b3 + 16 * b4;
    assert (row < 16 ==> b4 == 0) && (row < 8 ==> b3 == 0) && (row < 4 ==> b2 == 0) && (row < 2 ==> b1 == 0);
  }

  /** After the pins are cleared and set for a row, the panel decodes exactly that row, whatever they were, and
      every pin that isn't one of the panel's address lines keeps its level. */
  lemma PinsSelectRow(scan: nat, pins: set<nat>, row: nat)
    requires scan in {2, 4, 8, 16, 32} && row < scan
    ensures DecodedRow(scan, PinsFor(scan, pins, row), 5) == row
    ensures forall pin | pin !in AddrPins(scan, 5) :: pin in PinsFor(scan, pins, row) <==> pin in pins
  {
    PinsForMember(scan, pins, row);
    DecodedRowSum(scan, PinsFor(scan, pins, row), row, 5);
    RowBits(scan, row);
  }

  /** A and B are always used, C from 8 row addresses on, D with 16 or 32 and E only with 32. */
  lemma AddressLines(scan: nat)
    requires scan in {2, 4, 8, 16, 32}
    ensures forall i | 0 <= i < 5 :: ADDR_PINS[i] in AddrPins(scan, 5) <==> Arith.Pow2(i) < scan
    ensures AddrPins(2, 5) == {4} && AddrPins(4, 5) == {4, 11} && AddrPins(8, 5) == {4, 11, 5}
    ensures AddrPins(16, 5) == {4, 11, 5, 12} && AddrPins(32, 5) == {4, 11, 5, 12, 10}
  {
    AddrMaskMember(0, scan, 5);
    assert forall i | 0 <= i < 5 :: Arith.Pow2(i) == BITS[i];
  }

  // ---- the pipeline ----

  /** The driver's shift state with the hardware behind it: the step buffers, the P0 address pins, every chain
      position's shift register and output latch. */
  datatype Pipe = Pipe(
    shiftSeq: nat, shiftBuf: nat, bufs: seq<seq<Column>>,
    pins: set<nat>, reg: seq<bv8>, latched: seq<bv8>)

  predicate PipeOk(d: Drive, st: Pipe)
    requires DriveOk(d)
  {
    && st.shiftSeq < CycleLen(d) && st.shiftBuf < 2 && |st.bufs| == 2
    && |st.reg| == ChainLen(d.c) && |st.latched| == ChainLen(d.c)
  }

  function Next(d: Drive, s: nat): (t: nat)
    requires DriveOk(d)
    ensures t < CycleLen(d)
  {
    (s + 1) % CycleLen(d)
  }

  /** As the start leaves it: the first two shifts rendered, the first one going out. */
  function Started(d: Drive, f0: Frame, f1: Frame, pins: set<nat>, reg: seq<bv8>, latched: seq<bv8>): (st: Pipe)
    requires DriveOk(d) && |f0| == FrameLen(d) && |f1| == FrameLen(d)
    requires |reg| == ChainLen(d.c) && |latched| == ChainLen(d.c)
    ensures PipeOk(d, st)
  {
    Pipe(0, 0, [Rendering(d, f0, 0), Rendering(d, f1, Next(d, 0))], pins, reg, latched)
  }

  /** The chain once the shift in progress has played to its end. */
  function PlayedOut(d: Drive, st: Pipe): (after: Pipe)
    requires DriveOk(d) && PipeOk(d, st)
    ensures PipeOk(d, after)
  {
    st.(reg := Shifted(st.reg, Played(d, st.bufs[st.shiftBuf]), PwmTop(d.c)))
  }

  /** One interrupt: select and latch the row just shifted, start the other buffer, render into this one. */
  function Interrupted(d: Drive, f: Frame, st: Pipe): (after: Pipe)
    requires DriveOk(d) && |f| == FrameLen(d) && PipeOk(d, st)
    ensures PipeOk(d, after)
  {
    var next := Next(d, st.shiftSeq);
    Pipe(next, 1 - st.shiftBuf, st.bufs[st.shiftBuf := Rendering(d, f, Next(d, next))],
         PinsFor(d.c.scan, st.pins, ShiftRow(d, st.shiftSeq)), st.reg, st.reg)
  }

  predicate FramesOk(d: Drive, frames: seq<Frame>)
    requires DriveOk(d)
  {
    forall i | 0 <= i < |frames| :: FrameOk(d, frames[i])
  }

  /** The state a run reaches: frames 0 and 1 are those of the start's two renderings, frame i + 2 is what the
      frame buffer holds when interrupt i renders. Anything may be drawn in between. */
  function Reached(d: Drive, st: Pipe, frames: seq<Frame>): (after: Pipe)
    requires DriveOk(d) && |frames| >= 2 && FramesOk(d, frames)
    requires |st.reg| == ChainLen(d.c) && |st.latched| == ChainLen(d.c)
    ensures PipeOk(d, after)
    decreases |frames|
  {
    var i := |frames| - 1;
    if i == 1 then Started(d, frames[0], frames[1], st.pins, st.reg, st.latched)
    else Interrupted(d, frames[i], PlayedOut(d, Reached(d, st, frames[..i])))
  }

  /** The buffer going out holds shift_seq's rendering, of one frame, and the other the next one's, of another. */
  ghost predicate Buffered(d: Drive, f: Frame, g: Frame, st: Pipe)
    requires DriveOk(d) && PipeOk(d, st) && FrameOk(d, f) && FrameOk(d, g)
  {
    && st.bufs[st.shiftBuf] == Rendering(d, f, st.shiftSeq)
    && st.bufs[1 - st.shiftBuf] == Rendering(d, g, Next(d, st.shiftSeq))
  }

  /** The latches hold shift s of a frame, the pins select its row, and the OE going out is its plane's. */
  ghost predicate Latched(d: Drive, f: Frame, s: nat, st: Pipe)
    requires DriveOk(d) && PipeOk(d, st) && FrameOk(d, f) && s < CycleLen(d)
  {
    && st.shiftSeq == Next(d, s)
    && LitPlane(d, st.shiftSeq) == ShiftPlane(d, s)
    && DecodedRow(d.c.scan, st.pins, 5) == ShiftRow(d, s)
    && forall p | 0 <= p < ChainLen(d.c) :: st.latched[p] == Lamps(d, f, s, p)
  }

  lemma InterruptKeeps(d: Drive, f: Frame, g: Frame, h: Frame, st: Pipe)
    requires DriveOk(d) && PipeOk(d, st) && FrameOk(d, f) && FrameOk(d, g) && FrameOk(d, h)
    requires Buffered(d, f, g, st)
    ensures Buffered(d, g, h, Interrupted(d, h, PlayedOut(d, st)))
    ensures Latched(d, f, st.shiftSeq, Interrupted(d, h, PlayedOut(d, st)))
  {
    LitPlaneIsPrevious(d, st.shiftSeq);
    PinsSelectRow(d.c.scan, st.pins, ShiftRow(d, st.shiftSeq));
    ShiftFillsChain(d, f, st.shiftSeq, st.reg);
  }

  lemma TopPlaneFirst(d: Drive)
    requires DriveOk(d)
    ensures 0 < CycleLen(d) && ShiftRow(d, 0) == 0 && LitPlane(d, 0) == d.c.depth - 1
  {
    hide DriveLen, FrameLen, ChainLen;
    Arith.DivModUnique(0, 0, d.c.depth);
    Arith.DivModUnique(0, d.c.depth - 1, d.c.depth);
  }

  /** In every reachable state: the buffer being shifted holds shift_seq's rendering and the other the next one's,
      the latches hold the shift before, the pins select its row, and the OE going out is its plane's - also
      where the cycle wraps around; positions past the driven panels are blank. Before the first interrupt pins and
      latches are still what they were at the start, under the OE of the top plane. */
  lemma {:induction false} PingPongAlways(d: Drive, st: Pipe, frames: seq<Frame>)
    requires DriveOk(d) && |frames| >= 2 && FramesOk(d, frames)
    requires |st.reg| == ChainLen(d.c) && |st.latched| == ChainLen(d.c)
    ensures var i, after := |frames| - 2, Reached(d, st, frames);
            && after.shiftSeq == i % CycleLen(d)
            && Buffered(d, frames[i], frames[i + 1], after)
            && (i > 0 ==> Latched(d, frames[i - 1], (i - 1) % CycleLen(d), after))
            && (i == 0 ==> after.pins == st.pins && after.latched == st.latched && LitPlane(d, 0) == d.c.depth - 1)
    decreases |frames|
  {
    hide DriveLen, FrameLen, FrameOk, ChainLen, CycleLen, Rendering, LitPlane, DecodedRow, PinsFor, Played, Shifted;
    var i := |frames| - 2;
    if i == 0 {
      Arith.DivModUnique(0, 0, CycleLen(d));
      TopPlaneFirst(d);
    } else {
      var earlier := frames[..i + 1];
      PingPongAlways(d, st, earlier);
      Arith.ModSucc(i - 1, CycleLen(d));
      InterruptKeeps(d, frames[i - 1], frames[i], frames[i + 1], Reached(d, st, earlier));
    }
  }

  // ---- light ----

  /** Ticks an LED is lit for between the interrupt that led to `st` and the next one. */
  function LedTicks(d: Drive, st: Pipe, p: Place, ch: nat): nat
    requires DriveOk(d) && PipeOk(d, st) && OnChain(d.c, p) && ch < 3
  {
    if DecodedRow(d.c.scan, st.pins, 5) == p.addr && Lamp(st.latched[p.pos], p.half, ch)
    then LitTicks(Played(d, st.bufs[st.shiftBuf]), PwmTop(d.c)) else 0
  }

  /** What shift s of a frame contributes to an LED. */
  function ShiftLight(d: Drive, f: Frame, p: Place, ch: nat, s: nat): nat
    requires DriveOk(d) && |f| == FrameLen(d) && OnChain(d.c, p) && ch < 3 && s < CycleLen(d)
  {
    if ShiftRow(d, s) == p.addr && Driven(d, p) && PlaceLamp(d, f, p, ShiftPlane(d, s), ch)
    then Ticks(d, ShiftPlane(d, s)) else 0
  }

  lemma LedTicksOfShift(d: Drive, st: Pipe, frames: seq<Frame>, p: Place, ch: nat)
    requires DriveOk(d) && |frames| >= 3 && FramesOk(d, frames)
    requires |st.reg| == ChainLen(d.c) && |st.latched| == ChainLen(d.c)
    requires OnChain(d.c, p) && ch < 3
    ensures var i := |frames| - 3;
            LedTicks(d, Reached(d, st, frames), p, ch) == ShiftLight(d, frames[i], p, ch, i % CycleLen(d))
  {
    hide DriveLen, FrameLen, ChainLen, CycleLen, Rendering, Played, LitTicks, PlaneTicks, Lamps, Lamp, PlaceLamp,
         DecodedRow, LitPlane, ShiftRow, ShiftPlane, Driven;
    var i, after := |frames| - 3, Reached(d, st, frames);
    PingPongAlways(d, st, frames);
    RenderingLight(d, frames[i + 1], after.shiftSeq);
    assert after.latched[p.pos] == Lamps(d, frames[i], i % CycleLen(d), p.pos);
    if ShiftRow(d, i % CycleLen(d)) == p.addr {
      LampsShow(d, frames[i], i % CycleLen(d), p, ch);
    }
  }

  lemma LampsShow(d: Drive, f: Frame, s: nat, p: Place, ch: nat)
    requires DriveOk(d) && |f| == FrameLen(d) && s < CycleLen(d) && OnChain(d.c, p) && ch < 3
    requires ShiftRow(d, s) == p.addr
    ensures Lamp(Lamps(d, f, s, p.pos), p.half, ch) <==> Driven(d, p) && PlaceLamp(d, f, p, ShiftPlane(d, s), ch)
  {
    hide DriveLen, FrameLen, ChainLen, CycleLen;
    assert !Lamp(0, p.half, ch);
  }

  lemma {:induction false} LowPinsDecodeZero(scan: nat, pins: set<nat>, n: nat)
    requires n <= 5 && pins !! AddrPins(scan, 5)
    ensures DecodedRow(scan, pins, n) == 0
  {
    if n > 0 {
      LowPinsDecodeZero(scan, pins, n - 1);
      AddrMaskMember(0, scan, 5);
    }
  }

  /** While the first shift goes out, with the address pins low, the first row address shows whatever the latches
      happen to hold, for as long as the top plane is lit - also past the driven panels. */
  lemma FirstShiftLight(d: Drive, f: Frame, g: Frame, pins: set<nat>, reg: seq<bv8>, latched: seq<bv8>,
                        p: Place, ch: nat)
    requires DriveOk(d) && FrameOk(d, f) && FrameOk(d, g)
    requires |reg| == ChainLen(d.c) && |latched| == ChainLen(d.c) && pins !! AddrPins(d.c.scan, 5)
    requires OnChain(d.c, p) && ch < 3
    ensures LedTicks(d, Started(d, f, g, pins, reg, latched), p, ch)
         == if p.addr == 0 && Lamp(latched[p.pos], p.half, ch) then DriveOn(d) else 0
  {
    hide DriveLen, FrameLen, ChainLen, CycleLen, Rendering, Played, LitTicks, PlaneTicks, DriveOn, LitPlane, DecodedRow;
    TopPlaneFirst(d);
    RenderingLight(d, f, 0);
    PlaneTicksDouble(DriveOn(d), d.c.depth, d.c.depth - 1);
    LowPinsDecodeZero(d.c.scan, pins, 5);
  }

  /** So nothing shows before the first frame does exactly if nothing is latched, or the brightness is no tick's. */
  lemma FirstShiftDark(d: Drive, f: Frame, g: Frame, pins: set<nat>, reg: seq<bv8>, latched: seq<bv8>)
    requires DriveOk(d) && FrameOk(d, f) && FrameOk(d, g)
    requires |reg| == ChainLen(d.c) && |latched| == ChainLen(d.c) && pins !! AddrPins(d.c.scan, 5)
    ensures (forall p, ch | OnChain(d.c, p) && 0 <= ch < 3 ::
               LedTicks(d, Started(d, f, g, pins, reg, latched), p, ch) == 0)
       <==> DriveOn(d) == 0 ||
            forall i, half, ch | 0 <= i < |latched| && 0 <= half < 2 && 0 <= ch < 3 :: !Lamp(latched[i], half, ch)
  {
    hide LedTicks, DriveOn, Lamp, ChainLen, FrameLen, AddrPins, Rendering;
    var st := Started(d, f, g, pins, reg, latched);
    forall p, ch | OnChain(d.c, p) && 0 <= ch < 3
      ensures LedTicks(d, st, p, ch) == if p.addr == 0 && Lamp(latched[p.pos], p.half, ch) then DriveOn(d) else 0
    {
      FirstShiftLight(d, f, g, pins, reg, latched, p, ch);
    }
    if i, half, ch :| 0 <= i < |latched| && 0 <= half < 2 && 0 <= ch < 3 && Lamp(latched[i], half, ch) {
      var p := Place(0, i, half);
      assert OnChain(d.c, p);
      assert LedTicks(d, st, p, ch) == DriveOn(d);
    }
  }

  /** Ticks an LED is lit for over the m intervals that follow interrupts from..from+m-1. */
  function LedTicksOver(d: Drive, st: Pipe, frames: seq<Frame>, from: nat, m: nat, p: Place, ch: nat): nat
    requires DriveOk(d) && |frames| >= from + m + 2 && FramesOk(d, frames)
    requires |st.reg| == ChainLen(d.c) && |st.latched| == ChainLen(d.c)
    requires OnChain(d.c, p) && ch < 3
  {
    if m == 0 then 0
    else
      LedTicksOver(d, st, frames, from, m - 1, p, ch) + LedTicks(d, Reached(d, st, frames[..from + m + 2]), p, ch)
  }

  /** What comes after a stretch of a run doesn't change it. */
  lemma {:induction false} OverPrefix(d: Drive, st: Pipe, frames: seq<Frame>, next: Frame, from: nat, m: nat,
                                      p: Place, ch: nat)
    requires DriveOk(d) && |frames| >= from + m + 2 && FramesOk(d, frames) && FrameOk(d, next)
    requires |st.reg| == ChainLen(d.c) && |st.latched| == ChainLen(d.c)
    requires OnChain(d.c, p) && ch < 3
    ensures FramesOk(d, frames + [next])
    ensures LedTicksOver(d, st, frames + [next], from, m, p, ch) == LedTicksOver(d, st, frames, from, m, p, ch)
  {
    hide Reached, LedTicks, FrameOk, DriveOk, ChainLen, OnChain;
    assert FramesOk(d, frames + [next]);
    if m == 0 {
    } else {
      OverPrefix(d, st, frames, next, from, m - 1, p, ch);
      assert (frames + [next])[..from + m + 2] == frames[..from + m + 2];
    }
  }

  // A weight per shift of the cycle, summed over windows of a run.

  function WindowSum(w: seq<nat>, from: nat, m: nat): nat
    requires |w| > 0
  {
    if m == 0 then 0 else WindowSum(w, from, m - 1) + w[(from + m - 1) % |w|]
  }

  lemma {:induction false} WindowSlides(w: seq<nat>, from: nat, m: nat)
    requires |w| > 0
    ensures WindowSum(w, from + 1, m) + w[from % |w|] == WindowSum(w, from, m) + w[(from + m) % |w|]
  {
    if m == 0 {
    } else {
      WindowSlides(w, from, m - 1);
      assert from + 1 + m - 1 == from + m;
    }
  }

  /** Any window of one whole cycle sums up to the cycle. */
  lemma {:induction false} WindowTotal(w: seq<nat>, from: nat)
    requires |w| > 0
    ensures WindowSum(w, from, |w|) == WindowSum(w, 0, |w|)
  {
    if from == 0 {
    } else {
      WindowTotal(w, from - 1);
      WindowSlides(w, from - 1, |w|);
      Arith.ModPeriod(from - 1, |w|);
    }
  }

  function PrefixSum(q: seq<nat>, m: nat): nat
    requires m <= |q|
  {
    if m == 0 then 0 else PrefixSum(q, m - 1) + q[m - 1]
  }

  /** Of a whole cycle, only the one row's shifts count, once per plane. */
  lemma {:induction false} CycleIsOneRow(w: seq<nat>, q: seq<nat>, addr: nat, m: nat)
    requires |w| > 0 && |q| > 0 && m <= |w|
    requires forall s | 0 <= s < |w| :: w[s] == if s / |q| == addr then q[s % |q|] else 0
    ensures WindowSum(w, 0, m)
         == if m / |q| < addr then 0 else if m / |q| == addr then PrefixSum(q, m % |q|) else PrefixSum(q, |q|)
  {
    var n := |q|;
    if m == 0 {
      Arith.DivModUnique(0, 0, n);
    } else {
      CycleIsOneRow(w, q, addr, m - 1);
      Arith.DivModUnique(0, m - 1, |w|);
      Arith.DivModSucc(m - 1, n);
      assert w[(0 + m - 1) % |w|] == w[m - 1];
    }
  }

  lemma {:induction false} OverIsWindow(d: Drive, st: Pipe, frames: seq<Frame>, f: Frame, from: nat, m: nat,
                                          p: Place, ch: nat, w: seq<nat>)
    requires DriveOk(d) && |frames| >= from + m + 2 && FramesOk(d, frames)
    requires |st.reg| == ChainLen(d.c) && |st.latched| == ChainLen(d.c)
    requires OnChain(d.c, p) && ch < 3 && FrameOk(d, f)
    requires forall i | from <= i < from + m :: frames[i] == f
    requires |w| == CycleLen(d) && forall s | 0 <= s < |w| :: w[s] == ShiftLight(d, f, p, ch, s)
    ensures LedTicksOver(d, st, frames, from, m, p, ch) == WindowSum(w, from, m)
  {
    hide DriveLen, FrameLen, FrameOk, ChainLen, Reached, LedTicks, ShiftLight;
    if m == 0 {
    } else {
      OverIsWindow(d, st, frames, f, from, m - 1, p, ch, w);
      LedTicksOfShift(d, st, frames[..from + m + 2], p, ch);
    }
  }

  function LampTicks(d: Drive, f: Frame, p: Place, ch: nat): seq<nat>
    requires DriveOk(d) && |f| == FrameLen(d) && OnChain(d.c, p) && ch < 3
  {
    seq(d.c.depth, k requires 0 <= k < d.c.depth =>
      if Driven(d, p) && PlaceLamp(d, f, p, k, ch) then Ticks(d, k) else 0)
  }

  /** Over one whole cycle of interrupts with the frame unchanged, whichever interrupt it starts at, an LED is lit
      for the ticks of exactly the planes its bits are set on - and an undriven one not at all. */
  lemma CycleLight(d: Drive, st: Pipe, frames: seq<Frame>, f: Frame, from: nat, p: Place, ch: nat)
    requires DriveOk(d) && |frames| >= from + CycleLen(d) + 2 && FramesOk(d, frames)
    requires |st.reg| == ChainLen(d.c) && |st.latched| == ChainLen(d.c)
    requires OnChain(d.c, p) && ch < 3 && FrameOk(d, f)
    requires forall i | from <= i < from + CycleLen(d) :: frames[i] == f
    ensures LedTicksOver(d, st, frames, from, CycleLen(d), p, ch) == PrefixSum(LampTicks(d, f, p, ch), d.c.depth)
  {
    var n := CycleLen(d);
    var w := seq(n, s requires 0 <= s < n => ShiftLight(d, f, p, ch, s));
    var q := LampTicks(d, f, p, ch);
    OverIsWindow(d, st, frames, f, from, n, p, ch, w);
    WindowTotal(w, from);
    CycleIsOneRow(w, q, p.addr, n);
    Arith.DivModUnique(d.c.scan, 0, d.c.depth);
  }

  lemma {:induction false} PrefixIsLight(d: Drive, q: seq<nat>, level: nat, m: nat)
    requires DriveOk(d) && |q| == d.c.depth && m <= d.c.depth
    requires forall k | 0 <= k < |q| :: q[k] == Bit(level, k) * Ticks(d, k)
    ensures PrefixSum(q, m) + LightFrom(DriveOn(d), d.c.depth, level, m) == Light(DriveOn(d), d.c.depth, level)
  {
    if m == 0 {
    } else {
      PrefixIsLight(d, q, level, m - 1);
    }
  }

  lemma {:induction false} PrefixZero(q: seq<nat>, m: nat)
    requires m <= |q| && forall k | 0 <= k < |q| :: q[k] == 0
    ensures PrefixSum(q, m) == 0
  {
    if m == 0 {
    } else {
      PrefixZero(q, m - 1);
    }
  }

  /** The planes a pixel's colour puts in the frame add up to its level's light. */
  lemma PixelLampTicks(d: Drive, f: Frame, x: nat, y: nat, v: Rgb, ch: nat)
    requires DriveOk(d) && FrameOk(d, f) && InDisplay(d.c, x, y) && Shows(d, f, x, y, v) && ch < 3
    ensures var p := Locate(d.c, x, y);
            PrefixSum(LampTicks(d, f, p, ch), d.c.depth)
            == if Driven(d, p) then Light(DriveOn(d), d.c.depth, Level(d.c.depth, Channel(v, ch))) else 0
  {
    hide DriveLen, FrameLen, Locate, PlaceIndex, Lamp, DriveOn, Level;
    var p := Locate(d.c, x, y);
    var q := LampTicks(d, f, p, ch);
    if Driven(d, p) {
      var level := Level(d.c.depth, Channel(v, ch));
      forall k | 0 <= k < |q|
        ensures q[k] == Bit(level, k) * Ticks(d, k)
      {
        assert PlaceLamp(d, f, p, k, ch) <==> Bit(level, k) == 1;
      }
      PrefixIsLight(d, q, level, d.c.depth);
    } else {
      PrefixZero(q, d.c.depth);
    }
  }

  /** End to end: a pixel drawn in colour v is lit, on each channel, for exactly the light of its level - the sum
      over the planes of its bit times the plane's ticks. On a panel that isn't driven it stays dark. */
  lemma PixelLight(d: Drive, st: Pipe, frames: seq<Frame>, f: Frame, from: nat, x: nat, y: nat, v: Rgb, ch: nat)
    requires DriveOk(d) && |frames| >= from + CycleLen(d) + 2 && FramesOk(d, frames)
    requires |st.reg| == ChainLen(d.c) && |st.latched| == ChainLen(d.c)
    requires ch < 3 && FrameOk(d, f) && forall i | from <= i < from + CycleLen(d) :: frames[i] == f
    requires InDisplay(d.c, x, y) && Shows(d, f, x, y, v)
    ensures LedTicksOver(d, st, frames, from, CycleLen(d), Locate(d.c, x, y), ch)
         == if PanelIndex(d.c, x, y) < d.panels
            then Light(DriveOn(d), d.c.depth, Level(d.c.depth, Channel(v, ch))) else 0
  {
    CycleLight(d, st, frames, f, from, Locate(d.c, x, y), ch);
    DrivenByPanel(d, x, y);
    PixelLampTicks(d, f, x, y, v, ch);
  }
}
