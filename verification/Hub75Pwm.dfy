/** The PWM step values, what they do on the pins, and the rendering of one shift. */
module Hub75Pwm {
  import opened Arith
  import opened Hub75Config
  import Hub75Light
  import opened Hub75Frame

  const PWM_BASE_KHZ: nat := 16000
  const PWM_LOW: nat := 0x8000
  const PWM_HIGH: nat := 0xFFFF
  const IDLE_STEPS: nat := 2

  /** Two 16-bit channel values, as one 32-bit step word holds them. */
  datatype Word = Word(lo: nat, hi: nat)

  /** One instance's step: four channel values in two words. */
  datatype Step = Step(w0: Word, w1: Word)

  /** Both instances' step in one PWM period: R1 G1 B1 CLK and R2 G2 B2 OE. */
  datatype Column = Column(a: Step, b: Step)

  /** PWM ticks per column: even, so that CLK can rise halfway. */
  function PwmTop(c: Config): (top: nat)
    requires Accepted(c)
    ensures 16 <= top <= 160 && top % 2 == 0
  {
    DivMono(16 * c.clockKhz, PWM_BASE_KHZ, c.clockKhz);
    DivModUnique(16, 0, c.clockKhz);
    var q := PWM_BASE_KHZ / c.clockKhz;
    DivModParts(PWM_BASE_KHZ, c.clockKhz);
    assert q <= 160 by {
      if q > 160 { MulMono(161, q, c.clockKhz); }
    }
    q - q % 2
  }

  /** The slowest even period whose clock isn't slower than configured - so many ticks of the PWMs' clock a column. */
  lemma PwmTopIsLargest(c: Config)
    requires Accepted(c)
    ensures PwmTop(c) * c.clockKhz <= PWM_BASE_KHZ < (PwmTop(c) + 2) * c.clockKhz
  {
    var q := PWM_BASE_KHZ / c.clockKhz;
    DivModParts(PWM_BASE_KHZ, c.clockKhz);
    MulMono(PwmTop(c), q, c.clockKhz);
    MulMono(q + 1, PwmTop(c) + 2, c.clockKhz);
    MulSucc(q, c.clockKhz);
  }

  // ---- what a channel value does over a period of `top` ticks ----

  /** The level at tick t of a period: a value's low 15 bits name the tick at which the level changes, its top bit is
      the level before that. */
  predicate HighAt(v: nat, t: nat) {
    if v >= 0x8000 then t < v - 0x8000 else t >= v
  }

  /** Ticks a channel is low for. */
  function LowTicks(v: nat, top: nat): nat {
    if v >= 0x8000 then top - Min(v - 0x8000, top) else Min(v, top)
  }

  /** Whether a channel rises inside the period: it starts low and is high at its end. */
  predicate Rises(v: nat, top: nat) {
    v < 0x8000 && 0 < v < top
  }

  /** A channel that rises is low at the period's first tick, high at its last, and rises at the tick it names; one that
      doesn't isn't both. */
  lemma RisesInside(v: nat, top: nat)
    requires 0 < top
    ensures Rises(v, top) <==> !HighAt(v, 0) && HighAt(v, top - 1)
    ensures Rises(v, top) ==> !HighAt(v, v - 1) && HighAt(v, v)
  {
  }

  /** The low ticks of a period, counted one by one. */
  function LowCount(v: nat, t: nat): nat {
    if t == 0 then 0 else LowCount(v, t - 1) + if HighAt(v, t - 1) then 0 else 1
  }

  lemma {:induction false} LowTicksCounts(v: nat, top: nat)
    ensures LowTicks(v, top) == LowCount(v, top)
  {
    if top == 0 {
    } else {
      LowTicksCounts(v, top - 1);
    }
  }

  // ---- step values ----

  function Lvl(bits: bv8, mask: bv8): nat {
    if bits & mask != 0 then PWM_HIGH else PWM_LOW
  }

  function LutA(top: nat, px: bv8): Step {
    Step(Word(Lvl(px & 7, 1), Lvl(px & 7, 2)), Word(Lvl(px & 7, 4), top / 2))
  }

  /** The second instance's step, its OE half left empty. */
  function LutB(px: bv8): Step {
    var u := (px >> 3) & 7;
    Step(Word(Lvl(u, 1), Lvl(u, 2)), Word(Lvl(u, 4), 0))
  }

  /** `l | oe` for a word whose high half is empty and one whose low half is. */
  function OrWords(l: Word, oe: Word): Word
    requires l.hi == 0 && oe.lo == 0
  {
    Word(l.lo, oe.hi)
  }

  function DataColumn(top: nat, px: bv8, oe: nat): Column {
    var b := LutB(px);
    Column(LutA(top, px), Step(b.w0, OrWords(b.w1, Word(0, oe))))
  }

  const IDLE: Column :=
    Column(Step(Word(PWM_LOW, PWM_LOW), Word(PWM_LOW, PWM_LOW)),
           Step(Word(PWM_LOW, PWM_LOW), Word(PWM_LOW, PWM_HIGH)))

  function Filler(top: nat): Column {
    Column(Step(Word(PWM_LOW, PWM_LOW), Word(PWM_LOW, top / 2)),
           Step(Word(PWM_LOW, PWM_LOW), Word(PWM_LOW, PWM_HIGH)))
  }

  // ---- what a column does to the panel ----

  predicate Clocks(col: Column, top: nat) {
    Rises(col.a.w1.hi, top)
  }

  /** The six data lines as the shift registers see them when CLK rises, laid out like a frame byte. */
  function Sampled(col: Column): bv8 {
    var t := col.a.w1.hi;
    (if HighAt(col.a.w0.lo, t) then 1 else 0) | (if HighAt(col.a.w0.hi, t) then 2 else 0) |
    (if HighAt(col.a.w1.lo, t) then 4 else 0) | (if HighAt(col.b.w0.lo, t) then 8 else 0) |
    (if HighAt(col.b.w0.hi, t) then 16 else 0) | (if HighAt(col.b.w1.lo, t) then 32 else 0)
  }

  /** The line that carries a half's channel: R1, G1, B1 of the first instance, R2, G2, B2 of the second. */
  function Line(col: Column, half: nat, ch: nat): nat
    requires half < 2 && ch < 3
  {
    var step := if half == 0 then col.a else col.b;
    if ch == 0 then step.w0.lo else if ch == 1 then step.w0.hi else step.w1.lo
  }

  /** What is sampled lights a half's channel exactly if its line is high when CLK rises. */
  lemma SampledLines(col: Column, half: nat, ch: nat)
    requires half < 2 && ch < 3
    ensures Hub75Light.Lamp(Sampled(col), half, ch) <==> HighAt(Line(col, half, ch), col.a.w1.hi)
  {
    var t := col.a.w1.hi;
    SixBits(HighAt(col.a.w0.lo, t), HighAt(col.a.w0.hi, t), HighAt(col.a.w1.lo, t),
            HighAt(col.b.w0.lo, t), HighAt(col.b.w0.hi, t), HighAt(col.b.w1.lo, t));
  }

  lemma SixBits(a: bool, b: bool, c: bool, d: bool, e: bool, f: bool)
    ensures var v: bv8 := (if a then 1 else 0) | (if b then 2 else 0) | (if c then 4 else 0) |
                          (if d then 8 else 0) | (if e then 16 else 0) | (if f then 32 else 0);
            && (v & 1 != 0 <==> a) && (v & 2 != 0 <==> b) && (v & 4 != 0 <==> c)
            && (v & 8 != 0 <==> d) && (v & 16 != 0 <==> e) && (v & 32 != 0 <==> f)
  {
  }

  /** Over the whole period a column's data lines stay as they are, and CLK rises in the middle of it. */
  ghost predicate Steady(col: Column, top: nat) {
    && 2 * col.a.w1.hi == top
    && forall half, ch, t | 0 <= half < 2 && 0 <= ch < 3 && 0 <= t < top ::
         HighAt(Line(col, half, ch), t) == HighAt(Line(col, half, ch), 0)
  }

  /** Filler is clocked into the chain like data, all lines low and the rows off. */
  lemma FillerMeaning(top: nat)
    requires 2 <= top <= 160
    ensures Clocks(Filler(top), top) && Sampled(Filler(top)) == 0 && OeTicks(Filler(top), top) == 0
    ensures top % 2 == 0 ==> Steady(Filler(top), top)
  {
  }

  /** Ticks the panel's rows are enabled for: OE is active low. */
  function OeTicks(col: Column, top: nat): nat {
    LowTicks(col.b.w1.hi, top)
  }

  lemma DataColumnMeaning(top: nat, px: bv8, oe: nat)
    requires 2 <= top <= 160 && px < 64
    ensures Clocks(DataColumn(top, px, oe), top)
    ensures Sampled(DataColumn(top, px, oe)) == px
    ensures OeTicks(DataColumn(top, px, oe), top) == LowTicks(oe, top)
    ensures top % 2 == 0 ==> Steady(DataColumn(top, px, oe), top)
  {
    var t, u := px & 7, (px >> 3) & 7;
    assert (t & 1 != 0) <==> (px & 1 != 0);
    assert (t & 2 != 0) <==> (px & 2 != 0);
    assert (t & 4 != 0) <==> (px & 4 != 0);
    assert (u & 1 != 0) <==> (px & 8 != 0);
    assert (u & 2 != 0) <==> (px & 16 != 0);
    assert (u & 4 != 0) <==> (px & 32 != 0);
    assert px == (px & 1) | (px & 2) | (px & 4) | (px & 8) | (px & 16) | (px & 32);
  }

  // ---- OE per plane ----

  function DriveOn(d: Drive): nat
    requires DriveOk(d)
  {
    Hub75Light.OnTicks(DriveLen(d), PwmTop(d.c), d.c.brightness)
  }

  function Ticks(d: Drive, k: nat): nat
    requires DriveOk(d)
  {
    Hub75Light.PlaneTicks(DriveOn(d), d.c.depth, k)
  }

  function OeFull(d: Drive, k: nat): nat
    requires DriveOk(d)
  {
    DivModParts(Ticks(d, k), PwmTop(d.c));
    Ticks(d, k) / PwmTop(d.c)
  }

  function OePartial(d: Drive, k: nat): nat
    requires DriveOk(d)
  {
    var rest := Ticks(d, k) % PwmTop(d.c);
    if rest != 0 then rest else PWM_HIGH
  }

  /** OE for the i-th data column of a shift that lights plane k. */
  function OeAt(d: Drive, k: nat, i: nat): nat
    requires DriveOk(d)
  {
    if i < OeFull(d, k) then PWM_LOW else if i == OeFull(d, k) then OePartial(d, k) else PWM_HIGH
  }

  // ---- one shift ----

  function CycleLen(d: Drive): (n: nat)
    requires DriveOk(d)
    ensures 2 <= n <= 256
  {
    MulMono(1, d.c.depth, d.c.scan);
    MulMono(d.c.depth, MAX_DEPTH, d.c.scan);
    d.c.scan * d.c.depth
  }

  function ShiftRow(d: Drive, s: nat): (row: nat)
    requires DriveOk(d) && s < CycleLen(d)
    ensures row < d.c.scan
  {
    DivBelow(s, d.c.scan, d.c.depth);
    s / d.c.depth
  }

  function ShiftPlane(d: Drive, s: nat): (k: nat)
    requires DriveOk(d)
    ensures k < d.c.depth
  {
    s % d.c.depth
  }

  /** The plane lit while shift s goes out: that of the shift before. */
  function LitPlane(d: Drive, s: nat): (k: nat)
    requires DriveOk(d)
    ensures k < d.c.depth
  {
    (ShiftPlane(d, s) + d.c.depth - 1) % d.c.depth
  }

  /** The bytes shift s of frame f takes: its row's, one plane of each entry. */
  function ShiftBytes(d: Drive, f: Frame, s: nat): (px: seq<bv8>)
    requires DriveOk(d) && |f| == FrameLen(d) && s < CycleLen(d)
    ensures |px| == DriveLen(d)
  {
    seq(DriveLen(d), i requires 0 <= i < DriveLen(d) => f[FrameIndex(d, ShiftRow(d, s), i, ShiftPlane(d, s))])
  }

  lemma ShiftByteAt(d: Drive, f: Frame, s: nat, i: nat)
    requires DriveOk(d) && FrameOk(d, f) && s < CycleLen(d) && i < DriveLen(d)
    ensures var at := s / d.c.depth * DriveLen(d) * d.c.depth + s % d.c.depth + i * d.c.depth;
            0 <= at < |f| && f[at] == ShiftBytes(d, f, s)[i] && f[at] < 64
  {
    hide FrameLen, DriveLen, CycleLen;
    var j := FrameIndex(d, ShiftRow(d, s), i, ShiftPlane(d, s));
    assert f[j] < 64;
    Strided(ShiftRow(d, s), DriveLen(d), i, d.c.depth, ShiftPlane(d, s));
  }

  lemma Strided(row: nat, n: nat, i: nat, depth: nat, plane: nat)
    ensures row * n * depth + plane + i * depth == (row * n + i) * depth + plane
  {
  }

  /** Shift s of frame f: its data columns under the OE of the plane before, then the idle ones. */
  function Rendering(d: Drive, f: Frame, s: nat): (cols: seq<Column>)
    requires DriveOk(d) && |f| == FrameLen(d) && s < CycleLen(d)
    ensures |cols| == DriveLen(d) + IDLE_STEPS
  {
    seq(DriveLen(d), i requires 0 <= i < DriveLen(d) =>
      DataColumn(PwmTop(d.c), ShiftBytes(d, f, s)[i], OeAt(d, LitPlane(d, s), i)))
    + [IDLE, IDLE]
  }

  /** All columns of one shift: a filler column per undriven position, then the rendering. */
  function Played(d: Drive, cols: seq<Column>): seq<Column>
    requires DriveOk(d)
  {
    seq(ChainLen(d.c) - DriveLen(d), _ => Filler(PwmTop(d.c))) + cols
  }

  lemma ModWithinCycle(s: nat, scan: nat, dep: nat)
    requires s < scan * dep && 0 < dep
    ensures (s + 1) % (scan * dep) % dep == (s + 1) % dep
  {
    if s + 1 == scan * dep {
      DivModUnique(1, 0, s + 1);
      DivModUnique(scan, 0, dep);
      DivModUnique(0, 0, dep);
    } else {
      DivModUnique(0, s + 1, scan * dep);
    }
  }

  lemma PreviousPlane(s: nat, dep: nat)
    requires 0 < dep
    ensures ((s + 1) % dep + dep - 1) % dep == s % dep
  {
    DivModParts(s, dep);
    var q, k := s / dep, s % dep;
    MulSucc(q, dep);
    if k + 1 == dep {
      DivModUnique(q + 1, 0, dep);
      DivModUnique(0, dep - 1, dep);
    } else {
      DivModUnique(q, k + 1, dep);
      DivModUnique(1, k, dep);
    }
  }

  /** The planes follow each other, also across a row's end and the cycle's. */
  lemma LitPlaneIsPrevious(d: Drive, s: nat)
    requires DriveOk(d) && s < CycleLen(d)
    ensures LitPlane(d, (s + 1) % CycleLen(d)) == ShiftPlane(d, s)
  {
    ModWithinCycle(s, d.c.scan, d.c.depth);
    PreviousPlane(s, d.c.depth);
  }

  // ---- light of one shift ----

  lemma RenderingColumn(d: Drive, f: Frame, s: nat, i: nat)
    requires DriveOk(d) && FrameOk(d, f) && s < CycleLen(d) && i < DriveLen(d)
    ensures Clocks(Rendering(d, f, s)[i], PwmTop(d.c))
    ensures Sampled(Rendering(d, f, s)[i]) == f[FrameIndex(d, ShiftRow(d, s), i, ShiftPlane(d, s))]
    ensures OeTicks(Rendering(d, f, s)[i], PwmTop(d.c)) == LowTicks(OeAt(d, LitPlane(d, s), i), PwmTop(d.c))
  {
    var j := FrameIndex(d, ShiftRow(d, s), i, ShiftPlane(d, s));
    DataColumnMeaning(PwmTop(d.c), f[j], OeAt(d, LitPlane(d, s), i));
  }

  /** Ticks the rows are enabled for while a sequence of columns plays. */
  function LitTicks(cols: seq<Column>, top: nat): nat {
    if cols == [] then 0 else OeTicks(cols[0], top) + LitTicks(cols[1..], top)
  }

  lemma {:induction false} LitTicksConcat(a: seq<Column>, b: seq<Column>, top: nat)
    ensures LitTicks(a + b, top) == LitTicks(a, top) + LitTicks(b, top)
  {
    if a == [] {
      assert a + b == b;
    } else {
      assert (a + b)[1..] == a[1..] + b;
      LitTicksConcat(a[1..], b, top);
    }
  }

  lemma {:induction false} LitTicksDark(cols: seq<Column>, top: nat)
    requires forall i | 0 <= i < |cols| :: OeTicks(cols[i], top) == 0
    ensures LitTicks(cols, top) == 0
  {
    if cols == [] {
    } else {
      LitTicksDark(cols[1..], top);
    }
  }

  lemma OeColumn(d: Drive, k: nat, i: nat)
    requires DriveOk(d)
    ensures LowTicks(OeAt(d, k, i), PwmTop(d.c))
         == if i < OeFull(d, k) then PwmTop(d.c)
            else if i == OeFull(d, k) then Ticks(d, k) - OeFull(d, k) * PwmTop(d.c) else 0
  {
    DivModParts(Ticks(d, k), PwmTop(d.c));
  }

  /** An OE pattern of `full` whole columns and one with a remainder adds up. */
  lemma {:induction false} LitTicksPattern(cols: seq<Column>, top: nat, full: nat, rest: nat, m: nat)
    requires m <= |cols|
    requires forall i | 0 <= i < |cols| ::
               OeTicks(cols[i], top) == if i < full then top else if i == full then rest else 0
    ensures LitTicks(cols[..m], top) == if m <= full then m * top else full * top + rest
  {
    hide OeTicks;
    if m == 0 {
    } else {
      LitTicksPattern(cols, top, full, rest, m - 1);
      assert cols[..m] == cols[..m - 1] + [cols[m - 1]];
      LitTicksConcat(cols[..m - 1], [cols[m - 1]], top);
      LitTicksOne(cols[m - 1], top);
      MulSucc(m - 1, top);
    }
  }

  lemma LitTicksOne(col: Column, top: nat)
    ensures LitTicks([col], top) == OeTicks(col, top)
  {
  }

  /** Shift s lights what was latched before it for exactly its plane's ticks. */
  lemma RenderingLight(d: Drive, f: Frame, s: nat)
    requires DriveOk(d) && FrameOk(d, f) && s < CycleLen(d)
    ensures LitTicks(Played(d, Rendering(d, f, s)), PwmTop(d.c)) == Ticks(d, LitPlane(d, s))
  {
    var top, n, k := PwmTop(d.c), DriveLen(d), LitPlane(d, s);
    var cols := Rendering(d, f, s);
    var data := cols[..n];
    var fill := seq(ChainLen(d.c) - n, _ => Filler(top));
    forall i | 0 <= i < n
      ensures OeTicks(data[i], top) == if i < OeFull(d, k) then top
                                       else if i == OeFull(d, k) then Ticks(d, k) - OeFull(d, k) * top else 0
    {
      RenderingColumn(d, f, s, i);
      OeColumn(d, k, i);
    }
    DivModParts(Ticks(d, k), top);
    LitTicksPattern(data, top, OeFull(d, k), Ticks(d, k) - OeFull(d, k) * top, n);
    assert data[..n] == data;
    LitTicksDark(fill, top);
    LitTicksDark([IDLE, IDLE], top);
    LitTicksConcat(fill, cols, top);
    assert cols == data + [IDLE, IDLE];
    LitTicksConcat(data, [IDLE, IDLE], top);
    // The whole row's ticks cap the plane's, so the pattern never runs out of columns.
    Hub75Light.OnTicksBound(n, top, d.c.brightness);
    Hub75Light.PlaneTicksBound(DriveOn(d), d.c.depth, k);
    DivModParts(Ticks(d, k), top);
    if n <= OeFull(d, k) {
      MulMono(n, OeFull(d, k), top);
    }
  }

  // ---- the shift registers ----

  /** A chain after one column: on a rising CLK every value moves one position on. */
  function Clocked(reg: seq<bv8>, col: Column, top: nat): (r: seq<bv8>)
    ensures |r| == |reg|
  {
    if Clocks(col, top) && |reg| > 0 then [Sampled(col)] + reg[..|reg| - 1] else reg
  }

  function Shifted(reg: seq<bv8>, cols: seq<Column>, top: nat): (r: seq<bv8>)
    ensures |r| == |reg|
    decreases |cols|
  {
    if cols == [] then reg else Clocked(Shifted(reg, cols[..|cols| - 1], top), cols[|cols| - 1], top)
  }

  lemma ShiftedNone(reg: seq<bv8>, cols: seq<Column>, top: nat)
    ensures Shifted(reg, cols[..0], top) == reg
  {
  }

  /** After m clocked columns, position p holds what was shifted p columns before the last. */
  lemma {:induction false} ShiftedAll(reg: seq<bv8>, cols: seq<Column>, top: nat)
    requires |cols| <= |reg| && forall i | 0 <= i < |cols| :: Clocks(cols[i], top)
    ensures forall p | 0 <= p < |reg| ::
              Shifted(reg, cols, top)[p] == if p < |cols| then Sampled(cols[|cols| - 1 - p]) else reg[p - |cols|]
  {
    if cols == [] {
    } else {
      ShiftedAll(reg, cols[..|cols| - 1], top);
    }
  }

  lemma {:induction false} ShiftedConcat(reg: seq<bv8>, a: seq<Column>, b: seq<Column>, top: nat)
    ensures Shifted(reg, a + b, top) == Shifted(Shifted(reg, a, top), b, top)
    decreases |b|
  {
    if b == [] {
      assert a + b == a;
    } else {
      assert (a + b)[..|a + b| - 1] == a + b[..|b| - 1];
      ShiftedConcat(reg, a, b[..|b| - 1], top);
    }
  }

  // ---- the sequences the PWMs are given ----

  // Values per step: one for each channel.
  const CHANNELS: nat := 4

  /** What a sequence plays: the one filler step, or a buffer's steps. */
  datatype Source = FillerStep | Steps(buf: nat)

  /** A sequence: its source, its length in 16-bit values, and for how many more periods every step is held. */
  datatype Sequence = Sequence(source: Source, length: nat, repeats: int)

  /** An instance: with `loop` 0 it plays its first sequence and stops, with 1 the first and then the second. */
  datatype Pwm = Pwm(seq0: Sequence, seq1: Sequence, loop: nat)

  /** The sequence that carries the data - the first, or the second after the filler - taken from another source. */
  function Pointed(p: Pwm, dataSeq: nat, source: Source): Pwm {
    if dataSeq == 0 then p.(seq0 := p.seq0.(source := source)) else p.(seq1 := p.seq1.(source := source))
  }

  function DataSeq(d: Drive): nat
    requires DriveOk(d)
  {
    if d.panels < TotalPanels(d.c) then 1 else 0
  }

  /** An instance set up to shift one row out of a buffer. */
  predicate PwmSet(d: Drive, p: Pwm, buf: nat)
    requires DriveOk(d)
  {
    var data := Sequence(Steps(buf), (DriveLen(d) + IDLE_STEPS) * CHANNELS, 0);
    && p.loop == DataSeq(d)
    && if p.loop == 0 then p.seq0 == data
       else p.seq0 == Sequence(FillerStep, CHANNELS, ChainLen(d.c) - DriveLen(d) - 1) && p.seq1 == data
  }

  lemma PointedSet(d: Drive, p: Pwm, was: nat, buf: nat)
    requires DriveOk(d) && PwmSet(d, p, was)
    ensures PwmSet(d, Pointed(p, DataSeq(d), Steps(buf)), buf)
  {
  }

  function Repeated(col: Column, times: nat): (cols: seq<Column>)
    ensures |cols| == times && forall i | 0 <= i < times :: cols[i] == col
  {
    seq(times, _ => col)
  }

  /** Columns as they are played: each for as many periods. */
  function Held(cols: seq<Column>, times: nat): (played: seq<Column>)
    decreases |cols|
  {
    if cols == [] then [] else Held(cols[..|cols| - 1], times) + Repeated(cols[|cols| - 1], times)
  }

  lemma {:induction false} HeldOnce(cols: seq<Column>)
    ensures Held(cols, 1) == cols
    decreases |cols|
  {
    if cols == [] {
    } else {
      var n := |cols| - 1;
      HeldOnce(cols[..n]);
      hide Repeated;
      assert Repeated(cols[n], 1) == [cols[n]];
      assert cols[..n] + [cols[n]] == cols;
    }
  }

  lemma HeldNone(cols: seq<Column>, times: nat)
    requires cols == []
    ensures Held(cols, times) == cols
  {
  }

  lemma HeldNext(cols: seq<Column>, i: nat, times: nat)
    requires i < |cols|
    ensures Held(cols[..i + 1], times) == Held(cols[..i], times) + Repeated(cols[i], times)
  {
    assert cols[..i + 1][..i] == cols[..i];
  }

  lemma ShiftedOnce(reg: seq<bv8>, cols: seq<Column>, col: Column, k: nat, top: nat)
    ensures Shifted(reg, cols + Repeated(col, 0), top) == Shifted(reg, cols, top)
    ensures Shifted(reg, cols + Repeated(col, k + 1), top) ==
              Clocked(Shifted(reg, cols + Repeated(col, k), top), col, top)
  {
    var a, b := cols + Repeated(col, k), cols + Repeated(col, k + 1);
    assert cols + Repeated(col, 0) == cols;
    assert b[..|b| - 1] == a && b[|b| - 1] == col;
  }

  lemma HeldOne(col: Column, times: nat)
    ensures Held([col], times) == Repeated(col, times)
  {
    assert [col][..0] == [];
  }

  /** A chain is longer than what is driven of it exactly if some panel isn't driven. */
  lemma UndrivenPositions(d: Drive)
    requires DriveOk(d)
    ensures DriveLen(d) <= ChainLen(d.c) && (DriveLen(d) < ChainLen(d.c) <==> d.panels < TotalPanels(d.c))
  {
    var cells := PanelCells(d.c);
    MulMono(d.panels, TotalPanels(d.c), cells);
    if d.panels < TotalPanels(d.c) {
      MulMono(d.panels + 1, TotalPanels(d.c), cells);
      MulSucc(d.panels, cells);
    }
  }

  /** The sequences the instances are set up with play exactly a shift: the filler for each undriven position, the
      data once. */
  lemma SetPlaysShift(d: Drive, p: Pwm, buf: nat, filler: Column, cols: seq<Column>)
    requires DriveOk(d) && PwmSet(d, p, buf)
    requires filler == Filler(PwmTop(d.c)) && |cols| == DriveLen(d) + IDLE_STEPS
    ensures p.loop == 0 ==> p.seq0.length / CHANNELS == |cols| && p.seq0.repeats == 0
                            && Held(cols, 1) == Played(d, cols)
    ensures p.loop != 0 ==>
              && p.seq0.length / CHANNELS == 1 && p.seq0.repeats >= 0
              && p.seq1.length / CHANNELS == |cols| && p.seq1.repeats == 0
              && Held([filler], p.seq0.repeats + 1) + Held(cols, 1) == Played(d, cols)
  {
    UndrivenPositions(d);
    hide DriveLen, ChainLen, TotalPanels, PwmTop, Held, Filler;
    HeldOnce(cols);
    if p.loop != 0 {
      HeldOne(filler, p.seq0.repeats + 1);
    }
  }

  /** What a chain position shows of a frame's shift s. */
  function Lamps(d: Drive, f: Frame, s: nat, pos: nat): bv8
    requires DriveOk(d) && |f| == FrameLen(d) && s < CycleLen(d)
  {
    if pos < DriveLen(d) then f[FrameIndex(d, ShiftRow(d, s), DriveLen(d) - 1 - pos, ShiftPlane(d, s))] else 0
  }

  /** Filler, data and idle columns through a chain: data on the first positions, last one first, blank after. */
  lemma PlayedFillsChain(fill: seq<Column>, data: seq<Column>, reg: seq<bv8>, top: nat)
    requires |reg| == |fill| + |data|
    requires forall i | 0 <= i < |fill| :: Clocks(fill[i], top) && Sampled(fill[i]) == 0
    requires forall i | 0 <= i < |data| :: Clocks(data[i], top)
    ensures forall p | 0 <= p < |reg| ::
              Shifted(reg, fill + (data + [IDLE, IDLE]), top)[p] ==
                if p < |data| then Sampled(data[|data| - 1 - p]) else 0
  {
    var clocked := fill + data;
    assert fill + (data + [IDLE, IDLE]) == clocked + [IDLE, IDLE];
    ShiftedAll(reg, clocked, top);
    ShiftedConcat(reg, clocked, [IDLE, IDLE], top);
    IdleKeeps(Shifted(reg, clocked, top), top);
  }

  /** What the chain holds once shift s is through: the row's plane on the driven positions, last value first,
      and nothing lit on the rest. */
  lemma ShiftFillsChain(d: Drive, f: Frame, s: nat, reg: seq<bv8>)
    requires DriveOk(d) && FrameOk(d, f) && s < CycleLen(d) && |reg| == ChainLen(d.c)
    ensures var after := Shifted(reg, Played(d, Rendering(d, f, s)), PwmTop(d.c));
            forall p | 0 <= p < |reg| :: after[p] == Lamps(d, f, s, p)
  {
    hide Shifted, FrameIndex, ShiftRow, ShiftPlane, Clocks, Sampled;
    var top, n := PwmTop(d.c), DriveLen(d);
    var cols := Rendering(d, f, s);
    var fill := seq(ChainLen(d.c) - n, _ => Filler(top));
    var data := cols[..n];
    assert cols == data + [IDLE, IDLE];
    FillerMeaning(top);
    forall i | 0 <= i < n
      ensures Clocks(data[i], top)
      ensures Sampled(data[i]) == f[FrameIndex(d, ShiftRow(d, s), i, ShiftPlane(d, s))]
    {
      RenderingColumn(d, f, s, i);
    }
    PlayedFillsChain(fill, data, reg, top);
  }

  lemma IdleKeeps(reg: seq<bv8>, top: nat)
    ensures Shifted(reg, [IDLE, IDLE], top) == reg
  {
    assert [IDLE, IDLE][..1] == [IDLE];
    assert [IDLE][..0] == [];
    assert Shifted(reg, [IDLE], top) == reg;
  }
}
