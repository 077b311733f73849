/** The frame buffer: what each chain position shifts, per row address and bit plane. */
module Hub75Frame {
  import opened Arith
  import opened Hub75Config
  import opened Hub75Geometry
  import opened Hub75Light

  /** A running configuration and how many of its panels, from the input on, are driven. */
  datatype Drive = Drive(c: Config, panels: nat)

  predicate DriveOk(d: Drive) {
    Accepted(d.c) && 1 <= d.panels <= TotalPanels(d.c)
  }

  /** Columns per shift that carry data: the driven panels' chain positions. */
  function DriveLen(d: Drive): (n: nat)
    requires DriveOk(d)
    ensures 0 < n <= ChainLen(d.c)
  {
    MulMono(1, d.panels, PanelCells(d.c));
    MulMono(d.panels, TotalPanels(d.c), PanelCells(d.c));
    d.panels * PanelCells(d.c)
  }

  function FrameLen(d: Drive): nat
    requires DriveOk(d)
  {
    ProductNat(d.c.scan, DriveLen(d), d.c.depth);
    d.c.scan * DriveLen(d) * d.c.depth
  }

  type Frame = seq<bv8>

  predicate FrameOk(d: Drive, f: Frame)
    requires DriveOk(d)
  {
    |f| == FrameLen(d) && forall i | 0 <= i < |f| :: f[i] < 64
  }

  /** Where plane k of the i-th value shifted for a row address lies. */
  function FrameIndex(d: Drive, addr: nat, i: nat, k: nat): (j: nat)
    requires DriveOk(d) && addr < d.c.scan && i < DriveLen(d) && k < d.c.depth
    ensures j < FrameLen(d)
  {
    PairBound(addr, i, d.c.scan, DriveLen(d));
    PairBound(addr * DriveLen(d) + i, k, d.c.scan * DriveLen(d), d.c.depth);
    (addr * DriveLen(d) + i) * d.c.depth + k
  }

  lemma FrameIndexInjective(d: Drive, addr: nat, i: nat, k: nat, addr': nat, i': nat, k': nat)
    requires DriveOk(d) && addr < d.c.scan && i < DriveLen(d) && k < d.c.depth
    requires addr' < d.c.scan && i' < DriveLen(d) && k' < d.c.depth
    requires FrameIndex(d, addr, i, k) == FrameIndex(d, addr', i', k')
    ensures addr == addr' && i == i' && k == k'
  {
    hide DriveLen, FrameLen;
    var n := DriveLen(d);
    DivModUnique(addr * n + i, k, d.c.depth);
    DivModUnique(addr' * n + i', k', d.c.depth);
    DivModUnique(addr, i, n);
    DivModUnique(addr', i', n);
  }

  predicate Driven(d: Drive, p: Place)
    requires DriveOk(d)
  {
    p.pos < DriveLen(d)
  }

  /** The byte that drives a place on plane k: the chain position nearest the input is shifted last. */
  function PlaceIndex(d: Drive, p: Place, k: nat): (j: nat)
    requires DriveOk(d) && OnChain(d.c, p) && Driven(d, p) && k < d.c.depth
    ensures j < FrameLen(d)
  {
    FrameIndex(d, p.addr, DriveLen(d) - 1 - p.pos, k)
  }

  lemma PlaceIndexIs(d: Drive, p: Place, k: nat)
    requires DriveOk(d) && OnChain(d.c, p) && Driven(d, p) && k < d.c.depth
    ensures (p.addr * DriveLen(d) + DriveLen(d) - 1 - p.pos) * d.c.depth + k == PlaceIndex(d, p, k)
  {
  }

  lemma EntryInFrame(d: Drive, p: Place)
    requires DriveOk(d) && OnChain(d.c, p) && Driven(d, p)
    ensures 0 <= (p.addr * DriveLen(d) + DriveLen(d) - 1 - p.pos) * d.c.depth
  {
    MulMono(0, p.addr, DriveLen(d));
    MulMono(0, p.addr * DriveLen(d) + DriveLen(d) - 1 - p.pos, d.c.depth);
  }

  /** The frame after a pixel at place p is given `planes`: untouched when the place isn't driven. */
  function Stored(d: Drive, f: Frame, p: Place, planes: seq<bv8>, k: nat): (g: Frame)
    requires DriveOk(d) && OnChain(d.c, p) && |f| == FrameLen(d) && |planes| == d.c.depth && k <= d.c.depth
    ensures |g| == |f|
  {
    if !Driven(d, p) || k == 0 then f
    else
      var before := Stored(d, f, p, planes, k - 1);
      var j := PlaceIndex(d, p, k - 1);
      before[j := StoreField(before[j], FieldShift(p.half), planes[k - 1])]
  }

  function Store(d: Drive, f: Frame, p: Place, planes: seq<bv8>): Frame
    requires DriveOk(d) && OnChain(d.c, p) && |f| == FrameLen(d) && |planes| == d.c.depth
  {
    Stored(d, f, p, planes, d.c.depth)
  }

  /** Whether a frame drives a place's channel on plane k. */
  predicate PlaceLamp(d: Drive, f: Frame, p: Place, k: nat, ch: nat)
    requires DriveOk(d) && |f| == FrameLen(d) && OnChain(d.c, p) && Driven(d, p) && k < d.c.depth && ch < 3
  {
    Lamp(f[PlaceIndex(d, p, k)], p.half, ch)
  }

  lemma {:induction false} StoredByte(d: Drive, f: Frame, p: Place, planes: seq<bv8>, m: nat, j: nat)
    requires DriveOk(d) && OnChain(d.c, p) && |f| == FrameLen(d) && |planes| == d.c.depth && m <= d.c.depth
    requires j < |f|
    ensures forall k | 0 <= k < m && Driven(d, p) && PlaceIndex(d, p, k) == j ::
              Stored(d, f, p, planes, m)[j] == StoreField(f[j], FieldShift(p.half), planes[k])
    ensures (forall k | 0 <= k < m && Driven(d, p) :: PlaceIndex(d, p, k) != j) ==>
              Stored(d, f, p, planes, m)[j] == f[j]
  {
    if m == 0 || !Driven(d, p) {
    } else {
      StoredByte(d, f, p, planes, m - 1, j);
      forall k | 0 <= k < m - 1
        ensures PlaceIndex(d, p, k) != PlaceIndex(d, p, m - 1)
      {
        assert PlaceIndex(d, p, k) < PlaceIndex(d, p, m - 1);
      }
    }
  }

  /** Storing a pixel sets exactly its own channels: every other place keeps its own. */
  lemma StoreLamp(d: Drive, f: Frame, p: Place, planes: seq<bv8>, q: Place, k: nat, ch: nat)
    requires DriveOk(d) && OnChain(d.c, p) && |f| == FrameLen(d) && |planes| == d.c.depth
    requires OnChain(d.c, q) && Driven(d, q) && k < d.c.depth && ch < 3
    ensures PlaceLamp(d, Store(d, f, p, planes), q, k, ch)
       <==> if p == q then Lamp(planes[k], 0, ch) else PlaceLamp(d, f, q, k, ch)
  {
    var j := PlaceIndex(d, q, k);
    StoredByte(d, f, p, planes, d.c.depth, j);
    if exists k' | 0 <= k' < d.c.depth && Driven(d, p) :: PlaceIndex(d, p, k') == j {
      var k' :| 0 <= k' < d.c.depth && Driven(d, p) && PlaceIndex(d, p, k') == j;
      var n := DriveLen(d);
      FrameIndexInjective(d, p.addr, n - 1 - p.pos, k', q.addr, n - 1 - q.pos, k);
      StoreFieldLamps(f[j], p.half, planes[k], q.half, ch);
    }
  }

  lemma StoreOk(d: Drive, f: Frame, p: Place, planes: seq<bv8>)
    requires DriveOk(d) && OnChain(d.c, p) && FrameOk(d, f) && |planes| == d.c.depth
    ensures FrameOk(d, Store(d, f, p, planes))
  {
    var g := Store(d, f, p, planes);
    forall j | 0 <= j < |g|
      ensures g[j] < 64
    {
      StoredByte(d, f, p, planes, d.c.depth, j);
      if exists k | 0 <= k < d.c.depth && Driven(d, p) :: PlaceIndex(d, p, k) == j {
        var k :| 0 <= k < d.c.depth && Driven(d, p) && PlaceIndex(d, p, k) == j;
        StoreFieldLamps(f[j], p.half, planes[k], p.half, 0);
      }
    }
  }

  /** A driven pixel's channels in the frame are its colour's bits, plane by plane. */
  ghost predicate Shows(d: Drive, f: Frame, x: nat, y: nat, v: Rgb)
    requires DriveOk(d) && |f| == FrameLen(d) && InDisplay(d.c, x, y)
  {
    var p := Locate(d.c, x, y);
    Driven(d, p) ==>
      forall k, ch | 0 <= k < d.c.depth && 0 <= ch < 3 ::
        PlaceLamp(d, f, p, k, ch) <==> Bit(Level(d.c.depth, Channel(v, ch)), k) == 1
  }

  /** Drawing a pixel shows it, and changes no other one. */
  lemma DrawShows(d: Drive, f: Frame, x: nat, y: nat, v: Rgb, x': nat, y': nat, v': Rgb)
    requires DriveOk(d) && |f| == FrameLen(d) && InDisplay(d.c, x, y) && InDisplay(d.c, x', y')
    requires (x', y') == (x, y) ==> v' == v
    requires (x', y') != (x, y) ==> Shows(d, f, x', y', v')
    ensures Shows(d, Store(d, f, Locate(d.c, x, y), Planes(d.c.depth, v)), x', y', v')
  {
    var p, q, planes := Locate(d.c, x, y), Locate(d.c, x', y'), Planes(d.c.depth, v);
    if Driven(d, q) {
      if p == q {
        LocateInjective(d.c, x, y, x', y');
      }
      forall k, ch | 0 <= k < d.c.depth && 0 <= ch < 3
        ensures PlaceLamp(d, Store(d, f, p, planes), q, k, ch) <==> Bit(Level(d.c.depth, Channel(v', ch)), k) == 1
      {
        StoreLamp(d, f, p, planes, q, k, ch);
        PlaneByteLamps(d.c.depth, v, k, ch);
      }
    }
  }

  /** The pixels of the rows above y, and those of row y before column x, show a picture. */
  ghost predicate Drawn(d: Drive, f: Frame, picture: (nat, nat) -> Rgb, x: nat, y: nat)
    requires DriveOk(d)
  {
    FrameOk(d, f) &&
    forall x': nat, y': nat | InDisplay(d.c, x', y') && (y' < y || (y' == y && x' < x)) ::
      Shows(d, f, x', y', picture(x', y'))
  }

  lemma DrawnNext(d: Drive, f: Frame, picture: (nat, nat) -> Rgb, x: nat, y: nat)
    requires DriveOk(d) && InDisplay(d.c, x, y) && Drawn(d, f, picture, x, y)
    ensures Drawn(d, Store(d, f, Locate(d.c, x, y), Planes(d.c.depth, picture(x, y))), picture, x + 1, y)
  {
    hide Shows, Locate, Store, DriveLen, FrameLen;
    var g := Store(d, f, Locate(d.c, x, y), Planes(d.c.depth, picture(x, y)));
    StoreOk(d, f, Locate(d.c, x, y), Planes(d.c.depth, picture(x, y)));
    forall x': nat, y': nat | InDisplay(d.c, x', y') && (y' < y || (y' == y && x' < x + 1))
      ensures Shows(d, g, x', y', picture(x', y'))
    {
      DrawShows(d, f, x, y, picture(x, y), x', y', picture(x', y'));
    }
  }

  /** Every pixel from column x of row y on shows what it showed in an earlier frame. */
  ghost predicate Kept(d: Drive, was: Frame, f: Frame, x: nat, y: nat)
    requires DriveOk(d) && |was| == FrameLen(d) && |f| == FrameLen(d)
  {
    forall x': nat, y': nat, v: Rgb | InDisplay(d.c, x', y') && (y' > y || (y' == y && x' >= x)) ::
      Shows(d, was, x', y', v) ==> Shows(d, f, x', y', v)
  }

  lemma KeptAll(d: Drive, f: Frame)
    requires DriveOk(d) && |f| == FrameLen(d)
    ensures Kept(d, f, f, 0, 0)
  {
  }

  lemma KeptNext(d: Drive, was: Frame, f: Frame, x: nat, y: nat, v: Rgb)
    requires DriveOk(d) && |was| == FrameLen(d) && |f| == FrameLen(d) && InDisplay(d.c, x, y) && Kept(d, was, f, x, y)
    ensures Kept(d, was, Store(d, f, Locate(d.c, x, y), Planes(d.c.depth, v)), x + 1, y)
  {
    var g := Store(d, f, Locate(d.c, x, y), Planes(d.c.depth, v));
    assert |g| == |f|;
    hide Shows, Locate, Store, DriveLen, FrameLen;
    forall x': nat, y': nat, v': Rgb |
        InDisplay(d.c, x', y') && (y' > y || (y' == y && x' >= x + 1)) && Shows(d, was, x', y', v')
      ensures Shows(d, g, x', y', v')
    {
      DrawShows(d, f, x, y, v, x', y', v');
    }
  }

  lemma KeptRow(d: Drive, was: Frame, f: Frame, y: nat)
    requires DriveOk(d) && |was| == FrameLen(d) && |f| == FrameLen(d) && Kept(d, was, f, d.c.width, y)
    ensures Kept(d, was, f, 0, y + 1)
  {
  }

  lemma DrawnNone(d: Drive, f: Frame, picture: (nat, nat) -> Rgb)
    requires DriveOk(d) && FrameOk(d, f)
    ensures Drawn(d, f, picture, 0, 0)
  {
  }

  lemma DrawnRow(d: Drive, f: Frame, picture: (nat, nat) -> Rgb, y: nat)
    requires DriveOk(d) && Drawn(d, f, picture, d.c.width, y)
    ensures Drawn(d, f, picture, 0, y + 1)
  {
  }

  // ---- partial drive ----

  /** The index along the chain of the panel pixel (x, y) is on: through the rows of panels in order, each from
      the end the chain enters it. */
  function PanelIndex(c: Config, x: nat, y: nat): nat
    requires GeometryOk(c) && InDisplay(c, x, y)
  {
    var r := LocateRow(c, y);
    DivModParts(Flip(r.reverse, x, c.width), PanelW(c));
    r.gridRow * c.gridX + Flip(r.reverse, x, c.width) / PanelW(c)
  }

  lemma PanelBound(g: nat, gridX: nat, q: nat, rest: nat, cells: nat, panels: nat)
    requires rest < cells
    ensures g * (gridX * cells) + (q * cells + rest) < panels * cells <==> g * gridX + q < panels
  {
    var panel := g * gridX + q;
    assert g * (gridX * cells) + (q * cells + rest) == panel * cells + rest by {
      MulAssoc(g, gridX, cells);
    }
    if panel < panels {
      PairBound(panel, rest, panels, cells);
    } else {
      MulMono(panels, panel, cells);
    }
  }

  /** A pixel is stored exactly when its panel is among the first `panels` along the chain. */
  lemma DrivenByPanel(d: Drive, x: nat, y: nat)
    requires DriveOk(d) && InDisplay(d.c, x, y)
    ensures Driven(d, Locate(d.c, x, y)) <==> PanelIndex(d.c, x, y) < d.panels
  {
    var c := d.c;
    var r, cells := LocateRow(c, y), PanelCells(c);
    var col := Flip(r.reverse, x, c.width);
    var local := ChainPos(c, r.block, col);
    ChainPosPanel(c, r.block, col);
    DivModParts(local, cells);
    PanelBound(r.gridRow, c.gridX, col / PanelW(c), local % cells, cells, d.panels);
  }
}
