/** From a colour to bit planes, and from bit planes to time lit. */
module Hub75Light {
  import opened Arith
  import opened Hub75Config

  /** A gamma-corrected colour, one byte per channel. */
  datatype Rgb = Rgb(r: nat, g: nat, b: nat)

  function Channel(v: Rgb, ch: nat): nat
    requires ch < 3
  {
    if ch == 0 then v.r else if ch == 1 then v.g else v.b
  }

  function Top(depth: nat): nat {
    Pow2(depth) - 1
  }

  /** A channel value at the panel's depth. */
  function Level(depth: nat, v: nat): nat {
    (v * Top(depth) + 127) / 255
  }

  function Bit(level: nat, k: nat): (b: nat)
    ensures b < 2
  {
    level / Pow2(k) % 2
  }

  // ---- frame bytes: three bits for each half's colour ----

  function LampMask(half: nat, ch: nat): bv8
    requires half < 2 && ch < 3
  {
    if half == 0 then
      if ch == 0 then 1 else if ch == 1 then 2 else 4
    else
      if ch == 0 then 8 else if ch == 1 then 16 else 32
  }

  /** Whether a frame byte drives one half's channel high. */
  predicate Lamp(e: bv8, half: nat, ch: nat)
    requires half < 2 && ch < 3
  {
    e & LampMask(half, ch) != 0
  }

  function BitByte(b: nat): bv8 {
    if b == 1 then 1 else 0
  }

  /** Bit plane k of a colour. */
  function PlaneByte(depth: nat, v: Rgb, k: nat): bv8 {
    BitByte(Bit(Level(depth, v.r), k)) |
    (BitByte(Bit(Level(depth, v.g), k)) << 1) |
    (BitByte(Bit(Level(depth, v.b), k)) << 2)
  }

  function Planes(depth: nat, v: Rgb): seq<bv8> {
    seq(depth, k requires 0 <= k => PlaneByte(depth, v, k))
  }

  function FieldShift(half: nat): bv8 {
    if half == 1 then 3 else 0
  }

  /** One half's three channels replaced, the other half's kept. */
  function StoreField(e: bv8, shift: bv8, planes: bv8): bv8
    requires shift == 0 || shift == 3
  {
    (e & !(7 << shift)) | ((planes & 7) << shift)
  }

  lemma StoreFieldLamps(e: bv8, half: nat, planes: bv8, otherHalf: nat, ch: nat)
    requires half < 2 && otherHalf < 2 && ch < 3
    ensures otherHalf == half ==>
              (Lamp(StoreField(e, FieldShift(half), planes), otherHalf, ch) <==> Lamp(planes, 0, ch))
    ensures otherHalf != half ==>
              (Lamp(StoreField(e, FieldShift(half), planes), otherHalf, ch) <==> Lamp(e, otherHalf, ch))
    ensures e < 64 ==> StoreField(e, FieldShift(half), planes) < 64
  {
  }

  /** Every channel of a colour is in its plane byte, and nothing else is. */
  lemma PlaneByteLamps(depth: nat, v: Rgb, k: nat, ch: nat)
    requires ch < 3
    ensures Lamp(PlaneByte(depth, v, k), 0, ch) <==> Bit(Level(depth, Channel(v, ch)), k) == 1
    ensures PlaneByte(depth, v, k) < 8
  {
    var b0, b1 := BitByte(Bit(Level(depth, v.r), k)), BitByte(Bit(Level(depth, v.g), k));
    var b2 := BitByte(Bit(Level(depth, v.b), k));
    assert b0 == 0 || b0 == 1;
    assert b1 == 0 || b1 == 1;
    assert b2 == 0 || b2 == 1;
  }

  /** The planes of a colour, plane by plane as the source's loop packs them. */
  method Spread(depth: nat, v: Rgb) returns (planes: seq<bv8>)
    requires depth <= MAX_DEPTH
    ensures planes == Planes(depth, v)
    ensures forall k, ch | 0 <= k < depth && 0 <= ch < 3 ::
              Lamp(planes[k], 0, ch) <==> Bit(Level(depth, Channel(v, ch)), k) == 1
  {
    var top := Pow2(depth) - 1;
    var level := [];
    for ch := 0 to 3
      invariant |level| == ch
      invariant forall i | 0 <= i < ch :: level[i] == Level(depth, Channel(v, i))
    {
      level := level + [(Channel(v, ch) * top + 127) / 255];
    }
    planes := [];
    for k := 0 to depth
      invariant planes == Planes(depth, v)[..k]
    {
      var bits := BitByte(Bit(level[0], k)) | (BitByte(Bit(level[1], k)) << 1) | (BitByte(Bit(level[2], k)) << 2);
      planes := planes + [bits];
    }
    forall k, ch | 0 <= k < depth && 0 <= ch < 3
      ensures Lamp(planes[k], 0, ch) <==> Bit(Level(depth, Channel(v, ch)), k) == 1
    {
      PlaneByteLamps(depth, v, k, ch);
    }
  }

  // ---- levels ----

  /** A level is the nearest whole number to v * (2^depth - 1) / 255, and fits the depth. */
  lemma LevelIsNearest(depth: nat, v: nat)
    requires v < 256
    ensures -127 <= 255 * Level(depth, v) - v * Top(depth) <= 127
    ensures Level(depth, v) < Pow2(depth)
  {
    var n := v * Top(depth) + 127;
    DivModParts(n, 255);
    MulMono(v, 255, Top(depth));
  }

  lemma LevelMonotone(depth: nat, v: nat, w: nat)
    requires v <= w
    ensures Level(depth, v) <= Level(depth, w)
  {
    MulMono(v, w, Top(depth));
    DivMono(v * Top(depth) + 127, w * Top(depth) + 127, 255);
  }

  /** The value bits j and up of a level stand for. */
  function BitsFrom(level: nat, j: nat, depth: nat): nat
    requires j <= depth
    decreases depth - j
  {
    if j == depth then 0 else Bit(level, j) * Pow2(j) + BitsFrom(level, j + 1, depth)
  }

  lemma HalveShift(level: nat, j: nat)
    ensures level / Pow2(j + 1) == level / Pow2(j) / 2
  {
    var p := Pow2(j);
    var q, r := level / p, level % p;
    DivModParts(level, p);
    DivModParts(q, 2);
    assert level == q / 2 * (2 * p) + (q % 2 * p + r);
    PairBound(q % 2, r, 2, p);
    DivModUnique(q / 2, q % 2 * p + r, 2 * p);
  }

  lemma ParityStep(a: nat, p: nat)
    ensures a % 2 * p + a / 2 * (2 * p) == a * p
  {
    MulAssoc(a / 2, 2, p);
    if a % 2 == 1 {
      assert (a / 2 * 2 + 1) * p == a / 2 * 2 * p + p;
    } else {
      assert a == a / 2 * 2;
    }
  }

  lemma {:induction false} BitsFromValue(level: nat, j: nat, depth: nat)
    requires j <= depth && level < Pow2(depth)
    ensures BitsFrom(level, j, depth) == level / Pow2(j) * Pow2(j)
    decreases depth - j
  {
    if j == depth {
      DivModUnique(0, level, Pow2(j));
    } else {
      BitsFromValue(level, j + 1, depth);
      HalveShift(level, j);
      ParityStep(level / Pow2(j), Pow2(j));
    }
  }

  /** The plane bits of a level are the level. */
  lemma PlanesRecombine(level: nat, depth: nat)
    requires level < Pow2(depth)
    ensures BitsFrom(level, 0, depth) == level
  {
    BitsFromValue(level, 0, depth);
  }

  // ---- time lit ----

  /** Ticks a whole plane at full weight is lit for, at a brightness. */
  function OnTicks(driveLen: nat, pwmTop: nat, brightness: nat): nat {
    (driveLen * pwmTop * brightness + BRIGHTNESS_MAX / 2) / BRIGHTNESS_MAX
  }

  /** Ticks plane k is lit for. */
  function PlaneTicks(on: nat, depth: nat, k: nat): nat
    requires 0 < depth
  {
    DivModParts(on * Pow2(k), Pow2(depth - 1));
    on * Pow2(k) / Pow2(depth - 1)
  }

  /** Ticks a channel at `level` is lit for, over its planes j and up. */
  function LightFrom(on: nat, depth: nat, level: nat, j: nat): nat
    requires 0 < depth && j <= depth
    decreases depth - j
  {
    if j == depth then 0
    else Bit(level, j) * PlaneTicks(on, depth, j) + LightFrom(on, depth, level, j + 1)
  }

  function Light(on: nat, depth: nat, level: nat): nat
    requires 0 < depth
  {
    LightFrom(on, depth, level, 0)
  }

  lemma OnTicksBound(driveLen: nat, pwmTop: nat, brightness: nat)
    requires brightness <= BRIGHTNESS_MAX
    ensures OnTicks(driveLen, pwmTop, brightness) <= driveLen * pwmTop
  {
    var row := driveLen * pwmTop;
    MulMono(brightness, BRIGHTNESS_MAX, row);
    DivMono(row * brightness + BRIGHTNESS_MAX / 2, row * BRIGHTNESS_MAX + BRIGHTNESS_MAX / 2, BRIGHTNESS_MAX);
    DivModUnique(row, BRIGHTNESS_MAX / 2, BRIGHTNESS_MAX);
  }

  /** The on-time is the brightness's share of the row's ticks, to the nearest tick. */
  lemma OnTicksIsNearest(driveLen: nat, pwmTop: nat, brightness: nat)
    ensures var row := driveLen * pwmTop;
            -(BRIGHTNESS_MAX / 2) <= BRIGHTNESS_MAX * OnTicks(driveLen, pwmTop, brightness) - row * brightness
                                  <= BRIGHTNESS_MAX / 2
  {
    var n := driveLen * pwmTop * brightness + BRIGHTNESS_MAX / 2;
    DivModParts(n, BRIGHTNESS_MAX);
  }

  /** None for brightness 0, all of them for the highest, and never fewer for a higher one. */
  lemma OnTicksFollow(driveLen: nat, pwmTop: nat, low: nat, high: nat)
    requires low <= high
    ensures OnTicks(driveLen, pwmTop, 0) == 0
    ensures OnTicks(driveLen, pwmTop, BRIGHTNESS_MAX) == driveLen * pwmTop
    ensures OnTicks(driveLen, pwmTop, low) <= OnTicks(driveLen, pwmTop, high)
  {
    var row := driveLen * pwmTop;
    OnTicksIsNearest(driveLen, pwmTop, 0);
    OnTicksIsNearest(driveLen, pwmTop, BRIGHTNESS_MAX);
    MulMono(low, high, row);
    DivMono(row * low + BRIGHTNESS_MAX / 2, row * high + BRIGHTNESS_MAX / 2, BRIGHTNESS_MAX);
  }

  /** Plane k gets its 2^k share of 2^(depth-1), rounded down. */
  lemma PlaneTicksIsFloor(on: nat, depth: nat, k: nat)
    requires 0 < depth
    ensures PlaneTicks(on, depth, k) * Pow2(depth - 1) <= on * Pow2(k)
                                                       < PlaneTicks(on, depth, k) * Pow2(depth - 1) + Pow2(depth - 1)
  {
    DivModParts(on * Pow2(k), Pow2(depth - 1));
  }

  /** Each plane's light is at least twice the plane's before; the last one's is all of it. */
  lemma PlaneTicksDouble(on: nat, depth: nat, k: nat)
    requires 0 < depth
    ensures 2 * PlaneTicks(on, depth, k) <= PlaneTicks(on, depth, k + 1)
    ensures PlaneTicks(on, depth, depth - 1) == on
  {
    var d := Pow2(depth - 1);
    DivModUnique(on, 0, d);
    var a := on * Pow2(k);
    assert on * Pow2(k + 1) == 2 * a;
    DivModParts(a, d);
    DivModUnique(2 * (a / d), 0, d);
    DivMono(2 * (a / d) * d, 2 * a, d);
  }

  lemma PlaneTicksBound(on: nat, depth: nat, k: nat)
    requires k < depth
    ensures PlaneTicks(on, depth, k) <= on
  {
    Pow2Mono(k, depth - 1);
    MulMono(Pow2(k), Pow2(depth - 1), on);
    DivMono(on * Pow2(k), on * Pow2(depth - 1), Pow2(depth - 1));
    PlaneTicksDouble(on, depth, 0);
  }

  /** Over planes j and up, a higher level is lit for at least plane j's ticks more. */
  lemma {:induction false} LightGap(on: nat, depth: nat, low: nat, high: nat, j: nat)
    requires 0 < depth && j <= depth && high < Pow2(depth)
    requires low / Pow2(j) < high / Pow2(j)
    ensures LightFrom(on, depth, low, j) + PlaneTicks(on, depth, j) <= LightFrom(on, depth, high, j)
    decreases depth - j
  {
    if j == depth {
      DivModUnique(0, high, Pow2(j));
      DivModParts(low, Pow2(j));
      assert false;
    } else {
      var a, b := low / Pow2(j), high / Pow2(j);
      HalveShift(low, j);
      HalveShift(high, j);
      PlaneTicksDouble(on, depth, j);
      if a / 2 < b / 2 {
        LightGap(on, depth, low, high, j + 1);
        assert 0 <= Bit(low, j) * PlaneTicks(on, depth, j) <= PlaneTicks(on, depth, j);
        assert 0 <= Bit(high, j) * PlaneTicks(on, depth, j);
      } else {
        assert a % 2 == 0 && b % 2 == 1;
        LightSame(on, depth, low, high, j + 1);
      }
    }
  }

  lemma {:induction false} LightSame(on: nat, depth: nat, a: nat, b: nat, j: nat)
    requires 0 < depth && j <= depth && a / Pow2(j) == b / Pow2(j)
    ensures LightFrom(on, depth, a, j) == LightFrom(on, depth, b, j)
    decreases depth - j
  {
    if j == depth {
    } else {
      HalveShift(a, j);
      HalveShift(b, j);
      LightSame(on, depth, a, b, j + 1);
    }
  }

  /** A higher level is never lit for less: light is monotone in the level. */
  lemma LightMonotone(on: nat, depth: nat, low: nat, high: nat)
    requires 0 < depth && low <= high < Pow2(depth)
    ensures Light(on, depth, low) <= Light(on, depth, high)
  {
    if low < high {
      LightGap(on, depth, low, high, 0);
    }
  }

  lemma ShortfallStep(on: nat, bit: nat, p: nat, rest: nat, d: nat, w: nat, light: nat, planes: nat)
    requires bit < 2 && 0 < d
    requires w * d <= on * p <= w * d + (d - 1)
    requires light * d <= on * rest <= light * d + planes * (d - 1)
    ensures (bit * w + light) * d <= on * (bit * p + rest) <= (bit * w + light) * d + (planes + 1) * (d - 1)
  {
    assert (planes + 1) * (d - 1) == planes * (d - 1) + (d - 1);
    if bit == 0 {
    } else {
      assert on * (p + rest) == on * p + on * rest;
      assert (w + light) * d == w * d + light * d;
    }
  }

  lemma LightLastPlane(on: nat, depth: nat, level: nat)
    requires 0 < depth
    ensures LightFrom(on, depth, level, depth - 1) * Pow2(depth - 1) == on * BitsFrom(level, depth - 1, depth)
  {
    var bit := Bit(level, depth - 1);
    PlaneTicksDouble(on, depth, 0);
    assert LightFrom(on, depth, level, depth - 1) == bit * on + LightFrom(on, depth, level, depth);
    assert BitsFrom(level, depth - 1, depth) == bit * Pow2(depth - 1) + BitsFrom(level, depth, depth);
    if bit == 0 {
    } else {
      assert bit == 1;
    }
  }

  lemma {:induction false} LightShortfallFrom(on: nat, depth: nat, level: nat, j: nat)
    requires j < depth
    ensures var d, light := Pow2(depth - 1), LightFrom(on, depth, level, j);
            light * d <= on * BitsFrom(level, j, depth) <= light * d + (depth - 1 - j) * (d - 1)
    decreases depth - j
  {
    hide Pow2, Bit;
    var d, w, bit := Pow2(depth - 1), PlaneTicks(on, depth, j), Bit(level, j);
    if j == depth - 1 {
      LightLastPlane(on, depth, level);
      assert 0 <= (depth - 1 - j) * (d - 1);
    } else {
      LightShortfallFrom(on, depth, level, j + 1);
      DivModParts(on * Pow2(j), d);
      ShortfallStep(on, bit, Pow2(j), BitsFrom(level, j + 1, depth), d, w,
        LightFrom(on, depth, level, j + 1), depth - 2 - j);
    }
  }

  /** The light of a level is level * on / 2^(depth-1) less what rounding each plane down loses: under a tick
      for each plane but the last. */
  lemma LightShortfall(on: nat, depth: nat, level: nat)
    requires 0 < depth && level < Pow2(depth)
    ensures var d, light := Pow2(depth - 1), Light(on, depth, level);
            light * d <= on * level <= light * d + (depth - 1) * (d - 1)
  {
    PlanesRecombine(level, depth);
    LightShortfallFrom(on, depth, level, 0);
  }
}
