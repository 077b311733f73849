/** Which framebuffer coordinate a driver's pixel reads along one axis. */
module AxisMap {
  import Arith

  const INT16_MIN: int := -0x8000
  const INT16_MAX: int := 0x7FFF
  // The largest framebuffer side the configuration allows.
  const MAX_DIMENSION: nat := 1024

  /** C's division, towards zero. */
  function TruncDiv(a: int, b: int): int
    requires 0 < b
  {
    if a >= 0 then a / b else -(-a / b)
  }

  /** Driver pixels before a framebuffer smaller than the output. */
  function Margin(size: nat, fb: nat, scale: nat): (m: nat) {
    Arith.Max(TruncDiv(size - fb * scale, 2), 0)
  }

  /** The quotient the way the source rounds it: whole, and away from zero below the margin. */
  function Quotient(rel: int, scale: nat): int
    requires 0 < scale
  {
    if rel >= 0 then TruncDiv(rel, scale) else -TruncDiv(-rel + scale - 1, scale)
  }

  function Clamp16(v: int): int {
    Arith.Max(INT16_MIN, Arith.Min(v, INT16_MAX))
  }

  function MapAxis(d: int, size: nat, fb: nat, scale: nat, shift: int): int
    requires 0 < scale
  {
    Clamp16(shift + Quotient(d - Margin(size, fb, scale), scale))
  }

  /** The rounding is floor division, for pixels left of the margin too. */
  lemma QuotientIsFloor(rel: int, scale: nat)
    requires 0 < scale
    ensures Quotient(rel, scale) * scale <= rel < (Quotient(rel, scale) + 1) * scale
  {
    if rel >= 0 {
      Arith.DivModParts(rel, scale);
    } else {
      Arith.DivModParts(-rel + scale - 1, scale);
    }
    Arith.MulSucc(Quotient(rel, scale), scale);
  }

  /** Clamping to 16 bits never moves a pixel into or out of a framebuffer, nor inside it. */
  lemma ClampKeepsInside(v: int, fb: nat)
    requires fb <= MAX_DIMENSION
    ensures 0 <= Clamp16(v) < fb <==> 0 <= v < fb
    ensures 0 <= v < fb ==> Clamp16(v) == v
  {
  }

  /** Each framebuffer coordinate is read by `scale` consecutive driver pixels: those from
      margin + (v - shift) * scale on, as far as they are on the output. */
  lemma CoordinateOwnsPixels(d: int, size: nat, fb: nat, scale: nat, shift: int, v: int)
    requires 0 < scale && fb <= MAX_DIMENSION && 0 <= v < fb
    ensures var first := Margin(size, fb, scale) + (v - shift) * scale;
            MapAxis(d, size, fb, scale, shift) == v <==> first <= d < first + scale
  {
    var rel := d - Margin(size, fb, scale);
    var q := Quotient(rel, scale);
    QuotientIsFloor(rel, scale);
    ClampKeepsInside(shift + q, fb);
    var e := v - shift;
    Arith.MulSucc(e, scale);
    if q < e {
      Arith.MulMono(q + 1, e, scale);
    } else if q > e {
      Arith.MulMono(e + 1, q, scale);
    }
  }

  /** Unshifted, an image no larger than the output is wholly on it, and centred to within one pixel. */
  lemma SmallImageIsCentred(size: nat, fb: nat, scale: nat, v: int)
    requires 0 < scale && fb * scale <= size && fb <= MAX_DIMENSION && 0 <= v < fb
    ensures var left := Margin(size, fb, scale);
            var right := size - left - fb * scale;
            && 0 <= right - left <= 1
            && 0 <= left + v * scale && left + v * scale + scale <= size
  {
    Arith.MulMono(v + 1, fb, scale);
    Arith.MulMono(0, v, scale);
    Arith.MulSucc(v, scale);
  }

  /** Unshifted, an image at least as large as the output starts at its first pixel. */
  lemma LargeImageFromEdge(size: nat, fb: nat, scale: nat, shift: int)
    requires 0 < scale && size <= fb * scale && INT16_MIN <= shift <= INT16_MAX
    ensures MapAxis(0, size, fb, scale, shift) == shift
    ensures 0 < size && scale > 1 ==> MapAxis(scale - 1, size, fb, scale, shift) == shift
  {
    Arith.DivModUnique(0, 0, scale);
    Arith.DivModUnique(0, scale - 1, scale);
    assert Margin(size, fb, scale) == 0;
  }
}
