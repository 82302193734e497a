/** Quantisation of a touch angle on the clock face into the index of a mark.

    Angles are in degrees, measured clockwise from twelve o'clock, and taken
    as an input: the `atan2` call and the radian/degree conversions that
    produce them are not modelled. A face with `count` marks places mark `k`
    at `k * (360 / count)` degrees.
 */
module ClockGeometry {

  /** Degrees between two neighbouring marks of a face with `count` marks. */
  function Increment(count: int): (inc: real)
    requires count > 0
    ensures inc > 0.0
    ensures (count as real) * inc == 360.0
  {
    360.0 / count as real
  }

  /** The angle a touch counts as: a negative angle is pulled up to 0. */
  function Clamped(angle: real): (a: real)
    ensures a >= 0.0
    ensures angle >= 0.0 ==> a == angle
  {
    if angle < 0.0 then 0.0 else angle
  }

  /** The clamped angle measured in mark widths from twelve o'clock: mark
      `k` sits at position `k`. */
  ghost function Position(angle: real, count: int): (p: real)
    requires count > 0
    ensures p >= 0.0
    ensures p * 360.0 == Clamped(angle) * (count as real)
  {
    Clamped(angle) * (count as real) / 360.0
  }

  /** The sector of mark `k`: every (clamped) angle less than half a mark
      width away from the mark, lower edge included. Mark 0 also owns every
      angle at or past the half-step before 360 degrees, however far past:
      an angle beyond the last sector wraps to mark 0, it is not reduced
      modulo the number of marks. */
  ghost predicate InSector(angle: real, count: int, k: int)
    requires count > 0
  {
    var p := Position(angle, count);
    if k == 0 then
      p < 0.5 || p >= (count as real) - 0.5
    else
      0 < k < count && (k as real) - 0.5 <= p < (k as real) + 0.5
  }

  /** The same sectors in degrees: mark `k` owns the angles from half a
      width before `k * Increment(count)` up to half a width after it. */
  lemma InSectorDegrees(angle: real, count: int, k: int)
    requires count > 0 && 0 < k < count
    ensures InSector(angle, count, k) <==>
              (k as real) * Increment(count) - Increment(count) / 2.0 <= Clamped(angle) &&
              Clamped(angle) < (k as real) * Increment(count) + Increment(count) / 2.0
  {
    var inc := Increment(count);
    var p := Position(angle, count);
    ScaledPosition(angle, count);
    ScaleBracket(p, k as real, inc, Clamped(angle));
    assert InSector(angle, count, k) <==> (k as real) - 0.5 <= p < (k as real) + 0.5;
  }

  /** Scaling a half-open bracket of width one around `k` by `d`, where
      `a` is `p` scaled. */
  lemma ScaleBracket(p: real, k: real, d: real, a: real)
    requires d > 0.0 && p * d == a
    ensures (k - 0.5 <= p < k + 0.5) <==> (k * d - d / 2.0 <= a < k * d + d / 2.0)
  {
    ScaleIff(k - 0.5, p, d, k * d - d / 2.0, a);
    ScaleIff(p, k + 0.5, d, a, k * d + d / 2.0);
  }

  /** A position times the mark width gives back the clamped angle. */
  lemma ScaledPosition(angle: real, count: int)
    requires count > 0
    ensures Position(angle, count) * Increment(count) == Clamped(angle)
  {
    var inc := Increment(count);
    var p := Position(angle, count);
    var c := count as real;
    assert p * 360.0 == Clamped(angle) * c;
    assert p * (c * inc) == Clamped(angle) * c;
    assert (p * inc) * c == Clamped(angle) * c;
  }

  /** The index arithmetic of `touchClock`: clamp, subtract half a mark
      width, floor the quotient by the mark width and add one, and replace
      an out-of-range index by 0. The result is the mark whose sector holds
      the angle. */
  method MarkIndex(angle: real, count: int) returns (index: int)
    requires count > 0
    ensures 0 <= index < count
    ensures InSector(angle, count, index)
  {
    var increment := 360.0 / count as real;
    var a := angle;
    if a < 0.0 {
      a := 0.0;
    }
    a := a - increment / 2.0;
    index := (a / increment).Floor + 1;
    FloorSector(angle, count);
    if index < 0 || index > count - 1 {
      index := 0;
    }
  }

  /** Where the floor formula of `MarkIndex` lands, before the range check:
      an index in range is the mark whose sector holds the angle, and an
      index out of range only happens for angles in mark 0's sector. */
  lemma FloorSector(angle: real, count: int)
    requires count > 0
    ensures var inc := Increment(count);
            var k := ((Clamped(angle) - inc / 2.0) / inc).Floor + 1;
            (0 <= k < count ==> InSector(angle, count, k)) &&
            (!(0 <= k < count) ==> InSector(angle, count, 0))
  {
    var inc := Increment(count);
    var p := Position(angle, count);
    ShiftedQuotient(angle, count);
    var f := (p - 0.5).Floor;
    assert (f as real) <= p - 0.5 < (f as real) + 1.0;
  }

  /** Dividing the half-width-shifted angle by the mark width is the
      position shifted by half a mark. */
  lemma ShiftedQuotient(angle: real, count: int)
    requires count > 0
    ensures (Clamped(angle) - Increment(count) / 2.0) / Increment(count) == Position(angle, count) - 0.5
  {
    var inc := Increment(count);
    var p := Position(angle, count);
    ScaledPosition(angle, count);
    var q := (Clamped(angle) - inc / 2.0) / inc;
    assert q * inc == Clamped(angle) - inc / 2.0;
    assert (p - 0.5) * inc == p * inc - inc / 2.0;
    assert (q - (p - 0.5)) * inc == 0.0;
  }

  /** Scaling by a positive factor keeps `<=` and `<`; `xd` and `yd` are
      the scaled values. */
  lemma ScaleIff(x: real, y: real, d: real, xd: real, yd: real)
    requires d > 0.0 && x * d == xd && y * d == yd
    ensures x <= y <==> xd <= yd
    ensures x < y <==> xd < yd
  {
    assert yd - xd == (y - x) * d;
  }

  /** Sectors do not overlap: at most one mark owns an angle. Together with
      `MarkIndex`, which finds one, every angle belongs to exactly one mark. */
  lemma SectorUnique(angle: real, count: int, j: int, k: int)
    requires count > 0 && 0 <= j < count && 0 <= k < count
    requires InSector(angle, count, j) && InSector(angle, count, k)
    ensures j == k
  {
  }

  /** Touching exactly on mark `k` selects mark `k`. */
  lemma MarkAngleSelectsMark(count: int, k: int, j: int)
    requires count > 0 && 0 <= k < count && 0 <= j < count
    requires InSector((k as real) * Increment(count), count, j)
    ensures j == k
  {
    var inc := Increment(count);
    var c := count as real;
    ScaleIff(0.0, k as real, inc, 0.0, (k as real) * inc);
    var p := Position((k as real) * inc, count);
    assert p * 360.0 == ((k as real) * inc) * c;
    assert ((k as real) * inc) * c == (k as real) * (c * inc);
    assert p == k as real;
  }

  /** Every angle at or past the half-step before 360 degrees lies in mark
      0's sector (and so, by `SectorUnique`, in no other), while the floor
      formula alone would give `count`, or more for larger angles; reducing
      that modulo `count` would pick a different mark than the source does
      once the angle passes 360 plus half a step. */
  lemma PastLastSectorWrapsToZero(angle: real, count: int)
    requires count > 0
    requires angle >= 360.0 - Increment(count) / 2.0
    ensures InSector(angle, count, 0)
  {
    var c := count as real;
    LastEdge(Increment(count), c);
    ScaleIff(360.0 - Increment(count) / 2.0, Clamped(angle), c, 360.0 * c - 180.0, Clamped(angle) * c);
  }

  /** The half-step before 360 degrees, scaled by the number of marks. */
  lemma LastEdge(inc: real, c: real)
    requires c * inc == 360.0
    ensures (360.0 - inc / 2.0) * c == 360.0 * c - 180.0
  {
    assert (360.0 - inc / 2.0) * c == 360.0 * c - (c * inc) / 2.0;
  }

  /** A negative angle counts as 0 and so lies in mark 0's sector. */
  lemma NegativeAngleSelectsTop(angle: real, count: int)
    requires count > 0 && angle < 0.0
    ensures InSector(angle, count, 0)
  {
    assert Position(angle, count) == 0.0;
  }
}
