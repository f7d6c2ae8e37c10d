/**
 Focus and metering areas, and the split of a GPS coordinate, in exact
 arithmetic: the rounding of float is not modelled.
 */
module Coordinates {

  // ----- areas -----------------------------------------------------------------------

  /** Corners between -1000 and 1000, as the application gives them. */
  datatype Area = Area(x1: int, y1: int, x2: int, y2: int, weight: int)

  /** What goes to the driver: a corner and an extent in preview pixels. */
  datatype Rect = Rect(x: int, y: int, dx: int, dy: int)

  predicate NoArea(a: Area) { a == Area(0, 0, 0, 0, 0) }

  predicate ValidArea(a: Area) {
    && -1000 <= a.x1 < a.x2 <= 1000
    && -1000 <= a.y1 < a.y2 <= 1000
    && 1 <= a.weight <= 1000
  }

  /** validateCameraAreas */
  method ValidateAreas(areas: array<Area>, n: nat) returns (ok: bool)
    requires n <= areas.Length
    ensures ok <==> forall i | 0 <= i < n :: NoArea(areas[i]) || ValidArea(areas[i])
  {
    for i := 0 to n
      invariant forall j | 0 <= j < i :: NoArea(areas[j]) || ValidArea(areas[j])
    {
      var a := areas[i];
      if a.x1 == 0 && a.y1 == 0 && a.x2 == 0 && a.y2 == 0 && a.weight == 0 {
        continue;
      }
      if a.x1 < -1000 || a.y1 < -1000 || a.x2 > 1000 || a.y2 > 1000 {
        return false;
      }
      if a.weight <= 0 || a.weight > 1000 {
        return false;
      }
      if a.x1 >= a.x2 {
        return false;
      }
      if a.y1 >= a.y2 {
        return false;
      }
    }
    return true;
  }

  /** One coordinate moved from -1000..1000 to 0..extent; the fraction is dropped. */
  function Moved(c: int, extent: nat): int { ((c as real + 1000.0) * (extent as real / 2000.0)).Floor }

  function FocusRect(a: Area, w: nat, h: nat): Rect {
    var x, y := Moved(a.x1, w), Moved(a.y1, h);
    Rect(x, y, Moved(a.x2, w) - x, Moved(a.y2, h) - y)
  }

  /** The point given for metering. */
  function Centre(a: Area, w: nat, h: nat): (int, int) {
    ((Moved(a.x1, w) + Moved(a.x2, w)) / 2, (Moved(a.y1, h) + Moved(a.y2, h)) / 2)
  }

  /** The distance from the left or upper end, in units of 1/2000 pixel. */
  function Units(c: int, extent: nat): int { (c + 1000) * extent }

  lemma UnitsOrdered(c: int, d: int, extent: nat)
    requires c <= d
    ensures Units(-1000, extent) == 0 && Units(1000, extent) == 2000 * extent
    ensures Units(c, extent) <= Units(d, extent)
    ensures c < d ==> Units(d, extent) - Units(c, extent) >= extent
  {
    Multiple(d - c, extent);
    assert (d + 1000) * extent == (c + 1000) * extent + (d - c) * extent;
  }

  lemma Multiple(k: nat, n: nat)
    ensures 0 <= k * n && (k > 0 ==> n <= k * n)
  {
  }

  lemma MovedExactly(c: int, extent: nat)
    requires -1000 <= c <= 1000
    ensures Moved(c, extent) == Units(c, extent) / 2000
  {
    var p := (c + 1000) * extent;
    var k := p / 2000;
    assert (c as real + 1000.0) * (extent as real / 2000.0) == p as real / 2000.0 by {
      assert (c + 1000) as real * extent as real == p as real;
    }
    assert p == 2000 * k + p % 2000;
    assert k as real <= p as real / 2000.0 < (k + 1) as real;
  }

  /** Coordinates keep their order and stay inside the extent, and its ends go to its ends. */
  lemma MovedInside(c: int, d: int, extent: nat)
    requires -1000 <= c <= d <= 1000
    ensures 0 <= Moved(c, extent) <= Moved(d, extent) <= extent
    ensures Moved(-1000, extent) == 0 && Moved(1000, extent) == extent
    ensures extent >= 2000 && c < d ==> Moved(c, extent) < Moved(d, extent)
  {
    MovedExactly(-1000, extent);
    MovedExactly(1000, extent);
    MovedExactly(c, extent);
    MovedExactly(d, extent);
    UnitsOrdered(c, d, extent);
    UnitsOrdered(-1000, c, extent);
    UnitsOrdered(d, 1000, extent);
    hide Moved, Units;
    Scaled(0, 2000 * extent, extent);
    Scaled(Units(c, extent), Units(d, extent), extent);
  }

  lemma Scaled(p: int, q: int, extent: nat)
    requires 0 <= p <= q <= 2000 * extent
    ensures 0 <= p / 2000 <= q / 2000 <= extent == 2000 * extent / 2000
    ensures q - p >= extent >= 2000 ==> p / 2000 < q / 2000
  {
  }

  /**
   A valid area becomes a rectangle inside the preview, its extents are not
   negative, and the metering point lies in it; with sixteen-bit previews
   nothing is cut off by the conversion to uint16_t.
   */
  lemma AreaInsidePreview(a: Area, w: nat, h: nat)
    requires ValidArea(a) && w < 0x1_0000 && h < 0x1_0000
    ensures var r, c := FocusRect(a, w, h), Centre(a, w, h);
            && 0 <= r.x && 0 <= r.dx && r.x + r.dx <= w < 0x1_0000
            && 0 <= r.y && 0 <= r.dy && r.y + r.dy <= h < 0x1_0000
            && r.x <= c.0 <= r.x + r.dx && r.y <= c.1 <= r.y + r.dy
  {
    MovedInside(a.x1, a.x2, w);
    MovedInside(a.y1, a.y2, h);
  }

  /**
   The metering point is the middle: as far from the left side as from the right,
   and from the top as from the bottom, or one pixel nearer to the left or the top.
   */
  lemma CentreInTheMiddle(a: Area, w: nat, h: nat)
    requires ValidArea(a)
    ensures var r, c := FocusRect(a, w, h), Centre(a, w, h);
            && 0 <= (r.x + r.dx - c.0) - (c.0 - r.x) <= 1
            && 0 <= (r.y + r.dy - c.1) - (c.1 - r.y) <= 1
  {
    hide Moved;
    Halved(Moved(a.x1, w) + Moved(a.x2, w));
    Halved(Moved(a.y1, h) + Moved(a.y2, h));
  }

  lemma Halved(n: int)
    ensures 0 <= n - 2 * (n / 2) <= 1
  {
  }

  /** No valid area is lost to rounding exactly when the preview is at least 2000 pixels wide and high. */
  lemma NeverEmptyExactly(w: nat, h: nat)
    ensures (forall a | ValidArea(a) :: FocusRect(a, w, h).dx > 0 && FocusRect(a, w, h).dy > 0)
       <==> w >= 2000 && h >= 2000
  {
    var corner := Area(-1000, -1000, -999, -999, 1);
    assert ValidArea(corner);
    MovedExactly(-1000, w);
    MovedExactly(-999, w);
    MovedExactly(-1000, h);
    MovedExactly(-999, h);
    if w >= 2000 && h >= 2000 {
      forall a | ValidArea(a) ensures FocusRect(a, w, h).dx > 0 && FocusRect(a, w, h).dy > 0 {
        MovedInside(a.x1, a.x2, w);
        MovedInside(a.y1, a.y2, h);
      }
    } else {
      assert !(FocusRect(corner, w, h).dx > 0 && FocusRect(corner, w, h).dy > 0);
    }
  }

  // ----- GPS coordinates ----------------------------------------------------------------

  /** Whole degrees, whole minutes, and ten-thousandths of a second. */
  datatype Dms = Dms(degrees: int, minutes: int, seconds: int)

  function Abs(x: real): real { if x < 0.0 then -x else x }

  /** parseGPSCoordinate, from the number in the string on. */
  function Split(value: real): Dms {
    var deg := Abs(value);
    var min := (deg - deg.Floor as real) * 60.0;
    var sec := (min - min.Floor as real) * 60.0;
    Dms(deg.Floor, min.Floor, (sec * 10000.0).Floor)
  }

  /** The coordinate that degrees, minutes and seconds stand for. */
  function Joined(t: Dms): real { t.degrees as real + t.minutes as real / 60.0 + t.seconds as real / 36000000.0 }

  predicate Proper(t: Dms) { 0 <= t.degrees && 0 <= t.minutes < 60 && 0 <= t.seconds < 600000 }

  /** The split is proper, never above the coordinate, and short of it by less than 1/36,000,000 degree. */
  lemma SplitClose(value: real)
    ensures Proper(Split(value))
    ensures Joined(Split(value)) <= Abs(value) < Joined(Split(value)) + 1.0 / 36000000.0
  {
  }

  /** These conditions fix the split; in particular it undoes the sum of a proper triple. */
  lemma SplitUnique(value: real, t: Dms)
    requires Proper(t) && Joined(t) <= Abs(value) < Joined(t) + 1.0 / 36000000.0
    ensures Split(value) == t
  {
    SplitClose(value);
    var u := Split(value);
    var a := t.degrees * 36000000 + t.minutes * 600000 + t.seconds;
    var b := u.degrees * 36000000 + u.minutes * 600000 + u.seconds;
    assert a as real == Joined(t) * 36000000.0 && b as real == Joined(u) * 36000000.0;
    assert a == b;
  }
}
