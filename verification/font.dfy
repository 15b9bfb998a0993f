/** The font animation of the link site: a font variation (weight and
    italic axis) interpolated between a start and an end value. */
module Font {
  import opened Numeric

  /** A point on the font's variation axes. */
  datatype FontVariation = FontVariation(weight: real, italic: real)

  /** `mapInterpolation`: the point `fraction` of the way from `start` to
      `end`, truncated toward zero. */
  function MapInterpolation(start: real, end: real, fraction: real): (r: int)
    ensures 0.0 <= fraction <= 1.0 && start >= 0.0 && end >= 0.0 ==> r >= 0
  {
    Trunc(Lerp(start, end, fraction))
  }

  /** The untruncated point `fraction` of the way from `s` to `e`; for a
      fraction from 0 to 1 it lies between the two. */
  function Lerp(s: real, e: real, fraction: real): (x: real)
    ensures 0.0 <= fraction <= 1.0 && s <= e ==> s <= x <= e
    ensures 0.0 <= fraction <= 1.0 && e <= s ==> e <= x <= s
  {
    var x := (e - s) * fraction + s;
    Interpolated(s, e, fraction, x);
    x
  }

  /** With whole-number ends, a fraction of 0 gives the start and 1 the
      end. */
  lemma MapInterpolationEnds(start: int, end: int)
    ensures MapInterpolation(start as real, end as real, 0.0) == start
    ensures MapInterpolation(start as real, end as real, 1.0) == end
  {
    assert (end as real - start as real) * 0.0 + start as real == start as real;
    assert (end as real - start as real) * 1.0 + start as real == end as real;
    TruncOfInt(start);
    TruncOfInt(end);
  }

  /** With whole-number ends, every fraction from 0 to 1 gives a value
      between the two. */
  lemma MapInterpolationBetween(start: int, end: int, fraction: real)
    requires 0.0 <= fraction <= 1.0
    ensures start <= end ==> start <= MapInterpolation(start as real, end as real, fraction) <= end
    ensures end <= start ==> end <= MapInterpolation(start as real, end as real, fraction) <= start
  {
    MapInterpolationMonotone(start as real, end as real, fraction);
    TruncOfInt(start);
    TruncOfInt(end);
  }

  /** For any ends, the interpolated value lies between the truncated
      ends. */
  lemma MapInterpolationMonotone(s: real, e: real, fraction: real)
    requires 0.0 <= fraction <= 1.0
    ensures s <= e ==> Trunc(s) <= MapInterpolation(s, e, fraction) <= Trunc(e)
    ensures e <= s ==> Trunc(e) <= MapInterpolation(s, e, fraction) <= Trunc(s)
  {
    var x := Lerp(s, e, fraction);
    if s <= e {
      TruncMonotone(s, x);
      TruncMonotone(x, e);
    } else {
      TruncMonotone(e, x);
      TruncMonotone(x, s);
    }
  }

  /** Before truncation, a fraction from 0 to 1 of the way from `s` to `e`
      lies between the two. */
  lemma Interpolated(s: real, e: real, fraction: real, x: real)
    requires x == (e - s) * fraction + s
    ensures 0.0 <= fraction <= 1.0 && s <= e ==> s <= x <= e
    ensures 0.0 <= fraction <= 1.0 && e <= s ==> e <= x <= s
  {
    if 0.0 <= fraction <= 1.0 {
      var d := e - s;
      Distribute(d, fraction);
      if d >= 0.0 {
        ProductNonnegative(d, fraction);
        ProductNonnegative(d, 1.0 - fraction);
      } else {
        ProductNonnegative(-d, fraction);
        ProductNonnegative(-d, 1.0 - fraction);
        Negated(d, fraction);
        Negated(d, 1.0 - fraction);
      }
    }
  }

  // Single steps of real arithmetic, kept apart so that each is checked on
  // its own.

  lemma ProductNonnegative(a: real, b: real)
    requires 0.0 <= a && 0.0 <= b
    ensures 0.0 <= a * b
  {
  }

  lemma Distribute(d: real, fraction: real)
    ensures d * fraction + d * (1.0 - fraction) == d
  {
  }

  lemma Negated(d: real, fraction: real)
    ensures (-d) * fraction == -(d * fraction)
  {
  }

  /** An animator: where it starts, where it ends, and where it is. */
  datatype FontAnimator = FontAnimator(start: FontVariation, end: FontVariation, current: FontVariation)

  /** The constructor: the animator stands at its start. */
  function NewAnimator(start: FontVariation, end: FontVariation): (a: FontAnimator)
    ensures a.start == start && a.end == end && a.current == start
  {
    FontAnimator(start, end, start)
  }

  function GetStart(a: FontAnimator): FontVariation {
    a.start
  }

  /** `update`: each axis interpolated on its own; the animator itself is
      left as it is. */
  function Update(a: FontAnimator, fraction: real): FontVariation {
    FontVariation(MapInterpolation(a.start.weight, a.end.weight, fraction) as real,
                  MapInterpolation(a.start.italic, a.end.italic, fraction) as real)
  }

  /** With whole-number axes, the animation shows the start at fraction 0,
      the end at fraction 1, and in between stays within the box the two
      span on each axis. */
  lemma UpdateRange(a: FontAnimator, weight0: int, italic0: int, weight1: int, italic1: int, fraction: real)
    requires a.start == FontVariation(weight0 as real, italic0 as real)
    requires a.end == FontVariation(weight1 as real, italic1 as real)
    requires 0.0 <= fraction <= 1.0
    ensures fraction == 0.0 ==> Update(a, fraction) == GetStart(a)
    ensures fraction == 1.0 ==> Update(a, fraction) == a.end
    ensures var v := Update(a, fraction);
      && (weight0 <= weight1 ==> weight0 as real <= v.weight <= weight1 as real)
      && (weight1 <= weight0 ==> weight1 as real <= v.weight <= weight0 as real)
      && (italic0 <= italic1 ==> italic0 as real <= v.italic <= italic1 as real)
      && (italic1 <= italic0 ==> italic1 as real <= v.italic <= italic0 as real)
  {
    MapInterpolationEnds(weight0, weight1);
    MapInterpolationEnds(italic0, italic1);
    MapInterpolationBetween(weight0, weight1, fraction);
    MapInterpolationBetween(italic0, italic1, fraction);
  }
}
