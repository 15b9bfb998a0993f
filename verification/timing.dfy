/** The pacing rule `get_wait_time`, over real numbers. The random deviation
    factor (`random.uniform(deviation[0], deviation[1])`) is a parameter. */
module Timing {
  import opened Numeric

  /** `(base + len(message) * letter + (image ? imageTime : 0)) * factor`;
      how it grows with the message, the image and the factor is stated by
      `WaitTimeMonotone`, `WaitTimeImage` and `WaitTimeWithinDeviation`. */
  function WaitTime(message: string, image: bool, baseTime: real, letterTime: real, imageTime: real, factor: real): (t: real)
    ensures baseTime >= 0.0 && letterTime >= 0.0 && imageTime >= 0.0 && factor >= 0.0 ==> t >= 0.0
  {
    (baseTime + |message| as real * letterTime + (if image then imageTime else 0.0)) * factor
  }

  /** A longer message never waits less, for a fixed non-negative factor and
      a non-negative per-letter time. */
  lemma WaitTimeMonotone(shorter: string, longer: string, image: bool, baseTime: real, letterTime: real, imageTime: real, factor: real)
    requires |shorter| <= |longer|
    requires letterTime >= 0.0 && factor >= 0.0
    ensures WaitTime(shorter, image, baseTime, letterTime, imageTime, factor)
         <= WaitTime(longer, image, baseTime, letterTime, imageTime, factor)
  {
    var a := baseTime + |shorter| as real * letterTime + (if image then imageTime else 0.0);
    var b := baseTime + |longer| as real * letterTime + (if image then imageTime else 0.0);
    var gap := |longer| as real - |shorter| as real;
    assert gap >= 0.0;
    NonNegativeProduct(gap, letterTime);
    assert b - a == gap * letterTime;
    NonNegativeProduct(b - a, factor);
    assert b * factor - a * factor == (b - a) * factor;
  }

  /** An image never shortens the wait, for a non-negative image time and factor. */
  lemma WaitTimeImage(message: string, baseTime: real, letterTime: real, imageTime: real, factor: real)
    requires imageTime >= 0.0 && factor >= 0.0
    ensures WaitTime(message, false, baseTime, letterTime, imageTime, factor)
         <= WaitTime(message, true, baseTime, letterTime, imageTime, factor)
  {
    NonNegativeProduct(imageTime, factor);
    var t := baseTime + |message| as real * letterTime;
    assert (t + imageTime) * factor == t * factor + imageTime * factor;
  }

  lemma NonNegativeProduct(x: real, y: real)
    requires x >= 0.0 && y >= 0.0
    ensures x * y >= 0.0
  {
  }

  /** With the factor drawn from `[lo, hi]` and a non-negative undeviated
      time, the wait lies between the two extremes. */
  lemma WaitTimeWithinDeviation(message: string, image: bool, baseTime: real, letterTime: real, imageTime: real, lo: real, factor: real, hi: real)
    requires lo <= factor <= hi
    requires baseTime + |message| as real * letterTime + (if image then imageTime else 0.0) >= 0.0
    ensures WaitTime(message, image, baseTime, letterTime, imageTime, lo)
         <= WaitTime(message, image, baseTime, letterTime, imageTime, factor)
         <= WaitTime(message, image, baseTime, letterTime, imageTime, hi)
  {
    var t := baseTime + |message| as real * letterTime + (if image then imageTime else 0.0);
    NonNegativeProduct(t, factor - lo);
    NonNegativeProduct(t, hi - factor);
    assert t * factor - t * lo == t * (factor - lo);
    assert t * hi - t * factor == t * (hi - factor);
  }

  /** The pause before publishing: the wait minus the time generation already
      took, never negative, and never longer than the wait itself when time
      has passed. */
  function WriteWait(wait: real, elapsed: real): (r: real)
    ensures r >= 0.0 && r >= wait - elapsed
    ensures r == 0.0 || r == wait - elapsed
    ensures elapsed >= 0.0 && wait >= 0.0 ==> r <= wait
  {
    AtLeastZero(wait - elapsed)
  }
}
