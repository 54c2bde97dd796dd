/** Character ranges: sorted arrays of boundary points. */
module RangePoints {
  import opened Limits

  /** `x` lies in the `i`-th half-open interval [p(2i), p(2i+1)). */
  predicate Within(points: seq<nat>, i: nat, x: nat) {
    2 * i + 1 < |points| && points[2 * i] <= x < points[2 * i + 1]
  }

  /** Membership: `points` lists the half-open intervals [p0, p1), [p2, p3), ... */
  ghost predicate In(points: seq<nat>, x: nat) {
    exists i: nat :: Within(points, i, x)
  }

  predicate NonDecreasing(points: seq<nat>) {
    forall i, j | 0 <= i < j < |points| :: points[i] <= points[j]
  }

  predicate StrictlyIncreasing(points: seq<nat>) {
    forall i, j | 0 <= i < j < |points| :: points[i] < points[j]
  }

  /** The canonical form of a range. */
  predicate Canonical(points: seq<nat>) {
    && |points| % 2 == 0
    && StrictlyIncreasing(points)
    && forall i | 0 <= i < |points| :: points[i] <= UINT32_MAX
  }
}
