// The Spork profile record and the arithmetic shared by the processing stages.

module Profiles {

  /** Number of slots in the profile array the driver allocates. */
  const MAX_SPORK_PROFILES: nat := 5000

  datatype Option<T> = None | Some(value: T) {
    /** The carried value, or `default` when there is none. */
    function GetOr(default: T): T {
      match this
      case Some(v) => v
      case None => default
    }
  }

  /**
   * One restaurant/business. The `real` fields stand for the C `double`s;
   * the name is kept as a string of any length.
   */
  datatype Profile = Profile(
    businessName: string,
    locX: real,
    locY: real,
    distMiles: real,
    avgRating: real,
    adLevel: int,
    isNearby: bool,
    isGood: bool)

  /** The two records carry the same input data (name, location, rating, ad level). */
  predicate SameData(p: Profile, q: Profile) {
    p.businessName == q.businessName && p.locX == q.locX && p.locY == q.locY &&
    p.avgRating == q.avgRating && p.adLevel == q.adLevel
  }

  /** The C library's square root, which the model does not compute. */
  type Sqrt = real -> real

  /** The radicand of the Euclidean distance; never negative, so the root is defined. */
  function SquaredDistance(ux: real, uy: real, px: real, py: real): (d: real)
    ensures d >= 0.0
  {
    (ux - px) * (ux - px) + (uy - py) * (uy - py)
  }

  /** Euclidean distance between the user at (ux, uy) and a business at (px, py). */
  function Distance(sqrt: Sqrt, ux: real, uy: real, px: real, py: real): real {
    sqrt(SquaredDistance(ux, uy, px, py))
  }
}
