/** Geographic points and the straight-line route generator of the simulator. */
module Geo {

  /** A (latitude, longitude) pair in degrees. */
  datatype GeoPoint = GeoPoint(lat: real, lon: real)

  /** Number of interpolation steps in every generated vehicle route. */
  const NUM_POINTS: nat := 10

  /** The route from `start` to `end` in `numPoints` equal steps: waypoint `i` is
      `start + i * (end - start) / numPoints`, coordinate by coordinate.
      A zero step count divides by zero in the original, so it is excluded. */
  function GeneratePath(start: GeoPoint, end: GeoPoint, numPoints: nat): (path: seq<GeoPoint>)
    requires numPoints > 0
    ensures |path| == numPoints + 1
    ensures path[0] == start
  {
    var latDiff := (end.lat - start.lat) / numPoints as real;
    var lonDiff := (end.lon - start.lon) / numPoints as real;
    seq(numPoints + 1, i => GeoPoint(start.lat + i as real * latDiff, start.lon + i as real * lonDiff))
  }
}
