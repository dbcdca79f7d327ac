/** Positions and viewports (internal/geo/bbox.go). */
module Geo {

  datatype Position = Position(lat: real, lon: real)

  datatype BBox = BBox(minLon: real, minLat: real, maxLon: real, maxLat: real) {
    /** Membership, inclusive of edges. */
    predicate Contains(p: Position) {
      minLon <= p.lon <= maxLon && minLat <= p.lat <= maxLat
    }

    /** The position of the box nearest to `p`. */
    function Nearest(p: Position): Position {
      Position(Between(p.lat, minLat, maxLat), Between(p.lon, minLon, maxLon))
    }
  }

  function Between(x: real, lo: real, hi: real): real {
    if x < lo then lo else if x > hi then hi else x
  }

  /** A box holds exactly the positions it would not have to move: edges included, and none at all
      if it is inverted. */
  lemma ContainsIffNearest(box: BBox, p: Position)
    ensures box.Contains(p) <==> box.Nearest(p) == p
    ensures box.minLon <= box.maxLon && box.minLat <= box.maxLat <==> box.Contains(box.Nearest(p))
  {
  }
}
