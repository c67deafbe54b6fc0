/**
  The region of the small preview map on the tracking sheet: centred on the
  midpoint of the user and the destination, with a padded span so both pins
  are visible. Coordinates are plain degrees over `real`; the longitude
  wrap-around at the antimeridian is not handled, as in the app.
 */
module MapPreview {
  import opened Numeric

  datatype Coordinate = Coordinate(latitude: real, longitude: real)
  datatype Span = Span(latitudeDelta: real, longitudeDelta: real)
  datatype Region = Region(center: Coordinate, span: Span)

  /** Smallest span shown, in degrees, so that coincident points still zoom sensibly. */
  const MinDelta: real := 0.005
  /** Factor by which the coordinate difference is widened. */
  const Padding: real := 1.5

  /** The coordinate halfway between two points, one axis at a time. */
  function Midpoint(a: Coordinate, b: Coordinate): (m: Coordinate)
    ensures m.latitude - a.latitude == b.latitude - m.latitude
    ensures m.longitude - a.longitude == b.longitude - m.longitude
    ensures Min(a.latitude, b.latitude) <= m.latitude <= Max(a.latitude, b.latitude)
    ensures Min(a.longitude, b.longitude) <= m.longitude <= Max(a.longitude, b.longitude)
  {
    Coordinate((a.latitude + b.latitude) / 2.0, (a.longitude + b.longitude) / 2.0)
  }

  /** A span wide enough for both points: padded difference, never below the minimum. */
  function SpanToShowBoth(a: Coordinate, b: Coordinate): (s: Span)
    ensures s.latitudeDelta >= MinDelta
    ensures s.latitudeDelta >= Padding * Abs(a.latitude - b.latitude)
    ensures s.latitudeDelta == MinDelta || s.latitudeDelta == Padding * Abs(a.latitude - b.latitude)
    ensures s.longitudeDelta >= MinDelta
    ensures s.longitudeDelta >= Padding * Abs(a.longitude - b.longitude)
    ensures s.longitudeDelta == MinDelta || s.longitudeDelta == Padding * Abs(a.longitude - b.longitude)
  {
    var latDelta := Abs(a.latitude - b.latitude) * Padding;
    var lonDelta := Abs(a.longitude - b.longitude) * Padding;
    Span(Max(MinDelta, latDelta), Max(MinDelta, lonDelta))
  }

  /** The region the preview is set to. */
  function PreviewRegion(a: Coordinate, b: Coordinate): Region
  {
    Region(Midpoint(a, b), SpanToShowBoth(a, b))
  }

  /** Neither helper cares which of the two points comes first. */
  lemma PreviewSymmetric(a: Coordinate, b: Coordinate)
    ensures Midpoint(a, b) == Midpoint(b, a)
    ensures SpanToShowBoth(a, b) == SpanToShowBoth(b, a)
    ensures PreviewRegion(a, b) == PreviewRegion(b, a)
  {
  }

  /** A point lies strictly inside the rectangle a region shows. */
  predicate Shows(r: Region, p: Coordinate) {
    && 2.0 * Abs(p.latitude - r.center.latitude) < r.span.latitudeDelta
    && 2.0 * Abs(p.longitude - r.center.longitude) < r.span.longitudeDelta
  }

  /**
    Both pins are inside the preview, with a margin of at least a sixth of the
    span on each side: each lies a third of the span or less from the centre.
   */
  lemma PreviewShowsBoth(a: Coordinate, b: Coordinate)
    ensures Shows(PreviewRegion(a, b), a)
    ensures Shows(PreviewRegion(a, b), b)
    ensures 3.0 * Abs(a.latitude - Midpoint(a, b).latitude) <= SpanToShowBoth(a, b).latitudeDelta
    ensures 3.0 * Abs(a.longitude - Midpoint(a, b).longitude) <= SpanToShowBoth(a, b).longitudeDelta
  {
  }
}
