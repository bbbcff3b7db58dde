/**
  Points, coordinate reference systems and the host services the measuring
  tool calls. Every service is floating point or a foreign library call, so
  the model receives it as a function value and knows nothing about it
  beyond its signature.
*/
module Geo {
  import opened Optional

  /** A map-coordinate point (QgsPointXY). */
  datatype Point = Point(x: real, y: real)

  /** A coordinate reference system: its authority id and whether it is longitude/latitude. */
  datatype Crs = Crs(authid: string, geographic: bool)

  /** The configuration of a QgsDistanceArea: the source CRS and the ellipsoid it measures on. */
  datatype DistanceArea = DistanceArea(sourceCrs: Crs, ellipsoid: string)

  /**
    What the host reports at the instant an event is handled: the canvas
    destination CRS and the project's ellipsoid string, taken as it is.
  */
  datatype Env = Env(crs: Crs, projectEllipsoid: string)

  const DefaultEllipsoid: string := "WGS84"
  const MetresPerNauticalMile: real := 1852.0

  /**
    The host services, injected:
    - measureLength: geodesic length of the segment between two points;
    - round: Python's `round(value, ndigits)`;
    - fmt4: the `:.4f` text rendering of a number;
    - toWgs84: transformation of a point from a CRS to EPSG:4326.
    The project's coordinate transform context is taken as fixed and folded
    into measureLength and toWgs84.
  */
  datatype Services = Services(
    measureLength: (DistanceArea, Point, Point) -> real,
    round: (real, nat) -> real,
    fmt4: real -> string,
    toWgs84: (Crs, Point) -> Point)

  /**
    A distance calculator configured from the canvas CRS and the project's
    ellipsoid string, used as it is unless it is empty, in which case WGS84.
  */
  function Calculator(env: Env): (da: DistanceArea)
    ensures da.sourceCrs == env.crs
    ensures da.ellipsoid != ""
    ensures env.projectEllipsoid != "" ==> da.ellipsoid == env.projectEllipsoid
    ensures env.projectEllipsoid == "" ==> da.ellipsoid == DefaultEllipsoid
  {
    DistanceArea(env.crs, if env.projectEllipsoid != "" then env.projectEllipsoid else DefaultEllipsoid)
  }

  /** A click point as stored in the table: both coordinates rounded to six decimals. */
  function Round6(svc: Services, p: Point): Point
  {
    Point(svc.round(p.x, 6), svc.round(p.y, 6))
  }

  /** A point re-expressed in longitude/latitude; a geographic CRS passes it through untouched. */
  function ToGeographic(svc: Services, crs: Crs, p: Point): (g: Point)
    ensures crs.geographic ==> g == p
    ensures !crs.geographic ==> g == svc.toWgs84(crs, p)
  {
    if crs.geographic then p else svc.toWgs84(crs, p)
  }

  /** The "<latitude>, <longitude>" text of a longitude/latitude point. */
  function LatLonText(svc: Services, g: Point): string
  {
    svc.fmt4(g.y) + ", " + svc.fmt4(g.x)
  }

  /** Position of the first comma in `t`, or |t| when there is none. */
  function FirstComma(t: string): (k: nat)
    ensures k <= |t|
    ensures forall j :: 0 <= j < k ==> t[j] != ','
    ensures k < |t| ==> t[k] == ','
  {
    if |t| == 0 then 0
    else if t[0] == ',' then 0
    else 1 + FirstComma(t[1..])
  }

  /** Reads a "<first>, <second>" text back into its two fields, splitting at the first comma. */
  function SplitFields(t: string): Option<(string, string)>
  {
    var k := FirstComma(t);
    if k + 1 < |t| && t[k + 1] == ' ' then Some((t[..k], t[k + 2..])) else None
  }

  lemma FirstCommaAfter(a: string, b: string)
    requires ',' !in a
    requires |b| > 0 && b[0] == ','
    ensures FirstComma(a + b) == |a|
  {
    var t := a + b;
    var k := FirstComma(t);
    assert t[|a|] == ',';
    assert forall j :: 0 <= j < |a| ==> t[j] == a[j];
  }

  /**
    The coordinate text is latitude first: reading it back at the first comma
    yields the latitude field, then the longitude field. `:.4f` never writes
    a comma, so the requirement always holds for the host's formatter.
  */
  lemma LatitudeFirst(svc: Services, g: Point)
    requires ',' !in svc.fmt4(g.y)
    ensures SplitFields(LatLonText(svc, g)) == Some((svc.fmt4(g.y), svc.fmt4(g.x)))
  {
    var lat, lon := svc.fmt4(g.y), svc.fmt4(g.x);
    var t := lat + ", " + lon;
    assert t == lat + (", " + lon);
    FirstCommaAfter(lat, ", " + lon);
    assert t[..|lat|] == lat;
    assert t[|lat| + 2..] == lon;
  }
}
