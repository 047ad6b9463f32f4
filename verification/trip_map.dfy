/** The map panel of a trip: which markers it places, the points it fits the view to, its
    centre, and the planned and traveled lines, or a "no coordinates" message instead. */
module TripMap {
  import opened Common
  import opened Trips

  /** `[-34.6037, -58.3816]`, Buenos Aires, in ten-thousandths of a degree. */
  const DefaultCenter := Point(-346037, -583816)

  /** The points the component derives before deciding what to draw. */
  datatype Geometry = Geometry(
    origin: Option<Point>,
    destination: Option<Point>,
    current: Option<Point>,
    bounds: seq<Point>,
    routePoints: seq<Point>,
    center: Point)

  datatype MapView =
    | NoCoordinates        // "No hay coordenadas disponibles para mostrar el mapa"
    | Shown(
        center: Point,
        fitTo: Option<seq<Point>>,           // what `MapBounds` passes to `fitBounds`
        originMarker: Option<Point>,
        destinationMarker: Option<Point>,
        currentMarker: Option<Point>,
        plannedLine: Option<seq<Point>>,     // dashed gray origin -> destination
        traveledLine: Option<seq<Point>>)    // solid blue through the route

  /** `place?.coordenadas ? [latitud, longitud] : null` */
  function Coordinates(place: Option<Place>): (p: Option<Point>)
    ensures p.Some? <==> place.Some? && place.value.coordenadas.Some?
    ensures p.Some? ==> p.value == place.value.coordenadas.value
  {
    if place.Some? then place.value.coordenadas else None
  }

  /** `route.map(point => [point.latitud, point.longitud])` */
  function RoutePoints(route: seq<RoutePoint>): (ps: seq<Point>)
    ensures |ps| == |route|
    ensures forall i :: 0 <= i < |route| ==> ps[i] == Point(route[i].latitud, route[i].longitud)
  {
    seq(|route|, i requires 0 <= i < |route| => Point(route[i].latitud, route[i].longitud))
  }

  /** The present points among origin, destination and current, pushed in that order. */
  function Bounds(origin: Option<Point>, destination: Option<Point>, current: Option<Point>): seq<Point>
  {
    (if origin.Some? then [origin.value] else []) +
    (if destination.Some? then [destination.value] else []) +
    (if current.Some? then [current.value] else [])
  }

  /** The derivation at the top of the component. `currentLocation` is absent when the caller
      passes `undefined`, and `route` defaults to the empty list. */
  function Derive(trip: Trip, currentLocation: Option<RoutePoint>, route: seq<RoutePoint>): (g: Geometry)
    ensures g.origin == Coordinates(trip.origen) && g.destination == Coordinates(trip.destino)
    ensures g.current.Some? <==> currentLocation.Some?
    ensures g.current.Some? ==> g.current.value == Point(currentLocation.value.latitud, currentLocation.value.longitud)
    ensures |g.bounds| <= 3
    ensures |g.bounds| == 0 <==> g.origin.None? && g.destination.None? && g.current.None?
    ensures |g.bounds| > 0 ==> g.center == g.bounds[0]
    ensures |g.bounds| == 0 ==> g.center == DefaultCenter
    ensures g.bounds == Bounds(g.origin, g.destination, g.current)
    ensures g.center == (if g.origin.Some? then g.origin.value
                         else if g.destination.Some? then g.destination.value
                         else if g.current.Some? then g.current.value
                         else DefaultCenter)
  {
    var origin := Coordinates(trip.origen);
    var destination := Coordinates(trip.destino);
    var current := if currentLocation.Some?
      then Some(Point(currentLocation.value.latitud, currentLocation.value.longitud)) else None;
    var bounds := Bounds(origin, destination, current);
    var center := if |bounds| > 0 then bounds[0] else DefaultCenter;
    Geometry(origin, destination, current, bounds, RoutePoints(route), center)
  }

  /** `MapBounds`: fit the view only to a non-empty list of bounds. */
  function FitBounds(bounds: seq<Point>): (fit: Option<seq<Point>>)
    ensures fit.Some? <==> |bounds| > 0
    ensures fit.Some? ==> fit.value == bounds
  {
    if |bounds| > 0 then Some(bounds) else None
  }

  /** What the component draws. */
  function Render(trip: Trip, currentLocation: Option<RoutePoint>, route: seq<RoutePoint>): (v: MapView)
    ensures var g := Derive(trip, currentLocation, route);
            && (v.NoCoordinates? <==> g.origin.None? && g.destination.None? && g.current.None?)
            && (v.Shown? ==> v.center == g.center && v.center in g.bounds && v.fitTo == Some(g.bounds))
            && (v.Shown? ==> v.originMarker == g.origin && v.destinationMarker == g.destination
                             && v.currentMarker == g.current)
            && (v.Shown? ==> (v.plannedLine.Some? <==> g.origin.Some? && g.destination.Some?))
            && (v.Shown? && v.plannedLine.Some? ==> v.plannedLine.value == [g.origin.value, g.destination.value])
            && (v.Shown? ==> (v.traveledLine.Some? <==> |route| > 1))
            && (v.Shown? && v.traveledLine.Some? ==> v.traveledLine.value == g.routePoints)
  {
    var g := Derive(trip, currentLocation, route);
    if g.origin.None? && g.destination.None? && g.current.None? then NoCoordinates
    else
      Shown(
        g.center,
        FitBounds(g.bounds),
        g.origin,
        g.destination,
        g.current,
        if g.origin.Some? && g.destination.Some? then Some([g.origin.value, g.destination.value]) else None,
        if |g.routePoints| > 1 then Some(g.routePoints) else None)
  }

  /** The bounds are exactly the present points, in the fixed order origin, destination,
      current: each present point sits at the index given by how many present points
      precede it. */
  lemma BoundsOrder(o: Option<Point>, d: Option<Point>, c: Option<Point>)
    ensures var b := Bounds(o, d, c);
            && |b| == (if o.Some? then 1 else 0) + (if d.Some? then 1 else 0) + (if c.Some? then 1 else 0)
            && (o.Some? ==> b[0] == o.value)
            && (d.Some? ==> b[if o.Some? then 1 else 0] == d.value)
            && (c.Some? ==> b[|b| - 1] == c.value)
            && (forall p :: p in b <==> (o == Some(p) || d == Some(p) || c == Some(p)))
  {
    var b := Bounds(o, d, c);
    var bo := if o.Some? then [o.value] else [];
    var bd := if d.Some? then [d.value] else [];
    var bc := if c.Some? then [c.value] else [];
    assert b == bo + bd + bc;
    forall p ensures p in b <==> (o == Some(p) || d == Some(p) || c == Some(p)) {
      assert p in b <==> p in bo || p in bd || p in bc;
    }
  }

  /** The worked example of three present points: all three are fitted in order, the planned
      line joins origin to destination, and a route of fewer than two points draws no
      traveled line. */
  lemma ThreePointExample(trip: Trip, here: RoutePoint)
    requires trip.origen == Some(Place(None, None, None, Some(Point(-340000, -580000))))
    requires trip.destino == Some(Place(None, None, None, Some(Point(-339000, -610000))))
    requires here.latitud == -345000 && here.longitud == -600000
    ensures var v := Render(trip, Some(here), [here]);
            && v.Shown?
            && v.fitTo == Some([Point(-340000, -580000), Point(-339000, -610000), Point(-345000, -600000)])
            && v.plannedLine == Some([Point(-340000, -580000), Point(-339000, -610000)])
            && v.traveledLine.None?
            && v.center == Point(-340000, -580000)
  {
    var o, d, c := Point(-340000, -580000), Point(-339000, -610000), Point(-345000, -600000);
    assert Bounds(Some(o), Some(d), Some(c)) == [o] + [d] + [c] == [o, d, c];
  }
}
