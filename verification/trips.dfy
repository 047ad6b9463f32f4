/** The trip record the back end returns, restricted to the fields the pages compute with.
    Coordinates are integers in ten-thousandths of a degree and timestamps are integer
    milliseconds; fields that are only displayed (weights, cargo type, carrier, notes) are not
    part of this model. */
module Trips {
  import opened Common

  /** A `[latitud, longitud]` pair, in ten-thousandths of a degree. */
  datatype Point = Point(lat: int, lng: int)

  /** One sample of the carrier's position in `rutaCompleta`. */
  datatype RoutePoint = RoutePoint(latitud: int, longitud: int, timestamp: int, velocidad: Option<int>)

  /** A milestone the carrier reports; `estado` is one of the check-in states or any other string. */
  datatype CheckIn = CheckIn(
    id: Option<string>,
    estado: string,
    timestamp: int,
    ubicacion: Option<Point>,
    notas: Option<string>)

  /** The `origen` / `destino` sub-record. */
  datatype Place = Place(
    direccion: Option<string>,
    ciudad: Option<string>,
    provincia: Option<string>,
    coordenadas: Option<Point>)

  /** The `precios` sub-record; a price of 0 is falsy, as in JavaScript. */
  datatype Precios = Precios(precioBase: Option<int>, precioPropuesto: Option<int>, precioConfirmado: Option<int>)

  datatype Trip = Trip(
    id: string,
    numeroViaje: Option<string>,
    estado: string,
    subEstado: Option<string>,
    origen: Option<Place>,
    destino: Option<Place>,
    precios: Option<Precios>,
    trackingActivo: bool,
    rutaCompleta: Option<seq<RoutePoint>>,
    checkIns: Option<seq<CheckIn>>,
    createdAt: Option<string>,
    updatedAt: Option<string>)

  /** JavaScript truthiness of an optional number: present and not 0. */
  predicate NumberTruthy(n: Option<int>) {
    n.Some? && n.value != 0
  }

  /** `trip.origen?.ciudad` */
  function OrigenCiudad(t: Trip): Option<string> {
    if t.origen.Some? then t.origen.value.ciudad else None
  }

  /** `trip.destino?.ciudad` */
  function DestinoCiudad(t: Trip): Option<string> {
    if t.destino.Some? then t.destino.value.ciudad else None
  }
}
