/** The aircraft record that the parser, the target selection and the feed worker share. */
module AircraftRecord {
  import opened Common

  datatype Position = Position(latitude: real, longitude: real)

  /** A callsign's route: airport codes and, where known, their positions. */
  datatype Route = Route(from: string, to: string, origin: Option<Position>,
                         destination: Option<Position>, airline: string)

  const NO_ROUTE := Route("", "", None, None, "")

  /** `altitudeFt`, `verticalRateFpm` and `track` are None where the source's flag says invalid. */
  datatype Aircraft = Aircraft(
    hex: string, callsign: string, registration: string, ground: bool,
    altitudeFt: Option<int>, verticalRateFpm: Option<int>, track: Option<real>,
    position: Position, distanceNm: real, seenPosS: real,
    routeValid: bool, route: Route, routeConfirmed: bool)

  const NOBODY := Aircraft("", "", "", false, None, None, None, Position(0.0, 0.0), 0.0, 0.0,
                           false, NO_ROUTE, false)
}
