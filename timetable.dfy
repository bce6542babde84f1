/** The shape of `data.json`: what the data preparation writes and the
    renderer reads. Fields the renderer treats the same whether they are
    missing or empty (`sections`, `days`, `buses`) are plain collections;
    `busTypeOrder`, whose absence selects a default, is optional. */
module Timetable {
  import opened Wrappers
  import opened Text

  /** One stop of a trip: `{"stop": ..., "time": ...}`. */
  datatype StopTime = StopTime(stop: string, time: string)

  /** `trip_id` as written to JSON: a number when the raw identifier is all
      digits, the raw text otherwise. */
  datatype TripId = Number(n: nat) | Label(text: string)

  datatype Trip = Trip(tripId: TripId, startTime: string, endTime: string, stops: seq<StopTime>)

  /** A day type with its trips per bus type. */
  datatype Day = Day(name: string, buses: map<string, seq<Trip>>)

  /** One direction of travel. */
  datatype Section = Section(id: string, title: string, busTypeOrder: Option<seq<string>>, days: seq<Day>)

  datatype Document = Document(sections: seq<Section>)

  /** Python's `str(trip_id)` of the identifier as written out. */
  function IdText(id: TripId): string
  {
    match id
    case Number(n) => NatToString(n)
    case Label(t) => t
  }

  function StopNames(stops: seq<StopTime>): seq<string>
  {
    seq(|stops|, i requires 0 <= i < |stops| => stops[i].stop)
  }
}
