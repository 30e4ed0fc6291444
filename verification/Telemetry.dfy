/** The vocabulary every component shares: optional and failing results, the
    ECUs, the eleven signals, the decoded telemetry event and its MQTT topic. */
module Telemetry {

  datatype Option<+T> = None | Some(value: T)

  datatype Result<+T, +E> = Ok(value: T) | Err(error: E)

  datatype ECU = Powertrain | Battery | Body

  datatype Signal =
    | VehicleSpeedKph
    | EngineRpm
    | ThrottlePositionPct
    | BatterySocPct
    | BatteryVoltageV
    | BatteryCurrentA
    | BatteryTempC
    | DoorStatusBitmask
    | IndicatorState
    | OdometerKm
    | AmbientTempC

  /** A decoded reading. `eventId` stands for the UUID minted when the frame was
      decoded; minted ids are never repeated, so they are numbered in the order
      in which the frames arrived. */
  datatype Event = Event(eventId: nat, sessionId: string, vehicleId: string, ecu: ECU,
                         canId: int, signal: Signal, value: real, timestamp: real)

  datatype Topic = Topic(vehicleId: string, ecu: ECU, signal: Signal)

  function BuildTopic(event: Event): Topic {
    Topic(event.vehicleId, event.ecu, event.signal)
  }

  /** How many elements of a list have a property. */
  function CountIf<T>(list: seq<T>, p: T -> bool): nat {
    if list == [] then 0 else CountIf(list[..|list| - 1], p) + (if p(list[|list| - 1]) then 1 else 0)
  }

  lemma CountIfAppend<T>(list: seq<T>, x: T, p: T -> bool)
    ensures CountIf(list + [x], p) == CountIf(list, p) + (if p(x) then 1 else 0)
  {
    assert (list + [x])[..|list|] == list;
  }

  ghost predicate Distinct<T>(list: seq<T>) {
    forall i, j :: 0 <= i < j < |list| ==> list[i] != list[j]
  }

  /** The ids of a list, as a set. */
  function IdSet(ids: seq<nat>): (s: set<nat>)
    ensures forall i :: i in s <==> i in ids
  {
    set i | i in ids
  }
}
