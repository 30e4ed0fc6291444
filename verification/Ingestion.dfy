/** What happens to one CAN frame before publishing: filtering by arbitration
    id, decoding, minting the event, and the range check. */
module Ingestion {
  import opened Telemetry
  import opened CanSignalMap

  datatype Frame = Frame(canId: int, data: seq<Byte>)

  /** What the receiving side adds to a frame; raw frames carry none of it. */
  datatype Context = Context(eventId: nat, sessionId: string, vehicleId: string, timestamp: real)

  /** Ignored: not a telemetry id, or a payload that is too short. */
  datatype Arrival = Ignored | Rejected(event: Event) | Accepted(event: Event)

  function IngestFrame(frame: Frame, context: Context): Option<Event> {
    if Registry(frame.canId).None? then None else
    match DecodeSignal(frame.canId, frame.data)
    case Err(_) => None
    case Ok(d) => Some(Event(context.eventId, context.sessionId, context.vehicleId,
                             d.ecu, d.canId, d.signal, d.value, context.timestamp))
  }

  predicate ValidateEvent(event: Event)
    requires Registry(event.canId).Some?
  {
    var definition := Registry(event.canId).value;
    definition.low <= event.value <= definition.high
  }

  function Receive(frame: Frame, context: Context): Arrival {
    match IngestFrame(frame, context)
    case None => Ignored
    case Some(event) => if ValidateEvent(event) then Accepted(event) else Rejected(event)
  }

  /** A received event carries the identity it was given. */
  lemma ReceiveKeepsContext(frame: Frame, context: Context)
    requires !Receive(frame, context).Ignored?
    ensures var event := Receive(frame, context).event;
            && event.eventId == context.eventId && event.sessionId == context.sessionId
            && event.vehicleId == context.vehicleId && event.timestamp == context.timestamp
  {
  }

  // --- which frames are ignored, rejected and accepted ---

  const TELEMETRY_CAN_IDS: set<int> :=
    {0x100, 0x101, 0x102, 0x200, 0x201, 0x202, 0x203, 0x300, 0x301, 0x302, 0x303}

  /** A telemetry id and at least the eight bytes of a full payload. */
  predicate IsReadable(frame: Frame) {
    frame.canId in TELEMETRY_CAN_IDS && |frame.data| >= 8
  }

  lemma TelemetryIdsAreRegistered(canId: int)
    ensures canId in TELEMETRY_CAN_IDS <==> Registry(canId).Some?
  {
  }

  /** The word a readable frame carries. */
  function Word(frame: Frame): int
    requires IsReadable(frame)
  {
    var definition := Registry(frame.canId).value;
    Unpack(definition.dtype, frame.data[..ByteLength(definition.dtype)])
  }

  predicate CarriesValidWord(frame: Frame) {
    IsReadable(frame) && RawRange(frame.canId).0 <= Word(frame) <= RawRange(frame.canId).1
  }

  predicate CarriesInvalidWord(frame: Frame) {
    IsReadable(frame) && !(RawRange(frame.canId).0 <= Word(frame) <= RawRange(frame.canId).1)
  }

  /** The three outcomes, read off the frame: unreadable frames are ignored, of
      the others those whose word lies in the signal's range are accepted, and
      those whose word lies below or above it are rejected. The event carries
      the word's value. */
  lemma ReceiveIsExact(frame: Frame, context: Context)
    ensures var r := Receive(frame, context);
            && (r.Ignored? <==> !IsReadable(frame))
            && (r.Accepted? <==> CarriesValidWord(frame))
            && (r.Rejected? <==> CarriesInvalidWord(frame))
    ensures IsReadable(frame) ==>
            var definition := Registry(frame.canId).value;
            Receive(frame, context).event ==
            Event(context.eventId, context.sessionId, context.vehicleId, definition.ecu, frame.canId, definition.signal,
                  Word(frame) as real * definition.scale + definition.offset, context.timestamp)
  {
    TelemetryIdsAreRegistered(frame.canId);
    if IsReadable(frame) {
      RawRangeIsExact(frame.canId);
    }
  }

  predicate IsAccepted(frame: Frame) {
    Receive(frame, Context(0, "", "", 0.0)).Accepted?
  }

  /** Acceptance is a property of the bytes alone. */
  lemma AcceptanceIgnoresContext(frame: Frame, context: Context)
    ensures Receive(frame, context).Accepted? <==> IsAccepted(frame)
    ensures Receive(frame, context).Ignored? <==>
            Registry(frame.canId).None? || |frame.data| < CAN_PAYLOAD_LENGTH
  {
  }

  lemma EncodedRawIsAccepted(canId: int, value: real)
    requires Registry(canId).Some?
    requires RawRange(canId).0 <= RawValue(Registry(canId).value, value) <= RawRange(canId).1
    ensures Encode(canId, value).Ok? && IsAccepted(Frame(canId, Encode(canId, value).value))
  {
    RawRangeIsExact(canId);
    var definition := Registry(canId).value;
    EncodedDecodesToRaw(canId, value);
  }
}
