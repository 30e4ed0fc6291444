/** The CAN signal registry with its encoder and decoder. Scales, offsets and
    values are exact rationals. */
module CanSignalMap {
  import opened Telemetry

  type Byte = b: int | 0 <= b < 256

  const CAN_PAYLOAD_LENGTH := 8

  datatype DType = UInt8 | Int16 | UInt16 | UInt32

  datatype SignalDefinition = SignalDefinition(ecu: ECU, signal: Signal, dtype: DType,
                                               scale: real, offset: real, low: real, high: real)

  datatype CodecError = UnknownCanId | DoesNotFit(raw: int) | PayloadTooShort

  datatype DecodedSignal = DecodedSignal(ecu: ECU, signal: Signal, canId: int, value: real)

  function Registry(canId: int): Option<SignalDefinition> {
    if canId == 0x100 then Some(SignalDefinition(Powertrain, VehicleSpeedKph, UInt16, 0.1, 0.0, 0.0, 250.0))
    else if canId == 0x101 then Some(SignalDefinition(Powertrain, EngineRpm, UInt16, 1.0, 0.0, 0.0, 8000.0))
    else if canId == 0x102 then Some(SignalDefinition(Powertrain, ThrottlePositionPct, UInt8, 1.0, 0.0, 0.0, 100.0))
    else if canId == 0x200 then Some(SignalDefinition(Battery, BatterySocPct, UInt16, 0.1, 0.0, 0.0, 100.0))
    else if canId == 0x201 then Some(SignalDefinition(Battery, BatteryVoltageV, UInt16, 0.1, 0.0, 0.0, 500.0))
    else if canId == 0x202 then Some(SignalDefinition(Battery, BatteryCurrentA, Int16, 0.1, 0.0, -500.0, 500.0))
    else if canId == 0x203 then Some(SignalDefinition(Battery, BatteryTempC, UInt8, 1.0, -40.0, -40.0, 120.0))
    else if canId == 0x300 then Some(SignalDefinition(Body, DoorStatusBitmask, UInt8, 1.0, 0.0, 0.0, 15.0))
    else if canId == 0x301 then Some(SignalDefinition(Body, IndicatorState, UInt8, 1.0, 0.0, 0.0, 3.0))
    else if canId == 0x302 then Some(SignalDefinition(Body, OdometerKm, UInt32, 1.0, 0.0, 0.0, 999999.0))
    else if canId == 0x303 then Some(SignalDefinition(Body, AmbientTempC, UInt8, 1.0, -40.0, -40.0, 60.0))
    else None
  }

  // --- Python's round(), to the nearest integer with ties to the even one ---

  function RoundHalfEven(x: real): (n: int)
    ensures -0.5 <= x - n as real <= 0.5
    ensures (x - n as real == 0.5 || x - n as real == -0.5) ==> n % 2 == 0
  {
    var below := x.Floor;
    var rest := x - below as real;
    if rest < 0.5 || (rest == 0.5 && below % 2 == 0) then below else below + 1
  }

  /** Rounding never crosses an integer bound. */
  lemma RoundingStaysBetweenIntegers(x: real, low: int, high: int)
    requires low as real <= x <= high as real
    ensures low <= RoundHalfEven(x) <= high
  {
  }

  // --- struct.pack / struct.unpack, little-endian ---

  function ByteLength(dtype: DType): nat {
    match dtype
    case UInt8 => 1
    case Int16 => 2
    case UInt16 => 2
    case UInt32 => 4
  }

  predicate Fits(dtype: DType, raw: int) {
    match dtype
    case UInt8 => 0 <= raw < 0x100
    case Int16 => -0x8000 <= raw < 0x8000
    case UInt16 => 0 <= raw < 0x1_0000
    case UInt32 => 0 <= raw < 0x1_0000_0000
  }

  function LittleEndian(length: nat, value: nat): (bytes: seq<Byte>)
    ensures |bytes| == length
  {
    if length == 0 then [] else [value % 256] + LittleEndian(length - 1, value / 256)
  }

  function FromLittleEndian(bytes: seq<Byte>): nat {
    if bytes == [] then 0 else bytes[0] + 256 * FromLittleEndian(bytes[1..])
  }

  function Capacity(length: nat): (n: nat)
    ensures n > 0
  {
    if length == 0 then 1 else 256 * Capacity(length - 1)
  }

  lemma {:induction false} FromLittleEndianInverts(length: nat, value: nat)
    requires value < Capacity(length)
    ensures FromLittleEndian(LittleEndian(length, value)) == value
  {
    if length > 0 {
      FromLittleEndianInverts(length - 1, value / 256);
      assert LittleEndian(length, value)[1..] == LittleEndian(length - 1, value / 256);
    }
  }

  lemma {:induction false} LittleEndianInverts(bytes: seq<Byte>)
    ensures FromLittleEndian(bytes) < Capacity(|bytes|)
    ensures LittleEndian(|bytes|, FromLittleEndian(bytes)) == bytes
  {
    if bytes != [] {
      var rest := FromLittleEndian(bytes[1..]);
      LittleEndianInverts(bytes[1..]);
      assert (bytes[0] + 256 * rest) % 256 == bytes[0] && (bytes[0] + 256 * rest) / 256 == rest;
      assert bytes == [bytes[0]] + bytes[1..];
    }
  }

  lemma QuotientsAgree(d: nat, q: nat, r: nat, q': nat, r': nat)
    requires d * q + r == d * q' + r' && r < d && r' < d
    ensures q == q'
  {
    if q != q' {
      var more, less := if q > q' then q else q', if q > q' then q' else q;
      MultiplesDiffer(d, more, less);
      assert false;
    }
  }

  lemma {:induction false} MultiplesDiffer(d: nat, more: nat, less: nat)
    requires more > less
    ensures d * more >= d * less + d
  {
    var before := more - 1;
    assert d * (before + 1) == d * before + d;
    if before > less {
      MultiplesDiffer(d, before, less);
    }
  }

  lemma QuotientOf(value: nat, d: nat, q: nat, r: nat)
    requires value == d * q + r && r < d
    ensures value / d == q
  {
    QuotientsAgree(d, q, r, value / d, value % d);
  }

  lemma DivideAgain(value: nat, d: nat)
    requires d > 0
    ensures value / (256 * d) == value / 256 / d
  {
    var q, r := value / 256, value % 256;
    var q', r' := q / d, q % d;
    assert q == d * q' + r';
    assert 256 * (d * q') == (256 * d) * q';
    QuotientOf(value, 256 * d, q', 256 * r' + r);
  }

  /** Byte i carries the value's i-th digit to the base 256, lowest first. */
  lemma {:induction false} LittleEndianDigit(length: nat, value: nat, i: nat)
    requires i < length
    ensures LittleEndian(length, value)[i] == value / Capacity(i) % 256
  {
    if i == 0 {
      assert Capacity(0) == 1;
    } else {
      LittleEndianDigit(length - 1, value / 256, i - 1);
      DivideAgain(value, Capacity(i - 1));
    }
  }

  function Pack(dtype: DType, raw: int): (bytes: seq<Byte>)
    requires Fits(dtype, raw)
    ensures |bytes| == ByteLength(dtype)
  {
    LittleEndian(ByteLength(dtype), if dtype == Int16 && raw < 0 then raw + 0x1_0000 else raw)
  }

  function Unpack(dtype: DType, bytes: seq<Byte>): int
    requires |bytes| == ByteLength(dtype)
  {
    var word := FromLittleEndian(bytes);
    if dtype == Int16 && word >= 0x8000 then word - 0x1_0000 else word
  }

  lemma CapacityOf(dtype: DType)
    ensures Capacity(ByteLength(dtype)) ==
            match dtype case UInt8 => 0x100 case Int16 => 0x1_0000 case UInt16 => 0x1_0000 case UInt32 => 0x1_0000_0000
  {
    assert Capacity(0) == 1 && Capacity(1) == 0x100 && Capacity(2) == 0x1_0000 && Capacity(3) == 0x100_0000;
    assert Capacity(4) == 256 * Capacity(3);
  }

  lemma UnpackInvertsPack(dtype: DType, raw: int)
    requires Fits(dtype, raw)
    ensures Unpack(dtype, Pack(dtype, raw)) == raw
  {
    CapacityOf(dtype);
    FromLittleEndianInverts(ByteLength(dtype), if dtype == Int16 && raw < 0 then raw + 0x1_0000 else raw);
  }

  lemma PackInvertsUnpack(dtype: DType, bytes: seq<Byte>)
    requires |bytes| == ByteLength(dtype)
    ensures Fits(dtype, Unpack(dtype, bytes)) && Pack(dtype, Unpack(dtype, bytes)) == bytes
  {
    CapacityOf(dtype);
    LittleEndianInverts(bytes);
  }

  // --- encode_signal / decode_signal ---

  function RawValue(definition: SignalDefinition, value: real): int
    requires definition.scale > 0.0
  {
    RoundHalfEven((value - definition.offset) / definition.scale)
  }

  function Zeros(n: nat): (bytes: seq<Byte>)
    ensures |bytes| == n && forall i :: 0 <= i < n ==> bytes[i] == 0
  {
    seq(n, _ => 0)
  }

  function Padded(packed: seq<Byte>): seq<Byte>
    requires |packed| <= CAN_PAYLOAD_LENGTH
  {
    packed + Zeros(CAN_PAYLOAD_LENGTH - |packed|)
  }

  function Encode(canId: int, value: real): Result<seq<Byte>, CodecError> {
    match Registry(canId)
    case None => Err(UnknownCanId)
    case Some(definition) =>
      var raw := RawValue(definition, value);
      if Fits(definition.dtype, raw) then Ok(Padded(Pack(definition.dtype, raw))) else Err(DoesNotFit(raw))
  }

  /** `encode_signal`: the packed bytes are written over the front of a zeroed
      eight-byte buffer. */
  method EncodeSignal(canId: int, value: real) returns (r: Result<seq<Byte>, CodecError>)
    ensures r == Encode(canId, value)
  {
    var found := Registry(canId);
    if found.None? {
      return Err(UnknownCanId);
    }
    var definition := found.value;
    var raw := RawValue(definition, value);
    if !Fits(definition.dtype, raw) {
      return Err(DoesNotFit(raw));
    }
    var packed := Pack(definition.dtype, raw);
    var payload := new Byte[CAN_PAYLOAD_LENGTH](_ => 0);
    for i := 0 to |packed|
      invariant payload[..i] == packed[..i]
      invariant forall k :: i <= k < CAN_PAYLOAD_LENGTH ==> payload[k] == 0
    {
      payload[i] := packed[i];
    }
    assert payload[..] == Padded(packed);
    return Ok(payload[..]);
  }

  function DecodeSignal(canId: int, data: seq<Byte>): Result<DecodedSignal, CodecError> {
    match Registry(canId)
    case None => Err(UnknownCanId)
    case Some(definition) =>
      if |data| < CAN_PAYLOAD_LENGTH then Err(PayloadTooShort) else
      var raw := Unpack(definition.dtype, data[..ByteLength(definition.dtype)]);
      Ok(DecodedSignal(definition.ecu, definition.signal, canId, raw as real * definition.scale + definition.offset))
  }

  // --- what the codec promises ---

  lemma EncodedDecodesToRaw(canId: int, value: real)
    requires Registry(canId).Some? && Encode(canId, value).Ok?
    ensures var definition := Registry(canId).value;
            DecodeSignal(canId, Encode(canId, value).value) ==
            Ok(DecodedSignal(definition.ecu, definition.signal, canId,
                             RawValue(definition, value) as real * definition.scale + definition.offset))
  {
    var definition := Registry(canId).value;
    var packed := Pack(definition.dtype, RawValue(definition, value));
    assert Padded(packed)[..ByteLength(definition.dtype)] == packed;
    UnpackInvertsPack(definition.dtype, RawValue(definition, value));
  }

  /** Whatever can be encoded comes back within half a scale step. */
  lemma DecodeOfEncodeIsNear(canId: int, value: real)
    requires Encode(canId, value).Ok?
    ensures var definition := Registry(canId).value;
            var decoded := DecodeSignal(canId, Encode(canId, value).value);
            decoded.Ok? && decoded.value.signal == definition.signal && decoded.value.ecu == definition.ecu &&
            -(definition.scale / 2.0) <= decoded.value.value - value <= definition.scale / 2.0
  {
    EncodedDecodesToRaw(canId, value);
    var definition := Registry(canId).value;
    assert definition.scale == 0.1 || definition.scale == 1.0;
  }

  /** Re-encoding a decoded payload restores the signal's bytes and zeroes the rest. */
  lemma EncodeOfDecodeRestoresPayload(canId: int, data: seq<Byte>)
    requires DecodeSignal(canId, data).Ok?
    ensures Encode(canId, DecodeSignal(canId, data).value.value) ==
            Ok(Padded(data[..ByteLength(Registry(canId).value.dtype)]))
  {
    RawRangeIsExact(canId);
    var definition := Registry(canId).value;
    var bytes := data[..ByteLength(definition.dtype)];
    var raw := Unpack(definition.dtype, bytes);
    PackInvertsUnpack(definition.dtype, bytes);
    var value := DecodeSignal(canId, data).value.value;
    assert value == raw as real * definition.scale + definition.offset;
    assert RawValue(definition, value) == raw;
  }

  predicate InRange(canId: int, value: real) {
    Registry(canId).Some? && Registry(canId).value.low <= value <= Registry(canId).value.high
  }

  /** The raw words that the ends of a signal's valid range stand for. */
  function RawRange(canId: int): (int, int) {
    if canId == 0x100 then (0, 2500) else if canId == 0x101 then (0, 8000) else if canId == 0x102 then (0, 100)
    else if canId == 0x200 then (0, 1000) else if canId == 0x201 then (0, 5000)
    else if canId == 0x202 then (-5000, 5000) else if canId == 0x203 then (0, 160)
    else if canId == 0x300 then (0, 15) else if canId == 0x301 then (0, 3)
    else if canId == 0x302 then (0, 999999) else (0, 100)
  }

  lemma RawRangeIsExact(canId: int)
    requires Registry(canId).Some?
    ensures var definition, range := Registry(canId).value, RawRange(canId);
            && (definition.scale == 0.1 || definition.scale == 1.0)
            && range.0 as real * definition.scale + definition.offset == definition.low
            && range.1 as real * definition.scale + definition.offset == definition.high
            && forall raw :: range.0 <= raw <= range.1 ==> Fits(definition.dtype, raw)
  {
  }

  lemma RawStaysInRange(definition: SignalDefinition, low: int, high: int, value: real)
    requires definition.scale == 0.1 || definition.scale == 1.0
    requires low as real * definition.scale + definition.offset <= value
    requires value <= high as real * definition.scale + definition.offset
    ensures low <= RawValue(definition, value) <= high
    ensures low as real * definition.scale <= RawValue(definition, value) as real * definition.scale
            <= high as real * definition.scale
  {
    var x := (value - definition.offset) / definition.scale;
    if definition.scale == 0.1 {
      assert x == (value - definition.offset) / 0.1;
    } else {
      assert x == value - definition.offset;
    }
    assert low as real <= x <= high as real;
    RoundingStaysBetweenIntegers(x, low, high);
  }

  /** The whole valid range of every signal can be sent, and what arrives is
      still inside it: the range bounds are representable, so rounding cannot
      step over them. */
  lemma InRangeSurvivesTheWire(canId: int, value: real)
    requires InRange(canId, value)
    ensures Encode(canId, value).Ok?
    ensures DecodeSignal(canId, Encode(canId, value).value).Ok?
    ensures InRange(canId, DecodeSignal(canId, Encode(canId, value).value).value.value)
  {
    RawRangeIsExact(canId);
    var range := RawRange(canId);
    RawStaysInRange(Registry(canId).value, range.0, range.1, value);
    EncodedDecodesToRaw(canId, value);
  }
}
