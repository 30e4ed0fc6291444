/** The three simulated ECUs: one tick advances the state by random draws and
    produces the readings that are sent as CAN frames. Every draw is an
    arbitrary number in its interval. */
module Ecus {
  import opened Telemetry
  import opened CanSignalMap
  import opened Ingestion

  /** `random.uniform(a, b)` is `a + (b - a) * random()`. */
  type Draw = f: real | 0.0 <= f <= 1.0 witness 0.0

  datatype Reading = Reading(canId: int, value: real)

  function Uniform(low: real, high: real, draw: Draw): real {
    low + (high - low) * draw
  }

  function Clamp(x: real, low: real, high: real): real {
    var upper := if x < high then x else high;
    if low > upper then low else upper
  }

  function Drift(current: real, step: real, low: real, high: real, bias: real, draw: Draw): real {
    Clamp(current + (Uniform(-step, step, draw) + bias), low, high)
  }

  /** `round(value, 2)`. */
  function RoundTo2(value: real): real {
    RoundHalfEven(value * 100.0) as real / 100.0
  }

  function MakeReading(canId: int, value: real): Reading {
    Reading(canId, RoundTo2(value))
  }

  /** The gateway accepts the frame that this reading is sent as. */
  predicate Delivered(reading: Reading) {
    var payload := Encode(reading.canId, reading.value);
    payload.Ok? && IsAccepted(Frame(reading.canId, payload.value))
  }

  /** The raw word of the reading lies inside the signal's valid range. */
  predicate FitsRange(reading: Reading) {
    && Registry(reading.canId).Some?
    && RawRange(reading.canId).0 <= RawValue(Registry(reading.canId).value, reading.value) <= RawRange(reading.canId).1
  }

  lemma FittingReadingsAreDelivered(readings: seq<Reading>)
    requires forall r :: r in readings ==> FitsRange(r)
    ensures forall r :: r in readings ==> Delivered(r)
  {
    forall r | r in readings ensures Delivered(r) {
      EncodedRawIsAccepted(r.canId, r.value);
    }
  }

  /** x lies between low and high and at most one step from the biased value,
      unless a bound pulls it back. */
  predicate Reaches(current: real, step: real, low: real, high: real, bias: real, x: real) {
    && low <= x <= high
    && (x >= current + bias - step || x == high)
    && (x <= current + bias + step || x == low)
  }

  /** One drift can end exactly in the values within reach. */
  lemma DriftReach(current: real, step: real, low: real, high: real, bias: real, x: real)
    requires step >= 0.0 && low <= high
    ensures (exists draw: Draw :: Drift(current, step, low, high, bias, draw) == x) <==>
            Reaches(current, step, low, high, bias, x)
  {
    if draw: Draw :| Drift(current, step, low, high, bias, draw) == x {
      UniformStaysBetween(step, draw);
    }
    if Reaches(current, step, low, high, bias, x) {
      var _ := DrawFor(current, step, low, high, bias, x);
    }
  }

  lemma UniformStaysBetween(step: real, draw: Draw)
    requires step >= 0.0
    ensures -step <= Uniform(-step, step, draw) <= step
  {
    assert 0.0 <= (2.0 * step) * draw <= 2.0 * step;
    assert Uniform(-step, step, draw) == -step + (2.0 * step) * draw;
  }

  lemma DrawFor(current: real, step: real, low: real, high: real, bias: real, x: real) returns (draw: Draw)
    requires step >= 0.0 && low <= high && Reaches(current, step, low, high, bias, x)
    ensures Drift(current, step, low, high, bias, draw) == x
  {
    if x == Clamp(current - step + bias, low, high) {
      assert Uniform(-step, step, 0.0) == -step;
      return 0.0;
    }
    if x == Clamp(current + step + bias, low, high) {
      assert Uniform(-step, step, 1.0) == step;
      return 1.0;
    }
    var wanted := x - current - bias;
    assert -step < wanted < step && low <= x <= high;
    draw := FractionOf(step, wanted);
    assert current + (Uniform(-step, step, draw) + bias) == x;
  }

  lemma FractionOf(step: real, wanted: real) returns (draw: Draw)
    requires -step < wanted < step
    ensures Uniform(-step, step, draw) == wanted
  {
    var width := 2.0 * step;
    var share := (wanted + step) / width;
    assert share * width == wanted + step;
    assert 0.0 <= share <= 1.0;
    draw := share;
  }

  // --- what a reading says on the wire ---

  /** The frame of this reading decodes to the given ECU and signal, and to the
      value within half a scale step and the rounding to two places. */
  predicate Tells(reading: Reading, ecu: ECU, signal: Signal, value: real, scale: real) {
    var payload := Encode(reading.canId, reading.value);
    payload.Ok? &&
    var decoded := DecodeSignal(reading.canId, payload.value);
    && decoded.Ok? && decoded.value.ecu == ecu && decoded.value.signal == signal
    && -(scale / 2.0 + 0.005) <= decoded.value.value - value <= scale / 2.0 + 0.005
  }

  lemma RoundTo2IsNear(value: real)
    ensures -0.005 <= RoundTo2(value) - value <= 0.005
  {
    var x := value * 100.0;
    assert -0.5 <= x - RoundHalfEven(x) as real <= 0.5;
  }

  lemma FittingReadingTells(canId: int, value: real)
    requires FitsRange(MakeReading(canId, value))
    ensures var definition := Registry(canId).value;
            Tells(MakeReading(canId, value), definition.ecu, definition.signal, value, definition.scale)
  {
    RawRangeIsExact(canId);
    RoundTo2IsNear(value);
    DecodeOfEncodeIsNear(canId, RoundTo2(value));
  }

  // --- battery ECU ---

  datatype BatteryState = BatteryState(soc: real, voltage: real, current: real, temp: real)

  datatype BatteryDraws = BatteryDraws(soc: Draw, voltage: Draw, current: Draw, temp: Draw)

  function BatteryNext(s: BatteryState, d: BatteryDraws): BatteryState {
    BatteryState(Drift(s.soc, 0.3, 0.0, 100.0, -0.05, d.soc),
                 Drift(s.voltage, 2.0, 300.0, 420.0, 0.0, d.voltage),
                 Drift(s.current, 15.0, -500.0, 500.0, 0.0, d.current),
                 Drift(s.temp, 0.5, -40.0, 120.0, 0.0, d.temp))
  }

  function BatteryReadings(s: BatteryState): seq<Reading> {
    [MakeReading(0x200, s.soc), MakeReading(0x201, s.voltage), MakeReading(0x202, s.current),
     MakeReading(0x203, s.temp)]
  }

  class BatteryECU {
    var socPct: real
    var voltageV: real
    var currentA: real
    var tempC: real

    function State(): BatteryState
      reads this
    {
      BatteryState(socPct, voltageV, currentA, tempC)
    }

    constructor ()
      ensures State() == BatteryState(80.0, 400.0, 0.0, 25.0)
    {
      socPct, voltageV, currentA, tempC := 80.0, 400.0, 0.0, 25.0;
    }

    method Tick(d: BatteryDraws) returns (readings: seq<Reading>)
      modifies this
      ensures State() == BatteryNext(old(State()), d) && readings == BatteryReadings(State())
      ensures forall r :: r in readings ==> Delivered(r)
    {
      socPct := Drift(socPct, 0.3, 0.0, 100.0, -0.05, d.soc);
      voltageV := Drift(voltageV, 2.0, 300.0, 420.0, 0.0, d.voltage);
      currentA := Drift(currentA, 15.0, -500.0, 500.0, 0.0, d.current);
      tempC := Drift(tempC, 0.5, -40.0, 120.0, 0.0, d.temp);
      readings := [MakeReading(0x200, socPct), MakeReading(0x201, voltageV),
                   MakeReading(0x202, currentA), MakeReading(0x203, tempC)];
      BatteryTickIsDelivered(old(State()), d);
    }
  }

  lemma BatteryTickFits(s: BatteryState, d: BatteryDraws)
    ensures var next := BatteryNext(s, d);
            && FitsRange(MakeReading(0x200, next.soc)) && FitsRange(MakeReading(0x201, next.voltage))
            && FitsRange(MakeReading(0x202, next.current)) && FitsRange(MakeReading(0x203, next.temp))
  {
    var next := BatteryNext(s, d);
    assert 0.0 <= next.soc <= 100.0 && 300.0 <= next.voltage <= 420.0;
    assert -500.0 <= next.current <= 500.0 && -40.0 <= next.temp <= 120.0;
    assert FitsRange(MakeReading(0x200, next.soc));
    assert FitsRange(MakeReading(0x201, next.voltage));
    assert FitsRange(MakeReading(0x202, next.current));
    assert FitsRange(MakeReading(0x203, next.temp));
  }

  /** From any state at all, because every value is clamped before it is sent. */
  lemma BatteryTickIsDelivered(s: BatteryState, d: BatteryDraws)
    ensures forall r :: r in BatteryReadings(BatteryNext(s, d)) ==> Delivered(r)
  {
    BatteryTickFits(s, d);
    FittingReadingsAreDelivered(BatteryReadings(BatteryNext(s, d)));
  }

  /** What one tick can do to the state: each value drifts on its own. */
  lemma BatteryReach(s: BatteryState, next: BatteryState)
    ensures (exists d: BatteryDraws :: BatteryNext(s, d) == next) <==>
            && Reaches(s.soc, 0.3, 0.0, 100.0, -0.05, next.soc)
            && Reaches(s.voltage, 2.0, 300.0, 420.0, 0.0, next.voltage)
            && Reaches(s.current, 15.0, -500.0, 500.0, 0.0, next.current)
            && Reaches(s.temp, 0.5, -40.0, 120.0, 0.0, next.temp)
  {
    if d: BatteryDraws :| BatteryNext(s, d) == next {
      DriftReach(s.soc, 0.3, 0.0, 100.0, -0.05, next.soc);
      DriftReach(s.voltage, 2.0, 300.0, 420.0, 0.0, next.voltage);
      DriftReach(s.current, 15.0, -500.0, 500.0, 0.0, next.current);
      DriftReach(s.temp, 0.5, -40.0, 120.0, 0.0, next.temp);
    }
    if && Reaches(s.soc, 0.3, 0.0, 100.0, -0.05, next.soc)
       && Reaches(s.voltage, 2.0, 300.0, 420.0, 0.0, next.voltage)
       && Reaches(s.current, 15.0, -500.0, 500.0, 0.0, next.current)
       && Reaches(s.temp, 0.5, -40.0, 120.0, 0.0, next.temp) {
      var soc := DrawFor(s.soc, 0.3, 0.0, 100.0, -0.05, next.soc);
      var voltage := DrawFor(s.voltage, 2.0, 300.0, 420.0, 0.0, next.voltage);
      var current := DrawFor(s.current, 15.0, -500.0, 500.0, 0.0, next.current);
      var temp := DrawFor(s.temp, 0.5, -40.0, 120.0, 0.0, next.temp);
      assert BatteryNext(s, BatteryDraws(soc, voltage, current, temp)) == next;
    }
  }

  /** The four frames of a tick carry the four new values under their names. */
  lemma BatteryFramesTell(s: BatteryState, d: BatteryDraws)
    ensures var next, r := BatteryNext(s, d), BatteryReadings(BatteryNext(s, d));
            && |r| == 4
            && Tells(r[0], Battery, BatterySocPct, next.soc, 0.1)
            && Tells(r[1], Battery, BatteryVoltageV, next.voltage, 0.1)
            && Tells(r[2], Battery, BatteryCurrentA, next.current, 0.1)
            && Tells(r[3], Battery, BatteryTempC, next.temp, 1.0)
  {
    var next := BatteryNext(s, d);
    BatteryTickFits(s, d);
    FittingReadingTells(0x200, next.soc);
    FittingReadingTells(0x201, next.voltage);
    FittingReadingTells(0x202, next.current);
    FittingReadingTells(0x203, next.temp);
  }

  // --- powertrain ECU ---

  datatype PowertrainState = PowertrainState(speed: real, rpm: real, throttle: real)

  datatype PowertrainDraws = PowertrainDraws(throttle: Draw, speed: Draw, rpm: Draw)

  /** Speed and engine speed drift in steps widened by the new throttle position. */
  function PowertrainNext(s: PowertrainState, d: PowertrainDraws): PowertrainState {
    var throttle := Drift(s.throttle, 5.0, 0.0, 100.0, 0.0, d.throttle);
    PowertrainState(Drift(s.speed, 2.0 + throttle * 0.05, 0.0, 250.0, 0.0, d.speed),
                    Drift(s.rpm, 100.0 + throttle * 5.0, 800.0, 8000.0, 0.0, d.rpm),
                    throttle)
  }

  function PowertrainReadings(s: PowertrainState): seq<Reading> {
    [MakeReading(0x100, s.speed), MakeReading(0x101, s.rpm), MakeReading(0x102, s.throttle)]
  }

  class PowertrainECU {
    var speedKph: real
    var rpm: real
    var throttlePct: real

    function State(): PowertrainState
      reads this
    {
      PowertrainState(speedKph, rpm, throttlePct)
    }

    constructor ()
      ensures State() == PowertrainState(0.0, 800.0, 0.0)
    {
      speedKph, rpm, throttlePct := 0.0, 800.0, 0.0;
    }

    method Tick(d: PowertrainDraws) returns (readings: seq<Reading>)
      modifies this
      ensures State() == PowertrainNext(old(State()), d) && readings == PowertrainReadings(State())
      ensures forall r :: r in readings ==> Delivered(r)
    {
      throttlePct := Drift(throttlePct, 5.0, 0.0, 100.0, 0.0, d.throttle);
      speedKph := Drift(speedKph, 2.0 + throttlePct * 0.05, 0.0, 250.0, 0.0, d.speed);
      rpm := Drift(rpm, 100.0 + throttlePct * 5.0, 800.0, 8000.0, 0.0, d.rpm);
      readings := [MakeReading(0x100, speedKph), MakeReading(0x101, rpm), MakeReading(0x102, throttlePct)];
      PowertrainTickIsDelivered(old(State()), d);
    }
  }

  lemma PowertrainTickFits(s: PowertrainState, d: PowertrainDraws)
    ensures var next := PowertrainNext(s, d);
            && FitsRange(MakeReading(0x100, next.speed)) && FitsRange(MakeReading(0x101, next.rpm))
            && FitsRange(MakeReading(0x102, next.throttle))
  {
    var next := PowertrainNext(s, d);
    assert 0.0 <= next.speed <= 250.0 && 800.0 <= next.rpm <= 8000.0 && 0.0 <= next.throttle <= 100.0;
    assert FitsRange(MakeReading(0x100, next.speed));
    assert FitsRange(MakeReading(0x101, next.rpm));
    assert FitsRange(MakeReading(0x102, next.throttle));
  }

  /** What one tick can do: the reach of both speeds depends on the new throttle. */
  lemma PowertrainReach(s: PowertrainState, next: PowertrainState)
    ensures (exists d: PowertrainDraws :: PowertrainNext(s, d) == next) <==>
            && Reaches(s.throttle, 5.0, 0.0, 100.0, 0.0, next.throttle)
            && Reaches(s.speed, 2.0 + next.throttle * 0.05, 0.0, 250.0, 0.0, next.speed)
            && Reaches(s.rpm, 100.0 + next.throttle * 5.0, 800.0, 8000.0, 0.0, next.rpm)
  {
    if d: PowertrainDraws :| PowertrainNext(s, d) == next {
      DriftReach(s.throttle, 5.0, 0.0, 100.0, 0.0, next.throttle);
      DriftReach(s.speed, 2.0 + next.throttle * 0.05, 0.0, 250.0, 0.0, next.speed);
      DriftReach(s.rpm, 100.0 + next.throttle * 5.0, 800.0, 8000.0, 0.0, next.rpm);
    }
    if && Reaches(s.throttle, 5.0, 0.0, 100.0, 0.0, next.throttle)
       && Reaches(s.speed, 2.0 + next.throttle * 0.05, 0.0, 250.0, 0.0, next.speed)
       && Reaches(s.rpm, 100.0 + next.throttle * 5.0, 800.0, 8000.0, 0.0, next.rpm) {
      var throttle := DrawFor(s.throttle, 5.0, 0.0, 100.0, 0.0, next.throttle);
      var speed := DrawFor(s.speed, 2.0 + next.throttle * 0.05, 0.0, 250.0, 0.0, next.speed);
      var rpm := DrawFor(s.rpm, 100.0 + next.throttle * 5.0, 800.0, 8000.0, 0.0, next.rpm);
      assert PowertrainNext(s, PowertrainDraws(throttle, speed, rpm)) == next;
    }
  }

  /** The three frames of a tick carry the three new values under their names. */
  lemma PowertrainFramesTell(s: PowertrainState, d: PowertrainDraws)
    ensures var next, r := PowertrainNext(s, d), PowertrainReadings(PowertrainNext(s, d));
            && |r| == 3
            && Tells(r[0], Powertrain, VehicleSpeedKph, next.speed, 0.1)
            && Tells(r[1], Powertrain, EngineRpm, next.rpm, 1.0)
            && Tells(r[2], Powertrain, ThrottlePositionPct, next.throttle, 1.0)
  {
    var next := PowertrainNext(s, d);
    PowertrainTickFits(s, d);
    FittingReadingTells(0x100, next.speed);
    FittingReadingTells(0x101, next.rpm);
    FittingReadingTells(0x102, next.throttle);
  }

  lemma PowertrainTickIsDelivered(s: PowertrainState, d: PowertrainDraws)
    ensures forall r :: r in PowertrainReadings(PowertrainNext(s, d)) ==> Delivered(r)
  {
    PowertrainTickFits(s, d);
    FittingReadingsAreDelivered(PowertrainReadings(PowertrainNext(s, d)));
  }

  // --- body ECU ---

  datatype BodyState = BodyState(doors: bv8, indicator: int, odometer: real, ambient: real)

  type DoorBit = b: int | 0 <= b <= 3

  datatype BodyDraws = BodyDraws(doorRoll: Draw, bit: DoorBit, indicatorRoll: Draw, indicator: DoorBit,
                                 distance: Draw, ambient: Draw)

  const BODY_START := BodyState(0, 0, 12500.0, 22.0)

  function ToggleDoor(doors: bv8, bit: DoorBit): bv8 {
    doors ^ (1 << bit)
  }

  function BodyNext(s: BodyState, d: BodyDraws): BodyState {
    BodyState(if d.doorRoll < 0.05 then ToggleDoor(s.doors, d.bit) else s.doors,
              if d.indicatorRoll < 0.1 then d.indicator else s.indicator,
              s.odometer + Uniform(0.0, 0.02, d.distance),
              Drift(s.ambient, 0.2, -40.0, 60.0, 0.0, d.ambient))
  }

  function BodyReadings(s: BodyState): seq<Reading> {
    [MakeReading(0x300, (s.doors as int) as real), MakeReading(0x301, s.indicator as real),
     MakeReading(0x302, s.odometer), MakeReading(0x303, s.ambient)]
  }

  class BodyECU {
    var doorStatus: bv8
    var indicatorState: int
    var odometerKm: real
    var ambientTempC: real

    function State(): BodyState
      reads this
    {
      BodyState(doorStatus, indicatorState, odometerKm, ambientTempC)
    }

    constructor ()
      ensures State() == BodyState(0, 0, 12500.0, 22.0)
    {
      doorStatus, indicatorState, odometerKm, ambientTempC := 0, 0, 12500.0, 22.0;
    }

    method Tick(d: BodyDraws) returns (readings: seq<Reading>)
      modifies this
      ensures State() == BodyNext(old(State()), d) && readings == BodyReadings(State())
    {
      if d.doorRoll < 0.05 {
        doorStatus := ToggleDoor(doorStatus, d.bit);
      }
      if d.indicatorRoll < 0.1 {
        indicatorState := d.indicator;
      }
      odometerKm := odometerKm + Uniform(0.0, 0.02, d.distance);
      ambientTempC := Drift(ambientTempC, 0.2, -40.0, 60.0, 0.0, d.ambient);
      readings := [MakeReading(0x300, (doorStatus as int) as real), MakeReading(0x301, indicatorState as real),
                   MakeReading(0x302, odometerKm), MakeReading(0x303, ambientTempC)];
    }
  }

  /** The body ECU after the given ticks. */
  function BodyAfter(draws: seq<BodyDraws>): BodyState {
    if draws == [] then BODY_START else BodyNext(BodyAfter(draws[..|draws| - 1]), draws[|draws| - 1])
  }

  predicate IsOpen(doors: bv8, bit: DoorBit) {
    (doors >> bit) & 1 == 1
  }

  /** A toggle changes the one door it is meant for. */
  lemma ToggleFlipsOneDoor(doors: bv8, bit: DoorBit, other: DoorBit)
    ensures IsOpen(ToggleDoor(doors, bit), other) <==> (IsOpen(doors, other) != (bit == other))
  {
    assert bit == 0 || bit == 1 || bit == 2 || bit == 3;
    assert other == 0 || other == 1 || other == 2 || other == 3;
  }

  lemma {:induction false} BodyStateIsBounded(draws: seq<BodyDraws>)
    ensures var s := BodyAfter(draws);
            && s.doors <= 15 && 0 <= s.indicator <= 3 && -40.0 <= s.ambient <= 60.0
            && 12500.0 <= s.odometer <= 12500.0 + 0.02 * |draws| as real
  {
    if draws != [] {
      var before := draws[..|draws| - 1];
      var d := draws[|draws| - 1];
      BodyStateIsBounded(before);
      assert 0.0 <= Uniform(0.0, 0.02, d.distance) <= 0.02;
    }
  }

  lemma BodyTickFits(draws: seq<BodyDraws>)
    ensures var s := BodyAfter(draws);
            && FitsRange(MakeReading(0x300, (s.doors as int) as real))
            && FitsRange(MakeReading(0x301, s.indicator as real))
            && FitsRange(MakeReading(0x303, s.ambient))
  {
    var s := BodyAfter(draws);
    BodyStateIsBounded(draws);
  }

  /** Doors, indicator and ambient temperature are never rejected, however long the ECU runs. */
  lemma BodyTickIsDelivered(draws: seq<BodyDraws>)
    ensures forall r :: r in BodyReadings(BodyAfter(draws)) && r != OdometerReading(draws) ==> Delivered(r)
  {
    BodyTickFits(draws);
    var readings := BodyReadings(BodyAfter(draws));
    FittingReadingsAreDelivered([readings[0], readings[1], readings[3]]);
  }

  /** What one tick can do: one door at most changes its state, any indicator
      state may come, the odometer never goes back. */
  lemma BodyReach(s: BodyState, next: BodyState)
    ensures (exists d: BodyDraws :: BodyNext(s, d) == next) <==>
            && (next.doors == s.doors || exists bit: DoorBit :: next.doors == ToggleDoor(s.doors, bit))
            && (next.indicator == s.indicator || 0 <= next.indicator <= 3)
            && s.odometer <= next.odometer <= s.odometer + 0.02
            && Reaches(s.ambient, 0.2, -40.0, 60.0, 0.0, next.ambient)
  {
    if d: BodyDraws :| BodyNext(s, d) == next {
      assert 0.0 <= Uniform(0.0, 0.02, d.distance) <= 0.02;
      DriftReach(s.ambient, 0.2, -40.0, 60.0, 0.0, next.ambient);
    }
    if && (next.doors == s.doors || exists bit: DoorBit :: next.doors == ToggleDoor(s.doors, bit))
       && (next.indicator == s.indicator || 0 <= next.indicator <= 3)
       && s.odometer <= next.odometer <= s.odometer + 0.02
       && Reaches(s.ambient, 0.2, -40.0, 60.0, 0.0, next.ambient) {
      var _ := BodyDrawsFor(s, next);
    }
  }

  /** Doors and indicator are events: they need a roll below 5 and 10 per cent. */
  lemma BodyEventsNeedARoll(s: BodyState, d: BodyDraws)
    ensures BodyNext(s, d).doors != s.doors <==> d.doorRoll < 0.05
    ensures BodyNext(s, d).indicator == (if d.indicatorRoll < 0.1 then d.indicator else s.indicator)
  {
    ToggleFlipsOneDoor(s.doors, d.bit, d.bit);
  }

  lemma BodyDrawsFor(s: BodyState, next: BodyState) returns (d: BodyDraws)
    requires next.doors == s.doors || exists bit: DoorBit :: next.doors == ToggleDoor(s.doors, bit)
    requires next.indicator == s.indicator || 0 <= next.indicator <= 3
    requires s.odometer <= next.odometer <= s.odometer + 0.02
    requires Reaches(s.ambient, 0.2, -40.0, 60.0, 0.0, next.ambient)
    ensures BodyNext(s, d) == next
  {
    var ambient := DrawFor(s.ambient, 0.2, -40.0, 60.0, 0.0, next.ambient);
    var distance: Draw := (next.odometer - s.odometer) / 0.02;
    assert Uniform(0.0, 0.02, distance) == next.odometer - s.odometer;
    var bit: DoorBit := 0;
    if next.doors != s.doors {
      bit :| next.doors == ToggleDoor(s.doors, bit);
    }
    d := BodyDraws(if next.doors == s.doors then 1.0 else 0.0, bit,
                   if next.indicator == s.indicator then 1.0 else 0.0,
                   if next.indicator == s.indicator then 0 else next.indicator, distance, ambient);
  }

  lemma DoorFrameTells(doors: bv8)
    requires doors <= 15
    ensures Tells(MakeReading(0x300, (doors as int) as real), Body, DoorStatusBitmask, (doors as int) as real, 1.0)
  {
    FittingReadingTells(0x300, (doors as int) as real);
  }

  lemma IndicatorFrameTells(indicator: int)
    requires 0 <= indicator <= 3
    ensures Tells(MakeReading(0x301, indicator as real), Body, IndicatorState, indicator as real, 1.0)
  {
    FittingReadingTells(0x301, indicator as real);
  }

  lemma AmbientFrameTells(ambient: real)
    requires -40.0 <= ambient <= 60.0
    ensures Tells(MakeReading(0x303, ambient), Body, AmbientTempC, ambient, 1.0)
  {
    FittingReadingTells(0x303, ambient);
  }

  lemma OdometerReadingTells(odometer: real)
    requires FitsRange(MakeReading(0x302, odometer))
    ensures Tells(MakeReading(0x302, odometer), Body, OdometerKm, odometer, 1.0)
  {
    FittingReadingTells(0x302, odometer);
  }

  lemma OdometerFrameTells(draws: seq<BodyDraws>)
    requires |draws| <= ODOMETER_SAFE_TICKS
    ensures Tells(OdometerReading(draws), Body, OdometerKm, BodyAfter(draws).odometer, 1.0)
  {
    OdometerFits(draws);
    OdometerReadingTells(BodyAfter(draws).odometer);
  }

  /** The four frames of a tick, the odometer's as long as it is accepted. */
  lemma BodyFramesTell(draws: seq<BodyDraws>)
    ensures var s, r := BodyAfter(draws), BodyReadings(BodyAfter(draws));
            && |r| == 4
            && Tells(r[0], Body, DoorStatusBitmask, (s.doors as int) as real, 1.0)
            && Tells(r[1], Body, IndicatorState, s.indicator as real, 1.0)
            && (|draws| <= 49_374_974 ==> Tells(r[2], Body, OdometerKm, s.odometer, 1.0))
            && Tells(r[3], Body, AmbientTempC, s.ambient, 1.0)
  {
    var s := BodyAfter(draws);
    BodyStateIsBounded(draws);
    DoorFrameTells(s.doors);
    IndicatorFrameTells(s.indicator);
    AmbientFrameTells(s.ambient);
    if |draws| <= ODOMETER_SAFE_TICKS {
      OdometerFrameTells(draws);
    }
  }

  const ODOMETER_SAFE_TICKS := 49_374_974

  function OdometerReading(draws: seq<BodyDraws>): Reading {
    BodyReadings(BodyAfter(draws))[2]
  }

  lemma OdometerFits(draws: seq<BodyDraws>)
    requires |draws| <= ODOMETER_SAFE_TICKS
    ensures FitsRange(OdometerReading(draws))
  {
    BodyStateIsBounded(draws);
    OdometerWordFits(BodyAfter(draws).odometer);
  }

  lemma OdometerWordFits(odometer: real)
    requires 12500.0 <= odometer < 999999.49
    ensures FitsRange(MakeReading(0x302, odometer))
  {
    RoundTo2IsNear(odometer);
    var shown := RoundTo2(odometer);
    assert 12499.0 <= shown < 999999.5;
    assert 0 <= RoundHalfEven(shown) <= 999999;
  }

  lemma OdometerIsDelivered(draws: seq<BodyDraws>)
    requires |draws| <= ODOMETER_SAFE_TICKS
    ensures Delivered(OdometerReading(draws))
  {
    var value := BodyAfter(draws).odometer;
    OdometerFits(draws);
    EncodedRawIsAccepted(0x302, RoundTo2(value));
  }

  function FullSpeed(ticks: nat): seq<BodyDraws> {
    seq(ticks, _ => BodyDraws(1.0, 0, 1.0, 0, 1.0, 0.0))
  }

  lemma {:induction false} FullSpeedOdometer(ticks: nat)
    ensures BodyAfter(FullSpeed(ticks)).odometer == 12500.0 + 0.02 * ticks as real
  {
    if ticks > 0 {
      FullSpeedOdometer(ticks - 1);
      assert FullSpeed(ticks)[..ticks - 1] == FullSpeed(ticks - 1);
    }
  }

  lemma LargeOdometerIsNotDelivered(value: real)
    requires value >= 999999.5
    ensures !Delivered(MakeReading(0x302, value))
  {
    var shown := RoundTo2(value);
    assert RoundHalfEven(value * 100.0) >= 99999950;
    assert RoundHalfEven(shown) >= 1000000;
    if Encode(0x302, shown).Ok? {
      EncodedDecodesToRaw(0x302, shown);
    }
  }

  /** The odometer is the one unbounded signal. It is accepted after `ticks`
      ticks on every random stream exactly when at most 49,374,974 ticks have passed. */
  lemma OdometerLimitIsExact(ticks: nat)
    ensures (forall draws: seq<BodyDraws> :: |draws| == ticks ==> Delivered(OdometerReading(draws)))
            <==> ticks <= ODOMETER_SAFE_TICKS
  {
    if ticks <= ODOMETER_SAFE_TICKS {
      forall draws: seq<BodyDraws> | |draws| == ticks ensures Delivered(OdometerReading(draws)) {
        OdometerIsDelivered(draws);
      }
    } else {
      var worst := FullSpeed(ticks);
      FullSpeedOdometer(ticks);
      LargeOdometerIsNotDelivered(BodyAfter(worst).odometer);
      assert |worst| == ticks && !Delivered(OdometerReading(worst));
    }
  }
}
