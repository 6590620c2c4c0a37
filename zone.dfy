/** The zone controller of the ESP32 firmware: an occupancy handler that
    records the people count pushed over MQTT, a control step that combines
    it with the DHT11 temperature into one relay decision, and the relay
    driver that switches the LED and FAN channels together. */
module Zone {
  import opened Machine
  import CString

  datatype Option<T> = None | Some(value: T)

  /* ---------- Control parameters ---------- */

  const COMFORT_TEMP: real := 20.0
  const TEMP_HYST: real := 1.0
  const MIN_OCCUPANCY_ON: int32 := 2
  /** Five minutes, in milliseconds. */
  const UNOCCUPIED_DELAY: uint32 := 300000

  /* ---------- Inputs and outputs ---------- */

  /** What the JSON library made of an incoming message's "count" field. */
  datatype CountField =
    | ParseError          // the payload is not valid JSON
    | IntCount(n: int32)  // a JSON integer that fits in an `int`
    | StrCount(s: string) // a JSON string, handed to `atoi`
    | OtherType           // missing, or a float, boolean, object, out-of-range integer, ...

  /** Level of a relay pin; the relay board is active-low. */
  datatype Level = Low | High

  /** The fields of the status line a control step prints. */
  datatype Status = Status(people: int32, temp: real, led: bool, fan: bool)

  /** The pair the occupancy handler writes and the control step reads. */
  datatype Occupancy = Occupancy(count: int32, lastOccupied: uint32)

  /** The pin level that puts a relay channel in the given logical state. */
  function Drive(on: bool): (level: Level)
    ensures level == Low <==> on
  {
    if on then Low else High
  }

  /** `atoi` is only defined when its result fits in an `int`. */
  predicate Defined(field: CountField) {
    field.StrCount? ==> InInt32(CString.Atoi(field.s))
  }

  /* ---------- Specification of the occupancy handler ---------- */

  /** The occupancy after a message with the given count field arrives at
      time `now`. */
  function Received(occ: Occupancy, field: CountField, now: uint32): (r: Occupancy)
    requires Defined(field)
    ensures field.ParseError? || field.OtherType? ==> r == occ
    ensures field.IntCount? ==> r.count == field.n
    ensures field.StrCount? ==> r.count as int == CString.Atoi(field.s)
    ensures r.lastOccupied == now || r.lastOccupied == occ.lastOccupied
    ensures (field.IntCount? || field.StrCount?) && r.count > 0 ==> r.lastOccupied == now
    ensures r.count <= 0 ==> r.lastOccupied == occ.lastOccupied
  {
    match field
    case ParseError => occ
    case OtherType => occ
    case IntCount(n) => Occupancy(n, if n > 0 then now else occ.lastOccupied)
    case StrCount(s) =>
      var n := CString.Atoi(s) as int32;
      Occupancy(n, if n > 0 then now else occ.lastOccupied)
  }

  /* ---------- Specification of the control decision ---------- */

  /** The relay state the control step wants, given the people count, the
      time since the last positive count arrived, a valid temperature and the
      current relay state. */
  function Decide(count: int32, elapsed: uint32, temp: real, current: bool): (desired: bool)
    // unoccupied: delayed OFF, with a grace period that keeps the current state
    ensures count == 0 && elapsed > UNOCCUPIED_DELAY ==> !desired
    ensures count == 0 && elapsed <= UNOCCUPIED_DELAY ==> desired == current
    // occupied: cold wins over every ON rule
    ensures count != 0 && temp < COMFORT_TEMP - TEMP_HYST ==> !desired
    ensures count >= MIN_OCCUPANCY_ON && temp > COMFORT_TEMP + TEMP_HYST ==> desired
    ensures count >= 1 && COMFORT_TEMP - TEMP_HYST <= temp ==> (desired <==> temp >= COMFORT_TEMP || current)
    // dead zone, and the only rule a negative count can trigger
    ensures count != 0 && COMFORT_TEMP - TEMP_HYST <= temp < COMFORT_TEMP ==> desired == current
    ensures count < 0 && COMFORT_TEMP - TEMP_HYST <= temp ==> desired == current
  {
    if count == 0 then
      if elapsed > UNOCCUPIED_DELAY then false else current
    else if temp < COMFORT_TEMP - TEMP_HYST then false
    else if count >= MIN_OCCUPANCY_ON && temp > COMFORT_TEMP + TEMP_HYST then true
    else if count >= 1 && temp >= COMFORT_TEMP then true
    else current
  }

  /** Deciding again from the decision changes nothing: a second control step
      with the same inputs asks for no relay change. */
  lemma DecideIsIdempotent(count: int32, elapsed: uint32, temp: real, current: bool)
    ensures var d := Decide(count, elapsed, temp, current); Decide(count, elapsed, temp, d) == d
  {
  }

  /** The "crowded and warm" rule never decides anything the "occupied and at
      comfort" rule would not: any two positive counts get the same decision,
      so MIN_OCCUPANCY_ON has no effect. */
  lemma PositiveCountsDecideAlike(c1: int32, c2: int32, elapsed: uint32, temp: real, current: bool)
    requires c1 > 0 && c2 > 0
    ensures Decide(c1, elapsed, temp, current) == Decide(c2, elapsed, temp, current)
  {
  }

  /** The grace period and the delayed OFF measured on the real clock: with a
      count of 0, and the last positive count received at time `left` (ms
      since boot), the relay keeps its state until the delay has passed and
      is switched OFF after it, across rollovers of `millis()`, as long as
      less than 2^32 ms separate the two times. */
  lemma DelayedOffOnRealClock(left: nat, now: nat, temp: real, current: bool)
    requires left <= now < left + TWO_TO_THE_32
    ensures now - left <= UNOCCUPIED_DELAY as int ==>
      Decide(0, Sub(Wrap(now), Wrap(left)), temp, current) == current
    ensures now - left > UNOCCUPIED_DELAY as int ==>
      !Decide(0, Sub(Wrap(now), Wrap(left)), temp, current)
  {
    SubOfWrappedClock(left, now);
  }

  /** The delay runs from the arrival of the last positive count, not from
      the moment the zone empties: when a positive count arrived at `since`
      and the count 0 arrives more than the delay later (a sender that only
      publishes changes does exactly this for a zone occupied steadily for
      five minutes), the first control step after it switches the relay OFF
      at once, with no grace period. */
  lemma EmptyingAfterSteadyCountHasNoGrace(occ: Occupancy, n: int32, since: nat, emptied: nat, now: nat,
                                           temp: real, current: bool)
    requires n > 0
    requires since + UNOCCUPIED_DELAY as int < emptied <= now < since + TWO_TO_THE_32
    ensures var o := Received(Received(occ, IntCount(n), Wrap(since)), IntCount(0), Wrap(emptied));
      o.count == 0 && !Decide(o.count, Sub(Wrap(now), o.lastOccupied), temp, current)
  {
    SubOfWrappedClock(since, now);
  }

  /* ---------- The controller ---------- */

  /** The firmware's global state: the occupancy pair, the remembered relay
      state and the two relay pins (LED on GPIO 26, FAN on GPIO 27). */
  class Controller {
    var peopleCount: int32
    var lastOccupiedTime: uint32
    var relayState: bool
    var ledPin: Level
    var fanPin: Level
    /** The argument of every `setRelay` call so far, oldest first. */
    ghost var relayWrites: seq<bool>

    /** Both pins show the remembered relay state. */
    ghost predicate Valid()
      reads this
    {
      ledPin == Drive(relayState) && fanPin == Drive(relayState)
    }

    function Snapshot(): Occupancy
      reads this
    {
      Occupancy(peopleCount, lastOccupiedTime)
    }

    /** The globals' initial values, and the relays driven OFF at setup. */
    constructor ()
      ensures Valid()
      ensures peopleCount == 0 && lastOccupiedTime == 0 && !relayState
      ensures ledPin == High && fanPin == High
      ensures relayWrites == []
    {
      peopleCount := 0;
      lastOccupiedTime := 0;
      relayState := false;
      ledPin := High;
      fanPin := High;
      relayWrites := [];
    }

    method SetRelay(state: bool)
      modifies this
      ensures Valid()
      ensures relayState == state && ledPin == Drive(state) && fanPin == Drive(state)
      ensures relayWrites == old(relayWrites) + [state]
      ensures Snapshot() == old(Snapshot())
    {
      relayState := state;
      ledPin := if state then Low else High;
      fanPin := if state then Low else High;
      relayWrites := relayWrites + [state];
    }

    /** The MQTT callback, given what the JSON library made of the message
        and the value of `millis()` when it runs. */
    method Callback(field: CountField, now: uint32)
      requires Defined(field)
      modifies this
      ensures Snapshot() == Received(old(Snapshot()), field, now)
      ensures relayState == old(relayState) && relayWrites == old(relayWrites)
      ensures ledPin == old(ledPin) && fanPin == old(fanPin)
    {
      if field.ParseError? {
        return;
      }
      if field.IntCount? {
        peopleCount := field.n;
      } else if field.StrCount? {
        peopleCount := CString.Atoi(field.s) as int32;
      } else {
        return;
      }
      if peopleCount > 0 {
        lastOccupiedTime := now;
      }
    }

    /** One control step, given the DHT11 reading (None when it is NaN) and
        the value of `millis()`; returns the status line it prints, if any. */
    method ControlLogic(now: uint32, reading: Option<real>) returns (status: Option<Status>)
      requires Valid()
      modifies this
      ensures Valid()
      ensures Snapshot() == old(Snapshot())
      ensures reading.None? ==>
        status.None? && relayState == old(relayState) && relayWrites == old(relayWrites)
        && ledPin == old(ledPin) && fanPin == old(fanPin)
      ensures reading.Some? ==>
        relayState == Decide(peopleCount, Sub(now, lastOccupiedTime), reading.value, old(relayState))
        && relayWrites == old(relayWrites) + (if relayState != old(relayState) then [relayState] else [])
        && status == Some(Status(peopleCount, reading.value, relayState, relayState))
    {
      if reading.None? {
        return None;
      }
      var temp := reading.value;

      var desiredState := relayState;
      if peopleCount == 0 {
        if Sub(now, lastOccupiedTime) > UNOCCUPIED_DELAY {
          desiredState := false;
        }
      } else {
        if temp < COMFORT_TEMP - TEMP_HYST {
          desiredState := false;
        } else if peopleCount >= MIN_OCCUPANCY_ON && temp > COMFORT_TEMP + TEMP_HYST {
          desiredState := true;
        } else if peopleCount >= 1 && temp >= COMFORT_TEMP {
          desiredState := true;
        }
      }

      if desiredState != relayState {
        SetRelay(desiredState);
      }

      status := Some(Status(peopleCount, temp, relayState, relayState));
    }
  }

  /** Two control steps with the same time and reading: together they do
      exactly what the first one does alone, so the second switches nothing,
      calls `setRelay` no more and prints the same status line. */
  method RepeatedStep(c: Controller, now: uint32, temp: real) returns (first: Option<Status>, second: Option<Status>)
    requires c.Valid()
    modifies c
    ensures c.Valid()
    ensures c.Snapshot() == old(c.Snapshot())
    ensures c.relayState == Decide(c.peopleCount, Sub(now, c.lastOccupiedTime), temp, old(c.relayState))
    ensures c.relayWrites == old(c.relayWrites) + (if c.relayState != old(c.relayState) then [c.relayState] else [])
    ensures second == first
  {
    first := c.ControlLogic(now, Some(temp));
    DecideIsIdempotent(c.peopleCount, Sub(now, c.lastOccupiedTime), temp, old(c.relayState));
    second := c.ControlLogic(now, Some(temp));
  }
}
