# Zone controller of the SelectAutomation ESP32 firmware, in Dafny

The firmware drives one zone's lighting (LED relay) and ventilation (FAN relay)
from two inputs. A vision sensor pushes a people count over MQTT, and a DHT11
sensor gives the temperature. This project models the firmware's three
control-core routines and proves their properties:

- the MQTT callback, which records the count and, when it is positive, its
  arrival time;
- the control step, which turns count, elapsed time, temperature and current
  relay state into one decision (a delayed OFF when the zone is empty, a
  priority-ordered hysteresis rule when it is occupied) and switches the
  relays only on a change;
- the relay driver, which keeps both active-low relay pins at the same level.

Files:

- `machine.dfy` (module `Machine`): the target's 32-bit `int` and
  `unsigned long`, `millis()` rollover (`Wrap`), and unsigned subtraction
  (`Sub`). It also proves that the elapsed-time test works across a rollover.
- `cstring.dfy` (module `CString`): the C library's `atoi`, which is applied to
  a count sent as a JSON string. It is modelled on white space, an optional
  sign, then leading digits. The module proves that `atoi` reads back a decimal
  rendering (`Decimal`), and that it returns 0 when no digit follows the white
  space and the optional sign.
- `zone.dfy` (module `Zone`):
  - the control constants (20.0 °C comfort, 1.0 °C band, 2 people, 300000 ms);
  - the input abstraction `CountField`: what the JSON library made of the
    `count` field;
  - the specification functions `Received` (callback) and `Decide` (decision);
  - the class `Controller`, holding the firmware globals plus the two relay
    pins. Its methods `SetRelay`, `Callback` and `ControlLogic` follow the
    source branch for branch and are proved against those functions. A ghost
    field `relayWrites` logs every `setRelay` call, so the contracts can say
    when the relay driver is invoked.

Temperature is a `real` in °C. A NaN reading is `None`. `millis()` and the
sensor reading are parameters of the methods that use them.

Where the code differs from what one would expect of such a controller, the
model follows the code:

- Negative counts are not rejected. An integer `-3` or the string `"-3"` is
  stored as is. A non-numeric string is stored as 0, because `atoi` reports no
  error. With a negative count, only the cold-OFF rule can change the relay
  (`Decide`'s last ensures clause).
- The stored last-occupied time is a raw 32-bit `millis()` value. It is not
  monotonic, because it wraps every 2^32 ms. Only the wrapped difference is
  meaningful, and `DelayedOffOnRealClock` shows that this difference measures
  real time as long as less than 2^32 ms separate the two times.
- The unoccupied delay runs from the arrival of the last positive count, not
  from the moment the count drops to 0, because a count of 0 leaves the
  last-occupied time alone. A sender that publishes only when the count
  changes therefore gives a zone occupied steadily for more than five minutes
  no grace period when it empties: the first control step after the 0 arrives
  switches the relay OFF (`EmptyingAfterSteadyCountHasNoGrace`).
- The "crowded and warm" rule (`count >= 2 && temp > 21.0`) never changes a
  decision. Whenever it fires, the "occupied and at comfort" rule
  (`count >= 1 && temp >= 20.0`) would also turn the relay ON. So the decision
  depends on the sign of the count only, and `MIN_OCCUPANCY_ON` has no effect
  (`PositiveCountsDecideAlike`).

## Model

| member | source | states |
|---|---|---|
| `Machine.Sub` | SELECTHACK.cpp:83 | `millis() - lastOccupiedTime` is unsigned 32-bit subtraction: the unique value in [0, 2^32) that, added to the earlier reading, gives the later one modulo 2^32; it is the plain difference when no rollover happened |
| `Machine.SubOfWrappedClock` | SELECTHACK.cpp:83 | for two real times less than 2^32 ms apart, the unsigned difference of their `millis()` readings is exactly the real elapsed time, across a rollover |
| `CString.AtoiReadsDecimal` | SELECTHACK.cpp:62-63 | `Atoi` models the `atoi` call: a count sent as a string with leading white space, an optional `+`/`-` sign, a decimal number and any trailing non-digit text is stored as that signed number |
| `CString.AtoiOfNonNumeric` | SELECTHACK.cpp:62-63 | a count string made of white space followed by text that starts with neither a sign nor a digit ("abc", "  abc", "   ", "") is stored as 0, not rejected |
| `CString.AtoiOfBareSign` | SELECTHACK.cpp:62-63 | a count string whose sign, after any white space, is not followed by a digit ("-x", "+", "  - 3") is stored as 0, not rejected |
| `Zone.Drive` | SELECTHACK.cpp:46-48 | the relays are active-low: a pin is LOW exactly when its channel is ON |
| `Zone.Received` | SELECTHACK.cpp:52-72 | a parse error or a count of another JSON type leaves the occupancy untouched; an integer or string count overwrites the count (string via `atoi`); the last-occupied time becomes the arrival time when the accepted count is positive (lines 69-70) and otherwise stays as it was |
| `Zone.Decide` | SELECTHACK.cpp:79-98 | count 0: OFF once more than 300000 ms have passed, otherwise the current state whatever the temperature; count non-zero: below 19.0 OFF (checked first, wins even with 2+ people); 2+ people above 21.0 ON; 1+ people at or above 20.0 ON (20.0 itself turns ON); in [19.0, 20.0) the current state; a negative count keeps the current state unless it is cold |
| `Zone.DecideIsIdempotent` | SELECTHACK.cpp:79-103 | deciding again from the decided state gives the same state, so a repeated step asks for no relay change |
| `Zone.PositiveCountsDecideAlike` | SELECTHACK.cpp:91-96 | any two positive counts get the same decision: the 2-person rule is subsumed by the 1-person rule |
| `Zone.DelayedOffOnRealClock` | SELECTHACK.cpp:82-85 | measured on the real clock (less than 2^32 ms apart), with a count of 0 the relay keeps its state until 300000 ms after the last positive count arrived and is switched OFF afterwards |
| `Zone.EmptyingAfterSteadyCountHasNoGrace` | SELECTHACK.cpp:69-85 | when a count of 0 arrives more than 300000 ms after the last positive count, the next control step switches the relay OFF at once: the delay is not measured from the moment the zone empties |
| `Zone.Controller.constructor` | SELECTHACK.cpp:34-36 | the globals start at count 0, last-occupied time 0, relay OFF, with both pins HIGH (OFF), and no `setRelay` call made |
| `Zone.Controller.SetRelay` | SELECTHACK.cpp:43-49 | `relayState` becomes the argument, both pins take the same level (LOW exactly when ON), the call is logged once, the occupancy is untouched |
| `Zone.Controller.Callback` | SELECTHACK.cpp:52-72 | the new occupancy is `Received` of the old one; the relay state, the pins and the `setRelay` log are untouched |
| `Zone.Controller.ControlLogic` | SELECTHACK.cpp:75-114 | on a NaN reading nothing changes and no status line is printed; otherwise the relay state becomes `Decide` of the count, the unsigned elapsed time, the temperature and the old state, `setRelay` is called exactly when that state differs from the old one, both pins stay at the level of the relay state, the occupancy is untouched, and the status line carries count, temperature and the same ON/OFF value for LED and FAN |
| `Zone.RepeatedStep` | SELECTHACK.cpp:100-103 | running the control step twice with the same time and temperature ends in the same state as running it once: occupancy untouched, the relay state is `Decide` of the old state, `setRelay` is called once if that state differs from the old one and not at all otherwise (so never by the second step), and both steps print the same status line |

## Left out

- `setup()` and `loop()` (SELECTHACK.cpp:117-154) are not modelled: WiFi association, TLS and MQTT connection, subscription, `client.loop()` and `delay` are network plumbing and timing. Only the relay-OFF pin writes at setup appear, in the constructor.
- The JSON library's deserialisation is abstracted as `CountField`. `is<int>()` is taken to hold only for an integer that fits in an `int`; every other value of `count` (missing, float, boolean, out-of-range integer) is `OtherType`.
- The DHT11 driver and `millis()` are inputs: the reading is an `Option<real>` and the time a `uint32` parameter.
- Floating-point semantics are not modelled: temperatures are exact reals, NaN is `None`. The constants 19.0, 20.0 and 21.0 are exact in `float`, so the comparisons agree with the code for every finite reading.
- The `Serial.print` formatting (one decimal for the temperature, the "JSON parse error" and "Invalid count type" messages) is not modelled; the status line is returned as its fields.
- Zone.Controller.Callback: requires that a string count's `atoi` value fits in an `int`, because the C standard leaves `atoi` overflow undefined.
- The `volatile` qualifier and concurrency between the callback and the control step are not modelled. `client.loop()` runs the callback synchronously before `controlLogic()` in each pass of `loop()`, so the model is sequential.
- `main.py` (camera capture, detection, tracking, zone geometry, MQTT publishing) is not part of this model.
