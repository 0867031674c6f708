# ESP32 sensor-node cycle logic in Dafny

This project models the per-cycle decision logic of two ESP32 sensor nodes. Each node publishes telemetry to an MQTT broker.

- **Temperature/humidity node** (`esp32_dht22`). It reads a DHT22 sensor and rejects implausible readings. It drives a green/red/blue LED alert pattern and publishes a four-field document (`humidity`, `temperature`, `temperatureStatus`, `humidityStatus`).
- **Air-quality node** (`esp32_mq135`). It waits out a 20-second warm-up measured on the 32-bit `millis()` clock. It then converts the 12-bit ADC sample of an MQ-135 sensor to ppm and publishes the ppm with one of four band names (`Good`, `Moderate`, `Poor`, `Unhealthy`).

Each node's `loop()` iteration is a pure step function `Step(state, inputs)`. It returns the next state and the visible effects of the cycle: LED writes, the published document, whether `client.loop()` ran, and the delay. `Run` folds the step over a sequence of cycles. The lemmas about `Run` cover behaviour across many cycles.

Files:

- `float_sample.dfy` (`FloatSample`): a sensor float, either `NaN` or a number. Numbers are `real`. Every ordered comparison with NaN is false, as on IEEE floats.
- `uint32.dfy` (`UInt32`): the 32-bit `unsigned long` and its wrap-around subtraction.
- `telemetry.dfy` (`Telemetry`): the abstract JSON document, a map from key to number or string.
- `wrappers.dfy` (`Wrappers`): `Option`.
- `dht22_node.dfy` (`Dht22Node`): the temperature/humidity node.
- `mq135_node.dfy` (`Mq135Node`): the air-quality node.

Hardware and clock values are step parameters:

- the DHT22 humidity and temperature;
- the ADC sample from `analogRead`;
- the two `millis()` samples of one air-quality cycle. One is taken at the gate check and one at the countdown print.

The model follows the code in these places:

- Humidity has only an upper plausibility bound (100.0). Negative humidity is accepted.
- The warm-up countdown is in whole seconds and uses unsigned 32-bit arithmetic. While the second clock sample is within the warm-up time, it goes down or stays the same between cycles. It does not always go down strictly.
- A publish does not check the broker session state first. The code calls `client.publish` unconditionally, so the model has no session precondition.

## Model

| member | source | states |
|---|---|---|
| UInt32.Sub | esp32_mq135/src/main.cpp:128 | The unsigned 32-bit difference is the unique 32-bit value that gives back `now` when added to `start` with wrap-around. |
| UInt32.SubUndoesWrappingAdd | esp32_mq135/src/main.cpp:128 | The subtraction recovers how far the clock has advanced, even when it wrapped past 2^32. |
| Dht22Node.Plausible | esp32_dht22/src/main.cpp:161-165 | A reading is accepted iff neither value is NaN, humidity is at most 100.0 and temperature is in [-40.0, 80.0]. All bounds are inclusive, and there is no humidity floor. |
| Dht22Node.NegativeHumidityIsPlausible | esp32_dht22/src/main.cpp:161 | A negative humidity with an in-range temperature is accepted. |
| Dht22Node.UpdateLeds | esp32_dht22/src/main.cpp:87-107 | If either input is NaN, all LEDs are off. Otherwise RED is on iff t > 30.0 and BLUE is on iff h > 70.0. GREEN is on iff both are off, so GREEN is never lit with another LED. |
| Dht22Node.ThresholdsAreStrict | esp32_dht22/src/main.cpp:98-106 | With t = 30.0 and h = 70.0, only GREEN is lit. |
| Dht22Node.StatusOf | esp32_dht22/src/main.cpp:116-117 | The status is Alert iff the value is a number strictly above the maximum. NaN gives Normal. |
| Dht22Node.StatusText | esp32_dht22/src/main.cpp:116-117 | The status string is "Alert" or "Normal", and it is "Alert" exactly for Alert. |
| Dht22Node.PublishDocument | esp32_dht22/src/main.cpp:109-118 | The document has exactly the keys humidity, temperature, temperatureStatus and humidityStatus. It carries both readings unchanged. Each status is "Alert" or "Normal", and it is "Alert" iff the value exceeds its threshold. |
| Dht22Node.Step | esp32_dht22/src/main.cpp:156-179 | A rejected reading returns early: the state is unchanged, and there is no LED write, no publish, no `client.loop()` and no delay. An accepted reading writes the LEDs for that reading's t and h (RED iff t > 30.0, BLUE iff h > 70.0). It publishes the document built from the same t and h, then services the client and sleeps 2000 ms. temperatureStatus is "Alert" iff RED is on, humidityStatus is "Alert" iff BLUE is on, and GREEN is on iff both are "Normal". |
| Dht22Node.TemperatureAlertExample | esp32_dht22/src/main.cpp:98-117 | t = 32.5 and h = 65.0 give RED only and a document with temperatureStatus "Alert" and humidityStatus "Normal". |
| Dht22Node.Run | esp32_dht22/src/main.cpp:156-179 | Over many cycles, a cycle publishes, writes the LEDs and services the client exactly when its reading is plausible. |
| Dht22Node.LedsFollowLastPlausible | esp32_dht22/src/main.cpp:161-174 | After any sequence of cycles, the LEDs show the pattern of the most recent plausible reading. If there was none, they keep their earlier state. |
| Dht22Node.ImplausibleRunIsInert | esp32_dht22/src/main.cpp:161-165 | A run of rejected readings leaves the state unchanged and has no effects in any cycle. |
| Mq135Node.ReadPpm | esp32_mq135/src/main.cpp:79-91 | ppm = raw * 3300 / 4095 exactly over reals. For raw in [0, 4095], ppm is in [0, 3300]. |
| Mq135Node.ReadPpmEndpoints | esp32_mq135/src/main.cpp:84-88 | raw = 0 gives 0 ppm, and raw = 4095 gives 3300 ppm. |
| Mq135Node.ReadPpmMonotone | esp32_mq135/src/main.cpp:84-88 | The conversion is non-decreasing in the raw sample. |
| Mq135Node.Classify | esp32_mq135/src/main.cpp:99-107 | The bands form a total, non-overlapping partition: below 700 is Good, [700, 1000) is Moderate, [1000, 1500) is Poor and 1500 or more is Unhealthy. |
| Mq135Node.ClassifyMonotone | esp32_mq135/src/main.cpp:99-107 | A higher ppm never gets a better band. |
| Mq135Node.BandEdges | esp32_mq135/src/main.cpp:99-107 | 700 is Moderate, 1000 is Poor and 1500 is Unhealthy. |
| Mq135Node.StatusText | esp32_mq135/src/main.cpp:99-107 | The status string is one of the four band names. |
| Mq135Node.StatusTextInjective | esp32_mq135/src/main.cpp:99-107 | Distinct bands have distinct names. |
| Mq135Node.PublishDocument | esp32_mq135/src/main.cpp:93-113 | The document has exactly the keys airQualityPPM and airQualityStatus. It carries the ppm, and its status names the band containing the ppm. |
| Mq135Node.Boot | esp32_mq135/src/main.cpp:115-123 | setup() records the clock as the warm-up start, and the sensor is not ready. |
| Mq135Node.Gate | esp32_mq135/src/main.cpp:128-131 | The warm-up start never changes. Once ready, the node stays ready. A warming node becomes ready iff the wrapped elapsed time is strictly greater than 20000 ms. |
| Mq135Node.GateOpensAfterWarmup | esp32_mq135/src/main.cpp:121-131 | From boot, a clock d ms past the start (modulo 2^32) opens the gate iff d > 20000, whether or not the clock wrapped. |
| Mq135Node.GateOpensAcrossWrapExample | esp32_mq135/src/main.cpp:128 | With the start 4096 ms below the wrap point, a wrapped clock of 15904 ms keeps the gate closed and 15905 ms opens it. |
| Mq135Node.SecondsRemainingAsWritten | esp32_mq135/src/main.cpp:147 | The countdown as the code evaluates it. For elapsed time at most 20000 ms, it is the whole number of seconds left. |
| Mq135Node.SecondsRemainingAsWrittenWraps | esp32_mq135/src/main.cpp:147 | At 20001 ms elapsed, the as-written countdown is 4294967 seconds. |
| Mq135Node.SecondsRemaining | esp32_mq135/src/main.cpp:147 | The corrected countdown is in [0, 20]. It equals the as-written value up to 20000 ms and is 0 after that. |
| Mq135Node.SecondsRemainingNonIncreasing | esp32_mq135/src/main.cpp:147 | The countdown never goes up as elapsed time grows. |
| Mq135Node.Step | esp32_mq135/src/main.cpp:125-153 | The gate is checked first. The cycle reads and publishes iff the node is ready after the check, and the document is the one built from the ppm of this cycle's ADC sample. Otherwise it reports the countdown exactly as the code computes it from the second clock sample; that countdown is at most 20 s when the second sample is within the warm-up time. Every cycle, warming or ready, services the client and sleeps 2000 ms. |
| Mq135Node.StepCountdownWrapsExample | esp32_mq135/src/main.cpp:128-147 | Booting at clock 0, a gate check at 20000 ms and a countdown clock of 20001 ms report 4294967 seconds remaining. |
| Mq135Node.StepCorrected | esp32_mq135/src/main.cpp:125-153 | This is the cycle with the saturating countdown. It has the same state change, publish decision, document, servicing and delay as `Step`, and its countdown is always at most 20 s. It equals `Step` whenever the second clock sample is within the warm-up time. |
| Mq135Node.Run | esp32_mq135/src/main.cpp:125-153 | Over many cycles, the warm-up start is kept, readiness is never lost and the client is serviced every cycle. |
| Mq135Node.ReadyIffGateOpened | esp32_mq135/src/main.cpp:128-131 | After a run, the node is ready iff it was ready before or some gate check in the run saw more than 20000 ms elapsed. |
| Mq135Node.PublishesIffGateOpened | esp32_mq135/src/main.cpp:128-149 | Cycle i publishes iff the node started ready or one of the gate checks in cycles 0..i opened the gate. Otherwise it reports a countdown. |

## Left out

- `connectAWS` (Wi-Fi association, TLS credentials, MQTT connect and subscribe, and their unbounded retry loops): network I/O against libraries outside this model. Its "Timeout" branch depends only on transport state.
- `messageHandler`: its only effects are JSON parsing by the library and a serial print.
- Byte-level `serializeJson` output and the 512-byte buffer: only the abstract key/value document is modelled. This includes how a NaN number is rendered.
- `client.publish` delivery, and the session state it depends on: a publish is recorded as an effect.
- The DHT22 driver, `analogRead` and `millis()`: their results are step parameters.
- `setup()` pin configuration, the LED blink test, `Serial` logging and the real `delay`. The delay is recorded only as a number of milliseconds.
- Mq135Node.ReadPpm: computed over `real`. The float and double rounding of `3.3 / 4095.0` and of the products is not modelled, so the endpoint and boundary results are exact only over reals.
- Dht22Node.Plausible: sensor floats are reals, so comparisons at the bounds are exact only over reals.

## Findings

| source | as written | input that shows it | evidently intended | confidence | as-written member | corrected member |
|---|---|---|---|---|---|---|
| esp32_mq135/src/main.cpp:128-147 | The countdown `(WARMUP_TIME - (millis() - sensor_warmup_time)) / 1000` reads `millis()` again after the gate check and is evaluated in `unsigned long`. | The gate check sees exactly 20000 ms elapsed and keeps the gate closed. The clock then ticks once before the countdown, so 20001 ms have elapsed and the countdown prints 4294967 seconds remaining. | The countdown should saturate at 0 seconds once the warm-up time has passed. | medium; not executed | Mq135Node.SecondsRemainingAsWritten | Mq135Node.SecondsRemaining |

`Mq135Node.Step` and `Mq135Node.Run` report the countdown as the code computes it. `Mq135Node.StepCorrected` is the same cycle with the corrected countdown. The two agree whenever the second clock sample is within the warm-up time.
