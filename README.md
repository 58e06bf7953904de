# pi-weather-station in Dafny

This project models the core of a Raspberry Pi weather station and proves properties of that model. The station reads these sensors:

- a DHT11 temperature/humidity sensor, decoded bit by bit from its data pin;
- a resistor-ladder wind vane read through an MCP3008 ADC;
- a cup anemometer and a tipping-bucket rain gauge, counted by interrupts;
- a push button.

Sensor events arrive on a channel and are dispatched by the main loop. The latest readings are kept in a small cache that a web API serves as JSON and static files. The project also models a driver for an HD44780-style character LCD.

Each module follows one source file:

| module | file | what it models |
|---|---|---|
| `Base` | (shared) | the pulse-rate formula shared by the counting sensors, bit helpers, `Option`, `byte` |
| `Events` | `src/hardware/events.rs` | the event tags, with the `RainCount` tag that main.rs and rain.rs use |
| `Dht` | `src/hardware/dht.rs` | the result codes; the `read_sensor` decoder as array-filling loops proved against recursive specification functions; `update`; the 20-attempt self-test loop |
| `Vane` | `src/hardware/vane.rs` | the 10-bit ADC word, the voltage, the first-wins nearest-resistor search (a loop proved against a reference `Nearest`), the angle and its compass label |
| `Anemometer`, `Rain`, `Button` | the three counting-sensor files | counters as classes, plus the unit conversions |
| `Snapshot`, `Payloads` | payload code in the sensor files | the station state (`DataPoint`, `DaytimeData`); every `Payload` as one closed datatype with its single `Apply` update |
| `Dispatch` | `src/main.rs` lines 59-95 | the event loop over a sequence of polls |
| `Cache` | `src/api/cache.rs` | the two-slot API cache |
| `Api` | `src/api/mod.rs` | route selection, the content-type choice, and the JSON shape of `/latest` |
| `Display` | `src/hardware/display.rs` | the LCD driver as a class that appends every enable-pulse latch to a log; `Decode` reads the log back the way the controller does |

Hardware and time are inputs, not effects:

- the DHT data pin is a function from poll index to level;
- elapsed milliseconds and timestamps are parameters;
- the SPI reply is a byte sequence.

A Rust panic is modelled as a distinct outcome, with debug-build overflow checks. Examples:

- a `u8` sum that overflows;
- a slice of a too-short buffer or path;
- an out-of-range index.

Where the station's documented behaviour and its code disagree, the model follows the code:

- DHT11 humidity is `data[0] + data[1] * 0.1` and temperature is `data[2] + data[3] * 0.1` (src/hardware/dht.rs:239-240), not a 16-bit big-endian value divided by ten.
- The rain gauge keeps no never-reset total: `update_data` zeroes the only counter (src/hardware/rain.rs:102).

Where the code has a bug (see "## Findings"), the model keeps both definitions. The as-written one comes with a lemma that exhibits the bug. The corrected one is used by the sensor classes, the display driver and the API. "## Left out" names each member that therefore differs from the source.

## Model

| member | source | states |
|---|---|---|
| Base.RateTimesWindow | src/hardware/anemometer.rs:119-127 | the rate times the window in seconds gives back the count; zero counts give a zero rate; rates are never negative |
| Base.RateMonotone | src/hardware/anemometer.rs:119-127 | more pulses in the same window never give a lower rate |
| Base.Rate | src/hardware/anemometer.rs:122 | a rate is never negative, and it is zero exactly when no pulse was counted |
| Events.EventTypesClosed | src/hardware/events.rs:4-12 | the event tags form a closed set of eight distinct values (the seven declared plus `RainCount`) |
| Events.NewEvent | src/hardware/events.rs:19-28 | `get_event_type` of `Event::new(t)` is `t` |
| Dht.StateFromCode | src/hardware/dht.rs:91-99 | a state's discriminant is returned exactly for 0, -1, -2 and -999; every other code maps to `InvalidValue` |
| Dht.StateCodeRoundTrip | src/hardware/dht.rs:74-99 | decoding a state's discriminant gives back that state |
| Dht.StateStr | src/hardware/dht.rs:82-89 | the name is "Ok" exactly for the `Ok` state |
| Dht.DHTData.TempFahrenheit | src/hardware/dht.rs:37-39 | converting the Fahrenheit value back to Celsius gives the stored temperature |
| Dht.Run | src/hardware/dht.rs:209-219 | the number of consecutive polls at a level, capped at the timeout count |
| Dht.RunExact | src/hardware/dht.rs:209-213 | a run of exactly `n` polls at a level, then a different level, counts `n` |
| Dht.RunFull | src/hardware/dht.rs:209-213 | a level held for the whole limit counts the limit, which is the timeout |
| Dht.Measure | src/hardware/dht.rs:206-220 | the specification of the pulse loop: either a timeout, or the 82 low/high counts |
| Dht.MeasureBounded | src/hardware/dht.rs:208-220 | every count of a completed measurement is below 37500 |
| Dht.CountPulse | src/hardware/dht.rs:209-219 | one busy-wait loop: it times out exactly when the run reaches 37500; otherwise it stores the run length and moves past the pulse; other slots are untouched |
| Dht.MeasureStep | src/hardware/dht.rs:208-220 | a pair that does not time out contributes its two counts, and measuring continues after it |
| Dht.MeasureStops | src/hardware/dht.rs:212-218 | a pair whose low or high pulse reaches the limit makes the whole measurement time out |
| Dht.MeasurePair | src/hardware/dht.rs:208-220 | one pass of the pulse loop stores one low count and one high count, or reports the timeout of the whole measurement |
| Dht.MeasureNextPair | src/hardware/dht.rs:208-220 | the counts stored so far, plus one more pair, are still a prefix of the whole measurement |
| Dht.MeasurePulses | src/hardware/dht.rs:202-220 | the pulse loop times out exactly when `Measure` does; otherwise the array holds exactly the measured counts |
| Dht.StuckLowTimesOut | src/hardware/dht.rs:209-212 | a line held low for 37500 polls makes the read time out |
| Dht.LowSumBounds | src/hardware/dht.rs:222-225 | a sum of `j` low counts, each within [lo, hi], lies between `lo*j` and `hi*j` |
| Dht.Threshold | src/hardware/dht.rs:222-226 | the corrected threshold is the mean of the 40 bit-start lows (indices 2 to 80), rounded down: 40 times it is at most their sum, and 40 times one more exceeds it |
| Dht.ThresholdAsWritten | src/hardware/dht.rs:222-226 | as written: the sum of only the 20 lows at indices 2 to 40, divided by 40 and rounded down |
| Dht.ThresholdBetween | src/hardware/dht.rs:222-226 | the corrected threshold (the mean of the 40 bit-start lows) lies within the range of those lows |
| Dht.ThresholdsOnUniformLows | src/hardware/dht.rs:222-226 | with every low pulse of length L, the as-written threshold is L/2 while the corrected one is L |
| Dht.BitsSeparate | src/hardware/dht.rs:228-237 | with the corrected threshold, a high pulse shorter than every low reads 0, and one at least as long as every low reads 1 |
| Dht.ThresholdAsWrittenMisreadsZero | src/hardware/dht.rs:222-226 | a concrete pulse train whose first bit the as-written threshold reads as 1 and the corrected one reads as 0 |
| Dht.ComputeThreshold | src/hardware/dht.rs:222-226 | the threshold loop computes the corrected threshold `Threshold` of the array (all 40 lows, where the source stops at index 40) |
| Dht.PackBits | src/hardware/dht.rs:228-237 | MSB-first packing of `n` bits is below 2^n |
| Dht.UnpackPack | src/hardware/dht.rs:228-237 | unpacking a packed bit sequence gives it back |
| Dht.PackUnpack | src/hardware/dht.rs:228-237 | packing the bits of an `n`-bit number gives it back |
| Dht.PackBitsAt | src/hardware/dht.rs:228-237 | bit `j` of the sequence is bit `n-1-j` of the packed value |
| Dht.DataBytes | src/hardware/dht.rs:228-237 | the bit stream in bytes: one byte per eight bits |
| Dht.DataBytesAt | src/hardware/dht.rs:228-237 | byte `b` is the MSB-first packing of bits `8b` to `8b+7` |
| Dht.DataBitPosition | src/hardware/dht.rs:230-236 | data bit `k` lands in byte `k/8` at bit position `7 - k%8` |
| Dht.PackConstant | src/hardware/dht.rs:228-237 | `n` equal bits pack to 2^n - 1 when set and to 0 when clear |
| Dht.DataBytesConstant | src/hardware/dht.rs:228-237 | a frame whose 40 bits are all equal is five bytes of 255, or five bytes of 0 |
| Dht.PartialStep | src/hardware/dht.rs:231-236 | shifting in bit `k` doubles byte `k/8` and adds the bit, and that byte is below 128 before the shift |
| Dht.ShiftIn | src/hardware/dht.rs:231-236 | `data[idx] <<= 1`, then an or-in of 1 when the bit is set, changes only that byte |
| Dht.ShiftInBit | src/hardware/dht.rs:230-236 | shifting bit `k` into its byte advances the partial bytes by one bit |
| Dht.AssembleBytes | src/hardware/dht.rs:228-237 | the bit loop yields exactly the 5 bytes of the thresholded data bits |
| Dht.SumChecksum | src/hardware/dht.rs:242-244 | the `u8` sum of bytes 0-3 overflows exactly when their sum exceeds 255; otherwise it is that sum |
| Dht.Decoded | src/hardware/dht.rs:228-237 | the pulse counts decode to five bytes under any threshold |
| Dht.Receive | src/hardware/dht.rs:202-240 | a completed read yields five data bytes, decoded with the corrected threshold |
| Dht.ReadOutcome | src/hardware/dht.rs:190-251 | `read_sensor` returns only 0, -1 or -2, and -2 exactly when the pulses time out |
| Dht.ReadOutcomeMeaning | src/hardware/dht.rs:202-251 | the code is -2 iff the pulses time out, -1 iff the checksum differs without overflow, and 0 iff it matches; the read panics iff the sum overflows; every returned code round-trips through `StateFromCode` |
| Dht.ZeroTrainPanicsAsWritten | src/hardware/dht.rs:222-246 | on a clean frame of zero bits (lows 50, highs 27) the as-written threshold decodes five bytes of 255, whose `u8` checksum overflows, so `read_sensor` panics; the corrected threshold decodes five zero bytes with a matching checksum |
| Dht.ZeroTrainReadsZero | src/hardware/dht.rs:178-251 | a line that delivers that frame reads as code 0 and a success with temperature and humidity 0 in the model |
| Dht.AttemptOf | src/hardware/dht.rs:178-188 | `update` panics exactly when the read panics; a failure carries the read's non-zero code; a success carries the temperature and humidity of the received bytes |
| Dht.AttemptOfMeaning | src/hardware/dht.rs:178-188 | `update` succeeds iff the checksum matches; it panics iff the read does; a failure carries -1 or -2 |
| Dht.YieldsIff | src/hardware/dht.rs:178-188 | an attempt is yielded by a line exactly when it is that line's outcome |
| Dht.CountSuccesses | src/hardware/dht.rs:143 | there are never more successes than attempts |
| Dht.Readings | src/hardware/dht.rs:145-148 | the payload list has one reading per successful attempt |
| Dht.RecordStep | src/hardware/dht.rs:139-153 | one more attempt adds one success and one timestamped reading iff it succeeded |
| Dht.ReadingsFromSuccesses | src/hardware/dht.rs:145-148 | every sent reading is valid and carries the values and time of a successful attempt |
| Dht.AttemptsExtend | src/hardware/dht.rs:139-153 | a non-panicking attempt of the next round keeps every recorded attempt a non-panicking outcome of its own round |
| Dht.DHT.constructor | src/hardware/dht.rs:120-130 | a new sensor holds 0.0 for both values and no update time |
| Dht.DHT.ReadSensor | src/hardware/dht.rs:190-251 | returns the outcome of `ReadOutcome` (corrected threshold); after a received frame it sets humidity and temperature from the bytes; after a timeout it leaves them as they were |
| Dht.DHT.Update | src/hardware/dht.rs:178-188 | reports the line's `AttemptOf` outcome (corrected threshold); a failed read sets both values to -999 and returns a non-zero code; a success leaves the decoded values |
| Dht.DHT.StartReading | src/hardware/dht.rs:136-174 | the loop makes 20 attempts (or stops at a panic); it counts the successes; it sends one `SensorRead` and one payload per success, then `Exit` after all 20; `last_update` ends as the time of the last reading sent, or unchanged when none was sent |
| Vane.AdcCode | src/hardware/vane.rs:132-136 | the ADC word is at most 1023, with `buf[2]` as its low byte and the low two bits of `buf[1]` as its high bits |
| Vane.AdcCodeRoundTrip | src/hardware/vane.rs:132-136 | every 10-bit word is reassembled from its own two bytes |
| Vane.Voltage | src/hardware/vane.rs:138 | the voltage lies in [0, 3.3], with 0 at code 0 and 3.3 at code 1023 |
| Vane.VoltageMonotone | src/hardware/vane.rs:138 | a higher code never gives a lower voltage |
| Vane.LadderVoltage | src/hardware/vane.rs:32 | each ladder voltage lies strictly between 0 and 3.3 |
| Vane.FirstClosestFrom | src/hardware/vane.rs:31-39 | the reference search from position `i` names one of the 16 positions |
| Vane.Nearest | src/hardware/vane.rs:28-39 | the reference answer names one of the 16 positions |
| Vane.FirstClosestFromFinds | src/hardware/vane.rs:31-39 | the reference search finds the first eligible position at or after `i` |
| Vane.ClosestExists | src/hardware/vane.rs:28-39 | whenever some difference is below 999, an eligible position exists |
| Vane.NearestMeaning | src/hardware/vane.rs:28-39 | the chosen position has the smallest difference, and every earlier position's difference is strictly larger (ties go to the lowest index); with no difference below 999 it is position 0 |
| Vane.NoCandidateFallsBack | src/hardware/vane.rs:28-39 | with no difference below 999 the search keeps its initial index 0 |
| Vane.NearestUnique | src/hardware/vane.rs:35-38 | any position that is closest, under 999, and strictly better than every earlier one is the answer |
| Vane.FirstClosestSkips | src/hardware/vane.rs:35-38 | the search passes over positions with strictly larger differences |
| Vane.AdcVoltageHasCandidate | src/hardware/vane.rs:29-33 | every voltage the ADC can produce is within 999 of some ladder voltage |
| Vane.Wrap | src/hardware/vane.rs:43-45 | at most one 360 is subtracted, and angles below 720 end up in [0, 360) |
| Vane.Angle | src/hardware/vane.rs:41-45 | the angle of each of the 16 positions lies in [0, 360) |
| Vane.AngleOfPosition | src/hardware/vane.rs:41 | with zero calibration the angle of position `i` is `i * 22.5`, in [0, 360) |
| Vane.FindDirectionByVoltage | src/hardware/vane.rs:27-48 | the search loop returns the angle of the reference `Nearest` position |
| Vane.ScanResult | src/hardware/vane.rs:31-39 | the loop's final index and minimum difference identify the reference answer |
| Vane.Label | src/hardware/vane.rs:76-78 | a label exists exactly for directions below 360 (otherwise the index is out of bounds) |
| Vane.LabelOfPosition | src/hardware/vane.rs:76-78 | the angle of position `i` is labelled with `DIRECTIONS[i]` |
| Vane.DirectionOfLabelled | src/hardware/vane.rs:132-139 | every direction parsed from an ADC reply lies in [0, 360) and is labelled with its nearest position's name |
| Vane.WindVane.constructor | src/hardware/vane.rs:113-122 | a new vane holds voltage and direction 0 and a zeroed 16-byte buffer |
| Vane.WindVane.ParseBits | src/hardware/vane.rs:132-140 | panics iff fewer than 3 bytes were read; otherwise it sets the voltage of the ADC word and its direction |
| Vane.WindVane.UpdateData | src/hardware/vane.rs:124-130 | the reply is copied into the buffer; the payload is sent iff the reply has at least 3 bytes; it carries the new direction and a timestamp, so it is valid |
| Anemometer.CmPerSec | src/hardware/anemometer.rs:35-37 | the speed is zero exactly at zero spins and positive for positive spins |
| Anemometer.Kph | src/hardware/anemometer.rs:39-41 | km/h is zero exactly at zero spins, and for positive spins exceeds the plain cm/s-to-km conversion (the hour factor and the 1.18 adjustment raise it) |
| Anemometer.Mph | src/hardware/anemometer.rs:43-45 | mph is zero exactly at zero spins, and for positive spins lies strictly between 0 and the km/h value |
| Anemometer.SpeedsProportional | src/hardware/anemometer.rs:35-45 | cm/s is `spins * pi * 9`; km/h is a fixed multiple of it; mph is km/h over 1.609344 |
| Anemometer.SpeedsMonotone | src/hardware/anemometer.rs:35-45 | all three speeds are monotone in the spin rate and zero at zero spins |
| Anemometer.ConvertToKphAsWrittenIsCmPerSec | src/hardware/anemometer.rs:47-53 | the as-written static conversions disagree with `get_kph`/`get_mph` at one spin per second |
| Anemometer.ConvertAgreesWithReading | src/hardware/anemometer.rs:39-53 | the corrected conversions equal a reading's own `get_kph`/`get_mph`, and differ from the as-written one at every non-zero rate |
| Anemometer.Anemometer.constructor | src/hardware/anemometer.rs:96-105 | counter and rate start at 0, and the window starts now |
| Anemometer.Anemometer.IncrementCounter | src/hardware/anemometer.rs:115-117 | the counter goes up by exactly one; nothing else changes |
| Anemometer.Anemometer.UpdateData | src/hardware/anemometer.rs:119-127 | the rate is the old count over the window; the counter is reset; the window restarts now; the payload carries the rate and a timestamp |
| Rain.AmountCmAsWrittenOverstates | src/hardware/rain.rs:34-36 | dividing by the mm-per-tick factor overstates every positive amount (10 ticks: more than 3.5 cm instead of 0.2794 cm) |
| Rain.AmountsMonotone | src/hardware/rain.rs:34-40 | the amounts are monotone in the tick rate and zero at zero; inches times 2.54 is centimetres |
| Rain.RainData.GetAmountCm | src/hardware/rain.rs:34-36 | the corrected amount: ten times it is the tick rate times 0.2794 mm; it is never negative for a non-negative rate |
| Rain.RainData.GetAmountIn | src/hardware/rain.rs:38-40 | inches times 2.54 is the centimetre amount |
| Rain.RainMeter.constructor | src/hardware/rain.rs:75-84 | counter and rate start at 0, and the window starts now |
| Rain.RainMeter.IncrementCounter | src/hardware/rain.rs:94-96 | the counter goes up by exactly one; nothing else changes |
| Rain.RainMeter.UpdateData | src/hardware/rain.rs:98-106 | the rate is the old count over the window; the counter is reset; the payload carries the rate and a timestamp |
| Button.Button.constructor | src/hardware/button.rs:47-56 | counter and press rate start at 0 |
| Button.Button.IncrementCounter | src/hardware/button.rs:70-72 | the counter goes up by exactly one; nothing else changes |
| Button.Button.UpdateData | src/hardware/button.rs:74-82 | the press rate is the old count over the window; the counter is reset; the payload carries exactly the new rate and time |
| Snapshot.NewDataPoint | src/api/cache.rs:15 | a fresh snapshot holds no valid reading and no message |
| Snapshot.NewDaytimeData | src/api/cache.rs:14 | fresh extremes are negative, meaning unset |
| Payloads.WindExtremes | src/hardware/anemometer.rs:73-81 | the reading ends up within [min, max]; an unset minimum takes the reading; a set minimum never rises and the maximum never falls; each bound is either unchanged or the reading |
| Payloads.Apply | src/hardware/events.rs:31-52 | each payload writes its own slot and no other; only the anemometer updates the extremes; the empty payload sets the message "New message sent!"; a button payload sets the message to the press rate it carries |
| Payloads.ExtremesAreMinAndMax | src/hardware/anemometer.rs:74-80 | from unset extremes, a day of non-negative readings leaves exactly their minimum and maximum |
| Cache.ApiCache.constructor | src/api/cache.rs:12-17 | a new cache holds fresh extremes and an empty snapshot |
| Cache.ApiCache.UpdateDaytimeData | src/api/cache.rs:19-21 | replaces the extremes only |
| Cache.ApiCache.UpdateLatestData | src/api/cache.rs:23-25 | replaces the snapshot only |
| Cache.ApiCache.GetDaytimeData | src/api/cache.rs:27-29 | returns the stored extremes without changing the cache |
| Cache.ApiCache.GetLatestData | src/api/cache.rs:31-33 | returns the stored snapshot without changing the cache |
| Cache.UpdateApiCache | src/api/cache.rs:40-50 | each `Some` replaces its slot; each `None` leaves it as it was |
| Cache.UpdateThenRead | src/api/cache.rs:40-62 | the getters after an update return the written values, or the old ones where nothing was written |
| Api.TrimSlashes | src/api/mod.rs:40 | the result is a prefix of the path that does not end in a slash, and everything removed is slashes |
| Api.LastIndexOf | src/api/mod.rs:40 | the last occurrence of a character, or none when it does not occur |
| Api.LastComponent | src/api/mod.rs:40 | the last component is a suffix of the path with no slash in it, preceded by a slash whenever it is not the whole path |
| Api.Extension | src/api/mod.rs:40 | an extension contains neither a dot nor a slash |
| Api.ExtensionOfFile | src/api/mod.rs:40 | the extension of `dir/stem.ext` is `ext` |
| Api.NoExtension | src/api/mod.rs:40 | a name with no dot after its first character has no extension |
| Api.DirectoryExtension | src/api/mod.rs:40 | "/" and a directory path ending in a slash have no extension |
| Api.ContentType | src/api/mod.rs:39-48 | the content type is one of the four the server sends |
| Api.ContentTypeMeaning | src/api/mod.rs:39-48 | html, css and js map to their types in both directions, and every other extension or none maps to text/plain |
| Api.GetStaticFile | src/api/mod.rs:28-54 | an existing file is served with its path's content type; a missing one is a 404 |
| Api.WindOf | src/api/mod.rs:83-88 | the wind entry is null exactly for an invalid reading; otherwise it carries the reading's mph, km/h and time |
| Api.DirOf | src/api/mod.rs:91-96 | the direction entry is null exactly for an invalid reading; a valid direction without a label panics; otherwise it carries the direction, its label and time |
| Api.RainOf | src/api/mod.rs:99-104 | the rain entry is null exactly for an invalid reading; otherwise it carries both amounts and the time |
| Api.TempOf | src/api/mod.rs:107-113 | the temperature entry is null exactly for an invalid reading; otherwise it carries both scales, the humidity and the time |
| Api.GetApiData | src/api/mod.rs:67-132 | "" and "/" give the version v0.1.0 and nothing else does; only GET "/latest" gives the latest document or a panic, and it always gives one of the two; every other sub-path is a 404 |
| Api.VersionForAnyMethod | src/api/mod.rs:69-78 | "" and "/" return version v0.1.0 for every method |
| Api.LatestNullIffInvalid | src/api/mod.rs:79-127 | GET /latest panics iff a valid direction is at least 360; otherwise it serves the latest document, in which each sensor's JSON is null iff its reading is invalid, and the present values are the readings' own |
| Api.LatestFromVaneNeverPanics | src/api/mod.rs:92-96 | a direction parsed from an ADC reply always has a label, so /latest does not panic |
| Api.IndexIsHtml | src/api/mod.rs:136 | the index file has the html extension |
| Api.RootServesIndex | src/api/mod.rs:136 | GET / serves /index.html as text/html when it exists, else a 404 |
| Api.ApiService | src/api/mod.rs:134-149 | only GETs are served files, and only files that exist; the version and the latest document are served only under the "/api" prefix, the latter only for GET "/api/latest"; a panic comes only from a path shorter than 4 characters or from GET "/api/latest" |
| Api.ServiceRouting | src/api/mod.rs:134-149 | GETs of "/" or of a path with an extension are static; other paths shorter than 4 bytes panic; "/api" paths go to the API with the prefix removed; the rest get a 404; only GETs are served files |
| Api.ApiRootIsVersion | src/api/mod.rs:141-143 | GET /api returns the version |
| Api.ApiHasNoExtension | src/api/mod.rs:137-138 | the path "/api" has no extension, so a GET of it is not a static file |
| Api.PostLatestIsNotFound | src/api/mod.rs:128-130 | POST /api/latest is a 404 |
| Api.StylesheetIsCss | src/api/mod.rs:138-139 | an existing stylesheet is served as text/css |
| Api.StaticRoute | src/api/mod.rs:138-139 | every GET of a path with an extension is the static-file lookup |
| Dispatch.Received | src/main.rs:60 | at most one event is received per poll |
| Dispatch.SinceLastUpdate | src/main.rs:82-87 | the position just after the last `UpdateData`: none follows it, and the event before it is one |
| Dispatch.CounterAfterCountsSinceUpdate | src/main.rs:76-87 | after any event sequence, a counter equals its starting value (if no `UpdateData` was seen) or 0, plus its count events since the last `UpdateData` |
| Dispatch.CounterAfterStep | src/main.rs:76-81 | one more event changes a counter exactly as that event's handler does |
| Dispatch.SamplingOrderMeaning | src/main.rs:82-87 | the payloads are in sampling order iff payload `k` comes from sensor `k mod 3` (anemometer, rain, vane) and is timestamped |
| Dispatch.SamplingOrderAppend | src/main.rs:82-87 | whole sampling rounds followed by a sampling-ordered list stay in sampling order |
| Dispatch.Sample | src/main.rs:82-87 | `UpdateData` samples the anemometer, then the rain gauge, then the vane; it resets both counters; it panics iff the vane reply is short, after the first two payloads |
| Dispatch.Handle | src/main.rs:61-93 | `Exit` ends the loop; each count event bumps only its own counter; `UpdateData` sends, in order, the anemometer and rain rates of the old counters stamped with the current time, then the vane direction decoded from the reply (left out if the vane panics), and resets both counters; a count event bumps only its own counter and leaves that sensor's other fields alone; every other event changes none of the three sensors |
| Dispatch.Step | src/main.rs:60-94 | one iteration keeps the counters equal to their event-sequence specification and the payloads in sampling order, three per `UpdateData` |
| Dispatch.Run | src/main.rs:59-95 | the loop stops at the first `Exit` or panic and processes nothing after it; the counters equal their specification over the events received; the payloads number three per `UpdateData` and are in sampling order |
| Display.BitIsShr | src/hardware/display.rs:140 | bit `k` of a value is the low bit of the value shifted right by `k` |
| Display.Pins | src/hardware/display.rs:139-158 | a nibble drives exactly the four data pins |
| Display.EncodeSnoc | src/hardware/display.rs:133-161 | the latches of a write sequence extended by one are the old latches plus that write's two |
| Display.NibbleValue | src/hardware/display.rs:139-158 | the four pins read back as a number below 16 |
| Display.PinsValue | src/hardware/display.rs:139-145 | the pins set from offset `o` read back as bits `o` to `o+3` of the value |
| Display.LowNibble | src/hardware/display.rs:150-158 | the low-nibble pins read back as the value mod 16 |
| Display.FrameRoundTrip | src/hardware/display.rs:133-161 | high nibble times 16 plus low nibble is the byte written, and the controller decodes the two latches as exactly that write |
| Display.DecodePair | src/hardware/display.rs:133-161 | the controller decodes latches two at a time |
| Display.DecodeEncode | src/hardware/display.rs:133-161 | the controller decodes the latch log of any write sequence back to that sequence |
| Display.InitWritesValues | src/hardware/display.rs:77-90 | initialisation sends 0x33, 0x32, 0x0C, 0x28, 0x06 and 0x01 as commands, and the entry mode has `ENTRY_LEFT` set |
| Display.CursorAddressInRange | src/hardware/display.rs:105-111 | with 1 to 4 rows and a column below 40, the corrected address is `0x80 \| (col + ROW_OFFSETS[min(row, rows-1)])` |
| Display.CursorAsWrittenSkipsClamp | src/hardware/display.rs:105-111 | as written, row 4 of a 4-row display panics and row 2 of a 2-row display addresses the third row's offset; the corrected clamp addresses the last row |
| Display.EmittedStep | src/hardware/display.rs:120-130 | each character of the message adds its write, or ends the message with a panic |
| Display.EmittedStopsAtPanic | src/hardware/display.rs:120-130 | once a character panics, the rest of the message writes nothing |
| Display.EmittedLength | src/hardware/display.rs:120-130 | a message that does not panic makes one write per character |
| Display.EmittedAt | src/hardware/display.rs:120-130 | character `j` is written in char mode as its byte; the k-th newline is a cursor command to line k |
| Display.EmittedNeverPanics | src/hardware/display.rs:120-130 | with the corrected clamp, 1 to 4 rows and either `ENTRY_LEFT` or 1 to 40 columns, no message panics |
| Display.FourRowNewlines | src/hardware/display.rs:105-126 | on a 20x4 display in the initial entry mode, newlines 1 to 3 address rows 1 to 3 under either clamp; newline 4 panics as written and stays on row 3 when corrected |
| Display.FourNewlinesCounted | src/hardware/display.rs:120-126 | each prefix of four newlines counts its own length in newlines |
| Display.NewlineStep | src/hardware/display.rs:120-126 | a newline that addresses a row appends exactly that cursor command |
| Display.ThreeNewlines | src/hardware/display.rs:120-126 | under either clamp, three newlines on a 20x4 display send the cursor commands 0xC0, 0x94 and 0xD4 |
| Display.FourthNewlinePanicsAsWritten | src/hardware/display.rs:105-130 | as written, the message of four newlines on a 4-row display panics after three cursor commands; with the corrected clamp it sends four, the last on row 3 |
| Display.LCDDisplay.constructor | src/hardware/display.rs:60-93 | the new display's log is exactly the latches of the initialisation writes |
| Display.LCDDisplay.Clear | src/hardware/display.rs:95-98 | appends the latches of command 0x01 |
| Display.LCDDisplay.CursorHome | src/hardware/display.rs:100-103 | appends the latches of command 0x02 |
| Display.LCDDisplay.SetCursor | src/hardware/display.rs:105-111 | appends the latches of the corrected cursor command, or panics with nothing written when the address does not exist or overflows a byte |
| Display.LCDDisplay.WriteMessage | src/hardware/display.rs:113-131 | with the corrected clamp: a non-ASCII message writes nothing; otherwise the log grows by exactly the latches of the message's writes, and it panics iff the message does |
| Display.LCDDisplay.PutChar | src/hardware/display.rs:120-129 | with the corrected clamp: one character's write is appended, or the panic reported with nothing written |
| Display.LCDDisplay.NewLine | src/hardware/display.rs:121-126 | with the corrected clamp: the newline's cursor command is appended, or the panic reported with nothing written |
| Display.LCDDisplay.WriteBit | src/hardware/display.rs:133-161 | appends the high-nibble latch and then the low-nibble latch of the byte, with RS high iff char mode |
| Display.LCDDisplay.PulseEnable | src/hardware/display.rs:163-170 | latches the current RS and data pins once and leaves enable low |

## Left out

- GPIO, SPI, pin modes, pull-ups, the DHT wake-up handshake, and every `sleep`. The DHT pin is a function from poll index to level. The SPI reply is a parameter. The LCD pins are recorded only when enable latches them.
- Threads, channels and interrupt callbacks (`spawn`, `set_async_interrupt`, crossbeam send/recv). Sent events and payloads are returned as sequences. The main loop's channel is a sequence of polls, where an empty poll is `None`.
- `SystemTime`, `elapsed()` and all chrono formatting. Elapsed milliseconds and timestamps are parameters. The JSON timestamp strings and JSON serialisation are not modelled; the JSON is a record.
- f32 arithmetic: conversions, voltages and angles are `real`. The model makes no claim about rounding, infinity or NaN.
- Base.Rate: needs an elapsed time above zero. With a zero window the source divides by zero in f32 and sends infinity or NaN, which is not modelled.
- Counters are unbounded `nat`. The source's `i32` counters could overflow after 2^31 pulses; that is not modelled.
- Dht.DHT.StartReading: besides the threshold, the final ten-second sleep is not modelled, nor the text of the printed summary.
- Dht.Threshold: the decoder uses the corrected threshold (see Findings). `ThresholdAsWritten` is the source's.
- Dht.ComputeThreshold: its loop runs over all 40 lows (indices 2 to 80) and computes the corrected threshold. The source's loop stops below index 41 and computes `ThresholdAsWritten`.
- Dht.Receive: decodes with the corrected threshold, so on some pulse trains its bytes differ from the source's. `Decoded` with `ThresholdAsWritten` gives the source's bytes.
- Dht.ReadOutcome: follows `Receive`, so it uses the corrected threshold. `Dht.ZeroTrainPanicsAsWritten` shows a frame on which the source panics but the model returns 0.
- Dht.AttemptOf: inherits the corrected threshold from `ReadOutcome`.
- Dht.DHT.ReadSensor: uses the corrected threshold. On the frame of `Dht.ZeroTrainPanicsAsWritten` (every low 50, every high 27) the source reads five bytes of 255 and panics on the checksum overflow, while the model returns 0.
- Dht.DHT.Update: inherits the corrected threshold from `ReadSensor`. On that frame the source panics where the model reports a success.
- Dht.DHT.StartReading: inherits the corrected threshold. On a round that delivers that frame the source panics and never sends `Exit`, while the model counts a success.
- Vane.FindDirectionByVoltage: models `VANE_CALIBRATION_AMOUNT` as 0, its value in the source.
- Button.Button.Start: has no contract row. Its source body is commented out, and the model's `Start` has an empty body and no `modifies` clause, so it can change nothing.
- Api.ApiService: paths are sequences of characters taken as ASCII, as the percent-encoded paths of an HTTP request URI are. Rust's `&path[..4]` slices bytes and would also panic when a multi-byte character straddles byte 4 (for instance "/abé"); that panic is not modelled.
- Api.Extension: simplifies Rust's `Path::extension` to "the text after the last dot of the last component, after trailing slashes are removed". Names starting with their only dot, and "." and "..", have none. Other path normalisation is not modelled.
- The `Payload::send_message` printing and the HTTP request logging line are output only.
- The definitions of `DataPoint` and `DaytimeData` (src/data/process.rs) are not part of this model. They are records with exactly the fields the sensors and the API use.
- Persistence and configuration (src/data/types.rs, src/db/database.rs, src/data/mod.rs, src/config.rs) and the browser UI are not part of this model.
- src/hardware/analog.rs: only its reply bytes enter the model, as a parameter of the vane's sampling.
- Rain.RainData.GetAmountCm: uses the corrected amount `AmountCm`. The source's getter computes `AmountCmAsWritten`, which is more than ten times larger for every positive rate.
- Rain.RainData.GetAmountIn: is the corrected centimetre amount over 2.54, so it is also not the source's value.
- Api.RainOf: the rain entry carries the corrected amounts. The source's `/latest` JSON carries the as-written ones.
- Api.GetApiData: the rain amounts in the latest document are the corrected ones, as for `Api.RainOf`. The same holds for `Api.LatestNullIffInvalid`; the other entries are the source's.
- Api.LatestNullIffInvalid: its rain clause states the corrected centimetre amount, not the as-written value the source serves.
- Display.LCDDisplay.constructor: the GPIO errors `new` can return are not modelled.
- Display.EmittedNeverPanics: holds only with the corrected clamp. As written, a 4-row display panics at the fourth newline of a message (`Display.FourthNewlinePanicsAsWritten`).
- Display.LCDDisplay.WriteMessage: sends what `Emitted` gives with the corrected clamp. `Emitted` with `AsWritten` gives the source's writes.
- Display.LCDDisplay.PutChar: uses the corrected clamp for newlines.
- Display.LCDDisplay.NewLine: uses the corrected clamp.
- Display.LCDDisplay.SetCursor: `col as u8 + offset` is modelled with debug-build overflow checking, so an overflow is a panic; the release-build wrap-around is not modelled. It uses the corrected row clamp (see Findings).
- The display is not created by the program's `main`. It is modelled as a standalone driver.

## Findings

| source | as written | input that shows it | evidently intended | confidence | as-written member | corrected member |
|---|---|---|---|---|---|---|
| src/hardware/dht.rs:223-226 | the loop adds the 20 lows `pulse_cnts[2], [4], ..., [40]` and divides by 40, giving half their mean | every low 50 and every high 27: the as-written threshold is 25, so every 27-count "0" bit reads as 1, the bytes are all 255 and the `u8` checksum overflows (a panic) | the mean of the 40 bit-start lows `pulse_cnts[2..80]` | not executed | Dht.ThresholdAsWritten, Dht.ThresholdAsWrittenMisreadsZero, Dht.ZeroTrainPanicsAsWritten | Dht.Threshold, Dht.ThresholdBetween, Dht.BitsSeparate |
| src/hardware/anemometer.rs:47-53 | `convert_to_kph` returns the centimetres-per-second formula | one spin per second: about 28.27 "km/h" instead of about 1.20 km/h | the same km/h as `get_kph` | not executed | Anemometer.ConvertToKphAsWritten, Anemometer.ConvertToKphAsWrittenIsCmPerSec | Anemometer.ConvertToKph, Anemometer.ConvertAgreesWithReading |
| src/hardware/rain.rs:34-36 | divides the tick rate by `COUNT_TO_MM` (millimetres per tick) | 10 ticks: more than 3.5 cm instead of 0.2794 cm | multiply ticks by 0.2794 mm, then divide by 10 | not executed | Rain.AmountCmAsWritten, Rain.AmountCmAsWrittenOverstates | Rain.AmountCm, Rain.AmountsMonotone |
| src/hardware/display.rs:106-109 | clamps the row only when `row > rows` | a 4-row display, row 4 (the fourth newline of a message): `ROW_OFFSETS[4]` is out of bounds; a 2-row display, row 2: the third row's offset 0x14 is used | clamp when `row >= rows`, to the last row | not executed | Display.CursorAddressAsWritten, Display.CursorAsWrittenSkipsClamp, Display.FourthNewlinePanicsAsWritten | Display.CursorAddress, Display.CursorAddressInRange, Display.EmittedNeverPanics |
