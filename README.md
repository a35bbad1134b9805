# Fluid scale: a verified model of its core logic

The fluid scale is a Raspberry Pi with an HX711 load-cell amplifier. It has two modes:

- **Operational mode.** A C++ server reads the HX711 and keeps three shared weights: the measured weight, the container's weight, and the fluid weight, which is their difference. It answers `GET /api/measurements` with those weights in grams and fluid ounces. A browser dashboard polls that route once a second, charts the last 30 fluid readings, and lets the user switch units.
- **Setup mode.** When `wpa_supplicant.conf` has no `ssid=` line, the device starts a setup web server instead. That server lists the networks a scan found and takes an `ssid`/`password` form. It writes a supplicant configuration once the form holds both values.

This project models the following in Dafny:

- The HX711 driver (`hx711.dfy`, class `HX711`). It is modelled at bit level: the samples of the data line are an input, and the clock pulses the driver issues are counted.
- The measurement server (`measurement.dfy`):
  - the shared weights (class `WeightState`) and the locked block that publishes a weight;
  - the JSON report and the `handle_request` router;
  - `ends_with`;
  - the start-up decision of `main`.
- Wi-Fi provisioning (`wifi_setup.dfy`):
  - `is_wifi_configured` over the lines of the configuration file;
  - the per-connection `ConnectionInfo` state and the setup request handler, including how it gathers POST chunks;
  - the `ssid=`/`password=` extractor, the validity gate and the configuration it writes;
  - the scan-list filter and the form page's option list.
- The dashboard script (`web_client.dfy`, class `Dashboard`):
  - the 30-slot history window;
  - the unit toggle and unit-dependent field selection;
  - the negative flag;
  - container-weight validation;
  - connection-lost bookkeeping.

`std_string.dfy` models the few C++ library operations the code relies on: `std::string::find` and reading a file line by line with `std::getline`. `wrappers.dfy` holds `Option`.

Modelling choices:
- **Numbers.** Weights are `real`. Readings and sums are unbounded `int`. The 32-bit accumulator of `read()` is written out with `% 2^32`.
- **`long` width.** `long` is taken to be 32 bits. That is the width the sign extension in `read()` is written for (see Findings).
- **Inputs instead of I/O.** Files, the network scan, the clock (`Date.now()`, one input per call), `fetch` results and `parseFloat` are inputs to the model.
- **Bit operations.** `value & 0x800000` and `value |= 0xFF000000` are arithmetic on unsigned words: `Bit23` and `BitOr`.

Where a description of the system and its code differ, the model follows the code:
- `GAIN` starts at 128 and `main` never calls `set_gain`. So every read drives 24 + 128 clock pulses, not 25.
- The server has no tare or container-reset route. It accepts `/api/tare` and `/api/reset_container`, like every other unknown GET url, without queuing a response.
- A completed POST whose body lacks a value gets the 404 page, not the form again.

## Model

| member | source | states |
|---|---|---|
| StdString.Find | src/wifi_setup.cpp:83-94 | `find(pat, from)` gives the first index at or after `from` where `pat` occurs, and `npos` exactly when there is none |
| StdString.Lines | src/wifi_setup.cpp:26 | the lines `getline` yields hold no newline, and an empty stream yields none |
| StdString.LinesOfUnLines | src/wifi_setup.cpp:104-112 | reading back, line by line, newline-free lines written one per line gives exactly those lines |
| StdString.OccurrenceLiesInALine | src/wifi_setup.cpp:26-27 | a newline-free pattern that occurs in a text is found in one of the text's lines |
| FluidServer.EndsWith | src/fluid_measurement_server.cpp:25-28 | false when the suffix is longer than the string; true for the empty suffix |
| FluidServer.EndsWithIffConcat | src/fluid_measurement_server.cpp:25-28 | `ends_with(s, t)` holds exactly when `s` is some text followed by `t` |
| FluidServer.EndsWithTransitive | src/fluid_measurement_server.cpp:25-28 | a suffix of a suffix is a suffix |
| Hx711.ShiftIn | src/fluid_measurement_server.cpp:79-82 | the accumulator after the loop body has run over the bits in order: doubled, plus one for a set bit; its meaning is `ShiftInIsWeightedSum` |
| Hx711.ShiftInIsWeightedSum | src/fluid_measurement_server.cpp:70-83 | the accumulator after the 24-bit loop is the MSB-first weighted sum of the sampled bits |
| Hx711.ShiftInBound | src/fluid_measurement_server.cpp:70-83 | after `n` bits the accumulator is below `2^n`, so a 24-bit code is below `2^24` |
| Hx711.ShiftStep | src/fluid_measurement_server.cpp:79-82 | one loop step on the 32-bit `unsigned long` never wraps while fewer than 24 bits are in |
| Hx711.BitOr | src/fluid_measurement_server.cpp:95 | `|` on unsigned words, defined bit by bit from the lowest bit |
| Hx711.OrHighByteAdds | src/fluid_measurement_server.cpp:95 | OR-ing `0xFF000000` into a 24-bit code sets bits that are clear, so it adds `0xFF000000` |
| Hx711.FillHighByte | src/fluid_measurement_server.cpp:94-96 | OR-ing in `0xFF000000` when bit 23 is set adds `0xFF000000` to the word; otherwise it is unchanged |
| Hx711.ToLong | src/fluid_measurement_server.cpp:98 | `static_cast<long>` of an unsigned word into a `long` of a given width: the word itself or the word less `2^width`, within the signed range |
| Hx711.SignExtend24 | src/fluid_measurement_server.cpp:93-98 | the 24-bit two's-complement value of a code: within `[-2^23, 2^23)` and equal to the code modulo `2^24` |
| Hx711.Long32SignExtends | src/fluid_measurement_server.cpp:93-98 | with a 32-bit `long`, filling the high byte and casting is the sign extension of the 24-bit code |
| Hx711.SignExtendInverse | src/fluid_measurement_server.cpp:93-98 | sign extension and truncation to 24 bits are inverse to each other on the 24-bit range |
| Hx711.Sample | src/fluid_measurement_server.cpp:66-99 | the reading of one `read()` on 24 samples, within the signed 24-bit range; `HX711.Read` is proved to return it |
| Hx711.SampleIsTwosComplement | src/fluid_measurement_server.cpp:66-99 | a reading is the two's-complement value of the sampled bits: the first weighs `-2^23`; negative exactly when the first bit is 1 |
| Hx711.GainPulses | src/fluid_measurement_server.cpp:53-64 | the gain lookup gives 1 to 3 pulses: 3 exactly for 64, 2 exactly for 32, 1 for 128 and anything else |
| Hx711.TruncDiv | src/fluid_measurement_server.cpp:106 | C++ `/`: the quotient's magnitude is the quotient of the magnitudes, with its sign from the operands |
| Hx711.Average | src/fluid_measurement_server.cpp:101-107 | the sum of the readings truncated-divided by `times`; `HX711.ReadAverage` is proved to return it, and the lemmas below bound it |
| Hx711.MeanWithin | src/fluid_measurement_server.cpp:101-107 | a truncated mean lies between the least and the greatest value averaged |
| Hx711.AverageInRange | src/fluid_measurement_server.cpp:101-107 | an average of readings is a reading of the 24-bit signed range |
| Hx711.AverageOfOne | src/fluid_measurement_server.cpp:101-107 | `read_average(1)` returns the single reading unchanged |
| Hx711.AverageOfSteadyLoad | src/fluid_measurement_server.cpp:101-107 | averaging reads of the same samples returns that reading exactly |
| Hx711.Units | src/fluid_measurement_server.cpp:122-124 | the calibrated weight times `SCALE` is the raw reading less `OFFSET` |
| Hx711.HX711.constructor | src/fluid_measurement_server.cpp:34-36 | a new driver has `OFFSET` 0, `SCALE` 1 and `GAIN` 128, and has driven no pulse |
| Hx711.HX711.SetGain | src/fluid_measurement_server.cpp:53-64 | `GAIN` becomes the lookup's pulse count for the request |
| Hx711.HX711.Read | src/fluid_measurement_server.cpp:66-99 | returns the sign-extended code of the 24 samples and drives exactly `24 + GAIN` clock pulses |
| Hx711.HX711.ReadAverage | src/fluid_measurement_server.cpp:101-107 | returns the truncated mean of the readings and drives `24 + GAIN` pulses per read |
| Hx711.HX711.Tare | src/fluid_measurement_server.cpp:109-112 | `OFFSET` becomes the average; `SCALE` and `GAIN` are unchanged |
| Hx711.HX711.SetScale | src/fluid_measurement_server.cpp:114-116 | `SCALE` becomes the factor |
| Hx711.HX711.SetOffset | src/fluid_measurement_server.cpp:118-120 | `OFFSET` becomes the value |
| Hx711.HX711.GetUnits | src/fluid_measurement_server.cpp:122-124 | returns the calibrated average and drives `24 + GAIN` pulses per read |
| FluidServer.Report | src/fluid_measurement_server.cpp:189-196 | the report carries the three weights in grams in its gram fields |
| FluidServer.ReportConsistent | src/fluid_measurement_server.cpp:189-196 | from consistent weights, the reported fluid weight is measured less container in grams and in ounces |
| FluidServer.WeightState.constructor | src/fluid_measurement_server.cpp:132-134 | all three weights start at 0, which is consistent |
| FluidServer.WeightState.Publish | src/fluid_measurement_server.cpp:150-154 | the current weight is the new one, net is current less input, input is unchanged |
| FluidServer.WeightState.Snapshot | src/fluid_measurement_server.cpp:187-197 | the report is read under the lock; from consistent weights it is consistent in both units |
| FluidServer.InitScale | src/fluid_measurement_server.cpp:229-231 | a fresh driver with the calibration factor, `OFFSET` the average of ten reads, `GAIN` still 128, and 10 × 152 pulses driven |
| FluidServer.MeasureOnce | src/fluid_measurement_server.cpp:148-154 | one pass publishes the calibrated average of five reads, and the net weight follows it |
| FluidServer.MeasureRun | src/fluid_measurement_server.cpp:146-159 | nothing changes the container weight, so the net weight is always the last measured weight |
| FluidServer.Route | src/fluid_measurement_server.cpp:172-210 | a first call is only accepted; non-GET is refused exactly when not a first call; the report is sent exactly for GET `/api/measurements` |
| FluidServer.HandleRequest | src/fluid_measurement_server.cpp:162-211 | the handler answers as `Route` does with the weights read under the lock, and a sent report is consistent |
| FluidServer.Startup | src/fluid_measurement_server.cpp:213-264 | exit 1 exactly on a GPIO or daemon failure in configured mode; setup mode exactly when not configured; measuring exactly when all succeed; `gpioTerminate` exactly when measuring ran |
| FluidServer.BootAfterSetup | src/fluid_measurement_server.cpp:216-220 | after the setup server writes a configuration, the next boot never re-enters setup mode |
| WifiSetup.ConfiguredLines | src/wifi_setup.cpp:26-29 | some line of the file contains `ssid=` |
| WifiSetup.IsWifiConfigured | src/wifi_setup.cpp:19-32 | true exactly when some line of the file contains `ssid=`; false when the file does not open |
| WifiSetup.ParseCredentials | src/wifi_setup.cpp:82-100 | both values stay empty when either key is absent; no value contains `&` |
| WifiSetup.SsidValue | src/wifi_setup.cpp:83-91 | with both keys present, the ssid is the text after the first `ssid=` up to the next `&` (no `&` inside it), and empty when no `&` follows |
| WifiSetup.PasswordValue | src/wifi_setup.cpp:83-99 | with both keys present, the password is the text after the first `password=`, ending at the next `&` or at the end of the body |
| WifiSetup.SsidLastIsRefused | src/wifi_setup.cpp:83-102 | the body `password=pw&ssid=net` gives an empty ssid and is refused: field order matters |
| WifiSetup.BothPresent | src/wifi_setup.cpp:102 | the gate before writing: both values non-empty |
| WifiSetup.NoAmpersandBefore | src/wifi_setup.cpp:88-99 | the text cut at the next `&`, or running to the end, holds no `&` |
| WifiSetup.FormBodyParses | src/wifi_setup.cpp:82-100 | on a URL-encoded `ssid`/`manual-ssid`/`password` form body, the extractor recovers exactly the encoded ssid and password fields (not the decoded values typed) |
| WifiSetup.ManualEntryTakesOptionValue | src/wifi_setup.cpp:82-91 | choosing "Enter manually..." yields the ssid `manual`: the `manual-ssid` field is never read |
| WifiSetup.ConfigLines | src/wifi_setup.cpp:105-112 | the nine lines written, the empty fourth one from `country=US` ending in two newlines |
| WifiSetup.WpaConfig | src/wifi_setup.cpp:104-112 | the file text: each configuration line followed by a newline |
| WifiSetup.WrittenConfigLines | src/wifi_setup.cpp:104-112 | the written file reads back as its nine lines, including `    ssid="<ssid>"` and `    psk="<password>"` |
| WifiSetup.WrittenConfigIsConfigured | src/wifi_setup.cpp:104-112 | whatever the credentials, the written file satisfies `is_wifi_configured` |
| WifiSetup.NonEmptyLines | src/wifi_setup.cpp:147-151 | the kept networks are non-empty and no more than the scan lines |
| WifiSetup.NonEmptyLinesMembers | src/wifi_setup.cpp:147-151 | a line is kept exactly when it is a scan line and non-empty |
| WifiSetup.NonEmptyLinesAppend | src/wifi_setup.cpp:147-151 | filtering preserves order: filtering a concatenation concatenates the filtered parts |
| WifiSetup.CollectNetworks | src/wifi_setup.cpp:145-151 | the `push_back` loop builds exactly the filtered scan lines |
| WifiSetup.OptionTag | src/wifi_setup.cpp:173 | the `<option>` tag for one network, its name as both value and label |
| WifiSetup.Options | src/wifi_setup.cpp:172-174 | the tags of the networks, in order |
| WifiSetup.SetupPage | src/wifi_setup.cpp:154-197 | the form page: head, the network options, the manual-entry option and the tail |
| WifiSetup.OptionAt | src/wifi_setup.cpp:172-174 | the `i`-th network's option tag lies right after the tags of the networks before it |
| WifiSetup.OptionsOfferEveryNetwork | src/wifi_setup.cpp:147-174 | every non-empty scan line is offered in an option tag of its own |
| WifiSetup.AppendOptions | src/wifi_setup.cpp:172-174 | the `+=` loop appends the option tags of the networks in order |
| WifiSetup.BuildSetupPage | src/wifi_setup.cpp:140-197 | the page is the head, the options for the non-empty scan lines, the manual option and the tail |
| WifiSetup.SetupStep | src/wifi_setup.cpp:62-213 | a processed connection never changes; `postData` only grows, by a whole chunk on a `Continue`; a configuration is written only when the connection becomes processed, and it is one `is_wifi_configured` accepts |
| WifiSetup.Serve | src/wifi_setup.cpp:49-213 | one reply per call |
| WifiSetup.WrittenAtMostOnce | src/wifi_setup.cpp:68-79 | over any sequence of calls a connection writes at most one configuration, none once processed, and stays processed after writing |
| WifiSetup.GetServesForm | src/wifi_setup.cpp:140-213 | a GET leaves the connection as it is; on `/` or `/setup` it gets the form listing the non-empty scan lines, on any other url 404 |
| WifiSetup.SuccessExactlyOnValidPost | src/wifi_setup.cpp:67-125 | on any url, a configuration is written exactly on the call that completes a POST on an unprocessed connection whose body holds both values, and it is `WpaConfig` of the parsed values |
| WifiSetup.ChunkElsewhereDropped | src/wifi_setup.cpp:69-76 | a chunk posted to a url other than `/setup` is acknowledged and not gathered |
| WifiSetup.InvalidPostIsNotFound | src/wifi_setup.cpp:102-213 | a completed POST without both values marks the connection processed and gets 404, not the form |
| WifiSetup.PostToSetup | src/wifi_setup.cpp:67-102 | a body uploaded in chunks is acknowledged chunk by chunk, gathered in order, and parsed once on completion into a write or a 404 |
| WifiSetup.ChunksGathered | src/wifi_setup.cpp:68-77 | non-empty chunks posted to `/setup` are appended in order and each gets `Continue` |
| WifiSetup.ConnectionInfo.constructor | src/wifi_setup.cpp:54-60 | a new connection has no data and is not processed |
| WifiSetup.ConnectionInfo.HandleRequest | src/wifi_setup.cpp:62-213 | the reply and the new `postData`/`processed` are those of `SetupStep` on the old state |
| WebClient.Slide | web/script.js:69-73 | a full window stays at 30 entries and ends with the new value |
| WebClient.FeedKeepsLatest | web/script.js:69-73 | after any series of updates a full window holds the last 30 values offered, oldest first |
| WebClient.Toggled | web/script.js:145 | the toggle always changes the unit |
| WebClient.ToggleTwice | web/script.js:145 | toggling twice restores the unit |
| WebClient.Select | web/script.js:109-112 | in ounces the `_oz` fields with `fl oz`, otherwise the `_g` fields with `g` |
| WebClient.DisplayConsistent | web/script.js:109-112 | in either unit, a report of consistent weights shows fluid = total − container |
| WebClient.Dashboard.constructor | web/script.js:2-6 | 30 empty history slots, unit ounces, not connected, `lastUpdate` the load time |
| WebClient.Dashboard.UpdateHistory | web/script.js:69-73 | the window stays at 30 and becomes the previous entries 1..29 followed by the value |
| WebClient.Dashboard.ToggleUnit | web/script.js:144-147 | the unit flips and a notice names the new unit |
| WebClient.Dashboard.UpdateUI | web/script.js:106-130 | no data changes nothing; otherwise the unit's fields are shown, the fluid value enters the history, and `negative` is set exactly when it is below 0 |
| WebClient.Dashboard.SetContainer | web/script.js:180-192 | NaN or negative input is rejected with a notice and kept; an accepted weight is announced and the input cleared |
| WebClient.Dashboard.FetchMeasurements | web/script.js:80-103 | connected exactly when JSON arrives; any response refreshes `lastUpdate` to the clock when it arrived; a lost-connection notice exactly when the catch block runs, by the clock it reads, more than 2000 ms after `lastUpdate`, including a body that fails to parse that late |
| WebClient.Dashboard.Poll | web/script.js:199-202 | one tick: when a report arrives it is shown in the current unit, the history advances by its fluid value and `negative` follows its sign; otherwise history, display and `negative` are unchanged; `lastUpdate` and the lost-connection notice as in `FetchMeasurements` |

## Left out

- GPIO: `gpioSetMode`, `gpioWrite`, `gpioRead`, `gpioDelay` and the busy-wait in `is_ready`/`read`. Each read's 24 data-line samples are an input, and the clock pulses are only counted.
- `gpioInitialise` and `MHD_start_daemon`. Their outcomes are inputs to `FluidServer.Startup`, which records the steps of `main` in order.
- The measurement thread, the mutex, the `running` flag and `usleep`. Each locked block is one method (`Publish`, `Snapshot`), and the loop is a run over given weights (`MeasureRun`). Interleaving with the handler is not modelled.
- Float arithmetic. Weights, the calibration factor and the ounce factor are `real`, with no rounding. The JSON text that `stringstream` produces is not modelled; the report is the six numbers.
- WifiSetup.ParseCredentials: its own ensures state only the missing-key case and that no value holds `&`; which text each value is, when both keys are present, is stated by `WifiSetup.SsidValue` and `WifiSetup.PasswordValue`.
- Hx711.HX711.GetUnits: requires `SCALE != 0`. A float division by zero yields infinity or NaN, which `real` cannot represent.
- Hx711.HX711.ReadAverage: requires `times != 0`, because C++ integer division by zero is undefined. The `long` sum is unbounded here; with a 32-bit `long` it could overflow only past 256 full-scale reads, and the program averages 5 or 10.
- libmicrohttpd: response objects, headers and status codes become the `Reply` and `SetupReply` values. The texts of the success and 404 pages are not modelled. The form page's text is `WifiSetup.SetupPage`, built by `WifiSetup.BuildSetupPage`. `ConnectionInfo.HandleRequest` returns the networks the page lists instead of building the page text itself.
- The `MHD_post_process` call in the POST branch. It is passed a `ConnectionInfo*` as a post processor, which is undefined behaviour; the model only appends the chunk. The `request_completed` clean-up is not modelled.
- `iterate_post`: it is never registered with the daemon, so it never runs.
- `start_ap_mode`: the hostapd and dnsmasq files, the `system` calls (`iwlist` scan, `chmod`, reboot, `systemctl`, `ifconfig`) and the wait for a configuration. The scan's output file is an input to the GET branch.
- src/wifi_setup.h is not part of this model; it only declares two functions.
- Dashboard: Chart.js, DOM elements, `setTimeout`/`setInterval`, `toFixed` formatting and the notification toast's timing. Notifications are logged as values in order.
- The dashboard's Tare and Reset Container buttons. They call routes the server does not have.

## Findings

| source | as written | input that shows it | evidently intended | confidence | as-written member | corrected member |
|---|---|---|---|---|---|---|
| src/fluid_measurement_server.cpp:93-98 | `value` is an `unsigned long`. OR-ing in `0xFF000000` sets only bits 24-31. So with a 64-bit `long` (LP64), the cast keeps the word positive. | the 24 samples `1,0,…,0` (code `0x800000`): on LP64 the reading is `0xFF800000` = 4286578688 | `-2^23` = -8388608, the 24-bit two's-complement value that the line-93 comment promises | not executed; holds only where `long` is 64 bits wide | Hx711.Long64DoesNotSignExtend | Hx711.SignExtend24 |
