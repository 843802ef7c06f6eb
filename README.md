# b2500-meter core, modelled in Dafny

b2500-meter makes software pretend to be an energy meter that a Marstek/Hame home battery (B2500 and relatives) can query. It reads the real household power from a backend powermeter (Shelly, Tasmota, Home Assistant, MQTT, …). It then serves that reading in whichever protocol the battery speaks:

- **CT001 / B2500**: a UDP "hame"/"ack" discovery with a per-peer dedupe window, plus a TCP stream of `HM:a|b|c` messages paced by a poll interval, with optional connect, before-send, after-send and disconnect callbacks.
- **CT002**: the same "hame" discovery and TCP stream. It also has a binary request/response frame on UDP, `SOH STX <length> |fields… ETX <2 hex checksum>`, with a self-referential length field and an XOR checksum. Requests are filtered by the CT MAC.
- **Shelly Pro 3EM / EM Gen3 / Pro EM 50**: a JSON-RPC-over-UDP server that answers `EM.GetStatus` and `EM1.GetStatus` with shaped values. Each request is routed to the first configured powermeter whose client filter (a list of IPv4 networks) admits the peer.

Around these devices the project models:

- the configuration loader: section-prefix dispatch, Shelly type choice, entity lists, CIDR client filters and throttle intervals;
- the throttling decorator, which spaces slow backend reads and falls back to the last good reading;
- `main.py`'s wiring: the settings precedence, the `update_readings` shaping (pad, sum, absolute value), device-type dispatch and default device IDs;
- the legacy single-file `smartmeter.py`.

Modules follow the program's structure:

| file | module | models |
|---|---|---|
| base.dfy | Base | `Option`, `Result` |
| text.dfy | Text | `str(int)`, `int(str)`, `str.split`, `str.join`, `str.strip`, `str.lower` on plain ASCII |
| power.dfy | Power | thousandths of a watt, Python's half-even `round`, a backend read as `Watts(values) \| Failed` |
| lifecycle.dfy | Lifecycle | the `start`/`stop` thread-handle state |
| discovery.dfy | Discovery | the "hame" dedupe table shared by CT001, B2500 and CT002 |
| streaming.dfy | Streaming | the TCP session state machine shared by CT001, B2500 and CT002 |
| ct002_codec.dfy | Ct002Codec | CT002 frame parsing, building, checksum and MAC filter |
| ct002.dfy, ct001.dfy, b2500.dfy | Ct002Device, Ct001Device, B2500Device | the device classes |
| shelly.dfy | ShellyDevice | value shaping, responses, routing and the Shelly class |
| throttling.dfy | Throttling | `ThrottledPowermeter` |
| config.dfy | Config | `config_loader.py` |
| app.dfy | App | `main.py` |
| legacy.dfy | Legacy | `smartmeter.py` |

Conventions:

- **Environment as parameters.** Time is a `real` parameter: `now` is `time.time()` on entry and `woke` is the clock after a sleep. A TCP session is driven by a sequence of `Tick`s. Each `Tick` holds the stop flag, the clock, what `before_send` did to the value slot, and whether `send` succeeded. The session's effect is the trace of callbacks and sends it produces.
- **Decoded inputs.** UTF-8 decoding, JSON parsing, `configparser`'s `getfloat` and `ipaddress.IPv4Network` are inputs: an `Option<string>`, a `Json` value, and the parser functions in `Config.Parsers`.
- **Power values.** CT001, B2500, Shelly, `main.py` and throttling hold exact thousandths of a watt (`Milli`). The CT002 slot and the legacy script hold whole watts. Python's float `round` becomes exact half-even rounding.
- **IPv4.** Addresses are `bv32`. A network is a base address with a prefix length, and an address belongs to it when `ip & mask == base`.

## Model

| member | source | states |
|---|---|---|
| Text.NatToString | ct002/ct002.py:113-115 | `str(n)` of a natural is a non-empty run of digits with no leading zero except for 0 |
| Text.IntToString | ct002/ct002.py:103-106 | `str(i)` is digits with at most a leading minus sign |
| Text.ParseNatToString | ct002/ct002.py:68 | decimal parsing inverts `str` on naturals, as the length field relies on |
| Text.ParseIntToString | ct002/ct002.py:103-106 | decimal parsing inverts `str` on integers, so the response's numbers read back |
| Text.DigitCount | ct002/ct002.py:111-114 | the number of decimal digits of n for each range 1, 2, 3, 4 and 5 or more |
| Text.Split | config/config_loader.py:90 | `split(sep)` yields at least one part and no part contains the separator |
| Text.SplitJoin | config/config_loader.py:214 | splitting a join of separator-free parts gives back the parts |
| Text.SplitCount | config/config_loader.py:214 | the number of parts is one more than the number of separators |
| Text.Strip | config/config_loader.py:214 | `strip()` gives the infix of the text with only whitespace before and after it, and no whitespace at either of its own ends; a space-free string is kept and an all-space one emptied |
| Text.Lower | ct002/ct002.py:176 | `lower()` maps each character and keeps the length |
| Power.RoundedUnits | ct001/ct001.py:134-136 | Python's `round`: the nearest multiple of the unit, ties to even |
| Power.RoundedUnitsUnique | ct001/ct001.py:134-136 | any nearest-with-ties-to-even multiple is the one `RoundedUnits` gives |
| Lifecycle.StartBothIdempotent | ct001/ct001.py:183-191 | `start` does nothing while either thread exists, starts both from idle and clears the stop flag |
| Lifecycle.StopThenStart | ct001/ct001.py:199-206 | `stop` clears both handles and sets the stop flag; a later `start` runs both threads again |
| Lifecycle.StartUdpIdempotent | shelly/shelly.py:125-130 | the Shelly `start` is idempotent and does nothing while its thread exists |
| Lifecycle.StopUdpThenStart | shelly/shelly.py:136-140 | the Shelly `stop` clears the handle and sets the flag; `start` restarts it |
| Discovery.AfterHameFrame | ct001/ct001.py:87-97 | a "hame" changes only the sender's entry, to `now`, and only when it is acked |
| Discovery.AckWindowIsStrict | ct001/ct001.py:88-92 | a request exactly `window` after the last ack is ignored; any later one is acked |
| Discovery.AckedTimes | ct001/ct001.py:87-101 | the acks over a run of requests are a subset of the request times |
| Discovery.AcksAreSpaced | ct001/ct001.py:87-101 | successive acks to one peer are more than `window` apart |
| Discovery.NoAckWithinWindow | ct001/ct001.py:98-101 | requests all within the window of the last ack get no ack |
| Discovery.FirstRequestAnswered | ct001/ct001.py:89 | a peer not in the table is acked on its first request |
| Discovery.DedupeExamples | ct001/ct001.py:87-101 | with a 10 s window: requests 2 s or 10 s apart get one ack, 11 s apart get two |
| Discovery.DatagramRule | ct001/ct001.py:82-103 | ack iff "hame" and absent or older than the window; the table changes only on ack; only non-UTF-8 data ends the server |
| Ct002Codec.Encode | ct002/ct002.py:109 | ASCII encoding keeps every code point as one byte |
| Ct002Codec.Decode | ct002/ct002.py:89 | ASCII decoding succeeds iff every byte is below 128, giving the same code points |
| Ct002Codec.DecodeEncode | ct002/ct002.py:89 | decoding an encoded ASCII string gives it back |
| Ct002Codec.EncodeAppend | ct002/ct002.py:116 | encoding distributes over concatenation |
| Ct002Codec.CalculateChecksum | ct002/ct002.py:52-56 | the loop's accumulator is the XOR fold of all bytes |
| Ct002Codec.Hex2 | ct002/ct002.py:79 | `f"{x:02x}"` is always two bytes |
| Ct002Codec.LowerBytes | ct002/ct002.py:82 | `bytes.lower()` lowers byte by byte and keeps the length |
| Ct002Codec.LowerTrailerIsHexValue | ct002/ct002.py:79-82 | the lowered trailer equals the lowercase hex of x iff it spells x in hex, in either case |
| Ct002Codec.HexTrailerAccepted | ct002/ct002.py:79-82 | the lowercase hex pair of the checksum is accepted |
| Ct002Codec.SpacePaddedTrailerAccepted | ct002/ct002.py:83-84 | a space followed by the low hex digit is accepted, for every checksum value |
| Ct002Codec.ChecksumThreeExamples | ct002/ct002.py:81-86 | for 0x03, "03" and " 3" pass and "04" fails; " 3" is not a hex spelling |
| Ct002Codec.SpacePaddedIsCaseSensitive | ct002/ct002.py:83 | after a space the low digit must match case exactly: " f" passes for 0x0f, " F" fails, "0F" passes |
| Ct002Codec.FindByte | ct002/ct002.py:64 | `find` returns the first position at or after `from` holding the byte, or none exists |
| Ct002Codec.ParseFrame | ct002/ct002.py:58-93 | accepted fields are ASCII and free of `\|` |
| Ct002Codec.RejectionOrder | ct002/ct002.py:60-74 | too short, missing SOH/STX, no separator from offset 2, an unreadable length field, a length other than the byte count (declared value and byte count reported), missing ETX: each is reported iff every earlier check passes and its own fails |
| Ct002Codec.LateRejections | ct002/ct002.py:75-92 | after those, a checksum mismatch iff the trailer is refused, then invalid ASCII iff the message bytes do not decode |
| Ct002Codec.ParseFrameAccepts | ct002/ct002.py:58-93 | an accepted frame has every property checked, in particular an accepted trailer for the XOR of all but the last two bytes, and its fields are the split text after offset 4 without the first token |
| Ct002Codec.ParseRequest | ct002/ct002.py:58-93 | the method with its checksum loop computes exactly `ParseFrame` |
| Ct002Codec.ValuesOrZero | ct002/ct002.py:96 | an absent or empty slot counts as `[0, 0, 0]`; otherwise its values are used |
| Ct002Codec.ResponseLayout | ct002/ct002.py:98-107 | 24 fields: request[0], request[1], CT type, CT MAC, the three values and their sum read back as numbers, then sixteen "0" |
| Ct002Codec.SearchDigits | ct002/ct002.py:111-114 | the search from d returns the first count from d on whose length text has that many digits, or 4 when none up to 3 does |
| Ct002Codec.LengthDigits | ct002/ct002.py:111-114 | the digit count is the first of 1 to 4 with `len(str(base + d)) == d`, as the `break` makes it, or 4 when none of 1 to 3 fits |
| Ct002Codec.LengthDigitsExamples | ct002/ct002.py:111-114 | where two counts fit (base 97: 99 and 100; base 8: 9 and 10) the smaller is chosen |
| Ct002Codec.LengthDigitsFit | ct002/ct002.py:111-114 | below 9996 the chosen count is self-consistent: `len(str(base+d)) == d` |
| Ct002Codec.LengthDigitsOverflow | ct002/ct002.py:111-114 | from 9996 on the loop ends on 4 without a fit, so the declared length has more digits than reserved |
| Ct002Codec.FindTotalLength | ct002/ct002.py:111-114 | the loop's `total_length` is the base plus the searched digit count |
| Ct002Codec.AssembleFrame | ct002/ct002.py:115-118 | the appends and the checksum build exactly `Frame` |
| Ct002Codec.FrameLength | ct002/ct002.py:110-118 | below 9996 the declared length equals the frame's byte count |
| Ct002Codec.FrameLengthOverflow | ct002/ct002.py:110-118 | from 9996 on the frame is longer than it declares |
| Ct002Codec.ParseWithTrailer | ct002/ct002.py:58-118 | a built payload with any two-byte trailer parses to its fields iff the trailer is accepted, else a checksum mismatch naming both |
| Ct002Codec.ParseFrameOfFrame | ct002/ct002.py:58-119 | round trip: parsing a built frame of ASCII, pipe-free fields yields exactly those fields |
| Ct002Codec.ParseSpacePaddedFrame | ct002/ct002.py:81-86 | a built frame whose first checksum digit is a space still parses to its fields |
| Ct002Codec.ResponseFieldsAscii | ct002/ct002.py:98-109 | the response is ASCII (pipe-free) iff its four text fields are |
| Ct002Codec.ResponseFrameDefined | ct002/ct002.py:95-119 | building raises exactly for fewer than two request fields, fewer than three values, or a non-ASCII text field |
| Ct002Codec.ResponseRoundTrip | ct002/ct002.py:58-119 | a response parses back into its 24 fields whose numbers are the slot values and their sum |
| Ct002Codec.BatteryMacIgnored | ct002/ct002.py:174-182 | the battery MAC in field 1 never affects the discovery filter |
| Ct002Codec.AddressedExamples | ct002/ct002.py:171-178 | the CT MAC matches case-insensitively, the zero MAC is a wildcard, and fewer than four fields are refused |
| Ct002Codec.ValidMacExamples | ct002/ct002.py:49-50 | exactly twelve hex digits in either case are valid |
| Ct002Codec.LowerKeepsValidMac | ct002/ct002.py:49-50 | lowering a valid MAC keeps it valid |
| Ct002Codec.HameBytesSpellHame | ct002/ct002.py:148-150 | `b"hame"` decodes to "hame" and would be too short as a frame |
| Ct002Device.CTEmulator.constructor | ct002/ct002.py:22-38 | the defaults: an empty table, slot `[0, 0, 0]`, no callback, no threads, battery MAC list defaulting to "001122334455" |
| Ct002Device.CTEmulator.SetValue | ct002/ct002.py:44-47 | the setter replaces the slot |
| Ct002Device.CTEmulator.BuildResponse | ct002/ct002.py:95-119 | `build_ct002_response` on the current slot is `ResponseFrame` |
| Ct002Device.CTEmulator.HandleDatagram | ct002/ct002.py:136-191 | "hame" follows the dedupe rule and is never parsed; malformed or unaddressed frames get nothing and change nothing; an addressed request runs `before_send` and then answers from the slot it leaves, or ends the server where the source raises |
| Ct002Device.CTEmulator.HandleTcpClient | ct002/ct002.py:193-230 | the session is `Session` for the CT002 variant (only `before_send`; its `round` leaves the whole-watt slot unchanged) and the slot ends as the session leaves it |
| Ct002Device.CTEmulator.Start | ct002/ct002.py:248-255 | `start` follows `StartBoth` |
| Ct002Device.CTEmulator.Stop | ct002/ct002.py:263-271 | `stop` follows `StopBoth` |
| Ct001Device.CT001.constructor | ct001/ct001.py:8-32 | the defaults: an empty table, slot `[0, 0, 0]`, no threads |
| Ct001Device.CT001.SetValue | ct001/ct001.py:70-73 | the setter replaces the slot |
| Ct001Device.CT001.HandleDatagram | ct001/ct001.py:81-103 | one datagram gives the `HameReply` and leaves the `TableAfter` |
| Ct001Device.CT001.HandleTcpClient | ct001/ct001.py:108-164 | the connection is `Session` for CT001 with the installed callbacks |
| Ct001Device.CT001.Start | ct001/ct001.py:183-191 | `start` follows `StartBoth` |
| Ct001Device.CT001.Stop | ct001/ct001.py:199-206 | `stop` follows `StopBoth` |
| B2500Device.B2500.constructor | b2500/b2500.py:7-31 | the defaults: an empty table, slot `[0, 0, 0]`, no threads |
| B2500Device.B2500.SetValue | b2500/b2500.py:69-72 | the setter replaces the slot |
| B2500Device.B2500.HandleDatagram | b2500/b2500.py:80-106 | one datagram gives the `HameReply` and leaves the `TableAfter`; the ack goes out from a fresh socket, which changes nothing here |
| B2500Device.B2500.HandleTcpClient | b2500/b2500.py:111-164 | the connection is `Session` for B2500, which has no "no value" exit |
| B2500Device.B2500.Start | b2500/b2500.py:183-191 | `start` follows `StartBoth` |
| B2500Device.B2500.Stop | b2500/b2500.py:199-206 | `stop` follows `StopBoth` |
| Streaming.NoPipeInInt | ct001/ct001.py:138 | a formatted integer contains no `\|` |
| Streaming.ParseHmMessage | ct001/ct001.py:138 | `HM:a\|b\|c` reads back as (a, b, c) |
| Streaming.RunStep | ct001/ct001.py:121-157 | one loop pass computes `Step`: wait, or `before_send`, read the slot, send, `after_send` |
| Streaming.RunLoop | ct001/ct001.py:119-157 | the `while not self._stop` loop from `last_send_time = 0` computes `Poll` |
| Streaming.RunSession | ct001/ct001.py:108-164 | the whole connection computes `Session` |
| Streaming.StepSends | ct001/ct001.py:124-146 | a pass sends at most once, only when `now - last >= poll_interval`, and then `last_send_time` becomes now |
| Streaming.PollSpacing | ct001/ct001.py:119-157 | the loop's sends are spaced by at least the poll interval |
| Streaming.SessionSpacing | ct001/ct001.py:108-164 | a session's sends are spaced by the poll interval, the first one at least the interval after time 0 |
| Streaming.NonHelloSession | ct001/ct001.py:111-164 | a first payload other than "hello" sends nothing, never connects, closes, and calls `on_disconnect` if installed |
| Streaming.HelloSession | ct001/ct001.py:113-164 | after "hello" `on_connect` is first and only once; a session that ends closes last, then calls `on_disconnect` |
| Streaming.StepFramed | ct001/ct001.py:124-146 | in one pass every send directly follows `before_send` and directly precedes `after_send`, where installed |
| Streaming.PollFramed | ct001/ct001.py:119-157 | the same framing holds over the whole loop |
| Streaming.SessionFramed | ct001/ct001.py:108-164 | the same framing holds over a whole session |
| Streaming.B2500NeverNoValue | b2500/b2500.py:131-132 | the B2500 loop never ends with "no value": an empty slot raises when unpacked |
| Streaming.EmptySlotNeverSends | ct001/ct001.py:128-131 | CT001 and CT002 with an empty slot that nothing fills send nothing and end with "no value", the stop flag, or still waiting |
| Streaming.StopEndsPolling | ct001/ct001.py:120 | a raised stop flag ends the loop with nothing more done |
| Streaming.DueStepSends | ct001/ct001.py:124-146 | a due pass with three values sends them, rounded to watts for CT001 and B2500; for CT002 `round` leaves the whole-watt slot unchanged, and moves `last_send_time` to now |
| ShellyDevice.Nudge | shelly/shelly.py:45-50 | adding 0.001 exactly when the total is integral, so the result is never integral |
| ShellyDevice.DerivedSmall | shelly/shelly.py:26-27 | below 0.1 W in magnitude the value is 0.001 |
| ShellyDevice.DerivedRounds | shelly/shelly.py:29-33 | otherwise the value is the reading rounded to 0.1 W, nonzero, and an integral reading is kept as it is |
| ShellyDevice.DerivedExamples | shelly/shelly.py:24-33 | 0, 0.099 and -0.05 give 0.001; 100 gives 100; 123.456 gives 123.5; -1.234 gives -1.2 |
| ShellyDevice.Normalise | shelly/shelly.py:36-39 | one reading becomes `[p, 0, 0]`, three are kept, any other count becomes zeros |
| ShellyDevice.ResponseShape | shelly/shelly.py:35-77 | both responses echo the request id, with `src` the device id and `dst` "unknown"; EM has four result members with the nudged total of the normalised readings; EM1 has only the nudged total of the raw readings |
| ShellyDevice.TwoReadingsExample | shelly/shelly.py:35-77 | two readings: EM totals zeros (0.001), EM1 totals both (300.001) |
| ShellyDevice.FirstAdmittingIsFirst | shelly/shelly.py:95-102 | the route is the first pair whose filter admits the peer; there is none iff no filter admits it |
| ShellyDevice.RouteUnique | shelly/shelly.py:95-99 | an admitting pair after none that admit is the route |
| ShellyDevice.DatagramRule | shelly/shelly.py:85-120 | a reply iff the request's `params.id` is an int, a filter admits the peer, the fetch succeeds, the method is EM or EM1 GetStatus and there is an id; the first admitting meter is read before the method is looked at; non-UTF-8 data ends the server |
| ShellyDevice.GatingExamples | shelly/shelly.py:94 | no `params`, a string id, or a non-object request reads no meter; a boolean id passes as an int |
| ShellyDevice.Shelly.constructor | shelly/shelly.py:11-22 | the fields are stored and no thread runs |
| ShellyDevice.Shelly.FindPowermeter | shelly/shelly.py:95-99 | the for/break scan finds `FirstAdmitting` |
| ShellyDevice.Shelly.HandleDatagram | shelly/shelly.py:85-120 | one pass of the receive loop is `DatagramOutcome` |
| ShellyDevice.Shelly.Start | shelly/shelly.py:125-130 | `start` follows `StartUdp` |
| ShellyDevice.Shelly.Stop | shelly/shelly.py:136-140 | `stop` follows `StopUdp` |
| Throttling.Wait | powermeter/throttling.py:48-57 | an early call waits exactly the rest of the interval; otherwise it does not wait |
| Throttling.Unthrottled | powermeter/throttling.py:41-45 | with interval <= 0 each call returns the backend's outcome, failures included, caches a success, and never sleeps |
| Throttling.Throttled | powermeter/throttling.py:48-81 | a success is returned and cached at the post-sleep time; a failure changes nothing and returns the cache, or raises when there is none |
| Throttling.UpdatesSpaced | powermeter/throttling.py:48-72 | given a full sleep, a successful update is at least one interval after the previous one |
| Throttling.UpdateTimeAdvances | powermeter/throttling.py:36-81 | over any calls, n successful reads put the update time at least n intervals after the start |
| Throttling.CacheNeverEmptied | powermeter/throttling.py:73-81 | once a read succeeded, no later throttled call raises |
| Throttling.ThrottledPowermeter.constructor | powermeter/throttling.py:18-30 | the cache starts empty at time 0 |
| Throttling.ThrottledPowermeter.GetPowermeterWatts | powermeter/throttling.py:36-81 | the method's result, sleep and new cache are those of `GetWattsSpec` |
| Throttling.ThrottledPowermeter.WaitForMessage | powermeter/throttling.py:32-34 | it forwards its timeout unchanged |
| Config.Mask | config/config_loader.py:48 | prefix 0 masks nothing and prefix 32 masks every bit |
| Config.EverywhereContainsAll | config/config_loader.py:89 | `0.0.0.0/0` contains every address |
| Config.HostNetwork | config/config_loader.py:48 | a /32 network contains exactly its address |
| Config.NetworkExamples | config/config_loader.py:48 | 192.168.1.77 is in 192.168.1.0/24 and 192.168.2.1 is not |
| Config.ClientFilter.Matches | config/config_loader.py:44-52 | True iff some network contains the address, falling off the loop gives None, and an unparsable address gives False |
| Config.FilterExtremes | config/config_loader.py:44-52 | an empty list admits nobody; `0.0.0.0/0` admits every parsable address |
| Config.AdmitsIff | config/config_loader.py:44-52 | a filter admits an address iff one of its networks contains it |
| Config.AdmitsMonotone | config/config_loader.py:47-49 | adding networks before or after never un-admits |
| Config.ConfigFile.Get | config/config_loader.py:89 | `config.get(..., fallback=)` gives the value when present, else the fallback |
| Config.GetReal | config/config_loader.py:59-61 | `getfloat`: the fallback when absent, otherwise the parsed value or an error |
| Config.ThrottlePrecedence | config/config_loader.py:59-79 | the section's interval when present, else the GENERAL one, else 0.0 |
| Config.ShellyModelChoice | config/config_loader.py:134-143 | "EM" and "3EM" both give ShellyEM; exactly the five known types succeed; anything else raises naming the type |
| Config.ParseEntities | config/config_loader.py:211-216 | empty gives ""; otherwise the comma-split parts stripped: one part as a string, several as a list |
| Config.EntitiesShape | config/config_loader.py:211-216 | a non-empty value gives a single name iff it has no comma |
| Config.EntitiesRoundTrip | config/config_loader.py:211-216 | joining space-free, comma-free names with commas parses back to those names |
| Config.DispatchByPrefix | config/config_loader.py:95-123 | at most one prefix matches a section name; the matching prefix decides the backend; no match gives None |
| Config.NoMatchingPrefix | config/config_loader.py:122-123 | a name that starts no prefix gets no powermeter |
| Config.DispatchToMatch | config/config_loader.py:95-123 | a name that starts with a prefix gets that prefix's backend, never None |
| Config.NoneMatches | config/config_loader.py:95-123 | a name that starts with no prefix builds nothing |
| Config.DispatchExamples | config/config_loader.py:95-123 | GENERAL and lower-case "shelly" give nothing; "TASMOTA_2" gives Tasmota; "MQTT" gives MQTT |
| Config.CreateClientFilter | config/config_loader.py:86-91 | one network per comma-separated NETMASK item, in order; any unparsable item raises |
| Config.NetworksOf | config/config_loader.py:90 | the list comprehension succeeds iff every item parses, keeping order and count |
| Config.DefaultFilterAdmitsAll | config/config_loader.py:89-91 | without NETMASK a section serves every address |
| Config.SectionEntry | config/config_loader.py:64-82 | a section adds nothing iff it builds no powermeter; otherwise its meter, wrapped iff its interval is > 0, with its client filter |
| Config.ReadAllPowermeterConfigs | config/config_loader.py:55-83 | the appending loop computes `AllPowermeterConfigs` |
| Config.EntriesFollowSections | config/config_loader.py:63-83 | the pairs are exactly those of the sections that build a meter, in configuration order |
| App.DeviceDispatch | main.py:26-74 | "ct001" and the three Shelly types are the only accepted device types; any other raises naming it |
| App.ShellyPortsDistinct | main.py:58-71 | the Shelly types get distinct ports (1010, 2222, 2223) |
| App.Resolve | main.py:27-32 | the CLI value when given, else the configured value, else the default |
| App.DefaultSettings | main.py:27-32 | with nothing given: sum on, absolute on, poll interval 1 |
| App.CliFalseOverrides | main.py:27-32 | an explicit CLI `False` still overrides the configuration |
| App.Padded | main.py:43-45 | missing phases are 0 and values beyond the third are ignored |
| App.SummedReadings | main.py:47-52 | summing puts the total on phase 1 and zeros elsewhere; the absolute value is taken of the total |
| App.SeparateReadings | main.py:47-52 | without summing each phase is kept, absolute unless disabled |
| App.ShapeBounds | main.py:43-52 | extra values change nothing; with absolute values on, every phase is non-negative |
| App.ShapeExample | main.py:41-54 | [-500, 200] W gives [300, 0, 0] summed and [500, 200, 0] unsummed; no reading gives zeros |
| App.DefaultMessage | main.py:41-56 | with default settings the CT001 message carries the rounded magnitude of the total, then 0 and 0 |
| App.UpdateReadings | main.py:41-54 | a failed read raises and leaves the slot; a success writes the shaped readings |
| App.DeviceTypes | main.py:102-104 | the CLI list when given, else GENERAL `DEVICE_TYPE` split on commas and stripped |
| App.DefaultDeviceTypes | main.py:102-104 | without `DEVICE_TYPE` the only device is "ct001" |
| App.DefaultIdExamples | main.py:110-115 | a Shelly type at position 1 gets "shellypro3em-ec4609c439c1"; others get "device-2" at position 2 |
| App.FillDeviceIds | main.py:108-115 | supplied IDs are kept; the list grows to the number of device types with the default ID for each 1-based position |
| App.DefaultIdNumber | main.py:112-115 | a default ID ends in the decimal position number |
| App.DefaultIdsDistinct | main.py:110-115 | default IDs for different positions never collide |
| Legacy.FirstPresentIsFirst | smartmeter.py:273-356 | the first listed section present in the file, or none iff none is present |
| Legacy.Precedence | smartmeter.py:273-356 | the meter is the first present section's in the fixed order; none present raises |
| Legacy.ShellyFirst | smartmeter.py:274-289 | a SHELLY section wins; "EM" and "3EM" give ShellyEM; an unknown type raises |
| Legacy.LegacyAcksMore | smartmeter.py:367-378 | every "hame" is acked with no dedupe, so whatever a deduplicating device acks is acked too; only non-UTF-8 data ends the server |
| Legacy.PhaseValues | smartmeter.py:391-396 | the three values of a message are `LegacyValues`: the reading padded with zeros, and with summing on, phases 2 and 3 zero |
| Legacy.HandleTcpClient | smartmeter.py:382-409 | the `while True` loop computes `LegacySession` |
| Legacy.RoundsSend | smartmeter.py:389-405 | one unrounded `HM:` message per round, carrying the padded and (unless disabled) summed values, up to the first failed read or broken pipe |
| Legacy.NotHelloSendsNothing | smartmeter.py:386-409 | a first payload other than "hello" sends nothing |
| Legacy.SummedValues | smartmeter.py:391-398 | summing keeps the total on phase 1 with zeros, and no absolute value is taken |

## Left out

- Sockets, threads, `time.sleep` and the value mutex. The clock and the environment are parameters, and a call under the lock is atomic. Concurrent actions on one device (shelly/shelly_udp_test.py) are not modelled.
- `join` on every device only waits for threads, so it has no model.
- `tcp_server`'s accept loop is not modelled. Each connection is one `HandleTcpClient` call.
- `recvfrom(1024)` truncation, `settimeout` and the `socket.timeout` retry in the CT002 UDP loop are not modelled.
- `format_ct_response_readable` is not modelled: it only produces log text. Logging and printing are not modelled either.
- Python floats. Values are exact thousandths of a watt (whole watts for CT002 and the legacy script), and `round` is exact half-even. `ShellyDevice.Derived` therefore rounds the exact decimal value, not Python's binary float. The CT001 message rounds thousandths to watts.
- `str(float)` formatting and `json.dumps` serialisation are not modelled. A response is a `Json` value.
- `Ct002Codec.LengthField`: it accepts plain decimal digits only. Python's `int()` also takes whitespace, a sign and underscores.
- UTF-8 decoding, `json.loads`, `configparser` value parsing (`getfloat`, `getboolean`, `getint`) and `IPv4Network` string parsing are inputs, not modelled.
- `configparser`'s DEFAULT-section inheritance and its case-folding of option names are not modelled.
- `Text.Strip` and `Text.Lower` cover ASCII whitespace and ASCII letters only, not Unicode.
- The concrete powermeter backends are out of scope. This covers HTTP, MQTT, Modbus and subprocess clients, and the backend classes in smartmeter.py. A backend read is `Watts(values) | Failed`. The constructor arguments the `create_*` helpers read from their sections are not modelled, so neither are their `getint`/`getboolean` failures.
- `test_powermeter` and `SKIP_POWERMETER_TEST` in main.py are not modelled, and neither is the `ThreadPoolExecutor` running one device per type.
- main.py calls `create_powermeter(cfg)` and `Shelly(powermeter=...)`, which match neither `config_loader.create_powermeter(section, config)` nor the `Shelly` constructor. These calls are not modelled; each part is modelled against its own definition.
- `ShellyDevice.Shelly.HandleDatagram` takes the peer as an address. `addr[0]` of a UDP peer always parses, so the unparsable-address branch of `matches` is modelled only in `Config.ClientFilter.Matches`.
- Exceptions raised by `update_readings` propagate out of `before_send` and end the CT001 session (`Raised`). Nothing turns them into an "unavailable" reading.
- `Ct002Codec.LengthDigitsOverflow` and `Ct002Codec.FrameLengthOverflow` model the search exactly as written. A frame of 9996 or more bytes, which the fixed 24 short fields cannot reach in practice, declares a length it does not have.
- `Streaming.Callbacks`: `on_connect` and `after_send` are modelled as installed or not, and they cannot raise. In the source an exception from either (ct001/ct001.py:116-117 and 143-144, b2500/b2500.py:119-120 and 143-144) leaves the session: the connection is still closed and `on_disconnect` still called, but the model has no such ending. Only `before_send` may raise or write the slot.
- `Streaming.Step` and `Legacy.Rounds`: a send that fails always ends the session as a broken pipe. The source catches only `BrokenPipeError` (ct001/ct001.py:147, b2500/b2500.py:147, ct002/ct002.py:220, smartmeter.py:403). Any other `OSError` from `conn.send` propagates instead, and the model does not tell the two apart.
- `App.Arguments`: the command-line flags come in already parsed as `Option<bool>`. main.py:86 and 93-94 declare them with `type=bool`, so any non-empty text, `False` included, reads as `True`. Only an empty argument gives `False`. `App.CliFalseOverrides` therefore covers only that case. The string-to-bool conversion is not modelled.

## Notes on the code

- Shelly `_calculate_derived_values` adds 0.001 to an integral reading before rounding to one decimal. So an integral reading comes out unchanged: 100 W gives 100, not 100.001. Only the total fields keep their 0.001 nudge. The model follows the code.
- The CT002 checksum tolerance accepts a space plus the low hex digit for every checksum value, not only 0x03. The low digit is compared case-sensitively there, while the two-digit form is compared after lowering.
- B2500 has no "no value" check. A `None` or non-triple slot raises inside the loop, ending the session exactly as a raising callback would.
- A Shelly request without a top-level `id` still reads its powermeter. Building the response then raises, and the exception is caught, so no reply goes out.
- `json.loads` keeps the last of duplicate keys in an object (section 4 of RFC 8259 leaves the choice to implementations), and `ShellyDevice.Lookup` reads members the same way.
