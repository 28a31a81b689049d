# VISCA camera controller

A Dafny model of the VISCA command layer for a Tandberg PrecisionHD
pan-tilt-zoom camera. The repository holds two versions of the same
`Controller` class:

- `tandberg/tandberg.py`, the newer one: an error-code table, a steer
  "stop" entry, instance toggle flags, and one `qCmd` inquiry table;
- `controller.py`, the older one.

The model covers, for both versions:

- the 16-bit nibble codec `__toVisca2b`;
- every payload-building method;
- framing in `send` and the byte-by-byte response read (`receive` in the
  newer version, inline in `send` in the older);
- how the stripped response is classified;
- the device state: toggle flags, zoom and focus speed presets, and speed
  fields.

Modules:

- `Visca` (`visca.dfy`): bytes, the Python exceptions as a `Result`, the
  nibble codec, and the semantics of a Python dict literal (the later
  entry wins).
- `Transport` (`transport.dfy`): the serial port as a class with an
  output log (`written`) and a finite input (`pending`). It also holds:
  - `Link`, its value view;
  - the frame `address ++ payload ++ 0xFF`;
  - splitting input at the first 0xFF, and stripping;
  - `Transmit`, the specification of one `send`;
  - `SendAll`, the specification of a method body that calls `send`
    several times in a row.
- `Commands` (`commands.dfy`): the payload builders and lookup tables both
  versions share.
- `Tandberg` (`tandberg.dfy`): the newer `Controller` class, its response
  classification, steer and reboot payloads, the `qCmd` table and the
  toggles.
- `Legacy` (`legacy.dfy`): the older `Controller` class and its payloads.
- `Compare` (`compare.dfy`): where the two versions agree and exactly
  where they differ.

Every method of both `Controller` classes that sends a command is proved
against `Transmit` or `SendAll`:

- its `ensures` gives the status it returns and the new port state (what
  was written, and what input is left) as a function of the old port
  state;
- the lemmas next to those functions prove what the source promises: the
  frame written, the reply consumed, the status, round trips through the
  codec, and what happens with no port.

The other methods are specified directly:

- `Tandberg.Controller.Receive`, the read loop, against
  `SplitAtTerminator` and `Classify`;
- `SetZoomSpeed` and `SetFocusSpeed` of both classes by the one field they
  set;
- `Legacy.Controller.VidFormat` by the NameError it raises before sending.

A Python exception is the outcome `Raised(fault)`. Examples:

- a failed dict lookup: `KeyError`;
- `to_bytes` out of range: `OverflowError`;
- `resp[0]` on an empty response: `IndexError`.

Input that runs out before a 0xFF is `Raised(Stalled)`. The source would
keep calling `read()` for ever in that case.

Points where the code's behaviour is easy to misread:

- **Toggles.** In `tandberg/tandberg.py:190-198` (and in `mirror` and
  `flip`), the flag is flipped before the send, whatever the send
  returns. `Tandberg.Controller.Flip` and the others do the same.
- **Unknown error codes.** The code indexes `error_stat[resp[1]]`
  (`tandberg/tandberg.py:581-585`). That raises KeyError for an error code
  outside {1, 2, 3, 4, 5, 65}, and IndexError for a lone 0x60.
  `Tandberg.Classify` raises accordingly.
- **Toggle flags in the older version.** `controller.py:175`, `196` and
  `217` read the flag as an unbound local, so every "toggle" raises
  UnboundLocalError and no flag ever changes (`Legacy.Toggle`).

## Model

| member | source | states |
|---|---|---|
| Visca.ToByte | tandberg/tandberg.py:84 | `to_bytes(1, 'big')` succeeds exactly on 0..255, giving that one byte; otherwise OverflowError |
| Visca.ToVisca2b | tandberg/tandberg.py:617-627 | succeeds exactly on 0..0xFFFF (OverflowError otherwise) and gives four bytes, each at most 0x0F, whose big-endian nibble reassembly 4096·b0+256·b1+16·b2+b3 is the input |
| Visca.Visca2bValue | controller.py:700-710 | the value four nibbles stand for is a 16-bit number |
| Visca.Visca2bEncodes | controller.py:700-710 | encoding the value of any four nibbles gives back those nibbles, so the codec is a bijection between 0..0xFFFF and nibble quadruples |
| Visca.Dict | tandberg/tandberg.py:522-546 | a dict literal has exactly the keys of its entries |
| Visca.DictKeepsLast | tandberg/tandberg.py:522-546 | an entry whose key does not recur later is the value the dict keeps |
| Visca.DictValueSource | tandberg/tandberg.py:522-546 | every value of the dict comes from an entry whose key does not recur later |
| Transport.Port.Write | tandberg/tandberg.py:605 | appends the message to the output log and consumes no input |
| Transport.Port.Read | tandberg/tandberg.py:561 | yields the next input byte and consumes it, or `b''` when the input is exhausted |
| Transport.SplitAtTerminator | tandberg/tandberg.py:557-563 | the bytes read up to and including the first 0xFF, and the rest; none iff no 0xFF is pending |
| Transport.SplitUnique | tandberg/tandberg.py:557-563 | any prefix ending at the first 0xFF is the one the read loop yields |
| Transport.Strip | tandberg/tandberg.py:567 | `resp[1:-1]`: drops the address byte and the terminator, and is empty for responses of length at most 2 |
| Transport.FrameRoundTrip | tandberg/tandberg.py:600-602 | reading a written frame back stops at its own terminator, and stripping it gives back the payload |
| Transport.Respond | tandberg/tandberg.py:555-570 | with no 0xFF pending the read stalls and consumes everything; the raw reply is dumped iff the command is an inquiry and a reply arrives |
| Transport.Transmit | tandberg/tandberg.py:590-608 | `send`: 1 and nothing written without a port; IndexError on an empty command; otherwise exactly `address ++ cmd ++ [0xFF]` is appended; the reply is dumped iff `cmd[0] == 9` |
| Transport.TransmitReadsOneResponse | tandberg/tandberg.py:555-587 | when the first 0xFF is at k, input up to and including it is consumed, and the status is that of the reply with its first and last byte stripped |
| Transport.SendAllClosed | tandberg/tandberg.py:590-593 | with no port, a method body of several sends returns 1 and writes nothing |
| Transport.SendAllWritesEveryFrame | tandberg/tandberg.py:161-176 | when no send raises, every payload of a multi-send method body is written in order, each in its own frame, whatever the statuses the earlier sends returned |
| Transport.SendAllReturnsLast | tandberg/tandberg.py:161-180 | a further send after sends that raised nothing returns its own status alone |
| Commands.Lookup | tandberg/tandberg.py:94-98 | a table lookup gives the entry of a present key, and KeyError otherwise |
| Commands.Prefixed | tandberg/tandberg.py:140 | a fixed prefix followed by the encoded value; OverflowError outside 0..0xFFFF; decodes back to the value |
| Commands.AddressSet | tandberg/tandberg.py:78-85 | `0x30` then the address byte; OverflowError outside 0..255 |
| Commands.CompassCodesDistinct | tandberg/tandberg.py:420-429 | the eight direction codes are pairwise different and none is the stop pair 0x03 0x03 |
| Commands.WbAutoSteps | tandberg/tandberg.py:130-150 | "off" sends the table index `0x01 0x04 0x75 ++ enc(value)` before the mode payload; any other mode sends only the mode payload |
| Commands.AeAutoSteps | tandberg/tandberg.py:152-180 | "off" sends iris (`0x4B`), then gain (`0x4C`), then the mode payload; any other mode sends only the mode payload |
| Commands.GammaAutoSteps | tandberg/tandberg.py:248-269 | "off" sends the gamma table (`0x52`) before the mode payload |
| Commands.BestView | tandberg/tandberg.py:316-327 | `0x01 0x50 0x60`, `int(time/10)` (truncating) and `time % 10`; succeeds exactly for -10 < time < 2560 |
| Commands.BestViewDigits | tandberg/tandberg.py:321-327 | for 0 ≤ t < 100 the payload is `[0x01,0x50,0x60,t/10,t%10]`, two decimal digits that give t back and hold no 0xFF |
| Commands.BestViewEmbedsTerminator | tandberg/tandberg.py:324-325 | for 2550 ≤ t < 2560 the tens byte is 0xFF, so the payload carries a terminator inside the frame |
| Commands.BestViewNegative | tandberg/tandberg.py:324-327 | for -10 < t < 0 the tens byte is 0 and the ones byte is t + 10 (floor modulo) |
| Commands.ZoomFocus | tandberg/tandberg.py:349-368 | `[0x01,0x04]`, the axis byte 0x07 (zoom), 0x08 (focus) or none (any other `fn`), then the move byte: 0 for "stop", 32+speed for "in"/"far", 48+speed for "out"/"near", where speed is focusSpeed for "focus" and zoomSpeed otherwise; OverflowError exactly when that byte is outside 0..255; an unknown command raises UnboundLocalError |
| Commands.ZoomFocusDecodes | tandberg/tandberg.py:355-368 | for the two speed presets, the move byte gives back the direction, and the speed of the chosen axis (zoomSpeed for zoom, focusSpeed for focus) |
| Commands.ZoomFocusDirect | tandberg/tandberg.py:385-394 | with -1 as "unused": focus only after `0x48`, zoom (and focus if used) after `0x47`; OverflowError for a used value out of range; no 0xFF in the payload |
| Commands.ZoomFocusDirectRoundTrip | tandberg/tandberg.py:385-394 | every zoom/focus direct payload decodes back to its arguments, sentinels included |
| Commands.PanTiltDirect | tandberg/tandberg.py:469-473 | `0x01 0x06 0x02`, the two speed fields, enc(pan), enc(tilt); free of 0xFF iff the speed fields are |
| Commands.PanTiltDirectRoundTrip | controller.py:426-430 | with one-byte speeds the payload gives back both speeds and both positions |
| Commands.PanTiltZoomFocus | tandberg/tandberg.py:489-493 | `0x01 0x06 0x20` then four encoded positions, 19 bytes without 0xFF; OverflowError when any is out of range |
| Commands.PanTiltZoomFocusRoundTrip | controller.py:439-443 | every ptzf payload decodes back to its four positions |
| Tandberg.Classify | tandberg/tandberg.py:581-587 | completion iff the reply starts with 0x50; "Incorrect socket" for any other byte except 0x60; after 0x60, the code and its message from the table; IndexError on an empty reply or a lone 0x60; KeyError for a code outside the table |
| Tandberg.InterpretStatus | tandberg/tandberg.py:581-587 | `receive` returns 0 iff the reply starts with 0x50, 1 iff it names a tabled error or another socket byte, and raises otherwise |
| Tandberg.SteerPayload | tandberg/tandberg.py:416-437 | the eight directions give `0x01 0x06 0x01 ++ panSpeed ++ tiltSpeed ++ code`; "stop" gives `0x01 0x06 0x01 0x03 0x03 0x03 0x03`; anything else raises KeyError |
| Tandberg.SteerUpDefault | tandberg/tandberg.py:28-29 | with the default speeds, "up" is `0x01 0x06 0x01 0x0F 0x0F 0x03 0x01` |
| Tandberg.VidFormatPayload | tandberg/tandberg.py:104-122 | `0x01 0x35 0x00`, the format code (0..7) and `0x00`; KeyError for an unknown format |
| Tandberg.QueryEntriesAreInquiries | tandberg/tandberg.py:522-546 | every entry of the query literal starts with 0x09 |
| Tandberg.QueriesAreInquiries | tandberg/tandberg.py:548-549 | every payload `qCmd` can send is an inquiry, so its reply is dumped |
| Tandberg.QueryGGainShadowed | tandberg/tandberg.py:542-543 | "q_alsGGain" maps to `0x09 0x50 0x53`, and no key maps to `0x09 0x50 0x52` |
| Tandberg.OnlyEntry19HoldsGGain | tandberg/tandberg.py:542 | only the first "q_alsGGain" entry holds `0x09 0x50 0x52` |
| Tandberg.Toggle | tandberg/tandberg.py:190-198 | "toggle" sends "on" and sets the flag iff it was clear, otherwise sends "off" and clears it; any other mode leaves the flag and is looked up as given |
| Tandberg.ToggleTwice | tandberg/tandberg.py:190-198 | two toggles send "on" then "off" (or the reverse) and restore the flag |
| Tandberg.ResetExchange | tandberg/tandberg.py:445-452 | with the default address, a reset writes `0x81 0x01 0x06 0x05 0xFF`, and a completion reply `0x90 0x50 0xFF` yields 0 and is consumed exactly |
| Tandberg.Controller.constructor | tandberg/tandberg.py:19-41 | address 0x81, speed fields 0x0F, zoom speed 10, focus speed 11, no port, all flags clear |
| Tandberg.Controller.Receive | tandberg/tandberg.py:555-587 | the read loop consumes input up to the first 0xFF, classifies the stripped reply and dumps it for an inquiry; stalls with the input exhausted when no 0xFF comes |
| Tandberg.Controller.Send | tandberg/tandberg.py:590-608 | status, port state and dump are those of `Transmit` |
| Tandberg.Controller.Clear | tandberg/tandberg.py:68-76 | sends `0x01 0x00 0x01` |
| Tandberg.Controller.AddressSet | tandberg/tandberg.py:78-89 | sends the address-set payload, or raises before sending |
| Tandberg.Controller.Power | tandberg/tandberg.py:91-102 | sends the power payload for "on"/"off", KeyError otherwise |
| Tandberg.Controller.VidFormat | tandberg/tandberg.py:104-128 | sends the video-format payload |
| Tandberg.Controller.WbAuto | tandberg/tandberg.py:130-150 | runs the white-balance sends; only an exception stops the mode send |
| Tandberg.Controller.AeAuto | tandberg/tandberg.py:152-180 | runs the iris, gain and mode sends in order; only an exception stops them |
| Tandberg.Controller.Backlight | tandberg/tandberg.py:182-202 | sets the flag as `Toggle` says before sending, and changes no other field |
| Tandberg.Controller.Mirror | tandberg/tandberg.py:204-224 | sets the flag as `Toggle` says before sending, and changes no other field |
| Tandberg.Controller.Flip | tandberg/tandberg.py:226-246 | sets the flag as `Toggle` says before sending, and changes no other field |
| Tandberg.Controller.GammaAuto | tandberg/tandberg.py:248-269 | runs the gamma sends; only an exception stops the mode send |
| Tandberg.Controller.MmDetect | tandberg/tandberg.py:271-285 | sends the motion-detect payload |
| Tandberg.Controller.CallLed | tandberg/tandberg.py:287-300 | sends the call-LED payload for on, off or blink |
| Tandberg.Controller.PwrLed | tandberg/tandberg.py:302-314 | sends the power-LED payload |
| Tandberg.Controller.BestView | tandberg/tandberg.py:316-333 | sends the best-view payload, or raises before sending |
| Tandberg.Controller.SetZoomSpeed | tandberg/tandberg.py:335-340 | zoom speed 11 for "high", 10 otherwise; nothing else changes |
| Tandberg.Controller.SetFocusSpeed | tandberg/tandberg.py:342-347 | focus speed 11 for "high", 10 otherwise; nothing else changes |
| Tandberg.Controller.ZoomFocus | tandberg/tandberg.py:349-374 | sends the zoom/focus payload built with the current speed presets |
| Tandberg.Controller.ZoomFocusDirect | tandberg/tandberg.py:376-400 | sends the zoom/focus direct payload |
| Tandberg.Controller.FocusAuto | tandberg/tandberg.py:402-414 | sends the autofocus payload |
| Tandberg.Controller.Steer | tandberg/tandberg.py:416-443 | sends the steer payload built from `panSpeed`/`tiltSpeed` |
| Tandberg.Controller.Reset | tandberg/tandberg.py:445-452 | sends `0x01 0x06 0x05` |
| Tandberg.Controller.Reboot | tandberg/tandberg.py:454-462 | sends `0x01 0x42` |
| Tandberg.Controller.PtDirect | tandberg/tandberg.py:464-478 | sends the pan/tilt payload with `panSpeed`/`tiltSpeed`, and returns None unless something raises |
| Tandberg.Controller.Ptzf | tandberg/tandberg.py:480-499 | sends the ptzf payload |
| Tandberg.Controller.SerialSpeed | tandberg/tandberg.py:501-516 | sends the baud-rate payload for 9600 or 115200, KeyError otherwise |
| Tandberg.Controller.QCmd | tandberg/tandberg.py:519-553 | an unknown query raises KeyError and writes nothing; a known one sends the payload the dict literal keeps for it, equal to `Transmit`, and returns the dumped reply |
| Legacy.Interpret | controller.py:689-691 | 0 iff the stripped reply starts with 0x50, 1 for any other first byte, IndexError on an empty one |
| Legacy.SteerPayload | controller.py:381-397 | the eight directions give `0x01 0x06 0x01 ++ panSpeed ++ tiltSpeed ++ code`; anything else, "stop" included, raises KeyError |
| Legacy.Toggle | controller.py:174-182 | "toggle" raises UnboundLocalError; any other mode is looked up as given |
| Legacy.InquiryPayload | controller.py:469-651 | each `Q_*` method sends an inquiry (first byte 0x09) without a terminator |
| Legacy.InquiryPayloadsDistinct | controller.py:469-651 | no two `Q_*` methods send the same inquiry |
| Legacy.AeAutoOffSendsThree | controller.py:138-164 | `ae_auto("off")` sends iris, gain and mode payloads in that order even when the first two report failure, and returns only the last status |
| Legacy.Controller.constructor | controller.py:14-33 | address 0x81, speed fields 0x01, zoom speed 10, focus speed 11, no port |
| Legacy.Controller.Send | controller.py:654-691 | the inline read loop gives the status, port state and dump of `Transmit` with this version's status reading |
| Legacy.Controller.Clear | controller.py:59-66 | sends `0x01 0x00 0x01` |
| Legacy.Controller.AddressSet | controller.py:68-78 | sends the address-set payload, or raises before sending |
| Legacy.Controller.Power | controller.py:80-90 | sends the power payload |
| Legacy.Controller.VidFormat | controller.py:92-115 | always raises NameError and sends nothing |
| Legacy.Controller.WbAuto | controller.py:117-136 | runs the white-balance sends |
| Legacy.Controller.AeAuto | controller.py:138-164 | runs the iris, gain and mode sends |
| Legacy.Controller.Backlight | controller.py:166-186 | "toggle" raises before sending; "on"/"off" send their payload |
| Legacy.Controller.Mirror | controller.py:188-207 | "toggle" raises before sending; "on"/"off" send their payload |
| Legacy.Controller.Flip | controller.py:209-228 | "toggle" raises before sending; "on"/"off" send their payload |
| Legacy.Controller.GammaAuto | controller.py:230-250 | runs the gamma sends |
| Legacy.Controller.MmDetect | controller.py:252-264 | sends the motion-detect payload |
| Legacy.Controller.CallLed | controller.py:266-278 | sends the call-LED payload |
| Legacy.Controller.PwrLed | controller.py:280-291 | sends the power-LED payload |
| Legacy.Controller.BestView | controller.py:293-307 | sends the best-view payload; the `cmd` argument is unused |
| Legacy.Controller.SetZoomSpeed | controller.py:309-313 | zoom speed 11 for "high", 10 otherwise |
| Legacy.Controller.SetFocusSpeed | controller.py:315-319 | focus speed 11 for "high", 10 otherwise |
| Legacy.Controller.ZoomFocus | controller.py:321-344 | sends the zoom/focus payload built with the current speed presets |
| Legacy.Controller.ZoomFocusDirect | controller.py:346-366 | sends the zoom/focus direct payload |
| Legacy.Controller.FocusAuto | controller.py:368-379 | sends the autofocus payload |
| Legacy.Controller.Steer | controller.py:381-403 | sends the compass-only steer payload |
| Legacy.Controller.Reset | controller.py:405-412 | sends `0x01 0x06 0x05` |
| Legacy.Controller.Reboot | controller.py:414-422 | sends `0x01 0x22` (the octal escape `\42`) |
| Legacy.Controller.PtDirect | controller.py:424-435 | sends the pan/tilt payload with `panSpeedMax`/`tiltSpeedMax`, and returns None unless something raises |
| Legacy.Controller.Ptzf | controller.py:437-449 | sends the ptzf payload |
| Legacy.Controller.SerialSpeed | controller.py:451-465 | sends the baud-rate payload |
| Legacy.Controller.Query | controller.py:469-651 | any `Q_*` method: sends its inquiry and dumps the reply |
| Compare.StatusesAgree | tandberg/tandberg.py:581-587 | wherever the newer reading returns a status, the older returns the same; the newer raises exactly where the older raises, and also on a 0x60 reply with a missing or untabled code, where the older returns 1 |
| Compare.TransmitsAgree | controller.py:654-691 | one `send` writes the same frame, consumes the same reply and dumps the same bytes in both versions; statuses agree wherever the newer one is a status |
| Compare.SteerAgreesExceptStop | tandberg/tandberg.py:429-436 | both versions build the same steer payload for every direction except "stop", which only the newer one accepts |
| Compare.EntryMatchesInquiry | tandberg/tandberg.py:522-546 | the k-th `qCmd` entry sends what the k-th `Q_*` method of the older version sends |
| Compare.KeysRepeatOnlyAtGGain | tandberg/tandberg.py:522-546 | "q_alsGGain" is the only key that occurs twice in the query literal |
| Compare.QueriesAreOldInquiries | tandberg/tandberg.py:540-545 | every `qCmd` query is an older `Q_*` inquiry other than `Q_alsGGain`; "q_alsGGain" sends what `Q_alsWGain` sends |
| Compare.OldInquiriesAreQueries | controller.py:469-651 | every older `Q_*` inquiry except `Q_alsGGain` can be sent through `qCmd` |
| Compare.PtDirectDefaults | tandberg/tandberg.py:469-473 | with the default speeds (0x0F from `panSpeed`/`tiltSpeed` in the newer version, 0x01 from `panSpeedMax`/`tiltSpeedMax` in the older), the `pt_direct` payloads differ only in the two speed bytes |

## Left out

- Argument parsing of the newer version: `inp[0]`, `int(inp[1])` and
  `print(query)`. The methods take the parsed values as parameters.
  `ValueError` from `int()` is not modelled.
- `connect`, `disconnect` and `getPorts`. In the model, a link is attached
  by setting the `ser` field to a `Port`.
- All `print` and logging output, except the hex dump of an inquiry reply.
  That dump is returned as the raw reply bytes (`echo`), not as a list of
  hex strings, by `Send`, `Tandberg.Controller.Receive`,
  `Tandberg.Controller.QCmd` and `Legacy.Controller.Query`. The other
  methods drop it, as the source's callers of `send` do.
- `time.sleep(20)` after a successful `serialSpeed`, and the serial
  timeouts. The input is a finite sequence; running out of it before a
  0xFF is the outcome `Stalled`, not a wait.
- The float division in `bestView`: `int(time/10)` is modelled as
  truncating integer division. For very large `time` the float rounding
  could differ, but such values raise OverflowError anyway.
- The older version's class-level toggle flags. Nothing ever changes them,
  because its toggles raise before assigning, so they are not fields of
  `Legacy.Controller`.
- Legacy.Controller.Query: the 23 `Q_*` methods are one method over the
  `Inquiry` datatype. Their status messages are left out with the other
  prints.
- The `port` and `interface` fields, which no modelled method reads.
- The default arguments of the older version: `wb_auto(value=0)`,
  `ae_auto(iris=0, gain=0)`, `gamma_auto(value=0)` and
  `zoomFocus_direct(zoom=0, focus=0)` (`controller.py:117`, `138`, `230`,
  `346`). Dafny has no default arguments, so callers pass these values
  explicitly.
- Tandberg.Controller.SerialSpeed: takes `baud` as an integer.
  `tandberg/tandberg.py:503` applies no `int()` to `inp[0]`, so a text
  front end that passes the string "9600" gets KeyError. The model's
  callers pass the number already converted.
- main.py and the tests: interactive loops, vision code and screen
  clearing.
