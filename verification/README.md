# EVerest: the ISO 15118-2 JSON codec and the ChargeBridge runtime

This project models two parts of the repository and proves what they promise.

**The ISO 15118-2 JSON codec** (`applications/cbv2g_json_wrapper`) carries messages between EXI
structures and JSON, and has to do so without losing a digit. The model covers

- X.509 serial numbers: decimal text of any length against base-256 octets, with EXI's storage of a
  negative N as |N| - 1 (section 7.1.5 of EXI 1.0), by in-place long multiplication and division
  (`Numerals.dfy`, `SerialNumber.dfy`);
- 64-bit integers, which are read exactly or refused (`ExactIntegers.dfy`);
- the character loop that puts quotes around such numbers before cJSON can round them, against a
  grammar of tokens (`JsonTokens.dfy`, `PrepareJson.dfy`), what that means for the characters of a text
  (`JsonTexts.dfy`), and the whole way of a 64-bit integer through
  print, quoting and read (`ExactTravel.dfy`);
- canonical base64 (sections 3.5 and 4 of RFC 4648, `Base64.dfy`);
- the nested structures of a schedule list with its sales tariffs (`CJson.dfy`, `Schedules.dfy`,
  `ScheduleShapes.dfy`).

**The ChargeBridge runtime** (`applications/pionix_chargebridge`) is a set of event-driven state
machines. The model covers

- the CAN bridge: batches, datagrams, token-bucket pacing and the rate of the emulated bus
  (`CanPacing.dfy`, `CanDatagram.dfy`, `CanFates.dfy`, `CanBridge.dfy`, `CanRuns.dfy`,
  `CanHistory.dfy`);
- the manager thread and the action queue of the event loop (`Manager.dfy`, `ManagerHistory.dfy`);
- the serial bridge with pause, resume and gated reconnect (`SerialBridge.dfy`, `SerialHistory.dfy`);
- the carrier of the PLC tap device and the bridge's belief about it (`PlcCarrier.dfy`, `PlcHistory.dfy`);
- the reassembly of the MCU's debug output (`McuLog.dfy`).

Code that works in place on buffers is a method over arrays. Each runtime object is a class; its
methods are proved to compute a function on the object's state (`View`), and what holds over every run is
proved about that function, for every sequence of events that the environment can produce. The `History`
modules state the same machines a second time, part by part instead of handler by handler and with all
constants written out, and prove that both agree in every run. Time and the C++ doubles are reals. Answers of
the kernel, of the network and of the libraries are parameters.

## Promises that do not hold as they stand

- Serial numbers: -2^160 is stored in 20 octets and so is printed, but its text is not read back.
  `SerialNumber.PrintThenRead` states that this is the only value.
- Log lines: reassembly is exact if and only if no packet leaves an open line of more than 2048 bytes
  (`McuLog.ReassemblyIsExact`). `McuLog.LongLineIsCut` gives seventeen full packets that do.
- Carrier: belief and device can part. `PlcCarrier.EventAgrees` states for each event exactly when they
  agree afterwards, `PlcCarrier.AgreementSinceOpening`, `PlcCarrier.AgreementSinceCreation` and
  `PlcCarrier.AgreementSinceUp` over every run exactly when they agree since the device was opened, created
  anew or reported up, `PlcCarrier.RefusedOpenIsNotNoticed` gives a run in which the carrier stays on
  unnoticed, and `PlcCarrier.CarrierAgrees` that this takes a refused request that no later one made up for.
- Serial bridge: a resume that the event loop refuses is forgotten. `SerialBridge.LostIffRefused` states
  that a terminal is unread without the bridge knowing exactly if this happened since it was opened, and
  `SerialBridge.RefusedResumeIsForgotten` that there is such a run.

In one place the code differs from its comment and the model follows the code: the token bucket is said to
start full, but it starts with more than it holds.

## Model

| member | source | states |
|---|---|---|
| `CJson.ItemToInteger` | applications/cbv2g_json_wrapper/src/iso2_converter.c:107-122 | a JSON number is read exactly if it is an integer in the range, and as that integer |
| `Numerals.CanonicalIsDecimal` | applications/cbv2g_json_wrapper/src/iso2_converter.c:191-210 | a digit string without a leading zero is the decimal of its value |
| `Numerals.CanonicalIsSignedDecimal` | applications/cbv2g_json_wrapper/src/iso2_converter.c:2624-2646 | the same with a sign and without "-0" |
| `Numerals.DigitsAre` | applications/cbv2g_json_wrapper/src/iso2_converter.c:2718-2719 | the digits are 0 to 9 in this order |
| `Numerals.DecimalLength` | applications/cbv2g_json_wrapper/src/iso2_converter.c:2700-2728 | a number of n octets has at most 3n digits, so the text buffers suffice |
| `Numerals.BytesValueInjective` | applications/cbv2g_json_wrapper/src/iso2_converter.c:2665-2684 | octet strings of one length and one value are equal |
| `ExactIntegers.TextToMagnitude` | applications/cbv2g_json_wrapper/src/iso2_converter.c:191-210 | accepts exactly the canonical decimals up to the bound, with no intermediate value out of 64 bits, and returns sign and magnitude |
| `ExactIntegers.NegateIsMinus` | applications/cbv2g_json_wrapper/src/iso2_converter.c:216-235 | unsigned negation read as signed is minus the magnitude, down to the least 64-bit integer |
| `ExactIntegers.NumbersAreSafe` | applications/cbv2g_json_wrapper/src/iso2_converter.c:216-235 | a JSON number counts exactly up to 2^53 - 1 |
| `ExactIntegers.ReadInt64` | applications/cbv2g_json_wrapper/src/iso2_converter.c:216-235 | succeeds exactly if the member denotes a signed 64-bit integer, with that integer |
| `ExactIntegers.ReadUint64` | applications/cbv2g_json_wrapper/src/iso2_converter.c:237-255 | the same for unsigned integers |
| `ExactTravel.PrepareMember` | applications/cbv2g_json_wrapper/src/iso2_converter.c:3366-3418 | a document with an exact-integer member differs from its prepared form there only by the quotes, its lexing holds the key followed by the string of the digits, and no number is a reason to refuse it |
| `ExactTravel.Int64Travels` | applications/cbv2g_json_wrapper/src/iso2_converter.c:216-235 | any integer printed for a key anywhere in a document, prepared and read from the string that the prepared text holds for that key, is itself if it is a signed 64-bit integer and is refused otherwise |
| `ExactTravel.Uint64Travels` | applications/cbv2g_json_wrapper/src/iso2_converter.c:237-255 | the same for unsigned 64-bit integers |
| `ExactTravel.SerialTravels` | applications/cbv2g_json_wrapper/src/iso2_converter.c:2624-2684 | the same for serial numbers of at most 20 octets, which arrive with sign and EXI magnitude |
| `SerialNumber.TimesTenPlus` | applications/cbv2g_json_wrapper/src/iso2_converter.c:2650-2655 | the octets in place hold ten times the old number plus the digit, up to the carry returned |
| `SerialNumber.Decrement` | applications/cbv2g_json_wrapper/src/iso2_converter.c:2673-2677 | the octets in place hold one less |
| `SerialNumber.Increment` | applications/cbv2g_json_wrapper/src/iso2_converter.c:2702-2707 | the octets in place hold one more |
| `SerialNumber.DivideByTen` | applications/cbv2g_json_wrapper/src/iso2_converter.c:2711-2718 | quotient in place, remainder and whether the quotient is zero returned |
| `SerialNumber.DigitsBackwards` | applications/cbv2g_json_wrapper/src/iso2_converter.c:2709-2720 | repeated division terminates with the decimal digits in reverse and at most three per octet |
| `SerialNumber.ItemToSerialNumber` | applications/cbv2g_json_wrapper/src/iso2_converter.c:2624-2684 | accepts exactly what denotes an integer of at most 20 octets of magnitude, and returns its sign and EXI magnitude |
| `SerialNumber.AddSerialNumber` | applications/cbv2g_json_wrapper/src/iso2_converter.c:2686-2731 | for any capacity of the EXI library: prints exactly the numbers of at most 20 significant octets, as canonical decimals |
| `SerialNumber.SerialRange` | applications/cbv2g_json_wrapper/src/iso2_converter.c:2615-2616 | serial numbers are those of 160 bits and a sign, and are handed over in 25 octets |
| `SerialNumber.PrintThenRead` | applications/cbv2g_json_wrapper/src/iso2_converter.c:2624-2731 | printing and reading gives back sign and magnitude, except for -2^160 only |
| `SerialNumber.ReadThenPrint` | applications/cbv2g_json_wrapper/src/iso2_converter.c:2624-2731 | every text that is read is printed again as it was |
| `JsonTokens.LexLexes` | applications/cbv2g_json_wrapper/src/iso2_converter.c:3366-3418 | every text has a lexing in the grammar of tokens |
| `JsonTokens.LexingIsUnique` | applications/cbv2g_json_wrapper/src/iso2_converter.c:3366-3418 | and only one |
| `JsonTokens.MemberIsQuoted` | applications/cbv2g_json_wrapper/src/iso2_converter.c:3350-3398 | wherever a number is given for one of the four keys, it and it alone gains quotes |
| `JsonTokens.MemberRefusal` | applications/cbv2g_json_wrapper/src/iso2_converter.c:3381-3404 | such a member changes nothing about whether a document is refused |
| `JsonTokens.MemberRelexing` | applications/cbv2g_json_wrapper/src/iso2_converter.c:3350-3398 | in the prepared document such a number is the string token behind its key, and all else is what preparation makes of it |
| `JsonTokens.PreparedIsFixed` | applications/cbv2g_json_wrapper/src/iso2_converter.c:3366-3418 | preparing a prepared document changes nothing, and it is refused exactly if the original was |
| `JsonTexts.CharactersAre` | applications/cbv2g_json_wrapper/src/iso2_converter.c:3350-3398 | the four keys, the separators and the characters of numbers, written out |
| `JsonTexts.NumberGainsQuotes` | applications/cbv2g_json_wrapper/src/iso2_converter.c:3381-3398 | wherever one of the four keys, a colon between white space and a number follow each other, the number and it alone gains quotes |
| `JsonTexts.OtherValuesStay` | applications/cbv2g_json_wrapper/src/iso2_converter.c:3381-3398 | any other value of such a key stays as it is |
| `JsonTexts.OnlyQuotesAreAdded` | applications/cbv2g_json_wrapper/src/iso2_converter.c:3366-3418 | of every text preparation changes nothing but the number of its quotes |
| `JsonTexts.WithoutKeyNothingChanges` | applications/cbv2g_json_wrapper/src/iso2_converter.c:3366-3418 | a text in which none of the keys occurs stays as it is |
| `JsonTexts.StringsStay` | applications/cbv2g_json_wrapper/src/iso2_converter.c:3399-3410 | any other string is copied with all its escapes, whatever it holds |
| `JsonTexts.NulIsRefused` | applications/cbv2g_json_wrapper/src/iso2_converter.c:3399-3410 | a string with the escape for NUL, behind any characters and escapes, makes the document refused, wherever it stands |
| `JsonTexts.WithoutNulNotRefused` | applications/cbv2g_json_wrapper/src/iso2_converter.c:3399-3410 | a text in which that escape does not occur is not refused |
| `JsonTexts.EscapedBackslashIsNotRefused` | applications/cbv2g_json_wrapper/src/iso2_converter.c:3399-3410 | an escaped backslash in front does not make an escape |
| `PrepareJson.StringIsRefused` | applications/cbv2g_json_wrapper/src/iso2_converter.c:3399-3410 | the scan for a NUL escape finds one exactly if one starts at an unescaped position of the string |
| `PrepareJson.CopyKeyed` | applications/cbv2g_json_wrapper/src/iso2_converter.c:3381-3398 | copies key, separators and number, the number with quotes |
| `PrepareJson.CapacitySuffices` | applications/cbv2g_json_wrapper/src/iso2_converter.c:3366-3369 | the buffer has room for what is copied and for two quotes at every position |
| `PrepareJson.PrepareJson` | applications/cbv2g_json_wrapper/src/iso2_converter.c:3366-3418 | refuses a text exactly if a string of its lexing holds a NUL escape, and otherwise returns the quoted form of the lexing, within the buffer of len + 2 (len / 8 + 1) + 1 characters |
| `Base64.Base64Encode` | applications/cbv2g_json_wrapper/src/json_utils.c:36-59 | fills the buffer with the encoding and a terminator, or returns 0 exactly if they do not fit |
| `Base64.Base64Decode` | applications/cbv2g_json_wrapper/src/json_utils.c:61-109 | decodes exactly the texts of whole groups whose first two characters are in the alphabet, if there is room |
| `Base64.AlphabetIsStandard` | applications/cbv2g_json_wrapper/src/json_utils.c:36-59 | the alphabet is that of RFC 4648, written out |
| `Base64.GroupIsNumber` | applications/cbv2g_json_wrapper/src/json_utils.c:36-59 | octets and sextets of a group write the same number of 24 bits |
| `Base64.DecodeEncode` | applications/cbv2g_json_wrapper/src/json_utils.c:36-109 | decoding an encoding gives the octets back, and the encoding is valid |
| `Base64.EncodeDecode` | applications/cbv2g_json_wrapper/src/iso2_converter.c:313-336 | encoding what a valid text decodes to gives the text back |
| `Base64.ValidIffEncoded` | applications/cbv2g_json_wrapper/src/iso2_converter.c:313-336 | a text is valid exactly if it encodes some octets |
| `Base64.ItemToBase64Bytes` | applications/cbv2g_json_wrapper/src/iso2_converter.c:338-362 | succeeds exactly on the encodings of octets that fit, and stores those octets |
| `Schedules.ReadEach` | applications/cbv2g_json_wrapper/src/iso2_converter.c:1087-1122 | the loop over list entries fills the array with all of them in order or fails with the first that fails, and writes nothing behind them |
| `Schedules.ReadPMaxSchedule` | applications/cbv2g_json_wrapper/src/iso2_converter.c:1098-1114 | the array and its length hold exactly the power schedule that is read, every entry valid, and the array is never left |
| `Schedules.ReadScheduleTuples` | applications/cbv2g_json_wrapper/src/iso2_converter.c:1078-1124 | the same for the schedule tuples |
| `Schedules.EnumSurvives` | applications/cbv2g_json_wrapper/src/iso2_converter.c:657-688 | a listed value is written as a name that reads back as the value, any other is not written |
| `Schedules.ListSurvivesIff` | applications/cbv2g_json_wrapper/src/iso2_converter.c:944-1160 | a list is read back unchanged exactly if all its entries are |
| `Schedules.PhysicalValueSurvives` | applications/cbv2g_json_wrapper/src/iso2_converter.c:741-761 | a written physical value is read back exactly if multiplier, unit and value are in range |
| `Schedules.IntervalSurvives` | applications/cbv2g_json_wrapper/src/iso2_converter.c:918-942 | the same for an interval with its optional duration |
| `Schedules.CostSurvives` | applications/cbv2g_json_wrapper/src/iso2_converter.c:1004-1021 | the same for a cost with its optional multiplier |
| `Schedules.ConsumptionCostSurvives` | applications/cbv2g_json_wrapper/src/iso2_converter.c:991-1022 | the same for a consumption cost with its list of costs |
| `Schedules.TariffEntrySurvives` | applications/cbv2g_json_wrapper/src/iso2_converter.c:967-1023 | the same for a tariff entry with its list of consumption costs |
| `Schedules.SalesTariffSurvives` | applications/cbv2g_json_wrapper/src/iso2_converter.c:944-1076 | a sales tariff is written and read back unchanged exactly if it is valid on all its levels |
| `Schedules.PMaxEntrySurvives` | applications/cbv2g_json_wrapper/src/iso2_converter.c:1103-1114 | the same for an entry of a power schedule |
| `Schedules.TupleSurvives` | applications/cbv2g_json_wrapper/src/iso2_converter.c:1087-1122 | the same for a schedule tuple with its optional tariff |
| `Schedules.ScheduleListSurvives` | applications/cbv2g_json_wrapper/src/iso2_converter.c:1078-1160 | a schedule list is written and read back unchanged exactly if every scalar is in range, every enumeration value listed, every string short enough and free of NUL, and every list within its array |
| `Schedules.ReadScheduleListIsStable` | applications/cbv2g_json_wrapper/src/iso2_converter.c:1078-1124 | whatever JSON it is given, the reader delivers a valid list or fails, and what it delivered survives |
| `ScheduleShapes.ScheduleListShape` | applications/cbv2g_json_wrapper/src/iso2_converter.c:944-1160 | a written list has the members of the standard on all levels, their names, enumeration names and values written out |
| `ScheduleShapes.ScalarLimits` | applications/cbv2g_json_wrapper/src/iso2_converter.c:43-52 | the limits of the scalars, written out |
| `ScheduleShapes.ListLimits` | applications/cbv2g_json_wrapper/src/iso2_converter.c:944-1124 | the limits of the lists, identifiers and strings, written out |
| `ScheduleShapes.NullIsMissing` | applications/cbv2g_json_wrapper/src/iso2_converter.c:61-73 | a member that is null counts as missing |
| `CanPacing.WireBitsBounds` | applications/pionix_chargebridge/src/can_bridge.cpp:326-339 | the cost covers the fixed bits of its kind of frame and at least the payload, is at most 138 bits for classic frames and 615 for all, and 21 less for standard ones |
| `CanPacing.WireBitsExact` | applications/pionix_chargebridge/src/can_bridge.cpp:326-339 | for classic frames exactly: 47 or 67 bits, eight for each byte, and 6.5 percent of all but thirteen of them, cut to an integer |
| `CanPacing.WireBitsGrow` | applications/pionix_chargebridge/src/can_bridge.cpp:326-339 | one more byte costs eight or nine bits, the long identifier 21 or 22 |
| `CanPacing.DlcTable` | applications/pionix_chargebridge/src/can_bridge.cpp:326-334 | the payload size of every DLC code, written out |
| `CanPacing.HeldBatchShips` | applications/pionix_chargebridge/src/can_bridge.cpp:424-443 | two refills after the times that the timer is set for cover the batch if and only if the bucket does |
| `CanPacing.HoldIsTight` | applications/pionix_chargebridge/src/can_bridge.cpp:432-435 | the timer waits a tenth of a millisecond or for the missing tokens, up to less than a nanosecond |
| `CanPacing.ClassicBatchFits` | applications/pionix_chargebridge/src/can_bridge.cpp:326-339 | twelve classic frames fit the bucket from 125 kbit/s on |
| `CanPacing.PacingConforms` | applications/pionix_chargebridge/src/can_bridge.cpp:424-443 | between two datagrams no more bits are taken than a bucket and the flow between them |
| `CanPacing.AverageStaysBetween` | applications/pionix_chargebridge/src/can_bridge.cpp:320-323 | the running average stays between the least and the greatest of the costs and the initial assumption |
| `CanPacing.AverageMoves` | applications/pionix_chargebridge/src/can_bridge.cpp:320-323 | each frame takes the average a 64th of the way to its cost |
| `CanPacing.WantedRateStaysBetween` | applications/pionix_chargebridge/src/can_bridge.cpp:343-347 | the wanted rate stays between the rates for those |
| `CanPacing.BusRateMeaning` | applications/pionix_chargebridge/src/can_bridge.cpp:343-347 | at the wanted rate the virtual bus carries, at 16 bytes each, as many frames as 95 percent of the bitrate carry of the average cost |
| `CanDatagram.HandleUdpRx` | applications/pionix_chargebridge/src/can_bridge.cpp:223-241 | one frame per record, the last one filled up with zeros |
| `CanDatagram.DatagramInverse` | applications/pionix_chargebridge/src/can_bridge.cpp:29-44 | a datagram is read back as its frames in order, also if it is cut behind the last used data byte |
| `CanDatagram.RecordLayout` | applications/pionix_chargebridge/shared/protocol/cb_can_message.h:65-90 | the place of every field of a record, byte by byte |
| `CanDatagram.FrameLayout` | applications/pionix_chargebridge/src/can_bridge.cpp:19-27 | any record is read by that layout |
| `CanFates.SettleShipped` | applications/pionix_chargebridge/src/can_bridge.cpp:444-450 | sending the batch puts what waits, in order, behind all that was sent before |
| `CanBridge.Bridge.constructor` | applications/pionix_chargebridge/src/can_bridge.cpp:125-146 | the initial state, shaped or not |
| `CanBridge.Bridge.HandleCanRx` | applications/pionix_chargebridge/src/can_bridge.cpp:148-175 | the whole state after a frame and those that wait behind it |
| `CanBridge.Bridge.Append` | applications/pionix_chargebridge/src/can_bridge.cpp:314-324 | the record, the bits and the average after one more frame, all else unchanged |
| `CanBridge.Bridge.Flush` | applications/pionix_chargebridge/src/can_bridge.cpp:418-456 | the whole state after a flush: nothing to do, held with the timer set, or sent |
| `CanBridge.Bridge.TakeTokens` | applications/pionix_chargebridge/src/can_bridge.cpp:424-442 | the bucket is refilled, and the batch taken from it exactly if it is covered |
| `CanBridge.Bridge.UpdateRate` | applications/pionix_chargebridge/src/can_bridge.cpp:350-384 | the shaper's rate and time after an update |
| `CanBridge.Bridge.ResetPacing` | applications/pionix_chargebridge/src/can_bridge.cpp:403-412 | a fresh bucket, no bits, reading resumed |
| `CanBridge.Bridge.DisconnectCbEndpoint` | applications/pionix_chargebridge/src/can_bridge.cpp:251-265 | the batch is dropped, the timer disarmed and pacing reset |
| `CanBridge.Bridge.ConnectCbEndpoint` | applications/pionix_chargebridge/src/can_bridge.cpp:267-272 | the same, with a new client |
| `CanRuns.BatchIsAccountedFor` | applications/pionix_chargebridge/src/can_bridge.cpp:148-175 | in every state of every run: at most 12 frames wait, their bits are summed up, the timer is armed exactly while some wait, reading is paused only then, the receiver of the datagrams reads the sent frames in order, and every frame received is in exactly one place |
| `CanRuns.RunConforms` | applications/pionix_chargebridge/src/can_bridge.cpp:403-456 | in every state of every run, any two datagrams of a connection: at most a bucket plus the flow between them was sent, although the bucket starts overfull |
| `CanRuns.PacedDatagramsAreSent` | applications/pionix_chargebridge/src/can_bridge.cpp:442-450 | what conforms are the datagrams sent since the connection began, with the wire bits of the frames in them |
| `CanRuns.HeldBatchLeaves` | applications/pionix_chargebridge/src/can_bridge.cpp:424-443 | a held batch is gone after two firings of its timer if and only if it fits the bucket, and otherwise unchanged |
| `CanRuns.EveryFrameLeaves` | applications/pionix_chargebridge/src/can_bridge.cpp:148-175 | in every run of the frames that the CAN socket delivers, at every configurable bitrate, with receptions in between and whether or not pausing succeeds: while a frame waits, the timer fires when due at most twice plus three times for each frame that joins, so at most 35 times |
| `CanRuns.BusRateIsSane` | applications/pionix_chargebridge/src/can_bridge.cpp:320-384 | in every state of every run the average, the rate that it asks for and the rate that is installed are within the range of the frames seen |
| `CanRuns.RateFollows` | applications/pionix_chargebridge/src/can_bridge.cpp:350-384 | in every run, after every event with which a batch leaves a shaped bus, the shaper's rate is within 3 percent of the one that the average over all frames asks for, or its last change too recent for another |
| `CanHistory.EndpointFollows` | applications/pionix_chargebridge/src/can_bridge.cpp:251-272 | there is a client unless the last event about it was a disconnect |
| `CanHistory.StartFollows` | applications/pionix_chargebridge/src/can_bridge.cpp:125-146 | how the bridge starts |
| `CanHistory.EveryEventFollows` | applications/pionix_chargebridge/src/can_bridge.cpp:148-175 | in every run, for every event: which frames wait, are sent in one datagram or dropped, when the timer is set to 3 ms or to the missing tokens, when reading is paused, and what is in the bucket |
| `CanHistory.FirstBatchIsNotHeld` | applications/pionix_chargebridge/src/can_bridge.cpp:403-407 | the first batch of a connection is covered by the bucket in every run |
| `CanHistory.RateFollowsFrames` | applications/pionix_chargebridge/src/can_bridge.cpp:350-384 | in every run the shaper's rate changes exactly when a batch leaves, the last change is old enough and the wanted rate three percent off, and to that rate |
| `CanHistory.UnshapedIsLeftAlone` | applications/pionix_chargebridge/src/can_bridge.cpp:350-384 | in every run the rate of a bus that is not shaped is never touched |
| `Manager.ChargeBridge.constructor` | applications/pionix_chargebridge/src/charge_bridge.cpp:820-832 | bridges exist, none is connected or registered |
| `Manager.ChargeBridge.SetRuntimeConnectionStatus` | applications/pionix_chargebridge/src/charge_bridge.cpp:409-418 | nothing with a heartbeat service, else the flag and a posted action |
| `Manager.ChargeBridge.CompleteStop` | applications/pionix_chargebridge/src/charge_bridge.cpp:1005-1027 | flags, schedules and connection state after a stop has run |
| `Manager.ChargeBridge.ProbeLiveness` | applications/pionix_chargebridge/src/charge_bridge.cpp:1084-1126 | schedule, failure count and connection state after a cycle's probe |
| `Manager.ChargeBridge.RetryBridges` | applications/pionix_chargebridge/src/charge_bridge.cpp:1134-1143 | when a retry is scheduled and when it is posted |
| `Manager.ChargeBridge.FollowConnection` | applications/pionix_chargebridge/src/charge_bridge.cpp:1145-1219 | when a stop or a start is posted and when a start counts as done |
| `Manager.ChargeBridge.RunCycle` | applications/pionix_chargebridge/src/charge_bridge.cpp:993-1221 | the whole state after a manager cycle |
| `Manager.ChargeBridge.StartRuntime` | applications/pionix_chargebridge/src/charge_bridge.cpp:444-511 | the bridges and the promise after a start, with each way to fail |
| `Manager.ChargeBridge.StopRuntime` | applications/pionix_chargebridge/src/charge_bridge.cpp:919-944 | nothing is registered or connected after a stop, whether or not disconnecting threw, and the promise tells which |
| `Manager.ChargeBridge.RetryMissing` | applications/pionix_chargebridge/src/charge_bridge.cpp:741-798 | what was missing and can be created, connected and registered is, all else is untouched |
| `Manager.ChargeBridge.RunNextAction` | applications/pionix_chargebridge/src/charge_bridge.cpp:453-511 | actions run in the order in which they were posted |
| `Manager.StartIsValid` | applications/pionix_chargebridge/src/charge_bridge.cpp:444-511 | a start of a runtime that is down leaves all bridges registered and connected or none, as it reports |
| `Manager.RetryIsValid` | applications/pionix_chargebridge/src/charge_bridge.cpp:141-167 | a late bridge is registered once and the others are not touched |
| `Manager.FlagsAgree` | applications/pionix_chargebridge/src/charge_bridge.cpp:1005-1219 | in every state of every interleaving: started equals was-connected, a start is under way only when not connected and a stop only when connected, and a retry or stop waits only for a runtime that is up |
| `Manager.RegisteredOnce` | applications/pionix_chargebridge/src/charge_bridge.cpp:741-798 | in every state of every interleaving, whatever fails: no registered bridge was registered again, exactly the existing bridges are connected and registered while the runtime is up and none while it is not, and a started runtime has its configured heartbeat service |
| `Manager.StartsAndStops` | applications/pionix_chargebridge/src/charge_bridge.cpp:444-511 | in every interleaving: a start leaves all existing bridges connected and registered if it reports success and none otherwise, a stop leaves none, and no bridge is taken away |
| `Manager.SecondFailureDisconnects` | applications/pionix_chargebridge/src/charge_bridge.cpp:1084-1126 | without a heartbeat service a connection is given up exactly at a failed probe whose predecessor failed too, a base cycle or more before |
| `Manager.ProbesAreSpaced` | applications/pionix_chargebridge/src/charge_bridge.cpp:1084-1114 | probes of a runtime are a base cycle apart at least |
| `ManagerHistory.EveryCycleFollows` | applications/pionix_chargebridge/src/charge_bridge.cpp:993-1221 | in every run, for every cycle: what it posts in which order (a start exactly for the right firmware and no runtime, a stop exactly for a lost connection, a retry and a probe exactly when due), which flags and schedules it leaves and whether the connection is up |
| `ManagerHistory.EveryActionFollows` | applications/pionix_chargebridge/src/charge_bridge.cpp:453-511 | in every run the actions run in order; a start creates what can be, succeeds exactly if nothing is missing or refused, and connects and registers all or none; a retry adds exactly the missing bridges that can be created and are accepted |
| `ManagerHistory.HeartbeatDecides` | applications/pionix_chargebridge/src/charge_bridge.cpp:409-418 | with a heartbeat service the connection is what that last reported |
| `SerialBridge.Bridge.SetCbConnectionStatus` | applications/pionix_chargebridge/src/serial_bridge.cpp:54-66 | the whole state after a change of the ChargeBridge's connection |
| `SerialBridge.Bridge.HandlePtyError` | applications/pionix_chargebridge/src/serial_bridge.cpp:68-75 | the whole state after the terminal came up or failed |
| `SerialBridge.Bridge.HandlePtyData` | applications/pionix_chargebridge/src/serial_bridge.cpp:80-94 | what is buffered and when reading is paused |
| `SerialBridge.Bridge.HandleTcpError` | applications/pionix_chargebridge/src/serial_bridge.cpp:114-130 | readiness and reconnect timer after a report of the client |
| `SerialBridge.Bridge.EnsureTcpClient` | applications/pionix_chargebridge/src/serial_bridge.cpp:133-143 | a client is created exactly if there is none and it may be, and dropped if it is not accepted |
| `SerialBridge.Bridge.HandleReconnectTimer` | applications/pionix_chargebridge/src/serial_bridge.cpp:145-149 | the client is reset exactly if it is not ready and the ChargeBridge is connected |
| `SerialBridge.Bridge.DropTcpClient` | applications/pionix_chargebridge/src/serial_bridge.cpp:151-164 | no client, no timer, terminal resumed |
| `SerialBridge.Bridge.ResumePty` | applications/pionix_chargebridge/src/serial_bridge.cpp:166-171 | a paused terminal is resumed, or its resume fails |
| `SerialBridge.Bridge.DisconnectCbEndpoint` | applications/pionix_chargebridge/src/serial_bridge.cpp:173-177 | the whole state after the endpoint is given up |
| `SerialBridge.Bridge.ConnectCbEndpoint` | applications/pionix_chargebridge/src/serial_bridge.cpp:179-185 | the whole state after an endpoint is requested |
| `SerialBridge.StepIsValid` | lib/everest/io/src/event/fd_event_client.cpp:85-100 | every handler and every event of the library's client keeps the invariant |
| `SerialBridge.NeverWedges` | applications/pionix_chargebridge/src/serial_bridge.cpp:54-171 | in every state of every run: a paused terminal has a client, a client that is not ready while the ChargeBridge is connected has its timer armed, an attempt in flight or a report due, and the bridge is available exactly if all sides are up |
| `SerialBridge.PausedPtyResumes` | applications/pionix_chargebridge/src/serial_bridge.cpp:109-128 | from every state of every run with the ChargeBridge connected: a paused terminal has progress of the library under way and, in whatever order events come while no connection fails and nothing more is buffered, is resumed before more progress is made than the rank of the connection |
| `SerialBridge.PauseIsKnown` | applications/pionix_chargebridge/src/serial_bridge.cpp:166-171 | if no resume is refused, a terminal that is not read is known to be paused |
| `SerialBridge.LostIffRefused` | applications/pionix_chargebridge/src/serial_bridge.cpp:166-171 | in every state of every run: the terminal is unread and not known to be paused exactly if a resume of it was refused and it has not been opened anew since |
| `SerialBridge.RefusedResumeIsForgotten` | applications/pionix_chargebridge/src/serial_bridge.cpp:166-171 | there is a run that ends with such a terminal |
| `SerialHistory.RunRemembers` | applications/pionix_chargebridge/src/serial_bridge.cpp:54-75 | in every state of every run request, connection, registration and terminal are as last asked for or reported |
| `SerialHistory.ClientIffNotRefused` | applications/pionix_chargebridge/src/serial_bridge.cpp:133-143 | in every state of every run: a requested endpoint on a connected ChargeBridge has no client exactly if the event loop refused the last one, and without a request there is none |
| `SerialHistory.AttemptsAreGated` | applications/pionix_chargebridge/src/serial_bridge.cpp:114-149 | in every run a connection is attempted only while requested and the ChargeBridge is connected |
| `SerialHistory.StartFollows` | applications/pionix_chargebridge/src/serial_bridge.cpp:36-75 | a run starts with nothing requested, connected, paused or available |
| `SerialHistory.EveryEventFollows` | applications/pionix_chargebridge/src/serial_bridge.cpp:54-185 | in every run, for every event: client, connection, buffered payloads, reports, timer, pause and what the terminal is in fact, each by the events that count for it |
| `PlcCarrier.Bridge.constructor` | applications/pionix_chargebridge/src/plc_bridge.cpp:41-87 | device and belief after construction |
| `PlcCarrier.Bridge.ApplyCarrier` | applications/pionix_chargebridge/src/plc_bridge.cpp:343-385 | when a request is issued, and device and belief after each answer |
| `PlcCarrier.Bridge.HandleTapUp` | applications/pionix_chargebridge/src/plc_bridge.cpp:98-118 | the belief is seeded anew and the carrier applied |
| `PlcCarrier.Bridge.HandleCbStatus` | applications/pionix_chargebridge/src/plc_bridge.cpp:228-243 | a lost connection also unmates, and the carrier follows |
| `PlcCarrier.Bridge.HandleCeState` | applications/pionix_chargebridge/src/plc_bridge.cpp:245-252 | a change of the mated state is followed by the carrier |
| `PlcCarrier.Bridge.HandleLinkStatus` | applications/pionix_chargebridge/src/plc_bridge.cpp:254-313 | the technology is latched, the flags are recorded unless only cross-checked, and the carrier follows |
| `PlcCarrier.CarrierAgrees` | applications/pionix_chargebridge/src/plc_bridge.cpp:98-118 | in every state of every run on a kernel with the request: an open device that the bridge was told of, and on which the last request was done, has the carrier that is believed and wanted |
| `PlcHistory.RunRemembers` | applications/pionix_chargebridge/src/plc_bridge.cpp:228-313 | in every state of every run the inputs of the decision are those last reported, the technology the last known one and a vehicle mated as of the last CE state since the ChargeBridge was lost |
| `PlcHistory.NoStaleCarrier` | applications/pionix_chargebridge/include/charge_bridge/carrier_policy.hpp:112-161 | in every state of every run such a device has its carrier on exactly if the reports ask for it: a PLC board, or the ChargeBridge connected, its PHY operational, PLCA engaged and, if gated, a vehicle mated |
| `PlcHistory.ConstructedIff` | applications/pionix_chargebridge/src/plc_bridge.cpp:41-87 | when a bridge is refused, and its device and belief otherwise |
| `PlcHistory.UntouchedStaysOn` | applications/pionix_chargebridge/include/charge_bridge/carrier_policy.hpp:124-129 | without firmware mode the carrier is on in every state of every run |
| `PlcHistory.EveryEventFollows` | applications/pionix_chargebridge/src/plc_bridge.cpp:343-385 | in every run on any kernel, for every event: when a request is made, and device and belief after it |
| `PlcCarrier.PlcBoardStaysUp` | applications/pionix_chargebridge/src/plc_bridge.cpp:254-263 | the technology is latched, so that an empty report does not take the carrier of a PLC board down |
| `PlcCarrier.UpEdgeAgrees` | applications/pionix_chargebridge/src/plc_bridge.cpp:102-116 | after the up-edge belief and device agree exactly if the carrier was off, or is wanted on and the request done |
| `PlcCarrier.EventAgrees` | applications/pionix_chargebridge/src/plc_bridge.cpp:343-385 | on a kernel with the request, for each event, also loss and re-creation of the device, exactly when belief and device agree after it |
| `PlcCarrier.AgreementSince` | applications/pionix_chargebridge/src/plc_bridge.cpp:343-385 | in every run on such a kernel, while there is neither an up-edge nor another device: they agree exactly if they did at the beginning or a request was done since |
| `PlcCarrier.AgreementSinceOpening` | applications/pionix_chargebridge/src/plc_bridge.cpp:63-74 | before the first up-edge they agree exactly if the request at opening or one since was done |
| `PlcCarrier.AgreementSinceCreation` | applications/pionix_chargebridge/src/plc_bridge.cpp:98-118 | between the re-creation of the device and its up-edge they agree exactly if the new device came up as believed or a request was done since |
| `PlcCarrier.AgreementSinceUp` | applications/pionix_chargebridge/src/plc_bridge.cpp:98-118 | in every run on such a kernel, as long as the device stays: they agree exactly if the carrier was off at the last up-edge or a request was done since |
| `PlcCarrier.RecreationIsMadeUpFor` | applications/pionix_chargebridge/src/plc_bridge.cpp:111-116 | a re-created device disagrees with a believed carrier-on until the up-edge restores the agreement |
| `PlcCarrier.RefusedOpenIsNotNoticed` | applications/pionix_chargebridge/src/plc_bridge.cpp:63-74 | a run in which a refused request at opening leaves the carrier on, believed and wanted off |
| `McuLog.SplitIsUnique` | applications/pionix_chargebridge/src/io_bridge.cpp:420-433 | there is one way to cut a text into terminated lines and an open rest |
| `McuLog.SplitContinues` | applications/pionix_chargebridge/src/io_bridge.cpp:424-433 | a text may be split in two steps, wherever it is cut |
| `McuLog.NothingIsLost` | applications/pionix_chargebridge/src/io_bridge.cpp:424-439 | for any packets, what was printed and the open line are all that was received, in order, and the open line holds no newline |
| `McuLog.ReassemblyIsExact` | applications/pionix_chargebridge/src/io_bridge.cpp:424-439 | the printed lines are the newline split of the stream if and only if no packet leaves more than 2048 bytes open |
| `McuLog.LongLineIsCut` | applications/pionix_chargebridge/src/io_bridge.cpp:434-439 | seventeen full packets without a newline are not reassembled exactly |
| `McuLog.ShortLinesAreReassembled` | applications/pionix_chargebridge/src/io_bridge.cpp:424-439 | a stream of lines of at most 2048 bytes is reassembled exactly however it is cut |
| `McuLog.TextLength` | applications/pionix_chargebridge/src/io_bridge.cpp:405-419 | the length taken is the declared one, cut to the packet's capacity and to what arrived |
| `McuLog.PacketBrings` | applications/pionix_chargebridge/src/io_bridge.cpp:400-424 | what a packet brings, byte by byte, and that others bring nothing |
| `McuLog.Reassembler.PrintLines` | applications/pionix_chargebridge/src/io_bridge.cpp:425-433 | prints the terminated lines without newline and one carriage return, and keeps the rest |
| `McuLog.ShownWithoutEnd` | applications/pionix_chargebridge/src/io_bridge.cpp:426-432 | a line is shown without its newline and one carriage return, an unfinished one as it is |
| `McuLog.Reassembler.Append` | applications/pionix_chargebridge/src/io_bridge.cpp:424-439 | the log after one more chunk is that of all chunks so far |
| `McuLog.Reassembler.HandleUdpRx` | applications/pionix_chargebridge/src/io_bridge.cpp:400-442 | the log after one more packet is that of all packets so far |

## Left out

- ExactIntegers.TextToMagnitude: takes a bound of at least 9; below that the code's unsigned subtraction wraps, and no caller passes such a bound.
- Base64.Base64Decode: takes a non-empty text, since the code looks at the last two characters in any case; its caller passes no other.
- The schedule readers and writers are functions on values; filling arrays in place is captured for schedule tuples and power schedules, the presence flags of C structures are optional values.
- CAN FD frames: the CAN socket of the library delivers classic frames only.
- The other ISO 15118-2 messages, DIN 70121 and the application handshake repeat the same reading and writing on flat structures.
- The hex codec of json_utils.c is a simpler case of the base64 one.
- EXI bit coding, cJSON itself, sockets, timers, netlink, pty, tap and MQTT are foreign; they appear as data or as answers of the environment.
- Discovery by mDNS, which stops and restarts the manager's connect path, and the choice of a BSP for a board.
- Exceptions while unregistering from the event loop, which the event library does not raise, and a second one while disconnecting is repeated.
- The heartbeat service and the BSP bridge; the heartbeat appears as a writer of the connection state.
- The order in which the manager cycle and the actions interleave within one cycle: a cycle is one step, since it looks at a promise once and otherwise only posts.
- Reading the clock several times within one handler: a handler of the CAN bridge sees one time.
- The keep-alive datagrams and the reopening of a failed UDP connection in the CAN bridge.
- The opening of a pty or tap device that was lost is one step, and the reports that follow it another.
- Rounding of doubles; rates and tokens are reals.
- Log lines and their throttling, the status report, telemetry and the terminal user interface.
