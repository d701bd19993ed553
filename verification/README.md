# Renogy UART integration: device health and the poll cycle, in Dafny

This project models the core of a Home Assistant integration that polls a
Renogy solar charge controller over a serial Modbus link. It covers three parts:

- **Const** (`const.dfy`): the static configuration. That is the scan-interval
  bounds, the device types, the supported types, the retry interval, the unit
  id and the controller's read table.
- **Health** (`health.dfy`): the per-device availability state machine
  (`RenogyUARTDevice`). It has a failure counter, an availability flag and the
  time the device was last marked unavailable. It has three operations: the
  availability report, the combined availability check, and the reconnection
  throttle. The throttle is a property with a side effect in the source; here
  it is a pure function that returns its answer together with the next state.
  Time is an integer count of minutes that the caller passes in.
- **Frame** (`frame.dfy`): the response frame the coordinator rebuilds from
  the register words before decoding. It is the unit id, the function code,
  and a byte count of twice the *requested* word count, followed by every
  word high byte first. This is the Modbus RTU response of Read Holding
  Registers (section 6.3 of the MODBUS Application Protocol Specification
  V1.1b3) without the CRC.
- **Poll** (`poll.dfy`): one call of the coordinator's update routine
  (`_async_update_data`). It checks the parser, asks the throttle, calls `connect()`,
  looks up the table, and then reads, frames, decodes and merges each command
  in table order. It commits all or nothing: one availability report per
  guarded attempt, and the snapshot is replaced only on full success.
  `PollProperties` (`poll_properties.dfy`) relates several cycles to each
  other and to the merge and the table.

The serial transport and the field decoder are outside the model. A cycle
receives an `Environment`. It holds:

- whether the decoder library is present;
- the decoder, as an arbitrary deterministic function that may fail;
- whether connecting succeeds;
- the answer to each read, as words, an error response or a transport fault
  (a read past the supplied answers is a fault);
- the clock readings of the throttle and of the report.

## Model

| member | source | states |
|---|---|---|
| Const.LookupCommands | custom_components/renogy/const.py:44-51 | the lookup returns the registered table for every key of the command table and nothing otherwise; it finds a table exactly for the supported type, and that table is the controller table of four well-formed Read Holding Registers commands |
| Const.ControllerTableLayout | custom_components/renogy/const.py:44-51 | the controller table is device_info (3,12,8), device_id (3,26,1), battery (3,57348,1), pv (3,256,34), in this order |
| Const.CommandTableWellFormed | custom_components/renogy/const.py:46-49 | every entry uses function code 3, a 16-bit register address and 1..125 words, so its byte count fits one header byte |
| Const.OnlyControllerHasTable | custom_components/renogy/const.py:24-51 | only the controller has a table; battery and inverter are declared types without one |
| Const.DeviceTypeListsNest | custom_components/renogy/const.py:23-35 | table keys lie within the supported types, which lie within the declared types; the default is supported; type strings are distinct |
| Const.ScalarConstantsConsistent | custom_components/renogy/const.py:10-41 | min ≤ default ≤ max scan interval (10, 60, 600); the unit id fits one byte; the retry interval is positive |
| Frame.EncodeWords | custom_components/renogy/uart.py:141 | two bytes per word; even bytes are high bytes and odd bytes are low bytes |
| Frame.DecodeWords | custom_components/renogy/uart.py:141 | the inverse reading: each word is the join of its big-endian byte pair |
| Frame.DecodeEncode | custom_components/renogy/uart.py:141 | splitting the encoded words into pairs recovers the words |
| Frame.EncodeDecode | custom_components/renogy/uart.py:141 | every even-length byte string is the encoding of its decoded words |
| Frame.BuildFrame | custom_components/renogy/uart.py:138-142 | a frame is built exactly when the function code and twice the requested count are byte values; it is then 3 + 2·(received words) long, its header is unit id, function code and 2·requested count, and its tail decodes to the received words |
| Frame.ByteCountFollowsRequest | custom_components/renogy/uart.py:138-142 | a response shorter than requested still gets a header announcing the requested length |
| Health.Init | custom_components/renogy/uart.py:31-40 | a new device is available with no failures and satisfies the invariant |
| Health.IsAvailable | custom_components/renogy/uart.py:42-45 | a device not flagged available is never healthy, and neither is one at or over the failure limit even if still flagged available; in every state satisfying the invariant this is the flag alone (see also Health.IsAvailableIsFlag) |
| Health.IsAvailableIsFlag | custom_components/renogy/uart.py:42-45 | in a state satisfying the invariant, the combined check equals the flag |
| Health.UpdateAvailability | custom_components/renogy/uart.py:63-88 | a success zeroes the count and restores the flag, clearing the timestamp only if the device was unavailable; a failure adds one and flips the flag with a timestamp of now only on the report that reaches the limit; the invariant is preserved |
| Health.ShouldRetry | custom_components/renogy/uart.py:47-61 | proceed iff healthy, or a timestamp exists and a full interval has elapsed; a healthy device is unchanged; a granted probe or a missing timestamp restamps to now; only the timestamp ever changes; the invariant is preserved |
| Health.OneProbePerMinute | custom_components/renogy/uart.py:55-60 | two queries at the same minute cannot both let an unavailable device through |
| Health.ProbeWindowStartsAtGrant | custom_components/renogy/uart.py:47-61 | over non-decreasing query times, any two granted probes of an unavailable device are at least one retry interval apart |
| Health.GrantNeedsElapsedWindow | custom_components/renogy/uart.py:55-61 | from a window start, the first granted probe comes at least one interval later |
| Health.FailuresFromInit | custom_components/renogy/uart.py:79-88 | from construction, n failures give count n; the device is available iff n < 3; it is stamped with the third failure's time |
| Health.FailuresFrom | custom_components/renogy/uart.py:79-88 | the same for a run of failures from any state satisfying the invariant |
| Health.RunKeepsInv | custom_components/renogy/uart.py:36-88 | any mix of reports and throttle queries preserves the invariant |
| Health.ReachableStatesKeepInv | custom_components/renogy/uart.py:36-88 | every state reachable from construction satisfies the invariant, so the combined check equals the flag |
| Health.SuccessRestores | custom_components/renogy/uart.py:67-78 | a success from any reachable state gives back the constructed state |
| Poll.NewDevice | custom_components/renogy/uart.py:31-40 | a new device stores the given port and device type (the controller type by default), starts from the constructed health state with an empty snapshot, and is healthy |
| Poll.Step | custom_components/renogy/uart.py:131-145 | an error response fails with DeviceError and a transport fault with ReadFailed; a normal response whose header bytes are out of range fails with FrameRejected; otherwise the command succeeds exactly when the decoder accepts the frame, with the decoder's fields, and fails with DecodeFailed when it does not |
| Poll.Merge | custom_components/renogy/uart.py:129-145 | the in-order `dict.update` fold: every key of the start map survives, and the last merged map wins on all of its keys; Poll.MergeKeys, Poll.MergeLastWriteWins and Poll.MergeKeepsUntouched characterise it fully |
| Poll.MergeKeys | custom_components/renogy/uart.py:143-145 | a merged key comes from the start map or from one of the merged maps |
| Poll.MergeLastWriteWins | custom_components/renogy/uart.py:143-145 | a key takes its value from the last map that contains it |
| Poll.MergeKeepsUntouched | custom_components/renogy/uart.py:143-145 | a key that no merged map contains keeps its start value |
| Poll.RunCommands | custom_components/renogy/uart.py:129-145 | success iff every command succeeds; on success, every command was read in order and the result is the in-order merge; on failure, the loop stops at the first failing command and reports its error, after reading exactly up to it |
| Poll.Attempt | custom_components/renogy/uart.py:127-130 | connect comes first, then the table lookup, then the command loop |
| Poll.PollCycle | custom_components/renogy/uart.py:119-151 | no parser: nothing changes. Throttle refusal: only the timestamp changes, with no connect and no report. Otherwise: one report that matches the outcome. Success publishes the in-order merge of the whole table. Failure keeps the old snapshot and adds exactly one to the count. A failure inside the command loop reports the first failing command's error, after reading exactly the commands up to it. After a connect attempt the health record is exactly the availability report applied to the throttle's state, so nothing else in it changes. Unsupported types fail after connecting. The invariant is preserved |
| PollProperties.CyclePublishesLastWriter | custom_components/renogy/uart.py:129-147 | a published field has the value decoded by the last command that produced it |
| PollProperties.CyclePublishesOnlyDecodedFields | custom_components/renogy/uart.py:129-147 | the published fields are exactly the fields some command decoded |
| PollProperties.ControllerFramesBuild | custom_components/renogy/uart.py:138-142 | every controller command frames any response, with header 0xFF, 3, 2·count |
| PollProperties.ControllerNeverRejectsFrame | custom_components/renogy/uart.py:138-142 | a controller poll never fails on building a frame |
| PollProperties.UnsupportedTypeIsCountedFailure | custom_components/renogy/uart.py:127-130 | polling a healthy battery or inverter device calls `connect()`, reads nothing and is counted as one failure |
| PollProperties.CyclesKeepInv | custom_components/renogy/uart.py:119-151 | any run of cycles keeps the health invariant and the device identity |
| PollProperties.DeadLinkKeepsSnapshot | custom_components/renogy/uart.py:149-151 | while connecting always fails, the snapshot never changes over any number of cycles |
| PollProperties.ThreeFailuresThenThrottled | custom_components/renogy/uart.py:47-88 | three failed polls make a new device unavailable; every poll before one retry interval has passed is refused without calling `connect()`; a poll at any minute u ≥ t + 10 calls `connect()` |
| PollProperties.TimeoutKeepsSnapshot | custom_components/renogy/uart.py:128-151 | a timed-out first read keeps {battery_voltage: 12.6}, counts one failure and leaves the device available |

## Behaviour worth knowing

- **Unsupported device type.** The table lookup comes after `connect()`,
  inside the guarded block (uart.py:128-130). So a battery or inverter device
  attempts a connection on every poll and is counted as a failure, until it
  is marked unavailable after three polls. From then on the retry throttle
  lets one poll per retry interval reach `connect()`.
- **Refused retry.** A refused retry raises `UpdateFailed("Device marked
  unavailable")` before the guarded block (uart.py:124-125). The model
  returns `UpdateFailed(MarkedUnavailable)` and leaves the snapshot and the
  failure count alone.
- **Response length.** The frame's byte count is twice the *requested* word
  count (uart.py:138), whatever number of words the response actually
  carries. The model allows responses of any length.

## Left out

- The decoder (`RenogyParser.parse` from the external `renogy_ble` library) is not part of this model. Its per-field scaling is unknown here, so it is a parameter: an arbitrary deterministic function that may fail. No property of the decoded values is stated.
- The pymodbus serial client (connect, `read_holding_registers`, `close`) is replaced by the supplied outcomes. This includes the best-effort close `async_close` (uart.py:112-117), which is pure I/O. The baud rate, the 3-second timeout and the unit id passed to the read are transport parameters and are not modelled.
- The `hasattr(response, "isError")` guard is folded into `ErrorResponse`: a response either is an error or carries registers.
- Cancellation of the asynchronous cycle is not modelled. A cancelled `connect()` or read raises `CancelledError`, which `except Exception` (uart.py:149) does not catch, so such a cycle ends with no availability report; the model's one report per guarded attempt holds only for cycles that run to completion.
- Wall-clock time: `datetime.now()` becomes an integer minute count that the caller passes in. `should_retry_connection` reads the clock twice (uart.py:58-59); the model uses one reading for both.
- Home Assistant wiring is left out: the `DataUpdateCoordinator` scheduling, how `UpdateFailed` reaches listeners, log messages, the exception text, the `port`/`address`/`name` aliases beyond `port`, and the parser import guard except as a flag.
- sensor.py (entities, presentation and floating-point conversions), config_flow.py (the input form; its bounds and type list are covered through Const) and `__init__.py` (lifecycle wiring) are not part of this model.
