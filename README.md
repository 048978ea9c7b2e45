# A Dafny model of the Rust protocol gateway and its exercise crates

The repository is a small Rust protocol gateway plus a series of daily Rust exercises. This
project models, in Dafny, the parts of both that have deterministic logic:

- **Device-state reducer.** `GatewayState::apply_event` of `gateway/src/state/mod.rs`
  (`Update`, `Remove`, `Tick`) and its earlier copy in `gateway/src/device.rs`. Each is a
  class whose `devices` sequence the method reassigns. `DeviceList` defines the three list
  operations these reducers share: upsert by id, remove all by id, add to all.
- **Listener fan-out.** `Dispatcher::dispatch` calls every listener once, in registration
  order, and swallows errors. `ConsoleLogger::on_event` rejects the reserved device id 0.
  The test listeners `OkListener`, which counts its calls, and `FailingListener` are also
  modelled.
- **Modbus polling.** This covers the register decode, which combines the high word first
  and reinterprets the result as an `i32` in two's complement. It also covers a poll cycle
  over the configured register mappings, and the reconnect/stop loop of both pollers
  (`ModbusPoller` and the adapter). The loop is a state machine driven by a trace of
  outcomes.
- **The exercise crates** of days 01–09, 11, 13, 17, 19 and 22–29:
  - small parsers: trim, parse, validate, report the error kind;
  - command-line parsers;
  - the traffic light, the word counter and the `Reader` state machine;
  - slice and vector mutation;
  - the guard-ordered `match` classifiers.

Shared modules:
- `RustInt` gives Rust's fixed-width integers as subset types. It also gives truncating
  division (`/` on `i32` rounds toward zero, unlike Dafny's Euclidean `/`).
- `RustText` covers what the code takes from the standard library:
  - `trim` and `split_whitespace`;
  - ASCII case mapping;
  - UTF-8 byte length (`len()`);
  - decimal printing;
  - `str::parse` for `u32`, `usize` and `i32`, with the error kinds `Empty`,
    `InvalidDigit`, `PosOverflow` and `NegOverflow`.

A Rust overflow panic (debug build) is a precondition. Any other error path the code handles
is modelled as a `Result` or `Option` value.

## Model

| member | source | states |
|---|---|---|
| DeviceList.IndexOf | gateway/src/state/mod.rs:25 | `iter_mut().find` stops at the first device with the id; `None` exactly when no device carries it |
| DeviceList.FindIndex | gateway/src/state/mod.rs:25 | the search loop returns the position `IndexOf` specifies |
| DeviceList.IndexOfFirst | gateway/src/state/mod.rs:25 | a device with the id and none before it is exactly where `find` stops |
| DeviceList.Retain | gateway/src/state/mod.rs:31 | the `retain` loop keeps exactly what `RemoveAll` keeps |
| DeviceList.RemoveAllAppend | gateway/src/state/mod.rs:31 | removal distributes over concatenation, so the survivors keep their order |
| DeviceList.RemoveAllMembers | gateway/src/state/mod.rs:31 | a device survives `Remove(id)` iff it was present and carries another id; no device with the id is left |
| DeviceList.RemoveAllAbsent | gateway/src/state/mod.rs:31 | removing an id nobody carries leaves the list unchanged |
| DeviceList.RemoveAllKeepsUnique | gateway/src/state/mod.rs:31 | removal never creates a duplicate id |
| DeviceList.UpsertPresent | gateway/src/state/mod.rs:24-26 | `Update` on a present id keeps the length and overwrites only the first matching device's value |
| DeviceList.UpsertAbsent | gateway/src/state/mod.rs:27-29 | `Update` on an absent id appends `Device{id, value}` at the end, keeping the rest in order |
| DeviceList.UpsertThenFind | gateway/src/state/mod.rs:24-29 | after `Update` the id is present and `find` returns the new value |
| DeviceList.UpsertIdempotent | gateway/src/state/mod.rs:24-29 | the same `Update` twice equals it once |
| DeviceList.UpsertKeepsUnique | gateway/src/state/mod.rs:24-29 | `Update` never creates a duplicate id |
| DeviceList.AddToAllShape | gateway/src/state/mod.rs:32-34 | `Tick(v)` keeps length, ids and order, adds `v` to every value, and keeps ids unique |
| StateStore.GatewayState.constructor | gateway/src/state/mod.rs:18-20 | a new state has no devices |
| StateStore.GatewayState.ApplyEvent | gateway/src/state/mod.rs:22-36 | the in-place update leaves the device list `Apply(old, ev)` (`Tick` must not overflow any `i32` value) |
| StateStore.ApplyKeepsUniqueIds | gateway/src/state/mod.rs:22-36 | unique ids before any event stay unique after it |
| StateStore.RemoveEvent | gateway/src/state/mod.rs:31 | after `Remove(id)` no device has the id, every other device remains, and an absent id changes nothing |
| StateStore.UpdateTwice | gateway/src/state/mod.rs:24-29 | applying the same `Update` twice gives the state of applying it once |
| LegacyDevice.GatewayState.constructor | gateway/src/device.rs:19-23 | a new state has no devices |
| LegacyDevice.GatewayState.ApplyEvent | gateway/src/device.rs:25-36 | the in-place update leaves the device list `Apply(old, ev)` |
| LegacyDevice.ApplyKeepsUniqueIds | gateway/src/device.rs:25-36 | every event preserves unique ids |
| LegacyDevice.UpdateEvent | gateway/src/device.rs:27-33 | `Update` on a known id sets only that device's value (same length); on an unknown id it appends one device |
| LegacyDevice.MainScenario | gateway/src/main.rs:5-13 | from empty, `Update{1,100}`, `Update{2,200}`, `Remove(1)` leave exactly `[Device{2,200}]` |
| ConsoleLogging.OnEvent | gateway/src/logging/mod.rs:15-32 | `Err(General("Device ID 0 is reserved/invalid"))` exactly for `DeviceCreated{id: 0}`, `Ok` for every other change |
| Dispatch.CallCounter.constructor | gateway/src/core/dispatcher.rs:55 | the shared counter starts at zero |
| Dispatch.Response | gateway/src/core/dispatcher.rs:32-51 | a listener fails exactly when it is the failing listener or a console logger given `DeviceCreated{0}` |
| Dispatch.OnEvent | gateway/src/core/dispatcher.rs:32-51 | `on_event` returns `Response`; the counting listener bumps its counter by one, and nothing else changes |
| Dispatch.DeliveriesInOrder | gateway/src/core/dispatcher.rs:13-21 | one dispatch makes exactly one call per listener, in registration order, each with the same change |
| Dispatch.Dispatcher.constructor | gateway/src/core/dispatcher.rs:9-11 | the listener list is fixed at construction |
| Dispatch.Dispatcher.Dispatch | gateway/src/core/dispatcher.rs:13-21 | every listener is called in order even after a failure, no error escapes, and each counter rises by the number of its registrations |
| Dispatch.ContinuesAfterListenerFailure | gateway/src/core/dispatcher.rs:53-69 | with `[FailingListener, OkListener]`, dispatching `DeviceCreated{1}` leaves the counter at 1 |
| ModbusPoll.CombineWords | gateway/src/modbus/mod.rs:70-76 | `(high << 16) \| low`: the high word is the quotient by 2^16, the low word the remainder |
| ModbusPoll.AsI32 | gateway/src/modbus/mod.rs:74-75 | `as i32` reinterprets the 32 bits: unchanged below 2^31, less 2^32 above; negative iff the top bit is set |
| ModbusPoll.Decode | gateway/src/modbus/mod.rs:65-81 | a value is produced exactly for counts 1 and 2 |
| ModbusPoll.DecodeOneRegister | gateway/src/modbus/mod.rs:66-69 | one register decodes to itself, zero-extended, in `0..=65535` |
| ModbusPoll.DecodeTwoRegisters | gateway/src/adapters/modbus/mod.rs:33-37 | two registers decode to `high*65536 + low`, less 2^32 exactly when `high >= 0x8000`, which is exactly when the value is negative |
| ModbusPoll.DecodeExample | gateway/src/modbus/mod.rs:70-76 | `0x0001,0x0002` decodes to `0x0001_0002`, and `0xFFFF,0xFFFF` to -1 |
| ModbusPoll.DecodeSplit | gateway/src/modbus/mod.rs:70-76 | every `i32` is decoded back from its register pair |
| ModbusPoll.SplitDecode | gateway/src/modbus/mod.rs:70-76 | every register pair is the split of what it decodes to, so two-register decoding is a bijection |
| ModbusPoll.PollOnce | gateway/src/modbus/mod.rs:59-99 | the loop over the mappings sends the events and returns the outcome that `Poll` specifies, where the event channel takes a given number of sends before its receiver is gone, so it can close part-way through a cycle |
| ModbusPoll.PollAppend | gateway/src/modbus/mod.rs:59-99 | a cycle over `a + b` is the cycle over `a`, then, if that one succeeded, the one over `b` with the sends the channel still takes |
| ModbusPoll.ReadErrorAborts | gateway/src/modbus/mod.rs:61-63 | a failed read ends the cycle with `Err`: nothing after it is read or sent |
| ModbusPoll.UnsupportedSkipped | gateway/src/adapters/modbus/mod.rs:38-41 | a mapping with a count other than 1 or 2 is skipped and the cycle goes on as without it |
| ModbusPoll.AllSupported | gateway/src/adapters/modbus/mod.rs:25-60 | with all reads good, supported counts and a receiver that takes every send, the cycle succeeds and sends one event per mapping, in order, with its device id and decoded value |
| ModbusPoll.PollOk | gateway/src/modbus/mod.rs:59-99 | a cycle returns `Ok` iff no read fails and the receiver takes a send for every decoded mapping; when every read succeeds it sends exactly as many events as the receiver takes, up to one per decoded mapping, so a receiver dropped part-way leaves the earlier events sent and the cycle `Err` |
| ModbusPoll.EventsForConfiguredDevices | gateway/src/modbus/mod.rs:85-90 | at most one event per mapping, and every event is for a configured device |
| ModbusLifecycle.Initial | gateway/src/modbus/mod.rs:105-108 | only the disabled `ModbusPoller` stops before connecting |
| ModbusLifecycle.Step | gateway/src/modbus/mod.rs:104-144 | for each phase, the only ways in: connect only after a clear shutdown check, graceful stop only from the wait between polls, the 5 s backoff after a failed connect (or, in the older poller, a failed poll) |
| ModbusLifecycle.Run | gateway/src/adapters/modbus/mod.rs:92-124 | the reconnect loop visits exactly the phases `Visits` chains together from `Initial` |
| ModbusLifecycle.VisitsAreSteps | gateway/src/modbus/mod.rs:104-144 | a run is a chain of `Step`s, only its last phase can be a stop, and it ends at a stop unless the trace runs out |
| ModbusLifecycle.DisabledNeverConnects | gateway/src/modbus/mod.rs:105-108 | a disabled poller's run is the stop alone, whatever the trace |
| ModbusLifecycle.ConnectOnlyAfterClearCheck | gateway/src/modbus/mod.rs:117-120 | every connection attempt follows a `try_recv` that found no shutdown |
| ModbusLifecycle.GracefulStopOnlyWhileIdle | gateway/src/adapters/modbus/mod.rs:79-85 | `run_polling_loop` returns `Ok` only through the shutdown branch of the wait between polls |
| ModbusLifecycle.LegacyPollFailureReconnects | gateway/src/modbus/mod.rs:36-43 | in the older poller a failed poll leads straight to the reconnect backoff |
| ModbusLifecycle.AdapterKeepsConnection | gateway/src/adapters/modbus/mod.rs:70-77 | once connected, the adapter never reconnects: failed polls retry on the same connection until a graceful stop |
| BorrowingLifecycle.GatewayState.constructor | days/day29/borrowing_complex_datatypes_lifecycle/src/main.rs:2-5 | the state holds the given devices |
| BorrowingLifecycle.FindDevice | days/day29/borrowing_complex_datatypes_lifecycle/src/main.rs:37-39 | the first device with the id, or `None` iff no device has it |
| BorrowingLifecycle.FindDeviceMut | days/day29/borrowing_complex_datatypes_lifecycle/src/main.rs:41-43 | the position of the first device with the id, `None` iff absent |
| BorrowingLifecycle.UpdateDevice | days/day29/borrowing_complex_datatypes_lifecycle/src/main.rs:45-53 | returns true iff the id exists; then only that device's value changes, otherwise nothing does |
| BorrowingLifecycle.ApplyEvent | days/day29/borrowing_complex_datatypes_lifecycle/src/main.rs:55-66 | `Update` upserts (an unknown id is appended); `Remove` keeps the others in order |
| BorrowingLifecycle.MainScenario | days/day29/borrowing_complex_datatypes_lifecycle/src/main.rs:1-19 | the demo on `[{1,1},{2,2}]` ends at `[{2,200}]` |
| ReadFile.ParsePositiveNumber | days/day01/read_file/src/main.rs:25-37 | trimmed first; a leading `-` is refused before parsing; otherwise the `u32` parse, with invalid digit, overflow and other kinds mapped to their messages |
| ReadFile.AcceptsDisplayedNumbers | days/day01/read_file/src/main.rs:25-37 | every `u32`, printed and padded with white space, is read back |
| ReadFile.UnknownOnlyForBlank | days/day01/read_file/src/main.rs:35 | "Unknown numeric error" appears iff the trimmed input is empty |
| ReadFile.NotANumberExample | days/day01/read_file/src/main.rs:11-14 | "abc" is not a number |
| ReadFile.NegativeExample | days/day01/read_file/src/main.rs:28-30 | " -5" is refused as negative |
| ReadFile.RejectsTooLarge | days/day01/read_file/src/main.rs:34 | every number above `u32::MAX` is too large |
| ReadFile.BlankExample | days/day01/read_file/src/main.rs:35 | blank input gets the unknown-error message |
| ProcessNumberFile.FirstCharAsDigit | days/day02/process_number_file/src/main.rs:25-31 | "Empty string" iff the input is empty, "Not a digit" iff the first character is not a digit, otherwise that digit's value |
| ProcessNumberFile.IgnoresRest | days/day02/process_number_file/src/main.rs:25-31 | characters after the first do not matter |
| ProcessNumberFile.ReadsLeadingDigit | days/day02/process_number_file/src/main.rs:25-31 | every digit is read back from a text that starts with it |
| ProcessNumberFile.Examples | days/day02/process_number_file/src/main.rs:10-15 | "", "a45" and "5xyz" give the empty error, the digit error and 5 |
| ToUserMessage.ParseAndValidate | days/day03/to_user_message/src/main.rs:49-67 | parse error iff the parse fails; validation error iff it parses and the validator refuses; otherwise the parsed value |
| ToUserMessage.ValidatorNotConsultedOnParseError | days/day03/to_user_message/src/main.rs:55-56 | when parsing fails, the validator does not influence the result |
| ToUserMessage.MainExamples | days/day03/to_user_message/src/main.rs:12-24 | the three calls of `main` give `Ok(12)`, a parse error and a validation error |
| ToUserMessage.ReadValue | days/day03/to_user_message/src/main.rs:87-104 | a constant source gives its number; an env source gives the `u32` parse of the variable, or "Env error" when it is missing or unparseable |
| ToUserMessage.EnvSourceReadsDisplayedNumber | days/day03/to_user_message/src/main.rs:97-104 | a variable holding a printed `u32` is read back as that number |
| ToUserMessage.MainSources | days/day03/to_user_message/src/main.rs:12-24 | the three sources of `main` give 42, 99 and "Env error" |
| PrintDescription.Describe | days/day04/print_description/src/main.rs:27-41 | "User: {name}" or "System ID: {id}" |
| PrintDescription.DescriptionsDistinct | days/day04/print_description/src/main.rs:27-41 | the prefix tells users from systems, whatever the name |
| PrintDescription.DoubleI32 | days/day04/print_description/src/main.rs:51-55 | `self + self` is twice the value when it does not overflow |
| PrintDescription.DoubleU32 | days/day04/print_description/src/main.rs:57-61 | `self * 2` equals `self + self` when it fits |
| PrintDescription.ParseAndDouble | days/day04/print_description/src/main.rs:69-79 | `Ok` iff the trimmed text parses, then twice the value; any failure gives "Env error" |
| PrintDescription.MainExample | days/day04/print_description/src/main.rs:16 | "5" doubles to 10 |
| PrintDescription.DoublesDisplayedNumber | days/day04/print_description/src/main.rs:69-79 | every padded printed `i32` whose double fits is doubled |
| Lifetimes.Longer | days/day05/lifetimes/src/main.rs:11-13 | one of the two arguments: `a` iff its byte length is strictly greater, so ties give `b` |
| Lifetimes.LongerExamples | days/day05/lifetimes/src/main.rs:1-9 | "länger" (seven bytes) wins against "kurz" in either order |
| Lifetimes.LongerSymmetric | days/day05/lifetimes/src/main.rs:11-13 | for different byte lengths the argument order does not matter |
| Lifetimes.FirstChar | days/day05/lifetimes/src/main.rs:19-21 | the one-byte prefix of the name; the slice needs a non-empty name starting with an ASCII character |
| Lifetimes.FirstCharExample | days/day05/lifetimes/src/main.rs:6 | "Peter" gives "P" |
| Lifetimes.GoodRef | days/day05/lifetimes/src/main.rs:31-33 | the owned text "hi", two bytes long |
| OwnershipBorrowingEnums.SumLengths | days/day06/ownership_borrowing_enums/src/main.rs:23-25 | the sum of the byte lengths is the byte length of the two joined |
| OwnershipBorrowingEnums.DescribeStatus | days/day06/ownership_borrowing_enums/src/main.rs:37 | "Status: " followed by the status text unchanged |
| OwnershipBorrowingEnums.Consume | days/day06/ownership_borrowing_enums/src/main.rs:46-51 | the magnitude of a number (never `i32::MIN`), or the byte length of a text |
| OwnershipBorrowingEnums.StoreRefs | days/day06/ownership_borrowing_enums/src/main.rs:53-55 | the two texts unchanged and in order |
| OwnershipBorrowingEnums.MainExamples | days/day06/ownership_borrowing_enums/src/main.rs:1-21 | the assertions of `main` |
| LibraryBook.Book.constructor | days/day07/library_book/src/main.rs:1-34 | a book with the given title and pages |
| LibraryBook.TakeOwnership | days/day07/library_book/src/main.rs:46-48 | taking the book returns the same page count as borrowing it |
| LibraryBook.BorrowBook | days/day07/library_book/src/main.rs:50-52 | the page count |
| LibraryBook.MakeLibrary | days/day07/library_book/src/main.rs:54-59 | the two books, by reference, in argument order |
| LibraryBook.AddPagesExistingBook | days/day07/library_book/src/main.rs:66-68 | pages grow by `extra` in place, the title does not change |
| LibraryBook.AddPages | days/day07/library_book/src/main.rs:61-64 | the same book comes back with `extra` more pages and its title |
| LibraryBook.MainScenario | days/day07/library_book/src/main.rs:1-34 | the page counts and titles `main` asserts |
| LifetimesAndBorrowingAdvanced.MsgLen | days/day08/lifetimes_and_borrowing_advanced/src/main.rs:29-34 | the byte length of the text, borrowed or owned, never below its character count |
| LifetimesAndBorrowingAdvanced.Emphasize | days/day08/lifetimes_and_borrowing_advanced/src/main.rs:42-47 | the same text at level 1 |
| LifetimesAndBorrowingAdvanced.MaybeUppercase | days/day08/lifetimes_and_borrowing_advanced/src/main.rs:50-56 | borrowed and unchanged iff every character is upper case (so "" too), otherwise the owned upper-cased text |
| LifetimesAndBorrowingAdvanced.CowAsStr | days/day08/lifetimes_and_borrowing_advanced/src/main.rs:63-82 | the text of either `Cow` variant |
| LifetimesAndBorrowingAdvanced.MaybeUppercaseIsUpper | days/day08/lifetimes_and_borrowing_advanced/src/main.rs:50-56 | whichever variant is chosen, its text is the upper-cased input |
| LifetimesAndBorrowingAdvanced.ToUpperIdempotent | days/day08/lifetimes_and_borrowing_advanced/src/main.rs:50-56 | upper-casing twice is upper-casing once, and an all-upper text is unchanged |
| LifetimesAndBorrowingAdvanced.MainExamples | days/day08/lifetimes_and_borrowing_advanced/src/main.rs:3-21 | the assertions of `main` |
| Testing.Double | days/day09/testing/src/lib.rs:1-3 | `v * 2` equals `add(v, v)` |
| Testing.Add | days/day09/testing/src/lib.rs:12-14 | the sum, whose difference with either operand is the other |
| Testing.ParseNumber | days/day09/testing/src/lib.rs:5-10 | `Ok` iff the trimmed text parses as an `i32`, with that value; otherwise "Parse error" |
| Testing.ParsesDisplayedNumber | days/day09/testing/src/lib.rs:5-10 | every padded printed `i32` parses back |
| Testing.DoubleTests | days/day09/testing/src/lib.rs:19-32 | the unit tests of `double` |
| Testing.ParseNumberTests | days/day09/testing/src/lib.rs:34-42 | "42" and " 5 " parse |
| Testing.ParseNumberRejectsLetters | days/day09/testing/src/lib.rs:44-47 | "abc" is a parse error |
| CliAdvanced.ModeFromStr | days/day11/cli_advanced/src/lib.rs:44-52 | a mode iff the lower-cased text is one of the four names (and it is that name), otherwise `InvalidMode` |
| CliAdvanced.ModeRoundTrip | days/day11/cli_advanced/src/lib.rs:44-52 | every mode is parsed back from its name in lower or upper case |
| CliAdvanced.FromVec | days/day11/cli_advanced/src/lib.rs:62-71 | `MissingArgument` unless there are exactly three arguments; then the file name and parsed mode, or `InvalidMode` |
| CliAdvanced.FromVecRoundTrip | days/day11/cli_advanced/src/lib.rs:62-71 | any file name and mode, written as a command line, come back |
| CliAdvanced.FromArgsCustom | days/day11/cli_advanced/src/lib.rs:77-79 | `from_args_custom` gives exactly what `from_vec` gives; `MissingArgument` iff the argument count is not three |
| CliAdvanced.IntegrationTests | days/day11/cli_advanced/tests/cli_advanced_test.rs:22-65 | the expectations of the integration tests on `from_args_custom` |
| CliCommands.ParseArgs | days/day13/cli_commands/src/lib.rs:63-100 | the guards in order: `Help` iff exactly `--help`, `MissingArgument` for any other count than 3 or `--help` with extra arguments, then the case-insensitive command word carrying `args[2]` or `InvalidCommand` |
| CliCommands.ParseArgsRoundTrip | days/day13/cli_commands/src/lib.rs:63-100 | every command is parsed back from its command line |
| CliCommands.ParseArgsIgnoresCase | days/day13/cli_commands/src/lib.rs:80-96 | an upper-cased command word is accepted |
| CliCommands.FromVec | days/day13/cli_commands/src/lib.rs:49-60 | `Ok(Config{command})` iff `parse_args` succeeds with that command, otherwise its error |
| CliCommands.FromArgsCustom | days/day13/cli_commands/src/lib.rs:57-59 | `from_args_custom` gives exactly what `from_vec` gives, so it succeeds iff `parse_args` does |
| CliCommands.Execute | days/day13/cli_commands/src/lib.rs:102-143 | `Echo` gives "Echo: " and the text, `Help` gives the text of `FormatHelp` (`format_help`, lines 134-142), which writes out the literal: "Commands", then one line per command with eight spaces of indentation, a tab before the description and `\n\t` after it |
| CliCommands.EchoReturnsText | days/day13/cli_commands/src/lib.rs:118 | the echoed text follows the prefix unchanged |
| CliCommands.ParsingTests | days/day13/cli_commands/tests/cli_commands_test.rs:31-119 | the expectations of the parsing tests |
| OwnershipBorrowingDepth.SeqSumAppend | days/day17/ownership_borrowing_depth/src/main.rs:31-37 | sums split over concatenation |
| OwnershipBorrowingDepth.SeqSumBound | days/day17/ownership_borrowing_depth/src/main.rs:31-37 | a sum of entries bounded by `b` is bounded by length times `b` |
| OwnershipBorrowingDepth.SmallEntriesFit | days/day17/ownership_borrowing_depth/src/main.rs:31-37 | up to 1000 entries of magnitude at most 1000 never overflow while summed |
| OwnershipBorrowingDepth.SumOwned | days/day17/ownership_borrowing_depth/src/main.rs:31-33 | the sum of the elements, when no running total overflows |
| OwnershipBorrowingDepth.SumBorrowed | days/day17/ownership_borrowing_depth/src/main.rs:35-37 | the same as `sum_owned` |
| OwnershipBorrowingDepth.IncrementAll | days/day17/ownership_borrowing_depth/src/main.rs:39-43 | every element grows by one, in place |
| OwnershipBorrowingDepth.FirstWord | days/day17/ownership_borrowing_depth/src/main.rs:45-55 | the longest prefix without a space: the text itself or what stops at the first space |
| OwnershipBorrowingDepth.Process | days/day17/ownership_borrowing_depth/src/main.rs:57-66 | the first `len/2` elements grow by one, the rest double, in place |
| OwnershipBorrowingDepth.MainScenario | days/day17/ownership_borrowing_depth/src/main.rs:1-29 | sums 6 and 9, first word "hello", and `[2,3,4,8,10,12]` |
| OwnershipBorrowingDepth.Insert | days/day17/ownership_borrowing_depth/src/main.rs:94-98 | insertion keeps a sequence sorted and adds exactly the element |
| OwnershipBorrowingDepth.SortSeq | days/day17/ownership_borrowing_depth/src/main.rs:94-98 | a sorted permutation |
| OwnershipBorrowingDepth.Scaled | days/day17/ownership_borrowing_depth/src/main.rs:90-92 | the same length, every element times the factor |
| OwnershipBorrowingDepth.ScaledSum | days/day17/ownership_borrowing_depth/src/main.rs:90-92 | scaling the values scales their sum |
| OwnershipBorrowingDepth.Stats.constructor | days/day17/ownership_borrowing_depth/src/main.rs:74-76 | no values |
| OwnershipBorrowingDepth.Stats.Add | days/day17/ownership_borrowing_depth/src/main.rs:78-80 | the value is appended at the end |
| OwnershipBorrowingDepth.Stats.Sum | days/day17/ownership_borrowing_depth/src/main.rs:82-84 | the sum of the values |
| OwnershipBorrowingDepth.Stats.Scale | days/day17/ownership_borrowing_depth/src/main.rs:90-92 | every value multiplied in place, the length kept |
| OwnershipBorrowingDepth.Stats.IntoSorted | days/day17/ownership_borrowing_depth/src/main.rs:94-98 | a sorted permutation of the values |
| EnumsResultErrors.SafeDivision | days/day19/enums_result_errors/src/main.rs:56-62 | `DivisionByZero` iff the divisor is zero; otherwise the quotient rounded toward zero (the remainder has the dividend's sign and is smaller than the divisor) |
| EnumsResultErrors.SafeDivisionExamples | days/day19/enums_result_errors/src/main.rs:9-17 | 10/0 is an error and 10/2 is 5 |
| EnumsResultErrors.SafeDivisionTruncates | days/day19/enums_result_errors/src/main.rs:61 | -7/2 is -3 |
| EnumsResultErrors.ReadNumber | days/day19/enums_result_errors/src/main.rs:27-36 | an I/O failure passes through; `NoStringAfterSplit` iff the content is blank; otherwise the `i32` parse of the first word |
| EnumsResultErrors.ReadsDisplayedNumber | days/day19/enums_result_errors/src/main.rs:27-36 | a printed `i32` as the first word is read back |
| EnumsResultErrors.LoadAndDouble | days/day19/enums_result_errors/src/main.rs:70-77 | read errors are wrapped with the same cause, `Negative` iff the number is below zero, otherwise twice it |
| EnumsResultErrors.LoadsDisplayedNumber | days/day19/enums_result_errors/src/main.rs:70-77 | a printed non-negative number whose double fits is read and doubled |
| EnumsPayload.Process | days/day22/enums_payload/src/main.rs:13-24 | one text per event; 'q' and 'c' have their own texts |
| EnumsPayload.QuitKeyIsNotQuit | days/day22/enums_payload/src/main.rs:13-24 | the 'q' key and `Quit` are described differently |
| EnumsPayload.OnlyClick | days/day22/enums_payload/src/main.rs:26-32 | coordinates iff a click |
| EnumsPayload.FilterClicks | days/day22/enums_payload/src/main.rs:34-44 | the loop keeps the coordinates of exactly the clicks, in order |
| EnumsPayload.ClicksAppend | days/day22/enums_payload/src/main.rs:34-44 | filtering a concatenation filters each part |
| EnumsPayload.ClicksLength | days/day22/enums_payload/src/main.rs:37-41 | one pair per click, never more than the events |
| EnumsPayload.ClicksFromOnlyClick | days/day22/enums_payload/src/main.rs:34-44 | every kept pair is what `only_click` gives for an event at or after that position |
| EnumsPayload.ClicksExtremes | days/day22/enums_payload/src/main.rs:34-44 | no clicks keep nothing, all clicks keep all |
| EnumsPayload.Dispatch | days/day22/enums_payload/src/main.rs:46-53 | "Pressed key: {k}" for a key, "not a key" otherwise |
| StateMachines.Next | days/day23/state_machines/src/main.rs:47-53 | red to green to yellow to red, never staying |
| StateMachines.StepsPeriod | days/day23/state_machines/src/main.rs:47-53 | three steps bring the light back |
| StateMachines.CountWords | days/day23/state_machines/src/main.rs:63-85 | the state-machine loop counts exactly the word starts |
| StateMachines.WordStartsBound | days/day23/state_machines/src/main.rs:63-85 | never more words than characters |
| StateMachines.NoWordsIffBlank | days/day23/state_machines/src/main.rs:63-85 | no words iff the text is blank, iff `split_whitespace` finds nothing |
| StateMachines.WordStartsJoin | days/day23/state_machines/src/main.rs:63-85 | words on the two sides of white space add up |
| StateMachines.OneWord | days/day23/state_machines/src/main.rs:63-85 | one word after white space counts once |
| StateMachines.MainWordCount | days/day23/state_machines/src/main.rs:9-11 | "  this is a word" has four words |
| StateMachines.ReadCharAsWritten | days/day23/state_machines/src/main.rs:114-127 | the code as written panics exactly when the position is within the byte length but past the character count |
| StateMachines.ReadCharPanicsOnMultibyte | days/day23/state_machines/src/main.rs:114-127 | on "é" the second read panics |
| StateMachines.ReadStep | days/day23/state_machines/src/main.rs:114-127 | with the guard on characters: a character iff open before the end, then one position on; otherwise no change |
| StateMachines.AsWrittenAgreesOnAscii | days/day23/state_machines/src/main.rs:114-127 | on ASCII text the code as written never panics and agrees with `ReadStep` |
| StateMachines.Reader.constructor | days/day23/state_machines/src/main.rs:1-37 | a new reader is closed |
| StateMachines.Reader.Open | days/day23/state_machines/src/main.rs:100-108 | closed to `Open(0)`, open to `Error("already open")`, an error unchanged |
| StateMachines.Reader.Close | days/day23/state_machines/src/main.rs:110-112 | any state to closed |
| StateMachines.Reader.ReadChar | days/day23/state_machines/src/main.rs:114-127 | a character iff open before the end, then one position on; otherwise `None` and no change |
| StateMachines.Reader.ReadEach | days/day23/state_machines/src/main.rs:1-37 | one read per character: a reader that is not open yields only `None`, an open one the characters from its position |
| StateMachines.MainScenario | days/day23/state_machines/src/main.rs:1-37 | the light sequence, four words, and five `None`s because the reader was opened twice |
| PatternMatchingDeepDive.Handle | days/day24/rust_pattern_matching_deep_dive/src/main.rs:13-26 | "Bye" iff `Quit`, "No movement" iff `Move{0,0}`, "Empty" iff an empty text, "Dark color" iff every channel is at most 20; the formats otherwise |
| PatternMatchingDeepDive.Area | days/day24/rust_pattern_matching_deep_dive/src/main.rs:33-35 | zero iff a side is zero, never below a side when the other is positive |
| PatternMatchingDeepDive.AreaTurned | days/day24/rust_pattern_matching_deep_dive/src/main.rs:33-35 | turning the rectangle keeps the area |
| PatternMatchingDeepDive.ExtractClick | days/day24/rust_pattern_matching_deep_dive/src/main.rs:47-53 | coordinates iff a mouse click |
| AdvancedPatternMatching.Classify | days/day25/advanced_pattern_matching/src/main.rs:9-19 | each label iff its range; every `i32` gets exactly one |
| AdvancedPatternMatching.MainExamples | days/day25/advanced_pattern_matching/src/main.rs:1-7 | the five calls of `main` |
| AdvancedPatternMatching.Describe | days/day25/advanced_pattern_matching/src/main.rs:48-67 | admins of level 0 to 4 are low, others high; user login and logout texts |
| AdvancedPatternMatching.DescribeKindsDiffer | days/day25/advanced_pattern_matching/src/main.rs:48-67 | different kinds of event never read alike |
| AdvancedPatternMatching.Area | days/day25/advanced_pattern_matching/src/main.rs:82-94 | a circle is zero iff its radius is; a rectangle is zero iff its corners share a coordinate |
| AdvancedPatternMatching.CircleAreaIgnoresCenter | days/day25/advanced_pattern_matching/src/main.rs:84 | the centre plays no part |
| AdvancedPatternMatching.RectAreaCornerOrder | days/day25/advanced_pattern_matching/src/main.rs:85-92 | swapping the corners, or using the other diagonal, keeps the area |
| NestedBorrowing.Describe | days/day26/nested_borrowing_and_references_from_structs/src/main.rs:12-24 | inactive whatever the value; active: error below zero, the value otherwise |
| NestedBorrowing.InactiveIgnoresValue | days/day26/nested_borrowing_and_references_from_structs/src/main.rs:15-17 | an inactive sensor's value is not looked at |
| NestedBorrowing.DescriptionsDiffer | days/day26/nested_borrowing_and_references_from_structs/src/main.rs:12-24 | the three descriptions of a sensor differ |
| NestedBorrowing.IsEnabled | days/day26/nested_borrowing_and_references_from_structs/src/main.rs:33-41 | the `enabled` field and no other |
| NestedBorrowing.TakeName | days/day26/nested_borrowing_and_references_from_structs/src/main.rs:43-45 | the `name` field |
| NestedBorrowing.Handle | days/day26/nested_borrowing_and_references_from_structs/src/main.rs:61-79 | invalid below zero, overflow above 1000, otherwise the reading; lost connection and shutdown texts |
| ComplexDataStructures.Classify | days/day27/pattern_matching_complex_data_structures/src/main.rs:11-22 | each label iff its case, temperature before humidity; an unknown humidity is "ok" |
| ComplexDataStructures.Describe | days/day27/pattern_matching_complex_data_structures/src/main.rs:30-42 | weak Wifi below -80, gigabit from 1000, Bluetooth name or "unknown" |
| ComplexDataStructures.WeakWifiDistinct | days/day27/pattern_matching_complex_data_structures/src/main.rs:32-33 | weak Wifi never reads "wifi ok" |
| ComplexDataStructures.BluetoothUnknownAmbiguous | days/day27/pattern_matching_complex_data_structures/src/main.rs:35-40 | a device named "unknown" reads the same as no name |
| ComplexDataStructures.Handle | days/day27/pattern_matching_complex_data_structures/src/main.rs:76-94 | missing payload before id 0 before no bytes, each iff its case; heartbeat and error texts |
| BorrowedPatterns.Reset | days/day28/advanced_pattern_matching_borrowed_patterns/src/main.rs:42-46 | an error becomes offline, any other status is kept |
| BorrowedPatterns.ResetIdempotent | days/day28/advanced_pattern_matching_borrowed_patterns/src/main.rs:42-46 | resetting twice is resetting once, and never leaves an error |
| BorrowedPatterns.Device.constructor | days/day28/advanced_pattern_matching_borrowed_patterns/src/main.rs:42-46 | a device with the given id and status |
| BorrowedPatterns.Device.StatusMsg | days/day28/advanced_pattern_matching_borrowed_patterns/src/main.rs:18-27 | OK below load 50, high load otherwise, offline, error with its message |
| BorrowedPatterns.Device.ResetIfError | days/day28/advanced_pattern_matching_borrowed_patterns/src/main.rs:42-46 | the status becomes `Reset(old)` in place, the id is kept |
| BorrowedPatterns.ResetThenReport | days/day28/advanced_pattern_matching_borrowed_patterns/src/main.rs:42-46 | after the reset a device that was in error reports "OFFLINE" |
| BorrowedPatterns.Interpret | days/day28/advanced_pattern_matching_borrowed_patterns/src/main.rs:58-67 | each text iff its case; 0 and values above 100 both read "overflow" |
| BorrowedPatterns.Summarize | days/day28/advanced_pattern_matching_borrowed_patterns/src/main.rs:101-120 | sensor range texts, restart/empty/other commands, disconnect with or without reason |
| BorrowedPatterns.RestartDistinct | days/day28/advanced_pattern_matching_borrowed_patterns/src/main.rs:109-113 | a command "restarting" is not taken for a restart |

## Left out

- Time, sockets and the broadcast shutdown channel of the pollers. `select!`, `sleep` and
  `try_recv` are replaced by a finite trace of outcomes. Nothing says which branch of a race
  wins.
- The scaled Modbus value (`raw as f64 * scale`), `Stats::mean`, the Temperature and Pressure
  arms of day06's `describe`, and `Double for f64`. They are floating point; only the
  integer raw value is modelled.
- The Modbus reply: `read_holding_registers` is an input, and the model assumes it carries
  exactly `count` registers.
- MQTT publishing, the HTTP API, configuration loading, bootstrap, the simulation task and
  `spawn_service`. These are library glue and random values.
- The `core::state` store. `StateChange` is declared only from how the listeners match on it,
  and the `value` of an update is abstract.
- The older `gateway/src/dispatcher.rs` is the same loop as `gateway/src/core/dispatcher.rs`.
  One `Dispatch` module models both.
- Dispatch.OnEvent: the test counter is an unbounded natural; the `u32` wrap-around of `*calls += 1` is not modelled.
- Logging and `println!` output, and every `main` except where its assertions are restated as
  lemmas.
- File, environment and process I/O:
  - file contents are a `FileRead` value, the environment a map;
  - `analyze_file`, `get_file_size` and the file-based arms of `execute` (day11, day13) are
    not modelled;
  - neither are the `io::Error` payloads or day10's crate;
  - a missing or non-Unicode environment variable is one error.
- Case mapping is ASCII only: `to_lowercase`, `to_uppercase` and `is_uppercase` on other
  characters are not modelled. White space is the full Unicode White_Space property, the set
  `trim`, `split_whitespace` and `char::is_whitespace` use.
- The `ToUserMessage` trait of day03 formats library error messages and is not modelled.
- OwnershipBorrowingDepth.MainScenario: the lines of `main` that borrow `data[1]` mutably only
  demonstrate borrowing and are not modelled.
- OwnershipBorrowingDepth.Stats.IntoSorted: promises a sorted permutation. It does not
  model the allocation of the new vector or that `self` is consumed.

## Findings

| source | as written | input that shows it | evidently intended | confidence | as-written member | corrected member |
|---|---|---|---|---|---|---|
| days/day23/state_machines/src/main.rs:117-124 | `read_char` compares the position with the byte length `content.len()` but fetches `content.chars().nth(i).unwrap()` | content "é" (two bytes, one character) with the reader at `Open(1)`: the guard passes and `nth(1)` is `None`, so `unwrap` panics | the guard compares with the character count, so reading past the last character returns `None` | not executed | StateMachines.ReadCharAsWritten, StateMachines.ReadCharPanicsOnMultibyte | StateMachines.ReadStep, StateMachines.Reader.ReadChar |
