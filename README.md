# Antenna scan over a VISA network analyser, in Dafny

This project models the control code of an antenna-measurement bench. A
Rohde & Schwarz network analyser (VNA) is driven over VISA/SCPI, and a
Phidget stepper moves the receiving antenna along a rail. The model covers:

- the instrument session. These are the `VISAInstrument` classes of
  `instrumentcontrol/VISAInstrument.py` and `VISAInstrument.py`, and the
  `ext_*` helpers that `VISAExtension.py` attaches to a pyvisa resource.
  The model includes the SCPI error-queue drain (`check_error_queue`), the
  exception raised from it (`error_checking`), `set_freq_star` and the
  decoding of the `CALC:DATA? SDAT` reply into complex values;
- the stepper driver of `Stepper.py`: the target position and the settle
  loop;
- the scan script `measurement.py`, which works in three stages. It
  configures the analyser, then visits every position and saves one sweep
  per visit, and finally homes the antenna and cleans up.

## How the model is built

- The analyser is a scripted device. Its `script` is the list of replies it
  will still give, in order.
- `trace` records what the session does on the bus: `Sent(cmd)`,
  `Received(reply)`, `DeviceClear` and `Closed`.
- A read when no reply is left is pyvisa's timeout (`VisaIOError`).
- Every operation has a pure `Step` specification: its result, the replies
  it leaves, and the events it adds. The class methods are proved against
  those functions, and the properties of the source are proved as lemmas
  about the functions.
- The stepper is a class with the same scripted shape. Its moving-flag
  readings are given in advance, and a log records targets, reads, sleeps,
  position reads and closes.
- The scan's motion is also described as a timeline of `Action`s: `Move`,
  `Settle`, `Pause(500)` and `Acquire`. `Run` returns the timeline it
  carried out. The lemmas of module `Scan` state the schedule the code
  promises.
- Saving a sweep appends a `Record(pos, values)` to a `Disk`.
- Python's float parsing (`float(...)`, numpy's `dtype=float`) is a
  parameter `toFloat: string -> Option<real>`.

Where the intent and the code differ, the model follows the code:

- The drain stops on a reply whose lower-case form contains `"no error"`,
  quotes included. A reply `0,No error` without quotes does not stop it
  (`ErrorQueue.ExampleReplies`).
- A reply with an odd number of values drops the last value rather than
  failing (`Payload.DecodeOddExample`).
- The `debug` setter raises `VISAInstrumentErrorException('Wrong type.')`.
  The exception joins its argument's items, and the items of a string are
  its characters, so the message is `W\nr\no…`, not `Wrong type.`
  (`ErrorQueue.MessageOfString`).
- `isinstance(True, int)` holds in Python, so `set_freq_star(True)` writes
  `SENS1:FREQ:STAR True`.
- The class copies read the error queue through their own `query`, which
  strips trailing whitespace. `ext_check_error_queue` uses pyvisa's `query`,
  which does not strip. `ErrorQueue.CopiesAgree` relates the two. They
  differ only on a status byte whose trailing whitespace holds an
  information separator (U+001C to U+001F): `rstrip` removes it, but `int()`
  refuses it, so the class copy reads the number and the `ext_` copy raises
  `ValueError` (`ErrorQueue.CopiesDifferOnSeparator`).

## Model

| member | source | states |
|---|---|---|
| Session.Instrument.constructor | instrumentcontrol/VISAInstrument.py:50-63 | the session holds the resource name, timeout, write termination and debug flag it was given, is open, has done nothing on the bus and has every reply still to come |
| Session.OpenInstrument | instrumentcontrol/VISAInstrument.py:50-66 | a non-bool `debug` raises the wrong-type error before anything is opened; with fewer than three replies the start-up times out; otherwise the new session holds the given settings and has done device clear, `*CLS`, `*OPC?` and `*IDN?`, in that order, using up three replies |
| Session.Instrument.SetDebug | instrumentcontrol/VISAInstrument.py:78-82 | a bool is stored; any other value raises the instrument error with the message built from `'Wrong type.'` and keeps the old value |
| Session.Instrument.Read | instrumentcontrol/VISAInstrument.py:97-103 | consumes exactly one reply and returns it right-stripped; with no reply left it times out |
| Session.Instrument.Write | instrumentcontrol/VISAInstrument.py:105-109 | sends the command unchanged, once, and reads nothing |
| Session.Instrument.Query | instrumentcontrol/VISAInstrument.py:111-120 | one write and one read; the reply comes back right-stripped, or a timeout after the write |
| Session.Instrument.ClearStatus | instrumentcontrol/VISAInstrument.py:125-132 | device clear, then query `*CLS` and query `*OPC?`, in that order; it stops at the first timeout |
| Session.Instrument.ExtClearStatus | VISAExtension.py:22-25 | device clear, then the single query `*CLS;*OPC?` |
| Session.Instrument.CheckOpc | instrumentcontrol/VISAInstrument.py:137-139 | writes `*OPC?` and reads exactly one reply |
| Session.Instrument.CheckErrorQueue | instrumentcontrol/VISAInstrument.py:141-163 | the status byte is queried first; the result, the remaining replies and the bus events are those of the queue-check specification |
| Session.Instrument.DrainQueue | VISAInstrument.py:112-124 | the `SYST:ERR?` loop returns exactly the drain specification's result, leftover replies and events |
| Session.Instrument.ErrorChecking | instrumentcontrol/VISAInstrument.py:165-175 | passes exactly when the queue check returns `None` or an empty list; otherwise the check's error, or the instrument error, is raised |
| Session.Instrument.SetFreqStart | VISAInstrument.py:141-147 | a non-int or negative value raises with the empty message and sends nothing; otherwise exactly one command is written |
| Session.Instrument.QueryScatteringValues | VISAInstrument.py:149-161 | write, read, decode, then the error check; returns the values only if the check passes |
| Session.Instrument.ExtQueryValues | VISAExtension.py:129-137 | write, read and decode, with no error check |
| Session.FreqStartLaw | VISAInstrument.py:141-147 | refused exactly for non-ints and negative ints; the command is the prefix plus the decimal digits, which parse back to the value |
| Session.FetchLaw | VISAInstrument.py:149-156 | the fetch returns the decode of the reply; a decode failure is `ValueError` and happens before any error check; with the check, the values come back only when the check passes |
| ErrorQueue.DrainBounds | instrumentcontrol/VISAInstrument.py:151-159 | the drain keeps earlier entries; it reads at most 51 replies and records at most 52 entries, the 52nd being the cap marker; a timeout comes only after every reply was recorded, within the cap of 50 |
| ErrorQueue.DrainStopsAtSentinel | instrumentcontrol/VISAInstrument.py:151-155 | within the cap, the drain stops at the first sentinel and records exactly the replies before it, verbatim and in order |
| ErrorQueue.DrainCapped | instrumentcontrol/VISAInstrument.py:155-159 | with no sentinel among the next replies, the drain stops after 51 entries and appends `Cannot clear the error queue` |
| ErrorQueue.DrainTimesOut | instrumentcontrol/VISAInstrument.py:151-155 | replies that run out before a sentinel or the cap end the loop in a timeout, with all of them recorded |
| ErrorQueue.DrainRecordsNoSentinel | instrumentcontrol/VISAInstrument.py:153-155 | the sentinel is never recorded as an error |
| ErrorQueue.CheckQueueFlagClear | instrumentcontrol/VISAInstrument.py:147-149 | with bit 2 of the status byte clear, the result is an empty list after a single `*STB?` exchange |
| ErrorQueue.CheckQueueSentinelFirst | instrumentcontrol/VISAInstrument.py:160-161 | when the first `SYST:ERR?` reply is the sentinel, the result is `None`, not an empty list |
| ErrorQueue.DrainSentinelFirst | VISAExtension.py:100-110 | a drain whose first reply is the sentinel returns `None` after one exchange |
| ErrorQueue.CheckQueueBounded | VISAExtension.py:94-112 | whatever the replies: at most 104 bus events and 52 writes (`*STB?`, then at most 51 `SYST:ERR?`); at most 52 entries, with the cap marker last when there are 52; no entry is a sentinel |
| ErrorQueue.CheckQueueBlankStatus | VISAExtension.py:96 | a blank `*STB?` reply, the empty one included, raises `ValueError` right after the `*STB?` exchange, before any `SYST:ERR?` |
| ErrorQueue.CheckQueueSendOrder | VISAExtension.py:96-101 | `*STB?` is written first, then only `SYST:ERR?` |
| ErrorQueue.CheckQueueSends | VISAExtension.py:94-112 | the queue check writes no command other than `*STB?` and `SYST:ERR?` |
| ErrorQueue.DrainSendOrder | VISAExtension.py:100-101 | the drain writes nothing but `SYST:ERR?` |
| ErrorQueue.ErrorCheckingRaisesIffErrors | VISAExtension.py:120-123 | the instrument error is raised exactly when the queue check returns a non-empty list, with the entries joined by newlines as its message; otherwise it passes or passes the check's own error on |
| ErrorQueue.MessageSplitsIntoEntries | VISAExtension.py:13-19 | the exception message splits at newlines into exactly the entries, in order |
| ErrorQueue.MessageOfString | instrumentcontrol/VISAInstrument.py:31-37 | a string argument is joined character by character: the message has 2n-1 characters, a newline second, and differs from the string |
| ErrorQueue.DrainExample | VISAInstrument.py:102-124 | status 4 with two errors and the sentinel yields the two errors, after the status exchange and three `SYST:ERR?` exchanges |
| ErrorQueue.DrainTwoErrors | VISAInstrument.py:102-124 | the same, for any status byte with bit 2 set and any two non-sentinel replies |
| ErrorQueue.DrainStepTwoErrors | VISAInstrument.py:112-124 | two errors and then the sentinel: the drain returns the two errors and uses up all three replies |
| ErrorQueue.RaiseExample | VISAInstrument.py:126-136 | the same replies raise an instrument error whose message is the two errors joined by a newline |
| ErrorQueue.ExampleReplies | VISAInstrument.py:114 | `0,"No error"` is the sentinel; `0,No error` without quotes is not |
| ErrorQueue.SentinelIgnoresTrailingSpace | VISAExtension.py:102 | trailing whitespace never decides whether a reply is the sentinel |
| ErrorQueue.CapMarkerIsNoSentinel | VISAExtension.py:107 | the cap marker is not mistaken for the sentinel |
| ErrorQueue.DrainStripCommutes | VISAExtension.py:100-108 | draining stripped replies gives the stripped entries of draining the raw replies, stopping at the same point |
| ErrorQueue.CopiesAgree | VISAExtension.py:94-112 | when `int()` reads the status reply alike with and without stripping, the class copy and `ext_check_error_queue` send the same commands, consume the same replies and fail alike, and the class copy's entries are the stripped `ext_` entries; otherwise the class copy reads a number and the `ext_` copy raises `ValueError` right after `*STB?` |
| ErrorQueue.DrainCopiesAgree | VISAExtension.py:100-108 | the two drains send the same commands, consume the same replies and raise alike; the class drain's entries are the `ext_` entries, stripped |
| ErrorQueue.CopiesDifferOnSeparator | VISAExtension.py:96 | the status reply `4` followed by U+001C: the class copy reads 4 and returns `None` on a sentinel; `ext_check_error_queue` raises `ValueError` |
| Text.RStripLaw | instrumentcontrol/VISAInstrument.py:103 | `rstrip` keeps a prefix that does not end in whitespace and removes only whitespace, Python's whitespace including the information separators U+001C to U+001F |
| Text.ParseIntStripped | instrumentcontrol/VISAInstrument.py:147 | stripping never changes a number `int()` accepts; it changes the outcome only when an information separator in the trailing whitespace makes `int()` refuse the raw reply |
| Text.SeparatorExample | instrumentcontrol/VISAInstrument.py:147 | `int()` refuses `4` followed by U+001C, which `rstrip` turns into `4`, which `int()` reads as 4 |
| Text.ParseIntRejectsBlank | instrumentcontrol/VISAInstrument.py:147 | `int()` of an all-whitespace string, the empty one included, raises |
| Text.HasSeparatorIff | instrumentcontrol/VISAInstrument.py:147 | the separator test `int()` applies holds exactly when some character is U+001C to U+001F |
| Text.ContainsIff | instrumentcontrol/VISAInstrument.py:153 | the `in` test holds exactly when the part occurs at some position of the string |
| Text.ParseNatToString | VISAInstrument.py:147 | `str` of a non-negative int parses back to the same int |
| Text.SplitJoin | VISAInstrument.py:10 | joining single-line pieces and splitting at the separator gives the pieces back |
| Payload.ParseAll | VISAInstrument.py:154 | the array parses exactly when every token parses, token by token |
| Payload.PairLaw | VISAInstrument.py:155 | pairing n reals gives n/2 complex numbers; the k-th is (x[2k], x[2k+1]) |
| Payload.PairFlatten | VISAInstrument.py:155 | pairing undoes flattening |
| Payload.FlattenPair | VISAInstrument.py:155 | flattening undoes pairing up to a dropped odd last value |
| Payload.DecodeLaw | VISAInstrument.py:150-155 | decoding succeeds exactly when every comma-separated token parses (`ValueError` otherwise) and gives one complex value per pair of tokens, in order |
| Payload.DecodeRoundTrip | VISAInstrument.py:152-155 | the comma-joined spelling of interleaved real and imaginary parts decodes to the original values |
| Payload.DecodeExample | VISAInstrument.py:152-155 | `1,2,3,4` decodes to 1+2j, 3+4j |
| Payload.DecodeOddExample | VISAInstrument.py:155 | `1,2,3` decodes to 1+2j: the odd value is dropped |
| Actuator.Stepper.SetTargetAbsolutePosition | Stepper.py:75-78 | the device target is the requested position times 1/2 |
| Actuator.Stepper.WaitToSettle | Stepper.py:80-92 | polls until the first "not moving" reading, sleeps 10 ms between reads, reads the position once and returns false |
| Actuator.SettleShape | Stepper.py:81-87 | a settle alternates reads and 10 ms sleeps, ends with the "not moving" read and then one position read |
| Actuator.SettleAtOnce | Stepper.py:81-83 | a device already at rest gives one read and one position read, with no sleep |
| Actuator.SettleUsesOneStop | Stepper.py:83-85 | a settle uses up exactly one "not moving" reading |
| Actuator.PollsShape | Stepper.py:83-85 | n polled readings are n reads and n-1 sleeps, alternating |
| Actuator.Stepper.Close | Stepper.py:70-73 | the channel is closed and the close is logged |
| Actuator.MovedNext | Stepper.py:75-92 | after a series of moves, setting one more target and settling extends the series by that move, in the log and in the readings left |
| Actuator.MoveLogTargets | Stepper.py:75-78 | the targets a series of moves logs are the requested positions halved, one per move, in order, and no other |
| Measurement.ConnectLaw | measurement.py:46-47 | `*IDN?`, then device clear and `*CLS;*OPC?`; it needs two replies and times out otherwise |
| Measurement.Connect | measurement.py:41-48 | debug on, resource name set, write termination `\n`; on success the timeout is 1500 ms |
| Measurement.SweepSettingsOrder | measurement.py:50-59 | byte-order query, start, stop, bandwidth, points, then `*OPC?`, in that order |
| Measurement.SweepSettingsLaw | measurement.py:50-59 | the settings need two replies and time out otherwise; they write only configuration commands |
| Measurement.SweepLaw | measurement.py:50-60 | the sweep configuration succeeds exactly when both replies come and the error check passes; the check's writes follow the settings |
| Measurement.ApplySweepSettings | measurement.py:50-59 | carries out the sweep settings exactly as specified |
| Measurement.ConfigureSweep | measurement.py:50-60 | the sweep settings, then the error check, exactly as specified |
| Measurement.TimingSettingsLaw | measurement.py:62-71 | the sweep-time estimate is the parsed reply; an unparsable estimate is `ValueError` raised right after the query |
| Measurement.TimingLaw | measurement.py:62-72 | timing succeeds exactly when the estimate parses, `*OPC?` is answered and the error check passes |
| Measurement.ApplyTiming | measurement.py:62-71 | the timeout becomes estimate × 1000 + 1000 ms once the estimate parses, and is otherwise unchanged |
| Measurement.ConfigureTiming | measurement.py:62-72 | the same timing and timeout rule, then the error check; on success the timeout is the adaptive one |
| Measurement.Configure | measurement.py:41-72 | the result, the replies left and the bus events are those of the configuration specification (connect, sweep, timing, stopping at the first exception); only configuration commands are written; on success the timeout is estimate × 1000 + 1000 |
| Measurement.ConfigureSends | measurement.py:41-72 | configuring writes nothing but configuration commands; with fewer than two replies it times out having written only the connection's commands |
| Measurement.ConnectOrder | measurement.py:46-47 | a connection that gets its two replies writes `*IDN?` and then `*CLS;*OPC?`, nothing else |
| Measurement.ConfigureOrder | measurement.py:46-59 | a configuration that succeeds writes `*IDN?`, `*CLS;*OPC?`, the byte-order query, start, stop, bandwidth, points and `*OPC?`, in that order, before anything else |
| Measurement.AcquireFetchOrder | measurement.py:26-30 | trigger `INIT1:IMM; *WAI`, `*OPC?`, `CALC:DATA? SDAT`, `*OPC?`, in that order |
| Measurement.AcquireFetchLaw | measurement.py:26-30 | the fetch succeeds exactly when three replies come and the data reply decodes, and returns that decode |
| Measurement.AcquireLaw | measurement.py:24-31 | a measurement succeeds exactly when the fetch succeeds and the error check passes, and the error check follows the four fetch commands |
| Measurement.TriggerAndFetch | measurement.py:26-30 | carries out the fetch exactly as specified |
| Measurement.MeasureAndSave | measurement.py:24-34 | one file with the decoded values at `pos` is saved exactly when the measurement succeeds; nothing is saved otherwise |
| Measurement.Measure | measurement.py:24-34 | on success one file is appended at `pos`; on an exception nothing is saved; only scan commands are written |
| Measurement.MoveTo | measurement.py:89-90 | the stepper log gains the halved target and the settle over the readings left, and the series of moves since the scan began grows by the position |
| Measurement.Turn | measurement.py:85-99 | move, settle, pause and measure, with a second measurement on the first turn; the move is made whatever follows and extends the stepper's series of moves by the position; the files saved match the acquisitions; the turn counter accounts for the saved files |
| Measurement.LoopTurn | measurement.py:83-99 | turn `i` either extends the loop state (timeline, files, counter, stepper moves) by position `i`, or raises with the timeline a strict beginning of the scan and the stepper moved to a beginning of the positions |
| Measurement.VisitPositions | measurement.py:81-99 | the stepper has moved to a beginning of the positions, in order, with the matching log and readings left; after all positions, the timeline is the scan up to homing, the moves are the positions and the counter equals the files saved; on an exception the timeline is a strict beginning of the scan |
| Measurement.FinishScan | measurement.py:101-122 | homing to the first position is a full visit; the stepper log is the moves so far plus the homing move, then the close on success; on success the trace ends with the whole cleanup and both devices are closed; on an exception nothing is closed |
| Measurement.ReturnHome | measurement.py:101-122 | after all positions, homing and cleanup complete the scan's timeline, moves, stepper log, schedule of files and counter `len(positions)+2`, or an exception leaves a beginning of each with nothing closed |
| Measurement.ScanPositions | measurement.py:81-122 | the scan after configuration: the same promises as `Run`, from the trace at which the scan began |
| Measurement.Cleanup | measurement.py:115-122 | `ON` commands, `*IDN?`, clear status, close the analyser and close the stepper, in that order; nothing is closed unless both queries are answered |
| Measurement.Run | measurement.py:40-122 | the stepper log is the target and settle of each move of the timeline, in order, then the close on success; on success the count is `len(positions)+2`, the moves are p0, p1, …, p0, the files are at p0, p0, p1, …, p0, the trace is scan commands then the cleanup, and both devices are closed; on an exception nothing is closed, the files saved are a beginning of that schedule, and no cleanup command was written unless the scan had finished; with no positions it fails without saving |
| Scan.ScanSchedule | measurement.py:83-110 | the scan acquires at p0, p0, p1, …, p0: `len(positions)+2` acquisitions, first and last at the first position |
| Scan.OnlyFirstTwice | measurement.py:93-99 | only the first position is measured twice, back to back; every other acquisition is followed by a move |
| Scan.MovesSettleBeforeAcquiring | measurement.py:88-110 | every move, homing included, is followed by a settle, a 500 ms pause and an acquisition at the position moved to |
| Scan.ScanStart | measurement.py:83-99 | the scan begins with move, settle, pause and two acquisitions at the first position |
| Scan.TurnIsPrefix | measurement.py:83-99 | each turn of the loop extends the timeline, and the result is still a beginning of the full scan |
| Scan.AcquiredPrefix | measurement.py:93-110 | a beginning of the timeline acquires a beginning of the schedule |
| Scan.MovesOfScan | measurement.py:83-110 | a scan that raises nothing moves the antenna to every position in order, then back to the first |
| Scan.MovesVisits | measurement.py:83-99 | visiting positions moves to exactly those positions, in order |
| Scan.MovesInTurn | measurement.py:88-99 | a turn that got past the pause has moved once, to its own position |
| Scan.MovesNext | measurement.py:83-90 | the next turn extends the moves so far by the next position |

## Left out

- The VISA transport: pyvisa, the resource manager and the network. The analyser is a list of scripted replies, and a missing reply is the timeout.
- The write/query recursion of `VISAInstrument.py`. There, `write` and `query` call `check_opc`, which calls `write` again, so the copy never returns. `Write` and `Query` follow the `instrumentcontrol/` copy and send each command once.
- `Session.Instrument.constructor` opens the resource only. The start-up exchanges of `__init__` (`clear_status()` and `*IDN?`) are `Session.OpenInstrument`. The `print`, the destructor (`__del__`) and the constructor of `VISAInstrument.py` are left out; the latter never returns, because its `clear_status()` runs into the write/query recursion.
- Debug printing, the start-up countdown, the progress lines and `time.sleep` calls. The 500 ms pause is an `Action` of the timeline. The 10 ms poll sleep is a logged event.
- Floating point. Sweep times and sample values are reals parsed by the `toFloat` parameter. The frequency constants are given as the strings Python's `str` prints for them.
- `int()` is modelled as `ParseInt`: Python's whitespace around an optional sign and ASCII digits, with the information separators U+001C to U+001F refused anywhere. Underscore separators (`1_0`) and non-ASCII digits are not accepted. `lower()` folds ASCII letters only; `rstrip()` removes all of Python's whitespace.
- The saved file: `np.savez_compressed`, its timestamped name and the frequency axis. A saved sweep is a `Record` of position and values.
- The Phidget SDK: attachment, event handlers and the motor itself. Readings of the moving flag are scripted, and the reported position is fixed.
- `Actuator.Stepper.WaitToSettle`: requires a "not moving" reading to come. Without one the source polls forever, which the model does not represent.
- `Measurement.Run`: requires at least `len(positions)+1` "not moving" readings, one per settle. It reports every exception as `Fail`, including `IndexError` and `ValueError`, which the script's `except` clauses do not catch. The `except` printing is left out.
- `Measurement.Run`: states the analyser trace as "only scan commands, then the exact cleanup". The exact command order of each phase is stated by `ConnectLaw`, `SweepLaw`, `TimingLaw` and `AcquireLaw` and by the methods proved against them.
- `Measurement.Measure`: states the position of the saved file but not its values. `Measurement.MeasureAndSave` states those.
- Monkey-patching of `visa.Resource`, `ext_set_debug` and `ext_set_resource`. Their effect, debug on and the resource name set, is part of `Measurement.Connect`.
- `get_byte_order`, `reset`, `idn`, `get_freq_star`, `print_movement_info`, the demos under `__main__`, `Instrument.py` and `PhidgetHandlers.py`: these are not part of this model.
- The `SCPICommands` constant table is not part of this model. The commands used are named constants in module `Bus`.
