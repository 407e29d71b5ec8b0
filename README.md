# Sutter Lambda 10-3 controller driver, modelled in Dafny

The Sutter Lambda 10-3 drives up to two 25 mm filter wheels and up to two
SmartShutters over a serial line. These are channels A and B of each kind. The
Python driver `Controller` runs in four stages:

1. It asks the controller for its configuration with byte 0xFD.
2. It checks the returned frame field by field and lists the wheels and shutters
   it can drive.
3. It parks every wheel at position 0, puts every shutter in soft mode and
   closes it.
4. After that it sends one-byte or two-byte commands.

The device echoes each command, followed by a carriage return, once the command
is done. The driver keeps the last command it wrote as "pending". It always
confirms that echo before it writes the next command. It confirms right away
when the caller blocks. Otherwise the next call confirms it before it writes:
`move` does so once the wheel has been checked but before the position and the
speed are checked; `change_shutter` and `set_shutter_mode` do so once all their
arguments have been checked.

The project has seven modules, one per file:

- `Base` (`base.dfy`): bytes, channels, the argument forms the driver accepts,
  and one `Error` value per way a call can fail: the driver's `raise`s and
  `assert`s, the index and decoding errors Python raises implicitly, and a closed port.
- `Channels` (`channels.dfy`): `n2c` and `c2n`.
- `Codec` (`codec.dfy`): the move byte, the shutter-state byte, the shutter-mode
  command and the echo. Each comes with a decoder or an exactness lemma.
- `Configuration` (`configuration.dfy`): parsing the configuration frame, with an
  independent field-by-field definition of the frames that are accepted.
- `Session` (`session.dfy`): the whole observable state of the driver as a value.
  It holds:
  - the detected channels, the wheel targets and the pending command;
  - the serial link;
  - a trace of every command sent and every response read.

  Every driver method is a function from one such state to an outcome and the
  next state.
- `SessionProperties` (`session_properties.dfy`): what the protocol guarantees:
  - an invariant kept by every call, even a failing one. The detected-channel
    lists are well formed, the targets fit, and no command is ever written while
    an earlier one is unconfirmed.
  - the order of flush and write;
  - which checks come before any write;
  - what start-up and `close` send.
- `Lambda103` (`controller.dfy`): the driver object itself.
  - `Port` simulates the serial port. Its buffers change on every write and read.
  - `Controller` has the driver's fields and methods. Each method is proved to
    change the object exactly as the matching `Session` function says and to
    keep the invariant (each one requires it on entry, as the object's invariant).

The serial device is modelled as a list of replies, one per write. The reply
arrives in the input buffer as the write is made. `readline` returns the whole
buffered reply.

Some behaviour of the code is odd but is modelled as written:

- `wheel_target_positions` has one slot per detected wheel, but it is indexed
  by channel number. So with wheel B fitted and wheel A not:
  - every valid move of wheel B (a position below 10 and a speed below 8, on an
    open port with nothing pending) writes its byte and then raises `IndexError`;
  - start-up itself fails the same way (`OnlyWheelBCannotMove`,
    `HomingFailsWithOnlyWheelB`).
- "VS" shutters pass the configuration check but are never listed.
- Bytes 5-29 of the frame are checked by the field comparisons, but byte 30 is
  checked only by the ASCII decoding: any value below 128 is accepted there.
- "no hardware connected" is raised only in verbose mode.
- `move` flushes the pending command before it checks the position and the speed.
- `change_shutter` and `set_shutter_mode` check the state or mode before they
  flush.

## Model

| member | source | states |
|---|---|---|
| `Channels.NameToChannel` | sutter_Lambda_10_3_JLD.py:162-169 | n2c succeeds exactly on 0, 1, "A", "B", and leaves an index unchanged |
| `Channels.ChannelToName` | sutter_Lambda_10_3_JLD.py:171-178 | c2n succeeds exactly on 0, 1, "A", "B", and leaves a name unchanged |
| `Channels.ChannelNames` | sutter_Lambda_10_3_JLD.py:56-57 | "A" is channel 0 and "B" is channel 1, in both directions |
| `Channels.NamesAndChannelsCorrespond` | sutter_Lambda_10_3_JLD.py:56-57 | name n denotes channel c exactly when c2n gives n for c |
| `Channels.ChannelNameRoundTrip` | sutter_Lambda_10_3_JLD.py:162-178 | n2c(c2n(c)) == c for each channel; c2n(n2c(n)) == n for each valid name |
| `Channels.NormalisationAgrees` | sutter_Lambda_10_3_JLD.py:162-178 | any valid identifier, taken through its name, denotes the same channel |
| `Codec.Echo` | sutter_Lambda_10_3_JLD.py:153 | the expected response is the command followed by a carriage return |
| `Codec.MoveByte` | sutter_Lambda_10_3_JLD.py:97 | for wheel 0/1, speed below 8 and position below 10 the move byte is a byte (0..255); it is below 128 exactly for wheel A, and its low four bits are the position |
| `Codec.DecodeMove` | sutter_Lambda_10_3_JLD.py:97 | reading a byte as move fields gives a speed below 8 and a position below 16 |
| `Codec.MoveRoundTrip` | sutter_Lambda_10_3_JLD.py:97 | wheel, speed and position are recovered from the move byte |
| `Codec.MoveInjective` | sutter_Lambda_10_3_JLD.py:97 | two moves give the same byte exactly when they are the same move |
| `Codec.ShutterStateByte` | sutter_Lambda_10_3_JLD.py:117-120 | the state byte is one of 170, 172, 186, 188, and its low four bits are 10 for open and 12 for closed |
| `Codec.ShutterStateRoundTrip` | sutter_Lambda_10_3_JLD.py:117-120 | shutter and open/closed are recovered from the shutter-state byte |
| `Codec.ShutterStatesDistinct` | sutter_Lambda_10_3_JLD.py:117-120 | the state byte is one of 170, 172, 186, 188, distinct for distinct (shutter, state) |
| `Codec.ShutterModeCommand` | sutter_Lambda_10_3_JLD.py:139-142 | the mode command is two bytes: 220 exactly for fast (221 otherwise), then 1 or 2 |
| `Codec.ShutterModeExact` | sutter_Lambda_10_3_JLD.py:139-142 | fast mode is [220, shutter+1], soft mode is [221, shutter+1] |
| `Codec.CommandKindsDisjoint` | sutter_Lambda_10_3_JLD.py:97-142 | no move byte equals a shutter-state byte or a mode opcode, and no state byte equals a mode opcode |
| `Configuration.ParseConfig` | sutter_Lambda_10_3_JLD.py:33-55 | an accepted frame lists each detected channel list in ascending order without repeats |
| `Configuration.Listed` | sutter_Lambda_10_3_JLD.py:50-55 | the list built from the two channel tests is ascending and without repeats, and holds channel A or B exactly when its test passed |
| `Configuration.ParseAcceptsExactly` | sutter_Lambda_10_3_JLD.py:33-49 | a frame parses exactly when it is 31 bytes, wheel fields are WA-/WB- with 25 or NC, wheel C is WC-NC, shutter fields are SA-/SB- with IQ or VS, and the last byte is ASCII |
| `Configuration.DecodedFieldsAscii` | sutter_Lambda_10_3_JLD.py:36-49 | in a frame whose fields pass, every byte the fields cover is ASCII, so only byte 30 can make the decoding fail |
| `Configuration.FrameLengthRules` | sutter_Lambda_10_3_JLD.py:33-36 | a 36-byte frame is refused as "shutter C", any other length but 31 as a bad frame, and a 31-byte frame whose text is not ASCII fails to decode |
| `Configuration.WheelCRejected` | sutter_Lambda_10_3_JLD.py:36-41 | a wheel-C field other than WC-NC is refused whatever the other fields hold, unless the frame already failed to decode |
| `Configuration.ParsedChannels` | sutter_Lambda_10_3_JLD.py:50-55 | a wheel is listed exactly when its field is 25, a shutter exactly when it is IQ; VS shutters are never listed |
| `Session.Write` | sutter_Lambda_10_3_JLD.py:98 | a write appends its bytes to the output and neither creates nor loses device bytes: the buffer only grows at its end, buffer plus pending replies is unchanged, and at most one reply arrives |
| `Session.Finish` | sutter_Lambda_10_3_JLD.py:149-160 | reads len(cmd)+1 bytes; fails unless they are the echo; clears pending on a matching echo; fails if input is then left over; succeeds exactly when the buffer held just the echo |
| `SessionProperties.FinishInvariant` | sutter_Lambda_10_3_JLD.py:149-160 | `_finish_moving` keeps the invariant and only records the response it read |
| `SessionProperties.SendInvariant` | sutter_Lambda_10_3_JLD.py:98-99 | with nothing pending, a write keeps the invariant; on an open port it succeeds, the output gains exactly the command's bytes, the trace gains the command and the command becomes pending; on a closed port it fails with nothing changed |
| `SessionProperties.IssueInvariant` | sutter_Lambda_10_3_JLD.py:121-124 | write-then-maybe-wait keeps the invariant and the wheel targets |
| `SessionProperties.MoveInvariant` | sutter_Lambda_10_3_JLD.py:83-103 | every `move`, failing or not, keeps the invariant; the channels stay the same and the output grows only by the commands traced |
| `SessionProperties.MoveRejectsBeforeWriting` | sutter_Lambda_10_3_JLD.py:88-93 | an invalid or undetected wheel fails with the state unchanged; a bad position or speed fails before any write, in the state the flush left |
| `SessionProperties.MoveFlushesBeforeRangeCheck` | sutter_Lambda_10_3_JLD.py:90-92 | with a command pending and its echo buffered, a move to position 10 still consumes the echo and clears the pending command before it fails |
| `SessionProperties.MoveWritesAfterFlush` | sutter_Lambda_10_3_JLD.py:90-98 | a `move` that writes writes exactly its move byte, and only after the pending command's echo was read |
| `SessionProperties.MoveCompletes` | sutter_Lambda_10_3_JLD.py:88-103 | a successful `move`: arguments valid; trace is flush, send, and echo if blocking; pending only when not blocking; target updated |
| `SessionProperties.MoveAgainstEchoingDevice` | sutter_Lambda_10_3_JLD.py:97-102 | a valid `move` against a device that echoes succeeds and consumes exactly the echo when it blocks |
| `SessionProperties.MoveExample` | sutter_Lambda_10_3_JLD.py:97 | move(3, 'A', speed=6) writes 0x63 and consumes 0x63 0x0D |
| `SessionProperties.OnlyWheelBCannotMove` | sutter_Lambda_10_3_JLD.py:74-100 | with wheel B alone and nothing pending, a move with a position below 10 and a speed below 8 writes its byte, leaves it pending and fails on the target index |
| `SessionProperties.ChangeShutterInvariant` | sutter_Lambda_10_3_JLD.py:105-125 | every `change_shutter` keeps the invariant and the wheel targets |
| `SessionProperties.ChangeShutterRejectsBeforeWriting` | sutter_Lambda_10_3_JLD.py:109-111 | invalid or undetected shutter, or a state other than open/1/closed/0, fails with the state unchanged |
| `SessionProperties.ChangeShutterCompletes` | sutter_Lambda_10_3_JLD.py:115-124 | a successful `change_shutter` flushed, then wrote the state byte for the requested state |
| `SessionProperties.SetShutterModeInvariant` | sutter_Lambda_10_3_JLD.py:127-147 | every `set_shutter_mode` keeps the invariant and the wheel targets |
| `SessionProperties.SetShutterModeRejectsBeforeWriting` | sutter_Lambda_10_3_JLD.py:131-133 | invalid or undetected shutter, or a mode other than fast/soft, fails with the state unchanged |
| `SessionProperties.SetShutterModeCompletes` | sutter_Lambda_10_3_JLD.py:137-146 | a successful `set_shutter_mode` flushed, then wrote [220 or 221, shutter+1] |
| `SessionProperties.SetShutterModeExample` | sutter_Lambda_10_3_JLD.py:139-146 | set_shutter_mode('fast', 'A') writes [220, 1] and consumes its echo |
| `SessionProperties.ExchangesSend` | sutter_Lambda_10_3_JLD.py:98 | the bytes written by a run of exchanges are the commands back to back |
| `SessionProperties.FollowsTransitive` | sutter_Lambda_10_3_JLD.py:83-147 | steps compose: channels stay the same, the trace only grows, and the output is exactly what the new events sent |
| `SessionProperties.StepKeepsSerialized` | sutter_Lambda_10_3_JLD.py:90-91 | appending an event keeps "never write while unconfirmed" provided a write happens only with nothing unconfirmed |
| `SessionProperties.CompletedTransitive` | sutter_Lambda_10_3_JLD.py:75-79 | two completed runs of blocking commands make one completed run of both |
| `SessionProperties.ParkWheelsInvariant` | sutter_Lambda_10_3_JLD.py:75-76 | the wheel-parking loop keeps the invariant |
| `SessionProperties.ParkWheelsCompletes` | sutter_Lambda_10_3_JLD.py:75-76 | a successful parking loop sent and confirmed each wheel's move to 0 in turn, and set those targets to 0 |
| `SessionProperties.PrepareShuttersInvariant` | sutter_Lambda_10_3_JLD.py:77-79 | the start-up shutter loop keeps the invariant and the targets |
| `SessionProperties.PrepareShuttersCompletes` | sutter_Lambda_10_3_JLD.py:77-79 | a successful start-up shutter loop sent soft mode, then closed, for each shutter, each confirmed |
| `SessionProperties.CloseShuttersInvariant` | sutter_Lambda_10_3_JLD.py:183-184 | the shut-down shutter loop keeps the invariant and the targets |
| `SessionProperties.CloseShuttersCompletes` | sutter_Lambda_10_3_JLD.py:183-184 | a successful shut-down shutter loop closed each shutter, each confirmed |
| `SessionProperties.AllTargetsParked` | sutter_Lambda_10_3_JLD.py:74-76 | once every detected wheel has been parked, every target slot is 0 |
| `SessionProperties.HomeInvariant` | sutter_Lambda_10_3_JLD.py:73-79 | the homing sequence keeps the invariant |
| `SessionProperties.HomeCompletes` | sutter_Lambda_10_3_JLD.py:73-79 | a successful homing sequence sent and confirmed the park and prepare commands, leaving every target 0 |
| `SessionProperties.ConnectInvariant` | sutter_Lambda_10_3_JLD.py:31-79 | every start-up, failed or not, ends in a state that keeps the invariant |
| `SessionProperties.ConnectRejectsBadFrame` | sutter_Lambda_10_3_JLD.py:31-49 | a refused frame ends start-up with the parser's error after writing only the query byte |
| `SessionProperties.ConnectHomes` | sutter_Lambda_10_3_JLD.py:31-79 | a successful start-up wrote the query, then exactly the homing commands of the parsed configuration, all confirmed, with every target 0 |
| `SessionProperties.NoHardwareOnlyWhenVerbose` | sutter_Lambda_10_3_JLD.py:60-72 | with nothing detected, start-up fails with "no hardware" in verbose mode and otherwise succeeds having written only the query |
| `SessionProperties.HomingFailsWithOnlyWheelB` | sutter_Lambda_10_3_JLD.py:52-76 | with wheel B alone, start-up always fails on the target index |
| `SessionProperties.CloseInvariant` | sutter_Lambda_10_3_JLD.py:180-187 | `close` keeps the invariant |
| `SessionProperties.CloseParks` | sutter_Lambda_10_3_JLD.py:180-185 | a successful `close` parked each wheel, closed each shutter, each confirmed, closed the port and left every target 0 |
| `Lambda103.Port.Write` | sutter_Lambda_10_3_JLD.py:98 | a write on the mutable port is `Session.Write`; a closed port refuses |
| `Lambda103.Port.Read` | sutter_Lambda_10_3_JLD.py:152 | reads at most n buffered bytes and removes them from the buffer |
| `Lambda103.Port.InWaiting` | sutter_Lambda_10_3_JLD.py:158 | `in_waiting` is 0 exactly when nothing is buffered |
| `Lambda103.Port.ReadLine` | sutter_Lambda_10_3_JLD.py:32 | returns and removes the whole buffered reply |
| `Lambda103.Controller.Attach` | sutter_Lambda_10_3_JLD.py:50-74 | the object after parsing: detected channels, no pending command, one zero target per wheel |
| `Lambda103.Controller.Open` | sutter_Lambda_10_3_JLD.py:31-79 | the constructor takes the port through `Session.Connect` and returns a valid controller exactly when that succeeds |
| `Lambda103.Controller.Home` | sutter_Lambda_10_3_JLD.py:75-79 | the homing loops update the object as `Session.Home` says |
| `Lambda103.Controller.ParkWheels` | sutter_Lambda_10_3_JLD.py:75-76 | the wheel loop updates the object as `Session.ParkWheels` says |
| `Lambda103.Controller.PrepareShutters` | sutter_Lambda_10_3_JLD.py:77-79 | the start-up shutter loop updates the object as `Session.PrepareShutters` says |
| `Lambda103.Controller.CloseShutters` | sutter_Lambda_10_3_JLD.py:183-184 | the shut-down shutter loop updates the object as `Session.CloseShutters` says |
| `Lambda103.Controller.FinishMoving` | sutter_Lambda_10_3_JLD.py:149-160 | `_finish_moving` on the object is `Session.Finish` and keeps the invariant |
| `Lambda103.Controller.Send` | sutter_Lambda_10_3_JLD.py:98-99 | with nothing pending, write then record as pending, as `Session.Send` says, keeping the invariant |
| `Lambda103.Controller.Move` | sutter_Lambda_10_3_JLD.py:83-103 | `move` on the object is `Session.Move`, keeps the invariant and the detected channels |
| `Lambda103.Controller.ChangeShutter` | sutter_Lambda_10_3_JLD.py:105-125 | `change_shutter` on the object is `Session.ChangeShutter` and keeps the invariant |
| `Lambda103.Controller.SetShutterMode` | sutter_Lambda_10_3_JLD.py:127-147 | `set_shutter_mode` on the object is `Session.SetShutterMode` and keeps the invariant |
| `Lambda103.Controller.Issue` | sutter_Lambda_10_3_JLD.py:121-124 | write-then-maybe-wait on the object, as `Session.Issue` says |
| `Lambda103.Controller.Close` | sutter_Lambda_10_3_JLD.py:180-187 | `close` on the object is `Session.Close` and keeps the invariant |

## Left out

- Opening the port: the device path, the 128000 baud rate and the 5-second timeout, and
  the `IOError` on failing to open. `Controller.Open` receives a port object, and refuses a closed one with `PortClosed`.
- Timing and framing. The device's replies are a given list, one reply per write, each
  arriving as its write is made. `readline` returns the whole buffered reply rather than
  reading up to a newline or a timeout. A short or late echo shows up as a mismatch.
- Printing and the controller name. They change no state. The verbose flag matters only
  for the "no hardware" error.
- Python assertions are assumed enabled. Every validation of the driver is an `assert`,
  and running Python with `-O` removes them all; the model always performs them.
- Python's loose equality. `True == 1` and `1.0 == 1`, so `n2c` and the state check accept
  those too. The model's identifiers are integers and strings only, and positions and
  speeds are integers.
- The wheel and shutter name lists built at lines 58-59. They are only printed, and `c2n`
  cannot fail on a detected channel.
- The demonstration script at the end of the file.
