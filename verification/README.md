# GSIOC master in Dafny

This project models the master side of Gilson's GSIOC serial bus, as the
GilsonSdk driver implements it. It covers:

- the protocol engine, which addresses devices, runs immediate and buffered
  commands, and scans the bus;
- the device facade, which always connects to its own device id before a
  command;
- the command mapping and guards of the peristaltic pump;
- the reply parsers and motor-status polling loop of the liquid handler.

The serial port is a scripted transport (`Transport.SerialPort`). It holds:

- `replies`, one entry per poll, where an empty entry means "no bytes
  available";
- `written`, a log of every byte written;
- an `isOpen` flag.

Each exchange is described twice:

- as a pure run function in `Protocol` (or `LiquidHandler.WaitRun`). The
  run gives the result, the exact bytes written and the number of polls
  made.
- as an imperative method (`Engine.Connection`, `Facade.Device`,
  `LiquidHandler`). Its postcondition ties the result and the new port state
  to that run function.

Lemmas about the run functions state what the protocol promises. Examples:
the connect handshake's exact outcome, the shape of an immediate reply, the
frame of a buffered command, and the order and contents of a bus scan.

Files:

- `results.dfy`: `Option`, `Result` and the faults. Each fault stands for an
  exception the driver would throw.
- `bus.dfy`: bytes, the address frame, the end-of-message bit, and char/byte
  conversion.
- `transport.dfy`: the scripted serial port.
- `protocol.dfy`: the run functions and their properties.
- `engine.dfy`: `GilsonDevice.cs`, the connection class.
- `facade.dfy`: `GilsonGSIOCDevice.cs`.
- `pump.dfy`: `Pump.cs` and the instruction byte values.
- `strings.dfy`: the .NET string operations the parsers use (`IndexOf`,
  `Split`, `int.Parse`).
- `liquid_handler.dfy`: `LiquidHandler.cs`.

Behaviour the model reproduces on purpose:

- Address 0 doubles as the "not found" value. `ConnectAsync` on id 0 returns
  0 whether or not the device answered, so neither scan can ever report
  device 0. `Protocol.AllFromAscending` states that found ids are never 0.
- An immediate reply whose first poll is empty has no last byte. The code
  then throws at `data.Last()` (`GilsonDevice.cs:205`). The model follows the
  code: the result is `Err(EmptyResponse)`.
- A one-byte motor status `0xD5` loses bit 7 and reads as `'U'` (0x55). So
  the `0xD5` exit of the wait loop can only fire on replies of two bytes or
  more.

## Model

| member | source | states |
|---|---|---|
| Bus.WireAddress | GilsonSdk/GilsonDevice.cs:124 | The address frame has bit 7 set, lies in 0x80..0xBF and carries the low six bits of the id |
| Bus.MaskIsArithmetic | GilsonSdk/GilsonDevice.cs:124 | `(x & 0x3F) \| 0x80` on an 8-bit value equals the arithmetic `x % 64 + 128` used by the model |
| Bus.WireAddressAliases | GilsonSdk/GilsonDevice.cs:124 | `id` and `id + 64` (as a byte) give the same frame, and so does the id's low six bits |
| Bus.WireAddressRoundTrip | GilsonSdk/GilsonDevice.cs:124 | On the 6-bit address space the frame decodes back to the address, and distinct addresses have distinct frames |
| Bus.ClearLastCharacterBit | GilsonSdk/GilsonDevice.cs:205-214 | The last reply byte loses bit 7 exactly when it is above 127 and is otherwise unchanged |
| Bus.ClearIsArithmetic | GilsonSdk/GilsonDevice.cs:209 | `x & ~0x80` on a byte above 127 is `x - 128` |
| Bus.ToByte | GilsonSdk/GilsonDevice.cs:179 | Convert.ToByte of a character below 256 is its code |
| Bus.Bytes | GilsonSdk/GilsonDevice.cs:267-271 | The parameter bytes are the character codes, in order, one per character |
| Bus.IsWhiteSpace | GilsonSdk/GilsonDevice.cs:265 | The characters char.IsWhiteSpace accepts: U+0009..U+000D, the space, U+0085, U+00A0 and the Unicode space, line and paragraph separators |
| Bus.Text | GilsonSdk/GilsonGSIOCDevice.cs:63 | The string value of a reply has one character per byte, with that byte's code |
| Bus.BytesOfText | GilsonSdk/GilsonGSIOCDevice.cs:63 | Writing a reply's text back gives the same bytes |
| Transport.SerialPort.Open | GilsonSdk/GilsonDevice.cs:75 | Opening sets the flag and touches neither the log nor the script |
| Transport.SerialPort.Write | GilsonSdk/GilsonDevice.cs:109 | A write appends exactly its byte to the log |
| Transport.SerialPort.Poll | GilsonSdk/GilsonDevice.cs:130-134 | BytesToRead-then-Read consumes one poll of the script and returns its bytes (none once the script is exhausted) |
| Protocol.ConnectRun | GilsonSdk/GilsonDevice.cs:119-166 | Connect returns 0 or the id, writes the address frame once or twice, and polls once per write |
| Protocol.ConnectOutcome | GilsonSdk/GilsonDevice.cs:126-165 | Connect returns the id exactly when the first reply starts with the frame, or starts with 0xFE and the second reply starts with the frame. It returns 0 otherwise. The frame is repeated exactly after a 0xFE |
| Protocol.Finish | GilsonSdk/GilsonDevice.cs:205-214 | An empty reply fails. Otherwise every byte but the last is kept and the last loses its end-of-message bit |
| Protocol.Chunks | GilsonSdk/GilsonDevice.cs:188-202 | The replies the read loop keeps: every poll up to the first empty one, never more than the script holds |
| Protocol.Concat | GilsonSdk/GilsonDevice.cs:198 | The kept replies appended to the data in arrival order |
| Protocol.ImmediateRun | GilsonSdk/GilsonDevice.cs:173-221 | A command character above 0xFF fails with CharOverflow before any traffic. Otherwise the command byte is written, then 0x06 after each kept reply, with one poll per write |
| Protocol.ChunksArePrefix | GilsonSdk/GilsonDevice.cs:188-202 | The chunks kept are exactly the non-empty polls in front of the first empty poll |
| Protocol.ImmediateReply | GilsonSdk/GilsonDevice.cs:188-220 | The reply is the received chunks concatenated in arrival order, with only the last byte's bit 7 cleared. It fails with EmptyResponse exactly when the first poll is empty |
| Protocol.ImmediateTraffic | GilsonSdk/GilsonDevice.cs:184-216 | The command byte is written first, then one 0x06 per non-empty poll. The exchange stops at the first empty poll |
| Protocol.ChunksStep | GilsonSdk/GilsonDevice.cs:192-217 | One poll of the loop: an empty poll ends the reply, a non-empty one is appended |
| Protocol.ImmediateExample | GilsonSdk/GilsonDevice.cs:173-221 | The replies "AB", then 'C' with bit 7 set, then silence give "ABC", with the command byte and two acknowledgements written |
| Protocol.ImmediateConsumes | GilsonSdk/GilsonDevice.cs:188-218 | A successful immediate exchange consumes at least one poll of the script |
| Protocol.NarrowPrefix | GilsonSdk/GilsonDevice.cs:269-271 | The parameter characters sent before Convert.ToByte fails are exactly the leading characters below 256 |
| Protocol.IsNullOrWhiteSpace | GilsonSdk/GilsonDevice.cs:265 | string.IsNullOrWhiteSpace: no parameters, or only white-space characters |
| Protocol.Payload | GilsonSdk/GilsonDevice.cs:265-267 | The parameter characters that are sent: none when the parameters are null or blank, all of them otherwise |
| Protocol.BufferedRun | GilsonSdk/GilsonDevice.cs:228-306 | Succeeds or fails with CharOverflow. A narrow command starts the frame with LF and the command byte, a success ends it with CR, and every write is followed by one drain poll |
| Protocol.BufferedFrame | GilsonSdk/GilsonDevice.cs:237-304 | A buffered command writes exactly LF, the command byte, each parameter character in order, then CR, with one drain after each write |
| Protocol.BufferedBlankParameters | GilsonSdk/GilsonDevice.cs:265 | Missing or white-space-only parameters are not sent: the frame is LF, command, CR |
| Protocol.BufferedOverflow | GilsonSdk/GilsonDevice.cs:265-287 | The first parameter character above 0xFF aborts the command with CharOverflow. LF, the command byte and every character before it have been written, each followed by its drain, and CR never is |
| Protocol.ConnectThenImmediate | GilsonSdk/GilsonGSIOCDevice.cs:63-68 | The facade's immediate command: traffic starts with the device's address frame, and every write is followed by one poll |
| Protocol.ConnectThenBuffered | GilsonSdk/GilsonGSIOCDevice.cs:75-80 | The facade's buffered command: traffic starts with the device's address frame, and every write is followed by one poll |
| Protocol.ConnectThenImmediateConsumes | GilsonSdk/GilsonGSIOCDevice.cs:63-68 | A successful connect-then-immediate consumes at least one poll |
| Protocol.ConnectThenImmediateOrder | GilsonSdk/GilsonGSIOCDevice.cs:63-68 | The facade writes the address frame (once or twice) before the command byte. The immediate exchange runs and gives its value whatever the connect returned |
| Protocol.ConnectThenBufferedOrder | GilsonSdk/GilsonGSIOCDevice.cs:75-80 | The facade writes the address frame, then exactly the buffered frame of the unchanged command and parameters |
| Protocol.ProbeId | GilsonSdk/GilsonDevice.cs:318 | Scan position p probes id p & 0x3F: p itself below 64, and 0 at position 64 |
| Protocol.FirstFrom | GilsonSdk/GilsonDevice.cs:316-335 | The search from one position: probe it and stop with a disconnect when it confirms, else go on with the next position; 0 past position 64 |
| Protocol.AllFrom | GilsonSdk/GilsonDevice.cs:350-363 | The sweep from one position to 64: every position probed and reported, the confirmed ids kept in order |
| Protocol.FindFirst | GilsonSdk/GilsonDevice.cs:314-338 | FindFirstDeviceAsync: the search from the start position |
| Protocol.FindAll | GilsonSdk/GilsonDevice.cs:346-369 | FindAllDevicesAsync: the sweep from the start position, then one 0xFF |
| Protocol.AllLoopSplits | GilsonSdk/GilsonDevice.cs:350-364 | The accumulating loop of FindAllDevicesAsync equals what was gathered followed by the sweep over the remaining positions |
| Protocol.AllLoopStart | GilsonSdk/GilsonDevice.cs:346-364 | Started with nothing gathered, the loop of FindAllDevicesAsync does exactly the sweep |
| Protocol.FirstLoopSplits | GilsonSdk/GilsonDevice.cs:316-335 | The loop of FindFirstDeviceAsync equals what was gathered followed by the search over the remaining positions |
| Protocol.AscendingCons | GilsonSdk/GilsonDevice.cs:358-360 | A found id at the current position, in front of later finds, keeps the list ascending |
| Protocol.AscendingWeaken | GilsonSdk/GilsonDevice.cs:350 | Ids ascending from one position are ascending from the position before |
| Protocol.AllFromAscending | GilsonSdk/GilsonDevice.cs:350-361 | Found ids are strictly ascending in probe order, between the start position and 63, and never 0 |
| Protocol.PositionsAt | GilsonSdk/GilsonDevice.cs:350-354 | The progress ids are every position from the start to 64, once each, in order, masked to six bits |
| Protocol.AllFromProgress | GilsonSdk/GilsonDevice.cs:354 | The progress callback of the full sweep is called once per position with that position's masked id |
| Protocol.AllFromWritesAddresses | GilsonSdk/GilsonDevice.cs:350-363 | A sweep writes nothing but address frames |
| Protocol.FramesJoin | GilsonSdk/GilsonDevice.cs:356 | Address frames followed by address frames are all address frames |
| Protocol.FramesExcludeDisconnect | GilsonSdk/GilsonDevice.cs:104 | An address frame is never the disconnect byte 0xFF |
| Protocol.NotInJoin | GilsonSdk/GilsonDevice.cs:322 | A byte absent from two logs is absent from their concatenation |
| Protocol.FindAllDisconnectsOnce | GilsonSdk/GilsonDevice.cs:366 | FindAllDevicesAsync writes 0xFF exactly once, as its last byte |
| Protocol.FirstIsHeadOfAll | GilsonSdk/GilsonDevice.cs:316-337 | FindFirstDeviceAsync returns the first id the full sweep would find (0 when none), after probing a prefix of the same positions |
| Protocol.PrefixCons | GilsonSdk/GilsonDevice.cs:320 | Reporting the same id in front keeps one progress log a prefix of the other |
| Protocol.FirstFromDisconnect | GilsonSdk/GilsonDevice.cs:325-330 | FindFirstDeviceAsync writes 0xFF once, last, and only when it found a device |
| Engine.Connection.constructor | GilsonSdk/GilsonDevice.cs:49-52 | The connection owns the given port |
| Engine.Connection.EnsurePortOpen | GilsonSdk/GilsonDevice.cs:88-92 | The port is open afterwards and nothing is written or read |
| Engine.Connection.DisconnectDevices | GilsonSdk/GilsonDevice.cs:100-112 | Writes exactly 0xFF and reads nothing |
| Engine.Connection.Connect | GilsonSdk/GilsonDevice.cs:119-166 | Returns, writes and polls exactly as ConnectRun on the current script |
| Engine.Connection.ExecuteImmediate | GilsonSdk/GilsonDevice.cs:173-221 | Returns, writes and polls exactly as ImmediateRun. The last byte is overwritten in place |
| Engine.Connection.ReceiveReply | GilsonSdk/GilsonDevice.cs:188-218 | The polling loop returns the concatenated chunks, writes one 0x06 per chunk, and consumes the chunks and the empty poll |
| Engine.Connection.ExecuteBuffered | GilsonSdk/GilsonDevice.cs:228-306 | Returns, writes and polls exactly as BufferedRun |
| Engine.Connection.SendAndDrain | GilsonSdk/GilsonDevice.cs:237-249 | One byte written, then one poll whose bytes are discarded |
| Engine.Connection.SendParameters | GilsonSdk/GilsonDevice.cs:265-287 | Writes the leading characters below 256 in order, each followed by a drain, and returns how many were written |
| Engine.Connection.FindFirstDevice | GilsonSdk/GilsonDevice.cs:314-338 | Returns, reports progress, writes and polls exactly as FindFirst; the port is open afterwards exactly when it was before or the start position is at most 64 |
| Engine.Connection.ProbeForFirst | GilsonSdk/GilsonDevice.cs:318-330 | One position: reports the masked id and connects. A confirmed device is disconnected and the search ends with it. Otherwise the search goes on at the next position, with this position's traffic added; the port is open afterwards |
| Engine.Connection.FindAllDevices | GilsonSdk/GilsonDevice.cs:346-369 | Returns, reports progress, writes and polls exactly as FindAll |
| Engine.Connection.Sweep | GilsonSdk/GilsonDevice.cs:350-364 | The loop over the positions does exactly the sweep AllFrom describes, before the final disconnect; the port is open afterwards exactly when it was before or the start position is at most 64 |
| Engine.Connection.ProbeForAll | GilsonSdk/GilsonDevice.cs:352-361 | One position: reports the masked id, connects, and appends the result when it is nonzero. The sweep goes on at the next position, with this position's traffic added; the port is open afterwards |
| Engine.Connection.ResetDevice | GilsonSdk/GilsonDevice.cs:376-385 | Connect, then immediate '$': result and traffic of ConnectThenImmediate; the port is left open |
| Engine.Connection.GetModuleInfo | GilsonSdk/GilsonDevice.cs:392-401 | Connect, then immediate '%': result and traffic of ConnectThenImmediate; the port is left open |
| Facade.ReplyOf | GilsonSdk/GilsonGSIOCDevice.cs:63 | The facade reply keeps the bytes and their text, character for byte |
| Facade.AsReply | GilsonSdk/GilsonGSIOCDevice.cs:63-68 | An immediate result becomes a reply on success, and its fault passes through unchanged |
| Facade.Device.constructor | GilsonSdk/GilsonGSIOCDevice.cs:31-35 | Stores the device id (a constant afterwards) and the connection |
| Facade.Device.Connect | GilsonSdk/GilsonGSIOCDevice.cs:44 | Connects with the stored id; on a live connection the port is left open, after Dispose the call fails with Disposed |
| Facade.Device.GetModuleInfo | GilsonSdk/GilsonGSIOCDevice.cs:50 | Module info with the stored id; on a live connection the port is left open, after Dispose the call fails with Disposed |
| Facade.Device.ResetDevice | GilsonSdk/GilsonGSIOCDevice.cs:56 | Reset with the stored id; on a live connection the port is left open, after Dispose the call fails with Disposed |
| Facade.Device.ExecuteImmediate | GilsonSdk/GilsonGSIOCDevice.cs:63-68 | Always connects with the stored id, then runs the immediate command whatever the connect returned; on a live connection the port is left open, after Dispose the call fails with Disposed |
| Facade.Device.ExecuteBuffered | GilsonSdk/GilsonGSIOCDevice.cs:75-80 | Always connects with the stored id, then forwards the command and parameters unchanged; on a live connection the port is left open, after Dispose the call fails with Disposed |
| Facade.Device.Dispose | GilsonSdk/GilsonGSIOCDevice.cs:82-85 | Drops the connection reference and leaves the transport untouched |
| Pump.InstructionByte | GilsonSdk/Enums/PumpDirection.cs:9-14 | The six instruction byte values, all in 0x26..0x48 |
| Pump.InstructionOf | GilsonSdk/Enums/PumpDirection.cs:9-14 | Decoding a byte gives an instruction whose byte it is |
| Pump.InstructionRoundTrip | GilsonSdk/Enums/PumpDirection.cs:9-14 | Every instruction has its own byte, and the byte decodes back to it |
| Pump.QueryCode | GilsonSdk/Pump.cs:40-129 | Each query is one immediate command character that fits in a byte |
| Pump.QueryCodesDistinct | GilsonSdk/Pump.cs:40-129 | The five queries send distinct commands ('?', 'R', 'K', 'V', 'I') |
| Pump.SpeedCommand | GilsonSdk/Pump.cs:63-71 | Refused exactly when the speed is below 0 or above 4800. Otherwise buffered 'R' with the speed's text |
| Pump.ModeCommand | GilsonSdk/Pump.cs:77-83 | Buffered 'S' with "K" exactly for the keyboard mode and "R" for any other |
| Pump.MotorCommand | GilsonSdk/Pump.cs:92-100 | Refused exactly for Backwards without allowReverse. Otherwise buffered 'K' with one character whose code is the instruction byte |
| Pump.MotorFrame | GilsonSdk/Pump.cs:97-99 | On the wire a motor instruction is LF 'K' code CR |
| Pump.ModeFrame | GilsonSdk/Pump.cs:79-81 | On the wire a mode change is LF 'S' 'K' CR or LF 'S' 'R' CR |
| Pump.Issue | GilsonSdk/Pump.cs:65-70 | A refused command fails before any traffic. An accepted one goes through the facade's buffered path; on a live connection an issued command leaves the port open |
| Pump.SetPumpSpeed | GilsonSdk/Pump.cs:63-71 | An out-of-range speed fails with no traffic. Otherwise connect, then buffered 'R' with the speed text, or Disposed after Dispose; on a live connection an issued command leaves the port open |
| Pump.SetMode | GilsonSdk/Pump.cs:77-83 | Connect, then buffered 'S' with the mode key, or Disposed after Dispose; on a live connection an issued command leaves the port open |
| Pump.SendMotorInstruction | GilsonSdk/Pump.cs:92-100 | Backwards without allowReverse fails with no traffic. Otherwise connect, then buffered 'K' with the instruction character, or Disposed after Dispose; on a live connection an issued command leaves the port open |
| Pump.Ask | GilsonSdk/Pump.cs:40-129 | Each query issues one immediate command and returns its string value unchanged, or Disposed after Dispose; on a live connection an issued command leaves the port open |
| Strings.IndexOf | GilsonSdk/LiquidHandler.cs:87-97 | The first position of the character, or -1 exactly when it is absent |
| Strings.Split | GilsonSdk/LiquidHandler.cs:180 | At least one piece. No piece contains the separator, and there is one piece exactly when the separator is absent |
| Strings.JoinSplit | GilsonSdk/LiquidHandler.cs:180 | Splitting loses nothing: joining the pieces with the separator gives the string back |
| Strings.SplitJoin | GilsonSdk/LiquidHandler.cs:155 | Separator-free pieces come back out of a split of their join |
| Strings.SplitAfter | GilsonSdk/LiquidHandler.cs:155 | A separator-free head in front of a separator is the first piece |
| Strings.IndexOfAfter | GilsonSdk/LiquidHandler.cs:95 | A character missing from the head is first found right after it |
| Strings.TrimStart | GilsonSdk/LiquidHandler.cs:91 | int.Parse skips exactly the leading white space |
| Strings.TrimEnd | GilsonSdk/LiquidHandler.cs:91 | int.Parse skips exactly the trailing white space |
| Strings.ParseInt | GilsonSdk/LiquidHandler.cs:91 | int.Parse succeeds only with a 32-bit value |
| Strings.ShowNat | GilsonSdk/LiquidHandler.cs:91 | Decimal digits without leading zeros whose value is the number |
| Strings.ParseShowInt | GilsonSdk/LiquidHandler.cs:99 | Every 32-bit value, written in decimal, parses back to itself |
| Strings.ParseIgnoresPadding | GilsonSdk/LiquidHandler.cs:99 | White space around the number does not change what int.Parse reads |
| LiquidHandler.StatusQuery | GilsonSdk/LiquidHandler.cs:47 | A successful motor-status query returns at least one byte |
| LiquidHandler.Settled | GilsonSdk/LiquidHandler.cs:53-64 | A status ends the wait when it starts with 'E', 'U' or the wanted status, or when its first byte is 0xD5 |
| LiquidHandler.SettledReadsByte | GilsonSdk/LiquidHandler.cs:56 | On a reply's text, the 0xD5 test is the test of the reply's first byte |
| LiquidHandler.WaitRun | GilsonSdk/LiquidHandler.cs:45-72 | The wait: query 'M' until a status settles. Each status is reported, and a failed query ends the wait with its fault |
| LiquidHandler.WaitSettles | GilsonSdk/LiquidHandler.cs:47-71 | The wait returns the first status that starts with 'E', 'U', the wanted status or 0xD5, which is also the last reported. Every earlier status was unsettled, and a failure follows unsettled statuses only |
| LiquidHandler.ReportedAfter | GilsonSdk/LiquidHandler.cs:62 | An unsettled status reported in front keeps the report well formed |
| LiquidHandler.WaitStep | GilsonSdk/LiquidHandler.cs:56-69 | One query of the wait: a failure ends it, a settled status ends it with that status, and otherwise it continues |
| LiquidHandler.WaitForMotorStatus | GilsonSdk/LiquidHandler.cs:45-72 | Result, callback statuses and traffic are exactly those of WaitRun on the current script; on a live connection the port is left open |
| LiquidHandler.WaitConnected | GilsonSdk/LiquidHandler.cs:47-55 | The first query, its 'E'/'U' check, then the loop: exactly WaitRun; on a live connection the port is left open |
| LiquidHandler.AwaitStatus | GilsonSdk/LiquidHandler.cs:56-71 | The polling loop completes the wait it was started in; on a live connection the port is left open |
| LiquidHandler.QueryStatus | GilsonSdk/LiquidHandler.cs:59-62 | One 'M' query advances the wait by one step and, on success, consumes part of the script; on a live connection the port is left open |
| LiquidHandler.QueryStep | GilsonSdk/LiquidHandler.cs:59-60 | A successful status query consumes part of the script, and its polls and writes extend the wait's running totals |
| LiquidHandler.CodeSegment | GilsonSdk/LiquidHandler.cs:87-95 | The whole output without a CR. Otherwise exactly what follows the first CR |
| LiquidHandler.CodeText | GilsonSdk/LiquidHandler.cs:89-97 | Fails exactly when the segment has no space. Otherwise the segment up to its first space |
| LiquidHandler.ErrorNumber | GilsonSdk/LiquidHandler.cs:79-104 | Succeeds exactly when the code text parses, and the message is the whole output unchanged. The failure says which step threw |
| LiquidHandler.ErrorNumberOneLine | GilsonSdk/LiquidHandler.cs:87-92 | A one-line reply "<code> <text>" gives the code back, with the whole output as the message |
| LiquidHandler.ErrorNumberAfterReturn | GilsonSdk/LiquidHandler.cs:93-100 | After a CR, "<code> <text>" gives the code back whatever preceded the CR |
| LiquidHandler.CodeOfLine | GilsonSdk/LiquidHandler.cs:97-99 | The text before the first space of "<code> <text>" is the written code and parses to it |
| LiquidHandler.NoSpaceOrReturnInNumber | GilsonSdk/LiquidHandler.cs:97 | A written integer holds no space and no CR |
| LiquidHandler.XYPosition | GilsonSdk/LiquidHandler.cs:150-162 | (Default, Default), the untouched zeros, exactly when there is no '/'. Otherwise x is the text before the first '/' and y a '/'-free field |
| LiquidHandler.XYPositionRoundTrip | GilsonSdk/LiquidHandler.cs:153-158 | Reading "x/y" gives x and y back |
| LiquidHandler.XYPositionIgnoresRest | GilsonSdk/LiquidHandler.cs:155-158 | Whatever follows a second '/' is ignored |
| LiquidHandler.Layout | GilsonSdk/LiquidHandler.cs:130-135 | The move parameter "x:xspeed/y:yspeed" from the four number texts |
| LiquidHandler.LayoutSplits | GilsonSdk/LiquidHandler.cs:135 | "x:xspeed/y:yspeed" splits back into its four numbers |
| LiquidHandler.NotInConcat | GilsonSdk/LiquidHandler.cs:135 | A character absent from three texts is absent from their concatenation |
| LiquidHandler.AxisOf | GilsonSdk/LiquidHandler.cs:184-216 | A token sets X exactly when it holds '=' and starts with X/x, and sets Y exactly when it holds '=' and starts with Y/y |
| LiquidHandler.BoundsOf | GilsonSdk/LiquidHandler.cs:186-198 | The bounds are the defaults exactly when the text after the first '=' has no '/' |
| LiquidHandler.FieldBounds | GilsonSdk/LiquidHandler.cs:191-197 | The defaults exactly when the text after the '=' has no '/'; otherwise its first two '/'-fields |
| LiquidHandler.BoundsOfFields | GilsonSdk/LiquidHandler.cs:189-197 | A token "name=min/max" gives Parsed(min) and Parsed(max) |
| LiquidHandler.BoundsOfIgnoresRest | GilsonSdk/LiquidHandler.cs:193-196 | Whatever follows a second '/' after the '=' is ignored |
| LiquidHandler.BoundsOfSplit | GilsonSdk/LiquidHandler.cs:189-196 | The bounds of "name=rest" are the first two '/'-fields of rest |
| LiquidHandler.TokenBounds | GilsonSdk/LiquidHandler.cs:186-198 | The loop body's temporaries hold exactly the bounds of the token |
| LiquidHandler.LastFor | GilsonSdk/LiquidHandler.cs:182-218 | The bounds of an axis after the tokens in order: the last token for that axis decides, and none leaves the defaults |
| LiquidHandler.LastForStep | GilsonSdk/LiquidHandler.cs:182-216 | One more token decides the axis it sets and leaves the other axis alone |
| LiquidHandler.LastForIsLast | GilsonSdk/LiquidHandler.cs:182-218 | A later token for an axis overrides every earlier one |
| LiquidHandler.LastForUnset | GilsonSdk/LiquidHandler.cs:175-178 | An axis no token sets keeps its defaults |
| LiquidHandler.TravelRangeOf | GilsonSdk/LiquidHandler.cs:175-220 | The reply split at spaces; each axis takes the bounds of its last token |
| LiquidHandler.ParseTravelRange | GilsonSdk/LiquidHandler.cs:175-220 | The token loop computes exactly TravelRangeOf of the output |
| LiquidHandler.GetErrorNumber | GilsonSdk/LiquidHandler.cs:79-104 | Connect, then immediate 'e', then ErrorNumber of its text; on a live connection the port is left open |
| LiquidHandler.GetXYPosition | GilsonSdk/LiquidHandler.cs:144-163 | Connect, then immediate 'P', then XYPosition of its text; on a live connection the port is left open |
| LiquidHandler.GetTravelRange | GilsonSdk/LiquidHandler.cs:169-221 | Connect, then immediate 'Q', then the travel range of its text; on a live connection the port is left open |
| LiquidHandler.ClearError | GilsonSdk/LiquidHandler.cs:109-112 | Connect, then buffered 'e' with no parameters; on a live connection the port is left open |
| LiquidHandler.GoHome | GilsonSdk/LiquidHandler.cs:116-119 | Connect, then buffered 'H' with no parameters; on a live connection the port is left open |
| LiquidHandler.GoToXYPosition | GilsonSdk/LiquidHandler.cs:128-138 | Connect, then buffered 'X' with the layout "x:xspeed/y:yspeed"; on a live connection the port is left open |

## Left out

- Serial configuration and line control are not modelled: the port constructors, RtsEnabled/DtrEnabled, and closing the port in the engine's Dispose. Only the `isOpen` flag that EnsurePortOpen consults is kept.
- `Task.Delay`, `async` and `await` are not modelled. Operations run sequentially and every delay is a no-op. Timing is replaced by the reply script: one poll sees one script entry. The immediate loop ends because the script is finite, just as the code has no timeout of its own.
- Transport failures (exceptions from Write or Read) are not modelled.
- Every read sizes its buffer with one `BytesToRead` and then reads `BytesToRead` bytes again (GilsonDevice.cs:132-134, 147-149, 194-196 and the drains). If bytes arrive between the two reads, Read throws. The scripted port answers both from one poll entry, so this race is not modelled.
- `Encoding.GetString` in ResetDeviceAsync and GetModuleInfoAsync is left out, so both return the reply bytes.
- The `StringValue` of a reply comes from GSIOCConnection, which is not part of this model. It is taken to be one character per byte with the byte's code (`Bus.Text`).
- Floating-point formatting and parsing are left out: `speedRpm.ToString()`, `ToString("F3")` and `double.TryParse`. The caller supplies the text of each number. A parsed field is kept as the text it was read from (`LiquidHandler.Number`). `Default` stands for a field that was never parsed, which holds 0.
- Pump.SpeedCommand takes the speed as a real, so the .NET NaN case is left out. NaN passes both comparisons of the guard.
- PumpMode's definition is not part of this model. Only the keyboard mode is told apart from the rest, as SetModeAsync does.
- Strings.ParseInt models `int.Parse` under the default integer style only: white space, an optional sign, decimal digits and the 32-bit range. Culture rules, trailing NULs and the exception types are left out, and failure is `Err(BadNumber)`.
- String searches are ordinal: culture-sensitive comparison in `IndexOf("\r")`, `IndexOf(" ")` and `IndexOf("=")` is left out.
- Default argument values are not modelled as such: callers pass them. They are `startPos = 0` and no progress callback (GilsonDevice.cs:314, 346), `parameters = null` (GilsonDevice.cs:228, GilsonGSIOCDevice.cs:75), no status callback (LiquidHandler.cs:45), `xspeed = yspeed = 100` (LiquidHandler.cs:128) and `allowReverse = false` (Pump.cs:92).
- LiquidHandler.WaitForMotorStatus returns the statuses it would hand to the optional callback, whether or not a callback is given. The unused `deviceId` parameter is left out, and so is `queryDelay`, which only adds a `Task.Delay` between queries.
- The `ExecuteImmediateCommandAsync('M', false)` call at LiquidHandler.cs:59 is modelled as the one-argument facade call: connect, then immediate 'M' (`LiquidHandler.StatusQuery`). The shown base class has no two-argument overload.
- The progress callback receives the scanned id as a number rather than its formatted text.
- The liquid handler and pump drivers take the device object as a parameter instead of inheriting from it.
- A thrown exception becomes an `Err` value. This covers a character that Convert.ToByte rejects, an empty immediate reply, a missing space or a bad number in the error reply, a refused pump command, and a call on a disposed device (whose connection reference is null).
- GSIOCDeviceInfo and the WPF tester application are not part of this model.
