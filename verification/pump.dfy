/** The peristaltic pump driver: which command each operation sends, the
    guards that refuse an operation before anything reaches the bus, and
    the motor instruction codes. */
module Pump {
  import opened Results
  import opened Bus
  import opened Transport
  import opened Protocol
  import opened Facade

  /** The motor instructions, one keypad key each. */
  datatype Instruction = Forward | Stop | Backwards | Faster | Slower | Rabbit

  /** The byte value of each instruction. */
  function InstructionByte(i: Instruction): (b: Byte)
    ensures 0x26 <= b <= 0x48
  {
    match i
    case Forward => 0x3E
    case Stop => 0x48
    case Backwards => 0x3C
    case Faster => 0x2B
    case Slower => 0x2D
    case Rabbit => 0x26
  }

  /** The instruction a byte stands for, if any. */
  function InstructionOf(b: Byte): (r: Option<Instruction>)
    ensures r.Some? ==> InstructionByte(r.value) == b
  {
    if b == 0x3E then Some(Forward)
    else if b == 0x48 then Some(Stop)
    else if b == 0x3C then Some(Backwards)
    else if b == 0x2B then Some(Faster)
    else if b == 0x2D then Some(Slower)
    else if b == 0x26 then Some(Rabbit)
    else None
  }

  /** Every instruction has its own byte, and the byte gives it back. */
  lemma InstructionRoundTrip(i: Instruction, j: Instruction)
    ensures InstructionOf(InstructionByte(i)) == Some(i)
    ensures InstructionByte(i) == InstructionByte(j) ==> i == j
  {
  }

  /** The pump's modes; only the keyboard mode is told apart from the rest. */
  datatype Mode = Keyboard | Remote

  /** The read-only queries, each one immediate command. */
  datatype Query = Status | DisplayText | PreviousKeyPress | AnalogueInput | ContactInput

  /** A buffered command: its command character and parameter text. */
  datatype Command = Command(code: char, parameters: Option<string>)

  /** The immediate command character of each query. */
  function QueryCode(q: Query): (c: char)
    ensures IsNarrow(c)
  {
    match q
    case Status => '?'
    case DisplayText => 'R'
    case PreviousKeyPress => 'K'
    case AnalogueInput => 'V'
    case ContactInput => 'I'
  }

  /** Distinct queries send distinct commands. */
  lemma QueryCodesDistinct(p: Query, q: Query)
    ensures QueryCode(p) == QueryCode(q) ==> p == q
  {
  }

  /** SetPumpSpeedAsync: a speed in hundredths of a revolution per minute,
      and its text as the device receives it. */
  function SpeedCommand(speed: real, speedText: string): (r: Result<Command>)
    ensures r.Err? <==> speed < 0.0 || speed > 4800.0
    ensures r.Err? ==> r.fault == SpeedOutOfRange
    ensures r.Ok? ==> r.value.code == 'R' && r.value.parameters == Some(speedText)
  {
    if speed < 0.0 || speed > 4800.0 then Err(SpeedOutOfRange)
    else Ok(Command('R', Some(speedText)))
  }

  /** SetModeAsync. */
  function ModeCommand(mode: Mode): (c: Command)
    ensures c.code == 'S'
    ensures c.parameters == Some("K") <==> mode == Keyboard
    ensures c.parameters == Some("R") <==> mode != Keyboard
  {
    Command('S', Some(if mode == Keyboard then "K" else "R"))
  }

  /** SendMotorInstructionAsync: going backwards must be allowed explicitly. */
  function MotorCommand(i: Instruction, allowReverse: bool): (r: Result<Command>)
    ensures r.Err? <==> i == Backwards && !allowReverse
    ensures r.Err? ==> r.fault == ReverseNotAllowed
    ensures r.Ok? ==>
      r.value.code == 'K' && r.value.parameters.Some? &&
      |r.value.parameters.value| == 1 &&
      r.value.parameters.value[0] as int == InstructionByte(i)
  {
    if !allowReverse && i == Backwards then Err(ReverseNotAllowed)
    else Ok(Command('K', Some([ToChar(InstructionByte(i))])))
  }

  /** On the wire, a motor instruction is the frame LF 'K' code CR. */
  lemma MotorFrame(i: Instruction, allowReverse: bool)
    requires MotorCommand(i, allowReverse).Ok?
    ensures var c := MotorCommand(i, allowReverse).value;
      BufferedRun(c.code, c.parameters) ==
        Run(Ok(()), [LineFeed, 'K' as int, InstructionByte(i), CarriageReturn], 4)
  {
    var c := MotorCommand(i, allowReverse).value;
    var p := c.parameters.value;
    assert !IsNullOrWhiteSpace(c.parameters);
    BufferedFrame(c.code, c.parameters);
    assert Bytes(p) == [InstructionByte(i)];
  }

  /** On the wire, a mode change is the frame LF 'S' 'K' CR or LF 'S' 'R' CR. */
  lemma ModeFrame(mode: Mode)
    ensures var c := ModeCommand(mode);
      BufferedRun(c.code, c.parameters) ==
        Run(Ok(()), [LineFeed, 'S' as int, if mode == Keyboard then 'K' as int else 'R' as int, CarriageReturn], 4)
  {
    var c := ModeCommand(mode);
    var key := c.parameters.value;
    assert key == [if mode == Keyboard then 'K' else 'R'];
    assert !IsWhiteSpace(key[0]);
    assert !IsNullOrWhiteSpace(c.parameters);
    BufferedFrame(c.code, c.parameters);
  }

  /** Issue a guarded buffered command through the device; a refused
      command fails before any traffic. */
  method Issue(dev: Device, c: Result<Command>) returns (r: Result<()>)
    modifies dev.Ports()
    ensures c.Err? ==> r == Err(c.fault) && unchanged(dev.Ports())
    ensures c.Ok? && dev.connection == null ==> r == Err(Disposed)
    ensures c.Ok? && dev.connection != null ==>
      var run := ConnectThenBuffered(dev.deviceId, c.value.code, c.value.parameters, old(dev.connection.port.replies));
      r == run.value &&
      dev.connection.port.written == old(dev.connection.port.written) + run.writes &&
      dev.connection.port.replies == Drop(old(dev.connection.port.replies), run.polls) &&
      dev.connection.port.isOpen
  {
    if c.Err? {
      return Err(c.fault);
    }
    r := dev.ExecuteBuffered(c.value.code, c.value.parameters);
  }

  /** SetPumpSpeedAsync. */
  method SetPumpSpeed(dev: Device, speed: real, speedText: string) returns (r: Result<()>)
    modifies dev.Ports()
    ensures speed < 0.0 || speed > 4800.0 ==> r == Err(SpeedOutOfRange) && unchanged(dev.Ports())
    ensures 0.0 <= speed <= 4800.0 && dev.connection == null ==> r == Err(Disposed)
    ensures 0.0 <= speed <= 4800.0 && dev.connection != null ==>
      var run := ConnectThenBuffered(dev.deviceId, 'R', Some(speedText), old(dev.connection.port.replies));
      r == run.value &&
      dev.connection.port.written == old(dev.connection.port.written) + run.writes &&
      dev.connection.port.replies == Drop(old(dev.connection.port.replies), run.polls) &&
      dev.connection.port.isOpen
  {
    r := Issue(dev, SpeedCommand(speed, speedText));
  }

  /** SetModeAsync. */
  method SetMode(dev: Device, mode: Mode) returns (r: Result<()>)
    modifies dev.Ports()
    ensures dev.connection == null ==> r == Err(Disposed)
    ensures dev.connection != null ==>
      var c := ModeCommand(mode);
      var run := ConnectThenBuffered(dev.deviceId, c.code, c.parameters, old(dev.connection.port.replies));
      r == run.value &&
      dev.connection.port.written == old(dev.connection.port.written) + run.writes &&
      dev.connection.port.replies == Drop(old(dev.connection.port.replies), run.polls) &&
      dev.connection.port.isOpen
  {
    r := Issue(dev, Ok(ModeCommand(mode)));
  }

  /** SendMotorInstructionAsync. */
  method SendMotorInstruction(dev: Device, i: Instruction, allowReverse: bool) returns (r: Result<()>)
    modifies dev.Ports()
    ensures i == Backwards && !allowReverse ==> r == Err(ReverseNotAllowed) && unchanged(dev.Ports())
    ensures (i != Backwards || allowReverse) && dev.connection == null ==> r == Err(Disposed)
    ensures (i != Backwards || allowReverse) && dev.connection != null ==>
      var c := MotorCommand(i, allowReverse).value;
      var run := ConnectThenBuffered(dev.deviceId, c.code, c.parameters, old(dev.connection.port.replies));
      r == run.value &&
      dev.connection.port.written == old(dev.connection.port.written) + run.writes &&
      dev.connection.port.replies == Drop(old(dev.connection.port.replies), run.polls) &&
      dev.connection.port.isOpen
  {
    r := Issue(dev, MotorCommand(i, allowReverse));
  }

  /** GetStatusAsync, GetDisplayTextAsync, GetPreviousKeyPressAsync,
      ReadAnalogueInputStatusAsync and ReadContactInputStatusAsync: one
      immediate command, whose text is returned unchanged. */
  method Ask(dev: Device, q: Query) returns (r: Result<string>)
    modifies dev.Ports()
    ensures dev.connection == null ==> r == Err(Disposed)
    ensures dev.connection != null ==>
      var run := ConnectThenImmediate(dev.deviceId, QueryCode(q), old(dev.connection.port.replies));
      (r.Ok? <==> run.value.Ok?) &&
      (r.Ok? ==> r.value == Text(run.value.value)) &&
      (r.Err? ==> r.fault == run.value.fault) &&
      dev.connection.port.written == old(dev.connection.port.written) + run.writes &&
      dev.connection.port.replies == Drop(old(dev.connection.port.replies), run.polls) &&
      dev.connection.port.isOpen
  {
    var reply := dev.ExecuteImmediate(QueryCode(q));
    if reply.Err? {
      return Err(reply.fault);
    }
    r := Ok(reply.value.text);
  }
}
