/** The device object the pump and liquid-handler drivers build on: a fixed
    device id and a reference to the shared connection.  Every call goes
    through the connection with the stored id; the command methods connect
    first.  Once disposed, the reference is gone and every call fails. */
module Facade {
  import opened Results
  import opened Bus
  import opened Transport
  import opened Protocol
  import opened Engine

  /** What an immediate command hands back: the raw bytes and their text. */
  datatype Reply = Reply(binary: seq<Byte>, text: string)

  /** The reply for the bytes of an immediate exchange. */
  function ReplyOf(bytes: seq<Byte>): (r: Reply)
    ensures r.binary == bytes && |r.text| == |bytes|
    ensures forall i | 0 <= i < |bytes| :: r.text[i] as int == bytes[i]
  {
    Reply(bytes, Text(bytes))
  }

  /** An immediate result as the facade returns it. */
  function AsReply(x: Result<seq<Byte>>): (r: Result<Reply>)
    ensures r.Ok? <==> x.Ok?
    ensures x.Err? ==> r.fault == x.fault
    ensures x.Ok? ==> r.value == ReplyOf(x.value)
  {
    match x
    case Ok(bytes) => Ok(ReplyOf(bytes))
    case Err(f) => Err(f)
  }

  class Device {
    const deviceId: Byte
    var connection: Connection?

    constructor (deviceId: Byte, connection: Connection?)
      ensures this.deviceId == deviceId && this.connection == connection
    {
      this.deviceId := deviceId;
      this.connection := connection;
    }

    /** The transport behind the connection, while there is one. */
    ghost function Ports(): set<object>
      reads this
    {
      if connection == null then {} else {connection.port}
    }

    /** ConnectAsync with the stored id. */
    method Connect() returns (r: Result<Byte>)
      modifies Ports()
      ensures connection == null ==> r == Err(Disposed)
      ensures connection != null ==>
        var run := ConnectRun(deviceId, old(connection.port.replies));
        r == Ok(run.value) &&
        connection.port.written == old(connection.port.written) + run.writes &&
        connection.port.replies == Drop(old(connection.port.replies), run.polls) &&
        connection.port.isOpen
    {
      if connection == null {
        return Err(Disposed);
      }
      var id := connection.Connect(deviceId);
      r := Ok(id);
    }

    /** GetModuleInfoAsync with the stored id. */
    method GetModuleInfo() returns (r: Result<seq<Byte>>)
      modifies Ports()
      ensures connection == null ==> r == Err(Disposed)
      ensures connection != null ==>
        var run := ConnectThenImmediate(deviceId, '%', old(connection.port.replies));
        r == run.value &&
        connection.port.written == old(connection.port.written) + run.writes &&
        connection.port.replies == Drop(old(connection.port.replies), run.polls) &&
        connection.port.isOpen
    {
      if connection == null {
        return Err(Disposed);
      }
      r := connection.GetModuleInfo(deviceId);
    }

    /** ResetDeviceAsync with the stored id. */
    method ResetDevice() returns (r: Result<seq<Byte>>)
      modifies Ports()
      ensures connection == null ==> r == Err(Disposed)
      ensures connection != null ==>
        var run := ConnectThenImmediate(deviceId, '$', old(connection.port.replies));
        r == run.value &&
        connection.port.written == old(connection.port.written) + run.writes &&
        connection.port.replies == Drop(old(connection.port.replies), run.polls) &&
        connection.port.isOpen
    {
      if connection == null {
        return Err(Disposed);
      }
      r := connection.ResetDevice(deviceId);
    }

    /** ExecuteImmediateCommandAsync: connect, then the immediate exchange,
        whatever the connect returned. */
    method ExecuteImmediate(command: char) returns (r: Result<Reply>)
      modifies Ports()
      ensures connection == null ==> r == Err(Disposed)
      ensures connection != null ==>
        var run := ConnectThenImmediate(deviceId, command, old(connection.port.replies));
        r == AsReply(run.value) &&
        connection.port.written == old(connection.port.written) + run.writes &&
        connection.port.replies == Drop(old(connection.port.replies), run.polls) &&
        connection.port.isOpen
    {
      if connection == null {
        return Err(Disposed);
      }
      ghost var s0 := connection.port.replies;
      var _ := connection.Connect(deviceId);
      DropDrop(s0, ConnectRun(deviceId, s0).polls, ImmediateRun(command, connection.port.replies).polls);
      var bytes := connection.ExecuteImmediate(command);
      r := AsReply(bytes);
    }

    /** ExecuteBufferedCommandAsync: connect, then the buffered exchange with
        the command and parameters unchanged. */
    method ExecuteBuffered(command: char, parameters: Option<string>) returns (r: Result<()>)
      modifies Ports()
      ensures connection == null ==> r == Err(Disposed)
      ensures connection != null ==>
        var run := ConnectThenBuffered(deviceId, command, parameters, old(connection.port.replies));
        r == run.value &&
        connection.port.written == old(connection.port.written) + run.writes &&
        connection.port.replies == Drop(old(connection.port.replies), run.polls) &&
        connection.port.isOpen
    {
      if connection == null {
        return Err(Disposed);
      }
      ghost var s0 := connection.port.replies;
      ghost var w0 := connection.port.written;
      ghost var c := ConnectRun(deviceId, s0);
      ghost var x := BufferedRun(command, parameters);
      var _ := connection.Connect(deviceId);
      DropDrop(s0, c.polls, x.polls);
      Regroup(w0, c.writes, x.writes);
      r := connection.ExecuteBuffered(command, parameters);
    }

    /** Dispose drops the reference to the connection and nothing else: the
        transport is neither closed nor touched. */
    method Dispose()
      modifies this
      ensures connection == null
      ensures old(connection) != null ==> unchanged(old(connection).port)
    {
      connection := null;
    }
  }
}
