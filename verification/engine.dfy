/** The GSIOC master: one object owning one serial port, whose operations
    perform the wire exchanges.  Each method is proved to do exactly what
    the corresponding run of `Protocol` says: same result, same bytes
    written, same number of polls. */
module Engine {
  import opened Results
  import opened Bus
  import opened Transport
  import opened Protocol

  class Connection {
    const port: SerialPort

    constructor (port: SerialPort)
      ensures this.port == port
    {
      this.port := port;
    }

    method EnsurePortOpen()
      modifies port
      ensures port.isOpen
      ensures port.written == old(port.written) && port.replies == old(port.replies)
    {
      if !port.isOpen {
        port.Open();
      }
    }

    /** DisconnectDevicesAsync: the universal deselect byte. */
    method DisconnectDevices()
      modifies port
      ensures port.isOpen
      ensures port.written == old(port.written) + [Disconnect]
      ensures port.replies == old(port.replies)
    {
      EnsurePortOpen();
      port.Write(Disconnect);
    }

    /** ConnectAsync: address the device and check its echo. */
    method Connect(deviceId: Byte) returns (r: Byte)
      modifies port
      ensures var run := ConnectRun(deviceId, old(port.replies));
        r == run.value &&
        port.written == old(port.written) + run.writes &&
        port.replies == Drop(old(port.replies), run.polls)
      ensures port.isOpen
    {
      ghost var s0 := port.replies;
      EnsurePortOpen();
      var w := WireAddress(deviceId);
      port.Write(w);
      var bytes := port.Poll();
      if |bytes| > 0 {
        if bytes[0] == AddressQuery {
          port.Write(w);
          var qbytes := port.Poll();
          DropDrop(s0, 1, 1);
          if |qbytes| > 0 && qbytes[0] == w {
            return deviceId;
          }
        } else if bytes[0] == w {
          return deviceId;
        }
      }
      return 0;
    }

    /** ExecuteImmediateCommandAsync: send the command, collect the reply,
        and take the end-of-message bit off its last byte. */
    method ExecuteImmediate(command: char) returns (r: Result<seq<Byte>>)
      modifies port
      ensures var run := ImmediateRun(command, old(port.replies));
        r == run.value &&
        port.written == old(port.written) + run.writes &&
        port.replies == Drop(old(port.replies), run.polls)
      ensures port.isOpen
    {
      EnsurePortOpen();
      if !IsNarrow(command) {
        return Err(CharOverflow);
      }
      ghost var s0 := port.replies;
      ghost var w0 := port.written;
      var commandByte := ToByte(command);
      port.Write(commandByte);
      var data := ReceiveReply();
      Regroup(w0, [commandByte], Acks(|Chunks(s0)|));
      if |data| == 0 {
        return Err(EmptyResponse);
      }
      var lastByte := data[|data| - 1];
      if lastByte > 127 {
        var rxChar := lastByte - LastCharacterBit;
        data := data[|data| - 1 := rxChar];
      } else {
        assert data == data[|data| - 1 := lastByte];
      }
      r := Ok(data);
    }

    /** The polling loop of an immediate command: each non-empty poll is
        kept and acknowledged, the first empty poll completes the reply. */
    method ReceiveReply() returns (data: seq<Byte>)
      requires port.isOpen
      modifies port
      ensures port.isOpen
      ensures var cs := Chunks(old(port.replies));
        data == Concat(cs) &&
        port.written == old(port.written) + Acks(|cs|) &&
        port.replies == Drop(old(port.replies), |cs| + 1)
    {
      ghost var s0 := port.replies;
      ghost var w0 := port.written;
      data := [];
      ghost var k: nat := 0;
      var completed := false;
      while !completed
        invariant port.isOpen
        invariant !completed
        invariant port.replies == Drop(s0, k)
        invariant |Chunks(s0)| == k + |Chunks(port.replies)|
        invariant Concat(Chunks(s0)) == data + Concat(Chunks(port.replies))
        invariant port.written == w0 + Acks(k)
        decreases |port.replies|
      {
        ghost var before := port.replies;
        ChunksStep(before);
        var bytes := port.Poll();
        DropDrop(s0, k, 1);
        if |bytes| > 0 {
          data := data + bytes;
          port.Write(Acknowledge);
          assert Acks(k + 1) == Acks(k) + [Acknowledge];
          k := k + 1;
        } else {
          return;
        }
      }
    }

    /** ExecuteBufferedCommandAsync: LF, the command, the parameter
        characters one by one, then CR, draining the port after each. */
    method ExecuteBuffered(command: char, parameters: Option<string>) returns (r: Result<()>)
      modifies port
      ensures var run := BufferedRun(command, parameters);
        r == run.value &&
        port.written == old(port.written) + run.writes &&
        port.replies == Drop(old(port.replies), run.polls)
      ensures port.isOpen
    {
      ghost var s0 := port.replies;
      EnsurePortOpen();
      ghost var w0 := port.written;
      if !IsNarrow(command) {
        return Err(CharOverflow);
      }
      var commandByte := ToByte(command);
      SendAndDrain(LineFeed);
      SendAndDrain(commandByte);
      DropDrop(s0, 1, 1);
      ghost var frame := [LineFeed, commandByte];
      assert port.written == w0 + frame;
      var chars := Payload(parameters);
      if !IsNullOrWhiteSpace(parameters) {
        var sent := SendParameters(chars);
        DropDrop(s0, 2, sent);
        Regroup(w0, frame, Bytes(chars[..sent]));
        if sent < |chars| {
          return Err(CharOverflow);
        }
        assert chars[..sent] == chars;
      }
      assert port.written == w0 + (frame + Bytes(chars));
      SendAndDrain(CarriageReturn);
      DropDrop(s0, 2 + |chars|, 1);
      Regroup(w0, frame + Bytes(chars), [CarriageReturn]);
      r := Ok(());
    }

    /** One byte of a buffered command: written, then whatever the device
        sent back is read and discarded. */
    method SendAndDrain(b: Byte)
      modifies port
      ensures port.written == old(port.written) + [b]
      ensures port.replies == Drop(old(port.replies), 1)
      ensures port.isOpen == old(port.isOpen)
    {
      port.Write(b);
      var drained := port.Poll();
    }

    /** The loop over the parameter characters of a buffered command: each
        is converted, written and followed by a drain; a character that
        does not fit in a byte stops it.  Returns how many were written. */
    method SendParameters(chars: string) returns (sent: nat)
      modifies port
      ensures sent == NarrowPrefix(chars)
      ensures port.written == old(port.written) + Bytes(chars[..sent])
      ensures port.replies == Drop(old(port.replies), sent)
      ensures port.isOpen == old(port.isOpen)
    {
      ghost var s0 := port.replies;
      ghost var w0 := port.written;
      var i := 0;
      while i < |chars|
        invariant 0 <= i <= |chars|
        invariant port.isOpen == old(port.isOpen)
        invariant forall j | 0 <= j < i :: IsNarrow(chars[j])
        invariant port.written == w0 + Bytes(chars[..i])
        invariant port.replies == Drop(s0, i)
      {
        if !IsNarrow(chars[i]) {
          return i;
        }
        SendAndDrain(ToByte(chars[i]));
        DropDrop(s0, i, 1);
        assert Bytes(chars[..i + 1]) == Bytes(chars[..i]) + [ToByte(chars[i])];
        i := i + 1;
      }
      return i;
    }

    /** FindFirstDeviceAsync: probe positions `startPos`..64 and stop at the
        first device that confirms; `progress` records the ids handed to
        the progress callback. */
    method FindFirstDevice(startPos: Byte) returns (r: Byte, progress: seq<Byte>)
      modifies port
      ensures var scan := FindFirst(startPos, old(port.replies));
        r == scan.value && progress == scan.progress &&
        port.written == old(port.written) + scan.writes &&
        port.replies == Drop(old(port.replies), scan.polls)
      ensures port.isOpen == (old(port.isOpen) || startPos <= 64)
    {
      ghost var s0 := port.replies;
      ghost var w0 := port.written;
      ghost var whole := FirstLoop(startPos, s0, Scan(0, [], [], 0));
      FirstLoopSplits(startPos, s0, Scan(0, [], [], 0));
      assert whole == FindFirst(startPos, s0);
      ghost var acc: Scan<Byte> := Scan(0, [], [], 0);
      var p: nat := startPos;
      progress := [];
      while p <= 64
        invariant p == startPos || startPos <= p <= 65
        invariant acc.progress == progress
        invariant port.replies == Drop(s0, acc.polls)
        invariant port.written == w0 + acc.writes
        invariant FirstLoop(p, port.replies, acc) == whole
        invariant port.isOpen == (old(port.isOpen) || p > startPos)
        decreases 65 - p
      {
        var found;
        found, progress, acc := ProbeForFirst(p, progress, acc, s0, w0, whole);
        if found > 0 {
          return found, progress;
        }
        p := p + 1;
      }
      return 0, progress;
    }

    /** One position of FindFirstDeviceAsync's loop: report the id, try to
        connect, and disconnect again when the device confirmed.  `acc` is
        what the search has gathered since it started on script `s0` with
        log `w0`; the search still comes to `whole`. */
    method ProbeForFirst(p: nat, progress: seq<Byte>, ghost acc: Scan<Byte>,
                         ghost s0: Script, ghost w0: seq<Byte>, ghost whole: Scan<Byte>)
      returns (found: Byte, progress': seq<Byte>, ghost acc': Scan<Byte>)
      requires p <= 64
      requires acc.progress == progress
      requires port.replies == Drop(s0, acc.polls) && port.written == w0 + acc.writes
      requires FirstLoop(p, port.replies, acc) == whole
      modifies port
      ensures acc'.progress == progress'
      ensures port.replies == Drop(s0, acc'.polls) && port.written == w0 + acc'.writes
      ensures found > 0 ==> whole == Scan(found, progress', acc'.writes, acc'.polls)
      ensures found == 0 ==> FirstLoop(p + 1, port.replies, acc') == whole
      ensures port.isOpen
    {
      ghost var s1 := port.replies;
      var tempId := AddressOf(p);
      ghost var c := ConnectRun(tempId, s1);
      progress' := progress + [tempId];
      acc' := Scan(0, progress', acc.writes + c.writes, acc.polls + c.polls);
      var result := Connect(tempId);
      DropDrop(s0, acc.polls, c.polls);
      Regroup(w0, acc.writes, c.writes);
      if result > 0 {
        DisconnectDevices();
        Regroup(w0, acc'.writes, [Disconnect]);
        acc' := Scan(tempId, progress', acc'.writes + [Disconnect], acc'.polls);
        return tempId, progress', acc';
      }
      return 0, progress', acc';
    }

    /** FindAllDevicesAsync: probe every position from `startPos` to 64,
        collect the ids that confirm, then disconnect once. */
    method FindAllDevices(startPos: Byte) returns (devices: seq<Byte>, progress: seq<Byte>)
      modifies port
      ensures var scan := FindAll(startPos, old(port.replies));
        devices == scan.value && progress == scan.progress &&
        port.written == old(port.written) + scan.writes &&
        port.replies == Drop(old(port.replies), scan.polls)
      ensures port.isOpen
    {
      ghost var w0 := port.written;
      ghost var sweep;
      devices, progress, sweep := Sweep(startPos);
      Regroup(w0, sweep.writes, [Disconnect]);
      DisconnectDevices();
    }

    /** The loop of FindAllDevicesAsync, before its final disconnect: it
        does exactly the sweep `AllFrom` describes. */
    method Sweep(startPos: Byte) returns (devices: seq<Byte>, progress: seq<Byte>, ghost sweep: Scan<seq<Byte>>)
      modifies port
      ensures sweep == AllFrom(startPos, old(port.replies))
      ensures devices == sweep.value && progress == sweep.progress
      ensures port.written == old(port.written) + sweep.writes
      ensures port.replies == Drop(old(port.replies), sweep.polls)
      ensures port.isOpen == (old(port.isOpen) || startPos <= 64)
    {
      ghost var s0 := port.replies;
      ghost var w0 := port.written;
      ghost var whole := AllLoop(startPos, s0, Scan([], [], [], 0));
      ghost var acc: Scan<seq<Byte>> := Scan([], [], [], 0);
      var p: nat := startPos;
      devices, progress := [], [];
      while p <= 64
        invariant p == startPos || startPos <= p <= 65
        invariant acc.value == devices && acc.progress == progress
        invariant port.replies == Drop(s0, acc.polls)
        invariant port.written == w0 + acc.writes
        invariant AllLoop(p, port.replies, acc) == whole
        invariant port.isOpen == (old(port.isOpen) || p > startPos)
        decreases 65 - p
      {
        devices, progress, acc := ProbeForAll(p, devices, progress, acc, s0, w0, whole);
        p := p + 1;
      }
      AllLoopStart(startPos, s0);
      sweep := acc;
    }

    /** One position of FindAllDevicesAsync's loop: report the id, try to
        connect, and keep the id when the device confirmed.  `acc` is what
        the scan has gathered since it started on script `s0` with log
        `w0`; the sweep still comes to `whole`. */
    method ProbeForAll(p: nat, devices: seq<Byte>, progress: seq<Byte>, ghost acc: Scan<seq<Byte>>,
                       ghost s0: Script, ghost w0: seq<Byte>, ghost whole: Scan<seq<Byte>>)
      returns (devices': seq<Byte>, progress': seq<Byte>, ghost acc': Scan<seq<Byte>>)
      requires p <= 64
      requires acc.value == devices && acc.progress == progress
      requires port.replies == Drop(s0, acc.polls) && port.written == w0 + acc.writes
      requires AllLoop(p, port.replies, acc) == whole
      modifies port
      ensures acc'.value == devices' && acc'.progress == progress'
      ensures port.replies == Drop(s0, acc'.polls) && port.written == w0 + acc'.writes
      ensures AllLoop(p + 1, port.replies, acc') == whole
      ensures port.isOpen
    {
      ghost var s1 := port.replies;
      var tempId := AddressOf(p);
      ghost var c := ConnectRun(tempId, s1);
      acc' := Extend(acc, tempId, c);
      progress' := progress + [tempId];
      var result := Connect(tempId);
      if result > 0 {
        devices' := devices + [result];
      } else {
        devices' := devices;
        assert devices == devices + [];
      }
      DropDrop(s0, acc.polls, c.polls);
      Regroup(w0, acc.writes, c.writes);
    }

    /** ResetDeviceAsync: connect, then the immediate command '$'. */
    method ResetDevice(deviceId: Byte) returns (r: Result<seq<Byte>>)
      modifies port
      ensures var run := ConnectThenImmediate(deviceId, '$', old(port.replies));
        r == run.value &&
        port.written == old(port.written) + run.writes &&
        port.replies == Drop(old(port.replies), run.polls)
      ensures port.isOpen
    {
      ghost var s0 := port.replies;
      var _ := Connect(deviceId);
      DropDrop(s0, ConnectRun(deviceId, s0).polls, ImmediateRun('$', port.replies).polls);
      r := ExecuteImmediate('$');
    }

    /** GetModuleInfoAsync: connect, then the immediate command '%'. */
    method GetModuleInfo(deviceId: Byte) returns (r: Result<seq<Byte>>)
      modifies port
      ensures var run := ConnectThenImmediate(deviceId, '%', old(port.replies));
        r == run.value &&
        port.written == old(port.written) + run.writes &&
        port.replies == Drop(old(port.replies), run.polls)
      ensures port.isOpen
    {
      ghost var s0 := port.replies;
      var _ := Connect(deviceId);
      DropDrop(s0, ConnectRun(deviceId, s0).polls, ImmediateRun('%', port.replies).polls);
      r := ExecuteImmediate('%');
    }
  }
}
