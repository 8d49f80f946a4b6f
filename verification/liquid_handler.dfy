/** The liquid-handler driver: waiting for the motors, and reading the
    replies to the error, position and travel-range queries.  Numbers are
    kept as the text they are read from; how .NET turns that text into a
    double is not part of this model. */
module LiquidHandler {
  import opened Results
  import opened Bus
  import opened Transport
  import opened Protocol
  import opened Facade
  import opened Strings

  // ------------------------------------------------------------------
  // WaitForMotorStatusAsync

  /** A motor status that ends the wait for `wanted`: an error ('E'), no
      power ('U'), the wanted status, or the 0xD5 byte in front. */
  predicate Settled(status: string, wanted: char)
    requires |status| > 0
  {
    status[0] == 'E' || status[0] == 'U' || status[0] == wanted || status[0] as int == 0xD5
  }

  /** On the text of a reply, the 0xD5 test reads the reply's first byte,
      as the loop condition does. */
  lemma SettledReadsByte(bytes: seq<Byte>, wanted: char)
    requires |bytes| > 0
    ensures var status := Text(bytes);
      Settled(status, wanted) <==>
        status[0] == 'E' || status[0] == 'U' || status[0] == wanted || bytes[0] == 0xD5
  {
  }

  /** The outcome of a wait: its result, the statuses handed to the status
      callback in order, and the traffic it made. */
  datatype Wait = Wait(value: Result<string>, updates: seq<string>, writes: seq<Byte>, polls: nat)

  /** A wait that had already reported `updates` and made `writes`/`polls`
      of traffic before `rest` went on. */
  function After(updates: seq<string>, writes: seq<Byte>, polls: nat, rest: Wait): Wait {
    Wait(rest.value, updates + rest.updates, writes + rest.writes, polls + rest.polls)
  }

  /** The motor-status query through the facade: connect, then 'M'. */
  function StatusQuery(id: Byte, script: Script): (x: Run<Result<seq<Byte>>>)
    ensures x.value.Ok? ==> |x.value.value| > 0
  {
    ConnectThenImmediate(id, 'M', script)
  }

  /** Query 'M' until the status settles; a failed exchange ends the wait
      with its fault. */
  function WaitRun(id: Byte, wanted: char, script: Script): Wait
    decreases |script|
  {
    var x := StatusQuery(id, script);
    if x.value.Err? then Wait(Err(x.value.fault), [], x.writes, x.polls)
    else
      var status := Text(x.value.value);
      if Settled(status, wanted) then Wait(Ok(status), [status], x.writes, x.polls)
      else
        ConnectThenImmediateConsumes(id, 'M', script);
        After([status], x.writes, x.polls, WaitRun(id, wanted, Drop(script, x.polls)))
  }

  /** The statuses reported are non-empty; all but the last are unsettled;
      an answer is the last one and settled, and after a failure none is
      settled. */
  predicate Reported(w: Wait, wanted: char) {
    (forall k | 0 <= k < |w.updates| :: |w.updates[k]| > 0) &&
    (w.value.Ok? ==>
      |w.updates| > 0 && w.value.value == w.updates[|w.updates| - 1] &&
      Settled(w.value.value, wanted)) &&
    (forall k | 0 <= k < |w.updates| - 1 :: !Settled(w.updates[k], wanted)) &&
    (w.value.Err? ==> forall k | 0 <= k < |w.updates| :: !Settled(w.updates[k], wanted))
  }

  /** The wait returns the first settled status, which is also the last one
      reported; every status reported before it was unsettled; a failed
      exchange comes after unsettled statuses only. */
  lemma {:induction false} WaitSettles(id: Byte, wanted: char, script: Script)
    decreases |script|
    ensures Reported(WaitRun(id, wanted, script), wanted)
  {
    var x := StatusQuery(id, script);
    if x.value.Ok? {
      var status := Text(x.value.value);
      if !Settled(status, wanted) {
        ConnectThenImmediateConsumes(id, 'M', script);
        var rest := WaitRun(id, wanted, Drop(script, x.polls));
        WaitSettles(id, wanted, Drop(script, x.polls));
        ReportedAfter(status, x.writes, x.polls, rest, wanted);
      }
    }
  }

  /** An unsettled status in front keeps a wait well reported. */
  lemma ReportedAfter(status: string, writes: seq<Byte>, polls: nat, rest: Wait, wanted: char)
    requires |status| > 0 && !Settled(status, wanted)
    requires Reported(rest, wanted)
    ensures Reported(After([status], writes, polls, rest), wanted)
  {
    var u := [status] + rest.updates;
    assert forall k | 1 <= k < |u| :: u[k] == rest.updates[k - 1];
  }

  /** One query of the wait, after `updates`, `writes` and `polls`. */
  lemma WaitStep(id: Byte, wanted: char, script: Script, updates: seq<string>, writes: seq<Byte>, polls: nat)
    ensures var x := StatusQuery(id, script);
      After(updates, writes, polls, WaitRun(id, wanted, script)) ==
        if x.value.Err? then Wait(Err(x.value.fault), updates, writes + x.writes, polls + x.polls)
        else
          var status := Text(x.value.value);
          Pending(id, wanted, updates + [status], writes + x.writes, polls + x.polls, status, Drop(script, x.polls))
  {
    var x := StatusQuery(id, script);
    if x.value.Err? {
      assert updates + [] == updates;
    } else {
      var status := Text(x.value.value);
      if !Settled(status, wanted) {
        ConnectThenImmediateConsumes(id, 'M', script);
        var rest := WaitRun(id, wanted, Drop(script, x.polls));
        Regroup(updates, [status], rest.updates);
        Regroup(writes, x.writes, rest.writes);
      }
    }
  }

  /** WaitForMotorStatusAsync: `updates` are the statuses handed to the
      status callback. */
  method WaitForMotorStatus(dev: Device, status: char) returns (r: Result<string>, updates: seq<string>)
    modifies dev.Ports()
    ensures dev.connection == null ==> r == Err(Disposed) && updates == []
    ensures dev.connection != null ==>
      var w := WaitRun(dev.deviceId, status, old(dev.connection.port.replies));
      r == w.value && updates == w.updates &&
      dev.connection.port.written == old(dev.connection.port.written) + w.writes &&
      dev.connection.port.replies == Drop(old(dev.connection.port.replies), w.polls) &&
      dev.connection.port.isOpen
  {
    if dev.connection == null {
      return Err(Disposed), [];
    }
    r, updates := WaitConnected(dev, status);
  }

  /** WaitForMotorStatusAsync on a live connection: the first query and its
      error checks, then the polling loop. */
  method WaitConnected(dev: Device, status: char) returns (r: Result<string>, updates: seq<string>)
    requires dev.connection != null
    modifies dev.Ports()
    ensures dev.connection == old(dev.connection)
    ensures var w := WaitRun(dev.deviceId, status, old(dev.connection.port.replies));
      r == w.value && updates == w.updates &&
      dev.connection.port.written == old(dev.connection.port.written) + w.writes &&
      dev.connection.port.replies == Drop(old(dev.connection.port.replies), w.polls) &&
      dev.connection.port.isOpen
  {
    ghost var s0 := dev.connection.port.replies;
    ghost var w0 := dev.connection.port.written;
    ghost var whole := WaitRun(dev.deviceId, status, s0);
    assert whole == After([], [], 0, whole);
    assert w0 + [] == w0;
    var result;
    ghost var sent, n;
    result, sent, n := QueryStatus(dev, status, [], [], 0, s0, w0);
    if result.Err? {
      assert whole == Wait(Err(result.fault), [], sent, n);
      return Err(result.fault), [];
    }
    var mStatus := result.value.text;
    updates := [mStatus];
    assert [] + [mStatus] == updates;
    if mStatus[0] == 'E' || mStatus[0] == 'U' {
      assert whole == Wait(Ok(mStatus), updates, sent, n);
      return Ok(mStatus), updates;
    }
    r, updates := AwaitStatus(dev, status, result.value, updates, sent, n, s0, w0, whole);
  }

  /** The polling loop of WaitForMotorStatusAsync, from the first reply
      that was neither an error nor a power failure; `whole` is the wait
      it completes. */
  method AwaitStatus(dev: Device, status: char, reply: Reply, updates: seq<string>,
                     ghost sent: seq<Byte>, ghost n: nat, ghost s0: Script, ghost w0: seq<Byte>, ghost whole: Wait)
      returns (r: Result<string>, updates': seq<string>)
    requires dev.connection != null
    requires |reply.text| > 0 && |reply.binary| == |reply.text| && reply.text[0] as int == reply.binary[0]
    requires reply.text[0] != 'E' && reply.text[0] != 'U'
    requires dev.connection.port.replies == Drop(s0, n) && dev.connection.port.written == w0 + sent
    requires whole == Pending(dev.deviceId, status, updates, sent, n, reply.text, dev.connection.port.replies)
    requires dev.connection.port.isOpen
    modifies dev.Ports()
    ensures dev.connection == old(dev.connection) && dev.connection.port.isOpen
    ensures r == whole.value && updates' == whole.updates
    ensures dev.connection.port.replies == Drop(s0, whole.polls) && dev.connection.port.written == w0 + whole.writes
  {
    ghost var port := dev.connection.port;
    var result: Result<Reply> := Ok(reply);
    var mStatus := reply.text;
    updates' := updates;
    ghost var sent', n' := sent, n;
    while mStatus[0] != status && result.value.binary[0] != 0xD5
      invariant dev.connection == old(dev.connection) && dev.connection.port == port && port.isOpen
      invariant result.Ok? && mStatus == result.value.text && |mStatus| > 0
      invariant |result.value.binary| == |mStatus| && mStatus[0] as int == result.value.binary[0]
      invariant mStatus[0] != 'E' && mStatus[0] != 'U'
      invariant port.replies == Drop(s0, n') && port.written == w0 + sent'
      invariant whole == Pending(dev.deviceId, status, updates', sent', n', mStatus, port.replies)
      decreases |port.replies|
    {
      result, sent', n' := QueryStatus(dev, status, updates', sent', n', s0, w0);
      if result.Err? {
        return Err(result.fault), updates';
      }
      mStatus := result.value.text;
      updates' := updates' + [mStatus];
      if mStatus[0] == 'E' || mStatus[0] == 'U' {
        return Ok(mStatus), updates';
      }
    }
    return Ok(mStatus), updates';
  }

  /** Where a wait stands after reporting `updates`, the last of which is `last`. */
  ghost function Pending(id: Byte, wanted: char, updates: seq<string>, writes: seq<Byte>, polls: nat,
                         last: string, script: Script): Wait
    requires |last| > 0
  {
    if Settled(last, wanted) then Wait(Ok(last), updates, writes, polls)
    else After(updates, writes, polls, WaitRun(id, wanted, script))
  }

  /** What one status query does to the script and to the traffic so far. */
  lemma QueryStep(id: Byte, script: Script, sent: seq<Byte>, n: nat, s0: Script, w0: seq<Byte>)
    requires script == Drop(s0, n)
    ensures var x := StatusQuery(id, script);
      (x.value.Ok? ==> |Drop(script, x.polls)| < |script|) &&
      Drop(script, x.polls) == Drop(s0, n + x.polls) &&
      (w0 + sent) + x.writes == w0 + (sent + x.writes)
  {
    var x := StatusQuery(id, script);
    if x.value.Ok? {
      ConnectThenImmediateConsumes(id, 'M', script);
    }
    DropDrop(s0, n, x.polls);
    Regroup(w0, sent, x.writes);
  }

  /** One 'M' query through the device, taking the wait one step further:
      `sent` and `n` are the traffic of the wait so far, since `s0`/`w0`. */
  method QueryStatus(dev: Device, wanted: char, ghost updates: seq<string>, ghost sent: seq<Byte>, ghost n: nat,
                     ghost s0: Script, ghost w0: seq<Byte>)
      returns (result: Result<Reply>, ghost sent': seq<Byte>, ghost n': nat)
    requires dev.connection != null
    requires dev.connection.port.replies == Drop(s0, n) && dev.connection.port.written == w0 + sent
    modifies dev.Ports()
    ensures dev.connection == old(dev.connection) && dev.connection.port.isOpen
    ensures dev.connection.port.replies == Drop(s0, n') && dev.connection.port.written == w0 + sent'
    ensures result.Ok? ==>
      |result.value.text| > 0 && |result.value.binary| == |result.value.text| &&
      result.value.text[0] as int == result.value.binary[0] &&
      |dev.connection.port.replies| < |old(dev.connection.port.replies)|
    ensures After(updates, sent, n, WaitRun(dev.deviceId, wanted, old(dev.connection.port.replies))) ==
      if result.Err? then Wait(Err(result.fault), updates, sent', n')
      else Pending(dev.deviceId, wanted, updates + [result.value.text], sent', n', result.value.text,
                   dev.connection.port.replies)
  {
    ghost var before := dev.connection.port.replies;
    ghost var x := StatusQuery(dev.deviceId, before);
    WaitStep(dev.deviceId, wanted, before, updates, sent, n);
    QueryStep(dev.deviceId, before, sent, n, s0, w0);
    result := dev.ExecuteImmediate('M');
    sent', n' := sent + x.writes, n + x.polls;
    assert result == AsReply(x.value);
  }

  // ------------------------------------------------------------------
  // GetErrorNumberAsync

  /** The error code and the whole output it came with. */
  datatype ErrorReport = ErrorReport(code: int, message: string)

  /** Where the code is read: the whole output, or what follows its first CR. */
  function CodeSegment(output: string): (seg: string)
    ensures '\r' !in output ==> seg == output
    ensures '\r' in output ==>
      var k := |output| - |seg|;
      0 < k && output[k - 1] == '\r' && '\r' !in output[..k - 1] && output[k..] == seg
  {
    var i := IndexOf(output, '\r');
    if i == -1 then output else output[i + 1..]
  }

  /** The code's text: the segment up to its first space.  Without a space
      Substring is handed -1 and throws. */
  function CodeText(output: string): (r: Result<string>)
    ensures r.Err? <==> ' ' !in CodeSegment(output)
    ensures r.Err? ==> r.fault == MissingSeparator
    ensures r.Ok? ==>
      var seg := CodeSegment(output);
      ' ' !in r.value && |r.value| < |seg| && seg[..|r.value|] == r.value && seg[|r.value|] == ' '
  {
    var seg := CodeSegment(output);
    var j := IndexOf(seg, ' ');
    if j == -1 then Err(MissingSeparator) else Ok(seg[..j])
  }

  /** The error number reply: the code, and the output unchanged as the message. */
  function ErrorNumber(output: string): (r: Result<ErrorReport>)
    ensures r.Ok? ==> r.value.message == output
    ensures r.Ok? <==> CodeText(output).Ok? && ParseInt(CodeText(output).value).Some?
    ensures r.Ok? ==> Some(r.value.code) == ParseInt(CodeText(output).value)
    ensures r.Err? ==> r.fault == (if CodeText(output).Err? then MissingSeparator else BadNumber)
  {
    match CodeText(output)
    case Err(f) => Err(f)
    case Ok(text) =>
      match ParseInt(text)
      case None => Err(BadNumber)
      case Some(code) => Ok(ErrorReport(code, output))
  }

  /** A one-line reply "<code> <text>" gives the code back. */
  lemma ErrorNumberOneLine(code: int, text: string)
    requires Int32Min <= code <= Int32Max
    requires '\r' !in text
    ensures var line := ShowInt(code) + " " + text;
      ErrorNumber(line) == Ok(ErrorReport(code, line))
  {
    NoSpaceOrReturnInNumber(code);
    NotInConcat(ShowInt(code), " ", text, '\r');
    CodeOfLine(code, text);
  }

  /** After a CR, the line "<code> <text>" gives the code back, whatever
      came before the CR. */
  lemma ErrorNumberAfterReturn(head: string, code: int, text: string)
    requires Int32Min <= code <= Int32Max
    requires '\r' !in head
    ensures var output := head + "\r" + (ShowInt(code) + " " + text);
      ErrorNumber(output) == Ok(ErrorReport(code, output))
  {
    var line := ShowInt(code) + " " + text;
    IndexOfAfter(head, '\r', line);
    CodeOfLine(code, text);
  }

  /** The code text of a line "<code> <text>" is the written code. */
  lemma CodeOfLine(code: int, text: string)
    requires Int32Min <= code <= Int32Max
    ensures var line := ShowInt(code) + " " + text;
      ' ' in line && line[..IndexOf(line, ' ')] == ShowInt(code) &&
      ParseInt(line[..IndexOf(line, ' ')]) == Some(code)
  {
    NoSpaceOrReturnInNumber(code);
    IndexOfAfter(ShowInt(code), ' ', text);
    ParseShowInt(code);
  }

  /** A written number holds neither a space nor a CR. */
  lemma NoSpaceOrReturnInNumber(code: int)
    ensures ' ' !in ShowInt(code) && '\r' !in ShowInt(code)
  {
    var s := ShowInt(code);
    if code < 0 {
      assert forall i | 1 <= i < |s| :: s[i] == ShowNat(-code)[i - 1];
    }
  }

  // ------------------------------------------------------------------
  // GetXYPositionAsync and GoToXYPositionAsync

  /** A number as double.TryParse leaves it: the default 0 when nothing was
      parsed, or the value of `text` (0 as well when it is not a number). */
  datatype Number = Default | Parsed(text: string)

  datatype XY = XY(x: Number, y: Number)

  /** The position reply: x before the first '/', y between the first and the second. */
  function XYPosition(output: string): (p: XY)
    ensures '/' !in output <==> p == XY(Default, Default)
    ensures '/' in output ==>
      p.x == Parsed(output[..IndexOf(output, '/')]) && p.y.Parsed? && '/' !in p.y.text
  {
    if '/' !in output then XY(Default, Default)
    else
      var parts := Split(output, '/');
      XY(Parsed(parts[0]), Parsed(parts[1]))
  }

  /** Reading "x/y" gives x and y back. */
  lemma XYPositionRoundTrip(x: string, y: string)
    requires '/' !in x && '/' !in y
    ensures XYPosition(x + "/" + y) == XY(Parsed(x), Parsed(y))
  {
    var output := x + ['/'] + y;
    SplitAfter(x, y, '/');
    assert output[|x|] == '/';
  }

  /** Whatever follows a second '/' is ignored. */
  lemma XYPositionIgnoresRest(x: string, y: string, more: string)
    requires '/' !in x && '/' !in y
    ensures XYPosition(x + "/" + y + "/" + more) == XY(Parsed(x), Parsed(y))
  {
    var rest := y + ['/'] + more;
    var output := x + ['/'] + rest;
    assert x + "/" + y + "/" + more == output;
    SplitAfter(x, rest, '/');
    SplitAfter(y, more, '/');
    assert output[|x|] == '/';
  }

  /** GoToXYPositionAsync's parameter: "x:xspeed/y:yspeed", each number as
      its three-decimal text. */
  function Layout(x: string, xSpeed: string, y: string, ySpeed: string): string {
    x + ":" + xSpeed + "/" + y + ":" + ySpeed
  }

  /** The layout splits back into its four numbers. */
  lemma LayoutSplits(x: string, xSpeed: string, y: string, ySpeed: string)
    requires '/' !in x && '/' !in xSpeed && '/' !in y && '/' !in ySpeed
    requires ':' !in x && ':' !in xSpeed && ':' !in y && ':' !in ySpeed
    ensures var halves := Split(Layout(x, xSpeed, y, ySpeed), '/');
      halves == [x + ":" + xSpeed, y + ":" + ySpeed] &&
      Split(halves[0], ':') == [x, xSpeed] && Split(halves[1], ':') == [y, ySpeed]
  {
    var a := x + ":" + xSpeed;
    var b := y + ":" + ySpeed;
    NotInConcat(x, ":", xSpeed, '/');
    NotInConcat(y, ":", ySpeed, '/');
    SplitJoin([a, b], '/');
    assert Join([a, b], '/') == Layout(x, xSpeed, y, ySpeed);
    SplitJoin([x, xSpeed], ':');
    SplitJoin([y, ySpeed], ':');
  }

  lemma NotInConcat(a: string, b: string, c: string, ch: char)
    requires ch !in a && ch !in b && ch !in c
    ensures ch !in a + b + c
  {
    var s := a + b + c;
    assert forall i | 0 <= i < |s| :: s[i] in a || s[i] in b || s[i] in c by {
      forall i | 0 <= i < |s| ensures s[i] in a || s[i] in b || s[i] in c {
        if i < |a| { assert s[i] == a[i]; }
        else if i < |a| + |b| { assert s[i] == b[i - |a|]; }
        else { assert s[i] == c[i - |a| - |b|]; }
      }
    }
  }

  // ------------------------------------------------------------------
  // GetTravelRangeAsync

  datatype Axis = X | Y

  datatype Bounds = Bounds(min: Number, max: Number)

  datatype TravelRange = TravelRange(minX: Number, maxX: Number, minY: Number, maxY: Number)

  /** The axis a token of the travel-range reply sets, if any: it must hold
      '=', and its first letter picks the axis. */
  function AxisOf(token: string): (a: Option<Axis>)
    ensures a.Some? ==> '=' in token && |token| > 0
    ensures a == Some(X) <==> '=' in token && (token[0] == 'X' || token[0] == 'x')
    ensures a == Some(Y) <==> '=' in token && (token[0] == 'Y' || token[0] == 'y')
  {
    if '=' !in token then None
    else if token[0] == 'Y' || token[0] == 'y' then Some(Y)
    else if token[0] == 'X' || token[0] == 'x' then Some(X)
    else None
  }

  /** The bounds a token gives: "min/max" after its first '=', or the
      defaults when that text has no '/'. */
  function BoundsOf(token: string): (b: Bounds)
    requires '=' in token
    ensures b == Bounds(Default, Default) <==> '/' !in token[IndexOf(token, '=') + 1..]
  {
    FieldBounds(token[IndexOf(token, '=') + 1..])
  }

  /** "min/max": the first two '/'-fields, or the defaults without a '/'. */
  function FieldBounds(sub: string): (b: Bounds)
    ensures b == Bounds(Default, Default) <==> '/' !in sub
  {
    if '/' in sub then
      var parts := Split(sub, '/');
      Bounds(Parsed(parts[0]), Parsed(parts[1]))
    else Bounds(Default, Default)
  }

  /** A token "name=min/max" gives the two fields after its first '='. */
  lemma BoundsOfFields(head: string, lo: string, hi: string)
    requires '=' !in head && '/' !in lo && '/' !in hi
    ensures BoundsOf(head + "=" + lo + "/" + hi) == Bounds(Parsed(lo), Parsed(hi))
  {
    var sub := lo + ['/'] + hi;
    assert head + "=" + lo + "/" + hi == head + ['='] + sub;
    SplitAfter(lo, hi, '/');
    BoundsOfSplit(head, sub);
  }

  /** Whatever follows a second '/' after the '=' is ignored. */
  lemma BoundsOfIgnoresRest(head: string, lo: string, hi: string, more: string)
    requires '=' !in head && '/' !in lo && '/' !in hi
    ensures BoundsOf(head + "=" + lo + "/" + hi + "/" + more) == Bounds(Parsed(lo), Parsed(hi))
  {
    var rest := hi + ['/'] + more;
    var sub := lo + ['/'] + rest;
    assert head + "=" + lo + "/" + hi + "/" + more == head + ['='] + sub;
    SplitAfter(lo, rest, '/');
    SplitAfter(hi, more, '/');
    BoundsOfSplit(head, sub);
  }

  /** The bounds of "name=sub" are read from the '/'-fields of `sub`. */
  lemma BoundsOfSplit(head: string, sub: string)
    requires '=' !in head
    requires |Split(sub, '/')| >= 2
    ensures var parts := Split(sub, '/');
      BoundsOf(head + ['='] + sub) == Bounds(Parsed(parts[0]), Parsed(parts[1]))
  {
    IndexOfAfter(head, '=', sub);
  }

  /** The bounds of `axis` after the tokens in order: the last token for
      that axis decides. */
  function LastFor(tokens: seq<string>, axis: Axis): Bounds {
    if |tokens| == 0 then Bounds(Default, Default)
    else
      var t := tokens[|tokens| - 1];
      if AxisOf(t) == Some(axis) then BoundsOf(t) else LastFor(tokens[..|tokens| - 1], axis)
  }

  /** The travel range a reply describes. */
  function TravelRangeOf(output: string): TravelRange {
    var tokens := Split(output, ' ');
    var x := LastFor(tokens, X);
    var y := LastFor(tokens, Y);
    TravelRange(x.min, x.max, y.min, y.max)
  }

  /** A later token for an axis overrides every earlier one. */
  lemma {:induction false} LastForIsLast(tokens: seq<string>, axis: Axis, j: nat)
    requires j < |tokens| && AxisOf(tokens[j]) == Some(axis)
    requires forall k | j < k < |tokens| :: AxisOf(tokens[k]) != Some(axis)
    ensures LastFor(tokens, axis) == BoundsOf(tokens[j])
  {
    if j < |tokens| - 1 {
      var front := tokens[..|tokens| - 1];
      assert forall k | j < k < |front| :: front[k] == tokens[k];
      LastForIsLast(front, axis, j);
    }
  }

  /** An axis no token mentions keeps its defaults. */
  lemma {:induction false} LastForUnset(tokens: seq<string>, axis: Axis)
    requires forall k | 0 <= k < |tokens| :: AxisOf(tokens[k]) != Some(axis)
    ensures LastFor(tokens, axis) == Bounds(Default, Default)
  {
    if |tokens| > 0 {
      var front := tokens[..|tokens| - 1];
      assert forall k | 0 <= k < |front| :: front[k] == tokens[k];
      LastForUnset(front, axis);
    }
  }

  /** The "min/max" after a token's first '=', defaults when it has no '/'. */
  method TokenBounds(coords: string) returns (tempMin: Number, tempMax: Number)
    requires '=' in coords
    ensures Bounds(tempMin, tempMax) == BoundsOf(coords)
  {
    tempMin, tempMax := Default, Default;
    var substring := coords[IndexOf(coords, '=') + 1..];
    if '/' in substring {
      var oSplit := Split(substring, '/');
      tempMin, tempMax := Parsed(oSplit[0]), Parsed(oSplit[1]);
    }
    assert Bounds(tempMin, tempMax) == FieldBounds(substring);
  }

  /** One more token: it decides the axis it sets, and leaves the other alone. */
  lemma LastForStep(tokens: seq<string>, i: nat, axis: Axis)
    requires i < |tokens|
    ensures LastFor(tokens[..i + 1], axis) ==
      if AxisOf(tokens[i]) == Some(axis) then BoundsOf(tokens[i]) else LastFor(tokens[..i], axis)
  {
    assert tokens[..i + 1][..i] == tokens[..i];
  }

  /** The loop over the space-separated tokens of the travel-range reply. */
  method ParseTravelRange(output: string) returns (r: TravelRange)
    ensures r == TravelRangeOf(output)
  {
    var minX, maxX, minY, maxY := Default, Default, Default, Default;
    var mSplit := Split(output, ' ');
    for i := 0 to |mSplit|
      invariant Bounds(minX, maxX) == LastFor(mSplit[..i], X)
      invariant Bounds(minY, maxY) == LastFor(mSplit[..i], Y)
    {
      var coords := mSplit[i];
      LastForStep(mSplit, i, X);
      LastForStep(mSplit, i, Y);
      if '=' in coords {
        var tempMin, tempMax := TokenBounds(coords);
        if coords[0] == 'Y' || coords[0] == 'y' {
          minY, maxY := tempMin, tempMax;
        } else if coords[0] == 'X' || coords[0] == 'x' {
          minX, maxX := tempMin, tempMax;
        }
      }
    }
    assert mSplit[..|mSplit|] == mSplit;
    return TravelRange(minX, maxX, minY, maxY);
  }

  // ------------------------------------------------------------------
  // The device operations

  /** GetErrorNumberAsync. */
  method GetErrorNumber(dev: Device) returns (r: Result<ErrorReport>)
    modifies dev.Ports()
    ensures dev.connection == null ==> r == Err(Disposed)
    ensures dev.connection != null ==>
      var run := ConnectThenImmediate(dev.deviceId, 'e', old(dev.connection.port.replies));
      r == (if run.value.Err? then Err(run.value.fault) else ErrorNumber(Text(run.value.value))) &&
      dev.connection.port.written == old(dev.connection.port.written) + run.writes &&
      dev.connection.port.replies == Drop(old(dev.connection.port.replies), run.polls) &&
      dev.connection.port.isOpen
  {
    var result := dev.ExecuteImmediate('e');
    if result.Err? {
      return Err(result.fault);
    }
    r := ErrorNumber(result.value.text);
  }

  /** GetXYPositionAsync. */
  method GetXYPosition(dev: Device) returns (r: Result<XY>)
    modifies dev.Ports()
    ensures dev.connection == null ==> r == Err(Disposed)
    ensures dev.connection != null ==>
      var run := ConnectThenImmediate(dev.deviceId, 'P', old(dev.connection.port.replies));
      r == (if run.value.Err? then Err(run.value.fault) else Ok(XYPosition(Text(run.value.value)))) &&
      dev.connection.port.written == old(dev.connection.port.written) + run.writes &&
      dev.connection.port.replies == Drop(old(dev.connection.port.replies), run.polls) &&
      dev.connection.port.isOpen
  {
    var result := dev.ExecuteImmediate('P');
    if result.Err? {
      return Err(result.fault);
    }
    r := Ok(XYPosition(result.value.text));
  }

  /** GetTravelRangeAsync. */
  method GetTravelRange(dev: Device) returns (r: Result<TravelRange>)
    modifies dev.Ports()
    ensures dev.connection == null ==> r == Err(Disposed)
    ensures dev.connection != null ==>
      var run := ConnectThenImmediate(dev.deviceId, 'Q', old(dev.connection.port.replies));
      r == (if run.value.Err? then Err(run.value.fault) else Ok(TravelRangeOf(Text(run.value.value)))) &&
      dev.connection.port.written == old(dev.connection.port.written) + run.writes &&
      dev.connection.port.replies == Drop(old(dev.connection.port.replies), run.polls) &&
      dev.connection.port.isOpen
  {
    var result := dev.ExecuteImmediate('Q');
    if result.Err? {
      return Err(result.fault);
    }
    var range := ParseTravelRange(result.value.text);
    r := Ok(range);
  }

  /** ClearErrorAsync: buffered 'e' without parameters. */
  method ClearError(dev: Device) returns (r: Result<()>)
    modifies dev.Ports()
    ensures dev.connection == null ==> r == Err(Disposed)
    ensures dev.connection != null ==>
      var run := ConnectThenBuffered(dev.deviceId, 'e', None, old(dev.connection.port.replies));
      r == run.value &&
      dev.connection.port.written == old(dev.connection.port.written) + run.writes &&
      dev.connection.port.replies == Drop(old(dev.connection.port.replies), run.polls) &&
      dev.connection.port.isOpen
  {
    r := dev.ExecuteBuffered('e', None);
  }

  /** GoHomeAsync: buffered 'H' without parameters. */
  method GoHome(dev: Device) returns (r: Result<()>)
    modifies dev.Ports()
    ensures dev.connection == null ==> r == Err(Disposed)
    ensures dev.connection != null ==>
      var run := ConnectThenBuffered(dev.deviceId, 'H', None, old(dev.connection.port.replies));
      r == run.value &&
      dev.connection.port.written == old(dev.connection.port.written) + run.writes &&
      dev.connection.port.replies == Drop(old(dev.connection.port.replies), run.polls) &&
      dev.connection.port.isOpen
  {
    r := dev.ExecuteBuffered('H', None);
  }

  /** GoToXYPositionAsync, given the three-decimal texts of its numbers. */
  method GoToXYPosition(dev: Device, x: string, y: string, xSpeed: string, ySpeed: string) returns (r: Result<()>)
    modifies dev.Ports()
    ensures dev.connection == null ==> r == Err(Disposed)
    ensures dev.connection != null ==>
      var run := ConnectThenBuffered(dev.deviceId, 'X', Some(Layout(x, xSpeed, y, ySpeed)), old(dev.connection.port.replies));
      r == run.value &&
      dev.connection.port.written == old(dev.connection.port.written) + run.writes &&
      dev.connection.port.replies == Drop(old(dev.connection.port.replies), run.polls) &&
      dev.connection.port.isOpen
  {
    r := dev.ExecuteBuffered('X', Some(Layout(x, xSpeed, y, ySpeed)));
  }
}
