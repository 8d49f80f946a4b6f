/** The GSIOC master-side exchanges as functions of the reply script: for
    every operation of the engine, what it returns, the exact bytes it
    writes and how many polls it makes.  The methods of `Engine.Connection`
    are proved to behave exactly like these runs; the lemmas below state
    what the protocol promises about them. */
module Protocol {
  import opened Results
  import opened Bus
  import opened Transport

  /** One operation against the bus: its result, what it wrote, how many polls it made. */
  datatype Run<T> = Run(value: T, writes: seq<Byte>, polls: nat)

  // ------------------------------------------------------------------
  // Connect handshake

  /** ConnectAsync: returns `id` when the device answered with its own
      address byte, 0 otherwise. */
  function ConnectRun(id: Byte, script: Script): (r: Run<Byte>)
    ensures r.value == 0 || r.value == id
    ensures r.polls == |r.writes|
    ensures r.writes == [WireAddress(id)] || r.writes == [WireAddress(id), WireAddress(id)]
  {
    var w := WireAddress(id);
    var first := Head(script);
    if first == [] then Run(0, [w], 1)
    else if first[0] == AddressQuery then
      var second := Head(Drop(script, 1));
      Run(if second != [] && second[0] == w then id else 0, [w, w], 2)
    else Run(if first[0] == w then id else 0, [w], 1)
  }

  /** The device confirmed `id`: its first reply starts with the address
      byte, or starts with the query byte and the second reply starts with
      the address byte. */
  predicate Confirms(id: Byte, script: Script) {
    var w := WireAddress(id);
    |script| > 0 && script[0] != [] &&
    (script[0][0] == w ||
     (script[0][0] == AddressQuery && |script| > 1 && script[1] != [] && script[1][0] == w))
  }

  /** Connect returns `id` exactly when the device confirmed it, and repeats
      the address byte exactly when the device first asked for it again. */
  lemma ConnectOutcome(id: Byte, script: Script)
    ensures ConnectRun(id, script).value == (if Confirms(id, script) then id else 0)
    ensures var w := WireAddress(id);
      ConnectRun(id, script).writes ==
        (if |script| > 0 && script[0] != [] && script[0][0] == AddressQuery then [w, w] else [w])
  {
  }

  // ------------------------------------------------------------------
  // Immediate command

  /** The replies the master acknowledges: those before the first empty poll. */
  function Chunks(script: Script): (cs: Script)
    ensures |cs| <= |script|
  {
    if |script| == 0 || script[0] == [] then [] else [script[0]] + Chunks(script[1..])
  }

  function Concat(cs: Script): seq<Byte> {
    if |cs| == 0 then [] else cs[0] + Concat(cs[1..])
  }

  function Acks(n: nat): (r: seq<Byte>)
    ensures |r| == n
    ensures forall i | 0 <= i < n :: r[i] == Acknowledge
  {
    seq(n, _ => Acknowledge)
  }

  /** The reply once the device has gone quiet: the end-of-message bit is
      taken off the last byte, and there must be a last byte. */
  function Finish(data: seq<Byte>): (r: Result<seq<Byte>>)
    ensures r.Err? <==> |data| == 0
    ensures r.Ok? ==> |r.value| == |data| && r.value[..|data| - 1] == data[..|data| - 1]
    ensures r.Ok? ==> r.value[|data| - 1] == ClearLastCharacterBit(data[|data| - 1])
  {
    if |data| == 0 then Err(EmptyResponse)
    else Ok(data[|data| - 1 := ClearLastCharacterBit(data[|data| - 1])])
  }

  /** ExecuteImmediateCommandAsync. */
  function ImmediateRun(command: char, script: Script): (r: Run<Result<seq<Byte>>>)
    ensures r.value == Err(CharOverflow) <==> !IsNarrow(command)
    ensures r.polls == |r.writes|
    ensures IsNarrow(command) ==>
      |r.writes| >= 1 && r.writes[0] == ToByte(command) &&
      forall i | 1 <= i < |r.writes| :: r.writes[i] == Acknowledge
  {
    if !IsNarrow(command) then Run(Err(CharOverflow), [], 0)
    else
      var cs := Chunks(script);
      Run(Finish(Concat(cs)), [ToByte(command)] + Acks(|cs|), |cs| + 1)
  }

  /** The acknowledged chunks are exactly the non-empty replies in front of
      the first empty poll (or of the end of the script). */
  lemma {:induction false} ChunksArePrefix(script: Script)
    ensures var k := |Chunks(script)|;
      Chunks(script) == script[..k] &&
      (forall i | 0 <= i < k :: script[i] != []) &&
      (k < |script| ==> script[k] == [])
  {
    if |script| == 0 || script[0] == [] {
    } else {
      ChunksArePrefix(script[1..]);
      assert script == [script[0]] + script[1..];
    }
  }

  /** The reply holds every received byte in arrival order; only the last
      byte changes, losing bit 7 when it is set.  When the very first poll
      is empty there is no last byte and the exchange fails. */
  lemma ImmediateReply(command: char, script: Script)
    requires IsNarrow(command)
    ensures var k := |Chunks(script)|;
      var data := Concat(script[..k]);
      var r := ImmediateRun(command, script).value;
      (r == Err(EmptyResponse) <==> k == 0) &&
      (r.Ok? ==>
        |r.value| == |data| > 0 &&
        (forall i | 0 <= i < |data| - 1 :: r.value[i] == data[i]) &&
        r.value[|data| - 1] == ClearLastCharacterBit(data[|data| - 1]))
  {
    ChunksArePrefix(script);
    var k := |Chunks(script)|;
    if k > 0 {
      assert Concat(script[..k]) == script[0] + Concat(script[..k][1..]);
    }
  }

  /** The command byte goes out first, then one acknowledgement per non-empty
      poll; the exchange stops at the first empty poll. */
  lemma ImmediateTraffic(command: char, script: Script)
    requires IsNarrow(command)
    ensures var run := ImmediateRun(command, script);
      var k := |Chunks(script)|;
      |run.writes| == k + 1 && run.writes[0] == ToByte(command) &&
      (forall i | 1 <= i <= k :: run.writes[i] == Acknowledge) &&
      run.polls == k + 1 &&
      (forall i | 0 <= i < k :: script[i] != []) &&
      (k < |script| ==> script[k] == [])
  {
    ChunksArePrefix(script);
  }

  /** One poll of the immediate exchange: an empty poll ends it, a
      non-empty one is acknowledged and accumulated. */
  lemma ChunksStep(s: Script)
    ensures Head(s) == [] ==> Chunks(s) == []
    ensures Head(s) != [] ==>
      Chunks(s) == [Head(s)] + Chunks(Drop(s, 1)) &&
      Concat(Chunks(s)) == Head(s) + Concat(Chunks(Drop(s, 1)))
  {
  }

  /** A device that sends "AB" and then 'C' marked as the last character. */
  lemma ImmediateExample()
    ensures ImmediateRun('?', [[0x41, 0x42], [0xC3], []]) ==
      Run(Ok([0x41, 0x42, 0x43]), [0x3F, Acknowledge, Acknowledge], 3)
    ensures Text([0x41, 0x42, 0x43]) == "ABC"
  {
    var s: Script := [[0x41, 0x42], [0xC3], []];
    assert Chunks(s[2..]) == [];
    assert Chunks(s[1..]) == [[0xC3]] by { assert s[1..][1..] == s[2..]; }
    var cs := Chunks(s);
    assert cs == [[0x41, 0x42], [0xC3]];
    var last: Script := cs[1..];
    assert last[1..] == [];
    assert Concat(last) == [0xC3];
    assert Concat(cs) == [0x41, 0x42, 0xC3];
    assert Acks(2) == [Acknowledge, Acknowledge];
    var data: seq<Byte> := [0x41, 0x42, 0xC3];
    assert ClearLastCharacterBit(0xC3) == 0x43;
    assert data[2 := 0x43] == [0x41, 0x42, 0x43];
    assert Finish(data) == Ok([0x41, 0x42, 0x43]);
    assert ImmediateRun('?', s) == Run(Finish(data), [ToByte('?')] + Acks(2), 3);
  }

  /** A successful exchange consumed at least one reply of the script. */
  lemma ImmediateConsumes(command: char, script: Script)
    requires ImmediateRun(command, script).value.Ok?
    ensures |Drop(script, ImmediateRun(command, script).polls)| < |script|
  {
    assert |Chunks(script)| > 0;
  }

  // ------------------------------------------------------------------
  // Buffered command

  /** string.IsNullOrWhiteSpace. */
  predicate IsNullOrWhiteSpace(p: Option<string>) {
    p.None? || forall i | 0 <= i < |p.value| :: IsWhiteSpace(p.value[i])
  }

  /** The characters actually sent after the command byte. */
  function Payload(p: Option<string>): string {
    if IsNullOrWhiteSpace(p) then "" else p.value
  }

  /** How many leading characters Convert.ToByte accepts. */
  function NarrowPrefix(s: string): (k: nat)
    ensures k <= |s|
    ensures forall i | 0 <= i < k :: IsNarrow(s[i])
    ensures k < |s| ==> !IsNarrow(s[k])
  {
    if |s| == 0 || !IsNarrow(s[0]) then 0 else 1 + NarrowPrefix(s[1..])
  }

  /** ExecuteBufferedCommandAsync.  Every write is followed by one drain
      poll whose bytes are discarded, so the run does not depend on the
      script at all. */
  function BufferedRun(command: char, parameters: Option<string>): (r: Run<Result<()>>)
    ensures r.value == Ok(()) || r.value == Err(CharOverflow)
    ensures r.polls == |r.writes|
    ensures IsNarrow(command) ==> |r.writes| >= 2 && r.writes[..2] == [LineFeed, ToByte(command)]
    ensures r.value.Ok? ==> |r.writes| >= 3 && r.writes[|r.writes| - 1] == CarriageReturn
  {
    if !IsNarrow(command) then Run(Err(CharOverflow), [], 0)
    else
      var p := Payload(parameters);
      var k := NarrowPrefix(p);
      var sent := [LineFeed, ToByte(command)] + Bytes(p[..k]);
      if k == |p| then Run(Ok(()), sent + [CarriageReturn], k + 3)
      else Run(Err(CharOverflow), sent, k + 2)
  }

  /** LF, the command byte, each parameter character in order, then CR,
      each followed by one drain. */
  lemma BufferedFrame(command: char, parameters: Option<string>)
    requires IsNarrow(command)
    requires forall i | 0 <= i < |Payload(parameters)| :: IsNarrow(Payload(parameters)[i])
    ensures var run := BufferedRun(command, parameters);
      var p := Payload(parameters);
      run.value == Ok(()) &&
      run.writes == [LineFeed, ToByte(command)] + Bytes(p) + [CarriageReturn] &&
      run.polls == |p| + 3
  {
    var p := Payload(parameters);
    assert p[..|p|] == p;
  }

  /** Parameters that are missing or only white space are not sent. */
  lemma BufferedBlankParameters(command: char, parameters: Option<string>)
    requires IsNarrow(command) && IsNullOrWhiteSpace(parameters)
    ensures BufferedRun(command, parameters) ==
      Run(Ok(()), [LineFeed, ToByte(command), CarriageReturn], 3)
  {
  }

  /** The first parameter character that does not fit in a byte aborts the
      command: every character before it has been sent and drained, the CR
      never is. */
  lemma BufferedOverflow(command: char, parameters: Option<string>, j: nat)
    requires IsNarrow(command)
    requires j < |Payload(parameters)| && !IsNarrow(Payload(parameters)[j])
    requires forall i | 0 <= i < j :: IsNarrow(Payload(parameters)[i])
    ensures var run := BufferedRun(command, parameters);
      run.value == Err(CharOverflow) &&
      run.writes == [LineFeed, ToByte(command)] + Bytes(Payload(parameters)[..j]) &&
      run.polls == j + 2
  {
  }

  // ------------------------------------------------------------------
  // Compositions used by the device facades

  /** Connect to `id`, then run an immediate command whatever the connect returned. */
  function ConnectThenImmediate(id: Byte, command: char, script: Script): (r: Run<Result<seq<Byte>>>)
    ensures r.polls == |r.writes|
    ensures |r.writes| >= 1 && r.writes[0] == WireAddress(id)
  {
    var c := ConnectRun(id, script);
    var x := ImmediateRun(command, Drop(script, c.polls));
    Run(x.value, c.writes + x.writes, c.polls + x.polls)
  }

  /** Connect to `id`, then run a buffered command whatever the connect returned. */
  function ConnectThenBuffered(id: Byte, command: char, parameters: Option<string>, script: Script): (r: Run<Result<()>>)
    ensures r.polls == |r.writes|
    ensures |r.writes| >= 1 && r.writes[0] == WireAddress(id)
  {
    var c := ConnectRun(id, script);
    var x := BufferedRun(command, parameters);
    Run(x.value, c.writes + x.writes, c.polls + x.polls)
  }

  /** A successful connect-then-immediate consumed at least one reply. */
  lemma ConnectThenImmediateConsumes(id: Byte, command: char, script: Script)
    requires ConnectThenImmediate(id, command, script).value.Ok?
    ensures |Drop(script, ConnectThenImmediate(id, command, script).polls)| < |script|
  {
    var c := ConnectRun(id, script);
    ImmediateConsumes(command, Drop(script, c.polls));
    DropDrop(script, c.polls, ImmediateRun(command, Drop(script, c.polls)).polls);
  }

  /** The facades always address the device first, and the command byte
      follows whatever the device answered: a failed connect (0) does not
      stop the immediate exchange. */
  lemma ConnectThenImmediateOrder(id: Byte, command: char, script: Script)
    requires IsNarrow(command)
    ensures var run := ConnectThenImmediate(id, command, script);
      var k := |ConnectRun(id, script).writes|;
      (k == 1 || k == 2) && k < |run.writes| &&
      (forall i | 0 <= i < k :: run.writes[i] == WireAddress(id)) &&
      run.writes[k] == ToByte(command) &&
      run.value == ImmediateRun(command, Drop(script, k)).value
  {
  }

  /** A buffered command through a facade: the address byte once or twice,
      then exactly the buffered frame of the unchanged command and
      parameters, with the value of that frame. */
  lemma ConnectThenBufferedOrder(id: Byte, command: char, parameters: Option<string>, script: Script)
    requires IsNarrow(command)
    requires forall i | 0 <= i < |Payload(parameters)| :: IsNarrow(Payload(parameters)[i])
    ensures var run := ConnectThenBuffered(id, command, parameters, script);
      var w := WireAddress(id);
      run.value == Ok(()) &&
      (run.writes == [w] + [LineFeed, ToByte(command)] + Bytes(Payload(parameters)) + [CarriageReturn] ||
       run.writes == [w, w] + [LineFeed, ToByte(command)] + Bytes(Payload(parameters)) + [CarriageReturn])
  {
    BufferedFrame(command, parameters);
  }

  // ------------------------------------------------------------------
  // Bus scans

  /** The outcome of a scan: its result, the ids reported to the progress
      callback, what it wrote and how many polls it made. */
  datatype Scan<T> = Scan(value: T, progress: seq<Byte>, writes: seq<Byte>, polls: nat)

  /** The address probed at scan position `p`; position 64 wraps to 0. */
  function ProbeId(p: nat): (id: Byte)
    requires p <= 64
    ensures p < 64 ==> id == p
    ensures p == 64 ==> id == 0
  {
    AddressOf(p)
  }

  /** FindFirstDeviceAsync from position `p` on. */
  function FirstFrom(p: nat, script: Script): Scan<Byte>
    decreases 65 - p
  {
    if p > 64 then Scan(0, [], [], 0)
    else
      var id := ProbeId(p);
      var c := ConnectRun(id, script);
      if c.value > 0 then Scan(id, [id], c.writes + [Disconnect], c.polls)
      else
        var rest := FirstFrom(p + 1, Drop(script, c.polls));
        Scan(rest.value, [id] + rest.progress, c.writes + rest.writes, c.polls + rest.polls)
  }

  /** The sweep of FindAllDevicesAsync from position `p` on, before its final disconnect. */
  function AllFrom(p: nat, script: Script): Scan<seq<Byte>>
    decreases 65 - p
  {
    if p > 64 then Scan([], [], [], 0)
    else
      var id := ProbeId(p);
      var c := ConnectRun(id, script);
      var rest := AllFrom(p + 1, Drop(script, c.polls));
      Scan((if c.value > 0 then [c.value] else []) + rest.value,
           [id] + rest.progress, c.writes + rest.writes, c.polls + rest.polls)
  }

  function FindFirst(start: Byte, script: Script): Scan<Byte> {
    FirstFrom(start as nat, script)
  }

  function FindAll(start: Byte, script: Script): Scan<seq<Byte>> {
    var s := AllFrom(start as nat, script);
    Scan(s.value, s.progress, s.writes + [Disconnect], s.polls)
  }

  /** What a scan has gathered after probing position `p` with outcome `c`. */
  function Extend(acc: Scan<seq<Byte>>, id: Byte, c: Run<Byte>): Scan<seq<Byte>> {
    Scan(acc.value + (if c.value > 0 then [c.value] else []), acc.progress + [id],
         acc.writes + c.writes, acc.polls + c.polls)
  }

  /** The loop of FindAllDevicesAsync from position `p`, with `acc` gathered so far. */
  function AllLoop(p: nat, script: Script, acc: Scan<seq<Byte>>): Scan<seq<Byte>>
    decreases 65 - p
  {
    if p > 64 then acc
    else
      var c := ConnectRun(ProbeId(p), script);
      AllLoop(p + 1, Drop(script, c.polls), Extend(acc, ProbeId(p), c))
  }

  /** Started with nothing gathered, the loop of the full sweep is the sweep. */
  lemma AllLoopStart(p: nat, script: Script)
    ensures AllLoop(p, script, Scan([], [], [], 0)) == AllFrom(p, script)
  {
    AllLoopSplits(p, script, Scan([], [], [], 0));
    var sweep := AllFrom(p, script);
    assert [] + sweep.value == sweep.value && [] + sweep.progress == sweep.progress;
    assert [] + sweep.writes == sweep.writes;
  }

  /** The loop of FindFirstDeviceAsync from position `p`, with `acc` gathered so far. */
  function FirstLoop(p: nat, script: Script, acc: Scan<Byte>): Scan<Byte>
    decreases 65 - p
  {
    if p > 64 then Scan(0, acc.progress, acc.writes, acc.polls)
    else
      var id := ProbeId(p);
      var c := ConnectRun(id, script);
      var next := Scan(0, acc.progress + [id], acc.writes + c.writes, acc.polls + c.polls);
      if c.value > 0 then Scan(id, next.progress, next.writes + [Disconnect], next.polls)
      else FirstLoop(p + 1, Drop(script, c.polls), next)
  }

  /** The loop of the full sweep produces what was gathered followed by the
      sweep of the remaining positions. */
  lemma {:induction false} AllLoopSplits(p: nat, script: Script, acc: Scan<seq<Byte>>)
    decreases 65 - p
    ensures var rest := AllFrom(p, script);
      AllLoop(p, script, acc) ==
        Scan(acc.value + rest.value, acc.progress + rest.progress,
             acc.writes + rest.writes, acc.polls + rest.polls)
  {
    if p <= 64 {
      var id := ProbeId(p);
      var c := ConnectRun(id, script);
      var rest := AllFrom(p + 1, Drop(script, c.polls));
      AllLoopSplits(p + 1, Drop(script, c.polls), Extend(acc, id, c));
      Regroup(acc.value, if c.value > 0 then [c.value] else [], rest.value);
      Regroup(acc.progress, [id], rest.progress);
      Regroup(acc.writes, c.writes, rest.writes);
    } else {
      assert acc.value + [] == acc.value && acc.progress + [] == acc.progress;
      assert acc.writes + [] == acc.writes;
    }
  }

  /** The loop of the search for a first device produces what was gathered
      followed by the search over the remaining positions. */
  lemma {:induction false} FirstLoopSplits(p: nat, script: Script, acc: Scan<Byte>)
    decreases 65 - p
    ensures var rest := FirstFrom(p, script);
      FirstLoop(p, script, acc) ==
        Scan(rest.value, acc.progress + rest.progress,
             acc.writes + rest.writes, acc.polls + rest.polls)
  {
    if p <= 64 {
      var id := ProbeId(p);
      var c := ConnectRun(id, script);
      var next := Scan(0, acc.progress + [id], acc.writes + c.writes, acc.polls + c.polls);
      if c.value > 0 {
        Regroup(acc.writes, c.writes, [Disconnect]);
      } else {
        var rest := FirstFrom(p + 1, Drop(script, c.polls));
        FirstLoopSplits(p + 1, Drop(script, c.polls), next);
        Regroup(acc.progress, [id], rest.progress);
        Regroup(acc.writes, c.writes, rest.writes);
      }
    }
  }

  /** Ids reported in probe order: strictly ascending, nonzero, and between
      scan position `lo` and 63. */
  predicate Ascending(v: seq<Byte>, lo: int) {
    (forall i | 0 <= i < |v| :: 0 < v[i] && lo <= v[i] <= 63) &&
    (forall i, j | 0 <= i < j < |v| :: v[i] < v[j])
  }

  lemma AscendingCons(x: Byte, v: seq<Byte>, lo: int)
    requires Ascending(v, lo + 1) && 0 < x <= 63 && x == lo
    ensures Ascending([x] + v, lo)
  {
  }

  /** Found ids come in probe order: strictly ascending, between the start
      position and 63, and never 0. */
  lemma {:induction false} AllFromAscending(p: nat, script: Script)
    ensures Ascending(AllFrom(p, script).value, p)
    decreases 65 - p
  {
    if p <= 64 {
      var id := ProbeId(p);
      var c := ConnectRun(id, script);
      var rest := AllFrom(p + 1, Drop(script, c.polls));
      AllFromAscending(p + 1, Drop(script, c.polls));
      if c.value > 0 {
        AscendingCons(c.value, rest.value, p);
        assert AllFrom(p, script).value == [c.value] + rest.value;
      } else {
        AscendingWeaken(rest.value, p);
        assert AllFrom(p, script).value == rest.value;
      }
    }
  }

  lemma AscendingWeaken(v: seq<Byte>, lo: int)
    requires Ascending(v, lo + 1)
    ensures Ascending(v, lo)
  {
  }

  /** The ids a scan from position `p` reports to its progress callback. */
  function Positions(p: nat): seq<Byte>
    decreases 65 - p
  {
    if p > 64 then [] else [ProbeId(p)] + Positions(p + 1)
  }

  /** Every position from `p` to 64, once each, in order, masked to six bits. */
  lemma {:induction false} PositionsAt(p: nat)
    ensures |Positions(p)| == (if p <= 64 then 65 - p else 0)
    ensures forall i | 0 <= i < |Positions(p)| :: Positions(p)[i] == ProbeId(p + i)
    decreases 65 - p
  {
    if p <= 64 {
      PositionsAt(p + 1);
      forall i | 1 <= i < |Positions(p)| ensures Positions(p)[i] == ProbeId(p + i) {
        assert Positions(p)[i] == Positions(p + 1)[(i - 1)];
        assert p + 1 + (i - 1) == p + i;
      }
    }
  }

  /** The progress callback of the full sweep sees every position. */
  lemma {:induction false} AllFromProgress(p: nat, script: Script)
    ensures AllFrom(p, script).progress == Positions(p)
    decreases 65 - p
  {
    if p <= 64 {
      var c := ConnectRun(ProbeId(p), script);
      AllFromProgress(p + 1, Drop(script, c.polls));
    }
  }

  /** Bytes that are all address frames. */
  predicate AddressFrames(w: seq<Byte>) {
    forall i | 0 <= i < |w| :: 0x80 <= w[i] <= 0xBF
  }

  /** A sweep writes nothing but address frames. */
  lemma {:induction false} AllFromWritesAddresses(p: nat, script: Script)
    ensures AddressFrames(AllFrom(p, script).writes)
    decreases 65 - p
  {
    if p <= 64 {
      var c := ConnectRun(ProbeId(p), script);
      var rest := AllFrom(p + 1, Drop(script, c.polls));
      AllFromWritesAddresses(p + 1, Drop(script, c.polls));
      assert AddressFrames(c.writes);
      FramesJoin(c.writes, rest.writes);
      assert AllFrom(p, script).writes == c.writes + rest.writes;
    }
  }

  lemma FramesJoin(a: seq<Byte>, b: seq<Byte>)
    requires AddressFrames(a) && AddressFrames(b)
    ensures AddressFrames(a + b)
  {
  }

  lemma FramesExcludeDisconnect(w: seq<Byte>)
    requires AddressFrames(w)
    ensures Disconnect !in w
  {
  }

  lemma NotInJoin(a: seq<Byte>, b: seq<Byte>, x: Byte)
    requires x !in a && x !in b
    ensures x !in a + b
  {
  }

  /** FindAllDevicesAsync disconnects exactly once, after the whole sweep. */
  lemma FindAllDisconnectsOnce(start: Byte, script: Script)
    ensures var w := FindAll(start, script).writes;
      |w| > 0 && w[|w| - 1] == Disconnect && Disconnect !in w[..|w| - 1]
  {
    AllFromWritesAddresses(start as nat, script);
    var w := FindAll(start, script).writes;
    assert w[..|w| - 1] == AllFrom(start as nat, script).writes;
  }

  /** FindFirstDeviceAsync reports the first id FindAllDevicesAsync would
      report (0 when that finds none), after probing a prefix of the same
      positions. */
  lemma {:induction false} FirstIsHeadOfAll(p: nat, script: Script)
    ensures var all := AllFrom(p, script);
      FirstFrom(p, script).value == (if all.value == [] then 0 else all.value[0]) &&
      FirstFrom(p, script).progress <= all.progress
    decreases 65 - p
  {
    if p <= 64 {
      var c := ConnectRun(ProbeId(p), script);
      var all := AllFrom(p + 1, Drop(script, c.polls));
      var first := FirstFrom(p + 1, Drop(script, c.polls));
      FirstIsHeadOfAll(p + 1, Drop(script, c.polls));
      assert AllFrom(p, script).progress == [ProbeId(p)] + all.progress;
      if c.value == 0 {
        assert FirstFrom(p, script).progress == [ProbeId(p)] + first.progress;
        PrefixCons(ProbeId(p), first.progress, all.progress);
        assert AllFrom(p, script).value == all.value;
      } else {
        assert FirstFrom(p, script).progress == [ProbeId(p)];
        PrefixCons(ProbeId(p), [], all.progress);
        assert [ProbeId(p)] + [] == [ProbeId(p)];
        assert AllFrom(p, script).value == [c.value] + all.value;
      }
    }
  }

  lemma PrefixCons(x: Byte, a: seq<Byte>, b: seq<Byte>)
    requires a <= b
    ensures [x] + a <= [x] + b
  {
  }

  /** FindFirstDeviceAsync writes the disconnect byte once, last, and only
      when it found a device. */
  lemma {:induction false} FirstFromDisconnect(p: nat, script: Script)
    ensures var s := FirstFrom(p, script);
      (s.value == 0 ==> Disconnect !in s.writes) &&
      (s.value != 0 ==> |s.writes| > 0 && s.writes[|s.writes| - 1] == Disconnect &&
                        Disconnect !in s.writes[..|s.writes| - 1])
    decreases 65 - p
  {
    if p <= 64 {
      var c := ConnectRun(ProbeId(p), script);
      var s := FirstFrom(p, script);
      assert AddressFrames(c.writes);
      FramesExcludeDisconnect(c.writes);
      if c.value == 0 {
        var rest := FirstFrom(p + 1, Drop(script, c.polls));
        FirstFromDisconnect(p + 1, Drop(script, c.polls));
        assert s.writes == c.writes + rest.writes;
        if rest.value != 0 {
          var front := rest.writes[..|rest.writes| - 1];
          assert s.writes[..|s.writes| - 1] == c.writes + front;
          NotInJoin(c.writes, front, Disconnect);
        } else {
          NotInJoin(c.writes, rest.writes, Disconnect);
        }
      } else {
        assert s.writes == c.writes + [Disconnect];
        assert s.writes[..|s.writes| - 1] == c.writes;
      }
    }
  }
}
