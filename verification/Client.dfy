/** send_command of src/sensact.c over a session's read and write calls. */
module Client {
  import opened Bytes
  import opened Packet
  import opened Emulator
  import opened Status

  // ------------------------------------------------------------- transports

  /** The far end as a value: an emulated device, or a stream of octets to be read in order. */
  datatype Peer = EmulatorPeer(emu: Emu, handle: int) | StreamPeer(incoming: seq<byte>, sent: seq<seq<byte>>, up: bool)

  /** A stream refuses writes when it is down; a read delivers all it was asked for or times out. */
  function PeerWrite(p: Peer, wire: seq<byte>): (Peer, int)
    requires p.EmulatorPeer? ==> Arrives(p, wire)
  {
    match p
    case EmulatorPeer(emu, handle) => (p.(emu := Receive(emu, handle, ParseRequest(wire))), |wire|)
    case StreamPeer(_, sent, up) => if up then (p.(sent := sent + [wire]), |wire|) else (p, -1)
  }

  predicate Arrives(p: Peer, wire: seq<byte>)
    requires p.EmulatorPeer?
  {
    && |wire| >= REQ_HEADER_SIZE && REQ_HEADER_SIZE + wire[4] as int + ReadU16(wire, 5) as int <= |wire|
    && Fitting(p.emu, p.handle, ParseRequest(wire))
  }

  function PeerRead(p: Peer, buf: seq<byte>, n: nat): (r: (Peer, seq<byte>, int))
    requires n <= |buf|
    requires p.EmulatorPeer? ==> Ready(p.emu) && (n == RSP_HEADER_SIZE || n == Announced(p.emu))
    ensures |r.1| == |buf|
  {
    match p
    case EmulatorPeer(emu, handle) =>
      var announced := Announced(emu);
      var header := ResponseHeader(RSP_OK, emu.id, announced);
      (p, if n == RSP_HEADER_SIZE then Overwrite(buf, header) else Payload(emu, handle, buf), announced)
    case StreamPeer(incoming, _, _) =>
      if n <= |incoming| then (p.(incoming := incoming[n..]), Overwrite(buf, incoming[..n]), n) else (p, buf, -1)
  }

  /** Every register has a value of its width. */
  predicate Ready(e: Emu) {
    forall r: Reg :: e.Has(r) ==> |e.Get(r)| == Width(r)
  }

  // ------------------------------------------------------------ one command

  /**
   * What a command leaves behind: the far end, the counter, the status, the octets copied to the
   * caller's value (none if it was not written), the size reported, and the error message set.
   */
  datatype Outcome = Outcome(peer: Peer, counter: u16, status: int, value: Option<seq<byte>>, size: Option<nat>,
                             error: Option<seq<byte>>)

  function Failed(p: Peer, counter: u16): Outcome {
    Outcome(p, counter, SA_ERROR, None, None, None)
  }

  /** The request can be sent: to an emulated device, its value fits the register it sets. */
  predicate Sendable(p: Peer, a: Attempt) {
    && a.command <= SET_DATA && NulFree(a.name)
    && (p.EmulatorPeer? ==> p.handle >= 0 && Ready(p.emu))
    && (p.EmulatorPeer? && a.Fits() ==> Fitting(p.emu, p.handle, Delivered(a, 0)))
  }

  /** The request as the far end reads it: a name of 256 octets arrives empty. */
  function Delivered(a: Attempt, id: u16): Request {
    Request(a.command, id, if |a.name| < NAME_MAX then a.name else [], ValueSent(a.command, a.value))
  }

  /** The header next read announces no more than the documented 1024 octets. */
  predicate WithinLimits(p: Peer) {
    p.StreamPeer? && |p.incoming| >= RSP_HEADER_SIZE ==> ReadU16(p.incoming, 4) <= VALUE_MAX
  }

  /** send_command; `stack` is what the local payload buffer held before. */
  function Exchange(p: Peer, counter: u16, a: Attempt, stack: seq<byte>): Outcome
    requires Sendable(p, a) && WithinLimits(p) && |stack| == VALUE_MAX
  {
    if !a.Fits() then Failed(p, counter) else
    var next := ToU16(counter as int + 1);
    WireArrives(p, counter, a);
    var (sent, written) := PeerWrite(p, RequestWire(a.command, counter, a.name, ValueSent(a.command, a.value)));
    if written < 0 then Failed(sent, next) else Reception(sent, next, counter, a.command, stack)
  }

  /** The far end can answer. */
  predicate Answering(p: Peer) {
    WithinLimits(p) && (p.EmulatorPeer? ==> p.handle >= 0 && Ready(p.emu))
  }

  /** The receiving half: the header, its verification, the payload it announces. */
  function Reception(p: Peer, counter: u16, id: u16, command: byte, stack: seq<byte>): Outcome
    requires Answering(p) && |stack| == VALUE_MAX
  {
    var (headed, header, got) := PeerRead(p, Zeros(RSP_HEADER_SIZE), RSP_HEADER_SIZE);
    if got < 0 then Failed(headed, counter) else
    if !Accepts(header, id) then Failed(headed, counter) else
    var n := ReadU16(header, 4);
    var size := if command == GET_DATA then Some(n as nat) else None;
    if n == 0 then Outcome(headed, counter, SA_OK, None, size, None) else
    var (ended, data, read) := PeerRead(headed, stack, n);
    if read < 0 then Failed(ended, counter) else
    if header[3] == RSP_OK then
      Outcome(ended, counter, SA_OK, if command <= GET_DATA then Some(data[..n]) else None, size, None)
    else Outcome(ended, counter, SA_ERROR, None, None, Some(data[..n]))
  }

  function Zeros(n: nat): (s: seq<byte>)
    ensures |s| == n
  {
    seq(n, _ => 0)
  }

  lemma {:induction false} WireArrives(p: Peer, counter: u16, a: Attempt)
    requires Sendable(p, a) && a.Fits()
    ensures var wire := RequestWire(a.command, counter, a.name, ValueSent(a.command, a.value));
      && (p.EmulatorPeer? ==> Arrives(p, wire) && ParseRequest(wire) == Delivered(a, counter))
      && (WithinLimits(p) ==> Answering(PeerWrite(p, wire).0))
  {
    RequestArrives(a.command, counter, a.name, ValueSent(a.command, a.value), []);
    var wire := RequestWire(a.command, counter, a.name, ValueSent(a.command, a.value));
    assert wire + [] == wire;
    if p.EmulatorPeer? {
      ReceiveKeepsReady(p.emu, p.handle, ParseRequest(wire));
    }
  }

  lemma {:induction false} ReceiveKeepsReady(e: Emu, handle: int, r: Request)
    requires Ready(e) && Fitting(e, handle, r)
    ensures Ready(Receive(e, handle, r))
  {
    if Hits(e, handle, r.command, r.name) {
      var reg := Register(r.name).value;
      forall q: Reg | Receive(e, handle, r).Has(q) ensures |Receive(e, handle, r).Get(q)| == Width(q) {
        EmuSetGet(e.(id := r.id, name := r.name), reg, Stored(reg, r.value), q);
      }
    }
  }

  // ---------------------------------------------------- staying in step

  /** A response within the protocol's limits. */
  datatype Response = Response(code: byte, data: seq<byte>) {
    predicate Legal() { (code == RSP_OK || code == RSP_ERROR) && |data| <= VALUE_MAX }

    function Wire(id: u16): seq<byte>
      requires Legal()
    {
      ResponseWire(code, id, data)
    }
  }

  /** SA_OK exactly for RSP_OK or an empty payload; the payload is the value or the error message. */
  function Result(p: Peer, counter: u16, a: Attempt, r: Response): Outcome {
    if r.data == [] then Outcome(p, counter, SA_OK, None, if a.command == GET_DATA then Some(0) else None, None)
    else if r.code == RSP_OK
    then Outcome(p, counter, SA_OK, if a.command <= GET_DATA then Some(r.data) else None,
                 if a.command == GET_DATA then Some(|r.data|) else None, None)
    else Outcome(p, counter, SA_ERROR, None, None, Some(r.data))
  }

  // ------------------------------------------------------- what is reported

  /** The octets waiting answer request `id`: prefix, identifier and a known code; their payload has `n` octets. */
  predicate Header(incoming: seq<byte>, id: u16, n: nat) {
    && |incoming| >= 6 && incoming[0] == 0xAA
    && incoming[1] as int + 0x100 * incoming[2] as int == id as int
    && (incoming[3] == 0 || incoming[3] == 1)
    && incoming[4] as int + 0x100 * incoming[5] as int == n
  }

  predicate SentOver(p: Peer, a: Attempt) {
    p.StreamPeer? && p.up && |a.name| <= 256 && |a.value| <= 1024
  }

  /**
   * Over a stream of any octets: zero is reported if and only if the request was made and written, and the
   * octets waiting are a header that answers it with an empty payload, or with a whole one and the code 0.
   */
  lemma {:induction false} StreamStatus(p: Peer, counter: u16, a: Attempt, stack: seq<byte>, n: nat)
    requires p.StreamPeer? && Sendable(p, a) && WithinLimits(p) && |stack| == VALUE_MAX
    requires |p.incoming| >= 6 ==> p.incoming[4] as int + 0x100 * p.incoming[5] as int == n
    ensures var o := Exchange(p, counter, a, stack);
      && (o.status == 0 <==>
           && SentOver(p, a) && Header(p.incoming, counter, n)
           && (n == 0 || (|p.incoming| >= 6 + n && p.incoming[3] == 0)))
      && (o.status == 0 || o.status == 1)
  {
    StreamOutcome(p, counter, a, stack, n);
  }

  /** With it, value, size and message: each is there exactly when the status and the command say so. */
  lemma {:induction false} StreamReport(p: Peer, counter: u16, a: Attempt, stack: seq<byte>, n: nat)
    requires p.StreamPeer? && Sendable(p, a) && WithinLimits(p) && |stack| == VALUE_MAX
    requires |p.incoming| >= 6 ==> p.incoming[4] as int + 0x100 * p.incoming[5] as int == n
    ensures var o := Exchange(p, counter, a, stack);
      && (o.value.Some? <==> o.status == 0 && n > 0 && a.command <= 4)
      && (o.value.Some? ==> |p.incoming| >= 6 + n && o.value.value == p.incoming[6..6 + n])
      && (o.size.Some? <==> o.status == 0 && a.command == 4)
      && (o.size.Some? ==> o.size.value == n)
      && (o.error.Some? <==>
           SentOver(p, a) && Header(p.incoming, counter, n) && n > 0 && |p.incoming| >= 6 + n && p.incoming[3] == 1)
      && (o.error.Some? ==> o.error.value == p.incoming[6..6 + n])
  {
    StreamOutcome(p, counter, a, stack, n);
  }

  /** What a command leaves of the stream: a request refused or not written takes nothing off it. */
  lemma {:induction false} StreamTaken(p: Peer, counter: u16, a: Attempt, stack: seq<byte>, n: nat)
    requires p.StreamPeer? && Sendable(p, a) && WithinLimits(p) && |stack| == VALUE_MAX
    requires |p.incoming| >= 6 ==> p.incoming[4] as int + 0x100 * p.incoming[5] as int == n
    ensures var o := Exchange(p, counter, a, stack);
      && o.peer.StreamPeer? && o.peer.up == p.up
      && (|a.name| <= 256 && |a.value| <= 1024 ==> o.counter as int == (counter as int + 1) % 65536)
      && (|a.name| > 256 || |a.value| > 1024 ==> o.counter == counter)
      && o.peer.sent == p.sent + Frames(p, counter, a)
      && o.peer.incoming == p.incoming[Taken(p, counter, a, n)..]
  {
    StreamOutcome(p, counter, a, stack, n);
  }

  /** The one request that goes out, or none. */
  function Frames(p: Peer, counter: u16, a: Attempt): seq<seq<byte>> {
    if SentOver(p, a) then [RequestWire(a.command, counter, a.name, ValueSent(a.command, a.value))] else []
  }

  function Taken(p: Peer, counter: u16, a: Attempt, n: nat): (k: nat)
    requires p.StreamPeer?
    ensures k <= |p.incoming|
  {
    if !SentOver(p, a) || |p.incoming| < 6 then 0
    else if Header(p.incoming, counter, n) && |p.incoming| >= 6 + n then 6 + n
    else 6
  }

  lemma {:induction false} StreamOutcome(p: Peer, counter: u16, a: Attempt, stack: seq<byte>, n: nat)
    requires p.StreamPeer? && Sendable(p, a) && WithinLimits(p) && |stack| == VALUE_MAX
    requires |p.incoming| >= 6 ==> p.incoming[4] as int + 0x100 * p.incoming[5] as int == n
    ensures var o, answered := Exchange(p, counter, a, stack), SentOver(p, a) && Header(p.incoming, counter, n);
      var whole := answered && n > 0 && |p.incoming| >= 6 + n;
      && o.status == (if answered && (n == 0 || (whole && p.incoming[3] == 0)) then 0 else 1)
      && o.value == (if whole && p.incoming[3] == 0 && a.command <= 4 then Some(p.incoming[6..6 + n]) else None)
      && o.size == (if o.status == 0 && a.command == 4 then Some(n) else None)
      && o.error == (if whole && p.incoming[3] == 1 then Some(p.incoming[6..6 + n]) else None)
      && o.counter as int == (if a.Fits() then (counter as int + 1) % 65536 else counter as int)
      && o.peer.StreamPeer? && o.peer.up == p.up && o.peer.incoming == p.incoming[Taken(p, counter, a, n)..]
      && o.peer.sent == p.sent + Frames(p, counter, a)
  {
    assert p.sent + [] == p.sent;
    if SentOver(p, a) && |p.incoming| >= 6 {
      var header := p.incoming[..6];
      assert Overwrite(Zeros(RSP_HEADER_SIZE), header) == header;
      if n <= |p.incoming| - 6 {
        assert p.incoming[6..][..n] == p.incoming[6..6 + n] && p.incoming[6..][n..] == p.incoming[6 + n..];
        assert n <= VALUE_MAX ==> Overwrite(stack, p.incoming[6..6 + n])[..n] == p.incoming[6..6 + n];
      }
    }
  }

  /** The identifier `i` requests on. */
  function Ahead(id: u16, i: nat): u16
    decreases i
  {
    if i == 0 then id else Ahead(ToU16(id as int + 1), i - 1)
  }

  /**
   * Receiving on a stream: the two reads take the matching response off the front, no octet more
   * or less. A response for another request is refused after its header, so the stream stays in
   * step only if it had no payload.
   */
  lemma {:induction false} ReceiveInStep(p: Peer, counter: u16, a: Attempt, stack: seq<byte>, r: Response, id: u16,
                                         rest: seq<byte>)
    requires p.StreamPeer? && p.up && r.Legal() && p.incoming == r.Wire(id) + rest
    requires Sendable(p, a) && a.Fits() && |stack| == VALUE_MAX
    ensures WithinLimits(p)
    ensures var o := Exchange(p, counter, a, stack);
      && o.peer.sent == p.sent + [RequestWire(a.command, counter, a.name, ValueSent(a.command, a.value))] && o.peer.up
      && o.counter == ToU16(counter as int + 1)
      && (id == counter ==> o == Result(o.peer, o.counter, a, r) && o.peer.incoming == rest)
      && (id != counter ==> o.status == 1 && o.value == None && o.size == None && o.error == None)
      && (id != counter ==> o.peer.incoming == r.data + rest)
      && (o.peer.incoming == rest <==> id == counter || r.data == [])
  {
    var header := ResponseHeader(r.code, id, |r.data|);
    assert p.incoming == header + (r.data + rest);
    assert p.incoming[..RSP_HEADER_SIZE] == header && p.incoming[RSP_HEADER_SIZE..] == r.data + rest;
    assert Overwrite(Zeros(RSP_HEADER_SIZE), header) == header;
    assert p.incoming[4] == header[4] && p.incoming[5] == header[5];
    assert (r.data + rest)[..|r.data|] == r.data && (r.data + rest)[|r.data|..] == rest;
    assert Overwrite(stack, r.data)[..|r.data|] == r.data;
    assert |r.data + rest| == |rest| <==> r.data == [];
  }

  /** The responses to consecutive requests from identifier `id` on, as one stream. */
  function Stream(rs: seq<Response>, id: u16): seq<byte>
    requires forall i :: 0 <= i < |rs| ==> rs[i].Legal()
  {
    if rs == [] then [] else rs[0].Wire(id) + Stream(rs[1..], ToU16(id as int + 1))
  }

  /** A command and what its payload buffer happens to hold. */
  datatype Command = Command(attempt: Attempt, stack: seq<byte>) {
    predicate Proper() { attempt.command <= SET_DATA && NulFree(attempt.name) && |stack| == VALUE_MAX }
  }

  /** Consecutive commands on one session, each fed by what the last one left. */
  function ExchangeAll(p: Peer, counter: u16, commands: seq<Command>): seq<Outcome>
    requires p.StreamPeer?
    requires forall i :: 0 <= i < |commands| ==> commands[i].Proper()
    decreases |commands|
  {
    if commands == [] || !WithinLimits(p) then [] else
    assert commands[0].Proper();
    var o := Exchange(p, counter, commands[0].attempt, commands[0].stack);
    [o] + ExchangeAll(o.peer, o.counter, commands[1..])
  }

  /** n commands recover the n responses of a stream, in order and whatever wraps, and leave the rest. */
  lemma {:induction false} CommandsRecoverResponses(p: Peer, counter: u16, commands: seq<Command>, rs: seq<Response>,
                                                    rest: seq<byte>)
    requires p.StreamPeer? && p.up && |commands| == |rs|
    requires forall i :: 0 <= i < |commands| ==> commands[i].Proper() && commands[i].attempt.Fits()
    requires forall i :: 0 <= i < |rs| ==> rs[i].Legal()
    requires p.incoming == Stream(rs, counter) + rest
    ensures var os := ExchangeAll(p, counter, commands);
      && Recovers(os, counter, commands, rs)
      && (rs != [] ==> os[|os| - 1].peer.StreamPeer? && os[|os| - 1].peer.incoming == rest)
    decreases |rs|
  {
    if rs != [] {
      var next := ToU16(counter as int + 1);
      var o := FirstExchange(p, counter, commands, rs, rest);
      CommandsRecoverResponses(o.peer, o.counter, commands[1..], rs[1..], rest);
      OneMoreRecovered(o, ExchangeAll(o.peer, o.counter, commands[1..]), counter, commands, rs);
      if |rs| == 1 {
        assert Stream(rs[1..], next) + rest == rest;
      }
    }
  }

  lemma {:induction false} FirstExchange(p: Peer, counter: u16, commands: seq<Command>, rs: seq<Response>,
                                         rest: seq<byte>)
    returns (o: Outcome)
    requires p.StreamPeer? && p.up && |commands| == |rs| && rs != []
    requires forall i :: 0 <= i < |commands| ==> commands[i].Proper() && commands[i].attempt.Fits()
    requires forall i :: 0 <= i < |rs| ==> rs[i].Legal()
    requires p.incoming == Stream(rs, counter) + rest
    ensures o.peer.StreamPeer? && o.peer.up && o.counter == ToU16(counter as int + 1)
    ensures o == Result(o.peer, o.counter, commands[0].attempt, rs[0])
    ensures o.peer.incoming == Stream(rs[1..], o.counter) + rest
    ensures ExchangeAll(p, counter, commands) == [o] + ExchangeAll(o.peer, o.counter, commands[1..])
  {
    var more := Stream(rs[1..], ToU16(counter as int + 1)) + rest;
    assert p.incoming == rs[0].Wire(counter) + more;
    ReceiveInStep(p, counter, commands[0].attempt, commands[0].stack, rs[0], counter, more);
    o := Exchange(p, counter, commands[0].attempt, commands[0].stack);
  }

  /** Outcome `i` is that of the response to the request with identifier `counter + i`. */
  predicate Recovers(os: seq<Outcome>, counter: u16, commands: seq<Command>, rs: seq<Response>) {
    && |os| == |rs| == |commands|
    && forall i :: 0 <= i < |os| ==> os[i] == Result(os[i].peer, Ahead(counter, i + 1), commands[i].attempt, rs[i])
  }

  lemma {:induction false} OneMoreRecovered(o: Outcome, os: seq<Outcome>, counter: u16, commands: seq<Command>,
                                            rs: seq<Response>)
    requires rs != [] && |commands| == |rs|
    requires Recovers(os, ToU16(counter as int + 1), commands[1..], rs[1..])
    requires o == Result(o.peer, ToU16(counter as int + 1), commands[0].attempt, rs[0])
    ensures Recovers([o] + os, counter, commands, rs)
  {
    assert Ahead(ToU16(counter as int + 1), 0) == ToU16(counter as int + 1);
    forall i | 1 <= i < |[o] + os|
      ensures ([o] + os)[i] == Result(([o] + os)[i].peer, Ahead(counter, i + 1), commands[i].attempt, rs[i])
    {
      assert commands[1..][i - 1] == commands[i] && rs[1..][i - 1] == rs[i];
      assert Ahead(counter, i + 1) == Ahead(ToU16(counter as int + 1), i);
    }
  }

  // ------------------------------------------------ emulated register file

  /** A call on an emulated device: connecting it, or a get or set command on a handle. */
  datatype Action = Plug(kind: Kind, handle: int) | Do(handle: int, command: Command)

  /** The command's attempt sets register `r`, on whatever handle. */
  predicate Sets(a: Attempt, r: Reg) {
    a.Fits() && Register(Delivered(a, 0).name) == Some(r) && Takes(r, a.command)
  }

  /** Handles are real, names are C strings, and a value set by the matching command fits its register. */
  predicate Sane(x: Action) {
    && x.handle >= 0
    && (x.Do? ==> x.command.Proper())
    && (x.Do? ==> forall r: Reg :: Sets(x.command.attempt, r) ==>
      |ValueSent(x.command.attempt.command, x.command.attempt.value)| <= Width(r))
  }

  ghost predicate AllSane(history: seq<Action>) {
    forall i :: 0 <= i < |history| ==> Sane(history[i])
  }

  /** The handle a device was last connected under. */
  function HandleIn(history: seq<Action>, k: Kind): int {
    if history == [] then -1 else
    var n := |history| - 1;
    if history[n].Plug? && history[n].kind == k then history[n].handle else HandleIn(history[..n], k)
  }

  /** What action `x` after `history` stores in register `r`, if anything. */
  ghost function Effect(history: seq<Action>, x: Action, r: Reg): (v: Option<seq<byte>>)
    requires Sane(x)
    ensures v.Some? ==> |v.value| == Width(r)
  {
    match x
    case Plug(k, _) => if Owner(r) == k then Some(Initial(r)) else None
    case Do(h, c) =>
      if Sets(c.attempt, r) && h == HandleIn(history, Owner(r))
        then Some(Stored(r, ValueSent(c.attempt.command, c.attempt.value))) else None
  }

  /** The value a register must hold after a history: that of the last action with an effect on it. */
  ghost function ValueIn(history: seq<Action>, r: Reg): seq<byte>
    requires AllSane(history)
  {
    if history == [] then [] else
    var n := |history| - 1;
    var v := Effect(history[..n], history[n], r);
    if v.Some? then v.value else ValueIn(history[..n], r)
  }

  /** Running a history through packets, the emulated server and back. */
  ghost function After(history: seq<Action>, counter: u16): (Emu, u16)
    requires AllSane(history)
  {
    if history == [] then (START, counter) else
    var n := |history| - 1;
    var (e, c) := After(history[..n], counter);
    match history[n]
    case Plug(k, h) => (Attach(e, k, h), c)
    case Do(h, x) =>
      if Sendable(EmulatorPeer(e, h), x.attempt) then   // always so: RegisterFile
        var o := Exchange(EmulatorPeer(e, h), c, x.attempt, x.stack);
        (o.peer.emu, o.counter)
      else (e, c)
  }

  /** One command on an emulated device: what the server keeps, and what the caller gets. */
  lemma {:induction false} EmulatedCommand(e: Emu, handle: int, counter: u16, a: Attempt, stack: seq<byte>)
    requires Sendable(EmulatorPeer(e, handle), a) && a.Fits() && |stack| == VALUE_MAX
    ensures Fitting(e, handle, Delivered(a, counter))
    ensures var o, heard := Exchange(EmulatorPeer(e, handle), counter, a, stack),
      Receive(e, handle, Delivered(a, counter));
      && o.peer == EmulatorPeer(heard, handle) && o.status == 0 && o.counter == ToU16(counter as int + 1)
      && o.error == None && o.size == (if a.command == 4 then Some(Announced(heard)) else None)
      && (Announced(heard) == 0 || a.command > GET_DATA ==> o.value == None)
      && (Announced(heard) > 0 && a.command <= GET_DATA ==>
           var r := Register(Delivered(a, counter).name).value;
           o.value == Some(if heard.Handle(Owner(r)) == handle then heard.Get(r) else stack[..Width(r)]))
  {
    WireArrives(EmulatorPeer(e, handle), counter, a);
    var heard := Receive(e, handle, Delivered(a, counter));
    var header := ResponseHeader(RSP_OK, counter, Announced(heard));
    assert Overwrite(Zeros(RSP_HEADER_SIZE), header) == header;
    var n := Announced(heard);
    if n > 0 {
      var r := Register(heard.name).value;
      assert Overwrite(stack, heard.Get(r))[..n] == heard.Get(r);
    }
  }

  /** A command whose packet cannot be made fails, and reaches nobody. */
  lemma {:induction false} RefusedCommand(p: Peer, counter: u16, a: Attempt, stack: seq<byte>)
    requires Sendable(p, a) && WithinLimits(p) && |stack| == VALUE_MAX
    requires |a.name| > 256 || |a.value| > 1024
    ensures Exchange(p, counter, a, stack) == Outcome(p, counter, 1, None, None, None)
  {
  }

  /** Asking an emulated device for a variable it does not know succeeds and gives nothing. */
  lemma {:induction false} UnknownVariable(e: Emu, handle: int, counter: u16, a: Attempt, stack: seq<byte>,
                                           name: string)
    requires Sendable(EmulatorPeer(e, handle), a) && a.Fits() && |stack| == VALUE_MAX
    requires IsAscii(name) && a.name == Ascii(name) && |a.name| <= 255
    requires Announced(e.(name := a.name)) == 0
    ensures var o := Exchange(EmulatorPeer(e, handle), counter, a, stack);
      && o.status == 0 && o.value == None && o.error == None && o.size == (if a.command == 4 then Some(0) else None)
  {
    EmulatedCommand(e, handle, counter, a, stack);
  }

  /** The server's state is what the history says it must be. */
  ghost predicate Agrees(e: Emu, history: seq<Action>)
    requires AllSane(history)
  {
    && (forall k: Kind :: e.Handle(k) == HandleIn(history, k))
    && (forall r: Reg :: e.Has(r) <==> HandleIn(history, Owner(r)) >= 0)
    && (forall r: Reg :: e.Has(r) ==> |e.Get(r)| == Width(r) && e.Get(r) == ValueIn(history, r))
  }

  lemma {:induction false} SaneIsSendable(e: Emu, history: seq<Action>, h: int, c: Command)
    requires AllSane(history) && Agrees(e, history) && Sane(Do(h, c))
    ensures Sendable(EmulatorPeer(e, h), c.attempt)
  {
    var name := Delivered(c.attempt, 0).name;
    if c.attempt.Fits() && Register(name).Some? && Takes(Register(name).value, c.attempt.command) {
      assert Sets(c.attempt, Register(name).value);
    }
  }

  lemma {:induction false} ReceiveAgrees(e: Emu, history: seq<Action>, h: int, c: Command, id: u16)
    requires AllSane(history) && Agrees(e, history) && Sane(Do(h, c)) && c.attempt.Fits()
    requires Fitting(e, h, Delivered(c.attempt, id))
    ensures AllSane(history + [Do(h, c)]) && Agrees(Receive(e, h, Delivered(c.attempt, id)), history + [Do(h, c)])
  {
    var longer, r := history + [Do(h, c)], Delivered(c.attempt, id);
    var t := Receive(e, h, r);
    assert longer[..|history|] == history;
    forall q: Reg
      ensures t.Has(q) <==> e.Has(q)
      ensures t.Has(q) ==> |t.Get(q)| == Width(q) && t.Get(q) == ValueIn(longer, q)
    {
      if Hits(e, h, r.command, r.name) {
        EmuSetGet(e.(id := r.id, name := r.name), Register(r.name).value, Stored(Register(r.name).value, r.value), q);
      }
      assert Sets(c.attempt, q) <==> Register(r.name) == Some(q) && Takes(q, r.command);
    }
  }

  lemma {:induction false} FailureAgrees(e: Emu, history: seq<Action>, h: int, c: Command)
    requires AllSane(history) && Agrees(e, history) && Sane(Do(h, c)) && !c.attempt.Fits()
    ensures AllSane(history + [Do(h, c)]) && Agrees(e, history + [Do(h, c)])
  {
    assert (history + [Do(h, c)])[..|history|] == history;
  }

  lemma {:induction false} AttachAgrees(e: Emu, history: seq<Action>, k: Kind, h: int)
    requires AllSane(history) && Agrees(e, history) && h >= 0
    ensures AllSane(history + [Plug(k, h)]) && Agrees(Attach(e, k, h), history + [Plug(k, h)])
  {
    assert (history + [Plug(k, h)])[..|history|] == history;
    forall q: Reg
      ensures Attach(e, k, h).Has(q) <==> e.Has(q) || Owner(q) == k
      ensures Attach(e, k, h).Has(q) ==> Attach(e, k, h).Get(q) == if Owner(q) == k then Initial(q) else e.Get(q)
    {
      AttachGet(e, k, h, q);
    }
  }

  /** After any run of connects, gets and sets, handles and registers are what the history says. */
  lemma {:induction false} RegisterFile(history: seq<Action>, counter: u16)
    requires AllSane(history)
    ensures Agrees(After(history, counter).0, history)
    decreases |history|
  {
    if history != [] {
      var n := |history| - 1;
      RegisterFile(history[..n], counter);
      var (e, c) := After(history[..n], counter);
      assert history == history[..n] + [history[n]];
      match history[n]
      case Plug(k, h) =>
        AttachAgrees(e, history[..n], k, h);
      case Do(h, x) =>
        SaneIsSendable(e, history[..n], h, x);
        if x.attempt.Fits() {
          EmulatedCommand(e, h, c, x.attempt, x.stack);
          ReceiveAgrees(e, history[..n], h, x, c);
        } else {
          FailureAgrees(e, history[..n], h, x);
        }
    }
  }

  /**
   * Every get, on the handle of the device that has the variable, returns what the history says
   * the register holds; on any other handle it reports success and hands over whatever the
   * payload buffer held.
   */
  lemma {:induction false} GetReadsRegister(history: seq<Action>, counter: u16, h: int, c: Command, r: Reg)
    requires AllSane(history) && Sane(Do(h, c)) && c.attempt.command <= GET_DATA
    requires |c.attempt.name| < NAME_MAX && |c.attempt.value| <= VALUE_MAX && Register(c.attempt.name) == Some(r)
    requires HandleIn(history, Owner(r)) >= 0
    ensures var (e, n) := After(history, counter);
      && Sendable(EmulatorPeer(e, h), c.attempt)
      && var o := Exchange(EmulatorPeer(e, h), n, c.attempt, c.stack);
        && o.status == SA_OK
        && o.value == Some(if h == HandleIn(history, Owner(r)) then ValueIn(history, r) else c.stack[..Width(r)])
  {
    RegisterFile(history, counter);
    var (e, n) := After(history, counter);
    SaneIsSendable(e, history, h, c);
    EmulatedCommand(e, h, n, c.attempt, c.stack);
  }

  /** No later action of `tail` affects register `r`. */
  ghost predicate Untouched(history: seq<Action>, tail: seq<Action>, r: Reg)
    requires AllSane(history + tail)
  {
    forall i :: 0 <= i < |tail| ==> Sane(tail[i]) && Effect(history + tail[..i], tail[i], r) == None
  }

  lemma {:induction false} UntouchedKeepsValue(history: seq<Action>, tail: seq<Action>, r: Reg)
    requires AllSane(history + tail) && AllSane(history) && Untouched(history, tail, r)
    ensures ValueIn(history + tail, r) == ValueIn(history, r)
    decreases |tail|
  {
    if tail == [] {
      assert history + tail == history;
    } else {
      var n := |tail| - 1;
      var before, x := history + tail[..n], tail[n];
      assert history + tail == before + [x];
      SanePrefix(before, x);
      assert forall i :: 0 <= i < n ==> tail[..n][..i] == tail[..i];
      UntouchedKeepsValue(history, tail[..n], r);
      assert Effect(history + tail[..n], tail[n], r) == None;
      OneUntouched(before, x, r);
    }
  }

  lemma {:induction false} SanePrefix(before: seq<Action>, x: Action)
    requires AllSane(before + [x])
    ensures AllSane(before) && Sane(x)
  {
    forall i | 0 <= i < |before| ensures Sane(before[i]) {
      assert (before + [x])[i] == before[i];
    }
    assert (before + [x])[|before|] == x;
  }

  lemma {:induction false} OneUntouched(before: seq<Action>, x: Action, r: Reg)
    requires AllSane(before) && Sane(x) && AllSane(before + [x]) && Effect(before, x, r) == None
    ensures ValueIn(before + [x], r) == ValueIn(before, r)
  {
    assert (before + [x])[..|before|] == before;
  }

  /** The round trip: a get returns the octets last set, for every register not passed through a float. */
  lemma {:induction false} GetReturnsLastSet(history: seq<Action>, h: int, store: Command, tail: seq<Action>,
                                             counter: u16, load: Command, r: Reg)
    requires AllSane(history) && Sane(Do(h, store)) && Sane(Do(h, load)) && AllSane(history + [Do(h, store)] + tail)
    requires Sets(store.attempt, r) && !ThroughFloat(r) && |store.attempt.value| == Width(r)
    requires h == HandleIn(history, Owner(r))
    requires AllSane(history + [Do(h, store)]) && Untouched(history + [Do(h, store)], tail, r)
    requires load.attempt.command <= GET_DATA && |load.attempt.name| < NAME_MAX && |load.attempt.value| <= VALUE_MAX
    requires Register(load.attempt.name) == Some(r) && HandleIn(history + [Do(h, store)] + tail, Owner(r)) == h
    ensures var (e, n) := After(history + [Do(h, store)] + tail, counter);
      && Sendable(EmulatorPeer(e, h), load.attempt)
      && var o := Exchange(EmulatorPeer(e, h), n, load.attempt, load.stack);
        o.status == SA_OK && o.value == Some(store.attempt.value)
  {
    var begun := history + [Do(h, store)];
    assert begun[..|history|] == history;
    UntouchedKeepsValue(begun, tail, r);
    GetReadsRegister(begun + tail, counter, h, load, r);
  }

  // ------------------------------------------------------------- the method

  /** A byte stream behind a session: octets to be read, and what was written. */
  class Channel {
    var incoming: seq<byte>
    var sent: seq<seq<byte>>
    var up: bool

    constructor (incoming: seq<byte>, up: bool)
      ensures this.incoming == incoming && sent == [] && this.up == up
    {
      this.incoming, sent, this.up := incoming, [], up;
    }
  }

  /** The read and write calls a session was bound to. */
  datatype Transport = ViaServer(server: Server, handle: int) | ViaChannel(channel: Channel) {
    ghost function Objects(): set<object> {
      match this
      case ViaServer(server, _) => {server}
      case ViaChannel(channel) => {channel}
    }

    ghost function PeerOf(): Peer
      reads Objects()
    {
      match this
      case ViaServer(server, handle) => EmulatorPeer(server.State(), handle)
      case ViaChannel(channel) => StreamPeer(channel.incoming, channel.sent, channel.up)
    }

    ghost predicate Valid()
      reads Objects()
    {
      ViaServer? ==> server.Valid()
    }

    method Write(wire: seq<byte>) returns (ret: int)
      requires Valid() && (PeerOf().EmulatorPeer? ==> handle >= 0 && Arrives(PeerOf(), wire))
      modifies Objects()
      ensures Valid() && (PeerOf(), ret) == PeerWrite(old(PeerOf()), wire)
    {
      match this
      case ViaServer(server, handle) =>
        ret := server.Write(handle, wire);
      case ViaChannel(channel) =>
        if channel.up {
          channel.sent := channel.sent + [wire];
          ret := |wire|;
        } else {
          ret := -1;
        }
    }

    method Read(buf: array<byte>, length: nat) returns (ret: int)
      requires Valid() && length <= buf.Length && buf !in Objects()
      requires ViaServer? ==>
        handle >= 0 && Ready(server.State()) && (length == RSP_HEADER_SIZE || length == Announced(server.State()))
      modifies Objects(), buf
      ensures Valid() && (PeerOf(), buf[..], ret) == PeerRead(old(PeerOf()), old(buf[..]), length)
    {
      match this
      case ViaServer(server, handle) =>
        ret := server.Read(handle, buf, length);
      case ViaChannel(channel) =>
        if length <= |channel.incoming| {
          CopyTo(buf, channel.incoming[..length]);
          channel.incoming := channel.incoming[length..];
          ret := length;
        } else {
          ret := -1;
        }
    }
  }

  /** The receiving half of send_command. */
  method ReceiveResponse(t: Transport, id: u16, command: byte, data: array<byte>, ghost counter: u16)
    returns (status: int, value: Option<seq<byte>>, size: Option<nat>, error: Option<seq<byte>>)
    requires t.Valid() && Answering(t.PeerOf()) && data.Length == VALUE_MAX && data !in t.Objects()
    modifies t.Objects(), data
    ensures t.Valid()
    ensures Outcome(t.PeerOf(), counter, status, value, size, error)
      == Reception(old(t.PeerOf()), counter, id, command, old(data[..]))
  {
    value, size, error := None, None, None;
    var header := new byte[RSP_HEADER_SIZE](_ => 0);
    assert header[..] == Zeros(RSP_HEADER_SIZE);
    var ret := t.Read(header, RSP_HEADER_SIZE);
    if ret < 0 {
      return SA_ERROR, None, None, None;
    }
    var response := new ResponsePacket();
    response.Load(header[..]);
    var verified := response.Verify(id);
    assert verified == 0 <==> Accepts(header[..], id);
    if verified != 0 {
      return SA_ERROR, None, None, None;
    }
    if response.dataLength > 0 {
      ret := t.Read(data, response.dataLength);
      if ret < 0 {
        return SA_ERROR, None, None, None;
      }
      if response.responseCode == RSP_OK {
        if command <= GET_DATA {
          value := Some(data[..response.dataLength]);
        }
      } else {
        error := Some(data[..response.dataLength]);
        return SA_ERROR, None, None, error;
      }
    }
    if command == GET_DATA {
      size := Some(response.dataLength);
    }
    return SA_OK, value, size, None;
  }

  /** send_command */
  method SendCommand(t: Transport, counter: Counter, a: Attempt)
    returns (status: int, value: Option<seq<byte>>, size: Option<nat>, error: Option<seq<byte>>, ghost stack: seq<byte>)
    requires t.Valid() && Sendable(t.PeerOf(), a) && WithinLimits(t.PeerOf()) && counter !in t.Objects()
    modifies t.Objects(), counter
    ensures t.Valid() && |stack| == VALUE_MAX
    ensures Outcome(t.PeerOf(), counter.value, status, value, size, error)
         == Exchange(old(t.PeerOf()), old(counter.value), a, stack)
  {
    var data := new byte[VALUE_MAX];
    stack := data[..];
    var written, id := SendRequest(t, counter, a);
    if written < 0 {
      return SA_ERROR, None, None, None, stack;
    }
    status, value, size, error := ReceiveResponse(t, id, a.command, data, counter.value);
  }

  /** The sending half of send_command: -1 when the packet cannot be made or written. */
  method SendRequest(t: Transport, counter: Counter, a: Attempt) returns (written: int, id: u16)
    requires t.Valid() && Sendable(t.PeerOf(), a) && WithinLimits(t.PeerOf()) && counter !in t.Objects()
    modifies t.Objects(), counter
    ensures t.Valid() && counter.value == NextCounter(old(counter.value), a) && id == old(counter.value)
    ensures !a.Fits() ==> written == -1 && t.PeerOf() == old(t.PeerOf())
    ensures a.Fits() ==> Answering(t.PeerOf()) && RequestReaches(old(t.PeerOf()), id, a, t.PeerOf(), written)
  {
    ghost var peer := t.PeerOf();
    var request := new RequestPacket();
    var length;
    length, id := counter.CreateRequest(request, a);
    if length < 0 {
      return -1, id;
    }
    WireArrives(peer, id, a);
    var wire := request.Layout()[..length];
    written := t.Write(wire);
  }

  /** `after` and `written` are the outcome of writing the request to `before`. */
  predicate RequestReaches(before: Peer, id: u16, a: Attempt, after: Peer, written: int)
    requires a.Fits()
  {
    var wire := RequestWire(a.command, id, a.name, ValueSent(a.command, a.value));
    (before.EmulatorPeer? ==> Arrives(before, wire)) && (after, written) == PeerWrite(before, wire)
  }
}
