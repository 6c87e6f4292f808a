/** From sa_connect to the emulated devices: sessions of src/sensact.c over the server of src/sensact-emulator.c. */
module EndToEnd {
  import opened Bytes
  import opened Packet
  import opened Emulator
  import opened Client
  import opened Status
  import Core

  const EMULATOR_NAME := "emulator"

  /** emulator_backend: its own connect, disconnect, read and write, and no get or set calls. */
  const EMULATOR := Core.Backend(Some(EMULATOR_NAME), 0, Some(0), Some(0), Some(0), Core.NO_CALLS)

  /** The registered devices, and the emulated device each configuration names. */
  datatype Setup = Setup(devices: seq<Core.Device>, names: nat -> seq<byte>) {
    function KindOf(d: Core.Device): Option<Kind> {
      if d.backend == EMULATOR_NAME then KindNamed(names(d.config)) else None
    }
  }

  /**
   * A call of the library: registering a further backend, connecting a device by name or disconnecting a
   * handle, where `answer` stands in for a backend other than the emulator, or one of the ten get and set
   * calls on a handle.
   */
  datatype Api =
    | Enroll(backend: Core.Backend)
    | Open(device: string, answer: bool)
    | Close(handle: int, answer: bool)
    | Use(handle: int, op: Core.Op, name: seq<byte>, value: seq<byte>, stack: seq<byte>)

  /** `detached` are the emulated devices whose memory a disconnect detached, though the server goes on using it. */
  datatype World = World(core: Core.State, emu: Emu, counter: u16, detached: set<Kind>)

  /** init registers the emulator. */
  const BOOT := World(Core.State([EMULATOR], map[]), START, 0, {})

  /** The command code each default call passes to send_command. */
  function CommandOf(op: Core.Op): byte {
    match op
    case GetChar => GET_CHAR
    case GetShort => GET_SHORT
    case GetInt => GET_INT
    case GetFloat => GET_FLOAT
    case GetData => GET_DATA
    case SetChar => SET_CHAR
    case SetShort => SET_SHORT
    case SetInt => SET_INT
    case SetFloat => SET_FLOAT
    case SetData => SET_DATA
  }

  /** The codes on the wire, in the order of the protocol. */
  lemma {:induction false} CommandCodes()
    ensures CommandOf(Core.GetChar) == 0 && CommandOf(Core.GetShort) == 1 && CommandOf(Core.GetInt) == 2
    ensures CommandOf(Core.GetFloat) == 3 && CommandOf(Core.GetData) == 4
    ensures CommandOf(Core.SetChar) == 5 && CommandOf(Core.SetShort) == 6 && CommandOf(Core.SetInt) == 7
    ensures CommandOf(Core.SetFloat) == 8 && CommandOf(Core.SetData) == 9
  {
  }

  /**
   * The octets of the value the C type of the call gives it; set_data takes any number, of which more than 1024
   * are refused.
   */
  predicate Sized(op: Core.Op, value: seq<byte>) {
    match op
    case SetChar => |value| == 1
    case SetShort => |value| == 2
    case SetInt => |value| == 4
    case SetFloat => |value| == 4
    case SetData => true
    case _ => value == []
  }

  function Order(c: Api, op: Core.Op): Command
    requires c.Use?
  {
    Command(Attempt(CommandOf(op), c.name, c.value), c.stack)
  }

  /** What the connect callback answers: emulator_connect accepts the three devices it knows. */
  function Granted(setup: Setup, name: string, answer: bool): bool {
    var d := Core.FirstDevice(setup.devices, name);
    && d < |setup.devices|
    && if setup.devices[d].backend == EMULATOR_NAME then setup.KindOf(setup.devices[d]).Some? else answer
  }

  function Connected(setup: Setup, core: Core.State, name: string, answer: bool): (Core.State, int) {
    Core.Step(Some(setup.devices), core, Core.Call.Connect(name, Granted(setup, name, answer)))
  }

  /** The kind of emulated device a connect call brought up, if it did. */
  function Attached(setup: Setup, core: Core.State, name: string, answer: bool): Option<Kind> {
    if Connected(setup, core, name, answer).1 < 0 then None
    else setup.KindOf(setup.devices[Core.FirstDevice(setup.devices, name)])
  }

  /** A session of the emulator. */
  predicate OnEmulator(core: Core.State, h: int) {
    h in core.live && core.live[h].device.backend == EMULATOR_NAME
  }

  /**
   * The call does not run into detached memory: every read of the server asks each device it ever
   * created for the names of its variables.
   */
  predicate Served(w: World, c: Api)
    requires c.Use?
  {
    w.detached == {} || !Order(c, c.op).attempt.Fits()
  }

  /** The packet can be sent to an emulated device, or is refused before. */
  ghost predicate Orderable(w: World, h: int, a: Command) {
    Sendable(EmulatorPeer(w.emu, h), a.attempt) && WithinLimits(EmulatorPeer(w.emu, h)) && |a.stack| == VALUE_MAX
  }

  /**
   * What a get or set call on a live handle leads to: the function the session was bound to, when that
   * is a default one, and none when the call runs into detached memory.
   */
  ghost function Result(w: World, c: Api): Option<Outcome>
    requires c.Use? && c.handle in w.core.live
  {
    match w.core.live[c.handle].calls.Get(c.op)
    case Default(op) =>
      var a := Order(c, op);
      if Served(w, c) && Orderable(w, c.handle, a)
      then Some(Exchange(EmulatorPeer(w.emu, c.handle), w.counter, a.attempt, a.stack)) else None
    case _ => None
  }

  /** The devices emulator_disconnect detaches: those that work on the handle of an emulator's session. */
  ghost function Detached(w: World, h: int): set<Kind> {
    if OnEmulator(w.core, h) then set k: Kind | w.emu.Handle(k) == h else {}
  }

  ghost function Next(setup: Setup, w: World, c: Api): World {
    match c
    case Enroll(backend) => w.(core := Core.Step(Some(setup.devices), w.core, Core.Register(backend)).0)
    case Open(name, answer) =>
      var (core, h) := Connected(setup, w.core, name, answer);
      var kind := Attached(setup, w.core, name, answer);
      if kind.Some? then World(core, Attach(w.emu, kind.value, h), w.counter, w.detached - {kind.value})
        else w.(core := core)
    case Close(h, answer) =>
      w.(core := Core.Step(Some(setup.devices), w.core, Core.Disconnect(h, answer)).0,
        detached := w.detached + Detached(w, h))
    case Use(h, _, _, _, _) =>
      if h in w.core.live && Result(w, c).Some?
      then var o := Result(w, c).value; w.(emu := o.peer.emu, counter := o.counter)
      else w
  }

  ghost function Reach(setup: Setup, cs: seq<Api>): World {
    if cs == [] then BOOT else Next(setup, Reach(setup, cs[..|cs| - 1]), cs[|cs| - 1])
  }

  /** A get or set is made on a live session of the emulator, with a C string and a value that fits its register. */
  predicate Meant(w: World, c: Api) {
    c.Use? ==> OnEmulator(w.core, c.handle) && Sized(c.op, c.value) && Sane(Do(c.handle, Order(c, c.op)))
  }

  predicate Proper(w: World, c: Api) {
    Meant(w, c) && (c.Use? ==> Served(w, c))
  }

  ghost predicate AllProper(setup: Setup, cs: seq<Api>) {
    cs == [] || (AllProper(setup, cs[..|cs| - 1]) && Proper(Reach(setup, cs[..|cs| - 1]), cs[|cs| - 1]))
  }

  lemma {:induction false} OneMoreCall(setup: Setup, cs: seq<Api>, c: Api)
    ensures Reach(setup, cs + [c]) == Next(setup, Reach(setup, cs), c)
    ensures AllProper(setup, cs + [c]) <==> AllProper(setup, cs) && Proper(Reach(setup, cs), c)
  {
    assert (cs + [c])[..|cs|] == cs;
  }

  // ---------------------------------------------------- the two views agree

  /** What a call is to the emulated devices. */
  ghost function Trace(setup: Setup, w: World, c: Api): seq<Action> {
    match c
    case Enroll(_) => []
    case Open(name, answer) =>
      var kind := Attached(setup, w.core, name, answer);
      if kind.Some? then [Plug(kind.value, Connected(setup, w.core, name, answer).1)] else []
    case Close(_, _) => []
    case Use(h, op, _, _, _) => [Do(h, Order(c, op))]
  }

  ghost function History(setup: Setup, cs: seq<Api>): seq<Action> {
    if cs == [] then [] else History(setup, cs[..|cs| - 1]) + Trace(setup, Reach(setup, cs[..|cs| - 1]), cs[|cs| - 1])
  }

  /** A device that was brought up is detached exactly when the handle it works on is no live session of its kind. */
  predicate Inv(setup: Setup, w: World) {
    && Core.Sound(w.core)
    && w.core.backends != [] && w.core.backends[0] == EMULATOR
    && forall k: Kind :: Settled(setup, w, k)
  }

  predicate Settled(setup: Setup, w: World, k: Kind) {
    if w.emu.Handle(k) >= 0 then k in w.detached <==> !Holder(setup, w, k) else k !in w.detached
  }

  predicate Holder(setup: Setup, w: World, k: Kind) {
    w.emu.Handle(k) in w.core.live && setup.KindOf(w.core.live[w.emu.Handle(k)].device) == Some(k)
  }

  /** A session of the emulator runs the defaults: it has no calls of its own. */
  lemma {:induction false} RunsDefaults(core: Core.State, h: int, op: Core.Op)
    requires Core.Sound(core) && core.backends != [] && core.backends[0] == EMULATOR && OnEmulator(core, h)
    ensures core.live[h].calls.Get(op) == Core.Default(op)
  {
    SessionOfEmulator(core, h);
    Core.ResolvedAt(EMULATOR.calls, op);
  }

  lemma {:induction false} OpenKeepsInv(setup: Setup, w: World, name: string, answer: bool)
    requires Inv(setup, w)
    ensures Inv(setup, Next(setup, w, Open(name, answer)))
    ensures Attached(setup, w.core, name, answer).Some? ==> Connected(setup, w.core, name, answer).1 >= 0
  {
    var granted := Granted(setup, name, answer);
    Core.StepKeepsSound(Some(setup.devices), w.core, Core.Call.Connect(name, granted));
    var h := Connected(setup, w.core, name, answer).1;
    var kind, t := Attached(setup, w.core, name, answer), Next(setup, w, Open(name, answer));
    LiveGrows(Some(setup.devices), w.core, name, granted);
    if kind.Some? {
      AttachHandles(w.emu, kind.value, h);
    }
    forall k: Kind ensures Settled(setup, t, k) {
      assert Settled(setup, w, k);
    }
  }

  /** Disconnecting detaches just the device that worked on the handle. */
  lemma {:induction false} CloseKeepsInv(setup: Setup, w: World, h: int, answer: bool)
    requires Inv(setup, w)
    ensures Inv(setup, Next(setup, w, Close(h, answer)))
  {
    Core.StepKeepsSound(Some(setup.devices), w.core, Core.Disconnect(h, answer));
    if OnEmulator(w.core, h) {
      SessionOfEmulator(w.core, h);
    }
    forall k: Kind ensures Settled(setup, Next(setup, w, Close(h, answer)), k) {
      assert Settled(setup, w, k);
    }
  }

  lemma {:induction false} SessionOfEmulator(core: Core.State, h: int)
    requires Core.Sound(core) && core.backends != [] && core.backends[0] == EMULATOR && OnEmulator(core, h)
    ensures core.live[h] == Core.BoundTo(core.live[h].device, EMULATOR)
  {
    var i :| 0 <= i < |core.backends| && Core.Serves(core.backends[i], core.live[h]);
    assert i == 0;
  }

  lemma {:induction false} AttachHandles(e: Emu, kind: Kind, h: int)
    ensures forall k: Kind :: Attach(e, kind, h).Handle(k) == if k == kind then h else e.Handle(k)
  {
  }

  /** A connect adds at most a session of the device named. */
  lemma {:induction false} LiveGrows(devices: Option<seq<Core.Device>>, core: Core.State, name: string, granted: bool)
    requires devices.Some?
    ensures var (t, h) := Core.Step(devices, core, Core.Call.Connect(name, granted));
      var d := Core.FirstDevice(devices.value, name);
      && (forall k :: k in core.live ==> k in t.live && t.live[k] == core.live[k])
      && (forall k :: k in t.live ==> k in core.live || k == h)
      && (h < 0 ==> t == core)
      && (h >= 0 ==> h !in core.live && d < |devices.value| && h in t.live && t.live[h].device == devices.value[d])
      && t.backends == core.backends
  {
  }

  /** A command moves no handle. */
  lemma {:induction false} UseKeepsInv(setup: Setup, w: World, c: Api)
    requires Inv(setup, w) && c.Use? && Proper(w, c)
    ensures Inv(setup, Next(setup, w, c))
  {
    var t := Next(setup, w, c);
    HandlesStay(w, c);
    forall k: Kind ensures Settled(setup, t, k) {
      assert Settled(setup, w, k);
    }
  }

  lemma {:induction false} HandlesStay(w: World, c: Api)
    requires c.Use? && c.handle in w.core.live
    ensures Result(w, c).Some? ==>
      && Result(w, c).value.peer.EmulatorPeer?
      && forall k: Kind :: Result(w, c).value.peer.emu.Handle(k) == w.emu.Handle(k)
  {
    if Result(w, c).Some? {
      var op := w.core.live[c.handle].calls.Get(c.op).op;
      var a := Order(c, op);
      if a.attempt.Fits() {
        EmulatedCommand(w.emu, c.handle, w.counter, a.attempt, a.stack);
        ReceiveMovesNoHandle(w.emu, c.handle, Delivered(a.attempt, w.counter));
      }
    }
  }

  lemma {:induction false} ReceiveMovesNoHandle(e: Emu, h: int, r: Request)
    requires Fitting(e, h, r)
    ensures forall k: Kind :: Receive(e, h, r).Handle(k) == e.Handle(k)
  {
  }

  lemma {:induction false} AppendSane(history: seq<Action>, x: Action)
    requires AllSane(history) && Sane(x)
    ensures AllSane(history + [x]) && (history + [x])[..|history|] == history
  {
  }

  /** The actions so far explain the devices and the counter. */
  ghost predicate Explains(history: seq<Action>, w: World) {
    AllSane(history) && After(history, 0) == (w.emu, w.counter)
  }

  lemma {:induction false} UseExplained(setup: Setup, w: World, c: Api, history: seq<Action>)
    requires Explains(history, w) && Inv(setup, w) && c.Use? && Proper(w, c)
    ensures Explains(history + [Do(c.handle, Order(c, c.op))], Next(setup, w, c))
  {
    RunsDefaults(w.core, c.handle, c.op);
    AppendSane(history, Do(c.handle, Order(c, c.op)));
  }

  lemma {:induction false} PlugExplained(history: seq<Action>, w: World, k: Kind, h: int, t: World)
    requires Explains(history, w) && h >= 0 && t.emu == Attach(w.emu, k, h) && t.counter == w.counter
    ensures Explains(history + [Plug(k, h)], t)
  {
    AppendSane(history, Plug(k, h));
  }

  lemma {:induction false} CallExplained(setup: Setup, w: World, c: Api, history: seq<Action>)
    requires Explains(history, w) && Inv(setup, w) && Proper(w, c)
    ensures Explains(history + Trace(setup, w, c), Next(setup, w, c)) && Inv(setup, Next(setup, w, c))
  {
    match c
    case Enroll(backend) =>
      EnrollKeepsInv(setup, w, backend);
      assert history + [] == history;
    case Open(name, answer) =>
      OpenKeepsInv(setup, w, name, answer);
      var kind, connected := Attached(setup, w.core, name, answer), Connected(setup, w.core, name, answer);
      if kind.Some? {
        PlugExplained(history, w, kind.value, connected.1, Next(setup, w, c));
      } else {
        assert history + [] == history;
      }
    case Close(h, answer) =>
      CloseKeepsInv(setup, w, h, answer);
      assert history + [] == history;
    case Use(_, _, _, _, _) =>
      UseKeepsInv(setup, w, c);
      UseExplained(setup, w, c, history);
  }

  /** Every run of library calls is, to the devices, the history of actions it traces. */
  lemma {:induction false} Composes(setup: Setup, cs: seq<Api>)
    requires AllProper(setup, cs)
    ensures Inv(setup, Reach(setup, cs)) && Explains(History(setup, cs), Reach(setup, cs))
  {
    if cs != [] {
      var n := |cs| - 1;
      Composes(setup, cs[..n]);
      CallExplained(setup, Reach(setup, cs[..n]), cs[n], History(setup, cs[..n]));
    }
  }

  lemma {:induction false} EnrollKeepsInv(setup: Setup, w: World, backend: Core.Backend)
    requires Inv(setup, w)
    ensures Inv(setup, Next(setup, w, Enroll(backend)))
  {
    Core.StepKeepsSound(Some(setup.devices), w.core, Core.Register(backend));
    var t := Next(setup, w, Enroll(backend));
    forall k: Kind ensures Settled(setup, t, k) {
      assert Settled(setup, w, k);
    }
  }

  // --------------------------------------------------------------- results

  /**
   * A connect that reaches an emulated device returns the lowest free handle, makes it live, and has the
   * device work on it.
   */
  lemma {:induction false} OpenedHandle(setup: Setup, cs: seq<Api>, name: string, answer: bool, k: Kind)
    requires AllProper(setup, cs) && Attached(setup, Reach(setup, cs).core, name, answer) == Some(k)
    ensures var before, after := Reach(setup, cs), Reach(setup, cs + [Open(name, answer)]);
      var h := Connected(setup, before.core, name, answer).1;
      && h == Core.LowestFree(before.core.live, 0)
      && after.emu.Handle(k) == h && h in after.core.live && setup.KindOf(after.core.live[h].device) == Some(k)
      && after.detached == before.detached - {k}
  {
    assert (cs + [Open(name, answer)])[..|cs|] == cs;
    Composes(setup, cs);
    OpenKeepsInv(setup, Reach(setup, cs), name, answer);
    AttachHandles(Reach(setup, cs).emu, k, Connected(setup, Reach(setup, cs).core, name, answer).1);
  }

  /** A device of the emulator whose configuration names none of the three is never connected. */
  lemma {:induction false} UnknownDevice(setup: Setup, core: Core.State, d: Core.Device, rest: seq<Core.Device>,
                                         answer: bool)
    requires setup.devices == [d] + rest && d.backend == "emulator"
    requires setup.names(d.config) != Ascii("engine_device")
    requires setup.names(d.config) != Ascii("senshub_device") && setup.names(d.config) != Ascii("ble_device")
    ensures Connected(setup, core, d.name, answer) == (core, -1)
  {
    DeviceNames();
    assert Core.FirstDevice(setup.devices, d.name) == 0;
    assert KindNamed(setup.names(d.config)) == None;
  }

  /** The call changes register `r`: it brings up the device that has it, or sets it there. */
  ghost predicate Touches(setup: Setup, w: World, c: Api, r: Reg) {
    match c
    case Enroll(_) => false
    case Open(name, answer) => Attached(setup, w.core, name, answer) == Some(Owner(r))
    case Close(_, _) => false
    case Use(h, op, _, _, _) => h == w.emu.Handle(Owner(r)) && Sets(Order(c, op).attempt, r)
  }

  /** The call gets register `r`. */
  predicate Gets(c: Api, r: Reg) {
    c.Use? && CommandOf(c.op) <= GET_DATA && |c.name| < NAME_MAX && Register(c.name) == Some(r)
  }

  /** After any run of library calls, a get on the handle the device works on succeeds with the register's value. */
  lemma {:induction false} GetOnSession(setup: Setup, cs: seq<Api>, c: Api, r: Reg)
    requires AllProper(setup, cs) && Proper(Reach(setup, cs), c) && Gets(c, r)
    requires Reach(setup, cs).emu.Handle(Owner(r)) == c.handle
    ensures AllSane(History(setup, cs)) && c.handle in Reach(setup, cs).core.live
    ensures var o := Result(Reach(setup, cs), c);
      o.Some? && o.value.status == SA_OK && o.value.value == Some(ValueIn(History(setup, cs), r))
  {
    Composes(setup, cs);
    GetExplained(setup, Reach(setup, cs), c, History(setup, cs), r);
  }

  lemma {:induction false} GetExplained(setup: Setup, w: World, c: Api, history: seq<Action>, r: Reg)
    requires Explains(history, w) && Inv(setup, w) && Proper(w, c) && Gets(c, r) && w.emu.Handle(Owner(r)) == c.handle
    ensures var o := Result(w, c);
      o.Some? && o.value.status == SA_OK && o.value.value == Some(ValueIn(history, r))
  {
    RunsDefaults(w.core, c.handle, c.op);
    RegisterFile(history, 0);
    GetReadsRegister(history, 0, c.handle, Order(c, c.op), r);
  }

  lemma {:induction false} UntouchedStays(setup: Setup, cs: seq<Api>, c: Api, r: Reg)
    requires AllProper(setup, cs + [c]) && !Touches(setup, Reach(setup, cs), c, r)
    ensures AllProper(setup, cs) && AllSane(History(setup, cs)) && AllSane(History(setup, cs + [c]))
    ensures ValueIn(History(setup, cs + [c]), r) == ValueIn(History(setup, cs), r)
    ensures Reach(setup, cs + [c]).emu.Handle(Owner(r)) == Reach(setup, cs).emu.Handle(Owner(r))
  {
    assert (cs + [c])[..|cs|] == cs;
    Composes(setup, cs);
    CallExplained(setup, Reach(setup, cs), c, History(setup, cs));
    ValueStays(setup, Reach(setup, cs), c, History(setup, cs), r);
    HandleStays(setup, Reach(setup, cs), c, r);
  }

  lemma {:induction false} ValueStays(setup: Setup, w: World, c: Api, history: seq<Action>, r: Reg)
    requires Explains(history, w) && AllSane(history + Trace(setup, w, c)) && !Touches(setup, w, c, r)
    ensures ValueIn(history + Trace(setup, w, c), r) == ValueIn(history, r)
  {
    RegisterFile(history, 0);
    var trace := Trace(setup, w, c);
    if trace == [] {
      assert history + trace == history;
    } else {
      var x := trace[0];
      assert trace == [x] && (history + [x])[|history|] == x && (history + [x])[..|history|] == history;
      assert Effect(history, x, r) == None;
    }
  }

  lemma {:induction false} HandleStays(setup: Setup, w: World, c: Api, r: Reg)
    requires !Touches(setup, w, c, r)
    ensures Next(setup, w, c).emu.Handle(Owner(r)) == w.emu.Handle(Owner(r))
  {
    match c
    case Enroll(_) =>
    case Open(name, answer) =>
      var kind := Attached(setup, w.core, name, answer);
      if kind.Some? {
        AttachHandles(w.emu, kind.value, Connected(setup, w.core, name, answer).1);
      }
    case Close(_, _) =>
    case Use(h, _, _, _, _) =>
      if h in w.core.live {
        HandlesStay(w, c);
      }
  }

  /** `tail` after `cs` never touches register `r`. */
  ghost predicate Leaves(setup: Setup, cs: seq<Api>, tail: seq<Api>, r: Reg) {
    tail == [] ||
    var n := |tail| - 1;
    Leaves(setup, cs, tail[..n], r) && !Touches(setup, Reach(setup, cs + tail[..n]), tail[n], r)
  }

  lemma {:induction false} TailStays(setup: Setup, cs: seq<Api>, tail: seq<Api>, r: Reg)
    requires AllProper(setup, cs + tail) && Leaves(setup, cs, tail, r)
    ensures AllProper(setup, cs) && AllSane(History(setup, cs)) && AllSane(History(setup, cs + tail))
    ensures ValueIn(History(setup, cs + tail), r) == ValueIn(History(setup, cs), r)
    ensures Reach(setup, cs + tail).emu.Handle(Owner(r)) == Reach(setup, cs).emu.Handle(Owner(r))
    decreases |tail|
  {
    if tail == [] {
      assert cs + tail == cs;
      Composes(setup, cs);
    } else {
      var n := |tail| - 1;
      assert cs + tail == cs + tail[..n] + [tail[n]];
      UntouchedStays(setup, cs + tail[..n], tail[n], r);
      TailStays(setup, cs, tail[..n], r);
    }
  }

  /**
   * End to end: on a handle sa_connect gave out, a get returns the octets the last set stored there,
   * through dispatch, packets, the two-phase reply and the device, whatever else happens in between.
   */
  lemma {:induction false} SetThenGet(setup: Setup, before: seq<Api>, store: Api, tail: seq<Api>, load: Api, r: Reg)
    requires AllProper(setup, before + [store] + tail) && Proper(Reach(setup, before + [store] + tail), load)
    requires store.Use? && store.handle == Reach(setup, before).emu.Handle(Owner(r))
    requires Sets(Order(store, store.op).attempt, r) && !ThroughFloat(r) && |store.value| == Width(r)
    requires Leaves(setup, before + [store], tail, r)
    requires Gets(load, r) && load.handle == store.handle
    ensures load.handle in Reach(setup, before + [store] + tail).core.live
    ensures var o := Result(Reach(setup, before + [store] + tail), load);
      o.Some? && o.value.status == SA_OK && o.value.value == Some(store.value)
  {
    var begun := before + [store];
    TailStays(setup, begun, tail, r);
    StoredValue(setup, before, store, r);
    GetOnSession(setup, begun + tail, load, r);
  }

  lemma {:induction false} StoredValue(setup: Setup, before: seq<Api>, store: Api, r: Reg)
    requires AllProper(setup, before + [store])
    requires store.Use? && store.handle == Reach(setup, before).emu.Handle(Owner(r))
    requires Sets(Order(store, store.op).attempt, r) && !ThroughFloat(r) && |store.value| == Width(r)
    ensures AllSane(History(setup, before + [store])) && ValueIn(History(setup, before + [store]), r) == store.value
    ensures Reach(setup, before + [store]).emu.Handle(Owner(r)) == store.handle
  {
    assert (before + [store])[..|before|] == before;
    Composes(setup, before);
    Composes(setup, before + [store]);
    var history, x := History(setup, before), Do(store.handle, Order(store, store.op));
    RegisterFile(history, 0);
    RegisterFile(history + [x], 0);
    assert (history + [x])[..|history|] == history;
    assert Effect(history, x, r) == Some(store.value);
  }

  // ------------------------------------------------- detached memory

  /**
   * A get or set that is meant for an emulated device is served if and only if every device ever brought
   * up still has its session, or the packet is refused for its size.
   */
  lemma {:induction false} ServedExactly(setup: Setup, cs: seq<Api>, c: Api)
    requires AllProper(setup, cs) && c.Use? && Meant(Reach(setup, cs), c)
    ensures var w := Reach(setup, cs);
      Result(w, c).Some? <==> AllHeld(setup, w) || !Order(c, c.op).attempt.Fits()
  {
    Composes(setup, cs);
    var w, history := Reach(setup, cs), History(setup, cs);
    RunsDefaults(w.core, c.handle, c.op);
    RegisterFile(history, 0);
    SaneIsSendable(w.emu, history, c.handle, Order(c, c.op));
    DetachedExactly(setup, w);
  }

  /** Every emulated device that was brought up works on a live session of its kind. */
  predicate AllHeld(setup: Setup, w: World) {
    forall k: Kind :: w.emu.Handle(k) >= 0 ==> Holder(setup, w, k)
  }

  lemma {:induction false} DetachedExactly(setup: Setup, w: World)
    requires Inv(setup, w)
    ensures w.detached == {} <==> AllHeld(setup, w)
  {
    assert forall k: Kind :: Settled(setup, w, k);
    if w.detached == {} {
      forall k: Kind | w.emu.Handle(k) >= 0 ensures Holder(setup, w, k) {
        assert Settled(setup, w, k);
      }
    } else {
      var k: Kind :| k in w.detached;
      assert Settled(setup, w, k);
    }
  }

  /** No call of `tail` brings up a device of this kind. */
  ghost predicate NotReopened(setup: Setup, cs: seq<Api>, tail: seq<Api>, k: Kind) {
    tail == [] ||
    var n := |tail| - 1;
    && NotReopened(setup, cs, tail[..n], k)
    && (tail[n].Open? ==> Attached(setup, Reach(setup, cs + tail[..n]).core, tail[n].device, tail[n].answer) != Some(k))
  }

  lemma {:induction false} StaysDetached(setup: Setup, cs: seq<Api>, tail: seq<Api>, k: Kind)
    requires k in Reach(setup, cs).detached && NotReopened(setup, cs, tail, k)
    ensures k in Reach(setup, cs + tail).detached
    decreases |tail|
  {
    if tail == [] {
      assert cs + tail == cs;
    } else {
      var n := |tail| - 1;
      StaysDetached(setup, cs, tail[..n], k);
      assert cs + tail == cs + tail[..n] + [tail[n]];
      OneMoreCall(setup, cs + tail[..n], tail[n]);
      DetachedStep(setup, Reach(setup, cs + tail[..n]), tail[n], k);
    }
  }

  lemma {:induction false} DetachedStep(setup: Setup, w: World, c: Api, k: Kind)
    requires k in w.detached
    requires c.Open? ==> Attached(setup, w.core, c.device, c.answer) != Some(k)
    ensures k in Next(setup, w, c).detached
  {
  }

  /**
   * One disconnect of an emulated device puts the others out of reach as well: until a connect brings it
   * up again, no packet can be exchanged on the handle of any emulated device.
   */
  lemma {:induction false} CloseStopsAll(setup: Setup, cs: seq<Api>, h: int, answer: bool, tail: seq<Api>, k: Kind,
                                         c: Api)
    requires AllProper(setup, cs) && h >= 0 && Reach(setup, cs).emu.Handle(k) == h && Holder(setup, Reach(setup, cs), k)
    requires NotReopened(setup, cs + [Close(h, answer)], tail, k)
    requires c.Use? && c.handle in Reach(setup, cs + [Close(h, answer)] + tail).core.live
    requires Order(c, c.op).attempt.Fits()
    ensures Result(Reach(setup, cs + [Close(h, answer)] + tail), c) == None
  {
    assert (cs + [Close(h, answer)])[..|cs|] == cs;
    StaysDetached(setup, cs + [Close(h, answer)], tail, k);
  }

  // ----------------------------------------------------------- an instance

  const MOTOR := Core.Device("motor", EMULATOR_NAME, 0)

  function Workshop(): Setup { Setup([MOTOR], _ => ENGINE_NAME) }

  /** The first connect after start-up, to the one device there is. */
  lemma {:induction false} FirstConnect(setup: Setup, d: Core.Device, k: Kind)
    requires setup.devices == [d] && setup.KindOf(d) == Some(k)
    ensures Attached(setup, BOOT.core, d.name, true) == Some(k) && Connected(setup, BOOT.core, d.name, true).1 == 0
  {
    assert Core.FirstDevice(setup.devices, d.name) == 0;
    assert EMULATOR.name == Some(d.backend);
    assert Core.FirstBackend([EMULATOR], d.backend) == 0;
    assert Core.LowestFree(map[], 0) == 0;
  }

  lemma {:induction false} FirstOpened(setup: Setup, d: Core.Device, k: Kind)
    requires setup.devices == [d] && setup.KindOf(d) == Some(k)
    ensures var w := Reach(setup, [Open(d.name, true)]);
      && AllProper(setup, [Open(d.name, true)])
      && w.emu.Handle(k) == 0 && OnEmulator(w.core, 0) && w.detached == {}
  {
    FirstConnect(setup, d, k);
    assert [] + [Open(d.name, true)] == [Open(d.name, true)];
    OneMoreCall(setup, [], Open(d.name, true));
    OpenedHandle(setup, [], d.name, true, k);
  }

  lemma {:induction false} RpmProper(w: World, c: Api)
    requires c.Use? && c.handle == 0 && c.name == RPM && |c.stack| == VALUE_MAX
    requires Sized(c.op, c.value) && |c.value| <= 4
    requires OnEmulator(w.core, 0) && w.detached == {}
    ensures Proper(w, c)
  {
    Names(RPM);
    forall r: Reg | Sets(Order(c, c.op).attempt, r) ensures |ValueSent(CommandOf(c.op), c.value)| <= Width(r) {
    }
  }

  /** An engine behind the emulator: connected, set to a speed, read back. */
  lemma {:induction false} MotorExample(speed: seq<byte>, stack: seq<byte>)
    requires |speed| == 4 && |stack| == VALUE_MAX
    ensures var cs := [Open("motor", true), Use(0, Core.SetInt, RPM, speed, stack)];
      var load := Use(0, Core.GetInt, RPM, [], stack);
      && AllProper(Workshop(), cs) && Proper(Reach(Workshop(), cs), load)
      && Result(Reach(Workshop(), cs), load).Some?
      && Result(Reach(Workshop(), cs), load).value.value == Some(speed)
  {
    var opening, store := Open("motor", true), Use(0, Core.SetInt, RPM, speed, stack);
    var load := Use(0, Core.GetInt, RPM, [], stack);
    FirstOpened(Workshop(), MOTOR, EngineDevice);
    Names(RPM);
    var w := Reach(Workshop(), [opening]);
    RpmProper(w, store);
    assert [opening, store] == [opening] + [store] == [opening] + [store] + [];
    OneMoreCall(Workshop(), [opening], store);
    assert Next(Workshop(), w, store).core == w.core && Next(Workshop(), w, store).detached == {};
    RpmProper(Reach(Workshop(), [opening, store]), load);
    SetThenGet(Workshop(), [opening], store, [], load, Rpm);
  }
}
