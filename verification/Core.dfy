/** Backend registry and session table of src/sensact.c and src/session.c. */
module Core {
  import opened Bytes
  import opened Sequences
  import opened LinkedList
  import opened Status

  const MAX_SESSIONS := 40

  datatype Op = GetChar | SetChar | GetShort | SetShort | GetInt | SetInt | GetFloat | SetFloat | GetData | SetData

  /** A function pointer: null, one a backend brought along, or the library's default for an operation. */
  datatype Fn = Null | Own(id: nat) | Default(op: Op)

  /** The ten get and set pointers of a backend or a session. */
  datatype Calls = Calls(getChar: Fn, setChar: Fn, getShort: Fn, setShort: Fn, getInt: Fn, setInt: Fn,
                         getFloat: Fn, setFloat: Fn, getData: Fn, setData: Fn)
  {
    function Get(op: Op): Fn {
      match op
      case GetChar => getChar
      case SetChar => setChar
      case GetShort => getShort
      case SetShort => setShort
      case GetInt => getInt
      case SetInt => setInt
      case GetFloat => getFloat
      case SetFloat => setFloat
      case GetData => getData
      case SetData => setData
    }
  }

  const NO_CALLS := Calls(Null, Null, Null, Null, Null, Null, Null, Null, Null, Null)

  /** sa_backend_t */
  datatype Backend = Backend(name: Option<string>, connect: nat, disconnect: Option<nat>,
                             read: Option<nat>, write: Option<nat>, calls: Calls)

  datatype Device = Device(name: string, backend: string, config: nat)

  /** session_t; `taken` is its `allocated` flag. */
  datatype Session = Session(taken: bool, connected: bool, device: Option<Device>,
                             connect: Option<nat>, disconnect: Option<nat>,
                             read: Option<nat>, write: Option<nat>, calls: Calls)

  function Pick(own: Fn, op: Op): Fn {
    if own != Null then own else Default(op)
  }

  /** The ten conditional assignments of sa_connect. */
  function Resolved(c: Calls): Calls {
    Calls(Pick(c.getChar, GetChar), Pick(c.setChar, SetChar), Pick(c.getShort, GetShort), Pick(c.setShort, SetShort),
          Pick(c.getInt, GetInt), Pick(c.setInt, SetInt), Pick(c.getFloat, GetFloat), Pick(c.setFloat, SetFloat),
          Pick(c.getData, GetData), Pick(c.setData, SetData))
  }

  // ------------------------------------------------------- abstract machine

  /** What a handle stands for while it is live. */
  datatype Bound = Bound(device: Device, disconnect: Option<nat>, read: Option<nat>, write: Option<nat>, calls: Calls)

  /** The registry as a sequence and the session table as a finite map of live handles. */
  datatype State = State(backends: seq<Backend>, live: map<int, Bound>)

  /** A call of the library; `answer` is whether the backend's own callback returned SA_OK. */
  datatype Call =
    | Register(backend: Backend)
    | Connect(name: string, answer: bool)
    | Disconnect(handle: int, answer: bool)

  function Named(name: string): Backend -> bool {
    (b: Backend) => b.name == Some(name)
  }

  function FirstBackend(bs: seq<Backend>, name: string): (i: nat)
    ensures i <= |bs|
    ensures i < |bs| ==> bs[i].name == Some(name)
    ensures forall k :: 0 <= k < i ==> bs[k].name != Some(name)
  {
    First(bs, Named(name))
  }

  function FirstDevice(ds: seq<Device>, name: string): (i: nat)
    ensures i <= |ds|
    ensures i < |ds| ==> ds[i].name == name
    ensures forall k :: 0 <= k < i ==> ds[k].name != name
  {
    First(ds, (d: Device) => d.name == name)
  }

  function LowestFree(live: map<int, Bound>, from: nat): (i: nat)
    requires from <= MAX_SESSIONS
    ensures from <= i <= MAX_SESSIONS
    ensures i < MAX_SESSIONS ==> i !in live
    ensures forall k :: from <= k < i ==> k in live
    decreases MAX_SESSIONS - from
  {
    if from == MAX_SESSIONS || from !in live then from else LowestFree(live, from + 1)
  }

  function BoundTo(d: Device, b: Backend): Bound {
    Bound(d, b.disconnect, b.read, b.write, Resolved(b.calls))
  }

  function Step(devices: Option<seq<Device>>, s: State, c: Call): (State, int) {
    match c
    case Register(b) =>
      if b.name.None? || FirstBackend(s.backends, b.name.value) < |s.backends| then (s, SA_ERROR)
      else (s.(backends := s.backends + [b]), SA_OK)
    case Connect(name, answer) =>
      if devices.None? then (s, -1) else
      var i, d := LowestFree(s.live, 0), FirstDevice(devices.value, name);
      if i == MAX_SESSIONS || d == |devices.value| then (s, -1) else
      var b := FirstBackend(s.backends, devices.value[d].backend);
      if b == |s.backends| || !answer then (s, -1)
      else (s.(live := s.live[i := BoundTo(devices.value[d], s.backends[b])]), i)
    case Disconnect(h, _) =>
      if h in s.live && s.live[h].disconnect.Some? then (s.(live := s.live - {h}), SA_OK) else (s, SA_ERROR)
  }

  // ------------------------------------------------------------ all runs

  predicate NamesUnique(bs: seq<Backend>) {
    && (forall i :: 0 <= i < |bs| ==> bs[i].name.Some?)
    && (forall i, j :: 0 <= i < j < |bs| ==> bs[i].name != bs[j].name)
  }

  /** Handles are table indices, and each live one runs the unique backend its device names. */
  predicate Sound(s: State) {
    && NamesUnique(s.backends)
    && forall h :: h in s.live ==>
         && 0 <= h < MAX_SESSIONS
         && RunsIts(s.backends, s.live[h])
  }

  /** The session runs a registered backend of the name its device gives. */
  predicate RunsIts(bs: seq<Backend>, b: Bound) {
    exists i :: 0 <= i < |bs| && Serves(bs[i], b)
  }

  predicate Serves(backend: Backend, b: Bound) {
    backend.name == Some(b.device.backend) && b == BoundTo(b.device, backend)
  }

  lemma {:induction false} StillServed(bs: seq<Backend>, more: seq<Backend>, b: Bound)
    requires RunsIts(bs, b)
    ensures RunsIts(bs + more, b)
  {
    var i :| 0 <= i < |bs| && Serves(bs[i], b);
    assert (bs + more)[i] == bs[i];
  }

  function Run(devices: Option<seq<Device>>, s: State, calls: seq<Call>): State
    decreases |calls|
  {
    if calls == [] then s else Run(devices, Step(devices, s, calls[0]).0, calls[1..])
  }

  lemma {:induction false} StepKeepsSound(devices: Option<seq<Device>>, s: State, c: Call)
    requires Sound(s)
    ensures Sound(Step(devices, s, c).0)
  {
    match c
    case Register(b) =>
      forall h | h in s.live ensures RunsIts(s.backends + [b], s.live[h]) {
        StillServed(s.backends, [b], s.live[h]);
      }
    case Connect(name, _) =>
      if devices.Some? && FirstDevice(devices.value, name) < |devices.value| {
        var d := devices.value[FirstDevice(devices.value, name)];
        var b := FirstBackend(s.backends, d.backend);
        assert b < |s.backends| ==> Serves(s.backends[b], BoundTo(d, s.backends[b]));
      }
    case Disconnect(_, _) =>
  }

  /** After any sequence of calls, names are distinct and every handle dispatches to its own backend. */
  lemma {:induction false} RunKeepsSound(devices: Option<seq<Device>>, s: State, calls: seq<Call>)
    requires Sound(s)
    ensures Sound(Run(devices, s, calls))
    decreases |calls|
  {
    if calls != [] {
      StepKeepsSound(devices, s, calls[0]);
      RunKeepsSound(devices, Step(devices, s, calls[0]).0, calls[1..]);
    }
  }

  /** Every operation of a live handle is the override of the one backend of that name, or the default. */
  lemma {:induction false} Dispatch(devices: Option<seq<Device>>, calls: seq<Call>, h: int, op: Op, i: nat)
    requires var s := Run(devices, State([], map[]), calls);
      h in s.live && i < |s.backends| && s.backends[i].name == Some(s.live[h].device.backend)
    ensures var s := Run(devices, State([], map[]), calls);
      s.live[h].calls.Get(op) ==
        if s.backends[i].calls.Get(op) == Null then Default(op) else s.backends[i].calls.Get(op)
  {
    RunKeepsSound(devices, State([], map[]), calls);
    var s := Run(devices, State([], map[]), calls);
    var k :| 0 <= k < |s.backends| && Serves(s.backends[k], s.live[h]);
    assert k == i;
    ResolvedAt(s.backends[i].calls, op);
  }

  lemma {:induction false} ResolvedAt(c: Calls, op: Op)
    ensures Resolved(c).Get(op) == if c.Get(op) == Null then Default(op) else c.Get(op)
  {
  }

  /** The connect call of the run returned `h`. */
  predicate Returns(devices: Option<seq<Device>>, s: State, c: Call, h: int) {
    c.Connect? && Step(devices, s, c).1 == h
  }

  predicate NeverReturns(devices: Option<seq<Device>>, s: State, calls: seq<Call>, h: int)
    decreases |calls|
  {
    calls == [] || (!Returns(devices, s, calls[0], h)
      && NeverReturns(devices, Step(devices, s, calls[0]).0, calls[1..], h))
  }

  /** A handle that is not live stays dead, and its disconnect fails, until a connect returns it. */
  lemma {:induction false} DeadUntilReturned(devices: Option<seq<Device>>, s: State, calls: seq<Call>, h: int,
                                             answer: bool)
    requires h !in s.live && NeverReturns(devices, s, calls, h)
    ensures h !in Run(devices, s, calls).live
    ensures Step(devices, Run(devices, s, calls), Disconnect(h, answer)).1 == SA_ERROR
    decreases |calls|
  {
    if calls != [] {
      DeadUntilReturned(devices, Step(devices, s, calls[0]).0, calls[1..], h, answer);
    }
  }

  /** A second disconnect fails whatever happened in between, short of the handle being handed out again. */
  lemma {:induction false} SecondDisconnectFails(devices: Option<seq<Device>>, s: State, h: int, a: bool,
                                                 between: seq<Call>, b: bool)
    requires Step(devices, s, Disconnect(h, a)).1 == SA_OK
    requires NeverReturns(devices, Step(devices, s, Disconnect(h, a)).0, between, h)
    ensures Step(devices, Run(devices, Step(devices, s, Disconnect(h, a)).0, between), Disconnect(h, b)).1 == SA_ERROR
  {
    DeadUntilReturned(devices, Step(devices, s, Disconnect(h, a)).0, between, h, b);
  }

  /** Disconnecting undoes connecting exactly when the backend brought a disconnect callback. */
  lemma {:induction false} DisconnectUndoesConnect(devices: Option<seq<Device>>, s: State, name: string, a: bool)
    requires Step(devices, s, Connect(name, true)).1 >= 0
    ensures var (t, h) := Step(devices, s, Connect(name, true));
      && h !in s.live && (forall k :: 0 <= k < h ==> k in s.live)
      && (Step(devices, t, Disconnect(h, a)) == (s, SA_OK) <==> t.live[h].disconnect.Some?)
      && (t.live[h].disconnect.None? ==> Step(devices, t, Disconnect(h, a)) == (t, SA_ERROR))
  {
    var (t, h) := Step(devices, s, Connect(name, true));
    assert t.live - {h} == s.live;
  }

  // ---------------------------------------------------- each call, exactly

  /** Device `d` is the first of its name, backend `b` the one it names. */
  predicate Leads(ds: seq<Device>, bs: seq<Backend>, name: string, d: nat, b: nat) {
    && d < |ds| && ds[d].name == name && (forall k :: 0 <= k < d ==> ds[k].name != name)
    && b < |bs| && bs[b].name == Some(ds[d].backend) && (forall k :: 0 <= k < b ==> bs[k].name != Some(ds[d].backend))
  }

  predicate HasFree(live: map<int, Bound>) { exists i :: 0 <= i < 40 && i !in live }

  /**
   * Connecting gives a handle if and only if devices are registered, an index below 40 is free, the name
   * leads to a device and its backend, and the callback answers that it connected; otherwise it gives -1
   * and changes nothing.
   */
  lemma {:induction false} ConnectExactly(devices: Option<seq<Device>>, s: State, name: string, answer: bool)
    ensures var (t, h) := Step(devices, s, Connect(name, answer));
      && (h >= 0 <==>
           && devices.Some? && HasFree(s.live) && answer
           && exists d: nat, b: nat :: Leads(devices.value, s.backends, name, d, b))
      && (h < 0 ==> h == -1 && t == s)
  {
    if devices.Some? {
      var ds := devices.value;
      var i, d := LowestFree(s.live, 0), FirstDevice(ds, name);
      if d < |ds| {
        var b := FirstBackend(s.backends, ds[d].backend);
        if b < |s.backends| {
          assert Leads(ds, s.backends, name, d, b);
        }
      }
    }
  }

  /** The handle given is the lowest free one, and all it stands for is its device's and its backend's. */
  lemma {:induction false} ConnectBinds(devices: Option<seq<Device>>, s: State, name: string, d: nat, b: nat, op: Op)
    requires Step(devices, s, Connect(name, true)).1 >= 0 && Leads(devices.value, s.backends, name, d, b)
    ensures var (t, h) := Step(devices, s, Connect(name, true));
      && 0 <= h < 40 && h !in s.live && (forall k :: 0 <= k < h ==> k in s.live)
      && t.backends == s.backends
      && t.live.Keys == s.live.Keys + {h} && (forall k :: k in s.live ==> t.live[k] == s.live[k])
      && t.live[h].device == devices.value[d]
      && t.live[h].disconnect == s.backends[b].disconnect
      && t.live[h].read == s.backends[b].read && t.live[h].write == s.backends[b].write
      && var own := s.backends[b].calls.Get(op);
        t.live[h].calls.Get(op) == if own == Null then Default(op) else own
  {
    FirstIs(s.backends, Named(devices.value[d].backend), b);
    assert FirstDevice(devices.value, name) == d;
    ResolvedAt(s.backends[b].calls, op);
  }

  /** In every run a live session's calls are those of the one backend its device names. */
  lemma {:induction false} SessionsRunTheirBackend(devices: Option<seq<Device>>, calls: seq<Call>, h: int, i: nat)
    requires var s := Run(devices, State([], map[]), calls);
      h in s.live && i < |s.backends| && s.backends[i].name == Some(s.live[h].device.backend)
    ensures var s := Run(devices, State([], map[]), calls);
      && s.live[h].disconnect == s.backends[i].disconnect
      && s.live[h].read == s.backends[i].read && s.live[h].write == s.backends[i].write
  {
    RunKeepsSound(devices, State([], map[]), calls);
    var s := Run(devices, State([], map[]), calls);
    var k :| 0 <= k < |s.backends| && Serves(s.backends[k], s.live[h]);
    assert k == i;
  }

  /** Registering succeeds if and only if the backend has a name that no other has; it is then the last. */
  lemma {:induction false} RegisterExactly(devices: Option<seq<Device>>, s: State, b: Backend)
    ensures var (t, r) := Step(devices, s, Register(b));
      && (r == 0 <==> b.name.Some? && forall i :: 0 <= i < |s.backends| ==> s.backends[i].name != b.name)
      && t.live == s.live
      && (r == 0 ==> t.backends == s.backends + [b])
      && (r != 0 ==> r == 1 && t == s)
  {
  }

  /** Disconnecting succeeds if and only if the session is live and brought a callback, whatever that answers. */
  lemma {:induction false} DisconnectExactly(devices: Option<seq<Device>>, s: State, h: int, answer: bool)
    ensures var (t, r) := Step(devices, s, Disconnect(h, answer));
      && (r == 0 <==> h in s.live && s.live[h].disconnect.Some?)
      && (r == 0 ==> t.backends == s.backends && t.live.Keys == s.live.Keys - {h})
      && (r == 0 ==> forall k :: k in t.live ==> t.live[k] == s.live[k])
      && (r != 0 ==> r == 1 && t == s)
  {
  }

  // ------------------------------------------------------- the library

  function BoundOf(e: Session): Bound
    requires e.device.Some?
  {
    Bound(e.device.value, e.disconnect, e.read, e.write, e.calls)
  }

  /** The entry carries the device and the calls of the backend. */
  predicate Installed(e: Session, device: Device, b: Backend) {
    && e.device == Some(device) && e.disconnect == b.disconnect
    && e.read == b.read && e.write == b.write && e.calls == Resolved(b.calls)
  }

  /** Claimed entries are connected and have a device. */
  predicate Consistent(table: seq<Session>) {
    forall i :: 0 <= i < |table| && table[i].taken ==> table[i].connected && table[i].device.Some?
  }

  function LiveOf(table: seq<Session>): (m: map<int, Bound>)
    requires Consistent(table)
  {
    map i: int | 0 <= i < |table| && table[i].taken :: BoundOf(table[i])
  }

  /** The globals of src/sensact.c and src/session.c. */
  class Sensact {
    const heap: Heap
    const backends: List<Backend>
    const session: array<Session>
    var devices: Option<seq<Device>>
    var locked: bool   // session_mutex

    ghost predicate Valid()
      reads this, heap, backends, backends.nodes, backends.boxes, session
    {
      && backends.Valid(heap)
      && session.Length == MAX_SESSIONS
      && Consistent(session[..])
    }

    ghost function Abstract(): State
      reads this, heap, backends, backends.boxes, session
      requires Consistent(session[..])
    {
      State(backends.Contents(), LiveOf(session[..]))
    }

    /** init, before any backend is registered */
    constructor ()
      ensures Valid() && !locked && devices.None? && Abstract() == State([], map[])
      ensures fresh(heap) && fresh(backends) && fresh(session)
    {
      var h := new Heap();
      var list := new List<Backend>(h);
      heap, backends := h, list;
      session := new Session[MAX_SESSIONS](_ => Session(false, false, None, None, None, None, None, NO_CALLS));
      devices, locked := None, false;
    }

    method Lock()
      requires Valid() && !locked
      modifies this`locked
      ensures Valid() && Abstract() == old(Abstract()) && locked
    {
      locked := true;
    }

    method Unlock()
      requires Valid() && locked
      modifies this`locked
      ensures Valid() && Abstract() == old(Abstract()) && !locked
    {
      locked := false;
    }

    /** The search loop over the backend list: list_next until the name matches or the list ends. */
    method FindBackend(name: string) returns (found: Box?<Backend>)
      requires Valid()
      modifies heap
      ensures Valid() && Abstract() == old(Abstract())
      ensures var bs := Abstract().backends; var i := FirstBackend(bs, name);
        if i == |bs| then found == null else found != null && found.value == bs[i]
    {
      var iter;
      ghost var k;
      found, iter, k := Search(backends, heap, Named(name));
      FirstIs(backends.Contents(), Named(name), k);
    }

    method Enter(backend: Box<Backend>)
      requires Valid()
      modifies heap, backends, backends.nodes
      ensures Valid() && Abstract() == old(Abstract()).(backends := old(Abstract()).backends + [backend.value])
    {
      backends.Add(heap, backend);
    }

    /** sa_register_backend: each exit under the lock gives it back. */
    method RegisterBackend(backend: Box<Backend>) returns (status: int)
      requires Valid() && !locked
      modifies this`locked, heap, backends, backends.nodes
      ensures Valid() && !locked
      ensures (Abstract(), status) == Step(devices, old(Abstract()), Register(backend.value))
    {
      Lock();
      if backend.value.name.None? {
        Unlock();
        return SA_ERROR;
      }
      var registered := FindBackend(backend.value.name.value);
      if registered != null {
        Unlock();
        return SA_ERROR;
      }
      Enter(backend);
      Unlock();
      return SA_OK;
    }

    /** The search loop for a free session entry: its index, or MAX_SESSIONS. */
    method FindFree() returns (i: nat)
      requires Valid()
      ensures i == LowestFree(Abstract().live, 0)
      ensures i < MAX_SESSIONS ==> !session[i].taken
    {
      i := 0;
      while i < MAX_SESSIONS
        invariant 0 <= i <= MAX_SESSIONS
        invariant LowestFree(LiveOf(session[..]), 0) == LowestFree(LiveOf(session[..]), i)
      {
        if !session[i].taken {
          return i;
        }
        i := i + 1;
      }
    }

    /** The search loop over the registered devices. */
    method FindDevice(list: seq<Device>, name: string) returns (d: nat)
      ensures d == FirstDevice(list, name)
    {
      d := 0;
      while d < |list|
        invariant 0 <= d <= |list|
        invariant forall k :: 0 <= k < d ==> list[k].name != name
      {
        if list[d].name == name {
          return d;
        }
        d := d + 1;
      }
    }

    method SetEntry(i: nat, e: Session)
      requires i < session.Length
      modifies session
      ensures session[..] == old(session[..])[i := e]
    {
      session[i] := e;
    }

    /** Writing an entry that is and stays free leaves the live sessions alone. */
    method Prepare(i: nat, e: Session)
      requires Valid() && i < MAX_SESSIONS && !session[i].taken && !e.taken
      modifies session
      ensures Valid() && Abstract() == old(Abstract()) && session[i] == e
    {
      LiveAfter(session[..], i, e);
      SetEntry(i, e);
    }

    /** Marking a prepared entry connected and allocated makes it a live session. */
    method Claim(i: nat, device: Device, b: Backend)
      requires Valid() && i < MAX_SESSIONS && !session[i].taken && Installed(session[i], device, b)
      modifies session
      ensures Valid() && Abstract() == old(Abstract()).(live := old(Abstract()).live[i := BoundTo(device, b)])
    {
      var e := session[i].(connected := true, taken := true);
      LiveAfter(session[..], i, e);
      SetEntry(i, e);
    }

    /** Map the device into a free entry, find its backend, and install the backend's calls; null if there is none. */
    method Install(i: nat, device: Device) returns (backend: Box?<Backend>)
      requires Valid() && i < MAX_SESSIONS && !session[i].taken
      modifies heap, session
      ensures Valid() && Abstract() == old(Abstract()) && !session[i].taken
      ensures var bs := Abstract().backends; var b := FirstBackend(bs, device.backend);
        if b == |bs| then backend == null
        else backend != null && backend.value == bs[b] && Installed(session[i], device, backend.value)
    {
      Prepare(i, session[i].(device := Some(device)));
      backend := FindBackend(device.backend);
      if backend != null {
        var b := backend.value;
        Prepare(i, session[i].(connect := Some(b.connect), disconnect := b.disconnect, read := b.read, write := b.write,
          calls := Resolved(b.calls)));
      }
    }

    /** sa_connect; `answer` is what the backend's connect callback reports. The error exits share one unlock. */
    method Connect(name: string, answer: bool) returns (handle: int)
      requires Valid() && !locked
      modifies this`locked, heap, session
      ensures Valid() && !locked
      ensures (Abstract(), handle) == Step(devices, old(Abstract()), Call.Connect(name, answer))
    {
      if devices.None? {
        return -1;
      }
      Lock();
      label error: {
        var i := FindFree();
        if i == MAX_SESSIONS {
          break error;
        }
        var d := FindDevice(devices.value, name);
        if d == |devices.value| {
          break error;
        }
        var device := devices.value[d];
        var backend := Install(i, device);
        if backend == null {
          break error;
        }
        if !answer {
          break error;
        }
        Claim(i, device, backend.value);
        Unlock();
        return i;
      }
      Unlock();
      return -1;
    }

    /** sa_disconnect; `answer` is what the backend's disconnect callback reports, and only `connected` shows it. */
    method Disconnect(handle: int, answer: bool) returns (status: int)
      requires Valid() && !locked
      modifies this`locked, session
      ensures Valid() && !locked
      ensures (Abstract(), status) == Step(devices, old(Abstract()), Call.Disconnect(handle, answer))
    {
      if handle < 0 || handle >= MAX_SESSIONS {
        return SA_ERROR;
      }
      Lock();
      if !session[handle].taken || !session[handle].connected || session[handle].disconnect.None? {
        Unlock();
        return SA_ERROR;
      }
      var e := session[handle];
      if answer {
        e := e.(connected := false);
      }
      e := e.(taken := false, disconnect := None);
      LiveAfter(session[..], handle, e);
      SetEntry(handle, e);
      Unlock();
      return SA_OK;
    }

    /** The indirect call behind sa_get_int and its nine siblings. */
    method Target(handle: nat, op: Op) returns (f: Fn)
      requires Valid() && handle in Abstract().live
      ensures f == Abstract().live[handle].calls.Get(op)
    {
      f := session[handle].calls.Get(op);
    }
  }

  lemma {:induction false} LiveAfter(table: seq<Session>, i: nat, e: Session)
    requires i < |table| && Consistent(table) && (e.taken ==> e.connected && e.device.Some?)
    ensures Consistent(table[i := e])
    ensures LiveOf(table[i := e]) == if e.taken then LiveOf(table)[i := BoundOf(e)] else LiveOf(table) - {i}
    ensures !table[i].taken && !e.taken ==> LiveOf(table[i := e]) == LiveOf(table)
  {
  }
}
