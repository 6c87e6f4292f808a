/** The connection loop of src/ble/ble_update.c over the operations of src/ble/ble.c. */
module BleUpdate {
  import opened Bytes
  import opened GattAtt
  import opened SensorTag
  import opened BleSensors
  import Discovery

  const NOT_CONNECTED := 0
  const WF_RECONN := 1
  const CONNECTED := 2
  const DISCONNECTED := 3
  const WF_READ := 4
  const READ := 5

  const RETRYCNT := 5

  /** What one pass of the loop does to the link, as an onlooker would note it. */
  datatype Happening = Up | Abandoned | Down | Failed | Delivered(value: seq<byte>)

  datatype Loop = Loop(state: int, retry: nat, pitch: real, roll: real, ble: State, past: seq<Happening>)

  const START := Loop(NOT_CONNECTED, 0, 0.0, 0.0, POWER_ON, [])

  /** The device looked for, and the trigonometry of the accelerometer handler on a payload of three octets. */
  datatype Setting = Setting(target: string, angles: seq<byte> -> (real, real)) {
    /** A payload of another size leaves the zeroes the pass began with, and is published all the same. */
    function Reading(value: seq<byte>): (real, real) {
      if |value| == 3 then angles(value) else (0.0, 0.0)
    }
  }

  /** What the environment does during one pass. */
  datatype Tick = Tick(scan: Option<string>, connects: bool, discovery: Option<seq<DynChar>>, world: World)

  function Pass(c: Setting, l: Loop, t: Tick): Loop {
    if l.state == NOT_CONNECTED then
      if t.scan != Some(c.target) then l.(state := WF_RECONN)
      else
        var tried := l.(ble := BleSensors.Step(l.ble, Call.Connect));
        if t.connects then tried.(state := CONNECTED, past := l.past + [Up]) else tried.(state := WF_RECONN)
    else if l.state == CONNECTED then
      var listed := l.(ble := BleSensors.Step(l.ble,
        Call.Discover(if t.discovery.Some? then t.discovery.value else [])));
      if t.discovery.Some? then listed.(state := READ) else listed.(state := WF_RECONN, past := l.past + [Abandoned])
    else if l.state == WF_RECONN then l.(state := NOT_CONNECTED)
    else if l.state == WF_READ then l.(state := READ)
    else if l.state == READ then Attempted(c, l, t.world)
    else l.(state := WF_RECONN, ble := BleSensors.Step(l.ble, Call.Disconnect), past := l.past + [Down])
  }

  function Attempted(c: Setting, l: Loop, w: World): Loop {
    var (ble, out) := FloatRead(l.ble, "accelero", w);
    if out.Some? then
      var (pitch, roll) := c.Reading(out.value.1);
      Loop(WF_READ, 0, pitch, roll, ble, l.past + [Delivered(out.value.1)])
    else if l.retry + 1 >= RETRYCNT then l.(state := DISCONNECTED, retry := 0, ble := ble, past := l.past + [Failed])
    else l.(state := WF_READ, retry := l.retry + 1, ble := ble, past := l.past + [Failed])
  }

  function Passes(c: Setting, l: Loop, ts: seq<Tick>): Loop {
    if ts == [] then l else Pass(c, Passes(c, l, ts[..|ts| - 1]), ts[|ts| - 1])
  }

  // ------------------------------------------------------------- invariant

  function TrailingFailures(past: seq<Happening>): nat {
    if past == [] || past[|past| - 1] != Failed then 0 else 1 + TrailingFailures(past[..|past| - 1])
  }

  function Count(past: seq<Happening>, h: Happening): nat {
    if past == [] then 0 else Count(past[..|past| - 1], h) + if past[|past| - 1] == h then 1 else 0
  }

  /** The reading last delivered, or the zeroes of the globals. */
  function LastReading(c: Setting, past: seq<Happening>): (real, real) {
    if past == [] then (0.0, 0.0)
    else if past[|past| - 1].Delivered? then c.Reading(past[|past| - 1].value)
    else LastReading(c, past[..|past| - 1])
  }

  /** The link was last brought up, and neither taken down nor abandoned since. */
  predicate LinkUp(past: seq<Happening>) {
    past != [] && var h := past[|past| - 1]; h == Up || ((h.Failed? || h.Delivered?) && LinkUp(past[..|past| - 1]))
  }

  /**
   * A link comes up when there is none; it is read, abandoned or taken down while up, and taken down just after
   * five failures.
   */
  predicate MayHappen(past: seq<Happening>, h: Happening) {
    && (LinkUp(past) <==> h != Up)
    && (h == Down <==> TrailingFailures(past) == RETRYCNT)
  }

  predicate Regular(past: seq<Happening>) {
    past == [] || (Regular(past[..|past| - 1]) && MayHappen(past[..|past| - 1], past[|past| - 1]))
  }

  predicate Holding(state: int) { state == CONNECTED || state == DISCONNECTED || state == WF_READ || state == READ }

  predicate Good(c: Setting, l: Loop) {
    && NOT_CONNECTED <= l.state <= READ
    && l.retry < RETRYCNT
    && (l.retry > 0 ==> l.state == READ || l.state == WF_READ)
    && TrailingFailures(l.past) == (if l.state == DISCONNECTED then RETRYCNT else l.retry)
    && Regular(l.past)
    && (LinkUp(l.past) <==> Holding(l.state))
    && (l.pitch, l.roll) == LastReading(c, l.past)
  }

  lemma {:induction false} OneMoreHappening(c: Setting, past: seq<Happening>, h: Happening)
    ensures TrailingFailures(past + [h]) == if h == Failed then TrailingFailures(past) + 1 else 0
    ensures Regular(past + [h]) <==> Regular(past) && MayHappen(past, h)
    ensures LinkUp(past + [h]) <==> h == Up || ((h.Failed? || h.Delivered?) && LinkUp(past))
    ensures LastReading(c, past + [h]) == if h.Delivered? then c.Reading(h.value) else LastReading(c, past)
  {
    assert (past + [h])[..|past|] == past;
  }

  lemma {:induction false} StepGood(c: Setting, l: Loop, t: Tick)
    requires Good(c, l)
    ensures Good(c, Pass(c, l, t))
  {
    var next := Pass(c, l, t);
    if next.past != l.past {
      OneMoreHappening(c, l.past, next.past[|l.past|]);
    }
  }

  /** Every run from the start, whatever the environment does. */
  lemma {:induction false} RunGood(c: Setting, ts: seq<Tick>)
    ensures Good(c, Passes(c, START, ts))
  {
    if ts != [] {
      RunGood(c, ts[..|ts| - 1]);
      StepGood(c, Passes(c, START, ts[..|ts| - 1]), ts[|ts| - 1]);
    }
  }

  // --------------------------------------------------------------- results

  /** Conservation: every link brought up is the present one, was taken down, or was abandoned with its socket open. */
  lemma {:induction false} LinksBalance(c: Setting, ts: seq<Tick>)
    ensures var l := Passes(c, START, ts);
      Count(l.past, Up) == Count(l.past, Down) + Count(l.past, Abandoned) + if Holding(l.state) then 1 else 0
  {
    RunGood(c, ts);
    RegularBalances(Passes(c, START, ts).past);
  }

  lemma {:induction false} RegularBalances(past: seq<Happening>)
    requires Regular(past)
    ensures Count(past, Up) == Count(past, Down) + Count(past, Abandoned) + if LinkUp(past) then 1 else 0
  {
    if past != [] {
      RegularBalances(past[..|past| - 1]);
    }
  }

  lemma {:induction false} RegularAt(past: seq<Happening>, j: nat)
    requires Regular(past) && j < |past|
    ensures Regular(past[..j]) && MayHappen(past[..j], past[j])
  {
    var n := |past| - 1;
    if j < n {
      RegularAt(past[..n], j);
      assert past[..n][..j] == past[..j];
    }
  }

  /** The last `n` happenings are failures, and the one before them is not. */
  predicate JustFailed(past: seq<Happening>, n: nat) {
    && n <= |past|
    && (forall k :: |past| - n <= k < |past| ==> past[k] == Failed)
    && (n < |past| ==> past[|past| - n - 1] != Failed)
  }

  lemma {:induction false} TrailingMeans(past: seq<Happening>, n: nat)
    ensures TrailingFailures(past) == n <==> JustFailed(past, n)
  {
    if past != [] && past[|past| - 1] == Failed && n > 0 {
      var rest := past[..|past| - 1];
      TrailingMeans(rest, n - 1);
      assert JustFailed(rest, n - 1) ==> JustFailed(past, n);
    }
  }

  /** A link that is up goes back to where it came up. */
  lemma {:induction false} LinkBeforeFailures(past: seq<Happening>, n: nat)
    requires Regular(past) && LinkUp(past) && JustFailed(past, n)
    ensures n < |past| && (past[|past| - n - 1] == Up || past[|past| - n - 1].Delivered?)
  {
    if n > 0 {
      var rest := past[..|past| - 1];
      assert rest[|rest| - (n - 1)..] == past[|past| - n..|past| - 1];
      assert JustFailed(rest, n - 1);
      LinkBeforeFailures(rest, n - 1);
    }
  }

  /**
   * Every disconnect follows exactly five failed reads in a row, the first of them right after a success or the
   * connection.
   */
  lemma {:induction false} DisconnectAfterFive(c: Setting, ts: seq<Tick>, j: nat)
    requires j < |Passes(c, START, ts).past| && Passes(c, START, ts).past[j] == Down
    ensures var past := Passes(c, START, ts).past;
      && j >= 6
      && (forall k :: j - 5 <= k < j ==> past[k] == Failed)
      && (past[j - 6] == Up || past[j - 6].Delivered?)
  {
    RunGood(c, ts);
    DownAfterFive(Passes(c, START, ts).past, j);
  }

  lemma {:induction false} DownAfterFive(past: seq<Happening>, j: nat)
    requires Regular(past) && j < |past| && past[j] == Down
    ensures j >= 6 && (forall k :: j - 5 <= k < j ==> past[k] == Failed)
    ensures past[j - 6] == Up || past[j - 6].Delivered?
  {
    RegularAt(past, j);
    var before := past[..j];
    TrailingMeans(before, RETRYCNT);
    LinkBeforeFailures(before, RETRYCNT);
    forall k | j - 5 <= k < j ensures past[k] == Failed {
      assert before[k] == Failed;
    }
  }

  /** Five failed reads in a row are followed by a disconnect and nothing else. */
  lemma {:induction false} FiveFailuresDisconnect(c: Setting, ts: seq<Tick>, j: nat)
    requires 5 <= j < |Passes(c, START, ts).past|
    requires forall k :: j - 5 <= k < j ==> Passes(c, START, ts).past[k] == Failed
    ensures Passes(c, START, ts).past[j] == Down
  {
    var past := Passes(c, START, ts).past;
    RunGood(c, ts);
    RegularAt(past, j);
    TrailingPlus(past, j - 5, 5);
    FailuresBound(past[..j]);
  }

  lemma {:induction false} FailuresBound(past: seq<Happening>)
    requires Regular(past)
    ensures TrailingFailures(past) <= RETRYCNT
  {
    if past != [] {
      FailuresBound(past[..|past| - 1]);
    }
  }

  lemma {:induction false} TrailingPlus(past: seq<Happening>, start: nat, n: nat)
    requires start + n <= |past| && forall k :: start <= k < start + n ==> past[k] == Failed
    ensures TrailingFailures(past[..start + n]) == TrailingFailures(past[..start]) + n
  {
    if n > 0 {
      TrailingPlus(past, start, n - 1);
      assert past[..start + n][..start + n - 1] == past[..start + n - 1];
    }
  }

  /** The calls one pass makes to ble.c. */
  function CallsOf(c: Setting, l: Loop, t: Tick): seq<Call> {
    if l.state == NOT_CONNECTED then (if t.scan == Some(c.target) then [Call.Connect] else [])
    else if l.state == CONNECTED then [Call.Discover(if t.discovery.Some? then t.discovery.value else [])]
    else if l.state == WF_RECONN || l.state == WF_READ then []
    else if l.state == READ then [Call.GetFloat("accelero", t.world)]
    else [Call.Disconnect]
  }

  /** A run of the loop is a run of ble.c, so what holds of every such run holds of this program. */
  lemma {:induction false} LoopIsRun(c: Setting, ts: seq<Tick>) returns (cs: seq<Call>)
    ensures Passes(c, START, ts).ble == BleSensors.Run(POWER_ON, cs)
  {
    if ts == [] {
      cs := [];
    } else {
      var before := LoopIsRun(c, ts[..|ts| - 1]);
      var l, t := Passes(c, START, ts[..|ts| - 1]), ts[|ts| - 1];
      cs := before + CallsOf(c, l, t);
      PassCalls(c, l, t);
      OneMoreCall(before, CallsOf(c, l, t));
    }
  }

  lemma {:induction false} PassCalls(c: Setting, l: Loop, t: Tick)
    ensures var cs := CallsOf(c, l, t);
      |cs| <= 1 && Pass(c, l, t).ble == if cs == [] then l.ble else BleSensors.Step(l.ble, cs[0])
  {
  }

  lemma {:induction false} OneMoreCall(before: seq<Call>, more: seq<Call>)
    requires |more| <= 1
    ensures BleSensors.Run(POWER_ON, before + more)
         == if more == [] then BleSensors.Run(POWER_ON, before)
           else BleSensors.Step(BleSensors.Run(POWER_ON, before), more[0])
  {
    if more == [] {
      assert before + more == before;
    } else {
      assert (before + more)[..|before|] == before;
    }
  }

  /** Whatever the loop asks of the accelerometer, it has switched it on since it last connected. */
  lemma {:induction false} LoopEnablesBeforeReading(c: Setting, ts: seq<Tick>, j: nat)
    requires j < |Passes(c, START, ts).ble.log| && IsRead(Passes(c, START, ts).ble.log[j], "accelero")
    ensures exists i: nat :: EnabledAt(Passes(c, START, ts).ble.log, "accelero", i, j)
  {
    var cs := LoopIsRun(c, ts);
    EnableBeforeRead(cs, j, "accelero");
  }

  // ------------------------------------------------------- the right device

  /** How often a connection was tried. */
  function Opens(log: seq<Event>): nat {
    if log == [] then 0 else Opens(log[..|log| - 1]) + if log[|log| - 1].Opened? then 1 else 0
  }

  /** A read of a sensor only adds frames of that sensor and the value got. */
  predicate ReadEvents(more: seq<Event>, feature: string) {
    forall i :: 0 <= i < |more| ==> (more[i].Sent? && more[i].caller == ForFloat(feature)) || more[i].Got?
  }

  lemma {:induction false} FloatReadAdds(s: State, feature: string, w: World) returns (more: seq<Event>)
    ensures FloatRead(s, feature, w).0.log == s.log + more && ReadEvents(more, feature)
  {
    more := [];
    if Known(feature, READ_SENSOR) && Mask(feature) != 0 {
      var data := HandleOf(feature, READ_SENSOR, s.attrs, w.data);
      more := PreparedAdds(s, feature, data, w);
      if Prepared(s, feature, data, w).1 {
        AnswerLog(s, feature, w);
        more := more + AnswerAdds(Prepared(s, feature, data, w).0, feature, data, w);
      }
    }
  }

  lemma {:induction false} AnswerLog(s: State, feature: string, w: World)
    requires Known(feature, READ_SENSOR) && Mask(feature) != 0
    requires Prepared(s, feature, HandleOf(feature, READ_SENSOR, s.attrs, w.data), w).1
    ensures var data := HandleOf(feature, READ_SENSOR, s.attrs, w.data);
      var ready := Prepared(s, feature, data, w).0;
      FloatRead(s, feature, w).0.log == ready.log + AnswerAdds(ready, feature, data, w)
  {
    var data := HandleOf(feature, READ_SENSOR, s.attrs, w.data);
    var ready := Prepared(s, feature, data, w).0;
    AskedLog(ready, feature, data, w);
  }

  lemma {:induction false} AskedLog(ready: State, feature: string, data: u16, w: World)
    requires Known(feature, READ_SENSOR)
    ensures var value := AttributeValue(Discovery.Arrived(w.answer, FLOAT_BUFFER));
      var asked := AfterRequest(ready, ForFloat(feature), data, w.answer).log;
      ready.log + AnswerAdds(ready, feature, data, w)
      == if value.None? then asked else asked + [Got(feature, TABLE[RowOf(feature, READ_SENSOR)].handler, value.value)]
  {
  }

  /** The read request that went out, and the value its answer carried. */
  function AnswerAdds(ready: State, feature: string, data: u16, w: World): (more: seq<Event>)
    requires Known(feature, READ_SENSOR)
    ensures ReadEvents(more, feature)
  {
    var value := AttributeValue(Discovery.Arrived(w.answer, FLOAT_BUFFER));
    (if w.answer.WriteFails? then [] else [Sent(ForFloat(feature), ready.attrs, ReadRequest(data))])
    + (if value.None? then [] else [Got(feature, TABLE[RowOf(feature, READ_SENSOR)].handler, value.value)])
  }

  lemma {:induction false} PreparedAdds(s: State, feature: string, data: u16, w: World) returns (more: seq<Event>)
    ensures Prepared(s, feature, data, w).0.log == s.log + more && ReadEvents(more, feature)
  {
    more := [];
    if !Enabled(s.status, feature) && Known(feature, ENABLE_SENSOR) {
      var frames := Plan(feature, data, HandleOf(feature, ENABLE_SENSOR, s.attrs, w.conf));
      TransmitTaken(s, ForFloat(feature), frames, w.accepts, 0);
      more := SentAll(ForFloat(feature), s.attrs, frames[..Taken(|frames|, w.accepts, 0)]);
      SentAllReading(feature, s.attrs, frames[..Taken(|frames|, w.accepts, 0)]);
    }
  }

  lemma {:induction false} SentAllReading(feature: string, attrs: seq<DynChar>, frames: seq<seq<byte>>)
    ensures ReadEvents(SentAll(ForFloat(feature), attrs, frames), feature)
  {
    if frames != [] {
      SentAllReading(feature, attrs, frames[1..]);
    }
  }

  lemma {:induction false} OpensOfReading(log: seq<Event>, more: seq<Event>, feature: string)
    requires ReadEvents(more, feature)
    ensures Opens(log + more) == Opens(log)
  {
    if more == [] {
      assert log + more == log;
    } else {
      var n := |more| - 1;
      OpensOfReading(log, more[..n], feature);
      assert (log + more)[..|log| + n] == log + more[..n];
    }
  }

  /** The pass is one that finds the device it looks for. */
  predicate Finds(c: Setting, l: Loop, t: Tick) { l.state == 0 && t.scan == Some(c.target) }

  /**
   * A pass tries to connect if and only if it is to find a device and the one that advertises has the address
   * given; it is connected just if that succeeds too, and else waits to try again.
   */
  lemma {:induction false} ConnectsToTarget(c: Setting, l: Loop, t: Tick)
    ensures var next := Pass(c, l, t);
      && Opens(next.ble.log) == Opens(l.ble.log) + (if Finds(c, l, t) then 1 else 0)
      && (Finds(c, l, t) ==> next.ble.log == l.ble.log + [Opened])
      && (l.state == 0 ==> next.state == if Finds(c, l, t) && t.connects then 2 else 1)
      && (l.state == 0 && !Finds(c, l, t) ==> next.ble == l.ble)
  {
    PassCalls(c, l, t);
    if CallsOf(c, l, t) != [] {
      CallOpens(l.ble, CallsOf(c, l, t)[0]);
    }
  }

  lemma {:induction false} CallOpens(s: State, call: Call)
    requires !call.GetString?
    ensures Opens(BleSensors.Step(s, call).log) == Opens(s.log) + if call.Connect? then 1 else 0
  {
    match call
    case Connect => assert (s.log + [Opened])[..|s.log|] == s.log;
    case Disconnect => assert (s.log + [Closed])[..|s.log|] == s.log;
    case Discover(_) =>
    case GetFloat(feature, w) =>
      var more := FloatReadAdds(s, feature, w);
      OpensOfReading(s.log, more, feature);
  }

  /**
   * The states by number: 0 not connected, 1 waiting to reconnect, 2 connected, 3 to be disconnected, 4 waiting
   * to read, 5 reading. From 5 it is the fifth failure in a row that leads to 3.
   */
  lemma {:induction false} Transitions(c: Setting, l: Loop, t: Tick)
    ensures var next, out := Pass(c, l, t), FloatRead(l.ble, "accelero", t.world).1;
      && (l.state == 0 ==> next.state == if t.scan == Some(c.target) && t.connects then 2 else 1)
      && (l.state == 1 ==> next.state == 0) && (l.state == 4 ==> next.state == 5)
      && (l.state == 2 ==> next.state == if t.discovery.Some? then 5 else 1)
      && (l.state == 5 ==> next.state == if out.None? && l.retry >= 4 then 3 else 4)
      && (l.state < 0 || l.state == 3 || l.state > 5 ==> next.state == 1)
      && next.retry == if l.state != 5 then l.retry else if out.Some? || l.retry >= 4 then 0 else l.retry + 1
  {
  }

  /** What a pass does to the sensors' side, state by state. */
  lemma {:induction false} Effects(c: Setting, l: Loop, t: Tick)
    ensures var next := Pass(c, l, t);
      && (l.state == 1 || l.state == 4 ==> next == l.(state := if l.state == 1 then 0 else 5))
      && (l.state == 2 && t.discovery.Some? ==> next.ble == l.ble.(attrs := t.discovery.value) && next.past == l.past)
      && (l.state == 2 && t.discovery.None? ==> next.ble == l.ble.(attrs := []) && next.past == l.past + [Abandoned])
      && (l.state == 3 ==> next.ble == State(0, l.ble.attrs, l.ble.log + [Closed]) && next.past == l.past + [Down])
      && (l.state == 5 ==> next.ble == FloatRead(l.ble, "accelero", t.world).0)
      && (l.state != 5 ==> next.pitch == l.pitch && next.roll == l.roll)
  {
  }

  lemma {:induction false} UpsAdded(c: Setting, l: Loop, t: Tick)
    ensures Count(Pass(c, l, t).past, Up) == Count(l.past, Up) + if Finds(c, l, t) && t.connects then 1 else 0
  {
    var h := Noted(c, l, t);
    if h.Some? {
      OneMoreCounted(l.past, h.value);
    }
  }

  lemma {:induction false} Noted(c: Setting, l: Loop, t: Tick) returns (h: Option<Happening>)
    ensures Pass(c, l, t).past == if h.None? then l.past else l.past + [h.value]
    ensures h == Some(Up) <==> Finds(c, l, t) && t.connects
  {
    if l.state == NOT_CONNECTED {
      h := if Finds(c, l, t) && t.connects then Some(Up) else None;
    } else if l.state == CONNECTED {
      h := if t.discovery.Some? then None else Some(Abandoned);
    } else if l.state == WF_RECONN || l.state == WF_READ {
      h := None;
    } else if l.state == READ {
      var out := FloatRead(l.ble, "accelero", t.world).1;
      h := Some(if out.Some? then Delivered(out.value.1) else Failed);
    } else {
      h := Some(Down);
    }
  }

  lemma {:induction false} OneMoreCounted(past: seq<Happening>, h: Happening)
    ensures Count(past + [h], Up) == Count(past, Up) + if h == Up then 1 else 0
  {
    assert (past + [h])[..|past|] == past;
  }

  /** How many passes of a run find the device, and how many of those connect. */
  function Found(c: Setting, ts: seq<Tick>): nat {
    if ts == [] then 0 else
    var n := |ts| - 1;
    Found(c, ts[..n]) + if Finds(c, Passes(c, START, ts[..n]), ts[n]) then 1 else 0
  }

  function FoundAndConnected(c: Setting, ts: seq<Tick>): nat {
    if ts == [] then 0 else
    var n := |ts| - 1;
    FoundAndConnected(c, ts[..n]) + if Finds(c, Passes(c, START, ts[..n]), ts[n]) && ts[n].connects then 1 else 0
  }

  /** Over every run: connections are tried and links come up just as often as the device was found, and answered. */
  lemma {:induction false} OnlyTheTarget(c: Setting, ts: seq<Tick>)
    ensures Opens(Passes(c, START, ts).ble.log) == Found(c, ts)
    ensures Count(Passes(c, START, ts).past, Up) == FoundAndConnected(c, ts)
  {
    if ts != [] {
      var n := |ts| - 1;
      OnlyTheTarget(c, ts[..n]);
      ConnectsToTarget(c, Passes(c, START, ts[..n]), ts[n]);
      UpsAdded(c, Passes(c, START, ts[..n]), ts[n]);
    }
  }

  /** Every link that came up goes back to a pass that found the device. */
  lemma {:induction false} UpFromTarget(c: Setting, ts: seq<Tick>, j: nat) returns (i: nat)
    requires j < |Passes(c, START, ts).past| && Passes(c, START, ts).past[j] == Up
    ensures i < |ts| && Passes(c, START, ts[..i]).state == 0 && ts[i].scan == Some(c.target) && ts[i].connects
    ensures |Passes(c, START, ts[..i]).past| == j
  {
    assert ts != [];
    var n := |ts| - 1;
    var l := Passes(c, START, ts[..n]);
    if j < |l.past| {
      i := UpFromTarget(c, ts[..n], j);
      assert ts[..n][..i] == ts[..i];
    } else {
      var h := Noted(c, l, ts[n]);
      i := n;
    }
  }

  /** In every run the one sensor asked is the accelerometer. */
  lemma {:induction false} OnlyAccelerometer(c: Setting, ts: seq<Tick>, j: nat)
    requires j < |Passes(c, START, ts).ble.log| && Passes(c, START, ts).ble.log[j].Sent?
    ensures Passes(c, START, ts).ble.log[j].caller == ForFloat("accelero")
  {
    assert ts != [];
    var n := |ts| - 1;
    var l := Passes(c, START, ts[..n]);
    var more := PassAdds(c, l, ts[n]);
    if j < |l.ble.log| {
      OnlyAccelerometer(c, ts[..n], j);
    } else {
      assert Passes(c, START, ts).ble.log[j] == more[j - |l.ble.log|];
    }
  }

  lemma {:induction false} PassAdds(c: Setting, l: Loop, t: Tick) returns (more: seq<Event>)
    ensures Pass(c, l, t).ble.log == l.ble.log + more
    ensures forall i :: 0 <= i < |more| && more[i].Sent? ==> more[i].caller == ForFloat("accelero")
  {
    PassCalls(c, l, t);
    var cs := CallsOf(c, l, t);
    if cs == [] {
      more := [];
    } else if l.state == READ {
      more := FloatReadAdds(l.ble, "accelero", t.world);
    } else {
      more := BleSensors.Step(l.ble, cs[0]).log[|l.ble.log|..];
    }
  }

  /** A payload of three octets is published as its angles; one of another size as zeroes, with no failure counted. */
  lemma {:induction false} PublishesValue(c: Setting, l: Loop, t: Tick)
    requires l.state == 5
    ensures var out, next := FloatRead(l.ble, "accelero", t.world).1, Pass(c, l, t);
      && (out.Some? ==> next.retry == 0 && next.state == 4)
      && (out.Some? && |out.value.1| == 3 ==> (next.pitch, next.roll) == c.angles(out.value.1))
      && (out.Some? && |out.value.1| != 3 ==> next.pitch == 0.0 && next.roll == 0.0)
      && (out.None? ==> next.pitch == l.pitch && next.roll == l.roll)
  {
  }

  // ------------------------------------------------------ permanent failure

  /** The answer of this pass carries no value, whatever became of the frames before it. */
  predicate Failing(t: Tick) { AttributeValue(Discovery.Arrived(t.world.answer, FLOAT_BUFFER)).None? }

  lemma {:induction false} FailedPass(c: Setting, l: Loop, t: Tick)
    requires l.state == READ && Failing(t)
    ensures var next := Pass(c, l, t);
      if l.retry + 1 >= RETRYCNT then next.state == DISCONNECTED && next.retry == 0
      else next.state == WF_READ && next.retry == l.retry + 1
  {
  }

  lemma {:induction false} RunFromNext(c: Setting, l: Loop, ts: seq<Tick>)
    requires ts != []
    ensures Passes(c, l, ts) == Passes(c, Pass(c, l, ts[0]), ts[1..])
  {
    var n := |ts| - 1;
    if n > 0 {
      RunFromNext(c, l, ts[..n]);
      assert ts[1..][..n - 1] == ts[..n][1..];
    } else {
      assert ts[..0] == [];
    }
  }

  /**
   * From READ with `retry` failures behind it, a dead link is given up and closed in 2 * (5 - retry) + 1
   * passes, and no sooner.
   */
  lemma {:induction false} DeadLinkIsGivenUp(c: Setting, l: Loop, ts: seq<Tick>)
    requires l.state == READ && l.retry < RETRYCNT
    requires |ts| <= 2 * (RETRYCNT - l.retry) + 1 && forall i :: 0 <= i < |ts| ==> Failing(ts[i])
    ensures var last := Passes(c, l, ts).state; var n := 2 * (RETRYCNT - l.retry) + 1;
      && (last == NOT_CONNECTED <==> |ts| == n)
      && (last == WF_RECONN <==> |ts| == n - 1)
      && (last == DISCONNECTED <==> |ts| == n - 2)
    decreases RETRYCNT - l.retry
  {
    if ts != [] {
      RunFromNext(c, l, ts);
      var next := Pass(c, l, ts[0]);
      FailedPass(c, l, ts[0]);
      if |ts| > 1 {
        RunFromNext(c, next, ts[1..]);
        var second := Pass(c, next, ts[1]);
        assert ts[1..][1..] == ts[2..];
        if l.retry + 1 < RETRYCNT {
          DeadLinkIsGivenUp(c, second, ts[2..]);
        } else if |ts| > 2 {
          RunFromNext(c, second, ts[2..]);
          assert ts[2..][1..] == [];
        }
      }
    }
  }

  /** With the device in reach and answering, three passes from NOT_CONNECTED publish its angles. */
  lemma {:induction false} PublishesInThree(c: Setting, l: Loop, ts: seq<Tick>, value: seq<byte>)
    requires l.state == NOT_CONNECTED && |ts| == 3
    requires ts[0].scan == Some(c.target) && ts[0].connects && ts[1].discovery.Some?
    requires forall i :: ts[2].world.accepts(i)
    requires ts[2].world.answer == Discovery.Received(ReadResponse(value)) && |value| == 3
    ensures var last := Passes(c, l, ts);
      && last.state == WF_READ && last.retry == 0
      && (last.pitch, last.roll) == c.angles(value)
      && last.past == l.past + [Up, Delivered(value)]
  {
    ThreePasses(c, l, ts);
    TwoPassesConnect(c, l, ts[0], ts[1]);
    ReadPublishes(c, Pass(c, Pass(c, l, ts[0]), ts[1]), ts[2], value);
  }

  lemma {:induction false} TwoPassesConnect(c: Setting, l: Loop, first: Tick, second: Tick)
    requires l.state == NOT_CONNECTED
    requires first.scan == Some(c.target) && first.connects && second.discovery.Some?
    ensures Pass(c, Pass(c, l, first), second).state == READ
    ensures Pass(c, Pass(c, l, first), second).past == l.past + [Up]
  {
  }

  lemma {:induction false} ThreePasses(c: Setting, l: Loop, ts: seq<Tick>)
    requires |ts| == 3
    ensures Passes(c, l, ts) == Pass(c, Pass(c, Pass(c, l, ts[0]), ts[1]), ts[2])
  {
    assert ts[..2][..1] == ts[..1] && ts[..1][..0] == [];
    assert Passes(c, l, ts[..1]) == Pass(c, l, ts[0]);
    assert Passes(c, l, ts[..2]) == Pass(c, Passes(c, l, ts[..1]), ts[1]);
  }

  lemma {:induction false} ReadPublishes(c: Setting, l: Loop, t: Tick, value: seq<byte>)
    requires l.state == READ && |value| == 3
    requires (forall i :: t.world.accepts(i)) && t.world.answer == Discovery.Received(ReadResponse(value))
    ensures var next := Pass(c, l, t);
      && next.state == WF_READ && next.retry == 0
      && (next.pitch, next.roll) == c.angles(value)
      && next.past == l.past + [Delivered(value)]
  {
    ReadDelivers(l.ble, "accelero", t.world, value);
  }

  lemma {:induction false} OneMorePass(c: Setting, l: Loop, ts: seq<Tick>, t: Tick)
    ensures Passes(c, l, ts + [t]) == Pass(c, Passes(c, l, ts), t)
  {
    assert (ts + [t])[..|ts|] == ts;
  }

  // ------------------------------------------------------------ the program

  /** What one pass meets: the scan, the connection, the peer during discovery, and one read. */
  datatype Input = Input(scan: Option<string>, connects: bool, server: Discovery.Server, world: World)

  /** The tick a pass amounts to, once it is known how a discovery went. */
  ghost predicate Amounts(input: Input, t: Tick) {
    t.scan == input.scan && t.connects == input.connects && t.world == input.world
  }

  /** The peer answers every request of a discovery lawfully, and its characteristics fit the table. */
  ghost predicate Lists(server: Discovery.Server, db: seq<Entry>) {
    Discovery.Conforming(server, db) && Discovery.Reliable(server) && |db| <= TABLE_SIZE
  }

  class Updater {
    const setting: Setting
    const ble: Ble
    var state: int
    var retry: nat
    var pitch: real
    var roll: real
    ghost var past: seq<Happening>

    predicate Valid()
      reads this, ble, ble.table
    {
      ble.Valid()
    }

    ghost function Abstract(): Loop
      requires Valid()
      reads this, ble, ble.table
    {
      Loop(state, retry, pitch, roll, ble.Abstract(), past)
    }

    constructor (setting: Setting)
      ensures Valid() && Abstract() == START && this.setting == setting && fresh(ble) && fresh(ble.table)
    {
      this.setting := setting;
      ble := new Ble();
      state, retry, pitch, roll, past := NOT_CONNECTED, 0, 0.0, 0.0, [];
    }

    /** BLE_STATE_NOT_CONNECTED: scan first, and connect just to the address asked for. */
    method TryConnect(scan: Option<string>, connects: bool)
      requires Valid() && state == NOT_CONNECTED
      modifies this, ble
      ensures Valid()
      ensures forall t: Tick :: t.scan == scan && t.connects == connects ==>
        Abstract() == Pass(setting, old(Abstract()), t)
    {
      var ret := if scan.Some? then 0 else -1;
      if ret >= 0 {
        if scan.value == setting.target {
          ret := ble.Connect(connects);
        } else {
          ret := -1;
        }
      }
      if ret < 0 {
        state := WF_RECONN;
      } else {
        state := CONNECTED;
        past := past + [Up];
      }
    }

    /** BLE_STATE_CONNECTED: a failed discovery leaves the socket open behind it. */
    method List(server: Discovery.Server, ghost db: seq<Entry>) returns (ghost found: Option<seq<DynChar>>)
      requires Valid() && state == CONNECTED
      modifies this, ble, ble.table
      ensures Valid()
      ensures forall t: Tick :: t.discovery == found ==> Abstract() == Pass(setting, old(Abstract()), t)
      ensures Lists(server, db) ==> found == Some(RecordsOf(db))
    {
      var ret := ble.Discover(server, db);
      if ret < 0 {
        found := None;
        state := WF_RECONN;
        past := past + [Abandoned];
      } else {
        found := Some(ble.Attrs());
        state := READ;
      }
    }

    method Fail()
      modifies this`retry, this`state, this`past
      ensures past == old(past) + [Failed]
      ensures old(retry) + 1 >= RETRYCNT ==> state == DISCONNECTED && retry == 0
      ensures old(retry) + 1 < RETRYCNT ==> state == WF_READ && retry == old(retry) + 1
    {
      past := past + [Failed];
      retry := retry + 1;
      if retry >= RETRYCNT {
        state := DISCONNECTED;
        retry := 0;
      } else {
        state := WF_READ;
      }
    }

    method Publish(value: seq<byte>)
      modifies this
      ensures (pitch, roll) == setting.Reading(value)
      ensures past == old(past) + [Delivered(value)] && state == WF_READ && retry == 0
    {
      var reading := setting.Reading(value);
      pitch := reading.0;
      roll := reading.1;
      past := past + [Delivered(value)];
      state := WF_READ;
      retry := 0;
    }

    /** BLE_STATE_READ. */
    method Read(world: World)
      requires Valid() && state == READ
      modifies this, ble
      ensures Valid()
      ensures Abstract() == Attempted(setting, old(Abstract()), world)
    {
      var ret, handler, value := ble.GetFloat("accelero", world);
      ghost var after := ble.Abstract();
      if ret < 0 {
        Fail();
      } else {
        Publish(value);
      }
      assert ble.Abstract() == after;
    }

    method Hang()
      requires Valid()
      modifies this, ble
      ensures Valid()
      ensures var was := old(Abstract());
        Abstract() == was.(state := WF_RECONN, ble := BleSensors.Step(was.ble, Call.Disconnect),
          past := was.past + [Down])
    {
      var ret := ble.Disconnect();
      state := WF_RECONN;
      past := past + [Down];
    }

    /** One pass of the endless loop, its switch included with the branch for a wrong state. */
    method Iterate(input: Input, ghost db: seq<Entry>) returns (ghost t: Tick)
      requires Valid()
      modifies this, ble, ble.table
      ensures Valid() && Amounts(input, t)
      ensures Abstract() == Pass(setting, old(Abstract()), t)
      ensures old(state) == CONNECTED && Lists(input.server, db) ==> t.discovery == Some(RecordsOf(db))
    {
      t := Tick(input.scan, input.connects, None, input.world);
      if state == NOT_CONNECTED {
        TryConnect(input.scan, input.connects);
      } else if state == CONNECTED {
        ghost var found := List(input.server, db);
        t := t.(discovery := found);
      } else if state == WF_RECONN {
        state := NOT_CONNECTED;
      } else if state == WF_READ {
        state := READ;
      } else if state == READ {
        Read(input.world);
      } else {
        Hang();
      }
    }

    /** update_loop for as many passes as there are inputs. */
    method UpdateLoop(inputs: seq<Input>, ghost db: seq<Entry>) returns (ghost ts: seq<Tick>)
      requires Valid()
      modifies this, ble, ble.table
      ensures Valid() && |ts| == |inputs|
      ensures forall i :: 0 <= i < |ts| ==> Amounts(inputs[i], ts[i])
      ensures Abstract() == Passes(setting, old(Abstract()), ts)
      ensures old(Abstract()) == START ==> Good(setting, Abstract())
    {
      ghost var began := Abstract();
      ts := RunLoop(inputs, db);
      if began == START {
        RunGood(setting, ts);
      }
    }

    method RunLoop(inputs: seq<Input>, ghost db: seq<Entry>) returns (ghost ts: seq<Tick>)
      requires Valid()
      modifies this, ble, ble.table
      ensures Valid() && |ts| == |inputs|
      ensures forall i :: 0 <= i < |ts| ==> Amounts(inputs[i], ts[i])
      ensures Abstract() == Passes(setting, old(Abstract()), ts)
    {
      ts := [];
      ghost var began := Abstract();
      for i := 0 to |inputs|
        invariant Valid() && |ts| == i
        invariant forall k :: 0 <= k < i ==> Amounts(inputs[k], ts[k])
        invariant Abstract() == Passes(setting, began, ts)
      {
        ghost var t := Iterate(inputs[i], db);
        OneMorePass(setting, began, ts, t);
        ts := ts + [t];
      }
    }
  }
}
