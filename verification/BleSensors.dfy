/** Reading sensors over a connection: the status flags and the callers of the encoders in src/ble/ble.c. */
module BleSensors {
  import opened Bytes
  import opened Sequences
  import opened GattAtt
  import opened SensorTag
  import Discovery

  /** Which public call a frame belongs to. */
  datatype Caller = ForFloat(feature: string) | ForString(feature: string)

  /** What the peer can observe, with the records known when a frame left, and each value delivered. */
  datatype Event =
    | Opened
    | Closed
    | Sent(caller: Caller, attrs: seq<DynChar>, frame: seq<byte>)
    | Got(feature: string, handler: Handler, value: seq<byte>)

  datatype State = State(status: bv8, attrs: seq<DynChar>, log: seq<Event>) {
    function Log(e: Event): State { this.(log := log + [e]) }
  }

  /** Flags of sensor_status; the humidity sensor and the revisions have none. */
  function Mask(feature: string): bv8 {
    if feature == "Temp" then 1
    else if feature == "accelero" then 2
    else if feature == "gyroscope" then 4
    else if feature == "magnetom" then 8
    else 0
  }

  predicate Enabled(status: bv8, feature: string) { status & Mask(feature) != 0 }

  lemma {:induction false} MaskBits(status: bv8, feature: string, other: string)
    ensures Enabled(status | Mask(feature), other)
      <==> Enabled(status, other) || (other == feature && Mask(feature) != 0)
    ensures !Enabled(0, other)
    ensures Mask(feature) != 0 <==> SensorPlace(feature).Some?
  {
  }

  lemma {:induction false} NoFlags()
    ensures forall f :: !Enabled(0, f)
  {
  }

  /** The environment of one read: which frames the socket takes, the answer, and the stack's leftovers. */
  datatype World = World(accepts: nat -> bool, answer: Discovery.Reply, data: u16, conf: u16)

  datatype Call =
    | Connect
    | Disconnect
    | Discover(attrs: seq<DynChar>)
    | GetFloat(feature: string, world: World)
    | GetString(feature: string, world: World)

  // ------------------------------------------------------------- the effect

  /** The octet that switches a sensor on; the gyroscope has one bit for each axis. */
  function Flag(feature: string): byte { if feature == "gyroscope" then 7 else 1 }

  /** The Write Commands that enable a sensor, in order. */
  function Plan(feature: string, data: u16, conf: u16): seq<seq<byte>> {
    var notify := WriteCommand(ToU16(data as int + 1), [1, 0]);
    var enable := WriteCommand(conf, [Flag(feature)]);
    var period := WriteCommand(ToU16(conf as int + 3), [0x0A]);
    if feature == "gyroscope" then [notify, enable]
    else if feature == "magnetom" then [notify, enable, period]
    else if feature == "accelero" then [enable, period]
    else [enable]
  }

  /** The features with a status flag. */
  lemma {:induction false} FlaggedFeatures(feature: string)
    ensures Mask(feature) != 0 <==>
      feature == "Temp" || feature == "accelero" || feature == "gyroscope" || feature == "magnetom"
  {
  }

  /**
   * The enabling frames in octets: the gyroscope and the magnetometer are told to notify, at the handle after
   * the value; every sensor is switched on, the gyroscope with a bit for each axis; and the magnetometer and
   * the accelerometer get a period of 100 ms, three handles after the configuration.
   */
  lemma {:induction false} EnablingFrames(feature: string, data: u16, conf: u16)
    requires data <= 0xFFFE && conf <= 0xFFFC
    ensures var notify := [0x52, (data + 1) % 0x100, (data + 1) / 0x100, 1, 0];
      var all, on := [0x52, conf % 0x100, conf / 0x100, 7], [0x52, conf % 0x100, conf / 0x100, 1];
      var period := [0x52, (conf + 3) % 0x100, (conf + 3) / 0x100, 10];
      && (feature == "gyroscope" ==> Plan(feature, data, conf) == [notify, all])
      && (feature == "magnetom" ==> Plan(feature, data, conf) == [notify, on, period])
      && (feature == "accelero" ==> Plan(feature, data, conf) == [on, period])
      && (feature == "Temp" ==> Plan(feature, data, conf) == [on])
  {
    var notify := WriteCommand(ToU16(data as int + 1), [1, 0]);
    var period := WriteCommand(ToU16(conf as int + 3), [0x0A]);
    WriteCommandOctets(ToU16(data as int + 1), [1, 0]);
    WriteCommandOctets(ToU16(conf as int + 3), [0x0A]);
    WriteCommandOctets(conf, [Flag(feature)]);
    assert notify == [0x52, (data + 1) % 0x100, (data + 1) / 0x100, 1, 0];
    assert period == [0x52, (conf + 3) % 0x100, (conf + 3) / 0x100, 10];
    assert WriteCommand(conf, [Flag(feature)]) == [0x52, conf % 0x100, conf / 0x100, Flag(feature)];
  }

  /** Frames go out in order until the socket refuses one. */
  function Transmit(s: State, caller: Caller, frames: seq<seq<byte>>, accepts: nat -> bool, k: nat): (r: (State, bool))
    decreases |frames|
  {
    if frames == [] then (s, true)
    else if accepts(k) then Transmit(s.Log(Sent(caller, s.attrs, frames[0])), caller, frames[1..], accepts, k + 1)
    else (s, false)
  }

  function AfterRequest(s: State, caller: Caller, data: u16, answer: Discovery.Reply): State {
    if answer.WriteFails? then s else s.Log(Sent(caller, s.attrs, ReadRequest(data)))
  }

  const FLOAT_BUFFER := 30
  const STRING_BUFFER := 100

  /** ble_get_float up to the call of the handler, whose result is not looked at. */
  function FloatRead(s: State, feature: string, w: World): (State, Option<(Handler, seq<byte>)>) {
    if !Known(feature, READ_SENSOR) || Mask(feature) == 0 then (s, None)
    else
      var data := HandleOf(feature, READ_SENSOR, s.attrs, w.data);
      var (ready, ok) := Prepared(s, feature, data, w);
      if !ok then (ready, None)
      else
        var asked := AfterRequest(ready, ForFloat(feature), data, w.answer);
        var value, handler := AttributeValue(Discovery.Arrived(w.answer, FLOAT_BUFFER)),
          TABLE[RowOf(feature, READ_SENSOR)].handler;
        if value.None? then (asked, None)
        else (asked.(status := asked.status | Mask(feature)).Log(Got(feature, handler, value.value)),
          Some((handler, value.value)))
  }

  /** The enabling part: nothing to do for a sensor whose flag is up. */
  function Prepared(s: State, feature: string, data: u16, w: World): (State, bool) {
    if Enabled(s.status, feature) then (s, true)
    else if !Known(feature, ENABLE_SENSOR) then (s, false)
    else Transmit(s, ForFloat(feature), Plan(feature, data, HandleOf(feature, ENABLE_SENSOR, s.attrs, w.conf)),
      w.accepts, 0)
  }

  function StringRead(s: State, feature: string, w: World): (State, Option<seq<byte>>) {
    if !Known(feature, READ_SENSOR) then (s, None)
    else
      var asked := AfterRequest(s, ForString(feature), HandleOf(feature, READ_SENSOR, s.attrs, w.data), w.answer);
      var octets := Discovery.Arrived(w.answer, STRING_BUFFER);
      var value := AttributeValue(octets);
      // the copy starts at the opcode and is one octet longer than the value
      (asked, if value.None? then None else Some(octets[..|value.value| + 1]))
  }

  function Step(s: State, c: Call): State {
    match c
    case Connect => s.(status := 0).Log(Opened)
    case Disconnect => s.(status := 0).Log(Closed)
    case Discover(attrs) => s.(attrs := attrs)
    case GetFloat(feature, w) => FloatRead(s, feature, w).0
    case GetString(feature, w) => StringRead(s, feature, w).0
  }

  function Run(s: State, cs: seq<Call>): State {
    if cs == [] then s else Step(Run(s, cs[..|cs| - 1]), cs[|cs| - 1])
  }

  // ------------------------------------------------------------- invariant

  /** A frame of ble_get_float that switches `feature` on, at the handle a lookup gave. */
  ghost predicate IsEnable(e: Event, feature: string) {
    && e.Sent? && e.caller == ForFloat(feature) && Known(feature, ENABLE_SENSOR)
    && exists given: u16 :: e.frame == WriteCommand(HandleOf(feature, ENABLE_SENSOR, e.attrs, given), [Flag(feature)])
  }

  predicate IsRead(e: Event, feature: string) {
    e.Sent? && e.caller == ForFloat(feature) && e.frame != [] && e.frame[0] == OP_READ_REQ
  }

  predicate IsWrite(e: Event, feature: string) {
    e.Sent? && e.caller == ForFloat(feature) && e.frame != [] && e.frame[0] == OP_WRITE_CMD
  }

  predicate IsBoundary(e: Event) { e.Opened? || e.Closed? }

  /** An enabling frame has left in the connection the log ends in. */
  ghost predicate EnabledIn(log: seq<Event>, feature: string) {
    log != [] &&
    var e := log[|log| - 1];
    !IsBoundary(e) && (IsEnable(e, feature) || EnabledIn(log[..|log| - 1], feature))
  }

  /** A value of the sensor was delivered in the connection the log ends in. */
  predicate GotIn(log: seq<Event>, feature: string) {
    log != [] &&
    var e := log[|log| - 1];
    !IsBoundary(e) && ((e.Got? && e.feature == feature) || GotIn(log[..|log| - 1], feature))
  }

  /** `e` may follow `log`. */
  ghost predicate MayFollow(log: seq<Event>, e: Event) {
    && (e.Sent? ==> e.frame != [])
    && (e.Sent? && IsRead(e, e.caller.feature) ==> EnabledIn(log, e.caller.feature))
    && (e.Sent? && IsWrite(e, e.caller.feature) ==> !GotIn(log, e.caller.feature))
    && (e.Got? ==> log != [] && IsRead(log[|log| - 1], e.feature))
  }

  ghost predicate Orderly(log: seq<Event>) {
    log == [] || (Orderly(log[..|log| - 1]) && MayFollow(log[..|log| - 1], log[|log| - 1]))
  }

  /** A flag is up exactly when a value was delivered in this connection. */
  ghost predicate Sound(s: State) {
    && Orderly(s.log)
    && forall f :: Enabled(s.status, f) <==> GotIn(s.log, f)
  }

  lemma {:induction false} OneMore(log: seq<Event>, e: Event, feature: string)
    ensures Orderly(log + [e]) <==> Orderly(log) && MayFollow(log, e)
    ensures EnabledIn(log + [e], feature) <==> !IsBoundary(e) && (IsEnable(e, feature) || EnabledIn(log, feature))
    ensures GotIn(log + [e], feature) <==> !IsBoundary(e) && ((e.Got? && e.feature == feature) || GotIn(log, feature))
  {
    assert (log + [e])[..|log|] == log;
  }

  /** Enabling frames, all refused or sent, leave the log orderly and deliver nothing. */
  lemma {:induction false} TransmitKeeps(s: State, feature: string, frames: seq<seq<byte>>, accepts: nat -> bool,
                                         k: nat)
    requires Orderly(s.log) && !GotIn(s.log, feature)
    requires forall i :: 0 <= i < |frames| ==> frames[i] != [] && frames[i][0] == OP_WRITE_CMD
    ensures var r := Transmit(s, ForFloat(feature), frames, accepts, k).0;
      && Orderly(r.log) && r.status == s.status && r.attrs == s.attrs
      && forall f :: GotIn(r.log, f) <==> GotIn(s.log, f)
    decreases |frames|
  {
    if frames != [] && accepts(k) {
      var e := Sent(ForFloat(feature), s.attrs, frames[0]);
      forall f ensures GotIn(s.log + [e], f) <==> GotIn(s.log, f) {
        OneMore(s.log, e, f);
      }
      OneMore(s.log, e, feature);
      TransmitKeeps(s.Log(e), feature, frames[1..], accepts, k + 1);
    }
  }

  /** When they all went out, the one that switches the sensor on did. */
  lemma {:induction false} TransmitEnables(s: State, feature: string, frames: seq<seq<byte>>, accepts: nat -> bool,
                                           k: nat)
    requires Transmit(s, ForFloat(feature), frames, accepts, k).1
    requires
      || EnabledIn(s.log, feature)
      || exists i :: 0 <= i < |frames| && IsEnable(Sent(ForFloat(feature), s.attrs, frames[i]), feature)
    ensures EnabledIn(Transmit(s, ForFloat(feature), frames, accepts, k).0.log, feature)
    decreases |frames|
  {
    if frames != [] {
      var e := Sent(ForFloat(feature), s.attrs, frames[0]);
      OneMore(s.log, e, feature);
      if !EnabledIn(s.log + [e], feature) {
        var i :| 0 <= i < |frames| && IsEnable(Sent(ForFloat(feature), s.attrs, frames[i]), feature);
        assert frames[1..][i - 1] == frames[i];
      }
      TransmitEnables(s.Log(e), feature, frames[1..], accepts, k + 1);
    }
  }

  lemma {:induction false} PlanEnables(feature: string, attrs: seq<DynChar>, data: u16, given: u16)
    requires Known(feature, ENABLE_SENSOR)
    ensures var frames := Plan(feature, data, HandleOf(feature, ENABLE_SENSOR, attrs, given));
      && (forall i :: 0 <= i < |frames| ==> frames[i] != [] && frames[i][0] == OP_WRITE_CMD)
      && exists i :: 0 <= i < |frames| && IsEnable(Sent(ForFloat(feature), attrs, frames[i]), feature)
  {
    var frames := Plan(feature, data, HandleOf(feature, ENABLE_SENSOR, attrs, given));
    var at := if feature == "gyroscope" || feature == "magnetom" then 1 else 0;
    assert frames[at] == WriteCommand(HandleOf(feature, ENABLE_SENSOR, attrs, given), [Flag(feature)]);
    assert IsEnable(Sent(ForFloat(feature), attrs, frames[at]), feature);
  }

  lemma {:induction false} GotWasEnabled(log: seq<Event>, feature: string)
    requires Orderly(log) && GotIn(log, feature)
    ensures EnabledIn(log, feature)
  {
    var n := |log| - 1;
    var e := log[n];
    OneMore(log[..n], e, feature);
    assert log[..n] + [e] == log;
    if e.Got? && e.feature == feature {
      var read := log[n - 1];
      assert log[..n][n - 1] == read && log[..n][..n - 1] == log[..n - 1];
      assert Orderly(log[..n]) && MayFollow(log[..n - 1], read);
    } else {
      GotWasEnabled(log[..n], feature);
    }
  }

  lemma {:induction false} PreparedSound(s: State, feature: string, data: u16, w: World)
    requires Sound(s)
    ensures var (r, ok) := Prepared(s, feature, data, w);
      && Sound(r) && r.status == s.status && r.attrs == s.attrs
      && (ok ==> EnabledIn(r.log, feature))
  {
    if Enabled(s.status, feature) {
      GotWasEnabled(s.log, feature);
    } else if Known(feature, ENABLE_SENSOR) {
      var frames := Plan(feature, data, HandleOf(feature, ENABLE_SENSOR, s.attrs, w.conf));
      PlanEnables(feature, s.attrs, data, w.conf);
      TransmitKeeps(s, feature, frames, w.accepts, 0);
      if Transmit(s, ForFloat(feature), frames, w.accepts, 0).1 {
        TransmitEnables(s, feature, frames, w.accepts, 0);
      }
    }
  }

  lemma {:induction false} FloatReadSound(s: State, feature: string, w: World)
    requires Sound(s)
    ensures Sound(FloatRead(s, feature, w).0)
  {
    if Known(feature, READ_SENSOR) && Mask(feature) != 0 {
      var data := HandleOf(feature, READ_SENSOR, s.attrs, w.data);
      PreparedSound(s, feature, data, w);
      var (ready, ok) := Prepared(s, feature, data, w);
      if ok && !w.answer.WriteFails? {
        var read := Sent(ForFloat(feature), s.attrs, ReadRequest(data));
        RequestSound(ready, read, feature);
        var value, handler := AttributeValue(Discovery.Arrived(w.answer, FLOAT_BUFFER)),
          TABLE[RowOf(feature, READ_SENSOR)].handler;
        if value.Some? {
          DeliverySound(ready.Log(read), Got(feature, handler, value.value));
        }
      }
    }
  }

  lemma {:induction false} RequestSound(s: State, read: Event, feature: string)
    requires Sound(s) && read.Sent? && read.frame != [] && read.frame[0] == OP_READ_REQ
    requires read.caller == ForFloat(feature) ==> EnabledIn(s.log, feature)
    requires read.caller.feature == feature
    ensures Sound(s.Log(read))
  {
    OneMore(s.log, read, feature);
    forall f ensures GotIn(s.log + [read], f) <==> GotIn(s.log, f) {
      OneMore(s.log, read, f);
    }
  }

  lemma {:induction false} DeliverySound(s: State, got: Event)
    requires Sound(s) && got.Got? && Mask(got.feature) != 0
    requires s.log != [] && IsRead(s.log[|s.log| - 1], got.feature)
    ensures Sound(s.(status := s.status | Mask(got.feature)).Log(got))
  {
    forall f ensures Orderly(s.log + [got]) && (Enabled(s.status | Mask(got.feature), f) <==> GotIn(s.log + [got], f)) {
      MaskBits(s.status, got.feature, f);
      OneMore(s.log, got, f);
    }
  }

  lemma {:induction false} BoundarySound(s: State, e: Event)
    requires Sound(s) && IsBoundary(e)
    ensures Sound(s.(status := 0).Log(e))
  {
    NoFlags();
    OneMore(s.log, e, "");
    forall f ensures !GotIn(s.log + [e], f) {
      OneMore(s.log, e, f);
    }
  }

  lemma {:induction false} StepSound(s: State, c: Call)
    requires Sound(s)
    ensures Sound(Step(s, c))
  {
    match c
    case Connect => BoundarySound(s, Opened);
    case Disconnect => BoundarySound(s, Closed);
    case Discover(_) =>
    case GetFloat(feature, w) => FloatReadSound(s, feature, w);
    case GetString(feature, w) =>
      if Known(feature, READ_SENSOR) && !w.answer.WriteFails? {
        var read := Sent(ForString(feature), s.attrs, ReadRequest(HandleOf(feature, READ_SENSOR, s.attrs, w.data)));
        RequestSound(s, read, feature);
      }
  }

  /** Every run from power-on keeps the flags and the log in step. */
  lemma {:induction false} RunSound(s: State, cs: seq<Call>)
    requires Sound(s)
    ensures Sound(Run(s, cs))
  {
    if cs != [] {
      RunSound(s, cs[..|cs| - 1]);
      StepSound(Run(s, cs[..|cs| - 1]), cs[|cs| - 1]);
    }
  }

  // ------------------------------------------------------- what it means

  const POWER_ON := State(0, [], [])

  function History(cs: seq<Call>): seq<Event> { Run(POWER_ON, cs).log }

  /** Event `i` switches `feature` on, and no connection starts or ends from there up to `j`. */
  ghost predicate EnabledAt(log: seq<Event>, feature: string, i: nat, j: nat) {
    && i < j <= |log|
    && IsEnable(log[i], feature)
    && forall k :: i <= k < j ==> !IsBoundary(log[k])
  }

  /** The recursive reading of "since the connection began" is the indexed one: this way round, and the other. */
  lemma {:induction false} EnablingEvent(log: seq<Event>, feature: string, j: nat) returns (i: nat)
    requires j <= |log| && EnabledIn(log[..j], feature)
    ensures EnabledAt(log, feature, i, j)
  {
    var e := log[j - 1];
    assert log[..j] == log[..j - 1] + [e];
    OneMore(log[..j - 1], e, feature);
    if IsEnable(e, feature) {
      i := j - 1;
    } else {
      i := EnablingEvent(log, feature, j - 1);
      StillEnabled(log, feature, i, j);
    }
  }

  lemma {:induction false} StillEnabled(log: seq<Event>, feature: string, i: nat, j: nat)
    requires 0 < j <= |log| && EnabledAt(log, feature, i, j - 1) && !IsBoundary(log[j - 1])
    ensures EnabledAt(log, feature, i, j)
  {
  }

  lemma {:induction false} EnabledSinceEvent(log: seq<Event>, feature: string, i: nat, j: nat)
    requires EnabledAt(log, feature, i, j)
    ensures EnabledIn(log[..j], feature)
    decreases j
  {
    var e := log[j - 1];
    assert log[..j] == log[..j - 1] + [e];
    OneMore(log[..j - 1], e, feature);
    if i < j - 1 {
      EnabledSinceEvent(log, feature, i, j - 1);
    }
  }

  lemma {:induction false} OrderlyAt(log: seq<Event>, j: nat)
    requires Orderly(log) && j < |log|
    ensures Orderly(log[..j]) && MayFollow(log[..j], log[j])
  {
    var n := |log| - 1;
    if j < n {
      OrderlyAt(log[..n], j);
      assert log[..n][..j] == log[..j];
    }
  }

  /** Enable before read: in every run a read request for a sensor follows an enabling write in the same connection. */
  lemma {:induction false} EnableBeforeRead(cs: seq<Call>, j: nat, feature: string)
    requires j < |History(cs)| && IsRead(History(cs)[j], feature)
    ensures exists i: nat :: EnabledAt(History(cs), feature, i, j)
  {
    var log := History(cs);
    PowerOnSound(cs);
    OrderlyAt(log, j);
    var i := EnablingEvent(log, feature, j);
  }

  lemma {:induction false} PowerOnSound(cs: seq<Call>)
    ensures Sound(Run(POWER_ON, cs))
  {
    NoFlags();
    RunSound(POWER_ON, cs);
  }

  /** A flag that is up: the sensor was switched on since the connection began. */
  lemma {:induction false} FlagMeansEnabled(cs: seq<Call>, feature: string)
    requires Enabled(Run(POWER_ON, cs).status, feature)
    ensures exists i: nat :: EnabledAt(History(cs), feature, i, |History(cs)|)
  {
    var log := History(cs);
    PowerOnSound(cs);
    assert log[..|log|] == log;
    assert GotIn(log, feature);
    GotWasEnabled(log, feature);
    var i := EnablingEvent(log, feature, |log|);
  }

  /** Once a sensor has delivered a value it is not switched on again in that connection. */
  lemma {:induction false} EnabledOnce(cs: seq<Call>, i: nat, j: nat, feature: string)
    requires i < j < |History(cs)|
    requires History(cs)[i].Got? && History(cs)[i].feature == feature
    requires IsWrite(History(cs)[j], feature)
    ensures exists k :: i < k < j && IsBoundary(History(cs)[k])
  {
    var log := History(cs);
    PowerOnSound(cs);
    OrderlyAt(log, j);
    NotGotSince(log, feature, i, j);
  }

  lemma {:induction false} NotGotSince(log: seq<Event>, feature: string, i: nat, j: nat)
    requires i < j <= |log| && log[i].Got? && log[i].feature == feature && !GotIn(log[..j], feature)
    ensures exists k :: i < k < j && IsBoundary(log[k])
    decreases j
  {
    assert log[..j] == log[..j - 1] + [log[j - 1]];
    OneMore(log[..j - 1], log[j - 1], feature);
    if !IsBoundary(log[j - 1]) {
      NotGotSince(log, feature, i, j - 1);
    }
  }

  /**
   * After a discovery the enabling write goes to the first characteristic with the configuration UUID,
   * if the listing reached it and it is not the one whose UUID the number of records replaced.
   */
  lemma {:induction false} EnableTarget(db: seq<Entry>, n: nat, e: Event, feature: string, at: nat)
    requires n <= |db| && n <= TABLE_SIZE + 4 && (forall i :: 0 <= i < |db| ==> db[i].uuid.Valid())
    requires IsEnable(e, feature) && e.attrs == Listing(db, n)
    requires at == First(db, EntryWithUuid(TABLE[RowOf(feature, ENABLE_SENSOR)].uuid)) && at < n && at != TABLE_SIZE
    ensures e.frame == WriteCommand(db[at].value, [Flag(feature)])
  {
    var given: u16 :| e.frame == WriteCommand(HandleOf(feature, ENABLE_SENSOR, e.attrs, given), [Flag(feature)]);
    LookupAfterDiscovery(db, n, feature, ENABLE_SENSOR, given);
    SeenFirst(db, n, TABLE[RowOf(feature, ENABLE_SENSOR)].uuid);
  }

  // ------------------------------------------------------------- one read

  /** The events of frames that all went out. */
  function SentAll(caller: Caller, attrs: seq<DynChar>, frames: seq<seq<byte>>): seq<Event> {
    if frames == [] then [] else [Sent(caller, attrs, frames[0])] + SentAll(caller, attrs, frames[1..])
  }

  lemma {:induction false} AllAccepted(s: State, caller: Caller, frames: seq<seq<byte>>, accepts: nat -> bool, k: nat)
    requires forall i :: accepts(i)
    ensures Transmit(s, caller, frames, accepts, k) == (s.(log := s.log + SentAll(caller, s.attrs, frames)), true)
    decreases |frames|
  {
    if frames == [] {
      assert s.log + [] == s.log;
    } else {
      var e := Sent(caller, s.attrs, frames[0]);
      AllAccepted(s.Log(e), caller, frames[1..], accepts, k + 1);
      assert s.log + SentAll(caller, s.attrs, frames) == s.log + [e] + SentAll(caller, s.attrs, frames[1..]);
    }
  }

  /**
   * Over a working connection a supported sensor delivers the value the peer answered with, to the
   * handler of its data row, having sent the enabling frames first exactly when its flag was down.
   */
  lemma {:induction false} ReadDelivers(s: State, feature: string, w: World, value: seq<byte>)
    requires Mask(feature) != 0 && (forall i :: w.accepts(i))
    requires w.answer == Discovery.Received(ReadResponse(value)) && 1 <= |value| < 30
    ensures Known(feature, READ_SENSOR) && Known(feature, ENABLE_SENSOR)
    ensures var (r, out) := FloatRead(s, feature, w);
      var data := HandleOf(feature, READ_SENSOR, s.attrs, w.data);
      var conf := HandleOf(feature, ENABLE_SENSOR, s.attrs, w.conf);
      && out.Some? && out.value.0 != NoHandler && out.value.1 == value
      && Enabled(r.status, feature)
      && r.log == s.log
         + (if Enabled(s.status, feature) then [] else SentAll(ForFloat(feature), s.attrs, Plan(feature, data, conf)))
         + [Sent(ForFloat(feature), s.attrs, ReadRequest(data)), Got(feature, out.value.0, value)]
  {
    MaskBits(s.status, feature, feature);
    SensorRows(feature);
    var data := HandleOf(feature, READ_SENSOR, s.attrs, w.data);
    PreparedDelivers(s, feature, data, w);
    var ready := Prepared(s, feature, data, w).0;
    AnswerDelivers(ready, feature, w, data, value);
  }

  lemma {:induction false} PreparedDelivers(s: State, feature: string, data: u16, w: World)
    requires Known(feature, ENABLE_SENSOR) && forall i :: w.accepts(i)
    ensures var frames := Plan(feature, data, HandleOf(feature, ENABLE_SENSOR, s.attrs, w.conf));
      Prepared(s, feature, data, w)
      == (s.(log := s.log + if Enabled(s.status, feature) then [] else SentAll(ForFloat(feature), s.attrs, frames)),
        true)
  {
    var frames := Plan(feature, data, HandleOf(feature, ENABLE_SENSOR, s.attrs, w.conf));
    AllAccepted(s, ForFloat(feature), frames, w.accepts, 0);
    assert s.log + [] == s.log;
  }

  lemma {:induction false} AnswerDelivers(ready: State, feature: string, w: World, data: u16, value: seq<byte>)
    requires w.answer == Discovery.Received(ReadResponse(value)) && 1 <= |value| < FLOAT_BUFFER
    ensures AttributeValue(Discovery.Arrived(w.answer, FLOAT_BUFFER)) == Some(value)
    ensures AfterRequest(ready, ForFloat(feature), data, w.answer).log
      == ready.log + [Sent(ForFloat(feature), ready.attrs, ReadRequest(data))]
  {
    AnswerCarries(w.answer, FLOAT_BUFFER, value);
  }

  lemma {:induction false} AnswerCarries(answer: Discovery.Reply, capacity: nat, value: seq<byte>)
    requires answer == Discovery.Received(ReadResponse(value)) && 1 <= |value| < capacity
    ensures Discovery.Arrived(answer, capacity) == ReadResponse(value)
    ensures AttributeValue(Discovery.Arrived(answer, capacity)) == Some(value)
  {
    ReadValueRoundTrip(0, value);
  }

  /** How many of the frames the socket takes before it refuses one. */
  function Taken(frames: nat, accepts: nat -> bool, k: nat): (n: nat)
    ensures n <= frames && (forall i :: k <= i < k + n ==> accepts(i)) && (n < frames ==> !accepts(k + n))
    decreases frames
  {
    if frames == 0 || !accepts(k) then 0 else 1 + Taken(frames - 1, accepts, k + 1)
  }

  lemma {:induction false} TransmitTaken(s: State, caller: Caller, frames: seq<seq<byte>>, accepts: nat -> bool, k: nat)
    ensures var n := Taken(|frames|, accepts, k);
      Transmit(s, caller, frames, accepts, k)
      == (s.(log := s.log + SentAll(caller, s.attrs, frames[..n])), n == |frames|)
    decreases |frames|
  {
    if frames == [] || !accepts(k) {
      assert s.log + [] == s.log;
    } else {
      var e, n := Sent(caller, s.attrs, frames[0]), Taken(|frames| - 1, accepts, k + 1);
      TransmitTaken(s.Log(e), caller, frames[1..], accepts, k + 1);
      FirstOfAll(caller, s.attrs, frames, n);
      var more := SentAll(caller, s.attrs, frames[1..][..n]);
      assert s.log + ([e] + more) == s.log + [e] + more;
    }
  }

  lemma {:induction false} FirstOfAll(caller: Caller, attrs: seq<DynChar>, frames: seq<seq<byte>>, n: nat)
    requires n < |frames|
    ensures SentAll(caller, attrs, frames[..n + 1])
         == [Sent(caller, attrs, frames[0])] + SentAll(caller, attrs, frames[1..][..n])
  {
    assert frames[..n + 1][1..] == frames[1..][..n];
  }

  /** A refused enabling frame ends the call: what was taken before it is all that is sent, and nothing is read. */
  lemma {:induction false} RefusalEnds(s: State, feature: string, w: World)
    requires Mask(feature) != 0 && !Enabled(s.status, feature)
    ensures Known(feature, READ_SENSOR) && Known(feature, ENABLE_SENSOR)
    ensures var frames := Plan(feature, HandleOf(feature, READ_SENSOR, s.attrs, w.data),
                               HandleOf(feature, ENABLE_SENSOR, s.attrs, w.conf));
      var n := Taken(|frames|, w.accepts, 0);
      n < |frames| ==>
        FloatRead(s, feature, w) == (s.(log := s.log + SentAll(ForFloat(feature), s.attrs, frames[..n])), None)
  {
    MaskBits(s.status, feature, feature);
    SensorRows(feature);
    var frames := Plan(feature, HandleOf(feature, READ_SENSOR, s.attrs, w.data),
                       HandleOf(feature, ENABLE_SENSOR, s.attrs, w.conf));
    TransmitTaken(s, ForFloat(feature), frames, w.accepts, 0);
  }

  /**
   * A value is delivered if and only if the feature has a flag, its enabling frames were taken unless the flag
   * is up, and the answer carries one.
   */
  lemma {:induction false} DeliversExactly(s: State, feature: string, w: World)
    ensures var out, octets := FloatRead(s, feature, w).1, Discovery.Arrived(w.answer, 30);
      && (out.Some? <==>
           && Mask(feature) != 0 && AttributeValue(octets).Some?
           && (Enabled(s.status, feature) || FramesTaken(s, feature, w)))
      && (out.Some? ==> out.value.1 == AttributeValue(octets).value)
      && (out.Some? ==> Known(feature, READ_SENSOR) && out.value.0 == TABLE[RowOf(feature, READ_SENSOR)].handler)
  {
    Stepwise(s, feature, w);
  }

  /** The sensor's flag is raised just then, and no other flag ever changes. */
  lemma {:induction false} FlagRaisedExactly(s: State, feature: string, w: World, other: string)
    ensures var (t, out) := FloatRead(s, feature, w);
      Enabled(t.status, other) <==> Enabled(s.status, other) || (out.Some? && other == feature)
  {
    Stepwise(s, feature, w);
    MaskBits(s.status, feature, other);
  }

  lemma {:induction false} Stepwise(s: State, feature: string, w: World)
    ensures var (t, out) := FloatRead(s, feature, w);
      var value := AttributeValue(Discovery.Arrived(w.answer, FLOAT_BUFFER));
      && (out.Some? <==>
           Mask(feature) != 0 && value.Some? && (Enabled(s.status, feature) || FramesTaken(s, feature, w)))
      && (out.Some? ==> Mask(feature) != 0 && out.value.1 == value.value)
      && t.status == if out.Some? then s.status | Mask(feature) else s.status
  {
    if Mask(feature) != 0 {
      MaskBits(s.status, feature, feature);
      SensorRows(feature);
      PreparedExactly(s, feature, HandleOf(feature, READ_SENSOR, s.attrs, w.data), w);
    }
  }

  lemma {:induction false} PreparedExactly(s: State, feature: string, data: u16, w: World)
    requires Known(feature, ENABLE_SENSOR)
    ensures var (t, ok) := Prepared(s, feature, data, w);
      && (ok <==> Enabled(s.status, feature) || FramesTaken(s, feature, w))
      && t.status == s.status && t.attrs == s.attrs
  {
    var frames := Plan(feature, data, HandleOf(feature, ENABLE_SENSOR, s.attrs, w.conf));
    TransmitTaken(s, ForFloat(feature), frames, w.accepts, 0);
    FrameCount(feature, data, HandleOf(feature, ENABLE_SENSOR, s.attrs, w.conf));
  }

  /** The socket takes each enabling frame: there are one, two or three. */
  predicate FramesTaken(s: State, feature: string, w: World) {
    && w.accepts(0)
    && (feature == "gyroscope" || feature == "magnetom" || feature == "accelero" ==> w.accepts(1))
    && (feature == "magnetom" ==> w.accepts(2))
  }

  lemma {:induction false} FrameCount(feature: string, data: u16, conf: u16)
    ensures |Plan(feature, data, conf)| ==
      if feature == "magnetom" then 3 else if feature == "gyroscope" || feature == "accelero" then 2 else 1
  {
  }

  /** A sensor without a flag is never asked: nothing is sent for humidity or for a name outside the table. */
  lemma {:induction false} Unsupported(s: State, feature: string, w: World)
    ensures Mask(feature) == 0 ==> FloatRead(s, feature, w) == (s, None)
    ensures FloatRead(s, feature, w).1.Some? ==> FloatRead(s, feature, w).1.value.0 != NoHandler
  {
    MaskBits(s.status, feature, feature);
    if Mask(feature) != 0 {
      SensorRows(feature);
    }
  }

  /** A string read hands out the answer with its opcode in front. */
  lemma {:induction false} StringKeepsOpcode(s: State, feature: string, w: World, value: seq<byte>)
    requires Known(feature, READ_SENSOR)
    requires w.answer == Discovery.Received(ReadResponse(value)) && 1 <= |value| < 100
    ensures StringRead(s, feature, w).1 == Some([OP_READ_RESP] + value)
  {
    AnswerCarries(w.answer, STRING_BUFFER, value);
    WholeAnswer(ReadResponse(value), value);
  }

  /** Of a notification it hands out all but the last two octets. */
  lemma {:induction false} StringOfNotification(s: State, feature: string, w: World, hdl: u16, value: seq<byte>)
    requires Known(feature, READ_SENSOR)
    requires w.answer == Discovery.Received(Notification(hdl, value)) && 1 <= |value| <= 97
    ensures StringRead(s, feature, w).1 == Some(Notification(hdl, value)[..|value| + 1])
  {
    ReadValueRoundTrip(hdl, value);
  }

  lemma {:induction false} WholeAnswer(octets: seq<byte>, value: seq<byte>)
    requires |octets| == |value| + 1
    ensures octets[..|value| + 1] == octets
  {
  }

  lemma {:induction false} TransmitOne(s: State, caller: Caller, frame: seq<byte>, rest: seq<seq<byte>>,
                                       accepts: nat -> bool, k: nat)
    ensures Transmit(s, caller, [frame] + rest, accepts, k) ==
      if accepts(k) then Transmit(s.Log(Sent(caller, s.attrs, frame)), caller, rest, accepts, k + 1) else (s, false)
  {
    assert ([frame] + rest)[1..] == rest;
  }

  lemma {:induction false} ShorterPrefix(s: seq<byte>, front: seq<byte>, n: nat)
    requires n <= |front| <= |s| && s[..|front|] == front
    ensures s[..n] == front[..n]
  {
  }

  /** One, two or three frames in turn. */
  lemma {:induction false} TransmitInTurn(s: State, caller: Caller, a: seq<byte>, b: seq<byte>, c: seq<byte>,
                                          accepts: nat -> bool)
    ensures var (afterA, okA) := (s.Log(Sent(caller, s.attrs, a)), accepts(0));
      var (afterB, okB) := (afterA.Log(Sent(caller, s.attrs, b)), accepts(1));
      var (afterC, okC) := (afterB.Log(Sent(caller, s.attrs, c)), accepts(2));
      && Transmit(s, caller, [a], accepts, 0) == (if okA then (afterA, true) else (s, false))
      && Transmit(s, caller, [a, b], accepts, 0)
        == (if !okA then (s, false) else if okB then (afterB, true) else (afterA, false))
      && Transmit(s, caller, [a, b, c], accepts, 0) ==
           (if !okA then (s, false) else if !okB then (afterA, false)
            else if okC then (afterC, true) else (afterB, false))
  {
    var afterA := s.Log(Sent(caller, s.attrs, a));
    var afterB := afterA.Log(Sent(caller, s.attrs, b));
    assert [a] + [] == [a] && [a] + [b] == [a, b] && [a] + [b, c] == [a, b, c];
    assert [b] + [] == [b] && [b] + [c] == [b, c] && [c] + [] == [c];
    TransmitOne(s, caller, a, [], accepts, 0);
    TransmitOne(s, caller, a, [b], accepts, 0);
    TransmitOne(s, caller, a, [b, c], accepts, 0);
    TransmitOne(afterA, caller, b, [], accepts, 1);
    TransmitOne(afterA, caller, b, [c], accepts, 1);
    TransmitOne(afterB, caller, c, [], accepts, 2);
  }

  // ------------------------------------------------------------ the program

  /** `struct ble_t`, the characteristics table, and what has crossed the socket. */
  class Ble {
    var status: bv8
    const table: array<DynChar>
    ghost var log: seq<Event>

    predicate Valid()
      reads this, table
    {
      IsTable(table) && NbrAttr(table) as int <= TABLE_SIZE + 4
    }

    /** The records lookups go through. */
    ghost function Attrs(): seq<DynChar>
      requires Valid()
      reads this, table
    {
      table[..NbrAttr(table)]
    }

    ghost function Abstract(): State
      requires Valid()
      reads this, table
    {
      State(status, Attrs(), log)
    }

    constructor ()
      ensures Valid() && Abstract() == POWER_ON && fresh(table)
    {
      status, log := 0, [];
      table := new DynChar[TABLE_SIZE + 4](_ => DynChar(0, 0, 0));
    }

    method Connect(ok: bool) returns (ret: int)
      requires Valid()
      modifies this
      ensures Valid() && Abstract() == Step(old(Abstract()), Call.Connect)
      ensures ret == if ok then 0 else -1
    {
      status := 0;
      log := log + [Opened];
      ret := if ok then 0 else -1;
    }

    method Disconnect() returns (ret: int)
      requires Valid()
      modifies this
      ensures Valid() && Abstract() == Step(old(Abstract()), Call.Disconnect)
      ensures ret == 0
    {
      status := 0;
      log := log + [Closed];
      return 0;
    }

    /** discoverCharacteristics: the records are what the server's database lists. */
    method Discover(server: Discovery.Server, ghost db: seq<Entry>) returns (ret: int)
      requires Valid()
      modifies this, table
      ensures Valid() && Abstract() == Step(old(Abstract()), Call.Discover(Attrs()))
      ensures Discovery.WritesSucceed(server) ==> ret == 0
      ensures ret == 0 || (ret == -1 && Attrs() == [])
      ensures Discovery.Conforming(server, db) && ret == 0 ==> Discovery.Lists(db, table)
      ensures Discovery.Conforming(server, db) && Discovery.Reliable(server) && |db| <= TABLE_SIZE ==>
        ret == 0 && Attrs() == RecordsOf(db)
    {
      var link := new Discovery.Link(server);
      ghost var starts;
      ret, starts := Discovery.DiscoverCharacteristics(link, table, db);
    }

    /** The socket takes the frame, or nothing leaves. */
    method Write(frame: seq<byte>, accepted: bool, ghost caller: Caller) returns (ret: int)
      requires Valid() && frame != []
      modifies this`log
      ensures Abstract() == if accepted then old(Abstract()).Log(Sent(caller, Attrs(), frame)) else old(Abstract())
      ensures ret == if accepted then |frame| else -1
    {
      if accepted {
        log := log + [Sent(caller, Attrs(), frame)];
      }
      ret := if accepted then |frame| else -1;
    }

    /** A zeroed frame buffer, the encoder, the socket. */
    method WriteValue(handle: u16, payload: array<byte>, length: nat, accepted: bool, ghost caller: Caller)
      returns (ret: int)
      requires Valid()
      requires 1 <= length <= 2 && 2 * length <= payload.Length + 1
      requires length == 2 ==> payload[1] == 0
      modifies this`log
      ensures Abstract() == if accepted
        then old(Abstract()).Log(Sent(caller, Attrs(), WriteCommand(handle, payload[..length]))) else old(Abstract())
      ensures ret == if accepted then 3 + length else -1
    {
      var buff := new byte[10](_ => 0);
      var total := EncWriteCommand(buff, handle, payload, length);
      ret := Write(buff[..total], accepted, caller);
    }

    method EnableSensor(handle: u16, flag: byte, accepted: bool, ghost caller: Caller) returns (ret: int)
      requires Valid()
      modifies this`log
      ensures Abstract() ==
        if accepted then old(Abstract()).Log(Sent(caller, Attrs(), WriteCommand(handle, [flag]))) else old(Abstract())
      ensures ret == if accepted then 4 else -1
    {
      var payload := new byte[5](_ => 0);
      payload[0] := flag;
      assert payload[..1] == [flag];
      ret := WriteValue(handle, payload, 1, accepted, caller);
    }

    /** The second payload octet is never copied; it is the zero the frame buffer already holds. */
    method EnableNotifications(handle: u16, flag: byte, accepted: bool, ghost caller: Caller) returns (ret: int)
      requires Valid()
      modifies this`log
      ensures Abstract() == if accepted
        then old(Abstract()).Log(Sent(caller, Attrs(), WriteCommand(handle, [flag, 0]))) else old(Abstract())
      ensures ret == if accepted then 5 else -1
    {
      var payload := new byte[5](_ => 0);
      payload[0] := flag;
      payload[1] := 0;
      assert payload[..2] == [flag, 0];
      ret := WriteValue(handle, payload, 2, accepted, caller);
    }

    method SetMeasuringPeriod(handle: u16, input: byte, accepted: bool, ghost caller: Caller) returns (ret: int)
      requires Valid()
      modifies this`log
      ensures Abstract() ==
        if accepted then old(Abstract()).Log(Sent(caller, Attrs(), WriteCommand(handle, [input]))) else old(Abstract())
      ensures ret == if accepted then 4 else -1
    {
      var payload := new byte[3](_ => 0);
      payload[0] := input;
      assert payload[..1] == [input];
      ret := WriteValue(handle, payload, 1, accepted, caller);
    }

    /** ble_read_val: request, answer into the same buffer, and where the value lies in it. */
    method ReadVal(handle: u16, buff: array<byte>, answer: Discovery.Reply, ghost caller: Caller)
      returns (ret: int, index: nat, length: nat)
      requires Valid() && buff.Length >= 3
      modifies this`log, buff
      ensures Abstract() == AfterRequest(old(Abstract()), caller, handle, answer)
      ensures var octets := Discovery.Arrived(answer, buff.Length);
        && ret == (if AttributeValue(octets).Some? then 0 else -1)
        && (ret == 0 ==>
              && index + length == |octets| && buff[..|octets|] == octets
              && buff[index..index + length] == AttributeValue(octets).value)
    {
      var size := EncReadRequest(buff, handle);
      assert buff[..size] == ReadRequest(handle);
      ret := Write(buff[..size], !answer.WriteFails?, caller);
      if ret < 0 {
        return -1, 0, 0;
      }
      var received := Discovery.ReadSocket(answer, buff);
      if received <= 0 {
        return -1, 0, 0;
      }
      assert buff[..received] == Discovery.Arrived(answer, buff.Length);
      ret, index, length := DecReadResponse(buff, received);
    }

    /** ble_sensor_status with READ_SENSOR. */
    method SensorStatus(feature: string) returns (ret: int)
      ensures ret == if Mask(feature) == 0 then -1 else if Enabled(status, feature) then 1 else 0
    {
      if feature == "Temp" {
        ret := if status & 1 != 0 then 1 else 0;
      } else if feature == "accelero" {
        ret := if status & 2 != 0 then 1 else 0;
      } else if feature == "magnetom" {
        ret := if status & 8 != 0 then 1 else 0;
      } else if feature == "gyroscope" {
        ret := if status & 4 != 0 then 1 else 0;
      } else {
        ret := -1;
      }
    }

    /** ble_sensor_status with ENABLE_SENSOR: it answers -1 even when it raised a flag. */
    method RaiseStatus(feature: string) returns (ret: int)
      modifies this`status
      ensures status == old(status) | Mask(feature)
      ensures ret == -1
    {
      if feature == "Temp" {
        status := status | 1;
      } else if feature == "accelero" {
        status := status | 2;
      } else if feature == "magnetom" {
        status := status | 8;
      } else if feature == "gyroscope" {
        status := status | 4;
      }
      return -1;
    }

    /** The frames that switch a sensor on, until one is refused. */
    method Enable(feature: string, dataHandle: u16, confHandle: u16, accepts: nat -> bool) returns (ret: int)
      requires Valid()
      modifies this`log
      ensures (Abstract(), ret >= 0)
        == Transmit(old(Abstract()), ForFloat(feature), Plan(feature, dataHandle, confHandle), accepts, 0)
    {
      ghost var caller := ForFloat(feature);
      ghost var notify := WriteCommand(ToU16(dataHandle as int + 1), [1, 0]);
      ghost var enable := WriteCommand(confHandle, [Flag(feature)]);
      ghost var period := WriteCommand(ToU16(confHandle as int + 3), [0x0A]);
      TransmitInTurn(Abstract(), caller, notify, enable, period, accepts);
      TransmitInTurn(Abstract(), caller, enable, period, [], accepts);
      if feature == "gyroscope" {
        ret := EnableNotifications(ToU16(dataHandle as int + 1), 1, accepts(0), caller);
        if ret < 0 {
          return -1;
        }
        ret := EnableSensor(confHandle, 7, accepts(1), caller);
      } else if feature == "magnetom" {
        ret := EnableNotifications(ToU16(dataHandle as int + 1), 1, accepts(0), caller);
        if ret < 0 {
          return -1;
        }
        ret := EnableSensor(confHandle, 1, accepts(1), caller);
        if ret < 0 {
          return -1;
        }
        ret := SetMeasuringPeriod(ToU16(confHandle as int + 3), 0x0A, accepts(2), caller);
      } else if feature == "accelero" {
        ret := EnableSensor(confHandle, 1, accepts(0), caller);
        if ret < 0 {
          return -1;
        }
        ret := SetMeasuringPeriod(ToU16(confHandle as int + 3), 0x0A, accepts(1), caller);
      } else {
        ret := EnableSensor(confHandle, 1, accepts(0), caller);
      }
    }

    /** The enabling branch of ble_get_float. */
    method Prepare(feature: string, dataHandle: u16, w: World) returns (ret: int)
      requires Valid() && !Enabled(status, feature)
      modifies this`log
      ensures (Abstract(), ret >= 0) == Prepared(old(Abstract()), feature, dataHandle, w)
    {
      var found, confHandle, unused := FindAttHandle(feature, ENABLE_SENSOR, table, w.conf);
      if found < 0 {
        return -1;
      }
      ret := Enable(feature, dataHandle, confHandle, w.accepts);
    }

    /** ble_get_float; the value is for the handler, whose result the source ignores. */
    method GetFloat(feature: string, w: World) returns (ret: int, handler: Handler, value: seq<byte>)
      requires Valid()
      modifies this`status, this`log
      ensures (Abstract(), if ret == 0 then Some((handler, value)) else None) == FloatRead(old(Abstract()), feature, w)
      ensures ret == 0 || ret == -1
    {
      var found, dataHandle;
      found, dataHandle, handler := FindAttHandle(feature, READ_SENSOR, table, w.data);
      if found < 0 {
        return -1, handler, [];
      }
      ret := SensorStatus(feature);
      if ret < 0 {
        return -1, handler, [];
      }
      if ret == 0 {
        ret := Prepare(feature, dataHandle, w);
        if ret < 0 {
          return -1, handler, [];
        }
      }
      var buff := new byte[FLOAT_BUFFER](_ => 0);
      var index, length;
      ret, index, length := ReadVal(dataHandle, buff, w.answer, ForFloat(feature));
      if ret < 0 {
        return -1, handler, [];
      }
      var ignored := RaiseStatus(feature);
      value := buff[index..index + length];
      log := log + [Got(feature, handler, value)];
      return 0, handler, value;
    }

    /** ble_get_string. */
    method GetString(feature: string, w: World) returns (ret: int, value: seq<byte>)
      requires Valid()
      modifies this`log
      ensures Abstract() == StringRead(old(Abstract()), feature, w).0
      ensures StringRead(old(Abstract()), feature, w).1 == if ret == 0 then Some(value) else None
      ensures ret == 0 || ret == -1
    {
      var found, dataHandle, unused := FindAttHandle(feature, READ_SENSOR, table, w.data);
      if found < 0 {
        return -1, [];
      }
      var buff := new byte[STRING_BUFFER](_ => 0);
      var index, length;
      ret, index, length := ReadVal(dataHandle, buff, w.answer, ForString(feature));
      if ret < 0 {
        return -1, [];
      }
      value := buff[..length + 1];
      ShorterPrefix(buff[..], Discovery.Arrived(w.answer, STRING_BUFFER), length + 1);
    }
  }
}
