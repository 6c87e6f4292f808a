/** Feature lookup and the stateful gyroscope and magnetometer handlers of src/ble/TI_sensortag.c. */
module SensorTag {
  import opened Bytes
  import opened Sequences
  import opened GattAtt

  // ----------------------------------------------------------- feature table

  const READ_SENSOR := false
  const ENABLE_SENSOR := true

  datatype Handler = NoHandler | Temperature | Humidity | Gyroscope | Magnetometer | Accelerometer

  datatype Row = Row(feature: string, config: bool, uuid: u16, handler: Handler)

  /** The static table; its terminator is a row like the others. */
  const TABLE: seq<Row> := [
    Row("Temp", ENABLE_SENSOR, 0xaa02, NoHandler),
    Row("Temp", READ_SENSOR, 0xaa01, Temperature),
    Row("humidity", ENABLE_SENSOR, 0xaa22, NoHandler),
    Row("humidity", READ_SENSOR, 0xaa21, Humidity),
    Row("gyroscope", ENABLE_SENSOR, 0xaa52, NoHandler),
    Row("gyroscope", READ_SENSOR, 0xaa51, Gyroscope),
    Row("magnetom", ENABLE_SENSOR, 0xaa32, NoHandler),
    Row("magnetom", READ_SENSOR, 0xaa31, Magnetometer),
    Row("accelero", ENABLE_SENSOR, 0xaa12, NoHandler),
    Row("accelero", READ_SENSOR, 0xaa11, Accelerometer),
    Row("HWrev", READ_SENSOR, 0x2A26, NoHandler),
    Row("SWrev", READ_SENSOR, 0x2A28, NoHandler),
    Row("", READ_SENSOR, 0, NoHandler)
  ]

  function Matching(feature: string, config: bool): Row -> bool {
    (r: Row) => r.feature == feature && r.config == config
  }

  function WithUuid(uuid: u16): DynChar -> bool {
    (c: DynChar) => c.uuid == uuid
  }

  function EntryWithUuid(uuid: u16): Entry -> bool {
    (e: Entry) => e.uuid.Valid() && e.uuid.Part16() == uuid
  }

  function RowOf(feature: string, config: bool): (row: nat)
    ensures row <= |TABLE|
  {
    First(TABLE, Matching(feature, config))
  }

  predicate Known(feature: string, config: bool) { RowOf(feature, config) < |TABLE| }

  /** The handle a lookup leaves: the first record with the row's UUID, or what was there before. */
  function HandleOf(feature: string, config: bool, attrs: seq<DynChar>, given: u16): u16
    requires Known(feature, config)
  {
    var at := First(attrs, WithUuid(TABLE[RowOf(feature, config)].uuid));
    if at < |attrs| then attrs[at].handle else given
  }

  /**
   * find_att_handle. The inner loop may run off the records without touching the handle, and
   * the result is still 0.
   */
  method FindAttHandle(feature: string, config: bool, attrs: array<DynChar>, given: u16)
    returns (ret: int, hnd: u16, handler: Handler)
    requires IsTable(attrs) && NbrAttr(attrs) as int <= attrs.Length
    ensures ret == if Known(feature, config) then 0 else -1
    ensures ret == 0 ==>
      && hnd == HandleOf(feature, config, attrs[..NbrAttr(attrs)], given)
      && handler == TABLE[RowOf(feature, config)].handler
    ensures ret < 0 ==> hnd == given && handler == NoHandler
  {
    var i := FindRow(TABLE, feature, config);
    if i == |TABLE| {
      return -1, given, NoHandler;
    }
    hnd := FirstHandle(TABLE[i].uuid, attrs, NbrAttr(attrs), given);
    return 0, hnd, TABLE[i].handler;
  }

  /** The outer loop. */
  method FindRow(rows: seq<Row>, feature: string, config: bool) returns (i: nat)
    ensures i == First(rows, Matching(feature, config))
  {
    i := 0;
    while i < |rows|
      invariant 0 <= i <= |rows|
      invariant forall k :: 0 <= k < i ==> !Matching(feature, config)(rows[k])
    {
      if rows[i].feature == feature && rows[i].config == config {
        break;
      }
      i := i + 1;
    }
    FirstIs(rows, Matching(feature, config), i);
  }

  method FirstHandle(uuid: u16, attrs: array<DynChar>, nbr: nat, given: u16) returns (hnd: u16)
    requires nbr <= attrs.Length
    ensures var at := First(attrs[..nbr], WithUuid(uuid));
      hnd == if at < nbr then attrs[at].handle else given
  {
    hnd := given;
    var j := 0;
    while j < nbr
      invariant 0 <= j <= nbr && hnd == given
      invariant forall k :: 0 <= k < j ==> attrs[k].uuid != uuid
    {
      if uuid == attrs[j].uuid {
        FirstIs(attrs[..nbr], WithUuid(uuid), j);
        return attrs[j].handle;
      }
      j := j + 1;
    }
    FirstIs(attrs[..nbr], WithUuid(uuid), nbr);
  }

  /** No row's UUID can be mistaken for a number of records past the end of the table. */
  lemma {:induction false} RowUuids(i: nat)
    requires i < |TABLE|
    ensures TABLE[i].uuid == 0 || TABLE[i].uuid > 0x2000
  {
  }

  /**
   * Where a lookup finds the UUID in a listing of `n` entries, or `n`: the entry past the end of the table goes
   * unseen.
   */
  function SeenAt(db: seq<Entry>, n: nat, uuid: u16): (at: nat)
    requires n <= |db|
    ensures at <= n
    ensures at < n ==> at != TABLE_SIZE && EntryWithUuid(uuid)(db[at])
    ensures forall k :: 0 <= k < at && k != TABLE_SIZE ==> !EntryWithUuid(uuid)(db[k])
  {
    var at := First(db, EntryWithUuid(uuid));
    if at >= n then n
    else if at != TABLE_SIZE then at
    else
      var more := TABLE_SIZE + 1 + First(db[TABLE_SIZE + 1..], EntryWithUuid(uuid));
      assert forall k :: TABLE_SIZE < k < more ==> db[k] == db[TABLE_SIZE + 1..][k - TABLE_SIZE - 1];
      if more < n then more else n
  }

  /**
   * On the listing of the first `n` characteristics of a database, a known feature is given the value
   * handle of the first one with its UUID that is not number TABLE_SIZE, and nothing when there is none.
   */
  lemma {:induction false} LookupAfterDiscovery(db: seq<Entry>, n: nat, feature: string, config: bool, given: u16)
    requires n <= |db| && n <= TABLE_SIZE + 4 && (forall i :: 0 <= i < |db| ==> db[i].uuid.Valid())
    requires Known(feature, config)
    ensures var at := SeenAt(db, n, TABLE[RowOf(feature, config)].uuid);
      HandleOf(feature, config, Listing(db, n), given) == if at < n then db[at].value else given
  {
    var uuid, attrs := TABLE[RowOf(feature, config)].uuid, Listing(db, n);
    RowUuids(RowOf(feature, config));
    forall k | 0 <= k < n
      ensures WithUuid(uuid)(attrs[k]) <==> k != TABLE_SIZE && EntryWithUuid(uuid)(db[k])
    {
      assert k != TABLE_SIZE ==> attrs[k] == db[k].Record();
    }
    FirstIs(attrs, WithUuid(uuid), SeenAt(db, n, uuid));
  }

  /**
   * The first characteristic with the UUID is the one found exactly when the listing reached it and it lies in
   * the table.
   */
  lemma {:induction false} SeenFirst(db: seq<Entry>, n: nat, uuid: u16)
    requires n <= |db|
    ensures var at := First(db, EntryWithUuid(uuid));
      at < n ==> (SeenAt(db, n, uuid) == at <==> at != TABLE_SIZE)
  {
  }

  /** The sensors ble_sensor_status knows, by the place of their configuration row. */
  function SensorPlace(feature: string): Option<nat> {
    if feature == "Temp" then Some(0)
    else if feature == "gyroscope" then Some(4)
    else if feature == "magnetom" then Some(6)
    else if feature == "accelero" then Some(8)
    else None
  }

  /** A sensor that can be enabled has a configuration row and, right after it, a data row with a handler. */
  lemma {:induction false} SensorRows(feature: string)
    requires SensorPlace(feature).Some?
    ensures RowOf(feature, ENABLE_SENSOR) == SensorPlace(feature).value
    ensures RowOf(feature, READ_SENSOR) == SensorPlace(feature).value + 1
    ensures TABLE[RowOf(feature, READ_SENSOR)].handler != NoHandler
    ensures TABLE[RowOf(feature, ENABLE_SENSOR)].uuid == TABLE[RowOf(feature, READ_SENSOR)].uuid + 1
  {
    var i := SensorPlace(feature).value;
    SensorRow(feature, ENABLE_SENSOR, i);
    SensorRow(feature, READ_SENSOR, i + 1);
    SensorUuids(i);
  }

  lemma {:induction false} SensorUuids(i: nat)
    requires i == 0 || i == 4 || i == 6 || i == 8
    ensures TABLE[i + 1].handler != NoHandler && TABLE[i].uuid == TABLE[i + 1].uuid + 1
  {
    assert TABLE[0].uuid == 0xaa02 && TABLE[1] == Row("Temp", READ_SENSOR, 0xaa01, Temperature);
    assert TABLE[4].uuid == 0xaa52 && TABLE[5] == Row("gyroscope", READ_SENSOR, 0xaa51, Gyroscope);
    assert TABLE[6].uuid == 0xaa32 && TABLE[7] == Row("magnetom", READ_SENSOR, 0xaa31, Magnetometer);
    assert TABLE[8].uuid == 0xaa12 && TABLE[9] == Row("accelero", READ_SENSOR, 0xaa11, Accelerometer);
  }

  lemma {:induction false} SensorRow(feature: string, config: bool, i: nat)
    requires SensorPlace(feature).Some? && i == SensorPlace(feature).value + if config == ENABLE_SENSOR then 0 else 1
    ensures RowOf(feature, config) == i
  {
    FirstIs(TABLE, Matching(feature, config), i);
  }

  /** The data row of the feature has this UUID and handler. */
  predicate Reads(feature: string, uuid: u16, handler: Handler) {
    && Known(feature, false)
    && TABLE[RowOf(feature, false)].uuid == uuid && TABLE[RowOf(feature, false)].handler == handler
  }

  /** UUIDs and handlers, feature by feature: the data characteristic and the one that configures it. */
  lemma {:induction false} FeatureTable(feature: string, data: u16, conf: u16, handler: Handler)
    requires
      || (feature == "Temp" && data == 0xaa01 && conf == 0xaa02 && handler == Temperature)
      || (feature == "gyroscope" && data == 0xaa51 && conf == 0xaa52 && handler == Gyroscope)
      || (feature == "magnetom" && data == 0xaa31 && conf == 0xaa32 && handler == Magnetometer)
      || (feature == "accelero" && data == 0xaa11 && conf == 0xaa12 && handler == Accelerometer)
    ensures Reads(feature, data, handler)
    ensures Known(feature, true) && TABLE[RowOf(feature, true)].uuid == conf
  {
    SensorRows(feature);
    TableRows();
  }

  lemma {:induction false} TableRows()
    ensures TABLE[0].uuid == 0xaa02 && TABLE[1].uuid == 0xaa01 && TABLE[1].handler == Temperature
    ensures TABLE[4].uuid == 0xaa52 && TABLE[5].uuid == 0xaa51 && TABLE[5].handler == Gyroscope
    ensures TABLE[6].uuid == 0xaa32 && TABLE[7].uuid == 0xaa31 && TABLE[7].handler == Magnetometer
    ensures TABLE[8].uuid == 0xaa12 && TABLE[9].uuid == 0xaa11 && TABLE[9].handler == Accelerometer
  {
  }

  /** The features that can be read but not enabled, and those that are not in the table. */
  lemma {:induction false} OtherFeatures(feature: string)
    ensures feature == "humidity" ==>
      && Reads(feature, 0xaa21, Humidity)
      && Known(feature, true) && TABLE[RowOf(feature, true)].uuid == 0xaa22
    ensures feature == "HWrev" ==> Reads(feature, 0x2A26, NoHandler) && !Known(feature, true)
    ensures feature == "SWrev" ==> Reads(feature, 0x2A28, NoHandler) && !Known(feature, true)
  {
    OtherRow("humidity", ENABLE_SENSOR, 2);
    OtherRow("humidity", READ_SENSOR, 3);
    OtherRow("HWrev", READ_SENSOR, 10);
    OtherRow("HWrev", ENABLE_SENSOR, 13);
    OtherRow("SWrev", READ_SENSOR, 11);
    OtherRow("SWrev", ENABLE_SENSOR, 13);
    OtherUuids();
  }

  lemma {:induction false} OtherUuids()
    ensures TABLE[2].uuid == 0xaa22 && TABLE[3].uuid == 0xaa21 && TABLE[3].handler == Humidity
    ensures TABLE[10].uuid == 0x2A26 && TABLE[10].handler == NoHandler
    ensures TABLE[11].uuid == 0x2A28 && TABLE[11].handler == NoHandler
  {
  }

  lemma {:induction false} OtherRow(feature: string, config: bool, i: nat)
    requires
      || (feature == "humidity" && i == (if config then 2 else 3))
      || (feature == "HWrev" && i == (if config then 13 else 10))
      || (feature == "SWrev" && i == (if config then 13 else 11))
    ensures RowOf(feature, config) == i
  {
    FirstIs(TABLE, Matching(feature, config), i);
  }

  // --------------------------------------------------------------- gyroscope

  /** Degrees per second about the z axis, with the source's zero-point offset. */
  function ZRate(payload: seq<byte>): (z: real)
    requires |payload| == 6
    ensures -MAX_RATE <= z <= MAX_RATE
  {
    ReadI16(payload, 4) as real * 500.0 / 65536.0 + 0.07
  }

  /** The largest rate a payload can give, just below 250.07. */
  const MAX_RATE := 32767.0 * 500.0 / 65536.0 + 0.07

  datatype Sample = Sample(rate: real, time: real)

  /** The integrator's globals. `first` is zero until a sample with a non-zero time stamp arrives. */
  datatype Integrator = Integrator(angle: real, first: real, last: real, rate1: real, rate2: real, rate3: real)

  const AT_REST := Integrator(0.0, 0.0, 0.0, 0.0, 0.0, 0.0)

  function Wrapped(angle: real): real {
    if angle >= 360.0 then angle - 360.0 else if angle <= -360.0 then angle + 360.0 else angle
  }

  /** The change of angle a sample adds once the integration has started: the newest rate enters twice. */
  function Increment(g: Integrator, s: Sample): real {
    Turned(g.rate3, g.rate2, s.rate, s.rate, s.time - g.last)
  }

  function Turned(rate3: real, rate2: real, rate1: real, rate0: real, delta: real): real {
    (rate3 + 2.0 * rate2 + 2.0 * rate1 + rate0) * delta / 6.0
  }

  function Integrate(g: Integrator, s: Sample): Integrator {
    if g.first == 0.0 then Integrator(0.0, s.time, s.time, s.rate, 0.0, 0.0)
    else Integrator(Wrapped(g.angle + Increment(g, s)), g.first, s.time, s.rate, s.rate, g.rate2)
  }

  function After(ss: seq<Sample>): Integrator {
    if ss == [] then AT_REST else Integrate(After(ss[..|ss| - 1]), ss[|ss| - 1])
  }

  lemma {:induction false} AfterOneMore(ss: seq<Sample>, s: Sample)
    ensures After(ss + [s]) == Integrate(After(ss), s)
  {
    assert (ss + [s])[..|ss|] == ss;
  }

  /** The globals of the gyroscope handler. */
  class Gyro {
    var angle: real
    var first: real
    var last: real
    var rate0: real
    var rate1: real
    var rate2: real
    var rate3: real
    ghost var history: seq<Sample>

    /** The globals are what the samples handled so far make of them. */
    ghost predicate Valid()
      reads this
    {
      State() == After(history) && AllSlow(history)
    }

    function State(): Integrator
      reads this
    {
      Integrator(angle, first, last, rate1, rate2, rate3)
    }

    constructor ()
      ensures Valid() && history == []
    {
      angle, first, last, rate0, rate1, rate2, rate3 := 0.0, 0.0, 0.0, 0.0, 0.0, 0.0, 0.0;
      history := [];
    }

    /** The rotation since the last measurement, and at most one full turn back. */
    method Accumulate(delta: real)
      modifies this`angle
      ensures angle == Wrapped(old(angle) + Turned(rate3, rate2, rate1, rate0, delta))
    {
      angle := angle + Turned(rate3, rate2, rate1, rate0, delta);
      if angle >= 360.0 {
        angle := angle - 360.0;
      } else if angle <= -360.0 {
        angle := angle + 360.0;
      }
    }

    /** TI_sensortag_gyroscope. */
    method Handle(payload: seq<byte>, time: real) returns (ret: int, value: real)
      requires Valid()
      modifies this
      ensures Valid()
      ensures ret == if |payload| == 6 then 0 else -1
      ensures ret == 0 ==> history == old(history) + [Sample(ZRate(payload), time)] && value == angle
      ensures ret < 0 ==> history == old(history) && State() == old(State()) && value == 0.0
      ensures ret == 0 && Started(history) && Within(history, 360.0 / MAX_RATE) ==> -360.0 < value < 360.0
    {
      if |payload| != 6 {
        return -1, 0.0;
      }
      var z := ReadI16(payload, 4) as real * 500.0 / 65536.0;
      z := z - -0.07;
      Take(z, time);
      if Started(history) && Within(history, 360.0 / MAX_RATE) {
        AngleStaysBounded(history, |history| - 1, 360.0 / MAX_RATE);
        assert history[..|history|] == history;
      }
      return 0, angle;
    }

    /** The part of the handler that works on the globals. */
    method Take(z: real, time: real)
      requires Valid() && Slow(Sample(z, time))
      modifies this
      ensures Valid() && history == old(history) + [Sample(z, time)]
    {
      rate0 := z;
      rate1 := rate0;
      if first == 0.0 {
        angle := 0.0;
        last := time;
        first := time;
        rate1 := rate0;
        rate2, rate3 := 0.0, 0.0;
      } else {
        var delta := time - last;
        last := time;
        Accumulate(delta);
        rate3 := rate2;
        rate2 := rate1;
        rate1 := rate0;
      }
      AfterOneMore(history, Sample(z, time));
      history := history + [Sample(z, time)];
    }
  }

  /** The run starts with a usable time stamp; samples before that leave nothing behind. */
  predicate Started(ss: seq<Sample>) { ss != [] && ss[0].time != 0.0 }

  lemma {:induction false} LeadingZeroTimesAreForgotten(zeros: seq<Sample>, ss: seq<Sample>)
    requires Started(ss) && forall i :: 0 <= i < |zeros| ==> zeros[i].time == 0.0
    ensures After(zeros + ss) == After(ss)
  {
    var n := |ss| - 1;
    assert (zeros + ss)[..|zeros| + n] == zeros + ss[..n];
    if n == 0 {
      assert ss[..0] == [];
      StillAtRest(zeros);
    } else {
      LeadingZeroTimesAreForgotten(zeros, ss[..n]);
    }
  }

  lemma {:induction false} StillAtRest(zeros: seq<Sample>)
    requires forall i :: 0 <= i < |zeros| ==> zeros[i].time == 0.0
    ensures After(zeros).first == 0.0
  {
    if zeros != [] {
      StillAtRest(zeros[..|zeros| - 1]);
    }
  }

  /** The rate of sample `k` as the integrator weighs it: the first sample's never counts. */
  function Weighed(ss: seq<Sample>, k: int): real
    requires k < |ss|
  {
    if k < 1 then 0.0 else ss[k].rate
  }

  /** What sample `n` contributes, in closed form. */
  function Contribution(ss: seq<Sample>, n: nat): real
    requires 1 <= n < |ss|
  {
    (3.0 * ss[n].rate + 2.0 * Weighed(ss, n - 1) + Weighed(ss, n - 2)) * (ss[n].time - ss[n - 1].time) / 6.0
  }

  /** The angle without wrap-around: the sum of the contributions of samples 1 to n. */
  function Unwrapped(ss: seq<Sample>, n: nat): real
    requires n < |ss|
  {
    if n == 0 then 0.0 else Unwrapped(ss, n - 1) + Contribution(ss, n)
  }

  /** The memory of the integrator after sample `n` of a started run. */
  lemma {:induction false} MemoryOf(ss: seq<Sample>, n: nat)
    requires Started(ss) && n < |ss|
    ensures var g := After(ss[..n + 1]);
      && g.first == ss[0].time && g.last == ss[n].time
      && g.rate2 == Weighed(ss, n) && g.rate3 == Weighed(ss, n - 1)
  {
    assert ss[..n + 1][..n] == ss[..n];
    if n > 0 {
      MemoryOf(ss, n - 1);
    }
  }

  lemma {:induction false} AngleStep(ss: seq<Sample>, n: nat)
    requires Started(ss) && 1 <= n < |ss|
    ensures After(ss[..n + 1]).angle == Wrapped(After(ss[..n]).angle + Contribution(ss, n))
  {
    assert ss[..n + 1][..n] == ss[..n];
    MemoryOf(ss, n - 1);
    assert Increment(After(ss[..n]), ss[n]) == Contribution(ss, n);
  }

  /** Conservation: the stored angle and the unwrapped sum differ by whole turns. */
  lemma {:induction false} WholeTurns(ss: seq<Sample>, n: nat) returns (turns: int)
    requires Started(ss) && n < |ss|
    ensures After(ss[..n + 1]).angle == Unwrapped(ss, n) - 360.0 * turns as real
  {
    if n == 0 {
      assert ss[..1][..0] == [];
      turns := 0;
    } else {
      turns := WholeTurns(ss, n - 1);
      AngleStep(ss, n);
      var before := After(ss[..n]).angle + Contribution(ss, n);
      turns := if before >= 360.0 then turns + 1 else if before <= -360.0 then turns - 1 else turns;
    }
  }

  predicate Slow(s: Sample) { -MAX_RATE <= s.rate <= MAX_RATE }

  predicate AllSlow(ss: seq<Sample>) { forall i :: 0 <= i < |ss| ==> Slow(ss[i]) }

  /** Successive samples are at most `gap` seconds apart, in either direction. */
  predicate Within(ss: seq<Sample>, gap: real) { forall i :: 1 <= i < |ss| ==> -gap <= Gap(ss, i) <= gap }

  function Gap(ss: seq<Sample>, n: nat): real
    requires 1 <= n < |ss|
  {
    ss[n].time - ss[n - 1].time
  }

  /** A single correction brings the angle back in range exactly when the sum is within two turns. */
  lemma {:induction false} OneTurnSuffices(angle: real)
    ensures -360.0 < Wrapped(angle) < 360.0 <==> -720.0 < angle < 720.0
    ensures -360.0 < angle < 360.0 <==> Wrapped(angle) == angle
    ensures angle >= 360.0 ==> angle - Wrapped(angle) == 360.0
    ensures angle <= -360.0 ==> Wrapped(angle) - angle == 360.0
  {
  }

  lemma {:induction false} SmallContribution(ss: seq<Sample>, n: nat, gap: real)
    requires 1 <= n < |ss| && AllSlow(ss) && -gap <= Gap(ss, n) <= gap
    ensures -(MAX_RATE * gap) <= Contribution(ss, n) <= MAX_RATE * gap
  {
    var w := 3.0 * ss[n].rate + 2.0 * Weighed(ss, n - 1) + Weighed(ss, n - 2);
    assert Slow(ss[n]);
    assert -6.0 * MAX_RATE <= w <= 6.0 * MAX_RATE;
    ProductBound(w / 6.0, MAX_RATE, Gap(ss, n), gap);
    assert Contribution(ss, n) == w / 6.0 * Gap(ss, n);
  }

  lemma {:induction false} ProductBound(a: real, bigA: real, b: real, bigB: real)
    requires -bigA <= a <= bigA && -bigB <= b <= bigB
    ensures -(bigA * bigB) <= a * b <= bigA * bigB
  {
    assert (bigA - a) * (bigB + b) >= 0.0 && (bigA + a) * (bigB - b) >= 0.0;
    assert (bigA - a) * (bigB - b) >= 0.0 && (bigA + a) * (bigB + b) >= 0.0;
  }

  /** With gaps short enough for the largest rate the angle never leaves (-360, 360). */
  lemma {:induction false} AngleStaysBounded(ss: seq<Sample>, n: nat, gap: real)
    requires Started(ss) && n < |ss|
    requires AllSlow(ss) && Within(ss, gap) && MAX_RATE * gap <= 360.0
    ensures -360.0 < After(ss[..n + 1]).angle < 360.0
  {
    if n == 0 {
      assert ss[..1][..0] == [];
    } else {
      AngleStaysBounded(ss, n - 1, gap);
      AngleStep(ss, n);
      SmallContribution(ss, n, gap);
    }
  }

  // ------------------------------------------------------ the threshold

  /** Samples of the largest rate, `gap` apart. */
  function Steady(gap: real, n: nat): (ss: seq<Sample>)
    ensures |ss| == n + 1 && ss[0].time == 1.0
    ensures forall i :: 0 <= i <= n ==> ss[i].rate == MAX_RATE
  {
    if n == 0 then [Sample(MAX_RATE, 1.0)] else
      var before := Steady(gap, n - 1);
      before + [Sample(MAX_RATE, before[n - 1].time + gap)]
  }

  lemma {:induction false} SteadyWithin(gap: real, n: nat)
    requires gap >= 0.0
    ensures Within(Steady(gap, n), gap)
  {
    if n > 0 {
      var before := Steady(gap, n - 1);
      SteadyWithin(gap, n - 1);
      forall i | 1 <= i <= n ensures -gap <= Gap(Steady(gap, n), i) <= gap {
        assert i < n ==> Gap(Steady(gap, n), i) == Gap(before, i);
      }
    }
  }

  /** What sample `n` of a steady run adds, when one gap makes for a rotation by `turn`. */
  function Part(n: nat, turn: real): real {
    if n <= 1 then turn / 2.0 else if n == 2 then 5.0 * turn / 6.0 else turn
  }

  lemma {:induction false} SteadyContribution(ss: seq<Sample>, n: nat, rate: real, turn: real)
    requires 1 <= n < |ss| && forall i :: 0 <= i <= n ==> ss[i].rate == rate
    requires turn == rate * Gap(ss, n)
    ensures Contribution(ss, n) == Part(n, turn)
  {
    if n == 1 {
      assert Contribution(ss, n) == 3.0 * rate * Gap(ss, n) / 6.0;
    } else if n == 2 {
      assert Contribution(ss, n) == 5.0 * rate * Gap(ss, n) / 6.0;
    } else {
      assert Contribution(ss, n) == 6.0 * rate * Gap(ss, n) / 6.0;
    }
  }

  lemma {:induction false} SteadyStep(gap: real, n: nat)
    requires n >= 1
    ensures After(Steady(gap, n)).angle == Wrapped(After(Steady(gap, n - 1)).angle + Part(n, MAX_RATE * gap))
  {
    var ss := Steady(gap, n);
    SteadyIs(gap, n);
    AngleStep(ss, n);
    SteadyContribution(ss, n, MAX_RATE, MAX_RATE * gap);
  }

  lemma {:induction false} SteadyIs(gap: real, n: nat)
    requires n >= 1
    ensures var ss := Steady(gap, n); ss[..n + 1] == ss && ss[..n] == Steady(gap, n - 1) && Gap(ss, n) == gap
  {
  }

  function Repeated(d: real, n: nat): real {
    if n == 0 then 0.0 else Repeated(d, n - 1) + d
  }

  /** Each further gap leaves the excess over a full turn behind. */
  lemma {:induction false} SteadyDrift(gap: real, n: nat)
    requires MAX_RATE * gap > 360.0
    ensures After(Steady(gap, n + 2)).angle >= Repeated(MAX_RATE * gap - 360.0, n) >= 0.0
  {
    SteadyStep(gap, n + 2);
    if n == 0 {
      SteadyStep(gap, 1);
      assert Steady(gap, 0)[..0] == [];
    } else {
      SteadyDrift(gap, n - 1);
    }
  }

  lemma {:induction false} RepeatedIs(d: real, n: nat)
    ensures Repeated(d, n) == n as real * d
  {
    if n > 0 {
      RepeatedIs(d, n - 1);
    }
  }

  lemma {:induction false} Archimedes(d: real, goal: real) returns (n: nat)
    requires d > 0.0 && goal >= 0.0
    ensures Repeated(d, n) >= goal
  {
    var q := goal / d;
    QuotientSign(q, d, goal);
    n := q.Floor + 1;
    RepeatedIs(d, n);
    FactorUp(q, n as real, d);
  }

  lemma {:induction false} QuotientSign(q: real, d: real, goal: real)
    requires d > 0.0 && goal >= 0.0 && q * d == goal
    ensures q >= 0.0
  {
  }

  lemma {:induction false} FactorUp(p: real, q: real, d: real)
    requires d > 0.0 && p <= q
    ensures p * d <= q * d
  {
  }

  /** A run the sensor can produce with samples at most `gap` apart. */
  predicate Plausible(ss: seq<Sample>, gap: real) { Started(ss) && AllSlow(ss) && Within(ss, gap) }

  /**
   * The angle stays in (-360, 360) in every run if and only if the largest rate makes no more than a
   * full turn in the longest gap: about 1.4396 seconds.
   */
  lemma {:induction false} GapThreshold(gap: real)
    requires gap >= 0.0
    ensures (forall ss :: Plausible(ss, gap) ==> -360.0 < After(ss).angle < 360.0) <==> MAX_RATE * gap <= 360.0
  {
    if MAX_RATE * gap <= 360.0 {
      forall ss | Plausible(ss, gap) ensures -360.0 < After(ss).angle < 360.0 {
        AngleStaysBounded(ss, |ss| - 1, gap);
        assert ss[..|ss|] == ss;
      }
    } else {
      var n := Archimedes(MAX_RATE * gap - 360.0, 360.0);
      SteadyDrift(gap, n);
      SteadyWithin(gap, n + 2);
      assert Plausible(Steady(gap, n + 2), gap);
    }
  }

  /** The largest rate is one the sensor sends. */
  lemma {:induction false} MaxRateIsSent()
    ensures exists payload :: |payload| == 6 && ZRate(payload) == MAX_RATE
  {
    var payload := [0, 0, 0, 0, 0xFF, 0x7F];
    assert ReadI16(payload, 4) == 32767;
    assert ZRate(payload) == MAX_RATE;
  }

  /** The weights the loop was written for, over four successive rates. */
  function FourPoint(ss: seq<Sample>, n: nat): real
    requires 4 <= n < |ss|
  {
    (ss[n - 3].rate + 2.0 * ss[n - 2].rate + 2.0 * ss[n - 1].rate + ss[n].rate) * Gap(ss, n) / 6.0
  }

  /** The previous rate is overwritten before it is used; the two forms agree only by coincidence. */
  lemma {:induction false} AgreesWithFourPoint(ss: seq<Sample>, n: nat)
    requires 4 <= n < |ss|
    ensures Contribution(ss, n) == FourPoint(ss, n)
       <==> Gap(ss, n) == 0.0 || 2.0 * ss[n].rate == ss[n - 2].rate + ss[n - 3].rate
  {
    var used := 3.0 * ss[n].rate + 2.0 * ss[n - 1].rate + ss[n - 2].rate;
    var meant := ss[n - 3].rate + 2.0 * ss[n - 2].rate + 2.0 * ss[n - 1].rate + ss[n].rate;
    assert Contribution(ss, n) == used * Gap(ss, n) / 6.0;
    assert used * Gap(ss, n) - meant * Gap(ss, n) == (used - meant) * Gap(ss, n);
  }

  /** At a constant rate the integral is exact but for half of the first interval and a sixth of the second. */
  lemma {:induction false} ConstantRate(ss: seq<Sample>, n: nat, rate: real)
    requires 2 <= n < |ss| && forall i :: 0 <= i < |ss| ==> ss[i].rate == rate
    ensures Unwrapped(ss, n) == rate * (ss[n].time - ss[0].time) - rate * Gap(ss, 1) / 2.0 - rate * Gap(ss, 2) / 6.0
  {
    if n == 2 {
      assert Unwrapped(ss, 0) == 0.0;
      assert Contribution(ss, 1) == 3.0 * rate * Gap(ss, 1) / 6.0;
      assert Contribution(ss, 2) == 5.0 * rate * Gap(ss, 2) / 6.0;
    } else {
      ConstantRate(ss, n - 1, rate);
      assert Contribution(ss, n) == 6.0 * rate * Gap(ss, n) / 6.0;
    }
  }

  // ------------------------------------------------------ axes of a payload

  /** The high octet of a signed word, weighed. */
  function Signed(lo: byte, hi: byte): int {
    lo as int + 0x100 * (if hi < 0x80 then hi as int else hi as int - 0x100)
  }

  /** The rate integrated is that of the third little-endian word, the z axis, whatever the other two hold. */
  lemma {:induction false} RateOfAxes(x0: byte, x1: byte, y0: byte, y1: byte, z0: byte, z1: byte)
    ensures ZRate([x0, x1, y0, y1, z0, z1]) == Signed(z0, z1) as real * 500.0 / 65536.0 + 0.07
  {
    WordAt([x0, x1, y0, y1, z0, z1], 4);
  }

  lemma {:induction false} WordAt(payload: seq<byte>, at: nat)
    requires at + 1 < |payload|
    ensures ReadI16(payload, at) == Signed(payload[at], payload[at + 1])
  {
    LowOctetFirst(payload[at], payload[at + 1]);
  }

  // ------------------------------------------------------------ magnetometer

  /** Microtesla along the x axis. */
  function XField(payload: seq<byte>): (x: real)
    requires |payload| == 6
    ensures -1000.0 < x <= 1000.0
  {
    ReadI16(payload, 0) as real * -2000.0 / 65536.0
  }

  datatype Extremes = Extremes(max: real, min: real)

  function Track(e: Extremes, x: real): Extremes {
    Extremes(if x >= e.max then x else e.max, if x <= e.min && x > 0.0 then x else e.min)
  }

  function Tracked(xs: seq<real>): Extremes {
    if xs == [] then Extremes(0.0, 150.0) else Track(Tracked(xs[..|xs| - 1]), xs[|xs| - 1])
  }

  /** Where the sample lies between the extremes, on a scale of half a turn; the extremes themselves read as zero. */
  function Yaw(e: Extremes, x: real): (yaw: real)
    ensures 0.0 <= yaw < 180.0
    ensures yaw > 0.0 <==> e.min < x < e.max
  {
    if e.max > e.min && x > e.min && x < e.max then
      FractionBelowOne(x - e.min, e.max - e.min);
      (x - e.min) / (e.max - e.min) * 180.0
    else 0.0
  }

  /** The field tracked is that of the first little-endian word, the x axis, with its sign turned. */
  lemma {:induction false} FieldOfAxes(x0: byte, x1: byte, y0: byte, y1: byte, z0: byte, z1: byte)
    ensures XField([x0, x1, y0, y1, z0, z1]) == -(Signed(x0, x1) as real * 2000.0 / 65536.0)
  {
    WordAt([x0, x1, y0, y1, z0, z1], 0);
  }

  /** Between the extremes the yaw rises linearly, from 0 at the minimum towards 180 at the maximum. */
  lemma {:induction false} YawIsLinear(e: Extremes, x: real)
    requires e.min < x < e.max
    ensures Yaw(e, x) * (e.max - e.min) == 180.0 * (x - e.min)
  {
    var part, span := x - e.min, e.max - e.min;
    ScaledQuotient(part, span);
  }

  lemma {:induction false} ScaledQuotient(part: real, span: real)
    requires span > 0.0
    ensures part / span * 180.0 * span == 180.0 * part
  {
    assert part / span * span == part;
  }

  lemma {:induction false} TrackedOneMore(xs: seq<real>, x: real)
    ensures Tracked(xs + [x]) == Track(Tracked(xs), x)
  {
    assert (xs + [x])[..|xs|] == xs;
  }

  class Compass {
    var max: real
    var min: real
    ghost var history: seq<real>

    ghost predicate Valid()
      reads this
    {
      State() == Tracked(history)
    }

    function State(): Extremes
      reads this
    {
      Extremes(max, min)
    }

    constructor ()
      ensures Valid() && history == []
    {
      max, min := 0.0, 150.0;
      history := [];
    }

    /** TI_sensortag_magnetometer. */
    method Handle(payload: seq<byte>) returns (ret: int, value: real)
      requires Valid()
      modifies this
      ensures Valid()
      ensures ret == if |payload| == 6 then 0 else -1
      ensures ret == 0 ==> history == old(history) + [XField(payload)] && value == Yaw(State(), XField(payload))
      ensures ret < 0 ==> history == old(history) && State() == old(State()) && value == 0.0
    {
      if |payload| != 6 {
        return -1, 0.0;
      }
      var x := ReadI16(payload, 0) as real * -2000.0 / 65536.0;
      Observe(x);
      value := Angle(x);
      ret := 0;
    }

    method Observe(x: real)
      requires Valid()
      modifies this
      ensures Valid() && history == old(history) + [x]
    {
      if x >= max {
        max := x;
      }
      if x <= min && x > 0.0 {
        min := x;
      }
      TrackedOneMore(history, x);
      history := history + [x];
    }

    method Angle(x: real) returns (yaw: real)
      ensures yaw == Yaw(State(), x)
    {
      yaw := 0.0;
      if max > min && x > min && x < max {
        yaw := (x - min) / (max - min) * 180.0;
      }
    }
  }

  /** `m` is the largest of zero and all the samples. */
  predicate LargestOf(m: real, xs: seq<real>) {
    m >= 0.0 && (m == 0.0 || m in xs) && forall x :: x in xs ==> x <= m
  }

  /** `m` is the smallest of 150 and all the positive samples. */
  predicate SmallestOf(m: real, xs: seq<real>) {
    0.0 < m <= 150.0 && (m == 150.0 || m in xs) && forall x :: x in xs && x > 0.0 ==> m <= x
  }

  lemma {:induction false} TracksExtremes(xs: seq<real>)
    ensures LargestOf(Tracked(xs).max, xs) && SmallestOf(Tracked(xs).min, xs)
  {
    if xs != [] {
      var n := |xs| - 1;
      assert xs == xs[..n] + [xs[n]];
      TracksExtremes(xs[..n]);
    }
  }

  /** A sample that sets a new extreme reads as zero; any other positive one lies on the scale. */
  lemma {:induction false} ExtremesReadZero(xs: seq<real>, x: real)
    ensures Yaw(Tracked(xs + [x]), x) == 0.0 <==> x <= Tracked(xs).min || x >= Tracked(xs).max
  {
    TrackedOneMore(xs, x);
  }

  lemma {:induction false} FractionBelowOne(part: real, span: real)
    requires 0.0 < part < span
    ensures 0.0 < part / span < 1.0
  {
    QuotientRange(part / span, part, span);
  }

  lemma {:induction false} QuotientRange(q: real, part: real, span: real)
    requires 0.0 < part < span && q * span == part
    ensures 0.0 < q < 1.0
  {
    PositiveFactor(q, span);
    PositiveFactor(1.0 - q, span);
  }

  lemma {:induction false} PositiveFactor(a: real, b: real)
    requires b > 0.0 && a * b > 0.0
    ensures a > 0.0
  {
  }
}
