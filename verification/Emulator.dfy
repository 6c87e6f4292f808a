/** The protocol server emulated in src/sensact-emulator.c, and its register file. */
module Emulator {
  import opened Bytes
  import opened Packet

  // ---------------------------------------------------- the register file

  datatype Kind = EngineDevice | SenshubDevice | BleDevice

  datatype Reg = Rpm | Direction | Light | Pressure | ObjTemp | AmbTemp | Humidity | Roll | Pitch | Yaw | BleTemp

  const RPM: seq<byte> := [114, 112, 109]
  const SETPOINT: seq<byte> := [115, 101, 116, 112, 111, 105, 110, 116]
  const DIRECTION: seq<byte> := [100, 105, 114, 101, 99, 116, 105, 111, 110]
  const LIGHT: seq<byte> := [108, 105, 103, 104, 116]
  const PRESSURE: seq<byte> := [112, 114, 101, 115, 115, 117, 114, 101]
  const OBJ_TEMP: seq<byte> := [111, 98, 106, 84, 101, 109, 112]
  const AMB_TEMP: seq<byte> := [97, 109, 98, 84, 101, 109, 112]
  const HUMIDITY: seq<byte> := [104, 117, 109, 105, 100, 105, 116, 121]
  const ROLL: seq<byte> := [114, 111, 108, 108]
  const PITCH: seq<byte> := [112, 105, 116, 99, 104]
  const YAW: seq<byte> := [121, 97, 119]
  const BLE_TEMP: seq<byte> := [98, 108, 101, 95, 116, 101, 109, 112]

  /** The variables the devices offer; "rpm" and "setpoint" share a register. */
  const VARIABLES: seq<(seq<byte>, Reg)> := [
    (RPM, Rpm), (SETPOINT, Rpm), (DIRECTION, Direction), (LIGHT, Light), (PRESSURE, Pressure), (OBJ_TEMP, ObjTemp),
    (AMB_TEMP, AmbTemp), (HUMIDITY, Humidity), (ROLL, Roll), (PITCH, Pitch), (YAW, Yaw), (BLE_TEMP, BleTemp)]

  function LookUp(name: seq<byte>, from: nat): Option<Reg>
    requires from <= |VARIABLES|
    decreases |VARIABLES| - from
  {
    if from == |VARIABLES| then None
    else if VARIABLES[from].0 == name then Some(VARIABLES[from].1)
    else LookUp(name, from + 1)
  }

  /** The register a variable name stands for. */
  function Register(name: seq<byte>): Option<Reg> {
    LookUp(name, 0)
  }

  function Owner(r: Reg): Kind {
    match r
    case Rpm => EngineDevice
    case Direction => EngineDevice
    case BleTemp => BleDevice
    case _ => SenshubDevice
  }

  function Width(r: Reg): nat {
    if r == Direction then 1 else 4
  }

  /** The register takes the value of this command; BleTemp takes none. */
  predicate Takes(r: Reg, command: byte) {
    match r
    case Direction => command == SET_CHAR
    case Rpm => command == SET_INT
    case Roll => command == SET_INT
    case Pitch => command == SET_INT
    case Yaw => command == SET_INT
    case BleTemp => false
    case _ => command == SET_FLOAT || command == SET_DATA
  }

  /** Registers set as an integer but passed through a float variable. */
  predicate ThroughFloat(r: Reg) {
    r == Roll || r == Pitch || r == Yaw
  }

  /** A value copied over a zeroed local of `n` octets. */
  function Pad(value: seq<byte>, n: nat): (s: seq<byte>)
    requires |value| <= n
    ensures |s| == n
    ensures |value| == n ==> s == value
  {
    value + seq(n - |value|, _ => 0)
  }

  function Stored(r: Reg, value: seq<byte>): (s: seq<byte>)
    requires |value| <= Width(r)
    ensures |s| == Width(r)
    ensures !ThroughFloat(r) && |value| == Width(r) ==> s == value
  {
    if ThroughFloat(r) then IntOfFloat(Pad(value, 4)) else Pad(value, Width(r))
  }

  /** Values on connecting: 1000 rpm, and the floats 50, 95000, 15, 30 and 10. */
  function Initial(r: Reg): (s: seq<byte>)
    ensures |s| == Width(r)
  {
    match r
    case Rpm => [0xE8, 0x03, 0, 0]
    case Direction => [0]
    case Light => [0, 0, 0x48, 0x42]
    case Pressure => [0, 0x8C, 0xB9, 0x47]
    case ObjTemp => [0, 0, 0x70, 0x41]
    case AmbTemp => [0, 0, 0xF0, 0x41]
    case Humidity => [0, 0, 0x48, 0x42]
    case BleTemp => [0, 0, 0x20, 0x41]
    case _ => [0, 0, 0, 0]
  }

  // ------------------------------------------ integers read as IEEE floats

  function U32(s: seq<byte>): (u: int)
    requires |s| == 4
    ensures 0 <= u < 0x1_0000_0000
  {
    s[0] as int + 0x100 * (s[1] as int + 0x100 * (s[2] as int + 0x100 * s[3] as int))
  }

  function U32Bytes(u: int): (s: seq<byte>)
    requires 0 <= u < 0x1_0000_0000
    ensures |s| == 4 && U32(s) == u
  {
    var a := u / 0x100;
    var b := a / 0x100;
    assert u == u % 0x100 + 0x100 * a && a == a % 0x100 + 0x100 * b && b == b % 0x100 + 0x100 * (b / 0x100);
    [u % 0x100, a % 0x100, b % 0x100, b / 0x100]
  }

  function Double(x: nat, k: nat): nat {
    if k == 0 then x else 2 * Double(x, k - 1)
  }

  function Halve(x: nat, k: nat): (h: nat)
    ensures h <= x
  {
    if k == 0 then x else Halve(x / 2, k - 1)
  }

  /** The whole part of a single-precision number with exponent field `e` and fraction `m`. */
  function Magnitude(e: nat, m: nat): nat {
    if e < 127 then 0 else if e < 150 then Halve(0x80_0000 + m, 150 - e) else Double(0x80_0000 + m, e - 150)
  }

  /**
   * The octets of a float converted to int, as the calls of the setters convert them. Outside the
   * range of int, where C leaves the result open, it is the x86 result.
   */
  function IntOfFloat(s: seq<byte>): (r: seq<byte>)
    requires |s| == 4
    ensures |r| == 4
  {
    U32Bytes(Converted(U32(s)))
  }

  function Converted(u: int): (r: int)
    requires 0 <= u < 0x1_0000_0000
    ensures 0 <= r < 0x1_0000_0000
  {
    var e, m := u / 0x80_0000 % 0x100, u % 0x80_0000;
    if e >= 158 then 0x8000_0000 else
    var mag := Magnitude(e, m);
    MagnitudeBound(e, m);
    if u >= 0x8000_0000 && mag > 0 then 0x1_0000_0000 - mag else mag
  }

  lemma {:induction false} DoubleIs(x: nat, k: nat)
    requires k <= 7
    ensures k <= 5 ==> Double(x, k) <= 32 * x
    ensures k == 6 ==> Double(x, k) == 64 * x
    ensures k == 7 ==> Double(x, k) == 128 * x
    ensures k == 0 ==> Double(x, k) == x
    ensures k == 1 ==> Double(x, k) == 2 * x
    ensures k == 2 ==> Double(x, k) == 4 * x
    ensures k == 3 ==> Double(x, k) == 8 * x
    ensures k == 4 ==> Double(x, k) == 16 * x
    ensures k == 5 ==> Double(x, k) == 32 * x
  {
    if k > 0 {
      DoubleIs(x, k - 1);
    }
  }

  lemma {:induction false} MagnitudeBound(e: nat, m: nat)
    requires e < 158 && m < 0x80_0000
    ensures Magnitude(e, m) < 0x8000_0000
    ensures e < 156 ==> Magnitude(e, m) < 0x2000_0000
    ensures e == 156 ==> Magnitude(e, m) == 64 * (0x80_0000 + m)
    ensures e == 157 ==> Magnitude(e, m) == 128 * (0x80_0000 + m)
  {
    if e >= 150 {
      DoubleIs(0x80_0000 + m, e - 150);
    }
  }

  lemma {:induction false} U32Injective(s: seq<byte>, t: seq<byte>)
    requires |s| == |t| == 4 && U32(s) == U32(t)
    ensures s == t
  {
    var s3, t3 := s[3] as int, t[3] as int;
    var s2, t2 := s[2] as int + 0x100 * s3, t[2] as int + 0x100 * t3;
    SameDigit(s[0], t[0], s[1] as int + 0x100 * s2, t[1] as int + 0x100 * t2);
    SameDigit(s[1], t[1], s2, t2);
    SameDigit(s[2], t[2], s3, t3);
  }

  lemma {:induction false} SameDigit(a: byte, b: byte, x: int, y: int)
    requires a as int + 0x100 * x == b as int + 0x100 * y
    ensures a == b && x == y
  {
  }

  /** Setting roll, pitch or yaw to an integer keeps it exactly when the integer is zero. */
  lemma {:induction false} OnlyZeroSurvivesTheFloat(value: seq<byte>, r: Reg)
    requires |value| == 4 && ThroughFloat(r)
    ensures Stored(r, value) == value <==> value == [0, 0, 0, 0]
  {
    var u := U32(value);
    U32Injective(value, U32Bytes(u));
    SameBytes(Converted(u), u);
    FixedPoint(u);
    SameBytes(u, 0);
    U32Injective([0, 0, 0, 0], U32Bytes(0));
  }

  lemma {:induction false} SameBytes(u: int, v: int)
    requires 0 <= u < 0x1_0000_0000 && 0 <= v < 0x1_0000_0000
    ensures U32Bytes(u) == U32Bytes(v) <==> u == v
  {
    assert U32(U32Bytes(u)) == u && U32(U32Bytes(v)) == v;
  }

  lemma {:induction false} FixedPoint(u: int)
    requires 0 <= u < 0x1_0000_0000
    ensures Converted(u) == u <==> u == 0
  {
    var high, m := u / 0x80_0000, u % 0x80_0000;
    var e := high % 0x100;
    if e < 158 {
      MagnitudeBound(e, m);
      NoFixedPoint(high, e, m, Magnitude(e, m));
    }
  }

  /** The case analysis: exponents below 127 give 0, up to 155 too small a number, 156 and 157 no solution. */
  lemma {:induction false} NoFixedPoint(high: nat, e: nat, m: nat, mag: nat)
    requires high < 0x200 && m < 0x80_0000 && e < 158 && (high == e || high == e + 0x100)
    requires e < 127 ==> mag == 0
    requires e < 156 ==> mag < 0x2000_0000
    requires e == 156 ==> mag == 64 * (0x80_0000 + m)
    requires e == 157 ==> mag == 128 * (0x80_0000 + m)
    ensures high * 0x80_0000 + m == (if high >= 0x100 && mag > 0 then 0x1_0000_0000 - mag else mag)
      <==> high == 0 && m == 0
  {
  }

  /** Halving k times rounds down the quotient by 2 to the k. */
  lemma {:induction false} HalveRoundsDown(x: nat, k: nat)
    ensures Double(Halve(x, k), k) <= x < Double(Halve(x, k) + 1, k)
  {
    if k > 0 {
      HalveRoundsDown(x / 2, k - 1);
    }
  }

  /**
   * The conversion truncates: for a number of magnitude s / 2^k with an integer s, the result is the
   * sign's multiple of the whole part; below one it is zero, and from 2^31 on it is the least integer.
   */
  lemma {:induction false} Truncates(u: int)
    requires 0 <= u < 0x1_0000_0000
    ensures var e, s := u / 0x80_0000 % 0x100, 0x80_0000 + u % 0x80_0000;
      var r := if Converted(u) < 0x8000_0000 then Converted(u) else Converted(u) - 0x1_0000_0000;
      && (e < 127 ==> r == 0)
      && (127 <= e < 150 ==>
           var whole := if r < 0 then -r else r;
           Double(whole, 150 - e) <= s < Double(whole + 1, 150 - e))
      && (150 <= e < 158 ==> (if r < 0 then -r else r) == Double(s, e - 150))
      && (e >= 158 ==> r == -0x8000_0000)
      && (127 <= e < 158 ==> (r < 0 <==> u >= 0x8000_0000))
  {
    var e, s := u / 0x80_0000 % 0x100, 0x80_0000 + u % 0x80_0000;
    if 127 <= e < 158 {
      MagnitudeBound(e, s - 0x80_0000);
      if e < 150 {
        HalveRoundsDown(s, 150 - e);
        MagnitudePositive(s, 150 - e);
      } else {
        DoubleIs(s, e - 150);
      }
    }
  }

  lemma {:induction false} MagnitudePositive(s: nat, k: nat)
    requires s >= 0x80_0000 && k <= 23
    ensures Halve(s, k) >= 1
  {
    HalveAtLeast(s, k, 0x80_0000);
    HalveEight(0x80_0000, 15);
    HalveEight(0x8000, 7);
    HalveSeven(0x80);
    HalveLonger(0x80_0000, k, 23);
  }

  lemma {:induction false} HalveTwo(x: nat, k: nat)
    ensures Halve(x, 2 + k) == Halve(x / 4, k)
  {
    assert Halve(x, 2 + k) == Halve(x / 2, 1 + k) == Halve(x / 2 / 2, k);
  }

  lemma {:induction false} HalveEight(x: nat, k: nat)
    ensures Halve(x, 8 + k) == Halve(x / 0x100, k)
  {
    HalveTwo(x, 6 + k);
    HalveTwo(x / 4, 4 + k);
    HalveTwo(x / 16, 2 + k);
    HalveTwo(x / 64, k);
  }

  lemma {:induction false} HalveThree(x: nat)
    ensures Halve(x, 3) == x / 8 && Halve(x, 2) == x / 4 && Halve(x, 1) == x / 2
  {
    assert Halve(x, 3) == Halve(x / 2, 2) == Halve(x / 4, 1) == Halve(x / 8, 0);
    assert Halve(x, 2) == Halve(x / 2, 1) == Halve(x / 4, 0) && Halve(x, 1) == Halve(x / 2, 0);
  }

  lemma {:induction false} HalveSeven(x: nat)
    ensures Halve(x, 7) == x / 128 && Halve(x, 4) == x / 16
    ensures Halve(x, 3) == x / 8 && Halve(x, 2) == x / 4
  {
    assert Halve(x, 7) == Halve(x / 2, 6) == Halve(x / 4, 5) == Halve(x / 8, 4) == Halve(x / 16, 3);
    assert Halve(x, 4) == Halve(x / 2, 3);
    HalveThree(x / 16);
    HalveThree(x / 2);
    HalveThree(x);
  }

  lemma {:induction false} HalveAtLeast(x: nat, k: nat, y: nat)
    requires x >= y
    ensures Halve(x, k) >= Halve(y, k)
  {
    if k > 0 {
      HalveAtLeast(x / 2, k - 1, y / 2);
    }
  }

  lemma {:induction false} HalveLonger(x: nat, k: nat, more: nat)
    requires k <= more
    ensures Halve(x, k) >= Halve(x, more)
  {
    if k == 0 {
    } else {
      HalveLonger(x / 2, k - 1, more - 1);
    }
  }

  /** The values on connecting: 1000 rpm, direction 0, and floats that convert to 50, 95000, 15, 30, 50 and 10. */
  lemma {:induction false} InitialValues()
    ensures U32(Initial(Rpm)) == 1000 && Initial(Direction) == [0]
    ensures Converted(U32(Initial(Light))) == 50 && Converted(U32(Initial(Pressure))) == 95000
    ensures Converted(U32(Initial(ObjTemp))) == 15 && Converted(U32(Initial(AmbTemp))) == 30
    ensures Converted(U32(Initial(Humidity))) == 50 && Converted(U32(Initial(BleTemp))) == 10
    ensures U32(Initial(Roll)) == 0 && U32(Initial(Pitch)) == 0 && U32(Initial(Yaw)) == 0
  {
    Literals();
    WholeFloats();
  }

  lemma {:induction false} WholeFloats()
    ensures Converted(0x4248_0000) == 50 && Converted(0x47B9_8C00) == 95000 && Converted(0x4170_0000) == 15
    ensures Converted(0x41F0_0000) == 30 && Converted(0x4120_0000) == 10
  {
    SmallFloat(0x4248_0000, 132, 0xC8_0000);
    SmallFloat(0x4170_0000, 130, 0xF0_0000);
    SmallFloat(0x41F0_0000, 131, 0xF0_0000);
    SmallFloat(0x4120_0000, 130, 0xA0_0000);
    HalveSeven(0xC8);
    HalveSeven(0xF0);
    HalveSeven(0xA0);
    HalveSeven(0xB9_8C00);
    PositiveFloat(0x47B9_8C00, 143, 0xB9_8C00);
  }

  lemma {:induction false} Literals()
    ensures U32(Initial(Light)) == U32(Initial(Humidity)) == 0x4248_0000 && U32(Initial(Pressure)) == 0x47B9_8C00
    ensures U32(Initial(ObjTemp)) == 0x4170_0000 && U32(Initial(AmbTemp)) == 0x41F0_0000
    ensures U32(Initial(BleTemp)) == 0x4120_0000
  {
  }

  /** A positive float converts to the whole part of its significand, shifted. */
  lemma {:induction false} PositiveFloat(u: int, e: nat, s: nat)
    requires 0 <= u < 0x8000_0000 && 127 <= e < 150
    requires u / 0x80_0000 == e && u % 0x80_0000 == s - 0x80_0000
    ensures Converted(u) == Halve(s, 150 - e)
  {
  }

  lemma {:induction false} SmallFloat(u: int, e: nat, s: nat)
    requires 0 <= u < 0x8000_0000 && 127 <= e <= 134
    requires u / 0x80_0000 == e && u % 0x80_0000 == s - 0x80_0000
    ensures Converted(u) == Halve(s / 0x1_0000, 134 - e)
  {
    PositiveFloat(u, e, s);
    HalveEight(s, 142 - e);
    HalveEight(s / 0x100, 134 - e);
  }

  // -------------------------------------------------------- abstract server

  /** The device structs, with the getters and setters their function pointers lead to. */
  datatype Engine = Engine(rpm: seq<byte>, direction: seq<byte>) {
    function Get(r: Reg): seq<byte> {
      if r == Direction then direction else rpm
    }

    function Set(r: Reg, v: seq<byte>): Engine {
      if r == Direction then this.(direction := v) else this.(rpm := v)
    }
  }

  datatype Senshub = Senshub(roll: seq<byte>, pitch: seq<byte>, yaw: seq<byte>, light: seq<byte>, pressure: seq<byte>,
                             objTemp: seq<byte>, ambTemp: seq<byte>, humidity: seq<byte>)
  {
    function Get(r: Reg): seq<byte> {
      match r
      case Light => light
      case Pressure => pressure
      case ObjTemp => objTemp
      case AmbTemp => ambTemp
      case Humidity => humidity
      case Roll => roll
      case Pitch => pitch
      case _ => yaw
    }

    function Set(r: Reg, v: seq<byte>): Senshub {
      match r
      case Light => this.(light := v)
      case Pressure => this.(pressure := v)
      case ObjTemp => this.(objTemp := v)
      case AmbTemp => this.(ambTemp := v)
      case Humidity => this.(humidity := v)
      case Roll => this.(roll := v)
      case Pitch => this.(pitch := v)
      case _ => this.(yaw := v)
    }
  }

  lemma {:induction false} SetGet(s: Senshub, r: Reg, v: seq<byte>, q: Reg)
    requires Owner(r) == Owner(q) == SenshubDevice
    ensures s.Set(r, v).Get(q) == if q == r then v else s.Get(q)
  {
  }

  /**
   * The globals: last request's identifier and variable name, a handle per device (-1 before it is connected),
   * the devices.
   */
  datatype Emu = Emu(id: u16, name: seq<byte>, handleEngine: int, handleSenshub: int, handleBle: int,
                     engine: Option<Engine>, senshub: Option<Senshub>, ble: Option<seq<byte>>)
  {
    function Handle(k: Kind): int {
      match k
      case EngineDevice => handleEngine
      case SenshubDevice => handleSenshub
      case BleDevice => handleBle
    }

    predicate Has(r: Reg) {
      match Owner(r)
      case EngineDevice => engine.Some?
      case SenshubDevice => senshub.Some?
      case BleDevice => ble.Some?
    }

    function Get(r: Reg): seq<byte>
      requires Has(r)
    {
      match Owner(r)
      case EngineDevice => engine.value.Get(r)
      case SenshubDevice => senshub.value.Get(r)
      case BleDevice => ble.value
    }

    function Set(r: Reg, v: seq<byte>): Emu
      requires Has(r)
    {
      match Owner(r)
      case EngineDevice => this.(engine := Some(engine.value.Set(r, v)))
      case SenshubDevice => this.(senshub := Some(senshub.value.Set(r, v)))
      case BleDevice => this.(ble := Some(v))
    }
  }

  /** Setting one register is seen by reading it and by no other read. */
  lemma {:induction false} EmuSetGet(e: Emu, r: Reg, v: seq<byte>, q: Reg)
    requires e.Has(r)
    ensures e.Set(r, v).Has(q) <==> e.Has(q)
    ensures e.Has(q) ==> e.Set(r, v).Get(q) == if q == r then v else e.Get(q)
  {
    if Owner(r) == SenshubDevice == Owner(q) {
      SetGet(e.senshub.value, r, v, q);
    }
  }

  /** A device exists once it has a handle, and its registers hold values of their width. */
  ghost predicate WellFormed(e: Emu) {
    && (e.engine.Some? <==> e.handleEngine >= 0)
    && (e.senshub.Some? <==> e.handleSenshub >= 0)
    && (e.ble.Some? <==> e.handleBle >= 0)
    && forall r: Reg :: e.Has(r) ==> |e.Get(r)| == Width(r)
  }

  const START := Emu(0, [], -1, -1, -1, None, None, None)

  /** A set on `handle` of the named variable with this command changes this register. */
  predicate Hits(e: Emu, handle: int, command: byte, name: seq<byte>) {
    && Register(name).Some?
    && var r := Register(name).value;
      Takes(r, command) && e.Has(r) && e.Handle(Owner(r)) == handle
  }

  /** A matching set must fit the local variable it is copied into. */
  predicate Fitting(e: Emu, handle: int, r: Request) {
    Hits(e, handle, r.command, r.name) ==> |r.value| <= Width(Register(r.name).value)
  }

  function Receive(e: Emu, handle: int, r: Request): Emu
    requires Fitting(e, handle, r)
  {
    var heard := e.(id := r.id, name := r.name);
    if Hits(e, handle, r.command, r.name)
    then heard.Set(Register(r.name).value, Stored(Register(r.name).value, r.value))
    else heard
  }

  /** The size announced for a variable: that of its register once its device exists, on whatever handle it is asked. */
  function Announced(e: Emu): nat {
    if Register(e.name).Some? && e.Has(Register(e.name).value) then Width(Register(e.name).value) else 0
  }

  function Overwrite(buf: seq<byte>, s: seq<byte>): (r: seq<byte>)
    requires |s| <= |buf|
    ensures |r| == |buf|
  {
    s + buf[|s|..]
  }

  /** A payload read fills the buffer only on the handle of the device that owns the register. */
  function Payload(e: Emu, handle: int, buf: seq<byte>): (r: seq<byte>)
    requires Announced(e) > 0 ==> |e.Get(Register(e.name).value)| <= |buf|
    ensures |r| == |buf|
  {
    if Announced(e) > 0 && e.Handle(Owner(Register(e.name).value)) == handle
    then Overwrite(buf, e.Get(Register(e.name).value))
    else buf
  }

  function Attach(e: Emu, kind: Kind, handle: int): Emu {
    match kind
    case EngineDevice => e.(handleEngine := handle, engine := Some(Engine(Initial(Rpm), Initial(Direction))))
    case SenshubDevice => e.(handleSenshub := handle,
      senshub := Some(Senshub(Initial(Roll), Initial(Pitch), Initial(Yaw), Initial(Light), Initial(Pressure),
                              Initial(ObjTemp), Initial(AmbTemp), Initial(Humidity))))
    case BleDevice => e.(handleBle := handle, ble := Some(Initial(BleTemp)))
  }

  /** A connected device starts with its initial values; the others are left alone. */
  lemma {:induction false} AttachGet(e: Emu, kind: Kind, handle: int, q: Reg)
    ensures Attach(e, kind, handle).Has(q) <==> e.Has(q) || Owner(q) == kind
    ensures Attach(e, kind, handle).Has(q) ==>
      Attach(e, kind, handle).Get(q) == if Owner(q) == kind then Initial(q) else e.Get(q)
  {
  }

  // ------------------------------------------------------------- the server

  const ENGINE_NAME: seq<byte> := [101, 110, 103, 105, 110, 101, 95, 100, 101, 118, 105, 99, 101]
  const SENSHUB_NAME: seq<byte> := [115, 101, 110, 115, 104, 117, 98, 95, 100, 101, 118, 105, 99, 101]
  const BLE_NAME: seq<byte> := [98, 108, 101, 95, 100, 101, 118, 105, 99, 101]

  function KindNamed(name: seq<byte>): Option<Kind> {
    if name == ENGINE_NAME then Some(EngineDevice)
    else if name == SENSHUB_NAME then Some(SenshubDevice)
    else if name == BLE_NAME then Some(BleDevice)
    else None
  }

  /** The comparisons the code makes, in terms of the register meant. */
  lemma {:induction false} Names(name: seq<byte>)
    ensures Register(name) == Some(Rpm) <==> name == RPM || name == SETPOINT
    ensures Register(name) == Some(Direction) <==> name == DIRECTION
    ensures Register(name) == Some(Light) <==> name == LIGHT
    ensures Register(name) == Some(Pressure) <==> name == PRESSURE
    ensures Register(name) == Some(ObjTemp) <==> name == OBJ_TEMP
    ensures Register(name) == Some(AmbTemp) <==> name == AMB_TEMP
    ensures Register(name) == Some(Humidity) <==> name == HUMIDITY
    ensures Register(name) == Some(Roll) <==> name == ROLL
    ensures Register(name) == Some(Pitch) <==> name == PITCH
    ensures Register(name) == Some(Yaw) <==> name == YAW
    ensures Register(name) == Some(BleTemp) <==> name == BLE_TEMP
  {
    assert LookUp(name, 11) == if name == BLE_TEMP then Some(BleTemp) else None;
    assert LookUp(name, 10) == if name == YAW then Some(Yaw) else LookUp(name, 11);
    assert LookUp(name, 9) == if name == PITCH then Some(Pitch) else LookUp(name, 10);
    assert LookUp(name, 8) == if name == ROLL then Some(Roll) else LookUp(name, 9);
    assert LookUp(name, 7) == if name == HUMIDITY then Some(Humidity) else LookUp(name, 8);
    assert LookUp(name, 6) == if name == AMB_TEMP then Some(AmbTemp) else LookUp(name, 7);
    assert LookUp(name, 5) == if name == OBJ_TEMP then Some(ObjTemp) else LookUp(name, 6);
    assert LookUp(name, 4) == if name == PRESSURE then Some(Pressure) else LookUp(name, 5);
    assert LookUp(name, 3) == if name == LIGHT then Some(Light) else LookUp(name, 4);
    assert LookUp(name, 2) == if name == DIRECTION then Some(Direction) else LookUp(name, 3);
    assert LookUp(name, 1) == if name == SETPOINT then Some(Rpm) else LookUp(name, 2);
    assert LookUp(name, 0) == if name == RPM then Some(Rpm) else LookUp(name, 1);
    // names of equal length differ in their first letter
    assert RPM[0] != YAW[0] && LIGHT[0] != PITCH[0] && OBJ_TEMP[0] != AMB_TEMP[0];
    assert SETPOINT[0] != PRESSURE[0] && SETPOINT[0] != HUMIDITY[0] && SETPOINT[0] != BLE_TEMP[0];
    assert PRESSURE[0] != HUMIDITY[0] && PRESSURE[0] != BLE_TEMP[0] && HUMIDITY[0] != BLE_TEMP[0];
  }

  // ------------------------------------------------- the variables by name

  predicate IsAscii(s: string) { forall i :: 0 <= i < |s| ==> s[i] as int < 0x80 }

  function Ascii(s: string): (b: seq<byte>)
    requires IsAscii(s)
    ensures |b| == |s| && forall i :: 0 <= i < |s| ==> b[i] == s[i] as int
  {
    seq(|s|, i requires 0 <= i < |s| => s[i] as int)
  }

  /** The variables of the devices, their registers, and the one or two commands that set each. */
  predicate Settable(name: string, command: byte, r: Reg) {
    || ((name == "rpm" || name == "setpoint") && r == Rpm && command == 7)
    || (name == "direction" && r == Direction && command == 5)
    || (name == "light" && r == Light && (command == 8 || command == 9))
    || (name == "pressure" && r == Pressure && (command == 8 || command == 9))
    || (name == "objTemp" && r == ObjTemp && (command == 8 || command == 9))
    || (name == "ambTemp" && r == AmbTemp && (command == 8 || command == 9))
    || (name == "humidity" && r == Humidity && (command == 8 || command == 9))
    || (name == "roll" && r == Roll && command == 7)
    || (name == "pitch" && r == Pitch && command == 7)
    || (name == "yaw" && r == Yaw && command == 7)
  }

  lemma {:induction false} NamesInLetters(name: string)
    requires IsAscii(name)
    ensures (Ascii(name) == RPM <==> name == "rpm") && (Ascii(name) == SETPOINT <==> name == "setpoint")
    ensures (Ascii(name) == DIRECTION <==> name == "direction") && (Ascii(name) == LIGHT <==> name == "light")
    ensures (Ascii(name) == PRESSURE <==> name == "pressure") && (Ascii(name) == OBJ_TEMP <==> name == "objTemp")
    ensures (Ascii(name) == AMB_TEMP <==> name == "ambTemp") && (Ascii(name) == HUMIDITY <==> name == "humidity")
    ensures (Ascii(name) == ROLL <==> name == "roll") && (Ascii(name) == PITCH <==> name == "pitch")
    ensures (Ascii(name) == YAW <==> name == "yaw") && (Ascii(name) == BLE_TEMP <==> name == "ble_temp")
  {
    SameLetters(name, "rpm");
    SameLetters(name, "setpoint");
    SameLetters(name, "direction");
    SameLetters(name, "light");
    SameLetters(name, "pressure");
    SameLetters(name, "objTemp");
    SameLetters(name, "ambTemp");
    SameLetters(name, "humidity");
    SameLetters(name, "roll");
    SameLetters(name, "pitch");
    SameLetters(name, "yaw");
    SameLetters(name, "ble_temp");
    Letters();
  }

  lemma {:induction false} SameLetters(s: string, t: string)
    requires IsAscii(s) && IsAscii(t)
    ensures Ascii(s) == Ascii(t) <==> s == t
  {
    if Ascii(s) == Ascii(t) {
      forall i | 0 <= i < |s| ensures s[i] == t[i] {
        assert Ascii(s)[i] == Ascii(t)[i];
      }
    }
  }

  lemma {:induction false} Letters()
    ensures Ascii("rpm") == RPM && Ascii("setpoint") == SETPOINT && Ascii("direction") == DIRECTION
    ensures Ascii("light") == LIGHT && Ascii("pressure") == PRESSURE && Ascii("objTemp") == OBJ_TEMP
    ensures Ascii("ambTemp") == AMB_TEMP && Ascii("humidity") == HUMIDITY && Ascii("roll") == ROLL
    ensures Ascii("pitch") == PITCH && Ascii("yaw") == YAW && Ascii("ble_temp") == BLE_TEMP
  {
  }

  /** Over every name and command: this is all that sets a register. */
  lemma {:induction false} SettableExactly(name: string, command: byte, r: Reg)
    requires IsAscii(name)
    ensures Register(Ascii(name)) == Some(r) && Takes(r, command) <==> Settable(name, command, r)
    ensures Register(Ascii(name)) == Some(BleTemp) <==> name == "ble_temp"
  {
    NamesInLetters(name);
    Names(Ascii(name));
  }

  /** The name a device is configured under decides what emulator_connect creates. */
  lemma {:induction false} DeviceNames()
    ensures KindNamed(Ascii("engine_device")) == Some(EngineDevice)
    ensures KindNamed(Ascii("senshub_device")) == Some(SenshubDevice)
    ensures KindNamed(Ascii("ble_device")) == Some(BleDevice)
  {
    assert Ascii("engine_device") == ENGINE_NAME && Ascii("senshub_device") == SENSHUB_NAME;
    assert Ascii("ble_device") == BLE_NAME;
  }

  /**
   * Each variable is stored by its own call, on the handle of the device that has it, and by no other: octet for
   * octet, with zeroes for what a shorter value leaves, or through the float.
   */
  lemma {:induction false} OwnCallStores(e: Emu, h: int, id: u16, name: string, command: byte, r: Reg, v: seq<byte>,
                                         q: Reg)
    requires IsAscii(name) && Register(Ascii(name)) == Some(r) && e.Has(r) && e.Has(q)
    requires |v| <= if name == "direction" then 1 else 4
    requires e.Handle(if name in ["rpm", "setpoint", "direction"] then EngineDevice
                      else if name == "ble_temp" then BleDevice else SenshubDevice) == h
    ensures Fitting(e, h, Request(command, id, Ascii(name), v))
    ensures var t := Receive(e, h, Request(command, id, Ascii(name), v));
      && t.Has(q)
      && (q != r || !Settable(name, command, r) ==> t.Get(q) == e.Get(q))
      && (Settable(name, command, r) ==> t.Get(r) == Stored(r, v))
  {
    SettableExactly(name, command, r);
    NamesInLetters(name);
    Names(Ascii(name));
    var heard := e.(id := id, name := Ascii(name));
    if Takes(r, command) {
      EmuSetGet(heard, r, Stored(r, v), q);
      EmuSetGet(heard, r, Stored(r, v), r);
    }
  }

  lemma {:induction false} StoredOctets(r: Reg, v: seq<byte>, k: nat)
    requires |v| <= Width(r) && k < Width(r) && r != Roll && r != Pitch && r != Yaw
    ensures Width(r) == if r == Direction then 1 else 4
    ensures Stored(r, v)[k] == if k < |v| then v[k] else 0
  {
  }

  lemma {:induction false} StoredThroughFloat(r: Reg, a: byte, b: byte, c: byte, d: byte)
    requires r == Roll || r == Pitch || r == Yaw
    ensures U32([a, b, c, d]) == a as int + 0x100 * b as int + 0x1_0000 * c as int + 0x100_0000 * d as int
    ensures U32(Stored(r, [a, b, c, d])) == Converted(U32([a, b, c, d]))
  {
  }

  /** The size announced: one octet for the direction, four for the others, none for a name or device unknown. */
  lemma {:induction false} AnnouncedExactly(e: Emu, name: string)
    requires IsAscii(name) && e.name == Ascii(name)
    ensures Announced(e) ==
      if name == "direction" then (if e.engine.Some? then 1 else 0)
      else if name == "rpm" || name == "setpoint" then (if e.engine.Some? then 4 else 0)
      else if name == "ble_temp" then (if e.ble.Some? then 4 else 0)
      else if name in ["light", "pressure", "objTemp", "ambTemp", "humidity", "roll", "pitch", "yaw"]
      then (if e.senshub.Some? then 4 else 0)
      else 0
  {
    NamesInLetters(name);
    Names(Ascii(name));
  }

  /** The globals of src/sensact-emulator.c; a handle of -1 was never connected. */
  class Server {
    var id: u16
    var varName: seq<byte>
    var handleEngine: int
    var handleSenshub: int
    var handleBle: int
    var engine: Option<Engine>
    var senshub: Option<Senshub>
    var ble: Option<seq<byte>>

    ghost predicate Valid()
      reads this
    {
      WellFormed(State())
    }

    ghost function State(): Emu
      reads this
    {
      Emu(id, varName, handleEngine, handleSenshub, handleBle, engine, senshub, ble)
    }

    constructor ()
      ensures Valid() && State() == START
    {
      id, varName, handleEngine, handleSenshub, handleBle := 0, [], -1, -1, -1;
      engine, senshub, ble := None, None, None;
    }

    /** emulator_connect: each device is created anew, with its initial values. */
    method Connect(handle: int, name: seq<byte>) returns (ret: int)
      requires Valid() && handle >= 0
      modifies this
      ensures Valid()
      ensures ret == 0 <==> KindNamed(name).Some?
      ensures State() == if ret == 0 then Attach(old(State()), KindNamed(name).value, handle) else old(State())
    {
      ret := 1;
      if name == BLE_NAME {
        CreateBle(handle);
        ret := 0;
      }
      if name == ENGINE_NAME {
        CreateEngine(handle);
        ret := 0;
      }
      if name == SENSHUB_NAME {
        CreateSenshub(handle);
        ret := 0;
      }
    }

    method CreateBle(handle: int)
      requires Valid() && handle >= 0
      modifies this
      ensures Valid() && State() == Attach(old(State()), BleDevice, handle)
    {
      ble := Some(Initial(BleTemp));
      handleBle := handle;
    }

    method CreateEngine(handle: int)
      requires Valid() && handle >= 0
      modifies this
      ensures Valid() && State() == Attach(old(State()), EngineDevice, handle)
    {
      engine := Some(Engine(Initial(Rpm), Initial(Direction)));
      handleEngine := handle;
    }

    method CreateSenshub(handle: int)
      requires Valid() && handle >= 0
      modifies this
      ensures Valid() && State() == Attach(old(State()), SenshubDevice, handle)
    {
      senshub := Some(Senshub(Initial(Roll), Initial(Pitch), Initial(Yaw), Initial(Light), Initial(Pressure),
                              Initial(ObjTemp), Initial(AmbTemp), Initial(Humidity)));
      handleSenshub := handle;
    }

    /** getlenght */
    method Length(name: seq<byte>) returns (size: nat)
      requires Valid()
      ensures size == Announced(State().(name := name))
    {
      Names(name);
      size := 0;
      if engine != None {
        if name == DIRECTION { size := 1; }
        if name == RPM || name == SETPOINT { size := 4; }
      }
      if senshub != None {
        if name == AMB_TEMP { size := 4; }
        if name == HUMIDITY { size := 4; }
        if name == LIGHT { size := 4; }
        if name == OBJ_TEMP { size := 4; }
        if name == PITCH { size := 4; }
        if name == PRESSURE { size := 4; }
        if name == ROLL { size := 4; }
        if name == YAW { size := 4; }
      }
      if ble != None {
        if name == BLE_TEMP { size := 4; }
      }
    }

    /** The setter functions of the device structs. */
    method Put(r: Reg, value: seq<byte>)
      requires Valid() && State().Has(r) && r != BleTemp && |value| == Width(r)
      modifies this`engine, this`senshub
      ensures Valid()
      ensures State() == old(State()).Set(r, value)
    {
      forall q ensures State().Has(q) ==> |State().Set(r, value).Get(q)| == Width(q) {
        EmuSetGet(State(), r, value, q);
      }
      if Owner(r) == EngineDevice {
        engine := Some(engine.value.Set(r, value));
      } else {
        senshub := Some(senshub.value.Set(r, value));
      }
    }

    /** What a setter leaves behind for the handle it works on. */
    ghost predicate Applied(before: Emu, handle: int, command: byte, name: seq<byte>, value: seq<byte>)
      reads this
      requires Valid() && Fitting(before, handle, Request(command, 0, name, value))
    {
      State() == if Hits(before, handle, command, name)
                 then before.Set(Register(name).value, Stored(Register(name).value, value)) else before
    }

    /** engine_setint, engine_setchar, senshub_setint and senshub_setfloat, behind the switch of emulator_write. */
    method Dispatch(handle: int, command: byte, name: seq<byte>, value: seq<byte>)
      requires Valid() && handle >= 0 && Fitting(State(), handle, Request(command, 0, name, value))
      modifies this`engine, this`senshub
      ensures Valid() && Applied(old(State()), handle, command, name, value)
    {
      if command == SET_DATA || command == SET_FLOAT {
        if handle == handleSenshub {
          SenshubSetFloat(name, value);
        }
      } else if command == SET_CHAR {
        if handle == handleEngine {
          EngineSetChar(name, value);
        }
      } else if command == SET_INT {
        if handle == handleEngine {
          EngineSetInt(name, value);
        }
        if handle == handleSenshub {
          SenshubSetInt(name, value);
        }
      }
    }

    method SenshubSetFloat(name: seq<byte>, value: seq<byte>)
      requires Valid() && handleSenshub >= 0
      requires Fitting(State(), handleSenshub, Request(SET_FLOAT, 0, name, value))
      modifies this`engine, this`senshub
      ensures Valid() && Applied(old(State()), handleSenshub, SET_FLOAT, name, value)
    {
      Names(name);
      if name == AMB_TEMP { Put(AmbTemp, Pad(value, 4)); }
      if name == HUMIDITY { Put(Humidity, Pad(value, 4)); }
      if name == OBJ_TEMP { Put(ObjTemp, Pad(value, 4)); }
      if name == LIGHT { Put(Light, Pad(value, 4)); }
      if name == PRESSURE { Put(Pressure, Pad(value, 4)); }
    }

    method SenshubSetInt(name: seq<byte>, value: seq<byte>)
      requires Valid() && handleSenshub >= 0
      requires Fitting(State(), handleSenshub, Request(SET_INT, 0, name, value))
      modifies this`engine, this`senshub
      ensures Valid()
      ensures Register(name).Some? && ThroughFloat(Register(name).value) ==>
        Applied(old(State()), handleSenshub, SET_INT, name, value)
      ensures Register(name).None? || !ThroughFloat(Register(name).value) ==> State() == old(State())
    {
      Names(name);
      if name == PITCH { Put(Pitch, IntOfFloat(Pad(value, 4))); }
      if name == ROLL { Put(Roll, IntOfFloat(Pad(value, 4))); }
      if name == YAW { Put(Yaw, IntOfFloat(Pad(value, 4))); }
    }

    method EngineSetInt(name: seq<byte>, value: seq<byte>)
      requires Valid() && handleEngine >= 0
      requires Fitting(State(), handleEngine, Request(SET_INT, 0, name, value))
      modifies this`engine, this`senshub
      ensures Valid()
      ensures Register(name) == Some(Rpm) ==> Applied(old(State()), handleEngine, SET_INT, name, value)
      ensures Register(name) != Some(Rpm) ==> State() == old(State())
    {
      Names(name);
      if name == RPM { Put(Rpm, Pad(value, 4)); }
      if name == SETPOINT { Put(Rpm, Pad(value, 4)); }
    }

    method EngineSetChar(name: seq<byte>, value: seq<byte>)
      requires Valid() && handleEngine >= 0
      requires Fitting(State(), handleEngine, Request(SET_CHAR, 0, name, value))
      modifies this`engine, this`senshub
      ensures Valid() && Applied(old(State()), handleEngine, SET_CHAR, name, value)
    {
      Names(name);
      if name == DIRECTION { Put(Direction, Pad(value, 1)); }
    }

    /** emulator_write */
    method Write(handle: int, wire: seq<byte>) returns (ret: int)
      requires Valid() && handle >= 0
      requires |wire| >= REQ_HEADER_SIZE && REQ_HEADER_SIZE + wire[4] as int + ReadU16(wire, 5) as int <= |wire|
      requires Fitting(State(), handle, ParseRequest(wire))
      modifies this
      ensures Valid() && ret == |wire|
      ensures State() == Receive(old(State()), handle, ParseRequest(wire))
    {
      var r := ParseRequest(wire);
      id := r.id;
      varName := r.name;
      ghost var heard := State();
      assert heard == old(State()).(id := r.id, name := r.name);
      Dispatch(handle, r.command, r.name, r.value);
      ret := |wire|;
    }

    method EngineRead(buf: array<byte>)
      requires Valid() && handleEngine >= 0 && buf.Length >= Announced(State())
      modifies buf
      ensures buf[..] == if Register(varName).Some? && Owner(Register(varName).value) == EngineDevice
                         then Overwrite(old(buf[..]), State().Get(Register(varName).value)) else old(buf[..])
    {
      Names(varName);
      if varName == DIRECTION { CopyTo(buf, engine.value.direction); }
      if varName == SETPOINT { CopyTo(buf, engine.value.rpm); }
      if varName == RPM { CopyTo(buf, engine.value.rpm); }
    }

    method SenshubRead(buf: array<byte>)
      requires Valid() && handleSenshub >= 0 && buf.Length >= Announced(State())
      modifies buf
      ensures buf[..] == if Register(varName).Some? && Owner(Register(varName).value) == SenshubDevice
                         then Overwrite(old(buf[..]), State().Get(Register(varName).value)) else old(buf[..])
    {
      Names(varName);
      var s := senshub.value;
      if varName == AMB_TEMP {
        CopyTo(buf, s.ambTemp);
      } else if varName == HUMIDITY {
        CopyTo(buf, s.humidity);
      } else if varName == OBJ_TEMP {
        CopyTo(buf, s.objTemp);
      } else if varName == LIGHT {
        CopyTo(buf, s.light);
      } else if varName == PITCH {
        CopyTo(buf, s.pitch);
      } else if varName == PRESSURE {
        CopyTo(buf, s.pressure);
      } else if varName == ROLL {
        CopyTo(buf, s.roll);
      } else if varName == YAW {
        CopyTo(buf, s.yaw);
      }
    }

    /** emulator_read: a read of header size gets a header, one of any other length the whole payload. */
    method Read(handle: int, buf: array<byte>, length: nat) returns (ret: int)
      requires Valid() && handle >= 0
      requires buf.Length >= if length == RSP_HEADER_SIZE then RSP_HEADER_SIZE else Announced(State())
      modifies buf
      ensures ret == Announced(State())
      ensures buf[..] ==
        if length == RSP_HEADER_SIZE then Overwrite(old(buf[..]), ResponseHeader(RSP_OK, id, Announced(State())))
                         else Payload(State(), handle, old(buf[..]))
    {
      var size := Length(varName);
      ret := size;
      if length == RSP_HEADER_SIZE {
        CopyTo(buf, ResponseHeader(RSP_OK, id, size));
      } else {
        ReadPayload(handle, buf);
      }
    }

    method ReadPayload(handle: int, buf: array<byte>)
      requires Valid() && handle >= 0 && buf.Length >= Announced(State())
      modifies buf
      ensures buf[..] == Payload(State(), handle, old(buf[..]))
    {
      if handle == handleEngine {
        EngineRead(buf);
      }
      if handle == handleSenshub {
        SenshubRead(buf);
      }
      if handle == handleBle && varName == BLE_TEMP {
        CopyTo(buf, ble.value);
      }
      Names(varName);
    }
  }

  /** memcpy to the front of a buffer. */
  method CopyTo(buf: array<byte>, s: seq<byte>)
    requires |s| <= buf.Length
    modifies buf
    ensures buf[..] == Overwrite(old(buf[..]), s)
  {
    forall i | 0 <= i < |s| {
      buf[i] := s[i];
    }
  }
}
