/** The sensact protocol packets of src/packet.c. */
module Packet {
  import opened Bytes

  const PREFIX: byte := 0xAA
  const REQ_HEADER_SIZE := 7
  const RSP_HEADER_SIZE := 6
  const NAME_MAX := 256
  const VALUE_MAX := 1024

  const GET_CHAR: byte := 0
  const GET_SHORT: byte := 1
  const GET_INT: byte := 2
  const GET_FLOAT: byte := 3
  const GET_DATA: byte := 4
  const SET_CHAR: byte := 5
  const SET_SHORT: byte := 6
  const SET_INT: byte := 7
  const SET_FLOAT: byte := 8
  const SET_DATA: byte := 9

  const RSP_OK: byte := 0
  const RSP_ERROR: byte := 1

  /** The characters of a C string. */
  predicate NulFree(s: seq<byte>) {
    forall i :: 0 <= i < |s| ==> s[i] != 0
  }

  /** What a C string function sees in `s`: the octets before the first NUL. */
  function CString(s: seq<byte>): (r: seq<byte>)
    ensures |r| <= |s| && NulFree(r)
    ensures NulFree(s) ==> r == s
  {
    if s == [] || s[0] == 0 then [] else [s[0]] + CString(s[1..])
  }

  // ------------------------------------------------------------- requests

  /** strlen stored in an unsigned char: 256 becomes 0. */
  function NameLength(name: seq<byte>): byte { |name| % 0x100 }

  function RequestHeader(command: byte, id: u16, nameLength: byte, valueLength: u16): (s: seq<byte>)
    ensures |s| == REQ_HEADER_SIZE
  {
    [PREFIX] + U16Bytes(id) + [command, nameLength] + U16Bytes(valueLength)
  }

  /** The octets sent for a request. */
  function RequestWire(command: byte, id: u16, name: seq<byte>, value: seq<byte>): (s: seq<byte>)
    requires |name| <= NAME_MAX && |value| <= VALUE_MAX
    ensures |s| == REQ_HEADER_SIZE + NameLength(name) + |value|
  {
    RequestHeader(command, id, NameLength(name), |value|) + name[..NameLength(name)] + value
  }

  /** Nothing of the value travels with a get. */
  function ValueSent(command: byte, value: seq<byte>): seq<byte> {
    if command <= GET_DATA then [] else value
  }

  datatype Request = Request(command: byte, id: u16, name: seq<byte>, value: seq<byte>)

  /** request_packet_t */
  class RequestPacket {
    var prefix: byte
    var id: u16
    var commandCode: byte
    var nameLength: byte
    var valueLength: u16
    const data: array<byte>

    /** A packet zeroed by its initialiser. */
    constructor ()
      ensures fresh(data) && data.Length == NAME_MAX + VALUE_MAX && nameLength == 0 && valueLength == 0
    {
      prefix, id, commandCode, nameLength, valueLength := 0, 0, 0, 0, 0;
      data := new byte[NAME_MAX + VALUE_MAX](_ => 0);
    }

    /** The packed struct as octets. */
    function Layout(): (s: seq<byte>)
      reads this, data
      ensures |s| == REQ_HEADER_SIZE + data.Length
    {
      [prefix] + U16Bytes(id) + [commandCode, nameLength] + U16Bytes(valueLength) + data[..]
    }

    /** strcpy and memcpy into `data` */
    method CopyIn(s: seq<byte>, at: nat)
      requires at + |s| <= data.Length
      modifies data
      ensures data[..] == old(data[..at]) + s + old(data[at + |s|..])
    {
      forall i | 0 <= i < |s| {
        data[at + i] := s[i];
      }
    }

    /** The switch of create_request_packet: lengths and data for a get, a set, or neither. */
    method Pack(a: Attempt)
      requires data.Length == NAME_MAX + VALUE_MAX && a.Fits()
      modifies this`nameLength, this`valueLength, data
      ensures a.command <= SET_DATA ==>
        && nameLength == NameLength(a.name) && valueLength == |ValueSent(a.command, a.value)|
        && data[..nameLength + valueLength] == a.name[..nameLength] + ValueSent(a.command, a.value)
      ensures a.command > SET_DATA ==>
        nameLength == old(nameLength) && valueLength == old(valueLength) && data[..] == old(data[..])
    {
      if a.command <= GET_DATA {
        nameLength := |a.name| % 0x100;
        valueLength := 0;
        CopyIn(a.name + [0], 0);
        assert data[..nameLength] == a.name[..nameLength];
      } else if a.command <= SET_DATA {
        nameLength := |a.name| % 0x100;
        valueLength := |a.value|;
        CopyIn(a.name + [0], 0);
        assert data[..nameLength] == a.name[..nameLength];
        ghost var named := data[..nameLength];
        CopyIn(a.value, nameLength);
        assert data[..nameLength + valueLength] == named + a.value;
      }
    }

    lemma {:induction false} LayoutPrefix(k: nat)
      requires k <= data.Length
      ensures prefix == PREFIX ==>
        Layout()[..REQ_HEADER_SIZE + k] == RequestHeader(commandCode, id, nameLength, valueLength) + data[..k]
    {
    }

    /** verify_request_packet looks at the first octet alone. */
    method Verify() returns (ret: int)
      ensures ret == if Layout()[0] == PREFIX then 0 else -1
    {
      ret := if prefix != PREFIX then -1 else 0;
    }

    /** decode_request_packet, with the name read back as a C string. */
    method Decode() returns (r: Request)
      requires data.Length == NAME_MAX + VALUE_MAX && valueLength <= VALUE_MAX
      ensures REQ_HEADER_SIZE + Layout()[4] as int + ReadU16(Layout(), 5) as int <= |Layout()|
      ensures r == ParseRequest(Layout())
    {
      r := Request(commandCode, id, CString(data[..nameLength]), data[nameLength..nameLength + valueLength]);
      LayoutParses(this);
    }
  }

  /** The request laid out in `w`. */
  function ParseRequest(w: seq<byte>): Request
    requires |w| >= REQ_HEADER_SIZE
    requires REQ_HEADER_SIZE + w[4] + ReadU16(w, 5) <= |w|
  {
    var nl, vl := w[4], ReadU16(w, 5);
    Request(w[3], ReadU16(w, 1), CString(w[REQ_HEADER_SIZE..REQ_HEADER_SIZE + nl]),
      w[REQ_HEADER_SIZE + nl..REQ_HEADER_SIZE + nl + vl])
  }

  lemma {:induction false} LayoutParses(p: RequestPacket)
    requires p.data.Length == NAME_MAX + VALUE_MAX && p.valueLength <= VALUE_MAX
    ensures var w := p.Layout();
      && w[4] == p.nameLength && ReadU16(w, 5) == p.valueLength
      && ParseRequest(w) == Request(p.commandCode, p.id, CString(p.data[..p.nameLength]),
        p.data[p.nameLength..p.nameLength + p.valueLength])
  {
    var w, nl, vl := p.Layout(), p.nameLength as int, p.valueLength as int;
    assert w[REQ_HEADER_SIZE..REQ_HEADER_SIZE + nl] == p.data[..nl];
    assert w[REQ_HEADER_SIZE + nl..REQ_HEADER_SIZE + nl + vl] == p.data[nl..nl + vl];
  }

  lemma {:induction false} HeaderFields(command: byte, id: u16, nameLength: byte, valueLength: u16, rest: seq<byte>)
    ensures var w := RequestHeader(command, id, nameLength, valueLength) + rest;
      w[0] == PREFIX && ReadU16(w, 1) == id && w[3] == command && w[4] == nameLength && ReadU16(w, 5) == valueLength
  {
  }

  /**
   * What arrives for any request within the guards: a name of 256 octets is lost, shorter ones and all else
   * survive.
   */
  lemma {:induction false} RequestArrives(command: byte, id: u16, name: seq<byte>, value: seq<byte>, tail: seq<byte>)
    requires |name| <= NAME_MAX && |value| <= VALUE_MAX && NulFree(name)
    ensures var w := RequestWire(command, id, name, value) + tail;
      && w[0] == PREFIX && REQ_HEADER_SIZE + w[4] + ReadU16(w, 5) <= |w|
      && ParseRequest(w) == Request(command, id, if |name| < NAME_MAX then name else [], value)
  {
    var n := name[..NameLength(name)];
    var w := RequestWire(command, id, name, value) + tail;
    HeaderFields(command, id, NameLength(name), |value|, n + value + tail);
    assert w == RequestHeader(command, id, NameLength(name), |value|) + (n + value + tail);
    assert w[REQ_HEADER_SIZE..REQ_HEADER_SIZE + |n|] == n;
    assert w[REQ_HEADER_SIZE + |n|..REQ_HEADER_SIZE + |n| + |value|] == value;
    assert |name| < NAME_MAX ==> n == name;
    assert |name| == NAME_MAX ==> n == [];
  }

  /** Decoding gives back what was encoded exactly when the name has at most 255 octets. */
  lemma {:induction false} RequestRoundTrip(command: byte, id: u16, name: seq<byte>, value: seq<byte>)
    requires |name| <= NAME_MAX && |value| <= VALUE_MAX && NulFree(name)
    ensures var w := RequestWire(command, id, name, value);
      && REQ_HEADER_SIZE + w[4] + ReadU16(w, 5) <= |w|
      && (ParseRequest(w) == Request(command, id, name, value) <==> |name| <= 255)
  {
    RequestArrives(command, id, name, value, []);
    assert RequestWire(command, id, name, value) + [] == RequestWire(command, id, name, value);
  }

  /** The frame of a request: every octet of the header at its place, then the name, then the value. */
  lemma {:induction false} RequestOctets(command: byte, id: u16, name: seq<byte>, value: seq<byte>)
    requires |name| <= 256 && |value| <= 1024
    ensures var n := if |name| == 256 then [] else name;
      RequestWire(command, id, name, value) ==
        [0xAA, id % 0x100, id / 0x100, command, |n|, |value| % 0x100, |value| / 0x100] + n + value
    ensures |ValueSent(command, value)| == if command <= 4 then 0 else |value|
  {
  }

  // ------------------------------------------------------------ responses

  function ResponseHeader(code: byte, id: u16, length: u16): (s: seq<byte>)
    ensures |s| == RSP_HEADER_SIZE
    ensures s[0] == PREFIX && ReadU16(s, 1) == id && s[3] == code && ReadU16(s, 4) == length
  {
    [PREFIX] + U16Bytes(id) + [code] + U16Bytes(length)
  }

  function ResponseWire(code: byte, id: u16, data: seq<byte>): (s: seq<byte>)
    requires |data| <= VALUE_MAX
    ensures |s| == RSP_HEADER_SIZE + |data|
  {
    ResponseHeader(code, id, |data|) + data
  }

  lemma {:induction false} ResponseOctets(code: byte, id: u16, data: seq<byte>)
    requires |data| <= 1024
    ensures ResponseWire(code, id, data) ==
      [0xAA, id % 0x100, id / 0x100, code, |data| % 0x100, |data| / 0x100] + data
  {
  }

  /** response_packet_t */
  class ResponsePacket {
    var prefix: byte
    var id: u16
    var responseCode: byte
    var dataLength: u16
    const data: array<byte>

    constructor ()
      ensures fresh(data) && data.Length == VALUE_MAX
    {
      prefix, id, responseCode, dataLength := 0, 0, 0, 0;
      data := new byte[VALUE_MAX](_ => 0);
    }

    function Layout(): (s: seq<byte>)
      reads this, data
      ensures |s| == RSP_HEADER_SIZE + data.Length
    {
      [prefix] + U16Bytes(id) + [responseCode] + U16Bytes(dataLength) + data[..]
    }

    /** The header as it arrives over the struct. */
    method Load(header: seq<byte>)
      requires |header| == RSP_HEADER_SIZE
      modifies this`prefix, this`id, this`responseCode, this`dataLength
      ensures Layout()[..RSP_HEADER_SIZE] == header
      ensures responseCode == header[3] && dataLength == ReadU16(header, 4)
    {
      prefix, id, responseCode, dataLength := header[0], ReadU16(header, 1), header[3], ReadU16(header, 4);
    }

    /** create_response_packet */
    method Create(command: byte, bytes: seq<byte>, id: u16) returns (ret: int)
      requires data.Length == VALUE_MAX
      modifies this, data
      ensures |bytes| > VALUE_MAX ==> ret == -1 && Layout() == old(Layout())
      ensures |bytes| <= VALUE_MAX ==>
        ret == RSP_HEADER_SIZE + |bytes| && Layout()[..ret] == ResponseWire(command, id, bytes)
    {
      if |bytes| > VALUE_MAX {
        return -1;
      }
      prefix := PREFIX;
      responseCode := command;
      this.id := id;
      dataLength := |bytes|;
      if |bytes| > 0 {
        forall i | 0 <= i < |bytes| {
          data[i] := bytes[i];
        }
      }
      ret := RSP_HEADER_SIZE + |bytes|;
      assert data[..|bytes|] == bytes;
    }

    /** verify_response_packet */
    method Verify(id: u16) returns (ret: int)
      ensures ret == 0 <==> Accepts(Layout(), id)
      ensures ret == 0 || ret == -1
    {
      if prefix != PREFIX {
        return -1;
      }
      if responseCode != RSP_OK && responseCode != RSP_ERROR {
        return -1;
      }
      if this.id != id {
        return -1;
      }
      return 0;
    }
  }

  /** The header at the front of `w` answers request `id`. */
  predicate Accepts(w: seq<byte>, id: u16)
    requires |w| >= RSP_HEADER_SIZE
  {
    w[0] == PREFIX && (w[3] == RSP_OK || w[3] == RSP_ERROR) && ReadU16(w, 1) == id
  }

  lemma {:induction false} AcceptedOctets(w: seq<byte>, id: u16)
    requires |w| >= 6
    ensures Accepts(w, id) <==>
      w[0] == 0xAA && w[1] as int + 0x100 * w[2] as int == id as int && (w[3] == 0 || w[3] == 1)
  {
  }

  // ------------------------------------------------------- request counter

  /** An attempt to create a request packet. */
  datatype Attempt = Attempt(command: byte, name: seq<byte>, value: seq<byte>) {
    predicate Fits() { |name| <= NAME_MAX && |value| <= VALUE_MAX }
  }

  class Counter {
    var value: u16   // packet_counter

    constructor ()
      ensures value == 0
    {
      value := 0;
    }

    /** create_request_packet. An unknown command leaves the lengths and the data as they were. */
    method CreateRequest(packet: RequestPacket, a: Attempt) returns (length: int, id: u16)
      requires packet.data.Length == NAME_MAX + VALUE_MAX
      modifies this, packet, packet.data
      ensures value == NextCounter(old(value), a) && id == old(value)
      ensures a.Fits() <==> |a.name| <= 256 && |a.value| <= 1024
      ensures !a.Fits() ==> length == -1 && packet.Layout() == old(packet.Layout())
      ensures a.Fits() && a.command <= SET_DATA ==>
        && length == REQ_HEADER_SIZE + NameLength(a.name) + |ValueSent(a.command, a.value)|
        && packet.Layout()[..length] == RequestWire(a.command, id, a.name, ValueSent(a.command, a.value))
      ensures a.Fits() && a.command > SET_DATA ==>
        && length == REQ_HEADER_SIZE + old(packet.nameLength) + old(packet.valueLength)
        && packet.Layout() == RequestHeader(a.command, id, old(packet.nameLength), old(packet.valueLength))
          + old(packet.data[..])
    {
      id := value;
      if |a.name| > NAME_MAX {
        return -1, id;
      }
      if |a.value| > VALUE_MAX {
        return -1, id;
      }
      packet.prefix := PREFIX;
      packet.commandCode := a.command;
      packet.id := value;
      packet.Pack(a);
      value := ToU16(value as int + 1);
      length := REQ_HEADER_SIZE + packet.nameLength as int + packet.valueLength as int;
      packet.LayoutPrefix(if a.command <= SET_DATA then length - REQ_HEADER_SIZE else packet.data.Length);
    }
  }

  function NextCounter(c: u16, a: Attempt): u16 {
    if a.Fits() then ToU16(c as int + 1) else c
  }

  function CounterAfter(attempts: seq<Attempt>): u16 {
    if attempts == [] then 0 else NextCounter(CounterAfter(attempts[..|attempts| - 1]), attempts[|attempts| - 1])
  }

  /** How many of the attempts became requests. */
  function Requests(attempts: seq<Attempt>): nat {
    if attempts == [] then 0
    else Requests(attempts[..|attempts| - 1]) + if attempts[|attempts| - 1].Fits() then 1 else 0
  }

  /** Failed attempts consume no identifier; successful ones count modulo 65536. */
  lemma {:induction false} CounterCounts(attempts: seq<Attempt>)
    ensures CounterAfter(attempts) == Requests(attempts) % 0x1_0000
  {
    if attempts != [] {
      CounterCounts(attempts[..|attempts| - 1]);
    }
  }

  /**
   * In any run, the reply to the request of attempt `k` passes for the reply to that of attempt
   * `n` exactly when a multiple of 65536 requests lies between them.
   */
  lemma {:induction false} StaleReply(attempts: seq<Attempt>, k: nat, n: nat, code: byte, data: seq<byte>)
    requires k <= n < |attempts| && |data| <= VALUE_MAX
    requires code == RSP_OK || code == RSP_ERROR
    ensures var stale := ResponseWire(code, CounterAfter(attempts[..k]), data);
      var between := Requests(attempts[..n]) - Requests(attempts[..k]);
      Accepts(stale, CounterAfter(attempts[..n])) <==> between % 0x1_0000 == 0
  {
    CounterCounts(attempts[..k]);
    CounterCounts(attempts[..n]);
    var a, b := Requests(attempts[..k]) as int, Requests(attempts[..n]) as int;
    assert a % 0x1_0000 == b % 0x1_0000 <==> (b - a) % 0x1_0000 == 0;
  }

  lemma {:induction false} RequestsGrow(attempts: seq<Attempt>, k: nat, n: nat)
    requires k < n <= |attempts| && attempts[k].Fits()
    ensures 1 <= Requests(attempts[..n]) - Requests(attempts[..k]) <= n - k
    decreases n
  {
    assert attempts[..n][..n - 1] == attempts[..n - 1];
    if k < n - 1 {
      RequestsGrow(attempts, k, n - 1);
    }
  }

  /** None of the replies to the 65535 requests before the current one can be taken for its reply. */
  lemma {:induction false} RecentRepliesRejected(attempts: seq<Attempt>, k: nat, n: nat, code: byte, data: seq<byte>)
    requires k < n < |attempts| && attempts[k].Fits() && |data| <= VALUE_MAX
    requires Requests(attempts[..n]) - Requests(attempts[..k]) < 0x1_0000
    requires code == RSP_OK || code == RSP_ERROR
    ensures !Accepts(ResponseWire(code, CounterAfter(attempts[..k]), data), CounterAfter(attempts[..n]))
  {
    StaleReply(attempts, k, n, code, data);
    RequestsGrow(attempts, k, n);
  }
}
