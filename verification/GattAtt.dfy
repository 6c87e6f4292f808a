/** The Attribute Protocol encoders and decoders of src/ble/gatt_att.c. */
module GattAtt {
  import opened Bytes

  const OP_ERROR: byte := 0x01
  const OP_READ_BY_TYPE_REQ: byte := 0x08
  const OP_READ_BY_TYPE_RESP: byte := 0x09
  const OP_READ_REQ: byte := 0x0A
  const OP_READ_RESP: byte := 0x0B
  const OP_READ_BY_GROUP_REQ: byte := 0x10
  const OP_READ_BY_GROUP_RESP: byte := 0x11
  const OP_HANDLE_NOTIFY: byte := 0x1B
  const OP_WRITE_CMD: byte := 0x52

  const PRIM_SVC_UUID: u16 := 0x2800
  const CHARAC_UUID: u16 := 0x2803

  /** One record of the characteristics table. */
  datatype DynChar = DynChar(uuid: u16, property: byte, handle: u16)

  const TABLE_SIZE := 100   // MAX_GATT_ATTR

  /** The characteristics table and the four records past its end that an overlong listing reaches. */
  predicate IsTable(table: array<DynChar>) { table.Length == TABLE_SIZE + 4 }

  /** `nbr_attr` follows the records, in the storage of the UUID of a record number TABLE_SIZE. */
  function NbrAttr(table: array<DynChar>): u16
    requires IsTable(table)
    reads table
  {
    table[TABLE_SIZE].uuid
  }

  // ---------------------------------------------------------------- requests

  function RangeRequest(op: byte, start: u16, end: u16, uuid: u16): (s: seq<byte>)
    ensures |s| == 7 && s[0] == op
  {
    [op] + U16Bytes(start) + U16Bytes(end) + U16Bytes(uuid)
  }

  method WriteU16(value: u16, buff: array<byte>, offset: nat)
    requires offset + 1 < buff.Length
    modifies buff
    ensures buff[..] == old(buff[..offset]) + U16Bytes(value) + old(buff[offset + 2..])
  {
    buff[offset + 1] := value / 0x100;
    buff[offset] := value % 0x100;
  }

  /** EncReadByTypeRequest and EncReadByGroupRequest differ in the opcode only. */
  method EncRangeRequest(buff: array<byte>, op: byte, start: u16, end: u16, uuid: u16) returns (length: nat)
    requires 7 <= buff.Length
    modifies buff
    ensures length == 7
    ensures buff[0] == op
    ensures buff[1] == start % 0x100 && buff[2] == start / 0x100
    ensures buff[3] == end % 0x100 && buff[4] == end / 0x100
    ensures buff[5] == uuid % 0x100 && buff[6] == uuid / 0x100
    ensures buff[..] == RangeRequest(op, start, end, uuid) + old(buff[7..])
  {
    buff[0] := op;
    WriteU16(start, buff, 1);
    assert buff[..3] == [op] + U16Bytes(start);
    WriteU16(end, buff, 3);
    assert buff[..5] == [op] + U16Bytes(start) + U16Bytes(end);
    WriteU16(uuid, buff, 5);
    assert buff[..7] == RangeRequest(op, start, end, uuid);
    length := 7;
  }

  function ReadRequest(hdl: u16): (s: seq<byte>)
    ensures |s| == 3 && s[0] == OP_READ_REQ
  {
    [OP_READ_REQ] + U16Bytes(hdl)
  }

  method EncReadRequest(buff: array<byte>, hdl: u16) returns (length: nat)
    requires 3 <= buff.Length
    modifies buff
    ensures length == 3
    ensures buff[0] == 0x0A && buff[1] == hdl % 0x100 && buff[2] == hdl / 0x100
    ensures buff[..] == ReadRequest(hdl) + old(buff[3..])
  {
    buff[0] := OP_READ_REQ;
    WriteU16(hdl, buff, 1);
    length := 3;
  }

  /** The value an answer to a Read Request carries: of a response, or of any notification that comes first. */
  function AttributeValue(octets: seq<byte>): (value: Option<seq<byte>>)
    ensures value.Some? ==> value.value != []
  {
    if |octets| >= 2 && octets[0] == OP_READ_RESP then Some(octets[1..])
    else if |octets| >= 4 && octets[0] == OP_HANDLE_NOTIFY then Some(octets[3..])
    else None
  }

  /** DecReadResponse: where the value lies in the buffer and how long it is. */
  method DecReadResponse(buff: array<byte>, length: nat) returns (ret: int, index: nat, valueLength: nat)
    requires 1 <= length <= buff.Length
    ensures ret == if AttributeValue(buff[..length]).Some? then 0 else -1
    ensures ret == 0 ==> index + valueLength == length && buff[index..length] == AttributeValue(buff[..length]).value
    ensures ret == 0 ==> index == if buff[0] == OP_READ_RESP then 1 else 3
    ensures ret < 0 ==> index == 0 && valueLength == length
  {
    assert buff[..length][0] == buff[0];
    if buff[0] == OP_READ_RESP && length >= 2 {
      return 0, 1, length - 1;
    } else if buff[0] == OP_HANDLE_NOTIFY && length >= 4 {
      return 0, 3, length - 3;
    }
    return -1, 0, length;
  }

  function ReadResponse(value: seq<byte>): seq<byte> { [OP_READ_RESP] + value }

  function Notification(hdl: u16, value: seq<byte>): seq<byte> { [OP_HANDLE_NOTIFY] + U16Bytes(hdl) + value }

  /**
   * Both forms give their value back unless it is empty, which the protocol allows and this client
   * refuses; the handle a notification is about plays no part.
   */
  lemma {:induction false} ReadValueRoundTrip(hdl: u16, value: seq<byte>)
    ensures AttributeValue(ReadResponse(value)) == if value == [] then None else Some(value)
    ensures AttributeValue(Notification(hdl, value)) == if value == [] then None else Some(value)
  {
    assert Notification(hdl, value)[3..] == value;
  }

  /** The two forms of an answer in octets; anything else is refused. */
  lemma {:induction false} AnswerForms(octets: seq<byte>, lo: byte, hi: byte, value: seq<byte>)
    ensures octets == [0x0B] + value && value != [] ==> AttributeValue(octets) == Some(value)
    ensures octets == [0x1B, lo, hi] + value && value != [] ==> AttributeValue(octets) == Some(value)
    ensures octets == [] || (octets[0] != 0x0B && octets[0] != 0x1B) ==> AttributeValue(octets) == None
  {
    if octets == [0x0B] + value {
      assert octets[1..] == value;
    }
    if octets == [0x1B, lo, hi] + value {
      assert octets[3..] == value;
    }
  }

  // ----------------------------------------------------------- write command

  /** The Write Command of section 3.4.5.3: opcode, handle, then the value, contiguous. */
  function WriteCommand(hdl: u16, payload: seq<byte>): (s: seq<byte>)
    ensures |s| == 3 + |payload|
  {
    [OP_WRITE_CMD] + U16Bytes(hdl) + payload
  }

  lemma {:induction false} WriteCommandOctets(hdl: u16, payload: seq<byte>)
    ensures WriteCommand(hdl, payload) == [0x52, hdl % 0x100, hdl / 0x100] + payload
  {
  }

  /**
   * The copy loop advances the index, the frame length and the data pointer together, so it
   * moves data[2i] to buff[3 + 2i] and leaves every odd payload octet as it was.
   */
  method EncWriteCommand(buff: array<byte>, hdl: u16, data: array<byte>, payloadLength: nat)
    returns (totalLength: nat)
    requires buff != data
    requires 3 + 2 * payloadLength <= buff.Length + 1 && 3 <= buff.Length
    requires 2 * payloadLength <= data.Length + 1
    modifies buff
    ensures totalLength == 3 + payloadLength
    ensures buff[..3] == WriteCommand(hdl, [])
    ensures forall i :: 0 <= i < payloadLength ==> buff[3 + 2 * i] == data[2 * i]
    ensures forall j :: 3 <= j < buff.Length && !(j % 2 == 1 && j < 3 + 2 * payloadLength) ==> buff[j] == old(buff[j])
    // The frame sent is the intended one exactly when the octets it skips were already in place.
    ensures buff[..3 + payloadLength] == WriteCommand(hdl, data[..payloadLength])
       <==> forall j :: 0 <= j < payloadLength && j % 2 == 1 ==> old(buff[3 + j]) == data[j]
  {
    buff[0] := OP_WRITE_CMD;
    WriteU16(hdl, buff, 1);
    var length, shift, i := 3, 0, 0;
    while i < payloadLength
      invariant 0 <= i <= payloadLength && length == 3 + i && shift == i
      invariant buff[..3] == WriteCommand(hdl, [])
      invariant forall k :: 0 <= k < i ==> buff[3 + 2 * k] == data[2 * k]
      invariant forall j :: 3 <= j < buff.Length && !(j % 2 == 1 && j < 3 + 2 * i) ==> buff[j] == old(buff[j])
    {
      buff[length + i] := data[shift + i];
      i, length, shift := i + 1, length + 1, shift + 1;
    }
    totalLength := length;
    IntendedFrame(buff[..], old(buff[..]), hdl, data[..], payloadLength);
  }

  /**
   * With every even payload octet copied and every odd one left alone, the frame is right exactly when the odd
   * ones were.
   */
  lemma {:induction false} IntendedFrame(after: seq<byte>, before: seq<byte>, hdl: u16, data: seq<byte>, n: nat)
    requires |after| == |before| && 3 + n <= |after| && n <= |data| && 2 * n <= |data| + 1 && 2 + 2 * n <= |after|
    requires after[..3] == WriteCommand(hdl, [])
    requires forall i :: 0 <= i < n ==> after[3 + 2 * i] == data[2 * i]
    requires forall j :: 3 <= j < |after| && !(j % 2 == 1 && j < 3 + 2 * n) ==> after[j] == before[j]
    ensures after[..3 + n] == WriteCommand(hdl, data[..n])
      <==> forall j :: 0 <= j < n && j % 2 == 1 ==> before[3 + j] == data[j]
  {
    var sent, meant := after[..3 + n], WriteCommand(hdl, data[..n]);
    forall j | 0 <= j < 3 + n && (j < 3 || (j - 3) % 2 == 0)
      ensures sent[j] == meant[j]
    {
      if j < 3 {
        assert sent[j] == after[..3][j];
      } else {
        var k := (j - 3) / 2;
        assert j == 3 + 2 * k && after[3 + 2 * k] == data[2 * k];
      }
    }
    forall j | 0 <= j < n && j % 2 == 1
      ensures sent[3 + j] == before[3 + j] && meant[3 + j] == data[j]
    {
    }
    if sent == meant {
      forall j | 0 <= j < n && j % 2 == 1
        ensures before[3 + j] == data[j]
      {
        assert sent[3 + j] == meant[3 + j];
      }
    }
  }

  // ------------------------------------------------- Read By Type, decoding

  /** `i * elem`, by repeated addition: offsets stay linear for the verifier. */
  function At(elem: nat, i: nat): nat {
    if i == 0 then 0 else At(elem, i - 1) + elem
  }

  lemma {:induction false} AtMono(elem: nat, i: nat, j: nat)
    requires i < j
    ensures At(elem, i) + elem <= At(elem, j)
    decreases j - i
  {
    if i + 1 < j {
      AtMono(elem, i, j - 1);
    }
  }

  /** `room` octets hold a whole number of elements. */
  predicate Whole(elem: nat, room: nat)
    decreases room
  {
    room == 0 || (0 < elem <= room && Whole(elem, room - elem))
  }

  function Count(elem: nat, room: nat): (n: nat)
    requires Whole(elem, room)
    ensures At(elem, n) == room
    decreases room
  {
    if room == 0 then 0 else 1 + Count(elem, room - elem)
  }

  lemma {:induction false} AtIsWhole(elem: nat, n: nat)
    requires elem > 0
    ensures Whole(elem, At(elem, n)) && Count(elem, At(elem, n)) == n
  {
    if n > 0 {
      AtIsWhole(elem, n - 1);
    }
  }

  /** Division and remainder as the decoders use them. */
  lemma {:induction false} QuotientIsCount(elem: nat, q: nat, r: nat)
    requires 0 <= r < elem
    ensures At(elem, q) == q * elem
    ensures Whole(elem, q * elem + r) <==> r == 0
    ensures r == 0 ==> Count(elem, q * elem) == q
  {
    if q > 0 {
      QuotientIsCount(elem, q - 1, r);
      assert q * elem == (q - 1) * elem + elem;
    }
  }

  lemma {:induction false} WholeIsMultiple(elem: nat, room: nat)
    requires elem == 6 || elem == 20
    ensures Whole(elem, room) ==> if elem == 6 then room % 6 == 0 else room % 20 == 0
    decreases room
  {
    if elem <= room {
      WholeIsMultiple(elem, room - elem);
    }
  }

  /** The length test of the decoders: -1, or the number of elements, which is never zero. */
  method ElementCount(length: nat, elem: nat, minLength: nat, minElem: nat) returns (num: int)
    requires minLength >= 7 && minElem >= 1
    ensures num ==
      if length < minLength || elem < minElem || !Whole(elem, length - 2) then -1 else Count(elem, length - 2)
    ensures num != -1 ==> num >= 1 && num * minElem <= length - 2
  {
    if length < minLength || elem < minElem {
      return -1;
    }
    QuotientIsCount(elem, (length - 2) / elem, (length - 2) % elem);
    assert (length - 2) / elem * elem + (length - 2) % elem == length - 2;
    if (length - 2) % elem != 0 {
      return -1;
    }
    num := (length - 2) / elem;
    SmallCount(num, minElem, elem - minElem);
  }

  method ElementOffset(elem: nat, i: nat, ghost num: nat) returns (at: nat)
    requires i < num && elem > 0
    ensures at == 2 + At(elem, i) && at + elem <= 2 + At(elem, num)
  {
    QuotientIsCount(elem, i, 0);
    AtMono(elem, i, num);
    at := 2 + i * elem;
  }

  lemma {:induction false} SmallCount(num: nat, base: nat, extra: nat)
    ensures num * (base + extra) >= num * base
  {
  }

  /** Element `i` of a response: its property, value handle and the 16-bit part of its UUID. */
  function RecordAt(data: seq<byte>, elem: nat, i: nat): DynChar
    requires elem == 7 || elem == 21
    requires 2 + At(elem, i) + elem <= |data|
  {
    var at := 2 + At(elem, i);
    DynChar(ReadU16(data, at + (if elem == 7 then 5 else 17)), data[at + 2], ReadU16(data, at + 3))
  }

  predicate Supported(data: seq<byte>, length: nat)
    requires |data| >= 2
  {
    && data[0] == OP_READ_BY_TYPE_RESP
    && 9 <= length <= |data|
    && (data[1] == 7 || data[1] == 21) && Whole(data[1], length - 2)
  }

  /** The first `n` elements. */
  function FirstRecords(data: seq<byte>, elem: nat, n: nat): (rs: seq<DynChar>)
    requires elem == 7 || elem == 21
    requires 2 + At(elem, n) <= |data|
    ensures |rs| == n
  {
    if n == 0 then [] else FirstRecords(data, elem, n - 1) + [RecordAt(data, elem, n - 1)]
  }

  /** What a Read By Type response of `length` octets at the head of `data` says. */
  function Records(data: seq<byte>, length: nat): (rs: seq<DynChar>)
    requires |data| >= 2 && Supported(data, length)
    ensures |rs| == Count(data[1], length - 2)
  {
    FirstRecords(data, data[1], Count(data[1], length - 2))
  }

  /** The declaration handle of the last element. */
  function LastHandle(data: seq<byte>, length: nat): u16
    requires |data| >= 2 && Supported(data, length)
  {
    ReadU16(data, length - data[1])
  }

  /**
   * DecReadByTypeResponseCharacteristics. `length` is the unsigned reading of the socket's
   * result, so a failed read arrives as a huge length; the opcode test comes first.
   */
  method DecReadByTypeResponse(data: seq<byte>, length: nat, endHdl: u16, table: array<DynChar>, offset: nat)
    returns (num: int, newEnd: u16)
    requires |data| >= 5
    requires length <= |data| || data[0] != OP_READ_BY_TYPE_RESP
    requires offset < table.Length && |data| - 2 < 7 * (table.Length - offset + 1)
    modifies table
    ensures num == -1 || (num >= 1 && 7 * num <= |data| - 2)
    ensures num == if Supported(data, length) then Count(data[1], length - 2) else -1
    ensures num == -1 ==> newEnd == endHdl
    ensures num != -1 ==>
      && table[offset..offset + num] == Records(data, length)
      && newEnd == ToU16(LastHandle(data, length) as int + 1)
    // A refused element may still have touched the slot the next record would go to, but not its UUID.
    ensures num == -1 ==> table[offset].uuid == old(table[offset].uuid)
    ensures forall k :: 0 <= k < table.Length && !(offset <= k < offset + if num == -1 then 1 else num) ==>
      table[k] == old(table[k])
  {
    newEnd := endHdl;
    if data[0] != OP_READ_BY_TYPE_RESP {
      return -1, endHdl;
    }
    var elem: nat := data[1];
    num := ElementCount(length, elem, 9, 7);
    if num == -1 {
      return -1, endHdl;
    }
    var supported;
    supported, newEnd := DecodeElements(data, elem, num, endHdl, table, offset);
    num := if supported then num else -1;
  }

  /** The element loop: an element of any other size is refused, after its first fields were stored. */
  method DecodeElements(data: seq<byte>, elem: nat, num: nat, endHdl: u16, table: array<DynChar>, offset: nat)
    returns (supported: bool, newEnd: u16)
    requires elem >= 7 && num >= 1 && 2 + At(elem, num) <= |data|
    requires offset + num <= table.Length
    modifies table
    ensures supported <==> elem == 7 || elem == 21
    ensures supported ==>
      && table[offset..offset + num] == FirstRecords(data, elem, num)
      && At(elem, num) >= elem && newEnd == ToU16(ReadU16(data, 2 + At(elem, num) - elem) as int + 1)
    ensures !supported ==> newEnd == endHdl && table[offset].uuid == old(table[offset].uuid)
    ensures forall k :: 0 <= k < table.Length && !(offset <= k < offset + if supported then num else 1) ==>
      table[k] == old(table[k])
  {
    newEnd := endHdl;
    ghost var got: seq<DynChar> := [];
    var i := 0;
    while i < num
      invariant 0 <= i <= num && |got| == i
      invariant i == 0 ==> newEnd == endHdl
      invariant i > 0 ==> elem == 7 || elem == 21
      invariant i > 0 ==> elem <= At(elem, i) <= |data| - 2
      invariant i > 0 ==> newEnd == ToU16(ReadU16(data, 2 + At(elem, i) - elem) as int + 1)
      invariant elem == 7 || elem == 21 ==> At(elem, i) <= |data| - 2 && got == FirstRecords(data, elem, i)
      invariant forall k :: 0 <= k < i ==> table[offset + k] == got[k]
      invariant forall k :: 0 <= k < table.Length && !(offset <= k < offset + i) ==> table[k] == old(table[k])
    {
      var at := ElementOffset(elem, i, num);
      var startHandle := ReadU16(data, at);
      supported := StoreElement(data, elem, at, table, offset + i);
      if !supported {
        return false, newEnd;
      }
      got := got + [RecordAt(data, elem, i)];
      newEnd := ToU16(startHandle as int + 1);
      i := i + 1;
    }
    supported := true;
    assert table[offset..offset + num] == got;
  }

  /** One element into one record: an element of another size leaves the record half filled. */
  method StoreElement(data: seq<byte>, elem: nat, at: nat, table: array<DynChar>, k: nat) returns (supported: bool)
    requires elem >= 7 && at + elem <= |data| && k < table.Length
    modifies table
    ensures supported <==> elem == 7 || elem == 21
    ensures supported ==>
      table[k] == DynChar(ReadU16(data, at + (if elem == 7 then 5 else 17)), data[at + 2], ReadU16(data, at + 3))
    ensures !supported ==> table[k].uuid == old(table[k].uuid)
    ensures forall j :: 0 <= j < table.Length && j != k ==> table[j] == old(table[j])
  {
    table[k] := table[k].(property := data[at + 2], handle := ReadU16(data, at + 3));
    var uuid;
    if elem == 7 {
      uuid := ReadU16(data, at + 5);
    } else if elem == 0x15 {
      uuid := ReadU16(data, at + (elem - 4));
    } else {
      return false;
    }
    table[k] := table[k].(uuid := uuid);
    return true;
  }

  // ------------------------------------------------- Read By Type, encoding

  /** A 16-bit UUID, or a 128-bit one in transmission (little-endian) order. */
  datatype Uuid = Short(value: u16) | Long(octets: seq<byte>) {
    predicate Valid() { Long? ==> |octets| == 16 }

    function Octets(): (s: seq<byte>)
      requires Valid()
      ensures |s| == if Short? then 2 else 16
    {
      if Short? then U16Bytes(value) else octets
    }

    /** The 16-bit part a client keeps: a 128-bit UUID built on a base carries it at octets 12 and 13. */
    function Part16(): u16
      requires Valid()
    {
      if Short? then value else ReadU16(octets, 12)
    }
  }

  /** A characteristic declaration held by a server: section 3.3.1 of the GATT profile. */
  datatype Entry = Entry(decl: u16, property: byte, value: u16, uuid: Uuid) {
    function Size(): byte { if uuid.Short? then 7 else 21 }

    function Octets(): (s: seq<byte>)
      requires uuid.Valid()
      ensures |s| == Size()
    {
      U16Bytes(decl) + [property] + U16Bytes(value) + uuid.Octets()
    }

    function Record(): DynChar
      requires uuid.Valid()
    {
      DynChar(uuid.Part16(), property, value)
    }
  }

  /** Entries that may share one response: valid and of one format. */
  predicate SameFormat(es: seq<Entry>) {
    forall i :: 0 <= i < |es| ==> es[i].uuid.Valid() && es[i].Size() == es[0].Size()
  }

  function RecordsOf(es: seq<Entry>): (rs: seq<DynChar>)
    requires forall i :: 0 <= i < |es| ==> es[i].uuid.Valid()
    ensures |rs| == |es|
    ensures forall i :: 0 <= i < |es| ==> rs[i] == es[i].Record()
  {
    seq(|es|, i requires 0 <= i < |es| => es[i].Record())
  }

  /**
   * What a lookup finds of the first `n` entries of a database, once `n` was stored as the number of
   * records: past the end of the table it replaces a UUID.
   */
  function Listing(db: seq<Entry>, n: nat): (rs: seq<DynChar>)
    requires n <= |db| && n < 0x1_0000 && (forall i :: 0 <= i < |db| ==> db[i].uuid.Valid())
    ensures |rs| == n
    ensures forall i :: 0 <= i < n && i != TABLE_SIZE ==> rs[i] == db[i].Record()
    ensures n > TABLE_SIZE ==> rs[TABLE_SIZE] == db[TABLE_SIZE].Record().(uuid := n)
  {
    var rs := RecordsOf(db)[..n];
    if n > TABLE_SIZE then rs[TABLE_SIZE := rs[TABLE_SIZE].(uuid := n)] else rs
  }

  /** It is a prefix of the database exactly when the table holds it, or the UUID overwritten was that very number. */
  lemma {:induction false} ListingIsPrefix(db: seq<Entry>, n: nat)
    requires n <= |db| && n < 0x1_0000 && (forall i :: 0 <= i < |db| ==> db[i].uuid.Valid())
    ensures Listing(db, n) == RecordsOf(db)[..n] <==> n <= 100 || db[100].uuid.Part16() == n
  {
    if n > TABLE_SIZE {
      var rs, record := RecordsOf(db)[..n], db[TABLE_SIZE].Record();
      assert rs[TABLE_SIZE] == record;
      if record.uuid == n {
        assert rs[TABLE_SIZE := record] == rs;
      }
    }
  }

  function Parts(es: seq<Entry>): (ps: seq<seq<byte>>)
    requires forall i :: 0 <= i < |es| ==> es[i].uuid.Valid()
    ensures |ps| == |es|
    ensures forall i :: 0 <= i < |es| ==> ps[i] == es[i].Octets()
  {
    seq(|es|, i requires 0 <= i < |es| => es[i].Octets())
  }

  function Concat(parts: seq<seq<byte>>): seq<byte> {
    if parts == [] then [] else Concat(parts[..|parts| - 1]) + parts[|parts| - 1]
  }

  function TypeResponse(es: seq<Entry>): seq<byte>
    requires SameFormat(es) && es != []
  {
    [OP_READ_BY_TYPE_RESP, es[0].Size()] + Concat(Parts(es))
  }

  lemma {:induction false} ConcatLength(parts: seq<seq<byte>>, size: nat)
    requires forall k :: 0 <= k < |parts| ==> |parts[k]| == size
    ensures |Concat(parts)| == At(size, |parts|)
  {
    if parts != [] {
      ConcatLength(parts[..|parts| - 1], size);
    }
  }

  lemma {:induction false} ConcatSlice(parts: seq<seq<byte>>, size: nat, i: nat)
    requires i < |parts| && forall k :: 0 <= k < |parts| ==> |parts[k]| == size
    ensures At(size, i) + size <= |Concat(parts)| && Concat(parts)[At(size, i)..At(size, i) + size] == parts[i]
  {
    var n, at := |parts| - 1, At(size, i);
    var front := Concat(parts[..n]);
    ConcatLength(parts[..n], size);
    if i < n {
      AtMono(size, i, n);
      ConcatSlice(parts[..n], size, i);
      assert (front + parts[n])[at..at + size] == front[at..at + size];
    } else {
      assert (front + parts[n])[at..at + size] == parts[n];
    }
  }

  /** Entry `e` is laid out as element `i` of the response in `data`. */
  predicate Holds(data: seq<byte>, e: Entry, i: nat) {
    && e.uuid.Valid()
    && 2 + At(e.Size(), i) + e.Size() <= |data|
    && data[2 + At(e.Size(), i)..2 + At(e.Size(), i) + e.Size()] == e.Octets()
  }

  lemma {:induction false} RecordOfOctets(data: seq<byte>, i: nat, e: Entry)
    requires Holds(data, e, i)
    ensures RecordAt(data, e.Size(), i) == e.Record()
    ensures ReadU16(data, 2 + At(e.Size(), i)) == e.decl
  {
    var at, s := 2 + At(e.Size(), i), e.Octets();
    forall k | 0 <= k < e.Size() ensures data[at + k] == s[k] {
      assert data[at..at + e.Size()][k] == s[k];
    }
    assert s[0] == e.decl % 0x100 && s[1] == e.decl / 0x100 && s[2] == e.property;
    assert s[3] == e.value % 0x100 && s[4] == e.value / 0x100;
    if e.uuid.Long? {
      assert s[17] == e.uuid.octets[12] && s[18] == e.uuid.octets[13];
    } else {
      assert s[5] == e.uuid.value % 0x100 && s[6] == e.uuid.value / 0x100;
    }
  }

  lemma {:induction false} ResponseHolds(es: seq<Entry>, junk: seq<byte>, i: nat)
    requires SameFormat(es) && i < |es|
    ensures Holds(TypeResponse(es) + junk, es[i], i)
  {
    var size, all := es[0].Size(), Concat(Parts(es));
    ConcatSlice(Parts(es), size, i);
    MiddleSlice([OP_READ_BY_TYPE_RESP, size], all, junk, At(size, i), At(size, i) + size);
  }

  lemma {:induction false} HeldIsInside(data: seq<byte>, es: seq<Entry>, size: nat, n: nat)
    requires n <= |es| && (size == 7 || size == 21) && |data| >= 2
    requires n > 0 ==> es[n - 1].Size() == size && Holds(data, es[n - 1], n - 1)
    ensures 2 + At(size, n) <= |data|
  {
  }

  lemma {:induction false} RecordHeld(data: seq<byte>, es: seq<Entry>, size: nat, n: nat, i: nat)
    requires i < n <= |es| && (size == 7 || size == 21) && 2 + At(size, n) <= |data|
    requires es[i].Size() == size && Holds(data, es[i], i)
    ensures FirstRecords(data, size, n)[i] == es[i].Record()
  {
    if i < n - 1 {
      RecordHeld(data, es, size, n - 1, i);
    } else {
      RecordOfOctets(data, i, es[i]);
    }
  }

  /** Decoding inverts encoding, whatever octets follow the response in the buffer. */
  lemma {:induction false} TypeResponseRoundTrip(es: seq<Entry>, junk: seq<byte>)
    requires SameFormat(es) && es != []
    ensures var r := TypeResponse(es);
      && |r| == 2 + At(es[0].Size(), |es|)
      && Supported(r + junk, |r|)
      && Records(r + junk, |r|) == RecordsOf(es)
      && LastHandle(r + junk, |r|) == es[|es| - 1].decl
  {
    var r := TypeResponse(es);
    TypeResponseLength(es);
    RecordsInResponse(es, junk);
    assert (r + junk)[0] == r[0] && (r + junk)[1] == r[1];
  }

  lemma {:induction false} RecordsInResponse(es: seq<Entry>, junk: seq<byte>)
    requires SameFormat(es) && es != []
    ensures var data, size := TypeResponse(es) + junk, es[0].Size();
      && 2 + At(size, |es| - 1) + size == 2 + At(size, |es|) <= |data|
      && FirstRecords(data, size, |es|) == RecordsOf(es)
      && ReadU16(data, 2 + At(size, |es| - 1)) == es[|es| - 1].decl
  {
    AllHold(es, junk);
    RecordsHeld(TypeResponse(es) + junk, es, es[0].Size());
  }

  lemma {:induction false} AllHold(es: seq<Entry>, junk: seq<byte>)
    requires SameFormat(es) && es != []
    ensures forall i :: 0 <= i < |es| ==> Holds(TypeResponse(es) + junk, es[i], i)
  {
    forall i | 0 <= i < |es| ensures Holds(TypeResponse(es) + junk, es[i], i) {
      ResponseHolds(es, junk, i);
    }
  }

  lemma {:induction false} RecordsHeld(data: seq<byte>, es: seq<Entry>, size: nat)
    requires es != [] && (size == 7 || size == 21) && |data| >= 2
    requires forall i :: 0 <= i < |es| ==> es[i].uuid.Valid() && es[i].Size() == size
    requires forall i :: 0 <= i < |es| ==> Holds(data, es[i], i)
    ensures 2 + At(size, |es|) <= |data|
    ensures FirstRecords(data, size, |es|) == RecordsOf(es)
    ensures ReadU16(data, 2 + At(size, |es| - 1)) == es[|es| - 1].decl
  {
    HeldIsInside(data, es, size, |es|);
    forall i | 0 <= i < |es| ensures FirstRecords(data, size, |es|)[i] == RecordsOf(es)[i] {
      RecordHeld(data, es, size, |es|, i);
    }
    RecordOfOctets(data, |es| - 1, es[|es| - 1]);
  }

  lemma {:induction false} TypeResponseLength(es: seq<Entry>)
    requires SameFormat(es) && es != []
    ensures var r, size := TypeResponse(es), es[0].Size();
      && |r| == 2 + At(size, |es|) && r[0] == OP_READ_BY_TYPE_RESP && r[1] == size
      && Whole(size, |r| - 2) && Count(size, |r| - 2) == |es|
  {
    ConcatLength(Parts(es), es[0].Size());
    AtIsWhole(es[0].Size(), |es|);
  }

  /** A record in octets: handle, property and UUID at their places in element `i`, which lies inside the response. */
  lemma {:induction false} RecordOctets(data: seq<byte>, length: nat, i: nat)
    requires |data| >= 2 && Supported(data, length) && i < |Records(data, length)|
    ensures data[0] == 0x09 && (data[1] == 7 || data[1] == 21) && 2 + At(data[1], i) + data[1] <= length <= |data|
    ensures var at, r := 2 + At(data[1], i), Records(data, length)[i];
      && r.property == data[at + 2]
      && r.handle as int == data[at + 3] as int + 0x100 * data[at + 4] as int
      && (data[1] == 7 ==> r.uuid as int == data[at + 5] as int + 0x100 * data[at + 6] as int)
      && (data[1] == 21 ==> r.uuid as int == data[at + 17] as int + 0x100 * data[at + 18] as int)
  {
    var elem, num := data[1], Count(data[1], length - 2);
    AtMono(elem, i, num);
    RecordIn(data, elem, num, i);
  }

  lemma {:induction false} RecordIn(data: seq<byte>, elem: nat, n: nat, i: nat)
    requires (elem == 7 || elem == 21) && i < n && 2 + At(elem, n) <= |data| && At(elem, i) + elem <= At(elem, n)
    ensures FirstRecords(data, elem, n)[i] == RecordAt(data, elem, i)
  {
    if i < n - 1 {
      AtMono(elem, i, n - 1);
      RecordIn(data, elem, n - 1, i);
    }
  }

  /** The entry an element encodes. */
  function EntryAt(data: seq<byte>, elem: nat, i: nat): Entry
    requires elem == 7 || elem == 21
    requires 2 + At(elem, i) + elem <= |data|
  {
    var at := 2 + At(elem, i);
    Entry(ReadU16(data, at), data[at + 2], ReadU16(data, at + 3),
          if elem == 7 then Short(ReadU16(data, at + 5)) else Long(data[at + 5..at + 21]))
  }

  lemma {:induction false} EntryOctetsAt(data: seq<byte>, elem: nat, i: nat)
    requires elem == 7 || elem == 21
    requires 2 + At(elem, i) + elem <= |data|
    ensures var e := EntryAt(data, elem, i);
      e.uuid.Valid() && e.Size() as int == elem && e.Octets() == data[2 + At(elem, i)..2 + At(elem, i) + elem]
  {
    var at, e := 2 + At(elem, i), EntryAt(data, elem, i);
    assert U16Bytes(e.decl) == data[at..at + 2] && U16Bytes(e.value) == data[at + 3..at + 5];
    if elem == 7 {
      assert U16Bytes(e.uuid.value) == data[at + 5..at + 7];
    }
  }

  /** Part `i` is element `i` of `data`. */
  predicate Slice(part: seq<byte>, data: seq<byte>, size: nat, i: nat) {
    2 + At(size, i) + size <= |data| && part == data[2 + At(size, i)..2 + At(size, i) + size]
  }

  lemma {:induction false} ConcatOfSlices(parts: seq<seq<byte>>, data: seq<byte>, size: nat)
    requires 2 + At(size, |parts|) <= |data|
    requires forall i :: 0 <= i < |parts| ==> Slice(parts[i], data, size, i)
    ensures Concat(parts) == data[2..2 + At(size, |parts|)]
  {
    if parts != [] {
      var n := |parts| - 1;
      ConcatOfSlices(parts[..n], data, size);
      assert Slice(parts[n], data, size, n);
      Adjacent(data, 2, 2 + At(size, n), 2 + At(size, n) + size);
    }
  }

  lemma {:induction false} Adjacent(data: seq<byte>, a: nat, b: nat, c: nat)
    requires a <= b <= c <= |data|
    ensures data[a..b] + data[b..c] == data[a..c]
  {
  }

  /** Entry `e` reads as element `i` of `n`. */
  predicate Encoded(data: seq<byte>, elem: nat, n: nat, i: nat, e: Entry) {
    && e.uuid.Valid() && e.Size() as int == elem
    && At(elem, i) + elem <= At(elem, n) && 2 + At(elem, n) <= |data|
    && e.Octets() == data[2 + At(elem, i)..2 + At(elem, i) + elem]
  }

  lemma {:induction false} EntriesIn(data: seq<byte>, elem: nat, n: nat, k: nat) returns (es: seq<Entry>)
    requires (elem == 7 || elem == 21) && k <= n && 2 + At(elem, n) <= |data|
    ensures |es| == k && forall i :: 0 <= i < k ==> Encoded(data, elem, n, i, es[i])
  {
    if k == 0 {
      es := [];
    } else {
      var before := EntriesIn(data, elem, n, k - 1);
      AtMono(elem, k - 1, n);
      EncodedAt(data, elem, n, k - 1);
      es := before + [EntryAt(data, elem, k - 1)];
    }
  }

  lemma {:induction false} EncodedAt(data: seq<byte>, elem: nat, n: nat, i: nat)
    requires (elem == 7 || elem == 21) && At(elem, i) + elem <= At(elem, n) && 2 + At(elem, n) <= |data|
    ensures Encoded(data, elem, n, i, EntryAt(data, elem, i))
  {
    EntryOctetsAt(data, elem, i);
  }

  lemma {:induction false} EncodedResponse(data: seq<byte>, elem: byte, es: seq<Entry>)
    requires es != [] && 2 + At(elem, |es|) <= |data|
    requires forall i :: 0 <= i < |es| ==> Encoded(data, elem, |es|, i, es[i])
    ensures SameFormat(es) && TypeResponse(es) == [OP_READ_BY_TYPE_RESP, elem] + data[2..2 + At(elem, |es|)]
  {
    assert forall i :: 0 <= i < |es| ==> es[i].uuid.Valid() && es[i].Size() == elem;
    forall i | 0 <= i < |es| ensures Slice(Parts(es)[i], data, elem, i) {
      EncodedSlice(data, elem, |es|, i, es[i]);
    }
    ConcatOfSlices(Parts(es), data, elem);
  }

  lemma {:induction false} EncodedSlice(data: seq<byte>, elem: nat, n: nat, i: nat, e: Entry)
    requires Encoded(data, elem, n, i, e)
    ensures Slice(e.Octets(), data, elem, i)
  {
  }

  /** The decoder accepts encodings only: what it does not refuse is the response some list of entries has. */
  lemma {:induction false} AcceptsEncodings(data: seq<byte>, length: nat) returns (es: seq<Entry>)
    requires |data| >= 2 && Supported(data, length)
    ensures es != [] && SameFormat(es) && data[..length] == TypeResponse(es)
  {
    var elem, n := data[1], Count(data[1], length - 2);
    es := EntriesIn(data, elem, n, n);
    EncodedResponse(data, elem, es);
    assert data[..length] == [data[0], data[1]] + data[2..length];
  }

  // --------------------------------------------------- Read By Group Type

  /** A primary service: the handle range of a group and its UUID. */
  datatype Service = Service(start: u16, end: u16, uuid: Uuid) {
    function Size(): byte { if uuid.Short? then 6 else 20 }

    function Octets(): (s: seq<byte>)
      requires uuid.Valid()
      ensures |s| == Size()
    {
      U16Bytes(start) + U16Bytes(end) + uuid.Octets()
    }
  }

  predicate OneSize(gs: seq<Service>) {
    forall i :: 0 <= i < |gs| ==> gs[i].uuid.Valid() && gs[i].Size() == gs[0].Size()
  }

  function ServiceParts(gs: seq<Service>): (ps: seq<seq<byte>>)
    requires OneSize(gs)
    ensures |ps| == |gs|
    ensures forall i :: 0 <= i < |gs| ==> ps[i] == gs[i].Octets()
  {
    seq(|gs|, i requires 0 <= i < |gs| => gs[i].Octets())
  }

  function GroupResponse(gs: seq<Service>): seq<byte>
    requires OneSize(gs) && gs != []
  {
    [OP_READ_BY_GROUP_RESP, gs[0].Size()] + Concat(ServiceParts(gs))
  }

  predicate GroupSupported(data: seq<byte>, length: nat)
    requires |data| >= 2
  {
    && data[0] == OP_READ_BY_GROUP_RESP
    && 7 <= length <= |data|
    && (data[1] == 6 || data[1] == 20) && Whole(data[1], length - 2)
  }

  /** DecReadByGroupResponsePrimary: the end handle of the last group becomes the next start. */
  method DecReadByGroupResponse(data: seq<byte>, length: nat, endHdl: u16) returns (ret: int, newEnd: u16)
    requires |data| >= 5
    requires length <= |data| || data[0] != OP_READ_BY_GROUP_RESP
    ensures ret == if GroupSupported(data, length) then 0 else -1
    ensures newEnd == if ret == 0 then ReadU16(data, length - data[1] + 2) else endHdl
    ensures ret == 0 ==>
      && data[0] == 0x11 && (data[1] == 6 || data[1] == 20) && 2 + data[1] as int <= length <= |data|
      && (data[1] == 6 ==> (length - 2) % 6 == 0) && (data[1] == 20 ==> (length - 2) % 20 == 0)
      && var last := length - data[1];
        newEnd as int == data[last + 2] as int + 0x100 * data[last + 3] as int
  {
    newEnd := endHdl;
    if data[0] != OP_READ_BY_GROUP_RESP {
      return -1, endHdl;
    }
    var elem: nat := data[1];
    var num := ElementCount(length, elem, 7, 5);
    if num == -1 {
      return -1, endHdl;
    }
    var lastEnd, i := endHdl, 0;
    while i < num
      invariant 0 <= i <= num
      invariant i > 0 ==> (elem == 6 || elem == 20) && 2 + At(elem, i) <= length
      invariant i > 0 ==> lastEnd == ReadU16(data, 2 + At(elem, i) - elem + 2)
    {
      var at := ElementOffset(elem, i, num);
      lastEnd := ReadU16(data, at + 2);
      if elem == 6 {
        var uuid := ReadU16(data, at + 4);
      } else if elem == 0x14 {
        var uuid := ReadU16(data, at + (20 - 4));
      } else {
        return -1, endHdl;
      }
      i := i + 1;
    }
    WholeIsMultiple(elem, length - 2);
    return 0, lastEnd;
  }

  lemma {:induction false} GroupResponseRoundTrip(gs: seq<Service>, junk: seq<byte>)
    requires OneSize(gs) && gs != []
    ensures var r := GroupResponse(gs);
      && GroupSupported(r + junk, |r|)
      && ReadU16(r + junk, |r| - r[1] + 2) == gs[|gs| - 1].end
  {
    var r, at := GroupResponse(gs), At(gs[0].Size(), |gs| - 1);
    GroupResponseLength(gs);
    assert (r + junk)[0] == r[0] && (r + junk)[1] == r[1];
    assert (r + junk)[2 + at..|r|] == r[2 + at..];
    EndOfOctets(r + junk, 2 + at, gs[|gs| - 1]);
  }

  lemma {:induction false} GroupResponseLength(gs: seq<Service>)
    requires OneSize(gs) && gs != []
    ensures var r, size := GroupResponse(gs), gs[0].Size();
      && r[0] == OP_READ_BY_GROUP_RESP && r[1] == size
      && |r| == 2 + At(size, |gs| - 1) + size && Whole(size, |r| - 2)
      && r[2 + At(size, |gs| - 1)..] == gs[|gs| - 1].Octets()
  {
    ConcatLength(ServiceParts(gs), gs[0].Size());
    ConcatSlice(ServiceParts(gs), gs[0].Size(), |gs| - 1);
    AtIsWhole(gs[0].Size(), |gs|);
  }

  lemma {:induction false} EndOfOctets(data: seq<byte>, at: nat, g: Service)
    requires g.uuid.Valid() && at + g.Size() <= |data|
    requires data[at..at + g.Size()] == g.Octets()
    ensures ReadU16(data, at + 2) == g.end
  {
    var s := g.Octets();
    assert data[at + 2] == data[at..at + g.Size()][2] == s[2];
    assert data[at + 3] == data[at..at + g.Size()][3] == s[3];
  }
}
