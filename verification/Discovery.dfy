/** The discovery loops of src/ble/ble.c against an abstract attribute server. */
module Discovery {
  import opened Bytes
  import opened Sequences
  import opened GattAtt

  const BUFFER_SIZE := 30

  /** What the socket does with one request. */
  datatype Reply = WriteFails | ReadFails | Received(octets: seq<byte>)

  /** The peer: its answer may depend on the round and on the request. */
  type Server = (nat, seq<byte>) -> Reply

  // ------------------------------------------------------ conforming servers

  /** Characteristic declarations by ascending handle, each followed by its value attribute. */
  predicate ValidDb(db: seq<Entry>) {
    && (forall i :: 0 <= i < |db| ==> db[i].uuid.Valid() && 1 <= db[i].decl < db[i].value)
    && (forall i, j :: 0 <= i < j < |db| ==> db[i].decl < db[j].decl)
  }

  /** `from` is the first declaration at or after handle `start`. */
  predicate FirstFrom(db: seq<Entry>, start: u16, from: nat) {
    && from <= |db|
    && (forall i :: 0 <= i < from ==> db[i].decl < start)
    && (from < |db| ==> db[from].decl >= start)
  }

  /** A legal reply to Read By Type from `start`: any batch of the next entries of one format, or an error. */
  predicate Batch(db: seq<Entry>, start: u16, from: nat, n: nat, octets: seq<byte>) {
    && FirstFrom(db, start, from)
    && (from == |db| ==> octets != [] && octets[0] == OP_ERROR)
    && (from < |db| ==>
         && 1 <= n <= |db| - from
         && SameFormat(db[from..from + n])
         && octets == TypeResponse(db[from..from + n])
         && |octets| <= BUFFER_SIZE)
  }

  ghost predicate Legal(db: seq<Entry>, start: u16, octets: seq<byte>) {
    exists from: nat, n: nat :: Batch(db, start, from, n, octets)
  }

  function TypeRequest(start: u16): seq<byte> {
    RangeRequest(OP_READ_BY_TYPE_REQ, start, 0xFFFF, CHARAC_UUID)
  }

  /** A Read By Type Request for characteristic declarations from `start` to the last handle, octet by octet. */
  predicate AsksTypes(request: seq<byte>, start: u16) {
    && |request| == 7 && request[0] == 0x08
    && request[1] as int + 0x100 * request[2] as int == start as int
    && request[3] == 0xFF && request[4] == 0xFF
    && request[5] == 0x03 && request[6] == 0x28
  }

  lemma {:induction false} TypeRequestAsks(start: u16)
    ensures AsksTypes(TypeRequest(start), start)
  {
  }

  /** Every such request that is answered is answered lawfully. */
  ghost predicate Conforming(server: Server, db: seq<Entry>) {
    && ValidDb(db)
    && forall round: nat, start: u16, request: seq<byte> ::
         AsksTypes(request, start) && server(round, request).Received? ==>
           Legal(db, start, server(round, request).octets)
  }

  ghost predicate WritesSucceed(server: Server) {
    forall round: nat, request: seq<byte> :: !server(round, request).WriteFails?
  }

  ghost predicate Reliable(server: Server) {
    forall round: nat, request: seq<byte> :: server(round, request).Received?
  }

  // ---------------------------------------------------------------- socket

  /** The socket: the peer behind it, and the requests put to it so far. */
  class Link {
    const server: Server
    var asked: seq<seq<byte>>

    constructor (server: Server)
      ensures this.server == server && asked == []
    {
      this.server, asked := server, [];
    }

    method Ask(request: seq<byte>) returns (reply: Reply)
      modifies this
      ensures asked == old(asked) + [request]
      ensures reply == server(|old(asked)|, request)
    {
      reply := server(|asked|, request);
      asked := asked + [request];
    }
  }

  /** The octets of an answer that fit the buffer. */
  function Arrived(answer: Reply, capacity: nat): (octets: seq<byte>)
    ensures |octets| <= capacity
  {
    if !answer.Received? then []
    else if |answer.octets| <= capacity then answer.octets
    else answer.octets[..capacity]
  }

  /** A failed read leaves the buffer as it was; otherwise at most the buffer's length arrives. */
  method ReadSocket(reply: Reply, buff: array<byte>) returns (length: int)
    modifies buff
    ensures !reply.Received? ==> length == -1 && buff[..] == old(buff[..])
    ensures reply.Received? ==>
      && length == |Arrived(reply, buff.Length)|
      && buff[..] == Arrived(reply, buff.Length) + old(buff[length..])
  {
    if !reply.Received? {
      return -1;
    }
    length := if |reply.octets| <= buff.Length then |reply.octets| else buff.Length;
    forall i | 0 <= i < length {
      buff[i] := reply.octets[i];
    }
  }

  /** The buffer and unsigned length after a request that was written: without octets the request is still there. */
  predicate Answered(reply: Reply, op: byte, data: seq<byte>, length: nat, rest: seq<byte>) {
    && |data| == BUFFER_SIZE
    && (Arrived(reply, BUFFER_SIZE) == [] ==> data[0] == op)
    && (reply.Received? ==> length == |Arrived(reply, BUFFER_SIZE)| && data == Arrived(reply, BUFFER_SIZE) + rest)
  }

  /**
   * Request from `start`, then read into the same buffer. Only the write's result is tested, so a
   * read that fails or brings nothing leaves the request, whose opcode no decoder accepts.
   */
  method AskFrom(link: Link, op: byte, start: u16, uuid: u16, buff: array<byte>)
    returns (written: int, length: nat, ghost rest: seq<byte>)
    requires buff.Length == BUFFER_SIZE
    modifies link, buff
    ensures link.asked == old(link.asked) + [RangeRequest(op, start, 0xFFFF, uuid)]
    ensures var reply := link.server(|old(link.asked)|, RangeRequest(op, start, 0xFFFF, uuid));
      && (written < 0 <==> reply.WriteFails?)
      && (written >= 0 ==> Answered(reply, op, buff[..], length, rest))
  {
    var requestLength := EncRangeRequest(buff, op, start, 0xFFFF, uuid);
    rest := [];
    assert buff[..requestLength] == RangeRequest(op, start, 0xFFFF, uuid);
    var reply := link.Ask(buff[..requestLength]);
    written := if reply.WriteFails? then -1 else requestLength;
    if written < 0 {
      return written, 0, [];
    }
    var received := ReadSocket(reply, buff);
    rest := buff[if received < 0 then 0 else received..];
    // the length is read as unsigned
    length := if received < 0 then 0x1_0000_0000 + received else received;
  }

  // ---------------------------------------------------- characteristics

  /** The loop has stored the first `total` entries and will ask from `start`. */
  predicate Stored(db: seq<Entry>, records: seq<DynChar>, total: nat, start: u16) {
    && ValidDb(db)
    && total <= |db| && total == |records|
    && records == RecordsOf(db)[..total]
    && 1 <= start
    && FirstFrom(db, start, total)
  }

  /** Storing the next page of the database: the place to ask from moves up. */
  lemma {:induction false} StoredStep(db: seq<Entry>, records: seq<DynChar>, total: nat, start: u16, n: nat)
    requires Stored(db, records, total, start) && 1 <= n <= |db| - total
    ensures var next := ToU16(db[total + n - 1].decl as int + 1);
      next > start && Stored(db, records + RecordsOf(db[total..total + n]), total + n, next)
  {
    assert RecordsOf(db)[..total + n] == RecordsOf(db)[..total] + RecordsOf(db[total..total + n]);
    assert db[total + n - 1].decl >= start;
  }

  lemma {:induction false} FirstFromUnique(db: seq<Entry>, start: u16, i: nat, j: nat)
    requires FirstFrom(db, start, i) && FirstFrom(db, start, j)
    ensures i == j
  {
  }

  /** Decoding `data` stores the next entries and moves the start handle up. */
  predicate Extends(db: seq<Entry>, records: seq<DynChar>, total: nat, start: u16, data: seq<byte>, length: nat) {
    && |data| >= 2 && Supported(data, length)
    && var rs, next := Records(data, length), ToU16(LastHandle(data, length) as int + 1);
      next > start && Stored(db, records + rs, total + |rs|, next)
  }

  lemma {:induction false} BatchDecodes(db: seq<Entry>, start: u16, from: nat, n: nat, octets: seq<byte>,
                                        rest: seq<byte>)
    requires Batch(db, start, from, n, octets) && from < |db|
    ensures |octets + rest| >= 2 && Supported(octets + rest, |octets|)
    ensures 1 <= n <= |db| - from && (forall i :: from <= i < from + n ==> db[i].uuid.Valid())
    ensures Records(octets + rest, |octets|) == RecordsOf(db[from..from + n])
    ensures LastHandle(octets + rest, |octets|) == db[from + n - 1].decl
  {
    var page := db[from..from + n];
    TypeResponseRoundTrip(page, rest);
    assert page[n - 1] == db[from + n - 1];
    assert forall i :: from <= i < from + n ==> db[i] == page[i - from];
  }

  lemma {:induction false} BatchExtends(db: seq<Entry>, records: seq<DynChar>, total: nat, start: u16, n: nat,
                                        octets: seq<byte>, rest: seq<byte>)
    requires Stored(db, records, total, start) && total < |db|
    requires Batch(db, start, total, n, octets)
    ensures Extends(db, records, total, start, octets + rest, |octets|)
  {
    BatchDecodes(db, start, total, n, octets, rest);
    DecodedExtends(db, records, total, start, n, octets + rest, |octets|);
  }

  lemma {:induction false} DecodedExtends(db: seq<Entry>, records: seq<DynChar>, total: nat, start: u16, n: nat,
                                          data: seq<byte>, length: nat)
    requires Stored(db, records, total, start) && 1 <= n <= |db| - total
    requires |data| >= 2 && Supported(data, length)
    requires Records(data, length) == RecordsOf(db[total..total + n])
    requires LastHandle(data, length) == db[total + n - 1].decl
    ensures Extends(db, records, total, start, data, length)
  {
    StoredStep(db, records, total, start, n);
  }

  lemma {:induction false} LegalIsBatch(db: seq<Entry>, start: u16, total: nat, octets: seq<byte>) returns (n: nat)
    requires Legal(db, start, octets) && FirstFrom(db, start, total)
    ensures Batch(db, start, total, n, octets)
  {
    var from: nat, size: nat :| Batch(db, start, from, size, octets);
    FirstFromUnique(db, start, from, total);
    n := size;
  }

  /** A round against a conforming server: what is accepted extends the stored prefix, a refusal of a reply ends it. */
  lemma {:induction false} ConformingRound(server: Server, db: seq<Entry>, round: nat, records: seq<DynChar>,
                                           total: nat,
                                           start: u16, data: seq<byte>, length: nat, rest: seq<byte>)
    requires Conforming(server, db) && Stored(db, records, total, start)
    requires Answered(server(round, TypeRequest(start)), OP_READ_BY_TYPE_REQ, data, length, rest)
    ensures Supported(data, length) ==> Extends(db, records, total, start, data, length)
    ensures !Supported(data, length) && server(round, TypeRequest(start)).Received? ==> total == |db|
  {
    var reply := server(round, TypeRequest(start));
    TypeRequestAsks(start);
    if reply.Received? {
      var n := LegalIsBatch(db, start, total, reply.octets);
      if total < |db| {
        BatchExtends(db, records, total, start, n, reply.octets, rest);
      }
    }
  }

  /** One round of the loop: a request, its answer, and what the decoder appends. */
  method FetchPage(link: Link, startHdl: u16, buff: array<byte>, table: array<DynChar>, total: nat)
    returns (written: int, num: int, next: u16, ghost data: seq<byte>, length: nat, ghost rest: seq<byte>)
    requires buff.Length == BUFFER_SIZE && IsTable(table) && total <= TABLE_SIZE
    modifies link, buff, table
    ensures link.asked == old(link.asked) + [TypeRequest(startHdl)]
    ensures num < 0 || total + num <= TABLE_SIZE ==> NbrAttr(table) == old(NbrAttr(table))
    ensures written < 0 <==> link.server(|old(link.asked)|, TypeRequest(startHdl)).WriteFails?
    ensures num == -1 || 1 <= num <= 4
    ensures written < 0 ==> num == -1 && table[..] == old(table[..])
    ensures written >= 0 ==>
      && Answered(link.server(|old(link.asked)|, TypeRequest(startHdl)), OP_READ_BY_TYPE_REQ, data, length, rest)
      && Appended(data, length, old(table[..total]), table[..if num < 0 then total else total + num], num, next)
  {
    ghost var before := table[..total];
    written, length, rest := AskFrom(link, OP_READ_BY_TYPE_REQ, startHdl, CHARAC_UUID, buff);
    data := buff[..];
    if written < 0 {
      return written, -1, startHdl, data, length, rest;
    }
    num, next := DecReadByTypeResponse(buff[..], length, startHdl, table, total);
    assert table[..total] == before;
    if num > 0 {
      assert table[..total + num] == before + Records(data, length);
    }
  }

  /** The decoder's part of a round: the records of the reply, or nothing. */
  predicate Appended(data: seq<byte>, length: nat, before: seq<DynChar>, after: seq<DynChar>, num: int, next: u16) {
    && |data| >= 2
    && num == (if Supported(data, length) then |Records(data, length)| else -1)
    && (num < 0 ==> after == before)
    && (num >= 0 ==> after == before + Records(data, length) && next == ToU16(LastHandle(data, length) as int + 1))
  }

  predicate Ascending(starts: seq<u16>, bound: u16) {
    && (forall i :: 0 <= i < |starts| ==> starts[i] < bound)
    && (forall i, j :: 0 <= i < j < |starts| ==> starts[i] < starts[j])
  }

  /**
   * Against a conforming peer: a prefix is stored, asked for at ascending handles, and a reply refused was the
   * last one.
   */
  ghost predicate Progress(server: Server, db: seq<Entry>, records: seq<DynChar>, total: nat, start: u16,
                           starts: seq<u16>, refused: bool) {
    Conforming(server, db) ==>
      && Stored(db, records, total, start)
      && Ascending(starts, if refused then 0xFFFF else start)
      && (refused && Reliable(server) ==> total == |db|)
  }

  lemma {:induction false} PageAccepted(db: seq<Entry>, before: seq<DynChar>, after: seq<DynChar>, total: nat,
                                        start: u16, num: int, next: u16, data: seq<byte>, length: nat)
    requires Extends(db, before, total, start, data, length)
    requires Appended(data, length, before, after, num, next)
    ensures num >= 0 && next > start && Stored(db, after, total + num, next)
  {
  }

  lemma {:induction false} PageStored(server: Server, db: seq<Entry>, round: nat, before: seq<DynChar>,
                                      after: seq<DynChar>, total: nat,
                                      start: u16, num: int, next: u16, data: seq<byte>, length: nat, rest: seq<byte>)
    requires Conforming(server, db) && Stored(db, before, total, start)
    requires Answered(server(round, TypeRequest(start)), OP_READ_BY_TYPE_REQ, data, length, rest)
    requires Appended(data, length, before, after, num, next)
    ensures num >= 0 ==> next > start && Stored(db, after, total + num, next)
    ensures num < 0 && server(round, TypeRequest(start)).Received? ==> total == |db|
  {
    ConformingRound(server, db, round, before, total, start, data, length, rest);
    if num >= 0 {
      PageAccepted(db, before, after, total, start, num, next, data, length);
    }
  }

  lemma {:induction false} ProgressStep(server: Server, db: seq<Entry>, round: nat, before: seq<DynChar>,
                                        after: seq<DynChar>, total: nat,
                                        start: u16, starts: seq<u16>, num: int, next: u16, data: seq<byte>, length: nat,
                                        rest: seq<byte>)
    requires Progress(server, db, before, total, start, starts, false) && start < 0xFFFF
    requires Answered(server(round, TypeRequest(start)), OP_READ_BY_TYPE_REQ, data, length, rest)
    requires Appended(data, length, before, after, num, next)
    ensures num >= 0 ==> Progress(server, db, after, total + num, next, starts + [start], false)
    ensures num < 0 ==> Progress(server, db, before, total, start, starts + [start], true)
  {
    if Conforming(server, db) {
      PageStored(server, db, round, before, after, total, start, num, next, data, length, rest);
      AscendingStep(starts, start, if num < 0 then 0xFFFF else next);
    }
  }

  /** A request that could not be written ends the run as well. */
  lemma {:induction false} ProgressFails(server: Server, db: seq<Entry>, round: nat, records: seq<DynChar>,
                                         total: nat, start: u16, starts: seq<u16>)
    requires Progress(server, db, records, total, start, starts, false) && start < 0xFFFF
    requires server(round, TypeRequest(start)).WriteFails?
    ensures Progress(server, db, records, total, start, starts + [start], true)
  {
    if Conforming(server, db) {
      AscendingStep(starts, start, 0xFFFF);
    }
  }

  lemma {:induction false} AscendingStep(starts: seq<u16>, start: u16, bound: u16)
    requires Ascending(starts, start) && start < bound
    ensures Ascending(starts + [start], bound)
  {
  }

  /** A round of the loop keeps the invariant. */
  method Round(link: Link, startHdl: u16, buff: array<byte>, table: array<DynChar>, total: nat, ghost db: seq<Entry>,
               ghost starts: seq<u16>)
    returns (written: int, num: int, next: u16)
    requires buff.Length == BUFFER_SIZE && IsTable(table) && total <= TABLE_SIZE && startHdl < 0xFFFF
    requires Progress(link.server, db, table[..total], total, startHdl, starts, false)
    modifies link, buff, table
    ensures link.asked == old(link.asked) + [TypeRequest(startHdl)]
    ensures written < 0 <==> LastFails(link.server, link.asked)
    ensures num == -1 || 1 <= num <= 4
    ensures written < 0 ==> num == -1
    ensures num < 0 || total + num <= TABLE_SIZE ==> NbrAttr(table) == old(NbrAttr(table))
    ensures num >= 0 ==> Progress(link.server, db, table[..total + num], total + num, next, starts + [startHdl], false)
    ensures num < 0 ==> Progress(link.server, db, table[..total], total, startHdl, starts + [startHdl], true)
  {
    ghost var before, round := table[..total], |link.asked|;
    var length;
    ghost var data, rest;
    written, num, next, data, length, rest := FetchPage(link, startHdl, buff, table, total);
    if written >= 0 {
      ghost var after := table[..if num < 0 then total else total + num];
      ProgressStep(link.server, db, round, before, after, total, startHdl, starts, num, next, data, length, rest);
    } else {
      assert table[..total] == before;
      ProgressFails(link.server, db, round, before, total, startHdl, starts);
    }
  }

  /** The memset over the records and their number. */
  method Clear(table: array<DynChar>)
    requires IsTable(table)
    modifies table
    ensures forall i :: 0 <= i < TABLE_SIZE ==> table[i] == DynChar(0, 0, 0)
    ensures NbrAttr(table) == 0
  {
    forall i | 0 <= i < TABLE_SIZE {
      table[i] := DynChar(0, 0, 0);
    }
    table[TABLE_SIZE] := table[TABLE_SIZE].(uuid := 0);
  }

  /** The loop ends with the whole database stored unless the table is full. */
  lemma {:induction false} ProgressEnds(server: Server, db: seq<Entry>, records: seq<DynChar>, total: nat, start: u16,
                                        starts: seq<u16>, refused: bool)
    requires Progress(server, db, records, total, start, starts, refused)
    requires refused || start == 0xFFFF || total > TABLE_SIZE
    ensures Conforming(server, db) ==> total <= |db| && records == RecordsOf(db)[..total] && Ascending(starts, 0xFFFF)
    ensures Conforming(server, db) && Reliable(server) ==> total == |db| || total > TABLE_SIZE
  {
  }

  /**
   * discoverCharacteristics. An overlong listing reaches past the table before the check after the
   * write stops it, and the number of records, stored last, then replaces a UUID.
   */
  method DiscoverCharacteristics(link: Link, table: array<DynChar>, ghost db: seq<Entry>)
    returns (ret: int, ghost starts: seq<u16>)
    requires IsTable(table)
    modifies link, table
    // any peer at all
    ensures link.asked == old(link.asked) + TypeRequests(starts) && 1 <= |starts| <= 101
    ensures ret == if LastFails(link.server, link.asked) then -1 else 0
    ensures NbrAttr(table) as int <= 104 && (ret < 0 ==> NbrAttr(table) == 0)
    // a conforming peer: the table lists a prefix of its database, asked for at ascending handles
    ensures Conforming(link.server, db) ==> Ascending(starts, 0xFFFF)
    ensures Conforming(link.server, db) && ret == 0 ==> Lists(db, table)
    // without transport failures it is the whole database, inside the table exactly when that has at most 100 entries
    ensures Conforming(link.server, db) && Reliable(link.server) ==>
      && ret == 0 && (NbrAttr(table) as int <= 100 <==> |db| <= 100)
      && (|db| <= 100 ==> NbrAttr(table) as int == |db| && table[..|db|] == RecordsOf(db))
  {
    var buff := new byte[BUFFER_SIZE](_ => 0);
    Clear(table);
    var total;
    ghost var end, refused;
    ret, total, starts, end, refused := Collect(link, buff, table, db);
    if ret < 0 {
      ProgressAscends(link.server, db, table[..total], total, end, starts, refused);
      return -1, starts;
    }
    ghost var records := table[..total];
    ProgressEnds(link.server, db, records, total, end, starts, refused);
    StoreNumber(table, total);
    if Conforming(link.server, db) {
      assert forall i :: 0 <= i < |db| ==> db[i].uuid.Valid();
      assert table[..total] == Listing(db, total);
      if total == |db| <= TABLE_SIZE {
        ListingIsPrefix(db, total);
        assert RecordsOf(db)[..total] == RecordsOf(db);
      }
    }
    return 0, starts;
  }

  /** The records the table says it has are what storing their number left of a prefix of the database. */
  predicate Lists(db: seq<Entry>, table: array<DynChar>)
    requires IsTable(table)
    reads table
  {
    && (forall i :: 0 <= i < |db| ==> db[i].uuid.Valid())
    && NbrAttr(table) as int <= |db| && NbrAttr(table) as int <= table.Length
    && table[..NbrAttr(table)] == Listing(db, NbrAttr(table))
  }

  method StoreNumber(table: array<DynChar>, total: nat)
    requires IsTable(table) && total <= TABLE_SIZE + 4
    modifies table
    ensures NbrAttr(table) == total
    ensures var rs := old(table[..total]);
      table[..total] == if total > TABLE_SIZE then rs[TABLE_SIZE := rs[TABLE_SIZE].(uuid := total)] else rs
  {
    table[TABLE_SIZE] := table[TABLE_SIZE].(uuid := total);
  }

  lemma {:induction false} ProgressAscends(server: Server, db: seq<Entry>, records: seq<DynChar>, total: nat,
                                           start: u16, starts: seq<u16>, refused: bool)
    requires Progress(server, db, records, total, start, starts, refused)
    ensures Conforming(server, db) ==> Ascending(starts, 0xFFFF)
  {
  }

  /**
   * The loop: it ends at handle 0xFFFF, on a full table, on a refused reply, or on a request that cannot be
   * written.
   */
  method Collect(link: Link, buff: array<byte>, table: array<DynChar>, ghost db: seq<Entry>)
    returns (ret: int, total: nat, ghost starts: seq<u16>, ghost end: u16, ghost refused: bool)
    requires buff.Length == BUFFER_SIZE && IsTable(table) && NbrAttr(table) == 0
    modifies link, buff, table
    ensures link.asked == old(link.asked) + TypeRequests(starts) && 1 <= |starts| <= TABLE_SIZE + 1
    ensures ret == if LastFails(link.server, link.asked) then -1 else 0
    ensures total <= TABLE_SIZE + 4 && (ret < 0 ==> NbrAttr(table) == 0)
    ensures Progress(link.server, db, table[..total], total, end, starts, refused)
    ensures ret == 0 ==> refused || end == 0xFFFF || total > TABLE_SIZE
  {
    var startHdl: u16 := 1;
    total, starts := 0, [];
    while startHdl != 0xFFFF
      invariant total <= TABLE_SIZE && |starts| <= total && NbrAttr(table) == 0
      invariant link.asked == old(link.asked) + TypeRequests(starts)
      invariant if starts == [] then startHdl == 1 else !LastFails(link.server, link.asked)
      invariant Progress(link.server, db, table[..total], total, startHdl, starts, false)
      decreases TABLE_SIZE - total
    {
      var written, num, next := Round(link, startHdl, buff, table, total, db, starts);
      OneMoreRequest(starts, startHdl);
      starts := starts + [startHdl];
      if written < 0 {
        return -1, total, starts, startHdl, true;
      }
      if num < 0 {
        return 0, total, starts, startHdl, true;
      }
      startHdl := next;
      total := total + num;
      if total > TABLE_SIZE {
        break;
      }
    }
    return 0, total, starts, startHdl, false;
  }

  /** The last request could not be written. */
  predicate LastFails(server: Server, asked: seq<seq<byte>>) {
    asked != [] && server(|asked| - 1, asked[|asked| - 1]).WriteFails?
  }

  /** The requests that ask from these handles in turn. */
  function TypeRequests(starts: seq<u16>): (rs: seq<seq<byte>>)
    ensures |rs| == |starts|
  {
    seq(|starts|, i requires 0 <= i < |starts| => TypeRequest(starts[i]))
  }

  lemma {:induction false} OneMoreRequest(starts: seq<u16>, start: u16)
    ensures TypeRequests(starts + [start]) == TypeRequests(starts) + [TypeRequest(start)]
  {
  }

  // -------------------------------------------------- a conforming peer

  /** The peer that reports one characteristic at a time, and answers any other request with an error. */
  function EntryByEntry(db: seq<Entry>): Server
    requires ValidDb(db)
  {
    (round: nat, request: seq<byte>) =>
      if |request| != 7 || !AsksTypes(request, ReadU16(request, 1)) then Received([OP_ERROR])
      else
        var i := EntryFrom(db, ReadU16(request, 1));
        if i == |db| then Received([OP_ERROR]) else Received(TypeResponse([db[i]]))
  }

  function EntryFrom(db: seq<Entry>, start: u16): (i: nat)
    ensures FirstFrom(db, start, i)
  {
    First(db, (e: Entry) => e.decl >= start)
  }

  /** Lawful and reliable peers exist for every database, so the discovery has something to hold of. */
  lemma {:induction false} EntryByEntryConforms(db: seq<Entry>)
    requires ValidDb(db)
    ensures Conforming(EntryByEntry(db), db) && Reliable(EntryByEntry(db))
  {
    forall round: nat, start: u16, request: seq<byte> | AsksTypes(request, start)
      ensures Legal(db, start, EntryByEntry(db)(round, request).octets)
    {
      EntryAnswer(db, round, start, request);
    }
  }

  lemma {:induction false} EntryAnswer(db: seq<Entry>, round: nat, start: u16, request: seq<byte>)
    requires ValidDb(db) && AsksTypes(request, start)
    ensures Batch(db, start, EntryFrom(db, start), 1, EntryByEntry(db)(round, request).octets)
  {
    var i := EntryFrom(db, start);
    assert ReadU16(request, 1) == start;
    if i < |db| {
      assert db[i..i + 1] == [db[i]];
      TypeResponseLength([db[i]]);
      assert At(db[i].Size(), 1) == At(db[i].Size(), 0) + db[i].Size() && At(db[i].Size(), 0) == 0;
    }
  }

  // ------------------------------------------------------------- services

  /** Primary services by ascending, disjoint handle ranges. */
  predicate ValidServices(db: seq<Service>) {
    && (forall i :: 0 <= i < |db| ==> db[i].uuid.Valid() && 1 <= db[i].start <= db[i].end)
    && (forall i, j :: 0 <= i < j < |db| ==> db[i].end < db[j].start)
  }

  predicate FirstService(db: seq<Service>, start: u16, from: nat) {
    && from <= |db|
    && (forall i :: 0 <= i < from ==> db[i].start < start)
    && (from < |db| ==> db[from].start >= start)
  }

  /** A legal reply to Read By Group Type from `start`: a batch of the next services, or an error. */
  predicate GroupBatch(db: seq<Service>, start: u16, from: nat, n: nat, octets: seq<byte>) {
    && FirstService(db, start, from)
    && (from == |db| ==> octets != [] && octets[0] == OP_ERROR)
    && (from < |db| ==>
         && 1 <= n <= |db| - from
         && OneSize(db[from..from + n])
         && octets == GroupResponse(db[from..from + n])
         && |octets| <= BUFFER_SIZE)
  }

  ghost predicate LegalGroup(db: seq<Service>, start: u16, octets: seq<byte>) {
    exists from: nat, n: nat :: GroupBatch(db, start, from, n, octets)
  }

  function GroupRequest(start: u16): seq<byte> {
    RangeRequest(OP_READ_BY_GROUP_REQ, start, 0xFFFF, PRIM_SVC_UUID)
  }

  /** A Read By Group Type Request for primary services from `start` to the last handle, octet by octet. */
  predicate AsksServices(request: seq<byte>, start: u16) {
    && |request| == 7 && request[0] == 0x10
    && request[1] as int + 0x100 * request[2] as int == start as int
    && request[3] == 0xFF && request[4] == 0xFF
    && request[5] == 0x00 && request[6] == 0x28
  }

  lemma {:induction false} GroupRequestAsks(start: u16)
    ensures AsksServices(GroupRequest(start), start)
  {
  }

  ghost predicate ConformingServices(server: Server, db: seq<Service>) {
    && ValidServices(db)
    && forall round: nat, start: u16, request: seq<byte> ::
         AsksServices(request, start) && server(round, request).Received? ==>
           LegalGroup(db, start, server(round, request).octets)
  }

  /**
   * The next request starts at the last end handle itself, so it moves on unless one service of one attribute
   * sat at `start`.
   */
  lemma {:induction false} ServiceProgress(db: seq<Service>, start: u16, from: nat, n: nat, octets: seq<byte>)
    requires ValidServices(db) && GroupBatch(db, start, from, n, octets) && from < |db|
    ensures db[from + n - 1].end >= start
    ensures db[from + n - 1].end == start <==> n == 1 && db[from].start == db[from].end == start
  {
    if n > 1 {
      assert db[from].end < db[from + n - 1].start;
    }
  }

  lemma {:induction false} LegalIsGroupBatch(db: seq<Service>, start: u16, total: nat, octets: seq<byte>)
    returns (n: nat)
    requires LegalGroup(db, start, octets) && FirstService(db, start, total)
    ensures GroupBatch(db, start, total, n, octets)
  {
    var from: nat, size: nat :| GroupBatch(db, start, from, size, octets);
    n := size;
  }

  lemma {:induction false} GroupBatchDecodes(db: seq<Service>, start: u16, from: nat, n: nat, octets: seq<byte>,
                                             rest: seq<byte>)
    requires GroupBatch(db, start, from, n, octets) && from < |db|
    ensures |octets + rest| >= 2 && GroupSupported(octets + rest, |octets|)
    ensures |octets| - (octets + rest)[1] + 2 >= 0
    ensures ReadU16(octets + rest, |octets| - (octets + rest)[1] + 2) == db[from + n - 1].end
  {
    var page := db[from..from + n];
    GroupResponseRoundTrip(page, rest);
    GroupResponseLength(page);
    assert page[n - 1] == db[from + n - 1];
    assert (octets + rest)[1] == octets[1];
  }

  // ------------------------------------------------ a run of the discovery

  /** The start handle after one round: the last end handle of an acceptable reply, if there is one. */
  function NextGroup(server: Server, round: nat, start: u16): Option<u16> {
    var octets := Arrived(server(round, GroupRequest(start)), BUFFER_SIZE);
    if |octets| >= 2 && GroupSupported(octets, |octets|) && |octets| >= octets[1]
      then Some(ReadU16(octets, |octets| - octets[1] + 2)) else None
  }

  /** A peer as the loop sees it: the next start handle for a round and a start handle, or a refusal. */
  type Answers = (nat, u16) -> Option<u16>

  function AnswersOf(server: Server): Answers {
    (round: nat, start: u16) => NextGroup(server, round, start)
  }

  datatype Ending = Complete | Refused | Exhausted

  /** discoverServices from `start` for at most `budget` rounds, the first being number `round` of the socket. */
  function ServiceRun(next: Answers, round: nat, start: u16, budget: nat): Ending
    decreases budget
  {
    if start == 0xFFFF then Complete
    else if budget == 0 then Exhausted
    else if next(round, start).None? then Refused
    else ServiceRun(next, round + 1, next(round, start).value, budget - 1)
  }

  /** What the decoder makes of the buffer is what the octets that arrived say; the rest of the buffer plays no part. */
  lemma {:induction false} DecodesArrived(server: Server, round: nat, start: u16, data: seq<byte>, length: nat,
                                          rest: seq<byte>)
    requires Answered(server(round, GroupRequest(start)), OP_READ_BY_GROUP_REQ, data, length, rest)
    ensures GroupSupported(data, length) <==> NextGroup(server, round, start).Some?
    ensures GroupSupported(data, length) ==>
      length - data[1] + 2 >= 0 && ReadU16(data, length - data[1] + 2) == NextGroup(server, round, start).value
  {
    var octets := Arrived(server(round, GroupRequest(start)), BUFFER_SIZE);
    if |octets| >= 2 {
      assert data[0] == octets[0] && data[1] == octets[1];
      if GroupSupported(data, length) {
        WholeHoldsOne(octets[1], |octets| - 2);
      }
    }
  }

  lemma {:induction false} WholeHoldsOne(elem: nat, room: nat)
    requires Whole(elem, room) && room > 0
    ensures elem <= room
  {
  }

  /** One round of the loop, against any peer. */
  method GroupRound(link: Link, startHdl: u16, buff: array<byte>) returns (ret: int, next: u16)
    requires buff.Length == BUFFER_SIZE
    modifies link, buff
    ensures link.asked == old(link.asked) + [GroupRequest(startHdl)]
    ensures var answer := AnswersOf(link.server)(|old(link.asked)|, startHdl);
      if answer.Some? then ret == 0 && next == answer.value else ret == -1 && next == startHdl
  {
    ghost var round := |link.asked|;
    var written, length;
    ghost var rest;
    written, length, rest := AskFrom(link, OP_READ_BY_GROUP_REQ, startHdl, PRIM_SVC_UUID, buff);
    if written < 0 {
      return -1, startHdl;
    }
    var data := buff[..];
    DecodesArrived(link.server, round, startHdl, data, length, rest);
    ret, next := DecReadByGroupResponse(data, length, startHdl);
  }

  /** discoverServices, stopped after `budget` rounds: exactly the run above, whatever the peer does. */
  method DiscoverServices(link: Link, budget: nat) returns (ret: int, exhausted: bool)
    modifies link
    ensures exhausted || ret == 0 || ret == -1
    ensures (if exhausted then Exhausted else if ret == 0 then Complete else Refused)
      == ServiceRun(AnswersOf(link.server), |old(link.asked)|, 1, budget)
    ensures exhausted ==> |link.asked| == |old(link.asked)| + budget
  {
    var buff := new byte[BUFFER_SIZE](_ => 0);
    var startHdl: u16, round: nat := 1, 0;
    while startHdl != 0xFFFF
      invariant round <= budget && |link.asked| == |old(link.asked)| + round
      invariant ServiceRun(AnswersOf(link.server), |old(link.asked)|, 1, budget)
        == ServiceRun(AnswersOf(link.server), |link.asked|, startHdl, budget - round)
      decreases budget - round
    {
      if round >= budget {
        return 0, true;
      }
      ret, startHdl := GroupRound(link, startHdl, buff);
      if ret < 0 {
        return -1, false;
      }
      round := round + 1;
    }
    return 0, false;
  }

  // ------------------------------------------- when the discovery ends

  /** No service below handle 0xFFFF is a single attribute. */
  predicate Spread(db: seq<Service>) {
    forall i :: 0 <= i < |db| ==> db[i].start < db[i].end || db[i].end == 0xFFFF
  }

  /** A peer that answers each request lawfully, in whatever batches. */
  ghost predicate AnswersServices(server: Server, db: seq<Service>) {
    ConformingServices(server, db) && Reliable(server)
  }

  /** Services `0..total` were reported, and the last of them ends at `start`. */
  predicate Reported(db: seq<Service>, total: nat, start: u16) {
    && ValidServices(db) && total <= |db|
    && start == (if total == 0 then 1 else db[total - 1].end)
    && (start == 0xFFFF ==> total == |db|)
    && (start < 0xFFFF ==> FirstService(db, start, total))
  }

  /** The end of one of the services from `from` on, or a refusal if there is none. */
  ghost predicate Moved(db: seq<Service>, from: nat, answer: Option<u16>) {
    if from >= |db| then answer == None
    else exists n: nat :: from <= n < |db| && answer == Some(db[n].end)
  }

  ghost predicate Moves(next: Answers, db: seq<Service>) {
    forall round: nat, start: u16, from: nat :: FirstService(db, start, from) ==> Moved(db, from, next(round, start))
  }

  lemma {:induction false} BatchAnswer(server: Server, db: seq<Service>, round: nat, start: u16, from: nat, n: nat)
    requires server(round, GroupRequest(start)).Received?
    requires GroupBatch(db, start, from, n, server(round, GroupRequest(start)).octets)
    ensures NextGroup(server, round, start) == if from == |db| then None else Some(db[from + n - 1].end)
  {
    var octets := server(round, GroupRequest(start)).octets;
    if from < |db| {
      GroupBatchDecodes(db, start, from, n, octets, []);
      assert octets + [] == octets;
    }
  }

  lemma {:induction false} LawfulMoves(server: Server, db: seq<Service>)
    requires AnswersServices(server, db)
    ensures Moves(AnswersOf(server), db)
  {
    forall round: nat, start: u16, from: nat | FirstService(db, start, from)
      ensures Moved(db, from, NextGroup(server, round, start))
    {
      GroupRequestAsks(start);
      var n := LegalIsGroupBatch(db, start, from, server(round, GroupRequest(start)).octets);
      BatchAnswer(server, db, round, start, from, n);
      assert from < |db| ==> from <= from + n - 1 < |db|;
    }
  }

  /** Without single attributes the run ends, with success exactly when the last service reaches handle 0xFFFF. */
  lemma {:induction false} SpreadEnds(next: Answers, db: seq<Service>, round: nat, total: nat, start: u16, budget: nat)
    requires Moves(next, db) && Spread(db) && Reported(db, total, start) && budget >= 0xFFFF - start
    ensures ServiceRun(next, round, start, budget) ==
      if db != [] && db[|db| - 1].end == 0xFFFF then Complete else Refused
    decreases budget
  {
    if start < 0xFFFF {
      assert Moved(db, total, next(round, start));
      if total < |db| {
        var n: nat :| total <= n < |db| && next(round, start) == Some(db[n].end);
        ReportedNext(db, total, start, n);
        SpreadEnds(next, db, round + 1, n + 1, db[n].end, budget - 1);
      }
    }
  }

  lemma {:induction false} ReportedNext(db: seq<Service>, total: nat, start: u16, n: nat)
    requires Spread(db) && Reported(db, total, start) && start < 0xFFFF && total <= n < |db|
    ensures db[n].end > start && Reported(db, n + 1, db[n].end)
  {
    var end := db[n].end;
    assert start <= db[total].start && (n > total ==> db[total].end < db[n].start);
    assert n + 1 < |db| ==> end < db[n + 1].start;
    if end < 0xFFFF {
      forall i | 0 <= i < n + 1 ensures db[i].start < end {
        assert i < n ==> db[i].end < db[n].start;
      }
    }
  }

  lemma {:induction false} LawfulEnds(server: Server, db: seq<Service>, round: nat, budget: nat)
    requires AnswersServices(server, db) && Spread(db) && budget >= 0xFFFF
    ensures ServiceRun(AnswersOf(server), round, 1, budget) ==
      if db != [] && db[|db| - 1].end == 0xFFFF then Complete else Refused
  {
    LawfulMoves(server, db);
    SpreadEnds(AnswersOf(server), db, round, 0, 1, budget);
  }

  /** The peer that reports one service at a time, and answers any other request with an error. */
  function OneByOne(db: seq<Service>): Server
    requires ValidServices(db)
  {
    (round: nat, request: seq<byte>) =>
      if |request| != 7 || !AsksServices(request, ReadU16(request, 1)) then Received([OP_ERROR])
      else
        var i := FirstAt(db, ReadU16(request, 1));
        if i == |db| then Received([OP_ERROR]) else Received(GroupResponse([db[i]]))
  }

  /** The first service from `start` on. */
  function FirstAt(db: seq<Service>, start: u16): (i: nat)
    ensures FirstService(db, start, i)
  {
    First(db, (g: Service) => g.start >= start)
  }

  /** The end of the first service from `start` on. */
  function EndFrom(db: seq<Service>, start: u16): Option<u16> {
    if FirstAt(db, start) == |db| then None else Some(db[FirstAt(db, start)].end)
  }

  lemma {:induction false} OneByOneAnswers(db: seq<Service>, round: nat, start: u16, request: seq<byte>)
    requires ValidServices(db) && AsksServices(request, start)
    ensures OneByOne(db)(round, request).Received?
    ensures GroupBatch(db, start, FirstAt(db, start), 1, OneByOne(db)(round, request).octets)
  {
    var i := FirstAt(db, start);
    assert ReadU16(request, 1) == start;
    if i < |db| {
      SingleBatch(db, start, i);
    }
  }

  lemma {:induction false} SingleBatch(db: seq<Service>, start: u16, i: nat)
    requires ValidServices(db) && i < |db| && FirstService(db, start, i)
    ensures GroupBatch(db, start, i, 1, GroupResponse([db[i]]))
  {
    assert db[i..i + 1] == [db[i]];
    GroupResponseLength([db[i]]);
    assert At(db[i].Size(), 0) == 0;
  }

  /** It is lawful. */
  lemma {:induction false} OneByOneConforms(db: seq<Service>)
    requires ValidServices(db)
    ensures AnswersServices(OneByOne(db), db)
  {
    forall round: nat, start: u16, request: seq<byte> | AsksServices(request, start)
      ensures LegalGroup(db, start, OneByOne(db)(round, request).octets)
    {
      OneByOneAnswers(db, round, start, request);
    }
  }

  /** A single attribute below 0xFFFF stalls a peer of one service at a time: the start handle gets there and stays. */
  lemma {:induction false} SingleAttributeStalls(next: Answers, db: seq<Service>, i: nat, round: nat, start: u16,
                                                 budget: nat)
    requires forall k: nat, from: u16 :: next(k, from) == EndFrom(db, from)
    requires ValidServices(db) && i < |db| && db[i].start == db[i].end < 0xFFFF && start <= db[i].start
    ensures ServiceRun(next, round, start, budget) == Exhausted
    decreases budget
  {
    if budget > 0 {
      var at := FirstAt(db, start);
      assert at <= i && db[at].end <= db[i].start;
      SingleAttributeStalls(next, db, i, round + 1, db[at].end, budget - 1);
    }
  }

  lemma {:induction false} OneByOneNext(db: seq<Service>, round: nat, start: u16)
    requires ValidServices(db)
    ensures NextGroup(OneByOne(db), round, start) == EndFrom(db, start)
  {
    GroupRequestAsks(start);
    OneByOneAnswers(db, round, start, GroupRequest(start));
    BatchAnswer(OneByOne(db), db, round, start, FirstAt(db, start), 1);
  }

  ghost predicate Ends(server: Server, round: nat) {
    exists budget: nat :: ServiceRun(AnswersOf(server), round, 1, budget) != Exhausted
  }

  /**
   * Every lawful peer of a database ends the discovery if and only if no service below 0xFFFF is a single
   * attribute.
   */
  lemma {:induction false} EndsExactlyWhenSpread(db: seq<Service>, round: nat)
    requires ValidServices(db)
    ensures (forall server :: AnswersServices(server, db) ==> Ends(server, round)) <==> Spread(db)
  {
    if Spread(db) {
      forall server | AnswersServices(server, db) ensures Ends(server, round) {
        LawfulEnds(server, db, round, 0xFFFF);
      }
    } else {
      var i :| 0 <= i < |db| && !(db[i].start < db[i].end || db[i].end == 0xFFFF);
      OneByOneConforms(db);
      OneByOneStalls(db, i, round);
    }
  }

  lemma {:induction false} OneByOneStalls(db: seq<Service>, i: nat, round: nat)
    requires ValidServices(db) && i < |db| && db[i].start == db[i].end < 0xFFFF
    ensures !Ends(OneByOne(db), round)
  {
    var next := AnswersOf(OneByOne(db));
    forall k: nat, from: u16
      ensures next(k, from) == EndFrom(db, from)
    {
      OneByOneNext(db, k, from);
    }
    forall budget: nat ensures ServiceRun(next, round, 1, budget) == Exhausted {
      SingleAttributeStalls(next, db, i, round, 1, budget);
    }
  }
}
