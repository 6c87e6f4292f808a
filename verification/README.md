# A verified model of the sensact library

sensact gives programs one interface to sensors and actuators. A program connects to a named
device, which opens a session bound to a backend, and then gets and sets named values over a small
request/response protocol; a Bluetooth Low Energy part finds and reads a TI SensorTag directly.
This project models the parts where the library keeps state or talks to a peer, in the form the C
source has: functions and lemmas for what the source computes, classes and loops for what it
changes in place. `dafny verify dfyconfig.toml` checks all of it.

| file | models | main results |
|---|---|---|
| `LinkedList.dfy` | `src/list.c`, with real `next`/`prev` pointers and a ledger of what is allocated | every operation refines a sequence; traversals yield it forwards and backwards; destruction frees each thing once |
| `Core.dfy` | backend registry and session table, `src/sensact.c` | the table refines a finite map of live handles; dispatch to the one backend of a name over all runs |
| `Plugins.dfy` | plugin registry, `src/plugin-manager.c` | both registries sound after any mix of calls; unload plucks the node found and never disturbs sessions |
| `Packet.dfy` | packets and the packet counter, `src/packet.c` | byte-exact layout, round trip exactly up to 255 octets of name, no stale acceptance |
| `Emulator.dfy` | the emulated devices as protocol server, `src/sensact-emulator.c` | a register file; which registers keep what they are given |
| `Client.dfy` | `send_command` over any session, `src/sensact.c` | n commands recover n responses; a get returns the octets last set, through all layers |
| `EndToEnd.dfy` | library calls from `sa_connect` down to the emulated devices | a get on a handle that `sa_connect` returned gives the octets last set, through dispatch and protocol |
| `GattAtt.dfy` | Attribute Protocol encoders and decoders, `src/ble/gatt_att.c` | decoding inverts encoding; the exact condition for a right write command |
| `Discovery.dfy` | the discovery loops of `src/ble/ble.c` | for any peer: bounds; for a conforming one: the table is its database, and exactly which databases service discovery comes to an end on |
| `SensorTag.dfy` | feature lookup, gyroscope and magnetometer, `src/ble/TI_sensortag.c` | the right handle after discovery; conservation over all runs, and the exact sampling gap up to which the angle stays in range |
| `BleSensors.dfy` | status flags and sensor reads, `src/ble/ble.c` | enable before read in every run |
| `BleUpdate.dfy` | the connection loop, `src/ble/ble_update.c` | five failures exactly before each disconnect; links are conserved; a dead link is given up in time |
| `Bytes.dfy`, `Sequences.dfy`, `Status.dfy` | octets and 16-bit words, linear search, result codes | |

Most files pair a value-level machine (a `Step` function over a state, and a run of it) with a class
whose methods keep the source's fields, loops and exits and are proved to make the same step. What
holds of every run is then proved about the machine.

## How the environment appears

- A peer over Bluetooth is a function from round and request to a reply: the write fails, the read
  fails, or octets arrive. A peer conforms to sections 3.4.4.1, 3.4.4.2, 3.4.4.9 and 3.4.4.10 of
  Vol 3 Part F of the Bluetooth Core Specification when each reply is any legal batch of the next
  entries, or an error after the last.
- A session's `read` and `write` calls are either the emulated server or a stream of octets that may
  be refused or run dry.
- Callbacks of backends, `dlopen` and `dlclose`, scans and connection attempts are parameters that
  say whether they succeeded. Callbacks do not call back into the library.
- What an uninitialised local holds is a parameter (`given`, `stack`, `World.data`, `World.conf`).
- Reals stand for `float` and `double`. Floats in the emulator are 32-bit patterns; only their
  conversion to `int` is computed.

## Where the code departs from what one would expect

- A name of 256 octets passes the guard of `create_request_packet`, and its length is stored as 0
  (`src/packet.c:52`, `src/packet.c:78`): `Packet.RequestRoundTrip` holds up to 255.
- `src/include/sensact/packet.h:51` gives the request length as 6 octets and the strings; the header
  has 7. Line 52 allows 518 octets in all; the fields allow more.
- `send_command` answers SA_OK for an error response without a payload (`src/sensact.c:344-374`).
- A get on a handle that does not own the variable succeeds and delivers whatever the payload buffer
  held, because the size is announced for any handle (`src/sensact-emulator.c:408-449`).
- The roll, pitch and yaw setters copy integer octets into a float and convert: only zero survives.
- `list_first` and `list_last` are documented to return NULL on an empty list
  (`src/include/sensact/list.h:70-73`); they read through the null end pointer.
- A backend without a disconnect callback can never be disconnected (`src/sensact.c:280-285`), and a
  failing callback still ends the session with SA_OK.
- `plugin_unload` registers the plugin's backend once more, finds it present, and leaves it there, so
  that later connects bind functions of a closed library (`Plugins.HeldExactly`, `Plugins.HeldIsBound`).
- Disconnecting one emulated device detaches memory that every read of the server still goes through:
  until it is brought up again no packet is exchanged with any emulated device
  (`EndToEnd.ServedExactly`, `EndToEnd.CloseStopsAll`).
- `EncWriteCommand` advances index, length and data pointer together and copies every second octet.
- The characteristics table is checked after it was written, with `>`: up to 104 records are stored.
  `nbr_attr` follows the hundredth record (`src/ble/gatt_att.h:28-32`), so past 100 records their number
  replaces the UUID of the next one. The table then lists the database exactly when that UUID was that
  very number (`GattAtt.ListingIsPrefix`), and a sensor in that place is not found
  (`SensorTag.LookupAfterDiscovery`).
- Service discovery asks again from the last end handle itself. It ends against every conforming peer
  of a database exactly when no service below handle 0xFFFF is a single attribute; a peer that
  reports such a service alone is asked for it for ever (`Discovery.EndsExactlyWhenSpread`).
- `find_att_handle` succeeds for a known feature that was not discovered, leaving the handle unset.
- An empty attribute value, legal in the protocol, is refused; a notification about any handle is
  taken for the answer to a read.
- `ble_get_string` hands out the answer with its opcode in front.
- The humidity sensor has no status flag, so reading it fails before anything is sent.
- The gyroscope overwrites the previous rate before it is used, and the first sample never counts.
- A failed discovery goes back to waiting without closing its socket.
- A handler that refuses its payload is ignored, so zeroes are published as angles.

## Model

| member | source | states |
|---|---|---|
| LinkedList.List.constructor | src/list.c:27-34 | a new list stands for the empty sequence |
| LinkedList.List.Add | src/list.c:49-67 | appends a fresh copy of the caller's data, which stays the caller's; links both ways, ends and length are right |
| LinkedList.List.Insert | src/list.c:167-196 | inserts after the given node, at the front for NULL, at the end after the last; nothing else moves |
| LinkedList.List.Pluck | src/list.c:198-223 | removes exactly the given node wherever it is, frees the node, hands over its data; NULL does nothing |
| LinkedList.List.Pop | src/list.c:107-123 | removes the last element and returns its data; NULL on an empty list |
| LinkedList.List.Poll | src/list.c:125-143 | removes the first element and returns its data; NULL on an empty list |
| LinkedList.List.Remove | src/list.c:145-153 | drops the element at the named end with its data; any other flag, or an empty list, changes nothing |
| LinkedList.List.First | src/list.c:99-101 | the data of the first node, for a non-empty list |
| LinkedList.List.Last | src/list.c:103-105 | the data of the last node, for a non-empty list |
| LinkedList.List.Destroy | src/list.c:155-165 | exactly the nodes, the copies and the list leave the ledger; freeing one twice would violate a precondition |
| LinkedList.List.Iterator | src/list.c:36-47 | an iterator not yet started on the first or the last node; NULL for another flag |
| LinkedList.Iter.Current | src/list.c:69-73 | the data under a started iterator, NULL off the list |
| LinkedList.Iter.Next | src/list.c:75-85 | the first call starts, later ones move on, and off the end it stays |
| LinkedList.Iter.Prev | src/list.c:87-97 | the same, backwards |
| LinkedList.FrontTraversal | src/list.c:75-85 | calls of list_next from a FRONT iterator return the sequence |
| LinkedList.BackTraversal | src/list.c:87-97 | calls of list_prev from a BACK iterator return its reverse |
| LinkedList.Search | src/sensact.c:117-125 | the search loop of the registries stops on the first match and leaves the iterator on its node |
| LinkedList.BypassedIsThreaded | src/list.c:198-218 | with one node bypassed, next and prev are mutually inverse on the rest |
| LinkedList.SplicedIsThreaded | src/list.c:185-194 | with one node spliced in, next and prev are mutually inverse again |
| LinkedList.WithAt | src/list.c:167-196 | an insertion keeps every other element, in its order |
| LinkedList.WithoutAt | src/list.c:198-223 | a removal keeps every other element, in its order |
| LinkedList.OffTheEnd | src/list.c:75-97 | off the end an iterator gives nothing and stays |
| Core.Sensact.RegisterBackend | src/sensact.c:105-136 | a nameless or known backend is refused and changes nothing, another is appended; each of the three exits under the lock gives the mutex back |
| Core.Sensact.Connect | src/sensact.c:158-273 | the machine's connect: the lowest free handle bound to the device's backend, or -1 with every live session as it was; the success exit and the shared error exit each give the mutex back |
| Core.Sensact.Disconnect | src/sensact.c:275-293 | the machine's disconnect: exactly that session ends, or SA_ERROR and nothing changes; each exit under the lock gives the mutex back |
| Core.Sensact.FindFree | src/sensact.c:176-184 | the least index not in use, or 40 |
| Core.Sensact.FindDevice | src/sensact.c:192-201 | the first registered device of that name |
| Core.Sensact.FindBackend | src/sensact.c:213-222 | the first backend of that name in the list, or NULL |
| Core.Sensact.Target | src/sensact.c:407-425 | a library call on a live handle runs the function the session was bound to |
| Core.RunKeepsSound | src/sensact.c:158-273 | after any calls, names are distinct, handles lie below 40, and each session is bound to the one backend its device names |
| Core.Dispatch | src/sensact.c:239-253 | every operation of a live session is its backend's override if there is one and the default otherwise, for all ten operations and all runs |
| Core.ConnectExactly | src/sensact.c:158-273 | a handle if and only if devices are registered, an index below 40 is free, the name leads to a device and its backend, and the connect callback succeeds; else -1 and no change |
| Core.ConnectBinds | src/sensact.c:232-268 | the handle is the lowest free one, no other session changes, and device, disconnect, read, write and all ten operations are those of the device and its backend |
| Core.SessionsRunTheirBackend | src/sensact.c:232-237 | in every run a live session's read, write and disconnect are those of the backend its device names |
| Core.RegisterExactly | src/sensact.c:105-136 | success if and only if the backend has a name that no other has |
| Core.DisconnectExactly | src/sensact.c:275-293 | success if and only if the session is live and brought a callback, whatever that answers |
| Core.DeadUntilReturned | src/sensact.c:275-293 | a handle that is not live stays dead, and disconnecting it fails, until a connect returns it |
| Core.SecondDisconnectFails | src/sensact.c:280-289 | whatever happens in between, a second disconnect fails unless the handle was handed out again |
| Core.DisconnectUndoesConnect | src/sensact.c:275-293 | disconnecting right after connecting restores the state exactly when the backend brought a disconnect callback; the handle was the lowest free one |
| Plugins.Manager.PluginLoad | src/plugin-manager.c:69-127 | the machine's load, on the pointer list: a name already loaded or a library that does not open changes nothing but the scratch item |
| Plugins.Manager.PluginUnload | src/plugin-manager.c:129-184 | the machine's unload; on success the node plucked is the one the iterator stopped on |
| Plugins.Manager.FillIn | src/plugin-manager.c:79-80 | filling in the global item again alters no stored entry |
| Plugins.Manager.RegisterPlugin | src/plugin.c:40-52 | registers the plugin's backend, if it has one, and leaves the plugin list alone |
| Plugins.PluginRunKeepsSound | src/plugin-manager.c:69-184 | after any mix of load, unload and library calls, plugin names and backend names are distinct and every loaded plugin's backend is known |
| Plugins.UnloadLeavesCore | src/plugin-manager.c:157-164 | calling plugin_register again at unload changes neither registry nor sessions, in every reachable state |
| Plugins.LoadExactly | src/plugin-manager.c:69-127 | success if and only if no plugin has the name and the library opens; the plugin is then the last and its backend registered |
| Plugins.UnloadExactly | src/plugin-manager.c:129-184 | success if and only if the entry point is found and the library closes; exactly the plugin of that name goes |
| Plugins.UnknownUnload | src/plugin-manager.c:151-155 | a name not loaded is refused and nothing changes |
| Plugins.HeldExactly | src/plugin-manager.c:98-121 | after a load and whatever follows, unloading included, the registry holds the library's backend if and only if it is named and the name was free at loading or held already |
| Plugins.UnloadCloses | src/plugin-manager.c:173-181 | an unload leaves no plugin on the library if and only if no other plugin was loaded from it |
| Plugins.HeldIsBound | src/sensact.c:212-253 | while a library's backend is held, closed or not, a connect to a device of its name binds the library's functions |
| Plugins.UnloadUndoesLoad | src/plugin-manager.c:129-184 | unloading what was just loaded restores the plugin list |
| Packet.Counter.CreateRequest | src/packet.c:41-104 | exact octets of the packet and its length for every known command; no value with a get; failure leaves packet and counter alone; an unknown command sends the fields as they were |
| Packet.RequestPacket.Decode | src/packet.c:152-177 | the fields read back from the struct are those laid out in its octets |
| Packet.RequestPacket.Verify | src/packet.c:138-150 | accepts exactly the packets with the prefix |
| Packet.RequestArrives | src/packet.c:65-103 | the octets of any request within the guards parse to the same command, identifier and value, with a name of 256 octets lost |
| Packet.RequestOctets | src/include/sensact/packet.h:40-48 | the frame of a request octet by octet; no value for the five get commands |
| Packet.ResponseOctets | src/include/sensact/packet.h:54-60 | the frame of a response octet by octet |
| Packet.AcceptedOctets | src/packet.c:106-136 | which six octets pass as a response to a request |
| Packet.RequestRoundTrip | src/include/sensact/packet.h:40-52 | decoding gives back what was encoded if and only if the name has at most 255 octets |
| Packet.ResponsePacket.Create | src/packet.c:179-200 | exact octets of a response and its length; too long a payload is refused and changes nothing |
| Packet.ResponsePacket.Verify | src/packet.c:106-136 | accepts exactly prefix, known response code and matching identifier |
| Packet.CounterCounts | src/packet.c:97-100 | over any run, the counter is the number of packets created modulo 65536; failures consume no identifier |
| Packet.StaleReply | src/packet.c:124-129 | in any run, the reply to one request is accepted for another if and only if a multiple of 65536 requests lies between |
| Packet.RecentRepliesRejected | src/packet.c:124-129 | none of the replies to the previous 65535 requests is accepted for the current one |
| Emulator.Server.Connect | src/sensact-emulator.c:258-289 | a named device appears under the handle with its initial values, other devices untouched; an unknown name changes nothing |
| Emulator.Server.Write | src/sensact-emulator.c:358-404 | exactly the register named, of the device on that handle, for the matching command type, takes the value; identifier and variable are remembered |
| Emulator.Server.Read | src/sensact-emulator.c:456-480 | a read of header size yields the header, one of any other length the whole value of the remembered variable, on the handle that owns it and nowhere else |
| Emulator.Server.Length | src/sensact-emulator.c:408-452 | the size of the variable's register once its device exists, on whatever handle |
| Emulator.EmuSetGet | src/sensact-emulator.c:66-213 | setting one register is seen by reading it and by reading no other |
| Emulator.OnlyZeroSurvivesTheFloat | src/sensact-emulator.c:139-168 | roll, pitch and yaw keep an integer exactly when it is zero, over all 32-bit values |
| Emulator.Truncates | src/sensact-emulator.c:139-168 | the conversion of a float truncates towards zero, over all 32-bit patterns |
| Emulator.InitialValues | src/sensact-emulator/emulator_sensors/sensact_emulator_engine.c:56-66 | the values on connecting, the floats among them by the integers they stand for |
| Emulator.SettableExactly | src/sensact-emulator.c:95-117 | over every name and command: which sets which register |
| Emulator.OwnCallStores | src/sensact-emulator.c:311-352 | each variable is stored by its own call on the handle of its device; no other call or register is affected |
| Emulator.StoredOctets | src/sensact-emulator.c:170-213 | the octets stored are those given, then zeroes |
| Emulator.StoredThroughFloat | src/sensact-emulator.c:139-168 | roll, pitch and yaw store the conversion of the octets given |
| Emulator.AnnouncedExactly | src/sensact-emulator.c:408-452 | the size of each variable by name, zero for an unknown name or device |
| Client.SendCommand | src/sensact.c:305-375 | the outcome of a command on any session: status, value, size, error message, counter and far end, on every exit |
| Client.StreamStatus | src/sensact.c:305-375 | over a stream of any octets: zero is reported if and only if the request was made and written and an answering header is there with an empty payload, or a whole one under the code 0 |
| Client.StreamReport | src/sensact.c:347-369 | value, size and error message: exactly when each is reported, and its octets |
| Client.StreamTaken | src/sensact.c:331-357 | exactly what is sent, what is taken off the stream, and the counter, on every exit |
| Client.RefusedCommand | src/sensact.c:323-328 | a packet that cannot be made reports an error and reaches nobody, on any session |
| Client.UnknownVariable | src/sensact-emulator.c:456-480 | asking an emulated device for an unknown variable succeeds with nothing |
| Client.ReceiveInStep | src/sensact.c:336-374 | the two reads take the matching response off the stream, no octet more or less; a foreign response leaves the stream in step if and only if it had no payload |
| Client.CommandsRecoverResponses | src/sensact.c:305-375 | n commands recover the n responses of a stream in order, across identifier wrap-around, and leave the rest; the result is SA_OK exactly for RSP_OK or an empty payload |
| Client.EmulatedCommand | src/sensact-emulator.c:358-480 | one command through packets to an emulated device and back: what the server keeps and what the caller receives |
| Client.RegisterFile | src/sensact-emulator.c:358-404 | after any run of connects, gets and sets, handles and registers are what an abstract register file says |
| Client.GetReadsRegister | src/sensact.c:305-375 | every get on the owning handle returns the abstract register; on another handle it succeeds with whatever the buffer held |
| Client.GetReturnsLastSet | src/sensact.c:379-459 | a get returns the octets last set by the matching command since the device was connected, for every register not passed through a float |
| EndToEnd.RunsDefaults | src/sensact.c:239-253 | a session of the emulator runs the default call of every operation |
| EndToEnd.CommandCodes | src/include/sensact/packet.h:78-90 | the code each of the ten default calls puts on the wire |
| EndToEnd.UnknownDevice | src/sensact-emulator.c:258-289 | an emulator's device that names none of the three is never connected |
| EndToEnd.OpenedHandle | src/sensact.c:158-273 | a connect to an emulated device returns the lowest free handle, makes it live, has that device work on it and attaches its memory |
| EndToEnd.Composes | src/sensact.c:305-375 | every run of registering, connecting, disconnecting, getting and setting is, to the devices, the history of actions it traces, and a device is detached exactly when the handle it works on is no live session of its kind |
| EndToEnd.ServedExactly | src/sensact-emulator.c:408-452 | a get or set on an emulated device is served if and only if every device ever brought up still has its session, or the packet is refused for its size |
| EndToEnd.CloseStopsAll | src/sensact-emulator.c:291-302 | after disconnecting an emulated device no packet is exchanged on any emulated handle until a connect brings that device up again |
| EndToEnd.GetOnSession | src/sensact.c:407-425 | after any run, a get on the handle a device works on succeeds with the register's value |
| EndToEnd.SetThenGet | src/sensact.c:379-480 | on a handle sa_connect gave out, a get returns the octets last set there by the matching call, whatever calls come between that do not touch the register |
| EndToEnd.MotorExample | src/sensact.c:389-459 | an instance: an engine connected, set to any speed and read back, so that the premises of the round trip can be met |
| GattAtt.EncRangeRequest | src/ble/gatt_att.c:153-173 | each of the seven octets of a Read By Type or Read By Group Type request, the rest of the buffer untouched |
| GattAtt.EncReadRequest | src/ble/gatt_att.c:198-204 | the three octets of a Read Request |
| GattAtt.EncWriteCommand | src/ble/gatt_att.c:175-196 | copies data[2i] to buff[3+2i] and nothing else, yet reports 3 + n octets; the frame is the intended Write Command if and only if the octets skipped were in place |
| GattAtt.WriteCommandOctets | src/ble/gatt_att.c:186-193 | the intended Write Command octet by octet |
| GattAtt.DecReadResponse | src/ble/gatt_att.c:206-231 | where the value of a response or notification lies; anything else, or an empty value, is refused |
| GattAtt.ReadValueRoundTrip | src/ble/gatt_att.c:206-231 | a value encoded in a response or in a notification about any handle is given back unless it is empty |
| GattAtt.AnswerForms | src/ble/gatt_att.c:206-231 | the two answers in octets; any other opcode is refused |
| GattAtt.DecReadByTypeResponse | src/ble/gatt_att.c:39-97 | succeeds exactly on well-formed 7 or 21 octet elements, stores their records and nothing else, and moves the handle past the last; in bounds for any input |
| GattAtt.TypeResponseRoundTrip | src/ble/gatt_att.c:63-96 | for every list of same-format entries and whatever follows in the buffer, decoding the encoded response gives each property, value handle and 16-bit UUID part |
| GattAtt.RecordOctets | src/ble/gatt_att.c:66-88 | property, handle and UUID of every record at their places in the response, all inside it |
| GattAtt.AcceptsEncodings | src/ble/gatt_att.c:54-61 | what the decoder accepts is the encoding of some list of entries, so it accepts nothing else |
| GattAtt.DecReadByGroupResponse | src/ble/gatt_att.c:99-151 | succeeds exactly on well-formed 6 or 20 octet elements and returns the last end handle; in bounds for any input |
| GattAtt.GroupResponseRoundTrip | src/ble/gatt_att.c:121-150 | the decoder of an encoded group response returns the last group's end handle |
| Bytes.ReadOfWritten | src/ble/gatt_att.c:4-18 | the little-endian read undoes the write, wherever the word lies |
| Bytes.LowOctetFirst | src/ble/gatt_att.c:4-37 | the low octet comes first, in words written and read, signed or not |
| Discovery.AskFrom | src/ble/ble.c:271-277 | one request is put to the peer; a read that fails leaves it in the buffer, whose opcode is then what the decoder sees |
| Discovery.TypeRequestAsks | src/ble/ble.c:271 | the request of characteristic discovery in octets: opcode 8, the range to 0xFFFF, type 0x2803 |
| Discovery.GroupRequestAsks | src/ble/ble.c:242 | the request of service discovery in octets: opcode 16, the range to 0xFFFF, type 0x2800 |
| Discovery.DiscoverCharacteristics | src/ble/ble.c:259-297 | any peer: at most 101 requests and 104 records, -1 exactly if the last request could not be written; conforming: requests at ascending handles, and the table lists a prefix of the database in order, with the 101st given the number of records as its UUID if there are more than 100; no transport failure: it is the whole database whenever that has at most 100 entries, and `nbr_attr` exceeds 100 exactly otherwise |
| Discovery.EntryByEntryConforms | src/ble/gatt_att.c:39-97 | for every database there is a lawful and reliable peer: the one that reports a characteristic at a time |
| GattAtt.ListingIsPrefix | src/ble/ble.c:287-291 | what the table lists is a prefix of the database if and only if it has at most 100 records or the UUID overwritten was their number |
| Discovery.StoredStep | src/ble/gatt_att.c:92 | storing the next page moves the start handle up and keeps the table a prefix |
| Discovery.ConformingRound | src/ble/ble.c:270-287 | what is accepted from a conforming peer extends the prefix, and a reply refused comes after the last entry |
| Discovery.ServiceProgress | src/ble/gatt_att.c:148 | the start handle advances unless the reply is a single service of one attribute at the start handle itself |
| Discovery.GroupRound | src/ble/ble.c:241-254 | any peer: one request, and the start handle the octets that arrived name, or a refusal that leaves it |
| Discovery.DiscoverServices | src/ble/ble.c:231-257 | any peer: the loop stopped after a number of rounds ends as the run of start handles does |
| Discovery.LawfulMoves | src/ble/ble.c:250-252 | a conforming peer moves the start handle to the end of some further service, and refuses exactly after the last |
| Discovery.LawfulEnds | src/ble/ble.c:231-257 | if no service below handle 0xFFFF is a single attribute, the run against any conforming reliable peer ends within 65535 rounds, with success exactly when the last service reaches 0xFFFF |
| Discovery.OneByOneConforms | src/ble/gatt_att.c:99-151 | reporting one service at a time is lawful for every database |
| Discovery.SingleAttributeStalls | src/ble/gatt_att.c:148 | a single-attribute service below 0xFFFF, wherever it is in the database, makes such a peer exhaust any number of rounds |
| Discovery.EndsExactlyWhenSpread | src/ble/ble.c:231-257 | every conforming reliable peer of a database ends the discovery if and only if no service below 0xFFFF is a single attribute |
| SensorTag.FindAttHandle | src/ble/TI_sensortag.c:44-77 | -1 exactly for an unknown feature; else the handle of the first record with the row's UUID, or the handle as given, and the handler of the first matching row |
| SensorTag.LookupAfterDiscovery | src/ble/TI_sensortag.c:44-77 | on what a discovery of n characteristics left in the table, a feature gets the value handle of the first one with its UUID other than the 101st, and none if there is no such one among the n |
| SensorTag.SeenFirst | src/ble/TI_sensortag.c:58-66 | the first characteristic with the UUID, once listed, is the one found if and only if it is not the 101st |
| SensorTag.SensorRows | src/ble/TI_sensortag.c:26-42 | each sensor with a status flag has a configuration row beside a data row that has a handler |
| SensorTag.FeatureTable | src/ble/TI_sensortag.c:26-42 | UUIDs and handler of each of the four sensors that can be enabled |
| SensorTag.OtherFeatures | src/ble/TI_sensortag.c:26-42 | those of humidity and the two revisions |
| SensorTag.Gyro.Handle | src/ble/TI_sensortag.c:184-253 | the globals are those of the run of samples handled so far, and while their gaps stay under the threshold the angle returned lies strictly between -360 and 360; a payload of another size changes nothing |
| SensorTag.LeadingZeroTimesAreForgotten | src/ble/TI_sensortag.c:212-221 | samples with time stamp zero at the start leave nothing behind |
| SensorTag.AngleStep | src/ble/TI_sensortag.c:210-246 | each sample adds (3 z[n] + 2 z[n-1] + z[n-2]) dt / 6, with the first sample counted as zero, before wrapping |
| SensorTag.WholeTurns | src/ble/TI_sensortag.c:233-241 | in every run the angle differs from the unwrapped sum by a whole number of turns |
| SensorTag.AngleStaysBounded | src/ble/TI_sensortag.c:194-247 | when the largest rate makes at most a full turn in the longest gap, as for gaps of 1.4 s, the angle stays strictly between -360 and 360 in every run |
| SensorTag.OneTurnSuffices | src/ble/TI_sensortag.c:238-241 | one correction is enough if and only if the sum is within two turns |
| SensorTag.GapThreshold | src/ble/TI_sensortag.c:194-247 | for every bound on the gaps: the angle stays in range in all runs if and only if the largest rate times the bound is at most 360, about 1.4396 s |
| SensorTag.SteadyDrift | src/ble/TI_sensortag.c:233-241 | beyond the threshold a steady rotation keeps the excess of every gap, so it leaves the range |
| SensorTag.MaxRateIsSent | src/ble/TI_sensortag.c:194-197 | the largest rate is that of an actual payload |
| SensorTag.RateOfAxes | src/ble/TI_sensortag.c:194-198 | for every payload the rate is that of the third word, whatever the other two hold |
| SensorTag.AgreesWithFourPoint | src/ble/TI_sensortag.c:210-233 | the step equals the four-point rule written in the code if and only if 2 z[n] = z[n-2] + z[n-3] or no time passed |
| SensorTag.ConstantRate | src/ble/TI_sensortag.c:233-246 | at a constant rate the integral is exact but for half of the first interval and a sixth of the second |
| SensorTag.Compass.Handle | src/ble/TI_sensortag.c:255-289 | the extremes are those of the samples handled so far, and the yaw is that of the last one |
| SensorTag.FieldOfAxes | src/ble/TI_sensortag.c:262-265 | for every payload the field is that of the first word, with its sign turned |
| SensorTag.YawIsLinear | src/ble/TI_sensortag.c:277-280 | the yaw rises linearly from 0 at the minimum towards 180 at the maximum |
| SensorTag.TracksExtremes | src/ble/TI_sensortag.c:269-273 | after any run the maximum is the largest of 0 and all samples, the minimum the smallest of 150 and all positive samples |
| SensorTag.Yaw | src/ble/TI_sensortag.c:277-280 | the yaw lies in [0, 180), is positive exactly strictly between the extremes, and never divides by zero |
| SensorTag.ExtremesReadZero | src/ble/TI_sensortag.c:269-280 | the yaw is zero exactly for samples at or outside the extremes seen before |
| BleSensors.Ble.WriteValue | src/ble/ble.c:321-372 | every frame built by the callers is the intended Write Command of 3 + n octets, because the buffer is zeroed |
| BleSensors.Ble.EnableNotifications | src/ble/ble.c:338-355 | the two-octet payload arrives whole although its second octet is never copied |
| BleSensors.Ble.ReadVal | src/ble/ble.c:299-319 | one Read Request, and the value of the answer where the decoder says it lies |
| BleSensors.Ble.SensorStatus | src/ble/ble.c:402-430 | 1 or 0 for the four sensors with a flag, -1 for any other feature |
| BleSensors.Ble.RaiseStatus | src/ble/ble.c:431-445 | raises the flag of the sensor and no other, and answers -1 |
| BleSensors.Ble.Enable | src/ble/ble.c:471-518 | the sensor's enabling frames go out in order until the socket refuses one |
| BleSensors.Ble.GetFloat | src/ble/ble.c:448-540 | the machine's read: frames, flag and value delivered, on every exit |
| BleSensors.Ble.GetString | src/ble/ble.c:374-396 | the machine's string read: one request, no flag |
| BleSensors.Ble.Discover | src/ble/ble.c:259-297 | after a discovery the records used for lookups are what the table lists of the peer's database, and all of it when undisturbed and at most 100 |
| BleSensors.RunSound | src/ble/ble.c:398-553 | in every run a flag is up exactly when the sensor delivered a value in the present connection, and the log stays orderly |
| BleSensors.EnableBeforeRead | src/ble/ble.c:448-540 | in every run a read request of ble_get_float has an enabling write for that sensor before it in the same connection |
| BleSensors.FlagMeansEnabled | src/ble/ble.c:398-446 | a flag that is up means an enabling write since the last connect or disconnect |
| BleSensors.EnabledOnce | src/ble/ble.c:400-401 | once a sensor has delivered a value, no further configuration write for it in that connection |
| BleSensors.EnableTarget | src/ble/ble.c:468-518 | the enabling write goes to the first characteristic with the configuration UUID, if the listing reached it and it is not the 101st |
| BleSensors.ReadDelivers | src/ble/ble.c:448-540 | over a working connection the value answered reaches the sensor's handler, and the frames sent are the enabling ones, if the flag was down, and one read |
| BleSensors.Unsupported | src/ble/ble.c:428-429 | a feature without a flag sends nothing; a handler called is never null |
| BleSensors.FlaggedFeatures | src/ble/ble.c:402-430 | the four features that have a status flag |
| BleSensors.EnablingFrames | src/ble/ble.c:471-518 | the enabling frames of each sensor octet by octet |
| BleSensors.RefusalEnds | src/ble/ble.c:471-521 | a refused enabling frame ends the call: nothing after it is sent and nothing is read |
| BleSensors.DeliversExactly | src/ble/ble.c:448-540 | a value is delivered if and only if the feature has a flag, its frames were taken unless the flag is up, and the answer carries one; it is that value, for the handler of the data row |
| BleSensors.FlagRaisedExactly | src/ble/ble.c:532-534 | the sensor's flag is raised just then, and no other flag changes |
| BleSensors.StringOfNotification | src/ble/ble.c:393 | of a notification the string lacks the last two octets |
| BleSensors.StringKeepsOpcode | src/ble/ble.c:393 | the string delivered is the answer with its opcode |
| BleUpdate.Updater.Iterate | src/ble/ble_update.c:258-379 | one pass of the loop is one step of the machine, with the discovery as the peer made it |
| BleUpdate.Updater.UpdateLoop | src/ble/ble_update.c:256-379 | any number of passes is a run of the machine, and its invariant holds |
| BleUpdate.RunGood | src/ble/ble_update.c:258-379 | in every run: the state is one of the six, the retry count is below 5 and positive only while reading, failures counted are those since the last success, and pitch and roll are the last reading delivered |
| BleUpdate.LinksBalance | src/ble/ble_update.c:298-303 | links brought up are the present one, those taken down, and those abandoned by a failed discovery |
| BleUpdate.DisconnectAfterFive | src/ble/ble_update.c:340-366 | every disconnect follows exactly five failed reads, the first right after a success or the connection |
| BleUpdate.FiveFailuresDisconnect | src/ble/ble_update.c:340-349 | after five failed reads in a row nothing but a disconnect happens |
| BleUpdate.LoopIsRun | src/ble/ble_update.c:258-379 | every run of the loop is a run of the sensor machine |
| BleUpdate.ConnectsToTarget | src/ble/ble_update.c:269-290 | a pass tries to connect if and only if the scan found the address given, and is connected just if that succeeds too |
| BleUpdate.OnlyTheTarget | src/ble/ble_update.c:269-290 | over every run, connections are tried as often as the device was found, and links come up as often as it also answered |
| BleUpdate.UpFromTarget | src/ble/ble_update.c:273-276 | every link that came up goes back to a pass that found the address given |
| BleUpdate.OnlyAccelerometer | src/ble/ble_update.c:329 | in every run the one sensor asked is the accelerometer |
| BleUpdate.Transitions | src/ble/ble_update.c:258-379 | next state and retry count for each state by number |
| BleUpdate.Effects | src/ble/ble_update.c:258-379 | what a pass does to the sensors' side, state by state |
| BleUpdate.PublishesValue | src/ble/ble_update.c:350-355 | three octets are published as their angles, any other payload as zeroes, a failure not at all |
| BleUpdate.LoopEnablesBeforeReading | src/ble/ble_update.c:325-329 | the loop never asks the accelerometer without having switched it on in the same connection |
| BleUpdate.DeadLinkIsGivenUp | src/ble/ble_update.c:340-366 | from READ with r failures, a dead link is closed and given up in exactly 2 (5 - r) + 1 passes, 11 from none |
| BleUpdate.PublishesInThree | src/ble/ble_update.c:258-358 | with the device in reach and answering, three passes from NOT_CONNECTED publish its angles |

## Left out

- Foreign calls: libusb transfers, dlopen and dlsym themselves, sockets, select, scanning, LED files and shared memory; each appears as a callback or channel that succeeds or fails.
- EndToEnd.Composes: runs in which no get or set runs into detached memory, which C leaves undefined and EndToEnd.ServedExactly delimits; the message sa_set_data sets for more than 1024 octets.
- Changes to the emulator's shared memory by other processes, and its creation failing.
- Plugins.HeldIsBound: names are values, while the registry's name pointers too lead into the library.
- Discovery.DiscoverCharacteristics: what else the storage past the table belongs to.
- Values wider than the local they are copied into by the emulator's setters, and lengths off the wire above the documented limits: taken as preconditions.
- LinkedList.Heap.FreeNode: allocation is a ledger per list; a failing malloc is not modelled, and what list_iterator allocates is never freed, as in the source.
- Plugins.Manager.PluginLoad: a name too long for the 256 octets of the item, or a new one too long for its file name; a library without plugin_register, which the source calls through a null pointer; load and unload callbacks of a plugin.
- Plugins: the global `plugin_item_p` is a scratch variable written before each use, and is a local here.
- Discovery.DiscoverServices: runs for a budget of rounds, since the source's loop need not end; Discovery.EndsExactlyWhenSpread quantifies over all budgets.
- Client.SendCommand: the message buffer's terminator, and its overflow by one octet for an error message of exactly 1024; a stream read delivers all it was asked for or fails.
- Client.GetReturnsLastSet: roll, pitch and yaw, which pass through a float; Emulator.OnlyZeroSurvivesTheFloat says what they keep.
- Emulator.OnlyZeroSurvivesTheFloat: a float outside the range of int converts to the x86 result, where C leaves it open.
- Rounding: gyroscope and magnetometer are proved over reals.
- The temperature, humidity and accelerometer formulas, which need powers, roots and arctangents; the accelerometer's angles are a parameter of the connection loop.
- BleSensors.Ble.Discover: the requests of a discovery are not entered in the log of sensor frames.
- Clocks, sleeps, the update thread and its cancellation; the session mutex is a flag.
- sa_list_backends, the register and unregister stubs, printing, logging, address validation: no state of interest.
