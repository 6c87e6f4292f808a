/** The plugin registry of src/plugin-manager.c, with the registration step of src/plugin.c. */
module Plugins {
  import opened Bytes
  import opened Sequences
  import opened LinkedList
  import opened Core

  /** plugin_item_t: the name it was loaded under and the handle dlopen gave. */
  datatype Item = Item(name: string, handle: Option<nat>)

  /** What plugin_register of a loaded library finds: the backend it defines, if any. */
  type Library = nat -> Option<Backend>

  // ------------------------------------------------------- abstract machine

  datatype Plugged = Plugged(items: seq<Item>, core: State)

  /**
   * A call on the library: load with what dlopen returned, unload with whether dlsym found
   * plugin_register and whether dlclose succeeded, or a call of the core.
   */
  datatype PluginCall =
    | Load(name: string, lib: Option<nat>)
    | Unload(name: string, symbol: bool, closed: bool)
    | CoreCall(call: Call)

  function ItemNamed(name: string): Item -> bool {
    (i: Item) => i.name == name
  }

  function FirstItem(items: seq<Item>, name: string): (i: nat)
    ensures i <= |items|
    ensures i < |items| ==> items[i].name == name
    ensures forall k :: 0 <= k < i ==> items[k].name != name
  {
    First(items, ItemNamed(name))
  }

  /** register_plugin: the result of registering the backend is only printed. */
  function Registered(devices: Option<seq<Device>>, s: State, backend: Option<Backend>): State {
    if backend.None? then s else Step(devices, s, Register(backend.value)).0
  }

  function PluginStep(library: Library, devices: Option<seq<Device>>, s: Plugged, c: PluginCall): (Plugged, int) {
    match c
    case Load(name, lib) =>
      if FirstItem(s.items, name) < |s.items| || lib.None? then (s, -1)
      else (Plugged(s.items + [Item(name, lib)], Registered(devices, s.core, library(lib.value))), 0)
    case Unload(name, symbol, closed) =>
      var i := FirstItem(s.items, name);
      if i == |s.items| || !symbol || s.items[i].handle.None? then (s, -1) else
      var core := Registered(devices, s.core, library(s.items[i].handle.value));
      if closed then (Plugged(Without(s.items, i), core), 0) else (s.(core := core), -1)
    case CoreCall(call) =>
      var (core, r) := Step(devices, s.core, call);
      (s.(core := core), r)
  }

  // ------------------------------------------------------------ all runs

  predicate ItemsUnique(items: seq<Item>) {
    forall i, j :: 0 <= i < j < |items| ==> items[i].name != items[j].name
  }

  /** The backend of a library, when it has a name, is in the registry under that name. */
  predicate BackendKnown(library: Library, s: State, item: Item) {
    item.handle.Some? &&
    (library(item.handle.value).Some? && library(item.handle.value).value.name.Some? ==>
      FirstBackend(s.backends, library(item.handle.value).value.name.value) < |s.backends|)
  }

  predicate PluginsSound(library: Library, s: Plugged) {
    && Sound(s.core)
    && ItemsUnique(s.items)
    && forall i :: 0 <= i < |s.items| ==> BackendKnown(library, s.core, s.items[i])
  }

  function PluginRun(library: Library, devices: Option<seq<Device>>, s: Plugged, calls: seq<PluginCall>): Plugged
    decreases |calls|
  {
    if calls == [] then s else PluginRun(library, devices, PluginStep(library, devices, s, calls[0]).0, calls[1..])
  }

  /** A registered name stays registered. */
  lemma {:induction false} KnownStays(devices: Option<seq<Device>>, s: State, c: Call, name: string)
    requires FirstBackend(s.backends, name) < |s.backends|
    ensures FirstBackend(Step(devices, s, c).0.backends, name) < |Step(devices, s, c).0.backends|
  {
    var t := Step(devices, s, c).0;
    var i := FirstBackend(s.backends, name);
    assert t.backends[i] == s.backends[i];
  }

  lemma {:induction false} ItemStaysKnown(library: Library, devices: Option<seq<Device>>, s: State, c: Call, item: Item)
    requires BackendKnown(library, s, item)
    ensures BackendKnown(library, Step(devices, s, c).0, item)
  {
    var b := library(item.handle.value);
    if b.Some? && b.value.name.Some? {
      KnownStays(devices, s, c, b.value.name.value);
    }
  }

  lemma {:induction false} RegisteringMakesKnown(library: Library, devices: Option<seq<Device>>, s: State, item: Item)
    requires item.handle.Some?
    ensures BackendKnown(library, Registered(devices, s, library(item.handle.value)), item)
  {
    var b := library(item.handle.value);
    if b.Some? && b.value.name.Some? {
      var t := Registered(devices, s, b);
      assert FirstBackend(s.backends, b.value.name.value) == |s.backends| ==> t.backends[|s.backends|] == b.value;
    }
  }

  lemma {:induction false} PluginStepKeepsSound(library: Library, devices: Option<seq<Device>>, s: Plugged,
                                                c: PluginCall)
    requires PluginsSound(library, s)
    ensures PluginsSound(library, PluginStep(library, devices, s, c).0)
  {
    var t := PluginStep(library, devices, s, c).0;
    var call :=
      match c
      case CoreCall(call) => call
      case Load(_, lib) => if lib.Some? && library(lib.value).Some?
        then Register(library(lib.value).value) else Disconnect(-1, true)
      case Unload(name, _, _) =>
        var i := FirstItem(s.items, name);
        if i < |s.items| && library(s.items[i].handle.value).Some?
          then Register(library(s.items[i].handle.value).value) else Disconnect(-1, true);
    StepKeepsSound(devices, s.core, call);
    forall i | 0 <= i < |t.items| ensures BackendKnown(library, t.core, t.items[i]) {
      if t.core == s.core && t.items[i] in s.items {
      } else if t.items[i] in s.items {
        ItemStaysKnown(library, devices, s.core, call, t.items[i]);
      } else {
        RegisteringMakesKnown(library, devices, s.core, t.items[i]);
      }
    }
  }

  /** After any sequence of load, unload and library calls both registries are sound. */
  lemma {:induction false} PluginRunKeepsSound(library: Library, devices: Option<seq<Device>>, s: Plugged,
                                               calls: seq<PluginCall>)
    requires PluginsSound(library, s)
    ensures PluginsSound(library, PluginRun(library, devices, s, calls))
    decreases |calls|
  {
    if calls != [] {
      PluginStepKeepsSound(library, devices, s, calls[0]);
      PluginRunKeepsSound(library, devices, PluginStep(library, devices, s, calls[0]).0, calls[1..]);
    }
  }

  /**
   * Unloading calls plugin_register once more, yet in every reachable state that registers
   * nothing: the backend stays in the registry from the load on, and sessions keep running it.
   */
  lemma {:induction false} UnloadLeavesCore(library: Library, devices: Option<seq<Device>>, calls: seq<PluginCall>,
                                            name: string, symbol: bool, closed: bool)
    ensures var s := PluginRun(library, devices, Plugged([], State([], map[])), calls);
      PluginStep(library, devices, s, Unload(name, symbol, closed)).0.core == s.core
  {
    PluginRunKeepsSound(library, devices, Plugged([], State([], map[])), calls);
    var s := PluginRun(library, devices, Plugged([], State([], map[])), calls);
    var i := FirstItem(s.items, name);
    assert i < |s.items| ==> BackendKnown(library, s.core, s.items[i]);
  }

  /** Unloading a plugin just loaded restores the plugin list, whatever else is in it. */
  lemma {:induction false} UnloadUndoesLoad(library: Library, devices: Option<seq<Device>>, s: Plugged, name: string,
                                            lib: Option<nat>)
    requires PluginStep(library, devices, s, Load(name, lib)).1 == 0
    ensures var t := PluginStep(library, devices, s, Load(name, lib)).0;
      var (u, r) := PluginStep(library, devices, t, Unload(name, true, true));
      r == 0 && u.items == s.items
  {
    var t := PluginStep(library, devices, s, Load(name, lib)).0;
    FirstIs(t.items, ItemNamed(name), |s.items|);
    assert Without(t.items, |s.items|) == s.items;
  }

  // ---------------------------------------------------- each call, exactly

  /** Loading succeeds if and only if no plugin has the name and the library opens; the plugin is then the last. */
  lemma {:induction false} LoadExactly(library: Library, devices: Option<seq<Device>>, s: Plugged, name: string,
                                       lib: Option<nat>)
    ensures var (t, r) := PluginStep(library, devices, s, Load(name, lib));
      && (r == 0 <==> lib.Some? && forall i :: 0 <= i < |s.items| ==> s.items[i].name != name)
      && (r == 0 ==> t.items == s.items + [Item(name, lib)] && t.core.live == s.core.live)
      && (r == 0 ==> t.core == if library(lib.value).None? then s.core
                               else Step(devices, s.core, Register(library(lib.value).value)).0)
      && (r != 0 ==> r == -1 && t == s)
  {
  }

  /** Unloading succeeds if and only if a plugin has the name, its library has the entry point, and it closes. */
  lemma {:induction false} UnloadExactly(library: Library, devices: Option<seq<Device>>, s: Plugged, k: nat,
                                         symbol: bool, closed: bool)
    requires k < |s.items| && s.items[k].handle.Some? && forall i :: 0 <= i < k ==> s.items[i].name != s.items[k].name
    ensures var (t, r) := PluginStep(library, devices, s, Unload(s.items[k].name, symbol, closed));
      && (r == 0 <==> symbol && closed) && (r == 0 || r == -1)
      && t.items == (if r == 0 then s.items[..k] + s.items[k + 1..] else s.items)
      && t.core == if !symbol || library(s.items[k].handle.value).None? then s.core
                   else Step(devices, s.core, Register(library(s.items[k].handle.value).value)).0
  {
    FirstIs(s.items, ItemNamed(s.items[k].name), k);
  }

  lemma {:induction false} UnknownUnload(library: Library, devices: Option<seq<Device>>, s: Plugged, name: string,
                                         symbol: bool, closed: bool)
    requires forall i :: 0 <= i < |s.items| ==> s.items[i].name != name
    ensures PluginStep(library, devices, s, Unload(name, symbol, closed)) == (s, -1)
  {
  }

  // ------------------------------------------------- closed libraries

  /** The registry's backend of the name that the library's backend has is the library's own. */
  predicate Held(library: Library, s: State, lib: nat) {
    && library(lib).Some? && library(lib).value.name.Some?
    && var i := FirstBackend(s.backends, library(lib).value.name.value);
      i < |s.backends| && s.backends[i] == library(lib).value
  }

  /** No loaded plugin refers to the library. */
  predicate Closed(s: Plugged, lib: nat) {
    forall i :: 0 <= i < |s.items| ==> s.items[i].handle != Some(lib)
  }

  lemma {:induction false} RegistryGrows(library: Library, devices: Option<seq<Device>>, s: Plugged,
                                         calls: seq<PluginCall>)
    ensures s.core.backends <= PluginRun(library, devices, s, calls).core.backends
    decreases |calls|
  {
    if calls != [] {
      StepGrows(library, devices, s, calls[0]);
      RegistryGrows(library, devices, PluginStep(library, devices, s, calls[0]).0, calls[1..]);
    }
  }

  lemma {:induction false} StepGrows(library: Library, devices: Option<seq<Device>>, s: Plugged, c: PluginCall)
    ensures s.core.backends <= PluginStep(library, devices, s, c).0.core.backends
  {
  }

  /** The first backend of a name stays the first, whatever is added behind it. */
  lemma {:induction false} FirstStays(bs: seq<Backend>, longer: seq<Backend>, name: string)
    requires bs <= longer && FirstBackend(bs, name) < |bs|
    ensures FirstBackend(longer, name) == FirstBackend(bs, name)
  {
    assert forall k :: 0 <= k < |bs| ==> longer[k] == bs[k];
    FirstIs(longer, Named(name), FirstBackend(bs, name));
  }

  /**
   * After a load and any calls that follow, closing the library among them, the registry holds the
   * library's backend exactly when it has a name that was free at loading, or that it already held.
   */
  lemma {:induction false} HeldExactly(library: Library, devices: Option<seq<Device>>, s: Plugged, name: string,
                                       lib: nat, after: seq<PluginCall>)
    requires PluginStep(library, devices, s, Load(name, Some(lib))).1 == 0
    ensures var t := PluginStep(library, devices, s, Load(name, Some(lib))).0;
      var v := PluginRun(library, devices, t, after);
      Held(library, v.core, lib) <==>
        && library(lib).Some? && library(lib).value.name.Some?
        && (|| FirstBackend(s.core.backends, library(lib).value.name.value) == |s.core.backends|
            || Held(library, s.core, lib))
  {
    var t := PluginStep(library, devices, s, Load(name, Some(lib))).0;
    RegistryGrows(library, devices, t, after);
    if library(lib).Some? && library(lib).value.name.Some? {
      var b := library(lib).value;
      if FirstBackend(s.core.backends, b.name.value) == |s.core.backends| {
        FirstIs(t.core.backends, Named(b.name.value), |s.core.backends|);
      }
      FirstStays(t.core.backends, PluginRun(library, devices, t, after).core.backends, b.name.value);
    }
  }

  /** An unload closes the library unless another plugin was loaded from it. */
  lemma {:induction false} UnloadCloses(library: Library, devices: Option<seq<Device>>, s: Plugged, name: string,
                                        lib: nat)
    requires PluginStep(library, devices, s, Unload(name, true, true)).1 == 0
    requires s.items[FirstItem(s.items, name)].handle == Some(lib)
    ensures Closed(PluginStep(library, devices, s, Unload(name, true, true)).0, lib)
       <==> forall i :: 0 <= i < |s.items| && i != FirstItem(s.items, name) ==> s.items[i].handle != Some(lib)
  {
    NoneLeft(s.items, FirstItem(s.items, name), lib);
  }

  lemma {:induction false} NoneLeft(items: seq<Item>, k: nat, lib: nat)
    requires k < |items|
    ensures (forall i :: 0 <= i < |Without(items, k)| ==> Without(items, k)[i].handle != Some(lib))
       <==> forall i :: 0 <= i < |items| && i != k ==> items[i].handle != Some(lib)
  {
    var left := Without(items, k);
    if i :| 0 <= i < |items| && i != k && items[i].handle == Some(lib) {
      assert left[if i < k then i else i - 1] == items[i];
    }
    if j :| 0 <= j < |left| && left[j].handle == Some(lib) {
      assert items[if j < k then j else j + 1] == left[j];
    }
  }

  /** A connect to a device of that name then binds the functions of the library, closed or not. */
  lemma {:induction false} HeldIsBound(library: Library, devices: seq<Device>, s: State, lib: nat, name: string)
    requires Held(library, s, lib)
    requires Step(Some(devices), s, Connect(name, true)).1 >= 0
    requires devices[FirstDevice(devices, name)].backend == library(lib).value.name.value
    ensures var (t, h) := Step(Some(devices), s, Connect(name, true));
      h in t.live && t.live[h] == BoundTo(devices[FirstDevice(devices, name)], library(lib).value)
  {
  }

  // ------------------------------------------------------- the manager

  class Manager {
    const core: Sensact
    const heap: Heap
    const items: List<Item>
    const pluginItem: Box<Item>   // the global every load fills in
    const library: Library

    ghost predicate Valid()
      reads this, heap, items, items.nodes, items.boxes, pluginItem
      reads core, core.heap, core.backends, core.backends.nodes, core.backends.boxes, core.session
    {
      && core.Valid() && !core.locked
      && heap != core.heap && ListValid()
    }

    ghost function Abstract(): Plugged
      reads this, items, items.boxes
      reads core, core.heap, core.backends, core.backends.boxes, core.session
      requires Consistent(core.session[..])
    {
      Plugged(items.Contents(), core.Abstract())
    }

    /** plugin_manager_start */
    constructor (core: Sensact, library: Library)
      requires core.Valid() && !core.locked
      ensures Valid() && this.core == core && this.library == library
      ensures Abstract() == Plugged([], core.Abstract())
    {
      var h := new Heap();
      var list := new List<Item>(h);
      var item := new Box(Item("", None));
      this.core, heap, items, pluginItem, this.library := core, h, list, item, library;
    }

    /** register_plugin */
    method RegisterPlugin(backend: Option<Backend>)
      requires Valid()
      modifies core`locked, core.heap, core.backends, core.backends.nodes
      ensures Valid() && items.Contents() == old(items.Contents()) && items.nodes == old(items.nodes)
      ensures core.Abstract() == Registered(core.devices, old(core.Abstract()), backend)
    {
      if backend.Some? {
        var b := new Box(backend.value);
        var status := core.RegisterBackend(b);
      }
    }

    ghost predicate ListValid()
      reads this, heap, items, items.nodes, items.boxes, pluginItem
    {
      && items.Valid(heap) && pluginItem !in items.boxes
      && (forall i :: 0 <= i < |items.boxes| ==> items.boxes[i].value.handle.Some?)
    }

    /** The search loop of both operations; the iterator stops on the match. */
    method Find(name: string) returns (found: Box?<Item>, current: Node?<Item>, ghost k: nat)
      requires Valid()
      modifies heap
      ensures Valid() && Abstract() == old(Abstract()) && items.nodes == old(items.nodes)
      ensures k == FirstItem(items.Contents(), name)
      ensures if k == |items.nodes| then found == null else found == items.boxes[k] && current == items.nodes[k]
    {
      var iter;
      found, iter, k := Search(items, heap, ItemNamed(name));
      FirstIs(items.Contents(), ItemNamed(name), k);
      current := iter.current;
    }

    /** The list side of plugin_load: fill in the global, look for the name, copy the global into the list. */
    method Enlist(name: string, lib: Option<nat>) returns (added: bool)
      requires Valid()
      modifies heap, items, items.nodes, pluginItem
      ensures Valid() && core.Abstract() == old(core.Abstract())
      ensures added <==> FirstItem(old(items.Contents()), name) == |old(items.Contents())| && lib.Some?
      ensures items.Contents() == if added then old(items.Contents()) + [Item(name, lib)] else old(items.Contents())
    {
      FillIn(pluginItem.value.(name := name));
      var found, current;
      ghost var k;
      found, current, k := Find(name);
      if found != null {
        return false;
      }
      FillIn(pluginItem.value.(handle := lib));
      if lib.None? {
        return false;
      }
      Append();
      return true;
    }

    /** Writing the global leaves every stored entry as it is. */
    method FillIn(item: Item)
      requires Valid()
      modifies pluginItem
      ensures Valid() && Abstract() == old(Abstract()) && pluginItem.value == item
    {
      pluginItem.value := item;
      assert items.Contents() == old(items.Contents());
    }

    method Append()
      requires Valid() && pluginItem.value.handle.Some?
      modifies heap, items, items.nodes
      ensures Valid() && core.Abstract() == old(core.Abstract())
      ensures items.Contents() == old(items.Contents()) + [pluginItem.value]
      ensures pluginItem.value == old(pluginItem.value)
    {
      ghost var k := |items.boxes|;
      items.Add(heap, pluginItem);
      assert items.Contents()[k] == items.boxes[k].value;
    }

    /** plugin_load. The name must fit the 256 octets of the item, and a new one with the file name's affixes too. */
    method PluginLoad(name: string, lib: Option<nat>) returns (ret: int)
      requires Valid() && |name| <= 255
      requires FirstItem(items.Contents(), name) == |items.Contents()| ==> |name| <= 244
      modifies core`locked, core.heap, core.backends, core.backends.nodes
      modifies heap, items, items.nodes, pluginItem
      ensures Valid()
      ensures (Abstract(), ret) == PluginStep(library, core.devices, old(Abstract()), Load(name, lib))
    {
      var added := Enlist(name, lib);
      if !added {
        return -1;
      }
      RegisterPlugin(library(lib.value));
      return 0;
    }

    /** The list side of plugin_unload: the entry's data is handed over, and never freed. */
    method Delist(current: Node<Item>, ghost k: nat)
      requires Valid() && k < |items.nodes| && items.nodes[k] == current
      modifies heap, items, items.nodes
      ensures Valid() && core.Abstract() == old(core.Abstract())
      ensures items.nodes == Without(old(items.nodes), k) && items.Contents() == Without(old(items.Contents()), k)
    {
      ghost var boxes := items.boxes;
      var data := items.Pluck(heap, current, k);
      assert forall i :: 0 <= i < |items.boxes| ==> items.boxes[i] == boxes[if i < k then i else i + 1];
    }

    /** plugin_unload: the node plucked is the one the iterator stopped on. */
    method PluginUnload(name: string, symbol: bool, closed: bool) returns (ret: int)
      requires Valid()
      modifies core`locked, core.heap, core.backends, core.backends.nodes
      modifies heap, items, items.nodes
      ensures Valid()
      ensures (Abstract(), ret) == PluginStep(library, core.devices, old(Abstract()), Unload(name, symbol, closed))
      ensures ret == 0 ==> items.nodes == Without(old(items.nodes), FirstItem(old(items.Contents()), name))
    {
      var found, current;
      ghost var k;
      found, current, k := Find(name);
      if found == null || !symbol {
        return -1;
      }
      assert items.Contents()[k] == found.value;
      RegisterPlugin(library(found.value.handle.value));
      if !closed {
        return -1;
      }
      Delist(current, k);
      return 0;
    }
  }
}
