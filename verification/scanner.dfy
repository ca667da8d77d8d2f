/**
 * The integration's Bluetooth scanner (`BLEScanner`): the table of discovered
 * devices and their broadcast counts, the two callback registries, the
 * filter that keeps only advertisements from devices named `Gait…`, the
 * buffer of collected Gait advertisements with its periodic flush, and the
 * flags that say whether scanning, the Bluetooth subscription, the restart
 * timer and the flush task are live.
 *
 * Callbacks are opaque identifiers; calling one is recorded by appending it
 * to a log, so the model states which callbacks were called, how often and
 * with what. Every operation is a pure function on `ScannerState`; the class
 * `BLEScanner` holds the same fields and its methods are proved to compute
 * those functions.
 */
module Scanner {
  import opened Wrappers
  import opened Text

  /** `DEFAULT_ENABLE_SCANNING` */
  const DefaultEnableScanning := true
  /** The prefix a device name needs for its advertisements to be kept. */
  const GaitPrefix := "Gait"

  /** A registered callback function, by identity. */
  type CallbackId = nat

  /** `BluetoothChange`: only advertisements are processed. */
  datatype Change = Advertisement | OtherChange

  /** What Home Assistant reports for one advertisement (`BluetoothServiceInfoBleak`). */
  datatype ServiceInfo = ServiceInfo(
    address: string,
    name: Option<string>,
    localName: Option<string>,
    rssi: int,
    manufacturerData: Option<map<int, seq<bv8>>>,
    serviceData: Option<map<string, seq<bv8>>>,
    serviceUuids: Option<seq<string>>,
    txPower: Option<int>,
    source: string)

  /** The record the scanner keeps for a device, and for each buffered Gait advertisement. */
  datatype DeviceInfo = DeviceInfo(
    address: string,
    name: string,
    rssi: int,
    manufacturerData: map<int, seq<bv8>>,
    serviceData: map<string, seq<bv8>>,
    serviceUuids: seq<string>,
    txPower: Option<int>,
    source: string)

  /** One call of an entity callback, with the device record it was given. */
  datatype EntityCall = EntityCall(callback: CallbackId, device: DeviceInfo)

  /** The scanner's fields; `updateCalls` and `entityCalls` log the callbacks it has called, oldest first. */
  datatype ScannerState = ScannerState(
    devices: map<string, DeviceInfo>,
    broadcastStats: map<string, nat>,
    scanning: bool,
    btCallback: bool,
    restartTimer: bool,
    printTask: bool,
    updateCallbacks: seq<CallbackId>,
    entityCallbacks: seq<CallbackId>,
    gaitData: seq<DeviceInfo>,
    gaitDataStartTime: Option<int>,
    updateCalls: seq<CallbackId>,
    entityCalls: seq<EntityCall>)

  /** The state `__init__` creates. */
  const Initial := ScannerState(map[], map[], false, false, false, false, [], [], [], None, [], [])

  predicate NoDuplicates(s: seq<CallbackId>) {
    forall i, j :: 0 <= i < j < |s| ==> s[i] != s[j]
  }

  /**
   * What every operation keeps: the registries hold no duplicates, devices
   * are filed under their own address, the Gait buffer holds only Gait
   * advertisements and is empty whenever no collection period has started,
   * and the restart timer runs exactly while scanning is on.
   */
  predicate Inv(s: ScannerState) {
    && NoDuplicates(s.updateCallbacks)
    && NoDuplicates(s.entityCallbacks)
    && (forall a :: a in s.devices ==> s.devices[a].address == a)
    && (forall k :: 0 <= k < |s.gaitData| ==> StartsWith(s.gaitData[k].name, GaitPrefix))
    && (s.gaitDataStartTime.None? ==> s.gaitData == [])
    && (s.restartTimer <==> s.scanning)
  }

  // ---------------------------------------------------------------------
  // Callback registries
  // ---------------------------------------------------------------------

  /** `callbacks.append(id)` unless `id in callbacks`. */
  function Registered(callbacks: seq<CallbackId>, id: CallbackId): seq<CallbackId> {
    if id in callbacks then callbacks else callbacks + [id]
  }

  /** `list.remove(id)`: drops the first occurrence. */
  function RemoveFirst(callbacks: seq<CallbackId>, id: CallbackId): seq<CallbackId>
    requires id in callbacks
  {
    if callbacks[0] == id then callbacks[1..] else [callbacks[0]] + RemoveFirst(callbacks[1..], id)
  }

  /** `callbacks.remove(id)` if `id in callbacks`. */
  function Unregistered(callbacks: seq<CallbackId>, id: CallbackId): seq<CallbackId> {
    if id in callbacks then RemoveFirst(callbacks, id) else callbacks
  }

  /** Registering keeps the list duplicate-free, keeps its order, and adds exactly `id`. */
  lemma RegisterAdds(callbacks: seq<CallbackId>, id: CallbackId)
    requires NoDuplicates(callbacks)
    ensures NoDuplicates(Registered(callbacks, id))
    ensures forall x :: x in Registered(callbacks, id) <==> x in callbacks || x == id
    ensures callbacks <= Registered(callbacks, id)
  {
  }

  /** Registering the same callback twice has the effect of registering it once. */
  lemma RegisterIdempotent(callbacks: seq<CallbackId>, id: CallbackId)
    ensures Registered(Registered(callbacks, id), id) == Registered(callbacks, id)
  {
  }

  lemma {:induction false} RemoveFirstMembers(callbacks: seq<CallbackId>, id: CallbackId)
    requires id in callbacks && NoDuplicates(callbacks)
    ensures NoDuplicates(RemoveFirst(callbacks, id))
    ensures forall x :: x in RemoveFirst(callbacks, id) <==> x in callbacks && x != id
  {
    if callbacks[0] != id {
      RemoveFirstMembers(callbacks[1..], id);
      var rest := RemoveFirst(callbacks[1..], id);
      assert callbacks[0] !in rest by {
        assert forall k :: 1 <= k < |callbacks| ==> callbacks[k] != callbacks[0];
      }
    }
  }

  /** After unregistering, the callback is gone and every other one stays; an absent one changes nothing. */
  lemma UnregisterRemoves(callbacks: seq<CallbackId>, id: CallbackId)
    requires NoDuplicates(callbacks)
    ensures NoDuplicates(Unregistered(callbacks, id))
    ensures id !in Unregistered(callbacks, id)
    ensures forall x :: x in Unregistered(callbacks, id) <==> x in callbacks && x != id
    ensures id !in callbacks ==> Unregistered(callbacks, id) == callbacks
  {
    if id in callbacks {
      RemoveFirstMembers(callbacks, id);
    }
  }

  lemma {:induction false} RemoveFirstAppended(callbacks: seq<CallbackId>, id: CallbackId)
    requires id !in callbacks
    ensures id in callbacks + [id] && RemoveFirst(callbacks + [id], id) == callbacks
  {
    if callbacks != [] {
      assert (callbacks + [id])[1..] == callbacks[1..] + [id];
      RemoveFirstAppended(callbacks[1..], id);
      assert callbacks == [callbacks[0]] + callbacks[1..];
    }
  }

  /** Registering a new callback and unregistering it again restores the list exactly. */
  lemma RegisterUnregister(callbacks: seq<CallbackId>, id: CallbackId)
    requires id !in callbacks
    ensures Unregistered(Registered(callbacks, id), id) == callbacks
  {
    RemoveFirstAppended(callbacks, id);
  }

  lemma {:induction false} DistinctOccursOnce(s: seq<CallbackId>, id: CallbackId)
    requires NoDuplicates(s)
    ensures multiset(s)[id] == if id in s then 1 else 0
  {
    if s != [] {
      DistinctOccursOnce(s[1..], id);
      assert s == [s[0]] + s[1..];
      assert s[0] !in s[1..] by {
        assert forall k :: 1 <= k < |s| ==> s[k] != s[0];
      }
    }
  }

  // ---------------------------------------------------------------------
  // Device table and broadcast counts
  // ---------------------------------------------------------------------

  /** `self._broadcast_stats.get(address, 0)` */
  function Count(stats: map<string, nat>, address: string): nat {
    if address in stats then stats[address] else 0
  }

  /** `_update_device`: file the record under its address; a new address notifies every update callback. */
  function DeviceUpdated(s: ScannerState, device: DeviceInfo): ScannerState {
    var isNew := device.address !in s.devices;
    s.(devices := s.devices[device.address := device],
       updateCalls := s.updateCalls + (if isNew then s.updateCallbacks else []))
  }

  /** `_process_device_broadcast`: count the broadcast, then `_update_device`. */
  function BroadcastProcessed(s: ScannerState, device: DeviceInfo): ScannerState {
    var counted := s.(broadcastStats := s.broadcastStats[device.address := Count(s.broadcastStats, device.address) + 1]);
    DeviceUpdated(counted, device)
  }

  /**
   * Storing a device overwrites any earlier record for its address and leaves
   * the others; the update callbacks are called, each exactly once, exactly
   * when the address was not yet known.
   */
  lemma UpdateDeviceNotifiesNew(s: ScannerState, device: DeviceInfo)
    requires Inv(s)
    ensures DeviceUpdated(s, device).devices[device.address] == device
    ensures forall a :: a != device.address ==>
              (a in DeviceUpdated(s, device).devices <==> a in s.devices)
              && (a in s.devices ==> DeviceUpdated(s, device).devices[a] == s.devices[a])
    ensures var r := DeviceUpdated(s, device);
            s.updateCalls <= r.updateCalls
            && forall id :: multiset(r.updateCalls[|s.updateCalls|..])[id]
                            == if device.address !in s.devices && id in s.updateCallbacks then 1 else 0
  {
    var r := DeviceUpdated(s, device);
    var added := r.updateCalls[|s.updateCalls|..];
    if device.address !in s.devices {
      assert added == s.updateCallbacks;
      forall id ensures multiset(added)[id] == if id in s.updateCallbacks then 1 else 0 {
        DistinctOccursOnce(s.updateCallbacks, id);
      }
    } else {
      assert added == [];
    }
  }

  /** A broadcast raises its address's count by exactly one, from zero for a new one, and no other count. */
  lemma BroadcastCountsOne(s: ScannerState, device: DeviceInfo)
    ensures var r := BroadcastProcessed(s, device);
            && Count(r.broadcastStats, device.address) == Count(s.broadcastStats, device.address) + 1
            && (device.address !in s.broadcastStats ==> r.broadcastStats[device.address] == 1)
            && (forall a :: a != device.address ==>
                  (a in r.broadcastStats <==> a in s.broadcastStats) && Count(r.broadcastStats, a) == Count(s.broadcastStats, a))
            && r.devices[device.address] == device
  {
  }

  // ---------------------------------------------------------------------
  // Advertisements from Home Assistant and the Gait buffer
  // ---------------------------------------------------------------------

  /** `service_info.name or service_info.advertisement.local_name or ""` */
  function AdvertisedName(info: ServiceInfo): string {
    if Truthy(info.name) then info.name.value
    else if Truthy(info.localName) then info.localName.value
    else ""
  }

  predicate IsGait(info: ServiceInfo) {
    StartsWith(AdvertisedName(info), GaitPrefix)
  }

  /** `dict(x or {})` */
  function MapOrEmpty<K, V>(m: Option<map<K, V>>): map<K, V> {
    if m.Some? then m.value else map[]
  }

  /** The record `_bt_callback` builds for a Gait advertisement (the same fields go into the buffer). */
  function DeviceRecord(info: ServiceInfo): DeviceInfo {
    DeviceInfo(
      info.address,
      AdvertisedName(info),
      info.rssi,
      MapOrEmpty(info.manufacturerData),
      MapOrEmpty(info.serviceData),
      if info.serviceUuids.Some? then info.serviceUuids.value else [],
      info.txPower,
      info.source)
  }

  /** The calls made when each callback in `callbacks` is given `device`, in registration order. */
  function EntityCalls(callbacks: seq<CallbackId>, device: DeviceInfo): (r: seq<EntityCall>) {
    if callbacks == [] then [] else [EntityCall(callbacks[0], device)] + EntityCalls(callbacks[1..], device)
  }

  /** What `_bt_callback` does with one report: the new state and the record its `_add_gait_data` task will buffer. */
  datatype Handled = Handled(state: ScannerState, queued: Option<DeviceInfo>)

  function Advertised(s: ScannerState, info: ServiceInfo, change: Change): Handled {
    if change != Advertisement || !IsGait(info) then Handled(s, None)
    else
      var device := DeviceRecord(info);
      Handled(s.(devices := s.devices[info.address := device],
                 entityCalls := s.entityCalls + EntityCalls(s.entityCallbacks, device)),
              Some(device))
  }

  /** Anything but an advertisement from a device whose name starts with `Gait` leaves the scanner as it was. */
  lemma NonGaitIgnored(s: ScannerState, info: ServiceInfo, change: Change)
    ensures Advertised(s, info, change).queued.None? <==> change != Advertisement || !IsGait(info)
    ensures Advertised(s, info, change).queued.None? ==> Advertised(s, info, change).state == s
  {
  }

  lemma {:induction false} EntityCallsShape(callbacks: seq<CallbackId>, device: DeviceInfo)
    ensures |EntityCalls(callbacks, device)| == |callbacks|
    ensures forall k :: 0 <= k < |callbacks| ==> EntityCalls(callbacks, device)[k] == EntityCall(callbacks[k], device)
  {
    if callbacks != [] {
      EntityCallsShape(callbacks[1..], device);
    }
  }

  /**
   * A Gait advertisement overwrites the device's record, calls every entity
   * callback once, in registration order, with that record, calls no update
   * callback, and queues the same record for the buffer.
   */
  lemma GaitAdvertisementNotifies(s: ScannerState, info: ServiceInfo)
    requires IsGait(info)
    ensures var h := Advertised(s, info, Advertisement);
            && h.state.devices == s.devices[info.address := DeviceRecord(info)]
            && StartsWith(DeviceRecord(info).name, GaitPrefix)
            && h.queued == Some(DeviceRecord(info))
            && h.state.updateCalls == s.updateCalls
            && s.entityCalls <= h.state.entityCalls
            && |h.state.entityCalls| == |s.entityCalls| + |s.entityCallbacks|
            && forall k :: 0 <= k < |s.entityCallbacks| ==>
                 h.state.entityCalls[|s.entityCalls| + k] == EntityCall(s.entityCallbacks[k], DeviceRecord(info))
  {
    EntityCallsShape(s.entityCallbacks, DeviceRecord(info));
  }

  /** `_add_gait_data`: start the collection period if none is running, then buffer the record. */
  function GaitAdded(s: ScannerState, entry: DeviceInfo, now: int): ScannerState {
    var start := if s.gaitDataStartTime.None? then Some(now) else s.gaitDataStartTime;
    s.(gaitDataStartTime := start, gaitData := s.gaitData + [entry])
  }

  /** `_print_gait_data_after_delay`: end the period and empty the buffer; nothing if no period is running. */
  function Flushed(s: ScannerState): ScannerState {
    if s.gaitDataStartTime.None? then s
    else s.(gaitData := [], gaitDataStartTime := None, printTask := false)
  }

  /** Buffering appends exactly one entry, and a period is running afterwards, started now if it was not. */
  lemma GaitAddAppends(s: ScannerState, entry: DeviceInfo, now: int)
    ensures var r := GaitAdded(s, entry, now);
            && r.gaitData == s.gaitData + [entry]
            && r.gaitDataStartTime.Some?
            && (s.gaitDataStartTime.Some? ==> r.gaitDataStartTime == s.gaitDataStartTime)
            && (s.gaitDataStartTime.None? ==> r.gaitDataStartTime == Some(now))
            && r.(gaitData := s.gaitData, gaitDataStartTime := s.gaitDataStartTime) == s
  {
  }

  /** A flush leaves an empty buffer and no period; with no period running it changes nothing. */
  lemma FlushEmpties(s: ScannerState)
    requires Inv(s)
    ensures Flushed(s).gaitData == [] && Flushed(s).gaitDataStartTime.None?
    ensures s.gaitDataStartTime.None? ==> Flushed(s) == s
  {
  }

  /** The entries buffered since the last flush are exactly the ones added, in order. */
  lemma FlushAfterAdds(s: ScannerState, entries: seq<DeviceInfo>, now: int)
    requires Inv(s) && s.gaitDataStartTime.None?
    ensures AddAll(s, entries, now).gaitData == entries
    ensures entries != [] ==> Flushed(AddAll(s, entries, now)).gaitData == [] && AddAll(s, entries, now).gaitDataStartTime == Some(now)
  {
    AddAllBuffers(s, entries, now);
  }

  /** Buffering each of `entries` in turn at time `now`. */
  function AddAll(s: ScannerState, entries: seq<DeviceInfo>, now: int): ScannerState
    decreases |entries|
  {
    if entries == [] then s else AddAll(GaitAdded(s, entries[0], now), entries[1..], now)
  }

  lemma {:induction false} AddAllBuffers(s: ScannerState, entries: seq<DeviceInfo>, now: int)
    ensures AddAll(s, entries, now).gaitData == s.gaitData + entries
    ensures entries != [] && s.gaitDataStartTime.None? ==> AddAll(s, entries, now).gaitDataStartTime == Some(now)
    ensures s.gaitDataStartTime.Some? ==> AddAll(s, entries, now).gaitDataStartTime == s.gaitDataStartTime
    decreases |entries|
  {
    if entries != [] {
      var t := GaitAdded(s, entries[0], now);
      AddAllBuffers(t, entries[1..], now);
      assert s.gaitData + entries == t.gaitData + entries[1..];
    }
  }

  // ---------------------------------------------------------------------
  // Scanning on and off
  // ---------------------------------------------------------------------

  /** `_start_scanning`: subscribe to advertisements and start the restart timer, unless already scanning. */
  function Started(s: ScannerState): ScannerState {
    if s.scanning then s else s.(scanning := true, btCallback := true, restartTimer := true)
  }

  /** `async_setup` with the entry's `enable_scanning` option, if set. */
  function SetUp(s: ScannerState, enableScanning: Option<bool>): ScannerState {
    var enabled := if enableScanning.Some? then enableScanning.value else DefaultEnableScanning;
    if !enabled then s else Started(s)
  }

  /**
   * The timer tick `_restart_scan_periodically`: drop the subscription and
   * start the flush task (and the `_restart_scan` task, which is `Rescanned`);
   * nothing when scanning is off.
   */
  function RestartTicked(s: ScannerState): ScannerState {
    if !s.scanning then s else s.(btCallback := false, printTask := true)
  }

  /** `_restart_scan`: subscribe to advertisements again. */
  function Rescanned(s: ScannerState): ScannerState {
    s.(btCallback := true)
  }

  /** `async_stop`: scanning off, subscription, flush task and restart timer cancelled. */
  function Stopped(s: ScannerState): ScannerState {
    s.(scanning := false, btCallback := false, printTask := false, restartTimer := false)
  }

  /** Starting is a no-op when already scanning, and otherwise leaves scanning on and subscribed. */
  lemma StartWhenScanning(s: ScannerState)
    requires Inv(s)
    ensures s.scanning ==> Started(s) == s
    ensures Started(s).scanning && Started(s).restartTimer
    ensures !s.scanning ==> Started(s).btCallback
    ensures Started(Started(s)) == Started(s)
  {
  }

  /** Setup starts scanning unless the option switches it off; by default it is on. */
  lemma SetUpScans(s: ScannerState, enableScanning: Option<bool>)
    ensures SetUp(s, enableScanning).scanning <==> s.scanning || enableScanning != Some(false)
    ensures enableScanning == Some(false) ==> SetUp(s, enableScanning) == s
  {
  }

  /** After stopping, nothing is live; the periodic restart then does nothing. */
  lemma StopSilences(s: ScannerState)
    ensures var r := Stopped(s);
            !r.scanning && !r.btCallback && !r.printTask && !r.restartTimer
    ensures RestartTicked(Stopped(s)) == Stopped(s)
    ensures Stopped(s).devices == s.devices && Stopped(s).gaitData == s.gaitData
  {
  }

  /** While scanning, a timer tick followed by its restart task leaves the subscription live again. */
  lemma RestartResubscribes(s: ScannerState)
    requires s.scanning
    ensures Rescanned(RestartTicked(s)).btCallback && RestartTicked(s).printTask
    ensures !RestartTicked(s).btCallback
    ensures Rescanned(RestartTicked(s)) == s.(btCallback := true, printTask := true)
  {
  }

  /** Storing and counting devices keep the invariant. */
  lemma DevicesKeepInv(s: ScannerState, device: DeviceInfo)
    requires Inv(s)
    ensures Inv(DeviceUpdated(s, device)) && Inv(BroadcastProcessed(s, device))
  {
  }

  /** Counting a broadcast touches nothing the invariant speaks of. */
  lemma CountingKeepsInv(s: ScannerState, address: string)
    requires Inv(s)
    ensures Inv(s.(broadcastStats := s.broadcastStats[address := Count(s.broadcastStats, address) + 1]))
  {
  }

  /** Handling a report keeps the invariant, and what it queues is a Gait record. */
  lemma AdvertisedKeepsInv(s: ScannerState, info: ServiceInfo, change: Change)
    requires Inv(s)
    ensures Inv(Advertised(s, info, change).state)
    ensures var q := Advertised(s, info, change).queued;
            q.Some? ==> StartsWith(q.value.name, GaitPrefix)
  {
  }

  /** Buffering a Gait record and flushing keep the invariant. */
  lemma BufferKeepsInv(s: ScannerState, entry: DeviceInfo, now: int)
    requires Inv(s)
    ensures StartsWith(entry.name, GaitPrefix) ==> Inv(GaitAdded(s, entry, now))
    ensures Inv(Flushed(s))
  {
  }

  /** Switching scanning on and off keeps the invariant. */
  lemma ScanningKeepsInv(s: ScannerState, enableScanning: Option<bool>)
    requires Inv(s)
    ensures Inv(Started(s)) && Inv(SetUp(s, enableScanning))
    ensures Inv(RestartTicked(s)) && Inv(Rescanned(s)) && Inv(Stopped(s))
  {
  }

  /** The scanner object, its fields updated in place. */
  class BLEScanner {
    var devices: map<string, DeviceInfo>
    var broadcastStats: map<string, nat>
    var scanning: bool
    /** `_cancel_bt_cb` is set: the advertisement callback is subscribed. */
    var btCallback: bool
    /** `_restart_scan_cancel` is set. */
    var restartTimer: bool
    /** `_gait_print_task` is set. */
    var printTask: bool
    var updateCallbacks: seq<CallbackId>
    var entityCallbacks: seq<CallbackId>
    var gaitData: seq<DeviceInfo>
    var gaitDataStartTime: Option<int>
    /** The update callbacks called so far, oldest first. */
    var updateCalls: seq<CallbackId>
    /** The entity callbacks called so far, with their arguments. */
    var entityCalls: seq<EntityCall>

    function State(): ScannerState
      reads this
    {
      ScannerState(devices, broadcastStats, scanning, btCallback, restartTimer, printTask,
                   updateCallbacks, entityCallbacks, gaitData, gaitDataStartTime, updateCalls, entityCalls)
    }

    predicate Valid()
      reads this
    {
      Inv(State())
    }

    constructor()
      ensures State() == Initial && Valid()
    {
      devices := map[];
      broadcastStats := map[];
      scanning := false;
      btCallback := false;
      restartTimer := false;
      printTask := false;
      updateCallbacks := [];
      entityCallbacks := [];
      gaitData := [];
      gaitDataStartTime := None;
      updateCalls := [];
      entityCalls := [];
    }

    method RegisterUpdateCallback(id: CallbackId)
      requires Valid()
      modifies this
      ensures Valid() && State() == old(State()).(updateCallbacks := Registered(old(updateCallbacks), id))
    {
      if id !in updateCallbacks {
        updateCallbacks := updateCallbacks + [id];
      }
    }

    method UnregisterUpdateCallback(id: CallbackId)
      requires Valid()
      modifies this
      ensures Valid() && State() == old(State()).(updateCallbacks := Unregistered(old(updateCallbacks), id))
    {
      UnregisterRemoves(updateCallbacks, id);
      if id in updateCallbacks {
        updateCallbacks := RemoveFirst(updateCallbacks, id);
      }
    }

    method RegisterEntityCallback(id: CallbackId)
      requires Valid()
      modifies this
      ensures Valid() && State() == old(State()).(entityCallbacks := Registered(old(entityCallbacks), id))
    {
      if id !in entityCallbacks {
        entityCallbacks := entityCallbacks + [id];
      }
    }

    method UnregisterEntityCallback(id: CallbackId)
      requires Valid()
      modifies this
      ensures Valid() && State() == old(State()).(entityCallbacks := Unregistered(old(entityCallbacks), id))
    {
      UnregisterRemoves(entityCallbacks, id);
      if id in entityCallbacks {
        entityCallbacks := RemoveFirst(entityCallbacks, id);
      }
    }

    /** `_update_device` */
    method UpdateDevice(device: DeviceInfo)
      requires Valid()
      modifies this
      ensures Valid() && State() == DeviceUpdated(old(State()), device)
    {
      var isNew := device.address !in devices;
      devices := devices[device.address := device];
      if isNew {
        updateCalls := CallUpdateCallbacks(updateCalls, updateCallbacks);
      }
    }

    /** `_process_device_broadcast` */
    method ProcessDeviceBroadcast(device: DeviceInfo)
      requires Valid()
      modifies this
      ensures Valid() && State() == BroadcastProcessed(old(State()), device)
    {
      ghost var s0 := State();
      if device.address !in broadcastStats {
        broadcastStats := broadcastStats[device.address := 0];
      }
      broadcastStats := broadcastStats[device.address := broadcastStats[device.address] + 1];
      CountingKeepsInv(s0, device.address);
      assert State() == s0.(broadcastStats := s0.broadcastStats[device.address := Count(s0.broadcastStats, device.address) + 1]);
      UpdateDevice(device);
    }

    /**
     * `_bt_callback`. The `_add_gait_data` task it creates is returned as the
     * record to buffer; the event loop runs it later as `AddGaitData`.
     */
    method BtCallback(info: ServiceInfo, change: Change) returns (queued: Option<DeviceInfo>)
      requires Valid()
      modifies this
      ensures Valid() && Handled(State(), queued) == Advertised(old(State()), info, change)
    {
      ghost var s0 := State();
      AdvertisedKeepsInv(s0, info, change);
      if change != Advertisement {
        return None;
      }
      var name := if Truthy(info.name) then info.name.value
                  else if Truthy(info.localName) then info.localName.value
                  else "";
      if !StartsWith(name, GaitPrefix) {
        return None;
      }
      var device := DeviceRecord(info);
      devices := devices[info.address := device];
      entityCalls := CallEntityCallbacks(entityCalls, entityCallbacks, device);
      queued := Some(device);
      assert State() == Advertised(s0, info, change).state;
    }

    /** `_add_gait_data`, run for a record `BtCallback` queued, at time `now`. */
    method AddGaitData(entry: DeviceInfo, now: int)
      requires Valid() && StartsWith(entry.name, GaitPrefix)
      modifies this
      ensures Valid() && State() == GaitAdded(old(State()), entry, now)
    {
      if gaitDataStartTime.None? {
        gaitDataStartTime := Some(now);
      }
      if gaitDataStartTime.Some? {
        gaitData := gaitData + [entry];
      }
    }

    /** `_print_gait_data_after_delay` */
    method PrintGaitDataAfterDelay()
      requires Valid()
      modifies this
      ensures Valid() && State() == Flushed(old(State()))
    {
      if gaitDataStartTime.None? {
        return;
      }
      gaitData := [];
      gaitDataStartTime := None;
      printTask := false;
    }

    /** `_start_ha_bluetooth_scanning`: subscribe `_bt_callback` to every advertisement. */
    method StartHaBluetoothScanning()
      modifies this
      ensures State() == old(State()).(btCallback := true)
    {
      btCallback := true;
    }

    /** The `_restart_scan` task. */
    method RestartScan()
      requires Valid()
      modifies this
      ensures Valid() && State() == Rescanned(old(State()))
    {
      StartHaBluetoothScanning();
    }

    /** `_start_scanning` */
    method StartScanning()
      requires Valid()
      modifies this
      ensures Valid() && State() == Started(old(State()))
    {
      if scanning {
        return;
      }
      scanning := true;
      StartHaBluetoothScanning();
      restartTimer := true;
    }

    /** `async_setup` */
    method Setup(enableScanning: Option<bool>)
      requires Valid()
      modifies this
      ensures Valid() && State() == SetUp(old(State()), enableScanning)
    {
      var enabled := if enableScanning.Some? then enableScanning.value else DefaultEnableScanning;
      if !enabled {
        return;
      }
      StartScanning();
    }

    /** `_restart_scan_periodically`; the two tasks it creates are `PrintGaitDataAfterDelay` and `RestartScan`. */
    method RestartScanPeriodically()
      requires Valid()
      modifies this
      ensures Valid() && State() == RestartTicked(old(State()))
    {
      ghost var s0 := State();
      ScanningKeepsInv(s0, None);
      if !scanning {
        return;
      }
      if btCallback {
        btCallback := false;
      }
      printTask := true;
      assert State() == RestartTicked(s0);
    }

    /** `async_stop` */
    method AsyncStop()
      requires Valid()
      modifies this
      ensures Valid() && State() == Stopped(old(State()))
    {
      ghost var s0 := State();
      ScanningKeepsInv(s0, None);
      scanning := false;
      if btCallback {
        btCallback := false;
      }
      if printTask {
        printTask := false;
      }
      if restartTimer {
        restartTimer := false;
      }
      assert State() == Stopped(s0);
    }
  }

  /** `for callback in self._update_callbacks: callback()`, appended to the record of calls. */
  method CallUpdateCallbacks(calls: seq<CallbackId>, callbacks: seq<CallbackId>) returns (calls': seq<CallbackId>)
    ensures calls' == calls + callbacks
  {
    calls' := calls;
    var i := 0;
    while i < |callbacks|
      invariant 0 <= i <= |callbacks|
      invariant calls' == calls + callbacks[..i]
    {
      assert callbacks[..i + 1] == callbacks[..i] + [callbacks[i]];
      calls' := calls' + [callbacks[i]];
      i := i + 1;
    }
    assert callbacks[..i] == callbacks;
  }

  /** `for callback in self._entity_callbacks: callback(device_info)`, appended to the record of calls. */
  method CallEntityCallbacks(calls: seq<EntityCall>, callbacks: seq<CallbackId>, device: DeviceInfo) returns (calls': seq<EntityCall>)
    ensures calls' == calls + EntityCalls(callbacks, device)
  {
    calls' := calls;
    var i := 0;
    while i < |callbacks|
      invariant 0 <= i <= |callbacks|
      invariant calls' == calls + EntityCalls(callbacks[..i], device)
    {
      EntityCallsAppend(callbacks[..i], callbacks[i], device);
      assert callbacks[..i + 1] == callbacks[..i] + [callbacks[i]];
      calls' := calls' + [EntityCall(callbacks[i], device)];
      i := i + 1;
    }
    assert callbacks[..i] == callbacks;
  }

  lemma {:induction false} EntityCallsAppend(callbacks: seq<CallbackId>, id: CallbackId, device: DeviceInfo)
    ensures EntityCalls(callbacks + [id], device) == EntityCalls(callbacks, device) + [EntityCall(id, device)]
  {
    if callbacks != [] {
      assert (callbacks + [id])[1..] == callbacks[1..] + [id];
      EntityCallsAppend(callbacks[1..], id, device);
    }
  }
}
