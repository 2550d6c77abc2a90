/** What the two device-manager interfaces (`tuya_sharing` and `tuya_iot`)
    share: the signal and domain names they hand back, how `send_commands`
    looks up a command's data point on a device, and the `device_ids` list each
    account keeps. The names' string values live in constant modules that are
    not part of this model; only their identity matters here. */
module ManagerInterface {
  import opened PyValue
  import opened PyOps
  import opened Devices

  /** `TUYA_HA_SIGNAL_UPDATE_ENTITY`, `TUYA_HA_SIGNAL_UPDATE_ENTITY_ORIG`,
      `TUYA_DISCOVERY_NEW` and `TUYA_DISCOVERY_NEW_ORIG`. */
  datatype Signal = UpdateEntity | UpdateEntityOrig | DiscoveryNew | DiscoveryNewOrig

  /** `DOMAIN` (this integration) and `DOMAIN_ORIG` (the stock Tuya one). */
  datatype Domain = XtDomain | OrigDomain

  /** One device as `send_commands` sees it: its `local_strategy` table and
      `multi_manager._read_dpId_from_code(code, device)`, which is not part
      of this model and is taken as given. */
  datatype DeviceView = DeviceView(localStrategy: DictValue, dpIdOf: Value -> Value)

  /** `device.local_strategy[dpId]`. */
  function LocalEntry(d: DeviceView, dpId: Value): (r: Result<Value>)
    ensures r.Ok? <==> Hashable(dpId) && dpId in d.localStrategy.vals
    ensures r.Ok? ==> r.value == d.localStrategy.vals[dpId]
  {
    if !Hashable(dpId) then Err(TypeError)
    else if dpId !in d.localStrategy.vals then Err(KeyError(dpId))
    else Ok(d.localStrategy.vals[dpId])
  }

  /** `device.local_strategy[dpId].get(name, False)`, as a truth value (a
      missing key reads as False). */
  function EntryFlag(d: DeviceView, dpId: Value, name: string): (r: Result<bool>)
    ensures r.Ok? <==> Resolves(d, dpId)
    ensures r.Ok? ==> r.value == Truthy(Get(d.localStrategy.vals[dpId], Str(name)))
  {
    var e := LocalEntry(d, dpId);
    if e.Err? then Err(e.error)
    else
      var v := DictGet(e.value, Str(name));
      if v.Err? then Err(v.error) else Ok(Truthy(v.value))
  }

  /** `dpId` names an entry of the device's `local_strategy` that is a
      dictionary, so reading its flags cannot raise. */
  predicate Resolves(d: DeviceView, dpId: Value)
  {
    Hashable(dpId) && dpId in d.localStrategy.vals && d.localStrategy.vals[dpId].Dict?
  }

  /** Every device that maps `code` to a truthy dpId has a dictionary entry
      for it. */
  predicate Resolvable(devices: seq<DeviceView>, code: Value)
  {
    forall i | 0 <= i < |devices| :: Truthy(devices[i].dpIdOf(code)) ==> Resolves(devices[i], devices[i].dpIdOf(code))
  }

  /** `signals` is what `on_update_device` or `on_add_device` returns: the
      device's own signal iff the account knows the device, the stock
      integration's signal iff `reuse_config`, in that order, and None rather
      than an empty list. */
  predicate Announces(signals: Option<seq<Signal>>, known: bool, reuseConfig: bool, own: Signal, orig: Signal)
    requires own != orig
  {
    && (signals.None? <==> !known && !reuseConfig)
    && (signals.Some? ==>
          && (own in signals.value <==> known)
          && (orig in signals.value <==> reuseConfig)
          && (forall i, j | 0 <= i < j < |signals.value| :: signals.value[i] == own && signals.value[j] == orig)
          && (forall s | s in signals.value :: s == own || s == orig))
  }

  /** Python's `str(x)`, which is `x` itself for a string; how other values
      print is not part of this model and is supplied as `render`. */
  function StrOf(render: Value -> string, v: Value): (r: string)
    ensures v.Str? ==> r == v.s
  {
    if v.Str? then v.s else render(v)
  }

  /** What a device manager's own `update_device_cache` call did: it filled
      `device_map`, whose keys are listed in order, or it raised an exception
      whose text is given. */
  datatype Refresh = Refreshed(deviceMap: seq<string>) | Raised(text: string)
}
