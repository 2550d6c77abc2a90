/** `XTTuyaSharingDeviceManagerInterface`, the device-manager interface over
    the Tuya sharing (customer) API: which commands it sends itself, the
    signals it raises for an updated or added device, its registry
    identifiers and scenes, and how it refreshes its device list. With
    `reuse_config` the account runs on top of a stock Tuya integration entry
    whose device manager it shares. */
module SharingInterface {
  import opened PyValue
  import opened PyOps
  import opened ManagerInterface

  // ---------------------------------------------------------------- send_commands

  /** The inner loop of `send_commands` over the first `n` devices for one
      command code: Ok(true) once a device maps the code to a truthy dpId whose
      `local_strategy` entry has a truthy `use_open_api` (the loop breaks
      there), Ok(false) if none does, or the exception a lookup raised. */
  function OpenApiUpTo(devices: seq<DeviceView>, code: Value, n: nat): Result<bool>
    requires n <= |devices|
  {
    if n == 0 then Ok(false)
    else
      var r := OpenApiUpTo(devices, code, n - 1);
      if r.Err? || r.value then r
      else
        var dpId := devices[n - 1].dpIdOf(code);
        if !Truthy(dpId) then Ok(false)
        else EntryFlag(devices[n - 1], dpId, "use_open_api")
  }

  /** The outer loop over the first `n` commands: the commands kept for the
      sharing API, in order, or the exception that ended the loop. */
  function RegularUpTo(devices: seq<DeviceView>, commands: seq<Value>, n: nat): Result<seq<Value>>
    requires n <= |commands|
  {
    if n == 0 then Ok([])
    else
      var r := RegularUpTo(devices, commands, n - 1);
      if r.Err? then r
      else
        var code := Subscript(commands[n - 1], "code");
        if code.Err? then Err(code.error)
        else
          var skip := OpenApiUpTo(devices, code.value, |devices|);
          if skip.Err? then Err(skip.error)
          else if skip.value then r
          else Ok(r.value + [commands[n - 1]])
  }

  /** `send_commands(device_id, commands)` over the devices
      `get_devices_from_device_id(device_id)` returned: `sent` is the list
      passed to the device manager's `send_commands`, None when no call is
      made. An exception propagates and nothing is sent. */
  method SendCommands(devices: seq<DeviceView>, commands: seq<Value>) returns (sent: Option<seq<Value>>, err: Option<Failure>)
    ensures var r := RegularUpTo(devices, commands, |commands|);
            && (r.Err? ==> err == Some(r.error) && sent == None)
            && (r.Ok? ==> err == None && sent == (if r.value == [] then None else Some(r.value)))
  {
    var regular: seq<Value> := [];
    var i := 0;
    while i < |commands|
      invariant 0 <= i <= |commands| && RegularUpTo(devices, commands, i) == Ok(regular)
    {
      var code := Subscript(commands[i], "code");
      if code.Err? {
        RegularStops(devices, commands, i + 1, |commands|);
        return None, Some(code.error);
      }
      var skip := InnerLoop(devices, code.value);
      if skip.Err? {
        RegularStops(devices, commands, i + 1, |commands|);
        return None, Some(skip.error);
      }
      if !skip.value {
        regular := regular + [commands[i]];
      }
      i := i + 1;
    }
    sent, err := if regular == [] then None else Some(regular), None;
  }

  /** The inner loop of `send_commands`, with its `skip_command` flag. */
  method InnerLoop(devices: seq<DeviceView>, code: Value) returns (skip: Result<bool>)
    ensures skip == OpenApiUpTo(devices, code, |devices|)
  {
    var skipCommand := false;
    var j := 0;
    while j < |devices|
      invariant 0 <= j <= |devices| && OpenApiUpTo(devices, code, j) == Ok(skipCommand)
      invariant skipCommand ==> j == |devices|
    {
      var dpId := devices[j].dpIdOf(code);
      if Truthy(dpId) {
        var flag := EntryFlag(devices[j], dpId, "use_open_api");
        if flag.Err? {
          OpenApiStops(devices, code, j + 1, |devices|);
          return Err(flag.error);
        }
        if flag.value {
          OpenApiStops(devices, code, j + 1, |devices|);
          skipCommand := true;
          break;
        }
      }
      j := j + 1;
    }
    return Ok(skipCommand);
  }

  /** Once the inner loop has raised or found an OpenAPI device, the rest of
      the devices change nothing. */
  lemma {:induction false} OpenApiStops(devices: seq<DeviceView>, code: Value, n: nat, m: nat)
    requires n <= m <= |devices|
    requires var r := OpenApiUpTo(devices, code, n); r.Err? || r.value
    ensures OpenApiUpTo(devices, code, m) == OpenApiUpTo(devices, code, n)
    decreases m
  {
    if m > n {
      OpenApiStops(devices, code, n, m - 1);
    }
  }

  /** Once the outer loop has raised, the rest of the commands change nothing. */
  lemma {:induction false} RegularStops(devices: seq<DeviceView>, commands: seq<Value>, n: nat, m: nat)
    requires n <= m <= |commands| && RegularUpTo(devices, commands, n).Err?
    ensures RegularUpTo(devices, commands, m) == RegularUpTo(devices, commands, n)
    decreases m
  {
    if m > n {
      RegularStops(devices, commands, n, m - 1);
    }
  }

  /** Device `d` maps `code` to a truthy dpId whose entry asks for OpenAPI. */
  predicate OpensApi(d: DeviceView, code: Value)
  {
    var dpId := d.dpIdOf(code);
    Truthy(dpId) && Resolves(d, dpId) && Truthy(Get(d.localStrategy.vals[dpId], Str("use_open_api")))
  }

  /** Some device routes `code` to OpenAPI. */
  predicate Routed(devices: seq<DeviceView>, code: Value)
  {
    exists i | 0 <= i < |devices| :: OpensApi(devices[i], code)
  }

  /** The inner loop decides exactly whether some device routes the code to
      OpenAPI, and it cannot raise when every lookup resolves. */
  lemma {:induction false} OpenApiDecides(devices: seq<DeviceView>, code: Value, n: nat)
    requires n <= |devices|
    ensures var r := OpenApiUpTo(devices, code, n);
            && (r.Ok? ==> (r.value <==> exists i | 0 <= i < n :: OpensApi(devices[i], code)))
            && ((forall i | 0 <= i < n :: Truthy(devices[i].dpIdOf(code)) ==> Resolves(devices[i], devices[i].dpIdOf(code))) ==> r.Ok?)
  {
    if n > 0 {
      OpenApiDecides(devices, code, n - 1);
    }
  }

  /** `command["code"]`, or None for a command that has none. */
  function CodeOf(c: Value): Value
  {
    if c.Dict? then Get(c, Str("code")) else Null
  }

  /** The first `n` commands, in order, leaving out those some device routes to
      OpenAPI. */
  function Kept(devices: seq<DeviceView>, commands: seq<Value>, n: nat): seq<Value>
    requires n <= |commands|
  {
    if n == 0 then []
    else Kept(devices, commands, n - 1) + (if Routed(devices, CodeOf(commands[n - 1])) then [] else [commands[n - 1]])
  }

  /** When it does not raise, the outer loop keeps exactly the commands no
      device routes to OpenAPI, in their original order; it does not raise when
      every command has a code and every lookup resolves. */
  lemma {:induction false} RegularKeeps(devices: seq<DeviceView>, commands: seq<Value>, n: nat)
    requires n <= |commands|
    ensures var r := RegularUpTo(devices, commands, n);
            && (r.Ok? ==> r.value == Kept(devices, commands, n))
            && ((forall j | 0 <= j < n :: commands[j].Dict? && Str("code") in commands[j].vals
                                           && Resolvable(devices, commands[j].vals[Str("code")])) ==> r.Ok?)
  {
    if n > 0 {
      RegularKeeps(devices, commands, n - 1);
      var c := commands[n - 1];
      if c.Dict? && Str("code") in c.vals {
        OpenApiDecides(devices, c.vals[Str("code")], |devices|);
      }
    }
  }

  /** A command is kept exactly when it is one of the commands and no device
      routes its code to OpenAPI. */
  lemma {:induction false} KeptMembers(devices: seq<DeviceView>, commands: seq<Value>, n: nat, x: Value)
    requires n <= |commands|
    ensures x in Kept(devices, commands, n) <==> x in commands[..n] && !Routed(devices, CodeOf(x))
  {
    if n > 0 {
      KeptMembers(devices, commands, n - 1, x);
      assert commands[..n] == commands[..n - 1] + [commands[n - 1]];
    }
  }

  // ---------------------------------------------------------------- the account

  /** Why `update_device_cache` failed: an authentication failure reported as
      `ConfigEntryNotReady` (the stock integration's entry owns the
      credentials) or `ConfigEntryAuthFailed`, or the original exception. */
  datatype CacheFailure = NotReady(msg: string) | AuthFailed(msg: string) | Reraised(text: string)

  const SignInvalid := "sign invalid"

  /** The `except` clause of `update_device_cache`. */
  function Classify(reuseConfig: bool, text: string): (r: CacheFailure)
  {
    if IsSubstring(SignInvalid, text) then
      if reuseConfig then NotReady("Authentication failed. Please re-authenticate the Tuya integration")
      else AuthFailed("Authentication failed. Please re-authenticate.")
    else Reraised(text)
  }

  /** `t` occurs in `s` starting at position `i`. */
  predicate OccursAt(t: string, s: string, i: int)
  {
    0 <= i <= |s| - |t| && s[i..i + |t|] == t
  }

  /** The exception is reclassified exactly when "sign invalid" occurs in its
      text at some position, as not-ready with `reuse_config` and as an
      authentication failure without; otherwise it is re-raised as it was. */
  lemma ClassifySpec(reuseConfig: bool, text: string)
    ensures var r := Classify(reuseConfig, text);
            var found := exists i :: OccursAt(SignInvalid, text, i);
            && (r.Reraised? <==> !found)
            && (r.Reraised? ==> r.text == text)
            && (r.NotReady? <==> found && reuseConfig)
            && (r.AuthFailed? <==> found && !reuseConfig)
  {
    SubstringAt(SignInvalid, text);
  }

  /** `IsSubstring` against the textbook definition: `t` starts at some
      position of `s`. */
  lemma {:induction false} SubstringAt(t: string, s: string)
    ensures IsSubstring(t, s) <==> exists i :: OccursAt(t, s, i)
    decreases |s|
  {
    if t <= s {
      assert OccursAt(t, s, 0);
    } else if s != [] {
      SubstringAt(t, s[1..]);
      if IsSubstring(t, s[1..]) {
        var i :| OccursAt(t, s[1..], i);
        assert OccursAt(t, s, i + 1);
      }
      if exists i :: OccursAt(t, s, i) {
        var i :| OccursAt(t, s, i);
        assert i != 0;
        assert OccursAt(t, s[1..], i - 1);
      }
    }
  }

  /** `TuyaSharingData` together with the `reuse_config` flag of its device
      manager. */
  class SharingAccount {
    var deviceIds: seq<string>
    const reuseConfig: bool

    /** `_init_from_entry` starts with an empty `device_ids`. */
    constructor (reuseConfig: bool)
      ensures deviceIds == [] && this.reuseConfig == reuseConfig
    {
      deviceIds := [];
      this.reuseConfig := reuseConfig;
    }

    /** `update_device_cache`: on success `device_ids` is replaced in place by
        the keys of `device_map`, in order; on failure it is left as it was
        and the exception is classified. */
    method UpdateDeviceCache(refresh: Refresh) returns (err: Option<CacheFailure>)
      modifies this
      ensures refresh.Refreshed? ==> deviceIds == refresh.deviceMap && err == None
      ensures refresh.Raised? ==> deviceIds == old(deviceIds) && err == Some(Classify(reuseConfig, refresh.text))
    {
      match refresh
      case Refreshed(deviceMap) =>
        var newIds: seq<string> := [];
        var i := 0;
        while i < |deviceMap|
          invariant 0 <= i <= |deviceMap| && newIds == deviceMap[..i]
        {
          newIds := newIds + [deviceMap[i]];
          i := i + 1;
        }
        deviceIds := [];
        deviceIds := deviceIds + newIds;
        err := None;
      case Raised(text) =>
        err := Some(Classify(reuseConfig, text));
    }

    /** `on_update_device(device)`. */
    method OnUpdateDevice(deviceId: string) returns (signals: Option<seq<Signal>>)
      ensures Announces(signals, deviceId in deviceIds, reuseConfig, UpdateEntity, UpdateEntityOrig)
    {
      var returnList: seq<Signal> := [];
      if deviceId in deviceIds {
        returnList := returnList + [UpdateEntity];
      }
      if reuseConfig {
        returnList := returnList + [UpdateEntityOrig];
      }
      signals := if returnList != [] then Some(returnList) else None;
    }

    /** `on_add_device(device)`. */
    method OnAddDevice(deviceId: string) returns (signals: Option<seq<Signal>>)
      ensures Announces(signals, deviceId in deviceIds, reuseConfig, DiscoveryNew, DiscoveryNewOrig)
    {
      var returnList: seq<Signal> := [];
      if deviceId in deviceIds {
        returnList := returnList + [DiscoveryNew];
      }
      if reuseConfig {
        returnList := returnList + [DiscoveryNewOrig];
      }
      signals := if returnList != [] then Some(returnList) else None;
    }

    /** `get_device_registry_identifiers()`: this integration's domain always,
        last, preceded by the stock integration's exactly when `reuse_config`. */
    function RegistryIdentifiers(): (r: seq<Domain>)
      reads this
      ensures |r| > 0 && r[|r| - 1] == XtDomain && (OrigDomain in r <==> reuseConfig)
      ensures forall i | 0 <= i < |r| - 1 :: r[i] == OrigDomain
    {
      if reuseConfig then [OrigDomain, XtDomain] else [XtDomain]
    }

    /** `query_scenes()`, given what the device manager's own `query_scenes`
        answers: scenes come from this account only when it does not run on top
        of the stock integration. */
    function QueryScenes(managerScenes: seq<Value>): (r: seq<Value>)
      reads this
      ensures reuseConfig ==> r == []
      ensures !reuseConfig ==> r == managerScenes
    {
      if !reuseConfig then managerScenes else []
    }
  }
}
