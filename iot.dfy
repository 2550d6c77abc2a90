/** `XTTuyaIOTDeviceManagerInterface`, the device-manager interface over the
    Tuya IoT (OpenAPI) cloud: the option check that gates `_init_from_entry`,
    which commands it sends through OpenAPI and in which form, the signals
    it raises for an updated or added device, its registry identifiers and
    scenes, and how it refreshes its device list. Unlike the sharing account
    it never runs on top of the stock Tuya integration. */
module IotInterface {
  import opened PyValue
  import opened PyOps
  import opened ManagerInterface

  // ---------------------------------------------------------------- _init_from_entry

  /** The option keys `_init_from_entry` needs (`CONF_AUTH_TYPE`,
      `CONF_ENDPOINT_OT`, `CONF_ACCESS_ID`, `CONF_ACCESS_SECRET`,
      `CONF_USERNAME`, `CONF_PASSWORD`, `CONF_COUNTRY_CODE`, `CONF_APP_TYPE`).
      Their string values live in a constant module that is not part of this
      model. */
  datatype OptionKey =
    | AuthTypeKey | EndpointOt | AccessId | AccessSecret
    | Username | Password | CountryCode | AppType

  const RequiredOptions: set<OptionKey> :=
    {AuthTypeKey, EndpointOt, AccessId, AccessSecret, Username, Password, CountryCode, AppType}

  /** What `_init_from_entry` reads out of the options once the check passes. */
  datatype Credentials = Credentials(
    authType: Value, endpoint: Value, accessId: Value, accessSecret: Value,
    username: Value, password: Value, countryCode: Value, appType: Value)

  /** The guard of `_init_from_entry`: None, before any connection attempt,
      when there are no options or one of the required keys is missing;
      otherwise the values every later `config_entry.options[...]` reads. */
  function CheckOptions(options: Option<map<OptionKey, Value>>): (r: Option<Credentials>)
    ensures r.None? <==> options.None? || !(RequiredOptions <= options.value.Keys)
    ensures r.Some? ==> var o := options.value;
                        && r.value.authType == o[AuthTypeKey] && r.value.endpoint == o[EndpointOt]
                        && r.value.accessId == o[AccessId] && r.value.accessSecret == o[AccessSecret]
                        && r.value.username == o[Username] && r.value.password == o[Password]
                        && r.value.countryCode == o[CountryCode] && r.value.appType == o[AppType]
  {
    if || options.None?
       || AuthTypeKey !in options.value
       || EndpointOt !in options.value
       || AccessId !in options.value
       || AccessSecret !in options.value
       || Username !in options.value
       || Password !in options.value
       || CountryCode !in options.value
       || AppType !in options.value
    then None
    else
      var o := options.value;
      Some(Credentials(o[AuthTypeKey], o[EndpointOt], o[AccessId], o[AccessSecret],
                       o[Username], o[Password], o[CountryCode], o[AppType]))
  }

  /** The arguments after `api.connect` in the executor job: user name and
      password for the custom authentication type, and the country code and
      app type as well otherwise. Whether `AuthType(...)` is `CUSTOM` is
      supplied as `custom`. */
  function ConnectArgs(c: Credentials, custom: bool): (r: seq<Value>)
    ensures |r| >= 2 && r[..2] == [c.username, c.password]
    ensures custom <==> |r| == 2
    ensures !custom ==> r[2..] == [c.countryCode, c.appType]
  {
    if custom then [c.username, c.password]
    else [c.username, c.password, c.countryCode, c.appType]
  }

  // ---------------------------------------------------------------- send_commands

  /** What one pass of the inner loop of `send_commands` reads from a device
      for a command code: no truthy dpId; an exception from
      `device.local_strategy[dpId].get(...)`; an entry with a falsy
      `use_open_api`; or an entry with a truthy one, and whether its
      `property_update` is truthy. */
  datatype Verdict = NoDpId | Fails(error: Failure) | Closed(entry: Value) | Open(entry: Value, property: bool)

  /** The lookups of one pass of the inner loop over device `d`. */
  function Examine(d: DeviceView, code: Value): Verdict
  {
    var dpId := d.dpIdOf(code);
    if !Truthy(dpId) then NoDpId
    else
      var useOpenApi := EntryFlag(d, dpId, "use_open_api");
      if useOpenApi.Err? then Fails(useOpenApi.error)
      else if !useOpenApi.value then Closed(d.localStrategy.vals[dpId])
      else Open(d.localStrategy.vals[dpId], EntryFlag(d, dpId, "property_update").value)
  }

  /** The verdicts of all devices, in order. */
  function Verdicts(devices: seq<DeviceView>, code: Value): (vs: seq<Verdict>)
    ensures |vs| == |devices|
  {
    seq(|devices|, i requires 0 <= i < |devices| => Examine(devices[i], code))
  }

  /** The flags of the inner loop for one command: `skip_command`,
      `prop_command`, `regular_command`, whether the loop broke out, and
      `device.local_strategy[dpId]` for the last device whose entry was read
      (what `prepare_value_for_property_update` is given). */
  datatype Scan = Scan(skip: bool, prop: bool, regular: bool, stopped: bool, entry: Value)

  const Fresh := Scan(false, false, false, false, Null)

  /** The inner loop over the first `n` verdicts, or the exception a lookup
      raised. */
  function ScanUpTo(vs: seq<Verdict>, n: nat): Result<Scan>
    requires n <= |vs|
  {
    if n == 0 then Ok(Fresh) else ScanStep(ScanUpTo(vs, n - 1), vs[n - 1])
  }

  /** One pass of the inner loop: a device without a dpId sets
      `skip_command` and the loop goes on; a closed entry sets it and breaks
      out; an open one sets `prop_command` or `regular_command`. */
  function ScanStep(r: Result<Scan>, v: Verdict): Result<Scan>
  {
    if r.Err? || r.value.stopped then r
    else match v
      case NoDpId => Ok(r.value.(skip := true))
      case Fails(e) => Err(e)
      case Closed(e) => Ok(r.value.(entry := e, skip := true, stopped := true))
      case Open(e, p) => Ok(if p then r.value.(entry := e, prop := true) else r.value.(entry := e, regular := true))
  }

  /** Where one command goes: nowhere, to the OpenAPI regular list, or to the
      property-update list, with the dictionary appended there. */
  datatype Route = Dropped | Regular(cmd: Value) | Property(cmd: Value)

  /** One pass of the outer loop of `send_commands`. `prepare` stands for
      `prepare_value_for_property_update` and `render` for `str` on a
      non-string code; neither is part of this model. */
  function RouteOf(devices: seq<DeviceView>, prepare: (Value, Value) -> Value, render: Value -> string, command: Value): Result<Route>
  {
    var code := Subscript(command, "code");
    if code.Err? then Err(code.error)
    else
      var value := Subscript(command, "value");
      if value.Err? then Err(value.error)
      else
        var scan := ScanUpTo(Verdicts(devices, code.value), |devices|);
        if scan.Err? then Err(scan.error)
        else if scan.value.skip then Ok(Dropped)
        else if scan.value.regular then Ok(Regular(Pair(Str("code"), code.value, Str("value"), value.value)))
        else if scan.value.prop then Ok(Property(Single(Str(StrOf(render, code.value)), prepare(scan.value.entry, value.value))))
        else Ok(Dropped)
  }

  /** The routes of all commands, in order. */
  function Routes(devices: seq<DeviceView>, prepare: (Value, Value) -> Value, render: Value -> string, commands: seq<Value>): (rs: seq<Result<Route>>)
    ensures |rs| == |commands|
  {
    seq(|commands|, j requires 0 <= j < |commands| => RouteOf(devices, prepare, render, commands[j]))
  }

  /** `open_api_regular_commands` and `property_commands`. */
  datatype Lists = Lists(regular: seq<Value>, property: seq<Value>)

  /** The outer loop over the first `n` routes, or the exception that ended
      it. */
  function PartitionUpTo(routes: seq<Result<Route>>, n: nat): Result<Lists>
    requires n <= |routes|
  {
    if n == 0 then Ok(Lists([], [])) else PartitionStep(PartitionUpTo(routes, n - 1), routes[n - 1])
  }

  /** One pass of the outer loop, given where its command goes. */
  function PartitionStep(r: Result<Lists>, route: Result<Route>): Result<Lists>
  {
    if r.Err? then r
    else if route.Err? then Err(route.error)
    else match route.value
      case Dropped => r
      case Regular(c) => Ok(r.value.(regular := r.value.regular + [c]))
      case Property(c) => Ok(r.value.(property := r.value.property + [c]))
  }

  /** `send_commands(device_id, commands)` over the devices
      `get_devices_from_device_id(device_id)` returned: the list passed to the
      device manager's `send_commands` and the one passed to its
      `send_property_update`, each None when that call is not made. An
      exception propagates and nothing is sent. */
  method SendCommands(devices: seq<DeviceView>, prepare: (Value, Value) -> Value, render: Value -> string, commands: seq<Value>)
    returns (regularSent: Option<seq<Value>>, propertySent: Option<seq<Value>>, err: Option<Failure>)
    ensures var r := PartitionUpTo(Routes(devices, prepare, render, commands), |commands|);
            && (r.Err? ==> err == Some(r.error) && regularSent == None && propertySent == None)
            && (r.Ok? ==> && err == None
                          && regularSent == (if r.value.regular == [] then None else Some(r.value.regular))
                          && propertySent == (if r.value.property == [] then None else Some(r.value.property)))
  {
    regularSent, propertySent, err := Partition(devices, prepare, render, commands, Routes(devices, prepare, render, commands));
  }

  /** The loop of `send_commands` and the two sends after it, given the
      routes of its commands. */
  method Partition(devices: seq<DeviceView>, prepare: (Value, Value) -> Value, render: Value -> string, commands: seq<Value>,
                   ghost routes: seq<Result<Route>>)
    returns (regularSent: Option<seq<Value>>, propertySent: Option<seq<Value>>, err: Option<Failure>)
    requires |routes| == |commands|
    requires forall j {:trigger RouteOf(devices, prepare, render, commands[j])} | 0 <= j < |commands| ::
               routes[j] == RouteOf(devices, prepare, render, commands[j])
    ensures var r := PartitionUpTo(routes, |commands|);
            && (r.Err? ==> err == Some(r.error) && regularSent == None && propertySent == None)
            && (r.Ok? ==> && err == None
                          && regularSent == (if r.value.regular == [] then None else Some(r.value.regular))
                          && propertySent == (if r.value.property == [] then None else Some(r.value.property)))
  {
    var openApiRegularCommands: seq<Value> := [];
    var propertyCommands: seq<Value> := [];
    var i := 0;
    while i < |commands|
      invariant 0 <= i <= |commands|
      invariant PartitionUpTo(routes, i) == Ok(Lists(openApiRegularCommands, propertyCommands))
    {
      var route := RouteCommand(devices, prepare, render, commands[i]);
      if route.Err? {
        PartitionStops(routes, i + 1, |commands|);
        return None, None, Some(route.error);
      }
      openApiRegularCommands, propertyCommands := Append(openApiRegularCommands, propertyCommands, route.value);
      i := i + 1;
    }
    regularSent := if openApiRegularCommands != [] then Some(openApiRegularCommands) else None;
    propertySent := if propertyCommands != [] then Some(propertyCommands) else None;
    err := None;
  }

  /** The end of the outer loop's body: the command's dictionary is appended
      to the list it is routed to. */
  method Append(regular: seq<Value>, property: seq<Value>, route: Route) returns (regular': seq<Value>, property': seq<Value>)
    ensures Ok(Lists(regular', property')) == PartitionStep(Ok(Lists(regular, property)), Ok(route))
  {
    regular', property' := regular, property;
    match route {
      case Dropped =>
      case Regular(c) => regular' := regular' + [c];
      case Property(c) => property' := property' + [c];
    }
  }

  /** The body of the outer loop of `send_commands` for one command. */
  method RouteCommand(devices: seq<DeviceView>, prepare: (Value, Value) -> Value, render: Value -> string, command: Value)
    returns (route: Result<Route>)
    ensures route == RouteOf(devices, prepare, render, command)
  {
    var code := Subscript(command, "code");
    if code.Err? {
      return Err(code.error);
    }
    var value := Subscript(command, "value");
    if value.Err? {
      return Err(value.error);
    }
    var scan := ScanDevices(devices, code.value, Verdicts(devices, code.value));
    if scan.Err? {
      return Err(scan.error);
    }
    route := Ok(Dropped);
    if !scan.value.skip {
      if scan.value.regular {
        route := Ok(Regular(Pair(Str("code"), code.value, Str("value"), value.value)));
      } else if scan.value.prop {
        var prepared := prepare(scan.value.entry, value.value);
        route := Ok(Property(Single(Str(StrOf(render, code.value)), prepared)));
      }
    }
  }

  /** The inner loop of `send_commands`, with its three flags. */
  method ScanDevices(devices: seq<DeviceView>, code: Value, ghost vs: seq<Verdict>) returns (scan: Result<Scan>)
    requires |vs| == |devices|
    requires forall j {:trigger Examine(devices[j], code)} | 0 <= j < |devices| :: vs[j] == Examine(devices[j], code)
    ensures scan == ScanUpTo(vs, |devices|)
  {
    var skipCommand, propCommand, regularCommand := false, false, false;
    var entry := Null;
    var j := 0;
    while j < |devices|
      invariant 0 <= j <= |devices|
      invariant ScanUpTo(vs, j) == Ok(Scan(skipCommand, propCommand, regularCommand, false, entry))
    {
      var device := devices[j];
      assert vs[j] == Examine(device, code);
      var dpId := device.dpIdOf(code);
      if Truthy(dpId) {
        var useOpenApi := EntryFlag(device, dpId, "use_open_api");
        if useOpenApi.Err? {
          ScanStops(vs, j + 1, |devices|);
          return Err(useOpenApi.error);
        }
        entry := device.localStrategy.vals[dpId];
        if !useOpenApi.value {
          skipCommand := true;
          ScanStops(vs, j + 1, |devices|);
          return Ok(Scan(skipCommand, propCommand, regularCommand, true, entry));
        }
        var propertyUpdate := EntryFlag(device, dpId, "property_update").value;
        if propertyUpdate {
          propCommand := true;
        } else {
          regularCommand := true;
        }
      } else {
        skipCommand := true;
      }
      j := j + 1;
    }
    return Ok(Scan(skipCommand, propCommand, regularCommand, false, entry));
  }

  /** Once the inner loop has raised or broken out, the remaining verdicts
      change nothing. */
  lemma {:induction false} ScanStops(vs: seq<Verdict>, n: nat, m: nat)
    requires n <= m <= |vs|
    requires var r := ScanUpTo(vs, n); r.Err? || r.value.stopped
    ensures ScanUpTo(vs, m) == ScanUpTo(vs, n)
    decreases m
  {
    if m > n {
      ScanStops(vs, n, m - 1);
    }
  }

  /** Once the outer loop has raised, the remaining routes change nothing. */
  lemma {:induction false} PartitionStops(routes: seq<Result<Route>>, n: nat, m: nat)
    requires n <= m <= |routes| && PartitionUpTo(routes, n).Err?
    ensures PartitionUpTo(routes, m) == PartitionUpTo(routes, n)
    decreases m
  {
    if m > n {
      PartitionStops(routes, n, m - 1);
    }
  }

  /** The inner loop over the first `n` verdicts raises exactly when one of
      them is a failure met before any closed entry; it cannot raise when
      none is a failure. */
  lemma {:induction false} ScanRaises(vs: seq<Verdict>, n: nat)
    requires n <= |vs|
    ensures (forall i | 0 <= i < n :: !vs[i].Fails?) ==> ScanUpTo(vs, n).Ok?
    ensures ScanUpTo(vs, n).Err? <==> exists i | 0 <= i < n :: vs[i].Fails? && forall k | 0 <= k < i :: !vs[k].Closed?
  {
    if n > 0 {
      ScanRaises(vs, n - 1);
      ScanSkips(vs, n - 1);
      if ScanUpTo(vs, n).Err? && ScanUpTo(vs, n - 1).Ok? {
        assert vs[n - 1].Fails?;
        assert exists i | 0 <= i < n :: vs[i].Fails? && forall k | 0 <= k < i :: !vs[k].Closed?;
      }
      if exists i | 0 <= i < n :: vs[i].Fails? && forall k | 0 <= k < i :: !vs[k].Closed? {
        var i :| 0 <= i < n && vs[i].Fails? && forall k | 0 <= k < i :: !vs[k].Closed?;
        if i < n - 1 {
          assert ScanUpTo(vs, n - 1).Err?;
        }
      }
    }
  }

  /** When the inner loop over the first `n` verdicts does not raise,
      `skip_command` is set exactly when some device has no dpId or a closed
      entry, the loop broke out exactly when some device has a closed entry,
      and a break sets `skip_command`. */
  lemma {:induction false} ScanSkips(vs: seq<Verdict>, n: nat)
    requires n <= |vs|
    ensures var r := ScanUpTo(vs, n);
            r.Ok? ==> && (r.value.stopped ==> r.value.skip)
                      && (r.value.stopped <==> exists i | 0 <= i < n :: vs[i].Closed?)
                      && (r.value.skip <==> exists i | 0 <= i < n :: vs[i].NoDpId? || vs[i].Closed?)
  {
    if n > 0 {
      ScanSkips(vs, n - 1);
      if vs[n - 1].NoDpId? || vs[n - 1].Closed? {
        assert exists i | 0 <= i < n :: vs[i].NoDpId? || vs[i].Closed?;
      }
      if vs[n - 1].Closed? {
        assert exists i | 0 <= i < n :: vs[i].Closed?;
      }
    }
  }

  /** When the inner loop over the first `n` verdicts neither raises nor
      skips, every device has an open entry; `regular_command` is set exactly
      when one of them does not ask for a property update, `prop_command`
      exactly when one does, and the entry kept is the last device's. */
  lemma {:induction false} ScanFlags(vs: seq<Verdict>, n: nat)
    requires n <= |vs|
    ensures var r := ScanUpTo(vs, n);
            r.Ok? && !r.value.skip ==>
              && (forall i | 0 <= i < n :: vs[i].Open?)
              && (r.value.regular <==> exists i | 0 <= i < n :: vs[i].Open? && !vs[i].property)
              && (r.value.prop <==> exists i | 0 <= i < n :: vs[i].Open? && vs[i].property)
              && (n > 0 ==> r.value.entry == vs[n - 1].entry)
  {
    if n > 0 {
      ScanFlags(vs, n - 1);
      ScanSkips(vs, n - 1);
      if vs[n - 1].Open? && !vs[n - 1].property {
        assert exists i | 0 <= i < n :: vs[i].Open? && !vs[i].property;
      }
      if vs[n - 1].Open? && vs[n - 1].property {
        assert exists i | 0 <= i < n :: vs[i].Open? && vs[i].property;
      }
    }
  }

  /** Device `d` makes a command with this code be dropped: it has no truthy
      dpId for it, or the entry of that dpId has a falsy `use_open_api`. */
  predicate Drops(d: DeviceView, code: Value)
  {
    var dpId := d.dpIdOf(code);
    !Truthy(dpId) || (Resolves(d, dpId) && !Truthy(Get(d.localStrategy.vals[dpId], Str("use_open_api"))))
  }

  /** Device `d` has a truthy dpId for the code whose entry has a truthy
      `property_update`. */
  predicate ByProperty(d: DeviceView, code: Value)
  {
    var dpId := d.dpIdOf(code);
    Truthy(dpId) && Resolves(d, dpId) && Truthy(Get(d.localStrategy.vals[dpId], Str("property_update")))
  }

  /** What one pass of the inner loop reads from a device, against the
      device itself: the lookups raise exactly when a truthy dpId does not
      resolve; otherwise the device has no dpId or a closed entry exactly when
      it drops the command, and an open entry asks for a property update
      exactly when the device does; an entry read is the dpId's entry. */
  lemma ExamineSpec(d: DeviceView, code: Value)
    ensures var v := Examine(d, code);
            var dpId := d.dpIdOf(code);
            && (v.Fails? <==> Truthy(dpId) && !Resolves(d, dpId))
            && (!v.Fails? ==> (v.NoDpId? || v.Closed? <==> Drops(d, code)))
            && (v.Open? ==> (v.property <==> ByProperty(d, code)))
            && (v.Open? || v.Closed? ==> Resolves(d, dpId) && v.entry == d.localStrategy.vals[dpId])
  {
  }

  /** `ExamineSpec` for every device at once. */
  lemma VerdictsSpec(devices: seq<DeviceView>, code: Value)
    ensures var vs := Verdicts(devices, code);
            forall i | 0 <= i < |devices| ::
              var dpId := devices[i].dpIdOf(code);
              && (vs[i].Fails? <==> Truthy(dpId) && !Resolves(devices[i], dpId))
              && (!vs[i].Fails? ==> (vs[i].NoDpId? || vs[i].Closed? <==> Drops(devices[i], code)))
              && (vs[i].Open? ==> (vs[i].property <==> ByProperty(devices[i], code)))
              && (vs[i].Open? || vs[i].Closed? ==> Resolves(devices[i], dpId) && vs[i].entry == devices[i].localStrategy.vals[dpId])
  {
    forall i | 0 <= i < |devices| {
      ExamineSpec(devices[i], code);
    }
  }

  /** A command raises when it lacks a code or a value, and cannot raise when
      it has both and every truthy dpId for its code resolves. */
  lemma RouteRaises(devices: seq<DeviceView>, prepare: (Value, Value) -> Value, render: Value -> string, command: Value)
    ensures var r := RouteOf(devices, prepare, render, command);
            var wellFormed := command.Dict? && Str("code") in command.vals && Str("value") in command.vals;
            && (r.Ok? ==> wellFormed)
            && (wellFormed && Resolvable(devices, command.vals[Str("code")]) ==> r.Ok?)
  {
    if command.Dict? && Str("code") in command.vals && Str("value") in command.vals {
      var code := command.vals[Str("code")];
      VerdictsSpec(devices, code);
      ScanRaises(Verdicts(devices, code), |devices|);
    }
  }

  /** Where a command that does not raise goes: it is dropped exactly when
      there are no devices or some device drops it; it goes to the regular
      list, as `{"code": code, "value": value}`, exactly when otherwise some
      device does not ask for a property update; and to the property list, as
      `{str(code): prepared value}` prepared from the last device's entry,
      exactly when all devices ask for one. */
  lemma RouteSpec(devices: seq<DeviceView>, prepare: (Value, Value) -> Value, render: Value -> string, command: Value)
    requires RouteOf(devices, prepare, render, command).Ok?
    ensures var r := RouteOf(devices, prepare, render, command).value;
            var code := command.vals[Str("code")];
            var value := command.vals[Str("value")];
            var dropped := |devices| == 0 || exists i | 0 <= i < |devices| :: Drops(devices[i], code);
            && (r.Dropped? <==> dropped)
            && (r.Regular? <==> !dropped && exists i | 0 <= i < |devices| :: !ByProperty(devices[i], code))
            && (r.Property? <==> !dropped && forall i | 0 <= i < |devices| :: ByProperty(devices[i], code))
            && (r.Regular? ==> r.cmd == Pair(Str("code"), code, Str("value"), value))
            && (r.Property? ==>
                  var d := devices[|devices| - 1];
                  && Resolves(d, d.dpIdOf(code))
                  && r.cmd == Single(Str(StrOf(render, code)), prepare(d.localStrategy.vals[d.dpIdOf(code)], value)))
  {
    var code := command.vals[Str("code")];
    var vs := Verdicts(devices, code);
    VerdictsSpec(devices, code);
    ScanRaises(vs, |devices|);
    ScanSkips(vs, |devices|);
    ScanFlags(vs, |devices|);
  }

  /** Over the first `n` routes the outer loop raises exactly when one of
      them does; otherwise the regular list holds exactly the dictionaries of
      the commands routed there, and the property list those of the commands
      routed there. */
  lemma {:induction false} PartitionMembers(routes: seq<Result<Route>>, n: nat, x: Value)
    requires n <= |routes|
    ensures var r := PartitionUpTo(routes, n);
            && (r.Ok? <==> forall j | 0 <= j < n :: routes[j].Ok?)
            && (r.Ok? ==> && (x in r.value.regular <==> exists j | 0 <= j < n :: routes[j] == Ok(Regular(x)))
                          && (x in r.value.property <==> exists j | 0 <= j < n :: routes[j] == Ok(Property(x))))
  {
    if n > 0 {
      PartitionMembers(routes, n - 1, x);
      if routes[n - 1] == Ok(Regular(x)) {
        assert exists j | 0 <= j < n :: routes[j] == Ok(Regular(x));
      }
      if routes[n - 1] == Ok(Property(x)) {
        assert exists j | 0 <= j < n :: routes[j] == Ok(Property(x));
      }
    }
  }

  /** Appending commands never reorders the lists: the lists over a prefix of
      the routes are prefixes of the lists over the whole. */
  lemma {:induction false} PartitionKeepsOrder(routes: seq<Result<Route>>, n: nat, m: nat)
    requires n <= m <= |routes|
    ensures var r := PartitionUpTo(routes, n);
            var s := PartitionUpTo(routes, m);
            s.Ok? ==> r.Ok? && r.value.regular <= s.value.regular && r.value.property <= s.value.property
    decreases m
  {
    if m > n {
      PartitionKeepsOrder(routes, n, m - 1);
    }
  }

  // ---------------------------------------------------------------- the account

  /** `TuyaIOTData` as the interface uses it: the `device_ids` list. */
  class IotAccount {
    var deviceIds: seq<string>

    /** `_init_from_entry` starts with an empty `device_ids`. */
    constructor ()
      ensures deviceIds == []
    {
      deviceIds := [];
    }

    /** `update_device_cache`: on success `device_ids` is replaced in place by
        the keys of `device_map`, in order; an exception from the home
        manager propagates unchanged and leaves `device_ids` as it was. */
    method UpdateDeviceCache(refresh: Refresh) returns (raised: Option<string>)
      modifies this
      ensures refresh.Refreshed? ==> deviceIds == refresh.deviceMap && raised == None
      ensures refresh.Raised? ==> deviceIds == old(deviceIds) && raised == Some(refresh.text)
    {
      match refresh
      case Refreshed(deviceMap) =>
        var newDeviceIds: seq<string> := [];
        var i := 0;
        while i < |deviceMap|
          invariant 0 <= i <= |deviceMap| && newDeviceIds == deviceMap[..i]
        {
          newDeviceIds := newDeviceIds + [deviceMap[i]];
          i := i + 1;
        }
        deviceIds := [];
        deviceIds := deviceIds + newDeviceIds;
        raised := None;
      case Raised(text) =>
        raised := Some(text);
    }

    /** `on_update_device(device)`: announces as a sharing account without
        `reuse_config` does, with a single signal. */
    method OnUpdateDevice(deviceId: string) returns (signals: Option<seq<Signal>>)
      ensures Announces(signals, deviceId in deviceIds, false, UpdateEntity, UpdateEntityOrig)
      ensures signals.Some? ==> |signals.value| == 1
    {
      if deviceId in deviceIds {
        return Some([UpdateEntity]);
      }
      return None;
    }

    /** `on_add_device(device)`, likewise. */
    method OnAddDevice(deviceId: string) returns (signals: Option<seq<Signal>>)
      ensures Announces(signals, deviceId in deviceIds, false, DiscoveryNew, DiscoveryNewOrig)
      ensures signals.Some? ==> |signals.value| == 1
    {
      if deviceId in deviceIds {
        return Some([DiscoveryNew]);
      }
      return None;
    }

    /** `get_device_registry_identifiers()`: this integration's domain only,
        never the stock one. */
    function RegistryIdentifiers(): (r: seq<Domain>)
      ensures XtDomain in r && OrigDomain !in r
      ensures forall i, j | 0 <= i < j < |r| :: r[i] != r[j]
    {
      [XtDomain]
    }

    /** `query_scenes()`: scenes are left to the sharing account. */
    function QueryScenes(): (r: seq<Value>)
      ensures |r| == 0
    {
      []
    }
  }
}
