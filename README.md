# xtend_tuya device merging, modelled in Dafny

The xtend_tuya Home Assistant integration can see one physical Tuya device
through two cloud APIs: the "sharing" (Smart Life) API and the IoT (OpenAPI)
one. `XTMergingManager.merge_devices` reconciles the two `XTDevice` records.
It first repairs broken value descriptors. It then aligns data-point types,
OpenAPI usage, value conversion and value descriptions between the two
records. Next it deep-merges the four tables (`status_range`, `function`,
`status`, `local_strategy`) with `smart_merge`. Finally it makes device2
share device1's table objects. Each API also has a plugin interface
(`tuya_sharing/init.py`, `tuya_iot/init.py`). There `send_commands` routes
commands by the `local_strategy` flags that the merge aligns, and a few small
selectors choose signals, domains and scenes.

The model is organised as follows.

- `PyValue`, `PyOps`, `Json`: the Python values the merge handles.
  - `None`, `bool`, `int`, `str`, list, tuple, set, and an insertion-ordered
    dict. There is no `float`.
  - Python's `==` (`PyValue.PyEq`): `True == 1`, dicts equal whatever their
    key order, lists and tuples item by item, descriptors field by field.
  - The two descriptor classes `XTDeviceStatusRange` and `XTDeviceFunction`.
  - The raising behaviour of `d.get`, `d[k]` and `d[k] = v`.
  - `json.loads`/`json.dumps` as a `Codec` parameter.
- `Devices`: a table is a `class Table` whose contents the steps update in
  place. A device is a `class Device` holding four table references plus
  `data_model` and `set_up`, so the aliasing at the end of `merge_devices` is
  reference equality.
- `TableWalk`: the loop shape of every repair and alignment step except
  `_align_api_usage`, whose loop carries `prefer` from one dpId to the next
  (`ApiUsage.AlignUpTo`), with a generic proof of what it does to both tables.
  - The loop is `for key in device1.<table>: <body on device1[key] and
    device2.get(key)>`, and an exception ends it.
  - Each step is a function on table contents plus a method on the `Table`
    objects proved to compute it.
- `SmartMerge` and `MergeProperties`: `smart_merge`.
  - `Merge` is a recursive specification that returns the result, the states
    both arguments are left in, and the messages.
  - `Run` is the loop-based procedure, proved equal to it.
  - Lemmas give the union, prefix, JSON-string and idempotence properties.
- `DescriptorRepair`, `TypeAlignment`, `ApiUsage`, `ValueConvert`,
  `ValueDescrAlignment`: the five helper steps. Each is a pure function, a
  method on the devices proved to compute it, and per-entry and per-table
  lemmas.
- `MergingManager`: `merge_devices` itself.
- `ManagerInterface`, `SharingInterface`, `IotInterface`: the two plugin
  interfaces. `SharingAccount` and `IotAccount` are classes over their
  `device_ids` list.

Behaviour of the code worth noting:

- After `_align_valuedescr` the two descriptions agree on every field the
  aligner returned. They are not textually identical as a whole: fields
  outside the returned diff keep their own values
  (`ValueDescrAlignment.AlignedAgree`).
- A repair candidate is accepted when it parses to anything iterable (a
  string or a list too), not only to a mapping.
- The local-strategy repair reads `device1.local_strategy[dpId]` a second time
  where device2's entry would be expected, and re-parses device1's own
  description. So a usable description is assigned to itself, and an unusable
  one is replaced by a wrapper that holds it twice. The second device only
  decides whether the dpId is shared (`DescriptorRepair.LocalStrategyIgnoresSecond`).
- In the IoT `send_commands`, a device without a dpId marks the command as
  skipped but does not end the inner loop. A later device can still raise.

## Model

| member | source | states |
|---|---|---|
| SmartMerge.Merge | custom_components/xtend_tuya/multi_manager/shared/merging_manager.py:259-330 | None on one side returns the other side, both arguments untouched, no message; differing kinds return left with exactly one kind-mismatch message iff a queue was given; booleans and integers return left with one message iff they differ and a queue was given; no queue means no messages; a dict merge returns its own left argument |
| SmartMerge.Children | custom_components/xtend_tuya/multi_manager/shared/merging_manager.py:283-286 | the recursive merges are taken on exactly the keys both dicts hold, and emit nothing without a queue |
| SmartMerge.SharedPass | custom_components/xtend_tuya/multi_manager/shared/merging_manager.py:283-288 | the first key loop adds no message of its own |
| SmartMerge.FillPass | custom_components/xtend_tuya/multi_manager/shared/merging_manager.py:289-291 | the second key loop writes only to left: right's keys, values and the messages are unchanged |
| SmartMerge.FillUpTo | custom_components/xtend_tuya/multi_manager/shared/merging_manager.py:289-291 | any prefix of the second loop leaves right and the messages unchanged |
| SmartMerge.Run | custom_components/xtend_tuya/multi_manager/shared/merging_manager.py:259-330 | the procedure with its loops computes exactly `Merge`: result, both post-states and messages |
| SmartMerge.RunDict | custom_components/xtend_tuya/multi_manager/shared/merging_manager.py:282-292 | the two dict loops leave left and right as the first pass then the fill pass describe, left returned |
| SmartMerge.RunLists | custom_components/xtend_tuya/multi_manager/shared/merging_manager.py:293-300 | the two append loops, each testing `not in` with Python `==`, compute the list merge on both sides |
| MergeProperties.DictMergeUnion | custom_components/xtend_tuya/multi_manager/shared/merging_manager.py:282-292 | both dicts end with the same key set, the union; a shared key holds the recursive merge in both, a one-sided key its original value in both; keys keep their order with new keys appended; left is returned |
| MergeProperties.DictPasses | custom_components/xtend_tuya/multi_manager/shared/merging_manager.py:283-291 | the two key loops, for any outcomes of the shared keys' merges, give the union dict on both sides |
| MergeProperties.SetsInDictBecomeNone | custom_components/xtend_tuya/multi_manager/shared/merging_manager.py:284-306 | a key holding sets in both dicts ends as None in both, as `set.update` returns None |
| MergeProperties.ListMergeUnion | custom_components/xtend_tuya/multi_manager/shared/merging_manager.py:293-300 | each list keeps its original items as a prefix and appends, once each, only items of the other list it held no `==` equal of; afterwards each list holds an equal of every item of either; left is returned and nothing is logged |
| MergeProperties.AppendMissingSpec | custom_components/xtend_tuya/multi_manager/shared/merging_manager.py:294-299 | one append loop keeps its target as prefix, appends only source items with no `==` equal already there, no two appended items equal, and leaves an equal of every source item |
| MergeProperties.AppendMissingPresent | custom_components/xtend_tuya/multi_manager/shared/merging_manager.py:294-299 | appending items that all have an `==` equal present changes nothing |
| MergeProperties.MutuallyPresentKept | custom_components/xtend_tuya/multi_manager/shared/merging_manager.py:293-300 | two lists each holding an equal of every item of the other are both left as they were |
| MergeProperties.BoolEqualsInt | custom_components/xtend_tuya/multi_manager/shared/merging_manager.py:293-300 | `[1]` merged with `[True]` appends nothing to either list |
| MergeProperties.ReorderedDictEqual | custom_components/xtend_tuya/multi_manager/shared/merging_manager.py:293-300 | a one-dict list merged with the same dict in another key order appends nothing |
| MergeProperties.Missing | custom_components/xtend_tuya/multi_manager/shared/merging_manager.py:289-291 | the keys copied over are keys of the source not yet present |
| MergeProperties.MissingMembers | custom_components/xtend_tuya/multi_manager/shared/merging_manager.py:289-291 | a key is copied over iff it is in the source and not yet present |
| MergeProperties.SetMergeIsNone | custom_components/xtend_tuya/multi_manager/shared/merging_manager.py:305-306 | merging two sets returns None |
| MergeProperties.StringMerge | custom_components/xtend_tuya/multi_manager/shared/merging_manager.py:307-326 | both parse: the dump of the merge of the parses with its messages; one parses: its re-serialisation; neither: left, with one message iff they differ and a queue was given; the strings themselves are untouched |
| MergeProperties.SelfMerge | custom_components/xtend_tuya/multi_manager/shared/merging_manager.py:259-330 | merging a value with itself emits no message and, for a value holding no set and only JSON strings that re-serialise to themselves, leaves it and returns it unchanged |
| TableWalk.WalkTables | custom_components/xtend_tuya/multi_manager/shared/merging_manager.py:100-127 | the loop over device1's table keys, on two distinct table objects, leaves both tables as the key-by-key walk describes, keys in place |
| TableWalk.Pass | custom_components/xtend_tuya/multi_manager/shared/merging_manager.py:100-127 | one iteration rewrites the visited key in device1's table and, when present, in device2's, and nothing else |
| TableWalk.WalkPointwise | custom_components/xtend_tuya/multi_manager/shared/merging_manager.py:100-127 | without an exception every key of device1 holds what the body made of its own entries, device2's shared keys likewise, its other keys unchanged; key order and well-formedness kept |
| TableWalk.WalkStops | custom_components/xtend_tuya/multi_manager/shared/merging_manager.py:100-127 | once the body raises, later keys are not visited |
| TableWalk.WalkVisitsQuietly | custom_components/xtend_tuya/multi_manager/shared/merging_manager.py:100-127 | a loop that ends normally had no iteration raise |
| TableWalk.WalkNeverRaises | custom_components/xtend_tuya/multi_manager/shared/merging_manager.py:61-99 | a body that never raises gives a loop that never raises |
| TableWalk.WalkRaisesIff | custom_components/xtend_tuya/multi_manager/shared/merging_manager.py:61-99 | the loop raises iff the body raises on some entry as it stood before the loop |
| TableWalk.WalkKeyBlind | custom_components/xtend_tuya/multi_manager/shared/merging_manager.py:100-127 | when the body reads of device2's entry only whether there is one, every prefix of the loop gives device1 the same table and exception for any two device2 tables with the same keys |
| DescriptorRepair.LocalStrategyKeyBlind | custom_components/xtend_tuya/multi_manager/shared/merging_manager.py:113-127 | the local_strategy body reads of device2's entry only whether device2 has the dpId |
| DescriptorRepair.FixIncorrectValuedescr | custom_components/xtend_tuya/multi_manager/shared/merging_manager.py:60-127 | the three loops, function then status_range then local_strategy, on the device tables, as the repair function describes |
| DescriptorRepair.ErrorWrapper | custom_components/xtend_tuya/multi_manager/shared/merging_manager.py:79-80 | the error wrapper is a serialised string |
| DescriptorRepair.FixFunctionEntry | custom_components/xtend_tuya/multi_manager/shared/merging_manager.py:61-81 | for a broken descriptor (does not parse to a dict, or truthy `ErrorValue1`) whose code device2 holds as a descriptor, both sides end with device2's values when they parse to something iterable, else with the same wrapper of both originals; other descriptors are unchanged; raises iff device1's entry is not a descriptor (unless it is a dict whose code device2 lacks) or a broken descriptor meets a non-descriptor; AttributeError when device1's entry, or device2's beside a dict, has no `values`; TypeError when a dict meets an entry that has `values`, since the wrapper then holds a method `json.dumps` refuses |
| DescriptorRepair.FunctionRepair | custom_components/xtend_tuya/multi_manager/shared/merging_manager.py:61-81 | over the whole function table: never raises on tables of descriptors, always raises when device1 holds an entry with no `values`; without an exception exactly the broken shared codes are repaired as above, on both sides, every other entry unchanged |
| DescriptorRepair.FixStatusRangeEntry | custom_components/xtend_tuya/multi_manager/shared/merging_manager.py:82-99 | raises (AttributeError) iff device1's entry has no `values`; a broken status range takes device2's values only when those are usable; a failed fix changes nothing; device2 is never written |
| DescriptorRepair.StatusRangeRepair | custom_components/xtend_tuya/multi_manager/shared/merging_manager.py:82-99 | over the whole status_range table: raises iff some entry of device1 has no `values`; otherwise device2's table is unchanged, device1's broken shared codes with usable candidates take them, all else unchanged |
| DescriptorRepair.FixLocalStrategyEntry | custom_components/xtend_tuya/multi_manager/shared/merging_manager.py:100-127 | device2's entry is never written; a shared dpId whose description is broken and not iterable gets the wrapper of that description twice; any other entry is unchanged |
| DescriptorRepair.LocalStrategyRepair | custom_components/xtend_tuya/multi_manager/shared/merging_manager.py:100-127 | over the whole local_strategy table: exactly the shared dpIds with unusable descriptions are rewrapped, device2's table is unchanged |
| DescriptorRepair.LocalStrategyIgnoresSecond | custom_components/xtend_tuya/multi_manager/shared/merging_manager.py:113-127 | the local_strategy repair depends on device2 only through which dpIds it has |
| TypeAlignment.AlignDPTypes | custom_components/xtend_tuya/multi_manager/shared/merging_manager.py:193-246 | the three loops on the device tables, as the alignment function describes |
| TypeAlignment.StatusOf | custom_components/xtend_tuya/multi_manager/shared/merging_manager.py:221-229 | the state is device1's status under the code, or device2's when that is None; only an unhashable code raises |
| TypeAlignment.DescriptorTypeEntry | custom_components/xtend_tuya/multi_manager/shared/merging_manager.py:194-217 | on two descriptors: verdict 1 copies device1's type and values onto device2, verdict 2 the reverse, any other verdict changes nothing; after a copy both agree on type and values; no exception |
| TypeAlignment.DescriptorTypeTables | custom_components/xtend_tuya/multi_manager/shared/merging_manager.py:194-217 | over a whole table: raises iff some shared code is not a descriptor on both sides (no `type`); otherwise each shared code is retyped as its verdict says, every other entry unchanged |
| TypeAlignment.LocalTypeEntry | custom_components/xtend_tuya/multi_manager/shared/merging_manager.py:218-246 | with both `config_item`s holding `valueType`, the judge sees them with the state under device1's then device2's `status_code`; verdict 1 copies `valueType` and `valueDesc` to device2, verdict 2 to device1, raising iff the winner lacks `valueDesc`; other verdicts change nothing |
| TypeAlignment.LocalUntypedEntry | custom_components/xtend_tuya/multi_manager/shared/merging_manager.py:230-239 | a pass on two entries that are not both typed either raises or `continue`s with both entries unchanged |
| TypeAlignment.LocalTypeTables | custom_components/xtend_tuya/multi_manager/shared/merging_manager.py:218-246 | over the whole local_strategy table, when no exception: each shared typed dpId is aligned as its verdict says; a shared dpId where either `config_item` is empty or lacks `valueType` is skipped with both entries unchanged; unshared ones unchanged |
| ApiUsage.AlignApiUsage | custom_components/xtend_tuya/multi_manager/shared/merging_manager.py:167-191 | the loop on the two local_strategy tables, as the alignment function describes |
| ApiUsage.AlignTables | custom_components/xtend_tuya/multi_manager/shared/merging_manager.py:168-191 | the loop with `prefer` carried from one dpId to the next computes the fold over device1's dpIds |
| ApiUsage.PassAt | custom_components/xtend_tuya/multi_manager/shared/merging_manager.py:169-191 | one iteration on the tables computes one step of the fold |
| ApiUsage.PassEntry | custom_components/xtend_tuya/multi_manager/shared/merging_manager.py:170-191 | the chain picks device1 if its `use_open_api` is falsy, else device2 if its is, else the same on `property_update`, else keeps the previous `prefer`; unassigned raises UnboundLocalError; the chosen side's `use_open_api`, `property_update` and `status_code` are copied together, raising iff one is missing, after which both agree |
| ApiUsage.CopyFieldsCarries | custom_components/xtend_tuya/multi_manager/shared/merging_manager.py:185-191 | the three assignments succeed iff the source has all three fields, and then write exactly those |
| ApiUsage.FirstSharedUnbound | custom_components/xtend_tuya/multi_manager/shared/merging_manager.py:174-183 | when the first shared dpId has all four flags truthy, the loop raises UnboundLocalError there and nothing has changed |
| ApiUsage.PreferRange | custom_components/xtend_tuya/multi_manager/shared/merging_manager.py:174-183 | `prefer` is only ever unassigned, 1 or 2 |
| ApiUsage.PassSettles | custom_components/xtend_tuya/multi_manager/shared/merging_manager.py:174-191 | `prefer` stays unassigned, 1 or 2; a quiet iteration leaves one side's entry as it was (holding all three fields) and the other side's with exactly those three fields overwritten by it, so the two agree on them; the kept side is the chain's winner when the chain decides, else the previous dpId's winner |
| ApiUsage.ApiTables | custom_components/xtend_tuya/multi_manager/shared/merging_manager.py:167-191 | without an exception, at every shared dpId one side kept its entry and the other took its three fields with every other field unchanged, the kept side being the chain's winner whenever the chain decides; every one-sided entry unchanged |
| ApiUsage.NothingShared | custom_components/xtend_tuya/multi_manager/shared/merging_manager.py:168-169 | dpIds device2 lacks change nothing |
| ApiUsage.Stops | custom_components/xtend_tuya/multi_manager/shared/merging_manager.py:167-191 | once an iteration raises, later dpIds are not visited |
| ValueConvert.PreferNonDefaultValueConvert | custom_components/xtend_tuya/multi_manager/shared/merging_manager.py:248-257 | the loop on the two local_strategy tables, as the preference function describes |
| ValueConvert.PreferEntry | custom_components/xtend_tuya/multi_manager/shared/merging_manager.py:250-257 | `value_convert`s that are `==` change nothing; differing ones: device1's wins unless it is "default" or None, both then hold the winner and nothing else changes; raises iff the winner's key is absent |
| ValueConvert.PreferTables | custom_components/xtend_tuya/multi_manager/shared/merging_manager.py:248-257 | over the whole table, when no exception: exactly the shared dpIds that disagree now agree on the winner |
| ValueDescrAlignment.AlignPair | custom_components/xtend_tuya/multi_manager/shared/merging_manager.py:135-137 | applying the aligner's dict succeeds iff it is empty or both descriptions are dicts; an empty one changes nothing; the only error is TypeError |
| ValueDescrAlignment.ApplyDiff | custom_components/xtend_tuya/multi_manager/shared/merging_manager.py:135-137 | the assignment loop computes the pairwise overlay |
| ValueDescrAlignment.Overlay | custom_components/xtend_tuya/multi_manager/shared/merging_manager.py:135-137 | the overlay is a dict; what it holds is stated by `OverlayFields` |
| ValueDescrAlignment.OverlayFields | custom_components/xtend_tuya/multi_manager/shared/merging_manager.py:135-137 | after the loop the description is its old entries overwritten by the whole diff, new fields appended in diff order |
| ValueDescrAlignment.AlignedAgree | custom_components/xtend_tuya/multi_manager/shared/merging_manager.py:132-139 | both aligned descriptions hold every diff field with the diff's value, and otherwise their own entries |
| ValueDescrAlignment.Realign | custom_components/xtend_tuya/multi_manager/shared/merging_manager.py:132-139 | a successful realignment yields two strings; what they serialise is stated by `RealignWellFormed` |
| ValueDescrAlignment.RealignWellFormed | custom_components/xtend_tuya/multi_manager/shared/merging_manager.py:132-139 | with parsable descriptions and a dict diff, the rewrite succeeds and dumps both overlays |
| ValueDescrAlignment.AlignValuedescr | custom_components/xtend_tuya/multi_manager/shared/merging_manager.py:129-165 | the three loops on the device tables, as the alignment function describes |
| ValueDescrAlignment.DescriptorEntry | custom_components/xtend_tuya/multi_manager/shared/merging_manager.py:130-149 | on two descriptors: `==` value strings change nothing; different ones are both rewritten by the realignment, raising iff it fails, with device1's parse error first |
| ValueDescrAlignment.NonDescriptorRaises | custom_components/xtend_tuya/multi_manager/shared/merging_manager.py:130-149 | a shared code passes quietly only when both entries are descriptors; an entry with no `values` raises AttributeError |
| ValueDescrAlignment.DescriptorTables | custom_components/xtend_tuya/multi_manager/shared/merging_manager.py:130-149 | over a whole table, when no exception: every shared code held descriptors on both sides, and exactly the shared codes with differing values are realigned |
| ValueDescrAlignment.LocalStrategyEntry | custom_components/xtend_tuya/multi_manager/shared/merging_manager.py:150-165 | with both `config_item`s and `valueDesc`s non-None, both descriptions are realigned (even when equal); a None `config_item` or a None `valueDesc` on either side changes nothing; any other entry pair that is not described raises or is left alone |
| ValueDescrAlignment.LocalStrategyTables | custom_components/xtend_tuya/multi_manager/shared/merging_manager.py:150-165 | over the whole table, when no exception: exactly the shared described dpIds are realigned; every other entry of either table, shared or not, is unchanged |
| MergingManager.MergeDevices | custom_components/xtend_tuya/multi_manager/shared/merging_manager.py:20-58 | the steps in order; an exception leaves both devices as the steps left them; otherwise device1 holds the merged tables, device2's four table fields are device1's very objects, its old tables hold the merge's right-hand states, and `data_model` and `set_up` come from device1 if truthy, else device2 |
| MergingManager.PrepareDevices | custom_components/xtend_tuya/multi_manager/shared/merging_manager.py:24-33 | repair then alignment, as the function describes |
| MergingManager.RepairDevices | custom_components/xtend_tuya/multi_manager/shared/merging_manager.py:24-27 | repair each way, then the cloud fixes on each device |
| MergingManager.AlignDevices | custom_components/xtend_tuya/multi_manager/shared/merging_manager.py:30-33 | types, API usage, value conversion, value descriptions, stopping at an exception |
| MergingManager.ApplyFixes | custom_components/xtend_tuya/multi_manager/shared/merging_manager.py:26-27 | the device's tables hold the fixed contents |
| MergingManager.MergeAll | custom_components/xtend_tuya/multi_manager/shared/merging_manager.py:36-40 | the four merges, `status` without a queue, messages in order |
| MergingManager.MergeTable | custom_components/xtend_tuya/multi_manager/shared/merging_manager.py:37-40 | one table merge in place: device1's table holds the result |
| MergingManager.Share | custom_components/xtend_tuya/multi_manager/shared/merging_manager.py:47-58 | device2's four tables are device1's objects; `data_model` and `set_up` chosen as `Pick` says |
| MergingManager.Pick | custom_components/xtend_tuya/multi_manager/shared/merging_manager.py:51-58 | if either side is truthy both end equal and truthy, device1's value first; otherwise both keep their own |
| MergingManager.TableUnites | custom_components/xtend_tuya/multi_manager/shared/merging_manager.py:37-40 | a table merge leaves both sides with the union table |
| MergingManager.MergeRecordsUnite | custom_components/xtend_tuya/multi_manager/shared/merging_manager.py:36-40 | all four table merges give both devices the union tables |
| ManagerInterface.LocalEntry | custom_components/xtend_tuya/multi_manager/tuya_iot/init.py:213 | `local_strategy[dpId]` succeeds iff the dpId is hashable and present |
| ManagerInterface.EntryFlag | custom_components/xtend_tuya/multi_manager/tuya_iot/init.py:213-216 | reading a flag succeeds iff the entry exists and is a dict, and then is its truth value, missing meaning False |
| ManagerInterface.StrOf | custom_components/xtend_tuya/multi_manager/tuya_iot/init.py:228 | `str` of a string is the string |
| SharingInterface.SendCommands | custom_components/xtend_tuya/multi_manager/tuya_sharing/init.py:243-261 | the commands kept by the filter are sent, and no call is made when none is kept; a lookup error raises before anything is sent |
| SharingInterface.InnerLoop | custom_components/xtend_tuya/multi_manager/tuya_sharing/init.py:251-256 | the `skip_command` loop computes the device fold |
| SharingInterface.OpenApiDecides | custom_components/xtend_tuya/multi_manager/tuya_sharing/init.py:251-256 | a command is skipped iff some device maps its code to a truthy dpId whose entry has a truthy `use_open_api`; resolvable lookups never raise |
| SharingInterface.OpenApiStops | custom_components/xtend_tuya/multi_manager/tuya_sharing/init.py:252-256 | after `break` the remaining devices are not examined |
| SharingInterface.RegularKeeps | custom_components/xtend_tuya/multi_manager/tuya_sharing/init.py:246-258 | the forwarded list is the filtered commands in original order; commands with codes and resolvable dpIds never raise |
| SharingInterface.RegularStops | custom_components/xtend_tuya/multi_manager/tuya_sharing/init.py:246-258 | once a command raises, later ones change nothing |
| SharingInterface.KeptMembers | custom_components/xtend_tuya/multi_manager/tuya_sharing/init.py:246-258 | a command is forwarded iff it was given and no device routes its code to OpenAPI |
| SharingInterface.ClassifySpec | custom_components/xtend_tuya/multi_manager/tuya_sharing/init.py:149-158 | an exception whose text contains "sign invalid" becomes ConfigEntryNotReady with `reuse_config`, else ConfigEntryAuthFailed; any other is re-raised unchanged |
| SharingInterface.SubstringAt | custom_components/xtend_tuya/multi_manager/tuya_sharing/init.py:152 | `in` on strings holds iff the text occurs at some position |
| SharingInterface.SharingAccount.UpdateDeviceCache | custom_components/xtend_tuya/multi_manager/tuya_sharing/init.py:143-158 | on success `device_ids` is exactly the keys of `device_map`, in order; on an exception it is unchanged and the exception is classified |
| SharingInterface.SharingAccount.OnUpdateDevice | custom_components/xtend_tuya/multi_manager/tuya_sharing/init.py:206-215 | UPDATE_ENTITY iff the device is known, then UPDATE_ENTITY_ORIG iff `reuse_config`; None instead of an empty list |
| SharingInterface.SharingAccount.OnAddDevice | custom_components/xtend_tuya/multi_manager/tuya_sharing/init.py:217-225 | DISCOVERY_NEW iff the device is known, then DISCOVERY_NEW_ORIG iff `reuse_config`; None instead of an empty list |
| SharingInterface.SharingAccount.RegistryIdentifiers | custom_components/xtend_tuya/multi_manager/tuya_sharing/init.py:191-194 | ends with DOMAIN, preceded by DOMAIN_ORIG exactly when `reuse_config` |
| SharingInterface.SharingAccount.QueryScenes | custom_components/xtend_tuya/multi_manager/tuya_sharing/init.py:180-183 | no scenes with `reuse_config`, otherwise the device manager's |
| IotInterface.CheckOptions | custom_components/xtend_tuya/multi_manager/tuya_iot/init.py:86-98 | None iff the options are None or any of the eight required keys is missing; otherwise the credentials are the options' values |
| IotInterface.ConnectArgs | custom_components/xtend_tuya/multi_manager/tuya_iot/init.py:107-119 | `connect` gets username and password, plus country code and app type exactly when the auth type is not CUSTOM |
| IotInterface.SendCommands | custom_components/xtend_tuya/multi_manager/tuya_iot/init.py:199-236 | the routed commands are partitioned into the regular and the property list; each is sent iff non-empty; a lookup error raises before anything is sent |
| IotInterface.Partition | custom_components/xtend_tuya/multi_manager/tuya_iot/init.py:203-236 | the outer loop computes the partition fold of the commands' routes |
| IotInterface.RouteCommand | custom_components/xtend_tuya/multi_manager/tuya_iot/init.py:203-229 | one outer iteration computes the command's route |
| IotInterface.Append | custom_components/xtend_tuya/multi_manager/tuya_iot/init.py:222-229 | the appends perform one step of the partition |
| IotInterface.ScanDevices | custom_components/xtend_tuya/multi_manager/tuya_iot/init.py:208-221 | the inner loop with its three flags computes the device fold |
| IotInterface.ScanStops | custom_components/xtend_tuya/multi_manager/tuya_iot/init.py:213-215 | after `break` or an exception the remaining devices are not examined |
| IotInterface.ScanRaises | custom_components/xtend_tuya/multi_manager/tuya_iot/init.py:211-221 | the loop raises iff some device's lookup fails before any device breaks it |
| IotInterface.ScanSkips | custom_components/xtend_tuya/multi_manager/tuya_iot/init.py:211-221 | the loop breaks iff some device has a falsy `use_open_api`; the command is skipped iff some device lacks a dpId or breaks |
| IotInterface.ScanFlags | custom_components/xtend_tuya/multi_manager/tuya_iot/init.py:211-221 | an unskipped command saw only OpenAPI entries; `regular_command` iff some has a falsy `property_update`, `prop_command` iff some has a truthy one; the entry used is the last device's |
| IotInterface.Verdicts | custom_components/xtend_tuya/multi_manager/tuya_iot/init.py:211-221 | one verdict per device |
| IotInterface.Routes | custom_components/xtend_tuya/multi_manager/tuya_iot/init.py:203-229 | one route per command |
| IotInterface.ExamineSpec | custom_components/xtend_tuya/multi_manager/tuya_iot/init.py:212-221 | a device's lookup fails iff its dpId is truthy and unresolvable; otherwise it drops the command iff it lacks a dpId or has a falsy `use_open_api`, and it asks for a property update iff `property_update` is truthy |
| IotInterface.VerdictsSpec | custom_components/xtend_tuya/multi_manager/tuya_iot/init.py:211-221 | the same, for every device |
| IotInterface.RouteRaises | custom_components/xtend_tuya/multi_manager/tuya_iot/init.py:203-229 | routing succeeds only for a dict with "code" and "value", and always does for one whose code resolves on every device |
| IotInterface.RouteSpec | custom_components/xtend_tuya/multi_manager/tuya_iot/init.py:208-229 | dropped iff there are no devices or some device drops it; regular `{"code", "value"}` iff kept and some device has a falsy `property_update`; property `{str(code): prepared value}`, prepared from the last device's entry, iff kept and all have it truthy |
| IotInterface.PartitionMembers | custom_components/xtend_tuya/multi_manager/tuya_iot/init.py:203-229 | the partition succeeds iff every command routes; a dict is in a list iff some command was routed there with it |
| IotInterface.PartitionKeepsOrder | custom_components/xtend_tuya/multi_manager/tuya_iot/init.py:203-229 | each list only grows at its end, so command order is kept |
| IotInterface.PartitionStops | custom_components/xtend_tuya/multi_manager/tuya_iot/init.py:203-229 | once a command raises, later ones change nothing |
| IotInterface.IotAccount.UpdateDeviceCache | custom_components/xtend_tuya/multi_manager/tuya_iot/init.py:137-141 | on success `device_ids` is exactly the keys of `device_map`, in order; an exception propagates with `device_ids` unchanged |
| IotInterface.IotAccount.OnUpdateDevice | custom_components/xtend_tuya/multi_manager/tuya_iot/init.py:175-178 | a one-element UPDATE_ENTITY list iff the device is known, else None |
| IotInterface.IotAccount.OnAddDevice | custom_components/xtend_tuya/multi_manager/tuya_iot/init.py:180-183 | a one-element DISCOVERY_NEW list iff the device is known, else None |
| IotInterface.IotAccount.RegistryIdentifiers | custom_components/xtend_tuya/multi_manager/tuya_iot/init.py:169-170 | DOMAIN only, never DOMAIN_ORIG |
| IotInterface.IotAccount.QueryScenes | custom_components/xtend_tuya/multi_manager/tuya_iot/init.py:158-161 | no scenes |
| PyOps.DictGet | custom_components/xtend_tuya/multi_manager/shared/merging_manager.py:170-173 | `d.get(k)` succeeds iff `d` is a dict and `k` hashable, giving the stored value or None |
| PyOps.Subscript | custom_components/xtend_tuya/multi_manager/tuya_iot/init.py:204-205 | `d[k]` succeeds iff `d` is a dict holding `k` |
| PyOps.SetItem | custom_components/xtend_tuya/multi_manager/shared/merging_manager.py:185-191 | `d[k] = v` succeeds iff `d` is a dict, and then updates exactly `k` |
| PyValue.Put | custom_components/xtend_tuya/multi_manager/shared/merging_manager.py:285-291 | assigning a key keeps an existing key's place and appends a new one |

## Left out

- Logging (`LOGGER`) and the `copy.deepcopy` snapshots used only for log text. Messages are structured values, not formatted strings.
- `CloudFixes.apply_fixes`, `determine_most_plausible` and `compute_aligned_valuedescr` are not part of this model. They are parameters of `MergingManager.Env`.
- `json.loads`/`json.dumps` are a `Codec` parameter. A parse is assumed to be no larger than its text. `Json.Dumps` is total: Python's `json.dumps` raises TypeError on a set or another value it cannot serialise (a set-valued descriptor `values` reaching the error wrapper, an aligner diff holding a set), and the model does not raise there.
- There is no `float` value: `json.loads("1.5")` has no image in the model, and an int/float pair, which `smart_merge` treats as a kind mismatch, cannot arise.
- `_read_dpId_from_code`, `get_devices_from_device_id`, `prepare_value_for_property_update` and `str()` of non-strings are parameters. The devices are passed in as `DeviceView`s.
- The constant modules are not part of this model: signals and domains are symbolic, and only the string "sign invalid" is spelled out.
- Home Assistant and Tuya SDK plumbing is not modelled: API construction, `connect`, MQ, listeners, the device managers' own `update_device_cache`, `send_commands`, `send_property_update` and `query_scenes`. Their results are inputs, and what would be sent is returned.
- `_init_from_entry` past the option check is not modelled: the `AuthType` conversion, the connect response check and account construction. `ConnectArgs` states only which arguments `connect` receives.
- `tuya_iot/ipc/xt_tuya_iot_ipc_manager.py` is not part of this model. Async execution and concurrency are not modelled.
- MergingManager.MergeDevices: the repair and alignment steps require the eight tables of the two devices to be distinct objects. Re-merging two devices that already share tables is not modelled.
- SmartMerge.Merge: after a merge Python leaves nested dicts, lists and descriptors shared between left and right (`right[key] = left[key]`). The model gives both sides equal values, not shared objects.
- SmartMerge.Merge: the tuple branch merges copies. Python's exact-type test is modelled by value kind, so subclasses of the modelled types are not distinguished.
- SmartMerge.Merge: dictionary keys and set elements are compared as the model stores them, so `1` and `True` are two different keys or elements there while Python treats them as one. Lists, tuples and the `!=` tests use Python's `==`.
- AlignPair: the aligner is taken to return a dict, as `compute_aligned_valuedescr` does; iterating over another kind of diff is not modelled. Assigning a field into a list description (possible in Python with integer keys) is modelled as a TypeError.
- OnUpdateDevice (`SharingInterface.SharingAccount`): the `device_manager.copy_statuses_to_tuya(device)` call made under `reuse_config` is SDK plumbing and is not modelled; only the returned signals are.
- MergingManager.Env: `apply_fixes` is one function from a device's four tables to new tables, the same for both devices. It raises nothing. A fix that reads other device fields, writes fields other than the four tables, replaces the table objects rather than their contents, or raises, is not modelled.
- SharingInterface.SendCommands and IotInterface.SendCommands: `device_id` is not modelled. The two send calls are represented by the lists they would receive.
