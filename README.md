# MELCloud integration core, modelled in Dafny

This project models the device layer of the MELCloud Home Assistant
integration (`custom_components/melcloudwitherv/__init__.py`). That layer has
three parts:

- **`MelCloudDevice`** wraps one cloud device handle. It keeps an availability
  flag. A refresh (`async_update`) or a write (`async_set`) sets the flag from
  its outcome when the call runs and raises nothing; otherwise the flag keeps
  its value. Refreshes pass through a throttle that admits at most one
  call per five minutes.
- **Registry metadata.** `device_info` and `zone_device_info` derive the
  registry records of a device and of its heating zones: the `mac-serial` and
  `mac-serial-zoneindex` identifiers, the model string and the parent link.
- **Fleet setup and teardown.** `mel_devices_setup` wraps every device of the
  fetched inventory. `async_setup_entry` turns setup failures into
  "authentication failed" or "not ready". `async_unload_entry` drops the
  entry's fleet from `hass.data`, and drops the domain key once it is empty.

Modules, one per component:

- `remote.dfy`, module `Remote`: what the wrapper reads from a device handle.
  This covers `Device`, `Unit` and `Zone`, the property values of a write, and
  `RemoteResult`. `RemoteResult` is how a remote `update()` or `set()` call
  ended: `Ok`, `ConnError` (a `ClientConnectionError`), `Resp(status)` (a
  `ClientResponseError`), `AttrErr` (an `AttributeError`) or `Other` (any other
  exception).
- `registry.dfy`, module `Registry`: the registry records, the model string,
  the identifiers, and their inverses (a splitter for the model string and a
  decimal parser for the zone index). The inverses are used to prove that the
  derived strings lose no information.
- `wrapper.dfy`, module `Wrapper`: the throttle, the effect of each outcome on
  availability, and the class `MelCloudDevice`.
- `setup.dfy`, module `Setup`: wrapping the inventory, classifying setup
  failures, and the integration's part of `hass.data`.

How the model stands in for what it cannot see:

- A remote call is not made. Its outcome is a `RemoteResult` parameter of
  `AsyncUpdate` and `AsyncSet`.
- The clock is a parameter `now`, an integer count of microseconds, the
  resolution of Python's `datetime`.
- The inventory fetch (`get_devices` under `asyncio.timeout(10)`) is a `Fetch`
  parameter. It is either the inventory or the failure the fetch raised
  (`Timeout`, `ConnectionFailed`, `ResponseError(status)`, `OtherError`).
- Python exceptions that escape a call are returned as values. `raised` is the
  exception out of `AsyncUpdate` or `AsyncSet`. `EntrySetup.Raised` and
  `EntryUnload.MissingKey` play the same role for setup and unload.
- The integration's domain name is defined in `const.py`, which is not part of
  this model. It is a `domain` parameter.
- The `available` property is the field `MelCloudDevice.available`.
- `device_id` and `building_id` are the `Device` fields `deviceId` and
  `buildingId`.

The throttle decorator's source (Home Assistant's `Throttle`) is not part of
this model. It is modelled as a minimum-interval check with this behaviour:

- The first call is admitted.
- A later call is admitted only when strictly more than
  `MIN_TIME_BETWEEN_UPDATES` (line 31, five minutes) has passed since the last
  admitted call.
- A call that is not admitted does nothing and returns no error.
- The last-run time is stamped as soon as a call is admitted. This holds also
  when the remote `update()` then raises. The decorated method is a coroutine
  function, so it returns before it is awaited.

Ghost history fields make the throttle's promise and the write pass-through
statable:

- `MelCloudDevice.refreshTimes` lists the instants of every remote `update()`
  issued. The object invariant `Valid()` keeps consecutive entries more than
  one interval apart.
- `MelCloudDevice.writes` lists every property map handed to the remote `set()`.

## Model

| member | source | states |
|---|---|---|
| `Wrapper.MelCloudDevice.constructor` | custom_components/melcloudwitherv/__init__.py:124-128 | A new wrapper holds the given handle. Its name is the handle's name at construction. It is available, has never been refreshed and has issued no write. |
| `Wrapper.ThrottleAllows` | custom_components/melcloudwitherv/__init__.py:130 | The first refresh is admitted. A later one is admitted exactly when more than the five-minute interval has passed since the last admitted one. |
| `Wrapper.ThrottleAllowsLater` | custom_components/melcloudwitherv/__init__.py:130 | A refresh admitted at some instant would also be admitted at any later instant. |
| `Wrapper.SpacedAllPairs` | custom_components/melcloudwitherv/__init__.py:130-131 | In a history the throttle produced, any two remote `update()` instants, not only consecutive ones, lie more than five minutes apart. |
| `Wrapper.AdmittedAfterEveryRefresh` | custom_components/melcloudwitherv/__init__.py:130-131 | A refresh the throttle admits lies more than five minutes after every remote `update()` the wrapper has ever issued. |
| `Wrapper.UpdateEffect` | custom_components/melcloudwitherv/__init__.py:133-158 | After a remote `update()`: success and any non-401 response error leave the device available; a connection error or an AttributeError make it unavailable. Only a 401 or an uncaught exception escapes, and then availability keeps its previous value. |
| `Wrapper.SetEffect` | custom_components/melcloudwitherv/__init__.py:162-167 | After a remote `set()`: success makes the device available, a connection error unavailable, and neither raises. Every other outcome escapes and leaves availability unchanged. |
| `Wrapper.AvailabilityForgetsHistory` | custom_components/melcloudwitherv/__init__.py:133-167 | When a refresh or write raises nothing, the new availability does not depend on the old one. |
| `Wrapper.WritesAbsorbLess` | custom_components/melcloudwitherv/__init__.py:133-167 | Every outcome that escapes a refresh also escapes a write. On success and on a connection error, refresh and write have the same effect. |
| `Wrapper.MelCloudDevice.AsyncUpdate` | custom_components/melcloudwitherv/__init__.py:130-158 | A refresh the throttle refuses issues no remote `update()` and changes nothing. An admitted refresh stamps `now`, records one remote `update()`, and sets availability and the escaping exception as `UpdateEffect` says. The spacing invariant is kept and writes are untouched. |
| `Wrapper.MelCloudDevice.AsyncSet` | custom_components/melcloudwitherv/__init__.py:160-167 | A write records exactly one remote `set()` of the given properties, whatever the throttle state. It sets availability and the escaping exception as `SetEffect` says and leaves the throttle alone. |
| `Wrapper.RefreshTwiceWithinInterval` | custom_components/melcloudwitherv/__init__.py:130-131 | Of two refreshes at most five minutes apart, at most one reaches the remote `update()`. |
| `Registry.NonEmptyModels` | custom_components/melcloudwitherv/__init__.py:189 | Every kept model is non-empty and belongs to a unit, and every non-empty unit model is kept. Order and repetitions are pinned down by the next two lemmas. |
| `Registry.NonEmptyModelsAppend` | custom_components/melcloudwitherv/__init__.py:189 | Filtering a concatenation of unit lists gives the concatenation of the filtered lists. So the kept models follow the units' order, with duplicates kept. |
| `Registry.NonEmptyModelsSingle` | custom_components/melcloudwitherv/__init__.py:189 | A single unit contributes its model when the model is non-empty, and nothing otherwise. |
| `Registry.Join` | custom_components/melcloudwitherv/__init__.py:189 | Joining no models gives the empty string. Otherwise the first model is a prefix of the result. |
| `Registry.ModelString` | custom_components/melcloudwitherv/__init__.py:187-189 | There is a model string exactly when the handle reports units. |
| `Registry.ModelStringEmpty` | custom_components/melcloudwitherv/__init__.py:187-189 | The model string is `""` exactly when every unit model is empty. |
| `Registry.ModelStringExample` | custom_components/melcloudwitherv/__init__.py:189 | Units with models "A", "" and "B" give the model string "A, B". |
| `Registry.SplitJoin` | custom_components/melcloudwitherv/__init__.py:189 | Splitting a non-empty join of models at `", "` gives the models back, provided no model contains `", "`. |
| `Registry.ModelStringRecoversModels` | custom_components/melcloudwitherv/__init__.py:189 | The model string determines the list of non-empty unit models, in order, when no model contains the separator. |
| `Registry.DecimalString` | custom_components/melcloudwitherv/__init__.py:202 | The zone index is written as a non-empty string of decimal digits. It starts with `0` only for index 0, so there is never a leading zero. |
| `Registry.DecimalRoundTrip` | custom_components/melcloudwitherv/__init__.py:202 | Parsing the written zone index gives the index back. |
| `Registry.DeviceIdentifier` | custom_components/melcloudwitherv/__init__.py:192 | The device identifier is the MAC, a dash, and then exactly the serial. |
| `Registry.ZoneIdentifier` | custom_components/melcloudwitherv/__init__.py:202 | A zone identifier starts with the device identifier and a dash, and is longer than both together. So it is never the device identifier. |
| `Registry.ZoneIdentifierDecomposes` | custom_components/melcloudwitherv/__init__.py:191-206 | A zone identifier starts with the device identifier `mac-serial` and a dash. The rest of it is the zone index in decimal, which can be read back. |
| `Registry.ZoneIdentifiersDistinct` | custom_components/melcloudwitherv/__init__.py:191-206 | Zones of one device with different indices get different identifiers. No zone identifier equals the device identifier. |
| `Registry.DeviceInfoOf` | custom_components/melcloudwitherv/__init__.py:185-196 | The record of wrapper `w`'s device has the handle's MAC as its network connection and `mac-serial` as its identifier. Its manufacturer is "Mitsubishi Electric", its model is the model string, its name is `w.name`, and it has no parent. |
| `Registry.ZoneDeviceInfoOf` | custom_components/melcloudwitherv/__init__.py:198-207 | The zone record's identifier is the zone identifier, and it shares no identifier with the device record. Its parent link is the device record's identifier. Its name is `w.name`, a space and the zone name. Its model is "ATW zone device" and it has no connections. |
| `Setup.WrapDevices` | custom_components/melcloudwitherv/__init__.py:223 | One new, distinct, initial wrapper per device, in the devices' order. Each wrapper holds its device and the device's name. |
| `Setup.MelDevicesSetup` | custom_components/melcloudwitherv/__init__.py:209-224 | A failed fetch is passed on as it is. Otherwise the fleet has exactly the inventory's device types: each type maps to new initial wrappers of its devices, in order, and no wrapper appears twice. |
| `Setup.AddTypePreservesWrapping` | custom_components/melcloudwitherv/__init__.py:221-224 | Adding the fresh wrappers of one more device type keeps the partial fleet a faithful wrapping of the inventory seen so far. |
| `Setup.ClassifySetupError` | custom_components/melcloudwitherv/__init__.py:96-103 | Setup reports "authentication failed" exactly for a 401 response. It reports "not ready" exactly for another response status, a timeout or a connection error. Any other exception escapes unchanged. |
| `Setup.StoreEntry` | custom_components/melcloudwitherv/__init__.py:105 | The entry's fleet is stored under the domain, which is created if missing. Every other entry and every other domain is kept. |
| `Setup.DropEntry` | custom_components/melcloudwitherv/__init__.py:115-117 | The entry is removed. The domain key disappears exactly when it held only that entry. Other domains are kept. |
| `Setup.StoreThenDrop` | custom_components/melcloudwitherv/__init__.py:105-117 | Storing a new entry and then unloading it restores `hass.data`, as long as the domain key is never left empty. |
| `Setup.AsyncSetupEntry` | custom_components/melcloudwitherv/__init__.py:91-107 | A failed fetch gives the classified outcome and leaves `hass.data` unchanged. A successful fetch stores a fleet of new wrappers, one per device of the inventory, under the domain and entry id, and reports the entry loaded. No stored wrapper is shared with an earlier entry. |
| `Setup.AsyncUnloadEntry` | custom_components/melcloudwitherv/__init__.py:110-118 | A stored entry is dropped, whatever the platforms reported, and their result is returned. A missing domain or entry raises KeyError and changes nothing. |

## Left out

- `_async_migrate_pymelcloud_package` (lines 35-88) is not modelled. It is pip subprocess calls, `sys.modules` surgery and global re-imports, all process-level I/O.
- Forwarding and unloading the entity platforms (lines 106 and 112-114) are not modelled. Their result is the `platformsUnloaded` parameter of `AsyncUnloadEntry`.
- The network fetch `get_devices`, its 10-second deadline, and its accessor-level settings (15-minute configuration refresh, 2-second write debounce) are not modelled. Only the outcome of the fetch is, as a `Fetch` value.
- Logging is not modelled. It has no effect on the state.
- The internals of the handle's `update()` and `set()` are foreign code and are not modelled. The handle's attributes are an immutable `Device` value, so a refresh does not change the units, MAC or serial the registry records read.
- `Wrapper.ThrottleAllows`: the throttle decorator's lock and its `no_throttle` keyword are not modelled. The lock turns away a concurrent caller; the keyword bypasses the interval. It is a plain minimum-interval check.
- Concurrent refreshes and writes on one wrapper are not modelled. This is async scheduling; the model runs calls one after another.
- The fleet is a Dafny `map`, which has no order of keys. The order of devices within a type is modelled; the insertion order of the device types is not.
- `hass.data` is modelled only as far as the integration uses it: a map from domain name to that domain's entries.
- `Registry.DecimalString`: zone indices are modelled as non-negative integers, so the sign that Python would print for a negative index is not modelled.
- `Registry.NonEmptyModels`: a unit's model is a string, and a missing or `None` model is represented as `""`. Both are falsy, and the source drops both. A unit dictionary without a `"model"` key (a KeyError in the source) is not modelled.
- The entity adapters in `select.py` and `switch.py` are not part of this model. They call the handle's `set()` directly rather than `MelCloudDevice.async_set`, so their writes never change `available`.
