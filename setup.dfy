/** Loading and unloading the integration: building one wrapper per device of
    the inventory, turning setup failures into the hub's two retry signals, and
    keeping the per-entry fleets under the integration's domain in `hass.data`. */
module Setup {
  import opened Remote
  import opened Wrapper

  /** The inventory the accessor library returns: device type to devices. */
  type Inventory = map<string, seq<Device>>
  /** The wrapped inventory: device type to wrappers. */
  type Fleet = map<string, seq<MelCloudDevice>>
  /** The fleets stored under the integration's domain, by config-entry id. */
  type Entries = map<string, Fleet>

  /** How fetching the inventory under its 10-second deadline failed. */
  datatype SetupError =
    | Timeout
    | ConnectionFailed
    | ResponseError(status: int)
    | OtherError

  /** What fetching the inventory produced. */
  datatype Fetch = Fetched(inventory: Inventory) | FetchFailed(error: SetupError)

  datatype Result<+T, +E> = Success(value: T) | Failure(error: E)

  /** How `async_setup_entry` ends: loaded, `ConfigEntryAuthFailed`,
      `ConfigEntryNotReady`, or with an exception it does not catch. */
  datatype EntrySetup = Loaded | AuthFailed | NotReady | Raised(error: SetupError)

  /** How `async_unload_entry` ends: with the platforms' unload result, or with
      a KeyError because the entry was not stored. */
  datatype EntryUnload = Unloaded(ok: bool) | MissingKey

  // ---------------------------------------------------------------------------
  // Wrapping the inventory

  /** `ws` holds one distinct, untouched wrapper per device, in order. */
  ghost predicate WrapsAll(ws: seq<MelCloudDevice>, devices: seq<Device>)
    reads set i | 0 <= i < |ws| :: ws[i]
  {
    && |ws| == |devices|
    && (forall i :: 0 <= i < |ws| ==>
          ws[i].device == devices[i] && ws[i].name == devices[i].name && ws[i].Initial())
    && (forall i, j :: 0 <= i < j < |ws| ==> ws[i] != ws[j])
  }

  /** The set of wrappers a fleet holds. */
  ghost function Wrappers(fleet: Fleet): set<MelCloudDevice>
  {
    set k, i | k in fleet && 0 <= i < |fleet[k]| :: fleet[k][i]
  }

  /** `fleet` has the inventory's device types, wraps each type's devices in
      order, and no wrapper sits at two places. */
  ghost predicate WrapsInventory(fleet: Fleet, inventory: Inventory)
    reads Wrappers(fleet)
  {
    && fleet.Keys == inventory.Keys
    && (forall k :: k in fleet ==> WrapsAll(fleet[k], inventory[k]))
    && (forall k1, i, k2, j ::
          (k1 in fleet && k2 in fleet && 0 <= i < |fleet[k1]| && 0 <= j < |fleet[k2]| &&
           (k1 != k2 || i != j)) ==> fleet[k1][i] != fleet[k2][j])
  }

  /** The list comprehension that wraps the devices of one type. */
  method WrapDevices(devices: seq<Device>) returns (ws: seq<MelCloudDevice>)
    ensures WrapsAll(ws, devices)
    ensures forall i :: 0 <= i < |ws| ==> fresh(ws[i])
  {
    ws := [];
    for n := 0 to |devices|
      invariant WrapsAll(ws, devices[..n])
      invariant forall i :: 0 <= i < |ws| ==> fresh(ws[i])
    {
      var w := new MelCloudDevice(devices[n]);
      ws := ws + [w];
    }
    assert devices[..|devices|] == devices;
  }

  /** `mel_devices_setup`: the fetch failure as it is, or one new wrapper per
      device of the inventory. */
  method MelDevicesSetup(fetch: Fetch) returns (r: Result<Fleet, SetupError>)
    ensures fetch.FetchFailed? ==> r == Failure(fetch.error)
    ensures fetch.Fetched? ==> r.Success? && WrapsInventory(r.value, fetch.inventory)
    ensures r.Success? ==> forall w :: w in Wrappers(r.value) ==> fresh(w)
  {
    if fetch.FetchFailed? {
      return Failure(fetch.error);
    }
    var inventory := fetch.inventory;
    var wrapped: Fleet := map[];
    var todo := inventory.Keys;
    while todo != {}
      invariant todo <= inventory.Keys
      invariant wrapped.Keys == inventory.Keys - todo
      invariant WrapsInventory(wrapped, map k | k in wrapped :: inventory[k])
      invariant forall w :: w in Wrappers(wrapped) ==> fresh(w)
      decreases todo
    {
      var k :| k in todo;
      var ws := WrapDevices(inventory[k]);
      AddTypePreservesWrapping(wrapped, inventory, k, ws);
      ghost var next := wrapped[k := ws];
      forall w | w in Wrappers(next) ensures fresh(w) {
        var t, i :| t in next && 0 <= i < |next[t]| && w == next[t][i];
        if t != k {
          assert w in Wrappers(wrapped);
        } else {
          assert w == ws[i];
        }
      }
      wrapped := wrapped[k := ws];
      todo := todo - {k};
    }
    assert (map k | k in wrapped :: inventory[k]) == inventory;
    return Success(wrapped);
  }

  /** Adding the new wrappers of one more device type keeps the fleet a
      wrapping of the inventory seen so far. */
  lemma AddTypePreservesWrapping(wrapped: Fleet, inventory: Inventory, k: string, ws: seq<MelCloudDevice>)
    requires k in inventory && k !in wrapped && wrapped.Keys <= inventory.Keys
    requires WrapsInventory(wrapped, map t | t in wrapped :: inventory[t])
    requires WrapsAll(ws, inventory[k])
    requires forall i :: 0 <= i < |ws| ==> ws[i] !in Wrappers(wrapped)
    ensures WrapsInventory(wrapped[k := ws], map t | t in wrapped[k := ws] :: inventory[t])
  {
  }

  // ---------------------------------------------------------------------------
  // Setup failures

  /** The `except` clauses of `async_setup_entry`: a 401 asks the user to
      re-authenticate, any other response error, a timeout or a connection
      error asks the hub to retry later, anything else escapes unchanged. */
  function ClassifySetupError(e: SetupError): (outcome: EntrySetup)
    ensures outcome == AuthFailed <==> e == ResponseError(Unauthorized)
    ensures outcome == NotReady <==>
      (e.ResponseError? && e.status != Unauthorized) || e == Timeout || e == ConnectionFailed
    ensures outcome.Raised? <==> e == OtherError
    ensures outcome.Raised? ==> outcome.error == e
  {
    match e
    case ResponseError(status) => if status == Unauthorized then AuthFailed else NotReady
    case Timeout => NotReady
    case ConnectionFailed => NotReady
    case OtherError => Raised(e)
  }

  // ---------------------------------------------------------------------------
  // The integration's part of hass.data

  /** The fleets stored under `domain`; none when the domain key is absent. */
  function EntriesOf(data: map<string, Entries>, domain: string): Entries
  {
    if domain in data then data[domain] else map[]
  }

  /** The domain key, when present, is never left holding no entries. */
  predicate DomainNonEmpty(data: map<string, Entries>, domain: string)
  {
    domain in data ==> data[domain] != map[]
  }

  /** `hass.data.setdefault(domain, {}).update({entry_id: fleet})`. */
  function StoreEntry(data: map<string, Entries>, domain: string, entryId: string, fleet: Fleet)
    : (d: map<string, Entries>)
    ensures d.Keys == data.Keys + {domain}
    ensures forall k :: k in data && k != domain ==> d[k] == data[k]
    ensures d[domain].Keys == EntriesOf(data, domain).Keys + {entryId}
    ensures d[domain][entryId] == fleet
    ensures forall e :: e in d[domain] && e != entryId ==> d[domain][e] == data[domain][e]
    ensures DomainNonEmpty(d, domain)
  {
    data[domain := EntriesOf(data, domain)[entryId := fleet]]
  }

  /** `hass.data[domain].pop(entry_id)`, then dropping the domain key once it
      holds no entries. */
  function DropEntry(data: map<string, Entries>, domain: string, entryId: string)
    : (d: map<string, Entries>)
    requires domain in data && entryId in data[domain]
    ensures domain in d <==> data[domain].Keys != {entryId}
    ensures domain in d ==> d[domain] == data[domain] - {entryId}
    ensures forall k :: k != domain ==> (k in d <==> k in data)
    ensures forall k :: k in data && k != domain ==> d[k] == data[k]
    ensures DomainNonEmpty(d, domain)
  {
    var rest := data[domain] - {entryId};
    assert rest.Keys == data[domain].Keys - {entryId};
    if rest == map[] then
      assert data[domain].Keys == {entryId} by {
        assert rest.Keys == {};
      }
      data - {domain}
    else
      data[domain := rest]
  }

  /** Storing a new entry and dropping it again leaves hass.data as it was. */
  lemma StoreThenDrop(data: map<string, Entries>, domain: string, entryId: string, fleet: Fleet)
    requires DomainNonEmpty(data, domain)
    requires entryId !in EntriesOf(data, domain)
    ensures DropEntry(StoreEntry(data, domain, entryId, fleet), domain, entryId) == data
  {
    var stored := StoreEntry(data, domain, entryId, fleet);
    var entries := EntriesOf(data, domain);
    assert stored[domain] - {entryId} == entries;
    if domain in data {
      assert entries != map[];
    } else {
      assert data.Keys == stored.Keys - {domain};
    }
  }

  /** The integration's view of `hass.data`: domain to stored entries. */
  class HassData {
    var data: map<string, Entries>

    constructor ()
      ensures data == map[]
    {
      data := map[];
    }
  }

  /** `async_setup_entry`, after the package migration step: builds a fleet of
      new wrappers from `fetch` and stores it under `domain` and `entryId`, or
      maps the failure to the hub's signal and leaves `hass.data` alone. */
  method AsyncSetupEntry(hass: HassData, domain: string, entryId: string, fetch: Fetch)
    returns (outcome: EntrySetup)
    modifies hass
    ensures fetch.FetchFailed? ==> outcome == ClassifySetupError(fetch.error)
    ensures fetch.FetchFailed? ==> hass.data == old(hass.data)
    ensures fetch.Fetched? ==> outcome == Loaded
    ensures fetch.Fetched? ==>
      && domain in hass.data && entryId in hass.data[domain]
      && hass.data == StoreEntry(old(hass.data), domain, entryId, hass.data[domain][entryId])
      && WrapsInventory(hass.data[domain][entryId], fetch.inventory)
    ensures fetch.Fetched? ==> forall w :: w in Wrappers(hass.data[domain][entryId]) ==> fresh(w)
  {
    var r := MelDevicesSetup(fetch);
    match r
    case Failure(e) =>
      outcome := ClassifySetupError(e);
    case Success(fleet) =>
      hass.data := StoreEntry(hass.data, domain, entryId, fleet);
      outcome := Loaded;
  }

  /** `async_unload_entry`, given the platforms' unload result: drops the entry
      whatever that result is, or fails with a KeyError when it is missing. */
  method AsyncUnloadEntry(hass: HassData, domain: string, entryId: string, platformsUnloaded: bool)
    returns (outcome: EntryUnload)
    modifies hass
    ensures (domain in old(hass.data) && entryId in old(hass.data)[domain]) ==>
      outcome == Unloaded(platformsUnloaded) && hass.data == DropEntry(old(hass.data), domain, entryId)
    ensures !(domain in old(hass.data) && entryId in old(hass.data)[domain]) ==>
      outcome == MissingKey && hass.data == old(hass.data)
  {
    if domain !in hass.data || entryId !in hass.data[domain] {
      return MissingKey;
    }
    hass.data := DropEntry(hass.data, domain, entryId);
    outcome := Unloaded(platformsUnloaded);
  }
}
