/** Device-registry metadata derived from a wrapped device: the record for the
    device itself (`device_info`) and the record for each of its zones
    (`zone_device_info`). Everything here is pure: it reads only the wrapper's
    constant handle and name. */
module Registry {
  import opened Remote
  import opened Wrapper

  const Manufacturer: string := "Mitsubishi Electric"
  const ZoneModel: string := "ATW zone device"
  /** The connection kind Home Assistant uses for a network MAC address. */
  const ConnectionNetworkMac: string := "mac"
  /** The separator between unit models in the model string. */
  const Separator: string := ", "

  /** A device-registry record. A key the source leaves out of the record is an
      empty `connections` set or a `None`. */
  datatype DeviceInfo = DeviceInfo(
    connections: set<(string, string)>,
    identifiers: set<(string, string)>,
    manufacturer: string,
    model: Option<string>,
    name: string,
    viaDevice: Option<(string, string)>)

  // ---------------------------------------------------------------------------
  // The model string

  /** The models of the units, in order, with the empty ones dropped. */
  function NonEmptyModels(units: seq<Unit>): (models: seq<string>)
    ensures |models| <= |units|
    ensures forall i :: 0 <= i < |models| ==> models[i] != ""
    ensures forall u :: u in units && u.model != "" ==> u.model in models
    ensures forall m :: m in models ==> Unit(m) in units
  {
    if units == [] then []
    else if units[0].model != "" then [units[0].model] + NonEmptyModels(units[1..])
    else NonEmptyModels(units[1..])
  }

  /** Filtering a concatenation filters each part: the kept models keep the
      units' order and their repetitions. */
  lemma {:induction false} NonEmptyModelsAppend(a: seq<Unit>, b: seq<Unit>)
    ensures NonEmptyModels(a + b) == NonEmptyModels(a) + NonEmptyModels(b)
  {
    if a == [] {
      assert a + b == b;
    } else {
      assert (a + b)[0] == a[0];
      assert (a + b)[1..] == a[1..] + b;
      NonEmptyModelsAppend(a[1..], b);
    }
  }

  /** One unit contributes its model exactly when the model is non-empty. */
  lemma NonEmptyModelsSingle(u: Unit)
    ensures NonEmptyModels([u]) == if u.model == "" then [] else [u.model]
  {
    assert [u][1..] == [];
  }

  /** `", ".join(parts)`. */
  function Join(parts: seq<string>): (s: string)
    ensures parts == [] ==> s == ""
    ensures parts != [] ==> parts[0] <= s
  {
    if parts == [] then ""
    else if |parts| == 1 then parts[0]
    else parts[0] + Separator + Join(parts[1..])
  }

  /** The model shown for a device: nothing when the handle reports no units,
      otherwise the non-empty unit models joined by ", ". */
  function ModelString(units: Option<seq<Unit>>): (model: Option<string>)
    ensures units.None? <==> model.None?
  {
    match units
    case None => None
    case Some(us) => Some(Join(NonEmptyModels(us)))
  }

  /** The separator occurs in `s` starting at index `i`. */
  predicate SeparatorAt(s: string, i: int)
  {
    0 <= i && i + 1 < |s| && s[i] == ',' && s[i + 1] == ' '
  }

  predicate ContainsSeparator(s: string)
  {
    exists i :: 0 <= i < |s| && SeparatorAt(s, i)
  }

  /** Cuts `s` at every occurrence of the separator; the inverse of Join. */
  function SplitOnSeparator(s: string): (parts: seq<string>)
    ensures |parts| >= 1
    decreases |s|
  {
    if |s| < 2 then [s]
    else if s[0] == ',' && s[1] == ' ' then [""] + SplitOnSeparator(s[2..])
    else
      var rest := SplitOnSeparator(s[1..]);
      [[s[0]] + rest[0]] + rest[1..]
  }

  /** Reads a model string back into the list of models it shows. */
  function SplitModels(s: string): seq<string>
  {
    if s == "" then [] else SplitOnSeparator(s)
  }

  lemma {:induction false} SplitWithoutSeparator(x: string)
    requires !ContainsSeparator(x)
    ensures SplitOnSeparator(x) == [x]
  {
    if |x| >= 2 {
      assert !SeparatorAt(x, 0);
      forall i | SeparatorAt(x[1..], i) ensures false {
        assert SeparatorAt(x, i + 1);
      }
      SplitWithoutSeparator(x[1..]);
      assert [x[0]] + x[1..] == x;
    }
  }

  lemma {:induction false} SplitAfterPart(x: string, t: string)
    requires !ContainsSeparator(x)
    ensures SplitOnSeparator(x + Separator + t) == [x] + SplitOnSeparator(t)
  {
    var s := x + Separator + t;
    if x == [] {
      assert s[2..] == t;
    } else {
      assert s[1..] == x[1..] + Separator + t;
      forall i | SeparatorAt(x[1..], i) ensures false {
        assert SeparatorAt(x, i + 1);
      }
      if |x| >= 2 {
        assert !SeparatorAt(x, 0);
      }
      SplitAfterPart(x[1..], t);
      assert [x[0]] + x[1..] == x;
    }
  }

  lemma {:induction false} SplitJoin(parts: seq<string>)
    requires parts != []
    requires forall i :: 0 <= i < |parts| ==> !ContainsSeparator(parts[i])
    ensures SplitOnSeparator(Join(parts)) == parts
  {
    if |parts| == 1 {
      SplitWithoutSeparator(parts[0]);
    } else {
      SplitAfterPart(parts[0], Join(parts[1..]));
      SplitJoin(parts[1..]);
    }
  }

  /** The model string determines the models it was built from, provided no
      model contains the separator itself. */
  lemma ModelStringRecoversModels(units: seq<Unit>)
    requires forall i :: 0 <= i < |units| ==> !ContainsSeparator(units[i].model)
    ensures SplitModels(ModelString(Some(units)).value) == NonEmptyModels(units)
  {
    var models := NonEmptyModels(units);
    if models != [] {
      forall i | 0 <= i < |models| ensures !ContainsSeparator(models[i]) {
        assert models[i] in models;
        var j :| 0 <= j < |units| && units[j] == Unit(models[i]);
      }
      SplitJoin(models);
      assert |models[0]| > 0;
    }
  }

  /** The model string is empty exactly when every unit model is empty. */
  lemma ModelStringEmpty(units: seq<Unit>)
    ensures ModelString(Some(units)) == Some("")
        <==> forall i :: 0 <= i < |units| ==> units[i].model == ""
  {
    var models := NonEmptyModels(units);
    if forall i :: 0 <= i < |units| ==> units[i].model == "" {
      if models != [] {
        assert models[0] in models;
        assert Unit(models[0]) in units;
      }
    } else {
      var i :| 0 <= i < |units| && units[i].model != "";
      assert units[i] in units;
      assert models != [];
      assert |models[0]| > 0;
    }
  }

  lemma ModelStringExample()
    ensures ModelString(Some([Unit("A"), Unit(""), Unit("B")])) == Some("A, B")
  {
    var units := [Unit("A"), Unit(""), Unit("B")];
    assert units[1..] == [Unit(""), Unit("B")];
    assert units[1..][1..] == [Unit("B")];
    assert NonEmptyModels(units) == ["A", "B"];
    assert ["A", "B"][1..] == ["B"];
    assert Join(["A", "B"]) == "A" + Separator + "B";
    assert "A" + Separator + "B" == "A, B";
  }

  // ---------------------------------------------------------------------------
  // Identifiers

  /** The decimal digit `d`. */
  function DigitChar(d: nat): (c: char)
    requires d < 10
    ensures c as int == 48 + d
  {
    (48 + d) as char
  }

  predicate AllDigits(s: string)
  {
    forall i :: 0 <= i < |s| ==> '0' <= s[i] <= '9'
  }

  /** The decimal representation of `n`, as Python's f-string writes an int. */
  function DecimalString(n: nat): (s: string)
    ensures |s| >= 1 && AllDigits(s)
    ensures s[0] == '0' <==> n == 0
    ensures |s| > 1 ==> s[0] != '0'
  {
    if n < 10 then [DigitChar(n)] else DecimalString(n / 10) + [DigitChar(n % 10)]
  }

  /** The number a string of decimal digits denotes. */
  function ParseDecimal(s: string): nat
    requires AllDigits(s)
  {
    if s == [] then 0
    else 10 * ParseDecimal(s[..|s| - 1]) + (s[|s| - 1] as int - 48)
  }

  lemma {:induction false} DecimalRoundTrip(n: nat)
    ensures ParseDecimal(DecimalString(n)) == n
  {
    var s := DecimalString(n);
    if n >= 10 {
      assert s[..|s| - 1] == DecimalString(n / 10);
      DecimalRoundTrip(n / 10);
    }
  }

  /** `mac-serial`: how the registry names a device. */
  function DeviceIdentifier(dev: Device): (id: string)
    ensures dev.mac + "-" <= id && id[|dev.mac| + 1..] == dev.serial
  {
    dev.mac + "-" + dev.serial
  }

  /** `mac-serial-zoneindex`: how the registry names a zone of a device. */
  function ZoneIdentifier(dev: Device, zone: Zone): (id: string)
    ensures DeviceIdentifier(dev) + "-" <= id
    ensures |id| > |DeviceIdentifier(dev)| + 1
  {
    DeviceIdentifier(dev) + "-" + DecimalString(zone.zoneIndex)
  }

  /** A zone identifier is the device identifier, a dash and the zone index, and
      the zone index can be read back from it. */
  lemma ZoneIdentifierDecomposes(dev: Device, zone: Zone)
    ensures DeviceIdentifier(dev) + "-" <= ZoneIdentifier(dev, zone)
    ensures var suffix := ZoneIdentifier(dev, zone)[|DeviceIdentifier(dev)| + 1..];
      AllDigits(suffix) && ParseDecimal(suffix) == zone.zoneIndex
  {
    var prefix := DeviceIdentifier(dev) + "-";
    assert ZoneIdentifier(dev, zone)[|prefix|..] == DecimalString(zone.zoneIndex);
    DecimalRoundTrip(zone.zoneIndex);
  }

  /** Zones of one device with different indices get different identifiers, and
      none of them collides with the device's own identifier. */
  lemma ZoneIdentifiersDistinct(dev: Device, z1: Zone, z2: Zone)
    ensures ZoneIdentifier(dev, z1) != DeviceIdentifier(dev)
    ensures z1.zoneIndex != z2.zoneIndex ==> ZoneIdentifier(dev, z1) != ZoneIdentifier(dev, z2)
  {
    ZoneIdentifierDecomposes(dev, z1);
    ZoneIdentifierDecomposes(dev, z2);
  }

  // ---------------------------------------------------------------------------
  // Registry records

  /** `device_info`: the record of the device that wrapper `w` owns. */
  function DeviceInfoOf(domain: string, w: MelCloudDevice): (info: DeviceInfo)
    ensures info.connections == {(ConnectionNetworkMac, w.device.mac)}
    ensures info.identifiers == {(domain, w.device.mac + "-" + w.device.serial)}
    ensures info.manufacturer == Manufacturer && info.name == w.name
    ensures info.model == ModelString(w.device.units) && info.viaDevice == None
  {
    DeviceInfo(
      {(ConnectionNetworkMac, w.device.mac)},
      {(domain, DeviceIdentifier(w.device))},
      Manufacturer,
      ModelString(w.device.units),
      w.name,
      None)
  }

  /** `zone_device_info`: the record of one zone of the device that wrapper
      `w` owns; it points back to the device's record. */
  function ZoneDeviceInfoOf(domain: string, w: MelCloudDevice, zone: Zone): (info: DeviceInfo)
    ensures info.identifiers == {(domain, ZoneIdentifier(w.device, zone))}
    ensures info.viaDevice.Some?
    ensures info.viaDevice.value in DeviceInfoOf(domain, w).identifiers
    ensures info.identifiers !! DeviceInfoOf(domain, w).identifiers
    ensures info.name == w.name + " " + zone.name
    ensures info.manufacturer == Manufacturer && info.model == Some(ZoneModel)
    ensures info.connections == {}
  {
    ZoneIdentifiersDistinct(w.device, zone, zone);
    DeviceInfo(
      {},
      {(domain, ZoneIdentifier(w.device, zone))},
      Manufacturer,
      Some(ZoneModel),
      w.name + " " + zone.name,
      Some((domain, DeviceIdentifier(w.device))))
  }
}
