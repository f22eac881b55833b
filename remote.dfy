/** The remote device accessor, seen from the integration: the attributes it
    reads from a device handle and the outcomes of a call to the cloud. */
module Remote {

  datatype Option<+T> = None | Some(value: T)

  /** One constituent unit of a device; a unit without a model reports "". */
  datatype Unit = Unit(model: string)

  /** The attributes of a device handle that the wrapper reads. */
  datatype Device = Device(
    name: string,
    mac: string,
    serial: string,
    units: Option<seq<Unit>>,
    deviceId: int,
    buildingId: int)

  /** A heating zone of an air-to-water device. */
  datatype Zone = Zone(zoneIndex: nat, name: string)

  /** A property value pushed with a write. */
  datatype Value = BoolValue(b: bool) | IntValue(i: int) | TextValue(s: string)

  type Properties = map<string, Value>

  /** How a call of the handle's `update()` or `set()` ended: normally, with a
      connection error, with an HTTP response error carrying its status, with an
      AttributeError (the accessor library does not have the expected shape), or
      with any other exception. */
  datatype RemoteResult =
    | Ok
    | ConnError
    | Resp(status: int)
    | AttrErr
    | Other

  /** The HTTP status that marks an authentication failure. */
  const Unauthorized: int := 401
}
