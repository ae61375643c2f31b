/**
 * Shared records of the rePlace application: the connection descriptor, the
 * stored device record, the liveness result and the screen record.
 *
 * JavaScript leaves many of these fields optional; the model writes an absent
 * field as `None`. Inside a `Connection` an empty string stands for a missing
 * or empty text field and a port of 0 for a missing, zero or NaN port: all of
 * these are "falsy" in JavaScript and every branch of the source that tests
 * them treats them alike.
 */
module Types {

  datatype Option<T> = None | Some(value: T)

  /** The device kinds of the wizards. `RmProLegacy` is the 'rmPro' spelling sent by the older wizard. */
  datatype DeviceType = Rm1 | Rm2 | RmPro | RmProLegacy | Redockable

  datatype DeviceMethod = Wifi | Usb | RedockableMethod

  datatype Connection = Connection(host: string, port: int, username: string, password: string)

  datatype DeviceInfo = DeviceInfo(
    id: Option<string>,
    addDate: Option<int>,       // epoch milliseconds
    deviceType: Option<DeviceType>,
    connectMethod: Option<DeviceMethod>,
    displayName: Option<string>,
    connection: Option<Connection>)

  /** The empty record `{}`. */
  const EmptyDevice := DeviceInfo(None, None, None, None, None, None)

  /** Result of one liveness probe; the id is the probed record's id, which may be absent. */
  datatype HostStatus = HostStatus(id: Option<string>, alive: bool)

  /** A screen image; `addDate` in epoch milliseconds. */
  datatype ScreenInfo = ScreenInfo(id: string, name: string, dataUrl: string, addDate: int)

  /** How a device type is written when interpolated into a template string. */
  function TypeName(t: Option<DeviceType>): string
  {
    match t
    case None => "undefined"
    case Some(Rm1) => "rm1"
    case Some(Rm2) => "rm2"
    case Some(RmPro) => "rmpro"
    case Some(RmProLegacy) => "rmPro"
    case Some(Redockable) => "redockable"
  }

  /**
   * Both device pages put the add-device wizard in place of the list
   * exactly when it was asked for or there is no device yet.
   */
  predicate ShowsWizard(addDevice: bool, devices: seq<DeviceInfo>)
  {
    addDevice || |devices| == 0
  }
}
