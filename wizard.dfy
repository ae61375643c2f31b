/**
 * The add/edit-device wizard: step 0 picks the device type, step 1 the
 * connection method, step 2 the connection details, step 3 the name. A
 * reDockable device skips the method step. Defaults fill only the
 * connection fields that are unset, so an edited record keeps its values.
 */
module Wizard {

  import opened Types
  import opened Strings

  const UsbHost := "10.11.99.1"
  const RedockableHost := "127.0.0.1"
  const DefaultUser := "root"
  const DefaultPort := 22
  const UnnamedDevice := "Unnamed reMarkable"

  // `deviceInfo?.connection?.field`, with an absent connection read as unset.
  function HostOf(c: Option<Connection>): string { if c.Some? then c.value.host else "" }
  function PortOf(c: Option<Connection>): int { if c.Some? then c.value.port else 0 }
  function UserOf(c: Option<Connection>): string { if c.Some? then c.value.username else "" }
  function PasswordOf(c: Option<Connection>): string { if c.Some? then c.value.password else "" }

  /**
   * The connection both selection handlers build: every set field is kept,
   * an unset host becomes `host`, an unset username "root", an unset port 22,
   * and the password stays as it is ('' when unset).
   */
  function FillDefaults(c: Option<Connection>, host: string): (r: Connection)
    ensures HostOf(c) != "" ==> r.host == HostOf(c)
    ensures HostOf(c) == "" ==> r.host == host
    ensures UserOf(c) != "" ==> r.username == UserOf(c)
    ensures UserOf(c) == "" ==> r.username == DefaultUser
    ensures PortOf(c) != 0 ==> r.port == PortOf(c)
    ensures PortOf(c) == 0 ==> r.port == DefaultPort
    ensures r.password == PasswordOf(c)
  {
    Connection(
      if HostOf(c) != "" then HostOf(c) else host,
      if PortOf(c) != 0 then PortOf(c) else DefaultPort,
      if UserOf(c) != "" then UserOf(c) else DefaultUser,
      if PasswordOf(c) != "" then PasswordOf(c) else "")
  }

  /** Filling twice with the same host default changes nothing more. */
  lemma FillDefaultsIdempotent(c: Option<Connection>, host: string)
    ensures FillDefaults(Some(FillDefaults(c, host)), host) == FillDefaults(c, host)
  {
  }

  /** A connection with every field set passes through untouched. */
  lemma FillDefaultsKeepsComplete(c: Connection, host: string)
    requires c.host != "" && c.username != "" && c.port != 0
    ensures FillDefaults(Some(c), host) == c
  {
  }

  /** The host default of `handleConnectionMethodSelect`. */
  function MethodHost(m: DeviceMethod): (h: string)
    ensures h != "" <==> m == Usb
    ensures m == Usb ==> h == UsbHost
  {
    if m == Usb then UsbHost else ""
  }

  // ---------------------------------------------------------------------------
  // The record each handler builds (`{ ...deviceInfo, ... }`).

  /** Choosing "reDockable": type set, method defaulted, connection defaulted around 127.0.0.1. */
  function WithRedockable(d: DeviceInfo): (r: DeviceInfo)
    ensures r.deviceType == Some(Redockable)
    ensures r.connectMethod == if d.connectMethod.Some? then d.connectMethod else Some(RedockableMethod)
    ensures r.connection == Some(FillDefaults(d.connection, RedockableHost))
    ensures r.id == d.id && r.addDate == d.addDate && r.displayName == d.displayName
  {
    d.(deviceType := Some(Redockable),
       connectMethod := if d.connectMethod.Some? then d.connectMethod else Some(RedockableMethod),
       connection := Some(FillDefaults(d.connection, RedockableHost)))
  }

  /** Choosing a method: the method recorded, the connection defaulted around that method's host. */
  function WithMethod(d: DeviceInfo, m: DeviceMethod): (r: DeviceInfo)
    ensures r.connectMethod == Some(m)
    ensures r.connection == Some(FillDefaults(d.connection, MethodHost(m)))
    ensures r.id == d.id && r.addDate == d.addDate && r.deviceType == d.deviceType && r.displayName == d.displayName
  {
    d.(connectMethod := Some(m), connection := Some(FillDefaults(d.connection, MethodHost(m))))
  }

  /** The name saved from step 3: the typed name, or "Unnamed reMarkable" when the field is empty. */
  function SaveName(typed: string): (name: string)
    ensures name != ""
    ensures typed != "" ==> name == typed
    ensures typed == "" ==> name == UnnamedDevice
  {
    if typed != "" then typed else UnnamedDevice
  }

  // ---------------------------------------------------------------------------
  // Step 2's form: its own fields, the port input and the Continue gate.

  /** The port input's state: `''` or a number. */
  datatype PortField = Blank | Num(n: int)

  /** The port input's `onChange`: empty text clears it, text `parseInt` rejects becomes 22. */
  function PortFromInput(text: string): (p: PortField)
    ensures ParseInt(text).Some? ==> p == Num(ParseInt(text).value)
    ensures ParseInt(text).None? && text == "" ==> p == Blank
    ensures ParseInt(text).None? && text != "" ==> p == Num(DefaultPort)
  {
    match ParseInt(text)
    case None => if text == "" then Blank else Num(DefaultPort)
    case Some(n) => Num(n)
  }

  /** Typing a number's own text stores that number. */
  lemma PortInputOfNumber(n: int)
    ensures PortFromInput(IntToString(n)) == Num(n)
  {
    ParseIntRoundTrip(n);
  }

  /** The port Continue submits: `parseInt(String(port))`, or 22 when that is NaN. */
  function SubmittedPort(p: PortField): int
  {
    match p
    case Blank => DefaultPort
    case Num(n) => match ParseInt(IntToString(n)) case Some(v) => v case None => DefaultPort
  }

  /** Going through `String` and `parseInt` gives the stored number back. */
  lemma SubmittedPortIsStored(n: int)
    ensures SubmittedPort(Num(n)) == n
  {
    ParseIntRoundTrip(n);
  }

  class ConnectionForm {
    var host: string
    var port: PortField
    var username: string
    var password: string

    /** The fields start from the record's connection; an unset port shows 22. */
    constructor (d: DeviceInfo)
      ensures host == HostOf(d.connection) && username == UserOf(d.connection) && password == PasswordOf(d.connection)
      ensures port == Num(if PortOf(d.connection) != 0 then PortOf(d.connection) else DefaultPort)
    {
      host := HostOf(d.connection);
      port := Num(if PortOf(d.connection) != 0 then PortOf(d.connection) else DefaultPort);
      username := UserOf(d.connection);
      password := PasswordOf(d.connection);
    }

    /** Continue is enabled only when host, username, password and port are all truthy. */
    function ContinueEnabled(): (ok: bool)
      reads this
      ensures ok <==> host != "" && username != "" && password != "" && port.Num? && port.n != 0
    {
      !(host == "" || username == "" || password == "" || port == Blank || port == Num(0))
    }

    method SetPortText(text: string)
      modifies this
      ensures port == PortFromInput(text)
      ensures host == old(host) && username == old(username) && password == old(password)
    {
      port := PortFromInput(text);
    }

    method SetHost(text: string)
      modifies this
      ensures host == text && port == old(port) && username == old(username) && password == old(password)
    {
      host := text;
    }

    method SetUsername(text: string)
      modifies this
      ensures username == text && port == old(port) && host == old(host) && password == old(password)
    {
      username := text;
    }

    method SetPassword(text: string)
      modifies this
      ensures password == text && port == old(port) && host == old(host) && username == old(username)
    {
      password := text;
    }

    /** Continue: the connection handed to `handleConnectionDetailsSubmit`, every field set. */
    method Continue() returns (c: Connection)
      requires ContinueEnabled()
      ensures c == Connection(host, SubmittedPort(port), username, password)
      ensures c.host != "" && c.username != "" && c.password != "" && c.port != 0
    {
      SubmittedPortIsStored(port.n);
      c := Connection(host, SubmittedPort(port), username, password);
    }
  }

  // ---------------------------------------------------------------------------
  // The wizard.

  class NewDevice {
    var currentStep: int
    var deviceInfo: DeviceInfo
    /** The parent's `addDevice`: whether the wizard is open. */
    var open: bool

    /**
     * The step stays in 0..3, a type is chosen from step 1 on, and a method
     * and a connection from step 2 on.
     */
    ghost predicate Valid()
      reads this
    {
      && 0 <= currentStep <= 3
      && (currentStep >= 1 ==> deviceInfo.deviceType.Some?)
      && (currentStep >= 2 ==> deviceInfo.connectMethod.Some? && deviceInfo.connection.Some?)
    }

    /** Opens on step 0 with the record being edited (`{}` when adding). */
    constructor (editing: DeviceInfo)
      ensures Valid()
      ensures currentStep == 0 && deviceInfo == editing && open
    {
      currentStep := 0;
      deviceInfo := editing;
      open := true;
    }

    /** `back`, offered on steps 1 to 3: a reDockable device returns from step 2 straight to step 0. */
    method Back()
      requires Valid() && 1 <= currentStep <= 3
      modifies this
      ensures Valid()
      ensures old(currentStep) == 2 && deviceInfo.connectMethod == Some(RedockableMethod) ==> currentStep == 0
      ensures !(old(currentStep) == 2 && deviceInfo.connectMethod == Some(RedockableMethod)) ==> currentStep == old(currentStep) - 1
      ensures deviceInfo == old(deviceInfo) && open == old(open)
    {
      if currentStep == 2 && deviceInfo.connectMethod == Some(RedockableMethod) {
        currentStep := 0;
        return;
      }
      currentStep := currentStep - 1;
    }

    /** `handleDeviceSelect` on step 0. */
    method SelectDeviceType(t: DeviceType)
      requires Valid() && currentStep == 0
      modifies this
      ensures Valid()
      ensures t == Redockable ==> deviceInfo == WithRedockable(old(deviceInfo)) && currentStep == 2
      ensures t != Redockable ==> deviceInfo == old(deviceInfo).(deviceType := Some(t)) && currentStep == 1
      ensures open == old(open)
    {
      if t == Redockable {
        deviceInfo := WithRedockable(deviceInfo);
        currentStep := 2;
        return;
      }
      deviceInfo := deviceInfo.(deviceType := Some(t));
      currentStep := 1;
    }

    /** `handleConnectionMethodSelect` on step 1. */
    method SelectMethod(m: DeviceMethod)
      requires Valid() && currentStep == 1
      modifies this
      ensures Valid()
      ensures deviceInfo == WithMethod(old(deviceInfo), m) && currentStep == 2
      ensures open == old(open)
    {
      deviceInfo := WithMethod(deviceInfo, m);
      currentStep := 2;
    }

    /** `handleConnectionDetailsSubmit` on step 2: the connection is replaced as a whole. */
    method SubmitDetails(c: Connection)
      requires Valid() && currentStep == 2
      modifies this
      ensures Valid()
      ensures deviceInfo == old(deviceInfo).(connection := Some(c)) && currentStep == 3
      ensures open == old(open)
    {
      deviceInfo := deviceInfo.(connection := Some(c));
      currentStep := 3;
    }

    /** `handleDeviceSave` on step 3: sends `add-device` with the name and closes the wizard. */
    method Save(typedName: string) returns (sent: DeviceInfo)
      requires Valid() && currentStep == 3
      modifies this
      ensures sent == old(deviceInfo).(displayName := Some(SaveName(typedName)))
      ensures sent.deviceType.Some? && sent.connectMethod.Some? && sent.connection.Some? && sent.displayName.Some?
      ensures !open && deviceInfo == old(deviceInfo) && currentStep == old(currentStep)
    {
      sent := deviceInfo.(displayName := Some(SaveName(typedName)));
      open := false;
    }

    /** `cancel`, on step 0 when devices exist: forget the record and close. */
    method Cancel()
      modifies this
      ensures deviceInfo == EmptyDevice && !open && currentStep == old(currentStep)
    {
      deviceInfo := EmptyDevice;
      open := false;
    }
  }

  /**
   * Choosing a method for a record with no host yet: USB fills in
   * 10.11.99.1, and the other methods leave the host for the user to type.
   */
  lemma MethodDefaultsHost(d: DeviceInfo, m: DeviceMethod)
    requires HostOf(d.connection) == ""
    ensures WithMethod(d, m).connection.value.host == if m == Usb then UsbHost else ""
    ensures m != Usb ==> WithMethod(d, m).connection.value.host == HostOf(d.connection)
  {
  }

  /** Editing a fully configured record through either selection keeps its connection exactly. */
  lemma EditKeepsConnection(d: DeviceInfo, m: DeviceMethod)
    requires d.connection.Some? && d.connectMethod.Some?
    requires HostOf(d.connection) != "" && UserOf(d.connection) != "" && PortOf(d.connection) != 0
    ensures WithMethod(d, m).connection == d.connection
    ensures WithRedockable(d).connection == d.connection && WithRedockable(d).connectMethod == d.connectMethod
  {
    FillDefaultsKeepsComplete(d.connection.value, MethodHost(m));
    FillDefaultsKeepsComplete(d.connection.value, RedockableHost);
  }

  /** A new USB device gets the USB host, root, an empty password and port 22. */
  lemma NewUsbDefaults(d: DeviceInfo)
    requires d.connection.None?
    ensures WithMethod(d, Usb).connection == Some(Connection(UsbHost, DefaultPort, DefaultUser, ""))
  {
  }
}
