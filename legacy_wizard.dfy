/**
 * The older device page: its wizard has no reDockable type, no defaults
 * merging (choosing a method overwrites the whole connection), no port, no
 * gate on Continue and no default name; the page shows the wizard when asked
 * to or when there is no device.
 */
module LegacyWizard {

  import opened Types

  const UsbHost := "10.11.99.1"

  /** The connection choosing a method writes, whatever was there: no port (0 stands for "absent"). */
  function MethodConnection(m: DeviceMethod): (c: Connection)
    ensures c.username == "root" && c.password == "" && c.port == 0
    ensures c.host == if m == Usb then UsbHost else ""
  {
    Connection(if m == Usb then UsbHost else "", 0, "root", "")
  }

  /** The older wizard discards whatever connection the record had: the result depends on the method alone. */
  lemma MethodOverwritesConnection(d1: DeviceInfo, d2: DeviceInfo, m: DeviceMethod)
    ensures d1.(connectMethod := Some(m), connection := Some(MethodConnection(m))).connection
      == d2.(connectMethod := Some(m), connection := Some(MethodConnection(m))).connection
  {
  }

  class LegacyNewDevice {
    var currentStep: int
    var deviceInfo: DeviceInfo
    /** The parent's `addDevice`. */
    var open: bool

    ghost predicate Valid()
      reads this
    {
      && 0 <= currentStep <= 3
      && (currentStep >= 1 ==> deviceInfo.deviceType.Some?)
      && (currentStep >= 2 ==> deviceInfo.connectMethod.Some? && deviceInfo.connection.Some?)
    }

    /** Always starts empty on step 0. */
    constructor ()
      ensures Valid()
      ensures currentStep == 0 && deviceInfo == EmptyDevice && open
    {
      currentStep := 0;
      deviceInfo := EmptyDevice;
      open := true;
    }

    /** `back`, offered on steps 1 to 3: always one step back. */
    method Back()
      requires Valid() && 1 <= currentStep <= 3
      modifies this
      ensures Valid()
      ensures currentStep == old(currentStep) - 1
      ensures deviceInfo == old(deviceInfo) && open == old(open)
    {
      currentStep := currentStep - 1;
    }

    /** `handleDeviceSelect`: one of 'rm1', 'rm2', 'rmPro'. */
    method SelectDeviceType(t: DeviceType)
      requires Valid() && currentStep == 0
      requires t == Rm1 || t == Rm2 || t == RmProLegacy
      modifies this
      ensures Valid()
      ensures deviceInfo == old(deviceInfo).(deviceType := Some(t)) && currentStep == 1
      ensures open == old(open)
    {
      deviceInfo := deviceInfo.(deviceType := Some(t));
      currentStep := 1;
    }

    /** `handleConnectionMethodSelect`: 'wifi' or 'usb'. */
    method SelectMethod(m: DeviceMethod)
      requires Valid() && currentStep == 1
      requires m == Wifi || m == Usb
      modifies this
      ensures Valid()
      ensures deviceInfo == old(deviceInfo).(connectMethod := Some(m), connection := Some(MethodConnection(m)))
      ensures currentStep == 2 && open == old(open)
    {
      deviceInfo := deviceInfo.(connectMethod := Some(m), connection := Some(MethodConnection(m)));
      currentStep := 2;
    }

    /** `handleConnectionDetailsSubmit`: the form's host, username and password, no port. */
    method SubmitDetails(host: string, username: string, password: string)
      requires Valid() && currentStep == 2
      modifies this
      ensures Valid()
      ensures deviceInfo == old(deviceInfo).(connection := Some(Connection(host, 0, username, password)))
      ensures currentStep == 3 && open == old(open)
    {
      deviceInfo := deviceInfo.(connection := Some(Connection(host, 0, username, password)));
      currentStep := 3;
    }

    /** `handleDeviceSave`: sends the record with the name exactly as typed (possibly empty) and closes. */
    method Save(displayName: string) returns (sent: DeviceInfo)
      requires Valid() && currentStep == 3
      modifies this
      ensures sent == old(deviceInfo).(displayName := Some(displayName))
      ensures sent.deviceType.Some? && sent.connectMethod.Some? && sent.connection.Some?
      ensures !open && deviceInfo == old(deviceInfo) && currentStep == old(currentStep)
    {
      sent := deviceInfo.(displayName := Some(displayName));
      open := false;
    }

    /** `cancel`: reset the record to `{}` and close. */
    method Cancel()
      modifies this
      ensures deviceInfo == EmptyDevice && !open && currentStep == old(currentStep)
    {
      deviceInfo := EmptyDevice;
      open := false;
    }
  }

  /** The two placeholder records the older page starts with. */
  const SampleDevices: seq<DeviceInfo> := [
    DeviceInfo(Some("rm2-1633660000000"), Some(1051920000000), Some(Rm2), Some(Wifi),
      Some("Daniel's rM2"), Some(Connection("192.168.1.198", 0, "root", "c8o6axKmX2"))),
    DeviceInfo(Some("rm2-1633660000001"), Some(951523200000), Some(RmProLegacy), Some(Usb),
      Some("Lukas' rM Pro"), Some(Connection("10.11.99.1", 0, "root", "c8o6axKmX2")))
  ]

  /** The older page (`Connect`): the device list and whether the wizard was asked for. */
  class ConnectPage {
    var devices: seq<DeviceInfo>
    var addDevice: bool

    constructor ()
      ensures devices == SampleDevices && !addDevice
      ensures !WizardShown()
    {
      devices := SampleDevices;
      addDevice := false;
    }

    /** The dialog holds the wizard exactly when it was asked for or the list is empty. */
    predicate WizardShown()
      reads this
    {
      ShowsWizard(addDevice, devices)
    }

    /** `get-devices-res`. */
    method OnDevices(list: seq<DeviceInfo>)
      modifies this
      ensures devices == list && addDevice == old(addDevice)
      ensures |list| == 0 ==> WizardShown()
    {
      devices := list;
    }

    method SetAddDevice(b: bool)
      modifies this
      ensures addDevice == b && devices == old(devices)
      ensures b ==> WizardShown()
      ensures !b ==> (WizardShown() <==> |devices| == 0)
    {
      addDevice := b;
    }
  }
}
