/**
 * The device list view. The component exists twice with the same logic,
 * once hiding the page header and once hiding the settings tabs; `hideChrome`
 * stands for whichever of the two its parent hides.
 *
 * The view's effects run when their dependency changes: the devices effect
 * on every new list, the `addDevice` effect only when the flag flips.
 */
module DeviceView {

  import opened Types
  import opened Background

  /** `hosts.filter(host => host.alive).map(host => host.id)`. */
  function AliveIds(hosts: seq<HostStatus>): (ids: seq<Option<string>>)
    ensures |ids| <= |hosts|
    ensures forall x :: x in ids <==> exists i :: 0 <= i < |hosts| && hosts[i].alive && hosts[i].id == x
    decreases |hosts|
  {
    if |hosts| == 0 then []
    else
      var rest := AliveIds(hosts[1..]);
      assert forall i :: 1 <= i < |hosts| ==> hosts[i] == hosts[1..][i - 1];
      if hosts[0].alive then [hosts[0].id] + rest else rest
  }

  /** Filtering works result by result, so the alive ids come in the order of the results. */
  lemma {:induction false} AliveIdsAppend(a: seq<HostStatus>, b: seq<HostStatus>)
    ensures AliveIds(a + b) == AliveIds(a) + AliveIds(b)
    decreases |a|
  {
    if |a| == 0 {
      assert a + b == b;
    } else {
      AliveIdsAppend(a[1..], b);
      assert (a + b)[1..] == a[1..] + b;
    }
  }

  /**
   * Through `ping-devices`: an id is shown alive exactly when some device
   * with that id has a connection and its probe reported it alive.
   */
  lemma AliveAfterPing(devices: seq<DeviceInfo>, probes: seq<ProbeOutcome>, x: Option<string>)
    requires |probes| == |devices|
    ensures x in AliveIds(PingDevices(devices, probes)) <==>
      exists i :: 0 <= i < |devices| && devices[i].id == x && devices[i].connection.Some? && probes[i] == ProbeReported(true)
  {
    var hosts := PingDevices(devices, probes);
    if x in AliveIds(hosts) {
      var i :| 0 <= i < |hosts| && hosts[i].alive && hosts[i].id == x;
      assert devices[i].id == x && devices[i].connection.Some? && probes[i] == ProbeReported(true);
    }
    if exists i :: 0 <= i < |devices| && devices[i].id == x && devices[i].connection.Some? && probes[i] == ProbeReported(true) {
      var i :| 0 <= i < |devices| && devices[i].id == x && devices[i].connection.Some? && probes[i] == ProbeReported(true);
      assert hosts[i].alive && hosts[i].id == x;
    }
  }

  class DeviceManager {
    var devices: seq<DeviceInfo>
    var aliveHosts: seq<Option<string>>
    var addDevice: bool
    var editingDevice: Option<DeviceInfo>
    /** The parent's header (or tabs) hidden flag. */
    var hideChrome: bool

    /**
     * The state once mounted: both effects have run in declaration order,
     * the devices effect hiding the chrome for the empty list and the
     * `addDevice` effect then showing it again; the empty list was pinged.
     */
    constructor ()
      ensures devices == [] && aliveHosts == [] && !addDevice
      ensures editingDevice == Some(EmptyDevice) && !hideChrome
    {
      devices := [];
      aliveHosts := [];
      addDevice := false;
      editingDevice := Some(EmptyDevice);
      hideChrome := false;
    }

    /** The wizard replaces the list exactly when it was asked for or there is no device. */
    predicate WizardShown()
      reads this
    {
      ShowsWizard(addDevice, devices)
    }

    /** `get-devices-res`, then the devices effect: chrome hidden exactly when empty, and the new list pinged. */
    method OnDevices(list: seq<DeviceInfo>) returns (pinged: seq<DeviceInfo>)
      modifies this
      ensures devices == list && pinged == list
      ensures hideChrome <==> |list| == 0
      ensures aliveHosts == old(aliveHosts) && addDevice == old(addDevice) && editingDevice == old(editingDevice)
    {
      devices := list;
      if |devices| <= 0 {
        hideChrome := true;
      } else {
        hideChrome := false;
      }
      pinged := devices;
    }

    /** `ping-devices-res`. */
    method OnPingResults(hosts: seq<HostStatus>)
      modifies this
      ensures aliveHosts == AliveIds(hosts)
      ensures devices == old(devices) && addDevice == old(addDevice)
      ensures editingDevice == old(editingDevice) && hideChrome == old(hideChrome)
    {
      aliveHosts := AliveIds(hosts);
    }

    /**
     * `setAddDevice` from the wizard or the list. When the flag flips, the
     * effect runs: turning it off forgets the edited record and shows the
     * chrome, turning it on hides the chrome.
     */
    method SetAddDevice(b: bool)
      modifies this
      ensures addDevice == b && devices == old(devices) && aliveHosts == old(aliveHosts)
      ensures b == old(addDevice) ==> editingDevice == old(editingDevice) && hideChrome == old(hideChrome)
      ensures b != old(addDevice) && !b ==> editingDevice == Some(EmptyDevice) && !hideChrome
      ensures b != old(addDevice) && b ==> editingDevice == old(editingDevice) && hideChrome
    {
      if b == addDevice {
        return;
      }
      addDevice := b;
      if !addDevice {
        editingDevice := Some(EmptyDevice);
        hideChrome := false;
      } else {
        hideChrome := true;
      }
    }

    /** `handleDeviceAddOrEdit`: remember the record, then open the wizard. */
    method EditDevice(d: DeviceInfo)
      modifies this
      ensures editingDevice == Some(d) && addDevice && WizardShown()
      ensures devices == old(devices) && aliveHosts == old(aliveHosts)
      ensures !old(addDevice) ==> hideChrome
      ensures old(addDevice) ==> hideChrome == old(hideChrome)
    {
      editingDevice := Some(d);
      SetAddDevice(true);
    }
  }
}
