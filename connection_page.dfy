/**
 * The connection page around the heartbeat: the query-parameter guard of
 * both page versions, the three-step screen picker of the newer page, its
 * upload gate and the remote name it uploads to.
 */
module ConnectionPage {

  import opened Types
  import opened Strings
  import opened Background
  import opened Heartbeat
  import Wizard

  /** A query parameter that is present and not empty (`!!urlParams.get(k)`). */
  predicate Given(param: Option<string>)
  {
    param.Some? && |param.value| > 0
  }

  /** `parseInt(urlParams.get('port'))` is truthy: a number, and not 0. `parseInt(null)` is NaN. */
  predicate PortGiven(port: Option<string>)
  {
    port.Some? && var p := ParseInt(port.value); p.Some? && p.value != 0
  }

  /** The newer page sets the device up only when host, username, password and a non-zero port are given. */
  function SetupAllowed(host: Option<string>, username: Option<string>, password: Option<string>, port: Option<string>): (ok: bool)
    ensures ok ==> Given(host) && Given(username) && Given(password)
    ensures ok ==> port.Some? && ParseInt(port.value).Some? && ParseInt(port.value).value != 0
    ensures Given(host) && Given(username) && Given(password) && PortGiven(port) ==> ok
  {
    Given(host) && Given(username) && Given(password) && PortGiven(port)
  }

  /** The older page does not ask for a port. */
  function LegacySetupAllowed(host: Option<string>, username: Option<string>, password: Option<string>): (ok: bool)
    ensures ok <==> Given(host) && Given(username) && Given(password)
  {
    Given(host) && Given(username) && Given(password)
  }

  /** The newer guard is strictly stronger: a missing or zero port passes the older one only. */
  lemma NewerGuardIsStricter(host: Option<string>, username: Option<string>, password: Option<string>, port: Option<string>)
    ensures SetupAllowed(host, username, password, port) ==> LegacySetupAllowed(host, username, password)
    ensures LegacySetupAllowed(host, username, password) && !PortGiven(port) ==> !SetupAllowed(host, username, password, port)
  {
  }

  /** A port written as non-zero decimal text passes the newer guard's port test. */
  lemma DecimalPortGiven(p: int)
    requires p != 0
    ensures PortGiven(Some(IntToString(p)))
  {
    ParseIntRoundTrip(p);
  }

  /**
   * A value the unencoded query carries through unchanged in its emptiness:
   * no '#' (which ends the query) and no '&' (which starts another parameter).
   */
  predicate QuerySafe(v: string)
  {
    forall i :: 0 <= i < |v| ==> v[i] != '#' && v[i] != '&'
  }

  /**
   * The device list's "Connect" link writes a saved device's connection into
   * the query without encoding it (`String(port)` for the port). A device
   * whose host, username, password and port are all set, and whose three
   * texts hold no '#' or '&', passes both guards.
   */
  lemma ListedDevicePassesGuards(c: Connection)
    requires c.host != "" && c.username != "" && c.password != "" && c.port != 0
    requires QuerySafe(c.host) && QuerySafe(c.username) && QuerySafe(c.password)
    ensures SetupAllowed(Some(c.host), Some(c.username), Some(c.password), Some(IntToString(c.port)))
    ensures LegacySetupAllowed(Some(c.host), Some(c.username), Some(c.password))
  {
    DecimalPortGiven(c.port);
  }

  /**
   * The wizard and `connect-device` agree on the default port: a connection
   * completed by the wizard is monitored on the port the wizard shows,
   * which is the one the user set or else 22.
   */
  lemma WizardPortIsConnectPort(c: Option<Connection>, host: string)
    ensures ConnectPort(Wizard.FillDefaults(c, host)) == Wizard.FillDefaults(c, host).port
    ensures ConnectPort(Wizard.FillDefaults(c, host)) == if Wizard.PortOf(c) != 0 then Wizard.PortOf(c) else 22
  {
  }

  /** The "Update Screen" button is enabled only when connected, not failed, and both screens are picked. */
  function UploadEnabled(s: Status, saved: Option<ScreenInfo>, remote: Option<ScreenInfo>): (ok: bool)
    ensures ok <==> s.connected && !s.connectionFailed && saved.Some? && remote.Some?
  {
    !(!s.connected || s.connectionFailed || saved.None? || remote.None?)
  }

  /**
   * The upload gate follows the heartbeat: shut when the page mounts, after a
   * failed connect, after a failed check and after a tick that finds the
   * session stale or gives up; open after a successful check once both
   * screens are picked, unless the session had already failed.
   */
  lemma UploadGateFollowsHeartbeat(s: Status, saved: Option<ScreenInfo>, remote: Option<ScreenInfo>, now: int)
    ensures !UploadEnabled(Initial, saved, remote)
    ensures !UploadEnabled(AfterConnectResult(s, false, now), saved, remote)
    ensures !UploadEnabled(AfterCheckResult(s, false, now), saved, remote)
    ensures !AfterTick(s, now).checkIssued ==> !UploadEnabled(AfterTick(s, now).next, saved, remote)
    ensures UploadEnabled(AfterCheckResult(s, true, now), saved, remote) <==>
      !s.connectionFailed && saved.Some? && remote.Some?
  {
  }

  /** The screen name sent with an upload: the remote name cut at its first ".png". */
  function UploadTarget(remoteName: string): (screen: string)
    ensures IsPrefix(screen, remoteName)
    ensures Contains(remoteName, ".png") ==>
      && OccursAt(remoteName, ".png", |screen|)
      && forall i :: 0 <= i < |screen| ==> !OccursAt(remoteName, ".png", i)
    ensures !Contains(remoteName, ".png") ==> screen == remoteName
  {
    ContainsIff(remoteName, ".png");
    BeforeFirstSpec(remoteName, ".png");
    BeforeFirst(remoteName, ".png")
  }

  predicate NoDot(s: string)
  {
    forall i :: 0 <= i < |s| ==> s[i] != '.'
  }

  lemma StemBeforePng(stem: string)
    requires NoDot(stem)
    ensures UploadTarget(stem + ".png") == stem
  {
    BeforeFirstOfSuffixed(stem, ".png");
  }

  /** Each of the six names is a dot-free stem followed by ".png". */
  lemma ListedNameShape(name: string)
    requires name in ScreenFiles
    ensures var stem := name[..|name| - 4]; name == stem + ".png" && NoDot(stem)
  {
    if name == "starting.png" {
      assert name[..|name| - 4] == "starting";
    } else if name == "poweroff.png" {
      assert name[..|name| - 4] == "poweroff";
    } else if name == "suspended.png" {
      assert name[..|name| - 4] == "suspended";
    } else if name == "batteryempty.png" {
      assert name[..|name| - 4] == "batteryempty";
    } else if name == "overheating.png" {
      assert name[..|name| - 4] == "overheating";
    } else {
      assert name[..|name| - 4] == "rebooting";
    }
  }

  /** Picking one of the six listed screens uploads over that very file. */
  lemma UploadOverwritesPicked(name: string)
    requires name in ScreenFiles
    ensures UploadPath(UploadTarget(name)) == RemoteDir + name
  {
    ListedNameShape(name);
    var stem := name[..|name| - 4];
    StemBeforePng(stem);
  }

  /**
   * End to end: a listed remote screen replaced by a saved PNG data URL sends
   * the saved base64 text, to be decoded and written at the remote screen's
   * own path, on port 22.
   */
  lemma UploadReplacesRemoteFile(connection: Connection, remoteName: string, base64: string)
    requires remoteName in ScreenFiles
    ensures var req := UploadRequest(connection, UploadTarget(remoteName), PngDataUrl(base64));
      req.path == RemoteDir + remoteName && req.payload == base64 && req.port == 22
  {
    UploadOverwritesPicked(remoteName);
    StripPngDataUrl(base64);
  }

  /** The `upload-file` message. */
  datatype UploadMessage = UploadMessage(connection: Connection, screen: string, file: string)

  /**
   * The newer page's picker: step 0 picks the remote screen, step 1 the saved
   * screen, step 2 confirms the upload.
   */
  class ScreenPicker {
    var currentStep: int
    var selectedRemote: Option<ScreenInfo>
    var selectedSaved: Option<ScreenInfo>
    var showUploadModal: bool
    var successModalOpen: bool

    /** The step stays in 0..2 and every step past a pick has that pick made. */
    ghost predicate Valid()
      reads this
    {
      && 0 <= currentStep <= 2
      && (currentStep >= 1 ==> selectedRemote.Some?)
      && (currentStep == 2 ==> selectedSaved.Some?)
    }

    constructor ()
      ensures Valid()
      ensures currentStep == 0 && selectedRemote.None? && selectedSaved.None?
      ensures !showUploadModal && !successModalOpen
    {
      currentStep := 0;
      selectedRemote := None;
      selectedSaved := None;
      showUploadModal := false;
      successModalOpen := false;
    }

    /** The step-0 grid's `selectScreen`. */
    method SelectRemote(screen: ScreenInfo)
      requires Valid() && currentStep == 0
      modifies this
      ensures Valid()
      ensures selectedRemote == Some(screen) && currentStep == 1
      ensures selectedSaved == old(selectedSaved)
      ensures showUploadModal == old(showUploadModal) && successModalOpen == old(successModalOpen)
    {
      selectedRemote := Some(screen);
      currentStep := currentStep + 1;
    }

    /** The step-1 grid's `selectScreen`. */
    method SelectSaved(screen: ScreenInfo)
      requires Valid() && currentStep == 1
      modifies this
      ensures Valid()
      ensures selectedSaved == Some(screen) && currentStep == 2
      ensures selectedRemote == old(selectedRemote)
      ensures showUploadModal == old(showUploadModal) && successModalOpen == old(successModalOpen)
    {
      selectedSaved := Some(screen);
      currentStep := currentStep + 1;
    }

    /** "Back", shown past step 0: the picks are kept. */
    method Back()
      requires Valid() && currentStep > 0
      modifies this
      ensures Valid()
      ensures currentStep == old(currentStep) - 1
      ensures selectedRemote == old(selectedRemote) && selectedSaved == old(selectedSaved)
      ensures showUploadModal == old(showUploadModal) && successModalOpen == old(successModalOpen)
    {
      currentStep := currentStep - 1;
    }

    /** The enabled "Update Screen" button at step 2 opens the confirmation. */
    method OpenUploadDialog(s: Status)
      requires Valid() && currentStep == 2 && UploadEnabled(s, selectedSaved, selectedRemote)
      modifies this
      ensures Valid()
      ensures showUploadModal
      ensures currentStep == old(currentStep) && selectedRemote == old(selectedRemote) && selectedSaved == old(selectedSaved)
      ensures successModalOpen == old(successModalOpen)
    {
      showUploadModal := true;
    }

    /**
     * `uploadScreen`: with a device and both picks it sends the upload,
     * closes the confirmation, opens the success dialog and goes back to
     * step 0; otherwise it does nothing.
     */
    method Upload(connection: Option<Connection>) returns (sent: Option<UploadMessage>)
      requires Valid()
      modifies this
      ensures Valid()
      ensures sent.Some? <==> connection.Some? && old(selectedSaved).Some? && old(selectedRemote).Some?
      ensures sent.Some? ==>
        && sent.value == UploadMessage(connection.value, UploadTarget(old(selectedRemote).value.name), old(selectedSaved).value.dataUrl)
        && !showUploadModal && successModalOpen && currentStep == 0
      ensures sent.None? ==>
        && currentStep == old(currentStep) && showUploadModal == old(showUploadModal)
        && successModalOpen == old(successModalOpen)
      ensures selectedRemote == old(selectedRemote) && selectedSaved == old(selectedSaved)
    {
      if connection.None? || selectedSaved.None? || selectedRemote.None? {
        return None;
      }
      sent := Some(UploadMessage(connection.value, UploadTarget(selectedRemote.value.name), selectedSaved.value.dataUrl));
      showUploadModal := false;
      successModalOpen := true;
      currentStep := 0;
    }

    /**
     * At step 2 with the button enabled and a device known, pressing
     * "Update Screen" and confirming sends the picked saved screen over the
     * picked remote screen's name, and the picker starts over.
     */
    method UpdateScreen(s: Status, connection: Connection) returns (sent: UploadMessage)
      requires Valid() && currentStep == 2 && UploadEnabled(s, selectedSaved, selectedRemote)
      modifies this
      ensures Valid()
      ensures sent == UploadMessage(connection, UploadTarget(old(selectedRemote).value.name), old(selectedSaved).value.dataUrl)
      ensures !showUploadModal && successModalOpen && currentStep == 0
      ensures selectedRemote == old(selectedRemote) && selectedSaved == old(selectedSaved)
    {
      OpenUploadDialog(s);
      var r := Upload(Some(connection));
      sent := r.value;
    }
  }
}
