/**
 * The main process's request handlers over the settings store: the device
 * registry, the saved screens, the user settings, the remote screen listing,
 * the liveness probe of every device and the screen upload.
 *
 * The store itself, the SFTP client and the ping library are outside the
 * model: what they return is passed in (a probe outcome per device, the
 * remote listing, the downloaded files, whether connect and put succeeded).
 */
module Background {

  import opened Types
  import opened Strings
  import opened Sorting

  /** The directory of the device's system screens. */
  const RemoteDir := "/usr/share/remarkable/"

  /** The six screens the application knows how to replace. */
  const ScreenFiles: seq<string> :=
    ["starting.png", "poweroff.png", "suspended.png", "batteryempty.png", "overheating.png", "rebooting.png"]

  const FilesError := "Could not connect to SFTP server"
  const UploadError := "Could not upload file"

  // ---------------------------------------------------------------------------
  // The device registry: filtering and appending records.

  /** The records whose id is not `id` (`devices.filter(d => d.id !== id)`). */
  function RemoveDeviceById(devices: seq<DeviceInfo>, id: string): (r: seq<DeviceInfo>)
    ensures forall d :: d in r <==> d in devices && d.id != Some(id)
    ensures |r| <= |devices|
    decreases |devices|
  {
    if |devices| == 0 then []
    else
      var rest := RemoveDeviceById(devices[1..], id);
      assert forall d :: d in devices <==> d == devices[0] || d in devices[1..];
      if devices[0].id == Some(id) then rest else [devices[0]] + rest
  }

  /** Removing an id no record has leaves the list as it is. */
  lemma {:induction false} RemoveUnknownDevice(devices: seq<DeviceInfo>, id: string)
    requires forall i :: 0 <= i < |devices| ==> devices[i].id != Some(id)
    ensures RemoveDeviceById(devices, id) == devices
    decreases |devices|
  {
    if |devices| > 0 {
      RemoveUnknownDevice(devices[1..], id);
      assert devices == [devices[0]] + devices[1..];
    }
  }

  /** Removal works element by element, so the kept records stay in their original order. */
  lemma {:induction false} RemoveDeviceDistributes(a: seq<DeviceInfo>, b: seq<DeviceInfo>, id: string)
    ensures RemoveDeviceById(a + b, id) == RemoveDeviceById(a, id) + RemoveDeviceById(b, id)
    decreases |a|
  {
    if |a| > 0 {
      RemoveDeviceDistributes(a[1..], b, id);
      assert (a + b)[1..] == a[1..] + b;
    } else {
      assert a + b == b;
    }
  }

  /** The id given to a record saved without one: `"{type}-{millis}"`. */
  function GeneratedId(t: Option<DeviceType>, now: nat): (id: string)
  {
    TypeName(t) + "-" + NatToDecimal(now)
  }

  /** A generated id is the type name, a dash and a non-empty run of digits, and it determines the time. */
  lemma GeneratedIdShape(t: Option<DeviceType>, now: nat, later: nat)
    ensures var id := GeneratedId(t, now);
      IsPrefix(TypeName(t) + "-", id) && |id| > |TypeName(t)| + 1 && AllDigits(id[|TypeName(t)| + 1..])
    ensures GeneratedId(t, now) == GeneratedId(t, later) ==> now == later
  {
    var p := TypeName(t) + "-";
    var id := GeneratedId(t, now);
    assert id[..|p|] == p && id[|p|..] == NatToDecimal(now);
    if GeneratedId(t, now) == GeneratedId(t, later) {
      assert GeneratedId(t, later)[|p|..] == NatToDecimal(later);
      ParseIntRoundTrip(now);
      ParseIntRoundTrip(later);
    }
  }

  /** The record `add-device` stores and replies with. */
  function StoredRecord(device: DeviceInfo, now: nat): (r: DeviceInfo)
    ensures r.id.Some?
    ensures device.id.Some? ==> r == device
    ensures device.id.None? ==>
      r == device.(id := Some(GeneratedId(device.deviceType, now)), addDate := Some(now))
  {
    if device.id.Some? then device
    else device.(id := Some(GeneratedId(device.deviceType, now)), addDate := Some(now))
  }

  /** The registry after `add-device`: an edit first drops every record with the same id, then the record is appended. */
  function DevicesAfterAdd(devices: seq<DeviceInfo>, device: DeviceInfo, now: nat): seq<DeviceInfo>
  {
    var kept := if device.id.Some? then RemoveDeviceById(devices, device.id.value) else devices;
    kept + [StoredRecord(device, now)]
  }

  predicate AllHaveIds(devices: seq<DeviceInfo>)
  {
    forall i :: 0 <= i < |devices| ==> devices[i].id.Some?
  }

  predicate UniqueDeviceIds(devices: seq<DeviceInfo>)
  {
    forall i, j :: 0 <= i < j < |devices| ==> devices[i].id != devices[j].id
  }

  /** After an add, the stored record is the last one and no other record carries its id. */
  lemma AddDeviceAppendsLast(devices: seq<DeviceInfo>, device: DeviceInfo, now: nat)
    requires device.id.Some? || forall d :: d in devices ==> d.id != Some(GeneratedId(device.deviceType, now))
    ensures var r := DevicesAfterAdd(devices, device, now);
      && |r| > 0 && r[|r| - 1] == StoredRecord(device, now)
      && (forall i :: 0 <= i < |r| - 1 ==> r[i].id != r[|r| - 1].id)
  {
    var r := DevicesAfterAdd(devices, device, now);
    var kept := r[..|r| - 1];
    assert r == kept + [StoredRecord(device, now)];
    forall i | 0 <= i < |r| - 1
      ensures r[i].id != r[|r| - 1].id
    {
      assert r[i] == kept[i] && kept[i] in kept;
    }
  }

  /** Every record has an id after an add if every record had one before. */
  lemma AddDeviceKeepsIds(devices: seq<DeviceInfo>, device: DeviceInfo, now: nat)
    requires AllHaveIds(devices)
    ensures AllHaveIds(DevicesAfterAdd(devices, device, now))
  {
    var r := DevicesAfterAdd(devices, device, now);
    var kept := r[..|r| - 1];
    assert r == kept + [StoredRecord(device, now)];
    forall i | 0 <= i < |r| - 1
      ensures r[i].id.Some?
    {
      assert r[i] == kept[i] && kept[i] in kept;
      var k :| 0 <= k < |devices| && devices[k] == kept[i];
    }
  }

  /** An add keeps ids unique, provided a generated id is not already taken. */
  lemma AddDeviceKeepsIdsUnique(devices: seq<DeviceInfo>, device: DeviceInfo, now: nat)
    requires UniqueDeviceIds(devices)
    requires device.id.Some? || forall d :: d in devices ==> d.id != Some(GeneratedId(device.deviceType, now))
    ensures UniqueDeviceIds(DevicesAfterAdd(devices, device, now))
  {
    var r := DevicesAfterAdd(devices, device, now);
    var kept := r[..|r| - 1];
    assert r == kept + [StoredRecord(device, now)];
    AddDeviceAppendsLast(devices, device, now);
    if device.id.Some? {
      KeptRecordsStayUnique(devices, device.id.value);
    }
    forall i, j | 0 <= i < j < |r|
      ensures r[i].id != r[j].id
    {
      if j < |r| - 1 {
        assert r[i] == kept[i] && r[j] == kept[j];
      }
    }
  }

  lemma {:induction false} KeptRecordsStayUnique(devices: seq<DeviceInfo>, id: string)
    requires UniqueDeviceIds(devices)
    ensures UniqueDeviceIds(RemoveDeviceById(devices, id))
    decreases |devices|
  {
    if |devices| > 0 {
      var rest := RemoveDeviceById(devices[1..], id);
      KeptRecordsStayUnique(devices[1..], id);
      if devices[0].id != Some(id) {
        forall k | 0 <= k < |rest|
          ensures rest[k].id != devices[0].id
        {
          assert rest[k] in rest;
          var m :| 0 <= m < |devices[1..]| && devices[1..][m] == rest[k];
          assert devices[m + 1] == rest[k];
        }
      }
    }
  }

  // ---------------------------------------------------------------------------
  // Saved screens.

  /** The screens whose id is not `id` (`screens.filter(s => s.id !== id)`). */
  function RemoveScreenById(screens: seq<ScreenInfo>, id: string): (r: seq<ScreenInfo>)
    ensures forall s :: s in r <==> s in screens && s.id != id
    ensures |r| <= |screens|
    decreases |screens|
  {
    if |screens| == 0 then []
    else
      var rest := RemoveScreenById(screens[1..], id);
      assert forall s :: s in screens <==> s == screens[0] || s in screens[1..];
      if screens[0].id == id then rest else [screens[0]] + rest
  }

  lemma {:induction false} RemoveUnknownScreen(screens: seq<ScreenInfo>, id: string)
    requires forall i :: 0 <= i < |screens| ==> screens[i].id != id
    ensures RemoveScreenById(screens, id) == screens
    decreases |screens|
  {
    if |screens| > 0 {
      RemoveUnknownScreen(screens[1..], id);
      assert screens == [screens[0]] + screens[1..];
    }
  }

  /** Removal works screen by screen, so the kept screens stay in their order and keep their multiplicity. */
  lemma {:induction false} RemoveScreenDistributes(a: seq<ScreenInfo>, b: seq<ScreenInfo>, id: string)
    ensures RemoveScreenById(a + b, id) == RemoveScreenById(a, id) + RemoveScreenById(b, id)
    decreases |a|
  {
    if |a| > 0 {
      var ab := a + b;
      assert ab[0] == a[0] && ab[1..] == a[1..] + b;
      RemoveScreenDistributes(a[1..], b, id);
      var rest := RemoveScreenById(a[1..], id) + RemoveScreenById(b, id);
      assert RemoveScreenById(ab, id) == if a[0].id == id then rest else [a[0]] + rest;
      assert RemoveScreenById(a, id) == if a[0].id == id then RemoveScreenById(a[1..], id) else [a[0]] + RemoveScreenById(a[1..], id);
    } else {
      assert a + b == b;
    }
  }

  /** `add-screen`'s list: a stored screen with the same id is dropped (when `find` sees one), then the screen is appended. */
  function ScreensAfterAdd(screens: seq<ScreenInfo>, screen: ScreenInfo): (r: seq<ScreenInfo>)
  {
    var kept := if exists s :: s in screens && s.id == screen.id then RemoveScreenById(screens, screen.id) else screens;
    kept + [screen]
  }

  /** The `find` guard changes nothing: adding always amounts to remove-by-id then append. */
  lemma ScreensAfterAddIsReplace(screens: seq<ScreenInfo>, screen: ScreenInfo)
    ensures ScreensAfterAdd(screens, screen) == RemoveScreenById(screens, screen.id) + [screen]
    ensures var r := ScreensAfterAdd(screens, screen);
      forall i :: 0 <= i < |r| - 1 ==> r[i].id != screen.id
  {
    if !exists s :: s in screens && s.id == screen.id {
      RemoveUnknownScreen(screens, screen.id);
    }
    var r := ScreensAfterAdd(screens, screen);
    var kept := RemoveScreenById(screens, screen.id);
    forall i | 0 <= i < |r| - 1
      ensures r[i].id != screen.id
    {
      assert r[i] == kept[i] && kept[i] in kept;
    }
  }

  /** The comparator of `get-screens-res`: ascending `addDate`. */
  function ByAddDate(): (le: (ScreenInfo, ScreenInfo) -> bool)
    ensures TotalPreorder(le)
  {
    (a: ScreenInfo, b: ScreenInfo) => a.addDate <= b.addDate
  }

  /** The screen list as the renderer receives it: sorted by date added, the same screens. */
  function ScreensByDate(screens: seq<ScreenInfo>): (r: seq<ScreenInfo>)
    ensures multiset(r) == multiset(screens)
    ensures forall i, j :: 0 <= i < j < |r| ==> r[i].addDate <= r[j].addDate
  {
    var le := ByAddDate();
    var r := SortBy(screens, le);
    assert forall i, j :: 0 <= i < j < |r| ==> le(r[i], r[j]);
    r
  }

  // ---------------------------------------------------------------------------
  // get-files: the remote listing reduced to the known screens.

  /** The filter of `get-files`: the name contains ".png" and is one of the six screens. */
  predicate KeepScreenFile(name: string)
  {
    Contains(name, ".png") && name in ScreenFiles
  }

  /** The ".png" test is implied by the allow-list, so only the allow-list decides. */
  lemma KeepScreenFileIff(name: string)
    ensures KeepScreenFile(name) <==> name in ScreenFiles
  {
    if name in ScreenFiles {
      assert name[|name| - 4..] == ".png" by {
        assert name == "starting.png" || name == "poweroff.png" || name == "suspended.png"
          || name == "batteryempty.png" || name == "overheating.png" || name == "rebooting.png";
      }
      EndsWithContains(name, ".png");
    }
  }

  lemma EndsWithContains(s: string, suffix: string)
    requires |suffix| <= |s| && s[|s| - |suffix|..] == suffix
    ensures Contains(s, suffix)
  {
    assert OccursAt(s, suffix, |s| - |suffix|);
    ContainsIff(s, suffix);
  }

  function FilterScreenFiles(names: seq<string>): (r: seq<string>)
    ensures forall n :: multiset(r)[n] == if KeepScreenFile(n) then multiset(names)[n] else 0
    decreases |names|
  {
    if |names| == 0 then []
    else
      assert names == [names[0]] + names[1..];
      var rest := FilterScreenFiles(names[1..]);
      if KeepScreenFile(names[0]) then [names[0]] + rest else rest
  }

  /** The string comparator of `get-files` (`localeCompare`, which on these lower-case ASCII names is code-unit order). */
  function ByName(): (le: (string, string) -> bool)
    ensures TotalPreorder(le)
  {
    forall a, b ensures StrLe(a, b) || StrLe(b, a) { StrLeTotal(a, b); }
    forall a, b, c | StrLe(a, b) && StrLe(b, c) ensures StrLe(a, c) { StrLeTransitive(a, b, c); }
    (a: string, b: string) => StrLe(a, b)
  }

  /** The file names `get-files` downloads: each known screen as often as the listing has it, nothing else, in ascending order. */
  function ScreenFileNames(listing: seq<string>): (r: seq<string>)
    ensures forall n :: multiset(r)[n] == if n in ScreenFiles then multiset(listing)[n] else 0
    ensures forall n :: n in r ==> n in ScreenFiles
    ensures forall i, j :: 0 <= i < j < |r| ==> StrLe(r[i], r[j])
  {
    var kept := FilterScreenFiles(listing);
    var le := ByName();
    var r := SortBy(kept, le);
    forall n
      ensures multiset(r)[n] == if n in ScreenFiles then multiset(listing)[n] else 0
    {
      KeepScreenFileIff(n);
    }
    assert forall i, j :: 0 <= i < j < |r| ==> le(r[i], r[j]);
    r
  }

  /** The `dataUrl` of a downloaded screen. */
  function PngDataUrl(base64: string): string
  {
    "data:image/png;base64," + base64
  }

  datatype FilesReply = RemoteScreens(screens: seq<ScreenInfo>) | FilesFailed(error: string)

  /**
   * Downloads each name in order; `fetch` gives the base64 text of a remote
   * path, or `None` when `sftp.get` rejects, which rejects the whole batch.
   */
  function FetchScreens(names: seq<string>, fetch: string -> Option<string>, now: int): (r: Option<seq<ScreenInfo>>)
    ensures r.Some? <==> forall i :: 0 <= i < |names| ==> fetch(RemoteDir + names[i]).Some?
    ensures r.Some? ==> (|r.value| == |names| &&
      forall i :: 0 <= i < |names| ==>
        r.value[i] == ScreenInfo(names[i], names[i], PngDataUrl(fetch(RemoteDir + names[i]).value), now))
    decreases |names|
  {
    if |names| == 0 then Some([])
    else
      var image := fetch(RemoteDir + names[0]);
      var rest := FetchScreens(names[1..], fetch, now);
      if image.None? || rest.None? then None
      else Some([ScreenInfo(names[0], names[0], PngDataUrl(image.value), now)] + rest.value)
  }

  /**
   * The reply of `get-files`: `listing` is the remote directory's file names,
   * or `None` when listing failed or timed out.
   */
  function GetFilesReply(listing: Option<seq<string>>, fetch: string -> Option<string>, now: int): (r: FilesReply)
    ensures listing.None? ==> r == FilesFailed(FilesError)
    ensures r.FilesFailed? ==> r.error == FilesError
    ensures listing.Some? ==>
      var names := ScreenFileNames(listing.value);
      (r.RemoteScreens? <==> forall i :: 0 <= i < |names| ==> fetch(RemoteDir + names[i]).Some?) &&
      (r.RemoteScreens? ==> (|r.screens| == |names| &&
        forall i :: 0 <= i < |names| ==> r.screens[i].id == names[i] && r.screens[i].name == names[i]))
  {
    match listing
    case None => FilesFailed(FilesError)
    case Some(files) =>
      match FetchScreens(ScreenFileNames(files), fetch, now)
      case None => FilesFailed(FilesError)
      case Some(screens) => RemoteScreens(screens)
  }

  // ---------------------------------------------------------------------------
  // ping-devices.

  /** What `ping.promise.probe` did for one host. */
  datatype ProbeOutcome = ProbeThrew | ProbeReported(alive: bool)

  /**
   * One device's status. A record without a connection makes reading its
   * host throw inside the `try`, which the `catch` turns into `alive: false`.
   */
  function PingDevice(device: DeviceInfo, probe: ProbeOutcome): HostStatus
  {
    if device.connection.None? then HostStatus(device.id, false)
    else
      match probe
      case ProbeThrew => HostStatus(device.id, false)
      case ProbeReported(alive) => HostStatus(device.id, alive)
  }

  /**
   * The reply of `ping-devices`: `probes[i]` is what probing `devices[i]`'s
   * host produced. The final `filter(device => device)` keeps every object.
   */
  function PingDevices(devices: seq<DeviceInfo>, probes: seq<ProbeOutcome>): (r: seq<HostStatus>)
    requires |probes| == |devices|
    ensures |r| == |devices|
    ensures forall i :: 0 <= i < |r| ==> r[i].id == devices[i].id
    ensures forall i :: 0 <= i < |r| ==>
      (r[i].alive <==> devices[i].connection.Some? && probes[i] == ProbeReported(true))
  {
    seq(|devices|, i requires 0 <= i < |devices| => PingDevice(devices[i], probes[i]))
  }

  // ---------------------------------------------------------------------------
  // upload-file.

  predicate IsWordChar(c: char)
  {
    ('a' <= c <= 'z') || ('A' <= c <= 'Z') || ('0' <= c <= '9') || c == '_'
  }

  predicate IsWord(s: string)
  {
    |s| > 0 && forall i :: 0 <= i < |s| ==> IsWordChar(s[i])
  }

  function WordPrefixLength(s: string): (n: nat)
    ensures n <= |s| && (n > 0 ==> IsWord(s[..n]))
    ensures n < |s| ==> !IsWordChar(s[n])
    decreases |s|
  {
    if |s| > 0 && IsWordChar(s[0]) then
      var n := 1 + WordPrefixLength(s[1..]);
      assert forall i :: 1 <= i < n ==> s[..n][i] == s[1..][..n - 1][i - 1];
      n
    else 0
  }

  /** A word followed by a non-word character is read as exactly that word. */
  lemma {:induction false} WordRunThenStop(w: string, t: string)
    requires (forall i :: 0 <= i < |w| ==> IsWordChar(w[i])) && |t| > 0 && !IsWordChar(t[0])
    ensures WordPrefixLength(w + t) == |w|
    decreases |w|
  {
    if |w| > 0 {
      WordRunThenStop(w[1..], t);
      assert (w + t)[1..] == w[1..] + t;
    } else {
      assert w + t == t;
    }
  }

  const ImagePrefix := "data:image/"
  const Base64Marker := ";base64,"

  /** `file.replace(/^data:image\/\w+;base64,/, '')`. */
  function StripDataUrlPrefix(file: string): (r: string)
    ensures r == file || exists kind :: IsWord(kind) && file == ImagePrefix + kind + Base64Marker + r
  {
    if IsPrefix(ImagePrefix, file) then
      var rest := file[|ImagePrefix|..];
      var n := WordPrefixLength(rest);
      if n > 0 && IsPrefix(Base64Marker, rest[n..]) then
        var r := rest[n..][|Base64Marker|..];
        assert file == ImagePrefix + rest[..n] + Base64Marker + r;
        r
      else file
    else file
  }

  /** Whatever the image kind, a base64 data URL loses exactly its header. */
  lemma StripDataUrlHeader(kind: string, payload: string)
    requires IsWord(kind)
    ensures StripDataUrlPrefix(ImagePrefix + kind + Base64Marker + payload) == payload
  {
    var file := ImagePrefix + kind + Base64Marker + payload;
    var rest := file[|ImagePrefix|..];
    assert rest == kind + (Base64Marker + payload);
    WordRunThenStop(kind, Base64Marker + payload);
    assert rest[|kind|..] == Base64Marker + payload;
    assert IsPrefix(Base64Marker, rest[|kind|..]);
  }

  /** Uploading a screen downloaded by `get-files` sends back the very base64 text it was listed with. */
  lemma StripPngDataUrl(base64: string)
    ensures StripDataUrlPrefix(PngDataUrl(base64)) == base64
  {
    assert PngDataUrl(base64) == ImagePrefix + "png" + Base64Marker + base64;
    StripDataUrlHeader("png", base64);
  }

  /** The remote file an upload for `screen` writes. */
  function UploadPath(screen: string): string
  {
    RemoteDir + screen + ".png"
  }

  /** What `upload-file` asks the SFTP client for. */
  datatype PutRequest = PutRequest(host: string, port: int, username: string, password: string, path: string, payload: string)

  function UploadRequest(connection: Connection, screen: string, file: string): (req: PutRequest)
    ensures req.port == 22
    ensures req.host == connection.host && req.username == connection.username && req.password == connection.password
    ensures req.path == UploadPath(screen)
    ensures req.payload == StripDataUrlPrefix(file)
  {
    PutRequest(connection.host, 22, connection.username, connection.password, UploadPath(screen), StripDataUrlPrefix(file))
  }

  /** The port `connect-device` uses (`connection.port || 22`). */
  function ConnectPort(connection: Connection): (p: int)
    ensures connection.port != 0 ==> p == connection.port
    ensures connection.port == 0 ==> p == 22
  {
    if connection.port != 0 then connection.port else 22
  }

  /** The monitoring connection honours a configured port; the upload connection does not. */
  lemma UploadIgnoresPort(connection: Connection, screen: string, file: string)
    requires connection.port != 0 && connection.port != 22
    ensures UploadRequest(connection, screen, file).port != ConnectPort(connection)
  {
  }

  /** The reply to an upload: success goes out on 'upload-file', failure on 'upload-file-res'. */
  datatype UploadReply = UploadReply(channel: string, success: bool, error: string)

  function UploadFileReply(connected: bool, written: bool): (r: UploadReply)
    ensures r.success <==> connected && written
    ensures r.success ==> r.channel == "upload-file"
    ensures !r.success ==> r.channel == "upload-file-res" && r.error == UploadError
  {
    if connected && written then UploadReply("upload-file", true, "")
    else UploadReply("upload-file-res", false, UploadError)
  }

  /**
   * Everything one `upload-file` does: the put it issues (none when the
   * connect fails), the connection it hands to `get-files` afterwards (none
   * unless the put was written), and its reply.
   */
  datatype UploadOutcome = UploadOutcome(put: Option<PutRequest>, refresh: Option<Connection>, reply: UploadReply)

  /** The `upload-file` handler, given whether the connect and the write succeed. */
  function UploadFile(connection: Connection, screen: string, file: string, connected: bool, written: bool): (o: UploadOutcome)
    ensures o.put.Some? <==> connected
    ensures o.put.Some? ==> o.put.value == UploadRequest(connection, screen, file)
  {
    if !connected then UploadOutcome(None, None, UploadFileReply(false, written))
    else UploadOutcome(Some(UploadRequest(connection, screen, file)), if written then Some(connection) else None, UploadFileReply(true, written))
  }

  /**
   * `get-files` is emitted with the upload's own connection, and exactly
   * when a put was issued and written; that is also exactly when success is
   * reported. Every other outcome replies "Could not upload file" and
   * refreshes nothing.
   */
  lemma UploadRefreshesAfterWrite(connection: Connection, screen: string, file: string, connected: bool, written: bool)
    ensures var o := UploadFile(connection, screen, file, connected, written);
      (o.refresh.Some? <==> o.put.Some? && written)
      && (o.refresh.Some? ==> o.refresh.value == connection)
      && (o.reply.success <==> o.refresh.Some?)
      && (o.reply.success ==> o.reply.channel == "upload-file")
      && (!o.reply.success ==> o.reply.channel == "upload-file-res" && o.reply.error == UploadError)
  {
  }

  // ---------------------------------------------------------------------------
  // The settings store.

  datatype SettingValue = Text(text: string) | Number(number: int) | Flag(flag: bool)

  /**
   * The persisted arrays and user settings. Each method is one IPC handler;
   * its reply is its out-parameter.
   */
  class SettingsStore {
    var devices: seq<DeviceInfo>
    var screens: seq<ScreenInfo>
    var userSettings: map<string, SettingValue>

    /** Every stored device has an id: records are only stored by `add-device`, which assigns one. */
    ghost predicate Valid()
      reads this
    {
      AllHaveIds(devices)
    }

    constructor ()
      ensures Valid()
      ensures devices == [] && screens == [] && userSettings == map[]
    {
      devices := [];
      screens := [];
      userSettings := map[];
    }

    /** `add-device`: upsert by replace, with an id and date generated for a new record. */
    method AddDevice(device: DeviceInfo, now: nat) returns (reply: DeviceInfo)
      requires Valid()
      modifies this
      ensures Valid()
      ensures reply == StoredRecord(device, now)
      ensures devices == DevicesAfterAdd(old(devices), device, now)
      ensures screens == old(screens) && userSettings == old(userSettings)
    {
      var record := device;
      if device.id.Some? {
        devices := RemoveDeviceById(devices, device.id.value);
      } else {
        var id := GeneratedId(device.deviceType, now);
        record := record.(id := Some(id), addDate := Some(now));
      }
      var stored := devices;
      AddDeviceKeepsIds(old(devices), device, now);
      devices := stored + [record];
      reply := record;
    }

    /** `get-devices`. */
    method GetDevices() returns (reply: seq<DeviceInfo>)
      ensures reply == devices
    {
      reply := devices;
    }

    /** `remove-device`. */
    method RemoveDevice(id: string)
      requires Valid()
      modifies this
      ensures Valid()
      ensures devices == RemoveDeviceById(old(devices), id)
      ensures screens == old(screens) && userSettings == old(userSettings)
    {
      devices := RemoveDeviceById(devices, id);
      assert forall d :: d in devices ==> d in old(devices);
      forall i | 0 <= i < |devices|
        ensures devices[i].id.Some?
      {
        assert devices[i] in old(devices);
      }
    }

    /** `add-screen`: replace by id, append, reply with the list by date. */
    method AddScreen(screen: ScreenInfo) returns (reply: seq<ScreenInfo>)
      requires Valid()
      modifies this
      ensures Valid()
      ensures screens == ScreensAfterAdd(old(screens), screen)
      ensures reply == ScreensByDate(screens)
      ensures devices == old(devices) && userSettings == old(userSettings)
    {
      if exists s :: s in screens && s.id == screen.id {
        screens := RemoveScreenById(screens, screen.id);
      }
      screens := screens + [screen];
      reply := ScreensByDate(screens);
    }

    /** `get-screens`. */
    method GetScreens() returns (reply: seq<ScreenInfo>)
      ensures reply == ScreensByDate(screens)
    {
      reply := ScreensByDate(screens);
    }

    /** `remove-screen`: its reply keeps the stored order (it is not re-sorted). */
    method RemoveScreen(id: string) returns (reply: seq<ScreenInfo>)
      requires Valid()
      modifies this
      ensures Valid()
      ensures screens == RemoveScreenById(old(screens), id)
      ensures reply == screens
      ensures devices == old(devices) && userSettings == old(userSettings)
    {
      screens := RemoveScreenById(screens, id);
      reply := screens;
    }

    /** `update-user-setting`: `{ ...userSettings, [key]: value }`. */
    method UpdateUserSetting(key: string, value: SettingValue) returns (reply: map<string, SettingValue>)
      requires Valid()
      modifies this
      ensures Valid()
      ensures userSettings.Keys == old(userSettings).Keys + {key}
      ensures userSettings[key] == value
      ensures forall k :: k in old(userSettings) && k != key ==> userSettings[k] == old(userSettings)[k]
      ensures reply == userSettings
      ensures devices == old(devices) && screens == old(screens)
    {
      userSettings := userSettings[key := value];
      reply := userSettings;
    }
  }
}
