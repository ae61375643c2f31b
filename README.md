# rePlace, modelled in Dafny

rePlace is an Electron desktop app that replaces the system screens of a
reMarkable tablet: the sleep, power-off, boot and other images in
`/usr/share/remarkable/`. This project models the app's logic that can be
stated as values and state, and proves properties of it.

- **Background process** (`Background`): the settings store as a class with a
  device registry and a screen library. `add-device` is an upsert by replace
  that generates a `"{type}-{millis}"` id for a new record. The module also
  covers `remove-device`, `get-devices`, `add-screen`, `get-screens`,
  `remove-screen` and `update-user-setting`. Pure pipelines cover three more
  handlers:
  - `get-files`: filter by the six screen names, sort, and build `data:` URLs;
  - `ping-devices`: one `HostStatus` per device;
  - `upload-file`: the remote path, port 22, and stripping the data-URL header.
- **Connection heartbeat** (`Heartbeat`): `checkConnection` and the
  `connect-device-res` / `check-device-res` handlers, plus "Retry". These are
  pure transitions with a `Monitor` class over them. A silent session is
  proved to fail after a bounded number of ticks. The newer page and the
  older page run identical code, so one model serves both.
- **Connection page** (`ConnectionPage`): the query-parameter guards of both
  pages, the upload gate, the screen name cut at ".png", and the three-step
  screen picker.
- **Add/edit-device wizard** (`Wizard`, `LegacyWizard`): the step machines of
  the current wizard and of the older one. This includes connection defaults
  that never overwrite a set field, port parsing, the Continue gate, the
  default name, and the older page's wizard-or-list choice.
- **Device list view** (`DeviceView`): the alive ids derived from ping
  results and the effects that hide the header (or the settings tabs).
- **Screen creator** (`Creator`): eye linking and single-entry slider edits.
  The invariant "linked eyes are equal and every entry lies in its slider's
  range" is kept.
- **Update check** (`UpdateCheck`): the one-hour cache, dropping drafts (and
  pre-releases unless they are enabled), selecting the first release left,
  and the stored result.
- **Window state** (`WindowState`): containment in a display's bounds, the
  centred fallback, restoring over the default size, and saving on close.

Shared pieces:
- `Types` holds the records.
- `Strings` holds the JavaScript string behaviour used:
  - `includes`;
  - code-unit ordering;
  - `parseInt` on decimal text;
  - `String(n)`;
  - `split(sep)[0]`.
- `Sorting` is a generic insertion sort proved sorted and a permutation.
  It stands for `Array.prototype.sort`.

Conventions:
- JavaScript truthiness is modelled explicitly. An empty string is "unset",
  and a port of 0 stands for `undefined`, `NaN` or `0`.
- The clock, probe results, SFTP outcomes and fetched data are parameters.

The heartbeat follows the code as written:
- A successful check resets the retry counter only when the status flips to
  connected (`renderer/app/connection/page.tsx:166-174`), so a session that
  is already connected keeps its count.
- The heartbeat is stamped even on a failed check.
- There is no retry backoff beyond the fixed five-second timer.

## Model

| member | source | states |
|---|---|---|
| Background.RemoveDeviceById | main/background.ts:224-229 | a record is kept exactly when it was stored and its id differs from the removed id |
| Background.RemoveUnknownDevice | main/background.ts:224-229 | removing an id that no record has leaves the list unchanged |
| Background.RemoveDeviceDistributes | main/background.ts:227 | the filter distributes over concatenation, so kept records stay in their original order |
| Background.GeneratedIdShape | main/background.ts:201-204 | a generated id is the type name, "-" and a non-empty run of decimal digits; two equal ids come from the same millisecond |
| Background.StoredRecord | main/background.ts:192-205 | the stored record always has an id; a record with an id is stored as given; a record without one gets the generated id and the date, and nothing else changes |
| Background.AddDeviceAppendsLast | main/background.ts:193-211 | after an add, the stored record is the last one and no other record has its id (a generated id must not already be in use) |
| Background.AddDeviceKeepsIds | main/background.ts:192-211 | if every record had an id before an add, every record has one after it |
| Background.AddDeviceKeepsIdsUnique | main/background.ts:192-211 | unique ids stay unique through an add (a generated id must not already be in use) |
| Background.KeptRecordsStayUnique | main/background.ts:224-229 | removal keeps ids unique |
| Background.RemoveScreenById | main/background.ts:371-374 | a screen is kept exactly when it was stored and its id differs; the list never grows |
| Background.RemoveUnknownScreen | main/background.ts:373 | removing an unknown screen id changes nothing |
| Background.RemoveScreenDistributes | main/background.ts:373 | the filter distributes over concatenation, so kept screens stay in their order with their multiplicity |
| Background.ScreensAfterAddIsReplace | main/background.ts:344-352 | the `find` guard does not matter: an add is remove-by-id then append; afterwards exactly the last screen has the new id |
| Background.ByAddDate | main/background.ts:355-357 | the `addDate` comparator is a total preorder |
| Background.ScreensByDate | main/background.ts:353-358 | the reply has the same screens (as a multiset), in ascending `addDate` order |
| Background.KeepScreenFileIff | main/background.ts:241-251 | a listed name is kept exactly when it is one of the six screen names; the ".png" test adds nothing |
| Background.FilterScreenFiles | main/background.ts:241-251 | each kept name appears as often as in the listing, and a dropped name not at all |
| Background.ByName | main/background.ts:252 | the name comparator is a total preorder |
| Background.ScreenFileNames | main/background.ts:239-252 | the result holds each of the six names as often as the listing does and nothing else, in ascending order |
| Background.FetchScreens | main/background.ts:254-259 | all downloads succeed or the whole step fails; on success there is one screen per name, in order, with the full name (".png" included) as id and name and a PNG data URL |
| Background.GetFilesReply | main/background.ts:231-270 | a failed listing or download gives the "Could not connect to SFTP server" error, otherwise the screens |
| Background.PingDevices | main/background.ts:116-144 | one status per device, in order, carrying its id; alive exactly when the device has a connection and its probe reported alive |
| Background.StripDataUrlPrefix | main/background.ts:294-297 | the payload is the input unchanged, or the input is "data:image/" + word + ";base64," + payload |
| Background.StripDataUrlHeader | main/background.ts:294-297 | for every word kind, a base64 data URL loses exactly its header |
| Background.StripPngDataUrl | main/background.ts:257 | a data URL built by `get-files` strips back to its base64 text |
| Background.UploadRequest | main/background.ts:286-299 | the upload connects on port 22 with the connection's host and credentials, and writes the stripped payload to "/usr/share/remarkable/" + screen + ".png" |
| Background.UploadIgnoresPort | main/background.ts:289 | with a configured port other than 22, the upload and the monitor connect on different ports |
| Background.UploadFile | main/background.ts:284-314 | a put is issued exactly when the connect succeeds, and it is the upload request for the given connection, screen and file |
| Background.UploadRefreshesAfterWrite | main/background.ts:300-313 | `get-files` is emitted with the upload's own connection, exactly when the put was issued and written, which is exactly when success is replied on 'upload-file'; otherwise "Could not upload file" goes out on 'upload-file-res' and nothing is refreshed |
| Background.SettingsStore.constructor | main/background.ts:18 | an empty store |
| Background.SettingsStore.AddDevice | main/background.ts:192-215 | the registry becomes the add result and the reply is the stored record; screens and settings do not change |
| Background.SettingsStore.GetDevices | main/background.ts:218-221 | the reply is the stored list |
| Background.SettingsStore.RemoveDevice | main/background.ts:224-229 | the registry becomes the filtered list |
| Background.SettingsStore.AddScreen | main/background.ts:344-359 | the stored list is replace-then-append, in insertion order; the reply is that list sorted by date |
| Background.SettingsStore.GetScreens | main/background.ts:361-369 | the reply is the stored list sorted by date |
| Background.SettingsStore.RemoveScreen | main/background.ts:371-376 | the stored list is filtered, and the reply is that list unsorted |
| Background.SettingsStore.UpdateUserSetting | main/background.ts:318-328 | the key is set to the value and every other setting is kept; the reply is the new settings |
| Sorting.SortBy | main/background.ts:252 | the result is a permutation of the input, sorted by the comparator |
| Strings.ContainsIff | main/background.ts:250 | `includes` holds exactly when the text occurs at some index |
| Strings.StrLeTotal | main/background.ts:252 | code-unit order is total |
| Strings.StrLeTransitive | main/background.ts:252 | code-unit order is transitive |
| Strings.StrLeAntisymmetric | main/background.ts:252 | code-unit order is antisymmetric |
| Strings.ParseIntRoundTrip | renderer/components/new-device.tsx:268-270 | `parseInt(String(n))` is `n` for every integer |
| Strings.IntToStringInjective | renderer/components/new-device.tsx:268-270 | different numbers have different decimal texts |
| Strings.BeforeFirstSpec | renderer/app/connection/page.tsx:268 | `split(sep)[0]` contains no occurrence of the separator; one starts right after it when there is any; with none it is the whole text |
| Strings.BeforeFirstOfSuffixed | renderer/app/connection/page.tsx:268 | a stem without the separator's first character, followed by the separator, splits back to the stem |
| Heartbeat.TickWhenFailed | renderer/app/connection/page.tsx:216-218 | once failed, a tick changes nothing and sends no check |
| Heartbeat.TickDemotesStale | renderer/app/connection/page.tsx:220-223 | a connected session whose heartbeat is more than 10000 ms old is demoted; no check is sent and the counter is kept |
| Heartbeat.TickGivesUp | renderer/app/connection/page.tsx:225-228 | disconnected with 3 or more retries, a tick fails the session without a check |
| Heartbeat.TickChecks | renderer/app/connection/page.tsx:230-235 | otherwise a tick sends one check and raises the counter only when disconnected |
| Heartbeat.TickChecksIff | renderer/app/connection/page.tsx:215-236 | a check is sent exactly when none of the three early returns applies |
| Heartbeat.ConnectResultEffect | renderer/app/connection/page.tsx:155-164 | a connect reply sets `connected` to the result, clears the counter and stamps the heartbeat; a failure also fails the session |
| Heartbeat.CheckResultEffect | renderer/app/connection/page.tsx:166-174 | a check reply always stamps the heartbeat; `connected` changes only on a differing result, and the counter resets only on a change to connected |
| Heartbeat.RetryEffect | renderer/app/connection/page.tsx:488-492 | "Retry" clears the failure and the counter |
| Heartbeat.EventsKeepValid | renderer/app/connection/page.tsx:155-236 | every event keeps the retry counter within 0..3 |
| Heartbeat.InitialValid | renderer/app/connection/page.tsx:95-100 | the mount state is disconnected, not failed, and valid |
| Heartbeat.TicksLeft | renderer/app/connection/page.tsx:215-236 | a silent session has at most 5 ticks left, and none exactly when it has failed |
| Heartbeat.SilentSessionFails | renderer/app/connection/page.tsx:215-236 | with no replies and a stale heartbeat, the session fails exactly when the ticks reach its budget; it sends 3 - retryCount checks on the way; a failed session stays inert |
| Heartbeat.UnansweredSessionFails | renderer/app/connection/page.tsx:215-236 | from the mount state, four unanswered ticks fail the session after three checks |
| Heartbeat.FailingDeviceFails | renderer/app/connection/page.tsx:155-236 | ticks interleaved with any failed check or connect replies use up the tick budget one tick at a time, and once the run holds `TicksLeft` ticks the session has failed; the counter stays within 0..3 |
| Heartbeat.UnreachableDeviceFails | renderer/app/connection/page.tsx:155-236 | from the mount state, a device that never answers "connected" has failed after four ticks, whatever failed replies fall between them and whenever they come |
| Heartbeat.Monitor.constructor | renderer/app/connection/page.tsx:95-100 | the monitor starts in the mount state |
| Heartbeat.Monitor.Tick | renderer/app/connection/page.tsx:215-236 | the new state and the check flag are those of the tick transition; the older page's copy is renderer/pages/connection.tsx:182-210 |
| Heartbeat.Monitor.OnConnectResult | renderer/app/connection/page.tsx:155-164 | the new state is the connect-reply transition (same in renderer/pages/connection.tsx:126-136) |
| Heartbeat.Monitor.OnCheckResult | renderer/app/connection/page.tsx:166-174 | the new state is the check-reply transition (same in renderer/pages/connection.tsx:138-147) |
| Heartbeat.Monitor.Retry | renderer/app/connection/page.tsx:488-492 | the new state is the retry transition, and a connect is sent exactly when there is a device (same in renderer/pages/connection.tsx:275-279) |
| ConnectionPage.NewerGuardIsStricter | renderer/app/connection/page.tsx:143 | the newer guard implies the older one, and a missing or zero port passes only the older one |
| ConnectionPage.DecimalPortGiven | renderer/app/connection/page.tsx:139 | a non-zero port written in decimal passes the port test |
| ConnectionPage.ListedDevicePassesGuards | renderer/app/connection/page.tsx:134-146 | a device whose host, username, password and port are all set, and whose three texts hold no "#" or "&", passes the newer guard and the older one when linked from the device list (device-list.tsx:103-109), which does not encode the query |
| ConnectionPage.WizardPortIsConnectPort | main/background.ts:169 | a connection completed by the wizard is monitored on the very port the wizard stored: the one the user set, or 22 for both |
| ConnectionPage.UploadGateFollowsHeartbeat | renderer/app/connection/page.tsx:407-412 | the "Update Screen" button is disabled at mount, after a failed connect or check, and after a tick that demotes or gives up; after a successful check it is enabled exactly when the session has not failed and both screens are picked |
| ConnectionPage.UploadTarget | renderer/app/connection/page.tsx:268 | the target is the remote name up to the first ".png": a prefix of it, with ".png" right after it and nowhere before, or the whole name when it has no ".png" |
| ConnectionPage.StemBeforePng | renderer/app/connection/page.tsx:268 | a dot-free stem followed by ".png" gives back the stem |
| ConnectionPage.ListedNameShape | main/background.ts:242-249 | each of the six names is a dot-free stem followed by ".png" |
| ConnectionPage.UploadOverwritesPicked | renderer/app/connection/page.tsx:268 | uploading over a listed screen writes exactly the file that was picked |
| ConnectionPage.UploadReplacesRemoteFile | renderer/app/connection/page.tsx:261-270 | an upload over a listed screen goes to that file on port 22 and carries the payload |
| ConnectionPage.ScreenPicker.constructor | renderer/app/connection/page.tsx:104-110 | step 0, nothing picked, both dialogs closed |
| ConnectionPage.ScreenPicker.SelectRemote | renderer/app/connection/page.tsx:369-373 | picks the remote screen and moves to step 1 |
| ConnectionPage.ScreenPicker.SelectSaved | renderer/app/connection/page.tsx:379-383 | picks the saved screen and moves to step 2 |
| ConnectionPage.ScreenPicker.Back | renderer/app/connection/page.tsx:335-341 | goes one step back and keeps the picks |
| ConnectionPage.ScreenPicker.OpenUploadDialog | renderer/app/connection/page.tsx:406-413 | the enabled button opens the confirmation |
| ConnectionPage.ScreenPicker.Upload | renderer/app/connection/page.tsx:261-275 | sends exactly when there is a device and both picks; the message carries the connection, the target name and the saved data URL; then the confirmation closes, success shows and the step returns to 0 |
| ConnectionPage.ScreenPicker.UpdateScreen | renderer/app/connection/page.tsx:404-443 | at step 2 with the button enabled and a device known, pressing "Update Screen" and confirming sends the picked saved screen over the picked remote name, closes the confirmation, opens the success dialog and returns to step 0 |
| Wizard.FillDefaults | renderer/components/new-device.tsx:418-435 | each set field is kept and each unset one takes its default (host given, "root", port 22); the password is kept |
| Wizard.FillDefaultsIdempotent | renderer/components/new-device.tsx:418-435 | filling defaults twice changes nothing more |
| Wizard.FillDefaultsKeepsComplete | renderer/components/new-device.tsx:418-435 | a fully set connection passes through untouched |
| Wizard.MethodHost | renderer/components/new-device.tsx:420-424 | the host default is 10.11.99.1 for USB and empty for every other method |
| Wizard.MethodDefaultsHost | renderer/components/new-device.tsx:420-424 | choosing USB for a record with no host fills in 10.11.99.1; Wi-Fi and reDockable leave the host empty |
| Wizard.WithRedockable | renderer/components/new-device.tsx:379-400 | choosing reDockable sets the type, keeps a set method (otherwise reDockable) and defaults the connection around 127.0.0.1 |
| Wizard.WithMethod | renderer/components/new-device.tsx:414-437 | choosing a method records it and defaults the connection around the method's host; nothing else changes |
| Wizard.SaveName | renderer/components/new-device.tsx:338 | the saved name is the typed one, or "Unnamed reMarkable" when empty; it is never empty |
| Wizard.PortInputOfNumber | renderer/components/new-device.tsx:177-185 | typing a number's own text stores that number |
| Wizard.SubmittedPortIsStored | renderer/components/new-device.tsx:268-270 | Continue submits the stored number unchanged |
| Wizard.ConnectionForm.constructor | renderer/components/new-device.tsx:132-141 | the fields start from the record's connection, and an unset port shows 22 |
| Wizard.ConnectionForm.SetPortText | renderer/components/new-device.tsx:177-185 | the port becomes the parsed input; the other fields do not change |
| Wizard.ConnectionForm.SetHost | renderer/components/new-device.tsx:132 | only the host changes |
| Wizard.ConnectionForm.SetUsername | renderer/components/new-device.tsx:136-138 | only the username changes |
| Wizard.ConnectionForm.SetPassword | renderer/components/new-device.tsx:139-141 | only the password changes |
| Wizard.ConnectionForm.Continue | renderer/components/new-device.tsx:266-273 | the submitted connection is the form's fields with the parsed port, and every field is set |
| Wizard.NewDevice.constructor | renderer/components/new-device.tsx:361-364 | step 0 with the record being edited |
| Wizard.NewDevice.Back | renderer/components/new-device.tsx:367-375 | from step 2 with method reDockable back to 0, otherwise one step back |
| Wizard.NewDevice.SelectDeviceType | renderer/components/new-device.tsx:378-411 | reDockable applies its defaults and jumps to step 2; any other type is recorded and the wizard moves to step 1 |
| Wizard.NewDevice.SelectMethod | renderer/components/new-device.tsx:414-439 | the method and connection defaults are applied, then step 2 |
| Wizard.NewDevice.SubmitDetails | renderer/components/new-device.tsx:442-448 | the connection is replaced as a whole, then step 3 |
| Wizard.NewDevice.Save | renderer/components/new-device.tsx:451-465 | sends the record with the save name and closes the wizard |
| Wizard.NewDevice.Cancel | renderer/components/new-device.tsx:467-470 | resets the record to `{}` and closes |
| Wizard.EditKeepsConnection | renderer/components/new-device.tsx:378-439 | re-selecting through an edit keeps a fully configured connection and method |
| Wizard.NewUsbDefaults | renderer/components/new-device.tsx:414-437 | a new USB device gets 10.11.99.1, root, an empty password and port 22 |
| LegacyWizard.MethodConnection | renderer/pages/connect.tsx:340-351 | the connection written is host 10.11.99.1 for USB (otherwise empty), root, an empty password and no port |
| LegacyWizard.MethodOverwritesConnection | renderer/pages/connect.tsx:340-351 | the connection after choosing a method does not depend on what was there before |
| LegacyWizard.LegacyNewDevice.constructor | renderer/pages/connect.tsx:322-323 | step 0 with an empty record |
| LegacyWizard.LegacyNewDevice.Back | renderer/pages/connect.tsx:326-328 | always one step back |
| LegacyWizard.LegacyNewDevice.SelectDeviceType | renderer/pages/connect.tsx:331-337 | records the type and moves to step 1 |
| LegacyWizard.LegacyNewDevice.SelectMethod | renderer/pages/connect.tsx:340-351 | records the method, overwrites the connection, then step 2 |
| LegacyWizard.LegacyNewDevice.SubmitDetails | renderer/pages/connect.tsx:354-360 | replaces the connection, then step 3 |
| LegacyWizard.LegacyNewDevice.Save | renderer/pages/connect.tsx:363-378 | sends the record with the name as typed and closes |
| LegacyWizard.LegacyNewDevice.Cancel | renderer/pages/connect.tsx:380-383 | resets the record to `{}` and closes |
| LegacyWizard.ConnectPage.constructor | renderer/pages/connect.tsx:501-527 | starts with the two placeholder records and the list shown |
| LegacyWizard.ConnectPage.OnDevices | renderer/pages/connect.tsx:501-526 | the list is replaced, and an empty list shows the wizard |
| LegacyWizard.ConnectPage.SetAddDevice | renderer/pages/connect.tsx:527 | asking for the wizard shows it; otherwise it is shown exactly when the list is empty |
| DeviceView.AliveIds | renderer/components/device/device-manager.tsx:60-63 | an id is alive exactly when some alive result carries it; no more ids than results |
| DeviceView.AliveIdsAppend | renderer/components/device/device-manager.tsx:61 | the derivation works result by result, so the ids follow the order of the results |
| DeviceView.AliveAfterPing | renderer/components/devices-tab.tsx:60-63 | through `ping-devices`, an id is alive exactly when a device with that id has a connection and its probe reported alive |
| DeviceView.DeviceManager.constructor | renderer/components/device/device-manager.tsx:11-42 | after mount: no devices, the empty record being edited, chrome shown |
| DeviceView.DeviceManager.OnDevices | renderer/components/device/device-manager.tsx:24-32 | the list is stored and pinged, and the chrome is hidden exactly when it is empty (devices-tab.tsx:24-32 is the same) |
| DeviceView.DeviceManager.OnPingResults | renderer/components/device/device-manager.tsx:60-63 | the alive ids become the derived ids |
| DeviceView.DeviceManager.SetAddDevice | renderer/components/device/device-manager.tsx:35-42 | when the flag flips off, the edited record resets and the chrome shows; when it flips on, the chrome hides; with no flip nothing else changes (devices-tab.tsx:35-42 is the same) |
| DeviceView.DeviceManager.EditDevice | renderer/components/devices-tab.tsx:76-79 | stores the edited record and opens the wizard |
| Creator.InitialInRange | renderer/components/screen-creator/creator.tsx:12-17 | the initial face is in the sliders' ranges with equal eyes |
| Creator.UpdateFaceDetails | renderer/components/screen-creator/creator-sidebar.tsx:20-28 | only the given entry of the given key changes; the other entry, the other keys and the mouth shape are kept; range is preserved |
| Creator.WithMouthType | renderer/components/screen-creator/creator-sidebar.tsx:122-134 | only the mouth shape changes |
| Creator.ThemeSwitchRoundTrip | renderer/components/screen-creator/creator-sidebar.tsx:43-45 | the switch shows the theme, and flipping it changes the theme |
| Creator.LinkedEyeEdit | renderer/components/screen-creator/creator.tsx:24-29 | while linked, editing one eye sets both eyes to the edited value and leaves the mouth alone |
| Creator.UnlinkedStoresAsGiven | renderer/components/screen-creator/creator.tsx:24-32 | unlinked, the submitted face is stored as given |
| Creator.SidebarEditKeepsInvariant | renderer/components/screen-creator/creator-sidebar.tsx:70-157 | a slider edit keeps the face in range and keeps linked eyes equal |
| Creator.ScreenCreator.constructor | renderer/components/screen-creator/creator.tsx:11-19 | light theme, the initial face, eyes linked |
| Creator.ScreenCreator.HandleFaceDetailChange | renderer/components/screen-creator/creator.tsx:22-33 | while linked, an edited left eye is copied to the right and an edited right eye to the left; the mouth is stored as given |
| Creator.ScreenCreator.SliderChange | renderer/components/screen-creator/creator-sidebar.tsx:20-28 | a slider move through sidebar and creator keeps the invariant |
| Creator.ScreenCreator.MouthTypeChange | renderer/components/screen-creator/creator-sidebar.tsx:122-134 | a shape button changes only the shape and keeps the invariant |
| Creator.ScreenCreator.HandleThemeChange | renderer/components/screen-creator/creator.tsx:34-36 | the theme follows the switch, and nothing else changes |
| Creator.ScreenCreator.HandleLinkEyesChange | renderer/components/screen-creator/creator.tsx:37-47 | linking copies the right eye to the left; unlinking changes no face detail |
| UpdateCheck.DropDrafts | main/helpers/updateCheck.ts:48-50 | a release is kept exactly when it was listed and is not a draft |
| UpdateCheck.DropPreReleases | main/helpers/updateCheck.ts:53-57 | a release is kept exactly when it was listed and is not a pre-release |
| UpdateCheck.Candidates | main/helpers/updateCheck.ts:48-57 | what is left is exactly the eligible releases |
| UpdateCheck.SelectedIsFirstEligible | main/helpers/updateCheck.ts:59 | the selected release is the first eligible one, and there is none exactly when nothing is eligible |
| UpdateCheck.MapAssets | main/helpers/updateCheck.ts:5-9 | every asset is kept and labelled 'darwin' |
| UpdateCheck.FindPlatformAsset | main/helpers/updateCheck.ts:81 | the asset found is listed and has the platform; none is found only when none has it |
| UpdateCheck.DetailsKeepAllAssets | main/helpers/updateCheck.ts:67-83 | no asset is dropped; on macOS the platform asset is the first one, elsewhere there is none |
| UpdateCheck.AsWrittenRejectsWhenNothingEligible | main/helpers/updateCheck.ts:59-64 | with a release tag set and nothing eligible, the code as written rejects and stores nothing |
| UpdateCheck.Check | main/helpers/updateCheck.ts:11-90 | within the hour the cached answer is returned without a fetch; a non-array response returns the last update; the check rejects exactly on a network error; after a fetch the store holds now and the computed details |
| UpdateCheck.CheckAgreesWhenSomethingEligible | main/helpers/updateCheck.ts:59-64 | the corrected check agrees with the code everywhere else |
| UpdateCheck.OfferedIsFirstEligible | main/helpers/updateCheck.ts:59-64 | an update is offered exactly when the first eligible release's tag differs from the running version, and it is that release |
| UpdateCheck.OfferedNeverDraft | main/helpers/updateCheck.ts:48-57 | an offered update is never a draft, and is a pre-release only when pre-releases are on |
| UpdateCheck.CacheRepeatsLastAnswer | main/helpers/updateCheck.ts:25-35 | re-running within the hour gives the answer just stored, without a fetch |
| WindowState.WithinBoundsMeansCovered | main/helpers/create-window.ts:39-49 | for a window of non-negative size, being within the bounds is the same as every point of it lying in the bounds |
| WindowState.Restore | main/helpers/create-window.ts:19-26 | the default size at (0, 0), overridden field by field by the stored values |
| WindowState.RestoreSaved | main/helpers/create-window.ts:19-26 | a state written by `saveState` restores exactly |
| WindowState.ResetToDefaults | main/helpers/create-window.ts:51-57 | the default size, with its centre at the centre of the primary display's size |
| WindowState.ResetFitsPrimaryAtOrigin | main/helpers/create-window.ts:51-57 | for a primary display at the origin, a default size that fits gives a reset window that fits |
| WindowState.ResetIgnoresOrigin | main/helpers/create-window.ts:54-55 | for a 1920-wide display placed at x = 1920, the reset window is centred by size alone and does not land on that display |
| WindowState.EnsureVisibleIdempotent | main/helpers/create-window.ts:59-73 | the check gives back either the window itself or the reset window, and checking a result that lies on a display again changes nothing |
| WindowState.SpanningWindowIsReset | main/helpers/create-window.ts:62-66 | a window that straddles two displays is reset |
| WindowState.StartingStateVisible | main/helpers/create-window.ts:82 | with the primary display at the origin and large enough, the starting state lies within some display |
| WindowState.WindowStateKeeper.constructor | main/helpers/create-window.ts:82 | the starting state is the restored state made visible |
| WindowState.WindowStateKeeper.SaveState | main/helpers/create-window.ts:75-80 | the live bounds are taken only when neither minimized nor maximized; the state is always persisted |

## Left out

- The SFTP client, the `ping` library, `fetch`, electron-store and the IPC wiring are not modelled. Their outcomes are parameters: probe outcomes, listing and download results, connect and write success, the fetched response, and the store's contents.
- `promiseWithTimeout` and every timeout race are left out. A timeout is a failed outcome.
- Timers are left out: the five-second heartbeat interval, its restart on every change of `connected`, and its clearing. Each firing is an explicit `Tick`.
- `getFiles` calls made on mount and on reconnect are left out. After an upload, `UploadFile` records the connection `get-files` is emitted with; `get-files` itself ignores that argument and lists over the monitoring session, and the listing it then sends is not modelled as part of the upload.
- React state lag is not modelled. The heartbeat reads refs, and every handler's updates are taken as committed before the next event.
- The clock is a parameter (`now`). `get-files` stamps every screen with the same `now`.
- `disconnect-device`, `check-device`, `connect-device` (apart from its port choice), `get-user-settings`, `get-update` and `external-link` are left out. They are I/O only.
- The upload-editor geometry, the image-dimension checks, the rendering components, notifications and the splash pages are not part of this model.
- The wizard's hidden form fields are left out: developer-mode visibility and the "advanced" toggle of the older page.
- The older page's form takes no port, and 0 stands for the missing port.
- The browser window options that override the restored state (`{ ...state, ...options }`) are left out.
- `getCurrentPosition` is the `current` parameter of `SaveState`.
- WindowState.Restore: takes the default size as given numbers. An `undefined` width or height in the options, which would make the reset `NaN`, is not modelled. Coordinates are `real` rather than integer pixels, because the centring can produce a half.
- UpdateCheck.Check: a store write of `undefined` (no update available) clears `latestUpdate` in the model. The store library's own handling of `undefined` is not part of this model.
- Background.AddDeviceAppendsLast: needs a generated id not to be taken already. Two devices added in the same millisecond would collide, and the code does not guard against that.
- Background.ScreenFileNames: models `localeCompare` as code-unit order. The two agree on the six lower-case ASCII names that can reach the sort, but not on text in general.
- Strings.ParseIntRoundTrip: `ParseInt` skips only space, tab, line feed and carriage return before an optional "+" or "-" and decimal digits. `parseInt` also skips vertical tab, form feed, no-break space and the other Unicode white space, and reads hexadecimal prefixes; neither is modelled. The round trip is proved for every mathematical integer, but JavaScript numbers are doubles: `String(n)` switches to exponent form from 1e21 on, and integers above 2^53 are not all representable, so the round trip holds in the source only for |n| < 1e21 and exactly only for safe integers.
- Wizard.PortInputOfNumber: holds in the source only for the same numbers as `Strings.ParseIntRoundTrip` (|n| < 1e21, exactly for safe integers), since the port is a JavaScript number.
- Wizard.SubmittedPortIsStored: the same bound as `Wizard.PortInputOfNumber`.
- ConnectionPage.UploadReplacesRemoteFile: the payload is the base64 text of the data URL. `upload-file` then decodes it (`Buffer.from(…, 'base64')`, which skips characters outside the base64 alphabet) and writes the bytes; the decoding is not modelled.
- ConnectionPage.ListedDevicePassesGuards: requires host, username and password without "#" or "&". The device list builds the link without `encodeURIComponent`, so in the source a password such as "#pw" or "&pw" reads back as "" and fails both guards, and a "#" in the host or username drops every later parameter. `URLSearchParams` decoding ("+" as space, percent escapes) is not modelled.
- Sorting.SortBy: `Array.prototype.sort` is stable, so screens with equal dates keep their stored order; the contract states sorted and same elements only, and says nothing of the order among ties.
- Background.SettingsStore: setting values are text, integers or booleans. `update-user-setting` also accepts object values (main/background.ts:320), which are not modelled.
- The error details the main process sends on the 'log' channel (main/background.ts:264, 306, 312) are left out; only the replies that change the pages' state are modelled.

## Findings

| source | as written | input that shows it | evidently intended | confidence | as-written member | corrected member |
|---|---|---|---|---|---|---|
| main/helpers/updateCheck.ts:59-64 | when filtering leaves no release, `updateData` is `undefined`; with `RELEASE_TAG` set, `currentVersion !== latestVersion` holds and `updateData.draft` throws, so the check rejects and the cache is not stamped | pre-releases off, `RELEASE_TAG` = "v1.0.0", the response holds a single pre-release | resolve to `false` (no update) and stamp the check time | not executed | UpdateCheck.AsWrittenRejectsWhenNothingEligible | UpdateCheck.Check |
