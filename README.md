# S3 configuration front end: connection flow, toasts, persistent fields, dual-language text

This project models the logic of a small React front end for connecting to an
Amazon S3 bucket. It covers five pieces:

- **The connection flow of the configuration page** (`HomePage`), running on
  the state the top-level `App` component owns. Submitting the form turns
  loading on and clears the error message. 1400 ms later a callback decides
  one of three outcomes from the field values the submit captured:
  "All fields are required.", connected (the bucket is exactly
  `demo-s3-bucket`), or a network error. The success and error outcomes show
  a toast. Disconnecting resets the connection.
- **App's toast**: `showToast` replaces the current toast and schedules a clear
  3500 ms later. The clear sets the toast to null whatever it holds by then.
- **`useLocalStorage`**: a string cell read from `localStorage` with a
  fallback. Its setter writes memory first, then storage, and swallows a
  failing write.
- **`getDualText`**: the text for a message key in display mode `dual`
  (English / Hindi), `hi` (Hindi alone) or any other mode (English). A missing
  Hindi text falls back to English, and a missing English text falls back to
  the key itself.
- **The file uploader's state**: file selection, drag and drop, the mock
  upload, and the disconnect confirmation dialog.
- **The standalone self-dismissing `Toast`**: visible, then faded after
  3500 ms, then `onDismiss` 300 ms later. Its cleanup cancels only the fade
  timer.

Each stateful component has two parts. A pure module (`SessionSpec`,
`UploaderSpec`, `ToastSpec`) holds the state as a datatype, one function per
handler or timer callback, an event machine (`Next`, `Run`) that also encodes
which buttons are disabled or not rendered, an invariant proved to hold across
every run, and lemmas for each property. A class (`Session.App`,
`Uploader.FileUploader`, `Toast.SelfDismissingToast`) has the component's
fields, and each of its methods is proved to move the object exactly as the
matching function moves the value. `LocalStorage` uses classes for
`window.localStorage` and for one hook cell, and pure functions for the
read-with-fallback and the write.

`setTimeout` is modelled by `Timers`. It keeps an explicit clock `now` in
milliseconds and a queue of pending callbacks. The queue is ordered the way the
browser runs them: by due time, and among callbacks due at the same instant, in
the order they were scheduled. The queue's head is the next callback to run.
`clearTimeout` removes pending callbacks. Time passes through `Wait`/`Elapse`
events. Such an event only advances the clock, never past the next pending
callback. A `TimerFires` event runs the head callback at its due time.

Inputs the model takes from outside:

- The i18next `t` lookup is a map from (key, language) to text. An absent
  entry stands for any falsy result of `t`.
- `localStorage` is a map plus a flag. When the flag is set, storage is
  unavailable and every `getItem`/`setItem` throws.
- `alert` is recorded as a list of texts, and the `onDisconnect` prop as a
  count of its calls.
- The display mode and the translations are passed as parameters.
- The four form fields are the values of their `useLocalStorage` cells. They
  are passed to `Submit`, which models the closure capturing them at submit
  time.

What the code does not do: it checks no field's format, so any non-empty
bucket, region and keys pass; it writes the credentials to storage on every
keystroke, not only after a successful connect; disconnecting leaves storage
alone; and the clear that `showToast` schedules does not check which
notification it belongs to. `SessionSpec.StaleClearHidesNewerToast` proves
that this unconditional clear removes a newer toast early.

## Model

| member | source | states |
|---|---|---|
| `Timers.ScheduleAdds` | src/App.jsx:17 | a `setTimeout` adds exactly one pending callback and removes none |
| `Timers.ScheduleSorted` | src/pages/HomePage.jsx:33-51 | scheduling keeps the pending callbacks in the order the browser runs them |
| `Timers.SchedulePlaces` | src/App.jsx:17 | a new callback runs after every callback due no later and before every callback due later |
| `Timers.Schedule` | src/App.jsx:17 | `setTimeout` adds exactly one pending callback |
| `Timers.Cancel` | src/components/UI/Toast.jsx:12 | `clearTimeout` leaves no callback with the cancelled action, keeps every other pending one, and keeps a sorted queue sorted |
| `Timers.CancelCounts` | src/components/UI/Toast.jsx:12 | `clearTimeout` keeps each other callback exactly as many times as it was pending, and none of the cancelled one |
| `Timers.CancelKeepsOrder` | src/components/UI/Toast.jsx:12 | the callbacks `clearTimeout` keeps stay in the order they were pending, callbacks due at the same instant included |
| `SessionSpec.ShowToast` | src/App.jsx:15-18 | the toast becomes exactly `{type, message}`, replacing any previous one; only the toast and the pending timers change |
| `SessionSpec.ShowToastSchedulesOneClear` | src/App.jsx:17 | each `showToast` schedules exactly one clear, 3500 ms after the call |
| `SessionSpec.ClearToastNow` | src/App.jsx:17 | the clear sets the toast to null whatever toast is current |
| `SessionSpec.HandleConnect` | src/pages/HomePage.jsx:27-31 | submitting turns loading on and clears the error message; nothing else is decided yet |
| `SessionSpec.HandleConnectSchedulesOneCheck` | src/pages/HomePage.jsx:33-51 | submitting schedules exactly one check, 1400 ms later, carrying the captured field values |
| `SessionSpec.ConnectOutcome` | src/pages/HomePage.jsx:33-50 | every path of the delayed check ends with loading off and leaves the page and the clock alone |
| `SessionSpec.HandleDisconnect` | src/pages/HomePage.jsx:54-58 | disconnect clears the connection and the shown bucket, shows the "Disconnected" error toast and schedules its clear 3500 ms later; the error message, loading flag, page and clock stay |
| `SessionSpec.Elapse` | src/App.jsx:17 | time advances by exactly `dt` iff no pending callback falls due before then; otherwise nothing changes |
| `SessionSpec.Next` | src/pages/HomePage.jsx:75-132 | the sidebar sets the page; a submit does nothing while on "docs" (HomePage not mounted, src/App.jsx:25), connected or loading, and otherwise starts loading; Disconnect does nothing unless on the page and connected, and otherwise disconnects |
| `SessionSpec.FireNext` | src/pages/HomePage.jsx:33-51 | the next pending callback runs at its due time: a clear empties the toast, a check decides the outcome |
| `SessionSpec.Render` | src/App.jsx:24-39 | a toast is rendered iff the toast state is non-null; page "docs" selects Documentation, any other page HomePage |
| `SessionSpec.InitialConsistent` | src/App.jsx:8-13 | the initial state is page "docs", not connected, not loading, no error, empty bucket, no toast, and satisfies the invariant |
| `SessionSpec.NextConsistent` | src/pages/HomePage.jsx:40-58 | every event keeps the invariant: connected implies the demo bucket, no error and not loading; exactly one check is pending while loading |
| `SessionSpec.RunConsistent` | src/pages/HomePage.jsx:27-58 | any sequence of events keeps the invariant |
| `SessionSpec.ReachableConnected` | src/pages/HomePage.jsx:41-42 | in every reachable state, being connected implies that the shown bucket is `demo-s3-bucket`, no connect is in progress and no error is shown |
| `SessionSpec.SubmitDisabled` | src/pages/HomePage.jsx:127 | while connected or loading, a submit changes nothing |
| `SessionSpec.SubmitThenCheck` | src/pages/HomePage.jsx:29-33 | an enabled submit sets loading and clears the error before any outcome, leaves the connection and toast alone, and leaves exactly one check pending |
| `SessionSpec.MissingFieldOutcome` | src/pages/HomePage.jsx:34-38 | an empty field yields "All fields are required." with loading off; connection, bucket, toast and timers unchanged |
| `SessionSpec.SuccessOutcome` | src/pages/HomePage.jsx:40-44 | all fields set and bucket `demo-s3-bucket`: connected, bucket shown, loading off, one "success" toast and its one clear |
| `SessionSpec.NetworkErrorOutcome` | src/pages/HomePage.jsx:45-49 | all fields set and any other bucket: not connected, loading off, the network-error message, one "error" toast, bucket untouched |
| `SessionSpec.DisconnectIdempotent` | src/pages/HomePage.jsx:54-58 | disconnect leaves the error message and loading flag alone, shows one error toast, and a second disconnect gives the same connection state |
| `SessionSpec.ConnectScenario` | src/pages/HomePage.jsx:27-51 | from the initial state: open the page, submit the demo bucket, wait 1400 ms, and the check connects with the success toast and one clear pending |
| `SessionSpec.StaleClearHidesNewerToast` | src/App.jsx:15-18 | a toast shown d ms after an earlier one is cleared by the earlier one's timer, after 3500 - d ms, while its own clear is still pending |
| `Session.App.constructor` | src/App.jsx:8-13 | the component starts in the initial state |
| `Session.App.Navigate` | src/App.jsx:22 | `setPage` changes only the page |
| `Session.App.ShowToast` | src/App.jsx:15-18 | follows `SessionSpec.ShowToast` |
| `Session.App.ClearToast` | src/App.jsx:17 | follows `SessionSpec.ClearToastNow` |
| `Session.App.Submit` | src/pages/HomePage.jsx:27-31 | runs `handleConnect` exactly when the button is enabled and the page is mounted, and keeps the invariant |
| `Session.App.CompleteConnect` | src/pages/HomePage.jsx:33-50 | the delayed callback, through the setters, step by step; follows `SessionSpec.ConnectOutcome` and ends with loading off |
| `Session.App.Disconnect` | src/pages/HomePage.jsx:54-58 | runs `handleDisconnect` exactly when the button is rendered, and keeps the invariant |
| `Session.App.Elapse` | src/App.jsx:17 | follows `SessionSpec.Elapse` through `Next`, and keeps the invariant |
| `Session.App.FireNextTimer` | src/App.jsx:17 | runs the next pending callback and keeps the invariant |
| `LocalStorage.ReadItem` | src/hooks/useLocalStorage.jsx:5 | `getItem` throws iff storage is unavailable, and otherwise returns the entry, or null when there is none |
| `LocalStorage.WriteItem` | src/hooks/useLocalStorage.jsx:14 | `setItem` stores the entry, or leaves storage unchanged when it throws; other keys are untouched |
| `LocalStorage.InitialValue` | src/hooks/useLocalStorage.jsx:3-9 | the stored string when present and non-empty, otherwise the fallback; the fallback also when reading throws |
| `LocalStorage.WriteThenRead` | src/hooks/useLocalStorage.jsx:5-14 | after a successful write of a non-empty value, a fresh cell for the key reads that value |
| `LocalStorage.EmptyReadsAsFallback` | src/hooks/useLocalStorage.jsx:5 | a stored empty string reads back as the fallback |
| `LocalStorage.WriteLeavesOtherKeys` | src/hooks/useLocalStorage.jsx:14 | a write under one key leaves what every other key reads |
| `LocalStorage.Storage.GetItem` | src/hooks/useLocalStorage.jsx:5 | reads storage without changing it, as `ReadItem` says |
| `LocalStorage.Storage.SetItem` | src/hooks/useLocalStorage.jsx:14 | reports a throw exactly when storage is unavailable and updates storage as `WriteItem` says |
| `LocalStorage.StoredString.constructor` | src/hooks/useLocalStorage.jsx:3-9 | the cell starts with `InitialValue`, and no error escapes |
| `LocalStorage.StoredString.Set` | src/hooks/useLocalStorage.jsx:11-18 | the memory value is the new value whether or not the write threw; nothing is raised; storage changes as `WriteItem` says |
| `DualText.EnText` | src/components/S3/S3FileUploader.jsx:21 | the English text, or the key when it is missing or empty |
| `DualText.GetDualText` | src/components/S3/S3FileUploader.jsx:20-30 | "dual" with a Hindi text gives English + " / " + Hindi; "hi" with a Hindi text gives Hindi; otherwise English |
| `DualText.ResolvesToShownLanguages` | src/components/S3/S3FileUploader.jsx:24-29 | the result is the texts of the languages the mode shows, joined by " / " |
| `DualText.EnglishLeads` | src/components/S3/S3FileUploader.jsx:24-29 | unless Hindi mode has a Hindi text, the English text (or the key) starts the result |
| `DualText.NeverBlank` | src/components/S3/S3FileUploader.jsx:21-29 | a non-empty key never resolves to an empty text |
| `DualText.UntranslatedShowsKey` | src/components/S3/S3FileUploader.jsx:21-29 | without translations, every mode shows the key |
| `DualText.InitialModeIsDual` | src/context/DisplayModeContext.jsx:6 | in the initial mode, a key with a Hindi text shows both languages |
| `UploaderSpec.FileChange` | src/components/S3/S3FileUploader.jsx:33-38 | a selection replaces the files only when it is non-empty; nothing else changes |
| `UploaderSpec.Drag` | src/components/S3/S3FileUploader.jsx:41-50 | dragenter and dragover set dragging, dragleave clears it; nothing else changes |
| `UploaderSpec.Drop` | src/components/S3/S3FileUploader.jsx:53-61 | a drop always clears dragging and replaces the files only when non-empty |
| `UploaderSpec.ClearFiles` | src/components/S3/S3FileUploader.jsx:176 | the Clear button empties the files |
| `UploaderSpec.StartUpload` | src/components/S3/S3FileUploader.jsx:64-67 | no files: nothing changes; otherwise uploading starts and one upload is suspended |
| `UploaderSpec.SettleUpload` | src/components/S3/S3FileUploader.jsx:69-88 | uploading is off on every path; success empties the files and alerts the success text; failure keeps the files and alerts the error text and message |
| `UploaderSpec.DisconnectClick` | src/components/S3/S3FileUploader.jsx:92-94 | the dialog opens |
| `UploaderSpec.DisconnectConfirm` | src/components/S3/S3FileUploader.jsx:96-102 | the dialog closes; false changes nothing else; true calls `onDisconnect` exactly once and alerts the disconnect text, and changes nothing else |
| `UploaderSpec.Next` | src/components/S3/S3FileUploader.jsx:154-228 | Clear does nothing without files and otherwise empties them; Upload does nothing without files or while uploading and otherwise suspends one upload; an upload settles only while one is suspended; the dialog answers only while it is open, and then closes it and disconnects once on yes |
| `UploaderSpec.RunConsistent` | src/components/S3/S3FileUploader.jsx:185 | every sequence of events keeps exactly one upload suspended while uploading is on, none otherwise |
| `UploaderSpec.OneUploadInFlight` | src/components/S3/S3FileUploader.jsx:184-185 | from the first render, at most one upload is ever in flight |
| `UploaderSpec.EmptyUploadIsNoOp` | src/components/S3/S3FileUploader.jsx:65 | uploading with no files changes nothing, the uploading flag included |
| `UploaderSpec.UploadRoundTrip` | src/components/S3/S3FileUploader.jsx:64-88 | click then success: no files, not uploading, nothing suspended, one success alert |
| `UploaderSpec.ConfirmDialog` | src/components/S3/S3FileUploader.jsx:236-253 | Cancel and No only close the dialog; Yes closes it and disconnects once |
| `Uploader.FileUploader.constructor` | src/components/S3/S3FileUploader.jsx:13-16 | the initial state: no files, not dragging, not uploading, no dialog |
| `Uploader.FileUploader.HandleFileChange` | src/components/S3/S3FileUploader.jsx:33-38 | follows `UploaderSpec.FileChange` |
| `Uploader.FileUploader.HandleDragEvent` | src/components/S3/S3FileUploader.jsx:41-50 | follows `UploaderSpec.Drag` |
| `Uploader.FileUploader.HandleDrop` | src/components/S3/S3FileUploader.jsx:53-61 | follows `UploaderSpec.Drop` |
| `Uploader.FileUploader.ClearFiles` | src/components/S3/S3FileUploader.jsx:176 | follows `UploaderSpec.ClearFiles` |
| `Uploader.FileUploader.UploadFiles` | src/components/S3/S3FileUploader.jsx:64-67 | follows `UploaderSpec.StartUpload` |
| `Uploader.FileUploader.FinishUpload` | src/components/S3/S3FileUploader.jsx:69-88 | follows `UploaderSpec.SettleUpload` |
| `Uploader.FileUploader.HandleDisconnectClick` | src/components/S3/S3FileUploader.jsx:92-94 | follows `UploaderSpec.DisconnectClick` |
| `Uploader.FileUploader.HandleDisconnectConfirm` | src/components/S3/S3FileUploader.jsx:96-102 | follows `UploaderSpec.DisconnectConfirm` |
| `ToastSpec.Mount` | src/components/UI/Toast.jsx:4-10 | a toast starts visible, with one fade pending 3500 ms later |
| `ToastSpec.Unmount` | src/components/UI/Toast.jsx:12 | cleanup leaves no fade pending and keeps a pending dismissal; visibility, clock and dismissals stay |
| `ToastSpec.Elapse` | src/components/UI/Toast.jsx:7-10 | time advances by `dt`, or nothing changes |
| `ToastSpec.Next` | src/components/UI/Toast.jsx:6-13 | the cleanup runs once: unmounting a mounted toast is `Unmount`, unmounting again changes nothing, and no other event mounts or unmounts |
| `ToastSpec.FireNext` | src/components/UI/Toast.jsx:7-10 | the fade hides the toast and schedules `onDismiss` 300 ms later; a dismissal calls `onDismiss` |
| `ToastSpec.BgColor` | src/components/UI/Toast.jsx:15 | green iff the type is "success", red otherwise |
| `ToastSpec.Icon` | src/components/UI/Toast.jsx:16 | ✅ iff the type is "success", ❗ otherwise |
| `ToastSpec.Opacity` | src/components/UI/Toast.jsx:19-20 | `opacity-100` iff visible, `opacity-0` otherwise |
| `ToastSpec.RunConsistent` | src/components/UI/Toast.jsx:6-13 | every sequence of events keeps at most one callback pending: the fade while visible, the dismissal once faded |
| `ToastSpec.DismissedAtMostOnce` | src/components/UI/Toast.jsx:6-13 | after mounting, whatever happens, `onDismiss` runs at most once and only after the fade |
| `ToastSpec.FadeThenDismiss` | src/components/UI/Toast.jsx:7-10 | visible for 3500 ms, faded at 3500 ms, `onDismiss` called at 3800 ms |
| `ToastSpec.UnmountBeforeFade` | src/components/UI/Toast.jsx:12 | once unmounted with nothing pending, no later event fades or dismisses |
| `ToastSpec.UnmountBeforeFadeNeverDismisses` | src/components/UI/Toast.jsx:9-12 | unmounting before 3500 ms means no fade and no `onDismiss`, ever |
| `ToastSpec.UnmountAfterFadeStillDismisses` | src/components/UI/Toast.jsx:9-12 | unmounting after the fade does not cancel the 300 ms timer: `onDismiss` still runs |
| `Toast.SelfDismissingToast.constructor` | src/components/UI/Toast.jsx:3-10 | follows `ToastSpec.Mount` |
| `Toast.SelfDismissingToast.Unmount` | src/components/UI/Toast.jsx:12 | follows `ToastSpec.Unmount` |
| `Toast.SelfDismissingToast.Elapse` | src/components/UI/Toast.jsx:7-10 | follows `ToastSpec.Elapse` |
| `Toast.SelfDismissingToast.FireNextTimer` | src/components/UI/Toast.jsx:7-10 | follows `ToastSpec.FireNext` |

## Left out

- Rendering is not modelled: JSX, CSS classes and SVG markup, the Documentation page, both drop-area sections under components, both sidebars, the loader, file item, tooltip, and the second toast component (src/components/Toast.jsx). The only parts modelled are the view facts App decides (which page, whether a toast is shown) and the style choices of the self-dismissing toast.
- The display mode provider is not modelled beyond its initial value `"dual"`. It is a thin wrapper over React context.
- i18next, `window.localStorage`, `setTimeout`, `alert` and `console.log` are library or browser code. Each is replaced by the abstraction described above. What i18next itself returns for a missing key is part of the uninterpreted lookup map.
- No real S3 access, upload or network is modelled. The 2000 ms mock upload is an `UploadSettles` event, whose outcome (`Uploaded` or `Failed`) is an input.
- Resetting the file input's DOM value after an upload is not modelled, because it is DOM state.
- The effect that alerts when `isConnected` becomes true (src/components/S3/S3FileUploader.jsx:105-109) is not modelled. It reacts to a prop and only shows an alert.
- The hover tooltip state `showTip` (src/pages/HomePage.jsx:25) is presentation only.
- Typing into the form uses `LocalStorage.StoredString.Set`, one cell per field. The connection model takes the four values at submit time and does not hold the cells.
- React's batching of state updates is not modelled. Setters take effect at once and in program order, which gives the same final state for these handlers.
- The toast effect's dependency on the `onDismiss` identity is not modelled. The callback is treated as stable, so the effect runs once per mount.
- `SessionSpec.Elapse`: time passes only up to the next pending callback. An event that would skip past a callback is ignored, and `TimerFires` runs the callbacks one at a time.
- The missing `useDisplayMode` import in the uploader and the props-less Documentation render are wiring slips. They do not affect the logic: the display mode and the props are inputs here.
- `SessionSpec.Next` accepts `Navigate` to any page. The sidebar App imports (src/components/Sidebar.jsx:14) only ever navigates to "docs"; "home" comes only from the other sidebar (src/components/Layout/Sidebar.jsx:25), which App does not render. The sidebar is treated as an input, so `SessionSpec.ConnectScenario`'s `Navigate("home")` cannot happen in the app as wired.
