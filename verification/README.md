# PHEdit in Dafny

PHEdit is a desktop video editor. A React renderer lets the user load a
video, mark an in point and an out point on a timeline, set video and audio
fades, a lead-in of silence and of black screen, and a quality, size and
export type. The Electron main process turns the export request into an
ffmpeg command and runs it. A settings panel manages the ffmpeg/ffprobe
paths in a persistent store, the last editing session is saved and offered
for restore on start-up, and a Tasks screen runs fixed three-step wizards
(Quick Fade, Audio Rip).

This project models that core as pure Dafny functions over immutable
records, one module per component:

| module | file | models |
|---|---|---|
| `Wrappers` | wrappers.dfy | `Option` and `Result` |
| `Js` | js.dfy | JavaScript numbers (finite, ±Infinity, NaN), `Math.floor`, `Math.round`, `Math.max`, `Math.min` |
| `Text` | text.dfy | `String.prototype.includes`, `Number.prototype.toString` on naturals, `padStart(2, '0')` |
| `MediaUrl` | media_url.dfy | `encodeURIComponent`/`decodeURIComponent` (UTF-8), `get-video-url` and the `phedit-file://` protocol handler |
| `Session` | session.dfy | the persisted session snapshot |
| `Config` | config.dfy | `ConfigManager`: path validation, auto-detection, settings writes, session clearing, effective engine paths |
| `FilterGraph` | filter_graph.dfy | `process-video` up to running the command: seek, duration, codecs, ordered video and audio filter chains |
| `ExportJob` | export_job.dfy | the main process's job slot: `cancel-export`, the engine's `start`/`progress`/`end`/`error` events, error classification |
| `Timeline` | timeline.dfy | the timeline component: position/time mapping, drags, double-click |
| `Editor` | editor.dfy | `App`: keyboard shortcuts, processing events, loading, session save and restore, export and cancel |
| `Controls` | controls.dfy | the controls panel: numeric inputs, export button, what it passes to the timeline |
| `SessionRestoreModal` | session_restore.dfy | the restore dialog: check boxes and the data it hands to the editor |
| `ExportOverlay` | export_overlay.dfy | the export progress overlay: remaining-time estimate, clock and percentage labels, detail rows |
| `SettingsPanel` | settings_panel.dfy | the settings panel: load, validation indicators, save, reset, auto-detect |
| `Tasks` | tasks.dfy | the Tasks screen: wizard steps, step clicks, processing events |

Asynchronous calls into the main process (dialogs, ffprobe, path checks)
become parameters holding what the call answered (`Result` for calls that
may throw). The file system is a map from path to entry kind. A React
state update is modelled as the record the next render sees.

## Model

| member | source | states |
|---|---|---|
| Js.Floor | src/components/ExportProgressOverlay.js:36-37 | the result is the greatest integer not above the argument |
| Js.Round | src/components/ExportProgressOverlay.js:66 | the result lies within half a unit of the argument, ties going up |
| Js.RoundNumber | src/components/ExportProgressOverlay.js:66 | a finite number rounds to a finite one; infinities and NaN pass through unchanged |
| Text.Includes | src/App.js:584 | the scan answers true exactly when the substring occurs at some index |
| Text.Decimal | src/components/ExportProgressOverlay.js:40 | the numeral is non-empty, all digits, with no leading zero |
| Text.ParseDecimalOfDecimal | src/components/ExportProgressOverlay.js:40 | reading the numeral of n back gives n |
| Text.PadStart2 | src/components/ExportProgressOverlay.js:40 | two or more characters are kept; a shorter string is left-padded with '0' to two |
| Text.PaddedDecimalValue | src/components/ExportProgressOverlay.js:40 | a padded numeral has at least two digits and still denotes the same number |
| MediaUrl.EncodeUriComponent | public/electron.js:129 | the encoding is never shorter than its input |
| MediaUrl.EncodedIsUrlSafe | public/electron.js:129 | every character of the encoding is unreserved, '%' or a hexadecimal digit |
| MediaUrl.VideoUrl | public/electron.js:128-130 | the URL starts with the `phedit-file://` scheme and the rest is URL-safe |
| MediaUrl.DecodeEncode | public/electron.js:56 | decoding inverts encoding on every string, astral characters included |
| MediaUrl.ProtocolPathOfVideoUrl | public/electron.js:54-57 | the protocol handler maps the URL `get-video-url` hands out back to the original path |
| Config.ValidateFFmpegPath | public/config.js:58-66 | valid exactly for a non-empty path naming an existing regular file |
| Config.FirstValid | public/config.js:112-129 | the first candidate that validates, or empty exactly when none does |
| Config.FirstValidUnique | public/config.js:112-129 | two first-valid candidates of the same list are the same path, so the scan's result is fixed by the list and the file system |
| Config.AutoDetect | public/config.js:69-130 | each detected path is the first valid candidate of its platform list; empty iff none validates; unknown platforms detect nothing |
| Config.EffectivePaths | public/config.js:209-224 | a configured path always wins, else the detected one, else the bare command; the result is never empty |
| Config.EffectivePathsIgnoreFlag | public/config.js:212-217 | the `autoDetectPaths` flag never changes the effective paths |
| Config.SetSettings | public/config.js:46-50 | every key present in the patch is written and every absent key keeps its stored value |
| Config.SetSettingsIdempotent | public/config.js:46-50 | writing the same patch twice stores the same as writing it once |
| Config.ClearSessionState | public/config.js:193-206 | the snapshot is reset (no file, clip 0–0, fades and silence 0, no black screen, quality or size, video export) and nothing else in the store changes |
| FilterGraph.Millis | public/electron.js:285 | the delay in ms is within half a unit of seconds × 1000 |
| FilterGraph.BitrateKbps | public/electron.js:259-268 | low is 800, medium 2000, anything else 4000 |
| FilterGraph.Compile | public/electron.js:207-357 | missing input or output path fails with its message; otherwise the command seeks iff the start time is positive and limits the duration iff the duration is positive |
| FilterGraph.CodecSelection | public/electron.js:257-298 | a video export uses libx264 at the quality's bitrate; an audio export drops video and writes PCM16 |
| FilterGraph.VideoChainOrder | public/electron.js:301-332 | the black pad is first iff black screen is positive and appears nowhere else; scaling is last iff size is not 100 and appears nowhere else; between them at most one fade-in and one fade-out, the fade-in first |
| FilterGraph.VideoFadeOrder | public/electron.js:303-323 | any two fades of the video chain are a fade-in followed by a fade-out, so neither direction occurs twice |
| FilterGraph.VideoFadeTiming | public/electron.js:303-323 | a fade-in exists iff its length is positive, starts where the content starts and lasts the fade-in length; a fade-out exists iff positive, lasts the fade-out length and ends where the content ends, or has no start without a duration |
| FilterGraph.AudioChainShape | public/electron.js:274-298 | silence delay first, fade-in at the end of the silence, fade-out ending at the duration, each fade lasting its configured length, a fade-in before a fade-out, and the black-screen delay only last and only for video |
| FilterGraph.AudioFadeOrder | public/electron.js:286-293 | any two fades of the audio chain are a fade-in followed by a fade-out, so neither direction occurs twice |
| FilterGraph.AudioChainDelays | public/electron.js:335-352 | the only delays are the silence delay first and, for video with a black tail, a delay last |
| FilterGraph.AudioChainFades | public/electron.js:286-293 | a fade-in exactly when one is asked for, starting at the end of the silence and lasting the audio fade-in length; a fade-out exactly when asked for, lasting the audio fade-out length and ending at the duration when it is known |
| FilterGraph.AudioOnlyDropsBlackDelay | public/electron.js:335-357 | the audio-only chain is the video export's chain without the trailing black-screen delay |
| FilterGraph.NoFadeOutWithoutFadeOut | public/electron.js:292-322 | zero or absent fade-outs produce no fade-out filter in either chain |
| ExportJob.Cancel | public/electron.js:138-156 | a held job is killed, the slot emptied and one cancellation notice sent; an empty slot answers "No active export process to cancel" and sends nothing |
| ExportJob.CancelOnce | public/electron.js:140-151 | a second cancel finds nothing to kill and sends nothing |
| ExportJob.ClassifyError | public/electron.js:376-386 | the rejection reads as cancelled by user iff the engine message mentions SIGTERM or cancelled; otherwise it is the failure prefix plus the message |
| ExportJob.Apply | public/electron.js:361-387 | launch fills the slot; start and progress are forwarded to the renderer and leave the slot alone; end and error empty it and settle the promise; a cancel request acts as `cancel-export` |
| ExportJob.StartNoticePerStart | public/electron.js:363-366 | over any sequence of events, the renderer gets exactly one `processing-started` per engine start |
| ExportJob.CancelNoticesBounded | public/electron.js:138-156 | over any sequence of events, cancellation notices never outnumber launches (plus one for an already occupied slot) |
| ExportJob.NoCancelNoticeWithoutLaunch | public/electron.js:140-151 | starting empty with no launch, no cancellation notice is ever sent |
| Timeline.Clamp01 | src/components/Timeline.js:18 | the result lies in [0, 1] and equals the argument when it already does |
| Timeline.TimeFromPosition | src/components/Timeline.js:13-20 | 0 without a track or duration; otherwise the clamped pointer fraction of the duration, inside [0, duration] |
| Timeline.PositionFromTime | src/components/Timeline.js:22-25 | 0 for a zero duration; otherwise the percentage p with p × duration = time × 100 |
| Timeline.PositionOfPointer | src/components/Timeline.js:13-25 | time of a pointer mapped back to a percentage is the clamped pointer fraction × 100 |
| Timeline.PositionMonotone | src/components/Timeline.js:22-25 | for a positive duration the percentage orders times exactly as the times are ordered |
| Timeline.MouseDown | src/components/Timeline.js:33-56 | ignored without a video; otherwise records the drag, its start value per handle, and seeks only for the playhead |
| Timeline.ClampPlayhead | src/components/Timeline.js:85 | the playhead stays in [0, duration] and an in-range value is kept |
| Timeline.ClampIn | src/components/Timeline.js:89 | the in point is non-negative, at least 0.1 before the out point when there is room, and an in-range value is kept |
| Timeline.ClampOut | src/components/Timeline.js:93 | the out point is at least 0.1 after the in point, within the duration when there is room, and an in-range value is kept |
| Timeline.MouseMove | src/components/Timeline.js:77-96 | without a drag nothing is committed; otherwise the clamped target of the dragged handle |
| Timeline.DragCommitsInBounds | src/components/Timeline.js:77-96 | every committed value respects the bounds the handle promises |
| Timeline.StillDragCommitsStart | src/components/Timeline.js:77-96 | a drag that has not moved commits its start value when that is in bounds |
| Timeline.MouseUp | src/components/Timeline.js:112-118 | the drag ends with its start values zeroed |
| Timeline.UnwiredTimelineIsInert | src/components/Timeline.js:34 | without `hasVideo` a press starts no drag and a later move commits nothing |
| Timeline.DoubleClick | src/components/Timeline.js:124-135 | commits the pointer's time, as an in or an out point |
| Timeline.DoubleClickSide | src/components/Timeline.js:126-134 | for a positive duration it sets the in point exactly when the click lands before the playhead |
| Editor.NudgeStep | src/App.js:204-264 | Shift nudges move by 1 s with Ctrl, otherwise 0.1 s |
| Editor.KeyDown | src/App.js:195-270 | without a video nothing changes; a key only touches the in point, out point, playhead and play state |
| Editor.KeyEffects | src/App.js:198-269 | for a listener that reads the live state, each shortcut's effect: Space toggles play, arrows skip 10 s clamped, Shift arrows nudge with the 0.1 s gap, I/O mark the hover time or the playhead |
| Editor.NudgesKeepClipValid | src/App.js:203-266 | when the listener reads the live state, every shortcut other than I and O keeps a valid clip valid |
| Editor.PressesKeepClipValid | src/App.js:203-266 | with every press reading the live state, any sequence of shortcuts other than I and O keeps a valid clip valid |
| Editor.MarkKeysCanInvertClip | src/App.js:233-244 | I and O are not clamped, so they can put the out point before the in point |
| Editor.PressAsWritten | src/App.js:194-276 | the listener reads the values of the last render whose dependencies changed |
| Editor.Press | src/App.js:194-276 | the corrected listener always reads the live state |
| Editor.StaleNudgesCollapse | src/App.js:208-211 | as written, any number of Shift+Left presses moves the in point one step only |
| Editor.StaleNudgesBreakClip | src/App.js:224-276 | as written, Shift+Right then Shift+Down on a 5.0–5.2 clip leave in and out both at 5.1, so the clip is no longer valid |
| Editor.NudgesAccumulate | src/App.js:208-211 | with the live state, n presses move the in point n steps, stopping at 0 |
| Editor.OnProgress | src/App.js:98-106 | a numeric, non-NaN percent replaces the shown progress; anything else keeps it |
| Editor.ProgressNotClamped | src/App.js:101-102 | out-of-range and infinite percentages are shown as they arrive |
| Editor.OnStarted | src/App.js:92-96 | preparing ends, processing starts at 0 %, nothing else changes |
| Editor.OnCancelled | src/App.js:108-113 | processing and preparing stop, progress returns to 0, the user is told |
| Editor.LoadVideo | src/App.js:278-312 | a cancelled dialog changes nothing; a failed probe shows the error; a load installs the file, its URL, the duration as out point, and zeroes the playhead, in point and effects |
| Editor.LoadedUrlNamesFile | src/App.js:282-291 | the URL a load installs resolves, through the media protocol, to the chosen file |
| Editor.LoadedClipValid | src/App.js:294-300 | a freshly loaded clip is valid exactly when the video is at least 0.1 s long |
| Editor.LoadedMetadata | src/App.js:685-691 | the duration follows the element; the out point follows it unless a restore is under way |
| Editor.ClearClipPoints | src/App.js:395-405 | the clip becomes the whole video and nothing else changes |
| Editor.ClearClipPointsIdempotent | src/App.js:395-405 | clearing twice equals clearing once; the result is valid iff the video is at least 0.1 s long |
| Editor.RestoreEffects | src/App.js:442-450 | each key present in the data replaces its field; an absent key keeps the current value; nothing else changes |
| Editor.RestoreClip | src/App.js:411-439 | with a file: path and name, then on a failed probe a warning and nothing more, else URL, duration, playhead 0 and the clip with defaults; without one only the present clip points |
| Editor.SessionRestore | src/App.js:407-460 | the restore flag is raised; a failed probe skips the effect settings, otherwise they follow the file and clip |
| Editor.RestoreSettled | src/App.js:456-458 | the timer clears the restore flag and nothing else |
| Editor.RestoreNothing | src/App.js:407-450 | restoring an empty record changes only the restore flag |
| Editor.SaveSession | src/App.js:463-487 | a snapshot is saved exactly when a file path is set, and carries that path |
| Editor.SaveRestoreRoundTrip | src/App.js:407-487 | restoring a saved snapshot with the same duration gives back the file, clip, effects and export settings |
| Editor.BeginExport | src/App.js:494-555 | no video or an empty clip is refused with its modal; a cancelled dialog does nothing; a request is sent exactly when allowed and a path chosen, carrying the editor's values and entering the preparing state |
| Editor.OptionsAsWritten | public/electron.js:208 | the main process reads no start time and no duration from the renderer's request |
| Editor.Options | src/App.js:541-555 | the intended mapping: the clip starts at the in point and lasts until the out point |
| Editor.AsWrittenExportIgnoresClip | public/electron.js:208 | as written, the command is never trimmed and a video fade-out has no start |
| Editor.ExportTrimsToClip | public/electron.js:248-254 | with the intended mapping the command seeks to the in point, lasts the clip, and the fade-out ends with the clip |
| Editor.FinishExport | src/App.js:557-592 | a settled export clears both flags and the output path; success reports success; a rejection reads as cancelled exactly when its message contains "cancelled by user", and otherwise shows "Failed to export: " followed by the message as Electron wraps it |
| Editor.RemotePrefixOccurrence | src/App.js:584-588 | the "Error invoking remote method 'process-video': Error: " wrapping neither adds nor hides "cancelled by user" |
| Editor.CancelledByUserOccurs | public/electron.js:382 | the main process's cancellation message contains "cancelled by user" |
| Editor.FailureMessageOccurrence | public/electron.js:384 | a failure message contains "cancelled by user" only if the engine's message contains "cancelled" |
| Editor.EngineErrorReport | src/App.js:584-588 | an engine error is shown as a cancellation exactly when it mentions SIGTERM or cancelled |
| Editor.CancelExport | src/App.js:595-614 | while only preparing, reset locally and leave the job alone; otherwise cancel the job, and report "No active export process to cancel" when there was none |
| Editor.CancelHidesOverlay | src/App.js:595-614 | cancelling a preparation or a held job hides the overlay |
| Controls.FadeMax | src/components/Controls.js:40-44 | each fade's advertised maximum is half the clip |
| Controls.FadesWithinMaxFitClip | src/components/Controls.js:40-44 | fades within their maximum fit in the clip together |
| Controls.Coerce | src/components/Controls.js:122 | an unparsable input becomes 0, a parsed one is kept |
| Controls.OnNumericChange | src/components/Controls.js:117-218 | the edited field gets the coerced value and every other field is unchanged |
| Controls.BoundsNotEnforced | src/components/Controls.js:119-218 | values beyond the advertised min and max are stored as typed |
| Controls.ExportButtonMatchesHandler | src/components/Controls.js:306-307 | an enabled button leads to a request once a path is chosen; a disabled, idle button is one the handler would refuse |
| Controls.Render | src/components/Controls.js:231-316 | quality pane iff video export, cancel button iff busy, inputs enabled iff a video is loaded, the export label, the fade maximum |
| Controls.TimelineProps | src/components/Controls.js:50-59 | the timeline gets the playhead, duration and clip but never `hasVideo` |
| Controls.MountedTimelineNeverDrags | src/components/Controls.js:50-59 | as mounted, the timeline never starts a drag |
| Controls.MarkKeysUsePlayhead | src/App.js:233-244 | with no hover position ever reported, I and O mark the playhead |
| SessionRestoreModal.Toggle | src/components/SessionRestoreModal.js:14-19 | the named box flips and no other changes |
| SessionRestoreModal.SelectionExtensional | src/components/SessionRestoreModal.js:4-10 | a selection is determined by its five boxes |
| SessionRestoreModal.ToggleTwice | src/components/SessionRestoreModal.js:14-19 | toggling twice restores the selection |
| SessionRestoreModal.RestoreData | src/components/SessionRestoreModal.js:21-47 | each checked group is copied, an unchecked one left out, the file only when it has a path; black screen, quality and size never |
| SessionRestoreModal.OpenOnStartup | src/App.js:116-127 | the dialog shows exactly for a stored snapshot with a file path, all boxes checked |
| SessionRestoreModal.Close | src/App.js:76-79 | the dialog hides and keeps its selection |
| SessionRestoreModal.Restore | src/components/SessionRestoreModal.js:21-51 | a shown dialog hands over the selected data once and closes; a hidden one does nothing |
| SessionRestoreModal.Skip | src/components/SessionRestoreModal.js:53-55 | closes without restoring |
| SessionRestoreModal.FullRestoreRoundTrip | src/components/SessionRestoreModal.js:21-51 | with every box checked, the clip, fades, silence and type come back, while black screen, quality and size keep their previous values |
| SessionRestoreModal.RestoreWithoutFileKeepsVideo | src/components/SessionRestoreModal.js:24-27 | unchecking the file box applies the settings to the video already loaded |
| ExportOverlay.Remaining | src/components/ExportProgressOverlay.js:21-25 | the remaining time is elapsed × 100 / progress − elapsed, clamped at 0 |
| ExportOverlay.EtaEffect | src/components/ExportProgressOverlay.js:15-31 | the first positive sample records the start, later ones estimate, hiding clears both; estimates stay non-negative |
| ExportOverlay.MoreProgressLessTime | src/components/ExportProgressOverlay.js:21-25 | for the same elapsed time, more progress never raises the estimate |
| ExportOverlay.DoneMeansNothingLeft | src/components/ExportProgressOverlay.js:21-25 | at 100 % nothing remains |
| ExportOverlay.FormatTime | src/components/ExportProgressOverlay.js:33-41 | missing, zero or negative values show "--:--"; otherwise padded minutes and seconds |
| ExportOverlay.WholeSeconds | src/components/ExportProgressOverlay.js:36 | the whole seconds are the largest count not above the milliseconds over 1000 |
| ExportOverlay.ClockOfSeconds | src/components/ExportProgressOverlay.js:37-40 | minutes × 60 + seconds read off the clock give back the seconds it was built from, with the colon third from the end |
| ExportOverlay.FormatTimeRoundTrip | src/components/ExportProgressOverlay.js:33-41 | the label of a positive time reads back as its whole seconds and has the `mm:ss` colon |
| ExportOverlay.TimeLabel | src/components/ExportProgressOverlay.js:69 | "Calculating..." until a non-zero estimate, then the clock with "remaining" |
| ExportOverlay.TimeLabelNeverPlaceholder | src/components/ExportProgressOverlay.js:69 | a non-negative estimate never shows the "--:--" clock |
| ExportOverlay.PercentLabel | src/components/ExportProgressOverlay.js:66 | a finite progress is shown within half a percent; others unchanged |
| ExportOverlay.Render | src/components/ExportProgressOverlay.js:43-146 | nothing when hidden; each detail row shows exactly when its value calls for it; quality and size only for video |
| SettingsPanel.ShowValidation | src/components/Settings.js:185-195 | blank when unchecked, "✅ Valid" iff valid, "❌ Invalid path" iff invalid |
| SettingsPanel.Answer | src/components/Settings.js:68-73 | a call that throws counts as invalid |
| SettingsPanel.ChangeSetting | src/components/Settings.js:76-85 | the key is set; a non-empty path is validated and an empty one unchecked; other keys leave validation alone |
| SettingsPanel.IndicatorMatchesFileSystem | src/components/Settings.js:76-85 | entering a path shows Valid exactly for an existing regular file |
| SettingsPanel.Open | src/components/Settings.js:45-60 | the panel shows the stored settings and validates each non-empty path |
| SettingsPanel.Save | src/components/Settings.js:127-163 | the store is written only when no checked path fails; each failure shows its modal and the ffprobe one wins |
| SettingsPanel.AutoDetectSavesUnchecked | src/components/Settings.js:133-141 | with auto-detection on, saving always writes, whatever the paths |
| SettingsPanel.Reset | src/components/Settings.js:165-183 | the panel shows the defaults, unchecked, with a notice; the store is untouched |
| SettingsPanel.SaveAfterReset | src/components/Settings.js:149-175 | saving after a reset writes the four defaults and keeps the stored session |
| SettingsPanel.AutoDetectPaths | src/components/Settings.js:99-125 | a failure shows its error; detected paths replace the settings and each is validated with its own answer, undetected ones keep their setting and indicator; "Auto-Detection Failed" exactly when nothing was found |
| Tasks.Start | src/components/TasksScreen.js:39-52 | a fresh wizard: the task, three incomplete steps, step 0, no files |
| Tasks.Clear | src/components/TasksScreen.js:455-461 | the task is abandoned and the wizard emptied |
| Tasks.Update | src/components/TasksScreen.js:57-59 | only the step with that id changes: its details, and completion when asked |
| Tasks.UpdateKeepsShape | src/components/TasksScreen.js:57-59 | updating a step keeps the wizard well formed |
| Tasks.Step1 | src/components/TasksScreen.js:54-92 | a chosen file completes step 1 with its name; a cancelled dialog marks it "Cancelled"; an error shows its message |
| Tasks.Step2 | src/components/TasksScreen.js:94-136 | refused without an input; otherwise the save dialog completes step 2, marks it cancelled, or marks it with "Error: " and the dialog's error |
| Tasks.Step3 | src/components/TasksScreen.js:138-209 | a job is launched exactly when both files are set, with Quick Fade's fixed fades; success clears the task and names the saved file and its folder; a failure shows the cancellation notice exactly for a "cancelled by user" message and the error modal with the message otherwise |
| Tasks.StepClick | src/components/TasksScreen.js:389-419 | the click runs the step of the current task named by its id; nothing happens without a task or for another id |
| Tasks.StepClickKeepsShape | src/components/TasksScreen.js:389-419 | every click keeps the wizard well formed |
| Tasks.QuickFadeWalkthrough | src/components/TasksScreen.js:39-209 | choosing both files and processing runs the job on exactly those paths |
| Tasks.CancelledDialogLeavesIncomplete | src/components/TasksScreen.js:69-74 | a cancelled input dialog leaves step 1 incomplete, reading "Cancelled" |
| Tasks.OnStarted | src/components/TasksScreen.js:423-426 | processing starts at 0 % and nothing else changes |
| Tasks.OnCancelled | src/components/TasksScreen.js:432-436 | processing stops at 0 % with a notice |
| Tasks.OnProgress | src/components/TasksScreen.js:428-430 | a truthy percent is shown (a non-number one as non-numeric), a falsy one (missing, 0, NaN, `null`, `''`, `false`) shows 0, a missing payload throws and changes nothing |
| Tasks.NaNResetsHere | src/components/TasksScreen.js:429 | unlike the editor, a NaN percent resets the display to 0 |

## Left out

- Running ffmpeg and ffprobe: the engine's `start`, `progress`, `end` and `error` events are inputs (`ExportJob.Op`), and ffprobe's answer is the `probe` parameter. Of a progress report only its `percent` (a number, or missing) is carried.
- Electron dialogs, `shell.showItemInFolder`, the store's file I/O and `console` logging: a dialog's answer is a parameter, and the store is a `Config.Settings` value.
- `path.basename`, `path.dirname`, `path.parse` and `path.normalize`: file names are passed in, and the protocol handler's normalisation is not modelled.
- Auto-detection through `which`/`where` on the PATH (public/config.js:131-174): its answer arrives asynchronously, after `autoDetectFFmpegPaths` has returned, so it never changes the result. `Config.AutoDetect` models only the candidate lists.
- Preview mode (`handlePreviewClip`, the animation-frame monitor, Space leaving preview), `setTimeout` delays and the `Date.now()` clock: the clock is the `now` parameter of `ExportOverlay.EtaEffect`.
- The `formatTime` helpers of the editor and the restore dialog (`toFixed`), and the timeline's hover and drag tooltips: display only.
- The `process-quick-fade` and `process-audio-rip` channels the Tasks screen invokes: no handler for them is registered in public/electron.js, so their outcome is the `outcome` parameter of `Tasks.Step3`.
- Tasks' Audio Rip steps (src/components/TasksScreen.js:226-375) have the same shape as Quick Fade's, differing only in titles and the job. `Tasks.Step1`–`Step3` model both.
- The Set In and Set Out buttons pass the click event as the time (src/components/Controls.js:72, 82). A real-valued model cannot hold an event object, so these buttons are not modelled.
- Timeline.MouseMove: the track width is a positive real. `getTrackWidth` returning 0, which would divide by zero, is not modelled.
- Timeline.TimeFromPosition: the track rectangle's width is a positive real. A zero-width track, where `x / rect.width` gives NaN or ±Infinity (src/components/Timeline.js:18), is not modelled.
- ExportJob.Apply: the value stored in the job slot is the handle given to the launch. What fluent-ffmpeg's `run()` returns is not modelled.
- The NaN guards of the overlay's `exportOptions` (src/App.js:804): the model's reals are never NaN.
- Tasks.Step3: the file name and folder in the success message are `path.basename` and `path.dirname` of the output path; they are passed in as the `place` parameter.
- Editor.FinishExport: the success message is reduced to its first line plus the saved path. The file name and folder split is not modelled. The "Error invoking remote method 'process-video': Error: " prefix is Electron's behaviour, not the repository's; it is modelled as `Editor.RemotePrefix`. `ipcRenderer.invoke` rejects with "Error invoking remote method '<channel>': " followed by the main-process error as a string, which is "Error: " and its message.
- Editor.LoadVideo: an error from the main process is shown with the message it carries. Electron's wrapping of remote errors is not modelled.
- Editor.CancelExport: the preparing-phase cancel does not stop the `process-video` call already in flight. The state that call later leaves behind is `Editor.FinishExport`'s to describe.
- Editor.KeyDown: Space toggles the play state without the video element, which is not modelled.
- SettingsPanel.Save: a store write that throws ("Save Error") is not modelled.
- The `isValidating`/`isAutoDetecting` busy flags and `selectExecutablePath`, which only feeds `SettingsPanel.ChangeSetting`.

## Findings

| source | as written | input that shows it | evidently intended | confidence | as-written member | corrected member |
|---|---|---|---|---|---|---|
| public/electron.js:208 with src/App.js:541-555 | the renderer sends `inPoint`/`outPoint`, but the main process destructures `startTime`/`duration`, so both are undefined | any export with in point 2 and out point 5: the command has no seek and no duration, and a video fade-out gets a NaN start | the clip from the in point, lasting out − in | high (not executed) | Editor.AsWrittenExportIgnoresClip | Editor.ExportTrimsToClip |
| src/App.js:276 | the keydown listener is re-registered only when `videoFile`, `currentTime` or `duration` change, so it keeps reading the in and out points of an older render | Shift+Left pressed three times at in point 5: the in point ends at 4.9, not 4.7 | every press nudges from the current in point | high (not executed) | Editor.StaleNudgesCollapse | Editor.NudgesAccumulate |
| src/App.js:224-276 | the Shift+Down handler clamps the out point against the in point of the render the listener was registered in, which an earlier Shift+Right may already have moved | a 5.0–5.2 clip in a 10 s video: Shift+Right, then Shift+Down, gives in = out = 5.1, closing the 0.1 s gap | every nudge keeps the in and out points at least 0.1 s apart | high (not executed) | Editor.StaleNudgesBreakClip | Editor.PressesKeepClipValid |
