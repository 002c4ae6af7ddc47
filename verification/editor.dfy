/**
 * The renderer's single-video editor (`App`): the state it keeps, the
 * keyboard shortcuts, the export progress handlers, loading, clearing,
 * restoring and saving a session, and the export and cancel flows. Every
 * IPC, dialog and probe result is a parameter.
 */
module Editor {
  import opened Wrappers
  import Js
  import Text
  import MediaUrl
  import Session
  import FilterGraph
  import ExportJob

  /** The step of the fine in/out nudges, and the minimum gap they keep, in seconds. */
  const Fine: real := 0.1
  /** The step of the coarse (Ctrl) nudges. */
  const Coarse: real := 1.0
  /** How far plain Left/Right skip. */
  const Skip: real := 10.0

  datatype ModalKind = InfoKind | ErrorKind | WarningKind | SuccessKind

  /** The info modal: title, body and kind. */
  datatype Modal = Modal(title: string, body: string, kind: ModalKind)

  datatype State = State(
    videoFile: Option<string>,
    videoFilePath: Option<string>,
    videoFileName: Option<string>,
    currentTime: real,
    duration: real,
    isPlaying: bool,
    inPoint: real,
    outPoint: real,
    fadeIn: real,
    fadeOut: real,
    audioFadeIn: real,
    audioFadeOut: real,
    silenceAtStart: real,
    blackScreenAtStart: real,
    exportQuality: string,
    exportSize: real,
    exportType: string,
    isProcessing: bool,
    isPreparing: bool,
    progress: Js.Number,
    outputFilePath: Option<string>,
    isRestoringSession: bool,
    mouseTimelinePosition: Option<real>,
    modal: Option<Modal>)

  /** The state `App` mounts with. */
  const Initial: State := State(
    None, None, None, 0.0, 0.0, false, 0.0, 0.0,
    0.0, 0.0, 0.0, 0.0, 0.0, 0.0, "high", 100.0, "video",
    false, false, Js.Finite(0.0), None, false, None, None)

  /** `!!videoFile`: a media URL is loaded. */
  predicate HasVideo(e: State) {
    e.videoFile.Some? && e.videoFile.value != ""
  }

  /** In and out lie inside the video, at least the nudge gap apart. */
  predicate ClipValid(e: State) {
    0.0 <= e.inPoint && e.inPoint + Fine <= e.outPoint <= e.duration
  }

  // ---------------------------------------------------------------- keys

  datatype Key = Space | ArrowLeft | ArrowRight | ArrowUp | ArrowDown | LetterI | LetterO | OtherKey

  datatype KeyEvent = KeyEvent(key: Key, shift: bool, ctrl: bool)

  /** The step a Shift nudge moves by: 1 s with Ctrl, otherwise 0.1 s. */
  function NudgeStep(ev: KeyEvent): (step: real)
    ensures step == Fine || step == Coarse
    ensures step == Coarse <==> ev.ctrl
  {
    if ev.ctrl then Coarse else Fine
  }

  /**
   * `handleKeyDown`. The listener reads every value from `seen`, the render
   * it was registered in, and its setters write into `e`, the live state.
   */
  function KeyDown(seen: State, e: State, ev: KeyEvent): (r: State)
    ensures !HasVideo(seen) ==> r == e
    ensures r.(inPoint := e.inPoint, outPoint := e.outPoint, currentTime := e.currentTime, isPlaying := e.isPlaying) == e
  {
    if !HasVideo(seen) then e
    else
      match ev.key
      case Space => e.(isPlaying := !seen.isPlaying)
      case ArrowLeft =>
        if ev.shift then e.(inPoint := Js.Max(0.0, seen.inPoint - NudgeStep(ev)))
        else e.(currentTime := Js.Max(0.0, seen.currentTime - Skip))
      case ArrowRight =>
        if ev.shift then e.(inPoint := Js.Min(seen.outPoint - Fine, seen.inPoint + NudgeStep(ev)))
        else e.(currentTime := Js.Min(seen.duration, seen.currentTime + Skip))
      case LetterI => e.(inPoint := seen.mouseTimelinePosition.GetOr(seen.currentTime))
      case LetterO => e.(outPoint := seen.mouseTimelinePosition.GetOr(seen.currentTime))
      case ArrowUp =>
        if ev.shift then e.(outPoint := Js.Min(seen.duration, seen.outPoint + NudgeStep(ev))) else e
      case ArrowDown =>
        if ev.shift then e.(outPoint := Js.Max(seen.inPoint + Fine, seen.outPoint - NudgeStep(ev))) else e
      case OtherKey => e
  }

  /** The effect of each shortcut when the listener sees the live state. */
  lemma KeyEffects(e: State, ev: KeyEvent)
    requires HasVideo(e)
    ensures var r := KeyDown(e, e, ev);
      && (ev.key == ArrowLeft && ev.shift ==>
            r.inPoint >= 0.0 && r.inPoint <= Js.Max(0.0, e.inPoint)
            && (e.inPoint >= NudgeStep(ev) ==> r.inPoint == e.inPoint - NudgeStep(ev)))
      && (ev.key == ArrowRight && ev.shift ==>
            r.inPoint <= e.outPoint - Fine
            && (e.inPoint + NudgeStep(ev) <= e.outPoint - Fine ==> r.inPoint == e.inPoint + NudgeStep(ev)))
      && (ev.key == ArrowUp && ev.shift ==>
            r.outPoint <= e.duration
            && (e.outPoint + NudgeStep(ev) <= e.duration ==> r.outPoint == e.outPoint + NudgeStep(ev)))
      && (ev.key == ArrowDown && ev.shift ==>
            r.outPoint >= e.inPoint + Fine
            && (e.outPoint - NudgeStep(ev) >= e.inPoint + Fine ==> r.outPoint == e.outPoint - NudgeStep(ev)))
      && (ev.key == ArrowLeft && !ev.shift ==>
            r.currentTime >= 0.0 && (e.currentTime >= Skip ==> r.currentTime == e.currentTime - Skip))
      && (ev.key == ArrowRight && !ev.shift ==>
            r.currentTime <= e.duration && (e.currentTime + Skip <= e.duration ==> r.currentTime == e.currentTime + Skip))
      && ((ev.key == ArrowUp || ev.key == ArrowDown) && !ev.shift ==> r == e)
      && (ev.key == Space ==> r == e.(isPlaying := !e.isPlaying))
      && (ev.key == LetterI ==> r.inPoint == (if e.mouseTimelinePosition.Some? then e.mouseTimelinePosition.value else e.currentTime))
      && (ev.key == LetterO ==> r.outPoint == (if e.mouseTimelinePosition.Some? then e.mouseTimelinePosition.value else e.currentTime))
  {
  }

  /** Every shortcut except I and O keeps a valid clip valid. */
  lemma NudgesKeepClipValid(e: State, ev: KeyEvent)
    requires ClipValid(e)
    requires ev.key != LetterI && ev.key != LetterO
    ensures ClipValid(KeyDown(e, e, ev))
  {
  }

  /** I and O commit the playhead unclamped, so a valid clip can become inverted. */
  lemma MarkKeysCanInvertClip()
    ensures var e := Initial.(videoFile := Some("phedit-file://a"), duration := 10.0, inPoint := 2.0, outPoint := 4.0, currentTime := 6.0);
      && ClipValid(e)
      && KeyDown(e, e, KeyEvent(LetterI, false, false)).inPoint > KeyDown(e, e, KeyEvent(LetterI, false, false)).outPoint
  {
  }

  /** A keydown listener together with the render whose values it closed over. */
  datatype Listener = Listener(state: State, seen: State)

  /** The values in the effect's dependency list `[videoFile, currentTime, duration]`. */
  predicate SameDeps(a: State, b: State) {
    a.videoFile == b.videoFile && a.currentTime == b.currentTime && a.duration == b.duration
  }

  /** A key press as written: the listener is re-registered only when a dependency changed. */
  function PressAsWritten(l: Listener, ev: KeyEvent): (r: Listener)
    ensures r.state == KeyDown(l.seen, l.state, ev)
    ensures SameDeps(r.state, l.seen) ==> r.seen == l.seen
    ensures !SameDeps(r.state, l.seen) ==> r.seen == r.state
  {
    var s := KeyDown(l.seen, l.state, ev);
    Listener(s, if SameDeps(s, l.seen) then l.seen else s)
  }

  /** A key press as intended: the handler always reads the live state. */
  function Press(l: Listener, ev: KeyEvent): (r: Listener)
    ensures r.seen == r.state
    ensures l.seen == l.state ==> r.state == KeyDown(l.state, l.state, ev)
  {
    var s := KeyDown(l.state, l.state, ev);
    Listener(s, s)
  }

  function PressTimesAsWritten(l: Listener, ev: KeyEvent, n: nat): Listener {
    if n == 0 then l else PressAsWritten(PressTimesAsWritten(l, ev, n - 1), ev)
  }

  function PressTimes(l: Listener, ev: KeyEvent, n: nat): Listener {
    if n == 0 then l else Press(PressTimes(l, ev, n - 1), ev)
  }

  const ShiftLeft: KeyEvent := KeyEvent(ArrowLeft, true, false)

  /**
   * As written, repeated Shift+Left presses do not accumulate: however many
   * times it is pressed, the in point ends one step below where it started.
   */
  lemma {:induction false} StaleNudgesCollapse(e: State, n: nat)
    requires HasVideo(e) && n >= 1
    ensures PressTimesAsWritten(Listener(e, e), ShiftLeft, n).seen == e
    ensures PressTimesAsWritten(Listener(e, e), ShiftLeft, n).state == e.(inPoint := Js.Max(0.0, e.inPoint - Fine))
  {
    if n > 1 {
      StaleNudgesCollapse(e, n - 1);
    }
  }

  /** Read against the live state, n presses of Shift+Left move the in point n steps, stopping at 0. */
  lemma {:induction false} NudgesAccumulate(e: State, n: nat)
    requires HasVideo(e) && n >= 1
    ensures PressTimes(Listener(e, e), ShiftLeft, n).state == e.(inPoint := Js.Max(0.0, e.inPoint - n as real * Fine))
  {
    if n > 1 {
      NudgesAccumulate(e, n - 1);
    }
  }

  const ShiftRight: KeyEvent := KeyEvent(ArrowRight, true, false)
  const ShiftDown: KeyEvent := KeyEvent(ArrowDown, true, false)

  /** The listener after a sequence of key presses, as written. */
  function PressAllAsWritten(l: Listener, evs: seq<KeyEvent>): Listener
    decreases |evs|
  {
    if |evs| == 0 then l else PressAllAsWritten(PressAsWritten(l, evs[0]), evs[1..])
  }

  /** The listener after a sequence of key presses, each reading the live state. */
  function PressAll(l: Listener, evs: seq<KeyEvent>): Listener
    decreases |evs|
  {
    if |evs| == 0 then l else PressAll(Press(l, evs[0]), evs[1..])
  }

  /** None of the keys is I or O. */
  predicate NoMarkKeys(evs: seq<KeyEvent>) {
    forall k :: 0 <= k < |evs| ==> evs[k].key != LetterI && evs[k].key != LetterO
  }

  /**
   * As written, two nudges can close the gap: on a 5.0–5.2 clip, Shift+Right
   * moves the in point to 5.1, and the following Shift+Down still reads the
   * old in point 5.0, so it lowers the out point to 5.1 as well.
   */
  lemma StaleNudgesBreakClip()
    ensures var e := Initial.(videoFile := Some("phedit-file://a"), duration := 10.0, inPoint := 5.0, outPoint := 5.2);
      var r := PressAllAsWritten(Listener(e, e), [ShiftRight, ShiftDown]).state;
      && ClipValid(e)
      && r.inPoint == 5.1 && r.outPoint == 5.1
      && !ClipValid(r)
  {
    var e := Initial.(videoFile := Some("phedit-file://a"), duration := 10.0, inPoint := 5.0, outPoint := 5.2);
    var l1 := PressAsWritten(Listener(e, e), ShiftRight);
    assert l1.seen == e && l1.state.inPoint == 5.1;
    var l2 := PressAsWritten(l1, ShiftDown);
    assert l2.state.outPoint == 5.1;
    assert [ShiftRight, ShiftDown][1..] == [ShiftDown];
    assert PressAllAsWritten(l1, [ShiftDown]) == PressAllAsWritten(l2, []);
  }

  /** Read against the live state, any sequence of shortcuts other than I and O keeps a valid clip valid. */
  lemma {:induction false} PressesKeepClipValid(l: Listener, evs: seq<KeyEvent>)
    requires l.seen == l.state && ClipValid(l.state) && NoMarkKeys(evs)
    ensures ClipValid(PressAll(l, evs).state)
    decreases |evs|
  {
    if |evs| > 0 {
      NudgesKeepClipValid(l.state, evs[0]);
      assert NoMarkKeys(evs[1..]) by {
        forall k | 0 <= k < |evs[1..]|
          ensures evs[1..][k].key != LetterI && evs[1..][k].key != LetterO
        {
          assert evs[1..][k] == evs[k + 1];
        }
      }
      PressesKeepClipValid(Press(l, evs[0]), evs[1..]);
    }
  }

  // ------------------------------------------------------------ progress

  /**
   * The `percent` property of a progress sample: missing, a number, or a
   * value of another type, which is falsy (`null`, `''`, `false`) or truthy
   * (a non-empty string, `true`, an object).
   */
  datatype PercentField = Absent | Num(n: Js.Number) | NotANumber(truthy: bool)

  /** A progress payload; `NoSample` is a falsy one. */
  datatype Sample = NoSample | Sample(percent: PercentField)

  /** `processing-progress`: a numeric, non-NaN percent replaces the shown value, anything else keeps it. */
  function OnProgress(e: State, s: Sample): (r: State)
    ensures r.(progress := e.progress) == e
    ensures (s.Sample? && s.percent.Num? && !s.percent.n.NaN?) ==> r.progress == s.percent.n
    ensures !(s.Sample? && s.percent.Num? && !s.percent.n.NaN?) ==> r.progress == e.progress
  {
    match s
    case Sample(Num(n)) => if n.NaN? then e else e.(progress := n)
    case _ => e
  }

  /** Out-of-range and infinite percentages are shown as they arrive. */
  lemma ProgressNotClamped(e: State)
    ensures OnProgress(e, Sample(Num(Js.PosInfinity))).progress == Js.PosInfinity
    ensures OnProgress(e, Sample(Num(Js.Finite(150.0)))).progress == Js.Finite(150.0)
    ensures OnProgress(e, Sample(Num(Js.Finite(-5.0)))).progress == Js.Finite(-5.0)
  {
  }

  /** `processing-started`: preparing ends, processing begins at 0 %. */
  function OnStarted(e: State): (r: State)
    ensures r.isProcessing && !r.isPreparing && r.progress == Js.Finite(0.0)
    ensures r.(isProcessing := e.isProcessing, isPreparing := e.isPreparing, progress := e.progress) == e
  {
    e.(isPreparing := false, isProcessing := true, progress := Js.Finite(0.0))
  }

  const CancelledModal: Modal := Modal("Export Cancelled", "The export process was cancelled successfully.", InfoKind)

  /** `processing-cancelled`: everything stops, progress returns to 0 and the user is told. */
  function OnCancelled(e: State): (r: State)
    ensures !r.isProcessing && !r.isPreparing && r.progress == Js.Finite(0.0) && r.modal == Some(CancelledModal)
    ensures r.(isProcessing := e.isProcessing, isPreparing := e.isPreparing, progress := e.progress, modal := e.modal) == e
  {
    e.(isProcessing := false, isPreparing := false, progress := Js.Finite(0.0), modal := Some(CancelledModal))
  }

  /** Delivers a notice sent by the main process. */
  function Receive(e: State, n: ExportJob.Notice): State {
    match n
    case ProcessingStarted => OnStarted(e)
    case ProcessingProgress(p) => OnProgress(e, Sample(if p.Some? then Num(p.value) else Absent))
    case ProcessingCancelled => OnCancelled(e)
  }

  function ReceiveAll(e: State, ns: seq<ExportJob.Notice>): State
    decreases |ns|
  {
    if |ns| == 0 then e else ReceiveAll(Receive(e, ns[0]), ns[1..])
  }

  // ------------------------------------------------- loading and clearing

  /** What the open-file dialog returned. */
  datatype OpenDialog = OpenDialog(canceled: bool, filePaths: seq<string>)

  /** Zeroes the six per-clip effect fields. */
  function ZeroEffects(e: State): State {
    e.(fadeIn := 0.0, fadeOut := 0.0, audioFadeIn := 0.0, audioFadeOut := 0.0, silenceAtStart := 0.0, blackScreenAtStart := 0.0)
  }

  /**
   * `handleLoadVideo`. `fileName` is the base name of the first chosen path
   * and `probe` the duration the metadata probe reports, or its error.
   */
  function LoadVideo(e: State, dialog: OpenDialog, fileName: string, probe: Result<real>): (r: State)
    ensures dialog.canceled || |dialog.filePaths| == 0 ==> r == e
    ensures !dialog.canceled && |dialog.filePaths| > 0 && probe.Failure? ==>
      r == e.(modal := Some(Modal("Error Loading Video", probe.error, ErrorKind)))
    ensures !dialog.canceled && |dialog.filePaths| > 0 && probe.Success? ==>
      && r.videoFilePath == Some(dialog.filePaths[0])
      && r.videoFileName == Some(fileName)
      && r.videoFile == Some(MediaUrl.VideoUrl(dialog.filePaths[0]))
      && HasVideo(r)
      && r.duration == probe.value && r.outPoint == probe.value
      && r.inPoint == 0.0 && r.currentTime == 0.0
      && r.fadeIn == 0.0 && r.fadeOut == 0.0 && r.audioFadeIn == 0.0 && r.audioFadeOut == 0.0
      && r.silenceAtStart == 0.0 && r.blackScreenAtStart == 0.0
      && r.exportQuality == e.exportQuality && r.exportSize == e.exportSize && r.exportType == e.exportType
      && r.isPlaying == e.isPlaying && r.progress == e.progress && r.modal == e.modal
  {
    if dialog.canceled || |dialog.filePaths| == 0 then e
    else if probe.Failure? then e.(modal := Some(Modal("Error Loading Video", probe.error, ErrorKind)))
    else
      var path := dialog.filePaths[0];
      var d := probe.value;
      ZeroEffects(e.(
        videoFilePath := Some(path),
        videoFileName := Some(fileName),
        videoFile := Some(MediaUrl.VideoUrl(path)),
        duration := d,
        outPoint := d,
        currentTime := 0.0,
        inPoint := 0.0))
  }

  /** The URL a load installs leads the media protocol back to the chosen file. */
  lemma LoadedUrlNamesFile(e: State, dialog: OpenDialog, fileName: string, probe: Result<real>)
    requires !dialog.canceled && |dialog.filePaths| > 0 && probe.Success?
    ensures MediaUrl.ProtocolPath(LoadVideo(e, dialog, fileName, probe).videoFile.value) == Some(dialog.filePaths[0])
  {
    MediaUrl.ProtocolPathOfVideoUrl(dialog.filePaths[0]);
  }

  /** A freshly loaded video has a valid clip exactly when it is at least the nudge gap long. */
  lemma LoadedClipValid(e: State, dialog: OpenDialog, fileName: string, probe: Result<real>)
    requires !dialog.canceled && |dialog.filePaths| > 0 && probe.Success?
    ensures ClipValid(LoadVideo(e, dialog, fileName, probe)) <==> probe.value >= Fine
  {
  }

  /** `onLoadedMetadata`: the element's duration; the out point follows it unless a restore is under way. */
  function LoadedMetadata(e: State, d: real): (r: State)
    ensures r.duration == d
    ensures !e.isRestoringSession ==> r.outPoint == d
    ensures e.isRestoringSession ==> r.outPoint == e.outPoint
    ensures r.(duration := e.duration, outPoint := e.outPoint) == e
  {
    if e.isRestoringSession then e.(duration := d) else e.(duration := d, outPoint := d)
  }

  /** Clear Clip Points, once confirmed: the clip becomes the whole video. */
  function ClearClipPoints(e: State): (r: State)
    ensures r.inPoint == 0.0 && r.outPoint == e.duration
    ensures r.(inPoint := e.inPoint, outPoint := e.outPoint) == e
  {
    e.(inPoint := 0.0, outPoint := e.duration)
  }

  lemma ClearClipPointsIdempotent(e: State)
    ensures ClearClipPoints(ClearClipPoints(e)) == ClearClipPoints(e)
    ensures ClipValid(ClearClipPoints(e)) <==> e.duration >= Fine
  {
  }

  // ----------------------------------------------------- session restore

  /** Applies every optional field of `data` except the file and the clip; a missing key keeps the current value. */
  function RestoreEffects(e: State, data: Session.Record): (r: State)
    ensures r.fadeIn == data.fadeIn.GetOr(e.fadeIn)
    ensures r.fadeOut == data.fadeOut.GetOr(e.fadeOut)
    ensures r.audioFadeIn == data.audioFadeIn.GetOr(e.audioFadeIn)
    ensures r.audioFadeOut == data.audioFadeOut.GetOr(e.audioFadeOut)
    ensures r.silenceAtStart == data.silenceAtStart.GetOr(e.silenceAtStart)
    ensures r.blackScreenAtStart == data.blackScreenAtStart.GetOr(e.blackScreenAtStart)
    ensures r.exportQuality == data.exportQuality.GetOr(e.exportQuality)
    ensures r.exportSize == data.exportSize.GetOr(e.exportSize)
    ensures r.exportType == data.exportType.GetOr(e.exportType)
    ensures r.(fadeIn := e.fadeIn, fadeOut := e.fadeOut, audioFadeIn := e.audioFadeIn, audioFadeOut := e.audioFadeOut,
               silenceAtStart := e.silenceAtStart, blackScreenAtStart := e.blackScreenAtStart,
               exportQuality := e.exportQuality, exportSize := e.exportSize, exportType := e.exportType) == e
  {
    e.(fadeIn := data.fadeIn.GetOr(e.fadeIn),
       fadeOut := data.fadeOut.GetOr(e.fadeOut),
       audioFadeIn := data.audioFadeIn.GetOr(e.audioFadeIn),
       audioFadeOut := data.audioFadeOut.GetOr(e.audioFadeOut),
       silenceAtStart := data.silenceAtStart.GetOr(e.silenceAtStart),
       blackScreenAtStart := data.blackScreenAtStart.GetOr(e.blackScreenAtStart),
       exportQuality := data.exportQuality.GetOr(e.exportQuality),
       exportSize := data.exportSize.GetOr(e.exportSize),
       exportType := data.exportType.GetOr(e.exportType))
  }

  const RestoreErrorModal: Modal :=
    Modal("Restore Error", "Failed to restore some session settings. The video file may no longer be available.", WarningKind)

  /**
   * The file and clip part of a restore. With a file, its path and name are
   * installed first; when the probe then fails, the restore stops there
   * with a warning. Without one, only the clip points present are applied.
   */
  function RestoreClip(e: State, data: Session.Record, probe: Result<real>): (r: State)
    ensures Session.HasFile(data) && probe.Failure? ==>
      r == e.(videoFilePath := data.videoFilePath, videoFileName := data.videoFileName, modal := Some(RestoreErrorModal))
    ensures Session.HasFile(data) && probe.Success? ==>
      && r.videoFilePath == data.videoFilePath && r.videoFileName == data.videoFileName
      && r.videoFile == Some(MediaUrl.VideoUrl(data.videoFilePath.value))
      && r.duration == probe.value && r.currentTime == 0.0
      && r.inPoint == data.inPoint.GetOr(0.0)
      && r.outPoint == data.outPoint.GetOr(probe.value)
      && r.(videoFilePath := e.videoFilePath, videoFileName := e.videoFileName, videoFile := e.videoFile,
            duration := e.duration, currentTime := e.currentTime, inPoint := e.inPoint, outPoint := e.outPoint) == e
    ensures !Session.HasFile(data) ==>
      r == e.(inPoint := data.inPoint.GetOr(e.inPoint), outPoint := data.outPoint.GetOr(e.outPoint))
  {
    if Session.HasFile(data) then
      if probe.Failure? then
        e.(videoFilePath := data.videoFilePath, videoFileName := data.videoFileName, modal := Some(RestoreErrorModal))
      else
        e.(videoFilePath := data.videoFilePath, videoFileName := data.videoFileName,
           videoFile := Some(MediaUrl.VideoUrl(data.videoFilePath.value)),
           duration := probe.value, currentTime := 0.0,
           inPoint := data.inPoint.GetOr(0.0), outPoint := data.outPoint.GetOr(probe.value))
    else
      e.(inPoint := data.inPoint.GetOr(e.inPoint), outPoint := data.outPoint.GetOr(e.outPoint))
  }

  /** `handleSessionRestore`: flag the restore, restore the file and clip, then, unless that failed, the rest. */
  function SessionRestore(e: State, data: Session.Record, probe: Result<real>): (r: State)
    ensures r.isRestoringSession
    ensures Session.HasFile(data) && probe.Failure? ==> r == RestoreClip(e.(isRestoringSession := true), data, probe)
    ensures !Session.HasFile(data) || probe.Success? ==>
      r == RestoreEffects(RestoreClip(e.(isRestoringSession := true), data, probe), data)
  {
    var e1 := RestoreClip(e.(isRestoringSession := true), data, probe);
    if Session.HasFile(data) && probe.Failure? then e1 else RestoreEffects(e1, data)
  }

  /** The restore flag's timer has fired. */
  function RestoreSettled(e: State): (r: State)
    ensures !r.isRestoringSession && r.(isRestoringSession := e.isRestoringSession) == e
  {
    e.(isRestoringSession := false)
  }

  /** Restoring an empty record changes nothing but the restore flag. */
  lemma RestoreNothing(e: State, probe: Result<real>)
    ensures SessionRestore(e, Session.Empty, probe) == e.(isRestoringSession := true)
  {
  }

  /** `saveSessionState`: the snapshot persisted after every change, when a file path is set. */
  function SaveSession(e: State): (r: Option<Session.Record>)
    ensures r.Some? <==> e.videoFilePath.Some? && e.videoFilePath.value != ""
    ensures r.Some? ==> Session.HasFile(r.value) && r.value.videoFilePath == e.videoFilePath
  {
    if e.videoFilePath.None? || e.videoFilePath.value == "" then None
    else Some(Session.Record(
      e.videoFilePath, e.videoFileName,
      Some(e.inPoint), Some(e.outPoint),
      Some(e.fadeIn), Some(e.fadeOut), Some(e.audioFadeIn), Some(e.audioFadeOut),
      Some(e.silenceAtStart), Some(e.blackScreenAtStart),
      Some(e.exportQuality), Some(e.exportSize), Some(e.exportType)))
  }

  /**
   * Restoring a saved snapshot in full, with the file still probing to the
   * same duration, gives back the clip, the effects and the export settings.
   */
  lemma SaveRestoreRoundTrip(e: State, before: State)
    requires SaveSession(e).Some?
    ensures var r := SessionRestore(before, SaveSession(e).value, Success(e.duration));
      && r.videoFilePath == e.videoFilePath && r.videoFileName == e.videoFileName
      && r.videoFile == Some(MediaUrl.VideoUrl(e.videoFilePath.value))
      && r.duration == e.duration
      && r.inPoint == e.inPoint && r.outPoint == e.outPoint
      && r.fadeIn == e.fadeIn && r.fadeOut == e.fadeOut
      && r.audioFadeIn == e.audioFadeIn && r.audioFadeOut == e.audioFadeOut
      && r.silenceAtStart == e.silenceAtStart && r.blackScreenAtStart == e.blackScreenAtStart
      && r.exportQuality == e.exportQuality && r.exportSize == e.exportSize && r.exportType == e.exportType
  {
  }

  // --------------------------------------------------------------- export

  /** What the save dialog returned. */
  datatype SaveDialog = SaveDialog(canceled: bool, filePath: Option<string>)

  /** The `process-video` payload the renderer sends. */
  datatype Request = Request(
    inputPath: Option<string>,
    outputPath: string,
    inPoint: real,
    outPoint: real,
    fadeIn: real,
    fadeOut: real,
    audioFadeIn: real,
    audioFadeOut: real,
    silenceAtStart: real,
    blackScreenAtStart: real,
    exportQuality: string,
    exportSize: real,
    exportType: string)

  datatype Begin = Begin(state: State, request: Option<Request>)

  const NoVideoModal: Modal := Modal("Export Error", "No video loaded. Please load a video first.", ErrorKind)
  const BadClipModal: Modal := Modal("Export Error", "Invalid clip duration. Please set valid in and out points.", ErrorKind)
  const NoPathModal: Modal := Modal("Export Error", "No file path selected.", ErrorKind)

  /** The guards `handleExport` applies before it opens the save dialog. */
  predicate ExportAllowed(e: State) {
    HasVideo(e) && e.outPoint - e.inPoint > 0.0
  }

  /**
   * `handleExport` up to the `process-video` call: the guards, the save
   * dialog, and the preparing state with the request it sends.
   */
  function BeginExport(e: State, dialog: SaveDialog): (b: Begin)
    ensures !HasVideo(e) ==> b == Begin(e.(modal := Some(NoVideoModal)), None)
    ensures HasVideo(e) && e.outPoint - e.inPoint <= 0.0 ==> b == Begin(e.(modal := Some(BadClipModal)), None)
    ensures ExportAllowed(e) && dialog.canceled ==> b == Begin(e, None)
    ensures b.request.Some? <==> ExportAllowed(e) && !dialog.canceled && dialog.filePath.Some? && dialog.filePath.value != ""
    ensures b.request.Some? ==>
      && b.state == e.(isPreparing := true, outputFilePath := dialog.filePath)
      && b.request.value.inputPath == e.videoFilePath
      && b.request.value.outputPath == dialog.filePath.value
      && b.request.value.inPoint == e.inPoint && b.request.value.outPoint == e.outPoint
      && b.request.value.fadeIn == e.fadeIn && b.request.value.fadeOut == e.fadeOut
      && b.request.value.audioFadeIn == e.audioFadeIn && b.request.value.audioFadeOut == e.audioFadeOut
      && b.request.value.silenceAtStart == e.silenceAtStart && b.request.value.blackScreenAtStart == e.blackScreenAtStart
      && b.request.value.exportQuality == e.exportQuality && b.request.value.exportSize == e.exportSize
      && b.request.value.exportType == e.exportType
  {
    if !HasVideo(e) then Begin(e.(modal := Some(NoVideoModal)), None)
    else if e.outPoint - e.inPoint <= 0.0 then Begin(e.(modal := Some(BadClipModal)), None)
    else if dialog.canceled then Begin(e, None)
    else if dialog.filePath.None? || dialog.filePath.value == "" then Begin(e.(modal := Some(NoPathModal)), None)
    else
      Begin(e.(isPreparing := true, outputFilePath := dialog.filePath),
            Some(Request(e.videoFilePath, dialog.filePath.value, e.inPoint, e.outPoint,
                         e.fadeIn, e.fadeOut, e.audioFadeIn, e.audioFadeOut,
                         e.silenceAtStart, e.blackScreenAtStart,
                         e.exportQuality, e.exportSize, e.exportType)))
  }

  /** The options fields the request carries unchanged. */
  function CommonOptions(q: Request, startTime: Option<real>, duration: Option<real>): FilterGraph.Options {
    FilterGraph.Options(
      q.inputPath.GetOr(""), q.outputPath, startTime, duration,
      Some(q.fadeIn), Some(q.fadeOut), Some(q.audioFadeIn), Some(q.audioFadeOut),
      Some(q.silenceAtStart), Some(q.blackScreenAtStart),
      Some(q.exportQuality), Some(q.exportSize), Some(q.exportType))
  }

  /**
   * The handler destructures `startTime` and `duration`, which the request
   * does not carry (it sends `inPoint` and `outPoint`): both arrive undefined.
   */
  function OptionsAsWritten(q: Request): (o: FilterGraph.Options)
    ensures o.startTime.None? && o.duration.None?
    ensures o.fadeOut == Some(q.fadeOut) && o.inputPath == q.inputPath.GetOr("")
  {
    CommonOptions(q, None, None)
  }

  /** The intended mapping: the clip starts at the in point and lasts until the out point. */
  function Options(q: Request): (o: FilterGraph.Options)
    ensures o.startTime == Some(q.inPoint)
    ensures o.duration == Some(q.outPoint - q.inPoint)
    ensures o.fadeOut == Some(q.fadeOut) && o.inputPath == q.inputPath.GetOr("")
  {
    CommonOptions(q, Some(q.inPoint), Some(q.outPoint - q.inPoint))
  }

  /**
   * As written, an export is never trimmed: the command has neither seek nor
   * duration, and a requested video fade-out gets an undefined start.
   */
  lemma AsWrittenExportIgnoresClip(q: Request, paths: FilterGraph.Config.EnginePaths)
    requires q.inputPath.Some? && q.inputPath.value != "" && q.outputPath != ""
    ensures var c := FilterGraph.Compile(OptionsAsWritten(q), paths);
      && c.Success? && c.value.seek.None? && c.value.outputDuration.None?
      && (q.exportType == "video" && q.fadeOut > 0.0 ==>
            FilterGraph.Fade(FilterGraph.Out, None, q.fadeOut) in c.value.videoFilters)
  {
    var o := OptionsAsWritten(q);
    if q.exportType == "video" && q.fadeOut > 0.0 {
      FilterGraph.VideoFadeTiming(o);
    }
  }

  /**
   * With the intended mapping, a clip that starts after 0 is seeked to and
   * cut to its length, and the video fade-out ends where the clip does.
   */
  lemma ExportTrimsToClip(q: Request, paths: FilterGraph.Config.EnginePaths)
    requires q.inputPath.Some? && q.inputPath.value != "" && q.outputPath != ""
    requires q.inPoint > 0.0 && q.outPoint - q.inPoint > 0.0
    ensures var c := FilterGraph.Compile(Options(q), paths);
      && c.Success? && c.value.seek == Some(q.inPoint) && c.value.outputDuration == Some(q.outPoint - q.inPoint)
      && (q.exportType == "video" && q.fadeOut > 0.0 && q.blackScreenAtStart <= 0.0 ==>
            FilterGraph.Fade(FilterGraph.Out, Some(q.outPoint - q.inPoint - q.fadeOut), q.fadeOut) in c.value.videoFilters)
  {
    var o := Options(q);
    if q.exportType == "video" && q.fadeOut > 0.0 && q.blackScreenAtStart <= 0.0 {
      FilterGraph.VideoFadeTiming(o);
    }
  }

  const ExportCancelledModal: Modal := Modal("Export Cancelled", "The export was cancelled by the user.", InfoKind)

  /** Whether the renderer reads a rejection as a cancellation. */
  predicate ReadsAsCancellation(message: string) {
    Text.Includes(message, "cancelled by user")
  }

  /**
   * Electron's `ipcRenderer.invoke` does not hand the renderer the main
   * process's error as is: a rejection with message `m` arrives as an error
   * whose message is this prefix followed by `m`.
   */
  const RemotePrefix: string := RemoteHead + "c" + RemoteTail

  /** The wrapping neither creates nor hides the phrase the renderer looks for. */
  /** `RemotePrefix`, "Error invoking remote method 'process-video': Error: ", around its only 'c'. */
  const RemoteHead: string := "Error invoking remote method 'pro"
  const RemoteTail: string := "ess-video': Error: "

  lemma RemotePrefixSplit(m: string)
    ensures RemotePrefix + m == RemoteHead + ("c" + (RemoteTail + m))
  {
  }

  lemma RemotePrefixOneC()
    ensures 'c' !in RemoteHead && 'c' !in RemoteTail && RemoteTail[0] == 'e'
  {
  }

  lemma RemotePrefixOccurrence(m: string)
    ensures Text.Occurs(RemotePrefix + m, "cancelled by user") <==> Text.Occurs(m, "cancelled by user")
  {
    if Text.Occurs(m, "cancelled by user") {
      Text.OccursInSuffix(RemotePrefix, m, "cancelled by user");
    }
    if Text.Occurs(RemotePrefix + m, "cancelled by user") {
      RemotePrefixAddsNothing(m);
    }
  }

  /** The only 'c' of the prefix is followed by 'e', not by the phrase's 'a'. */
  lemma RemotePrefixAddsNothing(m: string)
    requires Text.Occurs(RemotePrefix + m, "cancelled by user")
    ensures Text.Occurs(m, "cancelled by user")
  {
    var sub := "cancelled by user";
    RemotePrefixSplit(m);
    RemotePrefixOneC();
    var t := RemoteTail + m;
    Text.OccursAfterPrefix(RemoteHead, "c" + t, sub);
    var i: nat :| Text.OccursAt("c" + t, sub, i);
    assert i > 0 by {
      assert ("c" + t)[1] == t[0] == 'e';
    }
    Text.OccursShift("c" + t, sub, i - 1);
    assert ("c" + t)[1..] == t;
    Text.OccursAfterPrefix(RemoteTail, m, sub);
  }

  /**
   * The rest of `handleExport`: success or failure of `process-video`
   * clears both flags and the output path and reports the outcome. A
   * rejection is read through Electron's wrapping of its message.
   */
  function FinishExport(e: State, savedPath: string, outcome: ExportJob.Settlement): (r: State)
    ensures outcome.Pending? ==> r == e
    ensures !outcome.Pending? ==>
      !r.isProcessing && !r.isPreparing && r.outputFilePath.None?
      && r.(isProcessing := e.isProcessing, isPreparing := e.isPreparing, outputFilePath := e.outputFilePath, modal := e.modal) == e
    ensures outcome.Resolved? ==> r.modal.Some? && r.modal.value.kind == SuccessKind
    ensures outcome.Rejected? ==>
      (r.modal == Some(ExportCancelledModal) <==> Text.Occurs(outcome.message, "cancelled by user"))
    ensures outcome.Rejected? && !Text.Occurs(outcome.message, "cancelled by user") ==>
      r.modal == Some(Modal("Export Error", "Failed to export: " + (RemotePrefix + outcome.message), ErrorKind))
  {
    match outcome
    case Pending => e
    case Resolved(_) =>
      var title := if e.exportType == "audio" then "Audio exported successfully!" else "Video exported successfully!";
      e.(isProcessing := false, isPreparing := false, outputFilePath := None,
         modal := Some(Modal("Export Successful", title + " " + savedPath, SuccessKind)))
    case Rejected(m) =>
      var seen := RemotePrefix + m;
      RemotePrefixOccurrence(m);
      var shown :=
        if ReadsAsCancellation(seen) then ExportCancelledModal
        else
          assert ("Failed to export: " + seen)[0] != ExportCancelledModal.body[0];
          Modal("Export Error", "Failed to export: " + seen, ErrorKind);
      e.(isProcessing := false, isPreparing := false, outputFilePath := None, modal := Some(shown))
  }

  lemma CancelledByUserOccurs()
    ensures Text.Occurs(ExportJob.CancelledByUser, "cancelled by user")
  {
    assert Text.OccursAt(ExportJob.CancelledByUser, "cancelled by user", 11);
  }

  /** No failure message the main process builds contains the phrase unless the engine's message does. */
  lemma FailureMessageOccurrence(m: string)
    requires Text.Occurs(ExportJob.FailurePrefix + m, "cancelled by user")
    ensures Text.Occurs(m, "cancelled")
  {
    var s := ExportJob.FailurePrefix + m;
    var p := ExportJob.FailurePrefix;
    var i: nat :| Text.OccursAt(s, "cancelled by user", i);
    var w := s[i..i + 17];
    assert w == "cancelled by user";
    assert s[i] == w[0] == 'c' && s[i + 1] == w[1] == 'a';
    if i < |p| {
      assert false;
    } else {
      var j: nat := i - |p|;
      assert s[i..i + 9] == m[j..j + 9];
      assert s[i..i + 9] == w[..9] == "cancelled";
      assert Text.OccursAt(m, "cancelled", j);
    }
  }

  /**
   * End to end: an engine error is reported to the user as a cancellation
   * exactly when the main process classified it as one.
   */
  lemma EngineErrorReport(e: State, savedPath: string, m: string)
    ensures FinishExport(e, savedPath, ExportJob.Settlement.Rejected(ExportJob.ClassifyError(m))).modal == Some(ExportCancelledModal)
            <==> Text.Occurs(m, "SIGTERM") || Text.Occurs(m, "cancelled")
  {
    var c := ExportJob.ClassifyError(m);
    if c == ExportJob.CancelledByUser {
      CancelledByUserOccurs();
    } else if Text.Occurs(c, "cancelled by user") {
      FailureMessageOccurrence(m);
    }
  }

  datatype CancelOutcome<H> = CancelOutcome(state: State, slot: ExportJob.Slot<H>)

  const PreparationCancelledModal: Modal := Modal("Export Cancelled", "The export preparation was cancelled.", InfoKind)

  /**
   * `handleCancelExport` against the main process's job slot. While only
   * preparing, it resets locally and leaves the slot alone; otherwise it
   * invokes `cancel-export`, delivers what that sends and reports a refusal.
   */
  function CancelExport<H>(e: State, slot: ExportJob.Slot<H>): (r: CancelOutcome<H>)
    ensures e.isPreparing && !e.isProcessing ==>
      r.slot == slot && r.state == e.(isPreparing := false, outputFilePath := None, modal := Some(PreparationCancelledModal))
    ensures !(e.isPreparing && !e.isProcessing) ==> r.slot.Empty?
    ensures !(e.isPreparing && !e.isProcessing) && slot.Holds? ==>
      r.state == OnCancelled(e)
    ensures !(e.isPreparing && !e.isProcessing) && slot.Empty? ==>
      r.state == e.(modal := Some(Modal("Cancel Error", ExportJob.NothingToCancel, WarningKind)))
  {
    if e.isPreparing && !e.isProcessing then
      CancelOutcome(e.(isPreparing := false, outputFilePath := None, modal := Some(PreparationCancelledModal)), slot)
    else
      var effect := ExportJob.Cancel(slot);
      var s := ReceiveAll(e, effect.sent);
      var s' := if effect.reply.success then s else s.(modal := Some(Modal("Cancel Error", effect.reply.message, WarningKind)));
      CancelOutcome(s', effect.slot)
  }

  /**
   * Cancelling a preparation, or a job the main process still holds, hides
   * the export overlay, which shows while processing or preparing.
   */
  lemma CancelHidesOverlay<H>(e: State, slot: ExportJob.Slot<H>)
    requires (e.isPreparing && !e.isProcessing) || slot.Holds?
    ensures var r := CancelExport(e, slot).state; !r.isProcessing && !r.isPreparing
  {
  }
}
