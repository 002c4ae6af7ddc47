/**
 * The controls panel: the bounds its inputs advertise, how a typed number
 * reaches the editor, when export can be pressed, what it shows, and how it
 * mounts the timeline.
 */
module Controls {
  import opened Wrappers
  import Editor
  import Timeline

  /** The `max` of the silence and black-screen inputs, in seconds. */
  const MaxLeadIn: real := 30.0

  /** The `max` each of the four fade inputs advertises: half the clip. */
  function FadeMax(inPoint: real, outPoint: real): (m: real)
    ensures m + m == outPoint - inPoint
  {
    (outPoint - inPoint) / 2.0
  }

  /** Fades within their advertised maximum never overlap: fade-in and fade-out together fit in the clip. */
  lemma FadesWithinMaxFitClip(inPoint: real, outPoint: real, fadeIn: real, fadeOut: real)
    requires fadeIn <= FadeMax(inPoint, outPoint) && fadeOut <= FadeMax(inPoint, outPoint)
    ensures fadeIn + fadeOut <= outPoint - inPoint
  {
  }

  /**
   * `parseFloat(value) || 0` on a number input's value: `None` stands for a
   * value that does not parse (an empty field); 0 and unparsable both give 0.
   */
  function Coerce(parsed: Option<real>): (v: real)
    ensures parsed.None? ==> v == 0.0
    ensures parsed.Some? ==> v == parsed.value
  {
    match parsed
    case None => 0.0
    case Some(x) => x
  }

  datatype NumericField = FadeInField | FadeOutField | AudioFadeInField | AudioFadeOutField | SilenceField | BlackField

  function Field(e: Editor.State, f: NumericField): real {
    match f
    case FadeInField => e.fadeIn
    case FadeOutField => e.fadeOut
    case AudioFadeInField => e.audioFadeIn
    case AudioFadeOutField => e.audioFadeOut
    case SilenceField => e.silenceAtStart
    case BlackField => e.blackScreenAtStart
  }

  /** A change event on one of the numeric inputs, forwarded to the editor's setter without clamping. */
  function OnNumericChange(e: Editor.State, f: NumericField, parsed: Option<real>): (r: Editor.State)
    ensures Field(r, f) == Coerce(parsed)
    ensures forall g: NumericField :: g != f ==> Field(r, g) == Field(e, g)
    ensures r.(fadeIn := e.fadeIn, fadeOut := e.fadeOut, audioFadeIn := e.audioFadeIn, audioFadeOut := e.audioFadeOut,
               silenceAtStart := e.silenceAtStart, blackScreenAtStart := e.blackScreenAtStart) == e
  {
    var v := Coerce(parsed);
    match f
    case FadeInField => e.(fadeIn := v)
    case FadeOutField => e.(fadeOut := v)
    case AudioFadeInField => e.(audioFadeIn := v)
    case AudioFadeOutField => e.(audioFadeOut := v)
    case SilenceField => e.(silenceAtStart := v)
    case BlackField => e.(blackScreenAtStart := v)
  }

  /** The advertised bounds are not enforced: a negative fade or one beyond half the clip is stored as typed. */
  lemma BoundsNotEnforced(e: Editor.State)
    requires e.outPoint - e.inPoint >= 0.0
    ensures var big := FadeMax(e.inPoint, e.outPoint) + 1.0;
      OnNumericChange(e, FadeInField, Some(big)).fadeIn == big && big > FadeMax(e.inPoint, e.outPoint)
    ensures OnNumericChange(e, SilenceField, Some(-1.0)).silenceAtStart == -1.0
    ensures OnNumericChange(e, BlackField, Some(MaxLeadIn + 1.0)).blackScreenAtStart > MaxLeadIn
  {
  }

  /** `isProcessing` as the panel receives it: processing or preparing. */
  predicate Busy(e: Editor.State) {
    e.isProcessing || e.isPreparing
  }

  /** The export button's `disabled`. */
  predicate ExportDisabled(e: Editor.State) {
    !Editor.HasVideo(e) || Busy(e) || e.outPoint - e.inPoint <= 0.0
  }

  /**
   * The button and the handler agree: when the button is enabled a named
   * save location starts an export, and when it is disabled while idle the
   * handler refuses whatever the dialog would return.
   */
  lemma ExportButtonMatchesHandler(e: Editor.State, dialog: Editor.SaveDialog)
    ensures !ExportDisabled(e) && !dialog.canceled && dialog.filePath.Some? && dialog.filePath.value != "" ==>
      Editor.BeginExport(e, dialog).request.Some?
    ensures ExportDisabled(e) && !Busy(e) ==> Editor.BeginExport(e, dialog).request.None?
  {
  }

  /** What the panel shows. */
  datatype Layout = Layout(
    qualityPane: bool,
    cancelButton: bool,
    exportLabel: string,
    inputsEnabled: bool,
    fadeMax: real)

  function Render(e: Editor.State): (l: Layout)
    ensures l.qualityPane <==> e.exportType == "video"
    ensures l.cancelButton <==> Busy(e)
    ensures l.inputsEnabled <==> Editor.HasVideo(e)
    ensures Busy(e) ==> l.exportLabel == "Processing..."
    ensures !Busy(e) ==> l.exportLabel == (if e.exportType == "audio" then "Export Audio" else "Export Video")
    ensures l.fadeMax + l.fadeMax == e.outPoint - e.inPoint
  {
    Layout(
      e.exportType == "video",
      Busy(e),
      if Busy(e) then "Processing..." else if e.exportType == "audio" then "Export Audio" else "Export Video",
      Editor.HasVideo(e),
      FadeMax(e.inPoint, e.outPoint))
  }

  /**
   * The props the panel mounts the timeline with. It passes neither
   * `hasVideo`, which therefore takes its default `false`, nor a mouse
   * position callback.
   */
  function TimelineProps(e: Editor.State, track: Option<Timeline.Rect>): (p: Timeline.Props)
    ensures !p.hasVideo
    ensures p.currentTime == e.currentTime && p.duration == e.duration
    ensures p.inPoint == e.inPoint && p.outPoint == e.outPoint
  {
    Timeline.Props(e.currentTime, e.duration, e.inPoint, e.outPoint, false, track)
  }

  /** As mounted, the timeline never starts a drag, so drags never move the playhead or the handles. */
  lemma MountedTimelineNeverDrags(e: Editor.State, track: Option<Timeline.Rect>, kind: Timeline.DragKind,
                                  downX: real, moveX: real, width: Timeline.PositiveReal)
    ensures var p := TimelineProps(e, track);
      && Timeline.MouseDown(Timeline.Idle, p, kind, downX).drag == Timeline.Idle
      && Timeline.MouseDown(Timeline.Idle, p, kind, downX).commit.None?
      && Timeline.MouseMove(Timeline.MouseDown(Timeline.Idle, p, kind, downX).drag, p, moveX, width).None?
  {
    Timeline.UnwiredTimelineIsInert(TimelineProps(e, track), kind, downX, moveX, width);
  }

  /** Nothing ever reports a hover position, so I and O always mark the playhead. */
  lemma MarkKeysUsePlayhead(e: Editor.State, ev: Editor.KeyEvent)
    requires Editor.HasVideo(e) && e.mouseTimelinePosition.None?
    ensures ev.key == Editor.LetterI ==> Editor.KeyDown(e, e, ev).inPoint == e.currentTime
    ensures ev.key == Editor.LetterO ==> Editor.KeyDown(e, e, ev).outPoint == e.currentTime
  {
  }
}
