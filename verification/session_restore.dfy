/**
 * The "Use last settings?" modal: which groups of the saved snapshot the
 * user keeps, and the restore data it hands to the editor.
 */
module SessionRestoreModal {
  import opened Wrappers
  import Session
  import Editor

  datatype Box = VideoFileBox | InOutBox | FadesBox | SilenceBox | ExportTypeBox

  /** `selectedItems`. */
  datatype Selection = Selection(videoFile: bool, inOutPoints: bool, fadeValues: bool, silenceValues: bool, exportType: bool)

  /** Every box starts checked. */
  const AllSelected: Selection := Selection(true, true, true, true, true)

  function Checked(s: Selection, b: Box): bool {
    match b
    case VideoFileBox => s.videoFile
    case InOutBox => s.inOutPoints
    case FadesBox => s.fadeValues
    case SilenceBox => s.silenceValues
    case ExportTypeBox => s.exportType
  }

  /** `handleCheckboxChange`: flips the named box and no other. */
  function Toggle(s: Selection, b: Box): (r: Selection)
    ensures Checked(r, b) == !Checked(s, b)
    ensures forall c: Box :: c != b ==> Checked(r, c) == Checked(s, c)
  {
    match b
    case VideoFileBox => s.(videoFile := !s.videoFile)
    case InOutBox => s.(inOutPoints := !s.inOutPoints)
    case FadesBox => s.(fadeValues := !s.fadeValues)
    case SilenceBox => s.(silenceValues := !s.silenceValues)
    case ExportTypeBox => s.(exportType := !s.exportType)
  }

  /** A selection is determined by its boxes. */
  lemma SelectionExtensional(s: Selection, t: Selection)
    requires forall b: Box :: Checked(s, b) == Checked(t, b)
    ensures s == t
  {
    assert Checked(s, VideoFileBox) == Checked(t, VideoFileBox);
    assert Checked(s, InOutBox) == Checked(t, InOutBox);
    assert Checked(s, FadesBox) == Checked(t, FadesBox);
    assert Checked(s, SilenceBox) == Checked(t, SilenceBox);
    assert Checked(s, ExportTypeBox) == Checked(t, ExportTypeBox);
  }

  /** Toggling a box twice restores the selection. */
  lemma ToggleTwice(s: Selection, b: Box)
    ensures Toggle(Toggle(s, b), b) == s
  {
    SelectionExtensional(Toggle(Toggle(s, b), b), s);
  }

  /** The restore data `handleRestore` builds from the snapshot. */
  function RestoreData(s: Selection, snapshot: Session.Record): (r: Session.Record)
    ensures r.blackScreenAtStart.None? && r.exportQuality.None? && r.exportSize.None?
    ensures s.videoFile && Session.HasFile(snapshot) ==>
      r.videoFilePath == snapshot.videoFilePath && r.videoFileName == snapshot.videoFileName
    ensures !(s.videoFile && Session.HasFile(snapshot)) ==> r.videoFilePath.None? && r.videoFileName.None?
    ensures s.inOutPoints ==> r.inPoint == snapshot.inPoint && r.outPoint == snapshot.outPoint
    ensures !s.inOutPoints ==> r.inPoint.None? && r.outPoint.None?
    ensures s.fadeValues ==>
      r.fadeIn == snapshot.fadeIn && r.fadeOut == snapshot.fadeOut
      && r.audioFadeIn == snapshot.audioFadeIn && r.audioFadeOut == snapshot.audioFadeOut
    ensures !s.fadeValues ==> r.fadeIn.None? && r.fadeOut.None? && r.audioFadeIn.None? && r.audioFadeOut.None?
    ensures r.silenceAtStart == (if s.silenceValues then snapshot.silenceAtStart else None)
    ensures r.exportType == (if s.exportType then snapshot.exportType else None)
  {
    var r0 := Session.Empty;
    var r1 := if s.videoFile && Session.HasFile(snapshot) then r0.(videoFilePath := snapshot.videoFilePath, videoFileName := snapshot.videoFileName) else r0;
    var r2 := if s.inOutPoints then r1.(inPoint := snapshot.inPoint, outPoint := snapshot.outPoint) else r1;
    var r3 := if s.fadeValues then r2.(fadeIn := snapshot.fadeIn, fadeOut := snapshot.fadeOut, audioFadeIn := snapshot.audioFadeIn, audioFadeOut := snapshot.audioFadeOut) else r2;
    var r4 := if s.silenceValues then r3.(silenceAtStart := snapshot.silenceAtStart) else r3;
    if s.exportType then r4.(exportType := snapshot.exportType) else r4
  }

  /** The modal's props and state. */
  datatype Modal = Modal(isOpen: bool, sessionState: Option<Session.Record>, selection: Selection)

  /** The modal renders only while open with a snapshot. */
  predicate Visible(m: Modal) {
    m.isOpen && m.sessionState.Some?
  }

  /** On mount the editor opens the modal only for a stored snapshot with a file path. */
  function OpenOnStartup(stored: Option<Session.Record>): (m: Modal)
    ensures Visible(m) <==> stored.Some? && Session.HasFile(stored.value)
    ensures Visible(m) ==> m.sessionState == stored
    ensures m.selection == AllSelected
  {
    if stored.Some? && Session.HasFile(stored.value) then Modal(true, stored, AllSelected)
    else Modal(false, None, AllSelected)
  }

  /** What a button does: the data handed to `onRestore`, if any, and the modal afterwards. */
  datatype Outcome = Outcome(restored: Option<Session.Record>, modal: Modal)

  /** `closeSessionRestoreModal`: closed and the snapshot dropped; the selection is kept. */
  function Close(m: Modal): (r: Modal)
    ensures !Visible(r) && r.selection == m.selection
  {
    Modal(false, None, m.selection)
  }

  /** Restore hands the selected data over once and closes; with nothing rendered there is no button. */
  function Restore(m: Modal): (o: Outcome)
    ensures !Visible(o.modal) && o.modal.selection == m.selection
    ensures Visible(m) ==> o.restored == Some(RestoreData(m.selection, m.sessionState.value))
    ensures !Visible(m) ==> o == Outcome(None, m)
  {
    if Visible(m) then Outcome(Some(RestoreData(m.selection, m.sessionState.value)), Close(m)) else Outcome(None, m)
  }

  /** Skip only closes. */
  function Skip(m: Modal): (o: Outcome)
    ensures o.restored.None? && !Visible(o.modal)
  {
    if Visible(m) then Outcome(None, Close(m)) else Outcome(None, m)
  }

  /**
   * Saving and restoring with every box checked brings back the clip, the
   * effects and the export type, but not the black screen, quality or size,
   * which keep whatever the editor held before.
   */
  lemma FullRestoreRoundTrip(e: Editor.State, before: Editor.State)
    requires Editor.SaveSession(e).Some?
    ensures var r := Editor.SessionRestore(before, RestoreData(AllSelected, Editor.SaveSession(e).value), Success(e.duration));
      && r.videoFilePath == e.videoFilePath && r.videoFileName == e.videoFileName
      && r.duration == e.duration
      && r.inPoint == e.inPoint && r.outPoint == e.outPoint
      && r.fadeIn == e.fadeIn && r.fadeOut == e.fadeOut
      && r.audioFadeIn == e.audioFadeIn && r.audioFadeOut == e.audioFadeOut
      && r.silenceAtStart == e.silenceAtStart && r.exportType == e.exportType
      && r.blackScreenAtStart == before.blackScreenAtStart
      && r.exportQuality == before.exportQuality && r.exportSize == before.exportSize
  {
  }

  /** Unchecking the file box restores the settings onto the video already loaded. */
  lemma RestoreWithoutFileKeepsVideo(e: Editor.State, snapshot: Session.Record, s: Selection, probe: Result<real>)
    requires !s.videoFile
    ensures var r := Editor.SessionRestore(e, RestoreData(s, snapshot), probe);
      r.videoFile == e.videoFile && r.videoFilePath == e.videoFilePath && r.duration == e.duration
  {
  }
}
