/**
 * The Quick Tasks screen: a three-step wizard (choose input, choose output,
 * process) shared by Quick Fade and Audio Rip, and its progress handlers.
 * Dialog and processing results are parameters.
 */
module Tasks {
  import opened Wrappers
  import Js
  import Text
  import Editor

  datatype TaskKind = QuickFade | AudioRip

  datatype Step = Step(id: nat, text: string, completed: bool, details: string, action: string)

  /** The three steps both tasks start with, none completed. */
  const FreshSteps: seq<Step> := [
    Step(1, "Choose video file", false, "", "select-input"),
    Step(2, "Choose save file", false, "", "select-output"),
    Step(3, "Process now", false, "", "process")]

  /** What the overlay is fed with while a task runs. */
  datatype Display = Percent(n: Js.Number) | NonNumeric

  datatype Wizard = Wizard(
    task: Option<TaskKind>,
    steps: seq<Step>,
    currentStep: nat,
    inputFile: string,
    outputFile: string,
    inputPath: string,
    outputPath: string,
    isProcessing: bool,
    progress: Display,
    overlayInput: Option<string>,
    overlayOutput: Option<string>,
    modal: Option<Editor.Modal>)

  const Initial: Wizard := Wizard(None, [], 0, "", "", "", "", false, Percent(Js.Finite(0.0)), None, None, None)

  /** The steps are either absent or exactly the three fresh ones, each possibly progressed. */
  predicate WellFormed(w: Wizard) {
    |w.steps| == 0 ||
    (|w.steps| == 3 && forall k :: 0 <= k < 3 ==>
       w.steps[k].id == FreshSteps[k].id && w.steps[k].text == FreshSteps[k].text && w.steps[k].action == FreshSteps[k].action)
  }

  /** `handleQuickFade` / `handleAudioRip`. */
  function Start(w: Wizard, kind: TaskKind): (r: Wizard)
    ensures r.task == Some(kind) && r.steps == FreshSteps && r.currentStep == 0
    ensures r.inputFile == "" && r.outputFile == "" && r.inputPath == "" && r.outputPath == ""
    ensures forall k :: 0 <= k < |r.steps| ==> !r.steps[k].completed
    ensures WellFormed(r)
    ensures r.(task := w.task, steps := w.steps, currentStep := w.currentStep, inputFile := w.inputFile,
               outputFile := w.outputFile, inputPath := w.inputPath, outputPath := w.outputPath) == w
  {
    w.(task := Some(kind), steps := FreshSteps, currentStep := 0, inputFile := "", outputFile := "", inputPath := "", outputPath := "")
  }

  /** The back arrow: the task is abandoned and the wizard emptied. */
  function Clear(w: Wizard): (r: Wizard)
    ensures r.task.None? && r.steps == [] && r.currentStep == 0
    ensures r.inputFile == "" && r.outputFile == "" && r.inputPath == "" && r.outputPath == ""
    ensures WellFormed(r)
  {
    w.(task := None, steps := [], currentStep := 0, inputFile := "", outputFile := "", inputPath := "", outputPath := "")
  }

  /** `prev.map(step => step.id === id ? {...step, ...} : step)`: sets the details, and completes the step when asked. */
  function Update(steps: seq<Step>, id: nat, complete: bool, details: string): (r: seq<Step>)
    ensures |r| == |steps|
    ensures forall k :: 0 <= k < |steps| && steps[k].id != id ==> r[k] == steps[k]
    ensures forall k :: 0 <= k < |steps| && steps[k].id == id ==>
      r[k] == steps[k].(completed := complete || steps[k].completed, details := details)
    decreases |steps|
  {
    if |steps| == 0 then []
    else
      var s := steps[0];
      var head := if s.id == id then s.(completed := complete || s.completed, details := details) else s;
      [head] + Update(steps[1..], id, complete, details)
  }

  lemma UpdateKeepsShape(w: Wizard, id: nat, complete: bool, details: string)
    requires WellFormed(w)
    ensures WellFormed(w.(steps := Update(w.steps, id, complete, details)))
  {
  }

  function Completed(w: Wizard, id: nat): bool {
    exists k :: 0 <= k < |w.steps| && w.steps[k].id == id && w.steps[k].completed
  }

  const Waiting: string := "Waiting for user input..."
  const Cancelled: string := "Cancelled"

  /**
   * Step 1: the open dialog (or its error). A chosen file is recorded and
   * completes the step, with `fileName` its base name; a cancelled dialog
   * leaves it as it was, marked "Cancelled".
   */
  function Step1(w: Wizard, dialog: Result<Editor.OpenDialog>, fileName: string): (r: Wizard)
    ensures r.currentStep == 0
    ensures dialog.Success? && !dialog.value.canceled && |dialog.value.filePaths| > 0 ==>
      && r.inputPath == dialog.value.filePaths[0] && r.inputFile == fileName
      && r.steps == Update(w.steps, 1, true, fileName)
    ensures dialog.Success? && (dialog.value.canceled || |dialog.value.filePaths| == 0) ==>
      r == w.(currentStep := 0, steps := Update(w.steps, 1, false, Cancelled))
    ensures dialog.Failure? ==>
      r == w.(currentStep := 0, steps := Update(w.steps, 1, false, "Error: " + dialog.error))
    ensures r.outputPath == w.outputPath && r.task == w.task
  {
    var w1 := w.(currentStep := 0, steps := Update(w.steps, 1, false, Waiting));
    match dialog
    case Failure(msg) => w1.(steps := Update(w.steps, 1, false, "Error: " + msg))
    case Success(d) =>
      if d.canceled || |d.filePaths| == 0 then w1.(steps := Update(w.steps, 1, false, Cancelled))
      else w1.(inputFile := fileName, inputPath := d.filePaths[0], steps := Update(w.steps, 1, true, fileName))
  }

  const NoInputModal: Editor.Modal := Editor.Modal("No Input File", "Please select an input file first.", Editor.WarningKind)
  const MissingFilesModal: Editor.Modal := Editor.Modal("Missing Files", "Please select both input and output files first.", Editor.WarningKind)

  /** Step 2: refused without an input; otherwise the save dialog, as step 1. */
  function Step2(w: Wizard, dialog: Result<Editor.SaveDialog>, fileName: string): (r: Wizard)
    ensures w.inputPath == "" ==> r == w.(modal := Some(NoInputModal))
    ensures w.inputPath != "" ==> r.currentStep == 1 && r.inputPath == w.inputPath && r.task == w.task
    ensures w.inputPath != "" && dialog.Success? && !dialog.value.canceled && dialog.value.filePath.Some? && dialog.value.filePath.value != "" ==>
      && r.outputPath == dialog.value.filePath.value && r.outputFile == fileName
      && r.steps == Update(w.steps, 2, true, fileName)
    ensures w.inputPath != "" && dialog.Success? && (dialog.value.canceled || dialog.value.filePath.None? || dialog.value.filePath.value == "") ==>
      r == w.(currentStep := 1, steps := Update(w.steps, 2, false, Cancelled))
    ensures w.inputPath != "" && dialog.Failure? ==>
      r == w.(currentStep := 1, steps := Update(w.steps, 2, false, "Error: " + dialog.error))
  {
    if w.inputPath == "" then w.(modal := Some(NoInputModal))
    else
      var w1 := w.(currentStep := 1, steps := Update(w.steps, 2, false, Waiting));
      match dialog
      case Failure(msg) => w1.(steps := Update(w.steps, 2, false, "Error: " + msg))
      case Success(d) =>
        if d.canceled || d.filePath.None? || d.filePath.value == "" then w1.(steps := Update(w.steps, 2, false, Cancelled))
        else w1.(outputFile := fileName, outputPath := d.filePath.value, steps := Update(w.steps, 2, true, fileName))
  }

  /** The fixed fades Quick Fade asks for, in seconds. */
  datatype FadeSettings = FadeSettings(videoFadeIn: real, videoFadeOut: real, audioFadeIn: real, audioFadeOut: real)

  const QuickFadeSettings: FadeSettings := FadeSettings(6.0, 3.0, 3.0, 3.0)

  /** What step 3 asks the main process to do. */
  datatype Job = FadeJob(inputPath: string, outputPath: string, fades: FadeSettings) | RipJob(inputPath: string, outputPath: string)

  datatype Launched = Launched(wizard: Wizard, job: Option<Job>)

  /** `path.basename` and `path.dirname` of the output path, as Node's `path` module reports them. */
  datatype Place = Place(fileName: string, folder: string)

  /** The titles and bodies step 3 reports with, per task. */
  function DoneModal(kind: TaskKind, place: Place): Editor.Modal {
    var where := "\n\nFile: " + place.fileName + "\nLocation: " + place.folder;
    match kind
    case QuickFade => Editor.Modal("Quick Fade Complete", "Video processed successfully!" + where, Editor.SuccessKind)
    case AudioRip => Editor.Modal("Audio Extraction Complete", "Audio extracted successfully!" + where, Editor.SuccessKind)
  }

  function CancelledModal(kind: TaskKind): Editor.Modal {
    match kind
    case QuickFade => Editor.Modal("Processing Cancelled", "The quick fade process was cancelled.", Editor.InfoKind)
    case AudioRip => Editor.Modal("Processing Cancelled", "The audio extraction was cancelled.", Editor.InfoKind)
  }

  function FailedModal(kind: TaskKind, message: string): Editor.Modal {
    match kind
    case QuickFade => Editor.Modal("Processing Error", "Failed to process video: " + message, Editor.ErrorKind)
    case AudioRip => Editor.Modal("Processing Error", "Failed to extract audio: " + message, Editor.ErrorKind)
  }

  /**
   * Step 3 of `kind`: refused unless both paths are set; otherwise the job
   * is sent and `outcome` is how it settles. Success clears the task and
   * names the saved file's `place`; failure keeps the task and reads a
   * "cancelled by user" message as a cancellation, any other as an error.
   */
  function Step3(w: Wizard, kind: TaskKind, outcome: Result<bool>, place: Place): (r: Launched)
    ensures r.job.Some? <==> w.inputPath != "" && w.outputPath != ""
    ensures r.job.None? ==> r.wizard == w.(modal := Some(MissingFilesModal))
    ensures r.job.Some? && kind == QuickFade ==> r.job == Some(FadeJob(w.inputPath, w.outputPath, QuickFadeSettings))
    ensures r.job.Some? && kind == AudioRip ==> r.job == Some(RipJob(w.inputPath, w.outputPath))
    ensures r.job.Some? ==>
      && r.wizard.currentStep == 2 && !r.wizard.isProcessing
      && r.wizard.overlayInput.None? && r.wizard.overlayOutput.None?
    ensures r.job.Some? && outcome.Success? ==>
      r.wizard.task.None? && r.wizard.steps == [] && r.wizard.modal == Some(DoneModal(kind, place))
    ensures r.job.Some? && outcome.Failure? ==>
      && r.wizard.task == w.task
      && r.wizard.steps == Update(w.steps, 3, false, "Error: " + outcome.error)
      && (r.wizard.modal == Some(CancelledModal(kind)) <==> Text.Occurs(outcome.error, "cancelled by user"))
      && (!Text.Occurs(outcome.error, "cancelled by user") ==> r.wizard.modal == Some(FailedModal(kind, outcome.error)))
  {
    if w.inputPath == "" || w.outputPath == "" then Launched(w.(modal := Some(MissingFilesModal)), None)
    else
      var job := if kind == QuickFade then FadeJob(w.inputPath, w.outputPath, QuickFadeSettings) else RipJob(w.inputPath, w.outputPath);
      var w1 := w.(currentStep := 2, steps := Update(w.steps, 3, false, "Processing..."),
                   overlayInput := Some(w.inputPath), overlayOutput := Some(w.outputPath));
      match outcome
      case Success(_) =>
        Launched(w1.(isProcessing := false, overlayInput := None, overlayOutput := None, task := None, steps := [],
                     modal := Some(DoneModal(kind, place))), Some(job))
      case Failure(msg) =>
        var shown := if Text.Includes(msg, "cancelled by user") then CancelledModal(kind) else FailedModal(kind, msg);
        assert shown != CancelledModal(kind) ==> !Text.Occurs(msg, "cancelled by user");
        assert FailedModal(kind, msg) != CancelledModal(kind) by {
          assert FailedModal(kind, msg).kind != CancelledModal(kind).kind;
        }
        Launched(w1.(isProcessing := false, overlayInput := None, overlayOutput := None,
                     steps := Update(w.steps, 3, false, "Error: " + msg), modal := Some(shown)), Some(job))
  }

  /** What each dialog and the job would answer, for whichever step is clicked. */
  datatype Answers = Answers(
    open: Result<Editor.OpenDialog>, inputName: string,
    save: Result<Editor.SaveDialog>, outputName: string,
    outcome: Result<bool>, place: Place)

  /** `handleStepClick`: dispatch on the current task and the step id; nothing happens without a task. */
  function StepClick(w: Wizard, id: nat, a: Answers): (r: Launched)
    ensures w.task.None? ==> r == Launched(w, None)
    ensures w.task.Some? && id == 1 ==> r == Launched(Step1(w, a.open, a.inputName), None)
    ensures w.task.Some? && id == 2 ==> r == Launched(Step2(w, a.save, a.outputName), None)
    ensures w.task.Some? && id == 3 ==> r == Step3(w, w.task.value, a.outcome, a.place)
    ensures w.task.Some? && !(1 <= id <= 3) ==> r == Launched(w, None)
  {
    match w.task
    case None => Launched(w, None)
    case Some(kind) =>
      if id == 1 then Launched(Step1(w, a.open, a.inputName), None)
      else if id == 2 then Launched(Step2(w, a.save, a.outputName), None)
      else if id == 3 then Step3(w, kind, a.outcome, a.place)
      else Launched(w, None)
  }

  /** Every click keeps the wizard well formed. */
  lemma StepClickKeepsShape(w: Wizard, id: nat, a: Answers)
    requires WellFormed(w)
    ensures WellFormed(StepClick(w, id, a).wizard)
  {
    if w.task.Some? {
      if id == 1 {
        Step1KeepsShape(w, a.open, a.inputName);
      } else if id == 2 {
        Step2KeepsShape(w, a.save, a.outputName);
      } else if id == 3 {
        Step3KeepsShape(w, w.task.value, a.outcome, a.place);
      }
    }
  }

  lemma Step1KeepsShape(w: Wizard, dialog: Result<Editor.OpenDialog>, fileName: string)
    requires WellFormed(w)
    ensures WellFormed(Step1(w, dialog, fileName))
  {
    match dialog
    case Failure(msg) => UpdateKeepsShape(w, 1, false, "Error: " + msg);
    case Success(d) =>
      UpdateKeepsShape(w, 1, false, Cancelled);
      UpdateKeepsShape(w, 1, true, fileName);
  }

  lemma Step2KeepsShape(w: Wizard, dialog: Result<Editor.SaveDialog>, fileName: string)
    requires WellFormed(w)
    ensures WellFormed(Step2(w, dialog, fileName))
  {
    if w.inputPath != "" {
      match dialog
      case Failure(msg) => UpdateKeepsShape(w, 2, false, "Error: " + msg);
      case Success(d) =>
        UpdateKeepsShape(w, 2, false, Cancelled);
        UpdateKeepsShape(w, 2, true, fileName);
    }
  }

  lemma Step3KeepsShape(w: Wizard, kind: TaskKind, outcome: Result<bool>, place: Place)
    requires WellFormed(w)
    ensures WellFormed(Step3(w, kind, outcome, place).wizard)
  {
    if outcome.Failure? {
      UpdateKeepsShape(w, 3, false, "Error: " + outcome.error);
    }
  }

  /**
   * Walking the wizard through with every dialog answered and the job
   * succeeding sends a Quick Fade job with the fixed fades for the chosen
   * files, and leaves no task behind.
   */
  lemma QuickFadeWalkthrough(w: Wizard, inPath: string, inName: string, outPath: string, outName: string, place: Place)
    requires inPath != "" && outPath != ""
    ensures var a := Answers(Success(Editor.OpenDialog(false, [inPath])), inName,
                             Success(Editor.SaveDialog(false, Some(outPath))), outName, Success(true), place);
      var w0 := Start(w, QuickFade);
      var w1 := StepClick(w0, 1, a).wizard;
      var w2 := StepClick(w1, 2, a).wizard;
      var done := StepClick(w2, 3, a);
      && Completed(w1, 1) && Completed(w2, 2)
      && done.job == Some(FadeJob(inPath, outPath, FadeSettings(6.0, 3.0, 3.0, 3.0)))
      && done.wizard.task.None? && done.wizard.steps == []
  {
    var a := Answers(Success(Editor.OpenDialog(false, [inPath])), inName,
                     Success(Editor.SaveDialog(false, Some(outPath))), outName, Success(true), place);
    var w0 := Start(w, QuickFade);
    var w1 := StepClick(w0, 1, a).wizard;
    assert w1.steps[0].id == 1 && w1.steps[0].completed;
    var w2 := StepClick(w1, 2, a).wizard;
    assert w2.steps[1].id == 2 && w2.steps[1].completed;
  }

  /** A cancelled input dialog leaves a fresh step 1 incomplete, reading "Cancelled". */
  lemma CancelledDialogLeavesIncomplete(w: Wizard, paths: seq<string>, name: string)
    requires w.steps == FreshSteps
    ensures var r := Step1(w, Success(Editor.OpenDialog(true, paths)), name);
      !r.steps[0].completed && r.steps[0].details == Cancelled && r.inputPath == w.inputPath
  {
  }

  // ------------------------------------------------------------ progress

  /** `processing-started`. */
  function OnStarted(w: Wizard): (r: Wizard)
    ensures r.isProcessing && r.progress == Percent(Js.Finite(0.0))
    ensures r.(isProcessing := w.isProcessing, progress := w.progress) == w
  {
    w.(isProcessing := true, progress := Percent(Js.Finite(0.0)))
  }

  /** `processing-cancelled`. */
  function OnCancelled(w: Wizard): (r: Wizard)
    ensures !r.isProcessing && r.progress == Percent(Js.Finite(0.0))
    ensures r.modal == Some(Editor.Modal("Processing Cancelled", "The processing was cancelled successfully.", Editor.InfoKind))
  {
    w.(isProcessing := false, progress := Percent(Js.Finite(0.0)),
       modal := Some(Editor.Modal("Processing Cancelled", "The processing was cancelled successfully.", Editor.InfoKind)))
  }

  /**
   * `processing-progress`: `progress.percent || 0`. A missing or falsy
   * percent (0, NaN, `null`, `''`, `false`) shows 0; any other value is shown
   * as it arrives; a falsy payload makes the handler throw before it changes
   * anything.
   */
  function OnProgress(w: Wizard, s: Editor.Sample): (r: Wizard)
    ensures s.NoSample? ==> r == w
    ensures s.Sample? ==> r.(progress := w.progress) == w
    ensures s.Sample? && (s.percent.Absent? || (s.percent.Num? && !s.percent.n.Truthy()) || (s.percent.NotANumber? && !s.percent.truthy)) ==>
      r.progress == Percent(Js.Finite(0.0))
    ensures s.Sample? && s.percent.Num? && s.percent.n.Truthy() ==> r.progress == Percent(s.percent.n)
    ensures s.Sample? && s.percent.NotANumber? && s.percent.truthy ==> r.progress == NonNumeric
  {
    match s
    case NoSample => w
    case Sample(Absent) => w.(progress := Percent(Js.Finite(0.0)))
    case Sample(Num(n)) => w.(progress := if n.Truthy() then Percent(n) else Percent(Js.Finite(0.0)))
    case Sample(NotANumber(truthy)) => w.(progress := if truthy then NonNumeric else Percent(Js.Finite(0.0)))
  }

  /** Unlike the editor, a NaN percent resets the display to 0 instead of keeping the previous value. */
  lemma NaNResetsHere(w: Wizard, e: Editor.State)
    ensures OnProgress(w, Editor.Sample(Editor.Num(Js.NaN))).progress == Percent(Js.Finite(0.0))
    ensures Editor.OnProgress(e, Editor.Sample(Editor.Num(Js.NaN))).progress == e.progress
  {
  }
}
