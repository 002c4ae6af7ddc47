/**
 * The settings panel: its local copy of the settings, the tri-state path
 * validation shown next to each engine path, and the save and reset flows
 * against the persisted store.
 */
module SettingsPanel {
  import opened Wrappers
  import Config
  import Editor

  /** `validationResults`: `None` is unchecked, otherwise the last answer. */
  datatype Validations = Validations(ffmpegPath: Option<bool>, ffprobePath: Option<bool>)

  const Unchecked: Validations := Validations(None, None)

  /**
   * The panel's state. `settings` holds exactly the keys the panel's object
   * carries: all of the store's after loading, only the four defaults after
   * a reset.
   */
  datatype Panel = Panel(settings: Config.SettingsPatch, validation: Validations, modal: Option<Editor.Modal>)

  /** `getValidationIcon` and `getValidationText`. */
  datatype Indicator = Indicator(icon: string, text: string)

  function ShowValidation(v: Option<bool>): (r: Indicator)
    ensures v.None? <==> r == Indicator("", "")
    ensures v == Some(true) <==> r == Indicator("✅", "Valid")
    ensures v == Some(false) <==> r == Indicator("❌", "Invalid path")
  {
    match v
    case None => Indicator("", "")
    case Some(ok) => if ok then Indicator("✅", "Valid") else Indicator("❌", "Invalid path")
  }

  /** The outcome of a `validate-ffmpeg-path` call; a call that throws counts as invalid. */
  function Answer(reply: Result<bool>): (ok: bool)
    ensures reply.Failure? ==> !ok
    ensures reply.Success? ==> ok == reply.value
  {
    match reply
    case Success(b) => b
    case Failure(_) => false
  }

  datatype Change =
    | FfmpegPath(path: string)
    | FfprobePath(path: string)
    | AutoDetect(on: bool)
    | LastUsedDirectory(dir: string)

  /**
   * `handleSettingChange`: the key is written; a non-empty engine path is
   * validated (`reply` is what validation answers), an emptied one becomes
   * unchecked, and other keys leave validation alone.
   */
  function ChangeSetting(p: Panel, c: Change, reply: Result<bool>): (r: Panel)
    ensures r.modal == p.modal
    ensures c.FfmpegPath? ==>
      && r.settings == p.settings.(ffmpegPath := Some(c.path))
      && r.validation == p.validation.(ffmpegPath := if c.path == "" then None else Some(Answer(reply)))
    ensures c.FfprobePath? ==>
      && r.settings == p.settings.(ffprobePath := Some(c.path))
      && r.validation == p.validation.(ffprobePath := if c.path == "" then None else Some(Answer(reply)))
    ensures c.AutoDetect? ==> r.settings == p.settings.(autoDetectPaths := Some(c.on)) && r.validation == p.validation
    ensures c.LastUsedDirectory? ==> r.settings == p.settings.(lastUsedDirectory := Some(c.dir)) && r.validation == p.validation
  {
    match c
    case FfmpegPath(path) =>
      p.(settings := p.settings.(ffmpegPath := Some(path)),
         validation := p.validation.(ffmpegPath := if path == "" then None else Some(Answer(reply))))
    case FfprobePath(path) =>
      p.(settings := p.settings.(ffprobePath := Some(path)),
         validation := p.validation.(ffprobePath := if path == "" then None else Some(Answer(reply))))
    case AutoDetect(on) => p.(settings := p.settings.(autoDetectPaths := Some(on)))
    case LastUsedDirectory(dir) => p.(settings := p.settings.(lastUsedDirectory := Some(dir)))
  }

  /** With the main process answering, the indicator says Valid exactly for an existing regular file. */
  lemma IndicatorMatchesFileSystem(p: Panel, path: string, fs: Config.FileSystem)
    requires path != ""
    ensures var r := ChangeSetting(p, FfmpegPath(path), Success(Config.ValidateFFmpegPath(path, fs)));
      ShowValidation(r.validation.ffmpegPath).text == "Valid" <==> path in fs && fs[path] == Config.RegularFile
  {
  }

  /** Every key of the store, as `get-settings` returns it. */
  function Whole(s: Config.Settings): Config.SettingsPatch {
    Config.SettingsPatch(Some(s.ffmpegPath), Some(s.ffprobePath), Some(s.autoDetectPaths), Some(s.lastUsedDirectory), Some(s.sessionState))
  }

  /** `loadSettings` on opening: the store's settings, and each non-empty path validated against `fs`. */
  function Open(p: Panel, store: Config.Settings, fs: Config.FileSystem): (r: Panel)
    ensures r.settings == Whole(store) && r.modal == p.modal
    ensures store.ffmpegPath != "" ==> r.validation.ffmpegPath == Some(Config.ValidateFFmpegPath(store.ffmpegPath, fs))
    ensures store.ffmpegPath == "" ==> r.validation.ffmpegPath == p.validation.ffmpegPath
    ensures store.ffprobePath != "" ==> r.validation.ffprobePath == Some(Config.ValidateFFmpegPath(store.ffprobePath, fs))
    ensures store.ffprobePath == "" ==> r.validation.ffprobePath == p.validation.ffprobePath
  {
    Panel(
      Whole(store),
      Validations(
        if store.ffmpegPath != "" then Some(Config.ValidateFFmpegPath(store.ffmpegPath, fs)) else p.validation.ffmpegPath,
        if store.ffprobePath != "" then Some(Config.ValidateFFmpegPath(store.ffprobePath, fs)) else p.validation.ffprobePath),
      p.modal)
  }

  /** A path is checked on save when it is set and auto-detection is off (or its key is missing). */
  predicate Checked(path: Option<string>, autoDetect: Option<bool>) {
    path.Some? && path.value != "" && !(autoDetect.Some? && autoDetect.value)
  }

  /** A checked path that does not validate. */
  predicate Fails(path: Option<string>, autoDetect: Option<bool>, fs: Config.FileSystem) {
    Checked(path, autoDetect) && !Config.ValidateFFmpegPath(path.value, fs)
  }

  const BadFfmpegModal: Editor.Modal := Editor.Modal("Invalid FFmpeg Path", "Please check the file exists and is executable.", Editor.ErrorKind)
  const BadFfprobeModal: Editor.Modal := Editor.Modal("Invalid FFprobe Path", "Please check the file exists and is executable.", Editor.ErrorKind)
  const SavedModal: Editor.Modal := Editor.Modal("Settings Saved", "Settings saved successfully!", Editor.SuccessKind)

  datatype Saved = Saved(panel: Panel, store: Config.Settings)

  /**
   * `saveSettings`: the checked paths are validated against `fs`; only when
   * none fails are the panel's keys written to the store. Each failure
   * shows its own modal, so with both failing the FFprobe one is left.
   */
  function Save(p: Panel, store: Config.Settings, fs: Config.FileSystem): (r: Saved)
    ensures var s := p.settings;
      r.store == (if Fails(s.ffmpegPath, s.autoDetectPaths, fs) || Fails(s.ffprobePath, s.autoDetectPaths, fs)
                  then store else Config.SetSettings(store, s))
    ensures var s := p.settings;
      && (Fails(s.ffprobePath, s.autoDetectPaths, fs) ==> r.panel.modal == Some(BadFfprobeModal))
      && (Fails(s.ffmpegPath, s.autoDetectPaths, fs) && !Fails(s.ffprobePath, s.autoDetectPaths, fs) ==> r.panel.modal == Some(BadFfmpegModal))
      && (!Fails(s.ffmpegPath, s.autoDetectPaths, fs) && !Fails(s.ffprobePath, s.autoDetectPaths, fs) ==> r.panel.modal == Some(SavedModal))
    ensures r.panel.settings == p.settings && r.panel.validation == p.validation
  {
    var s := p.settings;
    var m1 := if Fails(s.ffmpegPath, s.autoDetectPaths, fs) then Some(BadFfmpegModal) else p.modal;
    var m2 := if Fails(s.ffprobePath, s.autoDetectPaths, fs) then Some(BadFfprobeModal) else m1;
    if Fails(s.ffmpegPath, s.autoDetectPaths, fs) || Fails(s.ffprobePath, s.autoDetectPaths, fs) then
      Saved(p.(modal := m2), store)
    else
      Saved(p.(modal := Some(SavedModal)), Config.SetSettings(store, s))
  }

  /** With auto-detection on, saving always persists, whatever the paths are. */
  lemma AutoDetectSavesUnchecked(p: Panel, store: Config.Settings, fs: Config.FileSystem)
    requires p.settings.autoDetectPaths == Some(true)
    ensures Save(p, store, fs).store == Config.SetSettings(store, p.settings)
  {
  }

  /** The four defaults the panel resets to; there is no session key. */
  const Defaults: Config.SettingsPatch := Config.SettingsPatch(Some(""), Some(""), Some(true), Some(""), None)

  /** Reset, once confirmed: defaults and unchecked validation in the panel only. */
  function Reset(p: Panel): (r: Panel)
    ensures r.settings == Defaults && r.validation == Unchecked
    ensures r.modal == Some(Editor.Modal("Settings Reset", "All settings have been reset to defaults.", Editor.InfoKind))
  {
    Panel(Defaults, Unchecked, Some(Editor.Modal("Settings Reset", "All settings have been reset to defaults.", Editor.InfoKind)))
  }

  /** Saving after a reset writes the four defaults and leaves the stored session alone. */
  lemma SaveAfterReset(p: Panel, store: Config.Settings, fs: Config.FileSystem)
    ensures Save(Reset(p), store, fs).store
            == store.(ffmpegPath := "", ffprobePath := "", autoDetectPaths := true, lastUsedDirectory := "")
  {
  }

  /**
   * The Auto-Detect button: each detected path is applied as a change and
   * validated on its own, with `ffmpegReply` and `ffprobeReply` the main
   * process's answers for the two paths; the modal reports failure when
   * neither was found, and an error when detection itself failed.
   */
  function AutoDetectPaths(p: Panel, detected: Result<Config.EnginePaths>, ffmpegReply: Result<bool>, ffprobeReply: Result<bool>): (r: Panel)
    ensures detected.Failure? ==> r == p.(modal := Some(Editor.Modal("Auto-Detection Error", detected.error, Editor.ErrorKind)))
    ensures detected.Success? && detected.value.ffmpegPath != "" ==> r.settings.ffmpegPath == Some(detected.value.ffmpegPath)
    ensures detected.Success? && detected.value.ffmpegPath == "" ==> r.settings.ffmpegPath == p.settings.ffmpegPath
    ensures detected.Success? && detected.value.ffprobePath != "" ==> r.settings.ffprobePath == Some(detected.value.ffprobePath)
    ensures detected.Success? && detected.value.ffprobePath == "" ==> r.settings.ffprobePath == p.settings.ffprobePath
    ensures detected.Success? ==>
      && r.validation.ffmpegPath == (if detected.value.ffmpegPath != "" then Some(Answer(ffmpegReply)) else p.validation.ffmpegPath)
      && r.validation.ffprobePath == (if detected.value.ffprobePath != "" then Some(Answer(ffprobeReply)) else p.validation.ffprobePath)
    ensures detected.Success? ==>
      r.modal.Some? && (r.modal.value.title == "Auto-Detection Failed" <==> detected.value.ffmpegPath == "" && detected.value.ffprobePath == "")
  {
    match detected
    case Failure(msg) => p.(modal := Some(Editor.Modal("Auto-Detection Error", msg, Editor.ErrorKind)))
    case Success(d) =>
      var p1 := if d.ffmpegPath != "" then ChangeSetting(p, FfmpegPath(d.ffmpegPath), ffmpegReply) else p;
      var p2 := if d.ffprobePath != "" then ChangeSetting(p1, FfprobePath(d.ffprobePath), ffprobeReply) else p1;
      if d.ffmpegPath == "" && d.ffprobePath == "" then
        p2.(modal := Some(Editor.Modal("Auto-Detection Failed", "Could not auto-detect FFmpeg executables. Please set paths manually.", Editor.WarningKind)))
      else
        p2.(modal := Some(Editor.Modal("Auto-Detection Successful", DetectedList(d), Editor.SuccessKind)))
  }

  /** The body of the success modal: one line per detected path. */
  function DetectedList(d: Config.EnginePaths): string {
    var lines := (if d.ffmpegPath != "" then ["FFmpeg: " + d.ffmpegPath] else [])
               + (if d.ffprobePath != "" then ["FFprobe: " + d.ffprobePath] else []);
    "Auto-detected:\n" + (if |lines| == 2 then lines[0] + "\n" + lines[1] else if |lines| == 1 then lines[0] else "")
  }
}
