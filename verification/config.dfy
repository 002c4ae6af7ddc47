/**
 * The settings side of the main process's `ConfigManager`: executable
 * validation against a file-system oracle, list-based detection, the
 * effective engine paths, multi-key writes and the default session snapshot.
 */
module Config {
  import opened Wrappers
  import opened Session

  /** What `fs.existsSync`/`fs.statSync` report for a path; a path absent from the oracle does not exist. */
  datatype Entry = RegularFile | Directory | Unreadable

  type FileSystem = map<string, Entry>

  /** `validateFFmpegPath`: a non-empty path naming an existing regular file (a throwing `statSync` counts as invalid). */
  function ValidateFFmpegPath(path: string, fs: FileSystem): (ok: bool)
    ensures ok <==> path != "" && path in fs && fs[path] == RegularFile
  {
    if path == "" then false
    else if path !in fs then false
    else
      match fs[path]
      case RegularFile => true
      case Directory => false
      case Unreadable => false
  }

  /** The candidate lists per platform; `userFfmpeg`/`userFfprobe` are the `%USERPROFILE%` entries `path.join` builds. */
  function FfmpegCandidates(platform: string, userFfmpeg: string): seq<string> {
    if platform == "win32" then
      ["C:\\ffmpeg\\bin\\ffmpeg.exe", "C:\\Program Files\\ffmpeg\\bin\\ffmpeg.exe",
       "C:\\Program Files (x86)\\ffmpeg\\bin\\ffmpeg.exe", userFfmpeg]
    else if platform == "darwin" then
      ["/usr/local/bin/ffmpeg", "/opt/homebrew/bin/ffmpeg", "/usr/bin/ffmpeg"]
    else if platform == "linux" then
      ["/usr/bin/ffmpeg", "/usr/local/bin/ffmpeg", "/snap/bin/ffmpeg"]
    else []
  }

  function FfprobeCandidates(platform: string, userFfprobe: string): seq<string> {
    if platform == "win32" then
      ["C:\\ffmpeg\\bin\\ffprobe.exe", "C:\\Program Files\\ffmpeg\\bin\\ffprobe.exe",
       "C:\\Program Files (x86)\\ffmpeg\\bin\\ffprobe.exe", userFfprobe]
    else if platform == "darwin" then
      ["/usr/local/bin/ffprobe", "/opt/homebrew/bin/ffprobe", "/usr/bin/ffprobe"]
    else if platform == "linux" then
      ["/usr/bin/ffprobe", "/usr/local/bin/ffprobe", "/snap/bin/ffprobe"]
    else []
  }

  /** `found` sits at some index of `candidates`, validates, and no earlier candidate does. */
  predicate IsFirstValid(candidates: seq<string>, found: string, fs: FileSystem) {
    exists k :: 0 <= k < |candidates| && candidates[k] == found && ValidateFFmpegPath(found, fs) &&
      forall j :: 0 <= j < k ==> !ValidateFFmpegPath(candidates[j], fs)
  }

  /** There is only one first valid candidate, so the scan's result is determined by the list and the file system. */
  lemma FirstValidUnique(candidates: seq<string>, a: string, b: string, fs: FileSystem)
    requires IsFirstValid(candidates, a, fs) && IsFirstValid(candidates, b, fs)
    ensures a == b
  {
    var ka :| 0 <= ka < |candidates| && candidates[ka] == a && ValidateFFmpegPath(a, fs) &&
      forall j :: 0 <= j < ka ==> !ValidateFFmpegPath(candidates[j], fs);
    var kb :| 0 <= kb < |candidates| && candidates[kb] == b && ValidateFFmpegPath(b, fs) &&
      forall j :: 0 <= j < kb ==> !ValidateFFmpegPath(candidates[j], fs);
    assert !(ka < kb) && !(kb < ka);
  }

  /** The `for … of … break` loop: the first candidate that validates, or `''`. */
  method FirstValid(candidates: seq<string>, fs: FileSystem) returns (found: string)
    ensures found == "" <==> forall k :: 0 <= k < |candidates| ==> !ValidateFFmpegPath(candidates[k], fs)
    ensures found != "" ==> IsFirstValid(candidates, found, fs)
  {
    found := "";
    var i := 0;
    while i < |candidates|
      invariant 0 <= i <= |candidates|
      invariant forall j :: 0 <= j < i ==> !ValidateFFmpegPath(candidates[j], fs)
    {
      if ValidateFFmpegPath(candidates[i], fs) {
        found := candidates[i];
        return;
      }
      i := i + 1;
    }
  }

  datatype EnginePaths = EnginePaths(ffmpegPath: string, ffprobePath: string)

  /**
   * `autoDetectFFmpegPaths` as far as it decides its result: the list scans.
   * The PATH lookups it then spawns report through callbacks that run after
   * the function has returned, so they never change what it returns.
   */
  method AutoDetect(platform: string, userFfmpeg: string, userFfprobe: string, fs: FileSystem)
    returns (detected: EnginePaths)
    ensures detected.ffmpegPath != "" ==> IsFirstValid(FfmpegCandidates(platform, userFfmpeg), detected.ffmpegPath, fs)
    ensures detected.ffprobePath != "" ==> IsFirstValid(FfprobeCandidates(platform, userFfprobe), detected.ffprobePath, fs)
    ensures detected.ffmpegPath == "" <==> forall p :: p in FfmpegCandidates(platform, userFfmpeg) ==> !ValidateFFmpegPath(p, fs)
    ensures detected.ffprobePath == "" <==> forall p :: p in FfprobeCandidates(platform, userFfprobe) ==> !ValidateFFmpegPath(p, fs)
    ensures platform !in {"win32", "darwin", "linux"} ==> detected == EnginePaths("", "")
  {
    var ffmpeg := FirstValid(FfmpegCandidates(platform, userFfmpeg), fs);
    var ffprobe := FirstValid(FfprobeCandidates(platform, userFfprobe), fs);
    detected := EnginePaths(ffmpeg, ffprobe);
  }

  /** The persisted settings of the `phedit-config` store. */
  datatype Settings = Settings(
    ffmpegPath: string,
    ffprobePath: string,
    autoDetectPaths: bool,
    lastUsedDirectory: string,
    sessionState: Record)

  /** `getFFmpegPaths`, given what detection would report; detection only runs on the first branch. */
  function EffectivePaths(settings: Settings, detected: EnginePaths): (r: EnginePaths)
    ensures !settings.autoDetectPaths && settings.ffmpegPath != "" && settings.ffprobePath != "" ==>
              r == EnginePaths(settings.ffmpegPath, settings.ffprobePath)
    ensures r.ffmpegPath != "" && r.ffprobePath != ""
    ensures settings.ffmpegPath != "" ==> r.ffmpegPath == settings.ffmpegPath
    ensures settings.ffmpegPath == "" ==> r.ffmpegPath == (if detected.ffmpegPath != "" then detected.ffmpegPath else "ffmpeg")
    ensures settings.ffprobePath != "" ==> r.ffprobePath == settings.ffprobePath
    ensures settings.ffprobePath == "" ==> r.ffprobePath == (if detected.ffprobePath != "" then detected.ffprobePath else "ffprobe")
  {
    if settings.autoDetectPaths || settings.ffmpegPath == "" || settings.ffprobePath == "" then
      EnginePaths(
        if settings.ffmpegPath != "" then settings.ffmpegPath else if detected.ffmpegPath != "" then detected.ffmpegPath else "ffmpeg",
        if settings.ffprobePath != "" then settings.ffprobePath else if detected.ffprobePath != "" then detected.ffprobePath else "ffprobe")
    else
      EnginePaths(settings.ffmpegPath, settings.ffprobePath)
  }

  /** The effective paths never depend on the `autoDetectPaths` flag: a configured path always wins. */
  lemma EffectivePathsIgnoreFlag(settings: Settings, detected: EnginePaths)
    ensures EffectivePaths(settings, detected) == EffectivePaths(settings.(autoDetectPaths := true), detected)
  {
  }

  /** A settings object as sent by the renderer: only the keys it carries are written. */
  datatype SettingsPatch = SettingsPatch(
    ffmpegPath: Option<string>,
    ffprobePath: Option<string>,
    autoDetectPaths: Option<bool>,
    lastUsedDirectory: Option<string>,
    sessionState: Option<Record>)

  /** `setSettings`: `store.set` for each key present in the patch. */
  function SetSettings(store: Settings, patch: SettingsPatch): (r: Settings)
    ensures patch.ffmpegPath.Some? ==> r.ffmpegPath == patch.ffmpegPath.value
    ensures patch.ffmpegPath.None? ==> r.ffmpegPath == store.ffmpegPath
    ensures patch.ffprobePath.Some? ==> r.ffprobePath == patch.ffprobePath.value
    ensures patch.ffprobePath.None? ==> r.ffprobePath == store.ffprobePath
    ensures patch.autoDetectPaths.Some? ==> r.autoDetectPaths == patch.autoDetectPaths.value
    ensures patch.autoDetectPaths.None? ==> r.autoDetectPaths == store.autoDetectPaths
    ensures patch.lastUsedDirectory.Some? ==> r.lastUsedDirectory == patch.lastUsedDirectory.value
    ensures patch.lastUsedDirectory.None? ==> r.lastUsedDirectory == store.lastUsedDirectory
    ensures patch.sessionState.Some? ==> r.sessionState == patch.sessionState.value
    ensures patch.sessionState.None? ==> r.sessionState == store.sessionState
  {
    Settings(
      patch.ffmpegPath.GetOr(store.ffmpegPath),
      patch.ffprobePath.GetOr(store.ffprobePath),
      patch.autoDetectPaths.GetOr(store.autoDetectPaths),
      patch.lastUsedDirectory.GetOr(store.lastUsedDirectory),
      patch.sessionState.GetOr(store.sessionState))
  }

  /** Writing the same patch twice stores the same as writing it once. */
  lemma SetSettingsIdempotent(store: Settings, patch: SettingsPatch)
    ensures SetSettings(SetSettings(store, patch), patch) == SetSettings(store, patch)
  {
  }

  /** The snapshot `clearSessionState` writes (and the store's default). */
  const ClearedSession: Record := Record(
    videoFilePath := None, videoFileName := None,
    inPoint := Some(0.0), outPoint := Some(0.0),
    fadeIn := Some(0.0), fadeOut := Some(0.0), audioFadeIn := Some(0.0), audioFadeOut := Some(0.0),
    silenceAtStart := Some(0.0), blackScreenAtStart := None,
    exportQuality := None, exportSize := None, exportType := Some("video"))

  /** `clearSessionState`: only the session snapshot changes. */
  function ClearSessionState(store: Settings): (r: Settings)
    ensures r.sessionState.videoFilePath.None? && r.sessionState.videoFileName.None?
    ensures r.sessionState.inPoint == Some(0.0) && r.sessionState.outPoint == Some(0.0)
    ensures r.sessionState.fadeIn == Some(0.0) && r.sessionState.fadeOut == Some(0.0)
    ensures r.sessionState.audioFadeIn == Some(0.0) && r.sessionState.audioFadeOut == Some(0.0)
    ensures r.sessionState.silenceAtStart == Some(0.0)
    ensures r.sessionState.blackScreenAtStart.None? && r.sessionState.exportQuality.None? && r.sessionState.exportSize.None?
    ensures r.sessionState.exportType == Some("video")
    ensures r.(sessionState := store.sessionState) == store
  {
    store.(sessionState := ClearedSession)
  }

  /** The store's defaults (`new Store({ defaults })`). */
  const DefaultSettings: Settings := Settings("", "", true, "", ClearedSession)
}
