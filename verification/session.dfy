/**
 * The persisted editing session: the snapshot the renderer saves after every
 * change, and the restore data built from it. A missing key is `None`; a
 * `null` file path is `None` too, since both are falsy wherever it is read.
 */
module Session {
  import opened Wrappers

  datatype Record = Record(
    videoFilePath: Option<string>,
    videoFileName: Option<string>,
    inPoint: Option<real>,
    outPoint: Option<real>,
    fadeIn: Option<real>,
    fadeOut: Option<real>,
    audioFadeIn: Option<real>,
    audioFadeOut: Option<real>,
    silenceAtStart: Option<real>,
    blackScreenAtStart: Option<real>,
    exportQuality: Option<string>,
    exportSize: Option<real>,
    exportType: Option<string>)

  /** A record with no keys at all: `const restoreData = {}`. */
  const Empty: Record := Record(None, None, None, None, None, None, None, None, None, None, None, None, None)

  /** A file path that is a non-empty string. */
  predicate HasFile(r: Record) {
    r.videoFilePath.Some? && r.videoFilePath.value != ""
  }
}
