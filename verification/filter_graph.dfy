/**
 * The `process-video` handler of the main process, up to the point where it
 * hands the command to the engine: an options record in, a command
 * descriptor (seek, output duration, codecs, ordered video and audio filter
 * lists) out, or the error it throws.
 */
module FilterGraph {
  import opened Wrappers
  import Js
  import Config

  /**
   * The options object after destructuring. A key the renderer did not send
   * is `None`; `silenceAtStart`, `blackScreenAtStart`, `exportQuality`,
   * `exportSize` and `exportType` then take their destructuring defaults.
   */
  datatype Options = Options(
    inputPath: string,
    outputPath: string,
    startTime: Option<real>,
    duration: Option<real>,
    fadeIn: Option<real>,
    fadeOut: Option<real>,
    audioFadeIn: Option<real>,
    audioFadeOut: Option<real>,
    silenceAtStart: Option<real>,
    blackScreenAtStart: Option<real>,
    exportQuality: Option<string>,
    exportSize: Option<real>,
    exportType: Option<string>)

  datatype FadeDirection = In | Out

  /**
   * A filter start time is `None` when the source computes it from an
   * undefined `duration` (`undefined - x` is `NaN`).
   */
  datatype VideoFilter =
    | Tpad(startDuration: real)
    | Fade(direction: FadeDirection, start: Option<real>, length: real)
    | Scale(factor: real)

  /** `adelay=N|N` delays both channels by `millis`. */
  datatype AudioFilter =
    | Adelay(millis: int)
    | Afade(direction: FadeDirection, start: Option<real>, length: real)

  datatype VideoEncoding = VideoEncoding(codec: string, bitrateKbps: nat)

  /**
   * What the fluent-ffmpeg command is configured with. An empty filter list
   * means the corresponding `videoFilters`/`audioFilters` call is not made.
   */
  datatype Command = Command(
    input: string,
    output: string,
    ffmpegPath: Option<string>,
    ffprobePath: Option<string>,
    seek: Option<real>,
    outputDuration: Option<real>,
    videoEncoding: Option<VideoEncoding>,
    noVideo: bool,
    audioCodec: Option<string>,
    videoFilters: seq<VideoFilter>,
    audioFilters: seq<AudioFilter>)

  /** `x > 0` on a value that may be `undefined` (`undefined > 0` is false). */
  predicate Positive(x: Option<real>) {
    x.Some? && x.value > 0.0
  }

  function Silence(o: Options): real { o.silenceAtStart.GetOr(0.0) }
  function Black(o: Options): real { o.blackScreenAtStart.GetOr(0.0) }
  function Quality(o: Options): string { o.exportQuality.GetOr("high") }
  function Size(o: Options): real { o.exportSize.GetOr(100.0) }
  function ExportType(o: Options): string { o.exportType.GetOr("video") }

  /** `x + base` where `base` may be undefined. */
  function Plus(x: real, base: Option<real>): Option<real> {
    match base
    case Some(b) => Some(x + b)
    case None => None
  }

  /** `base - x` where `base` may be undefined. */
  function Minus(base: Option<real>, x: real): Option<real> {
    match base
    case Some(b) => Some(b - x)
    case None => None
  }

  /** `Math.round(seconds * 1000)`. */
  function Millis(seconds: real): (ms: int)
    ensures seconds * 1000.0 - 0.5 < ms as real <= seconds * 1000.0 + 0.5
  {
    Js.Round(seconds * 1000.0)
  }

  /** The video bitrate tier for the `exportQuality` switch. */
  function BitrateKbps(quality: string): (kbps: nat)
    ensures quality == "low" ==> kbps == 800
    ensures quality == "medium" ==> kbps == 2000
    ensures quality != "low" && quality != "medium" ==> kbps == 4000
  {
    match quality
    case "low" => 800
    case "medium" => 2000
    case _ => 4000
  }

  /** The `adelay` that holds the audio back by the lead-in silence. */
  function AudioDelayPart(o: Options): seq<AudioFilter> {
    if Silence(o) > 0.0 then [Adelay(Millis(Silence(o)))] else []
  }

  /** The audio fade-in, starting when the silence ends. */
  function AudioFadeInPart(o: Options): seq<AudioFilter> {
    if Positive(o.audioFadeIn) then [Afade(In, Some(Silence(o)), o.audioFadeIn.value)] else []
  }

  /** The audio fade-out, ending at the clip's duration. */
  function AudioFadeOutPart(o: Options): seq<AudioFilter> {
    if Positive(o.audioFadeOut) then [Afade(Out, Minus(o.duration, o.audioFadeOut.value), o.audioFadeOut.value)] else []
  }

  /** The trailing delay a video export adds for its black-screen tail. */
  function AudioTailPart(o: Options, videoExport: bool): seq<AudioFilter> {
    if videoExport && Black(o) > 0.0 then [Adelay(Millis(Black(o)))] else []
  }

  /** The audio chain shared by both export types: lead-in silence, fade-in, fade-out. */
  function CoreAudioChain(o: Options): seq<AudioFilter> {
    AudioDelayPart(o) + AudioFadeInPart(o) + AudioFadeOutPart(o)
  }

  /** The audio filters of an export; a video export appends the black-screen delay. */
  function AudioChain(o: Options, videoExport: bool): seq<AudioFilter> {
    CoreAudioChain(o) + AudioTailPart(o, videoExport)
  }

  /** The video filters of a video export: black lead-in, fades, then scaling. */
  function VideoChain(o: Options): seq<VideoFilter> {
    PadPart(o) + FadePart(o) + ScalePart(o)
  }

  /** Engine executables are set only when they differ from the bare command names. */
  function EngineOverride(path: string, bare: string): Option<string> {
    if path != "" && path != bare then Some(path) else None
  }

  /** The `process-video` handler: the thrown error, or the command it runs. */
  function Compile(o: Options, paths: Config.EnginePaths): (r: Result<Command>)
    ensures o.inputPath == "" ==> r == Failure("Input path is required")
    ensures o.inputPath != "" && o.outputPath == "" ==> r == Failure("Output path is required")
    ensures r.Success? <==> o.inputPath != "" && o.outputPath != ""
    ensures r.Success? ==> r.value.input == o.inputPath && r.value.output == o.outputPath
    ensures r.Success? ==> (r.value.seek.Some? <==> Positive(o.startTime))
    ensures r.Success? && r.value.seek.Some? ==> r.value.seek == o.startTime
    ensures r.Success? ==> (r.value.outputDuration.Some? <==> Positive(o.duration))
    ensures r.Success? && r.value.outputDuration.Some? ==> r.value.outputDuration == o.duration
  {
    if o.inputPath == "" then Failure("Input path is required")
    else if o.outputPath == "" then Failure("Output path is required")
    else
      var kind := ExportType(o);
      var audioOnly := kind == "audio";
      Success(Command(
        input := o.inputPath,
        output := o.outputPath,
        ffmpegPath := EngineOverride(paths.ffmpegPath, "ffmpeg"),
        ffprobePath := EngineOverride(paths.ffprobePath, "ffprobe"),
        seek := if Positive(o.startTime) then o.startTime else None,
        outputDuration := if Positive(o.duration) then o.duration else None,
        videoEncoding := if kind == "video" then Some(VideoEncoding("libx264", BitrateKbps(Quality(o)))) else None,
        noVideo := audioOnly,
        audioCodec := if audioOnly then Some("pcm_s16le") else None,
        videoFilters := if audioOnly then [] else VideoChain(o),
        audioFilters := AudioChain(o, !audioOnly)))
  }

  /** Codec table: libx264 at the quality's bitrate for video; no video and PCM16 for audio, whatever the quality. */
  lemma CodecSelection(o: Options, paths: Config.EnginePaths)
    requires o.inputPath != "" && o.outputPath != ""
    ensures var c := Compile(o, paths).value;
      && (ExportType(o) == "video" ==>
            c.videoEncoding == Some(VideoEncoding("libx264", if Quality(o) == "low" then 800
                                                              else if Quality(o) == "medium" then 2000 else 4000))
            && !c.noVideo && c.audioCodec.None?)
      && (ExportType(o) == "audio" ==>
            c.videoEncoding.None? && c.noVideo && c.audioCodec == Some("pcm_s16le") && c.videoFilters == [])
  {
  }

  /** The start of the clip's content in the output: after the black pad, if any. */
  function ContentOffset(o: Options): real {
    if Black(o) > 0.0 then Black(o) else 0.0
  }

  /** The four optional segments of the video chain, in order. */
  function PadPart(o: Options): seq<VideoFilter> {
    if Black(o) > 0.0 then [Tpad(Black(o))] else []
  }

  function FadePart(o: Options): seq<VideoFilter> {
    (if Positive(o.fadeIn) then [Fade(In, Some(ContentOffset(o)), o.fadeIn.value)] else [])
    + (if Positive(o.fadeOut) then
         [Fade(Out, if Black(o) > 0.0 then Minus(Plus(Black(o), o.duration), o.fadeOut.value)
                    else Minus(o.duration, o.fadeOut.value), o.fadeOut.value)]
       else [])
  }

  function ScalePart(o: Options): seq<VideoFilter> {
    if Size(o) != 100.0 then [Scale(Size(o) / 100.0)] else []
  }

  /**
   * A video fade is anchored to the content window `[offset, offset + duration]`
   * and lasts its configured length: `inLength` for a fade-in, `outLength`
   * for a fade-out.
   */
  predicate Anchored(f: VideoFilter, offset: real, duration: Option<real>, inLength: real, outLength: real) {
    && (f.Fade? && f.direction == In ==> f.start == Some(offset) && f.length == inLength)
    && (f.Fade? && f.direction == Out ==>
          && f.length == outLength
          && (f.start.Some? <==> duration.Some?)
          && (f.start.Some? ==> f.start.value + f.length == offset + duration.value))
  }

  /** Among the filters of `v`, a fade-in can only precede a fade-out: at most one of each, in that order. */
  predicate FadesInThenOut(v: seq<VideoFilter>) {
    forall i, j :: 0 <= i < j < |v| && v[i].Fade? && v[j].Fade? ==> v[i].direction == In && v[j].direction == Out
  }

  /** The audio counterpart of `FadesInThenOut`. */
  predicate AfadesInThenOut(a: seq<AudioFilter>) {
    forall i, j :: 0 <= i < j < |a| && a[i].Afade? && a[j].Afade? ==> a[i].direction == In && a[j].direction == Out
  }

  /**
   * Ordering of the video chain: the black pad, present iff the black screen
   * is positive, comes first and nowhere else; scaling, present iff the size
   * is not 100, comes last and nowhere else; at most one fade-in and one
   * fade-out lie between them, the fade-in first.
   */
  lemma VideoChainOrder(o: Options)
    ensures var v := VideoChain(o);
      && (Black(o) > 0.0 <==> (|v| > 0 && v[0] == Tpad(Black(o))))
      && (forall k :: 0 < k < |v| ==> !v[k].Tpad?)
      && (Size(o) != 100.0 <==> (|v| > 0 && v[|v| - 1] == Scale(Size(o) / 100.0)))
      && (forall k :: 0 <= k < |v| - 1 ==> !v[k].Scale?)
      && FadesInThenOut(v)
  {
    var v := VideoChain(o);
    var p, f, c := PadPart(o), FadePart(o), ScalePart(o);
    assert forall k :: |p| <= k < |p| + |f| ==> v[k] == f[k - |p|];
    assert forall k :: |p| + |f| <= k < |v| ==> v[k] == c[k - |p| - |f|];
    VideoFadeOrder(o);
  }

  /** The fades of the video chain: a fade-in, if any, before a fade-out, if any. */
  lemma VideoFadeOrder(o: Options)
    ensures FadesInThenOut(VideoChain(o))
  {
    var v := VideoChain(o);
    var p, f, c := PadPart(o), FadePart(o), ScalePart(o);
    assert forall k :: 0 <= k < |v| && v[k].Fade? ==> |p| <= k < |p| + |f|;
    assert |f| == 2 ==> f[0].direction == In && f[1].direction == Out;
  }

  /**
   * Timing of the video fades: a fade-in (iff its length is positive) starts
   * where the clip content starts, and a fade-out (iff its length is
   * positive) ends where the content ends, or has an undefined start when
   * the duration is undefined; each lasts its configured length.
   */
  lemma VideoFadeTiming(o: Options)
    ensures var v := VideoChain(o);
      && (Positive(o.fadeIn) <==> Fade(In, Some(ContentOffset(o)), o.fadeIn.GetOr(0.0)) in v)
      && (Positive(o.fadeIn) <==> exists f :: f in v && f.Fade? && f.direction == In)
      && (Positive(o.fadeOut) <==> exists f :: f in v && f.Fade? && f.direction == Out)
      && (forall f :: f in v ==> Anchored(f, ContentOffset(o), o.duration, o.fadeIn.GetOr(0.0), o.fadeOut.GetOr(0.0)))
  {
    var v := VideoChain(o);
    var p, f, c := PadPart(o), FadePart(o), ScalePart(o);
    assert forall g :: g in v <==> (g in p || g in f || g in c);
    if Positive(o.fadeIn) {
      assert f[0] in v;
    }
    if Positive(o.fadeOut) {
      assert f[|f| - 1] in v;
    }
  }

  /**
   * The audio chain: the silence delay first (iff silence is positive), the
   * fade-in at the end of the silence, the fade-out ending at the clip's
   * duration (unshifted by silence or black), and no other delay except the
   * black-screen one, which only a video export appends, last; each fade
   * lasts its configured length, and a fade-in precedes a fade-out.
   */
  lemma AudioChainShape(o: Options, videoExport: bool)
    ensures var a := AudioChain(o, videoExport); var s := Silence(o);
      && (s > 0.0 ==> a[0] == Adelay(Millis(s)))
      && (videoExport && Black(o) > 0.0 ==> a[|a| - 1] == Adelay(Millis(Black(o))))
      && (forall k :: 0 <= k < |a| && a[k].Adelay? ==>
            || (k == 0 && s > 0.0 && a[k] == Adelay(Millis(s)))
            || (k == |a| - 1 && videoExport && Black(o) > 0.0 && a[k] == Adelay(Millis(Black(o)))))
      && (Positive(o.audioFadeIn) <==> Afade(In, Some(s), o.audioFadeIn.GetOr(0.0)) in a)
      && (forall f :: f in a && f.Afade? && f.direction == In ==> f.start == Some(s) && f.length == o.audioFadeIn.GetOr(0.0))
      && (Positive(o.audioFadeOut) <==> exists f :: f in a && f.Afade? && f.direction == Out)
      && (forall f :: f in a && f.Afade? && f.direction == Out ==>
            && f.length == o.audioFadeOut.GetOr(0.0)
            && (f.start.Some? <==> o.duration.Some?)
            && (f.start.Some? ==> f.start.value + f.length == o.duration.value))
      && AfadesInThenOut(a)
  {
    AudioChainDelays(o, videoExport);
    AudioChainFades(o, videoExport);
    AudioFadeOrder(o, videoExport);
  }

  /** The fades of the audio chain: a fade-in, if any, before a fade-out, if any. */
  lemma AudioFadeOrder(o: Options, videoExport: bool)
    ensures AfadesInThenOut(AudioChain(o, videoExport))
  {
    var d, fin, fout, tail := AudioDelayPart(o), AudioFadeInPart(o), AudioFadeOutPart(o), AudioTailPart(o, videoExport);
    AudioChainParts(o, videoExport);
    var a := AudioChain(o, videoExport);
    assert forall k :: 0 <= k < |a| && a[k].Afade? ==> |d| <= k < |d| + |fin| + |fout|;
    assert forall k :: |d| <= k < |d| + |fin| ==> a[k] == fin[k - |d|];
    assert forall k :: |d| + |fin| <= k < |d| + |fin| + |fout| ==> a[k] == fout[k - |d| - |fin|];
  }

  /** The audio chain as its four optional parts, in order. */
  lemma AudioChainParts(o: Options, videoExport: bool)
    ensures AudioChain(o, videoExport) == AudioDelayPart(o) + AudioFadeInPart(o) + AudioFadeOutPart(o) + AudioTailPart(o, videoExport)
  {
  }

  /** Only the leading silence and the trailing black-screen delay are delays. */
  lemma AudioChainDelays(o: Options, videoExport: bool)
    ensures var a := AudioChain(o, videoExport); var s := Silence(o);
      && (s > 0.0 ==> a[0] == Adelay(Millis(s)))
      && (videoExport && Black(o) > 0.0 ==> a[|a| - 1] == Adelay(Millis(Black(o))))
      && (forall k :: 0 <= k < |a| && a[k].Adelay? ==>
            || (k == 0 && s > 0.0 && a[k] == Adelay(Millis(s)))
            || (k == |a| - 1 && videoExport && Black(o) > 0.0 && a[k] == Adelay(Millis(Black(o)))))
  {
    var d, fin, fout, tail := AudioDelayPart(o), AudioFadeInPart(o), AudioFadeOutPart(o), AudioTailPart(o, videoExport);
    AudioChainParts(o, videoExport);
    var a := AudioChain(o, videoExport);
    assert forall k :: |d| <= k < |d| + |fin| + |fout| ==> !a[k].Adelay?;
  }

  /**
   * The fade-in starts where the silence ends; the fade-out ends at the
   * clip's duration; each lasts its configured length.
   */
  lemma AudioChainFades(o: Options, videoExport: bool)
    ensures var a := AudioChain(o, videoExport); var s := Silence(o);
      && (Positive(o.audioFadeIn) <==> Afade(In, Some(s), o.audioFadeIn.GetOr(0.0)) in a)
      && (forall f :: f in a && f.Afade? && f.direction == In ==> f.start == Some(s) && f.length == o.audioFadeIn.GetOr(0.0))
      && (Positive(o.audioFadeOut) <==> exists f :: f in a && f.Afade? && f.direction == Out)
      && (forall f :: f in a && f.Afade? && f.direction == Out ==>
            && f.length == o.audioFadeOut.GetOr(0.0)
            && (f.start.Some? <==> o.duration.Some?)
            && (f.start.Some? ==> f.start.value + f.length == o.duration.value))
  {
    var d, fin, fout, tail := AudioDelayPart(o), AudioFadeInPart(o), AudioFadeOutPart(o), AudioTailPart(o, videoExport);
    AudioChainParts(o, videoExport);
    var a := AudioChain(o, videoExport);
    assert forall f :: f in a <==> (f in d || f in fin || f in fout || f in tail);
  }

  /** The audio-only chain is the video export's chain without the trailing black-screen delay. */
  lemma AudioOnlyDropsBlackDelay(o: Options)
    ensures AudioChain(o, true) == AudioChain(o, false) + (if Black(o) > 0.0 then [Adelay(Millis(Black(o)))] else [])
  {
  }

  /** Zero or absent fade-outs emit no fade-out filter in either list, whatever the duration. */
  lemma NoFadeOutWithoutFadeOut(o: Options, paths: Config.EnginePaths)
    requires o.inputPath != "" && o.outputPath != ""
    requires !Positive(o.fadeOut) && !Positive(o.audioFadeOut)
    ensures forall f :: f in Compile(o, paths).value.videoFilters ==> !(f.Fade? && f.direction == Out)
    ensures forall f :: f in Compile(o, paths).value.audioFilters ==> !(f.Afade? && f.direction == Out)
  {
    VideoFadeTiming(o);
    AudioChainShape(o, ExportType(o) != "audio");
  }
}
