/**
 * The decoder object of VideoToFrames.java: the fields its setters and its
 * `decode`/`stopDecode` entry points update, the two searches `videoDecode`
 * makes before it configures a codec, and the arithmetic that paces decoded
 * frames against their presentation timestamps.
 */
module Decoder {
  import opened Common
  import opened Platform

  /** The output formats a decoder can be asked to produce. */
  datatype OutputImageFormat = I420 | NV21 | JPEG

  /** `MediaCodecInfo.CodecCapabilities.COLOR_FormatYUV420Flexible`. */
  const COLOR_FormatYUV420Flexible: int := 0x7F42_0888

  class VideoToFrames {
    var outputImageFormat: Option<OutputImageFormat>
    var stopDecode: bool
    var videoFilePath: Option<string>
    var childThread: Thread?
    var playSurface: Surface?
    /** How many decode threads this object has started. */
    ghost var threadsStarted: nat

    ghost predicate Valid()
      reads this
    {
      threadsStarted == if childThread == null then 0 else 1
    }

    constructor ()
      ensures Valid()
      ensures outputImageFormat == None && !stopDecode && videoFilePath == None
      ensures childThread == null && playSurface == null && threadsStarted == 0
    {
      outputImageFormat := None;
      stopDecode := false;
      videoFilePath := None;
      childThread := null;
      playSurface := null;
      threadsStarted := 0;
    }

    /** `setSaveFrames(dir, imageFormat)`: the directory argument is ignored. */
    method SetSaveFrames(dir: string, imageFormat: OutputImageFormat)
      modifies this`outputImageFormat
      ensures outputImageFormat == Some(imageFormat)
    {
      outputImageFormat := Some(imageFormat);
    }

    /** `setSurface` (and its alias `set_surfcae`): a null surface is ignored. */
    method SetSurface(surface: Surface?)
      modifies this`playSurface
      ensures surface != null ==> playSurface == surface
      ensures surface == null ==> playSurface == old(playSurface)
    {
      if surface != null {
        playSurface := surface;
      }
    }

    /** `stopDecode()` only raises the flag the decode loop polls, so calling it again changes nothing. */
    method StopDecode()
      modifies this`stopDecode
      ensures stopDecode
    {
      stopDecode := true;
    }

    /**
     * `decode(path)`: records the path and starts the decode thread unless one
     * was started before, so a decoder object never runs two threads.
     */
    method Decode(path: string) returns (started: bool)
      requires Valid()
      modifies this`videoFilePath, this`childThread, this`threadsStarted
      ensures Valid() && threadsStarted <= 1
      ensures videoFilePath == Some(path)
      ensures started <==> old(childThread) == null
      ensures started ==> fresh(childThread) && childThread.started
      ensures !started ==> childThread == old(childThread) && threadsStarted == old(threadsStarted)
    {
      videoFilePath := Some(path);
      started := childThread == null;
      if childThread == null {
        var t := new Thread();
        t.Start();
        childThread := t;
        threadsStarted := threadsStarted + 1;
      }
    }
  }

  predicate IsVideoMime(mime: string) {
    StartsWith(mime, "video/")
  }

  /** `selectTrack`: the first track whose MIME type starts with "video/", or -1. */
  method SelectTrack(mimes: seq<string>) returns (index: int)
    ensures -1 <= index < |mimes|
    ensures index >= 0 ==> IsVideoMime(mimes[index])
    ensures index >= 0 ==> forall j :: 0 <= j < index ==> !IsVideoMime(mimes[j])
    ensures index == -1 ==> forall j :: 0 <= j < |mimes| ==> !IsVideoMime(mimes[j])
  {
    var i := 0;
    while i < |mimes|
      invariant 0 <= i <= |mimes|
      invariant forall j :: 0 <= j < i ==> !IsVideoMime(mimes[j])
    {
      if IsVideoMime(mimes[i]) {
        return i;
      }
      i := i + 1;
    }
    return -1;
  }

  /** `isColorFormatSupported`: whether the codec lists the colour format among its capabilities. */
  method IsColorFormatSupported(colorFormat: int, colorFormats: seq<int>) returns (supported: bool)
    ensures supported <==> colorFormat in colorFormats
  {
    var i := 0;
    while i < |colorFormats|
      invariant 0 <= i <= |colorFormats|
      invariant colorFormat !in colorFormats[..i]
    {
      if colorFormats[i] == colorFormat {
        return true;
      }
      i := i + 1;
    }
    assert colorFormats[..i] == colorFormats;
    return false;
  }

  /** What `videoDecode` settles before it starts decoding. */
  datatype DecodePlan = DecodePlan(track: nat, colorFormat: Option<int>)

  /**
   * The decisions of `videoDecode`: without a video track it returns before
   * creating a codec; otherwise it decodes the first video track and asks for
   * the flexible YUV 4:2:0 colour format when the codec supports it.
   */
  method ConfigureDecode(mimes: seq<string>, colorFormats: seq<int>) returns (plan: Option<DecodePlan>)
    ensures plan.None? <==> forall j :: 0 <= j < |mimes| ==> !IsVideoMime(mimes[j])
    ensures plan.Some? ==> plan.value.track < |mimes| && IsVideoMime(mimes[plan.value.track])
    ensures plan.Some? ==> forall j :: 0 <= j < plan.value.track ==> !IsVideoMime(mimes[j])
    ensures plan.Some? ==>
      (plan.value.colorFormat == Some(COLOR_FormatYUV420Flexible) <==> COLOR_FormatYUV420Flexible in colorFormats)
    ensures plan.Some? ==> plan.value.colorFormat == None || plan.value.colorFormat == Some(COLOR_FormatYUV420Flexible)
  {
    var track := SelectTrack(mimes);
    if track < 0 {
      return None;
    }
    var supported := IsColorFormatSupported(COLOR_FormatYUV420Flexible, colorFormats);
    plan := Some(DecodePlan(track, if supported then Some(COLOR_FormatYUV420Flexible) else None));
  }

  // ---------------------------------------------------------------------------
  // Pacing. Each pass over the file (`decodeFramesToImage`) starts a fresh pacer.

  /**
   * `presentationTimeUs / 1000` on a Java `long`: microseconds to whole
   * milliseconds, the division truncating toward zero.
   */
  function MicrosToMillis(us: int): (ms: int)
    ensures us >= 0 ==> 0 <= ms * 1000 <= us < ms * 1000 + 1000
    ensures us < 0 ==> ms * 1000 - 1000 < us <= ms * 1000 <= 0
  {
    if us >= 0 then us / 1000 else -((-us) / 1000)
  }

  datatype Pacer = Pacer(isFirstFrame: bool, startWhen: int)

  const FreshPacer: Pacer := Pacer(true, 0)

  /**
   * One output buffer of the decoder: its size, its presentation time in
   * microseconds, and the two clock readings (milliseconds) the loop takes for
   * it, `firstClock` when it fixes the start time and `clock` when it computes
   * the sleep.
   */
  datatype OutputFrame = OutputFrame(size: int, presentationTimeUs: int, firstClock: int, clock: int)

  /** The time, relative to the pass's start, at which a frame is due. */
  function DueTime(startWhen: int, presentationTimeUs: int): int {
    startWhen + MicrosToMillis(presentationTimeUs)
  }

  /**
   * The pacer after a frame and how long the loop sleeps for it (0 when it
   * does not sleep). A non-empty frame is released at its due time, or at once
   * when it is already late; an empty one is neither paced nor released.
   */
  function PaceFrame(p: Pacer, f: OutputFrame): (r: (Pacer, int))
    ensures r.1 >= 0
    ensures f.size == 0 ==> r == (p, 0)
    ensures f.size != 0 ==> !r.0.isFirstFrame
    ensures f.size != 0 && !p.isFirstFrame ==> r.0 == p
    ensures f.size != 0 && p.isFirstFrame ==> r.0.startWhen == f.firstClock
    ensures f.size != 0 ==> f.clock + r.1 >= DueTime(r.0.startWhen, f.presentationTimeUs)
    ensures f.size != 0 ==> f.clock + r.1 == f.clock || f.clock + r.1 == DueTime(r.0.startWhen, f.presentationTimeUs)
  {
    if f.size == 0 then (p, 0)
    else
      var q := if p.isFirstFrame then Pacer(false, f.firstClock) else p;
      var sleepTime := MicrosToMillis(f.presentationTimeUs) - (f.clock - q.startWhen);
      (q, if sleepTime > 0 then sleepTime else 0)
  }

  /** The pacer after a run of output buffers. */
  function PaceAll(p: Pacer, frames: seq<OutputFrame>): Pacer
    decreases |frames|
  {
    if frames == [] then p else PaceAll(PaceFrame(p, frames[0]).0, frames[1..])
  }

  /** The index of the first non-empty output buffer, or -1. */
  function FirstNonEmpty(frames: seq<OutputFrame>): (i: int)
    ensures -1 <= i < |frames|
    ensures i >= 0 ==> frames[i].size != 0 && forall j :: 0 <= j < i ==> frames[j].size == 0
    ensures i == -1 ==> forall j :: 0 <= j < |frames| ==> frames[j].size == 0
    decreases |frames|
  {
    if frames == [] then -1
    else if frames[0].size != 0 then 0
    else
      var i := FirstNonEmpty(frames[1..]);
      if i == -1 then -1 else i + 1
  }

  /** Once a pass has seen its first frame, its start time never moves again. */
  lemma {:induction false} StartWhenSettles(p: Pacer, frames: seq<OutputFrame>)
    requires !p.isFirstFrame
    ensures PaceAll(p, frames) == p
    decreases |frames|
  {
    if frames != [] {
      StartWhenSettles(PaceFrame(p, frames[0]).0, frames[1..]);
    }
  }

  /**
   * Over a whole pass, `startWhen` is the clock reading taken at the first
   * non-empty output buffer; a pass that produced none keeps the fresh pacer.
   */
  lemma {:induction false} StartWhenIsFirstFrameClock(frames: seq<OutputFrame>)
    ensures FirstNonEmpty(frames) == -1 ==> PaceAll(FreshPacer, frames) == FreshPacer
    ensures FirstNonEmpty(frames) >= 0 ==>
      PaceAll(FreshPacer, frames) == Pacer(false, frames[FirstNonEmpty(frames)].firstClock)
    decreases |frames|
  {
    if frames != [] {
      if frames[0].size != 0 {
        StartWhenSettles(Pacer(false, frames[0].firstClock), frames[1..]);
      } else {
        StartWhenIsFirstFrameClock(frames[1..]);
      }
    }
  }
}
