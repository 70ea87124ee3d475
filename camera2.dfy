/**
 * The Camera2 hooks of Camera2Hook.java. The application's capture targets
 * are routed onto one shared virtual surface: `addTarget` remembers up to two
 * ImageReader targets and two preview targets in the four slots of
 * `HookMain` and hands the camera the virtual surface instead, `build` starts
 * a decoder for each remembered reader and a looping player for each
 * remembered preview, `onOpened` tears all of that down and makes a new
 * virtual surface, and the session-creation hooks replace the application's
 * output list by the virtual surface alone.
 */
module Camera2Hook {
  import opened Common
  import opened Platform
  import opened Decoder
  import opened HookState

  /** The text `Surface.toString()` of an ImageReader's surface contains. */
  const READER_MARKER: string := "Surface(name=null)"

  /** The texture name of the virtual surface's `SurfaceTexture`. */
  const VIRTUAL_TEXTURE_NAME: int := 15

  /** `ImageFormat.JPEG`, the reader format for which frames are produced as JPEG. */
  const JPEG_READER_FORMAT: int := 256

  // ---------------------------------------------------------------------------
  // Opening the camera
  // ---------------------------------------------------------------------------

  /**
   * `CameraManager.openCamera(id, callback, handler)`. A null callback or the
   * one seen last changes nothing. Any other is recorded, with its class,
   * before the flag checks; when the checks pass the next `build` counts as
   * the first and the `onOpened` hooks are installed on that class (the
   * result).
   */
  method OpenCamera(st: HookMain, callback: CameraStateCallback?, disabled: bool, hasVideo: bool)
    returns (hooked: bool)
    modifies st`c2_state_cb, st`c2_state_callback, st`is_first_hook_build
    ensures hooked <==> callback != null && callback != old(st.c2_state_cb) && !disabled && hasVideo
    ensures callback == null || callback == old(st.c2_state_cb) ==> unchanged(st)
    ensures callback != null && callback != old(st.c2_state_cb) ==>
      st.c2_state_cb == callback && st.c2_state_callback == Some(callback.className)
    ensures st.is_first_hook_build == (hooked || old(st.is_first_hook_build))
  {
    hooked := false;
    if callback == null || callback == st.c2_state_cb {
      return;
    }
    st.c2_state_cb := callback;
    st.c2_state_callback := Some(callback.className);
    if disabled || !hasVideo {
      return;
    }
    st.is_first_hook_build := true;
    hooked := true;
  }

  /**
   * `CameraManager.openCamera(id, executor, callback)`, hooked after the call.
   * Like `OpenCamera`, except that the callback's class is recorded only once
   * the flag checks have passed.
   */
  method OpenCameraWithExecutor(st: HookMain, callback: CameraStateCallback?, disabled: bool, hasVideo: bool)
    returns (hooked: bool)
    modifies st`c2_state_cb, st`c2_state_callback, st`is_first_hook_build
    ensures hooked <==> callback != null && callback != old(st.c2_state_cb) && !disabled && hasVideo
    ensures callback == null || callback == old(st.c2_state_cb) ==> unchanged(st)
    ensures callback != null && callback != old(st.c2_state_cb) ==> st.c2_state_cb == callback
    ensures st.c2_state_callback == if hooked then Some(callback.className) else old(st.c2_state_callback)
    ensures st.is_first_hook_build == (hooked || old(st.is_first_hook_build))
  {
    hooked := false;
    if callback == null || callback == st.c2_state_cb {
      return;
    }
    st.c2_state_cb := callback;
    if disabled || !hasVideo {
      return;
    }
    st.c2_state_callback := Some(callback.className);
    st.is_first_hook_build := true;
    hooked := true;
  }

  // ---------------------------------------------------------------------------
  // The virtual surface and the tracked slots
  // ---------------------------------------------------------------------------

  /**
   * The virtual surface is never one of the tracked targets, so no decoder or
   * player started by `build` ever draws into the surface the camera itself
   * renders to.
   */
  ghost predicate VirtualUntracked(st: HookMain)
    reads st
  {
    var v := st.c2_virtual_surface;
    v == null ||
    (st.c2_reader_Surfcae != v && st.c2_reader_Surfcae_1 != v &&
     st.c2_preview_Surfcae != v && st.c2_preview_Surfcae_1 != v)
  }

  /**
   * The two reader decoders are two objects and so are the two preview
   * players: each is made by its own `new`, and `onOpened` forgets them all,
   * so stopping or releasing one slot's object never touches the other's.
   */
  ghost predicate PlaybackApart(st: HookMain)
    reads st
  {
    && (st.c2_hw_decode_obj == null || st.c2_hw_decode_obj != st.c2_hw_decode_obj_1)
    && (st.c2_player == null || st.c2_player != st.c2_player_1)
  }

  /**
   * `createVirtualSurface`. With `need_recreate` set it releases the old
   * texture and surface and makes a new surface on a new texture named 15;
   * without it, a missing surface sets `need_recreate` and starts over, and an
   * existing one is returned as it is.
   */
  method CreateVirtualSurface(st: HookMain) returns (surface: Surface)
    requires VirtualUntracked(st)
    modifies st`need_recreate, st`c2_virtual_surface, st`c2_virtual_surfaceTexture
    modifies st.c2_virtual_surface, st.c2_virtual_surfaceTexture
    ensures VirtualUntracked(st)
    ensures !st.need_recreate && st.c2_virtual_surface == surface
    ensures var made := old(st.need_recreate) || old(st.c2_virtual_surface) == null;
      && (made ==>
            && fresh(surface) && fresh(st.c2_virtual_surfaceTexture)
            && surface.texture == st.c2_virtual_surfaceTexture && surface.valid && !surface.released
            && st.c2_virtual_surfaceTexture.texName == VIRTUAL_TEXTURE_NAME && !st.c2_virtual_surfaceTexture.released
            && (old(st.c2_virtual_surface) != null ==> old(st.c2_virtual_surface).released)
            && (old(st.c2_virtual_surfaceTexture) != null ==> old(st.c2_virtual_surfaceTexture).released))
      && (!made ==> unchanged(st) && st.c2_virtual_surface == old(st.c2_virtual_surface))
    decreases if st.need_recreate then 0 else 1
  {
    if st.need_recreate {
      if st.c2_virtual_surfaceTexture != null {
        st.c2_virtual_surfaceTexture.Release();
        st.c2_virtual_surfaceTexture := null;
      }
      if st.c2_virtual_surface != null {
        st.c2_virtual_surface.Release();
        st.c2_virtual_surface := null;
      }
      var texture := new SurfaceTexture(VIRTUAL_TEXTURE_NAME);
      st.c2_virtual_surfaceTexture := texture;
      surface := new Surface.FromTexture(texture);
      st.c2_virtual_surface := surface;
      st.need_recreate := false;
    } else if st.c2_virtual_surface == null {
      st.need_recreate := true;
      surface := CreateVirtualSurface(st);
    } else {
      surface := st.c2_virtual_surface;
    }
  }

  /** The pair of slots one role of target is remembered in. */
  datatype Slots = Slots(first: Surface?, second: Surface?)

  /**
   * Remembering a target in a pair of slots: the first slot if it is empty,
   * else the second if it is empty and the target is not already in the first.
   */
  function Track(slots: Slots, target: Surface): (r: Slots)
    // an occupied slot is never overwritten
    ensures slots.first != null ==> r.first == slots.first
    ensures slots.second != null ==> r.second == slots.second
    // at most one slot changes, and the one that does now holds the target
    ensures r.first != slots.first ==> r.first == target && r.second == slots.second
    ensures r.second != slots.second ==> r.second == target && r.first == slots.first
    // the first slot is always taken afterwards
    ensures r.first != null
    // a target already in the first slot is not copied into the second
    ensures slots.first == target ==> r == slots
    // the target is remembered unless both slots were taken by other surfaces
    ensures (r.first == target || r.second == target) <==>
      (slots.first == null || slots.second == null || slots.first == target || slots.second == target)
  {
    if slots.first == null then Slots(target, slots.second)
    else if slots.first != target && slots.second == null then Slots(slots.first, target)
    else slots
  }

  /** Forgetting a target: every slot holding it is emptied, the others keep their surface. */
  function Untrack(slots: Slots, target: Surface): (r: Slots)
    ensures r.first != target && r.second != target
    ensures slots.first != target ==> r.first == slots.first
    ensures slots.second != target ==> r.second == slots.second
    ensures slots.first == target ==> r.first == null
    ensures slots.second == target ==> r.second == null
  {
    Slots(if slots.first == target then null else slots.first,
          if slots.second == target then null else slots.second)
  }

  /** Remembering a target that is already remembered changes nothing. */
  lemma TrackIdempotent(slots: Slots, target: Surface)
    ensures Track(Track(slots, target), target) == Track(slots, target)
  {
  }

  /** Forgetting then remembering a target held only in the first slot restores the slots. */
  lemma UntrackTrackFirst(slots: Slots, target: Surface)
    requires slots.first == target && slots.second != target
    ensures Track(Untrack(slots, target), target) == slots
  {
  }

  /**
   * The first slot is the only guard against a duplicate: once the surface in
   * the first slot is removed, re-adding a surface held in the second slot
   * puts it in both.
   */
  lemma DuplicateAfterRemove(slots: Slots, other: Surface, target: Surface)
    requires slots == Slots(other, target) && other != target
    ensures Track(Untrack(slots, other), target) == Slots(target, target)
  {
  }

  /** An ImageReader's surface, recognised by the text of its `toString()`. */
  predicate IsReaderSurface(surface: Surface) {
    Contains(surface.description, READER_MARKER)
  }

  function ReaderSlots(st: HookMain): Slots
    reads st
  {
    Slots(st.c2_reader_Surfcae, st.c2_reader_Surfcae_1)
  }

  function PreviewSlots(st: HookMain): Slots
    reads st
  {
    Slots(st.c2_preview_Surfcae, st.c2_preview_Surfcae_1)
  }

  /**
   * The `CaptureRequest.Builder.addTarget` hook. A null target, a missing
   * video, the virtual surface itself or the disabled flag leave the target
   * and the state alone. Otherwise the target is remembered among the
   * readers or the previews, by its description, and the camera is given the
   * virtual surface instead.
   */
  method AddTarget(st: HookMain, target: Surface?, hasVideo: bool, disabled: bool) returns (arg: Surface?)
    requires VirtualUntracked(st)
    modifies st`c2_reader_Surfcae, st`c2_reader_Surfcae_1, st`c2_preview_Surfcae, st`c2_preview_Surfcae_1
    ensures VirtualUntracked(st)
    ensures var routed := target != null && hasVideo && target != st.c2_virtual_surface && !disabled;
      && (!routed ==> arg == target && unchanged(st))
      && (routed ==> arg == st.c2_virtual_surface)
      && (routed && IsReaderSurface(target) ==>
            ReaderSlots(st) == Track(old(ReaderSlots(st)), target) && PreviewSlots(st) == old(PreviewSlots(st)))
      && (routed && !IsReaderSurface(target) ==>
            PreviewSlots(st) == Track(old(PreviewSlots(st)), target) && ReaderSlots(st) == old(ReaderSlots(st)))
  {
    if target == null || !hasVideo || target == st.c2_virtual_surface || disabled {
      return target;
    }
    if IsReaderSurface(target) {
      var slots := Track(ReaderSlots(st), target);
      st.c2_reader_Surfcae, st.c2_reader_Surfcae_1 := slots.first, slots.second;
    } else {
      var slots := Track(PreviewSlots(st), target);
      st.c2_preview_Surfcae, st.c2_preview_Surfcae_1 := slots.first, slots.second;
    }
    arg := st.c2_virtual_surface;
  }

  /**
   * The `CaptureRequest.Builder.removeTarget` hook: unless the target is null,
   * the video is missing or the hooks are disabled, every slot holding the
   * target is emptied. The target itself is passed on unchanged.
   */
  method RemoveTarget(st: HookMain, target: Surface?, hasVideo: bool, disabled: bool)
    requires VirtualUntracked(st)
    modifies st`c2_reader_Surfcae, st`c2_reader_Surfcae_1, st`c2_preview_Surfcae, st`c2_preview_Surfcae_1
    ensures VirtualUntracked(st)
    ensures target == null || !hasVideo || disabled ==> unchanged(st)
    ensures target != null && hasVideo && !disabled ==>
      && ReaderSlots(st) == Untrack(old(ReaderSlots(st)), target)
      && PreviewSlots(st) == Untrack(old(PreviewSlots(st)), target)
  {
    if target == null || !hasVideo || disabled {
      return;
    }
    var previews := Untrack(PreviewSlots(st), target);
    var readers := Untrack(ReaderSlots(st), target);
    st.c2_preview_Surfcae, st.c2_preview_Surfcae_1 := previews.first, previews.second;
    st.c2_reader_Surfcae, st.c2_reader_Surfcae_1 := readers.first, readers.second;
  }

  // ---------------------------------------------------------------------------
  // Playing into the tracked targets
  // ---------------------------------------------------------------------------

  /** The decoder output format for the reader format the application last asked for. */
  function ReaderFormat(imageReaderFormat: int): OutputImageFormat {
    if imageReaderFormat == JPEG_READER_FORMAT then JPEG else NV21
  }

  /** A decoder set up by `processCamera2Play` and decoding into `target`. */
  ghost predicate DecodingInto(decoder: VideoToFrames, target: Surface, format: OutputImageFormat, path: string)
    reads decoder, decoder.childThread
  {
    && decoder.outputImageFormat == Some(format) && decoder.playSurface == target
    && decoder.videoFilePath == Some(path) && !decoder.stopDecode
    && decoder.childThread != null && decoder.childThread.started
  }

  /** A player set up by `processCamera2Play` and looping the video on `target`. */
  ghost predicate PlayingOn(player: MediaPlayer, target: Surface, noSilent: bool, path: string)
    reads player
  {
    && player.surface == target && player.looping && player.dataSource == path
    && player.muted == !noSilent && !player.released
  }

  /** A new decoder of the video at `path`, in `format`, drawing into `target`. */
  method NewReaderDecoder(target: Surface, format: OutputImageFormat, path: string) returns (decoder: VideoToFrames)
    ensures fresh(decoder) && fresh(decoder.childThread)
    ensures DecodingInto(decoder, target, format, path)
  {
    decoder := new VideoToFrames();
    decoder.SetSaveFrames("null", format);
    decoder.SetSurface(target);
    var _ := decoder.Decode(path);
  }

  /** A new player looping the video at `path` on `target`, silenced unless `noSilent`. */
  method NewPreviewPlayer(target: Surface, noSilent: bool, path: string) returns (player: MediaPlayer)
    ensures fresh(player)
    ensures PlayingOn(player, target, noSilent, path)
  {
    player := new MediaPlayer();
    player.SetSurface(target);
    if !noSilent {
      player.Mute();
    }
    player.SetLooping(true);
    player.SetDataSource(path);
  }

  /** The reader half of `processCamera2Play`: a new decoder for each remembered reader. */
  method PlayReaders(st: HookMain, format: OutputImageFormat, path: string)
    requires PlaybackApart(st)
    modifies st`c2_hw_decode_obj, st`c2_hw_decode_obj_1, st.c2_hw_decode_obj, st.c2_hw_decode_obj_1
    ensures PlaybackApart(st)
    ensures st.c2_reader_Surfcae == null ==>
      st.c2_hw_decode_obj == old(st.c2_hw_decode_obj) && (st.c2_hw_decode_obj != null ==> unchanged(st.c2_hw_decode_obj))
    ensures st.c2_reader_Surfcae != null ==>
      && (old(st.c2_hw_decode_obj) != null ==> old(st.c2_hw_decode_obj).stopDecode)
      && fresh(st.c2_hw_decode_obj) && DecodingInto(st.c2_hw_decode_obj, st.c2_reader_Surfcae, format, path)
    ensures st.c2_reader_Surfcae_1 == null ==>
      st.c2_hw_decode_obj_1 == old(st.c2_hw_decode_obj_1) && (st.c2_hw_decode_obj_1 != null ==> unchanged(st.c2_hw_decode_obj_1))
    ensures st.c2_reader_Surfcae_1 != null ==>
      && (old(st.c2_hw_decode_obj_1) != null ==> old(st.c2_hw_decode_obj_1).stopDecode)
      && fresh(st.c2_hw_decode_obj_1) && DecodingInto(st.c2_hw_decode_obj_1, st.c2_reader_Surfcae_1, format, path)
  {
    if st.c2_reader_Surfcae != null {
      if st.c2_hw_decode_obj != null {
        st.c2_hw_decode_obj.StopDecode();
      }
      st.c2_hw_decode_obj := NewReaderDecoder(st.c2_reader_Surfcae, format, path);
    }
    if st.c2_reader_Surfcae_1 != null {
      if st.c2_hw_decode_obj_1 != null {
        st.c2_hw_decode_obj_1.StopDecode();
      }
      st.c2_hw_decode_obj_1 := NewReaderDecoder(st.c2_reader_Surfcae_1, format, path);
    }
  }

  /** The preview half of `processCamera2Play`: a new looping player for each remembered preview. */
  method PlayPreviews(st: HookMain, noSilent0: bool, noSilent1: bool, path: string)
    requires PlaybackApart(st)
    modifies st`c2_player, st`c2_player_1, st.c2_player, st.c2_player_1
    ensures PlaybackApart(st)
    ensures st.c2_preview_Surfcae == null ==>
      st.c2_player == old(st.c2_player) && (st.c2_player != null ==> unchanged(st.c2_player))
    ensures st.c2_preview_Surfcae != null ==>
      && (old(st.c2_player) != null ==> old(st.c2_player).released)
      && fresh(st.c2_player) && PlayingOn(st.c2_player, st.c2_preview_Surfcae, noSilent0, path)
    ensures st.c2_preview_Surfcae_1 == null ==>
      st.c2_player_1 == old(st.c2_player_1) && (st.c2_player_1 != null ==> unchanged(st.c2_player_1))
    ensures st.c2_preview_Surfcae_1 != null ==>
      && (old(st.c2_player_1) != null ==> old(st.c2_player_1).released)
      && fresh(st.c2_player_1) && PlayingOn(st.c2_player_1, st.c2_preview_Surfcae_1, noSilent1, path)
  {
    if st.c2_preview_Surfcae != null {
      if st.c2_player != null {
        st.c2_player.Release();
      }
      st.c2_player := NewPreviewPlayer(st.c2_preview_Surfcae, noSilent0, path);
    }
    if st.c2_preview_Surfcae_1 != null {
      if st.c2_player_1 != null {
        st.c2_player_1.Release();
      }
      st.c2_player_1 := NewPreviewPlayer(st.c2_preview_Surfcae_1, noSilent1, path);
    }
  }

  /**
   * `processCamera2Play`. Each remembered reader gets a new decoder of the
   * video, in JPEG when the application's reader is a JPEG reader and NV21
   * otherwise, after the previous decoder of that slot has been stopped. Each
   * remembered preview gets a new looping player, after the previous one has
   * been released; it is silenced unless the no-silent check made for it
   * succeeds. An empty slot leaves its decoder or player as it was, object
   * and all, since the two slots never share one (`PlaybackApart`). Under
   * `VirtualUntracked` none of them draws into the virtual surface.
   */
  method ProcessCamera2Play(st: HookMain, noSilent0: bool, noSilent1: bool)
    requires VirtualUntracked(st) && PlaybackApart(st)
    modifies st`c2_hw_decode_obj, st`c2_hw_decode_obj_1, st`c2_player, st`c2_player_1
    modifies st.c2_hw_decode_obj, st.c2_hw_decode_obj_1, st.c2_player, st.c2_player_1
    ensures PlaybackApart(st)
    ensures var path := st.video_path + VIDEO_FILE;
      var format := if st.imageReaderFormat == JPEG_READER_FORMAT then JPEG else NV21;
      && (st.c2_reader_Surfcae == null ==>
            st.c2_hw_decode_obj == old(st.c2_hw_decode_obj) && (st.c2_hw_decode_obj != null ==> unchanged(st.c2_hw_decode_obj)))
      && (st.c2_reader_Surfcae != null ==>
            && (old(st.c2_hw_decode_obj) != null ==> old(st.c2_hw_decode_obj).stopDecode)
            && fresh(st.c2_hw_decode_obj) && DecodingInto(st.c2_hw_decode_obj, st.c2_reader_Surfcae, format, path)
            && st.c2_hw_decode_obj.playSurface != st.c2_virtual_surface)
      && (st.c2_reader_Surfcae_1 == null ==>
            st.c2_hw_decode_obj_1 == old(st.c2_hw_decode_obj_1) && (st.c2_hw_decode_obj_1 != null ==> unchanged(st.c2_hw_decode_obj_1)))
      && (st.c2_reader_Surfcae_1 != null ==>
            && (old(st.c2_hw_decode_obj_1) != null ==> old(st.c2_hw_decode_obj_1).stopDecode)
            && fresh(st.c2_hw_decode_obj_1) && DecodingInto(st.c2_hw_decode_obj_1, st.c2_reader_Surfcae_1, format, path)
            && st.c2_hw_decode_obj_1.playSurface != st.c2_virtual_surface)
    ensures var path := st.video_path + VIDEO_FILE;
      && (st.c2_preview_Surfcae == null ==>
            st.c2_player == old(st.c2_player) && (st.c2_player != null ==> unchanged(st.c2_player)))
      && (st.c2_preview_Surfcae != null ==>
            && (old(st.c2_player) != null ==> old(st.c2_player).released)
            && fresh(st.c2_player) && PlayingOn(st.c2_player, st.c2_preview_Surfcae, noSilent0, path)
            && st.c2_player.surface != st.c2_virtual_surface)
      && (st.c2_preview_Surfcae_1 == null ==>
            st.c2_player_1 == old(st.c2_player_1) && (st.c2_player_1 != null ==> unchanged(st.c2_player_1)))
      && (st.c2_preview_Surfcae_1 != null ==>
            && (old(st.c2_player_1) != null ==> old(st.c2_player_1).released)
            && fresh(st.c2_player_1) && PlayingOn(st.c2_player_1, st.c2_preview_Surfcae_1, noSilent1, path)
            && st.c2_player_1.surface != st.c2_virtual_surface)
  {
    var path := st.video_path + VIDEO_FILE;
    PlayReaders(st, ReaderFormat(st.imageReaderFormat), path);
    PlayPreviews(st, noSilent0, noSilent1, path);
  }

  /**
   * The `CaptureRequest.Builder.build` hook. The builder seen last changes
   * nothing. Any other is recorded and, when the video is present and the
   * hooks are enabled, `processCamera2Play` runs (the result) with all it
   * promises: each recorded reader surface gets a new decoder in the format
   * of the last `ImageReader`, each recorded preview surface a new looping
   * player, the ones they replace stopped or released, and none of them on
   * the virtual surface. Otherwise no decoder or player is touched.
   */
  method Build(st: HookMain, builder: CaptureRequestBuilder, hasVideo: bool, disabled: bool,
               noSilent0: bool, noSilent1: bool)
    returns (played: bool)
    requires VirtualUntracked(st) && PlaybackApart(st)
    modifies st`c2_builder, st`c2_hw_decode_obj, st`c2_hw_decode_obj_1, st`c2_player, st`c2_player_1
    modifies st.c2_hw_decode_obj, st.c2_hw_decode_obj_1, st.c2_player, st.c2_player_1
    ensures VirtualUntracked(st) && PlaybackApart(st)
    ensures played <==> builder != old(st.c2_builder) && hasVideo && !disabled
    ensures builder == old(st.c2_builder) ==> unchanged(st)
    ensures builder != old(st.c2_builder) ==> st.c2_builder == builder
    ensures !played ==>
      && st.c2_hw_decode_obj == old(st.c2_hw_decode_obj) && st.c2_hw_decode_obj_1 == old(st.c2_hw_decode_obj_1)
      && st.c2_player == old(st.c2_player) && st.c2_player_1 == old(st.c2_player_1)
      && (st.c2_hw_decode_obj != null ==> unchanged(st.c2_hw_decode_obj))
      && (st.c2_hw_decode_obj_1 != null ==> unchanged(st.c2_hw_decode_obj_1))
      && (st.c2_player != null ==> unchanged(st.c2_player))
      && (st.c2_player_1 != null ==> unchanged(st.c2_player_1))
    ensures played ==> var path := st.video_path + VIDEO_FILE;
      var format := if st.imageReaderFormat == JPEG_READER_FORMAT then JPEG else NV21;
      && (st.c2_reader_Surfcae == null ==>
            st.c2_hw_decode_obj == old(st.c2_hw_decode_obj) && (st.c2_hw_decode_obj != null ==> unchanged(st.c2_hw_decode_obj)))
      && (st.c2_reader_Surfcae != null ==>
            && (old(st.c2_hw_decode_obj) != null ==> old(st.c2_hw_decode_obj).stopDecode)
            && fresh(st.c2_hw_decode_obj) && DecodingInto(st.c2_hw_decode_obj, st.c2_reader_Surfcae, format, path)
            && st.c2_hw_decode_obj.playSurface != st.c2_virtual_surface)
      && (st.c2_reader_Surfcae_1 == null ==>
            st.c2_hw_decode_obj_1 == old(st.c2_hw_decode_obj_1) && (st.c2_hw_decode_obj_1 != null ==> unchanged(st.c2_hw_decode_obj_1)))
      && (st.c2_reader_Surfcae_1 != null ==>
            && (old(st.c2_hw_decode_obj_1) != null ==> old(st.c2_hw_decode_obj_1).stopDecode)
            && fresh(st.c2_hw_decode_obj_1) && DecodingInto(st.c2_hw_decode_obj_1, st.c2_reader_Surfcae_1, format, path)
            && st.c2_hw_decode_obj_1.playSurface != st.c2_virtual_surface)
      && (st.c2_preview_Surfcae == null ==>
            st.c2_player == old(st.c2_player) && (st.c2_player != null ==> unchanged(st.c2_player)))
      && (st.c2_preview_Surfcae != null ==>
            && (old(st.c2_player) != null ==> old(st.c2_player).released)
            && fresh(st.c2_player) && PlayingOn(st.c2_player, st.c2_preview_Surfcae, noSilent0, path)
            && st.c2_player.surface != st.c2_virtual_surface)
      && (st.c2_preview_Surfcae_1 == null ==>
            st.c2_player_1 == old(st.c2_player_1) && (st.c2_player_1 != null ==> unchanged(st.c2_player_1)))
      && (st.c2_preview_Surfcae_1 != null ==>
            && (old(st.c2_player_1) != null ==> old(st.c2_player_1).released)
            && fresh(st.c2_player_1) && PlayingOn(st.c2_player_1, st.c2_preview_Surfcae_1, noSilent1, path)
            && st.c2_player_1.surface != st.c2_virtual_surface)
  {
    played := false;
    if builder == st.c2_builder {
      return;
    }
    st.c2_builder := builder;
    if !hasVideo || disabled {
      return;
    }
    ProcessCamera2Play(st, noSilent0, noSilent1);
    played := true;
  }

  /** `MediaPlayer` stop, reset and release, as the `onOpened` reset does them. */
  method ShutDown(player: MediaPlayer)
    modifies player`stopped, player`resetDone, player`released
    ensures player.stopped && player.resetDone && player.released
  {
    player.Stop();
    player.Reset();
    player.Release();
  }

  /** The first step of the `onOpened` reset: `need_recreate` is raised, so `createVirtualSurface` always makes a new surface. */
  method RecreateVirtualSurface(st: HookMain)
    requires VirtualUntracked(st)
    modifies st`need_recreate, st`c2_virtual_surface, st`c2_virtual_surfaceTexture
    modifies st.c2_virtual_surface, st.c2_virtual_surfaceTexture
    ensures VirtualUntracked(st)
    ensures !st.need_recreate && fresh(st.c2_virtual_surface) && fresh(st.c2_virtual_surfaceTexture)
    ensures st.c2_virtual_surface.texture == st.c2_virtual_surfaceTexture && !st.c2_virtual_surface.released
    ensures old(st.c2_virtual_surface) != null ==> old(st.c2_virtual_surface).released
    ensures old(st.c2_virtual_surfaceTexture) != null ==> old(st.c2_virtual_surfaceTexture).released
  {
    st.need_recreate := true;
    var _ := CreateVirtualSurface(st);
  }

  /** The teardown step of the `onOpened` reset: every player and decoder is stopped and forgotten. */
  method StopPlayback(st: HookMain)
    modifies st`c2_player, st`c2_player_1, st`c2_hw_decode_obj, st`c2_hw_decode_obj_1
    modifies st.c2_player, st.c2_player_1, st.c2_hw_decode_obj, st.c2_hw_decode_obj_1
    ensures old(st.c2_player) != null ==>
      old(st.c2_player).stopped && old(st.c2_player).resetDone && old(st.c2_player).released
    ensures old(st.c2_player_1) != null ==>
      old(st.c2_player_1).stopped && old(st.c2_player_1).resetDone && old(st.c2_player_1).released
    ensures old(st.c2_hw_decode_obj) != null ==> old(st.c2_hw_decode_obj).stopDecode
    ensures old(st.c2_hw_decode_obj_1) != null ==> old(st.c2_hw_decode_obj_1).stopDecode
    ensures st.c2_player == null && st.c2_player_1 == null
    ensures st.c2_hw_decode_obj == null && st.c2_hw_decode_obj_1 == null
  {
    if st.c2_player != null {
      ShutDown(st.c2_player);
      st.c2_player := null;
    }
    if st.c2_hw_decode_obj_1 != null {
      st.c2_hw_decode_obj_1.StopDecode();
      st.c2_hw_decode_obj_1 := null;
    }
    if st.c2_hw_decode_obj != null {
      st.c2_hw_decode_obj.StopDecode();
      st.c2_hw_decode_obj := null;
    }
    if st.c2_player_1 != null {
      ShutDown(st.c2_player_1);
      st.c2_player_1 := null;
    }
  }

  /** The last step of the `onOpened` reset: the four slots are emptied and the next `build` counts as the first. */
  method ForgetTargets(st: HookMain)
    modifies st`c2_reader_Surfcae, st`c2_reader_Surfcae_1, st`c2_preview_Surfcae, st`c2_preview_Surfcae_1
    modifies st`is_first_hook_build
    ensures ReaderSlots(st) == Slots(null, null) && PreviewSlots(st) == Slots(null, null)
    ensures st.is_first_hook_build
  {
    st.c2_preview_Surfcae_1 := null;
    st.c2_reader_Surfcae_1 := null;
    st.c2_reader_Surfcae := null;
    st.c2_preview_Surfcae := null;
    st.is_first_hook_build := true;
  }

  /**
   * The `onOpened` hook installed on the state callback's class. It makes a
   * new virtual surface, stops, resets, releases and forgets both players,
   * stops and forgets both decoders, empties the four slots and marks the
   * next `build` as the first. The session-creation hooks are installed (the
   * result) only when the video is present.
   */
  method OnOpened(st: HookMain, hasVideo: bool) returns (sessionHooked: bool)
    requires VirtualUntracked(st)
    modifies st`need_recreate, st`c2_virtual_surface, st`c2_virtual_surfaceTexture
    modifies st.c2_virtual_surface, st.c2_virtual_surfaceTexture
    modifies st`c2_player, st`c2_player_1, st`c2_hw_decode_obj, st`c2_hw_decode_obj_1
    modifies st.c2_player, st.c2_player_1, st.c2_hw_decode_obj, st.c2_hw_decode_obj_1
    modifies st`c2_reader_Surfcae, st`c2_reader_Surfcae_1, st`c2_preview_Surfcae, st`c2_preview_Surfcae_1
    modifies st`is_first_hook_build
    ensures VirtualUntracked(st)
    ensures sessionHooked == hasVideo
    ensures !st.need_recreate && fresh(st.c2_virtual_surface) && fresh(st.c2_virtual_surfaceTexture)
    ensures st.c2_virtual_surface.texture == st.c2_virtual_surfaceTexture && !st.c2_virtual_surface.released
    ensures old(st.c2_virtual_surface) != null ==> old(st.c2_virtual_surface).released
    ensures old(st.c2_virtual_surfaceTexture) != null ==> old(st.c2_virtual_surfaceTexture).released
    ensures old(st.c2_player) != null ==>
      old(st.c2_player).stopped && old(st.c2_player).resetDone && old(st.c2_player).released
    ensures old(st.c2_player_1) != null ==>
      old(st.c2_player_1).stopped && old(st.c2_player_1).resetDone && old(st.c2_player_1).released
    ensures old(st.c2_hw_decode_obj) != null ==> old(st.c2_hw_decode_obj).stopDecode
    ensures old(st.c2_hw_decode_obj_1) != null ==> old(st.c2_hw_decode_obj_1).stopDecode
    ensures st.c2_player == null && st.c2_player_1 == null
    ensures st.c2_hw_decode_obj == null && st.c2_hw_decode_obj_1 == null
    ensures PlaybackApart(st)
    ensures ReaderSlots(st) == Slots(null, null) && PreviewSlots(st) == Slots(null, null)
    ensures st.is_first_hook_build
  {
    RecreateVirtualSurface(st);
    StopPlayback(st);
    ForgetTargets(st);
    sessionHooked := hasVideo;
  }

  /**
   * The `ImageReader.newInstance` observer: it records the reader's size and
   * format, the format deciding what the reader decoders produce.
   */
  method ImageReaderNewInstance(st: HookMain, width: int, height: int, format: int)
    modifies st`c2_ori_width, st`c2_ori_height, st`imageReaderFormat
    ensures st.c2_ori_width == width && st.c2_ori_height == height && st.imageReaderFormat == format
  {
    st.c2_ori_width, st.c2_ori_height, st.imageReaderFormat := width, height, format;
  }

  // ---------------------------------------------------------------------------
  // Session creation
  // ---------------------------------------------------------------------------

  /** An argument of a session-creation call, as far as the hooks look at it. */
  datatype Arg =
    | Null
    | SurfaceList(surfaces: seq<Surface?>)
    | ConfigList(configs: seq<OutputConfiguration>)
    | Other

  /**
   * The rewrite every list-taking session hook makes: when the argument at
   * `checked` is present, the argument at `written` becomes `replacement` and
   * every other argument is passed on; when it is null, nothing changes.
   */
  function Redirect(args: seq<Arg>, checked: nat, written: nat, replacement: Arg): (r: seq<Arg>)
    requires checked < |args| && written < |args|
    ensures |r| == |args|
    ensures args[checked].Null? ==> r == args
    ensures !args[checked].Null? ==> r[written] == replacement
    ensures forall k :: 0 <= k < |args| && k != written ==> r[k] == args[k]
  {
    if args[checked].Null? then args else args[written := replacement]
  }

  /**
   * `createCaptureSession(outputs, callback, handler)`: the outputs become the
   * virtual surface alone. The `createConstrainedHighSpeedCaptureSession`
   * hook takes the same three arguments and makes the same rewrite.
   */
  function CreateCaptureSession(args: seq<Arg>, virtual: Surface?): (r: seq<Arg>)
    requires |args| == 3
    ensures !args[0].Null? ==> r == [SurfaceList([virtual]), args[1], args[2]]
    ensures args[0].Null? ==> r == args
  {
    Redirect(args, 0, 0, SurfaceList([virtual]))
  }

  /**
   * `createReprocessableCaptureSession(input, outputs, callback, handler)`:
   * the outputs, the second argument, become the virtual surface alone.
   */
  function CreateReprocessableCaptureSession(args: seq<Arg>, virtual: Surface?): (r: seq<Arg>)
    requires |args| == 4
    ensures !args[1].Null? ==> r == [args[0], SurfaceList([virtual]), args[2], args[3]]
    ensures args[1].Null? ==> r == args
  {
    Redirect(args, 1, 1, SurfaceList([virtual]))
  }

  /** The virtual surface wrapped in a new `OutputConfiguration`, kept in `outputConfiguration`. */
  method NewVirtualOutput(st: HookMain) returns (config: OutputConfiguration)
    requires st.c2_virtual_surface != null
    modifies st`outputConfiguration
    ensures fresh(config) && config.surface == st.c2_virtual_surface && st.outputConfiguration == config
  {
    config := new OutputConfiguration(st.c2_virtual_surface);
    st.outputConfiguration := config;
  }

  /**
   * `createCaptureSessionByOutputConfigurations(outputs, callback, handler)`:
   * the output configurations become one configuration of the virtual
   * surface. These hooks are installed by `OnOpened`, which leaves a virtual
   * surface in place, and no hook removes it afterwards.
   */
  method CreateCaptureSessionByOutputConfigurations(st: HookMain, args: seq<Arg>) returns (r: seq<Arg>)
    requires |args| == 3 && st.c2_virtual_surface != null
    modifies st`outputConfiguration
    ensures args[0].Null? ==> r == args && unchanged(st)
    ensures !args[0].Null? ==>
      && fresh(st.outputConfiguration) && st.outputConfiguration.surface == st.c2_virtual_surface
      && r == [ConfigList([st.outputConfiguration]), args[1], args[2]]
  {
    if args[0].Null? {
      return args;
    }
    var config := NewVirtualOutput(st);
    r := Redirect(args, 0, 0, ConfigList([config]));
  }

  /**
   * `createReprocessableCaptureSessionByConfigurations(input, outputs,
   * callback, handler)`. It checks the outputs but writes the configuration
   * list over the first argument, the input configuration; the outputs, the
   * second argument, are passed on unchanged.
   */
  method CreateReprocessableCaptureSessionByConfigurations(st: HookMain, args: seq<Arg>) returns (r: seq<Arg>)
    requires |args| == 4 && st.c2_virtual_surface != null
    modifies st`outputConfiguration
    ensures args[1].Null? ==> r == args && unchanged(st)
    ensures !args[1].Null? ==>
      && fresh(st.outputConfiguration) && st.outputConfiguration.surface == st.c2_virtual_surface
      && r == [ConfigList([st.outputConfiguration]), args[1], args[2], args[3]]
    ensures r[1] == args[1]
  {
    if args[1].Null? {
      return args;
    }
    var config := NewVirtualOutput(st);
    r := Redirect(args, 1, 0, ConfigList([config]));
  }

  /**
   * `createCaptureSession(SessionConfiguration)`: the application's
   * configuration is recorded and replaced by one of the same session type
   * and state callback whose only output is the virtual surface.
   */
  method CreateCaptureSessionWithConfiguration(st: HookMain, config: SessionConfiguration?)
    returns (arg: SessionConfiguration?)
    requires st.c2_virtual_surface != null
    modifies st`sessionConfiguration, st`outputConfiguration, st`fake_sessionConfiguration
    ensures config == null ==> arg == null && unchanged(st)
    ensures config != null ==>
      && st.sessionConfiguration == config
      && fresh(st.outputConfiguration) && st.outputConfiguration.surface == st.c2_virtual_surface
      && fresh(arg) && arg == st.fake_sessionConfiguration
      && arg.sessionType == config.sessionType && arg.stateCallback == config.stateCallback
      && arg.outputs == [st.outputConfiguration]
  {
    if config == null {
      return null;
    }
    st.sessionConfiguration := config;
    var output := NewVirtualOutput(st);
    arg := new SessionConfiguration(config.sessionType, [output], config.stateCallback);
    st.fake_sessionConfiguration := arg;
  }
}
