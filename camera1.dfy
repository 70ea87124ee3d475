/**
 * The legacy-camera (`android.hardware.Camera`) hooks: how a preview
 * target is swapped for a fake one, how the `setPreviewDisplay` hook
 * hands its fake texture through the `setPreviewTexture` hook, how
 * `startPreview` binds players to the application's surfaces and decides
 * which of them may play sound, and how preview-frame callbacks get the
 * decoded video instead of camera frames.
 *
 * Each hook body is a method on the shared `HookMain` state. The flag-file
 * checks it makes (`hasVirtualVideo`, `isDisabled`, the no-silent file) are
 * boolean inputs, one per check the body makes.
 */
module Camera1Hook {
  import opened Common
  import opened Platform
  import opened Decoder
  import opened HookState

  /** `new SurfaceTexture(10)`: the fake preview texture of `setPreviewTexture`. */
  const PREVIEW_TEXTURE_NAME: int := 10

  /** `new SurfaceTexture(11)`: the fake texture of `setPreviewDisplay`. */
  const DISPLAY_TEXTURE_NAME: int := 11

  /**
   * The fakes the hooks hand to the camera are never ones they have
   * released: the current preview fake and display fake are live and keep
   * their texture names, the display's fake surface draws into the current
   * display texture, and the preview surface `startPreview` replaces is
   * not that fake surface.
   */
  ghost predicate FakesLive(st: HookMain)
    reads st, st.fake_SurfaceTexture, st.c1_fake_texture, st.c1_fake_surface
  {
    && LiveFakes(st.fake_SurfaceTexture, st.c1_fake_texture, st.c1_fake_surface)
    && (st.mSurface == null || st.mSurface != st.c1_fake_surface)
  }

  /**
   * The holder player and the texture player are two objects: `startPreview`
   * makes each with its own `new MediaPlayer()`, so releasing one never
   * touches the other.
   */
  ghost predicate PlayersApart(st: HookMain)
    reads st
  {
    st.mplayer1 == null || st.mplayer1 != st.mMediaPlayer
  }

  /** The object part of `FakesLive`, over the three fakes themselves. */
  ghost predicate LiveFakes(preview: SurfaceTexture?, display: SurfaceTexture?, displaySurface: Surface?)
    reads preview, display, displaySurface
  {
    && (preview != null ==> !preview.released && preview.texName == PREVIEW_TEXTURE_NAME)
    && (display != null ==> !display.released && display.texName == DISPLAY_TEXTURE_NAME)
    && (displaySurface != null ==>
          displaySurface.texture == display && display != null && !displaySurface.released)
  }

  /**
   * The `setPreviewTexture` hook on `camera`, returning the texture the
   * real method receives. The checks come in this order: no video or the
   * disabled flag leave the call alone; a pending `is_hooked` is consumed
   * and leaves it alone; a null texture and the display hook's own fake
   * pass through; a camera seen before gets the current fake again; any
   * other call records the camera and the application's texture and gets a
   * new fake, the old one being released.
   */
  method SetPreviewTexture(st: HookMain, camera: Camera, texture: SurfaceTexture?, hasVideo: bool, disabled: bool)
    returns (arg: SurfaceTexture?)
    requires FakesLive(st)
    modifies st`is_hooked, st`origin_preview_camera, st`mSurfacetexture, st`fake_SurfaceTexture
    modifies st.fake_SurfaceTexture
    ensures FakesLive(st)
    ensures !hasVideo || disabled ==> arg == texture && unchanged(st)
    ensures hasVideo && !disabled && old(st.is_hooked) ==>
      arg == texture && !st.is_hooked && st.origin_preview_camera == old(st.origin_preview_camera)
      && st.mSurfacetexture == old(st.mSurfacetexture) && st.fake_SurfaceTexture == old(st.fake_SurfaceTexture)
    ensures hasVideo && !disabled && !old(st.is_hooked) && (texture == null || texture == st.c1_fake_texture) ==>
      arg == texture && unchanged(st)
    ensures hasVideo && !disabled && !old(st.is_hooked) && texture != null && texture != st.c1_fake_texture
            && old(st.origin_preview_camera) == camera ==>
      arg == old(st.fake_SurfaceTexture) && unchanged(st)
    ensures hasVideo && !disabled && !old(st.is_hooked) && texture != null && texture != st.c1_fake_texture
            && old(st.origin_preview_camera) != camera ==>
      && st.origin_preview_camera == camera && st.mSurfacetexture == texture
      && fresh(st.fake_SurfaceTexture) && arg == st.fake_SurfaceTexture && !st.is_hooked
      && (old(st.fake_SurfaceTexture) != null ==> old(st.fake_SurfaceTexture).released)
  {
    arg := texture;
    if !hasVideo || disabled {
      return;
    }
    if st.is_hooked {
      st.is_hooked := false;
      return;
    }
    if texture == null || texture == st.c1_fake_texture {
      return;
    }
    if st.origin_preview_camera == camera {
      arg := st.fake_SurfaceTexture;
      return;
    }
    st.origin_preview_camera := camera;
    st.mSurfacetexture := texture;
    if st.fake_SurfaceTexture != null {
      st.fake_SurfaceTexture.Release();
    }
    var fake := new SurfaceTexture(PREVIEW_TEXTURE_NAME);
    st.fake_SurfaceTexture := fake;
    arg := fake;
  }

  /**
   * The `setPreviewDisplay` hook on `camera`: it records the camera and the
   * application's holder, replaces the display fake texture and its
   * surface (releasing the old ones), raises `is_hooked` and points the
   * camera at the fake texture through `setPreviewTexture`, whose hook runs
   * with its own flag checks; the original call is then suppressed. The
   * raised `is_hooked` makes that nested hook pass the fake through
   * untouched and lowers the flag again; when the nested flag checks fail
   * first, the flag stays raised for the next `setPreviewTexture`.
   */
  method SetPreviewDisplay(st: HookMain, camera: Camera, holder: SurfaceHolder?, hasVideo: bool, disabled: bool,
                           nestedHasVideo: bool, nestedDisabled: bool)
    returns (suppressed: bool, nestedArg: SurfaceTexture?)
    requires FakesLive(st)
    modifies st`mcamera1, st`ori_holder, st`c1_fake_texture, st`c1_fake_surface, st`is_hooked
    modifies st`origin_preview_camera, st`mSurfacetexture, st`fake_SurfaceTexture
    modifies st.c1_fake_texture, st.c1_fake_surface, st.fake_SurfaceTexture
    ensures FakesLive(st)
    ensures suppressed <==> hasVideo && !disabled
    ensures !suppressed ==> unchanged(st) && nestedArg == null
    ensures suppressed ==>
      && st.mcamera1 == camera && st.ori_holder == holder
      && fresh(st.c1_fake_texture) && fresh(st.c1_fake_surface)
      && (old(st.c1_fake_texture) != null ==> old(st.c1_fake_texture).released)
      && (old(st.c1_fake_surface) != null ==> old(st.c1_fake_surface).released)
      && nestedArg == st.c1_fake_texture
      && (st.is_hooked <==> !nestedHasVideo || nestedDisabled)
      && st.origin_preview_camera == old(st.origin_preview_camera)
      && st.mSurfacetexture == old(st.mSurfacetexture)
      && st.fake_SurfaceTexture == old(st.fake_SurfaceTexture)
  {
    suppressed, nestedArg := false, null;
    if !hasVideo || disabled {
      return;
    }
    st.mcamera1 := camera;
    st.ori_holder := holder;
    ReplaceDisplayFakes(st);
    st.is_hooked := true;
    nestedArg := SetPreviewTexture(st, camera, st.c1_fake_texture, nestedHasVideo, nestedDisabled);
    suppressed := true;
  }

  /**
   * The fake texture (name 11) and the surface on it that `setPreviewDisplay`
   * makes afresh each time, releasing the previous ones.
   */
  method ReplaceDisplayFakes(st: HookMain)
    requires FakesLive(st)
    modifies st`c1_fake_texture, st`c1_fake_surface, st.c1_fake_texture, st.c1_fake_surface
    ensures FakesLive(st)
    ensures fresh(st.c1_fake_texture) && fresh(st.c1_fake_surface)
    ensures old(st.c1_fake_texture) != null ==> old(st.c1_fake_texture).released
    ensures old(st.c1_fake_surface) != null ==> old(st.c1_fake_surface).released
  {
    if st.c1_fake_texture != null {
      st.c1_fake_texture.Release();
    }
    var texture := new SurfaceTexture(DISPLAY_TEXTURE_NAME);
    st.c1_fake_texture := texture;
    if st.c1_fake_surface != null {
      st.c1_fake_surface.Release();
    }
    var surface := new Surface.FromTexture(texture);
    st.c1_fake_surface := surface;
  }

  /**
   * The `addCallbackBuffer` hook: a buffer the application hands in is
   * replaced by a new zero-filled array of the same length, so the camera
   * never writes into the application's buffer; null passes through.
   */
  method AddCallbackBuffer(buffer: array?<byte>) returns (arg: array?<byte>)
    ensures buffer == null <==> arg == null
    ensures arg != null ==> fresh(arg) && arg.Length == buffer.Length
    ensures arg != null ==> forall k :: 0 <= k < arg.Length ==> arg[k] == 0
  {
    if buffer == null {
      return null;
    }
    arg := new byte[buffer.Length](_ => 0);
  }

  /**
   * The stop decision `processCallback` bakes into the `onPreviewFrame`
   * hook it installs: stop when the module is disabled or the video is
   * missing at the first check, or, that check passing, missing at the
   * second one.
   */
  function NeedStop(disabled: bool, hasVideo: bool, hasVideoAgain: bool): bool {
    if disabled || !hasVideo then true else !hasVideoAgain
  }

  /**
   * `System.arraycopy(src, 0, dst, 0, min(src.length, dst.length))`: the
   * first `min` bytes of `dst` become those of `src`, the rest stay.
   */
  method CopyPrefix(src: seq<byte>, dst: array<byte>)
    modifies dst
    ensures var n := Min(|src|, dst.Length);
      && dst[..n] == src[..n]
      && dst[n..] == old(dst[n..])
  {
    var n := Min(|src|, dst.Length);
    forall k | 0 <= k < n {
      dst[k] := src[k];
    }
    assert dst[..n] == src[..n];
  }

  /**
   * The `onPreviewFrame` hook `processCallback` installs on the callback's
   * class (`callbackClass`), for a frame `frame` from `camera`. The three
   * flags are the checks `processCallback` made when it installed the hook:
   * the disabled flag, the video check, and the second video check made
   * only when the first two pass. For the camera it already serves the hook
   * only overwrites the frame with the latest decoded one. For a new camera
   * it records the class, the camera and its preview size; then, unless the
   * installation checks failed, it stops the previous decoder, starts a new
   * one producing NV21 frames of the video into `data_buffer`, and
   * overwrites the frame.
   */
  method OnPreviewFrame(st: HookMain, callbackClass: string, frame: array<byte>, camera: Camera,
                        disabled: bool, hasVideo: bool, hasVideoAgain: bool)
    modifies st`camera_callback_calss, st`camera_onPreviewFrame, st`mwidth, st`mhight, st`hw_decode_obj
    modifies st.hw_decode_obj, frame
    ensures var n := Min(|st.data_buffer|, frame.Length);
      var copies := old(st.camera_onPreviewFrame) == camera || (!disabled && hasVideo && hasVideoAgain);
      && (copies ==> frame[..n] == st.data_buffer[..n] && frame[n..] == old(frame[n..]))
      && (!copies ==> frame[..] == old(frame[..]))
    ensures old(st.camera_onPreviewFrame) == camera ==>
      unchanged(st) && (old(st.hw_decode_obj) != null ==> unchanged(old(st.hw_decode_obj)))
    ensures old(st.camera_onPreviewFrame) != camera ==>
      && st.camera_callback_calss == Some(callbackClass) && st.camera_onPreviewFrame == camera
      && st.mwidth == camera.previewWidth && st.mhight == camera.previewHeight
    ensures old(st.camera_onPreviewFrame) != camera && (disabled || !hasVideo || !hasVideoAgain) ==>
      st.hw_decode_obj == old(st.hw_decode_obj) && (old(st.hw_decode_obj) != null ==> unchanged(old(st.hw_decode_obj)))
    ensures old(st.camera_onPreviewFrame) != camera && !disabled && hasVideo && hasVideoAgain ==>
      && (old(st.hw_decode_obj) != null ==> old(st.hw_decode_obj).stopDecode)
      && fresh(st.hw_decode_obj) && st.hw_decode_obj.outputImageFormat == Some(NV21)
      && st.hw_decode_obj.videoFilePath == Some(st.video_path + VIDEO_FILE)
      && st.hw_decode_obj.playSurface == null && !st.hw_decode_obj.stopDecode
      && st.hw_decode_obj.childThread != null && st.hw_decode_obj.childThread.started
  {
    if camera == st.camera_onPreviewFrame {
      CopyPrefix(st.data_buffer, frame);
      return;
    }
    st.camera_callback_calss := Some(callbackClass);
    st.camera_onPreviewFrame := camera;
    st.mwidth := camera.previewWidth;
    st.mhight := camera.previewHeight;
    if NeedStop(disabled, hasVideo, hasVideoAgain) {
      return;
    }
    if st.hw_decode_obj != null {
      st.hw_decode_obj.StopDecode();
    }
    var decoder := new VideoToFrames();
    decoder.SetSaveFrames("", NV21);
    var _ := decoder.Decode(st.video_path + VIDEO_FILE);
    st.hw_decode_obj := decoder;
    CopyPrefix(st.data_buffer, frame);
  }

  /**
   * The mute rule of `startPreview` for one player: it is muted when the
   * no-silent flag is absent or another player already plays sound.
   */
  function Muted(noSilent: bool, someonePlaying: bool): bool {
    !noSilent || someonePlaying
  }

  /**
   * The `startPreview` hook on `camera`. It resets `is_someone_playing` and
   * records the camera. With a display holder it replaces `mplayer1`
   * (releasing the old one) and, when the holder's surface is still valid,
   * binds it there, looping the video; an invalid surface ends the hook
   * before the texture branch. With a recorded application texture it
   * replaces `mSurface` by a new surface on that texture and `mMediaPlayer`
   * by a new looping player on it. Each bound player is muted by `Muted`
   * given the no-silent check made for it, so at most one of them plays
   * sound. `is_someone_playing` ends up saying whether the last player
   * bound plays sound: when `mplayer1` does, muting `mMediaPlayer` lowers
   * the flag again although `mplayer1` keeps playing. The results say
   * which of the two players were bound. Whatever the hook does not
   * replace is left as it was: `mplayer1` without a holder, `mSurface` and
   * `mMediaPlayer` when the texture player is not bound.
   */
  method StartPreview(st: HookMain, camera: Camera, hasVideo: bool, disabled: bool, noSilent1: bool, noSilent2: bool)
    returns (holderBound: bool, textureBound: bool)
    requires FakesLive(st) && PlayersApart(st)
    modifies st`is_someone_playing, st`start_preview_camera, st`mplayer1, st`mSurface, st`mMediaPlayer
    modifies st.mplayer1, st.mSurface, st.mMediaPlayer
    ensures st.fake_SurfaceTexture != null ==> !st.fake_SurfaceTexture.released
    ensures st.c1_fake_texture != null ==> !st.c1_fake_texture.released
    ensures st.c1_fake_surface != null ==> !st.c1_fake_surface.released
    ensures st.mSurface == null || st.mSurface != st.c1_fake_surface
    ensures PlayersApart(st)
    ensures !hasVideo || disabled ==>
      && unchanged(st)
      && (st.mplayer1 != null ==> unchanged(st.mplayer1))
      && (st.mSurface != null ==> unchanged(st.mSurface))
      && (st.mMediaPlayer != null ==> unchanged(st.mMediaPlayer))
    ensures hasVideo && !disabled ==> st.start_preview_camera == camera
    ensures holderBound <==> hasVideo && !disabled && old(st.ori_holder) != null && old(st.ori_holder.surface.valid)
    ensures textureBound <==> hasVideo && !disabled && (old(st.ori_holder) == null || old(st.ori_holder.surface.valid))
                              && old(st.mSurfacetexture) != null
    ensures hasVideo && !disabled && old(st.ori_holder) != null ==>
      fresh(st.mplayer1) && (old(st.mplayer1) != null ==> old(st.mplayer1).released)
    ensures old(st.ori_holder) == null ==>
      st.mplayer1 == old(st.mplayer1) && (st.mplayer1 != null ==> unchanged(st.mplayer1))
    ensures holderBound ==>
      && st.mplayer1.surface == st.ori_holder.surface && st.mplayer1.looping
      && st.mplayer1.dataSource == st.video_path + VIDEO_FILE
      && st.mplayer1.muted == !noSilent1
    ensures textureBound ==>
      && fresh(st.mSurface) && st.mSurface.texture == st.mSurfacetexture
      && (old(st.mSurface) != null ==> old(st.mSurface).released)
      && fresh(st.mMediaPlayer) && (old(st.mMediaPlayer) != null ==> old(st.mMediaPlayer).released)
      && st.mMediaPlayer.surface == st.mSurface && st.mMediaPlayer.looping
      && st.mMediaPlayer.dataSource == st.video_path + VIDEO_FILE
      && st.mMediaPlayer.muted == (!noSilent2 || (holderBound && !st.mplayer1.muted))
    ensures !textureBound ==>
      && st.mSurface == old(st.mSurface) && st.mMediaPlayer == old(st.mMediaPlayer)
      && (st.mSurface != null ==> unchanged(st.mSurface))
      && (st.mMediaPlayer != null ==> unchanged(st.mMediaPlayer))
    ensures holderBound && textureBound ==> st.mplayer1.muted || st.mMediaPlayer.muted
    ensures hasVideo && !disabled ==>
      st.is_someone_playing == if textureBound then !st.mMediaPlayer.muted else holderBound && !st.mplayer1.muted
  {
    holderBound, textureBound := false, false;
    if !hasVideo || disabled {
      return;
    }
    st.is_someone_playing := false;
    st.start_preview_camera := camera;
    if st.ori_holder != null {
      holderBound := BindHolderPlayer(st, noSilent1);
      if !holderBound {
        return;
      }
    }
    if st.mSurfacetexture != null {
      BindTexturePlayer(st, noSilent2);
      textureBound := true;
    }
  }

  /**
   * The display-holder half of `startPreview`: a new player replaces
   * `mplayer1` (the old one released); it is bound to the holder's surface
   * only while that surface is valid, and then loops the video, muted by
   * `Muted`.
   */
  method BindHolderPlayer(st: HookMain, noSilent: bool) returns (bound: bool)
    requires st.ori_holder != null
    modifies st`mplayer1, st`is_someone_playing, st.mplayer1
    ensures bound == st.ori_holder.surface.valid
    ensures fresh(st.mplayer1) && (old(st.mplayer1) != null ==> old(st.mplayer1).released)
    ensures bound ==>
      && st.mplayer1.surface == st.ori_holder.surface && st.mplayer1.looping
      && st.mplayer1.dataSource == st.video_path + VIDEO_FILE
      && st.mplayer1.muted == (!noSilent || old(st.is_someone_playing))
      && st.is_someone_playing == !st.mplayer1.muted
    ensures !bound ==> st.is_someone_playing == old(st.is_someone_playing)
  {
    if st.mplayer1 != null {
      st.mplayer1.Release();
    }
    var player := new MediaPlayer();
    st.mplayer1 := player;
    bound := st.ori_holder.surface.valid;
    if !bound {
      return;
    }
    var mute := Muted(noSilent, st.is_someone_playing);
    Configure(player, st.ori_holder.surface, mute, st.video_path + VIDEO_FILE);
    st.is_someone_playing := !mute;
  }

  /**
   * The application-texture half of `startPreview`: new `mSurface` on the
   * recorded texture and new `mMediaPlayer` on it (the old ones released),
   * looping the video, muted by `Muted`.
   */
  method BindTexturePlayer(st: HookMain, noSilent: bool)
    requires st.mSurfacetexture != null
    requires st.mSurface == null || st.mSurface != st.c1_fake_surface
    modifies st`mSurface, st`mMediaPlayer, st`is_someone_playing, st.mSurface, st.mMediaPlayer
    ensures st.c1_fake_surface != null ==> st.c1_fake_surface.released == old(st.c1_fake_surface.released)
    ensures st.mSurface != st.c1_fake_surface
    ensures fresh(st.mSurface) && st.mSurface.texture == st.mSurfacetexture
    ensures old(st.mSurface) != null ==> old(st.mSurface).released
    ensures fresh(st.mMediaPlayer) && (old(st.mMediaPlayer) != null ==> old(st.mMediaPlayer).released)
    ensures st.mMediaPlayer.surface == st.mSurface && st.mMediaPlayer.looping
    ensures st.mMediaPlayer.dataSource == st.video_path + VIDEO_FILE
    ensures st.mMediaPlayer.muted == (!noSilent || old(st.is_someone_playing))
    ensures st.is_someone_playing == !st.mMediaPlayer.muted
  {
    if st.mSurface != null {
      st.mSurface.Release();
    }
    var surface := new Surface.FromTexture(st.mSurfacetexture);
    st.mSurface := surface;
    if st.mMediaPlayer != null {
      st.mMediaPlayer.Release();
    }
    var player := new MediaPlayer();
    var mute := Muted(noSilent, st.is_someone_playing);
    Configure(player, surface, mute, st.video_path + VIDEO_FILE);
    st.mMediaPlayer := player;
    st.is_someone_playing := !mute;
  }

  /**
   * The set-up `startPreview` gives a new player: bound to `surface`,
   * muted (`setVolume(0, 0)`) when `mute`, looping, reading `path`.
   */
  method Configure(player: MediaPlayer, surface: Surface, mute: bool, path: string)
    requires !player.muted
    modifies player
    ensures player.surface == surface && player.muted == mute && player.looping && player.dataSource == path
    ensures player.stopped == old(player.stopped) && player.released == old(player.released)
  {
    player.SetSurface(surface);
    if mute {
      player.Mute();
    }
    player.SetLooping(true);
    player.SetDataSource(path);
  }
}
