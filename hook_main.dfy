/**
 * The shared state of the module: the static fields of `HookMain` that the
 * Camera1 and Camera2 hooks read and update, kept under their own names, and
 * the hand-off by which a decoder publishes each frame into `data_buffer`.
 */
module HookState {
  import opened Common
  import opened Platform
  import opened Decoder
  import ImagePacking

  /** `HookMain.VIDEO_FILE`. */
  const VIDEO_FILE: string := "virtual.mp4"

  /** The directory `video_path` holds until an application's `onCreate` picks another. */
  const DEFAULT_VIDEO_PATH: string := "/storage/emulated/0/DCIM/Camera1/"

  class HookMain {
    var video_path: string

    // Camera1 state.
    var mSurface: Surface?
    var mSurfacetexture: SurfaceTexture?
    var mMediaPlayer: MediaPlayer?
    var fake_SurfaceTexture: SurfaceTexture?
    var origin_preview_camera: Camera?
    var camera_onPreviewFrame: Camera?
    var start_preview_camera: Camera?
    /** The latest decoded NV21 frame; starts as the one-byte array `{0}`. */
    var data_buffer: seq<byte>
    var mhight: int
    var mwidth: int
    var is_someone_playing: bool
    var is_hooked: bool
    var hw_decode_obj: VideoToFrames?
    var c1_fake_texture: SurfaceTexture?
    var c1_fake_surface: Surface?
    var ori_holder: SurfaceHolder?
    var mplayer1: MediaPlayer?
    var mcamera1: Camera?
    /** The class of the last preview callback, by name. */
    var camera_callback_calss: Option<string>

    // Camera2 state.
    var c2_preview_Surfcae: Surface?
    var c2_preview_Surfcae_1: Surface?
    var c2_reader_Surfcae: Surface?
    var c2_reader_Surfcae_1: Surface?
    var c2_player: MediaPlayer?
    var c2_player_1: MediaPlayer?
    var c2_virtual_surface: Surface?
    var c2_virtual_surfaceTexture: SurfaceTexture?
    var need_recreate: bool
    var c2_state_cb: CameraStateCallback?
    var c2_builder: CaptureRequestBuilder?
    var fake_sessionConfiguration: SessionConfiguration?
    var sessionConfiguration: SessionConfiguration?
    var outputConfiguration: OutputConfiguration?
    var imageReaderFormat: int
    var is_first_hook_build: bool
    var c2_ori_width: int
    var c2_ori_height: int
    /** The class of the last camera state callback, by name. */
    var c2_state_callback: Option<string>
    var c2_hw_decode_obj: VideoToFrames?
    var c2_hw_decode_obj_1: VideoToFrames?

    /** The values the static initialisers give. */
    constructor ()
      ensures video_path == DEFAULT_VIDEO_PATH && data_buffer == [0]
      ensures mSurface == null && mSurfacetexture == null && mMediaPlayer == null && fake_SurfaceTexture == null
      ensures origin_preview_camera == null && camera_onPreviewFrame == null && start_preview_camera == null
      ensures mhight == 0 && mwidth == 0 && !is_someone_playing && !is_hooked && hw_decode_obj == null
      ensures c1_fake_texture == null && c1_fake_surface == null && ori_holder == null && mplayer1 == null
      ensures mcamera1 == null && camera_callback_calss == None
      ensures c2_preview_Surfcae == null && c2_preview_Surfcae_1 == null
      ensures c2_reader_Surfcae == null && c2_reader_Surfcae_1 == null
      ensures c2_player == null && c2_player_1 == null && c2_virtual_surface == null && c2_virtual_surfaceTexture == null
      ensures !need_recreate && c2_state_cb == null && c2_builder == null
      ensures fake_sessionConfiguration == null && sessionConfiguration == null && outputConfiguration == null
      ensures imageReaderFormat == 0 && is_first_hook_build && c2_ori_width == 1280 && c2_ori_height == 720
      ensures c2_state_callback == None && c2_hw_decode_obj == null && c2_hw_decode_obj_1 == null
    {
      video_path := DEFAULT_VIDEO_PATH;
      mSurface, mSurfacetexture, mMediaPlayer, fake_SurfaceTexture := null, null, null, null;
      origin_preview_camera, camera_onPreviewFrame, start_preview_camera := null, null, null;
      data_buffer := [0];
      mhight, mwidth := 0, 0;
      is_someone_playing, is_hooked := false, false;
      hw_decode_obj := null;
      c1_fake_texture, c1_fake_surface, ori_holder, mplayer1, mcamera1 := null, null, null, null, null;
      camera_callback_calss := None;
      c2_preview_Surfcae, c2_preview_Surfcae_1, c2_reader_Surfcae, c2_reader_Surfcae_1 := null, null, null, null;
      c2_player, c2_player_1 := null, null;
      c2_virtual_surface, c2_virtual_surfaceTexture := null, null;
      need_recreate := false;
      c2_state_cb, c2_builder := null, null;
      fake_sessionConfiguration, sessionConfiguration, outputConfiguration := null, null, null;
      imageReaderFormat := 0;
      is_first_hook_build := true;
      c2_ori_width, c2_ori_height := 1280, 720;
      c2_state_callback := None;
      c2_hw_decode_obj, c2_hw_decode_obj_1 := null, null;
    }
  }

  /**
   * The frame hand-off inside the decode loop of `VideoToFrames`: a decoder
   * that renders to no surface and was given an output format copies each
   * decoded image, packed as NV21, into `data_buffer`. A decoder that
   * renders to a surface, or has no output format, or gets no image, leaves
   * `data_buffer` alone; so does an image in a format the packer refuses,
   * whose exception ends the decode loop.
   */
  method PublishFrame(st: HookMain, decoder: VideoToFrames, image: Option<ImagePacking.Image>)
    requires image.Some? && ImagePacking.IsImageFormatSupported(image.value.format) ==>
      ImagePacking.ImageFits(image.value, ImagePacking.COLOR_FORMAT_NV21)
    modifies st`data_buffer
    ensures var publishes := decoder.playSurface == null && decoder.outputImageFormat.Some? && image.Some? &&
                             ImagePacking.IsImageFormatSupported(image.value.format);
      && (publishes ==> ImagePacking.Packed(st.data_buffer, image.value, ImagePacking.COLOR_FORMAT_NV21)
                        && ImagePacking.ZeroOutside(st.data_buffer, image.value, ImagePacking.COLOR_FORMAT_NV21)
                        && |st.data_buffer| == ImagePacking.CropWidth(image.value) * ImagePacking.CropHeight(image.value) * 3 / 2)
      && (!publishes ==> st.data_buffer == old(st.data_buffer))
  {
    if decoder.playSurface == null && image.Some? && decoder.outputImageFormat.Some? {
      var packed := ImagePacking.GetDataFromImage(image.value, ImagePacking.COLOR_FORMAT_NV21);
      if packed.Ok? {
        st.data_buffer := packed.value[..];
      }
    }
  }
}
