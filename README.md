# vcam virtual camera — verified model of its core

vcam is an Xposed module that replaces what an Android application sees through the camera
with a video file (`virtual.mp4`) from the `DCIM/Camera1/` directory. This project models its
core in Dafny and proves properties of that model:

- **Frame production** (`VideoToFrames.java`):
  - the decoder object's fields and entry points (`setSaveFrames`, `setSurface`, `stopDecode`,
    `decode`);
  - the track and colour-format choice `videoDecode` makes;
  - the arithmetic that paces decoded frames against their presentation times;
  - `getDataFromImage`, which packs the three planes of a YUV 4:2:0 `Image` into one I420 or
    NV21 byte array (module `ImagePacking`);
  - the hand-off of each packed frame into `HookMain.data_buffer` (module `HookState`).
- **Still-image conversion** (`Camera1Hook.rgb2YCbCr420` and `getYUVByBitmap`): packed RGB
  pixels become a 4:2:0 frame. Luma comes first; then comes one line of interleaved (U, V)
  pairs per two pixel rows. The integer weights are the 8-bit approximation of the encoding
  equations of Rec. ITU-R BT.601 (module `YuvConvert`).
- **The legacy camera hooks** (`Camera1Hook`): `setPreviewTexture`, `setPreviewDisplay` and
  its nested `setPreviewTexture` handshake through `is_hooked`, `addCallbackBuffer`, the
  `onPreviewFrame` hook that `processCallback` installs, and `startPreview` with its mute
  arbitration through `is_someone_playing`.
- **The Camera2 hooks** (`Camera2Hook`): `openCamera`, `addTarget`, `removeTarget`,
  `build` and `processCamera2Play`, `createVirtualSurface`, the `onOpened` reset, the
  `ImageReader.newInstance` observer and the session-creation argument rewrites.

The static fields of `HookMain` are the fields of one class, `HookState.HookMain`. Each hook
body is a method on it. The method takes the hooked call's arguments and returns the
arguments the real method receives. Every file-flag check a hook body makes is a boolean
input, one per check: `hasVirtualVideo`, `isDisabled` and the `no-silent.jpg` check. Android
objects (`Surface`, `SurfaceTexture`, `MediaPlayer`, `Camera`, the capture builder and the
callbacks) are small classes in module `Platform`. They keep only the state the hooks set or
test.

Files:
- `common.dfy`: Option, Result and byte types; string search; arithmetic helpers.
- `platform.dfy`: the Android objects.
- `decoder.dfy`: `VideoToFrames`.
- `packing.dfy`: `getDataFromImage`.
- `yuv.dfy`: `rgb2YCbCr420`.
- `hook_main.dfy`: the `HookMain` statics and the frame hand-off.
- `camera1.dfy`, `camera2.dfy`: the hooks.

Source paths below are relative to the repository root.

## Model

| member | source | states |
|---|---|---|
| Decoder.VideoToFrames.SetSaveFrames | app/src/main/java/com/android/vcam/VideoToFrames.java:57-59 | The requested output format is recorded; the directory argument is ignored. |
| Decoder.VideoToFrames.SetSurface | app/src/main/java/com/android/vcam/VideoToFrames.java:61-70 | A non-null surface becomes the play surface; a null surface leaves the play surface as it was. |
| Decoder.VideoToFrames.StopDecode | app/src/main/java/com/android/vcam/VideoToFrames.java:72-74 | Only the stop flag is raised, so a second call changes nothing. |
| Decoder.VideoToFrames.Decode | app/src/main/java/com/android/vcam/VideoToFrames.java:76-85 | The path is recorded. A thread is started exactly when none was, so one decoder object never starts more than one thread. |
| Decoder.SelectTrack | app/src/main/java/com/android/vcam/VideoToFrames.java:245-256 | The result is the smallest index whose MIME type starts with "video/", or -1 exactly when no track is a video track. |
| Decoder.IsColorFormatSupported | app/src/main/java/com/android/vcam/VideoToFrames.java:158-163 | True exactly when the format occurs in the codec's capability list. |
| Decoder.ConfigureDecode | app/src/main/java/com/android/vcam/VideoToFrames.java:104-123 | No plan (no codec is configured) exactly when there is no video track. Otherwise the plan picks the first video track and asks for the flexible YUV 4:2:0 format exactly when the codec lists it. |
| Decoder.MicrosToMillis | app/src/main/java/com/android/vcam/VideoToFrames.java:227 | Java's `long` division by 1000 truncates toward zero: the result times 1000 lies within 1000 of the input, on the zero side. |
| Decoder.PaceFrame | app/src/main/java/com/android/vcam/VideoToFrames.java:195-235 | An empty output buffer changes nothing. A non-empty one fixes the start time at its own clock reading if it is the first. The sleep is never negative, and after it the clock is at the frame's due time, or unchanged when the frame is already late. |
| Decoder.StartWhenSettles | app/src/main/java/com/android/vcam/VideoToFrames.java:200-203 | Once the first frame has been seen, later frames never move the start time. |
| Decoder.StartWhenIsFirstFrameClock | app/src/main/java/com/android/vcam/VideoToFrames.java:166-203 | Over a whole pass, the start time is the clock reading taken at the first non-empty output buffer. A pass with none keeps the initial pacer. |
| ImagePacking.GetDataFromImage | app/src/main/java/com/android/vcam/VideoToFrames.java:258-328 | A colour format other than I420 or NV21 gives IllegalArgument. Otherwise an image format other than YUV_420_888, NV21 or YV12 gives UnsupportedFormat. Otherwise the array is `cropW * cropH * 3 / 2` bytes, every plane is laid out as its colour format prescribes, and every byte no plane is copied to is still 0. |
| ImagePacking.CopyPlaneOf | app/src/main/java/com/android/vcam/VideoToFrames.java:283-325 | One pass of the plane loop places plane `i` at the offset and stride the switch picks and touches no output byte outside that plane's slots. |
| ImagePacking.CopyShiftedPlane | app/src/main/java/com/android/vcam/VideoToFrames.java:298-325 | The chroma planes are copied at half size from the halved crop origin. |
| ImagePacking.CopyPlane | app/src/main/java/com/android/vcam/VideoToFrames.java:307-325 | Row `r` is read exactly `r * rowStride` past the cropped origin, because the buffer is advanced only between rows. Sample (r, c) lands at `offset + (r * w + c) * stride`, and nothing outside the plane's slots changes. |
| ImagePacking.CopyRow | app/src/main/java/com/android/vcam/VideoToFrames.java:309-321 | Both branches meet one contract, so the bulk copy writes the same bytes as the per-sample loop. The row reads `w` bytes (bulk) or `(w - 1) * pixelStride + 1` bytes (per sample). |
| ImagePacking.BulkRow | app/src/main/java/com/android/vcam/VideoToFrames.java:310-313 | The `w` bytes from the buffer position land consecutively from `channelOffset`, and every other byte is unchanged. |
| ImagePacking.ReadRow | app/src/main/java/com/android/vcam/VideoToFrames.java:315-316 | The scratch row holds the next `length` bytes of the buffer. |
| ImagePacking.ScatterRow | app/src/main/java/com/android/vcam/VideoToFrames.java:317-320 | Every `pixelStride`-th byte of the scratch row goes to the next `outputStride`-spaced slot, and nothing outside those slots changes. |
| ImagePacking.PlaneInBounds | app/src/main/java/com/android/vcam/VideoToFrames.java:277-296 | Every plane's slots lie inside the `w * h * 12 / 8` bytes for both colour formats. |
| ImagePacking.PlaneKept | app/src/main/java/com/android/vcam/VideoToFrames.java:283-326 | Copying a later plane never overwrites an earlier plane's samples. |
| ImagePacking.CoveredStep | app/src/main/java/com/android/vcam/VideoToFrames.java:283-326 | The bytes the first `i + 1` planes fill are those of the first `i` and those of plane `i`; the loop invariant that unfilled bytes stay 0 is carried by it. |
| ImagePacking.PlanesTileFrame | app/src/main/java/com/android/vcam/VideoToFrames.java:266-296 | With an even crop width and height, the three planes fill every byte of the array in both colour formats, so no zero is left over. |
| ImagePacking.PackedDetermines | app/src/main/java/com/android/vcam/VideoToFrames.java:266-326 | Two arrays of the same length that both hold every plane in place and 0 elsewhere are equal: the image alone decides the packed bytes. |
| ImagePacking.OnePixelNv21Fits | app/src/main/java/com/android/vcam/VideoToFrames.java:298-325 | A 1 x 1 NV21 image with chroma pixel stride 2 is accepted (its chroma planes have no rows), and its packed array is its one luma byte. |
| ImagePacking.LumaAt | app/src/main/java/com/android/vcam/VideoToFrames.java:304-325 | Output byte `r * w + c` is luma sample `rowStride * (top + r) + pixelStride * (left + c)` of plane 0. |
| ImagePacking.I420ChromaAt | app/src/main/java/com/android/vcam/VideoToFrames.java:289-296 | I420: U runs contiguously from `w * h` and V contiguously from `5 * w * h / 4`, each at half size and half crop origin. |
| ImagePacking.Nv21ChromaAt | app/src/main/java/com/android/vcam/VideoToFrames.java:289-296 | NV21: plane 2 (V) sample `k` is at `w * h + 2k` and plane 1 (U) sample `k` right after it. |
| YuvConvert.ClampsNeverApply | app/src/main/java/com/android/vcam/Camera1Hook.java:393-400 | For every pixel, Y lies in 16..235 and U, V in 16..240, so none of the clamps changes a value. |
| YuvConvert.Rgb2YCbCr420 | app/src/main/java/com/android/vcam/Camera1Hook.java:388-407 | The conversion succeeds exactly when there are no pixels or both sides are even. Otherwise a chroma write falls past the end, and the error carries that write's index: past the frame, and the U index of some pixel or the V index after it. On success, luma byte `i * w + j` is pixel (i, j)'s. Each chroma slot holds the U (even slot) or V (odd slot) of the bottom-right pixel of its 2x2 block, the last writer in scan order. |
| YuvConvert.ConvertRow | app/src/main/java/com/android/vcam/Camera1Hook.java:392-404 | One pixel row extends the done luma by a row and settles the chroma slots whose blocks it completes. It fails only when a side is odd, reporting the out-of-range index of the failing pixel's chroma write. |
| YuvConvert.ConvertPixel | app/src/main/java/com/android/vcam/Camera1Hook.java:393-403 | One pixel writes its luma and its (U, V) pair at `len + (i >> 1) * w + (j & ~1)`. It fails only when a side is odd, reporting the first of the two indices past the frame (U, or else V). |
| YuvConvert.PixelStep | app/src/main/java/com/android/vcam/Camera1Hook.java:401-403 | If every slot settled before pixel (i, j) holds its final byte, then after the pixel's three writes every slot settled after it does too: the pair it writes becomes final and no slot settled earlier is overwritten. |
| YuvConvert.ChromaFits | app/src/main/java/com/android/vcam/Camera1Hook.java:402-403 | With both sides even, every pixel's U and V indices are inside the frame. |
| YuvConvert.LastPairFits | app/src/main/java/com/android/vcam/Camera1Hook.java:402-403 | If the last pixel's V index is inside the frame, both sides are even. |
| YuvConvert.ChromaTilesFrame | app/src/main/java/com/android/vcam/Camera1Hook.java:390-403 | With both sides even, every byte past the luma is some chroma slot, so the frame is fully determined. |
| YuvConvert.GetYuvByBitmap | app/src/main/java/com/android/vcam/Camera1Hook.java:409-415 | No bitmap gives no frame; otherwise the result is the conversion of its pixels at its own size. |
| HookState.HookMain.constructor | app/src/main/java/com/android/vcam/HookMain.java:31-80 | The statics' initial values: `data_buffer` is `{0}`, not null; `is_first_hook_build` is true; the Camera2 size is 1280x720; everything else is null, false or 0. |
| HookState.PublishFrame | app/src/main/java/com/android/vcam/VideoToFrames.java:204-221 | A decoder with no play surface and an output format publishes each image packed as NV21 into `data_buffer`, with 0 in every byte no plane fills; otherwise `data_buffer` is left alone. |
| Camera1Hook.SetPreviewTexture | app/src/main/java/com/android/vcam/Camera1Hook.java:46-75 | The five checks in order: no video or disabled; a pending `is_hooked` (consumed); a null texture or the display fake; a camera seen before (gets the current fake); otherwise the camera and texture are recorded and a fresh fake, named 10, replaces the released old one. |
| Camera1Hook.SetPreviewDisplay | app/src/main/java/com/android/vcam/Camera1Hook.java:228-258 | With video and enabled, it records the camera and holder, makes new display fakes, raises `is_hooked` before the nested `setPreviewTexture` and suppresses the original. The nested hook passes the fake through and lowers the flag unless its own checks stop it first. |
| Camera1Hook.ReplaceDisplayFakes | app/src/main/java/com/android/vcam/Camera1Hook.java:238-251 | The old display texture and surface are released and fresh ones, named 11, take their place, the surface drawing into the new texture. |
| Camera1Hook.AddCallbackBuffer | app/src/main/java/com/android/vcam/Camera1Hook.java:107-111 | A non-null buffer is replaced by a fresh all-zero array of the same length; null passes through. |
| Camera1Hook.CopyPrefix | app/src/main/java/com/android/vcam/Camera1Hook.java:280-281 | Exactly the first `min(data_buffer.length, dst.length)` bytes are copied; the rest of `dst` is unchanged. |
| Camera1Hook.OnPreviewFrame | app/src/main/java/com/android/vcam/Camera1Hook.java:263-307 | Takes the three checks `processCallback` makes when it installs the hook (disabled, video present, video still present after the toast update). For the camera already served, it only copies the latest frame. A new camera is recorded with its class and preview size. The old decoder is stopped, a fresh, un-stopped NV21 decoder of the video is started and the frame is copied exactly when the module is enabled and both video checks pass; otherwise the hook returns after recording the camera, the decoder untouched. |
| Camera1Hook.StartPreview | app/src/main/java/com/android/vcam/Camera1Hook.java:152-220 | With the video missing or the module disabled, nothing changes, including the existing players and surface. Otherwise the holder player is replaced (the old one released) and bound to the holder's surface only while that surface is valid; the texture player and its new surface are bound after it, replacing and releasing the old ones. What is not replaced is left as it was: `mplayer1` without a holder, `mSurface` and `mMediaPlayer` when the texture player is not bound (the two players are distinct objects, `PlayersApart`, kept by the hook). Every bound player loops over the video file, and its mute follows the no-silent flag and `is_someone_playing`. At most one of `mplayer1` and `mMediaPlayer` is left unmuted. `is_someone_playing` ends up telling whether the last bound player plays sound. All fakes stay live. |
| Camera1Hook.BindHolderPlayer | app/src/main/java/com/android/vcam/Camera1Hook.java:163-188 | A fresh `mplayer1` replaces the released old one and, while the holder's surface is valid, loops the video on it, muted by the rule. |
| Camera1Hook.BindTexturePlayer | app/src/main/java/com/android/vcam/Camera1Hook.java:190-219 | A fresh `mSurface` on the recorded texture and a fresh looping `mMediaPlayer` on it replace the released old ones, muted by the rule. |
| Camera2Hook.OpenCamera | app/src/main/java/com/android/vcam/Camera2Hook.java:51-65 | A null callback or the one seen last is a no-op. Any other is recorded with its class before the flag checks; the `onOpened` hooks are installed exactly when the checks pass. |
| Camera2Hook.OpenCameraWithExecutor | app/src/main/java/com/android/vcam/Camera2Hook.java:73-87 | As `openCamera`, but the callback's class is recorded only once the checks pass. |
| Camera2Hook.CreateVirtualSurface | app/src/main/java/com/android/vcam/Camera2Hook.java:267-288 | Returns with `need_recreate` false and the virtual surface in place. A new surface on a new texture named 15 is made exactly when `need_recreate` was set or there was no surface, the old texture and surface being released first. |
| Camera2Hook.Track | app/src/main/java/com/android/vcam/Camera2Hook.java:104-117 | An occupied slot is never overwritten and at most one slot changes. The target is remembered exactly when a slot was free or it was already there. A target already in the first slot is not copied into the second. |
| Camera2Hook.Untrack | app/src/main/java/com/android/vcam/Camera2Hook.java:136-140 | Every slot holding the target is emptied and every other slot is kept. |
| Camera2Hook.TrackIdempotent | app/src/main/java/com/android/vcam/Camera2Hook.java:104-117 | Adding a target twice is the same as adding it once. |
| Camera2Hook.UntrackTrackFirst | app/src/main/java/com/android/vcam/Camera2Hook.java:104-140 | Removing then re-adding a target held only in the first slot restores the slots. |
| Camera2Hook.DuplicateAfterRemove | app/src/main/java/com/android/vcam/Camera2Hook.java:104-140 | After the first slot's surface is removed, re-adding the surface of the second slot puts it in both slots. |
| Camera2Hook.AddTarget | app/src/main/java/com/android/vcam/Camera2Hook.java:96-119 | A null target, a missing video, the virtual surface itself or the disabled flag leave the target and the state alone. Otherwise the target is tracked among the readers (description contains "Surface(name=null)") or the previews, and the camera gets the virtual surface. The virtual surface is never tracked. |
| Camera2Hook.RemoveTarget | app/src/main/java/com/android/vcam/Camera2Hook.java:129-141 | Unless null, no video or disabled, every tracked slot equal to the target is emptied in both roles. |
| Camera2Hook.NewReaderDecoder | app/src/main/java/com/android/vcam/Camera2Hook.java:205-213 | A fresh decoder with its thread started, in the given format, drawing into the target. |
| Camera2Hook.NewPreviewPlayer | app/src/main/java/com/android/vcam/Camera2Hook.java:231-245 | A fresh looping player of the video on the target, silenced unless the no-silent flag exists. |
| Camera2Hook.PlayReaders | app/src/main/java/com/android/vcam/Camera2Hook.java:200-229 | Each non-empty reader slot gets a new decoder after the old one is stopped; an empty slot keeps its decoder, object unchanged. The two slots' decoders stay distinct objects (`PlaybackApart`). |
| Camera2Hook.PlayPreviews | app/src/main/java/com/android/vcam/Camera2Hook.java:230-263 | Each non-empty preview slot gets a new player after the old one is released; an empty slot keeps its player, object unchanged. The two slots' players stay distinct objects (`PlaybackApart`). |
| Camera2Hook.ProcessCamera2Play | app/src/main/java/com/android/vcam/Camera2Hook.java:199-265 | Both halves together, in JPEG exactly when the reader format is 256; an empty slot's decoder or player is left unchanged. No decoder or player draws into the virtual surface. |
| Camera2Hook.Build | app/src/main/java/com/android/vcam/Camera2Hook.java:151-161 | The builder seen last is a no-op. Any other is recorded, and the targets are played exactly when the video is present and the hooks are enabled. When played, each recorded reader surface gets a new decoder of the video in the last reader's format (JPEG for 256, NV21 otherwise) and each recorded preview surface a new looping player, the old ones stopped or released, none on the virtual surface; an empty slot's decoder or player is left unchanged. When not played, no decoder or player is replaced or touched. |
| Camera2Hook.ShutDown | app/src/main/java/com/android/vcam/Camera2Hook.java:297-299 | A player is stopped, reset and released. |
| Camera2Hook.RecreateVirtualSurface | app/src/main/java/com/android/vcam/Camera2Hook.java:294-295 | Raising `need_recreate` first always gives a fresh virtual surface, the old one released. |
| Camera2Hook.StopPlayback | app/src/main/java/com/android/vcam/Camera2Hook.java:296-315 | Both players are stopped, reset, released and forgotten; both decoders are stopped and forgotten. |
| Camera2Hook.ForgetTargets | app/src/main/java/com/android/vcam/Camera2Hook.java:316-320 | All four slots are empty and `is_first_hook_build` is true. |
| Camera2Hook.OnOpened | app/src/main/java/com/android/vcam/Camera2Hook.java:293-343 | After the reset: a fresh virtual surface, all players and decoders shut down and null (so `PlaybackApart` holds again), all slots empty, `is_first_hook_build` true. The session hooks are installed exactly when the video is present. |
| Camera2Hook.ImageReaderNewInstance | app/src/main/java/com/android/vcam/Camera2Hook.java:170-174 | The reader's width, height and format are recorded; nothing else changes. |
| Camera2Hook.Redirect | app/src/main/java/com/android/vcam/Camera2Hook.java:366-457 | When the checked argument is present, the written argument becomes the replacement and every other argument is kept; when it is null, nothing changes. |
| Camera2Hook.CreateCaptureSession | app/src/main/java/com/android/vcam/Camera2Hook.java:365-373 | A present output list becomes the singleton list of the virtual surface; the callback and handler pass through. The `createConstrainedHighSpeedCaptureSession` hook (lines 398-406) makes the same rewrite and is modelled by this function. |
| Camera2Hook.CreateReprocessableCaptureSession | app/src/main/java/com/android/vcam/Camera2Hook.java:414-422 | A present output list, the second argument, becomes the singleton list of the virtual surface. |
| Camera2Hook.NewVirtualOutput | app/src/main/java/com/android/vcam/Camera2Hook.java:383 | A fresh output configuration of the virtual surface, kept in `outputConfiguration`. |
| Camera2Hook.CreateCaptureSessionByOutputConfigurations | app/src/main/java/com/android/vcam/Camera2Hook.java:381-390 | A present configuration list becomes one configuration of the virtual surface. |
| Camera2Hook.CreateReprocessableCaptureSessionByConfigurations | app/src/main/java/com/android/vcam/Camera2Hook.java:430-439 | As written: it checks the outputs (argument 1) but writes the configuration list over argument 0, so argument 1, the application's outputs, passes through unchanged. |
| Camera2Hook.CreateCaptureSessionWithConfiguration | app/src/main/java/com/android/vcam/Camera2Hook.java:447-459 | The application's configuration is recorded and replaced by a fresh one with the same session type and state callback whose only output is the virtual surface. |

## Left out

- The MediaCodec/MediaExtractor decode loop, its restart at end of file, the worker thread, `Thread.sleep` and `System.currentTimeMillis`. These are foreign calls and real-time concurrency. Clock readings are inputs to `PaceFrame`. `decode` records the path and starts a `Thread` object that runs nothing.
- The `mQueue` hand-off and the decode callbacks (`onDecodeFrame`, `onFinishDecode`): the hooks never install them.
- MediaPlayer, Surface and SurfaceTexture native behaviour (`prepare`, `start`, rendering, the `onPrepared` listener). The model keeps only the fields the hooks set: surface, volume, looping, data source, stopped, reset, released.
- Bitmap decoding and JPEG compression (`getBMP`, `Bitmap.compress`), and the still-capture hooks that use them (`processAShotJpeg`, `processAShotYUV`, `hookTakePicture`). They are library calls.
- The `MediaRecorder.setCamera` hook, all toasts, `Logger`, `MainActivity`, `onCaptureFailed`, `onError`, `onDisconnected` and the session state-callback logging hooks. They only log or show messages.
- The `video_path` selection in `HookMain.hookApplicationOnCreate`, which depends on permissions and I/O. `video_path` keeps its initial value unless changed directly.
- Xposed itself. Installing a hook is a boolean result (`OpenCamera`, `OnOpened`). Repeated `findAndHookMethod` calls on the same class add further hooks in Xposed; the model does not count them.
- Camera2Hook.AddTarget: the `param.thisObject == null` check, here and in the `removeTarget` and `build` hooks, is not modelled, since the builder receiving the call is never null.
- Camera1Hook.OnPreviewFrame: the busy-wait `while (data_buffer == null)` is not modelled. `data_buffer` starts as `{0}` and is only ever set to a packed frame, so it is never null here.
- ImagePacking.GetDataFromImage: plane buffers too short for the crop rectangle would throw `BufferUnderflowException`. The model requires the layout an Android `Image` guarantees (`ImageFits`) instead of modelling that path. Two `IndexOutOfBoundsException` paths are excluded the same way: a chroma plane whose halved width is 0 but which has rows (crop width 1, crop height at least 2) asks `buffer.get(rowData, 0, -1)`; and a strided row longer than `planes[0].getRowStride()` overruns `rowData`. A plane with no rows reads nothing and is accepted.
- ImagePacking.ChannelOffset: `(int) (width * height * 1.25)` is the integer `5 * width * height / 4`. The two agree while `width * height` stays below 2^53.
- Java's 32-bit `int` arithmetic. Sizes and indices are unbounded integers, so overflow of `width * height` or of an index expression is not modelled. Pixel values are 32-bit (`int32`) and bytes are their unsigned bit pattern.
- Camera2Hook.NewVirtualOutput: requires a virtual surface. The session hooks that call it are installed only by `OnOpened`, which always leaves one in place, so the null case does not arise.
- Camera2Hook.CreateCaptureSessionWithConfiguration: the executor of the `SessionConfiguration` is not modelled; only its session type, outputs and state callback are.
- The `VERBOSE` logging branches and `logSupportedColorFormats`: `VERBOSE` is false.
- `rgb2YCbCr420` is modelled as written: `r` is bits 0–7 and `b` bits 16–23 of the pixel, and the chroma pair is stored U then V.
