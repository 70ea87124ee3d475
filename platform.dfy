/**
 * Stand-ins for the Android objects the hooks create, pass around and release.
 * Only the state the hooks read or change is kept: identity (Dafny object
 * identity, as Java's `equals` on these classes is identity), the description
 * `Surface.toString()` reports, and the lifecycle flags set by the calls the
 * hooks make. Native rendering and playback are not modelled.
 */
module Platform {

  class SurfaceTexture {
    const texName: int
    var released: bool

    constructor (texName: int)
      ensures this.texName == texName && !released
    {
      this.texName := texName;
      released := false;
    }

    method Release()
      modifies this`released
      ensures released
    {
      released := true;
    }
  }

  class Surface {
    /** The text `toString()` returns, e.g. "Surface(name=null)/@0x1c2d3e" for an ImageReader target. */
    const description: string
    /** The texture a surface built with `new Surface(texture)` draws into. */
    const texture: SurfaceTexture?
    var valid: bool
    var released: bool

    /** A surface the camera client created (a view, an ImageReader, a MediaCodec input). */
    constructor Client(description: string)
      ensures this.description == description && texture == null && valid && !released
    {
      this.description := description;
      texture := null;
      valid := true;
      released := false;
    }

    /** `new Surface(texture)`. */
    constructor FromTexture(texture: SurfaceTexture)
      ensures this.texture == texture && valid && !released
    {
      description := "Surface(name=android.graphics.SurfaceTexture)";
      this.texture := texture;
      valid := true;
      released := false;
    }

    method Release()
      modifies this`released, this`valid
      ensures released && !valid
    {
      released := true;
      valid := false;
    }
  }

  class SurfaceHolder {
    const surface: Surface

    constructor (surface: Surface)
      ensures this.surface == surface
    {
      this.surface := surface;
    }
  }

  class Camera {
    /** `getParameters().getPreviewSize()`. */
    var previewWidth: int
    var previewHeight: int

    constructor (previewWidth: int, previewHeight: int)
      ensures this.previewWidth == previewWidth && this.previewHeight == previewHeight
    {
      this.previewWidth := previewWidth;
      this.previewHeight := previewHeight;
    }
  }

  class MediaPlayer {
    var surface: Surface?
    /** `setVolume(0, 0)` was called. */
    var muted: bool
    var looping: bool
    var dataSource: string
    var stopped: bool
    var resetDone: bool
    var released: bool

    constructor ()
      ensures surface == null && !muted && !looping && dataSource == ""
      ensures !stopped && !resetDone && !released
    {
      surface := null;
      muted, looping, dataSource := false, false, "";
      stopped, resetDone, released := false, false, false;
    }

    method SetSurface(s: Surface?)
      modifies this`surface
      ensures surface == s
    {
      surface := s;
    }

    /** `setVolume(0, 0)`. */
    method Mute()
      modifies this`muted
      ensures muted
    {
      muted := true;
    }

    method SetLooping(b: bool)
      modifies this`looping
      ensures looping == b
    {
      looping := b;
    }

    method SetDataSource(path: string)
      modifies this`dataSource
      ensures dataSource == path
    {
      dataSource := path;
    }

    method Stop()
      modifies this`stopped
      ensures stopped
    {
      stopped := true;
    }

    method Reset()
      modifies this`resetDone
      ensures resetDone
    {
      resetDone := true;
    }

    method Release()
      modifies this`released
      ensures released
    {
      released := true;
    }
  }

  class Thread {
    var started: bool

    constructor ()
      ensures !started
    {
      started := false;
    }

    method Start()
      modifies this`started
      ensures started
    {
      started := true;
    }
  }

  /** `CaptureRequest.Builder`; only its identity matters. */
  class CaptureRequestBuilder {
    constructor ()
    {
    }
  }

  /** `CameraDevice.StateCallback`; the hooks record its identity and its class. */
  class CameraStateCallback {
    const className: string

    constructor (className: string)
      ensures this.className == className
    {
      this.className := className;
    }
  }

  /** `CameraCaptureSession.StateCallback`. */
  class SessionStateCallback {
    constructor ()
    {
    }
  }

  class InputConfiguration {
    constructor ()
    {
    }
  }

  class OutputConfiguration {
    const surface: Surface

    constructor (surface: Surface)
      ensures this.surface == surface
    {
      this.surface := surface;
    }
  }

  class SessionConfiguration {
    const sessionType: int
    const outputs: seq<OutputConfiguration>
    const stateCallback: SessionStateCallback?

    constructor (sessionType: int, outputs: seq<OutputConfiguration>, stateCallback: SessionStateCallback?)
      ensures this.sessionType == sessionType && this.outputs == outputs && this.stateCallback == stateCallback
    {
      this.sessionType := sessionType;
      this.outputs := outputs;
      this.stateCallback := stateCallback;
    }
  }
}
