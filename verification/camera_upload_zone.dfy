/** The capture zone: a camera view, a file picker and the captured image,
    driven by two pieces of state. Handlers that obtain an image hand it to
    the page through the `onImageCapture` callback; a handler's result
    records the argument of that call, if it made one. The webcam
    screenshot and the file reader are not part of this model: their
    results arrive as event arguments. */
module CaptureZone {
  import opened Js

  /** What FileReader.readAsDataURL delivers: a `data:` URL, never the
      empty string. */
  type DataUrl = s: string | |s| >= 5 && s[..5] == "data:" witness "data:"

  datatype ZoneState = ZoneState(cameraActive: bool, capturedImage: Option<string>)

  /** A handler's new state and the image passed to `onImageCapture`. */
  datatype Handled = Handled(zone: ZoneState, captured: Option<string>)

  /** What the user can do in the zone. `Shutter` carries the screenshot
      (null when the webcam has none); `FileChosen` carries the data URL of
      the chosen file, or nothing when the selection was cancelled. */
  datatype ZoneEvent =
    | StartCamera
    | Shutter(screenshot: Option<string>)
    | FileChosen(dataUrl: Option<DataUrl>)
    | ResetImage
    | CloseCamera

  const Initial: ZoneState := ZoneState(false, None)

  /** The camera and a captured image are never both present. */
  predicate Exclusive(z: ZoneState)
  {
    !(z.cameraActive && z.capturedImage.Some?)
  }

  /** startCamera */
  function HandleStartCamera(z: ZoneState): (r: ZoneState)
    ensures r.cameraActive && r.capturedImage.None?
  {
    ZoneState(true, None)
  }

  /** handleCapture: a truthy screenshot is stored, closes the camera and is
      handed on; a null or empty one changes nothing. */
  function HandleCapture(z: ZoneState, screenshot: Option<string>): (h: Handled)
    ensures Truthy(screenshot) ==> h.zone == ZoneState(false, screenshot) && h.captured == screenshot
    ensures !Truthy(screenshot) ==> h.zone == z && h.captured.None?
  {
    if Truthy(screenshot) then Handled(ZoneState(false, screenshot), screenshot)
    else Handled(z, None)
  }

  /** handleFileUpload with its reader's load callback: the data URL is
      stored as it is, closes the camera and is handed on; no file selected
      changes nothing. */
  function HandleFileUpload(z: ZoneState, dataUrl: Option<DataUrl>): (h: Handled)
    ensures dataUrl.Some? ==> h.zone == ZoneState(false, dataUrl) && h.captured == dataUrl
    ensures dataUrl.None? ==> h.zone == z && h.captured.None?
  {
    if dataUrl.Some? then Handled(ZoneState(false, dataUrl), dataUrl)
    else Handled(z, None)
  }

  /** handleReset: no image, no camera. */
  function HandleReset(z: ZoneState): (r: ZoneState)
    ensures !r.cameraActive && r.capturedImage.None?
  {
    ZoneState(false, None)
  }

  /** The close-camera button: the camera goes off, the image is kept. */
  function HandleCloseCamera(z: ZoneState): (r: ZoneState)
    ensures !r.cameraActive && r.capturedImage == z.capturedImage
  {
    z.(cameraActive := false)
  }

  /** Dispatch an event to its handler. Every handler keeps the camera and
      the image exclusive, and an image only ever enters the zone together
      with the call that hands it to the page; such an image is never
      empty, so the zone then shows it. */
  function Step(z: ZoneState, ev: ZoneEvent): (h: Handled)
    ensures Exclusive(z) ==> Exclusive(h.zone)
    ensures h.captured.Some? ==> h.zone.capturedImage == h.captured && !h.zone.cameraActive && Truthy(h.captured)
    ensures h.captured.None? ==> h.zone.capturedImage == z.capturedImage || h.zone.capturedImage.None?
  {
    match ev
    case StartCamera => Handled(HandleStartCamera(z), None)
    case Shutter(s) => HandleCapture(z, s)
    case FileChosen(f) => HandleFileUpload(z, f)
    case ResetImage => Handled(HandleReset(z), None)
    case CloseCamera => Handled(HandleCloseCamera(z), None)
  }

  // ----- Rendering ---------------------------------------------------------------

  /** The placeholder with the open-camera and upload buttons. */
  predicate ShowsPlaceholder(z: ZoneState)
  {
    !z.cameraActive && !Truthy(z.capturedImage)
  }

  /** The live camera view with shutter, close and upload buttons. */
  predicate ShowsCamera(z: ZoneState)
  {
    z.cameraActive
  }

  /** The captured image with its reset button. */
  predicate ShowsImage(z: ZoneState)
  {
    Truthy(z.capturedImage)
  }

  /** Whether the control raising `ev` is on screen and not disabled. The
      shutter and the reset button are disabled while the page processes;
      the upload buttons never are. */
  predicate Enabled(z: ZoneState, isProcessing: bool, ev: ZoneEvent)
  {
    match ev
    case StartCamera => ShowsPlaceholder(z)
    case Shutter(_) => ShowsCamera(z) && !isProcessing
    case FileChosen(_) => ShowsPlaceholder(z) || ShowsCamera(z)
    case ResetImage => ShowsImage(z) && !isProcessing
    case CloseCamera => ShowsCamera(z)
  }

  /** Exactly one of the three views is on screen in every state the zone
      can be in. */
  lemma ExactlyOneView(z: ZoneState)
    requires Exclusive(z)
    ensures ShowsPlaceholder(z) || ShowsCamera(z) || ShowsImage(z)
    ensures !(ShowsPlaceholder(z) && ShowsCamera(z))
    ensures !(ShowsPlaceholder(z) && ShowsImage(z))
    ensures !(ShowsCamera(z) && ShowsImage(z))
  {
  }

  /** While the page processes, the shutter and the reset button cannot be
      used, but uploading is exactly as available as otherwise. */
  lemma ProcessingLocks(z: ZoneState, ev: ZoneEvent)
    ensures ev.Shutter? || ev.ResetImage? ==> !Enabled(z, true, ev)
    ensures ev.FileChosen? || ev.StartCamera? || ev.CloseCamera? ==> Enabled(z, true, ev) == Enabled(z, false, ev)
  {
  }

  /** An image reaches the page exactly when a truthy screenshot or a chosen
      file arrives, and it reaches it unchanged. */
  lemma CapturedIffImageArrives(z: ZoneState, ev: ZoneEvent)
    ensures var h := Step(z, ev);
      h.captured.Some? <==> (ev.Shutter? && Truthy(ev.screenshot)) || (ev.FileChosen? && ev.dataUrl.Some?)
    ensures var h := Step(z, ev);
      h.captured.Some? ==> h.captured == (if ev.Shutter? then ev.screenshot else ev.dataUrl)
  {
  }
}
