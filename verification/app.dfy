/** The page and its capture zone together: the zone hands captured images
    to the page's capture handler, the page tells the zone whether it is
    processing, and every capture schedules a timer callback. Timers are
    never cancelled, so the page may receive a callback after a reset.

    A user action whose control is not on screen or is disabled cannot
    happen; stepping with it leaves the state as it is. */
module App {
  import opened Js
  import opened Schema
  import Home
  import CaptureZone

  datatype AppState = AppState(home: Home.HomeState, zone: CaptureZone.ZoneState, pendingTimers: nat)

  datatype Action =
    | Zone(ev: CaptureZone.ZoneEvent)
    | ChooseDirection(d: Direction)
    | NewPhoto
    | TimerFires

  function Initial(): AppState
  {
    AppState(Home.Initial(), CaptureZone.Initial, 0)
  }

  /** Whether an action can happen: zone controls as the zone renders them
      under the page's processing flag; the direction buttons always; the
      new-photo button whenever the results section is shown; a timer
      callback when one is scheduled. */
  predicate Enabled(a: AppState, act: Action)
  {
    match act
    case Zone(ev) => CaptureZone.Enabled(a.zone, Home.IsProcessing(a.home), ev)
    case ChooseDirection(_) => true
    case NewPhoto => a.home.hasImage
    case TimerFires => a.pendingTimers > 0
  }

  function Step(a: AppState, act: Action): (r: AppState)
    ensures !Enabled(a, act) ==> r == a
    ensures r.home.direction == (if act.ChooseDirection? && Enabled(a, act) then act.d else a.home.direction)
  {
    if !Enabled(a, act) then a
    else
      match act
      case Zone(ev) =>
        var h := CaptureZone.Step(a.zone, ev);
        if h.captured.Some? then
          AppState(Home.HandleImageCapture(a.home, h.captured.value), h.zone, a.pendingTimers + 1)
        else
          a.(zone := h.zone)
      case ChooseDirection(d) => a.(home := Home.SetDirection(a.home, d))
      case NewPhoto => a.(home := Home.HandleReset(a.home))
      case TimerFires => AppState(Home.TimerComplete(a.home), a.zone, a.pendingTimers - 1)
  }

  function Run(a: AppState, acts: seq<Action>): AppState
    decreases |acts|
  {
    if |acts| == 0 then a else Run(Step(a, acts[0]), acts[1..])
  }

  /** Status and message always agree, with one message per status. */
  predicate MessageMatchesStatus(h: Home.HomeState)
  {
    || (h.status == Home.Idle && h.statusMessage == "")
    || (h.status == Home.Processing && h.statusMessage == Home.ExtractingMessage)
    || (h.status == Home.Success && h.statusMessage == Home.ReadyMessage)
  }

  /** What holds in every state the page can reach. */
  predicate Inv(a: AppState)
  {
    && CaptureZone.Exclusive(a.zone)
    && a.home.extractedText == "" && a.home.transliteratedText == ""
    && MessageMatchesStatus(a.home)
    && (a.home.status == Home.Processing ==> a.pendingTimers > 0 && a.home.hasImage && Truthy(a.zone.capturedImage))
  }

  lemma InitialInv()
    ensures Inv(Initial())
  {
  }

  lemma StepKeepsInv(a: AppState, act: Action)
    requires Inv(a)
    ensures Inv(Step(a, act))
  {
  }

  /** Every state reachable from the initial one satisfies the invariant. */
  lemma {:induction false} RunKeepsInv(a: AppState, acts: seq<Action>)
    requires Inv(a)
    ensures Inv(Run(a, acts))
    decreases |acts|
  {
    if |acts| > 0 {
      StepKeepsInv(a, acts[0]);
      RunKeepsInv(Step(a, acts[0]), acts[1..]);
    }
  }

  /** Consequences for the user: the error status is never shown, no text
      ever appears, the extracted card is greyed out exactly on success,
      and the camera never shows together with a captured image. */
  lemma ReachableFacts(acts: seq<Action>)
    ensures var a := Run(Initial(), acts);
      && a.home.status != Home.Error
      && a.home.extractedText == "" && a.home.transliteratedText == ""
      && (Home.ExtractedCardIsEmpty(a.home) <==> a.home.status == Home.Success)
      && !(a.zone.cameraActive && a.zone.capturedImage.Some?)
  {
    InitialInv();
    RunKeepsInv(Initial(), acts);
  }

  /** Processing always ends: a timer is pending, and its callback brings
      success without touching the direction or the image flag. */
  lemma ProcessingCompletes(a: AppState)
    requires Inv(a) && a.home.status == Home.Processing
    ensures Enabled(a, TimerFires)
    ensures var b := Step(a, TimerFires);
      b.home.status == Home.Success && b.home.hasImage && b.home.direction == a.home.direction
  {
  }

  /** A handed-on image starts processing; nothing else does. */
  lemma ProcessingStartsOnlyWithCapture(a: AppState, act: Action)
    requires Inv(a) && a.home.status != Home.Processing
    ensures var b := Step(a, act);
      b.home.status == Home.Processing ==> act.Zone? && b.pendingTimers == a.pendingTimers + 1 && b.zone.capturedImage.Some?
  {
  }

  /** The timer is not cancelled by a reset: after an upload and an
      immediate "New Photo", the callback still moves the idle page to
      success while the results section stays hidden. */
  lemma StaleTimerAfterReset()
    ensures var a := Run(Initial(), [Zone(CaptureZone.FileChosen(Some(FirstPhoto))), NewPhoto]);
      && a.home.status == Home.Idle
      && Enabled(a, TimerFires)
      && Step(a, TimerFires).home.status == Home.Success
      && !Step(a, TimerFires).home.hasImage
  {
    var acts := [Zone(CaptureZone.FileChosen(Some(FirstPhoto))), NewPhoto];
    var a1 := Step(Initial(), acts[0]);
    assert a1.home.status == Home.Processing && a1.pendingTimers == 1;
    assert Run(Initial(), acts) == Run(a1, acts[1..]) == Step(a1, NewPhoto);
  }

  /** Processing freezes the capture zone: the captured image is on screen,
      so the placeholder and the camera view, and with them every upload
      control, are hidden, and the image's reset button is disabled. */
  lemma ZoneFrozenWhileProcessing(acts: seq<Action>)
    ensures var a := Run(Initial(), acts);
      Home.IsProcessing(a.home) ==>
        && CaptureZone.ShowsImage(a.zone)
        && (forall ev :: !Enabled(a, Zone(ev)))
  {
    InitialInv();
    RunKeepsInv(Initial(), acts);
  }

  /** Two data URLs of chosen files. */
  const FirstPhoto: CaptureZone.DataUrl := "data:image/png;base64,AAAA"
  const SecondPhoto: CaptureZone.DataUrl := "data:image/png;base64,BBBB"

  /** Two captures can still be pending at once: "New Photo" and the zone's
      reset leave the first timer scheduled, and a second upload schedules
      another. */
  lemma OverlappingCaptures()
    ensures var a := Run(Initial(), [Zone(CaptureZone.FileChosen(Some(FirstPhoto))), NewPhoto, Zone(CaptureZone.ResetImage), Zone(CaptureZone.FileChosen(Some(SecondPhoto)))]);
      a.home.status == Home.Processing && a.pendingTimers == 2
  {
    var acts := [Zone(CaptureZone.FileChosen(Some(FirstPhoto))), NewPhoto, Zone(CaptureZone.ResetImage), Zone(CaptureZone.FileChosen(Some(SecondPhoto)))];
    var a1 := Step(Initial(), acts[0]);
    assert a1.home.status == Home.Processing && a1.pendingTimers == 1;
    var a2 := Step(a1, acts[1]);
    assert a2.home.status == Home.Idle && CaptureZone.ShowsImage(a2.zone);
    var a3 := Step(a2, acts[2]);
    assert CaptureZone.ShowsPlaceholder(a3.zone) && a3.pendingTimers == 1;
    var a4 := Step(a3, acts[3]);
    assert a4.home.status == Home.Processing && a4.pendingTimers == 2;
    assert Run(Initial(), acts) == Run(a1, acts[1..]) == Run(a2, acts[2..]) == Run(a3, acts[3..]) == Run(a4, []);
  }
}
