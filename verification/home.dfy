/** The page component's state and its handlers.

    Recognition and transliteration are not wired into the page: a capture
    only schedules a one-second timer whose callback reports success. The
    timer is a separate event here (see module App for when it can fire). */
module Home {
  import opened Schema

  datatype Status = Idle | Processing | Success | Error

  /** The six pieces of component state. */
  datatype HomeState = HomeState(
    direction: Direction,
    extractedText: string,
    transliteratedText: string,
    status: Status,
    statusMessage: string,
    hasImage: bool)

  const ExtractingMessage: string := "Extracting text from image..."
  const ReadyMessage: string := "Ready for text extraction"

  /** The state the page starts in. */
  function Initial(): (s: HomeState)
    ensures s.direction == EnToHi && s.status == Idle && !s.hasImage
    ensures s.extractedText == "" && s.transliteratedText == "" && s.statusMessage == ""
  {
    HomeState(EnToHi, "", "", Idle, "", false)
  }

  /** handleImageCapture: marks an image present, starts processing and
      clears both texts. The image itself is not used. */
  function HandleImageCapture(s: HomeState, imageSrc: string): (r: HomeState)
    ensures r.hasImage && r.status == Processing && r.statusMessage == ExtractingMessage
    ensures r.extractedText == "" && r.transliteratedText == ""
    ensures r.direction == s.direction
  {
    s.(hasImage := true, status := Processing, statusMessage := ExtractingMessage,
       extractedText := "", transliteratedText := "")
  }

  /** The timer callback scheduled by a capture: reports success and leaves
      every other field as it finds it. */
  function TimerComplete(s: HomeState): (r: HomeState)
    ensures r.status == Success && r.statusMessage == ReadyMessage
    ensures r.direction == s.direction && r.hasImage == s.hasImage
    ensures r.extractedText == s.extractedText && r.transliteratedText == s.transliteratedText
  {
    s.(status := Success, statusMessage := ReadyMessage)
  }

  /** handleReset: back to idle with texts, message and image flag cleared. */
  function HandleReset(s: HomeState): (r: HomeState)
    ensures r.status == Idle && !r.hasImage
    ensures r.extractedText == "" && r.transliteratedText == "" && r.statusMessage == ""
    ensures r.direction == s.direction
  {
    s.(extractedText := "", transliteratedText := "", status := Idle,
       statusMessage := "", hasImage := false)
  }

  /** The direction setter handed to the language toggle. */
  function SetDirection(s: HomeState, d: Direction): (r: HomeState)
    ensures r.direction == d
    ensures r.(direction := s.direction) == s
  {
    s.(direction := d)
  }

  /** The `isProcessing` flag handed to the capture zone. */
  predicate IsProcessing(s: HomeState)
  {
    s.status == Processing
  }

  /** The `isEmpty` flag of the extracted-text card: no text, and success. */
  predicate ExtractedCardIsEmpty(s: HomeState)
  {
    s.extractedText == "" && s.status == Success
  }

  // ----- Laws relating the handlers ------------------------------------------

  /** Reset lands in the initial state, except that the direction is kept. */
  lemma ResetIsInitialButDirection(s: HomeState)
    ensures HandleReset(s) == SetDirection(Initial(), s.direction)
  {
  }

  /** Reset erases everything the other handlers did. */
  lemma ResetForgetsHistory(s: HomeState, imageSrc: string)
    ensures HandleReset(HandleImageCapture(s, imageSrc)) == HandleReset(s)
    ensures HandleReset(TimerComplete(s)) == HandleReset(s)
    ensures HandleReset(HandleReset(s)) == HandleReset(s)
  {
  }

  /** A capture's result depends on nothing but the direction: neither the
      prior state nor the image leaves a trace. */
  lemma CaptureDependsOnlyOnDirection(s: HomeState, t: HomeState, a: string, b: string)
    requires s.direction == t.direction
    ensures HandleImageCapture(s, a) == HandleImageCapture(t, b)
  {
  }

  /** Changing direction is independent of every other handler. */
  lemma DirectionCommutes(s: HomeState, d: Direction, imageSrc: string)
    ensures SetDirection(HandleImageCapture(s, imageSrc), d) == HandleImageCapture(SetDirection(s, d), imageSrc)
    ensures SetDirection(TimerComplete(s), d) == TimerComplete(SetDirection(s, d))
    ensures SetDirection(HandleReset(s), d) == HandleReset(SetDirection(s, d))
  {
  }

  /** The timer callback is idempotent. */
  lemma TimerIdempotent(s: HomeState)
    ensures TimerComplete(TimerComplete(s)) == TimerComplete(s)
  {
  }
}
