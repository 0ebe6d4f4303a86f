# Photo Transliterator: a Dafny model of the client core

Photo Transliterator is a single-page client. The user photographs or uploads
an image of printed text. The page is meant to extract the text by OCR and
convert it between ITRANS romanisation and Devanagari. This project models
the client logic that the repository actually contains:

- **Transliteration wrapper** (`transliterate.dfy`, module `Transliterate`).
  `transliterateText` has a blank-input guard. It picks the ITRANS→Devanagari
  request (with syncope) or the Devanagari→ITRANS request from the direction.
  If the mapping library throws, it returns the input. The module also has
  the two script predicates `isDevanagariText` and `isLatinText`, modelled as
  one-character-class regular-expression tests. The Sanscript library is a
  function-typed parameter that returns a string or throws.
- **OCR adapter** (`ocr.dfy`, module `Ocr`). `extractTextFromImage` is
  modelled over an oracle engine with three operations: create a worker,
  recognise, terminate. Each operation may throw. A run returns its outcome
  and the trace of engine calls it made. The model keeps JavaScript's
  `finally` semantics: a throwing `terminate` replaces the block's result.
  It also keeps the fact that the outer `catch` covers `terminate`.
  Confidence is a type parameter, so the model can only pass it through.
- **Page state** (`home.dfy`, module `Home`). This is the page's six-field
  state record with its handlers: capture, timer callback, reset and
  direction change. Capture does not call OCR or transliteration. It starts
  a one-second timer that reports success.
- **Capture zone** (`camera_upload_zone.dfy`, module `CaptureZone`). This is
  the two-field camera/image state machine, with its handlers and the
  controls each view renders.
- **The two together** (`app.dfy`, module `App`). The zone hands images to
  the page's capture handler. The page passes its processing flag to the
  zone. Timers are pending callbacks. Invariants are proved over every
  action sequence.
- Shared vocabulary: `js.dfy` (module `Js`) holds completion records, nullable
  values, truthiness and `String.prototype.trim`. Trim uses the WhiteSpace
  and LineTerminator sets of the ECMAScript language specification.
  `schema.dfy` (module `Schema`) holds the two-value direction enumeration.

The model follows the code where it departs from what the page's wording
suggests:

- The page never runs the capture → OCR → transliteration pipeline. A
  capture only schedules a timer that sets status `success` with the message
  "Ready for text extraction". So the extracted and transliterated texts stay
  empty in every reachable state, and the `error` status is never reached
  (`App.ReachableFacts`).
- Reset does not cancel the pending one-second timer, so an idle page can
  move straight to `success` (`App.StaleTimerAfterReset`).
- The capture message is "Extracting text from image...", as in the code.

## Model

| member | source | states |
|---|---|---|
| Js.Trim | client/src/lib/ocr.ts:14 | `trim()` keeps a piece of the input that has only whitespace around it. Neither end of the result is whitespace. The result is empty exactly when the input is all whitespace. |
| Js.TrimUnique | client/src/lib/ocr.ts:28 | Any whitespace-free core surrounded only by whitespace equals the trimmed string. So trim is fully fixed by its two promises. |
| Js.TrimIdempotent | client/src/lib/ocr.ts:14 | Trimming an already trimmed text changes nothing. |
| Js.BlankIffAllWhiteSpace | client/src/lib/transliterate.ts:7 | `!text.trim()` holds exactly when every character is whitespace. |
| Js.LeadingWhiteSpace | client/src/lib/ocr.ts:14 | Gives the length of the longest all-whitespace prefix: everything before it is whitespace, and the next character is not. |
| Js.TrailingWhiteSpace | client/src/lib/ocr.ts:14 | Gives the length of the longest all-whitespace suffix, characterised the same way. |
| Transliterate.Request | client/src/lib/transliterate.ts:12-19 | en-to-hi asks for itrans→devanagari with `syncope: true`. hi-to-en asks for devanagari→itrans with no options. The input text is passed unchanged. |
| Transliterate.TransliterateText | client/src/lib/transliterate.ts:3-24 | Blank input gives "". A throwing library gives back the original text. Otherwise the result is the library's output for the selected request. |
| Transliterate.BlankIgnoresLibrary | client/src/lib/transliterate.ts:7-9 | On whitespace-only input the result is "" whatever the library does, so the library is never consulted. |
| Transliterate.OnlyRequestMatters | client/src/lib/transliterate.ts:11-19 | The result depends on the library only through the one request the direction selects. |
| Transliterate.ResultOrigin | client/src/lib/transliterate.ts:11-23 | The wrapper is total and never throws. Its result is "" for blank input, the input itself, or a string the library returned. |
| Transliterate.FailingLibraryIsIdentity | client/src/lib/transliterate.ts:20-23 | With a library that always throws, the wrapper returns "" for blank input and the input unchanged otherwise. |
| Transliterate.ClassTest | client/src/lib/transliterate.ts:29-30 | A single-class regex test holds exactly when some character of the string is in the class. |
| Transliterate.IsDevanagariText | client/src/lib/transliterate.ts:27-31 | Holds exactly when some character lies in U+0900..U+097F. |
| Transliterate.IsLatinText | client/src/lib/transliterate.ts:34-38 | Holds exactly when some character is in 'a'..'z' or 'A'..'Z'. |
| Transliterate.EmptyHasNoScript | client/src/lib/transliterate.ts:27-38 | Both predicates are false on "". |
| Transliterate.NotLatin | client/src/lib/transliterate.ts:36-37 | Strings made only of digits and Devanagari characters are not Latin. |
| Transliterate.ExistsOverConcat | client/src/lib/transliterate.ts:29-30 | A class test on `a + b` is the disjunction of the tests on `a` and on `b`. |
| Transliterate.DevanagariOverConcat | client/src/lib/transliterate.ts:29-30 | `isDevanagariText(a + b) == isDevanagariText(a) or isDevanagariText(b)`. |
| Transliterate.LatinOverConcat | client/src/lib/transliterate.ts:36-37 | `isLatinText(a + b) == isLatinText(a) or isLatinText(b)`. |
| Ocr.AttemptCalls | client/src/lib/ocr.ts:9-19 | An attempt makes exactly one create call. A worker that failed to create is never terminated. A created worker is terminated exactly once. All calls concern the attempt's own worker. |
| Ocr.AttemptOutcome | client/src/lib/ocr.ts:9-19 | An attempt throws exactly when create, recognize or terminate throws. Otherwise it returns the recognised text trimmed, with the engine's confidence. |
| Ocr.AttemptErrorIsRaised | client/src/lib/ocr.ts:17-19 | A failed attempt throws an error the engine raised during that attempt. |
| Ocr.TerminateErrorWins | client/src/lib/ocr.ts:11-19 | When both recognize and terminate throw, the attempt throws terminate's error, because `finally` overrides. |
| Ocr.ExtractTextFromImage | client/src/lib/ocr.ts:3-37 | A call creates one or two workers, and the first is for the requested language. A success is a trimmed recognition result with the engine's confidence. A failure is an error the engine raised. |
| Ocr.DefaultLanguageIsEnglish | client/src/lib/ocr.ts:5 | Omitting the language is the same as asking for "eng". |
| Ocr.ResourcePolicy | client/src/lib/ocr.ts:9-33 | On every exit path, every worker created is terminated exactly once, and no other worker is terminated. |
| Ocr.EnglishNeverRetries | client/src/lib/ocr.ts:20-35 | An English request creates exactly one worker, never retries, and throws exactly when its attempt fails. |
| Ocr.HindiRetriesOnce | client/src/lib/ocr.ts:20-35 | A Hindi request retries once in English exactly when its first attempt fails. If the first attempt succeeds, the result and trace are that attempt's. Otherwise the retry's outcome is the result, so it fails only if both attempts fail. |
| Ocr.TerminateFailureFallsBack | client/src/lib/ocr.ts:17-24 | A Hindi attempt that recognised but could not terminate still falls back to English. |
| Ocr.BlankTextIsNormal | client/src/lib/ocr.ts:12-16 | Whitespace-only recognised text is a normal result with text "" and the engine's confidence. |
| Home.Initial | client/src/pages/home.tsx:20-25 | The page starts in en-to-hi and idle, with empty texts and message and no image. |
| Home.HandleImageCapture | client/src/pages/home.tsx:27-33 | Capture marks an image present, sets processing with "Extracting text from image..." and clears both texts. The direction is kept. |
| Home.TimerComplete | client/src/pages/home.tsx:36-39 | The timer callback sets success with "Ready for text extraction". The texts, direction and image flag are untouched. |
| Home.HandleReset | client/src/pages/home.tsx:42-48 | Reset gives idle with texts, message and image flag cleared. The direction is kept. |
| Home.SetDirection | client/src/pages/home.tsx:72 | Changing direction changes the direction and nothing else. |
| Home.ResetIsInitialButDirection | client/src/pages/home.tsx:42-48 | Reset from any state is the initial state carrying the current direction. |
| Home.ResetForgetsHistory | client/src/pages/home.tsx:42-48 | Reset after a capture, a timer or another reset equals reset alone. |
| Home.CaptureDependsOnlyOnDirection | client/src/pages/home.tsx:27-32 | A capture's result depends only on the direction, not on the prior state or the image. |
| Home.DirectionCommutes | client/src/pages/home.tsx:72 | Changing direction commutes with capture, timer and reset. |
| Home.TimerIdempotent | client/src/pages/home.tsx:36-39 | A second timer callback changes nothing more. |
| CaptureZone.HandleStartCamera | client/src/components/camera-upload-zone.tsx:51-54 | Starting the camera turns it on and clears the captured image. |
| CaptureZone.HandleCapture | client/src/components/camera-upload-zone.tsx:18-27 | A truthy screenshot is stored, turns the camera off and is handed to the page unchanged. A null or empty screenshot changes nothing and hands nothing on. |
| CaptureZone.HandleFileUpload | client/src/components/camera-upload-zone.tsx:29-41 | A chosen file's data URL is stored as is, turns the camera off and is handed on. No file changes nothing. |
| CaptureZone.HandleReset | client/src/components/camera-upload-zone.tsx:43-49 | Reset clears the image and turns the camera off. |
| CaptureZone.HandleCloseCamera | client/src/components/camera-upload-zone.tsx:118 | Closing turns only the camera off and keeps the image. |
| CaptureZone.Step | client/src/components/camera-upload-zone.tsx:18-54 | Every handler keeps "camera on and image present" false. An image enters the zone only together with the call that hands it to the page, and that image is never empty. |
| CaptureZone.ExactlyOneView | client/src/components/camera-upload-zone.tsx:64-162 | In every state that keeps the invariant, exactly one of placeholder, camera view and image view is rendered. |
| CaptureZone.ProcessingLocks | client/src/components/camera-upload-zone.tsx:108-155 | While processing, the shutter and the reset button cannot be used. Upload, open-camera and close-camera are unaffected. |
| CaptureZone.CapturedIffImageArrives | client/src/components/camera-upload-zone.tsx:18-41 | `onImageCapture` is called exactly for a truthy screenshot or a chosen file, with that exact string. |
| App.Step | client/src/pages/home.tsx:76-79 | An action whose control is hidden or disabled changes nothing. Only the direction toggle changes the direction. |
| App.InitialInv | client/src/pages/home.tsx:20-25 | The initial page satisfies the invariant. |
| App.StepKeepsInv | client/src/pages/home.tsx:27-48 | Every action keeps the invariant: zone exclusivity, empty texts, one message per status, and while processing a pending timer, the image flag and a non-empty image in the zone. |
| App.RunKeepsInv | client/src/pages/home.tsx:27-48 | The invariant holds after any sequence of actions. |
| App.ReachableFacts | client/src/pages/home.tsx:105 | In every reachable state the error status is never shown and no text appears. The extracted card is greyed out exactly on success. Camera and image are never both present. |
| App.ProcessingCompletes | client/src/pages/home.tsx:36-39 | While processing, a timer is always pending, and it brings success with the image flag and direction kept. |
| App.ProcessingStartsOnlyWithCapture | client/src/pages/home.tsx:76-79 | Only a zone action that hands on an image starts processing. It schedules one more timer and leaves an image in the zone. |
| App.StaleTimerAfterReset | client/src/pages/home.tsx:36-47 | Reset does not cancel the timer. After upload and "New Photo", the callback moves the idle page to success while the results stay hidden. |
| App.ZoneFrozenWhileProcessing | client/src/components/camera-upload-zone.tsx:64-162 | In every reachable state, while the page processes, the zone shows the captured image and no zone control can be used. The upload buttons lack a `disabled` attribute but are never on screen then. |
| App.OverlappingCaptures | client/src/pages/home.tsx:36-47 | A reachable run has two timers pending at once: upload, "New Photo", the zone's reset, then a second upload. |

## Left out

- The Sanscript mapping library and the tesseract.js engine are not modelled. They are oracles (function-typed parameters) that return a value or throw. What Devanagari a given ITRANS string becomes is not specified.
- Asynchrony is not modelled. `await`, the one-second `setTimeout` delay, the `FileReader` and webcam screenshots become discrete events. A file choice and its reader's load callback are one event, so nothing can happen between them.
- Because of this, a chosen file's data URL always arrives while the upload control is on screen. In the running app a reader load started before a capture can still arrive while the page is processing, and would start a second capture then. That interleaving is not modelled.
- A chosen file's data URL is modelled as a string beginning with `data:`, which is what `readAsDataURL` delivers. It is therefore never the empty string.
- Console logging in both adapters is not modelled. It has no effect on results.
- Resetting the hidden file input's value in the zone's reset handler is not modelled. It is DOM state with no effect on the modelled state.
- The confidence value is a floating-point number in the source. Here it is an opaque type parameter and is only passed through.
- Rendering is not modelled beyond which view and which controls are shown and enabled. This leaves out the text cards, copy-to-clipboard, the status panel, styling and the theme toggle.
- The server's upload and health endpoints and its empty storage class are not modelled. They are HTTP plumbing and library configuration, unused by the client logic.
- The zod schemas and their validation are not modelled. The client code never validates; only the two-value direction enumeration is kept, as a type.
- Strings are sequences of Unicode scalar values. Lone UTF-16 surrogates, which a JavaScript string can hold, cannot be represented. None of the characters inspected here is a surrogate.
