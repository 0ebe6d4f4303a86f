/** extractTextFromImage: OCR with a Hindi-to-English language fallback.

    The recognition engine (tesseract.js) is not part of this model. It is an
    oracle of three operations, each of which may throw: create a worker for
    a language, recognise an image with a worker, terminate a worker. Workers
    are numbered by the attempt that creates them: 0 for the requested
    language, 1 for the English fallback. The confidence value is an opaque
    type parameter `C`: the model never inspects it, so it can only be passed
    through. A run returns its outcome together with the trace of engine
    calls it made. */
module Ocr {
  import opened Js

  /** The two languages the client asks for: engine codes "eng" and "hin". */
  datatype Lang = Eng | Hin

  type WorkerId = nat

  /** What the engine's `recognize` reports. */
  datatype RecognizeData<C> = RecognizeData(text: string, confidence: C)

  /** What extractTextFromImage returns. */
  datatype OcrResult<C> = OcrResult(text: string, confidence: C)

  /** The engine, as an oracle. */
  datatype Engine<C> = Engine(
    createWorker: (Lang, WorkerId) -> Completion<()>,
    recognize: (WorkerId, string) -> Completion<RecognizeData<C>>,
    terminate: WorkerId -> Completion<()>)

  /** One call into the engine. */
  datatype EngineCall =
    | CreateWorker(lang: Lang, worker: WorkerId)
    | Recognize(worker: WorkerId, image: string)
    | Terminate(worker: WorkerId)

  /** The outcome of a run and the engine calls it made, in order. */
  datatype Run<C> = Run(outcome: Completion<OcrResult<C>>, calls: seq<EngineCall>)

  // ----- Trace vocabulary ---------------------------------------------------

  function CreateCount(calls: seq<EngineCall>): nat
  {
    if |calls| == 0 then 0
    else (if calls[0].CreateWorker? then 1 else 0) + CreateCount(calls[1..])
  }

  lemma {:induction false} CreateCountAppend(a: seq<EngineCall>, b: seq<EngineCall>)
    ensures CreateCount(a + b) == CreateCount(a) + CreateCount(b)
  {
    if |a| == 0 {
      assert a + b == b;
    } else {
      assert (a + b)[1..] == a[1..] + b;
      CreateCountAppend(a[1..], b);
    }
  }

  /** Worker `w` was created successfully during the trace. */
  ghost predicate CreatedIn<C>(e: Engine<C>, calls: seq<EngineCall>, w: WorkerId)
  {
    exists l :: CreateWorker(l, w) in calls && e.createWorker(l, w).Normal?
  }

  /** Resource policy: every worker that was created is terminated exactly
      once, and nothing else is terminated. */
  ghost predicate EachCreatedTerminatedOnce<C>(e: Engine<C>, calls: seq<EngineCall>)
  {
    && (forall w :: CreatedIn(e, calls, w) ==> multiset(calls)[Terminate(w)] == 1)
    && (forall w :: Terminate(w) in calls ==> CreatedIn(e, calls, w))
  }

  /** The error, if any, that the engine raised for a call. */
  function RaisedBy<C>(e: Engine<C>, call: EngineCall): Option<JsError>
  {
    match call
    case CreateWorker(l, w) => if e.createWorker(l, w).Throw? then Some(e.createWorker(l, w).error) else None
    case Recognize(w, img) => if e.recognize(w, img).Throw? then Some(e.recognize(w, img).error) else None
    case Terminate(w) => if e.terminate(w).Throw? then Some(e.terminate(w).error) else None
  }

  /** `err` is an error the engine raised for one of the calls. */
  ghost predicate EngineRaised<C>(e: Engine<C>, calls: seq<EngineCall>, err: JsError)
  {
    exists i :: 0 <= i < |calls| && RaisedBy(e, calls[i]) == Some(err)
  }

  /** The result a successful recognition is turned into: trimmed text and
      the engine's confidence. */
  ghost predicate Delivers<C>(e: Engine<C>, w: WorkerId, image: string, res: OcrResult<C>)
  {
    && e.recognize(w, image).Normal?
    && res.text == Trim(e.recognize(w, image).value.text)
    && res.confidence == e.recognize(w, image).value.confidence
  }

  /** One attempt fails when any of its three engine calls throws. */
  predicate AttemptFails<C>(e: Engine<C>, lang: Lang, w: WorkerId, image: string)
  {
    e.createWorker(lang, w).Throw? || e.recognize(w, image).Throw? || e.terminate(w).Throw?
  }

  // ----- The operation --------------------------------------------------------

  /** The engine calls of one attempt: a worker that could not be created
      is never used; a created one is used once and terminated once. */
  function AttemptCalls<C>(e: Engine<C>, lang: Lang, w: WorkerId, image: string): (calls: seq<EngineCall>)
    ensures |calls| > 0 && calls[0] == CreateWorker(lang, w) && CreateCount(calls) == 1
    ensures forall i :: 0 <= i < |calls| ==> calls[i].worker == w
    ensures forall l, v :: CreateWorker(l, v) in calls ==> l == lang && v == w
    ensures e.createWorker(lang, w).Normal? ==> multiset(calls)[Terminate(w)] == 1
    ensures e.createWorker(lang, w).Throw? ==> Terminate(w) !in calls
  {
    if e.createWorker(lang, w).Throw? then [CreateWorker(lang, w)]
    else
      var calls := [CreateWorker(lang, w), Recognize(w, image), Terminate(w)];
      assert calls[1..] == [Recognize(w, image), Terminate(w)];
      assert calls[1..][1..] == [Terminate(w)];
      assert CreateCount([Terminate(w)]) == 0;
      calls
  }

  /** The completion of one `createWorker` / `try { recognize } finally
      { terminate }` block. A throwing `terminate` in the `finally` replaces
      both a normal return and an error from `recognize`. */
  function AttemptOutcome<C>(e: Engine<C>, lang: Lang, w: WorkerId, image: string): (c: Completion<OcrResult<C>>)
    ensures c.Throw? <==> AttemptFails(e, lang, w, image)
    ensures c.Normal? ==> Delivers(e, w, image, c.value)
  {
    if e.createWorker(lang, w).Throw? then Throw(e.createWorker(lang, w).error)
    else if e.terminate(w).Throw? then Throw(e.terminate(w).error)
    else if e.recognize(w, image).Throw? then Throw(e.recognize(w, image).error)
    else
      var data := e.recognize(w, image).value;
      Normal(OcrResult(Trim(data.text), data.confidence))
  }

  /** A failed attempt throws an error the engine raised during it. */
  lemma AttemptErrorIsRaised<C>(e: Engine<C>, lang: Lang, w: WorkerId, image: string)
    ensures var c := AttemptOutcome(e, lang, w, image);
      c.Throw? ==> EngineRaised(e, AttemptCalls(e, lang, w, image), c.error)
  {
  }

  function Attempt<C>(e: Engine<C>, lang: Lang, w: WorkerId, image: string): Run<C>
  {
    Run(AttemptOutcome(e, lang, w, image), AttemptCalls(e, lang, w, image))
  }

  /** The language actually requested: the parameter defaults to English. */
  function Requested(language: Option<Lang>): Lang
  {
    if language.Some? then language.value else Eng
  }

  /** extractTextFromImage. A Hindi request whose attempt throws anywhere
      (including in `terminate`, which the outer `catch` also covers) is
      retried once in English, outside any `catch`; an English request is
      never retried. On success the text is the recognised text trimmed and
      the confidence is the engine's; a failure is an error the engine
      raised. */
  function ExtractTextFromImage<C>(e: Engine<C>, image: string, language: Option<Lang>): (r: Run<C>)
    ensures 1 <= CreateCount(r.calls) <= 2
    ensures r.calls[0] == CreateWorker(Requested(language), 0)
    ensures r.outcome.Normal? ==> exists w :: Recognize(w, image) in r.calls && Delivers(e, w, image, r.outcome.value)
    ensures r.outcome.Throw? ==> EngineRaised(e, r.calls, r.outcome.error)
  {
    var lang := Requested(language);
    var first := Attempt(e, lang, 0, image);
    if first.outcome.Normal? || lang == Eng then
      WitnessRecognize(e, lang, 0, image);
      AttemptErrorIsRaised(e, lang, 0, image);
      first
    else
      var second := Attempt(e, Eng, 1, image);
      CreateCountAppend(first.calls, second.calls);
      WitnessRecognize(e, Eng, 1, image);
      AttemptErrorIsRaised(e, Eng, 1, image);
      RaisedInSuffix(e, first.calls, second);
      Run(second.outcome, first.calls + second.calls)
  }

  // ----- Policy -------------------------------------------------------------

  /** The language parameter defaults to English. */
  lemma DefaultLanguageIsEnglish<C>(e: Engine<C>, image: string)
    ensures ExtractTextFromImage(e, image, None) == ExtractTextFromImage(e, image, Some(Eng))
  {
  }

  /** Every worker a call creates is terminated exactly once, on every exit
      path, and no other worker is terminated. */
  lemma ResourcePolicy<C>(e: Engine<C>, image: string, language: Option<Lang>)
    ensures EachCreatedTerminatedOnce(e, ExtractTextFromImage(e, image, language).calls)
  {
    var lang := Requested(language);
    if AttemptOutcome(e, lang, 0, image).Normal? || lang == Eng {
      TerminationPolicyOfAttempt(e, lang, 0, image);
    } else {
      TerminationPolicyOfFallback(e, image);
    }
  }

  /** An English request creates one worker and is never retried: its
      attempt's outcome, error included, is the result. */
  lemma EnglishNeverRetries<C>(e: Engine<C>, image: string, language: Option<Lang>)
    requires Requested(language) == Eng
    ensures var r := ExtractTextFromImage(e, image, language);
      && CreateCount(r.calls) == 1
      && r.outcome == AttemptOutcome(e, Eng, 0, image)
      && (r.outcome.Throw? <==> AttemptFails(e, Eng, 0, image))
      && (forall i :: 0 <= i < |r.calls| ==> r.calls[i].worker == 0)
  {
  }

  /** A Hindi request is retried, once and in English, exactly when its
      first attempt throws in create, recognize or terminate; it throws only
      when both attempts do, and then with the retry's error. */
  lemma HindiRetriesOnce<C>(e: Engine<C>, image: string)
    ensures var r := ExtractTextFromImage(e, image, Some(Hin));
      && (CreateCount(r.calls) == 2 <==> AttemptFails(e, Hin, 0, image))
      && (AttemptFails(e, Hin, 0, image) ==> CreateWorker(Eng, 1) in r.calls && r.outcome == AttemptOutcome(e, Eng, 1, image))
      && (!AttemptFails(e, Hin, 0, image) ==> r == Attempt(e, Hin, 0, image))
      && (r.outcome.Throw? <==> AttemptFails(e, Hin, 0, image) && AttemptFails(e, Eng, 1, image))
  {
    var r := ExtractTextFromImage(e, image, Some(Hin));
    var a := AttemptCalls(e, Hin, 0, image);
    if AttemptFails(e, Hin, 0, image) {
      var b := AttemptCalls(e, Eng, 1, image);
      assert r.calls == a + b;
      CreateCountAppend(a, b);
      assert r.calls[|a|] == b[0];
    } else {
      assert r.calls == a;
    }
  }

  /** The outer `catch` also sees a throwing `terminate`: a Hindi request
      that recognised successfully but could not terminate its worker still
      falls back to English, and its good Hindi text is discarded. */
  lemma TerminateFailureFallsBack<C>(e: Engine<C>, image: string)
    requires e.createWorker(Hin, 0).Normal? && e.recognize(0, image).Normal? && e.terminate(0).Throw?
    ensures var r := ExtractTextFromImage(e, image, Some(Hin));
      CreateWorker(Eng, 1) in r.calls && r.outcome == AttemptOutcome(e, Eng, 1, image)
  {
  }

  /** `finally` semantics: when both `recognize` and `terminate` throw, the
      attempt throws terminate's error. */
  lemma TerminateErrorWins<C>(e: Engine<C>, lang: Lang, w: WorkerId, image: string)
    requires e.createWorker(lang, w).Normal? && e.recognize(w, image).Throw? && e.terminate(w).Throw?
    ensures AttemptOutcome(e, lang, w, image) == Throw(e.terminate(w).error)
  {
  }

  /** Text that is empty after trimming is a normal result, not an error. */
  lemma BlankTextIsNormal<C>(e: Engine<C>, image: string, language: Option<Lang>)
    requires !AttemptFails(e, Requested(language), 0, image)
    requires AllWhiteSpace(e.recognize(0, image).value.text)
    ensures ExtractTextFromImage(e, image, language).outcome
      == Normal(OcrResult("", e.recognize(0, image).value.confidence))
  {
  }

  // ----- Helpers for the operation's contract ------------------------------------

  /** One attempt on its own keeps the resource policy. */
  lemma TerminationPolicyOfAttempt<C>(e: Engine<C>, lang: Lang, w: WorkerId, image: string)
    ensures EachCreatedTerminatedOnce(e, AttemptCalls(e, lang, w, image))
  {
  }

  /** A Hindi attempt followed by the English retry keeps it too: the two
      attempts use different workers. */
  lemma TerminationPolicyOfFallback<C>(e: Engine<C>, image: string)
    ensures EachCreatedTerminatedOnce(e, AttemptCalls(e, Hin, 0, image) + AttemptCalls(e, Eng, 1, image))
  {
  }

  /** An error raised in a trace is still raised once calls are prepended. */
  lemma RaisedInSuffix<C>(e: Engine<C>, prefix: seq<EngineCall>, run: Run<C>)
    requires run.outcome.Throw? ==> EngineRaised(e, run.calls, run.outcome.error)
    ensures run.outcome.Throw? ==> EngineRaised(e, prefix + run.calls, run.outcome.error)
  {
    if run.outcome.Throw? {
      var i :| 0 <= i < |run.calls| && RaisedBy(e, run.calls[i]) == Some(run.outcome.error);
      assert (prefix + run.calls)[|prefix| + i] == run.calls[i];
    }
  }

  /** A successful attempt has called recognize. */
  lemma WitnessRecognize<C>(e: Engine<C>, lang: Lang, w: WorkerId, image: string)
    ensures Attempt(e, lang, w, image).outcome.Normal? ==> Recognize(w, image) in Attempt(e, lang, w, image).calls
  {
  }
}
