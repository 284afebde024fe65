/** The state machine of the `Home` page as values: its state, the events that drive it, one
    transition function, and what every run from the initial state keeps true. The class in
    module Home performs the same transitions by field updates and is proved against `Step`. */
module PageModel {
  import opened JsString
  import opened AnalyzeImage

  datatype Option<T> = None | Some(value: T)

  /** The page's `State` record: the result panel, the spinner and the error line. */
  datatype State = State(analysisResult: Option<AnalyzeImageOutput>, isLoading: bool, error: Option<string>)

  /** What `analyzeImage` rejects with: an `Error` instance carrying its message, or any other value. */
  datatype Thrown = ErrorInstance(message: string) | NonError

  /** The asynchronous operation the page has started and whose callback has not run yet: the
      FileReader (`onloadend` / `onerror`) or the `analyzeImage` promise. A new operation
      supersedes the previous one; at most one is ever pending. */
  datatype InFlight = Idle | Reading | Analyzing

  /** Everything the page holds: the `imageDataUri` hook, the `state` hook, and the pending operation. */
  datatype Page = Page(imageDataUri: Option<string>, state: State, inFlight: InFlight)

  /** The inputs of the page: a user action, or an asynchronous operation settling with its outcome. */
  datatype Event =
    | FileChanged(hasFile: bool)          // the file input fired `change`; `hasFile` says whether `files?.[0]` is set
    | ReadLoaded(result: string)          // the FileReader finished, with `reader.result`
    | ReadErrored                         // the FileReader failed
    | AnalyzeClicked                      // the analyze button was clicked
    | AnalysisResolved(output: AnalyzeImageOutput)
    | AnalysisRejected(thrown: Thrown)

  const ImageUriPrefix := "data:image/"
  const InvalidFileTypeMessage := "Invalid file type. Please upload an image."
  const ReadFailedMessage := "Failed to read the file."
  const AnalysisFailedPrefix := "Analysis failed: "
  const UnknownAnalysisError := "An unknown error occurred during analysis."

  /** The page as first rendered: no image, `{analysisResult: null, isLoading: false, error: null}`. */
  const Initial := Page(None, State(None, false, None), Idle)

  /** A data URI that declares an image MIME type. */
  predicate IsImageDataUri(s: string) {
    StartsWith(s, ImageUriPrefix)
  }

  /** JavaScript truthiness of `imageDataUri`: neither null nor the empty string. */
  predicate HoldsImage(uri: Option<string>) {
    uri.Some? && uri.value != ""
  }

  /** The message taken from a rejection: `err.message` for an `Error`, a fixed text otherwise. */
  function ThrownMessage(t: Thrown): string {
    match t
    case ErrorInstance(m) => m
    case NonError => UnknownAnalysisError
  }

  /** The error line shown after a failed analysis. It can be told apart from the two file
      errors, and the thrown message can be read back from it. */
  function AnalysisErrorText(t: Thrown): (m: string)
    ensures StartsWith(m, AnalysisFailedPrefix)
    ensures m[|AnalysisFailedPrefix|..] == ThrownMessage(t)
    ensures m != InvalidFileTypeMessage && m != ReadFailedMessage
  {
    var m := AnalysisFailedPrefix + ThrownMessage(t);
    assert m[0] == 'A';
    m
  }

  /** `hasResults` of `renderResults`: at least one list is non-empty. */
  function HasResults(r: AnalyzeImageOutput): (b: bool)
    ensures b <==> r != NoFindings
  {
    |r.objects| > 0 || |r.people| > 0 || |r.scenes| > 0
  }

  /** The `disabled` condition of the analyze button. */
  predicate AnalyzeDisabled(imageDataUri: Option<string>, state: State) {
    !HoldsImage(imageDataUri) || state.isLoading
  }

  /** An event can reach the page: completion callbacks run only for the operation that is pending. */
  predicate Deliverable(p: Page, e: Event) {
    match e
    case ReadLoaded(_) => p.inFlight == Reading
    case ReadErrored => p.inFlight == Reading
    case AnalysisResolved(_) => p.inFlight == Analyzing
    case AnalysisRejected(_) => p.inFlight == Analyzing
    case _ => true
  }

  /** The page after one event, each `setState` / `setImageDataUri` applied in order. */
  function Step(p: Page, e: Event): Page
    requires Deliverable(p, e)
  {
    match e
    case FileChanged(hasFile) =>
      if hasFile then Page(None, p.state.(analysisResult := None, error := None, isLoading := true), Reading)
      else p
    case ReadLoaded(result) =>
      if !IsImageDataUri(result) then p.(state := State(None, false, Some(InvalidFileTypeMessage)), inFlight := Idle)
      else Page(Some(result), p.state.(isLoading := false), Idle)
    case ReadErrored =>
      p.(state := p.state.(isLoading := false, error := Some(ReadFailedMessage)), inFlight := Idle)
    case AnalyzeClicked =>
      if !HoldsImage(p.imageDataUri) then p
      else p.(state := State(None, true, None), inFlight := Analyzing)
    case AnalysisResolved(output) =>
      p.(state := p.state.(analysisResult := Some(output), isLoading := false, error := None), inFlight := Idle)
    case AnalysisRejected(t) =>
      p.(state := p.state.(error := Some(AnalysisErrorText(t)), isLoading := false), inFlight := Idle)
  }

  /** A result and an error are never shown together. */
  predicate Exclusive(s: State) {
    !(s.analysisResult.Some? && s.error.Some?)
  }

  /** What holds of the page between events. */
  predicate Inv(p: Page) {
    && Exclusive(p.state)
    // the spinner runs exactly while a file read or an analysis is pending
    && (p.state.isLoading <==> p.inFlight != Idle)
    // only an image data URI is ever held
    && (p.imageDataUri.Some? ==> IsImageDataUri(p.imageDataUri.value))
    // a result is only shown beside the image it was computed for
    && (p.state.analysisResult.Some? ==> p.imageDataUri.Some?)
    && (p.inFlight == Reading ==> p.imageDataUri == None && p.state.analysisResult == None && p.state.error == None)
    && (p.inFlight == Analyzing ==> p.imageDataUri.Some? && p.state.analysisResult == None && p.state.error == None)
  }

  lemma InitialInv()
    ensures Inv(Initial)
  {
  }

  lemma StepPreservesInv(p: Page, e: Event)
    requires Inv(p) && Deliverable(p, e)
    ensures Inv(Step(p, e))
  {
  }

  /** The events can be delivered one after the other, starting from `p`. */
  predicate Trace(p: Page, es: seq<Event>)
    decreases |es|
  {
    es == [] || (Deliverable(p, es[0]) && Trace(Step(p, es[0]), es[1..]))
  }

  /** The page after a sequence of events. */
  function Run(p: Page, es: seq<Event>): Page
    requires Trace(p, es)
    decreases |es|
  {
    if es == [] then p else Run(Step(p, es[0]), es[1..])
  }

  lemma {:induction false} RunPreservesInv(p: Page, es: seq<Event>)
    requires Inv(p) && Trace(p, es)
    ensures Inv(Run(p, es))
    decreases |es|
  {
    if es != [] {
      StepPreservesInv(p, es[0]);
      RunPreservesInv(Step(p, es[0]), es[1..]);
    }
  }

  /** Delivering one more event extends a run by one step. */
  lemma {:induction false} TraceExtend(p: Page, es: seq<Event>, e: Event)
    requires Trace(p, es)
    ensures Trace(p, es + [e]) <==> Deliverable(Run(p, es), e)
    ensures Deliverable(Run(p, es), e) ==> Run(p, es + [e]) == Step(Run(p, es), e)
    decreases |es|
  {
    if es == [] {
      assert es + [e] == [e];
    } else {
      assert (es + [e])[0] == es[0];
      assert (es + [e])[1..] == es[1..] + [e];
      TraceExtend(Step(p, es[0]), es[1..], e);
    }
  }

  /** From the initial page, no sequence of events ever shows a result and an error together,
      and the spinner runs exactly while an operation is pending. */
  lemma ReachableExclusive(es: seq<Event>)
    requires Trace(Initial, es)
    ensures Exclusive(Run(Initial, es).state)
    ensures Run(Initial, es).state.isLoading <==> Run(Initial, es).inFlight != Idle
  {
    InitialInv();
    RunPreservesInv(Initial, es);
  }

  /** Between events, the analyze button is enabled exactly when an image is held and nothing is
      pending, and then a click starts an analysis of that image. */
  lemma AnalyzeEnabledIff(p: Page)
    requires Inv(p)
    ensures !AnalyzeDisabled(p.imageDataUri, p.state) <==> p.imageDataUri.Some? && p.inFlight == Idle
    ensures !AnalyzeDisabled(p.imageDataUri, p.state) ==>
      Step(p, AnalyzeClicked) == p.(state := State(None, true, None), inFlight := Analyzing)
  {
  }

  /** A click while no image is held changes nothing. */
  lemma GuardedClickIsNoOp(p: Page)
    requires !HoldsImage(p.imageDataUri)
    ensures Step(p, AnalyzeClicked) == p
  {
  }

  /** Every string that begins with `data:image/` is accepted as an image, and a text data URI is not. */
  lemma ImageDataUriAccepted(rest: string)
    ensures IsImageDataUri(ImageUriPrefix + rest)
    ensures !IsImageDataUri("data:text/plain;base64,AAAA")
  {
    assert (ImageUriPrefix + rest)[..|ImageUriPrefix|] == ImageUriPrefix;
    assert "data:text/plain;base64,AAAA"[5] != ImageUriPrefix[5];
  }
}
