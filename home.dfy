/** The `Home` component: its two state hooks as fields, and one method per event handler.
    Each method performs the handler's `setState` / `setImageDataUri` calls in source order and is
    proved to make the transition `PageModel.Step` describes. */
module Home {
  import opened AnalyzeImage
  import opened PageModel

  class Home {
    var imageDataUri: Option<string>
    var state: State
    /** The pending FileReader or `analyzeImage` call, which decides which callback may run next. */
    ghost var inFlight: InFlight
    /** The events handled so far. */
    ghost var history: seq<Event>

    ghost function Model(): Page
      reads this
    {
      Page(imageDataUri, state, inFlight)
    }

    /** The page is where its history of events leads from the initial page, and so keeps `Inv`. */
    ghost predicate Valid()
      reads this
    {
      Trace(Initial, history) && Model() == Run(Initial, history) && Inv(Model())
    }

    constructor ()
      ensures Valid() && history == []
      ensures imageDataUri == None && state == State(None, false, None)
    {
      imageDataUri := None;
      state := State(None, false, None);
      inFlight := Idle;
      history := [];
      InitialInv();
    }

    /** `handleFileChange` up to `readAsDataURL`: with a file, clear the result and the error,
        start the spinner and drop the held image; without one, nothing. */
    method HandleFileChange(hasFile: bool)
      requires Valid()
      modifies this
      ensures Valid() && history == old(history) + [FileChanged(hasFile)]
      ensures Model() == Step(old(Model()), FileChanged(hasFile))
      ensures hasFile ==> state == State(None, true, None) && imageDataUri == None && inFlight == Reading
      ensures !hasFile ==> state == old(state) && imageDataUri == old(imageDataUri) && inFlight == old(inFlight)
    {
      ghost var e := FileChanged(hasFile);
      TraceExtend(Initial, history, e);
      StepPreservesInv(Model(), e);
      if hasFile {
        state := state.(analysisResult := None, error := None, isLoading := true);
        imageDataUri := None;
        inFlight := Reading;
      }
      history := history + [e];
    }

    /** `reader.onloadend`: a non-image data URI shows the invalid-file error; an image data URI
        is held as it is and the spinner stops. */
    method OnLoadEnd(result: string)
      requires Valid() && inFlight == Reading
      modifies this
      ensures Valid() && history == old(history) + [ReadLoaded(result)]
      ensures Model() == Step(old(Model()), ReadLoaded(result))
      ensures inFlight == Idle && !state.isLoading
      ensures !IsImageDataUri(result) ==>
        state == State(None, false, Some(InvalidFileTypeMessage)) && imageDataUri == None
      ensures IsImageDataUri(result) ==>
        imageDataUri == Some(result) && state.error == old(state.error) == None
        && state.analysisResult == old(state.analysisResult) == None
    {
      ghost var e := ReadLoaded(result);
      TraceExtend(Initial, history, e);
      StepPreservesInv(Model(), e);
      if !JsString.StartsWith(result, ImageUriPrefix) {
        state := State(None, false, Some(InvalidFileTypeMessage));
      } else {
        imageDataUri := Some(result);
        state := state.(isLoading := false);
      }
      inFlight := Idle;
      history := history + [e];
    }

    /** `reader.onerror`: stop the spinner and show the read error; result and image are untouched. */
    method OnReadError()
      requires Valid() && inFlight == Reading
      modifies this
      ensures Valid() && history == old(history) + [ReadErrored]
      ensures Model() == Step(old(Model()), ReadErrored)
      ensures state == State(old(state.analysisResult), false, Some(ReadFailedMessage))
      ensures state.analysisResult == None && imageDataUri == old(imageDataUri) == None && inFlight == Idle
    {
      ghost var e := ReadErrored;
      TraceExtend(Initial, history, e);
      StepPreservesInv(Model(), e);
      state := state.(isLoading := false, error := Some(ReadFailedMessage));
      inFlight := Idle;
      history := history + [e];
    }

    /** `handleAnalyzeClick` up to the `await`: without an image, nothing changes and no request
        is made; otherwise the state is reset to loading and the held image is sent. */
    method HandleAnalyzeClick() returns (request: Option<string>)
      requires Valid()
      modifies this
      ensures Valid() && history == old(history) + [AnalyzeClicked]
      ensures Model() == Step(old(Model()), AnalyzeClicked)
      ensures imageDataUri == old(imageDataUri)
      ensures !HoldsImage(old(imageDataUri)) ==>
        request == None && state == old(state) && inFlight == old(inFlight)
      ensures HoldsImage(old(imageDataUri)) ==>
        request == old(imageDataUri) && state == State(None, true, None) && inFlight == Analyzing
    {
      ghost var e := AnalyzeClicked;
      TraceExtend(Initial, history, e);
      StepPreservesInv(Model(), e);
      if !HoldsImage(imageDataUri) {
        request := None;
      } else {
        state := State(None, true, None);
        inFlight := Analyzing;
        request := imageDataUri;
      }
      history := history + [e];
    }

    /** The `await` resolved: show the result, clear the error, and (in `finally`) stop the spinner. */
    method OnAnalysisResolved(output: AnalyzeImageOutput)
      requires Valid() && inFlight == Analyzing
      modifies this
      ensures Valid() && history == old(history) + [AnalysisResolved(output)]
      ensures Model() == Step(old(Model()), AnalysisResolved(output))
      ensures state == State(Some(output), false, None)
      ensures imageDataUri == old(imageDataUri) && inFlight == Idle
    {
      ghost var e := AnalysisResolved(output);
      TraceExtend(Initial, history, e);
      StepPreservesInv(Model(), e);
      state := state.(analysisResult := Some(output), isLoading := false, error := None);
      state := state.(isLoading := false);
      inFlight := Idle;
      history := history + [e];
    }

    /** The `await` rejected: show `Analysis failed: <message>` and (in `finally`) stop the
        spinner; no result is shown and the image stays. */
    method OnAnalysisRejected(thrown: Thrown)
      requires Valid() && inFlight == Analyzing
      modifies this
      ensures Valid() && history == old(history) + [AnalysisRejected(thrown)]
      ensures Model() == Step(old(Model()), AnalysisRejected(thrown))
      ensures state == State(old(state.analysisResult), false, Some(AnalysisFailedPrefix + ThrownMessage(thrown)))
      ensures state.analysisResult == None && imageDataUri == old(imageDataUri) && inFlight == Idle
    {
      ghost var e := AnalysisRejected(thrown);
      TraceExtend(Initial, history, e);
      StepPreservesInv(Model(), e);
      var errorMessage := match thrown
        case ErrorInstance(message) => message
        case NonError => UnknownAnalysisError;
      state := state.(error := Some(AnalysisFailedPrefix + errorMessage));
      state := state.(isLoading := false);
      inFlight := Idle;
      history := history + [e];
    }

    /** Whether the analyze button is disabled right now. */
    method IsAnalyzeDisabled() returns (disabled: bool)
      requires Valid()
      ensures !disabled <==> imageDataUri.Some? && inFlight == Idle
    {
      AnalyzeEnabledIff(Model());
      disabled := AnalyzeDisabled(imageDataUri, state);
    }
  }
}
