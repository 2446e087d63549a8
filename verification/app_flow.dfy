/** The application state of App.tsx and its handlers, as a pure transition function.
    The generation call is split into its start (the synchronous part of
    generateImage) and its settlement (the code after the await). */
module AppFlow {
  import opened Wrappers
  import opened Types
  import Gemini

  /** The five pieces of React state of the App component. */
  datatype State = State(
    appState: AppState,
    userImage: Option<string>,
    selectedScene: Option<Scene>,
    resultImage: Option<string>,
    error: Option<string>)

  /** The state on first render. */
  const Initial: State := State(Start, None, None, None, None)

  /** The message shown after a failed generation. */
  const MalfunctionMessage: string := "The time machine malfunctioned! Please try again."

  /** JavaScript truthiness of a nullable string: null and "" are both falsy. */
  predicate Truthy(v: Option<string>) {
    v.Some? && v.value != ""
  }

  /** The events the handlers respond to. */
  datatype Event =
    | TakePhoto                       // "Take Photo" button
    | CancelCamera                    // the camera view's cancel
    | Capture(imageSrc: string)       // handleCapture, with the camera's snapshot
    | FileChosen(hasFile: bool)       // handleFileUpload: starts a read when a file was chosen
    | UploadLoaded(result: Option<string>) // the reader's onloadend; result is null after a failed read
    | SelectScene(scene: Scene)       // a scene card's onSelect
    | GenerateStart                   // generateImage up to the await
    | GenerateSettled(outcome: Outcome<string, Gemini.GenError>) // generateImage after the await
    | Reset                           // reset, from the logo or the header button
    | Retake                          // "Retake / Change Photo"
    | TryAnotherEra                   // "Try Another Era"
  {
    /** The inline navigation buttons, which only set appState. */
    predicate IsNavigation() {
      TakePhoto? || CancelCamera? || Retake? || TryAnotherEra?
    }
  }

  /** The guard of generateImage: a truthy image and a selected scene. */
  predicate CanGenerate(s: State) {
    Truthy(s.userImage) && s.selectedScene.Some?
  }

  /** The reachability invariant: processing has its inputs, result has its image. */
  predicate Inv(s: State) {
    && (s.appState == Processing ==> CanGenerate(s))
    && (s.appState == Result ==> s.resultImage.Some?)
  }

  /** Everything but appState agrees. */
  predicate SameData(s: State, t: State) {
    && s.userImage == t.userImage
    && s.selectedScene == t.selectedScene
    && s.resultImage == t.resultImage
    && s.error == t.error
  }

  /** The target of each navigation button. */
  function NavigationTarget(e: Event): AppState
    requires e.IsNavigation()
  {
    match e
    case TakePhoto => Camera
    case CancelCamera => Start
    case Retake => Start
    case TryAnotherEra => Preview
  }

  /** One handler run: the state after the event. */
  function Step(s: State, e: Event): (t: State)
    ensures Inv(s) ==> Inv(t)
    ensures e.IsNavigation() ==> SameData(s, t) && t.appState == NavigationTarget(e)
  {
    match e
    case TakePhoto => s.(appState := Camera)
    case CancelCamera => s.(appState := Start)
    case Retake => s.(appState := Start)
    case TryAnotherEra => s.(appState := Preview)
    case Capture(img) => s.(userImage := Some(img), appState := Preview)
    case FileChosen(_) => s
    case UploadLoaded(r) => s.(userImage := r, appState := Preview)
    case SelectScene(sc) => s.(selectedScene := Some(sc))
    case GenerateStart =>
      if CanGenerate(s) then s.(appState := Processing, error := None) else s
    case GenerateSettled(o) =>
      if o.Ok? then s.(resultImage := Some(o.value), appState := Result)
      else s.(error := Some(MalfunctionMessage), appState := Preview)
    case Reset => s.(userImage := None, selectedScene := None, resultImage := None, appState := Start)
  }

  /** Capture and a completed upload both store the image and move to preview; nothing else changes. */
  lemma ImageArrivalKeepsSelection(s: State, img: string)
    ensures Step(s, Capture(img)) == Step(s, UploadLoaded(Some(img)))
    ensures Step(s, Capture(img)).appState == Preview && Step(s, Capture(img)).userImage == Some(img)
    ensures Step(s, Capture(img)).selectedScene == s.selectedScene
    ensures Step(s, Capture(img)).resultImage == s.resultImage && Step(s, Capture(img)).error == s.error
  {
  }

  /** Choosing a file, or choosing none, leaves the state as it was. */
  lemma FileChoiceChangesNothing(s: State, hasFile: bool)
    ensures Step(s, FileChosen(hasFile)) == s
  {
  }

  /** Starting a generation: a no-op without image or scene; otherwise processing with the error cleared. */
  lemma GenerateStartGuard(s: State)
    ensures !CanGenerate(s) ==> Step(s, GenerateStart) == s
    ensures CanGenerate(s) ==> var t := Step(s, GenerateStart);
              && t.appState == Processing && t.error.None?
              && t.userImage == s.userImage && t.selectedScene == s.selectedScene
              && t.resultImage == s.resultImage
  {
  }

  /** A successful settlement shows the returned image and keeps the inputs. */
  lemma SettledSuccess(s: State, img: string)
    ensures var t := Step(s, GenerateSettled(Ok(img)));
              && t.appState == Result && t.resultImage == Some(img)
              && t.userImage == s.userImage && t.selectedScene == s.selectedScene
              && t.error == s.error
  {
  }

  /** A failed settlement, in whatever state it lands, shows preview with the message; image,
      scene and result are kept, so a generation that could start before can start again. */
  lemma SettledFailureAllowsRetry(s: State, err: Gemini.GenError)
    ensures var t := Step(s, GenerateSettled(Err(err)));
              && t.appState == Preview && t.error == Some(MalfunctionMessage)
              && t.userImage == s.userImage && t.selectedScene == s.selectedScene
              && t.resultImage == s.resultImage
              && (CanGenerate(t) <==> CanGenerate(s))
    ensures CanGenerate(s) ==> CanGenerate(Step(Step(s, GenerateStart), GenerateSettled(Err(err))))
  {
  }

  /** Reset from any state reaches start with the three data fields cleared; the error survives. */
  lemma ResetForgetsInputs(s: State)
    ensures var t := Step(s, Reset);
              && t.appState == Start && t.userImage.None? && t.selectedScene.None? && t.resultImage.None?
              && t.error == s.error
  {
  }

  /** Two states that differ only outside the error field are indistinguishable after a reset,
      and a second reset changes nothing. */
  lemma ResetIdempotent(s: State, u: State)
    requires s.error == u.error
    ensures Step(s, Reset) == Step(u, Reset)
    ensures Step(Step(s, Reset), Reset) == Step(s, Reset)
  {
  }

  /** Selecting a scene replaces only the selection; selecting it twice is selecting it once;
      the last selection wins. */
  lemma SelectionIdempotent(s: State, a: Scene, b: Scene)
    ensures Step(s, SelectScene(a)) == s.(selectedScene := Some(a))
    ensures Step(Step(s, SelectScene(a)), SelectScene(a)) == Step(s, SelectScene(a))
    ensures Step(Step(s, SelectScene(a)), SelectScene(b)) == Step(s, SelectScene(b))
    ensures Step(s, SelectScene(a)).appState == s.appState
  {
  }

  /** Opening the camera and cancelling it undoes itself. */
  lemma CameraCancelUndoesTakePhoto(s: State)
    requires s.appState == Start
    ensures Step(Step(s, TakePhoto), CancelCamera) == s
  {
  }

  /** "Try Another Era" keeps the old result image, and the inputs still allow a new generation. */
  lemma TryAnotherEraKeepsStaleResult(s: State, img: string)
    requires CanGenerate(s)
    ensures var t := Step(Step(Step(s, GenerateStart), GenerateSettled(Ok(img))), TryAnotherEra);
              && t.appState == Preview && t.resultImage == Some(img) && CanGenerate(t)
  {
  }

  /** The state after a sequence of events. */
  function Run(s: State, events: seq<Event>): State
    decreases |events|
  {
    if |events| == 0 then s else Run(Step(s, events[0]), events[1..])
  }

  /** States some sequence of events leads to from the first render. */
  ghost predicate Reachable(s: State) {
    exists events :: Run(Initial, events) == s
  }

  /** Every run from a state satisfying the invariant ends in one. */
  lemma {:induction false} RunPreservesInv(s: State, events: seq<Event>)
    requires Inv(s)
    ensures Inv(Run(s, events))
    decreases |events|
  {
    if |events| > 0 {
      RunPreservesInv(Step(s, events[0]), events[1..]);
    }
  }

  /** Every reachable state satisfies the invariant. */
  lemma ReachableSatisfiesInv(s: State)
    requires Reachable(s)
    ensures s.appState == Processing ==> Truthy(s.userImage) && s.selectedScene.Some?
    ensures s.appState == Result ==> s.resultImage.Some?
  {
    var events :| Run(Initial, events) == s;
    RunPreservesInv(Initial, events);
  }

  /** The late settlement of a generation started before a reset still lands: the result
      step is reached with neither image nor scene. There is no request identifier. */
  lemma StaleSettlementAfterReset(s: State, img: string)
    requires CanGenerate(s)
    ensures var t := Run(s, [GenerateStart, Reset, GenerateSettled(Ok(img))]);
              && t.appState == Result && t.resultImage == Some(img)
              && t.userImage.None? && t.selectedScene.None?
  {
    var s1 := Step(s, GenerateStart);
    var s2 := Step(s1, Reset);
    var s3 := Step(s2, GenerateSettled(Ok(img)));
    assert Run(s3, []) == s3;
    assert Run(s2, [GenerateSettled(Ok(img))]) == s3;
    assert [GenerateStart, Reset, GenerateSettled(Ok(img))][1..] == [Reset, GenerateSettled(Ok(img))];
    assert [Reset, GenerateSettled(Ok(img))][1..] == [GenerateSettled(Ok(img))];
  }
}
