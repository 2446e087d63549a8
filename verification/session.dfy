/** App.tsx as the user meets it: which view is rendered, which events that view
    offers, and the asynchronous completions still outstanding (file reads and
    generation calls). A generation call keeps the image and prompt modifier it
    was started with; its settlement runs the service model on the reply. */
module Session {
  import opened Wrappers
  import opened Types
  import opened AppFlow
  import Gemini

  /** What the render function shows below the header. */
  datatype View =
    | CameraView     // the early return for the camera step; no header
    | StartView
    | PreviewView
    | ProcessingView
    | ResultView
    | HeaderOnly     // a step whose render guard fails: header and empty main

  /** The render guards: preview needs a truthy image, result a truthy result image. */
  function Render(s: State): (v: View)
    ensures v == CameraView <==> s.appState == Camera
    ensures v == PreviewView <==> s.appState == Preview && Truthy(s.userImage)
    ensures v == ResultView <==> s.appState == Result && Truthy(s.resultImage)
    ensures v == StartView <==> s.appState == Start
    ensures v == ProcessingView <==> s.appState == Processing
    ensures v == HeaderOnly <==> (s.appState == Preview && !Truthy(s.userImage))
                                 || (s.appState == Result && !Truthy(s.resultImage))
  {
    match s.appState
    case Camera => CameraView
    case Start => StartView
    case Preview => if Truthy(s.userImage) then PreviewView else HeaderOnly
    case Processing => ProcessingView
    case Result => if Truthy(s.resultImage) then ResultView else HeaderOnly
  }

  /** Is the control that raises this event on screen (and enabled)? Completions are not user events. */
  predicate Offered(s: State, e: Event) {
    match e
    case TakePhoto => Render(s) == StartView
    case FileChosen(_) => Render(s) == StartView
    case CancelCamera => Render(s) == CameraView
    case Capture(_) => Render(s) == CameraView
    case Reset => Render(s) != CameraView
    case Retake => Render(s) == PreviewView
    case SelectScene(_) => Render(s) == PreviewView
    case GenerateStart => Render(s) == PreviewView && s.selectedScene.Some?
    case TryAnotherEra => Render(s) == ResultView
    case UploadLoaded(_) => false
    case GenerateSettled(_) => false
  }

  /** A generation call in flight, with the arguments it was started with. */
  datatype Call = Call(image: string, modifier: string)

  /** The app state plus the configured key and the outstanding asynchronous work. */
  datatype Session = Session(ui: State, apiKey: Option<string>, pendingReads: nat, calls: seq<Call>)

  /** What can happen next: a user event, a read finishing, or a call settling. */
  datatype Action =
    | User(event: Event)
    | ReadDone(result: Option<string>)
    | CallDone(index: nat, reply: Gemini.Reply)

  /** The session on first render. */
  function Begin(apiKey: Option<string>): Session {
    Session(Initial, apiKey, 0, [])
  }

  /** Outstanding calls never settle into a shown result without a data URL, and a
      session without a key never gets a result image at all. */
  predicate SessionInv(w: Session) {
    && Inv(w.ui)
    && (w.ui.resultImage.Some? ==> Gemini.IsDataUrl(w.ui.resultImage.value))
    && (!Gemini.KeyPresent(w.apiKey) ==> w.ui.resultImage.None?)
  }

  /** One action. A control that is not on screen, a completion with nothing
      outstanding, or an unknown call index leaves the session as it was. */
  function Next(w: Session, a: Action): (w': Session)
    ensures SessionInv(w) ==> SessionInv(w')
    ensures w'.apiKey == w.apiKey
    ensures a.User? && !Offered(w.ui, a.event) ==> w' == w
    ensures a.User? && Offered(w.ui, a.event) && a.event != FileChosen(true) ==>
              w'.ui == Step(w.ui, a.event) && w'.pendingReads == w.pendingReads
    ensures a.User? && Offered(w.ui, a.event) && !a.event.GenerateStart? && a.event != FileChosen(true) ==>
              w'.calls == w.calls
    ensures a == User(FileChosen(true)) && Offered(w.ui, a.event) ==>
              w'.ui == w.ui && w'.pendingReads == w.pendingReads + 1 && w'.calls == w.calls
    ensures a.User? && a.event.GenerateStart? && Offered(w.ui, a.event) ==>
              && w'.ui.appState == Processing
              && w'.calls == w.calls + [Call(w.ui.userImage.value, w.ui.selectedScene.value.promptModifier)]
    ensures a.CallDone? && a.index < |w.calls| ==>
              multiset(w'.calls) + multiset{w.calls[a.index]} == multiset(w.calls)
    ensures a.CallDone? && a.index < |w.calls| ==>
              w'.calls == w.calls[..a.index] + w.calls[a.index + 1..] && w'.pendingReads == w.pendingReads
    ensures a.ReadDone? && w.pendingReads == 0 ==> w' == w
  {
    match a
    case User(e) =>
      if !Offered(w.ui, e) then w
      else if e == FileChosen(true) then w.(pendingReads := w.pendingReads + 1)
      else if e.GenerateStart? && CanGenerate(w.ui) then
        w.(ui := Step(w.ui, e),
           calls := w.calls + [Call(w.ui.userImage.value, w.ui.selectedScene.value.promptModifier)])
      else w.(ui := Step(w.ui, e))
    case ReadDone(r) =>
      if w.pendingReads == 0 then w
      else w.(pendingReads := w.pendingReads - 1, ui := Step(w.ui, UploadLoaded(r)))
    case CallDone(i, reply) =>
      if i >= |w.calls| then w
      else
        RemoveAtMultiset(w.calls, i);
        w.(calls := w.calls[..i] + w.calls[i + 1..], ui := Step(w.ui, GenerateSettled(Gemini.ReplyOutcome(w.apiKey, reply))))
  }

  /** A settlement applies the outcome of the service run on the call's own photo and
      modifier; the outcome does not depend on which request was sent. */
  lemma SettlementRunsGenerate(w: Session, i: nat, reply: Gemini.Reply)
    requires i < |w.calls|
    ensures Next(w, CallDone(i, reply)).ui
         == Step(w.ui, GenerateSettled(Gemini.Generate(w.apiKey, w.calls[i].image, w.calls[i].modifier, reply).result))
  {
  }

  /** A completed read, whatever its result, stores it as the photo and shows preview;
      the scene, result image and error are kept. */
  lemma ReadCompletion(w: Session, result: Option<string>)
    requires w.pendingReads > 0
    ensures var w' := Next(w, ReadDone(result));
              && w'.pendingReads == w.pendingReads - 1 && w'.calls == w.calls
              && w'.ui.appState == Preview && w'.ui.userImage == result
              && w'.ui.selectedScene == w.ui.selectedScene
              && w'.ui.resultImage == w.ui.resultImage && w'.ui.error == w.ui.error
  {
  }

  /** Settling any outstanding call: an extracted image lands in the result step, every
      other outcome (missing key, thrown reply, no image) shows preview with the message.
      Photo and scene are kept either way, and exactly that call leaves the list. */
  lemma SettleAnyCall(w: Session, i: nat, reply: Gemini.Reply)
    requires i < |w.calls|
    ensures var w' := Next(w, CallDone(i, reply));
            var ok := Gemini.KeyPresent(w.apiKey) && reply.Delivered?
                      && Gemini.ExtractImage(reply.response).Ok?;
              && w'.ui.userImage == w.ui.userImage && w'.ui.selectedScene == w.ui.selectedScene
              && (ok ==> w'.ui.appState == Result
                         && w'.ui.resultImage == Some(Gemini.ExtractImage(reply.response).value)
                         && w'.ui.error == w.ui.error)
              && (!ok ==> w'.ui.appState == Preview && w'.ui.error == Some(MalfunctionMessage)
                          && w'.ui.resultImage == w.ui.resultImage)
              && w'.calls == w.calls[..i] + w.calls[i + 1..]
  {
    var o := Gemini.ReplyOutcome(w.apiKey, reply);
    var w' := Next(w, CallDone(i, reply));
    assert w'.ui == Step(w.ui, GenerateSettled(o));
    assert o.Ok? <==> Gemini.KeyPresent(w.apiKey) && reply.Delivered?
                             && Gemini.ExtractImage(reply.response).Ok?;
  }

  /** Removing the element at one index removes exactly that element from the multiset. */
  lemma RemoveAtMultiset<T>(xs: seq<T>, i: nat)
    requires i < |xs|
    ensures multiset(xs[..i] + xs[i + 1..]) + multiset{xs[i]} == multiset(xs)
  {
    assert xs == xs[..i] + [xs[i]] + xs[i + 1..];
  }

  /** The session after a sequence of actions. */
  function Trace(w: Session, actions: seq<Action>): Session
    decreases |actions|
  {
    if |actions| == 0 then w else Trace(Next(w, actions[0]), actions[1..])
  }

  /** Sessions some sequence of actions leads to from the first render. */
  ghost predicate SessionReachable(w: Session) {
    exists actions :: Trace(Begin(w.apiKey), actions) == w
  }

  lemma {:induction false} TracePreservesSessionInv(w: Session, actions: seq<Action>)
    requires SessionInv(w)
    ensures SessionInv(Trace(w, actions))
    ensures Trace(w, actions).apiKey == w.apiKey
    decreases |actions|
  {
    if |actions| > 0 {
      TracePreservesSessionInv(Next(w, actions[0]), actions[1..]);
    }
  }

  /** In every reachable session the result step is actually rendered, processing has
      its inputs, and without an API key the result step is never reached. */
  lemma ReachableSessionShowsResult(w: Session)
    requires SessionReachable(w)
    ensures w.ui.appState == Result ==> Render(w.ui) == ResultView
    ensures w.ui.appState == Processing ==> Truthy(w.ui.userImage) && w.ui.selectedScene.Some?
    ensures !Gemini.KeyPresent(w.apiKey) ==> w.ui.appState != Result
  {
    var actions :| Trace(Begin(w.apiKey), actions) == w;
    TracePreservesSessionInv(Begin(w.apiKey), actions);
  }

  /** The camera step renders without the header, so it offers no reset; every other step does. */
  lemma ResetOfferedOutsideCamera(s: State)
    ensures Offered(s, Reset) <==> s.appState != Camera
  {
  }

  /** The controls each view puts on screen: during processing, and on a step whose
      render guard fails, only reset is available. */
  lemma OfferedByView(s: State, e: Event)
    ensures Render(s) == StartView ==> (Offered(s, e) <==> e.TakePhoto? || e.FileChosen? || e.Reset?)
    ensures Render(s) == CameraView ==> (Offered(s, e) <==> e.CancelCamera? || e.Capture?)
    ensures Render(s) == PreviewView ==>
              (Offered(s, e) <==> e.Reset? || e.Retake? || e.SelectScene?
                                  || (e.GenerateStart? && s.selectedScene.Some?))
    ensures Render(s) == ResultView ==> (Offered(s, e) <==> e.Reset? || e.TryAnotherEra?)
    ensures Render(s) == ProcessingView || Render(s) == HeaderOnly ==> (Offered(s, e) <==> e.Reset?)
  {
  }

  /** A failed call returns to preview with image and scene intact and the retry button live. */
  lemma FailedCallReturnsToPreview(w: Session, cause: string)
    requires Render(w.ui) == PreviewView && w.ui.selectedScene.Some?
    ensures var w1 := Next(w, User(GenerateStart));
            var w2 := Next(w1, CallDone(|w.calls|, Gemini.Thrown(cause)));
              && w2.ui.appState == Preview && w2.ui.error == Some(MalfunctionMessage)
              && w2.ui.userImage == w.ui.userImage && w2.ui.selectedScene == w.ui.selectedScene
              && w2.calls == w.calls
              && Offered(w2.ui, GenerateStart)
  {
    var w1 := Next(w, User(GenerateStart));
    var n := |w.calls|;
    assert w1.calls == w.calls + [Call(w.ui.userImage.value, w.ui.selectedScene.value.promptModifier)];
    SettleAnyCall(w1, n, Gemini.Thrown(cause));
    assert w1.calls[..n] + w1.calls[n + 1..] == w.calls;
  }

  /** A response whose first candidate holds one image part. */
  function OneImageReply(mimeType: Option<string>, data: string): Gemini.Reply {
    Gemini.Delivered(Gemini.Response(Some([Gemini.Candidate(Some(Gemini.Content(Some(
      [Gemini.Part(Some(Gemini.InlineData(mimeType, Some(data))), None)]))))])))
  }

  /** Upload, select, confirm, and a reply with an image: the result step shows that image
      with the chosen scene and photo still selected. */
  lemma UploadSelectGenerateScenario(key: string, photo: string, scene: Scene, mime: string, data: string)
    requires key != "" && photo != "" && data != ""
    ensures var w := Trace(Begin(Some(key)),
                           [User(FileChosen(true)), ReadDone(Some(photo)), User(SelectScene(scene)),
                            User(GenerateStart), CallDone(0, OneImageReply(Some(mime), data))]);
              && w.ui.appState == Result && Render(w.ui) == ResultView
              && w.ui.selectedScene == Some(scene) && w.ui.userImage == Some(photo)
              && w.ui.resultImage == Some(Gemini.ImageDataUrl(Some(mime), data))
              && w.calls == []
  {
    var reply := OneImageReply(Some(mime), data);
    var actions := [User(FileChosen(true)), ReadDone(Some(photo)), User(SelectScene(scene)),
                    User(GenerateStart), CallDone(0, reply)];
    var w0 := Begin(Some(key));
    var ui4 := State(Processing, Some(photo), Some(scene), None, None);
    var w4 := Session(ui4, Some(key), 0, [Call(photo, scene.promptModifier)]);
    UploadThenSelect(key, photo, scene);
    StartFromPreview(Some(key), photo, scene);
    SettleOneImage(w4, Some(mime), data);
    TraceUnfold5(w0, actions);
  }

  /** Settling the only outstanding call with a one-image reply shows that image. */
  lemma SettleOneImage(w: Session, mimeType: Option<string>, data: string)
    requires Gemini.KeyPresent(w.apiKey) && |w.calls| == 1 && data != ""
    ensures Next(w, CallDone(0, OneImageReply(mimeType, data)))
         == w.(calls := [], ui := w.ui.(appState := Result, resultImage := Some(Gemini.ImageDataUrl(mimeType, data))))
  {
    var reply := OneImageReply(mimeType, data);
    OneImageExtracts(mimeType, data);
    assert Gemini.ReplyOutcome(w.apiKey, reply) == Ok(Gemini.ImageDataUrl(mimeType, data));
    assert w.calls[..0] + w.calls[1..] == [];
  }

  /** The one-image reply extracts to the data URL of its image. */
  lemma OneImageExtracts(mimeType: Option<string>, data: string)
    requires data != ""
    ensures Gemini.ExtractImage(OneImageReply(mimeType, data).response) == Ok(Gemini.ImageDataUrl(mimeType, data))
  {
    var part := Gemini.Part(Some(Gemini.InlineData(mimeType, Some(data))), None);
    assert Gemini.FirstCandidateParts(OneImageReply(mimeType, data).response) == Some([part]);
    assert Gemini.HasImageData([part][0]);
    assert Gemini.FirstImageIndex([part]) == Some(0);
  }

  /** Confirming from a live preview with a scene chosen starts exactly one call. */
  lemma StartFromPreview(apiKey: Option<string>, photo: string, scene: Scene)
    requires photo != ""
    ensures Next(Session(State(Preview, Some(photo), Some(scene), None, None), apiKey, 0, []), User(GenerateStart))
         == Session(State(Processing, Some(photo), Some(scene), None, None), apiKey, 0, [Call(photo, scene.promptModifier)])
  {
    var ui := State(Preview, Some(photo), Some(scene), None, None);
    assert Render(ui) == PreviewView;
    assert CanGenerate(ui);
  }

  /** Upload a photo and select a scene from the first render: a live preview, nothing outstanding. */
  lemma UploadThenSelect(key: string, photo: string, scene: Scene)
    requires key != "" && photo != ""
    ensures Next(Next(Next(Begin(Some(key)), User(FileChosen(true))), ReadDone(Some(photo))), User(SelectScene(scene)))
         == Session(State(Preview, Some(photo), Some(scene), None, None), Some(key), 0, [])
  {
    var w1 := Session(Initial, Some(key), 1, []);
    var w2 := Session(State(Preview, Some(photo), None, None, None), Some(key), 0, []);
    assert Next(Begin(Some(key)), User(FileChosen(true))) == w1;
    assert Next(w1, ReadDone(Some(photo))) == w2;
  }

  /** A five-action trace is five steps. */
  lemma TraceUnfold5(w: Session, actions: seq<Action>)
    requires |actions| == 5
    ensures Trace(w, actions)
         == Next(Next(Next(Next(Next(w, actions[0]), actions[1]), actions[2]), actions[3]), actions[4])
  {
    var w1 := Next(w, actions[0]);
    var w2 := Next(w1, actions[1]);
    var w3 := Next(w2, actions[2]);
    var w4 := Next(w3, actions[3]);
    var w5 := Next(w4, actions[4]);
    assert Trace(w5, actions[5..]) == w5;
    assert Trace(w4, actions[4..]) == w5;
    assert Trace(w3, actions[3..]) == w5;
    assert Trace(w2, actions[2..]) == w5;
    assert Trace(w1, actions[1..]) == w5;
  }

  /** Upload, select, confirm, then reset before the call settles: start step, call still outstanding. */
  lemma ResetWhileCallInFlight(key: string, photo: string, scene: Scene)
    requires key != "" && photo != ""
    ensures Trace(Begin(Some(key)),
                  [User(FileChosen(true)), ReadDone(Some(photo)), User(SelectScene(scene)),
                   User(GenerateStart), User(Reset)])
         == Session(Initial, Some(key), 0, [Call(photo, scene.promptModifier)])
  {
    var first := [User(FileChosen(true)), ReadDone(Some(photo)), User(SelectScene(scene)),
                  User(GenerateStart), User(Reset)];
    var w0 := Begin(Some(key));
    var ui3 := State(Preview, Some(photo), Some(scene), None, None);
    var w4 := Session(ui3.(appState := Processing), Some(key), 0, [Call(photo, scene.promptModifier)]);
    UploadThenSelect(key, photo, scene);
    StartFromPreview(Some(key), photo, scene);
    assert Next(w4, first[4]) == w4.(ui := Initial);
    TraceUnfold5(w0, first);
  }

  /** A reset while a call is in flight does not stop its late success from being applied:
      the result step shows an image for which no photo and no scene remain selected. */
  lemma StaleCallLandsAfterReset(key: string, photo: string, scene: Scene, data: string)
    requires key != "" && photo != "" && data != ""
    ensures var w := Trace(Begin(Some(key)),
                           [User(FileChosen(true)), ReadDone(Some(photo)), User(SelectScene(scene)),
                            User(GenerateStart), User(Reset)]
                           + [CallDone(0, OneImageReply(None, data))]);
              && w.ui.appState == Result && Render(w.ui) == ResultView
              && w.ui.userImage.None? && w.ui.selectedScene.None?
  {
    var first := [User(FileChosen(true)), ReadDone(Some(photo)), User(SelectScene(scene)),
                  User(GenerateStart), User(Reset)];
    var last := [CallDone(0, OneImageReply(None, data))];
    var w5 := Session(Initial, Some(key), 0, [Call(photo, scene.promptModifier)]);
    var url := Gemini.ImageDataUrl(None, data);
    var w6 := w5.(calls := [], ui := Initial.(appState := Result, resultImage := Some(url)));
    ResetWhileCallInFlight(key, photo, scene);
    SettleOneImage(w5, None, data);
    assert Trace(w6, []) == w6;
    assert Trace(w5, last) == w6;
    TraceSplit(Begin(Some(key)), first, last);
    assert Truthy(Some(url));
  }

  /** A trace over a concatenation is the trace over its second part from where the first ends. */
  lemma {:induction false} TraceSplit(w: Session, first: seq<Action>, second: seq<Action>)
    ensures Trace(w, first + second) == Trace(Trace(w, first), second)
    decreases |first|
  {
    if |first| == 0 {
      assert first + second == second;
    } else {
      assert (first + second)[1..] == first[1..] + second;
      TraceSplit(Next(w, first[0]), first[1..], second);
    }
  }

  /** A failed read still completes into the preview step, with no image: the preview
      guard fails and only the header is shown. */
  lemma FailedReadShowsEmptyPreview(key: Option<string>)
    ensures var w := Trace(Begin(key), [User(FileChosen(true)), ReadDone(None)]);
              && w.ui.appState == Preview && w.ui.userImage.None? && Render(w.ui) == HeaderOnly
              && !Offered(w.ui, GenerateStart) && Offered(w.ui, Reset)
  {
  }
}
