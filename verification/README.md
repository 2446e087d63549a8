# ChronoSnap photo booth: a verified model of the flow and the generation client

ChronoSnap is a browser photo booth. The user takes or uploads a selfie and picks a
historical "era" (a scene). The selfie and a text prompt go to an image-generation
service, and the stylised picture comes back. This project models the two pieces of
the program that hold sequential logic, and proves properties of them:

- **The generation client** (`services/geminiService.ts`), module `Gemini` in `gemini.dfy`:
  - the API-key check;
  - the anchored removal of the `data:image/<png|jpeg|jpg|webp>;base64,` header;
  - the instruction text built around the scene's prompt modifier;
  - the request, which always declares `image/jpeg`;
  - the in-order scan of the first candidate's parts for inline image data;
  - the data URL rebuilt from the first qualifying part, with `image/png` as the default MIME type.

  The remote call itself is not modelled. Its reply is a parameter (`Reply`): either a `Response` value or a thrown cause.
- **The application flow** (`App.tsx`), modules `AppFlow` (`app_flow.dfy`) and `Session` (`session.dfy`):
  - `AppFlow.Step` is a pure transition over the five React state fields (`appState`,
    `userImage`, `selectedScene`, `resultImage`, `error`). Every handler is one event. `generateImage` is
    split into its synchronous start and its settlement after the `await`.
  - `Session` adds three things: the render guards (which view is on screen, and so which controls exist);
    the file reads still outstanding; and the generation calls still in flight, each keeping the image
    and prompt modifier it started with. A call's settlement runs `Gemini.Generate` on its reply.

`types.dfy` holds the `Scene` record and the `AppState` enumeration of `types.ts`.
`wrappers.dfy` holds `Option` (null / undefined) and `Outcome` (a value or a thrown error).

JavaScript truthiness is modelled explicitly:
- `!userImage` in the guard of `generateImage` holds for both `null` and `""` (`AppFlow.Truthy`);
- a missing API key is either undefined or empty (`Gemini.KeyPresent`);
- a part qualifies only when its `inlineData.data` is a non-empty string;
- `mimeType || 'image/png'` falls back on an empty string as well as on a missing one.

Behaviours of the code worth knowing:
- **Reset keeps the error.** `reset` does not clear `error`.
- **No stale-response protection.** There is no request identifier. A generation that settles after a
  reset still writes its result, so the result step can be reached with no photo and no scene
  selected (`AppFlow.StaleSettlementAfterReset`, `Session.StaleCallLandsAfterReset`).
  The model does not claim "no stale result".
- **Preview can hold no photo.** The reader's `onloadend` also fires after a failed read, with a null
  result. The preview step is then reached with no photo, and its render guard shows only the
  header (`Session.FailedReadShowsEmptyPreview`).
- **Retake keeps the photo.** "Retake / Change Photo" only changes `appState`; it does not discard the photo.
- **Try Another Era keeps the old image.** It only changes `appState`; the previous result image stays.

## Model

| member | source | states |
|---|---|---|
| Gemini.StripDataUrlPrefix | services/geminiService.ts:16-17 | when the string begins with an accepted header, exactly that header is removed (at most one header can match); when it begins with none, the string is returned unchanged |
| Gemini.StripRemovesOneHeader | services/geminiService.ts:17 | the replacement is not global: header + payload strips to the payload, even when the payload itself begins with a header |
| Gemini.StripIsAnchored | services/geminiService.ts:17 | the pattern is anchored: after any non-empty lead that does not itself begin with an accepted header, a later header is left in place |
| Gemini.Instruction | services/geminiService.ts:31 | the instruction is the fixed head, then the prompt modifier, then the fixed tail; the modifier sits at a known position |
| Gemini.ModifierRoundTrip | services/geminiService.ts:31 | the modifier can always be read back out of the instruction |
| Gemini.ModifierOfInverts | services/geminiService.ts:31 | every text the reader accepts is the instruction of the modifier it yields (the other direction of the round trip) |
| Gemini.InstructionInjective | services/geminiService.ts:31 | different modifiers give different instructions |
| Gemini.BuildRequest | services/geminiService.ts:20-35 | the request names the image model and has two parts: the stripped payload declared as image/jpeg, then a text from which the modifier is recoverable; each part carries one kind of content (RequestPartsAreSingleKind) |
| Gemini.RequestPartsAreSingleKind | services/geminiService.ts:23-33 | the image part carries no text and the text part no inline data, so the request sends exactly one image and one instruction |
| Gemini.RequestAlwaysJpeg | services/geminiService.ts:17-29 | whatever accepted header the caller's image had (png, webp, ...), the request sends the bare payload labelled image/jpeg |
| Gemini.FirstImageIndex | services/geminiService.ts:40-44 | the scan yields the first part with non-empty inline data, every earlier part lacks it, and it yields nothing exactly when no part qualifies |
| Gemini.SkipLeadingParts | services/geminiService.ts:40-43 | parts without image data placed in front do not change which part the scan picks |
| Gemini.MimeOrDefault | services/geminiService.ts:42 | the label is the declared MIME type whenever that is non-empty, and image/png when it is missing or empty |
| Gemini.ImageDataUrl | services/geminiService.ts:42 | the rebuilt value is `data:`, then the declared MIME type or image/png when none is declared (MimeOrDefault), then `;base64,`, then the returned payload, each at its fixed position |
| Gemini.StripImageDataUrl | services/geminiService.ts:17-42 | build then strip: for image/png, image/jpeg, image/jpg and image/webp the payload comes back exactly |
| Gemini.StripDefaultDataUrl | services/geminiService.ts:17-42 | with no declared MIME type the rebuilt URL carries exactly the image/png header, and build then strip returns the payload |
| Gemini.UnlistedMimeKeepsHeader | services/geminiService.ts:17-42 | for a MIME type outside the pattern (image/gif) the header survives the strip: the round trip holds only for the four listed types |
| Gemini.FirstCandidateParts | services/geminiService.ts:39 | the parts are available exactly when the candidate list is present and non-empty and its first candidate has content with parts; they are that candidate's parts |
| Gemini.ExtractImage | services/geminiService.ts:37-47 | success exactly when the first candidate has content with parts and some part has image data; the value is the data URL of the first such part; otherwise the "no image" error |
| Gemini.ExtractImageAsWritten | services/geminiService.ts:39 | the guard as written: an empty candidate list fails on reading the missing first candidate, and only that input differs from ExtractImage |
| Gemini.EmptyCandidateList | services/geminiService.ts:39-47 | the input `candidates: []`: the code as written fails with the undefined-candidate error, the intended reading fails with "no image" |
| Gemini.OnlyFirstCandidate | services/geminiService.ts:39-40 | candidates after the first are never consulted |
| Gemini.ScanSkipsLeadingParts | services/geminiService.ts:39-44 | leading parts without image data (text parts, empty data) do not change the extracted image or the error |
| Gemini.Generate | services/geminiService.ts:3-52 | without a usable key no request is built and the result is the missing-key error; with one, the request is BuildRequest of the inputs, a thrown cause is rethrown unchanged, a delivered response is extracted, agreeing with the code as written (ExtractImageAsWritten) on every response except an empty candidate list, and every success is a data URL; the result equals ReplyOutcome of the key and the reply, whatever the image and modifier |
| Gemini.ReplyOutcome | services/geminiService.ts:3-52 | the outcome of a generation as a function of the key and the reply alone; a success needs a usable key and is a data URL |
| AppFlow.Step | App.tsx:21-243 | every handler preserves the invariant (processing has a truthy photo and a scene, result has a result image); the navigation buttons (camera cancel at 72, Take Photo at 110, Retake at 159, Try Another Era at 243) change only appState, to their target step |
| AppFlow.ImageArrivalKeepsSelection | App.tsx:21-33 | capture and a completed upload store the image and show preview; scene, result and error are unchanged |
| AppFlow.FileChoiceChangesNothing | App.tsx:26-36 | choosing a file, or cancelling the chooser, changes no state until the read completes |
| AppFlow.GenerateStartGuard | App.tsx:42-46 | without a truthy photo or a scene, starting is a no-op; otherwise processing with the error cleared, and photo, scene and result untouched |
| AppFlow.SettledSuccess | App.tsx:48-51 | success stores the returned string as the result image and shows the result step; photo, scene and error are kept |
| AppFlow.SettledFailureAllowsRetry | App.tsx:52-56 | a failure, in whatever state it lands, shows preview with the fixed message; photo, scene and result are unchanged, so generation is possible afterwards exactly when it was before |
| AppFlow.ResetForgetsInputs | App.tsx:59-64 | from any state, reset reaches start with photo, scene and result cleared, and the error left as it was |
| AppFlow.ResetIdempotent | App.tsx:59-64 | a second reset changes nothing, and states that share an error cannot be told apart after a reset |
| AppFlow.SelectionIdempotent | App.tsx:175 | selecting a scene sets the selection to that scene and changes nothing else; selecting it twice is selecting it once, and the last selection wins |
| AppFlow.CameraCancelUndoesTakePhoto | App.tsx:72 | opening the camera from start and cancelling returns exactly the previous state |
| AppFlow.TryAnotherEraKeepsStaleResult | App.tsx:242-247 | after a success, "Try Another Era" returns to preview keeping the old result image, with the inputs still ready to generate |
| AppFlow.RunPreservesInv | App.tsx:42-64 | any sequence of events from a state satisfying the invariant ends in one |
| AppFlow.ReachableSatisfiesInv | App.tsx:42-64 | in every reachable state, processing implies a truthy photo and a scene, and result implies a result image |
| AppFlow.StaleSettlementAfterReset | App.tsx:48-64 | start, reset, then a late success: the result step holds the image with no photo and no scene |
| Session.Render | App.tsx:68-218 | the camera view replaces everything; the start view is shown exactly in the start step (line 97) and the processing view exactly in the processing step (line 211); the preview view is shown exactly in the preview step with a truthy photo (line 151), the result view exactly in the result step with a truthy result image (line 218); otherwise those steps show only the header |
| Session.Next | App.tsx:26-243 | every action preserves the session invariant (the flow invariant; any result image is a data URL; no result image without an API key); a control not on screen does nothing, and a control on screen runs its handler (Step), a chosen file adding one outstanding read instead (Offered: Take Photo and the file input in the start view, cancel and capture in the camera view, reset everywhere but the camera, Retake, the scene cards and the generate button (only once a scene is selected) in the preview view, Try Another Era in the result view); starting records a call with the current photo and the scene's modifier; a settlement removes exactly its own call; a read completion with no read outstanding does nothing |
| Session.SettlementRunsGenerate | App.tsx:48-50 | a settlement applies the outcome of generateTimeTravelImage on the call's own photo and modifier |
| Session.ReadCompletion | App.tsx:30-33 | a completed read, whatever its result, becomes the photo and shows preview; scene, result image and error are kept |
| Session.SettleAnyCall | App.tsx:48-56 | settling any outstanding call: an extracted image lands in the result step as that data URL; a missing key, a thrown reply or a reply without an image shows preview with the message; photo and scene are kept and exactly that call leaves the list |
| Session.TracePreservesSessionInv | App.tsx:26-64 | any sequence of actions preserves the session invariant and the key |
| Session.ReachableSessionShowsResult | App.tsx:211-218 | in a reachable session the result step always passes its render guard, processing has its inputs, and without an API key the result step is never reached |
| Session.OfferedByView | App.tsx:68-243 | the controls of each view: Take Photo, the file input and reset at start; cancel and capture in the camera; reset, Retake, the scene cards and, once a scene is chosen, generate in preview; reset and Try Another Era on the result; only reset while processing or when a render guard fails |
| Session.ResetOfferedOutsideCamera | App.tsx:68-91 | reset is on screen in every step except the camera, whose view replaces the header |
| Session.FailedCallReturnsToPreview | App.tsx:52-56 | a thrown call returns to preview with the message; photo, scene and the other calls are intact, and the generate button is live again |
| Session.SettleOneImage | App.tsx:49-51 | settling the only call with a one-image reply shows that image as a data URL and leaves no call outstanding |
| Session.UploadSelectGenerateScenario | App.tsx:26-51 | upload, select, confirm and an image reply: the result step is rendered with the chosen scene and photo |
| Session.ResetWhileCallInFlight | App.tsx:87-91 | reset during processing returns to start while the call stays outstanding |
| Session.StaleCallLandsAfterReset | App.tsx:48-64 | that outstanding call's late success is still applied: the result view shows an image with no photo and no scene selected |
| Session.FailedReadShowsEmptyPreview | App.tsx:30-33 | a failed read moves to preview with no photo; the preview guard fails, so only the header and reset are on screen and generation cannot start |

## Left out

- components/Camera.tsx is not part of this model: it wraps camera acquisition, the video element and the canvas snapshot. Its two outputs enter the model as the `Capture` and `CancelCamera` events.
- components/SceneCard.tsx and components/Loader.tsx are presentation only. A card's click is the `SelectScene` event.
- constants.ts, the scene catalogue, is static data. `SelectScene` accepts any scene rather than only the six catalogue entries.
- The remote call, `FileReader`, the hidden file input's click (`triggerFileUpload`) and `console.error` are host services. Their results enter as parameters: the `Reply`, the read's `Option<string>` result, and the `FileChosen` event.
- `handleStart` (App.tsx:19) is never wired to any control, so it is not an event.
- The download link and its `Date.now()` file name, the markup, the styling and the mirrored preview are user-interface and clock concerns.
- Payloads are opaque strings: base64 validity and image bytes are not modelled.
- React's batching of state updates is not modelled. Each handler's updates are applied together, as one step.
- Gemini.Generate: uses the corrected ExtractImage, so for a response with an empty candidate list it ends with the "no image" error, where the code as written throws a TypeError (see Findings); on every other response it agrees with the code as written.
- Time is not modelled: reads and calls complete in any order, after any delay.

## Findings

| source | as written | input that shows it | evidently intended | confidence | as-written member | corrected member |
|---|---|---|---|---|---|---|
| services/geminiService.ts:39 | `response.candidates && response.candidates[0].content` lets an empty candidate list through the guard, and reading `content` of the missing first candidate throws a TypeError | a response with `candidates: []` (see Gemini.EmptyCandidateList) | the guard's failure path: the "No image generated in response" error | medium; not executed | Gemini.ExtractImageAsWritten | Gemini.ExtractImage |

Both errors are caught in App.tsx and shown as the same message, so the flow does not change.
`Gemini.Generate`, and through it the session model, uses the corrected `Gemini.ExtractImage`.
