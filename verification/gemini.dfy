/** The generation client (services/geminiService.ts): the data-URL handling
    around the request, the instruction text, and the scan of the response.
    The remote call itself is not modelled: its reply is a parameter. */
module Gemini {
  import opened Wrappers

  /** The model identifier every request names. */
  const ModelName: string := "gemini-2.5-flash-image"

  /** The MIME type every request declares for the uploaded image. */
  const RequestMimeType: string := "image/jpeg"

  /** The MIME type assumed for a returned image that declares none. */
  const DefaultMimeType: string := "image/png"

  /** The image subtypes the prefix pattern accepts, in the order of its alternation. */
  const StrippedSubtypes: seq<string> := ["png", "jpeg", "jpg", "webp"]

  /** The data-URL header of a base64 image of the given subtype. */
  function DataUrlPrefix(subtype: string): string {
    "data:image/" + subtype + ";base64,"
  }

  /** Does `s` begin with one of the headers the prefix pattern accepts? */
  predicate HasStrippedPrefix(s: string) {
    exists t :: t in StrippedSubtypes && DataUrlPrefix(t) <= s
  }

  /** Two headers of the accepted subtypes that both begin one string are the same header. */
  lemma PrefixesExclusive(s: string, a: string, b: string)
    requires a in StrippedSubtypes && b in StrippedSubtypes
    requires DataUrlPrefix(a) <= s && DataUrlPrefix(b) <= s
    ensures a == b
  {
    var pa, pb := DataUrlPrefix(a), DataUrlPrefix(b);
    assert pa[11] == s[11] == pb[11];
    assert pa[12] == s[12] == pb[12];
    assert pa[13] == s[13] == pb[13];
  }

  /** At most one accepted header begins any string. */
  lemma AtMostOneHeader(s: string)
    ensures forall t, u ::
              (t in StrippedSubtypes && u in StrippedSubtypes && DataUrlPrefix(t) <= s && DataUrlPrefix(u) <= s)
              ==> t == u
  {
    forall t, u | t in StrippedSubtypes && u in StrippedSubtypes && DataUrlPrefix(t) <= s && DataUrlPrefix(u) <= s
      ensures t == u
    {
      PrefixesExclusive(s, t, u);
    }
  }

  /** The anchored, non-global replacement of the data-URL header by the empty string. */
  function StripDataUrlPrefix(s: string): (r: string)
    ensures forall t :: t in StrippedSubtypes && DataUrlPrefix(t) <= s ==> r == s[|DataUrlPrefix(t)|..]
    ensures !HasStrippedPrefix(s) ==> r == s
  {
    AtMostOneHeader(s);
    if DataUrlPrefix("png") <= s then s[|DataUrlPrefix("png")|..]
    else if DataUrlPrefix("jpeg") <= s then s[|DataUrlPrefix("jpeg")|..]
    else if DataUrlPrefix("jpg") <= s then s[|DataUrlPrefix("jpg")|..]
    else if DataUrlPrefix("webp") <= s then s[|DataUrlPrefix("webp")|..]
    else s
  }

  /** Exactly one header is removed, even when the payload itself begins with another one. */
  lemma StripRemovesOneHeader(t: string, payload: string)
    requires t in StrippedSubtypes
    ensures StripDataUrlPrefix(DataUrlPrefix(t) + payload) == payload
  {
  }

  /** A header that occurs later in the string is left in place: the pattern is anchored. */
  lemma StripIsAnchored(lead: string, t: string, payload: string)
    requires t in StrippedSubtypes
    requires |lead| > 0 && !HasStrippedPrefix(lead)
    ensures StripDataUrlPrefix(lead + DataUrlPrefix(t) + payload) == lead + DataUrlPrefix(t) + payload
  {
    var rest := DataUrlPrefix(t) + payload;
    assert lead + DataUrlPrefix(t) + payload == lead + rest;
    forall u | u in StrippedSubtypes
      ensures !(DataUrlPrefix(u) <= lead + rest)
    {
      HeaderNotAcross(lead, rest, u);
    }
  }

  /** A header cannot begin a non-header lead followed by a string that starts with 'd'. */
  lemma HeaderNotAcross(lead: string, rest: string, u: string)
    requires u in StrippedSubtypes && |lead| > 0 && !(DataUrlPrefix(u) <= lead)
    requires |rest| > 0 && rest[0] == 'd'
    ensures !(DataUrlPrefix(u) <= lead + rest)
  {
    var p, s := DataUrlPrefix(u), lead + rest;
    if |p| <= |lead| {
      assert s[..|p|] == lead[..|p|];
    } else {
      assert s[|lead|] == 'd';
      OnlyLeadingD(u, |lead|);
    }
  }

  /** The letter 'd' occurs in an accepted header only at its start. */
  lemma OnlyLeadingD(u: string, k: nat)
    requires u in StrippedSubtypes && 0 < k < |DataUrlPrefix(u)|
    ensures DataUrlPrefix(u)[k] != 'd'
  {
    var p := DataUrlPrefix(u);
    assert p == "data:image/" + u + ";base64,";
    if k < 11 {
      assert p[k] == "data:image/"[k];
    } else if k < 11 + |u| {
      assert p[k] == u[k - 11];
    } else {
      assert p[k] == ";base64,"[k - 11 - |u|];
    }
  }

  /** The opening and closing sentences of the instruction sent with the image. */
  const InstructionHead: string := "Edit this image to place the person "
  const InstructionTail: string := ". Ensure the face remains recognizable but matches the lighting and style of the scene. The output should be a high-quality, photorealistic image."

  /** The instruction text: the scene's prompt modifier between the fixed head and tail. */
  function Instruction(modifier: string): (text: string)
    ensures |text| == |InstructionHead| + |modifier| + |InstructionTail|
    ensures text[..|InstructionHead|] == InstructionHead
    ensures text[|InstructionHead|..|InstructionHead| + |modifier|] == modifier
    ensures text[|InstructionHead| + |modifier|..] == InstructionTail
  {
    InstructionHead + modifier + InstructionTail
  }

  /** Recovers the prompt modifier from an instruction text, if it has the instruction's shape. */
  function ModifierOf(text: string): (m: Option<string>)
    ensures m.Some? ==> |m.value| + |InstructionHead| + |InstructionTail| == |text|
  {
    if |InstructionHead| + |InstructionTail| <= |text|
       && text[..|InstructionHead|] == InstructionHead
       && text[|text| - |InstructionTail|..] == InstructionTail
    then Some(text[|InstructionHead|..|text| - |InstructionTail|])
    else None
  }

  /** The instruction always carries its modifier, and the modifier can be read back out of it. */
  lemma ModifierRoundTrip(modifier: string)
    ensures ModifierOf(Instruction(modifier)) == Some(modifier)
  {
  }

  /** Every text the reader accepts is the instruction of the modifier it reads. */
  lemma ModifierOfInverts(text: string)
    requires ModifierOf(text).Some?
    ensures Instruction(ModifierOf(text).value) == text
  {
  }

  /** Distinct modifiers give distinct instructions. */
  lemma InstructionInjective(a: string, b: string)
    requires Instruction(a) == Instruction(b)
    ensures a == b
  {
  }

  /** The inline payload of a message part. */
  datatype InlineData = InlineData(mimeType: Option<string>, data: Option<string>)

  /** One part of a message: inline data, text, or both absent. */
  datatype Part = Part(inlineData: Option<InlineData>, text: Option<string>)

  datatype Content = Content(parts: Option<seq<Part>>)

  datatype Candidate = Candidate(content: Option<Content>)

  /** What the service sends back. */
  datatype Response = Response(candidates: Option<seq<Candidate>>)

  /** What the client sends. */
  datatype Request = Request(model: string, contents: Content)

  /** The remote call either delivers a response or throws. */
  datatype Reply = Delivered(response: Response) | Thrown(cause: string)

  /** The errors a generation can end with. */
  datatype GenError =
    | MissingApiKey            // "API Key not found", raised before any request exists
    | Transport(cause: string) // whatever the remote call threw, rethrown unchanged
    | NoImageInResponse        // "No image generated in response"
    | CandidateUndefined       // reading `content` of a missing first candidate

  /** The request for one image and one prompt modifier. */
  function BuildRequest(image: string, modifier: string): (q: Request)
    ensures q.model == ModelName
    ensures q.contents.parts.Some? && |q.contents.parts.value| == 2
    ensures q.contents.parts.value[0].inlineData == Some(InlineData(Some(RequestMimeType), Some(StripDataUrlPrefix(image))))
    ensures q.contents.parts.value[1].text.Some?
    ensures ModifierOf(q.contents.parts.value[1].text.value) == Some(modifier)
  {
    ModifierRoundTrip(modifier);
    Request(ModelName, Content(Some([
      Part(Some(InlineData(Some(RequestMimeType), Some(StripDataUrlPrefix(image)))), None),
      Part(None, Some(Instruction(modifier)))])))
  }

  /** Whatever header the caller's image carried, the request sends its bare payload as JPEG. */
  lemma RequestAlwaysJpeg(t: string, payload: string, modifier: string)
    requires t in StrippedSubtypes
    ensures BuildRequest(DataUrlPrefix(t) + payload, modifier).contents.parts.value[0].inlineData
         == Some(InlineData(Some("image/jpeg"), Some(payload)))
  {
  }

  /** Each request part carries one kind of content: the image part has no text, and the
      text part has no inline data, so exactly one image is sent. */
  lemma RequestPartsAreSingleKind(image: string, modifier: string)
    ensures BuildRequest(image, modifier).contents.parts.value[0].text.None?
    ensures BuildRequest(image, modifier).contents.parts.value[1].inlineData.None?
  {
  }

  /** A part qualifies when its inline data is present and non-empty (JavaScript truthiness). */
  predicate HasImageData(p: Part) {
    p.inlineData.Some? && p.inlineData.value.data.Some? && p.inlineData.value.data.value != ""
  }

  /** The index of the first qualifying part, scanning in order. */
  function FirstImageIndex(parts: seq<Part>): (r: Option<nat>)
    ensures r.Some? ==> r.value < |parts| && HasImageData(parts[r.value])
    ensures r.Some? ==> forall j :: 0 <= j < r.value ==> !HasImageData(parts[j])
    ensures r.None? <==> forall j :: 0 <= j < |parts| ==> !HasImageData(parts[j])
    decreases |parts|
  {
    if |parts| == 0 then None
    else if HasImageData(parts[0]) then Some(0)
    else
      match FirstImageIndex(parts[1..])
      case None => None
      case Some(i) => Some(i + 1)
  }

  /** Parts without image data in front of a list do not change which image the scan picks. */
  lemma {:induction false} SkipLeadingParts(skipped: seq<Part>, parts: seq<Part>)
    requires forall j :: 0 <= j < |skipped| ==> !HasImageData(skipped[j])
    requires FirstImageIndex(parts).Some?
    ensures FirstImageIndex(skipped + parts).Some?
    ensures (skipped + parts)[FirstImageIndex(skipped + parts).value] == parts[FirstImageIndex(parts).value]
    decreases |skipped|
  {
    var all := skipped + parts;
    if |skipped| == 0 {
      assert all == parts;
    } else {
      SkipLeadingParts(skipped[1..], parts);
      assert all[1..] == skipped[1..] + parts;
      assert !HasImageData(all[0]);
      var i := FirstImageIndex(all[1..]).value;
      assert FirstImageIndex(all) == Some(i + 1);
      assert all[i + 1] == all[1..][i];
    }
  }

  /** The MIME type a returned image is labelled with. */
  function MimeOrDefault(mimeType: Option<string>): (m: string)
    ensures m != ""
    ensures mimeType.Some? && mimeType.value != "" ==> m == mimeType.value
    ensures !(mimeType.Some? && mimeType.value != "") ==> m == DefaultMimeType
  {
    if mimeType.Some? && mimeType.value != "" then mimeType.value else DefaultMimeType
  }

  /** A string that starts like a data URL. */
  predicate IsDataUrl(s: string) {
    "data:" <= s
  }

  /** The data URL rebuilt around a returned payload. */
  function ImageDataUrl(mimeType: Option<string>, data: string): (url: string)
    ensures IsDataUrl(url)
    ensures |url| >= |data| && url[|url| - |data|..] == data
    ensures var m := MimeOrDefault(mimeType);
              && |url| == 5 + |m| + 8 + |data|
              && url[5..5 + |m|] == m
              && url[5 + |m|..5 + |m| + 8] == ";base64,"
  {
    var url := "data:" + MimeOrDefault(mimeType) + ";base64," + data;
    assert url[|url| - |data|..] == data;
    url
  }

  /** Build then strip: for every MIME type the prefix pattern knows, the payload comes back. */
  lemma StripImageDataUrl(t: string, data: string)
    requires t in StrippedSubtypes
    ensures StripDataUrlPrefix(ImageDataUrl(Some("image/" + t), data)) == data
  {
    assert ImageDataUrl(Some("image/" + t), data) == DataUrlPrefix(t) + data;
    StripRemovesOneHeader(t, data);
  }

  /** Build then strip with no declared MIME type: the default is one the pattern knows. */
  lemma StripDefaultDataUrl(data: string)
    ensures ImageDataUrl(None, data) == DataUrlPrefix("png") + data
    ensures StripDataUrlPrefix(ImageDataUrl(None, data)) == data
  {
    assert MimeOrDefault(None) == "image/png";
    assert ImageDataUrl(None, data) == DataUrlPrefix("png") + data;
    StripRemovesOneHeader("png", data);
  }

  /** For a MIME type outside the pattern's list the header survives the strip. */
  lemma UnlistedMimeKeepsHeader(data: string)
    ensures StripDataUrlPrefix(ImageDataUrl(Some("image/gif"), data)) == ImageDataUrl(Some("image/gif"), data)
  {
    var url := ImageDataUrl(Some("image/gif"), data);
    assert url == "data:image/gif;base64," + data;
    forall u | u in StrippedSubtypes
      ensures !(DataUrlPrefix(u) <= url)
    {
      assert url[11] == 'g';
    }
  }

  /** The data URL of a qualifying part. */
  function PartDataUrl(p: Part): string
    requires HasImageData(p)
  {
    ImageDataUrl(p.inlineData.value.mimeType, p.inlineData.value.data.value)
  }

  /** The parts of the first candidate, when the candidate, its content and its parts all exist. */
  function FirstCandidateParts(response: Response): (r: Option<seq<Part>>)
    ensures r.Some? <==> && response.candidates.Some? && |response.candidates.value| > 0
                         && response.candidates.value[0].content.Some?
                         && response.candidates.value[0].content.value.parts.Some?
    ensures r.Some? ==> r.value == response.candidates.value[0].content.value.parts.value
  {
    if response.candidates.Some? && |response.candidates.value| > 0
       && response.candidates.value[0].content.Some?
       && response.candidates.value[0].content.value.parts.Some?
    then Some(response.candidates.value[0].content.value.parts.value)
    else None
  }

  /** The first image of the first candidate as a data URL, or NoImageInResponse. */
  function ExtractImage(response: Response): (r: Outcome<string, GenError>)
    ensures r.Err? ==> r.error == NoImageInResponse
    ensures r.Ok? <==> FirstCandidateParts(response).Some?
                       && exists i :: 0 <= i < |FirstCandidateParts(response).value|
                                      && HasImageData(FirstCandidateParts(response).value[i])
    ensures r.Ok? ==> IsDataUrl(r.value)
    ensures r.Ok? ==> var ps := FirstCandidateParts(response).value;
                      exists i :: 0 <= i < |ps| && HasImageData(ps[i])
                                  && (forall j :: 0 <= j < i ==> !HasImageData(ps[j]))
                                  && r.value == PartDataUrl(ps[i])
  {
    match FirstCandidateParts(response)
    case None => Err(NoImageInResponse)
    case Some(ps) =>
      match FirstImageIndex(ps)
      case None => Err(NoImageInResponse)
      case Some(i) => Ok(PartDataUrl(ps[i]))
  }

  /** Line 39 as written: an empty candidate list passes the guard and the read of its
      first element's content fails. Otherwise it agrees with ExtractImage. */
  function ExtractImageAsWritten(response: Response): (r: Outcome<string, GenError>)
    ensures r == Err(CandidateUndefined) <==> response.candidates == Some([])
    ensures response.candidates != Some([]) ==> r == ExtractImage(response)
  {
    if response.candidates == Some([]) then Err(CandidateUndefined)
    else ExtractImage(response)
  }

  /** The empty candidate list: the code as written raises a TypeError-like failure,
      the evidently intended behaviour is the "no image" error. */
  lemma EmptyCandidateList()
    ensures ExtractImageAsWritten(Response(Some([]))) == Err(CandidateUndefined)
    ensures ExtractImage(Response(Some([]))) == Err(NoImageInResponse)
  {
  }

  /** Only the first candidate is consulted. */
  lemma OnlyFirstCandidate(c: Candidate, rest: seq<Candidate>)
    ensures ExtractImage(Response(Some([c] + rest))) == ExtractImage(Response(Some([c])))
  {
  }

  /** The scan skips parts without image data, whatever they carry. */
  lemma ScanSkipsLeadingParts(skipped: seq<Part>, parts: seq<Part>)
    requires forall j :: 0 <= j < |skipped| ==> !HasImageData(skipped[j])
    ensures ExtractImage(Response(Some([Candidate(Some(Content(Some(skipped + parts))))])))
         == ExtractImage(Response(Some([Candidate(Some(Content(Some(parts))))])))
  {
    if FirstImageIndex(parts).Some? {
      SkipLeadingParts(skipped, parts);
    } else {
      assert forall j :: 0 <= j < |skipped + parts| ==> !HasImageData((skipped + parts)[j]) by {
        forall j | 0 <= j < |skipped + parts|
          ensures !HasImageData((skipped + parts)[j])
        {
          if j >= |skipped| {
            assert (skipped + parts)[j] == parts[j - |skipped|];
          }
        }
      }
    }
  }

  /** Is the configured API key usable? Undefined and empty keys are not. */
  predicate KeyPresent(apiKey: Option<string>) {
    apiKey.Some? && apiKey.value != ""
  }

  /** The outcome of a generation, which depends only on the key and the reply: the
      missing-key error, the rethrown cause, or the extracted image. */
  function ReplyOutcome(apiKey: Option<string>, reply: Reply): (r: Outcome<string, GenError>)
    ensures r.Ok? ==> KeyPresent(apiKey) && IsDataUrl(r.value)
  {
    if !KeyPresent(apiKey) then Err(MissingApiKey)
    else
      match reply
      case Thrown(cause) => Err(Transport(cause))
      case Delivered(response) => ExtractImage(response)
  }

  /** One generation: the request that was sent, if any, and its outcome. */
  datatype Generation = Generation(request: Option<Request>, result: Outcome<string, GenError>)

  /** generateTimeTravelImage with the remote call's reply given as a parameter. */
  function Generate(apiKey: Option<string>, image: string, modifier: string, reply: Reply): (g: Generation)
    ensures g.request.Some? <==> KeyPresent(apiKey)
    ensures !KeyPresent(apiKey) ==> g.result == Err(MissingApiKey)
    ensures g.request.Some? ==> g.request.value == BuildRequest(image, modifier)
    ensures KeyPresent(apiKey) && reply.Thrown? ==> g.result == Err(Transport(reply.cause))
    ensures KeyPresent(apiKey) && reply.Delivered? ==> g.result == ExtractImage(reply.response)
    ensures KeyPresent(apiKey) && reply.Delivered? && reply.response.candidates != Some([])
            ==> g.result == ExtractImageAsWritten(reply.response)
    ensures g.result.Ok? ==> IsDataUrl(g.result.value)
    ensures g.result == ReplyOutcome(apiKey, reply)
  {
    if !KeyPresent(apiKey) then Generation(None, Err(MissingApiKey))
    else
      var request := BuildRequest(image, modifier);
      match reply
      case Thrown(cause) => Generation(Some(request), Err(Transport(cause)))
      case Delivered(response) => Generation(Some(request), ExtractImage(response))
  }
}
