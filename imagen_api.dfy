/**
 * The request/response side of `generateImage` in js/imagen.js: the fixed
 * request body sent for a prompt, and the checks that turn the HTTP outcome
 * into either the base64 image data or the message of the error thrown.
 */
module ImagenApi {
  import opened Wrappers
  import opened JsText
  import opened ApiTypes

  // ----- the request -----

  const ImageEndpoint := "https://generativelanguage.googleapis.com/v1/models/gemini-2.0-flash-exp-image-generation:generateContent?key="

  datatype RequestContent = RequestContent(role: string, parts: seq<TextPart>)

  datatype SamplingConfig = SamplingConfig(temperature: real, topK: int, topP: real, maxOutputTokens: int)

  datatype ImageRequest = ImageRequest(
    contents: seq<RequestContent>,
    generationConfig: SamplingConfig,
    safetySettings: seq<SafetySetting>)

  /** The POST the client issues: the URL, holding the API key, and the JSON body. */
  datatype ImageCall = ImageCall(url: string, body: ImageRequest)

  /** The URL with the stored API key interpolated; a missing key becomes the text "null". */
  function RequestUrl(apiKey: Option<string>): (url: string)
    ensures |url| >= |ImageEndpoint| && url[..|ImageEndpoint|] == ImageEndpoint
    ensures apiKey.Some? ==> url[|ImageEndpoint|..] == apiKey.value
    ensures apiKey.None? ==> url == ImageEndpoint + "null"
  {
    ImageEndpoint + ToJsString(apiKey)
  }

  /**
   * The request body for `prompt`: one user turn whose only part is the
   * prompt text, fixed sampling parameters that ignore the user's settings,
   * and four safety settings (see `ImageRequestSafety`).
   */
  function ImageRequestFor(prompt: string): (r: ImageRequest)
    ensures |r.contents| == 1
    ensures r.contents[0].role == "user" && r.contents[0].parts == [TextPart(prompt)]
    ensures r.generationConfig == SamplingConfig(0.4, 32, 1.0, 2048)
    ensures |r.safetySettings| == 4
  {
    ImageRequest(
      [RequestContent("user", [TextPart(prompt)])],
      SamplingConfig(0.4, 32, 1.0, 2048),
      [
        SafetySetting(HarmCategoryHarassment, BlockMediumAndAbove),
        SafetySetting(HarmCategoryHateSpeech, BlockMediumAndAbove),
        SafetySetting(HarmCategorySexuallyExplicit, BlockMediumAndAbove),
        SafetySetting(HarmCategoryDangerousContent, BlockMediumAndAbove)
      ])
  }

  /** The prompt a request body carries, read back from its single user turn. */
  function PromptOf(r: ImageRequest): Option<string> {
    if |r.contents| == 1 && r.contents[0].role == "user" && |r.contents[0].parts| == 1
    then Some(r.contents[0].parts[0].text)
    else None
  }

  // ----- the response -----

  datatype InlineData = InlineData(mimeType: string, data: string)

  /** A part of the returned content: text, inline binary data, or both fields absent. */
  datatype ResponsePart = ResponsePart(text: Option<string>, inlineData: Option<InlineData>)

  datatype Content = Content(role: Option<string>, parts: Option<seq<ResponsePart>>)

  datatype Candidate = Candidate(content: Option<Content>)

  /** The `error` object of an error body. */
  datatype ErrorDetail = ErrorDetail(message: Option<string>)

  /** A parsed JSON response body; only the fields the client reads. */
  datatype ResponseBody = ResponseBody(candidates: Option<seq<Candidate>>, error: Option<ErrorDetail>)

  /** What `response.json()` gives: the parsed body, or the message of the SyntaxError it throws. */
  datatype JsonBody = Json(value: ResponseBody) | NotJson(syntaxError: string)

  /** What `fetch` settles to: a rejection with an error message, or a response with a status and a body. */
  datatype HttpOutcome = NetworkFailure(message: string) | HttpResponse(status: nat, body: JsonBody)

  /** `response.ok`: the status is in the range 200 to 299. */
  predicate IsOk(status: nat) {
    200 <= status <= 299
  }

  const NoCandidates := "No candidates in response"
  const InvalidStructure := "Invalid response structure"
  const NoImageData := "No image data in response"
  const ApiErrorPrefix := "API Error: "
  const HttpStatusPrefix := "HTTP error! status: "

  /** `errorData.error?.message || ("HTTP error! status: " + status)`, after the "API Error: " prefix. */
  function HttpErrorMessage(status: nat, body: ResponseBody): (m: string)
    ensures |m| > |ApiErrorPrefix| && m[..|ApiErrorPrefix|] == ApiErrorPrefix
  {
    var detail :=
      if body.error.Some? && body.error.value.message.Some? && body.error.value.message.value != ""
      then body.error.value.message.value
      else HttpStatusPrefix + IntToString(status);
    ApiErrorPrefix + detail
  }

  /**
   * `content.parts.find(part => part.inlineData)`, as the index of the part
   * found: the first part that carries inline data, if any does.
   */
  function FindInline(parts: seq<ResponsePart>): (k: Option<nat>)
    ensures k.Some? ==> k.value < |parts| && parts[k.value].inlineData.Some?
    ensures k.Some? ==> forall j :: 0 <= j < k.value ==> parts[j].inlineData.None?
    ensures k.None? ==> forall j :: 0 <= j < |parts| ==> parts[j].inlineData.None?
  {
    if |parts| == 0 then None
    else if parts[0].inlineData.Some? then Some(0)
    else match FindInline(parts[1..])
      case Some(k) => Some(k + 1)
      case None => None
  }

  /** The checks on a successful response body, in the order the client makes them. */
  function ExtractImage(body: ResponseBody): Result<string, string> {
    if body.candidates.None? || |body.candidates.value| == 0 then Failure(NoCandidates)
    else
      var content := body.candidates.value[0].content;
      if content.None? || content.value.parts.None? || |content.value.parts.value| == 0 then Failure(InvalidStructure)
      else
        var parts := content.value.parts.value;
        match FindInline(parts)
        case None => Failure(NoImageData)
        case Some(k) => Success(parts[k].inlineData.value.data)
  }

  /**
   * `generateImage` after the `fetch`: a rejected fetch or an unreadable body
   * rethrows its own error, a status outside 200-299 throws an "API Error",
   * and a successful body goes through the envelope checks.
   */
  function GenerateImage(outcome: HttpOutcome): Result<string, string> {
    match outcome
    case NetworkFailure(message) => Failure(message)
    case HttpResponse(status, NotJson(syntaxError)) => Failure(syntaxError)
    case HttpResponse(status, Json(body)) =>
      if !IsOk(status) then Failure(HttpErrorMessage(status, body)) else ExtractImage(body)
  }

  // ----- properties -----

  /**
   * The four safety settings of an image request are for four distinct
   * categories, none of them civic integrity, and all block
   * medium-severity content and above.
   */
  lemma ImageRequestSafety(prompt: string)
    ensures var ss := ImageRequestFor(prompt).safetySettings;
      && (forall i :: 0 <= i < |ss| ==> ss[i].threshold == BlockMediumAndAbove)
      && (forall i, j :: 0 <= i < j < |ss| ==> ss[i].category != ss[j].category)
      && (forall i :: 0 <= i < |ss| ==> ss[i].category != HarmCategoryCivicIntegrity)
  {
  }

  /** The prompt is recovered from the body built for it, so distinct prompts give distinct bodies. */
  lemma PromptRoundTrip(prompt: string)
    ensures PromptOf(ImageRequestFor(prompt)) == Some(prompt)
  {
  }

  /**
   * A status outside 200-299 is always an error, never an image: the
   * server's non-empty message after "API Error: ", or else the status code.
   */
  lemma HttpErrorIsNeverImage(status: nat, body: ResponseBody)
    requires !IsOk(status)
    ensures var r := GenerateImage(HttpResponse(status, Json(body)));
      && r.Failure?
      && (body.error.Some? && body.error.value.message.Some? && body.error.value.message.value != "" ==>
            r.error == ApiErrorPrefix + body.error.value.message.value)
      && (body.error.None? || body.error.value.message.None? || body.error.value.message.value == "" ==>
            r.error == ApiErrorPrefix + (HttpStatusPrefix + IntToString(status)))
  {
  }

  /** A body that is not valid JSON fails with the parser's error, whatever the status. */
  lemma UnreadableBodyFails(status: nat, syntaxError: string)
    ensures GenerateImage(HttpResponse(status, NotJson(syntaxError))) == Failure(syntaxError)
  {
  }

  /** A rejected `fetch` fails with its own error. */
  lemma NetworkFailureFails(message: string)
    ensures GenerateImage(NetworkFailure(message)) == Failure(message)
  {
  }

  /** Missing or empty candidates fail first, whatever the rest of the body holds. */
  lemma NoCandidatesFailsFirst(status: nat, body: ResponseBody)
    requires IsOk(status)
    requires body.candidates.None? || body.candidates.value == []
    ensures GenerateImage(HttpResponse(status, Json(body))) == Failure(NoCandidates)
  {
  }

  /** Only the first candidate is consulted: the others never change the outcome. */
  lemma OnlyFirstCandidateMatters(first: Candidate, others1: seq<Candidate>, others2: seq<Candidate>, e1: Option<ErrorDetail>, e2: Option<ErrorDetail>)
    ensures ExtractImage(ResponseBody(Some([first] + others1), e1)) == ExtractImage(ResponseBody(Some([first] + others2), e2))
  {
  }

  /**
   * A successful status yields an image exactly when the first candidate has
   * a non-empty part list with some inline-data part, and the image is the
   * data of the first such part; otherwise the error names the first check
   * that failed.
   */
  lemma {:induction false} ExtractImageSpec(body: ResponseBody)
    ensures var r := ExtractImage(body);
      && (body.candidates.None? || |body.candidates.value| == 0 <==> r == Failure(NoCandidates))
      && (r == Failure(InvalidStructure) <==>
            body.candidates.Some? && |body.candidates.value| > 0 &&
            (var c := body.candidates.value[0].content;
             c.None? || c.value.parts.None? || |c.value.parts.value| == 0))
      && (r == Failure(NoImageData) <==>
            body.candidates.Some? && |body.candidates.value| > 0 &&
            (var c := body.candidates.value[0].content;
             c.Some? && c.value.parts.Some? && |c.value.parts.value| > 0 &&
             forall k :: 0 <= k < |c.value.parts.value| ==> c.value.parts.value[k].inlineData.None?))
      && (r.Success? <==>
            body.candidates.Some? && |body.candidates.value| > 0 &&
            (var c := body.candidates.value[0].content;
             c.Some? && c.value.parts.Some? &&
             exists k :: 0 <= k < |c.value.parts.value| && c.value.parts.value[k].inlineData.Some?))
      && (r.Success? ==>
            var parts := body.candidates.value[0].content.value.parts.value;
            exists k :: 0 <= k < |parts| && parts[k].inlineData.Some? && r.value == parts[k].inlineData.value.data &&
              forall j :: 0 <= j < k ==> parts[j].inlineData.None?)
  {
    var r := ExtractImage(body);
    if body.candidates.Some? && |body.candidates.value| > 0 {
      var c := body.candidates.value[0].content;
      if c.Some? && c.value.parts.Some? && |c.value.parts.value| > 0 {
        var parts := c.value.parts.value;
        match FindInline(parts)
        case Some(k) =>
          assert r == Success(parts[k].inlineData.value.data);
        case None =>
          assert r == Failure(NoImageData);
      }
    }
  }

  /** Leading parts without inline data (text-only parts) are skipped: the first inline part's data is the image. */
  lemma {:induction false} TextPartsAreSkipped(textParts: seq<ResponsePart>, image: InlineData, rest: seq<ResponsePart>)
    requires forall j :: 0 <= j < |textParts| ==> textParts[j].inlineData.None?
    ensures FindInline(textParts + [ResponsePart(None, Some(image))] + rest) == Some(|textParts|)
  {
    var parts := textParts + [ResponsePart(None, Some(image))] + rest;
    if |textParts| > 0 {
      TextPartsAreSkipped(textParts[1..], image, rest);
      assert parts[1..] == textParts[1..] + [ResponsePart(None, Some(image))] + rest;
    }
  }

  /** A status 200 body whose only part carries inline data "AAAA" gives the image data "AAAA". */
  lemma SingleInlinePartScenario()
    ensures GenerateImage(HttpResponse(200, Json(ResponseBody(
      Some([Candidate(Some(Content(None, Some([ResponsePart(None, Some(InlineData("image/png", "AAAA")))]))))]), None))))
      == Success("AAAA")
  {
  }

  /** A status 429 body whose error message is "quota exceeded" fails with that message behind the "API Error: " prefix. */
  lemma QuotaExceededScenario()
    ensures GenerateImage(HttpResponse(429, Json(ResponseBody(None, Some(ErrorDetail(Some("quota exceeded")))))))
      == Failure("API Error: quota exceeded")
  {
    assert ApiErrorPrefix + "quota exceeded" == "API Error: quota exceeded";
  }
}
