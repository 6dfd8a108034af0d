/** The requests `ComicRepository` sends and what it makes of the replies
    (repository/ComicRepository.kt). The network is not modelled: a call's
    outcome is given, as the response Gson decoded or as the exception
    message the transport threw. */
module Repository {
  import opened Wrappers
  import opened JavaNumbers
  import opened KotlinText
  import opened Json
  import opened Model
  import opened Api
  import opened PanelPlan
  import opened Prompts
  import opened StoryParser

  const NoResponse: string := "No response from AI"
  const NoImage: string := "No image generated"

  /** The `Authorization` header of every call: the scheme "Bearer", one
      space, and the key the repository was built with, from which the key
      reads back whole. */
  function Authorization(apiKey: string): (r: string)
    ensures |r| == |apiKey| + 7 && r[..7] == "Bearer " && r[7..] == apiKey
  {
    "Bearer " + apiKey
  }

  /** The chat request of `generateStoryStructure`: "gpt-4" at temperature
      0.8 with the default 2000-token limit, a system and a user message.
      The panel count is the overflow-free `PanelCount`; it equals the
      count the code computes for every reading time up to 429496729
      minutes (`OutlineRequestStatesPlan`). */
  function OutlineRequest(request: ComicRequest): ChatCompletionRequest
  {
    var n := PanelCount(request.readingTimeMinutes, request.childAge);
    ChatCompletionRequest(
      "gpt-4",
      [Message("system", SystemPrompt(n)), Message("user", UserPrompt(request, n))],
      0.8,
      2000)
  }

  /** The image request of `generateImageForPanel`, with the record's
      defaults "dall-e-3" and "standard". */
  function ImageRequest(panel: ComicPanel): ImageGenerationRequest
  {
    ImageGenerationRequest("dall-e-3", BuildImagePrompt(panel), 1, "1024x1024", "standard")
  }

  /** The HTTP call of `generateStoryStructure`: a chat completion carrying
      the outline request under the key's header. */
  function OutlineCall(apiKey: string, request: ComicRequest): (r: ApiCall)
    ensures r.ChatCall? && |r.authorization| == |apiKey| + 7 && r.authorization[..7] == "Bearer " && r.authorization[7..] == apiKey
    ensures r.chat == OutlineRequest(request)
  {
    ChatCall(Authorization(apiKey), OutlineRequest(request))
  }

  /** The HTTP call of `generateImageForPanel`: an image generation carrying
      the panel's image request under the key's header. */
  function PanelImageCall(apiKey: string, panel: ComicPanel): (r: ApiCall)
    ensures r.ImageCall? && |r.authorization| == |apiKey| + 7 && r.authorization[..7] == "Bearer " && r.authorization[7..] == apiKey
    ensures r.image == ImageRequest(panel)
  {
    ImageCall(Authorization(apiKey), ImageRequest(panel))
  }

  /** A call into `ComicRepository`: `generateComic(request)` or
      `generateImageForPanel(panel)`. */
  datatype RepositoryCall =
    | OutlineRequested(request: ComicRequest)
    | ImageRequested(panel: ComicPanel)

  /** The one HTTP call a repository call sends, with the key the
      repository was built with: a chat call for the outline, an image call
      for a panel. */
  function HttpCall(apiKey: string, call: RepositoryCall): (r: ApiCall)
    ensures |r.authorization| == |apiKey| + 7 && r.authorization[..7] == "Bearer " && r.authorization[7..] == apiKey
    ensures r.ChatCall? <==> call.OutlineRequested?
    ensures call.OutlineRequested? ==> r.chat == OutlineRequest(call.request)
    ensures call.ImageRequested? ==> r.image == ImageRequest(call.panel)
  {
    match call
    case OutlineRequested(request) => OutlineCall(apiKey, request)
    case ImageRequested(panel) => PanelImageCall(apiKey, panel)
  }

  /** `response.choices.firstOrNull()?.message?.content`, failing with
      "No response from AI" when any step is absent. */
  function ReplyContent(response: ChatCompletionResponse): (r: Result<string>)
    ensures r.Err? <==> |response.choices| == 0 || response.choices[0].message.None?
                        || response.choices[0].message.value.content.None?
    ensures r.Err? ==> r.message == NoResponse
    ensures r.Ok? ==> r.value == response.choices[0].message.value.content.value
  {
    if |response.choices| == 0 then Err(NoResponse)
    else match response.choices[0].message
      case None => Err(NoResponse)
      case Some(message) =>
        match message.content
        case None => Err(NoResponse)
        case Some(content) => Ok(content)
  }

  /** `generateComic(request)` once the chat call has returned `reply`. */
  function StoryFromReply(reply: Result<ChatCompletionResponse>, parseJson: string -> Option<JsonValue>): (r: Result<ComicStory>)
    ensures reply.Err? ==> r == Err(reply.message)
    ensures reply.Ok? && ReplyContent(reply.value).Err? ==> r == Err(NoResponse)
    ensures reply.Ok? && ReplyContent(reply.value).Ok? ==>
              r == ParseStoryResponse(ReplyContent(reply.value).value, parseJson)
  {
    match reply
    case Err(message) => Err(message)
    case Ok(response) =>
      match ReplyContent(response)
      case Err(message) => Err(message)
      case Ok(content) => ParseStoryResponse(content, parseJson)
  }

  /** `generateImageForPanel(panel)` once the image call has returned
      `reply`: the first image's url, or "No image generated" for an empty
      list. */
  function ImageFromReply(reply: Result<ImageGenerationResponse>): (r: Result<string>)
    ensures r.Ok? <==> reply.Ok? && |reply.value.data| > 0
    ensures r.Ok? ==> r.value == reply.value.data[0].url
    ensures reply.Ok? && |reply.value.data| == 0 ==> r == Err(NoImage)
    ensures reply.Err? ==> r == Err(reply.message)
  {
    match reply
    case Err(message) => Err(message)
    case Ok(response) =>
      if |response.data| > 0 then Ok(response.data[0].url) else Err(NoImage)
  }

  /** An outline either arrives in the parser's shape or fails for one of
      three reasons: the transport's error, no reply content, or a parse
      failure. */
  lemma StoryFromReplyOutcomes(reply: Result<ChatCompletionResponse>, parseJson: string -> Option<JsonValue>)
    ensures var r := StoryFromReply(reply, parseJson);
            r.Ok? ==> r.value.totalPanels == |r.value.panels|
                      && forall k :: 0 <= k < |r.value.panels| ==> r.value.panels[k].imageUrl.None?
    ensures var r := StoryFromReply(reply, parseJson);
            r.Err? ==> (reply.Err? && r.message == reply.message) || r.message == NoResponse || ParseFailure <= r.message
  {
    var r := StoryFromReply(reply, parseJson);
    if r.Ok? {
      ParsedStoryFollowsArray(ReplyContent(reply.value).value, parseJson);
    }
  }

  /** The outline request is "gpt-4" at temperature 0.8 with 2000 tokens; its
      system message is the schema text for the planned panel count (the
      count the code computes, for every reading time below the overflow)
      and,
      for a one-line idea, its user message is the request's lines (see
      `Prompts.SystemPromptStatesCount`, `Prompts.UserPromptStatesTopic`,
      `Prompts.UserPromptStatesCount` and `Prompts.UserPromptStatesAge` for
      what those lines say). */
  lemma OutlineRequestStatesPlan(request: ComicRequest)
    ensures var chat := OutlineRequest(request);
            && chat.model == "gpt-4" && chat.temperature == 0.8 && chat.maxTokens == 2000
            && |chat.messages| == 2 && chat.messages[0].role == "system" && chat.messages[1].role == "user"
    ensures Lines(OutlineRequest(request).messages[0].content)
         == SystemPromptLines(PanelCount(request.readingTimeMinutes, request.childAge))
    ensures NoBreak(request.prompt) ==>
              Lines(OutlineRequest(request).messages[1].content)
              == UserPromptLines(request, PanelCount(request.readingTimeMinutes, request.childAge))
    ensures IsInt32(request.readingTimeMinutes) && IsInt32(request.childAge) && request.readingTimeMinutes <= 429496729 ==>
              Lines(OutlineRequest(request).messages[0].content)
              == SystemPromptLines(PanelCountAsWritten(request.readingTimeMinutes, request.childAge))
  {
    var n := PanelCount(request.readingTimeMinutes, request.childAge);
    if IsInt32(request.readingTimeMinutes) && IsInt32(request.childAge) && request.readingTimeMinutes <= 429496729 {
      AsWrittenAgreesBelowOverflow(request.readingTimeMinutes, request.childAge);
    }
    SystemPromptStatesCount(n);
    if NoBreak(request.prompt) {
      UserPromptText(request, n);
    }
  }

  /** For a one-line description the image request's prompt begins with the
      style directive followed by the description. */
  lemma ImageRequestStatesPanel(panel: ComicPanel)
    requires NoBreak(panel.description)
    ensures var image := ImageRequest(panel);
            && image.model == "dall-e-3" && image.n == 1 && image.size == "1024x1024"
            && ImageDirective + panel.description <= image.prompt
  {
    ImagePromptText(panel);
  }
}
