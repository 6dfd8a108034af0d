/** The request and response bodies of the two OpenAI endpoints
    (api/OpenAIService.kt), and a record of one call made to them. */
module Api {
  import opened Wrappers

  datatype Message = Message(role: string, content: string)

  datatype ChatCompletionRequest = ChatCompletionRequest(
    model: string,
    messages: seq<Message>,
    temperature: real,
    maxTokens: int)

  /** A reply message as Gson fills it: the Kotlin types say non-null, but a
      field absent from the JSON stays null, which is why the repository
      reads it with `?.`. */
  datatype ReplyMessage = ReplyMessage(role: Option<string>, content: Option<string>)

  datatype Choice = Choice(message: Option<ReplyMessage>, finishReason: Option<string>)

  datatype ChatCompletionResponse = ChatCompletionResponse(id: string, choices: seq<Choice>)

  datatype ImageGenerationRequest = ImageGenerationRequest(
    model: string,
    prompt: string,
    n: int,
    size: string,
    quality: string)

  datatype ImageData = ImageData(url: string, revisedPrompt: Option<string>)

  datatype ImageGenerationResponse = ImageGenerationResponse(created: int, data: seq<ImageData>)

  /** One HTTP call with its `Authorization` header. */
  datatype ApiCall =
    | ChatCall(authorization: string, chat: ChatCompletionRequest)
    | ImageCall(authorization: string, image: ImageGenerationRequest)
}
