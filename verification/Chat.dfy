/** The chat-completion client both pipelines build for OpenRouter
    (`openai.OpenAI(base_url="https://openrouter.ai/api/v1", ...)`), as an
    oracle: the service itself is outside the model. */
module Chat {

  /** One entry of the `messages` list. */
  datatype Message = Message(role: string, content: string)

  /** The arguments of `client.chat.completions.create`. */
  datatype Request = Request(
    model: string,
    messages: seq<Message>,
    maxTokens: nat,
    temperature: real,
    referer: string,
    title: string)

  /** What the call comes back with: the first choice's message content, or
      the text of the exception raised on the way (a network or API error,
      or content that is not a string). */
  datatype Reply = Content(text: string) | ApiError(message: string)

  /** The client: the key it was built with (`OPENROUTER_API_KEY`) and the
      completion endpoint. */
  datatype Client = Client(apiKey: string, complete: Request -> Reply)

  const Model: string := "google/gemma-3-27b-it:free"
  const MaxTokens: nat := 250
  const Temperature: real := 0.7
  const Title: string := "ProductPulse"

  /** `client.api_key` is truthy. */
  predicate HasKey(c: Client)
  {
    c.apiKey != ""
  }
}
