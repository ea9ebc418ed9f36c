/** Entities shared by the chat components (types.ts). */
module Types {
  import opened Wrappers


  /** Who wrote a message: the advocate (`USER`) or the model (`MODEL`). */
  datatype Role = User | Model

  /** The `web` part of a grounding chunk: the page a response cites. */
  datatype WebRef = WebRef(uri: string, title: string)

  /** A citation attached to a model message; `web` may be absent. */
  datatype GroundingChunk = GroundingChunk(web: Option<WebRef>)

  /** One turn of the conversation. */
  datatype Message = Message(
    id: string,
    role: Role,
    text: string,
    timestamp: int,
    isStreaming: Option<bool>,
    groundingChunks: Option<seq<GroundingChunk>>)
}
