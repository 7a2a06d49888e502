/** The chat gateway as the pipeline sees it: a batch of prompts in, one completion per prompt out. */
module Llm {
  import opened Wrappers

  datatype Role = System | User

  datatype Message = Message(role: Role, content: string)

  /** One chat request: its role-tagged messages. */
  type Prompt = seq<Message>

  /** `chat_many`: either the completions or the transport error that failed the whole call. */
  type Chat = seq<Prompt> -> Result<seq<string>>

  /** The gateway's interface contract: a successful call returns one completion per prompt. */
  ghost predicate KeepsCount(chat: Chat) {
    forall ps :: chat(ps).Ok? ==> |chat(ps).value| == |ps|
  }
}
