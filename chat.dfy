/** Values shared by both front-ends: conversation records and the outcome of one
    chat-completion call. */
module Chat {

  datatype Option<+T> = None | Some(value: T)

  /** One conversation record as the front-ends build it: a role ("user",
      "assistant", "system" or whatever a stored file holds), the text, and the
      timestamp the persistent store adds (an opaque ISO-8601 string). */
  datatype Message = Message(role: string, content: string, timestamp: Option<string>)

  /** What the chat-completion endpoint does with one request: it answers with the
      content of its first choice, or the call raises and the front-end sees the
      exception's text. */
  datatype Outcome = Success(content: string) | Failure(error: string)
}
