/** Value types shared by the chat pages and the transcript store. */
module ChatTypes {
  /** The `"user" | "assistant"` role of a transcript message. */
  datatype Role = User | Assistant

  /** The `"like" | "dislike"` feedback tag; "no feedback" is `None`. */
  datatype Feedback = Like | Dislike
}
