/** The plain persistent records: users, stored exchanges and knowledge-base entries. */
module Entities {
  import opened Wrappers

  /** An account; only the identity and the name matter to the core. */
  datatype User = User(id: int, username: string)

  /**
   * One stored question/answer exchange (a row of chat_history). The session
   * reference and the timestamp are nullable columns.
   */
  datatype ChatHistory = ChatHistory(
    id: int,
    question: string,
    answer: string,
    user: User,
    sessionId: Option<int>,
    timestamp: Option<int>)

  /** A knowledge-base entry (a row of knowledge_base). */
  datatype Knowledge = Knowledge(question: string, answer: string, imageUrl: Option<string>)
}
