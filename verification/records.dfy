/** The conversation record stored by the chat backend: a dictionary with the
    keys id, title, messages, created_at and updated_at, each message holding
    role, content and timestamp. Timestamps are ISO-8601 strings produced by a
    clock the model does not see, so they are plain strings here. */
module Records {

  datatype Message = Message(role: string, content: string, timestamp: string)

  datatype Conversation = Conversation(
    id: string,
    title: string,
    messages: seq<Message>,
    createdAt: string,
    updatedAt: string)

  const UserRole := "user"
  const AssistantRole := "assistant"
}
