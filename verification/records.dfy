/**
 * The JSON records the agent-management API hands to the exporter, reduced
 * to the keys the exporter reads.
 */
module Records {

  /** One element of a message's `content` list; only its `text` is read. */
  datatype ContentPart = ContentPart(text: string)

  /** One chat message of a session, in the order the API stores them. */
  datatype Message = Message(timestamp: string, content: seq<ContentPart>)

  /** The `context` object of an agent. */
  datatype AgentContext = AgentContext(category: string, description: string, sourceText: string)

  /** An agent as returned by the agent lookup. */
  datatype Agent = Agent(name: string, agentType: string, context: AgentContext)

  /**
   * A chat session: `createdAt` is the raw `created_at` string, `agent` the
   * id of the agent that served the session.
   */
  datatype Session = Session(
    name: string,
    createdAt: string,
    createdUserName: string,
    agent: string,
    messages: seq<Message>)
}
