/**
 * The vocabulary shared by both orchestrators: chat-history entries and the
 * LangChain messages built from them, the three language-model agents, the
 * replies they give (treated as opaque inputs) and the exceptions a turn can
 * raise.
 */
module Chat {

  /** One element of the request's `chat_history`: a `{"role": ..., "content": ...}` dict. */
  datatype Entry = Entry(role: string, content: string)

  /** LangChain's `HumanMessage` and `AIMessage`. */
  datatype Message = Human(content: string) | Ai(content: string)

  datatype Agent = Triage | Tech | Billing

  /** The prefixes by which the triage agent hands a query to a specialist. */
  const RouteTech := "ROUTE_TECH"
  const RouteBilling := "ROUTE_BILLING"

  /** No text starts with both routing words: they part at their seventh character. */
  lemma RoutingWordsExclusive(s: string)
    ensures RouteTech <= s ==> !(RouteBilling <= s)
  {
    assert RouteTech[6] == 'T' && RouteBilling[6] == 'B';
    if RouteTech <= s {
      assert s[6] == 'T';
    }
  }

  /** What `executor.invoke(...)` gives back: an `"output"` text, or an exception. */
  datatype Reply = Output(text: string) | Failed

  /** The replies the three agents would give on this turn, if invoked. */
  datatype AgentReplies = AgentReplies(triage: Reply, tech: Reply, billing: Reply)

  /** One `executor.invoke({"input": input, "chat_history": history})` call. */
  datatype Invocation = Invocation(agent: Agent, input: string, history: seq<Message>)

  /** The Python exceptions the modelled code can raise. */
  datatype Exception =
    | AgentError(agent: Agent)      // the agent executor raised
    | KeyError(key: string)         // a billing record lacks a field
    | SmtpConfigError               // `int(os.getenv("SMTP_PORT"))` failed

  function ReplyOf(replies: AgentReplies, agent: Agent): Reply
  {
    match agent
    case Triage => replies.triage
    case Tech => replies.tech
    case Billing => replies.billing
  }
}
