/**
 * The first, command-line generation of the support system: routing a query
 * by the triage agent's answer, and the read-answer loop that keeps the
 * conversation history.
 */
module Cli {
  import opened Wrappers
  import opened Text
  import opened Chat

  /** One query's effect: the response or the exception raised, and the agent calls made. */
  datatype CliTurn = CliTurn(response: Result<string, Exception>, calls: seq<Invocation>)

  /**
   * `handle_customer_query`: the triage answer, stripped, is returned unless it
   * starts with a routing word; then the named specialist's answer is returned
   * as it is.
   */
  function HandleCustomerQuery(query: string, chatHistory: seq<Message>, replies: AgentReplies): CliTurn
  {
    var triageCall := Invocation(Triage, query, chatHistory);
    match replies.triage
    case Failed => CliTurn(Err(AgentError(Triage)), [triageCall])
    case Output(t) =>
      var triageOutput := Strip(t);
      if RouteTech <= triageOutput then
        var calls := [triageCall, Invocation(Tech, query, chatHistory)];
        match replies.tech
        case Failed => CliTurn(Err(AgentError(Tech)), calls)
        case Output(a) => CliTurn(Ok(a), calls)
      else if RouteBilling <= triageOutput then
        var calls := [triageCall, Invocation(Billing, query, chatHistory)];
        match replies.billing
        case Failed => CliTurn(Err(AgentError(Billing)), calls)
        case Output(a) => CliTurn(Ok(a), calls)
      else
        CliTurn(Ok(triageOutput), [triageCall])
  }

  /** A triage answer starting with `ROUTE_TECH` hands the query to the technical agent alone, whose answer is returned unstripped. */
  lemma RoutesToTech(query: string, chatHistory: seq<Message>, replies: AgentReplies, text: string, answer: string)
    requires replies.triage == Output(text) && RouteTech <= Strip(text)
    requires replies.tech == Output(answer)
    ensures HandleCustomerQuery(query, chatHistory, replies) ==
      CliTurn(Ok(answer), [Invocation(Triage, query, chatHistory), Invocation(Tech, query, chatHistory)])
  {
  }

  /** A triage answer starting with `ROUTE_BILLING` hands the query to the billing agent alone, whose answer is returned unstripped. */
  lemma RoutesToBilling(query: string, chatHistory: seq<Message>, replies: AgentReplies, text: string, answer: string)
    requires replies.triage == Output(text) && RouteBilling <= Strip(text)
    requires replies.billing == Output(answer)
    ensures HandleCustomerQuery(query, chatHistory, replies) ==
      CliTurn(Ok(answer), [Invocation(Triage, query, chatHistory), Invocation(Billing, query, chatHistory)])
  {
    RoutingWordsExclusive(Strip(text));
  }

  /** Any other triage answer is returned stripped, and no specialist is called. */
  lemma TriageAnswersDirectly(query: string, chatHistory: seq<Message>, replies: AgentReplies, text: string)
    requires replies.triage == Output(text)
    requires !(RouteTech <= Strip(text)) && !(RouteBilling <= Strip(text))
    ensures HandleCustomerQuery(query, chatHistory, replies) == CliTurn(Ok(Strip(text)), [Invocation(Triage, query, chatHistory)])
  {
  }

  /** Triage is called exactly once per query, first, and at most one specialist after it. */
  lemma CliAgentCalls(query: string, chatHistory: seq<Message>, replies: AgentReplies)
    ensures var t := HandleCustomerQuery(query, chatHistory, replies);
      && 1 <= |t.calls| <= 2
      && t.calls[0] == Invocation(Triage, query, chatHistory)
      && (|t.calls| == 2 ==> t.calls[1].agent != Triage && replies.triage.Output?)
  {
  }

  /** The history after the given exchanges: each user message followed by the answer it got. */
  function HistoryOf(queries: seq<string>, responses: seq<string>): (h: seq<Message>)
    requires |queries| == |responses|
    ensures |h| == 2 * |queries|
    decreases |queries|
  {
    if queries == [] then []
    else
      var n := |queries| - 1;
      HistoryOf(queries[..n], responses[..n]) + [Human(queries[n]), Ai(responses[n])]
  }

  /** Each exchange occupies two consecutive places: the user's message, then the answer. */
  lemma {:induction false} HistoryOfAt(queries: seq<string>, responses: seq<string>, k: nat)
    requires |queries| == |responses| && k < |queries|
    ensures HistoryOf(queries, responses)[2 * k] == Human(queries[k])
    ensures HistoryOf(queries, responses)[2 * k + 1] == Ai(responses[k])
    decreases |queries|
  {
    var n := |queries| - 1;
    if k < n {
      HistoryOfAt(queries[..n], responses[..n], k);
    }
  }

  /** Later turns only append: the history after `k` exchanges is a prefix of every later one. */
  lemma {:induction false} HistoryOfPrefix(queries: seq<string>, responses: seq<string>, k: nat)
    requires |queries| == |responses| && k <= |queries|
    ensures HistoryOf(queries[..k], responses[..k]) <= HistoryOf(queries, responses)
    decreases |queries|
  {
    if k < |queries| {
      var n := |queries| - 1;
      assert queries[..n][..k] == queries[..k] && responses[..n][..k] == responses[..k];
      HistoryOfPrefix(queries[..n], responses[..n], k);
    } else {
      assert queries[..k] == queries && responses[..k] == responses;
    }
  }

  /**
   * `responses` are the answers to the first `|responses|` lines of `queries`:
   * none of those lines is `exit`, and each answer is what the query got with
   * the history of the exchanges before it.
   */
  predicate Transcript(queries: seq<string>, responses: seq<string>, env: nat -> AgentReplies)
    decreases |responses|
  {
    && |responses| <= |queries|
    && (responses != [] ==>
          var n := |responses| - 1;
          && Transcript(queries, responses[..n], env)
          && Lower(queries[n]) != "exit"
          && HandleCustomerQuery(queries[n], HistoryOf(queries[..n], responses[..n]), env(n)).response == Ok(responses[n]))
  }

  /** Every exchange of a transcript is a non-`exit` line answered with the history before it. */
  lemma {:induction false} TranscriptAt(queries: seq<string>, responses: seq<string>, env: nat -> AgentReplies, k: nat)
    requires Transcript(queries, responses, env) && k < |responses|
    ensures Lower(queries[k]) != "exit"
    ensures HandleCustomerQuery(queries[k], HistoryOf(queries[..k], responses[..k]), env(k)).response == Ok(responses[k])
    decreases |responses|
  {
    var n := |responses| - 1;
    if k < n {
      TranscriptAt(queries, responses[..n], env, k);
      assert responses[..n][..k] == responses[..k];
    }
  }

  /**
   * Each answer of a transcript was produced with exactly the first `2 * k`
   * messages of the final history: the exchanges before it, and nothing later.
   */
  lemma TranscriptSeesEarlierHistory(queries: seq<string>, responses: seq<string>, env: nat -> AgentReplies, k: nat)
    requires Transcript(queries, responses, env) && k < |responses|
    ensures var h := HistoryOf(queries[..|responses|], responses);
      && h[2 * k] == Human(queries[k]) && h[2 * k + 1] == Ai(responses[k])
      && HandleCustomerQuery(queries[k], h[..2 * k], env(k)).response == Ok(responses[k])
  {
    var q := queries[..|responses|];
    TranscriptAt(queries, responses, env, k);
    HistoryOfPrefix(q, responses, k);
    HistoryOfAt(q, responses, k);
    assert q[..k] == queries[..k];
  }

  /** How the loop of `main` stops: the user typed `exit`, input ran out (`input()` raises `EOFError`), or a turn raised. */
  datatype Ending = Exited | EndOfInput | Crashed(error: Exception)

  /**
   * The loop of `main`. `inputs` are the lines the user types and `env(k)` the
   * agents' replies during turn `k`. Returns the final chat history, the
   * answers printed, and how the loop stopped.
   */
  method RunConversation(inputs: seq<string>, env: nat -> AgentReplies)
    returns (chatHistory: seq<Message>, responses: seq<string>, ending: Ending)
    ensures Transcript(inputs, responses, env)
    ensures chatHistory == HistoryOf(inputs[..|responses|], responses)
    ensures ending == EndOfInput <==> |responses| == |inputs|
    ensures ending == Exited ==> Lower(inputs[|responses|]) == "exit"
    ensures ending.Crashed? ==>
      && Lower(inputs[|responses|]) != "exit"
      && HandleCustomerQuery(inputs[|responses|], chatHistory, env(|responses|)).response == Err(ending.error)
  {
    chatHistory := [];
    responses := [];
    while |responses| < |inputs|
      invariant Transcript(inputs, responses, env)
      invariant chatHistory == HistoryOf(inputs[..|responses|], responses)
      decreases |inputs| - |responses|
    {
      var turn := |responses|;
      var userInput := inputs[turn];
      if Lower(userInput) == "exit" {
        return chatHistory, responses, Exited;
      }
      var outcome := HandleCustomerQuery(userInput, chatHistory, env(turn));
      if outcome.response.Err? {
        return chatHistory, responses, Crashed(outcome.response.error);
      }
      var response := outcome.response.value;
      chatHistory := chatHistory + [Human(userInput)];
      chatHistory := chatHistory + [Ai(response)];
      ghost var before := responses;
      responses := responses + [response];
      assert responses[..turn] == before;
      assert inputs[..|responses|][..turn] == inputs[..turn];
    }
    ending := EndOfInput;
  }
}
