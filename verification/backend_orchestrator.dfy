/**
 * The web backend's turn handler, `handle_customer_query_backend`, and the
 * `/chat` endpoint around it. Between turns the handler keeps three
 * module-level variables that remember a pending request for the user's
 * e-mail address; each turn checks, in this order, for an explicit request
 * for a human, for a pending e-mail request, for the triage agent's routing
 * word, and for a specialist's request to escalate.
 */
module BackendOrchestrator {
  import opened Wrappers
  import opened Text
  import opened Chat
  import opened Tickets
  import opened BackendHelpers
  import opened BackendKnowledgeBase

  const EscalationPhrases: seq<string> := ["connect me to human", "connect with human", "talk to human", "speak with human"]
  const NeedEmailMarker := "NEED_EMAIL_FOR_ESCALATION:"
  const DirectEscalationPrefix := "Customer requested direct escalation. Context: "
  const FallbackSummary := "Issue requiring human attention."
  const EmailPrompt := "I'll help you connect with a human agent. Could you please provide your email address so we can create a support ticket?"
  const StillWaitingPrompt := "I'm still waiting for your email address to escalate this. Could you please provide it?"
  const TechEmailPrompt := "I need your email address to escalate this technical issue. Could you please provide it?"
  const BillingEmailPrompt := "I need your email address to escalate this billing issue. Could you please provide it?"
  const InternalError := "Internal server error"

  /** `_waiting_for_email`, `_escalation_summary_context` and `_original_query_context`. */
  datatype State = State(waitingForEmail: bool, escalationSummary: Option<string>, originalQuery: Option<string>)

  /** The values the three variables start with and return to after an escalation. */
  const Idle := State(false, None, None)

  /** A summary is stored exactly while an e-mail address is awaited, and a query is remembered only then. */
  predicate ValidState(s: State)
  {
    && (s.waitingForEmail <==> s.escalationSummary.Some?)
    && (!s.waitingForEmail ==> s.originalQuery.None?)
  }

  /** What the turn cannot compute itself: the agents' replies, the fresh UUID, and how `send_email` fares. */
  datatype World = World(replies: AgentReplies, uuid: UuidText, send: SendOutcome)

  /** One turn's effect: the response or the exception raised, the new state, the agent calls made and the e-mail that `send_email` tried to deliver once it had read its port. */
  datatype Turn = Turn(response: Result<string, Exception>, next: State, calls: seq<Invocation>, notice: Option<Notification>)

  /** The lower-cased query contains one of the four phrases asking for a human. */
  predicate EscalationRequested(query: string)
  {
    exists i :: 0 <= i < |EscalationPhrases| && Contains(Lower(query), EscalationPhrases[i])
  }

  /** The summary a pending escalation is filed with: the stored one, unless it is missing or empty. */
  function PendingSummary(s: State): (summary: string)
    ensures s.escalationSummary.Some? && s.escalationSummary.value != "" ==> summary == s.escalationSummary.value
    ensures s.escalationSummary.None? || s.escalationSummary.value == "" ==> summary == FallbackSummary
  {
    if s.escalationSummary.Some? && s.escalationSummary.value != "" then s.escalationSummary.value else FallbackSummary
  }

  /** `direct_escalate_to_human(summary, email)`; on success the state becomes `after`, on an exception it stays `s`. */
  function EscalationTurn(s: State, after: State, summary: string, email: string, w: World): Turn
  {
    match Escalate(summary, Some(email), w.uuid, w.send)
    case Err(e) => Turn(Err(e), s, [], None)
    case Ok(esc) => Turn(Ok(esc.confirmation), after, [], Some(esc.notice))
  }

  /** The prompt a specialist's escalation request is answered with. */
  function EmailPromptFor(agent: Agent): string
  {
    if agent == Tech then TechEmailPrompt else BillingEmailPrompt
  }

  /** `handle_customer_query_backend` as a function of the state before the turn. */
  function Step(s: State, query: string, history: seq<Entry>, w: World): Turn
  {
    var formatted := Formatted(history);
    var email := ExtractEmail(query);
    if EscalationRequested(query) then
      if email.Some? then
        EscalationTurn(s, s, DirectEscalationPrefix + RecentContext(history), email.value, w)
      else
        Turn(Ok(EmailPrompt), State(true, Some(RecentContext(history)), s.originalQuery), [], None)
    else if s.waitingForEmail then
      if email.Some? then EscalationTurn(s, Idle, PendingSummary(s), email.value, w)
      else Turn(Ok(StillWaitingPrompt), s, [], None)
    else
      var triageCall := Invocation(Triage, query, formatted);
      match w.replies.triage
      case Failed => Turn(Err(AgentError(Triage)), s, [triageCall], None)
      case Output(t) =>
        var triageOutput := Strip(t);
        if !(RouteTech <= triageOutput) && !(RouteBilling <= triageOutput) then
          Turn(Ok(triageOutput), s, [triageCall], None)
        else
          var agent := if RouteTech <= triageOutput then Tech else Billing;
          var calls := [triageCall, Invocation(agent, query, formatted)];
          match ReplyOf(w.replies, agent)
          case Failed => Turn(Err(AgentError(agent)), s, calls, None)
          case Output(a) =>
            var agentOutput := Strip(a);
            if NeedEmailMarker <= agentOutput then
              Turn(Ok(EmailPromptFor(agent)), State(true, Some(Strip(RemoveAll(agentOutput, NeedEmailMarker))), Some(query)), calls, None)
            else
              Turn(Ok(agentOutput), s, calls, None)
  }

  /** What `chat_endpoint` sends back: the response, or HTTP 500 for any exception. */
  datatype HttpReply = Answered(response: string) | HttpError(status: int, detail: string)

  function Endpoint(r: Result<string, Exception>): (h: HttpReply)
    ensures r.Err? <==> h.HttpError?
    ensures h.HttpError? ==> h.status == 500 && h.detail == InternalError
    ensures r.Ok? ==> h.Answered? && h.response == r.value
  {
    match r
    case Ok(text) => Answered(text)
    case Err(_) => HttpError(500, InternalError)
  }

  /** The module-level variables of `backend/main.py`, updated in place by each turn. */
  class Orchestrator {
    var waitingForEmail: bool
    var escalationSummary: Option<string>
    var originalQuery: Option<string>

    function Current(): State
      reads this
    {
      State(waitingForEmail, escalationSummary, originalQuery)
    }

    predicate Valid()
      reads this
    {
      ValidState(Current())
    }

    constructor ()
      ensures Current() == Idle && Valid()
    {
      waitingForEmail := false;
      escalationSummary := None;
      originalQuery := None;
    }

    /** `handle_customer_query_backend`: one turn, changing the three variables as `Step` says. */
    method HandleQuery(query: string, rawChatHistory: seq<Entry>, w: World)
      returns (response: Result<string, Exception>, calls: seq<Invocation>, notice: Option<Notification>)
      modifies this
      ensures Step(old(Current()), query, rawChatHistory, w) == Turn(response, Current(), calls, notice)
      ensures old(Valid()) ==> Valid()
    {
      if Valid() {
        StepPreservesValid(Current(), query, rawChatHistory, w);
      }
      var formattedHistory := FormatChatHistory(rawChatHistory);
      var extractedEmail := ExtractEmail(query);
      calls := [];
      notice := None;

      if EscalationRequested(query) {
        if extractedEmail.Some? {
          var context := ContextFromHistory(rawChatHistory);
          var outcome := Escalate(DirectEscalationPrefix + context, extractedEmail, w.uuid, w.send);
          if outcome.Err? {
            return Err(outcome.error), calls, notice;
          }
          return Ok(outcome.value.confirmation), calls, Some(outcome.value.notice);
        } else {
          waitingForEmail := true;
          var context := ContextFromHistory(rawChatHistory);
          escalationSummary := Some(context);
          return Ok(EmailPrompt), calls, notice;
        }
      }

      if waitingForEmail {
        if extractedEmail.Some? {
          var finalSummary := if escalationSummary.Some? && escalationSummary.value != "" then escalationSummary.value else FallbackSummary;
          var outcome := Escalate(finalSummary, extractedEmail, w.uuid, w.send);
          if outcome.Err? {
            return Err(outcome.error), calls, notice;
          }
          waitingForEmail := false;
          escalationSummary := None;
          originalQuery := None;
          return Ok(outcome.value.confirmation), calls, Some(outcome.value.notice);
        } else {
          return Ok(StillWaitingPrompt), calls, notice;
        }
      }

      calls := [Invocation(Triage, query, formattedHistory)];
      if w.replies.triage.Failed? {
        return Err(AgentError(Triage)), calls, notice;
      }
      var triageOutput := Strip(w.replies.triage.text);
      if !(RouteTech <= triageOutput) && !(RouteBilling <= triageOutput) {
        return Ok(triageOutput), calls, notice;
      }

      var agentResponse := "";
      if RouteTech <= triageOutput {
        calls := calls + [Invocation(Tech, query, formattedHistory)];
        if w.replies.tech.Failed? {
          return Err(AgentError(Tech)), calls, notice;
        }
        var agentOutput := Strip(w.replies.tech.text);
        if NeedEmailMarker <= agentOutput {
          waitingForEmail := true;
          escalationSummary := Some(Strip(RemoveAll(agentOutput, NeedEmailMarker)));
          originalQuery := Some(query);
          agentResponse := TechEmailPrompt;
        } else {
          agentResponse := agentOutput;
        }
      } else if RouteBilling <= triageOutput {
        calls := calls + [Invocation(Billing, query, formattedHistory)];
        if w.replies.billing.Failed? {
          return Err(AgentError(Billing)), calls, notice;
        }
        var agentOutput := Strip(w.replies.billing.text);
        if NeedEmailMarker <= agentOutput {
          waitingForEmail := true;
          escalationSummary := Some(Strip(RemoveAll(agentOutput, NeedEmailMarker)));
          originalQuery := Some(query);
          agentResponse := BillingEmailPrompt;
        } else {
          agentResponse := agentOutput;
        }
      }
      return Ok(agentResponse), calls, notice;
    }

    /** `chat_endpoint`: one turn, with any exception mapped to HTTP 500. */
    method ChatEndpoint(message: string, chatHistory: seq<Entry>, w: World)
      returns (reply: HttpReply, calls: seq<Invocation>, notice: Option<Notification>)
      modifies this
      ensures var t := Step(old(Current()), message, chatHistory, w);
        reply == Endpoint(t.response) && Current() == t.next && calls == t.calls && notice == t.notice
    {
      var response;
      response, calls, notice := HandleQuery(message, chatHistory, w);
      reply := Endpoint(response);
    }
  }

  // ---------------------------------------------------------------- properties of a turn

  /** The address extracted from a message is never empty, so it is where the e-mail goes. */
  lemma ExtractedAddressIsDestination(query: string)
    requires ExtractEmail(query).Some?
    ensures Destination(ExtractEmail(query)) == ExtractEmail(query).value
  {
  }

  /**
   * An explicit request for a human wins over everything else and calls no
   * agent. With an address in the same message the ticket is filed at once and
   * the state is left as it was; without one the state starts waiting for it,
   * with the recent history as summary and the remembered query untouched.
   */
  lemma EscalationPhraseWins(s: State, query: string, history: seq<Entry>, w: World)
    requires EscalationRequested(query)
    ensures var t := Step(s, query, history, w);
      && t.calls == []
      && (ExtractEmail(query).None? ==>
            t.response == Ok(EmailPrompt) && t.next == State(true, Some(RecentContext(history)), s.originalQuery) && t.notice == None)
      && (ExtractEmail(query).Some? ==> t.next == s)
      && (ExtractEmail(query).Some? && w.send == PortMisconfigured ==> t.response == Err(SmtpConfigError))
      && (ExtractEmail(query).Some? && w.send != PortMisconfigured ==>
            && t.response.Ok? && Contains(t.response.value, ExtractEmail(query).value)
            && IsTicketId(TicketId(w.uuid)) && Contains(t.response.value, TicketId(w.uuid))
            && t.notice.Some? && t.notice.value.to == ExtractEmail(query).value
            && Contains(t.notice.value.body, TicketId(w.uuid))
            && Contains(t.notice.value.body, DirectEscalationPrefix + RecentContext(history)))
  {
  }

  /**
   * While an address is awaited and no human is asked for, triage is skipped.
   * An address files the ticket under the pending summary and clears the
   * state; without one the user is asked again and nothing changes.
   */
  lemma WaitingSkipsTriage(s: State, query: string, history: seq<Entry>, w: World)
    requires !EscalationRequested(query) && s.waitingForEmail
    ensures var t := Step(s, query, history, w);
      && t.calls == []
      && (ExtractEmail(query).None? ==> t == Turn(Ok(StillWaitingPrompt), s, [], None))
      && (ExtractEmail(query).Some? && w.send == PortMisconfigured ==> t.response == Err(SmtpConfigError) && t.next == s)
      && (ExtractEmail(query).Some? && w.send != PortMisconfigured ==>
            && t.next == Idle
            && t.response.Ok? && Contains(t.response.value, ExtractEmail(query).value)
            && IsTicketId(TicketId(w.uuid)) && Contains(t.response.value, TicketId(w.uuid))
            && t.notice.Some? && t.notice.value.to == ExtractEmail(query).value
            && Contains(t.notice.value.body, TicketId(w.uuid))
            && Contains(t.notice.value.body, PendingSummary(s)))
  {
  }

  /** Outside the e-mail exchange, a triage answer without a routing word is returned stripped, and nothing else happens. */
  lemma TriageAnswerReturned(s: State, query: string, history: seq<Entry>, w: World, text: string)
    requires !EscalationRequested(query) && !s.waitingForEmail
    requires w.replies.triage == Output(text)
    requires !(RouteTech <= Strip(text)) && !(RouteBilling <= Strip(text))
    ensures Step(s, query, history, w) == Turn(Ok(Strip(text)), s, [Invocation(Triage, query, Formatted(history))], None)
  {
  }

  /** The specialist triage routes to, by its routing word. */
  function RoutedAgent(triageOutput: string): Agent
  {
    if RouteTech <= triageOutput then Tech else Billing
  }

  /**
   * A specialist asking for escalation puts the state into waiting, with the
   * request's text as summary and the query remembered, and the user is asked
   * for an address; any other specialist answer is returned stripped.
   */
  lemma SpecialistAnswer(s: State, query: string, history: seq<Entry>, w: World, text: string, answer: string)
    requires !EscalationRequested(query) && !s.waitingForEmail
    requires w.replies.triage == Output(text)
    requires RouteTech <= Strip(text) || RouteBilling <= Strip(text)
    requires ReplyOf(w.replies, RoutedAgent(Strip(text))) == Output(answer)
    ensures var t := Step(s, query, history, w);
      var agent := RoutedAgent(Strip(text));
      && t.calls == [Invocation(Triage, query, Formatted(history)), Invocation(agent, query, Formatted(history))]
      && t.notice == None
      && (NeedEmailMarker <= Strip(answer) ==>
            && t.response == Ok(EmailPromptFor(agent))
            && t.next == State(true, Some(Strip(RemoveAll(Strip(answer), NeedEmailMarker))), Some(query)))
      && (!(NeedEmailMarker <= Strip(answer)) ==> t.response == Ok(Strip(answer)) && t.next == s)
  {
  }

  /**
   * The summary stored for a specialist's escalation request: a marked output
   * whose remainder holds no further marker is filed under that remainder,
   * stripped.
   */
  lemma MarkedSummary(agentOutput: string)
    requires NeedEmailMarker <= agentOutput
    requires !Contains(agentOutput[|NeedEmailMarker|..], NeedEmailMarker)
    ensures Strip(RemoveAll(agentOutput, NeedEmailMarker)) == Strip(agentOutput[|NeedEmailMarker|..])
  {
    var rest := agentOutput[|NeedEmailMarker|..];
    assert agentOutput == NeedEmailMarker + rest;
    RemoveAllLeading(NeedEmailMarker, rest);
  }

  /** A turn that raises (an agent failure, or an unreadable SMTP port) leaves the three variables as they were. */
  lemma FailedTurnKeepsState(s: State, query: string, history: seq<Entry>, w: World)
    ensures var t := Step(s, query, history, w);
      t.response.Err? ==> t.next == s
  {
  }

  /** Every turn keeps the state consistent. */
  lemma StepPreservesValid(s: State, query: string, history: seq<Entry>, w: World)
    requires ValidState(s)
    ensures ValidState(Step(s, query, history, w).next)
  {
  }

  /**
   * Agents are called only outside the e-mail exchange: triage first, then at
   * most one specialist, the one its routing word names, all with the query
   * and the formatted history.
   */
  lemma AgentCalls(s: State, query: string, history: seq<Entry>, w: World)
    ensures var t := Step(s, query, history, w);
      && (t.calls != [] <==> !EscalationRequested(query) && !s.waitingForEmail)
      && |t.calls| <= 2
      && (forall k :: 0 <= k < |t.calls| ==> t.calls[k].input == query && t.calls[k].history == Formatted(history))
      && (t.calls != [] ==> t.calls[0].agent == Triage)
      && (|t.calls| == 2 ==>
            && w.replies.triage.Output?
            && t.calls[1].agent == RoutedAgent(Strip(w.replies.triage.text))
            && (RouteTech <= Strip(w.replies.triage.text) || RouteBilling <= Strip(w.replies.triage.text)))
  {
  }

  /**
   * The two-turn escalation: asking for a human without an address, then
   * giving one, files a single ticket whose e-mail carries the history that
   * was current when the human was asked for, and leaves the state idle.
   */
  lemma TwoTurnEscalation(q1: string, h1: seq<Entry>, w1: World, q2: string, h2: seq<Entry>, w2: World)
    requires EscalationRequested(q1) && ExtractEmail(q1).None?
    requires !EscalationRequested(q2) && ExtractEmail(q2).Some? && w2.send != PortMisconfigured
    ensures var t1 := Step(Idle, q1, h1, w1);
      var t2 := Step(t1.next, q2, h2, w2);
      && t1.response == Ok(EmailPrompt) && t1.calls == [] && t2.calls == []
      && t2.next == Idle
      && t2.notice.Some? && t2.notice.value.to == ExtractEmail(q2).value
      && Contains(t2.notice.value.body, if h1 == [] then FallbackSummary else RecentContext(h1))
  {
    RecentContextEmptyIff(h1);
    EscalationPhraseWins(Idle, q1, h1, w1);
    WaitingSkipsTriage(Step(Idle, q1, h1, w1).next, q2, h2, w2);
  }
}
