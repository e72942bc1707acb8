/**
 * How the web backend relates to the command-line generation it grew from:
 * where the two agree and where they part.
 */
module Generations {
  import opened Wrappers
  import opened Text
  import opened Chat
  import opened Tickets
  import opened BackendHelpers
  import Search
  import Cli
  import L = LegacyKnowledgeBase
  import B = BackendKnowledgeBase
  import O = BackendOrchestrator

  /**
   * Both generations mint the same ticket number from a UUID: dropping the
   * dashes first does not change the first eight characters, which hold none.
   */
  lemma TicketIdsAgree(uuid: UuidText)
    ensures L.TicketId(uuid) == B.TicketId(uuid)
  {
    assert forall k :: 0 <= k < 8 ==> IsLowerHex(uuid[k]) && !IsDashPosition(k);
    assert uuid == uuid[..8] + uuid[8..];
    B.RemoveDashesKeepsPrefix(uuid[..8], uuid[8..]);
    assert RemoveAll(uuid, "-")[..8] == uuid[..8];
  }

  /**
   * The billing lookups read the same fields and fail alike; a found record is
   * worded the same except for the backend's closing period, and a missing one
   * gets each generation's own not-found sentence.
   */
  lemma BillingAnswersAgree(db: seq<(string, map<string, string>)>, customerId: string)
    ensures L.GetBillingInfo(db, customerId).Err? <==> B.GetBillingInfo(db, customerId).Err?
    ensures L.GetBillingInfo(db, customerId).Err? ==> L.GetBillingInfo(db, customerId) == B.GetBillingInfo(db, customerId)
    ensures Search.Lookup(db, customerId).None? || Search.Lookup(db, customerId).value == map[] ==>
      && L.GetBillingInfo(db, customerId) == Ok(L.BillingNotFound(customerId))
      && B.GetBillingInfo(db, customerId) == Ok(B.BillingNotFound(customerId))
    ensures Search.Lookup(db, customerId).Some? && Search.Lookup(db, customerId).value != map[] && L.GetBillingInfo(db, customerId).Ok? ==>
      B.GetBillingInfo(db, customerId) == Ok(L.GetBillingInfo(db, customerId).value + ".")
  {
  }

  /**
   * Given a non-empty address, both escalations confirm with the same sentence
   * (unless the backend cannot read its SMTP port); given an empty one, the
   * command-line version keeps it while the backend falls back to the default.
   */
  lemma EscalationConfirmationsAgree(summary: string, email: string, uuid: UuidText, send: B.SendOutcome)
    requires send != B.PortMisconfigured
    ensures email != "" ==> B.Escalate(summary, Some(email), uuid, send).value.confirmation == L.EscalateToHuman(summary, Some(email), uuid)
    ensures email == "" ==>
      && L.EscalateToHuman(summary, Some(email), uuid) == L.ConfirmationOpening + L.TicketId(uuid) + L.ConfirmationMiddle + "."
      && B.Escalate(summary, Some(email), uuid, send).value.notice.to == B.DefaultEmail
      && B.Escalate(summary, Some(email), uuid, send).value.confirmation == L.EscalateToHuman(summary, None, uuid)
  {
    TicketIdsAgree(uuid);
  }

  /**
   * Outside an escalation, the backend routes a query as the command-line
   * handler does: the same agent calls, the same failures, and (unless a
   * specialist asks for an e-mail address) the same answer, stripped, with the
   * state left alone. An unrouted triage answer agrees even when it starts
   * with the e-mail marker, since only a specialist's output is checked for it.
   */
  lemma RoutingAgrees(s: O.State, query: string, history: seq<Entry>, w: O.World)
    requires !O.EscalationRequested(query) && !s.waitingForEmail
    ensures var t := O.Step(s, query, history, w);
      var c := Cli.HandleCustomerQuery(query, Formatted(history), w.replies);
      && t.calls == c.calls
      && (t.response.Err? <==> c.response.Err?)
      && (c.response.Err? ==> t.response == c.response)
      && (c.response.Ok? && (|c.calls| == 1 || !(O.NeedEmailMarker <= Strip(c.response.value))) ==>
            t.response == Ok(Strip(c.response.value)) && t.next == s && t.notice.None?)
  {
    match w.replies.triage
    case Failed =>
    case Output(text) =>
      StripIdempotent(text);
      RoutingWordsExclusive(Strip(text));
  }
}
