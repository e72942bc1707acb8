/**
 * The knowledge-base tools of the first, command-line generation: FAQ and
 * technical search by "query inside key" containment, billing lookup and a
 * simulated escalation that only prints its e-mail.
 */
module LegacyKnowledgeBase {
  import opened Wrappers
  import opened Text
  import opened Search
  import opened Chat
  import opened Tickets

  const FaqNotFound := "I could not find a direct answer in the FAQs. Please try rephrasing or consider if it's a technical or billing issue."
  const TechNotFound := "I could not find a specific solution for this technical issue in our knowledge base. It might require further investigation or escalation."
  const DefaultEmail := "customer@example.com"

  /** The lower-cased query occurs in the lower-cased key. */
  predicate QueryInKey(query: string, key: string)
  {
    Contains(Lower(key), Lower(query))
  }

  /** The value of the first key, in catalogue order, that contains the query; `notFound` when none does. */
  function FirstKeyContaining(kb: Catalogue<string>, query: string, notFound: string): string
  {
    match FindFirst(kb, (e: (string, string)) => QueryInKey(query, e.0))
    case Some(i) => kb[i].1
    case None => notFound
  }

  /** The first key containing the query decides the answer, whatever follows it. */
  lemma FirstKeyContainingHit(kb: Catalogue<string>, query: string, notFound: string, i: nat)
    requires i < |kb| && QueryInKey(query, kb[i].0)
    requires forall j :: 0 <= j < i ==> !QueryInKey(query, kb[j].0)
    ensures FirstKeyContaining(kb, query, notFound) == kb[i].1
  {
    FindFirstUnique(kb, (e: (string, string)) => QueryInKey(query, e.0), i);
  }

  /** With no key containing the query, the answer is `notFound`. */
  lemma FirstKeyContainingMiss(kb: Catalogue<string>, query: string, notFound: string)
    requires forall j :: 0 <= j < |kb| ==> !QueryInKey(query, kb[j].0)
    ensures FirstKeyContaining(kb, query, notFound) == notFound
  {
    FindFirstNone(kb, (e: (string, string)) => QueryInKey(query, e.0));
  }

  /** The answer is a value of the catalogue stored under a key containing the query, or `notFound`. */
  lemma FirstKeyContainingIsValueOrMiss(kb: Catalogue<string>, query: string, notFound: string)
    ensures var r := FirstKeyContaining(kb, query, notFound);
      r == notFound || exists i :: 0 <= i < |kb| && QueryInKey(query, kb[i].0) && kb[i].1 == r
  {
    FindFirstSpec(kb, (e: (string, string)) => QueryInKey(query, e.0));
  }

  /** `get_faq_answer` */
  function GetFaqAnswer(kb: Catalogue<string>, query: string): string
  {
    FirstKeyContaining(kb, query, FaqNotFound)
  }

  /** `get_tech_solution` */
  function GetTechSolution(kb: Catalogue<string>, issue: string): string
  {
    FirstKeyContaining(kb, issue, TechNotFound)
  }

  /** An empty query lies inside every key, so it takes the first answer of a non-empty catalogue. */
  lemma EmptyQueryTakesFirst(kb: Catalogue<string>)
    requires kb != []
    ensures GetFaqAnswer(kb, "") == kb[0].1
    ensures GetTechSolution(kb, "") == kb[0].1
  {
    FirstKeyContainingHit(kb, "", FaqNotFound, 0);
    FirstKeyContainingHit(kb, "", TechNotFound, 0);
  }

  /** The answer for a customer ID with no record, or with an empty one. */
  function BillingNotFound(customerId: string): string
  {
    "No billing information found for customer ID: " + customerId + ". Please verify the ID."
  }

  /**
   * `get_billing_info`: exact lookup of the customer ID; a record lacking one
   * of the four fields read raises `KeyError`. The hit has no closing period.
   */
  function GetBillingInfo(db: Catalogue<map<string, string>>, customerId: string): (r: Result<string, Exception>)
    ensures (Lookup(db, customerId).None? || Lookup(db, customerId).value == map[]) ==>
      r == Ok(BillingNotFound(customerId))
    ensures r.Err? ==>
      && r.error.KeyError? && Lookup(db, customerId).Some?
      && r.error.key in {"name", "balance", "last_payment_date", "plan"}
      && r.error.key !in Lookup(db, customerId).value
    ensures r.Ok? && Lookup(db, customerId).Some? && Lookup(db, customerId).value != map[] ==>
      var info := Lookup(db, customerId).value;
      && "name" in info && "balance" in info && "last_payment_date" in info && "plan" in info
      && ("Customer ID: " + customerId + ", Name: " + info["name"] + ", Balance: ") <= r.value
  {
    match Lookup(db, customerId)
    case None => Ok(BillingNotFound(customerId))
    case Some(info) =>
      if info == map[] then Ok(BillingNotFound(customerId))
      else if "name" !in info then Err(KeyError("name"))
      else if "balance" !in info then Err(KeyError("balance"))
      else if "last_payment_date" !in info then Err(KeyError("last_payment_date"))
      else if "plan" !in info then Err(KeyError("plan"))
      else Ok("Customer ID: " + customerId + ", Name: " + info["name"] + ", Balance: " + info["balance"]
              + ", Last Payment: " + info["last_payment_date"] + ", Plan: " + info["plan"])
  }

  /** `str(uuid.uuid4())[:8].upper()`: the first group of the UUID, which holds no dash. */
  function TicketId(uuid: UuidText): (t: string)
    ensures IsTicketId(t)
  {
    var t := Upper(uuid[..8]);
    forall k | 0 <= k < 8 ensures t[k] == UpperChar(uuid[k]) {
      UpperAt(uuid[..8], k);
    }
    assert forall k :: 0 <= k < 8 ==> IsLowerHex(uuid[k]) && !IsDashPosition(k);
    t
  }

  const ConfirmationOpening := "The issue has been escalated to a human support agent. Your ticket number is "
  const ConfirmationMiddle := ". A confirmation has been sent to "

  /**
   * `escalate_to_human`: `userEmail` is `None` when the caller leaves the
   * argument out, which selects the default address; an empty address passed
   * explicitly is kept as it is.
   */
  function EscalateToHuman(summary: string, userEmail: Option<string>, uuid: UuidText): (r: string)
    ensures Contains(r, TicketId(uuid))
    ensures Contains(r, if userEmail.Some? then userEmail.value else DefaultEmail)
  {
    var to := if userEmail.Some? then userEmail.value else DefaultEmail;
    ContainsInFive(ConfirmationOpening, TicketId(uuid), ConfirmationMiddle, to, ".");
    ConfirmationOpening + TicketId(uuid) + ConfirmationMiddle + to + "."
  }

  /** With the data files missing every catalogue is empty, and every lookup gives its not-found answer. */
  lemma EmptyCataloguesAnswerNothing(query: string, customerId: string)
    ensures GetFaqAnswer([], query) == FaqNotFound
    ensures GetTechSolution([], query) == TechNotFound
    ensures GetBillingInfo([], customerId) == Ok(BillingNotFound(customerId))
  {
  }
}
