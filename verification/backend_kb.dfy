/**
 * The knowledge-base tools of the web backend: FAQ search by phrase and by
 * shared words, technical-solution search, billing lookup, and the
 * escalation that issues a ticket and e-mails a confirmation.
 */
module BackendKnowledgeBase {
  import opened Wrappers
  import opened Text
  import opened Search
  import opened Chat
  import opened Tickets

  const FaqNotFound := "I could not find an answer to your question in the FAQ. Please try rephrasing or ask for human assistance."
  const TechNotFound := "Sorry, I couldn't find a solution for your issue. Please provide more details or contact support."
  const DefaultEmail := "customer@example.com"

  function Min(a: nat, b: nat): nat
  {
    if a <= b then a else b
  }

  // ---------------------------------------------------------------- FAQ

  /** The question, lower-cased, occurs in the lower-cased query. */
  predicate PhraseHit(question: string, query: string)
  {
    Contains(Lower(query), Lower(question))
  }

  function QuestionWords(question: string): set<string>
  {
    WordSet(Lower(question))
  }

  /** Number of distinct words the query and the question share. */
  function Overlap(queryWords: set<string>, question: string): nat
  {
    |queryWords * QuestionWords(question)|
  }

  /** The shared words make up at least 70% of the smaller word set. */
  predicate CloseEnough(queryWords: set<string>, question: string)
  {
    10 * Overlap(queryWords, question) >= 7 * Min(|queryWords|, |QuestionWords(question)|)
  }

  /** The overlap of each question of the catalogue with the query, in catalogue order. */
  function Overlaps(kb: Catalogue<string>, queryWords: set<string>): (os: seq<nat>)
    ensures |os| == |kb|
  {
    if kb == [] then [] else [Overlap(queryWords, kb[0].0)] + Overlaps(kb[1..], queryWords)
  }

  lemma {:induction false} OverlapsAt(kb: Catalogue<string>, queryWords: set<string>, i: nat)
    requires i < |kb|
    ensures Overlaps(kb, queryWords)[i] == Overlap(queryWords, kb[i].0)
  {
    if i > 0 {
      OverlapsAt(kb[1..], queryWords, i - 1);
    }
  }

  /** For each question of the catalogue, whether it is close enough to the query. */
  function CloseFlags(kb: Catalogue<string>, queryWords: set<string>): (fs: seq<bool>)
    ensures |fs| == |kb|
  {
    if kb == [] then [] else [CloseEnough(queryWords, kb[0].0)] + CloseFlags(kb[1..], queryWords)
  }

  lemma {:induction false} CloseFlagsAt(kb: Catalogue<string>, queryWords: set<string>, i: nat)
    requires i < |kb|
    ensures CloseFlags(kb, queryWords)[i] == CloseEnough(queryWords, kb[i].0)
  {
    if i > 0 {
      CloseFlagsAt(kb[1..], queryWords, i - 1);
    }
  }

  /** The largest overlap any question of the catalogue has with the query. */
  function MaxOverlap(kb: Catalogue<string>, queryWords: set<string>): nat
  {
    MaxOf(Overlaps(kb, queryWords))
  }

  /**
   * The answer `get_faq_answer` gives: that of the first question contained
   * in the query; failing that, that of the first question close enough in
   * shared words; failing that, that of the earliest question with the most
   * shared words, provided it shares at least two and its answer is not empty.
   */
  function FaqAnswer(kb: Catalogue<string>, query: string): string
  {
    var queryWords := WordSet(Lower(query));
    match FindFirst(kb, (e: (string, string)) => PhraseHit(e.0, query))
    case Some(i) => kb[i].1
    case None =>
      match FindFirst(kb, (e: (string, string)) => CloseEnough(queryWords, e.0))
      case Some(i) => kb[i].1
      case None =>
        var best := MaxOverlap(kb, queryWords);
        match FindFirst(kb, (e: (string, string)) => Overlap(queryWords, e.0) == best)
        case Some(b) => if best >= 2 && kb[b].1 != "" then kb[b].1 else FaqNotFound
        case None => FaqNotFound
  }

  /** `get_faq_answer`: a phrase pass, then a keyword pass, each with early returns. */
  method GetFaqAnswer(kb: Catalogue<string>, query: string) returns (answer: string)
    ensures answer == FaqAnswer(kb, query)
  {
    var i := 0;
    while i < |kb|
      invariant 0 <= i <= |kb|
      invariant forall k :: 0 <= k < i ==> !PhraseHit(kb[k].0, query)
    {
      if PhraseHit(kb[i].0, query) {
        FaqPhraseFirst(kb, query, i);
        return kb[i].1;
      }
      i := i + 1;
    }
    answer := KeywordPass(kb, query);
  }

  /**
   * The keyword pass of `get_faq_answer`, reached when no question occurs in
   * the query: it tracks the best overlap seen so far and returns early on a
   * question close enough to the query.
   */
  method KeywordPass(kb: Catalogue<string>, query: string) returns (answer: string)
    requires forall k :: 0 <= k < |kb| ==> !PhraseHit(kb[k].0, query)
    ensures answer == FaqAnswer(kb, query)
  {
    var queryWords := WordSet(Lower(query));
    var bestMatch: Option<string> := None;
    var maxWordMatch := 0;
    ghost var scores := Overlaps(kb, queryWords);
    ghost var closes := CloseFlags(kb, queryWords);
    ghost var bestIndex := 0;
    var i := 0;
    while i < |kb|
      invariant 0 <= i <= |kb|
      invariant forall k :: 0 <= k < i ==> !closes[k]
      invariant forall k :: 0 <= k < i ==> scores[k] <= maxWordMatch
      invariant maxWordMatch == 0 ==> bestMatch == None && bestIndex == 0
      invariant maxWordMatch > 0 ==>
        && bestIndex < i
        && scores[bestIndex] == maxWordMatch
        && (forall k :: 0 <= k < bestIndex ==> scores[k] < maxWordMatch)
        && bestMatch == Some(kb[bestIndex].1)
    {
      var matchingWords := Overlap(queryWords, kb[i].0);
      OverlapsAt(kb, queryWords, i);
      CloseFlagsAt(kb, queryWords, i);
      if matchingWords > maxWordMatch {
        maxWordMatch := matchingWords;
        bestMatch := Some(kb[i].1);
        bestIndex := i;
      }
      if CloseEnough(queryWords, kb[i].0) {
        forall k | 0 <= k < i
          ensures !CloseEnough(queryWords, kb[k].0)
        {
          CloseFlagsAt(kb, queryWords, k);
        }
        FaqCloseEnoughSecond(kb, query, i);
        return kb[i].1;
      }
      i := i + 1;
    }
    if kb == [] {
      FaqEmptyCatalogue(query);
      return FaqNotFound;
    }
    forall k | 0 <= k < |kb|
      ensures !CloseEnough(queryWords, kb[k].0)
      ensures Overlap(queryWords, kb[k].0) == scores[k]
    {
      CloseFlagsAt(kb, queryWords, k);
      OverlapsAt(kb, queryWords, k);
    }
    FaqBestOverlapLast(kb, query, bestIndex);
    if bestMatch.Some? && bestMatch.value != "" && maxWordMatch >= 2 {
      return bestMatch.value;
    }
    return FaqNotFound;
  }

  /** Every FAQ answer is an answer of the catalogue or the not-found sentence. */
  lemma FaqAnswerIsValueOrSentinel(kb: Catalogue<string>, query: string)
    ensures FaqAnswer(kb, query) == FaqNotFound || IsValueOf(kb, FaqAnswer(kb, query))
  {
  }

  /** Phrase containment wins: the first question contained in the query gives the answer. */
  lemma FaqPhraseFirst(kb: Catalogue<string>, query: string, i: nat)
    requires i < |kb| && PhraseHit(kb[i].0, query)
    requires forall j :: 0 <= j < i ==> !PhraseHit(kb[j].0, query)
    ensures FaqAnswer(kb, query) == kb[i].1
  {
    FindFirstUnique(kb, (e: (string, string)) => PhraseHit(e.0, query), i);
  }

  /** With no phrase hit, the first question sharing 70% of the smaller word set gives the answer. */
  lemma FaqCloseEnoughSecond(kb: Catalogue<string>, query: string, i: nat)
    requires forall j :: 0 <= j < |kb| ==> !PhraseHit(kb[j].0, query)
    requires i < |kb| && CloseEnough(WordSet(Lower(query)), kb[i].0)
    requires forall j :: 0 <= j < i ==> !CloseEnough(WordSet(Lower(query)), kb[j].0)
    ensures FaqAnswer(kb, query) == kb[i].1
  {
    var queryWords := WordSet(Lower(query));
    FindFirstNone(kb, (e: (string, string)) => PhraseHit(e.0, query));
    FindFirstUnique(kb, (e: (string, string)) => CloseEnough(queryWords, e.0), i);
  }

  /** A query without words is close enough to every question, so it takes the first answer. */
  lemma FaqWordlessQueryTakesFirst(kb: Catalogue<string>, query: string)
    requires kb != [] && WordSet(Lower(query)) == {}
    requires forall j :: 0 <= j < |kb| ==> !PhraseHit(kb[j].0, query)
    ensures FaqAnswer(kb, query) == kb[0].1
  {
    FaqCloseEnoughSecond(kb, query, 0);
  }

  /**
   * With neither a phrase hit nor a close-enough question, the earliest
   * question with the most shared words answers if it shares at least two
   * words and its answer is not empty; otherwise the answer is not found.
   */
  lemma FaqBestOverlapLast(kb: Catalogue<string>, query: string, b: nat)
    requires forall j :: 0 <= j < |kb| ==> !PhraseHit(kb[j].0, query)
    requires forall j :: 0 <= j < |kb| ==> !CloseEnough(WordSet(Lower(query)), kb[j].0)
    requires b < |kb|
    requires forall j :: 0 <= j < |kb| ==> Overlap(WordSet(Lower(query)), kb[j].0) <= Overlap(WordSet(Lower(query)), kb[b].0)
    requires forall j :: 0 <= j < b ==> Overlap(WordSet(Lower(query)), kb[j].0) < Overlap(WordSet(Lower(query)), kb[b].0)
    ensures FaqAnswer(kb, query) ==
      if Overlap(WordSet(Lower(query)), kb[b].0) >= 2 && kb[b].1 != "" then kb[b].1 else FaqNotFound
  {
    var queryWords := WordSet(Lower(query));
    FindFirstNone(kb, (e: (string, string)) => PhraseHit(e.0, query));
    FindFirstNone(kb, (e: (string, string)) => CloseEnough(queryWords, e.0));
    MaxOfIsMaximum(Overlaps(kb, queryWords));
    forall j | 0 <= j < |kb|
      ensures Overlaps(kb, queryWords)[j] == Overlap(queryWords, kb[j].0)
    {
      OverlapsAt(kb, queryWords, j);
    }
    var best := MaxOverlap(kb, queryWords);
    assert Overlap(queryWords, kb[b].0) == best;
    FindFirstUnique(kb, (e: (string, string)) => Overlap(queryWords, e.0) == best, b);
  }

  /** An empty catalogue answers nothing. */
  lemma FaqEmptyCatalogue(query: string)
    ensures FaqAnswer([], query) == FaqNotFound
  {
  }

  // ---------------------------------------------------------------- tech

  /** The catalogue key and the lower-cased issue, one inside the other. */
  predicate KeyIssueOverlap(key: string, issueLower: string)
  {
    Contains(issueLower, key) || Contains(key, issueLower)
  }

  /** Some word of the lower-cased issue occurs inside the key. */
  predicate SharesWord(key: string, issueLower: string)
  {
    exists w :: w in Words(issueLower) && Contains(key, w)
  }

  /**
   * The solution `get_tech_solution` gives: the value stored under the
   * lower-cased issue itself; failing that, that of the first key which
   * contains the issue or is contained in it; failing that, that of the first
   * key containing one of the issue's words; failing that, not found.
   */
  function TechSolution(kb: Catalogue<string>, issue: string): string
  {
    var issueLower := Lower(issue);
    match Lookup(kb, issueLower)
    case Some(v) => v
    case None =>
      match FindFirst(kb, (e: (string, string)) => KeyIssueOverlap(e.0, issueLower))
      case Some(i) => kb[i].1
      case None =>
        match FindFirst(kb, (e: (string, string)) => SharesWord(e.0, issueLower))
        case Some(i) => kb[i].1
        case None => TechNotFound
  }

  /** `get_tech_solution`: an exact lookup, then two search loops with early returns. */
  method GetTechSolution(kb: Catalogue<string>, issue: string) returns (solution: string)
    ensures solution == TechSolution(kb, issue)
  {
    var issueLower := Lower(issue);
    var exact := Lookup(kb, issueLower);
    if exact.Some? {
      return exact.value;
    }
    LookupSpec(kb, issueLower);
    var overlap := (e: (string, string)) => KeyIssueOverlap(e.0, issueLower);
    var i := 0;
    while i < |kb|
      invariant 0 <= i <= |kb|
      invariant forall k :: 0 <= k < i ==> !KeyIssueOverlap(kb[k].0, issueLower)
    {
      var key := kb[i].0;
      if KeyIssueOverlap(key, issueLower) {
        FindFirstUnique(kb, overlap, i);
        return kb[i].1;
      }
      i := i + 1;
    }
    FindFirstNone(kb, overlap);
    var shares := (e: (string, string)) => SharesWord(e.0, issueLower);
    i := 0;
    while i < |kb|
      invariant 0 <= i <= |kb|
      invariant forall k :: 0 <= k < i ==> !SharesWord(kb[k].0, issueLower)
    {
      var key := kb[i].0;
      if SharesWord(key, issueLower) {
        FindFirstUnique(kb, shares, i);
        return kb[i].1;
      }
      i := i + 1;
    }
    FindFirstNone(kb, shares);
    return TechNotFound;
  }

  /** Every tech answer is a solution of the catalogue or the not-found sentence. */
  lemma TechSolutionIsValueOrSentinel(kb: Catalogue<string>, issue: string)
    ensures TechSolution(kb, issue) == TechNotFound || IsValueOf(kb, TechSolution(kb, issue))
  {
  }

  /** A key equal to the lower-cased issue wins over every fuzzy match, wherever it stands. */
  lemma TechExactKeyFirst(kb: Catalogue<string>, issue: string, i: nat)
    requires i < |kb| && kb[i].0 == Lower(issue)
    requires forall j :: 0 <= j < i ==> kb[j].0 != Lower(issue)
    ensures TechSolution(kb, issue) == kb[i].1
  {
    FindFirstUnique(kb, (e: (string, string)) => e.0 == Lower(issue), i);
  }

  /** In a catalogue read from a JSON object, whose keys are distinct, the key equal to the lower-cased issue always answers. */
  lemma TechExactKeyWins(kb: Catalogue<string>, issue: string, i: nat)
    requires DistinctKeys(kb)
    requires i < |kb| && kb[i].0 == Lower(issue)
    ensures TechSolution(kb, issue) == kb[i].1
  {
    TechExactKeyFirst(kb, issue, i);
  }

  /** Without an exact key, the first key that contains the issue or lies inside it wins. */
  lemma TechContainmentSecond(kb: Catalogue<string>, issue: string, i: nat)
    requires forall j :: 0 <= j < |kb| ==> kb[j].0 != Lower(issue)
    requires i < |kb| && KeyIssueOverlap(kb[i].0, Lower(issue))
    requires forall j :: 0 <= j < i ==> !KeyIssueOverlap(kb[j].0, Lower(issue))
    ensures TechSolution(kb, issue) == kb[i].1
  {
    FindFirstNone(kb, (e: (string, string)) => e.0 == Lower(issue));
    FindFirstUnique(kb, (e: (string, string)) => KeyIssueOverlap(e.0, Lower(issue)), i);
  }

  /** Without exact key or containment, the first key holding one of the issue's words wins. */
  lemma TechSharedWordThird(kb: Catalogue<string>, issue: string, i: nat)
    requires forall j :: 0 <= j < |kb| ==> kb[j].0 != Lower(issue)
    requires forall j :: 0 <= j < |kb| ==> !KeyIssueOverlap(kb[j].0, Lower(issue))
    requires i < |kb| && SharesWord(kb[i].0, Lower(issue))
    requires forall j :: 0 <= j < i ==> !SharesWord(kb[j].0, Lower(issue))
    ensures TechSolution(kb, issue) == kb[i].1
  {
    var issueLower := Lower(issue);
    FindFirstNone(kb, (e: (string, string)) => e.0 == issueLower);
    FindFirstNone(kb, (e: (string, string)) => KeyIssueOverlap(e.0, issueLower));
    FindFirstUnique(kb, (e: (string, string)) => SharesWord(e.0, issueLower), i);
  }

  /** When no stage matches, the not-found sentence is returned. */
  lemma TechMissLast(kb: Catalogue<string>, issue: string)
    requires forall j :: 0 <= j < |kb| ==> kb[j].0 != Lower(issue)
    requires forall j :: 0 <= j < |kb| ==> !KeyIssueOverlap(kb[j].0, Lower(issue))
    requires forall j :: 0 <= j < |kb| ==> !SharesWord(kb[j].0, Lower(issue))
    ensures TechSolution(kb, issue) == TechNotFound
  {
    var issueLower := Lower(issue);
    FindFirstNone(kb, (e: (string, string)) => e.0 == issueLower);
    FindFirstNone(kb, (e: (string, string)) => KeyIssueOverlap(e.0, issueLower));
    FindFirstNone(kb, (e: (string, string)) => SharesWord(e.0, issueLower));
  }

  // ---------------------------------------------------------------- billing

  /** A billing record: the JSON object stored under a customer ID, its values already rendered as text. */
  type BillingRecord = map<string, string>

  function BillingNotFound(customerId: string): string
  {
    "Could not find billing information for customer ID: " + customerId + ". Please verify the ID."
  }

  /**
   * `get_billing_info`: exact, case-sensitive lookup. A missing or empty record
   * gives the not-found sentence; a record without one of the four fields read
   * raises `KeyError`.
   */
  function GetBillingInfo(db: Catalogue<BillingRecord>, customerId: string): (r: Result<string, Exception>)
    ensures (Lookup(db, customerId).None? || Lookup(db, customerId).value == map[]) ==>
      r == Ok(BillingNotFound(customerId))
    ensures r.Err? ==>
      && r.error.KeyError? && Lookup(db, customerId).Some?
      && r.error.key in {"name", "balance", "last_payment_date", "plan"}
      && r.error.key !in Lookup(db, customerId).value
    ensures r.Ok? && Lookup(db, customerId).Some? && Lookup(db, customerId).value != map[] ==>
      var info := Lookup(db, customerId).value;
      && "name" in info && "balance" in info && "last_payment_date" in info && "plan" in info
      && ("Customer ID: " + customerId + ", Name: " + info["name"] + ", Balance: ") <= r.value
      && r.value[|r.value| - 1] == '.'
  {
    match Lookup(db, customerId)
    case None => Ok(BillingNotFound(customerId))
    case Some(info) =>
      if info == map[] then Ok(BillingNotFound(customerId))
      else if "name" !in info then Err(KeyError("name"))
      else if "balance" !in info then Err(KeyError("balance"))
      else if "last_payment_date" !in info then Err(KeyError("last_payment_date"))
      else if "plan" !in info then Err(KeyError("plan"))
      else Ok("Customer ID: " + customerId + ", Name: " + info["name"] + ", Balance: " + info["balance"]
              + ", Last Payment: " + info["last_payment_date"] + ", Plan: " + info["plan"] + ".")
  }

  /** A found record's answer names the customer ID and every field it read. */
  lemma BillingHitNamesFields(db: Catalogue<BillingRecord>, customerId: string)
    requires Lookup(db, customerId).Some? && Lookup(db, customerId).value != map[]
    requires GetBillingInfo(db, customerId).Ok?
    ensures var info := Lookup(db, customerId).value;
      var s := GetBillingInfo(db, customerId).value;
      && Contains(s, customerId) && Contains(s, info["name"]) && Contains(s, info["balance"])
      && Contains(s, info["last_payment_date"]) && Contains(s, info["plan"])
  {
    var info := Lookup(db, customerId).value;
    ContainsInEleven("Customer ID: ", customerId, ", Name: ", info["name"], ", Balance: ", info["balance"],
                     ", Last Payment: ", info["last_payment_date"], ", Plan: ", info["plan"], ".");
  }

  // ---------------------------------------------------------------- escalation

  /** `send_email`: delivered, failed inside its `try` (swallowed), or failed reading `SMTP_PORT` before it (raised). */
  datatype SendOutcome = Delivered | TransportFailed | PortMisconfigured

  datatype Notification = Notification(to: string, subject: string, body: string)

  datatype Escalation = Escalation(ticketId: string, notice: Notification, confirmation: string)

  /** Dropping the dashes of a UUID keeps its first group of eight digits in front. */
  lemma {:induction false} RemoveDashesKeepsPrefix(a: string, b: string)
    requires forall k :: 0 <= k < |a| ==> a[k] != '-'
    ensures RemoveAll(a + b, "-") == a + RemoveAll(b, "-")
    decreases |a|
  {
    if a == [] {
      assert a + b == b;
    } else {
      var s := a + b;
      assert s[0] == a[0] && s[1..] == a[1..] + b;
      assert !("-" <= s);
      calc {
        RemoveAll(s, "-");
        [s[0]] + RemoveAll(s[1..], "-");
        { RemoveDashesKeepsPrefix(a[1..], b); }
        [a[0]] + (a[1..] + RemoveAll(b, "-"));
        { assert a == [a[0]] + a[1..]; }
        a + RemoveAll(b, "-");
      }
    }
  }

  /** `str(uuid.uuid4()).replace("-", "")[:8].upper()` */
  function TicketId(uuid: UuidText): (t: string)
    ensures IsTicketId(t)
  {
    assert forall k :: 0 <= k < 8 ==> IsLowerHex(uuid[k]) && !IsDashPosition(k);
    assert uuid == uuid[..8] + uuid[8..];
    RemoveDashesKeepsPrefix(uuid[..8], uuid[8..]);
    var t := Upper(RemoveAll(uuid, "-")[..8]);
    forall k | 0 <= k < 8 ensures t[k] == UpperChar(uuid[k]) {
      UpperAt(uuid[..8], k);
    }
    t
  }

  /** The address the confirmation goes to: the user's, unless missing or empty. */
  function Destination(userEmail: Option<string>): (to: string)
    ensures to != ""
    ensures userEmail.Some? && userEmail.value != "" ==> to == userEmail.value
    ensures userEmail.None? || userEmail.value == "" ==> to == DefaultEmail
  {
    if userEmail.Some? && userEmail.value != "" then userEmail.value else DefaultEmail
  }

  const BodyOpening := "Dear Customer,\n\nYour support request has been received and escalated to our support team.\n\nTicket Details:\n- Ticket ID: "
  const BodyStatus := "\n- Status: Open\n- Summary: "
  const BodyReminder := "\n\nA support representative will contact you shortly to assist you with your issue.\n\nPlease keep this ticket number for your reference: "
  const BodyClosing := "\n\nIf you need to follow up on this ticket, please reply to this email or contact our support team with your ticket number.\n\nBest regards,\nCustomer Support Team,\nVishnu."
  const ConfirmationOpening := "The issue has been escalated to a human support agent. Your ticket number is "
  const ConfirmationMiddle := ". A confirmation has been sent to "

  /** The e-mail text: ticket number, status, summary, and the ticket number again. */
  function TicketBody(ticketId: string, summary: string): string
  {
    BodyOpening + ticketId + BodyStatus + summary + BodyReminder + ticketId + BodyClosing
  }

  function Confirmation(ticketId: string, to: string): string
  {
    ConfirmationOpening + ticketId + ConfirmationMiddle + to + "."
  }

  /**
   * `_raw_escalate_to_human_logic`: mints the ticket number, e-mails it with
   * the summary and returns a confirmation naming the ticket and the address.
   * A failed delivery still yields the confirmation; a missing or malformed
   * `SMTP_PORT` raises before any delivery is attempted.
   */
  function Escalate(summary: string, userEmail: Option<string>, uuid: UuidText, send: SendOutcome): (r: Result<Escalation, Exception>)
    ensures r.Err? <==> send == PortMisconfigured
    ensures r.Err? ==> r.error == SmtpConfigError
    ensures r.Ok? ==>
      && IsTicketId(r.value.ticketId)
      && r.value.notice.to == Destination(userEmail)
      && Contains(r.value.confirmation, r.value.ticketId)
      && Contains(r.value.confirmation, r.value.notice.to)
      && Contains(r.value.notice.subject, r.value.ticketId)
      && Contains(r.value.notice.body, summary)
      && Contains(r.value.notice.body, r.value.ticketId)
  {
    var ticketId := TicketId(uuid);
    var to := Destination(userEmail);
    var subject := "Support Ticket #" + ticketId + " Created";
    var body := TicketBody(ticketId, summary);
    var confirmation := Confirmation(ticketId, to);
    ContainsMiddle("Support Ticket #", ticketId, " Created");
    EscalationTextsMention(ticketId, to, summary);
    if send == PortMisconfigured then Err(SmtpConfigError)
    else Ok(Escalation(ticketId, Notification(to, subject, body), confirmation))
  }

  /** The confirmation names the ticket and the address; the e-mail body names the ticket and the summary. */
  lemma EscalationTextsMention(ticketId: string, to: string, summary: string)
    ensures Contains(Confirmation(ticketId, to), ticketId)
    ensures Contains(Confirmation(ticketId, to), to)
    ensures Contains(TicketBody(ticketId, summary), ticketId)
    ensures Contains(TicketBody(ticketId, summary), summary)
  {
    ContainsInFive(ConfirmationOpening, ticketId, ConfirmationMiddle, to, ".");
    ContainsInSeven(BodyOpening, ticketId, BodyStatus, summary, BodyReminder, ticketId, BodyClosing);
  }

  /** Whether the e-mail went out or failed in transit, the user gets the same confirmation. */
  lemma DeliveryFailureIsSwallowed(summary: string, userEmail: Option<string>, uuid: UuidText)
    ensures Escalate(summary, userEmail, uuid, TransportFailed) == Escalate(summary, userEmail, uuid, Delivered)
    ensures Escalate(summary, userEmail, uuid, TransportFailed).Ok?
  {
  }
}
