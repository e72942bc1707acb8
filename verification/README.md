# Customer-support agent orchestration, modelled in Dafny

This project models the deterministic core of a customer-support chat system.
Language-model agents (triage, technical, billing) answer queries. Around them,
plain Python code routes each query, collects an e-mail address for escalation
and searches small JSON knowledge bases. The system exists in two generations,
and both are modelled:

- **Command-line generation** (`main.py`, `tools/knowledge_base_tools.py`):
  - `handle_customer_query` routes a query by the triage agent's
    `ROUTE_TECH` / `ROUTE_BILLING` prefix.
  - The `main` loop reads lines until `exit`, appending the user message and
    the answer to the chat history after each turn.
  - The knowledge-base tools find the first key containing the query. The
    billing lookup is exact. The escalation only prints a simulated e-mail.
- **Web backend** (`backend/main.py`, `backend/tools/knowledge_base_tools.py`):
  - `handle_customer_query_backend` is a state machine over three module-level
    variables: `_waiting_for_email`, `_escalation_summary_context` and
    `_original_query_context`.
  - Each turn checks, in order: an explicit request for a human, a pending
    e-mail request, the triage routing word, and a specialist's
    `NEED_EMAIL_FOR_ESCALATION:` request.
  - `chat_endpoint` maps every exception to HTTP 500.
  - Helpers: `extract_email`, `format_chat_history` and
    `_extract_context_from_history`.
  - The FAQ search works in three passes: phrase containment, a 70% word-overlap
    threshold, and best overlap of at least two words.
  - The tech search works in three passes: exact key, containment either way,
    and a shared word.
  - The billing lookup is exact.
  - The escalation mints a ticket number from a UUID and e-mails it through SMTP.

Modules, one concern each:

| module | file | contents |
|---|---|---|
| `Wrappers` | wrappers.dfy | `Option`, `Result` |
| `Text` | text.dfy | the Python `str` operations used: `lower`, `upper`, `strip`, `split`, `in`, `replace(p, "")`, `join` |
| `Search` | search.dfy | catalogues as ordered entry lists (a JSON object's key order); first-match search; `dict.get` |
| `Chat` | chat.dfy | history entries, LangChain messages, agents and their replies, exceptions |
| `Tickets` | tickets.dfy | the text of a version-4 UUID and the shape of a ticket number |
| `BackendKnowledgeBase` | backend_kb.dfy | the backend tools |
| `BackendHelpers` | backend_helpers.dfy | the backend handler's helpers |
| `BackendOrchestrator` | backend_orchestrator.dfy | the turn handler as a specification function `Step`, the class `Orchestrator` holding the three variables, and the endpoint |
| `LegacyKnowledgeBase` | legacy_kb.dfy | the command-line tools |
| `Cli` | cli.dfy | command-line routing and the conversation loop |
| `Generations` | generations.dfy | where the two generations agree and where they part |

## How the model is built

- **Agents are opaque.** A turn receives each agent's reply as data: an
  `Output(text)`, or `Failed` when `invoke` raises. A turn records the
  invocations it makes (agent, input, history), so contracts can say which
  agents were called and with what.
- **Imperative code is modelled imperatively.** Code that changes state
  step by step becomes a method proved against a specification function:
  - `GetFaqAnswer` / `KeywordPass` against `FaqAnswer`;
  - `GetTechSolution` against `TechSolution`;
  - `FormatChatHistory` against `Formatted`;
  - `ContextFromHistory` against `RecentContext`;
  - `Orchestrator.HandleQuery` against `Step`;
  - `RunConversation` against `Transcript` and `HistoryOf`.

  The properties are then lemmas about those functions.
- **Effects become parameters.** The random UUID, the outcome of
  `send_email` and the agents' replies are all parameters (`World` in the
  backend, `env` in the loop).
- **`send_email` has three outcomes** (`SendOutcome`):
  - delivered;
  - failed inside its `try`, which is swallowed;
  - `PortMisconfigured`, when `int(os.getenv("SMTP_PORT"))` fails. That
    line sits before the `try`, so this failure propagates and the endpoint
    answers HTTP 500.

Facts about the code that shape the model:

- **One shared state.** There is no per-session store and no idle eviction:
  one set of module-level variables is shared by all users.
- **No shortcut and no cleaner.** No customer ID is routed straight to
  billing, and no routing tags are removed from responses: specialist output
  is only stripped.
- **The query is passed unchanged.** Specialists receive the user's query as
  typed.
- **The SMTP port failure is not swallowed.** A missing or malformed
  `SMTP_PORT` raises before the `try` and becomes HTTP 500. Only transport
  failures are swallowed (`Escalate`, `DeliveryFailureIsSwallowed`).
- **History roles are `"user"` and `"ai"`.** The formatter keeps exactly
  those two roles and drops every other, `"agent"` included.

## Model

| member | source | states |
|---|---|---|
| Text.StripShape | backend/main.py:173 | `strip` keeps a contiguous window of the text; what it removes on either side is whitespace, and the kept text neither starts nor ends with whitespace |
| Text.StripIdempotent | backend/main.py:188 | stripping an already stripped output changes nothing |
| Text.ContainsIff | backend/main.py:122 | `sub in s` holds exactly when some window of `s` spells `sub` |
| Text.RemoveAll | backend/main.py:191-193 | `replace(marker, "")` never lengthens the text, and leaves a text without the marker unchanged |
| Text.RemoveAllLeading | backend/main.py:191-193 | a text starting with the marker loses that occurrence |
| Text.LowerAt | backend/tools/knowledge_base_tools.py:84 | `lower()` maps each character in place: ASCII capitals become small letters and every other character is kept |
| Text.WordEndSpec | backend/tools/knowledge_base_tools.py:48 | a word read by `split()` runs over non-whitespace characters and ends at the first whitespace character or at the end of the text |
| Text.WordsSpec | backend/tools/knowledge_base_tools.py:48 | every word of `split()` (also used at lines 60 and 96) is non-empty, holds no whitespace and occurs in the text |
| Text.SetOfIff | backend/tools/knowledge_base_tools.py:60 | `set(words)` (also at line 48) holds exactly the words of the list |
| Text.JoinEmptyIff | backend/main.py:107 | joining non-empty parts gives `""` exactly when there are no parts |
| Search.FindFirstSpec | backend/tools/knowledge_base_tools.py:51-53 | a first-match loop finds nothing exactly when no entry qualifies; otherwise it finds a qualifying entry with no qualifying entry before it |
| Search.LookupSpec | backend/tools/knowledge_base_tools.py:108 | `dict.get` misses exactly when no entry has the key; a hit is an entry of the catalogue |
| Search.LookupDistinct | backend/tools/knowledge_base_tools.py:108 | in a catalogue with distinct keys, as `json.load` builds, a lookup of an entry's key gives that entry's value |
| Search.MaxOfIsMaximum | backend/tools/knowledge_base_tools.py:64-66 | the best overlap is at least every overlap and is attained by some entry |
| Chat.RoutingWordsExclusive | main.py:48-54 | no triage output starts with both `ROUTE_TECH` and `ROUTE_BILLING` |
| BackendKnowledgeBase.GetFaqAnswer | backend/tools/knowledge_base_tools.py:43-76 | the phrase loop followed by the keyword loop returns exactly `FaqAnswer` |
| BackendKnowledgeBase.KeywordPass | backend/tools/knowledge_base_tools.py:56-76 | with no phrase hit, the loop tracking `best_match` and `max_word_match` returns exactly `FaqAnswer` |
| BackendKnowledgeBase.FaqAnswerIsValueOrSentinel | backend/tools/knowledge_base_tools.py:43-76 | the FAQ answer is a value of the catalogue or the not-found sentence |
| BackendKnowledgeBase.FaqPhraseFirst | backend/tools/knowledge_base_tools.py:51-53 | the first question (lower-cased) contained in the lower-cased query gives the answer, whatever follows |
| BackendKnowledgeBase.FaqCloseEnoughSecond | backend/tools/knowledge_base_tools.py:59-70 | with no phrase hit, the first question whose shared words reach 70% of the smaller word set gives the answer |
| BackendKnowledgeBase.FaqWordlessQueryTakesFirst | backend/tools/knowledge_base_tools.py:69-70 | a query with no words meets the threshold at the first question, which answers |
| BackendKnowledgeBase.FaqBestOverlapLast | backend/tools/knowledge_base_tools.py:56-76 | otherwise the earliest question with the most shared words answers if it shares at least two and its answer is non-empty; else the not-found sentence |
| BackendKnowledgeBase.FaqEmptyCatalogue | backend/tools/knowledge_base_tools.py:76 | an empty FAQ answers the not-found sentence |
| BackendKnowledgeBase.OverlapsAt | backend/tools/knowledge_base_tools.py:59-61 | the k-th score is the number of words question k shares with the query |
| BackendKnowledgeBase.CloseFlagsAt | backend/tools/knowledge_base_tools.py:69 | the k-th flag is the 70% test on question k |
| BackendKnowledgeBase.GetTechSolution | backend/tools/knowledge_base_tools.py:80-99 | the exact lookup and the two search loops return exactly `TechSolution` |
| BackendKnowledgeBase.TechSolutionIsValueOrSentinel | backend/tools/knowledge_base_tools.py:84-99 | the tech answer is a value of the catalogue or the not-found sentence |
| BackendKnowledgeBase.TechExactKeyFirst | backend/tools/knowledge_base_tools.py:86-87 | a key equal to the lower-cased issue wins over every fuzzy match, wherever it stands |
| BackendKnowledgeBase.TechExactKeyWins | backend/tools/knowledge_base_tools.py:86-87 | with distinct keys, the key equal to the lower-cased issue always answers |
| BackendKnowledgeBase.TechContainmentSecond | backend/tools/knowledge_base_tools.py:90-92 | without an exact key, the first key containing the issue or contained in it wins |
| BackendKnowledgeBase.TechSharedWordThird | backend/tools/knowledge_base_tools.py:95-97 | without either, the first key containing one of the issue's words wins |
| BackendKnowledgeBase.TechMissLast | backend/tools/knowledge_base_tools.py:99 | when no key equals the issue, none contains or lies inside it, and none holds one of its words, the not-found sentence is returned |
| BackendKnowledgeBase.GetBillingInfo | backend/tools/knowledge_base_tools.py:103-115 | a missing or empty record gives the not-found sentence; a record lacking a field read raises `KeyError` naming it; a full record gives a text starting `Customer ID: id, Name: name, Balance: ` and ending in `.` |
| BackendKnowledgeBase.BillingHitNamesFields | backend/tools/knowledge_base_tools.py:110-114 | a found record's answer contains the id, name, balance, last payment date and plan |
| BackendKnowledgeBase.RemoveDashesKeepsPrefix | backend/tools/knowledge_base_tools.py:133 | removing dashes from a text whose prefix has none keeps that prefix in front |
| BackendKnowledgeBase.TicketId | backend/tools/knowledge_base_tools.py:133 | the ticket number is eight upper-case hex digits |
| BackendKnowledgeBase.Destination | backend/tools/knowledge_base_tools.py:134 | the address is the user's when given and non-empty, else the default; never empty |
| BackendKnowledgeBase.Escalate | backend/tools/knowledge_base_tools.py:132-149 | raises exactly when `SMTP_PORT` cannot be read; otherwise the e-mail goes to `Destination`, its subject and body name the ticket and the body the summary, and the confirmation names the ticket and the address |
| BackendKnowledgeBase.EscalationTextsMention | backend/tools/knowledge_base_tools.py:137-149 | the confirmation contains the ticket and the address; the body contains the ticket and the summary |
| BackendKnowledgeBase.DeliveryFailureIsSwallowed | backend/tools/knowledge_base_tools.py:164-171 | a transport failure gives the same confirmation as a delivery |
| BackendHelpers.RunEndSpec | backend/main.py:91 | a greedy run of `[\w.-]` covers every class character from its start and stops at the first other one |
| BackendHelpers.MatchEndAtSpec | backend/main.py:91 | trying the expression at a position succeeds exactly when a match starts there, and takes the longest |
| BackendHelpers.FirstMatchFromSpec | backend/main.py:91 | the search finds the first position where the expression matches |
| BackendHelpers.ExtractEmail | backend/main.py:90-92 | an extracted address has at least three characters |
| BackendHelpers.ExtractEmailSpec | backend/main.py:90-92 | `None` exactly when no substring matches `[\w.-]+@[\w.-]+`; otherwise the leftmost match, as long as possible |
| BackendHelpers.ExtractEmailOccurs | backend/main.py:90-92 | the address found is part of the message |
| BackendHelpers.FormatChatHistory | backend/main.py:79-86 | the loop builds exactly `Formatted(history)` |
| BackendHelpers.FormattedContents | backend/main.py:79-86 | a message is produced exactly for a `"user"` entry (human) or an `"ai"` entry (AI); other roles are dropped |
| BackendHelpers.FormattedConcat | backend/main.py:81-85 | entries are translated one at a time, in order |
| BackendHelpers.ContextFromHistory | backend/main.py:95-107 | the loop and join build exactly `RecentContext(history)` |
| BackendHelpers.LabelsAt | backend/main.py:102-105 | each context part is `User: c` for a user entry and `Agent: c` for any other role |
| BackendHelpers.LabelsNonEmpty | backend/main.py:105 | no context part is empty |
| BackendHelpers.RecentContextEmptyIff | backend/main.py:95-107 | the context is `""` exactly when the history is empty |
| BackendHelpers.RecentContextIgnoresOlder | backend/main.py:98 | entries before the last three never reach the context |
| BackendHelpers.RecentContextMentionsLast | backend/main.py:98-107 | the newest entry's content always appears in the context |
| BackendOrchestrator.PendingSummary | backend/main.py:152-156 | the stored summary is used unless missing or empty, when the fallback is |
| BackendOrchestrator.Endpoint | backend/main.py:217-229 | a response is passed through; every exception becomes HTTP 500 `Internal server error` |
| BackendOrchestrator.Orchestrator.constructor | backend/main.py:50-52 | the three variables start as `False`, `None`, `None` |
| BackendOrchestrator.Orchestrator.HandleQuery | backend/main.py:111-214 | the turn's response, agent calls and e-mail, and the new values of the three variables, are those of `Step`; a consistent state stays consistent |
| BackendOrchestrator.Orchestrator.ChatEndpoint | backend/main.py:217-229 | the reply is `Endpoint` of the turn's response, and the state is the turn's |
| BackendOrchestrator.ExtractedAddressIsDestination | backend/main.py:130-136 | an extracted address is never empty, so the ticket goes to it |
| BackendOrchestrator.EscalationPhraseWins | backend/main.py:121-143 | a request for a human wins over the waiting state and calls no agent; with an address the ticket is filed to it with the recent context, the response is the confirmation naming the eight-hex-digit ticket number and the address, and the state is unchanged (HTTP 500 instead if `SMTP_PORT` cannot be read); without one the state waits with the context as summary, the stored query is untouched, and the prompt is returned |
| BackendOrchestrator.WaitingSkipsTriage | backend/main.py:146-166 | while waiting, triage is skipped; an address files the ticket under the pending summary, answers with the confirmation naming the eight-hex-digit ticket number and the address, and resets the state (HTTP 500 with the state kept if `SMTP_PORT` cannot be read); no address re-prompts with nothing changed |
| BackendOrchestrator.TriageAnswerReturned | backend/main.py:170-180 | a triage output without a routing word is returned stripped, with no specialist called and the state unchanged |
| BackendOrchestrator.SpecialistAnswer | backend/main.py:183-214 | the routed specialist alone is called; its marked output sets waiting, the summary (marker removed, stripped) and the query, and answers with the agent's prompt; other output is returned stripped with the state unchanged |
| BackendOrchestrator.MarkedSummary | backend/main.py:189-194 | a marked specialist output whose remainder holds no other marker is filed under that remainder, stripped |
| BackendOrchestrator.FailedTurnKeepsState | backend/main.py:111-214 | a turn that raises an agent failure or the SMTP port error leaves the three variables as they were (for histories whose entries carry `role` and `content`) |
| BackendOrchestrator.StepPreservesValid | backend/main.py:139-210 | a summary is stored exactly while waiting, and a query only then, after every turn over a history whose entries carry `role` and `content` |
| BackendOrchestrator.AgentCalls | backend/main.py:168-203 | agents are called only outside the e-mail exchange: triage first, then at most the specialist its routing word names, all with the query and formatted history |
| BackendOrchestrator.TwoTurnEscalation | backend/main.py:121-166 | asking for a human, then giving an address, files one ticket to that address carrying the first turn's context, and ends idle |
| LegacyKnowledgeBase.FirstKeyContainingHit | tools/knowledge_base_tools.py:34-37 | the first key (lower-cased) containing the lower-cased query gives the answer |
| LegacyKnowledgeBase.FirstKeyContainingMiss | tools/knowledge_base_tools.py:38 | with no key containing the query, the not-found sentence is returned |
| LegacyKnowledgeBase.FirstKeyContainingIsValueOrMiss | tools/knowledge_base_tools.py:47-51 | the answer is stored under a key containing the query, or is the not-found sentence |
| LegacyKnowledgeBase.EmptyQueryTakesFirst | tools/knowledge_base_tools.py:34-37 | an empty query lies in every key and takes the first answer of a non-empty catalogue |
| LegacyKnowledgeBase.GetBillingInfo | tools/knowledge_base_tools.py:54-67 | a missing or empty record gives the not-found sentence; a record lacking a field read raises `KeyError`; a full record gives a text starting `Customer ID: id, Name: name, Balance: ` |
| LegacyKnowledgeBase.TicketId | tools/knowledge_base_tools.py:78 | the first eight characters of the UUID text, upper-cased, are eight upper-case hex digits |
| LegacyKnowledgeBase.EscalateToHuman | tools/knowledge_base_tools.py:70-86 | the confirmation contains the ticket number and the given address, or the default when none is given |
| LegacyKnowledgeBase.EmptyCataloguesAnswerNothing | tools/knowledge_base_tools.py:6-25 | with every catalogue empty, each lookup gives its not-found answer |
| Cli.RoutesToTech | main.py:48-53 | a `ROUTE_TECH` triage output calls the technical agent alone and returns its output unstripped |
| Cli.RoutesToBilling | main.py:54-59 | a `ROUTE_BILLING` triage output calls the billing agent alone and returns its output unstripped |
| Cli.TriageAnswersDirectly | main.py:60-62 | any other triage output is returned stripped, and no specialist is called |
| Cli.CliAgentCalls | main.py:41-59 | triage is called once, first, and at most one specialist after it |
| Cli.HistoryOf | main.py:93-94 | each turn adds exactly two messages |
| Cli.HistoryOfAt | main.py:93-94 | turn k's user message sits at 2k and its answer at 2k+1 |
| Cli.HistoryOfPrefix | main.py:86-94 | later turns only append: the history after k turns is a prefix of every later one |
| Cli.TranscriptAt | main.py:79-87 | every answered line was not `exit` and got the answer its query produced |
| Cli.TranscriptSeesEarlierHistory | main.py:86-94 | each answer was produced with exactly the first 2k messages of the final history |
| Cli.RunConversation | main.py:67-94 | the loop answers a prefix of the input lines, keeps the history of those exchanges, and stops at `exit` (history untouched), at end of input, or when a turn raises |
| Generations.TicketIdsAgree | tools/knowledge_base_tools.py:78 | both generations mint the same ticket number from a UUID |
| Generations.BillingAnswersAgree | backend/tools/knowledge_base_tools.py:108-115 | both billing lookups fail alike and treat the same records as missing; a found record's backend answer is the older one plus `.` |
| Generations.EscalationConfirmationsAgree | backend/tools/knowledge_base_tools.py:132-149 | given a non-empty address both confirmations are equal; an empty address is kept by the older tool, so its confirmation names no address, while the backend replaces it by the default, confirming as the older tool does when no address is passed |
| Generations.RoutingAgrees | backend/main.py:168-214 | outside an escalation the backend calls the same agents as the command-line handler, fails alike, and answers the same text, stripped, unless a routed specialist asks for an e-mail; an unrouted triage answer agrees even when it starts with the e-mail marker |

## Left out

- The agents themselves (prompts, LangChain executors, the language model) are opaque; only their replies enter the model.
- File I/O: `load_json_data` and the module-level `json.load` calls. Catalogues are given, possibly empty. JSON values are text. A JSON file holding a non-object is not modelled.
- `send_email`'s SMTP session, environment reads and message building. Only its three outcomes are modelled.
- `uuid.uuid4()` randomness: the UUID text is a parameter, constrained to the canonical 8-4-4-4-12 lower-case hex form.
- `print`, logging and `traceback` output.
- Concurrency: the backend's variables are shared by all requests (`backend/main.py:49` says so). The model runs one turn at a time.
- FastAPI, CORS, the root route and the LLM configuration are not part of this model.
- The LangChain tool wrapper `escalate_to_human_tool` only forwards to the escalation logic modelled as `Escalate`.
- Text.Lower: case mapping covers ASCII letters only, where Python maps all of Unicode.
- BackendHelpers.IsEmailChar: `\w` is read as ASCII letters, digits and underscore, where Python's `\w` also accepts other Unicode word characters.
- BackendHelpers.FormattedContents: history entries are assumed to carry `role` and `content`. In the source, a request entry lacking either raises `KeyError`.
- BackendOrchestrator.FailedTurnKeepsState, BackendOrchestrator.StepPreservesValid: these hold only for histories whose entries carry `role` and `content`. The source breaks both on another reachable input: a history with a non-`user`, non-`ai` entry lacking `content` among its last three entries, and a message asking for a human without an address. `format_chat_history` succeeds, because it reads `content` only for `user`/`ai` entries (backend/main.py:82-85). Line 139 then sets `_waiting_for_email` before `_extract_context_from_history` raises `KeyError` at line 104. The endpoint answers HTTP 500, and the state is left waiting with no summary. The model, whose entries always carry both keys, does not capture this half-updated state.
- `_original_query_context` is stored and reset but never read by the source; the model keeps it in the state and proves how it changes, nothing more.
- Cli.RunConversation: the turns' agent replies are a function of the turn number (`env`), since the agents are opaque.
