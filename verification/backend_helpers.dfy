/**
 * The deterministic helpers of the web backend's turn handler: pulling an
 * e-mail address out of a message, turning the request's chat history into
 * LangChain messages, and summarising the last few turns for a ticket.
 */
module BackendHelpers {
  import opened Wrappers
  import opened Text
  import opened Chat

  // ---------------------------------------------------------------- extract_email

  /** The class `[\w.-]`, with `\w` read as ASCII letters, digits and underscore. */
  predicate IsEmailChar(c: char)
  {
    || ('a' <= c <= 'z') || ('A' <= c <= 'Z') || ('0' <= c <= '9')
    || c == '_' || c == '.' || c == '-'
  }

  /** `s[i..j]` is spelled `[\w.-]+@[\w.-]+`: one `@` with a non-empty run of class characters on each side. */
  ghost predicate IsEmailMatch(s: string, i: int, j: int)
  {
    && 0 <= i < j <= |s|
    && exists at :: i < at && at + 1 < j && s[at] == '@' && forall t :: i <= t < j && t != at ==> IsEmailChar(s[t])
  }

  /** The end of the run of class characters starting at `k`. */
  function RunEnd(s: string, k: nat): (e: nat)
    requires k <= |s|
    ensures k <= e <= |s|
    decreases |s| - k
  {
    if k < |s| && IsEmailChar(s[k]) then RunEnd(s, k + 1) else k
  }

  /** A run covers every class character from its start and stops at the first other one. */
  lemma {:induction false} RunEndSpec(s: string, k: nat, x: nat)
    requires k <= x <= |s|
    ensures (forall t :: k <= t < x ==> IsEmailChar(s[t])) ==> x <= RunEnd(s, k)
    ensures (forall t :: k <= t < x ==> IsEmailChar(s[t])) && x < |s| && !IsEmailChar(s[x]) ==> RunEnd(s, k) == x
    ensures forall t :: k <= t < RunEnd(s, k) ==> IsEmailChar(s[t])
    ensures RunEnd(s, k) < |s| ==> !IsEmailChar(s[RunEnd(s, k)])
    decreases |s| - k
  {
    if k < |s| && IsEmailChar(s[k]) {
      if k < x {
        RunEndSpec(s, k + 1, x);
      } else {
        RunEndSpec(s, k + 1, k + 1);
      }
    }
  }

  /**
   * The end of the match the regular expression finds when it is tried at
   * position `i`: the greedy first run must be followed by `@`, and the
   * greedy second run must not be empty.
   */
  function MatchEndAt(s: string, i: nat): (r: Option<nat>)
    requires i <= |s|
    ensures r.Some? ==> i + 3 <= r.value <= |s|
  {
    if i < |s| && IsEmailChar(s[i]) then
      var at := RunEnd(s, i);
      if at + 1 < |s| && s[at] == '@' && IsEmailChar(s[at + 1]) then Some(RunEnd(s, at + 1)) else None
    else None
  }

  /** Trying the expression at `i` succeeds exactly when some match starts there, and it takes the longest. */
  lemma MatchEndAtSpec(s: string, i: nat)
    requires i <= |s|
    ensures MatchEndAt(s, i).Some? ==> IsEmailMatch(s, i, MatchEndAt(s, i).value)
    ensures forall j :: IsEmailMatch(s, i, j) ==> MatchEndAt(s, i).Some? && j <= MatchEndAt(s, i).value
  {
    if i < |s| && IsEmailChar(s[i]) {
      var at := RunEnd(s, i);
      RunEndSpec(s, i, i);
      if at + 1 < |s| && s[at] == '@' && IsEmailChar(s[at + 1]) {
        var j := RunEnd(s, at + 1);
        RunEndSpec(s, at + 1, at + 1);
        assert forall t :: i <= t < j && t != at ==> IsEmailChar(s[t]);
        assert IsEmailMatch(s, i, j);
      }
    }
    forall j | IsEmailMatch(s, i, j)
      ensures MatchEndAt(s, i).Some? && j <= MatchEndAt(s, i).value
    {
      var at :| i < at && at + 1 < j && s[at] == '@' && forall t :: i <= t < j && t != at ==> IsEmailChar(s[t]);
      RunEndSpec(s, i, at);
      assert RunEnd(s, i) == at;
      RunEndSpec(s, at + 1, j);
    }
  }

  /** `re.search` from position `i` on: the first start where the expression matches, with its end. */
  function FirstMatchFrom(s: string, i: nat): (r: Option<(nat, nat)>)
    requires i <= |s|
    ensures r.Some? ==> i <= r.value.0 && r.value.0 + 3 <= r.value.1 <= |s|
    decreases |s| - i
  {
    if i == |s| then None
    else
      match MatchEndAt(s, i)
      case Some(j) => Some((i, j))
      case None => FirstMatchFrom(s, i + 1)
  }

  lemma {:induction false} FirstMatchFromSpec(s: string, i: nat)
    requires i <= |s|
    ensures FirstMatchFrom(s, i).None? <==> forall k :: i <= k <= |s| ==> MatchEndAt(s, k).None?
    ensures FirstMatchFrom(s, i).Some? ==>
      var (a, b) := FirstMatchFrom(s, i).value;
      MatchEndAt(s, a) == Some(b) && forall k :: i <= k < a ==> MatchEndAt(s, k).None?
    decreases |s| - i
  {
    if i < |s| && MatchEndAt(s, i).None? {
      FirstMatchFromSpec(s, i + 1);
    }
  }

  /** `extract_email`: the text of the first match of `[\w.-]+@[\w.-]+`, if any. */
  function ExtractEmail(text: string): (r: Option<string>)
    ensures r.Some? ==> |r.value| >= 3
  {
    match FirstMatchFrom(text, 0)
    case None => None
    case Some((i, j)) => Some(text[i..j])
  }

  /**
   * `extract_email` finds nothing exactly when the text holds no match, and
   * otherwise returns the match that starts leftmost, taken as long as possible.
   */
  lemma ExtractEmailSpec(text: string)
    ensures ExtractEmail(text).None? <==> forall i, j :: !IsEmailMatch(text, i, j)
    ensures ExtractEmail(text).Some? ==> exists i, j ::
      && IsEmailMatch(text, i, j) && ExtractEmail(text).value == text[i..j]
      && forall i', j' :: IsEmailMatch(text, i', j') ==> i < i' || (i == i' && j' <= j)
  {
    FirstMatchFromSpec(text, 0);
    forall i: nat, j | i <= |text| ensures IsEmailMatch(text, i, j) ==> MatchEndAt(text, i).Some? {
      MatchEndAtSpec(text, i);
    }
    if FirstMatchFrom(text, 0).Some? {
      var (a, b) := FirstMatchFrom(text, 0).value;
      MatchEndAtSpec(text, a);
      assert IsEmailMatch(text, a, b);
      forall i', j' | IsEmailMatch(text, i', j') ensures a < i' || (a == i' && j' <= b) {
        MatchEndAtSpec(text, i');
      }
    }
  }

  /** The address found is part of the text. */
  lemma ExtractEmailOccurs(text: string)
    requires ExtractEmail(text).Some?
    ensures Contains(text, ExtractEmail(text).value)
  {
    var (i, j) := FirstMatchFrom(text, 0).value;
    assert text == text[..i] + text[i..j] + text[j..];
    ContainsMiddle(text[..i], text[i..j], text[j..]);
  }

  // ---------------------------------------------------------------- format_chat_history

  /** The message one history entry contributes: none unless its role is `"user"` or `"ai"`. */
  function MessageOf(e: Entry): seq<Message>
  {
    if e.role == "user" then [Human(e.content)]
    else if e.role == "ai" then [Ai(e.content)]
    else []
  }

  /** The messages `format_chat_history` builds from `history`, appended entry by entry. */
  function Formatted(history: seq<Entry>): seq<Message>
    decreases |history|
  {
    if history == [] then []
    else Formatted(history[..|history| - 1]) + MessageOf(history[|history| - 1])
  }

  /** `format_chat_history`: one pass over the history, appending a message for each user or AI entry. */
  method FormatChatHistory(history: seq<Entry>) returns (formatted: seq<Message>)
    ensures formatted == Formatted(history)
  {
    formatted := [];
    for i := 0 to |history|
      invariant formatted == Formatted(history[..i])
    {
      var entry := history[i];
      if entry.role == "user" {
        formatted := formatted + [Human(entry.content)];
      } else if entry.role == "ai" {
        formatted := formatted + [Ai(entry.content)];
      }
      assert history[..i + 1][..i] == history[..i];
    }
    assert history[..|history|] == history;
  }

  /** Formatting distributes over concatenation: entries are translated one at a time, in order. */
  lemma {:induction false} FormattedConcat(a: seq<Entry>, b: seq<Entry>)
    ensures Formatted(a + b) == Formatted(a) + Formatted(b)
    decreases |b|
  {
    if b == [] {
      assert a + b == a;
    } else {
      var b' := b[..|b| - 1];
      assert (a + b)[..|a + b| - 1] == a + b';
      FormattedConcat(a, b');
    }
  }

  /** A message is produced exactly for a user entry (as a human message) or an AI entry (as an AI message). */
  lemma {:induction false} FormattedContents(history: seq<Entry>, m: Message)
    ensures m in Formatted(history) <==>
      (exists e :: e in history && ((e.role == "user" && m == Human(e.content)) || (e.role == "ai" && m == Ai(e.content))))
    decreases |history|
  {
    if history != [] {
      var front := history[..|history| - 1];
      var last := history[|history| - 1];
      FormattedContents(front, m);
      assert history == front + [last];
      assert forall e :: e in history <==> e in front || e == last;
    }
  }

  // ---------------------------------------------------------------- _extract_context_from_history

  /** The entries `_extract_context_from_history` reads: the last three, or all when there are fewer. */
  function Recent(history: seq<Entry>): (r: seq<Entry>)
  {
    if |history| > 3 then history[|history| - 3..] else history
  }

  /** One entry as the context shows it: `"User: c"` for a user entry, `"Agent: c"` for any other role. */
  function Label(e: Entry): (r: string)
  {
    (if e.role == "user" then "User" else "Agent") + ": " + e.content
  }

  function Labels(es: seq<Entry>): (r: seq<string>)
    ensures |r| == |es|
    decreases |es|
  {
    if es == [] then [] else Labels(es[..|es| - 1]) + [Label(es[|es| - 1])]
  }

  /** The context string: the labelled recent entries joined by `" | "`. */
  function RecentContext(history: seq<Entry>): string
  {
    Join(" | ", Labels(Recent(history)))
  }

  /** `_extract_context_from_history`: a loop collecting the labelled recent entries, then a join. */
  method ContextFromHistory(history: seq<Entry>) returns (context: string)
    ensures context == RecentContext(history)
  {
    var recent := if |history| > 3 then history[|history| - 3..] else history;
    var parts: seq<string> := [];
    for i := 0 to |recent|
      invariant parts == Labels(recent[..i])
    {
      var msg := recent[i];
      var role := if msg.role == "user" then "User" else "Agent";
      assert role + ": " + msg.content == Label(recent[i]);
      assert recent[..i + 1][..i] == recent[..i] && recent[..i + 1][i] == recent[i];
      parts := parts + [role + ": " + msg.content];
    }
    assert recent[..|recent|] == recent;
    assert recent == Recent(history);
    context := Join(" | ", parts);
  }

  /** Labels are never empty. */
  lemma {:induction false} LabelsNonEmpty(es: seq<Entry>)
    ensures forall i :: 0 <= i < |es| ==> Labels(es)[i] != []
    decreases |es|
  {
    if es != [] {
      LabelsNonEmpty(es[..|es| - 1]);
      assert |Label(es[|es| - 1])| >= 2;
    }
  }

  /** The context is empty exactly when the history is. */
  lemma RecentContextEmptyIff(history: seq<Entry>)
    ensures RecentContext(history) == "" <==> history == []
  {
    LabelsNonEmpty(Recent(history));
    JoinEmptyIff(" | ", Labels(Recent(history)));
  }

  /** Entries before the last three never reach the context. */
  lemma RecentContextIgnoresOlder(older: seq<Entry>, history: seq<Entry>)
    requires |history| >= 3
    ensures RecentContext(older + history) == RecentContext(history[|history| - 3..])
  {
    var h := older + history;
    assert h[|h| - 3..] == history[|history| - 3..];
  }

  /** The context uses at most three entries, each labelled by its role, in history order. */
  lemma {:induction false} LabelsAt(es: seq<Entry>, i: nat)
    requires i < |es|
    ensures Labels(es)[i] == Label(es[i])
    decreases |es|
  {
    if i < |es| - 1 {
      LabelsAt(es[..|es| - 1], i);
    }
  }

  /** The newest entry's content always appears in the context. */
  lemma RecentContextMentionsLast(history: seq<Entry>)
    requires history != []
    ensures Contains(RecentContext(history), history[|history| - 1].content)
  {
    var r := Recent(history);
    var ls := Labels(r);
    var last := history[|history| - 1];
    assert r[|r| - 1] == last;
    LabelsAt(r, |r| - 1);
    var role := if last.role == "user" then "User" else "Agent";
    ContainsMiddle(role + ": ", last.content, "");
    assert role + ": " + last.content + "" == Label(last);
    if |ls| == 1 {
      assert RecentContext(history) == Label(last);
    } else {
      var pre := Join(" | ", ls[..|ls| - 1]) + " | " + role + ": ";
      assert RecentContext(history) == pre + last.content + "";
      ContainsMiddle(pre, last.content, "");
    }
  }
}
