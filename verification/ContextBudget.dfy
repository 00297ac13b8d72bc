/** Keeping a conversation within a budget: compaction for the model's context window, and the clamp on the
    messages of a session. */
module ContextBudget {
  import opened Strings

  /** `partTokens` stands for the estimate of the content parts. */
  datatype Message = Message(role: string, content: string, partTokens: nat)

  const DEFAULT_CONTEXT_WINDOW: int := 120000
  const COMPACTION_KEEP_RECENT: nat := 60
  const MAX_PER_MESSAGE_RUNES: int := 640
  const MAX_SESSION_CONTEXT_MESSAGES: int := 200
  const SUMMARY_HEAD := "Conversation"
  const SUMMARY_TITLE := SUMMARY_HEAD + " compaction summary (older turns):"

  function EstimateTokens(value: string): nat {
    var runes := |Trim(value)|;
    runes / 4 + if runes % 4 != 0 then 1 else 0
  }

  function MessageTokens(m: Message): nat {
    EstimateTokens(m.role) + EstimateTokens(m.content) + m.partTokens + 4
  }

  function MessagesTokens(messages: seq<Message>): nat {
    if messages == [] then 0 else MessageTokens(messages[0]) + MessagesTokens(messages[1..])
  }

  function ConversationTokens(systemPrompt: string, messages: seq<Message>): nat {
    EstimateTokens(systemPrompt) + 8 + MessagesTokens(messages)
  }

  /** One token for every four characters, counted up. */
  lemma EstimateIsQuarter(value: string)
    ensures 4 * EstimateTokens(value) - 4 < |Trim(value)| <= 4 * EstimateTokens(value)
  {
    hide Trim;
  }

  /** What a message costs beside its parts and four tokens: a quarter of its characters, counted up for each text. */
  lemma MessageCost(m: Message)
    ensures var text := |Trim(m.role)| + |Trim(m.content)|;
            text <= 4 * (MessageTokens(m) - m.partTokens - 4) <= text + 6
  {
    hide Trim, EstimateTokens;
    EstimateIsQuarter(m.role);
    EstimateIsQuarter(m.content);
  }

  lemma {:induction false} TokensAdd(a: seq<Message>, b: seq<Message>)
    ensures MessagesTokens(a + b) == MessagesTokens(a) + MessagesTokens(b)
  {
    hide MessageTokens;
    if a == [] {
      assert a + b == b;
    } else {
      assert (a + b)[1..] == a[1..] + b;
      TokensAdd(a[1..], b);
    }
  }

  /** A conversation costs its prompt, eight tokens, and each of its messages once. */
  lemma ConversationCost(systemPrompt: string, before: seq<Message>, m: Message, after: seq<Message>)
    ensures ConversationTokens(systemPrompt, before + [m] + after)
            == ConversationTokens(systemPrompt, before + after) + MessageTokens(m)
    ensures |Trim(systemPrompt)| <= 4 * (ConversationTokens(systemPrompt, []) - 8) <= |Trim(systemPrompt)| + 3
  {
    hide MessageTokens, EstimateTokens, Trim;
    TokensAdd(before, [m] + after);
    TokensAdd(before, after);
    assert before + [m] + after == before + ([m] + after) && ([m] + after)[1..] == after;
    EstimateIsQuarter(systemPrompt);
  }

  function TruncateRunes(value: string, maxRunes: int): string {
    var trimmed := Trim(value);
    if maxRunes <= 0 || |trimmed| <= maxRunes then trimmed
    else if maxRunes <= 3 then trimmed[..maxRunes]
    else Trim(trimmed[..maxRunes - 3]) + "..."
  }

  lemma {:induction false} TrimLeftShortens(s: string)
    ensures |TrimLeft(s)| <= |s|
  {
    if s != [] {
      TrimLeftShortens(s[1..]);
    }
  }

  lemma {:induction false} TrimRightShortens(s: string)
    ensures |TrimRight(s)| <= |s|
  {
    if s != [] {
      TrimRightShortens(s[..|s| - 1]);
    }
  }

  lemma TrimShortens(s: string)
    ensures |Trim(s)| <= |s|
  {
    TrimLeftShortens(s);
    TrimRightShortens(TrimLeft(s));
  }

  /** A truncated text is within the limit, and never longer than the text was. */
  lemma TruncateFits(value: string, maxRunes: int)
    ensures maxRunes > 0 ==> |TruncateRunes(value, maxRunes)| <= maxRunes
    ensures |TruncateRunes(value, maxRunes)| <= |Trim(value)|
    ensures EstimateTokens(TruncateRunes(value, maxRunes)) <= EstimateTokens(value)
  {
    var trimmed := Trim(value);
    if maxRunes > 3 && |trimmed| > maxRunes {
      TrimShortens(trimmed[..maxRunes - 3]);
    }
    TrimShortens(TruncateRunes(value, maxRunes));
  }

  /** What a truncated text is: the whole trimmed text if that fits; else, for a limit over three, dots after its
      first characters, without white space at their end; else its first characters. */
  lemma TruncateKeeps(value: string, maxRunes: int)
    ensures var text, cut := Trim(value), TruncateRunes(value, maxRunes);
            if maxRunes <= 0 || |text| <= maxRunes then cut == text
            else if maxRunes <= 3 then cut == text[..maxRunes]
            else exists kept: string, space: string ::
                   && text[..maxRunes - 3] == kept + space && AllSpace(space)
                   && (kept != "" ==> !IsSpace(kept[|kept| - 1])) && cut == kept + "..."
  {
    var text := Trim(value);
    if maxRunes > 3 && |text| > maxRunes {
      var head := text[..maxRunes - 3];
      var _, _ := TrimParts(value);
      assert head[0] == text[0];
      var space := TrimRightParts(head);
      assert Trim(head) == TrimRight(head);
    }
  }

  predicate IsSystem(m: Message) {
    Lower(Trim(m.role)) == "system"
  }

  /** A system message is one whose role is the word, in any letter case and between white space. */
  lemma SystemMeans(m: Message, before: string, word: string, after: string)
    requires m.role == before + word + after && AllSpace(before) && AllSpace(after)
    requires word != "" && !IsSpace(word[0]) && !IsSpace(word[|word| - 1])
    ensures IsSystem(m) <==> Lower(word) == "system"
  {
    TrimBetween(before, word, after);
  }

  /** Removes the oldest message that is not the leading system message. */
  function DropOldest(messages: seq<Message>): (r: seq<Message>)
    requires |messages| > 2
    ensures |r| == |messages| - 1 && r[|r| - 1] == messages[|messages| - 1]
  {
    if IsSystem(messages[0]) then messages[..1] + messages[2..] else messages[1..]
  }

  function CutContent(m: Message): Message {
    m.(content := TruncateRunes(m.content, MAX_PER_MESSAGE_RUNES))
  }

  /** The conversation with the contents of its first n messages cut. */
  function CutFirst(messages: seq<Message>, n: nat): (r: seq<Message>)
    ensures |r| == |messages|
  {
    seq(|messages|, k requires 0 <= k < |messages| => if k < n then CutContent(messages[k]) else messages[k])
  }

  /** The conversation after its oldest messages were dropped until n are left. */
  function DropTo(messages: seq<Message>, n: nat): (r: seq<Message>)
    requires 2 <= n <= |messages|
    ensures |r| == n
    decreases |messages| - n
  {
    if n == |messages| then messages else DropOldest(DropTo(messages, n + 1))
  }

  /** As few contents as possible are cut: all but the last if even that is not enough. */
  ghost predicate CutEnough(systemPrompt: string, messages: seq<Message>, budget: int, n: nat) {
    && n < |messages|
    && (forall k: nat :: k < n ==> ConversationTokens(systemPrompt, CutFirst(messages, k)) > budget)
    && (ConversationTokens(systemPrompt, CutFirst(messages, n)) <= budget || n == |messages| - 1)
  }

  /** As few messages as possible are dropped: all but two if even that is not enough. */
  ghost predicate DroppedEnough(systemPrompt: string, messages: seq<Message>, budget: int, r: seq<Message>) {
    if |messages| <= 2 then r == messages
    else
      && 2 <= |r| <= |messages| && r == DropTo(messages, |r|)
      && (forall k: nat :: |r| < k <= |messages| ==> ConversationTokens(systemPrompt, DropTo(messages, k)) > budget)
      && (ConversationTokens(systemPrompt, r) <= budget || |r| == 2)
  }

  /** Cuts contents from the front while the conversation is over the budget, then drops messages from the front,
      except the first system message that is reached. */
  method TruncateCompacted(systemPrompt: string, messages: seq<Message>, budget: int) returns (r: seq<Message>)
    ensures messages == [] ==> r == []
    ensures messages != [] ==>
              exists n: nat ::
                && CutEnough(systemPrompt, messages, budget, n)
                && DroppedEnough(systemPrompt, CutFirst(messages, n), budget, r)
  {
    hide ConversationTokens, TruncateRunes, IsSystem, DropOldest, DropTo, CutFirst;
    if messages == [] {
      return [];
    }
    r := messages;
    NothingCut(messages);
    var i := 0;
    while i < |r| - 1 && ConversationTokens(systemPrompt, r) > budget
      invariant 0 <= i <= |r| - 1 && r == CutFirst(messages, i)
      invariant forall k: nat :: k < i ==> ConversationTokens(systemPrompt, CutFirst(messages, k)) > budget
    {
      CutNext(messages, i);
      r := r[i := r[i].(content := TruncateRunes(r[i].content, MAX_PER_MESSAGE_RUNES))];
      i := i + 1;
    }
    ghost var cut := r;
    NothingDropped(cut);
    while ConversationTokens(systemPrompt, r) > budget && |r| > 2
      invariant |cut| <= 2 ==> r == cut
      invariant |cut| > 2 ==> 2 <= |r| <= |cut| && r == DropTo(cut, |r|)
      invariant |cut| > 2 ==>
                  forall k: nat :: |r| < k <= |cut| ==> ConversationTokens(systemPrompt, DropTo(cut, k)) > budget
      decreases |r|
    {
      DropNext(cut, |r|);
      r := DropOldest(r);
    }
    assert CutEnough(systemPrompt, messages, budget, i);
    assert DroppedEnough(systemPrompt, cut, budget, r);
  }

  lemma NothingCut(messages: seq<Message>)
    ensures CutFirst(messages, 0) == messages
  {
  }

  lemma CutNext(messages: seq<Message>, i: nat)
    requires i < |messages|
    ensures CutFirst(messages, i)[i := CutContent(CutFirst(messages, i)[i])] == CutFirst(messages, i + 1)
  {
  }

  lemma NothingDropped(messages: seq<Message>)
    ensures |messages| >= 2 ==> DropTo(messages, |messages|) == messages
  {
  }

  lemma DropNext(messages: seq<Message>, n: nat)
    requires 2 < n <= |messages|
    ensures DropOldest(DropTo(messages, n)) == DropTo(messages, n - 1)
  {
  }

  /** What is left are the last messages and, before them, message number `head`. Only a system message is kept while
      later ones are dropped, and none before it was kept. */
  ghost predicate KeptWithHead(messages: seq<Message>, r: seq<Message>, head: nat) {
    && r != [] && |r| <= |messages| && head <= |messages| - |r|
    && r == [messages[head]] + messages[|messages| - |r| + 1..]
    && (head < |messages| - |r| ==> IsSystem(messages[head]))
    && (forall j :: 0 <= j < head ==> !IsSystem(messages[j]))
  }

  /** Dropping messages leaves the last ones and perhaps the first system message. */
  lemma {:induction false} DropKeepsHead(messages: seq<Message>, n: nat) returns (head: nat)
    requires 2 <= n <= |messages|
    ensures KeptWithHead(messages, DropTo(messages, n), head)
    decreases |messages| - n
  {
    hide KeptWithHead, DropOldest;
    if n == |messages| {
      head := 0;
      AllKept(messages);
    } else {
      var before := DropKeepsHead(messages, n + 1);
      head := HeadStep(messages, DropTo(messages, n + 1), before);
    }
  }

  lemma AllKept(messages: seq<Message>)
    requires messages != []
    ensures KeptWithHead(messages, messages, 0)
  {
    assert messages == [messages[0]] + messages[1..];
  }

  lemma HeadStep(messages: seq<Message>, r: seq<Message>, before: nat) returns (head: nat)
    requires KeptWithHead(messages, r, before) && |r| > 2
    ensures KeptWithHead(messages, DropOldest(r), head)
  {
    hide IsSystem;
    head := if IsSystem(r[0]) then before else before + 1;
    var tail := messages[|messages| - |r| + 1..];
    assert r[1..] == tail;
    assert r[..1] + r[2..] == [messages[before]] + tail[1..];
    assert tail[1..] == messages[|messages| - |r| + 2..];
    assert tail == [tail[0]] + tail[1..];
  }

  /** How many of n messages are summarised at first. */
  function DropCount(n: nat): (r: nat)
    requires n > 0
    ensures 1 <= r <= n && (n >= 2 ==> r < n) && (r > 1 ==> n - r >= 8)
  {
    var half := if COMPACTION_KEEP_RECENT >= n then n / 2 else COMPACTION_KEEP_RECENT;
    var atLeast := if half < 8 then 8 else half;
    var keep := if atLeast > n then n else atLeast;
    if n - keep < 1 then 1 else n - keep
  }

  /** Up to eight messages lose one, up to fifteen all but eight, up to sixty half of them, and more all but sixty. */
  lemma DropCountExactly(n: nat)
    requires n > 0
    ensures n <= 8 ==> DropCount(n) == 1
    ensures 8 < n < 16 ==> DropCount(n) == n - 8
    ensures 16 <= n <= 60 ==> DropCount(n) + DropCount(n) - n in {0, 1}
    ensures n > 60 ==> DropCount(n) == n - 60
  {
  }

  /** The summary of the dropped messages; `lines` gives the text below the title. */
  function Summary(lines: seq<Message> -> string, dropped: seq<Message>): string {
    Trim(SUMMARY_TITLE + "\n" + lines(dropped))
  }

  function SummaryMessage(lines: seq<Message> -> string, dropped: seq<Message>): Message {
    Message("system", Summary(lines, dropped), 0)
  }

  lemma SummaryNotEmpty(lines: seq<Message> -> string, dropped: seq<Message>)
    ensures Summary(lines, dropped) != "" && IsSystem(SummaryMessage(lines, dropped))
  {
    hide TrimLeft, TrimRight;
    var text := SUMMARY_TITLE + "\n" + lines(dropped);
    assert SUMMARY_HEAD[0] == 'C' && SUMMARY_HEAD[|SUMMARY_HEAD| - 1] == 'n';
    TrimKeepsPrefix(text, SUMMARY_HEAD);
    SystemIsSystem();
  }

  /** The summary is the title and, below it, the given lines, without white space at their end. */
  lemma SummaryHolds(lines: seq<Message> -> string, dropped: seq<Message>, text: string, space: string)
    requires lines(dropped) == text + space && AllSpace(space) && (text != "" ==> !IsSpace(text[|text| - 1]))
    ensures Summary(lines, dropped) == if text == "" then SUMMARY_TITLE else SUMMARY_TITLE + "\n" + text
  {
    hide Trim;
    var title := SUMMARY_TITLE;
    assert title[0] == 'C' && title[|title| - 1] == ':';
    TrimTitled(title, text, space);
  }

  lemma TrimTitled(title: string, text: string, space: string)
    requires title != "" && !IsSpace(title[0]) && !IsSpace(title[|title| - 1]) && AllSpace(space)
    requires text != "" ==> !IsSpace(text[|text| - 1])
    ensures Trim(title + "\n" + (text + space)) == if text == "" then title else title + "\n" + text
  {
    hide Trim;
    var core := if text == "" then title else title + "\n" + text;
    var after := if text == "" then "\n" + space else space;
    assert title + "\n" + (text + space) == [] + core + after;
    TrimBetween([], core, after);
  }

  lemma SystemIsSystem()
    ensures Lower(Trim("system")) == "system"
  {
    assert TrimLeft("system") == "system" && TrimRight("system") == "system";
  }

  function Budget(contextWindow: int): int {
    (if contextWindow <= 0 then DEFAULT_CONTEXT_WINDOW else contextWindow) * 4 / 5
  }

  /** The conversation with everything before position k replaced by the summary. */
  function Compacted(summary: Message, messages: seq<Message>, k: nat): seq<Message>
    requires k <= |messages|
  {
    [summary] + messages[k..]
  }

  /** Everything from the first kept position up to k was still over the budget. */
  ghost predicate OverBefore(systemPrompt: string, summary: Message, messages: seq<Message>, budget: int,
                             from: nat, k: nat) {
    k <= |messages| && forall j :: from <= j < k ==>
      ConversationTokens(systemPrompt, Compacted(summary, messages, j)) > budget
  }

  /** Compaction of a conversation that is over the budget: a summary and the messages from position k on, where
      k is the first position that fits the budget, or else leaves one message. Only in that last case the
      summary is cut. */
  ghost predicate CompactedAt(systemPrompt: string, summary: Message, messages: seq<Message>, budget: int,
                              from: nat, k: nat, r: seq<Message>) {
    && from <= k < |messages| && OverBefore(systemPrompt, summary, messages, budget, from, k)
    && r != [] && r[1..] == messages[k..]
    && if ConversationTokens(systemPrompt, Compacted(summary, messages, k)) <= budget then r[0] == summary
       else k == |messages| - 1 && r[0] == CutContent(summary)
  }

  /** A single message over the budget is lost: only the summary remains. */
  method Compact(systemPrompt: string, messages: seq<Message>, contextWindow: int, lines: seq<Message> -> string)
    returns (r: seq<Message>)
    ensures var budget := Budget(contextWindow);
            if messages == [] || budget <= 0 || ConversationTokens(systemPrompt, messages) <= budget then r == messages
            else
              var from := DropCount(|messages|);
              var summary := SummaryMessage(lines, messages[..from]);
              if |messages| == 1 then r == [summary]
              else exists k :: CompactedAt(systemPrompt, summary, messages, budget, from, k, r)
    ensures contextWindow <= 0 && ConversationTokens(systemPrompt, messages) <= 96000 ==> r == messages
  {
    if messages == [] {
      return messages;
    }
    var window := contextWindow;
    if window <= 0 {
      window := DEFAULT_CONTEXT_WINDOW;
    }
    var budget := window * 4 / 5;
    if budget <= 0 {
      return messages;
    }
    if ConversationTokens(systemPrompt, messages) <= budget {
      return messages;
    }
    hide ConversationTokens, Summary, TruncateRunes, DropCount, OverBefore, CutEnough, DroppedEnough;
    var from := DropCount(|messages|);
    var dropped, kept := messages[..from], messages[from..];
    r := [];
    var summary := Summary(lines, dropped);
    SummaryNotEmpty(lines, dropped);
    if summary != "" {
      r := [Message("system", summary, 0)];
    }
    r := r + kept;
    ghost var k := from;
    while ConversationTokens(systemPrompt, r) > budget && |r| > 2
      invariant from <= k <= |messages| && (|messages| >= 2 ==> k < |messages|)
      invariant r == Compacted(SummaryMessage(lines, dropped), messages, k)
      invariant OverBefore(systemPrompt, SummaryMessage(lines, dropped), messages, budget, from, k)
      decreases |r|
    {
      DropStep(systemPrompt, SummaryMessage(lines, dropped), messages, budget, from, k);
      r := DropOldest(r);
      k := k + 1;
    }
    if ConversationTokens(systemPrompt, r) > budget {
      ghost var whole := r;
      r := TruncateCompacted(systemPrompt, r, budget);
      TruncatedPair(systemPrompt, whole, budget, r);
    }
    if |messages| >= 2 {
      Ends(systemPrompt, SummaryMessage(lines, dropped), messages, budget, from, k, r);
    }
  }

  lemma DropStep(systemPrompt: string, summary: Message, messages: seq<Message>, budget: int, from: nat, k: nat)
    requires IsSystem(summary) && from <= k && k + 1 < |messages|
    requires OverBefore(systemPrompt, summary, messages, budget, from, k)
    requires ConversationTokens(systemPrompt, Compacted(summary, messages, k)) > budget
    ensures |Compacted(summary, messages, k)| > 2
    ensures DropOldest(Compacted(summary, messages, k)) == Compacted(summary, messages, k + 1)
    ensures OverBefore(systemPrompt, summary, messages, budget, from, k + 1)
  {
    hide ConversationTokens;
    var r := Compacted(summary, messages, k);
    assert r[..1] + r[2..] == Compacted(summary, messages, k + 1);
  }

  /** Of two messages over the budget the first is cut, a single one stays. */
  lemma TruncatedPair(systemPrompt: string, whole: seq<Message>, budget: int, r: seq<Message>)
    requires 1 <= |whole| <= 2 && ConversationTokens(systemPrompt, whole) > budget
    requires exists n: nat ::
               CutEnough(systemPrompt, whole, budget, n) && DroppedEnough(systemPrompt, CutFirst(whole, n), budget, r)
    ensures r == CutFirst(whole, |whole| - 1)
  {
    hide ConversationTokens, CutFirst;
    NothingCut(whole);
  }

  lemma Ends(systemPrompt: string, summary: Message, messages: seq<Message>, budget: int, from: nat, k: nat,
             r: seq<Message>)
    requires from <= k < |messages| && OverBefore(systemPrompt, summary, messages, budget, from, k)
    requires var whole := Compacted(summary, messages, k);
             if ConversationTokens(systemPrompt, whole) <= budget then r == whole
             else |whole| <= 2 && r == CutFirst(whole, 1)
    ensures CompactedAt(systemPrompt, summary, messages, budget, from, k, r)
  {
    hide ConversationTokens, OverBefore;
    var whole := Compacted(summary, messages, k);
    assert whole[1..] == messages[k..];
    if ConversationTokens(systemPrompt, whole) > budget {
      assert r[1..] == [messages[k]];
    }
  }

  /** The characters of the messages, without white space at the ends of each. */
  function ContextChars(messages: seq<Message>): nat {
    if messages == [] then 0 else |Trim(messages[0].content)| + ContextChars(messages[1..])
  }

  /** Each message counts once, with the characters of its trimmed content. */
  lemma {:induction false} CharsAdd(before: seq<Message>, m: Message, after: seq<Message>)
    ensures ContextChars(before + [m] + after) == ContextChars(before + after) + |Trim(m.content)|
  {
    hide Trim;
    if before == [] {
      assert before + [m] + after == [m] + after && before + after == after;
    } else {
      assert (before + [m] + after)[1..] == before[1..] + [m] + after && (before + after)[1..] == before[1..] + after;
      CharsAdd(before[1..], m, after);
    }
  }

  function MessageLimit(maxMessages: int): int {
    if maxMessages <= 0 then MAX_SESSION_CONTEXT_MESSAGES else maxMessages
  }

  /** The messages from position k on are within both limits; a limit of no characters counts as no limit. */
  ghost predicate Fits(messages: seq<Message>, maxMessages: int, maxChars: int, k: nat) {
    && k <= |messages| && |messages| - k <= MessageLimit(maxMessages)
    && (maxChars > 0 ==> ContextChars(messages[k..]) <= maxChars)
  }

  /** The longest suffix that fits starts at k. */
  ghost predicate LongestFrom(messages: seq<Message>, maxMessages: int, maxChars: int, k: nat) {
    && Fits(messages, maxMessages, maxChars, k)
    && forall j: nat :: j < k ==> !Fits(messages, maxMessages, maxChars, j)
  }

  /** Clamps a session to the longest suffix within both limits. If not even the last message fits, it is cut so
      that it does. */
  method ClampSessionContext(messages: seq<Message>, maxMessages: int, maxChars: int) returns (out: seq<Message>)
    ensures messages == [] ==> out == []
    ensures |out| <= if maxMessages > 0 then maxMessages else 200
    ensures messages != [] ==>
              || (exists k: nat ::
                    k < |messages| && LongestFrom(messages, maxMessages, maxChars, k) && out == messages[k..])
              || (&& maxChars > 0 && LongestFrom(messages, maxMessages, maxChars, |messages|)
                  && out == [Cut(messages[|messages| - 1], maxChars)] && ContextChars(out) <= maxChars)
  {
    if messages == [] {
      return [];
    }
    var limit := maxMessages;
    if limit <= 0 {
      limit := MAX_SESSION_CONTEXT_MESSAGES;
    }
    out := messages;
    ghost var k: nat := 0;
    if |out| > limit {
      k := |messages| - limit;
      out := out[|out| - limit..];
    }
    if maxChars <= 0 {
      assert LongestFrom(messages, maxMessages, maxChars, k);
      return;
    }
    while |out| > 1 && ContextChars(out) > maxChars
      invariant k < |messages| && out == messages[k..] && |out| <= limit
      invariant forall j: nat :: j < k ==> !Fits(messages, maxMessages, maxChars, j)
      decreases |out|
    {
      out := out[1..];
      k := k + 1;
    }
    if |out| == 1 && ContextChars(out) > maxChars {
      CutFits(out[0], maxChars);
      out := [Cut(out[0], maxChars)];
      assert LongestFrom(messages, maxMessages, maxChars, |messages|);
    } else {
      assert LongestFrom(messages, maxMessages, maxChars, k);
    }
  }

  function Cut(m: Message, maxChars: int): Message {
    m.(content := TruncateRunes(m.content, maxChars))
  }

  lemma CutFits(m: Message, maxChars: int)
    requires maxChars > 0
    ensures ContextChars([Cut(m, maxChars)]) <= maxChars
  {
    var text := TruncateRunes(m.content, maxChars);
    TruncateFits(m.content, maxChars);
    TrimShortens(text);
    assert ContextChars([Cut(m, maxChars)]) == |Trim(text)| + ContextChars([]);
  }
}
