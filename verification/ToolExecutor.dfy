/** The tool executor of a run: maps and counters that implement the ledger's decisions. */
module ToolExecutor {
  import opened Strings
  import opened ToolCalls
  import opened ToolLedger
  import opened AgentCreation
  import opened FailureTracking

  /** What the real executor answers: a result, and an error when execution itself failed. */
  datatype ToolReply = ToolReply(result: ToolResult, error: Option<string>, timedOut: bool)

  function Settle(reply: ToolReply, id: string, timeoutMs: nat): ToolResult {
    var result := if reply.result.id == "" then reply.result.(id := id) else reply.result;
    match reply.error
    case None => result
    case Some(error) =>
      if reply.timedOut && !Contains(Lower(error), "timeout") then
        result.(error := "timeout: tool execution exceeded " + Decimal(timeoutMs) + "ms")
      else result.(error := error)
  }

  /** The reply says that the call succeeded: no error of the execution but a blank one, and none in the result
      if there was none. */
  predicate RepliesSuccess(reply: ToolReply) {
    match reply.error
    case None => Trim(reply.result.error) == ""
    case Some(error) => Trim(error) == "" && !reply.timedOut
  }

  /** What a result has to say of the reply it was made from: its output, and its error; that of the execution comes
      first, and one that timed out names the timeout. The call succeeded exactly if the reply says so. */
  ghost predicate Tells(reply: ToolReply, id: string, result: ToolResult) {
    && result.output == reply.result.output
    && result.id == (if reply.result.id == "" then id else reply.result.id)
    && (result.Succeeded() <==> RepliesSuccess(reply))
    && (reply.error.None? ==> result.error == reply.result.error)
    && (reply.error.Some? && !reply.timedOut ==> result.error == reply.error.value)
    && (reply.error.Some? && reply.timedOut ==> Contains(Lower(result.error), "timeout"))
    && (reply.error.Some? && Contains(Lower(reply.error.value), "timeout") ==> result.error == reply.error.value)
  }

  lemma SettleMeaning(reply: ToolReply, id: string, timeoutMs: nat)
    ensures Tells(reply, id, Settle(reply, id, timeoutMs))
  {
    var notice := "timeout: tool execution exceeded " + Decimal(timeoutMs) + "ms";
    assert notice[..|"timeout"|] == "timeout";
    TrimKeepsPrefix(notice, "timeout");
    LowerContainsPrefix(notice, "timeout");
    if reply.error.Some? && Trim(reply.error.value) == "" {
      BlankContainsNothing(reply.error.value, "timeout");
    }
  }

  lemma BlankContainsNothing(s: string, word: string)
    requires Trim(s) == "" && word != [] && Lower(word) == word && !IsSpace(word[0])
    ensures !Contains(Lower(s), word)
  {
    var before, after := TrimParts(s);
    assert s == before + after;
    forall i: nat | i + |word| <= |s|
      ensures !OccursAt(Lower(s), word, i)
    {
      assert IsSpace(s[i]) && Lower(s)[i..i + |word|][0] == s[i];
    }
  }

  function Signature(r: ToolResult): string {
    Trim(r.output) + "\0" + Trim(r.error)
  }

  /** Outcomes are told apart by their output and error, white space around them aside; only an output with a zero
      character can look like another outcome. */
  lemma SignatureMeans(a: ToolResult, b: ToolResult)
    ensures Trim(a.output) == Trim(b.output) && Trim(a.error) == Trim(b.error) ==> Signature(a) == Signature(b)
    ensures '\0' !in Trim(a.output) && '\0' !in Trim(b.output) && Signature(a) == Signature(b) ==>
              Trim(a.output) == Trim(b.output) && Trim(a.error) == Trim(b.error)
  {
    hide Trim;
    var x, y := Trim(a.output), Trim(b.output);
    if '\0' !in x && '\0' !in y && Signature(a) == Signature(b) {
      var s := Signature(a);
      assert s[..|x|] == x && s[..|y|] == y && s[|x|] == '\0' && s[|y|] == '\0';
      forall k | 0 <= k < |x|
        ensures s[k] != '\0'
      {
        assert s[k] == x[k];
      }
      forall k | 0 <= k < |y|
        ensures s[k] != '\0'
      {
        assert s[k] == y[k];
      }
      assert s[|x| + 1..] == Trim(a.error) && s[|y| + 1..] == Trim(b.error);
    }
  }

  /** An execution is progress unless an uncacheable call just repeats its previous output. */
  predicate Fresh(log: Ledger, e: Event) {
    && e.disposition == Executed
    && (e.keys.cache == NO_CACHE_KEY ==>
          var h := History(log, Stable(e.keys.stable)); h == [] || Signature(Last(h)) != Signature(e.result))
  }

  /** How a call is handled after the ledger `before`: as the ledger decides, and if that means executing
      it, with the executor's answer to invocation number `n`. */
  ghost predicate Handled(before: Ledger, call: ToolCall, e: Event, tools: (nat, ToolCall) -> ToolReply, n: nat,
                          timeoutMs: nat, progress: bool)
  {
    && e.id == call.id && e.keys == KeysOf(call)
    && Follows(before, e)
    && (e.disposition == Executed ==> e.result == Settle(tools(n, call), call.id, timeoutMs))
    && progress == Fresh(before, e)
  }

  ghost predicate FreshAt(log: Ledger, j: nat)
    requires j < |log|
  {
    Fresh(log[..j], log[j])
  }

  /** Record number i is the record of this call, under its assigned id. */
  ghost predicate Recorded(records: seq<ToolRecord>, i: nat, call: ToolCall) {
    i < |records| && records[i].request == call.(id := records[i].request.id)
  }

  /** From position `start` on, the records are those of the calls, in order. */
  ghost predicate BatchRecorded(records: seq<ToolRecord>, start: nat, calls: seq<ToolCall>) {
    && |records| == start + |calls|
    && forall i: nat :: i < |calls| ==> Recorded(records, start + i, calls[i])
  }

  ghost predicate AnyFresh(log: Ledger, start: nat) {
    exists j: nat :: start <= j < |log| && FreshAt(log, j)
  }

  ghost predicate AnyMutationBlocked(log: Ledger, start: nat) {
    exists j: nat :: start <= j < |log| && log[j].disposition == MutationBlocked
  }

  lemma EmptyBatch(records: seq<ToolRecord>, log: Ledger)
    ensures BatchRecorded(records, |records|, [])
    ensures !AnyFresh(log, |log|) && !AnyMutationBlocked(log, |log|)
  {
  }

  lemma BatchRecordedStep(records: seq<ToolRecord>, start: nat, calls: seq<ToolCall>, record: ToolRecord,
                          call: ToolCall)
    requires BatchRecorded(records, start, calls) && record.request == call.(id := record.request.id)
    ensures BatchRecorded(records + [record], start, calls + [call])
  {
    forall i: nat | i <= |calls|
      ensures Recorded(records + [record], start + i, (calls + [call])[i])
    {
      assert i < |calls| ==> Recorded(records, start + i, calls[i]);
    }
  }

  lemma AnyFreshStep(log: Ledger, e: Event, start: nat)
    requires start <= |log|
    ensures AnyFresh(log + [e], start) <==> AnyFresh(log, start) || Fresh(log, e)
  {
    hide Fresh;
    assert (log + [e])[..|log|] == log;
    assert FreshAt(log + [e], |log|) == Fresh(log, e);
    forall j: nat | j < |log|
      ensures FreshAt(log + [e], j) == FreshAt(log, j)
    {
      assert (log + [e])[..j] == log[..j];
    }
  }

  lemma AnyMutationBlockedStep(log: Ledger, e: Event, start: nat)
    requires start <= |log|
    ensures AnyMutationBlocked(log + [e], start)
       <==> AnyMutationBlocked(log, start) || e.disposition == MutationBlocked
  {
    assert (log + [e])[|log|] == e;
    assert forall j: nat :: j < |log| ==> (log + [e])[j] == log[j];
  }

  /** Candidate n for a call id: the requested id, then the id with a numeric suffix. */
  function Candidate(base: string, n: nat): string {
    if n <= 1 then base else base + "-" + Decimal(n)
  }

  function IdBase(raw: string, ordinal: nat): string {
    if Trim(raw) == "" then "tool-call-" + Decimal(ordinal) else Trim(raw)
  }

  /** Candidate n is the id, and it is the first one not in use. */
  ghost predicate FirstFree(base: string, used: set<string>, id: string, n: nat) {
    && 1 <= n && id == Candidate(base, n) && id !in used
    && forall m :: 1 <= m < n ==> Candidate(base, m) in used
  }

  lemma CandidatesDiffer(base: string, m: nat, n: nat)
    requires 1 <= m < n
    ensures Candidate(base, m) != Candidate(base, n)
  {
    if m == 1 {
      assert |Candidate(base, n)| > |base|;
    } else if Candidate(base, m) == Candidate(base, n) {
      assert Decimal(m) == Candidate(base, m)[|base| + 1..];
      assert Decimal(n) == Candidate(base, n)[|base| + 1..];
      DecimalInjective(m, n);
    }
  }

  /** Takes the first free candidate; the search ends because every candidate it skips is in use. */
  method FreeId(base: string, used: set<string>) returns (id: string, ghost n: nat)
    ensures FirstFree(base, used, id, n) && id !in used
  {
    id := base;
    var suffix := 2;
    ghost var tried: set<string> := {};
    while id in used
      invariant suffix >= 2 && id == Candidate(base, suffix - 1)
      invariant forall m :: 1 <= m < suffix - 1 ==> Candidate(base, m) in tried
      invariant forall x :: x in tried ==> exists m :: 1 <= m < suffix - 1 && x == Candidate(base, m)
      invariant tried <= used
      decreases |used - tried|
    {
      assert id !in tried by {
        if id in tried {
          var m :| 1 <= m < suffix - 1 && id == Candidate(base, m);
          CandidatesDiffer(base, m, suffix - 1);
        }
      }
      assert used - (tried + {id}) == (used - tried) - {id};
      tried := tried + {id};
      id := base + "-" + Decimal(suffix);
      suffix := suffix + 1;
    }
    n := suffix - 1;
  }

  // What each map of the executor has to hold, given the ledger.

  ghost predicate CountersAgree(log: Ledger, repetition: map<string, nat>) {
    forall k :: CounterAgrees(log, repetition, k)
  }

  ghost predicate CounterAgrees(log: Ledger, repetition: map<string, nat>, k: string) {
    CountUnder(repetition, k) == Attempts(log, k)
  }

  ghost predicate MutationsAgree(log: Ledger, succeeded: set<string>) {
    forall k :: MutationAgrees(log, succeeded, k)
  }

  ghost predicate MutationAgrees(log: Ledger, succeeded: set<string>, k: string) {
    k in succeeded <==> EndsInSuccess(History(log, OneShot(k)))
  }

  /** The caches of a run: outcomes to replay, and the last failure of keys that may still be executed. */
  datatype Caches = Caches(
    results: map<string, ToolResult>,
    failures: map<string, ToolResult>,
    failureCounts: map<string, nat>,
    failureErrors: map<string, string>)

  ghost predicate CachesAgree(log: Ledger, caches: Caches) {
    forall k :: CacheAgrees(log, caches, k)
  }

  ghost predicate CacheAgrees(log: Ledger, caches: Caches, k: string) {
    k != NO_CACHE_KEY ==> KeyAgrees(History(log, Cached(k)), k, caches)
  }

  ghost predicate KeyAgrees(h: seq<ToolResult>, k: string, caches: Caches) {
    && (k in caches.results <==> EndsInSuccess(h))
    && (k in caches.results ==> caches.results[k] == ToolResult("", Last(h).output, ""))
    && (k in caches.failures <==> EndsInSameFailure(h))
    && (k in caches.failures ==> caches.failures[k] == ToolResult("", Last(h).output, Last(h).error))
    && (k in caches.failureErrors <==> h != [] && !Last(h).Succeeded())
    && (k in caches.failureErrors ==> caches.failureErrors[k] == Trim(Last(h).error))
    && (k in caches.failureErrors <==> k in caches.failureCounts)
    && (k in caches.failureCounts ==> caches.failureCounts[k] == if EndsInSameFailure(h) then 2 else 1)
  }

  /** What was stored about outcomes: succeeded mutations, cached results, last uncacheable outputs. */
  datatype Books = Books(mutations: set<string>, caches: Caches, outputs: map<string, string>)

  ghost predicate BooksAgree(log: Ledger, books: Books) {
    MutationsAgree(log, books.mutations) && CachesAgree(log, books.caches) && OutputsAgree(log, books.outputs)
  }

  ghost predicate OutputsAgree(log: Ledger, outputs: map<string, string>) {
    forall k :: OutputAgrees(log, outputs, k)
  }

  ghost predicate OutputAgrees(log: Ledger, outputs: map<string, string>, k: string) {
    var h := History(log, Stable(k));
    (k in outputs <==> h != []) && (h != [] ==> outputs[k] == Signature(Last(h)))
  }

  lemma AppendEvent(log: Ledger, e: Event, s: Subject)
    ensures History(log + [e], s)
         == History(log, s) + if e.disposition == Executed && Concerns(e.keys, s) then [e.result] else []
  {
    assert Init(log + [e]) == log;
  }

  lemma AppendAttempt(log: Ledger, e: Event, k: string)
    ensures Attempts(log + [e], k) == Attempts(log, k) + Bumps(e.keys, e.disposition, k)
  {
    assert Init(log + [e]) == log;
  }

  ghost predicate CounterBumped(before: map<string, nat>, after: map<string, nat>, keys: Keys, d: Disposition,
                                k: string)
  {
    CountUnder(after, k) == CountUnder(before, k) + Bumps(keys, d, k)
  }

  ghost predicate Bumped(before: map<string, nat>, after: map<string, nat>, keys: Keys, d: Disposition) {
    forall k :: CounterBumped(before, after, keys, d, k)
  }

  /** Advancing each counter by the event's bumps keeps the counters in step with the ledger. */
  lemma BumpsAgree(log: Ledger, e: Event, before: map<string, nat>, after: map<string, nat>)
    requires CountersAgree(log, before) && Bumped(before, after, e.keys, e.disposition)
    ensures CountersAgree(log + [e], after)
  {
    forall k
      ensures CounterAgrees(log + [e], after, k)
    {
      assert CounterAgrees(log, before, k);
      assert CounterBumped(before, after, e.keys, e.disposition, k);
      AppendAttempt(log, e, k);
    }
  }

  /** An event that executes nothing leaves every outcome map right. */
  lemma UnexecutedKeepsBooks(log: Ledger, e: Event, books: Books)
    requires e.disposition != Executed && BooksAgree(log, books)
    ensures BooksAgree(log + [e], books)
  {
    forall k
      ensures MutationAgrees(log + [e], books.mutations, k)
      ensures CacheAgrees(log + [e], books.caches, k)
      ensures OutputAgrees(log + [e], books.outputs, k)
    {
      assert MutationAgrees(log, books.mutations, k);
      assert CacheAgrees(log, books.caches, k);
      assert OutputAgrees(log, books.outputs, k);
      AppendEvent(log, e, OneShot(k));
      AppendEvent(log, e, Cached(k));
      AppendEvent(log, e, Stable(k));
    }
  }

  function StoreOutcome(caches: Caches, key: string, r: ToolResult): Caches {
    if r.Succeeded() then
      Caches(caches.results[key := ToolResult("", r.output, "")], caches.failures - {key},
             caches.failureCounts - {key}, caches.failureErrors - {key})
    else
      var again := key in caches.failureErrors && caches.failureErrors[key] == Trim(r.error);
      var count := if again then CountUnder(caches.failureCounts, key) + 1 else 1;
      Caches(caches.results,
             if count >= 2 then caches.failures[key := ToolResult("", r.output, r.error)] else caches.failures,
             caches.failureCounts[key := count],
             caches.failureErrors[key := Trim(r.error)])
  }

  lemma StoreOutcomeAgrees(h: seq<ToolResult>, key: string, caches: Caches, r: ToolResult)
    requires KeyAgrees(h, key, caches) && !Settled(h)
    ensures KeyAgrees(h + [r], key, StoreOutcome(caches, key, r))
  {
    var h' := h + [r];
    assert Last(h') == r;
    if |h| >= 1 {
      assert h'[|h'| - 2] == Last(h);
    }
  }

  lemma StoreElsewhereAgrees(h: seq<ToolResult>, k: string, key: string, caches: Caches, r: ToolResult)
    requires KeyAgrees(h, k, caches) && k != key
    ensures KeyAgrees(h, k, StoreOutcome(caches, key, r))
  {
  }

  function CachesAfter(caches: Caches, e: Event): Caches {
    if e.keys.cache == NO_CACHE_KEY then caches else StoreOutcome(caches, e.keys.cache, e.result)
  }

  lemma ExecutedKeepsCache(log: Ledger, e: Event, caches: Caches, k: string)
    requires e.disposition == Executed && CacheAgrees(log, caches, k)
    requires k == e.keys.cache != NO_CACHE_KEY ==> !Settled(History(log, Cached(k)))
    ensures CacheAgrees(log + [e], CachesAfter(caches, e), k)
  {
    if k != NO_CACHE_KEY {
      AppendEvent(log, e, Cached(k));
      if k == e.keys.cache {
        StoreOutcomeAgrees(History(log, Cached(k)), k, caches, e.result);
      } else if e.keys.cache != NO_CACHE_KEY {
        StoreElsewhereAgrees(History(log, Cached(k)), k, e.keys.cache, caches, e.result);
      }
    }
  }

  lemma ExecutedKeepsCaches(log: Ledger, e: Event, caches: Caches)
    requires e.disposition == Executed && CachesAgree(log, caches)
    requires e.keys.cache != NO_CACHE_KEY ==> !Settled(History(log, Cached(e.keys.cache)))
    ensures CachesAgree(log + [e], CachesAfter(caches, e))
  {
    forall k
      ensures CacheAgrees(log + [e], CachesAfter(caches, e), k)
    {
      assert CacheAgrees(log, caches, k);
      ExecutedKeepsCache(log, e, caches, k);
    }
  }

  lemma ExecutedKeepsMutations(log: Ledger, e: Event, succeeded: set<string>)
    requires e.disposition == Executed && MutationsAgree(log, succeeded)
    requires e.keys.shot.Some? ==> !EndsInSuccess(History(log, OneShot(e.keys.shot.value)))
    ensures MutationsAgree(log + [e],
                           if e.keys.shot.Some? && e.result.Succeeded() then succeeded + {e.keys.shot.value}
                           else succeeded)
  {
    var succeeded' :=
      if e.keys.shot.Some? && e.result.Succeeded() then succeeded + {e.keys.shot.value} else succeeded;
    forall k
      ensures MutationAgrees(log + [e], succeeded', k)
    {
      AppendEvent(log, e, OneShot(k));
      assert MutationAgrees(log, succeeded, k);
    }
  }

  lemma ExecutedKeepsOutputs(log: Ledger, e: Event, outputs: map<string, string>)
    requires e.disposition == Executed && OutputsAgree(log, outputs)
    ensures OutputsAgree(log + [e],
                         if e.keys.cache == NO_CACHE_KEY then outputs[e.keys.stable := Signature(e.result)]
                         else outputs)
  {
    var outputs' :=
      if e.keys.cache == NO_CACHE_KEY then outputs[e.keys.stable := Signature(e.result)] else outputs;
    forall k
      ensures OutputAgrees(log + [e], outputs', k)
    {
      AppendEvent(log, e, Stable(k));
      assert OutputAgrees(log, outputs, k);
    }
  }

  /** Records, results and ledger agree call by call, and no two calls share an id. */
  ghost predicate RecordsAgree(log: Ledger, records: seq<ToolRecord>, results: seq<ToolResult>, used: set<string>) {
    && |records| == |results| == |log|
    && (forall i: nat :: i < |log| ==> RecordAgrees(log, records, results, used, i))
    && (forall i: nat, j: nat :: i < j < |log| ==> IdsDiffer(log, i, j))
  }

  ghost predicate RecordAgrees(log: Ledger, records: seq<ToolRecord>, results: seq<ToolResult>, used: set<string>,
                               i: nat)
    requires i < |log| == |records| == |results|
  {
    && records[i].result == results[i] == log[i].result
    && records[i].request.id == log[i].id
    && KeysOf(records[i].request) == log[i].keys
    && log[i].id in used
  }

  ghost predicate IdsDiffer(log: Ledger, i: nat, j: nat)
    requires i < j < |log|
  {
    log[i].id != log[j].id
  }

  /** Records and results agree one by one, and all assigned call ids are different. */
  lemma RecordedCallsAreDistinct(log: Ledger, records: seq<ToolRecord>, results: seq<ToolResult>, used: set<string>)
    requires RecordsAgree(log, records, results, used)
    ensures |records| == |results| && forall i :: 0 <= i < |records| ==> records[i].result == results[i]
    ensures forall i, j :: 0 <= i < j < |records| ==> records[i].request.id != records[j].request.id
  {
    forall i: nat | i < |records|
      ensures records[i].result == results[i] && records[i].request.id == log[i].id
    {
      assert RecordAgrees(log, records, results, used, i);
    }
    forall i: nat, j: nat | i < j < |records|
      ensures log[i].id != log[j].id
    {
      assert IdsDiffer(log, i, j);
    }
  }

  /** A record under a fresh id extends the records. */
  lemma RecordsExtend(log: Ledger, records: seq<ToolRecord>, results: seq<ToolResult>, used: set<string>, e: Event,
                      record: ToolRecord)
    requires RecordsAgree(log, records, results, used)
    requires record.result == e.result && record.request.id == e.id && KeysOf(record.request) == e.keys
    requires e.id !in used
    ensures RecordsAgree(log + [e], records + [record], results + [e.result], used + {e.id})
  {
    var log', used' := log + [e], used + {e.id};
    forall i: nat | i < |log'|
      ensures RecordAgrees(log', records + [record], results + [e.result], used', i)
      ensures i < |log| ==> IdsDiffer(log', i, |log|)
    {
      if i < |log| {
        assert RecordAgrees(log, records, results, used, i);
      }
    }
    forall i: nat, j: nat | i < j < |log'|
      ensures IdsDiffer(log', i, j)
    {
      if j < |log| {
        assert IdsDiffer(log, i, j);
      }
    }
  }

  function BooksAfter(books: Books, e: Event): Books {
    if e.keys.cache == NO_CACHE_KEY then
      books.(outputs := books.outputs[e.keys.stable := Signature(e.result)])
    else
      Books(if e.keys.shot.Some? && e.result.Succeeded() then books.mutations + {e.keys.shot.value}
            else books.mutations,
            StoreOutcome(books.caches, e.keys.cache, e.result),
            books.outputs)
  }

  /** An execution the ledger allows, stored under its keys, keeps every outcome map right. */
  lemma ExecutedKeepsBooks(log: Ledger, e: Event, books: Books)
    requires e.disposition == Executed == Decide(log, e.keys) && BooksAgree(log, books)
    requires e.keys.shot.Some? ==> e.keys.cache != NO_CACHE_KEY
    ensures BooksAgree(log + [e], BooksAfter(books, e))
  {
    ExecutedKeepsCaches(log, e, books.caches);
    ExecutedKeepsMutations(log, e, books.mutations);
    ExecutedKeepsOutputs(log, e, books.outputs);
  }

  /** The calls that were handed to the real executor, in order. */
  function InvokedBy(log: Ledger, records: seq<ToolRecord>): (invoked: seq<ToolCall>)
    requires |log| == |records|
    ensures |invoked| <= |log|
  {
    if log == [] then []
    else
      var n := |log| - 1;
      InvokedBy(log[..n], records[..n]) + if log[n].disposition == Executed then [records[n].request] else []
  }

  /** Event number j, if it was executed, carries the settled answer of the real executor to its invocation. */
  ghost predicate AnsweredBy(log: Ledger, records: seq<ToolRecord>, execute: (nat, ToolCall) -> ToolReply,
                             timeoutMs: nat, j: nat)
    requires j < |log| == |records|
  {
    log[j].disposition == Executed ==>
      log[j].result == Settle(ReplyTo(log, records, execute, j), log[j].id, timeoutMs)
  }

  /** The reply of the real executor to event number j, if that was executed. */
  ghost function ReplyTo(log: Ledger, records: seq<ToolRecord>, execute: (nat, ToolCall) -> ToolReply, j: nat): ToolReply
    requires j < |log| == |records|
  {
    execute(|InvokedBy(log[..j], records[..j])|, records[j].request)
  }

  /** Event number j is an execution about the subject to which the real executor replied with success. */
  ghost predicate RepliedSuccess(log: Ledger, records: seq<ToolRecord>, execute: (nat, ToolCall) -> ToolReply,
                                 subject: Subject, j: nat)
    requires |log| == |records|
  {
    && j < |log| && log[j].disposition == Executed && Concerns(log[j].keys, subject)
    && RepliesSuccess(ReplyTo(log, records, execute, j))
  }

  ghost predicate EverSuccess(log: Ledger, records: seq<ToolRecord>, execute: (nat, ToolCall) -> ToolReply,
                              subject: Subject)
    requires |log| == |records|
  {
    exists j: nat :: RepliedSuccess(log, records, execute, subject, j)
  }

  /** What a run remembers of the real executor's replies, told by the replies alone: each executed event tells its
      reply; exactly the mutations and the cacheable calls with a successful reply are remembered as done, the calls
      with the output of that reply. */
  ghost predicate RepliesKept(log: Ledger, records: seq<ToolRecord>, execute: (nat, ToolCall) -> ToolReply, books: Books)
    requires |log| == |records|
  {
    && (forall j: nat :: j < |log| && log[j].disposition == Executed ==>
          Tells(ReplyTo(log, records, execute, j), log[j].id, log[j].result))
    && (forall k :: k in books.mutations <==> EverSuccess(log, records, execute, OneShot(k)))
    && (forall k :: k != NO_CACHE_KEY ==>
          (k in books.caches.results <==> EverSuccess(log, records, execute, Cached(k))))
    && (forall k, j: nat :: k != NO_CACHE_KEY && RepliedSuccess(log, records, execute, Cached(k), j) ==>
          && k in books.caches.results
          && books.caches.results[k] == ToolResult("", ReplyTo(log, records, execute, j).result.output, ""))
  }

  /** A reply's success and the success of its event are the same. */
  lemma RepliedIsSucceeded(log: Ledger, records: seq<ToolRecord>, invoked: seq<ToolCall>,
                           execute: (nat, ToolCall) -> ToolReply, timeoutMs: nat, subject: Subject, j: nat)
    requires InvocationsAgree(log, records, invoked, execute, timeoutMs)
    ensures RepliedSuccess(log, records, execute, subject, j) <==> SucceededAt(log, subject, j)
    ensures j < |log| && log[j].disposition == Executed ==>
              Tells(ReplyTo(log, records, execute, j), log[j].id, log[j].result)
  {
    hide Settle, RepliesSuccess, ReplyTo;
    if j < |log| {
      assert AnsweredBy(log, records, execute, timeoutMs, j);
      SettleMeaning(ReplyTo(log, records, execute, j), log[j].id, timeoutMs);
    }
  }

  lemma EverSucceeded(log: Ledger, records: seq<ToolRecord>, invoked: seq<ToolCall>,
                      execute: (nat, ToolCall) -> ToolReply, timeoutMs: nat, subject: Subject)
    requires Consistent(log) && InvocationsAgree(log, records, invoked, execute, timeoutMs)
    requires subject.Cached? || subject.OneShot?
    ensures EverSuccess(log, records, execute, subject) <==> EndsInSuccess(History(log, subject))
    ensures forall j: nat :: RepliedSuccess(log, records, execute, subject, j) ==>
              Last(History(log, subject)).output == ReplyTo(log, records, execute, j).result.output
  {
    hide RepliedSuccess, SucceededAt, History, ReplyTo, InvocationsAgree, Consistent;
    assert |log| == |records| by {
      SameCount(log, records, invoked, execute, timeoutMs);
    }
    SuccessHappened(log, subject);
    forall j: nat
      ensures RepliedSuccess(log, records, execute, subject, j) <==> SucceededAt(log, subject, j)
      ensures RepliedSuccess(log, records, execute, subject, j) ==>
                j < |log| && log[j].result.output == ReplyTo(log, records, execute, j).result.output
    {
      RepliedIsSucceeded(log, records, invoked, execute, timeoutMs, subject, j);
      if RepliedSuccess(log, records, execute, subject, j) {
        SucceededEvent(log, subject, j);
      }
    }
  }

  lemma SucceededEvent(log: Ledger, subject: Subject, j: nat)
    requires SucceededAt(log, subject, j)
    ensures j < |log| && log[j].disposition == Executed
  {
  }

  lemma SameCount(log: Ledger, records: seq<ToolRecord>, invoked: seq<ToolCall>,
                  execute: (nat, ToolCall) -> ToolReply, timeoutMs: nat)
    requires InvocationsAgree(log, records, invoked, execute, timeoutMs)
    ensures |log| == |records|
  {
  }

  lemma RepliesAreKept(log: Ledger, records: seq<ToolRecord>, invoked: seq<ToolCall>,
                       execute: (nat, ToolCall) -> ToolReply, timeoutMs: nat, books: Books)
    requires Consistent(log) && BooksAgree(log, books) && InvocationsAgree(log, records, invoked, execute, timeoutMs)
    ensures |log| == |records| && RepliesKept(log, records, execute, books)
  {
    hide RepliedSuccess, History, ReplyTo, Tells, InvocationsAgree, Consistent, EverSuccess;
    SameCount(log, records, invoked, execute, timeoutMs);
    forall j: nat | j < |log| && log[j].disposition == Executed
      ensures Tells(ReplyTo(log, records, execute, j), log[j].id, log[j].result)
    {
      RepliedIsSucceeded(log, records, invoked, execute, timeoutMs, AnyCreation, j);
    }
    forall k
      ensures k in books.mutations <==> EverSuccess(log, records, execute, OneShot(k))
    {
      assert MutationAgrees(log, books.mutations, k);
      EverSucceeded(log, records, invoked, execute, timeoutMs, OneShot(k));
    }
    forall k | k != NO_CACHE_KEY
      ensures k in books.caches.results <==> EverSuccess(log, records, execute, Cached(k))
      ensures forall j: nat :: RepliedSuccess(log, records, execute, Cached(k), j) ==>
                && j < |log| && k in books.caches.results
                && books.caches.results[k] == ToolResult("", ReplyTo(log, records, execute, j).result.output, "")
    {
      assert CacheAgrees(log, books.caches, k);
      EverSucceeded(log, records, invoked, execute, timeoutMs, Cached(k));
      forall j: nat | RepliedSuccess(log, records, execute, Cached(k), j)
        ensures j < |log| && EverSuccess(log, records, execute, Cached(k))
      {
        SomeSuccess(log, records, execute, Cached(k), j);
      }
    }
  }

  lemma SomeSuccess(log: Ledger, records: seq<ToolRecord>, execute: (nat, ToolCall) -> ToolReply, subject: Subject,
                    j: nat)
    requires |log| == |records| && RepliedSuccess(log, records, execute, subject, j)
    ensures j < |log| && EverSuccess(log, records, execute, subject)
  {
  }

  /** The real executor was called for exactly the executed events, and they carry its answers. */
  ghost predicate InvocationsAgree(log: Ledger, records: seq<ToolRecord>, invoked: seq<ToolCall>,
                                   execute: (nat, ToolCall) -> ToolReply, timeoutMs: nat)
  {
    && |log| == |records| && invoked == InvokedBy(log, records)
    && forall j: nat :: j < |log| ==> AnsweredBy(log, records, execute, timeoutMs, j)
  }

  lemma InvocationsStep(log: Ledger, records: seq<ToolRecord>, invoked: seq<ToolCall>,
                        execute: (nat, ToolCall) -> ToolReply, timeoutMs: nat, e: Event, record: ToolRecord)
    requires InvocationsAgree(log, records, invoked, execute, timeoutMs)
    requires e.disposition == Executed ==>
               e.result == Settle(execute(|invoked|, record.request), e.id, timeoutMs)
    ensures InvocationsAgree(log + [e], records + [record],
                             if e.disposition == Executed then invoked + [record.request] else invoked,
                             execute, timeoutMs)
  {
    hide Settle;
    var log', records' := log + [e], records + [record];
    assert log'[..|log|] == log && records'[..|log|] == records;
    forall j: nat | j < |log'|
      ensures AnsweredBy(log', records', execute, timeoutMs, j)
    {
      if j < |log| {
        assert AnsweredBy(log, records, execute, timeoutMs, j);
        assert log'[..j] == log[..j] && records'[..j] == records[..j];
      }
    }
  }

  /** How many of the calls are about the subject. */
  function CallsAbout(calls: seq<ToolCall>, subject: Subject): nat {
    if calls == [] then 0
    else
      CallsAbout(calls[..|calls| - 1], subject) + if Concerns(KeysOf(Last(calls)), subject) then 1 else 0
  }

  lemma CallsAboutAppend(calls: seq<ToolCall>, call: ToolCall, subject: Subject)
    ensures CallsAbout(calls + [call], subject)
            == CallsAbout(calls, subject) + if Concerns(KeysOf(call), subject) then 1 else 0
  {
    hide KeysOf, Concerns;
    assert (calls + [call])[..|calls|] == calls;
  }

  lemma RecordsPrefix(log: Ledger, records: seq<ToolRecord>, results: seq<ToolResult>, used: set<string>, n: nat)
    requires RecordsAgree(log, records, results, used) && n <= |log|
    ensures RecordsAgree(log[..n], records[..n], results[..n], used)
  {
    forall i: nat | i < n
      ensures RecordAgrees(log[..n], records[..n], results[..n], used, i)
    {
      assert RecordAgrees(log, records, results, used, i);
    }
    forall i: nat, j: nat | i < j < n
      ensures IdsDiffer(log[..n], i, j)
    {
      assert IdsDiffer(log, i, j);
    }
  }

  /** The real invocations about a subject are the executions that the ledger counts. */
  lemma {:induction false} InvocationsAreExecutions(log: Ledger, records: seq<ToolRecord>, results: seq<ToolResult>,
                                                    used: set<string>, subject: Subject)
    requires RecordsAgree(log, records, results, used)
    ensures CallsAbout(InvokedBy(log, records), subject) == |History(log, subject)|
    decreases |log|
  {
    hide KeysOf, Concerns;
    if log != [] {
      var n := |log| - 1;
      RecordsPrefix(log, records, results, used, n);
      InvocationsAreExecutions(log[..n], records[..n], results[..n], used, subject);
      assert RecordAgrees(log, records, results, used, n);
      var before := InvokedBy(log[..n], records[..n]);
      if log[n].disposition == Executed {
        CallsAboutAppend(before, records[n].request, subject);
      } else {
        assert before + [] == before;
      }
    }
  }

  /** How many of the calls create this agent, under either tool name. */
  function CreationCalls(calls: seq<ToolCall>, agentId: string): nat {
    if calls == [] then 0
    else
      CreationCalls(calls[..|calls| - 1], agentId)
      + if IsCreation(Last(calls).name) && Last(calls).args.agentId == agentId then 1 else 0
  }

  lemma CreationConcerns(call: ToolCall, agentId: string)
    requires agentId != ""
    ensures Concerns(KeysOf(call), Creation(CREATE + agentId)) <==>
              call.name == "agent.create" && call.args.agentId == agentId
    ensures Concerns(KeysOf(call), Creation(CREATES + agentId)) <==>
              call.name == "agents.create" && call.args.agentId == agentId
  {
    hide CacheKey, OneShotKey, GuardOf, StableKey;
    CreationKeysDiffer(call.args.agentId, agentId);
    CreationKeysDiffer(agentId, call.args.agentId);
    assert "agent.create" + "|" == CREATE && "agents.create" + "|" == CREATES;
    assert |"agent.create"| != |"agents.create"|;
  }

  /** The calls that create an agent are those under its two keys. */
  lemma {:induction false} CreationCallsSplit(calls: seq<ToolCall>, agentId: string)
    requires agentId != ""
    ensures CreationCalls(calls, agentId)
            == CallsAbout(calls, Creation(CREATE + agentId)) + CallsAbout(calls, Creation(CREATES + agentId))
  {
    hide KeysOf, Concerns;
    if calls != [] {
      CreationCallsSplit(calls[..|calls| - 1], agentId);
      CreationConcerns(Last(calls), agentId);
      assert |"agent.create"| != |"agents.create"|;
    }
  }

  /** Real ledgers keep the counters of guards and creations apart. */
  lemma RecordedGuardsApart(log: Ledger, records: seq<ToolRecord>, results: seq<ToolResult>, used: set<string>)
    requires RecordsAgree(log, records, results, used)
    ensures GuardsApart(log)
  {
    hide KeysOf, IsCreationKey;
    forall j: nat | j < |log|
      ensures log[j].keys.guard.Some? ==> !IsCreationKey(log[j].keys.guard.value.key)
    {
      assert RecordAgrees(log, records, results, used, j);
      KeysApart(records[j].request);
    }
  }

  /** The real executor is called within all caps: at most eight creations in all, two under one agent key and four
      for one agent, one under the shared key, and a repetition key at most as often as the largest cap with which
      it was called. */
  ghost predicate WithinCaps(invoked: seq<ToolCall>) {
    && CallsAbout(invoked, AnyCreation) <= CREATION_GLOBAL_CAP
    && CallsAbout(invoked, Creation(CREATION_TOTAL)) <= 1
    && (forall key :: CallsAbout(invoked, Creation(key)) <= 2)
    && (forall agentId :: agentId != "" ==> CreationCalls(invoked, agentId) <= 4)
    && (forall key, cap: nat :: CapsAtMost(invoked, key, cap) ==> CallsAbout(invoked, Guarded(key)) <= cap)
  }

  ghost predicate CapsAtMost(calls: seq<ToolCall>, key: string, cap: nat) {
    forall c :: c in calls && Concerns(KeysOf(c), Guarded(key)) ==> KeysOf(c).guard.value.cap <= cap
  }

  lemma {:induction false} ExecutedIsInvoked(log: Ledger, records: seq<ToolRecord>, j: nat)
    requires |log| == |records| && j < |log| && log[j].disposition == Executed
    ensures records[j].request in InvokedBy(log, records)
    decreases |log|
  {
    var n := |log| - 1;
    if j < n {
      ExecutedIsInvoked(log[..n], records[..n], j);
    }
  }

  /** A consistent run calls the real executor within all caps. */
  lemma InvocationsCapped(log: Ledger, records: seq<ToolRecord>, results: seq<ToolResult>, used: set<string>)
    requires Consistent(log) && RecordsAgree(log, records, results, used)
    ensures WithinCaps(InvokedBy(log, records))
  {
    hide KeysOf, Concerns, Consistent, InvokedBy, CallsAbout, History;
    var invoked := InvokedBy(log, records);
    InvocationsAreExecutions(log, records, results, used, AnyCreation);
    CreationsCapped(log, "");
    InvocationsAreExecutions(log, records, results, used, Creation(CREATION_TOTAL));
    SharedKeyCreatedOnce(log);
    forall key
      ensures CallsAbout(invoked, Creation(key)) <= 2
    {
      InvocationsAreExecutions(log, records, results, used, Creation(key));
      CreationsCapped(log, key);
    }
    forall agentId | agentId != ""
      ensures CreationCalls(invoked, agentId) <= 4
    {
      CreationCallsSplit(invoked, agentId);
    }
    forall key, cap: nat | CapsAtMost(invoked, key, cap)
      ensures CallsAbout(invoked, Guarded(key)) <= cap
    {
      InvocationsAreExecutions(log, records, results, used, Guarded(key));
      ExecutedCaps(log, records, results, used, key, cap);
      ExecutionsCapped(log, key, cap);
    }
  }

  lemma ExecutedCaps(log: Ledger, records: seq<ToolRecord>, results: seq<ToolResult>, used: set<string>,
                     key: string, cap: nat)
    requires RecordsAgree(log, records, results, used) && CapsAtMost(InvokedBy(log, records), key, cap)
    ensures forall e :: e in log && e.disposition == Executed && Concerns(e.keys, Guarded(key)) ==>
              e.keys.guard.value.cap <= cap
  {
    hide KeysOf, InvokedBy;
    forall j: nat | j < |log| && log[j].disposition == Executed && Concerns(log[j].keys, Guarded(key))
      ensures log[j].keys.guard.value.cap <= cap
    {
      ExecutedIsInvoked(log, records, j);
      assert RecordAgrees(log, records, results, used, j);
    }
  }
}
