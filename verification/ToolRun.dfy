/** The part of a run's state that executes tool calls. */
module ToolRun {
  import opened Strings
  import opened ToolCalls
  import opened ToolLedger
  import opened FailureTracking
  import opened ToolExecutor

  class Executor {
    const timeoutMs: nat
    const execute: (nat, ToolCall) -> ToolReply  // the real executor's answers, by number of the invocation
    var records: seq<ToolRecord>
    var toolResults: seq<ToolResult>
    var ordinal: nat
    var usedIds: set<string>
    var invocations: nat  // calls of the real executor so far
    var repetition: map<string, nat>
    var books: Books
    var failures: FailureState
    ghost var log: Ledger
    ghost var invoked: seq<ToolCall>  // the calls handed to the real executor

    ghost predicate Valid()
      reads this
    {
      && Consistent(log)
      && CountersAgree(log, repetition)
      && BooksAgree(log, books)
      && FailuresAgree(log, failures)
      && RecordsAgree(log, records, toolResults, usedIds)
      && InvocationsAgree(log, records, invoked, execute, timeoutMs) && invocations == |invoked|
      && ordinal == |log|
    }

    constructor (timeoutMs: nat, execute: (nat, ToolCall) -> ToolReply)
      ensures Valid() && log == [] && invocations == 0 && this.timeoutMs == timeoutMs && this.execute == execute
      ensures records == [] && toolResults == [] && failures == FailureState(0, Recovery(false, 0, 0), map[])
    {
      this.timeoutMs := timeoutMs;
      this.execute := execute;
      records, toolResults, ordinal, usedIds, invocations := [], [], 0, {}, 0;
      repetition := map[];
      books := Books({}, Caches(map[], map[], map[], map[]), map[]);
      failures := FailureState(0, Recovery(false, 0, 0), map[]);
      log, invoked := [], [];
    }

    method UniqueId(raw: string) returns (id: string, ghost n: nat)
      modifies `usedIds
      ensures FirstFree(IdBase(raw, ordinal), old(usedIds), id, n)
      ensures id !in old(usedIds) && usedIds == old(usedIds) + {id}
    {
      var base := Trim(raw);
      if base == "" {
        base := "tool-call-" + Decimal(ordinal);
      }
      id, n := FreeId(base, usedIds);
      usedIds := usedIds + {id};
    }

    /** Counts an outcome towards error recovery and the structural blockers. */
    method RegisterOutcome(error: string)
      modifies `failures
      ensures failures == Register(old(failures), error)
    {
      var trimmed := Trim(error);
      var recovery := failures.recovery;
      if Contains(Lower(trimmed), REPETITION) {
        return;
      }
      if trimmed == "" {
        failures := failures.(consecutive := 0);
        if recovery.active {
          recovery := recovery.(successes := recovery.successes + 1);
          if recovery.successes >= 3 {
            recovery := Recovery(false, 0, 0);
          }
          failures := failures.(recovery := recovery);
        }
        return;
      }
      var category := BlockerCategory(trimmed);
      if category != "" {
        failures := failures.(blockers := failures.blockers[category := CountUnder(failures.blockers, category) + 1]);
      }
      recovery := recovery.(successes := 0);
      failures := failures.(consecutive := failures.consecutive + 1);
      if !recovery.active && failures.consecutive >= FAILURE_RECOVERY_TRIGGER {
        recovery := Recovery(true, 0, 0);
      } else if recovery.active {
        recovery := recovery.(failures := recovery.failures + 1);
      }
      failures := failures.(recovery := recovery);
    }

    /** All that Valid asks of the state once event `e` and its record are appended. */
    ghost predicate ReadyFor(e: Event, record: ToolRecord)
      reads this
    {
      && Consistent(log + [e])
      && CountersAgree(log + [e], repetition)
      && BooksAgree(log + [e], books)
      && FailuresAgree(log + [e], failures)
      && RecordsAgree(log + [e], records + [record], toolResults + [record.result], usedIds)
      && InvocationsAgree(log + [e], records + [record], invoked, execute, timeoutMs) && invocations == |invoked|
      && ordinal == |log| + 1
    }

    /** Appends the record of a call that has been decided. */
    method Record(record: ToolRecord, ghost e: Event)
      requires ReadyFor(e, record)
      modifies `records, `toolResults, `log
      ensures Valid() && log == old(log) + [e] && records == old(records) + [record]
      ensures toolResults == old(toolResults) + [record.result]
    {
      records := records + [record];
      toolResults := toolResults + [record.result];
      log := log + [e];
    }

    method Bump(key: string) returns (count: nat)
      modifies `repetition
      ensures repetition == old(repetition)[key := count]
      ensures count == old(CountUnder(repetition, key)) + 1
    {
      count := CountUnder(repetition, key) + 1;
      repetition := repetition[key := count];
    }

    /** Stores the outcome of an execution under the call's cache key. */
    method Store(key: string, r: ToolResult)
      modifies `books
      ensures books == old(books).(caches := StoreOutcome(old(books).caches, key, r))
    {
      var caches := books.caches;
      if Trim(r.error) == "" {
        caches := caches.(results := caches.results[key := ToolResult("", r.output, "")]);
        caches := caches.(failures := caches.failures - {key});
        caches := caches.(failureCounts := caches.failureCounts - {key});
        caches := caches.(failureErrors := caches.failureErrors - {key});
      } else {
        var text := Trim(r.error);
        if key in caches.failureErrors && caches.failureErrors[key] == text {
          caches := caches.(failureCounts := caches.failureCounts[key := CountUnder(caches.failureCounts, key) + 1]);
        } else {
          caches := caches.(failureErrors := caches.failureErrors[key := text]);
          caches := caches.(failureCounts := caches.failureCounts[key := 1]);
        }
        if caches.failureCounts[key] >= 2 {
          caches := caches.(failures := caches.failures[key := ToolResult("", r.output, r.error)]);
        }
      }
      books := books.(caches := caches);
    }

    /** The two creation counters: one per agent, one for the run. */
    method AnswerCreation(id: string, keys: Keys) returns (d: Disposition, result: ToolResult)
      requires CountersAgree(log, repetition) && keys.creates && keys.guard.None?
      modifies `repetition
      ensures d == if keys.creation.Some? && Attempts(log, keys.creation.value) >= 2 then CreationBlocked
                   else if TotalBefore(log, keys) >= CREATION_GLOBAL_CAP then CreationLimited
                   else Executed
      ensures result.id == id && result.output == ""
      ensures d == CreationBlocked ==>
                IsRepetitionNotice(result.error) && Contains(result.error, REPETITION) && !result.Succeeded()
      ensures d == CreationLimited ==> !IsRepetitionNotice(result.error) && !result.Succeeded()
      ensures Bumped(old(repetition), repetition, keys, d)
    {
      ghost var before := repetition;
      assert CounterAgrees(log, before, CREATION_TOTAL);
      d, result := Executed, ToolResult(id, "", "");
      if keys.creation.Some? {
        assert CounterAgrees(log, before, keys.creation.value);
        var attempts := Bump(keys.creation.value);
        if attempts >= 3 {
          RepetitionNoticeRecognised(keys.creation.value);
          d, result := CreationBlocked, ToolResult(id, "", RepetitionNotice(keys.creation.value));
          return;
        }
      }
      var total := Bump(CREATION_TOTAL);
      if total > CREATION_GLOBAL_CAP {
        LimitNoticeIsFailure();
        d, result := CreationLimited, ToolResult(id, "", LIMIT_NOTICE);
      }
    }

    /** The one-shot and repetition guards. */
    method AnswerGuards(id: string, keys: Keys) returns (d: Disposition, result: ToolResult)
      requires CountersAgree(log, repetition) && MutationsAgree(log, books.mutations)
      modifies `repetition
      ensures d == if keys.shot.Some? && EndsInSuccess(History(log, OneShot(keys.shot.value))) then MutationBlocked
                   else if keys.guard.Some? && Attempts(log, keys.guard.value.key) >= keys.guard.value.cap then
                     RepetitionBlocked
                   else Executed
      ensures d != Executed ==>
                && result.id == id && result.output == "" && !result.Succeeded()
                && IsRepetitionNotice(result.error) && Contains(result.error, REPETITION)
      ensures forall k :: CountUnder(repetition, k) == old(CountUnder(repetition, k))
                       + if d != MutationBlocked && keys.guard.Some? && keys.guard.value.key == k then 1 else 0
      ensures keys.guard.None? ==> repetition == old(repetition)
    {
      ghost var before := repetition;
      d, result := Executed, ToolResult(id, "", "");
      if keys.shot.Some? {
        assert MutationAgrees(log, books.mutations, keys.shot.value);
        if keys.shot.value in books.mutations {
          RepetitionNoticeRecognised(keys.shot.value);
          d, result := MutationBlocked, ToolResult(id, "", RepetitionNotice(keys.shot.value));
          return;
        }
      }
      if keys.guard.Some? {
        assert CounterAgrees(log, before, keys.guard.value.key);
        var count := Bump(keys.guard.value.key);
        if count > keys.guard.value.cap {
          RepetitionNoticeRecognised(keys.guard.value.key);
          d, result := RepetitionBlocked, ToolResult(id, "", RepetitionNotice(keys.guard.value.key));
        }
      }
    }

    /** The caches of settled outcomes. */
    method AnswerCache(id: string, key: string) returns (d: Disposition, result: ToolResult)
      requires CachesAgree(log, books.caches)
      ensures var h := History(log, Cached(key));
              d == if EndsInSuccess(h) then SuccessReplayed
                   else if EndsInSameFailure(h) then FailureReplayed
                   else Executed
      ensures d == SuccessReplayed ==> result == ToolResult(id, Last(History(log, Cached(key))).output, "")
      ensures d == FailureReplayed ==> result == Last(History(log, Cached(key))).(id := id)
    {
      assert CacheAgrees(log, books.caches, key);
      NothingCachedUnderNoKey(log);
      d, result := Executed, ToolResult(id, "", "");
      if key != NO_CACHE_KEY {
        if key in books.caches.results {
          d, result := SuccessReplayed, books.caches.results[key].(id := id);
        } else if key in books.caches.failures {
          d, result := FailureReplayed, books.caches.failures[key].(id := id);
        }
      }
    }

    /** The guards and caches in front of the real executor. Without a disposition of Executed, `result`
        answers the call. */
    method Answer(id: string, keys: Keys) returns (d: Disposition, result: ToolResult)
      requires CountersAgree(log, repetition) && BooksAgree(log, books)
      requires keys.creates ==> keys.guard.None?
      modifies `repetition
      ensures d == Decide(log, keys)
      ensures d != Executed ==> Follows(log, Event(id, keys, d, result))
      ensures Bumped(old(repetition), repetition, keys, d)
    {
      d, result := AnswerGuards(id, keys);
      if d == Executed {
        ghost var guarded := repetition;
        d, result := AnswerCache(id, keys.cache);
        if d == Executed && keys.creates {
          d, result := AnswerCreation(id, keys);
        }
      }
    }

    /** Hands a call to the real executor and stores its outcome. */
    method Invoke(call: ToolCall, keys: Keys)
      returns (result: ToolResult, progress: bool)
      requires BooksAgree(log, books) && Decide(log, keys) == Executed
      requires keys.shot.Some? ==> keys.cache != NO_CACHE_KEY
      modifies `invocations, `books, `invoked
      ensures invocations == old(invocations) + 1 && invoked == old(invoked) + [call]
      ensures result == Settle(execute(old(invocations), call), call.id, timeoutMs)
      ensures progress == Fresh(log, Event(call.id, keys, Executed, result))
      ensures BooksAgree(log + [Event(call.id, keys, Executed, result)], books)
    {
      result := Settle(execute(invocations, call), call.id, timeoutMs);
      invocations := invocations + 1;
      invoked := invoked + [call];
      ExecutedKeepsBooks(log, Event(call.id, keys, Executed, result), books);
      if keys.cache != NO_CACHE_KEY {
        progress := true;
        if Trim(result.error) == "" && keys.shot.Some? {
          books := books.(mutations := books.mutations + {keys.shot.value});
        }
        Store(keys.cache, result);
      } else {
        assert OutputAgrees(log, books.outputs, keys.stable);
        var output := Signature(result);
        progress := keys.stable !in books.outputs || books.outputs[keys.stable] != output;
        books := books.(outputs := books.outputs[keys.stable := output]);
        if progress && Trim(result.error) == "" && keys.shot.Some? {
          assert false;  // one-shot mutations are cacheable
        }
      }
    }

    /** The state between calls, except that the id of `call` is already in use. */
    ghost predicate Prepared(call: ToolCall, used: set<string>)
      reads this
    {
      && Consistent(log)
      && CountersAgree(log, repetition)
      && BooksAgree(log, books)
      && FailuresAgree(log, failures)
      && RecordsAgree(log, records, toolResults, used)
      && InvocationsAgree(log, records, invoked, execute, timeoutMs) && invocations == |invoked|
      && call.id !in used && usedIds == used + {call.id}
      && ordinal == |log| + 1
    }

    /** The state after `e` has been decided and stored, before it is recorded. */
    ghost predicate Answered(call: ToolCall, used: set<string>, e: Event)
      reads this
    {
      && Consistent(log) && Follows(log, e)
      && CountersAgree(log + [e], repetition)
      && BooksAgree(log + [e], books)
      && FailuresAgree(log, failures)
      && RecordsAgree(log, records, toolResults, used)
      && InvocationsAgree(log + [e], records + [ToolRecord(call, e.result)], invoked, execute, timeoutMs)
      && invocations == |invoked|
      && e.id == call.id && e.keys == KeysOf(call)
      && call.id !in used && usedIds == used + {call.id}
      && ordinal == |log| + 1
    }

    /** Answers a call, from the guards, the caches or the real executor. */
    method Resolve(call: ToolCall, ghost used: set<string>)
      returns (result: ToolResult, progress: bool, blockedMutation: bool, ghost e: Event)
      requires Prepared(call, used)
      modifies `repetition, `invocations, `books, `invoked
      ensures Answered(call, used, e) && e.result == result
      ensures Handled(log, call, e, execute, old(invocations), timeoutMs, progress)
      ensures invocations == old(invocations) + if e.disposition == Executed then 1 else 0
      ensures blockedMutation == (e.disposition == MutationBlocked)
    {
      hide Consistent, CountersAgree, BooksAgree, FailuresAgree, RecordsAgree, Bumped, KeysFor, Settle, Decide,
           InvocationsAgree;
      var keys := KeysOf(call);
      KeysOfCall(call);
      ghost var counters, earlier := repetition, invoked;
      var d;
      d, result := Answer(call.id, keys);
      progress, blockedMutation := false, d == MutationBlocked;
      if d == Executed {
        result, progress := Invoke(call, keys);
      } else {
        UnexecutedKeepsBooks(log, Event(call.id, keys, d, result), books);
      }
      e := Event(call.id, keys, d, result);
      BumpsAgree(log, e, counters, repetition);
      InvocationsStep(log, records, earlier, execute, timeoutMs, e, ToolRecord(call, result));
    }

    /** Registers and records a call that has been answered. */
    method Finish(call: ToolCall, result: ToolResult, ghost e: Event, ghost used: set<string>)
      requires Answered(call, used, e) && e.result == result
      modifies `records, `toolResults, `log, `failures
      ensures Valid() && log == old(log) + [e] && records == old(records) + [ToolRecord(call, result)]
    {
      hide Consistent, CountersAgree, BooksAgree, FailuresAgree, RecordsAgree, Follows, InvocationsAgree;
      ConsistentStep(log, e);
      RecordsExtend(log, records, toolResults, used, e, ToolRecord(call, result));
      RegisterAgrees(log, e, failures);
      RegisterOutcome(result.error);
      Record(ToolRecord(call, result), e);
    }

    /** Handles one requested call: it gets a fresh id, exactly one record, and what the ledger decides. */
    method ExecuteCall(incoming: ToolCall)
      returns (progress: bool, blockedMutation: bool, ghost e: Event, ghost n: nat)
      requires Valid()
      modifies this
      ensures Valid() && log == old(log) + [e]
      ensures FirstFree(IdBase(incoming.id, ordinal), old(usedIds), e.id, n)
      ensures Handled(old(log), incoming.(id := e.id), e, execute, old(invocations), timeoutMs, progress)
      ensures records == old(records) + [ToolRecord(incoming.(id := e.id), e.result)]
      ensures invocations == old(invocations) + if e.disposition == Executed then 1 else 0
      ensures blockedMutation == (e.disposition == MutationBlocked)
    {
      hide Consistent, CountersAgree, BooksAgree, FailuresAgree, RecordsAgree, FirstFree, IdBase, Answered, Follows,
           InvocationsAgree;
      ordinal := ordinal + 1;
      var id;
      id, n := UniqueId(incoming.id);
      var call := incoming.(id := id);
      var result;
      result, progress, blockedMutation, e := Resolve(call, old(usedIds));
      assert e.id == id;
      Finish(call, result, e, old(usedIds));
    }

    /** One call of a batch that started when the records and the ledger had length `start`. */
    method ExecuteNext(call: ToolCall, ghost start: nat, ghost done: seq<ToolCall>)
      returns (progress: bool, blockedMutation: bool)
      requires Valid() && start <= |log| && BatchRecorded(records, start, done)
      modifies this
      ensures Valid() && old(log) <= log && old(records) <= records
      ensures BatchRecorded(records, start, done + [call])
      ensures old(invocations) <= invocations <= old(invocations) + 1
      ensures AnyFresh(log, start) == (old(AnyFresh(log, start)) || progress)
      ensures AnyMutationBlocked(log, start) == (old(AnyMutationBlocked(log, start)) || blockedMutation)
    {
      hide Valid, FirstFree, Fresh, BatchRecorded, AnyFresh, AnyMutationBlocked, IdBase, KeysOf, Follows;
      ghost var logBefore, recordsBefore := log, records;
      ghost var e, n;
      progress, blockedMutation, e, n := ExecuteCall(call);
      BatchRecordedStep(recordsBefore, start, done, ToolRecord(call.(id := e.id), e.result), call);
      AnyFreshStep(logBefore, e, start);
      AnyMutationBlockedStep(logBefore, e, start);
    }

    /** Runs one batch: every call gets exactly one record, in order. */
    method ExecuteTools(calls: seq<ToolCall>)
      returns (hadProgress: bool, blockedMutation: bool)
      requires Valid()
      modifies this
      ensures Valid() && old(log) <= log && old(records) <= records
      ensures BatchRecorded(records, |old(records)|, calls)
      ensures old(invocations) <= invocations <= old(invocations) + |calls|
      ensures hadProgress == AnyFresh(log, |old(log)|)
      ensures blockedMutation == AnyMutationBlocked(log, |old(log)|)
    {
      hadProgress, blockedMutation := false, false;
      ghost var start := |log|;
      assert start == |records|;
      hide Valid, BatchRecorded, AnyFresh, AnyMutationBlocked;
      EmptyBatch(records, log);
      for i := 0 to |calls|
        invariant Valid() && old(log) <= log && old(records) <= records
        invariant BatchRecorded(records, start, calls[..i])
        invariant old(invocations) <= invocations <= old(invocations) + i
        invariant hadProgress == AnyFresh(log, start)
        invariant blockedMutation == AnyMutationBlocked(log, start)
      {
        var progress, blocked := ExecuteNext(calls[i], start, calls[..i]);
        assert calls[..i + 1] == calls[..i] + [calls[i]];
        hadProgress := hadProgress || progress;
        blockedMutation := blockedMutation || blocked;
      }
      assert calls[..|calls|] == calls;
    }

    /** Whatever a run has asked for so far, the real executor was called within all caps, each executed call was
        answered with what it replied, and exactly its successes are remembered as such. */
    lemma RealInvocationsCapped()
      requires Valid()
      ensures invocations == |invoked| && WithinCaps(invoked)
      ensures InvocationsAgree(log, records, invoked, execute, timeoutMs)
      ensures RepliesKept(log, records, execute, books)
    {
      hide BooksAgree, Consistent, RepliesKept;
      RepliesAreKept(log, records, invoked, execute, timeoutMs, books);
      InvocationsCapped(log, records, toolResults, usedIds);
    }
  }
}
