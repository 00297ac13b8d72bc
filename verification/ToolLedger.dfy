/** What a run does with its tool calls, told by the run's history alone.

    A ledger has one event per requested call, in order. `Decide` says, from the events so far, what
    must happen to the next call; a ledger is consistent when every event is the decided one. The
    executor keeps maps and counters instead and is proved to produce only consistent ledgers, so
    what is proved here of consistent ledgers holds of every run. */
module ToolLedger {
  import opened Strings
  import opened ToolCalls

  datatype Disposition =
    | MutationBlocked    // the same one-shot mutation has already succeeded
    | RepetitionBlocked  // the repetition cap of the call's key is used up
    | SuccessReplayed
    | FailureReplayed
    | CreationBlocked    // the creation counter of the agent's key stands at two
    | CreationLimited    // the creation counter of the run is used up
    | Executed           // handed to the real tool executor

  datatype Event = Event(id: string, keys: Keys, disposition: Disposition, result: ToolResult)

  type Ledger = seq<Event>

  /** Families of calls whose executions are tracked together. */
  datatype Subject =
    | Cached(key: string)
    | OneShot(key: string)
    | Guarded(key: string)
    | Creation(key: string)
    | AnyCreation
    | Stable(key: string)

  predicate Concerns(keys: Keys, subject: Subject) {
    match subject
    case Cached(key) => key != NO_CACHE_KEY && keys.cache == key
    case OneShot(key) => keys.shot == Some(key)
    case Guarded(key) => keys.guard.Some? && keys.guard.value.key == key
    case Creation(key) => keys.creates && keys.creation == Some(key)
    case AnyCreation => keys.creates
    case Stable(key) => keys.cache == NO_CACHE_KEY && keys.stable == key
  }

  function Init(log: Ledger): Ledger
    requires log != []
  {
    log[..|log| - 1]
  }

  function Last<T>(s: seq<T>): T
    requires s != []
  {
    s[|s| - 1]
  }

  /** Outcomes of the real executions that concern a subject, in order. */
  function History(log: Ledger, subject: Subject): seq<ToolResult> {
    if log == [] then []
    else
      var e := Last(log);
      History(Init(log), subject)
      + if e.disposition == Executed && Concerns(e.keys, subject) then [e.result] else []
  }

  /** How often a call disposed of as `d` advances the counter of a repetition key. */
  function Bumps(keys: Keys, d: Disposition, key: string): nat {
    var guard := keys.guard;
    (if d != MutationBlocked && guard.Some? && guard.value.key == key then 1 else 0)
    + (if d in {CreationBlocked, CreationLimited, Executed} && keys.creates && keys.creation == Some(key) then 1 else 0)
    + (if d in {CreationLimited, Executed} && keys.creates && key == CREATION_TOTAL then 1 else 0)
  }

  function Attempts(log: Ledger, key: string): nat {
    if log == [] then 0
    else Attempts(Init(log), key) + Bumps(Last(log).keys, Last(log).disposition, key)
  }

  predicate EndsInSuccess(h: seq<ToolResult>) {
    h != [] && Last(h).Succeeded()
  }

  predicate EndsInSameFailure(h: seq<ToolResult>) {
    |h| >= 2 && h[|h| - 2].SameFailure(h[|h| - 1])
  }

  /** Outcomes after which the executor is not asked again: a success, or the same failure twice. */
  predicate Settled(h: seq<ToolResult>) {
    EndsInSuccess(h) || EndsInSameFailure(h)
  }

  predicate SettledWith(h: seq<ToolResult>, stored: ToolResult) {
    Settled(h) && Last(h) == stored
  }

  function Decide(log: Ledger, keys: Keys): Disposition {
    var outcomes := History(log, Cached(keys.cache));
    if keys.shot.Some? && EndsInSuccess(History(log, OneShot(keys.shot.value))) then MutationBlocked
    else if keys.guard.Some? && Attempts(log, keys.guard.value.key) >= keys.guard.value.cap then RepetitionBlocked
    else if EndsInSuccess(outcomes) then SuccessReplayed
    else if EndsInSameFailure(outcomes) then FailureReplayed
    else if keys.creates && keys.creation.Some? && Attempts(log, keys.creation.value) >= 2 then CreationBlocked
    else if keys.creates && TotalBefore(log, keys) >= CREATION_GLOBAL_CAP then CreationLimited
    else Executed
  }

  /** The global creation counter, which an agent called "total" shares. */
  function TotalBefore(log: Ledger, keys: Keys): nat {
    Attempts(log, CREATION_TOTAL) + if keys.creation == Some(CREATION_TOTAL) then 1 else 0
  }

  predicate IsRepetition(d: Disposition) {
    d in {MutationBlocked, RepetitionBlocked, CreationBlocked}
  }

  predicate IsBlocked(d: Disposition) {
    IsRepetition(d) || d == CreationLimited
  }

  /** The event that may come next: the decided disposition, with the stored outcome on a replay. */
  predicate Follows(log: Ledger, e: Event) {
    && e.disposition == Decide(log, e.keys)
    && (IsBlocked(e.disposition) ==> e.result.output == "" && !e.result.Succeeded() && e.result.id == e.id)
    && (IsRepetition(e.disposition) ==>
          IsRepetitionNotice(e.result.error) && Contains(e.result.error, REPETITION))
    && (e.disposition == CreationLimited ==> !IsRepetitionNotice(e.result.error))
    && (e.disposition == SuccessReplayed ==>
          e.result == ToolResult(e.id, Last(History(log, Cached(e.keys.cache))).output, ""))
    && (e.disposition == FailureReplayed ==>
          e.result == Last(History(log, Cached(e.keys.cache))).(id := e.id))
  }

  ghost predicate FollowsAt(log: Ledger, j: nat)
    requires j < |log|
  {
    Follows(log[..j], log[j])
  }

  ghost predicate Consistent(log: Ledger) {
    forall j: nat :: j < |log| ==> FollowsAt(log, j)
  }

  lemma ConsistentPrefix(log: Ledger, n: nat)
    requires Consistent(log) && n <= |log|
    ensures Consistent(log[..n])
  {
    forall j: nat | j < n
      ensures FollowsAt(log[..n], j)
    {
      assert FollowsAt(log, j);
      assert log[..n][..j] == log[..j];
    }
  }

  /** The last event of a consistent ledger follows from a consistent ledger. */
  lemma ConsistentLast(log: Ledger)
    requires Consistent(log) && log != []
    ensures Consistent(Init(log)) && Follows(Init(log), Last(log))
  {
    ConsistentPrefix(log, |log| - 1);
    assert FollowsAt(log, |log| - 1);
  }

  lemma ConsistentStep(log: Ledger, e: Event)
    requires Consistent(log) && Follows(log, e)
    ensures Consistent(log + [e])
  {
    forall j: nat | j < |log| + 1
      ensures FollowsAt(log + [e], j)
    {
      assert (log + [e])[..j] == log[..j];
      if j < |log| {
        assert FollowsAt(log, j);
      } else {
        assert log[..j] == log;
      }
    }
  }

  lemma {:induction false} ExecutionsAreAttempts(log: Ledger, key: string)
    ensures |History(log, Guarded(key))| <= Attempts(log, key)
    ensures |History(log, Creation(key))| <= Attempts(log, key)
    ensures |History(log, AnyCreation)| <= Attempts(log, CREATION_TOTAL)
  {
    if log != [] {
      ExecutionsAreAttempts(Init(log), key);
    }
  }

  /** However calls that share a repetition key are capped, an executed call with cap c is one of the
      first c executions under that key. */
  lemma ExecutedWithinCap(log: Ledger, j: nat)
    requires Consistent(log) && j < |log|
    requires log[j].disposition == Executed && log[j].keys.guard.Some?
    ensures var guard := log[j].keys.guard.value;
            |History(log[..j + 1], Guarded(guard.key))| <= guard.cap
  {
    assert FollowsAt(log, j);
    ExecutionsAreAttempts(log[..j], log[j].keys.guard.value.key);
    assert Init(log[..j + 1]) == log[..j];
  }

  /** A whole run executes a repetition key at most as often as the largest cap with which it was executed. */
  lemma {:induction false} ExecutionsCapped(log: Ledger, key: string, cap: nat)
    requires Consistent(log)
    requires forall e :: e in log && e.disposition == Executed && Concerns(e.keys, Guarded(key)) ==>
               e.keys.guard.value.cap <= cap
    ensures |History(log, Guarded(key))| <= cap
  {
    if log != [] {
      ConsistentLast(log);
      ExecutionsCapped(Init(log), key, cap);
      var e := Last(log);
      assert e in log;
      ExecutionsAreAttempts(Init(log), key);
    }
  }

  /** A whole run executes at most eight agent creations, and at most two under one key of tool name and agent id. */
  lemma {:induction false} CreationsCapped(log: Ledger, key: string)
    requires Consistent(log)
    ensures |History(log, AnyCreation)| <= CREATION_GLOBAL_CAP
    ensures |History(log, Creation(key))| <= 2
  {
    if log != [] {
      ConsistentLast(log);
      CreationsCapped(Init(log), key);
      ExecutionsAreAttempts(Init(log), key);
    }
  }

  ghost predicate SuccessIsLast(h: seq<ToolResult>) {
    forall i :: 0 <= i < |h| - 1 ==> !h[i].Succeeded()
  }

  lemma SuccessIsLastStep(h: seq<ToolResult>, r: ToolResult)
    requires SuccessIsLast(h) && !EndsInSuccess(h)
    ensures SuccessIsLast(h + [r])
  {
  }

  /** No outcome before the last is a success, and no two before the last are the same failure. */
  ghost predicate Settles(h: seq<ToolResult>) {
    && SuccessIsLast(h)
    && (forall i :: 0 <= i < |h| - 2 ==> !h[i].SameFailure(h[i + 1]))
  }

  lemma SettlesStep(h: seq<ToolResult>, r: ToolResult)
    requires Settles(h) && !Settled(h)
    ensures Settles(h + [r])
  {
    var h' := h + [r];
    forall i | 0 <= i < |h'| - 2
      ensures !h'[i].SameFailure(h'[i + 1])
    {
      assert h'[i] == h[i] && h'[i + 1] == h[i + 1];
    }
  }

  /** A cached success, or the same failure twice in a row, is the last execution of a cache key. */
  lemma {:induction false} CachedOutcomesSettle(log: Ledger, key: string)
    requires Consistent(log)
    ensures Settles(History(log, Cached(key)))
  {
    if log != [] {
      ConsistentLast(log);
      CachedOutcomesSettle(Init(log), key);
      var e := Last(log);
      if e.disposition == Executed && Concerns(e.keys, Cached(key)) {
        SettlesStep(History(Init(log), Cached(key)), e.result);
      }
    }
  }

  /** Once a one-shot mutation has succeeded it is never executed again. */
  lemma {:induction false} OneShotSucceedsOnce(log: Ledger, key: string)
    requires Consistent(log)
    ensures SuccessIsLast(History(log, OneShot(key)))
  {
    if log != [] {
      ConsistentLast(log);
      OneShotSucceedsOnce(Init(log), key);
      var e := Last(log);
      if e.disposition == Executed && Concerns(e.keys, OneShot(key)) {
        SuccessIsLastStep(History(Init(log), OneShot(key)), e.result);
      }
    }
  }

  /** Event number j is an execution about the subject that succeeded. */
  predicate SucceededAt(log: Ledger, subject: Subject, j: nat) {
    j < |log| && log[j].disposition == Executed && Concerns(log[j].keys, subject) && log[j].result.Succeeded()
  }

  /** A success is remembered exactly if there was one: the executions end in success if and only if one of them, and
      then the last one, succeeded. */
  lemma {:induction false} SuccessHappened(log: Ledger, subject: Subject)
    requires Consistent(log) && (subject.Cached? || subject.OneShot?)
    ensures EndsInSuccess(History(log, subject)) <==> exists j: nat :: SucceededAt(log, subject, j)
    ensures forall j: nat :: SucceededAt(log, subject, j) ==> log[j].result == Last(History(log, subject))
  {
    if log != [] {
      ConsistentLast(log);
      SuccessHappened(Init(log), subject);
      hide History, Decide;
      var n := |log| - 1;
      LastOfHistory(log, subject);
      forall j: nat | j < n
        ensures SucceededAt(log, subject, j) <==> SucceededAt(Init(log), subject, j)
      {
        assert log[j] == Init(log)[j];
      }
      if EndsInSuccess(History(log, subject)) {
        if History(log, subject) != History(Init(log), subject) {
          assert SucceededAt(log, subject, n);
        } else {
          var j: nat :| SucceededAt(Init(log), subject, j);
          assert SucceededAt(log, subject, j);
        }
      }
      if Last(log).disposition == Executed && Concerns(Last(log).keys, subject) {
        NotAfterSuccess(Init(log), Last(log), subject);
      }
    }
  }

  lemma LastOfHistory(log: Ledger, subject: Subject)
    requires log != []
    ensures var e := Last(log);
            History(log, subject)
            == History(Init(log), subject)
               + if e.disposition == Executed && Concerns(e.keys, subject) then [e.result] else []
  {
  }

  lemma NotAfterSuccess(log: Ledger, e: Event, subject: Subject)
    requires Follows(log, e) && (subject.Cached? || subject.OneShot?)
    requires e.disposition == Executed && Concerns(e.keys, subject)
    ensures !EndsInSuccess(History(log, subject))
  {
  }

  lemma {:induction false} NothingCachedUnderNoKey(log: Ledger)
    ensures History(log, Cached(NO_CACHE_KEY)) == []
  {
    if log != [] {
      NothingCachedUnderNoKey(Init(log));
    }
  }

  lemma {:induction false} HistoryGrows(log: Ledger, j: nat, subject: Subject)
    requires j <= |log|
    ensures History(log[..j], subject) <= History(log, subject)
  {
    if j < |log| {
      HistoryGrows(Init(log), j, subject);
      assert Init(log)[..j] == log[..j];
    } else {
      assert log[..j] == log;
    }
  }

  /** The executions of a key that has settled stay the same to the end of the run. */
  lemma SettledIsFinal(log: Ledger, j: nat, key: string)
    requires Consistent(log) && j <= |log| && Settled(History(log[..j], Cached(key)))
    ensures History(log, Cached(key)) == History(log[..j], Cached(key))
  {
    HistoryGrows(log, j, Cached(key));
    CachedOutcomesSettle(log, key);
    SettledPrefixIsAll(History(log[..j], Cached(key)), History(log, Cached(key)));
  }

  lemma SettledPrefixIsAll(before: seq<ToolResult>, all: seq<ToolResult>)
    requires before <= all && Settles(all)
    requires Settled(before)
    ensures before == all
  {
    assert before[|before| - 1] == all[|before| - 1];
  }

  /** The call is blocked by a guard before the cache is consulted, or answered with the stored outcome. */
  predicate AnsweredFrom(e: Event, stored: ToolResult) {
    && e.disposition in {MutationBlocked, RepetitionBlocked, SuccessReplayed, FailureReplayed}
    && (!IsBlocked(e.disposition) ==>
          e.result == ToolResult(e.id, stored.output, if stored.Succeeded() then "" else stored.error))
  }

  lemma LastOutcome(log: Ledger, subject: Subject)
    requires log != [] && Last(log).disposition == Executed && Concerns(Last(log).keys, subject)
    ensures var h := History(log, subject); h != [] && Last(h) == Last(log).result
  {
  }

  lemma SettledCallReplays(log: Ledger, e: Event, stored: ToolResult)
    requires Follows(log, e) && SettledWith(History(log, Cached(e.keys.cache)), stored)
    ensures AnsweredFrom(e, stored)
  {
  }

  /** From an execution that settles its cache key on, that execution stays the key's last one. */
  lemma SettledStaysLast(log: Ledger, i: nat, key: string)
    requires Consistent(log) && i < |log| && log[i].disposition == Executed && Concerns(log[i].keys, Cached(key))
    requires Settled(History(log[..i + 1], Cached(key)))
    ensures SettledWith(History(log, Cached(key)), log[i].result)
  {
    SettledIsFinal(log, i + 1, key);
    LastOutcome(log[..i + 1], Cached(key));
  }

  /** Replay: after the execution at `i` settles its cache key, a later call with that key is either
      blocked by a guard or answered with the stored output and error of that execution. */
  lemma SettledCallsReplay(log: Ledger, i: nat, j: nat)
    requires Consistent(log) && i < j < |log|
    requires log[i].disposition == Executed && log[i].keys.cache == log[j].keys.cache != NO_CACHE_KEY
    requires Settled(History(log[..i + 1], Cached(log[i].keys.cache)))
    ensures AnsweredFrom(log[j], log[i].result)
  {
    ConsistentPrefix(log, j);
    assert FollowsAt(log, j);
    assert log[..j][..i + 1] == log[..i + 1];
    SettledStaysLast(log[..j], i, log[i].keys.cache);
    SettledCallReplays(log[..j], log[j], log[i].result);
  }
}
