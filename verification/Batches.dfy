/** A run's history, batch by batch: what the run loop reads off the events of its batches. */
module Batches {
  import opened Strings
  import opened ToolCalls
  import opened ToolLedger
  import opened FailureTracking
  import opened ToolExecutor

  datatype RunEnd =
    | Canceled
    | ModelFailed
    | RecoveredFromModelError
    | InterruptedStream
    | NotActionable
    | FinalAnswer
    | NoToolExecutor
    | IterationCapAnswered
    | IterationCapExceeded
    | PlanFailed
    | PlanWithheld
    | Delegated
    | DelegationFailed
    | StructuralBlocker
    | MutationRepeated
    | AllCallsBlocked
    | FailureEscalation
    | NoProgress

  /** Event number j is no progress, and its result speaks of repetition. */
  ghost predicate Repetitive(log: Ledger, j: nat)
    requires j < |log|
  {
    !FreshAt(log, j) && Contains(log[j].result.error, REPETITION)
  }

  /** The events from a up to b are a batch in which all calls were blocked as repetitions. */
  ghost predicate BlockedBatch(log: Ledger, a: nat, b: nat) {
    a < b <= |log| && forall j: nat :: a <= j < b ==> Repetitive(log, j)
  }

  /** The executor's own outcome of event number j, stale or replayed, speaks of repetition. */
  ghost predicate OutcomeRepeats(log: Ledger, j: nat)
    requires j < |log|
  {
    log[j].disposition in {Executed, FailureReplayed} && Repetitive(log, j)
  }

  /** A batch is blocked exactly if it has calls and each of them was stopped by a guard or a creation counter, or has
      a stale outcome that speaks of repetition itself. So a replayed success, a creation over the limit of the run
      and any progress make it another batch. */
  lemma BlockedExactly(log: Ledger, a: nat, b: nat)
    requires Consistent(log) && b <= |log|
    ensures BlockedBatch(log, a, b) <==>
              && a < b
              && forall j: nat :: a <= j < b ==>
                   log[j].disposition in {MutationBlocked, RepetitionBlocked, CreationBlocked} || OutcomeRepeats(log, j)
  {
    forall j: nat | j < b
      ensures Repetitive(log, j) <==>
                log[j].disposition in {MutationBlocked, RepetitionBlocked, CreationBlocked} || OutcomeRepeats(log, j)
    {
      assert FollowsAt(log, j);
      hide Decide, History;
      NothingInNothing();
      if Contains(log[j].result.error, REPETITION) {
        RepetitionIsNoticed(log[j].result.error);
      }
    }
  }

  lemma NothingInNothing()
    ensures !Contains("", REPETITION)
  {
  }

  /** An earlier batch is the same in a longer ledger. */
  lemma BlockedStays(log: Ledger, later: Ledger, a: nat, b: nat)
    requires log <= later && b <= |log|
    ensures BlockedBatch(later, a, b) <==> BlockedBatch(log, a, b)
  {
    forall j: nat | j < b
      ensures Repetitive(later, j) <==> Repetitive(log, j)
    {
      assert later[..j] == log[..j] && later[j] == log[j];
    }
  }

  /** The number of blocked batches in a row after a batch that began at `start`. */
  ghost function BlockedAfter(log: Ledger, start: nat, before: nat): nat {
    if BlockedBatch(log, start, |log|) then before + 1 else 0
  }

  lemma FreshIsNotBlocked(log: Ledger, start: nat)
    requires AnyFresh(log, start)
    ensures !BlockedBatch(log, start, |log|)
  {
    hide Fresh;
    var j: nat :| start <= j < |log| && FreshAt(log, j);
    assert !Repetitive(log, j);
  }

  /** Where the batches of a run end: batch number i has the events from cuts[i] up to cuts[i + 1]. */
  ghost predicate Cuts(log: Ledger, start: nat, cuts: seq<nat>) {
    && cuts != [] && cuts[0] == start && cuts[|cuts| - 1] == |log|
    && forall i, j :: 0 <= i < j < |cuts| ==> cuts[i] <= cuts[j]
  }

  ghost predicate BlockedAt(log: Ledger, cuts: seq<nat>, i: nat) {
    i + 1 < |cuts| && BlockedBatch(log, cuts[i], cuts[i + 1])
  }

  /** The number of blocked batches in a row at the end; `base` of them came before the first one here. */
  ghost function Streak(log: Ledger, cuts: seq<nat>, base: nat): nat {
    if |cuts| < 2 then base
    else if BlockedAt(log, cuts, |cuts| - 2) then Streak(log, cuts[..|cuts| - 1], base) + 1
    else 0
  }

  /** No batch but the last was the second blocked one in a row. */
  ghost predicate NoneTwice(log: Ledger, cuts: seq<nat>) {
    forall i: nat :: i + 3 < |cuts| ==> !(BlockedAt(log, cuts, i) && BlockedAt(log, cuts, i + 1))
  }

  lemma BlockedAtStays(log: Ledger, later: Ledger, cuts: seq<nat>, more: seq<nat>, i: nat)
    requires log <= later && cuts <= more && i + 1 < |cuts| && cuts[i + 1] <= |log|
    ensures BlockedAt(later, more, i) <==> BlockedAt(log, cuts, i)
  {
    BlockedStays(log, later, cuts[i], cuts[i + 1]);
  }

  lemma {:induction false} StreakStays(log: Ledger, later: Ledger, cuts: seq<nat>, base: nat)
    requires log <= later && forall i :: 0 <= i < |cuts| ==> cuts[i] <= |log|
    ensures Streak(later, cuts, base) == Streak(log, cuts, base)
  {
    hide BlockedAt;
    if |cuts| >= 2 {
      BlockedAtStays(log, later, cuts, cuts, |cuts| - 2);
      StreakStays(log, later, cuts[..|cuts| - 1], base);
    }
  }

  /** What one more batch does to the streak. */
  lemma StreakStep(log: Ledger, later: Ledger, start: nat, cuts: seq<nat>, base: nat)
    requires log <= later && Cuts(log, start, cuts)
    ensures Cuts(later, start, cuts + [|later|])
    ensures Streak(later, cuts + [|later|], base)
            == if BlockedBatch(later, |log|, |later|) then Streak(log, cuts, base) + 1 else 0
  {
    hide BlockedBatch;
    var more := cuts + [|later|];
    assert more[..|more| - 1] == cuts;
    StreakStays(log, later, cuts, base);
  }

  lemma NoneTwiceStep(log: Ledger, later: Ledger, start: nat, cuts: seq<nat>, base: nat)
    requires log <= later && Cuts(log, start, cuts) && NoneTwice(log, cuts) && Streak(log, cuts, base) < 2
    ensures NoneTwice(later, cuts + [|later|])
  {
    hide BlockedAt;
    var more := cuts + [|later|];
    forall i: nat | i + 3 < |more|
      ensures !(BlockedAt(later, more, i) && BlockedAt(later, more, i + 1))
    {
      BlockedAtStays(log, later, cuts, more, i);
      BlockedAtStays(log, later, cuts, more, i + 1);
      if i + 3 == |cuts| {
        LastTwo(log, cuts, base);
      }
    }
  }

  /** Two blocked batches at the end are a streak of two at least. */
  lemma LastTwo(log: Ledger, cuts: seq<nat>, base: nat)
    requires |cuts| >= 3
    ensures Streak(log, cuts, base) >= 2 <==>
              BlockedAt(log, cuts, |cuts| - 3) && BlockedAt(log, cuts, |cuts| - 2)
  {
    var init := cuts[..|cuts| - 1];
    assert BlockedAt(log, init, |init| - 2) <==> BlockedAt(log, cuts, |cuts| - 3);
  }

  lemma {:induction false} BlockersStay(log: Ledger, later: Ledger, c: string)
    requires log <= later && forall j :: |log| <= j < |later| ==> IsRepetitionNotice(later[j].result.error)
    ensures BlockerCount(later, c) == BlockerCount(log, c)
    decreases |later|
  {
    hide IsRepetitionNotice, BlockerCategory;
    if log != later {
      BlockersStay(log, Init(later), c);
    }
  }

  /** Some structural problem was reported three times. */
  ghost predicate SomeBlocker(log: Ledger) {
    exists c :: BlockerCount(log, c) >= 3
  }

  /** A blocked batch reports no structural problem. */
  lemma BlockedReportsNothing(log: Ledger, later: Ledger)
    requires log <= later && BlockedBatch(later, |log|, |later|)
    ensures SomeBlocker(later) <==> SomeBlocker(log)
  {
    hide IsRepetitionNotice, BlockerCount;
    forall j | |log| <= j < |later|
      ensures IsRepetitionNotice(later[j].result.error)
    {
      assert Repetitive(later, j);
      RepetitionIsNoticed(later[j].result.error);
    }
    forall c
      ensures BlockerCount(later, c) == BlockerCount(log, c)
    {
      BlockersStay(log, later, c);
    }
  }

  /** In recovery, and three more failures counted. */
  ghost predicate Escalates(log: Ledger) {
    RecoveryAfter(log).active && RecoveryAfter(log).failures >= 3
  }

  /** A run gives up on failing tools only after five failures. */
  lemma EscalationCounts(log: Ledger)
    requires Escalates(log)
    ensures log != [] && FailureCount(log) >= 5
  {
    RecoveryCountsFailures(log);
  }

  lemma MutationsGrow(log: Ledger, later: Ledger, start: nat)
    requires log <= later && start <= |log|
    ensures AnyMutationBlocked(later, start) <==> AnyMutationBlocked(log, start) || AnyMutationBlocked(later, |log|)
  {
  }

  /** What the batch that began at `start` says about the end of the run; `blocked` blocked batches in a row came before
      it. */
  ghost predicate BatchEnds(log: Ledger, start: nat, blocked: nat, end: Option<RunEnd>) {
    && (end == Some(StructuralBlocker) <==> SomeBlocker(log))
    && (end == Some(MutationRepeated) <==> !SomeBlocker(log) && AnyMutationBlocked(log, start))
    && (end == Some(AllCallsBlocked) <==>
          !AnyMutationBlocked(log, start) && BlockedBatch(log, start, |log|) && blocked >= 1)
    && (end == Some(FailureEscalation) <==>
          && Escalates(log) && !SomeBlocker(log) && !AnyMutationBlocked(log, start)
          && !(BlockedBatch(log, start, |log|) && blocked >= 1))
  }

  /** Before the last batch nothing gave a reason to stop. */
  ghost predicate EarlierQuiet(log: Ledger, start: nat, cuts: seq<nat>) {
    |cuts| >= 2 ==>
      && start <= cuts[|cuts| - 2] <= |log|
      && var earlier := log[..cuts[|cuts| - 2]];
         !SomeBlocker(earlier) && !AnyMutationBlocked(earlier, start) && !Escalates(earlier)
  }

  /** What the batches of a run since `start` say about its end: it ends for a structural problem exactly if one was
      reported three times, for a repeated mutation exactly if one was blocked, for blocked calls exactly if the last
      two batches were blocked, and for failing tools exactly if recovery failed three times and none of these hold.
      Without its last batch there is no such reason. */
  ghost predicate BatchesTell(log: Ledger, start: nat, cuts: seq<nat>, base: nat, end: Option<RunEnd>) {
    && start <= |log| && Cuts(log, start, cuts) && NoneTwice(log, cuts) && EarlierQuiet(log, start, cuts)
    && (end == Some(StructuralBlocker) <==> SomeBlocker(log))
    && (end == Some(MutationRepeated) <==> !SomeBlocker(log) && AnyMutationBlocked(log, start))
    && (end == Some(AllCallsBlocked) <==> !AnyMutationBlocked(log, start) && Streak(log, cuts, base) >= 2)
    && (end == Some(FailureEscalation) <==>
          Escalates(log) && !SomeBlocker(log) && !AnyMutationBlocked(log, start) && Streak(log, cuts, base) < 2)
  }

  /** A run starts without a reason to stop. */
  lemma NothingTold(log: Ledger, base: nat)
    requires !SomeBlocker(log) && base < 2 && !Escalates(log)
    ensures BatchesTell(log, |log|, [|log|], base, None)
  {
  }

  /** One more batch. While the run goes on the earlier ones gave no reason to stop. */
  lemma BatchTold(log: Ledger, later: Ledger, start: nat, cuts: seq<nat>, base: nat, end: Option<RunEnd>)
    requires log <= later && BatchesTell(log, start, cuts, base, None)
    requires BatchEnds(later, |log|, Streak(log, cuts, base), end)
    ensures BatchesTell(later, start, cuts + [|later|], base, end)
    ensures Streak(later, cuts + [|later|], base) == BlockedAfter(later, |log|, Streak(log, cuts, base))
  {
    hide BlockedBatch, SomeBlocker, AnyMutationBlocked, Escalates, NoneTwice, Cuts, Streak;
    StreakStep(log, later, start, cuts, base);
    NoneTwiceStep(log, later, start, cuts, base);
    MutationsGrow(log, later, start);
    assert later[..|log|] == log && Cuts(log, start, cuts);
    LastCut(log, start, cuts);
  }

  lemma LastCut(log: Ledger, start: nat, cuts: seq<nat>)
    requires Cuts(log, start, cuts)
    ensures cuts != [] && cuts[|cuts| - 1] == |log| && start <= |log|
  {
  }

  predicate IsBatchEnd(end: RunEnd) {
    end in {StructuralBlocker, MutationRepeated, AllCallsBlocked, FailureEscalation, NoProgress}
  }

  /** Without a further batch the run does not end for these reasons. */
  lemma NoBatchTold(log: Ledger, start: nat, cuts: seq<nat>, base: nat, end: RunEnd)
    requires BatchesTell(log, start, cuts, base, None) && !IsBatchEnd(end)
    ensures BatchesTell(log, start, cuts, base, Some(end))
  {
  }

  /** From a fresh start the last two batches are all that counts. */
  lemma TwoBlockedBatches(log: Ledger, cuts: seq<nat>)
    ensures Streak(log, cuts, 0) >= 2 <==>
              |cuts| >= 3 && BlockedAt(log, cuts, |cuts| - 3) && BlockedAt(log, cuts, |cuts| - 2)
  {
    hide BlockedAt;
    if |cuts| >= 3 {
      LastTwo(log, cuts, 0);
    }
  }

  /** Calls were requested, and each was stopped by a repetition guard or the counter of its agent. */
  ghost predicate OnlyStopped(log: Ledger, a: nat, b: nat) {
    a < b <= |log| && forall j: nat :: a <= j < b ==> log[j].disposition in {RepetitionBlocked, CreationBlocked}
  }

  /** Two batches in a row in which every call was stopped end a run, and for this reason. */
  lemma StoppedTwiceEnds(log: Ledger, cuts: seq<nat>, end: RunEnd, i: nat)
    requires Consistent(log) && BatchesTell(log, 0, cuts, 0, Some(end)) && i + 2 < |cuts|
    requires OnlyStopped(log, cuts[i], cuts[i + 1]) && OnlyStopped(log, cuts[i + 1], cuts[i + 2])
    ensures i + 3 == |cuts| && end == AllCallsBlocked
  {
    hide BlockedBatch, SomeBlocker, Escalates, Consistent, Streak;
    BlockedExactly(log, cuts[i], cuts[i + 1]);
    BlockedExactly(log, cuts[i + 1], cuts[i + 2]);
    assert BlockedAt(log, cuts, i) && BlockedAt(log, cuts, i + 1);
    assert i + 3 == |cuts|;
    TwoBlockedBatches(log, cuts);
    var earlier := log[..cuts[i + 1]];
    forall j: nat | j < |log|
      ensures log[j].disposition != MutationBlocked
    {
      assert j < cuts[i + 1] ==> earlier[j].disposition != MutationBlocked;
    }
  }
}
