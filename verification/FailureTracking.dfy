/** How the outcomes of tool calls drive error recovery and the hard stop on structural blockers. */
module FailureTracking {
  import opened Strings
  import opened ToolCalls
  import opened ToolLedger

  const FAILURE_RECOVERY_TRIGGER := 2
  const FAILURE_GUIDANCE_ESCALATION := 3
  const STRUCTURAL_BLOCKER_CAP := 3

  /** The structural problem an error reports, "" for none. */
  function BlockerCategory(error: string): string {
    var lower := Lower(error);
    if Contains(lower, "write parent does not exist") || Contains(lower, "no existing ancestor") then
      "missing_parent_directory"
    else if Contains(lower, "capability denied") then "capability_denied"
    else if Contains(lower, "outside workspace") then "outside_workspace"
    else if Contains(lower, "protected control-plane path") then "protected_path"
    else ""
  }

  /** The phrases that report a structural problem. */
  function PhrasesOf(category: string): seq<string> {
    if category == "missing_parent_directory" then ["write parent does not exist", "no existing ancestor"]
    else if category == "capability_denied" then ["capability denied"]
    else if category == "outside_workspace" then ["outside workspace"]
    else if category == "protected_path" then ["protected control-plane path"]
    else []
  }

  ghost predicate Reports(error: string, category: string) {
    exists i :: 0 <= i < |PhrasesOf(category)| && Contains(Lower(error), PhrasesOf(category)[i])
  }

  /** An error has a category exactly if it reports one, in any letter case, and if it reports only one it has that. */
  lemma CategoryMeans(error: string)
    ensures BlockerCategory(error) != "" ==> Reports(error, BlockerCategory(error))
    ensures forall c :: Reports(error, c) ==> BlockerCategory(error) != ""
    ensures forall c :: Reports(error, c) && (forall d :: Reports(error, d) ==> d == c) ==> BlockerCategory(error) == c
  {
    hide Contains, Lower;
    var category := BlockerCategory(error);
    if category != "" {
      var i := if Contains(Lower(error), PhrasesOf(category)[0]) then 0 else 1;
      assert Contains(Lower(error), PhrasesOf(category)[i]);
    }
    assert PhrasesOf("missing_parent_directory")[1] == "no existing ancestor";
  }

  predicate IsFailure(r: ToolResult) {
    !IsRepetitionNotice(r.error) && !r.Succeeded()
  }

  /** Failures since the last success, repetition notices aside. */
  function TrailingFailures(log: Ledger): nat {
    if log == [] then 0
    else
      var r := Last(log).result;
      if IsRepetitionNotice(r.error) then TrailingFailures(Init(log))
      else if r.Succeeded() then 0
      else TrailingFailures(Init(log)) + 1
  }

  function FailureCount(log: Ledger): nat {
    if log == [] then 0 else FailureCount(Init(log)) + if IsFailure(Last(log).result) then 1 else 0
  }

  function BlockerCount(log: Ledger, category: string): nat {
    if log == [] then 0
    else
      var r := Last(log).result;
      BlockerCount(Init(log), category)
      + if IsFailure(r) && category != "" && BlockerCategory(Trim(r.error)) == category then 1 else 0
  }

  predicate ReportedAt(log: Ledger, category: string, j: nat) {
    && j < |log| && category != "" && IsFailure(log[j].result)
    && BlockerCategory(Trim(log[j].result.error)) == category
  }

  /** The count of a structural problem is the number of failed events that have it as their category. */
  lemma {:induction false} BlockerCountMeans(log: Ledger, category: string)
    ensures BlockerCount(log, category) == |EventsReporting(log, category)|
  {
    hide IsFailure, BlockerCategory, Trim;
    if log == [] {
      assert EventsReporting(log, category) == {};
    } else {
      BlockerCountMeans(Init(log), category);
      ReportingStep(log, category);
      hide EventsReporting;
    }
  }

  function EventsReporting(log: Ledger, category: string): set<nat> {
    set j: nat | j < |log| && ReportedAt(log, category, j)
  }

  lemma ReportingStep(log: Ledger, category: string)
    requires log != []
    ensures var n := |log| - 1;
            && n !in EventsReporting(Init(log), category)
            && EventsReporting(log, category)
               == EventsReporting(Init(log), category) + if ReportedAt(log, category, n) then {n} else {}
  {
    hide IsFailure, BlockerCategory, Trim;
    var n := |log| - 1;
    forall j: nat | j < n
      ensures ReportedAt(log, category, j) <==> ReportedAt(Init(log), category, j)
    {
      assert log[j] == Init(log)[j];
    }
  }

  datatype Recovery = Recovery(active: bool, failures: nat, successes: nat)

  /** Recovery starts at the second failure in a row and ends at the third success in a row. */
  function RecoveryAfter(log: Ledger): Recovery {
    if log == [] then Recovery(false, 0, 0)
    else
      var before := RecoveryAfter(Init(log));
      var r := Last(log).result;
      if IsRepetitionNotice(r.error) then before
      else if r.Succeeded() then
        if !before.active then before
        else if before.successes >= 2 then Recovery(false, 0, 0)
        else before.(successes := before.successes + 1)
      else if before.active then Recovery(true, before.failures + 1, 0)
      else if TrailingFailures(log) >= FAILURE_RECOVERY_TRIGGER then Recovery(true, 0, 0)
      else before.(successes := 0)
  }

  function CountUnder(counts: map<string, nat>, key: string): nat {
    if key in counts then counts[key] else 0
  }

  datatype FailureState = FailureState(consecutive: nat, recovery: Recovery, blockers: map<string, nat>)

  /** The failure counters of a run say what the ledger says. */
  ghost predicate FailuresAgree(log: Ledger, state: FailureState) {
    && state.consecutive == TrailingFailures(log)
    && state.recovery == RecoveryAfter(log)
    && forall c :: BlockerAgrees(log, state.blockers, c)
  }

  ghost predicate BlockerAgrees(log: Ledger, blockers: map<string, nat>, c: string) {
    CountUnder(blockers, c) == BlockerCount(log, c)
  }

  function Register(state: FailureState, error: string): FailureState {
    var trimmed := Trim(error);
    var recovery := state.recovery;
    if IsRepetitionNotice(error) then state
    else if trimmed == "" then
      FailureState(0,
                   if !recovery.active then recovery
                   else if recovery.successes >= 2 then Recovery(false, 0, 0)
                   else recovery.(successes := recovery.successes + 1),
                   state.blockers)
    else
      var category := BlockerCategory(trimmed);
      FailureState(state.consecutive + 1,
                   if recovery.active then Recovery(true, recovery.failures + 1, 0)
                   else if state.consecutive + 1 >= FAILURE_RECOVERY_TRIGGER then Recovery(true, 0, 0)
                   else recovery.(successes := 0),
                   if category == "" then state.blockers
                   else state.blockers[category := CountUnder(state.blockers, category) + 1])
  }

  /** Registering the next outcome keeps the counters in step with the ledger. */
  lemma RegisterAgrees(log: Ledger, e: Event, state: FailureState)
    requires FailuresAgree(log, state)
    ensures FailuresAgree(log + [e], Register(state, e.result.error))
  {
    assert Init(log + [e]) == log;
    var state' := Register(state, e.result.error);
    forall c
      ensures BlockerAgrees(log + [e], state'.blockers, c)
    {
      assert BlockerAgrees(log, state.blockers, c);
    }
  }

  /** In recovery, every failure but the ones that started it is counted towards the escalation, so a
      run gives up on failing tools only after five failures. */
  lemma {:induction false} RecoveryCountsFailures(log: Ledger)
    ensures TrailingFailures(log) <= FailureCount(log)
    ensures RecoveryAfter(log).active ==> FailureCount(log) >= RecoveryAfter(log).failures + FAILURE_RECOVERY_TRIGGER
    ensures !RecoveryAfter(log).active ==> TrailingFailures(log) < FAILURE_RECOVERY_TRIGGER
  {
    if log != [] {
      RecoveryCountsFailures(Init(log));
      assert Trim("") == "";
    }
  }
}
