/** The run loop: model turns, re-prompts, delegation gating, tool batches and every way to stop. */
module RunLoop {
  import opened Strings
  import opened ToolCalls
  import opened ToolLedger
  import opened FailureTracking
  import opened ToolExecutor
  import opened ToolRun
  import opened Batches
  import opened TaskGraph
  import opened Delegation
  import opened DelegationTrigger
  import opened ModelText

  datatype ModelReply =
    | Answer(text: string, calls: seq<ToolCall>, parseFailure: bool, promptTokens: int)
    | ModelError(noChoices: bool, transient: bool, canceled: bool)

  /** Everything a run does not decide itself: the answers of model, tools and subagents by number of the
      call, and the configuration. */
  datatype Environment = Environment(
    model: nat -> ModelReply,
    tools: (nat, ToolCall) -> ToolReply,
    subAgent: (nat, Task) -> SubAgentReply,
    route: Task -> Routing,
    builtInRoles: set<string>,
    pattern: Option<Template>,  // decomposition template that the prompt matches
    configuredMode: Mode,
    autoDelegate: bool,
    approved: bool,
    hasExecutor: bool,
    hasAllowedTools: bool,
    streaming: bool
  )

  const NO_CHOICES_RETRY_CAP := 3
  const TRANSIENT_RETRY_CAP := 3
  const TOOL_PARSE_RETRY_CAP := 4
  const FOLLOW_THROUGH_REPROMPT_CAP := 5
  const NO_PROGRESS_CAP := 3
  const MAX_TOOL_REWRITE_BUDGET := 3
  const DEFAULT_TOOL_ITERATION_CAP := 120
  const CONTEXT_WINDOW := 120000

  function ToolCap(requested: int, runnerDefault: int): nat {
    if requested > 0 then requested else if runnerDefault > 0 then runnerDefault else DEFAULT_TOOL_ITERATION_CAP
  }

  predicate IsDelegationTool(name: string) {
    name == "agent.list" || name == "agent.run"
  }

  /** A gated batch loses its first other call; after that the gate is open. */
  function DropFirstForbidden(calls: seq<ToolCall>): seq<ToolCall> {
    if calls == [] then []
    else if IsDelegationTool(calls[0].name) then [calls[0]] + DropFirstForbidden(calls[1..])
    else calls[1..]
  }

  predicate AllDelegation(calls: seq<ToolCall>) {
    forall i :: 0 <= i < |calls| ==> IsDelegationTool(calls[i].name)
  }

  lemma {:induction false} DropAfterDelegation(calls: seq<ToolCall>, i: nat)
    requires i <= |calls| && AllDelegation(calls[..i])
    ensures DropFirstForbidden(calls) == calls[..i] + DropFirstForbidden(calls[i..])
  {
    if i == 0 {
      assert calls[0..] == calls;
    } else {
      assert IsDelegationTool(calls[..i][0].name);
      assert calls[1..][..i - 1] == calls[..i][1..];
      DropAfterDelegation(calls[1..], i - 1);
      assert calls[1..][i - 1..] == calls[i..];
      assert calls[..i] == [calls[0]] + calls[1..][..i - 1];
    }
  }

  /** The number of calls of a batch that a closed gate should not let through. */
  function ForbiddenCount(calls: seq<ToolCall>): nat {
    if calls == [] then 0 else (if IsDelegationTool(calls[0].name) then 0 else 1) + ForbiddenCount(calls[1..])
  }

  lemma {:induction false} NoneForbidden(calls: seq<ToolCall>)
    ensures ForbiddenCount(calls) == 0 <==> AllDelegation(calls)
  {
    if calls != [] {
      NoneForbidden(calls[1..]);
      assert forall i :: 0 < i < |calls| ==> calls[i] == calls[1..][i - 1];
    }
  }

  /** Without a forbidden call nothing is dropped; otherwise exactly one call is, so a batch comes out clean
      exactly if at most one of its calls was forbidden. */
  lemma {:induction false} DropsAtMostOne(calls: seq<ToolCall>)
    ensures AllDelegation(calls) ==> DropFirstForbidden(calls) == calls
    ensures !AllDelegation(calls) ==> |DropFirstForbidden(calls)| == |calls| - 1
    ensures AllDelegation(DropFirstForbidden(calls)) <==> ForbiddenCount(calls) <= 1
  {
    if calls != [] {
      DropsAtMostOne(calls[1..]);
      NoneForbidden(calls[1..]);
      NoneForbidden(calls);
      if IsDelegationTool(calls[0].name) {
        ConsDelegation(calls[0], DropFirstForbidden(calls[1..]));
      }
      if IsDelegationTool(calls[0].name) && !AllDelegation(calls) {
        var i :| 0 <= i < |calls| && !IsDelegationTool(calls[i].name);
        assert calls[1..][i - 1] == calls[i];
      }
    }
  }

  lemma ConsDelegation(call: ToolCall, calls: seq<ToolCall>)
    requires IsDelegationTool(call.name)
    ensures AllDelegation([call] + calls) <==> AllDelegation(calls)
  {
    assert forall i :: 0 <= i < |calls| ==> ([call] + calls)[i + 1] == calls[i];
  }

  function AutoExecutePlan(mode: Mode, plan: Plan, approved: bool): bool {
    match mode
    case FullAutonomous => true
    case AutoTrusted => plan.allRolesBuiltIn && plan.minConfidence > 0.7
    case ApprovePlan => approved
    case _ => false
  }

  lemma BlockedMutationInLog(log: Ledger, start: nat)
    requires start <= |log| && AnyMutationBlocked(log, start)
    ensures log != []
  {
  }

  ghost predicate AllTrusted(planned: seq<Task>, builtInRoles: set<string>) {
    forall t :: t in planned ==> Trim(t.role) in builtInRoles && t.confidence > 0.7
  }

  lemma TrustedPlan(planned: seq<Task>, builtInRoles: set<string>, plan: Plan)
    requires Summarises(planned, builtInRoles, plan.minConfidence, plan.allRolesBuiltIn)
    ensures plan.allRolesBuiltIn && plan.minConfidence > 0.7 <==> AllTrusted(planned, builtInRoles)
  {
    hide Trim;
  }

  class Run {
    const env: Environment
    const toolCap: nat
    const tools: Executor
    const delegation: Delegator
    var modelCalls: nat
    var toolIterations: nat
    var noProgress: nat
    var allBlocked: nat
    var parseReprompts: nat
    var followThroughs: nat
    var mode: Mode
    var cooldown: nat
    var pending: seq<Task>
    var locked: bool
    var rewrites: nat
    var lastPromptTokens: int
    var lastOutput: string

    /** Delegation is forced exactly while the lock is on, and then there are subtasks that can be run. */
    ghost predicate GateValid()
      reads this, delegation
    {
      && (locked <==> IsGated(mode))
      && (locked ==> pending != [] && Sortable(pending) && AllNamed(pending) && delegation.hasRunner)
      && rewrites == 0
    }

    /** A run only goes on while none of the stopping conditions of the last batch holds. */
    ghost predicate Healthy()
      reads this, tools
    {
      && (forall c :: c in tools.failures.blockers ==> tools.failures.blockers[c] < STRUCTURAL_BLOCKER_CAP)
      && (tools.failures.recovery.active && tools.records != [] ==>
            tools.failures.recovery.failures < FAILURE_GUIDANCE_ESCALATION)
      && (tools.toolResults != [] ==> noProgress < NO_PROGRESS_CAP) && allBlocked < 2
    }

    ghost predicate Valid()
      reads this, tools, delegation
    {
      && tools.Valid() && GateValid() && Healthy()
      && toolIterations <= toolCap && parseReprompts <= TOOL_PARSE_RETRY_CAP
      && followThroughs <= FOLLOW_THROUGH_REPROMPT_CAP
    }

    /** Upper bound on the turns still to come. */
    ghost function Measure(): int
      reads this
    {
      6 * (toolCap - toolIterations) + 5 * (FOLLOW_THROUGH_REPROMPT_CAP - followThroughs)
      + (if noProgress == 0 then 1 else 0) + (TOOL_PARSE_RETRY_CAP - parseReprompts) + 1
    }

    constructor (env: Environment, requestedCap: int, runnerCap: int, timeoutMs: nat, hasSubAgents: bool)
      ensures Valid() && this.env == env && toolCap == ToolCap(requestedCap, runnerCap)
      ensures fresh(tools) && fresh(delegation) && tools.execute == env.tools && delegation.hasRunner == hasSubAgents
      ensures tools.timeoutMs == timeoutMs
      ensures modelCalls == 0 && allBlocked == 0 && Measure() == 6 * toolCap + 31 && tools.log == [] && toolIterations == 0
    {
      this.env := env;
      toolCap := ToolCap(requestedCap, runnerCap);
      tools := new Executor(timeoutMs, env.tools);
      delegation := new Delegator(hasSubAgents);
      modelCalls, toolIterations, noProgress, allBlocked, parseReprompts, followThroughs := 0, 0, 0, 0, 0, 0;
      mode, cooldown, pending, locked, rewrites := NoMode, 0, [], false, 0;
      lastPromptTokens, lastOutput := 0, "";
    }

    /** Asks the model, up to four times while it only fails transiently and no tool has run. */
    method AskModel() returns (reply: ModelReply)
      modifies `modelCalls
      ensures old(modelCalls) < modelCalls <= old(modelCalls) + 4
      ensures reply == env.model(modelCalls - 1)
      ensures forall k :: old(modelCalls) <= k < modelCalls - 1 ==>
                env.model(k).ModelError? && (env.model(k).noChoices || env.model(k).transient)
      ensures modelCalls > old(modelCalls) + 1 ==> tools.toolResults == []
      ensures reply.ModelError? && (reply.noChoices || reply.transient) && tools.toolResults == [] ==>
                modelCalls == old(modelCalls) + 4
    {
      var attempt := 0;
      while true
        invariant 0 <= attempt <= 3 && modelCalls == old(modelCalls) + attempt
        invariant forall k :: old(modelCalls) <= k < modelCalls ==>
                    env.model(k).ModelError? && (env.model(k).noChoices || env.model(k).transient)
        invariant attempt > 0 ==> tools.toolResults == []
        decreases 3 - attempt
      {
        reply := env.model(modelCalls);
        modelCalls := modelCalls + 1;
        if reply.Answer? {
          return;
        }
        if reply.noChoices {
          if tools.toolResults != [] || attempt >= NO_CHOICES_RETRY_CAP {
            return;
          }
        } else if reply.transient {
          if tools.toolResults != [] || attempt >= TRANSIENT_RETRY_CAP {
            return;
          }
        } else {
          return;
        }
        attempt := attempt + 1;
      }
    }

    /** The final answer from tool results: one more model call when there are results. */
    method FinalizeFromToolResults() returns (text: string)
      modifies `modelCalls
      ensures modelCalls == old(modelCalls) + if tools.toolResults == [] then 0 else 1
      ensures text != "" ==>
                && tools.toolResults != []
                && var reply := env.model(old(modelCalls));
                   reply.Answer? && reply.calls == [] && text == Trim(reply.text)
    {
      if tools.toolResults == [] {
        return "";
      }
      var reply := env.model(modelCalls);
      modelCalls := modelCalls + 1;
      if reply.ModelError? || reply.calls != [] {
        return "";
      }
      return Trim(reply.text);
    }

    function CurrentSignals(): Signals
      reads this, tools
    {
      var repetition := tools.repetition;
      Signals(tools.failures.consecutive, noProgress, allBlocked, exists k :: k in repetition && repetition[k] >= 2,
              lastPromptTokens, CONTEXT_WINDOW, toolIterations)
    }

    /** What the current state of the run triggers when no cooldown is running. */
    function TriggerNow(): Option<Trigger>
      reads this, tools
    {
      ShouldTrigger(ComputeComplexity(CurrentSignals()), DetectUserQuestion(lastOutput))
    }

    /** The subtasks that a trigger in the current state of the run delegates. */
    function SubtasksNow(): seq<Task>
      reads this, tools
    {
      DecomposeTask(env.pattern, ComputeComplexity(CurrentSignals()))
    }

    /** Cooldown, complexity and decomposition. */
    method ComputeDelegationTrigger() returns (trigger: Option<Trigger>, subtasks: seq<Task>)
      modifies `cooldown
      ensures trigger.Some? ==> trigger.value.mode in {PromptOnly, ToolGated, AutoExecute}
      ensures trigger.Some? ==>
                subtasks == old(SubtasksNow()) && subtasks != [] && Sortable(subtasks) && AllNamed(subtasks)
      ensures old(cooldown) > 0 ==> trigger.None? && cooldown == old(cooldown) - 1
      ensures old(cooldown) == 0 ==> cooldown == 0 && trigger == TriggerNow()
    {
      hide Sortable, AllNamed;
      if cooldown > 0 {
        cooldown := cooldown - 1;
        return None, [];
      }
      var signals := CurrentSignals();
      var score := ComputeComplexity(signals);
      trigger := ShouldTrigger(score, DetectUserQuestion(lastOutput));
      subtasks := DecomposeTask(env.pattern, score);
      DecompositionSortable(env.pattern, score);
      if trigger.Some? {
        TriggersNeedSignals(signals, DetectUserQuestion(lastOutput));
      }
    }

    /** All these tasks have their results, from the subagent calls since number `start`: what is known of such
        results is known of these. */
    ghost predicate Done(run: seq<Task>, tried: seq<Attempt>, start: nat)
      reads delegation
    {
      && Sortable(run) && (forall t :: t in run ==> Finished(t, delegation.completed, tried))
      && delegation.subAgentCalls == start + |tried| && |tried| <= 2 * |run|
      && Asked(tried, start, env.subAgent) && AttemptsAmong(tried, run, env.route)
    }

    /** These tasks were delegated and all of them have their results, by their own dependencies. */
    ghost predicate DoneFor(tasks: seq<Task>, start: nat)
      reads delegation
    {
      exists run, tried :: DoneBy(tasks, start, run, tried)
    }

    /** The list `run`, the tasks or the planner's versions of them, was run by the attempts `tried`. */
    ghost predicate DoneBy(tasks: seq<Task>, start: nat, run: seq<Task>, tried: seq<Attempt>)
      reads delegation
    {
      && IsRunFor(run, tasks, env.route) && Done(run, tried, start)
      && forall t :: t in tasks ==> Finished(t, delegation.completed, tried)
    }

    /** Whether the configured mode lets a plan for these subtasks run by itself: trusted plans need built-in
        roles and a confidence of more than 0.7 for every task. */
    ghost predicate Trusted(subtasks: seq<Task>) {
      match env.configuredMode
      case FullAutonomous => true
      case AutoTrusted => AllTrusted(PlanTasks(subtasks, env.route), env.builtInRoles)
      case ApprovePlan => env.approved
      case _ => false
    }

    /** Whether the configuration lets subtasks run without asking anybody. */
    ghost predicate MayRun(subtasks: seq<Task>) {
      delegation.hasRunner && if IsPlannerMode(env.configuredMode) then Trusted(subtasks) else env.autoDelegate
    }

    /** What an end in the delegation block says about its subtasks: they were allowed to run and have their results
        from the subagent calls since number `start`, or a planner mode withheld them. */
    ghost predicate DelegationEnd(end: RunEnd, subtasks: seq<Task>, start: nat)
      reads delegation
    {
      && (end == Delegated ==> MayRun(subtasks) && DoneFor(subtasks, start))
      && (end == PlanWithheld ==> IsPlannerMode(env.configuredMode) && !MayRun(subtasks))
    }

    /** Planner modes take the run over once a trigger is more than a hint. */
    method PlannerTakeover(subtasks: seq<Task>) returns (end: RunEnd)
      requires subtasks != [] && Sortable(subtasks) && AllNamed(subtasks)
      modifies `pending, delegation
      ensures end == PlanWithheld || end == Delegated
      ensures end == Delegated <==> delegation.hasRunner && Trusted(subtasks)
      ensures delegation.planned
      ensures end == Delegated ==> DoneFor(subtasks, old(delegation.subAgentCalls))
    {
      hide Sortable, AllNamed, Finished, InOrder, Summarises, PlanTasks, Asked, AttemptsAmong;
      PlanKeepsEdges(subtasks, env.route);
      PlanKeepsSortable(subtasks, env.route);
      var plan := GeneratePlan(subtasks, env.route, env.builtInRoles);
      if plan.None? {
        return PlanFailed;
      }
      SortableReordered(PlanTasks(subtasks, env.route), plan.value.order);
      delegation.planned := true;
      pending := plan.value.order;
      var auto := AutoExecutePlan(env.configuredMode, plan.value, env.approved);
      assert auto <==> Trusted(subtasks) by {
        TrustedPlan(PlanTasks(subtasks, env.route), env.builtInRoles, plan.value);
      }
      if auto && !delegation.hasRunner {
        auto := false;
      }
      if !auto {
        return PlanWithheld;
      }
      var error;
      ghost var run, tried;
      error, run, tried := delegation.ExecuteDelegated(pending, env.subAgent, env.route, env.builtInRoles);
      if error.Some? {
        return DelegationFailed;
      }
      RunFinishesTasks(run, subtasks, env.route, delegation.completed, tried);
      assert DoneBy(subtasks, old(delegation.subAgentCalls), run, tried);
      return Delegated;
    }

    /** Delegates tasks that can be sorted. */
    method Delegate(tasks: seq<Task>) returns (ok: bool)
      requires Sortable(tasks) && AllNamed(tasks) && delegation.hasRunner
      modifies delegation
      ensures ok && DoneFor(tasks, old(delegation.subAgentCalls))
    {
      hide Sortable, AllNamed, Finished, Asked, AttemptsAmong;
      var error;
      ghost var run, tried;
      error, run, tried := delegation.ExecuteDelegated(tasks, env.subAgent, env.route, env.builtInRoles);
      assert DoneBy(tasks, old(delegation.subAgentCalls), run, tried);
      return error.None?;
    }

    /** What a trigger does to the run. */
    method Activate(trigger: Trigger, subtasks: seq<Task>) returns (end: Option<RunEnd>)
      requires GateValid() && !locked && trigger.mode in {PromptOnly, ToolGated, AutoExecute}
      requires subtasks != [] && Sortable(subtasks) && AllNamed(subtasks)
      modifies `cooldown, `mode, `pending, `locked, delegation
      ensures end.Some? ==> end.value == PlanWithheld || end.value == Delegated
      ensures end.Some? ==> DelegationEnd(end.value, subtasks, old(delegation.subAgentCalls))
      ensures if IsPlannerMode(env.configuredMode) && trigger.mode != PromptOnly then end.Some?
              else if trigger.mode == AutoExecute && env.autoDelegate && delegation.hasRunner
              then end == Some(Delegated)
              else end.None? && GateValid() && (locked <==> IsGated(trigger.mode) && delegation.hasRunner)
                   && mode == (if IsGated(trigger.mode) && !delegation.hasRunner then PromptOnly else trigger.mode)
                   && cooldown == trigger.cooldown && pending == subtasks
    {
      hide Sortable, AllNamed, DoneFor, Trusted;
      var triggered := trigger.mode;
      if IsPlannerMode(env.configuredMode) && triggered == PromptOnly {
        var plan := GeneratePlan(subtasks, env.route, env.builtInRoles);
        if plan.Some? {
          delegation.planned := true;
        }
      }
      if IsPlannerMode(env.configuredMode) && triggered != PromptOnly {
        var stop := PlannerTakeover(subtasks);
        return Some(stop);
      }
      if !delegation.hasRunner && IsGated(triggered) {
        triggered := PromptOnly;
      }
      mode, cooldown, pending := triggered, trigger.cooldown, subtasks;
      if IsGated(triggered) {
        locked := true;
      }
      if triggered == AutoExecute && env.autoDelegate {
        var ok := Delegate(subtasks);
        if !ok {
          return Some(DelegationFailed);
        }
        return Some(Delegated);
      }
      return None;
    }

    /** The delegation block at the head of a turn. */
    method CheckTrigger() returns (end: Option<RunEnd>, ghost subtasks: seq<Task>)
      requires GateValid()
      modifies `cooldown, `mode, `pending, `locked, delegation
      ensures end.Some? ==> end.value == PlanWithheld || end.value == Delegated
      ensures end.None? ==> GateValid()
      ensures end.Some? ==>
                subtasks == old(SubtasksNow()) && DelegationEnd(end.value, subtasks, old(delegation.subAgentCalls))
      ensures old(locked) || old(cooldown) > 0 || old(TriggerNow()).None? ==>
                end.None? && locked == old(locked) && mode == old(mode) && pending == old(pending)
      ensures !old(locked) && old(cooldown) == 0 && old(TriggerNow()).Some? ==>
                var triggered := old(TriggerNow()).value.mode;
                if IsPlannerMode(env.configuredMode) && triggered != PromptOnly then end.Some?
                else if triggered == AutoExecute && env.autoDelegate && delegation.hasRunner then end == Some(Delegated)
                else end.None? && (locked <==> IsGated(triggered) && delegation.hasRunner)
                     && mode == (if IsGated(triggered) && !delegation.hasRunner then PromptOnly else triggered)
                     && cooldown == old(TriggerNow()).value.cooldown
    {
      hide Sortable, AllNamed, DelegationEnd, TriggerNow, SubtasksNow, IsPlannerMode;
      end, subtasks := None, [];
      if locked {
        return;
      }
      var trigger, tasks := ComputeDelegationTrigger();
      if trigger.None? {
        return;
      }
      subtasks := tasks;
      end := Activate(trigger.value, tasks);
    }

    method OnModelError(reply: ModelReply) returns (end: RunEnd)
      requires reply.ModelError?
      modifies `modelCalls
      ensures end == Canceled <==> reply.canceled
      ensures end == RecoveredFromModelError <==> !reply.canceled && tools.toolResults != []
      ensures end in {InterruptedStream, ModelFailed} ==>
                (end == InterruptedStream <==> env.streaming && (reply.transient || reply.noChoices))
      ensures end in {Canceled, RecoveredFromModelError, InterruptedStream, ModelFailed}
      ensures modelCalls == old(modelCalls)
                            + if !reply.canceled && tools.toolResults != [] && reply.transient then 1 else 0
    {
      if reply.canceled {
        return Canceled;
      }
      if tools.toolResults != [] {
        if reply.transient {
          var text := FinalizeFromToolResults();
        }
        return RecoveredFromModelError;
      }
      if env.streaming && (reply.transient || reply.noChoices) {
        return InterruptedStream;
      }
      return ModelFailed;
    }

    /** An unparsable tool call that is worth another attempt. */
    predicate RetriesParse(reply: ModelReply, reprompts: nat)
      requires reply.Answer?
    {
      reply.parseFailure && ShouldRetryParse(reply.text, env.hasAllowedTools) && reprompts < TOOL_PARSE_RETRY_CAP
    }

    /** A reply that promises action without any. */
    predicate Promises(reply: ModelReply)
      reads tools
      requires reply.Answer?
    {
      ShouldForceFollowThrough(reply.text, env.hasAllowedTools, tools.toolResults != [])
    }

    /** A reply without tool calls: re-prompt after unparsable calls or empty promises, else answer. */
    method OnPlainText(reply: ModelReply) returns (end: Option<RunEnd>)
      requires Valid() && reply.Answer?
      modifies `modelCalls, `parseReprompts, `followThroughs
      ensures Valid()
      ensures end.None? ==> Measure() < old(Measure()) && modelCalls == old(modelCalls)
      ensures end.Some? ==> end.value in {NotActionable, FinalAnswer}
      ensures RetriesParse(reply, old(parseReprompts)) ==>
                end.None? && parseReprompts == old(parseReprompts) + 1 && followThroughs == old(followThroughs)
      ensures !RetriesParse(reply, old(parseReprompts)) ==>
                && parseReprompts == 0
                && (end == Some(FinalAnswer) <==> !Promises(reply))
                && (end.None? <==> Promises(reply) && old(followThroughs) < FOLLOW_THROUGH_REPROMPT_CAP)
                && followThroughs == old(followThroughs) + if end.None? then 1 else 0
      ensures modelCalls == old(modelCalls)
                            + if end == Some(FinalAnswer) && Trim(reply.text) == "" && tools.toolResults != []
                              then 1 else 0
    {
      hide Executor.Valid, Sortable, AllNamed, ShouldRetryParse, ShouldForceFollowThrough, Trim;
      if reply.parseFailure && ShouldRetryParse(reply.text, env.hasAllowedTools) {
        if parseReprompts < TOOL_PARSE_RETRY_CAP {
          parseReprompts := parseReprompts + 1;
          return None;
        }
      }
      parseReprompts := 0;
      if ShouldForceFollowThrough(reply.text, env.hasAllowedTools, tools.toolResults != []) {
        if followThroughs < FOLLOW_THROUGH_REPROMPT_CAP {
          followThroughs := followThroughs + 1;
          return None;
        }
        return Some(NotActionable);
      }
      if Trim(reply.text) == "" {
        var text := FinalizeFromToolResults();
      }
      return Some(FinalAnswer);
    }

    /** Runs the pending subtasks in place of a forbidden call, and opens the gate. */
    method RunPending() returns (end: Option<RunEnd>)
      requires GateValid() && locked
      modifies `pending, `locked, `mode, delegation
      ensures end == None && GateValid() && !locked && pending == [] && mode == NoMode
      ensures DoneFor(old(pending), old(delegation.subAgentCalls))
    {
      hide Sortable, AllNamed, DoneFor;
      var ok := Delegate(pending);
      if !ok {
        return Some(DelegationFailed);
      }
      pending, locked, mode := [], false, NoMode;
      return None;
    }

    /** Filters a batch while delegation is forced. */
    method GateCalls(calls: seq<ToolCall>) returns (kept: seq<ToolCall>)
      requires GateValid() && locked
      modifies `pending, `locked, `mode, delegation
      ensures GateValid() && kept == DropFirstForbidden(calls)
      ensures locked <==> AllDelegation(calls)
      ensures !locked ==>
                pending == [] && mode == NoMode && DoneFor(old(pending), old(delegation.subAgentCalls))
      ensures locked ==> pending == old(pending) && mode == old(mode)
      ensures locked ==> delegation.subAgentCalls == old(delegation.subAgentCalls)
    {
      kept := [];
      for i := 0 to |calls|
        invariant GateValid()
        invariant locked <==> AllDelegation(calls[..i])
        invariant locked ==> kept == calls[..i] && pending == old(pending) && mode == old(mode)
        invariant locked ==> delegation.subAgentCalls == old(delegation.subAgentCalls)
        invariant !locked ==> DoneFor(old(pending), old(delegation.subAgentCalls))
        invariant !locked ==> pending == [] && mode == NoMode && DropFirstForbidden(calls) == kept + calls[i..]
      {
        hide Sortable, AllNamed, IsDelegationTool, DoneFor;
        var call := calls[i];
        assert calls[..i + 1] == calls[..i] + [call];
        assert calls[i..] == [call] + calls[i + 1..];
        if !IsGated(mode) || IsDelegationTool(call.name) {
          kept := kept + [call];
        } else {
          if rewrites >= MAX_TOOL_REWRITE_BUDGET || pending == [] {
            assert false;  // neither the budget exit nor the rewrite to agent.run is ever reached
          }
          DropAfterDelegation(calls, i);
          var end := RunPending();
        }
      }
      assert calls[..|calls|] == calls;
      DropsAtMostOne(calls);
    }

    /** Forced delegation: filter the calls, and re-prompt once when only plain text is left. */
    method Gate(calls: seq<ToolCall>, text: string) returns (kept: seq<ToolCall>, again: bool)
      requires Valid() && calls != []
      modifies `pending, `locked, `mode, `noProgress, `lastOutput, delegation
      ensures GateValid() && tools.Valid()
      ensures kept == if old(locked) then DropFirstForbidden(calls) else calls
      ensures locked <==> old(locked) && AllDelegation(calls)
      ensures old(locked) && !locked ==> DoneFor(old(pending), old(delegation.subAgentCalls))
      ensures again ==> Valid() && Measure() < old(Measure()) && kept == [] && !locked
      ensures !again ==> Measure() == old(Measure())
      ensures kept != [] ==> noProgress == old(noProgress)
      ensures noProgress >= old(noProgress)
    {
      hide Executor.Valid, Sortable, AllNamed, DoneFor;
      kept, again := calls, false;
      if IsGated(mode) {
        kept := GateCalls(calls);
        if kept == [] && Trim(text) != "" {
          noProgress := noProgress + 1;
          if noProgress >= 1 && pending != [] {
            assert false;  // an emptied batch held a forbidden call, and the subtasks ran for it
          }
          if noProgress <= 1 {
            lastOutput := text;
            again := true;
          }
        }
      }
    }

    /** Whether a batch of n calls has calls, and each of its results says that its call was blocked as a
        repetition. */
    method AllRepetitions(n: nat) returns (all: bool)
      requires n <= |tools.toolResults|
      ensures all <==> n > 0 && forall k :: |tools.toolResults| - n <= k < |tools.toolResults| ==>
                                  Contains(tools.toolResults[k].error, REPETITION)
    {
      all := n > 0;
      for k := |tools.toolResults| - n to |tools.toolResults|
        invariant all <==> n > 0 && forall m :: |tools.toolResults| - n <= m < k ==>
                                      Contains(tools.toolResults[m].error, REPETITION)
      {
        if !Contains(tools.toolResults[k].error, REPETITION) {
          return false;
        }
      }
    }

    /** A batch of n results without progress is blocked exactly if all of them speak of repetition. */
    lemma BlockedByResults(n: nat)
      requires tools.Valid() && n <= |tools.toolResults| && !AnyFresh(tools.log, |tools.log| - n)
      ensures BlockedBatch(tools.log, |tools.log| - n, |tools.log|) <==>
                n > 0 && forall k :: |tools.toolResults| - n <= k < |tools.toolResults| ==>
                           Contains(tools.toolResults[k].error, REPETITION)
    {
      ResultsMatchRecords();
      forall k: nat | k < |tools.log|
        ensures tools.toolResults[k] == tools.log[k].result
      {
        assert RecordAgrees(tools.log, tools.records, tools.toolResults, tools.usedIds, k);
      }
      hide Executor.Valid, Fresh;
      forall k: nat | |tools.log| - n <= k < |tools.log|
        ensures Repetitive(tools.log, k) <==> Contains(tools.toolResults[k].error, REPETITION)
      {
        assert !FreshAt(tools.log, k);
      }
    }

    /** The structural blockers that a run counts are those of its ledger. */
    lemma BlockersOfLog()
      requires tools.Valid()
      ensures HasStructuralBlocker() <==> SomeBlocker(tools.log)
    {
      forall c
        ensures CountUnder(tools.failures.blockers, c) == BlockerCount(tools.log, c)
      {
        assert BlockerAgrees(tools.log, tools.failures.blockers, c);
      }
      hide Executor.Valid, BlockerCount;
      if c :| BlockerCount(tools.log, c) >= 3 {
        assert CountUnder(tools.failures.blockers, c) >= STRUCTURAL_BLOCKER_CAP;
        assert HasStructuralBlocker();
      }
      if HasStructuralBlocker() {
        var c :| c in tools.failures.blockers && tools.failures.blockers[c] >= STRUCTURAL_BLOCKER_CAP;
        assert BlockerCount(tools.log, c) >= 3;
      }
    }

    predicate HasStructuralBlocker()
      reads tools
    {
      exists c :: c in tools.failures.blockers && tools.failures.blockers[c] >= STRUCTURAL_BLOCKER_CAP
    }

    /** The stop, if any, that the counters after a batch call for. */
    function Verdict(): Option<RunEnd>
      reads this, tools
    {
      if tools.toolResults != [] && allBlocked >= 2 then Some(AllCallsBlocked)
      else if tools.records != [] && tools.failures.recovery.active
              && tools.failures.recovery.failures >= FAILURE_GUIDANCE_ESCALATION then Some(FailureEscalation)
      else if tools.toolResults != [] && noProgress >= NO_PROGRESS_CAP then Some(NoProgress)
      else None
    }

    /** The counters of batches without progress, and of blocked ones. */
    method CountBatch(n: nat, hadProgress: bool)
      requires tools.Valid() && n <= |tools.toolResults|
      requires hadProgress == AnyFresh(tools.log, |tools.log| - n)
      modifies `noProgress, `allBlocked
      ensures noProgress == (if hadProgress then 0 else old(noProgress) + 1)
      ensures allBlocked == BlockedAfter(tools.log, |tools.log| - n, old(allBlocked))
      ensures allBlocked > 0 ==> tools.toolResults != []
    {
      hide Executor.Valid, Repetitive, Contains;
      ResultsMatchRecords();
      if hadProgress {
        FreshIsNotBlocked(tools.log, |tools.log| - n);
      }
      hide AnyFresh, BlockedBatch;
      if hadProgress {
        noProgress, allBlocked := 0, 0;
      } else {
        noProgress := noProgress + 1;
        BlockedByResults(n);
        var all := AllRepetitions(n);
        allBlocked := if all then allBlocked + 1 else 0;
      }
    }

    /** Decides after a batch of n calls whether the run goes on. */
    method Judge(n: nat, hadProgress: bool, blockedMutation: bool) returns (end: Option<RunEnd>)
      requires tools.Valid() && GateValid() && n <= |tools.toolResults|
      requires toolIterations < toolCap && parseReprompts == 0 && followThroughs <= FOLLOW_THROUGH_REPROMPT_CAP
      requires blockedMutation ==> tools.toolResults != []
      requires hadProgress == AnyFresh(tools.log, |tools.log| - n) && allBlocked < 2
      modifies `modelCalls, `toolIterations, `noProgress, `allBlocked
      ensures end.None? ==> Valid() && toolIterations == old(toolIterations) + 1 && modelCalls == old(modelCalls)
      ensures end.None? ==> !blockedMutation
      ensures end == Some(StructuralBlocker) <==> HasStructuralBlocker()
      ensures end == Some(MutationRepeated) <==> !HasStructuralBlocker() && blockedMutation
      ensures !HasStructuralBlocker() && !blockedMutation ==>
                && noProgress == (if hadProgress then 0 else old(noProgress) + 1)
                && allBlocked == BlockedAfter(tools.log, |tools.log| - n, old(allBlocked))
                && end == Verdict()
      ensures modelCalls == old(modelCalls)
                            + if end.Some? && end.value in {MutationRepeated, AllCallsBlocked, NoProgress} then 1 else 0
    {
      hide Executor.Valid, Sortable, AllNamed, AnyFresh, BlockedAfter;
      ResultsMatchRecords();
      if HasStructuralBlocker() {
        return Some(StructuralBlocker);
      }
      if blockedMutation && tools.toolResults != [] {
        var answer := FinalizeFromToolResults();
        return Some(MutationRepeated);
      }
      CountBatch(n, hadProgress);
      if allBlocked >= 2 && tools.toolResults != [] {
        var answer := FinalizeFromToolResults();
        return Some(AllCallsBlocked);
      }
      if tools.failures.recovery.active && tools.failures.recovery.failures >= FAILURE_GUIDANCE_ESCALATION
         && tools.records != [] {
        return Some(FailureEscalation);
      }
      if noProgress >= NO_PROGRESS_CAP && tools.toolResults != [] {
        var answer := FinalizeFromToolResults();
        return Some(NoProgress);
      }
      toolIterations := toolIterations + 1;
      return None;
    }

    /** The escalation of failures is that of the ledger. */
    lemma RecoveryOfLog()
      requires tools.Valid()
      ensures tools.records != [] && tools.failures.recovery.active
              && tools.failures.recovery.failures >= FAILURE_GUIDANCE_ESCALATION
              <==> Escalates(tools.log)
    {
    }

    lemma ResultsMatchRecords()
      requires tools.Valid()
      ensures |tools.toolResults| == |tools.records| == |tools.log|
    {
    }

    /** What the verdict on a batch that began after `before` says in terms of the ledger. */
    lemma VerdictOfLog(before: Ledger, blocked: nat, end: Option<RunEnd>)
      requires tools.Valid() && before <= tools.log && !SomeBlocker(before) && blocked < 2
      requires end == Some(StructuralBlocker) <==> HasStructuralBlocker()
      requires end == Some(MutationRepeated) <==>
                 !HasStructuralBlocker() && AnyMutationBlocked(tools.log, |before|)
      requires !HasStructuralBlocker() && !AnyMutationBlocked(tools.log, |before|) ==>
                 allBlocked == BlockedAfter(tools.log, |before|, blocked) && end == Verdict()
      ensures BatchEnds(tools.log, |before|, blocked, end) && (end.Some? ==> IsBatchEnd(end.value))
    {
      BlockersOfLog();
      RecoveryOfLog();
      ResultsMatchRecords();
      if BlockedBatch(tools.log, |before|, |tools.log|) {
        BlockedReportsNothing(before, tools.log);
      }
      hide Executor.Valid, AnyMutationBlocked, SomeBlocker, Escalates, Repetitive, HasStructuralBlocker;
    }

    /** Runs a batch of calls and decides whether the run goes on. */
    method Batch(calls: seq<ToolCall>, text: string) returns (end: Option<RunEnd>)
      requires tools.Valid() && GateValid() && (locked ==> AllDelegation(calls))
      requires toolIterations < toolCap && parseReprompts <= TOOL_PARSE_RETRY_CAP
      requires followThroughs <= FOLLOW_THROUGH_REPROMPT_CAP && !SomeBlocker(tools.log) && allBlocked < 2
      modifies `modelCalls, `toolIterations, `noProgress, `allBlocked, `parseReprompts, `lastOutput, tools
      ensures tools.Valid() && old(tools.log) <= tools.log && old(tools.records) <= tools.records
      ensures BatchRun(calls, old(toolIterations), |old(tools.log)|, old(allBlocked), end)
      ensures tools.invocations <= old(tools.invocations) + |calls|
      ensures end.None? ==> Valid() && Measure() < old(Measure()) && modelCalls == old(modelCalls)
      ensures end.None? ==> !AnyMutationBlocked(tools.log, |old(tools.log)|)
      ensures !HasStructuralBlocker() && !AnyMutationBlocked(tools.log, |old(tools.log)|) ==>
                && noProgress == (if AnyFresh(tools.log, |old(tools.log)|) then 0 else old(noProgress) + 1)
                && allBlocked == BlockedAfter(tools.log, |old(tools.log)|, old(allBlocked))
                && end == Verdict()
      ensures old(modelCalls) <= modelCalls <= old(modelCalls) + 1
    {
      hide Executor.Valid, Sortable, AllNamed, AnyFresh, AnyMutationBlocked, Healthy, SomeBlocker, BatchEnds,
           BlockedAfter, HasStructuralBlocker, AllDelegation;
      lastOutput := text;
      ResultsMatchRecords();
      var hadProgress, blockedMutation := tools.ExecuteTools(calls);
      ResultsMatchRecords();
      if blockedMutation {
        BlockedMutationInLog(tools.log, |old(tools.log)|);
      }
      parseReprompts := 0;
      end := Judge(|calls|, hadProgress, blockedMutation);
      VerdictOfLog(old(tools.log), old(allBlocked), end);
    }

    /** What a batch needs of a healthy run. */
    lemma StaysHealthy()
      requires Valid()
      ensures allBlocked < 2 && !HasStructuralBlocker() && !SomeBlocker(tools.log) && !Escalates(tools.log)
    {
      BlockersOfLog();
      RecoveryOfLog();
    }

    /** A reply with tool calls: check the cap, gate the calls, run the batch that is left. */
    method OnToolCalls(calls: seq<ToolCall>, text: string)
      returns (end: Option<RunEnd>, ghost batch: Option<seq<ToolCall>>)
      requires Valid() && calls != []
      modifies this, tools, delegation
      ensures end.None? ==> Valid() && Measure() < old(Measure())
      ensures tools.Valid() && old(tools.log) <= tools.log && old(tools.records) <= tools.records
      ensures batch.None? ==> NoBatch(old(tools.log), old(toolIterations), old(allBlocked), end)
      ensures batch.Some? ==>
                BatchRun(batch.value, old(toolIterations), |old(tools.log)|, old(allBlocked), end)
      ensures batch.Some? ==> batch.value == if old(locked) then DropFirstForbidden(calls) else calls
      ensures modelCalls <= old(modelCalls) + if end.None? then 0 else 1
      ensures end.Some? ==> end.value !in {PlanFailed, DelegationFailed, PlanWithheld, Delegated}
      ensures end.Some? && end.value in {IterationCapAnswered, IterationCapExceeded} ==> toolIterations == toolCap
    {
      hide Executor.Valid, Sortable, AllNamed, AnyFresh, AnyMutationBlocked, BatchRecorded, DropFirstForbidden,
           IsDelegationTool, SomeBlocker, Escalates, BatchEnds, BlockedBatch, BlockedAfter, DoneFor;
      StaysHealthy();
      hide Healthy;
      batch := None;
      if !env.hasExecutor {
        return Some(NoToolExecutor), None;
      }
      if toolIterations >= toolCap {
        if tools.toolResults == [] {
          return Some(IterationCapExceeded), None;
        }
        var answer := FinalizeFromToolResults();
        return Some(IterationCapAnswered), None;
      }
      var kept, again := Gate(calls, text);
      if again {
        return None, None;
      }
      DropsAtMostOne(calls);
      batch := Some(kept);
      ResultsMatchRecords();
      end := Batch(kept, text);
    }

    /** A reply without an error. */
    method OnReply(reply: ModelReply) returns (end: Option<RunEnd>, ghost batch: Option<seq<ToolCall>>)
      requires Valid() && reply.Answer?
      modifies this, tools, delegation
      ensures end.None? ==> Valid() && Measure() < old(Measure())
      ensures tools.Valid() && old(tools.log) <= tools.log && old(tools.records) <= tools.records
      ensures batch.None? ==> NoBatch(old(tools.log), old(toolIterations), old(allBlocked), end)
      ensures batch.Some? ==>
                BatchRun(batch.value, old(toolIterations), |old(tools.log)|, old(allBlocked), end)
      ensures batch.Some? ==> batch.value == if old(locked) then DropFirstForbidden(reply.calls) else reply.calls
      ensures modelCalls <= old(modelCalls) + if end.None? then 0 else 1
      ensures end.Some? ==> end.value !in {PlanFailed, DelegationFailed, PlanWithheld, Delegated}
      ensures end.Some? && end.value in {IterationCapAnswered, IterationCapExceeded} ==> toolIterations == toolCap
    {
      hide Executor.Valid, Sortable, AllNamed, BatchRecorded, AllDelegation, RetriesParse, Promises, DropFirstForbidden,
           BatchEnds, BlockedBatch;
      batch := None;
      if reply.promptTokens > 0 {
        lastPromptTokens := reply.promptTokens;
      }
      if reply.calls == [] {
        end := OnPlainText(reply);
      } else {
        end, batch := OnToolCalls(reply.calls, reply.text);
      }
    }

    /** A batch was run from position `start` of the ledger on: the cap was not reached, every call was recorded, if
        the gate is still closed all calls are delegation tools, and the batch and the blocked ones before it decide
        about the end. */
    ghost predicate BatchRun(batch: seq<ToolCall>, iterations: nat, start: nat, blocked: nat, end: Option<RunEnd>)
      reads this, tools
    {
      && iterations < toolCap && (end.None? ==> toolIterations == iterations + 1)
      && BatchRecorded(tools.records, start, batch)
      && (locked ==> AllDelegation(batch))
      && BatchEnds(tools.log, start, blocked, end) && (end.Some? ==> IsBatchEnd(end.value))
      && (end.None? ==> allBlocked == BlockedAfter(tools.log, start, blocked))
    }

    /** No batch was run, and none decides about the end. */
    ghost predicate NoBatch(log: Ledger, iterations: nat, blocked: nat, end: Option<RunEnd>)
      reads this, tools
    {
      && tools.log == log && toolIterations == iterations && allBlocked == blocked
      && (end.Some? ==> !IsBatchEnd(end.value))
    }

    /** One turn of the loop. `batch` is the batch of tool calls that was run, if any, and `subtasks` what the
        delegation block ended the run for. */
    method Turn() returns (end: Option<RunEnd>, ghost batch: Option<seq<ToolCall>>, ghost subtasks: seq<Task>)
      requires Valid()
      modifies this, tools, delegation
      ensures end.None? ==> Valid() && Measure() < old(Measure())
      ensures tools.Valid() && old(tools.log) <= tools.log && old(tools.records) <= tools.records
      ensures batch.None? ==> NoBatch(old(tools.log), old(toolIterations), old(allBlocked), end)
      ensures batch.Some? ==>
                BatchRun(batch.value, old(toolIterations), |old(tools.log)|, old(allBlocked), end)
      ensures modelCalls <= old(modelCalls) + if end.None? then 4 else 5
      ensures end.Some? ==> end.value !in {PlanFailed, DelegationFailed}
      ensures end.Some? && end.value in {Delegated, PlanWithheld} ==> subtasks == old(SubtasksNow())
      ensures end.Some? ==> DelegationEnd(end.value, subtasks, old(delegation.subAgentCalls))
      ensures end.Some? && end.value in {IterationCapAnswered, IterationCapExceeded} ==> toolIterations == toolCap
    {
      hide Executor.Valid, Sortable, AllNamed, BatchRecorded, AllDelegation, TriggerNow, DropFirstForbidden,
           SubtasksNow, DoneFor, MayRun, BatchEnds, BlockedBatch;
      batch := None;
      end, subtasks := CheckTrigger();
      if end.Some? {
        return;
      }
      var reply := AskModel();
      if reply.ModelError? {
        var stop := OnModelError(reply);
        return Some(stop), None, subtasks;
      }
      end, batch := OnReply(reply);
    }

    /** One turn of a run whose batches so far end at `cuts`, and gave no reason to stop. */
    method NextTurn(ghost first: nat, ghost cuts: seq<nat>, ghost base: nat)
      returns (end: Option<RunEnd>, ghost more: seq<nat>, ghost subtasks: seq<Task>)
      requires Valid() && cuts != []
      requires allBlocked == Streak(tools.log, cuts, base) && BatchesTell(tools.log, first, cuts, base, None)
      modifies this, tools, delegation
      ensures end.None? ==> Valid() && Measure() < old(Measure()) && allBlocked == Streak(tools.log, more, base)
      ensures tools.Valid() && old(tools.log) <= tools.log && old(tools.records) <= tools.records
      ensures BatchesTell(tools.log, first, more, base, end)
      ensures more == cuts || (|more| == |cuts| + 1 && old(toolIterations) < toolCap)
      ensures end.None? ==> toolIterations - old(toolIterations) == |more| - |cuts|
      ensures modelCalls <= old(modelCalls) + if end.None? then 4 else 5
      ensures end.Some? ==> end.value !in {PlanFailed, DelegationFailed}
      ensures end.Some? && end.value in {Delegated, PlanWithheld} ==> subtasks == old(SubtasksNow())
      ensures end.Some? ==> DelegationEnd(end.value, subtasks, old(delegation.subAgentCalls))
      ensures end.Some? && end.value in {IterationCapAnswered, IterationCapExceeded} ==> toolIterations == toolCap
    {
      hide Valid, Executor.Valid, BatchRecorded, AllDelegation, DelegationEnd, SubtasksNow, BatchEnds, BatchesTell,
           Streak, BlockedAfter;
      ghost var batch;
      more := cuts;
      end, batch, subtasks := Turn();
      if batch.Some? {
        BatchTold(old(tools.log), tools.log, first, cuts, base, end);
        more := cuts + [|tools.log|];
      } else if end.Some? {
        NoBatchTold(old(tools.log), first, cuts, base, end.value);
      }
    }

    /** The whole run: it ends, within a bounded number of turns, tool batches and model calls, and leaves a
        valid ledger. */
    method RunToEnd()
      returns (end: RunEnd, ghost turns: nat, ghost batches: nat, ghost subtasks: seq<Task>, ghost start: nat,
               ghost cuts: seq<nat>)
      requires Valid()
      modifies this, tools, delegation
      ensures |cuts| == batches + 1
      ensures BatchesTell(tools.log, |old(tools.log)|, cuts, old(allBlocked), Some(end))
      ensures turns <= old(Measure()) && batches <= toolCap - old(toolIterations)
      ensures modelCalls <= old(modelCalls) + 4 * turns + 1
      ensures tools.Valid() && old(tools.log) <= tools.log && old(tools.records) <= tools.records
      ensures end !in {PlanFailed, DelegationFailed}
      ensures DelegationEnd(end, subtasks, start)
      ensures end in {Delegated, PlanWithheld} ==> IsDecomposition(env.pattern, subtasks)
      ensures end in {IterationCapAnswered, IterationCapExceeded} ==> toolIterations == toolCap
    {
      StaysHealthy();
      NothingTold(tools.log, allBlocked);
      hide Executor.Valid, GateValid, Healthy, DelegationEnd, DecomposeTask, BatchesTell, Streak, SomeBlocker, Escalates,
           HasStructuralBlocker;
      turns, batches, subtasks, start, cuts := 0, 0, [], 0, [|tools.log|];
      while true
        invariant Valid() && turns + Measure() <= old(Measure())
        invariant batches == toolIterations - old(toolIterations)
        invariant modelCalls <= old(modelCalls) + 4 * turns
        invariant old(tools.log) <= tools.log && old(tools.records) <= tools.records
        invariant |cuts| == batches + 1 && allBlocked == Streak(tools.log, cuts, old(allBlocked))
        invariant BatchesTell(tools.log, |old(tools.log)|, cuts, old(allBlocked), None)
        decreases Measure()
      {
        var stop;
        turns := turns + 1;
        start := delegation.subAgentCalls;
        stop, cuts, subtasks := NextTurn(|old(tools.log)|, cuts, old(allBlocked));
        batches := |cuts| - 1;
        if stop.Some? {
          return stop.value, turns, batches, subtasks, start, cuts;
        }
      }
    }
  }

  /** These are the subtasks of some complexity score. */
  ghost predicate IsDecomposition(pattern: Option<Template>, subtasks: seq<Task>) {
    exists score :: subtasks == DecomposeTask(pattern, score)
  }

  /** Batch number i had only calls that were stopped. */
  ghost predicate StoppedFrom(log: Ledger, cuts: seq<nat>, i: nat) {
    i + 1 < |cuts| && OnlyStopped(log, cuts[i], cuts[i + 1])
  }

  /** A fresh run makes at most 6 * toolCap + 31 turns and toolCap tool batches, and calls the real executor
      within all caps, whatever its environment. A run that ends by delegation has the results of its subtasks. */
  method StartAndRun(env: Environment, requestedCap: int, runnerCap: int, timeoutMs: nat, hasSubAgents: bool)
    returns (end: RunEnd, run: Run, ghost turns: nat, ghost batches: nat, ghost subtasks: seq<Task>, ghost start: nat,
             ghost cuts: seq<nat>)
    ensures turns <= 6 * ToolCap(requestedCap, runnerCap) + 31 && batches <= ToolCap(requestedCap, runnerCap)
    ensures requestedCap > 0 ==> turns <= 6 * requestedCap + 31 && batches <= requestedCap
    ensures requestedCap <= 0 ==> batches <= if runnerCap > 0 then runnerCap else 120
    ensures run.modelCalls <= 4 * turns + 1 && run.tools.Valid()
    ensures run.tools.execute == env.tools && run.tools.timeoutMs == timeoutMs
    ensures run.tools.invocations == |run.tools.invoked| && WithinCaps(run.tools.invoked)
    ensures InvocationsAgree(run.tools.log, run.tools.records, run.tools.invoked, env.tools, timeoutMs)
    ensures end !in {PlanFailed, DelegationFailed}
    ensures RepliesKept(run.tools.log, run.tools.records, env.tools, run.tools.books)
    ensures |cuts| == batches + 1 && BatchesTell(run.tools.log, 0, cuts, 0, Some(end))
    ensures end == AllCallsBlocked <==>
              && |cuts| >= 3 && BlockedAt(run.tools.log, cuts, |cuts| - 3) && BlockedAt(run.tools.log, cuts, |cuts| - 2)
              && !AnyMutationBlocked(run.tools.log, 0)
    ensures forall i: nat :: i + 2 < |cuts| && StoppedFrom(run.tools.log, cuts, i) && StoppedFrom(run.tools.log, cuts, i + 1)
              ==> i + 3 == |cuts| && end == AllCallsBlocked
    ensures run.env == env && run.delegation.hasRunner == hasSubAgents && run.DelegationEnd(end, subtasks, start)
    ensures end in {Delegated, PlanWithheld} ==> IsDecomposition(env.pattern, subtasks)
  {
    run := new Run(env, requestedCap, runnerCap, timeoutMs, hasSubAgents);
    end, turns, batches, subtasks, start, cuts := run.RunToEnd();
    run.tools.RealInvocationsCapped();
    TwoBlockedBatches(run.tools.log, cuts);
    forall i: nat | i + 2 < |cuts| && StoppedFrom(run.tools.log, cuts, i) && StoppedFrom(run.tools.log, cuts, i + 1)
      ensures i + 3 == |cuts| && end == AllCallsBlocked
    {
      StoppedTwiceEnds(run.tools.log, cuts, end, i);
    }
  }
}
