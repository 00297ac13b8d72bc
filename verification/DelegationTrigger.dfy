/** When delegation is triggered, in which mode, and with which subtasks. */
module DelegationTrigger {
  import opened Strings
  import opened TaskGraph
  import opened Delegation

  datatype Mode =
    | NoMode
    | PromptOnly
    | ToolGated
    | AutoExecute
    | SuggestOnly
    | ApprovePlan
    | AutoTrusted
    | FullAutonomous

  predicate IsGated(mode: Mode) {
    mode == ToolGated || mode == AutoExecute
  }

  predicate IsPlannerMode(mode: Mode) {
    mode in {SuggestOnly, ApprovePlan, AutoTrusted, FullAutonomous}
  }

  /** The counters of a run that complexity is computed from. */
  datatype Signals = Signals(
    failures: nat,       // consecutive tool failures
    noProgress: nat,     // iterations without progress
    allBlocked: nat,     // iterations in which every call was blocked as a repetition
    looping: bool,       // some repetition counter has reached 2
    promptTokens: int,
    contextWindow: int,
    iterations: nat
  )

  datatype Score = Score(failure: nat, progress: nat, blocked: nat, loop: nat, context: nat, iteration: nat) {
    function Total(): nat {
      failure + progress + blocked + loop + context + iteration
    }

    function Level(): (level: nat)
      ensures level <= 3
    {
      if (blocked >= 3 && Total() >= 4) || Total() >= 6 then 3
      else if Total() >= 4 || blocked >= 3 then 2
      else if Total() >= 2 then 1
      else 0
    }
  }

  function ComputeComplexity(s: Signals): Score {
    Score(
      if s.failures >= 3 then 3 else if s.failures >= 2 then 2 else 0,
      if s.noProgress >= 2 then 2 else 0,
      if s.allBlocked >= 1 then 3 else 0,
      if s.looping then 2 else 0,
      if s.contextWindow <= 0 then 0
      else if 100 * s.promptTokens >= 92 * s.contextWindow then 3
      else if 100 * s.promptTokens >= 85 * s.contextWindow then 2
      else if 100 * s.promptTokens >= 75 * s.contextWindow then 1
      else 0,
      if s.iterations >= 120 then 3 else if s.iterations >= 80 then 2 else if s.iterations >= 40 then 1 else 0)
  }

  datatype Trigger = Trigger(mode: Mode, cooldown: nat)

  function ShouldTrigger(score: Score, askedUser: bool): Option<Trigger> {
    if askedUser && score.Level() < 3 then None
    else if score.Level() == 3 then Some(Trigger(AutoExecute, 20))
    else if score.Level() == 2 then Some(Trigger(ToolGated, 15))
    else if score.Level() == 1 then Some(Trigger(PromptOnly, 10))
    else None
  }

  function One(score: nat): nat {
    if score > 0 then 1 else 0
  }

  function BadSignals(s: Score): nat {
    One(s.failure) + One(s.progress) + One(s.blocked) + One(s.loop) + One(s.context) + One(s.iteration)
  }

  /** Forced delegation needs two bad signals, or a batch in which every call was blocked; a question to the
      user suspends all but the critical level; long runs alone only ever get a hint. */
  lemma TriggersNeedSignals(s: Signals, askedUser: bool)
    requires ShouldTrigger(ComputeComplexity(s), askedUser).Some?
    ensures var mode := ShouldTrigger(ComputeComplexity(s), askedUser).value.mode;
            && mode in {PromptOnly, ToolGated, AutoExecute}
            && (askedUser ==> mode == AutoExecute)
            && (IsGated(mode) ==> BadSignals(ComputeComplexity(s)) >= 2 || s.allBlocked >= 1)
            && (mode == AutoExecute ==> BadSignals(ComputeComplexity(s)) >= 2)
            && (BadSignals(ComputeComplexity(s)) == One(ComputeComplexity(s).iteration) ==>
                  mode == PromptOnly && s.iterations >= 80)
  {
  }

  /** The prompt takes at least this share, in per cent, of the context window. */
  predicate ContextFilled(s: Signals, share: int) {
    s.contextWindow > 0 && 100 * s.promptTokens >= share * s.contextWindow
  }

  lemma ContextScore(s: Signals)
    ensures ComputeComplexity(s).context >= 2 <==> ContextFilled(s, 85)
    ensures ComputeComplexity(s).context >= 1 <==> ContextFilled(s, 75)
  {
  }

  /** Without a question to the user, some trigger comes up exactly if one signal is bad, or the context and the number
      of iterations are both on the way to it. */
  lemma TriggersExactly(s: Signals)
    ensures ShouldTrigger(ComputeComplexity(s), false).Some? <==>
              || s.failures >= 2 || s.noProgress >= 2 || s.allBlocked >= 1 || s.looping
              || ContextFilled(s, 85) || s.iterations >= 80 || (ContextFilled(s, 75) && s.iterations >= 40)
  {
    hide ContextFilled;
    ContextScore(s);
  }

  /** A blocked batch alone forces delegation, and with any other bad signal it is critical; so are three failures with
      a loop and a stalled run or a context at 75 per cent. */
  lemma BlockedBatchForces(s: Signals)
    ensures var trigger := ShouldTrigger(ComputeComplexity(s), false);
            && (s.allBlocked >= 1 ==> trigger.Some? && IsGated(trigger.value.mode))
            && (s.allBlocked >= 1 ==>
                  (trigger == Some(Trigger(AutoExecute, 20)) <==>
                     s.failures >= 2 || s.noProgress >= 2 || s.looping || ContextFilled(s, 75) || s.iterations >= 40))
            && (s.failures >= 3 && s.looping && (s.noProgress >= 2 || ContextFilled(s, 75)) ==>
                  trigger == Some(Trigger(AutoExecute, 20)))
            && (s.failures >= 2 && s.looping ==> trigger.Some? && IsGated(trigger.value.mode))
  {
    hide ContextFilled;
    ContextScore(s);
  }

  /** Worse signals never weaken the trigger, and a stronger trigger waits longer for the next. */
  lemma TriggersMonotone(a: Signals, b: Signals)
    requires a.failures <= b.failures && a.noProgress <= b.noProgress && a.allBlocked <= b.allBlocked
    requires (a.looping ==> b.looping) && a.iterations <= b.iterations
    requires a.promptTokens <= b.promptTokens && a.contextWindow == b.contextWindow
    ensures ComputeComplexity(a).Level() <= ComputeComplexity(b).Level()
    ensures var one, other := ShouldTrigger(ComputeComplexity(a), false), ShouldTrigger(ComputeComplexity(b), false);
            && (one.Some? ==> other.Some? && one.value.cooldown <= other.value.cooldown)
            && (one.Some? && IsGated(one.value.mode) ==> other.Some? && IsGated(other.value.mode))
  {
  }

  /** A question to the user leaves only the critical trigger. */
  lemma QuestionSuspends(s: Signals)
    ensures var trigger := ShouldTrigger(ComputeComplexity(s), false);
            ShouldTrigger(ComputeComplexity(s), true)
            == if trigger.Some? && trigger.value.mode == AutoExecute then trigger else None
  {
  }

  datatype Template = ParallelFiles | PhasedAnalysis | DebugFix | OtherTemplate

  /** Subtasks that are done one after the other, with priorities 1, 2, ... */
  function Chain(names: seq<string>): (tasks: seq<Task>)
    ensures |tasks| == |names|
  {
    seq(|names|, i requires 0 <= i < |names| =>
      Task(TaskId(names[i]), if i == 0 then [] else [TaskId(names[i - 1])], i + 1, names[i], "", 0.0))
  }

  function SignalBasedSubtasks(score: Score): seq<Task> {
    if score.blocked >= 3 && score.loop >= 2 then Chain(["unblock-diagnose", "unblock-resolve"])
    else if score.failure >= 2 && score.loop >= 2 then Chain(["failure-analyze", "failure-retry"])
    else if score.context >= 2 then Chain(["context-summarize", "context-continue"])
    else Chain(["generic-assess", "generic-execute"])
  }

  function SubtasksFromPattern(template: Template): seq<Task> {
    match template
    case ParallelFiles => Chain(["phase-1-discover", "phase-2-implement"])
    case PhasedAnalysis => Chain(["phase-1-structure", "phase-2-deep", "phase-3-report"])
    case DebugFix => Chain(["phase-1-diagnose", "phase-2-fix"])
    case OtherTemplate => SignalBasedSubtasks(Score(0, 0, 0, 0, 0, 0))
  }

  /** The subtasks of a trigger; `pattern` is the template the prompt matches, if any. */
  function DecomposeTask(pattern: Option<Template>, score: Score): seq<Task> {
    match pattern
    case Some(template) => SubtasksFromPattern(template)
    case None => SignalBasedSubtasks(score)
  }

  /** A chain of distinct names is a sortable task list. */
  lemma ChainSortable(names: seq<string>)
    requires forall i, j :: 0 <= i < j < |names| ==> names[i] != names[j]
    requires forall i :: 0 <= i < |names| ==> Trim(names[i]) != ""
    ensures Sortable(Chain(names)) && AllNamed(Chain(names))
  {
    var tasks := Chain(names);
    forall i, j | 0 <= i < j < |tasks|
      ensures tasks[i].id != tasks[j].id
    {
      assert tasks[i].id.name == names[i] && tasks[j].id.name == names[j];
    }
    forall k | 0 <= k < |tasks|
      ensures forall d :: d in tasks[k].dependsOn ==> d in Ids(tasks[..k])
    {
      if k > 0 {
        assert tasks[..k][k - 1] == tasks[k - 1] && tasks[k - 1] in tasks[..k];
      }
    }
    forall id | id in Ids(tasks)
      ensures !Blocked(tasks, id)
    {
      OrderedIsNotBlocked(tasks, tasks, id);
    }
    SortableMeansUnblocked(tasks);
  }

  lemma Visible(name: string)
    requires name != [] && !IsSpace(name[0])
    ensures Trim(name) != ""
  {
    TrimKeepsPrefix(name, name[..1]);
  }

  lemma TwoStepsSortable(a: string, b: string)
    requires a != b && a != [] && b != [] && !IsSpace(a[0]) && !IsSpace(b[0])
    ensures Sortable(Chain([a, b])) && AllNamed(Chain([a, b]))
  {
    Visible(a);
    Visible(b);
    ChainSortable([a, b]);
  }

  lemma SignalsSortable(score: Score)
    ensures var tasks := SignalBasedSubtasks(score); tasks != [] && Sortable(tasks) && AllNamed(tasks)
  {
    hide Sortable, AllNamed;
    if score.blocked >= 3 && score.loop >= 2 {
      TwoStepsSortable("unblock-diagnose", "unblock-resolve");
    } else if score.failure >= 2 && score.loop >= 2 {
      TwoStepsSortable("failure-analyze", "failure-retry");
    } else if score.context >= 2 {
      TwoStepsSortable("context-summarize", "context-continue");
    } else {
      TwoStepsSortable("generic-assess", "generic-execute");
    }
  }

  lemma PhasesSortable()
    ensures var tasks := Chain(["phase-1-structure", "phase-2-deep", "phase-3-report"]);
            tasks != [] && Sortable(tasks) && AllNamed(tasks)
  {
    hide Sortable, AllNamed;
    Visible("phase-1-structure");
    Visible("phase-2-deep");
    Visible("phase-3-report");
    assert "phase-1-structure"[6] == '1' && "phase-2-deep"[6] == '2' && "phase-3-report"[6] == '3';
    ChainSortable(["phase-1-structure", "phase-2-deep", "phase-3-report"]);
  }

  lemma PatternSortable(template: Template)
    ensures var tasks := SubtasksFromPattern(template); tasks != [] && Sortable(tasks) && AllNamed(tasks)
  {
    hide Sortable, AllNamed, SignalBasedSubtasks;
    match template
    case ParallelFiles => TwoStepsSortable("phase-1-discover", "phase-2-implement");
    case PhasedAnalysis => PhasesSortable();
    case DebugFix => TwoStepsSortable("phase-1-diagnose", "phase-2-fix");
    case OtherTemplate => SignalsSortable(Score(0, 0, 0, 0, 0, 0));
  }

  /** Every decomposition is a chain: each subtask but the first depends on the one before it, and has the next
      priority. */
  lemma DecompositionIsChain(pattern: Option<Template>, score: Score)
    ensures var tasks := DecomposeTask(pattern, score);
            && |tasks| in {2, 3} && tasks[0].dependsOn == []
            && (forall i :: 0 < i < |tasks| ==> tasks[i].dependsOn == [tasks[i - 1].id])
            && forall i :: 0 <= i < |tasks| ==> tasks[i].priority == i + 1
  {
  }

  /** Every decomposition is a non-empty list of named tasks that the scheduler can order. */
  lemma DecompositionSortable(pattern: Option<Template>, score: Score)
    ensures var tasks := DecomposeTask(pattern, score); tasks != [] && Sortable(tasks) && AllNamed(tasks)
  {
    hide Sortable, AllNamed, SubtasksFromPattern, SignalBasedSubtasks;
    match pattern
    case Some(template) => PatternSortable(template);
    case None => SignalsSortable(score);
  }
}
