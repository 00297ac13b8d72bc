/** Planning and running delegated tasks. */
module Delegation {
  import opened Strings
  import opened TaskGraph
  import opened TaskSort

  datatype Routing = Routing(role: string, confidence: real)

  /** One answer of a subagent: `ok` when it ran without error and reported success. */
  datatype SubAgentReply = SubAgentReply(ok: bool, finalText: string, reason: string)

  datatype DelegationError = NoRunner | DependencyCycle

  /** A plan: the tasks in order, and what the auto-execution policy looks at. */
  datatype Plan = Plan(order: seq<Task>, minConfidence: real, allRolesBuiltIn: bool)

  datatype Attempt = Attempt(task: Task, reply: SubAgentReply)

  const FAILED := "FAILED:"

  predicate IsFailedResult(text: string) {
    FAILED <= Trim(text)
  }

  lemma FailureTextIsFailed(reason: string)
    ensures IsFailedResult(FAILED + reason)
  {
    assert FAILED[0] == 'F' && FAILED[|FAILED| - 1] == ':';
    TrimKeepsPrefix(FAILED + reason, FAILED);
  }

  /** The text is white space followed by `FAILED:` and anything. */
  ghost predicate SpellsFailure(text: string) {
    exists k: nat :: FailureAt(text, k)
  }

  predicate FailureAt(text: string, k: nat) {
    OccursAt(text, "FAILED:", k) && AllSpace(text[..k])
  }

  /** These texts are the failed results, and no others. */
  lemma FailedExactly(text: string)
    ensures IsFailedResult(text) <==> SpellsFailure(text)
  {
    if IsFailedResult(text) {
      var before, after := TrimParts(text);
      assert text[|before|..|before| + |FAILED|] == Trim(text)[..|FAILED|];
      assert text[..|before|] == before;
      assert FailureAt(text, |before|);
    }
    if k: nat :| FailureAt(text, k) {
      var rest := text[k + |FAILED|..];
      assert text == text[..k] + (FAILED + rest);
      assert FAILED[0] == 'F' && FAILED[|FAILED| - 1] == ':';
      TrimLeftDrops(text[..k], FAILED + rest);
      TrimRightKeepsPrefix(FAILED + rest, FAILED);
    }
  }

  function Route(t: Task, route: Task -> Routing): Task {
    t.(role := route(t).role, confidence := route(t).confidence)
  }

  /** The planner's version of task number i: blank ids and messages are filled in, the role is routed. */
  function PlanTask(i: nat, t: Task, route: Task -> Routing): Task {
    var named := if Trim(t.id.name) == "" then t.(id := TaskId("task-" + Decimal(i + 1))) else t;
    var worded :=
      if Trim(named.message) == "" then named.(message := "Complete delegated task " + Decimal(i + 1)) else named;
    var routed := Route(worded, route);
    if routed.confidence <= 0.0 then routed.(confidence := 0.2) else routed
  }

  function PlanTasks(tasks: seq<Task>, route: Task -> Routing): (planned: seq<Task>)
    ensures |planned| == |tasks|
  {
    seq(|tasks|, i requires 0 <= i < |tasks| => PlanTask(i, tasks[i], route))
  }

  /** The least confidence, capped at one, and whether every role is a built-in one. */
  ghost predicate Summarises(planned: seq<Task>, roles: set<string>, minConfidence: real, allBuiltIn: bool) {
    && (allBuiltIn <==> forall t :: t in planned ==> Trim(t.role) in roles)
    && (forall t :: t in planned ==> minConfidence <= t.confidence)
    && minConfidence <= 1.0
    && (minConfidence == 1.0 || exists t :: t in planned && minConfidence == t.confidence)
  }

  lemma SummaryStep(planned: seq<Task>, t: Task, roles: set<string>, minConfidence: real, allBuiltIn: bool)
    requires Summarises(planned, roles, minConfidence, allBuiltIn)
    ensures Summarises(planned + [t], roles, if t.confidence < minConfidence then t.confidence else minConfidence,
                       allBuiltIn && Trim(t.role) in roles)
  {
    assert t in planned + [t];
    forall s | s in planned
      ensures s in planned + [t]
    {
    }
  }

  lemma NothingSummarised(roles: set<string>)
    ensures Summarises([], roles, 1.0, true)
  {
  }

  lemma PlanTasksStep(tasks: seq<Task>, route: Task -> Routing, i: nat)
    requires i < |tasks|
    ensures PlanTasks(tasks, route)[..i + 1] == PlanTasks(tasks, route)[..i] + [PlanTask(i, tasks[i], route)]
  {
  }

  method RouteAll(tasks: seq<Task>, route: Task -> Routing, builtInRoles: set<string>)
    returns (planned: seq<Task>, minConfidence: real, allBuiltIn: bool)
    ensures planned == PlanTasks(tasks, route) && Summarises(planned, builtInRoles, minConfidence, allBuiltIn)
  {
    hide Summarises, PlanTask, PlanTasks;
    planned, minConfidence, allBuiltIn := [], 1.0, true;
    NothingSummarised(builtInRoles);
    for i := 0 to |tasks|
      invariant planned == PlanTasks(tasks, route)[..i]
      invariant Summarises(planned, builtInRoles, minConfidence, allBuiltIn)
    {
      var routed := PlanTask(i, tasks[i], route);
      PlanTasksStep(tasks, route, i);
      SummaryStep(planned, routed, builtInRoles, minConfidence, allBuiltIn);
      planned := planned + [routed];
      if routed.confidence < minConfidence {
        minConfidence := routed.confidence;
      }
      if Trim(routed.role) !in builtInRoles {
        allBuiltIn := false;
      }
    }
    assert planned == PlanTasks(tasks, route)[..|tasks|] == PlanTasks(tasks, route);
  }

  method GeneratePlan(tasks: seq<Task>, route: Task -> Routing, builtInRoles: set<string>) returns (plan: Option<Plan>)
    ensures plan.Some? <==> tasks != [] && Sortable(PlanTasks(tasks, route))
    ensures plan.Some? ==>
              && multiset(plan.value.order) == multiset(PlanTasks(tasks, route)) && InOrder(plan.value.order)
              && Summarises(PlanTasks(tasks, route), builtInRoles, plan.value.minConfidence, plan.value.allRolesBuiltIn)
  {
    hide Sortable, InOrder, Greedy, PlanTasks, Summarises;
    if tasks == [] {
      return None;
    }
    var planned, minConfidence, allBuiltIn := RouteAll(tasks, route, builtInRoles);
    var sorted := TopologicalSort(planned);
    match sorted
    case Stuck(_) => plan := None;
    case Ordered(order) => plan := Some(Plan(order, minConfidence, allBuiltIn));
  }

  /** The answers a task got, in order. */
  function RepliesOf(attempts: seq<Attempt>, id: TaskId): seq<SubAgentReply> {
    if attempts == [] then []
    else
      var last := attempts[|attempts| - 1];
      RepliesOf(attempts[..|attempts| - 1], id) + if last.task.id == id then [last.reply] else []
  }

  lemma RepliesAppend(attempts: seq<Attempt>, a: Attempt, id: TaskId)
    ensures RepliesOf(attempts + [a], id) == RepliesOf(attempts, id) + if a.task.id == id then [a.reply] else []
  {
    assert (attempts + [a])[..|attempts|] == attempts;
  }

  /** What the answers of a task, at most two, mean for its recorded result. */
  ghost predicate RecordedFrom(replies: seq<SubAgentReply>, recorded: string) {
    || (replies == [] && IsFailedResult(recorded))
    || (|replies| == 1 && replies[0].ok && recorded == replies[0].finalText)
    || (|replies| == 2 && !replies[0].ok
        && if replies[1].ok then recorded == replies[1].finalText else IsFailedResult(recorded))
  }

  ghost predicate FailedDependency(t: Task, completed: map<TaskId, string>) {
    exists d :: d in t.dependsOn && d in completed && IsFailedResult(completed[d])
  }

  /** The task has its result; it was attempted unless a dependency failed. */
  ghost predicate Finished(t: Task, completed: map<TaskId, string>, attempts: seq<Attempt>) {
    && t.id in completed
    && (forall d :: d in t.dependsOn ==> d in completed)
    && RecordedFrom(RepliesOf(attempts, t.id), completed[t.id])
    && (RepliesOf(attempts, t.id) == [] <==> FailedDependency(t, completed))
  }

  /** Some task that `id` depends on, directly or not, has a failed result. */
  ghost predicate FailedAncestor(tasks: seq<Task>, id: TaskId, completed: map<TaskId, string>) {
    exists path :: FailedWalk(tasks, id, completed, path)
  }

  ghost predicate FailedWalk(tasks: seq<Task>, id: TaskId, completed: map<TaskId, string>, path: seq<TaskId>) {
    && Walk(tasks, path) && |path| >= 2 && path[0] == id
    && path[|path| - 1] in completed && IsFailedResult(completed[path[|path| - 1]])
  }

  /** A walk that ends in a failed task starts in a task that was skipped and failed. */
  lemma {:induction false} FailedWalkSkips(tasks: seq<Task>, completed: map<TaskId, string>, attempts: seq<Attempt>,
                                           path: seq<TaskId>)
    requires DistinctIds(tasks) && forall t :: t in tasks ==> Finished(t, completed, attempts)
    requires path != [] && FailedWalk(tasks, path[0], completed, path)
    ensures RepliesOf(attempts, path[0]) == [] && path[0] in completed && IsFailedResult(completed[path[0]])
  {
    assert Edge(tasks, path[0], path[1]);
    var t :| t in tasks && t.id == path[0] && path[1] in t.dependsOn;
    if |path| > 2 {
      var rest := path[1..];
      forall i | 0 <= i < |rest| - 1
        ensures Edge(tasks, rest[i], rest[i + 1])
      {
        assert Edge(tasks, path[i + 1], path[i + 2]);
      }
      FailedWalkSkips(tasks, completed, attempts, rest);
    }
    assert FailedDependency(t, completed);
  }

  /** Over a finished delegation, a task is attempted exactly when no ancestor failed, at most twice, and
      every descendant of a failure is itself failed. */
  lemma AttemptedUnlessAncestorFailed(tasks: seq<Task>, completed: map<TaskId, string>, attempts: seq<Attempt>,
                                      t: Task)
    requires DistinctIds(tasks) && forall s :: s in tasks ==> Finished(s, completed, attempts)
    requires t in tasks
    ensures RepliesOf(attempts, t.id) == [] <==> FailedAncestor(tasks, t.id, completed)
    ensures |RepliesOf(attempts, t.id)| <= 2
    ensures FailedAncestor(tasks, t.id, completed) ==> t.id in completed && IsFailedResult(completed[t.id])
  {
    if FailedAncestor(tasks, t.id, completed) {
      var path :| FailedWalk(tasks, t.id, completed, path);
      FailedWalkSkips(tasks, completed, attempts, path);
    }
    if RepliesOf(attempts, t.id) == [] {
      var d :| d in t.dependsOn && d in completed && IsFailedResult(completed[d]);
      assert Edge(tasks, t.id, d);
      assert FailedWalk(tasks, t.id, completed, [t.id, d]);
    }
  }

  predicate LooksFailed(reply: SubAgentReply) {
    !reply.ok || IsFailedResult(reply.finalText)
  }

  /** A finished task counts as failed exactly if it was not attempted because of a failed ancestor, or its last
      attempt was not ok or succeeded with a text that looks like a failure. */
  lemma CountsAsFailed(tasks: seq<Task>, completed: map<TaskId, string>, attempts: seq<Attempt>, t: Task)
    requires DistinctIds(tasks) && forall s :: s in tasks ==> Finished(s, completed, attempts)
    requires t in tasks
    ensures var replies := RepliesOf(attempts, t.id);
            && t.id in completed
            && (IsFailedResult(completed[t.id]) <==> replies == [] || LooksFailed(replies[|replies| - 1]))
            && (IsFailedResult(completed[t.id]) <==>
                  FailedAncestor(tasks, t.id, completed) || (replies != [] && LooksFailed(replies[|replies| - 1])))
  {
    hide RepliesOf, IsFailedResult, FailedAncestor;
    AttemptedUnlessAncestorFailed(tasks, completed, attempts, t);
    assert Finished(t, completed, attempts);
  }

  /** Every answer is a success whose text does not spell a failure. */
  ghost predicate AllSucceed(attempts: seq<Attempt>) {
    forall a :: a in attempts ==> a.reply.ok && !SpellsFailure(a.reply.finalText)
  }

  /** The task was attempted exactly once, and the recorded text is that of the answer. */
  ghost predicate DoneAtOnce(t: Task, completed: map<TaskId, string>, attempts: seq<Attempt>) {
    && |RepliesOf(attempts, t.id)| == 1 && RepliesOf(attempts, t.id)[0].ok
    && t.id in completed && completed[t.id] == RepliesOf(attempts, t.id)[0].finalText
  }

  lemma {:induction false} ReplyIsAttempt(attempts: seq<Attempt>, id: TaskId)
    ensures forall r :: r in RepliesOf(attempts, id) ==> exists a :: a in attempts && a.reply == r
  {
    if attempts != [] {
      ReplyIsAttempt(attempts[..|attempts| - 1], id);
    }
  }

  /** A task whose answers are successes is done at once, unless it was skipped. */
  lemma AnsweredIsDone(t: Task, completed: map<TaskId, string>, attempts: seq<Attempt>)
    requires Finished(t, completed, attempts) && AllSucceed(attempts) && RepliesOf(attempts, t.id) != []
    ensures DoneAtOnce(t, completed, attempts) && !IsFailedResult(completed[t.id])
  {
    hide IsFailedResult, RepliesOf, SpellsFailure;
    ReplyIsAttempt(attempts, t.id);
    var replies := RepliesOf(attempts, t.id);
    assert replies[0] in replies;
    FailedExactly(completed[t.id]);
  }

  /** A skipped task has a dependency that was skipped. */
  lemma SkippedForSkipped(tasks: seq<Task>, completed: map<TaskId, string>, attempts: seq<Attempt>, t: Task)
    returns (d: TaskId)
    requires Closed(tasks) && forall s :: s in tasks ==> Finished(s, completed, attempts)
    requires AllSucceed(attempts) && t in tasks && RepliesOf(attempts, t.id) == []
    ensures d in t.dependsOn && d in Ids(tasks) && RepliesOf(attempts, d) == []
  {
    hide IsFailedResult, RepliesOf, AllSucceed, RecordedFrom, DoneAtOnce;
    assert Finished(t, completed, attempts);
    d :| d in t.dependsOn && d in completed && IsFailedResult(completed[d]);
    var u :| u in tasks && u.id == d;
    assert Finished(u, completed, attempts);
    if RepliesOf(attempts, d) != [] {
      AnsweredIsDone(u, completed, attempts);
    }
  }

  /** If all answers are successes, every task is attempted exactly once and has the text of its answer. */
  lemma SuccessRunsAll(tasks: seq<Task>, completed: map<TaskId, string>, attempts: seq<Attempt>)
    requires Sortable(tasks) && forall t :: t in tasks ==> Finished(t, completed, attempts)
    requires AllSucceed(attempts)
    ensures forall t :: t in tasks ==> DoneAtOnce(t, completed, attempts)
  {
    hide IsFailedResult, RepliesOf, AllSucceed, Finished, DoneAtOnce, Acyclic, DistinctIds;
    var skipped := set x | x in Ids(tasks) && RepliesOf(attempts, x) == [];
    forall t | t in tasks
      ensures DoneAtOnce(t, completed, attempts)
    {
      forall s | s in tasks && s.id in skipped
        ensures exists d :: d in s.dependsOn && d in skipped
      {
        var d := SkippedForSkipped(tasks, completed, attempts, s);
      }
      NoneLeft(tasks, skipped, t);
      AnsweredIsDone(t, completed, attempts);
    }
  }

  /** Of tasks that can be sorted, no set waits for itself. */
  lemma NoneLeft(tasks: seq<Task>, left: set<TaskId>, t: Task)
    requires Sortable(tasks) && left <= Ids(tasks) && t in tasks
    requires forall s :: s in tasks && s.id in left ==> exists d :: d in s.dependsOn && d in left
    ensures t.id !in left
  {
    hide Blocked, Acyclic, DistinctIds, Closed;
    if t.id in left {
      var done := Ids(tasks) - left;
      forall s | s in tasks && s.id !in done
        ensures exists d :: d in s.dependsOn && d !in done
      {
        var d :| d in s.dependsOn && d in left;
      }
      StuckIsBlocked(tasks, done, [t.id]);
      SortableMeansUnblocked(tasks);
    }
  }

  /** A subagent that succeeds with such a text, whatever follows, makes its dependents fail without an attempt. */
  lemma SuccessCountsAsFailed(a: Task, b: Task, rest: string)
    requires a.id != b.id && a.dependsOn == [] && b.dependsOn == [a.id]
    ensures var attempts := [Attempt(a, SubAgentReply(true, FAILED + rest, ""))];
            var completed := map[a.id := FAILED + rest, b.id := FAILED + " dependency " + a.id.name + " failed"];
            && Finished(a, completed, attempts) && Finished(b, completed, attempts)
            && IsFailedResult(completed[b.id]) && RepliesOf(attempts, b.id) == []
  {
    hide IsFailedResult;
    var attempt := Attempt(a, SubAgentReply(true, FAILED + rest, ""));
    FailureTextIsFailed(rest);
    FailureTextIsFailed(" dependency " + a.id.name + " failed");
    assert FAILED + (" dependency " + a.id.name + " failed") == FAILED + " dependency " + a.id.name + " failed";
    assert [] + [attempt] == [attempt];
    RepliesAppend([], attempt, a.id);
    RepliesAppend([], attempt, b.id);
    assert a.id in b.dependsOn;
  }

  /** The text that is recorded for a task after its last attempt. */
  function Recorded(t: Task, last: SubAgentReply): string {
    if last.ok then last.finalText
    else FAILED + if t.confidence < 0.5 then " escalated after retry - " + last.reason else " " + last.reason
  }

  /** The task as it is handed to the subagent. */
  function Routed(t: Task, route: Task -> Routing): Task {
    if Trim(t.role) == "" then Route(t, route) else t
  }

  /** The attempts are the subagent's calls from number `start` on. */
  ghost predicate Asked(tried: seq<Attempt>, start: nat, subAgent: (nat, Task) -> SubAgentReply) {
    forall k :: 0 <= k < |tried| ==> tried[k].reply == subAgent(start + k, tried[k].task)
  }

  /** Each attempt is one of a routed task of the list. */
  ghost predicate AttemptsAmong(tried: seq<Attempt>, tasks: seq<Task>, route: Task -> Routing) {
    forall a :: a in tried ==> exists t :: t in tasks && a.task == Routed(t, route)
  }

  lemma AskedOn(tried: seq<Attempt>, added: seq<Attempt>, start: nat, subAgent: (nat, Task) -> SubAgentReply)
    requires Asked(tried, start, subAgent) && Asked(added, start + |tried|, subAgent)
    ensures Asked(tried + added, start, subAgent)
  {
    forall k | 0 <= k < |tried + added|
      ensures (tried + added)[k].reply == subAgent(start + k, (tried + added)[k].task)
    {
      if k >= |tried| {
        assert (tried + added)[k] == added[k - |tried|];
      }
    }
  }

  lemma AttemptsAmongOn(tried: seq<Attempt>, added: seq<Attempt>, tasks: seq<Task>, t: Task, route: Task -> Routing)
    requires AttemptsAmong(tried, tasks, route) && t in tasks
    requires forall k :: 0 <= k < |added| ==> added[k].task == Routed(t, route)
    ensures AttemptsAmong(tried + added, tasks, route)
  {
  }

  /** Only results under these ids differ. */
  ghost predicate Untouched(before: map<TaskId, string>, after: map<TaskId, string>, ids: set<TaskId>) {
    forall id :: id !in ids ==> SameResult(before, after, id)
  }

  predicate SameResult(before: map<TaskId, string>, after: map<TaskId, string>, id: TaskId) {
    (id in after <==> id in before) && (id in after ==> after[id] == before[id])
  }

  lemma UntouchedOn(start: map<TaskId, string>, before: map<TaskId, string>, ids: set<TaskId>, id: TaskId,
                    result: string)
    requires Untouched(start, before, ids) && id in ids
    ensures Untouched(start, before[id := result], ids)
  {
    forall x | x !in ids
      ensures SameResult(start, before[id := result], x)
    {
      assert SameResult(start, before, x);
    }
  }

  ghost predicate FinishedUpTo(order: seq<Task>, n: nat, completed: map<TaskId, string>, tried: seq<Attempt>)
    requires n <= |order|
  {
    && (forall k :: 0 <= k < n ==> Finished(order[k], completed, tried))
    && (forall id :: id !in Ids(order[..n]) ==> RepliesOf(tried, id) == [])
  }

  /** All attempts in `added` are of task t. */
  ghost predicate AttemptsOf(added: seq<Attempt>, t: Task) {
    forall k :: 0 <= k < |added| ==> added[k].task.id == t.id
  }

  lemma {:induction false} RepliesConcat(tried: seq<Attempt>, added: seq<Attempt>, id: TaskId)
    ensures RepliesOf(tried + added, id) == RepliesOf(tried, id) + RepliesOf(added, id)
  {
    if added == [] {
      assert tried + added == tried;
    } else {
      var init := added[..|added| - 1];
      assert (tried + added)[..|tried + added| - 1] == tried + init;
      RepliesConcat(tried, init, id);
    }
  }

  lemma {:induction false} NoReplies(added: seq<Attempt>, t: Task, id: TaskId)
    requires AttemptsOf(added, t) && id != t.id
    ensures RepliesOf(added, id) == []
  {
    if added != [] {
      NoReplies(added[..|added| - 1], t, id);
    }
  }

  lemma FinishedStays(s: Task, t: Task, before: map<TaskId, string>, tried: seq<Attempt>, result: string,
                      added: seq<Attempt>)
    requires Finished(s, before, tried) && AttemptsOf(added, t) && t.id != s.id && t.id !in s.dependsOn
    ensures Finished(s, before[t.id := result], tried + added)
  {
    RepliesConcat(tried, added, s.id);
    NoReplies(added, t, s.id);
  }

  lemma FinishedNow(t: Task, before: map<TaskId, string>, tried: seq<Attempt>, result: string, added: seq<Attempt>)
    requires forall d :: d in t.dependsOn ==> d in before && d != t.id
    requires RepliesOf(tried, t.id) == [] && RecordedFrom(RepliesOf(added, t.id), result)
    requires RepliesOf(added, t.id) == [] <==> FailedDependency(t, before)
    ensures Finished(t, before[t.id := result], tried + added)
  {
    RepliesConcat(tried, added, t.id);
    assert RepliesOf(tried + added, t.id) == RepliesOf(added, t.id);
  }

  /** The dependencies of the next task in order are finished, and it is not. */
  lemma NextTask(order: seq<Task>, n: nat, completed: map<TaskId, string>, tried: seq<Attempt>)
    requires n < |order| && DistinctIds(order) && InOrder(order) && FinishedUpTo(order, n, completed, tried)
    ensures forall d :: d in order[n].dependsOn ==> d in completed && d != order[n].id
    ensures forall k :: 0 <= k < n ==> order[n].id != order[k].id && order[n].id !in order[k].dependsOn
    ensures RepliesOf(tried, order[n].id) == []
  {
    assert order[n].id !in Ids(order[..n]);
    forall d | d in order[n].dependsOn
      ensures d in completed && d != order[n].id
    {
      var k :| 0 <= k < n && order[k].id == d;
      assert Finished(order[k], completed, tried);
    }
    forall k | 0 <= k < n
      ensures order[n].id !in order[k].dependsOn
    {
      assert order[..k] <= order[..n];
    }
  }

  /** Finishing the next task in order leaves the finished ones as they are. */
  lemma FinishStep(order: seq<Task>, n: nat, before: map<TaskId, string>, tried: seq<Attempt>, result: string,
                   added: seq<Attempt>)
    requires n < |order| && DistinctIds(order) && InOrder(order)
    requires FinishedUpTo(order, n, before, tried)
    requires AttemptsOf(added, order[n]) && RecordedFrom(RepliesOf(added, order[n].id), result)
    requires RepliesOf(added, order[n].id) == [] <==> FailedDependency(order[n], before)
    ensures FinishedUpTo(order, n + 1, before[order[n].id := result], tried + added)
  {
    hide Finished, FailedDependency, RecordedFrom, InOrder;
    var t := order[n];
    NextTask(order, n, before, tried);
    forall k | 0 <= k < n + 1
      ensures Finished(order[k], before[t.id := result], tried + added)
    {
      if k < n {
        assert Finished(order[k], before, tried);
        FinishedStays(order[k], t, before, tried, result, added);
      } else {
        FinishedNow(t, before, tried, result, added);
      }
    }
    assert order[..n + 1] == order[..n] + [t];
    IdsAppend(order[..n], t);
    forall id | id !in Ids(order[..n + 1])
      ensures RepliesOf(tried + added, id) == []
    {
      RepliesConcat(tried, added, id);
      NoReplies(added, t, id);
    }
  }

  predicate AllNamed(tasks: seq<Task>) {
    forall t :: t in tasks ==> Trim(t.id.name) != ""
  }

  lemma PlanKeepsEdges(tasks: seq<Task>, route: Task -> Routing)
    requires AllNamed(tasks)
    ensures Ids(PlanTasks(tasks, route)) == Ids(tasks)
    ensures forall a, d :: Edge(PlanTasks(tasks, route), a, d) <==> Edge(tasks, a, d)
  {
    var planned := PlanTasks(tasks, route);
    forall i | 0 <= i < |tasks|
      ensures planned[i].id == tasks[i].id && planned[i].dependsOn == tasks[i].dependsOn
    {
      assert tasks[i] in tasks;
    }
    forall a, d
      ensures Edge(planned, a, d) <==> Edge(tasks, a, d)
    {
      if Edge(planned, a, d) {
        var i :| 0 <= i < |planned| && planned[i].id == a && d in planned[i].dependsOn;
        assert tasks[i] in tasks;
      }
      if Edge(tasks, a, d) {
        var i :| 0 <= i < |tasks| && tasks[i].id == a && d in tasks[i].dependsOn;
        assert planned[i] in planned;
      }
    }
    forall x
      ensures x in Ids(planned) <==> x in Ids(tasks)
    {
      if x in Ids(planned) {
        var i :| 0 <= i < |planned| && planned[i].id == x;
        assert tasks[i] in tasks;
      }
      if x in Ids(tasks) {
        var i :| 0 <= i < |tasks| && tasks[i].id == x;
        assert planned[i] in planned;
      }
    }
  }

  /** Whether tasks can be sorted depends on their ids and edges alone. */
  lemma SortableByGraph(a: seq<Task>, b: seq<Task>)
    requires Ids(a) == Ids(b) && |a| == |b| && forall x, d :: Edge(a, x, d) <==> Edge(b, x, d)
    requires Sortable(a)
    ensures Sortable(b)
  {
    DistinctIdsCount(a);
    DistinctIdsCount(b);
    forall t, d | t in b && d in t.dependsOn
      ensures d in Ids(b)
    {
      assert Edge(b, t.id, d);
      var s :| s in a && s.id == t.id && d in s.dependsOn;
    }
    forall path | Cycle(b, path)
      ensures Cycle(a, path)
    {
      forall i | 0 <= i < |path| - 1
        ensures Edge(a, path[i], path[i + 1])
      {
        assert Edge(b, path[i], path[i + 1]);
      }
    }
  }

  /** The planner keeps named tasks sortable. */
  lemma PlanKeepsSortable(tasks: seq<Task>, route: Task -> Routing)
    requires AllNamed(tasks) && Sortable(tasks)
    ensures Sortable(PlanTasks(tasks, route))
  {
    PlanKeepsEdges(tasks, route);
    SortableByGraph(tasks, PlanTasks(tasks, route));
  }

  /** What is sorted and run for these tasks: the tasks themselves or the planner's versions, in some order. */
  ghost predicate IsRunFor(run: seq<Task>, tasks: seq<Task>, route: Task -> Routing) {
    multiset(run) == multiset(tasks) || multiset(run) == multiset(PlanTasks(tasks, route))
  }

  /** When all that was run is finished, so are the tasks it was run for: with their own dependencies. */
  lemma RunFinishesTasks(run: seq<Task>, tasks: seq<Task>, route: Task -> Routing, completed: map<TaskId, string>,
                         attempts: seq<Attempt>)
    requires IsRunFor(run, tasks, route) && AllNamed(tasks)
    requires forall t :: t in run ==> Finished(t, completed, attempts)
    ensures forall t :: t in tasks ==> Finished(t, completed, attempts)
    ensures |run| == |tasks| && Ids(run) == Ids(tasks)
  {
    hide RecordedFrom, RepliesOf;
    var planned := PlanTasks(tasks, route);
    forall t | t in tasks
      ensures Finished(t, completed, attempts)
    {
      var i :| 0 <= i < |tasks| && tasks[i] == t;
      var ran := if multiset(run) == multiset(tasks) then t else planned[i];
      assert ran.id == t.id && ran.dependsOn == t.dependsOn;
      assert ran in multiset(run);
      assert Finished(ran, completed, attempts);
    }
    if multiset(run) == multiset(tasks) {
      SameLength(run, tasks);
      SameIds(run, tasks);
    } else {
      SameLength(run, planned);
      SameIds(run, planned);
      PlanKeepsEdges(tasks, route);
    }
  }

  lemma SameIds(a: seq<Task>, b: seq<Task>)
    requires multiset(a) == multiset(b)
    ensures Ids(a) == Ids(b)
  {
    assert forall t :: t in a <==> t in multiset(a);
    assert forall t :: t in b <==> t in multiset(b);
  }

  lemma SortableReordered(a: seq<Task>, b: seq<Task>)
    requires multiset(a) == multiset(b) && Sortable(a)
    ensures Sortable(b) && Ids(a) == Ids(b) && forall t :: t in a <==> t in b
  {
    forall t
      ensures t in a <==> t in b
    {
      assert t in multiset(a) <==> t in multiset(b);
    }
    assert |a| == |multiset(a)| == |multiset(b)| == |b|;
    SortableByGraph(a, b);
  }

  /** The delegation part of a run's state. */
  class Delegator {
    const hasRunner: bool
    var completed: map<TaskId, string>
    var planned: bool  // a decomposition plan has been stored in the output
    var subAgentCalls: nat

    constructor (hasRunner: bool)
      ensures this.hasRunner == hasRunner && completed == map[] && !planned && subAgentCalls == 0
    {
      this.hasRunner := hasRunner;
      completed, planned, subAgentCalls := map[], false, 0;
    }

    /** Looks for a dependency with a failed result. */
    method FindFailedDependency(t: Task) returns (r: Option<TaskId>, missing: Option<TaskId>)
      ensures (forall d :: d in t.dependsOn ==> d in completed) ==> missing == None
      ensures missing.None? ==> (r.Some? <==> FailedDependency(t, completed))
      ensures r.Some? ==> r.value in t.dependsOn && r.value in completed && IsFailedResult(completed[r.value])
      ensures missing.Some? ==> missing.value in t.dependsOn && missing.value !in completed
    {
      for i := 0 to |t.dependsOn|
        invariant forall k :: 0 <= k < i ==> t.dependsOn[k] in completed && !IsFailedResult(completed[t.dependsOn[k]])
      {
        var dep := t.dependsOn[i];
        if dep !in completed {
          return None, Some(dep);
        }
        if IsFailedResult(completed[dep]) {
          return Some(dep), None;
        }
      }
      return None, None;
    }

    /** Runs one task, a second time if the first attempt fails. */
    method RunTask(t: Task, subAgent: (nat, Task) -> SubAgentReply) returns (ghost added: seq<Attempt>)
      modifies `completed, `subAgentCalls
      ensures t.id in completed && completed == old(completed)[t.id := completed[t.id]]
      ensures AttemptsOf(added, t) && RepliesOf(added, t.id) != [] && 1 <= |added| <= 2
      ensures RecordedFrom(RepliesOf(added, t.id), completed[t.id])
      ensures subAgentCalls == old(subAgentCalls) + |added| && Asked(added, old(subAgentCalls), subAgent)
      ensures forall k :: 0 <= k < |added| ==> added[k].task == t
      ensures completed[t.id] == Recorded(t, added[|added| - 1].reply)
    {
      added := [];
      var attempt := 1;
      while attempt <= 2
        invariant 1 <= attempt <= 2 && |added| == attempt - 1
        invariant subAgentCalls == old(subAgentCalls) + |added| && completed == old(completed)
        invariant AttemptsOf(added, t) && |RepliesOf(added, t.id)| == |added|
        invariant forall r :: r in RepliesOf(added, t.id) ==> !r.ok
        invariant Asked(added, old(subAgentCalls), subAgent)
        invariant forall k :: 0 <= k < |added| ==> added[k].task == t
        decreases 3 - attempt
      {
        var reply := subAgent(subAgentCalls, t);
        subAgentCalls := subAgentCalls + 1;
        RepliesAppend(added, Attempt(t, reply), t.id);
        ghost var earlier := RepliesOf(added, t.id);
        assert forall k :: 0 <= k < |earlier| ==> earlier[k] in earlier;
        added := added + [Attempt(t, reply)];
        if reply.ok {
          completed := completed[t.id := reply.finalText];
          return;
        }
        if attempt == 2 {
          if t.confidence < 0.5 {
            FailureTextIsFailed(" escalated after retry - " + reply.reason);
            completed := completed[t.id := FAILED + (" escalated after retry - " + reply.reason)];
          } else {
            FailureTextIsFailed(" " + reply.reason);
            completed := completed[t.id := FAILED + (" " + reply.reason)];
          }
          return;
        }
        attempt := attempt + 1;
      }
    }

    /** One task whose dependencies have their results: skipped if one of them failed, else run. */
    method RunNext(t: Task, subAgent: (nat, Task) -> SubAgentReply, route: Task -> Routing)
      returns (ghost added: seq<Attempt>)
      requires forall d :: d in t.dependsOn ==> d in completed
      modifies `completed, `subAgentCalls
      ensures t.id in completed && completed == old(completed)[t.id := completed[t.id]]
      ensures AttemptsOf(added, t) && RecordedFrom(RepliesOf(added, t.id), completed[t.id])
      ensures RepliesOf(added, t.id) == [] <==> FailedDependency(t, old(completed))
      ensures subAgentCalls == old(subAgentCalls) + |added| && |added| <= 2
      ensures Asked(added, old(subAgentCalls), subAgent)
      ensures forall k :: 0 <= k < |added| ==> added[k].task == Routed(t, route)
    {
      hide FailedDependency, Recorded;
      var routed := Routed(t, route);
      var failed, missing := FindFailedDependency(t);
      if missing.Some? {
        assert false;  // "dependency not satisfied": every dependency has its result
      }
      added := [];
      if failed.Some? {
        FailureTextIsFailed(" dependency " + failed.value.name + " failed");
        completed := completed[t.id := FAILED + (" dependency " + failed.value.name + " failed")];
      } else {
        added := RunTask(routed, subAgent);
      }
    }

    /** Runs the ordered tasks one after the other. */
    method RunInOrder(order: seq<Task>, subAgent: (nat, Task) -> SubAgentReply, route: Task -> Routing)
      returns (ghost tried: seq<Attempt>)
      requires DistinctIds(order) && InOrder(order)
      modifies `completed, `subAgentCalls
      ensures FinishedUpTo(order, |order|, completed, tried)
      ensures Untouched(old(completed), completed, Ids(order))
      ensures subAgentCalls == old(subAgentCalls) + |tried| && |tried| <= 2 * |order|
      ensures Asked(tried, old(subAgentCalls), subAgent) && AttemptsAmong(tried, order, route)
    {
      tried := [];
      for i := 0 to |order|
        invariant FinishedUpTo(order, i, completed, tried)
        invariant Untouched(old(completed), completed, Ids(order))
        invariant subAgentCalls == old(subAgentCalls) + |tried| && |tried| <= 2 * i
        invariant Asked(tried, old(subAgentCalls), subAgent) && AttemptsAmong(tried, order, route)
      {
        hide FinishedUpTo, FailedDependency, InOrder, DistinctIds, Asked, AttemptsAmong, Recorded, RepliesOf, Routed,
             RecordedFrom, AttemptsOf, Untouched;
        var t := order[i];
        assert t.id in Ids(order);
        hide Ids;
        ghost var before := completed;
        NextTask(order, i, completed, tried);
        ghost var added := RunNext(t, subAgent, route);
        FinishStep(order, i, before, tried, completed[t.id], added);
        AskedOn(tried, added, old(subAgentCalls), subAgent);
        AttemptsAmongOn(tried, added, order, t, route);
        UntouchedOn(old(completed), before, Ids(order), t.id, completed[t.id]);
        tried := tried + added;
      }
    }

    /** Plans if no plan is stored yet, sorts, and runs the tasks. `run` is the list that was sorted. */
    method ExecuteDelegated(tasks: seq<Task>, subAgent: (nat, Task) -> SubAgentReply, route: Task -> Routing,
                            builtInRoles: set<string>)
      returns (error: Option<DelegationError>, ghost run: seq<Task>, ghost tried: seq<Attempt>)
      modifies this
      ensures error == if !hasRunner then Some(NoRunner) else if Sortable(run) then None else Some(DependencyCycle)
      ensures run == tasks || (!old(planned) && multiset(run) == multiset(PlanTasks(tasks, route)))
      ensures Sortable(tasks) && AllNamed(tasks) ==> Sortable(run) && Ids(run) == Ids(tasks)
      ensures error.None? ==>
                (forall t :: t in run ==> Finished(t, completed, tried))
                && Untouched(old(completed), completed, Ids(run))
      ensures error.None? && AllNamed(tasks) ==> forall t :: t in tasks ==> Finished(t, completed, tried)
      ensures error.None? && AllSucceed(tried) ==> forall t :: t in run ==> DoneAtOnce(t, completed, tried)
      ensures error.Some? ==> completed == old(completed) && tried == []
      ensures subAgentCalls == old(subAgentCalls) + |tried| && |tried| <= 2 * |run|
      ensures Asked(tried, old(subAgentCalls), subAgent) && AttemptsAmong(tried, run, route)
      ensures old(planned) ==> planned
    {
      hide Sortable, InOrder, Greedy, PlanTasks, Summarises, Finished, AllNamed, Routed, AllSucceed, DoneAtOnce;
      run, tried := tasks, [];
      if !hasRunner {
        return Some(NoRunner), run, tried;
      }
      if Sortable(tasks) && AllNamed(tasks) {
        PlanKeepsSortable(tasks, route);
        PlanKeepsEdges(tasks, route);
      }
      var effective := tasks;
      if !planned {
        var plan := GeneratePlan(tasks, route, builtInRoles);
        if plan.Some? {
          planned := true;
          SortableReordered(PlanTasks(tasks, route), plan.value.order);
          effective := plan.value.order;
          run := effective;
        }
      }
      var sorted := TopologicalSort(effective);
      if sorted.Stuck? {
        return Some(DependencyCycle), run, tried;
      }
      SortableReordered(effective, sorted.order);
      SortableIsDistinct(sorted.order);
      tried := RunInOrder(sorted.order, subAgent, route);
      AllFinished(sorted.order, completed, tried);
      SameLength(run, sorted.order);
      if AllSucceed(tried) {
        SuccessRunsAll(run, completed, tried);
      }
      if AllNamed(tasks) {
        RunFinishesTasks(run, tasks, route, completed, tried);
      }
      return None, run, tried;
    }
  }

  lemma SameLength<T>(a: seq<T>, b: seq<T>)
    requires multiset(a) == multiset(b)
    ensures |a| == |b|
  {
    assert |multiset(a)| == |a| && |multiset(b)| == |b|;
  }

  lemma SortableIsDistinct(tasks: seq<Task>)
    requires Sortable(tasks)
    ensures DistinctIds(tasks)
  {
  }

  lemma AllFinished(order: seq<Task>, completed: map<TaskId, string>, tried: seq<Attempt>)
    requires FinishedUpTo(order, |order|, completed, tried)
    ensures forall t :: t in order ==> Finished(t, completed, tried)
  {
  }
}
