/** Kahn's algorithm with a queue that is kept sorted by priority. */
module TaskSort {
  import opened Counting
  import opened TaskGraph

  datatype SortResult = Ordered(order: seq<Task>) | Stuck(unvisited: seq<TaskId>)

  type TaskMap = map<TaskId, Task>

  /** The priority a lookup by id finds; an unknown id finds the zero task. */
  function Priority(taskMap: TaskMap, id: TaskId): int {
    if id in taskMap then taskMap[id].priority else 0
  }

  ghost predicate Sorted(ids: seq<TaskId>, taskMap: TaskMap) {
    forall i, j :: 0 <= i < j < |ids| ==> Priority(taskMap, ids[i]) <= Priority(taskMap, ids[j])
  }

  /** Everything before position i comes before everything from i on. */
  ghost predicate SplitAt(ids: seq<TaskId>, i: nat, taskMap: TaskMap) {
    forall a, b :: 0 <= a < i <= b < |ids| ==> Priority(taskMap, ids[a]) <= Priority(taskMap, ids[b])
  }

  ghost predicate LeastUpTo(ids: seq<TaskId>, i: nat, j: nat, taskMap: TaskMap) {
    i < j <= |ids| && forall b :: i < b < j ==> Priority(taskMap, ids[i]) <= Priority(taskMap, ids[b])
  }

  method Swap(ids: array<TaskId>, i: nat, j: nat)
    requires i < j < ids.Length
    modifies ids
    ensures ids[..] == old(ids[..][i := ids[j]][j := ids[i]])
    ensures multiset(ids[..]) == multiset(old(ids[..]))
  {
    ids[i], ids[j] := ids[j], ids[i];
  }

  lemma ExchangeStep(ids: seq<TaskId>, i: nat, j: nat, taskMap: TaskMap)
    requires SplitAt(ids, i, taskMap) && LeastUpTo(ids, i, j, taskMap) && j < |ids|
    ensures var ids' := if Priority(taskMap, ids[j]) < Priority(taskMap, ids[i]) then ids[i := ids[j]][j := ids[i]]
                        else ids;
            SplitAt(ids', i, taskMap) && LeastUpTo(ids', i, j + 1, taskMap) && ids'[..i] == ids[..i]
  {
  }

  /** The inner loop of the exchange sort: position i receives the least of what follows. */
  method ExchangeInto(ids: array<TaskId>, i: nat, taskMap: TaskMap)
    requires i < ids.Length && SplitAt(ids[..], i, taskMap)
    modifies ids
    ensures multiset(ids[..]) == multiset(old(ids[..])) && ids[..i] == old(ids[..i])
    ensures SplitAt(ids[..], i, taskMap) && LeastUpTo(ids[..], i, ids.Length, taskMap)
  {
    hide SplitAt;
    var j := i + 1;
    while j < ids.Length
      invariant i < j <= ids.Length
      invariant multiset(ids[..]) == multiset(old(ids[..])) && ids[..][..i] == old(ids[..][..i])
      invariant SplitAt(ids[..], i, taskMap) && LeastUpTo(ids[..], i, j, taskMap)
    {
      ExchangeStep(ids[..], i, j, taskMap);
      if Priority(taskMap, ids[j]) < Priority(taskMap, ids[i]) {
        Swap(ids, i, j);
      }
      j := j + 1;
    }
    assert ids[..i] == ids[..][..i];
  }

  lemma SortedStep(ids: seq<TaskId>, i: nat, taskMap: TaskMap)
    requires i < |ids| && Sorted(ids[..i], taskMap)
    requires SplitAt(ids, i, taskMap) && LeastUpTo(ids, i, |ids|, taskMap)
    ensures Sorted(ids[..i + 1], taskMap) && SplitAt(ids, i + 1, taskMap)
  {
    forall a, b | 0 <= a < i + 1 <= b < |ids|
      ensures Priority(taskMap, ids[a]) <= Priority(taskMap, ids[b])
    {
    }
    var prefix := ids[..i + 1];
    forall a, b | 0 <= a < b < |prefix|
      ensures Priority(taskMap, prefix[a]) <= Priority(taskMap, prefix[b])
    {
      if b < i {
        assert ids[..i][a] == ids[a] && ids[..i][b] == ids[b];
      }
    }
  }

  /** In-place exchange sort. */
  method SortByPriority(ids: array<TaskId>, taskMap: TaskMap)
    modifies ids
    ensures multiset(ids[..]) == multiset(old(ids[..]))
    ensures Sorted(ids[..], taskMap)
  {
    var i := 0;
    while i < ids.Length - 1
      invariant 0 <= i <= ids.Length
      invariant multiset(ids[..]) == multiset(old(ids[..]))
      invariant Sorted(ids[..][..i], taskMap) && SplitAt(ids[..], i, taskMap)
    {
      hide Sorted, SplitAt, LeastUpTo;
      ExchangeInto(ids, i, taskMap);
      assert ids[..][..i] == ids[..i];
      SortedStep(ids[..], i, taskMap);
      i := i + 1;
    }
    if i < ids.Length {
      SortedStep(ids[..], i, taskMap);
      assert ids[..][..i + 1] == ids[..];
    }
  }

  /** Sorts the queue in place, in a backing array of its own. */
  method SortQueue(queue: seq<TaskId>, taskMap: TaskMap) returns (r: seq<TaskId>)
    ensures multiset(r) == multiset(queue) && Sorted(r, taskMap)
  {
    var ids := new TaskId[|queue|](i requires 0 <= i < |queue| => queue[i]);
    assert ids[..] == queue;
    SortByPriority(ids, taskMap);
    r := ids[..];
  }

  /** How many dependencies, counted with repetition, are not done. */
  function Unmet(deps: seq<TaskId>, done: set<TaskId>): nat {
    if deps == [] then 0 else Unmet(deps[..|deps| - 1], done) + if deps[|deps| - 1] in done then 0 else 1
  }

  lemma {:induction false} UnmetZero(deps: seq<TaskId>, done: set<TaskId>)
    ensures Unmet(deps, done) == 0 <==> forall d :: d in deps ==> d in done
  {
    if deps != [] {
      UnmetZero(deps[..|deps| - 1], done);
      assert deps == deps[..|deps| - 1] + [deps[|deps| - 1]];
    }
  }

  lemma {:induction false} UnmetStep(deps: seq<TaskId>, done: set<TaskId>, x: TaskId)
    requires x !in done
    ensures Unmet(deps, done) == Unmet(deps, done + {x}) + Count(deps, x)
  {
    if deps != [] {
      var init, d := deps[..|deps| - 1], deps[|deps| - 1];
      UnmetStep(init, done, x);
      assert deps == init + [d];
      CountAppend(init, [d], x);
    }
  }

  function Get(dependents: map<TaskId, seq<TaskId>>, d: TaskId): seq<TaskId> {
    if d in dependents then dependents[d] else []
  }

  /** Each task is listed under each dependency as often as it names it. */
  ghost predicate EdgesAgree(tasks: seq<Task>, dependents: map<TaskId, seq<TaskId>>) {
    forall t, d :: t in tasks ==> EdgeAgrees(t, d, dependents)
  }

  ghost predicate EdgeAgrees(t: Task, d: TaskId, dependents: map<TaskId, seq<TaskId>>) {
    Count(Get(dependents, d), t.id) == Count(t.dependsOn, d)
  }

  ghost predicate EdgesListed(ids: set<TaskId>, dependents: map<TaskId, seq<TaskId>>) {
    forall d, x :: x in Get(dependents, d) ==> x in ids
  }

  method BuildTaskMap(tasks: seq<Task>) returns (taskMap: TaskMap)
    ensures taskMap.Keys == Ids(tasks)
    ensures forall x :: x in taskMap ==> taskMap[x] in tasks && taskMap[x].id == x
  {
    taskMap := map[];
    for i := 0 to |tasks|
      invariant taskMap.Keys == Ids(tasks[..i])
      invariant forall x :: x in taskMap ==> taskMap[x] in tasks && taskMap[x].id == x
    {
      taskMap := taskMap[tasks[i].id := tasks[i]];
      assert tasks[..i + 1] == tasks[..i] + [tasks[i]];
      IdsAppend(tasks[..i], tasks[i]);
    }
    assert tasks[..|tasks|] == tasks;
  }

  method BuildDependents(tasks: seq<Task>) returns (dependents: map<TaskId, seq<TaskId>>)
    ensures EdgesListed(Ids(tasks), dependents)
    ensures DistinctIds(tasks) ==> EdgesAgree(tasks, dependents)
  {
    dependents := map[];
    for i := 0 to |tasks|
      invariant EdgesListed(Ids(tasks[..i]), dependents)
      invariant DistinctIds(tasks) ==> EdgesAgree(tasks[..i], dependents)
    {
      dependents := AddEdges(tasks[..i], tasks[i], dependents);
      assert tasks[..i + 1] == tasks[..i] + [tasks[i]];
      IdsAppend(tasks[..i], tasks[i]);
    }
    assert tasks[..|tasks|] == tasks;
  }

  /** After the first k dependencies of t, t is appended under each of them as often as it names it. */
  ghost predicate EdgeAdded(edges: map<TaskId, seq<TaskId>>, dependents: map<TaskId, seq<TaskId>>, t: Task,
                            deps: seq<TaskId>, d: TaskId)
  {
    Get(dependents, d) == Get(edges, d) + Copies(t.id, Count(deps, d))
  }

  /** The inner loop of BuildDependents, for one task. */
  method AddEdges(before: seq<Task>, t: Task, edges: map<TaskId, seq<TaskId>>)
    returns (dependents: map<TaskId, seq<TaskId>>)
    requires EdgesListed(Ids(before), edges)
    ensures EdgesListed(Ids(before) + {t.id}, dependents)
    ensures EdgesAgree(before, edges) && t.id !in Ids(before) ==> EdgesAgree(before + [t], dependents)
  {
    dependents := edges;
    for k := 0 to |t.dependsOn|
      invariant forall d :: EdgeAdded(edges, dependents, t, t.dependsOn[..k], d)
    {
      var dep := t.dependsOn[k];
      ghost var former := dependents;
      dependents := dependents[dep := Get(dependents, dep) + [t.id]];
      assert t.dependsOn[..k + 1] == t.dependsOn[..k] + [dep];
      var deps := t.dependsOn[..k + 1];
      forall d
        ensures EdgeAdded(edges, dependents, t, deps, d)
      {
        assert EdgeAdded(edges, former, t, t.dependsOn[..k], d);
        CountAppend(t.dependsOn[..k], [dep], d);
      }
    }
    assert t.dependsOn[..|t.dependsOn|] == t.dependsOn;
    EdgesExtended(before, t, edges, dependents);
  }

  lemma EdgesExtended(before: seq<Task>, t: Task, edges: map<TaskId, seq<TaskId>>,
                      dependents: map<TaskId, seq<TaskId>>)
    requires EdgesListed(Ids(before), edges)
    requires forall d :: EdgeAdded(edges, dependents, t, t.dependsOn, d)
    ensures EdgesListed(Ids(before) + {t.id}, dependents)
    ensures EdgesAgree(before, edges) && t.id !in Ids(before) ==> EdgesAgree(before + [t], dependents)
  {
    forall d, x | x in Get(dependents, d)
      ensures x in Ids(before) + {t.id}
    {
      assert EdgeAdded(edges, dependents, t, t.dependsOn, d);
      CountCopies(t.id, Count(t.dependsOn, d), x);
      CountIn(Copies(t.id, Count(t.dependsOn, d)), x);
    }
    if EdgesAgree(before, edges) && t.id !in Ids(before) {
      forall s, d | s in before + [t]
        ensures EdgeAgrees(s, d, dependents)
      {
        assert EdgeAdded(edges, dependents, t, t.dependsOn, d);
        CountAppend(Get(edges, d), Copies(t.id, Count(t.dependsOn, d)), s.id);
        CountCopies(t.id, Count(t.dependsOn, d), s.id);
        if s in before {
          assert EdgeAgrees(s, d, edges) && s.id in Ids(before);
        } else {
          CountIn(Get(edges, d), t.id);
        }
      }
    }
  }

  type Degrees = map<TaskId, int>

  /** The degree of each task is the number of its unmet dependencies, plus the decrements still to come. */
  ghost predicate DegreesAgree(tasks: seq<Task>, degrees: Degrees, done: set<TaskId>, coming: seq<TaskId>) {
    && degrees.Keys == Ids(tasks)
    && forall t :: t in tasks ==> DegreeAgrees(t, degrees, done, coming)
  }

  ghost predicate DegreeAgrees(t: Task, degrees: Degrees, done: set<TaskId>, coming: seq<TaskId>) {
    t.id in degrees && degrees[t.id] == Unmet(t.dependsOn, done) + Count(coming, t.id)
  }

  /** The queue holds, once each, the tasks of degree zero that are not done; done tasks have degree zero. */
  ghost predicate QueueAgrees(queue: seq<TaskId>, degrees: Degrees, done: set<TaskId>) {
    && (forall x :: x in queue <==> x in degrees && x !in done && degrees[x] == 0)
    && (forall i, j :: 0 <= i < j < |queue| ==> queue[i] != queue[j])
    && (forall x :: x in done ==> x in degrees && degrees[x] == 0)
  }

  lemma StartDegrees(tasks: seq<Task>, degrees: Degrees)
    requires degrees.Keys == Ids(tasks)
    requires forall t :: t in tasks ==> degrees[t.id] == |t.dependsOn|
    ensures DegreesAgree(tasks, degrees, {}, [])
  {
    forall t | t in tasks
      ensures DegreeAgrees(t, degrees, {}, [])
    {
      NothingDone(t.dependsOn);
    }
  }

  lemma {:induction false} NothingDone(deps: seq<TaskId>)
    ensures Unmet(deps, {}) == |deps|
  {
    if deps != [] {
      NothingDone(deps[..|deps| - 1]);
    }
  }

  /** Emitting x turns its unmet mentions into decrements to come. */
  lemma EmitDegrees(tasks: seq<Task>, degrees: Degrees, done: set<TaskId>, x: TaskId,
                    dependents: map<TaskId, seq<TaskId>>)
    requires DegreesAgree(tasks, degrees, done, []) && EdgesAgree(tasks, dependents) && x !in done
    ensures DegreesAgree(tasks, degrees, done + {x}, Get(dependents, x))
  {
    forall t | t in tasks
      ensures DegreeAgrees(t, degrees, done + {x}, Get(dependents, x))
    {
      assert DegreeAgrees(t, degrees, done, []) && EdgeAgrees(t, x, dependents);
      UnmetStep(t.dependsOn, done, x);
    }
  }

  lemma EmitQueue(queue: seq<TaskId>, degrees: Degrees, done: set<TaskId>)
    requires QueueAgrees(queue, degrees, done) && queue != []
    ensures QueueAgrees(queue[1..], degrees, done + {queue[0]})
    ensures queue[0] !in done
  {
    assert queue == [queue[0]] + queue[1..];
    assert queue[0] in queue;
  }

  lemma DecrementDegrees(tasks: seq<Task>, degrees: Degrees, done: set<TaskId>, coming: seq<TaskId>)
    requires DegreesAgree(tasks, degrees, done, coming) && coming != [] && coming[0] in degrees
    ensures degrees[coming[0]] >= 1
    ensures DegreesAgree(tasks, degrees[coming[0] := degrees[coming[0]] - 1], done, coming[1..])
  {
    var x := coming[0];
    var t :| t in tasks && t.id == x;
    assert DegreeAgrees(t, degrees, done, coming);
    forall s | s in tasks
      ensures DegreeAgrees(s, degrees[x := degrees[x] - 1], done, coming[1..])
    {
      assert DegreeAgrees(s, degrees, done, coming);
    }
  }

  /** A task is queued when its degree reaches zero. */
  lemma DecrementQueue(degrees: Degrees, done: set<TaskId>, x: TaskId, queue: seq<TaskId>)
    requires QueueAgrees(queue, degrees, done) && x in degrees && degrees[x] >= 1
    ensures QueueAgrees(if degrees[x] == 1 then queue + [x] else queue, degrees[x := degrees[x] - 1], done)
  {
  }

  /** The head of the queue is ready, and no ready task has a smaller priority. */
  lemma HeadIsBest(tasks: seq<Task>, taskMap: TaskMap, degrees: Degrees, done: set<TaskId>, queue: seq<TaskId>)
    requires DistinctIds(tasks) && taskMap.Keys == Ids(tasks)
    requires forall x :: x in taskMap ==> taskMap[x] in tasks && taskMap[x].id == x
    requires DegreesAgree(tasks, degrees, done, []) && QueueAgrees(queue, degrees, done)
    requires queue != [] && Sorted(queue, taskMap) && queue[0] in taskMap
    ensures IsReady(taskMap[queue[0]], done)
    ensures forall t :: t in tasks && IsReady(t, done) ==> taskMap[queue[0]].priority <= t.priority
  {
    var head := taskMap[queue[0]];
    assert queue[0] in queue && DegreeAgrees(head, degrees, done, []);
    UnmetZero(head.dependsOn, done);
    forall t | t in tasks && IsReady(t, done)
      ensures head.priority <= t.priority
    {
      assert DegreeAgrees(t, degrees, done, []);
      UnmetZero(t.dependsOn, done);
      assert t.id in queue;
      SameTask(tasks, t, taskMap[t.id]);
    }
  }

  lemma EmitOrder(tasks: seq<Task>, order: seq<Task>, t: Task)
    requires InOrder(order) && Greedy(tasks, order) && IsReady(t, Ids(order))
    requires forall s :: s in tasks && IsReady(s, Ids(order)) ==> t.priority <= s.priority
    ensures InOrder(order + [t]) && Greedy(tasks, order + [t])
  {
    var order' := order + [t];
    forall k | 0 <= k < |order'|
      ensures order'[..k] == order[..k]
    {
    }
    assert order[..|order|] == order;
  }

  /** With an empty queue, every task that is not done has a dependency that is not done. */
  lemma EmptyQueueIsStuck(tasks: seq<Task>, degrees: Degrees, done: set<TaskId>, t: Task)
    requires DegreesAgree(tasks, degrees, done, []) && QueueAgrees([], degrees, done)
    requires t in tasks && t.id !in done
    ensures exists d :: d in t.dependsOn && d !in done
  {
    assert DegreeAgrees(t, degrees, done, []);
    UnmetZero(t.dependsOn, done);
  }

  /** The decrements caused by one emitted task. The ghost facts hold when ids are distinct. */
  method ReduceDegrees(tasks: seq<Task>, coming: seq<TaskId>, degrees0: Degrees, queue0: seq<TaskId>,
                       ghost done: set<TaskId>)
    returns (degrees: Degrees, queue: seq<TaskId>)
    requires degrees0.Keys == Ids(tasks) && forall x :: x in coming || x in queue0 ==> x in degrees0
    ensures degrees.Keys == degrees0.Keys && forall x :: x in queue ==> x in degrees
    ensures DegreesAgree(tasks, degrees0, done, coming) && QueueAgrees(queue0, degrees0, done) ==>
              DegreesAgree(tasks, degrees, done, []) && QueueAgrees(queue, degrees, done)
  {
    degrees, queue := degrees0, queue0;
    ghost var agree := DegreesAgree(tasks, degrees, done, coming) && QueueAgrees(queue, degrees, done);
    assert coming[0..] == coming;
    for k := 0 to |coming|
      invariant degrees.Keys == degrees0.Keys && forall x :: x in queue ==> x in degrees
      invariant agree ==> DegreesAgree(tasks, degrees, done, coming[k..]) && QueueAgrees(queue, degrees, done)
    {
      hide DegreesAgree, QueueAgrees;
      var x := coming[k];
      if agree {
        assert coming[k..][0] == x && coming[k..][1..] == coming[k + 1..];
        DecrementDegrees(tasks, degrees, done, coming[k..]);
        DecrementQueue(degrees, done, x, queue);
      }
      degrees := degrees[x := degrees[x] - 1];
      if degrees[x] == 0 {
        queue := queue + [x];
      }
    }
    assert coming[|coming|..] == [];
  }

  /** What holds at the top of the main loop when task ids are distinct. */
  ghost predicate LoopAgrees(tasks: seq<Task>, taskMap: TaskMap, degrees: Degrees, queue: seq<TaskId>,
                             order: seq<Task>)
  {
    && DegreesAgree(tasks, degrees, Ids(order), [])
    && QueueAgrees(queue, degrees, Ids(order))
    && Sorted(queue, taskMap)
    && InOrder(order) && Greedy(tasks, order)
  }

  ghost predicate NoDuplicates<T>(s: seq<T>) {
    forall i, j :: 0 <= i < j < |s| ==> s[i] != s[j]
  }

  lemma {:induction false} NoDuplicatesCounts<T(!new)>(s: seq<T>)
    ensures NoDuplicates(s) <==> forall x :: multiset(s)[x] <= 1
  {
    if s != [] {
      var init, last := s[..|s| - 1], s[|s| - 1];
      assert s == init + [last];
      NoDuplicatesCounts(init);
      if NoDuplicates(s) {
        assert last !in init;
      } else if NoDuplicates(init) {
        assert last in init;
        assert multiset(s)[last] == multiset(init)[last] + 1;
      } else {
        var x :| multiset(init)[x] > 1;
        assert multiset(s)[x] > 1;
      }
    }
  }

  lemma SortedQueueAgrees(queue: seq<TaskId>, r: seq<TaskId>, degrees: Degrees, done: set<TaskId>)
    requires QueueAgrees(queue, degrees, done) && multiset(r) == multiset(queue)
    ensures QueueAgrees(r, degrees, done)
  {
    NoDuplicatesCounts(queue);
    NoDuplicatesCounts(r);
    assert NoDuplicates(queue);
    assert NoDuplicates(r);
    forall x
      ensures x in r <==> x in queue
    {
      assert x in r <==> x in multiset(r);
    }
  }

  method CountDependencies(tasks: seq<Task>) returns (degrees: Degrees)
    ensures degrees.Keys == Ids(tasks)
    ensures DistinctIds(tasks) ==> forall t :: t in tasks ==> degrees[t.id] == |t.dependsOn|
  {
    degrees := map[];
    for i := 0 to |tasks|
      invariant degrees.Keys == Ids(tasks[..i])
      invariant DistinctIds(tasks) ==> forall j :: 0 <= j < i ==> degrees[tasks[j].id] == |tasks[j].dependsOn|
    {
      degrees := degrees[tasks[i].id := |tasks[i].dependsOn|];
      assert tasks[..i + 1] == tasks[..i] + [tasks[i]];
      IdsAppend(tasks[..i], tasks[i]);
    }
    assert tasks[..|tasks|] == tasks;
  }

  /** The first degrees and the tasks without dependencies. */
  method StartQueue(tasks: seq<Task>) returns (degrees: Degrees, queue: seq<TaskId>)
    ensures degrees.Keys == Ids(tasks) && forall x :: x in queue ==> x in degrees
    ensures DistinctIds(tasks) ==> DegreesAgree(tasks, degrees, {}, []) && QueueAgrees(queue, degrees, {})
  {
    degrees := CountDependencies(tasks);
    queue := [];
    for i := 0 to |tasks|
      invariant forall x :: x in queue ==> x in degrees
      invariant forall x :: x in queue <==> exists j :: 0 <= j < i && tasks[j].id == x && degrees[x] == 0
      invariant DistinctIds(tasks) ==> NoDuplicates(queue)
    {
      if degrees[tasks[i].id] == 0 {
        queue := queue + [tasks[i].id];
      }
    }
    if DistinctIds(tasks) {
      StartDegrees(tasks, degrees);
      assert NoDuplicates(queue);
    }
  }

  lemma SortKeepsMembers(queue: seq<TaskId>, r: seq<TaskId>)
    requires multiset(r) == multiset(queue)
    ensures forall x :: x in r <==> x in queue
  {
    forall x
      ensures x in r <==> x in queue
    {
      assert x in r <==> x in multiset(r);
    }
  }

  lemma LoopStart(tasks: seq<Task>, taskMap: TaskMap, degrees: Degrees, queue: seq<TaskId>)
    requires DegreesAgree(tasks, degrees, {}, []) && QueueAgrees(queue, degrees, {}) && Sorted(queue, taskMap)
    ensures LoopAgrees(tasks, taskMap, degrees, queue, [])
  {
    assert Ids([]) == {};
  }

  lemma LoopClose(tasks: seq<Task>, taskMap: TaskMap, degrees: Degrees, queue: seq<TaskId>, order: seq<Task>)
    requires DegreesAgree(tasks, degrees, Ids(order), []) && QueueAgrees(queue, degrees, Ids(order))
    requires Sorted(queue, taskMap) && InOrder(order) && Greedy(tasks, order)
    ensures LoopAgrees(tasks, taskMap, degrees, queue, order)
  {
  }

  /** Popping and emitting the head of the queue. */
  lemma LoopEmit(tasks: seq<Task>, taskMap: TaskMap, dependents: map<TaskId, seq<TaskId>>, degrees: Degrees,
                 queue: seq<TaskId>, order: seq<Task>)
    requires LoopAgrees(tasks, taskMap, degrees, queue, order) && queue != [] && queue[0] in taskMap
    requires DistinctIds(tasks) && EdgesAgree(tasks, dependents) && taskMap.Keys == Ids(tasks)
    requires forall x :: x in taskMap ==> taskMap[x] in tasks && taskMap[x].id == x
    ensures queue[0] !in Ids(order)
    ensures var id, done := queue[0], Ids(order) + {queue[0]};
            && DegreesAgree(tasks, degrees, done, Get(dependents, id)) && QueueAgrees(queue[1..], degrees, done)
            && InOrder(order + [taskMap[id]]) && Greedy(tasks, order + [taskMap[id]])
  {
    hide DegreesAgree, QueueAgrees, EdgesAgree, Sorted, InOrder, Greedy;
    EmitQueue(queue, degrees, Ids(order));
    EmitDegrees(tasks, degrees, Ids(order), queue[0], dependents);
    HeadIsBest(tasks, taskMap, degrees, Ids(order), queue);
    EmitOrder(tasks, order, taskMap[queue[0]]);
  }

  /** An order that lists every task is a permutation of the tasks. */
  lemma OrderIsPermutation(tasks: seq<Task>, order: seq<Task>)
    requires |order| == |tasks| && DistinctIds(order) && forall t :: t in order ==> t in tasks
    ensures DistinctIds(tasks) && Ids(order) == Ids(tasks) && multiset(order) == multiset(tasks)
  {
    DistinctIdsCount(order);
    DistinctIdsCount(tasks);
    assert Ids(order) <= Ids(tasks);
    SubsetOfSameSize(Ids(order), Ids(tasks));
    assert NoDuplicates(order) && NoDuplicates(tasks);
    NoDuplicatesCounts(order);
    NoDuplicatesCounts(tasks);
    forall t
      ensures multiset(order)[t] == multiset(tasks)[t]
    {
      if t in tasks {
        assert t.id in Ids(order);
        var s :| s in order && s.id == t.id;
        SameTask(tasks, s, t);
        assert t in multiset(order) && t in multiset(tasks);
      } else {
        assert t !in order;
      }
    }
  }

  lemma SubsetOfSameSize<T>(a: set<T>, b: set<T>)
    requires a <= b && |a| >= |b|
    ensures a == b
  {
    assert b == a + (b - a);
    assert |b| == |a| + |b - a|;
  }

  /** With distinct ids and an empty queue, the tasks that were not emitted are the blocked ones. */
  lemma UnvisitedAreBlocked(tasks: seq<Task>, taskMap: TaskMap, degrees: Degrees, order: seq<Task>)
    requires DistinctIds(tasks) && DistinctIds(order) && forall t :: t in order ==> t in tasks
    requires LoopAgrees(tasks, taskMap, degrees, [], order)
    ensures forall id :: id in Ids(tasks) ==> (id in Ids(order) <==> !Blocked(tasks, id))
  {
    forall t | t in tasks && t.id !in Ids(order)
      ensures exists d :: d in t.dependsOn && d !in Ids(order)
    {
      EmptyQueueIsStuck(tasks, degrees, Ids(order), t);
    }
    forall id | id in Ids(tasks)
      ensures id in Ids(order) <==> !Blocked(tasks, id)
    {
      if id in Ids(order) {
        OrderedIsNotBlocked(tasks, order, id);
      } else {
        StuckIsBlocked(tasks, Ids(order), [id]);
      }
    }
  }

  lemma OrderedAreListed(tasks: seq<Task>, order: seq<Task>)
    requires forall t :: t in order ==> t in tasks
    ensures Ids(order) <= Ids(tasks)
  {
  }

  /** The check for cycles at the end. */
  method Conclude(tasks: seq<Task>, order: seq<Task>, ghost taskMap: TaskMap, ghost degrees: Degrees)
    returns (r: SortResult)
    requires DistinctIds(order) && forall t :: t in order ==> t in tasks
    requires DistinctIds(tasks) ==> LoopAgrees(tasks, taskMap, degrees, [], order)
    ensures r.Ordered? <==> Sortable(tasks)
    ensures r.Ordered? ==> r.order == order && DistinctIds(tasks) && multiset(order) == multiset(tasks)
    ensures r.Stuck? && DistinctIds(tasks) ==>
              forall id :: id in r.unvisited <==> id in Ids(tasks) && Blocked(tasks, id)
  {
    hide Blocked, LoopAgrees, Sortable, DistinctIds;
    if DistinctIds(tasks) {
      UnvisitedAreBlocked(tasks, taskMap, degrees, order);
      SortableMeansUnblocked(tasks);
    } else {
      DuplicatesAreUnsortable(tasks);
    }
    if |order| != |tasks| {
      var unvisited: seq<TaskId> := [];
      for i := 0 to |tasks|
        invariant forall id :: id in unvisited <==> id in Ids(tasks[..i]) && id !in Ids(order)
      {
        assert tasks[..i + 1] == tasks[..i] + [tasks[i]];
        IdsAppend(tasks[..i], tasks[i]);
        if tasks[i].id !in Ids(order) {
          unvisited := unvisited + [tasks[i].id];
        }
      }
      assert tasks[..|tasks|] == tasks;
      DistinctIdsCount(order);
      DistinctIdsCount(tasks);
      if forall id :: id in Ids(tasks) ==> id in Ids(order) {
        OrderedAreListed(tasks, order);
        assert Ids(tasks) == Ids(order);
      }
      return Stuck(unvisited);
    }
    OrderIsPermutation(tasks, order);
    return Ordered(order);
  }

  lemma DuplicatesAreUnsortable(tasks: seq<Task>)
    requires !DistinctIds(tasks)
    ensures !Sortable(tasks)
  {
  }

  /** The state of the main loop. Which ids were visited is known from the order; what LoopAgrees says holds if
      task ids are distinct. */
  ghost predicate LoopState(tasks: seq<Task>, taskMap: TaskMap, degrees: Degrees, queue: seq<TaskId>,
                            order: seq<Task>, visited: set<TaskId>)
  {
    && degrees.Keys == Ids(tasks) && (forall x :: x in queue ==> x in degrees)
    && visited == Ids(order) <= Ids(tasks) && DistinctIds(order)
    && (forall t :: t in order ==> t in tasks)
    && (DistinctIds(tasks) ==> LoopAgrees(tasks, taskMap, degrees, queue, order))
  }

  /** The loop's body for a queue whose head was not visited yet. */
  method EmitHead(tasks: seq<Task>, taskMap: TaskMap, dependents: map<TaskId, seq<TaskId>>, degrees0: Degrees,
                  queue0: seq<TaskId>, order0: seq<Task>, visited0: set<TaskId>)
    returns (degrees: Degrees, queue: seq<TaskId>, order: seq<Task>, visited: set<TaskId>)
    requires LoopState(tasks, taskMap, degrees0, queue0, order0, visited0)
    requires queue0 != [] && queue0[0] !in visited0
    requires taskMap.Keys == Ids(tasks) && forall x :: x in taskMap ==> taskMap[x] in tasks && taskMap[x].id == x
    requires EdgesListed(Ids(tasks), dependents) && (DistinctIds(tasks) ==> EdgesAgree(tasks, dependents))
    ensures LoopState(tasks, taskMap, degrees, queue, order, visited)
    ensures |Ids(tasks) - visited| < |Ids(tasks) - visited0|
  {
    hide LoopAgrees, DegreesAgree, QueueAgrees, Sorted, InOrder, Greedy, EdgesAgree, EdgesListed, Ids, DistinctIds;
    var id, rest := queue0[0], queue0[1..];
    assert id in queue0 && forall x :: x in rest ==> x in queue0;
    ghost var distinct := DistinctIds(tasks);
    if distinct {
      LoopEmit(tasks, taskMap, dependents, degrees0, queue0, order0);
    }
    visited, order := visited0 + {id}, order0 + [taskMap[id]];
    assert Ids(tasks) - visited0 == (Ids(tasks) - visited) + {id};
    IdsAppend(order0, taskMap[id]);
    DistinctIdsAppend(order0, taskMap[id]);
    GetListed(tasks, dependents, id);
    degrees, queue := ReduceDegrees(tasks, Get(dependents, id), degrees0, rest, visited);
    ghost var unsorted := queue;
    queue := SortQueue(queue, taskMap);
    SortKeepsMembers(unsorted, queue);
    if distinct {
      SortedQueueAgrees(unsorted, queue, degrees, visited);
      LoopClose(tasks, taskMap, degrees, queue, order);
    }
  }

  /** What the loop starts from. */
  method StartLoop(tasks: seq<Task>, taskMap: TaskMap) returns (degrees: Degrees, queue: seq<TaskId>)
    ensures LoopState(tasks, taskMap, degrees, queue, [], {})
  {
    hide LoopAgrees, DegreesAgree, QueueAgrees, Sorted;
    degrees, queue := StartQueue(tasks);
    ghost var unsorted := queue;
    queue := SortQueue(queue, taskMap);
    SortKeepsMembers(unsorted, queue);
    if DistinctIds(tasks) {
      SortedQueueAgrees(unsorted, queue, degrees, {});
      LoopStart(tasks, taskMap, degrees, queue);
    }
  }

  lemma VisitedOnce(tasks: seq<Task>, taskMap: TaskMap, dependents: map<TaskId, seq<TaskId>>, degrees: Degrees,
                    queue: seq<TaskId>, order: seq<Task>, visited: set<TaskId>)
    requires LoopState(tasks, taskMap, degrees, queue, order, visited) && queue != [] && queue[0] in visited
    requires taskMap.Keys == Ids(tasks) && forall x :: x in taskMap ==> taskMap[x] in tasks && taskMap[x].id == x
    requires DistinctIds(tasks) ==> EdgesAgree(tasks, dependents)
    ensures LoopState(tasks, taskMap, degrees, queue[1..], order, visited)
  {
    hide LoopAgrees, EdgesAgree;
    if DistinctIds(tasks) {
      LoopEmit(tasks, taskMap, dependents, degrees, queue, order);
    }
  }

  /** Orders the tasks, or names the tasks that were not reached. */
  method TopologicalSort(tasks: seq<Task>) returns (r: SortResult)
    ensures r.Ordered? <==> Sortable(tasks)
    ensures r.Ordered? ==> multiset(r.order) == multiset(tasks) && InOrder(r.order) && Greedy(tasks, r.order)
    ensures r.Stuck? && DistinctIds(tasks) ==>
              forall id :: id in r.unvisited <==> id in Ids(tasks) && Blocked(tasks, id)
  {
    hide LoopState, LoopAgrees, InOrder, Greedy, EdgesAgree, EdgesListed, Ids, DistinctIds, Sortable, Blocked;
    var taskMap := BuildTaskMap(tasks);
    var dependents := BuildDependents(tasks);
    var degrees, queue := StartLoop(tasks, taskMap);
    var order: seq<Task> := [];
    var visited: set<TaskId> := {};
    while queue != []
      invariant LoopState(tasks, taskMap, degrees, queue, order, visited)
      decreases |Ids(tasks) - visited|, |queue|
    {
      if queue[0] in visited {
        VisitedOnce(tasks, taskMap, dependents, degrees, queue, order, visited);
        queue := queue[1..];
        continue;
      }
      degrees, queue, order, visited := EmitHead(tasks, taskMap, dependents, degrees, queue, order, visited);
    }
    LoopStateEnd(tasks, taskMap, degrees, order, visited);
    r := Conclude(tasks, order, taskMap, degrees);
  }

  lemma LoopStateEnd(tasks: seq<Task>, taskMap: TaskMap, degrees: Degrees, order: seq<Task>, visited: set<TaskId>)
    requires LoopState(tasks, taskMap, degrees, [], order, visited)
    ensures DistinctIds(order) && forall t :: t in order ==> t in tasks
    ensures DistinctIds(tasks) ==> LoopAgrees(tasks, taskMap, degrees, [], order)
    ensures DistinctIds(tasks) ==> InOrder(order) && Greedy(tasks, order)
  {
  }

  lemma GetListed(tasks: seq<Task>, dependents: map<TaskId, seq<TaskId>>, d: TaskId)
    requires EdgesListed(Ids(tasks), dependents)
    ensures forall x :: x in Get(dependents, d) ==> x in Ids(tasks)
  {
  }
}
