/** Delegated tasks and the dependency graph they form. */
module TaskGraph {
  datatype TaskId = TaskId(name: string)

  datatype Task = Task(
    id: TaskId,
    dependsOn: seq<TaskId>,
    priority: int,
    message: string,
    role: string,      // assigned role, "" before routing
    confidence: real   // confidence of the routing
  )

  function Ids(tasks: seq<Task>): set<TaskId> {
    set t | t in tasks :: t.id
  }

  predicate DistinctIds(tasks: seq<Task>) {
    forall i, j :: 0 <= i < j < |tasks| ==> tasks[i].id != tasks[j].id
  }

  /** Every dependency names a listed task. */
  predicate Closed(tasks: seq<Task>) {
    forall t :: t in tasks ==> forall d :: d in t.dependsOn ==> d in Ids(tasks)
  }

  /** The task called `a` depends on `d`. */
  predicate Edge(tasks: seq<Task>, a: TaskId, d: TaskId) {
    exists t :: t in tasks && t.id == a && d in t.dependsOn
  }

  ghost predicate Walk(tasks: seq<Task>, path: seq<TaskId>) {
    path != [] && forall i :: 0 <= i < |path| - 1 ==> Edge(tasks, path[i], path[i + 1])
  }

  ghost predicate Cycle(tasks: seq<Task>, path: seq<TaskId>) {
    Walk(tasks, path) && |path| >= 2 && path[0] == path[|path| - 1]
  }

  ghost predicate Acyclic(tasks: seq<Task>) {
    forall path :: !Cycle(tasks, path)
  }

  ghost predicate Sortable(tasks: seq<Task>) {
    DistinctIds(tasks) && Closed(tasks) && Acyclic(tasks)
  }

  /** A walk that leads to an unlisted task or comes back to a task it has visited. */
  ghost predicate DeadEnd(tasks: seq<Task>, path: seq<TaskId>) {
    && Walk(tasks, path) && |path| >= 2
    && (path[|path| - 1] !in Ids(tasks) || path[|path| - 1] in path[..|path| - 1])
  }

  /** The task can never become ready. */
  ghost predicate Blocked(tasks: seq<Task>, id: TaskId) {
    exists path :: DeadEnd(tasks, path) && path[0] == id
  }

  /** Every task comes after its dependencies. */
  ghost predicate InOrder(order: seq<Task>) {
    forall k :: 0 <= k < |order| ==> forall d :: d in order[k].dependsOn ==> d in Ids(order[..k])
  }

  ghost predicate IsReady(t: Task, done: set<TaskId>) {
    t.id !in done && forall d :: d in t.dependsOn ==> d in done
  }

  /** Each emitted task has the least priority among the tasks that are ready at that point. */
  ghost predicate Greedy(tasks: seq<Task>, order: seq<Task>) {
    forall k, t :: 0 <= k < |order| && t in tasks && IsReady(t, Ids(order[..k])) ==> order[k].priority <= t.priority
  }

  lemma SameTask(tasks: seq<Task>, a: Task, b: Task)
    requires DistinctIds(tasks) && a in tasks && b in tasks && a.id == b.id
    ensures a == b
  {
  }

  lemma IdsAppend(tasks: seq<Task>, t: Task)
    ensures Ids(tasks + [t]) == Ids(tasks) + {t.id}
  {
    assert forall x :: x in tasks + [t] <==> x in tasks || x == t;
  }

  lemma DistinctIdsAppend(tasks: seq<Task>, t: Task)
    requires DistinctIds(tasks) && t.id !in Ids(tasks)
    ensures DistinctIds(tasks + [t])
  {
    forall i | 0 <= i < |tasks|
      ensures tasks[i].id != t.id
    {
      assert tasks[i] in tasks;
    }
  }

  lemma {:induction false} DistinctIdsCount(tasks: seq<Task>)
    ensures |Ids(tasks)| <= |tasks|
    ensures |Ids(tasks)| == |tasks| <==> DistinctIds(tasks)
  {
    if tasks == [] {
      assert Ids(tasks) == {};
    } else {
      var init, t := tasks[..|tasks| - 1], tasks[|tasks| - 1];
      DistinctIdsCount(init);
      assert tasks == init + [t];
      IdsAppend(init, t);
    }
  }

  /** More steps than tasks: some task is visited twice. */
  lemma {:induction false} DistinctPathFits(path: seq<TaskId>, ids: set<TaskId>)
    requires forall x :: x in path ==> x in ids
    requires forall i, j :: 0 <= i < j < |path| ==> path[i] != path[j]
    ensures |path| <= |ids|
  {
    if path != [] {
      var init, x := path[..|path| - 1], path[|path| - 1];
      assert x in path;
      forall y | y in init
        ensures y in ids - {x}
      {
        assert y in path;
      }
      DistinctPathFits(init, ids - {x});
    }
  }

  /** When every task outside `done` has a dependency outside `done`, every such task is blocked: the walk
      that follows those dependencies meets an unlisted task or itself. */
  lemma {:induction false} StuckIsBlocked(tasks: seq<Task>, done: set<TaskId>, path: seq<TaskId>)
    requires forall t :: t in tasks && t.id !in done ==> exists d :: d in t.dependsOn && d !in done
    requires Walk(tasks, path)
    requires forall x :: x in path ==> x in Ids(tasks) && x !in done
    requires forall i, j :: 0 <= i < j < |path| ==> path[i] != path[j]
    ensures Blocked(tasks, path[0])
    decreases |Ids(tasks)| - |path|
  {
    DistinctPathFits(path, Ids(tasks));
    var last := path[|path| - 1];
    assert last in path;
    var t :| t in tasks && t.id == last;
    var d :| d in t.dependsOn && d !in done;
    var longer := path + [d];
    assert Edge(tasks, last, d);
    assert Walk(tasks, longer);
    if d !in Ids(tasks) || d in path {
      assert longer[..|longer| - 1] == path;
      assert DeadEnd(tasks, longer);
    } else {
      StuckIsBlocked(tasks, done, longer);
    }
  }

  /** Following dependencies from a task in an ordered list goes strictly to the front. */
  lemma {:induction false} WalkDescends(tasks: seq<Task>, order: seq<Task>, path: seq<TaskId>, n: nat)
    requires DistinctIds(tasks) && DistinctIds(order) && InOrder(order) && forall t :: t in order ==> t in tasks
    requires Walk(tasks, path) && n <= |order| && path[0] in Ids(order[..n])
    ensures forall i :: 0 < i < |path| ==> path[i] in Ids(order[..n]) && path[i] != path[0]
    decreases n
  {
    var k :| 0 <= k < n && order[k].id == path[0];
    if |path| > 1 {
      assert Edge(tasks, path[0], path[1]);
      var t :| t in tasks && t.id == path[0] && path[1] in t.dependsOn;
      assert order[k] in order;
      SameTask(tasks, t, order[k]);
      var rest := path[1..];
      assert Walk(tasks, rest) by {
        forall i | 0 <= i < |rest| - 1
          ensures Edge(tasks, rest[i], rest[i + 1])
        {
          assert Edge(tasks, path[i + 1], path[i + 2]);
        }
      }
      WalkDescends(tasks, order, rest, k);
      forall i | 0 < i < |path|
        ensures path[i] in Ids(order[..n]) && path[i] != path[0]
      {
        assert path[i] == rest[i - 1];
        assert path[i] in Ids(order[..k]);
        assert order[..k] <= order[..n];
      }
    }
  }

  /** A task of an ordered list is not blocked. */
  lemma OrderedIsNotBlocked(tasks: seq<Task>, order: seq<Task>, id: TaskId)
    requires DistinctIds(tasks) && DistinctIds(order) && InOrder(order) && forall t :: t in order ==> t in tasks
    requires id in Ids(order)
    ensures !Blocked(tasks, id)
  {
    if Blocked(tasks, id) {
      var path :| DeadEnd(tasks, path) && path[0] == id;
      var n := |path| - 1;
      assert order[..|order|] == order;
      WalkDescends(tasks, order, path, |order|);
      assert path[n] in Ids(tasks);
      var i :| 0 <= i < n && path[i] == path[n];
      var rest := path[i..];
      forall k | 0 <= k < |rest| - 1
        ensures Edge(tasks, rest[k], rest[k + 1])
      {
        assert Edge(tasks, path[i + k], path[i + k + 1]);
      }
      WalkDescends(tasks, order, rest, |order|);
    }
  }

  lemma CycleIsBlocked(tasks: seq<Task>, path: seq<TaskId>)
    requires Cycle(tasks, path)
    ensures path[0] in Ids(tasks) && Blocked(tasks, path[0])
  {
    assert Edge(tasks, path[0], path[1]);
    assert path[..|path| - 1][0] == path[0];
    assert DeadEnd(tasks, path);
  }

  lemma UnlistedIsBlocked(tasks: seq<Task>, t: Task, d: TaskId)
    requires t in tasks && d in t.dependsOn && d !in Ids(tasks)
    ensures t.id in Ids(tasks) && Blocked(tasks, t.id)
  {
    assert Edge(tasks, t.id, d);
    assert DeadEnd(tasks, [t.id, d]);
  }

  lemma BlockedIsUnsortable(tasks: seq<Task>, id: TaskId)
    requires Blocked(tasks, id)
    ensures !Closed(tasks) || !Acyclic(tasks)
  {
    var path :| DeadEnd(tasks, path) && path[0] == id;
    var n := |path| - 1;
    assert Edge(tasks, path[n - 1], path[n]);
    if path[n] in Ids(tasks) {
      var i :| 0 <= i < n && path[i] == path[n];
      var rest := path[i..];
      forall k | 0 <= k < |rest| - 1
        ensures Edge(tasks, rest[k], rest[k + 1])
      {
        assert Edge(tasks, path[i + k], path[i + k + 1]);
      }
      assert Cycle(tasks, rest);
    }
  }

  /** A list of distinct tasks can be sorted exactly when none of its tasks is blocked. */
  lemma SortableMeansUnblocked(tasks: seq<Task>)
    requires DistinctIds(tasks)
    ensures Sortable(tasks) <==> forall id :: id in Ids(tasks) ==> !Blocked(tasks, id)
  {
    forall id | Blocked(tasks, id)
      ensures !Closed(tasks) || !Acyclic(tasks)
    {
      BlockedIsUnsortable(tasks, id);
    }
    forall t, d | t in tasks && d in t.dependsOn && d !in Ids(tasks)
      ensures t.id in Ids(tasks) && Blocked(tasks, t.id)
    {
      UnlistedIsBlocked(tasks, t, d);
    }
    forall path | Cycle(tasks, path)
      ensures path[0] in Ids(tasks) && Blocked(tasks, path[0])
    {
      CycleIsBlocked(tasks, path);
    }
  }
}
