/** The job store and the executor that checks it. */
module Scheduler {
  import opened Counting
  import opened Schedules
  import opened WorkerPool

  datatype JobUpdate = JobUpdate(jobId: string, runAt: Instant, disable: bool)

  datatype DueJob = DueJob(job: Job, disableAfterRun: bool)

  type Jobs = map<string, Job>

  ghost predicate KeyedById(jobs: Jobs) {
    forall id :: id in jobs ==> jobs[id].id == id
  }

  /** One update of a batch. Updates of removed jobs are dropped. */
  function ApplyUpdate(clock: Clock, jobs: Jobs, u: JobUpdate): Jobs {
    if u.jobId in jobs then jobs[u.jobId := Stamped(clock, jobs[u.jobId], u.runAt, u.disable)] else jobs
  }

  function ApplyUpdates(clock: Clock, jobs: Jobs, updates: seq<JobUpdate>): Jobs {
    if updates == [] then jobs
    else ApplyUpdate(clock, ApplyUpdates(clock, jobs, updates[..|updates| - 1]), updates[|updates| - 1])
  }

  /** A batch in which only `u` is about the job `id`, if any: the job is stamped by it exactly if u is in the
      batch, wherever in the batch it is and however often. */
  lemma {:induction false} BatchAt(clock: Clock, jobs: Jobs, updates: seq<JobUpdate>, id: string, u: JobUpdate)
    requires u.jobId == id && id in jobs && forall v :: v in updates && v.jobId == id ==> v == u
    ensures ApplyUpdates(clock, jobs, updates).Keys == jobs.Keys
    ensures ApplyUpdates(clock, jobs, updates)[id]
            == if u in updates then Stamped(clock, jobs[id], u.runAt, u.disable) else jobs[id]
  {
    if updates != [] {
      var init, last := updates[..|updates| - 1], updates[|updates| - 1];
      assert last in updates && forall v :: v in init ==> v in updates;
      BatchAt(clock, jobs, init, id, u);
      assert u in updates <==> u in init || u == last;
    }
  }

  predicate InRange(positions: seq<nat>, n: nat) {
    forall k :: 0 <= k < |positions| ==> positions[k] < n
  }

  /** The ids at the positions, in order. */
  function IdsAt(due: seq<DueJob>, positions: seq<nat>): (ids: seq<string>)
    requires InRange(positions, |due|)
    ensures |ids| == |positions|
  {
    if positions == [] then []
    else
      [due[positions[0]].job.id] + IdsAt(due, positions[1..])
  }

  ghost predicate DistinctIds(due: seq<DueJob>) {
    forall i, j :: 0 <= i < j < |due| ==> due[i].job.id != due[j].job.id
  }

  lemma {:induction false} CountAt(due: seq<DueJob>, positions: seq<nat>, j: nat)
    requires DistinctIds(due) && j < |due| && InRange(positions, |due|)
    ensures Count(IdsAt(due, positions), due[j].job.id) == Count(positions, j)
  {
    if positions != [] {
      CountAt(due, positions[1..], j);
    }
  }

  lemma {:induction false} NeverAt(due: seq<DueJob>, positions: seq<nat>, id: string)
    requires InRange(positions, |due|)
    requires forall k :: 0 <= k < |due| ==> due[k].job.id != id
    ensures Count(IdsAt(due, positions), id) == 0
  {
    if positions != [] {
      NeverAt(due, positions[1..], id);
    }
  }

  /** The jobs that a check hands to the pool: exactly those of `jobs` that are to run. */
  ghost predicate Selected(clock: Clock, jobs: Jobs, due: seq<DueJob>, now: Instant, skipMissed: bool) {
    && DistinctIds(due)
    && (forall k :: 0 <= k < |due| ==> SelectedJob(clock, jobs, due[k], now, skipMissed))
    && forall id :: id in jobs && Runs(clock, jobs[id], now, skipMissed) ==> IsSelected(due, id)
  }

  ghost predicate SelectedJob(clock: Clock, jobs: Jobs, d: DueJob, now: Instant, skipMissed: bool) {
    && d.job.id in jobs && jobs[d.job.id] == d.job && Runs(clock, d.job, now, skipMissed)
    && d.disableAfterRun == Disables(clock, d.job, now)
  }

  ghost predicate IsSelected(due: seq<DueJob>, id: string) {
    exists k :: 0 <= k < |due| && due[k].job.id == id
  }

  lemma NoUpdates(clock: Clock, jobs: Jobs)
    ensures ApplyUpdates(clock, jobs, []) == jobs
  {
  }

  lemma {:induction false} NoKeysAdded(clock: Clock, jobs: Jobs, updates: seq<JobUpdate>)
    ensures ApplyUpdates(clock, jobs, updates).Keys == jobs.Keys
  {
    if updates != [] {
      NoKeysAdded(clock, jobs, updates[..|updates| - 1]);
    }
  }

  /** The order of strings. */
  predicate AtMost(a: string, b: string) {
    a == [] || (b != [] && (a[0] < b[0] || (a[0] == b[0] && AtMost(a[1..], b[1..]))))
  }

  lemma {:induction false} AtMostTotal(a: string, b: string)
    ensures AtMost(a, b) || AtMost(b, a)
  {
    if a != [] && b != [] {
      AtMostTotal(a[1..], b[1..]);
    }
  }

  lemma {:induction false} AtMostTransitive(a: string, b: string, c: string)
    requires AtMost(a, b) && AtMost(b, c)
    ensures AtMost(a, c)
  {
    if a != [] && a[0] == b[0] == c[0] {
      AtMostTransitive(a[1..], b[1..], c[1..]);
    }
  }

  ghost predicate SortedById(list: seq<Job>) {
    forall i, j :: 0 <= i < j < |list| ==> AtMost(list[i].id, list[j].id)
  }

  lemma NothingSorted()
    ensures SortedById([])
  {
  }

  /** A sorted list with one more job. */
  method Insert(list: seq<Job>, job: Job) returns (more: seq<Job>, ghost k: nat)
    requires SortedById(list)
    ensures k <= |list| && more == list[..k] + [job] + list[k..] && SortedById(more)
  {
    var i := 0;
    while i < |list| && AtMost(list[i].id, job.id)
      invariant 0 <= i <= |list| && forall j :: 0 <= j < i ==> AtMost(list[j].id, job.id)
    {
      i := i + 1;
    }
    if i < |list| {
      AtMostTotal(list[i].id, job.id);
    }
    forall j | i <= j < |list|
      ensures AtMost(job.id, list[j].id)
    {
      if j > i {
        AtMostTransitive(job.id, list[i].id, list[j].id);
      }
    }
    more, k := list[..i] + [job] + list[i..], i;
  }

  /** The list holds each job once, except those that are left. */
  ghost predicate ListsAllBut(list: seq<Job>, jobs: Jobs, rest: set<string>) {
    && (forall k :: 0 <= k < |list| ==>
          list[k].id in jobs && list[k].id !in rest && jobs[list[k].id] == list[k])
    && (forall i, j :: 0 <= i < j < |list| ==> list[i].id != list[j].id)
    && forall id :: id in jobs && id !in rest ==> IsListed(list, |list|, id)
  }

  /** Position of an element of a list after an insertion at k. */
  function Moved(i: nat, k: nat): nat {
    if i < k then i else i + 1
  }

  lemma InsertedListed(list: seq<Job>, job: Job, more: seq<Job>, k: nat, id: string)
    requires k <= |list| && more == list[..k] + [job] + list[k..]
    requires IsListed(list, |list|, id) || id == job.id
    ensures IsListed(more, |more|, id)
  {
    if id == job.id {
      assert more[k] == job;
    } else {
      var i :| 0 <= i < |list| && list[i].id == id;
      assert more[Moved(i, k)] == list[i];
    }
  }

  lemma InsertedDistinct(list: seq<Job>, job: Job, more: seq<Job>, k: nat)
    requires k <= |list| && more == list[..k] + [job] + list[k..]
    requires forall i, j :: 0 <= i < j < |list| ==> list[i].id != list[j].id
    requires forall i :: 0 <= i < |list| ==> list[i].id != job.id
    ensures forall i, j :: 0 <= i < j < |more| ==> more[i].id != more[j].id
  {
  }

  lemma InsertedLists(list: seq<Job>, jobs: Jobs, rest: set<string>, id: string, more: seq<Job>, k: nat)
    requires KeyedById(jobs) && ListsAllBut(list, jobs, rest) && id in rest && id in jobs
    requires k <= |list| && more == list[..k] + [jobs[id]] + list[k..]
    ensures ListsAllBut(more, jobs, rest - {id})
  {
    hide IsListed;
    InsertedDistinct(list, jobs[id], more, k);
    forall x | x in jobs && x !in rest - {id}
      ensures IsListed(more, |more|, x)
    {
      assert x != id ==> IsListed(list, |list|, x);
      InsertedListed(list, jobs[id], more, k, x);
    }
  }

  class Store {
    const clock: Clock
    var jobs: Jobs
    var paused: bool
    ghost var runs: map<string, seq<Instant>>  // the runs of each job since it was added

    /** The jobs are keyed by their ids, and the runs of each of them form a good history. */
    ghost predicate Valid()
      reads this
    {
      && KeyedById(jobs) && jobs.Keys == runs.Keys
      && forall id :: id in jobs ==> GoodHistory(clock, jobs[id], runs[id])
    }

    constructor (clock: Clock)
      ensures Valid() && jobs == map[] && runs == map[] && !paused && this.clock == clock
    {
      this.clock := clock;
      jobs, runs, paused := map[], map[], false;
    }

    method Add(job: Job, now: Instant) returns (ok: bool)
      requires Valid()
      modifies this
      ensures Valid() && paused == old(paused)
      ensures ok <==> job.id != "" && NormalizeSchedule(job.schedule) != ""
                      && NextDue(clock, job.(schedule := NormalizeSchedule(job.schedule)), now) != Invalid
      ensures ok ==> jobs == old(jobs)[job.id := job.(schedule := NormalizeSchedule(job.schedule))]
                     && runs == old(runs)[job.id := []]
      ensures !ok ==> jobs == old(jobs) && runs == old(runs)
    {
      if job.id == "" {
        return false;
      }
      var added := job.(schedule := NormalizeSchedule(job.schedule));
      if added.schedule == "" {
        return false;
      }
      var due := NextDue(clock, added, now);
      if due == Invalid {
        return false;
      }
      jobs := jobs[added.id := added];
      runs := runs[added.id := []];
      return true;
    }

    /** All jobs in the order of their ids. */
    method List() returns (list: seq<Job>)
      requires Valid()
      ensures Lists(list, jobs) && SortedById(list)
    {
      hide GoodHistory, SortedById;
      list := [];
      NothingSorted();
      var rest := jobs.Keys;
      while rest != {}
        invariant rest <= jobs.Keys && SortedById(list) && ListsAllBut(list, jobs, rest)
        decreases rest
      {
        var id :| id in rest;
        var more, k := Insert(list, jobs[id]);
        InsertedLists(list, jobs, rest, id, more, k);
        list := more;
        rest := rest - {id};
      }
    }

    method Remove(id: string) returns (found: bool)
      requires Valid()
      modifies this
      ensures Valid() && (found <==> id in old(jobs)) && jobs == old(jobs) - {id} && paused == old(paused)
      ensures runs == old(runs) - {id}
    {
      found := id in jobs;
      if found {
        jobs := jobs - {id};
        runs := runs - {id};
      }
    }

    method SetPaused(paused: bool)
      requires Valid()
      modifies this`paused
      ensures this.paused == paused && Valid()
    {
      this.paused := paused;
    }

    /** Also a one-shot job that ran can be enabled again. */
    method SetJobEnabled(id: string, enabled: bool) returns (found: bool)
      requires Valid()
      modifies this`jobs
      ensures Valid() && (found <==> id in old(jobs))
      ensures jobs == if found then old(jobs)[id := old(jobs)[id].(enabled := enabled)] else old(jobs)
    {
      found := id in jobs;
      if found {
        jobs := jobs[id := jobs[id].(enabled := enabled)];
      }
    }

    method UpdateAfterRun(job: Job, runAt: Instant, disable: bool) returns (found: bool)
      modifies this`jobs
      ensures found <==> job.id in old(jobs)
      ensures jobs == ApplyUpdate(clock, old(jobs), JobUpdate(job.id, runAt, disable))
    {
      if job.id !in jobs {
        return false;
      }
      jobs := jobs[job.id := Stamped(clock, jobs[job.id], runAt, disable)];
      return true;
    }

    method BatchUpdateAfterRun(updates: seq<JobUpdate>)
      modifies this`jobs
      ensures jobs == ApplyUpdates(clock, old(jobs), updates)
    {
      for i := 0 to |updates|
        invariant jobs == ApplyUpdates(clock, old(jobs), updates[..i])
      {
        var u := updates[i];
        assert updates[..i + 1][..i] == updates[..i];
        if u.jobId !in jobs {
          continue;
        }
        jobs := jobs[u.jobId := Stamped(clock, jobs[u.jobId], u.runAt, u.disable)];
      }
      assert updates[..|updates|] == updates;
    }
  }

  /** What a job is after the jobs that are skipped were stamped. */
  function AfterSkips(clock: Clock, job: Job, now: Instant, skipMissed: bool): Job {
    if IsDue(clock, job, now) && !Runs(clock, job, now, skipMissed) then AfterCheck(clock, job, now) else job
  }

  class Executor {
    const store: Store
    const maxConcurrent: int
    const catchUp: bool
    var firstCheck: bool

    constructor (store: Store, maxConcurrent: int, catchUp: bool)
      ensures this.store == store && this.catchUp == catchUp && firstCheck
      ensures this.maxConcurrent == if maxConcurrent <= 0 then 1 else maxConcurrent
    {
      this.store := store;
      this.maxConcurrent := if maxConcurrent <= 0 then 1 else maxConcurrent;
      this.catchUp := catchUp;
      firstCheck := true;
    }

    /** One listed job: a missed run that is not caught up is stamped, any other due job is collected. */
    method Consider(job: Job, now: Instant, skipMissed: bool, due: seq<DueJob>) returns (more: seq<DueJob>)
      requires job.id in store.jobs && store.jobs[job.id] == job
      modifies store`jobs
      ensures store.jobs == old(store.jobs)[job.id := AfterSkips(store.clock, job, now, skipMissed)]
      ensures more == WithDue(store.clock, due, job, now, skipMissed)
    {
      hide IsMissedRun;
      more := due;
      if !job.enabled {
        return;
      }
      var next := NextDue(store.clock, job, now);
      if next == Invalid || !next.due {
        return;
      }
      if skipMissed && IsMissedRun(store.clock, job, now) {
        var _ := store.UpdateAfterRun(job, now, next.disable);
        return;
      }
      more := due + [DueJob(job, next.disable)];
    }

    /** Goes through the listed jobs. */
    method SelectDue(list: seq<Job>, now: Instant, skipMissed: bool) returns (due: seq<DueJob>)
      requires Lists(list, store.jobs)
      modifies store`jobs
      ensures Selected(store.clock, old(store.jobs), due, now, skipMissed)
      ensures store.jobs.Keys == old(store.jobs).Keys
      ensures forall id :: id in store.jobs ==>
                store.jobs[id] == AfterSkips(store.clock, old(store.jobs)[id], now, skipMissed)
    {
      hide Runs, AfterSkips, Selecting, Lists, Selected;
      due := [];
      StartSelecting(store.clock, list, store.jobs, now, skipMissed);
      for i := 0 to |list|
        invariant Selecting(store.clock, list, i, old(store.jobs), store.jobs, due, now, skipMissed)
      {
        SelectStep(store.clock, list, i, old(store.jobs), store.jobs, due, now, skipMissed);
        due := Consider(list[i], now, skipMissed, due);
      }
      AllSelected(store.clock, list, old(store.jobs), store.jobs, due, now, skipMissed);
    }

    /** Runs the selected jobs in the pool and stores the updates. */
    method RunDue(due: seq<DueJob>, now: Instant, ghost before: Jobs, ghost skipMissed: bool)
      requires Selected(store.clock, before, due, now, skipMissed)
      requires before.Keys == store.jobs.Keys == store.runs.Keys
      requires forall id :: id in before ==>
                 store.jobs[id] == AfterSkips(store.clock, before[id], now, skipMissed)
      modifies store`jobs, store`runs
      ensures Checked(store.clock, before, old(store.runs), store.jobs, store.runs, now, skipMissed)
    {
      hide Selected, AfterSkips, Start, RunsAfter, UpdatesAt, ApplyUpdates, Count, Checked;
      var positions, started, _ := RunPool(|due|, maxConcurrent);
      assert EachOnce(positions, |due|) && EachOnce(started, |due|);
      OnceInRange(positions, |due|);
      OnceInRange(started, |due|);
      DueRun(store.clock, before, store.jobs, store.runs, due, positions, started, now, skipMissed);
      store.runs := RunsAfter(store.runs, due, started, now);
      var updates := UpdatesAt(due, positions, now);
      if |updates| > 0 {
        store.BatchUpdateAfterRun(updates);
      } else {
        NoUpdates(store.clock, store.jobs);
        assert updates == [];
      }
    }

    /** One tick of the scheduler. */
    method Check(now: Instant)
      requires store.Valid() && StampsWholeSeconds(store.clock)
      modifies this`firstCheck, store`jobs, store`runs
      ensures store.Valid()
      ensures store.paused ==> store.jobs == old(store.jobs) && store.runs == old(store.runs)
      ensures firstCheck == (old(firstCheck) && store.paused)
      ensures !store.paused ==>
                Checked(store.clock, old(store.jobs), old(store.runs), store.jobs, store.runs, now,
                        old(firstCheck) && !catchUp)
      ensures !store.paused ==>
                AllServed(store.clock, old(store.jobs), old(store.runs), store.jobs, store.runs, now,
                          old(firstCheck) && !catchUp)
    {
      hide GoodHistory, StampsWholeSeconds, Runs, AfterCheck, AfterSkips, Selected, AllServed;
      if store.paused {
        return;
      }
      var skipMissed := firstCheck && !catchUp;
      firstCheck := false;
      var list := store.List();
      var due := SelectDue(list, now, skipMissed);
      if due == [] {
        NoneSelected(store.clock, old(store.jobs), now, skipMissed);
      } else {
        RunDue(due, now, old(store.jobs), skipMissed);
      }
      CheckedKeepsHistories(store.clock, old(store.jobs), old(store.runs), store.jobs, store.runs, now, skipMissed);
      CheckedServesAll(store.clock, old(store.jobs), old(store.runs), store.jobs, store.runs, now, skipMissed);
    }
  }

  /** The updates that the workers send, in the order of the positions. */
  function UpdatesAt(due: seq<DueJob>, positions: seq<nat>, now: Instant): (r: seq<JobUpdate>)
    requires InRange(positions, |due|)
    ensures |r| == |positions|
  {
    seq(|positions|, k requires 0 <= k < |positions| =>
      JobUpdate(due[positions[k]].job.id, now, due[positions[k]].disableAfterRun))
  }

  /** Every position below n occurs exactly once, and no other. */
  ghost predicate EachOnce(positions: seq<nat>, n: nat) {
    forall j: nat :: Count(positions, j) == if j < n then 1 else 0
  }

  lemma OnceInRange(positions: seq<nat>, n: nat)
    requires EachOnce(positions, n)
    ensures InRange(positions, n)
  {
    forall k | 0 <= k < |positions|
      ensures positions[k] < n
    {
      CountIn(positions, positions[k]);
    }
  }

  /** The update of a job that ran is in the batch, and it is the only one for this job. */
  lemma UpdateOf(due: seq<DueJob>, positions: seq<nat>, now: Instant, k: nat)
    requires DistinctIds(due) && EachOnce(positions, |due|) && InRange(positions, |due|) && k < |due|
    ensures var updates := UpdatesAt(due, positions, now);
            var u := JobUpdate(due[k].job.id, now, due[k].disableAfterRun);
            u in updates && forall v :: v in updates && v.jobId == u.jobId ==> v == u
  {
    hide Count;
    var updates := UpdatesAt(due, positions, now);
    assert Count(positions, k) == 1;
    CountIn(positions, k);
    var m :| 0 <= m < |positions| && positions[m] == k;
    assert updates[m] == JobUpdate(due[k].job.id, now, due[k].disableAfterRun);
  }

  /** After the batch each job is as one check should leave it. */
  lemma BatchResult(clock: Clock, before: Jobs, skipped: Jobs, due: seq<DueJob>, positions: seq<nat>,
                    now: Instant, skipMissed: bool, id: string)
    requires EachOnce(positions, |due|) && InRange(positions, |due|)
    requires Selected(clock, before, due, now, skipMissed)
    requires id in before && id in skipped && skipped[id] == AfterSkips(clock, before[id], now, skipMissed)
    ensures var after := ApplyUpdates(clock, skipped, UpdatesAt(due, positions, now));
            after.Keys == skipped.Keys && after[id] == AfterCheck(clock, before[id], now)
  {
    hide EachOnce, ApplyUpdates, NextDue, IsMissedRun, DistinctIds;
    var updates := UpdatesAt(due, positions, now);
    if Runs(clock, before[id], now, skipMissed) {
      assert IsSelected(due, id);
      var k :| 0 <= k < |due| && due[k].job.id == id;
      assert SelectedJob(clock, before, due[k], now, skipMissed);
      UpdateOf(due, positions, now, k);
      BatchAt(clock, skipped, updates, id, JobUpdate(id, now, due[k].disableAfterRun));
    } else {
      forall v | v in updates
        ensures v.jobId != id
      {
        var k :| 0 <= k < |updates| && updates[k] == v;
        assert SelectedJob(clock, before, due[positions[k]], now, skipMissed);
      }
      BatchAt(clock, skipped, updates, id, JobUpdate(id, now, false));
    }
  }

  /** Each selected job was started once, the others never. */
  lemma StartedOnce(clock: Clock, before: Jobs, due: seq<DueJob>, started: seq<nat>,
                    now: Instant, skipMissed: bool, id: string)
    requires EachOnce(started, |due|) && InRange(started, |due|)
    requires Selected(clock, before, due, now, skipMissed) && id in before
    ensures Count(IdsAt(due, started), id) == if Runs(clock, before[id], now, skipMissed) then 1 else 0
  {
    hide Runs, Count, IdsAt;
    if Runs(clock, before[id], now, skipMissed) {
      assert IsSelected(due, id);
      var k: nat :| 0 <= k < |due| && due[k].job.id == id;
      CountAt(due, started, k);
    } else {
      forall k | 0 <= k < |due|
        ensures due[k].job.id != id
      {
        assert SelectedJob(clock, before, due[k], now, skipMissed);
      }
      NeverAt(due, started, id);
    }
  }

  /** What one check does to the store. */
  ghost predicate Checked(clock: Clock, before: Jobs, runsBefore: map<string, seq<Instant>>, jobs: Jobs,
                          runs: map<string, seq<Instant>>, now: Instant, skipMissed: bool) {
    && before.Keys == runsBefore.Keys == jobs.Keys == runs.Keys
    && forall id :: id in jobs ==>
         && jobs[id] == AfterCheck(clock, before[id], now)
         && runs[id] == if Runs(clock, before[id], now, skipMissed) then runsBefore[id] + [now] else runsBefore[id]
  }

  /** The runs after the jobs at these positions were started. */
  ghost function RunsAfter(runs: map<string, seq<Instant>>, due: seq<DueJob>, started: seq<nat>, now: Instant)
    : map<string, seq<Instant>>
    requires InRange(started, |due|)
  {
    map id | id in runs :: runs[id] + Copies(now, Count(IdsAt(due, started), id))
  }

  /** Whatever the order in which the pool starts and reports the jobs, the check does the same. */
  lemma DueRun(clock: Clock, before: Jobs, skipped: Jobs, runsBefore: map<string, seq<Instant>>, due: seq<DueJob>,
               positions: seq<nat>, started: seq<nat>, now: Instant, skipMissed: bool)
    requires EachOnce(positions, |due|) && InRange(positions, |due|)
    requires EachOnce(started, |due|) && InRange(started, |due|)
    requires Selected(clock, before, due, now, skipMissed)
    requires before.Keys == skipped.Keys == runsBefore.Keys
    requires forall id :: id in before ==> skipped[id] == AfterSkips(clock, before[id], now, skipMissed)
    ensures Checked(clock, before, runsBefore, ApplyUpdates(clock, skipped, UpdatesAt(due, positions, now)),
                    RunsAfter(runsBefore, due, started, now), now, skipMissed)
  {
    hide Selected, AfterSkips, Runs, AfterCheck, IdsAt, Count, UpdatesAt, ApplyUpdates, EachOnce;
    var after := ApplyUpdates(clock, skipped, UpdatesAt(due, positions, now));
    var runs := RunsAfter(runsBefore, due, started, now);
    NoKeysAdded(clock, skipped, UpdatesAt(due, positions, now));
    forall id | id in before
      ensures after[id] == AfterCheck(clock, before[id], now)
      ensures runs[id] == if Runs(clock, before[id], now, skipMissed) then runsBefore[id] + [now] else runsBefore[id]
    {
      BatchResult(clock, before, skipped, due, positions, now, skipMissed, id);
      StartedOnce(clock, before, due, started, now, skipMissed, id);
      assert Copies(now, 1) == [now] && Copies(now, 0) == [];
    }
  }

  /** Every job is served as its schedule and its last run ask for. */
  ghost predicate AllServed(clock: Clock, before: Jobs, runsBefore: map<string, seq<Instant>>, jobs: Jobs,
                            runs: map<string, seq<Instant>>, now: Instant, skipMissed: bool) {
    && before.Keys == runsBefore.Keys == jobs.Keys == runs.Keys
    && forall id :: id in jobs ==>
         Served(clock, before[id], runsBefore[id], jobs[id], runs[id], now, skipMissed)
  }

  lemma CheckedServesAll(clock: Clock, before: Jobs, runsBefore: map<string, seq<Instant>>, jobs: Jobs,
                         runs: map<string, seq<Instant>>, now: Instant, skipMissed: bool)
    requires StampsWholeSeconds(clock) && Checked(clock, before, runsBefore, jobs, runs, now, skipMissed)
    ensures AllServed(clock, before, runsBefore, jobs, runs, now, skipMissed)
  {
    hide Served, StampsWholeSeconds, Runs, AfterCheck;
    forall id | id in jobs
      ensures Served(clock, before[id], runsBefore[id], jobs[id], runs[id], now, skipMissed)
    {
      CheckServes(clock, before[id], runsBefore[id], now, skipMissed);
    }
  }

  lemma CheckedKeepsHistories(clock: Clock, before: Jobs, runsBefore: map<string, seq<Instant>>, jobs: Jobs,
                              runs: map<string, seq<Instant>>, now: Instant, skipMissed: bool)
    requires StampsWholeSeconds(clock) && Checked(clock, before, runsBefore, jobs, runs, now, skipMissed)
    requires KeyedById(before) && forall id :: id in before ==> GoodHistory(clock, before[id], runsBefore[id])
    ensures KeyedById(jobs) && forall id :: id in jobs ==> GoodHistory(clock, jobs[id], runs[id])
  {
    hide GoodHistory, StampsWholeSeconds, Runs, IsDue, NextDue;
    forall id | id in jobs
      ensures jobs[id].id == id && GoodHistory(clock, jobs[id], runs[id])
    {
      CheckKeepsHistory(clock, before[id], runsBefore[id], now, skipMissed);
    }
  }

  lemma NoneSelected(clock: Clock, jobs: Jobs, now: Instant, skipMissed: bool)
    requires Selected(clock, jobs, [], now, skipMissed)
    ensures forall id :: id in jobs ==> !Runs(clock, jobs[id], now, skipMissed)
    ensures forall id :: id in jobs ==>
              AfterSkips(clock, jobs[id], now, skipMissed) == AfterCheck(clock, jobs[id], now)
  {
    hide IsDue, IsMissedRun, NextDue;
    forall id | id in jobs
      ensures !Runs(clock, jobs[id], now, skipMissed)
    {
      assert !IsSelected([], id);
    }
  }

  /** The list holds each job once. */
  ghost predicate Lists(list: seq<Job>, jobs: Jobs) {
    && KeyedById(jobs) && (forall k :: 0 <= k < |list| ==> list[k].id in jobs && jobs[list[k].id] == list[k])
    && (forall i, j :: 0 <= i < j < |list| ==> list[i].id != list[j].id)
    && forall id :: id in jobs ==> IsListed(list, |list|, id)
  }

  /** The job is one of the first n listed. */
  ghost predicate IsListed(list: seq<Job>, n: nat, id: string) {
    exists k :: 0 <= k < n && k < |list| && list[k].id == id
  }

  /** What SelectDue makes of a listed job. */
  ghost predicate Treated(clock: Clock, jobs: Jobs, due: seq<DueJob>, job: Job, now: Instant, skipMissed: bool) {
    && job.id in jobs && jobs[job.id] == AfterSkips(clock, job, now, skipMissed)
    && (Runs(clock, job, now, skipMissed) ==> IsSelected(due, job.id))
  }

  /** The state of SelectDue after the first n listed jobs. */
  ghost predicate Selecting(clock: Clock, list: seq<Job>, n: nat, before: Jobs, jobs: Jobs, due: seq<DueJob>,
                            now: Instant, skipMissed: bool) {
    && Lists(list, before) && n <= |list| && jobs.Keys == before.Keys && DistinctIds(due)
    && (forall k :: 0 <= k < |due| ==> SelectedJob(clock, before, due[k], now, skipMissed))
    && (forall k :: 0 <= k < |due| ==> IsListed(list, n, due[k].job.id))
    && (forall k :: 0 <= k < n ==> Treated(clock, jobs, due, list[k], now, skipMissed))
    && (forall k :: n <= k < |list| ==> list[k].id in jobs && jobs[list[k].id] == list[k])
  }

  lemma StartSelecting(clock: Clock, list: seq<Job>, jobs: Jobs, now: Instant, skipMissed: bool)
    requires Lists(list, jobs)
    ensures Selecting(clock, list, 0, jobs, jobs, [], now, skipMissed)
  {
  }

  /** The jobs collected after one more listed job. */
  function WithDue(clock: Clock, due: seq<DueJob>, job: Job, now: Instant, skipMissed: bool): seq<DueJob> {
    if Runs(clock, job, now, skipMissed) then due + [DueJob(job, Disables(clock, job, now))] else due
  }

  lemma CollectStep(clock: Clock, list: seq<Job>, n: nat, before: Jobs, jobs: Jobs, due: seq<DueJob>,
                    now: Instant, skipMissed: bool)
    requires Selecting(clock, list, n, before, jobs, due, now, skipMissed) && n < |list|
    ensures var more := WithDue(clock, due, list[n], now, skipMissed);
            && DistinctIds(more)
            && (forall k :: 0 <= k < |more| ==> SelectedJob(clock, before, more[k], now, skipMissed))
            && (forall k :: 0 <= k < |more| ==> IsListed(list, n + 1, more[k].job.id))
  {
    hide Runs, AfterSkips, Disables, Treated;
    forall k | 0 <= k < |due|
      ensures due[k].job.id != list[n].id && IsListed(list, n + 1, due[k].job.id)
    {
      assert IsListed(list, n, due[k].job.id);
    }
    assert IsListed(list, n + 1, list[n].id);
  }

  lemma TreatStep(clock: Clock, list: seq<Job>, n: nat, before: Jobs, jobs: Jobs, due: seq<DueJob>,
                  now: Instant, skipMissed: bool)
    requires Selecting(clock, list, n, before, jobs, due, now, skipMissed) && n < |list|
    ensures var more := WithDue(clock, due, list[n], now, skipMissed);
            var later := jobs[list[n].id := AfterSkips(clock, list[n], now, skipMissed)];
            forall k :: 0 <= k <= n ==> Treated(clock, later, more, list[k], now, skipMissed)
  {
    hide Runs, AfterSkips, Disables, SelectedJob, IsSelected, IsListed, DistinctIds;
    var job := list[n];
    var more := WithDue(clock, due, job, now, skipMissed);
    var later := jobs[job.id := AfterSkips(clock, job, now, skipMissed)];
    forall k | 0 <= k <= n
      ensures Treated(clock, later, more, list[k], now, skipMissed)
    {
      if k < n {
        assert Treated(clock, jobs, due, list[k], now, skipMissed);
        StillSelected(due, more, list[k].id);
      } else if Runs(clock, job, now, skipMissed) {
        LastSelected(due, more[|due|]);
      }
    }
  }

  lemma LastSelected(due: seq<DueJob>, d: DueJob)
    ensures IsSelected(due + [d], d.job.id)
  {
    assert (due + [d])[|due|].job.id == d.job.id;
  }

  lemma SelectStep(clock: Clock, list: seq<Job>, n: nat, before: Jobs, jobs: Jobs, due: seq<DueJob>,
                   now: Instant, skipMissed: bool)
    requires Selecting(clock, list, n, before, jobs, due, now, skipMissed) && n < |list|
    ensures var job := list[n];
            && job.id in jobs && jobs[job.id] == job
            && Selecting(clock, list, n + 1, before, jobs[job.id := AfterSkips(clock, job, now, skipMissed)],
                         WithDue(clock, due, job, now, skipMissed), now, skipMissed)
  {
    hide WithDue, AfterSkips, Treated, SelectedJob, IsListed, DistinctIds;
    CollectStep(clock, list, n, before, jobs, due, now, skipMissed);
    TreatStep(clock, list, n, before, jobs, due, now, skipMissed);
  }

  lemma StillSelected(due: seq<DueJob>, more: seq<DueJob>, id: string)
    requires due <= more
    ensures IsSelected(due, id) ==> IsSelected(more, id)
  {
    if IsSelected(due, id) {
      var k :| 0 <= k < |due| && due[k].job.id == id;
      assert more[k].job.id == id;
    }
  }

  lemma AllSelected(clock: Clock, list: seq<Job>, before: Jobs, jobs: Jobs, due: seq<DueJob>,
                    now: Instant, skipMissed: bool)
    requires Selecting(clock, list, |list|, before, jobs, due, now, skipMissed)
    ensures Selected(clock, before, due, now, skipMissed) && jobs.Keys == before.Keys
    ensures forall id :: id in jobs ==> jobs[id] == AfterSkips(clock, before[id], now, skipMissed)
  {
    hide Runs, AfterSkips;
    forall id | id in before
      ensures jobs[id] == AfterSkips(clock, before[id], now, skipMissed)
      ensures Runs(clock, before[id], now, skipMissed) ==> IsSelected(due, id)
    {
      assert IsListed(list, |list|, id);
      var k :| 0 <= k < |list| && list[k].id == id;
      assert Treated(clock, jobs, due, list[k], now, skipMissed);
    }
  }
}
