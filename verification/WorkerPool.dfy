/** The scheduler's worker pool: goroutines that take due jobs from an unbuffered channel and report through a
    buffered one, as a state machine over their interleaved steps. Jobs are named by their positions. */
module WorkerPool {
  import opened Counting

  datatype Worker =
    | Waiting                // receiving from the job channel
    | Running(job: nat)      // inside the job's function
    | Reporting(job: nat)    // sending the update
    | Exited

  datatype Phase =
    | Sending                // the dispatcher hands out jobs
    | Joining                // the job channel is closed; waiting for the workers
    | Collecting             // the update channel is closed; draining it
    | Done

  datatype Pool = Pool(
    due: nat,                // number of due jobs, also the capacity of the update channel
    sent: nat,               // the jobs before this position were handed out
    workers: seq<Worker>,
    buffer: seq<nat>,        // the update channel
    collected: seq<nat>,     // the updates read from it
    phase: Phase,
    runs: seq<nat>           // the jobs that were started, in the order of their starts
  )

  datatype Step =
    | HandOver(worker: nat)
    | Finish(worker: nat)
    | Report(worker: nat)
    | CloseJobs
    | Exit(worker: nat)
    | CloseUpdates
    | Collect
    | Return

  /** The pool for `due` jobs as `check` sets it up. */
  function Start(due: nat, maxConcurrent: int): (p: Pool)
    ensures |p.workers| <= due
  {
    var wanted := if maxConcurrent <= 0 then 1 else maxConcurrent;
    var workers := if wanted > due then due else wanted;
    Pool(due, 0, seq(workers, _ => Waiting), [], [], Sending, [])
  }

  /** The steps that some goroutine can take. A send blocks until its channel has room, a receive from the job
      channel until the dispatcher sends or has closed it. */
  predicate Enabled(p: Pool, step: Step) {
    match step
    case HandOver(w) => p.phase == Sending && p.sent < p.due && w < |p.workers| && p.workers[w] == Waiting
    case Finish(w) => w < |p.workers| && p.workers[w].Running?
    case Report(w) => w < |p.workers| && p.workers[w].Reporting? && |p.buffer| < p.due
    case CloseJobs => p.phase == Sending && p.sent == p.due
    case Exit(w) => w < |p.workers| && p.workers[w] == Waiting && p.phase != Sending
    case CloseUpdates => p.phase == Joining && AllExited(p.workers)
    case Collect => p.phase == Collecting && p.buffer != []
    case Return => p.phase == Collecting && p.buffer == []
  }

  predicate AllExited(workers: seq<Worker>) {
    forall w :: 0 <= w < |workers| ==> workers[w] == Exited
  }

  function Next(p: Pool, step: Step): Pool
    requires Enabled(p, step)
  {
    match step
    case HandOver(w) =>
      p.(workers := p.workers[w := Running(p.sent)], sent := p.sent + 1, runs := p.runs + [p.sent])
    case Finish(w) => p.(workers := p.workers[w := Reporting(p.workers[w].job)])
    case Report(w) => p.(workers := p.workers[w := Waiting], buffer := p.buffer + [p.workers[w].job])
    case CloseJobs => p.(phase := Joining)
    case Exit(w) => p.(workers := p.workers[w := Exited])
    case CloseUpdates => p.(phase := Collecting)
    case Collect => p.(buffer := p.buffer[1..], collected := p.collected + [p.buffer[0]])
    case Return => p.(phase := Done)
  }

  predicate Holds(worker: Worker, j: nat) {
    (worker.Running? || worker.Reporting?) && worker.job == j
  }

  /** How many workers hold job j. */
  function Holders(workers: seq<Worker>, j: nat): nat {
    if workers == [] then 0 else (if Holds(workers[0], j) then 1 else 0) + Holders(workers[1..], j)
  }

  function Busy(worker: Worker): nat {
    if worker.Running? || worker.Reporting? then 1 else 0
  }

  function BusyCount(workers: seq<Worker>): nat {
    if workers == [] then 0 else Busy(workers[0]) + BusyCount(workers[1..])
  }

  /** Steps that a worker can still take, counting those of the update it is about to send. */
  function Effort(worker: Worker): nat {
    match worker
    case Waiting => 1
    case Running(_) => 4
    case Reporting(_) => 3
    case Exited => 0
  }

  function EffortSum(workers: seq<Worker>): nat {
    if workers == [] then 0 else Effort(workers[0]) + EffortSum(workers[1..])
  }

  function PhaseSteps(phase: Phase): nat {
    match phase
    case Sending => 3
    case Joining => 2
    case Collecting => 1
    case Done => 0
  }

  /** The number of steps still to come. */
  function Measure(p: Pool): nat {
    (if p.sent <= p.due then 4 * (p.due - p.sent) else 0) + EffortSum(p.workers) + |p.buffer| + PhaseSteps(p.phase)
  }

  lemma {:induction false} HoldersUpdate(workers: seq<Worker>, w: nat, worker: Worker, j: nat)
    requires w < |workers|
    ensures Holders(workers[w := worker], j)
            == Holders(workers, j) + (if Holds(worker, j) then 1 else 0) - (if Holds(workers[w], j) then 1 else 0)
  {
    if w == 0 {
      assert workers[w := worker][1..] == workers[1..];
    } else {
      assert workers[w := worker][1..] == workers[1..][w - 1 := worker];
      HoldersUpdate(workers[1..], w - 1, worker, j);
    }
  }

  lemma {:induction false} SumsUpdate(workers: seq<Worker>, w: nat, worker: Worker)
    requires w < |workers|
    ensures BusyCount(workers[w := worker]) == BusyCount(workers) + Busy(worker) - Busy(workers[w])
    ensures EffortSum(workers[w := worker]) == EffortSum(workers) + Effort(worker) - Effort(workers[w])
  {
    if w == 0 {
      assert workers[w := worker][1..] == workers[1..];
    } else {
      assert workers[w := worker][1..] == workers[1..][w - 1 := worker];
      SumsUpdate(workers[1..], w - 1, worker);
    }
  }

  /** A job that was handed out was started once and is at exactly one place: with one worker, in the update
      channel, or collected. A job that was not handed out is nowhere. */
  ghost predicate Placed(p: Pool, j: nat) {
    && Count(p.runs, j) == (if j < p.sent then 1 else 0)
    && Holders(p.workers, j) + Count(p.buffer, j) + Count(p.collected, j) == (if j < p.sent then 1 else 0)
  }

  /** What every step keeps. */
  ghost predicate Inv(p: Pool) {
    && p.sent <= p.due && (p.due > 0 ==> p.workers != [])
    && (forall j: nat :: Placed(p, j))
    && BusyCount(p.workers) + |p.buffer| + |p.collected| == p.sent
    && (p.phase != Sending ==> p.sent == p.due)
    && (p.phase == Sending ==> forall w :: 0 <= w < |p.workers| ==> p.workers[w] != Exited)
    && (p.phase in {Collecting, Done} ==> AllExited(p.workers))
    && (p.phase == Done ==> p.buffer == [])
    && (p.phase !in {Collecting, Done} ==> p.collected == [])
  }

  lemma StartInv(due: nat, maxConcurrent: int)
    ensures Inv(Start(due, maxConcurrent))
    ensures |Start(due, maxConcurrent).workers| == if 1 <= maxConcurrent <= due then maxConcurrent
                                                   else if maxConcurrent <= 0 && due > 0 then 1
                                                   else due
    ensures Measure(Start(due, maxConcurrent)) == 4 * due + |Start(due, maxConcurrent).workers| + 3
  {
    var p := Start(due, maxConcurrent);
    IdleSums(p.workers);
    forall j: nat
      ensures Placed(p, j)
    {
      NoHolders(p.workers, j);
    }
  }

  lemma {:induction false} IdleSums(workers: seq<Worker>)
    requires forall w :: 0 <= w < |workers| ==> workers[w] == Waiting
    ensures BusyCount(workers) == 0 && EffortSum(workers) == |workers|
  {
    if workers != [] {
      IdleSums(workers[1..]);
    }
  }

  lemma {:induction false} NoHolders(workers: seq<Worker>, j: nat)
    requires forall w :: 0 <= w < |workers| ==> workers[w] in {Waiting, Exited}
    ensures Holders(workers, j) == 0
  {
    if workers != [] {
      NoHolders(workers[1..], j);
    }
  }

  lemma {:induction false} AllExitedSums(workers: seq<Worker>)
    requires AllExited(workers)
    ensures BusyCount(workers) == 0
  {
    if workers != [] {
      AllExitedSums(workers[1..]);
    }
  }

  lemma StepPlaced(p: Pool, step: Step, j: nat)
    requires Enabled(p, step) && Placed(p, j) && Placed(p, p.sent)
    ensures Placed(Next(p, step), j)
  {
    var q := Next(p, step);
    match step
    case HandOver(w) =>
      HoldersUpdate(p.workers, w, q.workers[w], j);
      CountAppend(p.runs, [p.sent], j);
    case Finish(w) =>
      HoldersUpdate(p.workers, w, q.workers[w], j);
    case Report(w) =>
      HoldersUpdate(p.workers, w, q.workers[w], j);
      CountAppend(p.buffer, [p.workers[w].job], j);
    case Exit(w) =>
      HoldersUpdate(p.workers, w, q.workers[w], j);
    case Collect =>
      CountAppend(p.collected, [p.buffer[0]], j);
    case _ =>
  }

  /** Every step keeps the invariant and brings the end exactly one step nearer. */
  lemma StepInv(p: Pool, step: Step)
    requires Inv(p) && Enabled(p, step)
    ensures Inv(Next(p, step)) && Measure(Next(p, step)) == Measure(p) - 1
    ensures |Next(p, step).workers| == |p.workers| && Next(p, step).due == p.due
  {
    hide Placed, Holders, Count, BusyCount, EffortSum;
    var q := Next(p, step);
    forall j: nat
      ensures Placed(q, j)
    {
      assert Placed(p, j) && Placed(p, p.sent);
      StepPlaced(p, step, j);
    }
    if step.HandOver? || step.Finish? || step.Report? || step.Exit? {
      SumsUpdate(p.workers, step.worker, q.workers[step.worker]);
    }
  }

  /** Unless it is done, the pool can take a step: no interleaving deadlocks. */
  lemma NoDeadlock(p: Pool) returns (step: Step)
    requires Inv(p) && p.phase != Done
    ensures Enabled(p, step)
  {
    if w: nat :| w < |p.workers| && p.workers[w].Running? {
      step := Finish(w);
    } else if w: nat :| w < |p.workers| && p.workers[w].Reporting? {
      ReporterIsBusy(p.workers, w);
      step := Report(w);
    } else if p.phase == Sending {
      step := if p.sent < p.due then HandOver(0) else CloseJobs;
    } else if p.phase == Joining {
      if w: nat :| w < |p.workers| && p.workers[w] == Waiting {
        step := Exit(w);
      } else {
        step := CloseUpdates;
      }
    } else {
      step := if p.buffer == [] then Return else Collect;
    }
  }

  lemma {:induction false} ReporterIsBusy(workers: seq<Worker>, w: nat)
    requires w < |workers| && workers[w].Reporting?
    ensures BusyCount(workers) >= 1
  {
    if w > 0 {
      ReporterIsBusy(workers[1..], w - 1);
    }
  }

  /** At the end each due job was run exactly once and has exactly one update. */
  lemma AtTheEnd(p: Pool)
    requires Inv(p) && p.phase == Done
    ensures |p.collected| == p.due
    ensures forall j: nat :: Count(p.runs, j) == Count(p.collected, j) == if j < p.due then 1 else 0
  {
    AllExitedSums(p.workers);
    forall j: nat
      ensures Count(p.runs, j) == Count(p.collected, j) == if j < p.due then 1 else 0
    {
      assert Placed(p, j);
      NoHolders(p.workers, j);
    }
  }

  /** The steps are possible one after the other. */
  predicate Possible(p: Pool, steps: seq<Step>)
    decreases steps
  {
    steps != [] ==> Enabled(p, steps[0]) && Possible(Next(p, steps[0]), steps[1..])
  }

  function After(p: Pool, steps: seq<Step>): Pool
    requires Possible(p, steps)
    decreases steps
  {
    if steps == [] then p else After(Next(p, steps[0]), steps[1..])
  }

  lemma {:induction false} StepsInv(p: Pool, steps: seq<Step>)
    requires Inv(p) && Possible(p, steps)
    ensures var q := After(p, steps);
            Inv(q) && q.due == p.due && |q.workers| == |p.workers| && |steps| + Measure(q) == Measure(p)
    decreases steps
  {
    hide Inv, Next, Enabled, Measure;
    if steps != [] {
      StepInv(p, steps[0]);
      StepsInv(Next(p, steps[0]), steps[1..]);
    }
  }

  lemma {:induction false} BusyAtMost(workers: seq<Worker>)
    ensures BusyCount(workers) <= |workers|
  {
    if workers != [] {
      BusyAtMost(workers[1..]);
    }
  }

  /** After any steps at all: no more jobs are busy than the limit allows, every job is at one place, and the
      number of steps taken and to come is fixed in advance. */
  lemma EveryInterleaving(due: nat, maxConcurrent: int, steps: seq<Step>)
    requires Possible(Start(due, maxConcurrent), steps)
    ensures var p := After(Start(due, maxConcurrent), steps);
            var limit := if maxConcurrent <= 0 then 1 else maxConcurrent;
            && BusyCount(p.workers) <= limit && BusyCount(p.workers) <= due
            && (forall j: nat :: Placed(p, j))
            && |steps| + Measure(p) == 4 * due + (if due < limit then due else limit) + 3
            && (p.phase == Done <==> Measure(p) == 0)
            && (p.phase != Done ==> exists step :: Enabled(p, step))
  {
    hide Placed;
    var start := Start(due, maxConcurrent);
    StartInv(due, maxConcurrent);
    StepsInv(start, steps);
    var p := After(start, steps);
    BusyAtMost(p.workers);
    if p.phase != Done {
      var step := NoDeadlock(p);
      StepInv(p, step);
    } else {
      DoneMeasure(p);
    }
  }

  /** Runs the pool in an arbitrary interleaving. */
  method RunPool(due: nat, maxConcurrent: int) returns (updates: seq<nat>, ghost runs: seq<nat>, ghost steps: nat)
    ensures |updates| == due
    ensures forall j: nat :: Count(runs, j) == Count(updates, j) == if j < due then 1 else 0
    ensures steps == 4 * due + |Start(due, maxConcurrent).workers| + 3
  {
    hide Inv, Enabled, Next, Measure, Start;
    var p := Start(due, maxConcurrent);
    StartInv(due, maxConcurrent);
    assert p.due == due by {
      StartDue(due, maxConcurrent);
    }
    steps := 0;
    while p.phase != Done
      invariant Inv(p) && p.due == due && steps + Measure(p) == Measure(Start(due, maxConcurrent))
      decreases Measure(p)
    {
      ghost var possible := NoDeadlock(p);
      assert Enabled(p, possible);
      var step: Step :| Enabled(p, step);
      StepInv(p, step);
      p := Next(p, step);
      steps := steps + 1;
    }
    DoneMeasure(p);
    AtTheEnd(p);
    return p.collected, p.runs, steps;
  }

  lemma StartDue(due: nat, maxConcurrent: int)
    ensures Start(due, maxConcurrent).due == due
  {
  }

  lemma DoneMeasure(p: Pool)
    requires Inv(p) && p.phase == Done
    ensures Measure(p) == 0
  {
    ExitedEffort(p.workers);
  }

  lemma {:induction false} ExitedEffort(workers: seq<Worker>)
    requires AllExited(workers)
    ensures EffortSum(workers) == 0
  {
    if workers != [] {
      ExitedEffort(workers[1..]);
    }
  }
}
