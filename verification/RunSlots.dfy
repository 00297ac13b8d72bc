/** The engine's run slots: a channel of tokens that can be replaced, and the runs that take and return them,
    as a state machine over their interleaved steps. */
module RunSlots {
  import opened Counting
  import opened Strings

  /** A buffered channel of tokens. */
  datatype Channel = Channel(cap: nat, tokens: nat)

  datatype Stage =
    | Entering(first: bool)                    // before the locked section
    | Sending(first: bool, channel: nat)       // after it, before the non-blocking send
    | Working
    | Leaving(rejected: Option<nat>)           // returning tokens, the latest first; the limit in the error
    | Gone

  /** One call of the engine, with the limits of the engine and of the instance. */
  datatype Run = Run(engineLimit: int, instanceLimit: int, held: seq<nat>, stage: Stage)

  /** `channels` are all channels ever made; the last one is installed. */
  datatype Slots = Slots(channels: seq<Channel>, runs: seq<Run>)

  datatype Step =
    | Arrive(engineLimit: int, instanceLimit: int)
    | Enter(run: nat)
    | TrySend(run: nat)
    | Finish(run: nat)
    | Release(run: nat)
    | Leave(run: nat)

  function Limit(limit: int): (r: nat)
    ensures r >= 1
  {
    if limit <= 0 then 1 else limit
  }

  function Installed(s: Slots): nat
    requires s.channels != []
  {
    |s.channels| - 1
  }

  /** The locked section: installs the first channel, or another one if the limit differs and no token of the
      installed channel is taken. */
  function Locked(channels: seq<Channel>, limit: int): (r: seq<Channel>)
    ensures r != [] && channels <= r
  {
    var wanted := Limit(limit);
    if channels == [] then [Channel(wanted, 0)]
    else
      var current := channels[|channels| - 1];
      if current.cap != wanted && current.tokens == 0 then channels + [Channel(wanted, 0)] else channels
  }

  function LimitOf(run: Run): int {
    if run.stage.Entering? && run.stage.first then run.engineLimit else run.instanceLimit
  }

  /** A send never blocks; a receive blocks on an empty channel. */
  predicate Enabled(s: Slots, step: Step) {
    match step
    case Arrive(_, _) => true
    case Enter(r) => r < |s.runs| && s.runs[r].stage.Entering?
    case TrySend(r) => r < |s.runs| && s.runs[r].stage.Sending? && s.runs[r].stage.channel < |s.channels|
    case Finish(r) => r < |s.runs| && s.runs[r].stage == Working
    case Release(r) => WantsRelease(s, r) && s.channels[LastHeld(s, r)].tokens > 0
    case Leave(r) => r < |s.runs| && s.runs[r].stage.Leaving? && s.runs[r].held == []
  }

  /** The run is about to return its latest token. */
  predicate WantsRelease(s: Slots, r: nat) {
    r < |s.runs| && s.runs[r].stage.Leaving? && s.runs[r].held != [] && LastHeld(s, r) < |s.channels|
  }

  function LastHeld(s: Slots, r: nat): nat
    requires r < |s.runs| && s.runs[r].held != []
  {
    s.runs[r].held[|s.runs[r].held| - 1]
  }

  function WithTokens(channels: seq<Channel>, c: nat, tokens: nat): seq<Channel>
    requires c < |channels|
  {
    channels[c := channels[c].(tokens := tokens)]
  }

  function Next(s: Slots, step: Step): Slots
    requires Enabled(s, step)
  {
    match step
    case Arrive(engineLimit, instanceLimit) =>
      s.(runs := s.runs + [Run(engineLimit, instanceLimit, [], Entering(true))])
    case Enter(r) =>
      var run := s.runs[r];
      var channels := Locked(s.channels, LimitOf(run));
      Slots(channels, s.runs[r := run.(stage := Sending(run.stage.first, |channels| - 1))])
    case TrySend(r) =>
      var run, c := s.runs[r], s.runs[r].stage.channel;
      if s.channels[c].tokens < s.channels[c].cap then
        var next := if run.stage.first && run.instanceLimit > 0 then Entering(false) else Working;
        Slots(WithTokens(s.channels, c, s.channels[c].tokens + 1),
              s.runs[r := run.(held := run.held + [c], stage := next)])
      else
        s.(runs := s.runs[r := run.(stage := Leaving(Some(s.channels[c].cap)))])
    case Finish(r) => s.(runs := s.runs[r := s.runs[r].(stage := Leaving(None))])
    case Release(r) =>
      var run, c := s.runs[r], LastHeld(s, r);
      Slots(WithTokens(s.channels, c, s.channels[c].tokens - 1),
            s.runs[r := run.(held := run.held[..|run.held| - 1])])
    case Leave(r) => s.(runs := s.runs[r := s.runs[r].(stage := Gone)])
  }

  /** The tokens of channel c that runs hold. */
  function HeldOf(runs: seq<Run>, c: nat): nat {
    if runs == [] then 0 else Count(runs[0].held, c) + HeldOf(runs[1..], c)
  }

  lemma {:induction false} HeldUpdate(runs: seq<Run>, r: nat, run: Run, c: nat)
    requires r < |runs|
    ensures HeldOf(runs[r := run], c) == HeldOf(runs, c) + Count(run.held, c) - Count(runs[r].held, c)
  {
    if r == 0 {
      assert runs[r := run][1..] == runs[1..];
    } else {
      assert runs[r := run][1..] == runs[1..][r - 1 := run];
      HeldUpdate(runs[1..], r - 1, run, c);
    }
  }

  lemma {:induction false} HeldAppend(runs: seq<Run>, run: Run, c: nat)
    ensures HeldOf(runs + [run], c) == HeldOf(runs, c) + Count(run.held, c)
  {
    if runs != [] {
      assert (runs + [run])[1..] == runs[1..] + [run];
      HeldAppend(runs[1..], run, c);
    } else {
      assert (runs + [run])[1..] == [];
    }
  }

  lemma {:induction false} HeldAtLeast(runs: seq<Run>, r: nat, c: nat)
    requires r < |runs|
    ensures HeldOf(runs, c) >= Count(runs[r].held, c)
  {
    if r > 0 {
      HeldAtLeast(runs[1..], r - 1, c);
    }
  }

  /** Channel c holds exactly the tokens that runs took from it and did not return, and at most its capacity. */
  ghost predicate Balanced(s: Slots, c: nat) {
    HeldOf(s.runs, c) == if c < |s.channels| then s.channels[c].tokens else 0
  }

  ghost predicate RunFits(s: Slots, run: Run) {
    && (run.stage.Sending? ==> run.stage.channel < |s.channels|)
    && (forall k :: 0 <= k < |run.held| ==> run.held[k] < |s.channels|)
    && match run.stage
       case Entering(first) => |run.held| == (if first then 0 else 1) && (!first ==> run.instanceLimit > 0)
       case Sending(first, _) => |run.held| == (if first then 0 else 1) && (!first ==> run.instanceLimit > 0)
       case Working => |run.held| == if run.instanceLimit > 0 then 2 else 1
       case Leaving(_) => |run.held| <= 2
       case Gone => run.held == []
  }

  /** What every step keeps. */
  ghost predicate Inv(s: Slots) {
    && (forall c: nat :: Balanced(s, c))
    && (forall c :: 0 <= c < |s.channels| ==> s.channels[c].tokens <= s.channels[c].cap)
    && (forall r :: 0 <= r < |s.runs| ==> RunFits(s, s.runs[r]))
  }

  lemma StepBalanced(s: Slots, step: Step, c: nat)
    requires Enabled(s, step) && Balanced(s, c)
    ensures Balanced(Next(s, step), c)
  {
    hide Count;
    var q := Next(s, step);
    match step
    case Arrive(_, _) =>
      HeldAppend(s.runs, q.runs[|s.runs|], c);
      assert Count<nat>([], c) == 0 by {
        CountIn<nat>([], c);
      }
    case Enter(r) => HeldUpdate(s.runs, r, q.runs[r], c);
    case TrySend(r) =>
      HeldUpdate(s.runs, r, q.runs[r], c);
      var run := s.runs[r];
      CountAppend(run.held, [run.stage.channel], c);
      CountOne(run.stage.channel, c);
    case Finish(r) => HeldUpdate(s.runs, r, q.runs[r], c);
    case Release(r) =>
      HeldUpdate(s.runs, r, q.runs[r], c);
      var held := s.runs[r].held;
      assert held == held[..|held| - 1] + [LastHeld(s, r)];
      CountAppend(held[..|held| - 1], [LastHeld(s, r)], c);
      CountOne(LastHeld(s, r), c);
    case Leave(r) => HeldUpdate(s.runs, r, q.runs[r], c);
  }

  lemma CountOne(x: nat, c: nat)
    ensures Count([x], c) == if x == c then 1 else 0
  {
  }

  /** Every step of every run keeps the balance of every channel. */
  lemma StepInv(s: Slots, step: Step)
    requires Inv(s) && Enabled(s, step)
    ensures Inv(Next(s, step))
  {
    hide Balanced, HeldOf;
    var q := Next(s, step);
    forall c: nat
      ensures Balanced(q, c)
    {
      assert Balanced(s, c);
      StepBalanced(s, step, c);
    }
    forall r | 0 <= r < |q.runs|
      ensures RunFits(q, q.runs[r])
    {
      if r < |s.runs| {
        assert RunFits(s, s.runs[r]);
      }
    }
  }

  /** A run that returns a token finds one in its channel: the deferred receive never blocks. */
  lemma ReleaseNeverBlocks(s: Slots, r: nat)
    requires Inv(s) && r < |s.runs| && s.runs[r].stage.Leaving? && s.runs[r].held != []
    ensures Enabled(s, Release(r))
  {
    HolderKeepsChannel(s, r, LastHeld(s, r));
  }

  /** The installed channel is replaced only by a run with another limit, while nobody holds one of its tokens. */
  lemma ReplacedOnlyWhenEmpty(s: Slots, step: Step)
    requires Inv(s) && Enabled(s, step) && s.channels != [] && |Next(s, step).channels| != |s.channels|
    ensures step.Enter? && Limit(LimitOf(s.runs[step.run])) != s.channels[Installed(s)].cap
    ensures forall r :: 0 <= r < |s.runs| ==> Installed(s) !in s.runs[r].held
  {
    var c := Installed(s);
    assert Balanced(s, c);
    forall r | 0 <= r < |s.runs|
      ensures c !in s.runs[r].held
    {
      HeldAtLeast(s.runs, r, c);
      CountIn(s.runs[r].held, c);
    }
  }

  /** When all runs are gone, every channel is empty. */
  lemma AllReturned(s: Slots)
    requires Inv(s) && forall r :: 0 <= r < |s.runs| ==> s.runs[r].stage == Gone
    ensures forall c :: 0 <= c < |s.channels| ==> s.channels[c].tokens == 0
  {
    forall c: nat | c < |s.channels|
      ensures s.channels[c].tokens == 0
    {
      assert Balanced(s, c);
      forall r | 0 <= r < |s.runs|
        ensures s.runs[r].held == []
      {
        assert RunFits(s, s.runs[r]);
      }
      NothingHeld(s.runs, c);
    }
  }

  lemma {:induction false} NothingHeld(runs: seq<Run>, c: nat)
    requires forall r :: 0 <= r < |runs| ==> runs[r].held == []
    ensures HeldOf(runs, c) == 0
  {
    if runs != [] {
      NothingHeld(runs[1..], c);
    }
  }

  /** The steps are possible one after the other. */
  predicate Possible(s: Slots, steps: seq<Step>)
    decreases steps
  {
    steps != [] ==> Enabled(s, steps[0]) && Possible(Next(s, steps[0]), steps[1..])
  }

  function After(s: Slots, steps: seq<Step>): Slots
    requires Possible(s, steps)
    decreases steps
  {
    if steps == [] then s else After(Next(s, steps[0]), steps[1..])
  }

  const START: Slots := Slots([], [])

  lemma {:induction false} StepsInv(s: Slots, steps: seq<Step>)
    requires Inv(s) && Possible(s, steps)
    ensures Inv(After(s, steps))
    decreases steps
  {
    hide Inv, Next, Enabled;
    if steps != [] {
      StepInv(s, steps[0]);
      StepsInv(Next(s, steps[0]), steps[1..]);
    }
  }

  lemma StartInv()
    ensures Inv(START)
  {
    forall c: nat
      ensures Balanced(START, c)
    {
      assert HeldOf([], c) == 0;
    }
  }

  /** Whatever calls arrive and however they interleave: each channel ever made holds exactly the tokens taken
      from it and not returned, never more than its capacity, and no return blocks. */
  lemma EveryInterleaving(steps: seq<Step>)
    requires Possible(START, steps)
    ensures var s := After(START, steps);
            && Inv(s)
            && forall r :: 0 <= r < |s.runs| && s.runs[r].stage.Leaving? && s.runs[r].held != [] ==>
                 Enabled(s, Release(r))
  {
    StartInv();
    StepsInv(START, steps);
    var s := After(START, steps);
    forall r: nat | r < |s.runs| && s.runs[r].stage.Leaving? && s.runs[r].held != []
      ensures Enabled(s, Release(r))
    {
      ReleaseNeverBlocks(s, r);
    }
  }

  function WorkingCount(runs: seq<Run>): nat {
    if runs == [] then 0 else (if runs[0].stage == Working then 1 else 0) + WorkingCount(runs[1..])
  }

  /** The limits of one call. */
  datatype Limits = Limits(engine: int, instance: int)

  ghost predicate UsesOnly(steps: seq<Step>, calls: set<Limits>) {
    forall k :: 0 <= k < |steps| ==> ArrivesFrom(steps[k], calls)
  }

  predicate ArrivesFrom(step: Step, calls: set<Limits>) {
    step.Arrive? ==> Limits(step.engineLimit, step.instanceLimit) in calls
  }

  ghost predicate SameEngineLimit(calls: set<Limits>) {
    forall a, b :: a in calls && b in calls ==> Limit(a.engine) == Limit(b.engine)
  }

  /** All calls have this engine limit, and there is at most the one channel that it asks for. */
  ghost predicate CommonLimit(s: Slots, limit: nat) {
    && (forall r :: 0 <= r < |s.runs| ==> Limit(s.runs[r].engineLimit) == limit)
    && (s.channels == [] || (|s.channels| == 1 && s.channels[0].cap == limit))
  }

  /** A run that comes for its instance slot holds a token of the only channel, so it does not replace it. */
  lemma CommonLimitStep(s: Slots, step: Step, limit: nat)
    requires Inv(s) && CommonLimit(s, limit) && Enabled(s, step)
    requires step.Arrive? ==> Limit(step.engineLimit) == limit
    ensures CommonLimit(Next(s, step), limit)
  {
    hide Balanced;
    if step.Enter? {
      var run := s.runs[step.run];
      assert RunFits(s, run);
      if !run.stage.first {
        assert run.held[0] < |s.channels| && run.held[0] == 0;
        HolderKeepsChannel(s, step.run, 0);
      }
    }
  }

  /** A channel of which a run holds a token is not empty. */
  lemma HolderKeepsChannel(s: Slots, r: nat, c: nat)
    requires Inv(s) && r < |s.runs| && c in s.runs[r].held
    ensures c < |s.channels| && 1 <= s.channels[c].tokens <= s.channels[c].cap
  {
    assert RunFits(s, s.runs[r]) && Balanced(s, c);
    CountIn(s.runs[r].held, c);
    HeldAtLeast(s.runs, r, c);
  }

  lemma {:induction false} WorkingHold(s: Slots, runs: seq<Run>)
    requires |s.channels| <= 1 && forall r :: 0 <= r < |runs| ==> RunFits(s, runs[r])
    ensures WorkingCount(runs) <= HeldOf(runs, 0)
  {
    if runs != [] {
      WorkingHold(s, runs[1..]);
      assert RunFits(s, runs[0]);
      if runs[0].stage == Working {
        assert runs[0].held[0] == 0;
        CountIn(runs[0].held, 0);
      }
    }
  }

  /** With one common engine limit no more runs than that work at a time. */
  lemma CommonLimitHolds(s: Slots, limit: nat)
    requires Inv(s) && CommonLimit(s, limit)
    ensures WorkingCount(s.runs) <= limit
  {
    WorkingHold(s, s.runs);
    assert Balanced(s, 0);
  }

  /** So with one common engine limit, whatever calls arrive and however they interleave; instance limits do not
      matter. */
  lemma {:induction false} CommonLimitAlways(s: Slots, steps: seq<Step>, limit: nat)
    requires Inv(s) && CommonLimit(s, limit) && Possible(s, steps)
    requires forall k :: 0 <= k < |steps| && steps[k].Arrive? ==> Limit(steps[k].engineLimit) == limit
    ensures WorkingCount(After(s, steps).runs) <= limit && CommonLimit(After(s, steps), limit)
    decreases steps
  {
    hide Inv, CommonLimit, Next, Enabled, Limit;
    if steps == [] {
      CommonLimitHolds(s, limit);
    } else {
      StepInv(s, steps[0]);
      CommonLimitStep(s, steps[0], limit);
      CommonLimitAlways(Next(s, steps[0]), steps[1..], limit);
    }
  }

  /** A run that holds one token, of the installed channel, and comes for its instance slot. */
  ghost predicate Nested(s: Slots, r: nat, c: nat) {
    && r < |s.runs| && s.channels != [] && c == Installed(s) && s.runs[r].held == [c]
    && s.runs[r].stage in {Entering(false), Sending(false, c)}
  }

  /** No other run moves it to another channel, and its second send fails exactly if that channel is full. */
  lemma NestedStep(s: Slots, step: Step, r: nat, c: nat)
    requires Inv(s) && Nested(s, r, c) && Enabled(s, step)
    ensures r < |Next(s, step).runs|
    ensures if step == TrySend(r)
            then Next(s, step).runs[r].stage == if s.channels[c].tokens == s.channels[c].cap
                                               then Leaving(Some(s.channels[c].cap))
                                               else Working
            else Nested(Next(s, step), r, c) && Next(s, step).channels[c].cap == s.channels[c].cap
  {
    HolderKeepsChannel(s, r, c);
  }

  ghost predicate Rejected(s: Slots, r: nat) {
    r < |s.runs| && (s.runs[r].stage.Leaving? || s.runs[r].stage.Gone?)
  }

  lemma {:induction false} StaysRejected(s: Slots, steps: seq<Step>, r: nat)
    requires Rejected(s, r) && Possible(s, steps)
    ensures Rejected(After(s, steps), r)
    decreases steps
  {
    if steps != [] {
      StaysRejected(Next(s, steps[0]), steps[1..], r);
    }
  }

  /** If the channel has a single token, which the run itself holds, the run never works, whatever happens. */
  lemma {:induction false} NestedRejected(s: Slots, steps: seq<Step>, r: nat, c: nat)
    requires Inv(s) && Nested(s, r, c) && s.channels[c].cap == 1 && Possible(s, steps)
    ensures var t := After(s, steps); Nested(t, r, c) || Rejected(t, r)
    ensures After(s, steps).runs[r].stage != Working
    decreases steps
  {
    hide Inv, Next, Enabled;
    if steps != [] {
      var next := Next(s, steps[0]);
      StepInv(s, steps[0]);
      NestedStep(s, steps[0], r, c);
      if steps[0] == TrySend(r) {
        HolderKeepsChannel(s, r, c);
        StaysRejected(next, steps[1..], r);
      } else {
        NestedRejected(next, steps[1..], r, c);
      }
    }
  }

  /** The channel that a call finds for its first slot. */
  function Found(s: Slots, l: Limits): Channel {
    var channels := Locked(s.channels, l.engine);
    channels[|channels| - 1]
  }

  /** A call that no other run interrupts, up to its last send. */
  function Uninterrupted(s: Slots, l: Limits): seq<Step> {
    var r, found := |s.runs|, Found(s, l);
    [Arrive(l.engine, l.instance), Enter(r), TrySend(r)]
    + if found.tokens < found.cap && l.instance > 0 then [Enter(r), TrySend(r)] else []
  }

  /** Such a call works exactly if the channel it finds has room for all the slots it needs. */
  lemma UninterruptedWorks(s: Slots, l: Limits)
    requires Inv(s)
    ensures Possible(s, Uninterrupted(s, l))
    ensures var t, found := After(s, Uninterrupted(s, l)), Found(s, l);
            && |t.runs| == |s.runs| + 1
            && t.runs[|s.runs|].stage == if found.tokens + (if l.instance > 0 then 2 else 1) <= found.cap
                                         then Working
                                         else Leaving(Some(found.cap))
  {
    var r, found := |s.runs|, Found(s, l);
    var s2 := Joined(s, l);
    var first := [Arrive(l.engine, l.instance), Enter(r)];
    JoinedSteps(s, l);
    LockedFits(s, l.engine);
    var s3 := Next(s2, TrySend(r));
    Single(s2, TrySend(r));
    LeadsOn(s, first, s2, [TrySend(r)], s3);
    assert first + [TrySend(r)] == [Arrive(l.engine, l.instance), Enter(r), TrySend(r)];
    if found.tokens < found.cap && l.instance > 0 {
      var c := |s2.channels| - 1;
      assert s3.channels[c].tokens > 0 && s3.runs[r].stage == Entering(false);
      var s4 := Next(s3, Enter(r));
      assert s4.channels == s3.channels && s4.runs[r].stage == Sending(false, c);
      Single(s3, Enter(r));
      Single(s4, TrySend(r));
      LeadsOn(s3, [Enter(r)], s4, [TrySend(r)], Next(s4, TrySend(r)));
      assert [Enter(r)] + [TrySend(r)] == [Enter(r), TrySend(r)];
      LeadsOn(s, first + [TrySend(r)], s3, [Enter(r), TrySend(r)], Next(s4, TrySend(r)));
    } else {
      assert Uninterrupted(s, l) == first + [TrySend(r)];
    }
  }

  lemma JoinedSteps(s: Slots, l: Limits)
    ensures LeadsTo(s, [Arrive(l.engine, l.instance), Enter(|s.runs|)], Joined(s, l))
  {
    var arrived := Next(s, Arrive(l.engine, l.instance));
    var t := Joined(s, l);
    assert Next(arrived, Enter(|s.runs|)) == t by {
      assert arrived.runs[|s.runs| := t.runs[|s.runs|]] == t.runs;
    }
    Single(s, Arrive(l.engine, l.instance));
    Single(arrived, Enter(|s.runs|));
    LeadsOn(s, [Arrive(l.engine, l.instance)], arrived, [Enter(|s.runs|)], t);
    assert [Arrive(l.engine, l.instance)] + [Enter(|s.runs|)] == [Arrive(l.engine, l.instance), Enter(|s.runs|)];
  }

  lemma LockedFits(s: Slots, limit: int)
    requires Inv(s)
    ensures var channels := Locked(s.channels, limit);
            channels[|channels| - 1].tokens <= channels[|channels| - 1].cap
  {
  }

  /** On an idle engine a call is rejected exactly if its engine limit is one and it has an instance limit. */
  lemma IdleRejectedIff(s: Slots, l: Limits)
    requires Inv(s) && forall r :: 0 <= r < |s.runs| ==> s.runs[r].stage == Gone
    ensures Possible(s, Uninterrupted(s, l))
    ensures var t := After(s, Uninterrupted(s, l));
            && |t.runs| == |s.runs| + 1
            && (t.runs[|s.runs|].stage == Leaving(Some(1)) <==> Limit(l.engine) == 1 && l.instance > 0)
            && (t.runs[|s.runs|].stage == Working <==> !(Limit(l.engine) == 1 && l.instance > 0))
  {
    hide Inv, After, Possible, Uninterrupted;
    UninterruptedWorks(s, l);
    AllReturned(s);
  }

  /** Such a call on an idle engine comes to hold the only token and needs a second one: from there on it can never
      work, also if other calls interrupt it. */
  lemma NestedReached(s: Slots, l: Limits)
    requires Inv(s) && forall r :: 0 <= r < |s.runs| ==> s.runs[r].stage == Gone
    requires Limit(l.engine) == 1 && l.instance > 0
    ensures var r := |s.runs|;
            var steps := [Arrive(l.engine, l.instance), Enter(r), TrySend(r)];
            && Possible(s, steps)
            && var t := After(s, steps);
               t.channels != [] && Nested(t, r, Installed(t)) && t.channels[Installed(t)].cap == 1
  {
    hide Inv;
    AllReturned(s);
    var r := |s.runs|;
    var s2 := Joined(s, l);
    JoinedSteps(s, l);
    assert Enabled(s2, TrySend(r));
    var t := Next(s2, TrySend(r));
    Single(s2, TrySend(r));
    LeadsOn(s, [Arrive(l.engine, l.instance), Enter(r)], s2, [TrySend(r)], t);
    assert [Arrive(l.engine, l.instance), Enter(r)] + [TrySend(r)]
        == [Arrive(l.engine, l.instance), Enter(r), TrySend(r)];
  }

  /** The steps lead from s to t, with arrivals of these calls only. */
  ghost predicate Reaches(s: Slots, t: Slots, calls: set<Limits>) {
    exists steps :: LeadsTo(s, steps, t) && UsesOnly(steps, calls)
  }

  ghost predicate LeadsTo(s: Slots, steps: seq<Step>, t: Slots) {
    Possible(s, steps) && After(s, steps) == t
  }

  lemma {:induction false} LeadsOn(s: Slots, first: seq<Step>, t: Slots, second: seq<Step>, u: Slots)
    requires LeadsTo(s, first, t) && LeadsTo(t, second, u)
    ensures LeadsTo(s, first + second, u)
    decreases first
  {
    if first == [] {
      assert first + second == second;
    } else {
      assert (first + second)[1..] == first[1..] + second;
      LeadsOn(Next(s, first[0]), first[1..], t, second, u);
    }
  }

  lemma ReachesOn(s: Slots, t: Slots, u: Slots, calls: set<Limits>)
    requires Reaches(s, t, calls) && Reaches(t, u, calls)
    ensures Reaches(s, u, calls)
  {
    hide LeadsTo, ArrivesFrom;
    var first :| LeadsTo(s, first, t) && UsesOnly(first, calls);
    var second :| LeadsTo(t, second, u) && UsesOnly(second, calls);
    LeadsOn(s, first, t, second, u);
    assert UsesOnly(first + second, calls);
  }

  lemma ReachesItself(s: Slots, calls: set<Limits>)
    ensures Reaches(s, s, calls)
  {
    assert LeadsTo(s, [], s) && UsesOnly([], calls);
  }

  lemma Single(s: Slots, step: Step)
    requires Enabled(s, step)
    ensures LeadsTo(s, [step], Next(s, step))
  {
    hide Next, Enabled;
    assert Possible(Next(s, step), [step][1..]) && After(Next(s, step), [step][1..]) == Next(s, step);
  }

  lemma ReachesNext(s: Slots, step: Step, calls: set<Limits>)
    requires Enabled(s, step) && ArrivesFrom(step, calls)
    ensures Reaches(s, Next(s, step), calls)
  {
    hide LeadsTo;
    Single(s, step);
    assert LeadsTo(s, [step], Next(s, step)) && UsesOnly([step], calls);
  }

  /** No token of the installed channel is taken. */
  ghost predicate Free(s: Slots) {
    s.channels != [] ==> s.channels[Installed(s)].tokens == 0
  }

  /** The state after a call arrived and went through the locked section. */
  function Joined(s: Slots, l: Limits): Slots {
    var channels := Locked(s.channels, l.engine);
    Slots(channels, s.runs + [Run(l.engine, l.instance, [], Sending(true, |channels| - 1))])
  }

  lemma Join(s: Slots, l: Limits, calls: set<Limits>)
    requires Free(s) && l in calls
    ensures Reaches(s, Joined(s, l), calls) && Free(Joined(s, l))
    ensures var t := Joined(s, l);
            && s.channels <= t.channels && t.channels != [] && t.channels[Installed(t)] == Channel(Limit(l.engine), 0)
            && (s.channels != [] && s.channels[Installed(s)].cap != Limit(l.engine) ==>
                  |t.channels| == |s.channels| + 1)
            && WorkingCount(t.runs) == WorkingCount(s.runs)
  {
    hide LeadsTo, WorkingCount, Limit;
    JoinedSteps(s, l);
    assert UsesOnly([Arrive(l.engine, l.instance), Enter(|s.runs|)], calls);
    WorkingAppend(s.runs, Joined(s, l).runs[|s.runs|]);
  }

  lemma {:induction false} WorkingAppend(runs: seq<Run>, run: Run)
    ensures WorkingCount(runs + [run]) == WorkingCount(runs) + if run.stage == Working then 1 else 0
  {
    if runs != [] {
      assert (runs + [run])[1..] == runs[1..] + [run];
      WorkingAppend(runs[1..], run);
    } else {
      assert runs + [run] == [run];
    }
  }

  lemma {:induction false} WorkingUpdate(runs: seq<Run>, r: nat, run: Run)
    requires r < |runs| && runs[r].stage != Working
    ensures WorkingCount(runs[r := run]) == WorkingCount(runs) + if run.stage == Working then 1 else 0
  {
    if r == 0 {
      assert runs[r := run][1..] == runs[1..];
    } else {
      assert runs[r := run][1..] == runs[1..][r - 1 := run];
      WorkingUpdate(runs[1..], r - 1, run);
    }
  }

  /** A run sends to a channel that has been replaced and is empty: it gets its token, and the installed channel
      stays free. */
  lemma SendToOld(s: Slots, r: nat, calls: set<Limits>)
    requires Free(s) && r < |s.runs| && s.runs[r].stage.Sending?
    requires s.runs[r].stage.channel < |s.channels| - 1
    requires s.channels[s.runs[r].stage.channel].tokens < s.channels[s.runs[r].stage.channel].cap
    ensures var t := Next(s, TrySend(r));
            && Reaches(s, t, calls) && Free(t) && |t.channels| == |s.channels| && |t.runs| == |s.runs|
            && t.channels[Installed(t)] == s.channels[Installed(s)]
            && t.runs[r].engineLimit == s.runs[r].engineLimit && t.runs[r].instanceLimit == s.runs[r].instanceLimit
            && if s.runs[r].stage.first && s.runs[r].instanceLimit > 0
               then t.runs[r].stage == Entering(false) && WorkingCount(t.runs) == WorkingCount(s.runs)
               else t.runs[r].stage == Working && WorkingCount(t.runs) == WorkingCount(s.runs) + 1
  {
    hide Reaches, WorkingCount;
    ReachesNext(s, TrySend(r), calls);
    WorkingUpdate(s.runs, r, Next(s, TrySend(r)).runs[r]);
  }

  /** A call gets its first slot from a channel that is replaced before it sends. */
  lemma FirstFromOld(s: Slots, a: Limits, b: Limits, calls: set<Limits>) returns (t: Slots, r: nat)
    requires Free(s) && a in calls && b in calls && Limit(a.engine) != Limit(b.engine)
    ensures Reaches(s, t, calls) && Free(t) && r < |t.runs| && t.channels != []
    ensures t.channels[Installed(t)].cap == Limit(b.engine)
    ensures if a.instance > 0
            then t.runs[r].stage == Entering(false) && t.runs[r].instanceLimit == a.instance
                 && WorkingCount(t.runs) == WorkingCount(s.runs)
            else WorkingCount(t.runs) == WorkingCount(s.runs) + 1
  {
    hide Reaches, WorkingCount, Limit, Locked, Next;
    r := |s.runs|;
    var s1 := Joined(s, a);
    Join(s, a, calls);
    var s2 := Joined(s1, b);
    Join(s1, b, calls);
    SendToOld(s2, r, calls);
    t := Next(s2, TrySend(r));
    ReachesOn(s, s1, s2, calls);
    ReachesOn(s, s2, t, calls);
  }

  /** A run comes for its instance slot, and the channel it chooses is replaced before it sends. */
  lemma SecondFromOld(s: Slots, r: nat, c: Limits, calls: set<Limits>) returns (t: Slots)
    requires Free(s) && r < |s.runs| && s.runs[r].stage == Entering(false) && s.channels != []
    requires c in calls && Limit(c.engine) != Limit(s.runs[r].instanceLimit)
    ensures Reaches(s, t, calls) && Free(t) && WorkingCount(t.runs) == WorkingCount(s.runs) + 1
    ensures t.channels != [] && t.channels[Installed(t)].cap == Limit(c.engine)
  {
    hide Reaches, WorkingCount, Limit;
    var s1 := Next(s, Enter(r));
    ReachesNext(s, Enter(r), calls);
    WorkingUpdate(s.runs, r, s1.runs[r]);
    assert s1.channels[Installed(s1)] == Channel(Limit(s.runs[r].instanceLimit), 0);
    hide Next, Locked;
    var s2 := Joined(s1, c);
    Join(s1, c, calls);
    SendToOld(s2, r, calls);
    t := Next(s2, TrySend(r));
    ReachesOn(s, s1, s2, calls);
    ReachesOn(s, s2, t, calls);
  }

  /** With two engine limits one more run can be brought to work, with the installed channel free again. */
  lemma OneMore(s: Slots, a: Limits, b: Limits, calls: set<Limits>) returns (t: Slots)
    requires Free(s) && a in calls && b in calls && Limit(a.engine) != Limit(b.engine)
    ensures Reaches(s, t, calls) && Free(t) && WorkingCount(t.runs) == WorkingCount(s.runs) + 1
    ensures t.channels != [] && t.channels[Installed(t)].cap in {Limit(a.engine), Limit(b.engine)}
  {
    hide Reaches, WorkingCount, Free;
    var first, r := FirstFromOld(s, a, b, calls);
    t := first;
    if a.instance > 0 {
      t := SecondFromOld(first, r, if Limit(a.engine) != Limit(a.instance) then a else b, calls);
      ReachesOn(s, first, t, calls);
    }
  }

  /** With two engine limits any number of runs can work at once, whatever the instance limits are: no limit
      holds. Every run that was between the locked section and its send when the channel was replaced takes its
      token from the old channel. */
  lemma {:induction false} DifferentLimitsUnbounded(a: Limits, b: Limits, calls: set<Limits>, n: nat)
    returns (t: Slots)
    requires a in calls && b in calls && Limit(a.engine) != Limit(b.engine)
    ensures Reaches(START, t, calls) && Free(t) && WorkingCount(t.runs) == n
    ensures n > 0 ==> t.channels != [] && t.channels[Installed(t)].cap in {Limit(a.engine), Limit(b.engine)}
  {
    hide Reaches, Free;
    if n == 0 {
      t := START;
      ReachesItself(START, calls);
      assert Free(START) by {
        StartFree();
      }
    } else {
      var s := DifferentLimitsUnbounded(a, b, calls, n - 1);
      t := OneMore(s, a, b, calls);
      ReachesOn(START, s, t, calls);
    }
  }

  lemma StartFree()
    ensures Free(START)
  {
  }

  /** No interleaving of these calls has more working runs than the installed channel allows. */
  ghost predicate KeepsLimit(calls: set<Limits>) {
    forall t :: Reaches(START, t, calls) ==> WithinLimit(t)
  }

  ghost predicate WithinLimit(t: Slots) {
    t.channels != [] ==> WorkingCount(t.runs) <= t.channels[Installed(t)].cap
  }

  lemma CommonLimitReached(calls: set<Limits>, t: Slots)
    requires SameEngineLimit(calls) && Reaches(START, t, calls)
    ensures WithinLimit(t)
  {
    hide Possible, After;
    var steps: seq<Step> :| LeadsTo(START, steps, t) && UsesOnly(steps, calls);
    if k: nat :| k < |steps| && steps[k].Arrive? {
      var limit := Limit(steps[k].engineLimit);
      assert ArrivesFrom(steps[k], calls);
      forall j | 0 <= j < |steps| && steps[j].Arrive?
        ensures Limit(steps[j].engineLimit) == limit
      {
        assert ArrivesFrom(steps[j], calls);
      }
      StartInv();
      CommonLimitAlways(START, steps, limit);
    } else {
      StartInv();
      CommonLimitAlways(START, steps, 1);
    }
  }

  /** The limit in force is kept in every interleaving exactly if all calls have the same engine limit. */
  lemma LimitKeptIff(calls: set<Limits>)
    ensures KeepsLimit(calls) <==> SameEngineLimit(calls)
  {
    hide Reaches, Limit, WorkingCount;
    if SameEngineLimit(calls) {
      forall t | Reaches(START, t, calls)
        ensures WithinLimit(t)
      {
        CommonLimitReached(calls, t);
      }
    } else {
      var a, b :| a in calls && b in calls && Limit(a.engine) != Limit(b.engine);
      var t := DifferentLimitsUnbounded(a, b, calls, Limit(a.engine) + Limit(b.engine) + 1);
      assert !WithinLimit(t);
    }
  }

  /** An example: a call with limit two waits before its send while one with limit one replaces the channel. Then
      both work, though the installed channel allows one. */
  function RacingSteps(): seq<Step> {
    [Arrive(2, 0), Enter(0), Arrive(1, 0), Enter(1), TrySend(0), TrySend(1)]
  }

  lemma RacingRunsExceedLimit()
    ensures Possible(START, RacingSteps())
    ensures var s := After(START, RacingSteps());
            s.channels != [] && s.channels[Installed(s)].cap == 1 && WorkingCount(s.runs) == 2
  {
    var wide, narrow := Limits(2, 0), Limits(1, 0);
    var s2 := Joined(START, wide);
    var s4 := Joined(s2, narrow);
    JoinedSteps(START, wide);
    JoinedSteps(s2, narrow);
    var s5 := Next(s4, TrySend(0));
    var s6 := Next(s5, TrySend(1));
    Single(s4, TrySend(0));
    Single(s5, TrySend(1));
    WorkingUpdate(s4.runs, 0, s5.runs[0]);
    WorkingUpdate(s5.runs, 1, s6.runs[1]);
    WorkingAppend(START.runs, s2.runs[0]);
    WorkingAppend(s2.runs, s4.runs[1]);
    hide LeadsTo, Next, Joined, WorkingCount;
    LeadsOn(START, [Arrive(2, 0), Enter(0)], s2, [Arrive(1, 0), Enter(1)], s4);
    LeadsOn(s4, [TrySend(0)], s5, [TrySend(1)], s6);
    LeadsOn(START, [Arrive(2, 0), Enter(0)] + [Arrive(1, 0), Enter(1)], s4, [TrySend(0)] + [TrySend(1)], s6);
    assert [Arrive(2, 0), Enter(0)] + [Arrive(1, 0), Enter(1)] + ([TrySend(0)] + [TrySend(1)]) == RacingSteps();
    assert LeadsTo(START, RacingSteps(), s6);
    LeadsToMeans(START, RacingSteps(), s6);
  }

  lemma LeadsToMeans(s: Slots, steps: seq<Step>, t: Slots)
    requires LeadsTo(s, steps, t)
    ensures Possible(s, steps) && After(s, steps) == t
  {
  }
}
