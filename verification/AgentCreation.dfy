/** What the two creation counters of a run mean.

    Attempts to create an agent are counted under a key of tool name and agent id, and all creations under one key
    that an agent called "total" shares. Here the counters are told by the attempts themselves. */
module AgentCreation {
  import opened Strings
  import opened ToolCalls
  import opened ToolLedger

  /** Creations that got as far as the test of their agent's own counter. */
  predicate IsCreationAttempt(e: Event, key: string) {
    e.keys.creates && e.keys.creation == Some(key) && e.disposition in {CreationBlocked, CreationLimited, Executed}
  }

  function CreationAttempts(log: Ledger, key: string): nat {
    if log == [] then 0
    else CreationAttempts(Init(log), key) + if IsCreationAttempt(Last(log), key) then 1 else 0
  }

  /** Creations that got as far as the test of the run's counter. */
  function CreationsCounted(log: Ledger): nat {
    if log == [] then 0
    else
      CreationsCounted(Init(log))
      + if Last(log).keys.creates && Last(log).disposition in {CreationLimited, Executed} then 1 else 0
  }

  /** No call is guarded under a creation key, and creations only count under creation keys. */
  lemma KeysApart(call: ToolCall)
    ensures KeysOf(call).guard.Some? ==> !IsCreationKey(KeysOf(call).guard.value.key)
    ensures KeysOf(call).creation.Some? ==> IsCreationKey(KeysOf(call).creation.value)
  {
    GuardKeysApart(call.name, call.args);
    if KeysOf(call).creation.Some? {
      var key := call.name + "|" + call.args.agentId;
      assert call.name + "|" == CREATE || call.name + "|" == CREATES;
      assert key[..|call.name + "|"|] == call.name + "|";
    }
  }

  ghost predicate GuardsApart(log: Ledger) {
    forall e :: e in log && e.keys.guard.Some? ==> !IsCreationKey(e.keys.guard.value.key)
  }

  /** A creation counter counts the attempts under its key, and the shared one all counted creations as well. */
  lemma {:induction false} CounterMeaning(log: Ledger, key: string)
    requires GuardsApart(log) && IsCreationKey(key)
    ensures Attempts(log, key)
            == CreationAttempts(log, key) + if key == CREATION_TOTAL then CreationsCounted(log) else 0
  {
    hide IsCreationKey;
    if log != [] {
      CounterMeaning(Init(log), key);
      assert Last(log) in log;
    }
  }

  /** When a creation that no cache answers is blocked or limited: its own counter blocks it from the third attempt
      under its key on; an agent with the shared key is blocked as soon as its attempts and all counted creations
      make two; and attempts under that key count twice towards the limit of the run. */
  lemma CreationDecided(log: Ledger, keys: Keys)
    requires GuardsApart(log) && keys.creates && (keys.creation.Some? ==> IsCreationKey(keys.creation.value))
    requires Decide(log, keys) in {CreationBlocked, CreationLimited, Executed}
    ensures Decide(log, keys) == CreationBlocked <==>
              && keys.creation.Some?
              && CreationAttempts(log, keys.creation.value)
                 + (if keys.creation.value == CREATION_TOTAL then CreationsCounted(log) else 0) >= 2
    ensures Decide(log, keys) == CreationLimited <==>
              && Decide(log, keys) != CreationBlocked
              && CreationsCounted(log) + CreationAttempts(log, CREATION_TOTAL)
                 + (if keys.creation == Some(CREATION_TOTAL) then 1 else 0) >= CREATION_GLOBAL_CAP
  {
    hide IsCreationKey;
    TotalIsCreationKey();
    CounterMeaning(log, CREATION_TOTAL);
    if keys.creation.Some? {
      CounterMeaning(log, keys.creation.value);
    }
  }

  lemma TotalIsCreationKey()
    ensures IsCreationKey(CREATION_TOTAL)
  {
    assert CREATION_TOTAL[..|CREATE|] == CREATE;
  }

  /** The counter of a key is at two exactly after two attempts under it. */
  ghost predicate ThirdIsBlocked(log: Ledger, key: string) {
    Attempts(log, key) >= 2 <==> CreationAttempts(log, key) >= 2
  }

  ghost predicate ThirdAlwaysBlocked(key: string) {
    forall log :: Consistent(log) && GuardsApart(log) ==> ThirdIsBlocked(log, key)
  }

  function CreateCall(tool: string, agentId: string, raw: string): ToolCall {
    ToolCall("", tool, Arguments(raw, None, None, None, "", agentId))
  }

  function Created(tool: string, agentId: string, raw: string): Event {
    Event("", KeysOf(CreateCall(tool, agentId, raw)), Executed, ToolResult("", "", ""))
  }

  /** The keys of a creation. */
  lemma CreateKeys(tool: string, agentId: string, raw: string)
    requires IsCreation(tool) && agentId != ""
    ensures KeysOf(CreateCall(tool, agentId, raw))
            == Keys(tool + "|" + raw, None, None, true, Some(tool + "|" + agentId), tool + "|" + raw)
  {
    CreationIsUnguarded(tool, CreateCall(tool, agentId, raw).args);
    CreationIsCached(tool, CreateCall(tool, agentId, raw).args);
  }

  /** A possible run in which only these cache keys occurred. */
  ghost predicate Ran(log: Ledger, caches: set<string>) {
    Consistent(log) && GuardsApart(log) && forall e :: e in log ==> e.keys.cache in caches
  }

  lemma NothingRan()
    ensures Ran([], {}) && forall key :: Attempts([], key) == CreationAttempts([], key) == 0
    ensures forall key :: History([], Creation(key)) == []
  {
  }

  /** The counts under a key are up by one for its agent. */
  ghost predicate CountsStep(log: Ledger, later: Ledger, agentKey: string, key: string) {
    && Attempts(later, key)
       == Attempts(log, key) + (if key == agentKey then 1 else 0) + (if key == CREATION_TOTAL then 1 else 0)
    && CreationAttempts(later, key) == CreationAttempts(log, key) + (if key == agentKey then 1 else 0)
    && |History(later, Creation(key))| == |History(log, Creation(key))| + (if key == agentKey then 1 else 0)
  }

  /** A creation with arguments of its own, and less than two attempts before it, is executed. */
  lemma CreateStep(log: Ledger, caches: set<string>, tool: string, agentId: string, raw: string) returns (later: Ledger)
    requires Ran(log, caches) && IsCreation(tool) && agentId != "" && tool + "|" + raw !in caches
    requires Attempts(log, tool + "|" + agentId) < 2 && tool + "|" + agentId != CREATION_TOTAL
    requires Attempts(log, CREATION_TOTAL) < CREATION_GLOBAL_CAP
    ensures later == log + [Created(tool, agentId, raw)] && Ran(later, caches + {tool + "|" + raw})
    ensures forall key :: CountsStep(log, later, tool + "|" + agentId, key)
  {
    hide KeysOf, IsCreationKey;
    var e := Created(tool, agentId, raw);
    CreateKeys(tool, agentId, raw);
    NothingUnderNewKey(log, e.keys.cache);
    assert Follows(log, e);
    ConsistentStep(log, e);
    later := log + [e];
    assert Init(later) == log;
  }

  lemma {:induction false} NothingUnderNewKey(log: Ledger, key: string)
    requires forall e :: e in log ==> e.keys.cache != key
    ensures History(log, Cached(key)) == []
  {
    if log != [] {
      NothingUnderNewKey(Init(log), key);
      assert Last(log) in log;
    }
  }

  /** In a run that created two agents the shared counter stands at two without any attempt for its own agent. */
  lemma TwoCreated() returns (log: Ledger)
    ensures Ran(log, {CREATE + "a", CREATE + "b"}) && |log| == 2
    ensures CreationAttempts(log, CREATION_TOTAL) == 0 && Attempts(log, CREATION_TOTAL) == 2
  {
    hide Ran, Attempts, CreationAttempts, Created, History;
    var tool := "agent.create";
    assert tool + "|" == CREATE && CREATE + "total" == CREATION_TOTAL && |CREATE| == 13;
    assert (CREATE + "alpha")[13] == (CREATE + "a")[13] == 'a' && (CREATE + "beta")[13] == (CREATE + "b")[13] == 'b';
    assert (CREATE + "total")[13] == 't';
    NothingRan();
    var first := CreateStep([], {}, tool, "alpha", "a");
    assert CountsStep([], first, CREATE + "alpha", CREATION_TOTAL);
    assert CountsStep([], first, CREATE + "alpha", CREATE + "beta");
    log := CreateStep(first, {} + {CREATE + "a"}, tool, "beta", "b");
    assert CountsStep(first, log, CREATE + "beta", CREATION_TOTAL);
    assert {} + {CREATE + "a"} + {CREATE + "b"} == {CREATE + "a", CREATE + "b"};
  }

  /** After these two, an agent called "total" is blocked at its first attempt. */
  lemma TotalBlockedAtOnce() returns (log: Ledger)
    ensures Consistent(log) && GuardsApart(log) && |log| == 2 && !ThirdIsBlocked(log, CREATION_TOTAL)
    ensures Decide(log, KeysOf(CreateCall("agent.create", "total", "t"))) == CreationBlocked
  {
    hide KeysOf, Attempts, CreationAttempts, Consistent, GuardsApart;
    log := TwoCreated();
    var tool := "agent.create";
    CreateKeys(tool, "total", "t");
    assert tool + "|" == CREATE && CREATE + "total" == CREATION_TOTAL && |CREATE| == 13;
    assert (CREATE + "a")[13] == 'a' && (CREATE + "b")[13] == 'b' && (CREATE + "t")[13] == 't';
    NothingUnderNewKey(log, CREATE + "t");
  }

  /** The third attempt under a key, and no earlier one, finds its counter used up in every run exactly if the key is
      not the shared one. */
  lemma ThirdAlwaysBlockedIff(key: string)
    requires IsCreationKey(key)
    ensures ThirdAlwaysBlocked(key) <==> key != CREATION_TOTAL
  {
    if key == CREATION_TOTAL {
      var log := TotalBlockedAtOnce();
      assert !ThirdIsBlocked(log, key);
    } else {
      forall log | Consistent(log) && GuardsApart(log)
        ensures ThirdIsBlocked(log, key)
      {
        CounterMeaning(log, key);
      }
    }
  }

  /** How often an agent id was handed to the executor for creation, under either tool name. */
  function CreationsOf(log: Ledger, agentId: string): nat {
    |History(log, Creation(CREATE + agentId))| + |History(log, Creation(CREATES + agentId))|
  }

  /** One agent id is created at most four times, and at most twice under one tool name. */
  lemma AgentCreatedAtMostFourTimes(log: Ledger, agentId: string)
    requires Consistent(log)
    ensures CreationsOf(log, agentId) <= 4
    ensures History(log, Creation(CREATE + agentId)) == [] || History(log, Creation(CREATES + agentId)) == [] ==>
              CreationsOf(log, agentId) <= 2
  {
    CreationsCapped(log, CREATE + agentId);
    CreationsCapped(log, CREATES + agentId);
  }

  ghost predicate CountsTwice(log: Ledger, later: Ledger, agentKey: string, key: string) {
    && Attempts(later, key)
       == Attempts(log, key) + (if key == agentKey then 2 else 0) + (if key == CREATION_TOTAL then 2 else 0)
    && |History(later, Creation(key))| == |History(log, Creation(key))| + if key == agentKey then 2 else 0
  }

  /** An agent without attempts so far can be created twice under one tool name. */
  lemma CreateTwice(log: Ledger, caches: set<string>, tool: string, agentId: string) returns (later: Ledger)
    requires Ran(log, caches) && IsCreation(tool) && agentId != "" && tool + "|" + agentId != CREATION_TOTAL
    requires tool + "|" + "1" !in caches && tool + "|" + "2" !in caches
    requires Attempts(log, tool + "|" + agentId) == 0 && Attempts(log, CREATION_TOTAL) < CREATION_GLOBAL_CAP - 1
    ensures Ran(later, caches + {tool + "|" + "1"} + {tool + "|" + "2"})
    ensures forall key :: CountsTwice(log, later, tool + "|" + agentId, key)
  {
    hide Ran, Attempts, CreationAttempts, Created, History;
    var agentKey := tool + "|" + agentId;
    var first := CreateStep(log, caches, tool, agentId, "1");
    assert CountsStep(log, first, agentKey, CREATION_TOTAL) && CountsStep(log, first, agentKey, agentKey);
    assert (tool + "|" + "1")[|tool| + 1] == '1' && (tool + "|" + "2")[|tool| + 1] == '2';
    later := CreateStep(first, caches + {tool + "|" + "1"}, tool, agentId, "2");
    forall key
      ensures CountsTwice(log, later, agentKey, key)
    {
      assert CountsStep(log, first, agentKey, key) && CountsStep(first, later, agentKey, key);
    }
  }

  lemma CreationKeysDiffer(a: string, b: string)
    ensures CREATE + a != CREATES + b
    ensures CREATE + a == CREATE + b ==> a == b
    ensures CREATES + a == CREATES + b ==> a == b
  {
    assert (CREATE + a)[5] == '.' && (CREATES + b)[5] == 's';
    assert (CREATE + a)[|CREATE|..] == a && (CREATE + b)[|CREATE|..] == b;
    assert (CREATES + a)[|CREATES|..] == a && (CREATES + b)[|CREATES|..] == b;
  }

  /** And four times it can be: every id but that of the shared key is, in some run. */
  lemma AgentCreatedFourTimes(agentId: string) returns (log: Ledger)
    requires agentId != "" && agentId != "total"
    ensures Consistent(log) && GuardsApart(log) && CreationsOf(log, agentId) == 4
  {
    hide Attempts, CreationAttempts, Created, History, Consistent, GuardsApart;
    var single, plural := "agent.create", "agents.create";
    assert single + "|" == CREATE && plural + "|" == CREATES && CREATE + "total" == CREATION_TOTAL;
    CreationKeysDiffer(agentId, agentId);
    CreationKeysDiffer(agentId, "total");
    CreationKeysDiffer("total", agentId);
    CreationKeysDiffer("1", "1");
    CreationKeysDiffer("1", "2");
    CreationKeysDiffer("2", "1");
    CreationKeysDiffer("2", "2");
    NothingRan();
    var two := CreateTwice([], {}, single, agentId);
    assert CountsTwice([], two, CREATE + agentId, CREATION_TOTAL);
    assert CountsTwice([], two, CREATE + agentId, CREATE + agentId);
    assert CountsTwice([], two, CREATE + agentId, CREATES + agentId);
    log := CreateTwice(two, {} + {CREATE + "1"} + {CREATE + "2"}, plural, agentId);
    assert CountsTwice(two, log, CREATES + agentId, CREATE + agentId);
    assert CountsTwice(two, log, CREATES + agentId, CREATES + agentId);
  }

  /** An attempt for the agent of the shared key counts twice there. */
  lemma {:induction false} SharedKeyCountsTwice(log: Ledger)
    ensures 2 * |History(log, Creation(CREATION_TOTAL))| <= Attempts(log, CREATION_TOTAL)
  {
    if log != [] {
      SharedKeyCountsTwice(Init(log));
    }
  }

  /** So this agent is created at most once under that tool name. */
  lemma {:induction false} SharedKeyCreatedOnce(log: Ledger)
    requires Consistent(log)
    ensures |History(log, Creation(CREATION_TOTAL))| <= 1
  {
    if log != [] {
      ConsistentLast(log);
      SharedKeyCreatedOnce(Init(log));
      SharedKeyCountsTwice(Init(log));
    }
  }
}
