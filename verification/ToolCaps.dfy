/** What the keys of tool calls mean for tools by name: how often a call reaches the real executor, which calls share a
    stored outcome, and that nothing stands in the way of a new call. */
module ToolCaps {
  import opened Strings
  import opened ToolCalls
  import opened ToolLedger
  import opened AgentCreation
  import opened ToolExecutor

  /** Names that cannot be taken for a name with something after it. */
  predicate NoBar(name: string) {
    '|' !in name
  }

  lemma SplitAtBar(a: string, x: string, b: string, y: string)
    requires NoBar(a) && NoBar(b) && a + "|" + x == b + "|" + y
    ensures a == b && x == y
  {
    var key := a + "|" + x;
    assert key[|a|] == '|' && key[|b|] == '|';
    forall k | 0 <= k < |a|
      ensures key[k] != '|'
    {
      assert key[k] == a[k];
    }
    forall k | 0 <= k < |b|
      ensures key[k] != '|'
    {
      assert key[k] == b[k];
    }
    assert key[..|a|] == a && key[..|b|] == b && key[|a| + 1..] == x && key[|b| + 1..] == y;
  }

  predicate IsPlugin(name: string) {
    "becomussy." <= name
  }

  /** The other tools whose calls are guarded. */
  predicate IsGuardedTool(name: string) {
    name == "agent.message.send" || name == "agent.run" || name == "agent.message.inbox" || name == "memory.write" ||
    name == "shell.exec" || name == "fs.list" || name == "fs.mkdir" || name == "fs.write" || name == "fs.append" ||
    name == "fs.read"
  }

  lemma OneShotNamesHaveNoBar(name: string)
    requires IsOneShotTool(name)
    ensures NoBar(name)
  {
  }

  lemma ReaderNamesHaveNoBar(name: string)
    requires IsStateReader(name)
    ensures NoBar(name)
  {
  }

  lemma GuardedNamesHaveNoBar(name: string)
    requires IsGuardedTool(name)
    ensures NoBar(name)
  {
  }

  lemma OneShotShapes(name: string)
    requires IsOneShotTool(name)
    ensures |name| in {10, 12, 13, 15, 16, 18} && name[0] in {'s', 'p', 'a', 'c'}
    ensures |name| == 10 ==> name[0] == 'c' && name[7] == 's'
    ensures |name| == 12 ==> name[0] in {'p', 'a'}
    ensures |name| == 18 ==> name[6] == 'i'
  {
  }

  lemma ReaderShapes(name: string)
    requires IsStateReader(name)
    ensures |name| in {7, 8, 10, 11, 12, 14} && name[0] in {'s', 'p', 'a', 'c', 'r', 'm'}
    ensures |name| in {7, 8} ==> name[0] == 'r'
    ensures |name| == 10 ==> name[0] in {'c', 'a'} && name[7] in {'g', 'i'}
    ensures |name| == 12 ==> name[0] == 's'
  {
  }

  lemma GuardedShapes(name: string)
    requires IsGuardedTool(name)
    ensures |name| in {7, 8, 9, 10, 12, 18, 19} && name[0] in {'a', 'm', 's', 'f'}
    ensures |name| in {7, 8} ==> name[0] == 'f'
    ensures |name| == 10 ==> name[0] == 's'
    ensures |name| == 12 ==> name[0] == 'm'
    ensures |name| == 18 ==> name[6] == 'm'
  {
  }

  /** A name is of one kind only. */
  lemma KindsApart(name: string)
    ensures !(IsOneShotTool(name) && IsStateReader(name))
    ensures !(IsOneShotTool(name) && IsGuardedTool(name))
    ensures !(IsStateReader(name) && IsGuardedTool(name))
    ensures IsOneShotTool(name) || IsStateReader(name) || IsGuardedTool(name) ==>
              NoBar(name) && name != "" && name[0] != 'b'
  {
    hide IsOneShotTool, IsStateReader, IsGuardedTool, NoBar;
    if IsOneShotTool(name) {
      OneShotShapes(name);
      OneShotNamesHaveNoBar(name);
    }
    if IsStateReader(name) {
      ReaderShapes(name);
      ReaderNamesHaveNoBar(name);
    }
    if IsGuardedTool(name) {
      GuardedShapes(name);
      GuardedNamesHaveNoBar(name);
    }
  }

  /** What a guarded call counts under, after the name of its tool. */
  function GuardRest(name: string, args: Arguments): string {
    if IsOneShotTool(name) then (if args.mutation.Some? then args.mutation.value else "")
    else if name == "fs.list" || name == "fs.mkdir" then (if args.path == "" then "." else args.path)
    else if name == "fs.write" || name == "fs.append" || name == "fs.read" then args.path
    else if args.subject.Some? then args.subject.value
    else ""
  }

  function GuardCap(name: string, rest: string): nat {
    if IsOneShotTool(name) then (if name == IDENTITY_SET then 2 else 1)
    else if name == "agent.message.send" || name == "agent.run" || name == "fs.mkdir" then 1
    else if name == "agent.message.inbox" || name == "memory.write" then 2
    else if name == "fs.list" then 4
    else if name == "fs.write" || name == "fs.append" || name == "fs.read" then PathCap(name, rest)
    else 3
  }

  lemma GuardShape(tool: string, args: Arguments)
    requires GuardOf(tool, args).Some? && !IsPlugin(Trim(tool))
    ensures var name, guard := Trim(tool), GuardOf(tool, args).value;
            && NoBar(name) && name != "" && name[0] != 'b'
            && guard.key == (if IsStateReader(name) then name else name + "|" + GuardRest(name, args))
            && guard.cap == GuardCap(name, GuardRest(name, args))
  {
    hide PathCap, Trim, NoBar, IsOneShotTool, IsStateReader;
    var name := Trim(tool);
    KindsApart(name);
  }

  /** Calls that count under the same key have the same cap; only plugin tools, whose names can hold a bar, can share a
      key with different caps. */
  lemma KeyTellsCap(a: ToolCall, b: ToolCall)
    requires KeysOf(a).guard.Some? && KeysOf(b).guard.Some? && KeysOf(a).guard.value.key == KeysOf(b).guard.value.key
    requires !IsPlugin(Trim(a.name))
    ensures KeysOf(a).guard == KeysOf(b).guard && Trim(a.name) == Trim(b.name)
  {
    hide GuardOf, GuardCap, GuardRest, IsStateReader, Trim, CacheKey, OneShotKey, StableKey, CreationKey;
    var key := GuardOf(a.name, a.args).value.key;
    var one, other := Trim(a.name), Trim(b.name);
    GuardShape(a.name, a.args);
    assert key[0] == one[0] != 'b';
    if IsPlugin(other) {
      PluginKey(b.name, b.args);
      assert false;
    }
    GuardShape(b.name, b.args);
    if IsStateReader(one) && !IsStateReader(other) {
      NoBarInside(one, other, GuardRest(other, b.args));
    } else if !IsStateReader(one) && IsStateReader(other) {
      NoBarInside(other, one, GuardRest(one, a.args));
    } else if !IsStateReader(one) {
      SplitAtBar(one, GuardRest(one, a.args), other, GuardRest(other, b.args));
    }
    if one == other && IsStateReader(one) {
      KindsApart(one);
      ReaderCap(one, GuardRest(one, a.args));
      ReaderCap(one, GuardRest(one, b.args));
    }
  }

  lemma ReaderCap(name: string, rest: string)
    requires IsStateReader(name)
    ensures GuardCap(name, rest) == 3
  {
    hide IsStateReader, IsOneShotTool;
    KindsApart(name);
  }

  lemma NoBarInside(name: string, other: string, rest: string)
    requires NoBar(name)
    ensures name != other + "|" + rest
  {
    assert (other + "|" + rest)[|other|] == '|';
  }

  lemma PluginKey(tool: string, args: Arguments)
    requires GuardOf(tool, args).Some? && IsPlugin(Trim(tool))
    ensures var key := GuardOf(tool, args).value.key; key != "" && key[0] == 'b'
  {
    hide Trim;
    GuardKeyStarts(tool, args);
    assert "becomussy."[0] == Trim(tool)[0] == GuardOf(tool, args).value.key[0];
  }

  /** So a call that is no plugin's reaches the real executor at most as often as its own cap says, counting all calls
      under its key. */
  lemma GuardedCallsCapped(invoked: seq<ToolCall>, call: ToolCall)
    requires WithinCaps(invoked) && KeysOf(call).guard.Some? && !IsPlugin(Trim(call.name))
    ensures CallsAbout(invoked, Guarded(KeysOf(call).guard.value.key)) <= KeysOf(call).guard.value.cap
  {
    hide KeysOf, CallsAbout, IsPlugin, Trim;
    var guard := KeysOf(call).guard.value;
    forall c | c in invoked && Concerns(KeysOf(c), Guarded(guard.key))
      ensures KeysOf(c).guard.value.cap <= guard.cap
    {
      KeyTellsCap(call, c);
    }
    assert CapsAtMost(invoked, guard.key, guard.cap);
  }

  /** How many of the calls are of this tool, for this path or this subject. */
  function CallsFor(calls: seq<ToolCall>, tool: string, path: Option<string>, subject: Option<string>): nat {
    if calls == [] then 0
    else
      CallsFor(calls[..|calls| - 1], tool, path, subject)
      + if IsFor(Last(calls), tool, path, subject) then 1 else 0
  }

  predicate IsFor(call: ToolCall, tool: string, path: Option<string>, subject: Option<string>) {
    && call.name == tool && (path.Some? ==> call.args.path == path.value)
    && (subject.Some? ==> call.args.subject == subject)
  }

  lemma {:induction false} CallsForAreAbout(calls: seq<ToolCall>, tool: string, path: Option<string>,
                                            subject: Option<string>, guard: Guard)
    requires forall c :: IsFor(c, tool, path, subject) ==> KeysOf(c).guard == Some(guard)
    ensures CallsFor(calls, tool, path, subject) <= CallsAbout(calls, Guarded(guard.key))
  {
    hide KeysOf, IsFor;
    if calls != [] {
      CallsForAreAbout(calls[..|calls| - 1], tool, path, subject, guard);
    }
  }

  /** Calls that are all guarded alike are made at most as often as the guard says. */
  lemma CallsForCapped(invoked: seq<ToolCall>, tool: string, path: Option<string>, subject: Option<string>, guard: Guard,
                       example: ToolCall)
    requires WithinCaps(invoked) && !IsPlugin(Trim(tool)) && IsFor(example, tool, path, subject)
    requires forall c :: IsFor(c, tool, path, subject) ==> KeysOf(c).guard == Some(guard)
    ensures CallsFor(invoked, tool, path, subject) <= guard.cap
  {
    hide WithinCaps, KeysOf, CallsFor, CallsAbout;
    GuardedCallsCapped(invoked, example);
    CallsForAreAbout(invoked, tool, path, subject, guard);
  }

  lemma GuardedNamesAreTrimmed(name: string)
    requires IsGuardedTool(name) || IsStateReader(name)
    ensures name != "" && !IsSpace(name[0]) && !IsSpace(name[|name| - 1])
  {
  }

  /** When the calls of a tool are guarded, and how. */
  lemma GuardPresent(tool: string, args: Arguments)
    requires IsGuardedTool(tool) || IsStateReader(tool)
    requires tool == "fs.write" || tool == "fs.append" || tool == "fs.read" ==> args.path != ""
    requires IsGuardedTool(tool) && !("fs." <= tool) ==> args.subject.Some?
    ensures Trim(tool) == tool && !IsPlugin(tool)
    ensures var rest := GuardRest(tool, args);
            GuardOf(tool, args) == Some(Guard(if IsStateReader(tool) then tool else tool + "|" + rest,
                                              GuardCap(tool, rest)))
  {
    hide PathCap, Trim, NoBar, IsOneShotTool, IsStateReader;
    KindsApart(tool);
    assert [] + tool + [] == tool;
    GuardedNamesAreTrimmed(tool);
    TrimBetween([], tool, []);
    assert "becomussy."[0] == 'b';
  }

  function ExampleCall(tool: string, path: string, subject: Option<string>): ToolCall {
    ToolCall("", tool, Arguments("", None, subject, None, path, ""))
  }

  /** The cap that calls of a guarded tool have for one path, or one subject, or, of a reader of state, at all. */
  lemma ToolCapped(invoked: seq<ToolCall>, tool: string, path: Option<string>, subject: Option<string>)
    requires WithinCaps(invoked) && (IsGuardedTool(tool) || IsStateReader(tool))
    requires "fs." <= tool ==> path.Some? && path.value != ""
    requires IsGuardedTool(tool) && !("fs." <= tool) ==> subject.Some?
    ensures CallsFor(invoked, tool, path, subject)
            <= if IsStateReader(tool) then 3 else GuardCap(tool, if "fs." <= tool then path.value else subject.value)
  {
    hide WithinCaps, CallsFor, GuardOf, GuardCap, IsOneShotTool, IsStateReader, Trim, CacheKey, StableKey, CreationKey;
    var example := ExampleCall(tool, if path.Some? then path.value else "", subject);
    KindsApart(tool);
    GuardPresent(tool, example.args);
    forall c | IsFor(c, tool, path, subject)
      ensures KeysOf(c).guard == KeysOf(example).guard
    {
      GuardPresent(tool, c.args);
      if IsStateReader(tool) {
        ReaderCap(tool, GuardRest(tool, c.args));
        ReaderCap(tool, GuardRest(tool, example.args));
      }
    }
    if IsStateReader(tool) {
      ReaderCap(tool, GuardRest(tool, example.args));
    }
    CallsForCapped(invoked, tool, path, subject, KeysOf(example).guard.value, example);
  }

  /** What the caps of a run mean for the agents and memories it works with. */
  lemma SubjectCallsCapped(invoked: seq<ToolCall>, subject: string)
    requires WithinCaps(invoked)
    ensures CallsFor(invoked, "agent.run", None, Some(subject)) <= 1
    ensures CallsFor(invoked, "agent.message.send", None, Some(subject)) <= 1
    ensures CallsFor(invoked, "agent.message.inbox", None, Some(subject)) <= 2
    ensures CallsFor(invoked, "memory.write", None, Some(subject)) <= 2
    ensures CallsFor(invoked, "shell.exec", None, Some(subject)) <= 3
  {
    hide WithinCaps, CallsFor, IsStateReader;
    SubjectCapped(invoked, "agent.run", subject, 1);
    SubjectCapped(invoked, "agent.message.send", subject, 1);
    SubjectCapped(invoked, "agent.message.inbox", subject, 2);
    SubjectCapped(invoked, "memory.write", subject, 2);
    SubjectCapped(invoked, "shell.exec", subject, 3);
  }

  lemma SubjectCapped(invoked: seq<ToolCall>, tool: string, subject: string, cap: nat)
    requires WithinCaps(invoked) && IsGuardedTool(tool) && tool[0] != 'f' && GuardCap(tool, subject) == cap
    ensures CallsFor(invoked, tool, None, Some(subject)) <= cap
  {
    hide WithinCaps, CallsFor, IsStateReader, GuardCap, IsGuardedTool;
    KindsApart(tool);
    assert "fs."[0] == 'f';
    ToolCapped(invoked, tool, None, Some(subject));
  }

  lemma PathCapped(invoked: seq<ToolCall>, tool: string, path: string)
    requires WithinCaps(invoked) && IsGuardedTool(tool) && "fs." <= tool && path != ""
    ensures CallsFor(invoked, tool, Some(path), None) <= GuardCap(tool, path)
  {
    hide WithinCaps, CallsFor, IsStateReader, GuardCap, IsGuardedTool;
    KindsApart(tool);
    ToolCapped(invoked, tool, Some(path), None);
  }

  /** And for the files: a directory is made once, and writing is capped by what the path is. */
  lemma FileCallsCapped(invoked: seq<ToolCall>, path: string)
    requires WithinCaps(invoked) && path != ""
    ensures CallsFor(invoked, "fs.mkdir", Some(path), None) <= 1
    ensures CallsFor(invoked, "fs.list", Some(path), None) <= 4
    ensures CallsFor(invoked, "fs.read", Some(path), None) <= 6
    ensures var lower := Lower(Trim(path));
            var journal, buildLog := Contains(lower, "journal") || Contains(lower, "diary"), Contains(lower, "build_log");
            && CallsFor(invoked, "fs.write", Some(path), None) <= (if buildLog then 6 else if journal then 4 else 12)
            && CallsFor(invoked, "fs.append", Some(path), None) <= if journal && !buildLog then 24 else 16
  {
    hide WithinCaps, CallsFor, IsStateReader, Trim, Lower, Contains, HasSuffix;
    PathCapped(invoked, "fs.mkdir", path);
    PathCapped(invoked, "fs.list", path);
    PathCapped(invoked, "fs.read", path);
    PathCapped(invoked, "fs.write", path);
    PathCapped(invoked, "fs.append", path);
  }

  /** State is read at most three times by each of its readers. */
  lemma ReaderCallsCapped(invoked: seq<ToolCall>, tool: string)
    requires WithinCaps(invoked)
    requires tool in ["scheduler.list", "policy.list", "config.get", "session.list", "agent.list", "run.list", "run.get",
                      "metrics.get"]
    ensures CallsFor(invoked, tool, None, None) <= 3
  {
    hide WithinCaps, CallsFor;
    assert IsStateReader(tool);
    hide IsStateReader;
    KindsApart(tool);
    ReaderIsNoFile(tool);
    ToolCapped(invoked, tool, None, None);
  }

  lemma ReaderIsNoFile(tool: string)
    requires IsStateReader(tool)
    ensures !("fs." <= tool)
  {
    hide IsStateReader;
    ReaderShapes(tool);
    assert "fs."[0] == 'f';
  }

  /** Reading files, directories or the state of the system is never answered from a cache. */
  lemma ReadersNeverReplayed(log: Ledger, e: Event, call: ToolCall)
    requires Follows(log, e) && e.keys == KeysOf(call)
    requires Trim(call.name) in ["fs.list", "fs.read", "scheduler.list", "policy.list", "config.get", "session.list",
                                 "agent.list", "run.list", "run.get", "metrics.get"]
    ensures e.disposition !in {SuccessReplayed, FailureReplayed}
  {
    hide Trim;
    NothingCachedUnderNoKey(log);
    assert IsUncacheable(Trim(call.name));
  }

  /** What distinguishes the stored outcomes of cacheable calls. */
  datatype Target = Request(request: string) | Memory(subject: string) | Plain(tool: string, raw: string)

  function TargetOf(call: ToolCall): Target {
    var name := Trim(call.name);
    if (name == "http.request" || name == "net.fetch") && call.args.request.Some? then Request(call.args.request.value)
    else if name == "memory.write" && call.args.subject.Some? then Memory(call.args.subject.value)
    else Plain(call.name, call.args.raw)
  }

  /** Cacheable calls share an outcome only if they are the same request, write the same memory, or have the same name
      and arguments; but a call whose arguments could not be read may share one with a readable call of its tool. */
  lemma CacheKeyTells(a: ToolCall, b: ToolCall)
    requires KeysOf(a).cache == KeysOf(b).cache != NO_CACHE_KEY && NoBar(a.name) && NoBar(b.name)
    ensures TargetOf(a) == TargetOf(b) || Unreadable(a, TargetOf(b)) || Unreadable(b, TargetOf(a))
  {
    hide IsUncacheable, Trim, OneShotKey, GuardOf, StableKey, CreationKey;
    assert CacheKey(a.name, a.args) == TargetKey(TargetOf(a)) && CacheKey(b.name, b.args) == TargetKey(TargetOf(b)) by {
      KeyOfTarget(a);
      KeyOfTarget(b);
    }
    var x, y := KeyParts(TargetOf(a)), KeyParts(TargetOf(b));
    assert "http.request" + "|" == "http.request|" && "memory.write" + "|" == "memory.write|";
    assert NoBar("http.request") && NoBar("memory.write");
    assert "http.request"[0] == 'h' && "memory.write"[0] == 'm';
    SplitAtBar(x.0, x.1, y.0, y.1);
  }

  /** The call is not readable as what it is called, and its text is the target. */
  predicate Unreadable(call: ToolCall, target: Target) {
    match target
    case Request(request) => TargetOf(call) == Plain("http.request", request)
    case Memory(subject) => TargetOf(call) == Plain("memory.write", subject)
    case Plain(_, _) => false
  }

  function KeyParts(target: Target): (string, string) {
    match target
    case Request(request) => ("http.request", request)
    case Memory(subject) => ("memory.write", subject)
    case Plain(tool, raw) => (tool, raw)
  }

  function TargetKey(target: Target): string {
    KeyParts(target).0 + "|" + KeyParts(target).1
  }

  lemma KeyOfTarget(call: ToolCall)
    requires KeysOf(call).cache != NO_CACHE_KEY
    ensures CacheKey(call.name, call.args) == TargetKey(TargetOf(call))
  {
    hide IsUncacheable, Trim;
    assert "http.request" + "|" == "http.request|" && "memory.write" + "|" == "memory.write|";
  }

  /** Two calls have nothing in common that a run could hold against the second. */
  predicate Unrelated(keys: Keys, earlier: Keys) {
    && (keys.cache != NO_CACHE_KEY ==> earlier.cache != keys.cache)
    && (keys.shot.Some? ==> earlier.shot != keys.shot)
    && (keys.guard.Some? ==>
          && (earlier.guard.Some? ==> earlier.guard.value.key != keys.guard.value.key)
          && earlier.creation != Some(keys.guard.value.key) && keys.guard.value.key != CREATION_TOTAL)
    && (keys.creates ==> !earlier.creates && (earlier.guard.Some? ==> !IsCreationKey(earlier.guard.value.key)))
  }

  lemma {:induction false} NoHistory(log: Ledger, subject: Subject)
    requires forall e :: e in log ==> !Concerns(e.keys, subject)
    ensures History(log, subject) == []
  {
    hide Concerns;
    if log != [] {
      assert Last(log) in log;
      NoHistory(Init(log), subject);
    }
  }

  lemma {:induction false} NoAttempts(log: Ledger, key: string)
    requires forall e :: e in log ==> Bumps(e.keys, e.disposition, key) == 0
    ensures Attempts(log, key) == 0
  {
    hide Bumps;
    if log != [] {
      assert Last(log) in log;
      NoAttempts(Init(log), key);
    }
  }

  lemma GuardCapPositive(call: ToolCall)
    ensures KeysOf(call).guard.Some? ==> KeysOf(call).guard.value.cap >= 1
  {
    hide Trim, IsOneShotTool, IsStateReader;
  }

  /** Nothing stands in the way of a new call: unrelated to all earlier ones it is handed to the real executor. */
  lemma NewCallExecuted(log: Ledger, call: ToolCall)
    requires forall e :: e in log ==> Unrelated(KeysOf(call), e.keys)
    ensures Decide(log, KeysOf(call)) == Executed
  {
    var keys := KeysOf(call);
    GuardCapPositive(call);
    KeysApart(call);
    hide KeysOf, History, Attempts, IsCreationKey;
    NothingCachedUnderNoKey(log);
    TotalIsCreationKey();
    if keys.cache != NO_CACHE_KEY {
      NoHistory(log, Cached(keys.cache));
    }
    if keys.shot.Some? {
      NoHistory(log, OneShot(keys.shot.value));
    }
    if keys.guard.Some? {
      NoAttempts(log, keys.guard.value.key);
    }
    if keys.creates {
      NoAttempts(log, CREATION_TOTAL);
      if keys.creation.Some? {
        NoAttempts(log, keys.creation.value);
      }
    }
  }
}
