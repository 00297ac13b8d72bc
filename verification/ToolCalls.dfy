/** Tool calls, their results, and the keys under which a run recognises "the same call again". */
module ToolCalls {
  import opened Strings

  /** A call's JSON arguments. The normalised parts are what the key functions extract from the
      parsed JSON; they are arbitrary here and absent when parsing or a required field fails. */
  datatype Arguments = Arguments(
    raw: string,
    mutation: Option<string>,  // target of a one-shot mutation
    subject: Option<string>,   // subject of a message, subagent run, memory write or shell command
    request: Option<string>,   // method, URL and body of an HTTP request
    path: string,              // file path, "" when absent
    agentId: string            // "agent_id" field, "" when absent
  )

  datatype ToolCall = ToolCall(id: string, name: string, args: Arguments)

  datatype ToolResult = ToolResult(id: string, output: string, error: string) {
    predicate Succeeded() {
      Trim(error) == ""
    }

    predicate SameFailure(other: ToolResult) {
      !Succeeded() && !other.Succeeded() && Trim(error) == Trim(other.error)
    }
  }

  const REPETITION := "repetition detected"

  /** Results that only say a call was blocked as a repetition; they count neither as success nor failure. */
  predicate IsRepetitionNotice(error: string) {
    Contains(Lower(Trim(error)), REPETITION)
  }

  function RepetitionNotice(what: string): string {
    REPETITION + ": " + what
  }

  lemma RepetitionNoticeRecognised(what: string)
    ensures IsRepetitionNotice(RepetitionNotice(what))
    ensures Contains(RepetitionNotice(what), REPETITION)
    ensures Trim(RepetitionNotice(what)) != ""
  {
    var s := RepetitionNotice(what);
    assert OccursAt(s, REPETITION, 0);
    assert REPETITION[0] == 'r' && REPETITION[|REPETITION| - 1] == 'd';
    TrimKeepsPrefix(s, REPETITION);
    LowerContainsPrefix(Trim(s), REPETITION);
  }

  /** A text that speaks of repetition is recognised, whatever white space surrounds it. */
  lemma RepetitionIsNoticed(error: string)
    requires Contains(error, REPETITION)
    ensures IsRepetitionNotice(error)
  {
    var i: nat :| i <= |error| && OccursAt(error, REPETITION, i);
    assert REPETITION[0] == 'r' && REPETITION[|REPETITION| - 1] == 'd';
    var at := TrimKeepsWord(error, REPETITION, i);
    LowerKeepsWord(Trim(error), REPETITION, at);
  }

  const CREATION_WORDS := "agent creation"
  const LIMIT_NOTICE := CREATION_WORDS + " limit reached"

  lemma LimitNoticeLetters()
    ensures var s := LIMIT_NOTICE;
            && |s| == 28 && !IsSpace(s[0]) && !IsSpace(s[27])
            && forall k :: 2 <= k < 12 ==> s[k] != 'p' && s[k] != 'P'
  {
    var words, rest := CREATION_WORDS, " limit reached";
    assert |words| == 14 && |rest| == 14 && rest[13] == 'd' && words[0] == 'a';
    assert words[2] == 'e' && words[3] == 'n' && words[4] == 't' && words[5] == ' ' && words[6] == 'c'
           && words[7] == 'r' && words[8] == 'e' && words[9] == 'a' && words[10] == 't' && words[11] == 'i';
  }

  /** The notice of the creation limit counts as a failure. */
  lemma LimitNoticeIsFailure()
    ensures !IsRepetitionNotice(LIMIT_NOTICE) && Trim(LIMIT_NOTICE) == LIMIT_NOTICE
  {
    LimitNoticeLetters();
    NoRepetitionIn(LIMIT_NOTICE);
  }

  /** A text of this length without the third letter of the word where it would have to be. */
  lemma NoRepetitionIn(s: string)
    requires |s| == 28 && !IsSpace(s[0]) && !IsSpace(s[27])
    requires forall k :: 2 <= k < 12 ==> s[k] != 'p' && s[k] != 'P'
    ensures !IsRepetitionNotice(s) && Trim(s) == s
  {
    assert [] + s + [] == s;
    TrimBetween([], s, []);
    hide Trim;
    assert |REPETITION| == 19 && REPETITION[2] == 'p';
    forall i: nat | i + |REPETITION| <= |s|
      ensures !OccursAt(Lower(s), REPETITION, i)
    {
      assert Lower(s)[i..i + |REPETITION|][2] == Lower(s)[i + 2] == LowerChar(s[i + 2]);
    }
  }

  datatype ToolRecord = ToolRecord(request: ToolCall, result: ToolResult)

  /** At most `cap` attempts may be made under `key`. */
  datatype Guard = Guard(key: string, cap: nat)

  const IDENTITY_SET := "agent.identity.set"
  const CREATION_TOTAL := "agent.create|total"
  const CREATION_GLOBAL_CAP := 8
  const NO_CACHE_KEY := "|"
  const MARKDOWN := ".md"

  predicate IsOneShotTool(name: string) {
    name == "scheduler.add" || name == "scheduler.remove" || name == "scheduler.pause" || name == "scheduler.resume" ||
    name == "policy.grant" || name == "policy.revoke" || name == "session.close" || name == "agent.switch" ||
    name == IDENTITY_SET || name == "config.set"
  }

  predicate IsStateReader(name: string) {
    name == "scheduler.list" || name == "policy.list" || name == "config.get" || name == "session.list" ||
    name == "agent.list" || name == "run.list" || name == "run.get" || name == "metrics.get"
  }

  predicate IsCreation(name: string) {
    name == "agent.create" || name == "agents.create"
  }

  function OneShotKey(tool: string, args: Arguments): Option<string> {
    var name := Trim(tool);
    if IsOneShotTool(name) && args.mutation.Some? then Some(name + "|" + args.mutation.value) else None
  }

  function PathCap(tool: string, path: string): nat {
    var lower := Lower(Trim(path));
    var journal := Contains(lower, "journal") || Contains(lower, "diary");
    var buildLog := Contains(lower, "build_log");
    var spec := HasSuffix(lower, "_spec" + MARKDOWN) || HasSuffix(lower, "/spec" + MARKDOWN);
    if tool == "fs.append" then (if buildLog then 16 else if journal then 24 else 16)
    else if tool == "fs.write" then (if buildLog then 6 else if journal then 4 else 12)
    else if buildLog || spec then 6
    else if journal then 4
    else 6
  }

  function SubjectGuard(name: string, args: Arguments, cap: nat): Option<Guard> {
    if args.subject.Some? then Some(Guard(name + "|" + args.subject.value, cap)) else None
  }

  function RepetitionKey(tool: string, args: Arguments): Option<Guard> {
    var name := Trim(tool);
    var here := if args.path == "" then "." else args.path;
    match OneShotKey(tool, args)
    case Some(key) => Some(Guard(key, if name == IDENTITY_SET then 2 else 1))
    case None =>
      if name == "agent.message.send" || name == "agent.run" then SubjectGuard(name, args, 1)
      else if name == "agent.message.inbox" || name == "memory.write" then SubjectGuard(name, args, 2)
      else if IsStateReader(name) then Some(Guard(name, 3))
      else if "becomussy." <= name then
        var writes := HasSuffix(name, ".create") || HasSuffix(name, ".propose") || HasSuffix(name, ".reinforce");
        Some(Guard(name + "|" + args.raw, if writes then 2 else 6))
      else if name == "fs.list" then Some(Guard(name + "|" + here, 4))
      else if name == "fs.mkdir" then Some(Guard(name + "|" + here, 1))
      else if name == "shell.exec" then SubjectGuard(name, args, 3)
      else if name in ["fs.write", "fs.append", "fs.read"] && args.path != "" then
        Some(Guard(name + "|" + args.path, PathCap(name, args.path)))
      else None
  }

  /** The repetition guard a call has to pass: one-shot mutations other than identity changes skip it. */
  function GuardOf(tool: string, args: Arguments): Option<Guard> {
    if OneShotKey(tool, args).Some? && tool != IDENTITY_SET then None else RepetitionKey(tool, args)
  }

  predicate IsUncacheable(name: string) {
    name == "fs.list" || name == "fs.read" || IsStateReader(name) || "becomussy." <= name
  }

  function CacheKey(tool: string, args: Arguments): string {
    var name := Trim(tool);
    if IsUncacheable(name) then NO_CACHE_KEY
    else if (name == "http.request" || name == "net.fetch") && args.request.Some? then
      "http.request|" + args.request.value
    else if name == "memory.write" && args.subject.Some? then "memory.write|" + args.subject.value
    else tool + "|" + args.raw
  }

  /** Key under which unchanged output of an uncacheable call is noticed. */
  function StableKey(tool: string, args: Arguments): string {
    tool + "|" + args.raw
  }

  function CreationKey(tool: string, args: Arguments): Option<string> {
    if IsCreation(tool) && args.agentId != "" then Some(tool + "|" + args.agentId) else None
  }

  /** All the keys of one call. */
  datatype Keys = Keys(
    cache: string,
    shot: Option<string>,
    guard: Option<Guard>,
    creates: bool,
    creation: Option<string>,
    stable: string
  )

  function KeysOf(call: ToolCall): Keys {
    KeysFor(call.name, call.args)
  }

  function KeysFor(tool: string, args: Arguments): Keys {
    Keys(CacheKey(tool, args), OneShotKey(tool, args), GuardOf(tool, args), IsCreation(tool), CreationKey(tool, args),
         StableKey(tool, args))
  }

  lemma OneShotToolNames(name: string)
    requires IsOneShotTool(name)
    ensures |name| == 10 || |name| >= 12
    ensures name[0] in {'s', 'p', 'a', 'c'}
    ensures |name| == 10 ==> name[7] == 's'
    ensures |name| == 12 ==> name[0] != 's'
    ensures |name| != 14
    ensures name[0] == 'a' && |name| <= 13 ==> name[|name| - 1] == 'h'
  {
  }

  lemma StateReaderNames(name: string)
    requires IsStateReader(name)
    ensures 0 < |name| < 12 || (|name| == 12 && name[0] == 's') || |name| == 14
    ensures |name| == 10 ==> name[7] in {'g', 'i'}
    ensures name[0] == 'a' ==> |name| == 10
  {
  }

  /** Every one-shot mutation is cacheable, so its success is always remembered. */
  lemma OneShotIsCacheable(tool: string, args: Arguments)
    requires OneShotKey(tool, args).Some?
    ensures CacheKey(tool, args) != NO_CACHE_KEY
  {
    var name := Trim(tool);
    OneShotToolNames(name);
    if IsStateReader(name) {
      StateReaderNames(name);
      assert false;
    }
    assert !IsUncacheable(name);
    assert |tool| >= 1;
    assert |CacheKey(tool, args)| >= 2;
  }

  lemma CreationNames(name: string)
    requires IsCreation(name)
    ensures |name| in {12, 13} && name[0] == 'a' && name[|name| - 1] == 'e'
    ensures Trim(name) == name
  {
  }

  /** Agent creation has its own counters and passes no repetition guard. */
  lemma CreationIsUnguarded(tool: string, args: Arguments)
    requires IsCreation(tool)
    ensures GuardOf(tool, args) == None
  {
    var name := tool;
    CreationNames(name);
    if IsOneShotTool(name) {
      OneShotToolNames(name);
      assert false;
    }
    if IsStateReader(name) {
      StateReaderNames(name);
      assert false;
    }
  }

  const CREATE := "agent.create|"
  const CREATES := "agents.create|"

  /** A key under which attempts to create an agent are counted. */
  predicate IsCreationKey(key: string) {
    CREATE <= key || CREATES <= key
  }

  /** Agent creation is cached under its tool name and arguments, and is no one-shot mutation. */
  lemma CreationIsCached(tool: string, args: Arguments)
    requires IsCreation(tool)
    ensures CacheKey(tool, args) == tool + "|" + args.raw && OneShotKey(tool, args) == None
  {
    CreationNames(tool);
    if IsOneShotTool(tool) {
      OneShotToolNames(tool);
      assert false;
    }
    if IsStateReader(tool) {
      StateReaderNames(tool);
      assert false;
    }
  }

  /** The names of guarded tools part from the two creation keys at the sixth or seventh character. */
  predicate NotCreationName(name: string) {
    name != "" && (name[0] != 'a' || (|name| >= 7 && name[5] == '.' && name[6] != 'c'))
  }

  lemma NotCreationKey(name: string, rest: string)
    requires NotCreationName(name)
    ensures !IsCreationKey(name + rest)
  {
    assert CREATE[0] == CREATES[0] == 'a' && CREATE[6] == 'c' && CREATES[5] == 's';
    assert (name + rest)[0] == name[0];
    if |name| >= 7 {
      assert (name + rest)[5] == name[5] && (name + rest)[6] == name[6];
    }
  }

  lemma OneShotNamesDiffer(name: string)
    requires IsOneShotTool(name) || IsStateReader(name)
    ensures NotCreationName(name)
  {
  }

  lemma SubjectNamesDiffer(name: string)
    requires name in ["agent.message.send", "agent.run", "agent.message.inbox", "memory.write", "shell.exec", "fs.list",
                      "fs.mkdir", "fs.write", "fs.append", "fs.read"]
    ensures NotCreationName(name)
  {
  }

  lemma PluginNamesDiffer(name: string)
    requires "becomussy." <= name
    ensures NotCreationName(name)
  {
    assert name[0] == "becomussy."[0];
  }

  /** The key of a repetition guard starts with the name of a tool that is guarded. */
  lemma GuardKeyStarts(tool: string, args: Arguments)
    requires RepetitionKey(tool, args).Some?
    ensures Trim(tool) <= RepetitionKey(tool, args).value.key && NotCreationName(Trim(tool))
  {
    hide IsOneShotTool, IsStateReader, NotCreationName, PathCap, HasSuffix, Trim;
    var name := Trim(tool);
    if IsOneShotTool(name) || IsStateReader(name) {
      OneShotNamesDiffer(name);
    } else if "becomussy." <= name {
      PluginNamesDiffer(name);
    } else {
      SubjectNamesDiffer(name);
    }
  }

  /** No repetition guard counts under a creation key. */
  lemma GuardKeysApart(tool: string, args: Arguments)
    ensures var guard := GuardOf(tool, args); guard.Some? ==> !IsCreationKey(guard.value.key)
  {
    hide IsCreationKey, NotCreationName, RepetitionKey, Trim;
    if GuardOf(tool, args).Some? {
      GuardKeyStarts(tool, args);
      var name, key := Trim(tool), RepetitionKey(tool, args).value.key;
      NotCreationKey(name, key[|name|..]);
      assert name + key[|name|..] == key;
    }
  }

  /** What the ledger needs to know about keys. */
  lemma KeysOfCall(call: ToolCall)
    ensures KeysOf(call).creates ==> KeysOf(call).guard.None?
    ensures KeysOf(call).shot.Some? ==> KeysOf(call).cache != NO_CACHE_KEY
  {
    if IsCreation(call.name) {
      CreationIsUnguarded(call.name, call.args);
    }
    if OneShotKey(call.name, call.args).Some? {
      OneShotIsCacheable(call.name, call.args);
    }
  }
}
