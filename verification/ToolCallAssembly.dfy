/** Putting the tool calls of a streamed model response together from their pieces.

    The specification is told by the pieces alone: `RoutedLog` gives each piece the index of its call, `OrderOf`
    and `CallAt` the calls that result. The class keeps maps and counters instead, as the source does. */
module ToolCallAssembly {
  import opened Strings

  datatype Call = Call(id: string, kind: string, name: string, arguments: string)

  datatype Delta = Delta(index: Option<int>, id: string, kind: string, name: string, arguments: string)

  /** The tool calls in one event: whole calls, which start anew, pieces, and those of a complete response, which
      are only used when there are no others. */
  datatype Update = Update(messageCalls: seq<Call>, deltaCalls: seq<Delta>, fallbackCalls: seq<Call>)

  /** A piece and the index of the call it went to. */
  datatype Routed = Routed(index: int, delta: Delta)

  const EMPTY_CALL: Call := Call("", "", "", "")

  function Init<T>(s: seq<T>): seq<T>
    requires s != []
  {
    s[..|s| - 1]
  }

  function Last<T>(s: seq<T>): T
    requires s != []
  {
    s[|s| - 1]
  }

  function Or(text: string, otherwise: string): string {
    if text != "" then text else otherwise
  }

  /** The call with the piece added. */
  function Merged(call: Call, delta: Delta): Call {
    Call(Or(Trim(delta.id), call.id), Or(Trim(delta.kind), call.kind), Or(Trim(delta.name), call.name),
         call.arguments + delta.arguments)
  }

  /** The pieces that arrived since the last whole calls. */
  function DeltasSinceReset(updates: seq<Update>): seq<Delta> {
    if updates == [] then []
    else
      var last := Last(updates);
      (if last.messageCalls != [] then [] else DeltasSinceReset(Init(updates))) + last.deltaCalls
  }

  /** The last whole calls. */
  function LastMessage(updates: seq<Update>): seq<Call> {
    if updates == [] then []
    else if Last(updates).messageCalls != [] then Last(updates).messageCalls
    else LastMessage(Init(updates))
  }

  /** The calls of the first complete response that has any. */
  function FirstFallback(updates: seq<Update>): seq<Call> {
    if updates == [] then []
    else
      var earlier := FirstFallback(Init(updates));
      if earlier != [] then earlier else Last(updates).fallbackCalls
  }

  /** The position of each id among the calls; a later call takes an id over. */
  function IndexesOf(calls: seq<Call>): map<string, int> {
    if calls == [] then map[]
    else
      var earlier, id := IndexesOf(Init(calls)), Trim(Last(calls).id);
      if id != "" then earlier[id := |calls| - 1] else earlier
  }

  /** The index last used with each id. */
  function Known(message: seq<Call>, log: seq<Routed>): map<string, int> {
    if log == [] then IndexesOf(message)
    else
      var earlier, id := Known(message, Init(log)), Trim(Last(log).delta.id);
      if id != "" then earlier[id := Last(log).index] else earlier
  }

  /** The least index from which on all are unused. */
  function Next(message: seq<Call>, log: seq<Routed>): int {
    if log == [] then |message|
    else
      var earlier := Next(message, Init(log));
      if Last(log).index >= earlier then Last(log).index + 1 else earlier
  }

  /** Where a piece goes after the whole calls and the earlier pieces. */
  function Target(message: seq<Call>, log: seq<Routed>, delta: Delta): int {
    match delta.index
    case Some(index) => index
    case None =>
      var id := Trim(delta.id);
      if id != "" && id in Known(message, log) then Known(message, log)[id] else Next(message, log)
  }

  function RoutedLog(message: seq<Call>, deltas: seq<Delta>): (log: seq<Routed>)
    ensures |log| == |deltas|
  {
    if deltas == [] then []
    else
      var earlier := RoutedLog(message, Init(deltas));
      earlier + [Routed(Target(message, earlier, Last(deltas)), Last(deltas))]
  }

  /** The indexes of the calls: those of the whole calls, then the others as they first occur. */
  function OrderOf(message: seq<Call>, log: seq<Routed>): seq<int> {
    if log == [] then seq(|message|, i => i)
    else
      var earlier := OrderOf(message, Init(log));
      if Last(log).index in earlier then earlier else earlier + [Last(log).index]
  }

  /** The call at an index after all pieces. */
  function CallAt(message: seq<Call>, log: seq<Routed>, index: int): Call {
    if log == [] then if 0 <= index < |message| then message[index] else EMPTY_CALL
    else
      var earlier := CallAt(message, Init(log), index);
      if Last(log).index == index then Merged(earlier, Last(log).delta) else earlier
  }

  function CallsOf(message: seq<Call>, log: seq<Routed>): seq<Call> {
    var order := OrderOf(message, log);
    seq(|order|, k requires 0 <= k < |order| => CallAt(message, log, order[k]))
  }

  /** The result of a whole stream. */
  function Assembled(updates: seq<Update>): seq<Call> {
    var message, deltas := LastMessage(updates), DeltasSinceReset(updates);
    if message == [] && deltas == [] then FirstFallback(updates) else CallsOf(message, RoutedLog(message, deltas))
  }

  /** All pieces of these events, in order. */
  function AllDeltas(updates: seq<Update>): seq<Delta> {
    if updates == [] then [] else updates[0].deltaCalls + AllDeltas(updates[1..])
  }

  ghost predicate NoWholeCalls(updates: seq<Update>) {
    forall u :: u in updates ==> u.messageCalls == []
  }

  lemma {:induction false} AllDeltasAppend(updates: seq<Update>, u: Update)
    ensures AllDeltas(updates + [u]) == AllDeltas(updates) + u.deltaCalls
  {
    if updates == [] {
      assert AllDeltas([u]) == u.deltaCalls + AllDeltas([]);
    } else {
      assert (updates + [u])[1..] == updates[1..] + [u];
      AllDeltasAppend(updates[1..], u);
    }
  }

  /** Of a stream the last event with whole calls counts, and the pieces from that event on. */
  lemma {:induction false} SinceReset(before: seq<Update>, u: Update, after: seq<Update>)
    requires u.messageCalls != [] && NoWholeCalls(after)
    ensures LastMessage(before + [u] + after) == u.messageCalls
    ensures DeltasSinceReset(before + [u] + after) == u.deltaCalls + AllDeltas(after)
    decreases |after|
  {
    var all := before + [u] + after;
    if after == [] {
      assert all == before + [u] && Init(all) == before;
    } else {
      assert Init(all) == before + [u] + Init(after) && Last(all) == Last(after) && Last(after) in after;
      SinceReset(before, u, Init(after));
      AllDeltasAppend(Init(after), Last(after));
      assert Init(after) + [Last(after)] == after;
    }
  }

  lemma {:induction false} WithoutReset(updates: seq<Update>)
    requires NoWholeCalls(updates)
    ensures LastMessage(updates) == [] && DeltasSinceReset(updates) == AllDeltas(updates)
    decreases |updates|
  {
    if updates != [] {
      assert Last(updates) in updates;
      WithoutReset(Init(updates));
      AllDeltasAppend(Init(updates), Last(updates));
      assert Init(updates) + [Last(updates)] == updates;
    }
  }

  lemma {:induction false} NoFallback(updates: seq<Update>)
    requires forall u :: u in updates ==> u.fallbackCalls == []
    ensures FirstFallback(updates) == []
    decreases |updates|
  {
    if updates != [] {
      assert Last(updates) in updates;
      NoFallback(Init(updates));
    }
  }

  /** The first complete response with calls stands in. */
  lemma {:induction false} FallbackIsFirst(before: seq<Update>, u: Update, after: seq<Update>)
    requires (forall v :: v in before ==> v.fallbackCalls == []) && u.fallbackCalls != []
    ensures FirstFallback(before + [u] + after) == u.fallbackCalls
    decreases |after|
  {
    var all := before + [u] + after;
    if after == [] {
      assert all == before + [u] && Init(all) == before;
      NoFallback(before);
    } else {
      assert Init(all) == before + [u] + Init(after);
      FallbackIsFirst(before, u, Init(after));
    }
  }

  /** Which events the result is made of: after the last event with whole calls, exactly its whole calls and all pieces
      from it on. */
  lemma AssembledSinceReset(before: seq<Update>, u: Update, after: seq<Update>)
    requires u.messageCalls != [] && NoWholeCalls(after)
    ensures Assembled(before + [u] + after)
            == CallsOf(u.messageCalls, RoutedLog(u.messageCalls, u.deltaCalls + AllDeltas(after)))
  {
    hide CallsOf;
    SinceReset(before, u, after);
  }

  /** And without whole calls all pieces, or the first complete response with calls if there is no piece. */
  lemma AssembledWithoutReset(updates: seq<Update>)
    requires NoWholeCalls(updates)
    ensures AllDeltas(updates) != [] ==> Assembled(updates) == CallsOf([], RoutedLog([], AllDeltas(updates)))
    ensures AllDeltas(updates) == [] ==> Assembled(updates) == FirstFallback(updates)
  {
    hide CallsOf;
    WithoutReset(updates);
  }

  /** The result lists the calls in the order in which their indexes first occur: more pieces only add at the end. */
  lemma {:induction false} OrderGrows(message: seq<Call>, log: seq<Routed>, n: nat)
    requires n <= |log|
    ensures OrderOf(message, log[..n]) <= OrderOf(message, log)
    ensures n < |log| ==> log[n].index in OrderOf(message, log[..n + 1])
    ensures |CallsOf(message, log)| == |OrderOf(message, log)|
    ensures forall k :: 0 <= k < |OrderOf(message, log)| ==>
              CallsOf(message, log)[k] == CallAt(message, log, OrderOf(message, log)[k])
    decreases |log|
  {
    hide CallAt;
    if n < |log| {
      OrderGrows(message, Init(log), n);
      assert Init(log)[..n] == log[..n];
      if n + 1 < |log| {
        assert Init(log)[..n + 1] == log[..n + 1];
      } else {
        assert log[..n + 1] == log;
      }
    } else {
      assert log[..n] == log;
    }
  }

  lemma {:induction false} RoutedPrefix(message: seq<Call>, deltas: seq<Delta>, k: nat)
    requires k <= |deltas|
    ensures RoutedLog(message, deltas)[..k] == RoutedLog(message, deltas[..k])
    decreases |deltas| - k
  {
    if k == |deltas| {
      assert deltas[..k] == deltas;
    } else {
      RoutedPrefix(message, deltas, k + 1);
      assert Init(deltas[..k + 1]) == deltas[..k];
      assert RoutedLog(message, deltas)[..k] == RoutedLog(message, deltas)[..k + 1][..k];
    }
  }

  /** A piece that has the id, and no later one does. */
  ghost predicate LatestPiece(log: seq<Routed>, id: string, j: nat) {
    j < |log| && Trim(log[j].delta.id) == id && forall i :: j < i < |log| ==> Trim(log[i].delta.id) != id
  }

  ghost predicate NoPiece(log: seq<Routed>, id: string) {
    forall i :: 0 <= i < |log| ==> Trim(log[i].delta.id) != id
  }

  /** A whole call that has the id, and no later one does. */
  ghost predicate LatestCall(calls: seq<Call>, id: string, j: nat) {
    j < |calls| && Trim(calls[j].id) == id && forall i :: j < i < |calls| ==> Trim(calls[i].id) != id
  }

  ghost predicate NoCall(calls: seq<Call>, id: string) {
    forall i :: 0 <= i < |calls| ==> Trim(calls[i].id) != id
  }

  lemma {:induction false} IndexesAreLatest(calls: seq<Call>, id: string)
    requires id != ""
    ensures if id in IndexesOf(calls) then IndexesOf(calls)[id] >= 0 && LatestCall(calls, id, IndexesOf(calls)[id])
            else NoCall(calls, id)
  {
    hide Trim;
    if calls != [] {
      IndexesAreLatest(Init(calls), id);
    }
  }

  /** What is known of an id is the index of the latest piece with it, or the position of the latest whole call. */
  lemma {:induction false} KnownIsLatest(message: seq<Call>, log: seq<Routed>, id: string)
    requires id != ""
    ensures id !in Known(message, log) <==> NoPiece(log, id) && NoCall(message, id)
    ensures forall j: nat :: LatestPiece(log, id, j) ==>
              id in Known(message, log) && Known(message, log)[id] == log[j].index
    ensures forall j: nat :: NoPiece(log, id) && LatestCall(message, id, j) ==>
              id in Known(message, log) && Known(message, log)[id] == j
  {
    hide Trim;
    if log == [] {
      IndexesAreLatest(message, id);
    } else {
      var n := |log| - 1;
      KnownIsLatest(message, Init(log), id);
      if Trim(log[n].delta.id) == id {
        assert !NoPiece(log, id);
      } else {
        assert NoPiece(log, id) <==> NoPiece(Init(log), id);
        forall j: nat | LatestPiece(log, id, j)
          ensures id in Known(message, log) && Known(message, log)[id] == log[j].index
        {
          assert LatestPiece(Init(log), id, j);
        }
      }
    }
  }

  /** Indexes from the next one on are free. */
  lemma {:induction false} NextIsUnused(message: seq<Call>, log: seq<Routed>)
    ensures |message| <= Next(message, log)
    ensures forall k :: 0 <= k < |log| ==> log[k].index < Next(message, log)
  {
    if log != [] {
      NextIsUnused(message, Init(log));
    }
  }

  /** A piece goes to its index; without one, to the call of the latest earlier piece with its id, or else to the
      latest whole call with it; and else to an index that nothing had before. */
  ghost predicate GoesTo(message: seq<Call>, earlier: seq<Routed>, delta: Delta, index: int) {
    var id := Trim(delta.id);
    if delta.index.Some? then index == delta.index.value
    else if id == "" || (NoPiece(earlier, id) && NoCall(message, id)) then
      index >= |message| && forall i :: 0 <= i < |earlier| ==> earlier[i].index < index
    else
      && (forall j: nat :: LatestPiece(earlier, id, j) ==> j < |earlier| && index == earlier[j].index)
      && (forall j: nat :: NoPiece(earlier, id) && LatestCall(message, id, j) ==> index == j)
  }

  lemma TargetGoesTo(message: seq<Call>, earlier: seq<Routed>, delta: Delta)
    ensures GoesTo(message, earlier, delta, Target(message, earlier, delta))
  {
    hide Trim, NoPiece, LatestCall, NoCall, Known, Next;
    NextIsUnused(message, earlier);
    if Trim(delta.id) != "" {
      KnownIsLatest(message, earlier, Trim(delta.id));
    }
  }

  /** Each piece of a stream goes where it belongs after the pieces before it. */
  lemma PieceGoesTo(message: seq<Call>, deltas: seq<Delta>, k: nat)
    requires k < |deltas|
    ensures RoutedLog(message, deltas)[k].delta == deltas[k]
    ensures GoesTo(message, RoutedLog(message, deltas)[..k], deltas[k], RoutedLog(message, deltas)[k].index)
  {
    hide Target, GoesTo;
    var log := RoutedLog(message, deltas);
    RoutedPrefix(message, deltas, k);
    RoutedPrefix(message, deltas, k + 1);
    assert Init(deltas[..k + 1]) == deltas[..k];
    assert log[k] == log[..k + 1][k];
    TargetGoesTo(message, log[..k], deltas[k]);
  }

  /** Some whole call or some piece has this index. */
  ghost predicate Used(message: seq<Call>, log: seq<Routed>, index: int) {
    0 <= index < |message| || exists k :: 0 <= k < |log| && log[k].index == index
  }

  /** The result has each used index exactly once. */
  lemma {:induction false} EachCallOnce(message: seq<Call>, log: seq<Routed>)
    ensures forall index :: index in OrderOf(message, log) <==> Used(message, log, index)
    ensures forall i, j :: 0 <= i < j < |OrderOf(message, log)| ==>
              OrderOf(message, log)[i] != OrderOf(message, log)[j]
    ensures |message| <= |OrderOf(message, log)| && forall i :: 0 <= i < |message| ==> OrderOf(message, log)[i] == i
  {
    var order := OrderOf(message, log);
    if log == [] {
      forall index
        ensures index in order <==> Used(message, log, index)
      {
        if 0 <= index < |message| {
          assert order[index] == index;
        }
      }
    } else {
      EachCallOnce(message, Init(log));
      forall index
        ensures index in order <==> Used(message, log, index)
      {
        assert index in order <==> index in OrderOf(message, Init(log)) || index == Last(log).index;
        if Used(message, log, index) && index != Last(log).index {
          assert Used(message, Init(log), index);
        }
        if Used(message, Init(log), index) && !(0 <= index < |message|) {
          var k :| 0 <= k < |Init(log)| && Init(log)[k].index == index;
          assert log[k].index == index;
        }
      }
    }
  }

  /** Nothing is lost, doubled or moved: the arguments of each call are those it had as a whole call, followed by
      exactly the pieces that went to it, in the order of their arrival. */
  lemma {:induction false} ArgumentsConserved(message: seq<Call>, log: seq<Routed>, index: int)
    ensures CallAt(message, log, index).arguments == StartText(message, index) + TextFor(log, index)
  {
    hide Trim;
    if log != [] {
      ArgumentsConserved(message, Init(log), index);
    }
  }

  function StartText(message: seq<Call>, index: int): string {
    if 0 <= index < |message| then message[index].arguments else ""
  }

  /** The pieces that went to the index, in the order of their arrival. */
  function TextFor(log: seq<Routed>, index: int): string {
    if log == [] then ""
    else TextFor(Init(log), index) + if Last(log).index == index then Last(log).delta.arguments else ""
  }

  datatype Field = IdField | KindField | NameField

  function FieldOf(call: Call, field: Field): string {
    match field
    case IdField => call.id
    case KindField => call.kind
    case NameField => call.name
  }

  /** What a piece says about a field, "" for nothing. */
  function WordOf(delta: Delta, field: Field): string {
    match field
    case IdField => Trim(delta.id)
    case KindField => Trim(delta.kind)
    case NameField => Trim(delta.name)
  }

  ghost predicate LatestWord(log: seq<Routed>, index: int, field: Field, j: nat) {
    && j < |log| && log[j].index == index && WordOf(log[j].delta, field) != ""
    && forall i :: j < i < |log| && log[i].index == index ==> WordOf(log[i].delta, field) == ""
  }

  ghost predicate NoWord(log: seq<Routed>, index: int, field: Field) {
    forall i :: 0 <= i < |log| && log[i].index == index ==> WordOf(log[i].delta, field) == ""
  }

  lemma MergedWord(call: Call, delta: Delta, field: Field)
    ensures FieldOf(Merged(call, delta), field) == Or(WordOf(delta, field), FieldOf(call, field))
  {
  }

  /** The id, kind and name of a call are the last ones that a piece gave it, else those of the whole call. */
  lemma {:induction false} LatestWordStays(message: seq<Call>, log: seq<Routed>, index: int, field: Field)
    ensures forall j: nat :: LatestWord(log, index, field, j) ==>
              FieldOf(CallAt(message, log, index), field) == WordOf(log[j].delta, field)
    ensures NoWord(log, index, field) ==>
              FieldOf(CallAt(message, log, index), field) == FieldOf(CallAt(message, [], index), field)
  {
    hide WordOf, FieldOf, Merged;
    if log != [] {
      LatestWordStays(message, Init(log), index, field);
      MergedWord(CallAt(message, Init(log), index), Last(log).delta, field);
      forall j: nat | LatestWord(log, index, field, j)
        ensures FieldOf(CallAt(message, log, index), field) == WordOf(log[j].delta, field)
      {
        if j < |log| - 1 {
          assert LatestWord(Init(log), index, field, j);
        }
      }
    }
  }

  lemma {:induction false} UnusedIsEmpty(message: seq<Call>, log: seq<Routed>, index: int)
    requires index !in OrderOf(message, log)
    ensures CallAt(message, log, index) == EMPTY_CALL
  {
    if log == [] {
      EachCallOnce(message, log);
      assert !Used(message, log, index);
    } else {
      UnusedIsEmpty(message, Init(log), index);
    }
  }

  lemma {:induction false} IndexesInRange(calls: seq<Call>)
    ensures forall id :: id in IndexesOf(calls) ==> 0 <= IndexesOf(calls)[id] < |calls|
  {
    if calls != [] {
      IndexesInRange(Init(calls));
    }
  }

  lemma {:induction false} BelowNext(message: seq<Call>, log: seq<Routed>)
    ensures forall index :: index in OrderOf(message, log) ==> index < Next(message, log)
    ensures forall id :: id in Known(message, log) ==> Known(message, log)[id] < Next(message, log)
  {
    hide Trim;
    if log == [] {
      IndexesInRange(message);
    } else {
      BelowNext(message, Init(log));
    }
  }

  /** The map and the order hold the calls of the specification. */
  ghost predicate Holds(byIndex: map<int, Call>, order: seq<int>, message: seq<Call>, log: seq<Routed>) {
    && order == OrderOf(message, log)
    && (forall index :: index in byIndex <==> index in order)
    && (forall index :: index in byIndex ==> byIndex[index] == CallAt(message, log, index))
  }

  lemma HoldsMore(byIndex: map<int, Call>, order: seq<int>, message: seq<Call>, log: seq<Routed>, routed: Routed)
    requires Holds(byIndex, order, message, log)
    ensures var index, known := routed.index, routed.index in byIndex;
            Holds(byIndex[index := Merged(if known then byIndex[index] else EMPTY_CALL, routed.delta)],
                  if known then order else order + [index], message, log + [routed])
  {
    hide Merged;
    assert Init(log + [routed]) == log;
    if routed.index !in byIndex {
      UnusedIsEmpty(message, log, routed.index);
    }
  }

  lemma HoldsWhole(byIndex: map<int, Call>, order: seq<int>, calls: seq<Call>)
    requires |order| == |calls| && (forall k :: 0 <= k < |calls| ==> order[k] == k)
    requires forall index :: index in byIndex <==> 0 <= index < |calls|
    requires forall k :: 0 <= k < |calls| ==> byIndex[k] == calls[k]
    ensures Holds(byIndex, order, calls, [])
    ensures Known(calls, []) == IndexesOf(calls) && Next(calls, []) == |calls|
  {
    assert order == OrderOf(calls, []);
    forall index
      ensures index in byIndex <==> index in order
    {
      if index in byIndex {
        assert order[index] == index;
      }
    }
  }

  lemma RoutedMore(message: seq<Call>, log: seq<Routed>, routed: Routed)
    ensures Known(message, log + [routed])
            == if Trim(routed.delta.id) == "" then Known(message, log)
               else Known(message, log)[Trim(routed.delta.id) := routed.index]
    ensures Next(message, log + [routed])
            == if routed.index >= Next(message, log) then routed.index + 1 else Next(message, log)
  {
    hide Trim;
    assert Init(log + [routed]) == log;
  }

  lemma NoIndexes(calls: seq<Call>)
    ensures IndexesOf(calls[..0]) == map[]
  {
  }

  lemma IndexesMore(calls: seq<Call>, i: nat)
    requires i < |calls|
    ensures IndexesOf(calls[..i + 1])
            == if Trim(calls[i].id) == "" then IndexesOf(calls[..i]) else IndexesOf(calls[..i])[Trim(calls[i].id) := i]
  {
    hide Trim;
    assert Init(calls[..i + 1]) == calls[..i];
  }

  class Assembly {
    var byIndex: map<int, Call>
    var order: seq<int>
    var indexById: map<string, int>
    var nextIndex: int
    ghost var message: seq<Call>   // the whole calls since which pieces are collected
    ghost var log: seq<Routed>     // the pieces since then

    /** The maps and counters are those of the specification. */
    ghost predicate Valid()
      reads this
    {
      && Holds(byIndex, order, message, log)
      && indexById == Known(message, log) && nextIndex == Next(message, log)
    }

    constructor ()
      ensures Valid() && message == [] && log == []
    {
      byIndex, order, indexById, nextIndex, message, log := map[], [], map[], 0, [], [];
    }

    /** Whole calls replace everything collected so far. */
    method Reset(calls: seq<Call>)
      modifies this
      ensures Valid() && message == calls && log == []
      ensures |order| == |calls| && forall k :: 0 <= k < |calls| ==> order[k] == k
      ensures forall k :: 0 <= k < |calls| ==> k in byIndex && byIndex[k] == calls[k]
      ensures indexById == IndexesOf(calls) && nextIndex == |calls|
    {
      hide Trim, Holds, Known, Next, IndexesOf;
      byIndex, order, indexById, nextIndex := map[], [], map[], 0;
      NoIndexes(calls);
      for i := 0 to |calls|
        invariant nextIndex == i && indexById == IndexesOf(calls[..i])
        invariant |order| == i && forall k :: 0 <= k < i ==> order[k] == k
        invariant forall index :: index in byIndex <==> 0 <= index < i
        invariant forall k :: 0 <= k < i ==> byIndex[k] == calls[k]
      {
        IndexesMore(calls, i);
        byIndex := byIndex[i := calls[i]];
        order := order + [i];
        var id := Trim(calls[i].id);
        if id != "" {
          indexById := indexById[id := i];
        }
        nextIndex := i + 1;
      }
      assert calls[..|calls|] == calls;
      HoldsWhole(byIndex, order, calls);
      message, log := calls, [];
    }

    /** Advances to the first free index. */
    method SkipTaken()
      modifies `nextIndex
      ensures nextIndex !in byIndex && nextIndex >= old(nextIndex)
      ensures forall index :: old(nextIndex) <= index < nextIndex ==> index in byIndex
    {
      while nextIndex in byIndex
        invariant nextIndex >= old(nextIndex)
        invariant forall index :: old(nextIndex) <= index < nextIndex ==> index in byIndex
        decreases set index | index in byIndex && index >= nextIndex
      {
        ghost var before := set index | index in byIndex && index >= nextIndex;
        assert nextIndex in before;
        nextIndex := nextIndex + 1;
      }
    }

    /** The call that a piece belongs to: the one with its index, else the one known by its id, else a new one. */
    method Route(delta: Delta) returns (index: int)
      requires Valid()
      modifies `nextIndex, `indexById
      ensures index == Target(message, log, delta)
      ensures indexById == if delta.index.None? && Trim(delta.id) != "" then old(indexById)[Trim(delta.id) := index]
                           else old(indexById)
      ensures nextIndex == if index >= old(nextIndex) then index + 1 else old(nextIndex)
    {
      hide Trim;
      BelowNext(message, log);
      assert nextIndex !in byIndex;
      ghost var free := nextIndex;
      var callId := Trim(delta.id);
      if delta.index.Some? {
        index := delta.index.value;
        if index >= nextIndex {
          nextIndex := index + 1;
        }
      } else if callId != "" {
        if callId in indexById {
          index := indexById[callId];
        } else {
          SkipTaken();
          assert nextIndex == free;
          index := nextIndex;
          nextIndex := nextIndex + 1;
          indexById := indexById[callId := index];
        }
      } else {
        SkipTaken();
        assert nextIndex == free;
        index := nextIndex;
        nextIndex := nextIndex + 1;
      }
    }

    /** Adds one piece to its call. */
    method Add(delta: Delta) returns (index: int)
      requires Valid()
      modifies this
      ensures Valid() && message == old(message)
      ensures index == Target(message, old(log), delta) && log == old(log) + [Routed(index, delta)]
      ensures byIndex == old(byIndex)[index := Merged(if index in old(byIndex) then old(byIndex)[index]
                                                      else EMPTY_CALL, delta)]
      ensures order == if index in old(byIndex) then old(order) else old(order) + [index]
      ensures indexById == if Trim(delta.id) == "" then old(indexById) else old(indexById)[Trim(delta.id) := index]
      ensures nextIndex == if index >= old(nextIndex) then index + 1 else old(nextIndex)
    {
      hide Trim, Holds, Target, OrderOf, CallAt, Merged, Known, Next;
      index := Route(delta);
      var callId := Trim(delta.id);
      var call := EMPTY_CALL;
      if index in byIndex {
        call := byIndex[index];
      } else {
        order := order + [index];
      }
      if callId != "" {
        indexById := indexById[callId := index];
      }
      call := AddFields(call, delta);
      HoldsMore(byIndex, old(order), message, log, Routed(index, delta));
      byIndex := byIndex[index := call];
      RoutedMore(message, log, Routed(index, delta));
      log := log + [Routed(index, delta)];
    }

    method AddFields(call: Call, delta: Delta) returns (r: Call)
      ensures r == Merged(call, delta)
    {
      hide Trim;
      r := call;
      var id := Trim(delta.id);
      if id != "" {
        r := r.(id := id);
      }
      var kind := Trim(delta.kind);
      if kind != "" {
        r := r.(kind := kind);
      }
      var name := Trim(delta.name);
      if name != "" {
        r := r.(name := name);
      }
      if delta.arguments != "" {
        r := r.(arguments := r.arguments + delta.arguments);
      }
    }

    /** The calls in the order of their first appearance. */
    method Collect() returns (calls: seq<Call>)
      requires Valid()
      ensures calls == CallsOf(message, log)
    {
      calls := [];
      for k := 0 to |order|
        invariant calls == CallsOf(message, log)[..k]
      {
        assert order[k] in order;
        calls := calls + [byIndex[order[k]]];
      }
    }
  }

  /** The pieces of one event. */
  method AddAll(a: Assembly, deltas: seq<Delta>, ghost earlier: seq<Delta>)
    requires a.Valid() && a.log == RoutedLog(a.message, earlier)
    modifies a
    ensures a.Valid() && a.message == old(a.message) && a.log == RoutedLog(a.message, earlier + deltas)
  {
    hide Holds, Merged, Trim, Target, Known, Next;
    assert earlier + deltas[..0] == earlier;
    for i := 0 to |deltas|
      invariant a.Valid() && a.message == old(a.message)
      invariant a.log == RoutedLog(a.message, earlier + deltas[..i])
    {
      assert Init(earlier + deltas[..i + 1]) == earlier + deltas[..i];
      var index := a.Add(deltas[i]);
    }
    assert deltas[..|deltas|] == deltas;
  }

  /** All events of a stream: each piece since the last whole calls goes to its call, in the order of arrival, and
      each call is listed once; without any call the first complete response with calls is the result. */
  method Assemble(updates: seq<Update>) returns (calls: seq<Call>)
    ensures calls == Assembled(updates)
  {
    hide Holds, Known, Next, RoutedLog, OrderOf, CallAt;
    var a := new Assembly();
    var fallbackCalls: seq<Call> := [];
    NothingRouted([]);
    for i := 0 to |updates|
      invariant fresh(a) && a.Valid() && a.message == LastMessage(updates[..i])
      invariant a.log == RoutedLog(a.message, DeltasSinceReset(updates[..i]))
      invariant fallbackCalls == FirstFallback(updates[..i])
    {
      assert Init(updates[..i + 1]) == updates[..i];
      if fallbackCalls == [] && updates[i].fallbackCalls != [] {
        fallbackCalls := updates[i].fallbackCalls;
      }
      ghost var earlier := DeltasSinceReset(updates[..i]);
      if updates[i].messageCalls != [] {
        a.Reset(updates[i].messageCalls);
        NothingRouted(a.message);
        earlier := [];
      }
      AddAll(a, updates[i].deltaCalls, earlier);
    }
    assert updates[..|updates|] == updates;
    calls := a.Collect();
    NoCallsIff(a.message, a.log);
    if calls == [] {
      calls := fallbackCalls;
    }
  }

  lemma NothingRouted(message: seq<Call>)
    ensures RoutedLog(message, []) == []
  {
  }

  lemma NoCallsIff(message: seq<Call>, log: seq<Routed>)
    ensures CallsOf(message, log) == [] <==> message == [] && log == []
  {
    EachCallOnce(message, log);
    if log != [] {
      assert Used(message, log, log[0].index);
    }
  }
}
