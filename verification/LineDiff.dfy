/** Comparing two texts line by line: the table of common lengths, filled in place, and the walk through it. */
module LineDiff {
  import opened Lines

  datatype DiffLine =
    | Unchanged(content: Bytes)
    | Added(content: Bytes)
    | Removed(content: Bytes)

  /** Carriage return and line feed together count as a line feed. */
  function Normalized(content: Bytes): Bytes {
    if content == [] then []
    else if |content| >= 2 && content[0] == CR && content[1] == LF then [LF] + Normalized(content[2..])
    else [content[0]] + Normalized(content[1..])
  }

  /** A carriage return and a line feed stand at i. */
  predicate PairAt(content: Bytes, i: nat) {
    i + 1 < |content| && content[i] == CR && content[i + 1] == LF
  }

  ghost predicate HasPair(content: Bytes) {
    exists i: nat :: PairAt(content, i)
  }

  lemma PairInRest(content: Bytes, i: nat, k: nat)
    requires k <= |content|
    ensures PairAt(content[k..], i) <==> PairAt(content, i + k)
  {
  }

  /** A content is its own normal form exactly if it has no pair. */
  lemma {:induction false} NormalizedIsSame(content: Bytes)
    ensures Normalized(content) == content <==> !HasPair(content)
    ensures |Normalized(content)| <= |content|
  {
    if PairAt(content, 0) {
      NormalizedIsSame(content[2..]);
    } else if content != [] {
      NormalizedIsSame(content[1..]);
      forall i: nat
        ensures i > 0 ==> (PairAt(content, i) <==> PairAt(content[1..], i - 1))
      {
        if i > 0 {
          PairInRest(content, i - 1, 1);
        }
      }
      assert content == [content[0]] + content[1..];
      assert Normalized(content)[1..] == Normalized(content[1..]);
      if HasPair(content[1..]) {
        var i: nat :| PairAt(content[1..], i);
        assert PairAt(content, i + 1);
      }
    }
  }

  /** Parts are normalised one by one, unless they part a pair. */
  lemma {:induction false} NormalizedConcat(a: Bytes, b: Bytes)
    requires !PartsPair(a, b)
    ensures Normalized(a + b) == Normalized(a) + Normalized(b)
    decreases |a|
  {
    if a == [] {
      assert a + b == b;
    } else {
      hide Normalized, PartsPair;
      var k := if PairAt(a, 0) then 2 else 1;
      FirstPair(a, b);
      NormalizedFirst(a);
      NormalizedFirst(a + b);
      NormalizedConcat(a[k..], b);
      ConcatAssoc(if PairAt(a, 0) then [LF] else [a[0]], Normalized(a[k..]), Normalized(b));
    }
  }

  predicate PartsPair(a: Bytes, b: Bytes) {
    a != [] && a[|a| - 1] == CR && b != [] && b[0] == LF
  }

  lemma ConcatAssoc(a: Bytes, b: Bytes, c: Bytes)
    ensures a + (b + c) == a + b + c
  {
  }

  lemma FirstPair(a: Bytes, b: Bytes)
    requires a != [] && !PartsPair(a, b)
    ensures PairAt(a + b, 0) <==> PairAt(a, 0)
    ensures a + b != [] && (a + b)[0] == a[0]
    ensures (a + b)[1..] == a[1..] + b && !PartsPair(a[1..], b)
    ensures PairAt(a, 0) ==> (a + b)[2..] == a[2..] + b && !PartsPair(a[2..], b)
  {
    if |a| >= 2 {
      assert (a + b)[1] == a[1];
    } else if b != [] {
      assert (a + b)[1] == b[0];
    }
  }

  lemma NormalizedFirst(content: Bytes)
    requires content != []
    ensures Normalized(content)
            == if PairAt(content, 0) then [LF] + Normalized(content[2..]) else [content[0]] + Normalized(content[1..])
  {
  }

  /** Each pair becomes a line feed. */
  lemma NormalizedPair(a: Bytes, b: Bytes)
    ensures Normalized(a + [CR, LF] + b) == Normalized(a) + [LF] + Normalized(b)
  {
    assert a + [CR, LF] + b == a + ([CR, LF] + b);
    NormalizedConcat(a, [CR, LF] + b);
    assert ([CR, LF] + b)[2..] == b;
  }

  /** A carriage return before a pair. */
  predicate TripleAt(content: Bytes, i: nat) {
    PairAt(content, i + 1) && content[i] == CR
  }

  /** A pair is left exactly where a carriage return stood before one. */
  lemma {:induction false} PairsLeft(content: Bytes)
    ensures HasPair(Normalized(content)) <==> exists i: nat :: TripleAt(content, i)
  {
    var normal := Normalized(content);
    if content != [] {
      var k := if PairAt(content, 0) then 2 else 1;
      var rest := content[k..];
      PairsLeft(rest);
      assert normal[1..] == Normalized(rest);
      assert rest != [] ==> (Normalized(rest)[0] == LF <==> rest[0] == LF || PairAt(rest, 0));
      if HasPair(normal) {
        var i: nat :| PairAt(normal, i);
        if i == 0 {
          assert TripleAt(content, 0);
        } else {
          assert PairAt(Normalized(rest), i - 1);
          var j: nat :| TripleAt(rest, j);
          assert TripleAt(content, j + k);
        }
      }
      if i: nat :| TripleAt(content, i) {
        if i == 0 {
          assert PairAt(normal, 0);
        } else {
          assert TripleAt(rest, i - k);
          var j: nat :| PairAt(Normalized(rest), j);
          assert PairAt(normal, j + 1);
        }
      }
    }
  }

  /** The content with a line feed at its end, unless it is empty. */
  function WithFinalLF(content: Bytes): Bytes {
    if content == [] || content[|content| - 1] == LF then content else content + [LF]
  }

  function SplitContentLines(content: Bytes): seq<Bytes> {
    var normalized := Normalized(content);
    if normalized == [] then []
    else
      var parts := Split(normalized);
      if parts[|parts| - 1] == [] then parts[..|parts| - 1] else parts
  }

  /** The text made of the lines, each with a line feed at its end. */
  function JoinLines(lines: seq<Bytes>): Bytes {
    if lines == [] then [] else lines[0] + [LF] + JoinLines(lines[1..])
  }

  lemma JoinCons(head: Bytes, lines: seq<Bytes>)
    ensures JoinLines([head] + lines) == head + [LF] + JoinLines(lines)
  {
    assert ([head] + lines)[1..] == lines;
  }

  lemma {:induction false} SplitJoin(content: Bytes)
    ensures JoinLines(Split(content)) == content + [LF]
  {
    hide FirstLF, JoinLines;
    if LF in content {
      var k := FirstLF(content);
      var head, rest := content[..k], content[k + 1..];
      SplitJoin(rest);
      JoinCons(head, Split(rest));
      assert content + [LF] == head + [LF] + (rest + [LF]);
    } else {
      JoinCons(content, []);
      assert [content] + [] == [content] && JoinLines([]) == [] by {
        JoinNone();
      }
    }
  }

  lemma JoinNone()
    ensures JoinLines([]) == []
  {
  }

  lemma {:induction false} JoinAppend(lines: seq<Bytes>, last: Bytes)
    ensures JoinLines(lines + [last]) == JoinLines(lines) + (last + [LF])
  {
    if lines == [] {
      assert last + [LF] + [] == last + [LF];
      assert [] + (last + [LF]) == last + [LF];
    } else {
      assert (lines + [last])[1..] == lines[1..] + [last];
      JoinAppend(lines[1..], last);
    }
  }

  /** Splitting loses nothing but the form of the line ends: joined again, the lines give the normalised
      content, with a line feed at its end if it had none. */
  lemma SplitContentRoundTrip(content: Bytes)
    ensures JoinLines(SplitContentLines(content)) == WithFinalLF(Normalized(content))
    ensures forall line :: line in SplitContentLines(content) ==> LF !in line
  {
    hide Normalized, Split, JoinLines;
    var normalized := Normalized(content);
    if normalized == [] {
      JoinNone();
    } else {
      SplitJoin(normalized);
      LastPart(normalized);
      PartsHaveNoLF(normalized);
      var parts := Split(normalized);
      var init, last := parts[..|parts| - 1], parts[|parts| - 1];
      assert parts == init + [last];
      if last == [] {
        JoinAppend(init, []);
        assert JoinLines(parts) == JoinLines(init) + [LF] by {
          assert [] + [LF] == [LF];
        }
        assert (normalized + [LF])[..|normalized|] == (JoinLines(init) + [LF])[..|normalized|];
      }
    }
  }

  /** The last part is empty exactly if the content is empty or ends with a line feed. */
  lemma {:induction false} LastPart(content: Bytes)
    ensures var parts := Split(content);
            parts[|parts| - 1] == [] <==> content == [] || content[|content| - 1] == LF
  {
    if LF in content {
      var k := FirstLF(content);
      var rest := content[k + 1..];
      LastPart(rest);
      hide FirstLF, Split;
      assert Split(content) == [content[..k]] + Split(rest) by {
        SplitAt(content, k);
      }
      assert rest != [] ==> rest[|rest| - 1] == content[|content| - 1];
    }
  }

  lemma {:induction false} PartsHaveNoLF(content: Bytes)
    ensures forall part :: part in Split(content) ==> LF !in part
  {
    if LF in content {
      PartsHaveNoLF(content[FirstLF(content) + 1..]);
    }
  }

  /** The old text that a script spells. */
  function OldLines(script: seq<DiffLine>): seq<Bytes> {
    if script == [] then []
    else (if script[0].Added? then [] else [script[0].content]) + OldLines(script[1..])
  }

  /** The new text that a script spells. */
  function NewLines(script: seq<DiffLine>): seq<Bytes> {
    if script == [] then []
    else (if script[0].Removed? then [] else [script[0].content]) + NewLines(script[1..])
  }

  /** The lines that a script keeps. */
  function Kept(script: seq<DiffLine>): seq<Bytes> {
    if script == [] then []
    else (if script[0].Unchanged? then [script[0].content] else []) + Kept(script[1..])
  }

  ghost predicate Transforms(script: seq<DiffLine>, from: seq<Bytes>, to: seq<Bytes>) {
    OldLines(script) == from && NewLines(script) == to
  }

  /** Dropping some elements of s leaves c. */
  ghost predicate Subsequence(c: seq<Bytes>, s: seq<Bytes>) {
    if c == [] then true
    else if s == [] then false
    else (c[0] == s[0] && Subsequence(c[1..], s[1..])) || Subsequence(c, s[1..])
  }

  /** Entry (i, j) of the table. */
  function Lcs(from: seq<Bytes>, to: seq<Bytes>, i: nat, j: nat): nat
    requires i <= |from| && j <= |to|
    decreases |from| - i + |to| - j
  {
    if i == |from| || j == |to| then 0
    else if from[i] == to[j] then Lcs(from, to, i + 1, j + 1) + 1
    else if Lcs(from, to, i + 1, j) >= Lcs(from, to, i, j + 1) then Lcs(from, to, i + 1, j)
    else Lcs(from, to, i, j + 1)
  }

  /** The script that the walk produces from (i, j) on. */
  function Script(from: seq<Bytes>, to: seq<Bytes>, i: nat, j: nat): seq<DiffLine>
    requires i <= |from| && j <= |to|
    decreases |from| - i + |to| - j
  {
    if i < |from| && j < |to| then
      if from[i] == to[j] then [Unchanged(from[i])] + Script(from, to, i + 1, j + 1)
      else if Lcs(from, to, i + 1, j) >= Lcs(from, to, i, j + 1) then [Removed(from[i])] + Script(from, to, i + 1, j)
      else [Added(to[j])] + Script(from, to, i, j + 1)
    else if i < |from| then [Removed(from[i])] + Script(from, to, i + 1, j)
    else if j < |to| then [Added(to[j])] + Script(from, to, i, j + 1)
    else []
  }

  lemma Cons(line: DiffLine, script: seq<DiffLine>)
    ensures OldLines([line] + script) == if line.Added? then OldLines(script) else [line.content] + OldLines(script)
    ensures NewLines([line] + script) == if line.Removed? then NewLines(script) else [line.content] + NewLines(script)
    ensures Kept([line] + script) == if line.Unchanged? then [line.content] + Kept(script) else Kept(script)
  {
    assert ([line] + script)[1..] == script;
  }

  /** The walk spells both texts and keeps as many lines as the table says. */
  lemma {:induction false} ScriptTransforms(from: seq<Bytes>, to: seq<Bytes>, i: nat, j: nat)
    requires i <= |from| && j <= |to|
    ensures Transforms(Script(from, to, i, j), from[i..], to[j..])
    ensures |Kept(Script(from, to, i, j))| == Lcs(from, to, i, j)
    decreases |from| - i + |to| - j
  {
    hide OldLines, NewLines, Kept;
    FirstAndRest(from, i);
    FirstAndRest(to, j);
    if i < |from| && j < |to| && from[i] == to[j] {
      ScriptTransforms(from, to, i + 1, j + 1);
      Cons(Unchanged(from[i]), Script(from, to, i + 1, j + 1));
    } else if i < |from| && (j == |to| || Lcs(from, to, i + 1, j) >= Lcs(from, to, i, j + 1)) {
      ScriptTransforms(from, to, i + 1, j);
      Cons(Removed(from[i]), Script(from, to, i + 1, j));
    } else if j < |to| {
      ScriptTransforms(from, to, i, j + 1);
      Cons(Added(to[j]), Script(from, to, i, j + 1));
    } else {
      EmptyScript();
    }
  }

  lemma FirstAndRest(lines: seq<Bytes>, i: nat)
    requires i <= |lines|
    ensures lines[i..] == if i == |lines| then [] else [lines[i]] + lines[i + 1..]
  {
  }

  lemma EmptyScript()
    ensures OldLines([]) == [] && NewLines([]) == [] && Kept([]) == []
  {
  }

  lemma {:induction false} SubsequenceTail(c: seq<Bytes>, s: seq<Bytes>)
    requires c != [] && Subsequence(c, s)
    ensures s != [] && Subsequence(c[1..], s[1..])
  {
    if !(c[0] == s[0] && Subsequence(c[1..], s[1..])) {
      SubsequenceTail(c, s[1..]);
      assert Subsequence(c[1..], s[1..][1..]);
    }
  }

  /** No common subsequence is longer than the table says. */
  lemma {:induction false} CommonBound(c: seq<Bytes>, from: seq<Bytes>, to: seq<Bytes>, i: nat, j: nat)
    requires i <= |from| && j <= |to| && Subsequence(c, from[i..]) && Subsequence(c, to[j..])
    ensures |c| <= Lcs(from, to, i, j)
    decreases |from| - i + |to| - j
  {
    if c != [] {
      SubsequenceTail(c, from[i..]);
      SubsequenceTail(c, to[j..]);
      assert from[i..][1..] == from[i + 1..] && to[j..][1..] == to[j + 1..];
      if from[i] == to[j] {
        CommonBound(c[1..], from, to, i + 1, j + 1);
      } else if c[0] != from[i] {
        CommonBound(c, from, to, i + 1, j);
      } else {
        CommonBound(c, from, to, i, j + 1);
      }
    }
  }

  /** What a script keeps is common to both texts. */
  lemma {:induction false} KeptIsCommon(script: seq<DiffLine>)
    ensures Subsequence(Kept(script), OldLines(script)) && Subsequence(Kept(script), NewLines(script))
    ensures |script| + |Kept(script)| == |OldLines(script)| + |NewLines(script)|
  {
    if script != [] {
      KeptIsCommon(script[1..]);
      var line := script[0];
      Skip(Kept(script[1..]), line.content, OldLines(script[1..]));
      Skip(Kept(script[1..]), line.content, NewLines(script[1..]));
    }
  }

  lemma Skip(c: seq<Bytes>, x: Bytes, s: seq<Bytes>)
    requires Subsequence(c, s)
    ensures Subsequence(c, [x] + s) && Subsequence([x] + c, [x] + s) && Subsequence(c, [] + s) && [] + c == c
  {
    assert ([x] + s)[1..] == s && ([x] + c)[1..] == c && [] + s == s;
  }

  /** The walk is optimal: no script between the two texts keeps more lines or needs fewer. */
  lemma ScriptOptimal(from: seq<Bytes>, to: seq<Bytes>, other: seq<DiffLine>)
    requires Transforms(other, from, to)
    ensures |Kept(other)| <= |Kept(Script(from, to, 0, 0))| && |other| >= |Script(from, to, 0, 0)|
  {
    assert from[0..] == from && to[0..] == to;
    ScriptTransforms(from, to, 0, 0);
    KeptIsCommon(Script(from, to, 0, 0));
    KeptIsCommon(other);
    CommonBound(Kept(other), from, to, 0, 0);
  }

  /** The number of kept lines is the length of a longest common subsequence of the two texts. */
  lemma KeptIsLongest(from: seq<Bytes>, to: seq<Bytes>)
    ensures var kept := Kept(Script(from, to, 0, 0));
            && Subsequence(kept, from) && Subsequence(kept, to)
            && forall c :: Subsequence(c, from) && Subsequence(c, to) ==> |c| <= |kept|
  {
    assert from[0..] == from && to[0..] == to;
    ScriptTransforms(from, to, 0, 0);
    KeptIsCommon(Script(from, to, 0, 0));
    forall c | Subsequence(c, from) && Subsequence(c, to)
      ensures |c| <= |Kept(Script(from, to, 0, 0))|
    {
      CommonBound(c, from, to, 0, 0);
    }
  }

  /** Starting later leaves no longer common subsequence. */
  lemma LcsMonotone(from: seq<Bytes>, to: seq<Bytes>, i: nat, j: nat)
    requires i <= |from| && j < |to|
    ensures Lcs(from, to, i, j + 1) <= Lcs(from, to, i, j)
  {
    ScriptTransforms(from, to, i, j + 1);
    KeptIsCommon(Script(from, to, i, j + 1));
    var c := Kept(Script(from, to, i, j + 1));
    Skip(c, to[j], to[j + 1..]);
    assert [to[j]] + to[j + 1..] == to[j..];
    CommonBound(c, from, to, i, j);
  }

  /** An added line is never directly followed by a removed one: in each changed block the removals come first. */
  ghost predicate RemovalsFirst(script: seq<DiffLine>) {
    forall k :: 0 <= k < |script| - 1 ==> !(script[k].Added? && script[k + 1].Removed?)
  }

  /** The first line of the script from (i, j) on. */
  lemma FirstStep(from: seq<Bytes>, to: seq<Bytes>, i: nat, j: nat)
    requires i <= |from| && j <= |to|
    ensures i == |from| && j == |to| ==> Script(from, to, i, j) == []
    ensures i < |from| && j < |to| && from[i] == to[j] ==>
              Script(from, to, i, j) == [Unchanged(from[i])] + Script(from, to, i + 1, j + 1)
    ensures i < |from| && j < |to| && from[i] != to[j] ==>
              Script(from, to, i, j) == if Lcs(from, to, i + 1, j) >= Lcs(from, to, i, j + 1)
                                        then [Removed(from[i])] + Script(from, to, i + 1, j)
                                        else [Added(to[j])] + Script(from, to, i, j + 1)
    ensures i < |from| && j == |to| ==> Script(from, to, i, j) == [Removed(from[i])] + Script(from, to, i + 1, j)
    ensures i == |from| && j < |to| ==> Script(from, to, i, j) == [Added(to[j])] + Script(from, to, i, j + 1)
  {
    hide Lcs;
  }

  /** After an added line the walk either keeps a line or adds another one. */
  lemma NoRemovalAfterAdding(from: seq<Bytes>, to: seq<Bytes>, i: nat, j: nat)
    requires i <= |from| && j < |to|
    requires i < |from| ==> from[i] != to[j] && Lcs(from, to, i + 1, j) < Lcs(from, to, i, j + 1)
    ensures Script(from, to, i, j + 1) != [] ==> !Script(from, to, i, j + 1)[0].Removed?
  {
    FirstStep(from, to, i, j + 1);
    if i < |from| {
      LcsMonotone(from, to, i + 1, j);
    }
  }

  lemma RemovalsFirstCons(line: DiffLine, script: seq<DiffLine>)
    requires RemovalsFirst(script) && (line.Added? && script != [] ==> !script[0].Removed?)
    ensures RemovalsFirst([line] + script)
  {
  }

  lemma {:induction false} ScriptRemovalsFirst(from: seq<Bytes>, to: seq<Bytes>, i: nat, j: nat)
    requires i <= |from| && j <= |to|
    ensures RemovalsFirst(Script(from, to, i, j))
    decreases |from| - i + |to| - j
  {
    FirstStep(from, to, i, j);
    hide Lcs, Script, RemovalsFirst;
    if i < |from| && j < |to| && from[i] == to[j] {
      ScriptRemovalsFirst(from, to, i + 1, j + 1);
      RemovalsFirstCons(Unchanged(from[i]), Script(from, to, i + 1, j + 1));
    } else if i < |from| && (j == |to| || Lcs(from, to, i + 1, j) >= Lcs(from, to, i, j + 1)) {
      ScriptRemovalsFirst(from, to, i + 1, j);
      RemovalsFirstCons(Removed(from[i]), Script(from, to, i + 1, j));
    } else if j < |to| {
      ScriptRemovalsFirst(from, to, i, j + 1);
      NoRemovalAfterAdding(from, to, i, j);
      RemovalsFirstCons(Added(to[j]), Script(from, to, i, j + 1));
    } else {
      EmptyRemovalsFirst();
    }
  }

  lemma EmptyRemovalsFirst()
    ensures RemovalsFirst([])
  {
  }

  /** The table from position (i, j) on, in the order in which it is filled. */
  ghost predicate Filled(table: array2<nat>, from: seq<Bytes>, to: seq<Bytes>, i: int, j: int)
    reads table
  {
    && table.Length0 == |from| + 1 && table.Length1 == |to| + 1
    && forall x, y :: 0 <= x <= |from| && 0 <= y <= |to| && (x > i || (x == i && y > j) || y == |to|) ==>
         table[x, y] == Lcs(from, to, x, y)
  }

  method FillTable(from: seq<Bytes>, to: seq<Bytes>) returns (table: array2<nat>)
    ensures Filled(table, from, to, -1, -1)
  {
    table := new nat[|from| + 1, |to| + 1]((i, j) => 0);
    var i := |from| - 1;
    while i >= 0
      invariant -1 <= i < |from| && Filled(table, from, to, i, |to|)
    {
      var j := |to| - 1;
      while j >= 0
        invariant -1 <= j < |to| && Filled(table, from, to, i, j)
      {
        if from[i] == to[j] {
          table[i, j] := table[i + 1, j + 1] + 1;
        } else if table[i + 1, j] >= table[i, j + 1] {
          table[i, j] := table[i + 1, j];
        } else {
          table[i, j] := table[i, j + 1];
        }
        j := j - 1;
      }
      i := i - 1;
    }
  }

  /** The greedy walk through the table. */
  method Walk(from: seq<Bytes>, to: seq<Bytes>, table: array2<nat>) returns (result: seq<DiffLine>)
    requires Filled(table, from, to, -1, -1)
    ensures result == Script(from, to, 0, 0)
  {
    hide Lcs, Script;
    result := [];
    var i, j := 0, 0;
    while i < |from| && j < |to|
      invariant i <= |from| && j <= |to|
      invariant result + Script(from, to, i, j) == Script(from, to, 0, 0)
      decreases |from| - i + |to| - j
    {
      FirstStep(from, to, i, j);
      if from[i] == to[j] {
        Shift(result, Unchanged(from[i]), Script(from, to, i + 1, j + 1));
        result := result + [Unchanged(from[i])];
        i, j := i + 1, j + 1;
      } else if table[i + 1, j] >= table[i, j + 1] {
        Shift(result, Removed(from[i]), Script(from, to, i + 1, j));
        result := result + [Removed(from[i])];
        i := i + 1;
      } else {
        Shift(result, Added(to[j]), Script(from, to, i, j + 1));
        result := result + [Added(to[j])];
        j := j + 1;
      }
    }
    while i < |from|
      invariant i <= |from| && j <= |to| && (i == |from| || j == |to|)
      invariant result + Script(from, to, i, j) == Script(from, to, 0, 0)
    {
      FirstStep(from, to, i, j);
      Shift(result, Removed(from[i]), Script(from, to, i + 1, j));
      result := result + [Removed(from[i])];
      i := i + 1;
    }
    while j < |to|
      invariant i == |from| && j <= |to|
      invariant result + Script(from, to, i, j) == Script(from, to, 0, 0)
    {
      FirstStep(from, to, i, j);
      Shift(result, Added(to[j]), Script(from, to, i, j + 1));
      result := result + [Added(to[j])];
      j := j + 1;
    }
    FirstStep(from, to, i, j);
  }

  lemma Shift(done: seq<DiffLine>, line: DiffLine, rest: seq<DiffLine>)
    ensures done + ([line] + rest) == (done + [line]) + rest
  {
  }

  /** Texts of lines tell the lines. */
  lemma {:induction false} JoinInjective(a: seq<Bytes>, b: seq<Bytes>)
    requires JoinLines(a) == JoinLines(b) && (forall line :: line in a ==> LF !in line)
    requires forall line :: line in b ==> LF !in line
    ensures a == b
  {
    if a != [] && b != [] {
      var text := JoinLines(a);
      assert a[0] in a && b[0] in b;
      assert text[..|a[0]|] == a[0] && text[..|b[0]|] == b[0] && text[|a[0]|] == text[|b[0]|] == LF;
      forall k | 0 <= k < |a[0]|
        ensures text[k] != LF
      {
        assert text[k] == a[0][k];
      }
      forall k | 0 <= k < |b[0]|
        ensures text[k] != LF
      {
        assert text[k] == b[0][k];
      }
      assert JoinLines(a[1..]) == text[|a[0]| + 1..] == JoinLines(b[1..]);
      JoinInjective(a[1..], b[1..]);
      assert a == [a[0]] + a[1..] && b == [b[0]] + b[1..];
    }
  }

  ghost predicate AllUnchanged(script: seq<DiffLine>) {
    forall line :: line in script ==> line.Unchanged?
  }

  lemma {:induction false} UnchangedScript(script: seq<DiffLine>)
    ensures |Kept(script)| <= |script| && (|Kept(script)| == |script| <==> AllUnchanged(script))
    ensures AllUnchanged(script) ==> OldLines(script) == NewLines(script)
  {
    if script != [] {
      UnchangedScript(script[1..]);
      assert script == [script[0]] + script[1..];
    }
  }

  function Unchanging(lines: seq<Bytes>): seq<DiffLine> {
    if lines == [] then [] else [Unchanged(lines[0])] + Unchanging(lines[1..])
  }

  lemma {:induction false} UnchangingKeeps(lines: seq<Bytes>)
    ensures var script := Unchanging(lines);
            OldLines(script) == NewLines(script) == Kept(script) == lines
  {
    if lines != [] {
      UnchangingKeeps(lines[1..]);
      Cons(Unchanged(lines[0]), Unchanging(lines[1..]));
    }
  }

  /** A shortest script changes nothing exactly if there is nothing to change. */
  lemma NothingToChange(script: seq<DiffLine>, from: seq<Bytes>, to: seq<Bytes>)
    requires Transforms(script, from, to)
    requires forall other :: Transforms(other, from, to) ==> |Kept(other)| <= |Kept(script)|
    ensures AllUnchanged(script) <==> from == to
  {
    hide OldLines, NewLines, Kept;
    UnchangedScript(script);
    KeptIsCommon(script);
    if from == to {
      UnchangingKeeps(from);
      assert Transforms(Unchanging(from), from, to);
    }
  }

  /** The difference of two contents: a script that turns the old lines into the new ones and keeps as many of
      them as any such script. */
  method DiffLines(fromContent: Bytes, toContent: Bytes) returns (result: seq<DiffLine>)
    ensures var from, to := SplitContentLines(fromContent), SplitContentLines(toContent);
            && result == Script(from, to, 0, 0) && Transforms(result, from, to) && RemovalsFirst(result)
            && forall other :: Transforms(other, from, to) ==>
                 |Kept(other)| <= |Kept(result)| && |other| >= |result|
    ensures JoinLines(OldLines(result)) == WithFinalLF(Normalized(fromContent))
    ensures JoinLines(NewLines(result)) == WithFinalLF(Normalized(toContent))
    ensures CR !in fromContent ==> JoinLines(OldLines(result)) == WithFinalLF(fromContent)
    ensures CR !in toContent ==> JoinLines(NewLines(result)) == WithFinalLF(toContent)
    ensures AllUnchanged(result) <==> WithFinalLF(Normalized(fromContent)) == WithFinalLF(Normalized(toContent))
  {
    hide SplitContentLines, Script, OldLines, NewLines, Kept, RemovalsFirst, JoinLines, Normalized, WithFinalLF,
         AllUnchanged;
    var from, to := SplitContentLines(fromContent), SplitContentLines(toContent);
    var table := FillTable(from, to);
    result := Walk(from, to, table);
    ScriptTransforms(from, to, 0, 0);
    ScriptRemovalsFirst(from, to, 0, 0);
    assert from[0..] == from && to[0..] == to;
    forall other | Transforms(other, from, to)
      ensures |Kept(other)| <= |Kept(result)| && |other| >= |result|
    {
      ScriptOptimal(from, to, other);
    }
    SplitContentRoundTrip(fromContent);
    SplitContentRoundTrip(toContent);
    NormalizedIsSame(fromContent);
    NormalizedIsSame(toContent);
    NothingToChange(result, from, to);
    if JoinLines(from) == JoinLines(to) {
      JoinInjective(from, to);
    }
  }
}
