/** The lines of a file, told by splitting, and the same lines from the back. */
module Lines {
  newtype byte = x: int | 0 <= x < 256

  type Bytes = seq<byte>

  const LF: byte := 10
  const CR: byte := 13

  /** The bytes from `start` up to and not including `end`. */
  datatype Span = Span(start: nat, end: nat)

  lemma SliceOfSlice<T>(s: seq<T>, a: nat, b: nat, i: nat, j: nat)
    requires a <= b <= |s| && i <= j <= b - a
    ensures s[a..b][i..j] == s[a + i..a + j]
  {
    var whole := s[a..b];
    var left, right := whole[i..j], s[a + i..a + j];
    assert |left| == |right|;
    forall k | 0 <= k < |left|
      ensures left[k] == right[k]
    {
      assert left[k] == whole[i + k] == s[a + (i + k)];
    }
  }

  predicate Within(s: Span, file: Bytes) {
    s.start <= s.end <= |file|
  }

  function Text(file: Bytes, s: Span): Bytes
    requires Within(s, file)
  {
    file[s.start..s.end]
  }

  function DropCR(line: Bytes): Bytes {
    if line != [] && line[|line| - 1] == CR then line[..|line| - 1] else line
  }

  /** Content split at its line feeds. */
  function Split(content: Bytes): (lines: seq<Bytes>)
    ensures lines != []
  {
    if LF !in content then [content]
    else
      var i := FirstLF(content);
      [content[..i]] + Split(content[i + 1..])
  }

  function FirstLF(content: Bytes): (i: nat)
    requires LF in content
    ensures i < |content| && content[i] == LF && forall k :: 0 <= k < i ==> content[k] != LF
  {
    if content[0] == LF then 0 else FirstLF(content[1..]) + 1
  }

  /** Position of the last line feed before `end`, or -1. */
  function LastLF(file: Bytes, end: nat): (i: int)
    requires end <= |file|
    ensures -1 <= i < end
    ensures i >= 0 ==> file[i] == LF
    ensures forall k :: i < k < end ==> file[k] != LF
  {
    if end == 0 then -1 else if file[end - 1] == LF then end - 1 else LastLF(file, end - 1)
  }

  /** The lines before `end`, last line first. An empty first line is left out. */
  function SpansBefore(file: Bytes, end: nat): (spans: seq<Span>)
    requires end <= |file|
    ensures forall s :: s in spans ==> Within(s, file)
  {
    var i := LastLF(file, end);
    if i >= 0 then [Span(i + 1, end)] + SpansBefore(file, i)
    else if end > 0 then [Span(0, end)]
    else []
  }

  /** The file without its final line feed. */
  function TrimmedEnd(file: Bytes, end: nat): (r: nat)
    requires end <= |file|
    ensures r <= end
  {
    if end == |file| && end > 0 && file[end - 1] == LF then end - 1 else end
  }

  function Texts(file: Bytes, spans: seq<Span>): (r: seq<Bytes>)
    requires forall s :: s in spans ==> Within(s, file)
    ensures |r| == |spans|
  {
    seq(|spans|, i requires 0 <= i < |spans| => Text(file, spans[i]))
  }

  function Reverse<T>(s: seq<T>): (r: seq<T>)
    ensures |r| == |s|
  {
    seq(|s|, i requires 0 <= i < |s| => s[|s| - 1 - i])
  }

  function DropEmptyFirst(lines: seq<Bytes>): seq<Bytes> {
    if lines != [] && lines[0] == [] then lines[1..] else lines
  }

  /** The lines of the content in reverse, without an empty first line. */
  function ReversedLines(content: Bytes): seq<Bytes> {
    Reverse(DropEmptyFirst(Split(content)))
  }

  lemma SplitAt(content: Bytes, i: nat)
    requires i < |content| && content[i] == LF && forall k :: 0 <= k < i ==> content[k] != LF
    ensures Split(content) == [content[..i]] + Split(content[i + 1..])
  {
    hide FirstLF;
    var k := FirstLF(content);
    assert !(k < i) && !(i < k);
  }

  /** A longer content splits first where its beginning does. */
  lemma FirstSplit(content: Bytes, all: Bytes, i: nat)
    requires content <= all && i < |content| && content[i] == LF && forall k :: 0 <= k < i ==> content[k] != LF
    ensures Split(all) == [content[..i]] + Split(all[i + 1..])
    ensures Split(content) == [content[..i]] + Split(content[i + 1..])
  {
    hide Split;
    SplitAt(content, i);
    SplitAt(all, i);
    assert all[..i] == content[..i];
  }

  lemma JoinFacts(content: Bytes, tail: Bytes, k: nat)
    requires k <= |content|
    ensures content <= content + [LF] + tail && (content + [LF] + tail)[|content|] == LF
    ensures (content + [LF] + tail)[|content| + 1..] == tail
    ensures k < |content| ==> (content + [LF] + tail)[k + 1..] == content[k + 1..] + [LF] + tail
  {
  }

  lemma {:induction false} SplitLast(content: Bytes, tail: Bytes)
    requires LF !in tail
    ensures Split(content + [LF] + tail) == Split(content) + [tail]
  {
    var all := content + [LF] + tail;
    if LF in content {
      var k := FirstLF(content);
      var head, rest := content[..k], content[k + 1..];
      assert Split(all) == [head] + Split(rest + [LF] + tail) && Split(content) == [head] + Split(rest) by {
        hide Split;
        JoinFacts(content, tail, k);
        FirstSplit(content, all, k);
      }
      SplitLast(rest, tail);
    } else {
      assert Split(all) == [content] + Split(tail) by {
        hide Split;
        JoinFacts(content, tail, |content|);
        SplitAt(all, |content|);
        assert all[..|content|] == content;
      }
    }
  }

  lemma ReversedAppend(lines: seq<Bytes>, last: Bytes)
    requires lines != []
    ensures Reverse(DropEmptyFirst(lines + [last])) == [last] + Reverse(DropEmptyFirst(lines))
  {
    if lines[0] == [] {
      assert (lines + [last])[1..] == lines[1..] + [last];
    }
    assert DropEmptyFirst(lines + [last]) == DropEmptyFirst(lines) + [last];
  }

  lemma TextsCons(file: Bytes, s: Span, spans: seq<Span>)
    requires Within(s, file) && forall t :: t in spans ==> Within(t, file)
    ensures Texts(file, [s] + spans) == [Text(file, s)] + Texts(file, spans)
  {
  }

  lemma TextsNil(file: Bytes)
    ensures Texts(file, []) == []
  {
  }

  lemma OnlyLine(content: Bytes)
    requires LF !in content
    ensures ReversedLines(content) == if content == [] then [] else [content]
  {
    assert Split(content) == [content];
  }

  /** Going backwards from the end gives exactly the split lines in reverse. */
  lemma {:induction false} SpansAreReversedLines(file: Bytes, end: nat)
    requires end <= |file|
    ensures Texts(file, SpansBefore(file, end)) == ReversedLines(file[..end])
  {
    hide Split, Reverse, DropEmptyFirst, Texts;
    var i := LastLF(file, end);
    if i >= 0 {
      var head, tail := file[..i], file[i + 1..end];
      assert file[..end] == head + [LF] + tail;
      SpansAreReversedLines(file, i);
      SplitLast(head, tail);
      ReversedAppend(Split(head), tail);
      TextsCons(file, Span(i + 1, end), SpansBefore(file, i));
    } else {
      OnlyLine(file[..end]);
      TextsNil(file);
      if end > 0 {
        TextsCons(file, Span(0, end), []);
        assert [Span(0, end)] + [] == [Span(0, end)];
        assert Text(file, Span(0, end)) == file[..end];
      }
    }
  }
}
