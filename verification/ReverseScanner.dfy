/** Reading a file's lines from the back, one buffer at a time. */
module ReverseScanner {
  import opened Lines

  function Times(k: nat, n: nat): nat {
    k * n
  }

  /** A position at which a chunk read from the back starts or ends. */
  ghost predicate IsBoundary(size: nat, bufSize: nat, c: nat) {
    c == 0 || exists k: nat :: c == size - Times(k, bufSize)
  }

  /** The scanner gives up on a line when the part of it right of some chunk boundary is over the limit. */
  ghost predicate Rejected(size: nat, bufSize: nat, maxSize: nat, s: Span) {
    exists c: nat :: s.start <= c <= s.end && IsBoundary(size, bufSize, c) && s.end - c > maxSize
  }

  lemma TimesMonotone(k: nat, m: nat, n: nat)
    requires k <= m
    ensures Times(k, n) <= Times(m, n)
  {
    assert Times(m, n) == Times(k, n) + (m - k) * n;
  }

  /** Chunk boundaries are at least a whole buffer apart, except at the start of the file. */
  lemma NoBoundaryInside(size: nat, bufSize: nat, from: nat, c: nat)
    requires bufSize >= 1 && IsBoundary(size, bufSize, from) && IsBoundary(size, bufSize, c)
    requires 0 < c < from
    ensures c + bufSize <= from
  {
    var k: nat :| from == size - Times(k, bufSize);
    var m: nat :| c == size - Times(m, bufSize);
    if m <= k {
      TimesMonotone(m, k, bufSize);
    } else {
      TimesMonotone(k + 1, m, bufSize);
    }
  }

  lemma BoundaryStep(size: nat, bufSize: nat, from: nat, n: nat)
    requires bufSize >= 1 && IsBoundary(size, bufSize, from) && n == if bufSize > from then from else bufSize
    ensures IsBoundary(size, bufSize, from - n)
  {
    if from > n {
      var k: nat :| from == size - Times(k, bufSize);
      assert from - n == size - Times(k + 1, bufSize);
    }
  }

  /** A line that fits the limit is never rejected. */
  lemma FittingLineAccepted(size: nat, bufSize: nat, maxSize: nat, s: Span)
    requires s.start <= s.end && s.end - s.start <= maxSize
    ensures !Rejected(size, bufSize, maxSize, s)
  {
  }

  const MESSAGE_SCAN_BUFFER_INIT: nat := 262144
  const MESSAGE_SCAN_BUFFER_MAX: nat := 8388608

  /** A line that is over the limit by a whole buffer, or by more, is always rejected. */
  lemma LongLineRejected(size: nat, bufSize: nat, maxSize: nat, s: Span)
    requires bufSize >= 1 && s.start <= s.end <= size && s.end - s.start >= maxSize + bufSize
    ensures Rejected(size, bufSize, maxSize, s)
  {
    var right: nat := s.end - maxSize - 1;
    var k := (size - right + bufSize - 1) / bufSize;
    assert Times(k, bufSize) == k * bufSize;
    assert size - right <= k * bufSize <= size - right + bufSize - 1;
    var c: nat := size - k * bufSize;
    assert IsBoundary(size, bufSize, c) by {
      assert c == size - Times(k, bufSize);
    }
    assert s.start <= c <= s.end && s.end - c > maxSize;
  }

  /** The parts of a line, found right to left, put together. */
  function Joined(parts: seq<Bytes>): Bytes {
    if parts == [] then [] else parts[|parts| - 1] + Joined(parts[..|parts| - 1])
  }

  ghost predicate NoLF(file: Bytes, from: nat, to: nat) {
    from <= to <= |file| && forall k :: from <= k < to ==> file[k] != LF
  }

  /** The lines still to come when everything from `end` on has been read. */
  ghost function LinesFrom(file: Bytes, end: nat): seq<Span>
    requires end <= |file|
  {
    SpansBefore(file, TrimmedEnd(file, end))
  }

  /** A line feed at i that is not the file's last byte ends the line from i + 1 to `end`. */
  lemma LineFeedFound(file: Bytes, i: nat, end: nat)
    requires i < end <= |file| && file[i] == LF && NoLF(file, i + 1, end)
    requires end == |file| ==> i != end - 1
    ensures LinesFrom(file, end) == [Span(i + 1, end)] + LinesFrom(file, i)
  {
    assert LastLF(file, end) == i;
  }

  lemma TrailingLineFeed(file: Bytes)
    requires file != [] && file[|file| - 1] == LF
    ensures LinesFrom(file, |file|) == LinesFrom(file, |file| - 1)
  {
  }

  lemma NoLineFeedLeft(file: Bytes, end: nat)
    requires NoLF(file, 0, end)
    ensures LinesFrom(file, end) == if end > 0 then [Span(0, end)] else []
  {
    assert LastLF(file, end) == -1;
  }

  /** The first line to come starts at or before the position up to which no line feed was found. */
  lemma FirstLineStart(file: Bytes, pos: nat, end: nat)
    requires NoLF(file, pos, end) && pos < end
    ensures LinesFrom(file, end) != [] && LinesFrom(file, end)[0].start <= pos && LinesFrom(file, end)[0].end == end
  {
    assert LastLF(file, end) < pos;
  }

  /** A line completed inside the chunk [pos, pos + n) is not rejected: only what lies right of the chunk was
      measured, and that fits. */
  lemma CompletedLineAccepted(size: nat, bufSize: nat, maxSize: nat, s: Span, pos: nat, n: nat)
    requires 1 <= n <= bufSize && IsBoundary(size, bufSize, pos + n)
    requires pos < s.start <= s.end && s.end - (pos + n) <= maxSize
    ensures !Rejected(size, bufSize, maxSize, s)
  {
    forall c: nat | s.start <= c <= s.end && IsBoundary(size, bufSize, c)
      ensures s.end - c <= maxSize
    {
      if c < pos + n {
        NoBoundaryInside(size, bufSize, pos + n, c);
      }
    }
  }

  /** The completed lines that wait for delivery. */
  ghost predicate PendingAgrees(file: Bytes, bufSize: nat, maxSize: nat, pending: seq<Bytes>, spans: seq<Span>) {
    && |pending| == |spans|
    && forall i :: 0 <= i < |pending| ==> PendingLineAgrees(file, bufSize, maxSize, pending[i], spans[i])
  }

  ghost predicate PendingLineAgrees(file: Bytes, bufSize: nat, maxSize: nat, line: Bytes, s: Span) {
    Within(s, file) && line == DropCR(Text(file, s)) && !Rejected(|file|, bufSize, maxSize, s)
  }

  /** The line being built starts at or before `from`; its known part reaches to from + size. */
  ghost predicate LeftoverAgrees(file: Bytes, from: nat, leftover: seq<Bytes>, size: nat) {
    (size == 0 <==> leftover == []) && NoLF(file, from, from + size) && Joined(leftover) == file[from..from + size]
  }

  lemma LeftoverGrows(file: Bytes, pos: nat, right: nat, leftover: seq<Bytes>, size: nat, remaining: Bytes)
    requires LeftoverAgrees(file, pos + right, leftover, size) && NoLF(file, pos, pos + right)
    requires remaining != [] && remaining == file[pos..pos + right]
    ensures LeftoverAgrees(file, pos, leftover + [remaining], size + right)
  {
    var parts := leftover + [remaining];
    assert parts[..|parts| - 1] == leftover;
    assert file[pos..pos + right + size] == remaining + file[pos + right..pos + right + size];
  }

  const MIN_BUFFER: nat := 4096

  /** The buffer size that a scanner uses. */
  function BufferSize(requested: nat): nat {
    if requested < MIN_BUFFER then MIN_BUFFER else requested
  }

  /** The line feeds before these lines lie in [pos, end). */
  ghost predicate StartWithin(spans: seq<Span>, pos: nat, end: nat) {
    forall i :: 0 <= i < |spans| ==> pos < spans[i].start <= end
  }

  class Scanner {
    const file: Bytes
    const bufSize: nat
    const maxSize: nat
    const buf: array<byte>
    var pos: nat
    var pending: seq<Bytes>
    var leftover: seq<Bytes>
    var leftoverSize: nat
    var tooLong: bool
    var line: Bytes
    ghost var pendingSpans: seq<Span>
    ghost var chunkEnd: nat  // the end of the last chunk read

    ghost predicate Valid()
      reads this
    {
      && bufSize >= 1 && buf.Length == bufSize
      && IsBoundary(|file|, bufSize, pos) && pos + leftoverSize <= |file|
      && PendingAgrees(file, bufSize, maxSize, pending, pendingSpans)
      && LeftoverAgrees(file, pos, leftover, leftoverSize)
      && (tooLong <==> leftoverSize > maxSize)
      && LastChunk()
    }

    /** What waits for delivery was completed in the last chunk, and then the line being built lies in it. */
    ghost predicate LastChunk()
      reads this
    {
      && pos <= chunkEnd <= pos + bufSize && IsBoundary(|file|, bufSize, chunkEnd)
      && StartWithin(pendingSpans, pos, chunkEnd)
      && (pending != [] ==> pos + leftoverSize < chunkEnd) && (tooLong ==> pos < chunkEnd)
    }

    /** The lines that Scan has still to deliver. */
    ghost function Rest(): seq<Span>
      reads this
      requires pos + leftoverSize <= |file|
    {
      pendingSpans + LinesFrom(file, pos + leftoverSize)
    }

    constructor (file: Bytes, bufSize: nat, maxSize: nat)
      ensures Valid() && Rest() == SpansBefore(file, TrimmedEnd(file, |file|)) && !tooLong && pending == []
      ensures this.file == file && this.bufSize == BufferSize(bufSize) && this.maxSize == maxSize
      ensures fresh(buf)
    {
      this.file := file;
      var size := BufferSize(bufSize);
      this.bufSize := size;
      this.maxSize := maxSize;
      buf := new byte[size];
      pos, pending, leftover, leftoverSize, tooLong, line := |file|, [], [], 0, false, [];
      pendingSpans, chunkEnd := [], |file|;
      new;
      assert |file| == |file| - Times(0, this.bufSize);
    }

    method JoinLeftover(prefix: Bytes) returns (r: Bytes)
      ensures r == prefix + Joined(leftover)
    {
      r := prefix;
      var i := |leftover| - 1;
      assert leftover[..|leftover|] == leftover;
      while i >= 0
        invariant -1 <= i < |leftover|
        invariant r + Joined(leftover[..i + 1]) == prefix + Joined(leftover)
      {
        assert leftover[..i + 1][..i] == leftover[..i];
        r := r + leftover[i];
        i := i - 1;
      }
    }

    /** Reads the n bytes before the current position into the buffer. */
    method ReadChunk(n: nat)
      requires n <= pos <= |file| && n <= buf.Length
      modifies `pos, buf, `chunkEnd
      ensures chunkEnd == old(pos) && pos == old(pos) - n && buf[..n] == file[pos..pos + n]
    {
      chunkEnd := pos;
      pos := pos - n;
      for i := 0 to n
        invariant pos == old(pos) - n && chunkEnd == old(pos)
        invariant buf[..i] == file[pos..pos + i]
      {
        buf[i] := file[pos + i];
      }
    }

    /** A line feed was found: the line that starts after it is complete. */
    method CompleteLine(linePart: Bytes, ghost s: Span)
      requires PendingAgrees(file, bufSize, maxSize, pending, pendingSpans)
      requires Within(s, file) && s.end - leftoverSize == s.start + |linePart|
      requires linePart == file[s.start..s.end - leftoverSize] && Joined(leftover) == file[s.end - leftoverSize..s.end]
      requires !Rejected(|file|, bufSize, maxSize, s)
      modifies `pending, `pendingSpans, `leftover, `leftoverSize
      ensures PendingAgrees(file, bufSize, maxSize, pending, pendingSpans)
      ensures pendingSpans == old(pendingSpans) + [s] && leftover == [] && leftoverSize == 0
    {
      hide Rejected;
      var fullLine := JoinLeftover(linePart);
      assert fullLine == Text(file, s);
      assert PendingLineAgrees(file, bufSize, maxSize, DropCR(fullLine), s);
      pending := pending + [DropCR(fullLine)];
      pendingSpans := pendingSpans + [s];
      leftover := [];
      leftoverSize := 0;
    }

    /** The state while the chunk at [pos, pos + n) is processed: everything right of `right` is done, and
        `target` is what the scanner had to deliver before. */
    ghost predicate InChunkState(chunk: Bytes, right: nat, target: seq<Span>)
      reads this
    {
      && 1 <= |chunk| <= bufSize && pos + |chunk| <= |file| && chunk == file[pos..pos + |chunk|]
      && IsBoundary(|file|, bufSize, pos + |chunk|) && chunkEnd == pos + |chunk|
      && StartWithin(pendingSpans, pos, chunkEnd)
      && right <= |chunk| && (leftoverSize == 0 || right == |chunk|) && leftoverSize <= maxSize && !tooLong
      && PendingAgrees(file, bufSize, maxSize, pending, pendingSpans)
      && LeftoverAgrees(file, pos + right, leftover, leftoverSize)
      && Rest'(right) == target
      && (right == |chunk| ==> pending == [])
    }

    ghost function Rest'(right: nat): seq<Span>
      reads this
      requires pos + right + leftoverSize <= |file|
    {
      pendingSpans + LinesFrom(file, pos + right + leftoverSize)
    }

    /** What a line feed at `idx` says about the line that starts after it. */
    lemma LineFound(chunk: Bytes, right: nat, idx: nat, target: seq<Span>) returns (s: Span)
      requires InChunkState(chunk, right, target) && idx == LastLF(chunk, right)
      requires !(pos + |chunk| == |file| && right == |chunk| && idx == |chunk| - 1 && leftoverSize == 0)
      ensures idx < right && s == Span(pos + idx + 1, pos + right + leftoverSize) && Within(s, file)
      ensures chunk[idx + 1..right] == file[s.start..s.end - leftoverSize]
      ensures Joined(leftover) == file[s.end - leftoverSize..s.end]
      ensures !Rejected(|file|, bufSize, maxSize, s) && NoLF(file, pos + idx, pos + idx)
      ensures target == pendingSpans + [s] + LinesFrom(file, pos + idx)
    {
      hide Rejected, IsBoundary, LinesFrom, PendingAgrees, Joined;
      s := Span(pos + idx + 1, pos + right + leftoverSize);
      InChunk(file, chunk, pos, right, idx);
      LineFeedFound(file, pos + idx, s.end);
      CompletedLineAccepted(|file|, bufSize, maxSize, s, pos, |chunk|);
    }

    /** A line feed at `idx` that completes a line. */
    method TakeLine(chunk: Bytes, right: nat, idx: nat, ghost target: seq<Span>)
      requires InChunkState(chunk, right, target) && idx == LastLF(chunk, right)
      requires !(pos + |chunk| == |file| && right == |chunk| && idx == |chunk| - 1 && leftoverSize == 0)
      modifies `pending, `pendingSpans, `leftover, `leftoverSize
      ensures InChunkState(chunk, idx, target)
    {
      hide Rejected, IsBoundary, LinesFrom, PendingAgrees, LastLF;
      ghost var s := LineFound(chunk, right, idx, target);
      CompleteLine(chunk[idx + 1..right], s);
    }

    /** The file's final line feed starts no line. */
    lemma SkipTrailing(chunk: Bytes, right: nat, idx: nat, target: seq<Span>)
      requires InChunkState(chunk, right, target) && idx == LastLF(chunk, right)
      requires pos + |chunk| == |file| && right == |chunk| && idx == |chunk| - 1 && leftoverSize == 0 && leftover == []
      ensures InChunkState(chunk, idx, target)
    {
      hide Rejected, IsBoundary, PendingAgrees, LinesFrom;
      InChunk(file, chunk, pos, right, idx);
      TrailingLineFeed(file);
    }

    /** No more line feeds in the chunk: its rest belongs to the line being built. */
    method KeepRest(chunk: Bytes, right: nat, ghost target: seq<Span>)
      requires InChunkState(chunk, right, target) && LastLF(chunk, right) == -1
      modifies `leftover, `leftoverSize, `tooLong
      ensures LeftoverAgrees(file, pos, leftover, leftoverSize) && (tooLong <==> leftoverSize > maxSize)
      ensures pos + leftoverSize <= |file| && Rest() == target
      ensures LastChunk()
    {
      hide IsBoundary, LinesFrom, PendingAgrees, Joined;
      InChunk(file, chunk, pos, right, -1);
      var remaining := chunk[..right];
      assert remaining == file[pos..pos + right];
      if remaining != [] {
        LeftoverGrows(file, pos, right, leftover, leftoverSize, remaining);
        leftover := leftover + [remaining];
        leftoverSize := leftoverSize + |remaining|;
        if leftoverSize > maxSize {
          tooLong := true;
        }
      }
    }

    /** Processes the chunk at [pos, pos + n) from right to left. */
    method ScanChunk(n: nat, ghost target: seq<Span>)
      requires n <= buf.Length && InChunkState(buf[..n], n, target)
      modifies `pending, `leftover, `leftoverSize, `tooLong, `pendingSpans
      ensures PendingAgrees(file, bufSize, maxSize, pending, pendingSpans)
      ensures LeftoverAgrees(file, pos, leftover, leftoverSize)
      ensures tooLong <==> leftoverSize > maxSize
      ensures pos + leftoverSize <= |file| && Rest() == target
      ensures LastChunk()
    {
      hide Rejected, IsBoundary, LinesFrom, PendingAgrees, NoLF, Joined, LastLF, LastChunk;
      var chunk := buf[..n];
      var right := n;
      while true
        invariant 0 <= right <= n && InChunkState(chunk, right, target)
        decreases right
      {
        var idx := LastLF(chunk, right);
        if idx == -1 {
          KeepRest(chunk, right, target);
          return;
        }
        if pos + n == |file| && right == n && idx == n - 1 && leftoverSize == 0 {
          SkipTrailing(chunk, right, idx, target);
        } else {
          TakeLine(chunk, right, idx, target);
        }
        right := idx;
      }
    }

    /** The next line was delivered: `s` is the first of `before`, the lines there were to come. */
    ghost predicate Delivered(before: seq<Span>)
      reads this
      requires pos + leftoverSize <= |file|
    {
      && before != [] && Within(before[0], file)
      && Rest() == before[1..] && line == DropCR(Text(file, before[0]))
      && !Rejected(|file|, bufSize, maxSize, before[0])
      && (before[0].start > pos || Rest() == [])
    }

    method TakePending()
      requires Valid() && pending != []
      modifies `line, `pending, `pendingSpans
      ensures Valid() && Delivered(old(Rest()))
    {
      hide Rejected, IsBoundary, LinesFrom, NoLF, Joined;
      assert PendingLineAgrees(file, bufSize, maxSize, pending[0], pendingSpans[0]);
      ghost var before := Rest();
      line := pending[0];
      pending := pending[1..];
      assert before[1..] == pendingSpans[1..] + LinesFrom(file, pos + leftoverSize);
      pendingSpans := pendingSpans[1..];
    }

    /** At the start of the file, what is left over is the first line. */
    method TakeFirstLine() returns (ok: bool)
      requires Valid() && pending == [] && !tooLong && pos == 0
      modifies `line, `leftover, `leftoverSize
      ensures Valid()
      ensures ok ==> Delivered(old(Rest()))
      ensures !ok ==> Rest() == [] && old(Rest()) == []
    {
      hide Rejected, IsBoundary, LinesFrom, PendingLineAgrees;
      NoLineFeedLeft(file, leftoverSize);
      if leftoverSize > 0 {
        FittingLineAccepted(|file|, bufSize, maxSize, Span(0, leftoverSize));
        if leftoverSize > maxSize {
          assert false;  // the limit was checked when the line grew
        }
        var joined := JoinLeftover([]);
        line := DropCR(joined);
        assert joined == Text(file, Span(0, leftoverSize));
        leftover := [];
        leftoverSize := 0;
        NoLineFeedLeft(file, 0);
        return true;
      }
      return false;
    }

    /** The line that Scan gave up on. */
    lemma GivenUpLine()
      requires Valid() && tooLong
      ensures |pending| < |Rest()| && Rejected(|file|, bufSize, maxSize, Rest()[|pending|])
      ensures Rest()[|pending|].start <= pos && Rest()[|pending|].end > pos + maxSize
    {
      FirstLineStart(file, pos, pos + leftoverSize);
      var s := LinesFrom(file, pos + leftoverSize)[0];
      assert Rest()[|pending|] == s;
      assert s.start <= pos <= s.end && s.end - pos > maxSize;
    }

    /** One more chunk is read and processed; what there is to deliver stays the same. */
    method Refill()
      requires Valid() && pos > 0 && pending == [] && !tooLong
      modifies `pos, buf, `pending, `leftover, `leftoverSize, `tooLong, `pendingSpans, `chunkEnd
      ensures Valid() && Rest() == old(Rest()) && pos < old(pos) == chunkEnd
    {
      hide Rejected, IsBoundary, LinesFrom, NoLF, Joined, PendingLineAgrees;
      var n := bufSize;
      if n > pos {
        n := pos;
      }
      BoundaryStep(|file|, bufSize, pos, n);
      ReadChunk(n);
      ScanChunk(n, old(Rest()));
    }

    /** Delivers the next line from the back. Without a next line it reports the end of the file, or that the
        next line is rejected as too long. */
    method Scan() returns (ok: bool)
      requires Valid()
      modifies this, buf
      ensures Valid()
      ensures ok ==> Delivered(old(Rest()))
      ensures !ok ==> Rest() == old(Rest()) && (tooLong <==> Rest() != [])
      ensures !ok && tooLong ==>
                && |pending| < |Rest()| && Rejected(|file|, bufSize, maxSize, Rest()[|pending|])
                && Rest()[|pending|].start <= pos && Rest()[|pending|].end > pos + maxSize
      ensures !ok && tooLong && !old(tooLong) ==> chunkEnd <= old(pos)
      ensures ok && tooLong ==> old(tooLong)
      ensures pos <= old(pos)
    {
      hide Rejected, IsBoundary, LinesFrom, LeftoverAgrees, PendingAgrees;
      if pending != [] {
        TakePending();
        return true;
      }
      if tooLong {
        GivenUpLine();
        return false;
      }
      while true
        invariant Valid() && pending == [] && !tooLong && Rest() == old(Rest()) && pos <= old(pos)
        decreases pos
      {
        if pos == 0 {
          ok := TakeFirstLine();
          return;
        }
        Refill();
        if tooLong {
          GivenUpLine();
          return false;
        }
        if pending != [] {
          TakePending();
          return true;
        }
      }
    }
  }

  /** What scanning a whole file delivers: its lines in reverse without final carriage returns, where a final
      line feed and an empty first line are ignored. */
  ghost function LinesFromBack(content: Bytes): seq<Bytes> {
    var lines := ReversedLines(content[..TrimmedEnd(content, |content|)]);
    seq(|lines|, i requires 0 <= i < |lines| => DropCR(lines[i]))
  }

  /** A line as it stands in a file, without its line feed. */
  function Ended(line: Bytes, cr: bool): Bytes {
    if cr then line + [CR] else line
  }

  /** The file of these lines; a line whose flag is set ends with a carriage return and a line feed. */
  function FileOf(lines: seq<Bytes>, crs: seq<bool>): Bytes
    requires |lines| == |crs|
  {
    if lines == [] then []
    else
      var n := |lines| - 1;
      FileOf(lines[..n], crs[..n]) + (Ended(lines[n], crs[n]) + [LF])
  }

  predicate IsPlain(line: Bytes) {
    LF !in line && (line != [] ==> line[|line| - 1] != CR)
  }

  /** The lines of a file as they stand between its line feeds. */
  function AllEnded(lines: seq<Bytes>, crs: seq<bool>): (r: seq<Bytes>)
    requires |lines| == |crs|
    ensures |r| == |lines|
  {
    seq(|lines|, i requires 0 <= i < |lines| => Ended(lines[i], crs[i]))
  }

  lemma {:induction false} SplitFile(lines: seq<Bytes>, crs: seq<bool>)
    requires |lines| == |crs| && lines != [] && forall line :: line in lines ==> IsPlain(line)
    ensures var file := FileOf(lines, crs);
            && file != [] && file[|file| - 1] == LF && Split(file[..|file| - 1]) == AllEnded(lines, crs)
  {
    hide Split, FileOf, AllEnded;
    var n := |lines| - 1;
    var init, tail := FileOf(lines[..n], crs[..n]), Ended(lines[n], crs[n]);
    FileStep(lines, crs);
    assert lines[n] in lines && LF !in tail;
    if n == 0 {
      OnlyPart(tail);
    } else {
      assert forall line :: line in lines[..n] ==> line in lines;
      SplitFile(lines[..n], crs[..n]);
      SplitLast(init[..|init| - 1], tail);
      assert init == init[..|init| - 1] + [LF];
    }
  }

  lemma FileStep(lines: seq<Bytes>, crs: seq<bool>)
    requires |lines| == |crs| && lines != []
    ensures var n := |lines| - 1;
            var init, tail, file := FileOf(lines[..n], crs[..n]), Ended(lines[n], crs[n]), FileOf(lines, crs);
            && file != [] && file[|file| - 1] == LF && file[..|file| - 1] == init + tail
            && (n == 0 ==> init + tail == tail && AllEnded(lines, crs) == [tail])
            && AllEnded(lines, crs) == AllEnded(lines[..n], crs[..n]) + [tail]
  {
    hide AllEnded, Ended;
    var n := |lines| - 1;
    var init, tail := FileOf(lines[..n], crs[..n]), Ended(lines[n], crs[n]);
    EndOfFile(init, tail);
    EndedStep(lines, crs);
  }

  lemma EndOfFile(init: Bytes, tail: Bytes)
    ensures var file := init + (tail + [LF]);
            file != [] && file[|file| - 1] == LF && file[..|file| - 1] == init + tail
    ensures init == [] ==> init + tail == tail
  {
  }

  lemma EndedStep(lines: seq<Bytes>, crs: seq<bool>)
    requires |lines| == |crs| && lines != []
    ensures var n := |lines| - 1;
            && AllEnded(lines, crs) == AllEnded(lines[..n], crs[..n]) + [Ended(lines[n], crs[n])]
            && (n == 0 ==> AllEnded(lines, crs) == [Ended(lines[n], crs[n])])
  {
  }

  lemma OnlyPart(content: Bytes)
    requires LF !in content
    ensures Split(content) == [content]
  {
  }

  /** The lines that were put into a file come out of it in reverse, as they were, whatever line ends they got. Only
      an empty first line that ends with a line feed alone is left out. */
  lemma LinesComeBack(lines: seq<Bytes>, crs: seq<bool>)
    requires |lines| == |crs| && forall line :: line in lines ==> IsPlain(line)
    ensures LinesFromBack(FileOf(lines, crs))
            == Reverse(if lines != [] && lines[0] == [] && !crs[0] then lines[1..] else lines)
  {
    hide Split, FileOf;
    if lines == [] {
      assert FileOf(lines, crs) == [] by {
        NoLines(crs);
      }
      assert Split([]) == [[]] by {
        OnlyPart([]);
      }
    } else {
      SplitFile(lines, crs);
      var stored := AllEnded(lines, crs);
      assert stored[0] == [] <==> lines[0] == [] && !crs[0];
      forall i | 0 <= i < |lines|
        ensures DropCR(stored[i]) == lines[i]
      {
        assert lines[i] in lines;
      }
    }
  }

  lemma NoLines(crs: seq<bool>)
    requires crs == []
    ensures FileOf([], crs) == []
  {
  }

  /** A missing final line feed makes no difference. */
  lemma FinalLineFeedIgnored(file: Bytes)
    requires file != [] && file[|file| - 1] != LF
    ensures LinesFromBack(file + [LF]) == LinesFromBack(file)
  {
    assert (file + [LF])[..|file|] == file == file[..|file|];
  }

  /** All lines that a scanner has to deliver. */
  ghost function AllSpans(file: Bytes): (spans: seq<Span>)
    ensures forall s :: s in spans ==> Within(s, file)
  {
    SpansBefore(file, TrimmedEnd(file, |file|))
  }

  /** The lines delivered so far. */
  ghost predicate DeliveredAgree(file: Bytes, bufSize: nat, maxSize: nat, lines: seq<Bytes>) {
    var all := AllSpans(file);
    && |lines| <= |all|
    && forall i :: 0 <= i < |lines| ==> PendingLineAgrees(file, bufSize, maxSize, lines[i], all[i])
  }

  lemma DeliveredIsPrefix(file: Bytes, bufSize: nat, maxSize: nat, lines: seq<Bytes>)
    requires DeliveredAgree(file, bufSize, maxSize, lines)
    ensures |LinesFromBack(file)| == |AllSpans(file)| && lines <= LinesFromBack(file)
  {
    hide Rejected, ReversedLines;
    SpansAreReversedLines(file, TrimmedEnd(file, |file|));
    var all := AllSpans(file);
    assert Texts(file, all) == ReversedLines(file[..TrimmedEnd(file, |file|)]);
    forall i | 0 <= i < |lines|
      ensures lines[i] == LinesFromBack(file)[i]
    {
      assert PendingLineAgrees(file, bufSize, maxSize, lines[i], all[i]);
    }
  }

  /** The i-th line from the back is over the limit at some chunk boundary. */
  ghost predicate TooLongAt(file: Bytes, bufSize: nat, maxSize: nat, i: nat) {
    i < |AllSpans(file)| && Rejected(|file|, bufSize, maxSize, AllSpans(file)[i])
  }

  lemma FittingLinesAccepted(file: Bytes, bufSize: nat, maxSize: nat, i: nat)
    requires forall s :: s in AllSpans(file) ==> s.end - s.start <= maxSize
    ensures !TooLongAt(file, bufSize, maxSize, i)
  {
    if i < |AllSpans(file)| {
      assert AllSpans(file)[i] in AllSpans(file);
      FittingLineAccepted(|file|, bufSize, maxSize, AllSpans(file)[i]);
    }
  }

  lemma DeliveredNotTooLong(file: Bytes, bufSize: nat, maxSize: nat, lines: seq<Bytes>)
    requires DeliveredAgree(file, bufSize, maxSize, lines)
    ensures forall i: nat :: i < |lines| ==> !TooLongAt(file, bufSize, maxSize, i)
  {
    forall i: nat | i < |lines|
      ensures !TooLongAt(file, bufSize, maxSize, i)
    {
      assert PendingLineAgrees(file, bufSize, maxSize, lines[i], AllSpans(file)[i]);
    }
  }

  /** The scan of a file ended, after `delivered` lines, at the chunk [p, q): line number m from the back reaches
      over the limit into it from the left, and the lines in between, which were completed in the chunk, are
      lost. */
  ghost predicate GaveUp(file: Bytes, bufSize: nat, maxSize: nat, delivered: nat, p: nat, q: nat, m: nat) {
    var all := AllSpans(file);
    && IsBoundary(|file|, bufSize, p) && IsBoundary(|file|, bufSize, q) && p < q <= p + bufSize
    && delivered <= m < |all| && all[m].start <= p && all[m].end > p + maxSize
    && (forall i :: 0 <= i < delivered ==> all[i].start > q)
    && (forall i :: delivered <= i < m ==> p < all[i].start <= q)
  }

  /** The state in which ScanAll ends. */
  lemma GaveUpHere(scanner: Scanner, lines: seq<Bytes>, before: nat)
    requires scanner.Valid() && scanner.tooLong && scanner.chunkEnd <= before
    requires var all := AllSpans(scanner.file);
             && |lines| <= |all| && scanner.Rest() == all[|lines|..] && |scanner.pending| < |scanner.Rest()|
             && scanner.Rest()[|scanner.pending|].start <= scanner.pos
             && scanner.Rest()[|scanner.pending|].end > scanner.pos + scanner.maxSize
             && forall i :: 0 <= i < |lines| ==> all[i].start > before
    ensures GaveUp(scanner.file, scanner.bufSize, scanner.maxSize, |lines|, scanner.pos, scanner.chunkEnd,
                   |lines| + |scanner.pending|)
  {
    hide IsBoundary, LinesFrom, PendingLineAgrees, LeftoverAgrees, SpansBefore, TrimmedEnd;
    var all, m := AllSpans(scanner.file), |lines| + |scanner.pending|;
    forall i | |lines| <= i < m
      ensures scanner.pos < all[i].start <= scanner.chunkEnd
    {
      assert all[i] == scanner.Rest()[i - |lines|] == scanner.pendingSpans[i - |lines|];
    }
  }

  /** Scans a whole file. It delivers exactly the lines from the back; when it gives up, some line is over the
      limit at a chunk boundary, and it has delivered the lines after that one, except those completed in the
      chunk in which it gave up. There are none of these if the limit is at least the buffer size less one. */
  method ScanAll(file: Bytes, bufSize: nat, maxSize: nat) returns (lines: seq<Bytes>, ok: bool)
    ensures lines <= LinesFromBack(file) && (ok <==> lines == LinesFromBack(file))
    ensures forall i: nat :: i < |lines| ==> !TooLongAt(file, BufferSize(bufSize), maxSize, i)
    ensures !ok <==> exists i: nat :: TooLongAt(file, BufferSize(bufSize), maxSize, i)
    ensures !ok ==> exists p, q, m :: GaveUp(file, BufferSize(bufSize), maxSize, |lines|, p, q, m)
    ensures !ok && maxSize + 1 >= BufferSize(bufSize) ==> TooLongAt(file, BufferSize(bufSize), maxSize, |lines|)
    ensures (forall s :: s in AllSpans(file) ==> s.end - s.start <= maxSize) ==> ok
  {
    hide Rejected, SpansBefore, TrimmedEnd, LinesFromBack, PendingAgrees, LeftoverAgrees, IsBoundary, LinesFrom, GaveUp,
         DropCR, BufferSize;
    var scanner := new Scanner(file, bufSize, maxSize);
    lines := [];
    ghost var all := AllSpans(file);
    while true
      invariant fresh(scanner) && fresh(scanner.buf) && scanner.Valid()
      invariant scanner.file == file && scanner.maxSize == maxSize && scanner.bufSize == BufferSize(bufSize)
      invariant DeliveredAgree(file, scanner.bufSize, maxSize, lines)
      invariant scanner.pos + scanner.leftoverSize <= |file| && scanner.Rest() == all[|lines|..]
      invariant !scanner.tooLong
      invariant scanner.Rest() == [] || forall i :: 0 <= i < |lines| ==> all[i].start > scanner.pos
      decreases |scanner.Rest()|
    {
      ghost var before := scanner.pos;
      var more := scanner.Scan();
      if !more {
        ok := !scanner.tooLong;
        DeliveredIsPrefix(file, scanner.bufSize, maxSize, lines);
        DeliveredNotTooLong(file, scanner.bufSize, maxSize, lines);
        if !ok {
          ghost var i := |lines| + |scanner.pending|;
          assert TooLongAt(file, BufferSize(bufSize), maxSize, i);
          GaveUpHere(scanner, lines, before);
          if forall s :: s in all ==> s.end - s.start <= maxSize {
            FittingLinesAccepted(file, scanner.bufSize, maxSize, i);
          }
        }
        return;
      }
      assert PendingLineAgrees(file, scanner.bufSize, maxSize, scanner.line, all[|lines|]);
      lines := lines + [scanner.line];
    }
  }

  lemma SpansAfterLF(file: Bytes, i: nat, end: nat)
    requires i < end <= |file| && file[i] == LF && NoLF(file, i + 1, end)
    ensures SpansBefore(file, end) == [Span(i + 1, end)] + SpansBefore(file, i)
  {
    assert LastLF(file, end) == i;
  }

  function Letters(n: nat): (r: Bytes)
    ensures |r| == n && forall k :: 0 <= k < n ==> r[k] == 120
  {
    seq(n, _ => 120)
  }

  /** An empty first line and one line that is over the limit by one byte less than a buffer. */
  function OverlongFile(): Bytes {
    [LF] + Letters(MESSAGE_SCAN_BUFFER_MAX + MESSAGE_SCAN_BUFFER_INIT - 1)
  }

  lemma OverlongSpans()
    ensures var size := MESSAGE_SCAN_BUFFER_MAX + MESSAGE_SCAN_BUFFER_INIT;
            |OverlongFile()| == size && AllSpans(OverlongFile()) == [Span(1, size)]
  {
    var file := OverlongFile();
    SpansAfterLF(file, 0, |file|);
    assert SpansBefore(file, 0) == [];
  }

  /** With the message readers' sizes the bound of a whole buffer is tight: this line is accepted. */
  lemma OverlongLineAccepted(i: nat)
    ensures !TooLongAt(OverlongFile(), MESSAGE_SCAN_BUFFER_INIT, MESSAGE_SCAN_BUFFER_MAX, i)
  {
    OverlongSpans();
    var size := MESSAGE_SCAN_BUFFER_MAX + MESSAGE_SCAN_BUFFER_INIT;
    forall c: nat | 1 <= c <= size && IsBoundary(size, MESSAGE_SCAN_BUFFER_INIT, c)
      ensures size - c <= MESSAGE_SCAN_BUFFER_MAX
    {
      var k: nat :| c == size - Times(k, MESSAGE_SCAN_BUFFER_INIT);
      assert k <= 32;
    }
  }

  /** The limit is not exact: the scan of this file delivers a line that is over it. */
  method ScanOverlong() returns (lines: seq<Bytes>, ok: bool)
    ensures ok && |lines| == 1 && |lines[0]| == MESSAGE_SCAN_BUFFER_MAX + MESSAGE_SCAN_BUFFER_INIT - 1
  {
    var file := OverlongFile();
    lines, ok := ScanAll(file, MESSAGE_SCAN_BUFFER_INIT, MESSAGE_SCAN_BUFFER_MAX);
    if !ok {
      ghost var i: nat :| TooLongAt(file, MESSAGE_SCAN_BUFFER_INIT, MESSAGE_SCAN_BUFFER_MAX, i);
      OverlongLineAccepted(i);
      assert false;
    }
    OverlongDelivered();
  }

  lemma OverlongDelivered()
    ensures var lines := LinesFromBack(OverlongFile());
            |lines| == 1 && |lines[0]| == MESSAGE_SCAN_BUFFER_MAX + MESSAGE_SCAN_BUFFER_INIT - 1
  {
    var file := OverlongFile();
    OverlongSpans();
    SpansAreReversedLines(file, TrimmedEnd(file, |file|));
    assert Texts(file, [Span(1, |file|)])[0] == file[1..];
    assert DropCR(file[1..]) == file[1..];
  }

  /** A line of a buffer less one byte, an empty line, and another line of that length. */
  function LossFile(bufSize: nat): Bytes
    requires bufSize >= 1
  {
    Letters(bufSize - 1) + [LF, LF] + Letters(bufSize - 1)
  }

  lemma LossSpans(bufSize: nat)
    requires bufSize >= 2
    ensures |LossFile(bufSize)| == 2 * bufSize
    ensures AllSpans(LossFile(bufSize))
            == [Span(bufSize + 1, 2 * bufSize), Span(bufSize, bufSize), Span(0, bufSize - 1)]
  {
    var file := LossFile(bufSize);
    SpansAfterLF(file, bufSize, 2 * bufSize);
    SpansAfterLF(file, bufSize - 1, bufSize);
    assert NoLF(file, 0, bufSize - 1);
    assert LastLF(file, bufSize - 1) == -1;
    assert SpansBefore(file, bufSize - 1) == [Span(0, bufSize - 1)];
  }

  /** The file's chunks start at 0 and in its middle, and end in its middle and at its end. */
  lemma LossBoundary(bufSize: nat, c: nat)
    requires bufSize >= 1 && IsBoundary(2 * bufSize, bufSize, c) && c <= 2 * bufSize
    ensures c in {0, bufSize, 2 * bufSize}
  {
    assert 2 * bufSize == 2 * bufSize - Times(0, bufSize);
    assert bufSize == 2 * bufSize - Times(1, bufSize);
    if 0 < c < 2 * bufSize {
      NoBoundaryInside(2 * bufSize, bufSize, 2 * bufSize, c);
      if c < bufSize {
        NoBoundaryInside(2 * bufSize, bufSize, bufSize, c);
      }
    }
  }

  lemma LossGaveUp(bufSize: nat, maxSize: nat, delivered: nat, p: nat, q: nat, m: nat)
    requires bufSize >= 2 && GaveUp(LossFile(bufSize), bufSize, maxSize, delivered, p, q, m)
    ensures delivered == 1 && m == 2
  {
    LossSpans(bufSize);
    LossBoundary(bufSize, p);
    LossBoundary(bufSize, q);
    var all := AllSpans(LossFile(bufSize));
    assert all[0].start == bufSize + 1 && all[1].start == all[1].end == bufSize && all[2].end == bufSize - 1;
    assert m == 2 && p == 0 && q == bufSize;
  }

  /** Waiting lines can be lost exactly if the limit is below the buffer size less one: for each such limit the
      scan of this file ends with its last line, though the empty line before that fits. */
  method ScanLosesLine(bufSize: nat, maxSize: nat) returns (lines: seq<Bytes>, ok: bool)
    requires maxSize + 2 <= BufferSize(bufSize)
    ensures var file := LossFile(BufferSize(bufSize));
            && !ok && |lines| == 1 && lines < LinesFromBack(file) && LinesFromBack(file)[1] == []
  {
    hide GaveUp, TooLongAt, LinesFromBack;
    var file := LossFile(BufferSize(bufSize));
    lines, ok := ScanAll(file, bufSize, maxSize);
    LossRejected(BufferSize(bufSize), maxSize);
    ghost var p, q, m :| GaveUp(file, BufferSize(bufSize), maxSize, |lines|, p, q, m);
    LossGaveUp(BufferSize(bufSize), maxSize, |lines|, p, q, m);
    LossLines(BufferSize(bufSize));
  }

  lemma LossRejected(bufSize: nat, maxSize: nat)
    requires maxSize + 2 <= bufSize
    ensures TooLongAt(LossFile(bufSize), bufSize, maxSize, 2)
  {
    LossSpans(bufSize);
    var s := Span(0, bufSize - 1);
    assert IsBoundary(2 * bufSize, bufSize, 0) && s.start <= 0 <= s.end && s.end - 0 > maxSize;
  }

  lemma LossLines(bufSize: nat)
    requires bufSize >= 2
    ensures |LinesFromBack(LossFile(bufSize))| == 3 && LinesFromBack(LossFile(bufSize))[1] == []
  {
    var file := LossFile(bufSize);
    LossSpans(bufSize);
    SpansAreReversedLines(file, TrimmedEnd(file, |file|));
    assert Texts(file, AllSpans(file))[1] == [];
  }

  /** What a search in the chunk says about the file. */
  lemma InChunk(file: Bytes, chunk: Bytes, pos: nat, right: nat, idx: int)
    requires right <= |chunk| && pos + |chunk| <= |file| && chunk == file[pos..pos + |chunk|]
    requires idx == LastLF(chunk, right)
    ensures NoLF(file, pos + idx + 1, pos + right)
    ensures idx >= 0 ==> file[pos + idx] == LF
    ensures chunk[idx + 1..right] == file[pos + idx + 1..pos + right]
  {
    hide LastLF;
    SliceOfSlice(file, pos, pos + |chunk|, idx + 1, right);
    if idx >= 0 {
      assert chunk[idx] == file[pos + idx];
    }
    forall k | pos + idx + 1 <= k < pos + right
      ensures file[k] != LF
    {
      var i := k - pos;
      assert chunk[i] == file[k];
    }
  }
}
