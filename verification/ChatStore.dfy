/** The message file of a chat session: appending, and the two readers that go through it from the back. */
module ChatStore {
  import opened Strings
  import opened Lines
  import opened ReverseScanner

  datatype Message = Message(
    role: string,
    content: string,
    parts: seq<string>,
    ts: Option<int>,
    messageId: string,
    note: string  // stands for the other text fields
  )

  /** How a message is written as one line, and the two operations on content parts. */
  datatype Codec = Codec(
    encode: Message -> Bytes,
    decode: Bytes -> Option<Message>,
    normalize: seq<string> -> seq<string>,
    visibleText: seq<string> -> string
  )

  predicate SpaceByte(b: byte) {
    b == 9 || b == 10 || b == 11 || b == 12 || b == 13 || b == 32
  }

  function TrimBytesLeft(s: Bytes): Bytes {
    if s != [] && SpaceByte(s[0]) then TrimBytesLeft(s[1..]) else s
  }

  function TrimBytesRight(s: Bytes): Bytes {
    if s != [] && SpaceByte(s[|s| - 1]) then TrimBytesRight(s[..|s| - 1]) else s
  }

  function TrimBytes(s: Bytes): Bytes {
    TrimBytesRight(TrimBytesLeft(s))
  }

  predicate AllSpaceBytes(s: Bytes) {
    forall i :: 0 <= i < |s| ==> SpaceByte(s[i])
  }

  lemma {:induction false} TrimBytesLeftDrops(before: Bytes, rest: Bytes)
    requires AllSpaceBytes(before) && (rest != [] ==> !SpaceByte(rest[0]))
    ensures TrimBytesLeft(before + rest) == rest
  {
    if before == [] {
      assert before + rest == rest;
    } else {
      assert (before + rest)[1..] == before[1..] + rest;
      TrimBytesLeftDrops(before[1..], rest);
    }
  }

  lemma {:induction false} TrimBytesRightDrops(core: Bytes, after: Bytes)
    requires AllSpaceBytes(after) && core != [] && !SpaceByte(core[|core| - 1])
    ensures TrimBytesRight(core + after) == core
  {
    if after == [] {
      assert core + after == core;
    } else {
      assert (core + after)[..|core + after| - 1] == core + after[..|after| - 1];
      TrimBytesRightDrops(core, after[..|after| - 1]);
    }
  }

  /** The white space around what a line holds does not matter, and a line of nothing else holds no message. */
  lemma LineIsTrimmed(codec: Codec, before: Bytes, core: Bytes, after: Bytes)
    requires AllSpaceBytes(before) && AllSpaceBytes(after)
    requires core != [] && !SpaceByte(core[0]) && !SpaceByte(core[|core| - 1])
    ensures DecodeLine(codec, before + core + after) == codec.decode(core)
    ensures DecodeLine(codec, before) == None
  {
    assert before + core + after == before + (core + after);
    TrimBytesLeftDrops(before, core + after);
    TrimBytesRightDrops(core, after);
    assert before + [] == before;
    TrimBytesLeftDrops(before, []);
  }

  /** Decoding undoes encoding, and an encoding is one line without white space at its ends. */
  ghost predicate Faithful(codec: Codec) {
    forall m :: FaithfulFor(codec, m)
  }

  ghost predicate FaithfulFor(codec: Codec, m: Message) {
    var line := codec.encode(m);
    && codec.decode(line) == Some(m)
    && line != [] && LF !in line && !SpaceByte(line[0]) && !SpaceByte(line[|line| - 1])
  }

  const DEFAULT_MAX_HISTORY_COUNT: int := 200

  function ClampHistoryCount(requested: int, max: int): (r: int)
    ensures r >= 1
    ensures var bound := if max <= 0 then DEFAULT_MAX_HISTORY_COUNT else max;
            r <= bound && (1 <= requested <= bound ==> r == requested) && (r != requested ==> r == bound)
  {
    var bound := if max <= 0 then DEFAULT_MAX_HISTORY_COUNT else max;
    if requested <= 0 || requested > bound then bound else requested
  }

  /** What a reader makes of one line. */
  function DecodeLine(codec: Codec, line: Bytes): Option<Message> {
    var trimmed := TrimBytes(line);
    if trimmed == [] then None else codec.decode(trimmed)
  }

  /** The messages on the lines; lines that hold none are skipped. */
  function Decoded(codec: Codec, lines: seq<Bytes>): (messages: seq<Message>)
    ensures |messages| <= |lines|
  {
    if lines == [] then []
    else
      var last := DecodeLine(codec, lines[|lines| - 1]);
      Decoded(codec, lines[..|lines| - 1]) + if last.Some? then [last.value] else []
  }

  lemma DecodedAppend(codec: Codec, lines: seq<Bytes>, line: Bytes)
    ensures var m := DecodeLine(codec, line);
            Decoded(codec, lines + [line]) == Decoded(codec, lines) + if m.Some? then [m.value] else []
  {
    assert (lines + [line])[..|lines|] == lines;
  }

  /** The three ways in which a reader treats a line. */
  lemma ReadLine(codec: Codec, lines: seq<Bytes>, line: Bytes)
    ensures var trimmed := TrimBytes(line);
            Decoded(codec, lines + [line])
            == if trimmed != [] && codec.decode(trimmed).Some?
               then Decoded(codec, lines) + [codec.decode(trimmed).value]
               else Decoded(codec, lines)
  {
    DecodedAppend(codec, lines, line);
  }

  lemma {:induction false} DecodedPrefix(codec: Codec, lines: seq<Bytes>, n: nat)
    requires n <= |lines|
    ensures Decoded(codec, lines[..n]) <= Decoded(codec, lines)
  {
    if n == |lines| {
      assert lines[..n] == lines;
    } else {
      var init := lines[..|lines| - 1];
      assert init[..n] == lines[..n];
      DecodedPrefix(codec, init, n);
    }
  }

  /** The latest messages, oldest first. */
  function Latest(newestFirst: seq<Message>, limit: nat): seq<Message> {
    Reverse(if |newestFirst| <= limit then newestFirst else newestFirst[..limit])
  }

  /** Some line is over the limit, and the reader needs to go as far back as that line. */
  ghost predicate BlockedBefore(codec: Codec, file: Bytes, limit: nat) {
    exists k: nat :: BlockedAt(codec, file, limit, k)
  }

  ghost predicate BlockedAt(codec: Codec, file: Bytes, limit: nat, k: nat) {
    && TooLongAt(file, MESSAGE_SCAN_BUFFER_INIT, MESSAGE_SCAN_BUFFER_MAX, k)
    && k < |LinesFromBack(file)| && |Decoded(codec, LinesFromBack(file)[..k])| < limit
  }

  /** The scan so far: `lines` were delivered, and `scanner` has the rest. */
  ghost predicate Scanning(scanner: Scanner, file: Bytes, lines: seq<Bytes>)
    reads scanner
  {
    && scanner.Valid() && scanner.file == file
    && scanner.bufSize == MESSAGE_SCAN_BUFFER_INIT && scanner.maxSize == MESSAGE_SCAN_BUFFER_MAX
    && DeliveredAgree(file, MESSAGE_SCAN_BUFFER_INIT, MESSAGE_SCAN_BUFFER_MAX, lines)
    && scanner.Rest() == AllSpans(file)[|lines|..]
    && !scanner.tooLong
  }

  /** These lines were delivered, and none of them was too long. */
  ghost predicate ReadSoFar(file: Bytes, lines: seq<Bytes>) {
    && lines <= LinesFromBack(file)
    && DeliveredAgree(file, MESSAGE_SCAN_BUFFER_INIT, MESSAGE_SCAN_BUFFER_MAX, lines)
  }

  method OpenScanner(file: Bytes) returns (scanner: Scanner)
    ensures fresh(scanner) && fresh(scanner.buf) && Scanning(scanner, file, []) && ReadSoFar(file, [])
  {
    scanner := new Scanner(file, MESSAGE_SCAN_BUFFER_INIT, MESSAGE_SCAN_BUFFER_MAX);
  }

  /** One step of a reader's loop. */
  method NextLine(scanner: Scanner, file: Bytes, ghost lines: seq<Bytes>) returns (more: bool)
    requires Scanning(scanner, file, lines)
    modifies scanner, scanner.buf
    ensures ReadSoFar(file, lines)
    ensures more ==> Scanning(scanner, file, lines + [scanner.line]) && ReadSoFar(file, lines + [scanner.line])
    ensures more ==> !scanner.tooLong
    ensures !more && scanner.tooLong ==>
              && lines < LinesFromBack(file)
              && TooLongAt(file, MESSAGE_SCAN_BUFFER_INIT, MESSAGE_SCAN_BUFFER_MAX, |lines|)
    ensures !more && !scanner.tooLong ==> lines == LinesFromBack(file)
  {
    hide Rejected, SpansBefore, TrimmedEnd, LinesFromBack, PendingAgrees, LeftoverAgrees, IsBoundary, LinesFrom;
    DeliveredIsPrefix(file, MESSAGE_SCAN_BUFFER_INIT, MESSAGE_SCAN_BUFFER_MAX, lines);
    more := scanner.Scan();
    if more {
      DeliveredIsPrefix(file, MESSAGE_SCAN_BUFFER_INIT, MESSAGE_SCAN_BUFFER_MAX, lines + [scanner.line]);
    }
  }

  /** A reader that has gone through n lines, and needs no more or has no more, is not blocked. */
  lemma NotBlocked(codec: Codec, file: Bytes, limit: nat, lines: seq<Bytes>)
    requires ReadSoFar(file, lines)
    requires lines == LinesFromBack(file) || |Decoded(codec, lines)| >= limit
    ensures !BlockedBefore(codec, file, limit)
  {
    hide TooLongAt, LinesFromBack, DeliveredAgree;
    DeliveredNotTooLong(file, MESSAGE_SCAN_BUFFER_INIT, MESSAGE_SCAN_BUFFER_MAX, lines);
    forall k: nat | |lines| <= k < |LinesFromBack(file)|
      ensures !BlockedAt(codec, file, limit, k)
    {
      var upTo := LinesFromBack(file)[..k];
      assert upTo[..|lines|] == lines;
      DecodedPrefix(codec, upTo, |lines|);
    }
  }

  lemma Blocked(codec: Codec, file: Bytes, limit: nat, lines: seq<Bytes>)
    requires lines < LinesFromBack(file) && |Decoded(codec, lines)| < limit
    requires TooLongAt(file, MESSAGE_SCAN_BUFFER_INIT, MESSAGE_SCAN_BUFFER_MAX, |lines|)
    ensures BlockedBefore(codec, file, limit)
  {
    assert LinesFromBack(file)[..|lines|] == lines;
    assert BlockedAt(codec, file, limit, |lines|);
  }

  /** Reading enough lines gives the same latest messages as reading all of them. */
  lemma EnoughRead(codec: Codec, file: Bytes, limit: nat, lines: seq<Bytes>)
    requires ReadSoFar(file, lines) && |Decoded(codec, lines)| <= limit
    requires lines == LinesFromBack(file) || |Decoded(codec, lines)| == limit
    ensures Latest(Decoded(codec, LinesFromBack(file)), limit) == Reverse(Decoded(codec, lines))
  {
    hide LinesFromBack, Reverse, DeliveredAgree;
    assert LinesFromBack(file)[..|lines|] == lines;
    DecodedPrefix(codec, LinesFromBack(file), |lines|);
    if |Decoded(codec, lines)| == limit {
      assert Decoded(codec, LinesFromBack(file))[..limit] == Decoded(codec, lines);
      if |Decoded(codec, LinesFromBack(file))| <= limit {
        assert Decoded(codec, LinesFromBack(file)) == Decoded(codec, lines);
      }
    }
  }

  lemma {:induction false} TrimmedEncoding(codec: Codec, m: Message)
    requires Faithful(codec)
    ensures DecodeLine(codec, DropCR(codec.encode(m))) == Some(m) && DropCR(codec.encode(m)) == codec.encode(m)
  {
    assert FaithfulFor(codec, m);
  }

  /** The file after appending the messages in order. */
  function Encoded(codec: Codec, messages: seq<Message>): Bytes {
    if messages == [] then []
    else Encoded(codec, messages[..|messages| - 1]) + codec.encode(messages[|messages| - 1]) + [LF]
  }

  /** The encodings, newest first. */
  function NewestFirst(codec: Codec, messages: seq<Message>): (r: seq<Bytes>)
    ensures |r| == |messages|
    ensures forall i :: 0 <= i < |r| ==> r[i] == codec.encode(messages[|messages| - 1 - i])
  {
    seq(|messages|, i requires 0 <= i < |messages| => codec.encode(messages[|messages| - 1 - i]))
  }

  lemma {:induction false} AppendedLines(codec: Codec, messages: seq<Message>)
    requires Faithful(codec) && messages != []
    ensures var file := Encoded(codec, messages);
            && file != [] && file[|file| - 1] == LF
            && ReversedLines(file[..|file| - 1]) == NewestFirst(codec, messages)
  {
    hide Split, Reverse, DropEmptyFirst;
    var file := Encoded(codec, messages);
    var init, line := messages[..|messages| - 1], codec.encode(messages[|messages| - 1]);
    assert FaithfulFor(codec, messages[|messages| - 1]);
    if init == [] {
      assert Encoded(codec, []) == [];
      assert file == line + [LF];
      assert file[..|file| - 1] == line;
      OnlyLine(line);
      assert NewestFirst(codec, messages) == [line];
    } else {
      AppendedLines(codec, init);
      var before := Encoded(codec, init);
      var body := before[..|before| - 1];
      assert file[..|file| - 1] == body + [LF] + line;
      SplitLast(body, line);
      ReversedAppend(Split(body), line);
      assert NewestFirst(codec, messages) == [line] + NewestFirst(codec, init);
    }
  }

  /** Reading an appended file from the back gives the encodings, newest first. */
  lemma AppendedFromBack(codec: Codec, messages: seq<Message>)
    requires Faithful(codec)
    ensures LinesFromBack(Encoded(codec, messages)) == NewestFirst(codec, messages)
  {
    var file := Encoded(codec, messages);
    if messages == [] {
      OnlyLine([]);
    } else {
      AppendedLines(codec, messages);
      forall i | 0 <= i < |messages|
        ensures DropCR(NewestFirst(codec, messages)[i]) == NewestFirst(codec, messages)[i]
      {
        TrimmedEncoding(codec, messages[|messages| - 1 - i]);
      }
    }
  }

  lemma {:induction false} DecodedAppended(codec: Codec, messages: seq<Message>, n: nat)
    requires Faithful(codec) && n <= |messages|
    ensures Decoded(codec, NewestFirst(codec, messages)[..n]) == Reverse(messages)[..n]
  {
    if n > 0 {
      var lines := NewestFirst(codec, messages);
      DecodedAppended(codec, messages, n - 1);
      assert lines[..n] == lines[..n - 1] + [lines[n - 1]];
      DecodedAppend(codec, lines[..n - 1], lines[n - 1]);
      TrimmedEncoding(codec, messages[|messages| - n]);
    }
  }

  /** The lengths of the lines that the scanner measures are those of the encodings. */
  lemma AppendedTooLong(codec: Codec, messages: seq<Message>, k: nat)
    requires Faithful(codec)
    requires TooLongAt(Encoded(codec, messages), MESSAGE_SCAN_BUFFER_INIT, MESSAGE_SCAN_BUFFER_MAX, k)
    ensures k < |messages| && |codec.encode(messages[|messages| - 1 - k])| > MESSAGE_SCAN_BUFFER_MAX
  {
    var file := Encoded(codec, messages);
    var end := TrimmedEnd(file, |file|);
    SpansAreReversedLines(file, end);
    if messages != [] {
      AppendedLines(codec, messages);
      assert Texts(file, AllSpans(file)) == NewestFirst(codec, messages);
      var s := AllSpans(file)[k];
      assert Text(file, s) == Texts(file, AllSpans(file))[k];
      assert Within(s, file) by {
        assert s in AllSpans(file);
      }
      assert |Text(file, s)| == s.end - s.start;
      assert NewestFirst(codec, messages)[k] == codec.encode(messages[|messages| - 1 - k]);
      FittingLineAccepted(|file|, MESSAGE_SCAN_BUFFER_INIT, |codec.encode(messages[|messages| - 1 - k])|, s);
      assert s.end - s.start == |codec.encode(messages[|messages| - 1 - k])|;
    }
  }

  lemma BlockedByOverlong(codec: Codec, messages: seq<Message>, limit: nat, k: nat)
    requires Faithful(codec) && BlockedAt(codec, Encoded(codec, messages), limit, k)
    ensures k < limit && k < |messages| && |codec.encode(messages[|messages| - 1 - k])| > MESSAGE_SCAN_BUFFER_MAX
  {
    hide TooLongAt, LinesFromBack, Decoded;
    AppendedTooLong(codec, messages, k);
    AppendedFromBack(codec, messages);
    DecodedAppended(codec, messages, k);
  }

  /** A reader of an appended file that needs the newest `limit` messages is never blocked when these fit. */
  lemma AppendedNotBlocked(codec: Codec, messages: seq<Message>, limit: nat)
    requires Faithful(codec)
    requires forall i :: 0 <= i < |messages| && i >= |messages| - limit ==>
               |codec.encode(messages[i])| <= MESSAGE_SCAN_BUFFER_MAX
    ensures !BlockedBefore(codec, Encoded(codec, messages), limit)
  {
    hide BlockedAt, Faithful;
    forall k: nat
      ensures !BlockedAt(codec, Encoded(codec, messages), limit, k)
    {
      if BlockedAt(codec, Encoded(codec, messages), limit, k) {
        BlockedByOverlong(codec, messages, limit, k);
      }
    }
  }

  /** The last min(limit, count) of the appended messages, in the order of their appends. */
  lemma LatestAppended(codec: Codec, messages: seq<Message>, limit: nat)
    requires Faithful(codec)
    ensures Latest(Decoded(codec, LinesFromBack(Encoded(codec, messages))), limit)
            == messages[if |messages| <= limit then 0 else |messages| - limit..]
  {
    hide Reverse, LinesFromBack, Decoded, Faithful;
    AllDecoded(codec, messages);
    ReverseTwice(messages, limit);
  }

  lemma ReverseTwice(messages: seq<Message>, limit: nat)
    ensures Latest(Reverse(messages), limit) == messages[if |messages| <= limit then 0 else |messages| - limit..]
  {
    var from := if |messages| <= limit then 0 else |messages| - limit;
    var taken := if |messages| <= limit then Reverse(messages) else Reverse(messages)[..limit];
    forall i | 0 <= i < |taken|
      ensures Reverse(taken)[i] == messages[from..][i]
    {
    }
  }

  lemma AllDecoded(codec: Codec, messages: seq<Message>)
    requires Faithful(codec)
    ensures Decoded(codec, LinesFromBack(Encoded(codec, messages))) == Reverse(messages)
  {
    hide Reverse, LinesFromBack, Decoded, Faithful, NewestFirst;
    AppendedFromBack(codec, messages);
    DecodedAppended(codec, messages, |messages|);
    assert NewestFirst(codec, messages)[..|messages|] == NewestFirst(codec, messages);
    assert Reverse(messages)[..|messages|] == Reverse(messages);
  }

  /** The newest message with the id, given the messages newest first. */
  function FirstWithId(messages: seq<Message>, id: string): Option<Message> {
    if messages == [] then None
    else if Trim(messages[0].messageId) == id then Some(messages[0])
    else FirstWithId(messages[1..], id)
  }

  lemma {:induction false} FirstWithIdAppend(messages: seq<Message>, m: Message, id: string)
    requires FirstWithId(messages, id).None?
    ensures FirstWithId(messages + [m], id) == if Trim(m.messageId) == id then Some(m) else None
  {
    if messages != [] {
      assert (messages + [m])[1..] == messages[1..] + [m];
      FirstWithIdAppend(messages[1..], m, id);
    }
  }

  lemma {:induction false} FirstWithIdPrefix(messages: seq<Message>, more: seq<Message>, id: string)
    requires messages <= more && FirstWithId(messages, id).Some?
    ensures FirstWithId(more, id) == FirstWithId(messages, id)
  {
    if Trim(messages[0].messageId) != id {
      FirstWithIdPrefix(messages[1..], more[1..], id);
    }
  }

  /** The search gives the last append with the id, or none when there is no such append. */
  lemma {:induction false} LatestWithId(messages: seq<Message>, id: string)
    ensures match FirstWithId(Reverse(messages), id)
            case None => forall m :: m in messages ==> Trim(m.messageId) != id
            case Some(found) =>
              exists i :: 0 <= i < |messages| && messages[i] == found && Trim(found.messageId) == id
                          && forall j :: i < j < |messages| ==> Trim(messages[j].messageId) != id
  {
    if messages != [] {
      var init, last := messages[..|messages| - 1], messages[|messages| - 1];
      assert Reverse(messages)[1..] == Reverse(init);
      if Trim(last.messageId) != id {
        LatestWithId(init, id);
      }
    }
  }

  lemma {:induction false} FoundAt(messages: seq<Message>, id: string, k: nat)
    requires k < |messages| && Trim(messages[k].messageId) == id
    ensures FirstWithId(messages, id).Some?
  {
    if k > 0 {
      FoundAt(messages[1..], id, k - 1);
    }
  }

  /** The search of an appended file is the search among the appended messages, newest first. It is never
      blocked when all messages from some message with the id on, or else all messages, fit the limit. */
  lemma SearchAppended(codec: Codec, messages: seq<Message>, id: string, from: nat)
    requires Faithful(codec) && from <= |messages|
    requires from == 0 || (from < |messages| && Trim(messages[from].messageId) == id)
    requires forall i :: from <= i < |messages| ==> |codec.encode(messages[i])| <= MESSAGE_SCAN_BUFFER_MAX
    ensures !SearchBlocked(codec, Encoded(codec, messages), id)
    ensures FirstWithId(Decoded(codec, LinesFromBack(Encoded(codec, messages))), id)
            == FirstWithId(Reverse(messages), id)
  {
    hide Faithful, TooLongAt, LinesFromBack, Decoded;
    AppendedFromBack(codec, messages);
    AllDecoded(codec, messages);
    forall k: nat
      ensures !SearchBlockedAt(codec, Encoded(codec, messages), id, k)
    {
      if k < |messages| && TooLongAt(Encoded(codec, messages), MESSAGE_SCAN_BUFFER_INIT, MESSAGE_SCAN_BUFFER_MAX, k) {
        AppendedTooLong(codec, messages, k);
        DecodedAppended(codec, messages, k);
        FoundAt(Reverse(messages)[..k], id, |messages| - 1 - from);
      }
    }
  }

  lemma EmptyFile(codec: Codec, limit: nat)
    ensures LinesFromBack([]) == [] && !BlockedBefore(codec, [], limit) && ReadSoFar([], [])
    ensures Latest(Decoded(codec, LinesFromBack([])), limit) == []
  {
    OnlyLine([]);
  }

  /** The search meets a line that is too long before it finds the id. */
  ghost predicate SearchBlocked(codec: Codec, file: Bytes, id: string) {
    exists k: nat :: SearchBlockedAt(codec, file, id, k)
  }

  ghost predicate SearchBlockedAt(codec: Codec, file: Bytes, id: string, k: nat) {
    && TooLongAt(file, MESSAGE_SCAN_BUFFER_INIT, MESSAGE_SCAN_BUFFER_MAX, k)
    && k < |LinesFromBack(file)| && FirstWithId(Decoded(codec, LinesFromBack(file)[..k]), id).None?
  }

  lemma SearchNotBlocked(codec: Codec, file: Bytes, id: string, lines: seq<Bytes>)
    requires ReadSoFar(file, lines)
    requires lines == LinesFromBack(file) || FirstWithId(Decoded(codec, lines), id).Some?
    ensures !SearchBlocked(codec, file, id)
  {
    hide TooLongAt, LinesFromBack, DeliveredAgree;
    DeliveredNotTooLong(file, MESSAGE_SCAN_BUFFER_INIT, MESSAGE_SCAN_BUFFER_MAX, lines);
    forall k: nat | |lines| <= k < |LinesFromBack(file)|
      ensures !SearchBlockedAt(codec, file, id, k)
    {
      var upTo := LinesFromBack(file)[..k];
      assert upTo[..|lines|] == lines;
      DecodedPrefix(codec, upTo, |lines|);
      FirstWithIdPrefix(Decoded(codec, lines), Decoded(codec, upTo), id);
    }
  }

  lemma FoundEarly(codec: Codec, file: Bytes, lines: seq<Bytes>, id: string)
    requires lines <= LinesFromBack(file) && FirstWithId(Decoded(codec, lines), id).Some?
    ensures FirstWithId(Decoded(codec, LinesFromBack(file)), id) == FirstWithId(Decoded(codec, lines), id)
  {
    hide LinesFromBack;
    assert LinesFromBack(file)[..|lines|] == lines;
    DecodedPrefix(codec, LinesFromBack(file), |lines|);
    FirstWithIdPrefix(Decoded(codec, lines), Decoded(codec, LinesFromBack(file)), id);
  }

  /** The message file of one session. */
  class SessionLog {
    const codec: Codec
    var file: Option<Bytes>  // None: no message was appended yet
    ghost var appended: seq<Message>

    ghost predicate Valid()
      reads this
    {
      file == if appended == [] then None else Some(Encoded(codec, appended))
    }

    ghost function Content(): Bytes
      reads this
    {
      if file.Some? then file.value else []
    }

    constructor (codec: Codec)
      ensures Valid() && appended == [] && this.codec == codec
    {
      this.codec := codec;
      file, appended := None, [];
    }

    /** The message as it is stored, or None when it is refused. */
    function Stored(msg: Message, now: int): (r: Option<Message>)
      ensures r.Some? ==>
                && Trim(r.value.role) != [] && (Trim(r.value.content) != [] || r.value.parts != [])
                && r.value.ts.Some? && r.value.messageId == msg.messageId
    {
      var parts := codec.normalize(msg.parts);
      var content := if Trim(msg.content) == [] then codec.visibleText(parts) else msg.content;
      if Trim(msg.role) == [] || (Trim(content) == [] && parts == []) then None
      else Some(msg.(parts := parts, content := content, ts := if msg.ts.None? then Some(now) else msg.ts))
    }

    /** The stored message is the appended one with normalised parts, and with its own text and time; the text of the
        parts and the present time only stand in for missing ones. */
    ghost predicate StoredAs(msg: Message, now: int, stored: Message) {
      && stored.role == msg.role && stored.messageId == msg.messageId && stored.note == msg.note
      && stored.parts == codec.normalize(msg.parts)
      && (Trim(msg.content) != "" ==> stored.content == msg.content)
      && (Trim(msg.content) == "" ==> stored.content == codec.visibleText(stored.parts))
      && (msg.ts.Some? ==> stored.ts == msg.ts) && (msg.ts.None? ==> stored.ts == Some(now))
    }

    method AppendMessage(msg: Message, now: int) returns (ok: bool)
      requires Valid()
      modifies this
      ensures Valid() && (ok <==> Stored(msg, now).Some?)
      ensures appended == old(appended) + if ok then [Stored(msg, now).value] else []
      ensures !ok ==> file == old(file)
      ensures ok <==> Trim(msg.role) != ""
                      && (Trim(msg.content) != "" || codec.normalize(msg.parts) != []
                          || Trim(codec.visibleText(codec.normalize(msg.parts))) != "")
      ensures ok ==> appended != [] && StoredAs(msg, now, appended[|appended| - 1])
    {
      var stored := Stored(msg, now);
      if stored.None? {
        return false;
      }
      var line := codec.encode(stored.value);
      file := Some((if file.Some? then file.value else []) + (line + [LF]));
      appended := appended + [stored.value];
      assert appended[..|appended| - 1] == old(appended);
      assert file.value == old(Content()) + line + [LF];
      return true;
    }

    /** Reads the newest messages, oldest first, whatever the file holds. It fails exactly when a line that is
        too long comes before enough messages were read. */
    method ReadRecentMessages(requested: int) returns (ok: bool, all: seq<Message>)
      ensures var limit := ClampHistoryCount(requested, DEFAULT_MAX_HISTORY_COUNT);
              && (ok <==> !BlockedBefore(codec, Content(), limit))
              && (ok ==> all == Latest(Decoded(codec, LinesFromBack(Content())), limit))
    {
      hide BlockedBefore, LinesFromBack, Latest, DecodeLine, Reverse, TooLongAt, Scanning, DeliveredAgree;
      var limit := ClampHistoryCount(requested, DEFAULT_MAX_HISTORY_COUNT);
      all := [];
      if file.None? {
        EmptyFile(codec, limit);
        return true, all;
      }
      var scanner := OpenScanner(file.value);
      ghost var lines := [];
      while true
        invariant fresh(scanner) && fresh(scanner.buf) && Scanning(scanner, file.value, lines)
        invariant ReadSoFar(file.value, lines) && all == Decoded(codec, lines) && |all| < limit
        decreases |LinesFromBack(file.value)| - |lines|
      {
        var more := NextLine(scanner, file.value, lines);
        if !more {
          break;
        }
        ReadLine(codec, lines, scanner.line);
        lines := lines + [scanner.line];
        var line := TrimBytes(scanner.line);
        if line == [] {
          continue;
        }
        var m := codec.decode(line);
        if m.None? {
          continue;
        }
        all := all + [m.value];
        if |all| >= limit {
          break;
        }
      }
      if scanner.tooLong {
        Blocked(codec, file.value, limit, lines);
        return false, [];
      }
      NotBlocked(codec, file.value, limit, lines);
      EnoughRead(codec, file.value, limit, lines);
      all := ReverseMessages(all);
      return true, all;
    }

    /** Searches for the newest message with the id, whatever the file holds. */
    method FindLatestMessage(id: string) returns (ok: bool, found: Option<Message>)
      ensures ok <==> !SearchBlocked(codec, Content(), id)
      ensures found == if ok then FirstWithId(Decoded(codec, LinesFromBack(Content())), id) else None
    {
      hide LinesFromBack, DecodeLine, TooLongAt, Scanning, DeliveredAgree;
      if file.None? {
        EmptyFile(codec, 1);
        SearchNotBlocked(codec, [], id, []);
        return true, None;
      }
      var scanner := OpenScanner(file.value);
      ghost var lines := [];
      while true
        invariant fresh(scanner) && fresh(scanner.buf) && Scanning(scanner, file.value, lines)
        invariant ReadSoFar(file.value, lines) && FirstWithId(Decoded(codec, lines), id).None?
        decreases |LinesFromBack(file.value)| - |lines|
      {
        var more := NextLine(scanner, file.value, lines);
        if !more {
          break;
        }
        ReadLine(codec, lines, scanner.line);
        var line := TrimBytes(scanner.line);
        ghost var before := lines;
        lines := lines + [scanner.line];
        if line == [] {
          continue;
        }
        var m := codec.decode(line);
        if m.None? {
          continue;
        }
        FirstWithIdAppend(Decoded(codec, before), m.value, id);
        if Trim(m.value.messageId) != id {
          continue;
        }
        FoundEarly(codec, file.value, lines, id);
        SearchNotBlocked(codec, file.value, id, lines);
        return true, m;
      }
      if scanner.tooLong {
        assert LinesFromBack(file.value)[..|lines|] == lines;
        assert SearchBlockedAt(codec, file.value, id, |lines|);
        return false, None;
      }
      SearchNotBlocked(codec, file.value, id, lines);
      return true, None;
    }
  }

  /** Reversal by swapping from both ends. */
  method ReverseMessages(messages: seq<Message>) returns (all: seq<Message>)
    ensures all == Reverse(messages)
  {
    all := messages;
    var i, j := 0, |all| - 1;
    while i < j
      invariant 0 <= i && i + j == |messages| - 1 && |all| == |messages|
      invariant forall k :: i <= k <= j < |all| ==> all[k] == messages[k]
      invariant forall k :: 0 <= k < |all| && (k < i || k > j) ==> all[k] == messages[|messages| - 1 - k]
    {
      var left, right := all[i], all[j];
      all := all[i := right];
      all := all[j := left];
      i, j := i + 1, j - 1;
    }
  }
}
