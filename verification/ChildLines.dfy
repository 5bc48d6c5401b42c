/** The bounded line reader for the mining engine's output in src/gui.rs. The reader sees its stream
    in arbitrary chunks; it is proved against functions on the undivided stream. */
module ChildLines {
  import opened Basics

  const MAX_CHILD_LINE_BYTES: nat := 8 * 1024
  const LF: U8 := 10
  const CR: U8 := 13

  /** A captured line: its bytes, and whether the line was longer than what was kept. */
  datatype Record = Record(bytes: Bytes, truncated: bool)

  /** The first line of a stream without its newline, whether a newline ended it, and what follows. */
  datatype Cut = Cut(content: Bytes, ended: bool, rest: Bytes)

  function CutLine(stream: Bytes): (r: Cut)
    ensures LF !in r.content
    ensures stream == r.content + (if r.ended then [LF] else []) + r.rest
    ensures !r.ended ==> r.rest == []
  {
    if stream == [] then Cut([], false, [])
    else if stream[0] == LF then Cut([], true, stream[1..])
    else
      var more := CutLine(stream[1..]);
      Cut([stream[0]] + more.content, more.ended, more.rest)
  }

  /** The first bytes of the line; the carriage return before a newline goes, unless the line was cut. */
  function Keep(content: Bytes, ended: bool): (r: Record)
    ensures |r.bytes| <= MAX_CHILD_LINE_BYTES && r.bytes <= content
    ensures r.truncated <==> |content| > MAX_CHILD_LINE_BYTES
  {
    if |content| > MAX_CHILD_LINE_BYTES then Record(content[..MAX_CHILD_LINE_BYTES], true)
    else if ended && content != [] && content[|content| - 1] == CR then Record(content[..|content| - 1], false)
    else Record(content, false)
  }

  function Flatten(chunks: seq<Bytes>): Bytes {
    if chunks == [] then [] else chunks[0] + Flatten(chunks[1..])
  }

  /** Every line of the stream, in order. */
  function Records(stream: Bytes): seq<Record>
    decreases |stream|
  {
    if stream == [] then []
    else
      var cut := CutLine(stream);
      [Keep(cut.content, cut.ended)] + Records(cut.rest)
  }

  // ---------------------------------------------------------------- the reader

  /** A buffered reader: `chunks[0]` is what is in the buffer, the rest what each later fill will bring. */
  class Reader {
    var chunks: seq<Bytes>

    ghost predicate Valid() reads this { forall i | 0 <= i < |chunks| :: chunks[i] != [] }

    function Stream(): Bytes reads this { Flatten(chunks) }

    constructor (chunks: seq<Bytes>)
      requires forall i | 0 <= i < |chunks| :: chunks[i] != []
      ensures Valid() && Stream() == Flatten(chunks)
    {
      this.chunks := chunks;
    }

    /** Empty exactly at the end of the stream. */
    method FillBuf() returns (available: Bytes)
      requires Valid()
      ensures available <= Stream() && (available == [] <==> Stream() == [])
      ensures available == [] <==> chunks == []
      ensures chunks != [] ==> available == chunks[0]
    {
      available := if chunks == [] then [] else chunks[0];
    }

    method Consume(n: nat)
      requires Valid() && chunks != [] && n <= |chunks[0]|
      modifies this
      ensures Valid() && Stream() == old(Stream())[n..]
    {
      ghost var later := Flatten(chunks[1..]);
      var left := chunks[0][n..];
      assert Stream()[n..] == left + later;
      if left == [] {
        assert left + later == later;
        chunks := chunks[1..];
      } else {
        chunks := [left] + chunks[1..];
        assert chunks[1..] == old(chunks)[1..];
      }
    }

    /** One line, whatever the chunks: `None` at the end of the stream, otherwise the first line as `Keep`
        keeps it, with exactly that line and its newline consumed. */
    method ReadBoundedChildLine() returns (line: Option<Record>)
      requires Valid()
      modifies this
      ensures Valid()
      ensures old(Stream()) == [] ==> line == None && Stream() == []
      ensures old(Stream()) != [] ==>
                var cut := CutLine(old(Stream()));
                line == Some(Keep(cut.content, cut.ended)) && Stream() == cut.rest
    {
      hide CutLine, Kept, Keep, Flatten;
      var captured: Bytes, sawBytes, truncated, reachedLineEnd := [], false, false, false;
      ghost var start, taken: Bytes := Stream(), [];
      KeptStart();
      CutStart(start);
      while !reachedLineEnd
        invariant Valid() && captured == Kept(taken)
        invariant truncated <==> |taken| > MAX_CHILD_LINE_BYTES
        invariant sawBytes || (Stream() == start && taken == [])
        invariant sawBytes ==> start != []
        invariant CutLine(start) == if reachedLineEnd then Cut(taken, true, Stream()) else Resumed(taken, Stream())
        decreases |Stream()|
      {
        var available := FillBuf();
        if available == [] { break; }
        sawBytes := true;
        var contentLength := Position(available);
        var retained := Min(contentLength, Monus(MAX_CHILD_LINE_BYTES, |captured|));
        KeptMore(taken, available[..contentLength]);
        captured := captured + available[..retained];
        truncated := truncated || retained < contentLength;
        CutChunk(taken, Stream(), available, contentLength);
        taken := taken + available[..contentLength];
        reachedLineEnd := contentLength < |available|;
        Consume(if reachedLineEnd then contentLength + 1 else contentLength);
      }
      CutEnd(taken);
      if !sawBytes { return None; }
      KeepKept(taken, reachedLineEnd);
      if reachedLineEnd && !truncated && captured != [] && captured[|captured| - 1] == CR {
        captured := captured[..|captured| - 1];
      }
      line := Some(Record(captured, truncated));
    }

    /** The loop of the reader threads, until the stream ends. */
    method ReadAll() returns (lines: seq<Record>)
      requires Valid()
      modifies this
      ensures Valid() && Stream() == [] && lines == Records(old(Stream()))
    {
      lines := [];
      while true
        invariant Valid() && lines + Records(Stream()) == Records(old(Stream()))
        decreases |Stream()|
      {
        var line := ReadBoundedChildLine();
        match line {
          case None => return;
          case Some(record) => lines := lines + [record];
        }
      }
    }
  }

  /** Where the first newline of a chunk is, or its length. */
  method Position(available: Bytes) returns (position: nat)
    ensures position <= |available| && LF !in available[..position]
    ensures position < |available| ==> available[position] == LF
  {
    position := 0;
    while position < |available| && available[position] != LF
      invariant position <= |available| && LF !in available[..position]
    {
      position := position + 1;
    }
  }

  // What the loop of `ReadBoundedChildLine` knows: `taken` is the content read so far.

  ghost function Kept(taken: Bytes): (kept: Bytes)
    ensures |kept| == Min(|taken|, MAX_CHILD_LINE_BYTES)
  {
    taken[..Min(|taken|, MAX_CHILD_LINE_BYTES)]
  }

  ghost function Resumed(taken: Bytes, stream: Bytes): Cut {
    var ahead := CutLine(stream);
    Cut(taken + ahead.content, ahead.ended, ahead.rest)
  }

  lemma KeptStart()
    ensures Kept([]) == []
  {
  }

  lemma CutStart(stream: Bytes)
    ensures Resumed([], stream) == CutLine(stream)
  {
  }

  lemma CutEnd(taken: Bytes)
    ensures Resumed(taken, []) == Cut(taken, false, [])
  {
    assert taken + [] == taken;
  }

  lemma KeptMore(taken: Bytes, more: Bytes)
    ensures Kept(taken + more) == Kept(taken) + more[..Min(|more|, Monus(MAX_CHILD_LINE_BYTES, |Kept(taken)|))]
  {
  }

  lemma KeepKept(taken: Bytes, ended: bool)
    ensures var kept, cut := Kept(taken), |taken| > MAX_CHILD_LINE_BYTES;
            Keep(taken, ended) ==
              Record(if ended && !cut && kept != [] && kept[|kept| - 1] == CR then kept[..|kept| - 1] else kept, cut)
  {
  }

  lemma {:induction false} ResumeAfter(taken: Bytes, content: Bytes, tail: Bytes)
    requires LF !in content
    ensures Resumed(taken, content + tail) == Resumed(taken + content, tail)
    decreases |content|
  {
    if content == [] {
      assert content + tail == tail && taken + content == taken;
    } else {
      var first := [content[0]];
      assert (content + tail)[1..] == content[1..] + tail;
      assert taken + content == taken + first + content[1..];
      assert content[0] != LF && (content + tail)[0] == content[0];
      CutStep(taken, content + tail);
      hide CutLine, Resumed;
      ResumeAfter(taken + first, content[1..], tail);
    }
  }

  lemma CutStep(taken: Bytes, stream: Bytes)
    requires stream != [] && stream[0] != LF
    ensures Resumed(taken, stream) == Resumed(taken + [stream[0]], stream[1..])
  {
    var more := CutLine(stream[1..]);
    assert taken + ([stream[0]] + more.content) == taken + [stream[0]] + more.content;
  }

  lemma CutChunk(taken: Bytes, stream: Bytes, chunk: Bytes, n: nat)
    requires chunk <= stream && n <= |chunk| && LF !in chunk[..n] && (n < |chunk| ==> chunk[n] == LF)
    ensures Resumed(taken, stream) ==
              if n < |chunk| then Cut(taken + chunk[..n], true, stream[n + 1..]) else Resumed(taken + chunk[..n], stream[n..])
  {
    var tail := stream[n..];
    assert stream == chunk[..n] + tail;
    ResumeAfter(taken, chunk[..n], tail);
    if n < |chunk| {
      assert tail[0] == LF && tail[1..] == stream[n + 1..];
      assert taken + chunk[..n] + [] == taken + chunk[..n];
    }
  }

  // ---------------------------------------------------------------- lines in, lines out

  function Joined(lines: seq<Bytes>): Bytes {
    if lines == [] then [] else lines[0] + [LF] + Joined(lines[1..])
  }

  lemma {:induction false} CutOf(content: Bytes, ended: bool, rest: Bytes)
    requires LF !in content && (!ended ==> rest == [])
    ensures CutLine(content + (if ended then [LF] else []) + rest) == Cut(content, ended, rest)
  {
    var stream := content + (if ended then [LF] else []) + rest;
    if content != [] {
      assert stream[1..] == content[1..] + (if ended then [LF] else []) + rest;
      CutOf(content[1..], ended, rest);
    } else if ended {
      assert stream[1..] == rest;
    }
  }

  /** Whatever was written as newline-separated lines, the last perhaps unterminated, is read back line
      by line, in order, each kept as `Keep` says. */
  lemma {:induction false} RecordsOfLines(lines: seq<Bytes>, last: Bytes)
    requires forall i | 0 <= i < |lines| :: LF !in lines[i]
    requires LF !in last
    ensures var records := Records(Joined(lines) + last);
            && |records| == |lines| + (if last == [] then 0 else 1)
            && (forall i | 0 <= i < |lines| :: records[i] == Keep(lines[i], true))
            && (last != [] ==> records[|lines|] == Keep(last, false))
  {
    if lines == [] {
      assert Joined(lines) + last == last + [] + [];
      CutOf(last, false, []);
    } else {
      var rest := Joined(lines[1..]) + last;
      assert Joined(lines) + last == lines[0] + [LF] + rest;
      CutOf(lines[0], true, rest);
      RecordsOfLines(lines[1..], last);
    }
  }

  /** What is kept of a line: all of it if it fits, less the carriage return of a CR LF line ending; otherwise its
      first 8192 bytes, and the mark that says so. */
  lemma KeepExactly(line: Bytes)
    ensures |line| > MAX_CHILD_LINE_BYTES ==> forall ended :: Keep(line, ended) == Record(line[..MAX_CHILD_LINE_BYTES], true)
    ensures |line| <= MAX_CHILD_LINE_BYTES ==> Keep(line, false) == Record(line, false)
    ensures |line| <= MAX_CHILD_LINE_BYTES && CR !in line ==> Keep(line, true) == Record(line, false)
    ensures |line| < MAX_CHILD_LINE_BYTES ==> Keep(line + [CR], true) == Record(line, false)
    ensures |line| >= MAX_CHILD_LINE_BYTES ==> Keep(line + [CR], true) == Record(line[..MAX_CHILD_LINE_BYTES], true)
  {
    if |line| < MAX_CHILD_LINE_BYTES { assert (line + [CR])[..|line|] == line; }
    if |line| >= MAX_CHILD_LINE_BYTES { assert (line + [CR])[..MAX_CHILD_LINE_BYTES] == line[..MAX_CHILD_LINE_BYTES]; }
  }

  function WithCr(lines: seq<Bytes>): (r: seq<Bytes>)
    ensures |r| == |lines| && forall i | 0 <= i < |lines| :: r[i] == lines[i] + [CR]
  {
    seq(|lines|, i requires 0 <= i < |lines| => lines[i] + [CR])
  }

  /** Lines that fit are read back unchanged whether they were written with LF or, room for the CR provided, with
      CR LF. */
  lemma LineEndingsDoNotMatter(lines: seq<Bytes>)
    requires forall i | 0 <= i < |lines| :: LF !in lines[i] && CR !in lines[i] && |lines[i]| < MAX_CHILD_LINE_BYTES
    ensures var plain, dos := Records(Joined(lines)), Records(Joined(WithCr(lines)));
            && plain == dos && |plain| == |lines|
            && forall i | 0 <= i < |lines| :: plain[i] == Record(lines[i], false)
  {
    assert Joined(lines) + [] == Joined(lines) && Joined(WithCr(lines)) + [] == Joined(WithCr(lines));
    RecordsOfLines(lines, []);
    RecordsOfLines(WithCr(lines), []);
    hide Joined, Records, Keep;
    forall i | 0 <= i < |lines| ensures Keep(lines[i], true) == Record(lines[i], false) == Keep(lines[i] + [CR], true) {
      KeepExactly(lines[i]);
    }
  }

  /** Every stream is such lines, so the theorem above speaks of every stream. */
  lemma {:induction false} EveryStreamIsLines(stream: Bytes) returns (lines: seq<Bytes>, last: Bytes)
    ensures stream == Joined(lines) + last && LF !in last
    ensures forall i | 0 <= i < |lines| :: LF !in lines[i]
    decreases |stream|
  {
    var cut := CutLine(stream);
    if cut.ended {
      var more;
      more, last := EveryStreamIsLines(cut.rest);
      lines := [cut.content] + more;
      assert lines[1..] == more;
    } else {
      lines, last := [], stream;
    }
  }
}
