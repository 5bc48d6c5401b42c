/** The budgeted HTTP/1.x response reader of src/rpc.rs, a strict subset of section 6.3 of RFC 9112
    with the token characters of section 5.6.2 of RFC 9110. The reader class and its loops are
    proved against functions on the unread bytes; those are proved to accept exactly the messages
    that conform, and to consume exactly one of them. */
module HttpFraming {
  import opened Basics
  import Utf8

  const MAX_BLOB_BYTES: nat := 1024 * 1024
  const MAX_HEADER_BYTES: nat := 32 * 1024
  const MAX_BODY_BYTES: nat := MAX_BLOB_BYTES * 2 + 256 * 1024
  const USIZE_MAX: nat := U64_MAX

  const LF: U8 := 10
  const CRLF: Bytes := [13, 10]

  datatype Error =
    | HeadersTooLong
    | MalformedHeaders
    | NotUtf8
    | MalformedStatus
    | HttpStatus(code: string)
    | MalformedHeader
    | BadContentLength
    | BodyTooLong
    | TransferEncoding
    | ContentEncoding
    | UnexpectedEof

  /** What each part of the reader makes of the unread bytes, and what it leaves of them. */
  datatype Cut = Cut(bytes: Bytes, unread: Bytes)
  datatype LineRead = LineRead(line: Result<string, Error>, unread: Bytes)
  datatype FieldsRead = FieldsRead(length: Result<Option<nat>, Error>, unread: Bytes)
  datatype BodyRead = BodyRead(body: Result<Bytes, Error>, unread: Bytes)

  // ---------------------------------------------------------------- lines

  /** `take(limit).read_until(LF)`. */
  function CutAfterLf(rest: Bytes, limit: nat): (r: Cut)
    ensures rest == r.bytes + r.unread && |r.bytes| <= limit
    ensures forall i | 0 <= i < |r.bytes| - 1 :: r.bytes[i] != LF
    ensures r.unread == [] || |r.bytes| == limit || (r.bytes != [] && r.bytes[|r.bytes| - 1] == LF)
  {
    if rest == [] || limit == 0 then Cut([], rest)
    else if rest[0] == LF then Cut([LF], rest[1..])
    else
      var more := CutAfterLf(rest[1..], limit - 1);
      Cut([rest[0]] + more.bytes, more.unread)
  }

  /** One turn of the loop that reads a line, `done` bytes having been read before. */
  lemma CutStep(rest: Bytes, limit: nat, done: Bytes)
    ensures rest == [] || limit == 0 ==> Cut(done + CutAfterLf(rest, limit).bytes, CutAfterLf(rest, limit).unread) == Cut(done, rest)
    ensures rest != [] && limit > 0 && rest[0] == LF ==> CutAfterLf(rest, limit) == Cut([LF], rest[1..])
    ensures rest != [] && limit > 0 && rest[0] != LF ==>
              var now, next := CutAfterLf(rest, limit), CutAfterLf(rest[1..], limit - 1);
              done + now.bytes == done + [rest[0]] + next.bytes && now.unread == next.unread
  {
  }

  /** The header bytes counted once the reader has gone from `rest` to `after`. */
  function Spent(used: nat, rest: Bytes, after: Bytes): nat
    requires |after| <= |rest|
  {
    used + |rest| - |after|
  }

  /** One header line, after `used` header bytes. */
  function HeaderLine(rest: Bytes, used: nat): (r: LineRead)
    requires used <= MAX_HEADER_BYTES
    ensures |r.unread| <= |rest| && Spent(used, rest, r.unread) <= MAX_HEADER_BYTES + 1
    ensures r.line.Ok? ==> |r.unread| < |rest| && Spent(used, rest, r.unread) <= MAX_HEADER_BYTES
  {
    var cut := CutAfterLf(rest, MAX_HEADER_BYTES - used + 1);
    var n := |cut.bytes|;
    if used + n > MAX_HEADER_BYTES then LineRead(Err(HeadersTooLong), cut.unread)
    else if n < 2 || cut.bytes[n - 2..] != CRLF then LineRead(Err(MalformedHeaders), cut.unread)
    else
      match Utf8.Decode(cut.bytes[..n - 2])
      case Some(text) => LineRead(Ok(text), cut.unread)
      case None => LineRead(Err(NotUtf8), cut.unread)
  }

  // ---------------------------------------------------------------- status line and fields

  function Before(s: string, c: char): (r: string)
    ensures c !in r && |r| <= |s| && s[..|r|] == r && (|r| < |s| ==> s[|r|] == c)
  {
    if s == "" || s[0] == c then "" else [s[0]] + Before(s[1..], c)
  }

  /** What follows the first `c`, or nothing when there is none. */
  function After(s: string, c: char): string {
    var n := |Before(s, c)|;
    if n < |s| then s[n + 1..] else ""
  }

  predicate Digit(c: char) { '0' <= c <= '9' }

  predicate Digits(s: string) { forall i | 0 <= i < |s| :: Digit(s[i]) }

  function StatusError(line: string): Option<Error> {
    var version := Before(line, ' ');
    var code := Before(After(line, ' '), ' ');
    if version !in ["HTTP/1.0", "HTTP/1.1"] || |code| != 3 || !Digits(code) then Some(MalformedStatus)
    else if code[0] != '2' then Some(HttpStatus(code))
    else None
  }

  predicate TokenChar(c: char) {
    Digit(c) || 'a' <= c <= 'z' || 'A' <= c <= 'Z' || c in "!#$%&'*+-.^_`|~"
  }

  predicate Token(s: string) { s != "" && forall i | 0 <= i < |s| :: TokenChar(s[i]) }

  /** No ASCII control character but the horizontal tab. */
  predicate Printable(s: string) { forall i | 0 <= i < |s| :: ControlFree(s[i]) }

  predicate ControlFree(c: char) { c == '\t' || (c >= ' ' && c as int != 127) }

  function LowerChar(c: char): char { if 'A' <= c <= 'Z' then (c as int + 32) as char else c }

  function Lower(s: string): (r: string)
    ensures |r| == |s| && forall i | 0 <= i < |s| :: r[i] == LowerChar(s[i])
  {
    if s == "" then "" else [LowerChar(s[0])] + Lower(s[1..])
  }

  function DecimalValue(s: string): nat
    requires Digits(s)
  {
    if s == "" then 0 else DecimalValue(s[..|s| - 1]) * 10 + (s[|s| - 1] as int - '0' as int)
  }

  /** Parsing one header line, given the length declared so far. */
  function Field(line: string, length: Option<nat>): (r: Result<Option<nat>, Error>)
    ensures r.Ok? && r.value != length ==> length.None? && r.value.Some? && r.value.value <= MAX_BODY_BYTES
  {
    var name := Before(line, ':');
    var value := After(line, ':');
    var trimmed := Utf8.Trim(value);
    if |name| == |line| || !Token(name) || !Printable(value) then Err(MalformedHeader)
    else if Lower(name) == "content-length" then
      if length.Some? || trimmed == "" || !Digits(trimmed) || DecimalValue(trimmed) > USIZE_MAX then Err(BadContentLength)
      else if DecimalValue(trimmed) > MAX_BODY_BYTES then Err(BodyTooLong)
      else Ok(Some(DecimalValue(trimmed)))
    else if Lower(name) == "transfer-encoding" then Err(TransferEncoding)
    else if Lower(name) == "content-encoding" && Lower(trimmed) != "identity" then Err(ContentEncoding)
    else Ok(length)
  }

  // ---------------------------------------------------------------- the whole response

  predicate Bounded(length: Option<nat>): (bounded: bool)
    ensures bounded <==> (length.Some? ==> length.value <= MAX_BODY_BYTES)
  {
    match length
    case None => true
    case Some(n) => n <= MAX_BODY_BYTES
  }

  /** The fields up to the empty line, the length declared so far being `length`. */
  function Headers(rest: Bytes, used: nat, length: Option<nat>): (r: FieldsRead)
    requires used <= MAX_HEADER_BYTES
    requires Bounded(length)
    ensures |r.unread| <= |rest| && Spent(used, rest, r.unread) <= MAX_HEADER_BYTES + 1
    ensures r.length.Ok? ==> Spent(used, rest, r.unread) <= MAX_HEADER_BYTES && Bounded(r.length.value)
    decreases |rest|
  {
    var read := HeaderLine(rest, used);
    match read.line
    case Err(e) => FieldsRead(Err(e), read.unread)
    case Ok(text) =>
      if text == "" then FieldsRead(Ok(length), read.unread)
      else
        match Field(text, length)
        case Err(e) => FieldsRead(Err(e), read.unread)
        case Ok(length') => Headers(read.unread, Spent(used, rest, read.unread), length')
  }

  /** Delimited by the declared length, or by the end of the stream. */
  function Body(rest: Bytes, length: Option<nat>): (r: BodyRead)
    requires Bounded(length)
    ensures |r.unread| <= |rest| <= |r.unread| + MAX_BODY_BYTES + 1
    ensures r.body.Ok? ==> |r.body.value| <= MAX_BODY_BYTES && rest == r.body.value + r.unread
    ensures r.body.Ok? ==> if length.Some? then |r.body.value| == length.value else r.unread == []
  {
    match length
    case Some(n) => if n <= |rest| then BodyRead(Ok(rest[..n]), rest[n..]) else BodyRead(Err(UnexpectedEof), [])
    case None =>
      if |rest| <= MAX_BODY_BYTES then BodyRead(Ok(rest), [])
      else BodyRead(Err(BodyTooLong), rest[MAX_BODY_BYTES + 1..])
  }

  function Response(rest: Bytes): (r: BodyRead)
    ensures |r.unread| <= |rest| <= |r.unread| + MAX_HEADER_BYTES + MAX_BODY_BYTES + 1
  {
    var status := HeaderLine(rest, 0);
    match status.line
    case Err(e) => BodyRead(Err(e), status.unread)
    case Ok(line) =>
      match StatusError(line)
      case Some(e) => BodyRead(Err(e), status.unread)
      case None =>
        var fields := Headers(status.unread, Spent(0, rest, status.unread), None);
        match fields.length
        case Err(e) => BodyRead(Err(e), fields.unread)
        case Ok(length) => Body(fields.unread, length)
  }

  /** One turn of the loop over the fields. */
  lemma HeadersStep(rest: Bytes, used: nat, length: Option<nat>)
    requires used <= MAX_HEADER_BYTES && Bounded(length)
    ensures var read := HeaderLine(rest, used);
            && (read.line.Err? ==> Headers(rest, used, length) == FieldsRead(Err(read.line.error), read.unread))
            && (read.line == Ok("") ==> Headers(rest, used, length) == FieldsRead(Ok(length), read.unread))
            && (read.line.Ok? && read.line.value != "" ==>
                  var field := Field(read.line.value, length);
                  && (field.Err? ==> Headers(rest, used, length) == FieldsRead(Err(field.error), read.unread))
                  && (field.Ok? ==>
                        && Bounded(field.value)
                        && Headers(rest, used, length) == Headers(read.unread, Spent(used, rest, read.unread), field.value)))
  {
    hide HeaderLine, Field;
  }

  lemma ResponseSteps(rest: Bytes, line: string, fields: Bytes, length: Option<nat>, body: Bytes)
    requires HeaderLine(rest, 0) == LineRead(Ok(line), fields) && StatusError(line) == None
    requires Headers(fields, Spent(0, rest, fields), None) == FieldsRead(Ok(length), body)
    ensures Bounded(length) && Response(rest) == Body(body, length)
  {
    hide HeaderLine, Headers, StatusError, Body;
  }

  lemma SuccessSteps(rest: Bytes)
    requires Response(rest).body.Ok?
    ensures var status := HeaderLine(rest, 0);
            && status.line.Ok? && StatusError(status.line.value) == None
            && Headers(status.unread, Spent(0, rest, status.unread), None).length.Ok?
  {
    hide HeaderLine, Headers, StatusError, Body;
  }

  // ---------------------------------------------------------------- the reader

  /** A stream of bytes, of which `unread` is still to come. */
  class Reader {
    var unread: Bytes

    constructor (data: Bytes)
      ensures unread == data
    {
      unread := data;
    }

    /** `take(limit).read_until(LF)`, a byte at a time. */
    method ReadUntilLf(limit: nat) returns (bytes: Bytes)
      modifies this
      ensures Cut(bytes, unread) == CutAfterLf(old(unread), limit)
    {
      hide CutAfterLf;
      bytes := [];
      var done := false;
      ghost var start := unread;
      assert [] + CutAfterLf(unread, limit).bytes == CutAfterLf(unread, limit).bytes;
      while !done && |bytes| < limit && unread != []
        invariant |bytes| <= limit
        invariant if done
                  then CutAfterLf(start, limit) == Cut(bytes, unread)
                  else var ahead := CutAfterLf(unread, limit - |bytes|);
                       CutAfterLf(start, limit) == Cut(bytes + ahead.bytes, ahead.unread)
        decreases |unread|
      {
        CutStep(unread, limit - |bytes|, bytes);
        var byte := unread[0];
        unread := unread[1..];
        bytes := bytes + [byte];
        done := byte == LF;
      }
      CutStep(unread, limit - |bytes|, bytes);
    }

    method ReadHeaderLine(used: nat) returns (line: Result<string, Error>, used': nat)
      requires used <= MAX_HEADER_BYTES
      modifies this
      ensures LineRead(line, unread) == HeaderLine(old(unread), used)
      ensures used' == Spent(used, old(unread), unread)
    {
      var bytes := ReadUntilLf(MAX_HEADER_BYTES - used + 1);
      used' := used + |bytes|;
      if used' > MAX_HEADER_BYTES {
        return Err(HeadersTooLong), used';
      }
      if |bytes| < 2 || bytes[|bytes| - 2..] != CRLF {
        return Err(MalformedHeaders), used';
      }
      match Utf8.Decode(bytes[..|bytes| - 2]) {
        case Some(text) => line := Ok(text);
        case None => line := Err(NotUtf8);
      }
    }

    /** The loop over the fields, up to the empty line. */
    method ReadFields(statusBytes: nat) returns (length: Result<Option<nat>, Error>)
      requires statusBytes <= MAX_HEADER_BYTES
      modifies this
      ensures FieldsRead(length, unread) == Headers(old(unread), statusBytes, None)
    {
      hide Headers, HeaderLine, Field;
      var used: nat, declared: Option<nat> := statusBytes, None;
      while true
        invariant used <= MAX_HEADER_BYTES
        invariant Bounded(declared)
        invariant Headers(unread, used, declared) == Headers(old(unread), statusBytes, None)
        decreases |unread|
      {
        HeadersStep(unread, used, declared);
        var line;
        line, used := ReadHeaderLine(used);
        if line.Err? { return Err(line.error); }
        if line.value == "" { return Ok(declared); }
        var field := Field(line.value, declared);
        if field.Err? { return Err(field.error); }
        declared := field.value;
      }
    }

    method ReadBody(length: Option<nat>) returns (body: Result<Bytes, Error>)
      requires Bounded(length)
      modifies this
      ensures BodyRead(body, unread) == Body(old(unread), length)
    {
      match length {
        case Some(n) =>
          if n <= |unread| {
            body, unread := Ok(unread[..n]), unread[n..];
          } else {
            body, unread := Err(UnexpectedEof), [];
          }
        case None =>
          if |unread| <= MAX_BODY_BYTES {
            body, unread := Ok(unread), [];
          } else {
            body, unread := Err(BodyTooLong), unread[MAX_BODY_BYTES + 1..];
          }
      }
    }

    method ReadResponse() returns (result: Result<Bytes, Error>)
      modifies this
      ensures BodyRead(result, unread) == Response(old(unread))
      ensures |old(unread)| - |unread| <= MAX_HEADER_BYTES + MAX_BODY_BYTES + 1
    {
      hide Headers, HeaderLine, StatusError, Body;
      var status, used := ReadHeaderLine(0);
      if status.Err? { return Err(status.error); }
      match StatusError(status.value) {
        case Some(e) => return Err(e);
        case None =>
      }
      var length := ReadFields(used);
      if length.Err? { return Err(length.error); }
      result := ReadBody(length.value);
    }
  }

  // ---------------------------------------------------------------- bytes and lines

  predicate IsLine(line: string) { '\n' !in line }

  function LineBytes(line: string): Bytes { Utf8.Encode(line) + CRLF }

  function LinesBytes(lines: seq<string>): Bytes {
    if lines == [] then [] else LineBytes(lines[0]) + LinesBytes(lines[1..])
  }

  /** The status line, the fields and the empty line, as they stand on the wire. */
  function HeadBytes(status: string, fields: seq<string>): Bytes {
    LineBytes(status) + (LinesBytes(fields) + CRLF)
  }

  lemma {:induction false} CutThrough(content: Bytes, tail: Bytes, limit: nat)
    requires LF !in content && limit > |content|
    ensures CutAfterLf(content + [LF] + tail, limit) == Cut(content + [LF], tail)
  {
    var rest := content + [LF] + tail;
    if content == [] {
      assert rest[1..] == tail;
    } else {
      assert rest[1..] == content[1..] + [LF] + tail;
      CutThrough(content[1..], tail, limit - 1);
      assert [content[0]] + (content[1..] + [LF]) == content + [LF];
    }
  }

  lemma LineParsed(line: string, tail: Bytes, used: nat)
    requires IsLine(line) && used + |LineBytes(line)| <= MAX_HEADER_BYTES
    ensures HeaderLine(LineBytes(line) + tail, used) == LineRead(Ok(line), tail)
  {
    var text := Utf8.Encode(line);
    Utf8.AsciiBytesAreCharacters(line, LF);
    CutThrough(text + [13], tail, MAX_HEADER_BYTES - used + 1);
    assert text + [13] + [LF] == LineBytes(line);
    assert LineBytes(line)[|text|..] == CRLF && LineBytes(line)[..|text|] == text;
    Utf8.DecodeUndoesEncode(line);
  }

  lemma {:induction false} NewlineIsEncoded(line: string)
    ensures LF !in Utf8.Encode(line) ==> IsLine(line)
  {
    if line != "" && line[0] != '\n' {
      NewlineIsEncoded(line[1..]);
    }
  }

  /** What a successful header line was cut from. */
  lemma LineSteps(rest: Bytes, used: nat)
    requires used <= MAX_HEADER_BYTES && HeaderLine(rest, used).line.Ok?
    ensures var bytes := CutAfterLf(rest, MAX_HEADER_BYTES - used + 1).bytes;
            && |bytes| >= 2 && bytes[|bytes| - 2..] == CRLF
            && Utf8.Decode(bytes[..|bytes| - 2]) == Some(HeaderLine(rest, used).line.value)
            && rest == bytes + HeaderLine(rest, used).unread
            && forall i | 0 <= i < |bytes| - 1 :: bytes[i] != LF
  {
    hide CutAfterLf, Utf8.Decode;
  }

  lemma LineRendered(rest: Bytes, used: nat)
    requires used <= MAX_HEADER_BYTES && HeaderLine(rest, used).line.Ok?
    ensures var read := HeaderLine(rest, used); IsLine(read.line.value) && rest == LineBytes(read.line.value) + read.unread
  {
    hide CutAfterLf, HeaderLine, Utf8.Decode, Utf8.Encode, IsLine;
    LineSteps(rest, used);
    CutIsLine(rest, MAX_HEADER_BYTES - used + 1);
    var bytes := CutAfterLf(rest, MAX_HEADER_BYTES - used + 1).bytes;
    Utf8.EncodeUndoesDecode(bytes[..|bytes| - 2]);
    NewlineIsEncoded(HeaderLine(rest, used).line.value);
  }

  /** The stream goes on for `n` bytes and more, with no line feed among the first `n`. */
  predicate NoLfWithin(rest: Bytes, n: nat) { n < |rest| && forall i | 0 <= i < n :: rest[i] != LF }

  /** A cut takes all it may exactly when nothing but its last byte can be a line feed. */
  lemma {:induction false} CutFinds(rest: Bytes, limit: nat)
    ensures |CutAfterLf(rest, limit + 1).bytes| == limit + 1 <==> NoLfWithin(rest, limit)
  {
    if rest != [] && limit > 0 && rest[0] != LF {
      CutFinds(rest[1..], limit - 1);
      NoLfShift(rest, limit);
      hide NoLfWithin;
    }
  }

  lemma NoLfShift(rest: Bytes, n: nat)
    requires rest != [] && n > 0 && rest[0] != LF
    ensures NoLfWithin(rest, n) <==> NoLfWithin(rest[1..], n - 1)
  {
    var more := rest[1..];
    if NoLfWithin(more, n - 1) {
      forall i | 0 <= i < n ensures rest[i] != LF { if i > 0 { assert more[i - 1] != LF; } }
    }
  }

  /** A header line is too long exactly when its line feed does not come within what is left of the budget, and the
      stream goes on beyond that. */
  lemma TooLongExactly(rest: Bytes, used: nat)
    requires used <= MAX_HEADER_BYTES
    ensures HeaderLine(rest, used).line == Err(HeadersTooLong) <==> NoLfWithin(rest, MAX_HEADER_BYTES - used)
  {
    CutFinds(rest, MAX_HEADER_BYTES - used);
    hide CutAfterLf, Utf8.Decode;
  }

  /** The stream begins with this line and its CR LF, within the budget, and no text is encoded by it. */
  ghost predicate IllegibleLine(rest: Bytes, used: nat, bytes: Bytes) {
    && LF !in bytes && bytes + CRLF <= rest && used + |bytes| + 2 <= MAX_HEADER_BYTES
    && NoText(bytes)
  }

  /** The bytes encode no text. */
  ghost predicate NoText(bytes: Bytes) { forall text :: Utf8.Encode(text) != bytes }

  /** What makes a header line not UTF-8. */
  lemma NotUtf8Steps(rest: Bytes, used: nat)
    requires used <= MAX_HEADER_BYTES
    ensures var bytes := CutAfterLf(rest, MAX_HEADER_BYTES - used + 1).bytes;
            HeaderLine(rest, used).line == Err(NotUtf8) <==>
              && used + |bytes| <= MAX_HEADER_BYTES && |bytes| >= 2 && bytes[|bytes| - 2..] == CRLF
              && Utf8.Decode(bytes[..|bytes| - 2]) == None
  {
    hide CutAfterLf, Utf8.Decode;
  }

  lemma UndecodableExactly(bytes: Bytes)
    ensures Utf8.Decode(bytes) == None <==> NoText(bytes)
  {
    hide Utf8.Decode, Utf8.Encode;
    if Utf8.Decode(bytes).Some? { Utf8.EncodeUndoesDecode(bytes); }
    forall text | Utf8.Encode(text) == bytes ensures Utf8.Decode(bytes).Some? { Utf8.DecodeUndoesEncode(text); }
  }

  lemma CutIsLine(rest: Bytes, limit: nat)
    ensures var cut := CutAfterLf(rest, limit).bytes;
            |cut| >= 2 && cut[|cut| - 2..] == CRLF ==>
              var bytes := cut[..|cut| - 2]; LF !in bytes && cut == bytes + CRLF && bytes + CRLF <= rest
  {
    var cut := CutAfterLf(rest, limit);
    hide CutAfterLf;
    if |cut.bytes| >= 2 && cut.bytes[|cut.bytes| - 2..] == CRLF {
      var bytes := cut.bytes[..|cut.bytes| - 2];
      assert cut.bytes == bytes + CRLF;
      assert forall i | 0 <= i < |bytes| :: bytes[i] == cut.bytes[i];
    }
  }

  lemma LineIsCut(rest: Bytes, limit: nat, bytes: Bytes)
    requires LF !in bytes && bytes + CRLF <= rest && |bytes| + 2 <= limit
    ensures CutAfterLf(rest, limit).bytes == bytes + CRLF
  {
    hide CutAfterLf;
    var tail := rest[|bytes| + 2..];
    assert rest == (bytes + [13]) + [LF] + tail && (bytes + [13]) + [LF] == bytes + CRLF;
    CutThrough(bytes + [13], tail, limit);
  }

  /** `IllegibleLine`, by the decoder. */
  lemma IllegibleExactly(rest: Bytes, used: nat, bytes: Bytes)
    ensures IllegibleLine(rest, used, bytes) <==>
              && LF !in bytes && bytes + CRLF <= rest && used + |bytes| + 2 <= MAX_HEADER_BYTES
              && Utf8.Decode(bytes) == None
  {
    UndecodableExactly(bytes);
    hide Utf8.Decode, NoText;
  }

  lemma NotUtf8IsIllegible(rest: Bytes, used: nat) returns (bytes: Bytes)
    requires used <= MAX_HEADER_BYTES && HeaderLine(rest, used).line == Err(NotUtf8)
    ensures IllegibleLine(rest, used, bytes)
  {
    var limit := MAX_HEADER_BYTES - used + 1;
    hide CutAfterLf, HeaderLine, IllegibleLine, Utf8.Decode;
    NotUtf8Steps(rest, used);
    CutIsLine(rest, limit);
    var cut := CutAfterLf(rest, limit).bytes;
    bytes := cut[..|cut| - 2];
    IllegibleExactly(rest, used, bytes);
  }

  lemma IllegibleIsNotUtf8(rest: Bytes, used: nat, bytes: Bytes)
    requires used <= MAX_HEADER_BYTES && IllegibleLine(rest, used, bytes)
    ensures HeaderLine(rest, used).line == Err(NotUtf8)
  {
    var limit := MAX_HEADER_BYTES - used + 1;
    hide CutAfterLf, HeaderLine, IllegibleLine, Utf8.Decode;
    IllegibleExactly(rest, used, bytes);
    LineIsCut(rest, limit, bytes);
    NotUtf8Steps(rest, used);
    var cut := bytes + CRLF;
    assert |cut| == |bytes| + 2 && cut[..|cut| - 2] == bytes && cut[|cut| - 2..] == CRLF;
  }

  /** A header line is reported as not being UTF-8 exactly when it is complete, and is not. */
  lemma NotUtf8Exactly(rest: Bytes, used: nat)
    requires used <= MAX_HEADER_BYTES
    ensures HeaderLine(rest, used).line == Err(NotUtf8) <==> exists bytes :: IllegibleLine(rest, used, bytes)
  {
    hide *;
    if HeaderLine(rest, used).line == Err(NotUtf8) {
      var _ := NotUtf8IsIllegible(rest, used);
    }
    if bytes :| IllegibleLine(rest, used, bytes) {
      IllegibleIsNotUtf8(rest, used, bytes);
    }
  }

  /** A header line is read exactly when the stream begins with it, its CR LF included, within the budget. */
  lemma LineExactly(rest: Bytes, used: nat, line: string)
    requires used <= MAX_HEADER_BYTES
    ensures HeaderLine(rest, used).line == Ok(line) <==>
              IsLine(line) && LineBytes(line) <= rest && used + |LineBytes(line)| <= MAX_HEADER_BYTES
  {
    if HeaderLine(rest, used).line == Ok(line) {
      LineRendered(rest, used);
    }
    hide HeaderLine, IsLine, LineBytes;
    if IsLine(line) && LineBytes(line) <= rest && used + |LineBytes(line)| <= MAX_HEADER_BYTES {
      var tail := rest[|LineBytes(line)|..];
      assert rest == LineBytes(line) + tail;
      LineParsed(line, tail, used);
    }
  }

  // ---------------------------------------------------------------- what the fields declare

  /** The fields of a message in order, read by `Field`. */
  function Declared(fields: seq<string>, length: Option<nat>): Result<Option<nat>, Error> {
    if fields == [] then Ok(length)
    else
      match Field(fields[0], length)
      case Err(e) => Err(e)
      case Ok(length') => Declared(fields[1..], length')
  }

  predicate Named(field: string, name: string) { Lower(Before(field, ':')) == name }

  /** The field's value, without surrounding white space, is a numeral of `n`. */
  predicate Numeral(field: string, n: nat) {
    var trimmed := Utf8.Trim(After(field, ':'));
    trimmed != "" && Digits(trimmed) && DecimalValue(trimmed) == n
  }

  /** A field line that, on its own, a response may carry. */
  ghost predicate Acceptable(field: string) {
    && ':' in field && Token(Before(field, ':')) && Printable(After(field, ':'))
    && !Named(field, "transfer-encoding")
    && (Named(field, "content-encoding") ==> Lower(Utf8.Trim(After(field, ':'))) == "identity")
    && (Named(field, "content-length") ==> exists n: nat :: n <= MAX_BODY_BYTES && Numeral(field, n))
  }

  /** One field declares the length, or none does. */
  ghost predicate Declares(fields: seq<string>, length: Option<nat>) {
    match length
    case None => forall i | 0 <= i < |fields| :: !Named(fields[i], "content-length")
    case Some(n) => exists i :: DeclaredAt(fields, i, n)
  }

  ghost predicate DeclaredAt(fields: seq<string>, i: int, n: nat) {
    && 0 <= i < |fields| && Named(fields[i], "content-length") && Numeral(fields[i], n)
    && forall j | 0 <= j < |fields| && j != i :: !Named(fields[j], "content-length")
  }

  lemma ColonSplits(field: string)
    ensures |Before(field, ':')| == |field| <==> ':' !in field
  {
    var n := |Before(field, ':')|;
    if n == |field| { assert field == field[..n]; } else { assert field[n] == ':'; }
  }

  lemma FieldExactly(field: string, before: Option<nat>, after: Option<nat>)
    ensures Field(field, before) == Ok(after) <==>
            && Acceptable(field)
            && (if Named(field, "content-length")
                then before.None? && after.Some? && after.value <= MAX_BODY_BYTES && Numeral(field, after.value)
                else after == before)
  {
    ColonSplits(field);
    hide Before, After, Lower, Utf8.Trim, Token, Printable, Digits, DecimalValue;
    var trimmed := Utf8.Trim(After(field, ':'));
    if Digits(trimmed) && trimmed != "" {
      assert Numeral(field, DecimalValue(trimmed));
    }
  }

  /** A field line with a colon, a token for a name and printable text for a value. */
  predicate FieldLine(field: string) { ':' in field && Token(Before(field, ':')) && Printable(After(field, ':')) }

  /** Which fields are refused, and as what. */
  lemma FieldErrorsExactly(field: string, before: Option<nat>)
    ensures Field(field, before) == Err(MalformedHeader) <==> !FieldLine(field)
    ensures Field(field, before) == Err(BadContentLength) <==>
              && FieldLine(field) && Named(field, "content-length")
              && (before.Some? || !exists n: nat :: n <= USIZE_MAX && Numeral(field, n))
    ensures Field(field, before) == Err(BodyTooLong) <==>
              && FieldLine(field) && Named(field, "content-length") && before.None?
              && exists n: nat :: MAX_BODY_BYTES < n <= USIZE_MAX && Numeral(field, n)
    ensures Field(field, before) == Err(TransferEncoding) <==> FieldLine(field) && Named(field, "transfer-encoding")
    ensures Field(field, before) == Err(ContentEncoding) <==>
              FieldLine(field) && Named(field, "content-encoding") && Lower(Utf8.Trim(After(field, ':'))) != "identity"
  {
    ColonSplits(field);
    hide Before, After, Lower, Utf8.Trim, Token, Printable, Digits, DecimalValue;
    var trimmed := Utf8.Trim(After(field, ':'));
    if Digits(trimmed) && trimmed != "" {
      assert Numeral(field, DecimalValue(trimmed));
    }
  }

  /** The two are the same letter, or the same character. */
  predicate SameLetter(a: char, b: char) {
    || a == b
    || ('A' <= a <= 'Z' && b as int == a as int - 'A' as int + 'a' as int)
    || ('A' <= b <= 'Z' && a as int == b as int - 'A' as int + 'a' as int)
  }

  /** Names are compared without regard to the case of ASCII letters, and of nothing else. */
  lemma LowerIgnoresCase(s: string, t: string)
    ensures Lower(s) == Lower(t) <==> |s| == |t| && forall i | 0 <= i < |s| :: SameLetter(s[i], t[i])
  {
    forall i | 0 <= i < |s| && i < |t| ensures LowerChar(s[i]) == LowerChar(t[i]) <==> SameLetter(s[i], t[i]) {
      LowerIsOneLetter(s[i], t[i]);
    }
    hide LowerChar, SameLetter;
    var l, m := Lower(s), Lower(t);
    if l == m {
      forall i | 0 <= i < |s| ensures SameLetter(s[i], t[i]) { assert l[i] == m[i]; }
    }
  }

  lemma LowerIsOneLetter(a: char, b: char)
    ensures LowerChar(a) == LowerChar(b) <==> SameLetter(a, b)
  {
  }

  /** Section 5.6.2 of RFC 9110: the characters of a token are the visible ones that are not delimiters. */
  lemma TokenCharsAreVisible(c: char)
    ensures TokenChar(c) <==> '!' <= c <= '~' && c !in "\"(),/:;<=>?@[\\]{}"
  {
  }

  lemma DeclaresShift(fields: seq<string>, length: Option<nat>)
    requires fields != []
    ensures !Named(fields[0], "content-length") ==> (Declares(fields, length) <==> Declares(fields[1..], length))
    ensures Named(fields[0], "content-length") ==>
              (Declares(fields, length) <==> length.Some? && Numeral(fields[0], length.value) && Declares(fields[1..], None))
  {
    hide Named, Numeral;
    var rest := fields[1..];
    assert forall i | 0 <= i < |rest| :: rest[i] == fields[i + 1];
    assert forall i | 0 < i < |fields| :: fields[i] == rest[i - 1];
    if length.Some? {
      var n := length.value;
      if i :| DeclaredAt(rest, i, n) && !Named(fields[0], "content-length") {
        assert DeclaredAt(fields, i + 1, n);
      }
      if i :| DeclaredAt(fields, i, n) {
        assert i > 0 ==> DeclaredAt(rest, i - 1, n);
      }
      if Declares(rest, None) && Named(fields[0], "content-length") && Numeral(fields[0], n) {
        assert DeclaredAt(fields, 0, n);
      }
    }
  }

  /** A response's fields are read without error, and declare `length`, exactly when each is
      acceptable and a single one of them, or none, declares it. */
  lemma {:induction false} DeclaredExactly(fields: seq<string>, before: Option<nat>, after: Option<nat>)
    ensures Declared(fields, before) == Ok(after) <==>
            && (forall i | 0 <= i < |fields| :: Acceptable(fields[i]))
            && (if before.Some? then after == before && Declares(fields, None) else Declares(fields, after))
  {
    if fields != [] {
      var field, rest := fields[0], fields[1..];
      hide Declares, Field, Named;
      assert forall i | 0 < i < |fields| :: fields[i] == rest[i - 1];
      assert forall i | 0 <= i < |rest| :: rest[i] == fields[i + 1];
      DeclaresShift(fields, after);
      DeclaresShift(fields, None);
      FieldExactly(field, before, before);
      FieldExactly(field, before, after);
      if Field(field, before).Ok? {
        FieldExactly(field, before, Field(field, before).value);
        DeclaredExactly(rest, Field(field, before).value, after);
      }
    }
  }

  // ---------------------------------------------------------------- status lines

  /** `reason`, when present, follows the code after one more space. */
  function StatusLine(version: string, code: string, reason: Option<string>): string {
    version + [' '] + (code + (if reason.Some? then [' '] + reason.value else []))
  }

  predicate Answer(version: string, code: string, reason: Option<string>) {
    && version in ["HTTP/1.0", "HTTP/1.1"] && |code| == 3 && Digits(code)
    && (reason.Some? ==> IsLine(reason.value))
  }

  predicate Success(version: string, code: string, reason: Option<string>) { Answer(version, code, reason) && code[0] == '2' }

  ghost predicate SuccessLine(line: string) {
    exists version, code, reason :: Success(version, code, reason) && line == StatusLine(version, code, reason)
  }

  /** A well-formed answer with a code that is not of the 2xx class. */
  ghost predicate RefusalLine(line: string, code: string) {
    exists version, reason :: Answer(version, code, reason) && code[0] != '2' && line == StatusLine(version, code, reason)
  }

  lemma {:induction false} BeforeJoined(a: string, c: char, b: string)
    requires c !in a
    ensures Before(a, c) == a
    ensures Before(a + [c] + b, c) == a && After(a + [c] + b, c) == b
  {
    var s := a + [c] + b;
    if a != "" {
      assert s[1..] == a[1..] + [c] + b;
      BeforeJoined(a[1..], c, b);
      assert a == [a[0]] + a[1..];
    }
  }

  lemma CodeIsPlain(code: string)
    requires Digits(code)
    ensures ' ' !in code && IsLine(code)
  {
    assert !Digit(' ') && !Digit('\n');
  }

  lemma StatusLineParts(version: string, code: string, reason: Option<string>)
    requires ' ' !in version && ' ' !in code && IsLine(version) && IsLine(code) && (reason.Some? ==> IsLine(reason.value))
    ensures var line := StatusLine(version, code, reason);
            IsLine(line) && Before(line, ' ') == version && Before(After(line, ' '), ' ') == code
  {
    var more := code + (if reason.Some? then [' '] + reason.value else []);
    BeforeJoined(version, ' ', more);
    match reason {
      case None =>
        assert more == code;
        BeforeJoined(code, ' ', "");
      case Some(text) =>
        assert more == code + [' '] + text;
        BeforeJoined(code, ' ', text);
    }
  }

  lemma StatusOf(version: string, code: string, reason: Option<string>)
    requires Answer(version, code, reason)
    ensures var line := StatusLine(version, code, reason);
            IsLine(line) && StatusError(line) == if code[0] == '2' then None else Some(HttpStatus(code))
  {
    CodeIsPlain(code);
    assert ' ' !in version && IsLine(version);
    StatusLineParts(version, code, reason);
    hide Before, After, StatusLine, IsLine, Digits;
  }

  /** A text that has `c` is what comes before the first one, that one, and what comes after. */
  lemma SplitAt(s: string, c: char)
    requires Before(s, c) != s
    ensures s == Before(s, c) + [c] + After(s, c)
  {
    var n := |Before(s, c)|;
    assert s == s[..n] + [s[n]] + s[n + 1..];
  }

  lemma PartIsLine(front: string, text: string)
    requires IsLine(front + text)
    ensures IsLine(text)
  {
    assert forall i | 0 <= i < |text| :: text[i] == (front + text)[|front| + i];
  }

  lemma StatusJoins(line: string, version: string, rest: string, code: string, text: string)
    requires IsLine(line) && line == version + [' '] + rest
    ensures rest == code ==> line == StatusLine(version, code, None)
    ensures rest == code + [' '] + text ==> line == StatusLine(version, code, Some(text)) && IsLine(text)
  {
    if rest == code { assert line == version + [' '] + (code + []); }
    if rest == code + [' '] + text {
      var front := version + [' '] + code + [' '];
      assert line == version + [' '] + (code + ([' '] + text));
      assert line == front + text;
      PartIsLine(front, text);
    }
  }

  lemma NothingAfterTheEnd(s: string, c: char)
    requires Before(s, c) == s
    ensures After(s, c) == "" && Before("", c) == ""
  {
  }

  lemma StatusSplits(line: string) returns (version: string, code: string, reason: Option<string>)
    requires IsLine(line) && Before(After(line, ' '), ' ') != ""
    ensures version == Before(line, ' ') && code == Before(After(line, ' '), ' ')
    ensures line == StatusLine(version, code, reason) && (reason.Some? ==> IsLine(reason.value))
  {
    hide *;
    var rest := After(line, ' ');
    version, code := Before(line, ' '), Before(rest, ' ');
    if version == line { NothingAfterTheEnd(line, ' '); }
    SplitAt(line, ' ');
    var text := After(rest, ' ');
    if code != rest { SplitAt(rest, ' '); }
    reason := if code == rest then None else Some(text);
    StatusJoins(line, version, rest, code, text);
  }

  /** The status line is a success exactly when it is an HTTP/1.0 or 1.1 answer of the 2xx class, and reported by
      its code exactly when it is such an answer of another class; anything else is malformed. */
  lemma StatusExactly(line: string)
    requires IsLine(line)
    ensures StatusError(line) == None <==> SuccessLine(line)
    ensures forall code :: StatusError(line) == Some(HttpStatus(code)) <==> RefusalLine(line, code)
    ensures StatusError(line) == Some(MalformedStatus) <==> !SuccessLine(line) && !exists code :: RefusalLine(line, code)
  {
    if StatusError(line) != Some(MalformedStatus) { WellFormedStatus(line); }
    hide Before, After, StatusLine, StatusError, IsLine;
    if SuccessLine(line) {
      var version, code, reason :| Success(version, code, reason) && line == StatusLine(version, code, reason);
      StatusOf(version, code, reason);
    }
    forall code | RefusalLine(line, code) ensures StatusError(line) == Some(HttpStatus(code)) {
      var version, reason :| Answer(version, code, reason) && code[0] != '2' && line == StatusLine(version, code, reason);
      StatusOf(version, code, reason);
    }
  }

  lemma WellFormedStatus(line: string)
    requires IsLine(line) && StatusError(line) != Some(MalformedStatus)
    ensures StatusError(line) == None ==> SuccessLine(line)
    ensures StatusError(line).Some? ==> StatusError(line).value.HttpStatus? && RefusalLine(line, StatusError(line).value.code)
  {
    var version, code, reason := StatusSplits(line);
    assert Answer(version, code, reason);
    hide Before, After, StatusLine, IsLine;
  }

  // ---------------------------------------------------------------- which messages are accepted

  /** The head of a message the reader takes to its end: within the header budget, a 2xx status of
      HTTP/1.0 or 1.1, and fields that declare `length`. */
  ghost predicate GoodHead(status: string, fields: seq<string>, length: Option<nat>) {
    && IsLine(status) && SuccessLine(status)
    && (forall i | 0 <= i < |fields| :: IsLine(fields[i]) && Acceptable(fields[i]))
    && Declares(fields, length)
    && |HeadBytes(status, fields)| <= MAX_HEADER_BYTES
  }

  lemma {:induction false} HeadersComplete(fields: seq<string>, length: Option<nat>, used: nat, tail: Bytes)
    requires used + |LinesBytes(fields)| + 2 <= MAX_HEADER_BYTES
    requires Bounded(length)
    requires forall i | 0 <= i < |fields| :: IsLine(fields[i]) && fields[i] != ""
    requires Declared(fields, length).Ok?
    ensures Headers(LinesBytes(fields) + (CRLF + tail), used, length) == FieldsRead(Declared(fields, length), tail)
  {
    hide Headers, HeaderLine, Field;
    HeadersStep(LinesBytes(fields) + (CRLF + tail), used, length);
    if fields == [] {
      LineParsed("", tail, used);
      assert LinesBytes(fields) + (CRLF + tail) == LineBytes("") + tail;
    } else {
      var line, more := LineBytes(fields[0]), LinesBytes(fields[1..]) + (CRLF + tail);
      LineParsed(fields[0], more, used);
      assert LinesBytes(fields) + (CRLF + tail) == line + more;
      HeadersComplete(fields[1..], Field(fields[0], length).value, used + |line|, tail);
    }
  }

  lemma {:induction false} HeadersSound(rest: Bytes, used: nat, length: Option<nat>) returns (fields: seq<string>)
    requires used <= MAX_HEADER_BYTES
    requires Bounded(length)
    requires Headers(rest, used, length).length.Ok?
    ensures forall i | 0 <= i < |fields| :: IsLine(fields[i])
    ensures var read := Headers(rest, used, length);
            Declared(fields, length) == read.length && rest == LinesBytes(fields) + (CRLF + read.unread)
    decreases |rest|
  {
    hide Headers, HeaderLine, Field;
    HeadersStep(rest, used, length);
    LineRendered(rest, used);
    var read := HeaderLine(rest, used);
    if read.line.value == "" {
      fields := [];
    } else {
      var more := HeadersSound(read.unread, Spent(used, rest, read.unread), Field(read.line.value, length).value);
      fields := [read.line.value] + more;
      assert fields[1..] == more;
    }
  }

  lemma AcceptableIsNotEmpty(field: string)
    requires Acceptable(field)
    ensures field != ""
  {
  }

  lemma DeclaredOfGoodHead(status: string, fields: seq<string>, length: Option<nat>)
    requires GoodHead(status, fields, length)
    ensures Declared(fields, None) == Ok(length)
    ensures forall i | 0 <= i < |fields| :: IsLine(fields[i]) && fields[i] != ""
    ensures Bounded(length)
  {
    assert forall i | 0 <= i < |fields| :: IsLine(fields[i]) && Acceptable(fields[i]);
    assert Declares(fields, length);
    hide GoodHead, SuccessLine, Field, Declares, Acceptable;
    DeclaredExactly(fields, None, length);
    forall i | 0 <= i < |fields| ensures fields[i] != "" { AcceptableIsNotEmpty(fields[i]); }
    DeclaredIsBounded(fields, None);
  }

  lemma {:induction false} DeclaredIsBounded(fields: seq<string>, length: Option<nat>)
    requires Bounded(length) && Declared(fields, length).Ok?
    ensures Bounded(Declared(fields, length).value)
  {
    hide Field;
    if fields != [] {
      DeclaredIsBounded(fields[1..], Field(fields[0], length).value);
    }
  }

  lemma HeadSplits(status: string, fields: seq<string>, tail: Bytes)
    ensures HeadBytes(status, fields) + tail == LineBytes(status) + (LinesBytes(fields) + (CRLF + tail))
    ensures |HeadBytes(status, fields)| == |LineBytes(status)| + |LinesBytes(fields)| + 2
  {
    hide LineBytes, LinesBytes;
  }

  lemma GoodStatus(status: string, fields: seq<string>, length: Option<nat>)
    requires GoodHead(status, fields, length)
    ensures IsLine(status) && StatusError(status) == None && |HeadBytes(status, fields)| <= MAX_HEADER_BYTES
  {
    hide SuccessLine, StatusError;
    StatusExactly(status);
  }

  /** Every good head is taken to its end, and the body after it is what its length says. */
  lemma GoodHeadsAreAccepted(status: string, fields: seq<string>, length: Option<nat>, tail: Bytes)
    requires GoodHead(status, fields, length)
    ensures Bounded(length)
    ensures Response(HeadBytes(status, fields) + tail) == Body(tail, length)
  {
    hide *;
    DeclaredOfGoodHead(status, fields, length);
    GoodStatus(status, fields, length);
    HeadSplits(status, fields, tail);
    var line, more := LineBytes(status), LinesBytes(fields) + (CRLF + tail);
    LineParsed(status, more, 0);
    HeadersComplete(fields, None, |line|, tail);
    assert Spent(0, line + more, more) == |line| by { SpentOn(line, more); }
    ResponseSteps(line + more, status, more, length, tail);
  }

  lemma SpentOn(line: Bytes, more: Bytes)
    ensures Spent(0, line + more, more) == |line|
  {
  }

  lemma HeadSound(rest: Bytes, status: string, fields: Bytes, length: Option<nat>, body: Bytes) returns (lines: seq<string>)
    requires HeaderLine(rest, 0) == LineRead(Ok(status), fields) && StatusError(status) == None
    requires Headers(fields, Spent(0, rest, fields), None) == FieldsRead(Ok(length), body)
    ensures GoodHead(status, lines, length) && rest == HeadBytes(status, lines) + body
  {
    hide Headers, HeaderLine, StatusError, SuccessLine, Declared, Declares, Acceptable, LineBytes, LinesBytes;
    LineRendered(rest, 0);
    StatusExactly(status);
    lines := HeadersSound(fields, Spent(0, rest, fields), None);
    DeclaredExactly(lines, None, length);
    HeadSplits(status, lines, body);
  }

  /** Nothing else is accepted: a success read a good head and then exactly the body it announces. */
  lemma OnlyGoodHeadsAreAccepted(rest: Bytes) returns (status: string, fields: seq<string>, length: Option<nat>)
    requires Response(rest).body.Ok?
    ensures GoodHead(status, fields, length)
    ensures var read := Response(rest);
            && rest == HeadBytes(status, fields) + (read.body.value + read.unread)
            && (if length.Some? then |read.body.value| == length.value else read.unread == [])
  {
    hide *;
    SuccessSteps(rest);
    var line := HeaderLine(rest, 0);
    var read := Headers(line.unread, Spent(0, rest, line.unread), None);
    status, length := line.line.value, read.length.value;
    fields := HeadSound(rest, status, line.unread, length, read.unread);
    ResponseSteps(rest, status, line.unread, length, read.unread);
  }

  // ---------------------------------------------------------------- what a refusal reports

  /** Fields that are read without error leave the reader after them, with what they declare. */
  lemma {:induction false} HeadersGoOn(fields: seq<string>, length: Option<nat>, used: nat, rest: Bytes)
    requires used + |LinesBytes(fields)| <= MAX_HEADER_BYTES
    requires Bounded(length)
    requires forall i | 0 <= i < |fields| :: IsLine(fields[i]) && fields[i] != ""
    requires Declared(fields, length).Ok?
    ensures Bounded(Declared(fields, length).value)
    ensures Headers(LinesBytes(fields) + rest, used, length) == Headers(rest, used + |LinesBytes(fields)|, Declared(fields, length).value)
  {
    hide Headers, HeaderLine, Field;
    if fields == [] {
      assert LinesBytes(fields) + rest == rest;
    } else {
      var line, more := LineBytes(fields[0]), LinesBytes(fields[1..]) + rest;
      HeadersStep(LinesBytes(fields) + rest, used, length);
      LineParsed(fields[0], more, used);
      assert LinesBytes(fields) + rest == line + more;
      HeadersGoOn(fields[1..], Field(fields[0], length).value, used + |line|, rest);
    }
  }

  lemma RefusedStatusSteps(rest: Bytes, line: string, more: Bytes)
    requires HeaderLine(rest, 0) == LineRead(Ok(line), more) && StatusError(line).Some?
    ensures Response(rest) == BodyRead(Err(StatusError(line).value), more)
  {
    hide HeaderLine, Headers, StatusError, Body;
  }

  /** A node that answers with another class of status is reported by its code, and nothing after the status
      line is read. */
  lemma RefusedStatusIsReported(status: string, code: string, tail: Bytes)
    requires IsLine(status) && RefusalLine(status, code) && |LineBytes(status)| <= MAX_HEADER_BYTES
    ensures Response(LineBytes(status) + tail) == BodyRead(Err(HttpStatus(code)), tail)
  {
    hide *;
    StatusExactly(status);
    LineParsed(status, tail, 0);
    RefusedStatusSteps(LineBytes(status) + tail, status, tail);
  }

  lemma RefusedFieldSteps(rest: Bytes, line: string, more: Bytes)
    requires HeaderLine(rest, 0) == LineRead(Ok(line), more) && StatusError(line) == None
    requires Headers(more, Spent(0, rest, more), None).length.Err?
    ensures var read := Headers(more, Spent(0, rest, more), None);
            Response(rest) == BodyRead(Err(read.length.error), read.unread)
  {
    hide HeaderLine, Headers, StatusError, Body;
  }

  /** A body that ends before its declared length is refused as such. */
  lemma ShortBodiesAreReported(status: string, fields: seq<string>, n: nat, tail: Bytes)
    requires GoodHead(status, fields, Some(n)) && |tail| < n
    ensures Response(HeadBytes(status, fields) + tail) == BodyRead(Err(UnexpectedEof), [])
  {
    hide GoodHead, Response, HeadBytes;
    GoodHeadsAreAccepted(status, fields, Some(n), tail);
  }

  lemma NothingIsBounded()
    ensures Bounded(None)
  {
  }

  /** The first field that cannot be read after the ones before it is what is reported, and nothing after it is
      read; `FieldErrorsExactly` says which error it is. */
  lemma FirstBadFieldIsReported(status: string, fields: seq<string>, bad: string, tail: Bytes)
    requires IsLine(status) && SuccessLine(status) && IsLine(bad) && bad != ""
    requires forall i | 0 <= i < |fields| :: IsLine(fields[i]) && fields[i] != ""
    requires Declared(fields, None).Ok? && Field(bad, Declared(fields, None).value).Err?
    requires |LineBytes(status)| + |LinesBytes(fields)| + |LineBytes(bad)| <= MAX_HEADER_BYTES
    ensures Response(LineBytes(status) + (LinesBytes(fields) + (LineBytes(bad) + tail)))
            == BodyRead(Err(Field(bad, Declared(fields, None).value).error), tail)
  {
    hide *;
    NothingIsBounded();
    StatusExactly(status);
    var last := LineBytes(bad) + tail;
    var line, more := LineBytes(status), LinesBytes(fields) + last;
    LineParsed(status, more, 0);
    HeadersGoOn(fields, None, |line|, last);
    SpentOn(line, more);
    LineParsed(bad, tail, |line| + |LinesBytes(fields)|);
    HeadersStep(last, |line| + |LinesBytes(fields)|, Declared(fields, None).value);
    RefusedFieldSteps(line + more, status, more);
  }

  // ---------------------------------------------------------------- rendering a response

  datatype HeaderField = HeaderField(name: string, value: string)

  function Rendered(field: HeaderField): string { field.name + [':'] + field.value }

  function RenderedAll(fields: seq<HeaderField>): (lines: seq<string>)
    ensures |lines| == |fields| && forall i | 0 <= i < |fields| :: lines[i] == Rendered(fields[i])
  {
    seq(|fields|, i requires 0 <= i < |fields| => Rendered(fields[i]))
  }

  /** A field a response may carry and that does not frame its body. */
  predicate Unrelated(field: HeaderField) {
    && Token(field.name) && Printable(field.value)
    && Lower(field.name) != "content-length" && Lower(field.name) != "transfer-encoding"
    && (Lower(field.name) == "content-encoding" ==> Lower(Utf8.Trim(field.value)) == "identity")
  }

  /** The field that declares `n`: any case, any surrounding white space, any numeral of `n`. */
  predicate LengthField(field: HeaderField, before: string, digits: string, after: string, n: nat) {
    && Lower(field.name) == "content-length" && Token(field.name)
    && field.value == before + digits + after && Utf8.Blank(before) && Utf8.Blank(after) && Printable(field.value)
    && digits != "" && Digits(digits) && DecimalValue(digits) == n
  }

  lemma TrimPadded(before: string, s: string, after: string)
    requires Utf8.Blank(before) && Utf8.Blank(after) && s != "" && Digits(s)
    ensures Utf8.Trim(before + s + after) == s
  {
    assert Digit(s[0]) && Digit(s[|s| - 1]);
    Utf8.TrimExactly(before + s + after, s);
    hide Utf8.Trim, Utf8.Blank;
  }

  lemma TokenHas(name: string, c: char)
    requires Token(name) && !TokenChar(c)
    ensures c !in name
  {
  }

  lemma PrintableIsLine(name: string, value: string)
    requires Token(name) && Printable(value)
    ensures IsLine(name + [':'] + value)
  {
    TokenHas(name, '\n');
    assert !ControlFree('\n');
  }

  lemma RenderedParts(field: HeaderField)
    requires Token(field.name) && Printable(field.value)
    ensures Before(Rendered(field), ':') == field.name && After(Rendered(field), ':') == field.value
    ensures IsLine(Rendered(field)) && ':' in Rendered(field)
  {
    TokenHas(field.name, ':');
    BeforeJoined(field.name, ':', field.value);
    PrintableIsLine(field.name, field.value);
    assert Rendered(field)[|field.name|] == ':';
  }

  lemma UnrelatedIsAcceptable(field: HeaderField)
    requires Unrelated(field)
    ensures IsLine(Rendered(field)) && Acceptable(Rendered(field)) && !Named(Rendered(field), "content-length")
  {
    RenderedParts(field);
    hide Before, After, Lower, Utf8.Trim, Token, Printable, Rendered, IsLine;
  }

  lemma LengthFieldDeclares(field: HeaderField, before: string, digits: string, after: string, n: nat)
    requires LengthField(field, before, digits, after, n) && n <= MAX_BODY_BYTES
    ensures IsLine(Rendered(field)) && Acceptable(Rendered(field))
    ensures Named(Rendered(field), "content-length") && Numeral(Rendered(field), n)
  {
    RenderedParts(field);
    TrimPadded(before, digits, after);
    hide Before, After, Lower, Utf8.Trim, Token, Printable, Rendered, IsLine, Digits, DecimalValue, Utf8.Blank;
    assert Numeral(Rendered(field), n);
  }

  lemma SuccessIsGood(version: string, code: string, reason: Option<string>)
    requires Success(version, code, reason)
    ensures IsLine(StatusLine(version, code, reason)) && SuccessLine(StatusLine(version, code, reason))
  {
    StatusOf(version, code, reason);
    hide StatusError, StatusLine, IsLine;
  }

  lemma RenderedFieldsDeclare(
    before: seq<HeaderField>, field: HeaderField, pad: string, digits: string, pad': string, after: seq<HeaderField>, n: nat)
    requires forall i | 0 <= i < |before| :: Unrelated(before[i])
    requires forall i | 0 <= i < |after| :: Unrelated(after[i])
    requires LengthField(field, pad, digits, pad', n) && n <= MAX_BODY_BYTES
    ensures var lines := RenderedAll(before + [field] + after);
            && Declares(lines, Some(n))
            && forall i | 0 <= i < |lines| :: IsLine(lines[i]) && Acceptable(lines[i])
  {
    var fields := before + [field] + after;
    var lines := RenderedAll(fields);
    hide Unrelated, Acceptable, IsLine, Named, Numeral, Rendered, LengthField;
    LengthFieldDeclares(field, pad, digits, pad', n);
    forall i | 0 <= i < |lines| && i != |before|
      ensures IsLine(lines[i]) && Acceptable(lines[i]) && !Named(lines[i], "content-length")
    {
      assert fields[i] == if i < |before| then before[i] else after[i - |before| - 1];
      UnrelatedIsAcceptable(fields[i]);
    }
    assert fields[|before|] == field;
    assert DeclaredAt(lines, |before|, n);
  }

  /** The framing round trip: any 2xx status line, any unrelated fields before and after any spelling of
      the Content-Length, any body within the limit and anything after it. Reading the rendered message
      gives exactly the body, and leaves unread exactly what follows it. */
  lemma RenderedResponsesRoundTrip(
    version: string, code: string, reason: Option<string>,
    before: seq<HeaderField>, field: HeaderField, pad: string, digits: string, pad': string, after: seq<HeaderField>,
    body: Bytes, tail: Bytes)
    requires Success(version, code, reason)
    requires forall i | 0 <= i < |before| :: Unrelated(before[i])
    requires forall i | 0 <= i < |after| :: Unrelated(after[i])
    requires LengthField(field, pad, digits, pad', |body|) && |body| <= MAX_BODY_BYTES
    requires |HeadBytes(StatusLine(version, code, reason), RenderedAll(before + [field] + after))| <= MAX_HEADER_BYTES
    ensures Response(HeadBytes(StatusLine(version, code, reason), RenderedAll(before + [field] + after)) + (body + tail))
            == BodyRead(Ok(body), tail)
  {
    var status, lines := StatusLine(version, code, reason), RenderedAll(before + [field] + after);
    SuccessIsGood(version, code, reason);
    RenderedFieldsDeclare(before, field, pad, digits, pad', after, |body|);
    hide *;
    GoodHeadFrom(status, lines, Some(|body|));
    GoodHeadsAreAccepted(status, lines, Some(|body|), body + tail);
    BodyOfLength(body, tail);
  }

  lemma BodyOfLength(body: Bytes, tail: Bytes)
    requires |body| <= MAX_BODY_BYTES
    ensures Body(body + tail, Some(|body|)) == BodyRead(Ok(body), tail)
  {
    assert (body + tail)[..|body|] == body && (body + tail)[|body|..] == tail;
  }

  /** Without a Content-Length the body is everything up to the end of the stream. */
  lemma CloseDelimitedResponses(version: string, code: string, reason: Option<string>, fields: seq<HeaderField>, body: Bytes)
    requires Success(version, code, reason)
    requires forall i | 0 <= i < |fields| :: Unrelated(fields[i])
    requires |HeadBytes(StatusLine(version, code, reason), RenderedAll(fields))| <= MAX_HEADER_BYTES
    ensures var read := Response(HeadBytes(StatusLine(version, code, reason), RenderedAll(fields)) + body);
            if |body| <= MAX_BODY_BYTES then read == BodyRead(Ok(body), [])
            else read == BodyRead(Err(BodyTooLong), body[MAX_BODY_BYTES + 1..])
  {
    hide *;
    var status, lines := StatusLine(version, code, reason), RenderedAll(fields);
    SuccessIsGood(version, code, reason);
    UnrelatedFieldsDeclareNothing(fields);
    GoodHeadFrom(status, lines, None);
    GoodHeadsAreAccepted(status, lines, None, body);
    BodyToTheEnd(body);
  }

  lemma UnrelatedFieldsDeclareNothing(fields: seq<HeaderField>)
    requires forall i | 0 <= i < |fields| :: Unrelated(fields[i])
    ensures var lines := RenderedAll(fields);
            Declares(lines, None) && forall i | 0 <= i < |lines| :: IsLine(lines[i]) && Acceptable(lines[i])
  {
    var lines := RenderedAll(fields);
    hide Unrelated, Acceptable, IsLine, Named, Rendered;
    forall i | 0 <= i < |lines| ensures IsLine(lines[i]) && Acceptable(lines[i]) && !Named(lines[i], "content-length") {
      UnrelatedIsAcceptable(fields[i]);
    }
  }

  lemma GoodHeadFrom(status: string, lines: seq<string>, length: Option<nat>)
    requires IsLine(status) && SuccessLine(status) && Declares(lines, length)
    requires forall i | 0 <= i < |lines| :: IsLine(lines[i]) && Acceptable(lines[i])
    requires |HeadBytes(status, lines)| <= MAX_HEADER_BYTES
    ensures GoodHead(status, lines, length)
  {
    hide SuccessLine, Declares, Acceptable, IsLine, HeadBytes;
  }

  lemma BodyToTheEnd(body: Bytes)
    ensures Body(body, None) == if |body| <= MAX_BODY_BYTES then BodyRead(Ok(body), [])
                                else BodyRead(Err(BodyTooLong), body[MAX_BODY_BYTES + 1..])
  {
  }

  function Decimal(n: nat): string { if n < 10 then [('0' as int + n) as char] else Decimal(n / 10) + Decimal(n % 10) }

  /** Every length has a numeral. */
  lemma {:induction false} NumeralsExist(n: nat)
    ensures Decimal(n) != "" && Digits(Decimal(n)) && DecimalValue(Decimal(n)) == n
  {
    if n < 10 {
      assert Decimal(n)[..0] == "";
    } else {
      NumeralsExist(n / 10);
      var high, low := Decimal(n / 10), Decimal(n % 10);
      assert |low| == 1 && Digit(low[0]);
      assert (high + low)[..|high + low| - 1] == high;
    }
  }
}
