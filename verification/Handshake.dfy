/** The HTTP CONNECT handshake, which reads byte by byte so that it takes no byte of the tunnelled payload. */
module Handshake {
  import opened Options

  const MAX_LINE := 4096
  const STATUS_PARTS := 3
  const CRLF := "\r\n"

  datatype ReadError = WriteFailed | Eof | TooLarge | Malformed | Rejected

  // ---------------------------------------------------------------------------------------
  // What is read
  // ---------------------------------------------------------------------------------------

  predicate CrlfAt(s: string, i: nat) {
    i + 2 <= |s| && s[i] == '\r' && s[i + 1] == '\n'
  }

  /** `bytes.HasSuffix(buf, "\r\n")` */
  predicate EndsInCrlf(buf: string) {
    2 <= |buf| && CrlfAt(buf, |buf| - 2)
  }

  /** The position of the first CRLF from `i` on; past the end if there is none. */
  function FirstCrlf(s: string, i: nat): (j: nat)
    requires i <= |s|
    ensures i <= j <= |s| && (j < |s| ==> CrlfAt(s, j))
    ensures forall k | i <= k < j :: !CrlfAt(s, k)
    decreases |s| - i
  {
    if i == |s| || CrlfAt(s, i) then i else FirstCrlf(s, i + 1)
  }

  /** One line and what follows it; the CRLF has to be among the first `MAX_LINE` bytes. */
  function ReadLine(s: string): (Result<string, ReadError>, string) {
    var j := FirstCrlf(s, 0);
    if j < |s| && j + 2 <= MAX_LINE then (Ok(s[..j]), s[j + 2..])
    else if |s| < MAX_LINE then (Err(Eof), "")
    else (Err(TooLarge), s[MAX_LINE..])
  }

  function IndexOf(s: string, c: char): (i: nat)
    ensures i <= |s| && c !in s[..i] && (i < |s| ==> s[i] == c)
  {
    if s == "" || s[0] == c then 0 else 1 + IndexOf(s[1..], c)
  }

  /** `strings.SplitN` with a one-byte separator. */
  function SplitN(s: string, c: char, n: nat): seq<string> {
    var i := IndexOf(s, c);
    if n <= 1 || i == |s| then [s] else [s[..i]] + SplitN(s[i + 1..], c, n - 1)
  }

  function CheckStatus(line: string): Option<ReadError> {
    var parts := SplitN(line, ' ', STATUS_PARTS);
    if |parts| < STATUS_PARTS - 1 then Some(Malformed)
    else if parts[1] != "200" then Some(Rejected)
    else None
  }

  /** `code` is what stands between the first space and the second, or the end. */
  predicate SecondField(line: string, version: string, code: string, reason: string) {
    line == version + " " + code + reason && ' ' !in version && ' ' !in code && (reason == "" || reason[0] == ' ')
  }

  lemma StatusIsSecondField(line: string, version: string, code: string, reason: string)
    requires SecondField(line, version, code, reason)
    ensures CheckStatus(line) == if code == "200" then None else Some(Rejected)
  {
    var i := IndexOf(line, ' ');
    assert line[|version|] == ' ' && line[..|version|] == version && i == |version|;
    var after := line[i + 1..];
    assert after == code + reason;
    var j := IndexOf(after, ' ');
    assert after[..|code|] == code && (reason != "" ==> after[|code|] == ' ');
    assert j == |code|;
    assert SplitN(line, ' ', 3) == [version] + SplitN(after, ' ', 2);
    assert SplitN(after, ' ', 2)[0] == code;
  }

  lemma CutAt(s: string, c: char)
    requires c in s
    ensures var i := IndexOf(s, c); i < |s| && s == s[..i] + [c] + s[i + 1..]
  {
    var i := IndexOf(s, c);
    assert s[..|s|] == s;
  }

  lemma Reassociate(version: string, code: string, reason: string)
    ensures version + " " + (code + reason) == version + " " + code + reason
  {
  }

  /** A line with a space has a second field. */
  lemma HasSecondField(line: string) returns (version: string, code: string, reason: string)
    requires ' ' in line
    ensures SecondField(line, version, code, reason)
  {
    CutAt(line, ' ');
    var i := IndexOf(line, ' ');
    version := line[..i];
    var after := line[i + 1..];
    var j := IndexOf(after, ' ');
    code, reason := after[..j], after[j..];
    assert after == code + reason;
    Reassociate(version, code, reason);
  }

  /** The second field of the line is 200. */
  ghost predicate Ok200(line: string) {
    exists version, reason :: SecondField(line, version, "200", reason)
  }

  /** All three answers, each exactly: malformed without a space, accepted with 200, rejected otherwise. */
  lemma StatusExactly(line: string)
    ensures CheckStatus(line) == Some(Malformed) <==> ' ' !in line
    ensures CheckStatus(line) == None <==> Ok200(line)
    ensures CheckStatus(line) == Some(Rejected) <==> ' ' in line && !Ok200(line)
  {
    if ' ' in line {
      var version, code, reason := HasSecondField(line);
      StatusIsSecondField(line, version, code, reason);
      if version', reason' :| SecondField(line, version', "200", reason') {
        StatusIsSecondField(line, version', "200", reason');
      }
    } else {
      assert IndexOf(line, ' ') == |line|;
      forall version, reason ensures !SecondField(line, version, "200", reason) {
        assert (version + " " + "200" + reason)[|version|] == ' ';
      }
    }
  }

  /** Drains lines up to and including the first empty one. */
  function ReadHeaders(s: string): (Option<ReadError>, string)
    decreases |s|
  {
    var (line, rest) := ReadLine(s);
    if line.Err? then (Some(line.error), rest)
    else if line.value == "" then (None, rest)
    else ReadHeaders(rest)
  }

  function ReadResponse(s: string): (Option<ReadError>, string) {
    var (line, rest) := ReadLine(s);
    if line.Err? then (Some(line.error), rest)
    else if CheckStatus(line.value).Some? then (CheckStatus(line.value), rest)
    else ReadHeaders(rest)
  }

  // ---------------------------------------------------------------------------------------
  // The code
  // ---------------------------------------------------------------------------------------

  function Request(target: string): string {
    "CONNECT " + target + " HTTP/1.1" + CRLF + "Host: " + target + CRLF + CRLF
  }

  class Conn {
    var sent: string
    var rest: string

    constructor (incoming: string)
      ensures sent == "" && rest == incoming
    {
      sent, rest := "", incoming;
    }

    method ReadByte() returns (b: Option<char>)
      modifies this`rest
      ensures b.None? <==> old(rest) == ""
      ensures b.Some? ==> old(rest) == [b.value] + rest
      ensures b.None? ==> rest == ""
    {
      if rest == "" {
        return None;
      }
      b, rest := Some(rest[0]), rest[1..];
    }

    method ReadHeaderLine() returns (r: Result<string, ReadError>)
      modifies this`rest
      ensures (r, rest) == ReadLine(old(rest))
    {
      var buf := "";
      ghost var s := rest;
      while |buf| < MAX_LINE
        invariant |buf| <= MAX_LINE && |buf| <= |s| && buf == s[..|buf|] && rest == s[|buf|..]
        invariant forall i | 0 <= i <= |buf| - 2 :: !CrlfAt(s, i)
      {
        var b := ReadByte();
        if b.None? {
          return Err(Eof);
        }
        buf := buf + [b.value];
        assert buf == s[..|buf|] && rest == s[|buf|..];
        if EndsInCrlf(buf) {
          assert CrlfAt(s, |buf| - 2) && FirstCrlf(s, 0) == |buf| - 2 && buf[..|buf| - 2] == s[..|buf| - 2];
          return Ok(buf[..|buf| - 2]);
        }
      }
      r := Err(TooLarge);
    }

    method ReadConnectResponse() returns (err: Option<ReadError>)
      modifies this`rest
      ensures (err, rest) == ReadResponse(old(rest))
    {
      var status := ReadHeaderLine();
      if status.Err? {
        return Some(status.error);
      }
      var parts := SplitN(status.value, ' ', STATUS_PARTS);
      if |parts| < STATUS_PARTS - 1 {
        return Some(Malformed);
      }
      if parts[1] != "200" {
        return Some(Rejected);
      }
      ghost var headers := rest;
      while true
        invariant ReadHeaders(headers) == ReadHeaders(rest)
        decreases |rest|
      {
        var line := ReadHeaderLine();
        if line.Err? {
          return Some(line.error);
        }
        if line.value == "" {
          return None;
        }
      }
    }

    /** The connection takes the first `accepted` bytes at most; a short write is an error. */
    method WriteString(data: string, accepted: nat) returns (ok: bool)
      modifies this`sent
      ensures ok <==> |data| <= accepted
      ensures sent == old(sent) + if ok then data else data[..accepted]
    {
      ok := |data| <= accepted;
      sent := sent + if ok then data else data[..accepted];
    }

    /** Nothing is read unless the whole request was written. */
    method EstablishConnectTunnel(target: string, accepted: nat) returns (err: Option<ReadError>)
      modifies this
      ensures var request := Request(target);
        if |request| <= accepted then sent == old(sent) + request && (err, rest) == ReadResponse(old(rest))
        else sent == old(sent) + request[..accepted] && err == Some(WriteFailed) && rest == old(rest)
    {
      var ok := WriteString(Request(target), accepted);
      if !ok {
        return Some(WriteFailed);
      }
      err := ReadConnectResponse();
    }
  }

  // ---------------------------------------------------------------------------------------
  // Printed responses
  // ---------------------------------------------------------------------------------------

  function Print(lines: seq<string>): string {
    if lines == [] then "" else lines[0] + CRLF + Print(lines[1..])
  }

  /** Free of CRLF, and not longer than `MAX_LINE` with one added. */
  predicate GoodLine(line: string) {
    |line| + |CRLF| <= MAX_LINE && forall i | 0 <= i < |line| :: !CrlfAt(line, i)
  }

  /** Header lines: the reader stops at an empty one. */
  predicate GoodHeaders(lines: seq<string>) {
    forall line | line in lines :: line != "" && GoodLine(line)
  }

  ghost predicate GoodStatus(line: string) {
    GoodLine(line) && Ok200(line)
  }

  /** Where CRLFs can be in a line, its terminator, and what follows. */
  lemma CrlfInLine(line: string, tail: string, i: nat)
    requires GoodLine(line)
    ensures CrlfAt(line + CRLF + tail, i) <==> i == |line| || (i >= |line| + 2 && CrlfAt(tail, i - |line| - 2))
  {
    var s := line + CRLF + tail;
    assert s[|line|..] == CRLF + tail && s[|line| + 2..] == tail;
    if i + 1 < |line| {
      assert !CrlfAt(line, i);
    }
  }

  lemma ReadPrintedLine(line: string, tail: string)
    requires GoodLine(line)
    ensures ReadLine(line + CRLF + tail) == (Ok(line), tail)
  {
    var s := line + CRLF + tail;
    var j := FirstCrlf(s, 0);
    CrlfInLine(line, tail, |line|);
    CrlfInLine(line, tail, j);
    assert j == |line|;
    assert s[..j] == line && s[j + 2..] == tail;
  }

  lemma {:induction false} ReadPrintedHeaders(lines: seq<string>, payload: string)
    requires GoodHeaders(lines)
    ensures ReadHeaders(Print(lines) + CRLF + payload) == (None, payload)
  {
    if lines == [] {
      assert Print(lines) + CRLF + payload == "" + CRLF + payload;
      ReadPrintedLine("", payload);
    } else {
      var tail := Print(lines[1..]) + CRLF + payload;
      assert Print(lines) + CRLF + payload == lines[0] + CRLF + tail;
      ReadPrintedLine(lines[0], tail);
      ReadPrintedHeaders(lines[1..], payload);
    }
  }

  /** A printed response is accepted, and exactly its payload is left. */
  lemma ResponseRoundTrip(status: string, headers: seq<string>, payload: string)
    requires GoodStatus(status) && GoodHeaders(headers)
    ensures ReadResponse(Print([status] + headers) + CRLF + payload) == (None, payload)
  {
    var tail := Print(headers) + CRLF + payload;
    assert ([status] + headers)[1..] == headers;
    assert Print([status] + headers) + CRLF + payload == status + CRLF + tail;
    ReadPrintedLine(status, tail);
    StatusExactly(status);
    ReadPrintedHeaders(headers, payload);
  }

  lemma ReadLineIsPrinted(s: string)
    requires ReadLine(s).0.Ok?
    ensures GoodLine(ReadLine(s).0.value) && s == ReadLine(s).0.value + CRLF + ReadLine(s).1
  {
    var j := FirstCrlf(s, 0);
    assert s[j..j + 2] == CRLF;
    assert s == s[..j] + s[j..j + 2] + s[j + 2..];
    forall i | 0 <= i < j ensures !CrlfAt(s[..j], i) {
      assert !CrlfAt(s, i);
    }
  }

  lemma {:induction false} HeadersArePrinted(s: string) returns (lines: seq<string>)
    requires ReadHeaders(s).0.None?
    ensures GoodHeaders(lines) && s == Print(lines) + CRLF + ReadHeaders(s).1
    decreases |s|
  {
    var (line, rest) := ReadLine(s);
    ReadLineIsPrinted(s);
    if line.value == "" {
      lines := [];
    } else {
      var more := HeadersArePrinted(rest);
      lines := [line.value] + more;
      assert lines[1..] == more;
    }
  }

  predicate BlankLineAt(s: string, i: nat) {
    CrlfAt(s, i) && CrlfAt(s, i + 2)
  }

  lemma BlankInLine(line: string, tail: string, i: nat)
    requires GoodLine(line)
    ensures BlankLineAt(line + CRLF + tail, i) <==>
      (i == |line| && CrlfAt(tail, 0)) || (i >= |line| + 2 && BlankLineAt(tail, i - |line| - 2))
  {
    CrlfInLine(line, tail, i);
    CrlfInLine(line, tail, i + 2);
  }

  lemma BlankAtOnce(lines: seq<string>, payload: string)
    requires GoodHeaders(lines)
    ensures CrlfAt(Print(lines) + CRLF + payload, 0) <==> lines == []
  {
    if lines == [] {
      assert Print(lines) + CRLF + payload == CRLF + payload;
    } else {
      var tail := Print(lines[1..]) + CRLF + payload;
      assert Print(lines) + CRLF + payload == lines[0] + CRLF + tail;
      CrlfInLine(lines[0], tail, 0);
    }
  }

  /** In a printed response the first CRLF CRLF ends the headers. */
  lemma {:induction false} FirstBlankLine(lines: seq<string>, payload: string, i: nat)
    requires lines != [] && GoodHeaders(lines)
    ensures |Print(lines)| >= 2
    ensures i <= |Print(lines)| - 2 ==>
      (BlankLineAt(Print(lines) + CRLF + payload, i) <==> i == |Print(lines)| - 2)
  {
    var tail := Print(lines[1..]) + CRLF + payload;
    assert Print(lines) + CRLF + payload == lines[0] + CRLF + tail;
    BlankInLine(lines[0], tail, i);
    BlankAtOnce(lines[1..], payload);
    if lines[1..] == [] {
      assert |Print(lines)| == |lines[0]| + 2;
    } else {
      FirstBlankLine(lines[1..], payload, if i >= |lines[0]| + 2 then i - |lines[0]| - 2 else 0);
    }
  }

  /** The stream is a printed response followed by `payload`. */
  ghost predicate Response(s: string, lines: seq<string>, payload: string) {
    lines != [] && GoodStatus(lines[0]) && GoodHeaders(lines) && s == Print(lines) + CRLF + payload
  }

  lemma PrintMore(line: string, more: seq<string>, payload: string)
    ensures line + CRLF + (Print(more) + CRLF + payload) == Print([line] + more) + CRLF + payload
  {
    assert ([line] + more)[1..] == more;
  }

  lemma GoodMore(line: string, more: seq<string>)
    requires line != "" && GoodLine(line) && GoodHeaders(more)
    ensures GoodHeaders([line] + more)
  {
  }

  lemma ResponseIsPrinted(s: string) returns (lines: seq<string>)
    requires ReadResponse(s).0.None?
    ensures Response(s, lines, ReadResponse(s).1)
  {
    var (line, rest) := ReadLine(s);
    ReadLineIsPrinted(s);
    StatusExactly(line.value);
    var more := HeadersArePrinted(rest);
    PrintMore(line.value, more, ReadResponse(s).1);
    GoodMore(line.value, more);
    lines := [line.value] + more;
  }

  /** Exactly the printed responses are accepted. */
  lemma AcceptsExactlyResponses(s: string)
    ensures ReadResponse(s).0.None? <==> exists lines, payload :: Response(s, lines, payload)
  {
    if ReadResponse(s).0.None? {
      var lines := ResponseIsPrinted(s);
    }
    if lines, payload :| Response(s, lines, payload) {
      assert lines == [lines[0]] + lines[1..];
      assert forall line | line in lines[1..] :: line in lines;
      ResponseRoundTrip(lines[0], lines[1..], payload);
    }
  }

  /** On success the bytes taken are the shortest prefix of the stream that ends in CRLF CRLF. */
  lemma ConsumesExactlyTheHeader(s: string) returns (taken: nat)
    requires ReadResponse(s).0.None?
    ensures 4 <= taken <= |s| && ReadResponse(s).1 == s[taken..]
    ensures forall i: nat | i <= taken - 4 :: BlankLineAt(s, i) <==> i == taken - 4
  {
    var lines := ResponseIsPrinted(s);
    var payload := ReadResponse(s).1;
    taken := |Print(lines)| + 2;
    assert s[taken..] == payload;
    forall i: nat | i <= taken - 4 ensures BlankLineAt(s, i) <==> i == taken - 4 {
      FirstBlankLine(lines, payload, i);
    }
    FirstBlankLine(lines, payload, 0);
  }

  // ---------------------------------------------------------------------------------------
  // Refusals
  // ---------------------------------------------------------------------------------------

  /** A line is not to be had exactly if the stream ends, or 4096 bytes pass, before a CRLF; those bytes are taken. */
  lemma NoLineExactly(s: string)
    ensures ReadLine(s) == (Err(Eof), "") <==> |s| < MAX_LINE && forall i: nat :: !CrlfAt(s, i)
    ensures |s| >= MAX_LINE ==>
      (ReadLine(s) == (Err(TooLarge), s[MAX_LINE..]) <==> forall i: nat | i + 2 <= MAX_LINE :: !CrlfAt(s, i))
    ensures ReadLine(s).0.Err? ==> ReadLine(s).0.error == if |s| < MAX_LINE then Eof else TooLarge
  {
    var j := FirstCrlf(s, 0);
    assert forall i: nat | i < j :: !CrlfAt(s, i);
    assert j < |s| ==> CrlfAt(s, j);
  }

  /** The stream is a good beginning of a response, after which no line is to be had. */
  ghost predicate Breaks(s: string, lines: seq<string>, tail: string, e: ReadError) {
    s == Print(lines) + tail && ReadLine(tail).0 == Err(e) && GoodHeaders(lines) && (lines != [] ==> GoodStatus(lines[0]))
  }

  lemma {:induction false} HeadersBreak(s: string) returns (lines: seq<string>, tail: string)
    requires ReadHeaders(s).0.Some?
    ensures GoodHeaders(lines) && s == Print(lines) + tail && ReadLine(tail).0 == Err(ReadHeaders(s).0.value)
    decreases |s|
  {
    var (line, rest) := ReadLine(s);
    if line.Err? {
      lines, tail := [], s;
      assert s == "" + s;
    } else {
      ReadLineIsPrinted(s);
      var more, t := HeadersBreak(rest);
      GoodMore(line.value, more);
      PrintOneMore(line.value, more, t);
      lines, tail := [line.value] + more, t;
    }
  }

  lemma PrintOneMore(line: string, more: seq<string>, tail: string)
    ensures Print([line] + more) + tail == line + CRLF + (Print(more) + tail)
  {
    assert ([line] + more)[1..] == more;
  }

  lemma {:induction false} BrokenHeaders(lines: seq<string>, tail: string)
    requires GoodHeaders(lines) && ReadLine(tail).0.Err?
    ensures ReadHeaders(Print(lines) + tail).0 == Some(ReadLine(tail).0.error)
  {
    if lines == [] {
      assert Print(lines) + tail == tail;
    } else {
      assert lines == [lines[0]] + lines[1..];
      PrintOneMore(lines[0], lines[1..], tail);
      ReadPrintedLine(lines[0], Print(lines[1..]) + tail);
      BrokenHeaders(lines[1..], tail);
    }
  }

  lemma ResponseBreaks(s: string) returns (lines: seq<string>, tail: string)
    requires ReadResponse(s).0.Some? && ReadResponse(s).0.value !in {Malformed, Rejected}
    ensures Breaks(s, lines, tail, ReadResponse(s).0.value)
  {
    var (line, rest) := ReadLine(s);
    if line.Err? {
      lines, tail := [], s;
      assert s == "" + s;
    } else {
      ReadLineIsPrinted(s);
      StatusExactly(line.value);
      var more, t := HeadersBreak(rest);
      GoodMore(line.value, more);
      PrintOneMore(line.value, more, t);
      lines, tail := [line.value] + more, t;
    }
  }

  lemma BrokenResponse(s: string, lines: seq<string>, tail: string, e: ReadError)
    requires Breaks(s, lines, tail, e)
    ensures ReadResponse(s).0 == Some(e)
  {
    if lines == [] {
      assert s == tail;
    } else {
      assert lines == [lines[0]] + lines[1..];
      assert forall line | line in lines[1..] :: line in lines;
      PrintOneMore(lines[0], lines[1..], tail);
      ReadPrintedLine(lines[0], Print(lines[1..]) + tail);
      StatusExactly(lines[0]);
      BrokenHeaders(lines[1..], tail);
    }
  }

  /** The reading breaks off exactly where a good beginning is followed by no further line. */
  lemma BreaksExactly(s: string, e: ReadError)
    requires e == Eof || e == TooLarge
    ensures ReadResponse(s).0 == Some(e) <==> exists lines, tail :: Breaks(s, lines, tail, e)
  {
    if ReadResponse(s).0 == Some(e) {
      var lines, tail := ResponseBreaks(s);
    }
    if lines, tail :| Breaks(s, lines, tail, e) {
      BrokenResponse(s, lines, tail, e);
    }
  }

  /** A response is refused exactly for its first line, and nothing after that line is read. */
  lemma RefusedExactly(s: string)
    ensures ReadResponse(s).0 == Some(Malformed) <==> ReadLine(s).0.Ok? && ' ' !in ReadLine(s).0.value
    ensures ReadResponse(s).0 == Some(Rejected) <==>
      ReadLine(s).0.Ok? && ' ' in ReadLine(s).0.value && !Ok200(ReadLine(s).0.value)
    ensures ReadResponse(s).0 in {Some(Malformed), Some(Rejected)} ==> s == ReadLine(s).0.value + CRLF + ReadResponse(s).1
  {
    if ReadLine(s).0.Ok? {
      ReadLineIsPrinted(s);
      StatusExactly(ReadLine(s).0.value);
      HeadersDoNotRefuse(ReadLine(s).1);
    }
  }

  lemma {:induction false} HeadersDoNotRefuse(s: string)
    ensures ReadHeaders(s).0 !in {Some(Malformed), Some(Rejected)}
    decreases |s|
  {
    var (line, rest) := ReadLine(s);
    if line.Ok? && line.value != "" {
      HeadersDoNotRefuse(rest);
    }
  }

  /** The request is a request line, a Host header and an empty line. */
  lemma RequestIsPrinted(target: string)
    ensures Request(target) == Print(["CONNECT " + target + " HTTP/1.1", "Host: " + target]) + CRLF
  {
    var first, second := "CONNECT " + target + " HTTP/1.1", "Host: " + target;
    assert [first, second][1..] == [second] && [second][1..] == [];
    assert Print([second]) == second + CRLF + "" == second + CRLF;
    assert first + CRLF + "Host: " + target == first + CRLF + second;
    assert first + CRLF + second + CRLF == first + CRLF + (second + CRLF);
  }
}
