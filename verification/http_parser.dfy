/**
 The resumable HTTP parser of source/http/parse.cpp.  A coroutine that is resumed once per
 byte becomes a resume point with its local variables; what the callbacks store in the
 message is the sequence of callbacks made.
 */
module HttpParserModule {
  import opened Bytes

  datatype Error = NoError | InvalidMethod | InvalidPath | InvalidVersion | InvalidLine | InvalidHeader | InvalidChunk

  datatype CheckState = NoCheck | CheckLine | CheckHeader | CheckChunk

  datatype Event =
    | Method(text: string)
    | Path(text: string)
    | Query(text: string)
    | Fragment(text: string)
    | Version(text: string)
    | Header(key: string, text: string)
    | Body(text: string)

  /** Where a coroutine resumes with the next byte. */
  datatype Task =
    | InMethod(buff: string)
    | InPath(buff: string)
    | InQuery(buff: string)
    | InFragment(buff: string)
    | InVersion(matched: nat)
    | InMinor
    | LineCR
    | LineLF
    | InKey(key: string)
    | SkipSpaces(key: string)
    | InValue(key: string, val: string)
    | HeaderLF(key: string, val: string)
    | NextLine(key: string, val: string)
    | FinalLF(key: string, val: string)
    | InSize(body: string, len: nat)
    | SizeLF(body: string, len: nat)
    | InChunk(body: string, len: nat, i: nat)
    | ChunkLF(body: string, len: nat)
    | Returned

  datatype Parser = Parser(state: CheckState, task: Task, error: Error, finish: bool, events: seq<Event>)

  const FRESH := Parser(NoCheck, Returned, NoError, false, [])

  predicate Finished(p: Parser) { p.error != NoError || p.finish }

  // ----- Character classes -----

  predicate Alpha(c: char) { 'a' <= c <= 'z' || 'A' <= c <= 'Z' }
  predicate Printable(c: char) { ' ' <= c <= '~' }
  predicate HexDigit(c: char) { '0' <= c <= '9' || 'a' <= c <= 'f' || 'A' <= c <= 'F' }

  function Digit(c: char): (d: nat)
    requires HexDigit(c)
    ensures d < 16
  {
    if c <= '9' then (c - '0') as nat else if c <= 'F' then (c - 'A') as nat + 10 else (c - 'a') as nat + 10
  }

  const METHODS: set<string> := {
    "DELETE", "GET", "HEAD", "POST", "PUT", "CONNECT", "OPTIONS", "TRACE", "COPY", "LOCK", "MKCOL", "MOVE", "PROPFIND",
    "PROPPATCH", "SEARCH", "UNLOCK", "BIND", "REBIND", "UNBIND", "ACL", "REPORT", "MKACTIVITY", "CHECKOUT", "MERGE",
    "M-SEARCH", "NOTIFY", "SUBSCRIBE", "UNSUBSCRIBE", "PATCH", "PURGE", "MKCALENDAR", "LINK", "UNLINK", "SOURCE"
  }

  predicate KnownMethod(s: string) { s in METHODS }

  // ----- One byte -----

  function Fail(p: Parser, e: Error): Parser { p.(task := Returned, error := e) }
  function Goto(p: Parser, t: Task): Parser { p.(task := t) }
  function Emit(p: Parser, e: Event, t: Task): Parser { p.(task := t, events := p.events + [e]) }

  /** `on_request_header` ignores an empty name. */
  function EmitHeader(p: Parser, key: string, val: string): Parser {
    if key == [] then p else p.(events := p.events + [Header(key, val)])
  }

  /** `parse_line` of a request. */
  function LineByte(p: Parser, c: char): Parser {
    match p.task
    case InMethod(buff) =>
      if Alpha(c) then Goto(p, InMethod(buff + [c]))
      else if buff == [] || c != ' ' || !KnownMethod(buff) then Fail(p, InvalidMethod)
      else Emit(p, Method(buff), InPath([]))
    case InPath(buff) =>
      if Printable(c) && c != ' ' && c != '?' then Goto(p, InPath(buff + [c]))
      else if buff == [] then Fail(p, InvalidPath)
      else if c == '?' then Emit(p, Path(buff), InQuery([]))
      else if c != ' ' then Fail(p, InvalidPath)
      else Emit(p, Path(buff), InVersion(0))
    case InQuery(buff) =>
      if Printable(c) && c != ' ' && c != '#' then Goto(p, InQuery(buff + [c]))
      else if c == '#' then Emit(p, Query(buff), InFragment([c]))
      else if c != ' ' then Fail(p, InvalidPath)
      else Emit(p, Query(buff), InVersion(0))
    case InFragment(buff) =>
      if Printable(c) && c != ' ' then Goto(p, InFragment(buff + [c]))
      else if c != ' ' then Fail(p, InvalidPath)
      else Emit(p, Fragment(buff), InVersion(0))
    case InVersion(k) =>
      if k >= 7 || c != "HTTP/1."[k] then Fail(p, InvalidVersion)
      else Goto(p, if k + 1 < 7 then InVersion(k + 1) else InMinor)
    case InMinor =>
      if c != '1' && c != '0' then Fail(p, InvalidVersion)
      else Emit(p, Version("1." + [c]), LineCR)
    case LineCR => if c != '\r' then Fail(p, InvalidLine) else Goto(p, LineLF)
    case LineLF => if c != '\n' then Fail(p, InvalidLine) else p.(state := CheckHeader, task := Returned)
    case _ => p
  }

  /** `parse_header`. */
  function HeaderByte(p: Parser, c: char): Parser {
    match p.task
    case InKey(key) =>
      if Printable(c) && c != ':' then Goto(p, InKey(key + [c]))
      else if c != ':' then Fail(p, InvalidHeader)
      else Goto(p, SkipSpaces(key))
    case SkipSpaces(key) => if c == ' ' then p else ValueByte(p, key, [], c)
    case InValue(key, val) => ValueByte(p, key, val, c)
    case HeaderLF(key, val) => if c != '\n' then Fail(p, InvalidHeader) else Goto(p, NextLine(key, val))
    case NextLine(key, val) =>
      if c == '\r' then Goto(p, FinalLF(key, val)) else Goto(EmitHeader(p, key, val), InKey([c]))
    case FinalLF(key, val) =>
      if c != '\n' then Fail(p, InvalidHeader)
      else EmitHeader(p, key, val).(task := Returned, finish := true, state := NoCheck)
    case _ => p
  }

  function ValueByte(p: Parser, key: string, val: string, c: char): Parser {
    if Printable(c) then Goto(p, InValue(key, val + [c]))
    else if c != '\r' then Fail(p, InvalidHeader)
    else Goto(p, HeaderLF(key, val))
  }

  /** `parse_chunk` of a response; the length wraps around at 64 bits. */
  function ChunkByte(p: Parser, c: char): Parser {
    match p.task
    case InSize(body, len) =>
      if HexDigit(c) then Goto(p, InSize(body, (len * 16 + Digit(c)) % TWO64))
      else if c != '\r' then Fail(p, InvalidChunk)
      else Goto(p, SizeLF(body, len))
    case SizeLF(body, len) => if c != '\n' then Fail(p, InvalidChunk) else Goto(p, InChunk(body, len, 0))
    case InChunk(body, len, i) =>
      if i < len then Goto(p, InChunk(body + [c], len, i + 1))
      else if c != '\r' then Fail(p, InvalidChunk)
      else Goto(p, ChunkLF(body, len))
    case ChunkLF(body, len) =>
      if c != '\n' then Fail(p, InvalidChunk)
      else if len > 0 then Goto(p, InSize(body, 0))
      else Emit(p, Body(body), Returned).(finish := true)
    case _ => p
  }

  /** `m_parser.resume()` for the coroutine of the current state. */
  function Resume(p: Parser, c: char): Parser {
    match p.state
    case NoCheck => p
    case CheckLine => LineByte(p, c)
    case CheckHeader => HeaderByte(p, c)
    case CheckChunk => ChunkByte(p, c)
  }

  /** One turn of the loops of `execute`, with the switch from the line to the headers. */
  function Byte(p: Parser, c: char): Parser {
    var q := Resume(p, c);
    if p.state == CheckLine && q.state == CheckHeader && !Finished(q) then q.(task := InKey([])) else q
  }

  // ----- Whole calls -----

  /** The start of `execute`: which coroutine runs. */
  function Begin(p: Parser, chunk: bool): Parser {
    if chunk && p.state != CheckChunk then p.(state := CheckChunk, finish := false, task := InSize([], 0))
    else if p.state == NoCheck then p.(state := CheckLine, task := InMethod([]))
    else p
  }

  /** Bytes are consumed until the message is complete or wrong; with the number consumed. */
  function Run(p: Parser, data: string): (r: (Parser, nat))
    ensures r.1 <= |data|
    decreases |data|
  {
    if data == [] then (p, 0)
    else
      var q := Byte(p, data[0]);
      if Finished(q) then (q, 1)
      else
        var (r, n) := Run(q, data[1..]);
        (r, n + 1)
  }

  /** Successive calls of `execute`, one fragment each, until the parser is finished. */
  function Feed(p: Parser, frags: seq<string>, chunk: bool): (Parser, nat)
    decreases |frags|
  {
    if frags == [] then (p, 0)
    else
      var (q, n) := Run(Begin(p, chunk), frags[0]);
      if Finished(q) then (q, n)
      else
        var (r, m) := Feed(q, frags[1..], chunk);
        (r, n + m)
  }

  function Concat(frags: seq<string>): string {
    if frags == [] then [] else frags[0] + Concat(frags[1..])
  }

  class HttpParser {
    var state: CheckState
    var task: Task
    var error: Error
    var finish: bool
    var events: seq<Event>

    constructor ()
      ensures Value() == FRESH
    {
      state, task, error, finish, events := NoCheck, Returned, NoError, false, [];
    }

    function Value(): Parser
      reads this
    {
      Parser(state, task, error, finish, events)
    }

    /** `m_parser.resume()` with m_cur at `c`, and the new error. */
    method ResumeWith(c: char)
      modifies this
      ensures Value() == Resume(old(Value()), c)
    {
      var p := Resume(Value(), c);
      state, task, error, finish, events := p.state, p.task, p.error, p.finish, p.events;
    }

    /** A loop of `execute`: resume byte by byte until finished, out of bytes, or past the request line. */
    method Scan(data: array<char>, from: nat, len: nat) returns (i: nat)
      requires from <= len <= data.Length
      modifies this
      ensures from <= i <= len
      ensures Run(old(Value()), data[from..len]) == if Finished(Value()) && from < i then (Value(), i - from)
                                                   else Later(Run(Value(), data[i..len]), i - from)
      ensures i == len || (Finished(Value()) && from < i) || (from < i && old(state) == CheckLine && state != CheckLine)
    {
      hide Resume;
      i := from;
      ghost var start := Value();
      var line := state == CheckLine;
      while i < len
        invariant from <= i <= len && (state == CheckLine <==> line) && !(Finished(Value()) && from < i)
        invariant Run(start, data[from..len]) == Later(Run(Value(), data[i..len]), i - from)
      {
        RunOne(Value(), data[i..len]);
        StateAfter(Value(), data[i]);
        assert data[i..len][1..] == data[i + 1..len];
        ResumeWith(data[i]);
        i := i + 1;
        if error != NoError || finish {
          return;
        }
        if line && state == CheckHeader {
          task := InKey([]);
          return;
        }
      }
    }

    /** Consumes a prefix of the buffer and moves the rest of it to the front. */
    method Execute(data: array<char>, len: nat, chunk: bool) returns (offset: nat)
      requires len <= data.Length
      modifies this, data
      ensures (Value(), offset) == Run(Begin(old(Value()), chunk), old(data[..len]))
      ensures offset <= len && data[..len - offset] == old(data[offset..len])
    {
      hide Run;
      if chunk && state != CheckChunk {
        state, finish, task := CheckChunk, false, InSize([], 0);
      }
      if state == NoCheck {
        state, task := CheckLine, InMethod([]);
      }
      ghost var start := Value();
      assert start == Begin(old(Value()), chunk);
      assert data[0..len] == old(data[..len]) && data[len..len] == [];
      offset := Scan(data, 0, len);
      RunNone(Value());
      if offset < len && !(error != NoError || finish) {
        ghost var middle, k := Value(), offset;
        assert Run(start, data[0..len]) == Later(Run(middle, data[k..len]), k);
        offset := Scan(data, offset, len);
        RunNone(Value());
        assert Run(middle, data[k..len]) == (Value(), offset - k);
      }
      assert Run(start, data[0..len]) == (Value(), offset);
      MoveFront(data, offset, len);
    }
  }

  /** `memmove` of what is left. */
  method MoveFront(data: array<char>, offset: nat, len: nat)
    requires offset <= len <= data.Length
    modifies data
    ensures data[..len - offset] == old(data[offset..len])
  {
    forall k | 0 <= k < len - offset {
      data[k] := data[offset + k];
    }
  }

  function Later(r: (Parser, nat), n: nat): (Parser, nat) { (r.0, r.1 + n) }

  /** Only the end of the request line, or the end of the message, changes the state. */
  lemma StateAfter(p: Parser, c: char)
    ensures
      var q := Resume(p, c);
      q.state == p.state || (p.state == CheckLine && q.state == CheckHeader) || Finished(q)
  {
  }

  lemma RunNone(p: Parser)
    ensures Run(p, []) == (p, 0)
  {
  }

  lemma RunOne(p: Parser, data: string)
    requires data != []
    ensures Run(p, data) == if Finished(Byte(p, data[0])) then (Byte(p, data[0]), 1) else Later(Run(Byte(p, data[0]), data[1..]), 1)
  {
  }
}
