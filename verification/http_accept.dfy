/** The converse of HttpLaws: a request is accepted only if it is well formed. */
module HttpAccept {
  import opened HttpParserModule
  import opened HttpLaws

  /** The message is complete, without an error, after the first n bytes. */
  predicate Accepts(p: Parser, data: string, n: int) {
    var (q, k) := Run(p, data);
    k == n && q.finish && q.error == NoError
  }

  /** What is left to accept after one byte. */
  predicate AcceptsOn(q: Parser, rest: string, n: int) {
    if q.finish then n == 0 else Accepts(q, rest, n)
  }

  lemma FirstByte(p: Parser, data: string, n: int)
    requires !Finished(p) && Accepts(p, data, n)
    ensures data != [] && data == [data[0]] + data[1..]
    ensures Byte(p, data[0]).error == NoError && AcceptsOn(Byte(p, data[0]), data[1..], n - 1)
  {
    hide Byte;
  }

  /** A given byte is the only one that does not fail. */
  lemma Expect(p: Parser, data: string, n: int, c: char)
    requires !Finished(p) && Accepts(p, data, n)
    requires forall d: char :: Byte(p, d).error == NoError ==> d == c
    ensures data != [] && data == [c] + data[1..]
    ensures Byte(p, c).error == NoError && AcceptsOn(Byte(p, c), data[1..], n - 1)
  {
    hide Byte;
    FirstByte(p, data, n);
  }

  /** The loop goes on with the bytes it accepts. */
  ghost predicate Loops(p: Parser, mk: string -> Task, ok: char -> bool) {
    forall b: string, c: char :: ok(c) ==> Byte(Goto(p, mk(b)), c) == Goto(p, mk(b + [c]))
  }

  /** An accepted input leaves a reading loop, with a byte that the loop refuses. */
  lemma {:induction false} LeavesLoop(p: Parser, mk: string -> Task, ok: char -> bool, buff: string, data: string, n: int)
    returns (text: string, c: char, rest: string)
    requires !Finished(p) && Loops(p, mk, ok) && Accepts(Goto(p, mk(buff)), data, n)
    ensures data == (text + [c]) + rest && All(text, ok) && !ok(c)
    ensures
      var q := Byte(Goto(p, mk(buff + text)), c);
      q.error == NoError && AcceptsOn(q, rest, n - |text + [c]|)
    decreases |data|
  {
    hide Byte, Accepts;
    FirstByte(Goto(p, mk(buff)), data, n);
    if ok(data[0]) {
      var more;
      more, c, rest := LeavesLoop(p, mk, ok, buff + [data[0]], data[1..], n - 1);
      text := [data[0]] + more;
      assert buff + text == buff + [data[0]] + more;
      assert (text + [c]) + rest == [data[0]] + ((more + [c]) + rest);
    } else {
      text, c, rest := [], data[0], data[1..];
      assert buff + text == buff;
    }
  }

  // ----- The request line -----

  lemma MethodOnly(p: Parser, data: string, n: int) returns (m: string, rest: string)
    requires !Finished(p) && p.state == CheckLine && Accepts(Goto(p, InMethod([])), data, n)
    ensures data == (m + " ") + rest && KnownMethod(m) && m != [] && All(m, Alpha)
    ensures Accepts(Emit(p, Method(m), InPath([])), rest, n - |m + " "|)
  {
    hide KnownMethod, Run;
    var c;
    m, c, rest := LeavesLoop(p, b => InMethod(b), Alpha, [], data, n);
    assert [] + m == m;
  }

  lemma PathOnly(p: Parser, data: string, n: int) returns (path: string, c: char, rest: string)
    requires !Finished(p) && p.state == CheckLine && Accepts(Goto(p, InPath([])), data, n)
    ensures data == (path + [c]) + rest && path != [] && All(path, PathChar) && (c == ' ' || c == '?')
    ensures Accepts(Emit(p, Path(path), if c == ' ' then InVersion(0) else InQuery([])), rest, n - |path + [c]|)
  {
    hide Run;
    path, c, rest := LeavesLoop(p, b => InPath(b), PathChar, [], data, n);
    assert [] + path == path;
  }

  lemma QueryOnly(p: Parser, data: string, n: int) returns (query: string, c: char, rest: string)
    requires !Finished(p) && p.state == CheckLine && p.task == InQuery([]) && Accepts(p, data, n)
    ensures data == (query + [c]) + rest && All(query, QueryChar) && (c == ' ' || c == '#')
    ensures Accepts(Emit(p, Query(query), if c == ' ' then InVersion(0) else InFragment("#")), rest, n - |query + [c]|)
  {
    hide Run;
    assert Goto(p, InQuery([])) == p;
    query, c, rest := LeavesLoop(p, b => InQuery(b), QueryChar, [], data, n);
    assert [] + query == query;
  }

  lemma FragmentOnly(p: Parser, data: string, n: int) returns (text: string, rest: string)
    requires !Finished(p) && p.state == CheckLine && p.task == InFragment("#") && Accepts(p, data, n)
    ensures data == (text + " ") + rest && All(text, FragmentChar)
    ensures Accepts(Emit(p, Fragment("#" + text), InVersion(0)), rest, n - |text + " "|)
  {
    hide Run;
    assert Goto(p, InFragment("#")) == p;
    var c;
    text, c, rest := LeavesLoop(p, b => InFragment(b), FragmentChar, "#", data, n);
  }

  /** What follows the path, up to the version. */
  lemma TailOnly(q: Parser, c: char, data: string, n: int) returns (tail: Tail, rest: string)
    requires !Finished(q) && q.state == CheckLine && Accepts(q, data, n)
    requires (c == ' ' && q.task == InVersion(0)) || (c == '?' && q.task == InQuery([]))
    ensures data == TailText(tail) + rest && TailOk(tail) && c == Separator(tail)
    ensures Accepts(q.(task := InVersion(0), events := q.events + TailEvents(tail)), rest, n - |TailText(tail)|)
  {
    hide Accepts, All;
    if c == ' ' {
      tail, rest := NoQuery, data;
      assert q.events + [] == q.events && [] + data == data;
    } else {
      var query, d, more := QueryOnly(q, data, n);
      if d == ' ' {
        tail, rest := WithQuery(query), more;
      } else {
        var r := Emit(q, Query(query), InFragment("#"));
        var text;
        text, rest := FragmentOnly(r, more, n - |query + "#"|);
        tail := WithFragment(query, text);
        assert r.events + [Fragment("#" + text)] == q.events + TailEvents(tail);
        assert (query + "#") + ((text + " ") + rest) == TailText(tail) + rest;
      }
    }
  }

  lemma TargetOnly(p: Parser, data: string, n: int) returns (path: string, tail: Tail, rest: string)
    requires !Finished(p) && p.state == CheckLine && Accepts(Goto(p, InPath([])), data, n)
    ensures data == ((path + [Separator(tail)]) + TailText(tail)) + rest && path != [] && All(path, PathChar) && TailOk(tail)
    ensures
      Accepts(p.(task := InVersion(0), events := p.events + [Path(path)] + TailEvents(tail)), rest,
              n - |(path + [Separator(tail)]) + TailText(tail)|)
  {
    hide Accepts, All, TailText, TailOk;
    var c, more;
    path, c, more := PathOnly(p, data, n);
    var q := Emit(p, Path(path), if c == ' ' then InVersion(0) else InQuery([]));
    tail, rest := TailOnly(q, c, more, n - |path + [c]|);
    assert (path + [c]) + (TailText(tail) + rest) == ((path + [c]) + TailText(tail)) + rest;
  }

  lemma {:induction false} VersionOnly(p: Parser, k: nat, data: string, n: int) returns (minor: char, rest: string)
    requires !Finished(p) && p.state == CheckLine && k < 7 && Accepts(Goto(p, InVersion(k)), data, n)
    ensures data == ("HTTP/1."[k..] + [minor] + "\r\n") + rest && (minor == '0' || minor == '1')
    ensures
      Accepts(Parser(CheckHeader, InKey([]), NoError, false, p.events + [Version("1." + [minor])]), rest,
              n - |"HTTP/1."[k..] + [minor] + "\r\n"|)
    decreases 7 - k
  {
    hide Run;
    var c := "HTTP/1."[k];
    Expect(Goto(p, InVersion(k)), data, n, c);
    var more := data[1..];
    if k < 6 {
      minor, rest := VersionOnly(p, k + 1, more, n - 1);
    } else {
      minor, rest := MinorOnly(p, more, n - 1);
    }
    assert [c] + "HTTP/1."[k + 1..] == "HTTP/1."[k..];
    Reprefix([c], "HTTP/1."[k + 1..], [minor] + "\r\n", rest);
  }

  lemma Reprefix(a: string, b: string, c: string, d: string)
    ensures a + ((b + c) + d) == ((a + b) + c) + d
  {
  }

  lemma MinorOnly(p: Parser, data: string, n: int) returns (minor: char, rest: string)
    requires !Finished(p) && p.state == CheckLine && Accepts(Goto(p, InMinor), data, n)
    ensures data == ([minor] + "\r\n") + rest && (minor == '0' || minor == '1')
    ensures Accepts(Parser(CheckHeader, InKey([]), NoError, false, p.events + [Version("1." + [minor])]), rest, n - 3)
  {
    hide Run;
    FirstByte(Goto(p, InMinor), data, n);
    minor := data[0];
    var q := Emit(p, Version("1." + [minor]), LineCR);
    Expect(q, data[1..], n - 1, '\r');
    Expect(Goto(q, LineLF), data[2..], n - 2, '\n');
    rest := data[3..];
  }

  lemma LineOnly(data: string, n: int) returns (r: Request, rest: string)
    requires Accepts(Begin(FRESH, false), data, n)
    ensures LineOk(r) && data == LineText(r) + rest
    ensures Accepts(Parser(CheckHeader, InKey([]), NoError, false, LineEvents(r)), rest, n - |LineText(r)|)
  {
    hide Accepts, All, KnownMethod, TailText, TailOk;
    var p0 := Begin(FRESH, false);
    var m, afterMethod := MethodOnly(p0, data, n);
    var p1 := Emit(p0, Method(m), InPath([]));
    var path, tail, afterTarget := TargetOnly(p1, afterMethod, n - |m + " "|);
    var target := (path + [Separator(tail)]) + TailText(tail);
    var p2 := p1.(task := InVersion(0), events := p1.events + [Path(path)] + TailEvents(tail));
    var minor;
    minor, rest := VersionOnly(p2, 0, afterTarget, n - |m + " "| - |target|);
    r := Request(m, path, tail, minor, []);
    var version := "HTTP/1." + [minor] + "\r\n";
    Join(m + " ", target, version, rest);
    assert p2.events + [Version("1." + [minor])] == LineEvents(r);
  }

  lemma Join(a: string, b: string, c: string, d: string)
    ensures a + (b + (c + d)) == (a + b + c) + d
    ensures |a + b + c| == |a| + |b| + |c|
  {
  }

  // ----- The header fields -----

  lemma {:induction false} BlanksOnly(p: Parser, key: string, data: string, n: int) returns (blanks: nat, rest: string)
    requires !Finished(p) && p.state == CheckHeader && p.task == SkipSpaces(key) && Accepts(p, data, n)
    ensures data == Blanks(blanks) + rest && |Blanks(blanks)| == blanks && rest != [] && rest[0] != ' '
    ensures Accepts(p, rest, n - blanks)
    decreases |data|
  {
    hide Run;
    FirstByte(p, data, n);
    if data[0] == ' ' {
      blanks, rest := BlanksOnly(p, key, data[1..], n - 1);
      blanks := blanks + 1;
    } else {
      blanks, rest := 0, data;
    }
  }

  /** The text of a field, up to the end of its line. */
  lemma TextOnly(p: Parser, key: string, data: string, n: int) returns (text: string, rest: string)
    requires !Finished(p) && p.state == CheckHeader && p.task == SkipSpaces(key) && Accepts(p, data, n)
    requires data != [] && data[0] != ' '
    ensures data == (text + "\r\n") + rest && All(text, Printable) && (text != [] ==> text[0] != ' ')
    ensures Accepts(Goto(p, NextLine(key, text)), rest, n - |text + "\r\n"|)
  {
    hide Run;
    var more;
    FirstByte(p, data, n);
    if Printable(data[0]) {
      var first := [data[0]];
      assert [] + first == first;
      var tail, c;
      tail, c, more := LeavesLoop(p, b => InValue(key, b), Printable, first, data[1..], n - 1);
      text := first + tail;
      assert (text + [c]) + more == first + ((tail + [c]) + more);
    } else {
      text, more := [], data[1..];
      assert text + "\r" == "\r";
    }
    Expect(Goto(p, HeaderLF(key, text)), more, n - |text| - 1, '\n');
    rest := more[1..];
    assert (text + "\r") + ("\n" + rest) == (text + "\r\n") + rest;
  }

  /** The rest of a field whose key has been read as far as `begun`. */
  lemma FieldOnly(p: Parser, begun: string, data: string, n: int) returns (f: Field, rest: string)
    requires !Finished(p) && p.state == CheckHeader && Accepts(Goto(p, InKey(begun)), data, n)
    ensures TextOk(f) && begun <= f.key && All(f.key[|begun|..], KeyChar) && begun + data == FieldText(f) + rest
    ensures |FieldText(f)| > 0
    ensures Accepts(Goto(p, NextLine(f.key, f.text)), rest, n + |begun| - |FieldText(f)|)
  {
    hide Accepts;
    var more, c, after := LeavesLoop(p, b => InKey(b), KeyChar, begun, data, n);
    var key := begun + more;
    var blanks, behind := BlanksOnly(Goto(p, SkipSpaces(key)), key, after, n - |more + ":"|);
    var text;
    text, rest := TextOnly(Goto(p, SkipSpaces(key)), key, behind, n - |more + ":"| - blanks);
    f := Field(key, blanks, text);
    Compose(begun, more, ":", Blanks(blanks), text + "\r\n", rest);
  }

  lemma Compose(a: string, b: string, c: string, d: string, e: string, f: string)
    ensures a + ((b + c) + (d + (e + f))) == (((a + b) + c) + (d + e)) + f
    ensures |((a + b) + c) + (d + e)| == |a| + |b| + |c| + |d| + |e|
  {
  }

  /** The fields after the first and the empty line. */
  lemma {:induction false} FieldsOnly(p: Parser, before: Field, data: string, n: int) returns (fs: seq<Field>, rest: string)
    requires !Finished(p) && p.state == CheckHeader && p.task == NextLine(before.key, before.text) && Accepts(p, data, n)
    ensures forall i :: 0 <= i < |fs| ==> LaterOk(fs[i])
    ensures data == FieldsText(fs) + ("\r\n" + rest) && n == |FieldsText(fs)| + 2
    decreases |data|
  {
    hide Run, FieldText;
    FirstByte(p, data, n);
    if data[0] == '\r' {
      Expect(Goto(p, FinalLF(before.key, before.text)), data[1..], n - 1, '\n');
      fs, rest := [], data[2..];
    } else {
      var begun := [data[0]];
      var q := EmitHeader(p, before.key, before.text);
      var f, more := FieldOnly(q, begun, data[1..], n - 1);
      var others;
      others, rest := FieldsOnly(Goto(q, NextLine(f.key, f.text)), f, more, n - |FieldText(f)|);
      fs := [f] + others;
      TextRegroup(fs, "\r\n" + rest);
    }
  }

  /** Whatever is accepted is the text of a well-formed request. */
  lemma AcceptedOnly(data: string, n: int) returns (r: Request, rest: string)
    requires Accepts(Begin(FRESH, false), data, n)
    ensures RequestOk(r) && data == RequestText(r) + rest && n == |RequestText(r)|
  {
    hide Accepts, LineOk, LineText, LineEvents, FieldText, FieldsText;
    var line, afterLine := LineOnly(data, n);
    var p := Parser(CheckHeader, InKey([]), NoError, false, LineEvents(line));
    var f, afterFirst := FieldOnly(p, [], afterLine, n - |LineText(line)|);
    var fs;
    fs, rest := FieldsOnly(Goto(p, NextLine(f.key, f.text)), f, afterFirst, n - |LineText(line)| - |FieldText(f)|);
    r := line.(fields := [f] + fs);
    SameLine(line, r);
    assert f.key[0..] == f.key && [] + afterLine == afterLine;
    TextRegroup(r.fields, "\r\n" + rest);
    Rewrap(LineText(r), FieldsText(r.fields), "\r\n", rest);
  }

  lemma SameLine(a: Request, b: Request)
    requires a.(fields := b.fields) == b
    ensures LineOk(a) == LineOk(b) && LineText(a) == LineText(b)
  {
  }

  lemma Rewrap(a: string, b: string, c: string, d: string)
    ensures a + (b + (c + d)) == (a + (b + c)) + d
    ensures |a + (b + c)| == |a| + |b| + |c|
  {
  }

  /** What the parser delivers for a request. */
  function Delivered(r: Request): (Parser, nat) { (Complete(LineEvents(r) + FieldEvents(r.fields)), |RequestText(r)|) }

  /**
   The accepted inputs are exactly those that begin with the text of a well-formed request;
   that text is what is consumed, and its parts are what is delivered.
   */
  lemma AcceptedIff(data: string, n: int)
    ensures
      Accepts(Begin(FRESH, false), data, n)
      <==> exists r :: RequestOk(r) && RequestText(r) <= data && n == |RequestText(r)|
    ensures forall r :: RequestOk(r) && RequestText(r) <= data ==> Run(Begin(FRESH, false), data) == Delivered(r)
  {
    hide RequestOk, RequestText, Run, LineEvents, FieldEvents;
    forall r | RequestOk(r) && RequestText(r) <= data
      ensures Run(Begin(FRESH, false), data) == Delivered(r)
    {
      var rest := data[|RequestText(r)|..];
      assert data == RequestText(r) + rest;
      RequestRead(r, rest);
    }
    if Accepts(Begin(FRESH, false), data, n) {
      var r, rest := AcceptedOnly(data, n);
      assert RequestOk(r) && RequestText(r) <= data && n == |RequestText(r)|;
    }
  }

  /** The methods of RFC 9110 and of RFC 5789 can be used in a request. */
  lemma CommonMethods(m: string)
    requires m in {"GET", "HEAD", "POST", "PUT", "DELETE", "CONNECT", "OPTIONS", "TRACE", "PATCH"}
    ensures KnownMethod(m) && m != [] && All(m, Alpha)
  {
  }

  /** A method that is listed, but can never be parsed because of its hyphen. */
  lemma SearchRefused(rest: string)
    ensures KnownMethod("M-SEARCH")
    ensures Run(Begin(FRESH, false), "M-SEARCH" + rest) == (Fail(Begin(FRESH, false), InvalidMethod), 2)
  {
    hide Run;
    var data := "M-SEARCH" + rest;
    RunOne(Begin(FRESH, false), data);
    var q := Byte(Begin(FRESH, false), 'M');
    assert [] + "M" == "M" && q == Goto(Begin(FRESH, false), InMethod("M"));
    assert data[1..][0] == '-';
    RunOne(q, data[1..]);
  }
}
