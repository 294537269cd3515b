/** What the HTTP parser promises: independence of fragmentation, and the messages it accepts. */
module HttpLaws {
  import opened HttpParserModule

  // ----- Fragmentation -----

  lemma {:induction false} RunSplit(p: Parser, a: string, b: string)
    requires !Finished(p)
    ensures Run(p, a + b) == if Finished(Run(p, a).0) then Run(p, a) else Later(Run(Run(p, a).0, b), |a|)
    ensures !Finished(Run(p, a).0) ==> Run(p, a).1 == |a|
    decreases |a|
  {
    hide Byte;
    if a == [] {
      assert a + b == b;
    } else {
      assert (a + b)[1..] == a[1..] + b;
      if !Finished(Byte(p, a[0])) {
        RunSplit(Byte(p, a[0]), a[1..], b);
      }
    }
  }

  /** Once a call has started, the next call goes on where it stopped. */
  predicate Started(p: Parser, chunk: bool) {
    Begin(p, chunk) == p
  }

  lemma {:induction false} StaysStarted(p: Parser, data: string, chunk: bool)
    requires Started(p, chunk) && !Finished(Run(p, data).0)
    ensures Started(Run(p, data).0, chunk)
    decreases |data|
  {
    hide Resume;
    if data != [] {
      StateAfter(p, data[0]);
      StaysStarted(Byte(p, data[0]), data[1..], chunk);
    }
  }

  /** However the input is cut, successive calls give the message, error and count of a single call. */
  lemma {:induction false} FragmentsDoNotMatter(p: Parser, frags: seq<string>, chunk: bool)
    requires !Finished(Begin(p, chunk)) && frags != []
    ensures Feed(p, frags, chunk) == Run(Begin(p, chunk), Concat(frags))
    decreases |frags|
  {
    hide Run;
    var start := Begin(p, chunk);
    var q := Run(start, frags[0]).0;
    RunSplit(start, frags[0], Concat(frags[1..]));
    if |frags| == 1 {
      assert Concat(frags) == frags[0];
    } else if !Finished(q) {
      StaysStarted(start, frags[0], chunk);
      FragmentsDoNotMatter(q, frags[1..], chunk);
    }
  }

  // ----- Stretches of input -----

  /** The parser consumes all of s, ends up at q, and wants more. */
  predicate Goes(p: Parser, s: string, q: Parser) {
    Run(p, s) == (q, |s|) && !Finished(q)
  }

  lemma Chain(p: Parser, a: string, q: Parser, b: string, r: Parser)
    requires !Finished(p) && Goes(p, a, q) && Goes(q, b, r)
    ensures Goes(p, a + b, r)
  {
    RunSplit(p, a, b);
  }

  lemma Single(p: Parser, c: char)
    requires !Finished(Byte(p, c))
    ensures Goes(p, [c], Byte(p, c))
  {
    hide Byte;
    assert Run(Byte(p, c), [c][1..]) == (Byte(p, c), 0);
  }

  /** All characters of a text. */
  predicate All(s: string, ok: char -> bool) {
    forall i :: 0 <= i < |s| ==> ok(s[i])
  }

  /** A reading loop of a coroutine: `mk(buff)` with an accepted byte goes on as `mk(buff + [c])`. */
  lemma {:induction false} Loop(p: Parser, mk: string -> Task, ok: char -> bool, buff: string, text: string)
    requires !Finished(p) && All(text, ok)
    requires forall b: string, c: char :: ok(c) ==> Byte(Goto(p, mk(b)), c) == Goto(p, mk(b + [c]))
    ensures Goes(Goto(p, mk(buff)), text, Goto(p, mk(buff + text)))
    decreases |text|
  {
    hide Byte;
    if text == [] {
      assert buff + text == buff;
    } else {
      var c, rest := text[0], text[1..];
      var q := Goto(p, mk(buff + [c]));
      Single(Goto(p, mk(buff)), c);
      Loop(p, mk, ok, buff + [c], rest);
      Chain(Goto(p, mk(buff)), [c], q, rest, Goto(p, mk(buff + [c] + rest)));
      assert buff + [c] + rest == buff + text && [c] + rest == text;
    }
  }

  // ----- Requests -----

  datatype Tail = NoQuery | WithQuery(query: string) | WithFragment(query: string, fragment: string)

  /** A field line, with any number of blanks behind the colon. */
  datatype Field = Field(key: string, blanks: nat, text: string)

  datatype Request = Request(method_: string, path: string, tail: Tail, minor: char, fields: seq<Field>)

  predicate PathChar(c: char) { Printable(c) && c != ' ' && c != '?' }
  predicate QueryChar(c: char) { Printable(c) && c != ' ' && c != '#' }
  predicate FragmentChar(c: char) { Printable(c) && c != ' ' }
  predicate KeyChar(c: char) { Printable(c) && c != ':' }

  predicate TailOk(t: Tail) {
    match t
    case NoQuery => true
    case WithQuery(q) => All(q, QueryChar)
    case WithFragment(q, f) => All(q, QueryChar) && All(f, FragmentChar)
  }

  predicate TextOk(f: Field) {
    All(f.text, Printable) && (f.text != [] ==> f.text[0] != ' ')
  }

  /** The first field, whose key may be empty and is then not delivered. */
  predicate FirstOk(f: Field) {
    All(f.key, KeyChar) && TextOk(f)
  }

  /** A later field, the first byte of whose key may be anything but the end of a line. */
  predicate LaterOk(f: Field) {
    f.key != [] && f.key[0] != '\r' && All(f.key[1..], KeyChar) && TextOk(f)
  }

  predicate FieldsOk(fs: seq<Field>) {
    fs != [] && FirstOk(fs[0]) && forall i :: 1 <= i < |fs| ==> LaterOk(fs[i])
  }

  predicate LineOk(r: Request) {
    && KnownMethod(r.method_) && r.method_ != [] && All(r.method_, Alpha)
    && r.path != [] && All(r.path, PathChar) && TailOk(r.tail)
    && (r.minor == '0' || r.minor == '1')
  }

  predicate RequestOk(r: Request) {
    LineOk(r) && FieldsOk(r.fields)
  }

  /** The byte that ends the path, and what follows it up to the version. */
  function Separator(t: Tail): char { if t.NoQuery? then ' ' else '?' }

  function TailText(t: Tail): string {
    match t
    case NoQuery => []
    case WithQuery(q) => q + " "
    case WithFragment(q, f) => (q + "#") + (f + " ")
  }

  function TailEvents(t: Tail): seq<Event> {
    match t
    case NoQuery => []
    case WithQuery(q) => [Query(q)]
    case WithFragment(q, f) => [Query(q), Fragment("#" + f)]
  }

  function LineText(r: Request): string {
    (r.method_ + " ") + ((r.path + [Separator(r.tail)]) + TailText(r.tail)) + ("HTTP/1." + [r.minor] + "\r\n")
  }

  function LineEvents(r: Request): seq<Event> {
    [Method(r.method_), Path(r.path)] + TailEvents(r.tail) + [Version("1." + [r.minor])]
  }

  /** A reading loop followed by the byte that ends it. */
  lemma LoopThen(p: Parser, mk: string -> Task, ok: char -> bool, buff: string, text: string, c: char, q: Parser)
    requires !Finished(p) && All(text, ok)
    requires forall b: string, c: char :: ok(c) ==> Byte(Goto(p, mk(b)), c) == Goto(p, mk(b + [c]))
    requires Byte(Goto(p, mk(buff + text)), c) == q && !Finished(q)
    ensures Goes(Goto(p, mk(buff)), text + [c], q)
  {
    hide Byte;
    var middle := Goto(p, mk(buff + text));
    Loop(p, mk, ok, buff, text);
    Single(middle, c);
    Chain(Goto(p, mk(buff)), text, middle, [c], q);
  }

  lemma MethodRead(p: Parser, m: string)
    requires !Finished(p) && p.state == CheckLine && KnownMethod(m) && m != [] && All(m, Alpha)
    ensures Goes(Goto(p, InMethod([])), m + " ", Emit(p, Method(m), InPath([])))
  {
    hide KnownMethod, Run;
    assert [] + m == m;
    LoopThen(p, b => InMethod(b), Alpha, [], m, ' ', Emit(p, Method(m), InPath([])));
  }

  lemma PathRead(p: Parser, path: string, c: char, next: Task)
    requires !Finished(p) && p.state == CheckLine && path != [] && All(path, PathChar)
    requires (c == ' ' && next == InVersion(0)) || (c == '?' && next == InQuery([]))
    ensures Goes(Goto(p, InPath([])), path + [c], Emit(p, Path(path), next))
  {
    hide Run;
    assert [] + path == path;
    LoopThen(p, b => InPath(b), PathChar, [], path, c, Emit(p, Path(path), next));
  }

  lemma QueryRead(p: Parser, query: string, c: char, next: Task)
    requires !Finished(p) && p.state == CheckLine && All(query, QueryChar) && p.task == InQuery([])
    requires (c == ' ' && next == InVersion(0)) || (c == '#' && next == InFragment("#"))
    ensures Goes(p, query + [c], Emit(p, Query(query), next))
  {
    hide Run;
    assert [] + query == query && Goto(p, InQuery([])) == p;
    LoopThen(p, b => InQuery(b), QueryChar, [], query, c, Emit(p, Query(query), next));
  }

  lemma FragmentRead(p: Parser, text: string)
    requires !Finished(p) && p.state == CheckLine && All(text, FragmentChar) && p.task == InFragment("#")
    ensures Goes(p, text + " ", Emit(p, Fragment("#" + text), InVersion(0)))
  {
    hide Run;
    assert Goto(p, InFragment("#")) == p;
    LoopThen(p, b => InFragment(b), FragmentChar, "#", text, ' ', Emit(p, Fragment("#" + text), InVersion(0)));
  }

  /** The request target with its query and fragment. */
  lemma TargetRead(p: Parser, path: string, tail: Tail)
    requires !Finished(p) && p.state == CheckLine && path != [] && All(path, PathChar) && TailOk(tail)
    ensures Goes(Goto(p, InPath([])), path + [Separator(tail)] + TailText(tail),
                 p.(task := InVersion(0), events := p.events + [Path(path)] + TailEvents(tail)))
  {
    hide Goes, All;
    var next := if tail.NoQuery? then InVersion(0) else InQuery([]);
    var q := Emit(p, Path(path), next);
    PathRead(p, path, Separator(tail), next);
    TailRead(q, tail);
    Chain(Goto(p, InPath([])), path + [Separator(tail)], q, TailText(tail), q.(task := InVersion(0), events := q.events + TailEvents(tail)));
  }

  lemma TailRead(q: Parser, tail: Tail)
    requires !Finished(q) && q.state == CheckLine && TailOk(tail) && q.task == if tail.NoQuery? then InVersion(0) else InQuery([])
    ensures Goes(q, TailText(tail), q.(task := InVersion(0), events := q.events + TailEvents(tail)))
  {
    hide Run, All;
    match tail
    case NoQuery =>
      RunNone(q);
      assert q.events + [] == q.events;
    case WithQuery(query) =>
      QueryRead(q, query, ' ', InVersion(0));
    case WithFragment(query, fragment) =>
      var r := Emit(q, Query(query), InFragment("#"));
      QueryRead(q, query, '#', InFragment("#"));
      FragmentRead(r, fragment);
      Chain(q, query + "#", r, fragment + " ", Emit(r, Fragment("#" + fragment), InVersion(0)));
      assert r.events + [Fragment("#" + fragment)] == q.events + TailEvents(tail);
  }

  /** From the version to the end of the request line. */
  lemma {:induction false} VersionRead(p: Parser, k: nat, minor: char)
    requires !Finished(p) && p.state == CheckLine && k < 7 && (minor == '0' || minor == '1')
    ensures
      Goes(Goto(p, InVersion(k)), "HTTP/1."[k..] + [minor] + "\r\n",
           Parser(CheckHeader, InKey([]), NoError, false, p.events + [Version("1." + [minor])]))
    decreases 7 - k
  {
    hide Run;
    var start := Goto(p, InVersion(k));
    var end := Parser(CheckHeader, InKey([]), NoError, false, p.events + [Version("1." + [minor])]);
    var c := "HTTP/1."[k];
    var rest := "HTTP/1."[k + 1..] + [minor] + "\r\n";
    Single(start, c);
    if k < 6 {
      VersionRead(p, k + 1, minor);
      Chain(start, [c], Goto(p, InVersion(k + 1)), rest, end);
    } else {
      MinorRead(p, minor);
      assert rest == [minor] + "\r\n";
      Chain(start, [c], Goto(p, InMinor), rest, end);
    }
    assert [c] + rest == "HTTP/1."[k..] + [minor] + "\r\n";
  }

  lemma MinorRead(p: Parser, minor: char)
    requires !Finished(p) && p.state == CheckLine && (minor == '0' || minor == '1')
    ensures
      Goes(Goto(p, InMinor), [minor] + "\r\n",
           Parser(CheckHeader, InKey([]), NoError, false, p.events + [Version("1." + [minor])]))
  {
    hide Run;
    var q := Emit(p, Version("1." + [minor]), LineCR);
    Single(Goto(p, InMinor), minor);
    Single(q, '\r');
    Single(Goto(q, LineLF), '\n');
    Chain(Goto(p, InMinor), [minor], q, "\r", Goto(q, LineLF));
    Chain(Goto(p, InMinor), [minor] + "\r", Goto(q, LineLF), "\n", Byte(Goto(q, LineLF), '\n'));
    assert [minor] + "\r" + "\n" == [minor] + "\r\n";
  }

  /** The whole request line. */
  lemma LineRead(r: Request)
    requires LineOk(r)
    ensures Goes(Begin(FRESH, false), LineText(r), Parser(CheckHeader, InKey([]), NoError, false, LineEvents(r)))
  {
    hide Goes, All, KnownMethod, TailText;
    var p0 := Begin(FRESH, false);
    var p1 := Emit(p0, Method(r.method_), InPath([]));
    var p2 := p1.(task := InVersion(0), events := p1.events + [Path(r.path)] + TailEvents(r.tail));
    var p3 := Parser(CheckHeader, InKey([]), NoError, false, p2.events + [Version("1." + [r.minor])]);
    MethodRead(p0, r.method_);
    TargetRead(p1, r.path, r.tail);
    VersionRead(p2, 0, r.minor);
    var target := r.path + [Separator(r.tail)] + TailText(r.tail);
    Chain(p0, r.method_ + " ", p1, target, p2);
    Chain(p0, r.method_ + " " + target, p2, "HTTP/1." + [r.minor] + "\r\n", p3);
    assert p3.events == LineEvents(r);
  }

  function Blanks(n: nat): string { if n == 0 then [] else " " + Blanks(n - 1) }

  function FieldText(f: Field): string { (f.key + ":") + (Blanks(f.blanks) + (f.text + "\r\n")) }

  function FieldsText(fs: seq<Field>): string {
    if fs == [] then [] else FieldText(fs[0]) + FieldsText(fs[1..])
  }

  function FieldEvent(f: Field): seq<Event> {
    if f.key == [] then [] else [Header(f.key, f.text)]
  }

  function FieldEvents(fs: seq<Field>): seq<Event> {
    if fs == [] then [] else FieldEvent(fs[0]) + FieldEvents(fs[1..])
  }

  function RequestText(r: Request): string { LineText(r) + (FieldsText(r.fields) + "\r\n") }

  /** A value that is not empty. */
  lemma TextRead(p: Parser, f: Field)
    requires !Finished(p) && p.state == CheckHeader && p.task == SkipSpaces(f.key) && TextOk(f) && f.text != []
    ensures Goes(p, f.text + "\r", Goto(p, HeaderLF(f.key, f.text)))
  {
    hide Run;
    var last := Goto(p, HeaderLF(f.key, f.text));
    var first, rest := [f.text[0]], f.text[1..];
    var q := Goto(p, InValue(f.key, first));
    assert [] + first == first && first + rest == f.text;
    Single(p, f.text[0]);
    LoopThen(p, b => InValue(f.key, b), Printable, first, rest, '\r', last);
    Chain(p, first, q, rest + "\r", last);
    assert first + (rest + "\r") == f.text + "\r";
  }

  lemma {:induction false} BlanksRead(p: Parser, key: string, n: nat)
    requires !Finished(p) && p.state == CheckHeader && p.task == SkipSpaces(key)
    ensures Goes(p, Blanks(n), p)
  {
    hide Run;
    if n == 0 {
      RunNone(p);
    } else {
      Single(p, ' ');
      BlanksRead(p, key, n - 1);
      Chain(p, " ", p, Blanks(n - 1), p);
    }
  }

  /** The value of a field, from the colon to the start of the next line. */
  lemma ValueRead(p: Parser, f: Field)
    requires !Finished(p) && p.state == CheckHeader && p.task == SkipSpaces(f.key) && TextOk(f)
    ensures Goes(p, Blanks(f.blanks) + (f.text + "\r\n"), Goto(p, NextLine(f.key, f.text)))
  {
    hide Run;
    var last := Goto(p, HeaderLF(f.key, f.text));
    BlanksRead(p, f.key, f.blanks);
    Single(last, '\n');
    if f.text == [] {
      Single(p, '\r');
      assert f.text + "\r" == "\r";
    } else {
      TextRead(p, f);
    }
    Chain(p, f.text + "\r", last, "\n", Goto(p, NextLine(f.key, f.text)));
    assert f.text + "\r" + "\n" == f.text + "\r\n";
    Chain(p, Blanks(f.blanks), p, f.text + "\r\n", Goto(p, NextLine(f.key, f.text)));
  }

  /** The rest of a field whose key has been read as far as `begun`. */
  lemma FieldRead(p: Parser, f: Field, k: nat)
    requires !Finished(p) && p.state == CheckHeader && TextOk(f) && k <= |f.key| && All(f.key[k..], KeyChar)
    ensures Goes(Goto(p, InKey(f.key[..k])), FieldText(f)[k..], Goto(p, NextLine(f.key, f.text)))
  {
    hide Run;
    var q := Goto(p, SkipSpaces(f.key));
    assert f.key[..k] + f.key[k..] == f.key;
    LoopThen(p, b => InKey(b), KeyChar, f.key[..k], f.key[k..], ':', q);
    ValueRead(q, f);
    var rest := Blanks(f.blanks) + (f.text + "\r\n");
    Chain(Goto(p, InKey(f.key[..k])), f.key[k..] + ":", q, rest, Goto(p, NextLine(f.key, f.text)));
    DropPrefix(f.key, ":", rest, k);
  }

  lemma DropPrefix(key: string, colon: string, rest: string, k: nat)
    requires k <= |key|
    ensures key[k..] + colon + rest == ((key + colon) + rest)[k..]
  {
  }

  /** The field before has been delivered. */
  function Deliver(p: Parser, f: Field, t: Task): Parser { p.(task := t, events := p.events + FieldEvent(f)) }

  /** A field after another one: its first byte delivers the field before. */
  lemma NextFieldRead(p: Parser, before: Field, f: Field)
    requires !Finished(p) && p.state == CheckHeader && LaterOk(f)
    ensures Goes(Goto(p, NextLine(before.key, before.text)), FieldText(f), Deliver(p, before, NextLine(f.key, f.text)))
  {
    hide Run;
    var start := Goto(p, NextLine(before.key, before.text));
    var q := Deliver(p, before, InKey(f.key[..1]));
    assert p.events + [] == p.events;
    assert f.key[..1] == [f.key[0]] && Goto(q, InKey(f.key[..1])) == q;
    Single(start, f.key[0]);
    FieldRead(q, f, 1);
    Chain(start, [f.key[0]], q, FieldText(f)[1..], Goto(q, NextLine(f.key, f.text)));
    assert [f.key[0]] + FieldText(f)[1..] == FieldText(f);
  }

  lemma RunAfter(p: Parser, a: string, q: Parser, b: string)
    requires !Finished(p) && Goes(p, a, q)
    ensures Run(p, a + b) == Later(Run(q, b), |a|)
  {
    RunSplit(p, a, b);
  }

  lemma Regroup(a: string, b: string, c: string, d: string, e: string)
    ensures (a + ((b + c) + d)) + e == (a + b) + (c + (d + e))
  {
  }

  function Complete(events: seq<Event>): Parser { Parser(NoCheck, Returned, NoError, true, events) }

  /** The empty line that ends the headers. */
  lemma EndRead(p: Parser, f: Field, rest: string)
    requires p.error == NoError && !p.finish && p.state == CheckHeader && p.task == NextLine(f.key, f.text)
    ensures Run(p, "\r\n" + rest) == (Complete(p.events + FieldEvent(f)), 2)
  {
    hide Run;
    RunOne(p, "\r\n" + rest);
    assert ("\r\n" + rest)[1..] == "\n" + rest;
    RunOne(Goto(p, FinalLF(f.key, f.text)), "\n" + rest);
    assert p.events + [] == p.events;
  }

  lemma TextRegroup(fs: seq<Field>, rest: string)
    requires fs != []
    ensures FieldsText(fs) + rest == FieldText(fs[0]) + (FieldsText(fs[1..]) + rest)
    ensures |FieldsText(fs)| == |FieldText(fs[0])| + |FieldsText(fs[1..])|
  {
    hide FieldText;
  }

  lemma EventsRegroup(a: seq<Event>, b: seq<Event>, c: seq<Event>)
    ensures (a + b) + c == a + (b + c)
  {
  }

  lemma {:induction false} FieldsRead(p: Parser, before: Field, fs: seq<Field>, rest: string)
    requires p.error == NoError && !p.finish && p.state == CheckHeader && p.task == NextLine(before.key, before.text)
    requires forall i :: 0 <= i < |fs| ==> LaterOk(fs[i])
    ensures
      Run(p, FieldsText(fs) + ("\r\n" + rest))
      == (Complete(p.events + (FieldEvent(before) + FieldEvents(fs))), |FieldsText(fs)| + 2)
    decreases |fs|, 1
  {
    hide Run, Goes, LaterOk, FieldText, FieldEvent;
    if fs == [] {
      EndRead(p, before, rest);
      assert FieldsText(fs) + ("\r\n" + rest) == "\r\n" + rest;
      assert FieldEvent(before) + FieldEvents(fs) == FieldEvent(before);
    } else {
      FieldsReadStep(p, before, fs, rest);
    }
  }

  lemma {:induction false} FieldsReadStep(p: Parser, before: Field, fs: seq<Field>, rest: string)
    requires p.error == NoError && !p.finish && p.state == CheckHeader && p.task == NextLine(before.key, before.text)
    requires fs != [] && forall i :: 0 <= i < |fs| ==> LaterOk(fs[i])
    ensures
      Run(p, FieldsText(fs) + ("\r\n" + rest))
      == (Complete(p.events + (FieldEvent(before) + FieldEvents(fs))), |FieldsText(fs)| + 2)
    decreases |fs|, 0
  {
    hide Run, Goes, LaterOk, FieldText, FieldsText, FieldEvent;
    var q, end := Deliver(p, before, NextLine(fs[0].key, fs[0].text)), "\r\n" + rest;
    assert LaterOk(fs[0]);
    NextFieldRead(p, before, fs[0]);
    RunAfter(p, FieldText(fs[0]), q, FieldsText(fs[1..]) + end);
    FieldsRead(q, fs[0], fs[1..], rest);
    TextRegroup(fs, end);
    EventsRegroup(p.events, FieldEvent(before), FieldEvents(fs));
  }

  /**
   Every well-formed request, with at least one field, is parsed into exactly its parts, in
   order, and the parser stops on its last byte whatever follows.
   */
  lemma RequestRead(r: Request, rest: string)
    requires RequestOk(r)
    ensures Run(Begin(FRESH, false), RequestText(r) + rest) == (Complete(LineEvents(r) + FieldEvents(r.fields)), |RequestText(r)|)
  {
    hide Run, Goes, LaterOk, FieldText, LineText, LineEvents, FieldEvent;
    var p0, p1 := Begin(FRESH, false), Parser(CheckHeader, InKey([]), NoError, false, LineEvents(r));
    var f, fs := r.fields[0], r.fields[1..];
    var p2 := Goto(p1, NextLine(f.key, f.text));
    LineRead(r);
    assert f.key[0..] == f.key && f.key[..0] == [] && FieldText(f)[0..] == FieldText(f);
    FieldRead(p1, f, 0);
    Chain(p0, LineText(r), p1, FieldText(f), p2);
    var after := FieldsText(fs) + ("\r\n" + rest);
    RunAfter(p0, LineText(r) + FieldText(f), p2, after);
    FieldsRead(p2, f, fs, rest);
    Regroup(LineText(r), FieldText(f), FieldsText(fs), "\r\n", rest);
  }

  /** Without any field the request is refused. */
  lemma NoFieldsRefused(r: Request, rest: string)
    requires LineOk(r)
    ensures Run(Begin(FRESH, false), LineText(r) + ("\r\n" + rest)).0.error == InvalidHeader
  {
    hide Run, Goes, LineText;
    var p1 := Parser(CheckHeader, InKey([]), NoError, false, LineEvents(r));
    LineRead(r);
    RunAfter(Begin(FRESH, false), LineText(r), p1, "\r\n" + rest);
    RunOne(p1, "\r\n" + rest);
  }
}
