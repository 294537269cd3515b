/** Decoding of the chunked transfer coding (section 7.1 of RFC 9112, without extensions and trailers): what is accepted, and only that. */
module HttpChunks {
  import opened Bytes
  import opened HttpParserModule
  import opened HttpLaws
  import opened HttpAccept

  datatype Chunk = Chunk(digits: string, data: string)

  function HexValue(s: string): nat
    requires All(s, HexDigit)
  {
    if s == [] then 0 else HexValue(s[..|s| - 1]) * 16 + Digit(s[|s| - 1])
  }

  /** The size that the 64 bit arithmetic makes of the digits, none included. */
  function Size(s: string): (n: nat)
    requires All(s, HexDigit)
    ensures n < TWO64 && (HexValue(s) < TWO64 ==> n == HexValue(s))
  {
    HexValue(s) % TWO64
  }

  predicate ChunkOk(c: Chunk) {
    All(c.digits, HexDigit) && Size(c.digits) == |c.data| > 0
  }

  /** The size line of the last chunk. */
  predicate ZeroOk(zero: string) { All(zero, HexDigit) && Size(zero) == 0 }

  predicate ChunksOk(cs: seq<Chunk>) { forall i :: 0 <= i < |cs| ==> ChunkOk(cs[i]) }

  function ChunkText(c: Chunk): string { (c.digits + "\r") + "\n" + c.data + "\r" + "\n" }

  function ChunksText(cs: seq<Chunk>): string {
    if cs == [] then [] else ChunkText(cs[0]) + ChunksText(cs[1..])
  }

  /** All chunks and the last chunk, whose size is zero. */
  function BodyText(cs: seq<Chunk>, zero: string): string {
    ChunksText(cs) + ((zero + "\r") + "\n" + "\r" + "\n")
  }

  function Payload(cs: seq<Chunk>): string {
    if cs == [] then [] else cs[0].data + Payload(cs[1..])
  }

  lemma Multiples(y: nat, k: nat)
    ensures (y + TWO64 * k) % TWO64 == y % TWO64
  {
    var a, b := y / TWO64, y % TWO64;
    assert y + TWO64 * k == TWO64 * (a + k) + b;
  }

  /** Wrapping around after every digit is wrapping around once. */
  lemma WrapOnce(x: nat, d: nat)
    ensures (x % TWO64 * 16 + d) % TWO64 == (x * 16 + d) % TWO64
  {
    Multiples(x % TWO64 * 16 + d, x / TWO64 * 16);
  }

  /** The size is read exactly as long as it fits 64 bits. */
  lemma {:induction false} SizeRead(p: Parser, body: string, s: string)
    requires !Finished(p) && p.state == CheckChunk && All(s, HexDigit)
    ensures Goes(Goto(p, InSize(body, 0)), s, Goto(p, InSize(body, Size(s))))
    decreases |s|
  {
    hide Run;
    var start := Goto(p, InSize(body, 0));
    if s == [] {
      RunNone(start);
    } else {
      var n := |s| - 1;
      var before := Goto(p, InSize(body, Size(s[..n])));
      SizeRead(p, body, s[..n]);
      WrapOnce(HexValue(s[..n]), Digit(s[n]));
      Single(before, s[n]);
      Chain(start, s[..n], before, [s[n]], Goto(p, InSize(body, Size(s))));
      assert s[..n] + [s[n]] == s;
    }
  }

  lemma {:induction false} DataRead(p: Parser, body: string, len: nat, data: string)
    requires !Finished(p) && p.state == CheckChunk && |data| <= len
    ensures Goes(Goto(p, InChunk(body, len, 0)), data, Goto(p, InChunk(body + data, len, |data|)))
    decreases |data|
  {
    hide Run;
    var start := Goto(p, InChunk(body, len, 0));
    if data == [] {
      RunNone(start);
      assert body + data == body;
    } else {
      var n := |data| - 1;
      var before := Goto(p, InChunk(body + data[..n], len, n));
      DataRead(p, body, len, data[..n]);
      Single(before, data[n]);
      assert body + data[..n] + [data[n]] == body + data && data[..n] + [data[n]] == data;
      Chain(start, data[..n], before, [data[n]], Goto(p, InChunk(body + data, len, |data|)));
    }
  }

  /** The size line. */
  lemma SizeLineRead(p: Parser, body: string, s: string)
    requires !Finished(p) && p.state == CheckChunk && All(s, HexDigit)
    ensures Goes(Goto(p, InSize(body, 0)), (s + "\r") + "\n", Goto(p, InChunk(body, Size(s), 0)))
  {
    hide Run;
    var start, len := Goto(p, InSize(body, 0)), Size(s);
    SizeRead(p, body, s);
    Single(Goto(p, InSize(body, len)), '\r');
    Single(Goto(p, SizeLF(body, len)), '\n');
    Chain(start, s, Goto(p, InSize(body, len)), "\r", Goto(p, SizeLF(body, len)));
    Chain(start, s + "\r", Goto(p, SizeLF(body, len)), "\n", Goto(p, InChunk(body, len, 0)));
  }

  lemma ChunkRead(p: Parser, body: string, c: Chunk)
    requires !Finished(p) && p.state == CheckChunk && ChunkOk(c)
    ensures Goes(Goto(p, InSize(body, 0)), ChunkText(c), Goto(p, InSize(body + c.data, 0)))
  {
    hide Run;
    var start, len, b := Goto(p, InSize(body, 0)), |c.data|, body + c.data;
    var line := (c.digits + "\r") + "\n";
    SizeLineRead(p, body, c.digits);
    DataRead(p, body, len, c.data);
    Single(Goto(p, InChunk(b, len, len)), '\r');
    Single(Goto(p, ChunkLF(b, len)), '\n');
    Chain(start, line, Goto(p, InChunk(body, len, 0)), c.data, Goto(p, InChunk(b, len, len)));
    Chain(start, line + c.data, Goto(p, InChunk(b, len, len)), "\r", Goto(p, ChunkLF(b, len)));
    Chain(start, line + c.data + "\r", Goto(p, ChunkLF(b, len)), "\n", Goto(p, InSize(b, 0)));
  }

  lemma {:induction false} ChunksRead(p: Parser, body: string, cs: seq<Chunk>)
    requires !Finished(p) && p.state == CheckChunk && ChunksOk(cs)
    ensures Goes(Goto(p, InSize(body, 0)), ChunksText(cs), Goto(p, InSize(body + Payload(cs), 0)))
    decreases |cs|
  {
    hide Run, ChunkText, ChunkOk;
    if cs == [] {
      RunNone(Goto(p, InSize(body, 0)));
      assert body + Payload(cs) == body;
    } else {
      var b := body + cs[0].data;
      ChunkRead(p, body, cs[0]);
      ChunksRead(p, b, cs[1..]);
      Chain(Goto(p, InSize(body, 0)), ChunkText(cs[0]), Goto(p, InSize(b, 0)), ChunksText(cs[1..]), Goto(p, InSize(b + Payload(cs[1..]), 0)));
      assert b + Payload(cs[1..]) == body + Payload(cs);
    }
  }

  /** The last chunk and the final empty line. */
  lemma LastRead(p: Parser, body: string, zero: string, rest: string)
    requires !Finished(p) && p.state == CheckChunk && ZeroOk(zero)
    ensures
      Run(Goto(p, InSize(body, 0)), ((zero + "\r") + "\n" + "\r") + ("\n" + rest))
      == (Emit(p, Body(body), Returned).(finish := true), |(zero + "\r") + "\n" + "\r"| + 1)
  {
    hide Run;
    var start, q := Goto(p, InSize(body, 0)), Goto(p, ChunkLF(body, 0));
    var line := (zero + "\r") + "\n";
    SizeLineRead(p, body, zero);
    Single(Goto(p, InChunk(body, 0, 0)), '\r');
    Chain(start, line, Goto(p, InChunk(body, 0, 0)), "\r", q);
    RunAfter(start, line + "\r", q, "\n" + rest);
    RunOne(q, "\n" + rest);
  }

  /**
   For every list of chunks that are not empty, however their sizes are written, the decoder
   delivers their concatenation and stops on the final byte whatever follows.
   */
  lemma ChunksDecoded(p: Parser, cs: seq<Chunk>, zero: string, rest: string)
    requires p.error == NoError && p.state != CheckChunk && ChunksOk(cs) && ZeroOk(zero)
    ensures
      var (q, n) := Run(Begin(p, true), BodyText(cs, zero) + rest);
      && q.error == NoError && q.finish && q.events == p.events + [Body(Payload(cs))]
      && n == |BodyText(cs, zero)|
  {
    hide Run, ChunksText, ChunksOk;
    var start := Begin(p, true);
    var q := Goto(start, InSize([] + Payload(cs), 0));
    var last := (zero + "\r") + "\n" + "\r";
    ChunksRead(start, [], cs);
    assert [] + Payload(cs) == Payload(cs) && Goto(start, InSize([], 0)) == start;
    RunAfter(start, ChunksText(cs), q, last + ("\n" + rest));
    LastRead(start, Payload(cs), zero, rest);
    Rejoin(ChunksText(cs), last, "\n", rest);
  }

  lemma Rejoin(a: string, b: string, c: string, d: string)
    ensures (a + (b + c)) + d == a + (b + (c + d))
  {
  }

  // ----- The converse -----

  lemma SizeAnd(s: string, c: char)
    requires All(s, HexDigit) && HexDigit(c)
    ensures All(s + [c], HexDigit) && Size(s + [c]) == (Size(s) * 16 + Digit(c)) % TWO64
  {
    assert (s + [c])[..|s|] == s;
    WrapOnce(HexValue(s), Digit(c));
  }

  /** The digits still to come, and the end of the size line. */
  lemma {:induction false} SizeOnly(p: Parser, body: string, begun: string, data: string, n: int) returns (digits: string, rest: string)
    requires !Finished(p) && p.state == CheckChunk && All(begun, HexDigit) && Accepts(Goto(p, InSize(body, Size(begun))), data, n)
    ensures All(digits, HexDigit) && begun <= digits && begun + data == ((digits + "\r") + "\n") + rest
    ensures Accepts(Goto(p, InChunk(body, Size(digits), 0)), rest, n + |begun| - |digits| - 2)
    decreases |data|
  {
    hide Run, Size;
    FirstByte(Goto(p, InSize(body, Size(begun))), data, n);
    if HexDigit(data[0]) {
      SizeAnd(begun, data[0]);
      digits, rest := SizeOnly(p, body, begun + [data[0]], data[1..], n - 1);
    } else {
      digits := begun;
      Expect(Goto(p, SizeLF(body, Size(digits))), data[1..], n - 1, '\n');
      rest := data[2..];
    }
  }

  lemma {:induction false} DataOnly(p: Parser, body: string, len: nat, i: nat, data: string, n: int) returns (text: string, rest: string)
    requires !Finished(p) && p.state == CheckChunk && i <= len && Accepts(Goto(p, InChunk(body, len, i)), data, n)
    ensures data == text + rest && |text| == len - i && Accepts(Goto(p, InChunk(body + text, len, len)), rest, n - |text|)
    decreases |data|
  {
    hide Run;
    if i == len {
      text, rest := [], data;
      assert body + text == body;
    } else {
      FirstByte(Goto(p, InChunk(body, len, i)), data, n);
      text, rest := DataOnly(p, body + [data[0]], len, i + 1, data[1..], n - 1);
      text := [data[0]] + text;
      assert body + [data[0]] + text[1..] == body + text;
    }
  }

  /** One chunk, which is the last when it is empty. */
  lemma ChunkOnly(p: Parser, body: string, data: string, n: int) returns (c: Chunk, rest: string)
    requires !Finished(p) && p.state == CheckChunk && Accepts(Goto(p, InSize(body, 0)), data, n)
    ensures All(c.digits, HexDigit) && Size(c.digits) == |c.data| && data == ChunkText(c) + rest
    ensures if c.data == [] then n == |ChunkText(c)| else Accepts(Goto(p, InSize(body + c.data, 0)), rest, n - |ChunkText(c)|)
  {
    hide Run, Size;
    SizeOfNone();
    var digits, afterSize := SizeOnly(p, body, [], data, n);
    var len, k := Size(digits), n - |digits| - 2;
    var text, afterData := DataOnly(p, body, len, 0, afterSize, k);
    var b := body + text;
    Expect(Goto(p, InChunk(b, len, len)), afterData, k - len, '\r');
    Expect(Goto(p, ChunkLF(b, len)), afterData[1..], k - len - 1, '\n');
    c, rest := Chunk(digits, text), afterData[2..];
    assert afterData == "\r" + ("\n" + rest);
    Reassemble((digits + "\r") + "\n", text, "\r", "\n", rest);
  }

  lemma SizeOfNone()
    ensures Size([]) == 0
  {
  }

  lemma Reassemble(a: string, b: string, c: string, d: string, e: string)
    ensures a + (b + (c + (d + e))) == (a + b + c + d) + e
    ensures |a + b + c + d| == |a| + |b| + |c| + |d|
  {
  }

  lemma {:induction false} ChunksOnly(p: Parser, body: string, data: string, n: int) returns (cs: seq<Chunk>, zero: string, rest: string)
    requires !Finished(p) && p.state == CheckChunk && Accepts(Goto(p, InSize(body, 0)), data, n)
    ensures ChunksOk(cs) && ZeroOk(zero) && data == BodyText(cs, zero) + rest && n == |BodyText(cs, zero)|
    decreases |data|
  {
    hide Run, Size, Accepts;
    var c, more := ChunkOnly(p, body, data, n);
    if c.data == [] {
      cs, zero, rest := [], c.digits, more;
      assert ChunkText(c) == BodyText([], zero);
    } else {
      var others;
      others, zero, rest := ChunksOnly(p, body + c.data, more, n - |ChunkText(c)|);
      cs := [c] + others;
      BodyCons(c, others, zero, rest);
    }
  }

  lemma BodyCons(c: Chunk, cs: seq<Chunk>, zero: string, rest: string)
    ensures BodyText([c] + cs, zero) + rest == ChunkText(c) + (BodyText(cs, zero) + rest)
    ensures |BodyText([c] + cs, zero)| == |ChunkText(c)| + |BodyText(cs, zero)|
  {
    hide ChunkText;
    assert ([c] + cs)[1..] == cs;
    var last := (zero + "\r") + "\n" + "\r" + "\n";
    assert (ChunkText(c) + ChunksText(cs)) + last == ChunkText(c) + (ChunksText(cs) + last);
  }

  /** The accepted bodies are exactly the lists of chunks that are not empty with a last one that is. */
  lemma ChunksAcceptedIff(p: Parser, data: string, n: int)
    requires p.error == NoError && p.state != CheckChunk
    ensures
      Accepts(Begin(p, true), data, n)
      <==> exists cs, zero :: ChunksOk(cs) && ZeroOk(zero) && BodyText(cs, zero) <= data && n == |BodyText(cs, zero)|
  {
    hide Run, ChunksOk, ZeroOk, BodyText;
    var start := Begin(p, true);
    if Accepts(start, data, n) {
      assert Goto(start, InSize([], 0)) == start;
      var cs, zero, rest := ChunksOnly(start, [], data, n);
      assert ChunksOk(cs) && ZeroOk(zero) && BodyText(cs, zero) <= data && n == |BodyText(cs, zero)|;
    }
    forall cs, zero | ChunksOk(cs) && ZeroOk(zero) && BodyText(cs, zero) <= data && n == |BodyText(cs, zero)|
      ensures Accepts(start, data, n)
    {
      var rest := data[n..];
      assert data == BodyText(cs, zero) + rest;
      ChunksDecoded(p, cs, zero, rest);
    }
  }
}
