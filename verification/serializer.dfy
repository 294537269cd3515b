/**
 The byte-array codec and the serializer as they run: through the cursor of a chunked buffer.
 Every writer overwrites the flat buffer with the encoding of `Codec`, and every reader
 returns what the decoder of `Codec` finds in the unread bytes.
 */
module Serializer {
  import opened Bytes
  import opened RaftTypes
  import opened Options
  import opened Codec
  import opened ByteArrayModule
  import opened Recovery

  /** `writeUint32` and `writeUint64`: the varint fits a fixed buffer of 5 or 10 bytes. */
  method WriteUint(ba: ByteArray, v: nat, slots: nat)
    requires ba.Valid() && slots > 0 && v < Pow128(slots)
    modifies ba, ba.Repr
    ensures ba.Valid() && fresh(ba.Repr - old(ba.Repr))
    ensures ba.Data() == Overwrite(old(ba.Data()), old(ba.position), EncVarint(v))
    ensures ba.position == old(ba.position) + |EncVarint(v)|
  {
    var tmp := Groups(v, slots);
    ba.Write(tmp);
  }

  method Groups(v: nat, slots: nat) returns (bytes: seq<Byte>)
    requires slots > 0 && v < Pow128(slots)
    ensures bytes == EncVarint(v) && |bytes| <= slots
  {
    hide EncVarint, Pow128;
    var tmp := new Byte[slots];
    var i: nat, value: nat := 0, v;
    while value >= 0x80
      invariant i < slots && value < Pow128(slots - i)
      invariant tmp[..i] + EncVarint(value) == EncVarint(v)
    {
      VarintStep(value, slots - i);
      ghost var done := tmp[..i];
      tmp[i] := value % 0x80 + 0x80;
      assert tmp[..i + 1] == done + [tmp[i]];
      i := i + 1;
      value := value / 0x80;
    }
    VarintLast(value);
    ghost var done := tmp[..i];
    tmp[i] := value;
    assert tmp[..i + 1] == done + [tmp[i]];
    i := i + 1;
    bytes := tmp[..i];
  }

  /** `writeInt32`. */
  method WriteInt32(ba: ByteArray, v: int)
    requires ba.Valid() && Int32(v)
    modifies ba, ba.Repr
    ensures ba.Valid() && fresh(ba.Repr - old(ba.Repr))
    ensures ba.Data() == Overwrite(old(ba.Data()), old(ba.position), EncInt32(v))
    ensures ba.position == old(ba.position) + |EncInt32(v)|
  {
    hide Zigzag, Overwrite, Flat, Start, Listed;
    ZigzagInverts(v, TWO32);
    Pow128Values();
    WriteUint(ba, Zigzag(v, TWO32), 5);
  }

  /** `writeStringVint`: the length, then the bytes. */
  method WriteString(ba: ByteArray, v: seq<Byte>)
    requires ba.Valid() && Sized(v)
    modifies ba, ba.Repr
    ensures ba.Valid() && fresh(ba.Repr - old(ba.Repr))
    ensures ba.Data() == Overwrite(old(ba.Data()), old(ba.position), EncString(v))
    ensures ba.position == old(ba.position) + |EncString(v)|
  {
    hide Overwrite, Flat, Start, Listed;
    Pow128Values();
    OverwriteTwice(ba.Data(), ba.position, EncVarint(|v|), v);
    WriteUint(ba, |v|, 10);
    ba.Write(v);
  }

  /** `<<` of a log entry. */
  method WriteEntry(ba: ByteArray, e: LogEntry)
    requires ba.Valid() && EntryOk(e)
    modifies ba, ba.Repr
    ensures ba.Valid() && fresh(ba.Repr - old(ba.Repr))
    ensures ba.Data() == Overwrite(old(ba.Data()), old(ba.position), EncEntry(e))
    ensures ba.position == old(ba.position) + |EncEntry(e)|
  {
    hide Overwrite, Flat, Start, Listed, EncInt32, EncString;
    ghost var a, b := EncInt32(e.index), EncInt32(e.term);
    OverwriteTwice(ba.Data(), ba.position, a, b);
    OverwriteTwice(ba.Data(), ba.position, a + b, EncString(e.value));
    WriteInt32(ba, e.index);
    WriteInt32(ba, e.term);
    WriteString(ba, e.value);
  }

  /** `<<` of a vector of log entries. */
  method WriteEntries(ba: ByteArray, es: seq<LogEntry>)
    requires ba.Valid() && EntriesOk(es) && Sized(es)
    modifies ba, ba.Repr
    ensures ba.Valid() && fresh(ba.Repr - old(ba.Repr))
    ensures ba.Data() == Overwrite(old(ba.Data()), old(ba.position), EncEntries(es))
    ensures ba.position == old(ba.position) + |EncEntries(es)|
  {
    hide Overwrite, Flat, Start, Listed, EncVarint, EncEntry;
    Pow128Values();
    ghost var data, pos, head := ba.Data(), ba.position, EncVarint(|es|);
    WriteUint(ba, |es|, 10);
    ghost var written := head;
    for i := 0 to |es|
      invariant ba.Valid() && fresh(ba.Repr - old(ba.Repr)) && written == head + EncEach(es[..i])
      invariant ba.Data() == Overwrite(data, pos, written) && ba.position == pos + |written|
    {
      EachSnoc(es, i);
      OverwriteTwice(data, pos, written, EncEntry(es[i]));
      WriteEntry(ba, es[i]);
      written := written + EncEntry(es[i]);
    }
    assert es[..|es|] == es;
  }

  /** `readUint32` (5 groups, 32 bits) and `readUint64` (10 groups, 64 bits). */
  method ReadUint(ba: ByteArray, groups: nat, width: nat) returns (r: Outcome<nat>)
    requires ba.Valid() && width > 0
    modifies ba`position, ba`cur, ba`at
    ensures ba.Valid() && ba.Data() == old(ba.Data())
    ensures
      match DecGroups(old(ba.Unread()), groups)
      case None => r == OutOfRange
      case Some((v, rest)) => r == Value(v % width) && ba.Unread() == rest
  {
    hide Flat, Start, Listed, Term, DecGroups;
    ghost var start := DecGroups(ba.Unread(), groups);
    ghost var sum: nat := 0;
    var result: nat, k: nat := 0, 0;
    ShiftedNone(ba.Unread(), groups);
    while k < groups
      invariant ba.Valid() && ba.Data() == old(ba.Data()) && k <= groups && result == sum % width
      invariant start == Shifted(DecGroups(ba.Unread(), groups - k), sum, k)
    {
      ghost var unread := ba.Unread();
      NoBytes(unread, groups - k);
      var b := ba.Read(1);
      if b.OutOfRange? {
        return OutOfRange;
      }
      Head(b.value, ba.Unread());
      ShiftedStep(unread, groups - k, sum, k);
      AddModulo(sum, Term(b.value[0], k), width);
      result := (result + Term(b.value[0], k)) % width;
      sum := sum + Term(b.value[0], k);
      if b.value[0] < 0x80 {
        return Value(result);
      }
      k := k + 1;
    }
    NoGroups(ba.Unread());
    r := Value(result);
  }

  /** `readInt32`. */
  method ReadInt32(ba: ByteArray) returns (r: Outcome<int>)
    requires ba.Valid()
    modifies ba`position, ba`cur, ba`at
    ensures ba.Valid() && ba.Data() == old(ba.Data())
    ensures
      match DecInt32(old(ba.Unread()))
      case None => r == OutOfRange
      case Some((v, rest)) => r == Value(v) && ba.Unread() == rest
  {
    hide Flat, Start, Listed, DecGroups;
    var z := ReadUint(ba, 5, TWO32);
    match z
    case Value(u) => r := Value(Unzigzag(u, TWO32));
    case OutOfRange => r := OutOfRange;
  }

  // ----- Readers on flat bytes that also say when the null block is reached; `full` means data up to capacity -----

  function Lift<T>(d: Decoded<T>): Outcome<(T, seq<Byte>)> {
    if d.None? then OutOfRange else Value(d.value)
  }

  /** `readStringVint`: an empty string that ends at capacity is the one that cannot be read. */
  function StringAt(s: seq<Byte>, full: bool): Outcome<(Str, seq<Byte>)> {
    var (v, rest) :- Lift(DecString(s));
    if v == [] && rest == [] && full then NullBlock else Value((v, rest))
  }

  function EntryAt(s: seq<Byte>, full: bool): Outcome<(LogEntry, seq<Byte>)> {
    var (index, s1) :- Lift(DecInt32(s));
    var (term, s2) :- Lift(DecInt32(s1));
    var (value, rest) :- StringAt(s2, full);
    Value((LogEntry(index, term, value), rest))
  }

  /** The data fill the buffer. */
  ghost predicate Full(ba: ByteArray)
    reads ba, ba.Repr
    requires ba.Valid()
  {
    |ba.Data()| == ba.capacity
  }

  /** The cursor read what the flat reader finds, and stands behind it. */
  ghost predicate Delivers<T>(ba: ByteArray, o: Outcome<(T, seq<Byte>)>, r: Outcome<T>)
    reads ba, ba.Repr
    requires ba.Valid()
  {
    match o
    case Value((v, rest)) => r == Value(v) && ba.Unread() == rest
    case OutOfRange => r == OutOfRange
    case NullBlock => r == NullBlock
  }

  /** `readStringVint`. */
  method ReadString(ba: ByteArray) returns (r: Outcome<Str>)
    requires ba.Valid()
    modifies ba`position, ba`cur, ba`at
    ensures ba.Valid() && ba.Data() == old(ba.Data()) && Delivers(ba, old(StringAt(ba.Unread(), Full(ba))), r)
  {
    hide Flat, Start, Listed, DecGroups;
    var n :- ReadUint(ba, 10, TWO64);
    r := ba.Read(n);
  }

  /** `>>` of a log entry. */
  method ReadEntry(ba: ByteArray) returns (r: Outcome<LogEntry>)
    requires ba.Valid()
    modifies ba`position, ba`cur, ba`at
    ensures ba.Valid() && ba.Data() == old(ba.Data()) && Delivers(ba, old(EntryAt(ba.Unread(), Full(ba))), r)
  {
    hide Flat, Start, Listed, DecInt32, StringAt;
    var index :- ReadInt32(ba);
    var term :- ReadInt32(ba);
    var value :- ReadString(ba);
    r := Value(LogEntry(index, term, value));
  }

  /** Where an entry can be decoded, only an empty value at the very end and at capacity keeps it from being read. */
  lemma EntryAtIs(s: seq<Byte>, full: bool)
    ensures
      EntryAt(s, full)
      == match DecEntry(s)
         case None => OutOfRange
         case Some((e, rest)) => if e.value == [] && rest == [] && full then NullBlock else Value((e, rest))
  {
    hide DecInt32, DecString;
  }

  /** The bytes end with an entry whose value is empty. */
  ghost predicate EndsEmpty(s: seq<Byte>)
    decreases |s|
  {
    match DecEntry(s)
    case None => false
    case Some((e, rest)) => (rest == [] && e.value == []) || EndsEmpty(rest)
  }

  /**
   The decode loop of `recover`, which stops at the first exception; the commit index follows
   the entries read.  It crashes exactly when the last entry has an empty value and the bytes
   fill the last block.
   */
  method Recover(ba: ByteArray) returns (crash: bool, log: seq<LogEntry>, commitIndex: int)
    requires ba.Valid()
    modifies ba`position, ba`cur, ba`at
    ensures ba.Valid() && ba.Data() == old(ba.Data())
    ensures crash <==> EndsEmpty(old(ba.Unread())) && |ba.Data()| == ba.capacity
    ensures !crash ==> log == Replay(old(ba.Unread())) && commitIndex == if log == [] then 0 else log[|log| - 1].index
  {
    hide Flat, Start, Listed, DecEntry, EntryAt, Replay, EndsEmpty;
    log, commitIndex := [], 0;
    ghost var start := ba.Unread();
    NothingLeft();
    EmptyFile();
    while ba.size > 0
      invariant ba.Valid() && ba.Data() == old(ba.Data())
      invariant Replay(start) == log + Replay(ba.Unread()) && commitIndex == (if log == [] then 0 else log[|log| - 1].index)
      invariant |ba.Data()| == ba.capacity ==> (EndsEmpty(start) <==> EndsEmpty(ba.Unread()))
      decreases |ba.Unread()|
    {
      EntryAtIs(ba.Unread(), Full(ba));
      ReplayStep(ba.Unread());
      var tmp := ReadEntry(ba);
      match tmp
      case OutOfRange => return false, log, commitIndex;
      case NullBlock => return true, log, commitIndex;
      case Value(e) => log, commitIndex := log + [e], e.index;
    }
    crash := false;
  }

  /** The bytes fill whole blocks. */
  predicate WholeBlocks(bytes: seq<Byte>, baseSize: nat)
    requires baseSize > 0
  {
    |bytes| % baseSize == 0
  }

  /** A serializer made from a string: a buffer with its bytes, at the start. */
  method Load(bytes: seq<Byte>, baseSize: nat) returns (ba: ByteArray)
    requires baseSize > 0
    ensures fresh(ba) && fresh(ba.Repr) && ba.Valid() && ba.Data() == ba.Unread() == bytes
    ensures |bytes| == ba.capacity <==> bytes != [] && WholeBlocks(bytes, baseSize)
  {
    hide Flat, Start, Listed, WholeBlocks, Overwrite;
    ba := new ByteArray(baseSize);
    OverwriteAll(bytes);
    ba.Write(bytes);
    CapacityFilled(ba, bytes);
    var ok := ba.SetPosition(0);
    assert ba.Unread() == bytes;
  }

  lemma OverwriteAll(bytes: seq<Byte>)
    ensures Overwrite([], 0, bytes) == bytes
  {
  }

  lemma CapacityFilled(ba: ByteArray, bytes: seq<Byte>)
    requires ba.Valid() && |bytes| <= ba.capacity && (ba.capacity == ba.baseSize || ba.capacity < |bytes| + ba.baseSize)
    ensures ba.baseSize > 0 && (|bytes| == ba.capacity <==> bytes != [] && WholeBlocks(bytes, ba.baseSize))
  {
    hide Flat, Start, Listed;
    ba.CapacityIsBlocks();
    FillsBlocks(|bytes|, ba.baseSize, |ba.blocks|);
  }

  /**
   `recover` on the contents of the log file: the entries that can be read from its front, unless
   the last of them is empty and the file fills whole blocks.
   */
  method RecoverFile(file: seq<Byte>, baseSize: nat) returns (crash: bool, log: seq<LogEntry>, commitIndex: int)
    requires baseSize > 0
    ensures crash <==> EndsEmpty(file) && WholeBlocks(file, baseSize)
    ensures !crash ==> log == Replay(file) && commitIndex == if log == [] then 0 else log[|log| - 1].index
  {
    hide Flat, Start, Listed, EndsEmpty, Replay, WholeBlocks;
    var ba := Load(file, baseSize);
    EmptyFile();
    crash, log, commitIndex := Recover(ba);
  }

  // ----- Recovery of what was written -----

  /** The first k bytes written end with entry j, counted from 1, whose value is empty. */
  ghost predicate EndsWith(es: seq<LogEntry>, k: nat, j: nat) {
    0 < j <= |es| && EntriesOk(es[..j]) && k == |EncEach(es[..j])| && es[j - 1].value == []
  }

  /** A prefix of the file ends with an empty entry exactly when it was cut right behind one. */
  lemma {:induction false} EndsEmptyIff(es: seq<LogEntry>, k: nat)
    requires EntriesOk(es) && k <= |EncEach(es)|
    ensures EndsEmpty(EncEach(es)[..k]) <==> exists j: nat :: EndsWith(es, k, j)
    decreases |es|
  {
    hide DecEntry, EncEntry;
    if es == [] {
      EmptyFile();
    } else {
      var e, rest := EncEntry(es[0]), es[1..];
      if k < |e| {
        assert EncEach(es)[..k] == e[..k];
        EntryTorn(es[0], k);
        forall j: nat | EndsWith(es, k, j) ensures false { EndsLater(es, k, j); }
      } else {
        var tail := EncEach(rest)[..k - |e|];
        assert EncEach(es)[..k] == e + tail;
        EntryInverts(es[0], tail);
        EndsEmptyIff(rest, k - |e|);
        EndsShift(es, k);
      }
    }
  }

  lemma EndsLater(es: seq<LogEntry>, k: nat, j: nat)
    requires EntriesOk(es) && es != [] && EndsWith(es, k, j)
    ensures EntriesOk(es[1..]) && k >= |EncEntry(es[0])|
    ensures if j == 1 then k == |EncEntry(es[0])| else EndsWith(es[1..], k - |EncEntry(es[0])|, j - 1)
  {
    hide EncEntry;
    assert es[..j][1..] == es[1..][..j - 1];
  }

  /** Where the file with one more entry in front ends empty. */
  lemma EndsShift(es: seq<LogEntry>, k: nat)
    requires EntriesOk(es) && es != [] && k >= |EncEntry(es[0])|
    ensures
      var d := k - |EncEntry(es[0])|;
      (exists j: nat :: EndsWith(es, k, j)) <==> (d == 0 && es[0].value == []) || exists j: nat :: EndsWith(es[1..], d, j)
  {
    hide EncEntry;
    var d := k - |EncEntry(es[0])|;
    if j: nat :| EndsWith(es, k, j) {
      EndsLater(es, k, j);
    }
    if d == 0 && es[0].value == [] {
      EachCons(es[0], []);
      assert es[..1] == [es[0]] + [];
      assert EndsWith(es, k, 1);
    }
    if j: nat :| EndsWith(es[1..], d, j) {
      EachCons(es[0], es[1..][..j]);
      assert es[..j + 1] == [es[0]] + es[1..][..j];
      assert EndsWith(es, k, j + 1);
    }
  }

  /** Three zero bytes are such a file: one entry of index 0, term 0 and no value. */
  lemma EndsEmptyWitness()
    ensures EndsEmpty([0, 0, 0]) && EntryOk(LogEntry(0, 0, [])) && EncEntry(LogEntry(0, 0, [])) == [0, 0, 0]
  {
    hide DecEntry, EncEntry;
    ZeroEntry();
    EntryInverts(LogEntry(0, 0, []), []);
    assert [0, 0, 0] + [] == [0, 0, 0];
  }

  lemma ZeroEntry()
    ensures EntryOk(LogEntry(0, 0, [])) && EncEntry(LogEntry(0, 0, [])) == [0, 0, 0]
  {
    ZigzagInverts(0, TWO32);
    assert EncInt32(0) == [0] && EncString([]) == [0];
  }

  /**
   Recovery of the first k bytes of the entries written: exactly the entries wholly within them, the
   last of which gives the commit index.  It crashes if and only if the cut is right behind an
   entry with an empty value and falls on a block boundary.
   */
  method RecoverTorn(file: seq<Byte>, baseSize: nat, ghost es: seq<LogEntry>, ghost k: nat)
    returns (crash: bool, log: seq<LogEntry>, commitIndex: int)
    requires baseSize > 0 && EntriesOk(es) && k <= |EncEach(es)| && file == EncEach(es)[..k]
    ensures crash <==> k % baseSize == 0 && exists j: nat :: EndsWith(es, k, j)
    ensures !crash ==> log <= es && EntriesOk(log) && |EncEach(log)| <= k
    ensures !crash && |log| < |es| ==> EntriesOk(es[..|log| + 1]) && k < |EncEach(es[..|log| + 1])|
    ensures !crash ==> commitIndex == if log == [] then 0 else log[|log| - 1].index
  {
    hide EndsEmpty, Replay, EncEach, EndsWith;
    EndsEmptyIff(es, k);
    TornFile(es, k);
    crash, log, commitIndex := RecoverFile(file, baseSize);
  }

  lemma FillsBlocks(n: nat, b: nat, k: nat)
    requires b > 0 && n <= b * k && (b * k == b || b * k < n + b)
    ensures n > 0 ==> (n == b * k <==> n % b == 0)
  {
    Quotient(n, b);
    Remainder(b, k, 0);
    if n % b == 0 && n > 0 {
      SameMultiple(b, n / b, k);
    }
  }

  lemma SameMultiple(b: nat, q: nat, k: nat)
    requires b > 0 && 0 < b * q <= b * k && (b * k == b || b * k < b * q + b)
    ensures q == k
  {
    if q < k {
      MulLe(b, q + 1, k);
    }
    if q > k {
      MulLe(b, k + 1, q);
    }
  }

  lemma ReplayStep(s: seq<Byte>)
    ensures
      match DecEntry(s)
      case None => Replay(s) == [] && !EndsEmpty(s)
      case Some((e, rest)) => Replay(s) == [e] + Replay(rest) && (EndsEmpty(s) <==> (rest == [] && e.value == []) || EndsEmpty(rest))
  {
  }

  lemma EmptyFile()
    ensures !EndsEmpty([])
  {
    assert DecGroups([], 5) == None;
  }

  lemma VarintStep(v: nat, slots: nat)
    requires 0x80 <= v < Pow128(slots) && slots > 0
    ensures EncVarint(v) == [v % 0x80 + 0x80] + EncVarint(v / 0x80) && slots > 1 && v / 0x80 < Pow128(slots - 1)
  {
  }

  lemma VarintLast(v: nat)
    requires v < 0x80
    ensures EncVarint(v) == [v]
  {
  }

  /** The seven bits of a byte, shifted to position 7k. */
  function Term(b: Byte, k: nat): nat {
    (if b < 0x80 then b as nat else b - 0x80) * Pow128(k)
  }

  /** Groups decoded after the first k contribute from bit 7k on. */
  function Shifted(d: Decoded<nat>, sum: nat, k: nat): Decoded<nat> {
    match d
    case None => None
    case Some((v, rest)) => Some((sum + v * Pow128(k), rest))
  }

  lemma ShiftedNone(s: seq<Byte>, groups: nat)
    ensures Shifted(DecGroups(s, groups), 0, 0) == DecGroups(s, groups)
  {
  }

  lemma NoBytes(s: seq<Byte>, groups: nat)
    requires groups > 0
    ensures s == [] ==> DecGroups(s, groups) == None
  {
  }

  lemma NoGroups(s: seq<Byte>)
    ensures DecGroups(s, 0) == Some((0, s))
  {
  }

  lemma Head(b: seq<Byte>, rest: seq<Byte>)
    requires |b| == 1
    ensures (b + rest)[0] == b[0] && (b + rest)[1..] == rest
  {
  }

  lemma ShiftedStep(s: seq<Byte>, groups: nat, sum: nat, k: nat)
    requires groups > 0 && s != []
    ensures
      Shifted(DecGroups(s, groups), sum, k)
      == if s[0] < 0x80 then Some((sum + Term(s[0], k), s[1..]))
         else Shifted(DecGroups(s[1..], groups - 1), sum + Term(s[0], k), k + 1)
  {
    match DecGroups(s[1..], groups - 1)
    case None =>
    case Some((v, rest)) =>
      var d: int, p := s[0] as int - 0x80, Pow128(k);
      assert (d + 0x80 * v) * p == d * p + v * (0x80 * p);
  }

  lemma AddModulo(x: nat, y: nat, m: nat)
    requires m > 0
    ensures (x % m + y) % m == (x + y) % m
  {
    var z := x % m + y;
    Quotient(x, m);
    Quotient(z, m);
    SumOfMultiples(m, x / m, z / m);
    Remainder(m, x / m + z / m, z % m);
  }

  lemma Quotient(x: nat, m: nat)
    requires m > 0
    ensures x == m * (x / m) + x % m
  {
  }

  lemma SumOfMultiples(m: nat, a: nat, b: nat)
    ensures m * a + m * b == m * (a + b)
  {
  }

  lemma OverwriteTwice(data: seq<Byte>, pos: nat, x: seq<Byte>, y: seq<Byte>)
    requires pos <= |data|
    ensures Overwrite(Overwrite(data, pos, x), pos + |x|, y) == Overwrite(data, pos, x + y)
  {
  }

  lemma EachSnoc(es: seq<LogEntry>, i: nat)
    requires i < |es| && EntriesOk(es)
    ensures EncEach(es[..i + 1]) == EncEach(es[..i]) + EncEntry(es[i])
  {
    EachAppend(es[..i], [es[i]]);
    assert es[..i + 1] == es[..i] + [es[i]] && EncEach([es[i]]) == EncEntry(es[i]) + EncEach([]);
  }

  lemma {:induction false} EachAppend(a: seq<LogEntry>, b: seq<LogEntry>)
    requires EntriesOk(a) && EntriesOk(b)
    ensures EntriesOk(a + b) && EncEach(a + b) == EncEach(a) + EncEach(b)
  {
    hide EncEntry;
    if a == [] {
      assert a + b == b;
    } else {
      EachAppend(a[1..], b);
      assert (a + b)[1..] == a[1..] + b;
    }
  }
}
