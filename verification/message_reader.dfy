/**
 Reading whole messages through the cursor of a chunked buffer.  Each reader has a counterpart on
 flat bytes that also says when it goes through the null block pointer: `full` means that the data
 fill the buffer to capacity.
 */
module MessageReader {
  import opened Bytes
  import opened Options
  import opened Codec
  import opened Messages
  import opened ByteArrayModule
  import opened Serializer

  // ----- On flat bytes -----

  function RecordAt(s: seq<Byte>, full: bool): Outcome<(Record, seq<Byte>)> {
    var (id, s1) :- Lift(DecUint64(s));
    var (key, s2) :- StringAt(s1, full);
    var (value, rest) :- StringAt(s2, full);
    Value((Record(id, key, value), rest))
  }

  function PairsAt(s: seq<Byte>, n: nat, m: map<Str, Str>, full: bool): Outcome<(map<Str, Str>, seq<Byte>)>
    decreases n
  {
    if n == 0 then Value((m, s))
    else
      var (k, s1) :- StringAt(s, full);
      var (v, s2) :- StringAt(s1, full);
      PairsAt(s2, n - 1, Emplace(m, Pair(k, v)), full)
  }

  function MapAt(s: seq<Byte>, full: bool): Outcome<(map<Str, Str>, seq<Byte>)> {
    var (n, rest) :- Lift(DecUint64(s));
    PairsAt(rest, n, map[], full)
  }

  function SnapshotAt(s: seq<Byte>, full: bool): Outcome<(SnapshotArgs, seq<Byte>)> {
    var (term, s1) :- Lift(DecInt32(s));
    var (leader, s2) :- Lift(DecInt32(s1));
    var (index, s3) :- Lift(DecInt32(s2));
    var (lastTerm, s4) :- Lift(DecInt32(s3));
    var (data, rest) :- MapAt(s4, full);
    Value((SnapshotArgs(term, leader, index, lastTerm, data), rest))
  }

  // ----- When a written message can be read -----

  lemma StringAtInverts(v: Str, rest: seq<Byte>, full: bool)
    requires Sized(v)
    ensures StringAt(EncString(v) + rest, full) == if v == [] && rest == [] && full then NullBlock else Value((v, rest))
  {
    StringInverts(v, rest);
  }

  /** A record is read back unless its value is empty and ends exactly at capacity. */
  lemma RecordAtInverts(r: Record, rest: seq<Byte>, full: bool)
    requires RecordOk(r)
    ensures
      RecordAt(EncRecord(r) + rest, full) == if r.value == [] && rest == [] && full then NullBlock else Value((r, rest))
  {
    hide DecUint64, StringAt, EncString;
    var r3 := EncString(r.value) + rest;
    assert EncRecord(r) + rest == EncVarint(r.id) + (EncString(r.key) + r3);
    StringNotEmpty(r.value);
    Uint64Inverts(r.id, EncString(r.key) + r3);
    StringAtInverts(r.key, r3, full);
    StringAtInverts(r.value, rest, full);
  }

  lemma StringNotEmpty(v: Str)
    ensures EncString(v) != []
  {
  }

  lemma {:induction false} PairsAtInvert(ps: seq<Pair>, m: map<Str, Str>, rest: seq<Byte>, full: bool)
    requires PairsOk(ps)
    ensures
      PairsAt(EncPairs(ps) + rest, |ps|, m, full)
      == if ps != [] && ps[|ps| - 1].value == [] && rest == [] && full then NullBlock else Value((EmplaceAll(m, ps), rest))
    decreases |ps|
  {
    hide StringAt, EncString;
    if ps != [] {
      var tail := EncPairs(ps[1..]) + rest;
      assert EncPairs(ps) + rest == EncString(ps[0].key) + (EncString(ps[0].value) + tail);
      StringNotEmpty(ps[0].value);
      StringAtInverts(ps[0].key, EncString(ps[0].value) + tail, full);
      StringAtInverts(ps[0].value, tail, full);
      if |ps| > 1 { StringNotEmpty(ps[1].key); }
      PairsAtInvert(ps[1..], Emplace(m, ps[0]), rest, full);
    } else {
      assert EncPairs(ps) + rest == rest;
    }
  }

  /** A snapshot request is read back unless the value listed last is empty and ends exactly at capacity. */
  lemma SnapshotAtInverts(a: SnapshotArgs, ps: seq<Pair>, rest: seq<Byte>, full: bool)
    requires SnapshotOk(a) && Lists(ps, a.data) && PairsOk(ps) && Sized(ps)
    ensures
      SnapshotAt(EncSnapshot(a, ps) + rest, full)
      == if ps != [] && ps[|ps| - 1].value == [] && rest == [] && full then NullBlock else Value((a, rest))
  {
    hide DecInt32, MapAt, EncMap, Lists;
    var r5 := EncMap(ps) + rest;
    var r4 := EncInt32(a.lastTerm) + r5;
    var r3 := EncInt32(a.lastIndex) + r4;
    var r2 := EncInt32(a.leaderId) + r3;
    assert EncSnapshot(a, ps) + rest == EncInt32(a.term) + r2;
    Int32Inverts(a.term, r2);
    Int32Inverts(a.leaderId, r3);
    Int32Inverts(a.lastIndex, r4);
    Int32Inverts(a.lastTerm, r5);
    MapAtInverts(ps, a.data, rest, full);
  }

  lemma MapAtInverts(ps: seq<Pair>, m: map<Str, Str>, rest: seq<Byte>, full: bool)
    requires Lists(ps, m) && PairsOk(ps) && Sized(ps)
    ensures
      MapAt(EncMap(ps) + rest, full)
      == if ps != [] && ps[|ps| - 1].value == [] && rest == [] && full then NullBlock else Value((m, rest))
  {
    hide DecUint64, PairsAt, EncVarint, EncPairs;
    assert EncMap(ps) + rest == EncVarint(|ps|) + (EncPairs(ps) + rest);
    Uint64Inverts(|ps|, EncPairs(ps) + rest);
    PairsAtInvert(ps, map[], rest, full);
    EmplacedKeys(map[], ps);
    assert EmplaceAll(map[], ps) == m;
  }

  // ----- Through the cursor -----

  /** `>>` of a `DB_log`. */
  method ReadRecord(ba: ByteArray) returns (r: Outcome<Record>)
    requires ba.Valid()
    modifies ba`position, ba`cur, ba`at
    ensures ba.Valid() && ba.Data() == old(ba.Data()) && Delivers(ba, old(RecordAt(ba.Unread(), Full(ba))), r)
  {
    hide Flat, Start, Listed, DecGroups, StringAt;
    var id := ReadUint(ba, 10, TWO64);
    if id.OutOfRange? { return OutOfRange; }
    var key :- ReadString(ba);
    var value :- ReadString(ba);
    r := Value(Record(id.value, key, value));
  }

  /** `>>` of a string map. */
  method ReadMap(ba: ByteArray) returns (r: Outcome<map<Str, Str>>)
    requires ba.Valid()
    modifies ba`position, ba`cur, ba`at
    ensures ba.Valid() && ba.Data() == old(ba.Data()) && Delivers(ba, old(MapAt(ba.Unread(), Full(ba))), r)
  {
    hide Flat, Start, Listed, DecGroups, StringAt;
    ghost var full := Full(ba);
    var n := ReadUint(ba, 10, TWO64);
    if n.OutOfRange? { return OutOfRange; }
    var m: map<Str, Str> := map[];
    ghost var start := ba.Unread();
    var left := n.value;
    while left > 0
      invariant ba.Valid() && ba.Data() == old(ba.Data()) && Full(ba) == full
      invariant PairsAt(start, n.value, map[], full) == PairsAt(ba.Unread(), left, m, full)
    {
      var key :- ReadString(ba);
      var value :- ReadString(ba);
      m := Emplace(m, Pair(key, value));
      left := left - 1;
    }
    r := Value(m);
  }

  /** `>>` of a snapshot request. */
  method ReadSnapshot(ba: ByteArray) returns (r: Outcome<SnapshotArgs>)
    requires ba.Valid()
    modifies ba`position, ba`cur, ba`at
    ensures ba.Valid() && ba.Data() == old(ba.Data()) && Delivers(ba, old(SnapshotAt(ba.Unread(), Full(ba))), r)
  {
    hide Flat, Start, Listed, DecInt32, MapAt;
    var term :- ReadInt32(ba);
    var leader :- ReadInt32(ba);
    var index :- ReadInt32(ba);
    var lastTerm :- ReadInt32(ba);
    var data :- ReadMap(ba);
    r := Value(SnapshotArgs(term, leader, index, lastTerm, data));
  }

  /** A record taken from the bytes of a log entry, as the apply loop does. */
  method DecodeRecord(bytes: seq<Byte>, baseSize: nat) returns (r: Outcome<Record>)
    requires baseSize > 0
    ensures r == RecordOf(bytes, baseSize)
  {
    hide Flat, Start, Listed, RecordAt, WholeBlocks, Delivers, RecordOf;
    var ba := Load(bytes, baseSize);
    ghost var full := Full(ba);
    assert full == (bytes != [] && WholeBlocks(bytes, baseSize));
    r := ReadRecord(ba);
    Delivered(ba, bytes, baseSize, full, r);
  }

  lemma Delivered(ba: ByteArray, bytes: seq<Byte>, baseSize: nat, full: bool, r: Outcome<Record>)
    requires ba.Valid() && baseSize > 0 && full == (bytes != [] && WholeBlocks(bytes, baseSize))
    requires Delivers(ba, RecordAt(bytes, full), r)
    ensures r == RecordOf(bytes, baseSize)
  {
    hide Flat, Start, Listed, RecordAt, WholeBlocks;
    NoRecord();
  }

  function RecordOf(bytes: seq<Byte>, baseSize: nat): Outcome<Record>
    requires baseSize > 0
  {
    var (r, _) :- RecordAt(bytes, WholeBlocks(bytes, baseSize));
    Value(r)
  }

  lemma NoRecord()
    ensures RecordAt([], true) == RecordAt([], false) == OutOfRange
  {
    assert DecGroups([], 10) == None;
  }
}
