/** The Raft messages and the key-value record of star/rpc/serializer.h, field by field in stream order. */
module Messages {
  import opened Bytes
  import opened RaftTypes
  import opened Options
  import opened Codec

  predicate ArgsOk(a: AppendArgs) {
    && Int32(a.term) && Int32(a.leaderId) && Int32(a.prevLogIndex) && Int32(a.prevLogTerm) && Int32(a.leaderCommit)
    && EntriesOk(a.entries) && Sized(a.entries)
  }

  function EncArgs(a: AppendArgs): seq<Byte>
    requires ArgsOk(a)
  {
    EncInt32(a.term) + EncInt32(a.leaderId) + EncInt32(a.prevLogIndex) + EncInt32(a.prevLogTerm)
    + EncEntries(a.entries) + EncInt32(a.leaderCommit)
  }

  function DecArgs(s: seq<Byte>): Decoded<AppendArgs> {
    var (term, s1) :- DecInt32(s);
    var (leader, s2) :- DecInt32(s1);
    var (prevIndex, s3) :- DecInt32(s2);
    var (prevTerm, s4) :- DecInt32(s3);
    var (entries, s5) :- DecEntries(s4);
    var (commit, rest) :- DecInt32(s5);
    Some((AppendArgs(term, leader, prevIndex, prevTerm, entries, commit), rest))
  }

  lemma ArgsInvert(a: AppendArgs, rest: seq<Byte>)
    requires ArgsOk(a)
    ensures DecArgs(EncArgs(a) + rest) == Some((a, rest))
  {
    hide DecInt32, DecEntries;
    var r6 := EncInt32(a.leaderCommit) + rest;
    var r5 := EncEntries(a.entries) + r6;
    var r4 := EncInt32(a.prevLogTerm) + r5;
    var r3 := EncInt32(a.prevLogIndex) + r4;
    var r2 := EncInt32(a.leaderId) + r3;
    assert EncArgs(a) + rest == EncInt32(a.term) + r2;
    Int32Inverts(a.term, r2);
    Int32Inverts(a.leaderId, r3);
    Int32Inverts(a.prevLogIndex, r4);
    Int32Inverts(a.prevLogTerm, r5);
    EntriesInvert(a.entries, r6);
    Int32Inverts(a.leaderCommit, rest);
  }

  function EncAppendReply(r: AppendReply): seq<Byte>
    requires Int32(r.term) && Int32(r.nextTryLog)
  {
    EncInt32(r.term) + EncBool(r.success) + EncInt32(r.nextTryLog)
  }

  function DecAppendReply(s: seq<Byte>): Decoded<AppendReply> {
    var (term, s1) :- DecInt32(s);
    var (success, s2) :- DecBool(s1);
    var (next, rest) :- DecInt32(s2);
    Some((AppendReply(term, success, next), rest))
  }

  lemma AppendReplyInverts(r: AppendReply, rest: seq<Byte>)
    requires Int32(r.term) && Int32(r.nextTryLog)
    ensures DecAppendReply(EncAppendReply(r) + rest) == Some((r, rest))
  {
    hide DecInt32;
    var r3 := EncInt32(r.nextTryLog) + rest;
    assert EncAppendReply(r) + rest == EncInt32(r.term) + (EncBool(r.success) + r3);
    Int32Inverts(r.term, EncBool(r.success) + r3);
    assert (EncBool(r.success) + r3)[1..] == r3;
    Int32Inverts(r.nextTryLog, rest);
  }

  function EncVoteArgs(v: VoteArgs): seq<Byte>
    requires Int32(v.term) && Int32(v.candidateId) && Int32(v.lastLogIndex) && Int32(v.lastLogTerm)
  {
    EncInt32(v.term) + EncInt32(v.candidateId) + EncInt32(v.lastLogIndex) + EncInt32(v.lastLogTerm)
  }

  function DecVoteArgs(s: seq<Byte>): Decoded<VoteArgs> {
    var (term, s1) :- DecInt32(s);
    var (candidate, s2) :- DecInt32(s1);
    var (index, s3) :- DecInt32(s2);
    var (logTerm, rest) :- DecInt32(s3);
    Some((VoteArgs(term, candidate, index, logTerm), rest))
  }

  lemma VoteArgsInvert(v: VoteArgs, rest: seq<Byte>)
    requires Int32(v.term) && Int32(v.candidateId) && Int32(v.lastLogIndex) && Int32(v.lastLogTerm)
    ensures DecVoteArgs(EncVoteArgs(v) + rest) == Some((v, rest))
  {
    hide DecInt32;
    var r4 := EncInt32(v.lastLogTerm) + rest;
    var r3 := EncInt32(v.lastLogIndex) + r4;
    var r2 := EncInt32(v.candidateId) + r3;
    assert EncVoteArgs(v) + rest == EncInt32(v.term) + r2;
    Int32Inverts(v.term, r2);
    Int32Inverts(v.candidateId, r3);
    Int32Inverts(v.lastLogIndex, r4);
    Int32Inverts(v.lastLogTerm, rest);
  }

  function EncVoteReply(v: VoteReply): seq<Byte>
    requires Int32(v.term)
  {
    EncInt32(v.term) + EncBool(v.voteGranted)
  }

  function DecVoteReply(s: seq<Byte>): Decoded<VoteReply> {
    var (term, s1) :- DecInt32(s);
    var (granted, rest) :- DecBool(s1);
    Some((VoteReply(term, granted), rest))
  }

  lemma VoteReplyInverts(v: VoteReply, rest: seq<Byte>)
    requires Int32(v.term)
    ensures DecVoteReply(EncVoteReply(v) + rest) == Some((v, rest))
  {
    assert EncVoteReply(v) + rest == EncInt32(v.term) + (EncBool(v.voteGranted) + rest);
    Int32Inverts(v.term, EncBool(v.voteGranted) + rest);
    assert (EncBool(v.voteGranted) + rest)[1..] == rest;
  }

  datatype SnapshotArgs = SnapshotArgs(term: int, leaderId: int, lastIndex: int, lastTerm: int, data: map<Str, Str>)

  predicate SnapshotOk(a: SnapshotArgs) {
    Int32(a.term) && Int32(a.leaderId) && Int32(a.lastIndex) && Int32(a.lastTerm)
  }

  /** `ps` is the iteration order of `a.data`. */
  function EncSnapshot(a: SnapshotArgs, ps: seq<Pair>): seq<Byte>
    requires SnapshotOk(a)
  {
    EncInt32(a.term) + EncInt32(a.leaderId) + EncInt32(a.lastIndex) + EncInt32(a.lastTerm) + EncMap(ps)
  }

  function DecSnapshot(s: seq<Byte>): Decoded<SnapshotArgs> {
    var (term, s1) :- DecInt32(s);
    var (leader, s2) :- DecInt32(s1);
    var (index, s3) :- DecInt32(s2);
    var (lastTerm, s4) :- DecInt32(s3);
    var (data, rest) :- DecMap(s4);
    Some((SnapshotArgs(term, leader, index, lastTerm, data), rest))
  }

  lemma SnapshotInverts(a: SnapshotArgs, ps: seq<Pair>, rest: seq<Byte>)
    requires SnapshotOk(a) && Lists(ps, a.data) && PairsOk(ps) && Sized(ps)
    ensures DecSnapshot(EncSnapshot(a, ps) + rest) == Some((a, rest))
  {
    hide DecInt32, DecMap, Lists;
    var r5 := EncMap(ps) + rest;
    var r4 := EncInt32(a.lastTerm) + r5;
    var r3 := EncInt32(a.lastIndex) + r4;
    var r2 := EncInt32(a.leaderId) + r3;
    assert EncSnapshot(a, ps) + rest == EncInt32(a.term) + r2;
    Int32Inverts(a.term, r2);
    Int32Inverts(a.leaderId, r3);
    Int32Inverts(a.lastIndex, r4);
    Int32Inverts(a.lastTerm, r5);
    MapInverts(ps, a.data, rest);
  }

  /** `DB_log`, the payload of a log entry. */
  datatype Record = Record(id: nat, key: Str, value: Str)

  predicate RecordOk(r: Record) { r.id < TWO64 && Sized(r.key) && Sized(r.value) }

  function EncRecord(r: Record): seq<Byte> { EncVarint(r.id) + EncString(r.key) + EncString(r.value) }

  function DecRecord(s: seq<Byte>): Decoded<Record> {
    var (id, s1) :- DecUint64(s);
    var (key, s2) :- DecString(s1);
    var (value, rest) :- DecString(s2);
    Some((Record(id, key, value), rest))
  }

  lemma RecordInverts(r: Record, rest: seq<Byte>)
    requires RecordOk(r)
    ensures DecRecord(EncRecord(r) + rest) == Some((r, rest))
  {
    hide DecUint64, DecString;
    var r3 := EncString(r.value) + rest;
    assert EncRecord(r) + rest == EncVarint(r.id) + (EncString(r.key) + r3);
    Uint64Inverts(r.id, EncString(r.key) + r3);
    StringInverts(r.key, r3);
    StringInverts(r.value, rest);
  }

  // ----- The order of the fields on the wire -----

  /** Values that take one byte. */
  predicate Small(v: int) { 0 <= v < 0x40 }

  lemma SmallInt(v: int)
    requires Small(v)
    ensures EncInt32(v) == [2 * v]
  {
    ZigzagInverts(v, TWO32);
  }

  lemma EntryLayout(e: LogEntry)
    requires Small(e.index) && Small(e.term) && |e.value| < 0x80
    ensures EncEntry(e) == [2 * e.index, 2 * e.term, |e.value|] + e.value
  {
    hide EncInt32;
    SmallInt(e.index);
    SmallInt(e.term);
  }

  lemma ArgsLayout(a: AppendArgs)
    requires Small(a.term) && Small(a.leaderId) && Small(a.prevLogIndex) && Small(a.prevLogTerm) && Small(a.leaderCommit)
    requires EntriesOk(a.entries) && |a.entries| < 0x80
    ensures
      EncArgs(a)
      == [2 * a.term, 2 * a.leaderId, 2 * a.prevLogIndex, 2 * a.prevLogTerm, |a.entries|] + EncEach(a.entries) + [2 * a.leaderCommit]
  {
    hide EncInt32, EncEach;
    SmallInt(a.term);
    SmallInt(a.leaderId);
    SmallInt(a.prevLogIndex);
    SmallInt(a.prevLogTerm);
    SmallInt(a.leaderCommit);
    assert EncEntries(a.entries) == [|a.entries|] + EncEach(a.entries);
  }

  lemma RepliesLayout(a: AppendReply, v: VoteReply)
    requires Small(a.term) && Small(a.nextTryLog) && Small(v.term)
    ensures EncAppendReply(a) == [2 * a.term, if a.success then 1 else 0, 2 * a.nextTryLog]
    ensures EncVoteReply(v) == [2 * v.term, if v.voteGranted then 1 else 0]
  {
    hide EncInt32;
    SmallInt(a.term);
    SmallInt(a.nextTryLog);
    SmallInt(v.term);
  }

  lemma VoteLayout(v: VoteArgs)
    requires Small(v.term) && Small(v.candidateId) && Small(v.lastLogIndex) && Small(v.lastLogTerm)
    ensures EncVoteArgs(v) == [2 * v.term, 2 * v.candidateId, 2 * v.lastLogIndex, 2 * v.lastLogTerm]
  {
    hide EncInt32;
    SmallInt(v.term);
    SmallInt(v.candidateId);
    SmallInt(v.lastLogIndex);
    SmallInt(v.lastLogTerm);
  }

  lemma SnapshotLayout(a: SnapshotArgs, ps: seq<Pair>)
    requires Small(a.term) && Small(a.leaderId) && Small(a.lastIndex) && Small(a.lastTerm) && |ps| < 0x80
    ensures EncSnapshot(a, ps) == [2 * a.term, 2 * a.leaderId, 2 * a.lastIndex, 2 * a.lastTerm, |ps|] + EncPairs(ps)
  {
    hide EncInt32, EncPairs;
    SmallInt(a.term);
    SmallInt(a.leaderId);
    SmallInt(a.lastIndex);
    SmallInt(a.lastTerm);
    assert EncMap(ps) == [|ps|] + EncPairs(ps);
  }

  lemma RecordLayout(r: Record)
    requires r.id < 0x80 && |r.key| < 0x80 && |r.value| < 0x80
    ensures EncRecord(r) == [r.id, |r.key|] + r.key + [|r.value|] + r.value
  {
  }
}

/** `recover`: rebuilding the log from a file that may end in the middle of an entry. */
module Recovery {
  import opened Bytes
  import opened RaftTypes
  import opened Options
  import opened Codec

  /** All entries that can be read from the front, until the first that cannot. */
  function Replay(s: seq<Byte>): seq<LogEntry>
    decreases |s|
  {
    match DecEntry(s)
    case None => []
    case Some((e, rest)) => [e] + Replay(rest)
  }

  lemma {:induction false} ReplayWhole(es: seq<LogEntry>, rest: seq<Byte>)
    requires EntriesOk(es)
    ensures Replay(EncEach(es) + rest) == es + Replay(rest)
    decreases |es|
  {
    hide DecEntry, EncEntry;
    if es == [] {
      assert EncEach(es) + rest == rest;
    } else {
      var tail := EncEach(es[1..]) + rest;
      assert EncEach(es) + rest == EncEntry(es[0]) + tail;
      EntryInverts(es[0], tail);
      ReplayWhole(es[1..], rest);
    }
  }

  /**
   From any prefix of the written file, recovery rebuilds exactly the entries that lie wholly
   within it: they fit, and the next one does not.
   */
  lemma {:induction false} TornFile(es: seq<LogEntry>, k: nat)
    requires EntriesOk(es) && k <= |EncEach(es)|
    ensures
      var log := Replay(EncEach(es)[..k]);
      && log <= es && |EncEach(log)| <= k
      && (|log| < |es| ==> EntriesOk(es[..|log| + 1]) && k < |EncEach(es[..|log| + 1])|)
    decreases |es|
  {
    hide DecEntry, EncEntry;
    if es == [] {
      NothingLeft();
    } else {
      var e := EncEntry(es[0]);
      if k < |e| {
        assert EncEach(es)[..k] == e[..k];
        EntryTorn(es[0], k);
        EachCons(es[0], []);
      } else {
        var tail := EncEach(es[1..])[..k - |e|];
        assert EncEach(es)[..k] == e + tail;
        EntryInverts(es[0], tail);
        TornFile(es[1..], k - |e|);
        var log := Replay(tail);
        EachCons(es[0], log);
        if |log| < |es| - 1 {
          EachCons(es[0], es[1..][..|log| + 1]);
          assert es[..|log| + 2] == [es[0]] + es[1..][..|log| + 1];
        }
      }
    }
  }

  lemma EachCons(e: LogEntry, es: seq<LogEntry>)
    requires EntryOk(e) && EntriesOk(es)
    ensures EntriesOk([e] + es) && EncEach([e] + es) == EncEntry(e) + EncEach(es)
  {
    assert ([e] + es)[1..] == es;
  }

  lemma NothingLeft()
    ensures Replay([]) == []
  {
    assert DecGroups([], 5) == None;
  }

  /** A file that was written completely is recovered completely. */
  lemma WholeFile(es: seq<LogEntry>)
    requires EntriesOk(es)
    ensures Replay(EncEach(es)) == es
  {
    ReplayWhole(es, []);
    NothingLeft();
    assert EncEach(es) + [] == EncEach(es);
  }
}
