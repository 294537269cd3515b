/**
 Section 7 of the Raft paper: a log compacted up to an index it holds answers every
 later question as the whole log does.
 */
module RaftCompaction {
  import opened Bytes
  import opened RaftTypes
  import opened RaftNode

  /** Entry (index, term) is in the log. */
  ghost predicate Holds(log: seq<LogEntry>, index: int, term: int) {
    Contiguous(log) && 0 <= index - log[0].index < |log| && log[index - log[0].index].term == term
  }

  lemma {:induction false} AfterOffset(log: seq<LogEntry>, index: int, term: int)
    requires log != [] && (forall i :: 0 <= i < |log| ==> log[i].index == log[0].index + i)
    requires 0 <= index - log[0].index < |log| && log[index - log[0].index].term == term
    ensures After(log, index, term) == log[index - log[0].index + 1..]
    decreases |log|
  {
    var off := index - log[0].index;
    if off > 0 {
      AfterOffset(log[1..], index, term);
      assert log[1..][off..] == log[off + 1..];
    }
  }

  /** Compaction keeps the terms from its base on, the entries after it and the last index and term. */
  lemma CompactKeeps(log: seq<LogEntry>, index: int, term: int)
    requires Holds(log, index, term)
    ensures
      var c, off := Compact(log, index, term), index - log[0].index;
      && Contiguous(c) && c[0].index == index && c[1..] == log[off + 1..] && |c| == |log| - off
      && (forall i :: 0 <= i < |c| ==> c[i].term == log[off + i].term && c[i].index == log[off + i].index)
      && Last(c).index == Last(log).index && Last(c).term == Last(log).term
  {
    AfterOffset(log, index, term);
  }

  /** A compacted server answers every vote request as before. */
  lemma VotesUnaffected(n: Node, index: int, term: int, a: VoteArgs)
    requires Holds(n.log, index, term)
    ensures
      var c := Compact(n.log, index, term);
      var (m, reply) := RequestVote(n, a);
      RequestVote(n.(log := c), a) == (m.(log := c), reply)
  {
    CompactKeeps(n.log, index, term);
  }

  /**
   A compacted server accepts exactly the appends at or above its base that it accepted before,
   and compacting commutes with accepting: the log it ends with is the compacted old result.
   */
  lemma AppendsUnaffected(n: Node, index: int, term: int, a: AppendArgs, unset: int)
    requires Holds(n.log, index, term) && a.prevLogIndex >= index
    ensures
      var c := Compact(n.log, index, term);
      var (m, reply) := AppendLog(n, a, unset);
      && Contiguous(c)
      && var (m', reply') := AppendLog(n.(log := c), a, unset);
      && reply'.success == reply.success && reply'.term == reply.term
      && (reply.success ==> reply' == reply && Compact(m.log, index, term) == m'.log)
      && m' == m.(log := if reply.success then m'.log else c)
  {
    hide MatchLog, Compact;
    CompactKeeps(n.log, index, term);
    if a.term >= n.currentTerm { MatchUnaffected(HearLeader(n, a), index, term, a, unset); }
  }

  lemma MatchUnaffected(n: Node, index: int, term: int, a: AppendArgs, unset: int)
    requires Holds(n.log, index, term) && a.prevLogIndex >= index
    ensures
      var c := Compact(n.log, index, term);
      var (m, reply) := MatchLog(n, a, unset);
      && Contiguous(c)
      && var (m', reply') := MatchLog(n.(log := c), a, unset);
      && reply'.success == reply.success && reply'.term == reply.term
      && (reply.success ==> reply' == reply && Compact(m.log, index, term) == m'.log && m' == m.(log := m'.log))
      && (!reply.success ==> m == n && m' == n.(log := c))
  {
    hide Scan, Compact;
    CompactKeeps(n.log, index, term);
    if a.prevLogIndex <= Last(n.log).index && a.prevLogTerm == n.log[a.prevLogIndex - n.log[0].index].term {
      SpliceCommutes(n.log, index, term, a.prevLogIndex, a.entries);
    }
  }

  lemma {:induction false} AfterSplice(pre: seq<LogEntry>, post: seq<LogEntry>, index: int, term: int)
    requires exists i :: 0 <= i < |pre| && pre[i].index == index && pre[i].term == term
    ensures After(pre + post, index, term) == After(pre, index, term) + post
    decreases |pre|
  {
    assert (pre + post)[1..] == pre[1..] + post;
    if !(pre[0].term == term && pre[0].index == index) {
      var i :| 0 <= i < |pre| && pre[i].index == index && pre[i].term == term;
      assert pre[1..][i - 1] == pre[i];
      AfterSplice(pre[1..], post, index, term);
    }
  }

  lemma SpliceCommutes(log: seq<LogEntry>, index: int, term: int, prev: int, entries: seq<LogEntry>)
    requires Holds(log, index, term) && index <= prev <= Last(log).index
    ensures
      var c := Compact(log, index, term);
      && Contiguous(c) && prev - index + 1 <= |c|
      && Compact(log[..prev - log[0].index + 1] + entries, index, term) == c[..prev - index + 1] + entries
  {
    hide After;
    CompactKeeps(log, index, term);
    var off, pre := index - log[0].index, log[..prev - log[0].index + 1];
    assert pre[off] == log[off];
    AfterSplice(pre, entries, index, term);
    AfterOffset(pre, index, term);
    AfterOffset(log, index, term);
    ConsPrefix(LogEntry(index, term, []), log, off + 1, prev - log[0].index + 1);
  }

  lemma ConsPrefix(e: LogEntry, log: seq<LogEntry>, a: nat, b: nat)
    requires a <= b <= |log|
    ensures ([e] + log[a..])[..b - a + 1] == [e] + log[..b][a..]
  {
  }

  /** A compacted leader sends a peer past the base the same request. */
  lemma RequestsUnaffected(n: Node, index: int, term: int, peer: nat)
    requires Holds(n.log, index, term) && peer < |n.nextIndex| && index < n.nextIndex[peer] <= Last(n.log).index + 1
    ensures
      var c := Compact(n.log, index, term);
      Contiguous(c) && c[0].index == index && Last(c).index == Last(n.log).index
      && HeartBeat(n.(log := c), peer) == HeartBeat(n, peer)
  {
    hide Compact;
    CompactKeeps(n.log, index, term);
    var c, off, p := Compact(n.log, index, term), index - n.log[0].index, n.nextIndex[peer] - 1;
    SameTail(c, n.log, off, p - index + 1);
  }

  lemma SameTail(c: seq<LogEntry>, log: seq<LogEntry>, off: nat, j: nat)
    requires off < |log| && c != [] && c[1..] == log[off + 1..] && 1 <= j <= |c|
    ensures c[j..] == log[off + j..]
  {
    assert c[j..] == c[1..][j - 1..];
    assert log[off + j..] == log[off + 1..][j - 1..];
  }

  lemma {:induction false} CompactWithoutEntry(log: seq<LogEntry>, index: int, term: int)
    requires forall i :: 0 <= i < |log| ==> log[i].index != index || log[i].term != term
    ensures Compact(log, index, term) == [LogEntry(index, term, [])]
  {
    if log != [] { CompactWithoutEntry(log[1..], index, term); }
  }

  /**
   The lock is given up between reading the term at `index` and rebuilding the log, so the log may
   have changed.  Compaction then keeps the last index exactly when the entry is still held or its
   index is the last one; otherwise only the base is left.
   */
  lemma CompactKeepsIff(log: seq<LogEntry>, index: int, term: int)
    requires Contiguous(log)
    ensures Last(Compact(log, index, term)).index == Last(log).index <==> Holds(log, index, term) || index == Last(log).index
    ensures !Holds(log, index, term) ==> Compact(log, index, term) == [LogEntry(index, term, [])]
  {
    hide Compact;
    if Holds(log, index, term) {
      CompactKeeps(log, index, term);
    } else {
      assert forall i :: 0 <= i < |log| && log[i].index == index ==> i == index - log[0].index;
      CompactWithoutEntry(log, index, term);
    }
  }
}
