/**
 The mutable state of one Raft server as a value, and each handler of
 source/raft/raft_server.cpp as a function on that value.  Module `RaftServer`
 proves that the imperative handlers compute these functions; the cluster model
 is built from them.
 */
module RaftNode {
  import opened Bytes
  import opened RaftTypes

  /**
   A run of `applyLog` on its way: the offset it pushes next, the offset it stops behind, and the commit
   index it will record.
   */
  datatype ApplyRun = ApplyRun(at: int, last: int, commit: int)

  /** `applying` lists the open runs of `applyLog`, and `applied` all entries pushed into `m_chan` so far. */
  datatype Node = Node(
    id: int, size: nat, currentTerm: int, votedFor: int, log: seq<LogEntry>,
    commitIndex: int, lastApplied: int, nextIndex: seq<int>, matchIndex: seq<int>,
    role: Role, voteCount: int, leaseTime: bool, applying: seq<ApplyRun>, applied: seq<LogEntry>)

  const SENTINEL := LogEntry(0, 0, [])

  function Init(id: int, size: nat, lease: bool): Node {
    Node(id, size, 0, -1, [SENTINEL], 0, 0, [], [], Follower, 0, lease, [], [])
  }

  /** The indices of a log run on from its base without a gap. */
  predicate Contiguous(log: seq<LogEntry>) {
    && log != []
    && forall i :: 0 <= i < |log| ==> log[i].index == log[0].index + i
  }

  function Last(log: seq<LogEntry>): LogEntry
    requires log != []
  {
    log[|log| - 1]
  }

  /** `isUptoMe`: a log ending in (index, term) is at least as recent as `log`. */
  predicate UpToDate(log: seq<LogEntry>, index: int, term: int)
    requires log != []
  {
    term > Last(log).term || (term == Last(log).term && index >= Last(log).index)
  }

  function EnterTerm(n: Node, term: int, votedFor: int): Node {
    n.(currentTerm := term, role := Follower, votedFor := votedFor)
  }

  // ----- Elections -----

  /** The timer's self vote, which leaves the term alone. */
  function SelfVote(n: Node): Node {
    n.(votedFor := n.id)
  }

  function StartElection(n: Node): (Node, VoteArgs)
    requires n.log != []
  {
    var m := n.(role := Candidate, currentTerm := n.currentTerm + 1, votedFor := n.id, voteCount := 1);
    (m, VoteArgs(m.currentTerm, m.id, Last(m.log).index, Last(m.log).term))
  }

  function RequestVote(n: Node, a: VoteArgs): (Node, VoteReply)
    requires n.log != []
  {
    if a.term < n.currentTerm || n.leaseTime then
      (n, VoteReply(n.currentTerm, false))
    else
      var m := if a.term > n.currentTerm then EnterTerm(n, a.term, -1) else n;
      if (m.votedFor == -1 || m.votedFor == a.candidateId) && UpToDate(m.log, a.lastLogIndex, a.lastLogTerm) then
        (m.(role := Follower, votedFor := a.candidateId), VoteReply(m.currentTerm, true))
      else
        (m, VoteReply(m.currentTerm, false))
  }

  function HandleVoteReply(n: Node, r: VoteReply): Node
    requires n.log != []
  {
    if r.term < n.currentTerm then n
    else if r.term > n.currentTerm then EnterTerm(n, r.term, -1)
    else if n.role == Candidate && r.voteGranted then
      var m := n.(voteCount := n.voteCount + 1);
      if m.voteCount > n.size / 2 then
        m.(role := Leader,
           nextIndex := seq(n.size, _ => Last(n.log).index + 1),
           matchIndex := seq(n.size, _ => 0))
      else m
    else n
  }

  // ----- Replication -----

  /** `start(DB_log)` on the leader; any other role refuses. */
  function Append(n: Node, value: seq<Byte>): Node
    requires n.log != []
  {
    if n.role == Leader then
      n.(log := n.log + [LogEntry(Last(n.log).index + 1, n.currentTerm, value)])
    else n
  }

  /** The request that `boardcastHeartBeat` builds for a peer whose next index is above the base. */
  function HeartBeat(n: Node, peer: nat): AppendArgs
    requires Contiguous(n.log) && peer < |n.nextIndex|
    requires n.log[0].index < n.nextIndex[peer] <= Last(n.log).index + 1
  {
    var base := n.log[0].index;
    var prev := n.nextIndex[peer] - 1;
    AppendArgs(n.currentTerm, n.id, prev, n.log[prev - base].term, n.log[prev - base + 1..], n.commitIndex)
  }

  /** The offset at or below `i` whose term differs from `term`; -1 when there is none. */
  function Scan(log: seq<LogEntry>, i: int, term: int): (r: int)
    requires -1 <= i < |log|
    ensures -1 <= r <= i
    ensures r >= 0 ==> log[r].term != term
    ensures forall k :: r < k <= i ==> log[k].term == term
    decreases i + 1
  {
    if i < 0 || log[i].term != term then i else Scan(log, i - 1, term)
  }

  /** A request of the current or a later term renews the lease; a later one makes its sender the leader followed. */
  function HearLeader(n: Node, a: AppendArgs): Node {
    var leased := n.(leaseTime := true);
    if a.term > n.currentTerm then EnterTerm(leased, a.term, a.leaderId) else leased
  }

  /** `unset` is what the uninitialised `reply.nextTryLog` happens to hold. */
  function AppendLog(n: Node, a: AppendArgs, unset: int): (Node, AppendReply)
    requires Contiguous(n.log)
  {
    if a.term < n.currentTerm then (n, AppendReply(n.currentTerm, false, Last(n.log).index + 1))
    else MatchLog(HearLeader(n, a), a, unset)
  }

  /** The part of `appendlog` that compares the logs and splices in the entries. */
  function MatchLog(n: Node, a: AppendArgs, unset: int): (Node, AppendReply)
    requires Contiguous(n.log)
  {
    var base := n.log[0].index;
    if a.prevLogIndex > Last(n.log).index then
      (n, AppendReply(n.currentTerm, false, Last(n.log).index + 1))
    else if a.prevLogIndex >= base && a.prevLogTerm != n.log[a.prevLogIndex - base].term then
      var off := a.prevLogIndex - base;
      var r := Scan(n.log, off - 1, n.log[off].term);
      (n, AppendReply(n.currentTerm, false, if r >= 0 then base + r + 1 else unset))
    else if a.prevLogIndex >= base - 1 then
      (Accept(n, a), AppendReply(n.currentTerm, true, a.prevLogIndex + |a.entries|))
    else
      (n, AppendReply(n.currentTerm, false, unset))
  }

  /** The request is of the term in which the log ends, and reaches less far than the log. */
  predicate CutsShort(n: Node, a: AppendArgs)
    requires n.log != []
  {
    Last(n.log).term == a.term && Last(n.log).index > a.prevLogIndex + |a.entries|
  }

  /** Cut the log after `prevLogIndex`, add the entries, follow the leader's commit index. */
  function Accept(n: Node, a: AppendArgs): Node
    requires Contiguous(n.log)
    requires n.log[0].index - 1 <= a.prevLogIndex <= Last(n.log).index
  {
    var log := n.log[..a.prevLogIndex - n.log[0].index + 1] + a.entries;
    if n.commitIndex < a.leaderCommit && log != [] then
      var last := Last(log).index;
      n.(log := log, commitIndex := if a.leaderCommit <= last then a.leaderCommit else last)
    else
      n.(log := log)
  }

  /** How many servers, the leader included, are known to hold index `at`; peers below `upTo` are counted. */
  function Replicas(n: Node, at: int, upTo: nat): nat
    requires upTo <= |n.matchIndex|
  {
    if upTo == 0 then 1
    else Replicas(n, at, upTo - 1) + (if upTo - 1 != n.id && n.matchIndex[upTo - 1] >= at then 1 else 0)
  }

  /** The commit counting loop, scanning down from index `at`. */
  function CommitScan(n: Node, at: int): int
    requires Contiguous(n.log)
    requires n.log[0].index <= n.commitIndex && at <= Last(n.log).index
    decreases at - n.commitIndex
  {
    if at <= n.commitIndex || n.log[at - n.log[0].index].term != n.currentTerm then n.commitIndex
    else if Replicas(n, at, |n.matchIndex|) > n.size / 2 then at
    else CommitScan(n, at - 1)
  }

  /** `sendAppendLogEntry` once the reply of `peer` to `a` has arrived. */
  function HandleAppendReply(n: Node, peer: nat, a: AppendArgs, r: AppendReply): Node
    requires Contiguous(n.log) && n.log[0].index <= n.commitIndex
    requires n.role == Leader ==> peer < |n.nextIndex| && peer < |n.matchIndex|
  {
    if n.role != Leader || a.term != n.currentTerm then n
    else if r.term > n.currentTerm then EnterTerm(n, r.term, -1)
    else
      var m := Note(n, peer, a, r);
      m.(commitIndex := CommitScan(m, Last(m.log).index))
  }

  /** What a reply teaches the leader about one peer. */
  function Note(n: Node, peer: nat, a: AppendArgs, r: AppendReply): Node
    requires n.log != [] && peer < |n.nextIndex| && peer < |n.matchIndex|
  {
    if r.success then
      if a.entries == [] then n
      else
        n.(nextIndex := n.nextIndex[peer := Last(a.entries).index + 1],
           matchIndex := n.matchIndex[peer := Last(a.entries).index])
    else
      var last := Last(n.log).index;
      n.(nextIndex := n.nextIndex[peer := if r.nextTryLog <= last then r.nextTryLog else last])
  }

  // ----- Compaction -----

  /** The entries after the first one with this index and term. */
  function After(log: seq<LogEntry>, index: int, term: int): seq<LogEntry> {
    if log == [] then []
    else if log[0].term == term && log[0].index == index then log[1..]
    else After(log[1..], index, term)
  }

  /** The log with everything up to (index, term) replaced by an empty base entry. */
  function Compact(log: seq<LogEntry>, index: int, term: int): seq<LogEntry> {
    [LogEntry(index, term, [])] + After(log, index, term)
  }

  // ----- Applying -----

  /** `applyLog` takes the lock to read both indices. */
  function BeginApply(n: Node): Node
    requires n.log != []
  {
    var base := n.log[0].index;
    n.(applying := n.applying + [ApplyRun(n.lastApplied - base + 1, n.commitIndex - base, n.commitIndex)])
  }

  /** The test of its loop. */
  predicate MorePushes(n: Node, j: nat)
    requires j < |n.applying|
  {
    n.applying[j].at <= n.applying[j].last && n.applying[j].at < |n.log|
  }

  /** One turn of its loop, without the lock. */
  function PushApply(n: Node, j: nat): Node
    requires j < |n.applying| && 0 <= n.applying[j].at < |n.log|
  {
    var run := n.applying[j];
    n.(applied := n.applied + [n.log[run.at]], applying := n.applying[j := run.(at := run.at + 1)])
  }

  /** It takes the lock again to record what it applied. */
  function EndApply(n: Node, j: nat): Node
    requires j < |n.applying|
  {
    n.(lastApplied := n.applying[j].commit, applying := n.applying[..j] + n.applying[j + 1..])
  }
}
