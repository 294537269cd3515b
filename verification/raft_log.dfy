/**
 Section 5.3 of the Raft paper: log matching.  The invariant compares every log
 with the log of the leader that created its entries: the part of a log that
 ends in an entry of term t is a prefix of what the leader of t held.
 */
module RaftLog {
  import opened Bytes
  import opened RaftTypes
  import opened RaftNode
  import opened RaftCluster
  import opened RaftHistory
  import opened RaftElection

  ghost predicate WfLog(l: seq<LogEntry>) {
    && l != [] && l[0] == SENTINEL
    && (forall i :: 0 <= i < |l| ==> l[i].index == i)
    && (forall i :: 1 <= i < |l| ==> l[i].term >= 1)
    && (forall i, j :: 0 <= i < j < |l| ==> l[i].term <= l[j].term)
  }

  ghost predicate FromLeaders(h: History, l: seq<LogEntry>) {
    forall i :: 1 <= i < |l| ==> l[i].term in h.termLog && l[..i + 1] <= h.termLog[l[i].term]
  }

  ghost predicate Consistent(h: History, l: seq<LogEntry>) {
    WfLog(l) && FromLeaders(h, l)
  }

  /** The log with which the leader of term t won. */
  ghost function ElectLog(h: History, t: int): seq<LogEntry>
    requires t in h.leaderOf && (t, h.leaderOf[t]) in h.candLog
  {
    h.candLog[(t, h.leaderOf[t])]
  }

  ghost predicate TermOk(h: History, t: int)
    requires t in h.termLog
  {
    && t in h.leaderOf && (t, h.leaderOf[t]) in h.candLog
    && Consistent(h, h.termLog[t])
    && ElectLog(h, t) <= h.termLog[t]
    && (forall i :: |ElectLog(h, t)| <= i < |h.termLog[t]| ==> h.termLog[t][i].term == t)
  }

  ghost predicate CandLogOk(h: History, t: int, c: nat)
    requires (t, c) in h.candLog
  {
    Consistent(h, h.candLog[(t, c)]) && forall i :: 0 <= i < |h.candLog[(t, c)]| ==> h.candLog[(t, c)][i].term < t
  }

  ghost predicate NodeLogOk(h: History, n: Node, i: nat, size: nat) {
    && WellFormedNode(n, i, size)
    && Consistent(h, n.log)
    && (forall k :: 0 <= k < |n.log| ==> n.log[k].term <= n.currentTerm)
    && (n.role == Leader ==>
          && n.currentTerm in h.termLog && h.termLog[n.currentTerm] == n.log
          && forall p :: 0 <= p < |n.nextIndex| ==> 1 <= n.nextIndex[p] <= |n.log|)
    && ((n.currentTerm, i) in h.candLog && n.currentTerm !in h.leaderOf ==> n.log == h.candLog[(n.currentTerm, i)])
  }

  ghost predicate NodeAt(s: Cluster, h: History, i: nat)
    requires i < |s.nodes|
  {
    NodeLogOk(h, s.nodes[i], i, |s.nodes|)
  }

  /** Index of the last entry an append request carries, or of the one it presupposes. */
  function SentLast(a: AppendArgs): int {
    a.prevLogIndex + |a.entries|
  }

  ghost predicate RequestMatches(h: History, a: AppendArgs) {
    && a.term in h.termLog
    && 0 <= a.prevLogIndex && SentLast(a) < |h.termLog[a.term]|
    && a.prevLogTerm == h.termLog[a.term][a.prevLogIndex].term
    && a.entries == h.termLog[a.term][a.prevLogIndex + 1..SentLast(a) + 1]
  }

  ghost predicate AppendOk(s: Cluster, h: History, m: AppendRequest) {
    && m.src < |s.nodes| && m.dst < |s.nodes| && m.src != m.dst
    && RequestMatches(h, m.args)
    && m.args.term in h.leaderOf && h.leaderOf[m.args.term] == m.src
    && (m.args.term, m.src) in h.candLog && |ElectLog(h, m.args.term)| <= SentLast(m.args) + 1
  }

  ghost predicate AppendAt(s: Cluster, h: History, k: nat)
    requires k < |s.appends|
  {
    AppendOk(s, h, s.appends[k])
  }

  ghost predicate AckOk(s: Cluster, r: AppendAnswer) {
    && r.sent < |s.appends|
    && var a := s.appends[r.sent].args;
    && r.reply.term >= a.term
    && (!r.reply.success && r.reply.term == a.term ==> 1 <= r.reply.nextTryLog <= a.prevLogIndex)
  }

  ghost predicate TermsInv(h: History) {
    && h.leaderOf.Keys == h.termLog.Keys
    && (forall t: int :: t in h.termLog ==> TermOk(h, t))
    && (forall t: int, c: nat :: (t, c) in h.candLog ==> CandLogOk(h, t, c))
  }
  ghost predicate NodesInv(s: Cluster, h: History) {
    forall i: nat :: i < |s.nodes| ==> NodeAt(s, h, i)
  }
  ghost predicate AppendsInv(s: Cluster, h: History) {
    && (forall k: nat :: k < |s.appends| ==> AppendAt(s, h, k))
    && (forall r :: r in s.appendAnswers ==> AckOk(s, r))
    && (forall j, k :: 0 <= j < k < |s.appends| && s.appends[j].args.term == s.appends[k].args.term
          ==> SentLast(s.appends[j].args) <= SentLast(s.appends[k].args))
  }
  ghost predicate LogInv(s: Cluster, h: History) {
    TermsInv(h) && NodesInv(s, h) && AppendsInv(s, h)
  }

  /** The safety invariant of arbitrary runs. */
  ghost predicate Inv(s: Cluster, h: History) {
    WellFormed(s) && ElectionInv(s, h) && LogInv(s, h)
  }

  // ----- Facts about matching logs -----

  /** Two logs with an entry of the same index and term agree up to it. */
  lemma LogsAgree(h: History, a: seq<LogEntry>, b: seq<LogEntry>, p: nat)
    requires Consistent(h, a) && Consistent(h, b) && p < |a| && p < |b| && a[p].term == b[p].term
    ensures a[..p + 1] == b[..p + 1]
  {
    if p >= 1 {
      var l := h.termLog[a[p].term];
      assert a[..p + 1] <= l && b[..p + 1] <= l;
      assert a[..p + 1] == l[..p + 1] == b[..p + 1];
    }
  }

  /** An accepted append leaves exactly the leader's log as it was when the request was sent. */
  lemma AcceptCopiesLeader(h: History, log: seq<LogEntry>, a: AppendArgs)
    requires Consistent(h, log) && RequestMatches(h, a) && Consistent(h, h.termLog[a.term])
    requires a.prevLogIndex < |log| && log[a.prevLogIndex].term == a.prevLogTerm
    ensures log[..a.prevLogIndex + 1] + a.entries == h.termLog[a.term][..SentLast(a) + 1]
  {
    LogsAgree(h, log, h.termLog[a.term], a.prevLogIndex);
  }

  lemma PrefixConsistent(h: History, l: seq<LogEntry>, k: nat)
    requires Consistent(h, l) && 1 <= k <= |l|
    ensures Consistent(h, l[..k])
  {
    var p := l[..k];
    forall i | 1 <= i < |p| ensures p[i].term in h.termLog && p[..i + 1] <= h.termLog[p[i].term] {
      assert p[i] == l[i] && p[..i + 1] == l[..i + 1];
    }
  }

  /** Terms keep their leaders, candidates keep their logs, leader logs only grow. */
  ghost predicate Grows(h: History, h': History) {
    && (forall t: int, v: nat :: (t, v) in h.votes ==> (t, v) in h'.votes && h'.votes[(t, v)] == h.votes[(t, v)])
    && (forall t: int, c: nat :: (t, c) in h.candLog ==> (t, c) in h'.candLog && h'.candLog[(t, c)] == h.candLog[(t, c)])
    && (forall t: int :: t in h.leaderOf ==> t in h'.leaderOf && h'.leaderOf[t] == h.leaderOf[t])
    && (forall t: int :: t in h.termLog ==> t in h'.termLog && h.termLog[t] <= h'.termLog[t])
  }

  lemma ConsistentGrows(h: History, h': History, l: seq<LogEntry>)
    requires Consistent(h, l) && Grows(h, h')
    ensures Consistent(h', l)
  {
    forall i | 1 <= i < |l| ensures l[i].term in h'.termLog && l[..i + 1] <= h'.termLog[l[i].term] {
      assert l[..i + 1] <= h.termLog[l[i].term];
    }
  }

  lemma AppendOkGrows(s: Cluster, s': Cluster, h: History, h': History, m: AppendRequest)
    requires AppendOk(s, h, m) && Grows(h, h') && |s'.nodes| == |s.nodes|
    ensures AppendOk(s', h', m)
  {
    var t := m.args.term;
    assert h.termLog[t] == h'.termLog[t][..|h.termLog[t]|];
  }
}
