/**
 Section 5.4 of the Raft paper: what is committed survives every later election.
 The argument is an invariant over the history.  An entry that the leader of
 term t created at index n is in the log a later leader was elected with, unless
 a quorum has left term t without ever taking that entry over; in the second
 case it never becomes committed.
 */
module RaftCommit {
  import opened Bytes
  import opened RaftTypes
  import opened RaftNode
  import opened RaftCluster
  import opened RaftHistory
  import opened RaftElection
  import opened RaftLog
  import opened RaftLogSteps

  /** Index n of the log of term t was created in term t. */
  ghost predicate Own(h: History, t: int, n: int) {
    && t in h.termLog && t in h.leaderOf && (t, h.leaderOf[t]) in h.candLog
    && |ElectLog(h, t)| <= n < |h.termLog[t]|
  }

  ghost predicate Acked(h: History, t: int, v: nat, n: int) {
    (t, v) in h.acks && n <= h.acks[(t, v)]
  }

  ghost predicate Passed(s: Cluster, h: History, t: int, n: int, q: set<nat>) {
    Quorum(|s.nodes|, q) && forall v :: v in q ==> s.nodes[v].currentTerm > t && !Acked(h, t, v, n)
  }

  /** A quorum has left term t without index n. */
  ghost predicate Dead(s: Cluster, h: History, t: int, n: int) {
    exists q :: Passed(s, h, t, n, q)
  }

  ghost predicate Survives(s: Cluster, h: History, t: int, n: int, l: seq<LogEntry>)
    requires Own(h, t, n)
  {
    h.termLog[t][..n + 1] <= l || Dead(s, h, t, n)
  }

  /** A quorum holds index n of the leader of t, and that entry is of term t. */
  ghost predicate Committed(s: Cluster, h: History, t: int, n: int) {
    Own(h, t, n) && exists q :: HeldBy(s, h, t, n, q)
  }

  ghost predicate HeldBy(s: Cluster, h: History, t: int, n: int, q: set<nat>) {
    Quorum(|s.nodes|, q) && forall v :: v in q ==> Acked(h, t, v, n)
  }

  lemma CommittedNotDead(s: Cluster, h: History, t: int, n: int)
    requires Committed(s, h, t, n)
    ensures !Dead(s, h, t, n)
  {
    if Dead(s, h, t, n) {
      var q :| HeldBy(s, h, t, n, q);
      var p :| Passed(s, h, t, n, p);
      var v := QuorumsMeet(|s.nodes|, p, q);
    }
  }

  // ----- Survival invariants -----

  ghost predicate AckAt(s: Cluster, h: History, t: int, v: nat)
    requires (t, v) in h.acks
  {
    var n := h.acks[(t, v)];
    && v < |s.nodes| && t in h.termLog && t in h.leaderOf && 0 <= n < |h.termLog[t]| && t <= s.nodes[v].currentTerm
    && (t == s.nodes[v].currentTerm ==> s.nodes[v].log == h.termLog[t][..n + 1])
    && (v == h.leaderOf[t] || exists k :: k in h.handled && TookFrom(s, t, v, n, k))
  }

  ghost predicate TookFrom(s: Cluster, t: int, v: nat, n: int, k: nat) {
    k < |s.appends| && s.appends[k].dst == v && s.appends[k].args.term == t && SentLast(s.appends[k].args) == n
  }

  ghost predicate LogKeeps(s: Cluster, h: History, v: nat)
    requires v < |s.nodes|
  {
    forall t: int, n: int :: Own(h, t, n) && Acked(h, t, v, n) ==> Survives(s, h, t, n, s.nodes[v].log)
  }

  ghost predicate VoteKeeps(s: Cluster, h: History, t': int, v: nat)
    requires (t', v) in h.votes
  {
    (t', h.votes[(t', v)]) in h.candLog
    && forall t: int, n: int :: t < t' && Own(h, t, n) && Acked(h, t, v, n)
         ==> Survives(s, h, t, n, h.candLog[(t', h.votes[(t', v)])])
  }

  ghost predicate LeaderKeeps(s: Cluster, h: History, t': int)
    requires t' in h.leaderOf && (t', h.leaderOf[t']) in h.candLog
  {
    forall t: int, n: int :: t < t' && Own(h, t, n) ==> Survives(s, h, t, n, ElectLog(h, t'))
  }

  ghost predicate AcksInv(s: Cluster, h: History) {
    forall t: int, v: nat :: (t, v) in h.acks ==> AckAt(s, h, t, v)
  }
  ghost predicate LogsKeep(s: Cluster, h: History) {
    forall v: nat :: v < |s.nodes| ==> LogKeeps(s, h, v)
  }
  ghost predicate VotesKeep(s: Cluster, h: History) {
    forall t': int, v: nat :: (t', v) in h.votes ==> VoteKeeps(s, h, t', v)
  }
  ghost predicate LeadersKeep(s: Cluster, h: History) {
    forall t': int :: t' in h.leaderOf ==> (t', h.leaderOf[t']) in h.candLog && LeaderKeeps(s, h, t')
  }
  ghost predicate SurvivalInv(s: Cluster, h: History) {
    AcksInv(s, h) && LogsKeep(s, h) && VotesKeep(s, h) && LeadersKeep(s, h)
  }

  // ----- How survival carries over a step -----

  /** Terms rise, leader logs grow, and only a server still in term t gains an ack for t. */
  ghost predicate Later(s: Cluster, h: History, s': Cluster, h': History) {
    && |s'.nodes| == |s.nodes| && Grows(h, h')
    && (forall v: nat :: v < |s.nodes| ==> s.nodes[v].currentTerm <= s'.nodes[v].currentTerm)
    && (forall t: int, v: nat, n: int :: v < |s.nodes| && Acked(h', t, v, n) && !Acked(h, t, v, n) ==> s.nodes[v].currentTerm <= t)
  }

  lemma SurvivesLater(s: Cluster, h: History, s': Cluster, h': History, t: int, n: int, l: seq<LogEntry>, l': seq<LogEntry>)
    requires Later(s, h, s', h') && Own(h, t, n) && Survives(s, h, t, n, l)
    requires h.termLog[t][..n + 1] <= l ==> l <= l'
    ensures Own(h', t, n) && Survives(s', h', t, n, l')
  {
    assert h'.termLog[t][..n + 1] == h.termLog[t][..n + 1];
    if Dead(s, h, t, n) {
      var q :| Passed(s, h, t, n, q);
      assert Passed(s', h', t, n, q);
    }
  }

  /** Histories in which no leader created a new entry. */
  ghost predicate SameOwn(h: History, h': History) {
    forall t: int, n: int :: Own(h', t, n) ==> Own(h, t, n)
  }

  lemma VoteKeepsLater(s: Cluster, h: History, s': Cluster, h': History, t': int, v: nat)
    requires Later(s, h, s', h') && SameOwn(h, h') && (t', v) in h.votes && VoteKeeps(s, h, t', v)
    requires v < |s.nodes| && t' <= s.nodes[v].currentTerm
    ensures (t', v) in h'.votes && VoteKeeps(s', h', t', v)
  {
    var l := h.candLog[(t', h.votes[(t', v)])];
    forall t: int, n: int | t < t' && Own(h', t, n) && Acked(h', t, v, n) ensures Survives(s', h', t, n, l) {
      SurvivesLater(s, h, s', h', t, n, l, l);
    }
  }

  lemma LeaderKeepsLater(s: Cluster, h: History, s': Cluster, h': History, t': int)
    requires Later(s, h, s', h') && SameOwn(h, h')
    requires t' in h.leaderOf && (t', h.leaderOf[t']) in h.candLog && LeaderKeeps(s, h, t')
    ensures t' in h'.leaderOf && (t', h'.leaderOf[t']) in h'.candLog && LeaderKeeps(s', h', t')
  {
    var l := ElectLog(h, t');
    forall t: int, n: int | t < t' && Own(h', t, n) ensures Survives(s', h', t, n, ElectLog(h', t')) {
      SurvivesLater(s, h, s', h', t, n, l, l);
    }
  }

  lemma LogKeepsLater(s: Cluster, h: History, s': Cluster, h': History, v: nat)
    requires Later(s, h, s', h') && SameOwn(h, h') && v < |s.nodes| && LogKeeps(s, h, v)
    requires s'.nodes[v].log == s.nodes[v].log
    requires forall t: int, n: int :: Acked(h', t, v, n) ==> Acked(h, t, v, n)
    ensures LogKeeps(s', h', v)
  {
    forall t: int, n: int | Own(h', t, n) && Acked(h', t, v, n) ensures Survives(s', h', t, n, s'.nodes[v].log) {
      SurvivesLater(s, h, s', h', t, n, s.nodes[v].log, s.nodes[v].log);
    }
  }

  lemma AckLater(s: Cluster, h: History, s': Cluster, h': History, t: int, v: nat)
    requires Later(s, h, s', h') && (t, v) in h.acks && AckAt(s, h, t, v)
    requires (t, v) in h'.acks && h'.acks[(t, v)] == h.acks[(t, v)] && h.handled <= h'.handled && s.appends <= s'.appends
    requires t == s'.nodes[v].currentTerm ==> s'.nodes[v].log == s.nodes[v].log
    ensures AckAt(s', h', t, v)
  {
    var n := h.acks[(t, v)];
    assert h'.termLog[t][..n + 1] == h.termLog[t][..n + 1];
    if v != h.leaderOf[t] {
      var k :| k in h.handled && TookFrom(s, t, v, n, k);
      assert TookFrom(s', t, v, n, k);
    }
  }

  /** Steps that leave logs, acks and leaders alone. */
  lemma UnackedStep(s: Cluster, h: History, s': Cluster, h': History)
    requires Inv(s, h) && SurvivalInv(s, h) && Later(s, h, s', h')
    requires h'.acks == h.acks && h'.termLog == h.termLog && h'.leaderOf == h.leaderOf && h.handled <= h'.handled
    requires s.appends <= s'.appends && forall v: nat :: v < |s.nodes| ==> s'.nodes[v].log == s.nodes[v].log
    ensures AcksInv(s', h') && LogsKeep(s', h') && LeadersKeep(s', h') && SameOwn(h, h')
    ensures forall t': int, v: nat :: (t', v) in h.votes ==> (t', v) in h'.votes && VoteKeeps(s', h', t', v)
  {
    SameTermsOwn(s, h, h');
    forall t: int, v: nat | (t, v) in h'.acks ensures AckAt(s', h', t, v) {
      assert AckAt(s, h, t, v); AckLater(s, h, s', h', t, v);
    }
    forall v: nat | v < |s'.nodes| ensures LogKeeps(s', h', v) {
      assert LogKeeps(s, h, v); LogKeepsLater(s, h, s', h', v);
    }
    forall t': int | t' in h'.leaderOf ensures (t', h'.leaderOf[t']) in h'.candLog && LeaderKeeps(s', h', t') {
      LeaderKeepsLater(s, h, s', h', t');
    }
    forall t': int, v: nat | (t', v) in h.votes ensures (t', v) in h'.votes && VoteKeeps(s', h', t', v) {
      assert VoteOk(s, h, t', v) && VoteKeeps(s, h, t', v);
      VoteKeepsLater(s, h, s', h', t', v);
    }
  }

  lemma SameTermsOwn(s: Cluster, h: History, h': History)
    requires Inv(s, h) && Grows(h, h') && h'.termLog == h.termLog && h'.leaderOf == h.leaderOf
    ensures SameOwn(h, h')
  {
    forall t: int, n: int | Own(h', t, n) ensures Own(h, t, n) { assert LeaderOk(s, h, t); }
  }
}
