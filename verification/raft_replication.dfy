/**
 What replication is for: a value that a client hands to a leader can always be
 committed, as long as a majority of the servers has not moved to a later term.
 */
module RaftReplication {
  import opened Bytes
  import opened RaftTypes
  import opened RaftNode
  import opened RaftCluster
  import opened RaftHistory
  import opened RaftLog
  import opened RaftLogSteps
  import opened RaftSafety
  import opened RaftCatchUp
  import opened RaftProgress

  /** Server i leads the cluster with this log and term. */
  ghost predicate Leads(s: Cluster, i: nat, log: seq<LogEntry>, term: int) {
    i < |s.nodes| && s.nodes[i].role == Leader && s.nodes[i].log == log && s.nodes[i].currentTerm == term
  }

  ghost predicate SameBut(s: Cluster, t: Cluster, i: nat, peer: nat) {
    |s.nodes| == |t.nodes| && forall j :: 0 <= j < |s.nodes| && j != i && j != peer ==> t.nodes[j] == s.nodes[j]
  }

  ghost predicate Extends(q: Run, r: Run) {
    IsRun(q) && r.steps <= q.steps && r.states <= q.states && r.states != []
  }

  /** A round without other steps in between changes the two servers only. */
  lemma RoundFrame(q: Run, n: nat, unset: int, i: nat, peer: nat)
    requires IsRun(q) && Ready(q, n, i, peer) && Round(q, Times(n, n + 1, n + 2, unset), i, peer)
    ensures SameBut(q.states[n], q.states[n + 3], i, peer)
  {
    hide WellFormed, AppendLog, HandleAppendReply, HeartBeat, Pair;
    ReachablePair(q, n, i, peer);
    ExchangeStep(At(q, n, i), At(q, n, peer), peer, unset);
    Sent(q, n, i, peer);
    assert Follows(q.states[n + 1], q.steps[n + 1], q.states[n + 2]);
    assert Follows(q.states[n + 2], q.steps[n + 2], q.states[n + 3]);
  }

  /** What one round does to what the leader knows of its peers. */
  lemma ExchangeNotes(leader: Node, follower: Node, peer: nat, unset: int)
    requires Pair(leader, follower, peer) && leader.log[0].index <= leader.commitIndex
    ensures
      var (l, f) := Exchange(leader, follower, peer, unset);
      && |l.nextIndex| == |leader.nextIndex| && |l.matchIndex| == |leader.matchIndex| && l.size == leader.size && l.id == leader.id
      && (forall p :: 0 <= p < |l.nextIndex| && p != peer ==> l.nextIndex[p] == leader.nextIndex[p])
      && (forall p :: 0 <= p < |l.matchIndex| && p != peer ==> l.matchIndex[p] == leader.matchIndex[p])
      && (leader.nextIndex[peer] < |leader.log| ==>
            || (f.log == leader.log && l.matchIndex[peer] == |leader.log| - 1)
            || l.nextIndex[peer] < leader.nextIndex[peer])
      && Contiguous(l.log) && CommitsAll(l)
  {
    hide CommitScan, AppendLog, CommitsAll, LogsMatch;
    WfContiguous(leader.log);
    WfContiguous(follower.log);
    var a := HeartBeat(leader, peer);
    FollowerSide(leader, follower, peer, unset);
    var reply := AppendLog(follower, a, unset).1;
    ReplyRecorded(leader, peer, a, reply);
    if leader.nextIndex[peer] < |leader.log| {
      assert Last(a.entries) == Last(leader.log);
    }
  }

  /** From s to t leader i has only gone on with this peer. */
  ghost predicate OnlyPeer(s: Cluster, t: Cluster, i: nat, peer: nat) {
    && SameBut(s, t, i, peer) && i < |s.nodes| && peer < |s.nodes|
    && var l0, l := s.nodes[i], t.nodes[i];
    && Leads(t, i, l0.log, l0.currentTerm) && l.id == l0.id && l.size == l0.size && l.commitIndex >= l0.commitIndex
    && t.nodes[peer].currentTerm <= l0.currentTerm
    && |l.nextIndex| == |l0.nextIndex| && |l.matchIndex| == |l0.matchIndex|
    && (forall p :: 0 <= p < |l.nextIndex| && p != peer ==> l.nextIndex[p] == l0.nextIndex[p])
    && (forall p :: 0 <= p < |l.matchIndex| && p != peer ==> l.matchIndex[p] == l0.matchIndex[p])
  }

  /** The peer has the leader's log and commit index, and the leader knows if there was anything to send. */
  ghost predicate Served(s: Cluster, t: Cluster, i: nat, peer: nat) {
    && i < |s.nodes| && i < |t.nodes| && peer < |t.nodes| && peer < |s.nodes[i].nextIndex| && peer < |t.nodes[i].matchIndex|
    && Copied(t.nodes[peer], s.nodes[i].log, s.nodes[i].commitIndex) && t.nodes[peer].currentTerm <= s.nodes[i].currentTerm
    && (s.nodes[i].nextIndex[peer] < |s.nodes[i].log| ==> t.nodes[i].matchIndex[peer] == |s.nodes[i].log| - 1)
  }

  /** One round. */
  lemma ServeOnce(r: Run, i: nat, peer: nat) returns (q: Run)
    requires IsRun(r) && Ready(r, |r.steps|, i, peer)
    ensures Extends(q, r) && Ready(q, |q.steps|, i, peer) && OnlyPeer(Tail(r), Tail(q), i, peer)
    ensures peer < |Tail(r).nodes[i].nextIndex| && 1 <= Tail(r).nodes[i].nextIndex[peer] <= |Tail(r).nodes[i].log|
    ensures Served(Tail(r), Tail(q), i, peer) || 1 <= Tail(q).nodes[i].nextIndex[peer] < Tail(r).nodes[i].nextIndex[peer]
    ensures Contiguous(Tail(q).nodes[i].log) && CommitsAll(Tail(q).nodes[i])
  {
    hide WellFormed, Exchange, WfLog, LogsMatch, CommitsAll, IsRun, Contiguous;
    var n := |r.steps|;
    q := AddRound(r, i, peer, 0);
    LengthOf(r);
    LengthOf(q);
    assert At(q, n, i) == At(r, n, i) && At(q, n, peer) == At(r, n, peer);
    ReachablePair(q, n, i, peer);
    RoundExchanges(q, Times(n, n + 1, n + 2, 0), i, peer);
    RoundFrame(q, n, 0, i, peer);
    WfContiguous(At(q, n, i).log);
    SentinelFirst(At(q, n, i).log);
    ExchangeStep(At(q, n, i), At(q, n, peer), peer, 0);
    ExchangeNotes(At(q, n, i), At(q, n, peer), peer, 0);
  }

  lemma LengthOf(r: Run)
    requires IsRun(r)
    ensures |r.states| == |r.steps| + 1
  {
  }

  lemma SentinelFirst(l: seq<LogEntry>)
    requires l != [] && l[0] == SENTINEL
    ensures l[0].index == 0
  {
  }

  /** Rounds with one peer until it is served. */
  lemma {:induction false} Serve(r: Run, i: nat, peer: nat) returns (q: Run)
    requires IsRun(r) && Ready(r, |r.steps|, i, peer)
    ensures Extends(q, r) && Ready(q, |q.steps|, i, peer) && OnlyPeer(Tail(r), Tail(q), i, peer)
    ensures Served(Tail(r), Tail(q), i, peer)
    ensures Contiguous(Tail(q).nodes[i].log) && CommitsAll(Tail(q).nodes[i])
    decreases if peer < |Tail(r).nodes[i].nextIndex| then Tail(r).nodes[i].nextIndex[peer] else 0
  {
    hide IsRun, CommitsAll, Contiguous;
    LengthOf(r);
    var p := ServeOnce(r, i, peer);
    LengthOf(p);
    if Served(Tail(r), Tail(p), i, peer) {
      q := p;
    } else {
      q := Serve(p, i, peer);
    }
  }

  // ----- A majority -----

  /** Different servers beside i whose terms are not ahead. */
  ghost predicate Group(s: Cluster, i: nat, vs: seq<nat>, term: int) {
    && (forall j, k :: 0 <= j < k < |vs| ==> vs[j] != vs[k])
    && forall k :: 0 <= k < |vs| ==> vs[k] < |s.nodes| && vs[k] != i && s.nodes[vs[k]].currentTerm <= term
  }

  /** From s to t leader i has only gone on with the servers in vs. */
  ghost predicate OnlyGroup(s: Cluster, t: Cluster, i: nat, vs: seq<nat>) {
    && |s.nodes| == |t.nodes| && i < |s.nodes|
    && var l0, l := s.nodes[i], t.nodes[i];
    && Leads(t, i, l0.log, l0.currentTerm) && l.id == l0.id && l.size == l0.size && l.commitIndex >= l0.commitIndex
    && |l.nextIndex| == |l0.nextIndex| && |l.matchIndex| == |l0.matchIndex|
    && (forall p :: 0 <= p < |s.nodes| && p != i && p !in vs ==> t.nodes[p] == s.nodes[p])
    && (forall p :: 0 <= p < |l.nextIndex| && p !in vs ==> l.nextIndex[p] == l0.nextIndex[p])
    && (forall p :: 0 <= p < |l.matchIndex| && p !in vs ==> l.matchIndex[p] == l0.matchIndex[p])
  }

  lemma ServedFirst(s: Cluster, t: Cluster, u: Cluster, i: nat, vs: seq<nat>)
    requires vs != [] && s.nodes != [] && i < |s.nodes| && Group(s, i, vs, s.nodes[i].currentTerm)
    requires OnlyPeer(s, t, i, vs[0]) && Served(s, t, i, vs[0]) && OnlyGroup(t, u, i, vs[1..])
    requires forall k :: 0 <= k < |vs| - 1 ==> Served(t, u, i, vs[1..][k])
    ensures OnlyGroup(s, u, i, vs)
    ensures forall k :: 0 <= k < |vs| ==> Served(s, u, i, vs[k])
  {
    assert vs[0] !in vs[1..];
    forall k | 0 <= k < |vs| ensures Served(s, u, i, vs[k]) {
      if k > 0 {
        assert vs[k] == vs[1..][k - 1] && vs[k] != vs[0];
        assert Served(t, u, i, vs[1..][k - 1]);
      }
    }
  }

  lemma GroupStays(s: Cluster, t: Cluster, i: nat, vs: seq<nat>)
    requires vs != [] && i < |s.nodes| && Group(s, i, vs, s.nodes[i].currentTerm) && OnlyPeer(s, t, i, vs[0])
    ensures Group(t, i, vs[1..], t.nodes[i].currentTerm)
  {
    forall k | 0 <= k < |vs| - 1 ensures vs[1..][k] < |t.nodes| && t.nodes[vs[1..][k]] == s.nodes[vs[1..][k]] {
      assert vs[1..][k] == vs[k + 1] && vs[0] != vs[k + 1];
    }
  }

  lemma {:induction false} ServeAll(r: Run, i: nat, vs: seq<nat>) returns (q: Run)
    requires IsRun(r) && i < |Tail(r).nodes| && Tail(r).nodes[i].role == Leader && Group(Tail(r), i, vs, Tail(r).nodes[i].currentTerm)
    ensures Extends(q, r) && OnlyGroup(Tail(r), Tail(q), i, vs) && forall k :: 0 <= k < |vs| ==> Served(Tail(r), Tail(q), i, vs[k])
    ensures vs == [] ==> q == r
    ensures vs != [] ==> Contiguous(Tail(q).nodes[i].log) && CommitsAll(Tail(q).nodes[i])
    decreases |vs|
  {
    hide IsRun, CommitsAll, Contiguous, Served, OnlyPeer;
    LengthOf(r);
    if vs == [] {
      q := r;
    } else {
      var p := Serve(r, i, vs[0]);
      GroupStays(Tail(r), Tail(p), i, vs);
      LeadsStill(Tail(r), Tail(p), i, vs[0]);
      q := ServeAll(p, i, vs[1..]);
      ServedFirst(Tail(r), Tail(p), Tail(q), i, vs);
      if |vs| == 1 {
        assert Tail(q) == Tail(p);
      }
    }
  }

  lemma LeadsStill(s: Cluster, t: Cluster, i: nat, peer: nat)
    requires OnlyPeer(s, t, i, peer)
    ensures i < |t.nodes| && t.nodes[i].role == Leader
  {
  }

  lemma {:induction false} DistinctCount(vs: seq<nat>, ps: set<nat>)
    requires (forall j, k :: 0 <= j < k < |vs| ==> vs[j] != vs[k]) && forall k :: 0 <= k < |vs| ==> vs[k] in ps
    ensures |ps| >= |vs|
    decreases |vs|
  {
    if vs != [] {
      var n := |vs| - 1;
      DistinctCount(vs[..n], ps - {vs[n]});
    }
  }

  /** Once a majority is known to hold the leader's own last entry, it is committed. */
  lemma LastCommitted(n: Node, vs: seq<nat>)
    requires Contiguous(n.log) && CommitsAll(n) && Last(n.log).term == n.currentTerm
    requires forall j, k :: 0 <= j < k < |vs| ==> vs[j] != vs[k]
    requires forall k :: 0 <= k < |vs| ==> vs[k] < |n.matchIndex| && vs[k] != n.id && n.matchIndex[vs[k]] >= Last(n.log).index
    requires 2 * (1 + |vs|) > n.size
    ensures n.commitIndex >= Last(n.log).index
  {
    var last := Last(n.log).index;
    DistinctCount(vs, Peers(n, last));
    assert OwnStretch(n, last, last);
    assert Majority(n, last);
  }

  /** A leader has peers. */
  lemma NotAlone(r: Run, i: nat)
    requires IsRun(r) && i < |Tail(r).nodes| && Tail(r).nodes[i].role == Leader
    ensures |Tail(r).nodes| > 1
  {
    RunGrows(r, 0, |r.steps|);
    if |Tail(r).nodes| == 1 {
      LoneServerNeverLeads(r, |r.steps|);
    }
  }

  /** The leader's log with a new entry. */
  function Grown(log: seq<LogEntry>, term: int, value: seq<Byte>): seq<LogEntry> {
    log + [LogEntry(|log|, term, value)]
  }

  /** The client's value enters the leader's log, and every peer lacks it. */
  lemma ClientStep(r: Run, i: nat, value: seq<Byte>, vs: seq<nat>) returns (q: Run)
    requires IsRun(r) && i < |Tail(r).nodes| && Tail(r).nodes[i].role == Leader && Group(Tail(r), i, vs, Tail(r).nodes[i].currentTerm)
    ensures Extends(q, r) && q.steps == r.steps + [ClientAppend(i, value)] && |Tail(q).nodes| == |Tail(r).nodes|
    ensures Leads(Tail(q), i, Grown(Tail(r).nodes[i].log, Tail(r).nodes[i].currentTerm, value), Tail(r).nodes[i].currentTerm)
    ensures Group(Tail(q), i, vs, Tail(r).nodes[i].currentTerm)
    ensures WellFormedNode(Tail(q).nodes[i], i, |Tail(q).nodes|)
    ensures |Tail(q).nodes[i].log| > 0 && Last(Tail(q).nodes[i].log).index == |Tail(q).nodes[i].log| - 1
    ensures forall k :: 0 <= k < |vs| ==> Tail(q).nodes[i].nextIndex[vs[k]] < |Tail(q).nodes[i].log|
  {
    hide IsRun, WfLog, Pair, Next;
    LengthOf(r);
    q := Extend(r, ClientAppend(i, value));
    BaseIsZero(r, i);
    forall k | 0 <= k < |vs| ensures vs[k] < |Tail(r).nodes[i].nextIndex| && Tail(r).nodes[i].nextIndex[vs[k]] <= |Tail(r).nodes[i].log| {
      NextInReach(r, i, vs[k]);
    }
    AppendsOne(Tail(r), i, value);
  }

  lemma AppendsOne(s: Cluster, i: nat, value: seq<Byte>)
    requires WellFormed(s) && i < |s.nodes| && s.nodes[i].role == Leader && s.nodes[i].log != [] && s.nodes[i].log[0].index == 0
    ensures
      var n := s.nodes[i];
      Next(s, ClientAppend(i, value)) == s.(nodes := s.nodes[i := n.(log := Grown(n.log, n.currentTerm, value))])
    ensures WellFormedNode(Next(s, ClientAppend(i, value)).nodes[i], i, |s.nodes|)
  {
    assert WellFormedNode(s.nodes[i], i, |s.nodes|);
  }

  lemma BaseIsZero(r: Run, i: nat)
    requires IsRun(r) && i < |Tail(r).nodes|
    ensures WellFormed(Tail(r)) && Contiguous(Tail(r).nodes[i].log) && Tail(r).nodes[i].log[0].index == 0
  {
    hide ElectionInv, HistoryAt;
    RunInv(r, |r.steps|);
    assert NodeAt(Tail(r), HistoryAt(r, |r.steps|), i);
    WfContiguous(Tail(r).nodes[i].log);
  }

  lemma NextInReach(r: Run, i: nat, peer: nat)
    requires IsRun(r) && i < |Tail(r).nodes| && peer < |Tail(r).nodes| && i != peer
    requires Tail(r).nodes[i].role == Leader && Tail(r).nodes[peer].currentTerm <= Tail(r).nodes[i].currentTerm
    ensures peer < |Tail(r).nodes[i].nextIndex| && Tail(r).nodes[i].nextIndex[peer] <= |Tail(r).nodes[i].log|
  {
    ReachablePair(r, |r.steps|, i, peer);
  }

  /**
   From every reachable state in which server i leads and a majority, i included, is not in a later term,
   the value of a client can be committed: some continuation begins with the client's call and ends with the
   entry in the logs of all those servers and below their commit indices.
   */
  lemma ClientValueCommits(r: Run, i: nat, value: seq<Byte>, vs: seq<nat>) returns (q: Run)
    requires IsRun(r) && i < |Tail(r).nodes| && Tail(r).nodes[i].role == Leader && Group(Tail(r), i, vs, Tail(r).nodes[i].currentTerm)
    requires 2 * (1 + |vs|) > |Tail(r).nodes|
    ensures Extends(q, r) && |q.steps| > |r.steps| && q.steps[|r.steps|] == ClientAppend(i, value)
    ensures
      var n := Tail(r).nodes[i];
      var log := Grown(n.log, n.currentTerm, value);
      && Leads(Tail(q), i, log, n.currentTerm) && Tail(q).nodes[i].commitIndex >= |n.log|
      && forall k :: 0 <= k < |vs| ==> vs[k] < |Tail(q).nodes| && Tail(q).nodes[vs[k]].log == log && Tail(q).nodes[vs[k]].commitIndex >= |n.log|
  {
    hide IsRun, CommitsAll;
    NotAlone(r, i);
    var p := ClientStep(r, i, value, vs);
    var q1 := ServeAll(p, i, vs);
    var l := Tail(q1).nodes[i];
    forall k | 0 <= k < |vs| ensures vs[k] < |l.matchIndex| && l.matchIndex[vs[k]] == |l.log| - 1 {
      assert Served(Tail(p), Tail(q1), i, vs[k]);
    }
    LastCommitted(l, vs);
    q := ServeAll(q1, i, vs);
    forall k | 0 <= k < |vs|
      ensures vs[k] < |Tail(q).nodes| && Tail(q).nodes[vs[k]].log == l.log && Tail(q).nodes[vs[k]].commitIndex >= |l.log| - 1
    {
      assert Served(Tail(q1), Tail(q), i, vs[k]);
    }
  }
}
