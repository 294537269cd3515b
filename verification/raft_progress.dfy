/**
 What the handlers must do, beside what they must not: grant votes, elect, step down, hint and commit.
 Safety alone would be kept by a server that refuses everything.
 */
module RaftProgress {
  import opened Bytes
  import opened RaftTypes
  import opened RaftNode
  import opened RaftCluster
  import opened RaftHistory
  import opened RaftLog
  import opened RaftSafety

  // ----- Votes -----

  /** (term, index) pairs in lexicographic order. */
  predicate AtMost(t1: int, i1: int, t2: int, i2: int) {
    t1 < t2 || (t1 == t2 && i1 <= i2)
  }

  /** Of two logs one is always up to date for the other, and a later last term is up to date whatever the index. */
  lemma UpToDateTotal(a: seq<LogEntry>, b: seq<LogEntry>)
    requires a != [] && b != []
    ensures UpToDate(a, Last(b).index, Last(b).term) || UpToDate(b, Last(a).index, Last(a).term)
    ensures Last(b).term > Last(a).term ==> UpToDate(a, Last(b).index, Last(b).term) && !UpToDate(b, Last(a).index, Last(a).term)
  {
  }

  /**
   A vote is granted exactly when the term is not old, no lease is held, no other vote was cast in it, and the
   voter's last entry is at most the candidate's; the reply tells the voter's term.
   */
  lemma GrantedIff(n: Node, a: VoteArgs)
    requires n.log != []
    ensures
      RequestVote(n, a).1.voteGranted <==>
        && n.currentTerm <= a.term && !n.leaseTime
        && (n.currentTerm < a.term || n.votedFor == -1 || n.votedFor == a.candidateId)
        && AtMost(Last(n.log).term, Last(n.log).index, a.lastLogTerm, a.lastLogIndex)
    ensures
      var (m, reply) := RequestVote(n, a);
      && reply.term == m.currentTerm && (reply.voteGranted ==> m.votedFor == a.candidateId && m.role == Follower)
      && m.log == n.log && m.commitIndex == n.commitIndex
  {
  }

  /** The timer's self vote takes the vote of the running term, and of no other, from every other candidate. */
  lemma SelfVoteHolds(n: Node, a: VoteArgs)
    requires n.log != [] && n.id != -1 && a.candidateId != n.id
    ensures
      RequestVote(SelfVote(n), a).1.voteGranted <==> a.term > n.currentTerm && RequestVote(n, a).1.voteGranted
    ensures SelfVote(n).currentTerm == n.currentTerm && SelfVote(n).role == n.role && SelfVote(n).log == n.log
  {
  }

  /** Any message of a later term moves a server into that term as a follower, a vote request unless a lease is held. */
  lemma LaterTermWins(n: Node, va: VoteArgs, vr: VoteReply, a: AppendArgs, r: AppendReply, peer: nat, unset: int)
    requires Contiguous(n.log) && n.log[0].index <= n.commitIndex && peer < |n.nextIndex| && peer < |n.matchIndex|
    ensures va.term > n.currentTerm && !n.leaseTime ==>
      RequestVote(n, va).0.currentTerm == va.term && RequestVote(n, va).0.role == Follower
    ensures vr.term > n.currentTerm ==>
      HandleVoteReply(n, vr).currentTerm == vr.term && HandleVoteReply(n, vr).role == Follower && HandleVoteReply(n, vr).votedFor == -1
    ensures a.term > n.currentTerm ==>
      var m := AppendLog(n, a, unset).0;
      m.currentTerm == a.term && m.role == Follower && m.votedFor == a.leaderId
    ensures a.term >= n.currentTerm ==> AppendLog(n, a, unset).0.leaseTime
    ensures AppendLog(n, a, unset).1.term == AppendLog(n, a, unset).0.currentTerm
    ensures n.role == Leader && a.term == n.currentTerm && r.term > n.currentTerm ==>
      var m := HandleAppendReply(n, peer, a, r);
      m.currentTerm == r.term && m.role == Follower && m.votedFor == -1 && m.log == n.log
  {
    hide Scan, CommitScan;
  }

  // ----- Elections -----

  /** A server that would grant i a vote in term t, whose log ends in (lastTerm, lastIndex). */
  ghost predicate Willing(n: Node, i: nat, t: int, lastTerm: int, lastIndex: int) {
    && n.log != [] && n.currentTerm <= t && !n.leaseTime && (n.currentTerm < t || n.votedFor == -1 || n.votedFor == i)
    && AtMost(Last(n.log).term, Last(n.log).index, lastTerm, lastIndex)
  }

  /** Server i leads term t, or stands in it with so many votes and no majority yet. */
  ghost predicate Standing(n: Node, i: nat, size: nat, t: int, votes: nat) {
    && n.log != [] && n.id == i && n.size == size && n.currentTerm == t
    && (n.role == Leader || (n.role == Candidate && n.voteCount == votes && 2 * votes <= size))
  }

  lemma GrantReply(n: Node, i: nat, t: int, lastTerm: int, lastIndex: int)
    requires Willing(n, i, t, lastTerm, lastIndex)
    ensures RequestVote(n, VoteArgs(t, i, lastIndex, lastTerm)).1 == VoteReply(t, true)
  {
  }

  /** A granted vote adds one, and makes the candidate leader when it has more than half. */
  lemma CountVote(n: Node, i: nat, size: nat, t: int, votes: nat)
    requires Standing(n, i, size, t, votes)
    ensures
      var m := HandleVoteReply(n, VoteReply(t, true));
      && Standing(m, i, size, t, votes + 1) && m.log == n.log
      && (n.role == Candidate ==> (m.role == Leader <==> 2 * (votes + 1) > size))
      && (n.role == Candidate && m.role == Leader ==>
            |m.nextIndex| == |m.matchIndex| == size
            && forall p :: 0 <= p < size ==> m.nextIndex[p] == Last(n.log).index + 1 && m.matchIndex[p] == 0)
  {
  }

  /** The ballots still on their way to the servers in vs, all of which would grant. */
  ghost predicate Pending(s: Cluster, i: nat, args: VoteArgs, vs: seq<nat>) {
    && (forall j, k :: 0 <= j < k < |vs| ==> vs[j] != vs[k])
    && forall k :: 0 <= k < |vs| ==>
         && vs[k] < |s.nodes| && vs[k] != i && VoteRequest(i, vs[k], args) in s.voteRequests
         && Willing(s.nodes[vs[k]], i, args.term, args.lastLogTerm, args.lastLogIndex)
  }

  /** One server votes and its vote is counted. */
  lemma OneBallot(r: Run, i: nat, args: VoteArgs, vs: seq<nat>, votes: nat) returns (q: Run)
    requires IsRun(r) && i < |Tail(r).nodes| && vs != [] && Pending(Tail(r), i, args, vs) && args.candidateId == i
    requires Standing(Tail(r).nodes[i], i, |Tail(r).nodes|, args.term, votes)
    ensures IsRun(q) && r.steps <= q.steps && r.states <= q.states && |Tail(q).nodes| == |Tail(r).nodes|
    ensures Standing(Tail(q).nodes[i], i, |Tail(q).nodes|, args.term, votes + 1) && Tail(q).nodes[i].log == Tail(r).nodes[i].log
    ensures Pending(Tail(q), i, args, vs[1..])
  {
    hide WellFormed, RequestVote, HandleVoteReply, Willing;
    var req := VoteRequest(i, vs[0], args);
    GrantReply(Tail(r).nodes[vs[0]], i, args.term, args.lastLogTerm, args.lastLogIndex);
    CountVote(Tail(r).nodes[i], i, |Tail(r).nodes|, args.term, votes);
    var p := Extend(r, HandleVoteRequest(req));
    q := Extend(p, HandleVoteAnswer(VoteAnswer(req, VoteReply(args.term, true))));
  }

  lemma {:induction false} CountBallots(r: Run, i: nat, args: VoteArgs, vs: seq<nat>, votes: nat) returns (q: Run)
    requires IsRun(r) && i < |Tail(r).nodes| && Pending(Tail(r), i, args, vs) && args.candidateId == i
    requires Standing(Tail(r).nodes[i], i, |Tail(r).nodes|, args.term, votes) && 2 * (votes + |vs|) > |Tail(r).nodes|
    ensures IsRun(q) && r.steps <= q.steps && r.states <= q.states && i < |Tail(q).nodes|
    ensures Tail(q).nodes[i].role == Leader && Tail(q).nodes[i].currentTerm == args.term && Tail(q).nodes[i].log == Tail(r).nodes[i].log
    decreases |vs|
  {
    hide IsRun, Pending;
    q := r;
    if vs != [] {
      var p := OneBallot(r, i, args, vs, votes);
      q := CountBallots(p, i, args, vs[1..], votes + 1);
    }
  }

  /** Different servers that would vote for i in the next term. */
  ghost predicate Supported(s: Cluster, i: nat, vs: seq<nat>)
    requires i < |s.nodes| && s.nodes[i].log != []
  {
    && (forall j, k :: 0 <= j < k < |vs| ==> vs[j] != vs[k])
    && var n := s.nodes[i];
    forall k :: 0 <= k < |vs| ==>
      && vs[k] < |s.nodes| && vs[k] != i
      && Willing(s.nodes[vs[k]], i, n.currentTerm + 1, Last(n.log).term, Last(n.log).index)
  }

  lemma CampaignEffect(s: Cluster, i: nat, vs: seq<nat>)
    requires WellFormed(s) && i < |s.nodes| && s.nodes[i].log != [] && vs != [] && Supported(s, i, vs)
    ensures
      var s', n := Next(s, Campaign(i)), s.nodes[i];
      && |s'.nodes| == |s.nodes| && s'.nodes[i].log == n.log && Standing(s'.nodes[i], i, |s.nodes|, n.currentTerm + 1, 1)
      && Pending(s', i, VoteArgs(n.currentTerm + 1, i, Last(n.log).index, Last(n.log).term), vs)
  {
    hide Willing;
    assert WellFormedNode(s.nodes[i], i, |s.nodes|);
    assert vs[0] < |s.nodes| && vs[0] != i;
  }

  /**
   From every reachable state, a server that campaigns while enough others to make a majority are willing to
   vote for it can become leader of the next term with its log.
   */
  lemma ElectionPossible(r: Run, i: nat, vs: seq<nat>) returns (q: Run)
    requires IsRun(r) && i < |Tail(r).nodes| && Tail(r).nodes[i].log != []
    requires vs != [] && 2 * (1 + |vs|) > |Tail(r).nodes| && Supported(Tail(r), i, vs)
    ensures IsRun(q) && r.steps <= q.steps && r.states <= q.states && i < |Tail(q).nodes|
    ensures
      var n, m := Tail(r).nodes[i], Tail(q).nodes[i];
      m.role == Leader && m.currentTerm == n.currentTerm + 1 && m.log == n.log
  {
    hide Supported, Next, Pending, WellFormed;
    var n := Tail(r).nodes[i];
    var p := Extend(r, Campaign(i));
    CampaignEffect(Tail(r), i, vs);
    q := CountBallots(p, i, VoteArgs(n.currentTerm + 1, i, Last(n.log).index, Last(n.log).term), vs, 1);
  }

  /** A server alone never leads: the votes are only counted when a reply arrives. */
  lemma {:induction false} LoneServerNeverLeads(r: Run, a: nat)
    requires IsRun(r) && a < |r.states| && |r.states[0].nodes| == 1
    ensures |r.states[a].nodes| == 1 && r.states[a].nodes[0].role != Leader
    ensures r.states[a].voteRequests == {} && r.states[a].voteAnswers == {}
  {
    if a == 0 {
      var lease :| r.states[0].nodes[0] == Init(0, 1, lease);
    } else {
      LoneServerNeverLeads(r, a - 1);
      assert Follows(r.states[a - 1], r.steps[a - 1], r.states[a]);
      LoneStep(r.states[a - 1], r.steps[a - 1]);
    }
  }

  lemma LoneStep(s: Cluster, step: Step)
    requires WellFormed(s) && Enabled(s, step) && |s.nodes| == 1 && s.nodes[0].role != Leader
    requires s.voteRequests == {} && s.voteAnswers == {}
    ensures
      var s' := Next(s, step);
      |s'.nodes| == 1 && s'.nodes[0].role != Leader && s'.voteRequests == {} && s'.voteAnswers == {}
  {
    hide Scan, CommitScan;
  }

  // ----- Commit -----

  /** The other servers known to hold index k. */
  ghost function Peers(n: Node, k: int): set<nat> {
    set p: nat | p < |n.matchIndex| && p != n.id && n.matchIndex[p] >= k
  }

  ghost function PeersBelow(n: Node, k: int, upTo: nat): set<nat>
    requires upTo <= |n.matchIndex|
  {
    set p: nat | p < upTo && p != n.id && n.matchIndex[p] >= k
  }

  lemma {:induction false} ReplicasCounted(n: Node, k: int, upTo: nat)
    requires upTo <= |n.matchIndex|
    ensures Replicas(n, k, upTo) == 1 + |PeersBelow(n, k, upTo)|
  {
    if upTo > 0 {
      var p := upTo - 1;
      ReplicasCounted(n, k, p);
      assert PeersBelow(n, k, upTo) == PeersBelow(n, k, p) + if p != n.id && n.matchIndex[p] >= k then {p} else {};
    } else {
      assert PeersBelow(n, k, upTo) == {};
    }
  }

  /** More than half of the servers, this one included, hold index k. */
  ghost predicate Majority(n: Node, k: int) { 2 * (1 + |Peers(n, k)|) > n.size }

  function TermOf(log: seq<LogEntry>, j: int): int {
    if log != [] && 0 <= j - log[0].index < |log| then log[j - log[0].index].term else -1
  }

  /** Every entry from index k to index `at` is of the current term. */
  ghost predicate OwnStretch(n: Node, k: int, at: int) {
    forall j :: k <= j <= at ==> TermOf(n.log, j) == n.currentTerm
  }

  lemma MajorityIs(n: Node, k: int)
    ensures Majority(n, k) <==> Replicas(n, k, |n.matchIndex|) > n.size / 2
  {
    ReplicasCounted(n, k, |n.matchIndex|);
    assert PeersBelow(n, k, |n.matchIndex|) == Peers(n, k);
  }

  /**
   The counting loop finds the greatest index that more than half of the servers hold, among those behind
   which every entry is of the current term, and keeps the commit index when there is none beyond it.
   */
  lemma {:induction false} CommitScanIsGreatest(n: Node, at: int)
    requires Contiguous(n.log) && n.log[0].index <= n.commitIndex && at <= Last(n.log).index
    ensures
      var c := CommitScan(n, at);
      && (c == n.commitIndex || (n.commitIndex < c <= at && OwnStretch(n, c, at) && Majority(n, c)))
      && forall k :: c < k <= at && OwnStretch(n, k, at) ==> !Majority(n, k)
    decreases at - n.commitIndex
  {
    hide Majority;
    if at > n.commitIndex && n.log[at - n.log[0].index].term == n.currentTerm {
      MajorityIs(n, at);
      if Replicas(n, at, |n.matchIndex|) <= n.size / 2 {
        CommitScanIsGreatest(n, at - 1);
        var c := CommitScan(n, at);
        forall k | c < k <= at && OwnStretch(n, k, at) ensures !Majority(n, k) {
          assert k < at ==> OwnStretch(n, k, at - 1);
        }
        assert c != n.commitIndex ==> OwnStretch(n, c, at);
      }
    } else if at > n.commitIndex {
      assert TermOf(n.log, at) != n.currentTerm;
    }
  }

  /** Nothing that could be committed is left uncommitted. */
  ghost predicate CommitsAll(n: Node)
    requires Contiguous(n.log)
  {
    forall k :: n.commitIndex < k <= Last(n.log).index && OwnStretch(n, k, Last(n.log).index) ==> !Majority(n, k)
  }

  lemma CountsAll(n: Node)
    requires Contiguous(n.log) && n.log[0].index <= n.commitIndex
    ensures
      var c := CommitScan(n, Last(n.log).index);
      c >= n.commitIndex && CommitsAll(n.(commitIndex := c))
  {
    hide CommitScan, Majority;
    var c, last := CommitScan(n, Last(n.log).index), Last(n.log).index;
    CommitScanIsGreatest(n, last);
    var n' := n.(commitIndex := c);
    forall k | c < k <= last && OwnStretch(n', k, last) ensures !Majority(n', k) {
      assert OwnStretch(n, k, last);
      SameMajority(n, c, k);
    }
  }

  /** A success is recorded with the last index sent, a refusal with its hint; then all is committed that can be. */
  lemma ReplyRecorded(n: Node, peer: nat, a: AppendArgs, r: AppendReply)
    requires Contiguous(n.log) && n.log[0].index <= n.commitIndex && peer < |n.nextIndex| && peer < |n.matchIndex|
    requires n.role == Leader && a.term == n.currentTerm && r.term <= n.currentTerm
    ensures
      var m := HandleAppendReply(n, peer, a, r);
      && m.log == n.log && m.role == Leader && m.currentTerm == n.currentTerm
      && |m.nextIndex| == |n.nextIndex| && |m.matchIndex| == |n.matchIndex|
      && (forall p :: 0 <= p < |n.nextIndex| && p != peer ==> m.nextIndex[p] == n.nextIndex[p])
      && (forall p :: 0 <= p < |n.matchIndex| && p != peer ==> m.matchIndex[p] == n.matchIndex[p])
      && (r.success && a.entries != [] ==> m.matchIndex[peer] == Last(a.entries).index && m.nextIndex[peer] == Last(a.entries).index + 1)
      && (!(r.success && a.entries != []) ==> m.matchIndex[peer] == n.matchIndex[peer])
      && (r.success && a.entries == [] ==> m.nextIndex[peer] == n.nextIndex[peer])
      && (!r.success ==> m.nextIndex[peer] <= r.nextTryLog && m.nextIndex[peer] <= Last(n.log).index
                         && (m.nextIndex[peer] == r.nextTryLog || m.nextIndex[peer] == Last(n.log).index))
      && CommitsAll(m)
  {
    hide CommitScan, Majority;
    CountsAll(Note(n, peer, a, r));
  }

  lemma SameMajority(n: Node, c: int, k: int)
    ensures Majority(n.(commitIndex := c), k) <==> Majority(n, k)
  {
    assert Peers(n.(commitIndex := c), k) == Peers(n, k);
  }

  /** In every run a leader that handles a reply of its term commits all it can. */
  lemma LeaderCommitsAll(r: Run, b: nat)
    requires IsRun(r) && b < |r.steps| && r.steps[b].HandleAppendAnswer?
    ensures r.steps[b].ack.sent < |r.states[b].appends| && Has(r, b, r.states[b].appends[r.steps[b].ack.sent].src)
    ensures
      var m, ack := r.states[b].appends[r.steps[b].ack.sent], r.steps[b].ack;
      At(r, b, m.src).role == Leader && m.args.term == At(r, b, m.src).currentTerm && ack.reply.term <= m.args.term ==>
        Has(r, b + 1, m.src) && Contiguous(At(r, b + 1, m.src).log) && CommitsAll(At(r, b + 1, m.src))
  {
    hide HandleAppendReply, CommitsAll;
    assert Follows(r.states[b], r.steps[b], r.states[b + 1]);
    var m, ack := r.states[b].appends[r.steps[b].ack.sent], r.steps[b].ack;
    var n := At(r, b, m.src);
    assert WellFormedNode(n, m.src, |r.states[b].nodes|);
    if n.role == Leader && m.args.term == n.currentTerm && ack.reply.term <= m.args.term {
      ReplyRecorded(n, m.dst, m.args, ack.reply);
    }
  }

  // ----- Hints -----

  /** Index k starts the stretch of equal terms that ends at `prev`, and is not the base. */
  ghost predicate StretchStart(log: seq<LogEntry>, k: int, prev: int)
    requires log != []
  {
    && log[0].index < k <= prev && TermOf(log, k - 1) != TermOf(log, prev)
    && forall j :: k <= j <= prev ==> TermOf(log, j) == TermOf(log, prev)
  }

  /**
   What a refusal says: one past the log when the log is too short or the term is old; otherwise, when the
   stretch of the conflicting term begins above the base, where it begins.
   */
  lemma HintIs(n: Node, a: AppendArgs, unset: int, k: int)
    requires Contiguous(n.log)
    ensures
      var reply, base, prev := AppendLog(n, a, unset).1, n.log[0].index, a.prevLogIndex;
      && (a.term < n.currentTerm || prev > Last(n.log).index ==> !reply.success && reply.nextTryLog == Last(n.log).index + 1)
      && (a.term >= n.currentTerm && base <= prev <= Last(n.log).index && a.prevLogTerm != TermOf(n.log, prev) ==>
            !reply.success && (StretchStart(n.log, k, prev) ==> reply.nextTryLog == k))
      && (reply.success ==> reply.nextTryLog == prev + |a.entries|)
  {
    hide Scan, Accept;
    var base, prev := n.log[0].index, a.prevLogIndex;
    if base <= prev <= Last(n.log).index && StretchStart(n.log, k, prev) {
      ScanStopsBefore(n.log, k, prev);
    }
  }

  lemma ScanStopsBefore(log: seq<LogEntry>, k: int, prev: int)
    requires Contiguous(log) && prev <= Last(log).index && StretchStart(log, k, prev)
    ensures Scan(log, prev - log[0].index - 1, log[prev - log[0].index].term) == k - 1 - log[0].index
  {
    var base := log[0].index;
    var r := Scan(log, prev - base - 1, log[prev - base].term);
    assert TermOf(log, k - 1) == log[k - 1 - base].term;
    assert k <= r + base ==> TermOf(log, r + base) == TermOf(log, prev);
  }
}
