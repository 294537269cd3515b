/**
 Catching up: a leader and one follower that exchange requests and replies, with
 nobody interfering, end with the follower holding the leader's log.
 */
module RaftCatchUp {
  import opened RaftTypes
  import opened RaftNode
  import opened RaftCluster
  import opened RaftHistory
  import opened RaftLog
  import opened RaftLogSteps
  import opened RaftSafety

  /** The log matching property of two logs. */
  ghost predicate LogsMatch(a: seq<LogEntry>, b: seq<LogEntry>) {
    forall p :: 0 <= p < |a| && p < |b| && a[p].term == b[p].term ==> a[..p + 1] == b[..p + 1]
  }

  ghost predicate Pair(leader: Node, follower: Node, peer: nat) {
    && WfLog(leader.log) && WfLog(follower.log) && LogsMatch(leader.log, follower.log)
    && leader.role == Leader && follower.currentTerm <= leader.currentTerm
    && peer < |leader.nextIndex| && peer < |leader.matchIndex| && 0 <= leader.commitIndex
    && 1 <= leader.nextIndex[peer] <= |leader.log|
  }

  /** The server holds this log and has committed what the commit index covers of it. */
  ghost predicate Copied(n: Node, log: seq<LogEntry>, commit: int) {
    log != [] && n.log == log && n.commitIndex >= Min(commit, Last(log).index)
  }

  /** One request, its handling and the handling of its reply. */
  ghost function Exchange(leader: Node, follower: Node, peer: nat, unset: int): (Node, Node)
    requires Pair(leader, follower, peer)
  {
    var args := HeartBeat(leader, peer);
    var (f, reply) := AppendLog(follower, args, unset);
    (HandleAppendReply(leader, peer, args, reply), f)
  }

  /** The follower copies the leader's log and commit index, or hints at a smaller index. */
  lemma FollowerSide(leader: Node, follower: Node, peer: nat, unset: int)
    requires Pair(leader, follower, peer)
    ensures
      var a := HeartBeat(leader, peer);
      var (f, reply) := AppendLog(follower, a, unset);
      && f.currentTerm == reply.term == leader.currentTerm
      && (reply.success ==> Copied(f, leader.log, leader.commitIndex))
      && (!reply.success ==> f.log == follower.log && 1 <= reply.nextTryLog <= a.prevLogIndex)
      && (follower.log == leader.log ==> reply.success)
  {
    hide Scan, AppendLog, WfLog, LogsMatch;
    WfContiguous(leader.log);
    WfContiguous(follower.log);
    var a := HeartBeat(leader, peer);
    AppendEffect(follower, a, unset);
    RejectsLower(follower, a, unset);
    var p := a.prevLogIndex;
    if p < |follower.log| && a.prevLogTerm == follower.log[p].term {
      MatchAt(leader.log, follower.log, p);
      assert leader.log == leader.log[..p + 1] + a.entries;
    }
  }

  lemma MatchAt(a: seq<LogEntry>, b: seq<LogEntry>, p: nat)
    requires LogsMatch(a, b) && p < |a| && p < |b| && a[p].term == b[p].term
    ensures a[..p + 1] == b[..p + 1]
  {
  }

  lemma RejectsLower(n: Node, a: AppendArgs, unset: int)
    requires WfLog(n.log) && 0 <= a.prevLogIndex && (a.prevLogIndex == 0 ==> a.prevLogTerm == 0) && n.currentTerm <= a.term
    ensures
      var reply := AppendLog(n, a, unset).1;
      && reply.term == a.term
      && (reply.success <==> a.prevLogIndex < |n.log| && a.prevLogTerm == n.log[a.prevLogIndex].term)
      && (!reply.success ==> 1 <= reply.nextTryLog <= a.prevLogIndex)
  {
    var p := a.prevLogIndex;
    if p < |n.log| && a.prevLogTerm != n.log[p].term {
      assert Scan(n.log, p - 1, n.log[p].term) >= 0 by { assert n.log[0].term == 0; }
    }
  }

  /** The leader stays leader; a success moves the next index past its log, a failure lowers it. */
  lemma LeaderSide(leader: Node, peer: nat, reply: AppendReply)
    requires Contiguous(leader.log) && leader.log[0].index == 0 && leader.role == Leader && 0 <= leader.commitIndex
    requires peer < |leader.nextIndex| && peer < |leader.matchIndex| && 1 <= leader.nextIndex[peer] <= |leader.log|
    requires reply.term == leader.currentTerm
    requires !reply.success ==> 1 <= reply.nextTryLog < leader.nextIndex[peer]
    ensures
      var l := HandleAppendReply(leader, peer, HeartBeat(leader, peer), reply);
      && l.log == leader.log && l.currentTerm == leader.currentTerm && l.role == Leader
      && |l.nextIndex| == |leader.nextIndex| && |l.matchIndex| == |leader.matchIndex| && leader.commitIndex <= l.commitIndex
      && 1 <= l.nextIndex[peer] <= |l.log| && (!reply.success ==> l.nextIndex[peer] < leader.nextIndex[peer])
  {
    var a := HeartBeat(leader, peer);
    assert a.entries != [] ==> Last(a.entries) == Last(leader.log);
    CommitAtLeast(Note(leader, peer, a, reply), Last(leader.log).index);
  }

  /** An exchange copies log and commit index or lowers the next index; it never leaves the entries path. */
  lemma ExchangeStep(leader: Node, follower: Node, peer: nat, unset: int)
    requires Pair(leader, follower, peer)
    ensures
      var (l, f) := Exchange(leader, follower, peer, unset);
      && SendsEntries(leader, peer)
      && Pair(l, f, peer) && l.log == leader.log && l.currentTerm == leader.currentTerm == f.currentTerm
      && l.commitIndex >= leader.commitIndex
      && (Copied(f, leader.log, leader.commitIndex) || (f.log == follower.log && l.nextIndex[peer] < leader.nextIndex[peer]))
      && (follower.log == leader.log ==> Copied(f, leader.log, leader.commitIndex))
  {
    hide CommitScan, AppendLog, HandleAppendReply, WfLog;
    WfContiguous(leader.log);
    WfContiguous(follower.log);
    FollowerSide(leader, follower, peer, unset);
    LeaderSide(leader, peer, AppendLog(follower, HeartBeat(leader, peer), unset).1);
  }

  /** In every reachable state a leader and a peer whose term is not ahead, a deposed leader included, can exchange. */
  lemma ReachablePair(r: Run, b: nat, i: nat, peer: nat)
    requires IsRun(r) && Has(r, b, i) && Has(r, b, peer) && i != peer
    requires At(r, b, i).role == Leader && At(r, b, peer).currentTerm <= At(r, b, i).currentTerm
    ensures Pair(At(r, b, i), At(r, b, peer), peer)
  {
    hide ElectionInv, HistoryAt;
    RunInv(r, b);
    var s, h := r.states[b], HistoryAt(r, b);
    assert NodeAt(s, h, i) && NodeAt(s, h, peer);
    var l, f := s.nodes[i].log, s.nodes[peer].log;
    forall p | 0 <= p < |l| && p < |f| && l[p].term == f[p].term ensures l[..p + 1] == f[..p + 1] {
      LogsAgree(h, l, f, p);
    }
  }

  // ----- Rounds of a run -----

  /** At moment n server i leads, and the term of the peer is not ahead. */
  ghost predicate Ready(r: Run, n: nat, i: nat, peer: nat) {
    && Has(r, n, i) && Has(r, n, peer) && i != peer
    && At(r, n, i).role == Leader && At(r, n, peer).currentTerm <= At(r, n, i).currentTerm
  }

  /** When a request is sent, when it is handled and when its reply is, and what the reply holds uninitialised. */
  datatype Times = Times(send: nat, handle: nat, answer: nat, unset: int)

  ghost predicate Round(r: Run, t: Times, i: nat, peer: nat) {
    && t.send < t.handle < t.answer < |r.steps| && t.answer + 1 < |r.states|
    && var k := |r.states[t.send].appends|;
    && r.steps[t.send] == SendAppend(i, peer) && r.steps[t.handle] == HandleAppend(k, t.unset)
    && r.steps[t.answer].HandleAppendAnswer? && r.steps[t.answer].ack.sent == k
  }

  /** Step k concerns neither server: it leaves both as they are and hands the peer no append. */
  ghost predicate Aside(r: Run, k: nat, i: nat, peer: nat) {
    && Has(r, k, i) && Has(r, k, peer) && Has(r, k + 1, i) && Has(r, k + 1, peer) && k < |r.steps|
    && At(r, k + 1, i) == At(r, k, i) && At(r, k + 1, peer) == At(r, k, peer)
    && (r.steps[k].HandleAppend? ==> r.steps[k].k < |r.states[k].appends| && r.states[k].appends[r.steps[k].k].dst != peer)
  }

  ghost predicate Quiet(r: Run, from: nat, to: nat, i: nat, peer: nat) {
    from <= to && forall k :: from <= k < to ==> Aside(r, k, i, peer)
  }

  /** From moment n to the end the run goes through these rounds, with any other steps aside of them. */
  ghost predicate Rounds(r: Run, n: nat, i: nat, peer: nat, ts: seq<Times>)
    decreases |ts|
  {
    if ts == [] then Quiet(r, n, |r.steps|, i, peer)
    else
      && Round(r, ts[0], i, peer) && Quiet(r, n, ts[0].send, i, peer) && Quiet(r, ts[0].send + 1, ts[0].handle, i, peer)
      && Quiet(r, ts[0].handle + 1, ts[0].answer, i, peer) && Rounds(r, ts[0].answer + 1, i, peer, ts[1..])
  }

  lemma {:induction false} QuietKeeps(r: Run, from: nat, to: nat, i: nat, peer: nat)
    requires Quiet(r, from, to, i, peer) && Has(r, from, i) && Has(r, from, peer)
    ensures Has(r, to, i) && Has(r, to, peer) && At(r, to, i) == At(r, from, i) && At(r, to, peer) == At(r, from, peer)
    decreases if from <= to then to - from else 0
  {
    if from < to {
      assert Aside(r, from, i, peer);
      QuietKeeps(r, from + 1, to, i, peer);
    }
  }

  /** All replies to request k at this moment say the same. */
  ghost predicate OneReply(s: Cluster, k: nat, replies: set<AppendReply>) {
    forall a :: a in s.appendAnswers && a.sent == k ==> a.reply in replies
  }

  /** Steps aside add no reply to a request for the peer. */
  lemma {:induction false} QuietReplies(r: Run, from: nat, to: nat, i: nat, peer: nat, k: nat, replies: set<AppendReply>)
    requires IsRun(r) && Quiet(r, from, to, i, peer) && to < |r.states| && OneReply(r.states[from], k, replies)
    requires k < |r.states[from].appends| && r.states[from].appends[k].dst == peer
    ensures OneReply(r.states[to], k, replies)
    decreases if from <= to then to - from else 0
  {
    if from < to {
      assert Aside(r, from, i, peer);
      var s, step := r.states[from], r.steps[from];
      assert Follows(s, step, r.states[from + 1]);
      NextAppends(s, step);
      AsideReply(s, step, k, replies);
      QuietReplies(r, from + 1, to, i, peer, k, replies);
    }
  }

  lemma AsideReply(s: Cluster, step: Step, k: nat, replies: set<AppendReply>)
    requires WellFormed(s) && Enabled(s, step) && OneReply(s, k, replies) && k < |s.appends|
    requires step.HandleAppend? ==> step.k != k
    ensures OneReply(Next(s, step), k, replies)
  {
    hide WellFormed, AppendLog, HandleAppendReply, HandleVoteReply, RequestVote, HeartBeat;
  }

  /** A round performs one exchange. */
  lemma RoundExchanges(r: Run, t: Times, i: nat, peer: nat)
    requires IsRun(r) && Ready(r, t.send, i, peer) && Round(r, t, i, peer)
    requires Quiet(r, t.send + 1, t.handle, i, peer) && Quiet(r, t.handle + 1, t.answer, i, peer)
    ensures Pair(At(r, t.send, i), At(r, t.send, peer), peer) && Has(r, t.answer + 1, i) && Has(r, t.answer + 1, peer)
    ensures (At(r, t.answer + 1, i), At(r, t.answer + 1, peer)) == Exchange(At(r, t.send, i), At(r, t.send, peer), peer, t.unset)
  {
    hide WellFormed, Pair, Next, AppendLog, HandleAppendReply, HeartBeat, CommitScan;
    var k := |r.states[t.send].appends|;
    ReachablePair(r, t.send, i, peer);
    ExchangeStep(At(r, t.send, i), At(r, t.send, peer), peer, t.unset);
    var args := HeartBeat(At(r, t.send, i), peer);
    Sent(r, t.send, i, peer);
    QuietKeeps(r, t.send + 1, t.handle, i, peer);
    QuietReplies(r, t.send + 1, t.handle, i, peer, k, {});
    SentStays(r, t.send + 1, t.handle);
    PeerHandles(r, t.handle, i, peer, args, t.unset);
    QuietKeeps(r, t.handle + 1, t.answer, i, peer);
    SentStays(r, t.handle + 1, t.answer);
    QuietReplies(r, t.handle + 1, t.answer, i, peer, k, {AppendLog(At(r, t.send, peer), args, t.unset).1});
    Answered(r, t.answer, i, peer, args);
  }

  lemma Sent(r: Run, n: nat, i: nat, peer: nat)
    requires IsRun(r) && Ready(r, n, i, peer) && n < |r.steps| && r.steps[n] == SendAppend(i, peer) && SendsEntries(At(r, n, i), peer)
    ensures r.states[n + 1].nodes == r.states[n].nodes
    ensures r.states[n + 1].appends == r.states[n].appends + [AppendRequest(i, peer, HeartBeat(At(r, n, i), peer))]
    ensures OneReply(r.states[n + 1], |r.states[n].appends|, {})
  {
    hide HeartBeat;
    assert Follows(r.states[n], r.steps[n], r.states[n + 1]);
  }

  lemma PeerHandles(r: Run, n: nat, i: nat, peer: nat, args: AppendArgs, unset: int)
    requires IsRun(r) && n < |r.steps| && Has(r, n, i) && Has(r, n, peer) && i != peer && r.steps[n].HandleAppend? && r.steps[n].unset == unset
    requires
      var k := r.steps[n].k;
      k < |r.states[n].appends| && r.states[n].appends[k] == AppendRequest(i, peer, args) && OneReply(r.states[n], k, {})
    ensures Contiguous(At(r, n, peer).log) && Has(r, n + 1, i) && Has(r, n + 1, peer)
    ensures At(r, n + 1, i) == At(r, n, i) && At(r, n + 1, peer) == AppendLog(At(r, n, peer), args, unset).0
    ensures r.states[n + 1].appends == r.states[n].appends
    ensures OneReply(r.states[n + 1], r.steps[n].k, {AppendLog(At(r, n, peer), args, unset).1})
  {
    hide AppendLog;
    assert Follows(r.states[n], r.steps[n], r.states[n + 1]);
    assert WellFormedNode(At(r, n, peer), peer, |r.states[n].nodes|);
  }

  lemma Answered(r: Run, n: nat, i: nat, peer: nat, args: AppendArgs)
    requires IsRun(r) && n < |r.steps| && Has(r, n, i) && Has(r, n, peer) && i != peer && r.steps[n].HandleAppendAnswer?
    requires
      var k := r.steps[n].ack.sent;
      k < |r.states[n].appends| && r.states[n].appends[k] == AppendRequest(i, peer, args)
    ensures WellFormedNode(At(r, n, i), i, |r.states[n].nodes|) && Has(r, n + 1, i) && Has(r, n + 1, peer)
    ensures At(r, n + 1, i) == HandleAppendReply(At(r, n, i), peer, args, r.steps[n].ack.reply) && At(r, n + 1, peer) == At(r, n, peer)
    ensures r.steps[n].ack in r.states[n].appendAnswers
  {
    hide HandleAppendReply;
    assert Follows(r.states[n], r.steps[n], r.states[n + 1]);
  }

  /** Rounds copy the leader's log or strictly lower its next index, so it is copied before they run out. */
  lemma {:induction false} CaughtUp(r: Run, n: nat, i: nat, peer: nat, ts: seq<Times>, commit: int)
    requires IsRun(r) && Ready(r, n, i, peer) && Rounds(r, n, i, peer, ts)
    requires Pair(At(r, n, i), At(r, n, peer), peer) && commit <= At(r, n, i).commitIndex
    requires |ts| >= At(r, n, i).nextIndex[peer] || Copied(At(r, n, peer), At(r, n, i).log, commit)
    ensures Ready(r, |r.steps|, i, peer) && At(r, |r.steps|, i).log == At(r, n, i).log
    ensures Copied(At(r, |r.steps|, peer), At(r, n, i).log, commit)
    decreases |ts|
  {
    hide IsRun, Exchange, Round, Quiet, WfLog, LogsMatch;
    if ts == [] {
      QuietKeeps(r, n, |r.steps|, i, peer);
    } else {
      var t := ts[0];
      QuietKeeps(r, n, t.send, i, peer);
      RoundExchanges(r, t, i, peer);
      ExchangeStep(At(r, n, i), At(r, n, peer), peer, t.unset);
      CaughtUp(r, t.answer + 1, i, peer, ts[1..], commit);
    }
  }

  /**
   From every reachable state with a leader and a peer whose term is not ahead, deposed leaders
   included, every run that goes on with at least as many rounds as the leader's next index for the
   peer ends with the peer holding the leader's log, committed as far as the leader's was.  Any steps of
   other servers and of the network may come in between, and the uninitialised reply fields may hold anything.
   */
  lemma CatchUpTerminates(r: Run, n: nat, i: nat, peer: nat, ts: seq<Times>)
    requires IsRun(r) && Ready(r, n, i, peer) && Rounds(r, n, i, peer, ts)
    ensures peer < |At(r, n, i).nextIndex| && 1 <= At(r, n, i).nextIndex[peer] <= |At(r, n, i).log|
    ensures |ts| >= At(r, n, i).nextIndex[peer] ==>
      Has(r, |r.steps|, peer) && Copied(At(r, |r.steps|, peer), At(r, n, i).log, At(r, n, i).commitIndex)
  {
    ReachablePair(r, n, i, peer);
    if |ts| >= At(r, n, i).nextIndex[peer] { CaughtUp(r, n, i, peer, ts, At(r, n, i).commitIndex); }
  }

  lemma AddRound(r: Run, i: nat, peer: nat, unset: int) returns (q: Run)
    requires IsRun(r) && Ready(r, |r.steps|, i, peer)
    ensures IsRun(q) && r.steps <= q.steps && r.states <= q.states && |q.steps| == |r.steps| + 3
    ensures Round(q, Times(|r.steps|, |r.steps| + 1, |r.steps| + 2, unset), i, peer)
  {
    hide AppendLog, HandleAppendReply, WfLog, LogsMatch;
    var s, k := Tail(r), |Tail(r).appends|;
    ReachablePair(r, |r.steps|, i, peer);
    WfContiguous(s.nodes[peer].log);
    WfContiguous(s.nodes[i].log);
    var q1 := Extend(r, SendAppend(i, peer));
    var q2 := Extend(q1, HandleAppend(k, unset));
    q := Extend(q2, HandleAppendAnswer(AppendAnswer(k, AppendLog(s.nodes[peer], HeartBeat(s.nodes[i], peer), unset).1)));
  }

  /** Such a round can always be added. */
  lemma RoundPossible(r: Run, i: nat, peer: nat, unset: int) returns (q: Run)
    requires IsRun(r) && Ready(r, |r.steps|, i, peer)
    ensures IsRun(q) && r.steps <= q.steps && r.states <= q.states && |q.steps| == |r.steps| + 3
    ensures Rounds(q, |r.steps|, i, peer, [Times(|r.steps|, |r.steps| + 1, |r.steps| + 2, unset)]) && Ready(q, |q.steps|, i, peer)
  {
    hide Exchange, WfLog, LogsMatch;
    q := AddRound(r, i, peer, unset);
    var t := Times(|r.steps|, |r.steps| + 1, |r.steps| + 2, unset);
    RoundExchanges(q, t, i, peer);
    ExchangeStep(At(q, |r.steps|, i), At(q, |r.steps|, peer), peer, unset);
    assert [t][1..] == [];
  }
}
