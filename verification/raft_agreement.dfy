/**
 Commit indices, for runs in which no accepted append cuts a log short within its
 own term.
 */
module RaftAgreement {
  import opened Bytes
  import opened RaftTypes
  import opened RaftNode
  import opened RaftCluster
  import opened RaftHistory
  import opened RaftElection
  import opened RaftLog
  import opened RaftLogSteps
  import opened RaftCommit
  import opened RaftSurvival

  /** The first k entries of l are those of a committed prefix of term t. */
  ghost predicate Witness(s: Cluster, h: History, l: seq<LogEntry>, k: int, t: int, n: int) {
    Committed(s, h, t, n) && 0 <= k <= n && k < |l| && l[..k + 1] == h.termLog[t][..k + 1]
  }

  ghost predicate NodeWitness(s: Cluster, h: History, i: nat, t: int, n: int)
    requires i < |s.nodes|
  {
    && t <= s.nodes[i].currentTerm && Witness(s, h, s.nodes[i].log, s.nodes[i].commitIndex, t, n)
    && (t == s.nodes[i].currentTerm ==> Acked(h, t, i, s.nodes[i].commitIndex))
  }

  ghost predicate CommitAt(s: Cluster, h: History, i: nat)
    requires i < |s.nodes|
  {
    && 0 <= s.nodes[i].commitIndex < |s.nodes[i].log|
    && (s.nodes[i].commitIndex == 0 || exists t: int, n: int :: NodeWitness(s, h, i, t, n))
  }

  ghost predicate SentWitness(s: Cluster, h: History, a: AppendArgs, t: int, n: int) {
    t <= a.term && a.term in h.termLog && Witness(s, h, h.termLog[a.term], a.leaderCommit, t, n)
  }

  ghost predicate SentCommitAt(s: Cluster, h: History, k: nat)
    requires k < |s.appends|
  {
    var a := s.appends[k].args;
    0 <= a.leaderCommit <= SentLast(a) && (a.leaderCommit == 0 || exists t: int, n: int :: SentWitness(s, h, a, t, n))
  }

  /** What a leader believes about its peers is true, and it holds its own log. */
  ghost predicate MatchAt(s: Cluster, h: History, i: nat)
    requires i < |s.nodes|
  {
    var n := s.nodes[i];
    n.role == Leader ==>
      && |n.matchIndex| == |s.nodes|
      && Acked(h, n.currentTerm, i, |n.log| - 1)
      && forall p: nat :: p < |s.nodes| && p != i && n.matchIndex[p] > 0 ==> Acked(h, n.currentTerm, p, n.matchIndex[p])
  }

  ghost predicate AckedAnswer(s: Cluster, h: History, r: AppendAnswer) {
    r.sent < |s.appends| && (r.reply.success ==>
      Acked(h, s.appends[r.sent].args.term, s.appends[r.sent].dst, SentLast(s.appends[r.sent].args)))
  }

  ghost predicate CommitsInv(s: Cluster, h: History) {
    forall i: nat :: i < |s.nodes| ==> CommitAt(s, h, i)
  }
  ghost predicate SentInv(s: Cluster, h: History) {
    forall k: nat :: k < |s.appends| ==> SentCommitAt(s, h, k)
  }
  ghost predicate MatchInv(s: Cluster, h: History) {
    && (forall i: nat :: i < |s.nodes| ==> MatchAt(s, h, i))
    && (forall r :: r in s.appendAnswers ==> AckedAnswer(s, h, r))
  }
  ghost predicate AgreementInv(s: Cluster, h: History) {
    CommitsInv(s, h) && SentInv(s, h) && MatchInv(s, h)
  }

  /** The safety invariant of runs in which no accepted append cuts a log short. */
  ghost predicate GuardedInv(s: Cluster, h: History) {
    Inv(s, h) && SurvivalInv(s, h) && AgreementInv(s, h)
  }

  // ----- Two committed prefixes agree -----

  lemma CommittedPrefixesAgree(s: Cluster, h: History, t: int, n: int, t': int, n': int, k: int)
    requires Inv(s, h) && SurvivalInv(s, h) && Committed(s, h, t, n) && Committed(s, h, t', n') && 0 <= k <= n && k <= n'
    ensures h.termLog[t][..k + 1] == h.termLog[t'][..k + 1]
  {
    if t < t' {
      LaterLeaderHas(s, h, t, n, t');
      CutPrefix(h.termLog[t], h.termLog[t'], n, k);
    }
    if t' < t {
      LaterLeaderHas(s, h, t', n', t);
      CutPrefix(h.termLog[t'], h.termLog[t], n', k);
    }
  }

  lemma CutPrefix(a: seq<LogEntry>, b: seq<LogEntry>, n: int, k: int)
    requires 0 <= k <= n < |a| && a[..n + 1] <= b
    ensures k < |b| && a[..k + 1] == b[..k + 1]
  {
    assert a[..k + 1] == a[..n + 1][..k + 1];
  }

  /** Leader completeness on the history: a later leader was elected with every committed entry. */
  lemma LaterLeaderHas(s: Cluster, h: History, t: int, n: int, t': int)
    requires Inv(s, h) && SurvivalInv(s, h) && Committed(s, h, t, n) && t < t' && t' in h.termLog
    ensures t' in h.leaderOf && (t', h.leaderOf[t']) in h.candLog
    ensures h.termLog[t][..n + 1] <= ElectLog(h, t') <= h.termLog[t']
  {
    assert TermOk(h, t') && LeaderKeeps(s, h, t') && Survives(s, h, t, n, ElectLog(h, t'));
    CommittedNotDead(s, h, t, n);
  }

  // ----- Steps -----

  ghost predicate AcksGrow(h: History, h': History) {
    forall t: int, v: nat, n: int :: Acked(h, t, v, n) ==> Acked(h', t, v, n)
  }

  lemma CommittedGrows(s: Cluster, h: History, s': Cluster, h': History, t: int, n: int)
    requires Committed(s, h, t, n) && Grows(h, h') && AcksGrow(h, h') && |s'.nodes| == |s.nodes|
    ensures Committed(s', h', t, n) && h.termLog[t] <= h'.termLog[t]
  {
    var q :| HeldBy(s, h, t, n, q);
    assert HeldBy(s', h', t, n, q);
  }

  lemma WitnessGrows(s: Cluster, h: History, s': Cluster, h': History, l: seq<LogEntry>, k: int, t: int, n: int, l': seq<LogEntry>)
    requires Witness(s, h, l, k, t, n) && Grows(h, h') && AcksGrow(h, h') && |s'.nodes| == |s.nodes|
    requires k < |l'| && l'[..k + 1] == l[..k + 1]
    ensures Witness(s', h', l', k, t, n)
  {
    CommittedGrows(s, h, s', h', t, n);
    assert h'.termLog[t][..k + 1] == h.termLog[t][..k + 1];
  }

  lemma SentKept(s: Cluster, h: History, s': Cluster, h': History, k: nat)
    requires k < |s.appends| && SentCommitAt(s, h, k) && s.appends <= s'.appends && AppendAt(s, h, k)
    requires Grows(h, h') && AcksGrow(h, h') && |s'.nodes| == |s.nodes|
    ensures SentCommitAt(s', h', k)
  {
    var a := s.appends[k].args;
    if a.leaderCommit != 0 {
      var t: int, n: int :| SentWitness(s, h, a, t, n);
      var l, l' := h.termLog[a.term], h'.termLog[a.term];
      assert l' [..|l|] == l;
      WitnessGrows(s, h, s', h', l, a.leaderCommit, t, n, l');
      assert SentWitness(s', h', a, t, n);
    }
  }

  /** A node whose log keeps what it committed keeps its commit index justified. */
  lemma CommitKept(s: Cluster, h: History, s': Cluster, h': History, i: nat)
    requires i < |s.nodes| == |s'.nodes| && CommitAt(s, h, i) && Grows(h, h') && AcksGrow(h, h')
    requires s'.nodes[i].commitIndex == s.nodes[i].commitIndex && s.nodes[i].log <= s'.nodes[i].log
    requires s.nodes[i].currentTerm <= s'.nodes[i].currentTerm
    ensures CommitAt(s', h', i)
  {
    if s.nodes[i].commitIndex != 0 {
      var t: int, n: int :| NodeWitness(s, h, i, t, n);
      assert s'.nodes[i].log[..|s.nodes[i].log|] == s.nodes[i].log;
      WitnessGrows(s, h, s', h', s.nodes[i].log, s.nodes[i].commitIndex, t, n, s'.nodes[i].log);
      assert NodeWitness(s', h', i, t, n);
    }
  }

  lemma MatchKept(s: Cluster, h: History, s': Cluster, h': History, i: nat)
    requires i < |s.nodes| == |s'.nodes| && MatchAt(s, h, i) && AcksGrow(h, h')
    requires s'.nodes[i].role == Leader ==>
      s.nodes[i].role == Leader && s'.nodes[i].currentTerm == s.nodes[i].currentTerm
      && s'.nodes[i].matchIndex == s.nodes[i].matchIndex && s'.nodes[i].log == s.nodes[i].log
    ensures MatchAt(s', h', i)
  {
  }

  /** All but node i is untouched. */
  ghost predicate OnlyNode(s: Cluster, h: History, s': Cluster, h': History, i: nat) {
    && i < |s.nodes| == |s'.nodes| && s'.nodes == s.nodes[i := s'.nodes[i]]
    && s.appends <= s'.appends && Grows(h, h') && AcksGrow(h, h')
  }

  lemma OthersKept(s: Cluster, h: History, s': Cluster, h': History, i: nat)
    requires AgreementInv(s, h) && AppendsInv(s, h) && OnlyNode(s, h, s', h', i)
    requires CommitAt(s', h', i) && MatchAt(s', h', i)
    requires forall r :: r in s'.appendAnswers ==> r in s.appendAnswers || AckedAnswer(s', h', r)
    requires forall k: nat :: |s.appends| <= k < |s'.appends| ==> SentCommitAt(s', h', k)
    ensures AgreementInv(s', h')
  {
    forall j: nat | j < |s'.nodes| ensures CommitAt(s', h', j) && MatchAt(s', h', j) {
      if j != i {
        assert CommitAt(s, h, j) && MatchAt(s, h, j);
        CommitKept(s, h, s', h', j);
        MatchKept(s, h, s', h', j);
      }
    }
    forall k: nat | k < |s'.appends| ensures SentCommitAt(s', h', k) {
      if k < |s.appends| {
        assert SentCommitAt(s, h, k) && AppendAt(s, h, k);
        SentKept(s, h, s', h', k);
      }
    }
    forall r | r in s'.appendAnswers ensures AckedAnswer(s', h', r) {
      if r in s.appendAnswers { assert AckedAnswer(s, h, r); }
    }
  }

  /** A step that leaves logs and commit indices alone. */
  lemma QuietAgreement(s: Cluster, h: History, s': Cluster, h': History, i: nat)
    requires AgreementInv(s, h) && AppendsInv(s, h) && OnlyNode(s, h, s', h', i)
    requires s'.appends == s.appends && s'.appendAnswers == s.appendAnswers
    requires
      var m, n := s.nodes[i], s'.nodes[i];
      && n.log == m.log && n.commitIndex == m.commitIndex
      && m.currentTerm <= n.currentTerm
      && (n.role == Leader ==> m.role == Leader && n.currentTerm == m.currentTerm && n.matchIndex == m.matchIndex)
    ensures AgreementInv(s', h')
  {
    assert CommitAt(s, h, i) && MatchAt(s, h, i);
    CommitKept(s, h, s', h', i);
    MatchKept(s, h, s', h', i);
    OthersKept(s, h, s', h', i);
  }

  lemma WinAgreement(s: Cluster, h: History, r: VoteAnswer)
    requires GuardedInv(s, h) && r in s.voteAnswers && Counts(s.nodes[r.request.src], r.reply)
    requires s.nodes[r.request.src].voteCount + 1 > |s.nodes| / 2
    ensures AgreementInv(Next(s, HandleVoteAnswer(r)), Record(h, s, HandleVoteAnswer(r)))
  {
    hide WfLog, FromLeaders, SurvivalInv, ElectionInv, TermsInv;
    FirstWinner(s, h, r);
    var s', h' := Next(s, HandleVoteAnswer(r)), Record(h, s, HandleVoteAnswer(r));
    var i := r.request.src;
    WonLog(s, h, r);
    assert NodeAt(s, h, i) && CommitAt(s, h, i);
    NoAckYet(s, h, s.nodes[i].currentTerm);
    assert AcksGrow(h, h');
    CommitKept(s, h, s', h', i);
    OthersKept(s, h, s', h', i);
  }

  /** A term without a leader has no acknowledgement. */
  lemma NoAckYet(s: Cluster, h: History, t: int)
    requires GuardedInv(s, h) && t !in h.leaderOf
    ensures forall v: nat :: (t, v) !in h.acks
  {
    forall v: nat ensures (t, v) !in h.acks {
      assert (t, v) in h.acks ==> AckAt(s, h, t, v);
    }
  }

  lemma ClientAgreement(s: Cluster, h: History, i: nat, value: seq<Byte>)
    requires GuardedInv(s, h) && i < |s.nodes| && s.nodes[i].role == Leader
    ensures AgreementInv(Next(s, ClientAppend(i, value)), Record(h, s, ClientAppend(i, value)))
  {
    hide WfLog, FromLeaders, SurvivalInv, ElectionInv, TermsInv;
    var s', h' := Next(s, ClientAppend(i, value)), Record(h, s, ClientAppend(i, value));
    ClientLog(s, h, i, value);
    assert NodeAt(s, h, i) && CommitAt(s, h, i) && MatchAt(s, h, i);
    LeaderAckExact(s, h, i);
    assert AcksGrow(h, h');
    CommitKept(s, h, s', h', i);
    OthersKept(s, h, s', h', i);
  }

  lemma LeaderAckExact(s: Cluster, h: History, i: nat)
    requires GuardedInv(s, h) && i < |s.nodes| && s.nodes[i].role == Leader
    ensures (s.nodes[i].currentTerm, i) in h.acks && h.acks[(s.nodes[i].currentTerm, i)] == |s.nodes[i].log| - 1
  {
    assert MatchAt(s, h, i) && NodeAt(s, h, i);
    assert AckAt(s, h, s.nodes[i].currentTerm, i);
  }

  /** A request carries a commit index its own entries cover. */
  lemma SentCommit(s: Cluster, h: History, s': Cluster, i: nat, a: AppendArgs, k: nat)
    requires i < |s.nodes| && s'.nodes == s.nodes && CommitAt(s', h, i) && k < |s'.appends| && s'.appends[k].args == a
    requires a.term == s.nodes[i].currentTerm && a.leaderCommit == s.nodes[i].commitIndex
    requires a.term in h.termLog && h.termLog[a.term] == s.nodes[i].log && SentLast(a) + 1 == |s.nodes[i].log|
    ensures SentCommitAt(s', h, k)
  {
    if a.leaderCommit != 0 {
      var t: int, m: int :| NodeWitness(s', h, i, t, m);
      assert SentWitness(s', h, a, t, m);
    }
  }

  lemma SendAgreement(s: Cluster, h: History, i: nat, peer: nat)
    requires GuardedInv(s, h) && Enabled(s, SendAppend(i, peer))
    ensures AgreementInv(Next(s, SendAppend(i, peer)), h)
  {
    hide WfLog, FromLeaders, SurvivalInv, ElectionInv, AppendOk;
    SentRequest(s, h, i, peer);
    var s' := Next(s, SendAppend(i, peer));
    assert NodeAt(s, h, i) && CommitAt(s, h, i) && MatchAt(s, h, i);
    CommitKept(s, h, s', h, i);
    SentCommit(s, h, s', i, HeartBeat(s.nodes[i], peer), |s.appends|);
    OthersKept(s, h, s', h, i);
  }

  // ----- Counting replicas -----

  /** The servers the counting loop has counted for index `at`. */
  ghost function Holders(n: Node, at: int, upTo: nat): (q: set<nat>)
    requires upTo <= |n.matchIndex| && 0 <= n.id
    ensures n.id in q && forall p :: p in q ==> p == n.id || (p < upTo && n.matchIndex[p] >= at)
    ensures |q| == Replicas(n, at, upTo)
  {
    if upTo == 0 then {n.id}
    else
      var p := upTo - 1;
      Holders(n, at, p) + (if p != n.id && n.matchIndex[p] >= at then {p} else {})
  }

  /** The counting loop stops at an entry of the leader's own term that a majority is known to hold. */
  lemma {:induction false} ScanFinds(n: Node, at: int)
    requires Contiguous(n.log) && n.log[0].index == 0 && 0 <= n.commitIndex && at <= Last(n.log).index
    ensures
      var k := CommitScan(n, at);
      k == n.commitIndex || (n.commitIndex < k <= at && n.log[k].term == n.currentTerm && Replicas(n, k, |n.matchIndex|) > n.size / 2)
    decreases at - n.commitIndex
  {
    if at > n.commitIndex && n.log[at].term == n.currentTerm && Replicas(n, at, |n.matchIndex|) <= n.size / 2 {
      ScanFinds(n, at - 1);
    }
  }

  /** What the counting loop commits is held by a quorum. */
  lemma CountedIsCommitted(s: Cluster, h: History, n: Node, i: nat, k: int)
    requires TermsInv(h) && i < |s.nodes| && n.id == i && n.size == |s.nodes| && n.role == Leader && 0 < k < |n.log|
    requires n.currentTerm in h.termLog && h.termLog[n.currentTerm] == n.log && n.log[k].term == n.currentTerm
    requires |n.matchIndex| == |s.nodes| && Replicas(n, k, |n.matchIndex|) > |s.nodes| / 2
    requires Acked(h, n.currentTerm, i, |n.log| - 1)
    requires forall p: nat :: p < |s.nodes| && p != i && n.matchIndex[p] > 0 ==> Acked(h, n.currentTerm, p, n.matchIndex[p])
    ensures Committed(s, h, n.currentTerm, k)
  {
    var t := n.currentTerm;
    assert TermOk(h, t) && CandLogOk(h, t, h.leaderOf[t]);
    var e := ElectLog(h, t);
    assert forall j :: 0 <= j < |e| ==> n.log[j] == e[j];
    var q := Holders(n, k, |n.matchIndex|);
    assert HeldBy(s, h, t, k, q);
  }

  /** A reply only teaches a leader what the follower has acknowledged. */
  lemma NotedMatch(s: Cluster, h: History, r: AppendAnswer)
    requires GuardedInv(s, h) && r in s.appendAnswers
    requires
      var m := s.appends[r.sent];
      s.nodes[m.src].role == Leader && m.args.term == s.nodes[m.src].currentTerm
    ensures
      var m := s.appends[r.sent];
      var n := Note(s.nodes[m.src], m.dst, m.args, r.reply);
      && |n.matchIndex| == |s.nodes| && n == s.nodes[m.src].(nextIndex := n.nextIndex, matchIndex := n.matchIndex)
      && forall p: nat :: p < |s.nodes| && p != m.src && n.matchIndex[p] > 0 ==> Acked(h, n.currentTerm, p, n.matchIndex[p])
  {
    hide WfLog, FromLeaders, SurvivalInv;
    var m := s.appends[r.sent];
    assert AppendAt(s, h, r.sent) && MatchAt(s, h, m.src) && AckedAnswer(s, h, r) && NodeAt(s, h, m.src);
    LastSent(h, s.nodes[m.src].log, m.args);
  }

  lemma AnswerAgreement(s: Cluster, h: History, r: AppendAnswer)
    requires GuardedInv(s, h) && r in s.appendAnswers
    ensures AgreementInv(Next(s, HandleAppendAnswer(r)), h)
  {
    hide WfLog, FromLeaders, SurvivalInv;
    var s' := Next(s, HandleAppendAnswer(r));
    var m := s.appends[r.sent];
    AnsweredNode(s, h, r);
    var n0 := s.nodes[m.src];
    if n0.role == Leader && m.args.term == n0.currentTerm && r.reply.term <= n0.currentTerm {
      NotedMatch(s, h, r);
      NotedAgreement(s, h, s', m.src, Note(n0, m.dst, m.args, r.reply));
    } else {
      QuietAgreement(s, h, s', h, m.src);
    }
  }

  lemma NotedAgreement(s: Cluster, h: History, s': Cluster, i: nat, n: Node)
    requires GuardedInv(s, h) && i < |s.nodes| && s.nodes[i].role == Leader
    requires n == s.nodes[i].(nextIndex := n.nextIndex, matchIndex := n.matchIndex) && |n.matchIndex| == |s.nodes|
    requires forall p: nat :: p < |s.nodes| && p != i && n.matchIndex[p] > 0 ==> Acked(h, n.currentTerm, p, n.matchIndex[p])
    requires Contiguous(n.log) && n.log[0].index <= n.commitIndex
    requires s' == s.(nodes := s.nodes[i := n.(commitIndex := CommitScan(n, Last(n.log).index))])
    ensures AgreementInv(s', h)
  {
    hide WfLog, FromLeaders, SurvivalInv, ElectionInv, CommitScan;
    NotedCommit(s, h, s', i, n);
    assert MatchAt(s, h, i);
    OthersKept(s, h, s', h, i);
  }

  lemma NotedCommit(s: Cluster, h: History, s': Cluster, i: nat, n: Node)
    requires GuardedInv(s, h) && i < |s.nodes| && s.nodes[i].role == Leader
    requires n == s.nodes[i].(nextIndex := n.nextIndex, matchIndex := n.matchIndex) && |n.matchIndex| == |s.nodes|
    requires forall p: nat :: p < |s.nodes| && p != i && n.matchIndex[p] > 0 ==> Acked(h, n.currentTerm, p, n.matchIndex[p])
    requires Contiguous(n.log) && n.log[0].index <= n.commitIndex
    requires s' == s.(nodes := s.nodes[i := n.(commitIndex := CommitScan(n, Last(n.log).index))])
    ensures CommitAt(s', h, i) && MatchAt(s', h, i)
  {
    hide WfLog, FromLeaders, SurvivalInv, ElectionInv;
    assert NodeAt(s, h, i) && CommitAt(s, h, i) && MatchAt(s, h, i);
    WfContiguous(n.log);
    ScanFinds(n, Last(n.log).index);
    var k := s'.nodes[i].commitIndex;
    if k == n.commitIndex {
      CommitKept(s, h, s', h, i);
    } else {
      CountedIsCommitted(s', h, n, i, k);
      assert NodeWitness(s', h, i, n.currentTerm, k);
    }
  }

  // ----- Accepting an append -----

  /** The request reaches as far as whatever the receiver acknowledged in its term. */
  ghost predicate Reaches(h: History, m: AppendRequest) {
    (m.args.term, m.dst) in h.acks ==> h.acks[(m.args.term, m.dst)] <= SentLast(m.args)
  }

  /** An accepted append that does not cut the log short never takes back what was acknowledged in its term. */
  lemma HarmlessReaches(s: Cluster, h: History, k: nat, unset: int)
    requires Inv(s, h) && SurvivalInv(s, h) && k < |s.appends| && Harmless(s, k, unset)
    requires AppendLog(s.nodes[s.appends[k].dst], s.appends[k].args, unset).1.success
    ensures Reaches(h, s.appends[k])
  {
    hide WfLog, FromLeaders, AppendLog, ElectionInv;
    var m := s.appends[k];
    var t, v := m.args.term, m.dst;
    TookFacts(s, h, k, unset);
    assert AppendAt(s, h, k) && NodeAt(s, h, v) && TermOk(h, t);
    WfContiguous(s.nodes[v].log);
    assert (t, v) in h.acks ==> AckAt(s, h, t, v);
    assert (t, v) in h.acks ==> s.nodes[v].log == h.termLog[t][..h.acks[(t, v)] + 1];
  }

  /** The log a follower gets from a leader of term t0 agrees with all the follower has committed. */
  lemma AcceptKeepsCommit(s: Cluster, h: History, i: nat, t0: int, m: int, t: int, n: int)
    requires Inv(s, h) && SurvivalInv(s, h) && i < |s.nodes| && NodeWitness(s, h, i, t, n)
    requires t0 in h.termLog && t0 in h.leaderOf && (t0, h.leaderOf[t0]) in h.candLog
    requires 0 <= m < |h.termLog[t0]| && |ElectLog(h, t0)| <= m + 1 && s.nodes[i].currentTerm <= t0
    requires (t0, i) in h.acks ==> h.acks[(t0, i)] <= m
    ensures
      var k, l := s.nodes[i].commitIndex, h.termLog[t0][..m + 1];
      k <= m && l[..k + 1] == h.termLog[t][..k + 1] && l[..k + 1] == s.nodes[i].log[..k + 1]
  {
    hide WfLog, FromLeaders, ElectionInv, NodesInv, AppendsInv;
    var k, l := s.nodes[i].commitIndex, h.termLog[t0][..m + 1];
    if t < t0 {
      LaterLeaderHas(s, h, t, n, t0);
      assert ElectLog(h, t0) <= l;
      CutPrefix(h.termLog[t], l, n, k);
    } else {
      assert l[..k + 1] == h.termLog[t0][..k + 1];
    }
  }

  /** Server i has accepted request k of leader a.term, taking nothing back. */
  ghost predicate AcceptedBy(s: Cluster, h: History, s': Cluster, h': History, i: nat, a: AppendArgs, k: nat) {
    && OnlyNode(s, h, s', h', i) && k < |s.appends| && s.appends[k].args == a
    && a.term in h.termLog && a.term in h.leaderOf && (a.term, h.leaderOf[a.term]) in h.candLog
    && h'.acks == h.acks[(a.term, i) := SentLast(a)] && h'.termLog == h.termLog
    && 0 <= SentLast(a) < |h.termLog[a.term]| && |ElectLog(h, a.term)| <= SentLast(a) + 1
    && ((a.term, i) in h.acks ==> h.acks[(a.term, i)] <= SentLast(a))
    && var m, n := s.nodes[i], s'.nodes[i];
    && m.log != [] && n.log == h.termLog[a.term][..SentLast(a) + 1] && n.currentTerm == a.term >= m.currentTerm
    && n.commitIndex == (if m.commitIndex < a.leaderCommit then Min(a.leaderCommit, Last(n.log).index) else m.commitIndex)
    && Last(n.log).index == |n.log| - 1 && n.log[0] == m.log[0]
  }

  /** The commit index stays. */
  lemma AcceptedStays(s: Cluster, h: History, s': Cluster, h': History, i: nat, a: AppendArgs, k: nat)
    requires GuardedInv(s, h) && AcceptedBy(s, h, s', h', i, a, k)
    ensures s.nodes[i].commitIndex <= SentLast(a)
    ensures s'.nodes[i].commitIndex == s.nodes[i].commitIndex ==> CommitAt(s', h', i)
  {
    hide WfLog, FromLeaders, ElectionInv, SurvivalInv, NodesInv, AppendsInv, TermsInv, SentInv, MatchInv;
    assert CommitAt(s, h, i);
    var m, n := s.nodes[i], s'.nodes[i];
    if m.commitIndex != 0 {
      var t: int, q: int :| NodeWitness(s, h, i, t, q);
      AcceptKeepsCommit(s, h, i, a.term, SentLast(a), t, q);
      if n.commitIndex == m.commitIndex {
        WitnessGrows(s, h, s', h', m.log, m.commitIndex, t, q, n.log);
        assert NodeWitness(s', h', i, t, q);
      }
    }
  }

  /** The commit index follows the leader's. */
  lemma AcceptedFollows(s: Cluster, h: History, s': Cluster, h': History, i: nat, a: AppendArgs, k: nat)
    requires GuardedInv(s, h) && AcceptedBy(s, h, s', h', i, a, k)
    requires 0 <= s.nodes[i].commitIndex <= SentLast(a) && s'.nodes[i].commitIndex != s.nodes[i].commitIndex
    ensures CommitAt(s', h', i)
  {
    hide WfLog, FromLeaders, ElectionInv, SurvivalInv, NodesInv, AppendsInv, TermsInv, CommitsInv, MatchInv;
    assert SentCommitAt(s, h, k);
    var n, l := s'.nodes[i], h.termLog[a.term];
    var t: int, q: int :| SentWitness(s, h, a, t, q);
    assert n.log[..n.commitIndex + 1] == l[..n.commitIndex + 1];
    WitnessGrows(s, h, s', h', l, a.leaderCommit, t, q, n.log);
    assert NodeWitness(s', h', i, t, q);
  }

  /** A follower after an accepted append: its commit index is justified. */
  lemma AcceptedCommit(s: Cluster, h: History, s': Cluster, h': History, i: nat, a: AppendArgs, k: nat)
    requires GuardedInv(s, h) && AcceptedBy(s, h, s', h', i, a, k)
    ensures CommitAt(s', h', i)
  {
    hide Inv, SurvivalInv, SentInv, MatchInv, AcceptedBy;
    FollowerIndex(s, h, s', h', i, a, k);
    AcceptedStays(s, h, s', h', i, a, k);
    if s'.nodes[i].commitIndex != s.nodes[i].commitIndex { AcceptedFollows(s, h, s', h', i, a, k); }
  }

  lemma FollowerIndex(s: Cluster, h: History, s': Cluster, h': History, i: nat, a: AppendArgs, k: nat)
    requires CommitsInv(s, h) && AcceptedBy(s, h, s', h', i, a, k)
    ensures i < |s.nodes| == |s'.nodes| && s.nodes[i].commitIndex >= 0
  {
    assert CommitAt(s, h, i);
  }

  lemma AcceptedNodeOk(s: Cluster, h: History, s': Cluster, h': History, k: nat)
    requires GuardedInv(s, h) && k < |s.appends| && Reaches(h, s.appends[k]) && AppendOk(s, h, s.appends[k]) && Handled(s, h, s', h', k, true)
    ensures OnlyNode(s, h, s', h', s.appends[k].dst)
    ensures CommitAt(s', h', s.appends[k].dst)
  {
    hide WfLog, FromLeaders, Inv, SurvivalInv, AgreementInv, OnlyNode, CommitAt;
    var m := s.appends[k];
    AcceptOnly(s, h, s', h', k);
    AcceptedCommit(s, h, s', h', m.dst, m.args, k);
  }

  lemma AcceptOnly(s: Cluster, h: History, s': Cluster, h': History, k: nat)
    requires k < |s.appends| && s.appends[k].dst < |s.nodes| && Handled(s, h, s', h', k, true) && Reaches(h, s.appends[k])
    ensures OnlyNode(s, h, s', h', s.appends[k].dst)
  {
    hide Took;
  }

  lemma AcceptAgreement(s: Cluster, h: History, s': Cluster, h': History, k: nat)
    requires GuardedInv(s, h) && k < |s.appends| && Reaches(h, s.appends[k]) && AppendOk(s, h, s.appends[k]) && Handled(s, h, s', h', k, true)
    ensures AgreementInv(s', h')
  {
    hide WfLog, FromLeaders, ElectionInv, SurvivalInv, TermsInv, CommitAt, OnlyNode;
    AcceptedNodeOk(s, h, s', h', k);
    OthersKept(s, h, s', h', s.appends[k].dst);
  }

  lemma RejectAgreement(s: Cluster, h: History, s': Cluster, h': History, k: nat)
    requires GuardedInv(s, h) && k < |s.appends| && AppendOk(s, h, s.appends[k]) && Handled(s, h, s', h', k, false)
    ensures AgreementInv(s', h')
  {
    hide WfLog, FromLeaders, ElectionInv, SurvivalInv, TermsInv;
    var i := s.appends[k].dst;
    assert CommitAt(s, h, i) && MatchAt(s, h, i);
    CommitKept(s, h, s', h', i);
    MatchKept(s, h, s', h', i);
    OthersKept(s, h, s', h', i);
  }

  lemma AppendAgreement(s: Cluster, h: History, k: nat, unset: int)
    requires GuardedInv(s, h) && k < |s.appends| && Harmless(s, k, unset)
    ensures AgreementInv(Next(s, HandleAppend(k, unset)), Record(h, s, HandleAppend(k, unset)))
  {
    hide Next, Record, Handled, AppendLog, ElectionInv, LogInv, SurvivalInv, AgreementInv;
    HandledFacts(s, h, k, unset);
    var s', h' := Next(s, HandleAppend(k, unset)), Record(h, s, HandleAppend(k, unset));
    if AppendLog(s.nodes[s.appends[k].dst], s.appends[k].args, unset).1.success {
      HarmlessReaches(s, h, k, unset);
      AcceptAgreement(s, h, s', h', k);
    } else {
      RejectAgreement(s, h, s', h', k);
    }
  }

  // ----- All steps -----

  lemma VotesAgreement(s: Cluster, h: History, step: Step)
    requires GuardedInv(s, h) && Enabled(s, step) && (step.Campaign? || step.HandleVoteRequest? || step.HandleVoteAnswer?)
    ensures AgreementInv(Next(s, step), Record(h, s, step))
  {
    hide WfLog, FromLeaders, SurvivalInv, ElectionInv, TermsInv;
    var s', h' := Next(s, step), Record(h, s, step);
    LogStep(s, h, step);
    match step
    case Campaign(i) => QuietAgreement(s, h, s', h', i);
    case HandleVoteRequest(r) => QuietAgreement(s, h, s', h', r.dst);
    case HandleVoteAnswer(r) =>
      var n := s.nodes[r.request.src];
      assert NodeAt(s, h, r.request.src);
      if Counts(n, r.reply) && n.voteCount + 1 > n.size / 2 { WinAgreement(s, h, r); }
      else { QuietAgreement(s, h, s', h', r.request.src); }
  }

  /** Every step but an accepted append that cuts a log short keeps the agreement invariant. */
  lemma AgreementStep(s: Cluster, h: History, step: Step)
    requires GuardedInv(s, h) && Enabled(s, step) && (step.HandleAppend? ==> Harmless(s, step.k, step.unset))
    ensures AgreementInv(Next(s, step), Record(h, s, step))
  {
    match step
    case ClientAppend(i, value) =>
      if s.nodes[i].role == Leader { ClientAgreement(s, h, i, value); } else { QuietAgreement(s, h, Next(s, step), h, i); }
    case SendAppend(i, peer) => SendAgreement(s, h, i, peer);
    case HandleAppend(k, unset) => AppendAgreement(s, h, k, unset);
    case HandleAppendAnswer(r) => AnswerAgreement(s, h, r);
    case ApplyBegin(i) => QuietAgreement(s, h, Next(s, step), h, i);
    case ApplyPush(i, _) => QuietAgreement(s, h, Next(s, step), h, i);
    case ApplyEnd(i, _) => QuietAgreement(s, h, Next(s, step), h, i);
    case TimerSelfVote(i) => QuietAgreement(s, h, Next(s, step), h, i);
    case LeaseExpires(i) => QuietAgreement(s, h, Next(s, step), h, i);
    case StepDown(i) => QuietAgreement(s, h, Next(s, step), h, i);
    case _ => VotesAgreement(s, h, step);
  }

  lemma GuardedStep(s: Cluster, h: History, step: Step)
    requires GuardedInv(s, h) && Enabled(s, step) && (step.HandleAppend? ==> Harmless(s, step.k, step.unset))
    ensures GuardedInv(Next(s, step), Record(h, s, step)) && Grows(h, Record(h, s, step))
  {
    hide ElectionInv, LogInv;
    InvStep(s, h, step);
    SurvivalStep(s, h, step);
    AgreementStep(s, h, step);
  }

  lemma GuardedInit(s: Cluster)
    requires Initial(s)
    ensures GuardedInv(s, NO_HISTORY)
  {
    InvInit(s);
    forall i: nat | i < |s.nodes| ensures CommitAt(s, NO_HISTORY, i) && MatchAt(s, NO_HISTORY, i) {
      var lease :| s.nodes[i] == Init(i, |s.nodes|, lease);
    }
  }
}
