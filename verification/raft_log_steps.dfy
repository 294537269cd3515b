/** Every step of the cluster keeps the log invariant, whatever the network does to appends. */
module RaftLogSteps {
  import opened Bytes
  import opened RaftTypes
  import opened RaftNode
  import opened RaftCluster
  import opened RaftHistory
  import opened RaftElection
  import opened RaftLog

  lemma HandlersDefined(s: Cluster, h: History)
    requires ElectionInv(s, h) && LogInv(s, h)
    ensures WellFormed(s)
  {
    forall i | 0 <= i < |s.nodes| ensures WellFormedNode(s.nodes[i], i, |s.nodes|) { assert NodeAt(s, h, i); }
    forall r | r in s.voteRequests ensures r.src < |s.nodes| && r.dst < |s.nodes| { assert PendingRequestOk(s, h, r); }
    forall r | r in s.voteAnswers ensures r.request.src < |s.nodes| && r.request.dst < |s.nodes| { assert AnswerOk(s, h, r); }
    forall k | 0 <= k < |s.appends| ensures s.appends[k].src < |s.nodes| && s.appends[k].dst < |s.nodes| {
      assert AppendAt(s, h, k);
    }
    forall r | r in s.appendAnswers ensures r.sent < |s.appends| { assert AckOk(s, r); }
  }

  ghost predicate LeadKept(n: Node, h: History, h': History) {
    var t := n.currentTerm;
    n.role == Leader && t in h.termLog && t in h'.termLog ==> h'.termLog[t] == h.termLog[t]
  }

  /** The other nodes are unaffected by a change of one node and a growing history. */
  lemma NodesKept(s: Cluster, h: History, s': Cluster, h': History, i: nat)
    requires NodesInv(s, h) && Grows(h, h') && i < |s.nodes| == |s'.nodes|
    requires forall j: nat :: j < |s.nodes| && j != i ==> s'.nodes[j] == s.nodes[j]
    requires NodeAt(s', h', i)
    requires forall j: nat :: j < |s.nodes| && j != i ==> LeadKept(s.nodes[j], h, h')
    requires forall t: int, j: nat :: j != i && (t, j) in h'.candLog ==> (t, j) in h.candLog
    ensures NodesInv(s', h')
  {
    forall j: nat | j < |s'.nodes| ensures NodeAt(s', h', j) {
      if j != i {
        assert NodeAt(s, h, j);
        ConsistentGrows(h, h', s.nodes[j].log);
      }
    }
  }

  lemma AppendsKept(s: Cluster, h: History, s': Cluster, h': History)
    requires AppendsInv(s, h) && Grows(h, h') && |s'.nodes| == |s.nodes|
    requires s'.appends == s.appends
    requires forall r :: r in s'.appendAnswers ==> r in s.appendAnswers || AckOk(s', r)
    ensures AppendsInv(s', h')
  {
    forall k: nat | k < |s'.appends| ensures AppendAt(s', h', k) {
      assert AppendAt(s, h, k);
      AppendOkGrows(s, s', h, h', s.appends[k]);
    }
    forall r | r in s'.appendAnswers ensures AckOk(s', r) {
      assert r in s.appendAnswers ==> AckOk(s, r);
    }
  }

  lemma TermsKept(h: History, h': History)
    requires TermsInv(h) && h'.leaderOf == h.leaderOf && h'.termLog == h.termLog && h'.candLog == h.candLog
    ensures TermsInv(h')
  {
    forall t: int | t in h'.termLog ensures TermOk(h', t) { assert TermOk(h, t); }
    forall t: int, c: nat | (t, c) in h'.candLog ensures CandLogOk(h', t, c) { assert CandLogOk(h, t, c); }
  }

  ghost predicate StillLeads(m: Node, n: Node) {
    && m.role == Leader && n.currentTerm == m.currentTerm
    && forall p :: 0 <= p < |n.nextIndex| ==> 1 <= n.nextIndex[p] <= |n.log|
  }

  /** A node that keeps its log, moves to no term it campaigned in and gains no lead is still fine. */
  lemma SameLog(h: History, m: Node, n: Node, i: nat, size: nat)
    requires NodeLogOk(h, m, i, size) && WellFormedNode(n, i, size) && n.log == m.log && m.currentTerm <= n.currentTerm
    requires n.role == Leader ==> StillLeads(m, n)
    requires forall t: int :: (t, i) in h.candLog ==> t <= m.currentTerm
    ensures NodeLogOk(h, n, i, size)
  {
  }

  /** A step that changes one node and not its log. */
  lemma SameLogStep(s: Cluster, h: History, s': Cluster, h': History, i: nat)
    requires Inv(s, h) && i < |s.nodes| == |s'.nodes| && s'.nodes == s.nodes[i := s'.nodes[i]]
    requires s'.appends == s.appends && s'.appendAnswers == s.appendAnswers
    requires h' == h.(votes := h'.votes, counted := h'.counted, acks := h'.acks, handled := h'.handled) && Grows(h, h')
    requires
      var m, n := s.nodes[i], s'.nodes[i];
      && WellFormedNode(n, i, |s.nodes|) && n.log == m.log && m.currentTerm <= n.currentTerm
      && (n.role == Leader ==> StillLeads(m, n))
    ensures LogInv(s', h')
  {
    VotedPast(s, h, i);
    assert NodeAt(s, h, i);
    SameLog(h, s.nodes[i], s'.nodes[i], i, |s.nodes|);
    OneNodeStep(s, h, s', h', i);
  }

  lemma CampaignTerms(h: History, h': History, t0: int, i: nat)
    requires TermsInv(h) && Grows(h, h') && h'.termLog == h.termLog && h'.leaderOf == h.leaderOf
    requires (t0, i) in h'.candLog && h'.candLog == h.candLog[(t0, i) := h'.candLog[(t0, i)]] && CandLogOk(h', t0, i)
    ensures TermsInv(h')
  {
    hide WfLog;
    forall t: int | t in h'.termLog ensures TermOk(h', t) { assert TermOk(h, t); }
    forall t: int, c: nat | (t, c) in h'.candLog ensures CandLogOk(h', t, c) {
      if (t, c) in h.candLog { assert CandLogOk(h, t, c); }
    }
  }

  lemma CampaignLog(s: Cluster, h: History, i: nat)
    requires Inv(s, h) && i < |s.nodes|
    ensures LogInv(Next(s, Campaign(i)), Record(h, s, Campaign(i))) && Grows(h, Record(h, s, Campaign(i)))
  {
    var s', h' := Next(s, Campaign(i)), Record(h, s, Campaign(i));
    hide FromLeaders, WfLog;
    var t0 := s.nodes[i].currentTerm + 1;
    assert NodeAt(s, h, i);
    VotedPast(s, h, i);
    assert Grows(h, h');
    ConsistentGrows(h, h', s.nodes[i].log);
    CampaignTerms(h, h', t0, i);
    NodesKept(s, h, s', h', i);
    AppendsKept(s, h, s', h');
  }

  /** Only the log of term t0 is new or longer. */
  lemma TermsExtend(h: History, h': History, t0: int)
    requires TermsInv(h) && Grows(h, h') && h'.candLog == h.candLog && h'.leaderOf.Keys == h'.termLog.Keys
    requires forall t: int :: t in h'.termLog && t != t0 ==> t in h.termLog && h'.termLog[t] == h.termLog[t]
    requires t0 in h'.termLog && TermOk(h', t0)
    ensures TermsInv(h')
  {
    forall t: int | t in h'.termLog ensures TermOk(h', t) {
      if t != t0 { assert TermOk(h, t); ConsistentGrows(h, h', h.termLog[t]); }
    }
    forall t: int, c: nat | (t, c) in h'.candLog ensures CandLogOk(h', t, c) {
      assert CandLogOk(h, t, c); ConsistentGrows(h, h', h.candLog[(t, c)]);
    }
  }

  /** No other node leads the term of a winner or leader. */
  lemma LeadsKept(s: Cluster, h: History, h': History, i: nat, t0: int)
    requires RolesInv(s, h) && i < |s.nodes| && (t0 in h.leaderOf ==> h.leaderOf[t0] == i)
    requires forall t: int :: t in h.termLog && t != t0 ==> t in h'.termLog && h'.termLog[t] == h.termLog[t]
    ensures forall j: nat :: j < |s.nodes| && j != i ==> LeadKept(s.nodes[j], h, h')
  {
    forall j: nat | j < |s.nodes| && j != i ensures LeadKept(s.nodes[j], h, h') {
      assert RoleOk(s, h, j);
    }
  }

  /** The log a winner leads with is the log it campaigned with. */
  lemma WinNode(s: Cluster, h: History, s': Cluster, h': History, i: nat)
    requires Inv(s, h) && i < |s.nodes| == |s'.nodes| && s'.nodes == s.nodes[i := s'.nodes[i]]
    requires s'.appends == s.appends && s'.appendAnswers == s.appendAnswers
    requires
      var m, n := s.nodes[i], s'.nodes[i];
      && m.role == Candidate && n.role == Leader && n.log == m.log && n.currentTerm == m.currentTerm
      && WellFormedNode(n, i, |s.nodes|) && (forall p :: 0 <= p < |n.nextIndex| ==> n.nextIndex[p] == |n.log|)
      && m.currentTerm !in h.leaderOf
      && h'.votes == h.votes && h'.candLog == h.candLog && h'.leaderOf == h.leaderOf[n.currentTerm := i]
      && h'.termLog == h.termLog[n.currentTerm := n.log]
    ensures Grows(h, h') && TermsInv(h') && NodeAt(s', h', i)
  {
    hide FromLeaders, WfLog;
    var t0, log := s.nodes[i].currentTerm, s.nodes[i].log;
    assert NodeAt(s, h, i) && RoleOk(s, h, i) && CandLogOk(h, t0, i);
    assert t0 !in h.termLog;
    assert Grows(h, h');
    ConsistentGrows(h, h', log);
    TermsExtend(h, h', t0);
  }

  lemma WinLog(s: Cluster, h: History, s': Cluster, h': History, i: nat)
    requires Inv(s, h) && i < |s.nodes| == |s'.nodes| && s'.nodes == s.nodes[i := s'.nodes[i]]
    requires s'.appends == s.appends && s'.appendAnswers == s.appendAnswers
    requires
      var m, n := s.nodes[i], s'.nodes[i];
      && m.role == Candidate && n.role == Leader && n.log == m.log && n.currentTerm == m.currentTerm
      && WellFormedNode(n, i, |s.nodes|) && (forall p :: 0 <= p < |n.nextIndex| ==> n.nextIndex[p] == |n.log|)
      && m.currentTerm !in h.leaderOf
      && h'.votes == h.votes && h'.candLog == h.candLog && h'.leaderOf == h.leaderOf[n.currentTerm := i]
      && h'.termLog == h.termLog[n.currentTerm := n.log]
    ensures LogInv(s', h') && Grows(h, h')
  {
    hide FromLeaders, WfLog, NodeAt, TermsInv;
    WinNode(s, h, s', h', i);
    LeadsKept(s, h, h', i, s.nodes[i].currentTerm);
    NodesKept(s, h, s', h', i);
    AppendsKept(s, h, s', h');
  }

  /** A candidate that reaches a majority is the first winner of its term. */
  lemma FirstWinner(s: Cluster, h: History, r: VoteAnswer)
    requires WellFormed(s) && ElectionInv(s, h) && r in s.voteAnswers
    requires Counts(s.nodes[r.request.src], r.reply) && s.nodes[r.request.src].voteCount + 1 > |s.nodes| / 2
    ensures s.nodes[r.request.src].currentTerm !in h.leaderOf
  {
    var i := r.request.src;
    var t := s.nodes[i].currentTerm;
    assert AnswerOk(s, h, r) && RoleOk(s, h, i) && CandidacyOk(s, h, t, i);
    var won := h.counted[(t, i)] + {r.request.dst};
    if t in h.leaderOf { OneWinner(s, h, t, i, won); }
  }

  lemma WonLog(s: Cluster, h: History, r: VoteAnswer)
    requires Inv(s, h) && Enabled(s, HandleVoteAnswer(r)) && Counts(s.nodes[r.request.src], r.reply)
    requires s.nodes[r.request.src].voteCount + 1 > |s.nodes| / 2
    ensures LogInv(Next(s, HandleVoteAnswer(r)), Record(h, s, HandleVoteAnswer(r)))
    ensures Grows(h, Record(h, s, HandleVoteAnswer(r)))
  {
    hide FromLeaders, WfLog;
    var i := r.request.src;
    assert NodeAt(s, h, i);
    WfContiguous(s.nodes[i].log);
    FirstWinner(s, h, r);
    WinLog(s, h, Next(s, HandleVoteAnswer(r)), Record(h, s, HandleVoteAnswer(r)), i);
  }

  /** What a reply that does not decide the election changes. */
  lemma UndecidedEffect(s: Cluster, h: History, r: VoteAnswer)
    requires WellFormed(s) && r in s.voteAnswers
    requires !(Counts(s.nodes[r.request.src], r.reply) && s.nodes[r.request.src].voteCount + 1 > |s.nodes| / 2)
    ensures
      var s', h', i := Next(s, HandleVoteAnswer(r)), Record(h, s, HandleVoteAnswer(r)), r.request.src;
      && |s'.nodes| == |s.nodes| && s'.nodes == s.nodes[i := s'.nodes[i]]
      && s'.appends == s.appends && s'.appendAnswers == s.appendAnswers && h' == h.(counted := h'.counted)
      && var m, n := s.nodes[i], s'.nodes[i];
      && WellFormedNode(n, i, |s.nodes|) && n.log == m.log && m.currentTerm <= n.currentTerm
      && n.nextIndex == m.nextIndex && (n.role == Leader ==> m.role == Leader && n.currentTerm == m.currentTerm)
  {
  }

  lemma VoteAnswerLog(s: Cluster, h: History, r: VoteAnswer)
    requires Inv(s, h) && Enabled(s, HandleVoteAnswer(r))
    ensures LogInv(Next(s, HandleVoteAnswer(r)), Record(h, s, HandleVoteAnswer(r)))
    ensures Grows(h, Record(h, s, HandleVoteAnswer(r)))
  {
    hide FromLeaders, WfLog, Next, Record, ElectionInv, Consistent;
    var i := r.request.src;
    assert NodeAt(s, h, i);
    if Counts(s.nodes[i], r.reply) && s.nodes[i].voteCount + 1 > |s.nodes| / 2 {
      WonLog(s, h, r);
    } else {
      UndecidedEffect(s, h, r);
      SameLogStep(s, h, Next(s, HandleVoteAnswer(r)), Record(h, s, HandleVoteAnswer(r)), i);
    }
  }

  /** A leader's log with one more entry of its own term still comes from the leaders. */
  lemma ExtendedLog(h: History, h': History, t: int, log: seq<LogEntry>, e: LogEntry)
    requires Consistent(h, log) && Grows(h, h') && t in h'.termLog && h'.termLog[t] == log + [e]
    requires e.index == |log| && e.term == t >= 1
    requires forall k :: 0 <= k < |log| ==> log[k].term <= t
    ensures Consistent(h', log + [e])
  {
    var log' := log + [e];
    ConsistentGrows(h, h', log);
    forall k | 1 <= k < |log'| ensures log'[k].term in h'.termLog && log'[..k + 1] <= h'.termLog[log'[k].term] {
      if k < |log| { assert log'[k] == log[k] && log'[..k + 1] == log[..k + 1]; }
    }
  }

  lemma ExtendedTerm(h: History, h': History, t: int, e: LogEntry)
    requires TermsInv(h) && Grows(h, h') && t in h.termLog && h'.leaderOf == h.leaderOf && h'.candLog == h.candLog
    requires h'.termLog == h.termLog[t := h.termLog[t] + [e]] && e.index == |h.termLog[t]| && e.term == t >= 1
    ensures TermsInv(h') && Consistent(h', h.termLog[t] + [e]) && Contiguous(h.termLog[t] + [e])
    ensures forall q :: 0 <= q < |h.termLog[t]| ==> h.termLog[t][q].term <= t
  {
    assert TermOk(h, t);
    TermsBounded(h, t);
    ExtendedLog(h, h', t, h.termLog[t], e);
    TermsExtend(h, h', t);
  }

  /** The leader's own log after an append. */
  lemma LeaderNodeLog(s: Cluster, h: History, s': Cluster, h': History, i: nat, e: LogEntry)
    requires Inv(s, h) && i < |s.nodes| && s.nodes[i].role == Leader
    requires s' == s.(nodes := s.nodes[i := s.nodes[i].(log := s.nodes[i].log + [e])])
    requires e.index == Last(s.nodes[i].log).index + 1 && e.term == s.nodes[i].currentTerm
    requires h' == h.(termLog := h.termLog[e.term := s.nodes[i].log + [e]], acks := h'.acks)
    ensures Grows(h, h') && TermsInv(h') && NodeAt(s', h', i)
  {
    hide FromLeaders, WfLog;
    var t0 := s.nodes[i].currentTerm;
    assert NodeAt(s, h, i) && RoleOk(s, h, i);
    assert t0 >= 1 by { assert LeaderOk(s, h, t0) && CandidacyOk(s, h, t0, i); }
    WfContiguous(s.nodes[i].log);
    ExtendedTerm(h, h', t0, e);
  }

  lemma LeaderAppendLog(s: Cluster, h: History, s': Cluster, h': History, i: nat, e: LogEntry)
    requires Inv(s, h) && i < |s.nodes| && s.nodes[i].role == Leader
    requires s' == s.(nodes := s.nodes[i := s.nodes[i].(log := s.nodes[i].log + [e])])
    requires e.index == Last(s.nodes[i].log).index + 1 && e.term == s.nodes[i].currentTerm
    requires h' == h.(termLog := h.termLog[e.term := s.nodes[i].log + [e]], acks := h'.acks)
    ensures LogInv(s', h') && Grows(h, h')
  {
    hide FromLeaders, WfLog, NodeAt, TermsInv;
    LeaderNodeLog(s, h, s', h', i, e);
    assert RoleOk(s, h, i);
    LeadsKept(s, h, h', i, s.nodes[i].currentTerm);
    NodesKept(s, h, s', h', i);
    AppendsKept(s, h, s', h');
  }

  lemma ClientLog(s: Cluster, h: History, i: nat, value: seq<Byte>)
    requires Inv(s, h) && i < |s.nodes|
    ensures LogInv(Next(s, ClientAppend(i, value)), Record(h, s, ClientAppend(i, value)))
    ensures Grows(h, Record(h, s, ClientAppend(i, value)))
  {
    var s', h' := Next(s, ClientAppend(i, value)), Record(h, s, ClientAppend(i, value));
    assert NodeAt(s, h, i);
    if s.nodes[i].role != Leader {
      SameLogStep(s, h, s', h', i);
    } else {
      LeaderAppendLog(s, h, s', h', i, LogEntry(Last(s.nodes[i].log).index + 1, s.nodes[i].currentTerm, value));
    }
  }

  lemma BuiltRequest(h: History, n: Node, peer: nat)
    requires Contiguous(n.log) && n.log[0].index == 0 && peer < |n.nextIndex| && 1 <= n.nextIndex[peer] <= |n.log|
    requires n.currentTerm in h.termLog && h.termLog[n.currentTerm] == n.log
    ensures SendsEntries(n, peer) && RequestMatches(h, HeartBeat(n, peer))
    ensures SentLast(HeartBeat(n, peer)) + 1 == |n.log| && HeartBeat(n, peer).term == n.currentTerm
  {
  }

  /** What a leader sends is its whole log past `prevLogIndex`, never a snapshot. */
  lemma SentRequest(s: Cluster, h: History, i: nat, peer: nat)
    requires Inv(s, h) && Enabled(s, SendAppend(i, peer))
    ensures SendsEntries(s.nodes[i], peer)
    ensures AppendOk(s, h, AppendRequest(i, peer, HeartBeat(s.nodes[i], peer)))
    ensures SentLast(HeartBeat(s.nodes[i], peer)) + 1 == |h.termLog[s.nodes[i].currentTerm]|
  {
    hide FromLeaders, WfLog;
    var t := s.nodes[i].currentTerm;
    assert NodeAt(s, h, i) && RoleOk(s, h, i) && TermOk(h, t);
    WfContiguous(s.nodes[i].log);
    BuiltRequest(h, s.nodes[i], peer);
  }

  lemma SendLog(s: Cluster, h: History, i: nat, peer: nat)
    requires Inv(s, h) && Enabled(s, SendAppend(i, peer))
    ensures LogInv(Next(s, SendAppend(i, peer)), h)
  {
    var s' := Next(s, SendAppend(i, peer));
    SentRequest(s, h, i, peer);
    SentAppends(s, h, s', s'.appends[|s.appends|]);
    forall j: nat | j < |s'.nodes| ensures NodeAt(s', h, j) { assert NodeAt(s, h, j); }
  }

  lemma SentAppends(s: Cluster, h: History, s': Cluster, m: AppendRequest)
    requires AppendsInv(s, h) && AppendOk(s, h, m) && s' == s.(appends := s.appends + [m])
    requires SentLast(m.args) + 1 == |h.termLog[m.args.term]|
    ensures AppendsInv(s', h)
  {
    forall k: nat | k < |s'.appends| ensures AppendAt(s', h, k) {
      if k < |s.appends| { assert AppendAt(s, h, k); }
    }
    forall r | r in s'.appendAnswers ensures AckOk(s', r) { assert AckOk(s, r); }
    forall j, k | 0 <= j < k < |s'.appends| && s'.appends[j].args.term == s'.appends[k].args.term
      ensures SentLast(s'.appends[j].args) <= SentLast(s'.appends[k].args)
    {
      if k == |s.appends| { assert AppendAt(s, h, j); }
    }
  }

  /** A request is rejected only with a hint below `prevLogIndex` and above the sentinel. */
  lemma RejectHint(h: History, n: Node, a: AppendArgs, unset: int)
    requires Consistent(h, n.log) && RequestMatches(h, a) && Consistent(h, h.termLog[a.term])
    ensures
      var reply := AppendLog(n, a, unset).1;
      && reply.term >= a.term
      && (!reply.success && reply.term == a.term ==> 1 <= reply.nextTryLog <= a.prevLogIndex)
      && (reply.success ==> reply.term == a.term)
  {
    var p := a.prevLogIndex;
    if p < |n.log| && a.prevLogTerm != n.log[p].term {
      assert p >= 1;
      var r := Scan(n.log, p - 1, n.log[p].term);
      assert r >= 0 by { assert n.log[0].term == 0; }
    }
  }

  /** The node after an append, accepted or not. */
  lemma AppendedNode(h: History, n0: Node, i: nat, size: nat, a: AppendArgs, unset: int)
    requires NodeLogOk(h, n0, i, size) && RequestMatches(h, a) && Consistent(h, h.termLog[a.term]) && a.term in h.leaderOf
    requires forall q :: 0 <= q < |h.termLog[a.term]| ==> h.termLog[a.term][q].term <= a.term
    requires n0.role == Leader ==> n0.currentTerm != a.term
    requires forall t: int :: (t, i) in h.candLog ==> t <= n0.currentTerm
    ensures
      var (n, reply) := AppendLog(n0, a, unset);
      && NodeLogOk(h, n, i, size) && n.currentTerm >= n0.currentTerm
      && (reply.success ==> n.log == h.termLog[a.term][..SentLast(a) + 1] && n.currentTerm == a.term && n.role != Leader)
      && (!reply.success ==> n.log == n0.log && n.commitIndex == n0.commitIndex)
  {
    hide FromLeaders, WfLog, AppendLog;
    WfContiguous(n0.log);
    AppendEffect(n0, a, unset);
    var (n, reply) := AppendLog(n0, a, unset);
    if reply.success {
      AcceptCopiesLeader(h, n0.log, a);
      PrefixConsistent(h, h.termLog[a.term], SentLast(a) + 1);
      WfContiguous(n.log);
    }
  }

  /** What an append changes, branch by branch. */
  lemma AppendEffect(n: Node, a: AppendArgs, unset: int)
    requires Contiguous(n.log) && n.log[0].index == 0 && a.prevLogIndex >= 0
    ensures
      var (m, reply) := AppendLog(n, a, unset);
      && m.id == n.id && m.size == n.size && m.lastApplied == n.lastApplied && m.applied == n.applied && m.applying == n.applying
      && m.nextIndex == n.nextIndex && m.matchIndex == n.matchIndex
      && m.currentTerm == (if a.term > n.currentTerm then a.term else n.currentTerm)
      && m.role == (if a.term > n.currentTerm then Follower else n.role)
      && (!reply.success ==> m.log == n.log && m.commitIndex == n.commitIndex)
      && (reply.success ==>
            && a.term >= n.currentTerm && reply.term == a.term
            && a.prevLogIndex < |n.log| && a.prevLogTerm == n.log[a.prevLogIndex].term
            && m.log == n.log[..a.prevLogIndex + 1] + a.entries
            && m.commitIndex == (if n.commitIndex < a.leaderCommit then Min(a.leaderCommit, Last(m.log).index) else n.commitIndex))
  {
  }

  function Min(a: int, b: int): int { if a <= b then a else b }

  lemma WfContiguous(l: seq<LogEntry>)
    requires WfLog(l)
    ensures Contiguous(l) && l[0] == SENTINEL
  {
  }

  /** A leader is never sent an append of its own term. */
  lemma NotToLeader(s: Cluster, h: History, k: nat)
    requires Inv(s, h) && k < |s.appends|
    ensures s.nodes[s.appends[k].dst].role == Leader ==> s.nodes[s.appends[k].dst].currentTerm != s.appends[k].args.term
  {
    assert AppendAt(s, h, k) && RoleOk(s, h, s.appends[k].dst);
  }

  lemma SameHistoryNode(h: History, h': History, n: Node, i: nat, size: nat)
    requires NodeLogOk(h, n, i, size) && h'.termLog == h.termLog && h'.candLog == h.candLog && h'.leaderOf == h.leaderOf
    ensures NodeLogOk(h', n, i, size)
  {
  }

  lemma TermsBounded(h: History, t: int)
    requires TermsInv(h) && t in h.termLog
    ensures forall q :: 0 <= q < |h.termLog[t]| ==> h.termLog[t][q].term <= t
  {
    assert TermOk(h, t) && CandLogOk(h, t, h.leaderOf[t]);
    forall q | 0 <= q < |h.termLog[t]| ensures h.termLog[t][q].term <= t {
      assert q < |ElectLog(h, t)| ==> h.termLog[t][q] == ElectLog(h, t)[q];
    }
  }

  /** All an append does to its receiver, in a reachable state. */
  lemma Received(s: Cluster, h: History, k: nat, unset: int)
    requires Inv(s, h) && k < |s.appends|
    ensures
      var m := s.appends[k];
      var (n, reply) := AppendLog(s.nodes[m.dst], m.args, unset);
      && AppendOk(s, h, m) && AckOk(s, AppendAnswer(k, reply))
      && NodeLogOk(h, n, m.dst, |s.nodes|) && n.currentTerm >= s.nodes[m.dst].currentTerm
      && (reply.success ==>
            n.log == h.termLog[m.args.term][..SentLast(m.args) + 1] && n.currentTerm == m.args.term && n.role != Leader)
      && (!reply.success ==> n.log == s.nodes[m.dst].log && n.commitIndex == s.nodes[m.dst].commitIndex)
  {
    var m := s.appends[k];
    assert AppendAt(s, h, k) && NodeAt(s, h, m.dst) && TermOk(h, m.args.term);
    TermsBounded(h, m.args.term);
    NotToLeader(s, h, k);
    VotedPast(s, h, m.dst);
    RejectHint(h, s.nodes[m.dst], m.args, unset);
    AppendedNode(h, s.nodes[m.dst], m.dst, |s.nodes|, m.args, unset);
  }

  lemma AppendLogStep(s: Cluster, h: History, k: nat, unset: int)
    requires Inv(s, h) && k < |s.appends|
    ensures LogInv(Next(s, HandleAppend(k, unset)), Record(h, s, HandleAppend(k, unset)))
  {
    var s', h' := Next(s, HandleAppend(k, unset)), Record(h, s, HandleAppend(k, unset));
    Received(s, h, k, unset);
    OneNodeStep(s, h, s', h', s.appends[k].dst);
  }

  lemma OneNodeStep(s: Cluster, h: History, s': Cluster, h': History, i: nat)
    requires Inv(s, h) && i < |s.nodes| == |s'.nodes| && s'.nodes == s.nodes[i := s'.nodes[i]]
    requires s'.appends == s.appends && (forall r :: r in s'.appendAnswers ==> r in s.appendAnswers || AckOk(s, r))
    requires h' == h.(votes := h'.votes, counted := h'.counted, acks := h'.acks, handled := h'.handled) && Grows(h, h')
    requires NodeLogOk(h, s'.nodes[i], i, |s.nodes|)
    ensures LogInv(s', h')
  {
    SameHistoryNode(h, h', s'.nodes[i], i, |s.nodes|);
    NodesKept(s, h, s', h', i);
    AppendsKept(s, h, s', h');
    TermsKept(h, h');
  }

  /** What handling `a` does to a receiver. */
  ghost predicate Took(h: History, m: Node, n: Node, a: AppendArgs, ok: bool) {
    && n.applied == m.applied && n.lastApplied == m.lastApplied && n.applying == m.applying && n.currentTerm >= m.currentTerm
    && (n.role == Leader ==> m.role == Leader && n.currentTerm == m.currentTerm && n.matchIndex == m.matchIndex)
    && (!ok ==> n.log == m.log && n.commitIndex == m.commitIndex)
    && (ok ==>
          && n.role != Leader && a.term in h.termLog && 0 <= SentLast(a) < |h.termLog[a.term]|
          && n.log == h.termLog[a.term][..SentLast(a) + 1] && n.currentTerm == a.term
          && n.commitIndex == (if m.commitIndex < a.leaderCommit then Min(a.leaderCommit, Last(n.log).index) else m.commitIndex)
          && Last(n.log).index == |n.log| - 1 && m.log != [] && n.log[0] == m.log[0])
  }

  /** All that changes when request k is handled: the receiver, an answer, and an ack if it was accepted. */
  ghost predicate Handled(s: Cluster, h: History, s': Cluster, h': History, k: nat, ok: bool)
    requires k < |s.appends| && s.appends[k].dst < |s.nodes|
  {
    var i, a := s.appends[k].dst, s.appends[k].args;
    && |s'.nodes| == |s.nodes| && s'.nodes == s.nodes[i := s'.nodes[i]] && s'.appends == s.appends
    && (forall r :: r in s'.appendAnswers ==> r in s.appendAnswers || (r.sent == k && r.reply.success == ok))
    && h'.votes == h.votes && h'.candLog == h.candLog && h'.leaderOf == h.leaderOf && h'.termLog == h.termLog
    && h'.counted == h.counted && h'.handled == h.handled + {k}
    && h'.acks == (if ok then h.acks[(a.term, i) := SentLast(a)] else h.acks)
    && Took(h, s.nodes[i], s'.nodes[i], a, ok)
  }

  lemma TookFacts(s: Cluster, h: History, k: nat, unset: int)
    requires Inv(s, h) && k < |s.appends|
    ensures
      var m := s.appends[k];
      var (n, reply) := AppendLog(s.nodes[m.dst], m.args, unset);
      AppendOk(s, h, m) && Took(h, s.nodes[m.dst], n, m.args, reply.success)
  {
    hide FromLeaders, ElectionInv, TermsInv, AppendLog;
    var m := s.appends[k];
    Received(s, h, k, unset);
    assert NodeAt(s, h, m.dst);
    AppendEffect(s.nodes[m.dst], m.args, unset);
  }

  lemma HandledFacts(s: Cluster, h: History, k: nat, unset: int)
    requires Inv(s, h) && k < |s.appends|
    ensures
      var m := s.appends[k];
      && AppendOk(s, h, m)
      && Handled(s, h, Next(s, HandleAppend(k, unset)), Record(h, s, HandleAppend(k, unset)), k,
                 AppendLog(s.nodes[m.dst], m.args, unset).1.success)
  {
    hide AppendLog, Took, AppendOk, ElectionInv, LogInv, Next, Record;
    TookFacts(s, h, k, unset);
    AppendNext(s, k, unset);
    AppendRecord(h, s, k, unset);
  }

  lemma AppendNext(s: Cluster, k: nat, unset: int)
    requires WellFormed(s) && k < |s.appends|
    ensures
      var s', m := Next(s, HandleAppend(k, unset)), s.appends[k];
      && |s'.nodes| == |s.nodes| && s'.nodes == s.nodes[m.dst := AppendLog(s.nodes[m.dst], m.args, unset).0]
      && s'.appends == s.appends
      && s'.appendAnswers == s.appendAnswers + {AppendAnswer(k, AppendLog(s.nodes[m.dst], m.args, unset).1)}
  {
    hide AppendLog;
  }

  lemma AppendRecord(h: History, s: Cluster, k: nat, unset: int)
    requires WellFormed(s) && k < |s.appends|
    ensures
      var h', m := Record(h, s, HandleAppend(k, unset)), s.appends[k];
      && h'.votes == h.votes && h'.candLog == h.candLog && h'.leaderOf == h.leaderOf && h'.termLog == h.termLog
      && h'.counted == h.counted && h'.handled == h.handled + {k}
      && h'.acks == if AppendLog(s.nodes[m.dst], m.args, unset).1.success
                    then h.acks[(m.args.term, m.dst) := SentLast(m.args)] else h.acks
  {
    hide AppendLog, RequestVote, HandleVoteReply, HandleAppendReply, StartElection;
  }

  /** A reply keeps every next index between 1 and one past the leader's log. */
  lemma NotedNode(n: Node, i: nat, size: nat, peer: nat, a: AppendArgs, r: AppendReply)
    requires WellFormedNode(n, i, size) && n.log[0].index == 0 && peer < size
    requires n.role == Leader ==> StillLeads(n, n)
    requires n.role == Leader && a.term == n.currentTerm ==>
      && r.term >= a.term
      && (a.entries == [] || 0 <= Last(a.entries).index < |n.log|)
      && (!r.success && r.term == a.term ==> 1 <= r.nextTryLog && |n.log| >= 2)
    ensures
      var n' := HandleAppendReply(n, peer, a, r);
      && WellFormedNode(n', i, size) && n'.log == n.log && n'.currentTerm >= n.currentTerm
      && (n'.role == Leader ==> StillLeads(n, n'))
  {
    if n.role == Leader && a.term == n.currentTerm && r.term == n.currentTerm {
      var m := Note(n, peer, a, r);
      CommitAtLeast(m, Last(m.log).index);
    }
  }

  lemma AnsweredNode(s: Cluster, h: History, r: AppendAnswer)
    requires Inv(s, h) && r in s.appendAnswers
    ensures
      var m := s.appends[r.sent];
      var n := HandleAppendReply(s.nodes[m.src], m.dst, m.args, r.reply);
      && m.src < |s.nodes| && WellFormedNode(n, m.src, |s.nodes|)
      && n.log == s.nodes[m.src].log && n.currentTerm >= s.nodes[m.src].currentTerm
      && (n.role == Leader ==> StillLeads(s.nodes[m.src], n))
  {
    assert AckOk(s, r);
    var m := s.appends[r.sent];
    assert AppendAt(s, h, r.sent) && NodeAt(s, h, m.src);
    var n, a := s.nodes[m.src], m.args;
    if n.role == Leader && a.term == n.currentTerm {
      LastSent(h, n.log, a);
    }
    NotedNode(n, m.src, |s.nodes|, m.dst, a, r.reply);
  }

  lemma LastSent(h: History, log: seq<LogEntry>, a: AppendArgs)
    requires RequestMatches(h, a) && h.termLog[a.term] == log && WfLog(log)
    ensures a.entries == [] || Last(a.entries).index == SentLast(a)
    ensures a.prevLogIndex < |log|
  {
    assert a.entries != [] ==> Last(a.entries) == log[SentLast(a)];
  }

  lemma AppendAnswerLog(s: Cluster, h: History, r: AppendAnswer)
    requires Inv(s, h) && Enabled(s, HandleAppendAnswer(r))
    ensures LogInv(Next(s, HandleAppendAnswer(r)), h)
  {
    AnsweredNode(s, h, r);
    SameLogStep(s, h, Next(s, HandleAppendAnswer(r)), h, s.appends[r.sent].src);
  }

  lemma {:induction false} CommitAtLeast(n: Node, at: int)
    requires Contiguous(n.log) && n.log[0].index <= n.commitIndex && at <= Last(n.log).index
    ensures n.commitIndex <= CommitScan(n, at) && (CommitScan(n, at) == n.commitIndex || CommitScan(n, at) <= at)
    decreases at - n.commitIndex
  {
    if at > n.commitIndex && n.log[at - n.log[0].index].term == n.currentTerm
       && Replicas(n, at, |n.matchIndex|) <= n.size / 2 {
      CommitAtLeast(n, at - 1);
    }
  }

  /** What a vote request changes. */
  lemma BallotEffect(s: Cluster, h: History, r: VoteRequest)
    requires WellFormed(s) && r in s.voteRequests
    ensures
      var s', h', i := Next(s, HandleVoteRequest(r)), Record(h, s, HandleVoteRequest(r)), r.dst;
      && |s'.nodes| == |s.nodes| && s'.nodes == s.nodes[i := s'.nodes[i]]
      && s'.appends == s.appends && s'.appendAnswers == s.appendAnswers
      && h' == h.(votes := if RequestVote(s.nodes[i], r.args).1.voteGranted then h.votes[(r.args.term, i) := r.src] else h.votes)
      && var m, n := s.nodes[i], s'.nodes[i];
      && WellFormedNode(n, i, |s.nodes|) && n.log == m.log && m.currentTerm <= n.currentTerm
      && n.nextIndex == m.nextIndex && (n.role == Leader ==> m.role == Leader && n.currentTerm == m.currentTerm)
  {
  }

  lemma VoteRequestLog(s: Cluster, h: History, r: VoteRequest)
    requires Inv(s, h) && Enabled(s, HandleVoteRequest(r))
    ensures LogInv(Next(s, HandleVoteRequest(r)), Record(h, s, HandleVoteRequest(r)))
    ensures Grows(h, Record(h, s, HandleVoteRequest(r)))
  {
    hide FromLeaders, WfLog, Next, Record, ElectionInv, Consistent, RequestVote;
    OneVote(s, h, r);
    assert NodeAt(s, h, r.dst);
    BallotEffect(s, h, r);
    SameLogStep(s, h, Next(s, HandleVoteRequest(r)), Record(h, s, HandleVoteRequest(r)), r.dst);
  }

  lemma LocalLog(s: Cluster, h: History, step: Step)
    requires Inv(s, h) && Enabled(s, step)
    requires step.TimerSelfVote? || step.LeaseExpires? || step.StepDown? || Applies(step)
    ensures LogInv(Next(s, step), h)
  {
    assert NodeAt(s, h, step.i);
    SameLogStep(s, h, Next(s, step), h, step.i);
  }

  lemma LogStep(s: Cluster, h: History, step: Step)
    requires Inv(s, h) && Enabled(s, step)
    ensures LogInv(Next(s, step), Record(h, s, step)) && Grows(h, Record(h, s, step))
  {
    match step
    case Campaign(i) => CampaignLog(s, h, i);
    case HandleVoteRequest(r) => VoteRequestLog(s, h, r);
    case HandleVoteAnswer(r) => VoteAnswerLog(s, h, r);
    case ClientAppend(i, value) => ClientLog(s, h, i, value);
    case SendAppend(i, peer) => SendLog(s, h, i, peer);
    case HandleAppend(k, unset) => AppendLogStep(s, h, k, unset);
    case HandleAppendAnswer(r) => AppendAnswerLog(s, h, r);
    case _ => LocalLog(s, h, step);
  }

  /** Every step keeps the invariant and lets the history grow. */
  lemma InvStep(s: Cluster, h: History, step: Step)
    requires Inv(s, h) && Enabled(s, step)
    ensures Inv(Next(s, step), Record(h, s, step)) && Grows(h, Record(h, s, step))
  {
    LogStep(s, h, step);
    ElectionStep(s, h, step);
    HandlersDefined(Next(s, step), Record(h, s, step));
  }

  lemma InvInit(s: Cluster)
    requires Initial(s)
    ensures Inv(s, NO_HISTORY)
  {
    forall i | 0 <= i < |s.nodes| ensures NodeAt(s, NO_HISTORY, i) && RoleOk(s, NO_HISTORY, i) {
      var lease :| s.nodes[i] == Init(i, |s.nodes|, lease);
    }
    HandlersDefined(s, NO_HISTORY);
  }
}
