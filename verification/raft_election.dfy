/** Section 5.2 of the Raft paper: at most one leader per term. */
module RaftElection {
  import opened Bytes
  import opened RaftTypes
  import opened RaftNode
  import opened RaftCluster
  import opened RaftHistory

  /** A node moves on: its term never falls, and within a term a vote already cast stays the vote. */
  ghost predicate Quiet(m: Node, n: Node) {
    && m.currentTerm <= n.currentTerm
    && (m.currentTerm == n.currentTerm ==>
          && (n.votedFor == m.votedFor || n.votedFor == n.id)
          && n.voteCount == m.voteCount && (n.role == m.role || n.role == Follower))
    && (m.currentTerm < n.currentTerm ==> n.role == Follower)
  }

  /** Steps that touch one node quietly and leave the votes alone keep the election invariant. */
  lemma QuietStep(s: Cluster, h: History, i: nat, n: Node, s': Cluster, h': History)
    requires WellFormed(s) && ElectionInv(s, h) && i < |s.nodes| && n.id == i && Quiet(s.nodes[i], n)
    requires s'.nodes == s.nodes[i := n] && s'.voteRequests == s.voteRequests && s'.voteAnswers <= s.voteAnswers
    requires h' == h.(termLog := h'.termLog, acks := h'.acks, handled := h'.handled)
    ensures ElectionInv(s', h')
  {
    forall t: int, v: nat | (t, v) in h'.votes ensures VoteOk(s', h', t, v) {
      assert VoteOk(s, h, t, v);
    }
    forall t: int, c: nat | (t, c) in h'.candLog ensures CandidacyOk(s', h', t, c) {
      assert CandidacyOk(s, h, t, c);
      assert VoteOk(s, h, t, c);
    }
    forall c: nat | c < |s'.nodes| ensures RoleOk(s', h', c) {
      assert RoleOk(s, h, c);
    }
    forall t: int | t in h'.leaderOf ensures LeaderOk(s', h', t) {
      assert LeaderOk(s, h, t);
    }
    forall r | r in s'.voteRequests ensures PendingRequestOk(s', h', r) {
      assert PendingRequestOk(s, h, r);
    }
    forall a | a in s'.voteAnswers ensures AnswerOk(s', h', a) {
      assert AnswerOk(s, h, a);
    }
  }

  /** No server has voted or stood in a term after its own. */
  lemma VotedPast(s: Cluster, h: History, i: nat)
    requires ElectionInv(s, h) && i < |s.nodes|
    ensures forall t: int :: (t, i) in h.votes ==> t <= s.nodes[i].currentTerm
    ensures forall t: int :: (t, i) in h.candLog ==> t <= s.nodes[i].currentTerm
  {
    forall t: int | (t, i) in h.votes ensures t <= s.nodes[i].currentTerm { assert VoteOk(s, h, t, i); }
    forall t: int | (t, i) in h.candLog ensures (t, i) in h.votes { assert CandidacyOk(s, h, t, i); }
  }

  lemma CampaignVotes(s: Cluster, h: History, i: nat)
    requires WellFormed(s) && ElectionInv(s, h) && Enabled(s, Campaign(i))
    ensures
      var s', h' := Next(s, Campaign(i)), Record(h, s, Campaign(i));
      VotesInv(s', h') && CandidatesInv(s', h')
  {
    var s', h' := Next(s, Campaign(i)), Record(h, s, Campaign(i));
    var t0 := s.nodes[i].currentTerm + 1;
    assert RoleOk(s, h, i);
    VotedPast(s, h, i);
    forall t: int, v: nat | (t, v) in h'.votes ensures VoteOk(s', h', t, v) {
      if (t, v) in h.votes { assert VoteOk(s, h, t, v); }
    }
    forall t: int, c: nat | (t, c) in h'.candLog ensures CandidacyOk(s', h', t, c) {
      if (t, c) in h.candLog { assert CandidacyOk(s, h, t, c); assert VoteOk(s, h, t, c); }
    }
  }

  lemma CampaignRoles(s: Cluster, h: History, i: nat)
    requires WellFormed(s) && ElectionInv(s, h) && Enabled(s, Campaign(i))
    ensures
      var s', h' := Next(s, Campaign(i)), Record(h, s, Campaign(i));
      RolesInv(s', h') && LeadersInv(s', h')
  {
    var s', h' := Next(s, Campaign(i)), Record(h, s, Campaign(i));
    var t0 := s.nodes[i].currentTerm + 1;
    assert RoleOk(s, h, i);
    VotedPast(s, h, i);
    assert t0 in h.leaderOf ==> LeaderOk(s, h, t0);
    forall c: nat | c < |s'.nodes| ensures RoleOk(s', h', c) {
      assert RoleOk(s, h, c);
    }
    forall t: int | t in h'.leaderOf ensures LeaderOk(s', h', t) {
      assert LeaderOk(s, h, t);
    }
  }

  lemma CampaignStep(s: Cluster, h: History, i: nat)
    requires WellFormed(s) && ElectionInv(s, h) && Enabled(s, Campaign(i))
    ensures ElectionInv(Next(s, Campaign(i)), Record(h, s, Campaign(i)))
  {
    var s', h' := Next(s, Campaign(i)), Record(h, s, Campaign(i));
    var t0 := s.nodes[i].currentTerm + 1;
    assert RoleOk(s, h, i);
    VotedPast(s, h, i);
    CampaignVotes(s, h, i);
    CampaignRoles(s, h, i);
    forall r | r in s'.voteRequests ensures PendingRequestOk(s', h', r) {
      if r in s.voteRequests { assert PendingRequestOk(s, h, r); }
    }
    forall a | a in s'.voteAnswers ensures AnswerOk(s', h', a) {
      assert AnswerOk(s, h, a);
    }
  }

  /** A server never votes for two candidates of one term. */
  lemma OneVote(s: Cluster, h: History, r: VoteRequest)
    requires WellFormed(s) && ElectionInv(s, h) && r in s.voteRequests
    ensures PendingRequestOk(s, h, r)
    ensures RequestVote(s.nodes[r.dst], r.args).1.voteGranted && (r.args.term, r.dst) in h.votes
      ==> h.votes[(r.args.term, r.dst)] == r.src
  {
    assert PendingRequestOk(s, h, r) && CandidacyOk(s, h, r.args.term, r.src);
    assert (r.args.term, r.dst) in h.votes ==> VoteOk(s, h, r.args.term, r.dst);
  }

  lemma VoteRequestStep(s: Cluster, h: History, r: VoteRequest)
    requires WellFormed(s) && ElectionInv(s, h) && Enabled(s, HandleVoteRequest(r))
    ensures ElectionInv(Next(s, HandleVoteRequest(r)), Record(h, s, HandleVoteRequest(r)))
  {
    var s', h' := Next(s, HandleVoteRequest(r)), Record(h, s, HandleVoteRequest(r));
    OneVote(s, h, r);
    assert VotesInv(s', h') by {
      forall t: int, v: nat | (t, v) in h'.votes ensures VoteOk(s', h', t, v) {
        if (t, v) in h.votes { assert VoteOk(s, h, t, v); }
      }
    }
    var n := s'.nodes[r.dst];
    assert n == RequestVote(s.nodes[r.dst], r.args).0 && n.voteCount == s.nodes[r.dst].voteCount;
    assert n.role == Follower || n == s.nodes[r.dst];
    VoteFrame(s, h, s', h', r);
    VoteBallots(s, h, s', h', r, RequestVote(s.nodes[r.dst], r.args).1);
  }

  lemma VoteFrame(s: Cluster, h: History, s': Cluster, h': History, r: VoteRequest)
    requires WellFormed(s) && ElectionInv(s, h) && r.dst < |s.nodes|
    requires s' == s.(nodes := s'.nodes, voteRequests := s'.voteRequests, voteAnswers := s'.voteAnswers)
    requires |s'.nodes| == |s.nodes| && s'.nodes == s.nodes[r.dst := s'.nodes[r.dst]]
    requires h' == h.(votes := h'.votes)
    requires forall t: int, v: nat :: (t, v) in h.votes ==> (t, v) in h'.votes && h'.votes[(t, v)] == h.votes[(t, v)]
    requires s.nodes[r.dst].currentTerm <= s'.nodes[r.dst].currentTerm && s'.nodes[r.dst].voteCount == s.nodes[r.dst].voteCount
    requires s'.nodes[r.dst].role == Follower || s'.nodes[r.dst] == s.nodes[r.dst]
    ensures CandidatesInv(s', h') && RolesInv(s', h') && LeadersInv(s', h')
  {
    forall t: int, c: nat | (t, c) in h'.candLog ensures CandidacyOk(s', h', t, c) {
      assert CandidacyOk(s, h, t, c) && VoteOk(s, h, t, c);
    }
    forall c: nat | c < |s'.nodes| ensures RoleOk(s', h', c) {
      assert RoleOk(s, h, c) && RoleOk(s, h, r.dst);
    }
    forall t: int | t in h'.leaderOf ensures LeaderOk(s', h', t) {
      assert LeaderOk(s, h, t);
    }
  }

  lemma VoteBallots(s: Cluster, h: History, s': Cluster, h': History, r: VoteRequest, reply: VoteReply)
    requires WellFormed(s) && ElectionInv(s, h) && r in s.voteRequests && |s'.nodes| == |s.nodes|
    requires s'.voteRequests == s.voteRequests - {r}
    requires s'.voteAnswers == s.voteAnswers + {VoteAnswer(r, reply)}
    requires reply.voteGranted ==>
      reply.term == r.args.term && (reply.term, r.dst) in h'.votes && h'.votes[(reply.term, r.dst)] == r.src
    requires h' == h.(votes := h'.votes)
    requires forall t: int, v: nat :: (t, v) in h.votes ==> (t, v) in h'.votes && h'.votes[(t, v)] == h.votes[(t, v)]
    ensures BallotsInv(s', h')
  {
    forall q | q in s'.voteRequests ensures PendingRequestOk(s', h', q) {
      assert PendingRequestOk(s, h, q);
    }
    assert PendingRequestOk(s, h, r);
    forall a | a in s'.voteAnswers ensures AnswerOk(s', h', a) {
      if a in s.voteAnswers { assert AnswerOk(s, h, a); }
    }
    forall a, b | a in s'.voteAnswers && b in s'.voteAnswers && a.request == b.request ensures a == b {
      assert a in s.voteAnswers ==> AnswerOk(s, h, a);
      assert b in s.voteAnswers ==> AnswerOk(s, h, b);
    }
  }

  /** A winner of a term that already has one would share a voter with it. */
  lemma OneWinner(s: Cluster, h: History, t: int, c: nat, won: set<nat>)
    requires WellFormed(s) && ElectionInv(s, h) && t in h.leaderOf
    requires forall v :: v in won ==> (t, v) in h.votes && h.votes[(t, v)] == c
    requires 2 * |won| > |s.nodes|
    ensures h.leaderOf[t] == c
  {
    var d := h.leaderOf[t];
    assert LeaderOk(s, h, t) && CandidacyOk(s, h, t, d);
    forall v | v in won ensures v < |s.nodes| { assert VoteOk(s, h, t, v); }
    forall v | v in h.counted[(t, d)] ensures v < |s.nodes| { assert VoteOk(s, h, t, v); }
    var v := QuorumsMeet(|s.nodes|, won, h.counted[(t, d)]);
  }

  lemma CountedAnswerStep(s: Cluster, h: History, r: VoteAnswer)
    requires WellFormed(s) && ElectionInv(s, h) && Enabled(s, HandleVoteAnswer(r))
    requires Counts(s.nodes[r.request.src], r.reply)
    ensures ElectionInv(Next(s, HandleVoteAnswer(r)), Record(h, s, HandleVoteAnswer(r)))
  {
    var s', h' := Next(s, HandleVoteAnswer(r)), Record(h, s, HandleVoteAnswer(r));
    var c0, v0 := r.request.src, r.request.dst;
    var t0 := s.nodes[c0].currentTerm;
    assert AnswerOk(s, h, r) && RoleOk(s, h, c0) && CandidacyOk(s, h, t0, c0);
    var won := h.counted[(t0, c0)] + {v0};
    assert |won| == s.nodes[c0].voteCount + 1;
    assert h'.counted == h.counted[(t0, c0) := won];
    if s.nodes[c0].voteCount + 1 > |s.nodes| / 2 && t0 in h.leaderOf { OneWinner(s, h, t0, c0, won); }
    CountedFrame(s, h, s', h', c0, won);
    CountedBallots(s, h, r, s', h');
  }

  lemma CountedFrame(s: Cluster, h: History, s': Cluster, h': History, c0: nat, won: set<nat>)
    requires WellFormed(s) && ElectionInv(s, h) && c0 < |s.nodes| && s.nodes[c0].role == Candidate
    requires |s'.nodes| == |s.nodes| && s'.nodes == s.nodes[c0 := s'.nodes[c0]]
    requires
      var m, n := s.nodes[c0], s'.nodes[c0];
      && n.currentTerm == m.currentTerm && n.votedFor == m.votedFor && n.voteCount == |won|
      && (forall v :: v in won ==> (n.currentTerm, v) in h.votes && h.votes[(n.currentTerm, v)] == c0) && c0 in won
      && h'.counted == h.counted[(n.currentTerm, c0) := won]
      && h'.votes == h.votes && h'.candLog == h.candLog
      && ((n.role == Candidate && h'.leaderOf == h.leaderOf)
          || (n.role == Leader && h'.leaderOf == h.leaderOf[n.currentTerm := c0] && 2 * |won| > |s.nodes|
              && n.currentTerm !in h.leaderOf))
    ensures VotesInv(s', h') && CandidatesInv(s', h') && RolesInv(s', h') && LeadersInv(s', h')
  {
    forall t: int, v: nat | (t, v) in h'.votes ensures VoteOk(s', h', t, v) {
      assert VoteOk(s, h, t, v);
    }
    forall t: int, c: nat | (t, c) in h'.candLog ensures CandidacyOk(s', h', t, c) {
      assert CandidacyOk(s, h, t, c);
    }
    assert RoleOk(s, h, c0);
    forall c: nat | c < |s'.nodes| ensures RoleOk(s', h', c) {
      assert RoleOk(s, h, c);
    }
    forall t: int | t in h'.leaderOf ensures LeaderOk(s', h', t) {
      assert t in h.leaderOf ==> LeaderOk(s, h, t);
    }
  }

  lemma CountedBallots(s: Cluster, h: History, r: VoteAnswer, s': Cluster, h': History)
    requires WellFormed(s) && ElectionInv(s, h) && r in s.voteAnswers
    requires Counts(s.nodes[r.request.src], r.reply)
    requires s'.voteRequests == s.voteRequests && s'.voteAnswers == s.voteAnswers - {r} && |s'.nodes| == |s.nodes|
    requires
      var key := (s.nodes[r.request.src].currentTerm, r.request.src);
      h'.votes == h.votes && h'.candLog == h.candLog
      && key in h.counted && h'.counted == h.counted[key := h.counted[key] + {r.request.dst}]
    ensures BallotsInv(s', h')
  {
    assert AnswerOk(s, h, r);
    forall q | q in s'.voteRequests ensures PendingRequestOk(s', h', q) {
      assert PendingRequestOk(s, h, q);
    }
    forall a | a in s'.voteAnswers ensures AnswerOk(s', h', a) {
      assert AnswerOk(s, h, a);
    }
  }

  lemma QuietAppend(n: Node, a: AppendArgs, unset: int)
    requires Contiguous(n.log)
    ensures Quiet(n, AppendLog(n, a, unset).0) && AppendLog(n, a, unset).0.id == n.id
  {
  }

  lemma QuietAppendAnswer(n: Node, i: nat, size: nat, peer: nat, a: AppendArgs, r: AppendReply)
    requires WellFormedNode(n, i, size) && peer < size
    ensures Quiet(n, HandleAppendReply(n, peer, a, r)) && HandleAppendReply(n, peer, a, r).id == n.id
  {
  }

  /** Replication never touches an election of the current term. */
  lemma ReplicationStep(s: Cluster, h: History, step: Step)
    requires WellFormed(s) && ElectionInv(s, h) && Enabled(s, step)
    requires step.ClientAppend? || step.SendAppend? || step.HandleAppend? || step.HandleAppendAnswer?
    ensures ElectionInv(Next(s, step), Record(h, s, step))
  {
    var s', h' := Next(s, step), Record(h, s, step);
    match step
    case ClientAppend(i, _) => QuietStep(s, h, i, s'.nodes[i], s', h');
    case SendAppend(i, _) => QuietStep(s, h, i, s'.nodes[i], s', h');
    case HandleAppend(k, unset) => HandleAppendStep(s, h, k, unset);
    case HandleAppendAnswer(r) =>
      var m := s.appends[r.sent];
      QuietAppendAnswer(s.nodes[m.src], m.src, |s.nodes|, m.dst, m.args, r.reply);
      QuietStep(s, h, m.src, s'.nodes[m.src], s', h');
  }

  lemma HandleAppendStep(s: Cluster, h: History, k: nat, unset: int)
    requires WellFormed(s) && ElectionInv(s, h) && Enabled(s, HandleAppend(k, unset))
    ensures ElectionInv(Next(s, HandleAppend(k, unset)), Record(h, s, HandleAppend(k, unset)))
  {
    var m, s' := s.appends[k], Next(s, HandleAppend(k, unset));
    QuietAppend(s.nodes[m.dst], m.args, unset);
    QuietStep(s, h, m.dst, s'.nodes[m.dst], s', Record(h, s, HandleAppend(k, unset)));
  }

  lemma VoteAnswerStep(s: Cluster, h: History, r: VoteAnswer)
    requires WellFormed(s) && ElectionInv(s, h) && Enabled(s, HandleVoteAnswer(r))
    ensures ElectionInv(Next(s, HandleVoteAnswer(r)), Record(h, s, HandleVoteAnswer(r)))
  {
    if Counts(s.nodes[r.request.src], r.reply) {
      CountedAnswerStep(s, h, r);
    } else {
      var s' := Next(s, HandleVoteAnswer(r));
      QuietStep(s, h, r.request.src, s'.nodes[r.request.src], s', h);
    }
  }

  /** Every step keeps the election invariant. */
  lemma ElectionStep(s: Cluster, h: History, step: Step)
    requires WellFormed(s) && ElectionInv(s, h) && Enabled(s, step)
    ensures ElectionInv(Next(s, step), Record(h, s, step))
  {
    match step
    case Campaign(i) => CampaignStep(s, h, i);
    case HandleVoteRequest(r) => VoteRequestStep(s, h, r);
    case HandleVoteAnswer(r) => VoteAnswerStep(s, h, r);
    case TimerSelfVote(i) => QuietStep(s, h, i, Next(s, step).nodes[i], Next(s, step), h);
    case LeaseExpires(i) => QuietStep(s, h, i, Next(s, step).nodes[i], Next(s, step), h);
    case StepDown(i) => QuietStep(s, h, i, Next(s, step).nodes[i], Next(s, step), h);
    case ApplyBegin(i) => QuietStep(s, h, i, Next(s, step).nodes[i], Next(s, step), h);
    case ApplyPush(i, _) => QuietStep(s, h, i, Next(s, step).nodes[i], Next(s, step), h);
    case ApplyEnd(i, _) => QuietStep(s, h, i, Next(s, step).nodes[i], Next(s, step), h);
    case _ => ReplicationStep(s, h, step);
  }
}
