/** Every step keeps the survival invariant. */
module RaftSurvival {
  import opened Bytes
  import opened RaftTypes
  import opened RaftNode
  import opened RaftCluster
  import opened RaftHistory
  import opened RaftElection
  import opened RaftLog
  import opened RaftLogSteps
  import opened RaftCommit

  // ----- Votes -----

  /** An entry created in term t carries term t, so a log that holds it ends in term t or later. */
  lemma OwnTerm(h: History, t: int, n: int, l: seq<LogEntry>)
    requires TermsInv(h) && Own(h, t, n) && WfLog(l) && h.termLog[t][..n + 1] <= l
    ensures n < |l| && l[n].term == t <= Last(l).term && n >= 1
  {
    assert TermOk(h, t);
    assert l[n] == h.termLog[t][..n + 1][n];
  }

  /** A log that ends in term t contains everything the leader of t was elected with. */
  lemma EndsAfterElection(h: History, t: int, l: seq<LogEntry>)
    requires TermsInv(h) && Consistent(h, l) && t >= 1 && Last(l).term == t
    ensures t in h.termLog && t in h.leaderOf && (t, h.leaderOf[t]) in h.candLog
    ensures l <= h.termLog[t] && ElectLog(h, t) <= l
  {
    var last := |l| - 1;
    assert l[..last + 1] == l;
    assert last >= 1;
    assert TermOk(h, t) && CandLogOk(h, t, h.leaderOf[t]);
    var e := ElectLog(h, t);
    assert forall k :: 0 <= k < |e| ==> h.termLog[t][k] == e[k];
    assert |e| <= last;
    assert h.termLog[t][..|e|] == e && h.termLog[t][..|l|] == l;
  }

  /** The up-to-date check of `isUptoMe`: a candidate that passes it has whatever the voter must keep. */
  lemma UpToDateKeeps(s: Cluster, h: History, t: int, n: int, lv: seq<LogEntry>, lc: seq<LogEntry>)
    requires TermsInv(h) && LeadersKeep(s, h) && Own(h, t, n) && Consistent(h, lv) && Consistent(h, lc) && t >= 1
    requires UpToDate(lv, Last(lc).index, Last(lc).term) && h.termLog[t][..n + 1] <= lv
    ensures Survives(s, h, t, n, lc)
  {
    OwnTerm(h, t, n, lv);
    var tv, tc := Last(lv).term, Last(lc).term;
    EndsAfterElection(h, tv, lv);
    EndsAfterElection(h, tc, lc);
    if tc == tv {
      assert |lv| <= |lc|;
      assert h.termLog[tc][..|lc|] == lc && h.termLog[tc][..|lv|] == lv;
      assert lv <= lc;
    } else {
      assert LeaderKeeps(s, h, tc) && Survives(s, h, t, n, ElectLog(h, tc));
    }
  }

  lemma TermPositive(s: Cluster, h: History, t: int, n: int)
    requires Inv(s, h) && Own(h, t, n)
    ensures t >= 1
  {
    assert LeaderOk(s, h, t) && CandidacyOk(s, h, t, h.leaderOf[t]);
  }

  lemma GrantKeeps(s: Cluster, h: History, v: nat, c: nat, t': int)
    requires Inv(s, h) && SurvivalInv(s, h) && v < |s.nodes| && (t', c) in h.candLog
    requires UpToDate(s.nodes[v].log, Last(h.candLog[(t', c)]).index, Last(h.candLog[(t', c)]).term)
    ensures forall t: int, n: int :: t < t' && Own(h, t, n) && Acked(h, t, v, n) ==> Survives(s, h, t, n, h.candLog[(t', c)])
  {
    assert NodeAt(s, h, v) && CandLogOk(h, t', c) && LogKeeps(s, h, v);
    var lv, lc := s.nodes[v].log, h.candLog[(t', c)];
    forall t: int, n: int | t < t' && Own(h, t, n) && Acked(h, t, v, n) ensures Survives(s, h, t, n, lc) {
      if !Dead(s, h, t, n) {
        TermPositive(s, h, t, n);
        UpToDateKeeps(s, h, t, n, lv, lc);
      }
    }
  }

  lemma NewVoteKeeps(s: Cluster, h: History, s': Cluster, h': History, t': int, v: nat)
    requires Later(s, h, s', h') && SameOwn(h, h') && (t', v) in h'.votes && h'.acks == h.acks
    requires (t', h'.votes[(t', v)]) in h'.candLog
    requires
      var l := h'.candLog[(t', h'.votes[(t', v)])];
      forall t: int, n: int :: t < t' && Own(h, t, n) && Acked(h, t, v, n) ==> Survives(s, h, t, n, l)
    ensures VoteKeeps(s', h', t', v)
  {
    var l := h'.candLog[(t', h'.votes[(t', v)])];
    forall t: int, n: int | t < t' && Own(h', t, n) && Acked(h', t, v, n) ensures Survives(s', h', t, n, l) {
      SurvivesLater(s, h, s', h', t, n, l, l);
    }
  }

  lemma VoteSurvival(s: Cluster, h: History, r: VoteRequest)
    requires Inv(s, h) && SurvivalInv(s, h) && r in s.voteRequests
    ensures SurvivalInv(Next(s, HandleVoteRequest(r)), Record(h, s, HandleVoteRequest(r)))
  {
    hide WfLog, FromLeaders, Next, Record;
    var s', h' := Next(s, HandleVoteRequest(r)), Record(h, s, HandleVoteRequest(r));
    VoteRequestLog(s, h, r);
    BallotEffect(s, h, r);
    assert PendingRequestOk(s, h, r);
    UnackedStep(s, h, s', h');
    if RequestVote(s.nodes[r.dst], r.args).1.voteGranted {
      GrantKeeps(s, h, r.dst, r.src, r.args.term);
      NewVoteKeeps(s, h, s', h', r.args.term, r.dst);
    }
  }

  lemma CampaignSurvival(s: Cluster, h: History, i: nat)
    requires Inv(s, h) && SurvivalInv(s, h) && i < |s.nodes|
    ensures SurvivalInv(Next(s, Campaign(i)), Record(h, s, Campaign(i)))
  {
    var s', h' := Next(s, Campaign(i)), Record(h, s, Campaign(i));
    CampaignLog(s, h, i);
    UnackedStep(s, h, s', h');
    assert LogKeeps(s, h, i);
    NewVoteKeeps(s, h, s', h', s.nodes[i].currentTerm + 1, i);
  }

  // ----- Elections -----

  /** Whatever a new leader's voters must keep it has; whatever none of them took over is dead. */
  lemma WinnerKeeps(s: Cluster, h: History, t': int, c: nat, won: set<nat>)
    requires Inv(s, h) && SurvivalInv(s, h) && (t', c) in h.candLog && 2 * |won| > |s.nodes|
    requires forall v :: v in won ==> (t', v) in h.votes && h.votes[(t', v)] == c
    ensures forall t: int, n: int :: t < t' && Own(h, t, n) ==> Survives(s, h, t, n, h.candLog[(t', c)])
  {
    forall v | v in won ensures v < |s.nodes| && s.nodes[v].currentTerm >= t' { assert VoteOk(s, h, t', v); }
    forall t: int, n: int | t < t' && Own(h, t, n) ensures Survives(s, h, t, n, h.candLog[(t', c)]) {
      if v :| v in won && Acked(h, t, v, n) {
        assert VoteKeeps(s, h, t', v);
      } else {
        assert Passed(s, h, t, n, won);
      }
    }
  }

  lemma NewLeaderKeeps(s: Cluster, h: History, s': Cluster, h': History, t': int)
    requires Later(s, h, s', h') && SameOwn(h, h') && t' in h'.leaderOf && (t', h'.leaderOf[t']) in h'.candLog
    requires forall t: int, n: int :: t < t' && Own(h, t, n) ==> Survives(s, h, t, n, ElectLog(h', t'))
    ensures LeaderKeeps(s', h', t')
  {
    forall t: int, n: int | t < t' && Own(h', t, n) ensures Survives(s', h', t, n, ElectLog(h', t')) {
      SurvivesLater(s, h, s', h', t, n, ElectLog(h', t'), ElectLog(h', t'));
    }
  }

  lemma WonLogKeeps(s: Cluster, h: History, s': Cluster, h': History, i: nat, v: nat)
    requires Later(s, h, s', h') && SameOwn(h, h') && i < |s.nodes| && v < |s.nodes| && LogKeeps(s, h, v)
    requires s'.nodes[v].log == s.nodes[v].log
    requires forall t: int, n: int :: Own(h', t, n) && Acked(h', t, v, n) ==> Acked(h, t, v, n)
    ensures LogKeeps(s', h', v)
  {
    forall t: int, n: int | Own(h', t, n) && Acked(h', t, v, n) ensures Survives(s', h', t, n, s'.nodes[v].log) {
      SurvivesLater(s, h, s', h', t, n, s.nodes[v].log, s.nodes[v].log);
    }
  }

  /** Server i has become the first leader of its term, with the votes `won`. */
  ghost predicate Won(s: Cluster, h: History, s': Cluster, h': History, i: nat, won: set<nat>)
    requires i < |s.nodes| == |s'.nodes|
  {
    var t0 := s.nodes[i].currentTerm;
    && s'.nodes == s.nodes[i := s'.nodes[i]] && s'.appends == s.appends
    && s'.nodes[i].log == s.nodes[i].log && s'.nodes[i].currentTerm == t0
    && t0 !in h.leaderOf && (t0, i) in h.candLog && s.nodes[i].log == h.candLog[(t0, i)]
    && 2 * |won| > |s.nodes| && (forall v :: v in won ==> (t0, v) in h.votes && h.votes[(t0, v)] == i)
    && h'.votes == h.votes && h'.candLog == h.candLog && h'.handled == h.handled
    && h'.leaderOf == h.leaderOf[t0 := i] && h'.termLog == h.termLog[t0 := s.nodes[i].log]
    && h'.acks == h.acks[(t0, i) := |s.nodes[i].log| - 1]
  }

  lemma WonAcks(s: Cluster, h: History, s': Cluster, h': History, i: nat, won: set<nat>)
    requires Inv(s, h) && SurvivalInv(s, h) && i < |s.nodes| && Later(s, h, s', h') && Won(s, h, s', h', i, won)
    ensures SameOwn(h, h') && AcksInv(s', h') && LogsKeep(s', h')
  {
    hide WfLog, FromLeaders;
    var t0 := s.nodes[i].currentTerm;
    assert NodeAt(s, h, i);
    assert SameOwn(h, h');
    forall t: int, v: nat | (t, v) in h'.acks ensures AckAt(s', h', t, v) {
      if (t, v) != (t0, i) { assert AckAt(s, h, t, v); AckLater(s, h, s', h', t, v); }
    }
    forall v: nat | v < |s'.nodes| ensures LogKeeps(s', h', v) {
      assert LogKeeps(s, h, v);
      WonLogKeeps(s, h, s', h', i, v);
    }
  }

  lemma WinSurvival(s: Cluster, h: History, s': Cluster, h': History, i: nat, won: set<nat>)
    requires Inv(s, h) && SurvivalInv(s, h) && i < |s.nodes| && Later(s, h, s', h') && Won(s, h, s', h', i, won)
    ensures SurvivalInv(s', h')
  {
    hide WfLog, FromLeaders, AcksInv, LogsKeep, SameOwn;
    var t0 := s.nodes[i].currentTerm;
    WonAcks(s, h, s', h', i, won);
    WinnerKeeps(s, h, t0, i, won);
    forall t': int, v: nat | (t', v) in h'.votes ensures VoteKeeps(s', h', t', v) {
      assert VoteOk(s, h, t', v) && VoteKeeps(s, h, t', v);
      VoteKeepsLater(s, h, s', h', t', v);
    }
    NewLeaderKeeps(s, h, s', h', t0);
    forall t': int | t' in h'.leaderOf ensures (t', h'.leaderOf[t']) in h'.candLog && LeaderKeeps(s', h', t') {
      if t' != t0 { LeaderKeepsLater(s, h, s', h', t'); }
    }
  }

  lemma WonNext(s: Cluster, r: VoteAnswer)
    requires WellFormed(s) && r in s.voteAnswers && Counts(s.nodes[r.request.src], r.reply)
    ensures
      var s', i := Next(s, HandleVoteAnswer(r)), r.request.src;
      && |s'.nodes| == |s.nodes| && s'.nodes == s.nodes[i := s'.nodes[i]] && s'.appends == s.appends
      && s'.nodes[i].log == s.nodes[i].log && s'.nodes[i].currentTerm == s.nodes[i].currentTerm
  {
  }

  lemma WonRecord(s: Cluster, h: History, r: VoteAnswer)
    requires WellFormed(s) && r in s.voteAnswers && Counts(s.nodes[r.request.src], r.reply)
    requires s.nodes[r.request.src].voteCount + 1 > s.nodes[r.request.src].size / 2
    ensures
      var h', n, i := Record(h, s, HandleVoteAnswer(r)), s.nodes[r.request.src], r.request.src;
      && h'.votes == h.votes && h'.candLog == h.candLog && h'.handled == h.handled
      && h'.leaderOf == h.leaderOf[n.currentTerm := i] && h'.termLog == h.termLog[n.currentTerm := n.log]
      && h'.acks == h.acks[(n.currentTerm, i) := |n.log| - 1]
  {
    hide AppendLog, RequestVote, HandleAppendReply, Append;
  }

  /** What a counted majority changes. */
  lemma WonEffect(s: Cluster, h: History, r: VoteAnswer)
    requires Inv(s, h) && r in s.voteAnswers && Counts(s.nodes[r.request.src], r.reply)
    requires s.nodes[r.request.src].voteCount + 1 > |s.nodes| / 2
    ensures
      var s', h' := Next(s, HandleVoteAnswer(r)), Record(h, s, HandleVoteAnswer(r));
      var i, t0 := r.request.src, s.nodes[r.request.src].currentTerm;
      && |s'.nodes| == |s.nodes| && s'.nodes == s.nodes[i := s'.nodes[i]] && s'.appends == s.appends
      && s'.nodes[i].log == s.nodes[i].log && s'.nodes[i].currentTerm == t0
      && h'.votes == h.votes && h'.candLog == h.candLog && h'.handled == h.handled
      && h'.leaderOf == h.leaderOf[t0 := i] && h'.termLog == h.termLog[t0 := s.nodes[i].log]
      && h'.acks == h.acks[(t0, i) := |s.nodes[i].log| - 1]
  {
    hide WfLog, FromLeaders, Next, Record, ElectionInv, LogInv;
    assert WellFormedNode(s.nodes[r.request.src], r.request.src, |s.nodes|);
    WonNext(s, r);
    WonRecord(s, h, r);
  }

  lemma WonHolds(s: Cluster, h: History, r: VoteAnswer)
    requires Inv(s, h) && SurvivalInv(s, h) && r in s.voteAnswers && Counts(s.nodes[r.request.src], r.reply)
    requires s.nodes[r.request.src].voteCount + 1 > |s.nodes| / 2
    ensures
      var s', h' := Next(s, HandleVoteAnswer(r)), Record(h, s, HandleVoteAnswer(r));
      var i, t0 := r.request.src, s.nodes[r.request.src].currentTerm;
      (t0, i) in h.counted && |s'.nodes| == |s.nodes| && Won(s, h, s', h', i, h.counted[(t0, i)] + {r.request.dst})
  {
    hide WfLog, FromLeaders, SurvivalInv, Next, Record, LogInv, ElectionInv;
    WonEffect(s, h, r);
    FirstWinner(s, h, r);
    WonBallots(s, h, r);
  }

  lemma WonSurvival(s: Cluster, h: History, r: VoteAnswer)
    requires Inv(s, h) && SurvivalInv(s, h) && r in s.voteAnswers && Counts(s.nodes[r.request.src], r.reply)
    requires s.nodes[r.request.src].voteCount + 1 > |s.nodes| / 2
    ensures SurvivalInv(Next(s, HandleVoteAnswer(r)), Record(h, s, HandleVoteAnswer(r)))
  {
    hide SurvivalInv, Next, Record, LogInv, ElectionInv;
    var s', h' := Next(s, HandleVoteAnswer(r)), Record(h, s, HandleVoteAnswer(r));
    var i := r.request.src;
    WonHolds(s, h, r);
    WonLog(s, h, r);
    assert Later(s, h, s', h');
    WinSurvival(s, h, s', h', i, h.counted[(s.nodes[i].currentTerm, i)] + {r.request.dst});
  }

  /** The winner's votes are a majority cast for the log it campaigned with. */
  lemma WonBallots(s: Cluster, h: History, r: VoteAnswer)
    requires Inv(s, h) && r in s.voteAnswers && Counts(s.nodes[r.request.src], r.reply)
    requires s.nodes[r.request.src].voteCount + 1 > |s.nodes| / 2
    ensures
      var i, t0 := r.request.src, s.nodes[r.request.src].currentTerm;
      && (t0, i) in h.candLog && s.nodes[i].log == h.candLog[(t0, i)] && (t0, i) in h.counted
      && 2 * |h.counted[(t0, i)] + {r.request.dst}| > |s.nodes|
      && (forall v :: v in h.counted[(t0, i)] + {r.request.dst} ==> (t0, v) in h.votes && h.votes[(t0, v)] == i)
  {
    hide WfLog, FromLeaders;
    var i, t0 := r.request.src, s.nodes[r.request.src].currentTerm;
    FirstWinner(s, h, r);
    assert RoleOk(s, h, i) && AnswerOk(s, h, r) && NodeAt(s, h, i) && CandidacyOk(s, h, t0, i);
  }

  lemma NotWonSurvival(s: Cluster, h: History, r: VoteAnswer)
    requires Inv(s, h) && SurvivalInv(s, h) && r in s.voteAnswers
    requires !(Counts(s.nodes[r.request.src], r.reply) && s.nodes[r.request.src].voteCount + 1 > |s.nodes| / 2)
    ensures SurvivalInv(Next(s, HandleVoteAnswer(r)), Record(h, s, HandleVoteAnswer(r)))
  {
    hide WfLog, FromLeaders, Next, Record, ElectionInv, NodesInv, AppendsInv, TermsInv;
    UndecidedEffect(s, h, r);
    VoteAnswerLog(s, h, r);
    UnackedStep(s, h, Next(s, HandleVoteAnswer(r)), Record(h, s, HandleVoteAnswer(r)));
  }

  lemma AnswerSurvival(s: Cluster, h: History, r: VoteAnswer)
    requires Inv(s, h) && SurvivalInv(s, h) && r in s.voteAnswers
    ensures SurvivalInv(Next(s, HandleVoteAnswer(r)), Record(h, s, HandleVoteAnswer(r)))
  {
    hide WfLog, FromLeaders, SurvivalInv;
    var n := s.nodes[r.request.src];
    assert NodeAt(s, h, r.request.src);
    if Counts(n, r.reply) && n.voteCount + 1 > |s.nodes| / 2 {
      WonSurvival(s, h, r);
    } else {
      NotWonSurvival(s, h, r);
    }
  }

  // ----- Leader appends -----

  /** An entry created after a later election is dead at once. */
  lemma TooLate(s: Cluster, h: History, s': Cluster, h': History, i: nat, t': int)
    requires Inv(s, h) && SurvivalInv(s, h) && i < |s.nodes| && s.nodes[i].role == Leader
    requires t' in h.leaderOf && t' > s.nodes[i].currentTerm
    requires |s'.nodes| == |s.nodes| && forall v: nat :: v < |s.nodes| ==> s'.nodes[v].currentTerm == s.nodes[v].currentTerm
    requires h'.acks == h.acks[(s.nodes[i].currentTerm, i) := |s.nodes[i].log|]
    ensures Dead(s', h', s.nodes[i].currentTerm, |s.nodes[i].log|)
  {
    var t0, n := s.nodes[i].currentTerm, |s.nodes[i].log|;
    assert NodeAt(s, h, i) && LeaderOk(s, h, t') && CandidacyOk(s, h, t', h.leaderOf[t']);
    var q := h.counted[(t', h.leaderOf[t'])];
    forall v | v in q ensures v < |s.nodes| && s'.nodes[v].currentTerm > t0 && !Acked(h', t0, v, n) {
      assert VoteOk(s, h, t', v);
      if (t0, v) in h.acks { assert AckAt(s, h, t0, v); }
    }
    assert Passed(s', h', t0, n, q);
  }

  /** The history after the leader i of term t0 created the entry at index n0. */
  ghost predicate Extends(s: Cluster, h: History, s': Cluster, h': History, i: nat)
    requires i < |s.nodes|
  {
    var t0, n0 := s.nodes[i].currentTerm, |s.nodes[i].log|;
    && Later(s, h, s', h') && s'.nodes == s.nodes[i := s'.nodes[i]] && s'.appends == s.appends
    && s'.nodes[i].currentTerm == t0 && s.nodes[i].log <= s'.nodes[i].log && |s'.nodes[i].log| == n0 + 1
    && t0 in h'.termLog && h'.termLog[t0] == s'.nodes[i].log
    && h'.votes == h.votes && h'.candLog == h.candLog && h'.leaderOf == h.leaderOf && h'.handled == h.handled
    && h'.acks == h.acks[(t0, i) := n0]
    && forall t: int, n: int :: Own(h', t, n) && !(t == t0 && n == n0) ==> Own(h, t, n)
  }

  lemma ClientSurvival(s: Cluster, h: History, i: nat, value: seq<Byte>)
    requires Inv(s, h) && SurvivalInv(s, h) && i < |s.nodes| && s.nodes[i].role == Leader
    ensures SurvivalInv(Next(s, ClientAppend(i, value)), Record(h, s, ClientAppend(i, value)))
  {
    hide WfLog, FromLeaders, SurvivalInv;
    var s', h' := Next(s, ClientAppend(i, value)), Record(h, s, ClientAppend(i, value));
    ClientLog(s, h, i, value);
    assert NodeAt(s, h, i) && RoleOk(s, h, i);
    assert Extends(s, h, s', h', i);
    ExtendedSurvival(s, h, s', h', i);
  }

  lemma ExtendedSurvival(s: Cluster, h: History, s': Cluster, h': History, i: nat)
    requires Inv(s, h) && SurvivalInv(s, h) && i < |s.nodes| && s.nodes[i].role == Leader && Extends(s, h, s', h', i)
    ensures SurvivalInv(s', h')
  {
    ClientAcks(s, h, s', h', i);
    ClientVotes(s, h, s', h', i);
    forall v: nat | v < |s'.nodes| ensures LogKeeps(s', h', v) { ClientLogKeeps(s, h, s', h', i, v); }
    forall t': int | t' in h'.leaderOf ensures (t', h'.leaderOf[t']) in h'.candLog && LeaderKeeps(s', h', t') {
      ClientLeaderKeeps(s, h, s', h', i, t');
    }
  }

  lemma ClientLogKeeps(s: Cluster, h: History, s': Cluster, h': History, i: nat, v: nat)
    requires Inv(s, h) && SurvivalInv(s, h) && i < |s.nodes| && s.nodes[i].role == Leader && Extends(s, h, s', h', i)
    requires v < |s.nodes|
    ensures LogKeeps(s', h', v)
  {
    hide WfLog, FromLeaders;
    var t0 := s.nodes[i].currentTerm;
    assert NodeAt(s, h, i) && LogKeeps(s, h, v);
    assert (t0, v) in h.acks ==> AckAt(s, h, t0, v);
    forall t: int, n: int | Own(h', t, n) && Acked(h', t, v, n) ensures Survives(s', h', t, n, s'.nodes[v].log) {
      if t != t0 || v != i {
        assert Acked(h, t, v, n);
        SurvivesLater(s, h, s', h', t, n, s.nodes[v].log, s'.nodes[v].log);
      }
    }
  }

  lemma ClientLeaderKeeps(s: Cluster, h: History, s': Cluster, h': History, i: nat, t': int)
    requires Inv(s, h) && SurvivalInv(s, h) && i < |s.nodes| && s.nodes[i].role == Leader && Extends(s, h, s', h', i)
    requires t' in h.leaderOf
    ensures (t', h'.leaderOf[t']) in h'.candLog && LeaderKeeps(s', h', t')
  {
    hide WfLog, FromLeaders;
    assert (t', h.leaderOf[t']) in h.candLog && LeaderKeeps(s, h, t');
    var l := ElectLog(h, t');
    forall t: int, n: int | t < t' && Own(h', t, n) ensures Survives(s', h', t, n, l) {
      if t == s.nodes[i].currentTerm && n == |s.nodes[i].log| { TooLate(s, h, s', h', i, t'); }
      else { SurvivesLater(s, h, s', h', t, n, l, l); }
    }
  }

  lemma ClientAcks(s: Cluster, h: History, s': Cluster, h': History, i: nat)
    requires Inv(s, h) && SurvivalInv(s, h) && i < |s.nodes| && s.nodes[i].role == Leader && Extends(s, h, s', h', i)
    ensures AcksInv(s', h')
  {
    assert RoleOk(s, h, i);
    forall t: int, v: nat | (t, v) in h'.acks ensures AckAt(s', h', t, v) {
      if (t, v) != (s.nodes[i].currentTerm, i) {
        assert AckAt(s, h, t, v);
        AckLater(s, h, s', h', t, v);
      } else {
        assert s'.nodes[i].log == h'.termLog[t][..h'.acks[(t, v)] + 1];
      }
    }
  }

  lemma ClientVotes(s: Cluster, h: History, s': Cluster, h': History, i: nat)
    requires Inv(s, h) && SurvivalInv(s, h) && i < |s.nodes| && s.nodes[i].role == Leader && Extends(s, h, s', h', i)
    ensures VotesKeep(s', h')
  {
    hide WfLog, FromLeaders;
    var t0, n0 := s.nodes[i].currentTerm, |s.nodes[i].log|;
    assert NodeAt(s, h, i);
    forall t': int, v: nat | (t', v) in h'.votes ensures VoteKeeps(s', h', t', v) {
      assert VoteOk(s, h, t', v) && VoteKeeps(s, h, t', v);
      var l := h.candLog[(t', h.votes[(t', v)])];
      forall t: int, n: int | t < t' && Own(h', t, n) && Acked(h', t, v, n) ensures Survives(s', h', t, n, l) {
        assert Acked(h, t, v, n);
        assert AckAt(s, h, t, v);
        SurvivesLater(s, h, s', h', t, n, l, l);
      }
    }
  }

  // ----- Follower appends -----

  lemma AcceptLater(s: Cluster, h: History, s': Cluster, h': History, i: nat, t0: int, m: int)
    requires i < |s.nodes| && h' == h.(acks := h.acks[(t0, i) := m], handled := h'.handled)
    requires |s'.nodes| == |s.nodes| && s'.nodes == s.nodes[i := s'.nodes[i]]
    requires s'.nodes[i].currentTerm == t0 >= s.nodes[i].currentTerm
    ensures Later(s, h, s', h')
  {
  }

  /** A follower that accepts an append of term t0 holds all its new leader was elected with. */
  lemma AcceptSurvival(s: Cluster, h: History, s': Cluster, h': History, i: nat, t0: int, m: int, k: nat)
    requires Inv(s, h) && SurvivalInv(s, h) && i < |s.nodes| == |s'.nodes|
    requires h' == h.(acks := h.acks[(t0, i) := m], handled := h.handled + {k})
    requires s'.nodes == s.nodes[i := s'.nodes[i]] && s'.appends == s.appends
    requires t0 in h.termLog && t0 in h.leaderOf && (t0, h.leaderOf[t0]) in h.candLog && |ElectLog(h, t0)| <= m + 1
    requires 0 <= m < |h.termLog[t0]| && TookFrom(s, t0, i, m, k)
    requires s'.nodes[i].log == h.termLog[t0][..m + 1] && s'.nodes[i].currentTerm == t0 >= s.nodes[i].currentTerm
    ensures SurvivalInv(s', h')
  {
    hide WfLog, FromLeaders;
    AcceptLater(s, h, s', h', i, t0, m);
    SameTermsOwn(s, h, h');
    assert TermOk(h, t0) && LeaderKeeps(s, h, t0);
    assert ElectLog(h, t0) <= s'.nodes[i].log;
    AcceptAcks(s, h, s', h', i, t0, m, k);
    forall v: nat | v < |s'.nodes| ensures LogKeeps(s', h', v) {
      assert LogKeeps(s, h, v);
      if v != i { LogKeepsLater(s, h, s', h', v); }
      else {
        forall t: int, n: int | Own(h', t, n) && Acked(h', t, i, n) ensures Survives(s', h', t, n, s'.nodes[i].log) {
          if t != t0 {
            assert AckAt(s, h, t, i);
            SurvivesLater(s, h, s', h', t, n, ElectLog(h, t0), s'.nodes[i].log);
          }
        }
      }
    }
    forall t': int, v: nat | (t', v) in h'.votes ensures VoteKeeps(s', h', t', v) {
      assert VoteOk(s, h, t', v) && VoteKeeps(s, h, t', v);
      VoteKeepsLater(s, h, s', h', t', v);
    }
    forall t': int | t' in h'.leaderOf ensures (t', h'.leaderOf[t']) in h'.candLog && LeaderKeeps(s', h', t') {
      LeaderKeepsLater(s, h, s', h', t');
    }
  }

  lemma AcceptAcks(s: Cluster, h: History, s': Cluster, h': History, i: nat, t0: int, m: int, k: nat)
    requires AcksInv(s, h) && i < |s.nodes| && Later(s, h, s', h') && h' == h.(acks := h'.acks, handled := h.handled + {k})
    requires s'.nodes == s.nodes[i := s'.nodes[i]] && s'.appends == s.appends
    requires t0 in h.termLog && t0 in h.leaderOf && 0 <= m < |h.termLog[t0]| && TookFrom(s, t0, i, m, k)
    requires s'.nodes[i].log == h.termLog[t0][..m + 1] && s'.nodes[i].currentTerm == t0 >= s.nodes[i].currentTerm
    requires h'.acks == h.acks[(t0, i) := m]
    ensures AcksInv(s', h')
  {
    forall t: int, v: nat | (t, v) in h'.acks ensures AckAt(s', h', t, v) {
      if (t, v) == (t0, i) {
        assert TookFrom(s', t0, i, m, k);
      } else {
        assert AckAt(s, h, t, v);
        AckLater(s, h, s', h', t, v);
      }
    }
  }

  lemma AppendSurvival(s: Cluster, h: History, k: nat, unset: int)
    requires Inv(s, h) && SurvivalInv(s, h) && k < |s.appends|
    ensures SurvivalInv(Next(s, HandleAppend(k, unset)), Record(h, s, HandleAppend(k, unset)))
  {
    hide WfLog, FromLeaders, Next, Record, AppendLog, SurvivalInv, ElectionInv, LogInv;
    HandledFacts(s, h, k, unset);
    var s', h' := Next(s, HandleAppend(k, unset)), Record(h, s, HandleAppend(k, unset));
    var m := s.appends[k];
    if AppendLog(s.nodes[m.dst], m.args, unset).1.success {
      AcceptSurvival(s, h, s', h', m.dst, m.args.term, SentLast(m.args), k);
    } else {
      RejectSurvival(s, h, s', h', k);
    }
  }

  lemma RejectSurvival(s: Cluster, h: History, s': Cluster, h': History, k: nat)
    requires Inv(s, h) && SurvivalInv(s, h) && k < |s.appends| && s.appends[k].dst < |s.nodes| && Handled(s, h, s', h', k, false)
    ensures SurvivalInv(s', h')
  {
    hide WfLog, FromLeaders, ElectionInv, LogInv;
    UnackedStep(s, h, s', h');
  }

  lemma OtherSurvival(s: Cluster, h: History, step: Step)
    requires Inv(s, h) && SurvivalInv(s, h) && Enabled(s, step)
    requires step.TimerSelfVote? || step.LeaseExpires? || step.StepDown? || Applies(step) || step.SendAppend?
      || step.HandleAppendAnswer? || (step.ClientAppend? && s.nodes[step.i].role != Leader)
    ensures SurvivalInv(Next(s, step), Record(h, s, step))
  {
    hide WfLog, FromLeaders;
    var s' := Next(s, step);
    if step.HandleAppendAnswer? { AnsweredNode(s, h, step.ack); }
    UnackedStep(s, h, s', h);
  }

  lemma SurvivalStep(s: Cluster, h: History, step: Step)
    requires Inv(s, h) && SurvivalInv(s, h) && Enabled(s, step)
    ensures SurvivalInv(Next(s, step), Record(h, s, step))
  {
    match step
    case Campaign(i) => CampaignSurvival(s, h, i);
    case HandleVoteRequest(r) => VoteSurvival(s, h, r);
    case HandleVoteAnswer(r) => AnswerSurvival(s, h, r);
    case ClientAppend(i, value) =>
      if s.nodes[i].role == Leader { ClientSurvival(s, h, i, value); } else { OtherSurvival(s, h, step); }
    case HandleAppend(k, unset) => AppendSurvival(s, h, k, unset);
    case _ => OtherSurvival(s, h, step);
  }
}
