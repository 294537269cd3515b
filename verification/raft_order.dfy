/**
 Why leader completeness asks that no accepted append cuts a log short.  `appendlog`
 always cuts the log after `prevLogIndex`, so a late request takes entries away again;
 appends in the order of sending do not.
 */
module RaftOrder {
  import opened Bytes
  import opened RaftTypes
  import opened RaftNode
  import opened RaftCluster
  import opened RaftHistory
  import opened RaftElection
  import opened RaftLog
  import opened RaftLogSteps
  import opened RaftCommit
  import opened RaftSurvival
  import opened RaftAgreement
  import opened RaftSafety
  import opened RaftApply

  // ----- When an accepted append keeps the log -----

  /** The term that a request gives to an index from `prevLogIndex` to its last entry. */
  function TermAt(a: AppendArgs, index: int): int
    requires a.prevLogIndex <= index <= SentLast(a)
  {
    if index == a.prevLogIndex then a.prevLogTerm else a.entries[index - a.prevLogIndex - 1].term
  }

  /** Step b of the run handles an append and accepts it. */
  ghost predicate Accepts(r: Run, b: nat, k: nat, unset: int)
    requires IsRun(r)
  {
    && b < |r.steps| && r.steps[b] == HandleAppend(k, unset)
    && assert Follows(r.states[b], r.steps[b], r.states[b + 1]);
    AppendLog(r.states[b].nodes[r.states[b].appends[k].dst], r.states[b].appends[k].args, unset).1.success
  }

  /**
   In every run an accepted request keeps the receiver's log exactly when it reaches at least as
   far as the log does and gives the log's last index the term it has there.
   */
  lemma AcceptedAppendKeepsLogIff(r: Run, b: nat, k: nat, unset: int)
    requires IsRun(r) && Accepts(r, b, k, unset)
    ensures k < |r.states[b].appends| && Has(r, b, r.states[b].appends[k].dst) && Has(r, b + 1, r.states[b].appends[k].dst)
    ensures
      var m := r.states[b].appends[k];
      var log := At(r, b, m.dst).log;
      && log != [] && m.args.prevLogIndex <= Last(log).index
      && (log <= At(r, b + 1, m.dst).log <==>
            Last(log).index <= SentLast(m.args) && TermAt(m.args, Last(log).index) == Last(log).term)
  {
    hide ElectionInv, AppendLog, HistoryAt, Next, Record;
    var s, h := r.states[b], HistoryAt(r, b);
    assert Follows(s, r.steps[b], r.states[b + 1]);
    RunInv(r, b);
    AppendNext(s, k, unset);
    AcceptedLogKeptIff(s, h, k, unset);
  }

  lemma AcceptedLogKeptIff(s: Cluster, h: History, k: nat, unset: int)
    requires Inv(s, h) && k < |s.appends| && AppendLog(s.nodes[s.appends[k].dst], s.appends[k].args, unset).1.success
    ensures
      var m := s.appends[k];
      var log, log' := s.nodes[m.dst].log, AppendLog(s.nodes[m.dst], m.args, unset).0.log;
      && log != [] && m.args.prevLogIndex <= Last(log).index
      && (log <= log' <==> Last(log).index <= SentLast(m.args) && TermAt(m.args, Last(log).index) == Last(log).term)
  {
    hide ElectionInv, AppendLog, WfLog, FromLeaders;
    var m := s.appends[k];
    TookFacts(s, h, k, unset);
    assert AppendAt(s, h, k) && NodeAt(s, h, m.dst) && TermOk(h, m.args.term);
    WfContiguous(s.nodes[m.dst].log);
    AcceptedLow(s, h, k, unset);
    var log, all := s.nodes[m.dst].log, h.termLog[m.args.term];
    if Last(log).index <= SentLast(m.args) { SentTerms(s, h, m, Last(log).index); }
    PrefixIffSameTerm(h, log, all, SentLast(m.args));
  }

  lemma AcceptedLow(s: Cluster, h: History, k: nat, unset: int)
    requires Inv(s, h) && k < |s.appends| && AppendLog(s.nodes[s.appends[k].dst], s.appends[k].args, unset).1.success
    ensures s.nodes[s.appends[k].dst].log != [] && s.appends[k].args.prevLogIndex <= Last(s.nodes[s.appends[k].dst].log).index
  {
    hide ElectionInv, LogInv;
    assert WellFormedNode(s.nodes[s.appends[k].dst], s.appends[k].dst, |s.nodes|);
  }

  /** A request carries the terms of its leader's log. */
  lemma SentTerms(s: Cluster, h: History, m: AppendRequest, index: int)
    requires AppendOk(s, h, m) && m.args.term in h.termLog && m.args.prevLogIndex <= index <= SentLast(m.args) < |h.termLog[m.args.term]|
    ensures 0 <= index && TermAt(m.args, index) == h.termLog[m.args.term][index].term
  {
  }

  lemma PrefixIffSameTerm(h: History, log: seq<LogEntry>, all: seq<LogEntry>, last: int)
    requires Consistent(h, log) && Consistent(h, all) && log != [] && Last(log).index == |log| - 1 && 0 <= last < |all|
    ensures log <= all[..last + 1] <==> |log| - 1 <= last && all[|log| - 1].term == Last(log).term
  {
    if |log| - 1 <= last && all[|log| - 1].term == Last(log).term {
      LogsAgree(h, log, all, |log| - 1);
      assert log[..|log|] == log;
    }
  }

  // ----- What a receiver acknowledged -----

  /** A server whose log ends in its own term acknowledged that log. */
  ghost predicate TipAt(s: Cluster, h: History, v: nat)
    requires v < |s.nodes|
  {
    var n := s.nodes[v];
    n.log != [] && Last(n.log).term == n.currentTerm >= 1 ==> (n.currentTerm, v) in h.acks
  }

  ghost predicate TipInv(s: Cluster, h: History) {
    forall v: nat :: v < |s.nodes| ==> TipAt(s, h, v)
  }

  /** A server keeps its log and its term does not fall. */
  ghost predicate Stays(m: Node, n: Node) {
    n.log == m.log && n.currentTerm >= m.currentTerm
  }

  lemma VoteStays(n: Node, a: VoteArgs, r: VoteReply)
    requires n.log != []
    ensures Stays(n, RequestVote(n, a).0) && Stays(n, HandleVoteReply(n, r))
  {
  }

  lemma ReplyStays(n: Node, peer: nat, a: AppendArgs, r: AppendReply)
    requires Contiguous(n.log) && n.log[0].index <= n.commitIndex && (n.role == Leader ==> peer < |n.nextIndex| && peer < |n.matchIndex|)
    ensures Stays(n, HandleAppendReply(n, peer, a, r))
  {
    hide CommitScan;
  }

  /** In a step a server keeps its log, or acknowledges what it then has. */
  lemma TipMoves(s: Cluster, h: History, step: Step, v: nat)
    requires Inv(s, h) && Enabled(s, step) && v < |s.nodes|
    ensures
      var s', h' := Next(s, step), Record(h, s, step);
      && |s'.nodes| == |s.nodes| && h.acks.Keys <= h'.acks.Keys
      && (Stays(s.nodes[v], s'.nodes[v]) || (s'.nodes[v].currentTerm, v) in h'.acks)
  {
    hide ElectionInv, LogInv, AppendLog, RequestVote, HandleVoteReply, HandleAppendReply, Scan, CommitScan;
    match step
    case HandleAppend(k, unset) => HandledFacts(s, h, k, unset);
    case HandleVoteRequest(r) => VoteStays(s.nodes[r.dst], r.args, VoteReply(0, false));
    case HandleVoteAnswer(r) => VoteStays(s.nodes[r.request.src], r.request.args, r.reply);
    case HandleAppendAnswer(r) =>
      var m := s.appends[r.sent];
      ReplyStays(s.nodes[m.src], m.dst, m.args, r.reply);
    case _ =>
  }

  lemma {:induction false} TipsAcked(r: Run, i: nat)
    requires IsRun(r) && i < |r.states|
    ensures TipInv(r.states[i], HistoryAt(r, i))
  {
    hide Record, Next, Enabled, ElectionInv;
    if i > 0 {
      var s, h, step := r.states[i - 1], HistoryAt(r, i - 1), r.steps[i - 1];
      TipsAcked(r, i - 1);
      RunInv(r, i - 1);
      assert Follows(s, step, r.states[i]);
      forall v: nat | v < |r.states[i].nodes| ensures TipAt(r.states[i], HistoryAt(r, i), v) {
        NextAppends(s, step);
        assert TipAt(s, h, v) && NodeAt(s, h, v);
        TipMoves(s, h, step, v);
      }
    } else {
      forall v: nat | v < |r.states[0].nodes| ensures TipAt(r.states[0], HistoryAt(r, 0), v) {
        var lease :| r.states[0].nodes[v] == Init(v, |r.states[0].nodes|, lease);
      }
    }
  }

  lemma {:induction false} RunSurvival(r: Run, i: nat)
    requires IsRun(r) && i < |r.states|
    ensures SurvivalInv(r.states[i], HistoryAt(r, i))
  {
    hide Record, Next, Inv, Enabled, SurvivalInv;
    if i > 0 {
      RunSurvival(r, i - 1);
      RunInv(r, i - 1);
      assert Follows(r.states[i - 1], r.steps[i - 1], r.states[i]);
      SurvivalStep(r.states[i - 1], HistoryAt(r, i - 1), r.steps[i - 1]);
    } else {
      GuardedInit(r.states[0]);
      InitSurvives(r.states[0]);
    }
  }

  lemma InitSurvives(s: Cluster)
    requires GuardedInv(s, NO_HISTORY)
    ensures SurvivalInv(s, NO_HISTORY)
  {
  }

  /** An accepted append takes back an acknowledgement of its term exactly when it cuts the receiver's log short. */
  lemma TakesBackIff(r: Run, b: nat, k: nat, unset: int)
    requires IsRun(r) && Accepts(r, b, k, unset)
    ensures k < |r.states[b].appends| && Has(r, b, r.states[b].appends[k].dst) && At(r, b, r.states[b].appends[k].dst).log != []
    ensures
      var m := r.states[b].appends[k];
      CutsShort(At(r, b, m.dst), m.args) <==> !Reaches(HistoryAt(r, b), m)
  {
    hide ElectionInv, AppendLog, HistoryAt, Next, Record, SurvivalInv, WfLog, FromLeaders;
    var s, h := r.states[b], HistoryAt(r, b);
    assert Follows(s, r.steps[b], r.states[b + 1]);
    RunInv(r, b);
    RunSurvival(r, b);
    TipsAcked(r, b);
    if CutsShort(s.nodes[s.appends[k].dst], s.appends[k].args) {
      CutTakesBack(s, h, k, unset);
    } else {
      HarmlessReaches(s, h, k, unset);
    }
  }

  lemma CutTakesBack(s: Cluster, h: History, k: nat, unset: int)
    requires Inv(s, h) && SurvivalInv(s, h) && TipInv(s, h) && k < |s.appends|
    requires
      var m := s.appends[k];
      AppendLog(s.nodes[m.dst], m.args, unset).1.success && CutsShort(s.nodes[m.dst], m.args)
    ensures !Reaches(h, s.appends[k])
  {
    hide AppendLog, WfLog, FromLeaders;
    var m := s.appends[k];
    var t, v := m.args.term, m.dst;
    TookFacts(s, h, k, unset);
    assert AppendAt(s, h, k) && NodeAt(s, h, v) && TipAt(s, h, v);
    assert LeaderOk(s, h, t) && CandidacyOk(s, h, t, h.leaderOf[t]);
    WfContiguous(s.nodes[v].log);
    assert AckAt(s, h, t, v);
  }

  // ----- Appends in the order of sending -----

  /** Handling request k now respects the order of sending. */
  ghost predicate FreshFor(s: Cluster, h: History, k: nat) {
    && k < |s.appends|
    && forall j: nat :: j in h.handled && j < |s.appends| && SameChannel(s.appends[j], s.appends[k]) ==> j < k
  }

  predicate SameChannel(a: AppendRequest, b: AppendRequest) {
    a.src == b.src && a.dst == b.dst
  }

  /** In order, an append reaches as far as whatever the receiver acknowledged in its term. */
  lemma InOrderReaches(s: Cluster, h: History, k: nat)
    requires Inv(s, h) && SurvivalInv(s, h) && FreshFor(s, h, k)
    ensures Reaches(h, s.appends[k])
  {
    var m := s.appends[k];
    var t, v := m.args.term, m.dst;
    assert AppendAt(s, h, k);
    if (t, v) in h.acks {
      assert AckAt(s, h, t, v);
      var j :| j in h.handled && TookFrom(s, t, v, h.acks[(t, v)], j);
      assert AppendAt(s, h, j);
    }
  }

  lemma RecordHandled(h: History, s: Cluster, step: Step)
    requires WellFormed(s) && Enabled(s, step)
    ensures Record(h, s, step).handled == if step.HandleAppend? then h.handled + {step.k} else h.handled
  {
    hide AppendLog, RequestVote, Append;
  }

  lemma {:induction false} HandledBefore(r: Run, i: nat, k: nat)
    requires IsRun(r) && i < |r.states| && k in HistoryAt(r, i).handled
    ensures exists j :: 0 <= j < i && r.steps[j].HandleAppend? && r.steps[j].k == k
  {
    hide Record, Next, Enabled, WellFormed;
    assert i > 0;
    assert Follows(r.states[i - 1], r.steps[i - 1], r.states[i]);
    RecordHandled(HistoryAt(r, i - 1), r.states[i - 1], r.steps[i - 1]);
    if !(r.steps[i - 1].HandleAppend? && r.steps[i - 1].k == k) {
      HandledBefore(r, i - 1, k);
    }
  }

  lemma InOrderFresh(r: Run, i: nat)
    requires IsRun(r) && InOrder(r) && i < |r.steps| && r.steps[i].HandleAppend?
    ensures FreshFor(r.states[i], HistoryAt(r, i), r.steps[i].k)
  {
    var s, k := r.states[i], r.steps[i].k;
    assert Follows(s, r.steps[i], r.states[i + 1]);
    forall q: nat | q in HistoryAt(r, i).handled && q < |s.appends| && SameChannel(s.appends[q], s.appends[k]) ensures q < k {
      HandledBefore(r, i, q);
      var j :| 0 <= j < i && r.steps[j].HandleAppend? && r.steps[j].k == q;
      assert Follows(r.states[j], r.steps[j], r.states[j + 1]);
      SentStays(r, j, i);
      assert OrderedPair(r, j, i);
    }
  }

  /** Appends of one sender to one receiver handled in the order of sending never cut a log short. */
  lemma InOrderIsGuarded(r: Run)
    requires IsRun(r) && InOrder(r)
    ensures Guarded(r)
  {
    hide Next, Record, Inv, SurvivalInv, HistoryAt, AppendLog, CutsShort;
    forall i | 0 <= i < |r.steps| && r.steps[i].HandleAppend? ensures HarmlessAt(r, i) {
      assert Follows(r.states[i], r.steps[i], r.states[i + 1]);
      if Accepts(r, i, r.steps[i].k, r.steps[i].unset) {
        RunInv(r, i);
        RunSurvival(r, i);
        InOrderFresh(r, i);
        InOrderReaches(r.states[i], HistoryAt(r, i), r.steps[i].k);
        TakesBackIff(r, i, r.steps[i].k, r.steps[i].unset);
      }
    }
  }

  /** Leader completeness, state machine safety and one applied history for appends in the order of sending. */
  lemma InOrderIsSafe(r: Run, a: nat, b: nat, i: nat, j: nat, k: nat)
    requires IsRun(r) && InOrder(r) && Has(r, a, i) && Has(r, b, j)
    ensures 0 <= At(r, a, i).commitIndex < |At(r, a, i).log| && 0 <= At(r, b, j).commitIndex < |At(r, b, j).log|
    ensures At(r, b, j).role == Leader && At(r, a, i).currentTerm < At(r, b, j).currentTerm ==>
      At(r, a, i).log[..At(r, a, i).commitIndex + 1] <= At(r, b, j).log
    ensures a <= b && k <= At(r, a, i).commitIndex && k <= At(r, b, j).commitIndex ==>
      At(r, a, i).log[..k + 1] == At(r, b, j).log[..k + 1]
    ensures Calm(r) && |At(r, a, i).applied| <= |At(r, b, j).applied| ==> At(r, a, i).applied <= At(r, b, j).applied
  {
    InOrderIsGuarded(r);
    CommitInLog(r, a, i);
    CommitInLog(r, b, j);
    if At(r, b, j).role == Leader && At(r, a, i).currentTerm < At(r, b, j).currentTerm { LeaderCompleteness(r, a, b, i, j); }
    if Calm(r) && |At(r, a, i).applied| <= |At(r, b, j).applied| { ReplicasApplyOneHistory(r, a, b, i, j); }
    if a <= b && k <= At(r, a, i).commitIndex && k <= At(r, b, j).commitIndex { StateMachineSafety(r, a, b, i, j, k); }
  }

  // ----- A run out of order -----

  const ENTRY := LogEntry(1, 1, [])
  const BEAT := AppendArgs(1, 0, 0, 0, [], 0)
  const CARRY := AppendArgs(1, 0, 0, 0, [ENTRY], 0)

  lemma Start() returns (r: Run)
    ensures IsRun(r) && r.steps == [] && |r.states| == 1
    ensures r.states[0] == Cluster([Init(0, 3, false), Init(1, 3, false), Init(2, 3, false)], {}, {}, [], {})
  {
    var s := Cluster([Init(0, 3, false), Init(1, 3, false), Init(2, 3, false)], {}, {}, [], {});
    r := Run([s], []);
    assert s.nodes[0] == Init(0, 3, false) && s.nodes[1] == Init(1, 3, false) && s.nodes[2] == Init(2, 3, false);
  }

  const VOTER := Node(1, 3, 1, 0, [SENTINEL], 0, 0, [], [], Follower, 0, false, [], [])
  const WINNER := Node(0, 3, 1, 0, [SENTINEL], 0, 0, [1, 1, 1], [0, 0, 0], Leader, 2, false, [], [])
  const LEADER := Node(0, 3, 1, 0, [SENTINEL, ENTRY], 1, 0, [1, 2, 1], [0, 1, 0], Leader, 2, false, [], [])
  const HOLDER := Node(1, 3, 1, 0, [SENTINEL, ENTRY], 0, 0, [], [], Follower, 0, true, [], [])

  /** Server 0 wins term 1. */
  lemma FirstLeader() returns (r: Run)
    ensures IsRun(r) && |r.steps| == 3
    ensures Tail(r).nodes == [WINNER, VOTER, Init(2, 3, false)] && Tail(r).appends == []
    ensures forall k :: 0 <= k < 3 ==> !r.steps[k].HandleAppend? && !r.steps[k].ApplyBegin?
  {
    hide IsRun, WellFormed;
    r := Start();
    r := Extend(r, Campaign(0));
    var ballot := VoteRequest(0, 1, VoteArgs(1, 0, 0, 0));
    assert ballot in Tail(r).voteRequests;
    r := Extend(r, HandleVoteRequest(ballot));
    var answer := VoteAnswer(ballot, VoteReply(1, true));
    assert answer in Tail(r).voteAnswers;
    Wins();
    r := Extend(r, HandleVoteAnswer(answer));
  }

  lemma Wins()
    ensures HandleVoteReply(StartElection(Init(0, 3, false)).0, VoteReply(1, true)) == WINNER
  {
    assert seq(3, _ => 1) == [1, 1, 1] && seq(3, _ => 0) == [0, 0, 0];
  }

  /** It sends a heartbeat to server 1, then a request with an entry, which arrives first. */
  lemma Overtaken(r0: Run) returns (r: Run)
    requires IsRun(r0) && |r0.steps| == 3
    requires Tail(r0).nodes == [WINNER, VOTER, Init(2, 3, false)] && Tail(r0).appends == []
    ensures IsRun(r) && |r.steps| == 7 && r.steps[6] == HandleAppend(1, 0) && r.states[6].appends == Tail(r).appends
    ensures Tail(r).nodes == [WINNER.(log := [SENTINEL, ENTRY]), HOLDER, Init(2, 3, false)]
    ensures Tail(r).appends == [AppendRequest(0, 1, BEAT), AppendRequest(0, 1, CARRY)]
    ensures AppendAnswer(1, AppendReply(1, true, 1)) in Tail(r).appendAnswers
    ensures r.steps[..3] == r0.steps && |r.states[6].nodes| == 3 && r.states[6].nodes[1] == VOTER
    ensures forall k :: 3 <= k < 6 ==> !r.steps[k].HandleAppend? && !r.steps[k].ApplyBegin?
  {
    hide IsRun, WellFormed, AppendLog, HeartBeat;
    Beats();
    Takes();
    r := Extend(r0, SendAppend(0, 1));
    r := Extend(r, ClientAppend(0, []));
    assert Append(WINNER, []).log == [SENTINEL, ENTRY];
    assert Tail(r).nodes == [WINNER.(log := [SENTINEL, ENTRY]), VOTER, Init(2, 3, false)];
    r := Extend(r, SendAppend(0, 1));
    r := Extend(r, HandleAppend(1, 0));
  }

  lemma Beats()
    ensures SendsEntries(WINNER, 1) && HeartBeat(WINNER, 1) == BEAT
    ensures SendsEntries(WINNER.(log := [SENTINEL, ENTRY]), 1) && HeartBeat(WINNER.(log := [SENTINEL, ENTRY]), 1) == CARRY
  {
    assert [SENTINEL, ENTRY][1..] == [ENTRY];
  }

  lemma Takes()
    ensures Contiguous(VOTER.log) && AppendLog(VOTER, CARRY, 0) == (HOLDER, AppendReply(1, true, 1))
    ensures Contiguous(HOLDER.log) && AppendLog(HOLDER, BEAT, 0) == (VOTER.(leaseTime := true), AppendReply(1, true, 0))
  {
    assert [SENTINEL, ENTRY][..1] + [] == [SENTINEL];
    assert [SENTINEL][..1] + [ENTRY] == [SENTINEL, ENTRY];
  }

  lemma CommitsEntry()
    ensures HandleAppendReply(WINNER.(log := [SENTINEL, ENTRY]), 1, CARRY, AppendReply(1, true, 1)) == LEADER
  {
    var n := Note(WINNER.(log := [SENTINEL, ENTRY]), 1, CARRY, AppendReply(1, true, 1));
    assert n == LEADER.(commitIndex := 0);
    assert Replicas(n, 1, 0) == 1;
    assert Replicas(n, 1, 1) == 1;
    assert Replicas(n, 1, 2) == 2;
    assert Replicas(n, 1, 3) == 2;
    assert CommitScan(n, 1) == 1;
  }

  /** The acknowledgement commits the entry. */
  lemma CommitFirst(r0: Run) returns (r: Run)
    requires IsRun(r0) && |r0.steps| == 7
    requires Tail(r0).nodes == [WINNER.(log := [SENTINEL, ENTRY]), HOLDER, Init(2, 3, false)]
    requires Tail(r0).appends == [AppendRequest(0, 1, BEAT), AppendRequest(0, 1, CARRY)]
    requires AppendAnswer(1, AppendReply(1, true, 1)) in Tail(r0).appendAnswers
    ensures IsRun(r) && |r.steps| == 8 && r.steps[..7] == r0.steps && r.states[..8] == r0.states
    ensures Tail(r).nodes == [LEADER, HOLDER, Init(2, 3, false)] && Tail(r).appends == Tail(r0).appends
  {
    hide IsRun, WellFormed, HandleAppendReply;
    CommitsEntry();
    r := Extend(r0, HandleAppendAnswer(AppendAnswer(1, AppendReply(1, true, 1))));
  }

  /** The late heartbeat empties the follower again. */
  lemma Truncated(r0: Run) returns (r: Run)
    requires IsRun(r0) && |r0.steps| == 8 && Tail(r0).nodes == [LEADER, HOLDER, Init(2, 3, false)]
    requires Tail(r0).appends == [AppendRequest(0, 1, BEAT), AppendRequest(0, 1, CARRY)]
    ensures IsRun(r) && |r.steps| == 10 && r.states[..9] == r0.states && r.steps[..8] == r0.steps
    ensures r.steps[8] == HandleAppend(0, 0) && Tail(r).nodes == [LEADER, VOTER, Init(2, 3, false)]
  {
    hide IsRun, WellFormed, AppendLog;
    Takes();
    r := Extend(r0, HandleAppend(0, 0));
    r := Extend(r, LeaseExpires(1));
  }

  /** A server without the entry is elected. */
  lemma SecondLeader(r0: Run) returns (r: Run)
    requires IsRun(r0) && |r0.steps| == 10 && Tail(r0).nodes == [LEADER, VOTER, Init(2, 3, false)]
    ensures IsRun(r) && |r.states| == 15 && r.states[..11] == r0.states && r.steps[..10] == r0.steps
    ensures |Tail(r).nodes| == 3 && Tail(r).nodes[2].role == Leader && Tail(r).nodes[2].currentTerm == 2
    ensures Tail(r).nodes[2].log == [SENTINEL]
  {
    hide IsRun, WellFormed, RequestVote, HandleVoteReply;
    var cand := Init(2, 3, false).(role := Candidate, currentTerm := 2, votedFor := 2, voteCount := 1);
    SecondWins(cand);
    r := Extend(r0, Campaign(2));
    r := Extend(r, Campaign(2));
    assert Tail(r).nodes == [LEADER, VOTER, cand];
    var ballot := VoteRequest(2, 1, VoteArgs(2, 2, 0, 0));
    assert ballot in Tail(r).voteRequests;
    r := Extend(r, HandleVoteRequest(ballot));
    r := Extend(r, HandleVoteAnswer(VoteAnswer(ballot, VoteReply(2, true))));
  }

  lemma SecondWins(cand: Node)
    requires cand == Init(2, 3, false).(role := Candidate, currentTerm := 2, votedFor := 2, voteCount := 1)
    ensures RequestVote(VOTER, VoteArgs(2, 2, 0, 0)).1 == VoteReply(2, true)
    ensures
      var n := HandleVoteReply(cand, VoteReply(2, true));
      n.role == Leader && n.currentTerm == 2 && n.log == [SENTINEL]
  {
  }

  /** A run in which a leader of term 2 lacks an entry committed in term 1. */
  lemma OutOfOrderLosesCommit() returns (r: Run)
    ensures IsRun(r) && !Guarded(r) && !InOrder(r)
    ensures Has(r, 8, 0) && Has(r, 14, 2)
    ensures At(r, 8, 0).role == Leader && At(r, 8, 0).commitIndex == 1 < |At(r, 8, 0).log|
    ensures At(r, 14, 2).role == Leader && At(r, 8, 0).currentTerm < At(r, 14, 2).currentTerm
    ensures !(At(r, 8, 0).log[..2] <= At(r, 14, 2).log)
  {
    var a := FirstLeader();
    var b := Overtaken(a);
    var c := CommitFirst(b);
    var d := Truncated(c);
    r := SecondLeader(d);
    assert r.states[8] == d.states[8] == Tail(c) && r.steps[8] == d.steps[8];
    assert r.states[6] == d.states[6] == c.states[6] == b.states[6] && r.steps[6] == d.steps[6] == c.steps[6] == b.steps[6];
    assert !OrderedPair(r, 6, 8);
  }
}
