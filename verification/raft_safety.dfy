/** The safety theorems of the Raft paper, over whole runs of the cluster. */
module RaftSafety {
  import opened Bytes
  import opened RaftTypes
  import opened RaftNode
  import opened RaftCluster
  import opened RaftHistory
  import opened RaftElection
  import opened RaftLog
  import opened RaftLogSteps
  import opened RaftCommit
  import opened RaftSurvival
  import opened RaftAgreement

  ghost predicate Has(r: Run, a: nat, i: nat) {
    a < |r.states| && i < |r.states[a].nodes|
  }

  /** Server i at moment a of the run. */
  ghost function At(r: Run, a: nat, i: nat): Node
    requires Has(r, a, i)
  {
    r.states[a].nodes[i]
  }

  // ----- Arbitrary runs -----

  lemma {:induction false} RunInv(r: Run, i: nat)
    requires IsRun(r) && i < |r.states|
    ensures Inv(r.states[i], HistoryAt(r, i))
  {
    hide Record, Next, Inv, Enabled;
    if i == 0 {
      InvInit(r.states[0]);
    } else {
      RunInv(r, i - 1);
      assert Follows(r.states[i - 1], r.steps[i - 1], r.states[i]);
      InvStep(r.states[i - 1], HistoryAt(r, i - 1), r.steps[i - 1]);
    }
  }

  lemma {:induction false} RunGrows(r: Run, a: nat, b: nat)
    requires IsRun(r) && a <= b < |r.states|
    ensures Grows(HistoryAt(r, a), HistoryAt(r, b)) && |r.states[a].nodes| == |r.states[b].nodes|
    decreases b - a
  {
    hide Record, Next, Inv, Enabled, WellFormed;
    if a < b {
      RunGrows(r, a, b - 1);
      RunInv(r, b - 1);
      assert Follows(r.states[b - 1], r.steps[b - 1], r.states[b]);
      InvStep(r.states[b - 1], HistoryAt(r, b - 1), r.steps[b - 1]);
      NextAppends(r.states[b - 1], r.steps[b - 1]);
      GrowsTrans(HistoryAt(r, a), HistoryAt(r, b - 1), HistoryAt(r, b));
    }
  }

  lemma GrowsTrans(f: History, g: History, h: History)
    requires Grows(f, g) && Grows(g, h)
    ensures Grows(f, h)
  {
  }

  /** No run gets into a state where a handler is undefined: every enabled step can be taken. */
  lemma RunsNeverStick(r: Run, step: Step)
    requires IsRun(r) && Enabled(r.states[|r.steps|], step)
    ensures WellFormed(r.states[|r.steps|])
    ensures IsRun(Run(r.states + [Next(r.states[|r.steps|], step)], r.steps + [step]))
  {
    RunInv(r, |r.steps|);
    var q := Run(r.states + [Next(r.states[|r.steps|], step)], r.steps + [step]);
    forall i | 0 <= i < |q.steps| ensures Follows(q.states[i], q.steps[i], q.states[i + 1]) {
      if i < |r.steps| { assert Follows(r.states[i], r.steps[i], r.states[i + 1]); }
    }
  }

  /** The last state of a run. */
  function Tail(r: Run): Cluster
    requires r.states != []
  {
    r.states[|r.states| - 1]
  }

  /** A run with one more step. */
  lemma Extend(r: Run, step: Step) returns (q: Run)
    requires IsRun(r) && Enabled(Tail(r), step)
    ensures WellFormed(Tail(r)) && IsRun(q) && Tail(q) == Next(Tail(r), step)
    ensures q.steps == r.steps + [step] && q.states == r.states + [Next(Tail(r), step)]
  {
    RunsNeverStick(r, step);
    q := Run(r.states + [Next(Tail(r), step)], r.steps + [step]);
  }

  /** Election safety: over a whole run, at most one server is ever leader of a term. */
  lemma ElectionSafety(r: Run, a: nat, b: nat, i: nat, j: nat)
    requires IsRun(r) && Has(r, a, i) && Has(r, b, j)
    requires At(r, a, i).role == Leader && At(r, b, j).role == Leader
    requires At(r, a, i).currentTerm == At(r, b, j).currentTerm
    ensures i == j
  {
    RunInv(r, a);
    RunInv(r, b);
    assert RoleOk(r.states[a], HistoryAt(r, a), i) && RoleOk(r.states[b], HistoryAt(r, b), j);
    if a <= b { RunGrows(r, a, b); } else { RunGrows(r, b, a); }
  }

  /** Log matching: two logs, even of different moments, with the same index and term agree up to there. */
  lemma LogMatching(r: Run, a: nat, b: nat, i: nat, j: nat, p: nat)
    requires IsRun(r) && a <= b && Has(r, a, i) && Has(r, b, j)
    requires p < |At(r, a, i).log| && p < |At(r, b, j).log|
    requires At(r, a, i).log[p].term == At(r, b, j).log[p].term
    ensures At(r, a, i).log[..p + 1] == At(r, b, j).log[..p + 1]
    ensures At(r, a, i).log[p].index == p == At(r, b, j).log[p].index
  {
    RunInv(r, a);
    RunInv(r, b);
    RunGrows(r, a, b);
    assert NodeAt(r.states[a], HistoryAt(r, a), i) && NodeAt(r.states[b], HistoryAt(r, b), j);
    ConsistentGrows(HistoryAt(r, a), HistoryAt(r, b), At(r, a, i).log);
    LogsAgree(HistoryAt(r, b), At(r, a, i).log, At(r, b, j).log, p);
  }

  lemma {:induction false} SentStays(r: Run, a: nat, b: nat)
    requires IsRun(r) && a <= b < |r.states|
    ensures r.states[a].appends <= r.states[b].appends
    decreases b - a
  {
    if a < b {
      SentStays(r, a, b - 1);
      assert Follows(r.states[b - 1], r.steps[b - 1], r.states[b]);
      NextAppends(r.states[b - 1], r.steps[b - 1]);
    }
  }

  lemma NextAppends(s: Cluster, step: Step)
    requires WellFormed(s) && Enabled(s, step)
    ensures s.appends <= Next(s, step).appends && |Next(s, step).nodes| == |s.nodes|
  {
  }

  /** The request sent at step a, if ever accepted, makes the follower's log the leader's log of step a. */
  lemma AcceptedAppendCopiesLeader(r: Run, a: nat, b: nat, i: nat, peer: nat, unset: int)
    requires IsRun(r) && a < b < |r.steps|
    requires r.steps[a] == SendAppend(i, peer) && r.steps[b] == HandleAppend(|r.states[a].appends|, unset)
    requires i < |r.states[a].nodes| && peer < |r.states[b].nodes| && peer < |r.states[b + 1].nodes|
    requires WellFormed(r.states[b]) && |r.states[a].appends| < |r.states[b].appends|
    requires AppendLog(r.states[b].nodes[peer], r.states[b].appends[|r.states[a].appends|].args, unset).1.success
    ensures r.states[b].appends[|r.states[a].appends|].dst == peer
    ensures r.states[b + 1].nodes[peer].log == At(r, a, i).log
  {
    hide LogInv, ElectionInv, HistoryAt, RequestVote, HandleVoteReply, HandleAppendReply, AppendLog;
    var s, h, k := r.states[a], HistoryAt(r, a), |r.states[a].appends|;
    assert Follows(s, r.steps[a], r.states[a + 1]) && Follows(r.states[b], r.steps[b], r.states[b + 1]);
    RunInv(r, a);
    RunInv(r, b);
    SentRequest(s, h, i, peer);
    SentStays(r, a + 1, b);
    RunGrows(r, a, b);
    HandledFacts(r.states[b], HistoryAt(r, b), k, unset);
    LeaderHolds(s, h, i);
    var t := s.nodes[i].currentTerm;
    assert r.states[b].appends[k] == r.states[a + 1].appends[k] == AppendRequest(i, peer, HeartBeat(s.nodes[i], peer));
    assert HistoryAt(r, b).termLog[t][..|h.termLog[t]|] == h.termLog[t];
  }

  lemma LeaderHolds(s: Cluster, h: History, i: nat)
    requires Inv(s, h) && i < |s.nodes| && s.nodes[i].role == Leader
    ensures s.nodes[i].currentTerm in h.termLog && h.termLog[s.nodes[i].currentTerm] == s.nodes[i].log
    ensures s.nodes[i].currentTerm in h.leaderOf && (s.nodes[i].currentTerm, h.leaderOf[s.nodes[i].currentTerm]) in h.candLog
    ensures ElectLog(h, s.nodes[i].currentTerm) <= s.nodes[i].log
  {
    assert NodeAt(s, h, i) && TermOk(h, s.nodes[i].currentTerm);
  }

  /** On a log that starts at index 0, the conflict scan finds a hint whenever it is started. */
  ghost predicate ScanStops(log: seq<LogEntry>, a: AppendArgs) {
    0 <= a.prevLogIndex < |log| && log[a.prevLogIndex].term != a.prevLogTerm ==>
      a.prevLogIndex >= 1 && Scan(log, a.prevLogIndex - 1, log[a.prevLogIndex].term) >= 0
  }

  /**
   A leader's next indices stay in range, so it never falls back to a snapshot; the conflict scan of every
   receiver stops, and no request reaches below the base of its log.
   */
  lemma CatchUpStaysDefined(r: Run, b: nat, i: nat, peer: nat, k: nat)
    requires IsRun(r) && Has(r, b, i) && At(r, b, i).role == Leader
    requires Has(r, b, peer) && peer != i && k < |r.states[b].appends|
    ensures |At(r, b, i).nextIndex| == |r.states[b].nodes| && At(r, b, i).log != []
    ensures 1 <= At(r, b, i).nextIndex[peer] <= Last(At(r, b, i).log).index + 1
    ensures SendsEntries(At(r, b, i), peer)
    ensures
      var m := r.states[b].appends[k];
      && Has(r, b, m.dst) && ScanStops(At(r, b, m.dst).log, m.args)
      && At(r, b, m.dst).log != [] && At(r, b, m.dst).log[0].index == 0 <= m.args.prevLogIndex
  {
    RunInv(r, b);
    var s, h := r.states[b], HistoryAt(r, b);
    assert NodeAt(s, h, i);
    var m := s.appends[k];
    assert AppendAt(s, h, k) && NodeAt(s, h, m.dst) && TermOk(h, m.args.term);
  }

  // ----- Runs in which no accepted append cuts a log short -----

  lemma WinAcksGrow(s: Cluster, h: History, r: VoteAnswer)
    requires GuardedInv(s, h) && r in s.voteAnswers
    ensures AcksGrow(h, Record(h, s, HandleVoteAnswer(r)))
  {
    hide LogInv, SurvivalInv, AgreementInv;
    if Counts(s.nodes[r.request.src], r.reply) && s.nodes[r.request.src].voteCount + 1 > |s.nodes| / 2 {
      FirstWinner(s, h, r);
      NoAckYet(s, h, s.nodes[r.request.src].currentTerm);
    }
  }

  lemma StepAcksGrow(s: Cluster, h: History, step: Step)
    requires GuardedInv(s, h) && Enabled(s, step) && (step.HandleAppend? ==> Harmless(s, step.k, step.unset))
    ensures AcksGrow(h, Record(h, s, step))
  {
    hide LogInv, ElectionInv, AgreementInv, AppendLog, RequestVote;
    match step {
      case HandleVoteAnswer(r) => WinAcksGrow(s, h, r);
      case ClientAppend(i, _) =>
        if s.nodes[i].role == Leader { LeaderAckExact(s, h, i); }
      case HandleAppend(k, unset) =>
        if AppendLog(s.nodes[s.appends[k].dst], s.appends[k].args, unset).1.success { HarmlessReaches(s, h, k, unset); }
        AppendRecord(h, s, k, unset);
      case _ =>
    }
  }

  lemma {:induction false} GuardedRunInv(r: Run, i: nat)
    requires IsRun(r) && Guarded(r) && i < |r.states|
    ensures GuardedInv(r.states[i], HistoryAt(r, i))
  {
    hide Record, Next, GuardedInv, Enabled;
    if i == 0 {
      GuardedInit(r.states[0]);
    } else {
      GuardedRunInv(r, i - 1);
      assert Follows(r.states[i - 1], r.steps[i - 1], r.states[i]);
      if r.steps[i - 1].HandleAppend? { assert HarmlessAt(r, i - 1); }
      GuardedStep(r.states[i - 1], HistoryAt(r, i - 1), r.steps[i - 1]);
    }
  }

  lemma {:induction false} RunAcksGrow(r: Run, a: nat, b: nat)
    requires IsRun(r) && Guarded(r) && a <= b < |r.states|
    ensures AcksGrow(HistoryAt(r, a), HistoryAt(r, b))
    decreases b - a
  {
    hide Record, Next, GuardedInv, Enabled, WellFormed;
    if a < b {
      RunAcksGrow(r, a, b - 1);
      GuardedRunInv(r, b - 1);
      assert Follows(r.states[b - 1], r.steps[b - 1], r.states[b]);
      if r.steps[b - 1].HandleAppend? { assert HarmlessAt(r, b - 1); }
      StepAcksGrow(r.states[b - 1], HistoryAt(r, b - 1), r.steps[b - 1]);
    }
  }

  /** A committed prefix seen at moment a is still a committed prefix at moment b. */
  lemma WitnessAt(r: Run, a: nat, b: nat, i: nat) returns (t: int, n: int)
    requires IsRun(r) && Guarded(r) && a <= b < |r.states| && Has(r, a, i) && At(r, a, i).commitIndex != 0
    ensures t <= At(r, a, i).currentTerm
    ensures Witness(r.states[b], HistoryAt(r, b), At(r, a, i).log, At(r, a, i).commitIndex, t, n)
    ensures Committed(r.states[b], HistoryAt(r, b), t, n) && At(r, a, i).commitIndex <= n
  {
    var s, h, m := r.states[a], HistoryAt(r, a), At(r, a, i);
    GuardedRunInv(r, a);
    RunGrows(r, a, b);
    RunAcksGrow(r, a, b);
    assert CommitAt(s, h, i);
    t, n :| NodeWitness(s, h, i, t, n);
    WitnessGrows(s, h, r.states[b], HistoryAt(r, b), m.log, m.commitIndex, t, n, m.log);
  }

  /**
   Leader completeness: whatever a server has committed at moment a is in the log of
   every server that is, at any moment b of the run, leader of a later term.
   */
  lemma LeaderCompleteness(r: Run, a: nat, b: nat, i: nat, j: nat)
    requires IsRun(r) && Guarded(r) && Has(r, a, i) && Has(r, b, j)
    requires At(r, b, j).role == Leader && At(r, a, i).currentTerm < At(r, b, j).currentTerm
    ensures 0 <= At(r, a, i).commitIndex < |At(r, a, i).log|
    ensures At(r, a, i).log[..At(r, a, i).commitIndex + 1] <= At(r, b, j).log
  {
    hide LogInv, ElectionInv, SurvivalInv, AgreementInv;
    var m, n := At(r, a, i), At(r, b, j);
    var c := if a <= b then b else a;
    CommitInLog(r, a, i);
    CommitInLog(r, b, j);
    if m.commitIndex > 0 {
      var t, q := WitnessAt(r, a, c, i);
      GuardedRunInv(r, b);
      GuardedRunInv(r, c);
      LeaderHolds(r.states[b], HistoryAt(r, b), j);
      RunGrows(r, b, c);
      LaterLeaderHas(r.states[c], HistoryAt(r, c), t, q, n.currentTerm);
      CutPrefix(HistoryAt(r, c).termLog[t], n.log, q, m.commitIndex);
    }
  }

  lemma CommitInLog(r: Run, a: nat, i: nat)
    requires IsRun(r) && Guarded(r) && Has(r, a, i)
    ensures 0 <= At(r, a, i).commitIndex < |At(r, a, i).log| && At(r, a, i).log[0] == SENTINEL
  {
    GuardedRunInv(r, a);
    assert CommitAt(r.states[a], HistoryAt(r, a), i) && NodeAt(r.states[a], HistoryAt(r, a), i);
  }

  lemma WitnessCut(s: Cluster, h: History, l: seq<LogEntry>, c: int, t: int, n: int, k: int)
    requires Witness(s, h, l, c, t, n) && 0 <= k <= c
    ensures l[..k + 1] == h.termLog[t][..k + 1]
  {
    assert l[..k + 1] == l[..c + 1][..k + 1] == h.termLog[t][..c + 1][..k + 1];
  }

  /** State machine safety: what any two servers have committed, at any two moments, agrees. */
  lemma StateMachineSafety(r: Run, a: nat, b: nat, i: nat, j: nat, k: nat)
    requires IsRun(r) && Guarded(r) && a <= b && Has(r, a, i) && Has(r, b, j)
    requires k <= At(r, a, i).commitIndex && k <= At(r, b, j).commitIndex
    ensures At(r, a, i).commitIndex < |At(r, a, i).log| && At(r, b, j).commitIndex < |At(r, b, j).log|
    ensures At(r, a, i).log[..k + 1] == At(r, b, j).log[..k + 1]
  {
    hide LogInv, ElectionInv, SurvivalInv, AgreementInv, Follows, HistoryAt, Witness;
    var m, n := At(r, a, i), At(r, b, j);
    CommitInLog(r, a, i);
    CommitInLog(r, b, j);
    if k > 0 {
      var t, p := WitnessAt(r, a, b, i);
      var u, q := WitnessAt(r, b, b, j);
      GuardedRunInv(r, b);
      var h := HistoryAt(r, b);
      CommittedPrefixesAgree(r.states[b], h, t, p, u, q, k);
      WitnessCut(r.states[b], h, m.log, m.commitIndex, t, p, k);
      WitnessCut(r.states[b], h, n.log, n.commitIndex, u, q, k);
    } else {
      assert m.log[..1] == n.log[..1];
    }
  }
}
