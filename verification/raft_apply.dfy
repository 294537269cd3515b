/**
 `applyLog` reads both indices under the lock, pushes without it and takes it again to record
 what it applied, and every advance of the commit index starts another run of it.  Which of
 these runs may begin while others are open, for every committed entry to be pushed once and in order.
 */
module RaftApply {
  import opened Bytes
  import opened RaftTypes
  import opened RaftNode
  import opened RaftCluster
  import opened RaftHistory
  import opened RaftLog
  import opened RaftLogSteps
  import opened RaftCommit
  import opened RaftAgreement
  import opened RaftSafety

  /** No run is open, or nothing is committed beyond what is recorded as applied. */
  predicate CalmBegin(n: Node) {
    n.applying == [] || n.commitIndex <= n.lastApplied
  }

  /** Every run of `applyLog` begins so. */
  ghost predicate Calm(r: Run)
    requires IsRun(r)
  {
    forall i :: 0 <= i < |r.steps| && r.steps[i].ApplyBegin? ==> CalmAt(r, i)
  }

  ghost predicate CalmAt(r: Run, i: nat)
    requires IsRun(r) && i < |r.steps| && r.steps[i].ApplyBegin?
  {
    assert Follows(r.states[i], r.steps[i], r.states[i + 1]);
    CalmBegin(r.states[i].nodes[r.steps[i].i])
  }

  // ----- The invariant -----

  /** The last index pushed. */
  ghost function Done(n: Node): int {
    if n.applying == [] then n.lastApplied else n.applying[0].at - 1
  }

  ghost predicate OpenRun(n: Node, run: ApplyRun) {
    n.lastApplied < run.at <= run.last + 1 && n.lastApplied <= run.last == run.commit <= n.commitIndex
  }

  /** The log up to the last index pushed has been pushed; of several open runs none has anything to push. */
  ghost predicate AppliedOk(n: Node) {
    && 0 <= n.lastApplied <= n.commitIndex < |n.log|
    && (forall j :: 0 <= j < |n.applying| ==> OpenRun(n, n.applying[j]))
    && (|n.applying| >= 2 ==> forall j :: 0 <= j < |n.applying| ==> n.applying[j].last == n.lastApplied)
    && n.applied == n.log[1..Done(n) + 1]
  }

  ghost predicate AppliedInv(s: Cluster) {
    forall i: nat :: i < |s.nodes| ==> AppliedOk(s.nodes[i])
  }

  lemma BeginKeeps(n: Node)
    requires AppliedOk(n) && n.log[0].index == 0 && CalmBegin(n)
    ensures AppliedOk(BeginApply(n))
  {
  }

  lemma PushKeeps(n: Node, j: nat)
    requires AppliedOk(n) && j < |n.applying| && MorePushes(n, j)
    ensures 0 <= n.applying[j].at && AppliedOk(PushApply(n, j))
  {
    assert OpenRun(n, n.applying[j]);
    assert n.log[1..n.applying[j].at + 1] == n.log[1..n.applying[j].at] + [n.log[n.applying[j].at]];
  }

  lemma EndKeeps(n: Node, j: nat)
    requires AppliedOk(n) && j < |n.applying| && !MorePushes(n, j)
    ensures AppliedOk(EndApply(n, j))
  {
    var n', run := EndApply(n, j), n.applying[j];
    assert OpenRun(n, run);
    forall k | 0 <= k < |n'.applying| ensures OpenRun(n', n'.applying[k]) && n'.applying[k].last == n'.lastApplied {
      assert OpenRun(n, n.applying[if k < j then k else k + 1]);
    }
  }

  /** Nothing that was applied or is being applied is touched, and the committed part of the log is kept. */
  ghost predicate Kept(m: Node, n: Node) {
    && n.applied == m.applied && n.applying == m.applying && n.lastApplied == m.lastApplied
    && 0 <= m.commitIndex <= n.commitIndex < |n.log| && m.commitIndex < |m.log|
    && n.log[..m.commitIndex + 1] == m.log[..m.commitIndex + 1]
  }

  lemma KeptKeeps(m: Node, n: Node)
    requires AppliedOk(m) && Kept(m, n)
    ensures AppliedOk(n)
  {
    var d := Done(m);
    assert m.applying != [] ==> OpenRun(m, m.applying[0]);
    assert m.log[1..d + 1] == m.log[..m.commitIndex + 1][1..d + 1];
    assert n.log[1..d + 1] == n.log[..m.commitIndex + 1][1..d + 1];
    forall j | 0 <= j < |n.applying| ensures OpenRun(n, n.applying[j]) {
      assert OpenRun(m, m.applying[j]);
    }
  }

  // ----- Every step -----

  lemma AcceptKept(s: Cluster, h: History, k: nat, unset: int)
    requires GuardedInv(s, h) && k < |s.appends| && Harmless(s, k, unset)
    requires AppendLog(s.nodes[s.appends[k].dst], s.appends[k].args, unset).1.success
    ensures
      var m := s.nodes[s.appends[k].dst];
      var n := AppendLog(m, s.appends[k].args, unset).0;
      && n.applied == m.applied && n.applying == m.applying && n.lastApplied == m.lastApplied
      && 0 <= m.commitIndex <= n.commitIndex && m.commitIndex < |m.log| && m.commitIndex < |n.log|
      && n.log[..m.commitIndex + 1] == m.log[..m.commitIndex + 1]
  {
    hide WfLog, FromLeaders, ElectionInv, AppendLog, SurvivalInv;
    var a, i := s.appends[k].args, s.appends[k].dst;
    var m := s.nodes[i];
    TookFacts(s, h, k, unset);
    HarmlessReaches(s, h, k, unset);
    assert AppendAt(s, h, k) && CommitAt(s, h, i) && NodeAt(s, h, i) && TermOk(h, a.term);
    if m.commitIndex > 0 {
      var t: int, q: int :| NodeWitness(s, h, i, t, q);
      AcceptKeepsCommit(s, h, i, a.term, SentLast(a), t, q);
    }
  }

  lemma VoteKept(n: Node, a: VoteArgs, r: VoteReply)
    requires n.log != [] && 0 <= n.commitIndex < |n.log|
    ensures Kept(n, RequestVote(n, a).0) && Kept(n, HandleVoteReply(n, r))
  {
  }

  lemma ReplyKept(n: Node, peer: nat, a: AppendArgs, r: AppendReply)
    requires Contiguous(n.log) && n.log[0].index == 0 && 0 <= n.commitIndex < |n.log|
    requires n.role == Leader ==> peer < |n.nextIndex| && peer < |n.matchIndex|
    ensures Kept(n, HandleAppendReply(n, peer, a, r))
  {
    hide CommitScan;
    if n.role == Leader && a.term == n.currentTerm && r.term <= n.currentTerm {
      CommitAtLeast(Note(n, peer, a, r), Last(n.log).index);
    }
  }

  lemma KeptAppend(s: Cluster, h: History, k: nat, unset: int, v: nat)
    requires GuardedInv(s, h) && k < |s.appends| && v < |s.nodes| && Harmless(s, k, unset)
    requires
      var s' := Next(s, HandleAppend(k, unset));
      |s'.nodes| == |s.nodes| && 0 <= s'.nodes[v].commitIndex < |s'.nodes[v].log|
    ensures Kept(s.nodes[v], Next(s, HandleAppend(k, unset)).nodes[v])
  {
    hide ElectionInv, SurvivalInv, AppendLog, WfLog, FromLeaders, TermsInv, AppendsInv, Next;
    AppendNext(s, k, unset);
    assert CommitAt(s, h, v);
    TookFacts(s, h, k, unset);
    if AppendLog(s.nodes[s.appends[k].dst], s.appends[k].args, unset).1.success { AcceptKept(s, h, k, unset); }
  }

  lemma KeptStep(s: Cluster, h: History, step: Step, v: nat)
    requires GuardedInv(s, h) && Enabled(s, step) && v < |s.nodes| && !Applies(step)
    requires step.HandleAppend? ==> Harmless(s, step.k, step.unset)
    requires |Next(s, step).nodes| == |s.nodes| && 0 <= Next(s, step).nodes[v].commitIndex < |Next(s, step).nodes[v].log|
    ensures Kept(s.nodes[v], Next(s, step).nodes[v])
  {
    hide ElectionInv, SurvivalInv, AppendLog, RequestVote, HandleVoteReply, HandleAppendReply, Scan, CommitScan, WfLog, FromLeaders;
    assert NodeAt(s, h, v) && CommitAt(s, h, v);
    WfContiguous(s.nodes[v].log);
    match step
    case HandleAppend(k, unset) => KeptAppend(s, h, k, unset, v);
    case HandleVoteRequest(r) => if r.dst == v { VoteKept(s.nodes[v], r.args, VoteReply(0, false)); }
    case HandleVoteAnswer(r) => if r.request.src == v { VoteKept(s.nodes[v], r.request.args, r.reply); }
    case HandleAppendAnswer(r) =>
      var m := s.appends[r.sent];
      if m.src == v { ReplyKept(s.nodes[v], m.dst, m.args, r.reply); }
    case _ =>
  }

  lemma ApplyStep(s: Cluster, h: History, step: Step)
    requires Inv(s, h) && AppliedInv(s) && Enabled(s, step) && Applies(step)
    requires step.ApplyBegin? ==> CalmBegin(s.nodes[step.i])
    ensures AppliedInv(Next(s, step))
  {
    hide AppliedOk, ElectionInv, WfLog, FromLeaders;
    assert NodeAt(s, h, step.i);
    WfContiguous(s.nodes[step.i].log);
    match step
    case ApplyBegin(i) => BeginKeeps(s.nodes[i]);
    case ApplyPush(i, j) => PushKeeps(s.nodes[i], j);
    case ApplyEnd(i, j) => EndKeeps(s.nodes[i], j);
  }

  lemma AppliedStep(s: Cluster, h: History, step: Step)
    requires GuardedInv(s, h) && AppliedInv(s) && Enabled(s, step)
    requires step.HandleAppend? ==> Harmless(s, step.k, step.unset)
    requires step.ApplyBegin? ==> CalmBegin(s.nodes[step.i])
    ensures AppliedInv(Next(s, step))
  {
    hide AppliedOk, ElectionInv, LogInv, SurvivalInv, Next, Record;
    if Applies(step) {
      ApplyStep(s, h, step);
    } else {
      GuardedStep(s, h, step);
      NextAppends(s, step);
      forall v: nat | v < |Next(s, step).nodes| ensures AppliedOk(Next(s, step).nodes[v]) {
        assert CommitAt(Next(s, step), Record(h, s, step), v);
        KeptStep(s, h, step, v);
        KeptKeeps(s.nodes[v], Next(s, step).nodes[v]);
      }
    }
  }

  lemma {:induction false} AppliedRun(r: Run, i: nat)
    requires IsRun(r) && Guarded(r) && Calm(r) && i < |r.states|
    ensures AppliedInv(r.states[i])
  {
    hide Next, Record, GuardedInv, Enabled, AppliedInv;
    if i == 0 {
      AppliedInit(r.states[0]);
    } else {
      AppliedRun(r, i - 1);
      GuardedRunInv(r, i - 1);
      assert Follows(r.states[i - 1], r.steps[i - 1], r.states[i]);
      if r.steps[i - 1].HandleAppend? { assert HarmlessAt(r, i - 1); }
      if r.steps[i - 1].ApplyBegin? { assert CalmAt(r, i - 1); }
      AppliedStep(r.states[i - 1], HistoryAt(r, i - 1), r.steps[i - 1]);
    }
  }

  lemma AppliedInit(s: Cluster)
    requires Initial(s)
    ensures AppliedInv(s)
  {
    forall i: nat | i < |s.nodes| ensures AppliedOk(s.nodes[i]) {
      var lease :| s.nodes[i] == Init(i, |s.nodes|, lease);
    }
  }

  /**
   Replicas apply one history: what a server has pushed into its channel is its log from index 1 to
   lastApplied and then what the open run has pushed, each entry once and in order, and of two servers
   at any two moments the one that pushed less pushed a prefix of what the other did.
   */
  lemma ReplicasApplyOneHistory(r: Run, a: nat, b: nat, i: nat, j: nat)
    requires IsRun(r) && Guarded(r) && Calm(r) && Has(r, a, i) && Has(r, b, j)
    requires |At(r, a, i).applied| <= |At(r, b, j).applied|
    ensures 0 <= At(r, a, i).lastApplied <= Done(At(r, a, i)) <= At(r, a, i).commitIndex < |At(r, a, i).log|
    ensures At(r, a, i).applied == At(r, a, i).log[1..Done(At(r, a, i)) + 1]
    ensures At(r, a, i).applied <= At(r, b, j).applied
  {
    hide Inv, GuardedInv, Follows;
    AppliedRun(r, a);
    AppliedRun(r, b);
    var m, n := At(r, a, i), At(r, b, j);
    assert AppliedOk(m) && AppliedOk(n);
    assert m.applying != [] ==> OpenRun(m, m.applying[0]);
    assert n.applying != [] ==> OpenRun(n, n.applying[0]);
    var k := Done(m);
    if a <= b { StateMachineSafety(r, a, b, i, j, k); } else { StateMachineSafety(r, b, a, j, i, k); }
    assert m.log[1..k + 1] == m.log[..k + 1][1..] == n.log[..k + 1][1..] == n.log[1..k + 1];
    assert n.applied[..k] == n.log[1..k + 1];
  }
}
