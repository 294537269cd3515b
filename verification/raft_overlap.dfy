/**
 What happens when runs of `applyLog` overlap otherwise than `RaftApply.Calm` allows: an entry can be
 pushed twice, even when all later runs begin with no other open.
 */
module RaftOverlap {
  import opened Bytes
  import opened RaftTypes
  import opened RaftNode
  import opened RaftCluster
  import opened RaftHistory
  import opened RaftLog
  import opened RaftLogSteps
  import opened RaftSafety
  import opened RaftApply
  import opened RaftOrder

  ghost predicate PushedTwice(n: Node) {
    exists p, q :: 0 <= p < q < |n.applied| && n.applied[p] == n.applied[q]
  }

  /** Step k goes on with an open run of server i, or begins one as it should. */
  ghost predicate TameStep(r: Run, k: nat, i: nat) {
    && k < |r.steps| && k < |r.states|
    && match r.steps[k]
       case ApplyPush(a, _) => a == i
       case ApplyEnd(a, _) => a == i
       case ApplyBegin(a) => a == i && i < |r.states[k].nodes| && CalmBegin(r.states[k].nodes[i])
       case _ => false
  }

  /** q goes on from r with such steps only. */
  ghost predicate Continues(r: Run, q: Run, i: nat) {
    && IsRun(q) && r.steps <= q.steps && r.states <= q.states
    && forall k :: |r.steps| <= k < |q.steps| ==> TameStep(q, k, i)
  }

  lemma ContinuesTrans(r: Run, p: Run, q: Run, i: nat)
    requires Continues(r, p, i) && Continues(p, q, i) && |p.states| == |p.steps| + 1
    ensures Continues(r, q, i)
  {
    hide IsRun;
    forall k | |r.steps| <= k < |q.steps| ensures TameStep(q, k, i) {
      if k < |p.steps| { assert TameStep(p, k, i); }
    }
  }

  lemma OneStep(r: Run, step: Step, i: nat) returns (q: Run)
    requires IsRun(r) && Enabled(Tail(r), step) && Applies(step) && step.i == i
    requires step.ApplyBegin? ==> CalmBegin(Tail(r).nodes[i])
    ensures Continues(r, q, i) && WellFormed(Tail(r)) && Tail(q) == Next(Tail(r), step)
  {
    hide Next, WellFormed;
    q := Extend(r, step);
  }

  /** The server when open run j has pushed all it has to. */
  ghost function Pushed(n: Node, j: nat): Node
    requires j < |n.applying| && 0 <= n.applying[j].at <= n.applying[j].last + 1 <= |n.log|
  {
    var run := n.applying[j];
    n.(applied := n.applied + n.log[run.at..run.last + 1], applying := n.applying[j := run.(at := run.last + 1)])
  }

  lemma PushedStep(n: Node, j: nat)
    requires j < |n.applying| && 0 <= n.applying[j].at <= n.applying[j].last + 1 <= |n.log|
    ensures if n.applying[j].at <= n.applying[j].last then Pushed(PushApply(n, j), j) == Pushed(n, j) else Pushed(n, j) == n
  {
    var run := n.applying[j];
    if run.at <= run.last {
      assert n.log[run.at..run.last + 1] == [n.log[run.at]] + n.log[run.at + 1..run.last + 1];
    }
  }

  lemma {:induction false} PushAll(r: Run, i: nat, j: nat) returns (q: Run)
    requires IsRun(r) && i < |Tail(r).nodes| && j < |Tail(r).nodes[i].applying|
    requires 0 <= Tail(r).nodes[i].applying[j].at <= Tail(r).nodes[i].applying[j].last + 1 <= |Tail(r).nodes[i].log|
    ensures Continues(r, q, i) && |Tail(q).nodes| == |Tail(r).nodes| && Tail(q).nodes[i] == Pushed(Tail(r).nodes[i], j)
    decreases Tail(r).nodes[i].applying[j].last - Tail(r).nodes[i].applying[j].at
  {
    hide WellFormed, TameStep, Pushed;
    var n := Tail(r).nodes[i];
    PushedStep(n, j);
    q := r;
    if n.applying[j].at <= n.applying[j].last {
      var p := OneStep(r, ApplyPush(i, j), i);
      q := PushAll(p, i, j);
      ContinuesTrans(r, p, q, i);
    }
  }

  /** Open runs with nothing left to push end one after the other; the last one decides what is recorded. */
  lemma {:induction false} EndAll(r: Run, i: nat, commit: int) returns (q: Run)
    requires IsRun(r) && i < |Tail(r).nodes|
    requires
      var n := Tail(r).nodes[i];
      forall j :: 0 <= j < |n.applying| ==> n.applying[j].at > n.applying[j].last && n.applying[j].commit == commit
    ensures Continues(r, q, i) && |Tail(q).nodes| == |Tail(r).nodes|
    ensures
      var n := Tail(r).nodes[i];
      Tail(q).nodes[i] == n.(applying := [], lastApplied := if n.applying == [] then n.lastApplied else commit)
    decreases |Tail(r).nodes[i].applying|
  {
    hide WellFormed, TameStep;
    var n := Tail(r).nodes[i];
    q := r;
    if n.applying != [] {
      var p := OneStep(r, ApplyEnd(i, 0), i);
      q := EndAll(p, i, commit);
      ContinuesTrans(r, p, q, i);
    }
  }

  /** A second run beside one that pushes: both push the index after lastApplied. */
  lemma BesideBusy(r: Run, i: nat, n: Node) returns (q: Run)
    requires IsRun(r) && i < |Tail(r).nodes| && AppliedOk(n) && Tail(r).nodes[i] == BeginApply(n) && n.log[0].index == 0
    requires n.applying != [] && n.applying[0].last > n.lastApplied
    ensures Continues(r, q, i) && i < |Tail(q).nodes| && PushedTwice(Tail(q).nodes[i])
  {
    hide WellFormed, TameStep;
    assert OpenRun(n, n.applying[0]);
    var p := r;
    if n.applying[0].at == n.lastApplied + 1 { p := OneStep(r, ApplyPush(i, 0), i); }
    q := OneStep(p, ApplyPush(i, 1), i);
    ContinuesTrans(r, p, q, i);
    var a := Tail(q).nodes[i].applied;
    assert a[n.lastApplied] == n.log[n.lastApplied + 1] == a[|a| - 1];
  }

  /** The second run beside idle ones pushes all that is committed and ends; then they set lastApplied back. */
  lemma IdleSetBack(r: Run, i: nat, n: Node) returns (q: Run)
    requires IsRun(r) && i < |Tail(r).nodes| && AppliedOk(n) && Tail(r).nodes[i] == BeginApply(n) && n.log[0].index == 0
    requires n.applying != [] && forall j :: 0 <= j < |n.applying| ==> n.applying[j].last == n.lastApplied
    ensures Continues(r, q, i) && i < |Tail(q).nodes|
    ensures Tail(q).nodes[i] == n.(applying := [], applied := n.applied + n.log[n.lastApplied + 1..n.commitIndex + 1])
  {
    hide WellFormed, TameStep;
    var b, l, c := |n.applying|, n.lastApplied, n.commitIndex;
    forall j | 0 <= j < b ensures n.applying[j].at == l + 1 && n.applying[j].commit == l {
      assert OpenRun(n, n.applying[j]);
    }
    var p1 := PushAll(r, i, b);
    var p2 := OneStep(p1, ApplyEnd(i, b), i);
    assert Tail(p2).nodes[i] == n.(lastApplied := c, applied := n.applied + n.log[l + 1..c + 1]);
    q := EndAll(p2, i, l);
    ContinuesTrans(r, p1, p2, i);
    ContinuesTrans(r, p2, q, i);
  }

  /** A second run beside ones with nothing to push: it pushes and ends, they set lastApplied back, and a third one pushes again. */
  lemma BesideIdle(r: Run, i: nat, n: Node) returns (q: Run)
    requires IsRun(r) && i < |Tail(r).nodes| && AppliedOk(n) && Tail(r).nodes[i] == BeginApply(n) && n.log[0].index == 0
    requires n.applying != [] && n.lastApplied < n.commitIndex
    requires forall j :: 0 <= j < |n.applying| ==> n.applying[j].last == n.lastApplied
    ensures Continues(r, q, i) && i < |Tail(q).nodes| && PushedTwice(Tail(q).nodes[i])
  {
    hide WellFormed, TameStep;
    var p := IdleSetBack(r, i, n);
    var p' := OneStep(p, ApplyBegin(i), i);
    q := OneStep(p', ApplyPush(i, 0), i);
    ContinuesTrans(r, p, p', i);
    ContinuesTrans(r, p', q, i);
    PushedAgain(n.log, n.lastApplied, n.commitIndex, Tail(q).nodes[i]);
  }

  lemma PushedAgain(log: seq<LogEntry>, l: nat, c: nat, n: Node)
    requires l < c < |log| && n.applied == log[1..l + 1] + log[l + 1..c + 1] + [log[l + 1]]
    ensures PushedTwice(n)
  {
    assert n.applied[l] == log[l + 1] == n.applied[c];
  }

  /**
   From every state reached with runs beginning as they should, beginning one otherwise, that is with
   another open and something committed beyond lastApplied, can go on so that an entry is pushed
   twice, with no further run beginning beside another.
   */
  lemma OverlapPushesTwice(r: Run, i: nat) returns (q: Run)
    requires IsRun(r) && Guarded(r) && Calm(r) && i < |Tail(r).nodes| && !CalmBegin(Tail(r).nodes[i])
    ensures IsRun(q) && |r.steps| < |q.steps| && r.steps <= q.steps && r.states <= q.states && q.steps[|r.steps|] == ApplyBegin(i)
    ensures forall k :: |r.steps| < k < |q.steps| ==> TameStep(q, k, i)
    ensures i < |Tail(q).nodes| && PushedTwice(Tail(q).nodes[i])
  {
    hide WellFormed, TameStep, ElectionInv, AppliedOk;
    var n := Tail(r).nodes[i];
    AppliedRun(r, |r.steps|);
    BaseZero(r, i);
    var p := Extend(r, ApplyBegin(i));
    IdleOrBusy(n);
    if n.applying[0].last > n.lastApplied {
      q := BesideBusy(p, i, n);
    } else {
      q := BesideIdle(p, i, n);
    }
  }

  lemma BaseZero(r: Run, i: nat)
    requires IsRun(r) && i < |Tail(r).nodes|
    ensures Tail(r).nodes[i].log != [] && Tail(r).nodes[i].log[0].index == 0
  {
    RunInv(r, |r.steps|);
    assert NodeAt(Tail(r), HistoryAt(r, |r.steps|), i);
    WfContiguous(Tail(r).nodes[i].log);
  }

  lemma IdleOrBusy(n: Node)
    requires AppliedOk(n) && n.applying != []
    ensures n.applying[0].last > n.lastApplied || forall j :: 0 <= j < |n.applying| ==> n.applying[j].last == n.lastApplied
  {
    assert OpenRun(n, n.applying[0]);
  }

  // ----- Both failures at an input -----

  /** A run whose only append is the first one of its leader. */
  ghost predicate OneAppend(r: Run) {
    && |r.steps| >= 7 && |r.states| >= 7 && r.steps[6] == HandleAppend(1, 0)
    && (forall k :: 0 <= k < |r.steps| && k != 6 ==> !r.steps[k].HandleAppend?)
    && |r.states[6].nodes| == 3 && r.states[6].nodes[1] == VOTER
    && |r.states[6].appends| == 2 && r.states[6].appends[1] == AppendRequest(0, 1, CARRY)
  }

  lemma OneAppendIsGuarded(r: Run)
    requires IsRun(r) && OneAppend(r)
    ensures Guarded(r)
  {
    hide AppendLog;
    forall k | 0 <= k < |r.steps| && r.steps[k].HandleAppend? ensures HarmlessAt(r, k) {
      assert k == 6;
      assert !CutsShort(VOTER, CARRY);
    }
  }

  lemma OneAppendContinues(r: Run, q: Run, i: nat)
    requires OneAppend(r) && |r.states| == |r.steps| + 1 && Continues(r, q, i)
    ensures OneAppend(q)
  {
    hide IsRun;
    forall k | 0 <= k < |q.steps| && k != 6 ensures !q.steps[k].HandleAppend? {
      if k < |r.steps| { assert q.steps[k] == r.steps[k]; } else { assert TameStep(q, k, i); }
    }
  }

  lemma OneAppendExtends(r: Run, q: Run, step: Step)
    requires OneAppend(r) && q.steps == r.steps + [step] && r.states <= q.states && !step.HandleAppend?
    ensures OneAppend(q)
  {
  }

  /** Server 0 leads and has sent its first entry to server 1, which took it. */
  lemma EntryTaken() returns (r: Run)
    ensures IsRun(r) && |r.steps| == 7 && OneAppend(r)
    ensures Tail(r).nodes == [WINNER.(log := [SENTINEL, ENTRY]), HOLDER, Init(2, 3, false)]
    ensures Tail(r).appends == [AppendRequest(0, 1, BEAT), AppendRequest(0, 1, CARRY)]
    ensures AppendAnswer(1, AppendReply(1, true, 1)) in Tail(r).appendAnswers
  {
    var a := FirstLeader();
    r := Overtaken(a);
    assert forall k :: 0 <= k < 3 ==> r.steps[k] == a.steps[k];
  }

  lemma TwoBegun() returns (r: Run)
    ensures IsRun(r) && |r.steps| == 10 && OneAppend(r) && r.steps[8] == r.steps[9] == ApplyBegin(0)
    ensures |Tail(r).nodes| == 3 && Tail(r).nodes[0] == BeginApply(BeginApply(LEADER))
  {
    hide IsRun, WellFormed, HandleAppendReply, OneAppend;
    var a := EntryTaken();
    CommitsEntry();
    var b := Extend(a, HandleAppendAnswer(AppendAnswer(1, AppendReply(1, true, 1))));
    OneAppendExtends(a, b, HandleAppendAnswer(AppendAnswer(1, AppendReply(1, true, 1))));
    var c := Extend(b, ApplyBegin(0));
    OneAppendExtends(b, c, ApplyBegin(0));
    r := Extend(c, ApplyBegin(0));
    OneAppendExtends(c, r, ApplyBegin(0));
  }

  /** A commit starts one run, the next one another before the first has pushed: entry 1 is pushed by both. */
  lemma OverlappingRuns() returns (q: Run)
    ensures IsRun(q) && Guarded(q) && |q.steps| >= 10 && q.steps[8] == q.steps[9] == ApplyBegin(0)
    ensures forall k :: 10 <= k < |q.steps| ==> TameStep(q, k, 0)
    ensures 0 < |Tail(q).nodes| && PushedTwice(Tail(q).nodes[0])
  {
    hide WellFormed, TameStep, OneAppend;
    var r := TwoBegun();
    q := BesideBusy(r, 0, BeginApply(LEADER));
    OneAppendContinues(r, q, 0);
    OneAppendIsGuarded(q);
  }

  lemma IdleAndBegun() returns (r: Run)
    ensures IsRun(r) && |r.steps| == 10 && OneAppend(r) && r.steps[7] == r.steps[9] == ApplyBegin(0)
    ensures |Tail(r).nodes| == 3 && Tail(r).nodes[0] == BeginApply(LEADER.(applying := [ApplyRun(1, 0, 0)]))
  {
    hide IsRun, WellFormed, HandleAppendReply, OneAppend;
    var a := EntryTaken();
    var b := Extend(a, ApplyBegin(0));
    OneAppendExtends(a, b, ApplyBegin(0));
    CommitsIdle([ApplyRun(1, 0, 0)]);
    assert Tail(b).nodes[0] == WINNER.(log := [SENTINEL, ENTRY], applying := [ApplyRun(1, 0, 0)]);
    var c := Extend(b, HandleAppendAnswer(AppendAnswer(1, AppendReply(1, true, 1))));
    OneAppendExtends(b, c, HandleAppendAnswer(AppendAnswer(1, AppendReply(1, true, 1))));
    r := Extend(c, ApplyBegin(0));
    OneAppendExtends(c, r, ApplyBegin(0));
  }

  /**
   A run begins before anything is committed and waits.  Entry 1 is committed, and a second run pushes it
   and ends.  The first one ends and sets lastApplied back to 0, and a third one, alone, pushes entry 1 again.
   */
  lemma LoweredIndex() returns (q: Run)
    ensures IsRun(q) && Guarded(q) && |q.steps| >= 10 && q.steps[7] == q.steps[9] == ApplyBegin(0)
    ensures forall k :: 10 <= k < |q.steps| ==> TameStep(q, k, 0)
    ensures 0 < |Tail(q).nodes| && PushedTwice(Tail(q).nodes[0])
  {
    hide WellFormed, TameStep, OneAppend;
    var r := IdleAndBegun();
    q := BesideIdle(r, 0, LEADER.(applying := [ApplyRun(1, 0, 0)]));
    OneAppendContinues(r, q, 0);
    OneAppendIsGuarded(q);
  }

  lemma CommitsIdle(idle: seq<ApplyRun>)
    ensures HandleAppendReply(WINNER.(log := [SENTINEL, ENTRY], applying := idle), 1, CARRY, AppendReply(1, true, 1)) == LEADER.(applying := idle)
  {
    var n := Note(WINNER.(log := [SENTINEL, ENTRY], applying := idle), 1, CARRY, AppendReply(1, true, 1));
    assert n == LEADER.(commitIndex := 0, applying := idle);
    assert Replicas(n, 1, 0) == 1;
    assert Replicas(n, 1, 1) == 1;
    assert Replicas(n, 1, 2) == 2;
    assert Replicas(n, 1, 3) == 2;
    assert CommitScan(n, 1) == 1;
  }
}
