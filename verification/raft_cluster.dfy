/**
 A cluster of servers and the messages between them.  Every handler of
 source/raft/raft_server.cpp that runs under `m_mutex` is one atomic step.
 A vote request yields at most one reply and a vote reply is handled at most
 once; both may be delayed, reordered or lost.  Append requests and their
 replies may be delayed, reordered, lost and duplicated.
 */
module RaftCluster {
  import opened Bytes
  import opened RaftTypes
  import opened RaftNode

  datatype VoteRequest = VoteRequest(src: nat, dst: nat, args: VoteArgs)
  datatype VoteAnswer = VoteAnswer(request: VoteRequest, reply: VoteReply)
  datatype AppendRequest = AppendRequest(src: nat, dst: nat, args: AppendArgs)
  datatype AppendAnswer = AppendAnswer(sent: nat, reply: AppendReply)

  /** `appends` holds every append request ever sent, in the order of sending. */
  datatype Cluster = Cluster(
    nodes: seq<Node>,
    voteRequests: set<VoteRequest>, voteAnswers: set<VoteAnswer>,
    appends: seq<AppendRequest>, appendAnswers: set<AppendAnswer>)

  datatype Step =
    | TimerSelfVote(i: nat)
    | LeaseExpires(i: nat)
    | StepDown(i: nat)
    | Campaign(i: nat)
    | HandleVoteRequest(request: VoteRequest)
    | HandleVoteAnswer(answer: VoteAnswer)
    | ClientAppend(i: nat, value: seq<Byte>)
    | SendAppend(i: nat, peer: nat)
    | HandleAppend(k: nat, unset: int)
    | HandleAppendAnswer(ack: AppendAnswer)
    | ApplyBegin(i: nat)
    | ApplyPush(i: nat, j: nat)
    | ApplyEnd(i: nat, j: nat)

  ghost predicate Initial(s: Cluster) {
    && |s.nodes| > 0
    && (forall i :: 0 <= i < |s.nodes| ==> exists lease :: s.nodes[i] == Init(i, |s.nodes|, lease))
    && s.voteRequests == {} && s.voteAnswers == {} && s.appends == [] && s.appendAnswers == {}
  }

  /** What a node needs for its handlers to be defined; kept by every step. */
  predicate WellFormed(s: Cluster) {
    && (forall i :: 0 <= i < |s.nodes| ==> WellFormedNode(s.nodes[i], i, |s.nodes|))
    && (forall r :: r in s.voteRequests ==> r.src < |s.nodes| && r.dst < |s.nodes|)
    && (forall r :: r in s.voteAnswers ==> r.request.src < |s.nodes| && r.request.dst < |s.nodes|)
    && (forall k :: 0 <= k < |s.appends| ==> s.appends[k].src < |s.nodes| && s.appends[k].dst < |s.nodes|)
    && (forall r :: r in s.appendAnswers ==> r.sent < |s.appends|)
  }

  predicate WellFormedNode(n: Node, i: nat, size: nat) {
    && n.id == i && n.size == size
    && Contiguous(n.log) && n.log[0].index <= n.commitIndex && n.log[0].index <= n.lastApplied && ApplyingOk(n)
    && (n.role == Leader ==> |n.nextIndex| == size && |n.matchIndex| == size)
  }

  /** Open runs of `applyLog` stand within the log or behind it. */
  predicate ApplyingOk(n: Node)
    requires n.log != []
  {
    forall j :: 0 <= j < |n.applying| ==> 0 <= n.applying[j].at && n.log[0].index <= n.applying[j].commit
  }

  predicate Enabled(s: Cluster, step: Step) {
    match step
    case TimerSelfVote(i) => i < |s.nodes|
    case LeaseExpires(i) => i < |s.nodes|
    case StepDown(i) => i < |s.nodes|
    case Campaign(i) => i < |s.nodes|
    case HandleVoteRequest(r) => r in s.voteRequests
    case HandleVoteAnswer(r) => r in s.voteAnswers
    case ClientAppend(i, _) => i < |s.nodes|
    case SendAppend(i, peer) => i < |s.nodes| && peer < |s.nodes| && i != peer && s.nodes[i].role == Leader
    case HandleAppend(k, _) => k < |s.appends|
    case HandleAppendAnswer(r) => r in s.appendAnswers
    case ApplyBegin(i) => i < |s.nodes|
    case ApplyPush(i, j) => i < |s.nodes| && j < |s.nodes[i].applying| && MorePushes(s.nodes[i], j)
    case ApplyEnd(i, j) => i < |s.nodes| && j < |s.nodes[i].applying| && !MorePushes(s.nodes[i], j)
  }

  predicate Applies(step: Step) {
    step.ApplyBegin? || step.ApplyPush? || step.ApplyEnd?
  }

  function Ballots(s: Cluster, i: nat, args: VoteArgs): set<VoteRequest> {
    set j: nat | j < |s.nodes| && j != i :: VoteRequest(i, j, args)
  }

  /** True when `boardcastHeartBeat` sends log entries rather than a snapshot. */
  predicate SendsEntries(n: Node, peer: nat) {
    && Contiguous(n.log) && peer < |n.nextIndex|
    && n.log[0].index < n.nextIndex[peer] <= Last(n.log).index + 1
  }

  function Next(s: Cluster, step: Step): Cluster
    requires WellFormed(s) && Enabled(s, step)
  {
    match step
    case TimerSelfVote(i) => s.(nodes := s.nodes[i := SelfVote(s.nodes[i])])
    case LeaseExpires(i) => s.(nodes := s.nodes[i := s.nodes[i].(leaseTime := false)])
    case StepDown(i) => s.(nodes := s.nodes[i := s.nodes[i].(role := Follower)])
    case Campaign(i) =>
      var (n, args) := StartElection(s.nodes[i]);
      s.(nodes := s.nodes[i := n], voteRequests := s.voteRequests + Ballots(s, i, args))
    case HandleVoteRequest(r) =>
      var (n, reply) := RequestVote(s.nodes[r.dst], r.args);
      s.(nodes := s.nodes[r.dst := n], voteRequests := s.voteRequests - {r},
         voteAnswers := s.voteAnswers + {VoteAnswer(r, reply)})
    case HandleVoteAnswer(r) =>
      s.(nodes := s.nodes[r.request.src := HandleVoteReply(s.nodes[r.request.src], r.reply)],
         voteAnswers := s.voteAnswers - {r})
    case ClientAppend(i, value) => s.(nodes := s.nodes[i := Append(s.nodes[i], value)])
    case SendAppend(i, peer) =>
      if SendsEntries(s.nodes[i], peer) then
        s.(appends := s.appends + [AppendRequest(i, peer, HeartBeat(s.nodes[i], peer))])
      else s
    case HandleAppend(k, unset) =>
      var m := s.appends[k];
      var (n, reply) := AppendLog(s.nodes[m.dst], m.args, unset);
      s.(nodes := s.nodes[m.dst := n], appendAnswers := s.appendAnswers + {AppendAnswer(k, reply)})
    case HandleAppendAnswer(r) =>
      var m := s.appends[r.sent];
      s.(nodes := s.nodes[m.src := HandleAppendReply(s.nodes[m.src], m.dst, m.args, r.reply)])
    case ApplyBegin(i) => s.(nodes := s.nodes[i := BeginApply(s.nodes[i])])
    case ApplyPush(i, j) => s.(nodes := s.nodes[i := PushApply(s.nodes[i], j)])
    case ApplyEnd(i, j) => s.(nodes := s.nodes[i := EndApply(s.nodes[i], j)])
  }

  // ----- Runs -----

  datatype Run = Run(states: seq<Cluster>, steps: seq<Step>)

  ghost predicate IsRun(r: Run) {
    && |r.states| == |r.steps| + 1
    && Initial(r.states[0])
    && forall i :: 0 <= i < |r.steps| ==> Follows(r.states[i], r.steps[i], r.states[i + 1])
  }

  predicate Follows(s: Cluster, step: Step, t: Cluster) {
    WellFormed(s) && Enabled(s, step) && t == Next(s, step)
  }

  /** Request k, if it is accepted now, does not cut the receiver's log short within its own term. */
  predicate Harmless(s: Cluster, k: nat, unset: int)
    requires WellFormed(s) && k < |s.appends|
  {
    var m := s.appends[k];
    AppendLog(s.nodes[m.dst], m.args, unset).1.success ==> !CutsShort(s.nodes[m.dst], m.args)
  }

  /** No accepted append of the run cuts a log short; duplicates and reordering are otherwise free. */
  ghost predicate Guarded(r: Run)
    requires IsRun(r)
  {
    forall i :: 0 <= i < |r.steps| && r.steps[i].HandleAppend? ==> HarmlessAt(r, i)
  }

  ghost predicate HarmlessAt(r: Run, i: nat)
    requires IsRun(r) && i < |r.steps| && r.steps[i].HandleAppend?
  {
    assert Follows(r.states[i], r.steps[i], r.states[i + 1]);
    Harmless(r.states[i], r.steps[i].k, r.steps[i].unset)
  }

  /** Appends of one sender to one receiver are handled in the order of sending, each at most once. */
  ghost predicate InOrder(r: Run)
    requires IsRun(r)
  {
    forall i, j :: 0 <= i < j < |r.steps| && r.steps[i].HandleAppend? && r.steps[j].HandleAppend?
      ==> OrderedPair(r, i, j)
  }

  ghost predicate OrderedPair(r: Run, i: nat, j: nat)
    requires IsRun(r) && i < j < |r.steps|
    requires r.steps[i].HandleAppend? && r.steps[j].HandleAppend?
  {
    assert Follows(r.states[i], r.steps[i], r.states[i + 1]) && Follows(r.states[j], r.steps[j], r.states[j + 1]);
    var a, b := r.states[i].appends[r.steps[i].k], r.states[j].appends[r.steps[j].k];
    a.src == b.src && a.dst == b.dst ==> r.steps[i].k < r.steps[j].k
  }
}
