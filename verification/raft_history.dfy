/**
 History variables, computed from a run and never read by a step: who voted for
 whom, who campaigned with which log, who led which term and what its log was,
 and how much of a leader's log each server has acknowledged.
 */
module RaftHistory {
  import opened Bytes
  import opened RaftTypes
  import opened RaftNode
  import opened RaftCluster

  datatype History = History(
    votes: map<(int, nat), nat>,            // (term, voter) -> candidate
    counted: map<(int, nat), set<nat>>,     // (term, candidate) -> voters counted so far
    candLog: map<(int, nat), seq<LogEntry>>, // (term, candidate) -> its log when it campaigned
    leaderOf: map<int, nat>,                // term -> its leader
    termLog: map<int, seq<LogEntry>>,       // term -> longest log of that leader in the term
    acks: map<(int, nat), int>,             // (term, server) -> last index it took over from the leader
    handled: set<nat>)                      // append requests handled so far

  const NO_HISTORY := History(map[], map[], map[], map[], map[], map[], {})

  predicate Counts(n: Node, r: VoteReply) {
    r.term == n.currentTerm && n.role == Candidate && r.voteGranted
  }

  function RecordAnswer(h: History, n: Node, i: nat, voter: nat): History {
    var t := n.currentTerm;
    var seen := (if (t, i) in h.counted then h.counted[(t, i)] else {}) + {voter};
    var h' := h.(counted := h.counted[(t, i) := seen]);
    if n.voteCount + 1 > n.size / 2 then
      h'.(leaderOf := h.leaderOf[t := i], termLog := h.termLog[t := n.log], acks := h.acks[(t, i) := |n.log| - 1])
    else h'
  }

  function RecordAppend(h: History, m: AppendRequest, k: nat, ok: bool): History {
    h.(handled := h.handled + {k},
       acks := if ok then h.acks[(m.args.term, m.dst) := m.args.prevLogIndex + |m.args.entries|] else h.acks)
  }

  function Record(h: History, s: Cluster, step: Step): History
    requires WellFormed(s) && Enabled(s, step)
  {
    match step
    case Campaign(i) =>
      var t := s.nodes[i].currentTerm + 1;
      h.(votes := h.votes[(t, i) := i], counted := h.counted[(t, i) := {i}],
         candLog := h.candLog[(t, i) := s.nodes[i].log])
    case HandleVoteRequest(r) =>
      if RequestVote(s.nodes[r.dst], r.args).1.voteGranted then h.(votes := h.votes[(r.args.term, r.dst) := r.src]) else h
    case HandleVoteAnswer(r) =>
      if Counts(s.nodes[r.request.src], r.reply)
      then RecordAnswer(h, s.nodes[r.request.src], r.request.src, r.request.dst) else h
    case ClientAppend(i, value) =>
      if s.nodes[i].role == Leader then
        var t := s.nodes[i].currentTerm;
        h.(termLog := h.termLog[t := Append(s.nodes[i], value).log], acks := h.acks[(t, i) := |s.nodes[i].log|])
      else h
    case HandleAppend(k, unset) =>
      var m := s.appends[k];
      RecordAppend(h, m, k, AppendLog(s.nodes[m.dst], m.args, unset).1.success)
    case _ => h
  }

  function HistoryAt(r: Run, i: nat): History
    requires |r.states| == |r.steps| + 1 && i < |r.states|
    requires forall k :: 0 <= k < |r.steps| ==> Follows(r.states[k], r.steps[k], r.states[k + 1])
  {
    if i == 0 then NO_HISTORY
    else
      assert Follows(r.states[i - 1], r.steps[i - 1], r.states[i]);
      Record(HistoryAt(r, i - 1), r.states[i - 1], r.steps[i - 1])
  }

  // ----- Quorums -----

  predicate Quorum(size: nat, q: set<nat>) {
    (forall v :: v in q ==> v < size) && 2 * |q| > size
  }

  lemma {:induction false} BoundedSet(size: nat, q: set<nat>)
    requires forall v :: v in q ==> v < size
    ensures |q| <= size
  {
    if size > 0 {
      var rest := q - {size - 1};
      BoundedSet(size - 1, rest);
      assert q <= rest + {size - 1};
      assert |q| <= |rest + {size - 1}|  by { SubsetSize(q, rest + {size - 1}); }
    } else {
      assert q == {};
    }
  }

  lemma {:induction false} SubsetSize(a: set<nat>, b: set<nat>)
    requires a <= b
    ensures |a| <= |b|
  {
    assert b == a + (b - a);
  }

  /** Any two quorums share a server. */
  lemma QuorumsMeet(size: nat, p: set<nat>, q: set<nat>) returns (v: nat)
    requires Quorum(size, p) && Quorum(size, q)
    ensures v in p && v in q
  {
    BoundedSet(size, p + q);
    assert |p + q| + |p * q| == |p| + |q|;
    v :| v in p * q;
  }

  // ----- Election invariants -----

  ghost predicate VoteOk(s: Cluster, h: History, t: int, v: nat)
    requires (t, v) in h.votes
  {
    && v < |s.nodes| && h.votes[(t, v)] < |s.nodes| && t <= s.nodes[v].currentTerm
    && (t == s.nodes[v].currentTerm ==> s.nodes[v].votedFor == h.votes[(t, v)] || s.nodes[v].votedFor == v)
  }

  ghost predicate CandidacyOk(s: Cluster, h: History, t: int, c: nat)
    requires (t, c) in h.candLog
  {
    && c < |s.nodes| && t >= 1 && h.candLog[(t, c)] != []
    && (t, c) in h.votes && h.votes[(t, c)] == c
    && (t, c) in h.counted && c in h.counted[(t, c)]
    && (forall v :: v in h.counted[(t, c)] ==> (t, v) in h.votes && h.votes[(t, v)] == c)
    && (t == s.nodes[c].currentTerm ==> s.nodes[c].voteCount == |h.counted[(t, c)]|)
  }

  ghost predicate RoleOk(s: Cluster, h: History, c: nat)
    requires c < |s.nodes|
  {
    var t := s.nodes[c].currentTerm;
    && (s.nodes[c].role == Candidate ==> (t, c) in h.candLog && (t in h.leaderOf ==> h.leaderOf[t] != c))
    && (s.nodes[c].role == Leader ==> t in h.leaderOf && h.leaderOf[t] == c)
    && t >= 0
  }

  ghost predicate LeaderOk(s: Cluster, h: History, t: int)
    requires t in h.leaderOf
  {
    (t, h.leaderOf[t]) in h.candLog && (t, h.leaderOf[t]) in h.counted && 2 * |h.counted[(t, h.leaderOf[t])]| > |s.nodes|
  }

  ghost predicate RequestOk(s: Cluster, h: History, r: VoteRequest) {
    && r.src < |s.nodes| && r.dst < |s.nodes| && r.src != r.dst && r.args.candidateId == r.src
    && (r.args.term, r.src) in h.candLog && (r.args.term, r.src) in h.counted
    && h.candLog[(r.args.term, r.src)] != []
    && r.args.lastLogIndex == Last(h.candLog[(r.args.term, r.src)]).index
    && r.args.lastLogTerm == Last(h.candLog[(r.args.term, r.src)]).term
  }

  ghost predicate PendingRequestOk(s: Cluster, h: History, r: VoteRequest) {
    RequestOk(s, h, r) && r.dst !in h.counted[(r.args.term, r.src)]
  }

  ghost predicate AnswerOk(s: Cluster, h: History, a: VoteAnswer) {
    && RequestOk(s, h, a.request) && a.request !in s.voteRequests
    && (a.reply.voteGranted ==>
          && a.reply.term == a.request.args.term
          && (a.reply.term, a.request.dst) in h.votes && h.votes[(a.reply.term, a.request.dst)] == a.request.src
          && a.request.dst !in h.counted[(a.reply.term, a.request.src)])
  }

  ghost predicate VotesInv(s: Cluster, h: History) {
    forall t: int, v: nat :: (t, v) in h.votes ==> VoteOk(s, h, t, v)
  }
  ghost predicate CandidatesInv(s: Cluster, h: History) {
    forall t: int, c: nat :: (t, c) in h.candLog ==> CandidacyOk(s, h, t, c)
  }
  ghost predicate RolesInv(s: Cluster, h: History) {
    forall c: nat :: c < |s.nodes| ==> RoleOk(s, h, c)
  }
  ghost predicate LeadersInv(s: Cluster, h: History) {
    forall t: int :: t in h.leaderOf ==> LeaderOk(s, h, t)
  }
  ghost predicate BallotsInv(s: Cluster, h: History) {
    && (forall r :: r in s.voteRequests ==> PendingRequestOk(s, h, r))
    && (forall a :: a in s.voteAnswers ==> AnswerOk(s, h, a))
    && (forall a, b :: a in s.voteAnswers && b in s.voteAnswers && a.request == b.request ==> a == b)
  }

  ghost predicate ElectionInv(s: Cluster, h: History) {
    VotesInv(s, h) && CandidatesInv(s, h) && RolesInv(s, h) && LeadersInv(s, h) && BallotsInv(s, h)
  }
}
