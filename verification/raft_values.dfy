/** Where the values in the logs come from: every entry is what some client handed to a leader. */
module RaftValues {
  import opened Bytes
  import opened RaftTypes
  import opened RaftNode
  import opened RaftCluster
  import opened RaftSafety

  /** Step j of the run appends exactly this entry for a client, on a leader. */
  ghost predicate AppendedAt(r: Run, j: nat, e: LogEntry) {
    && j < |r.steps| && r.steps[j].ClientAppend? && Has(r, j, r.steps[j].i)
    && var n := At(r, j, r.steps[j].i);
    && n.role == Leader && n.log != []
    && e.value == r.steps[j].value && e.term == n.currentTerm && e.index == Last(n.log).index + 1
  }

  /** The entry is the sentinel, or was appended before moment i. */
  ghost predicate Genuine(r: Run, i: nat, e: LogEntry) {
    e == SENTINEL || exists j: nat :: j < i && AppendedAt(r, j, e)
  }

  ghost predicate AllGenuine(r: Run, i: nat, es: seq<LogEntry>) {
    forall p :: 0 <= p < |es| ==> Genuine(r, i, es[p])
  }

  ghost predicate GenuineNode(r: Run, i: nat, n: Node) {
    AllGenuine(r, i, n.log) && AllGenuine(r, i, n.applied)
  }

  ghost predicate GenuineState(r: Run, i: nat, s: Cluster) {
    && (forall v: nat :: v < |s.nodes| ==> GenuineNode(r, i, s.nodes[v]))
    && (forall k: nat :: k < |s.appends| ==> AllGenuine(r, i, s.appends[k].args.entries))
  }

  lemma GenuineLater(r: Run, i: nat, es: seq<LogEntry>)
    requires AllGenuine(r, i, es)
    ensures AllGenuine(r, i + 1, es)
  {
    forall p | 0 <= p < |es| ensures Genuine(r, i + 1, es[p]) {
      assert Genuine(r, i, es[p]);
    }
  }

  /** A client's append on a leader adds exactly one entry, with the client's value. */
  lemma ClientValueStored(r: Run, b: nat)
    requires IsRun(r) && b < |r.steps| && r.steps[b].ClientAppend?
    ensures Has(r, b, r.steps[b].i) && Has(r, b + 1, r.steps[b].i)
    ensures At(r, b, r.steps[b].i).role == Leader ==>
      exists e :: At(r, b + 1, r.steps[b].i).log == At(r, b, r.steps[b].i).log + [e] && AppendedAt(r, b, e)
    ensures At(r, b, r.steps[b].i).role != Leader ==> At(r, b + 1, r.steps[b].i).log == At(r, b, r.steps[b].i).log
  {
    assert Follows(r.states[b], r.steps[b], r.states[b + 1]);
    var n := At(r, b, r.steps[b].i);
    if n.role == Leader {
      var e := LogEntry(Last(n.log).index + 1, n.currentTerm, r.steps[b].value);
      assert AppendedAt(r, b, e);
    }
  }

  lemma AppendLogFrom(n: Node, a: AppendArgs, unset: int)
    requires Contiguous(n.log)
    ensures
      var m := AppendLog(n, a, unset).0;
      && m.applied == n.applied
      && var c := a.prevLogIndex - n.log[0].index + 1;
      m.log == n.log || (0 <= c <= |n.log| && m.log == n.log[..c] + a.entries)
  {
  }

  lemma JoinGenuine(r: Run, i: nat, a: seq<LogEntry>, c: nat, b: seq<LogEntry>)
    requires AllGenuine(r, i, a) && AllGenuine(r, i, b) && c <= |a|
    ensures AllGenuine(r, i, a[..c] + b)
  {
    var d := a[..c] + b;
    forall p | 0 <= p < |d| ensures Genuine(r, i, d[p]) {
      assert d[p] == if p < c then a[p] else b[p - c];
    }
  }

  lemma AppendGenuine(r: Run, i: nat, n: Node, a: AppendArgs, unset: int)
    requires Contiguous(n.log) && GenuineNode(r, i, n) && AllGenuine(r, i, a.entries)
    ensures GenuineNode(r, i, AppendLog(n, a, unset).0)
  {
    hide AppendLog, Genuine;
    AppendLogFrom(n, a, unset);
    var c := a.prevLogIndex - n.log[0].index + 1;
    if 0 <= c <= |n.log| { JoinGenuine(r, i, n.log, c, a.entries); }
  }

  lemma SameEntries(s: Cluster, step: Step, v: nat)
    requires WellFormed(s) && Enabled(s, step) && v < |s.nodes| && !step.ClientAppend? && !step.HandleAppend? && !step.ApplyPush?
    ensures |Next(s, step).nodes| == |s.nodes|
    ensures Next(s, step).nodes[v].log == s.nodes[v].log && Next(s, step).nodes[v].applied == s.nodes[v].applied
  {
    hide Scan, CommitScan, HeartBeat;
  }

  lemma NodeGenuine(r: Run, i: nat, v: nat)
    requires IsRun(r) && i < |r.steps| && GenuineState(r, i, r.states[i]) && v < |r.states[i].nodes|
    ensures |r.states[i + 1].nodes| == |r.states[i].nodes| && GenuineNode(r, i + 1, r.states[i + 1].nodes[v])
  {
    hide Genuine, AppendLog, WellFormed, Scan, CommitScan;
    var s, step, n := r.states[i], r.steps[i], r.states[i].nodes[v];
    assert Follows(s, step, r.states[i + 1]) && GenuineNode(r, i, n);
    NextAppends(s, step);
    GenuineLater(r, i, n.log);
    GenuineLater(r, i, n.applied);
    match step
    case ClientAppend(a, value) =>
      if a == v { NewGenuine(r, i); }
    case HandleAppend(k, unset) =>
      if s.appends[k].dst == v {
        NodeWellFormed(s, v);
        GenuineLater(r, i, s.appends[k].args.entries);
        AppendGenuine(r, i + 1, n, s.appends[k].args, unset);
      }
    case ApplyPush(a, j) =>
      if a == v { NodeWellFormed(s, v); JoinGenuine(r, i + 1, n.applied, |n.applied|, [n.log[n.applying[j].at]]); }
    case _ => SameEntries(s, step, v);
  }

  lemma NodeWellFormed(s: Cluster, v: nat)
    requires WellFormed(s) && v < |s.nodes|
    ensures WellFormedNode(s.nodes[v], v, |s.nodes|)
  {
  }

  lemma NewGenuine(r: Run, i: nat)
    requires IsRun(r) && i < |r.steps| && r.steps[i].ClientAppend? && Has(r, i, r.steps[i].i)
    requires AllGenuine(r, i + 1, At(r, i, r.steps[i].i).log)
    ensures Has(r, i + 1, r.steps[i].i) && AllGenuine(r, i + 1, At(r, i + 1, r.steps[i].i).log)
    ensures At(r, i + 1, r.steps[i].i).applied == At(r, i, r.steps[i].i).applied
  {
    assert Follows(r.states[i], r.steps[i], r.states[i + 1]);
    ClientValueStored(r, i);
    var log := At(r, i, r.steps[i].i).log;
    if At(r, i, r.steps[i].i).role == Leader {
      var e :| At(r, i + 1, r.steps[i].i).log == log + [e] && AppendedAt(r, i, e);
      assert Genuine(r, i + 1, e);
      JoinGenuine(r, i + 1, log, |log|, [e]);
      assert log[..|log|] == log;
    }
  }

  lemma SentGenuine(r: Run, i: nat, k: nat)
    requires IsRun(r) && i < |r.steps| && GenuineState(r, i, r.states[i]) && k < |r.states[i + 1].appends|
    ensures AllGenuine(r, i + 1, r.states[i + 1].appends[k].args.entries)
  {
    hide Genuine, AppendLog, HandleAppendReply, HandleVoteReply, RequestVote;
    var s, step := r.states[i], r.steps[i];
    assert Follows(s, step, r.states[i + 1]);
    if k < |s.appends| {
      NextAppends(s, step);
      GenuineLater(r, i, s.appends[k].args.entries);
    } else {
      assert GenuineNode(r, i, s.nodes[step.i]);
      GenuineLater(r, i, s.nodes[step.i].log);
    }
  }

  lemma {:induction false} GenuineRun(r: Run, i: nat)
    requires IsRun(r) && i < |r.states|
    ensures GenuineState(r, i, r.states[i])
  {
    hide AllGenuine, Next, WellFormed;
    if i == 0 {
      forall v: nat | v < |r.states[0].nodes| ensures GenuineNode(r, 0, r.states[0].nodes[v]) {
        var lease :| r.states[0].nodes[v] == Init(v, |r.states[0].nodes|, lease);
        OnlySentinel(r);
      }
    } else {
      GenuineRun(r, i - 1);
      forall v: nat | v < |r.states[i].nodes| ensures GenuineNode(r, i, r.states[i].nodes[v]) {
        NodesFixed(r, i - 1);
        NodeGenuine(r, i - 1, v);
      }
      forall k: nat | k < |r.states[i].appends| ensures AllGenuine(r, i, r.states[i].appends[k].args.entries) {
        SentGenuine(r, i - 1, k);
      }
    }
  }

  lemma OnlySentinel(r: Run)
    ensures AllGenuine(r, 0, [SENTINEL]) && AllGenuine(r, 0, [])
  {
  }

  lemma NodesFixed(r: Run, i: nat)
    requires IsRun(r) && i < |r.steps|
    ensures |r.states[i + 1].nodes| == |r.states[i].nodes|
  {
    assert Follows(r.states[i], r.steps[i], r.states[i + 1]);
    NextAppends(r.states[i], r.steps[i]);
  }

  /**
   In every run, each entry of a log or of what was applied is the sentinel or has the value, the term and
   the index of an earlier append by a client on a leader.
   */
  lemma ValuesComeFromClients(r: Run, a: nat, i: nat, e: LogEntry)
    requires IsRun(r) && Has(r, a, i) && (e in At(r, a, i).log || e in At(r, a, i).applied)
    ensures e == SENTINEL || exists j: nat :: j < a && AppendedAt(r, j, e)
  {
    GenuineRun(r, a);
    assert GenuineNode(r, a, At(r, a, i));
    assert Genuine(r, a, e);
  }
}
