/**
 The handlers of source/raft/raft_server.cpp as methods that update one server in
 place, each proved to compute the function of module `RaftNode` that the cluster
 model is built from.  Locks, timers, logging and RPC plumbing are not modelled.
 */
module RaftServerModule {
  import opened Bytes
  import opened RaftTypes
  import N = RaftNode
  import P = RaftProgress

  class RaftServer {
    const id: int
    const size: nat
    var currentTerm: int
    var votedFor: int
    var log: seq<LogEntry>
    var commitIndex: int
    var lastApplied: int
    var nextIndex: seq<int>
    var matchIndex: seq<int>
    var role: Role
    var voteCount: int
    var leaseTime: bool
    var applying: seq<N.ApplyRun>
    var applied: seq<LogEntry>

    function Value(): N.Node
      reads this
    {
      N.Node(id, size, currentTerm, votedFor, log, commitIndex, lastApplied, nextIndex, matchIndex,
             role, voteCount, leaseTime, applying, applied)
    }

    constructor (id: int, size: nat, lease: bool)
      ensures Value() == N.Init(id, size, lease)
    {
      this.id, this.size := id, size;
      currentTerm, votedFor, voteCount := 0, -1, 0;
      log, applying, applied := [LogEntry(0, 0, [])], [], [];
      commitIndex, lastApplied := 0, 0;
      nextIndex, matchIndex := [], [];
      role, leaseTime := Follower, lease;
    }

    // ----- Elections -----

    method RequestVote(a: VoteArgs) returns (reply: VoteReply)
      requires log != []
      modifies this
      ensures (Value(), reply) == N.RequestVote(old(Value()), a)
    {
      if a.term < currentTerm || leaseTime {
        return VoteReply(currentTerm, false);
      }
      if a.term > currentTerm {
        currentTerm, role, votedFor := a.term, Follower, -1;
      }
      reply := VoteReply(currentTerm, false);
      if (votedFor == -1 || votedFor == a.candidateId) && N.UpToDate(log, a.lastLogIndex, a.lastLogTerm) {
        role, votedFor := Follower, a.candidateId;
        reply := reply.(voteGranted := true);
      }
    }

    /** The same request goes once to every other server. */
    method BroadcastRequestVote() returns (args: VoteArgs)
      requires log != []
      modifies this
      ensures (Value(), args) == N.StartElection(old(Value()))
    {
      role := Candidate;
      currentTerm := currentTerm + 1;
      votedFor := id;
      voteCount := 1;
      args := VoteArgs(currentTerm, id, N.Last(log).index, N.Last(log).term);
    }

    method HandleRequestVote(r: VoteReply)
      requires log != []
      modifies this
      ensures Value() == N.HandleVoteReply(old(Value()), r)
    {
      if r.term < currentTerm {
        return;
      }
      if r.term > currentTerm {
        role, currentTerm, votedFor := Follower, r.term, -1;
        return;
      }
      if role == Candidate && r.voteGranted {
        voteCount := voteCount + 1;
        if voteCount > size / 2 {
          role := Leader;
          var next := N.Last(log).index + 1;
          nextIndex := seq(size, _ => next);
          matchIndex := seq(size, _ => 0);
        }
      }
    }

    // ----- Replication -----

    /** `start(DB_log)`: the new entry, or the default entry when this server is not the leader. */
    method Start(value: seq<Byte>) returns (entry: LogEntry)
      requires log != []
      modifies this
      ensures Value() == N.Append(old(Value()), value)
      ensures old(role) == Leader ==> log == old(log) + [entry] && entry == LogEntry(N.Last(old(log)).index + 1, currentTerm, value)
      ensures old(role) != Leader ==> log == old(log) && entry == LogEntry(-1, -1, [])
    {
      if role != Leader {
        return LogEntry(-1, -1, []);
      }
      entry := LogEntry(N.Last(log).index + 1, currentTerm, value);
      log := log + [entry];
    }

    /** One request per peer whose next index is above the base; the other peers get a snapshot. */
    method BroadcastHeartBeat() returns (sent: seq<(nat, AppendArgs)>, snapshots: seq<nat>)
      requires N.Contiguous(log) && 0 <= id
      requires role == Leader ==> |nextIndex| == size && forall p :: 0 <= p < size ==> nextIndex[p] <= N.Last(log).index + 1
      ensures role != Leader ==> sent == [] && snapshots == []
      ensures role == Leader ==> sent == Requests(size) && snapshots == Behind(size)
    {
      sent, snapshots := [], [];
      var base := log[0].index;
      if role != Leader {
        return;
      }
      var i := 0;
      while i < size
        invariant i <= size && sent == Requests(i) && snapshots == Behind(i)
      {
        if i != id {
          if nextIndex[i] > base {
            var args := BuildAppend(i);
            sent := sent + [(i, args)];
          } else {
            snapshots := snapshots + [i];
          }
        }
        i := i + 1;
      }
    }

    method BuildAppend(i: nat) returns (args: AppendArgs)
      requires N.Contiguous(log) && i < |nextIndex| && log[0].index < nextIndex[i] <= N.Last(log).index + 1
      ensures args == N.HeartBeat(Value(), i)
    {
      var base := log[0].index;
      var prev := nextIndex[i] - 1;
      var entries := [];
      if nextIndex[i] <= N.Last(log).index {
        entries := log[nextIndex[i] - base..];
      }
      args := AppendArgs(currentTerm, id, prev, log[prev - base].term, entries, commitIndex);
    }

    ghost function Requests(upTo: nat): seq<(nat, AppendArgs)>
      reads this
      requires N.Contiguous(log) && upTo <= |nextIndex|
      requires forall p :: 0 <= p < upTo ==> nextIndex[p] <= N.Last(log).index + 1
    {
      if upTo == 0 then []
      else
        var p: nat := upTo - 1;
        Requests(p) + (if p != id && nextIndex[p] > log[0].index then [(p, N.HeartBeat(Value(), p))] else [])
    }

    /** The peers below `upTo` that need an entry already compacted away. */
    ghost function Behind(upTo: nat): seq<nat>
      reads this
      requires log != [] && upTo <= |nextIndex|
    {
      if upTo == 0 then []
      else
        var p: nat := upTo - 1;
        Behind(p) + (if p != id && nextIndex[p] <= log[0].index then [p] else [])
    }

    /** On a log with base 0 the unsigned scan index wraps around when no lower entry has another term. */
    predicate Wraps(a: AppendArgs)
      reads this
      requires N.Contiguous(log)
    {
      var off := a.prevLogIndex - log[0].index;
      log[0].index == 0 && 0 <= off < |log| && a.prevLogTerm != log[off].term && N.Scan(log, off - 1, log[off].term) < 0
    }

    /** The whole log is cut away and nothing put in its place, and then its last entry is read. */
    predicate ReadsEmpty(a: AppendArgs)
      reads this
      requires N.Contiguous(log)
    {
      a.prevLogIndex == log[0].index - 1 && a.entries == [] && commitIndex < a.leaderCommit
    }

    /** `appendlog`; `fault` stands for an access outside the log. */
    method AppendLog(a: AppendArgs, unset: int) returns (fault: bool, reply: AppendReply)
      requires N.Contiguous(log)
      modifies this
      ensures fault <==> a.term >= old(currentTerm) && old(Wraps(a) || ReadsEmpty(a))
      ensures !fault ==> (Value(), reply) == N.AppendLog(old(Value()), a, unset)
    {
      hide N.MatchLog, N.Scan;
      if a.term < currentTerm {
        return false, AppendReply(currentTerm, false, N.Last(log).index + 1);
      }
      leaseTime := true;
      if a.term > currentTerm {
        role, currentTerm, votedFor := Follower, a.term, a.leaderId;
      }
      fault, reply := MatchAppend(a, unset);
    }

    /** The part of `appendlog` that compares and splices the log. */
    method MatchAppend(a: AppendArgs, unset: int) returns (fault: bool, reply: AppendReply)
      requires N.Contiguous(log)
      modifies this`log, this`commitIndex
      ensures fault <==> old(Wraps(a) || ReadsEmpty(a))
      ensures !fault ==> (Value(), reply) == N.MatchLog(old(Value()), a, unset)
    {
      hide N.Accept;
      fault, reply := false, AppendReply(currentTerm, false, unset);
      if a.prevLogIndex > N.Last(log).index {
        return false, reply.(nextTryLog := N.Last(log).index + 1);
      }
      var base := log[0].index;
      if a.prevLogIndex >= base && a.prevLogTerm != log[a.prevLogIndex - base].term {
        var i := ScanBack(a.prevLogIndex - 1, log[a.prevLogIndex - base].term);
        if i >= base {
          return false, reply.(nextTryLog := i + 1);
        }
        fault := base == 0;
      } else if a.prevLogIndex >= base - 1 {
        fault := TakeEntries(a);
        reply := AppendReply(currentTerm, true, a.prevLogIndex + |a.entries|);
      }
    }

    method TakeEntries(a: AppendArgs) returns (fault: bool)
      requires N.Contiguous(log) && log[0].index - 1 <= a.prevLogIndex <= N.Last(log).index
      modifies this`log, this`commitIndex
      ensures fault <==> old(ReadsEmpty(a))
      ensures !fault ==> Value() == N.Accept(old(Value()), a)
    {
      fault := false;
      Splice(a.prevLogIndex - log[0].index + 1, a.entries);
      if commitIndex < a.leaderCommit {
        if log == [] {
          return true;
        }
        commitIndex := if a.leaderCommit <= N.Last(log).index then a.leaderCommit else N.Last(log).index;
      }
    }

    /** The conflict scan: the last index at or below `start` of another term, or the one below the base. */
    method ScanBack(start: int, term: int) returns (i: int)
      requires N.Contiguous(log) && log[0].index - 1 <= start <= N.Last(log).index
      ensures i - log[0].index == N.Scan(log, start - log[0].index, term)
    {
      var base := log[0].index;
      i := start;
      while i >= base && log[i - base].term == term
        invariant base - 1 <= i <= start
        invariant N.Scan(log, start - base, term) == N.Scan(log, i - base, term)
      {
        i := i - 1;
      }
    }

    /** Keep the first `keep` entries and push the new ones. */
    method Splice(keep: nat, entries: seq<LogEntry>)
      requires keep <= |log|
      modifies this`log
      ensures log == old(log)[..keep] + entries
    {
      log := log[..keep];
      var i := 0;
      while i < |entries|
        invariant i <= |entries| && log == old(log)[..keep] + entries[..i]
      {
        log := log + [entries[i]];
        i := i + 1;
      }
    }

    /** `sendAppendLogEntry` after a successful call, with the counting loops. */
    method HandleAppendReply(peer: nat, a: AppendArgs, r: AppendReply)
      requires N.Contiguous(log) && log[0].index <= commitIndex
      requires role == Leader ==> peer < |nextIndex| && peer < |matchIndex|
      modifies this
      ensures Value() == N.HandleAppendReply(old(Value()), peer, a, r)
    {
      if role != Leader || a.term != currentTerm {
        return;
      }
      if r.term > currentTerm {
        currentTerm, role, votedFor := r.term, Follower, -1;
        return;
      }
      if r.success {
        if |a.entries| > 0 {
          nextIndex := nextIndex[peer := a.entries[|a.entries| - 1].index + 1];
          matchIndex := matchIndex[peer := nextIndex[peer] - 1];
        }
      } else {
        nextIndex := nextIndex[peer := if r.nextTryLog <= N.Last(log).index then r.nextTryLog else N.Last(log).index];
      }
      CountReplicas();
    }

    method CountReplicas()
      requires N.Contiguous(log) && log[0].index <= commitIndex
      modifies this`commitIndex
      ensures commitIndex == old(N.CommitScan(Value(), N.Last(log).index))
      ensures commitIndex >= old(commitIndex) && P.CommitsAll(Value())
    {
      P.CountsAll(Value());
      var base := log[0].index;
      var n := N.Last(log).index;
      while n > commitIndex && log[n - base].term == currentTerm
        invariant n <= N.Last(log).index && commitIndex == old(commitIndex)
        invariant N.CommitScan(Value(), n) == old(N.CommitScan(Value(), N.Last(log).index))
      {
        var count := 1;
        var i := 0;
        while i < |matchIndex|
          invariant i <= |matchIndex| && count == N.Replicas(Value(), n, i)
        {
          if i != id && matchIndex[i] >= n {
            count := count + 1;
          }
          i := i + 1;
        }
        if count > size / 2 {
          commitIndex := n;
          return;
        }
        n := n - 1;
      }
    }

    /** The first locked part of `applyLog`; several runs may be open at a time. */
    method BeginApply()
      requires log != []
      modifies this`applying
      ensures Value() == N.BeginApply(old(Value()))
    {
      var baseIndex := log[0].index;
      applying := applying + [N.ApplyRun(lastApplied - baseIndex + 1, commitIndex - baseIndex, commitIndex)];
    }

    /** One turn of the loop of open run j, if there is one. */
    method PushApply(j: nat) returns (more: bool)
      requires j < |applying| && 0 <= applying[j].at
      modifies this`applying, this`applied
      ensures more == old(N.MorePushes(Value(), j))
      ensures Value() == if more then old(N.PushApply(Value(), j)) else old(Value())
    {
      var run := applying[j];
      more := run.at <= run.last && run.at < |log|;
      if more {
        applied := applied + [log[run.at]];
        applying := applying[j := run.(at := run.at + 1)];
      }
    }

    /** The second locked part of `applyLog`. */
    method EndApply(j: nat)
      requires j < |applying|
      modifies this`applying, this`lastApplied
      ensures Value() == N.EndApply(old(Value()), j)
    {
      lastApplied := applying[j].commit;
      applying := applying[..j] + applying[j + 1..];
    }

    /** The compaction block of `persisent`, once the snapshot up to (pindex, term) is stored. */
    method Compact(pindex: int, term: int)
      modifies this`log
      ensures log == N.Compact(old(log), pindex, term)
    {
      var newlog := [LogEntry(pindex, term, [])];
      var flag := false;
      var i := 0;
      while i < |log|
        invariant i <= |log|
        invariant !flag ==> newlog == [LogEntry(pindex, term, [])]
        invariant !flag ==> N.After(log, pindex, term) == N.After(log[i..], pindex, term)
        invariant flag ==> newlog + log[i..] == N.Compact(log, pindex, term)
      {
        if flag {
          assert newlog + log[i..] == newlog + [log[i]] + log[i + 1..];
          newlog := newlog + [log[i]];
        } else if log[i].term == term && log[i].index == pindex {
          flag := true;
          assert log[i..][1..] == log[i + 1..];
        } else {
          assert log[i..][1..] == log[i + 1..];
        }
        i := i + 1;
      }
      assert log[i..] == [];
      log := newlog;
    }
  }
}
