# A verified model of the Star framework

Star is a C++ framework of coroutines, RPC and storage with a key-value server replicated by Raft.
This project models its most intricate logic in Dafny and proves what it promises.

- **Raft** (`raft_*.dfy`). `raft_server.dfy` holds the handlers as methods of a class that updates a
  server in place, each proved equal to a function of `raft_node.dfy`. `raft_cluster.dfy` builds a
  cluster from those functions: every handler that runs under `m_mutex` is one atomic step, messages
  wait in the network, and a run is any interleaving of steps. Vote requests and replies may be
  delayed, reordered or lost, each handled at most once, because votes are counted without the
  identity of the sender. Append requests and replies may also be duplicated. The
  atomic step of `handleRequestVote` assumes that the lock is kept, although it calls `boardcastHeartBeat`
  (source/raft/raft_server.cpp:661-668), whose nested lock of `m_mutex` releases the outer one at its end;
  the steps that follow there touch timers only. "Bump the term, vote
  for oneself, send once to each other server" is one step. The timer's self vote in an unchanged
  term, lease expiry and stepping down may happen at any moment. `raft_history.dfy` computes from a
  run who voted for whom, who led which term with which log and who acknowledged what; the
  invariants of `raft_election.dfy`, `raft_log*.dfy`, `raft_commit.dfy`, `raft_survival.dfy` and
  `raft_agreement.dfy` relate states to that history, and `raft_safety.dfy` states the theorems of
  sections 5.2, 5.3 and 5.4 of "In Search of an Understandable Consensus Algorithm" (Ongaro and
  Ousterhout, extended version) over whole runs. `raft_progress.dfy`, `raft_catchup.dfy` and
  `raft_replication.dfy` state what the servers must get done: grant votes, elect, hint, commit, catch up.
  `raft_values.dfy` says where log entries come from, `raft_apply.dfy` and
  `raft_overlap.dfy` treat the pushes of `applyLog`, and `raft_compaction.dfy` section 7 on one server.
- **Bytes** (`byte_array.dfy`, `codec.dfy`, `messages.dfy`, `serializer.dfy`, `message_reader.dfy`). A linked list of
  blocks with a cursor that behaves as a flat byte sequence, the zigzag and varint codec on flat
  sequences with its inversion laws, the serializer that runs the one on the other, and the recovery
  of a log from a file that may be torn. `message_reader.dfy` reads whole messages through the cursor.
- **Synchronisation** (`co_mutex.dfy`, `channel.dfy`). The coroutine mutex at the grain of its single
  accesses, with the scheduler's tasks, where a fiber that still runs is left waiting until it has
  yielded (source/scheduler.cpp:82-85), and the channel with its condition variables at the grain of critical sections.
- **HTTP** (`http_parser.dfy`, `http_laws.dfy`, `http_accept.dfy`, `http_chunks.dfy`). The byte-at-a-time coroutines as
  resume points with local variables, and exactly what they accept.
- **Data structures** (`skip_list.dfy`, `random.dfy`, `random_cycle.dfy`, `lru_map.dfy`, `ring.dfy`, `kv_store.dfy`).

Main results: election safety and log matching of every run; leader completeness and state machine
safety of every run in which no accepted append cuts a log short, duplicated and reordered appends
included, and one applied history when runs of `applyLog` begin as they should; from every reachable state a
supported candidate can win, and a leader with a majority not ahead of it can commit a client's value; a reply
commits all that can be committed; catch-up terminates; every log entry is some client's, and every store holds the last
value put; compaction commutes with accepting; the chunked
buffer refines a flat one; every message type is read back from its encoding followed by any bytes;
recovery from every prefix of the log file; mutual exclusion, no lost wake-up and waking in order in every schedule; no
stranded waiter and no item lost, doubled or exchanged in any interleaving; parsing does not depend on fragmentation, inverts
rendering and accepts nothing else;
the skip list refines a map; the random generator runs through every seed; larger LRU caches include
smaller ones; adding a point to the ring moves one arc.

Where the code falls short of what one would expect, the model follows the code and says exactly when:

- `appendlog` cuts the log after `prevLogIndex` even when the entries are already there, so an append
  that arrives late removes acknowledged entries. `RaftOrder.OutOfOrderLosesCommit` gives a run that
  loses a committed entry this way. The failing branch is an accepted append of the term in which the
  receiver's log ends that reaches less far than that log, which the receiver can test before it cuts;
  `RaftOrder.TakesBackIff` shows that exactly this branch takes an acknowledgement back, and without it
  leader completeness holds (`RaftSafety.LeaderCompleteness`). Appends handled in the order of sending
  never take the branch (`RaftOrder.InOrderIsGuarded`). `RaftOrder.AcceptedAppendKeepsLogIff` says in
  general when an accepted append keeps the log.
- `applyLog` reads both indices under the lock, pushes without it and takes it again to record what it
  applied, and every advance of the commit index starts another run of it. The cluster therefore has one
  step for its beginning, one for each push and one for its end. Two runs can push the same entry
  (`RaftOverlap.OverlappingRuns`), and a run with nothing to push can set `lastApplied` back, so that a
  later one pushes an entry again although it overlaps nothing (`RaftOverlap.LoweredIndex`). Every entry is
  pushed once and in order when each run begins with no other open, or with nothing committed beyond
  `lastApplied` (`RaftApply.ReplicasApplyOneHistory`); a beginning against this rule can always go wrong
  (`RaftOverlap.OverlapPushesTwice`).
- Before the start `addpart` appends a point to the ring without sorting; lookups stay right until the
  next sort exactly when the new hash lies beyond all others (`RingModule.UnsortedLooksUpIff`).
- Reading zero bytes when the cursor is at capacity reads `m_cur->size` through a null pointer. This is
  undefined behaviour; the model calls it a crash. So a message that ends with an empty string cannot be
  read when it fills whole blocks.
  - A put with an empty value whose record fills whole blocks of 4096 bytes crashes every server that
    applies it, and no other put does (`KvStore.PutReachesStoreIff`); `KvStore.PutCrashes` is such a put.
  - A snapshot request whose last value is empty fails in the same way (`MessageReader.SnapshotAtInverts`).
  - `recover` crashes exactly when the file is cut right behind an entry with an empty value and on a
    block boundary (`Serializer.RecoverTorn`). Entries made by `start` carry a record and are never
    empty, so this takes an entry from elsewhere; `Serializer.EndsEmptyWitness` shows one.
- `appendlog` reads outside the log when a conflict on a log with base 0 has no lower entry of another
  term, or when it empties the log and then asks for its last entry
  (`RaftServerModule.RaftServer.AppendLog`); `RaftSafety.CatchUpStaysDefined` shows that no run with
  base 0 gets there.
- `persisent` gives up the lock between reading a term and rebuilding the log, so the entry it compacts
  to may be gone; then only the base is left (`RaftCompaction.CompactKeepsIff`).
- Votes are only counted when a reply arrives, so a server that is the whole cluster never becomes leader
  (`RaftProgress.LoneServerNeverLeads`).
- A request without any header field is refused (`HttpLaws.NoFieldsRefused`), although the grammar of
  RFC 9112 allows it. The first field may have an empty name, and is then dropped; the first byte of every later name
  may be anything but a carriage return (`HttpLaws.FirstOk`, `HttpLaws.LaterOk`). Chunk sizes may have no digits, and
  wrap around at 64 bits (`HttpChunks.Size`). `HttpAccept.AcceptedIff` and `HttpChunks.ChunksAcceptedIff` are exact about all this.
- `M-SEARCH` is in the table of methods, but the method is read as letters only, so it is always refused
  (`HttpAccept.SearchRefused`).
- Every `insert` and every `remove` of the skip list, whatever the list and the key, writes slot
  `MAX_LEVEL` of an array with `MAX_LEVEL` slots (star/ds/skip_list.h:123, 171). This is out of bounds
  unconditionally; the model gives the array one more slot, and its results hold for that array.

## Model

| member | source | states |
|---|---|---|
| `RaftSafety.LeaderCompleteness` | source/raft/raft_server.cpp:295-310 | In every run in which no accepted append cuts a log short within its own term, with appends otherwise delayed, duplicated and reordered at will, whatever any server has committed at any moment is a prefix of the log of every server that is, at any moment, leader of a later term |
| `RaftSafety.StateMachineSafety` | source/raft/raft_server.cpp:485-500 | In every such run the logs of any two servers at any two moments agree up to the smaller of their commit indices, and commit indices stay within the log |
| `RaftSafety.ElectionSafety` | source/raft/raft_server.cpp:515-541 | In every run, with votes delayed, lost or reordered and timers voting for themselves in an unchanged term, two leaders of one term at any two moments are the same server |
| `RaftSafety.LogMatching` | source/raft/raft_server.cpp:476-491 | In every run two logs, even of different moments, that hold the same term at an index are equal up to that index |
| `RaftSafety.AcceptedAppendCopiesLeader` | source/raft/raft_server.cpp:322-342 | An append that is accepted, however late or often it arrives, leaves the follower with exactly the leader's whole log at the moment of sending |
| `RaftSafety.CatchUpStaysDefined` | source/raft/raft_server.cpp:470-483 | In every run a leader's next index for a peer is between 1 and one past its log, so entries rather than a snapshot are sent; the conflict scan of every receiver stops before it leaves the log, and no request reaches below the base |
| `RaftSafety.RunsNeverStick` | source/raft/raft_server.cpp:442-541 | Every enabled step of a reachable cluster finds its handler defined and extends the run |
| `RaftApply.ReplicasApplyOneHistory` | source/raft/raft_server.cpp:673-695 | In every such run in which each run of applyLog begins with no other open or with nothing committed beyond lastApplied, what a server pushed into its channel is its log from index 1 to lastApplied and then what the open run pushed, once each and in order, and of two servers at any two moments one pushed a prefix of what the other did |
| `RaftApply.AppliedStep` | source/raft/raft_server.cpp:673-695 | Every step of such a run keeps the invariant about what was pushed and about the open runs |
| `RaftApply.KeptStep` | source/raft/raft_server.cpp:442-505 | Every other step leaves what was applied alone, never lowers the commit index and keeps the committed part of the log |
| `RaftOverlap.OverlapPushesTwice` | source/raft/raft_server.cpp:673-695 | From every state reached so, beginning a run with another open and something committed beyond lastApplied has a continuation that pushes an entry twice, with no further run beginning beside another |
| `RaftOverlap.OverlappingRuns` | source/raft/raft_server.cpp:303-308 | A concrete run in which two runs of applyLog both push entry 1 |
| `RaftOverlap.LoweredIndex` | source/raft/raft_server.cpp:690-693 | A concrete run in which a run of applyLog with nothing to push sets lastApplied back, and a later one that overlaps nothing pushes entry 1 again |
| `RaftSafety.RunInv` | source/raft/raft_server.cpp:394-541 | The election and log invariants hold in every state of every run |
| `RaftSafety.GuardedRunInv` | source/raft/raft_server.cpp:295-310 | The survival and commit invariants hold in every state of every such run |
| `RaftOrder.OutOfOrderLosesCommit` | source/raft/raft_server.cpp:485-488 | A concrete run in which a late append truncates a follower, and a later leader lacks a committed entry |
| `RaftOrder.AcceptedAppendKeepsLogIff` | source/raft/raft_server.cpp:484-491 | In every run an accepted append keeps the receiver's log if and only if it reaches at least as far as the log and gives the log's last index the term it has there |
| `RaftOrder.TakesBackIff` | source/raft/raft_server.cpp:484-491 | In every run an accepted append takes back an acknowledgement of its term if and only if the log ends in that term and reaches further than the append |
| `RaftOrder.InOrderIsGuarded` | source/raft/raft_server.cpp:484-491 | In every run that handles the appends of one sender to one receiver in the order of sending, no accepted append cuts a log short |
| `RaftOrder.InOrderIsSafe` | source/raft/raft_server.cpp:295-310 | Leader completeness and state machine safety for such runs, and one applied history when applyLog begins as it should |
| `RaftOrder.TipsAcked` | source/raft/raft_server.cpp:484-491 | In every run a server whose log ends in its own term has acknowledged that log |
| `RaftHistory.QuorumsMeet` | source/raft/raft_server.cpp:661-664 | Two sets of more than half of the servers have a member in common |
| `RaftElection.OneVote` | source/raft/raft_server.cpp:533-536 | A vote granted in a term in which the server already voted goes to the same candidate |
| `RaftElection.OneWinner` | source/raft/raft_server.cpp:661-668 | A candidate with a majority in a term that has a leader is that leader |
| `RaftElection.ElectionStep` | source/raft/raft_server.cpp:394-437 | Every step keeps the invariants about votes, candidacies, roles, leaders and ballots in flight |
| `RaftLog.LogsAgree` | source/raft/raft_server.cpp:476-491 | Two logs consistent with the leaders' logs agree up to any index where their terms agree |
| `RaftLog.AcceptCopiesLeader` | source/raft/raft_server.cpp:484-491 | Cutting at a matching index and adding a leader's entries gives that leader's log up to the last entry sent |
| `RaftLogSteps.RejectHint` | source/raft/raft_server.cpp:470-483 | A rejected append of a reachable cluster hints at an index that is at least 1 and at most the one tried |
| `RaftLogSteps.InvStep` | source/raft/raft_server.cpp:442-541 | Every step keeps the safety invariant, and the leaders' logs only grow |
| `RaftLogSteps.InvInit` | source/raft/raft_server.cpp:88-114 | The initial cluster satisfies the safety invariant |
| `RaftLogSteps.CommitAtLeast` | source/raft/raft_server.cpp:297-310 | The counting loop never lowers the commit index and never passes the log |
| `RaftCommit.CommittedNotDead` | source/raft/raft_server.cpp:297-310 | An entry acknowledged by a majority cannot have been passed over by a majority |
| `RaftSurvival.UpToDateKeeps` | source/raft/raft_server.cpp:72-76 | The up-to-date comparison passes a surviving entry from the voter's log to the candidate's |
| `RaftSurvival.GrantKeeps` | source/raft/raft_server.cpp:533-536 | A candidate a voter may grant holds every earlier entry that voter acknowledged, unless the entry is dead |
| `RaftSurvival.WinnerKeeps` | source/raft/raft_server.cpp:661-668 | A candidate with a majority of votes holds every earlier entry that is not dead |
| `RaftSurvival.SurvivalStep` | source/raft/raft_server.cpp:394-541 | Every step keeps the survival invariant |
| `RaftAgreement.ScanFinds` | source/raft/raft_server.cpp:297-310 | The index found by the counting loop has the current term and is held by more than half of the servers |
| `RaftAgreement.CountedIsCommitted` | source/raft/raft_server.cpp:297-310 | An index counted as replicated is acknowledged by a majority in the history |
| `RaftAgreement.CommittedPrefixesAgree` | source/raft/raft_server.cpp:295-310 | Two committed prefixes agree up to the shorter one |
| `RaftAgreement.LaterLeaderHas` | source/raft/raft_server.cpp:295-310 | The log of every leader of a later term extends a committed prefix |
| `RaftOrder.InOrderReaches` | source/raft/raft_server.cpp:484-491 | A request handled in order reaches as far as any earlier acknowledgement to the same leader |
| `RaftAgreement.HarmlessReaches` | source/raft/raft_server.cpp:484-491 | An accepted append that does not cut the log short reaches as far as whatever the receiver acknowledged in its term |
| `RaftAgreement.AcceptKeepsCommit` | source/raft/raft_server.cpp:484-500 | Accepting an append that takes nothing back keeps the receiver's committed prefix |
| `RaftAgreement.AgreementStep` | source/raft/raft_server.cpp:295-310 | Every step but an accepted append that cuts a log short keeps the commit invariant |
| `RaftCatchUp.ExchangeStep` | source/raft/raft_server.cpp:286-293 | A request, its handling and its reply copy the leader's log and commit index or strictly lower the next index, without ever needing a snapshot; the peer may still believe it leads an earlier term |
| `RaftCatchUp.CaughtUp` | source/raft/raft_server.cpp:286-293 | As many rounds of a run as the next index leave the peer with the leader's log, committed as far as the leader's was |
| `RaftCatchUp.CatchUpTerminates` | source/raft/raft_server.cpp:322-342 | From every reachable state with a leader and a peer whose term is not ahead, a deposed leader included, every run that goes on with at least as many rounds as the next index, any steps of other servers in between, ends with the peer holding the leader's log, committed as far as the leader's was, whatever each uninitialised hint holds |
| `RaftCatchUp.RoundExchanges` | source/raft/raft_server.cpp:271-293 | Sending, handling and answering, with steps that concern neither server in between, change the leader and the peer exactly by one exchange |
| `RaftCatchUp.RoundPossible` | source/raft/raft_server.cpp:315-345 | Such a round can be added to every run |
| `RaftReplication.ClientValueCommits` | source/raft/raft_server.cpp:941-957 | From every reachable state in which a server leads and a majority, itself included, is not in a later term, some continuation begins with the client's call and ends with the entry in the logs of all those servers and below their commit indices, the leader unchanged |
| `RaftReplication.Serve` | source/raft/raft_server.cpp:271-310 | Rounds with one peer can be added until it holds the leader's log and commit index and, if there was anything to send, the leader knows; no other server and no other index of the leader changes |
| `RaftReplication.ServeAll` | source/raft/raft_server.cpp:315-345 | The same for any list of peers, after which nothing that could be committed is left uncommitted |
| `RaftReplication.LastCommitted` | source/raft/raft_server.cpp:297-310 | A leader known to share the last entry of its own term with a majority has committed it |
| `RaftProgress.LeaderCommitsAll` | source/raft/raft_server.cpp:271-310 | In every run, a leader that handles a reply of its term ends with no index beyond its commit index that more than half of the servers hold, all entries from there on being of its term |
| `RaftProgress.CommitScanIsGreatest` | source/raft/raft_server.cpp:297-310 | The counting loop finds the greatest index held by more than half of the servers among those from which on all entries have the current term, and keeps the commit index if there is none beyond it |
| `RaftProgress.ReplyRecorded` | source/raft/raft_server.cpp:286-310 | A success records the last index sent, a refusal lowers the next index to the hint or the last index, nothing is recorded for other peers, and all is committed that can be |
| `RaftProgress.HintIs` | source/raft/raft_server.cpp:455-492 | A refusal hints one past the log when the log is too short or the term old, and otherwise where the stretch of the conflicting term begins, if that is above the base; a success tells how far the request reached |
| `RaftProgress.UpToDateTotal` | source/raft/raft_server.cpp:72-76 | Of two logs one is always up to date for the other, and a later last term is up to date whatever the index |
| `RaftProgress.GrantedIff` | source/raft/raft_server.cpp:515-541 | A vote is granted if and only if the term is not old, no lease is held, no other vote was cast in the term and the candidate's last term and index are at least the voter's in lexicographic order; the reply tells the voter's term, the log is kept |
| `RaftProgress.LaterTermWins` | source/raft/raft_server.cpp:454-467 | A message of a later term makes a server a follower in that term, except a vote request under a lease; an append of the term or a later one renews the lease, and its reply tells the receiver's term |
| `RaftProgress.CountVote` | source/raft/raft_server.cpp:646-671 | A granted vote adds one, makes the candidate leader exactly when it has more than half, and then starts every next index behind its log and every match index at 0 |
| `RaftProgress.SelfVoteHolds` | source/raft/raft_server.cpp:515-541 | After the timer's self vote no other candidate gets the vote in that term, and later terms are unaffected |
| `RaftProgress.ElectionPossible` | source/raft/raft_server.cpp:394-437 | From every reachable state, a server that enough others to make a majority are willing to vote for can become leader of the next term with its log |
| `RaftProgress.LoneServerNeverLeads` | source/raft/raft_server.cpp:646-671 | In every run of a single server it never becomes leader |
| `RaftValues.ValuesComeFromClients` | source/raft/raft_server.cpp:941-957 | In every run every entry in a log or pushed for applying is the sentinel or has index, term and value of an earlier call of a client on a leader |
| `RaftValues.ClientValueStored` | source/raft/raft_server.cpp:941-957 | A client's call on a leader adds exactly one entry, with the client's value and the leader's term; elsewhere nothing changes |
| `RaftCompaction.CompactKeeps` | source/raft/raft_server.cpp:812-835 | The rebuilt log has the terms from its base on, the entries after it and the last index and term of the old log |
| `RaftCompaction.CompactKeepsIff` | source/raft/raft_server.cpp:816-835 | Whatever happened to the log meanwhile, compaction keeps its last index if and only if the entry is still held or its index is the last one; otherwise only the base is left |
| `RaftCompaction.VotesUnaffected` | source/raft/raft_server.cpp:515-541 | A compacted server answers every vote request as before |
| `RaftCompaction.AppendsUnaffected` | source/raft/raft_server.cpp:475-500 | At or above the base a compacted server accepts exactly the same appends, and its log is the compacted result of the uncompacted one |
| `RaftCompaction.RequestsUnaffected` | source/raft/raft_server.cpp:322-342 | A compacted leader sends a peer above the base the same request |
| `RaftCompaction.SpliceCommutes` | source/raft/raft_server.cpp:485-488 | Compacting commutes with cutting and appending |
| `RaftNode.Scan` | source/raft/raft_server.cpp:476-483 | The conflict scan returns the nearest lower offset of another term: everything in between has the given term |
| `RaftServerModule.RaftServer.constructor` | source/raft/raft_server.cpp:88-114 | A fresh server: term 0, no vote, the sentinel entry |
| `RaftServerModule.RaftServer.RequestVote` | source/raft/raft_server.cpp:515-541 | Computes the vote function of the cluster model on the whole state, about which RaftProgress.GrantedIff says when it grants |
| `RaftServerModule.RaftServer.BroadcastRequestVote` | source/raft/raft_server.cpp:394-408 | Computes the candidacy function and the request sent to all |
| `RaftServerModule.RaftServer.HandleRequestVote` | source/raft/raft_server.cpp:646-671 | Computes the vote counting function |
| `RaftServerModule.RaftServer.Start` | source/raft/raft_server.cpp:941-957 | On the leader the log gains exactly one entry, with the next index, the current term and the client's value; elsewhere the default entry is returned and nothing changes |
| `RaftServerModule.RaftServer.BroadcastHeartBeat` | source/raft/raft_server.cpp:315-345 | One request per peer above the base, in order, and a snapshot for each other peer |
| `RaftServerModule.RaftServer.BuildAppend` | source/raft/raft_server.cpp:326-337 | The request carries the log from the peer's next index on |
| `RaftServerModule.RaftServer.AppendLog` | source/raft/raft_server.cpp:442-505 | Computes the append function of the cluster model on the whole state and the reply, or reads outside the log under exactly two conditions |
| `RaftServerModule.RaftServer.MatchAppend` | source/raft/raft_server.cpp:469-501 | Computes the comparison and splicing function, or reads outside the log under the same two conditions |
| `RaftServerModule.RaftServer.TakeEntries` | source/raft/raft_server.cpp:484-499 | Computes the accepting function, or reads the last entry of an emptied log |
| `RaftServerModule.RaftServer.ScanBack` | source/raft/raft_server.cpp:476-483 | The loop computes the conflict scan |
| `RaftServerModule.RaftServer.Splice` | source/raft/raft_server.cpp:485-488 | The log becomes its kept prefix followed by the new entries |
| `RaftServerModule.RaftServer.HandleAppendReply` | source/raft/raft_server.cpp:271-310 | Computes the reply function of the cluster model |
| `RaftServerModule.RaftServer.CountReplicas` | source/raft/raft_server.cpp:295-310 | The nested loops compute the commit scan, never lower the commit index, and leave nothing uncommitted that could be committed |
| `RaftServerModule.RaftServer.BeginApply` | source/raft/raft_server.cpp:674-680 | The first locked part opens a run with both indices as they are now |
| `RaftServerModule.RaftServer.PushApply` | source/raft/raft_server.cpp:684-689 | One turn of the loop pushes the entry at the run's offset, or finds none left |
| `RaftServerModule.RaftServer.EndApply` | source/raft/raft_server.cpp:690-693 | The second locked part records the commit index the run began with and closes it |
| `RaftServerModule.RaftServer.Compact` | source/raft/raft_server.cpp:819-834 | The loop computes the compacted log |
| `KvStore.ApplyLoop` | source/db/kv_server.cpp:94-132 | The loop decodes each popped entry through a fresh buffer and leaves every key with the value of the last entry that puts it, or as it was if none does; it crashes at the first entry whose decoding does |
| `KvStore.StoreHolds` | source/db/kv_server.cpp:94-132 | For every store and list of entries without a crash, a key that some entry puts has the value of the last such entry, and every other key is as it was |
| `KvStore.CrashIff` | source/db/kv_server.cpp:113-114 | The loop crashes if and only if some entry does on its own |
| `KvStore.ClientPutReachesStore` | source/db/kv_server.cpp:94-132 | In every run as in ReplicasAgree, once a server has applied the entry that a leader made of a client's record, and until it applies another put of that key, its store has the record's value under the record's key |
| `KvStore.PutIsApplied` | source/raft/raft_server.cpp:941-957 | The entry applied at the index and in the term that a client's call got carries the client's record |
| `KvStore.PutReachesStoreIff` | source/db/kv_server.cpp:113-128 | A record serialized into an entry is the key and value put when that entry is applied if and only if it is not an empty value in whole blocks; the server crashes exactly then |
| `KvStore.PutCrashes` | source/db/kv_server.cpp:113-114 | A put with a small id, a key of 4092 bytes and an empty value crashes the server |
| `KvStore.CrashStays` | source/db/kv_server.cpp:94-132 | A crash ends the loop |
| `KvStore.ReplicasAgree` | source/db/kv_server.cpp:94-132 | In every run in which no accepted append cuts a log short and applyLog begins as it should, replicas that applied equally many entries have equal stores, or have both crashed |
| `ByteArrayModule.ByteArray.constructor` | source/byte_array.cpp:32-40 | An empty buffer of one block |
| `ByteArrayModule.ByteArray.CursorBlock` | source/byte_array.cpp:334-335 | The cursor block is null exactly at capacity, and otherwise the position modulo the block size is the offset in it |
| `ByteArrayModule.ByteArray.Write` | source/byte_array.cpp:328-361 | The flat buffer is overwritten at the position and grows when it must; less than one block is allocated in excess |
| `ByteArrayModule.ByteArray.Read` | source/byte_array.cpp:363-390 | Exactly the next n bytes are taken off the unread bytes; out of range exactly when there are fewer; null block exactly for zero bytes at capacity; the data never change |
| `ByteArrayModule.ByteArray.SetPosition` | source/byte_array.cpp:422-438 | Moves the cursor anywhere up to capacity, extends the size when needed, refuses exactly beyond capacity, and keeps the data |
| `ByteArrayModule.ByteArray.Clear` | source/byte_array.cpp:315-326 | Back to an empty buffer of one block |
| `ByteArrayModule.ByteArray.AddCapacity` | source/byte_array.cpp:482-511 | Room for n more bytes, with the old bytes a prefix of the new and the cursor block set when there was none |
| `ByteArrayModule.ByteArray.Seek` | source/byte_array.cpp:430-437 | The walk from the root ends at the block of the position |
| `ByteArrayModule.FlatPut` | source/byte_array.cpp:340-340 | Overwriting inside one block overwrites the flat bytes at the matching address and nothing else |
| `ByteArrayModule.FlatGet` | source/byte_array.cpp:373-373 | A slice of a block is the slice of the flat bytes at the matching address |
| `Codec.ZigzagInverts` | source/byte_array.cpp:96-118 | Decoding undoes encoding for every 32 and 64 bit value, the smallest included, and small magnitudes get small codes |
| `Codec.UnzigzagInverts` | source/byte_array.cpp:96-118 | Encoding undoes decoding for every unsigned value, so zigzag is a bijection |
| `Codec.VarintInverts` | source/byte_array.cpp:125-149 | A value below 128^n takes at most n bytes and is read back from them followed by any bytes, which are left |
| `Codec.VarintTorn` | source/byte_array.cpp:237-267 | No proper prefix of a varint can be read |
| `Codec.VarintFormat` | source/byte_array.cpp:125-149 | Byte k of a varint holds bits 7k to 7k+6 of the value and has its high bit set exactly when another byte follows; no shorter form exists |
| `Codec.Uint32Inverts` | source/byte_array.cpp:237-249 | Every 32 bit value takes at most 5 bytes and is read back |
| `Codec.Uint64Inverts` | source/byte_array.cpp:255-267 | Every 64 bit value takes at most 10 bytes and is read back |
| `Codec.Int32Inverts` | source/byte_array.cpp:121-123 | Every signed 32 bit value is read back, with exactly the following bytes left |
| `Codec.Int64Inverts` | source/byte_array.cpp:136-138 | The same for 64 bits |
| `Codec.StringInverts` | source/byte_array.cpp:178-181 | Every string is read back, with exactly the following bytes left |
| `Codec.StringTorn` | source/byte_array.cpp:307-313 | No proper prefix of an encoded string can be read |
| `Codec.EntryInverts` | star/rpc/serializer.h:435-456 | Every log entry is read back, with exactly the following bytes left |
| `Codec.EntryTorn` | star/rpc/serializer.h:435-446 | No proper prefix of an encoded entry can be read |
| `Codec.EntriesInvert` | star/rpc/serializer.h:229-248 | Every vector of entries is read back |
| `Codec.MapInverts` | star/rpc/serializer.h:351-370 | Every string map is read back from any listing of its pairs |
| `Messages.ArgsInvert` | star/rpc/serializer.h:458-492 | Every append request, entries included, is read back |
| `Messages.AppendReplyInverts` | star/rpc/serializer.h:494-528 | Every append reply is read back |
| `Messages.VoteArgsInvert` | star/rpc/serializer.h:530-544 | Every vote request is read back |
| `Messages.VoteReplyInverts` | star/rpc/serializer.h:546-560 | Every vote reply is read back |
| `Messages.SnapshotInverts` | star/rpc/serializer.h:562-578 | On flat bytes every snapshot request, map included, is read back |
| `Messages.RecordInverts` | star/rpc/serializer.h:602-614 | On flat bytes every client record is read back |
| `Messages.EntryLayout` | star/rpc/serializer.h:448-456 | The bytes of an entry with small numbers: index, term, length and value in this order |
| `Messages.ArgsLayout` | star/rpc/serializer.h:476-492 | The same for an append request: term, leader, previous index and term, the entries, and the commit index last |
| `Messages.RepliesLayout` | star/rpc/serializer.h:512-560 | The same for append replies and vote replies |
| `Messages.VoteLayout` | star/rpc/serializer.h:538-544 | The same for vote requests |
| `Messages.SnapshotLayout` | star/rpc/serializer.h:571-578 | The same for snapshot requests |
| `Messages.RecordLayout` | star/rpc/serializer.h:609-614 | The same for client records |
| `MessageReader.ReadRecord` | star/rpc/serializer.h:602-607 | Through the cursor a record is read as on flat bytes, or through a null block exactly when one of its strings is empty and ends at capacity |
| `MessageReader.ReadMap` | star/rpc/serializer.h:351-361 | The same for the loop that reads a string map |
| `MessageReader.ReadSnapshot` | star/rpc/serializer.h:562-569 | The same for a snapshot request |
| `MessageReader.DecodeRecord` | source/db/kv_server.cpp:113-114 | The same for a record read from the bytes of an entry, where capacity means whole blocks |
| `MessageReader.RecordAtInverts` | star/rpc/serializer.h:602-614 | A written record followed by any bytes is read back unless its value is empty and the record ends at capacity |
| `MessageReader.SnapshotAtInverts` | star/rpc/serializer.h:562-578 | A written snapshot request followed by any bytes is read back unless the value listed last is empty and the request ends at capacity |
| `Recovery.ReplayWhole` | source/raft/raft_server.cpp:891-902 | Recovery of whole entries followed by any bytes gives those entries and then what the rest gives |
| `Recovery.TornFile` | source/raft/raft_server.cpp:891-902 | From every byte prefix of the written entries, recovery rebuilds exactly those that lie wholly within it |
| `Recovery.WholeFile` | source/raft/raft_server.cpp:1060-1068 | A file written completely is recovered completely |
| `Serializer.RecoverTorn` | source/raft/raft_server.cpp:888-902 | From the first k bytes of the entries written, for every k, the loop rebuilds exactly the entries wholly within them with the last index as commit index, and crashes if and only if the cut is right behind an entry with an empty value and on a block boundary |
| `Serializer.EndsEmptyIff` | source/raft/raft_server.cpp:891-902 | A prefix of the file ends, for the decoder, with an empty entry if and only if it was cut right behind one |
| `Serializer.EndsEmptyWitness` | source/raft/raft_server.cpp:891-902 | Three zero bytes are such a file |
| `Serializer.RecoverFile` | source/raft/raft_server.cpp:888-902 | For any bytes, the loop returns their replay and the last index as commit index, and crashes if and only if the readable entries end them with an empty value and they fill whole blocks |
| `Serializer.Load` | star/rpc/serializer.h:55-59 | A serializer made from bytes holds them unread; they reach capacity exactly when they fill whole blocks |
| `Serializer.Recover` | source/raft/raft_server.cpp:891-902 | The same through the cursor of any buffer |
| `Serializer.Groups` | source/byte_array.cpp:125-134 | The fixed buffer of 5 or 10 bytes never overflows and gets the varint |
| `Serializer.WriteUint` | source/byte_array.cpp:140-149 | The varint is written at the cursor of the chunked buffer |
| `Serializer.WriteInt32` | source/byte_array.cpp:121-123 | The zigzag varint is written at the cursor |
| `Serializer.WriteString` | source/byte_array.cpp:178-181 | Length and bytes are written at the cursor |
| `Serializer.WriteEntry` | star/rpc/serializer.h:448-456 | The encoding of the entry is written at the cursor |
| `Serializer.WriteEntries` | star/rpc/serializer.h:242-248 | The loop writes the encoding of the vector at the cursor |
| `Serializer.ReadUint` | source/byte_array.cpp:237-267 | The shifting loop returns what the flat decoder finds, modulo the width, or refuses when it finds nothing |
| `Serializer.ReadInt32` | source/byte_array.cpp:233-235 | Reads what the flat decoder finds |
| `Serializer.ReadString` | source/byte_array.cpp:307-313 | Reads what the flat decoder finds, or a null block exactly for an empty string that ends at capacity |
| `Serializer.ReadEntry` | star/rpc/serializer.h:435-446 | The same for a log entry |
| `Serializer.EntryAtIs` | star/rpc/serializer.h:435-446 | An entry that can be decoded is read unless its value is empty and ends both the bytes and the capacity |
| `CoMutexModule.MutualExclusion` | source/sync/mutex.cpp:12-58 | In every schedule at most one fiber is between lock and unlock, the owner field names it, and whoever it names holds the spin lock |
| `CoMutexModule.NoLostWakeUp` | source/sync/mutex.cpp:17-35 | In every schedule a fiber that waits, also one that has released the guard and not yielded yet, is queued, being woken or in the scheduler's tasks, and the mutex is held or some fiber contends for it or is scheduled to |
| `CoMutexModule.NeverStuck` | source/sync/mutex.cpp:40-58 | In every schedule, while a fiber is inside lock or unlock, some fiber that is not outside can move |
| `CoMutexModule.WokenInOrder` | source/sync/mutex.cpp:29-50 | In every schedule the fibers picked to be woken are, in order, the first of those that went to wait, and the others are still queued |
| `CoMutexModule.InvNext` | source/sync/mutex.cpp:12-58 | Every single access keeps the invariant about both spin locks, owner, queue and wakers |
| `ChannelModule.NoStrandedWaiter` | star/sync/channel.h:27-66 | In every interleaving, while a consumer is parked the notified consumers on their way are at least as many as the queued items, and dually for producers and free slots |
| `ChannelModule.FirstInFirstOut` | star/sync/channel.h:27-66 | In every interleaving the queue never exceeds the capacity, and the items popped followed by the queue are the items pushed |
| `ChannelModule.NothingLost` | star/sync/channel.h:27-45 | In every interleaving the items of all calls of push are, as a multiset, the items accepted and those of the producers parked or woken, and each of these carries the item of its own last call; calls of pop are likewise the items handed out and the consumers inside |
| `ChannelModule.OldestFirst` | source/sync/co_condvar.cpp:7-27 | A critical section leaves a wait queue alone, parks one fiber at its end, or wakes the fiber parked longest, a producer with its item |
| `ChannelModule.QuietMeansBlocked` | star/sync/channel.h:33-56 | At rest, parked consumers mean an empty queue and parked producers a full one, so both are parked only on a channel without slots |
| `ChannelModule.ResumesRunOut` | source/sync/co_condvar.cpp:7-27 | Without new calls the notified fibers come to rest after a bounded number of steps |
| `ChannelModule.InvNext` | source/sync/co_condvar.cpp:61-79 | Every critical section keeps the channel invariant |
| `HttpParserModule.HttpParser.Execute` | source/http/parse.cpp:102-169 | Computes the byte-by-byte run from the current state, returns the bytes consumed, and moves the rest of the buffer to the front |
| `HttpParserModule.HttpParser.Scan` | source/http/parse.cpp:120-166 | A loop of execute stops exactly when finished, out of bytes, or at the end of the request line |
| `HttpLaws.FragmentsDoNotMatter` | source/http/parse.cpp:102-169 | However an input is cut into fragments, successive calls give the same message, error, state and total consumed as one call, also for chunks after finished headers |
| `HttpLaws.RequestRead` | source/http/parse.cpp:248-421 | Every request of the grammar, any number of blanks after each colon, is parsed into exactly its method, target, version and named fields in order, and parsing stops on its last byte whatever follows |
| `HttpLaws.LineRead` | source/http/parse.cpp:248-356 | Every well-formed request line is parsed into its parts, the fragment with its leading mark |
| `HttpLaws.FieldsRead` | source/http/parse.cpp:361-421 | Every list of fields is delivered in order when the empty line arrives, the first one dropped if it has no name |
| `HttpLaws.NoFieldsRefused` | source/http/parse.cpp:366-374 | A request line followed directly by the empty line is an invalid header |
| `HttpAccept.AcceptedIff` | source/http/parse.cpp:248-421 | A request is accepted after n bytes if and only if those bytes are the text of a request of the grammar; its parts are what is delivered |
| `HttpAccept.AcceptedOnly` | source/http/parse.cpp:248-421 | Whatever is accepted is the text of a request: known method of letters, nonempty path, optional query and fragment, version 1.0 or 1.1, and at least one field |
| `HttpAccept.LeavesLoop` | source/http/parse.cpp:251-299 | An accepted input leaves each reading loop with a byte the loop refuses, having collected exactly the bytes before it |
| `HttpAccept.CommonMethods` | source/http/http.cpp:7-15 | The methods of RFC 9110 and PATCH are known and can be parsed |
| `HttpAccept.SearchRefused` | star/http/http.h:46-46 | The listed method M-SEARCH is refused at its second byte whatever follows |
| `HttpChunks.ChunksDecoded` | source/http/parse.cpp:621-667 | For every list of chunks that are not empty, with sizes in any hexadecimal spelling, the body delivered is their concatenation and parsing stops on the final byte |
| `HttpChunks.SizeRead` | source/http/parse.cpp:625-638 | The digits are read as their value modulo 2^64, so exactly below 2^64 |
| `HttpChunks.ChunksAcceptedIff` | source/http/parse.cpp:621-667 | A body is accepted after n bytes if and only if those bytes are chunks that are not empty and a last one that is |
| `SkipListModule.SkipList.Search` | star/ds/skip_list.h:105-119 | Finds a node exactly when the map has the key, with the map's value |
| `SkipListModule.SkipList.Insert` | star/ds/skip_list.h:122-163 | With any drawn level, the map gains or replaces exactly the key; all levels stay sorted, linked and nested, and the count is the map's size |
| `SkipListModule.SkipList.Remove` | star/ds/skip_list.h:170-200 | The map loses exactly the key and its value is returned; levels stay sorted, linked and nested |
| `SkipListModule.SkipList.Descend` | star/ds/skip_list.h:127-131 | At every level the last node before the key |
| `SkipListModule.SkipList.LevelsAreSublists` | star/ds/skip_list.h:155-158 | Every level is a sorted sublist of every level below |
| `SkipListModule.Link` | star/ds/skip_list.h:155-158 | Rewiring one level inserts the node there and changes no other level |
| `SkipListModule.Unlink` | star/ds/skip_list.h:186-191 | Rewiring one level removes the node there and changes no other level |
| `SkipListModule.RandomLevel` | star/ds/skip_list.h:224-230 | The drawn level is the next random state modulo 16, or 1 instead of 0 |
| `RandomModule.Random.constructor` | star/ds/random.h:11-16 | Bad seeds are replaced, good ones kept |
| `RandomModule.Random.Next` | star/ds/random.h:18-38 | Shift and add compute multiplication modulo 2^31-1, within 32 bits, and the state stays a good seed |
| `RandomModule.Random.Uniform` | star/ds/random.h:42-42 | A value below n drawn from the next state |
| `RandomModule.ShiftAdd` | star/ds/random.h:28-36 | High and low part of the product add up to the remainder or that plus M, and never to M |
| `RandomModule.StepInverts` | star/ds/random.h:18-38 | Multiplying by the modular inverse undoes a step |
| `RandomModule.Injective` | star/ds/random.h:18-38 | Different seeds have different successors |
| `RandomModule.IterateIsPower` | star/ds/random.h:18-38 | After n calls the state is a good seed, the n-th power of the multiplier times the first, modulo M |
| `RandomCycle.FullCycle` | star/ds/random.h:24-26 | From any good seed every other one is reached in fewer than M - 1 calls |
| `RandomCycle.NoRepeat` | star/ds/random.h:24-26 | From any good seed the state does not come back in fewer than M - 1 calls |
| `LruMapModule.OneMoreSlot` | star/ds/lru_map.h:14-49 | After the same operations, a cache with one more slot has the same entries and recency order but for at most one further key |
| `LruMapModule.LargerHoldsMore` | star/ds/lru_map.h:14-49 | A larger cache holds every entry of a smaller one, with equal values |
| `LruMapModule.ApplyValid` | star/ds/lru_map.h:14-49 | List and map always hold the same distinct keys, at most the capacity |
| `LruMapModule.GetReturnsLastSet` | star/ds/lru_map.h:14-41 | After set(k, v) and operations that neither set nor remove k and touch fewer other keys than the cache has slots, get(k) returns v |
| `LruMapModule.GetMisses` | star/ds/lru_map.h:32-49 | After remove(k), and in an empty cache, get(k) returns nothing |
| `LruMapModule.LRUMap.Set` | star/ds/lru_map.h:14-31 | Evicts the oldest key of a full cache for a new one and makes the key the newest |
| `LruMapModule.LRUMap.Get` | star/ds/lru_map.h:32-41 | Returns the value and makes the key the newest, or nothing |
| `LruMapModule.LRUMap.Remove` | star/ds/lru_map.h:42-49 | Removes the key from list and map |
| `RingModule.SuccessorIsNearest` | source/db/shared_kv.cpp:408-423 | The lookup finds the one point nearest clockwise beyond the hash |
| `RingModule.AddIsMinimal` | source/db/shared_kv.cpp:98-130 | A new point takes over exactly the hashes that meet it first; every other hash keeps its owner |
| `RingModule.ArcHasOneOwner` | source/db/shared_kv.cpp:101-101 | All hashes that move were owned by the one session whose data are copied |
| `RingModule.OnlyArcUnowned` | source/db/shared_kv.cpp:108-112 | Between the two phases exactly the moving hashes have no owner |
| `RingModule.AddInTwoSteps` | source/db/shared_kv.cpp:119-130 | Both phases together insert the point with its owner |
| `RingModule.SortAdds` | source/db/shared_kv.cpp:110-111 | Appending and sorting inserts the point in place |
| `RingModule.UnsortedLooksUpIff` | source/db/shared_kv.cpp:136-139 | After a point was appended without sorting, every lookup is right if and only if the ring was empty or the new hash lies beyond all others |
| `RingModule.MissedPoint` | source/db/shared_kv.cpp:136-139 | Otherwise the hash just before the new point is given to another one |
| `RingModule.SharedKv.GetClientPos` | source/db/shared_kv.cpp:418-423 | The loop returns the owner of the successor point |
| `RingModule.SharedKv.BeginAdd` | source/db/shared_kv.cpp:98-112 | The source of the copy is the owner of the new hash; the ring gains an unowned point and stays sorted |
| `RingModule.SharedKv.FinishAdd` | source/db/shared_kv.cpp:119-130 | The point gets its owner and the ring stays sorted |

## Left out

- Snapshot installation in the cluster: the follower stores its current term as the term of the base entry (source/raft/raft_server.cpp:721), so log matching would not carry over it. The cluster therefore keeps base index 0, and `RaftSafety.CatchUpStaysDefined` shows that no snapshot is ever sent there.
- Restart of a server: terms and votes are not persisted (source/raft/raft_server.cpp:877-939), so no run of the cluster restarts one.
- Pre-vote, the leader lease clock, live-node probing and reconnection: a server may start an election, refuse or step down at any moment.
- Term and index overflow of 32 bits in the Raft part: they are unbounded integers there; the codec is exact at 32 and 64 bits.
- RaftSafety.LeaderCompleteness: asks that no accepted append cuts a log short, because without it the property is false (`RaftOrder.OutOfOrderLosesCommit`); `RaftSafety.StateMachineSafety` is stated under the same condition.
- RaftApply.ReplicasApplyOneHistory: asks that runs of `applyLog` begin as they should, because without it the property is false (`RaftOverlap.OverlapPushesTwice`). Compaction while a run is open, which shifts the offsets it pushes from, is outside the cluster with base 0.
- Conflict hints after compaction: the scan can reach a compacted base and leave the hint unset; the hint is then an arbitrary parameter.
- Serializer.ReadUint: combines disjoint groups of bits by addition where the code uses the bitwise or.
- Serializer.WriteEntries: the writing loops for the other containers are alike; the formats of the other messages are covered on flat sequences.
- ByteArrayModule.ByteArray.Write: the source buffer is a sequence rather than a raw pointer; reading at an explicit position, iovec access, fixed-width integers and file I/O are not modelled.
- Serializer.Load: the source passes the length as an `int`, so strings of 2^31 bytes and more are excluded there.
- HttpLaws.RequestRead: the response status line, bodies of fixed length and the splitting of queries into parameters are not modelled; the message is the sequence of callbacks.
- SkipListModule.SkipList.Descend: has one more slot than the source's array, which is written out of bounds.
- SkipListModule.SkipList.Insert: the array of forward pointers of a node is a sequence field of the node.
- CoMutexModule.NoLostWakeUp: `YieldToHold` marks the fiber as on hold and switches away in one step.
- Channel close and nested use of the coroutine mutex: close wakes one waiter of each kind only, and an inner unlock releases the outer lock.
- Removal of servers from the ring, and the hash function itself.
- TCC transactions: their mode does not reach the log entry (source/db/kv_server.cpp:688).
- Fibers, scheduler, epoll, sockets, configuration, logging, RPC plumbing and LevelDB.
