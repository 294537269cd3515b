/** Bytes as the C++ `uint8_t`, and the sizes of the wider integer types. */
module Bytes {
  type Byte = b: int | 0 <= b < 256

  const TWO31 := 0x8000_0000
  const TWO32 := 0x1_0000_0000
  const TWO63 := 0x8000_0000_0000_0000
  const TWO64 := 0x1_0000_0000_0000_0000
}

/** The records of star/raft/common.h. */
module RaftTypes {
  import opened Bytes

  datatype LogEntry = LogEntry(index: int, term: int, value: seq<Byte>)

  datatype AppendArgs = AppendArgs(
    term: int, leaderId: int, prevLogIndex: int, prevLogTerm: int,
    entries: seq<LogEntry>, leaderCommit: int)

  datatype AppendReply = AppendReply(term: int, success: bool, nextTryLog: int)

  datatype VoteArgs = VoteArgs(term: int, candidateId: int, lastLogIndex: int, lastLogTerm: int)

  datatype VoteReply = VoteReply(term: int, voteGranted: bool)

  datatype Role = Leader | Follower | Candidate
}
