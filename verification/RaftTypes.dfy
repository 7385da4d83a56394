/** The values a Raft node keeps and the messages nodes exchange. */
module RaftTypes {

  datatype Entry = Entry(index: int, term: int, command: string)

  datatype Status = Follower | Candidate | Leader

  /** How an accepted AppendEntries is folded into the log.  `AsWritten` is the loop of
      raft.cpp:88-119, which overwrites single conflicting entries; `Truncating` is what the
      comment at raft.cpp:79 asks for, dropping the log from the first conflict on. */
  datatype Merge = AsWritten | Truncating

  datatype ApplyMsg = ApplyMsg(index: int, command: string)

  /** The fields of class Raft.  `votedNums` and `appendNums` hold the counters that the source
      shares between the closures of one election (keyed by its term) and of one heartbeat round
      (keyed by the round number).  `emitted` is everything pushed on the apply channel. */
  datatype Node = Node(
    me: nat,
    peers: nat,
    currentTerm: int,
    votedFor: int,
    status: Status,
    logs: seq<Entry>,
    commitIndex: int,
    lastApplied: int,
    nextIndex: seq<int>,
    matchIndex: seq<int>,
    snapIndex: int,
    snapTerm: int,
    votedNums: map<int, int>,
    appendNums: seq<int>,
    emitted: seq<ApplyMsg>)

  datatype VoteArgs = VoteArgs(term: int, candidateId: nat, lastLogIndex: int, lastLogTerm: int)

  datatype VoteState = Expire | Voted | Normal

  datatype VoteReply = VoteReply(term: int, granted: bool, state: VoteState)

  datatype AppendArgs = AppendArgs(
    term: int,
    leaderId: nat,
    prevLogIndex: int,
    prevLogTerm: int,
    entries: seq<Entry>,
    leaderCommit: int)
  {
    /** The index of the last entry the message covers. */
    function End(): int {
      prevLogIndex + |entries|
    }

    /** Messages carry consecutive entries, starting right after prevLogIndex. */
    ghost predicate WellFormed() {
      && 0 <= prevLogIndex
      && forall i :: 0 <= i < |entries| ==> entries[i].index == prevLogIndex + i + 1
    }
  }

  datatype AppendReply = AppendReply(term: int, success: bool, updateNextIndex: int)

  datatype SnapArgs = SnapArgs(term: int, leaderId: nat, lastIndex: int, lastTerm: int)

  /** One outgoing RequestVote call, made once per election and peer. */
  datatype VoteCall = VoteCall(from: nat, to: nat, args: VoteArgs)

  /** One outgoing AppendEntries call, made at most once per heartbeat round and peer. */
  datatype AppendCall = AppendCall(from: nat, to: nat, round: nat, args: AppendArgs)

  datatype SnapCall = SnapCall(from: nat, to: nat, args: SnapArgs)

  function Max(a: int, b: int): (r: int)
    ensures r >= a && r >= b && (r == a || r == b)
  {
    if a < b then b else a
  }

  function Min(a: int, b: int): (r: int)
    ensures r <= a && r <= b && (r == a || r == b)
  {
    if a < b then a else b
  }

  /** The strict majority the source tests for: m_peers.size() / 2 + 1. */
  function Majority(peers: nat): (r: nat)
    ensures 2 * r > peers && (peers > 0 ==> r <= peers)
  {
    peers / 2 + 1
  }
}
