/** A run of the code as written, with three nodes and one snapshot, that ends with a leader that can send
    no heartbeat any more.  Node 1 holds three entries of term 1; node 0 commits two entries of term 2
    through it, which the merge leaves in front of node 1's old third entry, and takes a snapshot of
    both.  Node 2 has only the first of them, but node 1's log ends in term 1, so node 2 wins term 3.
    Its heartbeat starts below node 0's snapshot, whose answer sends nextIndex past node 2's log. */
module RaftStaleLeader {
  import opened RaftTypes
  import opened RaftNode
  import opened RaftCluster
  import opened RaftPlays
  import opened RaftBacktrack

  const ZEROS := [0, 0, 0]
  const ONES := [1, 1, 1]
  const TWOS := [2, 2, 2]
  const A := Entry(1, 1, "a")
  const B := Entry(2, 1, "b")
  const C := Entry(3, 1, "c")
  const X := Entry(1, 2, "x")
  const Y := Entry(2, 2, "y")

  function Fresh(me: nat): Node {
    Node(me, 3, 0, -1, Follower, [], 0, 0, ZEROS, ZEROS, 0, 0, map[], [], [])
  }

  /** A node that has only voted or followed. */
  function Voter(me: nat, term: int, votedFor: int, logs: seq<Entry>): Node {
    Fresh(me).(currentTerm := term, votedFor := votedFor, logs := logs)
  }

  /** Node 1 as the leader of term 1, and as a follower with two of its entries overwritten. */
  const FIRST := Node(1, 3, 1, 1, Leader, [A, B, C], 0, 0, ONES, ZEROS, 0, 0, map[1 := 0], [], [])
  const OVERWRITTEN := FIRST.(status := Follower, currentTerm := 2, votedFor := -1, logs := [X, Y, C])

  /** Node 0 as the leader of term 2, with both entries committed, and with a snapshot of them. */
  const SECOND := Node(0, 3, 2, 0, Leader, [X, Y], 0, 0, ONES, ZEROS, 0, 0, map[2 := 0], [1, 1], [])
  const COMMITTED := SECOND.(commitIndex := 2, nextIndex := [1, 3, 1], matchIndex := [0, 2, 0], appendNums := [1, 0])
  const COMPACTED := COMMITTED.(lastApplied := 2, emitted := [ApplyMsg(1, "x"), ApplyMsg(2, "y")],
                                snapIndex := 2, snapTerm := 2, logs := [])

  /** Node 2 as the leader of term 3. */
  const THIRD := Node(2, 3, 3, 2, Leader, [X], 0, 0, TWOS, ZEROS, 0, 0, map[3 := 0], [], [])

  lemma {:induction false} Opening() returns (states: seq<Cluster>, steps: seq<Step>)
    ensures Plays(3, false, states, steps) && Now(states).nodes == [Fresh(0), Fresh(1), Fresh(2)]
    ensures Now(states).votesHandled == {} && Now(states).appendsHandled == {}
  {
    states, steps := [InitCluster(3)], [];
    InitShape(3);
    assert seq(3, _ => 0) == ZEROS;
    assert Now(states).nodes == [Fresh(0), Fresh(1), Fresh(2)];
  }

  /** Node 1 wins term 1 with node 0. */
  lemma TermOne() returns (states: seq<Cluster>, steps: seq<Step>)
    ensures Plays(3, false, states, steps)
    ensures Now(states).nodes == [Voter(0, 1, 1, []), FIRST.(logs := []), Fresh(2)]
    ensures Now(states).appendsHandled == {}
    ensures forall call :: call in Now(states).votesHandled ==> call.args.term == 1
  {
    hide IsRun, Shape;
    states, steps := Opening();
    states, steps := Stand(3, false, states, steps, 1);
    assert Election(Fresh(1)) ==
      Fresh(1).(currentTerm := 1, votedFor := 1, status := Candidate, votedNums := map[1 := 1]);
    states, steps := Vote(3, false, states, steps, VoteCall(1, 0, VoteArgs(1, 1, 0, 0)));
    assert seq(3, _ => 1) == ONES && seq(3, _ => 0) == ZEROS;
    assert Now(states).nodes[1] == FIRST.(logs := []);
  }

  lemma FirstEntries()
    ensures Start(FIRST.(logs := []), "a") == FIRST.(logs := [A])
    ensures Start(FIRST.(logs := [A]), "b") == FIRST.(logs := [A, B])
    ensures Start(FIRST.(logs := [A, B]), "c") == FIRST
  {
    hide Start;
    Appends(FIRST.(logs := []), A);
    Appends(FIRST.(logs := [A]), B);
    Appends(FIRST.(logs := [A, B]), C);
    assert [] + [A] == [A] && [A] + [B] == [A, B] && [A, B] + [C] == [A, B, C];
  }

  lemma TermOneEntries() returns (states: seq<Cluster>, steps: seq<Step>)
    ensures Plays(3, false, states, steps)
    ensures Now(states).nodes == [Voter(0, 1, 1, []), FIRST, Fresh(2)]
    ensures Now(states).appendsHandled == {}
    ensures forall call :: call in Now(states).votesHandled ==> call.args.term == 1
  {
    hide IsRun, Shape, Start;
    states, steps := TermOne();
    FirstEntries();
    states, steps := Propose(3, false, states, steps, 1, "a");
    states, steps := Propose(3, false, states, steps, 1, "b");
    states, steps := Propose(3, false, states, steps, 1, "c");
  }

  /** Node 0 wins term 2 with node 2. */
  lemma TermTwo() returns (states: seq<Cluster>, steps: seq<Step>)
    ensures Plays(3, false, states, steps)
    ensures Now(states).nodes == [SECOND.(logs := [], appendNums := []), FIRST, Voter(2, 2, 0, [])]
    ensures Now(states).appendsHandled == {}
    ensures forall call :: call in Now(states).votesHandled ==> call.args.term <= 2
  {
    hide IsRun, Shape;
    states, steps := TermOneEntries();
    states, steps := Stand(3, false, states, steps, 0);
    states, steps := Vote(3, false, states, steps, VoteCall(0, 2, VoteArgs(2, 0, 0, 0)));
    assert seq(3, _ => 1) == ONES && seq(3, _ => 0) == ZEROS;
    assert Now(states).nodes[0].votedNums == map[2 := 0];
  }

  const X_CALL := AppendArgs(2, 0, 0, 0, [X], 0)
  const XY_CALL := AppendArgs(2, 0, 0, 0, [X, Y], 0)

  lemma SecondSends()
    ensures var leader := SECOND.(logs := [X], appendNums := []);
            && Start(SECOND.(logs := [], appendNums := []), "x") == leader && CanHeartBeat(leader)
            && HeartBeat(leader) == leader.(appendNums := [1]) && HeartBeatArgs(leader, 2) == X_CALL
    ensures var leader := SECOND.(appendNums := [1]);
            && Start(SECOND.(logs := [X], appendNums := [1]), "y") == leader && CanHeartBeat(leader)
            && HeartBeat(leader) == SECOND && HeartBeatArgs(leader, 1) == XY_CALL
  {
    hide Start, HeartBeatArgs;
    Appends(SECOND.(logs := [], appendNums := []), X);
    Appends(SECOND.(logs := [X], appendNums := [1]), Y);
    assert [] + [X] == [X] && [X] + [Y] == [X, Y];
    Ships(SECOND.(logs := [X], appendNums := []), 2, X_CALL);
    Ships(SECOND.(appendNums := [1]), 1, XY_CALL);
  }

  lemma SecondTakes()
    ensures AppendEntries(AsWritten, Voter(2, 2, 0, []), X_CALL).0 == Voter(2, 2, 0, [X])
    ensures AppendEntries(AsWritten, FIRST, XY_CALL) == (OVERWRITTEN, AppendReply(2, true, 0))
  {
    assert MergeAsWritten([], 0, [X]) == [X];
    assert MergeAsWritten([A, B, C], 0, [X, Y]) == [X, Y, C];
    hide MergeAsWritten;
  }

  /** Node 0 appends an entry and node 2 gets it. */
  lemma TermTwoEntry() returns (states: seq<Cluster>, steps: seq<Step>)
    ensures Plays(3, false, states, steps)
    ensures Now(states).nodes == [SECOND.(logs := [X], appendNums := [1]), FIRST, Voter(2, 2, 0, [X])]
    ensures Now(states).appendsHandled == {}
    ensures forall call :: call in Now(states).votesHandled ==> call.args.term <= 2
  {
    hide IsRun, Shape, Start, HeartBeat, HeartBeatArgs, AppendEntries;
    states, steps := TermTwo();
    SecondSends();
    SecondTakes();
    states, steps := Propose(3, false, states, steps, 0, "x");
    states, steps := Beat(3, false, states, steps, 0);
    states, steps := Deliver(3, false, states, steps, AppendCall(0, 2, 0, X_CALL));
  }

  lemma SecondCounts()
    ensures AppendReplied(SECOND, AppendCall(0, 1, 1, XY_CALL), AppendReply(2, true, 0)) == COMMITTED
  {
  }

  /** Node 0 appends another and commits both through node 1. */
  lemma TermTwoCommits() returns (states: seq<Cluster>, steps: seq<Step>)
    ensures Plays(3, false, states, steps)
    ensures Now(states).nodes == [COMMITTED, OVERWRITTEN, Voter(2, 2, 0, [X])]
    ensures forall call :: call in Now(states).votesHandled ==> call.args.term <= 2
    ensures forall call :: call in Now(states).appendsHandled ==> call.args.term <= 2
  {
    hide IsRun, Shape, Start, HeartBeat, HeartBeatArgs, AppendEntries, AppendReplied;
    states, steps := TermTwoEntry();
    SecondSends();
    SecondTakes();
    SecondCounts();
    states, steps := Propose(3, false, states, steps, 0, "y");
    states, steps := Beat(3, false, states, steps, 0);
    states, steps := Replicate(3, false, states, steps, AppendCall(0, 1, 1, XY_CALL));
  }

  lemma SecondCompacts()
    ensures COMMITTED.commitIndex <= LastIndex(COMMITTED)
    ensures ApplyLogs(COMMITTED).commitIndex <= LastIndex(ApplyLogs(COMMITTED))
    ensures Snapshot(ApplyLogs(COMMITTED), 2) == COMPACTED
  {
    assert Emission(COMMITTED, 0, 2) == [ApplyMsg(1, "x"), ApplyMsg(2, "y")];
    assert [X, Y][2..] == [];
  }

  /** Node 0 applies both entries and takes a snapshot of them. */
  lemma TermTwoSnapshot() returns (states: seq<Cluster>, steps: seq<Step>)
    ensures Plays(3, false, states, steps)
    ensures Now(states).nodes == [COMPACTED, OVERWRITTEN, Voter(2, 2, 0, [X])]
    ensures forall call :: call in Now(states).votesHandled ==> call.args.term <= 2
    ensures forall call :: call in Now(states).appendsHandled ==> call.args.term <= 2
  {
    hide IsRun, Shape, ApplyLogs, Snapshot;
    states, steps := TermTwoCommits();
    SecondCompacts();
    states, steps := Hand(3, false, states, steps, 0);
    states, steps := Compact(3, states, steps, 0, 2);
  }

  lemma SecondTransfers()
    ensures InstallSnapshot(Voter(2, 2, 0, [X]), SnapshotArgs(COMPACTED)) ==
              (Voter(2, 2, 0, []).(commitIndex := 2, lastApplied := 2, snapIndex := 2, snapTerm := 2), 2)
    ensures SnapReplied(COMPACTED, SnapCall(0, 2, SnapshotArgs(COMPACTED)), 2) ==
              COMPACTED.(nextIndex := [1, 3, 3], matchIndex := [0, 2, 2])
  {
  }

  /** Had node 0 sent its snapshot first, node 2 would have caught up, and node 0 would know it. */
  lemma SnapshotCatchesUp() returns (states: seq<Cluster>, steps: seq<Step>)
    ensures IsRun(AsWritten, 3, states, steps)
    ensures states[|steps|].nodes == [
              COMPACTED.(nextIndex := [1, 3, 3], matchIndex := [0, 2, 2]), OVERWRITTEN,
              Voter(2, 2, 0, []).(commitIndex := 2, lastApplied := 2, snapIndex := 2, snapTerm := 2)]
  {
    hide IsRun, Shape, InstallSnapshot, SnapReplied, SnapshotArgs;
    states, steps := TermTwoSnapshot();
    SecondTransfers();
    states, steps := Transfer(3, states, steps, 0, 2);
  }

  /** Node 2 wins term 3 with node 1. */
  lemma TermThree() returns (states: seq<Cluster>, steps: seq<Step>)
    ensures Plays(3, false, states, steps)
    ensures Now(states).nodes == [COMPACTED, OVERWRITTEN.(currentTerm := 3, votedFor := 2), THIRD]
    ensures forall call :: call in Now(states).appendsHandled ==> call.args.term <= 2
  {
    hide IsRun, Shape;
    states, steps := TermTwoSnapshot();
    states, steps := Stand(3, false, states, steps, 2);
    states, steps := Vote(3, false, states, steps, VoteCall(2, 1, VoteArgs(3, 2, 1, 2)));
    assert seq(3, _ => 2) == TWOS && seq(3, _ => 0) == ZEROS;
    assert Now(states).nodes[2].votedNums == map[3 := 0];
  }

  const Z_CALL := AppendArgs(3, 2, 1, 2, [], 0)

  lemma ThirdSends()
    ensures CanHeartBeat(THIRD) && HeartBeat(THIRD) == THIRD.(appendNums := [1]) && HeartBeatArgs(THIRD, 0) == Z_CALL
  {
    hide HeartBeatArgs;
    Ships(THIRD, 0, Z_CALL);
  }

  lemma ThirdRejected()
    ensures AppendEntries(AsWritten, COMPACTED, Z_CALL).1 == AppendReply(3, false, 3)
    ensures AppendReplied(THIRD.(appendNums := [1]), AppendCall(2, 0, 0, Z_CALL), AppendReply(3, false, 3))
            == THIRD.(appendNums := [1], nextIndex := [3, 2, 2])
  {
  }

  /** Node 2's heartbeat starts below node 0's snapshot, and the answer blocks it: doHeartBeat can fail its
      assertion in a run with a snapshot. */
  lemma StaleLeaderBlocks() returns (states: seq<Cluster>, steps: seq<Step>)
    ensures IsRun(AsWritten, 3, states, steps) && !NoneBelow(states, steps) && !AlwaysBeats(states)
    ensures var s := states[|steps|];
            && |s.nodes| == 3 && s.nodes[2].status.Leader? && Indexed(s.nodes[2]) && !CanHeartBeat(s.nodes[2])
  {
    hide IsRun, Shape, HeartBeat, HeartBeatArgs, AppendEntries, AppendReplied, NoneBelow;
    states, steps := TermThree();
    ThirdSends();
    ThirdRejected();
    states, steps := Beat(3, false, states, steps, 2);
    states, steps := Replicate(3, false, states, steps, AppendCall(2, 0, 0, Z_CALL));
    var nd := states[|steps|].nodes[2];
    assert nd == THIRD.(appendNums := [1], nextIndex := [3, 2, 2]);
    assert nd.nextIndex[0] == 3 && LastIndex(nd) == 1;
    if NoneBelow(states, steps) {
      HeartBeatNeverBlocked(AsWritten, 3, states, steps, |steps|, 2);
      assert false;
    }
  }
}
