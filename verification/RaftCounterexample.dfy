/** A run of the code as written, with five nodes and no snapshots, after which log matching, leader
    completeness and state machine safety are all broken.  Nodes 0 and 1 hold two entries of term 1;
    node 2 commits one entry of term 2 through nodes 1 and 3, and the merge leaves node 1 with the
    term-2 entry followed by its old second entry; node 1 then helps node 0 win term 3. */
module RaftCounterexample {
  import opened RaftTypes
  import opened RaftNode
  import opened RaftCluster
  import opened RaftPlays
  import opened RaftTheorems

  // ---------------------------------------------------------------------------------------
  // The nodes along the way
  // ---------------------------------------------------------------------------------------

  const ZEROS := [0, 0, 0, 0, 0]
  const A := Entry(1, 1, "a")
  const B := Entry(2, 1, "b")
  const C := Entry(1, 2, "c")
  const D := Entry(3, 3, "d")

  function Fresh(me: nat): Node {
    Node(me, 5, 0, -1, Follower, [], 0, 0, ZEROS, ZEROS, 0, 0, map[], [], [])
  }

  /** A node that has only voted or followed. */
  function Voter(me: nat, term: int, votedFor: int, logs: seq<Entry>): Node {
    Fresh(me).(currentTerm := term, votedFor := votedFor, logs := logs)
  }

  /** Node 0 as the leader of term 1 with its two entries. */
  const FIRST := Node(0, 5, 1, 0, Leader, [A, B], 0, 0, [1, 1, 1, 1, 1], ZEROS, 0, 0, map[1 := 0], [1], [])

  /** Node 2 as the new leader of term 2, and with its entry committed. */
  const SECOND_NEW := Node(2, 5, 2, 2, Leader, [], 0, 0, [1, 1, 1, 1, 1], ZEROS, 0, 0, map[2 := 0], [], [])
  const SECOND := Node(2, 5, 2, 2, Leader, [C], 1, 0, [1, 2, 1, 2, 1], [0, 1, 0, 1, 0], 0, 0, map[2 := 0], [0], [])

  /** Node 0 as the leader of term 3. */
  const THIRD := Node(0, 5, 3, 0, Leader, [A, B], 0, 0, [3, 3, 3, 3, 3], ZEROS, 0, 0, map[1 := 0, 3 := 0], [1], [])

  lemma {:induction false} Opening() returns (states: seq<Cluster>, steps: seq<Step>)
    ensures Plays(5, true, states, steps) && Now(states).nodes == [Fresh(0), Fresh(1), Fresh(2), Fresh(3), Fresh(4)]
    ensures Now(states).votesHandled == {} && Now(states).appendsHandled == {}
  {
    states, steps := [InitCluster(5)], [];
    InitShape(5);
    assert seq(5, _ => 0) == ZEROS;
    assert Now(states).nodes == [Fresh(0), Fresh(1), Fresh(2), Fresh(3), Fresh(4)];
  }

  lemma TermOne() returns (states: seq<Cluster>, steps: seq<Step>)
    ensures Plays(5, true, states, steps)
    ensures Now(states).nodes == [
              FIRST.(logs := [], appendNums := []), Voter(1, 1, 0, []), Voter(2, 1, 0, []), Fresh(3), Fresh(4)]
    ensures Now(states).appendsHandled == {}
    ensures forall call :: call in Now(states).votesHandled ==> call.args.term == 1
  {
    hide IsRun, Shape;
    states, steps := Opening();
    states, steps := Stand(5, true, states, steps, 0);
    var a := VoteArgs(1, 0, 0, 0);
    assert Election(Fresh(0)) ==
      Fresh(0).(currentTerm := 1, votedFor := 0, status := Candidate, votedNums := map[1 := 1]);
    states, steps := Vote(5, true, states, steps, VoteCall(0, 1, a));
    states, steps := Vote(5, true, states, steps, VoteCall(0, 2, a));
    assert seq(5, _ => 1) == [1, 1, 1, 1, 1] && seq(5, _ => 0) == ZEROS;
    assert Now(states).nodes[0] == FIRST.(logs := [], appendNums := []);
  }

  // ---------------------------------------------------------------------------------------
  // Term by term
  // ---------------------------------------------------------------------------------------

  lemma FirstEntries()
    ensures Start(FIRST.(logs := [], appendNums := []), "a") == FIRST.(logs := [A], appendNums := [])
    ensures Start(FIRST.(logs := [A], appendNums := []), "b") == FIRST.(appendNums := [])
  {
    hide Start;
    Appends(FIRST.(logs := [], appendNums := []), A);
    Appends(FIRST.(logs := [A], appendNums := []), B);
    assert [] + [A] == [A] && [A] + [B] == [A, B];
  }

  lemma FirstSends()
    ensures HeartBeat(FIRST.(appendNums := [])) == FIRST
    ensures HeartBeatArgs(FIRST.(appendNums := []), 1) == AppendArgs(1, 0, 0, 0, [A, B], 0)
    ensures AppendEntries(AsWritten, Voter(1, 1, 0, []), AppendArgs(1, 0, 0, 0, [A, B], 0)) ==
              (Voter(1, 1, 0, [A, B]), AppendReply(1, true, 0))
  {
    hide HeartBeatArgs, AppendEntries;
    var a := AppendArgs(1, 0, 0, 0, [A, B], 0);
    Ships(FIRST.(appendNums := []), 1, a);
    Takes(Voter(1, 1, 0, []), a, [A, B]);
  }

  /** Node 0 appends two entries. */
  lemma TermOneEntries() returns (states: seq<Cluster>, steps: seq<Step>)
    ensures Plays(5, true, states, steps)
    ensures Now(states).nodes == [FIRST.(appendNums := []), Voter(1, 1, 0, []), Voter(2, 1, 0, []), Fresh(3), Fresh(4)]
    ensures Now(states).appendsHandled == {}
    ensures forall call :: call in Now(states).votesHandled ==> call.args.term == 1
  {
    hide IsRun, Shape, Start;
    states, steps := TermOne();
    FirstEntries();
    states, steps := Propose(5, true, states, steps, 0, "a");
    states, steps := Propose(5, true, states, steps, 0, "b");
  }

  /** Node 1 gets them. */
  lemma TermOneLogs() returns (states: seq<Cluster>, steps: seq<Step>)
    ensures Plays(5, true, states, steps)
    ensures Now(states).nodes == [FIRST, Voter(1, 1, 0, [A, B]), Voter(2, 1, 0, []), Fresh(3), Fresh(4)]
    ensures Now(states).appendsHandled == {}
    ensures forall call :: call in Now(states).votesHandled ==> call.args.term == 1
  {
    hide IsRun, Shape, AppendEntries, HeartBeat, HeartBeatArgs;
    states, steps := TermOneEntries();
    FirstSends();
    states, steps := Beat(5, true, states, steps, 0);
    states, steps := Deliver(5, true, states, steps, AppendCall(0, 1, 0, AppendArgs(1, 0, 0, 0, [A, B], 0)));
  }

  /** Node 2 wins term 2 with nodes 3 and 4. */
  lemma TermTwo() returns (states: seq<Cluster>, steps: seq<Step>)
    ensures Plays(5, true, states, steps)
    ensures Now(states).nodes == [
              FIRST, Voter(1, 1, 0, [A, B]), SECOND_NEW, Voter(3, 2, 2, []), Voter(4, 2, 2, [])]
    ensures Now(states).appendsHandled == {}
    ensures VoteCall(2, 0, VoteArgs(2, 2, 0, 0)) in Now(states).voteCalls
    ensures forall call :: call in Now(states).votesHandled ==> call.args.term <= 2
  {
    hide IsRun, Shape;
    states, steps := TermOneLogs();
    states, steps := Stand(5, true, states, steps, 2);
    var a := VoteArgs(2, 2, 0, 0);
    states, steps := Vote(5, true, states, steps, VoteCall(2, 3, a));
    states, steps := Vote(5, true, states, steps, VoteCall(2, 4, a));
    assert seq(5, _ => 1) == [1, 1, 1, 1, 1] && seq(5, _ => 0) == ZEROS;
    assert Now(states).nodes[2].votedNums == map[2 := 0];
  }

  const C_CALL := AppendArgs(2, 2, 0, 0, [C], 0)

  lemma SecondSends()
    ensures var leader := SECOND_NEW.(logs := [C]);
            && Start(SECOND_NEW, "c") == leader && HeartBeat(leader) == leader.(appendNums := [1])
            && HeartBeatArgs(leader, 1) == C_CALL && HeartBeatArgs(leader, 3) == C_CALL
  {
    hide Start, HeartBeatArgs;
    Appends(SECOND_NEW, C);
    assert [] + [C] == [C];
    var leader := SECOND_NEW.(logs := [C]);
    Ships(leader, 1, C_CALL);
    Ships(leader, 3, C_CALL);
  }

  /** It appends its entry and sends it. */
  lemma TermTwoEntry() returns (states: seq<Cluster>, steps: seq<Step>)
    ensures Plays(5, true, states, steps)
    ensures Now(states).nodes == [
              FIRST, Voter(1, 1, 0, [A, B]), SECOND_NEW.(logs := [C], appendNums := [1]),
              Voter(3, 2, 2, []), Voter(4, 2, 2, [])]
    ensures VoteCall(2, 0, VoteArgs(2, 2, 0, 0)) in Now(states).voteCalls
    ensures AppendCall(2, 1, 0, C_CALL) in Now(states).appendCalls
    ensures AppendCall(2, 3, 0, C_CALL) in Now(states).appendCalls
    ensures Now(states).appendsHandled == {}
    ensures forall call :: call in Now(states).votesHandled ==> call.args.term <= 2
  {
    hide IsRun, Shape, Start, HeartBeat, HeartBeatArgs;
    states, steps := TermTwo();
    SecondSends();
    states, steps := Propose(5, true, states, steps, 2, "c");
    states, steps := Beat(5, true, states, steps, 2);
  }

  lemma SecondTakes()
    ensures AppendEntries(AsWritten, Voter(1, 1, 0, [A, B]), C_CALL)
            == (Voter(1, 2, -1, [C, B]), AppendReply(2, true, 0))
    ensures AppendEntries(AsWritten, Voter(3, 2, 2, []), C_CALL) == (Voter(3, 2, 2, [C]), AppendReply(2, true, 0))
  {
    hide AppendEntries;
    assert MergeAsWritten([A, B], 0, [C]) == [C, B];
    Takes(Voter(1, 1, 0, [A, B]), C_CALL, [C, B]);
    Takes(Voter(3, 2, 2, []), C_CALL, [C]);
  }

  lemma SecondCounts()
    ensures var leader, ok := SECOND_NEW.(logs := [C], appendNums := [1]), AppendReply(2, true, 0);
            AppendReplied(AppendReplied(leader, AppendCall(2, 1, 0, C_CALL), ok), AppendCall(2, 3, 0, C_CALL), ok)
            == SECOND
  {
    var leader, ok := SECOND_NEW.(logs := [C], appendNums := [1]), AppendReply(2, true, 0);
    var leader' := AppendReplied(leader, AppendCall(2, 1, 0, C_CALL), ok);
    assert leader' == leader.(appendNums := [2], matchIndex := [0, 1, 0, 0, 0], nextIndex := [1, 2, 1, 1, 1]);
  }

  /** It commits it through nodes 1 and 3; node 1 keeps its old second entry behind it. */
  lemma TermTwoCommits() returns (states: seq<Cluster>, steps: seq<Step>)
    ensures Plays(5, true, states, steps)
    ensures Now(states).nodes == [FIRST, Voter(1, 2, -1, [C, B]), SECOND, Voter(3, 2, 2, [C]), Voter(4, 2, 2, [])]
    ensures VoteCall(2, 0, VoteArgs(2, 2, 0, 0)) in Now(states).voteCalls
    ensures forall call :: call in Now(states).votesHandled ==> call.args.term <= 2
    ensures forall call :: call in Now(states).appendsHandled ==> call.args.term <= 2
  {
    hide IsRun, Shape, AppendEntries, AppendReplied;
    states, steps := TermTwoEntry();
    SecondTakes();
    SecondCounts();
    states, steps := Replicate(5, true, states, steps, AppendCall(2, 1, 0, C_CALL));
    states, steps := Replicate(5, true, states, steps, AppendCall(2, 3, 0, C_CALL));
  }

  /** Node 0 learns of term 2 from a vote request, stands again, and wins term 3 with nodes 1 and 4. */
  lemma TermThree() returns (states: seq<Cluster>, steps: seq<Step>)
    ensures Plays(5, true, states, steps)
    ensures Now(states).nodes == [THIRD, Voter(1, 3, 0, [C, B]), SECOND, Voter(3, 2, 2, [C]), Voter(4, 3, 0, [])]
    ensures forall call :: call in Now(states).appendsHandled ==> call.args.term <= 2
  {
    hide IsRun, Shape;
    states, steps := TermTwoCommits();
    states, steps := AskVote(5, true, states, steps, VoteCall(2, 0, VoteArgs(2, 2, 0, 0)));
    assert Now(states).nodes[0] == FIRST.(status := Follower, currentTerm := 2, votedFor := -1);
    states, steps := Stand(5, true, states, steps, 0);
    var a := VoteArgs(3, 0, 2, 1);
    states, steps := Vote(5, true, states, steps, VoteCall(0, 1, a));
    states, steps := Vote(5, true, states, steps, VoteCall(0, 4, a));
    assert seq(5, _ => 3) == [3, 3, 3, 3, 3] && seq(5, _ => 0) == ZEROS;
    assert Now(states).nodes[0].votedNums == map[1 := 0, 3 := 0];
    assert Now(states).nodes[0] == THIRD;
  }

  const D_CALL := AppendArgs(3, 0, 2, 1, [D], 0)

  lemma ThirdSends()
    ensures var leader := THIRD.(logs := [A, B, D]);
            && Start(THIRD, "d") == leader && HeartBeat(leader) == leader.(appendNums := [1, 1])
            && HeartBeatArgs(leader, 1) == D_CALL && HeartBeatArgs(leader, 4) == D_CALL
  {
    hide Start, HeartBeatArgs;
    Appends(THIRD, D);
    var leader := THIRD.(logs := [A, B, D]);
    assert [A, B] + [D] == [A, B, D];
    Ships(leader, 1, D_CALL);
    Ships(leader, 4, D_CALL);
  }

  /** Node 0 appends an entry and sends it. */
  lemma TermThreeEntry() returns (states: seq<Cluster>, steps: seq<Step>)
    ensures Plays(5, true, states, steps)
    ensures Now(states).nodes == [
              THIRD.(logs := [A, B, D], appendNums := [1, 1]),
              Voter(1, 3, 0, [C, B]), SECOND, Voter(3, 2, 2, [C]), Voter(4, 3, 0, [])]
    ensures AppendCall(0, 1, 1, D_CALL) in Now(states).appendCalls
    ensures AppendCall(0, 4, 1, D_CALL) in Now(states).appendCalls
    ensures forall call :: call in Now(states).appendsHandled ==> call.args.term <= 2
  {
    hide IsRun, Shape, Start, HeartBeat, HeartBeatArgs;
    states, steps := TermThree();
    ThirdSends();
    states, steps := Propose(5, true, states, steps, 0, "d");
    states, steps := Beat(5, true, states, steps, 0);
  }

  /** Node 1's tail matches and it takes the entry; node 4's log is empty and it rejects. */
  lemma TermThreeLogs() returns (states: seq<Cluster>, steps: seq<Step>)
    ensures Plays(5, true, states, steps)
    ensures Now(states).nodes == [
              THIRD.(logs := [A, B, D], nextIndex := [3, 4, 3, 3, 1], matchIndex := [0, 3, 0, 0, 0],
                     appendNums := [1, 2]),
              Voter(1, 3, 0, [C, B, D]), SECOND, Voter(3, 2, 2, [C]), Voter(4, 3, 0, [])]
    ensures forall call :: call in Now(states).appendsHandled ==> call.args.term <= 2 || call.round == 1
  {
    hide IsRun, Shape;
    states, steps := TermThreeEntry();
    assert MergeAsWritten([C, B], 2, [D]) == [C, B, D];
    Takes(Voter(1, 3, 0, [C, B]), D_CALL, [C, B, D]);
    var leader := THIRD.(logs := [A, B, D], appendNums := [1, 1]);
    var leader' := AppendReplied(leader, AppendCall(0, 1, 1, D_CALL), AppendReply(3, true, 0));
    assert leader' == leader.(appendNums := [1, 2], matchIndex := [0, 3, 0, 0, 0], nextIndex := [3, 4, 3, 3, 3]);
    assert AppendEntries(AsWritten, Voter(4, 3, 0, []), D_CALL) == (Voter(4, 3, 0, []), AppendReply(3, false, 1));
    assert AppendReplied(leader', AppendCall(0, 4, 1, D_CALL), AppendReply(3, false, 1)) ==
      leader'.(nextIndex := [3, 4, 3, 3, 1]);
    hide AppendEntries, AppendReplied;
    states, steps := Replicate(5, true, states, steps, AppendCall(0, 1, 1, D_CALL));
    states, steps := Replicate(5, true, states, steps, AppendCall(0, 4, 1, D_CALL));
  }

  const E_CALL := AppendArgs(3, 0, 3, 3, [], 0)
  const F_CALL := AppendArgs(3, 0, 0, 0, [A, B, D], 0)

  lemma ThirdSendsAgain()
    ensures var leader := THIRD.(logs := [A, B, D], nextIndex := [3, 4, 3, 3, 1], matchIndex := [0, 3, 0, 0, 0],
                                 appendNums := [1, 2]);
            && HeartBeat(leader) == leader.(appendNums := [1, 2, 1])
            && HeartBeatArgs(leader, 1) == E_CALL && HeartBeatArgs(leader, 4) == F_CALL
            && CanHeartBeat(leader)
  {
    hide HeartBeatArgs;
    var leader := THIRD.(logs := [A, B, D], nextIndex := [3, 4, 3, 3, 1], matchIndex := [0, 3, 0, 0, 0],
                         appendNums := [1, 2]);
    Ships(leader, 1, E_CALL);
    Ships(leader, 4, F_CALL);
  }

  /** The next round has nothing for node 1 and everything for node 4. */
  lemma TermThreeRound() returns (states: seq<Cluster>, steps: seq<Step>)
    ensures Plays(5, true, states, steps)
    ensures Now(states).nodes == [
              THIRD.(logs := [A, B, D], nextIndex := [3, 4, 3, 3, 1], matchIndex := [0, 3, 0, 0, 0],
                     appendNums := [1, 2, 1]),
              Voter(1, 3, 0, [C, B, D]), SECOND, Voter(3, 2, 2, [C]), Voter(4, 3, 0, [])]
    ensures AppendCall(0, 1, 2, E_CALL) in Now(states).appendCalls
    ensures AppendCall(0, 4, 2, F_CALL) in Now(states).appendCalls
    ensures forall call :: call in Now(states).appendsHandled ==> call.args.term <= 2 || call.round == 1
  {
    hide IsRun, Shape, HeartBeat, HeartBeatArgs;
    states, steps := TermThreeLogs();
    ThirdSendsAgain();
    states, steps := Beat(5, true, states, steps, 0);
  }

  lemma ThirdTakes()
    ensures AppendEntries(AsWritten, Voter(1, 3, 0, [C, B, D]), E_CALL)
            == (Voter(1, 3, 0, [C, B, D]), AppendReply(3, true, 0))
    ensures AppendEntries(AsWritten, Voter(4, 3, 0, []), F_CALL) == (Voter(4, 3, 0, [A, B, D]), AppendReply(3, true, 0))
  {
    hide AppendEntries;
    assert MergeAsWritten([C, B, D], 3, []) == [C, B, D];
    Takes(Voter(1, 3, 0, [C, B, D]), E_CALL, [C, B, D]);
    Takes(Voter(4, 3, 0, []), F_CALL, [A, B, D]);
  }

  lemma ThirdCounts(leader: Node)
    requires leader == THIRD.(logs := [A, B, D], nextIndex := [3, 4, 3, 3, 1], matchIndex := [0, 3, 0, 0, 0],
                              appendNums := [1, 2, 1])
    ensures var ok := AppendReply(3, true, 0);
            AppendReplied(AppendReplied(leader, AppendCall(0, 1, 2, E_CALL), ok), AppendCall(0, 4, 2, F_CALL), ok)
            == leader.(commitIndex := 3, nextIndex := [3, 4, 3, 3, 4], matchIndex := [0, 3, 0, 0, 3],
                       appendNums := [1, 2, 0])
  {
    var leader' := AppendReplied(leader, AppendCall(0, 1, 2, E_CALL), AppendReply(3, true, 0));
    assert leader' == leader.(appendNums := [1, 2, 2]);
  }

  /** Its answers commit all three entries. */
  lemma TermThreeCommits() returns (states: seq<Cluster>, steps: seq<Step>)
    ensures Plays(5, true, states, steps)
    ensures Now(states).nodes == [
              THIRD.(logs := [A, B, D], commitIndex := 3, nextIndex := [3, 4, 3, 3, 4], matchIndex := [0, 3, 0, 0, 3],
                     appendNums := [1, 2, 0]),
              Voter(1, 3, 0, [C, B, D]), SECOND, Voter(3, 2, 2, [C]), Voter(4, 3, 0, [A, B, D])]
  {
    hide IsRun, Shape, AppendEntries, AppendReplied;
    states, steps := TermThreeRound();
    ThirdTakes();
    ThirdCounts(Now(states).nodes[0]);
    states, steps := Replicate(5, true, states, steps, AppendCall(0, 1, 2, E_CALL));
    states, steps := Replicate(5, true, states, steps, AppendCall(0, 4, 2, F_CALL));
  }

  lemma BothApply() returns (states: seq<Cluster>, steps: seq<Step>)
    ensures Plays(5, true, states, steps)
    ensures var nodes := Now(states).nodes;
            && nodes[0].status.Leader? && nodes[0].currentTerm == 3 && nodes[0].logs == [A, B, D]
            && nodes[0].emitted == [ApplyMsg(1, "a"), ApplyMsg(2, "b"), ApplyMsg(3, "d")]
            && nodes[1].logs == [C, B, D]
            && nodes[2].currentTerm == 2 && nodes[2].commitIndex == 1 && nodes[2].logs == [C]
            && nodes[2].emitted == [ApplyMsg(1, "c")]
  {
    hide IsRun, Shape;
    states, steps := TermThreeCommits();
    states, steps := Hand(5, true, states, steps, 0);
    states, steps := Hand(5, true, states, steps, 2);
  }

  /** The merge as written breaks all three safety properties, within one run. */
  lemma AsWrittenIsUnsafe() returns (states: seq<Cluster>, steps: seq<Step>, x: ApplyMsg, y: ApplyMsg)
    ensures IsRun(AsWritten, 5, states, steps) && forall k :: 0 <= k < |steps| ==> SnapshotFree(steps[k])
    ensures !LogsMatch(states)
    ensures var nodes := states[|steps|].nodes;
            && |nodes| == 5
            // the logs of nodes 0 and 1 share an entry behind one they differ in
            && !Match(nodes[0].logs, nodes[1].logs)
            // node 2 has committed an entry that the leader of a later term does not have
            && nodes[0].status.Leader? && nodes[2].currentTerm < nodes[0].currentTerm
            && nodes[2].commitIndex == |nodes[2].logs| == 1 && !(nodes[2].logs <= nodes[0].logs)
            // and the two have applied different commands at index 1
            && x in nodes[0].emitted && y in nodes[2].emitted && x.index == y.index && x.command != y.command
  {
    states, steps := BothApply();
    hide IsRun, Shape;
    var nodes := states[|steps|].nodes;
    x, y := nodes[0].emitted[0], nodes[2].emitted[0];
    assert [A, B, D][1] == [C, B, D][1] && [A, B, D][..2][0] != [C, B, D][..2][0];
    assert !Match(nodes[0].logs, nodes[1].logs);
    assert nodes[2].logs[0] != nodes[0].logs[0];
    assert x.command[0] != y.command[0];
  }
}
