/** Index bounds and the apply stream, in every run of the code as written, with snapshots. */
module RaftIndex {
  import opened RaftTypes
  import opened RaftNode
  import opened RaftCluster
  import opened RaftElection
  import opened RaftEvidence

  // ---------------------------------------------------------------------------------------
  // Commit and apply indices stay inside the log
  // ---------------------------------------------------------------------------------------

  ghost predicate Bounded(nd: Node) {
    Indexed(nd) && nd.commitIndex <= LastIndex(nd) && nd.lastApplied <= LastIndex(nd)
  }

  /** Every message covers what its sender had committed when it sent it. */
  ghost predicate CommitsCovered(s: Cluster) {
    forall call :: call in s.appendCalls ==> call.args.leaderCommit <= call.args.End()
  }

  ghost predicate IndexInv(s: Cluster) {
    (forall i :: 0 <= i < |s.nodes| ==> Bounded(s.nodes[i])) && CommitsCovered(s)
  }

  /** A message that covers what its sender had committed: the minimum taken at raft.cpp:134 is the
      leader's commit index. */
  lemma AdoptedCommit(nd: Node, a: AppendArgs)
    requires Shaped(nd) && Bounded(nd) && a.WellFormed() && a.leaderCommit <= a.End()
    requires AcceptsAppend(nd, a)
    ensures var nd' := AppendEntries(AsWritten, nd, a).0;
            && nd'.commitIndex == Max(nd.commitIndex, a.leaderCommit)
            && Indexed(nd') && LastIndex(nd') == Max(LastIndex(nd), a.End())
  {
    AppendEntriesFollows(AsWritten, nd, a);
  }

  lemma DeliveryBounded(nd: Node, a: AppendArgs)
    requires Shaped(nd) && Bounded(nd) && a.WellFormed() && a.leaderCommit <= a.End()
    ensures var nd' := AppendEntries(AsWritten, nd, a).0; Bounded(nd') && LastIndex(nd) <= LastIndex(nd')
  {
    if AcceptsAppend(nd, a) {
      AdoptedCommit(nd, a);
    }
  }

  lemma AnswerBounded(s: Cluster, b: Ballots, r: Rounds, call: AppendCall, reply: AppendReply)
    requires RoundInv(s, b, r) && Enabled(s, AppendAnswer(call, reply))
    requires call.from < |s.nodes| && Bounded(s.nodes[call.from])
    ensures var nd := s.nodes[call.from]; var nd' := NewNode(AsWritten, s, AppendAnswer(call, reply));
            Bounded(nd') && LastIndex(nd) <= LastIndex(nd')
  {
    assert AppendCallShape(s, call);
    var nd, nd' := s.nodes[call.from], AppendReplied(s.nodes[call.from], call, reply);
    if nd'.commitIndex > nd.commitIndex {
      CounterCommit(s, b, r, call, reply);
    }
  }

  lemma SnapshotBounded(nd: Node, index: int)
    requires Shaped(nd) && Bounded(nd)
    ensures Bounded(Snapshot(nd, index)) && LastIndex(nd) <= LastIndex(Snapshot(nd, index))
  {
    SnapshotFollows(nd, index);
  }

  lemma InstallBounded(nd: Node, a: SnapArgs)
    requires Shaped(nd) && Bounded(nd)
    ensures Bounded(InstallSnapshot(nd, a).0) && LastIndex(nd) <= LastIndex(InstallSnapshot(nd, a).0)
  {
    InstallSnapshotFollows(nd, a);
  }

  lemma StepKeepsBounds(s: Cluster, b: Ballots, r: Rounds, step: Step)
    requires RoundInv(s, b, r) && Shape(s) && Enabled(s, step) && IndexInv(s)
    ensures var nd, nd' := s.nodes[Actor(step)], NewNode(AsWritten, s, step);
            Bounded(nd') && LastIndex(nd) <= LastIndex(nd')
  {
    hide RoundInv;
    match step
    case AppendDelivery(call) =>
      assert AppendCallShape(s, call);
      DeliveryBounded(s.nodes[call.to], call.args);
    case AppendAnswer(call, reply) =>
      assert AppendCallShape(s, call);
      AnswerBounded(s, b, r, call, reply);
    case SnapshotStep(n, index) => SnapshotBounded(s.nodes[n], index);
    case SnapDelivery(call) =>
      assert SnapCallShape(s, call);
      InstallBounded(s.nodes[call.to], call.args);
    case _ => OthersBounded(s, step);
  }

  lemma OthersBounded(s: Cluster, step: Step)
    requires Shape(s) && Enabled(s, step) && IndexInv(s)
    requires !step.AppendDelivery? && !step.AppendAnswer? && !step.SnapshotStep? && !step.SnapDelivery?
    ensures var nd, nd' := s.nodes[Actor(step)], NewNode(AsWritten, s, step);
            Bounded(nd') && LastIndex(nd) <= LastIndex(nd')
  {
    if step.VoteDelivery? || step.VoteAnswer? {
      assert VoteCallShape(s, step.vote);
    } else if step.SnapAnswer? {
      assert SnapCallShape(s, step.snap);
    }
  }

  lemma HeartBeatCovers(nd: Node)
    requires Shaped(nd) && Bounded(nd) && CanHeartBeat(nd)
    ensures forall call :: call in HeartBeatCalls(nd) ==> call.args.leaderCommit <= call.args.End()
  {
    if nd.status.Leader? {
      HeartBeatCallsAgree(nd);
    }
  }

  lemma StepKeepsIndices(s: Cluster, b: Ballots, r: Rounds, step: Step, s': Cluster)
    requires RoundInv(s, b, r) && IsStep(AsWritten, s, step, s') && IndexInv(s)
    ensures IndexInv(s')
    ensures |s'.nodes| == |s.nodes|
    ensures forall i :: 0 <= i < |s.nodes| ==> LastIndex(s.nodes[i]) <= LastIndex(s'.nodes[i])
  {
    StepKeepsBounds(s, b, r, step);
    OnlyActorMoves(AsWritten, s, step, s');
    hide RoundInv;
    if step.HeartBeatStep? {
      HeartBeatCovers(s.nodes[step.n]);
    }
    hide NewNode, Bounded, LastIndex;
  }

  ghost predicate IndexTrace(states: seq<Cluster>, k: nat) {
    && k < |states|
    && (forall j :: 0 <= j <= k ==> IndexInv(states[j]) && |states[j].nodes| == |states[0].nodes|)
    && (forall i, j, l :: 0 <= j <= l <= k && 0 <= i < |states[0].nodes| ==>
          LastIndex(states[j].nodes[i]) <= LastIndex(states[l].nodes[i]))
  }

  lemma ExtendIndices(s: Cluster, b: Ballots, r: Rounds, step: Step, states: seq<Cluster>, k: nat)
    requires IndexTrace(states, k) && k + 1 < |states| && s == states[k]
    requires RoundInv(s, b, r) && IsStep(AsWritten, s, step, states[k + 1])
    ensures IndexTrace(states, k + 1)
  {
    StepKeepsIndices(s, b, r, step, states[k + 1]);
    hide RoundInv, IsStep, LastIndex, CommitsCovered;
    forall i, j | 0 <= j <= k && 0 <= i < |states[0].nodes|
      ensures LastIndex(states[j].nodes[i]) <= LastIndex(states[k + 1].nodes[i])
    {
      assert LastIndex(states[j].nodes[i]) <= LastIndex(states[k].nodes[i]);
    }
  }

  lemma InitIndices(n: nat, states: seq<Cluster>, steps: seq<Step>)
    requires IsRun(AsWritten, n, states, steps)
    ensures IndexTrace(states, 0)
  {
    hide IsStep;
  }

  lemma {:induction false} RunHasIndices(n: nat, states: seq<Cluster>, steps: seq<Step>, k: nat)
    requires IsRun(AsWritten, n, states, steps) && k <= |steps|
    ensures IndexTrace(states, k)
  {
    hide IndexTrace, Shape, RoundInv, Enabled, Apply;
    if k == 0 {
      InitIndices(n, states, steps);
    } else {
      RunHasIndices(n, states, steps, k - 1);
      var bs := RunHasBallots(AsWritten, n, states, steps);
      TraceStart(AsWritten, states, steps, bs);
      var rs := RunHasRounds(AsWritten, states, steps, bs, n, k - 1);
      assert IsStep(AsWritten, states[k - 1], steps[k - 1], states[k - 1 + 1]);
      ExtendIndices(states[k - 1], bs[k - 1], rs[k - 1], steps[k - 1], states, k - 1);
    }
  }

  /** In every run of the code as written, with snapshots and any message order: log slots carry
      consecutive indices, the snapshot index bounds the commit and apply indices from below and the
      last log index bounds them from above, and the last log index never decreases.  So the bounds
      assertions of getApplyLogs and Snapshot cannot fire, nor those of the index helpers where a
      node looks up its own snapshot, commit or apply index.  What doHeartBeat looks up hangs on
      nextIndex, which RaftBacktrack follows. */
  lemma IndexBounds(n: nat, states: seq<Cluster>, steps: seq<Step>, j: nat, k: nat, i: nat)
    requires IsRun(AsWritten, n, states, steps) && j <= k <= |steps| && i < n
    ensures i < |states[j].nodes| && i < |states[k].nodes|
    ensures var nd, nd' := states[j].nodes[i], states[k].nodes[i];
            && Indexed(nd) && Indexed(nd')
            && 0 <= nd'.snapIndex <= nd'.commitIndex <= LastIndex(nd')
            && nd'.snapIndex <= nd'.lastApplied <= LastIndex(nd')
            && LastIndex(nd) <= LastIndex(nd')
  {
    RunHasIndices(n, states, steps, k);
    RunShaped(AsWritten, n, states, steps, k);
    assert Bounded(states[j].nodes[i]) && Bounded(states[k].nodes[i]);
  }

  /** In every run of the code as written, with snapshots: a message never claims more committed than
      it covers, because doHeartBeat ships to the end of a log that bounds its commit index.  So a
      follower that accepts it takes over exactly the leader's commit index if that is higher, and
      never commits past prevLogIndex plus the entries received; one that rejects it commits nothing. */
  lemma FollowerCommit(n: nat, states: seq<Cluster>, steps: seq<Step>, k: nat, call: AppendCall)
    requires IsRun(AsWritten, n, states, steps) && k < |steps| && steps[k] == AppendDelivery(call)
    ensures call.to < |states[k].nodes| && call.to < |states[k + 1].nodes|
    ensures Indexed(states[k].nodes[call.to]) && Indexed(states[k + 1].nodes[call.to])
    ensures var nd, nd', a := states[k].nodes[call.to], states[k + 1].nodes[call.to], call.args;
            if AcceptsAppend(nd, a) then
              && a.leaderCommit <= a.End() <= LastIndex(nd')
              && nd'.commitIndex == Max(nd.commitIndex, a.leaderCommit)
              && (nd'.commitIndex != nd.commitIndex ==> nd'.commitIndex <= a.End())
            else nd'.commitIndex == nd.commitIndex && nd'.logs == nd.logs
  {
    RunHasIndices(n, states, steps, k);
    hide Bounded, LastIndex;
    assert IsStep(AsWritten, states[k], steps[k], states[k + 1]);
    assert AppendCallShape(states[k], call) && IndexInv(states[k]);
    StepKeepsShape(AsWritten, states[k], steps[k], states[k + 1]);
    if AcceptsAppend(states[k].nodes[call.to], call.args) {
      AdoptedCommit(states[k].nodes[call.to], call.args);
    }
  }

  /** The applier and the snapshotter can always take their step. */
  lemma ApplyNeverBlocked(n: nat, states: seq<Cluster>, steps: seq<Step>, i: nat, index: int)
    requires IsRun(AsWritten, n, states, steps) && i < n
    ensures Shape(states[|steps|]) && Enabled(states[|steps|], ApplyStep(i))
    ensures Enabled(states[|steps|], SnapshotStep(i, index))
  {
    RunShaped(AsWritten, n, states, steps, |steps|);
    IndexBounds(n, states, steps, |steps|, |steps|, i);
  }

  // ---------------------------------------------------------------------------------------
  // The commit index may drop
  // ---------------------------------------------------------------------------------------

  /** leaderUpdateCommitIndex restarts from the snapshot index, so Start lowers a leader's commit
      index exactly when nothing from the old commit index up is committable. */
  lemma CommitDropsExactly(nd: Node, command: string)
    requires Shaped(nd) && Bounded(nd) && nd.status.Leader?
    ensures var n1 := Appended(nd, command);
            Start(nd, command).commitIndex < nd.commitIndex <==>
            nd.snapIndex < nd.commitIndex
            && forall k :: nd.commitIndex <= k <= LastIndex(n1) ==> !Committable(n1, k)
  {
  }

  /** A new leader in a cluster of more than one loses its whole commit index at its first Start. */
  lemma FirstStartDrops(nd: Node, command: string)
    requires Shaped(nd) && Bounded(nd) && nd.peers > 1 && !nd.status.Leader?
    ensures Start(BecomeLeader(nd), command).commitIndex == nd.snapIndex
  {
    var n1 := Appended(BecomeLeader(nd), command);
    forall k | nd.snapIndex < k <= LastIndex(n1)
      ensures !Committable(n1, k)
    {
      assert Matching(n1, k) == {n1.me};
    }
  }

  // ---------------------------------------------------------------------------------------
  // The apply stream
  // ---------------------------------------------------------------------------------------

  ghost predicate Emitted(nd: Node, index: int) {
    exists a :: 0 <= a < |nd.emitted| && nd.emitted[a].index == index
  }

  /** Strictly increasing, up to lastApplied, and complete above the snapshot. */
  ghost predicate Stream(nd: Node) {
    && (forall a, b :: 0 <= a < b < |nd.emitted| ==> nd.emitted[a].index < nd.emitted[b].index)
    && (forall a :: 0 <= a < |nd.emitted| ==> 1 <= nd.emitted[a].index <= nd.lastApplied)
    && (forall i :: nd.snapIndex < i <= nd.lastApplied ==> Emitted(nd, i))
  }

  lemma ApplyKeepsStream(nd: Node)
    requires Shaped(nd) && nd.commitIndex <= LastIndex(nd) && Stream(nd)
    ensures Stream(ApplyLogs(nd)) && nd.emitted <= ApplyLogs(nd).emitted
  {
    var nd' := ApplyLogs(nd);
    forall i | nd'.snapIndex < i <= nd'.lastApplied
      ensures Emitted(nd', i)
    {
      if i <= nd.lastApplied {
        assert Emitted(nd, i);
        var a :| 0 <= a < |nd.emitted| && nd.emitted[a].index == i;
        assert nd'.emitted[a].index == i;
      } else {
        assert nd'.emitted[|nd.emitted| + i - nd.lastApplied - 1].index == i;
      }
    }
  }

  /** A node that applies nothing keeps its stream; a snapshot may carry it over a gap. */
  lemma QuietKeepsStream(nd: Node, nd': Node)
    requires Stream(nd) && nd'.emitted == nd.emitted && nd.snapIndex <= nd'.snapIndex
    requires nd.lastApplied <= nd'.lastApplied && nd'.lastApplied == Max(nd.lastApplied, nd'.snapIndex)
    ensures Stream(nd')
  {
    forall i | nd'.snapIndex < i <= nd'.lastApplied
      ensures Emitted(nd', i)
    {
      assert Emitted(nd, i);
    }
  }

  lemma StepKeepsStream(m: Merge, s: Cluster, step: Step)
    requires Shape(s) && Enabled(s, step) && Stream(s.nodes[Actor(step)])
    ensures Stream(NewNode(m, s, step)) && s.nodes[Actor(step)].emitted <= NewNode(m, s, step).emitted
  {
    var nd := s.nodes[Actor(step)];
    NewNodeFollows(m, s, step);
    if step.ApplyStep? {
      ApplyKeepsStream(nd);
    } else {
      OthersApplyNothing(m, s, step);
      hide Shape, Enabled, NewNode, Stream;
      QuietKeepsStream(nd, NewNode(m, s, step));
    }
  }

  lemma OthersApplyNothing(m: Merge, s: Cluster, step: Step)
    requires Shape(s) && Enabled(s, step) && !step.ApplyStep?
    ensures var nd, nd' := s.nodes[Actor(step)], NewNode(m, s, step);
            nd'.emitted == nd.emitted && nd'.lastApplied == Max(nd.lastApplied, nd'.snapIndex)
  {
  }

  ghost predicate StreamTrace(states: seq<Cluster>, k: nat) {
    && k < |states|
    && (forall j :: 0 <= j <= k ==> |states[j].nodes| == |states[0].nodes|)
    && (forall i, j :: 0 <= j <= k && 0 <= i < |states[0].nodes| ==> Stream(states[j].nodes[i]))
    && (forall i, j, l :: 0 <= j <= l <= k && 0 <= i < |states[0].nodes| ==>
          states[j].nodes[i].emitted <= states[l].nodes[i].emitted)
  }

  lemma {:induction false} RunHasStreams(m: Merge, n: nat, states: seq<Cluster>, steps: seq<Step>, k: nat)
    requires IsRun(m, n, states, steps) && k <= |steps|
    ensures StreamTrace(states, k)
  {
    hide Shape, Enabled, NewNode, Apply, Stream;
    if k == 0 {
      InitStreams(n);
    } else {
      RunHasStreams(m, n, states, steps, k - 1);
      assert IsStep(m, states[k - 1], steps[k - 1], states[k - 1 + 1]);
      ExtendStreams(m, steps[k - 1], states, k - 1);
    }
  }

  lemma InitStreams(n: nat)
    ensures forall i :: 0 <= i < n ==> Stream(InitCluster(n).nodes[i])
  {
  }

  lemma ExtendStreams(m: Merge, step: Step, states: seq<Cluster>, k: nat)
    requires StreamTrace(states, k) && k + 1 < |states| && IsStep(m, states[k], step, states[k + 1])
    ensures StreamTrace(states, k + 1)
  {
    hide Shape, Enabled, NewNode, Apply, Stream;
    OnlyActorMoves(m, states[k], step, states[k + 1]);
    StepKeepsStream(m, states[k], step);
    forall i, j | 0 <= j <= k && 0 <= i < |states[0].nodes|
      ensures states[j].nodes[i].emitted <= states[k + 1].nodes[i].emitted
    {
      assert states[j].nodes[i].emitted <= states[k].nodes[i].emitted <= states[k + 1].nodes[i].emitted;
    }
  }

  /** Over any run, with either merge, with snapshots, and whatever leaderUpdateCommitIndex does to
      the commit index: a node's apply stream only grows, its indices strictly increase, so none is
      ever repeated, and every index up to lastApplied that no snapshot covers has been emitted. */
  lemma ApplyStream(m: Merge, n: nat, states: seq<Cluster>, steps: seq<Step>, j: nat, k: nat, i: nat)
    requires IsRun(m, n, states, steps) && j <= k <= |steps| && i < n
    ensures i < |states[j].nodes| && i < |states[k].nodes|
    ensures states[j].nodes[i].emitted <= states[k].nodes[i].emitted
    ensures Stream(states[k].nodes[i])
    ensures var msgs := states[k].nodes[i].emitted;
            forall a :: 0 <= a < |msgs| - 1 && msgs[a + 1].index != msgs[a].index + 1 ==>
              msgs[a + 1].index <= states[k].nodes[i].snapIndex + 1
  {
    RunHasStreams(m, n, states, steps, k);
    var nd := states[k].nodes[i];
    forall a | 0 <= a < |nd.emitted| - 1 && nd.emitted[a + 1].index > nd.snapIndex + 1
      ensures nd.emitted[a + 1].index == nd.emitted[a].index + 1
    {
      NoGapAboveSnapshot(nd, a);
    }
  }

  /** In every run, with either merge and with snapshots: once a node of whatever status has run getApplyLogs,
      everything it has committed and no snapshot covers has been handed to its state machine. */
  lemma NothingUnapplied(m: Merge, n: nat, states: seq<Cluster>, steps: seq<Step>, k: nat, i: nat, index: int)
    requires IsRun(m, n, states, steps) && k < |steps| && steps[k] == ApplyStep(i)
    requires i < |states[k + 1].nodes|
    requires states[k + 1].nodes[i].snapIndex < index <= states[k + 1].nodes[i].commitIndex
    ensures Emitted(states[k + 1].nodes[i], index)
  {
    hide Stream, Emitted;
    RunHasStreams(m, n, states, steps, k + 1);
    assert IsStep(m, states[k], steps[k], states[k + 1]);
    OnlyActorMoves(m, states[k], steps[k], states[k + 1]);
    StreamComplete(states[k + 1].nodes[i], index);
  }

  lemma StreamComplete(nd: Node, index: int)
    requires Stream(nd) && nd.snapIndex < index <= nd.lastApplied
    ensures Emitted(nd, index)
  {
  }

  lemma StreamRises(nd: Node, a: nat, b: nat)
    requires Stream(nd) && a < |nd.emitted| && b < |nd.emitted|
    ensures a < b ==> nd.emitted[a].index < nd.emitted[b].index
  {
  }

  lemma NoGapAboveSnapshot(nd: Node, a: nat)
    requires Stream(nd) && a + 1 < |nd.emitted| && nd.emitted[a + 1].index > nd.snapIndex + 1
    ensures nd.emitted[a + 1].index == nd.emitted[a].index + 1
  {
    var g := nd.emitted[a + 1].index - 1;
    assert Emitted(nd, g);
    var c :| 0 <= c < |nd.emitted| && nd.emitted[c].index == g;
    StreamRises(nd, a + 1, c);
    StreamRises(nd, c, a);
    assert c == a;
  }
}
