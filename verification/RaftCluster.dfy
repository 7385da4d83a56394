/** A cluster of Raft nodes and a network that may lose, delay, reorder and repeat messages.
    Every locked region of raft.cpp is one step. */
module RaftCluster {
  import opened RaftTypes
  import opened RaftNode

  /** Calls and replies are never forgotten, so any of them may be delivered late or more than
      once; a call or reply that is never delivered is lost.  Only the *sender* is restricted: it
      blocks on a call, so it handles at most one reply to it. */
  datatype Cluster = Cluster(
    nodes: seq<Node>,
    voteCalls: set<VoteCall>,
    voteReplies: set<(VoteCall, VoteReply)>,
    votesHandled: set<VoteCall>,
    appendCalls: set<AppendCall>,
    appendReplies: set<(AppendCall, AppendReply)>,
    appendsHandled: set<AppendCall>,
    snapCalls: set<SnapCall>,
    snapReplies: set<(SnapCall, int)>)

  datatype Step =
    | ElectionStep(n: nat)
    | VoteDelivery(vote: VoteCall)
    | VoteAnswer(vote: VoteCall, voteReply: VoteReply)
    | HeartBeatStep(n: nat)
    | AppendDelivery(append: AppendCall)
    | AppendAnswer(append: AppendCall, appendReply: AppendReply)
    | StartStep(n: nat, command: string)
    | ApplyStep(n: nat)
    | SnapshotStep(n: nat, index: int)
    | SnapshotSend(n: nat, to: nat)
    | SnapDelivery(snap: SnapCall)
    | SnapAnswer(snap: SnapCall, snapReplyTerm: int)

  function InitCluster(n: nat): Cluster {
    Cluster(seq(n, i requires 0 <= i < n => InitNode(i, n)), {}, {}, {}, {}, {}, {}, {}, {})
  }

  // ---------------------------------------------------------------------------------------
  // What every state satisfies: enough for each handler to be defined
  // ---------------------------------------------------------------------------------------

  ghost predicate NodesShaped(s: Cluster) {
    forall i :: 0 <= i < |s.nodes| ==>
      Shaped(s.nodes[i]) && s.nodes[i].me == i && s.nodes[i].peers == |s.nodes|
  }

  ghost predicate VoteCallShape(s: Cluster, call: VoteCall) {
    && call.from < |s.nodes| && call.to < |s.nodes| && call.from != call.to
    && call.args.term in s.nodes[call.from].votedNums
    && call.args.candidateId == call.from
    && 0 <= call.args.term
  }

  ghost predicate AppendCallShape(s: Cluster, call: AppendCall) {
    && call.from < |s.nodes| && call.to < |s.nodes| && call.from != call.to
    && call.round < |s.nodes[call.from].appendNums|
    && call.args.WellFormed()
    && 0 <= call.args.term
  }

  ghost predicate SnapCallShape(s: Cluster, call: SnapCall) {
    && call.from < |s.nodes| && call.to < |s.nodes| && call.from != call.to
    && 0 <= call.args.term
  }

  ghost predicate Shape(s: Cluster) {
    && NodesShaped(s)
    && (forall call :: call in s.voteCalls ==> VoteCallShape(s, call))
    && (forall call :: call in s.appendCalls ==> AppendCallShape(s, call))
    && (forall call :: call in s.snapCalls ==> SnapCallShape(s, call))
    && (forall r :: r in s.voteReplies ==> r.0 in s.voteCalls)
    && (forall r :: r in s.appendReplies ==> r.0 in s.appendCalls)
    && (forall r :: r in s.snapReplies ==> r.0 in s.snapCalls)
  }

  // ---------------------------------------------------------------------------------------
  // Steps
  // ---------------------------------------------------------------------------------------

  /** Where a handler asserts something the model has not proved for all runs, the process would
      end instead of taking the step, so the step is not enabled. */
  ghost predicate Enabled(s: Cluster, step: Step)
    requires Shape(s)
  {
    match step
    case ElectionStep(n) => n < |s.nodes|
    case VoteDelivery(call) => call in s.voteCalls
    case VoteAnswer(call, reply) => (call, reply) in s.voteReplies && call !in s.votesHandled
    case HeartBeatStep(n) => n < |s.nodes| && CanHeartBeat(s.nodes[n])
    case AppendDelivery(call) => call in s.appendCalls
    case AppendAnswer(call, reply) => (call, reply) in s.appendReplies && call !in s.appendsHandled
    case StartStep(n, _) => n < |s.nodes|
    case ApplyStep(n) => n < |s.nodes| && s.nodes[n].commitIndex <= LastIndex(s.nodes[n])
    case SnapshotStep(n, _) => n < |s.nodes| && s.nodes[n].commitIndex <= LastIndex(s.nodes[n])
    case SnapshotSend(n, to) => n < |s.nodes| && to < |s.nodes| && n != to
    case SnapDelivery(call) => call in s.snapCalls
    case SnapAnswer(call, term) => (call, term) in s.snapReplies
  }

  /** The node a step runs on. */
  function Actor(step: Step): nat {
    match step
    case VoteDelivery(call) => call.to
    case VoteAnswer(call, _) => call.from
    case AppendDelivery(call) => call.to
    case AppendAnswer(call, _) => call.from
    case SnapDelivery(call) => call.to
    case SnapAnswer(call, _) => call.from
    case _ => step.n
  }

  /** The actor's new state. */
  ghost function NewNode(m: Merge, s: Cluster, step: Step): Node
    requires Shape(s) && Enabled(s, step)
  {
    var nd := s.nodes[Actor(step)];
    match step
    case ElectionStep(n) => Election(nd)
    case VoteDelivery(call) => RequestVote(nd, call.args).0
    case VoteAnswer(call, reply) => VoteReplied(nd, call, reply)
    case HeartBeatStep(n) => HeartBeat(nd)
    case AppendDelivery(call) => AppendEntries(m, nd, call.args).0
    case AppendAnswer(call, reply) => AppendReplied(nd, call, reply)
    case StartStep(n, command) => Start(nd, command)
    case ApplyStep(n) => ApplyLogs(nd)
    case SnapshotStep(n, index) => Snapshot(nd, index)
    case SnapshotSend(n, to) => nd
    case SnapDelivery(call) => InstallSnapshot(nd, call.args).0
    case SnapAnswer(call, term) => SnapReplied(nd, call, term)
  }

  ghost function Apply(m: Merge, s: Cluster, step: Step): Cluster
    requires Shape(s) && Enabled(s, step)
  {
    var nd := s.nodes[Actor(step)];
    var s1 := s.(nodes := s.nodes[Actor(step) := NewNode(m, s, step)]);
    match step
    case ElectionStep(n) => s1.(voteCalls := s.voteCalls + ElectionCalls(nd))
    case VoteDelivery(call) =>
      s1.(voteReplies := s.voteReplies + {(call, RequestVote(nd, call.args).1)})
    case VoteAnswer(call, reply) => s1.(votesHandled := s.votesHandled + {call})
    case HeartBeatStep(n) => s1.(appendCalls := s.appendCalls + HeartBeatCalls(nd))
    case AppendDelivery(call) =>
      s1.(appendReplies := s.appendReplies + {(call, AppendEntries(m, nd, call.args).1)})
    case AppendAnswer(call, reply) => s1.(appendsHandled := s.appendsHandled + {call})
    case SnapshotSend(n, to) => s1.(snapCalls := s.snapCalls + {SnapCall(n, to, SnapshotArgs(nd))})
    case SnapDelivery(call) =>
      s1.(snapReplies := s.snapReplies + {(call, InstallSnapshot(nd, call.args).1)})
    case _ => s1
  }

  // ---------------------------------------------------------------------------------------
  // Runs
  // ---------------------------------------------------------------------------------------

  /** states[k] to states[k+1] is steps[k]. */
  ghost predicate IsRun(m: Merge, n: nat, states: seq<Cluster>, steps: seq<Step>) {
    && |states| == |steps| + 1
    && states[0] == InitCluster(n)
    && forall k :: 0 <= k < |steps| ==> IsStep(m, states[k], steps[k], states[k + 1])
  }

  ghost predicate IsStep(m: Merge, s: Cluster, step: Step, s': Cluster) {
    Shape(s) && Enabled(s, step) && s' == Apply(m, s, step)
  }

  predicate SnapshotFree(step: Step) {
    !step.SnapshotStep? && !step.SnapshotSend?
  }

  // ---------------------------------------------------------------------------------------
  // Shape is kept by every step, so IsStep's demand for it excludes no run
  // ---------------------------------------------------------------------------------------

  lemma InitShape(n: nat)
    ensures Shape(InitCluster(n))
  {
  }

  lemma NewNodeFollows(m: Merge, s: Cluster, step: Step)
    requires Shape(s) && Enabled(s, step)
    ensures Shaped(NewNode(m, s, step)) && Follows(s.nodes[Actor(step)], NewNode(m, s, step))
  {
    var nd := s.nodes[Actor(step)];
    match step
    case ElectionStep(_) => ElectionFollows(nd);
    case VoteDelivery(call) => RequestVoteFollows(nd, call.args);
    case VoteAnswer(call, reply) => VoteRepliedFollows(nd, call, reply);
    case HeartBeatStep(_) => HeartBeatFollows(nd);
    case AppendDelivery(call) => AppendEntriesFollows(m, nd, call.args);
    case AppendAnswer(call, reply) => AppendRepliedFollows(nd, call, reply);
    case StartStep(_, command) => StartFollows(nd, command);
    case ApplyStep(_) => ApplyLogsFollows(nd);
    case SnapshotStep(_, index) => SnapshotFollows(nd, index);
    case SnapshotSend(_, _) =>
    case SnapDelivery(call) => InstallSnapshotFollows(nd, call.args);
    case SnapAnswer(call, term) => SnapRepliedFollows(nd, call, term);
  }

  lemma HeartBeatCallShapes(s: Cluster, n: nat, s': Cluster)
    requires Shape(s) && Enabled(s, HeartBeatStep(n))
    requires |s'.nodes| == |s.nodes| && s'.nodes[n] == HeartBeat(s.nodes[n])
    ensures forall call :: call in HeartBeatCalls(s.nodes[n]) ==> AppendCallShape(s', call)
  {
    var nd := s.nodes[n];
    forall call | call in HeartBeatCalls(nd)
      ensures AppendCallShape(s', call)
    {
      var prev := nd.nextIndex[call.to] - 1;
      assert call.args.entries == nd.logs[prev - nd.snapIndex..];
    }
  }

  lemma ElectionCallShapes(s: Cluster, n: nat, s': Cluster)
    requires Shape(s) && Enabled(s, ElectionStep(n))
    requires |s'.nodes| == |s.nodes| && s'.nodes[n] == Election(s.nodes[n])
    ensures forall call :: call in ElectionCalls(s.nodes[n]) ==> VoteCallShape(s', call)
  {
  }

  /** A step changes no node but its actor. */
  lemma OnlyActorMoves(m: Merge, s: Cluster, step: Step, s': Cluster)
    requires IsStep(m, s, step, s')
    ensures Actor(step) < |s.nodes| && s'.nodes == s.nodes[Actor(step) := NewNode(m, s, step)]
  {
  }

  /** Calls and replies already there keep their shape as nodes move on. */
  lemma OldCallsShaped(s: Cluster, s': Cluster)
    requires Shape(s) && |s'.nodes| == |s.nodes|
    requires forall i :: 0 <= i < |s.nodes| ==> Follows(s.nodes[i], s'.nodes[i])
    ensures forall call :: call in s.voteCalls ==> VoteCallShape(s', call)
    ensures forall call :: call in s.appendCalls ==> AppendCallShape(s', call)
    ensures forall call :: call in s.snapCalls ==> SnapCallShape(s', call)
  {
    forall call | call in s.voteCalls
      ensures VoteCallShape(s', call)
    {
      assert VoteCallShape(s, call);
    }
    forall call | call in s.appendCalls
      ensures AppendCallShape(s', call)
    {
      assert AppendCallShape(s, call);
    }
    forall call | call in s.snapCalls
      ensures SnapCallShape(s', call)
    {
      assert SnapCallShape(s, call);
    }
  }

  /** New calls come from heartbeats, elections and snapshots only. */
  lemma NewCallsShaped(m: Merge, s: Cluster, step: Step, s': Cluster)
    requires IsStep(m, s, step, s') && |s'.nodes| == |s.nodes|
    ensures forall call :: call in s'.voteCalls && call !in s.voteCalls ==> VoteCallShape(s', call)
    ensures forall call :: call in s'.appendCalls && call !in s.appendCalls ==> AppendCallShape(s', call)
    ensures forall call :: call in s'.snapCalls && call !in s.snapCalls ==> SnapCallShape(s', call)
  {
    hide VoteCallShape, AppendCallShape, ElectionCalls, HeartBeatCalls, CanHeartBeat;
    if step.HeartBeatStep? {
      HeartBeatCallShapes(s, step.n, s');
    } else if step.ElectionStep? {
      ElectionCallShapes(s, step.n, s');
    }
  }

  lemma NodesKeepShape(m: Merge, s: Cluster, step: Step, s': Cluster)
    requires IsStep(m, s, step, s')
    ensures NodesShaped(s') && |s'.nodes| == |s.nodes|
    ensures forall i :: 0 <= i < |s.nodes| ==> Follows(s.nodes[i], s'.nodes[i])
  {
    hide NewNode, Indexed, VoteCallShape, AppendCallShape, SnapCallShape;
    NewNodeFollows(m, s, step);
    OnlyActorMoves(m, s, step, s');
  }

  lemma StepKeepsShape(m: Merge, s: Cluster, step: Step, s': Cluster)
    requires IsStep(m, s, step, s')
    ensures Shape(s')
  {
    hide NodesShaped, VoteCallShape, AppendCallShape, SnapCallShape, NewNode;
    NodesKeepShape(m, s, step, s');
    OldCallsShaped(s, s');
    NewCallsShaped(m, s, step, s');
  }

  lemma {:induction false} RunShaped(m: Merge, n: nat, states: seq<Cluster>, steps: seq<Step>, k: nat)
    requires IsRun(m, n, states, steps)
    requires k <= |steps|
    ensures Shape(states[k]) && |states[k].nodes| == n
  {
    if k == 0 {
      InitShape(n);
    } else {
      RunShaped(m, n, states, steps, k - 1);
      assert IsStep(m, states[k - 1], steps[k - 1], states[k]);
      StepKeepsShape(m, states[k - 1], steps[k - 1], states[k]);
    }
  }

  /** However a run has gone so far: any node may stand or take a command, any message ever sent may arrive,
      again or for the first time, and any answer to a call whose sender still waits may be handled. */
  lemma AnythingMayArrive(m: Merge, n: nat, states: seq<Cluster>, steps: seq<Step>)
    requires IsRun(m, n, states, steps)
    ensures var s := states[|steps|];
            && Shape(s) && |s.nodes| == n
            && (forall i :: 0 <= i < n ==> Enabled(s, ElectionStep(i)))
            && (forall i, command :: 0 <= i < n ==> Enabled(s, StartStep(i, command)))
            && (forall call :: call in s.voteCalls ==> Enabled(s, VoteDelivery(call)))
            && (forall call :: call in s.appendCalls ==> Enabled(s, AppendDelivery(call)))
            && (forall call :: call in s.snapCalls ==> Enabled(s, SnapDelivery(call)))
            && (forall r :: r in s.voteReplies && r.0 !in s.votesHandled ==> Enabled(s, VoteAnswer(r.0, r.1)))
            && (forall r :: r in s.appendReplies && r.0 !in s.appendsHandled ==> Enabled(s, AppendAnswer(r.0, r.1)))
            && (forall r :: r in s.snapReplies ==> Enabled(s, SnapAnswer(r.0, r.1)))
  {
    RunShaped(m, n, states, steps, |steps|);
  }
}
