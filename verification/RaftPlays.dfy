/** How to act out a run of the code as written, move by move. */
module RaftPlays {
  import opened RaftTypes
  import opened RaftNode
  import opened RaftCluster

  /** A run of n nodes so far; without snapshots if `free`. */
  ghost predicate Plays(n: nat, free: bool, states: seq<Cluster>, steps: seq<Step>) {
    && |states| == |steps| + 1
    && IsRun(AsWritten, n, states, steps)
    && (free ==> forall k :: 0 <= k < |steps| ==> SnapshotFree(steps[k]))
    && Shape(states[|steps|]) && |states[|steps|].nodes| == n
  }

  ghost function Now(states: seq<Cluster>): Cluster
    requires |states| > 0
  {
    states[|states| - 1]
  }

  // ---------------------------------------------------------------------------------------
  // Moves
  // ---------------------------------------------------------------------------------------

  lemma Move(n: nat, free: bool, states: seq<Cluster>, steps: seq<Step>, step: Step)
    returns (states': seq<Cluster>, steps': seq<Step>)
    requires Plays(n, free, states, steps) && Enabled(Now(states), step) && (free ==> SnapshotFree(step))
    ensures Plays(n, free, states', steps') && Now(states') == Apply(AsWritten, Now(states), step)
  {
    var s := Now(states);
    var s' := Apply(AsWritten, s, step);
    StepKeepsShape(AsWritten, s, step, s');
    OnlyActorMoves(AsWritten, s, step, s');
    hide Apply, Enabled, Shape;
    states', steps' := states + [s'], steps + [step];
    forall k | 0 <= k < |steps'|
      ensures IsStep(AsWritten, states'[k], steps'[k], states'[k + 1])
    {
      if k < |steps| {
        assert IsStep(AsWritten, states[k], steps[k], states[k + 1]);
      }
    }
  }

  /** Every call that carries these fields has been sent. */
  ghost predicate Asks(s: Cluster, c: nat, a: VoteArgs) {
    forall v: nat :: v < |s.nodes| && v != c ==> VoteCall(c, v, a) in s.voteCalls
  }

  lemma Stand(n: nat, free: bool, states: seq<Cluster>, steps: seq<Step>, c: nat)
    returns (states': seq<Cluster>, steps': seq<Step>)
    requires Plays(n, free, states, steps) && c < n && !Now(states).nodes[c].status.Leader?
    ensures Plays(n, free, states', steps')
    ensures var s, s' := Now(states), Now(states');
            && s'.nodes == s.nodes[c := Election(s.nodes[c])]
            && s'.votesHandled == s.votesHandled && s'.appendsHandled == s.appendsHandled
            && s.appendCalls <= s'.appendCalls && s.voteCalls <= s'.voteCalls
            && Asks(s', c, ElectionArgs(s.nodes[c]))
  {
    var s := Now(states);
    states', steps' := Move(n, free, states, steps, ElectionStep(c));
    forall v: nat | v < n && v != c
      ensures VoteCall(c, v, ElectionArgs(s.nodes[c])) in Now(states').voteCalls
    {
      assert VoteCall(c, v, ElectionArgs(s.nodes[c])) in ElectionCalls(s.nodes[c]);
    }
  }

  lemma AskVote(n: nat, free: bool, states: seq<Cluster>, steps: seq<Step>, call: VoteCall)
    returns (states': seq<Cluster>, steps': seq<Step>)
    requires Plays(n, free, states, steps) && call in Now(states).voteCalls
    ensures Plays(n, free, states', steps') && call.to < n
    ensures var s, s' := Now(states), Now(states');
            && s'.nodes == s.nodes[call.to := RequestVote(s.nodes[call.to], call.args).0]
            && s'.votesHandled == s.votesHandled && s'.appendsHandled == s.appendsHandled
            && s.appendCalls <= s'.appendCalls && s.voteCalls <= s'.voteCalls
            && (call, RequestVote(s.nodes[call.to], call.args).1) in s'.voteReplies
  {
    assert VoteCallShape(Now(states), call);
    states', steps' := Move(n, free, states, steps, VoteDelivery(call));
  }

  /** A request is answered and the answer counted. */
  lemma Vote(n: nat, free: bool, states: seq<Cluster>, steps: seq<Step>, call: VoteCall)
    returns (states': seq<Cluster>, steps': seq<Step>)
    requires Plays(n, free, states, steps) && call in Now(states).voteCalls && call !in Now(states).votesHandled
    ensures Plays(n, free, states', steps')
    ensures call.to < n && call.from < n && call.from != call.to
    ensures var s, s' := Now(states), Now(states');
            && call.args.term in s.nodes[call.from].votedNums
            && var (v, reply) := RequestVote(s.nodes[call.to], call.args);
            && s'.nodes == s.nodes[call.to := v][call.from := VoteReplied(s.nodes[call.from], call, reply)]
            && s'.votesHandled == s.votesHandled + {call} && s'.appendsHandled == s.appendsHandled
            && s.appendCalls <= s'.appendCalls && s.voteCalls <= s'.voteCalls
  {
    var s := Now(states);
    assert VoteCallShape(s, call);
    states', steps' := AskVote(n, free, states, steps, call);
    states', steps' := Move(n, free, states', steps', VoteAnswer(call, RequestVote(s.nodes[call.to], call.args).1));
  }

  lemma Propose(n: nat, free: bool, states: seq<Cluster>, steps: seq<Step>, c: nat, command: string)
    returns (states': seq<Cluster>, steps': seq<Step>)
    requires Plays(n, free, states, steps) && c < n
    ensures Plays(n, free, states', steps')
    ensures var s, s' := Now(states), Now(states');
            && s'.nodes == s.nodes[c := Start(s.nodes[c], command)]
            && s'.votesHandled == s.votesHandled && s'.appendsHandled == s.appendsHandled
            && s.appendCalls <= s'.appendCalls && s.voteCalls <= s'.voteCalls
  {
    states', steps' := Move(n, free, states, steps, StartStep(c, command));
  }

  lemma Beat(n: nat, free: bool, states: seq<Cluster>, steps: seq<Step>, c: nat)
    returns (states': seq<Cluster>, steps': seq<Step>)
    requires Plays(n, free, states, steps) && c < n
    requires var nd := Now(states).nodes[c]; nd.status.Leader? && nd.snapIndex == 0 && CanHeartBeat(nd)
    ensures Plays(n, free, states', steps')
    ensures var s, s' := Now(states), Now(states');
            && s'.nodes == s.nodes[c := HeartBeat(s.nodes[c])]
            && s'.votesHandled == s.votesHandled && s'.appendsHandled == s.appendsHandled
            && s.appendCalls <= s'.appendCalls && s.voteCalls <= s'.voteCalls
            && forall v: nat :: v < n && v != c ==>
                 AppendCall(c, v, |s.nodes[c].appendNums|, HeartBeatArgs(s.nodes[c], v)) in s'.appendCalls
  {
    var s := Now(states);
    states', steps' := Move(n, free, states, steps, HeartBeatStep(c));
    forall v: nat | v < n && v != c
      ensures AppendCall(c, v, |s.nodes[c].appendNums|, HeartBeatArgs(s.nodes[c], v)) in Now(states').appendCalls
    {
      assert AppendCall(c, v, |s.nodes[c].appendNums|, HeartBeatArgs(s.nodes[c], v)) in HeartBeatCalls(s.nodes[c]);
    }
  }

  lemma Deliver(n: nat, free: bool, states: seq<Cluster>, steps: seq<Step>, call: AppendCall)
    returns (states': seq<Cluster>, steps': seq<Step>)
    requires Plays(n, free, states, steps) && call in Now(states).appendCalls
    ensures Plays(n, free, states', steps') && call.to < n
    ensures var s, s' := Now(states), Now(states');
            && s'.nodes == s.nodes[call.to := AppendEntries(AsWritten, s.nodes[call.to], call.args).0]
            && s'.votesHandled == s.votesHandled && s'.appendsHandled == s.appendsHandled
            && s.appendCalls <= s'.appendCalls && s.voteCalls <= s'.voteCalls
            && (call, AppendEntries(AsWritten, s.nodes[call.to], call.args).1) in s'.appendReplies
  {
    assert AppendCallShape(Now(states), call);
    states', steps' := Move(n, free, states, steps, AppendDelivery(call));
  }

  /** A message is delivered and its answer handled. */
  lemma Replicate(n: nat, free: bool, states: seq<Cluster>, steps: seq<Step>, call: AppendCall)
    returns (states': seq<Cluster>, steps': seq<Step>)
    requires Plays(n, free, states, steps) && call in Now(states).appendCalls && call !in Now(states).appendsHandled
    ensures Plays(n, free, states', steps')
    ensures call.to < n && call.from < n && call.from != call.to
    ensures var s, s' := Now(states), Now(states');
            && call.round < |s.nodes[call.from].appendNums|
            && var (v, reply) := AppendEntries(AsWritten, s.nodes[call.to], call.args);
            && s'.nodes == s.nodes[call.to := v][call.from := AppendReplied(s.nodes[call.from], call, reply)]
            && s'.votesHandled == s.votesHandled && s'.appendsHandled == s.appendsHandled + {call}
            && s.appendCalls <= s'.appendCalls && s.voteCalls <= s'.voteCalls
  {
    var s := Now(states);
    assert AppendCallShape(s, call);
    states', steps' := Deliver(n, free, states, steps, call);
    var reply := AppendEntries(AsWritten, s.nodes[call.to], call.args).1;
    states', steps' := Move(n, free, states', steps', AppendAnswer(call, reply));
  }

  lemma Hand(n: nat, free: bool, states: seq<Cluster>, steps: seq<Step>, c: nat)
    returns (states': seq<Cluster>, steps': seq<Step>)
    requires Plays(n, free, states, steps) && c < n
    requires Now(states).nodes[c].commitIndex <= LastIndex(Now(states).nodes[c])
    ensures Plays(n, free, states', steps')
    ensures Now(states') == Now(states).(nodes := Now(states).nodes[c := ApplyLogs(Now(states).nodes[c])])
  {
    states', steps' := Move(n, free, states, steps, ApplyStep(c));
  }

  /** A node sends its snapshot, the receiver installs it, and the answer is handled. */
  lemma Transfer(n: nat, states: seq<Cluster>, steps: seq<Step>, from: nat, to: nat)
    returns (states': seq<Cluster>, steps': seq<Step>)
    requires Plays(n, false, states, steps) && from < n && to < n && from != to
    ensures Plays(n, false, states', steps')
    ensures var s, s' := Now(states), Now(states');
            var call := SnapCall(from, to, SnapshotArgs(s.nodes[from]));
            var (v, term) := InstallSnapshot(s.nodes[to], call.args);
            s'.nodes == s.nodes[to := v][from := SnapReplied(s.nodes[from], call, term)]
  {
    var s := Now(states);
    var call := SnapCall(from, to, SnapshotArgs(s.nodes[from]));
    states', steps' := Move(n, false, states, steps, SnapshotSend(from, to));
    states', steps' := Move(n, false, states', steps', SnapDelivery(call));
    states', steps' := Move(n, false, states', steps', SnapAnswer(call, InstallSnapshot(s.nodes[to], call.args).1));
  }

  lemma Compact(n: nat, states: seq<Cluster>, steps: seq<Step>, c: nat, index: int)
    returns (states': seq<Cluster>, steps': seq<Step>)
    requires Plays(n, false, states, steps) && c < n
    requires Now(states).nodes[c].commitIndex <= LastIndex(Now(states).nodes[c])
    ensures Plays(n, false, states', steps')
    ensures Now(states') == Now(states).(nodes := Now(states).nodes[c := Snapshot(Now(states).nodes[c], index)])
  {
    states', steps' := Move(n, false, states, steps, SnapshotStep(c, index));
  }

  // ---------------------------------------------------------------------------------------
  // Handlers on nodes without a snapshot
  // ---------------------------------------------------------------------------------------

  /** A leader nobody has answered yet commits nothing when it appends. */
  lemma Appends(nd: Node, e: Entry)
    requires Shaped(nd) && nd.status.Leader? && nd.peers > 1 && nd.snapIndex == 0
    requires forall i :: 0 <= i < |nd.matchIndex| ==> nd.matchIndex[i] == 0
    requires e.index == |nd.logs| + 1 && e.term == nd.currentTerm
    ensures Start(nd, e.command) == nd.(logs := nd.logs + [e], commitIndex := 0)
  {
    var n1 := Appended(nd, e.command);
    forall k | 0 < k <= LastIndex(n1)
      ensures !Committable(n1, k)
    {
      assert Matching(n1, k) == {n1.me};
    }
  }

  /** The message a leader without snapshots sends. */
  lemma Ships(nd: Node, to: nat, a: AppendArgs)
    requires Shaped(nd) && to < nd.peers && nd.snapIndex == 0 && nd.snapTerm == 0
    requires 1 <= nd.nextIndex[to] <= |nd.logs| + 1
    requires a.term == nd.currentTerm && a.leaderId == nd.me && a.prevLogIndex == nd.nextIndex[to] - 1
    requires a.prevLogTerm == if a.prevLogIndex == 0 then 0 else nd.logs[a.prevLogIndex - 1].term
    requires a.entries == nd.logs[a.prevLogIndex..] && a.leaderCommit == nd.commitIndex
    ensures HeartBeatArgs(nd, to) == a
  {
  }

  /** What a follower whose log matches does with a message that commits nothing. */
  lemma Takes(nd: Node, a: AppendArgs, logs: seq<Entry>)
    requires Shaped(nd) && nd.snapIndex == 0 && nd.snapTerm == 0 && nd.currentTerm <= a.term && nd.status.Follower?
    requires a.leaderCommit == 0 && 0 <= a.prevLogIndex <= |nd.logs|
    requires a.prevLogTerm == if a.prevLogIndex == 0 then 0 else nd.logs[a.prevLogIndex - 1].term
    requires logs == MergeAsWritten(nd.logs, a.prevLogIndex, a.entries)
    ensures AppendEntries(AsWritten, nd, a) ==
              (nd.(logs := logs, currentTerm := a.term,
                   votedFor := if nd.currentTerm < a.term then -1 else nd.votedFor),
               AppendReply(a.term, true, 0))
  {
  }
}
