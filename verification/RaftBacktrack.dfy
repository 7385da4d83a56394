/** Where nextIndex can go: heartbeats are always possible, and backtracking finds a match. */
module RaftBacktrack {
  import opened RaftTypes
  import opened RaftNode
  import opened RaftCluster
  import opened RaftElection
  import opened RaftEvidence

  // ---------------------------------------------------------------------------------------
  // One rejection
  // ---------------------------------------------------------------------------------------

  lemma {:induction false} BacktrackRange(nd: Node, prev: int, index: int)
    requires Indexed(nd) && nd.snapIndex <= prev <= LastIndex(nd)
    requires nd.snapIndex - 1 <= index <= prev
    requires forall k :: index < k <= prev ==> TermAt(nd, k) == TermAt(nd, prev)
    ensures var r := Backtrack(nd, prev, index);
            && nd.snapIndex <= r <= prev
            && (r == nd.snapIndex ==> prev == nd.snapIndex)
            && (forall k :: r <= k <= prev ==> TermAt(nd, k) == TermAt(nd, prev))
    decreases index - nd.snapIndex + 1
  {
    if index >= nd.snapIndex && TermAt(nd, index) == TermAt(nd, prev) {
      BacktrackRange(nd, prev, index - 1);
    }
  }

  /** A mismatch at or above the follower's snapshot sends nextIndex back to between 1 and the
      prevLogIndex just sent: to just past the follower's log, or to an index from which on the
      follower has only entries of the conflicting term. */
  lemma RejectionRange(nd: Node, a: AppendArgs)
    requires Shaped(nd) && nd.snapIndex <= a.prevLogIndex && nd.currentTerm <= a.term
    requires !AcceptsAppend(nd, a)
    requires a.prevLogIndex == 0 ==> a.prevLogTerm == nd.snapTerm
    ensures var reply := AppendRejection(nd, a);
            && !reply.success && reply.term == a.term
            && 1 <= reply.updateNextIndex <= a.prevLogIndex
            && (a.prevLogIndex > LastIndex(nd) ==> reply.updateNextIndex == LastIndex(nd) + 1)
            && (a.prevLogIndex <= LastIndex(nd) ==>
                  && nd.snapIndex <= reply.updateNextIndex
                  && forall k :: reply.updateNextIndex <= k <= a.prevLogIndex ==>
                       TermAt(nd, k) == TermAt(nd, a.prevLogIndex) != a.prevLogTerm)
  {
    if a.prevLogIndex <= LastIndex(nd) {
      BacktrackRange(nd, a.prevLogIndex, a.prevLogIndex);
    }
  }

  // ---------------------------------------------------------------------------------------
  // One leader and one follower, one call outstanding at a time
  // ---------------------------------------------------------------------------------------

  /** The leader's next message to `to` carries entries and starts at or above the follower's snapshot. */
  ghost predicate Probes(leader: Node, follower: Node, to: nat) {
    && Shaped(leader) && Shaped(follower) && leader.status.Leader?
    && to < leader.peers && to != leader.me
    && follower.currentTerm <= leader.currentTerm
    && leader.snapIndex < leader.nextIndex[to] <= LastIndex(leader) + 1
    && follower.snapIndex < leader.nextIndex[to]
    && (leader.nextIndex[to] == 1 ==> leader.snapTerm == follower.snapTerm)
  }

  function Probe(leader: Node, to: nat): AppendCall
    requires Indexed(leader) && to < |leader.nextIndex|
    requires leader.snapIndex < leader.nextIndex[to] <= LastIndex(leader) + 1
  {
    AppendCall(leader.me, to, |leader.appendNums|, HeartBeatArgs(leader, to))
  }

  ghost predicate Mismatch(leader: Node, follower: Node, to: nat) {
    Probes(leader, follower, to) && !AcceptsAppend(follower, Probe(leader, to).args)
  }

  /** The leader after one heartbeat to `to` and the follower's answer to it, and the follower. */
  ghost function Exchange(m: Merge, leader: Node, follower: Node, to: nat): (Node, Node)
    requires Probes(leader, follower, to)
  {
    var call := Probe(leader, to);
    var (f, reply) := AppendEntries(m, follower, call.args);
    (AppendReplied(HeartBeat(leader), call, reply), f)
  }

  /** nextIndex has gone down and nothing else that matters has changed. */
  ghost predicate Retreated(leader: Node, follower: Node, to: nat, l: Node, f: Node) {
    && Shaped(l) && Shaped(f) && l.status.Leader? && l.me == leader.me && l.peers == leader.peers
    && to < |l.nextIndex| && to < |leader.nextIndex|
    && 1 <= l.nextIndex[to] < leader.nextIndex[to]
    && l.logs == leader.logs && f.logs == follower.logs
    && l.snapIndex == leader.snapIndex && l.snapTerm == leader.snapTerm
    && f.snapIndex == follower.snapIndex && f.snapTerm == follower.snapTerm
    && l.currentTerm == f.currentTerm == leader.currentTerm
  }

  /** A rejected message leaves the follower's log alone and brings it to the message's term. */
  lemma RejectedFollower(m: Merge, f: Node, a: AppendArgs)
    requires Shaped(f) && f.currentTerm <= a.term && !AcceptsAppend(f, a)
    ensures var (f', reply) := AppendEntries(m, f, a);
            && reply == AppendRejection(f, a) && Shaped(f') && f'.logs == f.logs && f'.currentTerm == a.term
            && f'.snapIndex == f.snapIndex && f'.snapTerm == f.snapTerm
  {
    hide AppendRejection, AcceptsAppend;
  }

  /** A leader that hears of a mismatch in its own term moves one nextIndex. */
  lemma RejectedLeader(nd: Node, call: AppendCall, reply: AppendReply)
    requires nd.status.Leader? && reply.term == nd.currentTerm && !reply.success && reply.updateNextIndex != -100
    requires call.to < |nd.nextIndex| == |nd.matchIndex| && call.round < |nd.appendNums|
    ensures AppendReplied(nd, call, reply) == nd.(nextIndex := nd.nextIndex[call.to := reply.updateNextIndex])
  {
  }

  /** The answer to a mismatch goes back from the prevLogIndex sent. */
  lemma MismatchReply(leader: Node, follower: Node, to: nat)
    requires Mismatch(leader, follower, to)
    ensures var reply := AppendRejection(follower, Probe(leader, to).args);
            && !reply.success && reply.term == leader.currentTerm
            && 1 <= reply.updateNextIndex < leader.nextIndex[to]
  {
    hide AcceptsAppend, AppendRejection, TermAt;
    var a := Probe(leader, to).args;
    assert a.prevLogIndex == leader.nextIndex[to] - 1 && a.term == leader.currentTerm;
    ProbeRooted(leader, follower, to);
    RejectionRange(follower, a);
  }

  lemma MismatchBacktracks(m: Merge, leader: Node, follower: Node, to: nat)
    requires Mismatch(leader, follower, to)
    ensures var after := Exchange(m, leader, follower, to); Retreated(leader, follower, to, after.0, after.1)
  {
    hide AppendEntries, AppendReplied, AcceptsAppend, AppendRejection, HeartBeatArgs, Indexed;
    var call, nd := Probe(leader, to), HeartBeat(leader);
    MismatchReply(leader, follower, to);
    assert call.args.term == leader.currentTerm by {
      ProbeTerm(leader, to);
    }
    RejectedFollower(m, follower, call.args);
    RejectedLeader(nd, call, AppendRejection(follower, call.args));
    ReaimedShape(leader, to, AppendRejection(follower, call.args).updateNextIndex);
  }

  lemma ReaimedShape(leader: Node, to: nat, next: int)
    requires Shaped(leader) && to < |leader.nextIndex|
    ensures Shaped(HeartBeat(leader).(nextIndex := leader.nextIndex[to := next]))
  {
  }

  lemma ProbeTerm(leader: Node, to: nat)
    requires Indexed(leader) && to < |leader.nextIndex|
    requires leader.snapIndex < leader.nextIndex[to] <= LastIndex(leader) + 1
    ensures Probe(leader, to).args.term == leader.currentTerm
  {
  }

  lemma ProbeRooted(leader: Node, follower: Node, to: nat)
    requires Probes(leader, follower, to)
    ensures var a := Probe(leader, to).args; a.prevLogIndex == 0 ==> a.prevLogTerm == follower.snapTerm
  {
  }

  /** How many exchanges in a row are rejected as a mismatch. */
  ghost function Rejections(m: Merge, leader: Node, follower: Node, to: nat): (r: nat)
    decreases if Probes(leader, follower, to) then leader.nextIndex[to] else 0
  {
    if Mismatch(leader, follower, to) then
      MismatchBacktracks(m, leader, follower, to);
      var (l, f) := Exchange(m, leader, follower, to);
      1 + Rejections(m, l, f, to)
    else 0
  }

  /** The two nodes when the rejections have ended. */
  ghost function Settled(m: Merge, leader: Node, follower: Node, to: nat): (Node, Node)
    decreases if Probes(leader, follower, to) then leader.nextIndex[to] else 0
  {
    if Mismatch(leader, follower, to) then
      MismatchBacktracks(m, leader, follower, to);
      var (l, f) := Exchange(m, leader, follower, to);
      Settled(m, l, f, to)
    else (leader, follower)
  }

  /** A snapshot, not the log, decides what the follower gets next. */
  ghost predicate SnapshotReached(l: Node, f: Node, to: nat)
    requires to < |l.nextIndex|
  {
    || l.nextIndex[to] <= l.snapIndex
    || l.nextIndex[to] <= f.snapIndex
    || (l.nextIndex[to] == 1 && l.snapTerm != f.snapTerm)
  }

  ghost predicate Accepts(l: Node, f: Node, to: nat) {
    Probes(l, f, to) && AcceptsAppend(f, Probe(l, to).args)
  }

  /** The logs are as they were, and backtracking is over. */
  ghost predicate Ended(leader: Node, follower: Node, to: nat, rejections: nat, l: Node, f: Node) {
    && l.logs == leader.logs && f.logs == follower.logs
    && l.snapIndex == leader.snapIndex && l.snapTerm == leader.snapTerm
    && f.snapIndex == follower.snapIndex && f.snapTerm == follower.snapTerm
    && to < |leader.nextIndex| && to < |l.nextIndex|
    && 1 <= l.nextIndex[to] <= leader.nextIndex[to] - rejections
    && (Accepts(l, f, to) || SnapshotReached(l, f, to))
  }

  /** Backtracking ends after fewer rejections than the initial nextIndex: then the follower accepts
      the next message, or nextIndex has come down to a snapshot. */
  lemma {:induction false} BacktrackingEnds(m: Merge, leader: Node, follower: Node, to: nat)
    requires Probes(leader, follower, to)
    ensures Rejections(m, leader, follower, to) < leader.nextIndex[to]
    ensures var (l, f) := Settled(m, leader, follower, to);
            Ended(leader, follower, to, Rejections(m, leader, follower, to), l, f)
    decreases leader.nextIndex[to]
  {
    hide Exchange, AcceptsAppend, HeartBeatArgs;
    if Mismatch(leader, follower, to) {
      MismatchBacktracks(m, leader, follower, to);
      var (l, f) := Exchange(m, leader, follower, to);
      if Probes(l, f, to) {
        BacktrackingEnds(m, l, f, to);
        hide Probes, Shaped, Indexed;
      }
    }
  }

  /** From slot `from` on, f has the terms of the log, and l knows that f has all of it. */
  ghost predicate Caught(l: Node, f: Node, to: nat, log: seq<Entry>, from: nat) {
    && |f.logs| >= |log|
    && to < |l.matchIndex| && l.matchIndex[to] >= |log|
    && forall k :: from <= k < |log| ==> f.logs[k].term == log[k].term
  }

  lemma AcceptedCatchesUp(m: Merge, l: Node, f: Node, to: nat)
    requires Accepts(l, f, to) && l.snapIndex == f.snapIndex == 0
    ensures var after := Exchange(m, l, f, to);
            Caught(after.0, after.1, to, l.logs, l.nextIndex[to] - 1)
  {
    hide MergeLogs, MergeAsWritten, MergeTruncating, AppendReplied;
    var call := Probe(l, to);
    var a := call.args;
    assert a.entries == l.logs[a.prevLogIndex..];
    MergedTerms(m, f.logs, a.prevLogIndex, a.entries);
    var (f', reply) := AppendEntries(m, f, a);
    assert f'.logs == MergeLogs(m, f.logs, a.prevLogIndex, a.entries);
    forall k | a.prevLogIndex <= k < |l.logs|
      ensures f'.logs[k].term == l.logs[k].term
    {
      assert a.entries[k - a.prevLogIndex] == l.logs[k];
      assert f'.logs[a.prevLogIndex + (k - a.prevLogIndex)].term == a.entries[k - a.prevLogIndex].term;
    }
    MatchedToEnd(HeartBeat(l), call, reply);
  }

  lemma MatchedToEnd(nd: Node, call: AppendCall, reply: AppendReply)
    requires nd.status.Leader? && reply.term == nd.currentTerm && reply.success
    requires call.to < |nd.nextIndex| == |nd.matchIndex| && call.round < |nd.appendNums|
    ensures AppendReplied(nd, call, reply).matchIndex
            == nd.matchIndex[call.to := Max(nd.matchIndex[call.to], call.args.End())]
  {
  }

  /** Without snapshots the follower ends up accepting, and the leader then knows the follower has
      its whole log: from the matching index on, both logs hold the same terms. */
  lemma BacktrackingMatches(m: Merge, leader: Node, follower: Node, to: nat)
    requires Probes(leader, follower, to)
    requires leader.snapIndex == follower.snapIndex == 0 && leader.snapTerm == follower.snapTerm
    ensures var (l, f) := Settled(m, leader, follower, to);
            && Accepts(l, f, to)
            && var after := Exchange(m, l, f, to);
               Caught(after.0, after.1, to, leader.logs, l.nextIndex[to] - 1)
  {
    hide AcceptsAppend, Exchange, Caught;
    BacktrackingEnds(m, leader, follower, to);
    var (l, f) := Settled(m, leader, follower, to);
    AcceptedCatchesUp(m, l, f, to);
  }

  /** After a merge the covered slots carry the message's terms. */
  lemma {:induction false} MergedTerms(m: Merge, logs: seq<Entry>, pos: nat, entries: seq<Entry>)
    requires pos <= |logs|
    ensures var r := MergeLogs(m, logs, pos, entries);
            && |r| >= pos + |entries|
            && r[..pos] == logs[..pos]
            && forall k :: 0 <= k < |entries| ==> r[pos + k].term == entries[k].term
    decreases |entries|
  {
    var r := MergeLogs(m, logs, pos, entries);
    if m.AsWritten? {
      forall k | 0 <= k < |entries|
        ensures r[pos + k].term == entries[k].term
      {
        assert entries[pos + k - pos] == entries[k];
      }
    } else if |entries| > 0 && pos < |logs| && logs[pos].term == entries[0].term {
      MergedTerms(m, logs, pos + 1, entries[1..]);
      assert r == MergeLogs(m, logs, pos + 1, entries[1..]);
      assert r[..pos + 1] == logs[..pos + 1];
      assert r[..pos] == r[..pos + 1][..pos] && r[pos] == r[..pos + 1][pos];
      forall k | 0 <= k < |entries|
        ensures r[pos + k].term == entries[k].term
      {
        if k > 0 {
          assert entries[1..][k - 1] == entries[k];
        }
      }
    }
  }

  // ---------------------------------------------------------------------------------------
  // When leaders can build their messages
  // ---------------------------------------------------------------------------------------

  ghost predicate PeersTracked(nd: Node)
    requires Indexed(nd)
  {
    && (nd.snapIndex == 0 ==> nd.snapTerm == 0)
    && (nd.status.Leader? ==>
          && CanHeartBeat(nd)
          && forall i :: 0 <= i < |nd.matchIndex| && i != nd.me ==> nd.matchIndex[i] <= LastIndex(nd))
  }

  ghost predicate CallsRooted(s: Cluster) {
    forall call :: call in s.appendCalls && call.args.prevLogIndex == 0 ==> call.args.prevLogTerm == 0
  }

  /** A mismatch names a positive index. */
  ghost predicate RejectionsPositive(s: Cluster) {
    forall r :: r in s.appendReplies && !r.1.success && r.1.updateNextIndex != -100 ==>
      r.1.term == r.0.args.term && 1 <= r.1.updateNextIndex
  }

  ghost predicate SnapsPositive(s: Cluster) {
    forall call :: call in s.snapCalls ==> 0 <= call.args.lastIndex
  }

  ghost predicate PeerInv(s: Cluster)
    requires Shape(s)
  {
    && (forall i :: 0 <= i < |s.nodes| ==> PeersTracked(s.nodes[i]))
    && CallsRooted(s) && RejectionsPositive(s) && SnapsPositive(s)
  }

  lemma NodeTracked(s: Cluster, i: nat)
    requires Shape(s) && PeerInv(s) && i < |s.nodes|
    ensures PeersTracked(s.nodes[i])
  {
  }

  /** The leader takes this answer for a mismatch. */
  ghost predicate Refused(nd: Node, reply: AppendReply) {
    nd.status.Leader? && reply.term == nd.currentTerm && !reply.success && reply.updateNextIndex != -100
  }

  /** An answer that sends nextIndex past the leader's log. */
  ghost predicate Oversteps(s: Cluster, step: Step)
    requires Shape(s) && Enabled(s, step)
  {
    && step.AppendAnswer? && AppendCallShape(s, step.append)
    && Refused(s.nodes[step.append.from], step.appendReply)
    && step.appendReply.updateNextIndex > LastIndex(s.nodes[step.append.from]) + 1
  }

  /** A message the receiver is not past yet, starting below its snapshot. */
  ghost predicate BelowSnapshot(nd: Node, a: AppendArgs) {
    nd.currentTerm <= a.term && a.prevLogIndex < nd.snapIndex
  }

  /** An answer a leader acts on belongs to a message of its current term. */
  lemma AnswerInRange(s: Cluster, b: Ballots, r: Rounds, call: AppendCall, reply: AppendReply)
    requires RoundInv(s, b, r) && RejectionsPositive(s) && Enabled(s, AppendAnswer(call, reply))
    requires AppendCallShape(s, call) && s.nodes[call.from].status.Leader?
    requires reply.term == s.nodes[call.from].currentTerm && (reply.success || reply.updateNextIndex != -100)
    ensures call.args.End() <= LastIndex(s.nodes[call.from])
    ensures !reply.success ==> 1 <= reply.updateNextIndex
  {
    hide RoundsAgree, RoundsBacked, AckedOnce, AckCounterExact, MatchBacked;
    assert (call, reply) in s.appendReplies;
    assert Shipped(s.nodes[call.from], call);
  }

  lemma RoundShape(s: Cluster, b: Ballots, r: Rounds)
    requires RoundInv(s, b, r)
    ensures Shape(s) && SnapsBehind(s)
  {
  }

  lemma AnswerTracked(s: Cluster, b: Ballots, r: Rounds, call: AppendCall, reply: AppendReply)
    requires RoundInv(s, b, r) && PeerInv(s) && Enabled(s, AppendAnswer(call, reply))
    requires AppendCallShape(s, call) && !Oversteps(s, AppendAnswer(call, reply))
    ensures var nd' := AppendReplied(s.nodes[call.from], call, reply); Indexed(nd') && PeersTracked(nd')
  {
    hide RoundInv, CallsRooted, RejectionsPositive;
    RoundShape(s, b, r);
    var nd := s.nodes[call.from];
    assert PeersTracked(nd);
    if reply.term == nd.currentTerm && nd.status.Leader? && (reply.success || reply.updateNextIndex != -100) {
      AnswerInRange(s, b, r, call, reply);
    }
  }

  lemma RejectionTracked(m: Merge, nd: Node, call: AppendCall)
    requires Shaped(nd) && PeersTracked(nd) && call.args.WellFormed()
    requires call.args.prevLogIndex == 0 ==> call.args.prevLogTerm == 0
    ensures var (nd', reply) := AppendEntries(m, nd, call.args);
            && Indexed(nd') && PeersTracked(nd')
            && (!reply.success && reply.updateNextIndex != -100 ==>
                  && reply.term == call.args.term && 1 <= reply.updateNextIndex
                  && if BelowSnapshot(nd, call.args) then reply.updateNextIndex == nd.snapIndex + 1
                     else reply.updateNextIndex <= call.args.prevLogIndex)
  {
    AppendEntriesFollows(m, nd, call.args);
    DeliveryReceiver(m, nd, call.args);
    if !AcceptsAppend(nd, call.args) && nd.currentTerm <= call.args.term && nd.snapIndex <= call.args.prevLogIndex {
      RejectionRange(nd, call.args);
    }
  }

  lemma SnapAnswerTracked(s: Cluster, call: SnapCall, term: int)
    requires Shape(s) && PeerInv(s) && SnapsBehind(s) && Enabled(s, SnapAnswer(call, term))
    requires SnapCallShape(s, call)
    ensures var nd' := SnapReplied(s.nodes[call.from], call, term); Indexed(nd') && PeersTracked(nd')
  {
    assert call in s.snapCalls && PeersTracked(s.nodes[call.from]);
  }

  lemma CrownedTracked(nd: Node)
    requires Shaped(nd) && (nd.snapIndex == 0 ==> nd.snapTerm == 0)
    ensures Indexed(BecomeLeader(nd)) && PeersTracked(BecomeLeader(nd))
  {
  }

  lemma ElectionTracked(nd: Node)
    requires Shaped(nd) && PeersTracked(nd)
    ensures Indexed(Election(nd)) && PeersTracked(Election(nd))
  {
    hide BecomeLeader, CanHeartBeat;
    if !nd.status.Leader? && nd.peers == 1 {
      var term := nd.currentTerm + 1;
      CrownedTracked(nd.(status := Candidate, currentTerm := term, votedFor := nd.me,
                         votedNums := nd.votedNums[term := 1]));
    }
  }

  lemma VoteTracked(nd: Node, a: VoteArgs)
    requires Shaped(nd) && PeersTracked(nd)
    ensures Indexed(RequestVote(nd, a).0) && PeersTracked(RequestVote(nd, a).0)
  {
  }

  lemma VoteReplyTracked(nd: Node, call: VoteCall, reply: VoteReply)
    requires Shaped(nd) && PeersTracked(nd) && call.args.term in nd.votedNums
    ensures Indexed(VoteReplied(nd, call, reply)) && PeersTracked(VoteReplied(nd, call, reply))
  {
    hide BecomeLeader;
    CrownedTracked(nd.(votedNums := nd.votedNums[call.args.term := 0]));
  }

  lemma LogTracked(nd: Node, command: string)
    requires Shaped(nd) && PeersTracked(nd)
    ensures Indexed(Start(nd, command)) && PeersTracked(Start(nd, command))
  {
    hide ScanCommit;
  }

  /** A new round and an advance of lastApplied touch nothing that matters here. */
  lemma QuietTracked(nd: Node)
    requires Shaped(nd) && PeersTracked(nd)
    ensures Indexed(HeartBeat(nd)) && PeersTracked(HeartBeat(nd))
    ensures nd.commitIndex <= LastIndex(nd) ==> Indexed(ApplyLogs(nd)) && PeersTracked(ApplyLogs(nd))
  {
    hide Emission;
  }

  lemma SnapshotTracked(nd: Node, index: int)
    requires Shaped(nd) && PeersTracked(nd) && nd.commitIndex <= LastIndex(nd)
    ensures Indexed(Snapshot(nd, index)) && PeersTracked(Snapshot(nd, index))
  {
  }

  lemma InstallTracked(nd: Node, a: SnapArgs)
    requires Shaped(nd) && PeersTracked(nd)
    ensures Indexed(InstallSnapshot(nd, a).0) && PeersTracked(InstallSnapshot(nd, a).0)
  {
  }

  lemma OthersTracked(m: Merge, s: Cluster, step: Step)
    requires Shape(s) && PeerInv(s) && Enabled(s, step)
    requires !step.AppendDelivery? && !step.AppendAnswer? && !step.SnapAnswer?
    ensures var nd' := NewNode(m, s, step); Indexed(nd') && PeersTracked(nd')
  {
    hide Indexed, Election, RequestVote, VoteReplied, HeartBeat, Start, ApplyLogs, Snapshot, InstallSnapshot,
         CallsRooted, RejectionsPositive, SnapsPositive, CanHeartBeat;
    NodeTracked(s, Actor(step));
    hide PeersTracked;
    var nd := s.nodes[Actor(step)];
    match step
    case ElectionStep(_) => ElectionTracked(nd);
    case VoteDelivery(call) =>
      assert VoteCallShape(s, call);
      VoteTracked(nd, call.args);
    case VoteAnswer(call, reply) =>
      assert VoteCallShape(s, call);
      VoteReplyTracked(nd, call, reply);
    case HeartBeatStep(_) => QuietTracked(nd);
    case StartStep(_, command) => LogTracked(nd, command);
    case ApplyStep(_) => QuietTracked(nd);
    case SnapshotStep(_, index) => SnapshotTracked(nd, index);
    case SnapshotSend(_, _) =>
    case SnapDelivery(call) =>
      assert SnapCallShape(s, call);
      InstallTracked(nd, call.args);
  }

  lemma HeartBeatRooted(nd: Node)
    requires Shaped(nd) && CanHeartBeat(nd) && (nd.snapIndex == 0 ==> nd.snapTerm == 0)
    ensures forall call :: call in HeartBeatCalls(nd) && call.args.prevLogIndex == 0 ==> call.args.prevLogTerm == 0
  {
  }

  lemma PeersAssembled(s: Cluster, i: nat, nd': Node, s': Cluster)
    requires Shape(s) && Shape(s') && PeerInv(s)
    requires i < |s.nodes| && s'.nodes == s.nodes[i := nd'] && Indexed(nd') && PeersTracked(nd')
    requires CallsRooted(s') && RejectionsPositive(s') && SnapsPositive(s')
    ensures PeerInv(s')
  {
    hide PeersTracked, CallsRooted, RejectionsPositive, SnapsPositive;
  }

  lemma DeliveryKeepsPeers(m: Merge, s: Cluster, call: AppendCall, s': Cluster)
    requires IsStep(m, s, AppendDelivery(call), s') && PeerInv(s)
    ensures Shape(s') && PeerInv(s')
  {
    StepKeepsShape(m, s, AppendDelivery(call), s');
    assert AppendCallShape(s, call);
    assert PeersTracked(s.nodes[call.to]);
    RejectionTracked(m, s.nodes[call.to], call);
    hide AppendEntries, Shape, PeersTracked;
    PeersAssembled(s, call.to, NewNode(m, s, AppendDelivery(call)), s');
  }

  lemma SentSnapsPositive(m: Merge, s: Cluster, step: Step, s': Cluster)
    requires IsStep(m, s, step, s') && SnapsPositive(s)
    ensures SnapsPositive(s')
  {
    hide NewNode, HeartBeatCalls, ElectionCalls;
  }

  lemma OtherStepKeepsPeers(m: Merge, s: Cluster, step: Step, s': Cluster)
    requires IsStep(m, s, step, s') && PeerInv(s) && !step.AppendDelivery?
    requires Indexed(NewNode(m, s, step)) && PeersTracked(NewNode(m, s, step))
    ensures Shape(s') && PeerInv(s')
  {
    StepKeepsShape(m, s, step, s');
    OnlyActorMoves(m, s, step, s');
    SentSnapsPositive(m, s, step, s');
    if step.HeartBeatStep? {
      assert PeersTracked(s.nodes[step.n]);
      HeartBeatRooted(s.nodes[step.n]);
    }
    hide NewNode, PeersTracked, SnapsPositive;
    PeersAssembled(s, Actor(step), NewNode(m, s, step), s');
  }

  lemma StepKeepsPeers(m: Merge, s: Cluster, b: Ballots, r: Rounds, step: Step, s': Cluster)
    requires RoundInv(s, b, r) && PeerInv(s) && IsStep(m, s, step, s') && !Oversteps(s, step)
    ensures Shape(s') && PeerInv(s')
  {
    hide RoundInv, Apply, PeerInv, Oversteps;
    if step.AppendDelivery? {
      DeliveryKeepsPeers(m, s, step.append, s');
    } else {
      if step.AppendAnswer? {
        assert AppendCallShape(s, step.append);
        AnswerTracked(s, b, r, step.append, step.appendReply);
      } else if step.SnapAnswer? {
        RoundShape(s, b, r);
        assert SnapCallShape(s, step.snap);
        SnapAnswerTracked(s, step.snap, step.snapReplyTerm);
      } else {
        OthersTracked(m, s, step);
      }
      OtherStepKeepsPeers(m, s, step, s');
    }
  }

  lemma InitPeers(n: nat)
    ensures Shape(InitCluster(n)) && PeerInv(InitCluster(n))
  {
    InitShape(n);
  }

  /** No answer in the run sends nextIndex past the leader's log. */
  ghost predicate NoneOversteps(states: seq<Cluster>, steps: seq<Step>)
    requires |states| == |steps| + 1
  {
    forall k :: 0 <= k < |steps| && Shape(states[k]) && Enabled(states[k], steps[k]) ==> !Oversteps(states[k], steps[k])
  }

  /** doHeartBeat's assertions hold on every node in every state. */
  ghost predicate AlwaysBeats(states: seq<Cluster>) {
    forall k, i :: 0 <= k < |states| && 0 <= i < |states[k].nodes| && Indexed(states[k].nodes[i]) ==>
      CanHeartBeat(states[k].nodes[i])
  }

  lemma {:induction false} RunTracksPeers(
      m: Merge, n: nat, states: seq<Cluster>, steps: seq<Step>, bs: seq<Ballots>, rs: seq<Rounds>, k: nat)
    requires IsRun(m, n, states, steps) && k <= |steps| && |bs| == |rs| == |states|
    requires NoneOversteps(states, steps)
    requires forall j :: 0 <= j < |states| ==> RoundInv(states[j], bs[j], rs[j])
    ensures Shape(states[k]) && PeerInv(states[k])
  {
    hide PeerInv, RoundInv, Enabled, Apply, Oversteps;
    if k == 0 {
      InitPeers(n);
    } else {
      RunTracksPeers(m, n, states, steps, bs, rs, k - 1);
      assert IsStep(m, states[k - 1], steps[k - 1], states[k - 1 + 1]);
      StepKeepsPeers(m, states[k - 1], bs[k - 1], rs[k - 1], steps[k - 1], states[k]);
    }
  }

  lemma RunPeers(m: Merge, n: nat, states: seq<Cluster>, steps: seq<Step>, k: nat)
    requires IsRun(m, n, states, steps) && NoneOversteps(states, steps) && k <= |steps|
    ensures Shape(states[k]) && PeerInv(states[k])
  {
    hide RoundInv, BallotStep, IsStep, PeerInv, BallotTrace, NoneOversteps;
    var bs := RunHasBallots(m, n, states, steps);
    TraceStart(m, states, steps, bs);
    var rs := RunHasRounds(m, states, steps, bs, n, |steps|);
    RunTracksPeers(m, n, states, steps, bs, rs, k);
  }

  /** After an answer that oversteps, the leader's next heartbeat fails its assertion. */
  lemma OverstepBlocks(m: Merge, s: Cluster, step: Step, s': Cluster) returns (i: nat)
    requires IsStep(m, s, step, s') && Oversteps(s, step)
    ensures i < |s'.nodes| && Indexed(s'.nodes[i]) && !CanHeartBeat(s'.nodes[i])
  {
    hide Apply, AppendReplied;
    OnlyActorMoves(m, s, step, s');
    StepKeepsShape(m, s, step, s');
    var call, reply := step.append, step.appendReply;
    i := call.from;
    RejectedLeader(s.nodes[i], call, reply);
    assert s'.nodes[i].nextIndex[call.to] == reply.updateNextIndex;
  }

  /** In every run, with either merge and with snapshots: doHeartBeat's assertions hold in every state
      if and only if no answer sends nextIndex past the leader's log. */
  lemma HeartBeatsExactly(m: Merge, n: nat, states: seq<Cluster>, steps: seq<Step>)
    requires IsRun(m, n, states, steps)
    ensures AlwaysBeats(states) <==> NoneOversteps(states, steps)
  {
    hide Shape, Enabled, Apply, CanHeartBeat, Oversteps;
    if NoneOversteps(states, steps) {
      forall k, i | 0 <= k < |states| && 0 <= i < |states[k].nodes| && Indexed(states[k].nodes[i])
        ensures CanHeartBeat(states[k].nodes[i])
      {
        RunPeers(m, n, states, steps, k);
        TrackedBeats(states[k], i);
      }
    } else {
      var k :| 0 <= k < |steps| && Shape(states[k]) && Enabled(states[k], steps[k]) && Oversteps(states[k], steps[k]);
      assert IsStep(m, states[k], steps[k], states[k + 1]);
      var i := OverstepBlocks(m, states[k], steps[k], states[k + 1]);
      assert Indexed(states[k + 1].nodes[i]) && !CanHeartBeat(states[k + 1].nodes[i]);
    }
  }

  lemma TrackedBeats(s: Cluster, i: nat)
    requires Shape(s) && PeerInv(s) && i < |s.nodes|
    ensures Indexed(s.nodes[i]) && CanHeartBeat(s.nodes[i])
  {
    hide PeersTracked, CallsRooted, RejectionsPositive, SnapsPositive;
    NodeTracked(s, i);
    BeatsIfTracked(s.nodes[i]);
  }

  lemma BeatsIfTracked(nd: Node)
    requires Indexed(nd) && PeersTracked(nd)
    ensures CanHeartBeat(nd)
  {
  }

  // ---------------------------------------------------------------------------------------
  // Only a message from below the receiver's snapshot can lead there
  // ---------------------------------------------------------------------------------------

  /** No message reaches a receiver whose snapshot covers its start.  The source ends the receiver's
      process there, in matchLog's assertion. */
  ghost predicate NoneBelow(states: seq<Cluster>, steps: seq<Step>)
    requires |states| == |steps| + 1
  {
    forall k :: 0 <= k < |steps| && steps[k].AppendDelivery? && steps[k].append.to < |states[k].nodes| ==>
      !BelowSnapshot(states[k].nodes[steps[k].append.to], steps[k].append.args)
  }

  /** Mismatches go back from the prevLogIndex sent. */
  ghost predicate RejectionsBack(s: Cluster) {
    forall r :: r in s.appendReplies && !r.1.success && r.1.updateNextIndex != -100 ==>
      r.1.term == r.0.args.term && 1 <= r.1.updateNextIndex <= r.0.args.prevLogIndex
  }

  lemma BackInRange(s: Cluster, b: Ballots, r: Rounds, step: Step)
    requires RoundInv(s, b, r) && Shape(s) && RejectionsBack(s) && Enabled(s, step)
    ensures !Oversteps(s, step)
  {
    hide RoundInv;
    if step.AppendAnswer? && AppendCallShape(s, step.append)
       && Refused(s.nodes[step.append.from], step.appendReply) {
      assert (step.append, step.appendReply) in s.appendReplies;
      AnswerInRange(s, b, r, step.append, step.appendReply);
    }
  }

  lemma StepKeepsBack(m: Merge, s: Cluster, step: Step, s': Cluster)
    requires IsStep(m, s, step, s') && PeerInv(s) && RejectionsBack(s)
    requires step.AppendDelivery? && step.append.to < |s.nodes| ==>
               !BelowSnapshot(s.nodes[step.append.to], step.append.args)
    ensures RejectionsBack(s')
  {
    if step.AppendDelivery? {
      var call := step.append;
      assert AppendCallShape(s, call);
      assert PeersTracked(s.nodes[call.to]);
      RejectionTracked(m, s.nodes[call.to], call);
    }
    hide NewNode, AppendEntries, PeersTracked;
  }

  lemma {:induction false} RunGoesBack(
      m: Merge, n: nat, states: seq<Cluster>, steps: seq<Step>, bs: seq<Ballots>, rs: seq<Rounds>, k: nat)
    requires IsRun(m, n, states, steps) && k <= |steps| && |bs| == |rs| == |states|
    requires NoneBelow(states, steps)
    requires forall j :: 0 <= j < |states| ==> RoundInv(states[j], bs[j], rs[j])
    ensures Shape(states[k]) && PeerInv(states[k]) && RejectionsBack(states[k])
  {
    hide PeerInv, RoundInv, Enabled, Apply, Oversteps, BelowSnapshot;
    if k == 0 {
      InitPeers(n);
    } else {
      RunGoesBack(m, n, states, steps, bs, rs, k - 1);
      hide RejectionsBack;
      assert IsStep(m, states[k - 1], steps[k - 1], states[k - 1 + 1]);
      BackInRange(states[k - 1], bs[k - 1], rs[k - 1], steps[k - 1]);
      StepKeepsPeers(m, states[k - 1], bs[k - 1], rs[k - 1], steps[k - 1], states[k]);
      StepKeepsBack(m, states[k - 1], steps[k - 1], states[k]);
    }
  }

  /** In every run with snapshots, with either merge, in which no message starts below its receiver's
      snapshot: a leader's nextIndex for every peer is between 1 and one past its last index, so
      doHeartBeat's assertions hold and its step is never blocked; and no matchIndex is past the
      leader's log. */
  lemma HeartBeatNeverBlocked(m: Merge, n: nat, states: seq<Cluster>, steps: seq<Step>, k: nat, i: nat)
    requires IsRun(m, n, states, steps) && k <= |steps| && NoneBelow(states, steps)
    requires i < |states[k].nodes|
    ensures Shape(states[k]) && Enabled(states[k], HeartBeatStep(i))
    ensures var nd := states[k].nodes[i];
            nd.status.Leader? ==>
              forall to :: 0 <= to < |states[k].nodes| && to != i ==>
                1 <= nd.nextIndex[to] <= LastIndex(nd) + 1 && nd.matchIndex[to] <= LastIndex(nd)
  {
    hide RoundInv, BallotStep, IsStep, PeerInv, BallotTrace, NoneBelow;
    var bs := RunHasBallots(m, n, states, steps);
    TraceStart(m, states, steps, bs);
    var rs := RunHasRounds(m, states, steps, bs, n, |steps|);
    RunGoesBack(m, n, states, steps, bs, rs, k);
    NodeTracked(states[k], i);
  }

  ghost predicate Unsnapped(s: Cluster) {
    s.snapCalls == {} && forall i :: 0 <= i < |s.nodes| ==> s.nodes[i].snapIndex == 0
  }

  lemma ActorUnsnapped(m: Merge, s: Cluster, step: Step)
    requires Shape(s) && Enabled(s, step) && Unsnapped(s) && SnapshotFree(step)
    ensures NewNode(m, s, step).snapIndex == 0
  {
    hide Indexed, ScanCommit, Emission;
  }

  lemma {:induction false} RunUnsnapped(m: Merge, n: nat, states: seq<Cluster>, steps: seq<Step>, k: nat)
    requires IsRun(m, n, states, steps) && k <= |steps| && forall j :: 0 <= j < |steps| ==> SnapshotFree(steps[j])
    ensures Unsnapped(states[k])
  {
    if k > 0 {
      RunUnsnapped(m, n, states, steps, k - 1);
      assert IsStep(m, states[k - 1], steps[k - 1], states[k - 1 + 1]);
      ActorUnsnapped(m, states[k - 1], steps[k - 1]);
      hide NewNode, Shape;
    }
  }

  /** So in a run without snapshots no leader is ever blocked. */
  lemma NeverBelowWithoutSnapshots(m: Merge, n: nat, states: seq<Cluster>, steps: seq<Step>)
    requires IsRun(m, n, states, steps) && forall j :: 0 <= j < |steps| ==> SnapshotFree(steps[j])
    ensures NoneBelow(states, steps)
  {
    hide IsStep;
    forall k | 0 <= k < |steps| && steps[k].AppendDelivery? && steps[k].append.to < |states[k].nodes|
      ensures !BelowSnapshot(states[k].nodes[steps[k].append.to], steps[k].append.args)
    {
      RunUnsnapped(m, n, states, steps, k);
      DeliveredWellFormed(m, n, states, steps, k);
    }
  }

  lemma DeliveredWellFormed(m: Merge, n: nat, states: seq<Cluster>, steps: seq<Step>, k: nat)
    requires IsRun(m, n, states, steps) && k < |steps| && steps[k].AppendDelivery?
    ensures 0 <= steps[k].append.args.prevLogIndex
  {
    hide Apply;
    assert IsStep(m, states[k], steps[k], states[k + 1]);
    assert AppendCallShape(states[k], steps[k].append);
  }

  /** A message from below the receiver's snapshot: its rejection, handled by a leader still in that
      term, leaves the leader unable to build its next round exactly when the receiver's snapshot
      reaches past the leader's log. */
  lemma BelowSnapshotBlocks(m: Merge, leader: Node, follower: Node, call: AppendCall)
    requires Shaped(leader) && Shaped(follower) && leader.status.Leader? && CanHeartBeat(leader)
    requires call.to < leader.peers && call.to != leader.me && call.round < |leader.appendNums|
    requires call.args.term == leader.currentTerm && BelowSnapshot(follower, call.args)
    ensures var reply := AppendEntries(m, follower, call.args).1;
            Refused(leader, reply) && Indexed(AppendReplied(leader, call, reply))
    ensures var nd' := AppendReplied(leader, call, AppendEntries(m, follower, call.args).1);
            CanHeartBeat(nd') <==> follower.snapIndex <= LastIndex(leader)
  {
    hide AppendReplied;
    RejectedFollower(m, follower, call.args);
    var reply := AppendRejection(follower, call.args);
    RejectedLeader(leader, call, reply);
    assert leader.nextIndex[call.to := reply.updateNextIndex][call.to] == follower.snapIndex + 1;
  }
}
