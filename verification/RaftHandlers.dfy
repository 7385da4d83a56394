/** What each locked region of raft.cpp decides and does, told from the fields of the node and of the
    message alone: when a vote is granted, where a rejected leader has to go back to, what is applied.
    The functions of RaftNode, and with them the methods of class Raft, are held to these. */
module RaftHandlers {
  import opened RaftTypes
  import opened RaftNode

  /** The index of the last entry, or of the snapshot. */
  function End(nd: Node): int {
    nd.snapIndex + |nd.logs|
  }

  /** (term, index) is at least (t, i), terms first. */
  predicate AtLeast(term: int, index: int, t: int, i: int) {
    term > t || (term == t && index >= i)
  }

  /** More than half of the peers. */
  predicate MoreThanHalf(votes: int, peers: nat) {
    2 * votes > peers
  }

  /** nd' is nd in a later term, without a vote there. */
  predicate SteppedDown(nd: Node, nd': Node, term: int) {
    nd' == nd.(currentTerm := term, votedFor := -1, status := Follower)
  }

  /** nd' is nd as a fresh leader that expects every peer to be up to date and knows none to be. */
  ghost predicate Crowned(nd: Node, nd': Node) {
    && nd'.status.Leader? && |nd'.nextIndex| == |nd'.matchIndex| == |nd.nextIndex|
    && (forall i :: 0 <= i < |nd'.nextIndex| ==> nd'.nextIndex[i] == End(nd) + 1 && nd'.matchIndex[i] == 0)
    && nd' == nd.(status := nd'.status, nextIndex := nd'.nextIndex, matchIndex := nd'.matchIndex)
  }

  // ---------------------------------------------------------------------------------------
  // Elections
  // ---------------------------------------------------------------------------------------

  /** Standing for election: a new term, one's own vote in it, and one request to every other peer; a
      leader does nothing and a node without peers has won. */
  lemma Stands(nd: Node, lastTerm: int)
    requires Shaped(nd) && Holds(nd, End(nd), lastTerm)
    ensures nd.status.Leader? ==> Election(nd) == nd && ElectionCalls(nd) == {}
    ensures !nd.status.Leader? ==>
              var t := nd.currentTerm + 1;
              var candidate := nd.(currentTerm := t, votedFor := nd.me, votedNums := nd.votedNums[t := 1]);
              if nd.peers > 1 then Election(nd) == candidate.(status := Candidate)
              else Crowned(candidate, Election(nd))
    ensures forall call :: call in ElectionCalls(nd) <==>
              && !nd.status.Leader? && nd.peers > 1
              && call.from == nd.me && call.to < nd.peers && call.to != nd.me
              && call.args == VoteArgs(nd.currentTerm + 1, nd.me, End(nd), lastTerm)
  {
    forall call: VoteCall | !nd.status.Leader? && nd.peers > 1
      && call.from == nd.me && call.to < nd.peers && call.to != nd.me
      && call.args == VoteArgs(nd.currentTerm + 1, nd.me, End(nd), lastTerm)
      ensures call in ElectionCalls(nd)
    {
      assert call == VoteCall(nd.me, call.to, ElectionArgs(nd));
    }
  }

  /** A vote is granted exactly when the request is of no earlier term, the candidate's last entry is at
      least as late as the voter's, and the voter is free for it in that term. */
  lemma VoteDecision(nd: Node, a: VoteArgs, lastTerm: int)
    requires Shaped(nd) && Holds(nd, End(nd), lastTerm)
    ensures var (nd', reply) := RequestVote(nd, a);
            && (reply.granted <==>
                  && a.term >= nd.currentTerm
                  && AtLeast(a.lastLogTerm, a.lastLogIndex, lastTerm, End(nd))
                  && (a.term > nd.currentTerm || nd.votedFor == -1 || nd.votedFor == a.candidateId))
            && reply.term == nd'.currentTerm == Max(a.term, nd.currentTerm)
            && (reply.state.Expire? <==> a.term < nd.currentTerm) && (reply.state.Normal? <==> reply.granted)
            && nd'.votedFor == (if reply.granted then a.candidateId
                                else if a.term > nd.currentTerm then -1 else nd.votedFor)
            && nd'.status == (if a.term > nd.currentTerm then Follower else nd.status)
            && nd' == nd.(currentTerm := nd'.currentTerm, votedFor := nd'.votedFor, status := nd'.status)
  {
  }

  /** A reply of a later term unseats the node, one of an earlier term or a refusal changes nothing, and a
      vote is counted: with it the node leads once more than half of the peers have been counted. */
  lemma VoteAnswered(nd: Node, call: VoteCall, reply: VoteReply)
    requires Shaped(nd) && call.args.term in nd.votedNums
    ensures var nd', t := VoteReplied(nd, call, reply), call.args.term;
            var votes := nd.votedNums[t] + 1;
            if reply.term > nd.currentTerm then SteppedDown(nd, nd', reply.term)
            else if reply.term < nd.currentTerm || !reply.granted then nd' == nd
            else if MoreThanHalf(votes, nd.peers) then Crowned(nd.(votedNums := nd.votedNums[t := 0]), nd')
            else nd' == nd.(votedNums := nd.votedNums[t := votes])
  {
  }

  // ---------------------------------------------------------------------------------------
  // Replication
  // ---------------------------------------------------------------------------------------

  /** A heartbeat opens a round and sends one message to every other peer whose nextIndex the log still
      covers: everything from there on, what comes just before it, and how far the leader has committed. */
  lemma HeartBeats(nd: Node)
    requires Shaped(nd) && CanHeartBeat(nd)
    ensures !nd.status.Leader? ==> HeartBeat(nd) == nd && HeartBeatCalls(nd) == {}
    ensures nd.status.Leader? ==> HeartBeat(nd) == nd.(appendNums := nd.appendNums + [1])
    ensures forall call :: call in HeartBeatCalls(nd) <==>
              && nd.status.Leader? && call.from == nd.me && call.round == |nd.appendNums|
              && call.to < nd.peers && call.to != nd.me && nd.snapIndex < nd.nextIndex[call.to]
              && call.args.term == nd.currentTerm && call.args.leaderId == nd.me
              && call.args.prevLogIndex == nd.nextIndex[call.to] - 1
              && Holds(nd, call.args.prevLogIndex, call.args.prevLogTerm)
              && call.args.entries == nd.logs[call.args.prevLogIndex - nd.snapIndex..]
              && call.args.leaderCommit == nd.commitIndex
  {
    forall call: AppendCall
      ensures call in HeartBeatCalls(nd) <==>
              && nd.status.Leader? && call.from == nd.me && call.round == |nd.appendNums|
              && call.to < nd.peers && call.to != nd.me && nd.snapIndex < nd.nextIndex[call.to]
              && call.args.term == nd.currentTerm && call.args.leaderId == nd.me
              && call.args.prevLogIndex == nd.nextIndex[call.to] - 1
              && Holds(nd, call.args.prevLogIndex, call.args.prevLogTerm)
              && call.args.entries == nd.logs[call.args.prevLogIndex - nd.snapIndex..]
              && call.args.leaderCommit == nd.commitIndex
    {
      HeartBeatsTo(nd, call);
    }
  }

  lemma HeartBeatsTo(nd: Node, call: AppendCall)
    requires Shaped(nd) && CanHeartBeat(nd)
    ensures call in HeartBeatCalls(nd) <==>
              && nd.status.Leader? && call.from == nd.me && call.round == |nd.appendNums|
              && call.to < nd.peers && call.to != nd.me && nd.snapIndex < nd.nextIndex[call.to]
              && call.args.term == nd.currentTerm && call.args.leaderId == nd.me
              && call.args.prevLogIndex == nd.nextIndex[call.to] - 1
              && Holds(nd, call.args.prevLogIndex, call.args.prevLogTerm)
              && call.args.entries == nd.logs[call.args.prevLogIndex - nd.snapIndex..]
              && call.args.leaderCommit == nd.commitIndex
  {
    if nd.status.Leader? && call.to < nd.peers && call.to != nd.me && nd.snapIndex < nd.nextIndex[call.to] {
      var sent := AppendCall(nd.me, call.to, |nd.appendNums|, HeartBeatArgs(nd, call.to));
      assert sent in HeartBeatCalls(nd);
    }
  }

  /** A message is accepted exactly when it is of no earlier term and the node has its previous entry. */
  lemma AppendDecision(m: Merge, nd: Node, a: AppendArgs)
    requires Shaped(nd)
    ensures var (nd', reply) := AppendEntries(m, nd, a);
            && (reply.success <==> a.term >= nd.currentTerm && Holds(nd, a.prevLogIndex, a.prevLogTerm))
            && reply.term == nd'.currentTerm == Max(a.term, nd.currentTerm)
            && nd'.votedFor == (if a.term > nd.currentTerm then -1 else nd.votedFor)
            && nd'.status == (if a.term >= nd.currentTerm then Follower else nd.status)
            && (!reply.success ==> nd'.logs == nd.logs)
            && nd'.commitIndex == (if reply.success && a.leaderCommit > nd.commitIndex
                                   then Min(a.leaderCommit, End(nd')) else nd.commitIndex)
            && nd' == nd.(currentTerm := nd'.currentTerm, votedFor := nd'.votedFor, status := nd'.status,
                          logs := nd'.logs, commitIndex := nd'.commitIndex)
  {
    hide MergeLogs, Backtrack;
  }

  /** Where a rejection sends the leader: nowhere if it is stale, just past the node's log or snapshot if
      that is where the message misses, and else to where the conflicting term begins. */
  lemma RejectionSays(m: Merge, nd: Node, a: AppendArgs)
    requires Shaped(nd) && !(a.term >= nd.currentTerm && Holds(nd, a.prevLogIndex, a.prevLogTerm))
    ensures var next := AppendEntries(m, nd, a).1.updateNextIndex;
            if a.term < nd.currentTerm then next == -100
            else if a.prevLogIndex > End(nd) then next == End(nd) + 1
            else if a.prevLogIndex < nd.snapIndex then next == nd.snapIndex + 1
            else exists t :: t != a.prevLogTerm && StretchStart(nd, a.prevLogIndex, t, next)
  {
    if a.term >= nd.currentTerm && nd.snapIndex <= a.prevLogIndex <= End(nd) {
      BacktrackFinds(nd, a.prevLogIndex, a.prevLogIndex);
    }
  }

  /** What the merge as written makes of the log: entries of the message where the log has none or one of
      another term, the log's own everywhere else. */
  lemma AcceptedEntries(nd: Node, a: AppendArgs)
    requires Shaped(nd) && a.term >= nd.currentTerm && Holds(nd, a.prevLogIndex, a.prevLogTerm)
    ensures var nd', p := AppendEntries(AsWritten, nd, a).0, a.prevLogIndex - nd.snapIndex;
            && End(nd') == Max(End(nd), a.End())
            && forall k :: 0 <= k < |nd'.logs| ==>
                 nd'.logs[k] ==
                   if p <= k < p + |a.entries| && (k >= |nd.logs| || nd.logs[k].term != a.entries[k - p].term)
                   then a.entries[k - p] else nd.logs[k]
  {
  }

  /** What the truncating merge makes of it: the message from its first conflict on, and nothing behind. */
  lemma {:induction false} TruncatedEntries(logs: seq<Entry>, pos: nat, entries: seq<Entry>, c: nat)
    requires pos <= |logs| && c <= |entries| && pos + c <= |logs|
    requires forall k :: pos <= k < pos + c ==> logs[k].term == entries[k - pos].term
    requires c < |entries| ==> pos + c == |logs| || logs[pos + c].term != entries[c].term
    ensures MergeTruncating(logs, pos, entries) ==
              if c < |entries| then logs[..pos + c] + entries[c..] else logs
    decreases |entries|
  {
    if c > 0 {
      assert logs[pos].term == entries[pos - pos].term;
      forall k | pos + 1 <= k < pos + c
        ensures logs[k].term == entries[1..][k - (pos + 1)].term
      {
        assert entries[1..][k - (pos + 1)] == entries[k - pos];
      }
      TruncatedEntries(logs, pos + 1, entries[1..], c - 1);
      assert entries[1..][c - 1..] == entries[c..];
    } else if |entries| > 0 {
      assert entries[0..] == entries;
      assert logs[..|logs|] == logs;
    }
  }

  /** A leader learns of a later term and steps down; of a mismatch and takes over the index it is told; of a
      success and moves the peer's match forward, never back.  When the round's counter passes one half, it
      starts anew, and what ended in an own-term entry is committed. */
  lemma AppendAnswered(nd: Node, call: AppendCall, reply: AppendReply)
    requires Shaped(nd) && call.to < nd.peers && call.round < |nd.appendNums|
    ensures var nd', acks := AppendReplied(nd, call, reply), nd.appendNums[call.round] + 1;
            var matched := Max(nd.matchIndex[call.to], call.args.End());
            if reply.term > nd.currentTerm then SteppedDown(nd, nd', reply.term)
            else if reply.term < nd.currentTerm || !nd.status.Leader? then nd' == nd
            else if !reply.success then
              nd' == nd.(nextIndex := if reply.updateNextIndex == -100 then nd.nextIndex
                                      else nd.nextIndex[call.to := reply.updateNextIndex])
            else
              && nd'.matchIndex == nd.matchIndex[call.to := matched]
              && nd'.nextIndex == nd.nextIndex[call.to := matched + 1]
              && nd'.appendNums == nd.appendNums[call.round := if MoreThanHalf(acks, nd.peers) then 0 else acks]
              && nd'.commitIndex ==
                   (if MoreThanHalf(acks, nd.peers) && |call.args.entries| > 0
                       && call.args.entries[|call.args.entries| - 1].term == nd.currentTerm
                    then Max(nd.commitIndex, call.args.End()) else nd.commitIndex)
              && nd' == nd.(matchIndex := nd'.matchIndex, nextIndex := nd'.nextIndex, appendNums := nd'.appendNums,
                            commitIndex := nd'.commitIndex)
  {
  }

  /** The peers that hold the log up to an index, as far as a leader knows. */
  function Holders(nd: Node, index: int): set<nat>
    requires nd.peers <= |nd.matchIndex|
  {
    set i: nat | 0 <= i < nd.peers && (i == nd.me || nd.matchIndex[i] >= index)
  }

  /** More than half of the peers hold the log up to an own-term entry at this index. */
  ghost predicate Replicated(nd: Node, index: int)
    requires nd.peers <= |nd.matchIndex|
  {
    MoreThanHalf(|Holders(nd, index)|, nd.peers) && Holds(nd, index, nd.currentTerm)
  }

  /** A leader appends the command at the next index in its own term, and its commit index becomes the last
      index that is replicated, or the snapshot's if none is; anybody else does nothing. */
  lemma Starts(nd: Node, command: string)
    requires Shaped(nd)
    ensures !nd.status.Leader? ==> Start(nd, command) == nd
    ensures nd.status.Leader? ==>
              var nd' := Start(nd, command);
              && nd'.logs == nd.logs + [Entry(End(nd) + 1, nd.currentTerm, command)]
              && nd' == nd.(logs := nd'.logs, commitIndex := nd'.commitIndex)
              && nd.snapIndex <= nd'.commitIndex <= End(nd')
              && (nd'.commitIndex > nd.snapIndex ==> Replicated(nd', nd'.commitIndex))
              && forall k :: nd'.commitIndex < k <= End(nd') ==> !Replicated(nd', k)
  {
    if nd.status.Leader? {
      var n1, nd' := Appended(nd, command), Start(nd, command);
      forall k | nd.snapIndex < k <= End(nd')
        ensures Replicated(nd', k) <==> Committable(n1, k)
      {
        assert Holders(nd', k) == Matching(n1, k);
      }
    }
  }

  // ---------------------------------------------------------------------------------------
  // Applying and snapshots
  // ---------------------------------------------------------------------------------------

  /** getApplyLogs, whatever the node's status: everything committed and not yet applied is handed out, in
      order and once, and nothing else. */
  lemma Applies(nd: Node)
    requires Shaped(nd) && nd.commitIndex <= End(nd)
    ensures var nd' := ApplyLogs(nd);
            && nd'.lastApplied == Max(nd.lastApplied, nd.commitIndex)
            && nd.emitted <= nd'.emitted
            && |nd'.emitted| - |nd.emitted| == nd'.lastApplied - nd.lastApplied
            && (forall k :: |nd.emitted| <= k < |nd'.emitted| ==>
                  var i := nd.lastApplied + 1 + k - |nd.emitted|;
                  nd'.emitted[k] == ApplyMsg(i, nd.logs[i - nd.snapIndex - 1].command))
            && nd' == nd.(lastApplied := nd'.lastApplied, emitted := nd'.emitted)
  {
    var nd', r := ApplyLogs(nd), Emission(nd, nd.lastApplied, nd.commitIndex);
    forall k | |nd.emitted| <= k < |nd'.emitted|
      ensures nd'.emitted[k].index == nd.lastApplied + 1 + k - |nd.emitted|
      ensures nd'.emitted[k].command == nd.logs[nd'.emitted[k].index - nd.snapIndex - 1].command
    {
      assert nd'.emitted[k] == r[k - |nd.emitted|];
    }
  }

  /** A snapshot is taken at a committed index past the last one, with that entry's term; what comes after
      stays in the log. */
  lemma Compacts(nd: Node, index: int)
    requires Shaped(nd) && nd.commitIndex <= End(nd)
    ensures !(nd.snapIndex < index <= nd.commitIndex) ==> Snapshot(nd, index) == nd
    ensures nd.snapIndex < index <= nd.commitIndex ==>
              var nd' := Snapshot(nd, index);
              && nd'.snapIndex == index && nd'.snapTerm == nd.logs[index - nd.snapIndex - 1].term
              && End(nd') == End(nd)
              && (forall i, t :: i >= index ==> (Holds(nd', i, t) <==> Holds(nd, i, t)))
              && nd'.logs == nd.logs[index - nd.snapIndex..]
              && nd'.lastApplied == Max(nd.lastApplied, index)
              && nd' == nd.(snapIndex := index, snapTerm := nd'.snapTerm, logs := nd'.logs,
                            lastApplied := nd'.lastApplied)
  {
  }

  /** A later snapshot replaces everything up to its index and brings the node that far; an outdated one, or
      one of an earlier term, leaves log and snapshot alone. */
  lemma Installs(nd: Node, a: SnapArgs)
    requires Shaped(nd)
    ensures var (nd', replyTerm) := InstallSnapshot(nd, a);
            var taken := a.term >= nd.currentTerm && a.lastIndex > nd.snapIndex;
            && nd'.currentTerm == Max(a.term, nd.currentTerm)
            && nd'.votedFor == (if a.term > nd.currentTerm then -1 else nd.votedFor)
            && nd'.status == (if a.term >= nd.currentTerm then Follower else nd.status)
            && replyTerm == (if a.term >= nd.currentTerm && !taken then 0 else nd'.currentTerm)
            && nd'.snapIndex == (if taken then a.lastIndex else nd.snapIndex)
            && nd'.snapTerm == (if taken then a.lastTerm else nd.snapTerm)
            && nd'.logs == (if !taken then nd.logs
                            else if End(nd) > a.lastIndex then nd.logs[a.lastIndex - nd.snapIndex..] else [])
            && nd'.commitIndex == (if taken then Max(nd.commitIndex, a.lastIndex) else nd.commitIndex)
            && nd'.lastApplied == (if taken then Max(nd.lastApplied, a.lastIndex) else nd.lastApplied)
            && nd' == nd.(currentTerm := nd'.currentTerm, votedFor := nd'.votedFor, status := nd'.status,
                          snapIndex := nd'.snapIndex, snapTerm := nd'.snapTerm, logs := nd'.logs,
                          commitIndex := nd'.commitIndex, lastApplied := nd'.lastApplied)
  {
  }

  /** A leader still in the term it sent the snapshot in steps down before a later term, and otherwise takes
      the peer to be exactly where the snapshot ends. */
  lemma SnapshotAnswered(nd: Node, call: SnapCall, replyTerm: int)
    requires Shaped(nd) && call.to < nd.peers
    ensures var nd' := SnapReplied(nd, call, replyTerm);
            if !nd.status.Leader? || nd.currentTerm != call.args.term then nd' == nd
            else if replyTerm > nd.currentTerm then SteppedDown(nd, nd', replyTerm)
            else nd' == nd.(matchIndex := nd.matchIndex[call.to := call.args.lastIndex],
                            nextIndex := nd.nextIndex[call.to := call.args.lastIndex + 1])
  {
  }
}
