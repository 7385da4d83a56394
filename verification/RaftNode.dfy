/** One Raft node: each locked region of raft.cpp as a function from the old to the new state. */
module RaftNode {
  import opened RaftTypes

  // ---------------------------------------------------------------------------------------
  // Index helpers
  // ---------------------------------------------------------------------------------------

  /** Log slots carry consecutive indices, starting after the snapshot. */
  ghost predicate Indexed(nd: Node) {
    forall i :: 0 <= i < |nd.logs| ==> nd.logs[i].index == nd.snapIndex + i + 1
  }

  function LastIndex(nd: Node): (r: int)
    requires Indexed(nd)
    ensures r == nd.snapIndex + |nd.logs|
  {
    if |nd.logs| == 0 then nd.snapIndex else nd.logs[|nd.logs| - 1].index
  }

  function LastTerm(nd: Node): int {
    if |nd.logs| == 0 then nd.snapTerm else nd.logs[|nd.logs| - 1].term
  }

  /** The slot of a log index that is still in the log. */
  function Slice(nd: Node, index: int): (r: nat)
    requires Indexed(nd)
    requires nd.snapIndex < index <= LastIndex(nd)
    ensures r < |nd.logs| && nd.logs[r].index == index
  {
    index - nd.snapIndex - 1
  }

  function TermAt(nd: Node, index: int): int
    requires Indexed(nd)
    requires nd.snapIndex <= index <= LastIndex(nd)
  {
    if index == nd.snapIndex then nd.snapTerm else nd.logs[Slice(nd, index)].term
  }

  /** The node has this index, as its snapshot's last or in its log, with this term. */
  ghost predicate Holds(nd: Node, index: int, term: int) {
    || (index == nd.snapIndex && term == nd.snapTerm)
    || (nd.snapIndex < index <= nd.snapIndex + |nd.logs| && nd.logs[index - nd.snapIndex - 1].term == term)
  }

  predicate UpToDate(nd: Node, index: int, term: int)
    requires Indexed(nd)
  {
    term > LastTerm(nd) || (term == LastTerm(nd) && index >= LastIndex(nd))
  }

  function StepDown(nd: Node, term: int): Node {
    nd.(status := Follower, currentTerm := term, votedFor := -1)
  }

  // ---------------------------------------------------------------------------------------
  // Elections
  // ---------------------------------------------------------------------------------------

  function BecomeLeader(nd: Node): Node
    requires Indexed(nd)
  {
    nd.(status := Leader,
        nextIndex := seq(|nd.nextIndex|, _ => LastIndex(nd) + 1),
        matchIndex := seq(|nd.nextIndex|, _ => 0))
  }

  /** doElection: nothing happens on a leader; a cluster of one elects itself at once. */
  function Election(nd: Node): Node
    requires Indexed(nd)
  {
    if nd.status.Leader? then nd
    else
      var term := nd.currentTerm + 1;
      var candidate := nd.(status := Candidate, currentTerm := term, votedFor := nd.me,
                           votedNums := nd.votedNums[term := 1]);
      if nd.peers == 1 then BecomeLeader(candidate) else candidate
  }

  function ElectionArgs(nd: Node): VoteArgs
    requires Indexed(nd)
  {
    VoteArgs(nd.currentTerm + 1, nd.me, LastIndex(nd), LastTerm(nd))
  }

  function ElectionCalls(nd: Node): set<VoteCall>
    requires Indexed(nd)
  {
    if nd.status.Leader? || nd.peers == 1 then {}
    else set to: nat | 0 <= to < nd.peers && to != nd.me :: VoteCall(nd.me, to, ElectionArgs(nd))
  }

  function RequestVote(nd: Node, a: VoteArgs): (Node, VoteReply)
    requires Indexed(nd)
  {
    if a.term < nd.currentTerm then (nd, VoteReply(nd.currentTerm, false, Expire))
    else
      var n1 := if a.term > nd.currentTerm then StepDown(nd, a.term) else nd;
      if !UpToDate(nd, a.lastLogIndex, a.lastLogTerm) then (n1, VoteReply(a.term, false, Voted))
      else if n1.votedFor != -1 && n1.votedFor != a.candidateId then (n1, VoteReply(a.term, false, Voted))
      else (n1.(votedFor := a.candidateId), VoteReply(a.term, true, Normal))
  }

  /** The half of sendRequestVote that runs after the reply arrives. */
  function VoteReplied(nd: Node, call: VoteCall, reply: VoteReply): Node
    requires Indexed(nd)
    requires call.args.term in nd.votedNums
  {
    if reply.term > nd.currentTerm then StepDown(nd, reply.term)
    else if reply.term < nd.currentTerm || !reply.granted then nd
    else
      var votes := nd.votedNums[call.args.term] + 1;
      if votes >= Majority(nd.peers) then
        BecomeLeader(nd.(votedNums := nd.votedNums[call.args.term := 0]))
      else nd.(votedNums := nd.votedNums[call.args.term := votes])
  }

  // ---------------------------------------------------------------------------------------
  // Replication
  // ---------------------------------------------------------------------------------------

  /** The loop of raft.cpp:88-119 as written; `pos` is the slot of the first entry. */
  function MergeAsWritten(logs: seq<Entry>, pos: nat, entries: seq<Entry>): (r: seq<Entry>)
    requires pos <= |logs|
    ensures |r| == (if |logs| < pos + |entries| then pos + |entries| else |logs|)
    ensures forall k :: 0 <= k < |logs| && (k < pos || pos + |entries| <= k) ==> r[k] == logs[k]
    ensures forall k :: pos <= k < pos + |entries| ==>
              r[k] == if k < |logs| && logs[k].term == entries[k - pos].term then logs[k] else entries[k - pos]
    decreases |entries|
  {
    if |entries| == 0 then logs
    else if pos == |logs| then MergeAsWritten(logs + [entries[0]], pos + 1, entries[1..])
    else if logs[pos].term != entries[0].term then
      MergeAsWritten(logs[pos := entries[0]], pos + 1, entries[1..])
    else MergeAsWritten(logs, pos + 1, entries[1..])
  }

  /** The same walk, but the first conflict cuts the log. */
  function MergeTruncating(logs: seq<Entry>, pos: nat, entries: seq<Entry>): seq<Entry>
    requires pos <= |logs|
    decreases |entries|
  {
    if |entries| == 0 then logs
    else if pos == |logs| then logs + entries
    else if logs[pos].term != entries[0].term then logs[..pos] + entries
    else MergeTruncating(logs, pos + 1, entries[1..])
  }

  function MergeLogs(m: Merge, logs: seq<Entry>, pos: nat, entries: seq<Entry>): seq<Entry>
    requires pos <= |logs|
  {
    match m
    case AsWritten => MergeAsWritten(logs, pos, entries)
    case Truncating => MergeTruncating(logs, pos, entries)
  }

  /** The search of raft.cpp:157-168 for the start of the conflicting term. */
  function Backtrack(nd: Node, prev: int, index: int): int
    requires Indexed(nd)
    requires nd.snapIndex <= prev <= LastIndex(nd)
    requires nd.snapIndex - 1 <= index <= prev
    decreases index - nd.snapIndex + 1
  {
    if index < nd.snapIndex then prev
    else if TermAt(nd, index) != TermAt(nd, prev) then index + 1
    else Backtrack(nd, prev, index - 1)
  }

  /** r is where the stretch of prev's term begins that ends at prev, or prev itself when that stretch
      reaches down to the snapshot. */
  ghost predicate StretchStart(nd: Node, prev: int, term: int, r: int) {
    && Holds(nd, prev, term) && nd.snapIndex <= r <= prev
    && if forall k :: nd.snapIndex <= k <= prev ==> Holds(nd, k, term) then r == prev
       else nd.snapIndex < r && !Holds(nd, r - 1, term) && forall k :: r <= k <= prev ==> Holds(nd, k, term)
  }

  /** What the search finds. */
  lemma {:induction false} BacktrackFinds(nd: Node, prev: int, index: int)
    requires Indexed(nd) && nd.snapIndex <= prev <= LastIndex(nd)
    requires nd.snapIndex - 1 <= index <= prev
    requires forall k :: index < k <= prev ==> Holds(nd, k, TermAt(nd, prev))
    ensures StretchStart(nd, prev, TermAt(nd, prev), Backtrack(nd, prev, index))
    decreases index - nd.snapIndex + 1
  {
    assert Holds(nd, prev, TermAt(nd, prev));
    if index >= nd.snapIndex {
      assert Holds(nd, index, TermAt(nd, index));
      if TermAt(nd, index) == TermAt(nd, prev) {
        BacktrackFinds(nd, prev, index - 1);
      } else {
        assert !Holds(nd, index, TermAt(nd, prev));
      }
    }
  }

  predicate AcceptsAppend(nd: Node, a: AppendArgs)
    requires Indexed(nd)
  {
    && a.term >= nd.currentTerm
    && nd.snapIndex <= a.prevLogIndex <= LastIndex(nd)
    && TermAt(nd, a.prevLogIndex) == a.prevLogTerm
  }

  function AppendRejection(nd: Node, a: AppendArgs): AppendReply
    requires Indexed(nd)
    requires !AcceptsAppend(nd, a)
  {
    if a.term < nd.currentTerm then AppendReply(nd.currentTerm, false, -100)
    else if a.prevLogIndex > LastIndex(nd) then AppendReply(a.term, false, LastIndex(nd) + 1)
    else if a.prevLogIndex < nd.snapIndex then AppendReply(a.term, false, nd.snapIndex + 1)
    else AppendReply(a.term, false, Backtrack(nd, a.prevLogIndex, a.prevLogIndex))
  }

  /** The follower's answer.  Below the snapshot the source falls through to an assertion that
      ends the process; the model rejects, as the commented-out return intends. */
  function AppendEntries(m: Merge, nd: Node, a: AppendArgs): (Node, AppendReply)
    requires Indexed(nd)
  {
    var n1 := if a.term > nd.currentTerm then StepDown(nd, a.term)
              else if a.term == nd.currentTerm then nd.(status := Follower)
              else nd;
    if !AcceptsAppend(nd, a) then (n1, AppendRejection(nd, a))
    else
      var logs := MergeLogs(m, nd.logs, a.prevLogIndex - nd.snapIndex, a.entries);
      var commit := if a.leaderCommit > nd.commitIndex then Min(a.leaderCommit, nd.snapIndex + |logs|)
                    else nd.commitIndex;
      (n1.(logs := logs, commitIndex := commit), AppendReply(a.term, true, 0))
  }

  /** The assertions doHeartBeat makes before it can build its messages. */
  ghost predicate CanHeartBeat(nd: Node)
    requires Indexed(nd)
  {
    nd.status.Leader? ==>
      forall i :: 0 <= i < |nd.nextIndex| && i != nd.me ==> 1 <= nd.nextIndex[i] <= LastIndex(nd) + 1
  }

  function HeartBeatArgs(nd: Node, to: nat): AppendArgs
    requires Indexed(nd)
    requires to < |nd.nextIndex| && nd.snapIndex < nd.nextIndex[to] <= LastIndex(nd) + 1
  {
    var prev := nd.nextIndex[to] - 1;
    AppendArgs(nd.currentTerm, nd.me, prev, TermAt(nd, prev), nd.logs[prev - nd.snapIndex..], nd.commitIndex)
  }

  /** doHeartBeat opens a round with its own reply counter. */
  function HeartBeat(nd: Node): Node {
    if nd.status.Leader? then nd.(appendNums := nd.appendNums + [1]) else nd
  }

  /** Peers whose nextIndex is covered by the snapshot get a snapshot instead of entries. */
  function HeartBeatCalls(nd: Node): set<AppendCall>
    requires Indexed(nd)
    requires CanHeartBeat(nd)
  {
    if !nd.status.Leader? then {}
    else set to: nat | 0 <= to < |nd.nextIndex| && to != nd.me && nd.snapIndex < nd.nextIndex[to]
           :: AppendCall(nd.me, to, |nd.appendNums|, HeartBeatArgs(nd, to))
  }

  /** The half of sendAppendEntries that runs after the reply arrives. */
  function AppendReplied(nd: Node, call: AppendCall, reply: AppendReply): Node
    requires call.to < |nd.nextIndex| == |nd.matchIndex|
    requires call.round < |nd.appendNums|
  {
    if reply.term > nd.currentTerm then StepDown(nd, reply.term)
    else if reply.term < nd.currentTerm || !nd.status.Leader? then nd
    else if !reply.success then
      if reply.updateNextIndex == -100 then nd
      else nd.(nextIndex := nd.nextIndex[call.to := reply.updateNextIndex])
    else
      var acks := nd.appendNums[call.round] + 1;
      var matched := Max(nd.matchIndex[call.to], call.args.End());
      var n1 := nd.(matchIndex := nd.matchIndex[call.to := matched],
                    nextIndex := nd.nextIndex[call.to := matched + 1]);
      if acks < 1 + nd.peers / 2 then n1.(appendNums := nd.appendNums[call.round := acks])
      else
        var commits := |call.args.entries| > 0 && call.args.entries[|call.args.entries| - 1].term == nd.currentTerm;
        n1.(appendNums := nd.appendNums[call.round := 0],
            commitIndex := if commits then Max(nd.commitIndex, call.args.End()) else nd.commitIndex)
  }

  /** The peers that leaderUpdateCommitIndex counts for an index. */
  function Matching(nd: Node, index: int): (r: set<nat>)
    requires |nd.matchIndex| == nd.peers
  {
    set i: nat | 0 <= i < nd.peers && (i == nd.me || nd.matchIndex[i] >= index)
  }

  predicate Committable(nd: Node, index: int)
    requires Indexed(nd)
    requires |nd.matchIndex| == nd.peers
    requires nd.snapIndex < index <= LastIndex(nd)
  {
    |Matching(nd, index)| >= Majority(nd.peers) && TermAt(nd, index) == nd.currentTerm
  }

  /** leaderUpdateCommitIndex: the highest committable index, or the snapshot index. */
  function ScanCommit(nd: Node, index: int): (r: int)
    requires Indexed(nd)
    requires |nd.matchIndex| == nd.peers
    requires nd.snapIndex <= index <= LastIndex(nd)
    ensures nd.snapIndex <= r <= index
    ensures r > nd.snapIndex ==> Committable(nd, r)
    ensures forall k :: r < k <= index ==> !Committable(nd, k)
    decreases index - nd.snapIndex
  {
    if index == nd.snapIndex then nd.snapIndex
    else if Committable(nd, index) then index
    else ScanCommit(nd, index - 1)
  }

  function Appended(nd: Node, command: string): Node
    requires Indexed(nd)
  {
    nd.(logs := nd.logs + [Entry(LastIndex(nd) + 1, nd.currentTerm, command)])
  }

  function Start(nd: Node, command: string): Node
    requires Indexed(nd)
    requires |nd.matchIndex| == nd.peers
  {
    if !nd.status.Leader? then nd
    else
      var n1 := Appended(nd, command);
      n1.(commitIndex := ScanCommit(n1, LastIndex(n1)))
  }

  // ---------------------------------------------------------------------------------------
  // Applying and snapshots
  // ---------------------------------------------------------------------------------------

  /** The messages for the indices low+1 .. high. */
  function Emission(nd: Node, low: int, high: int): (r: seq<ApplyMsg>)
    requires Indexed(nd)
    requires nd.snapIndex <= low && high <= LastIndex(nd)
    ensures |r| == (if low < high then high - low else 0)
    ensures forall k :: 0 <= k < |r| ==>
              r[k].index == low + k + 1 && r[k].command == nd.logs[low + k - nd.snapIndex].command
    decreases high - low
  {
    if low >= high then []
    else Emission(nd, low, high - 1) + [ApplyMsg(high, nd.logs[Slice(nd, high)].command)]
  }

  /** getApplyLogs, with its result pushed on the apply channel. */
  function ApplyLogs(nd: Node): Node
    requires Indexed(nd)
    requires nd.snapIndex <= nd.lastApplied && nd.commitIndex <= LastIndex(nd)
  {
    nd.(lastApplied := Max(nd.lastApplied, nd.commitIndex),
        emitted := nd.emitted + Emission(nd, nd.lastApplied, nd.commitIndex))
  }

  predicate CanSnapshot(nd: Node, index: int) {
    nd.snapIndex < index <= nd.commitIndex
  }

  function Snapshot(nd: Node, index: int): Node
    requires Indexed(nd)
    requires nd.commitIndex <= LastIndex(nd)
  {
    if !CanSnapshot(nd, index) then nd
    else nd.(snapIndex := index, snapTerm := TermAt(nd, index), logs := nd.logs[index - nd.snapIndex..],
             commitIndex := Max(nd.commitIndex, index), lastApplied := Max(nd.lastApplied, index))
  }

  function SnapshotArgs(nd: Node): SnapArgs {
    SnapArgs(nd.currentTerm, nd.me, nd.snapIndex, nd.snapTerm)
  }

  /** InstallSnapshot.  An outdated snapshot leaves the reply's term unset, which reads as 0. */
  function InstallSnapshot(nd: Node, a: SnapArgs): (Node, int)
    requires Indexed(nd)
  {
    if a.term < nd.currentTerm then (nd, nd.currentTerm)
    else
      var n1 := if a.term > nd.currentTerm then StepDown(nd, a.term) else nd.(status := Follower);
      if a.lastIndex <= nd.snapIndex then (n1, 0)
      else
        var logs := if LastIndex(nd) > a.lastIndex then nd.logs[a.lastIndex - nd.snapIndex..] else [];
        (n1.(logs := logs, commitIndex := Max(nd.commitIndex, a.lastIndex),
             lastApplied := Max(nd.lastApplied, a.lastIndex), snapIndex := a.lastIndex, snapTerm := a.lastTerm),
         a.term)
  }

  /** The half of leaderSendSnapShot that runs after the reply arrives. */
  function SnapReplied(nd: Node, call: SnapCall, replyTerm: int): Node
    requires call.to < |nd.nextIndex| == |nd.matchIndex|
  {
    if !nd.status.Leader? || nd.currentTerm != call.args.term then nd
    else if replyTerm > nd.currentTerm then StepDown(nd, replyTerm)
    else nd.(matchIndex := nd.matchIndex[call.to := call.args.lastIndex],
             nextIndex := nd.nextIndex[call.to := call.args.lastIndex + 1])
  }

  function InitNode(me: nat, peers: nat): Node {
    Node(me, peers, 0, -1, Follower, [], 0, 0, seq(peers, _ => 0), seq(peers, _ => 0), 0, 0, map[], [], [])
  }

  // ---------------------------------------------------------------------------------------
  // What every handler keeps
  // ---------------------------------------------------------------------------------------

  ghost predicate Shaped(nd: Node) {
    && Indexed(nd)
    && nd.me < nd.peers
    && |nd.nextIndex| == |nd.matchIndex| == nd.peers
    && 0 <= nd.snapIndex <= nd.commitIndex
    && nd.snapIndex <= nd.lastApplied
    && 0 <= nd.currentTerm
  }

  /** Identity is fixed; terms, rounds and elections are never taken back. */
  ghost predicate Follows(nd: Node, nd': Node) {
    && nd'.me == nd.me && nd'.peers == nd.peers
    && nd.currentTerm <= nd'.currentTerm
    && nd.votedNums.Keys <= nd'.votedNums.Keys
    && |nd.appendNums| <= |nd'.appendNums|
    && nd.snapIndex <= nd'.snapIndex
    && nd.lastApplied <= nd'.lastApplied
  }

  lemma ElectionFollows(nd: Node)
    requires Shaped(nd)
    ensures Shaped(Election(nd)) && Follows(nd, Election(nd))
  {
  }

  lemma RequestVoteFollows(nd: Node, a: VoteArgs)
    requires Shaped(nd)
    ensures Shaped(RequestVote(nd, a).0) && Follows(nd, RequestVote(nd, a).0)
  {
  }

  lemma VoteRepliedFollows(nd: Node, call: VoteCall, reply: VoteReply)
    requires Shaped(nd) && call.args.term in nd.votedNums
    ensures Shaped(VoteReplied(nd, call, reply)) && Follows(nd, VoteReplied(nd, call, reply))
  {
  }

  lemma {:induction false} MergeKeepsIndices(m: Merge, logs: seq<Entry>, pos: nat, entries: seq<Entry>, base: int)
    requires pos <= |logs|
    requires forall i :: 0 <= i < |logs| ==> logs[i].index == base + i
    requires forall i :: 0 <= i < |entries| ==> entries[i].index == base + pos + i
    ensures var r := MergeLogs(m, logs, pos, entries);
            forall i :: 0 <= i < |r| ==> r[i].index == base + i
    decreases |entries|
  {
    match m
    case AsWritten =>
      var r := MergeAsWritten(logs, pos, entries);
      forall i | 0 <= i < |r|
        ensures r[i].index == base + i
      {
        if pos <= i < pos + |entries| {
          assert entries[i - pos].index == base + i;
        }
      }
    case Truncating =>
      if |entries| == 0 || pos == |logs| || logs[pos].term != entries[0].term {
        var r := MergeTruncating(logs, pos, entries);
        forall i | 0 <= i < |r|
          ensures r[i].index == base + i
        {
          if |entries| > 0 && i >= pos {
            assert r[i] == entries[i - pos];
          }
        }
      } else {
        MergeKeepsIndices(m, logs, pos + 1, entries[1..], base);
        assert MergeLogs(m, logs, pos, entries) == MergeLogs(m, logs, pos + 1, entries[1..]);
      }
  }

  lemma AppendEntriesFollows(m: Merge, nd: Node, a: AppendArgs)
    requires Shaped(nd) && a.WellFormed()
    ensures Shaped(AppendEntries(m, nd, a).0) && Follows(nd, AppendEntries(m, nd, a).0)
  {
    if AcceptsAppend(nd, a) {
      MergeKeepsIndices(m, nd.logs, a.prevLogIndex - nd.snapIndex, a.entries, nd.snapIndex + 1);
    }
  }

  lemma HeartBeatFollows(nd: Node)
    requires Shaped(nd)
    ensures Shaped(HeartBeat(nd)) && Follows(nd, HeartBeat(nd))
  {
  }

  lemma AppendRepliedFollows(nd: Node, call: AppendCall, reply: AppendReply)
    requires Shaped(nd) && call.to < nd.peers && call.round < |nd.appendNums|
    ensures Shaped(AppendReplied(nd, call, reply)) && Follows(nd, AppendReplied(nd, call, reply))
  {
  }

  lemma StartFollows(nd: Node, command: string)
    requires Shaped(nd)
    ensures Shaped(Start(nd, command)) && Follows(nd, Start(nd, command))
  {
  }

  lemma ApplyLogsFollows(nd: Node)
    requires Shaped(nd) && nd.commitIndex <= LastIndex(nd)
    ensures Shaped(ApplyLogs(nd)) && Follows(nd, ApplyLogs(nd))
  {
  }

  lemma SnapshotFollows(nd: Node, index: int)
    requires Shaped(nd) && nd.commitIndex <= LastIndex(nd)
    ensures Shaped(Snapshot(nd, index)) && Follows(nd, Snapshot(nd, index))
    ensures LastIndex(Snapshot(nd, index)) == LastIndex(nd)
  {
  }

  lemma InstallSnapshotFollows(nd: Node, a: SnapArgs)
    requires Shaped(nd)
    ensures Shaped(InstallSnapshot(nd, a).0) && Follows(nd, InstallSnapshot(nd, a).0)
    ensures LastIndex(InstallSnapshot(nd, a).0) >= LastIndex(nd)
  {
  }

  lemma SnapRepliedFollows(nd: Node, call: SnapCall, replyTerm: int)
    requires Shaped(nd) && call.to < nd.peers
    ensures Shaped(SnapReplied(nd, call, replyTerm)) && Follows(nd, SnapReplied(nd, call, replyTerm))
  {
  }
}
