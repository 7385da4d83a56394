/** Class Raft: the same handlers as methods that update the node in place, each proved to do to the
    object what the corresponding function of RaftNode does to its state. */
module RaftServer {
  import opened RaftTypes
  import N = RaftNode

  class Raft {
    const me: nat
    const peers: nat
    var currentTerm: int
    var votedFor: int
    var status: Status
    var logs: seq<Entry>
    var commitIndex: int
    var lastApplied: int
    var nextIndex: seq<int>
    var matchIndex: seq<int>
    var snapIndex: int
    var snapTerm: int
    var votedNums: map<int, int>
    var appendNums: seq<int>
    var applied: seq<ApplyMsg>

    ghost function State(): Node
      reads this
    {
      Node(me, peers, currentTerm, votedFor, status, logs, commitIndex, lastApplied, nextIndex, matchIndex,
           snapIndex, snapTerm, votedNums, appendNums, applied)
    }

    ghost predicate Valid()
      reads this
    {
      N.Shaped(State())
    }

    constructor (me: nat, peers: nat)
      requires me < peers
      ensures Valid() && State() == N.InitNode(me, peers)
    {
      this.me, this.peers := me, peers;
      currentTerm, status, commitIndex, lastApplied := 0, Follower, 0, 0;
      logs, votedFor, snapIndex, snapTerm := [], -1, 0, 0;
      nextIndex, matchIndex := [], [];
      votedNums, appendNums, applied := map[], [], [];
      new;
      for i := 0 to peers
        invariant matchIndex == seq(i, _ => 0) && nextIndex == seq(i, _ => 0)
        invariant currentTerm == commitIndex == lastApplied == snapIndex == snapTerm == 0
        invariant status == Follower && votedFor == -1 && logs == [] && appendNums == [] && applied == []
        invariant votedNums == map[]
      {
        matchIndex := matchIndex + [0];
        nextIndex := nextIndex + [0];
      }
    }

    // -------------------------------------------------------------------------------------
    // Index helpers
    // -------------------------------------------------------------------------------------

    method GetLastLogIndexAndTerm() returns (index: int, term: int)
      requires Valid()
      ensures index == N.LastIndex(State()) && term == N.LastTerm(State())
    {
      if |logs| == 0 {
        index, term := snapIndex, snapTerm;
      } else {
        index, term := logs[|logs| - 1].index, logs[|logs| - 1].term;
      }
    }

    method GetLogTermFromLogIndex(logIndex: int) returns (term: int)
      requires N.Indexed(State()) && snapIndex <= logIndex <= N.LastIndex(State())
      ensures term == N.TermAt(State(), logIndex)
    {
      if logIndex == snapIndex {
        term := snapTerm;
      } else {
        term := logs[logIndex - snapIndex - 1].term;
      }
    }

    /** Reads the entry just before nextIndex[server]. */
    method GetPrevLogInfo(server: nat) returns (index: int, term: int)
      requires Valid() && server < peers && snapIndex < nextIndex[server] <= N.LastIndex(State()) + 1
      ensures index == nextIndex[server] - 1 && term == N.TermAt(State(), index)
    {
      if nextIndex[server] == snapIndex + 1 {
        index, term := snapIndex, snapTerm;
      } else {
        index := nextIndex[server] - 1;
        term := logs[index - snapIndex - 1].term;
      }
    }

    // -------------------------------------------------------------------------------------
    // Elections
    // -------------------------------------------------------------------------------------

    method BecomeLeader()
      requires Valid()
      modifies this
      ensures State() == N.BecomeLeader(old(State()))
    {
      status := Leader;
      var last, _ := GetLastLogIndexAndTerm();
      ghost var was := State();
      for i := 0 to |nextIndex|
        invariant |nextIndex| == |matchIndex| == peers
        invariant State() == was.(nextIndex := nextIndex, matchIndex := matchIndex)
        invariant forall j :: 0 <= j < i ==> nextIndex[j] == last + 1 && matchIndex[j] == 0
      {
        nextIndex := nextIndex[i := last + 1];
        matchIndex := matchIndex[i := 0];
      }
      assert State() == N.BecomeLeader(was);
    }

    method DoElection() returns (calls: set<VoteCall>)
      requires Valid()
      modifies this
      ensures Valid() && State() == N.Election(old(State()))
      ensures calls == N.ElectionCalls(old(State()))
    {
      calls := {};
      if status == Leader {
        return;
      }
      status := Candidate;
      currentTerm := currentTerm + 1;
      votedFor := me;
      votedNums := votedNums[currentTerm := 1];
      if peers == 1 {
        BecomeLeader();
        return;
      }
      var last, term := GetLastLogIndexAndTerm();
      var args := VoteArgs(currentTerm, me, last, term);
      assert args == N.ElectionArgs(old(State()));
      for i := 0 to peers
        invariant calls == set to: nat | 0 <= to < i && to != me :: VoteCall(me, to, args)
      {
        if i != me {
          calls := calls + {VoteCall(me, i, args)};
        }
      }
    }

    method RequestVote(a: VoteArgs) returns (reply: VoteReply)
      requires Valid()
      modifies this
      ensures Valid() && (State(), reply) == N.RequestVote(old(State()), a)
    {
      if a.term < currentTerm {
        return VoteReply(currentTerm, false, Expire);
      }
      var last, term := GetLastLogIndexAndTerm();
      if a.term > currentTerm {
        status, currentTerm, votedFor := Follower, a.term, -1;
      }
      if !(a.lastLogTerm > term || (a.lastLogTerm == term && a.lastLogIndex >= last)) {
        return VoteReply(currentTerm, false, Voted);
      }
      if votedFor != -1 && votedFor != a.candidateId {
        return VoteReply(currentTerm, false, Voted);
      }
      votedFor := a.candidateId;
      reply := VoteReply(currentTerm, true, Normal);
    }

    /** sendRequestVote, once the reply is there. */
    method HandleVoteReply(call: VoteCall, reply: VoteReply)
      requires Valid() && call.args.term in votedNums
      modifies this
      ensures Valid() && State() == N.VoteReplied(old(State()), call, reply)
    {
      if reply.term > currentTerm {
        status, currentTerm, votedFor := Follower, reply.term, -1;
        return;
      }
      if reply.term < currentTerm || !reply.granted {
        return;
      }
      votedNums := votedNums[call.args.term := votedNums[call.args.term] + 1];
      if votedNums[call.args.term] >= peers / 2 + 1 {
        votedNums := votedNums[call.args.term := 0];
        assert votedNums == old(votedNums)[call.args.term := 0];
        BecomeLeader();
      }
    }

    // -------------------------------------------------------------------------------------
    // Replication
    // -------------------------------------------------------------------------------------

    /** The search for the first entry of the conflicting term. */
    method FindConflict(prev: int) returns (next: int)
      requires Valid() && snapIndex <= prev <= N.LastIndex(State())
      ensures next == N.Backtrack(State(), prev, prev)
      ensures N.StretchStart(State(), prev, N.TermAt(State(), prev), next)
    {
      N.BacktrackFinds(State(), prev, prev);
      next := prev;
      var conflict := GetLogTermFromLogIndex(prev);
      var index := prev;
      while index >= snapIndex
        invariant snapIndex - 1 <= index <= prev && next == prev
        invariant N.Backtrack(State(), prev, index) == N.Backtrack(State(), prev, prev)
      {
        var term := GetLogTermFromLogIndex(index);
        if term != conflict {
          next := index + 1;
          return;
        }
        index := index - 1;
      }
    }

    /** What the loop makes of a log when the entries from i on are still to come. */
    static ghost function Rest(logs: seq<Entry>, pos: nat, entries: seq<Entry>, i: nat): seq<Entry>
      requires i <= |entries| && pos + i <= |logs|
    {
      N.MergeAsWritten(logs, pos + i, entries[i..])
    }

    /** One round of that loop. */
    static lemma MergeOne(logs: seq<Entry>, pos: nat, entries: seq<Entry>, i: nat, logs': seq<Entry>)
      requires i < |entries| && pos + i <= |logs|
      requires logs' == if pos + i == |logs| then logs + [entries[i]]
                        else if logs[pos + i].term != entries[i].term then logs[pos + i := entries[i]] else logs
      ensures Rest(logs, pos, entries, i) == Rest(logs', pos, entries, i + 1)
    {
      assert entries[i..][0] == entries[i] && entries[i..][1..] == entries[i + 1..];
    }

    static lemma MergeEnds(logs: seq<Entry>, pos: nat, entries: seq<Entry>)
      requires pos <= |logs|
      ensures Rest(logs, pos, entries, 0) == N.MergeAsWritten(logs, pos, entries)
      ensures pos + |entries| <= |logs| ==> Rest(logs, pos, entries, |entries|) == logs
    {
      assert entries[0..] == entries;
    }

    /** The loop that folds the entries of a message into the log, one by one. */
    method MergeEntries(prev: int, entries: seq<Entry>)
      requires N.Indexed(State()) && snapIndex <= prev <= N.LastIndex(State())
      requires forall i :: 0 <= i < |entries| ==> entries[i].index == prev + i + 1
      modifies this`logs
      ensures N.Indexed(State())
      ensures logs == N.MergeAsWritten(old(logs), prev - snapIndex, entries)
    {
      hide Rest, N.MergeAsWritten;
      ghost var pos := prev - snapIndex;
      MergeEnds(logs, pos, entries);
      for i := 0 to |entries|
        invariant N.Indexed(State()) && pos + i <= |logs|
        invariant Rest(logs, pos, entries, i) == Rest(old(logs), pos, entries, 0)
      {
        var log := entries[i];
        ghost var before := logs;
        var last := if |logs| == 0 then snapIndex else logs[|logs| - 1].index;
        if log.index > last {
          logs := logs + [log];
        } else {
          var slot := log.index - snapIndex - 1;
          if logs[slot].term != log.term {
            logs := logs[slot := log];
          }
        }
        MergeOne(before, pos, entries, i, logs);
      }
      MergeEnds(logs, pos, entries);
    }

    /** The receiver's turn once its log matches at prevLogIndex. */
    method Accept(a: AppendArgs)
      requires Valid() && a.WellFormed() && N.AcceptsAppend(State(), a)
      modifies this`logs, this`commitIndex
      ensures N.Indexed(State())
      ensures logs == N.MergeAsWritten(old(logs), a.prevLogIndex - snapIndex, a.entries)
      ensures commitIndex == if a.leaderCommit > old(commitIndex) then Min(a.leaderCommit, snapIndex + |logs|)
                             else old(commitIndex)
    {
      MergeEntries(a.prevLogIndex, a.entries);
      var last := if |logs| == 0 then snapIndex else logs[|logs| - 1].index;
      assert last >= a.prevLogIndex + |a.entries|;
      if a.leaderCommit > commitIndex {
        commitIndex := Min(a.leaderCommit, last);
      }
    }

    /** Any message of a current leader: adopt its term and follow. */
    method Follow(term: int)
      requires Valid() && term >= currentTerm
      modifies this`status, this`currentTerm, this`votedFor
      ensures Valid()
      ensures status == Follower && currentTerm == term
      ensures votedFor == if term > old(currentTerm) then -1 else old(votedFor)
    {
      if term > currentTerm {
        status, currentTerm, votedFor := Follower, term, -1;
      }
      status := Follower;
    }

    method Reconcile(a: AppendArgs) returns (reply: AppendReply)
      requires Valid() && a.WellFormed() && currentTerm == a.term && status == Follower
      modifies this`logs, this`commitIndex
      ensures (State(), reply) == N.AppendEntries(AsWritten, old(State()), a)
    {
      var last, _ := GetLastLogIndexAndTerm();
      if a.prevLogIndex > last {
        return AppendReply(currentTerm, false, last + 1);
      } else if a.prevLogIndex < snapIndex {
        return AppendReply(currentTerm, false, snapIndex + 1);
      }
      var prevTerm := GetLogTermFromLogIndex(a.prevLogIndex);
      if prevTerm == a.prevLogTerm {
        hide N.MergeAsWritten;
        Accept(a);
        return AppendReply(currentTerm, true, 0);
      } else {
        var next := FindConflict(a.prevLogIndex);
        return AppendReply(currentTerm, false, next);
      }
    }

    method AppendEntries(a: AppendArgs) returns (reply: AppendReply)
      requires Valid() && a.WellFormed()
      modifies this
      ensures Valid() && (State(), reply) == N.AppendEntries(AsWritten, old(State()), a)
    {
      N.AppendEntriesFollows(AsWritten, State(), a);
      if a.term < currentTerm {
        return AppendReply(currentTerm, false, -100);
      }
      Follow(a.term);
      FollowFirst(old(State()), State(), a);
      hide N.AppendEntries;
      reply := Reconcile(a);
    }

    /** Adopting the leader's term beforehand does not change the answer. */
    static lemma FollowFirst(nd: Node, nd': Node, a: AppendArgs)
      requires N.Indexed(nd) && nd.currentTerm <= a.term
      requires nd' == nd.(status := Follower, currentTerm := a.term,
                          votedFor := if a.term > nd.currentTerm then -1 else nd.votedFor)
      ensures N.AppendEntries(AsWritten, nd', a) == N.AppendEntries(AsWritten, nd, a)
    {
      if !N.AcceptsAppend(nd, a) && nd.snapIndex <= a.prevLogIndex <= N.LastIndex(nd) {
        SameBacktrack(nd, nd', a.prevLogIndex, a.prevLogIndex);
      }
    }

    /** The search looks at nothing but the log and the snapshot. */
    static lemma {:induction false} SameBacktrack(nd: Node, nd': Node, prev: int, index: int)
      requires N.Indexed(nd) && N.Indexed(nd')
      requires nd'.logs == nd.logs && nd'.snapIndex == nd.snapIndex && nd'.snapTerm == nd.snapTerm
      requires nd.snapIndex <= prev <= N.LastIndex(nd) && nd.snapIndex - 1 <= index <= prev
      ensures N.Backtrack(nd, prev, index) == N.Backtrack(nd', prev, index)
      decreases index - nd.snapIndex + 1
    {
      if index >= nd.snapIndex {
        SameBacktrack(nd, nd', prev, index - 1);
      }
    }

    /** The entries from the one after `prev` to the end of the log. */
    method EntriesAfter(prev: int) returns (entries: seq<Entry>)
      requires Valid() && snapIndex <= prev <= N.LastIndex(State())
      ensures entries == logs[prev - snapIndex..]
    {
      entries := [];
      var first := if prev != snapIndex then prev - snapIndex else 0;
      for j := first to |logs|
        invariant entries == logs[first..j]
      {
        entries := entries + [logs[j]];
      }
    }

    /** The round's messages to the first i peers. */
    static ghost function CallsUpTo(nd: Node, i: nat): (calls: set<AppendCall>)
      requires N.Shaped(nd) && N.CanHeartBeat(nd) && nd.status.Leader? && i <= nd.peers
    {
      set to: nat | 0 <= to < i && to != nd.me && nd.snapIndex < nd.nextIndex[to]
        :: AppendCall(nd.me, to, |nd.appendNums|, N.HeartBeatArgs(nd, to))
    }

    static lemma NextCall(nd: Node, i: nat)
      requires N.Shaped(nd) && N.CanHeartBeat(nd) && nd.status.Leader? && i < nd.peers
      ensures if i != nd.me && nd.snapIndex < nd.nextIndex[i]
              then && nd.nextIndex[i] <= N.LastIndex(nd) + 1
                   && CallsUpTo(nd, i + 1) ==
                        CallsUpTo(nd, i) + {AppendCall(nd.me, i, |nd.appendNums|, N.HeartBeatArgs(nd, i))}
              else CallsUpTo(nd, i + 1) == CallsUpTo(nd, i)
    {
    }

    static lemma AllCalls(nd: Node)
      requires N.Shaped(nd) && N.CanHeartBeat(nd) && nd.status.Leader?
      ensures CallsUpTo(nd, 0) == {} && CallsUpTo(nd, nd.peers) == N.HeartBeatCalls(nd)
    {
    }

    /** The message of a round to one peer. */
    method MessageFor(i: nat) returns (args: AppendArgs)
      requires Valid() && i < peers && snapIndex < nextIndex[i] <= N.LastIndex(State()) + 1
      ensures args == N.HeartBeatArgs(State(), i)
    {
      var prev, term := GetPrevLogInfo(i);
      var entries := EntriesAfter(prev);
      args := AppendArgs(currentTerm, me, prev, term, entries, commitIndex);
    }

    /** The round's own counter is added last; nobody sees it before the lock is released. */
    method DoHeartBeat() returns (calls: set<AppendCall>)
      requires Valid() && N.CanHeartBeat(State())
      modifies this
      ensures Valid() && State() == N.HeartBeat(old(State()))
      ensures calls == N.HeartBeatCalls(old(State()))
    {
      hide CallsUpTo, N.HeartBeatArgs, N.CanHeartBeat, N.HeartBeatCalls;
      calls := {};
      if status != Leader {
        NoCalls(State());
        return;
      }
      var round := |appendNums|;
      AllCalls(State());
      for i := 0 to peers
        invariant State() == old(State()) && calls == CallsUpTo(State(), i)
      {
        NextCall(State(), i);
        if i != me && nextIndex[i] > snapIndex {
          var args := MessageFor(i);
          calls := calls + {AppendCall(me, i, round, args)};
        }
      }
      appendNums := appendNums + [1];
    }

    static lemma NoCalls(nd: Node)
      requires N.Shaped(nd) && N.CanHeartBeat(nd) && !nd.status.Leader?
      ensures N.HeartBeatCalls(nd) == {}
    {
    }

    /** sendAppendEntries, once the reply is there. */
    method HandleAppendReply(call: AppendCall, reply: AppendReply)
      requires Valid() && call.to < peers && call.round < |appendNums|
      modifies this
      ensures Valid() && State() == N.AppendReplied(old(State()), call, reply)
    {
      if reply.term > currentTerm {
        status, currentTerm, votedFor := Follower, reply.term, -1;
        return;
      }
      if reply.term < currentTerm || status != Leader {
        return;
      }
      if !reply.success {
        if reply.updateNextIndex != -100 {
          nextIndex := nextIndex[call.to := reply.updateNextIndex];
        }
        return;
      }
      appendNums := appendNums[call.round := appendNums[call.round] + 1];
      matchIndex := matchIndex[call.to := Max(matchIndex[call.to], call.args.End())];
      nextIndex := nextIndex[call.to := matchIndex[call.to] + 1];
      if appendNums[call.round] >= 1 + peers / 2 {
        appendNums := appendNums[call.round := 0];
        assert appendNums == old(appendNums)[call.round := 0];
        if |call.args.entries| > 0 && call.args.entries[|call.args.entries| - 1].term == currentTerm {
          commitIndex := Max(commitIndex, call.args.End());
        }
      }
    }

    /** How many peers are known to hold the log up to an index. */
    method CountMatching(index: int) returns (sum: nat)
      requires Valid()
      ensures sum == |N.Matching(State(), index)|
    {
      sum := 0;
      ghost var counted: set<nat> := {};
      for i := 0 to peers
        invariant counted == set p: nat | 0 <= p < i && (p == me || matchIndex[p] >= index)
        invariant sum == |counted|
      {
        if i == me || matchIndex[i] >= index {
          sum := sum + 1;
          counted := counted + {i};
        }
      }
      assert counted == N.Matching(State(), index);
    }

    method LeaderUpdateCommitIndex()
      requires Valid()
      modifies this`commitIndex
      ensures Valid()
      ensures commitIndex == N.ScanCommit(old(State()), N.LastIndex(old(State())))
    {
      ghost var was := State();
      commitIndex := snapIndex;
      var index, _ := GetLastLogIndexAndTerm();
      while index >= snapIndex + 1
        invariant snapIndex <= index <= N.LastIndex(was) && commitIndex == snapIndex
        invariant State() == was.(commitIndex := snapIndex)
        invariant N.ScanCommit(was, index) == N.ScanCommit(was, N.LastIndex(was))
      {
        var sum := CountMatching(index);
        var term := GetLogTermFromLogIndex(index);
        assert N.Matching(State(), index) == N.Matching(was, index);
        if sum >= peers / 2 + 1 && term == currentTerm {
          commitIndex := index;
          return;
        }
        index := index - 1;
      }
    }

    method Start(command: string) returns (newIndex: int, newTerm: int, isLeader: bool)
      requires Valid()
      modifies this
      ensures Valid() && State() == N.Start(old(State()), command)
      ensures isLeader == old(status).Leader?
      ensures if isLeader then newIndex == N.LastIndex(State()) && newTerm == currentTerm else newIndex == newTerm == -1
    {
      if status != Leader {
        return -1, -1, false;
      }
      var last, _ := GetLastLogIndexAndTerm();
      logs := logs + [Entry(last + 1, currentTerm, command)];
      assert State() == N.Appended(old(State()), command);
      LeaderUpdateCommitIndex();
      return last + 1, currentTerm, true;
    }

    // -------------------------------------------------------------------------------------
    // Applying and snapshots
    // -------------------------------------------------------------------------------------

    /** getApplyLogs, with its result pushed on the apply channel. */
    method ApplyLogs()
      requires Valid() && commitIndex <= N.LastIndex(State())
      modifies this
      ensures Valid() && State() == N.ApplyLogs(old(State()))
    {
      ghost var was := State();
      var msgs: seq<ApplyMsg> := [];
      while lastApplied < commitIndex
        invariant was.lastApplied <= lastApplied <= Max(was.lastApplied, commitIndex)
        invariant State() == was.(lastApplied := lastApplied)
        invariant msgs == N.Emission(was, was.lastApplied, Min(lastApplied, commitIndex))
      {
        lastApplied := lastApplied + 1;
        assert logs[lastApplied - snapIndex - 1].index == lastApplied;
        msgs := msgs + [ApplyMsg(lastApplied, logs[lastApplied - snapIndex - 1].command)];
      }
      applied := applied + msgs;
    }

    /** The entries with indices above `index`, copied one by one. */
    method EntriesAbove(index: int) returns (kept: seq<Entry>)
      requires Valid() && snapIndex < index <= N.LastIndex(State())
      ensures kept == logs[index - snapIndex..]
    {
      var last, _ := GetLastLogIndexAndTerm();
      kept := [];
      var i := index + 1;
      while i <= last
        invariant index < i <= last + 1
        invariant kept == logs[index - snapIndex..i - 1 - snapIndex]
      {
        kept := kept + [logs[i - snapIndex - 1]];
        i := i + 1;
      }
    }

    method Snapshot(index: int)
      requires Valid() && commitIndex <= N.LastIndex(State())
      modifies this
      ensures Valid() && State() == N.Snapshot(old(State()), index)
    {
      if snapIndex >= index || index > commitIndex {
        return;
      }
      N.SnapshotFollows(State(), index);
      var last, _ := GetLastLogIndexAndTerm();
      var newTerm := logs[index - snapIndex - 1].term;
      var kept := EntriesAbove(index);
      snapIndex, snapTerm, logs := index, newTerm, kept;
      commitIndex, lastApplied := Max(commitIndex, index), Max(lastApplied, index);
      assert |logs| + snapIndex == last;
    }

    /** Drops the part of the log a snapshot covers. */
    method DropUpTo(index: int)
      requires Valid() && index > snapIndex
      modifies this`logs
      ensures logs == if N.LastIndex(old(State())) > index then old(logs)[index - snapIndex..] else []
    {
      var last, _ := GetLastLogIndexAndTerm();
      if last > index {
        logs := logs[index - snapIndex..];
      } else {
        logs := [];
      }
    }

    method InstallSnapshot(a: SnapArgs) returns (replyTerm: int)
      requires Valid()
      modifies this
      ensures Valid() && (State(), replyTerm) == N.InstallSnapshot(old(State()), a)
    {
      hide N.Indexed;
      ghost var was := State();
      N.InstallSnapshotFollows(was, a);
      if a.term < currentTerm {
        return currentTerm;
      }
      Follow(a.term);
      if a.lastIndex <= snapIndex {
        return 0;
      }
      DropUpTo(a.lastIndex);
      commitIndex, lastApplied := Max(commitIndex, a.lastIndex), Max(lastApplied, a.lastIndex);
      snapIndex, snapTerm := a.lastIndex, a.lastTerm;
      assert State() == N.InstallSnapshot(was, a).0;
      return currentTerm;
    }

    /** leaderSendSnapShot, once the reply is there. */
    method HandleSnapshotReply(call: SnapCall, replyTerm: int)
      requires Valid() && call.to < peers
      modifies this
      ensures Valid() && State() == N.SnapReplied(old(State()), call, replyTerm)
    {
      if status != Leader || currentTerm != call.args.term {
        return;
      }
      if replyTerm > currentTerm {
        currentTerm, votedFor, status := replyTerm, -1, Follower;
        return;
      }
      matchIndex := matchIndex[call.to := call.args.lastIndex];
      nextIndex := nextIndex[call.to := matchIndex[call.to] + 1];
    }
  }
}
