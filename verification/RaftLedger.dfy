/** Entry uniqueness: across all nodes, messages and times, index and term determine an entry.
    Both merges, with snapshots. */
module RaftLedger {
  import opened RaftTypes
  import opened RaftNode
  import opened RaftCluster
  import opened RaftElection
  import opened RaftEvidence

  /** Everything any leader ever appended, by (index, term). */
  type Ledger = map<(int, int), string>

  ghost function Record(s: Cluster, l: Ledger, step: Step): Ledger
    requires Shape(s) && Enabled(s, step)
  {
    match step
    case StartStep(n, command) =>
      var nd := s.nodes[n];
      if nd.status.Leader? then l[(LastIndex(nd) + 1, nd.currentTerm) := command] else l
    case _ => l
  }

  ghost predicate Recorded(l: Ledger, e: Entry) {
    (e.index, e.term) in l && l[(e.index, e.term)] == e.command
  }

  ghost predicate LogRecorded(l: Ledger, log: seq<Entry>) {
    forall i :: 0 <= i < |log| ==> Recorded(l, log[i])
  }

  ghost predicate LedgerInv(s: Cluster, b: Ballots, l: Ledger)
    requires Shape(s)
  {
    && (forall n :: 0 <= n < |s.nodes| ==> LogRecorded(l, s.nodes[n].logs))
    && (forall call :: call in s.appendCalls ==> LogRecorded(l, call.args.entries))
    && (forall key :: key in l ==> key.1 in b.elected)
    && (forall key, n :: key in l && 0 <= n < |s.nodes| && s.nodes[n].status.Leader? && s.nodes[n].currentTerm == key.1
          ==> key.0 <= LastIndex(s.nodes[n]))
  }

  ghost predicate LedgerGrows(l: Ledger, l': Ledger) {
    forall key :: key in l ==> key in l' && l'[key] == l[key]
  }

  lemma LogRecordedGrows(l: Ledger, l': Ledger, log: seq<Entry>)
    requires LogRecorded(l, log) && LedgerGrows(l, l')
    ensures LogRecorded(l', log)
  {
  }

  lemma {:induction false} MergeRecorded(m: Merge, l: Ledger, logs: seq<Entry>, pos: nat, entries: seq<Entry>)
    requires pos <= |logs| && LogRecorded(l, logs) && LogRecorded(l, entries)
    ensures LogRecorded(l, MergeLogs(m, logs, pos, entries))
    decreases |entries|
  {
    if m.Truncating? && |entries| > 0 && pos < |logs| && logs[pos].term == entries[0].term {
      MergeRecorded(m, l, logs, pos + 1, entries[1..]);
      assert MergeLogs(m, logs, pos, entries) == MergeLogs(m, logs, pos + 1, entries[1..]);
    }
  }

  // ---------------------------------------------------------------------------------------
  // Steps
  // ---------------------------------------------------------------------------------------

  /** Apart from appending and merging, a node only ever drops entries. */
  lemma OtherStepsCopy(m: Merge, s: Cluster, step: Step)
    requires Shape(s) && Enabled(s, step)
    requires !step.StartStep? && !step.AppendDelivery?
    ensures forall i :: 0 <= i < |NewNode(m, s, step).logs| ==> NewNode(m, s, step).logs[i] in s.nodes[Actor(step)].logs
  {
  }

  lemma ActorRecorded(m: Merge, s: Cluster, l: Ledger, step: Step)
    requires Shape(s) && Enabled(s, step)
    requires LogRecorded(l, s.nodes[Actor(step)].logs)
    requires step.AppendDelivery? ==> LogRecorded(l, step.append.args.entries)
    requires !step.StartStep?
    ensures LogRecorded(l, NewNode(m, s, step).logs)
  {
    if step.AppendDelivery? {
      var nd, a := s.nodes[Actor(step)], step.append.args;
      if AcceptsAppend(nd, a) {
        MergeRecorded(m, l, nd.logs, a.prevLogIndex - nd.snapIndex, a.entries);
      }
    } else {
      OtherStepsCopy(m, s, step);
    }
  }

  lemma ReignKeepsLast(m: Merge, s: Cluster, step: Step)
    requires Shape(s) && Enabled(s, step)
    requires s.nodes[Actor(step)].status.Leader? && NewNode(m, s, step).status.Leader?
    ensures NewNode(m, s, step).currentTerm == s.nodes[Actor(step)].currentTerm
    ensures Indexed(NewNode(m, s, step)) && LastIndex(s.nodes[Actor(step)]) <= LastIndex(NewNode(m, s, step))
  {
    hide VoteCallShape, AppendCallShape, SnapCallShape, MergeAsWritten, MergeTruncating;
    NewNodeFollows(m, s, step);
    if step.SnapshotStep? {
      SnapshotFollows(s.nodes[step.n], step.index);
    }
  }

  lemma CallsRecorded(m: Merge, s: Cluster, b: Ballots, l: Ledger, step: Step, s': Cluster)
    requires LedgerInvShape(s, b, l) && IsStep(m, s, step, s')
    ensures forall call :: call in s'.appendCalls ==> LogRecorded(l, call.args.entries)
  {
    hide NewNode, LogRecorded, HeartBeatCalls;
    if step.HeartBeatStep? {
      assert LogRecorded(l, s.nodes[step.n].logs);
      HeartBeatRecorded(l, s.nodes[step.n]);
    }
  }

  lemma HeartBeatRecorded(l: Ledger, nd: Node)
    requires Shaped(nd) && CanHeartBeat(nd) && LogRecorded(l, nd.logs)
    ensures forall call :: call in HeartBeatCalls(nd) ==> LogRecorded(l, call.args.entries)
  {
    forall call | call in HeartBeatCalls(nd)
      ensures LogRecorded(l, call.args.entries)
    {
      assert call.args.entries == nd.logs[nd.nextIndex[call.to] - 1 - nd.snapIndex..];
    }
  }

  ghost predicate LedgerInvShape(s: Cluster, b: Ballots, l: Ledger) {
    Shape(s) && LedgerInv(s, b, l)
  }

  lemma ActorKeepsLast(m: Merge, s: Cluster, b: Ballots, l: Ledger, step: Step, key: (int, int))
    requires BallotInv(s, b) && LedgerInvShape(s, b, l) && Enabled(s, step)
    requires key in l && NewNode(m, s, step).status.Leader? && NewNode(m, s, step).currentTerm == key.1
    ensures Indexed(NewNode(m, s, step)) && key.0 <= LastIndex(NewNode(m, s, step))
  {
    if s.nodes[Actor(step)].status.Leader? {
      ReignKeepsLast(m, s, step);
    } else {
      LeaderWasCrowned(m, s, step);
      CrownedTermIsFresh(m, s, b, step);
    }
  }

  lemma LeadersKeepLast(m: Merge, s: Cluster, b: Ballots, l: Ledger, step: Step, s': Cluster)
    requires BallotInv(s, b) && LedgerInvShape(s, b, l) && IsStep(m, s, step, s') && Shape(s')
    ensures forall key, n ::
              key in l && 0 <= n < |s'.nodes| && s'.nodes[n].status.Leader? && s'.nodes[n].currentTerm == key.1
              ==> key.0 <= LastIndex(s'.nodes[n])
  {
    hide BallotInv, Enabled, Apply, NewNode, LogRecorded;
    OnlyActorMoves(m, s, step, s');
    forall key, n | key in l && 0 <= n < |s'.nodes| && s'.nodes[n].status.Leader? && s'.nodes[n].currentTerm == key.1
      ensures key.0 <= LastIndex(s'.nodes[n])
    {
      if n == Actor(step) {
        ActorKeepsLast(m, s, b, l, step, key);
      }
    }
  }

  lemma CopyStepKeepsLedger(m: Merge, s: Cluster, b: Ballots, l: Ledger, step: Step, s': Cluster, b': Ballots)
    requires BallotInv(s, b) && LedgerInvShape(s, b, l) && BallotStep(m, s, b, step, s', b')
    requires !step.StartStep?
    ensures LedgerInvShape(s', b', l)
  {
    hide BallotInv, LogRecorded;
    StepKeepsShape(m, s, step, s');
    OnlyActorMoves(m, s, step, s');
    LeadersKeepLast(m, s, b, l, step, s');
    ActorRecorded(m, s, l, step);
    CallsRecorded(m, s, b, l, step, s');
  }

  lemma LeaderWasCrowned(m: Merge, s: Cluster, step: Step)
    requires Shape(s) && Enabled(s, step)
    requires !s.nodes[Actor(step)].status.Leader? && NewNode(m, s, step).status.Leader?
    ensures Crowns(s, step)
  {
    if step.VoteAnswer? {
      assert VoteCallShape(s, step.vote);
    }
  }

  lemma RecordsGrow(s: Cluster, l: Ledger, n: nat, command: string, l': Ledger)
    requires Shape(s) && n < |s.nodes|
    requires LedgerGrows(l, l')
    requires Recorded(l', Entry(LastIndex(s.nodes[n]) + 1, s.nodes[n].currentTerm, command))
    requires forall i :: 0 <= i < |s.nodes| ==> LogRecorded(l, s.nodes[i].logs)
    requires forall call :: call in s.appendCalls ==> LogRecorded(l, call.args.entries)
    ensures forall i :: 0 <= i < |s.nodes| ==> LogRecorded(l', s.nodes[i].logs)
    ensures LogRecorded(l', Appended(s.nodes[n], command).logs)
    ensures forall call :: call in s.appendCalls ==> LogRecorded(l', call.args.entries)
  {
    forall i | 0 <= i < |s.nodes|
      ensures LogRecorded(l', s.nodes[i].logs)
    {
      LogRecordedGrows(l, l', s.nodes[i].logs);
    }
    forall call | call in s.appendCalls
      ensures LogRecorded(l', call.args.entries)
    {
      LogRecordedGrows(l, l', call.args.entries);
    }
  }

  lemma StartKeepsLedger(m: Merge, s: Cluster, b: Ballots, l: Ledger, n: nat, command: string, s': Cluster, b': Ballots)
    requires LeadersElected(s, b) && LedgerInvShape(s, b, l)
    requires BallotStep(m, s, b, StartStep(n, command), s', b') && s.nodes[n].status.Leader?
    ensures LedgerInvShape(s', b', Record(s, l, StartStep(n, command)))
    ensures LedgerGrows(l, Record(s, l, StartStep(n, command)))
  {
    var step := StartStep(n, command);
    var nd, l' := s.nodes[n], Record(s, l, step);
    StepKeepsShape(m, s, step, s');
    assert (LastIndex(nd) + 1, nd.currentTerm) !in l;
    RecordsGrow(s, l, n, command, l');
    forall key, i | key in l' && 0 <= i < |s'.nodes| && s'.nodes[i].status.Leader? && s'.nodes[i].currentTerm == key.1
      ensures key.0 <= LastIndex(s'.nodes[i])
    {
      if i != n {
        assert b.elected[key.1] == i;
      }
    }
  }

  lemma StepKeepsLedger(m: Merge, s: Cluster, b: Ballots, l: Ledger, step: Step, s': Cluster, b': Ballots)
    requires BallotInv(s, b) && LedgerInvShape(s, b, l) && BallotStep(m, s, b, step, s', b')
    ensures LedgerInvShape(s', b', Record(s, l, step)) && LedgerGrows(l, Record(s, l, step))
  {
    if step.StartStep? {
      if s.nodes[step.n].status.Leader? {
        StartKeepsLedger(m, s, b, l, step.n, step.command, s', b');
      } else {
        assert s'.nodes == s.nodes;
        StepKeepsShape(m, s, step, s');
      }
    } else {
      CopyStepKeepsLedger(m, s, b, l, step, s', b');
    }
  }

  // ---------------------------------------------------------------------------------------
  // All runs
  // ---------------------------------------------------------------------------------------

  ghost predicate LedgerTrace(states: seq<Cluster>, bs: seq<Ballots>, ls: seq<Ledger>) {
    && |ls| <= |states| && |ls| <= |bs|
    && (forall k :: 0 <= k < |ls| ==> LedgerInvShape(states[k], bs[k], ls[k]))
    && (forall k :: 0 <= k < |ls| - 1 ==> LedgerGrows(ls[k], ls[k + 1]))
  }

  lemma ExtendLedger(states: seq<Cluster>, bs: seq<Ballots>, ls: seq<Ledger>, l: Ledger) returns (ls': seq<Ledger>)
    requires LedgerTrace(states, bs, ls) && 0 < |ls| < |states| && |ls| < |bs|
    requires LedgerInvShape(states[|ls|], bs[|ls|], l) && LedgerGrows(ls[|ls| - 1], l)
    ensures |ls'| == |ls| + 1 && LedgerTrace(states, bs, ls')
  {
    ls' := ls + [l];
    forall k | 0 <= k < |ls'| - 1
      ensures LedgerGrows(ls'[k], ls'[k + 1])
    {
      if k < |ls| - 1 {
        assert LedgerGrows(ls[k], ls[k + 1]);
      }
    }
  }

  lemma NextLedger(
      m: Merge, states: seq<Cluster>, steps: seq<Step>, bs: seq<Ballots>, ls: seq<Ledger>) returns (ls': seq<Ledger>)
    requires BallotTrace(m, states, steps, bs) && LedgerTrace(states, bs, ls) && 0 < |ls| < |states|
    ensures |ls'| == |ls| + 1 && LedgerTrace(states, bs, ls')
  {
    var k := |ls| - 1;
    TraceStep(m, states, steps, bs, k);
    assert LedgerInvShape(states[k], bs[k], ls[k]);
    StepKeepsLedger(m, states[k], bs[k], ls[k], steps[k], states[k + 1], bs[k + 1]);
    ls' := ExtendLedger(states, bs, ls, Record(states[k], ls[k], steps[k]));
  }

  lemma {:induction false} RunHasLedger(
      m: Merge, states: seq<Cluster>, steps: seq<Step>, bs: seq<Ballots>, n: nat, k: nat) returns (ls: seq<Ledger>)
    requires BallotTrace(m, states, steps, bs) && k < |states|
    requires states[0] == InitCluster(n)
    ensures |ls| == k + 1 && LedgerTrace(states, bs, ls)
  {
    if k == 0 {
      InitShape(n);
      ls := [map[]];
    } else {
      ls := RunHasLedger(m, states, steps, bs, n, k - 1);
      ls := NextLedger(m, states, steps, bs, ls);
    }
  }

  lemma {:induction false} LedgerGrowsAlong(ls: seq<Ledger>, j: nat, k: nat)
    requires forall i :: 0 <= i < |ls| - 1 ==> LedgerGrows(ls[i], ls[i + 1])
    requires j <= k < |ls|
    ensures LedgerGrows(ls[j], ls[k])
    decreases k
  {
    if j < k {
      LedgerGrowsAlong(ls, j, k - 1);
      assert LedgerGrows(ls[k - 1], ls[k - 1 + 1]);
    }
  }

  /** Index and term determine the entry, in the logs of any two nodes at any two times. */
  lemma EntryUniqueness(
      m: Merge, n: nat, states: seq<Cluster>, steps: seq<Step>, j: nat, k: nat, p: nat, q: nat, e: Entry, f: Entry)
    requires IsRun(m, n, states, steps)
    requires j <= k <= |steps|
    requires p < |states[j].nodes| && q < |states[k].nodes|
    requires e in states[j].nodes[p].logs && f in states[k].nodes[q].logs
    requires e.index == f.index && e.term == f.term
    ensures e == f
  {
    var bs := RunHasBallots(m, n, states, steps);
    var ls := RunHasLedger(m, states, steps, bs, n, k);
    assert LedgerInvShape(states[j], bs[j], ls[j]) && LedgerInvShape(states[k], bs[k], ls[k]);
    assert LogRecorded(ls[j], states[j].nodes[p].logs) && LogRecorded(ls[k], states[k].nodes[q].logs);
    LedgerGrowsAlong(ls, j, k);
  }

  /** Entries of a message and of a log that share slot and term are the same entry. */
  ghost predicate Consistent(logs: seq<Entry>, pos: nat, entries: seq<Entry>) {
    forall k :: pos <= k < |logs| && k < pos + |entries| && logs[k].term == entries[k - pos].term ==>
      logs[k] == entries[k - pos]
  }

  /** The assertion at raft.cpp:107 never fires: whatever message arrives wherever and whenever,
      its entries do not contradict an entry of the same index and term. */
  lemma DeliveriesConsistent(
      m: Merge, n: nat, states: seq<Cluster>, steps: seq<Step>, k: nat, call: AppendCall)
    requires IsRun(m, n, states, steps) && k <= |steps|
    requires Shape(states[k]) && call in states[k].appendCalls
    requires AcceptsAppend(states[k].nodes[call.to], call.args)
    ensures var nd := states[k].nodes[call.to];
            Consistent(nd.logs, call.args.prevLogIndex - nd.snapIndex, call.args.entries)
  {
    var bs := RunHasBallots(m, n, states, steps);
    var ls := RunHasLedger(m, states, steps, bs, n, k);
    assert LedgerInvShape(states[k], bs[k], ls[k]);
    assert AppendCallShape(states[k], call);
    var nd := states[k].nodes[call.to];
    assert LogRecorded(ls[k], nd.logs) && LogRecorded(ls[k], call.args.entries);
  }
}
