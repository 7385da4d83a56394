/** Log matching, leader completeness and state machine safety, over all runs without snapshots
    whose merges truncate or are harmless; and log matching exactly for those. */
module RaftTheorems {
  import opened RaftTypes
  import opened RaftNode
  import opened RaftCluster
  import opened RaftElection
  import opened RaftEvidence
  import opened RaftBooks
  import opened RaftSafety
  import opened RaftRuns
  import opened RaftMerge

  ghost predicate SafeRun(m: Merge, n: nat, states: seq<Cluster>, steps: seq<Step>) {
    HarmlessRun(m, n, states, steps) && forall k :: 0 <= k < |steps| ==> SnapshotFree(steps[k])
  }

  /** A term's leader starts from one log, for good. */
  ghost predicate StartsKept(h: Books, h': Books) {
    forall t :: t in h.start ==> t in h'.start && h'.start[t] == h.start[t]
  }

  ghost predicate SafeTrace(states: seq<Cluster>, bs: seq<Ballots>, hs: seq<Books>) {
    && |hs| <= |states| && |hs| <= |bs|
    && (forall k :: 0 <= k < |hs| ==> SafeInv(states[k], bs[k], hs[k]))
    && (forall k :: 0 <= k < |hs| - 1 ==> Progress(states[k], hs[k], states[k + 1], hs[k + 1]))
    && (forall k :: 0 <= k < |hs| - 1 ==> StartsKept(hs[k], hs[k + 1]))
  }

  lemma ExtendTrace(states: seq<Cluster>, bs: seq<Ballots>, hs: seq<Books>, h: Books) returns (hs': seq<Books>)
    requires SafeTrace(states, bs, hs) && 0 < |hs| < |states| && |hs| < |bs|
    requires SafeInv(states[|hs|], bs[|hs|], h)
    requires Progress(states[|hs| - 1], hs[|hs| - 1], states[|hs|], h)
    requires StartsKept(hs[|hs| - 1], h)
    ensures |hs'| == |hs| + 1 && SafeTrace(states, bs, hs')
  {
    hide SafeInv, Progress, StartsKept;
    hs' := hs + [h];
  }

  lemma StepKeepsStarts(s: Cluster, b: Ballots, h: Books, step: Step)
    requires Shape(s) && Enabled(s, step) && BallotInv(s, b) && SafeInv(s, b, h)
    ensures StartsKept(h, KeepBooks(s, h, step))
  {
    hide BallotInv, CoreInv, CommitsInv;
    FullAreElected(s, b, h);
    if Crowns(s, step) {
      CrownedTermIsFresh(Truncating, s, b, step);
    }
  }

  lemma NextBooks(
      states: seq<Cluster>, steps: seq<Step>, bs: seq<Ballots>, rs: seq<Rounds>, hs: seq<Books>)
    returns (hs': seq<Books>)
    requires BallotTrace(Truncating, states, steps, bs) && SafeTrace(states, bs, hs)
    requires 0 < |hs| < |states| && |rs| == |states|
    requires RoundInv(states[|hs| - 1], bs[|hs| - 1], rs[|hs| - 1])
    requires SnapshotFree(steps[|hs| - 1])
    ensures |hs'| == |hs| + 1 && SafeTrace(states, bs, hs')
  {
    hide CoreInv, CommitsInv, BallotInv, RoundInv, Progress, Shape, Apply, Enabled, CountBallots, KeepsElected,
         StartsKept;
    var k := |hs| - 1;
    TraceStep(Truncating, states, steps, bs, k);
    assert SafeInv(states[k], bs[k], hs[k]);
    StepKeepsStarts(states[k], bs[k], hs[k], steps[k]);
    StepKeepsBooks(states[k], bs[k], rs[k], hs[k], steps[k], states[k + 1], bs[k + 1]);
    hs' := ExtendTrace(states, bs, hs, KeepBooks(states[k], hs[k], steps[k]));
  }

  lemma {:induction false} TraceUpTo(
      n: nat, states: seq<Cluster>, steps: seq<Step>, bs: seq<Ballots>, rs: seq<Rounds>, k: nat)
    returns (hs: seq<Books>)
    requires BallotTrace(Truncating, states, steps, bs) && k < |states| == |rs|
    requires states[0] == InitCluster(n) && bs[0] == NO_BALLOTS
    requires forall j :: 0 <= j < |states| ==> RoundInv(states[j], bs[j], rs[j])
    requires forall j :: 0 <= j < |steps| ==> SnapshotFree(steps[j])
    ensures |hs| == k + 1 && SafeTrace(states, bs, hs)
  {
    hide SafeInv, BallotInv, RoundInv, Progress, Shape, BallotStep;
    if k == 0 {
      InitSafe(n);
      hs := [NO_BOOKS];
    } else {
      hs := TraceUpTo(n, states, steps, bs, rs, k - 1);
      hs := NextBooks(states, steps, bs, rs, hs);
    }
  }

  lemma RunHasBooks(m: Merge, n: nat, states: seq<Cluster>, steps: seq<Step>)
    returns (bs: seq<Ballots>, hs: seq<Books>)
    requires SafeRun(m, n, states, steps)
    ensures |bs| == |hs| == |states| == |steps| + 1 && SafeTrace(states, bs, hs)
  {
    hide SafeInv, BallotInv, RoundInv, Progress, Shape, BallotStep, Harmless, IsStep;
    HarmlessIsTruncating(m, n, states, steps);
    bs := RunHasBallots(Truncating, n, states, steps);
    var rs := RunHasRounds(Truncating, states, steps, bs, n, |steps|);
    hs := TraceUpTo(n, states, steps, bs, rs, |steps|);
  }

  lemma ProgressRefl(s: Cluster, h: Books)
    ensures Progress(s, h, s, h)
  {
  }

  lemma {:induction false} ProgressAlong(
      states: seq<Cluster>, bs: seq<Ballots>, hs: seq<Books>, j: nat, k: nat)
    requires SafeTrace(states, bs, hs) && j <= k < |hs|
    ensures Progress(states[j], hs[j], states[k], hs[k])
    ensures StartsKept(hs[j], hs[k])
    decreases k
  {
    hide SafeInv, Progress;
    if j < k {
      ProgressAlong(states, bs, hs, j, k - 1);
      assert Progress(states[k - 1], hs[k - 1], states[k - 1 + 1], hs[k - 1 + 1]);
      assert StartsKept(hs[k - 1], hs[k - 1 + 1]);
      hide StartsKept;
      ProgressThrough(states[j], hs[j], states[k - 1], hs[k - 1], states[k], hs[k]);
      StartsThrough(hs[j], hs[k - 1], hs[k]);
    } else {
      ProgressRefl(states[j], hs[j]);
    }
  }

  lemma StartsThrough(h: Books, h1: Books, h2: Books)
    requires StartsKept(h, h1) && StartsKept(h1, h2)
    ensures StartsKept(h, h2)
  {
  }

  // ---------------------------------------------------------------------------------------
  // Log matching
  // ---------------------------------------------------------------------------------------

  /** Where two logs have entries of the same term in the same slot, they agree up to it. */
  ghost predicate Match(p: seq<Entry>, q: seq<Entry>) {
    forall i :: 0 <= i < |p| && i < |q| && p[i].term == q[i].term ==> p[..i + 1] == q[..i + 1]
  }

  /** Any two logs of any two nodes at any two times match. */
  ghost predicate LogsMatch(states: seq<Cluster>) {
    forall j, k, p, q ::
      0 <= j < |states| && 0 <= k < |states| && 0 <= p < |states[j].nodes| && 0 <= q < |states[k].nodes| ==>
        Match(states[j].nodes[p].logs, states[k].nodes[q].logs)
  }

  lemma LogsOfRunMatch(
      states: seq<Cluster>, bs: seq<Ballots>, hs: seq<Books>, j: nat, k: nat, p: nat, q: nat)
    requires SafeTrace(states, bs, hs) && j <= k < |hs|
    requires p < |states[j].nodes| && q < |states[k].nodes|
    ensures Match(states[j].nodes[p].logs, states[k].nodes[q].logs)
  {
    hide CommitsInv, CoreInv, Progress, FullGrows, TracedAt;
    assert SafeInv(states[j], bs[j], hs[j]) && SafeInv(states[k], bs[k], hs[k]);
    CoreNode(states[j], bs[j], hs[j], p);
    CoreNode(states[k], bs[k], hs[k], q);
    ProgressAlong(states, bs, hs, j, k);
    FullAfter(states[j], hs[j], states[k], hs[k]);
    TracedGrows(hs[j], hs[k], states[j].nodes[p].logs);
    TracedMatch(hs[k], states[j].nodes[p].logs, states[k].nodes[q].logs);
  }

  lemma TracedMatch(h: Books, p: seq<Entry>, q: seq<Entry>)
    requires Traced(h, p) && Traced(h, q)
    ensures Match(p, q)
  {
    forall i | 0 <= i < |p| && i < |q| && p[i].term == q[i].term
      ensures p[..i + 1] == q[..i + 1]
    {
      TracedAgree(h, p, q, i);
    }
  }

  lemma FullAfter(s: Cluster, h: Books, s': Cluster, h': Books)
    requires Progress(s, h, s', h')
    ensures FullGrows(h, h')
  {
  }

  lemma MatchSym(p: seq<Entry>, q: seq<Entry>)
    requires Match(p, q)
    ensures Match(q, p)
  {
  }

  lemma LogMatching(m: Merge, n: nat, states: seq<Cluster>, steps: seq<Step>)
    requires SafeRun(m, n, states, steps)
    ensures LogsMatch(states)
  {
    hide SafeTrace, SafeRun, Match;
    var bs, hs := RunHasBooks(m, n, states, steps);
    forall j, k, p, q |
      0 <= j < |states| && 0 <= k < |states| && 0 <= p < |states[j].nodes| && 0 <= q < |states[k].nodes|
      ensures Match(states[j].nodes[p].logs, states[k].nodes[q].logs)
    {
      if j <= k {
        LogsOfRunMatch(states, bs, hs, j, k, p, q);
      } else {
        LogsOfRunMatch(states, bs, hs, k, j, q, p);
        MatchSym(states[k].nodes[q].logs, states[j].nodes[p].logs);
      }
    }
  }

  /** Overwriting a conflict with entries behind it left in place breaks matching with the old log. */
  lemma ConflictBreaksMatch(logs: seq<Entry>, pos: nat, entries: seq<Entry>, c: nat)
    requires pos <= c < |logs| && pos + |entries| < |logs| && c < pos + |entries|
    requires logs[c].term != entries[c - pos].term
    ensures !Match(logs, MergeAsWritten(logs, pos, entries))
  {
    var merged, last := MergeAsWritten(logs, pos, entries), |logs| - 1;
    assert merged[last] == logs[last];
    assert logs[..last + 1][c] != merged[..last + 1][c];
  }

  /** A harmful delivery leaves the last entry in place and changes something below it. */
  lemma HarmBreaksMatch(m: Merge, s: Cluster, call: AppendCall, s': Cluster)
    requires IsStep(m, s, AppendDelivery(call), s') && !Harmless(m, s, AppendDelivery(call))
    ensures call.to < |s.nodes| && call.to < |s'.nodes| && !Match(s.nodes[call.to].logs, s'.nodes[call.to].logs)
  {
    hide Match, MergeAsWritten;
    var nd, a := s.nodes[call.to], call.args;
    assert AppendCallShape(s, call);
    var pos := a.prevLogIndex - nd.snapIndex;
    assert s'.nodes[call.to].logs == MergeAsWritten(nd.logs, pos, a.entries);
    var c :| pos <= c < |nd.logs| && c < pos + |a.entries| && nd.logs[c].term != a.entries[c - pos].term;
    ConflictBreaksMatch(nd.logs, pos, a.entries, c);
  }

  /** Without snapshots, a run of the code as written keeps log matching exactly when every merge in
      it meets no conflict or reaches the end of the receiver's log. */
  lemma LogMatchingExactly(m: Merge, n: nat, states: seq<Cluster>, steps: seq<Step>)
    requires IsRun(m, n, states, steps)
    requires forall k :: 0 <= k < |steps| ==> SnapshotFree(steps[k])
    ensures LogsMatch(states) <==> HarmlessRun(m, n, states, steps)
  {
    hide Harmless, Match, Shape, Enabled, Apply;
    if HarmlessRun(m, n, states, steps) {
      LogMatching(m, n, states, steps);
    } else if LogsMatch(states) {
      forall k | 0 <= k < |steps|
        ensures IsStep(m, states[k], steps[k], states[k + 1]) && Harmless(m, states[k], steps[k])
      {
        MatchedStepHarmless(m, states, states[k], steps[k], states[k + 1]);
      }
    }
  }

  lemma MatchedStepHarmless(m: Merge, states: seq<Cluster>, s: Cluster, step: Step, s': Cluster)
    requires IsStep(m, s, step, s') && s in states && s' in states && LogsMatch(states)
    ensures Harmless(m, s, step)
  {
    if !Harmless(m, s, step) {
      hide Match, Shape;
      HarmBreaksMatch(m, s, step.append, s');
    }
  }

  // ---------------------------------------------------------------------------------------
  // Leader completeness
  // ---------------------------------------------------------------------------------------

  lemma CommittedLater(
      states: seq<Cluster>, bs: seq<Ballots>, hs: seq<Books>, k: nat, p: nat, l: nat)
    requires SafeTrace(states, bs, hs) && k <= l < |hs| && p < |states[k].nodes|
    ensures var nd := states[k].nodes[p];
            CommitOk(states[l], hs[l], nd.logs, nd.commitIndex, nd.currentTerm)
  {
    hide CommitsInv, CoreInv, Progress, CommitOk;
    assert SafeInv(states[k], bs[k], hs[k]);
    CommitsNode(states[k], hs[k], p);
    ProgressAlong(states, bs, hs, k, l);
    var nd := states[k].nodes[p];
    CommitOkAfter(states[k], hs[k], states[l], hs[l], nd.logs, nd.commitIndex, nd.currentTerm, nd.currentTerm);
  }

  lemma StartsComplete(s: Cluster, h: Books, log: seq<Entry>, c: int, t: int, t': int)
    requires StartSafe(s, h) && CommitOk(s, h, log, c, t) && t < t' && t' in h.start
    ensures log[..c] <= h.start[t']
  {
    if c > 0 {
      var t0, i: nat :| t0 <= t && c <= i && Chosen(s, h, t0, i) && log[..c] == h.full[t0][..c];
      ChosenIsLive(s, h, t0, i);
      assert h.full[t0][..i] <= h.start[t'];
      assert h.full[t0][..c] == h.full[t0][..i][..c];
    }
  }

  /** A leader's log begins with the log it started from. */
  lemma LeaderStartedFrom(s: Cluster, b: Ballots, h: Books, q: nat)
    requires SafeInv(s, b, h) && q < |s.nodes| && s.nodes[q].status.Leader?
    ensures var t := s.nodes[q].currentTerm; t in h.start && h.start[t] <= s.nodes[q].logs
  {
    var t := s.nodes[q].currentTerm;
    assert LeaderLog(h, t);
  }

  lemma CoreStartSafe(s: Cluster, b: Ballots, h: Books)
    requires CoreInv(s, b, h)
    ensures StartSafe(s, h)
  {
  }

  /** Whatever any node has ever committed is in the log of every leader of a later term, even of
      one that won before the commit: states k and j may come in either order. */
  lemma LeaderCompleteness(
      m: Merge, n: nat, states: seq<Cluster>, steps: seq<Step>, k: nat, p: nat, j: nat, q: nat)
    requires SafeRun(m, n, states, steps)
    requires k < |states| && p < |states[k].nodes|
    requires j < |states| && q < |states[j].nodes| && states[j].nodes[q].status.Leader?
    requires states[k].nodes[p].currentTerm < states[j].nodes[q].currentTerm
    ensures 0 <= states[k].nodes[p].commitIndex <= |states[k].nodes[p].logs|
    ensures states[k].nodes[p].logs[..states[k].nodes[p].commitIndex] <= states[j].nodes[q].logs
  {
    var bs, hs := RunHasBooks(m, n, states, steps);
    hide SafeRun, CommitsInv, CoreInv, Progress;
    var nd, l := states[k].nodes[p], if k < j then j else k;
    assert SafeInv(states[l], bs[l], hs[l]) && SafeInv(states[j], bs[j], hs[j]);
    CommittedLater(states, bs, hs, k, p, l);
    LeaderStartedFrom(states[j], bs[j], hs[j], q);
    ProgressAlong(states, bs, hs, j, l);
    CoreStartSafe(states[l], bs[l], hs[l]);
    hide StartSafe, SafeTrace;
    StartsComplete(states[l], hs[l], nd.logs, nd.commitIndex, nd.currentTerm, states[j].nodes[q].currentTerm);
  }

  // ---------------------------------------------------------------------------------------
  // State machine safety
  // ---------------------------------------------------------------------------------------

  lemma CoreHistory(s: Cluster, b: Ballots, h: Books)
    requires CoreInv(s, b, h)
    ensures HistoryInv(b, h) && StartSafe(s, h)
  {
  }

  lemma EmittedAgree(s: Cluster, b: Ballots, h: Books, x: ApplyMsg, y: ApplyMsg)
    requires HistoryInv(b, h) && StartSafe(s, h)
    requires EmittedOk(s, h, x) && EmittedOk(s, h, y) && x.index == y.index
    ensures x.command == y.command
  {
    hide HistoryInv, StartSafe;
    var t0, i: nat :| 1 <= x.index <= i && Chosen(s, h, t0, i) && h.full[t0][x.index - 1].command == x.command;
    var t1, j: nat :| 1 <= y.index <= j && Chosen(s, h, t1, j) && h.full[t1][y.index - 1].command == y.command;
    ChosenIsLive(s, h, t0, i);
    ChosenIsLive(s, h, t1, j);
    if t0 <= t1 {
      LeaderHasLive(s, b, h, t1, t0, i);
      assert h.full[t0][..i][x.index - 1] == h.full[t1][x.index - 1];
    } else {
      LeaderHasLive(s, b, h, t0, t1, j);
      assert h.full[t1][..j][x.index - 1] == h.full[t0][x.index - 1];
    }
  }

  /** No two nodes ever hand different commands to the state machine for the same index. */
  lemma StateMachineSafety(
      m: Merge, n: nat, states: seq<Cluster>, steps: seq<Step>,
      j: nat, p: nat, x: ApplyMsg, k: nat, q: nat, y: ApplyMsg)
    requires SafeRun(m, n, states, steps) && j < |states| && k < |states|
    requires p < |states[j].nodes| && x in states[j].nodes[p].emitted
    requires q < |states[k].nodes| && y in states[k].nodes[q].emitted
    requires x.index == y.index
    ensures x.command == y.command
  {
    hide SafeRun, SafeInv, Progress, EmittedOk;
    var bs, hs := RunHasBooks(m, n, states, steps);
    var l := if j < k then k else j;
    EmittedLater(states, bs, hs, j, p, x, l);
    EmittedLater(states, bs, hs, k, q, y, l);
    TraceHistory(states, bs, hs, l);
    EmittedAgree(states[l], bs[l], hs[l], x, y);
  }

  lemma TraceHistory(states: seq<Cluster>, bs: seq<Ballots>, hs: seq<Books>, l: nat)
    requires SafeTrace(states, bs, hs) && l < |hs|
    ensures HistoryInv(bs[l], hs[l]) && StartSafe(states[l], hs[l])
  {
    hide CoreInv, CommitsInv, Progress;
    assert SafeInv(states[l], bs[l], hs[l]);
    CoreHistory(states[l], bs[l], hs[l]);
  }

  lemma EmittedLater(
      states: seq<Cluster>, bs: seq<Ballots>, hs: seq<Books>, j: nat, p: nat, x: ApplyMsg, l: nat)
    requires SafeTrace(states, bs, hs) && j <= l < |hs|
    requires p < |states[j].nodes| && x in states[j].nodes[p].emitted
    ensures EmittedOk(states[l], hs[l], x)
  {
    hide CommitsInv, CoreInv, Progress, EmittedOk, CommitOk;
    assert SafeInv(states[j], bs[j], hs[j]);
    CommitsNode(states[j], hs[j], p);
    ProgressAlong(states, bs, hs, j, l);
    EmittedOkAfter(states[j], hs[j], states[l], hs[l], x);
  }
}
