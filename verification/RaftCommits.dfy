/** Commit indices: whatever a node takes as committed is chosen, and stays in its log. */
module RaftCommits {
  import opened RaftTypes
  import opened RaftNode
  import opened RaftCluster
  import opened RaftElection
  import opened RaftEvidence
  import opened RaftBooks
  import opened RaftSafety
  import opened Quorums

  // ---------------------------------------------------------------------------------------
  // Carrying commits over a step
  // ---------------------------------------------------------------------------------------

  lemma NodeCommitsAfter(s: Cluster, h: Books, s': Cluster, h': Books, nd: Node, nd': Node)
    requires Progress(s, h, s', h') && NodeCommits(s, h, nd)
    requires nd'.logs == nd.logs && nd'.commitIndex == nd.commitIndex && nd'.lastApplied == nd.lastApplied
    requires nd'.emitted == nd.emitted && nd.currentTerm <= nd'.currentTerm
    ensures NodeCommits(s', h', nd')
  {
    CommitOkAfter(s, h, s', h', nd.logs, nd.commitIndex, nd.currentTerm, nd'.currentTerm);
    CommitOkAfter(s, h, s', h', nd.logs, nd.lastApplied, nd.currentTerm, nd'.currentTerm);
    EmissionsAfter(s, h, s', h', nd.emitted);
  }

  lemma EmissionsAfter(s: Cluster, h: Books, s': Cluster, h': Books, msgs: seq<ApplyMsg>)
    requires Progress(s, h, s', h')
    requires forall m :: m in msgs ==> EmittedOk(s, h, m)
    ensures forall m :: m in msgs ==> EmittedOk(s', h', m)
  {
    forall m | m in msgs
      ensures EmittedOk(s', h', m)
    {
      EmittedOkAfter(s, h, s', h', m);
    }
  }

  ghost predicate CallCommits(s: Cluster, h: Books, a: AppendArgs)
    requires a.term in h.full
  {
    && a.leaderCommit <= a.End()
    && CommitOk(s, h, h.full[a.term], a.leaderCommit, a.term)
  }

  lemma CallCommitsAfter(s: Cluster, h: Books, s': Cluster, h': Books, a: AppendArgs)
    requires Progress(s, h, s', h') && a.term in h.full && CallCommits(s, h, a)
    ensures CallCommits(s', h', a)
  {
    var k := a.leaderCommit;
    CommitOkAfter(s, h, s', h', h.full[a.term], k, a.term, a.term);
    assert h'.full[a.term][..k] == h.full[a.term][..k];
    CommitOkMoves(s', h', h.full[a.term], h'.full[a.term], k, a.term);
  }

  /** Only the actor's own commit state and its new messages need a reason. */
  lemma CommitsCarry(s: Cluster, h: Books, i: nat, nd': Node, s': Cluster, h': Books)
    requires CommitsInv(s, h) && NetworkInv(s, h) && Progress(s, h, s', h')
    requires i < |s.nodes| && s'.nodes == s.nodes[i := nd'] && NodeCommits(s', h', nd')
    requires forall call :: call in s'.appendCalls && call.args.term in h'.full ==>
               call in s.appendCalls || CallCommits(s', h', call.args)
    ensures CommitsInv(s', h')
  {
    forall n | 0 <= n < |s'.nodes|
      ensures NodeCommits(s', h', s'.nodes[n])
    {
      if n != i {
        assert NodeCommits(s, h, s.nodes[n]);
        NodeCommitsAfter(s, h, s', h', s.nodes[n], s'.nodes[n]);
      }
    }
    forall call | call in s'.appendCalls && call.args.term in h'.full
      ensures CallCommits(s', h', call.args)
    {
      if call in s.appendCalls {
        assert MessageOk(h, call.args);
        assert CallCommits(s, h, call.args);
        CallCommitsAfter(s, h, s', h', call.args);
      }
    }
  }

  lemma PlainCommitsCarry(s: Cluster, h: Books, i: nat, nd': Node, s': Cluster, h': Books)
    requires CommitsInv(s, h) && NetworkInv(s, h) && Progress(s, h, s', h')
    requires i < |s.nodes| && s'.nodes == s.nodes[i := nd']
    requires nd'.logs == s.nodes[i].logs && nd'.commitIndex == s.nodes[i].commitIndex
    requires nd'.lastApplied == s.nodes[i].lastApplied && nd'.emitted == s.nodes[i].emitted
    requires s.nodes[i].currentTerm <= nd'.currentTerm
    requires s'.appendCalls == s.appendCalls
    ensures CommitsInv(s', h')
  {
    assert NodeCommits(s, h, s.nodes[i]);
    NodeCommitsAfter(s, h, s', h', s.nodes[i], nd');
    CommitsCarry(s, h, i, nd', s', h');
  }

  // ---------------------------------------------------------------------------------------
  // Evidence makes an entry chosen
  // ---------------------------------------------------------------------------------------

  lemma EvidenceChooses(
      s: Cluster, h: Books, c: nat, t: int, k: nat, q: set<nat>, s': Cluster, h': Books)
    requires Evidence(s, c, t, k, q) && RepliesAcked(s, h) && Progress(s, h, s', h')
    requires Own(h', t, k) && AckOf(h', c, t) >= k
    ensures Chosen(s', h', t, k)
  {
    forall v | v in q
      ensures v in Holders(s', h', t, k)
    {
      if v != c {
        var e :| e >= k && AckedEnd(s, c, v, t, e);
        var r :| r in s.appendReplies && AcksEnd(r, c, v, t, e);
        assert AckOf(h, v, t) >= e;
        assert AckOf(h', v, t) >= AckOf(h, v, t);
      }
    }
    SubsetSize(q, Holders(s', h', t, k));
  }

  /** A leader whose log is its term's log may commit a chosen entry of its term. */
  lemma ChosenCommits(s: Cluster, h: Books, t: int, k: nat)
    requires Chosen(s, h, t, k)
    ensures CommitOk(s, h, h.full[t], k, t)
  {
    assert h.full[t][..k] == h.full[t][..k];
  }

  // ---------------------------------------------------------------------------------------
  // The four kinds of steps that move commit state
  // ---------------------------------------------------------------------------------------

  lemma AnswerCommits(s: Cluster, b: Ballots, h: Books, r: Rounds, call: AppendCall, reply: AppendReply, s': Cluster)
    requires RoundInv(s, b, r) && LogsInv(s, h) && NetworkInv(s, h) && AcksInv(s, b, h) && CommitsInv(s, h)
    requires LeadersElected(s, b)
    requires Enabled(s, AppendAnswer(call, reply)) && AppendCallShape(s, call)
    requires s'.nodes == s.nodes[call.from := AppendReplied(s.nodes[call.from], call, reply)]
    requires s'.appendCalls == s.appendCalls && Progress(s, h, s', h)
    ensures CommitsInv(s', h)
  {
    hide RoundsAgree, RoundsBacked, AckedOnce, AckCounterExact, MatchBacked, LeadersKeepShipped, SnapsBehind,
      SuccessInTerm, CallsFromLeaders, NetworkInv, CommitsInv, Progress, AcksBounded, RepliesAcked;
    var c := call.from;
    var nd, nd' := s.nodes[c], AppendReplied(s.nodes[c], call, reply);
    NodeCommitted(s, h, c);
    if nd'.commitIndex == nd.commitIndex {
      PlainCommitsCarry(s, h, c, nd', s', h);
    } else {
      CounterCommit(s, b, r, call, reply);
      var q := FiringRound(s, b, r, call, reply);
      var t, k := nd.currentTerm, nd'.commitIndex;
      assert NodeTraced(h, nd);
      assert Own(h, t, k);
      EvidenceChooses(s, h, c, t, k, q, s', h);
      ChosenCommits(s', h, t, k);
      CommitOkAfter(s, h, s', h, nd.logs, nd.lastApplied, t, t);
      EmissionsAfter(s, h, s', h, nd.emitted);
      CommitsCarry(s, h, c, nd', s', h);
    }
  }

  lemma StartChooses(
      s: Cluster, b: Ballots, h: Books, r: Rounds, n: nat, command: string, nd': Node, s': Cluster, h': Books)
    requires RoundInv(s, b, r) && RepliesAcked(s, h)
    requires n < |s.nodes| && s.nodes[n].status.Leader? && nd' == Start(s.nodes[n], command)
    requires Extension(s, b, h, n, Entry(LastIndex(s.nodes[n]) + 1, s.nodes[n].currentTerm, command), nd', s', h')
    requires nd'.snapIndex == 0 && Progress(s, h, s', h') && nd'.commitIndex > 0
    ensures Chosen(s', h', nd'.currentTerm, nd'.commitIndex)
  {
    var t, k := nd'.currentTerm, nd'.commitIndex;
    var q := ScanCommitted(s, b, r, n, command);
    assert h'.full[t] == nd'.logs && Own(h', t, k);
    assert AckOf(h', n, t) == |nd'.logs|;
    EvidenceChooses(s, h, n, t, k, q, s', h');
  }

  lemma NodeCommitted(s: Cluster, h: Books, n: nat)
    requires CommitsInv(s, h) && n < |s.nodes|
    ensures NodeCommits(s, h, s.nodes[n])
  {
  }

  lemma StartCommits(
      s: Cluster, b: Ballots, h: Books, r: Rounds, n: nat, command: string, nd': Node, s': Cluster, h': Books)
    requires RoundInv(s, b, r) && NetworkInv(s, h) && RepliesAcked(s, h) && CommitsInv(s, h)
    requires n < |s.nodes| && s.nodes[n].status.Leader? && nd' == Start(s.nodes[n], command)
    requires Extension(s, b, h, n, Entry(LastIndex(s.nodes[n]) + 1, s.nodes[n].currentTerm, command), nd', s', h')
    requires nd'.snapIndex == 0 && s'.appendCalls == s.appendCalls && Progress(s, h, s', h')
    ensures CommitsInv(s', h')
  {
    hide RoundInv, NetworkInv, RepliesAcked, CommitsInv, Progress;
    var nd, t := s.nodes[n], nd'.currentTerm;
    NodeCommitted(s, h, n);
    assert nd'.commitIndex >= 0 && nd'.logs == h'.full[t] && nd'.emitted == nd.emitted;
    if nd'.commitIndex > 0 {
      StartChooses(s, b, h, r, n, command, nd', s', h');
      ChosenCommits(s', h', t, nd'.commitIndex);
    }
    CommitOkAfter(s, h, s', h', nd.logs, nd.lastApplied, t, t);
    CommitOkMoves(s', h', nd.logs, nd'.logs, nd.lastApplied, t);
    EmissionsAfter(s, h, s', h', nd.emitted);
    CommitsCarry(s, h, n, nd', s', h');
  }

  /** Whoever leads a term at or after a commit has the committed entries. */
  lemma LeaderHasCommitted(s: Cluster, b: Ballots, h: Books, log: seq<Entry>, k: int, t: int, t': int)
    requires HistoryInv(b, h) && StartSafe(s, h)
    requires CommitOk(s, h, log, k, t) && t <= t' && t' in h.full
    ensures k <= |h.full[t']| && log[..k] == h.full[t'][..k]
  {
    if k > 0 {
      var t0, i: nat :| t0 <= t && k <= i && Chosen(s, h, t0, i) && log[..k] == h.full[t0][..k];
      ChosenIsLive(s, h, t0, i);
      LeaderHasLive(s, b, h, t', t0, i);
      assert h.full[t0][..k] == h.full[t0][..i][..k] == h.full[t'][..i][..k] == h.full[t'][..k];
    }
  }

  /** A follower's committed prefix survives the merge: its leader has it too. */
  lemma CommitSurvives(
      s: Cluster, b: Ballots, h: Books, v: nat, a: AppendArgs, nd': Node, s': Cluster, h': Books, k: int)
    requires HistoryInv(b, h) && LogsInv(s, h) && StartSafe(s, h)
    requires Acceptance(s, b, h, v, a, nd', s', h') && Progress(s, h, s', h')
    requires CommitOk(s, h, s.nodes[v].logs, k, s.nodes[v].currentTerm)
    ensures CommitOk(s', h', nd'.logs, k, a.term)
  {
    AcceptedLog(s, b, h, v, a, nd', s', h');
    CommitOkAfter(s, h, s', h', s.nodes[v].logs, k, s.nodes[v].currentTerm, a.term);
    LeaderHasCommitted(s, b, h, s.nodes[v].logs, k, s.nodes[v].currentTerm, a.term);
    CommitOkMoves(s', h', s.nodes[v].logs, nd'.logs, k, a.term);
  }

  /** A follower that adopts the leader's commit index stays within what the message covered. */
  lemma CommitAdopted(
      s: Cluster, b: Ballots, h: Books, v: nat, a: AppendArgs, nd': Node, s': Cluster, h': Books)
    requires HistoryInv(b, h) && LogsInv(s, h)
    requires Acceptance(s, b, h, v, a, nd', s', h') && Progress(s, h, s', h')
    requires CallCommits(s, h, a)
    ensures Min(a.leaderCommit, |nd'.logs|) == a.leaderCommit
    ensures CommitOk(s', h', nd'.logs, a.leaderCommit, a.term)
  {
    AcceptedLog(s, b, h, v, a, nd', s', h');
    CallCommitsAfter(s, h, s', h', a);
    var k := a.leaderCommit;
    assert nd'.logs[..k] == nd'.logs[..a.End()][..k] == h.full[a.term][..k];
    CommitOkMoves(s', h', h'.full[a.term], nd'.logs, k, a.term);
  }

  lemma AcceptanceCommits(
      s: Cluster, b: Ballots, h: Books, v: nat, a: AppendArgs, nd': Node, s': Cluster, h': Books)
    requires HistoryInv(b, h) && LogsInv(s, h) && StartSafe(s, h) && NetworkInv(s, h) && CommitsInv(s, h)
    requires Acceptance(s, b, h, v, a, nd', s', h') && Progress(s, h, s', h')
    requires CallCommits(s, h, a)
    requires nd'.commitIndex == if a.leaderCommit > s.nodes[v].commitIndex then Min(a.leaderCommit, |nd'.logs|)
                                else s.nodes[v].commitIndex
    requires nd'.lastApplied == s.nodes[v].lastApplied && nd'.emitted == s.nodes[v].emitted
    requires s'.appendCalls == s.appendCalls
    ensures CommitsInv(s', h')
  {
    assert NodeCommits(s, h, s.nodes[v]);
    CommitSurvives(s, b, h, v, a, nd', s', h', s.nodes[v].commitIndex);
    CommitSurvives(s, b, h, v, a, nd', s', h', s.nodes[v].lastApplied);
    CommitAdopted(s, b, h, v, a, nd', s', h');
    EmissionsAfter(s, h, s', h', s.nodes[v].emitted);
    CommitsCarry(s, h, v, nd', s', h');
  }

  lemma ApplyCommits(s: Cluster, h: Books, n: nat, s': Cluster)
    requires NetworkInv(s, h) && CommitsInv(s, h) && Progress(s, h, s', h)
    requires n < |s.nodes| && Shaped(s.nodes[n]) && s.nodes[n].snapIndex == 0
    requires s.nodes[n].commitIndex <= LastIndex(s.nodes[n])
    requires s'.nodes == s.nodes[n := ApplyLogs(s.nodes[n])] && s'.appendCalls == s.appendCalls
    ensures CommitsInv(s', h)
  {
    hide NetworkInv, CommitsInv, Progress;
    var nd, nd' := s.nodes[n], ApplyLogs(s.nodes[n]);
    NodeCommitted(s, h, n);
    CommitOkAfter(s, h, s', h, nd.logs, nd.commitIndex, nd.currentTerm, nd.currentTerm);
    CommitOkAfter(s, h, s', h, nd.logs, nd.lastApplied, nd.currentTerm, nd.currentTerm);
    EmissionsAfter(s, h, s', h, nd.emitted);
    var msgs := Emission(nd, nd.lastApplied, nd.commitIndex);
    forall m | m in msgs
      ensures EmittedOk(s', h, m)
    {
      var j :| 0 <= j < |msgs| && msgs[j] == m;
      EmissionCommitted(s', h, nd.logs, nd.commitIndex, nd.currentTerm, m);
    }
    CommitsCarry(s, h, n, nd', s', h);
  }

  lemma EmissionCommitted(s: Cluster, h: Books, log: seq<Entry>, k: int, t: int, m: ApplyMsg)
    requires CommitOk(s, h, log, k, t)
    requires 1 <= m.index <= k && m.command == log[m.index - 1].command
    ensures EmittedOk(s, h, m)
  {
    var t0, i: nat :| t0 <= t && k <= i && Chosen(s, h, t0, i) && log[..k] == h.full[t0][..k];
    assert log[..k][m.index - 1] == h.full[t0][..k][m.index - 1];
  }
}
