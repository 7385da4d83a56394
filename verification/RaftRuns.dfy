/** The history of a truncating, snapshot-free run, step by step. */
module RaftRuns {
  import opened RaftTypes
  import opened RaftNode
  import opened RaftCluster
  import opened RaftElection
  import opened RaftEvidence
  import opened RaftBooks
  import opened RaftSafety
  import opened RaftCommits

  ghost function KeepBooks(s: Cluster, h: Books, step: Step): Books
    requires Shape(s) && Enabled(s, step)
  {
    var nd := s.nodes[Actor(step)];
    match step
    case ElectionStep(n) =>
      if nd.status.Leader? then h
      else
        var t := nd.currentTerm + 1;
        var h1 := h.(cands := h.cands[(n, t) := nd.logs]);
        if nd.peers == 1 then Crown(h1, n, t, nd.logs) else h1
    case VoteAnswer(call, reply) =>
      if Crowns(s, step) then Crown(h, call.from, nd.currentTerm, nd.logs) else h
    case AppendDelivery(call) =>
      if AcceptsAppend(nd, call.args) then
        var key := (call.to, call.args.term);
        h.(acked := h.acked[key := Max(AckOf(h, key.0, key.1), call.args.End())])
      else h
    case StartStep(n, command) =>
      if nd.status.Leader? then
        var logs := Appended(nd, command).logs;
        h.(full := h.full[nd.currentTerm := logs], acked := h.acked[(n, nd.currentTerm) := |logs|])
      else h
    case _ => h
  }

  ghost function Crown(h: Books, c: nat, t: int, logs: seq<Entry>): Books {
    h.(start := h.start[t := logs], full := h.full[t := logs], acked := h.acked[(c, t) := |logs|])
  }

  ghost predicate Kept(s: Cluster, h: Books, s': Cluster, b': Ballots, h': Books) {
    CoreInv(s', b', h') && CommitsInv(s', h') && Progress(s, h, s', h')
  }

  // ---------------------------------------------------------------------------------------
  // Handlers that leave the log alone
  // ---------------------------------------------------------------------------------------

  ghost predicate SameCommits(nd: Node, nd': Node) {
    nd'.commitIndex == nd.commitIndex && nd'.lastApplied == nd.lastApplied && nd'.emitted == nd.emitted
  }

  lemma RequestVoteSame(nd: Node, a: VoteArgs)
    requires Indexed(nd)
    ensures SameLog(nd, RequestVote(nd, a).0) && SameCommits(nd, RequestVote(nd, a).0)
    ensures RequestVote(nd, a).1.granted ==> UpToDate(nd, a.lastLogIndex, a.lastLogTerm)
  {
  }

  lemma VoteRepliedSame(nd: Node, call: VoteCall, reply: VoteReply)
    requires Indexed(nd) && call.args.term in nd.votedNums
    requires !(reply.granted && reply.term == nd.currentTerm
               && nd.votedNums[call.args.term] + 1 >= Majority(nd.peers))
    ensures SameLog(nd, VoteReplied(nd, call, reply)) && SameCommits(nd, VoteReplied(nd, call, reply))
  {
  }

  lemma RejectionSame(m: Merge, nd: Node, a: AppendArgs)
    requires Indexed(nd) && !AcceptsAppend(nd, a)
    ensures SameLog(nd, AppendEntries(m, nd, a).0) && SameCommits(nd, AppendEntries(m, nd, a).0)
    ensures !AppendEntries(m, nd, a).1.success
  {
  }

  lemma AppendRepliedSame(nd: Node, call: AppendCall, reply: AppendReply)
    requires call.to < |nd.nextIndex| == |nd.matchIndex| && call.round < |nd.appendNums|
    ensures SameLog(nd, AppendReplied(nd, call, reply))
  {
  }

  // ---------------------------------------------------------------------------------------
  // One lemma per step
  // ---------------------------------------------------------------------------------------

  lemma VoteDeliveryKept(s: Cluster, b: Ballots, h: Books, call: VoteCall, s': Cluster, b': Ballots)
    requires IsStep(Truncating, s, VoteDelivery(call), s') && b' == CountBallots(s, b, VoteDelivery(call))
    requires TalliesBacked(s, b) && CoreInv(s, b, h) && CommitsInv(s, h)
    ensures Kept(s, h, s', b', h)
  {
    hide CoreInv, CommitsInv, NetworkInv, TalliesBacked;
    var v := call.to;
    var nd' := NewNode(Truncating, s, VoteDelivery(call));
    CoreNetwork(s, b, h);
    NetworkVote(s, h, call);
    RequestVoteSame(s.nodes[v], call.args);
    PlainCommitsCarry(s, h, v, nd', s', h);
    if RequestVote(s.nodes[v], call.args).1.granted {
      GrantKeepsCore(s, b, h, v, call.from, call.args.term, nd', s', b');
    } else {
      QuietKeepsCore(s, b, h, s', b');
    }
  }

  lemma CoreNetwork(s: Cluster, b: Ballots, h: Books)
    requires CoreInv(s, b, h)
    ensures NetworkInv(s, h) && s.snapCalls == {}
  {
  }

  lemma NetworkVote(s: Cluster, h: Books, call: VoteCall)
    requires NetworkInv(s, h) && call in s.voteCalls
    ensures VoteCallOk(h, call)
  {
  }

  lemma NetworkMessage(s: Cluster, h: Books, call: AppendCall)
    requires NetworkInv(s, h) && call in s.appendCalls
    ensures MessageOk(h, call.args)
    ensures CommitsInv(s, h) ==> CallCommits(s, h, call.args)
  {
  }

  lemma CoreNode(s: Cluster, b: Ballots, h: Books, n: nat)
    requires CoreInv(s, b, h) && n < |s.nodes|
    ensures NodeTraced(h, s.nodes[n])
    ensures var nd := s.nodes[n];
            nd.status.Leader? ==> nd.currentTerm in h.full && nd.logs == h.full[nd.currentTerm]
    ensures s.nodes[n].currentTerm !in h.full && (n, s.nodes[n].currentTerm) in h.cands ==>
              s.nodes[n].logs == h.cands[(n, s.nodes[n].currentTerm)]
  {
  }

  lemma CommitsNode(s: Cluster, h: Books, n: nat)
    requires CommitsInv(s, h) && n < |s.nodes|
    ensures NodeCommits(s, h, s.nodes[n])
  {
  }

  lemma VoteAnswerKept(s: Cluster, b: Ballots, h: Books, call: VoteCall, reply: VoteReply, s': Cluster, b': Ballots)
    requires IsStep(Truncating, s, VoteAnswer(call, reply), s') && b' == CountBallots(s, b, VoteAnswer(call, reply))
    requires TalliesBacked(s, b) && CoreInv(s, b, h) && CommitsInv(s, h) && VoteCallShape(s, call)
    requires !Crowns(s, VoteAnswer(call, reply))
    ensures Kept(s, h, s', b', h)
  {
    hide CoreInv, CommitsInv, NetworkInv, TalliesBacked;
    var c := call.from;
    CoreNetwork(s, b, h);
    VoteRepliedSame(s.nodes[c], call, reply);
    PlainCommitsCarry(s, h, c, NewNode(Truncating, s, VoteAnswer(call, reply)), s', h);
    QuietKeepsCore(s, b, h, s', b');
  }

  lemma VictoryKept(s: Cluster, b: Ballots, h: Books, call: VoteCall, reply: VoteReply, s': Cluster, b': Ballots)
    requires IsStep(Truncating, s, VoteAnswer(call, reply), s') && b' == CountBallots(s, b, VoteAnswer(call, reply))
    requires BallotInv(s, b) && BallotInv(s', b') && CoreInv(s, b, h) && CommitsInv(s, h) && VoteCallShape(s, call)
    requires Crowns(s, VoteAnswer(call, reply))
    ensures Kept(s, h, s', b', KeepBooks(s, h, VoteAnswer(call, reply)))
  {
    hide BallotInv, CoreInv, CommitsInv, NetworkInv;
    var step := VoteAnswer(call, reply);
    var c, t, nd' := call.from, call.args.term, NewNode(Truncating, s, step);
    CoreNetwork(s, b, h);
    NetworkVote(s, h, call);
    CrownedTermIsFresh(Truncating, s, b, step);
    WinIsFirst(s, b, call, reply);
    FullAreElected(s, b, h);
    assert (c, t) in b.tally by {
      TalliedCalls(s, b, call);
    }
    assert Victory(s, b, h, c, nd', s', b', KeepBooks(s, h, step));
    WinnersVoters(s', b', t);
    BallotParts(s, b);
    VictoryStepKept(s, b, h, c, nd', b'.tally[(c, t)], s', b', KeepBooks(s, h, step));
  }

  lemma TalliedCalls(s: Cluster, b: Ballots, call: VoteCall)
    requires BallotInv(s, b) && call in s.voteCalls
    ensures (call.from, call.args.term) in b.tally
  {
  }

  lemma FullAreElected(s: Cluster, b: Ballots, h: Books)
    requires CoreInv(s, b, h)
    ensures h.full.Keys == b.elected.Keys && h.start.Keys == b.elected.Keys && h.cands.Keys == b.tally.Keys
  {
  }

  lemma WinnersVoters(s: Cluster, b: Ballots, t: int)
    requires BallotInv(s, b) && t in b.elected
    ensures (b.elected[t], t) in b.tally
    ensures var q := b.tally[(b.elected[t], t)];
            && |q| >= Majority(|s.nodes|)
            && forall v :: v in q ==> v < |s.nodes| && (v, t) in b.votes && b.votes[(v, t)] == b.elected[t]
  {
    assert TallyBacked(s, b, b.elected[t], t);
  }

  lemma VictoryStepKept(
      s: Cluster, b: Ballots, h: Books, c: nat, nd': Node, q: set<nat>, s': Cluster, b': Ballots, h': Books)
    requires CoreInv(s, b, h) && CommitsInv(s, h) && VotesRecorded(s, b) && Victory(s, b, h, c, nd', s', b', h')
    requires SameCommits(s.nodes[c], nd') && |q| >= Majority(|s.nodes|)
    requires forall v :: v in q ==>
               v < |s.nodes| && (v, nd'.currentTerm) in b.votes && b.votes[(v, nd'.currentTerm)] == c
    requires s'.voteCalls == s.voteCalls && s'.snapCalls == {}
    requires s'.appendCalls == s.appendCalls && s'.appendReplies == s.appendReplies
    ensures Kept(s, h, s', b', h')
  {
    VictoryKeepsCore(s, b, h, c, nd', q, s', b', h');
    CandidateTerms(s, b, h, c);
    VictoryProgress(s, b, h, c, nd', s', b', h');
    PlainCommitsCarry(s, h, c, nd', s', h');
  }

  lemma CandidateTerms(s: Cluster, b: Ballots, h: Books, c: nat)
    requires CoreInv(s, b, h) && c < |s.nodes|
    requires (c, s.nodes[c].currentTerm) in h.cands && s.nodes[c].currentTerm !in h.full
    ensures TermsBelow(s.nodes[c].logs, s.nodes[c].currentTerm)
  {
    CoreNode(s, b, h, c);
  }

  lemma HeartBeatMessage(s: Cluster, h: Books, n: nat, to: nat, s': Cluster)
    requires n < |s.nodes| && Shaped(s.nodes[n]) && NodeTraced(h, s.nodes[n]) && NodeCommits(s, h, s.nodes[n])
    requires s.nodes[n].currentTerm in h.full && s.nodes[n].logs == h.full[s.nodes[n].currentTerm]
    requires to < |s.nodes[n].nextIndex| && 0 < s.nodes[n].nextIndex[to] <= LastIndex(s.nodes[n]) + 1
    requires Progress(s, h, s', h)
    ensures MessageOk(h, HeartBeatArgs(s.nodes[n], to)) && CallCommits(s', h, HeartBeatArgs(s.nodes[n], to))
  {
    var nd := s.nodes[n];
    var prev := nd.nextIndex[to] - 1;
    assert nd.logs[prev..] == nd.logs[prev..|nd.logs|];
    CommitOkAfter(s, h, s', h, nd.logs, nd.commitIndex, nd.currentTerm, nd.currentTerm);
  }

  lemma HeartBeatKept(s: Cluster, b: Ballots, h: Books, n: nat, s': Cluster, b': Ballots)
    requires IsStep(Truncating, s, HeartBeatStep(n), s') && b' == b
    requires TalliesBacked(s, b) && CoreInv(s, b, h) && CommitsInv(s, h)
    ensures Kept(s, h, s', b', h)
  {
    hide CoreInv, CommitsInv, NetworkInv, TalliesBacked, MessageOk, CallCommits, NodeCommits, CommitOk;
    var nd, nd' := s.nodes[n], NewNode(Truncating, s, HeartBeatStep(n));
    CoreNetwork(s, b, h);
    CoreNode(s, b, h, n);
    CommitsNode(s, h, n);
    forall call | call in s'.appendCalls && call !in s.appendCalls
      ensures MessageOk(h, call.args) && CallCommits(s', h, call.args)
    {
      HeartBeatMessage(s, h, n, call.to, s');
    }
    NodeCommitsAfter(s, h, s', h, nd, nd');
    CommitsCarry(s, h, n, nd', s', h);
    QuietKeepsCore(s, b, h, s', b');
  }

  lemma ApplyKept(s: Cluster, b: Ballots, h: Books, n: nat, s': Cluster, b': Ballots)
    requires IsStep(Truncating, s, ApplyStep(n), s') && b' == b
    requires TalliesBacked(s, b) && CoreInv(s, b, h) && CommitsInv(s, h)
    ensures Kept(s, h, s', b', h)
  {
    hide CoreInv, CommitsInv, NetworkInv, TalliesBacked;
    CoreNetwork(s, b, h);
    CoreNode(s, b, h, n);
    ApplyCommits(s, h, n, s');
    QuietKeepsCore(s, b, h, s', b');
  }

  lemma RejectionKept(s: Cluster, b: Ballots, h: Books, call: AppendCall, s': Cluster, b': Ballots)
    requires IsStep(Truncating, s, AppendDelivery(call), s') && b' == b
    requires TalliesBacked(s, b) && CoreInv(s, b, h) && CommitsInv(s, h) && AppendCallShape(s, call)
    requires !AcceptsAppend(s.nodes[call.to], call.args)
    ensures Kept(s, h, s', b', h)
  {
    hide CoreInv, CommitsInv, NetworkInv, TalliesBacked;
    CoreNetwork(s, b, h);
    RejectionSame(Truncating, s.nodes[call.to], call.args);
    PlainCommitsCarry(s, h, call.to, NewNode(Truncating, s, AppendDelivery(call)), s', h);
    QuietKeepsCore(s, b, h, s', b');
  }

  lemma AppendAnswerKept(
      s: Cluster, b: Ballots, r: Rounds, h: Books, call: AppendCall, reply: AppendReply, s': Cluster, b': Ballots)
    requires IsStep(Truncating, s, AppendAnswer(call, reply), s') && b' == b
    requires BallotInv(s, b) && RoundInv(s, b, r) && CoreInv(s, b, h) && CommitsInv(s, h) && AppendCallShape(s, call)
    ensures Kept(s, h, s', b', h)
  {
    hide BallotInv, RoundInv, CoreInv, CommitsInv, NetworkInv, LogsInv, AcksInv, VotesRecorded, TalliesBacked,
      LeadersElected, WinnersBacked, VotesTallied;
    BallotParts(s, b);
    CoreNetwork(s, b, h);
    CoreLogs(s, b, h);
    AppendRepliedSame(s.nodes[call.from], call, reply);
    AnswerCommits(s, b, h, r, call, reply, s');
    QuietKeepsCore(s, b, h, s', b');
  }

  // ---------------------------------------------------------------------------------------
  // Accepting, appending, standing
  // ---------------------------------------------------------------------------------------

  lemma AcceptedNode(nd: Node, h: Books, a: AppendArgs)
    requires Shaped(nd) && NodeTraced(h, nd) && AcceptsAppend(nd, a)
    ensures var nd' := AppendEntries(Truncating, nd, a).0;
            && 0 <= a.prevLogIndex <= |nd.logs| && TermOf(nd.logs, a.prevLogIndex) == a.prevLogTerm
            && nd.currentTerm <= a.term == nd'.currentTerm && !nd'.status.Leader?
            && nd'.snapIndex == nd.snapIndex && nd'.snapTerm == nd.snapTerm
            && nd'.logs == MergeTruncating(nd.logs, a.prevLogIndex, a.entries)
            && nd'.commitIndex == (if a.leaderCommit > nd.commitIndex then Min(a.leaderCommit, |nd'.logs|)
                                   else nd.commitIndex)
            && nd'.lastApplied == nd.lastApplied && nd'.emitted == nd.emitted
  {
  }

  lemma AcceptanceKept(
      s: Cluster, b: Ballots, h: Books, call: AppendCall, s': Cluster, b': Ballots, h': Books)
    requires IsStep(Truncating, s, AppendDelivery(call), s') && b' == b
    requires VotesRecorded(s, b) && CallsFromLeaders(s, b) && CoreInv(s, b, h) && CommitsInv(s, h)
    requires AppendCallShape(s, call) && AcceptsAppend(s.nodes[call.to], call.args)
    requires h' == KeepBooks(s, h, AppendDelivery(call))
    ensures Kept(s, h, s', b', h')
  {
    hide CoreInv, CommitsInv, NetworkInv, VotesRecorded, CallCommits;
    var v, a, nd' := call.to, call.args, NewNode(Truncating, s, AppendDelivery(call));
    CoreNetwork(s, b, h);
    CoreNode(s, b, h, v);
    NetworkMessage(s, h, call);
    AcceptedNode(s.nodes[v], h, a);
    assert Acceptance(s, b, h, v, a, nd', s', h');
    AcceptanceKeepsCore(s, b, h, v, a, nd', s', h');
    AcceptanceProgress(s, b, h, v, a, nd', s', h');
    AcceptanceStepCommits(s, b, h, v, a, nd', s', h');
  }

  lemma AcceptanceStepCommits(
      s: Cluster, b: Ballots, h: Books, v: nat, a: AppendArgs, nd': Node, s': Cluster, h': Books)
    requires CoreInv(s, b, h) && CommitsInv(s, h)
    requires Acceptance(s, b, h, v, a, nd', s', h') && Progress(s, h, s', h')
    requires CallCommits(s, h, a)
    requires nd'.commitIndex == if a.leaderCommit > s.nodes[v].commitIndex then Min(a.leaderCommit, |nd'.logs|)
                                else s.nodes[v].commitIndex
    requires nd'.lastApplied == s.nodes[v].lastApplied && nd'.emitted == s.nodes[v].emitted
    requires s'.appendCalls == s.appendCalls
    ensures CommitsInv(s', h')
  {
    hide HistoryInv, LogsInv, StartSafe, NetworkInv, AcksInv, Retained, VoteSafe, CommitsInv, Acceptance, Progress;
    AcceptanceCommits(s, b, h, v, a, nd', s', h');
  }

  lemma StartKept(
      s: Cluster, b: Ballots, r: Rounds, h: Books, n: nat, command: string, s': Cluster, b': Ballots, h': Books)
    requires IsStep(Truncating, s, StartStep(n, command), s') && b' == b && s.nodes[n].status.Leader?
    requires BallotInv(s, b) && RoundInv(s, b, r) && CoreInv(s, b, h) && CommitsInv(s, h)
    requires h' == KeepBooks(s, h, StartStep(n, command))
    ensures Kept(s, h, s', b', h')
  {
    hide BallotInv, RoundInv, CoreInv, CommitsInv, NetworkInv, AcksInv, AcksBounded, RepliesAcked;
    var nd, nd' := s.nodes[n], NewNode(Truncating, s, StartStep(n, command));
    var e := Entry(LastIndex(nd) + 1, nd.currentTerm, command);
    CoreNetwork(s, b, h);
    CoreNode(s, b, h, n);
    CoreAcks(s, b, h);
    LeaderElected(s, b, n);
    assert Extension(s, b, h, n, e, nd', s', h');
    ExtensionProgress(s, b, h, n, e, nd', s', h');
    ExtensionKeepsCore(s, b, h, n, e, nd', s', h');
    StartCommits(s, b, h, r, n, command, nd', s', h');
  }

  lemma CoreLogs(s: Cluster, b: Ballots, h: Books)
    requires CoreInv(s, b, h)
    ensures LogsInv(s, h) && AcksInv(s, b, h)
  {
  }

  lemma CoreAcks(s: Cluster, b: Ballots, h: Books)
    requires CoreInv(s, b, h)
    ensures AcksBounded(s, h) && RepliesAcked(s, h)
  {
  }

  lemma LeaderElected(s: Cluster, b: Ballots, n: nat)
    requires BallotInv(s, b) && n < |s.nodes| && s.nodes[n].status.Leader?
    ensures s.nodes[n].currentTerm in b.elected && b.elected[s.nodes[n].currentTerm] == n
  {
  }

  /** The term a candidate enters has neither its votes nor its candidacies. */
  lemma NewTermUnused(s: Cluster, b: Ballots, h: Books, n: nat)
    requires n < |s.nodes| && VotesRecorded(s, b) && TalliesBacked(s, b) && h.cands.Keys == b.tally.Keys
    ensures (n, s.nodes[n].currentTerm + 1) !in h.cands && (n, s.nodes[n].currentTerm + 1) !in b.votes
  {
    forall key | key in b.tally
      ensures key.0 < |s.nodes| && key.1 <= s.nodes[key.0].currentTerm
    {
      assert TallyBacked(s, b, key.0, key.1);
    }
  }

  lemma NobodyVotedYet(s: Cluster, b: Ballots, n: nat)
    requires n < |s.nodes| && VotesTallied(b) && TalliesBacked(s, b)
    ensures forall key :: key in b.votes && key.1 == s.nodes[n].currentTerm + 1 ==> b.votes[key] != n
  {
    forall key | key in b.votes
      ensures (b.votes[key], key.1) in b.tally && b.votes[key] < |s.nodes|
      ensures key.1 <= s.nodes[b.votes[key]].currentTerm
    {
      assert TallyBacked(s, b, b.votes[key], key.1);
    }
  }

  lemma CandidateNode(nd: Node)
    requires Indexed(nd) && !nd.status.Leader?
    ensures var nd' := Election(nd);
            && nd'.logs == nd.logs && nd'.snapIndex == nd.snapIndex && nd'.snapTerm == nd.snapTerm
            && nd'.currentTerm == nd.currentTerm + 1
            && (nd.peers != 1 ==> !nd'.status.Leader?)
            && SameCommits(nd, nd')
  {
  }

  lemma ElectionCallsOk(s: Cluster, n: nat, h': Books)
    requires n < |s.nodes| && Indexed(s.nodes[n]) && s.nodes[n].me == n
    requires s.nodes[n].snapIndex == 0 && s.nodes[n].snapTerm == 0
    requires (n, s.nodes[n].currentTerm + 1) in h'.cands
    requires h'.cands[(n, s.nodes[n].currentTerm + 1)] == s.nodes[n].logs
    ensures forall call :: call in ElectionCalls(s.nodes[n]) ==> VoteCallOk(h', call)
  {
  }

  lemma CandidacyProgress(s: Cluster, b: Ballots, h: Books, c: nat, nd': Node, s': Cluster, b': Ballots, h': Books)
    requires Candidacy(s, b, h, c, nd', s', b', h')
    ensures Progress(s, h, s', h')
  {
  }

  lemma CandidacyCommits(s: Cluster, b: Ballots, h: Books, c: nat, nd': Node, s': Cluster, b': Ballots, h': Books)
    requires CommitsInv(s, h) && NetworkInv(s, h) && Candidacy(s, b, h, c, nd', s', b', h') && Progress(s, h, s', h')
    requires SameCommits(s.nodes[c], nd') && s'.appendCalls == s.appendCalls
    ensures CommitsInv(s', h')
  {
    hide CommitsInv, NetworkInv, Progress;
    PlainCommitsCarry(s, h, c, nd', s', h');
  }

  lemma CandidacyStepKept(
      s: Cluster, b: Ballots, h: Books, c: nat, nd': Node, s': Cluster, b': Ballots, h': Books)
    requires CoreInv(s, b, h) && CommitsInv(s, h) && Candidacy(s, b, h, c, nd', s', b', h')
    requires SameCommits(s.nodes[c], nd')
    requires forall key :: key in b.votes && key.1 == nd'.currentTerm ==> b.votes[key] != c
    requires forall call :: call in s'.voteCalls ==> call in s.voteCalls || VoteCallOk(h', call)
    requires s'.appendCalls == s.appendCalls && s'.appendReplies == s.appendReplies && s'.snapCalls == {}
    ensures Kept(s, h, s', b', h')
  {
    hide CoreInv, CommitsInv, NetworkInv, Progress;
    CandidacyProgress(s, b, h, c, nd', s', b', h');
    CoreNetwork(s, b, h);
    CandidacyCommits(s, b, h, c, nd', s', b', h');
    hide Candidacy;
    CandidacyKeepsCore(s, b, h, c, nd', s', b', h');
  }

  lemma CandidacyKept(s: Cluster, b: Ballots, h: Books, n: nat, s': Cluster, b': Ballots, h': Books)
    requires IsStep(Truncating, s, ElectionStep(n), s') && b' == CountBallots(s, b, ElectionStep(n))
    requires VotesRecorded(s, b) && TalliesBacked(s, b) && VotesTallied(b) && CoreInv(s, b, h) && CommitsInv(s, h)
    requires !s.nodes[n].status.Leader? && s.nodes[n].peers != 1
    requires h' == KeepBooks(s, h, ElectionStep(n))
    ensures Kept(s, h, s', b', h')
  {
    hide CoreInv, CommitsInv, NetworkInv, VotesRecorded, TalliesBacked, VotesTallied;
    var nd' := NewNode(Truncating, s, ElectionStep(n));
    CoreNetwork(s, b, h);
    CoreNode(s, b, h, n);
    FullAreElected(s, b, h);
    NewTermUnused(s, b, h, n);
    NobodyVotedYet(s, b, n);
    CandidateNode(s.nodes[n]);
    ElectionCallsOk(s, n, h');
    assert Candidacy(s, b, h, n, nd', s', b', h');
    hide Candidacy, Kept;
    CandidacyStepKept(s, b, h, n, nd', s', b', h');
  }

  /** The state between standing and winning in a cluster of one. */
  lemma SoleStands(
      s: Cluster, b: Ballots, h: Books, n: nat, nd1: Node, s1: Cluster, b1: Ballots, h1: Books)
    requires BallotInv(s, b) && CoreInv(s, b, h) && CommitsInv(s, h)
    requires n < |s.nodes| && s1 == s.(nodes := s.nodes[n := nd1]) && 0 <= s.nodes[n].currentTerm
    requires nd1.logs == s.nodes[n].logs && nd1.snapIndex == s.nodes[n].snapIndex && nd1.snapTerm == s.nodes[n].snapTerm
    requires nd1.currentTerm == s.nodes[n].currentTerm + 1 && !nd1.status.Leader? && SameCommits(s.nodes[n], nd1)
    requires b1 == Ballots(b.votes[(n, nd1.currentTerm) := n], b.tally[(n, nd1.currentTerm) := {n}], b.elected)
    requires h1 == h.(cands := h.cands[(n, nd1.currentTerm) := nd1.logs])
    ensures Kept(s, h, s1, b1, h1)
  {
    hide BallotInv, CoreInv, CommitsInv, NetworkInv, VotesRecorded, TalliesBacked, LeadersElected, WinnersBacked,
      VotesTallied;
    BallotParts(s, b);
    CoreNetwork(s, b, h);
    FullAreElected(s, b, h);
    NewTermUnused(s, b, h, n);
    NobodyVotedYet(s, b, n);
    CandidacyStepKept(s, b, h, n, nd1, s1, b1, h1);
  }

  /** What the step does to a cluster of one. */
  lemma SoleElection(s: Cluster, b: Ballots, h: Books, n: nat, s': Cluster, b': Ballots, h': Books)
    requires IsStep(Truncating, s, ElectionStep(n), s') && b' == CountBallots(s, b, ElectionStep(n))
    requires !s.nodes[n].status.Leader? && s.nodes[n].peers == 1
    requires h' == KeepBooks(s, h, ElectionStep(n))
    ensures |s.nodes| == 1 && n == 0 && 0 <= s.nodes[n].currentTerm
    ensures var nd, nd' := s.nodes[n], NewNode(Truncating, s, ElectionStep(n)); var t := nd.currentTerm + 1;
            && s'.nodes == s.nodes[n := nd'] && s' == s.(nodes := s'.nodes)
            && nd'.logs == nd.logs && nd'.snapIndex == nd.snapIndex && nd'.snapTerm == nd.snapTerm
            && nd'.currentTerm == t && SameCommits(nd, nd')
            && b' == Ballots(b.votes[(n, t) := n], b.tally[(n, t) := {n}], b.elected[t := n])
            && h' == Crown(h.(cands := h.cands[(n, t) := nd.logs]), n, t, nd.logs)
  {
  }

  /** A cluster of one: the candidate has won as soon as it stands. */
  lemma SoleVictoryKept(s: Cluster, b: Ballots, h: Books, n: nat, s': Cluster, b': Ballots, h': Books)
    requires IsStep(Truncating, s, ElectionStep(n), s') && b' == CountBallots(s, b, ElectionStep(n))
    requires BallotInv(s, b) && BallotInv(s', b') && CoreInv(s, b, h) && CommitsInv(s, h)
    requires !s.nodes[n].status.Leader? && s.nodes[n].peers == 1
    requires h' == KeepBooks(s, h, ElectionStep(n))
    ensures Kept(s, h, s', b', h')
  {
    hide BallotInv, CoreInv, CommitsInv, Kept;
    SoleElection(s, b, h, n, s', b', h');
    SoleStepKept(s, b, h, n, NewNode(Truncating, s, ElectionStep(n)), s', b', h');
  }

  lemma SoleStepKept(s: Cluster, b: Ballots, h: Books, n: nat, nd': Node, s': Cluster, b': Ballots, h': Books)
    requires BallotInv(s, b) && BallotInv(s', b') && CoreInv(s, b, h) && CommitsInv(s, h)
    requires |s.nodes| == 1 && n == 0 && 0 <= s.nodes[n].currentTerm
    requires s'.nodes == s.nodes[n := nd'] && s' == s.(nodes := s'.nodes)
    requires nd'.logs == s.nodes[n].logs && nd'.snapIndex == s.nodes[n].snapIndex && nd'.snapTerm == s.nodes[n].snapTerm
    requires nd'.currentTerm == s.nodes[n].currentTerm + 1 && SameCommits(s.nodes[n], nd')
    requires b' == Ballots(b.votes[(n, nd'.currentTerm) := n], b.tally[(n, nd'.currentTerm) := {n}],
                           b.elected[nd'.currentTerm := n])
    requires h' == Crown(h.(cands := h.cands[(n, nd'.currentTerm) := nd'.logs]), n, nd'.currentTerm, nd'.logs)
    ensures Kept(s, h, s', b', h')
  {
    hide BallotInv, CoreInv, CommitsInv, NetworkInv, VotesRecorded, TalliesBacked, LeadersElected, WinnersBacked,
      VotesTallied, Progress;
    var nd1 := nd'.(status := Candidate);
    var s1, b1 := s.(nodes := s.nodes[n := nd1]), b'.(elected := b.elected);
    var h1 := h.(cands := h.cands[(n, nd'.currentTerm) := s.nodes[n].logs]);
    SoleStands(s, b, h, n, nd1, s1, b1, h1);
    BallotParts(s, b);
    BallotParts(s', b');
    CoreNetwork(s, b, h);
    FullAreElected(s, b, h);
    SoleTermFresh(s, b, h, n);
    SoleVotes(s, b, n, s', b', s1, b1);
    SoleWins(s1, b1, h1, n, nd', s', b', h');
    ProgressThrough(s, h, s1, h1, s', h');
  }

  /** The second half: the candidate's own vote is a majority. */
  lemma SoleWins(s: Cluster, b: Ballots, h: Books, n: nat, nd': Node, s': Cluster, b': Ballots, h': Books)
    requires CoreInv(s, b, h) && CommitsInv(s, h) && VotesRecorded(s, b) && Victory(s, b, h, n, nd', s', b', h')
    requires SameCommits(s.nodes[n], nd') && |s.nodes| == 1
    requires (n, nd'.currentTerm) in b.votes && b.votes[(n, nd'.currentTerm)] == n
    requires s'.voteCalls == s.voteCalls && s'.snapCalls == {}
    requires s'.appendCalls == s.appendCalls && s'.appendReplies == s.appendReplies
    ensures Kept(s, h, s', b', h')
  {
    hide CoreInv, CommitsInv, VotesRecorded, Kept;
    VictoryStepKept(s, b, h, n, nd', {n}, s', b', h');
  }

  lemma SoleTermFresh(s: Cluster, b: Ballots, h: Books, n: nat)
    requires TalliesBacked(s, b) && WinnersBacked(s, b) && h.full.Keys == b.elected.Keys && n < |s.nodes| == 1
    ensures s.nodes[n].currentTerm + 1 !in h.full
  {
    forall t | t in b.elected
      ensures t <= s.nodes[n].currentTerm
    {
      assert TallyBacked(s, b, b.elected[t], t);
    }
  }

  lemma SoleVotes(s: Cluster, b: Ballots, n: nat, s': Cluster, b': Ballots, s1: Cluster, b1: Ballots)
    requires VotesRecorded(s', b') && n < |s'.nodes| && |s1.nodes| == |s'.nodes| == 1
    requires b1.votes == b'.votes
    requires s1.nodes[n].currentTerm == s'.nodes[n].currentTerm && s1.nodes[n].votedFor == s'.nodes[n].votedFor
    ensures VotesRecorded(s1, b1)
  {
  }

  lemma ProgressThrough(s: Cluster, h: Books, s1: Cluster, h1: Books, s2: Cluster, h2: Books)
    requires Progress(s, h, s1, h1) && Progress(s1, h1, s2, h2)
    ensures Progress(s, h, s2, h2)
  {
    forall t | t in h.full
      ensures t in h2.full && h.full[t] <= h2.full[t]
    {
      assert h.full[t] <= h1.full[t] <= h2.full[t];
    }
  }

  // ---------------------------------------------------------------------------------------
  // Whole runs
  // ---------------------------------------------------------------------------------------

  ghost predicate SafeInv(s: Cluster, b: Ballots, h: Books) {
    CoreInv(s, b, h) && CommitsInv(s, h)
  }

  lemma InitSafe(n: nat)
    ensures SafeInv(InitCluster(n), NO_BALLOTS, NO_BOOKS)
  {
  }

  lemma VoteStepsKept(s: Cluster, b: Ballots, r: Rounds, h: Books, step: Step, s': Cluster, b': Ballots)
    requires BallotInv(s, b) && RoundInv(s, b, r) && SafeInv(s, b, h)
    requires BallotStep(Truncating, s, b, step, s', b') && BallotInv(s', b')
    requires step.ElectionStep? || step.VoteDelivery? || step.VoteAnswer?
    ensures Kept(s, h, s', b', KeepBooks(s, h, step))
  {
    hide BallotInv, RoundInv, CoreInv, CommitsInv, VotesRecorded, TalliesBacked, LeadersElected, VotesTallied,
      WinnersBacked, Kept, Apply, Crowns;
    BallotParts(s, b);
    match step
    case ElectionStep(n) =>
      if s.nodes[n].status.Leader? {
        LeaderStands(s, b, h, n, s', b');
      } else if s.nodes[n].peers == 1 {
        SoleVictoryKept(s, b, h, n, s', b', KeepBooks(s, h, step));
      } else {
        CandidacyKept(s, b, h, n, s', b', KeepBooks(s, h, step));
      }
    case VoteDelivery(call) => VoteDeliveryKept(s, b, h, call, s', b');
    case VoteAnswer(call, reply) =>
      AnswersShaped(s, call, reply);
      if Crowns(s, step) {
        VictoryKept(s, b, h, call, reply, s', b');
      } else {
        VoteAnswerKept(s, b, h, call, reply, s', b');
      }
  }

  lemma LeaderStands(s: Cluster, b: Ballots, h: Books, n: nat, s': Cluster, b': Ballots)
    requires IsStep(Truncating, s, ElectionStep(n), s') && b' == CountBallots(s, b, ElectionStep(n))
    requires s.nodes[n].status.Leader? && CoreInv(s, b, h) && CommitsInv(s, h)
    ensures Kept(s, h, s', b', h)
  {
    hide CoreInv, CommitsInv;
    assert s' == s && b' == b;
  }

  lemma LogStepsKept(s: Cluster, b: Ballots, r: Rounds, h: Books, step: Step, s': Cluster, b': Ballots)
    requires BallotInv(s, b) && RoundInv(s, b, r) && SafeInv(s, b, h)
    requires BallotStep(Truncating, s, b, step, s', b')
    requires step.HeartBeatStep? || step.StartStep? || step.ApplyStep? || step.AppendDelivery? || step.AppendAnswer?
    ensures Kept(s, h, s', b', KeepBooks(s, h, step))
  {
    hide BallotInv, RoundInv, CoreInv, CommitsInv, VotesRecorded, TalliesBacked, LeadersElected, VotesTallied,
      WinnersBacked, Kept, Apply, CallsFromLeaders, Indexed, AcceptsAppend, KeepsElected;
    RoundParts(s, b, r);
    BallotParts(s, b);
    match step
    case HeartBeatStep(n) => HeartBeatKept(s, b, h, n, s', b');
    case ApplyStep(n) => ApplyKept(s, b, h, n, s', b');
    case StartStep(n, command) =>
      if s.nodes[n].status.Leader? {
        StartKept(s, b, r, h, n, command, s', b', KeepBooks(s, h, step));
      } else {
        FollowerStarts(s, b, h, n, command, s', b');
      }
    case AppendDelivery(call) =>
      AppendsShaped(s, call);
      if AcceptsAppend(s.nodes[call.to], call.args) {
        AcceptanceKept(s, b, h, call, s', b', KeepBooks(s, h, step));
      } else {
        RejectionKept(s, b, h, call, s', b');
      }
    case AppendAnswer(call, reply) =>
      AnsweredCalls(s, call, reply);
      AppendsShaped(s, call);
      AppendAnswerKept(s, b, r, h, call, reply, s', b');
  }

  lemma RoundParts(s: Cluster, b: Ballots, r: Rounds)
    requires RoundInv(s, b, r)
    ensures CallsFromLeaders(s, b)
  {
  }

  lemma AppendsShaped(s: Cluster, call: AppendCall)
    requires Shape(s) && call in s.appendCalls
    ensures AppendCallShape(s, call)
  {
  }

  lemma AnsweredCalls(s: Cluster, call: AppendCall, reply: AppendReply)
    requires Shape(s) && (call, reply) in s.appendReplies
    ensures call in s.appendCalls
  {
  }

  lemma NoSnapshotsInFlight(s: Cluster, step: Step)
    requires Shape(s) && Enabled(s, step) && s.snapCalls == {}
    ensures !step.SnapDelivery? && !step.SnapAnswer?
  {
  }

  lemma FollowerStarts(s: Cluster, b: Ballots, h: Books, n: nat, command: string, s': Cluster, b': Ballots)
    requires IsStep(Truncating, s, StartStep(n, command), s') && b' == b
    requires !s.nodes[n].status.Leader? && CoreInv(s, b, h) && CommitsInv(s, h)
    ensures Kept(s, h, s', b', h)
  {
    hide CoreInv, CommitsInv;
    assert s' == s;
  }

  /** Every step but a snapshot's keeps the history invariant. */
  lemma StepKeepsBooks(s: Cluster, b: Ballots, r: Rounds, h: Books, step: Step, s': Cluster, b': Ballots)
    requires BallotInv(s, b) && RoundInv(s, b, r) && SafeInv(s, b, h)
    requires BallotStep(Truncating, s, b, step, s', b') && BallotInv(s', b')
    requires SnapshotFree(step)
    ensures Kept(s, h, s', b', KeepBooks(s, h, step))
  {
    hide BallotInv, RoundInv, Kept, Shape, Enabled, Apply, CountBallots, CoreInv, NetworkInv;
    CoreNetwork(s, b, h);
    NoSnapshotsInFlight(s, step);
    if step.ElectionStep? || step.VoteDelivery? || step.VoteAnswer? {
      VoteStepsKept(s, b, r, h, step, s', b');
    } else {
      LogStepsKept(s, b, r, h, step, s', b');
    }
  }
}
