/** Election safety: at most one node ever becomes leader in a term, with either merge and with
    snapshots, although sendRequestVote does not check that its node is still a candidate. */
module RaftElection {
  import opened RaftTypes
  import opened RaftNode
  import opened RaftCluster
  import opened Quorums

  /** What the voters have done so far: who voted for whom in which term, which voters each
      election has counted (the candidate included), and who won each term. */
  datatype Ballots = Ballots(
    votes: map<(nat, int), nat>,
    tally: map<(nat, int), set<nat>>,
    elected: map<int, nat>)

  const NO_BALLOTS := Ballots(map[], map[], map[])

  /** A reply that sendRequestVote adds to the counter. */
  predicate Counted(s: Cluster, call: VoteCall, reply: VoteReply)
    requires call.from < |s.nodes|
  {
    reply.granted && reply.term == s.nodes[call.from].currentTerm
  }

  /** A counted reply that completes the majority. */
  predicate Wins(s: Cluster, call: VoteCall, reply: VoteReply)
    requires call.from < |s.nodes| && call.args.term in s.nodes[call.from].votedNums
  {
    Counted(s, call, reply) && s.nodes[call.from].votedNums[call.args.term] + 1 >= Majority(s.nodes[call.from].peers)
  }

  ghost function CountBallots(s: Cluster, b: Ballots, step: Step): Ballots
    requires Shape(s) && Enabled(s, step)
  {
    match step
    case ElectionStep(n) =>
      var nd := s.nodes[n];
      var term := nd.currentTerm + 1;
      if nd.status.Leader? then b
      else Ballots(b.votes[(n, term) := n], b.tally[(n, term) := {n}],
                   if nd.peers == 1 then b.elected[term := n] else b.elected)
    case VoteDelivery(call) =>
      if RequestVote(s.nodes[call.to], call.args).1.granted then
        b.(votes := b.votes[(call.to, call.args.term) := call.from])
      else b
    case VoteAnswer(call, reply) =>
      assert VoteCallShape(s, call);
      var key := (call.from, call.args.term);
      if Counted(s, call, reply) && key in b.tally then
        b.(tally := b.tally[key := b.tally[key] + {call.to}],
           elected := if Wins(s, call, reply) then b.elected[call.args.term := call.from] else b.elected)
      else b
    case _ => b
  }

  // ---------------------------------------------------------------------------------------
  // The invariant
  // ---------------------------------------------------------------------------------------

  ghost predicate VotesRecorded(s: Cluster, b: Ballots) {
    && (forall v, t :: (v, t) in b.votes ==>
          && v < |s.nodes| && t <= s.nodes[v].currentTerm
          && (t == s.nodes[v].currentTerm ==> s.nodes[v].votedFor == b.votes[(v, t)]))
    && (forall v :: 0 <= v < |s.nodes| && s.nodes[v].votedFor != -1 ==>
          (v, s.nodes[v].currentTerm) in b.votes)
  }

  ghost predicate GrantsRecorded(s: Cluster, b: Ballots) {
    forall r :: r in s.voteReplies && r.1.granted ==>
      && r.1.term == r.0.args.term
      && (r.0.to, r.0.args.term) in b.votes
      && b.votes[(r.0.to, r.0.args.term)] == r.0.from
  }

  /** Everyone counted for a candidate voted for it. */
  ghost predicate TallyBacked(s: Cluster, b: Ballots, c: nat, t: int)
    requires (c, t) in b.tally
  {
    && c < |s.nodes| && t <= s.nodes[c].currentTerm && t in s.nodes[c].votedNums
    && c in b.tally[(c, t)]
    && (forall v :: v in b.tally[(c, t)] ==> v < |s.nodes| && (v, t) in b.votes && b.votes[(v, t)] == c)
  }

  ghost predicate TalliesBacked(s: Cluster, b: Ballots) {
    forall c, t :: (c, t) in b.tally ==> TallyBacked(s, b, c, t)
  }

  ghost predicate CallsTallied(s: Cluster, b: Ballots) {
    forall call :: call in s.voteCalls ==> (call.from, call.args.term) in b.tally
  }

  /** Votes are cast only in elections that were held. */
  ghost predicate VotesTallied(b: Ballots) {
    forall key :: key in b.votes ==> (b.votes[key], key.1) in b.tally
  }

  ghost predicate OneCallPerPeer(s: Cluster) {
    forall c1, c2 ::
      c1 in s.voteCalls && c2 in s.voteCalls && c1.from == c2.from && c1.to == c2.to && c1.args.term == c2.args.term
      ==> c1 == c2
  }

  /** Whoever has been counted has had its reply handled. */
  ghost predicate CountedOnce(s: Cluster, b: Ballots) {
    forall call :: call in s.voteCalls && call !in s.votesHandled && (call.from, call.args.term) in b.tally ==>
      call.to !in b.tally[(call.from, call.args.term)]
  }

  /** The shared counter is the number of counted voters, less the majority spent on winning. */
  ghost predicate CounterExact(s: Cluster, b: Ballots) {
    |s.nodes| > 1 ==>
      forall c, t :: (c, t) in b.tally && c < |s.nodes| && t in s.nodes[c].votedNums ==>
        && s.nodes[c].votedNums[t] < Majority(|s.nodes|)
        && s.nodes[c].votedNums[t] ==
             |b.tally[(c, t)]| - (if t in b.elected && b.elected[t] == c then Majority(|s.nodes|) else 0)
  }

  ghost predicate WinnersBacked(s: Cluster, b: Ballots) {
    forall t :: t in b.elected ==>
      (b.elected[t], t) in b.tally && |b.tally[(b.elected[t], t)]| >= Majority(|s.nodes|)
  }

  ghost predicate LeadersElected(s: Cluster, b: Ballots) {
    forall c :: 0 <= c < |s.nodes| && s.nodes[c].status.Leader? ==>
      s.nodes[c].currentTerm in b.elected && b.elected[s.nodes[c].currentTerm] == c
  }

  ghost predicate BallotInv(s: Cluster, b: Ballots) {
    && VotesRecorded(s, b)
    && GrantsRecorded(s, b)
    && TalliesBacked(s, b)
    && CallsTallied(s, b)
    && VotesTallied(b)
    && OneCallPerPeer(s)
    && CountedOnce(s, b)
    && CounterExact(s, b)
    && WinnersBacked(s, b)
    && LeadersElected(s, b)
  }

  lemma BallotParts(s: Cluster, b: Ballots)
    requires BallotInv(s, b)
    ensures VotesRecorded(s, b) && TalliesBacked(s, b) && LeadersElected(s, b) && VotesTallied(b)
    ensures WinnersBacked(s, b)
  {
  }

  lemma ElectedTermsPast(s: Cluster, b: Ballots)
    requires TalliesBacked(s, b) && WinnersBacked(s, b)
    ensures forall t :: t in b.elected ==> b.elected[t] < |s.nodes| && t <= s.nodes[b.elected[t]].currentTerm
  {
    forall t | t in b.elected
      ensures b.elected[t] < |s.nodes| && t <= s.nodes[b.elected[t]].currentTerm
    {
      assert TallyBacked(s, b, b.elected[t], t);
    }
  }

  // ---------------------------------------------------------------------------------------
  // Steps that neither cast nor count a vote
  // ---------------------------------------------------------------------------------------

  /** The actor keeps its vote, perhaps stepping aside, or moves to a later term without a vote. */
  ghost predicate Quiet(nd: Node, nd': Node) {
    && nd'.votedNums == nd.votedNums
    && ( || (nd'.currentTerm == nd.currentTerm && nd'.votedFor == nd.votedFor
             && (nd'.status.Leader? ==> nd.status.Leader?))
         || (nd'.currentTerm > nd.currentTerm && nd'.votedFor == -1 && !nd'.status.Leader?))
  }

  lemma QuietSteps(m: Merge, s: Cluster, step: Step)
    requires Shape(s) && Enabled(s, step)
    requires !step.ElectionStep?
    requires step.VoteDelivery? ==> !RequestVote(s.nodes[step.vote.to], step.vote.args).1.granted
    requires step.VoteAnswer? ==> !Counted(s, step.vote, step.voteReply)
    ensures Quiet(s.nodes[Actor(step)], NewNode(m, s, step))
  {
  }

  lemma QuietKeepsBallots(s: Cluster, b: Ballots, i: nat, nd': Node, s': Cluster)
    requires BallotInv(s, b)
    requires i < |s.nodes| && Quiet(s.nodes[i], nd') && s'.nodes == s.nodes[i := nd']
    requires s'.voteCalls == s.voteCalls && s.votesHandled <= s'.votesHandled
    requires forall r :: r in s'.voteReplies && r.1.granted ==> r in s.voteReplies
    ensures BallotInv(s', b)
  {
    forall c, t | (c, t) in b.tally
      ensures TallyBacked(s', b, c, t)
    {
      assert TallyBacked(s, b, c, t);
    }
  }

  // ---------------------------------------------------------------------------------------
  // Standing for election, voting
  // ---------------------------------------------------------------------------------------

  lemma CandidateOrSole(s: Cluster, n: nat)
    requires Shape(s) && n < |s.nodes| && !s.nodes[n].status.Leader?
    ensures var nd, nd' := s.nodes[n], Election(s.nodes[n]);
            && nd.peers == |s.nodes| && nd'.currentTerm == nd.currentTerm + 1 && nd'.votedFor == n
            && nd'.votedNums == nd.votedNums[nd.currentTerm + 1 := 1]
            && (nd'.status.Leader? <==> |s.nodes| == 1)
  {
  }

  /** A node that moves to a new term and votes for itself there, the only one it counts so far. */
  lemma NewTermKeepsVotes(s: Cluster, b: Ballots, n: nat, nd': Node, s': Cluster, b': Ballots)
    requires VotesRecorded(s, b) && GrantsRecorded(s, b) && TalliesBacked(s, b) && VotesTallied(b)
    requires n < |s.nodes| && s'.nodes == s.nodes[n := nd'] && s'.voteReplies == s.voteReplies
    requires var t := s.nodes[n].currentTerm + 1;
             && nd'.currentTerm == t && nd'.votedFor == n && nd'.votedNums == s.nodes[n].votedNums[t := 1]
             && b'.votes == b.votes[(n, t) := n] && b'.tally == b.tally[(n, t) := {n}]
    ensures VotesRecorded(s', b') && GrantsRecorded(s', b') && TalliesBacked(s', b') && VotesTallied(b')
  {
    forall c, t | (c, t) in b'.tally
      ensures TallyBacked(s', b', c, t)
    {
      if (c, t) in b.tally {
        assert TallyBacked(s, b, c, t);
      }
    }
  }

  lemma ElectionKeepsVotes(m: Merge, s: Cluster, b: Ballots, n: nat)
    requires Shape(s) && n < |s.nodes| && !s.nodes[n].status.Leader?
    requires VotesRecorded(s, b) && GrantsRecorded(s, b) && TalliesBacked(s, b) && VotesTallied(b)
    ensures var step := ElectionStep(n);
            var s', b' := Apply(m, s, step), CountBallots(s, b, step);
            VotesRecorded(s', b') && GrantsRecorded(s', b') && TalliesBacked(s', b') && VotesTallied(b')
  {
    hide Shape, Election, ElectionCalls, VotesRecorded, GrantsRecorded, TalliesBacked, VotesTallied;
    var step := ElectionStep(n);
    CandidateOrSole(s, n);
    NewTermKeepsVotes(s, b, n, NewNode(m, s, step), Apply(m, s, step), CountBallots(s, b, step));
  }

  lemma ElectionKeepsCalls(m: Merge, s: Cluster, b: Ballots, n: nat)
    requires Shape(s) && n < |s.nodes| && !s.nodes[n].status.Leader?
    requires TalliesBacked(s, b) && CallsTallied(s, b) && OneCallPerPeer(s) && CountedOnce(s, b)
    ensures var step := ElectionStep(n);
            var s', b' := Apply(m, s, step), CountBallots(s, b, step);
            CallsTallied(s', b') && OneCallPerPeer(s') && CountedOnce(s', b')
  {
    var step := ElectionStep(n);
    var s' := Apply(m, s, step);
    forall call | call in s'.voteCalls
      ensures call in s.voteCalls || (call.from == n && call.args == ElectionArgs(s.nodes[n]) && call.to != n)
    {
    }
    forall call | call in s.voteCalls
      ensures call.from == n ==> call.args.term <= s.nodes[n].currentTerm
    {
      assert (call.from, call.args.term) in b.tally;
      assert TallyBacked(s, b, call.from, call.args.term);
    }
  }

  /** A new election has its own fresh term and counter. */
  lemma ElectionKeepsCounters(s: Cluster, b: Ballots, n: nat, nd': Node, s': Cluster, b': Ballots)
    requires TalliesBacked(s, b) && CounterExact(s, b) && WinnersBacked(s, b)
    requires n < |s.nodes| && s'.nodes == s.nodes[n := nd'] && |s.nodes| > 1
    requires var t := s.nodes[n].currentTerm + 1;
             && nd'.votedNums == s.nodes[n].votedNums[t := 1]
             && b'.tally == b.tally[(n, t) := {n}] && b'.elected == b.elected
    ensures CounterExact(s', b')
  {
    var t := s.nodes[n].currentTerm + 1;
    assert t in b.elected ==> b.elected[t] != n by {
      ElectedTermsPast(s, b);
    }
    assert |{n}| == 1;
  }

  lemma ElectionKeepsWinners(s: Cluster, b: Ballots, n: nat, nd': Node, s': Cluster, b': Ballots)
    requires TalliesBacked(s, b) && WinnersBacked(s, b) && LeadersElected(s, b)
    requires n < |s.nodes| && s'.nodes == s.nodes[n := nd']
    requires var t := s.nodes[n].currentTerm + 1;
             && nd'.currentTerm == t && (nd'.status.Leader? <==> |s.nodes| == 1)
             && b'.tally == b.tally[(n, t) := {n}]
             && b'.elected == if |s.nodes| == 1 then b.elected[t := n] else b.elected
    ensures WinnersBacked(s', b') && LeadersElected(s', b')
  {
    ElectedTermsPast(s, b);
  }

  lemma GrantKeepsVotes(m: Merge, s: Cluster, b: Ballots, call: VoteCall)
    requires Shape(s) && call in s.voteCalls
    requires RequestVote(s.nodes[call.to], call.args).1.granted
    requires VotesRecorded(s, b) && GrantsRecorded(s, b)
    ensures var s', b' := Apply(m, s, VoteDelivery(call)), CountBallots(s, b, VoteDelivery(call));
            VotesRecorded(s', b') && GrantsRecorded(s', b')
    ensures forall key :: key in b.votes ==> b.votes[key] == CountBallots(s, b, VoteDelivery(call)).votes[key]
  {
    assert VoteCallShape(s, call);
  }

  /** More votes and later terms do no harm to what has been tallied. */
  lemma MoreVotesKeepTallies(s: Cluster, b: Ballots, i: nat, nd': Node, s': Cluster, b': Ballots)
    requires TalliesBacked(s, b) && CounterExact(s, b) && WinnersBacked(s, b) && LeadersElected(s, b)
    requires i < |s.nodes| && s'.nodes == s.nodes[i := nd']
    requires nd'.votedNums == s.nodes[i].votedNums && nd'.currentTerm >= s.nodes[i].currentTerm
    requires nd'.status.Leader? ==> nd'.currentTerm == s.nodes[i].currentTerm && s.nodes[i].status.Leader?
    requires b'.tally == b.tally && b'.elected == b.elected
    requires forall key :: key in b.votes ==> key in b'.votes && b.votes[key] == b'.votes[key]
    ensures TalliesBacked(s', b') && CounterExact(s', b') && WinnersBacked(s', b') && LeadersElected(s', b')
  {
    forall c, t | (c, t) in b'.tally
      ensures TallyBacked(s', b', c, t)
    {
      assert TallyBacked(s, b, c, t);
    }
  }

  lemma GrantKeepsBallots(m: Merge, s: Cluster, b: Ballots, call: VoteCall)
    requires Shape(s) && call in s.voteCalls
    requires RequestVote(s.nodes[call.to], call.args).1.granted
    requires BallotInv(s, b)
    ensures BallotInv(Apply(m, s, VoteDelivery(call)), CountBallots(s, b, VoteDelivery(call)))
  {
    assert VoteCallShape(s, call);
    var step := VoteDelivery(call);
    GrantKeepsVotes(m, s, b, call);
    MoreVotesKeepTallies(s, b, call.to, NewNode(m, s, step), Apply(m, s, step), CountBallots(s, b, step));
  }

  // ---------------------------------------------------------------------------------------
  // Counting a vote
  // ---------------------------------------------------------------------------------------

  lemma SameVoteKeepsRecorded(s: Cluster, b: Ballots, c: nat, nd': Node, s': Cluster, b': Ballots)
    requires VotesRecorded(s, b) && GrantsRecorded(s, b)
    requires c < |s.nodes| && s'.nodes == s.nodes[c := nd'] && s'.voteReplies == s.voteReplies
    requires nd'.currentTerm == s.nodes[c].currentTerm && nd'.votedFor == s.nodes[c].votedFor
    requires b'.votes == b.votes
    ensures VotesRecorded(s', b') && GrantsRecorded(s', b')
  {
  }

  /** One more recorded voter is counted for a node that keeps its term. */
  lemma MoreCountedKeepsTallies(s: Cluster, b: Ballots, c: nat, t: int, v: nat, nd': Node, s': Cluster, b': Ballots)
    requires VotesRecorded(s, b) && TalliesBacked(s, b) && VotesTallied(b)
    requires c < |s.nodes| && s'.nodes == s.nodes[c := nd'] && nd'.currentTerm == s.nodes[c].currentTerm
    requires nd'.votedNums.Keys == s.nodes[c].votedNums.Keys
    requires (v, t) in b.votes && b.votes[(v, t)] == c && b'.votes == b.votes
    requires b'.tally == if (c, t) in b.tally then b.tally[(c, t) := b.tally[(c, t)] + {v}] else b.tally
    ensures TalliesBacked(s', b') && VotesTallied(b')
  {
    forall d, u | (d, u) in b'.tally
      ensures TallyBacked(s', b', d, u)
    {
      assert TallyBacked(s, b, d, u);
    }
  }

  lemma CountedReply(s: Cluster, b: Ballots, call: VoteCall, reply: VoteReply)
    requires Shape(s) && Enabled(s, VoteAnswer(call, reply)) && Counted(s, call, reply) && VoteCallShape(s, call)
    requires GrantsRecorded(s, b)
    ensures (call.to, call.args.term) in b.votes && b.votes[(call.to, call.args.term)] == call.from
    ensures var nd, nd' := s.nodes[call.from], VoteReplied(s.nodes[call.from], call, reply);
            && nd'.currentTerm == nd.currentTerm && nd'.votedFor == nd.votedFor
            && nd'.votedNums.Keys == nd.votedNums.Keys
  {
    assert (call, reply) in s.voteReplies;
  }

  lemma CountKeepsTallies(m: Merge, s: Cluster, b: Ballots, call: VoteCall, reply: VoteReply)
    requires Shape(s) && Enabled(s, VoteAnswer(call, reply)) && Counted(s, call, reply) && VoteCallShape(s, call)
    requires VotesRecorded(s, b) && GrantsRecorded(s, b) && TalliesBacked(s, b) && VotesTallied(b)
    ensures var step := VoteAnswer(call, reply);
            var s', b' := Apply(m, s, step), CountBallots(s, b, step);
            && VotesRecorded(s', b') && GrantsRecorded(s', b') && TalliesBacked(s', b') && VotesTallied(b')
  {
    hide Shape, VoteReplied, VotesRecorded, GrantsRecorded, TalliesBacked, VotesTallied;
    var step := VoteAnswer(call, reply);
    CountedReply(s, b, call, reply);
    var nd', s', b' := NewNode(m, s, step), Apply(m, s, step), CountBallots(s, b, step);
    SameVoteKeepsRecorded(s, b, call.from, nd', s', b');
    MoreCountedKeepsTallies(s, b, call.from, call.args.term, call.to, nd', s', b');
  }

  lemma CountKeepsCalls(m: Merge, s: Cluster, b: Ballots, call: VoteCall, reply: VoteReply)
    requires Shape(s) && Enabled(s, VoteAnswer(call, reply)) && Counted(s, call, reply)
    requires CallsTallied(s, b) && OneCallPerPeer(s) && CountedOnce(s, b)
    ensures var step := VoteAnswer(call, reply);
            var s', b' := Apply(m, s, step), CountBallots(s, b, step);
            CallsTallied(s', b') && OneCallPerPeer(s') && CountedOnce(s', b')
  {
    assert (call, reply) in s.voteReplies;
  }

  /** Everyone behind a counted vote, the new voter included, voted for this candidate in this term. */
  ghost predicate VotedFor(b: Ballots, q: set<nat>, n: nat, t: int, c: nat) {
    forall v :: v in q ==> v < n && (v, t) in b.votes && b.votes[(v, t)] == c
  }

  lemma CountedVoters(s: Cluster, b: Ballots, call: VoteCall, reply: VoteReply)
    requires Shape(s) && Enabled(s, VoteAnswer(call, reply))
    requires BallotInv(s, b)
    requires call.from < |s.nodes| && Counted(s, call, reply)
    ensures (call.from, call.args.term) in b.tally && call.to !in b.tally[(call.from, call.args.term)]
    ensures call.args.term == s.nodes[call.from].currentTerm
    ensures VotedFor(b, b.tally[(call.from, call.args.term)] + {call.to}, |s.nodes|, call.args.term, call.from)
  {
    hide CounterExact, WinnersBacked, LeadersElected, VotesTallied, OneCallPerPeer, VotesRecorded;
    assert VoteCallShape(s, call);
    assert (call, reply) in s.voteReplies;
    assert TallyBacked(s, b, call.from, call.args.term);
  }

  /** A complete tally is a majority, twice over if its candidate has won before. */
  lemma WinningTally(s: Cluster, b: Ballots, c: nat, t: int, v: nat)
    requires Shape(s) && CounterExact(s, b) && (c, t) in b.tally && v !in b.tally[(c, t)]
    requires c < |s.nodes| && v < |s.nodes| && v != c && t in s.nodes[c].votedNums
    requires s.nodes[c].votedNums[t] + 1 >= Majority(s.nodes[c].peers)
    ensures var votes := |b.tally[(c, t)] + {v}|;
            votes >= Majority(|s.nodes|) && (t in b.elected && b.elected[t] == c ==> votes > |s.nodes|)
  {
    assert |b.tally[(c, t)] + {v}| == |b.tally[(c, t)]| + 1;
  }

  lemma TermIsOpen(s: Cluster, b: Ballots, c: nat, t: int, q: set<nat>)
    requires TalliesBacked(s, b) && WinnersBacked(s, b)
    requires VotedFor(b, q, |s.nodes|, t, c) && |q| >= Majority(|s.nodes|)
    requires t in b.elected && b.elected[t] == c ==> |q| > |s.nodes|
    ensures t !in b.elected
  {
    if t in b.elected {
      if b.elected[t] == c {
        SubsetOfNodes(q, |s.nodes|);
      } else {
        assert TallyBacked(s, b, b.elected[t], t);
        var v := MajoritiesMeet(q, b.tally[(b.elected[t], t)], |s.nodes|);
      }
    }
  }

  /** A counted vote finds its term open: had the term been won already, by this node or by
      another, two majorities of one term would share a voter. */
  lemma WinIsFirst(s: Cluster, b: Ballots, call: VoteCall, reply: VoteReply)
    requires Shape(s) && Enabled(s, VoteAnswer(call, reply))
    requires BallotInv(s, b)
    requires call.args.term in s.nodes[call.from].votedNums && Wins(s, call, reply)
    ensures call.args.term == s.nodes[call.from].currentTerm
    ensures call.args.term !in b.elected
    ensures !s.nodes[call.from].status.Leader?
  {
    hide CounterExact, WinnersBacked, VotesTallied, OneCallPerPeer, VotesRecorded, TalliesBacked, GrantsRecorded,
      CallsTallied, CountedOnce, VotedFor;
    assert VoteCallShape(s, call);
    CountedVoters(s, b, call, reply);
    var c, t := call.from, call.args.term;
    WinningTally(s, b, c, t, call.to);
    TermIsOpen(s, b, c, t, b.tally[(c, t)] + {call.to});
  }

  lemma CountersAdvance(s: Cluster, b: Ballots, c: nat, t: int, v: nat, wins: bool, s': Cluster, b': Ballots)
    requires CounterExact(s, b) && (c, t) in b.tally && v !in b.tally[(c, t)]
    requires c < |s.nodes| && t in s.nodes[c].votedNums
    requires wins <==> s.nodes[c].votedNums[t] + 1 >= Majority(|s.nodes|)
    requires wins ==> t !in b.elected
    requires b'.tally == b.tally[(c, t) := b.tally[(c, t)] + {v}]
    requires b'.elected == if wins then b.elected[t := c] else b.elected
    requires |s'.nodes| == |s.nodes|
    requires s'.nodes[c].votedNums == s.nodes[c].votedNums[t := if wins then 0 else s.nodes[c].votedNums[t] + 1]
    requires forall i :: 0 <= i < |s.nodes| && i != c ==> s'.nodes[i].votedNums == s.nodes[i].votedNums
    ensures CounterExact(s', b')
  {
    assert |b.tally[(c, t)] + {v}| == |b.tally[(c, t)]| + 1;
  }

  lemma CountedIsOpen(s: Cluster, b: Ballots, call: VoteCall, reply: VoteReply)
    requires Shape(s) && Enabled(s, VoteAnswer(call, reply))
    requires BallotInv(s, b)
    ensures CounterExact(s, b)
    ensures (call.from, call.args.term) in b.tally && call.to !in b.tally[(call.from, call.args.term)]
  {
    assert (call, reply) in s.voteReplies;
  }

  /** What a counted reply does to its node's counter and to the ballots. */
  lemma CountedEffect(m: Merge, s: Cluster, b: Ballots, call: VoteCall, reply: VoteReply)
    requires Shape(s) && Enabled(s, VoteAnswer(call, reply)) && Counted(s, call, reply) && VoteCallShape(s, call)
    requires (call.from, call.args.term) in b.tally
    ensures var s', b' := Apply(m, s, VoteAnswer(call, reply)), CountBallots(s, b, VoteAnswer(call, reply));
            var c, t, wins := call.from, call.args.term, Wins(s, call, reply);
            && s.nodes[c].peers == |s.nodes| == |s'.nodes|
            && b'.tally == b.tally[(c, t) := b.tally[(c, t)] + {call.to}]
            && b'.elected == (if wins then b.elected[t := c] else b.elected)
            && s'.nodes[c].votedNums == s.nodes[c].votedNums[t := if wins then 0 else s.nodes[c].votedNums[t] + 1]
            && (forall i :: 0 <= i < |s.nodes| && i != c ==> s'.nodes[i] == s.nodes[i])
  {
  }

  lemma CountKeepsCounters(m: Merge, s: Cluster, b: Ballots, call: VoteCall, reply: VoteReply)
    requires Shape(s) && Enabled(s, VoteAnswer(call, reply)) && Counted(s, call, reply)
    requires BallotInv(s, b) && VoteCallShape(s, call)
    ensures CounterExact(Apply(m, s, VoteAnswer(call, reply)), CountBallots(s, b, VoteAnswer(call, reply)))
  {
    hide BallotInv, CounterExact, Shape, Apply, CountBallots;
    CountedIsOpen(s, b, call, reply);
    if Wins(s, call, reply) {
      WinIsFirst(s, b, call, reply);
    }
    CountedEffect(m, s, b, call, reply);
    CountersAdvance(s, b, call.from, call.args.term, call.to, Wins(s, call, reply),
                    Apply(m, s, VoteAnswer(call, reply)), CountBallots(s, b, VoteAnswer(call, reply)));
  }

  lemma CountKeepsWinners(m: Merge, s: Cluster, b: Ballots, call: VoteCall, reply: VoteReply)
    requires Shape(s) && Enabled(s, VoteAnswer(call, reply)) && Counted(s, call, reply)
    requires BallotInv(s, b)
    ensures WinnersBacked(Apply(m, s, VoteAnswer(call, reply)), CountBallots(s, b, VoteAnswer(call, reply)))
  {
    hide VotesRecorded, GrantsRecorded, VotesTallied, OneCallPerPeer, LeadersElected;
    assert VoteCallShape(s, call);
    assert (call, reply) in s.voteReplies;
    var key := (call.from, call.args.term);
    assert TallyBacked(s, b, call.from, call.args.term);
    assert |b.tally[key] + {call.to}| == |b.tally[key]| + 1;
    if Wins(s, call, reply) {
      WinIsFirst(s, b, call, reply);
    }
  }

  lemma CountKeepsLeaders(m: Merge, s: Cluster, b: Ballots, call: VoteCall, reply: VoteReply)
    requires Shape(s) && Enabled(s, VoteAnswer(call, reply)) && Counted(s, call, reply)
    requires BallotInv(s, b)
    ensures LeadersElected(Apply(m, s, VoteAnswer(call, reply)), CountBallots(s, b, VoteAnswer(call, reply)))
  {
    hide VotesRecorded, GrantsRecorded, TalliesBacked, VotesTallied, OneCallPerPeer, CountedOnce, CounterExact,
      WinnersBacked;
    assert VoteCallShape(s, call);
    assert (call, reply) in s.voteReplies;
    if Wins(s, call, reply) {
      WinIsFirst(s, b, call, reply);
    }
  }

  // ---------------------------------------------------------------------------------------
  // All runs
  // ---------------------------------------------------------------------------------------

  lemma ElectionKeepsBallots(m: Merge, s: Cluster, b: Ballots, n: nat)
    requires Shape(s) && n < |s.nodes| && !s.nodes[n].status.Leader?
    requires BallotInv(s, b)
    ensures BallotInv(Apply(m, s, ElectionStep(n)), CountBallots(s, b, ElectionStep(n)))
  {
    hide Shape, VotesRecorded, GrantsRecorded, TalliesBacked, VotesTallied, CallsTallied, OneCallPerPeer, CountedOnce,
      CounterExact, WinnersBacked, LeadersElected;
    ElectionKeepsVotes(m, s, b, n);
    ElectionKeepsCalls(m, s, b, n);
    CandidateOrSole(s, n);
    var step := ElectionStep(n);
    var nd', s', b' := NewNode(m, s, step), Apply(m, s, step), CountBallots(s, b, step);
    ElectionKeepsWinners(s, b, n, nd', s', b');
    if |s.nodes| > 1 {
      ElectionKeepsCounters(s, b, n, nd', s', b');
    } else {
      SoleHasNoCounter(s', b');
    }
  }

  /** In a cluster of one no counter is ever compared. */
  lemma SoleHasNoCounter(s: Cluster, b: Ballots)
    requires |s.nodes| <= 1
    ensures CounterExact(s, b)
  {
  }

  lemma CountKeepsBallots(m: Merge, s: Cluster, b: Ballots, call: VoteCall, reply: VoteReply)
    requires Shape(s) && Enabled(s, VoteAnswer(call, reply)) && Counted(s, call, reply) && VoteCallShape(s, call)
    requires BallotInv(s, b)
    ensures BallotInv(Apply(m, s, VoteAnswer(call, reply)), CountBallots(s, b, VoteAnswer(call, reply)))
  {
    hide Shape, Apply, CountBallots, VotesRecorded, GrantsRecorded, TalliesBacked, VotesTallied, CallsTallied,
      OneCallPerPeer, CountedOnce, CounterExact, WinnersBacked, LeadersElected;
    CountKeepsTallies(m, s, b, call, reply);
    CountKeepsCalls(m, s, b, call, reply);
    CountKeepsCounters(m, s, b, call, reply);
    CountKeepsWinners(m, s, b, call, reply);
    CountKeepsLeaders(m, s, b, call, reply);
  }

  lemma QuietStepKeepsBallots(m: Merge, s: Cluster, b: Ballots, step: Step, s': Cluster)
    requires IsStep(m, s, step, s') && BallotInv(s, b)
    requires step.ElectionStep? ==> s.nodes[step.n].status.Leader?
    requires step.VoteDelivery? ==> !RequestVote(s.nodes[step.vote.to], step.vote.args).1.granted
    requires step.VoteAnswer? ==> !Counted(s, step.vote, step.voteReply)
    ensures BallotInv(s', b)
  {
    OnlyActorMoves(m, s, step, s');
    if step.ElectionStep? {
      assert NewNode(m, s, step) == s.nodes[step.n];
    } else {
      QuietSteps(m, s, step);
    }
    hide BallotInv, Shape, NewNode, Quiet;
    QuietKeepsBallots(s, b, Actor(step), NewNode(m, s, step), s');
  }

  lemma StepKeepsBallots(m: Merge, s: Cluster, b: Ballots, step: Step, s': Cluster)
    requires IsStep(m, s, step, s')
    requires BallotInv(s, b)
    ensures BallotInv(s', CountBallots(s, b, step))
  {
    if step.ElectionStep? && !s.nodes[step.n].status.Leader? {
      ElectionKeepsBallots(m, s, b, step.n);
    } else if step.VoteDelivery? && RequestVote(s.nodes[step.vote.to], step.vote.args).1.granted {
      GrantKeepsBallots(m, s, b, step.vote);
    } else if step.VoteAnswer? && Counted(s, step.vote, step.voteReply) {
      AnswersShaped(s, step.vote, step.voteReply);
      CountKeepsBallots(m, s, b, step.vote, step.voteReply);
    } else {
      QuietStepKeepsBallots(m, s, b, step, s');
    }
  }

  lemma AnswersShaped(s: Cluster, call: VoteCall, reply: VoteReply)
    requires Shape(s) && (call, reply) in s.voteReplies
    ensures VoteCallShape(s, call)
  {
  }

  ghost predicate KeepsElected(b: Ballots, b': Ballots) {
    forall t :: t in b.elected ==> t in b'.elected && b'.elected[t] == b.elected[t]
  }

  /** A node without peers has won every term there was. */
  lemma SoleWinner(s: Cluster, b: Ballots, n: nat)
    requires TalliesBacked(s, b) && WinnersBacked(s, b) && n < |s.nodes| == 1
    ensures s.nodes[n].currentTerm + 1 !in b.elected
  {
    ElectedTermsPast(s, b);
  }

  lemma ElectedForever(m: Merge, s: Cluster, b: Ballots, step: Step)
    requires Shape(s) && Enabled(s, step)
    requires BallotInv(s, b)
    ensures KeepsElected(b, CountBallots(s, b, step))
  {
    hide CounterExact, WinnersBacked, VotesTallied, OneCallPerPeer, VotesRecorded, TalliesBacked, GrantsRecorded,
      CallsTallied, CountedOnce, LeadersElected, RequestVote, BallotInv;
    if step.VoteAnswer? {
      assert VoteCallShape(s, step.vote);
      if Counted(s, step.vote, step.voteReply) && Wins(s, step.vote, step.voteReply) {
        WinIsFirst(s, b, step.vote, step.voteReply);
      }
    } else if step.ElectionStep? && s.nodes[step.n].peers == 1 {
      BallotParts(s, b);
      SoleWinner(s, b, step.n);
    }
  }

  /** bs[k] records the ballots cast in the first k steps of a run. */
  ghost predicate BallotTrace(m: Merge, states: seq<Cluster>, steps: seq<Step>, bs: seq<Ballots>) {
    && |bs| == |states| == |steps| + 1
    && (forall k :: 0 <= k < |states| ==> Shape(states[k]) && BallotInv(states[k], bs[k]))
    && (forall k :: 0 <= k < |steps| ==> BallotStep(m, states[k], bs[k], steps[k], states[k + 1], bs[k + 1]))
  }

  ghost predicate BallotStep(m: Merge, s: Cluster, b: Ballots, step: Step, s': Cluster, b': Ballots) {
    IsStep(m, s, step, s') && b' == CountBallots(s, b, step) && KeepsElected(b, b')
  }

  lemma TraceStep(m: Merge, states: seq<Cluster>, steps: seq<Step>, bs: seq<Ballots>, k: nat)
    requires BallotTrace(m, states, steps, bs) && k < |steps|
    ensures BallotInv(states[k], bs[k])
    ensures BallotStep(m, states[k], bs[k], steps[k], states[k + 1], bs[k + 1])
    ensures BallotInv(states[k + 1], bs[k + 1])
  {
  }

  lemma InitBallots(n: nat)
    ensures Shape(InitCluster(n)) && BallotInv(InitCluster(n), NO_BALLOTS)
  {
    InitShape(n);
  }

  lemma {:induction false} RunHasBallots(m: Merge, n: nat, states: seq<Cluster>, steps: seq<Step>)
    returns (bs: seq<Ballots>)
    requires IsRun(m, n, states, steps)
    ensures BallotTrace(m, states, steps, bs) && bs[0] == NO_BALLOTS
    decreases |steps|
  {
    hide Shape, BallotInv, CountBallots, Apply, Enabled, KeepsElected, BallotStep;
    if |steps| == 0 {
      InitBallots(n);
      bs := [NO_BALLOTS];
    } else {
      var k := |steps| - 1;
      bs := RunHasBallots(m, n, states[..k + 1], steps[..k]);
      assert IsStep(m, states[k], steps[k], states[k + 1]);
      bs := NextBallots(m, states, steps, bs);
    }
  }

  lemma NextBallots(m: Merge, states: seq<Cluster>, steps: seq<Step>, bs: seq<Ballots>) returns (bs': seq<Ballots>)
    requires 0 < |steps| && |states| == |steps| + 1
    requires BallotTrace(m, states[..|steps|], steps[..|steps| - 1], bs)
    requires IsStep(m, states[|steps| - 1], steps[|steps| - 1], states[|steps|])
    ensures BallotTrace(m, states, steps, bs') && bs'[0] == bs[0]
  {
    hide Shape, BallotInv, CountBallots, Apply, Enabled, KeepsElected;
    var k := |steps| - 1;
    var s, b, step, s' := states[k], bs[k], steps[k], states[k + 1];
    assert states[..|steps|][k] == s;
    StepKeepsShape(m, s, step, s');
    StepKeepsBallots(m, s, b, step, s');
    ElectedForever(m, s, b, step);
    bs' := bs + [CountBallots(s, b, step)];
    forall i | 0 <= i < |steps|
      ensures BallotStep(m, states[i], bs'[i], steps[i], states[i + 1], bs'[i + 1])
    {
      if i < k {
        assert BallotStep(m, states[..k + 1][i], bs[i], steps[..k][i], states[..k + 1][i + 1], bs[i + 1]);
      }
    }
    forall i | 0 <= i < |states|
      ensures Shape(states[i]) && BallotInv(states[i], bs'[i])
    {
      if i <= k {
        assert states[..k + 1][i] == states[i];
      }
    }
  }

  lemma {:induction false} KeepsElectedAlong(bs: seq<Ballots>, j: nat, k: nat)
    requires j <= k < |bs|
    requires forall i :: 0 <= i < |bs| - 1 ==> KeepsElected(bs[i], bs[i + 1])
    ensures KeepsElected(bs[j], bs[k])
    decreases k
  {
    if j < k {
      KeepsElectedAlong(bs, j, k - 1);
      assert KeepsElected(bs[k - 1], bs[k - 1 + 1]);
    }
  }

  lemma ElectedAlong(m: Merge, states: seq<Cluster>, steps: seq<Step>, bs: seq<Ballots>, j: nat, k: nat)
    requires BallotTrace(m, states, steps, bs)
    requires j <= k < |bs|
    ensures KeepsElected(bs[j], bs[k])
  {
    forall i | 0 <= i < |bs| - 1
      ensures KeepsElected(bs[i], bs[i + 1])
    {
      assert BallotStep(m, states[i], bs[i], steps[i], states[i + 1], bs[i + 1]);
    }
    KeepsElectedAlong(bs, j, k);
  }

  /** At most one node is ever leader in a term: in every run, with either merge. */
  lemma ElectionSafety(
      m: Merge, n: nat, states: seq<Cluster>, steps: seq<Step>, j: nat, k: nat, p: nat, q: nat)
    requires IsRun(m, n, states, steps)
    requires j <= k <= |steps|
    requires p < |states[j].nodes| && states[j].nodes[p].status.Leader?
    requires q < |states[k].nodes| && states[k].nodes[q].status.Leader?
    requires states[j].nodes[p].currentTerm == states[k].nodes[q].currentTerm
    ensures p == q
  {
    var bs := RunHasBallots(m, n, states, steps);
    assert BallotInv(states[j], bs[j]) && BallotInv(states[k], bs[k]);
    ElectedAlong(m, states, steps, bs, j, k);
  }

  /** The assertion at raft.cpp:961 never fires: a counted majority always finds its node not
      leading, in the term the votes were cast for, and that term never led before by anyone. */
  lemma NeverElectedTwice(
      m: Merge, n: nat, states: seq<Cluster>, steps: seq<Step>, k: nat, call: VoteCall, reply: VoteReply)
    requires IsRun(m, n, states, steps)
    requires k < |steps| && steps[k] == VoteAnswer(call, reply)
    requires call.from < |states[k].nodes| && call.args.term in states[k].nodes[call.from].votedNums
    requires Wins(states[k], call, reply)
    ensures !states[k].nodes[call.from].status.Leader?
    ensures call.args.term == states[k].nodes[call.from].currentTerm
    ensures forall j, p :: 0 <= j <= k && 0 <= p < |states[j].nodes| && states[j].nodes[p].status.Leader? ==>
              states[j].nodes[p].currentTerm != call.args.term
  {
    var bs := RunHasBallots(m, n, states, steps);
    assert IsStep(m, states[k], steps[k], states[k + 1]);
    assert BallotInv(states[k], bs[k]);
    WinIsFirst(states[k], bs[k], call, reply);
    forall j, p | 0 <= j <= k && 0 <= p < |states[j].nodes| && states[j].nodes[p].status.Leader?
      ensures states[j].nodes[p].currentTerm != call.args.term
    {
      assert BallotInv(states[j], bs[j]);
      ElectedAlong(m, states, steps, bs, j, k);
    }
  }
}
