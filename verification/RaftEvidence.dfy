/** Commit never outruns evidence: whenever a leader raises its commit index, a strict majority
    has acknowledged a log reaching that index in the leader's own term.  Both merges, with
    snapshots. */
module RaftEvidence {
  import opened RaftTypes
  import opened RaftNode
  import opened RaftCluster
  import opened RaftElection
  import opened Quorums

  /** For each heartbeat round (leader, round number): the nodes whose success was counted, the
      leader included, and whether the round's counter has reached a majority. */
  datatype Rounds = Rounds(acks: map<(nat, nat), set<nat>>, fired: set<(nat, nat)>)

  const NO_ROUNDS := Rounds(map[], {})

  /** v answered a message of term t from c with success, and that message ended at index e. */
  ghost predicate AckedEnd(s: Cluster, c: nat, v: nat, t: int, e: int) {
    exists r :: r in s.appendReplies && AcksEnd(r, c, v, t, e)
  }

  predicate AcksEnd(r: (AppendCall, AppendReply), c: nat, v: nat, t: int, e: int) {
    r.1.success && r.0.from == c && r.0.to == v && r.0.args.term == t && r.0.args.End() == e
  }

  /** A strict majority (the leader c included) acknowledged c's log in term t up to k. */
  ghost predicate Evidence(s: Cluster, c: nat, t: int, k: int, q: set<nat>) {
    && |q| >= Majority(|s.nodes|)
    && forall v :: v in q ==> v < |s.nodes| && (v == c || exists e :: e >= k && AckedEnd(s, c, v, t, e))
  }

  /** A reply that sendAppendEntries counts. */
  predicate Acks(s: Cluster, call: AppendCall, reply: AppendReply)
    requires call.from < |s.nodes|
  {
    s.nodes[call.from].status.Leader? && reply.term == s.nodes[call.from].currentTerm && reply.success
  }

  predicate Fires(s: Cluster, call: AppendCall, reply: AppendReply)
    requires call.from < |s.nodes| && call.round < |s.nodes[call.from].appendNums|
  {
    Acks(s, call, reply) && s.nodes[call.from].appendNums[call.round] + 1 >= Majority(s.nodes[call.from].peers)
  }

  ghost function CountAcks(s: Cluster, r: Rounds, step: Step): Rounds
    requires Shape(s) && Enabled(s, step)
  {
    match step
    case HeartBeatStep(n) =>
      if s.nodes[n].status.Leader? then r.(acks := r.acks[(n, |s.nodes[n].appendNums|) := {n}]) else r
    case AppendAnswer(call, reply) =>
      assert AppendCallShape(s, call);
      var key := (call.from, call.round);
      if Acks(s, call, reply) && key in r.acks then
        Rounds(r.acks[key := r.acks[key] + {call.to}], if Fires(s, call, reply) then r.fired + {key} else r.fired)
      else r
    case _ => r
  }

  // ---------------------------------------------------------------------------------------
  // The invariant
  // ---------------------------------------------------------------------------------------

  ghost predicate SuccessInTerm(s: Cluster) {
    forall r :: r in s.appendReplies && r.1.success ==> r.1.term == r.0.args.term
  }

  ghost predicate CallsFromLeaders(s: Cluster, b: Ballots) {
    forall call :: call in s.appendCalls ==>
      call.args.term in b.elected && b.elected[call.args.term] == call.from
  }

  /** One call per peer and round; the calls of a round agree on term and end. */
  ghost predicate RoundsAgree(s: Cluster, r: Rounds) {
    && (forall call :: call in s.appendCalls ==> (call.from, call.round) in r.acks)
    && (forall c1, c2 :: c1 in s.appendCalls && c2 in s.appendCalls && c1.from == c2.from && c1.round == c2.round ==>
          && c1.args.term == c2.args.term && c1.args.End() == c2.args.End()
          && (c1.to == c2.to ==> c1 == c2))
  }

  ghost predicate RoundBacked(s: Cluster, r: Rounds, c: nat, k: nat)
    requires (c, k) in r.acks
  {
    && c < |s.nodes| && k < |s.nodes[c].appendNums| && c in r.acks[(c, k)]
    && forall v :: v in r.acks[(c, k)] ==> v < |s.nodes| && (v == c || RoundAcked(s, c, v, k))
  }

  ghost predicate RoundAcked(s: Cluster, c: nat, v: nat, k: nat) {
    exists r :: r in s.appendReplies && r.1.success && r.0.from == c && r.0.to == v && r.0.round == k
  }

  ghost predicate RoundsBacked(s: Cluster, r: Rounds) {
    && (forall c, k :: (c, k) in r.acks ==> RoundBacked(s, r, c, k))
    && (forall key :: key in r.fired ==> key in r.acks)
  }

  ghost predicate AckedOnce(s: Cluster, r: Rounds) {
    forall call :: call in s.appendCalls && call !in s.appendsHandled && (call.from, call.round) in r.acks ==>
      call.to !in r.acks[(call.from, call.round)]
  }

  ghost predicate AckCounterExact(s: Cluster, r: Rounds) {
    |s.nodes| > 1 ==>
      forall c, k :: (c, k) in r.acks && c < |s.nodes| && k < |s.nodes[c].appendNums| ==>
        && s.nodes[c].appendNums[k] < Majority(|s.nodes|)
        && s.nodes[c].appendNums[k] ==
             |r.acks[(c, k)]| - (if (c, k) in r.fired then Majority(|s.nodes|) else 0)
  }

  /** A leader's matchIndex above its snapshot is the end of an acknowledged message. */
  ghost predicate MatchBacked(s: Cluster) {
    forall c, i :: 0 <= c < |s.nodes| && s.nodes[c].status.Leader? && 0 <= i < |s.nodes[c].matchIndex| && i != c ==>
      || s.nodes[c].matchIndex[i] <= s.nodes[c].snapIndex
      || AckedEnd(s, c, i, s.nodes[c].currentTerm, s.nodes[c].matchIndex[i])
  }

  /** What a message of the current term shipped is still in its leader's log. */
  ghost predicate Shipped(nd: Node, call: AppendCall)
    requires Indexed(nd)
  {
    && call.args.End() <= LastIndex(nd)
    && forall i :: 0 <= i < |nd.logs| && call.args.prevLogIndex < nd.snapIndex + i + 1 <= call.args.End() ==>
         nd.logs[i] == call.args.entries[nd.snapIndex + i - call.args.prevLogIndex]
  }

  ghost predicate LeadersKeepShipped(s: Cluster)
    requires Shape(s)
  {
    forall call ::
      call in s.appendCalls && call.from < |s.nodes|
      && s.nodes[call.from].status.Leader? && s.nodes[call.from].currentTerm == call.args.term
      ==> Shipped(s.nodes[call.from], call)
  }

  ghost predicate SnapsBehind(s: Cluster) {
    forall call :: call in s.snapCalls && call.from < |s.nodes| ==>
      call.args.lastIndex <= s.nodes[call.from].snapIndex
  }

  ghost predicate RoundInv(s: Cluster, b: Ballots, r: Rounds) {
    && Shape(s)
    && SuccessInTerm(s)
    && CallsFromLeaders(s, b)
    && RoundsAgree(s, r)
    && RoundsBacked(s, r)
    && AckedOnce(s, r)
    && AckCounterExact(s, r)
    && MatchBacked(s)
    && LeadersKeepShipped(s)
    && SnapsBehind(s)
  }

  // ---------------------------------------------------------------------------------------
  // Steps that leave rounds alone
  // ---------------------------------------------------------------------------------------

  /** A node that leads after the step led the same term with the same log and matchIndex. */
  ghost predicate SameReign(nd: Node, nd': Node) {
    && nd'.appendNums == nd.appendNums
    && nd.snapIndex <= nd'.snapIndex
    && (nd'.status.Leader? ==>
          && nd.status.Leader? && nd'.currentTerm == nd.currentTerm
          && nd'.matchIndex == nd.matchIndex && nd'.logs == nd.logs && nd'.snapIndex == nd.snapIndex)
  }

  lemma SameReignKeepsCounters(s: Cluster, r: Rounds, i: nat, nd': Node, s': Cluster)
    requires RoundsBacked(s, r) && AckCounterExact(s, r)
    requires i < |s.nodes| && s'.nodes == s.nodes[i := nd'] && nd'.appendNums == s.nodes[i].appendNums
    requires s'.appendReplies == s.appendReplies
    ensures RoundsBacked(s', r) && AckCounterExact(s', r)
  {
    forall c, k | (c, k) in r.acks
      ensures RoundBacked(s', r, c, k)
    {
      assert RoundBacked(s, r, c, k);
    }
  }

  lemma SameReignKeepsMatches(s: Cluster, i: nat, nd': Node, s': Cluster)
    requires Shape(s) && Shape(s') && MatchBacked(s) && LeadersKeepShipped(s) && SnapsBehind(s)
    requires i < |s.nodes| && s'.nodes == s.nodes[i := nd'] && SameReign(s.nodes[i], nd')
    requires s'.appendCalls == s.appendCalls && s'.appendReplies == s.appendReplies
    requires forall call :: call in s'.snapCalls && call !in s.snapCalls ==>
               call.from == i && call.args.lastIndex <= nd'.snapIndex
    ensures MatchBacked(s') && LeadersKeepShipped(s') && SnapsBehind(s')
  {
  }

  lemma SameReignKeepsRounds(s: Cluster, b: Ballots, r: Rounds, i: nat, nd': Node, s': Cluster, b': Ballots)
    requires RoundInv(s, b, r) && Shape(s') && KeepsElected(b, b')
    requires i < |s.nodes| && s'.nodes == s.nodes[i := nd'] && SameReign(s.nodes[i], nd')
    requires s'.appendCalls == s.appendCalls && s'.appendReplies == s.appendReplies
    requires s.appendsHandled <= s'.appendsHandled
    requires forall call :: call in s'.snapCalls && call !in s.snapCalls ==>
               call.from == i && call.args.lastIndex <= nd'.snapIndex
    ensures RoundInv(s', b', r)
  {
    hide RoundsBacked, AckCounterExact, MatchBacked, LeadersKeepShipped, SnapsBehind, Shape;
    SameReignKeepsCounters(s, r, i, nd', s');
    SameReignKeepsMatches(s, i, nd', s');
  }

  // ---------------------------------------------------------------------------------------
  // Winning an election: the new term has no messages yet
  // ---------------------------------------------------------------------------------------

  lemma NewLeaderKeepsRounds(s: Cluster, b: Ballots, r: Rounds, i: nat, nd': Node, s': Cluster, b': Ballots)
    requires RoundInv(s, b, r) && Shape(s') && KeepsElected(b, b')
    requires i < |s.nodes| && s'.nodes == s.nodes[i := nd']
    requires nd'.appendNums == s.nodes[i].appendNums && nd'.snapIndex == s.nodes[i].snapIndex
    requires nd'.currentTerm !in b.elected
    requires forall j :: 0 <= j < |nd'.matchIndex| ==> nd'.matchIndex[j] == 0
    requires s'.appendCalls == s.appendCalls && s'.appendReplies == s.appendReplies
    requires s'.appendsHandled == s.appendsHandled && s'.snapCalls == s.snapCalls
    ensures RoundInv(s', b', r)
  {
    forall c, k | (c, k) in r.acks
      ensures RoundBacked(s', r, c, k)
    {
      assert RoundBacked(s, r, c, k);
    }
  }

  // ---------------------------------------------------------------------------------------
  // Opening a round
  // ---------------------------------------------------------------------------------------

  lemma HeartBeatCallsAgree(nd: Node)
    requires Shaped(nd) && CanHeartBeat(nd) && nd.status.Leader?
    ensures forall call :: call in HeartBeatCalls(nd) ==>
              && call.from == nd.me && call.to != nd.me && call.round == |nd.appendNums|
              && call.args.term == nd.currentTerm && call.args.End() == LastIndex(nd)
              && Shipped(nd, call)
    ensures forall c1, c2 :: c1 in HeartBeatCalls(nd) && c2 in HeartBeatCalls(nd) && c1.to == c2.to ==> c1 == c2
  {
    forall call | call in HeartBeatCalls(nd)
      ensures call.args.End() == LastIndex(nd) && Shipped(nd, call)
    {
      var prev := nd.nextIndex[call.to] - 1;
      assert call.args.entries == nd.logs[prev - nd.snapIndex..];
    }
  }

  lemma HeartBeatKeepsCalls(m: Merge, s: Cluster, b: Ballots, r: Rounds, n: nat, b': Ballots)
    requires RoundInv(s, b, r) && LeadersElected(s, b) && KeepsElected(b, b')
    requires Enabled(s, HeartBeatStep(n)) && s.nodes[n].status.Leader?
    ensures var s', r' := Apply(m, s, HeartBeatStep(n)), CountAcks(s, r, HeartBeatStep(n));
            SuccessInTerm(s') && CallsFromLeaders(s', b') && RoundsAgree(s', r') && AckedOnce(s', r')
  {
    HeartBeatCallsAgree(s.nodes[n]);
    forall call | call in s.appendCalls
      ensures call.from == n ==> call.round < |s.nodes[n].appendNums|
    {
      assert AppendCallShape(s, call);
    }
  }

  lemma HeartBeatKeepsCounts(m: Merge, s: Cluster, b: Ballots, r: Rounds, n: nat)
    requires RoundInv(s, b, r)
    requires Enabled(s, HeartBeatStep(n)) && s.nodes[n].status.Leader?
    requires (n, |s.nodes[n].appendNums|) !in r.fired
    ensures var s', r' := Apply(m, s, HeartBeatStep(n)), CountAcks(s, r, HeartBeatStep(n));
            RoundsBacked(s', r') && AckCounterExact(s', r') && MatchBacked(s') && SnapsBehind(s')
  {
    var s', r' := Apply(m, s, HeartBeatStep(n)), CountAcks(s, r, HeartBeatStep(n));
    forall c, k | (c, k) in r'.acks
      ensures RoundBacked(s', r', c, k)
    {
      if (c, k) in r.acks {
        assert RoundBacked(s, r, c, k);
      }
    }
  }

  lemma HeartBeatKeepsShipped(m: Merge, s: Cluster, n: nat)
    requires Shape(s) && LeadersKeepShipped(s)
    requires Enabled(s, HeartBeatStep(n)) && s.nodes[n].status.Leader?
    requires Shape(Apply(m, s, HeartBeatStep(n)))
    ensures LeadersKeepShipped(Apply(m, s, HeartBeatStep(n)))
  {
    HeartBeatCallsAgree(s.nodes[n]);
    var s' := Apply(m, s, HeartBeatStep(n));
    forall call |
      call in s'.appendCalls && call.from < |s'.nodes|
      && s'.nodes[call.from].status.Leader? && s'.nodes[call.from].currentTerm == call.args.term
      ensures Shipped(s'.nodes[call.from], call)
    {
      assert Shipped(s.nodes[call.from], call);
    }
  }

  lemma HeartBeatKeepsRounds(m: Merge, s: Cluster, b: Ballots, r: Rounds, n: nat, s': Cluster, b': Ballots)
    requires RoundInv(s, b, r) && LeadersElected(s, b) && KeepsElected(b, b')
    requires IsStep(m, s, HeartBeatStep(n), s') && s.nodes[n].status.Leader?
    ensures RoundInv(s', b', CountAcks(s, r, HeartBeatStep(n)))
  {
    StepKeepsShape(m, s, HeartBeatStep(n), s');
    forall key | key in r.acks
      ensures key.0 == n ==> key.1 < |s.nodes[n].appendNums|
    {
      assert RoundBacked(s, r, key.0, key.1);
    }
    HeartBeatKeepsCalls(m, s, b, r, n, b');
    HeartBeatKeepsCounts(m, s, b, r, n);
    HeartBeatKeepsShipped(m, s, n);
  }

  // ---------------------------------------------------------------------------------------
  // Delivering a message: its own leader is never the receiver
  // ---------------------------------------------------------------------------------------

  lemma MoreRepliesKeepRounds(s: Cluster, r: Rounds, i: nat, nd': Node, s': Cluster)
    requires RoundsBacked(s, r) && AckCounterExact(s, r) && MatchBacked(s)
    requires i < |s.nodes| && s'.nodes == s.nodes[i := nd'] && nd'.appendNums == s.nodes[i].appendNums
    requires !nd'.status.Leader? || nd' == s.nodes[i]
    requires s.appendReplies <= s'.appendReplies
    ensures RoundsBacked(s', r) && AckCounterExact(s', r) && MatchBacked(s')
  {
    forall c, k | (c, k) in r.acks
      ensures RoundBacked(s', r, c, k)
    {
      assert RoundBacked(s, r, c, k);
      forall v | v in r.acks[(c, k)] && v != c
        ensures RoundAcked(s', c, v, k)
      {
        assert RoundAcked(s, c, v, k);
      }
    }
    forall c, j | 0 <= c < |s'.nodes| && s'.nodes[c].status.Leader? && 0 <= j < |s'.nodes[c].matchIndex| && j != c
      && s'.nodes[c].matchIndex[j] > s'.nodes[c].snapIndex
      ensures AckedEnd(s', c, j, s'.nodes[c].currentTerm, s'.nodes[c].matchIndex[j])
    {
      assert AckedEnd(s, c, j, s.nodes[c].currentTerm, s.nodes[c].matchIndex[j]);
    }
  }

  lemma DeliveryReceiver(m: Merge, nd: Node, a: AppendArgs)
    requires Shaped(nd)
    ensures var (nd', reply) := AppendEntries(m, nd, a);
            && nd'.appendNums == nd.appendNums && nd'.snapIndex == nd.snapIndex
            && nd'.matchIndex == nd.matchIndex
            && (nd'.status.Leader? ==> nd' == nd)
            && (reply.success ==> reply.term == a.term)
  {
  }

  lemma DeliveryKeepsRounds(m: Merge, s: Cluster, b: Ballots, r: Rounds, call: AppendCall, s': Cluster, b': Ballots)
    requires RoundInv(s, b, r) && KeepsElected(b, b')
    requires IsStep(m, s, AppendDelivery(call), s')
    ensures RoundInv(s', b', r)
  {
    hide RoundsBacked, AckCounterExact, MatchBacked;
    assert AppendCallShape(s, call);
    StepKeepsShape(m, s, AppendDelivery(call), s');
    DeliveryReceiver(m, s.nodes[call.to], call.args);
    hide AppendEntries;
    MoreRepliesKeepRounds(s, r, call.to, NewNode(m, s, AppendDelivery(call)), s');
  }

  // ---------------------------------------------------------------------------------------
  // Answers
  // ---------------------------------------------------------------------------------------

  lemma AnswerKeepsCounts(m: Merge, s: Cluster, b: Ballots, r: Rounds, call: AppendCall, reply: AppendReply)
    requires RoundInv(s, b, r)
    requires Enabled(s, AppendAnswer(call, reply)) && Acks(s, call, reply)
    ensures var s', r' := Apply(m, s, AppendAnswer(call, reply)), CountAcks(s, r, AppendAnswer(call, reply));
            RoundsBacked(s', r')
  {
    hide AckCounterExact, MatchBacked, LeadersKeepShipped, SnapsBehind, CallsFromLeaders, AckedOnce;
    assert AppendCallShape(s, call);
    assert (call, reply) in s.appendReplies;
    var s', r' := Apply(m, s, AppendAnswer(call, reply)), CountAcks(s, r, AppendAnswer(call, reply));
    forall c, k | (c, k) in r'.acks
      ensures RoundBacked(s', r', c, k)
    {
      assert RoundBacked(s, r, c, k);
      forall v | v in r'.acks[(c, k)] && v != c
        ensures RoundAcked(s', c, v, k)
      {
        if v in r.acks[(c, k)] {
          assert RoundAcked(s, c, v, k);
        } else {
          assert (call, reply) in s'.appendReplies;
        }
      }
    }
  }

  lemma AnswerKeepsAgreement(m: Merge, s: Cluster, b: Ballots, r: Rounds, call: AppendCall, reply: AppendReply)
    requires RoundInv(s, b, r)
    requires Enabled(s, AppendAnswer(call, reply)) && Acks(s, call, reply)
    ensures var s', r' := Apply(m, s, AppendAnswer(call, reply)), CountAcks(s, r, AppendAnswer(call, reply));
            RoundsAgree(s', r') && AckedOnce(s', r')
  {
    hide AckCounterExact, MatchBacked, LeadersKeepShipped, SnapsBehind, CallsFromLeaders, RoundsBacked;
    assert AppendCallShape(s, call);
    assert (call, reply) in s.appendReplies;
  }

  /** A counter that fires has not fired before: firing twice would count two disjoint majorities. */
  lemma FiresFresh(s: Cluster, b: Ballots, r: Rounds, call: AppendCall, reply: AppendReply)
    requires RoundInv(s, b, r)
    requires Enabled(s, AppendAnswer(call, reply))
    requires call.round < |s.nodes[call.from].appendNums| && Fires(s, call, reply)
    ensures (call.from, call.round) !in r.fired
    ensures |r.acks[(call.from, call.round)] + {call.to}| == Majority(|s.nodes|)
  {
    assert AppendCallShape(s, call);
    assert (call, reply) in s.appendReplies;
    var key := (call.from, call.round);
    assert RoundBacked(s, r, call.from, call.round);
    var q := r.acks[key] + {call.to};
    assert |q| == |r.acks[key]| + 1;
    SubsetOfNodes(q, |s.nodes|);
  }

  lemma AckCountersAdvance(s: Cluster, r: Rounds, c: nat, k: nat, v: nat, fires: bool, s': Cluster, r': Rounds)
    requires AckCounterExact(s, r) && (c, k) in r.acks && v !in r.acks[(c, k)]
    requires c < |s.nodes| && k < |s.nodes[c].appendNums|
    requires fires <==> s.nodes[c].appendNums[k] + 1 >= Majority(|s.nodes|)
    requires fires ==> (c, k) !in r.fired
    requires r'.acks == r.acks[(c, k) := r.acks[(c, k)] + {v}]
    requires r'.fired == if fires then r.fired + {(c, k)} else r.fired
    requires |s'.nodes| == |s.nodes|
    requires s'.nodes[c].appendNums == s.nodes[c].appendNums[k := if fires then 0 else s.nodes[c].appendNums[k] + 1]
    requires forall i :: 0 <= i < |s.nodes| && i != c ==> s'.nodes[i].appendNums == s.nodes[i].appendNums
    ensures AckCounterExact(s', r')
  {
    assert |r.acks[(c, k)] + {v}| == |r.acks[(c, k)]| + 1;
  }

  lemma AnswerKeepsCounters(m: Merge, s: Cluster, b: Ballots, r: Rounds, call: AppendCall, reply: AppendReply)
    requires RoundInv(s, b, r)
    requires Enabled(s, AppendAnswer(call, reply)) && Acks(s, call, reply)
    ensures AckCounterExact(Apply(m, s, AppendAnswer(call, reply)), CountAcks(s, r, AppendAnswer(call, reply)))
  {
    assert AppendCallShape(s, call);
    assert (call, reply) in s.appendReplies;
    if Fires(s, call, reply) {
      FiresFresh(s, b, r, call, reply);
    }
    AckCountersAdvance(s, r, call.from, call.round, call.to, Fires(s, call, reply),
                       Apply(m, s, AppendAnswer(call, reply)), CountAcks(s, r, AppendAnswer(call, reply)));
  }

  /** A leader changes one matchIndex, to a value at or below its snapshot or with evidence. */
  lemma MatchUpdate(s: Cluster, i: nat, to: nat, nd': Node, s': Cluster)
    requires Shape(s) && MatchBacked(s) && SnapsBehind(s) && LeadersKeepShipped(s) && Shape(s')
    requires i < |s.nodes| && s'.nodes == s.nodes[i := nd'] && to < |nd'.matchIndex| == |s.nodes[i].matchIndex|
    requires s.nodes[i].status == nd'.status && s.nodes[i].currentTerm == nd'.currentTerm
    requires s.nodes[i].logs == nd'.logs && s.nodes[i].snapIndex == nd'.snapIndex
    requires nd'.matchIndex == s.nodes[i].matchIndex[to := nd'.matchIndex[to]]
    requires || nd'.matchIndex[to] <= nd'.snapIndex
             || nd'.matchIndex[to] == s.nodes[i].matchIndex[to]
             || AckedEnd(s, i, to, nd'.currentTerm, nd'.matchIndex[to])
    requires s'.appendReplies == s.appendReplies && s'.appendCalls == s.appendCalls && s'.snapCalls == s.snapCalls
    ensures MatchBacked(s') && SnapsBehind(s') && LeadersKeepShipped(s')
  {
    forall c, j | 0 <= c < |s'.nodes| && s'.nodes[c].status.Leader? && 0 <= j < |s'.nodes[c].matchIndex| && j != c
      && s'.nodes[c].matchIndex[j] > s'.nodes[c].snapIndex
      ensures AckedEnd(s', c, j, s'.nodes[c].currentTerm, s'.nodes[c].matchIndex[j])
    {
      if s'.nodes[c].matchIndex[j] == s.nodes[c].matchIndex[j] {
        assert AckedEnd(s, c, j, s.nodes[c].currentTerm, s.nodes[c].matchIndex[j]);
      }
    }
    forall call |
      call in s'.appendCalls && call.from < |s'.nodes|
      && s'.nodes[call.from].status.Leader? && s'.nodes[call.from].currentTerm == call.args.term
      ensures Shipped(s'.nodes[call.from], call)
    {
      assert Shipped(s.nodes[call.from], call);
    }
  }

  lemma AnswerKeepsMatches(m: Merge, s: Cluster, b: Ballots, r: Rounds, call: AppendCall, reply: AppendReply)
    requires RoundInv(s, b, r)
    requires Enabled(s, AppendAnswer(call, reply)) && Acks(s, call, reply)
    requires Shape(Apply(m, s, AppendAnswer(call, reply)))
    ensures var s' := Apply(m, s, AppendAnswer(call, reply));
            MatchBacked(s') && LeadersKeepShipped(s') && SnapsBehind(s')
  {
    assert AppendCallShape(s, call);
    assert (call, reply) in s.appendReplies;
    assert AcksEnd((call, reply), call.from, call.to, s.nodes[call.from].currentTerm, call.args.End());
    var s' := Apply(m, s, AppendAnswer(call, reply));
    MatchUpdate(s, call.from, call.to, s'.nodes[call.from], s');
  }

  lemma AnswerKeepsRounds(
      m: Merge, s: Cluster, b: Ballots, r: Rounds, call: AppendCall, reply: AppendReply, s': Cluster, b': Ballots)
    requires RoundInv(s, b, r) && KeepsElected(b, b')
    requires IsStep(m, s, AppendAnswer(call, reply), s')
    ensures RoundInv(s', b', CountAcks(s, r, AppendAnswer(call, reply)))
  {
    hide RoundsAgree, RoundsBacked, AckedOnce, AckCounterExact, MatchBacked, LeadersKeepShipped, SnapsBehind;
    var step := AppendAnswer(call, reply);
    assert AppendCallShape(s, call);
    StepKeepsShape(m, s, step, s');
    if Acks(s, call, reply) {
      AnswerKeepsCounts(m, s, b, r, call, reply);
      AnswerKeepsAgreement(m, s, b, r, call, reply);
      AnswerKeepsCounters(m, s, b, r, call, reply);
      AnswerKeepsMatches(m, s, b, r, call, reply);
    } else {
      SameReignKeepsRounds(s, b, r, call.from, NewNode(m, s, step), s', b');
    }
  }

  // ---------------------------------------------------------------------------------------
  // A leader's own log and snapshot
  // ---------------------------------------------------------------------------------------

  /** The same leader or follower, whose log has grown at the end or lost a prefix to a snapshot. */
  ghost predicate KeepsShipped(nd: Node, nd': Node)
    requires Indexed(nd)
  {
    && nd'.appendNums == nd.appendNums && nd'.matchIndex == nd.matchIndex
    && nd'.status == nd.status && nd'.currentTerm == nd.currentTerm
    && nd.snapIndex <= nd'.snapIndex && Indexed(nd') && LastIndex(nd) <= LastIndex(nd')
    && forall k :: 0 <= k < |nd'.logs| && nd'.snapIndex + k < LastIndex(nd) ==>
         nd'.logs[k] == nd.logs[nd'.snapIndex - nd.snapIndex + k]
  }

  lemma ShippedStays(nd: Node, nd': Node, call: AppendCall)
    requires Indexed(nd) && KeepsShipped(nd, nd') && Shipped(nd, call)
    ensures Shipped(nd', call)
  {
  }

  lemma LogStepKeepsMatches(s: Cluster, i: nat, nd': Node, s': Cluster)
    requires Shape(s) && Shape(s') && MatchBacked(s) && LeadersKeepShipped(s) && SnapsBehind(s)
    requires i < |s.nodes| && s'.nodes == s.nodes[i := nd'] && KeepsShipped(s.nodes[i], nd')
    requires s'.appendCalls == s.appendCalls && s'.appendReplies == s.appendReplies && s'.snapCalls == s.snapCalls
    ensures MatchBacked(s') && LeadersKeepShipped(s') && SnapsBehind(s')
  {
    hide Shipped, Indexed;
    forall call |
      call in s'.appendCalls && call.from < |s'.nodes|
      && s'.nodes[call.from].status.Leader? && s'.nodes[call.from].currentTerm == call.args.term
      ensures Shipped(s'.nodes[call.from], call)
    {
      assert Shipped(s.nodes[call.from], call);
      if call.from == i {
        ShippedStays(s.nodes[i], nd', call);
      }
    }
  }

  lemma LogStepKeepsRounds(s: Cluster, b: Ballots, r: Rounds, i: nat, nd': Node, s': Cluster, b': Ballots)
    requires RoundInv(s, b, r) && Shape(s') && KeepsElected(b, b')
    requires i < |s.nodes| && s'.nodes == s.nodes[i := nd'] && KeepsShipped(s.nodes[i], nd')
    requires s'.appendCalls == s.appendCalls && s'.appendReplies == s.appendReplies
    requires s'.appendsHandled == s.appendsHandled && s'.snapCalls == s.snapCalls
    ensures RoundInv(s', b', r)
  {
    hide RoundsBacked, AckCounterExact, MatchBacked, LeadersKeepShipped, SnapsBehind, Shape;
    SameReignKeepsCounters(s, r, i, nd', s');
    LogStepKeepsMatches(s, i, nd', s');
  }

  lemma SnapAnswerKeepsRounds(
      m: Merge, s: Cluster, b: Ballots, r: Rounds, call: SnapCall, term: int, s': Cluster, b': Ballots)
    requires RoundInv(s, b, r) && KeepsElected(b, b')
    requires IsStep(m, s, SnapAnswer(call, term), s')
    ensures RoundInv(s', b', r)
  {
    var step := SnapAnswer(call, term);
    StepKeepsShape(m, s, step, s');
    assert SnapCallShape(s, call);
    var nd, nd' := s.nodes[call.from], NewNode(m, s, step);
    if nd'.matchIndex == nd.matchIndex {
      SameReignKeepsRounds(s, b, r, call.from, nd', s', b');
    } else {
      MatchUpdate(s, call.from, call.to, nd', s');
      forall c, k | (c, k) in r.acks
        ensures RoundBacked(s', r, c, k)
      {
        assert RoundBacked(s, r, c, k);
      }
    }
  }

  // ---------------------------------------------------------------------------------------
  // All runs
  // ---------------------------------------------------------------------------------------

  lemma InitRounds(n: nat)
    ensures RoundInv(InitCluster(n), NO_BALLOTS, NO_ROUNDS)
  {
    InitShape(n);
  }

  /** The step makes its actor leader. */
  ghost predicate Crowns(s: Cluster, step: Step)
    requires Shape(s) && Enabled(s, step)
  {
    || (step.ElectionStep? && !s.nodes[step.n].status.Leader? && s.nodes[step.n].peers == 1)
    || (step.VoteAnswer? && VoteCallShape(s, step.vote) && Wins(s, step.vote, step.voteReply))
  }

  /** It does so in a term nobody has led. */
  lemma CrownedTermIsFresh(m: Merge, s: Cluster, b: Ballots, step: Step)
    requires Shape(s) && Enabled(s, step) && BallotInv(s, b)
    requires Crowns(s, step)
    ensures var nd, nd' := s.nodes[Actor(step)], NewNode(m, s, step);
            && !nd.status.Leader? && nd'.status.Leader?
            && nd'.currentTerm !in b.elected
            && nd'.currentTerm == (if step.ElectionStep? then nd.currentTerm + 1 else nd.currentTerm)
            && nd'.logs == nd.logs && nd'.snapIndex == nd.snapIndex && nd'.commitIndex == nd.commitIndex
            && nd'.appendNums == nd.appendNums
            && forall j :: 0 <= j < |nd'.matchIndex| ==> nd'.matchIndex[j] == 0
  {
    hide BallotInv, VotesRecorded, LeadersElected, VotesTallied, TalliesBacked, WinnersBacked;
    if step.ElectionStep? {
      BallotParts(s, b);
      ElectedTermsPast(s, b);
    } else {
      WinIsFirst(s, b, step.vote, step.voteReply);
    }
  }

  lemma CrowningKeepsRounds(m: Merge, s: Cluster, b: Ballots, r: Rounds, step: Step, s': Cluster, b': Ballots)
    requires RoundInv(s, b, r) && BallotInv(s, b) && KeepsElected(b, b')
    requires IsStep(m, s, step, s') && Crowns(s, step)
    ensures RoundInv(s', b', r)
  {
    StepKeepsShape(m, s, step, s');
    CrownedTermIsFresh(m, s, b, step);
    NewLeaderKeepsRounds(s, b, r, Actor(step), NewNode(m, s, step), s', b');
  }

  lemma StartKeepsLog(nd: Node, command: string)
    requires Shaped(nd)
    ensures KeepsShipped(nd, Start(nd, command))
  {
    hide ScanCommit;
  }

  lemma SnapshotKeepsLog(nd: Node, index: int)
    requires Shaped(nd) && nd.commitIndex <= LastIndex(nd)
    ensures KeepsShipped(nd, Snapshot(nd, index))
  {
  }

  lemma StartKeepsRounds(m: Merge, s: Cluster, b: Ballots, r: Rounds, n: nat, command: string, s': Cluster, b': Ballots)
    requires RoundInv(s, b, r) && KeepsElected(b, b')
    requires IsStep(m, s, StartStep(n, command), s')
    ensures RoundInv(s', b', r)
  {
    hide RoundsAgree, RoundsBacked, AckedOnce, AckCounterExact, MatchBacked, LeadersKeepShipped, SnapsBehind,
      SuccessInTerm, CallsFromLeaders, RoundInv, Start, KeepsShipped;
    StepKeepsShape(m, s, StartStep(n, command), s');
    StartKeepsLog(s.nodes[n], command);
    LogStepKeepsRounds(s, b, r, n, NewNode(m, s, StartStep(n, command)), s', b');
  }

  lemma SnapshotKeepsRounds(m: Merge, s: Cluster, b: Ballots, r: Rounds, n: nat, index: int, s': Cluster, b': Ballots)
    requires RoundInv(s, b, r) && KeepsElected(b, b')
    requires IsStep(m, s, SnapshotStep(n, index), s')
    ensures RoundInv(s', b', r)
  {
    hide RoundsAgree, RoundsBacked, AckedOnce, AckCounterExact, MatchBacked, LeadersKeepShipped, SnapsBehind,
      SuccessInTerm, CallsFromLeaders, RoundInv, Snapshot, KeepsShipped;
    StepKeepsShape(m, s, SnapshotStep(n, index), s');
    SnapshotKeepsLog(s.nodes[n], index);
    LogStepKeepsRounds(s, b, r, n, NewNode(m, s, SnapshotStep(n, index)), s', b');
  }

  /** A step that neither crowns, opens a round, handles an answer nor touches a leader's log. */
  lemma ReignStaysSame(m: Merge, s: Cluster, step: Step)
    requires Shape(s) && Enabled(s, step) && !Crowns(s, step)
    requires !step.AppendDelivery? && !step.AppendAnswer? && !step.StartStep?
    requires !step.SnapshotStep? && !step.SnapAnswer?
    requires step.HeartBeatStep? ==> !s.nodes[step.n].status.Leader?
    ensures SameReign(s.nodes[Actor(step)], NewNode(m, s, step))
  {
    hide UpToDate, TermAt, ScanCommit, Emission, AcceptsAppend, MergeLogs;
    if step.VoteAnswer? {
      AnswersShaped(s, step.vote, step.voteReply);
    }
  }

  lemma ReignStepsKeepRounds(m: Merge, s: Cluster, b: Ballots, r: Rounds, step: Step, s': Cluster, b': Ballots)
    requires RoundInv(s, b, r) && KeepsElected(b, b')
    requires IsStep(m, s, step, s') && !Crowns(s, step)
    requires !step.AppendDelivery? && !step.AppendAnswer? && !step.StartStep?
    requires !step.SnapshotStep? && !step.SnapAnswer?
    requires step.HeartBeatStep? ==> !s.nodes[step.n].status.Leader?
    ensures RoundInv(s', b', r)
  {
    hide RoundsAgree, RoundsBacked, AckedOnce, AckCounterExact, MatchBacked, LeadersKeepShipped, SnapsBehind,
      SuccessInTerm, CallsFromLeaders, RoundInv, SameReign;
    StepKeepsShape(m, s, step, s');
    ReignStaysSame(m, s, step);
    SameReignKeepsRounds(s, b, r, Actor(step), NewNode(m, s, step), s', b');
  }

  lemma StepKeepsRounds(m: Merge, s: Cluster, b: Ballots, r: Rounds, step: Step, s': Cluster, b': Ballots)
    requires BallotInv(s, b) && RoundInv(s, b, r)
    requires BallotStep(m, s, b, step, s', b')
    ensures RoundInv(s', b', CountAcks(s, r, step))
  {
    if step.AppendDelivery? {
      DeliveryKeepsRounds(m, s, b, r, step.append, s', b');
    } else if step.AppendAnswer? {
      AnswerKeepsRounds(m, s, b, r, step.append, step.appendReply, s', b');
    } else if step.StartStep? {
      StartKeepsRounds(m, s, b, r, step.n, step.command, s', b');
    } else if step.SnapshotStep? {
      SnapshotKeepsRounds(m, s, b, r, step.n, step.index, s', b');
    } else if step.SnapAnswer? {
      SnapAnswerKeepsRounds(m, s, b, r, step.snap, step.snapReplyTerm, s', b');
    } else if step.HeartBeatStep? && s.nodes[step.n].status.Leader? {
      HeartBeatKeepsRounds(m, s, b, r, step.n, s', b');
    } else if Crowns(s, step) {
      CrowningKeepsRounds(m, s, b, r, step, s', b');
    } else {
      ReignStepsKeepRounds(m, s, b, r, step, s', b');
    }
  }

  ghost predicate RoundStep(s: Cluster, r: Rounds, step: Step, r': Rounds) {
    Shape(s) && Enabled(s, step) && r' == CountAcks(s, r, step)
  }

  /** Every run has acknowledgement records: rs[k] for what was counted in its first k steps. */
  lemma {:induction false} RunHasRounds(
      m: Merge, states: seq<Cluster>, steps: seq<Step>, bs: seq<Ballots>, n: nat, k: nat) returns (rs: seq<Rounds>)
    requires BallotTrace(m, states, steps, bs)
    requires k < |states|
    requires states[0] == InitCluster(n) && bs[0] == NO_BALLOTS
    ensures |rs| == k + 1 && rs[0] == NO_ROUNDS && forall j :: 0 <= j <= k ==> RoundInv(states[j], bs[j], rs[j])
    ensures forall j :: 0 <= j < k ==> RoundStep(states[j], rs[j], steps[j], rs[j + 1])
  {
    hide Shape, RoundInv, BallotInv, Enabled, Apply, CountAcks, CountBallots, KeepsElected;
    if k == 0 {
      InitRounds(n);
      rs := [NO_ROUNDS];
    } else {
      rs := RunHasRounds(m, states, steps, bs, n, k - 1);
      assert BallotStep(m, states[k - 1], bs[k - 1], steps[k - 1], states[k - 1 + 1], bs[k - 1 + 1]);
      StepKeepsRounds(m, states[k - 1], bs[k - 1], rs[k - 1], steps[k - 1], states[k], bs[k]);
      rs := rs + [CountAcks(states[k - 1], rs[k - 1], steps[k - 1])];
    }
  }

  /** A round that has fired stays so. */
  lemma {:induction false} StaysFired(
      states: seq<Cluster>, steps: seq<Step>, rs: seq<Rounds>, j: nat, k: nat, key: (nat, nat))
    requires j <= k < |rs| <= |states| && |rs| <= |steps| + 1
    requires forall i :: 0 <= i < |rs| - 1 ==> RoundStep(states[i], rs[i], steps[i], rs[i + 1])
    requires key in rs[j].fired
    ensures key in rs[k].fired
    decreases k
  {
    if j < k {
      StaysFired(states, steps, rs, j, k - 1, key);
      assert RoundStep(states[k - 1], rs[k - 1], steps[k - 1], rs[k - 1 + 1]);
      if steps[k - 1].AppendAnswer? {
        assert AppendCallShape(states[k - 1], steps[k - 1].append);
      }
    }
  }

  /** Step k of the run is an answer that makes the counter of c's given round reach a majority. */
  ghost predicate FiresAt(states: seq<Cluster>, steps: seq<Step>, k: nat, c: nat, round: nat) {
    && k < |steps| && k < |states| && steps[k].AppendAnswer?
    && steps[k].append.from == c < |states[k].nodes| && steps[k].append.round == round
    && round < |states[k].nodes[c].appendNums|
    && Fires(states[k], steps[k].append, steps[k].appendReply)
  }

  lemma FiringIsRecorded(s: Cluster, b: Ballots, r: Rounds, call: AppendCall, reply: AppendReply, r': Rounds)
    requires RoundInv(s, b, r) && RoundStep(s, r, AppendAnswer(call, reply), r')
    requires call.from < |s.nodes| && call.round < |s.nodes[call.from].appendNums| && Fires(s, call, reply)
    ensures (call.from, call.round) !in r.fired && (call.from, call.round) in r'.fired
  {
    FiresFresh(s, b, r, call, reply);
    assert (call, reply) in s.appendReplies;
  }

  /** In every run, with either merge and with snapshots: the counter of a heartbeat round reaches a
      majority, and so lets sendAppendEntries commit, at most once. */
  lemma FiresOnce(
      m: Merge, n: nat, states: seq<Cluster>, steps: seq<Step>, j: nat, k: nat, c: nat, round: nat)
    requires IsRun(m, n, states, steps)
    requires FiresAt(states, steps, j, c, round) && FiresAt(states, steps, k, c, round)
    ensures j == k
  {
    hide Shape, RoundInv, BallotTrace, Enabled, Apply, Fires, CountAcks;
    var bs := RunHasBallots(m, n, states, steps);
    TraceStart(m, states, steps, bs);
    var rs := RunHasRounds(m, states, steps, bs, n, |steps|);
    FiringIsRecorded(states[j], bs[j], rs[j], steps[j].append, steps[j].appendReply, rs[j + 1]);
    FiringIsRecorded(states[k], bs[k], rs[k], steps[k].append, steps[k].appendReply, rs[k + 1]);
    if j < k {
      StaysFired(states, steps, rs, j + 1, k, (c, round));
    } else if k < j {
      StaysFired(states, steps, rs, k + 1, j, (c, round));
    }
  }

  // ---------------------------------------------------------------------------------------
  // What a leader has seen when it commits
  // ---------------------------------------------------------------------------------------

  /** Everyone counted in a firing round answered a message with the same term and end. */
  lemma FiringRound(s: Cluster, b: Ballots, r: Rounds, call: AppendCall, reply: AppendReply) returns (q: set<nat>)
    requires RoundInv(s, b, r)
    requires Enabled(s, AppendAnswer(call, reply))
    requires call.round < |s.nodes[call.from].appendNums| && Fires(s, call, reply)
    ensures |q| == Majority(|s.nodes|)
    ensures forall v :: v in q ==>
              v < |s.nodes| && (v == call.from || AckedEnd(s, call.from, v, call.args.term, call.args.End()))
  {
    var c, k := call.from, call.round;
    assert (call, reply) in s.appendReplies;
    FiresFresh(s, b, r, call, reply);
    assert RoundBacked(s, r, c, k);
    q := r.acks[(c, k)] + {call.to};
    forall v | v in q && v != c
      ensures AckedEnd(s, c, v, call.args.term, call.args.End())
    {
      if v == call.to {
        assert AcksEnd((call, reply), c, v, call.args.term, call.args.End());
      } else {
        assert RoundAcked(s, c, v, k);
        var a :| a in s.appendReplies && a.1.success && a.0.from == c && a.0.to == v && a.0.round == k;
        assert AcksEnd(a, c, v, call.args.term, call.args.End());
      }
    }
  }

  /** sendAppendEntries raises the commit index only when its round's counter fires, which it has
      not done before, and only to the end of that round's messages, where the leader's log has an
      entry of its own term. */
  lemma CounterCommit(s: Cluster, b: Ballots, r: Rounds, call: AppendCall, reply: AppendReply)
    requires RoundInv(s, b, r)
    requires Enabled(s, AppendAnswer(call, reply)) && AppendCallShape(s, call)
    requires AppendReplied(s.nodes[call.from], call, reply).commitIndex > s.nodes[call.from].commitIndex
    ensures Fires(s, call, reply) && (call.from, call.round) !in r.fired
    ensures var nd, nd' := s.nodes[call.from], AppendReplied(s.nodes[call.from], call, reply);
            && nd'.status == nd.status && nd'.currentTerm == nd.currentTerm == call.args.term
            && nd'.logs == nd.logs && nd'.snapIndex == nd.snapIndex
            && nd.snapIndex < nd'.commitIndex == call.args.End() <= LastIndex(nd)
            && TermAt(nd, call.args.End()) == nd.currentTerm
  {
    hide RoundsAgree, RoundsBacked, AckedOnce, AckCounterExact, MatchBacked, SnapsBehind, CallsFromLeaders;
    var nd := s.nodes[call.from];
    assert (call, reply) in s.appendReplies;
    FiresFresh(s, b, r, call, reply);
    assert Shipped(nd, call);
    assert nd.logs[call.args.End() - nd.snapIndex - 1] == call.args.entries[|call.args.entries| - 1];
  }

  /** leaderUpdateCommitIndex, run by Start, sets the commit index above the snapshot only to an
      entry of its own term that a majority has acknowledged. */
  lemma ScanCommitted(s: Cluster, b: Ballots, r: Rounds, n: nat, command: string) returns (q: set<nat>)
    requires RoundInv(s, b, r)
    requires n < |s.nodes| && s.nodes[n].status.Leader?
    requires Start(s.nodes[n], command).commitIndex > s.nodes[n].snapIndex
    ensures var nd, nd' := s.nodes[n], Start(s.nodes[n], command);
            && Indexed(nd') && nd'.commitIndex <= LastIndex(nd')
            && TermAt(nd', nd'.commitIndex) == nd.currentTerm
            && Evidence(s, n, nd.currentTerm, nd'.commitIndex, q)
  {
    var nd := s.nodes[n];
    var n1 := Appended(nd, command);
    var k := ScanCommit(n1, LastIndex(n1));
    assert Committable(n1, k);
    q := Matching(n1, k);
    forall v | v in q && v != n
      ensures exists e :: e >= k && AckedEnd(s, n, v, nd.currentTerm, e)
    {
      assert AckedEnd(s, n, v, nd.currentTerm, nd.matchIndex[v]);
    }
  }

  /** One step of that: the raised commit index has its evidence. */
  lemma RaiseHasEvidence(m: Merge, s: Cluster, b: Ballots, r: Rounds, step: Step) returns (q: set<nat>)
    requires RoundInv(s, b, r) && Shape(s) && Enabled(s, step)
    requires s.nodes[Actor(step)].status.Leader? && NewNode(m, s, step).status.Leader?
    requires NewNode(m, s, step).commitIndex > s.nodes[Actor(step)].commitIndex
    ensures var nd' := NewNode(m, s, step);
            && Indexed(nd') && nd'.snapIndex < nd'.commitIndex <= LastIndex(nd')
            && TermAt(nd', nd'.commitIndex) == nd'.currentTerm == s.nodes[Actor(step)].currentTerm
            && Evidence(s, Actor(step), nd'.currentTerm, nd'.commitIndex, q)
  {
    OnlyTheseRaise(m, s, step);
    if step.AppendAnswer? {
      assert AppendCallShape(s, step.append);
      CounterCommit(s, b, r, step.append, step.appendReply);
      q := FiringRound(s, b, r, step.append, step.appendReply);
    } else {
      q := ScanCommitted(s, b, r, step.n, step.command);
    }
  }

  lemma OnlyTheseRaise(m: Merge, s: Cluster, step: Step)
    requires Shape(s) && Enabled(s, step)
    requires NewNode(m, s, step).commitIndex > s.nodes[Actor(step)].commitIndex
    requires s.nodes[Actor(step)].status.Leader? && NewNode(m, s, step).status.Leader?
    ensures step.AppendAnswer? || step.StartStep?
  {
  }

  /** In every run, with either merge and with snapshots: if a step leaves a leader with a higher
      commit index than before, that index holds an entry of the leader's term and a majority has
      acknowledged the leader's log of that term at least up to it. */
  lemma CommitNeverOutrunsEvidence(m: Merge, n: nat, states: seq<Cluster>, steps: seq<Step>, k: nat, c: nat)
    returns (q: set<nat>)
    requires IsRun(m, n, states, steps)
    requires k < |steps| && c < |states[k].nodes| && c < |states[k + 1].nodes|
    requires states[k].nodes[c].status.Leader? && states[k + 1].nodes[c].status.Leader?
    requires states[k + 1].nodes[c].commitIndex > states[k].nodes[c].commitIndex
    ensures var nd' := states[k + 1].nodes[c];
            && Indexed(nd') && nd'.snapIndex < nd'.commitIndex <= LastIndex(nd')
            && TermAt(nd', nd'.commitIndex) == nd'.currentTerm == states[k].nodes[c].currentTerm
            && Evidence(states[k], c, nd'.currentTerm, nd'.commitIndex, q)
  {
    hide Shape, RoundInv, BallotTrace, Enabled, Apply, NewNode;
    var bs := RunHasBallots(m, n, states, steps);
    TraceStart(m, states, steps, bs);
    var rs := RunHasRounds(m, states, steps, bs, n, k);
    assert IsStep(m, states[k], steps[k], states[k + 1]);
    OnlyActorMoves(m, states[k], steps[k], states[k + 1]);
    q := RaiseHasEvidence(m, states[k], bs[k], rs[k], steps[k]);
  }

  lemma TraceStart(m: Merge, states: seq<Cluster>, steps: seq<Step>, bs: seq<Ballots>)
    requires BallotTrace(m, states, steps, bs)
    ensures |bs| == |states| == |steps| + 1
  {
  }
}
