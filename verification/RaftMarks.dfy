/** The high-water marks of replication: how far each peer has acknowledged its leader's log in the
    leader's term.  matchIndex itself is overwritten by snapshot answers (raft.cpp:666) and may go down;
    the marks do not, and by them every commit passes leaderUpdateCommitIndex's test. */
module RaftMarks {
  import opened RaftTypes
  import opened RaftNode
  import opened RaftCluster
  import opened RaftElection
  import opened RaftEvidence
  import opened Quorums

  /** For a leader, its term and a peer: the furthest end of a message whose success reply it handled. */
  type Marks = map<(nat, int, nat), int>

  function Mark(h: Marks, c: nat, t: int, v: nat): int {
    if (c, t, v) in h then h[(c, t, v)] else 0
  }

  ghost function Raise(s: Cluster, h: Marks, step: Step): Marks
    requires Shape(s) && Enabled(s, step)
  {
    match step
    case AppendAnswer(call, reply) =>
      assert AppendCallShape(s, call);
      if Acks(s, call, reply) then
        var t := s.nodes[call.from].currentTerm;
        h[(call.from, t, call.to) := Max(Mark(h, call.from, t, call.to), call.args.End())]
      else h
    case _ => h
  }

  /** The marks after the first k steps of a run. */
  ghost function MarksAt(m: Merge, n: nat, states: seq<Cluster>, steps: seq<Step>, k: nat): Marks
    requires IsRun(m, n, states, steps) && k <= |steps|
  {
    if k == 0 then map[]
    else
      assert IsStep(m, states[k - 1], steps[k - 1], states[k - 1 + 1]);
      Raise(states[k - 1], MarksAt(m, n, states, steps, k - 1), steps[k - 1])
  }

  function HighWater(h: Marks, c: nat, t: int, n: nat): (marks: seq<int>)
    ensures |marks| == n && forall v :: 0 <= v < n ==> marks[v] == Mark(h, c, t, v)
  {
    seq(n, v requires 0 <= v < n => Mark(h, c, t, v))
  }

  // ---------------------------------------------------------------------------------------
  // What the marks reach
  // ---------------------------------------------------------------------------------------

  /** Whoever is counted in a round is marked up to the end of its message. */
  ghost predicate CountedMarked(s: Cluster, r: Rounds, h: Marks) {
    forall call :: call in s.appendCalls && (call.from, call.round) in r.acks
                   && call.to in r.acks[(call.from, call.round)] ==>
      call.args.End() <= Mark(h, call.from, call.args.term, call.to)
  }

  /** Above the snapshot the marks are at least matchIndex. */
  ghost predicate MatchMarked(nd: Node, h: Marks) {
    nd.status.Leader? ==>
      forall i :: 0 <= i < |nd.matchIndex| && i != nd.me ==>
        nd.matchIndex[i] <= nd.snapIndex || nd.matchIndex[i] <= Mark(h, nd.me, nd.currentTerm, i)
  }

  ghost predicate MarkInv(s: Cluster, r: Rounds, h: Marks) {
    CountedMarked(s, r, h) && forall i :: 0 <= i < |s.nodes| ==> MatchMarked(s.nodes[i], h)
  }

  lemma RaiseOnlyUp(s: Cluster, h: Marks, step: Step)
    requires Shape(s) && Enabled(s, step)
    ensures forall c, t, v :: Mark(h, c, t, v) <= Mark(Raise(s, h, step), c, t, v)
  {
  }

  /** An acknowledgement marks its peer up to the end of its message, in the message's term. */
  lemma AckMarks(s: Cluster, b: Ballots, r: Rounds, h: Marks, call: AppendCall, reply: AppendReply)
    requires RoundInv(s, b, r) && Shape(s) && Enabled(s, AppendAnswer(call, reply))
    requires AppendCallShape(s, call) && Acks(s, call, reply)
    ensures s.nodes[call.from].currentTerm == call.args.term
    ensures call.args.End() <= Mark(Raise(s, h, AppendAnswer(call, reply)), call.from, call.args.term, call.to)
  {
    hide RoundsAgree, RoundsBacked, AckedOnce, AckCounterExact, MatchBacked, LeadersKeepShipped, SnapsBehind;
    assert (call, reply) in s.appendReplies;
  }

  lemma AnswerKeepsCounted(
      m: Merge, s: Cluster, b: Ballots, r: Rounds, h: Marks, call: AppendCall, reply: AppendReply, s': Cluster)
    requires RoundInv(s, b, r) && CountedMarked(s, r, h)
    requires IsStep(m, s, AppendAnswer(call, reply), s')
    ensures CountedMarked(s', CountAcks(s, r, AppendAnswer(call, reply)), Raise(s, h, AppendAnswer(call, reply)))
  {
    hide RoundsBacked, AckedOnce, AckCounterExact, MatchBacked, LeadersKeepShipped, SnapsBehind, NewNode;
    var step := AppendAnswer(call, reply);
    assert AppendCallShape(s, call) && (call, reply) in s.appendReplies;
    RaiseOnlyUp(s, h, step);
    if Acks(s, call, reply) {
      AckMarks(s, b, r, h, call, reply);
      hide Raise;
      var r' := CountAcks(s, r, step);
      forall c | c in s.appendCalls && (c.from, c.round) in r'.acks && c.to in r'.acks[(c.from, c.round)]
        ensures c.args.End() <= Mark(Raise(s, h, step), c.from, c.args.term, c.to)
      {
        if c != call {
          assert c.to in r.acks[(c.from, c.round)];
        }
      }
    }
  }

  lemma BeatKeepsCounted(m: Merge, s: Cluster, b: Ballots, r: Rounds, h: Marks, n: nat, s': Cluster)
    requires RoundInv(s, b, r) && CountedMarked(s, r, h)
    requires IsStep(m, s, HeartBeatStep(n), s') && s.nodes[n].status.Leader?
    ensures CountedMarked(s', CountAcks(s, r, HeartBeatStep(n)), h)
  {
    hide RoundsBacked, AckedOnce, AckCounterExact, MatchBacked, LeadersKeepShipped, SnapsBehind, NewNode;
    HeartBeatCallsAgree(s.nodes[n]);
    var r' := CountAcks(s, r, HeartBeatStep(n));
    forall call | call in s'.appendCalls && (call.from, call.round) in r'.acks
      && call.to in r'.acks[(call.from, call.round)]
      ensures call.args.End() <= Mark(h, call.from, call.args.term, call.to)
    {
      if call in s.appendCalls {
        assert AppendCallShape(s, call);
      }
    }
  }

  lemma StepKeepsCounted(m: Merge, s: Cluster, b: Ballots, r: Rounds, h: Marks, step: Step, s': Cluster)
    requires RoundInv(s, b, r) && CountedMarked(s, r, h) && IsStep(m, s, step, s')
    ensures CountedMarked(s', CountAcks(s, r, step), Raise(s, h, step))
  {
    hide RoundInv, CountedMarked, HeartBeatCalls;
    if step.AppendAnswer? {
      AnswerKeepsCounted(m, s, b, r, h, step.append, step.appendReply, s');
    } else if step.HeartBeatStep? && s.nodes[step.n].status.Leader? {
      BeatKeepsCounted(m, s, b, r, h, step.n, s');
    } else {
      SameCallsCounted(m, s, r, h, step, s');
    }
  }

  lemma SameCallsCounted(m: Merge, s: Cluster, r: Rounds, h: Marks, step: Step, s': Cluster)
    requires CountedMarked(s, r, h) && IsStep(m, s, step, s') && !step.AppendAnswer?
    requires step.HeartBeatStep? ==> !s.nodes[step.n].status.Leader?
    ensures CountedMarked(s', CountAcks(s, r, step), Raise(s, h, step))
  {
    hide NewNode, ElectionCalls, Shape, CanHeartBeat;
  }

  // ---------------------------------------------------------------------------------------
  // matchIndex
  // ---------------------------------------------------------------------------------------

  /** Anything but an answer leaves a leader's matchIndex alone or is its coronation. */
  lemma OthersKeepMatch(m: Merge, s: Cluster, step: Step)
    requires Shape(s) && Enabled(s, step) && !step.AppendAnswer? && !step.SnapAnswer?
    ensures var nd, nd' := s.nodes[Actor(step)], NewNode(m, s, step);
            nd'.status.Leader? ==>
              || (forall i :: 0 <= i < |nd'.matchIndex| ==> nd'.matchIndex[i] == 0)
              || (nd.status.Leader? && nd'.matchIndex == nd.matchIndex && nd'.currentTerm == nd.currentTerm)
  {
    hide Indexed, ScanCommit, Emission, UpToDate, AcceptsAppend, MergeLogs, TermAt;
  }

  lemma OtherKeepsMatchMarked(m: Merge, s: Cluster, h: Marks, step: Step)
    requires Shape(s) && Enabled(s, step) && MatchMarked(s.nodes[Actor(step)], h)
    requires !step.AppendAnswer? && !step.SnapAnswer?
    ensures MatchMarked(NewNode(m, s, step), h)
  {
    OthersKeepMatch(m, s, step);
    NewNodeFollows(m, s, step);
    hide NewNode, Enabled, Indexed;
  }

  lemma SnapAnswerKeepsMatchMarked(s: Cluster, h: Marks, call: SnapCall, term: int)
    requires Shape(s) && SnapsBehind(s) && Enabled(s, SnapAnswer(call, term)) && SnapCallShape(s, call)
    requires MatchMarked(s.nodes[call.from], h)
    ensures MatchMarked(SnapReplied(s.nodes[call.from], call, term), h)
  {
    assert call in s.snapCalls;
  }

  lemma AnswerKeepsMatchMarked(s: Cluster, b: Ballots, r: Rounds, h: Marks, call: AppendCall, reply: AppendReply)
    requires RoundInv(s, b, r) && Shape(s) && Enabled(s, AppendAnswer(call, reply)) && AppendCallShape(s, call)
    requires MatchMarked(s.nodes[call.from], h)
    ensures MatchMarked(AppendReplied(s.nodes[call.from], call, reply), Raise(s, h, AppendAnswer(call, reply)))
  {
    hide RoundInv, Shape;
    NodeShape(s, call.from);
    RaiseOnlyUp(s, h, AppendAnswer(call, reply));
    if Acks(s, call, reply) {
      AckMarks(s, b, r, h, call, reply);
    }
    hide Raise, Mark;
  }

  lemma NodeShape(s: Cluster, i: nat)
    requires Shape(s) && i < |s.nodes|
    ensures Shaped(s.nodes[i]) && s.nodes[i].me == i && s.nodes[i].peers == |s.nodes|
  {
  }

  lemma StepKeepsMatchMarked(m: Merge, s: Cluster, b: Ballots, r: Rounds, h: Marks, step: Step)
    requires RoundInv(s, b, r) && Shape(s) && Enabled(s, step) && MatchMarked(s.nodes[Actor(step)], h)
    ensures MatchMarked(NewNode(m, s, step), Raise(s, h, step))
  {
    hide MatchMarked, AppendReplied, SnapReplied, RoundsAgree, RoundsBacked, AckedOnce, AckCounterExact, MatchBacked,
         LeadersKeepShipped, SuccessInTerm, CallsFromLeaders;
    if step.AppendAnswer? {
      assert AppendCallShape(s, step.append);
      AnswerKeepsMatchMarked(s, b, r, h, step.append, step.appendReply);
    } else if step.SnapAnswer? {
      assert SnapCallShape(s, step.snap);
      SnapAnswerKeepsMatchMarked(s, h, step.snap, step.snapReplyTerm);
    } else {
      OtherKeepsMatchMarked(m, s, h, step);
    }
  }

  lemma RaisedStaysMarked(s: Cluster, h: Marks, step: Step, nd: Node)
    requires Shape(s) && Enabled(s, step) && MatchMarked(nd, h)
    ensures MatchMarked(nd, Raise(s, h, step))
  {
    RaiseOnlyUp(s, h, step);
    hide Raise, Mark;
  }

  lemma StepKeepsMarks(m: Merge, s: Cluster, b: Ballots, r: Rounds, h: Marks, step: Step, s': Cluster)
    requires RoundInv(s, b, r) && MarkInv(s, r, h) && IsStep(m, s, step, s')
    ensures MarkInv(s', CountAcks(s, r, step), Raise(s, h, step))
  {
    hide RoundInv, CountedMarked, MatchMarked, Raise, CountAcks, Apply;
    StepKeepsCounted(m, s, b, r, h, step, s');
    OnlyActorMoves(m, s, step, s');
    StepKeepsMatchMarked(m, s, b, r, h, step);
    forall i | 0 <= i < |s'.nodes|
      ensures MatchMarked(s'.nodes[i], Raise(s, h, step))
    {
      if i != Actor(step) {
        RaisedStaysMarked(s, h, step, s.nodes[i]);
      }
    }
  }

  lemma {:induction false} RunHasMarks(
      m: Merge, n: nat, states: seq<Cluster>, steps: seq<Step>, bs: seq<Ballots>, rs: seq<Rounds>, k: nat)
    requires IsRun(m, n, states, steps) && k <= |steps| && |states| == |bs| == |rs|
    requires rs[0] == NO_ROUNDS && forall j :: 0 <= j < |states| ==> RoundInv(states[j], bs[j], rs[j])
    requires forall j :: 0 <= j < |steps| ==> RoundStep(states[j], rs[j], steps[j], rs[j + 1])
    ensures MarkInv(states[k], rs[k], MarksAt(m, n, states, steps, k))
  {
    hide RoundInv, MarkInv, Shape, Enabled, Apply, CountAcks, Raise;
    if k == 0 {
      InitMarks(n);
    } else {
      RunHasMarks(m, n, states, steps, bs, rs, k - 1);
      assert IsStep(m, states[k - 1], steps[k - 1], states[k - 1 + 1]);
      assert RoundStep(states[k - 1], rs[k - 1], steps[k - 1], rs[k - 1 + 1]);
      var h := MarksAt(m, n, states, steps, k - 1);
      StepKeepsMarks(m, states[k - 1], bs[k - 1], rs[k - 1], h, steps[k - 1], states[k]);
    }
  }

  lemma InitMarks(n: nat)
    ensures MarkInv(InitCluster(n), NO_ROUNDS, map[])
  {
  }

  // ---------------------------------------------------------------------------------------
  // Every commit passes the test by the marks
  // ---------------------------------------------------------------------------------------

  /** Enough marked peers make an own-term index committable. */
  lemma MarkedMajority(nd: Node, h: Marks, index: int, q: set<nat>)
    requires Shaped(nd) && nd.snapIndex < index <= LastIndex(nd) && TermAt(nd, index) == nd.currentTerm
    requires |q| >= Majority(nd.peers)
    requires forall v :: v in q ==> v < nd.peers && (v == nd.me || Mark(h, nd.me, nd.currentTerm, v) >= index)
    ensures Committable(nd.(matchIndex := HighWater(h, nd.me, nd.currentTerm, nd.peers)), index)
  {
    hide TermAt, Mark;
    var nd' := nd.(matchIndex := HighWater(h, nd.me, nd.currentTerm, nd.peers));
    assert TermAt(nd', index) == TermAt(nd, index) by {
      SameTerm(nd, nd', index);
    }
    assert q <= Matching(nd', index);
    SubsetSize(q, Matching(nd', index));
  }

  lemma SameTerm(nd: Node, nd': Node, index: int)
    requires Indexed(nd) && nd.snapIndex < index <= LastIndex(nd)
    requires nd'.logs == nd.logs && nd'.snapIndex == nd.snapIndex
    ensures Indexed(nd') && LastIndex(nd') == LastIndex(nd) && TermAt(nd', index) == TermAt(nd, index)
  {
  }

  /** Everyone counted when a round fires is marked up to the end of its messages. */
  lemma FiringMarked(s: Cluster, b: Ballots, r: Rounds, h: Marks, call: AppendCall, reply: AppendReply)
    returns (q: set<nat>)
    requires RoundInv(s, b, r) && CountedMarked(s, r, h) && Shape(s) && Enabled(s, AppendAnswer(call, reply))
    requires AppendCallShape(s, call) && Fires(s, call, reply)
    ensures |q| >= Majority(|s.nodes|)
    ensures var h' := Raise(s, h, AppendAnswer(call, reply));
            forall v :: v in q ==>
              v < |s.nodes| && (v == call.from || Mark(h', call.from, call.args.term, v) >= call.args.End())
  {
    var c, k := call.from, call.round;
    assert (call, reply) in s.appendReplies;
    FiresFresh(s, b, r, call, reply);
    AckMarks(s, b, r, h, call, reply);
    RaiseOnlyUp(s, h, AppendAnswer(call, reply));
    hide Raise, Mark;
    q := r.acks[(c, k)] + {call.to};
    assert RoundBacked(s, r, c, k);
    forall v | v in q && v != c && v != call.to
      ensures Mark(Raise(s, h, AppendAnswer(call, reply)), c, call.args.term, v) >= call.args.End()
    {
      assert RoundAcked(s, c, v, k);
      var a :| a in s.appendReplies && a.1.success && a.0.from == c && a.0.to == v && a.0.round == k;
      assert a.0 in s.appendCalls;
    }
  }

  lemma CounterPasses(s: Cluster, b: Ballots, r: Rounds, h: Marks, call: AppendCall, reply: AppendReply)
    requires RoundInv(s, b, r) && CountedMarked(s, r, h) && Shape(s) && Enabled(s, AppendAnswer(call, reply))
    requires AppendCallShape(s, call)
    requires AppendReplied(s.nodes[call.from], call, reply).commitIndex > s.nodes[call.from].commitIndex
    ensures var nd', h' := AppendReplied(s.nodes[call.from], call, reply), Raise(s, h, AppendAnswer(call, reply));
            && Shaped(nd') && nd'.snapIndex < nd'.commitIndex <= LastIndex(nd')
            && Committable(nd'.(matchIndex := HighWater(h', nd'.me, nd'.currentTerm, nd'.peers)), nd'.commitIndex)
  {
    hide RoundInv, Committable, HighWater, CountedMarked, Shape;
    NodeShape(s, call.from);
    CounterCommit(s, b, r, call, reply);
    var q := FiringMarked(s, b, r, h, call, reply);
    AppendRepliedFollows(s.nodes[call.from], call, reply);
    var nd, nd' := s.nodes[call.from], AppendReplied(s.nodes[call.from], call, reply);
    hide AppendReplied, Raise, Fires;
    SameTerm(nd, nd', nd'.commitIndex);
    MarkedMajority(nd', Raise(s, h, AppendAnswer(call, reply)), nd'.commitIndex, q);
  }

  lemma ScanPasses(nd: Node, h: Marks, command: string)
    requires Shaped(nd) && MatchMarked(nd, h) && nd.status.Leader?
    requires Start(nd, command).commitIndex > nd.snapIndex
    ensures var nd' := Start(nd, command);
            && Shaped(nd') && nd'.snapIndex < nd'.commitIndex <= LastIndex(nd')
            && Committable(nd'.(matchIndex := HighWater(h, nd'.me, nd'.currentTerm, nd'.peers)), nd'.commitIndex)
  {
    hide HighWater, Mark;
    var n1, nd' := Appended(nd, command), Start(nd, command);
    var k := ScanCommit(n1, LastIndex(n1));
    assert Committable(n1, k) && nd' == n1.(commitIndex := k);
    SameTerm(n1, nd', k);
    StartFollows(nd, command);
    MarkedMajority(nd', h, k, Matching(n1, k));
  }

  /** The leader's commit index passes leaderUpdateCommitIndex's test when the marks stand in for its
      matchIndex. */
  ghost predicate PassesByMarks(nd: Node, h: Marks) {
    && Shaped(nd) && nd.snapIndex < nd.commitIndex <= LastIndex(nd)
    && Committable(nd.(matchIndex := HighWater(h, nd.me, nd.currentTerm, nd.peers)), nd.commitIndex)
  }

  lemma RaisePasses(m: Merge, s: Cluster, b: Ballots, r: Rounds, h: Marks, step: Step)
    requires RoundInv(s, b, r) && MarkInv(s, r, h) && Shape(s) && Enabled(s, step)
    requires s.nodes[Actor(step)].status.Leader? && NewNode(m, s, step).status.Leader?
    requires NewNode(m, s, step).commitIndex > s.nodes[Actor(step)].commitIndex
    ensures PassesByMarks(NewNode(m, s, step), Raise(s, h, step))
  {
    hide RoundInv, CountedMarked, MatchMarked, Committable, HighWater, AppendReplied, Start;
    OnlyTheseRaise(m, s, step);
    if step.AppendAnswer? {
      assert AppendCallShape(s, step.append);
      CounterPasses(s, b, r, h, step.append, step.appendReply);
    } else {
      ScanPasses(s.nodes[step.n], h, step.command);
    }
  }

  /** In every run, with either merge and with snapshots: whenever a step leaves a leader with a higher
      commit index, by the reply counter or by the scan, that index passes leaderUpdateCommitIndex's own
      test on the high-water marks: an entry of the leader's term up to which a strict majority,
      the leader included, has acknowledged in replies the leader handled in that term. */
  lemma CommitPassesByMarks(m: Merge, n: nat, states: seq<Cluster>, steps: seq<Step>, k: nat, c: nat)
    requires IsRun(m, n, states, steps)
    requires k < |steps| && c < |states[k].nodes| && c < |states[k + 1].nodes|
    requires states[k].nodes[c].status.Leader? && states[k + 1].nodes[c].status.Leader?
    requires states[k + 1].nodes[c].commitIndex > states[k].nodes[c].commitIndex
    ensures states[k + 1].nodes[c].me == c
    ensures PassesByMarks(states[k + 1].nodes[c], MarksAt(m, n, states, steps, k + 1))
  {
    hide Shape, RoundInv, BallotTrace, Enabled, Apply, NewNode, MarkInv, Raise, CountAcks, PassesByMarks;
    var bs := RunHasBallots(m, n, states, steps);
    TraceStart(m, states, steps, bs);
    var rs := RunHasRounds(m, states, steps, bs, n, |steps|);
    RunHasMarks(m, n, states, steps, bs, rs, k);
    assert IsStep(m, states[k], steps[k], states[k + 1]);
    OnlyActorMoves(m, states[k], steps[k], states[k + 1]);
    RaisePasses(m, states[k], bs[k], rs[k], MarksAt(m, n, states, steps, k), steps[k]);
    RunShaped(m, n, states, steps, k + 1);
    NodeShape(states[k + 1], c);
  }
}
