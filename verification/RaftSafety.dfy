/** Every step of a truncating, snapshot-free cluster keeps the history invariant. */
module RaftSafety {
  import opened RaftTypes
  import opened RaftNode
  import opened RaftCluster
  import opened RaftElection
  import opened RaftBooks
  import opened Quorums

  // ---------------------------------------------------------------------------------------
  // Steps that change no log and cast no vote
  // ---------------------------------------------------------------------------------------

  ghost predicate SameLog(nd: Node, nd': Node) {
    && nd'.logs == nd.logs && nd'.snapIndex == nd.snapIndex && nd'.snapTerm == nd.snapTerm
    && nd.currentTerm <= nd'.currentTerm
    && (nd'.status.Leader? ==> nd.status.Leader? && nd'.currentTerm == nd.currentTerm)
  }

  ghost predicate SameElections(b: Ballots, b': Ballots) {
    b'.elected == b.elected && b'.tally.Keys == b.tally.Keys
  }

  lemma QuietKeepsLogs(s: Cluster, b: Ballots, h: Books, s': Cluster)
    requires TalliesBacked(s, b) && HistoryInv(b, h) && LogsInv(s, h)
    requires |s'.nodes| == |s.nodes|
    requires forall n :: 0 <= n < |s.nodes| ==> SameLog(s.nodes[n], s'.nodes[n])
    ensures LogsInv(s', h)
  {
    forall n | 0 <= n < |s'.nodes|
      ensures NodeTraced(h, s'.nodes[n])
      ensures (n, s'.nodes[n].currentTerm) in h.cands ==> s'.nodes[n].currentTerm == s.nodes[n].currentTerm
    {
      assert NodeTraced(h, s.nodes[n]) && SameLog(s.nodes[n], s'.nodes[n]);
      if (n, s'.nodes[n].currentTerm) in h.cands {
        assert TallyBacked(s, b, n, s'.nodes[n].currentTerm);
      }
    }
    forall n | 0 <= n < |s'.nodes|
      ensures s'.nodes[n].status.Leader? ==>
                s'.nodes[n].currentTerm in h.full && s'.nodes[n].logs == h.full[s'.nodes[n].currentTerm]
    {
      assert SameLog(s.nodes[n], s'.nodes[n]);
    }
  }

  lemma QuietKeepsSafety(s: Cluster, b: Ballots, h: Books, s': Cluster, b': Ballots)
    requires Retained(s, h) && StartSafe(s, h) && VoteSafe(s, b, h)
    requires Progress(s, h, s', h) && b'.votes == b.votes
    requires forall n :: 0 <= n < |s.nodes| ==> SameLog(s.nodes[n], s'.nodes[n])
    ensures Retained(s', h) && StartSafe(s', h) && VoteSafe(s', b', h)
  {
    forall t, i: nat | Live(s', h, t, i)
      ensures Live(s, h, t, i)
    {
      LiveBefore(s, h, s', h, t, i);
    }
  }

  lemma MessageOkGrows(h: Books, h': Books, a: AppendArgs)
    requires MessageOk(h, a) && FullGrows(h, h')
    ensures MessageOk(h', a)
  {
    assert h'.full[a.term][..a.End()] == h.full[a.term][..a.End()];
    assert h'.full[a.term][a.prevLogIndex..a.End()] == h'.full[a.term][..a.End()][a.prevLogIndex..];
    assert h.full[a.term][a.prevLogIndex..a.End()] == h.full[a.term][..a.End()][a.prevLogIndex..];
  }

  ghost predicate CandsGrow(h: Books, h': Books) {
    forall key :: key in h.cands ==> key in h'.cands && h'.cands[key] == h.cands[key]
  }

  ghost predicate VoteCallOk(h: Books, call: VoteCall) {
    && (call.from, call.args.term) in h.cands
    && call.args.lastLogIndex == |h.cands[(call.from, call.args.term)]|
    && call.args.lastLogTerm == TermOf(h.cands[(call.from, call.args.term)], call.args.lastLogIndex)
  }

  lemma NetworkGrows(s: Cluster, h: Books, s': Cluster, h': Books)
    requires NetworkInv(s, h) && FullGrows(h, h') && CandsGrow(h, h')
    requires forall call :: call in s'.voteCalls ==> call in s.voteCalls || VoteCallOk(h', call)
    requires forall call :: call in s'.appendCalls ==> call in s.appendCalls || MessageOk(h', call.args)
    requires s'.snapCalls == {}
    ensures NetworkInv(s', h')
  {
    forall call | call in s'.appendCalls
      ensures MessageOk(h', call.args)
    {
      if call in s.appendCalls {
        MessageOkGrows(h, h', call.args);
      }
    }
    forall call | call in s'.voteCalls
      ensures VoteCallOk(h', call)
    {
      if call in s.voteCalls {
        assert VoteCallOk(h, call);
      }
    }
  }

  lemma SameElectionsKeepHistory(b: Ballots, h: Books, b': Ballots)
    requires HistoryInv(b, h) && SameElections(b, b')
    ensures HistoryInv(b', h)
  {
  }

  lemma QuietKeepsAcks(s: Cluster, b: Ballots, h: Books, s': Cluster, b': Ballots)
    requires AcksInv(s, b, h) && b'.elected == b.elected
    requires |s'.nodes| == |s.nodes|
    requires forall n :: 0 <= n < |s.nodes| ==> s.nodes[n].currentTerm <= s'.nodes[n].currentTerm
    requires forall r :: r in s'.appendReplies && r.1.success ==> r in s.appendReplies
    ensures AcksInv(s', b', h)
  {
  }

  lemma QuietKeepsCore(s: Cluster, b: Ballots, h: Books, s': Cluster, b': Ballots)
    requires TalliesBacked(s, b) && CoreInv(s, b, h) && SameElections(b, b') && b'.votes == b.votes
    requires |s'.nodes| == |s.nodes|
    requires forall n :: 0 <= n < |s.nodes| ==> SameLog(s.nodes[n], s'.nodes[n])
    requires s'.voteCalls == s.voteCalls && s'.snapCalls == {}
    requires forall call :: call in s'.appendCalls ==> call in s.appendCalls || MessageOk(h, call.args)
    requires forall r :: r in s'.appendReplies && r.1.success ==> r in s.appendReplies
    ensures CoreInv(s', b', h)
  {
    QuietKeepsLogs(s, b, h, s');
    QuietKeepsSafety(s, b, h, s', b');
    NetworkGrows(s, h, s', h);
    SameElectionsKeepHistory(b, h, b');
    QuietKeepsAcks(s, b, h, s', b');
  }

  // ---------------------------------------------------------------------------------------
  // Standing for election
  // ---------------------------------------------------------------------------------------

  /** s', b', h' are s, b, h after node c has become a candidate, with state nd'. */
  ghost predicate Candidacy(s: Cluster, b: Ballots, h: Books, c: nat, nd': Node, s': Cluster, b': Ballots, h': Books) {
    && c < |s.nodes| && s'.nodes == s.nodes[c := nd'] && 0 <= s.nodes[c].currentTerm
    && nd'.logs == s.nodes[c].logs && nd'.snapIndex == s.nodes[c].snapIndex && nd'.snapTerm == s.nodes[c].snapTerm
    && nd'.currentTerm == s.nodes[c].currentTerm + 1 && !nd'.status.Leader?
    && (c, nd'.currentTerm) !in h.cands && (c, nd'.currentTerm) !in b.votes
    && b'.votes == b.votes[(c, nd'.currentTerm) := c] && b'.elected == b.elected
    && b'.tally.Keys == b.tally.Keys + {(c, nd'.currentTerm)}
    && h' == h.(cands := h.cands[(c, nd'.currentTerm) := nd'.logs])
  }

  lemma CandidacyKeepsHistory(s: Cluster, b: Ballots, h: Books, c: nat, nd': Node, s': Cluster, b': Ballots, h': Books)
    requires HistoryInv(b, h) && Candidacy(s, b, h, c, nd', s', b', h') && NodeTraced(h, s.nodes[c])
    ensures HistoryInv(b', h')
  {
    forall t | t in h'.full
      ensures LeaderLog(h', t)
    {
      assert LeaderLog(h, t);
      TracedGrows(h, h', h.full[t]);
    }
    forall key | key in h'.cands
      ensures 1 <= key.1 && Traced(h', h'.cands[key]) && TermsBelow(h'.cands[key], key.1)
    {
      TracedGrows(h, h', h'.cands[key]);
    }
  }

  lemma CandidacyKeepsLogs(s: Cluster, b: Ballots, h: Books, c: nat, nd': Node, s': Cluster, b': Ballots, h': Books)
    requires LogsInv(s, h) && Candidacy(s, b, h, c, nd', s', b', h')
    ensures LogsInv(s', h')
  {
    forall n | 0 <= n < |s'.nodes|
      ensures NodeTraced(h', s'.nodes[n])
    {
      assert NodeTraced(h, s.nodes[n]);
      TracedGrows(h, h', s.nodes[n].logs);
    }
  }

  lemma CandidacyKeepsSafety(s: Cluster, b: Ballots, h: Books, c: nat, nd': Node, s': Cluster, b': Ballots, h': Books)
    requires Retained(s, h) && StartSafe(s, h) && VoteSafe(s, b, h)
    requires Candidacy(s, b, h, c, nd', s', b', h')
    ensures Retained(s', h') && StartSafe(s', h')
  {
    forall t, i: nat | Live(s', h', t, i)
      ensures Live(s, h, t, i)
    {
      LiveBefore(s, h, s', h', t, i);
    }
  }

  lemma CandidacyKeepsVotes(s: Cluster, b: Ballots, h: Books, c: nat, nd': Node, s': Cluster, b': Ballots, h': Books)
    requires Retained(s, h) && VoteSafe(s, b, h)
    requires Candidacy(s, b, h, c, nd', s', b', h')
    requires forall key :: key in b.votes && key.1 == nd'.currentTerm ==> b.votes[key] != c
    ensures VoteSafe(s', b', h')
  {
    var k := (c, nd'.currentTerm);
    forall v, t', t, i: nat |
      (v, t') in b'.votes && t < t' && Live(s', h', t, i) && AckOf(h', v, t) >= i && (b'.votes[(v, t')], t') in h'.cands
      ensures h'.full[t][..i] <= h'.cands[(b'.votes[(v, t')], t')]
    {
      LiveBefore(s, h, s', h', t, i);
      if (v, t') == k {
        assert h.full[t][..i] <= s.nodes[c].logs;
      } else {
        assert (v, t') in b.votes && b.votes[(v, t')] == b'.votes[(v, t')];
      }
    }
  }

  lemma SameAcks(s: Cluster, b: Ballots, h: Books, h': Books)
    requires AcksInv(s, b, h) && h'.acked == h.acked && h'.full == h.full
    ensures AcksInv(s, b, h')
  {
  }

  lemma CandidacyKeepsCore(s: Cluster, b: Ballots, h: Books, c: nat, nd': Node, s': Cluster, b': Ballots, h': Books)
    requires CoreInv(s, b, h) && Candidacy(s, b, h, c, nd', s', b', h')
    requires forall key :: key in b.votes && key.1 == nd'.currentTerm ==> b.votes[key] != c
    requires forall call :: call in s'.voteCalls ==> call in s.voteCalls || VoteCallOk(h', call)
    requires s'.appendCalls == s.appendCalls && s'.appendReplies == s.appendReplies && s'.snapCalls == {}
    ensures CoreInv(s', b', h')
  {
    assert NodeTraced(h, s.nodes[c]);
    CandidacyKeepsHistory(s, b, h, c, nd', s', b', h');
    CandidacyKeepsLogs(s, b, h, c, nd', s', b', h');
    NetworkGrows(s, h, s', h');
    QuietKeepsAcks(s, b, h, s', b');
    assert AcksInv(s', b', h') by { SameAcks(s', b', h, h'); }
    CandidacyKeepsSafety(s, b, h, c, nd', s', b', h');
    CandidacyKeepsVotes(s, b, h, c, nd', s', b', h');
  }

  // ---------------------------------------------------------------------------------------
  // Granting a vote
  // ---------------------------------------------------------------------------------------

  /** Why the up-to-date test protects live entries: a candidate log that is at least as up to
      date as a log with a live entry has that entry too. */
  lemma UpToDateHas(
      s: Cluster, b: Ballots, h: Books, mine: seq<Entry>, theirs: seq<Entry>, t: int, i: nat)
    requires HistoryInv(b, h) && StartSafe(s, h)
    requires Traced(h, mine) && Traced(h, theirs)
    requires Live(s, h, t, i) && h.full[t][..i] <= mine
    requires var (a, o) := (TermOf(mine, |mine|), TermOf(theirs, |theirs|));
             o > a || (o == a && |theirs| >= |mine|)
    ensures h.full[t][..i] <= theirs
  {
    assert LeaderLog(h, t);
    assert mine[i - 1] == h.full[t][..i][i - 1];
    TracedOrdered(b, h, mine);
    TracedLast(h, mine);
    TracedLast(h, theirs);
    var last := theirs[|theirs| - 1].term;
    assert t <= last;
    if last == t {
      assert mine[|mine| - 1].term == t;
      assert h.full[t][..i] == h.full[t][..|theirs|][..i];
    } else {
      StartedBeforeLast(h, theirs);
      assert h.full[t][..i] <= h.start[last];
      assert h.start[last] <= theirs;
    }
  }

  /** A log whose last entry is of term t extends what the leader of t started from. */
  lemma StartedBeforeLast(h: Books, log: seq<Entry>)
    requires Traced(h, log) && |log| > 0
    requires log[|log| - 1].term in h.full && LeaderLog(h, log[|log| - 1].term)
    ensures h.start[log[|log| - 1].term] <= log
  {
    TracedLast(h, log);
    var t := log[|log| - 1].term;
    assert forall i :: 0 <= i < |h.start[t]| ==> h.start[t][i] == h.full[t][i];
    assert h.full[t][..|h.start[t]|] == h.full[t][..|log|][..|h.start[t]|];
  }

  lemma GrantKeepsSafety(
      s: Cluster, b: Ballots, h: Books, v: nat, c: nat, t: int, nd': Node, s': Cluster, b': Ballots)
    requires HistoryInv(b, h) && Retained(s, h) && StartSafe(s, h) && VoteSafe(s, b, h)
    requires v < |s.nodes| && s'.nodes == s.nodes[v := nd'] && SameLog(s.nodes[v], nd')
    requires NodeTraced(h, s.nodes[v]) && Indexed(s.nodes[v])
    requires b'.votes == b.votes[(v, t) := c] && (c, t) in h.cands
    requires UpToDate(s.nodes[v], |h.cands[(c, t)]|, TermOf(h.cands[(c, t)], |h.cands[(c, t)]|))
    ensures Retained(s', h) && StartSafe(s', h) && VoteSafe(s', b', h)
  {
    forall t0, i: nat | Live(s', h, t0, i)
      ensures Live(s, h, t0, i)
    {
      LiveBefore(s, h, s', h, t0, i);
    }
    forall t0, i: nat | t0 < t && Live(s', h, t0, i) && AckOf(h, v, t0) >= i
      ensures h.full[t0][..i] <= h.cands[(c, t)]
    {
      UpToDateHas(s, b, h, s.nodes[v].logs, h.cands[(c, t)], t0, i);
    }
  }

  lemma NodeIsTraced(s: Cluster, b: Ballots, h: Books, v: nat)
    requires CoreInv(s, b, h) && v < |s.nodes|
    ensures NodeTraced(h, s.nodes[v])
  {
  }

  lemma GrantKeepsCore(
      s: Cluster, b: Ballots, h: Books, v: nat, c: nat, t: int, nd': Node, s': Cluster, b': Ballots)
    requires TalliesBacked(s, b) && CoreInv(s, b, h)
    requires v < |s.nodes| && s'.nodes == s.nodes[v := nd'] && SameLog(s.nodes[v], nd')
    requires Indexed(s.nodes[v]) && (c, t) in h.cands
    requires UpToDate(s.nodes[v], |h.cands[(c, t)]|, TermOf(h.cands[(c, t)], |h.cands[(c, t)]|))
    requires b' == b.(votes := b.votes[(v, t) := c])
    requires s'.voteCalls == s.voteCalls && s'.snapCalls == {}
    requires s'.appendCalls == s.appendCalls && s'.appendReplies == s.appendReplies
    ensures CoreInv(s', b', h)
  {
    hide TalliesBacked, LogsInv, NetworkInv, AcksInv, Retained, StartSafe, VoteSafe, HistoryInv, UpToDate, Indexed;
    NodeIsTraced(s, b, h, v);
    QuietKeepsLogs(s, b, h, s');
    GrantKeepsSafety(s, b, h, v, c, t, nd', s', b');
    NetworkGrows(s, h, s', h);
    SameElectionsKeepHistory(b, h, b');
    QuietKeepsAcks(s, b, h, s', b');
  }

  // ---------------------------------------------------------------------------------------
  // Winning
  // ---------------------------------------------------------------------------------------

  /** s', b', h' are s, b, h after node c has won term t, with state nd'. */
  ghost predicate Victory(s: Cluster, b: Ballots, h: Books, c: nat, nd': Node, s': Cluster, b': Ballots, h': Books) {
    var t := nd'.currentTerm;
    && c < |s.nodes| && s'.nodes == s.nodes[c := nd']
    && nd'.logs == s.nodes[c].logs && nd'.snapIndex == s.nodes[c].snapIndex && nd'.snapTerm == s.nodes[c].snapTerm
    && t == s.nodes[c].currentTerm && (c, t) in h.cands && t !in h.full
    && b'.votes == b.votes && b'.elected == b.elected[t := c] && b'.tally.Keys == b.tally.Keys
    && h' == h.(start := h.start[t := nd'.logs], full := h.full[t := nd'.logs],
                acked := h.acked[(c, t) := |nd'.logs|])
  }

  lemma VictoryKeepsHistory(s: Cluster, b: Ballots, h: Books, c: nat, nd': Node, s': Cluster, b': Ballots, h': Books)
    requires HistoryInv(b, h) && LogsInv(s, h) && Victory(s, b, h, c, nd', s', b', h')
    ensures HistoryInv(b', h')
  {
    var t := nd'.currentTerm;
    assert nd'.logs == h.cands[(c, t)];
    assert NodeTraced(h, s.nodes[c]);
    forall t0 | t0 in h'.full
      ensures LeaderLog(h', t0)
    {
      if t0 != t {
        assert LeaderLog(h, t0);
        TracedGrows(h, h', h.full[t0]);
      } else {
        TracedGrows(h, h', nd'.logs);
        TracedOrdered(b, h, nd'.logs);
      }
    }
    forall key | key in h'.cands
      ensures 1 <= key.1 && Traced(h', h'.cands[key]) && TermsBelow(h'.cands[key], key.1)
    {
      TracedGrows(h, h', h'.cands[key]);
    }
  }

  lemma VictoryKeepsLogs(s: Cluster, b: Ballots, h: Books, c: nat, nd': Node, s': Cluster, b': Ballots, h': Books)
    requires LogsInv(s, h) && Victory(s, b, h, c, nd', s', b', h')
    ensures LogsInv(s', h')
  {
    forall n | 0 <= n < |s'.nodes|
      ensures NodeTraced(h', s'.nodes[n])
    {
      assert NodeTraced(h, s.nodes[n]);
      TracedGrows(h, h', s.nodes[n].logs);
    }
  }

  lemma VictoryKeepsAcks(s: Cluster, b: Ballots, h: Books, c: nat, nd': Node, s': Cluster, b': Ballots, h': Books)
    requires AcksInv(s, b, h) && h.full.Keys == b.elected.Keys && Victory(s, b, h, c, nd', s', b', h')
    requires s'.appendReplies == s.appendReplies
    ensures AcksInv(s', b', h')
  {
    AcksGrow(s, h, (c, nd'.currentTerm), |nd'.logs|, s', h');
    forall t | t in h'.full && t in b'.elected
      ensures AckOf(h', b'.elected[t], t) == |h'.full[t]|
    {
      if t != nd'.currentTerm {
        assert AckOf(h, b.elected[t], t) == |h.full[t]|;
      }
    }
  }

  /** One acknowledgement moves up, within its leader's log. */
  lemma AcksGrow(s: Cluster, h: Books, key: (nat, int), len: nat, s': Cluster, h': Books)
    requires AcksBounded(s, h) && RepliesAcked(s, h)
    requires |s'.nodes| == |s.nodes|
    requires forall n :: 0 <= n < |s.nodes| ==> s.nodes[n].currentTerm <= s'.nodes[n].currentTerm
    requires FullGrows(h, h')
    requires h'.acked == h.acked[key := len] && AckOf(h, key.0, key.1) <= len
    requires key.0 < |s.nodes| && key.1 <= s'.nodes[key.0].currentTerm
    requires key.1 in h'.full && len <= |h'.full[key.1]|
    requires forall r :: r in s'.appendReplies && r.1.success ==>
               r in s.appendReplies || AckOf(h', r.0.to, r.0.args.term) >= r.0.args.End()
    ensures AcksBounded(s', h') && RepliesAcked(s', h')
  {
    forall k | k in h'.acked
      ensures k.0 < |s'.nodes| && k.1 <= s'.nodes[k.0].currentTerm
      ensures k.1 in h'.full && h'.acked[k] <= |h'.full[k.1]|
    {
      if k != key {
        assert k in h.acked;
        assert h.full[k.1] <= h'.full[k.1];
      }
    }
    forall r | r in s'.appendReplies && r.1.success
      ensures AckOf(h', r.0.to, r.0.args.term) >= r.0.args.End()
    {
      if r in s.appendReplies {
        assert AckOf(h, r.0.to, r.0.args.term) >= r.0.args.End();
      }
    }
  }

  lemma VictoryProgress(s: Cluster, b: Ballots, h: Books, c: nat, nd': Node, s': Cluster, b': Ballots, h': Books)
    requires AcksInv(s, b, h) && Victory(s, b, h, c, nd', s', b', h')
    requires TermsBelow(nd'.logs, nd'.currentTerm)
    ensures Progress(s, h, s', h') && LiveBack(s, h, s', h')
    ensures forall t, i: nat :: Own(h', t, i) ==> t != nd'.currentTerm
  {
    assert (c, nd'.currentTerm) !in h.acked;
    forall t, i: nat | Own(h', t, i)
      ensures t != nd'.currentTerm && Own(h, t, i)
    {
      assert forall j :: 0 <= j < |nd'.logs| ==> h'.full[nd'.currentTerm][j].term < nd'.currentTerm;
    }
    LiveAllBefore(s, h, s', h');
  }

  /** The heart of leader completeness: a majority of voters cannot all have missed a live entry. */
  lemma VictorHasLive(s: Cluster, b: Ballots, h: Books, c: nat, t: int, q: set<nat>, t0: int, i: nat)
    requires VotesRecorded(s, b) && VoteSafe(s, b, h)
    requires |q| >= Majority(|s.nodes|) && (c, t) in h.cands
    requires forall v :: v in q ==> v < |s.nodes| && (v, t) in b.votes && b.votes[(v, t)] == c
    requires t0 < t && Live(s, h, t0, i)
    ensures h.full[t0][..i] <= h.cands[(c, t)]
  {
    if forall v :: v in q ==> AckOf(h, v, t0) < i {
      assert q <= LostTo(s, h, t0, i);
      SubsetSize(q, LostTo(s, h, t0, i));
      assert false;
    }
    var v :| v in q && AckOf(h, v, t0) >= i;
  }

  lemma VictoryKeepsStarts(
      s: Cluster, b: Ballots, h: Books, c: nat, nd': Node, q: set<nat>, s': Cluster, b': Ballots, h': Books)
    requires StartSafe(s, h) && VoteSafe(s, b, h) && VotesRecorded(s, b) && Victory(s, b, h, c, nd', s', b', h')
    requires LiveBack(s, h, s', h') && nd'.logs == h.cands[(c, nd'.currentTerm)]
    requires |q| >= Majority(|s.nodes|)
    requires forall v :: v in q ==>
               v < |s.nodes| && (v, nd'.currentTerm) in b.votes && b.votes[(v, nd'.currentTerm)] == c
    ensures StartSafe(s', h')
  {
    var t := nd'.currentTerm;
    forall t0, t', i: nat | t' in h'.start && t0 < t' && Live(s', h', t0, i)
      ensures h'.full[t0][..i] <= h'.start[t']
    {
      assert Live(s, h, t0, i);
      if t' == t {
        VictorHasLive(s, b, h, c, t, q, t0, i);
      } else {
        assert h.full[t0][..i] <= h.start[t'];
      }
    }
  }

  lemma VictoryKeepsRetained(s: Cluster, b: Ballots, h: Books, c: nat, nd': Node, s': Cluster, b': Ballots, h': Books)
    requires Retained(s, h) && Victory(s, b, h, c, nd', s', b', h') && LiveBack(s, h, s', h')
    requires forall t, i: nat :: Own(h', t, i) ==> t != nd'.currentTerm
    ensures Retained(s', h')
  {
    forall n, t, i: nat | 0 <= n < |s'.nodes| && Live(s', h', t, i) && AckOf(h', n, t) >= i
      ensures h'.full[t][..i] <= s'.nodes[n].logs
    {
      assert Own(h', t, i);
      assert AckOf(h', n, t) == AckOf(h, n, t);
      assert h.full[t][..i] <= s.nodes[n].logs;
    }
  }

  /** Votes already cast stay safe through steps that add no candidate and no vote. */
  lemma VotesStaySafe(s: Cluster, b: Ballots, h: Books, s': Cluster, b': Ballots, h': Books)
    requires VoteSafe(s, b, h) && VotesRecorded(s, b)
    requires Progress(s, h, s', h') && LiveBack(s, h, s', h')
    requires b'.votes == b.votes && h'.cands == h.cands
    ensures VoteSafe(s', b', h')
  {
    forall v, t', t, i: nat |
      (v, t') in b'.votes && t < t' && Live(s', h', t, i) && AckOf(h', v, t) >= i && (b'.votes[(v, t')], t') in h'.cands
      ensures h'.full[t][..i] <= h'.cands[(b'.votes[(v, t')], t')]
    {
      assert Live(s, h, t, i);
      assert AckOf(h', v, t) == AckOf(h, v, t);
    }
  }

  lemma VictoryKeepsCore(
      s: Cluster, b: Ballots, h: Books, c: nat, nd': Node, q: set<nat>, s': Cluster, b': Ballots, h': Books)
    requires CoreInv(s, b, h) && VotesRecorded(s, b) && Victory(s, b, h, c, nd', s', b', h')
    requires |q| >= Majority(|s.nodes|)
    requires forall v :: v in q ==>
               v < |s.nodes| && (v, nd'.currentTerm) in b.votes && b.votes[(v, nd'.currentTerm)] == c
    requires s'.voteCalls == s.voteCalls && s'.snapCalls == {}
    requires s'.appendCalls == s.appendCalls && s'.appendReplies == s.appendReplies
    ensures CoreInv(s', b', h')
  {
    assert nd'.logs == h.cands[(c, nd'.currentTerm)];
    VictoryProgress(s, b, h, c, nd', s', b', h');
    VictoryKeepsHistory(s, b, h, c, nd', s', b', h');
    VictoryKeepsLogs(s, b, h, c, nd', s', b', h');
    VictoryKeepsAcks(s, b, h, c, nd', s', b', h');
    NetworkGrows(s, h, s', h');
    VictoryKeepsStarts(s, b, h, c, nd', q, s', b', h');
    VictoryKeepsRetained(s, b, h, c, nd', s', b', h');
    VotesStaySafe(s, b, h, s', b', h');
  }

  // ---------------------------------------------------------------------------------------
  // A leader appends
  // ---------------------------------------------------------------------------------------

  /** s', h' are s, h after leader c has appended e to its log, with state nd'. */
  ghost predicate Extension(s: Cluster, b: Ballots, h: Books, c: nat, e: Entry, nd': Node, s': Cluster, h': Books) {
    var t := nd'.currentTerm;
    && c < |s.nodes| && s'.nodes == s.nodes[c := nd']
    && s.nodes[c].status.Leader? && nd'.status.Leader? && t == s.nodes[c].currentTerm
    && nd'.snapIndex == s.nodes[c].snapIndex && nd'.snapTerm == s.nodes[c].snapTerm
    && t in h.full && s.nodes[c].logs == h.full[t] && t in b.elected && b.elected[t] == c
    && nd'.logs == h.full[t] + [e] && e.term == t
    && h' == h.(full := h.full[t := nd'.logs], acked := h.acked[(c, t) := |nd'.logs|])
  }

  lemma ExtensionKeepsHistory(
      s: Cluster, b: Ballots, h: Books, c: nat, e: Entry, nd': Node, s': Cluster, h': Books)
    requires HistoryInv(b, h) && Extension(s, b, h, c, e, nd', s', h')
    ensures HistoryInv(b, h')
  {
    var t := nd'.currentTerm;
    assert LeaderLog(h, t);
    forall t0 | t0 in h'.full
      ensures LeaderLog(h', t0)
    {
      assert LeaderLog(h, t0);
      TracedGrows(h, h', h.full[t0]);
      if t0 == t {
        ExtensionKeepsLeaderLog(h, h', t, e);
      }
    }
    forall key | key in h'.cands
      ensures 1 <= key.1 && Traced(h', h'.cands[key]) && TermsBelow(h'.cands[key], key.1)
    {
      TracedGrows(h, h', h'.cands[key]);
    }
  }

  lemma ExtensionKeepsLeaderLog(h: Books, h': Books, t: int, e: Entry)
    requires t in h.full && LeaderLog(h, t) && Traced(h', h.full[t])
    requires e.term == t && h'.start == h.start && h'.full == h.full[t := h.full[t] + [e]]
    ensures LeaderLog(h', t)
  {
    var log := h.full[t] + [e];
    forall i | 0 <= i < |log|
      ensures TracedAt(h', log, i) && log[i].term <= t
    {
      if i < |h.full[t]| {
        assert TracedAt(h', h.full[t], i);
        assert log[..i + 1] == h.full[t][..i + 1];
      }
    }
  }

  lemma ExtensionProgress(s: Cluster, b: Ballots, h: Books, c: nat, e: Entry, nd': Node, s': Cluster, h': Books)
    requires AcksBounded(s, h) && Extension(s, b, h, c, e, nd', s', h')
    ensures Progress(s, h, s', h')
    ensures AckOf(h, c, nd'.currentTerm) <= |h.full[nd'.currentTerm]|
  {
  }

  lemma ExtensionKeepsLogs(s: Cluster, b: Ballots, h: Books, c: nat, e: Entry, nd': Node, s': Cluster, h': Books)
    requires LogsInv(s, h) && LeadersElected(s, b) && Extension(s, b, h, c, e, nd', s', h')
    requires Traced(h', nd'.logs) && FullGrows(h, h')
    ensures LogsInv(s', h')
  {
    forall n | 0 <= n < |s'.nodes|
      ensures NodeTraced(h', s'.nodes[n])
    {
      assert NodeTraced(h, s.nodes[n]);
      TracedGrows(h, h', s.nodes[n].logs);
    }
    forall n | 0 <= n < |s'.nodes| && s'.nodes[n].status.Leader?
      ensures s'.nodes[n].currentTerm in h'.full && s'.nodes[n].logs == h'.full[s'.nodes[n].currentTerm]
    {
      if n != c {
        assert b.elected[s.nodes[n].currentTerm] == n;
      }
    }
  }

  lemma ExtensionKeepsAcks(s: Cluster, b: Ballots, h: Books, c: nat, e: Entry, nd': Node, s': Cluster, h': Books)
    requires AcksInv(s, b, h) && Extension(s, b, h, c, e, nd', s', h')
    requires FullGrows(h, h') && s'.appendReplies == s.appendReplies
    ensures AcksInv(s', b, h')
  {
    AcksGrow(s, h, (c, nd'.currentTerm), |nd'.logs|, s', h');
    forall t | t in h'.full && t in b.elected
      ensures AckOf(h', b.elected[t], t) == |h'.full[t]|
    {
      assert AckOf(h, b.elected[t], t) == |h.full[t]|;
    }
  }

  /** The appended entry is not yet accepted by anyone else, and no later leader can have missed
      it: all its voters had moved on to a later term, so that entry is dead if there is one. */
  lemma NewEntryOnlyMine(s: Cluster, b: Ballots, h: Books, c: nat, e: Entry, nd': Node, s': Cluster, h': Books, n: nat)
    requires AcksBounded(s, h) && Extension(s, b, h, c, e, nd', s', h')
    ensures AckOf(h', n, nd'.currentTerm) >= |nd'.logs| ==> n == c
  {
  }

  lemma OthersAcks(
      s: Cluster, b: Ballots, h: Books, c: nat, e: Entry, nd': Node, s': Cluster, h': Books, n: nat, t: int)
    requires Extension(s, b, h, c, e, nd', s', h')
    ensures n != c || t != nd'.currentTerm ==> AckOf(h', n, t) == AckOf(h, n, t)
  {
  }

  lemma NewEntryDead(
      s: Cluster, b: Ballots, h: Books, c: nat, e: Entry, nd': Node, s': Cluster, h': Books, t': int)
    requires AcksBounded(s, h) && Extension(s, b, h, c, e, nd', s', h')
    requires VotesRecorded(s, b) && TalliesBacked(s, b) && WinnersBacked(s, b)
    requires t' in b.elected && nd'.currentTerm < t'
    ensures !Live(s', h', nd'.currentTerm, |nd'.logs|)
  {
    var t, w := nd'.currentTerm, b.elected[t'];
    var q := b.tally[(w, t')];
    assert TallyBacked(s, b, w, t');
    forall v | v in q
      ensures v in LostTo(s', h', t, |nd'.logs|)
    {
      assert (v, t') in b.votes && s.nodes[v].currentTerm >= t';
      if AckOf(h', v, t) >= |nd'.logs| {
        NewEntryOnlyMine(s, b, h, c, e, nd', s', h', v);
      }
    }
    SubsetSize(q, LostTo(s', h', t, |nd'.logs|));
  }

  lemma ExtensionOwn(
      s: Cluster, b: Ballots, h: Books, c: nat, e: Entry, nd': Node, s': Cluster, h': Books, t: int, i: nat)
    requires AcksBounded(s, h) && Extension(s, b, h, c, e, nd', s', h')
    requires Live(s', h', t, i)
    ensures || (t == nd'.currentTerm && i == |nd'.logs|)
            || (Live(s, h, t, i) && h'.full[t][..i] == h.full[t][..i])
  {
    ExtensionProgress(s, b, h, c, e, nd', s', h');
    if !(t == nd'.currentTerm && i == |nd'.logs|) {
      assert Own(h, t, i) by {
        if t == nd'.currentTerm {
          assert h'.full[t][i - 1] == h.full[t][i - 1];
        }
      }
      LiveBefore(s, h, s', h', t, i);
    }
  }

  lemma ExtensionKeepsRetained(s: Cluster, b: Ballots, h: Books, c: nat, e: Entry, nd': Node, s': Cluster, h': Books)
    requires Retained(s, h) && AcksBounded(s, h) && Extension(s, b, h, c, e, nd', s', h')
    ensures Retained(s', h')
  {
    forall n, t, i: nat | 0 <= n < |s'.nodes| && Live(s', h', t, i) && AckOf(h', n, t) >= i
      ensures h'.full[t][..i] <= s'.nodes[n].logs
    {
      ExtensionOwn(s, b, h, c, e, nd', s', h', t, i);
      if t == nd'.currentTerm && i == |nd'.logs| {
        NewEntryOnlyMine(s, b, h, c, e, nd', s', h', n);
      } else if n == c && t == nd'.currentTerm {
        assert nd'.logs == h'.full[t];
      } else {
        assert AckOf(h', n, t) == AckOf(h, n, t);
        assert h.full[t][..i] <= s.nodes[n].logs;
        assert s.nodes[n].logs <= s'.nodes[n].logs;
      }
    }
  }

  lemma ExtensionKeepsStarts(s: Cluster, b: Ballots, h: Books, c: nat, e: Entry, nd': Node, s': Cluster, h': Books)
    requires StartSafe(s, h) && AcksBounded(s, h) && Extension(s, b, h, c, e, nd', s', h')
    requires VotesRecorded(s, b) && TalliesBacked(s, b) && WinnersBacked(s, b)
    requires h.start.Keys == b.elected.Keys
    ensures StartSafe(s', h')
  {
    forall t, t', i: nat | t' in h'.start && t < t' && Live(s', h', t, i)
      ensures h'.full[t][..i] <= h'.start[t']
    {
      ExtensionOwn(s, b, h, c, e, nd', s', h', t, i);
      if t == nd'.currentTerm && i == |nd'.logs| {
        NewEntryDead(s, b, h, c, e, nd', s', h', t');
      }
    }
  }

  lemma ExtensionKeepsVotes(s: Cluster, b: Ballots, h: Books, c: nat, e: Entry, nd': Node, s': Cluster, h': Books)
    requires VoteSafe(s, b, h) && AcksBounded(s, h) && Extension(s, b, h, c, e, nd', s', h')
    requires VotesRecorded(s, b)
    ensures VoteSafe(s', b, h')
  {
    forall v, t', t, i: nat |
      (v, t') in b.votes && t < t' && Live(s', h', t, i) && AckOf(h', v, t) >= i && (b.votes[(v, t')], t') in h'.cands
      ensures h'.full[t][..i] <= h'.cands[(b.votes[(v, t')], t')]
    {
      ExtensionOwn(s, b, h, c, e, nd', s', h', t, i);
      assert s.nodes[v].currentTerm >= t';
      NewEntryOnlyMine(s, b, h, c, e, nd', s', h', v);
      OthersAcks(s, b, h, c, e, nd', s', h', v, t);
    }
  }

  lemma ExtensionKeepsCore(s: Cluster, b: Ballots, h: Books, c: nat, e: Entry, nd': Node, s': Cluster, h': Books)
    requires BallotInv(s, b) && CoreInv(s, b, h) && Extension(s, b, h, c, e, nd', s', h')
    requires s'.voteCalls == s.voteCalls && s'.snapCalls == {}
    requires s'.appendCalls == s.appendCalls && s'.appendReplies == s.appendReplies
    ensures CoreInv(s', b, h')
  {
    ExtensionProgress(s, b, h, c, e, nd', s', h');
    ExtensionKeepsHistory(s, b, h, c, e, nd', s', h');
    assert LeaderLog(h', nd'.currentTerm);
    ExtensionKeepsLogs(s, b, h, c, e, nd', s', h');
    NetworkGrows(s, h, s', h');
    ExtensionKeepsAcks(s, b, h, c, e, nd', s', h');
    ExtensionKeepsRetained(s, b, h, c, e, nd', s', h');
    ExtensionKeepsStarts(s, b, h, c, e, nd', s', h');
    ExtensionKeepsVotes(s, b, h, c, e, nd', s', h');
  }

  // ---------------------------------------------------------------------------------------
  // A follower accepts a message
  // ---------------------------------------------------------------------------------------

  /** What the truncating merge does to a log that agrees with a leader's log g up to p: it keeps
      the log if g[..end] is already in it, and otherwise makes it exactly g[..end].  Either way
      it keeps every prefix on which the two already agreed. */
  lemma {:induction false} TruncatingOutcome(h: Books, log: seq<Entry>, g: seq<Entry>, p: nat, end: nat)
    requires Traced(h, log) && Traced(h, g)
    requires p <= |log| && p <= end <= |g| && log[..p] == g[..p]
    ensures var r := MergeTruncating(log, p, g[p..end]);
            && end <= |r| && r[..end] == g[..end]
            && (r == log || r == g[..end])
            && forall i :: 0 <= i <= |log| && i <= |g| && log[..i] == g[..i] ==> i <= |r| && r[..i] == log[..i]
    decreases end - p
  {
    var entries := g[p..end];
    if p == end {
    } else if p == |log| {
      assert log + entries == g[..end];
    } else if log[p].term != entries[0].term {
      assert log[..p] + entries == g[..end];
      forall i | p < i <= |log| && i <= |g|
        ensures log[..i] != g[..i]
      {
        assert log[..i][p] == log[p] && g[..i][p] == g[p];
      }
    } else {
      TracedAgree(h, log, g, p);
      assert entries[1..] == g[p + 1..end];
      TruncatingOutcome(h, log, g, p + 1, end);
    }
  }

  /** s', h' are s, h after node v has accepted message a, which gave it state nd'. */
  ghost predicate Acceptance(
      s: Cluster, b: Ballots, h: Books, v: nat, a: AppendArgs, nd': Node, s': Cluster, h': Books)
  {
    && v < |s.nodes| && s'.nodes == s.nodes[v := nd']
    && MessageOk(h, a) && 0 <= a.prevLogIndex <= |s.nodes[v].logs|
    && TermOf(s.nodes[v].logs, a.prevLogIndex) == a.prevLogTerm
    && s.nodes[v].currentTerm <= a.term == nd'.currentTerm && !nd'.status.Leader?
    && nd'.snapIndex == s.nodes[v].snapIndex && nd'.snapTerm == s.nodes[v].snapTerm
    && nd'.logs == MergeTruncating(s.nodes[v].logs, a.prevLogIndex, a.entries)
    && h' == h.(acked := h.acked[(v, a.term) := Max(AckOf(h, v, a.term), a.End())])
  }

  lemma AcceptedLog(s: Cluster, b: Ballots, h: Books, v: nat, a: AppendArgs, nd': Node, s': Cluster, h': Books)
    requires HistoryInv(b, h) && LogsInv(s, h) && Acceptance(s, b, h, v, a, nd', s', h')
    ensures var log, g, r := s.nodes[v].logs, h.full[a.term], nd'.logs;
            && a.End() <= |r| && r[..a.End()] == g[..a.End()]
            && Traced(h, r)
            && (r == log || r == g[..a.End()])
            && forall i :: 0 <= i <= |log| && i <= |g| && log[..i] == g[..i] ==> i <= |r| && r[..i] == log[..i]
  {
    var log, g, p := s.nodes[v].logs, h.full[a.term], a.prevLogIndex;
    assert NodeTraced(h, s.nodes[v]) && LeaderLog(h, a.term);
    if p > 0 {
      TracedAgree(h, log, g, p - 1);
    }
    TruncatingOutcome(h, log, g, p, a.End());
    TracedPrefix(h, g, a.End());
  }

  lemma AcceptanceKeepsLogs(s: Cluster, b: Ballots, h: Books, v: nat, a: AppendArgs, nd': Node, s': Cluster, h': Books)
    requires HistoryInv(b, h) && LogsInv(s, h) && Acceptance(s, b, h, v, a, nd', s', h')
    ensures LogsInv(s', h')
  {
    AcceptedLog(s, b, h, v, a, nd', s', h');
    assert LeaderLog(h, a.term);
    forall n | 0 <= n < |s'.nodes|
      ensures NodeTraced(h', s'.nodes[n])
    {
      assert NodeTraced(h, s.nodes[n]);
      TracedGrows(h, h', s'.nodes[n].logs);
      if n == v {
        assert forall i :: 0 <= i < |h.full[a.term]| ==> h.full[a.term][i].term <= a.term;
      }
    }
  }

  lemma AcceptanceProgress(s: Cluster, b: Ballots, h: Books, v: nat, a: AppendArgs, nd': Node, s': Cluster, h': Books)
    requires Acceptance(s, b, h, v, a, nd', s', h')
    ensures Progress(s, h, s', h') && LiveBack(s, h, s', h')
  {
    forall t, i: nat | Own(h', t, i)
      ensures Own(h, t, i)
    {
    }
    LiveAllBefore(s, h, s', h');
  }

  lemma AcceptanceKeepsAcks(s: Cluster, b: Ballots, h: Books, v: nat, a: AppendArgs, nd': Node, s': Cluster, h': Books)
    requires AcksInv(s, b, h) && Acceptance(s, b, h, v, a, nd', s', h')
    requires a.term in b.elected && b.elected[a.term] != v
    requires forall r :: r in s'.appendReplies && r.1.success ==>
               r in s.appendReplies || (r.0.to == v && r.0.args == a)
    ensures AcksInv(s', b, h')
  {
    AcksGrow(s, h, (v, a.term), Max(AckOf(h, v, a.term), a.End()), s', h');
    forall t | t in h'.full && t in b.elected
      ensures AckOf(h', b.elected[t], t) == |h'.full[t]|
    {
      assert AckOf(h, b.elected[t], t) == |h.full[t]|;
    }
  }

  /** The leader of t has every live entry of terms up to t that a follower accepted. */
  lemma LeaderHasLive(s: Cluster, b: Ballots, h: Books, t: int, t0: int, i: nat)
    requires HistoryInv(b, h) && StartSafe(s, h)
    requires t in h.full && t0 <= t && Live(s, h, t0, i)
    ensures h.full[t0][..i] <= h.full[t]
  {
    assert LeaderLog(h, t);
    if t0 < t {
      assert h.full[t0][..i] <= h.start[t] <= h.full[t];
    }
  }

  lemma AcceptedKeepsOld(
      s: Cluster, b: Ballots, h: Books, v: nat, a: AppendArgs, nd': Node, s': Cluster, h': Books, t: int, i: nat)
    requires HistoryInv(b, h) && LogsInv(s, h) && StartSafe(s, h)
    requires Acceptance(s, b, h, v, a, nd', s', h')
    requires Live(s, h, t, i) && t <= a.term && h.full[t][..i] <= s.nodes[v].logs
    ensures h.full[t][..i] <= nd'.logs
  {
    AcceptedLog(s, b, h, v, a, nd', s', h');
    LeaderHasLive(s, b, h, a.term, t, i);
    KeepsAgreement(h.full[t][..i], s.nodes[v].logs, h.full[a.term], nd'.logs);
  }

  lemma AcceptedKeepsNew(
      s: Cluster, b: Ballots, h: Books, v: nat, a: AppendArgs, nd': Node, s': Cluster, h': Books, i: nat)
    requires HistoryInv(b, h) && LogsInv(s, h)
    requires Acceptance(s, b, h, v, a, nd', s', h')
    requires i <= a.End()
    ensures h.full[a.term][..i] <= nd'.logs
  {
    AcceptedLog(s, b, h, v, a, nd', s', h');
    assert nd'.logs[..i] == nd'.logs[..a.End()][..i];
    assert h.full[a.term][..i] == h.full[a.term][..a.End()][..i];
  }

  lemma AcceptanceRetains(
      s: Cluster, b: Ballots, h: Books, v: nat, a: AppendArgs, nd': Node, s': Cluster, h': Books,
      n: nat, t: int, i: nat)
    requires HistoryInv(b, h) && LogsInv(s, h) && AcksBounded(s, h) && StartSafe(s, h)
    requires Acceptance(s, b, h, v, a, nd', s', h') && n < |s.nodes|
    requires Live(s, h, t, i) && AckOf(h', n, t) >= i
    requires AckOf(h, n, t) >= i ==> h.full[t][..i] <= s.nodes[n].logs
    ensures h.full[t][..i] <= s'.nodes[n].logs
  {
    if AckOf(h, n, t) < i {
      AcceptedKeepsNew(s, b, h, v, a, nd', s', h', i);
    } else if n == v {
      assert (n, t) in h.acked;
      AcceptedKeepsOld(s, b, h, v, a, nd', s', h', t, i);
    }
  }

  lemma LiveIsOwn(s: Cluster, h: Books)
    ensures forall t, i: nat :: Live(s, h, t, i) ==> t in h.full && i <= |h.full[t]|
  {
  }

  lemma AcceptanceKeepsRetained(
      s: Cluster, b: Ballots, h: Books, v: nat, a: AppendArgs, nd': Node, s': Cluster, h': Books)
    requires HistoryInv(b, h) && LogsInv(s, h) && AcksBounded(s, h) && StartSafe(s, h) && Retained(s, h)
    requires Acceptance(s, b, h, v, a, nd', s', h') && LiveBack(s, h, s', h')
    ensures Retained(s', h')
  {
    hide HistoryInv, LogsInv, AcksBounded, StartSafe, Live, AckOf;
    assert forall t, i: nat :: Live(s', h', t, i) ==> Live(s, h, t, i) && t in h'.full && i <= |h'.full[t]| by {
      LiveIsOwn(s', h');
    }
    forall n, t, i: nat | 0 <= n < |s'.nodes| && Live(s', h', t, i) && AckOf(h', n, t) >= i
      ensures h'.full[t][..i] <= s'.nodes[n].logs
    {
      AcceptanceRetains(s, b, h, v, a, nd', s', h', n, t, i);
    }
  }

  lemma KeepsAgreement(p: seq<Entry>, log: seq<Entry>, g: seq<Entry>, r: seq<Entry>)
    requires p <= log && p <= g
    requires forall i :: 0 <= i <= |log| && i <= |g| && log[..i] == g[..i] ==> i <= |r| && r[..i] == log[..i]
    ensures p <= r
  {
    assert log[..|p|] == g[..|p|];
  }

  lemma AcceptanceKeepsStarts(
      s: Cluster, b: Ballots, h: Books, v: nat, a: AppendArgs, nd': Node, s': Cluster, h': Books)
    requires StartSafe(s, h) && Acceptance(s, b, h, v, a, nd', s', h') && LiveBack(s, h, s', h')
    ensures StartSafe(s', h')
  {
  }

  lemma SameCandsKeepHistory(b: Ballots, h: Books, h': Books)
    requires HistoryInv(b, h) && h'.cands == h.cands && h'.start == h.start && h'.full == h.full
    ensures HistoryInv(b, h')
  {
    forall t | t in h'.full
      ensures LeaderLog(h', t)
    {
      assert LeaderLog(h, t);
      TracedGrows(h, h', h.full[t]);
    }
    forall key | key in h'.cands
      ensures Traced(h', h'.cands[key])
    {
      TracedGrows(h, h', h'.cands[key]);
    }
  }

  lemma AcceptanceKeepsCore(s: Cluster, b: Ballots, h: Books, v: nat, a: AppendArgs, nd': Node, s': Cluster, h': Books)
    requires VotesRecorded(s, b) && CoreInv(s, b, h) && Acceptance(s, b, h, v, a, nd', s', h')
    requires a.term in b.elected && b.elected[a.term] != v
    requires s'.voteCalls == s.voteCalls && s'.snapCalls == {} && s'.appendCalls == s.appendCalls
    requires forall r :: r in s'.appendReplies && r.1.success ==>
               r in s.appendReplies || (r.0.to == v && r.0.args == a)
    ensures CoreInv(s', b, h')
  {
    AcceptanceProgress(s, b, h, v, a, nd', s', h');
    SameCandsKeepHistory(b, h, h');
    AcceptanceKeepsLogs(s, b, h, v, a, nd', s', h');
    NetworkGrows(s, h, s', h');
    AcceptanceKeepsAcks(s, b, h, v, a, nd', s', h');
    AcceptanceKeepsRetained(s, b, h, v, a, nd', s', h');
    AcceptanceKeepsStarts(s, b, h, v, a, nd', s', h');
    VotesStaySafe(s, b, h, s', b, h');
  }
}