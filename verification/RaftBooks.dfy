/** The history behind Raft's log safety: what every leader's log has been, and how far every node
    has confirmed it.  The central notion is `Live`: an own-term entry of a leader that a majority
    may still acknowledge.  Everything a later leader starts from contains every live entry. */
module RaftBooks {
  import opened RaftTypes
  import opened RaftCluster
  import opened RaftElection
  import opened Quorums

  /** `cands`: the log of each candidate when it stood, by (node, term).  `start` and `full`: the log
      of each term's leader when it won, and with everything it has appended since.  `acked`: how much
      of a term's log a node has accepted, by (node, term). */
  datatype Books = Books(
    cands: map<(nat, int), seq<Entry>>,
    start: map<int, seq<Entry>>,
    full: map<int, seq<Entry>>,
    acked: map<(nat, int), nat>)

  const NO_BOOKS := Books(map[], map[], map[], map[])

  function TermOf(log: seq<Entry>, i: int): int
    requires 0 <= i <= |log|
  {
    if i == 0 then 0 else log[i - 1].term
  }

  function AckOf(h: Books, n: nat, t: int): nat {
    if (n, t) in h.acked then h.acked[(n, t)] else 0
  }

  // ---------------------------------------------------------------------------------------
  // Logs are prefixes of leaders' logs
  // ---------------------------------------------------------------------------------------

  ghost predicate TracedAt(h: Books, log: seq<Entry>, i: nat)
    requires i < |log|
  {
    && log[i].term in h.full
    && i < |h.full[log[i].term]|
    && log[..i + 1] == h.full[log[i].term][..i + 1]
  }

  /** Up to each of its entries, the log equals the log of the leader of that entry's term. */
  ghost predicate Traced(h: Books, log: seq<Entry>) {
    forall i :: 0 <= i < |log| ==> TracedAt(h, log, i)
  }

  ghost predicate Ordered(log: seq<Entry>) {
    forall i, j :: 0 <= i <= j < |log| ==> log[i].term <= log[j].term
  }

  ghost predicate TermsBelow(log: seq<Entry>, t: int) {
    forall i :: 0 <= i < |log| ==> log[i].term < t
  }

  /** The leader of t started from entries of earlier terms and appended entries of term t. */
  ghost predicate LeaderLog(h: Books, t: int)
    requires t in h.full
  {
    && 1 <= t && t in h.start
    && h.start[t] <= h.full[t]
    && Traced(h, h.full[t])
    && Ordered(h.full[t])
    && TermsBelow(h.start[t], t)
    && forall i :: |h.start[t]| <= i < |h.full[t]| ==> h.full[t][i].term == t
  }

  ghost predicate HistoryInv(b: Ballots, h: Books) {
    && h.full.Keys == b.elected.Keys && h.start.Keys == h.full.Keys && h.cands.Keys == b.tally.Keys
    && (forall t :: t in h.full ==> LeaderLog(h, t))
    && (forall t :: t in h.start && t in b.elected ==>
          (b.elected[t], t) in h.cands && h.start[t] == h.cands[(b.elected[t], t)])
    && (forall key :: key in h.cands ==>
          1 <= key.1 && Traced(h, h.cands[key]) && TermsBelow(h.cands[key], key.1))
  }

  ghost predicate NodeTraced(h: Books, nd: Node) {
    && nd.snapIndex == 0 && nd.snapTerm == 0
    && Traced(h, nd.logs)
    && TermsBelow(nd.logs, nd.currentTerm + 1)
  }

  ghost predicate LogsInv(s: Cluster, h: Books) {
    && (forall n :: 0 <= n < |s.nodes| ==> NodeTraced(h, s.nodes[n]))
    && (forall n :: 0 <= n < |s.nodes| && s.nodes[n].status.Leader? ==>
          s.nodes[n].currentTerm in h.full && s.nodes[n].logs == h.full[s.nodes[n].currentTerm])
    && (forall n :: 0 <= n < |s.nodes| && (n, s.nodes[n].currentTerm) in h.cands
                    && s.nodes[n].currentTerm !in h.full ==>
          s.nodes[n].logs == h.cands[(n, s.nodes[n].currentTerm)])
  }

  // ---------------------------------------------------------------------------------------
  // Messages and acknowledgements
  // ---------------------------------------------------------------------------------------

  ghost predicate MessageOk(h: Books, a: AppendArgs) {
    && a.term in h.full
    && 0 <= a.prevLogIndex && a.End() <= |h.full[a.term]|
    && a.entries == h.full[a.term][a.prevLogIndex..a.End()]
    && a.prevLogTerm == TermOf(h.full[a.term], a.prevLogIndex)
  }

  ghost predicate NetworkInv(s: Cluster, h: Books) {
    && (forall call :: call in s.voteCalls ==>
          && (call.from, call.args.term) in h.cands
          && call.args.lastLogIndex == |h.cands[(call.from, call.args.term)]|
          && call.args.lastLogTerm == TermOf(h.cands[(call.from, call.args.term)], call.args.lastLogIndex))
    && (forall call :: call in s.appendCalls ==> MessageOk(h, call.args))
    && s.snapCalls == {}
  }

  ghost predicate AcksBounded(s: Cluster, h: Books) {
    forall key :: key in h.acked ==>
      && key.0 < |s.nodes| && key.1 <= s.nodes[key.0].currentTerm
      && key.1 in h.full && h.acked[key] <= |h.full[key.1]|
  }

  ghost predicate RepliesAcked(s: Cluster, h: Books) {
    forall r :: r in s.appendReplies && r.1.success ==> AckOf(h, r.0.to, r.0.args.term) >= r.0.args.End()
  }

  /** A leader has accepted its own log. */
  ghost predicate LeadersAcked(b: Ballots, h: Books) {
    forall t :: t in h.full && t in b.elected ==> AckOf(h, b.elected[t], t) == |h.full[t]|
  }

  ghost predicate AcksInv(s: Cluster, b: Ballots, h: Books) {
    AcksBounded(s, h) && RepliesAcked(s, h) && LeadersAcked(b, h)
  }

  // ---------------------------------------------------------------------------------------
  // Live and chosen entries
  // ---------------------------------------------------------------------------------------

  /** Entry i (counted from 1) of the leader of term t is of term t. */
  ghost predicate Own(h: Books, t: int, i: nat) {
    t in h.full && 1 <= i <= |h.full[t]| && h.full[t][i - 1].term == t
  }

  /** Nodes that have left term t without accepting its log up to i; they never will. */
  ghost function LostTo(s: Cluster, h: Books, t: int, i: nat): set<nat> {
    set n: nat | 0 <= n < |s.nodes| && s.nodes[n].currentTerm > t && AckOf(h, n, t) < i
  }

  ghost function Holders(s: Cluster, h: Books, t: int, i: nat): set<nat> {
    set n: nat | 0 <= n < |s.nodes| && AckOf(h, n, t) >= i
  }

  /** A majority may yet accept the log of term t up to its own entry i. */
  ghost predicate Live(s: Cluster, h: Books, t: int, i: nat) {
    Own(h, t, i) && |LostTo(s, h, t, i)| < Majority(|s.nodes|)
  }

  /** A majority has accepted the log of term t up to its own entry i. */
  ghost predicate Chosen(s: Cluster, h: Books, t: int, i: nat) {
    Own(h, t, i) && |Holders(s, h, t, i)| >= Majority(|s.nodes|)
  }

  /** Nodes keep what they accepted as long as it is live. */
  ghost predicate Retained(s: Cluster, h: Books) {
    forall n, t, i: nat :: 0 <= n < |s.nodes| && Live(s, h, t, i) && AckOf(h, n, t) >= i ==>
      h.full[t][..i] <= s.nodes[n].logs
  }

  /** Every later leader started with every live entry. */
  ghost predicate StartSafe(s: Cluster, h: Books) {
    forall t, t', i: nat :: t' in h.start && t < t' && Live(s, h, t, i) ==> h.full[t][..i] <= h.start[t']
  }

  /** Whoever got a vote from a node that had accepted a live entry has that entry. */
  ghost predicate VoteSafe(s: Cluster, b: Ballots, h: Books) {
    forall v, t', t, i: nat ::
      (v, t') in b.votes && t < t' && Live(s, h, t, i) && AckOf(h, v, t) >= i && (b.votes[(v, t')], t') in h.cands
      ==> h.full[t][..i] <= h.cands[(b.votes[(v, t')], t')]
  }

  /** The first k entries of a log are chosen, on behalf of a term up to t. */
  ghost predicate CommitOk(s: Cluster, h: Books, log: seq<Entry>, k: int, t: int) {
    && 0 <= k <= |log|
    && (k > 0 ==> exists t0, i: nat :: t0 <= t && k <= i && Chosen(s, h, t0, i) && log[..k] == h.full[t0][..k])
  }

  ghost predicate EmittedOk(s: Cluster, h: Books, msg: ApplyMsg) {
    exists t0, i: nat ::
      1 <= msg.index <= i && Chosen(s, h, t0, i) && h.full[t0][msg.index - 1].command == msg.command
  }

  ghost predicate NodeCommits(s: Cluster, h: Books, nd: Node) {
    && CommitOk(s, h, nd.logs, nd.commitIndex, nd.currentTerm)
    && CommitOk(s, h, nd.logs, nd.lastApplied, nd.currentTerm)
    && forall m :: m in nd.emitted ==> EmittedOk(s, h, m)
  }

  ghost predicate CommitsInv(s: Cluster, h: Books) {
    && (forall n :: 0 <= n < |s.nodes| ==> NodeCommits(s, h, s.nodes[n]))
    && (forall call :: call in s.appendCalls && call.args.term in h.full ==>
          && call.args.leaderCommit <= call.args.End()
          && CommitOk(s, h, h.full[call.args.term], call.args.leaderCommit, call.args.term))
  }

  /** The part of the invariant that does not mention commit indices. */
  ghost predicate CoreInv(s: Cluster, b: Ballots, h: Books) {
    && HistoryInv(b, h)
    && LogsInv(s, h)
    && NetworkInv(s, h)
    && AcksInv(s, b, h)
    && Retained(s, h)
    && StartSafe(s, h)
    && VoteSafe(s, b, h)
  }

  // ---------------------------------------------------------------------------------------
  // Traced logs
  // ---------------------------------------------------------------------------------------

  lemma TracedPrefix(h: Books, log: seq<Entry>, k: nat)
    requires Traced(h, log) && k <= |log|
    ensures Traced(h, log[..k])
  {
    forall i | 0 <= i < k
      ensures TracedAt(h, log[..k], i)
    {
      assert TracedAt(h, log, i);
      assert log[..k][..i + 1] == log[..i + 1];
    }
  }

  /** A non-empty traced log is a prefix of the log of its last term's leader. */
  lemma TracedLast(h: Books, log: seq<Entry>)
    requires Traced(h, log) && |log| > 0
    ensures var t := log[|log| - 1].term;
            t in h.full && |log| <= |h.full[t]| && log == h.full[t][..|log|]
  {
    assert TracedAt(h, log, |log| - 1);
    assert log[..|log|] == log;
  }

  lemma TracedOrdered(b: Ballots, h: Books, log: seq<Entry>)
    requires HistoryInv(b, h) && Traced(h, log)
    ensures Ordered(log)
  {
    if |log| > 0 {
      TracedLast(h, log);
      assert LeaderLog(h, log[|log| - 1].term);
    }
  }

  /** Log matching for traced logs. */
  lemma TracedAgree(h: Books, p: seq<Entry>, q: seq<Entry>, i: nat)
    requires Traced(h, p) && Traced(h, q)
    requires i < |p| && i < |q| && p[i].term == q[i].term
    ensures p[..i + 1] == q[..i + 1]
  {
    assert TracedAt(h, p, i) && TracedAt(h, q, i);
  }

  /** Leaders' logs only grow. */
  ghost predicate FullGrows(h: Books, h': Books) {
    forall t :: t in h.full ==> t in h'.full && h.full[t] <= h'.full[t]
  }

  lemma TracedGrows(h: Books, h': Books, log: seq<Entry>)
    requires Traced(h, log) && FullGrows(h, h')
    ensures Traced(h', log)
  {
    forall i | 0 <= i < |log|
      ensures TracedAt(h', log, i)
    {
      assert TracedAt(h, log, i);
      var t := log[i].term;
      assert h'.full[t][..i + 1] == h.full[t][..i + 1];
    }
  }

  // ---------------------------------------------------------------------------------------
  // Live and chosen over time
  // ---------------------------------------------------------------------------------------

  /** From (s, h) to (s', h') terms and acknowledgements only grow, and acknowledgements of a
      term do not grow on nodes that have left it. */
  ghost predicate Progress(s: Cluster, h: Books, s': Cluster, h': Books) {
    && |s'.nodes| == |s.nodes|
    && (forall n :: 0 <= n < |s.nodes| ==> s.nodes[n].currentTerm <= s'.nodes[n].currentTerm)
    && FullGrows(h, h')
    && (forall n: nat, t :: AckOf(h, n, t) <= AckOf(h', n, t))
    && (forall n: nat, t :: n < |s.nodes| && s.nodes[n].currentTerm > t ==> AckOf(h', n, t) == AckOf(h, n, t))
  }

  lemma LiveBefore(s: Cluster, h: Books, s': Cluster, h': Books, t: int, i: nat)
    requires Progress(s, h, s', h')
    requires Own(h, t, i) && Live(s', h', t, i)
    ensures Live(s, h, t, i)
    ensures h.full[t][..i] == h'.full[t][..i]
  {
    assert LostTo(s, h, t, i) <= LostTo(s', h', t, i);
    SubsetSize(LostTo(s, h, t, i), LostTo(s', h', t, i));
  }

  /** Whatever is live after the step was live before it. */
  ghost predicate LiveBack(s: Cluster, h: Books, s': Cluster, h': Books) {
    forall t, i: nat :: Live(s', h', t, i) ==> Live(s, h, t, i) && h'.full[t][..i] == h.full[t][..i]
  }

  lemma LiveAllBefore(s: Cluster, h: Books, s': Cluster, h': Books)
    requires Progress(s, h, s', h')
    requires forall t, i: nat :: Own(h', t, i) ==> Own(h, t, i)
    ensures LiveBack(s, h, s', h')
  {
    forall t, i: nat | Live(s', h', t, i)
      ensures Live(s, h, t, i) && h'.full[t][..i] == h.full[t][..i]
    {
      assert Own(h', t, i);
      LiveBefore(s, h, s', h', t, i);
    }
  }

  lemma ChosenAfter(s: Cluster, h: Books, s': Cluster, h': Books, t: int, i: nat)
    requires Progress(s, h, s', h')
    requires Chosen(s, h, t, i)
    ensures Chosen(s', h', t, i)
    ensures h.full[t][..i] == h'.full[t][..i]
  {
    assert Holders(s, h, t, i) <= Holders(s', h', t, i);
    SubsetSize(Holders(s, h, t, i), Holders(s', h', t, i));
  }

  lemma ChosenIsLive(s: Cluster, h: Books, t: int, i: nat)
    requires Chosen(s, h, t, i)
    ensures Live(s, h, t, i)
  {
    var p, q := Holders(s, h, t, i), LostTo(s, h, t, i);
    if |q| >= Majority(|s.nodes|) {
      var v := MajoritiesMeet(p, q, |s.nodes|);
    }
  }

  lemma CommitOkAfter(s: Cluster, h: Books, s': Cluster, h': Books, log: seq<Entry>, k: int, t: int, t': int)
    requires Progress(s, h, s', h') && CommitOk(s, h, log, k, t) && t <= t'
    ensures CommitOk(s', h', log, k, t')
  {
    if k > 0 {
      var t0, i: nat :| t0 <= t && k <= i && Chosen(s, h, t0, i) && log[..k] == h.full[t0][..k];
      ChosenAfter(s, h, s', h', t0, i);
      assert h'.full[t0][..k] == h.full[t0][..k];
    }
  }

  /** A commit survives when the log it is about keeps those entries. */
  lemma CommitOkMoves(s: Cluster, h: Books, log: seq<Entry>, log': seq<Entry>, k: int, t: int)
    requires CommitOk(s, h, log, k, t)
    requires k <= |log'| && log'[..k] == log[..k]
    ensures CommitOk(s, h, log', k, t)
  {
  }

  lemma EmittedOkAfter(s: Cluster, h: Books, s': Cluster, h': Books, msg: ApplyMsg)
    requires Progress(s, h, s', h') && EmittedOk(s, h, msg)
    ensures EmittedOk(s', h', msg)
  {
    var t0, i: nat :|
      1 <= msg.index <= i && Chosen(s, h, t0, i) && h.full[t0][msg.index - 1].command == msg.command;
    ChosenAfter(s, h, s', h', t0, i);
    assert h'.full[t0][msg.index - 1] == h.full[t0][msg.index - 1];
  }
}
