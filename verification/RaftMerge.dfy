/** When the merge as written does what the comment beside it asks for. */
module RaftMerge {
  import opened RaftTypes
  import opened RaftNode
  import opened RaftCluster
  import opened RaftLedger

  /** No entry of the message meets an entry of another term in the log. */
  predicate NoConflict(logs: seq<Entry>, pos: nat, entries: seq<Entry>) {
    forall k :: pos <= k < |logs| && k < pos + |entries| ==> logs[k].term == entries[k - pos].term
  }

  lemma {:induction false} TruncatingKeeps(logs: seq<Entry>, pos: nat, entries: seq<Entry>)
    requires pos <= |logs| && NoConflict(logs, pos, entries)
    ensures MergeTruncating(logs, pos, entries) ==
              if |logs| < pos + |entries| then logs + entries[|logs| - pos..] else logs
    decreases |entries|
  {
    if |entries| > 0 && pos < |logs| {
      assert entries[0] == entries[pos - pos];
      forall k | pos + 1 <= k < |logs| && k < pos + 1 + |entries[1..]|
        ensures logs[k].term == entries[1..][k - (pos + 1)].term
      {
        assert entries[1..][k - (pos + 1)] == entries[k - pos];
      }
      TruncatingKeeps(logs, pos + 1, entries[1..]);
      assert |logs| < pos + |entries| ==> entries[1..][|logs| - (pos + 1)..] == entries[|logs| - pos..];
    }
  }

  lemma {:induction false} TruncatingCuts(logs: seq<Entry>, pos: nat, entries: seq<Entry>)
    requires pos <= |logs| && Consistent(logs, pos, entries)
    requires !NoConflict(logs, pos, entries)
    ensures MergeTruncating(logs, pos, entries) == logs[..pos] + entries
    decreases |entries|
  {
    var k :| pos <= k < |logs| && k < pos + |entries| && logs[k].term != entries[k - pos].term;
    if logs[pos].term == entries[0].term {
      assert logs[pos] == entries[pos - pos];
      assert entries[1..][k - (pos + 1)] == entries[k - pos];
      forall j | pos + 1 <= j < |logs| && j < pos + 1 + |entries[1..]|
        && logs[j].term == entries[1..][j - (pos + 1)].term
        ensures logs[j] == entries[1..][j - (pos + 1)]
      {
        assert entries[1..][j - (pos + 1)] == entries[j - pos];
      }
      TruncatingCuts(logs, pos + 1, entries[1..]);
      assert logs[..pos + 1] + entries[1..] == logs[..pos] + entries;
    }
  }

  /** The merge as written equals the truncating merge exactly when the message conflicts with
      nothing in the log or reaches the end of the log. */
  lemma MergesAgree(logs: seq<Entry>, pos: nat, entries: seq<Entry>)
    requires pos <= |logs| && Consistent(logs, pos, entries)
    ensures MergeAsWritten(logs, pos, entries) == MergeTruncating(logs, pos, entries)
            <==> NoConflict(logs, pos, entries) || |logs| <= pos + |entries|
  {
    var w, t := MergeAsWritten(logs, pos, entries), MergeTruncating(logs, pos, entries);
    if NoConflict(logs, pos, entries) {
      TruncatingKeeps(logs, pos, entries);
      forall k | 0 <= k < |w|
        ensures w[k] == t[k]
      {
        if pos <= k < pos + |entries| && k < |logs| {
          assert logs[k].term == entries[k - pos].term;
        }
      }
      assert w == t;
    } else {
      TruncatingCuts(logs, pos, entries);
      if |logs| <= pos + |entries| {
        forall k | 0 <= k < |w|
          ensures w[k] == t[k]
        {
          if k < pos {
            assert t[k] == logs[k];
          } else {
            assert t[k] == entries[k - pos];
          }
        }
        assert w == t;
      }
    }
  }

  // ---------------------------------------------------------------------------------------
  // Runs of the code as written in which every merge is harmless
  // ---------------------------------------------------------------------------------------

  /** Nothing of the log survives behind a conflict in this step. */
  ghost predicate Harmless(m: Merge, s: Cluster, step: Step)
    requires Shape(s) && Enabled(s, step)
  {
    m.Truncating? || !step.AppendDelivery? ||
    (var nd, a := s.nodes[step.append.to], step.append.args;
     AcceptsAppend(nd, a) ==>
       || NoConflict(nd.logs, a.prevLogIndex - nd.snapIndex, a.entries)
       || LastIndex(nd) <= a.End())
  }

  ghost predicate HarmlessRun(m: Merge, n: nat, states: seq<Cluster>, steps: seq<Step>) {
    && IsRun(m, n, states, steps)
    && forall k :: 0 <= k < |steps| ==>
         IsStep(m, states[k], steps[k], states[k + 1]) && Harmless(m, states[k], steps[k])
  }

  /** Where the merges agree, so do the receivers. */
  lemma HarmlessReceiver(m: Merge, nd: Node, a: AppendArgs)
    requires Indexed(nd)
    requires AcceptsAppend(nd, a) ==>
               var pos := a.prevLogIndex - nd.snapIndex;
               && Consistent(nd.logs, pos, a.entries)
               && (m.Truncating? || NoConflict(nd.logs, pos, a.entries) || LastIndex(nd) <= a.End())
    ensures AppendEntries(m, nd, a) == AppendEntries(Truncating, nd, a)
  {
    hide Consistent, NoConflict, MergeAsWritten, MergeTruncating, TermAt;
    if AcceptsAppend(nd, a) && m.AsWritten? {
      MergesAgree(nd.logs, a.prevLogIndex - nd.snapIndex, a.entries);
    }
  }

  lemma HarmlessStep(m: Merge, s: Cluster, step: Step, s': Cluster)
    requires IsStep(m, s, step, s') && Harmless(m, s, step)
    requires step.AppendDelivery? ==>
               var nd, a := s.nodes[step.append.to], step.append.args;
               AcceptsAppend(nd, a) ==> Consistent(nd.logs, a.prevLogIndex - nd.snapIndex, a.entries)
    ensures IsStep(Truncating, s, step, s')
  {
    hide Consistent, NoConflict, AppendEntries, AcceptsAppend;
    if step.AppendDelivery? {
      HarmlessReceiver(m, s.nodes[step.append.to], step.append.args);
    }
  }

  /** A run whose merges are all harmless is a run of the truncating algorithm. */
  lemma HarmlessIsTruncating(m: Merge, n: nat, states: seq<Cluster>, steps: seq<Step>)
    requires HarmlessRun(m, n, states, steps)
    ensures IsRun(Truncating, n, states, steps)
  {
    hide Shape, Enabled, Apply, AcceptsAppend, Consistent;
    forall k | 0 <= k < |steps|
      ensures IsStep(Truncating, states[k], steps[k], states[k + 1])
    {
      if steps[k].AppendDelivery? {
        HarmlessDelivery(m, n, states, steps, k);
      }
      HarmlessStep(m, states[k], steps[k], states[k + 1]);
    }
  }

  lemma HarmlessDelivery(m: Merge, n: nat, states: seq<Cluster>, steps: seq<Step>, k: nat)
    requires IsRun(m, n, states, steps) && k < |steps| && steps[k].AppendDelivery?
    requires IsStep(m, states[k], steps[k], states[k + 1])
    ensures var nd, a := states[k].nodes[steps[k].append.to], steps[k].append.args;
            AcceptsAppend(nd, a) ==> Consistent(nd.logs, a.prevLogIndex - nd.snapIndex, a.entries)
  {
    if AcceptsAppend(states[k].nodes[steps[k].append.to], steps[k].append.args) {
      DeliveriesConsistent(m, n, states, steps, k, steps[k].append);
    }
  }
}
