/** Raft's output joined to the store: replicas that have applied equally much hold the same data. */
module Replicas {
  import opened RaftTypes
  import opened RaftCluster
  import opened RaftBooks
  import opened RaftRuns
  import opened RaftMerge
  import opened RaftTheorems
  import opened RaftIndex
  import K = KvStore

  /** Without snapshots the stream is 1, 2, 3, ... */
  lemma {:induction false} StreamCounts(nd: Node, a: nat)
    requires Stream(nd) && nd.snapIndex == 0 && a < |nd.emitted|
    ensures nd.emitted[a].index == a + 1
  {
    hide Emitted;
    if a > 0 {
      StreamCounts(nd, a - 1);
      if nd.emitted[a].index > 1 {
        NoGapAboveSnapshot(nd, a - 1);
      }
    } else {
      FirstIsOne(nd);
    }
  }

  lemma FirstIsOne(nd: Node)
    requires Stream(nd) && nd.snapIndex == 0 && 0 < |nd.emitted|
    ensures nd.emitted[0].index == 1
  {
    assert Emitted(nd, 1);
    var c :| 0 <= c < |nd.emitted| && nd.emitted[c].index == 1;
  }

  lemma NeverSnapped(m: Merge, n: nat, states: seq<Cluster>, steps: seq<Step>, j: nat, p: nat)
    requires SafeRun(m, n, states, steps) && j < |states| && p < |states[j].nodes|
    ensures states[j].nodes[p].snapIndex == 0
  {
    hide SafeRun, CommitsInv, CoreInv, Progress, StartsKept;
    var bs, hs := RunHasBooks(m, n, states, steps);
    assert SafeInv(states[j], bs[j], hs[j]);
    CoreNode(states[j], bs[j], hs[j], p);
  }

  /** Of any two apply streams, of any two nodes at any two times, the shorter begins the longer. */
  lemma StreamsAgree(
      m: Merge, n: nat, states: seq<Cluster>, steps: seq<Step>, j: nat, p: nat, k: nat, q: nat)
    requires SafeRun(m, n, states, steps) && j < |states| && k < |states|
    requires p < |states[j].nodes| && q < |states[k].nodes|
    requires |states[j].nodes[p].emitted| <= |states[k].nodes[q].emitted|
    ensures states[j].nodes[p].emitted <= states[k].nodes[q].emitted
  {
    RunStreams(m, n, states, steps, j, p);
    RunStreams(m, n, states, steps, k, q);
    hide SafeRun, Stream;
    var x, y := states[j].nodes[p], states[k].nodes[q];
    forall a | 0 <= a < |x.emitted|
      ensures x.emitted[a] == y.emitted[a]
    {
      StreamCounts(x, a);
      StreamCounts(y, a);
      StateMachineSafety(m, n, states, steps, j, p, x.emitted[a], k, q, y.emitted[a]);
    }
  }

  lemma RunStreams(m: Merge, n: nat, states: seq<Cluster>, steps: seq<Step>, j: nat, p: nat)
    requires SafeRun(m, n, states, steps) && j < |states| && p < |states[j].nodes|
    ensures Stream(states[j].nodes[p]) && states[j].nodes[p].snapIndex == 0
  {
    hide Stream, Harmless;
    NeverSnapped(m, n, states, steps, j, p);
    RunShaped(m, n, states, steps, j);
    ApplyStream(m, n, states, steps, j, j, p);
  }

  /** What the server gets to see of an apply stream; `parse` is how it reads a command. */
  function Deliveries(msgs: seq<ApplyMsg>, parse: string -> K.Op): (ds: seq<K.Delivery>)
    ensures |ds| == |msgs|
  {
    seq(|msgs|, i requires 0 <= i < |msgs| => K.Delivery(msgs[i].index, parse(msgs[i].command)))
  }

  lemma DeliveriesPrefix(msgs: seq<ApplyMsg>, parse: string -> K.Op, ds: seq<K.Delivery>)
    requires ds <= Deliveries(msgs, parse)
    ensures ds == Deliveries(msgs[..|ds|], parse)
  {
  }

  /** Two replicas, at any two times of a safe run, that have applied equally many commands hold the same
      store and remember the same requests, however far each lags behind its own node's stream and
      whatever else their handlers did to the wait channels. */
  lemma ReplicasAgree(
      m: Merge, n: nat, states: seq<Cluster>, steps: seq<Step>, j: nat, p: nat, k: nat, q: nat,
      parse: string -> K.Op, xs: seq<K.Step>, ys: seq<K.Step>)
    requires SafeRun(m, n, states, steps) && j < |states| && k < |states|
    requires p < |states[j].nodes| && q < |states[k].nodes|
    requires K.DeliveriesOf(xs) <= Deliveries(states[j].nodes[p].emitted, parse)
    requires K.DeliveriesOf(ys) <= Deliveries(states[k].nodes[q].emitted, parse)
    requires |K.DeliveriesOf(xs)| == |K.DeliveriesOf(ys)|
    ensures K.AfterAll(0, xs).store == K.AfterAll(0, ys).store
    ensures K.AfterAll(0, xs).last == K.AfterAll(0, ys).last
  {
    hide SafeRun;
    var x, y, len := states[j].nodes[p].emitted, states[k].nodes[q].emitted, |K.DeliveriesOf(xs)|;
    DeliveriesPrefix(x, parse, K.DeliveriesOf(xs));
    DeliveriesPrefix(y, parse, K.DeliveriesOf(ys));
    if |x| <= |y| {
      StreamsAgree(m, n, states, steps, j, p, k, q);
    } else {
      StreamsAgree(m, n, states, steps, k, q, j, p);
    }
    assert x[..len] == y[..len];
    K.OnlyDeliveriesMatter(0, xs);
    K.OnlyDeliveriesMatter(0, ys);
  }
}
