/** The skip list as a heap structure that behaves as a map. */
module SkipLists {
  import opened Keys

  class Node {
    const key: string
    const value: string
    const level: nat
    /** One pointer per level, 0 up to this node's own level. */
    const forward: array<Node?>

    constructor (key: string, value: string, level: nat)
      ensures this.key == key && this.value == value && this.level == level
      ensures fresh(forward) && forward.Length == level + 1
      ensures forall i :: 0 <= i <= level ==> forward[i] == null
    {
      this.key, this.value, this.level := key, value, level;
      forward := new Node?[level + 1](_ => null);
    }
  }

  // ---------------------------------------------------------------------------------------
  // Sequences of nodes
  // ---------------------------------------------------------------------------------------

  ghost predicate Sorted(s: seq<Node>) {
    forall p, q :: 0 <= p < q < |s| ==> Less(s[p].key, s[q].key)
  }

  /** The first node that is on the chain of level i. */
  ghost function FirstAt(s: seq<Node>, i: nat): Node? {
    if |s| == 0 then null
    else if s[0].level >= i then s[0]
    else FirstAt(s[1..], i)
  }

  ghost predicate KeysDiffer(s: seq<Node>) {
    forall p, q :: 0 <= p < |s| && 0 <= q < |s| && p != q ==> s[p].key != s[q].key
  }

  ghost function ToMap(s: seq<Node>): map<string, string>
    requires KeysDiffer(s)
  {
    map n | n in s :: n.key := n.value
  }

  /** How many leading nodes have keys below the given one. */
  ghost function Rank(s: seq<Node>, key: string): nat {
    if |s| == 0 || !Less(s[0].key, key) then 0 else 1 + Rank(s[1..], key)
  }

  lemma SortedDiffer(s: seq<Node>)
    requires Sorted(s)
    ensures KeysDiffer(s)
  {
    LessOrders();
    hide Less;
  }

  lemma {:induction false} RankSplits(s: seq<Node>, key: string)
    requires Sorted(s)
    ensures Rank(s, key) <= |s|
    ensures forall p :: 0 <= p < Rank(s, key) ==> Less(s[p].key, key)
    ensures forall p :: Rank(s, key) <= p < |s| ==> !Less(s[p].key, key)
  {
    LessOrders();
    hide Less;
    if |s| > 0 {
      RankSplits(s[1..], key);
      assert forall p :: 0 < p < |s| ==> s[p] == s[1..][p - 1];
    }
  }

  lemma {:induction false} FirstOf(a: seq<Node>, b: seq<Node>, i: nat)
    ensures FirstAt(a + b, i) == if FirstAt(a, i) != null then FirstAt(a, i) else FirstAt(b, i)
  {
    if |a| == 0 {
      assert a + b == b;
    } else {
      assert (a + b)[1..] == a[1..] + b;
      FirstOf(a[1..], b, i);
    }
  }

  lemma {:induction false} FirstFound(s: seq<Node>, i: nat) returns (q: nat)
    requires FirstAt(s, i) != null
    ensures q < |s| && s[q] == FirstAt(s, i) && s[q].level >= i && FirstAt(s[..q], i) == null
  {
    if s[0].level >= i {
      q := 0;
    } else {
      q := FirstFound(s[1..], i);
      q := q + 1;
      assert s[..q][1..] == s[1..][..q - 1];
    }
  }

  lemma {:induction false} FirstNone(s: seq<Node>, i: nat)
    ensures FirstAt(s, i) == null <==> forall q :: 0 <= q < |s| ==> s[q].level < i
  {
    if |s| > 0 {
      FirstNone(s[1..], i);
      assert forall q :: 0 < q < |s| ==> s[q] == s[1..][q - 1];
    }
  }

  ghost predicate HasKey(s: seq<Node>, key: string) {
    exists p :: 0 <= p < |s| && s[p].key == key
  }

  lemma MapLookup(s: seq<Node>)
    requires KeysDiffer(s)
    ensures forall k :: k in ToMap(s) <==> HasKey(s, k)
    ensures forall p :: 0 <= p < |s| ==> s[p].key in ToMap(s) && ToMap(s)[s[p].key] == s[p].value
  {
    var a := ToMap(s);
    forall p | 0 <= p < |s|
      ensures s[p].key in a && a[s[p].key] == s[p].value
    {
      assert s[p] in s;
    }
    forall k | k in a
      ensures HasKey(s, k)
    {
      var m :| m in s && m.key == k;
      var p :| 0 <= p < |s| && s[p] == m;
      assert s[p].key == k;
    }
  }

  lemma DifferInserted(s: seq<Node>, t: nat, n: Node)
    requires t <= |s| && KeysDiffer(s) && !HasKey(s, n.key)
    ensures KeysDiffer(s[..t] + [n] + s[t..])
  {
  }

  lemma DifferRemoved(s: seq<Node>, t: nat)
    requires t < |s| && KeysDiffer(s)
    ensures KeysDiffer(s[..t] + s[t + 1..]) && !HasKey(s[..t] + s[t + 1..], s[t].key)
  {
  }

  lemma MapExtended(s: seq<Node>, s': seq<Node>, n: Node)
    requires KeysDiffer(s) && KeysDiffer(s') && forall m :: m in s' <==> m in s || m == n
    requires forall m :: m in s ==> m.key != n.key
    ensures ToMap(s') == ToMap(s)[n.key := n.value]
  {
    hide KeysDiffer;
  }

  lemma MapReduced(s: seq<Node>, s': seq<Node>, n: Node)
    requires KeysDiffer(s) && KeysDiffer(s') && forall m :: m in s <==> m in s' || m == n
    requires forall m :: m in s' ==> m.key != n.key
    ensures ToMap(s') == ToMap(s) - {n.key}
  {
    hide KeysDiffer;
  }

  lemma MapInserted(s: seq<Node>, t: nat, n: Node)
    requires t <= |s| && KeysDiffer(s) && !HasKey(s, n.key)
    ensures KeysDiffer(s[..t] + [n] + s[t..])
    ensures ToMap(s[..t] + [n] + s[t..]) == ToMap(s)[n.key := n.value]
  {
    DifferInserted(s, t, n);
    var s' := s[..t] + [n] + s[t..];
    assert forall m :: m in s' <==> m in s || m == n by {
      assert s == s[..t] + s[t..];
    }
    MapExtended(s, s', n);
  }

  lemma MapRemoved(s: seq<Node>, t: nat)
    requires t < |s| && KeysDiffer(s)
    ensures KeysDiffer(s[..t] + s[t + 1..])
    ensures ToMap(s[..t] + s[t + 1..]) == ToMap(s) - {s[t].key}
  {
    DifferRemoved(s, t);
    var s' := s[..t] + s[t + 1..];
    assert forall m :: m in s <==> m in s' || m == s[t] by {
      assert s == s[..t] + [s[t]] + s[t + 1..];
    }
    MapReduced(s, s', s[t]);
  }

  // ---------------------------------------------------------------------------------------
  // Chains of forward pointers
  // ---------------------------------------------------------------------------------------

  /** The set of forward arrays a list owns. */
  type Arrays = set<array<Node?>>

  /** No two nodes share a forward array, and each array has one slot per level. */
  ghost predicate Apart(s: seq<Node>, own: Arrays) {
    && (forall p :: 0 <= p < |s| ==> s[p].forward in own && s[p].forward.Length == s[p].level + 1)
    && (forall p, q :: 0 <= p < |s| && 0 <= q < |s| && p != q ==> s[p].forward != s[q].forward)
  }

  /** Every pointer of level i leads to the next node that is on chain i. */
  ghost predicate Linked(s: seq<Node>, own: Arrays)
    requires Apart(s, own)
    reads own
  {
    forall p, i :: 0 <= p < |s| && 0 <= i <= s[p].level ==> s[p].forward[i] == FirstAt(s[p + 1..], i)
  }

  /** Node p is the last one before slot t that is on chain i. */
  ghost predicate Pred(s: seq<Node>, t: nat, i: nat, p: nat) {
    p < t <= |s| && s[p].level >= i && FirstAt(s[p + 1..t], i) == null
  }

  lemma PredNext(s: seq<Node>, t: nat, i: nat, p: nat)
    requires Pred(s, t, i, p)
    ensures FirstAt(s[p + 1..], i) == FirstAt(s[t..], i)
  {
    assert s[p + 1..] == s[p + 1..t] + s[t..];
    FirstOf(s[p + 1..t], s[t..], i);
  }

  /** Any other node of chain i before t still meets its successor before t. */
  lemma NotPred(s: seq<Node>, t: nat, i: nat, p: nat, q: nat)
    requires Pred(s, t, i, p) && q < t && q != p && s[q].level >= i
    ensures q < p && FirstAt(s[q + 1..t], i) != null
  {
    FirstNone(s[p + 1..t], i);
    FirstNone(s[q + 1..t], i);
    assert forall k :: p < k < t ==> s[k] == s[p + 1..t][k - p - 1];
    assert q < p;
    assert s[q + 1..t][p - q - 1] == s[p];
  }

  /** Where the pointers lead once n stands in slot t. */
  lemma FirstInserted(s: seq<Node>, t: nat, n: Node, i: nat, p: nat)
    requires p < t <= |s| && s[p].level >= i
    ensures var s' := s[..t] + [n] + s[t..];
            FirstAt(s'[p + 1..], i) ==
              if FirstAt(s[p + 1..t], i) == null && n.level >= i then n else FirstAt(s[p + 1..], i)
  {
    var s' := s[..t] + [n] + s[t..];
    assert s'[p + 1..] == s[p + 1..t] + ([n] + s[t..]) && s[p + 1..] == s[p + 1..t] + s[t..];
    FirstOf(s[p + 1..t], [n] + s[t..], i);
    FirstOf(s[p + 1..t], s[t..], i);
    assert ([n] + s[t..])[1..] == s[t..];
  }

  /** Where the pointers lead once the node in slot t is gone. */
  lemma FirstRemoved(s: seq<Node>, t: nat, i: nat, p: nat)
    requires p < t < |s| && s[p].level >= i
    ensures var s' := s[..t] + s[t + 1..];
            FirstAt(s'[p + 1..], i) ==
              if FirstAt(s[p + 1..t], i) == null && s[t].level >= i then FirstAt(s[t + 1..], i)
              else FirstAt(s[p + 1..], i)
  {
    var s' := s[..t] + s[t + 1..];
    assert s'[p + 1..] == s[p + 1..t] + s[t + 1..] && s[p + 1..] == s[p + 1..t] + s[t..];
    FirstOf(s[p + 1..t], s[t + 1..], i);
    FirstOf(s[p + 1..t], s[t..], i);
    assert s[t..][1..] == s[t + 1..];
  }

  /** The pointers of the list with n spliced in, below level `done`. */
  ghost predicate Splicing(s: seq<Node>, own: Arrays, t: nat, n: Node, done: nat)
    requires Apart(s, own) && t <= |s|
    reads own
  {
    forall p, i :: 0 <= p < |s| && 0 <= i <= s[p].level ==>
      s[p].forward[i] ==
        if i < done && p < t && FirstAt(s[p + 1..t], i) == null then n else FirstAt(s[p + 1..], i)
  }

  /** The new node's own pointers below level `done`. */
  ghost predicate Continues(s: seq<Node>, t: nat, n: Node, done: nat)
    requires t <= |s| && done <= n.level + 1 == n.forward.Length
    reads n.forward
  {
    forall i :: 0 <= i < done ==> n.forward[i] == FirstAt(s[t..], i)
  }

  /** The loop that hooks a new node into the chains 0 up to its own level. */
  method Splice(n: Node, update: array<Node?>, ghost pos: seq<nat>, ghost s: seq<Node>, ghost own: Arrays, ghost t: nat)
    requires Apart(s, own) && Linked(s, own) && n.forward.Length == n.level + 1
    requires n.forward !in own && update !in own && update != n.forward
    requires n.level < update.Length && n.level < |pos|
    requires forall i :: 0 <= i <= n.level ==> Pred(s, t, i, pos[i]) && update[i] == s[pos[i]]
    modifies own, n.forward
    ensures t <= |s| && Apart(s[..t] + [n] + s[t..], own + {n.forward})
    ensures Linked(s[..t] + [n] + s[t..], own + {n.forward})
  {
    assert Pred(s, t, 0, pos[0]);
    for i := 0 to n.level + 1
      invariant forall j :: 0 <= j <= n.level ==> update[j] == s[pos[j]]
      invariant Splicing(s, own, t, n, i) && Continues(s, t, n, i)
    {
      assert Pred(s, t, i, pos[i]);
      PredNext(s, t, i, pos[i]);
      n.forward[i] := update[i].forward[i];
      assert Continues(s, t, n, i + 1);
      HookLevel(n, i, update[i], pos[i], s, own, t);
    }
    Spliced(s, own, t, n);
  }

  method HookLevel(n: Node, i: nat, prev: Node, ghost pred: nat, ghost s: seq<Node>, ghost own: Arrays, ghost t: nat)
    requires Apart(s, own) && Pred(s, t, i, pred) && prev == s[pred] && Splicing(s, own, t, n, i)
    modifies prev.forward
    ensures Splicing(s, own, t, n, i + 1)
  {
    OnlyPred(s, t, i, pred);
    prev.forward[i] := n;
    assert forall p, j :: 0 <= p < |s| && 0 <= j <= s[p].level && !(p == pred && j == i) ==>
        s[p].forward[j] == old(s[p].forward[j]);
  }

  /** No other node of chain i has its successor at or after t. */
  lemma OnlyPred(s: seq<Node>, t: nat, i: nat, pred: nat)
    requires Pred(s, t, i, pred)
    ensures forall q :: 0 <= q < t && s[q].level >= i && FirstAt(s[q + 1..t], i) == null ==> q == pred
  {
    forall q | 0 <= q < t && s[q].level >= i && q != pred
      ensures FirstAt(s[q + 1..t], i) != null
    {
      NotPred(s, t, i, pred, q);
    }
  }

  lemma Spliced(s: seq<Node>, own: Arrays, t: nat, n: Node)
    requires Apart(s, own) && t <= |s| && n.forward.Length == n.level + 1 && n.forward !in own
    requires Splicing(s, own, t, n, n.level + 1) && Continues(s, t, n, n.level + 1)
    ensures Apart(s[..t] + [n] + s[t..], own + {n.forward}) && Linked(s[..t] + [n] + s[t..], own + {n.forward})
  {
    var s' := s[..t] + [n] + s[t..];
    forall p, i | 0 <= p < |s'| && 0 <= i <= s'[p].level
      ensures s'[p].forward[i] == FirstAt(s'[p + 1..], i)
    {
      if p < t {
        FirstInserted(s, t, n, i, p);
      } else if p == t {
        assert s'[p + 1..] == s[t..];
      } else {
        assert s'[p] == s[p - 1] && s'[p + 1..] == s[p..];
      }
    }
  }

  /** The pointers of the list with the node in slot t cut out, below level `done`. */
  ghost predicate Cutting(s: seq<Node>, own: Arrays, t: nat, done: nat)
    requires Apart(s, own) && t < |s|
    reads own
  {
    forall p, i :: 0 <= p < |s| && 0 <= i <= s[p].level ==>
      s[p].forward[i] ==
        if i < done && p < t && FirstAt(s[p + 1..t], i) == null then FirstAt(s[t + 1..], i) else FirstAt(s[p + 1..], i)
  }

  /** The loop that unhooks the node in slot t from its chains. */
  method Unlink(
      current: Node, update: array<Node?>, level: nat,
      ghost pos: seq<nat>, ghost s: seq<Node>, ghost own: Arrays, ghost t: nat)
    requires Apart(s, own) && Linked(s, own) && update !in own
    requires t < |s| && current == s[t] && current.level <= level < update.Length && |pos| == level + 1
    requires forall i :: 0 <= i <= level ==> Pred(s, t, i, pos[i]) && update[i] == s[pos[i]]
    modifies own
    ensures Apart(s[..t] + s[t + 1..], own) && Linked(s[..t] + s[t + 1..], own)
  {
    var i := 0;
    while i <= level
      invariant i <= current.level + 1
      invariant forall j :: 0 <= j <= level ==> update[j] == s[pos[j]]
      invariant Cutting(s, own, t, i)
    {
      TargetIsNext(s, own, t, i, pos[i]);
      if update[i].forward[i] != current {
        break;
      }
      UnlinkLevel(current, i, update[i], pos[i], s, own, t);
      i := i + 1;
    }
    Cut(s, own, t, i);
  }

  method UnlinkLevel(
      current: Node, i: nat, prev: Node, ghost pred: nat, ghost s: seq<Node>, ghost own: Arrays, ghost t: nat)
    requires Apart(s, own) && t < |s| && current == s[t] && i <= current.level
    requires Pred(s, t, i, pred) && prev == s[pred] && Cutting(s, own, t, i)
    modifies prev.forward
    ensures Cutting(s, own, t, i + 1)
  {
    OnlyPred(s, t, i, pred);
    prev.forward[i] := current.forward[i];
    assert forall p, j :: 0 <= p < |s| && 0 <= j <= s[p].level && !(p == pred && j == i) ==>
        s[p].forward[j] == old(s[p].forward[j]);
  }

  /** The last node before slot t on chain i points at the node in slot t exactly when that is on the chain. */
  lemma TargetIsNext(s: seq<Node>, own: Arrays, t: nat, i: nat, pred: nat)
    requires Apart(s, own) && t < |s| && Pred(s, t, i, pred)
    ensures FirstAt(s[pred + 1..], i) == s[t] <==> i <= s[t].level
  {
    PredNext(s, t, i, pred);
    assert s[t..][0] == s[t] && s[t..][1..] == s[t + 1..];
    NextIsLater(s, own, t, i);
  }

  /** A pointer past slot t does not lead back to it. */
  lemma NextIsLater(s: seq<Node>, own: Arrays, t: nat, i: nat)
    requires Apart(s, own) && t < |s|
    ensures FirstAt(s[t + 1..], i) != s[t]
  {
    if FirstAt(s[t + 1..], i) != null {
      var q := FirstFound(s[t + 1..], i);
      assert s[t + 1..][q] == s[t + 1 + q];
    }
  }

  lemma Cut(s: seq<Node>, own: Arrays, t: nat, done: nat)
    requires Apart(s, own) && t < |s| && done == s[t].level + 1 && Cutting(s, own, t, done)
    ensures Apart(s[..t] + s[t + 1..], own) && Linked(s[..t] + s[t + 1..], own)
  {
    var s' := s[..t] + s[t + 1..];
    forall p, i | 0 <= p < |s'| && 0 <= i <= s'[p].level
      ensures s'[p].forward[i] == FirstAt(s'[p + 1..], i)
    {
      if p < t {
        FirstRemoved(s, t, i, p);
      } else {
        assert s'[p] == s[p + 1] && s'[p + 1..] == s[p + 2..];
      }
    }
  }

  /** Once the next node on chain i is not below the key, no node of the chain is left before t. */
  lemma LevelDone(s: seq<Node>, order: seq<Node>, key: string, i: nat, p: nat)
    requires |s| == |order| + 1 && s[1..] == order && Sorted(order) && p <= Rank(order, key)
    requires Rank(order, key) <= |order|
    requires FirstAt(s[p + 1..], i) == null || !Less(FirstAt(s[p + 1..], i).key, key)
    ensures FirstAt(s[p + 1..Rank(order, key) + 1], i) == null
  {
    hide Less;
    var t := Rank(order, key) + 1;
    RankSplits(order, key);
    FirstNone(s[p + 1..t], i);
    if FirstAt(s[p + 1..], i) == null {
      assert s[p + 1..] == s[p + 1..t] + s[t..];
      FirstOf(s[p + 1..t], s[t..], i);
    } else {
      var q := FirstFound(s[p + 1..], i);
      assert s[p + 1..][q] == order[p + q];
      FirstNone(s[p + 1..][..q], i);
      var u, v := s[p + 1..t], s[p + 1..][..q];
      forall r | 0 <= r < |u|
        ensures u[r].level < i
      {
        assert u[r] == v[r];
      }
    }
  }

  /** The key is in the list exactly when it is the key of the node in slot Rank. */
  lemma KeyAtRank(s: seq<Node>, key: string)
    requires Sorted(s) && KeysDiffer(s)
    ensures Rank(s, key) <= |s|
    ensures key in ToMap(s) <==> Rank(s, key) < |s| && s[Rank(s, key)].key == key
    ensures Rank(s, key) < |s| && s[Rank(s, key)].key == key ==> ToMap(s)[key] == s[Rank(s, key)].value
    ensures key in ToMap(s) <==> HasKey(s, key)
  {
    LessOrders();
    hide Less;
    RankSplits(s, key);
    forall p | 0 <= p < |s| && s[p].key == key
      ensures p == Rank(s, key)
    {
    }
    MapLookup(s);
  }

  /** The node before slot t on chain 0 is the one in slot t - 1. */
  lemma NextIsRank(s: seq<Node>, t: nat, p: nat)
    requires Pred(s, t, 0, p)
    ensures p + 1 == t && FirstAt(s[p + 1..], 0) == if t < |s| then s[t] else null
  {
    assert |s[p + 1..t]| == 0;
  }

  /** Above the list's level only the header has pointers. */
  lemma HeaderIsPred(s: seq<Node>, order: seq<Node>, level: nat, i: nat, t: nat)
    requires |s| == |order| + 1 && s[1..] == order && 1 <= t <= |s|
    requires forall p :: 0 <= p < |order| ==> order[p].level <= level
    requires level < i <= s[0].level
    ensures Pred(s, t, i, 0)
  {
    forall q | 0 <= q < |s[1..t]|
      ensures s[1..t][q].level < i
    {
      assert s[1..t][q] == order[q];
    }
    FirstNone(s[1..t], i);
  }

  // ---------------------------------------------------------------------------------------
  // The list
  // ---------------------------------------------------------------------------------------

  class SkipList {
    const maxLevel: nat
    const header: Node
    var level: nat
    var elementCount: int
    /** The nodes in key order, without the header. */
    ghost var order: seq<Node>
    /** Every forward array of a node of the list, and perhaps of nodes deleted earlier. */
    ghost var own: Arrays

    ghost function Spine(): (s: seq<Node>)
      reads this
      ensures |s| == |order| + 1 && s[0] == header && s[1..] == order
    {
      [header] + order
    }

    /** The current level is that of the tallest node, or 0. */
    ghost predicate Leveled()
      reads this
    {
      && level <= maxLevel
      && (forall p :: 0 <= p < |order| ==> order[p].level <= level)
      && (level > 0 ==> FirstAt(order, level) != null)
    }

    ghost predicate Valid()
      reads this, own
    {
      && header.level == maxLevel
      && Apart(Spine(), own) && Linked(Spine(), own)
      && Sorted(order)
      && Leveled()
      && elementCount == |order|
    }

    /** The map the list stands for. */
    ghost function Contents(): map<string, string>
      requires Sorted(order)
      reads this
    {
      SortedDiffer(order);
      ToMap(order)
    }

    constructor (maxLevel: nat)
      ensures Valid() && fresh(own) && Contents() == map[] && this.maxLevel == maxLevel
    {
      this.maxLevel := maxLevel;
      level, elementCount := 0, 0;
      var node := new Node("", "", maxLevel);
      header, order, own := node, [], {node.forward};
    }

    /** The level a node gets when that many random draws in a row come out odd. */
    function Drawn(flips: nat): nat {
      if 1 + flips < maxLevel then 1 + flips else maxLevel
    }

    /** One node of this key, value and height has been put among the nodes there were. */
    ghost predicate Grown(was: seq<Node>, key: string, value: string, height: nat)
      reads this`order
    {
      exists p :: 0 <= p < |order| && Puts(was, order, p, key, value, height)
    }

    static ghost predicate Puts(was: seq<Node>, now: seq<Node>, p: nat, key: string, value: string, height: nat)
      requires p < |now|
    {
      now[p].key == key && now[p].value == value && now[p].level == height && now[..p] + now[p + 1..] == was
    }

    static lemma PutAt(was: seq<Node>, r: nat, n: Node)
      requires r <= |was|
      ensures Puts(was, was[..r] + [n] + was[r..], r, n.key, n.value, n.level)
    {
      assert was == was[..r] + was[r..];
    }

    /** get_random_level; `flips` is how many random draws in a row come out odd. */
    method GetRandomLevel(flips: nat) returns (k: nat)
      ensures k == if 1 + flips < maxLevel then 1 + flips else maxLevel
    {
      k := 1;
      var drawn := 0;
      while drawn < flips
        invariant drawn <= flips && k == 1 + drawn
      {
        k := k + 1;
        drawn := drawn + 1;
      }
      k := if k < maxLevel then k else maxLevel;
    }

    /** Moves right along chain i as long as the next key is below the given one. */
    method Advance(start: Node, i: nat, key: string, ghost from: nat) returns (current: Node, ghost p: nat)
      requires Valid() && from <= Rank(order, key) <= |order| && start == Spine()[from] && start.level >= i
      ensures p <= Rank(order, key) && current == Spine()[p] && current.level >= i
      ensures Pred(Spine(), Rank(order, key) + 1, i, p)
    {
      hide ToMap;
      ghost var s, t := Spine(), Rank(order, key) + 1;
      RankSplits(order, key);
      hide Less, Rank;
      current, p := start, from;
      while current.forward[i] != null && Less(current.forward[i].key, key)
        invariant p < t <= |s| && current == s[p] && s[p].level >= i
        decreases t - p
      {
        ghost var q := FirstFound(s[p + 1..], i);
        assert s[p + 1 + q] == order[p + q];
        current := current.forward[i];
        p := p + 1 + q;
      }
      LevelDone(s, order, key, i, p);
    }

    /** update[j] is the node at pos[j], the last one before slot t on chain j, for the levels above i. */
    ghost predicate Recorded(update: array<Node?>, pos: seq<nat>, t: nat, i: int)
      requires -1 <= i <= level && |pos| == level + 1 && level < update.Length
      reads this, update
    {
      forall j :: i < j <= level ==> Pred(Spine(), t, j, pos[j]) && update[j] == Spine()[pos[j]]
    }

    /** The descent of insert and delete: for each level, the last node before the key. */
    method Descend(key: string) returns (update: array<Node?>, ghost pos: seq<nat>)
      requires Valid()
      ensures fresh(update) && update.Length == maxLevel + 1 && |pos| == level + 1
      ensures Recorded(update, pos, Rank(order, key) + 1, -1)
    {
      hide Less, Rank, Linked, FirstAt, Sorted, Apart, Pred, ToMap, KeysDiffer, HasKey;
      ghost var t := Rank(order, key) + 1;
      RankSplits(order, key);
      update := new Node?[maxLevel + 1](_ => null);
      pos := seq(level + 1, _ => 0);
      var current := header;
      ghost var p: nat := 0;
      var i: int := level;
      while i >= 0
        invariant -1 <= i <= level && |pos| == level + 1
        invariant p < t <= |order| + 1 && current == Spine()[p] && current.level >= i
        invariant Recorded(update, pos, t, i)
        modifies update
      {
        current, p := Advance(current, i, key, p);
        update[i] := current;
        pos := pos[i := p];
        i := i - 1;
      }
    }

    /** The descent of search, which keeps only where it ends. */
    method Seek(key: string) returns (current: Node, ghost p: nat)
      requires Valid()
      ensures Pred(Spine(), Rank(order, key) + 1, 0, p) && current == Spine()[p]
    {
      RankSplits(order, key);
      hide Less, Rank, Linked, FirstAt;
      current, p := header, 0;
      var i: int := level;
      while i >= 0
        invariant -1 <= i <= level && p <= Rank(order, key) && current == Spine()[p] && current.level >= i
        invariant i == -1 ==> Pred(Spine(), Rank(order, key) + 1, 0, p)
      {
        current, p := Advance(current, i, key, p);
        i := i - 1;
      }
    }

    // -------------------------------------------------------------------------------------
    // Operations
    // -------------------------------------------------------------------------------------

    method SearchElement(key: string) returns (found: bool, value: string)
      requires Valid()
      ensures found == (key in Contents()) && (found ==> value == Contents()[key])
    {
      var current, p := Seek(key);
      SortedDiffer(order);
      KeyAtRank(order, key);
      hide Less, Rank, ToMap, Sorted;
      NextIsRank(Spine(), Rank(order, key) + 1, p);
      var next := current.forward[0];
      assert next == if Rank(order, key) < |order| then order[Rank(order, key)] else null;
      hide Linked, Apart, FirstAt, KeysDiffer, Pred;
      if next != null && next.key == key {
        return true, next.value;
      }
      return false, "";
    }

    /** The new node may be taller than the list; the header is its predecessor up there. */
    method FillLevels(update: array<Node?>, random: nat, ghost pos: seq<nat>, ghost t: nat)
      returns (ghost preds: seq<nat>)
      requires Valid() && update !in own && update.Length == maxLevel + 1 && |pos| == level + 1
      requires random <= maxLevel && 1 <= t <= |order| + 1
      requires Recorded(update, pos, t, -1)
      modifies update
      ensures random < |preds|
      ensures forall i :: 0 <= i <= random ==> Pred(Spine(), t, i, preds[i]) && update[i] == Spine()[preds[i]]
    {
      hide Less, Linked, FirstAt;
      preds := pos;
      var i := level + 1;
      while i < random + 1
        invariant level + 1 <= i && (i <= random + 1 || i == level + 1)
        invariant |preds| == i
        invariant forall j :: 0 <= j < i ==> Pred(Spine(), t, j, preds[j]) && update[j] == Spine()[preds[j]]
      {
        update[i] := header;
        HeaderIsPred(Spine(), order, level, i, t);
        preds := preds + [0];
        i := i + 1;
      }
    }

    /** The part of insert_element that hooks the new node in. */
    method InsertAt(key: string, value: string, flips: nat, update: array<Node?>, ghost pos: seq<nat>)
      requires Valid() && update !in own && update.Length == maxLevel + 1 && |pos| == level + 1
      requires Recorded(update, pos, Rank(order, key) + 1, -1)
      requires !HasKey(order, key)
      modifies this, own, update
      ensures Valid() && fresh(own - old(own))
      ensures Contents() == old(Contents())[key := value]
      ensures Grown(old(order), key, value, Drawn(flips))
    {
      hide Less, Rank, ToMap, FirstAt, Pred, Grown;
      ghost var was, r := order, Rank(order, key);
      RankSplits(order, key);
      var random := GetRandomLevel(flips);
      ghost var preds := FillLevels(update, random, pos, r + 1);
      if random > level {
        level := random;
      }
      var inserted := new Node(key, value, random);
      InsertNode(inserted, update, preds, was, old(level));
    }

    /** Hooks in a node whose predecessors are known. */
    method InsertNode(n: Node, update: array<Node?>, ghost preds: seq<nat>, ghost was: seq<Node>, ghost level0: nat)
      requires order == was && header.level == maxLevel && Apart(Spine(), own) && Linked(Spine(), own) && Sorted(was)
      requires elementCount == |was|
      requires level0 <= maxLevel && n.level <= maxLevel && level == if n.level > level0 then n.level else level0
      requires forall p :: 0 <= p < |was| ==> was[p].level <= level0
      requires !HasKey(was, n.key)
      requires level0 > 0 ==> FirstAt(was, level0) != null
      requires n.forward.Length == n.level + 1
      requires n.forward !in own && update !in own && update != n.forward
      requires n.level < update.Length && n.level < |preds| && Rank(was, n.key) <= |was|
      requires forall i :: 0 <= i <= n.level ==>
                 Pred(Spine(), Rank(was, n.key) + 1, i, preds[i]) && update[i] == Spine()[preds[i]]
      modifies this`order, this`own, this`elementCount, own, n.forward
      ensures Valid() && own == old(own) + {n.forward}
      ensures Contents() == old(Contents())[n.key := n.value]
      ensures Grown(was, n.key, n.value, n.level)
    {
      hide Less, Rank, ToMap, FirstAt, Pred, Puts;
      PutAt(was, Rank(was, n.key), n);
      ghost var s, r := Spine(), Rank(was, n.key);
      Splice(n, update, preds, s, own, r + 1);
      own := own + {n.forward};
      order := order[..r] + [n] + order[r..];
      elementCount := elementCount + 1;
      assert Spine() == s[..r + 1] + [n] + s[r + 1..];
      InsertedOrder(was, r, n);
      InsertedLevel(was, r, n, level0, level);
      hide Linked, Apart, KeysDiffer;
    }

    /** insert_element; returns 1 when the key is already there and 0 otherwise. */
    method InsertElement(key: string, value: string, flips: nat) returns (r: int)
      requires Valid()
      modifies this, own
      ensures Valid() && fresh(own - old(own))
      ensures r == if key in old(Contents()) then 1 else 0
      ensures Contents() == if r == 1 then old(Contents()) else old(Contents())[key := value]
      ensures if r == 1 then order == old(order) else Grown(old(order), key, value, Drawn(flips))
    {
      hide Less, Rank, ToMap, Grown;
      var update, pos := Descend(key);
      SortedDiffer(order);
      KeyAtRank(order, key);
      NextIsRank(Spine(), Rank(order, key) + 1, pos[0]);
      var current := update[0].forward[0];
      if current != null && current.key == key {
        return 1;
      }
      hide Linked, Apart, FirstAt, Pred, KeysDiffer;
      InsertAt(key, value, flips, update, pos);
      return 0;
    }

    /** The part of delete_element that cuts the node out and counts it off. */
    method DeleteAt(current: Node, update: array<Node?>, ghost pos: seq<nat>, ghost r: nat)
      requires Valid() && update !in own && update.Length == maxLevel + 1 && |pos| == level + 1
      requires r < |order| && current == order[r]
      requires Recorded(update, pos, r + 1, -1)
      modifies this, own
      ensures Valid() && own == old(own)
      ensures Contents() == old(Contents()) - {current.key}
    {
      hide Less, ToMap, FirstAt, Pred;
      ghost var s, was := Spine(), order;
      Unlink(current, update, level, pos, s, own, r + 1);
      order := order[..r] + order[r + 1..];
      elementCount := elementCount - 1;
      assert Spine() == s[..r + 1] + s[r + 2..];
      RemovedOrder(was, r, level);
      hide Linked, Apart, KeysDiffer;
      LowerLevel();
    }

    /** delete_element. */
    method DeleteElement(key: string)
      requires Valid()
      modifies this, own
      ensures Valid() && own == old(own)
      ensures Contents() == old(Contents()) - {key}
    {
      hide Less, Rank, ToMap;
      var update, pos := Descend(key);
      SortedDiffer(order);
      KeyAtRank(order, key);
      NextIsRank(Spine(), Rank(order, key) + 1, pos[0]);
      var current := update[0].forward[0];
      if current != null && current.key == key {
        hide Linked, Apart, FirstAt, Pred;
        DeleteAt(current, update, pos, Rank(order, key));
      }
    }

    /** Drops the levels whose chains have become empty. */
    method LowerLevel()
      requires header.level == maxLevel && Apart(Spine(), own) && Linked(Spine(), own)
      requires level <= maxLevel && forall p :: 0 <= p < |order| ==> order[p].level <= level
      modifies this`level
      ensures Leveled()
    {
      while level > 0 && header.forward[level] == null
        invariant level <= maxLevel && forall p :: 0 <= p < |order| ==> order[p].level <= level
      {
        assert Spine()[0].forward[level] == FirstAt(order, level);
        FirstNone(order, level);
        level := level - 1;
      }
      assert Spine()[0].forward[level] == FirstAt(order, level);
    }

    /** insert_set_element: the new value replaces the old one. */
    method InsertSetElement(key: string, value: string, flips: nat)
      requires Valid()
      modifies this, own
      ensures Valid() && fresh(own - old(own))
      ensures Contents() == old(Contents())[key := value]
    {
      hide Less, ToMap, Linked, Apart, FirstAt, Sorted;
      var found, _ := SearchElement(key);
      if found {
        DeleteElement(key);
      }
      assert Contents() == old(Contents()) - {key};
      var r := InsertElement(key, value, flips);
      assert Contents() == old(Contents())[key := value];
    }

    method Size() returns (n: int)
      requires Valid()
      ensures n == |Contents()|
    {
      SortedDiffer(order);
      MapSize(order);
      n := elementCount;
    }
  }

  lemma InsertedOrder(s: seq<Node>, r: nat, n: Node)
    requires Sorted(s) && r == Rank(s, n.key) && r <= |s| && !HasKey(s, n.key)
    ensures KeysDiffer(s) && Sorted(s[..r] + [n] + s[r..]) && KeysDiffer(s[..r] + [n] + s[r..])
    ensures ToMap(s[..r] + [n] + s[r..]) == ToMap(s)[n.key := n.value]
  {
    LessOrders();
    hide Less;
    RankSplits(s, n.key);
    SortedDiffer(s);
    MapInserted(s, r, n);
  }

  lemma InsertedLevel(s: seq<Node>, r: nat, n: Node, level: nat, level': nat)
    requires r <= |s| && (forall p :: 0 <= p < |s| ==> s[p].level <= level)
    requires level > 0 ==> FirstAt(s, level) != null
    requires level' == if n.level > level then n.level else level
    ensures var s' := s[..r] + [n] + s[r..];
            (forall p :: 0 <= p < |s'| ==> s'[p].level <= level') && (level' > 0 ==> FirstAt(s', level') != null)
  {
    var s' := s[..r] + [n] + s[r..];
    FirstNone(s, level');
    FirstNone(s', level');
    assert s'[r] == n;
    if n.level < level' {
      var q :| 0 <= q < |s| && s[q].level >= level';
      assert (if q < r then s'[q] else s'[q + 1]) == s[q];
    }
  }

  lemma RemovedOrder(s: seq<Node>, r: nat, level: nat)
    requires Sorted(s) && r < |s| && forall p :: 0 <= p < |s| ==> s[p].level <= level
    ensures var s' := s[..r] + s[r + 1..]; forall p :: 0 <= p < |s'| ==> s'[p].level <= level
    ensures KeysDiffer(s) && Sorted(s[..r] + s[r + 1..]) && KeysDiffer(s[..r] + s[r + 1..])
    ensures ToMap(s[..r] + s[r + 1..]) == ToMap(s) - {s[r].key}
  {
    hide Less;
    SortedDiffer(s);
    MapRemoved(s, r);
  }

  lemma {:induction false} MapSize(s: seq<Node>)
    requires KeysDiffer(s)
    ensures |ToMap(s)| == |s|
  {
    if |s| > 0 {
      var r := |s| - 1;
      MapSize(s[..r]);
      assert s == s[..r] + [s[r]] + s[..r][r..];
      assert s[..r][..r] == s[..r];
      MapInserted(s[..r], r, s[r]);
      MapLookup(s[..r]);
    }
  }

  // ---------------------------------------------------------------------------------------
  // Whole chains
  // ---------------------------------------------------------------------------------------

  /** The nodes that are on the chain of level i, in order. */
  ghost function Chain(s: seq<Node>, i: nat): seq<Node> {
    if |s| == 0 then []
    else (if s[0].level >= i then [s[0]] else []) + Chain(s[1..], i)
  }

  /** What a walk along the pointers of level i sees, up to `fuel` nodes. */
  ghost function Walk(start: Node, own: Arrays, i: nat, fuel: nat): seq<Node>
    requires start.forward in own && i < start.forward.Length
    reads own
  {
    var next := start.forward[i];
    if fuel == 0 || next == null || next.forward !in own || i >= next.forward.Length then []
    else [next] + Walk(next, own, i, fuel - 1)
  }

  lemma {:induction false} ChainStarts(s: seq<Node>, i: nat) returns (q: nat)
    requires FirstAt(s, i) != null
    ensures q < |s| && s[q] == FirstAt(s, i) && s[q].level >= i
    ensures Chain(s, i) == [s[q]] + Chain(s[q + 1..], i)
  {
    if s[0].level >= i {
      q := 0;
    } else {
      q := ChainStarts(s[1..], i);
      assert s[1..][q + 1..] == s[q + 2..];
      q := q + 1;
    }
  }

  lemma {:induction false} ChainEmpty(s: seq<Node>, i: nat)
    ensures FirstAt(s, i) == null ==> Chain(s, i) == []
  {
    if |s| > 0 {
      ChainEmpty(s[1..], i);
    }
  }

  /** The pointers of level i, followed from any node of the chain, visit exactly the nodes behind it
      that are at least i levels tall. */
  lemma {:induction false} WalkIsChain(s: seq<Node>, own: Arrays, p: nat, i: nat)
    requires Apart(s, own) && Linked(s, own) && p < |s| && i <= s[p].level
    ensures Walk(s[p], own, i, |s|) == Chain(s[p + 1..], i)
  {
    WalkFrom(s, own, p, i, |s|);
  }

  lemma {:induction false} WalkFrom(s: seq<Node>, own: Arrays, p: nat, i: nat, fuel: nat)
    requires Apart(s, own) && Linked(s, own) && p < |s| && i <= s[p].level && fuel >= |s| - p
    ensures Walk(s[p], own, i, fuel) == Chain(s[p + 1..], i)
    decreases fuel
  {
    assert s[p].forward[i] == FirstAt(s[p + 1..], i);
    if FirstAt(s[p + 1..], i) == null {
      ChainEmpty(s[p + 1..], i);
    } else {
      var q := ChainStarts(s[p + 1..], i);
      assert s[p + 1..][q] == s[p + 1 + q] && s[p + 1..][q + 1..] == s[p + q + 2..];
      WalkFrom(s, own, p + 1 + q, i, fuel - 1);
    }
  }

  /** Each chain is the one below with its shorter nodes left out; chain 0 has every node. */
  lemma {:induction false} ChainsNest(s: seq<Node>, i: nat)
    ensures Chain(Chain(s, i), i + 1) == Chain(s, i + 1)
    ensures Chain(s, 0) == s
  {
    if |s| > 0 {
      ChainsNest(s[1..], i);
      if s[0].level >= i {
        assert Chain(s, i)[1..] == Chain(s[1..], i);
      } else {
        assert Chain(s, i) == Chain(s[1..], i);
      }
    }
  }

  // ---------------------------------------------------------------------------------------
  // Any sequence of operations
  // ---------------------------------------------------------------------------------------

  datatype Op =
    | Insert(key: string, value: string, flips: nat)
    | InsertSet(key: string, value: string, flips: nat)
    | Delete(key: string)
    | Search(key: string)

  datatype Outcome = Code(r: int) | Done | Found(value: string) | NotFound

  /** What a map does. */
  function MapStep(m: map<string, string>, op: Op): (map<string, string>, Outcome) {
    match op
    case Insert(key, value, _) => if key in m then (m, Code(1)) else (m[key := value], Code(0))
    case InsertSet(key, value, _) => (m[key := value], Done)
    case Delete(key) => (m - {key}, Done)
    case Search(key) => (m, if key in m then Found(m[key]) else NotFound)
  }

  function MapRun(m: map<string, string>, ops: seq<Op>): (map<string, string>, seq<Outcome>) {
    if |ops| == 0 then (m, [])
    else
      var (m1, outs) := MapRun(m, ops[..|ops| - 1]);
      var (m2, out) := MapStep(m1, ops[|ops| - 1]);
      (m2, outs + [out])
  }

  method Perform(list: SkipList, op: Op) returns (out: Outcome)
    requires list.Valid()
    modifies list, list.own
    ensures list.Valid() && fresh(list.own - old(list.own))
    ensures (list.Contents(), out) == MapStep(old(list.Contents()), op)
  {
    hide Less, ToMap, Sorted, Apart, Linked, FirstAt;
    match op
    case Insert(key, value, flips) =>
      var r := list.InsertElement(key, value, flips);
      out := Code(r);
    case InsertSet(key, value, flips) =>
      list.InsertSetElement(key, value, flips);
      out := Done;
    case Delete(key) =>
      list.DeleteElement(key);
      out := Done;
    case Search(key) =>
      var found, value := list.SearchElement(key);
      out := if found then Found(value) else NotFound;
  }

  /** Whatever operations run and whatever levels are drawn, results and contents are a map's. */
  method PerformAll(list: SkipList, ops: seq<Op>) returns (outs: seq<Outcome>)
    requires list.Valid()
    modifies list, list.own
    ensures list.Valid() && (list.Contents(), outs) == MapRun(old(list.Contents()), ops)
  {
    hide Less, ToMap, Sorted, Apart, Linked, FirstAt, MapStep;
    outs := [];
    for k := 0 to |ops|
      invariant list.Valid() && fresh(list.own - old(list.own))
      invariant (list.Contents(), outs) == MapRun(old(list.Contents()), ops[..k])
    {
      assert ops[..k + 1][..k] == ops[..k];
      var out := Perform(list, ops[k]);
      outs := outs + [out];
    }
    assert ops[..|ops|] == ops;
  }
}
