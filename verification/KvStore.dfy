/** The key-value server's apply loop: from delivered commands to the store. */
module KvStore {

  datatype Op = Op(operation: string, key: string, value: string, clientId: string, requestId: int)

  datatype Delivery = Delivery(index: int, op: Op)

  /** `last` is m_lastRequestId; `chans` is waitApplyCh, with what has been pushed and not popped. */
  datatype State = State(store: map<string, string>, last: map<string, int>, chans: map<int, seq<Op>>)

  const START := State(map[], map[], map[])

  predicate Writes(op: Op) {
    op.operation == "Put" || op.operation == "Append"
  }

  /** ifRequestDuplicate. */
  predicate Duplicate(last: map<string, int>, clientId: string, requestId: int) {
    clientId in last && requestId <= last[clientId]
  }

  predicate Executes(st: State, op: Op) {
    Writes(op) && !Duplicate(st.last, op.clientId, op.requestId)
  }

  /** Put and Append both overwrite. */
  function Execute(st: State, op: Op): State {
    st.(store := st.store[op.key := op.value], last := st.last[op.clientId := op.requestId])
  }

  function Notify(st: State, index: int, op: Op): State {
    if index in st.chans then st.(chans := st.chans[index := st.chans[index] + [op]]) else st
  }

  /** GetCommandFromRaft: nothing happens to what a snapshot covers. */
  function Deliver(st: State, snapIndex: int, d: Delivery): State {
    if d.index <= snapIndex then st
    else Notify(if Executes(st, d.op) then Execute(st, d.op) else st, d.index, d.op)
  }

  /** A Put and an Append past the snapshot overwrite their key, unless their client's number or a higher one
      is remembered; their number is remembered then.  Nothing else changes the store or the numbers. */
  lemma DeliveryExecutes(st: State, snapIndex: int, d: Delivery)
    ensures var st', op := Deliver(st, snapIndex, d), d.op;
            if d.index > snapIndex && (op.operation == "Put" || op.operation == "Append")
               && (op.clientId in st.last ==> st.last[op.clientId] < op.requestId)
            then && st'.store == st.store[op.key := op.value]
                 && st'.last == st.last[op.clientId := op.requestId]
            else st'.store == st.store && st'.last == st.last
  {
  }

  /** The apply loop over a sequence of deliveries. */
  function Run(st: State, snapIndex: int, ds: seq<Delivery>): State {
    if |ds| == 0 then st else Deliver(Run(st, snapIndex, ds[..|ds| - 1]), snapIndex, ds[|ds| - 1])
  }

  // ---------------------------------------------------------------------------------------
  // What gets executed
  // ---------------------------------------------------------------------------------------

  /** Delivery d is a write past the snapshot by this client, numbered at least r. */
  predicate Covers(d: Delivery, snapIndex: int, clientId: string, r: int) {
    d.index > snapIndex && Writes(d.op) && d.op.clientId == clientId && d.op.requestId >= r
  }

  /** A request is a duplicate exactly when a write of the same client with at least its number has been
      delivered before. */
  lemma {:induction false} DuplicateExactly(snapIndex: int, ds: seq<Delivery>, clientId: string, r: int)
    ensures Duplicate(Run(START, snapIndex, ds).last, clientId, r) <==>
            exists k :: 0 <= k < |ds| && Covers(ds[k], snapIndex, clientId, r)
  {
    if |ds| > 0 {
      var before, d := ds[..|ds| - 1], ds[|ds| - 1];
      DuplicateExactly(snapIndex, before, clientId, r);
      if Duplicate(Run(START, snapIndex, before).last, clientId, r) {
        var k :| 0 <= k < |before| && Covers(before[k], snapIndex, clientId, r);
        assert Covers(ds[k], snapIndex, clientId, r);
      } else {
        assert forall k :: 0 <= k < |before| ==> !Covers(ds[k], snapIndex, clientId, r) by {
          assert forall k :: 0 <= k < |before| ==> before[k] == ds[k];
        }
      }
      assert ds[|ds| - 1] == d;
    }
  }

  /** The writes that are executed, in order. */
  function Accepted(snapIndex: int, ds: seq<Delivery>): seq<Op> {
    if |ds| == 0 then []
    else
      var before, d := ds[..|ds| - 1], ds[|ds| - 1];
      var ops := Accepted(snapIndex, before);
      if d.index > snapIndex && Executes(Run(START, snapIndex, before), d.op) then ops + [d.op] else ops
  }

  function Overwrites(ops: seq<Op>): map<string, string> {
    if |ops| == 0 then map[] else Overwrites(ops[..|ops| - 1])[ops[|ops| - 1].key := ops[|ops| - 1].value]
  }

  /** The store is what the accepted writes leave, whatever else was delivered. */
  lemma {:induction false} StoreIsFold(snapIndex: int, ds: seq<Delivery>)
    ensures Run(START, snapIndex, ds).store == Overwrites(Accepted(snapIndex, ds))
  {
    if |ds| > 0 {
      StoreIsFold(snapIndex, ds[..|ds| - 1]);
      var ops := Accepted(snapIndex, ds[..|ds| - 1]);
      assert (ops + [ds[|ds| - 1].op])[..|ops|] == ops;
    }
  }

  /** Numbers of the same client go up. */
  ghost predicate Increasing(ops: seq<Op>) {
    forall i, j :: 0 <= i < j < |ops| && ops[i].clientId == ops[j].clientId ==> ops[i].requestId < ops[j].requestId
  }

  ghost predicate Known(ops: seq<Op>, last: map<string, int>) {
    forall i :: 0 <= i < |ops| ==> Duplicate(last, ops[i].clientId, ops[i].requestId)
  }

  lemma NextAccepted(ops: seq<Op>, last: map<string, int>, op: Op)
    requires Increasing(ops) && Known(ops, last) && !Duplicate(last, op.clientId, op.requestId)
    ensures Increasing(ops + [op]) && Known(ops + [op], last[op.clientId := op.requestId])
  {
    forall i | 0 <= i < |ops| && ops[i].clientId == op.clientId
      ensures ops[i].requestId < op.requestId
    {
      assert Duplicate(last, ops[i].clientId, ops[i].requestId);
    }
  }

  /** The numbers of a client's executed writes go up, so none is executed twice; and the server
      remembers the latest. */
  lemma {:induction false} AtMostOnce(snapIndex: int, ds: seq<Delivery>)
    ensures Increasing(Accepted(snapIndex, ds)) && Known(Accepted(snapIndex, ds), Run(START, snapIndex, ds).last)
  {
    if |ds| > 0 {
      var before, d := ds[..|ds| - 1], ds[|ds| - 1];
      AtMostOnce(snapIndex, before);
      if d.index > snapIndex && Executes(Run(START, snapIndex, before), d.op) {
        NextAccepted(Accepted(snapIndex, before), Run(START, snapIndex, before).last, d.op);
      }
    }
  }

  /** Every delivered write has been executed, or was a duplicate when it came. */
  lemma {:induction false} NothingSkipped(snapIndex: int, ds: seq<Delivery>, k: nat)
    requires k < |ds| && ds[k].index > snapIndex && Writes(ds[k].op)
    ensures var op := ds[k].op;
            && Duplicate(Run(START, snapIndex, ds).last, op.clientId, op.requestId)
            && (|| op in Accepted(snapIndex, ds)
                || Duplicate(Run(START, snapIndex, ds[..k]).last, op.clientId, op.requestId))
  {
    var op := ds[k].op;
    assert Covers(ds[k], snapIndex, op.clientId, op.requestId);
    DuplicateExactly(snapIndex, ds, op.clientId, op.requestId);
    AcceptedGrows(snapIndex, ds, k + 1);
    assert ds[..k + 1][..k] == ds[..k] && ds[..k + 1][k] == ds[k];
    if !Duplicate(Run(START, snapIndex, ds[..k]).last, op.clientId, op.requestId) {
      var ops := Accepted(snapIndex, ds[..k + 1]);
      assert ops[|ops| - 1] == op;
      assert op in Accepted(snapIndex, ds);
    }
  }

  lemma {:induction false} AcceptedGrows(snapIndex: int, ds: seq<Delivery>, k: nat)
    requires k <= |ds|
    ensures Accepted(snapIndex, ds[..k]) <= Accepted(snapIndex, ds)
    decreases |ds|
  {
    if k < |ds| {
      AcceptedGrows(snapIndex, ds[..|ds| - 1], k);
      assert ds[..|ds| - 1][..k] == ds[..k];
    } else {
      assert ds[..k] == ds;
    }
  }

  // ---------------------------------------------------------------------------------------
  // Replies
  // ---------------------------------------------------------------------------------------

  datatype Option<T> = None | Some(value: T)

  datatype Err = OK | ErrWrongLeader

  /** PutAppend's answer once it leads: `popped` is what came through the wait channel before the time
      was up. */
  function PutAppendAnswer(last: map<string, int>, op: Op, popped: Option<Op>): Err {
    match popped
    case None => if Duplicate(last, op.clientId, op.requestId) then OK else ErrWrongLeader
    case Some(p) => if p.clientId == op.clientId && p.requestId == op.requestId then OK else ErrWrongLeader
  }

  /** What can happen between requests: a handler opens, pops or closes a channel, or the apply loop
      delivers. */
  datatype Step = Open(index: int) | Pop(index: int) | Close(index: int) | Applies(delivery: Delivery)

  function After(st: State, snapIndex: int, step: Step): State {
    match step
    case Open(i) => if i in st.chans then st else st.(chans := st.chans[i := []])
    case Pop(i) => if i in st.chans && |st.chans[i]| > 0 then st.(chans := st.chans[i := st.chans[i][1..]]) else st
    case Close(i) => st.(chans := st.chans - {i})
    case Applies(d) => Deliver(st, snapIndex, d)
  }

  function AfterAll(snapIndex: int, steps: seq<Step>): State {
    if |steps| == 0 then START else After(AfterAll(snapIndex, steps[..|steps| - 1]), snapIndex, steps[|steps| - 1])
  }

  /** The deliveries among the steps. */
  function DeliveriesOf(steps: seq<Step>): seq<Delivery> {
    if |steps| == 0 then []
    else DeliveriesOf(steps[..|steps| - 1]) +
         match steps[|steps| - 1] { case Applies(d) => [d] case _ => [] }
  }

  /** The store and the remembered numbers depend on nothing but what was delivered. */
  lemma {:induction false} OnlyDeliveriesMatter(snapIndex: int, steps: seq<Step>)
    ensures var a, b := AfterAll(snapIndex, steps), Run(START, snapIndex, DeliveriesOf(steps));
            a.store == b.store && a.last == b.last
  {
    if |steps| > 0 {
      var before, last := steps[..|steps| - 1], steps[|steps| - 1];
      OnlyDeliveriesMatter(snapIndex, before);
      hide Deliver;
      if last.Applies? {
        var ds := DeliveriesOf(before);
        assert (ds + [last.delivery])[..|ds|] == ds;
        ChannelsDoNotMatter(AfterAll(snapIndex, before), Run(START, snapIndex, ds), snapIndex, last.delivery);
      } else {
        assert DeliveriesOf(steps) == DeliveriesOf(before);
      }
    }
  }

  lemma ChannelsDoNotMatter(a: State, b: State, snapIndex: int, d: Delivery)
    requires a.store == b.store && a.last == b.last
    ensures Deliver(a, snapIndex, d).store == Deliver(b, snapIndex, d).store
    ensures Deliver(a, snapIndex, d).last == Deliver(b, snapIndex, d).last
  {
  }

  /** What the server remembers, whatever its handlers did: exactly what the delivered writes cover. */
  lemma RememberedExactly(snapIndex: int, steps: seq<Step>, clientId: string, r: int)
    ensures Duplicate(AfterAll(snapIndex, steps).last, clientId, r) <==> Written(snapIndex, steps, clientId, r)
  {
    OnlyDeliveriesMatter(snapIndex, steps);
    DuplicateExactly(snapIndex, DeliveriesOf(steps), clientId, r);
  }

  /** Some delivered write of the client is numbered at least r. */
  ghost predicate Written(snapIndex: int, steps: seq<Step>, clientId: string, r: int) {
    exists i :: 0 <= i < |DeliveriesOf(steps)| && Covers(DeliveriesOf(steps)[i], snapIndex, clientId, r)
  }

  /** Whatever waits in a channel was delivered at the channel's index. */
  ghost predicate ChannelsDelivered(st: State, snapIndex: int, ds: seq<Delivery>) {
    forall i, op :: i in st.chans && op in st.chans[i] ==> i > snapIndex && Delivery(i, op) in ds
  }

  lemma StepDelivers(st: State, snapIndex: int, ds: seq<Delivery>, step: Step, ds': seq<Delivery>)
    requires ChannelsDelivered(st, snapIndex, ds)
    requires (forall d :: d in ds ==> d in ds') && (step.Applies? ==> step.delivery in ds')
    ensures ChannelsDelivered(After(st, snapIndex, step), snapIndex, ds')
  {
    var st' := After(st, snapIndex, step);
    forall i, op | i in st'.chans && op in st'.chans[i]
      ensures i > snapIndex && Delivery(i, op) in ds'
    {
      if i !in st.chans || op !in st.chans[i] {
        assert step == Applies(Delivery(i, op));
      }
    }
  }

  lemma {:induction false} RunDelivers(snapIndex: int, steps: seq<Step>)
    ensures ChannelsDelivered(AfterAll(snapIndex, steps), snapIndex, DeliveriesOf(steps))
  {
    if |steps| > 0 {
      hide ChannelsDelivered, After;
      var before, last := steps[..|steps| - 1], steps[|steps| - 1];
      RunDelivers(snapIndex, before);
      var ds := DeliveriesOf(before);
      assert last.Applies? ==> DeliveriesOf(steps) == ds + [last.delivery];
      assert !last.Applies? ==> DeliveriesOf(steps) == ds;
      StepDelivers(AfterAll(snapIndex, before), snapIndex, ds, last, DeliveriesOf(steps));
    } else {
      assert AfterAll(snapIndex, steps) == START;
    }
  }

  lemma {:induction false} DeliveriesGrow(steps: seq<Step>, k: nat)
    requires k <= |steps|
    ensures DeliveriesOf(steps[..k]) <= DeliveriesOf(steps)
    decreases |steps|
  {
    if k < |steps| {
      DeliveriesGrow(steps[..|steps| - 1], k);
      assert steps[..|steps| - 1][..k] == steps[..k];
    } else {
      assert steps[..k] == steps;
    }
  }

  /** Every delivery past the snapshot reaches the channel of its index, if there is one, behind what waits
      there, be it a write, a Get or a duplicate; no other channel changes, and none comes or goes. */
  lemma EveryDeliveryNotifies(st: State, snapIndex: int, d: Delivery)
    ensures var st' := Deliver(st, snapIndex, d);
            && st'.chans.Keys == st.chans.Keys
            && (forall i :: i in st.chans && i != d.index ==> st'.chans[i] == st.chans[i])
            && (d.index in st.chans ==>
                  st'.chans[d.index] == st.chans[d.index] + if d.index > snapIndex then [d.op] else [])
  {
  }

  /** A wait channel watched from outside: closed, or open with what was delivered at its index since and how
      much of that has been popped. */
  datatype Watched = Closed | Opened(delivered: seq<Op>, popped: nat)

  function Watch(snapIndex: int, steps: seq<Step>, i: int): Watched {
    if |steps| == 0 then Closed
    else
      var w := Watch(snapIndex, steps[..|steps| - 1], i);
      match steps[|steps| - 1]
      case Open(j) => if j == i && w.Closed? then Opened([], 0) else w
      case Close(j) => if j == i then Closed else w
      case Pop(j) => if j == i && w.Opened? && w.popped < |w.delivered| then w.(popped := w.popped + 1) else w
      case Applies(d) =>
        if d.index == i && i > snapIndex && w.Opened? then w.(delivered := w.delivered + [d.op]) else w
  }

  /** The channel is there when it is watched as open, and holds what was delivered and not popped. */
  ghost predicate Matches(st: State, i: int, w: Watched) {
    && (i in st.chans <==> w.Opened?)
    && (w.Opened? ==> w.popped <= |w.delivered| && st.chans[i] == w.delivered[w.popped..])
  }

  /** In every run a channel holds exactly the operations delivered at its index since it was opened, less
      those popped, in order. */
  lemma {:induction false} ChannelHolds(snapIndex: int, steps: seq<Step>, i: int)
    ensures Matches(AfterAll(snapIndex, steps), i, Watch(snapIndex, steps, i))
  {
    if |steps| > 0 {
      var before, last := steps[..|steps| - 1], steps[|steps| - 1];
      ChannelHolds(snapIndex, before, i);
      hide Deliver;
      var st, w := AfterAll(snapIndex, before), Watch(snapIndex, before, i);
      if last.Applies? {
        EveryDeliveryNotifies(st, snapIndex, last.delivery);
        if w.Opened? {
          assert w.delivered[w.popped..] + [last.delivery.op] == (w.delivered + [last.delivery.op])[w.popped..];
        }
      } else if last.Pop? && w.Opened? && w.popped < |w.delivered| {
        assert w.delivered[w.popped..][1..] == w.delivered[w.popped + 1..];
      }
    }
  }

  /** How the wait of a PutAppend call ended by the time of its answer: the channel gave it p at step k, or
      nothing came in time. */
  ghost predicate Waited(snapIndex: int, steps: seq<Step>, k: nat, popped: Option<Op>) {
    popped.Some? ==>
      && k < |steps| && steps[k].Pop?
      && var st := AfterAll(snapIndex, steps[..k]);
         && steps[k].index in st.chans && |st.chans[steps[k].index]| > 0
         && st.chans[steps[k].index][0] == popped.value
  }

  /** Nothing comes out of a channel that has not been delivered. */
  lemma PoppedWasDelivered(snapIndex: int, steps: seq<Step>, k: nat, p: Op)
    requires Waited(snapIndex, steps, k, Some(p))
    ensures steps[k].index > snapIndex && Delivery(steps[k].index, p) in DeliveriesOf(steps)
  {
    RunDelivers(snapIndex, steps[..k]);
    assert p in AfterAll(snapIndex, steps[..k]).chans[steps[k].index];
    DeliveriesGrow(steps, k);
    assert Delivery(steps[k].index, p) in DeliveriesOf(steps[..k]);
  }

  /** Every OK, after a pop or a timeout: the server remembers the request's number or a higher one if and
      only if what was popped is a write or a write of the client numbered that high was delivered.  After
      a timeout, and after popping a write, it always does. */
  lemma OkOnlyIfRemembered(snapIndex: int, steps: seq<Step>, k: nat, op: Op, popped: Option<Op>)
    requires Waited(snapIndex, steps, k, popped)
    requires PutAppendAnswer(AfterAll(snapIndex, steps).last, op, popped) == OK
    ensures Duplicate(AfterAll(snapIndex, steps).last, op.clientId, op.requestId) <==>
            (popped.Some? && Writes(popped.value)) || Written(snapIndex, steps, op.clientId, op.requestId)
    ensures popped.None? || Writes(popped.value) ==>
              Duplicate(AfterAll(snapIndex, steps).last, op.clientId, op.requestId)
  {
    RememberedExactly(snapIndex, steps, op.clientId, op.requestId);
    if popped.Some? && Writes(popped.value) {
      PoppedWasDelivered(snapIndex, steps, k, popped.value);
      var d := Delivery(steps[k].index, popped.value);
      var i :| 0 <= i < |DeliveriesOf(steps)| && DeliveriesOf(steps)[i] == d;
      assert Covers(DeliveriesOf(steps)[i], snapIndex, op.clientId, op.requestId);
    }
  }

  /** And when PutAppend answers OK: after a timeout if and only if a write of the client numbered at least as
      high was delivered, and after a pop if and only if it popped an operation of that client and number. */
  lemma OkExactly(snapIndex: int, steps: seq<Step>, op: Op, popped: Option<Op>)
    ensures PutAppendAnswer(AfterAll(snapIndex, steps).last, op, popped) == OK <==>
            match popped
            case None => Written(snapIndex, steps, op.clientId, op.requestId)
            case Some(p) => p.clientId == op.clientId && p.requestId == op.requestId
  {
    RememberedExactly(snapIndex, steps, op.clientId, op.requestId);
  }

  /** So a request whose own write is the first to be delivered while its channel is open, whether executed
      or a duplicate, is popped and answered with OK. */
  lemma OwnWriteIsAnswered(snapIndex: int, steps: seq<Step>, op: Op, i: int)
    requires Watch(snapIndex, steps, i).Opened? && Watch(snapIndex, steps, i).popped == 0
    requires var ops := Watch(snapIndex, steps, i).delivered; |ops| > 0 && ops[0] == op
    ensures Waited(snapIndex, steps + [Pop(i)], |steps|, Some(op))
    ensures PutAppendAnswer(AfterAll(snapIndex, steps + [Pop(i)]).last, op, Some(op)) == OK
  {
    ChannelHolds(snapIndex, steps, i);
    assert (steps + [Pop(i)])[..|steps|] == steps;
  }

  /** No operation delivered under the request's own client and number is of the other kind, write or not. */
  ghost predicate NumberedApart(steps: seq<Step>, op: Op) {
    forall d :: d in DeliveriesOf(steps) && d.op.clientId == op.clientId && d.op.requestId == op.requestId ==>
      (Writes(d.op) <==> Writes(op))
  }

  /** A client that never uses one number for both a Get and a write can rely on every OK to a write. */
  lemma OkIsReliable(snapIndex: int, steps: seq<Step>, k: nat, op: Op, popped: Option<Op>)
    requires Waited(snapIndex, steps, k, popped)
    requires Writes(op) && NumberedApart(steps, op)
    requires PutAppendAnswer(AfterAll(snapIndex, steps).last, op, popped) == OK
    ensures Duplicate(AfterAll(snapIndex, steps).last, op.clientId, op.requestId)
  {
    if popped.Some? {
      PoppedWasDelivered(snapIndex, steps, k, popped.value);
      assert Writes(Delivery(steps[k].index, popped.value).op);
    }
    OkOnlyIfRemembered(snapIndex, steps, k, op, popped);
  }

  /** A Get delivered under the request's own client and number is taken for the request: the answer is OK
      although nothing was written. */
  lemma OkWithoutWrite() returns (steps: seq<Step>, k: nat, op: Op, popped: Option<Op>)
    ensures Waited(0, steps, k, popped) && Writes(op) && AfterAll(0, steps).store == map[]
    ensures PutAppendAnswer(AfterAll(0, steps).last, op, popped) == OK
    ensures !Duplicate(AfterAll(0, steps).last, op.clientId, op.requestId)
  {
    op := Op("Put", "k", "v", "c", 1);
    var get := Op("Get", "k", "", "c", 1);
    assert !Writes(get) by {
      assert "Get"[0] != "Put"[0] && |"Get"| != |"Append"|;
    }
    var start, got := [Open(1)], [Open(1), Applies(Delivery(1, get))];
    steps, k, popped := got + [Pop(1)], 2, Some(get);
    assert steps[..2] == got && got[..1] == start && start[..0] == [];
    assert AfterAll(0, start) == After(START, 0, Open(1));
    assert Deliver(AfterAll(0, start), 0, Delivery(1, get)).chans[1] == [get];
  }
}
