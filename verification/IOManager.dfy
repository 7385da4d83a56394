/** Accounting for epoll events: which are pending, and what becomes of every registration. */
module IOManagers {

  datatype Option<T> = None | Some(value: T)

  datatype Event = READ | WRITE

  /** What is to run when an event fires. */
  datatype Handler = RunFiber(fiber: int) | RunCallback(cb: int)

  /** The context of one event; it is empty when nothing is registered. */
  datatype EventContext = EventContext(hasScheduler: bool, fiber: Option<int>, cb: Option<int>)

  const EMPTY := EventContext(false, None, None)

  function ContextFor(h: Handler): EventContext {
    match h
    case RunFiber(f) => EventContext(true, Some(f), None)
    case RunCallback(c) => EventContext(true, None, Some(c))
  }

  // ---------------------------------------------------------------------------------------
  // What becomes of registrations
  // ---------------------------------------------------------------------------------------

  type Key = (nat, Event)

  /** Registrations are numbered as they are made.  `handlers` is what each was for, `held` the number
      behind each set bit, `done` and `dropped` the numbers that were scheduled and deleted, in order. */
  datatype Ledger = Ledger(handlers: seq<Handler>, held: map<Key, nat>, done: seq<nat>, dropped: seq<nat>)

  const NO_EVENTS := Ledger([], map[], [], [])

  ghost predicate Distinct(s: seq<nat>) {
    forall j, k :: 0 <= j < k < |s| ==> s[j] != s[k]
  }

  /** Every registration is held for exactly one bit, or was scheduled once, or was deleted once. */
  ghost predicate Conserved(l: Ledger) {
    && (forall p, q :: p in l.held && q in l.held && l.held[p] == l.held[q] ==> p == q)
    && (forall p :: p in l.held ==> l.held[p] < |l.handlers| && l.held[p] !in l.done && l.held[p] !in l.dropped)
    && Distinct(l.done) && Distinct(l.dropped)
    && (forall n :: n in l.done ==> n < |l.handlers| && n !in l.dropped)
    && (forall n :: n in l.dropped ==> n < |l.handlers|)
    && |l.held.Keys| + |l.done| + |l.dropped| == |l.handlers|
  }

  function Register(l: Ledger, key: Key, h: Handler): Ledger {
    l.(handlers := l.handlers + [h], held := l.held[key := |l.handlers|])
  }

  function Fire(l: Ledger, key: Key): Ledger
    requires key in l.held
  {
    l.(held := l.held - {key}, done := l.done + [l.held[key]])
  }

  function Drop(l: Ledger, key: Key): Ledger
    requires key in l.held
  {
    l.(held := l.held - {key}, dropped := l.dropped + [l.held[key]])
  }

  /** What was scheduled or deleted stays so. */
  ghost predicate Grows(l: Ledger, l': Ledger) {
    l.done <= l'.done && l.dropped <= l'.dropped && l.handlers <= l'.handlers
  }

  lemma RegisterConserves(l: Ledger, key: Key, h: Handler)
    requires Conserved(l) && key !in l.held
    ensures Conserved(Register(l, key, h)) && |Register(l, key, h).held.Keys| == |l.held.Keys| + 1
  {
    assert Register(l, key, h).held.Keys == l.held.Keys + {key};
  }

  lemma FireConserves(l: Ledger, key: Key)
    requires Conserved(l) && key in l.held
    ensures Conserved(Fire(l, key)) && |Fire(l, key).held.Keys| == |l.held.Keys| - 1
  {
    assert Fire(l, key).held.Keys == l.held.Keys - {key};
  }

  lemma DropConserves(l: Ledger, key: Key)
    requires Conserved(l) && key in l.held
    ensures Conserved(Drop(l, key)) && |Drop(l, key).held.Keys| == |l.held.Keys| - 1
  {
    assert Drop(l, key).held.Keys == l.held.Keys - {key};
  }

  ghost function Elements(s: seq<nat>): set<nat> {
    set x | x in s
  }

  ghost function Holders(l: Ledger, n: nat): set<Key> {
    set p | p in l.held && l.held[p] == n
  }

  /** Every registration has exactly one fate, once: it is held for one bit, or was scheduled once, or was
      deleted once. */
  lemma OncePerRegistration(l: Ledger, n: nat)
    requires Conserved(l) && n < |l.handlers|
    ensures multiset(l.done)[n] + multiset(l.dropped)[n] + |Holders(l, n)| == 1
  {
    hide *;
    var a, b, c := Elements(l.done), Elements(l.dropped), l.held.Values;
    FatesCount(l);
    DisjointFates(l);
    DisjointSizes(a, b, c);
    Below(a + b + c, |l.handlers|);
    FateOf(l, n);
  }

  lemma FatesCount(l: Ledger)
    requires Conserved(l)
    ensures |Elements(l.done)| + |Elements(l.dropped)| + |l.held.Values| == |l.handlers|
  {
    DistinctSize(l.done);
    DistinctSize(l.dropped);
    InjectiveSize(l.held);
  }

  lemma FateOf(l: Ledger, n: nat)
    requires Conserved(l) && n in Elements(l.done) + Elements(l.dropped) + l.held.Values
    ensures multiset(l.done)[n] + multiset(l.dropped)[n] + |Holders(l, n)| == 1
  {
    DistinctCount(l.done, n);
    DistinctCount(l.dropped, n);
    HolderCount(l, n);
  }

  lemma {:induction false} DistinctCount(s: seq<nat>, n: nat)
    requires Distinct(s)
    ensures multiset(s)[n] == if n in s then 1 else 0
  {
    if |s| > 0 {
      var r, last := s[..|s| - 1], s[|s| - 1];
      DistinctCount(r, n);
      assert s == r + [last] && last !in r;
    }
  }

  lemma HolderCount(l: Ledger, n: nat)
    requires Conserved(l)
    ensures |Holders(l, n)| == if n in l.held.Values then 1 else 0
  {
    if n in l.held.Values {
      var p :| p in l.held && l.held[p] == n;
      assert Holders(l, n) == {p};
    }
  }

  lemma DisjointFates(l: Ledger)
    requires Conserved(l)
    ensures Elements(l.done) !! Elements(l.dropped) && (Elements(l.done) + Elements(l.dropped)) !! l.held.Values
    ensures forall n :: n in Elements(l.done) + Elements(l.dropped) + l.held.Values ==> n < |l.handlers|
  {
    forall n | n in l.held.Values
      ensures n < |l.handlers| && n !in l.done && n !in l.dropped
    {
      var p :| p in l.held && l.held[p] == n;
    }
  }

  lemma DisjointSizes(a: set<nat>, b: set<nat>, c: set<nat>)
    requires a !! b && (a + b) !! c
    ensures |a + b + c| == |a| + |b| + |c|
  {
  }

  lemma {:induction false} DistinctSize(s: seq<nat>)
    requires Distinct(s)
    ensures |Elements(s)| == |s|
  {
    if |s| > 0 {
      var r, last := s[..|s| - 1], s[|s| - 1];
      DistinctSize(r);
      assert Elements(s) == Elements(r) + {last} by {
        assert s == r + [last];
      }
      assert last !in r;
    }
  }

  lemma {:induction false} InjectiveSize(m: map<Key, nat>)
    requires forall p, q :: p in m && q in m && m[p] == m[q] ==> p == q
    ensures |m.Values| == |m.Keys|
    decreases |m.Keys|
  {
    if m.Keys != {} {
      var key :| key in m.Keys;
      var r := m - {key};
      assert r.Keys == m.Keys - {key};
      InjectiveSize(r);
      assert m.Values == r.Values + {m[key]} by {
        forall n | n in m.Values
          ensures n in r.Values + {m[key]}
        {
          var p :| p in m && m[p] == n;
          assert p != key ==> p in r && r[p] == n;
        }
      }
      assert m[key] !in r.Values;
    }
  }

  /** A set of |n| numbers below n holds all of them. */
  lemma {:induction false} Below(s: set<nat>, n: nat)
    requires |s| == n && forall x :: x in s ==> x < n
    ensures forall x: nat :: x < n ==> x in s
  {
    if n > 0 {
      if n - 1 in s {
        Below(s - {n - 1}, n - 1);
      } else {
        TooMany(s, n - 1);
      }
    }
  }

  lemma {:induction false} TooMany(s: set<nat>, n: nat)
    requires forall x :: x in s ==> x < n
    ensures |s| <= n
  {
    if n == 0 {
      assert s == {};
    } else {
      TooMany(s - {n - 1}, n - 1);
    }
  }

  class FdContext {
    const fd: nat
    var read: EventContext
    var write: EventContext
    /** The bits of `events`. */
    var events: set<Event>

    constructor (fd: nat)
      ensures this.fd == fd && read == EMPTY && write == EMPTY && events == {}
    {
      this.fd, read, write, events := fd, EMPTY, EMPTY, {};
    }

    function GetContext(e: Event): EventContext
      reads this
    {
      if e.READ? then read else write
    }

    method SetContext(e: Event, c: EventContext)
      modifies `read, `write
      ensures GetContext(e) == c && forall f: Event :: f != e ==> GetContext(f) == old(GetContext(f))
    {
      if e.READ? {
        read := c;
      } else {
        write := c;
      }
    }
  }

  /** The ledger after the given events of fd have fired, read before write; those not held stay as they are. */
  function FireAll(l: Ledger, fd: nat, events: set<Event>): Ledger {
    var l1 := if READ in events && (fd, READ) in l.held then Fire(l, (fd, READ)) else l;
    if WRITE in events && (fd, WRITE) in l1.held then Fire(l1, (fd, WRITE)) else l1
  }

  /** The events of fd that something is registered for. */
  function Registered(l: Ledger, fd: nat): set<Event> {
    (if (fd, READ) in l.held then {READ} else {}) + (if (fd, WRITE) in l.held then {WRITE} else {})
  }

  /** The operations, each with what epoll_ctl said. */
  datatype Op =
    | AddOp(fd: nat, event: Event, handler: Handler, ctlOk: bool)
    | DelOp(fd: nat, event: Event, ctlOk: bool)
    | CancelOp(fd: nat, event: Event, ctlOk: bool)
    | CancelAllOp(fd: nat, ctlOk: bool)
    | DispatchOp(fd: nat, reported: set<Event>, broken: bool, ctlOk: bool)

  /** What each does to the registrations. */
  function After(l: Ledger, op: Op): Ledger {
    match op
    case AddOp(fd, e, h, ctlOk) => if (fd, e) in l.held || !ctlOk then l else Register(l, (fd, e), h)
    case DelOp(fd, e, ctlOk) => if (fd, e) in l.held && ctlOk then Drop(l, (fd, e)) else l
    case CancelOp(fd, e, ctlOk) => if (fd, e) in l.held && ctlOk then Fire(l, (fd, e)) else l
    case CancelAllOp(fd, ctlOk) => if ctlOk then FireAll(l, fd, {READ, WRITE}) else l
    case DispatchOp(fd, reported, broken, ctlOk) =>
      var acted := if broken then reported + Registered(l, fd) else reported;
      if ctlOk then FireAll(l, fd, acted) else l
  }

  function AfterAll(l: Ledger, ops: seq<Op>): Ledger {
    if |ops| == 0 then l else After(AfterAll(l, ops[..|ops| - 1]), ops[|ops| - 1])
  }

  /** Over any run of operations, registrations are conserved; whatever was scheduled or deleted stays so,
      in order, and by conservation is neither again. */
  lemma {:induction false} RunsConserve(l: Ledger, ops: seq<Op>, k: nat)
    requires Conserved(l) && k <= |ops|
    ensures Conserved(AfterAll(l, ops))
    ensures AfterAll(l, ops[..k]).done <= AfterAll(l, ops).done
    ensures AfterAll(l, ops[..k]).dropped <= AfterAll(l, ops).dropped
    ensures AfterAll(l, ops[..k]).handlers <= AfterAll(l, ops).handlers
    decreases |ops|
  {
    if |ops| == 0 {
      assert ops[..k] == ops;
    } else {
      hide Conserved, After;
      var before, last := ops[..|ops| - 1], ops[|ops| - 1];
      RunsConserve(l, before, if k < |ops| then k else k - 1);
      StepConserves(AfterAll(l, before), last);
      if k < |ops| {
        assert before[..k] == ops[..k];
      } else {
        assert ops[..k] == ops;
      }
    }
  }

  lemma FireAllConserves(l: Ledger, fd: nat, events: set<Event>)
    requires Conserved(l)
    ensures Conserved(FireAll(l, fd, events)) && Grows(l, FireAll(l, fd, events))
  {
    hide Conserved, Fire, Grows;
    KeyGrows(l, (fd, READ), RunFiber(0));
    var l1 := if READ in events && (fd, READ) in l.held then Fire(l, (fd, READ)) else l;
    KeyGrows(l1, (fd, WRITE), RunFiber(0));
    if READ in events && (fd, READ) in l.held {
      FireConserves(l, (fd, READ));
    }
    if WRITE in events && (fd, WRITE) in l1.held {
      FireConserves(l1, (fd, WRITE));
    }
    GrowsOn(l, l1, FireAll(l, fd, events));
  }

  lemma GrowsOn(l: Ledger, l1: Ledger, l2: Ledger)
    requires Grows(l, l1) && Grows(l1, l2)
    ensures Grows(l, l2)
  {
  }

  lemma KeyGrows(l: Ledger, key: Key, h: Handler)
    ensures Grows(l, l) && Grows(l, Register(l, key, h))
    ensures key in l.held ==> Grows(l, Fire(l, key)) && Grows(l, Drop(l, key))
  {
  }

  lemma StepConserves(l: Ledger, op: Op)
    requires Conserved(l)
    ensures Conserved(After(l, op)) && Grows(l, After(l, op))
  {
    hide Conserved, Grows, Register, Fire, Drop, FireAll, Registered;
    match op
    case AddOp(fd, e, h, ctlOk) =>
      KeyGrows(l, (fd, e), h);
      if (fd, e) !in l.held {
        RegisterConserves(l, (fd, e), h);
      }
    case DelOp(fd, e, ctlOk) =>
      KeyGrows(l, (fd, e), RunFiber(0));
      if (fd, e) in l.held {
        DropConserves(l, (fd, e));
      }
    case CancelOp(fd, e, ctlOk) =>
      KeyGrows(l, (fd, e), RunFiber(0));
      if (fd, e) in l.held {
        FireConserves(l, (fd, e));
      }
    case CancelAllOp(fd, ctlOk) =>
      KeyGrows(l, (fd, READ), RunFiber(0));
      FireAllConserves(l, fd, {READ, WRITE});
    case DispatchOp(fd, reported, broken, ctlOk) =>
      KeyGrows(l, (fd, READ), RunFiber(0));
      FireAllConserves(l, fd, if broken then reported + Registered(l, fd) else reported);
  }

  lemma SomeEvent(events: set<Event>)
    ensures events == {} <==> READ !in events && WRITE !in events
  {
    if READ !in events && WRITE !in events {
      forall e: Event
        ensures e !in events
      {
        match e
        case READ =>
        case WRITE =>
      }
    }
  }

  lemma BothOrHeld(l: Ledger, fd: nat, events: set<Event>)
    requires (READ in events <==> (fd, READ) in l.held) && (WRITE in events <==> (fd, WRITE) in l.held)
    ensures FireAll(l, fd, events) == FireAll(l, fd, {READ, WRITE})
    ensures HandlersFor(l, fd, events) == HandlersFor(l, fd, {READ, WRITE})
  {
  }

  // ---------------------------------------------------------------------------------------
  // What the operations do, registration by registration
  // ---------------------------------------------------------------------------------------

  /** The number held for a bit, and the handler registered under it. */
  function NumberFor(l: Ledger, key: Key): seq<nat> {
    if key in l.held then [l.held[key]] else []
  }

  function HandlerFor(l: Ledger, key: Key): seq<Handler> {
    if key in l.held && l.held[key] < |l.handlers| then [l.handlers[l.held[key]]] else []
  }

  /** The same for those of the given events of fd, read before write. */
  function NumbersFor(l: Ledger, fd: nat, events: set<Event>): seq<nat> {
    (if READ in events then NumberFor(l, (fd, READ)) else [])
    + (if WRITE in events then NumberFor(l, (fd, WRITE)) else [])
  }

  function HandlersFor(l: Ledger, fd: nat, events: set<Event>): seq<Handler> {
    (if READ in events then HandlerFor(l, (fd, READ)) else [])
    + (if WRITE in events then HandlerFor(l, (fd, WRITE)) else [])
  }

  /** The bits of these events are clear, and all the others as they were. */
  ghost predicate Cleared(l: Ledger, l': Ledger, fd: nat, events: set<Event>) {
    && l'.handlers == l.handlers
    && (forall key :: key in l'.held <==> key in l.held && !(key.0 == fd && key.1 in events))
    && (forall key :: key in l'.held ==> l'.held[key] == l.held[key])
  }

  /** What was registered for these events of fd is scheduled, read before write, and nothing is deleted. */
  ghost predicate Scheduled(l: Ledger, l': Ledger, fd: nat, events: set<Event>) {
    Cleared(l, l', fd, events) && l'.done == l.done + NumbersFor(l, fd, events) && l'.dropped == l.dropped
  }

  /** What was registered for these events of fd is deleted, and nothing is scheduled. */
  ghost predicate Deleted(l: Ledger, l': Ledger, fd: nat, events: set<Event>) {
    Cleared(l, l', fd, events) && l'.dropped == l.dropped + NumbersFor(l, fd, events) && l'.done == l.done
  }

  lemma FireAllSchedules(l: Ledger, fd: nat, events: set<Event>)
    ensures Scheduled(l, FireAll(l, fd, events), fd, events)
  {
    var l' := FireAll(l, fd, events);
    forall key: Key
      ensures key in l'.held <==> key in l.held && !(key.0 == fd && key.1 in events)
    {
      match key.1
      case READ => assert key == (key.0, READ);
      case WRITE => assert key == (key.0, WRITE);
    }
  }

  lemma FireSchedules(l: Ledger, fd: nat, e: Event)
    requires (fd, e) in l.held
    ensures Scheduled(l, Fire(l, (fd, e)), fd, {e}) && Deleted(l, Drop(l, (fd, e)), fd, {e})
  {
    match e
    case READ =>
    case WRITE =>
  }

  lemma NothingChanges(l: Ledger, fd: nat, e: Event)
    requires (fd, e) !in l.held
    ensures Scheduled(l, l, fd, {e}) && Deleted(l, l, fd, {e})
  {
    match e
    case READ =>
    case WRITE =>
  }

  /** addEvent holds a new registration for a clear bit; cancelling and dispatching schedule what is
      registered, and deleting only deletes it.  Nothing happens when epoll_ctl fails. */
  lemma OpsDo(l: Ledger, op: Op)
    ensures var l' := After(l, op);
            match op
            case AddOp(fd, e, h, ctlOk) =>
              if (fd, e) in l.held || !ctlOk then l' == l
              else && l'.handlers == l.handlers + [h] && l'.held == l.held[(fd, e) := |l.handlers|]
                   && l'.done == l.done && l'.dropped == l.dropped
            case DelOp(fd, e, ctlOk) => if ctlOk then Deleted(l, l', fd, {e}) else l' == l
            case CancelOp(fd, e, ctlOk) => if ctlOk then Scheduled(l, l', fd, {e}) else l' == l
            case CancelAllOp(fd, ctlOk) => if ctlOk then Scheduled(l, l', fd, {READ, WRITE}) else l' == l
            case DispatchOp(fd, reported, broken, ctlOk) =>
              if ctlOk then Scheduled(l, l', fd, if broken then reported + Registered(l, fd) else reported) else l' == l
  {
    hide Scheduled, Deleted, FireAll, Fire, Drop;
    match op
    case AddOp(_, _, _, _) =>
    case DelOp(fd, e, _) =>
      if (fd, e) in l.held {
        FireSchedules(l, fd, e);
      } else {
        NothingChanges(l, fd, e);
      }
    case CancelOp(fd, e, _) =>
      if (fd, e) in l.held {
        FireSchedules(l, fd, e);
      } else {
        NothingChanges(l, fd, e);
      }
    case CancelAllOp(fd, _) => FireAllSchedules(l, fd, {READ, WRITE});
    case DispatchOp(fd, reported, broken, _) =>
      FireAllSchedules(l, fd, if broken then reported + Registered(l, fd) else reported);
  }

  // ---------------------------------------------------------------------------------------
  // One bit and its context
  // ---------------------------------------------------------------------------------------

  /** A bit is set exactly when a registration is held for it, and its context is empty exactly when the
      bit is clear. */
  ghost predicate Slot(c: EventContext, bit: bool, key: Key, l: Ledger) {
    && (bit <==> key in l.held)
    && (bit ==> l.held[key] < |l.handlers| && c == ContextFor(l.handlers[l.held[key]]))
    && (!bit ==> c == EMPTY)
  }

  ghost predicate Agrees(c: FdContext, l: Ledger)
    reads c
  {
    Slot(c.read, READ in c.events, (c.fd, READ), l) && Slot(c.write, WRITE in c.events, (c.fd, WRITE), l)
  }

  /** The two ledgers differ at most in the given bit. */
  ghost predicate Elsewhere(l: Ledger, l': Ledger, key: Key) {
    && l.handlers <= l'.handlers
    && forall k :: k != key ==> (k in l.held <==> k in l'.held) && (k in l.held ==> l.held[k] == l'.held[k])
  }

  lemma StepsElsewhere(l: Ledger, key: Key, h: Handler)
    ensures Elsewhere(l, Register(l, key, h), key)
    ensures key in l.held ==> Elsewhere(l, Fire(l, key), key) && Elsewhere(l, Drop(l, key), key)
  {
  }

  lemma OthersAgree(cs: seq<FdContext>, key: Key, l: Ledger, l': Ledger)
    requires Elsewhere(l, l', key)
    requires forall i :: 0 <= i < |cs| ==> Agrees(cs[i], l)
    ensures forall i :: 0 <= i < |cs| && cs[i].fd != key.0 ==> Agrees(cs[i], l')
  {
    forall i | 0 <= i < |cs| && cs[i].fd != key.0
      ensures Agrees(cs[i], l')
    {
      assert Agrees(cs[i], l);
    }
  }

  lemma EmptySlot(c: EventContext, key: Key, l: Ledger)
    requires Slot(c, false, key, l)
    ensures c == EMPTY && key !in l.held
  {
  }

  lemma NewSlot(l: Ledger, key: Key, h: Handler)
    ensures Slot(ContextFor(h), true, key, Register(l, key, h))
    ensures key in Register(l, key, h).held && HandlerFor(Register(l, key, h), key) == [h]
  {
  }

  /** Setting or clearing one event's bit and context together. */
  method Update(ctx: FdContext, event: Event, bit: bool, c: EventContext, ghost l: Ledger, ghost l': Ledger)
    requires Agrees(ctx, l) && Elsewhere(l, l', (ctx.fd, event)) && Slot(c, bit, (ctx.fd, event), l')
    modifies ctx
    ensures Agrees(ctx, l')
    ensures ctx.events == if bit then old(ctx.events) + {event} else old(ctx.events) - {event}
  {
    ctx.events := if bit then ctx.events + {event} else ctx.events - {event};
    ctx.SetContext(event, c);
    assert ctx.GetContext(READ) == ctx.read && ctx.GetContext(WRITE) == ctx.write;
  }

  class IOManager {
    var contexts: seq<FdContext>
    var pendingEventCount: int
    /** Everything handed to the scheduler, in order. */
    var scheduled: seq<Handler>

    ghost var ledger: Ledger
    ghost var owned: set<FdContext>

    ghost predicate Contexts()
      reads `contexts, `owned
    {
      && |contexts| >= 32
      && forall i :: 0 <= i < |contexts| ==> contexts[i] in owned && contexts[i].fd == i
    }

    /** Every held registration is for a bit of some context, and every context agrees with the ledger. */
    ghost predicate Bits()
      requires Contexts()
      reads `contexts, `owned, `ledger, owned
    {
      && (forall key :: key in ledger.held ==> key.0 < |contexts|)
      && (forall i :: 0 <= i < |contexts| ==> Agrees(contexts[i], ledger))
    }

    /** What was handed to the scheduler is what the scheduled registrations were for. */
    ghost predicate Ran()
      reads `ledger, `scheduled
    {
      && |scheduled| == |ledger.done|
      && forall k :: 0 <= k < |scheduled| ==>
           ledger.done[k] < |ledger.handlers| && scheduled[k] == ledger.handlers[ledger.done[k]]
    }

    ghost predicate Valid()
      reads this, owned
    {
      Booked() && pendingEventCount == |ledger.held.Keys|
    }

    /** All of that but the counter, which is adjusted after the events it counts. */
    ghost predicate Booked()
      reads this, owned
    {
      Contexts() && Bits() && Conserved(ledger) && Ran()
    }

    constructor ()
      ensures Valid() && |contexts| == 32 && ledger == NO_EVENTS && scheduled == [] && fresh(owned)
    {
      contexts, pendingEventCount, scheduled := [], 0, [];
      ledger, owned := NO_EVENTS, {};
      new;
      for i := 0 to 32
        invariant |contexts| == i && ledger == NO_EVENTS && scheduled == []
        invariant pendingEventCount == 0 && fresh(owned)
        invariant forall k :: 0 <= k < i ==> contexts[k] in owned && contexts[k].fd == k
        invariant forall c :: c in owned ==> c.events == {} && c.read == EMPTY && c.write == EMPTY
      {
        var c := new FdContext(i);
        contexts, owned := contexts + [c], owned + {c};
      }
    }

    // -------------------------------------------------------------------------------------
    // Operations; `ctlOk` is whether epoll_ctl succeeded
    // -------------------------------------------------------------------------------------

    /** contextResize, for a size past the current one. */
    method ContextResize(size: nat)
      requires Valid() && size >= |contexts|
      modifies `contexts, `owned
      ensures Valid() && |contexts| == size && fresh(owned - old(owned))
    {
      hide Conserved;
      while |contexts| < size
        invariant Valid() && |contexts| <= size && fresh(owned - old(owned))
      {
        var c := new FdContext(|contexts|);
        contexts, owned := contexts + [c], owned + {c};
      }
    }

    /** The context of fd, after making room for it if need be. */
    method ContextOf(fd: nat) returns (ctx: FdContext)
      requires Valid()
      modifies `contexts, `owned
      ensures Valid() && fresh(owned - old(owned))
      ensures fd < |contexts| && ctx == contexts[fd] && (ctx in old(owned) || fresh(ctx))
    {
      hide Conserved, Bits, Ran;
      if |contexts| <= fd {
        ContextResize(fd * 3 / 2);
      }
      ctx := contexts[fd];
    }

    method AddEvent(fd: nat, event: Event, handler: Handler, ctlOk: bool) returns (rt: int)
      requires Valid()
      modifies this, owned
      ensures Valid() && fresh(owned - old(owned)) && scheduled == old(scheduled)
      ensures rt == if (fd, event) in old(ledger).held || !ctlOk then -1 else 0
      ensures ledger == if rt == 0 then Register(old(ledger), (fd, event), handler) else old(ledger)
      ensures rt == 0 ==> (fd, event) in ledger.held && HandlerFor(ledger, (fd, event)) == [handler]
    {
      hide Conserved, Elsewhere, Slot, HandlerFor, ContextFor;
      var ctx := ContextOf(fd);
      BitIsHeld(ctx, event);
      if event in ctx.events || !ctlOk {
        return -1;
      }
      pendingEventCount := pendingEventCount + 1;
      EmptySlot(ctx.GetContext(event), (fd, event), ledger);
      assert ctx.GetContext(event) == EMPTY;
      ghost var l' := Register(ledger, (fd, event), handler);
      RegisterConserves(ledger, (fd, event), handler);
      StepsElsewhere(ledger, (fd, event), handler);
      NewSlot(ledger, (fd, event), handler);
      Change(ctx, event, true, ContextFor(handler), l');
      return 0;
    }

    method DelEvent(fd: nat, event: Event, ctlOk: bool) returns (done: bool)
      requires Valid()
      modifies this, owned
      ensures Valid() && owned == old(owned) && scheduled == old(scheduled)
      ensures done == ((fd, event) in old(ledger).held && ctlOk)
      ensures ledger == if done then Drop(old(ledger), (fd, event)) else old(ledger)
      ensures if done then Deleted(old(ledger), ledger, fd, {event}) else ledger == old(ledger)
    {
      hide Conserved, Elsewhere, Deleted, Scheduled;
      if |contexts| <= fd {
        return false;
      }
      var ctx := contexts[fd];
      BitIsHeld(ctx, event);
      if event !in ctx.events || !ctlOk {
        return false;
      }
      pendingEventCount := pendingEventCount - 1;
      ghost var l' := Drop(ledger, (fd, event));
      DropConserves(ledger, (fd, event));
      FireSchedules(ledger, fd, event);
      StepsElsewhere(ledger, (fd, event), RunFiber(0));
      Change(ctx, event, false, EMPTY, l');
      return true;
    }

    /** triggerEvent: the handler goes to the scheduler and the context becomes empty. */
    method TriggerEvent(ctx: FdContext, event: Event)
      requires Booked() && ctx.fd < |contexts| && ctx == contexts[ctx.fd] && event in ctx.events
      modifies `scheduled, `ledger, ctx
      ensures Booked() && (ctx.fd, event) in old(ledger).held && ledger == Fire(old(ledger), (ctx.fd, event))
      ensures scheduled == old(scheduled) + [old(ledger).handlers[old(ledger).held[(ctx.fd, event)]]]
      ensures ctx.events == old(ctx.events) - {event} && |ledger.held.Keys| == |old(ledger).held.Keys| - 1
    {
      hide Conserved, Elsewhere;
      BitIsHeld(ctx, event);
      ghost var l' := Fire(ledger, (ctx.fd, event));
      FireConserves(ledger, (ctx.fd, event));
      StepsElsewhere(ledger, (ctx.fd, event), RunFiber(0));
      var c := ctx.GetContext(event);
      if c.cb.Some? {
        scheduled := scheduled + [RunCallback(c.cb.value)];
      } else {
        scheduled := scheduled + [RunFiber(c.fiber.value)];
      }
      Change(ctx, event, false, EMPTY, l');
    }

    /** Changes one bit, its context and the ledger together. */
    method Change(ctx: FdContext, event: Event, bit: bool, c: EventContext, ghost l': Ledger)
      requires Contexts() && Bits() && ctx.fd < |contexts| && ctx == contexts[ctx.fd]
      requires Elsewhere(ledger, l', (ctx.fd, event)) && Slot(c, bit, (ctx.fd, event), l')
      modifies `ledger, ctx
      ensures ledger == l' && Contexts() && Bits()
      ensures ctx.events == if bit then old(ctx.events) + {event} else old(ctx.events) - {event}
    {
      hide Slot;
      OthersAgree(contexts, (ctx.fd, event), ledger, l');
      Update(ctx, event, bit, c, ledger, l');
      ledger := l';
    }

    method CancelEvent(fd: nat, event: Event, ctlOk: bool) returns (done: bool)
      requires Valid()
      modifies this, owned
      ensures Valid() && owned == old(owned)
      ensures done == ((fd, event) in old(ledger).held && ctlOk)
      ensures ledger == if done then Fire(old(ledger), (fd, event)) else old(ledger)
      ensures if done then Scheduled(old(ledger), ledger, fd, {event}) else ledger == old(ledger)
      ensures scheduled == old(scheduled) + if done then HandlerFor(old(ledger), (fd, event)) else []
    {
      hide Conserved, Scheduled, Deleted;
      if |contexts| <= fd {
        return false;
      }
      var ctx := contexts[fd];
      if event !in ctx.events || !ctlOk {
        return false;
      }
      BitIsHeld(ctx, event);
      FireSchedules(ledger, fd, event);
      TriggerEvent(ctx, event);
      pendingEventCount := pendingEventCount - 1;
      return true;
    }

    /** Fires those of the given events that are registered, read before write. */
    method TriggerAll(ctx: FdContext, events: set<Event>)
      requires Valid() && ctx.fd < |contexts| && ctx == contexts[ctx.fd] && events <= ctx.events
      modifies this, ctx
      ensures Valid() && owned == old(owned) && contexts == old(contexts) && ctx.events == old(ctx.events) - events
      ensures ledger == FireAll(old(ledger), ctx.fd, events)
      ensures scheduled == old(scheduled) + HandlersFor(old(ledger), ctx.fd, events)
    {
      hide Conserved, Bits, Ran, Contexts;
      if READ in events {
        BitIsHeld(ctx, READ);
        TriggerEvent(ctx, READ);
        pendingEventCount := pendingEventCount - 1;
      }
      if WRITE in events {
        BitIsHeld(ctx, WRITE);
        TriggerEvent(ctx, WRITE);
        pendingEventCount := pendingEventCount - 1;
      }
      assert forall e: Event :: e in events ==> e == READ || e == WRITE;
      assert ctx.events == old(ctx.events) - events;
    }

    lemma BitIsHeld(ctx: FdContext, event: Event)
      requires Contexts() && Bits() && ctx.fd < |contexts| && ctx == contexts[ctx.fd]
      ensures event in ctx.events <==> (ctx.fd, event) in ledger.held
      ensures Slot(ctx.GetContext(event), event in ctx.events, (ctx.fd, event), ledger)
    {
    }

    method CancelAll(fd: nat, ctlOk: bool) returns (done: bool)
      requires Valid()
      modifies this, owned
      ensures Valid() && owned == old(owned)
      ensures done == (((fd, READ) in old(ledger).held || (fd, WRITE) in old(ledger).held) && ctlOk)
      ensures ledger == if done then FireAll(old(ledger), fd, {READ, WRITE}) else old(ledger)
      ensures if done then Scheduled(old(ledger), ledger, fd, {READ, WRITE}) else ledger == old(ledger)
      ensures scheduled == old(scheduled) + if done then HandlersFor(old(ledger), fd, {READ, WRITE}) else []
    {
      hide Conserved, Scheduled;
      if |contexts| <= fd {
        return false;
      }
      var ctx := contexts[fd];
      BitIsHeld(ctx, READ);
      BitIsHeld(ctx, WRITE);
      SomeEvent(ctx.events);
      if ctx.events == {} || !ctlOk {
        return false;
      }
      BothOrHeld(ledger, fd, ctx.events);
      FireAllSchedules(ledger, fd, {READ, WRITE});
      TriggerAll(ctx, ctx.events);
      assert ctx.events == {};
      return true;
    }

    /** One turn of idle's loop over what epoll reported.  An error or hang-up counts as every
        registered event.  idle does not mask the rest, so what it acts on has to be registered. */
    method Dispatch(fd: nat, reported: set<Event>, broken: bool, ctlOk: bool)
      requires Valid() && fd < |contexts|
      requires reported <= contexts[fd].events || (reported * contexts[fd].events == {} && !broken)
      modifies this, owned
      ensures Valid() && owned == old(owned)
      ensures var acted := if broken then reported + old(contexts[fd].events) else reported;
              ledger == if acted * old(contexts[fd].events) == {} || !ctlOk then old(ledger)
                        else FireAll(old(ledger), fd, acted)
      ensures var acted := if broken then reported + old(contexts[fd].events) else reported;
              if acted * old(contexts[fd].events) == {} || !ctlOk
              then ledger == old(ledger) && scheduled == old(scheduled)
              else && Scheduled(old(ledger), ledger, fd, acted)
                   && scheduled == old(scheduled) + HandlersFor(old(ledger), fd, acted)
    {
      hide Conserved, Bits, Ran, Scheduled;
      var ctx := contexts[fd];
      var acted := if broken then reported + ctx.events else reported;
      if acted * ctx.events == {} || !ctlOk {
        return;
      }
      FireAllSchedules(ledger, fd, acted);
      TriggerAll(ctx, acted);
    }
  }
  // ---------------------------------------------------------------------------------------
  // Any sequence of operations
  // ---------------------------------------------------------------------------------------

  /** What epoll can report: of a descriptor that has a context, and as Dispatch demands. */
  ghost predicate Reportable(l: Ledger, op: Op) {
    op.DispatchOp? ==>
      && (op.fd < 32 || Registered(l, op.fd) != {})
      && (op.reported <= Registered(l, op.fd) || (op.reported * Registered(l, op.fd) == {} && !op.broken))
  }

  ghost predicate AllReportable(l: Ledger, ops: seq<Op>) {
    forall k :: 0 <= k < |ops| ==> Reportable(AfterAll(l, ops[..k]), ops[k])
  }

  lemma ValidParts(io: IOManager)
    requires io.Valid()
    ensures Conserved(io.ledger) && io.pendingEventCount == |io.ledger.held.Keys| && io.Ran()
    ensures |io.contexts| >= 32
  {
  }

  lemma EventsAreRegistered(io: IOManager, fd: nat)
    requires io.Valid()
    ensures Registered(io.ledger, fd) != {} ==> fd < |io.contexts|
    ensures fd < |io.contexts| ==> io.contexts[fd].events == Registered(io.ledger, fd)
  {
    hide Conserved, IOManager.Ran;
    if fd < |io.contexts| {
      io.BitIsHeld(io.contexts[fd], READ);
      io.BitIsHeld(io.contexts[fd], WRITE);
      forall e: Event
        ensures e in io.contexts[fd].events <==> e in Registered(io.ledger, fd)
      {
        match e
        case READ =>
        case WRITE =>
      }
    }
  }

  /** Firing what is not held changes nothing. */
  lemma NothingToFire(l: Ledger, fd: nat, events: set<Event>)
    requires events * Registered(l, fd) == {}
    ensures FireAll(l, fd, events) == l
  {
    assert READ in events && READ in Registered(l, fd) ==> READ in events * Registered(l, fd);
    assert WRITE in events && WRITE in Registered(l, fd) ==> WRITE in events * Registered(l, fd);
  }

  method Perform(io: IOManager, op: Op)
    requires io.Valid() && Reportable(io.ledger, op)
    modifies io, io.owned
    ensures io.Valid() && fresh(io.owned - old(io.owned)) && io.ledger == After(old(io.ledger), op)
  {
    hide Conserved, FireAll, IOManager.Valid;
    match op
    case AddOp(fd, e, h, ctlOk) =>
      var _ := io.AddEvent(fd, e, h, ctlOk);
    case DelOp(fd, e, ctlOk) =>
      var _ := io.DelEvent(fd, e, ctlOk);
    case CancelOp(fd, e, ctlOk) =>
      var _ := io.CancelEvent(fd, e, ctlOk);
    case CancelAllOp(fd, ctlOk) =>
      if Registered(io.ledger, fd) == {} {
        NothingToFire(io.ledger, fd, {READ, WRITE});
      }
      var _ := io.CancelAll(fd, ctlOk);
    case DispatchOp(fd, reported, broken, ctlOk) =>
      EventsAreRegistered(io, fd);
      ValidParts(io);
      ghost var acted := if broken then reported + Registered(io.ledger, fd) else reported;
      if acted * Registered(io.ledger, fd) == {} {
        NothingToFire(io.ledger, fd, acted);
      }
      io.Dispatch(fd, reported, broken, ctlOk);
  }

  /** Any sequence of the class's operations: the registrations are those of the run, so by RunsConserve each
      keeps exactly one fate; the counter is the number of set bits, and what was handed to the scheduler is
      what the scheduled registrations were for. */
  method PerformAll(io: IOManager, ops: seq<Op>)
    requires io.Valid() && AllReportable(io.ledger, ops)
    modifies io, io.owned
    ensures io.Valid() && io.ledger == AfterAll(old(io.ledger), ops)
    ensures Conserved(io.ledger) && io.pendingEventCount == |io.ledger.held.Keys| && io.Ran()
    ensures old(io.ledger).done <= io.ledger.done && old(io.ledger).dropped <= io.ledger.dropped
  {
    hide Conserved, After, Reportable, IOManager.Valid, IOManager.Ran;
    ghost var l := io.ledger;
    ValidParts(io);
    RunsConserve(l, ops, 0);
    assert ops[..0] == [];
    for k := 0 to |ops|
      invariant io.Valid() && fresh(io.owned - old(io.owned)) && io.ledger == AfterAll(l, ops[..k])
    {
      assert ops[..k + 1][..k] == ops[..k];
      Perform(io, ops[k]);
    }
    assert ops[..|ops|] == ops;
    ValidParts(io);
  }
}
