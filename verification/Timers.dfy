/** The timer set and its wake-up flag. */
module Timers {

  /** A callback; `Unset` is the empty std::function. */
  datatype Callback = Unset | Callback(id: int)

  class Timer {
    /** The object's address, which breaks ties between equal deadlines. */
    const address: nat
    const recurring: bool
    var ms: nat
    var next: nat
    var cb: Callback

    constructor (address: nat, ms: nat, cb: Callback, recurring: bool, now: nat)
      ensures this.address == address && this.ms == ms && this.cb == cb && this.recurring == recurring
      ensures next == now + ms
    {
      this.address, this.ms, this.cb, this.recurring := address, ms, cb, recurring;
      next := now + ms;
    }
  }

  /** Timer::Comparator on live timers. */
  predicate Before(a: Timer, b: Timer)
    reads a, b
  {
    a.next < b.next || (a.next == b.next && a.address < b.address)
  }

  /** What getNextTimer last promised: nothing yet, the first deadline then, or that there was none. */
  datatype Promise = NotAsked | Until(deadline: nat) | Forever

  class TimerManager {
    /** The std::set, in order. */
    var timers: seq<Timer>
    var tickled: bool
    /** How often onTimerInsertedAtFront has been called. */
    var wakeUps: nat
    /** Every timer ever created, the latest clock reading, and what getNextTimer last said, with the
        number of wake-ups at that time. */
    ghost var created: set<Timer>
    ghost var clock: nat
    ghost var promise: Promise
    ghost var wakeUpsThen: nat

    constructor ()
      ensures Valid() && timers == [] && fresh(created) && promise == NotAsked
    {
      timers, tickled, wakeUps := [], false, 0;
      created, clock, promise, wakeUpsThen := {}, 0, NotAsked, 0;
    }

    ghost predicate Ordered()
      reads `timers, `created, created
    {
      forall i, j :: 0 <= i < j < |timers| && timers[i] in created && timers[j] in created ==>
        Before(timers[i], timers[j])
    }

    ghost predicate Addressed()
      reads `created
    {
      forall t, u :: t in created && u in created && t.address == u.address ==> t == u
    }

    /** A timer is in the set exactly when its callback is set, those about to be put back aside. */
    ghost predicate Armed(pending: seq<Timer>)
      reads `timers, `created, created
    {
      && (forall t :: t in timers ==> t in created)
      && (forall t :: t in created ==> (t in timers <==> t.cb != Unset && t !in pending))
    }

    /** Deadlines are never further away than their periods. */
    ghost predicate Near()
      reads `created, `clock, created
    {
      forall t :: t in created ==> t.ms <= t.next <= clock + t.ms
    }

    /** Until the flag is raised nothing is due before what getNextTimer promised. */
    ghost predicate Kept()
      reads `timers, `tickled, `wakeUps, `promise, `wakeUpsThen, `created, created
    {
      promise.NotAsked? ||
      (&& (if tickled then wakeUps > wakeUpsThen else wakeUps == wakeUpsThen)
       && (!tickled && promise.Until? ==> forall t :: t in timers && t in created ==> promise.deadline <= t.next)
       && (!tickled && promise.Forever? ==> timers == []))
    }

    ghost predicate Valid()
      reads this, created
    {
      Armed([]) && Ordered() && Addressed() && Near() && Kept()
    }

    // -------------------------------------------------------------------------------------
    // The ordered set
    // -------------------------------------------------------------------------------------

    /** std::set::lower_bound: the first timer that is not before t. */
    method LowerBound(t: Timer) returns (i: nat)
      requires Ordered() && forall u :: u in timers ==> u in created
      ensures i <= |timers| && forall j :: 0 <= j < i ==> Before(timers[j], t)
      ensures i < |timers| ==> !Before(timers[i], t)
    {
      i := 0;
      while i < |timers| && Before(timers[i], t)
        invariant i <= |timers| && forall j :: 0 <= j < i ==> Before(timers[j], t)
      {
        i := i + 1;
      }
    }

    /** std::set::find: a timer of the set is found where it is, and no other timer is. */
    method Find(t: Timer) returns (i: nat)
      requires Ordered() && Addressed() && t in created && forall u :: u in timers ==> u in created
      ensures i <= |timers|
      ensures if t in timers then i < |timers| && timers[i] == t else i == |timers|
    {
      i := LowerBound(t);
      if i < |timers| && Before(t, timers[i]) {
        i := |timers|;
      }
    }

    method Erase(i: nat)
      requires i < |timers| && Ordered() && forall u :: u in timers ==> u in created
      modifies `timers
      ensures timers == old(timers[..i] + timers[i + 1..]) && Ordered()
      ensures forall u :: u in timers <==> u in old(timers) && u != old(timers[i])
    {
      ghost var was := timers;
      timers := timers[..i] + timers[i + 1..];
      MembersWithout(was, i);
    }

    /** A strictly ordered sequence holds nothing twice. */
    lemma MembersWithout(s: seq<Timer>, i: nat)
      requires i < |s| && (forall u :: u in s ==> u in created)
      requires forall j, k :: 0 <= j < k < |s| ==> Before(s[j], s[k])
      ensures forall u :: u in s[..i] + s[i + 1..] <==> u in s && u != s[i]
    {
      var r := s[..i] + s[i + 1..];
      forall u | u in s && u != s[i]
        ensures u in r
      {
        var j :| 0 <= j < |s| && s[j] == u;
        assert u == if j < i then r[j] else r[j - 1];
      }
    }

    method Insert(val: Timer) returns (i: nat)
      requires Ordered() && Addressed() && forall u :: u in timers ==> u in created
      requires val in created && val !in timers
      modifies `timers
      ensures i <= |old(timers)| && timers == old(timers[..i] + [val] + timers[i..]) && Ordered()
      ensures forall u :: u in timers <==> u in old(timers) || u == val
      ensures i > 0 ==> old(timers)[0] == timers[0] && Before(timers[0], val)
    {
      i := LowerBound(val);
      ghost var was := timers;
      InsertedInOrder(was, i, val);
      timers := timers[..i] + [val] + timers[i..];
      assert was == was[..i] + was[i..];
      hide Ordered, Addressed;
    }

    lemma InsertedInOrder(s: seq<Timer>, i: nat, val: Timer)
      requires Addressed() && val in created && val !in s && (forall u :: u in s ==> u in created)
      requires forall j, k :: 0 <= j < k < |s| ==> Before(s[j], s[k])
      requires i <= |s| && (forall j :: 0 <= j < i ==> Before(s[j], val)) && (i < |s| ==> !Before(s[i], val))
      ensures var r := s[..i] + [val] + s[i..]; forall j, k :: 0 <= j < k < |r| ==> Before(r[j], r[k])
    {
      forall k | i <= k < |s|
        ensures Before(val, s[k])
      {
        assert s[i] in s && s[i].address != val.address;
        assert i < k ==> Before(s[i], s[k]);
      }
    }

    /** addTimer under the lock: the wake-up is due when the new timer comes first and no wake-up is
        outstanding. */
    method AddLocked(val: Timer)
      requires Ordered() && Addressed() && val in created && val.cb != Unset && Armed([val])
      requires Near() && Kept() && val !in timers
      modifies `timers, `tickled, `wakeUps
      ensures Valid()
      ensures forall u :: u in timers <==> u in old(timers) || u == val
      ensures var first := forall u :: u in old(timers) ==> Before(val, u);
              && wakeUps == old(wakeUps) + (if first && !old(tickled) then 1 else 0)
              && tickled == (old(tickled) || first)
    {
      hide Near, Addressed;
      ghost var was := timers;
      var i := Insert(val);
      assert i > 0 ==> was[0] in was && !Before(val, was[0]);
      var atFront := i == 0 && !tickled;
      if atFront {
        tickled := true;
        wakeUps := wakeUps + 1;
      }
    }

    // -------------------------------------------------------------------------------------
    // The public operations; `now` is the clock, which never goes back
    // -------------------------------------------------------------------------------------

    method AddTimer(address: nat, ms: nat, cb: Callback, recurring: bool, now: nat) returns (timer: Timer)
      requires Valid() && cb != Unset && clock <= now
      requires forall t :: t in created ==> t.address != address
      modifies this
      ensures Valid() && fresh(timer) && created == old(created) + {timer} && clock == now
      ensures timer in timers && timer.next == now + ms && timer.ms == ms
      ensures timer.cb == cb && timer.recurring == recurring && timer.address == address
      ensures forall u :: u in timers <==> u in old(timers) || u == timer
      ensures promise == old(promise) && wakeUpsThen == old(wakeUpsThen)
      ensures var first := forall u :: u in old(timers) ==> Before(timer, u);
              && wakeUps == old(wakeUps) + (if first && !old(tickled) then 1 else 0)
              && tickled == (old(tickled) || first)
    {
      timer := new Timer(address, ms, cb, recurring, now);
      created, clock := created + {timer}, now;
      AddLocked(timer);
    }

    /** cancel erases without looking at what find returned; the timer is always there. */
    method Cancel(t: Timer) returns (done: bool)
      requires Valid() && t in created
      modifies `timers, t`cb
      ensures Valid() && done == (old(t.cb) != Unset) && t.cb == Unset
      ensures forall u :: u in timers <==> u in old(timers) && u != t
    {
      if t.cb == Unset {
        return false;
      }
      hide Near, Addressed;
      t.cb := Unset;
      var i := Find(t);
      Erase(i);
      return true;
    }

    /** Takes t out of the set, to be put back with a new deadline. */
    method TakeOut(t: Timer)
      requires Valid() && t in timers
      modifies `timers
      ensures Armed([t]) && Ordered() && Addressed() && Near() && Kept() && t !in timers
      ensures forall u :: u in timers <==> u in old(timers) && u != t
    {
      hide Near;
      var i := Find(t);
      Erase(i);
    }

    method Refresh(t: Timer, now: nat) returns (done: bool)
      requires Valid() && t in created && clock <= now
      modifies `timers, `clock, t`next
      ensures Valid() && clock == now && done == (t.cb != Unset)
      ensures t.next == if done then now + t.ms else old(t.next)
      ensures forall u :: u in timers <==> u in old(timers)
    {
      if t.cb == Unset {
        clock := now;
        return false;
      }
      ghost var was := t.next;
      TakeOut(t);
      t.next, clock := now + t.ms, now;
      var _ := Insert(t);
      return true;
    }

    /** Puts a timer that was taken out back with a new period. */
    method PutBack(t: Timer, start: nat, ms: nat, now: nat)
      requires Armed([t]) && Ordered() && Addressed() && Near() && Kept() && t !in timers
      requires t in created && t.cb != Unset && start <= now && clock <= now
      modifies `timers, `clock, `tickled, `wakeUps, t`next, t`ms
      ensures Valid() && t.ms == ms && t.next == start + ms && clock == now
      ensures forall u :: u in timers <==> u in old(timers) || u == t
      ensures var first := forall u :: u in old(timers) ==> Before(t, u);
              && wakeUps == old(wakeUps) + (if first && !old(tickled) then 1 else 0)
              && tickled == (old(tickled) || first)
    {
      t.ms := ms;
      t.next := start + t.ms;
      clock := now;
      AddLocked(t);
    }

    method Reset(t: Timer, ms: nat, fromNow: bool, now: nat) returns (done: bool)
      requires Valid() && t in created && clock <= now
      modifies `timers, `clock, `tickled, `wakeUps, t`next, t`ms
      ensures Valid() && done == (t.cb != Unset || (ms == old(t.ms) && !fromNow))
      ensures clock == old(clock) || clock == now
      ensures var first := t.cb != Unset && !(ms == old(t.ms) && !fromNow)
                           && forall u :: u in old(timers) && u != t ==> Before(t, u);
              && wakeUps == old(wakeUps) + (if first && !old(tickled) then 1 else 0)
              && tickled == (old(tickled) || first)
      ensures if t.cb != Unset && !(ms == old(t.ms) && !fromNow)
              then t.ms == ms && t.next == (if fromNow then now else old(t.next) - old(t.ms)) + ms
              else t.ms == old(t.ms) && t.next == old(t.next)
      ensures forall u :: u in timers <==> u in old(timers)
    {
      hide Ordered, Addressed, Kept;
      if ms == t.ms && !fromNow {
        return true;
      }
      if t.cb == Unset {
        return false;
      }
      TakeOut(t);
      PutBack(t, if fromNow then now else t.next - t.ms, ms, now);
      return true;
    }

    /** How long to sleep: `None` stands for ~0, no timer at all. */
    method GetNextTimer(now: nat) returns (wait: Wait)
      requires Valid() && clock <= now
      modifies `tickled, `clock, `promise, `wakeUpsThen
      ensures Valid() && !tickled && clock == now && wakeUpsThen == wakeUps
      ensures timers == [] ==> wait == Endless && promise == Forever
      ensures timers != [] ==>
                && promise == Until(timers[0].next)
                && wait == Millis(if now >= timers[0].next then 0 else timers[0].next - now)
                && forall t :: t in timers ==> timers[0].next <= t.next
    {
      tickled, clock, wakeUpsThen := false, now, wakeUps;
      if |timers| == 0 {
        promise := Forever;
        return Endless;
      }
      promise := Until(timers[0].next);
      assert forall i :: 0 < i < |timers| ==> Before(timers[0], timers[i]);
      if now >= timers[0].next {
        return Millis(0);
      }
      return Millis(timers[0].next - now);
    }

    /** The end of the prefix that is due: lower_bound of a timer for `now`, then past its equals. */
    method DueEnd(now: nat, address: nat) returns (i: nat)
      requires Ordered() && forall u :: u in timers ==> u in created
      ensures i <= |timers|
      ensures forall j :: 0 <= j < i ==> timers[j].next <= now
      ensures forall j :: i <= j < |timers| ==> timers[j].next > now
    {
      var nowTimer := new Timer(address, 0, Unset, false, now);
      i := LowerBound(nowTimer);
      while i < |timers| && timers[i].next == now
        invariant i <= |timers| && forall j :: 0 <= j < i ==> timers[j].next <= now
        invariant i < |timers| ==> timers[i].next >= now
      {
        i := i + 1;
        assert i < |timers| ==> Before(timers[i - 1], timers[i]);
      }
      assert forall j :: i < j < |timers| ==> Before(timers[i], timers[j]);
    }

    /** Puts a recurring timer back for its next period and clears the callback of any other. */
    method Rearm(t: Timer, now: nat, ghost rest: seq<Timer>)
      requires Armed([t] + rest) && Ordered() && Addressed() && Near() && clock == now
      requires t in created && t !in rest && t.cb != Unset && t.next <= now
      modifies `timers, t`next, t`cb
      ensures Armed(rest) && Ordered() && Near() && t.next >= old(t.next)
      ensures if t.recurring then t.next == now + t.ms && t.cb == old(t.cb) else t.cb == Unset && t.next == old(t.next)
      ensures forall u :: u in timers <==> u in old(timers) || (u == t && t.recurring)
    {
      assert t !in timers;
      if t.recurring {
        t.next := now + t.ms;
        var _ := Insert(t);
      } else {
        t.cb := Unset;
      }
    }

    ghost function Deadlines(): map<Timer, nat>
      reads `created, created
    {
      map t | t in created :: t.next
    }

    ghost function Callbacks(): map<Timer, Callback>
      reads `created, created
    {
      map t | t in created :: t.cb
    }

    /** What has become of the first k expired timers, and that nothing else has changed, since
        deadlines and callbacks were these. */
    ghost predicate Rearmed(expired: seq<Timer>, k: nat, now: nat, nexts: map<Timer, nat>, cbs: map<Timer, Callback>)
      requires k <= |expired| && nexts.Keys == cbs.Keys == created
      reads `created, created
    {
      && (forall t :: t in expired[..k] && t in created ==>
            if t.recurring then t.next == now + t.ms && t.cb == cbs[t] else t.cb == Unset && t.next == nexts[t])
      && (forall t :: t in created && t !in expired[..k] ==> t.next == nexts[t] && t.cb == cbs[t])
      && (forall t :: t in created ==> t.next >= nexts[t])
    }

    /** One round of the loop over the expired timers. */
    method RearmNext(
        t: Timer, due: seq<Timer>, k: nat, now: nat, ghost nexts: map<Timer, nat>, ghost calls: map<Timer, Callback>)
      requires k < |due| && t == due[k] && Armed([due[k]] + due[k + 1..])
      requires Ordered() && Addressed() && Near() && clock == now
      requires nexts.Keys == calls.Keys == created && Rearmed(due, k, now, nexts, calls)
      requires due[k] in created && due[k] !in due[..k] && due[k] !in due[k + 1..]
      requires calls[due[k]] != Unset && nexts[due[k]] <= now
      modifies `timers, t`next, t`cb
      ensures Armed(due[k + 1..]) && Ordered() && Near() && Rearmed(due, k + 1, now, nexts, calls)
      ensures forall u :: u in timers <==> u in old(timers) || (u == due[k] && u.recurring)
    {
      hide Addressed, Near, Ordered, Armed;
      Rearm(t, now, due[k + 1..]);
      assert due[..k + 1] == due[..k] + [due[k]];
    }

    /** The loop over the expired timers. */
    method RearmAll(due: seq<Timer>, now: nat) returns (cbs: seq<Callback>)
      requires Armed(due) && Ordered() && Addressed() && Near() && clock == now
      requires forall t :: t in due ==> t in created && t.cb != Unset && t.next <= now
      requires forall j, k :: 0 <= j < |due| && 0 <= k < |due| && j != k ==> due[j] != due[k]
      modifies `timers, created`next, created`cb
      ensures Armed([]) && Ordered() && Near()
      ensures created == old(created) && Rearmed(due, |due|, now, old(Deadlines()), old(Callbacks()))
      ensures |cbs| == |due| && forall k :: 0 <= k < |cbs| ==> due[k] in created && cbs[k] == old(Callbacks())[due[k]]
      ensures forall u :: u in timers <==> u in old(timers) || (u in due && u.recurring)
    {
      hide Addressed, Near, Ordered, Armed;
      cbs := [];
      ghost var nexts, calls := Deadlines(), Callbacks();
      assert due[0..] == due && due[..0] == [];
      for k := 0 to |due|
        invariant clock == now && Armed(due[k..]) && Ordered() && Near() && |cbs| == k
        invariant Rearmed(due, k, now, nexts, calls)
        invariant forall j :: 0 <= j < k ==> cbs[j] == calls[due[j]]
        invariant forall u :: u in timers <==> u in old(timers) || (u in due[..k] && u.recurring)
      {
        assert due[k..] == [due[k]] + due[k + 1..];
        assert due[..k + 1] == due[..k] + [due[k]];
        assert due[k] !in due[..k] && due[k] in due;
        cbs := cbs + [due[k].cb];
        RearmNext(due[k], due, k, now, nexts, calls);
      }
      assert due[..|due|] == due && due[|due|..] == [];
    }

    /** Everything due by now, in deadline order, and nothing else; only recurring timers stay armed. */
    method ListExpiredCb(now: nat, address: nat) returns (cbs: seq<Callback>, ghost expired: seq<Timer>)
      requires Valid() && clock <= now
      modifies `timers, `clock, created`next, created`cb
      ensures Valid() && clock == now
      ensures expired <= old(timers) && |cbs| == |expired|
      ensures forall t :: t in old(timers) ==> (t in expired <==> old(t.next) <= now)
      ensures forall k :: 0 <= k < |cbs| ==> expired[k] in created && cbs[k] == old(Callbacks())[expired[k]]
      ensures created == old(created) && Rearmed(expired, |expired|, now, old(Deadlines()), old(Callbacks()))
      ensures forall u :: u in timers <==> u in old(timers) && (u in expired ==> u.recurring)
    {
      hide Addressed, Ordered, Near, Armed, Kept;
      cbs, expired := [], [];
      SetClock(now);
      if |timers| == 0 || timers[0].next > now {
        NoneDue(now);
        return;
      }
      cbs, expired := FireDue(now, address);
    }

    method SetClock(now: nat)
      requires Valid() && clock <= now
      modifies `clock
      ensures Valid() && clock == now
    {
      clock := now;
    }

    lemma NoneDue(now: nat)
      requires Ordered() && Armed([]) && (timers == [] || timers[0].next > now)
      ensures forall t :: t in timers ==> t.next > now
    {
      assert forall i :: 0 < i < |timers| ==> Before(timers[0], timers[i]);
    }

    method FireDue(now: nat, address: nat) returns (cbs: seq<Callback>, ghost expired: seq<Timer>)
      requires Valid() && clock == now && timers != []
      modifies `timers, created`next, created`cb
      ensures Valid()
      ensures expired <= old(timers) && |cbs| == |expired|
      ensures forall t :: t in old(timers) ==> (t in expired <==> old(t.next) <= now)
      ensures forall k :: 0 <= k < |cbs| ==> expired[k] in created && cbs[k] == old(Callbacks())[expired[k]]
      ensures created == old(created) && Rearmed(expired, |expired|, now, old(Deadlines()), old(Callbacks()))
      ensures forall u :: u in timers <==> u in old(timers) && (u in expired ==> u.recurring)
    {
      hide Addressed, Ordered, Near, Armed;
      ghost var was := timers;
      var due := CutDue(now, address);
      expired := due;
      cbs := RearmAll(due, now);
      assert was == due + was[|due|..];
      assert forall u :: u in timers ==> u in was;
    }

    /** Moves the due prefix out of the set. */
    method CutDue(now: nat, address: nat) returns (due: seq<Timer>)
      requires Armed([]) && Ordered() && Addressed()
      modifies `timers
      ensures due + timers == old(timers) && Armed(due) && Ordered()
      ensures forall t :: t in old(timers) ==> t in created
      ensures forall t :: t in due ==> t in created && t.cb != Unset && t.next <= now
      ensures forall t :: t in timers ==> t.next > now
      ensures forall j, k :: 0 <= j < |due| && 0 <= k < |due| && j != k ==> due[j] != due[k]
    {
      hide Addressed;
      var i := DueEnd(now, address);
      ghost var was := timers;
      due := timers[..i];
      timers := timers[i..];
      assert was == due + timers;
      assert forall j, k :: 0 <= j < k < |due| ==> Before(due[j], due[k]) by {
        assert forall j :: 0 <= j < |due| ==> due[j] == was[j];
      }
    }

    /** Whoever sleeps until the promised deadline has been woken if anything is due earlier. */
    lemma EarlierTimerWakes(t: Timer)
      requires Valid() && t in timers
      requires promise == Forever || (promise.Until? && t.next < promise.deadline)
      ensures tickled && wakeUps > wakeUpsThen
    {
    }
  }

  datatype Wait = Millis(ms: nat) | Endless

  // ---------------------------------------------------------------------------------------
  // Sleeping while others change the set
  // ---------------------------------------------------------------------------------------

  /** What other threads do, `gap` after what came before.  A handle is the place of a timer among those made
      so far; one that is not there yet does nothing. */
  datatype Op =
    | AddOp(address: nat, ms: nat, id: int, recurring: bool, gap: nat)
    | CancelOp(handle: nat, gap: nat)
    | RefreshOp(handle: nat, gap: nat)
    | ResetOp(handle: nat, ms: nat, fromNow: bool, gap: nat)
    | ExpireOp(nowTimer: nat, gap: nat)

  ghost predicate AddressFree(created: set<Timer>, op: Op) {
    op.AddOp? ==> forall t :: t in created ==> t.address != op.address
  }

  /** Timers are made at addresses nothing else has. */
  ghost predicate Allocatable(created: set<Timer>, ops: seq<Op>) {
    && (forall k :: 0 <= k < |ops| ==> AddressFree(created, ops[k]))
    && (forall j, k :: 0 <= j < k < |ops| && ops[j].AddOp? && ops[k].AddOp? ==> ops[j].address != ops[k].address)
  }

  ghost predicate Handles(tm: TimerManager, handles: seq<Timer>)
    reads tm`created
  {
    forall h :: h in handles ==> h in tm.created
  }

  method Perform(tm: TimerManager, handles: seq<Timer>, op: Op, now: nat) returns (made: seq<Timer>)
    requires tm.Valid() && tm.clock <= now && Handles(tm, handles) && AddressFree(tm.created, op)
    modifies tm, tm.created
    ensures tm.Valid() && tm.clock <= now && Handles(tm, handles + made)
    ensures fresh(tm.created - old(tm.created)) && old(tm.created) <= tm.created
    ensures tm.promise == old(tm.promise) && tm.wakeUpsThen == old(tm.wakeUpsThen)
    ensures forall t :: t in tm.created && t !in old(tm.created) ==> op.AddOp? && t.address == op.address
  {
    hide TimerManager.Valid;
    made := [];
    match op
    case AddOp(address, ms, id, recurring, _) =>
      var t := tm.AddTimer(address, ms, Callback(id), recurring, now);
      made := [t];
    case CancelOp(h, _) =>
      if h < |handles| {
        var _ := tm.Cancel(handles[h]);
      }
    case RefreshOp(h, _) =>
      if h < |handles| {
        var _ := tm.Refresh(handles[h], now);
      }
    case ResetOp(h, ms, fromNow, _) =>
      if h < |handles| {
        var _ := tm.Reset(handles[h], ms, fromNow, now);
      }
    case ExpireOp(nowTimer, _) =>
      var _, _ := tm.ListExpiredCb(now, nowTimer);
  }

  /** Whoever asks getNextTimer how long to sleep misses nothing: after any sequence of operations by others,
      a timer of the set that is due before the sleep would end has caused a wake-up since. */
  method Sleep(tm: TimerManager, handles: seq<Timer>, ops: seq<Op>, now: nat) returns (wait: Wait)
    requires tm.Valid() && tm.clock <= now && Handles(tm, handles) && Allocatable(tm.created, ops)
    modifies tm, tm.created
    ensures tm.Valid()
    ensures forall t :: t in tm.timers && (wait.Millis? ==> wait.ms > 0 && t.next < now + wait.ms) ==>
              tm.wakeUps > old(tm.wakeUps)
  {
    hide TimerManager.Valid;
    wait := tm.GetNextTimer(now);
    ghost var promise := tm.promise;
    var time, all := now, handles;
    for k := 0 to |ops|
      invariant tm.Valid() && tm.clock <= time && Handles(tm, all) && fresh(tm.created - old(tm.created))
      invariant tm.promise == promise && tm.wakeUpsThen == old(tm.wakeUps)
      invariant Allocatable(tm.created, ops[k..])
    {
      time := time + ops[k].gap;
      assert ops[k..][0] == ops[k];
      ghost var created := tm.created;
      var made := Perform(tm, all, ops[k], time);
      all := all + made;
      StillAllocatable(created, tm.created, ops[k..]);
      assert ops[k..][1..] == ops[k + 1..];
    }
    forall t | t in tm.timers && (wait.Millis? ==> wait.ms > 0 && t.next < now + wait.ms)
      ensures tm.wakeUps > old(tm.wakeUps)
    {
      tm.EarlierTimerWakes(t);
    }
  }

  lemma StillAllocatable(created: set<Timer>, created': set<Timer>, ops: seq<Op>)
    requires |ops| > 0 && Allocatable(created, ops)
    requires forall t :: t in created' && t !in created ==> ops[0].AddOp? && t.address == ops[0].address
    ensures Allocatable(created', ops[1..])
  {
    forall k | 0 <= k < |ops| - 1
      ensures AddressFree(created', ops[1..][k])
    {
      assert ops[1..][k] == ops[k + 1] && AddressFree(created, ops[k + 1]);
    }
  }
}
