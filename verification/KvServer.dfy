/** Class KvServer: the apply loop over a skip list, as the state machine of KvStore. */
module KvServers {
  import opened Keys
  import opened SkipLists
  import K = KvStore

  class KvServer {
    const skipList: SkipList
    var lastRequestId: map<string, int>
    var waitApplyCh: map<int, seq<K.Op>>
    var lastSnapShotRaftLogIndex: int

    ghost predicate Valid()
      reads this, skipList, skipList.own
    {
      skipList.Valid()
    }

    ghost function State(): K.State
      requires Valid()
      reads this, skipList, skipList.own
    {
      K.State(skipList.Contents(), lastRequestId, waitApplyCh)
    }

    /** The skip list of the source has levels up to 6. */
    constructor ()
      ensures Valid() && State() == K.START && lastSnapShotRaftLogIndex == 0
      ensures fresh(skipList) && fresh(skipList.own)
    {
      skipList := new SkipList(6);
      lastRequestId, waitApplyCh, lastSnapShotRaftLogIndex := map[], map[], 0;
    }

    method IfRequestDuplicate(clientId: string, requestId: int) returns (dup: bool)
      ensures dup == K.Duplicate(lastRequestId, clientId, requestId)
    {
      if clientId !in lastRequestId {
        return false;
      }
      return requestId <= lastRequestId[clientId];
    }

    /** ExecutePutOpOnKVDB and ExecuteAppendOpOnKVDB, which do the same. */
    method ExecuteWrite(op: K.Op, flips: nat)
      requires Valid()
      modifies this`lastRequestId, skipList, skipList.own
      ensures Valid() && fresh(skipList.own - old(skipList.own)) && State() == K.Execute(old(State()), op)
    {
      hide Less, ToMap, Sorted, Apart, Linked, FirstAt;
      skipList.InsertSetElement(op.key, op.value, flips);
      lastRequestId := lastRequestId[op.clientId := op.requestId];
    }

    method SendMessageToWaitChan(op: K.Op, index: int) returns (sent: bool)
      requires Valid()
      modifies this`waitApplyCh
      ensures Valid() && sent == (index in old(waitApplyCh)) && State() == K.Notify(old(State()), index, op)
    {
      if index !in waitApplyCh {
        return false;
      }
      waitApplyCh := waitApplyCh[index := waitApplyCh[index] + [op]];
      return true;
    }

    method GetCommandFromRaft(d: K.Delivery, flips: nat)
      requires Valid()
      modifies this`lastRequestId, this`waitApplyCh, skipList, skipList.own
      ensures Valid() && fresh(skipList.own - old(skipList.own))
      ensures State() == K.Deliver(old(State()), lastSnapShotRaftLogIndex, d)
    {
      hide Less, ToMap, Sorted, Apart, Linked, FirstAt, SkipList.Valid;
      if d.index <= lastSnapShotRaftLogIndex {
        return;
      }
      var dup := IfRequestDuplicate(d.op.clientId, d.op.requestId);
      if !dup {
        if d.op.operation == "Put" || d.op.operation == "Append" {
          ExecuteWrite(d.op, flips);
        }
      }
      var _ := SendMessageToWaitChan(d.op, d.index);
    }

    /** The apply loop, over everything delivered so far; the random levels do not matter. */
    method ApplyLoop(ds: seq<K.Delivery>, flips: seq<nat>)
      requires Valid() && |flips| == |ds|
      modifies this`lastRequestId, this`waitApplyCh, skipList, skipList.own
      ensures Valid() && State() == K.Run(old(State()), lastSnapShotRaftLogIndex, ds)
    {
      hide Less, ToMap, Sorted, Apart, Linked, FirstAt, SkipList.Valid, K.Deliver;
      for k := 0 to |ds|
        invariant Valid() && fresh(skipList.own - old(skipList.own))
        invariant State() == K.Run(old(State()), lastSnapShotRaftLogIndex, ds[..k])
      {
        assert ds[..k + 1][..k] == ds[..k];
        GetCommandFromRaft(ds[k], flips[k]);
      }
      assert ds[..|ds|] == ds;
    }

    // -------------------------------------------------------------------------------------
    // PutAppend, between its locks
    // -------------------------------------------------------------------------------------

    method OpenChannel(index: int)
      requires Valid()
      modifies this`waitApplyCh
      ensures Valid() && State() == K.After(old(State()), lastSnapShotRaftLogIndex, K.Open(index))
    {
      if index !in waitApplyCh {
        waitApplyCh := waitApplyCh[index := []];
      }
    }

    method TimeOutPop(index: int) returns (popped: K.Option<K.Op>)
      requires Valid() && index in waitApplyCh
      modifies this`waitApplyCh
      ensures Valid() && State() == K.After(old(State()), lastSnapShotRaftLogIndex, K.Pop(index))
      ensures popped == if |old(waitApplyCh)[index]| > 0 then K.Some(old(waitApplyCh)[index][0]) else K.None
    {
      if |waitApplyCh[index]| == 0 {
        return K.None;
      }
      popped := K.Some(waitApplyCh[index][0]);
      waitApplyCh := waitApplyCh[index := waitApplyCh[index][1..]];
    }

    method CloseChannel(index: int)
      requires Valid()
      modifies this`waitApplyCh
      ensures Valid() && State() == K.After(old(State()), lastSnapShotRaftLogIndex, K.Close(index))
    {
      waitApplyCh := waitApplyCh - {index};
    }

    method PutAppendReply(op: K.Op, popped: K.Option<K.Op>) returns (err: K.Err)
      ensures err == K.PutAppendAnswer(lastRequestId, op, popped)
    {
      if popped.None? {
        var dup := IfRequestDuplicate(op.clientId, op.requestId);
        err := if dup then K.OK else K.ErrWrongLeader;
      } else if popped.value.clientId == op.clientId && popped.value.requestId == op.requestId {
        err := K.OK;
      } else {
        err := K.ErrWrongLeader;
      }
    }
  }
}
