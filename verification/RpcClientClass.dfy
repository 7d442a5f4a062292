/** `RpcClient`'s table of waiting callers as it is updated, each locked region proved to be a
    step of `RpcDemux`. */
module RpcClientClass {
  import opened Options
  import opened RpcDemux

  /** `co_chan<Protocol::ptr>`, of one call. */
  class Channel {
    const call: nat
    var queue: seq<Option<Response>>

    constructor (call: nat)
      ensures this.call == call && queue == []
    {
      this.call := call;
      queue := [];
    }
  }

  method Pick<T(==)>(s: set<T>) returns (x: T)
    requires s != {}
    ensures x in s
  {
    x :| x in s;
  }

  class RpcClient {
    const ids: nat
    var sequenceId: nat
    var responseHandle: map<nat, Channel>
    var isClose: bool
    ghost var channels: map<nat, Channel>

    ghost predicate Valid()
      reads this
    {
      && ids > 0
      && (forall k :: k in channels ==> channels[k].call == k)
      && (forall id :: id in responseHandle ==>
            responseHandle[id].call in channels && channels[responseHandle[id].call] == responseHandle[id])
    }

    /** The table is as in `c`. */
    ghost predicate ShowsTable(c: Client)
      reads `sequenceId, `responseHandle, `isClose
    {
      && c.ids == ids && c.sequenceId == sequenceId && c.isClose == isClose
      && (forall id :: id in c.handlers <==> id in responseHandle)
      && (forall id :: id in responseHandle ==> c.handlers[id] == responseHandle[id].call)
    }

    ghost predicate ShowsQueues(c: Client)
      reads `channels, channels.Values
    {
      && (forall k :: k in c.queues <==> k in channels)
      && forall k :: k in channels ==> c.queues[k] == channels[k].queue
    }

    /** The table and the channels are as in `c`. */
    ghost predicate Shows(c: Client)
      reads this, channels.Values
    {
      Valid() && ShowsTable(c) && ShowsQueues(c)
    }

    /** 32-bit ids, once connected. */
    constructor (ids: nat)
      requires ids > 0
      ensures Shows(Open(ids))
    {
      this.ids := ids;
      sequenceId, responseHandle, isClose := 0, map[], false;
      channels := map[];
    }

    /** The beginning of `sendProtocol`. */
    method Register(call: nat, ghost c: Client) returns (recvChan: Channel, seqId: nat)
      requires Shows(c) && call !in c.calls && call !in channels
      modifies `sequenceId, `responseHandle, `channels
      ensures Shows(OnBegin(c, call)) && fresh(recvChan) && seqId == NextId(c)
      ensures call in channels && channels[call] == recvChan
    {
      recvChan := new Channel(call);
      channels := channels[call := recvChan];
      seqId := AddHandler(recvChan, c);
    }

    /** Its locked region. */
    method AddHandler(recvChan: Channel, ghost c: Client) returns (seqId: nat)
      requires Valid() && ShowsTable(c) && recvChan.call !in c.calls
      requires recvChan.call in channels && channels[recvChan.call] == recvChan
      modifies `sequenceId, `responseHandle
      ensures Valid() && ShowsTable(OnBegin(c, recvChan.call)) && seqId == NextId(c)
    {
      sequenceId := if sequenceId + 1 < ids then sequenceId + 1 else 0;
      seqId := sequenceId;
      if seqId !in responseHandle {
        responseHandle := responseHandle[seqId := recvChan];
      }
    }

    method RecvProtocol(response: Response, ghost c: Client)
      requires Shows(c) && response in c.inFlight
      modifies channels.Values
      ensures Shows(OnReceive(c, response))
    {
      if response.seqId !in responseHandle {
        return;
      }
      var chan := responseHandle[response.seqId];
      assert chan == channels[chan.call];
      chan.queue := chan.queue + [Some(response)];
    }

    /** The end of `sendProtocol`, when the wait is over. */
    method Deregister(call: nat, seqId: nat, ghost c: Client)
      requires Shows(c) && call in c.calls && c.calls[call].Woken? && c.calls[call].seqId == seqId
      modifies `responseHandle
      ensures Shows(OnLeave(c, call))
    {
      if !isClose {
        responseHandle := responseHandle - {seqId};
      }
    }

    method Close(ghost c: Client)
      requires Shows(c) && Inv(c)
      modifies `isClose, `responseHandle, channels.Values
      ensures Shows(OnClose(c))
    {
      if isClose {
        return;
      }
      HandlersApart(c);
      WakeAll();
      WokenQueues(c);
      responseHandle := map[];
      isClose := true;
    }

    /** The channel is in the table, other than under the ids in `rest`. */
    ghost predicate InTable(chan: Channel, rest: set<nat>)
      reads `responseHandle
    {
      exists id :: id in responseHandle && id !in rest && responseHandle[id] == chan
    }

    ghost predicate TableApart()
      reads `responseHandle
    {
      forall i, j :: i in responseHandle && j in responseHandle && i != j ==> responseHandle[i] != responseHandle[j]
    }

    lemma HandlersApart(c: Client)
      requires Shows(c) && Inv(c)
      ensures TableApart()
    {
      assert forall i :: i in responseHandle ==> c.calls[c.handlers[i]].seqId == i;
    }

    /** The loop of `close` over the table. */
    method WakeAll()
      requires Valid() && TableApart()
      modifies channels.Values
      ensures Valid()
      ensures forall k :: k in channels ==>
                channels[k].queue == old(channels[k].queue) + if InTable(channels[k], {}) then [None] else []
    {
      var rest := responseHandle.Keys;
      while rest != {}
        invariant rest <= responseHandle.Keys
        invariant forall k :: k in channels ==>
                    channels[k].queue == old(channels[k].queue) + if InTable(channels[k], rest) then [None] else []
      {
        var id := Pick(rest);
        var chan := responseHandle[id];
        assert chan == channels[chan.call];
        chan.queue := chan.queue + [None];
        rest := rest - {id};
      }
    }

    lemma WokenQueues(c: Client)
      requires Valid() && ShowsTable(c) && !c.isClose && (forall k :: k in c.queues <==> k in channels)
      requires forall k :: k in channels ==>
                 channels[k].queue == c.queues[k] + if InTable(channels[k], {}) then [None] else []
      ensures ShowsQueues(OnClose(c))
    {
      forall k | k in channels ensures OnClose(c).queues[k] == channels[k].queue {
        assert c.queues[k] + [] == c.queues[k];
        if k in c.handlers.Values {
          var id :| id in c.handlers && c.handlers[id] == k;
          assert responseHandle[id] == channels[k];
        }
      }
    }
  }
}
