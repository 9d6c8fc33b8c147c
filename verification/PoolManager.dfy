/** CDSAMQProducerPoolMgr as the object it is.  Each method is proved to do what the corresponding
    uninterrupted call of the step system does.

    The producer pool appears as the abstract allocator that the bitmap pool has been proved to
    behave as (ProducerPools), and a producer's send by what Producer.SendMessage reports. */
module PoolManagers {
  import opened Common
  import opened PoolSpec
  import opened Producers
  import opened ProducerPools
  import opened Manager
  import opened ManagerCalls

  class PoolManager {
    var brokerURI: string
    var destURI: string
    var useTopic: bool
    var clientAck: bool
    var connection: Option<nat>
    var started: bool
    var sessionPool: Option<nat>
    var created: bool                   // m_pool.IsCreated()
    var pool: Pool
    var cached: map<nat, Destination>   // m_destination of the producers that have one
    var log: seq<Delivery>              // the broker
    var connections: nat                // connections created so far
    ghost var initialised: nat
    ghost var owner: map<nat, Tid>
    ghost var stranded: set<nat>

    constructor ()
      ensures !created && !useTopic && clientAck && Manager.Fresh(Fields())
    {
      brokerURI, destURI, useTopic, clientAck := "", "", false, true;
      connection, started, sessionPool := None, false, None;
      created, pool, cached := false, Pool(0, {}, 0), map[];
      log, connections, initialised, owner, stranded := [], 0, 0, map[], {};
    }

    function Target(): Destination
      reads this
    {
      if useTopic then Topic(destURI) else Queue(destURI)
    }

    // The object as the shared state of the step system.
    ghost function Fields(): Shared
      reads this
    {
      Shared(created, Target(), pool, cached, started, connection, sessionPool, None,
             log, connections, initialised, owner, stranded)
    }

    // ---------------------------------------------------------------- CreatePool

    // A new pool of min(n, 50) slots, none in use: an initial state of the step system.
    ghost predicate Born(n: nat, broker: string, dest: string, topic: bool, ack: bool)
      reads this
    {
      && brokerURI == broker && destURI == dest && useTopic == topic && clientAck == ack
      && created && Manager.Fresh(Fields())
      && Fields().target == (if topic then Topic(dest) else Queue(dest))
      && pool.size == if n > 50 then 50 else n
    }

    // The common part.  m_pool.CreatePool returns false without creating anything if its size check
    // fails, and that result is ignored; after the cut to 50 the check cannot fail.
    method Create(n: nat, broker: string, dest: string, topic: bool, ack: bool, allocates: bool) returns (ok: bool)
      requires n < UINT && !created && Manager.Fresh(Fields())
      modifies this
      ensures ok <==> allocates
      ensures if ok then Born(n, broker, dest, topic, ack) else !created && Manager.Fresh(Fields())
    {
      var size := if n > MAX_POOL then MAX_POOL else n;
      brokerURI, destURI, useTopic, clientAck := broker, dest, topic, ack;
      SizeCheck(size);
      if BitsetSize(size) <= MAX_BITSET_SIZE {
        if !allocates {
          return false;
        }
        pool := Pool(size, {}, 0);
        created := true;
      }
      ok := true;
    }

    // The three-argument overload: it keeps the queue and acknowledgement settings and checks the URIs.
    method CreatePool(n: nat, broker: string, dest: string, allocates: bool) returns (ok: bool)
      requires n < UINT && (!created ==> Manager.Fresh(Fields()))
      modifies this
      ensures old(created) ==> ok && unchanged(this)
      ensures !old(created) ==> (ok <==> broker != "" && dest != "" && allocates)
      ensures !old(created) ==> if ok then Born(n, broker, dest, old(useTopic), old(clientAck))
                                else !created && Manager.Fresh(Fields())
    {
      if created {
        return true;
      }
      if broker == "" || dest == "" {
        return false;
      }
      ok := Create(n, broker, dest, useTopic, clientAck, allocates);
    }

    method CreatePoolWith(n: nat, broker: string, dest: string, topic: bool, ack: bool, allocates: bool)
      returns (ok: bool)
      requires n < UINT && (!created ==> Manager.Fresh(Fields()))
      modifies this
      ensures old(created) ==> ok && unchanged(this)
      ensures !old(created) ==> (ok <==> allocates)
      ensures !old(created) ==> if ok then Born(n, broker, dest, topic, ack)
                                else !created && Manager.Fresh(Fields())
    {
      if created {
        return true;
      }
      ok := Create(n, broker, dest, topic, ack, allocates);
    }

    // ---------------------------------------------------------------- CreateSessionPool

    // Lines 146-209, for a manager that is not started and has no connection.
    method Connect(k: ConnectScript) returns (r: CallResult)
      requires !started && connection == None
      modifies this`connection, this`started, this`sessionPool, this`connections, this`initialised
      ensures Fields() == CreatedConnection(old(Fields()), k).0 && r == CreatedConnection(old(Fields()), k).1
      ensures r != Propagated
    {
      // the factory or createConnection() throws: nothing to clean up, and success is reported
      if k.createThrows {
        return Returned(true);
      }
      connection := Some(connections);
      connections := connections + 1;
      if k.startThrows {
        connection := None;
        return Returned(false);
      }
      started := true;
      if k.registerThrows {
        if started {
          started := false;
        }
        connection := None;
        return Returned(false);
      }
      sessionPool := connection;
      started := true;
      initialised := initialised + 1;
      r := Returned(true);
    }

    // How it ends: with a result, or with the exception of closing a stale connection, which escapes.
    method CreateSessionPool(k: ConnectScript) returns (r: CallResult)
      modifies this`connection, this`started, this`sessionPool, this`connections, this`initialised
      ensures Fields() == Connected(old(Fields()), k).0 && r == Connected(old(Fields()), k).1
      ensures old(Settled(Fields())) ==> Settled(Fields()) && r != Propagated
      ensures !created ==> r == Returned(false)
      ensures created ==>
        && (r == Propagated <==> !old(started) && old(connection).Some? && k.staleThrows)
        && (r == Returned(true) <==> r != Propagated && (old(started) || started || k.createThrows))
        && (old(started) ==> started && r == Returned(true))
        && (!old(started) && (k.startThrows || k.registerThrows) && !k.createThrows && r != Propagated ==>
              r == Returned(false) && !started && connection == None)
        && (started && !old(started) ==> sessionPool == connection == Some(old(connections)))
    {
      ConnectAccounting(Fields(), k);
      if !created {
        return Returned(false);
      }
      if !started {
        if connection.Some? {
          if k.staleThrows {
            return Propagated;
          }
          connection := None;
        }
        r := Connect(k);
        return;
      }
      r := Returned(true);
    }

    // ---------------------------------------------------------------- sendmessage

    // The producer in slot i sends; its object is rebuilt from what the fields say of it.
    method ProducerSend(i: nat, x: string, k: SendScript) returns (sent: bool)
      modifies this`cached, this`log
      ensures (Fields(), sent) == ProducerSends(old(Fields()), i, x, k)
    {
      var p := new Producer(i);
      p.SetURIInfo(brokerURI, destURI, useTopic, clientAck);
      p.destination := if i in cached then Some(cached[i]) else None;
      var reached;
      sent, reached := p.SendMessage(true, x, k);
      cached := Remembered(cached, i, p.destination);
      log := log + reached;
      ProducerReport(old(Fields()), i, x, k, p.destination, reached, sent);
    }

    // Lines 277-291, with the producer in slot i.
    method SendAndFree(i: nat, x: string, k: CallScript) returns (end: Pc)
      modifies this`pool, this`cached, this`log, this`owner, this`stranded
      ensures (Fields(), end) == SentAndFreed(old(Fields()), i, x, k)
    {
      var sent := ProducerSend(i, x, k.send);
      owner := owner - {i};
      if k.closeThrows {
        stranded := stranded + {i};
        return Out(Propagated);
      }
      pool := FreeSlot(pool, i);
      end := Out(Returned(sent));
    }

    // Lines 262-291.
    method AllocateAndSend(x: string, k: CallScript, ghost t: Tid) returns (end: Pc)
      requires sessionPool.Some? && k.take == Fine
      modifies this`pool, this`cached, this`log, this`owner, this`stranded
      ensures (Fields(), end) == TakenAndSent(old(Fields()), t, x, k)
    {
      var (p, r) := AllocateSlot(pool);
      pool := p;
      if !r.Slot? {
        return Out(if k.closeThrows then Propagated else Returned(false));
      }
      owner := owner[r.k := t];
      end := SendAndFree(r.k, x, k);
    }

    // sendmessage by thread t; the result says how the call ends, a crash included.  It does what a
    // run of the step system does in which t is not interrupted, whatever the other threads (th)
    // are in the middle of outside the lock.
    method SendMessage(x: string, k: CallScript, ghost t: Tid, ghost th: map<Tid, Pc>) returns (end: Pc)
      requires Answers(k.take)
      modifies this
      ensures (Fields(), end) == Called(old(Fields()), t, x, k)
      ensures Reach(State(old(Fields()), th[t := Out(NoCall)]), Fields(), th[t := end], false)
      ensures old(Settled(Fields())) ==> Settled(Fields())
      ensures old(StoreShared(Fields())) ==> EndsAs(old(Fields()), x, k, end)
    {
      if StoreShared(Fields()) {
        CallAccounting(Fields(), t, x, k);
      }
      ghost var start := State(Fields(), th[t := Out(NoCall)]);
      CallIsRun(start, t, x, k);
      ghost var last := Called(Fields(), t, x, k).1;
      assert start.threads[t := last] == th[t := last];
      if !created {
        return Out(Returned(false));
      }
      if !started {
        var r := CreateSessionPool(k.connect);
        if r != Returned(true) {
          return Out(r);
        }
      }
      if sessionPool.None? {
        return Crashed;
      }
      if k.take != Fine {
        return Out(Returned(false));
      }
      end := AllocateAndSend(x, k, t);
    }
  }
}
