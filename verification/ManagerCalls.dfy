/** One whole call of CreateSessionPool or sendmessage by a thread that is not interrupted, and
    the proof that it is a run of the step system. */
module ManagerCalls {
  import opened Common
  import opened PoolSpec
  import opened Producers
  import opened Manager

  // How the library calls inside CreateSessionPool turn out.
  datatype ConnectScript = ConnectScript(staleThrows: bool, createThrows: bool, startThrows: bool, registerThrows: bool)

  // How the library calls of one sendmessage turn out.
  datatype CallScript = CallScript(connect: ConnectScript, take: Choice, send: SendScript, closeThrows: bool)

  // ---------------------------------------------------------------- whole calls

  // Lines 146-209.
  function CreatedConnection(g: Shared, k: ConnectScript): (Shared, CallResult, Entry) {
    if k.createThrows then (g, Returned(true), ConnectionThrew)
    else
      var h := g.(connections := g.connections + 1);
      if k.startThrows || k.registerThrows then (h, Returned(false), ConnectionThrew)
      else
        var c := Some(g.connections);
        (h.(connection := c, sessions := c, flag := true, initialised := g.initialised + 1), Returned(true),
         InitialisedHere)
  }

  // CreateSessionPool: the fields afterwards, how it ends, and how that came about.
  function Connected(g: Shared, k: ConnectScript): (Shared, CallResult, Entry) {
    if !g.created then (g, Returned(false), FoundStarted)
    else if g.flag then (g, Returned(true), FoundStarted)
    else if g.connection.Some? && k.staleThrows then (g, Propagated, ConnectionThrew)
    else CreatedConnection(g.(connection := None), k)
  }

  // CDSAMQProducer::sendmessage by the producer in slot i.
  function ProducerSends(g: Shared, i: nat, x: string, k: SendScript): (Shared, bool) {
    if x == "" || (i !in g.cached && k.destinationThrows) then (g, false)
    else
      var h := if i in g.cached then g else g.(cached := g.cached[i := g.target]);
      if k.producerThrows || k.messageThrows || (k.sendThrows && !k.reachedBroker) then (h, false)
      else (h.(log := h.log + [Delivery(h.cached[i], x)]), !k.sendThrows)
  }

  function Remembered(cached: map<nat, Destination>, i: nat, now: Option<Destination>): map<nat, Destination> {
    if now.Some? then cached[i := now.value] else cached
  }

  lemma ProducerReport(g: Shared, i: nat, x: string, k: SendScript, now: Option<Destination>,
                       reached: seq<Delivery>, ok: bool)
    requires Report(g.target, x, k, if i in g.cached then Some(g.cached[i]) else None, now, reached, ok)
    ensures ProducerSends(g, i, x, k) == (g.(cached := Remembered(g.cached, i, now), log := g.log + reached), ok)
  {
    assert g.log + [] == g.log;
    if i in g.cached { assert g.cached[i := g.cached[i]] == g.cached; }
  }

  // sendmessage from line 277 on, with the producer in slot i.
  function SentAndFreed(g: Shared, i: nat, x: string, k: CallScript): (Shared, Pc) {
    var (s, sent) := ProducerSends(g, i, x, k.send);
    var h := s.(owner := s.owner - {i});
    if k.closeThrows then (h.(stranded := h.stranded + {i}), Out(Propagated))
    else (h.(pool := FreeSlot(h.pool, i)), Out(Returned(sent)))
  }

  // sendmessage from takeSession on.
  function TakenAndSent(g: Shared, t: Tid, x: string, k: CallScript): (Shared, Pc) {
    if g.sessions.None? then (g, Crashed)
    else if k.take != Fine then (g, Out(Returned(false)))
    else
      var (p, r) := AllocateSlot(g.pool);
      if !r.Slot? then (g, Out(if k.closeThrows then Propagated else Returned(false)))
      else SentAndFreed(g.(pool := p, owner := g.owner[r.k := t]), r.k, x, k)
  }

  // sendmessage up to takeSession: CreateSessionPool unless the flag is set.
  function Prepared(g: Shared, k: ConnectScript): (Shared, CallResult) {
    if g.flag then (g, Returned(true)) else (Connected(g, k).0, Connected(g, k).1)
  }

  // sendmessage.
  function Called(g: Shared, t: Tid, x: string, k: CallScript): (Shared, Pc) {
    if !g.created then (g, Out(Returned(false)))
    else
      var (h, r) := Prepared(g, k.connect);
      if r == Returned(true) then TakenAndSent(h, t, x, k) else (h, Out(r))
  }

  // ---------------------------------------------------------------- runs

  lemma RunSnoc(s: State, es: seq<Event>, e: Event)
    ensures Run(s, es + [e]) == if Run(s, es).None? then None else Step(Run(s, es).value, e.t, e.c)
  {
    assert (es + [e])[..|es|] == es;
  }

  // No library call fails.
  ghost predicate Calm(es: seq<Event>) {
    forall e :: e in es ==> e.c == Fine || e.c.Call?
  }

  // Some schedule, a calm one if so asked, leads from s to the given state.
  ghost predicate Reach(s: State, g: Shared, th: map<Tid, Pc>, calm: bool) {
    exists es :: Run(s, es) == Some(State(g, th)) && (calm ==> Calm(es))
  }

  lemma ReachSelf(s: State, t: Tid, calm: bool)
    requires t in s.threads
    ensures Reach(s, s.g, s.threads[t := s.threads[t]], calm)
  {
    assert s.threads[t := s.threads[t]] == s.threads;
    assert Run(s, []) == Some(s) && Calm([]);
  }

  // One more step, by thread t; the other threads are as in th.
  lemma ReachStep(s: State, calm: bool, g: Shared, th: map<Tid, Pc>, t: Tid, pc: Pc, c: Choice, g': Shared, pc': Pc)
    requires Reach(s, g, th[t := pc], calm) && (calm ==> c == Fine || c.Call?)
    requires Local(g, t, pc, c, WindowOpen(State(g, th[t := pc]))) == Some((g', pc'))
    ensures Reach(s, g', th[t := pc'], calm)
  {
    var es :| Run(s, es) == Some(State(g, th[t := pc])) && (calm ==> Calm(es));
    RunSnoc(s, es, Event(t, c));
    assert th[t := pc][t := pc'] == th[t := pc'];
    assert Run(s, es + [Event(t, c)]) == Some(State(g', th[t := pc']));
  }

  // The same inside CreateSessionPool, before a producer is allocated, and with one in hand.
  lemma ReachLocked(s: State, calm: bool, g: Shared, th: map<Tid, Pc>, t: Tid, pc: Pc, c: Choice, g': Shared, pc': Pc)
    requires Reach(s, g, th[t := pc], calm) && (calm ==> c == Fine)
    requires Locked(pc) && LockedStep(g, pc, c) == Some((g', pc'))
    ensures Reach(s, g', th[t := pc'], calm)
  {
    ReachStep(s, calm, g, th, t, pc, c, g', pc');
  }

  lemma ReachOpen(s: State, calm: bool, g: Shared, th: map<Tid, Pc>, t: Tid, pc: Pc, c: Choice, g': Shared, pc': Pc)
    requires Reach(s, g, th[t := pc], calm) && (calm ==> c == Fine || c.Call?)
    requires !Locked(pc) && !Holds(pc) && OpenStep(g, t, pc, c, WindowOpen(State(g, th[t := pc]))) == Some((g', pc'))
    ensures Reach(s, g', th[t := pc'], calm)
  {
    ReachStep(s, calm, g, th, t, pc, c, g', pc');
  }

  lemma ReachHolding(s: State, g: Shared, th: map<Tid, Pc>, t: Tid, pc: Pc, c: Choice, g': Shared, pc': Pc)
    requires Reach(s, g, th[t := pc], false) && Holds(pc) && HolderStep(g, pc, c) == Some((g', pc'))
    ensures Reach(s, g', th[t := pc'], false)
  {
    ReachStep(s, false, g, th, t, pc, c, g', pc');
  }

  // ---------------------------------------------------------------- calls are runs

  // What thread t, which holds the lock, goes on to once CreateSessionPool has ended with r.
  function Leaving(x: string, r: CallResult, how: Entry): Pc {
    if r == Returned(true) then AtTake(x, how) else Out(r)
  }

  lemma UnlockIsRun(s: State, g: Shared, th: map<Tid, Pc>, t: Tid, x: string, ok: bool, how: Entry)
    requires Reach(s, g, th[t := InUnlock(x, ok, how)], false)
    ensures Reach(s, g.(mutex := None), th[t := Leaving(x, Returned(ok), how)], false)
  {
    ReachLocked(s, false, g, th, t, InUnlock(x, ok, how), Fine, g.(mutex := None), Leaving(x, Returned(ok), how));
  }

  lemma RegisterThrowsIsRun(s: State, g: Shared, th: map<Tid, Pc>, t: Tid, x: string)
    requires Reach(s, g.(flag := true), th[t := InWindow(x)], false) && !g.flag
    ensures Reach(s, g.(connection := None, mutex := None), th[t := Out(Returned(false))], false)
  {
    var h, none := g.(flag := true), g.(connection := None);
    ReachLocked(s, false, h, th, t, InWindow(x), Throw, h, InCatch(x));
    ReachLocked(s, false, h, th, t, InCatch(x), Fine, g, InDelete(x));
    ReachLocked(s, false, g, th, t, InDelete(x), Fine, none, InUnlock(x, false, ConnectionThrew));
    UnlockIsRun(s, none, th, t, x, false, ConnectionThrew);
  }

  lemma StartIsRun(s: State, g: Shared, th: map<Tid, Pc>, t: Tid, x: string, k: ConnectScript)
    requires Reach(s, g, th[t := InStart(x)], false) && !g.flag
    ensures if k.startThrows || k.registerThrows
            then Reach(s, g.(connection := None, mutex := None), th[t := Out(Returned(false))], false)
            else Reach(s, g.(sessions := g.connection, flag := true, initialised := g.initialised + 1, mutex := None),
                       th[t := AtTake(x, InitialisedHere)], false)
  {
    var none := g.(connection := None);
    if k.startThrows {
      ReachLocked(s, false, g, th, t, InStart(x), Throw, none, InUnlock(x, false, ConnectionThrew));
      UnlockIsRun(s, none, th, t, x, false, ConnectionThrew);
    } else {
      ReachLocked(s, false, g, th, t, InStart(x), Fine, g.(flag := true), InWindow(x));
      if k.registerThrows {
        RegisterThrowsIsRun(s, g, th, t, x);
      } else {
        var done := g.(sessions := g.connection, flag := true, initialised := g.initialised + 1);
        ReachLocked(s, false, g.(flag := true), th, t, InWindow(x), Fine, done, InUnlock(x, true, InitialisedHere));
        UnlockIsRun(s, done, th, t, x, true, InitialisedHere);
      }
    }
  }

  lemma CreateIsRun(s: State, g: Shared, th: map<Tid, Pc>, t: Tid, x: string, k: ConnectScript)
    requires Reach(s, g, th[t := InCreate(x)], false) && !g.flag && g.connection == None
    ensures
      var (h, r, how) := CreatedConnection(g, k);
      Reach(s, h.(mutex := None), th[t := Leaving(x, r, how)], false)
  {
    if k.createThrows {
      ReachLocked(s, false, g, th, t, InCreate(x), Throw, g, InUnlock(x, true, ConnectionThrew));
      UnlockIsRun(s, g, th, t, x, true, ConnectionThrew);
    } else {
      var h := g.(connection := Some(g.connections), connections := g.connections + 1);
      ReachLocked(s, false, g, th, t, InCreate(x), Fine, h, InStart(x));
      StartIsRun(s, h, th, t, x, k);
      assert h.(connection := None) == g.(connections := g.connections + 1);
    }
  }

  lemma ConnectedIsRun(s: State, g: Shared, th: map<Tid, Pc>, t: Tid, x: string, k: ConnectScript)
    requires Reach(s, g, th[t := InTest(x)], false)
    ensures
      var (h, r, how) := Connected(g, k);
      Reach(s, h.(mutex := None), th[t := Leaving(x, r, how)], false)
  {
    if !g.created || g.flag {
      ReachLocked(s, false, g, th, t, InTest(x), Fine, g, InUnlock(x, g.created, FoundStarted));
      UnlockIsRun(s, g, th, t, x, g.created, FoundStarted);
    } else if g.connection.Some? {
      ReachLocked(s, false, g, th, t, InTest(x), Fine, g, InStale(x));
      if k.staleThrows {
        ReachLocked(s, false, g, th, t, InStale(x), Throw, g.(mutex := None), Out(Propagated));
      } else {
        ReachLocked(s, false, g, th, t, InStale(x), Fine, g.(connection := None), InCreate(x));
        CreateIsRun(s, g.(connection := None), th, t, x, k);
      }
    } else {
      ReachLocked(s, false, g, th, t, InTest(x), Fine, g, InCreate(x));
      CreateIsRun(s, g, th, t, x, k);
      assert g.(connection := None) == g;
    }
  }

  lemma SendPartIsRun(s: State, g: Shared, th: map<Tid, Pc>, t: Tid, i: nat, x: string, k: SendScript)
    requires Reach(s, g, th[t := AtSend(x, i)], false) && i in g.cached
    ensures if k.producerThrows || k.messageThrows || (k.sendThrows && !k.reachedBroker)
            then Reach(s, g, th[t := AtClose(i, false)], false)
            else Reach(s, g.(log := g.log + [Delivery(g.cached[i], x)]), th[t := AtClose(i, !k.sendThrows)], false)
  {
    var h := g.(log := g.log + [Delivery(g.cached[i], x)]);
    if k.producerThrows || k.messageThrows || (k.sendThrows && !k.reachedBroker) {
      ReachHolding(s, g, th, t, AtSend(x, i), Throw, g, AtClose(i, false));
    } else if k.sendThrows {
      ReachHolding(s, g, th, t, AtSend(x, i), ThrowAfterSend, h, AtClose(i, false));
    } else {
      ReachHolding(s, g, th, t, AtSend(x, i), Fine, h, AtClose(i, true));
    }
  }

  lemma SendIsRun(s: State, g: Shared, th: map<Tid, Pc>, t: Tid, i: nat, x: string, k: SendScript)
    requires Reach(s, g, th[t := AtDest(x, i)], false)
    ensures
      var (h, sent) := ProducerSends(g, i, x, k);
      Reach(s, h, th[t := AtClose(i, sent)], false)
  {
    if x == "" {
      ReachHolding(s, g, th, t, AtDest(x, i), Fine, g, AtClose(i, false));
    } else if i !in g.cached && k.destinationThrows {
      ReachHolding(s, g, th, t, AtDest(x, i), Throw, g, AtClose(i, false));
    } else {
      var h := if i in g.cached then g else g.(cached := g.cached[i := g.target]);
      ReachHolding(s, g, th, t, AtDest(x, i), Fine, h, AtSend(x, i));
      SendPartIsRun(s, h, th, t, i, x, k);
    }
  }

  lemma CloseIsRun(s: State, g: Shared, th: map<Tid, Pc>, t: Tid, i: nat, sent: bool, throws: bool)
    requires Reach(s, g, th[t := AtClose(i, sent)], false) && g.mutex == None
    ensures
      var h := g.(owner := g.owner - {i});
      if throws then Reach(s, h.(stranded := h.stranded + {i}), th[t := Out(Propagated)], false)
      else Reach(s, h.(pool := FreeSlot(h.pool, i)), th[t := Out(Returned(sent))], false)
  {
    var h := g.(owner := g.owner - {i});
    if throws {
      ReachHolding(s, g, th, t, AtClose(i, sent), Throw, h.(stranded := h.stranded + {i}), Out(Propagated));
    } else {
      ReachHolding(s, g, th, t, AtClose(i, sent), Fine, g, AtFree(i, sent));
      ReachHolding(s, g, th, t, AtFree(i, sent), Fine, h.(pool := FreeSlot(h.pool, i)), Out(Returned(sent)));
    }
  }

  predicate Answers(c: Choice) {
    c == Fine || c == Throw || c == NoSession
  }

  lemma SendKeepsMutex(g: Shared, i: nat, x: string, k: SendScript)
    ensures ProducerSends(g, i, x, k).0.mutex == g.mutex
  {
  }

  lemma OverflowIsRun(s: State, g: Shared, th: map<Tid, Pc>, t: Tid, x: string, throws: bool)
    requires Reach(s, g, th[t := AtAlloc(x)], false) && g.mutex == None && !AllocateSlot(g.pool).1.Slot?
    ensures Reach(s, g, th[t := Out(if throws then Propagated else Returned(false))], false)
  {
    var c, end := if throws then Throw else Fine, Out(if throws then Propagated else Returned(false));
    ReachOpen(s, false, g, th, t, AtAlloc(x), Fine, g, AtOverflowClose);
    ReachOpen(s, false, g, th, t, AtOverflowClose, c, g, end);
  }

  lemma AllocIsRun(s: State, g: Shared, th: map<Tid, Pc>, t: Tid, x: string, k: CallScript)
    requires Reach(s, g, th[t := AtAlloc(x)], false) && g.mutex == None && g.sessions.Some? && k.take == Fine
    ensures Reach(s, TakenAndSent(g, t, x, k).0, th[t := TakenAndSent(g, t, x, k).1], false)
  {
    var (p, r) := AllocateSlot(g.pool);
    if r.Slot? {
      var h := g.(pool := p, owner := g.owner[r.k := t]);
      ReachOpen(s, false, g, th, t, AtAlloc(x), Fine, h, AtDest(x, r.k));
      SendIsRun(s, h, th, t, r.k, x, k.send);
      SendKeepsMutex(h, r.k, x, k.send);
      var (h', sent) := ProducerSends(h, r.k, x, k.send);
      CloseIsRun(s, h', th, t, r.k, sent, k.closeThrows);
    } else {
      OverflowIsRun(s, g, th, t, x, k.closeThrows);
    }
  }

  lemma TakenIsRun(s: State, g: Shared, th: map<Tid, Pc>, t: Tid, x: string, k: CallScript, how: Entry)
    requires Reach(s, g, th[t := AtTake(x, how)], false) && g.mutex == None && Answers(k.take)
    ensures Reach(s, TakenAndSent(g, t, x, k).0, th[t := TakenAndSent(g, t, x, k).1], false)
  {
    if g.sessions.None? {
      ReachOpen(s, false, g, th, t, AtTake(x, how), Fine, g, Crashed);
    } else if k.take != Fine {
      ReachOpen(s, false, g, th, t, AtTake(x, how), k.take, g, Out(Returned(false)));
    } else {
      ReachOpen(s, false, g, th, t, AtTake(x, how), Fine, g, AtAlloc(x));
      AllocIsRun(s, g, th, t, x, k);
    }
  }

  lemma LockedCallIsRun(s: State, g: Shared, th: map<Tid, Pc>, t: Tid, x: string, k: CallScript)
    requires Reach(s, g, th[t := AtLock(x)], false) && g.mutex == None && g.created && !g.flag && Answers(k.take)
    ensures Reach(s, Called(g, t, x, k).0, th[t := Called(g, t, x, k).1], false)
  {
    var held := g.(mutex := Some(t));
    ReachOpen(s, false, g, th, t, AtLock(x), Fine, held, InTest(x));
    ConnectedIsRun(s, held, th, t, x, k.connect);
    var (h, r, how) := Connected(held, k.connect);
    var free := h.(mutex := None);
    assert free == Connected(g, k.connect).0;
    if r == Returned(true) {
      TakenIsRun(s, free, th, t, x, k, how);
    }
  }

  // An uninterrupted sendmessage is a run of the step system with the same outcome, wherever the
  // other threads stand outside the lock.
  lemma CallIsRun(s: State, t: Tid, x: string, k: CallScript)
    requires s.g.mutex == None && t in s.threads && s.threads[t].Out? && Answers(k.take)
    ensures Reach(s, Called(s.g, t, x, k).0, s.threads[t := Called(s.g, t, x, k).1], false)
  {
    var g, th, pc := s.g, s.threads, s.threads[t];
    ReachSelf(s, t, false);
    if !g.created {
      ReachOpen(s, false, g, th, t, pc, Call(x), g, Out(Returned(false)));
    } else {
      ReachOpen(s, false, g, th, t, pc, Call(x), g, AtFlag(x));
      if g.flag {
        ReachOpen(s, false, g, th, t, AtFlag(x), Fine, g, AtTake(x, SawFlag(false)));
        TakenIsRun(s, g, th, t, x, k, SawFlag(false));
      } else {
        ReachOpen(s, false, g, th, t, AtFlag(x), Fine, g, AtLock(x));
        LockedCallIsRun(s, g, th, t, x, k);
      }
    }
  }

  // ---------------------------------------------------------------- what a whole call amounts to

  // From here on a call is described by what the fields were and how the library calls turn out.

  // Closing a stale connection throws.
  predicate StaleThrows(g: Shared, k: ConnectScript) {
    g.created && !g.flag && g.connection.Some? && k.staleThrows
  }

  // CreateSessionPool reports success: the connection was started, or is now, or could not be created.
  predicate Connects(g: Shared, k: ConnectScript) {
    g.created && !StaleThrows(g, k) && (g.flag || k.createThrows || !(k.startThrows || k.registerThrows))
  }

  // And it is this call that starts it.
  predicate StartsNow(g: Shared, k: ConnectScript) {
    g.created && !g.flag && !StaleThrows(g, k) && !k.createThrows && !k.startThrows && !k.registerThrows
  }

  // CreateSessionPool returns true, returns false or lets an exception escape, and leaves the flag, the
  // connection and the session pool, exactly so.
  lemma ConnectAccounting(g: Shared, k: ConnectScript)
    ensures
      var (h, r, _) := Connected(g, k);
      && (r == Propagated <==> StaleThrows(g, k))
      && (r == Returned(true) <==> Connects(g, k))
      && (r == Propagated || r == Returned(true) || r == Returned(false))
      && (h.flag <==> g.flag || StartsNow(g, k))
      && h.sessions == (if StartsNow(g, k) then Some(g.connections) else g.sessions)
      && h.connection == (if StartsNow(g, k) then Some(g.connections)
                          else if g.created && !g.flag && !StaleThrows(g, k) then None else g.connection)
  {
  }

  // The call gets a session, ...
  predicate GetsSession(g: Shared, k: CallScript) {
    && Connects(g, k.connect) && (g.sessions.Some? || StartsNow(g, k.connect)) && k.take == Fine
  }

  // ... and a producer, ...
  predicate GetsProducer(g: Shared, k: CallScript) {
    GetsSession(g, k) && |g.pool.used| < g.pool.size
  }

  // ... and the producer in slot i sends the text without anything throwing.
  predicate Sends(g: Shared, i: nat, x: string, k: SendScript) {
    x != "" && (i in g.cached || !k.destinationThrows) && !k.producerThrows && !k.messageThrows && !k.sendThrows
  }

  // The slot that is handed out next, if one is free.
  function NextSlot(g: Shared): nat {
    FirstOut(g.pool.used, 0, g.pool.size)
  }

  // How the call ends.  It lets an exception escape exactly if closing a stale connection or its session
  // throws, and returns false in every other failure.
  predicate EndsAs(g: Shared, x: string, k: CallScript, end: Pc) {
    && (end == Out(Returned(true)) <==> GetsProducer(g, k) && Sends(g, NextSlot(g), x, k.send) && !k.closeThrows)
    && (end == Out(Propagated) <==> StaleThrows(g, k.connect) || (GetsSession(g, k) && k.closeThrows))
    && (end == Crashed <==> Connects(g, k.connect) && g.sessions.None? && !StartsNow(g, k.connect))
    && (end == Out(Returned(true)) || end == Out(Returned(false)) || end == Out(Propagated) || end == Crashed)
  }

  lemma SendAccounting(g: Shared, i: nat, x: string, k: SendScript)
    requires forall j :: j in g.cached ==> g.cached[j] == g.target
    ensures
      var (h, sent) := ProducerSends(g, i, x, k);
      && h.pool == g.pool && h.owner == g.owner && h.stranded == g.stranded
      && (h.log == g.log || h.log == g.log + [Delivery(g.target, x)])
      && (sent ==> h.log == g.log + [Delivery(g.target, x)])
      && (sent <==> Sends(g, i, x, k))
  {
  }

  // CreateSessionPool touches the connection only.
  lemma PreparedFrame(g: Shared, k: ConnectScript)
    ensures
      var h := Prepared(g, k).0;
      && h.created == g.created && h.target == g.target && h.pool == g.pool && h.cached == g.cached
      && h.log == g.log && h.owner == g.owner && h.stranded == g.stranded && h.mutex == g.mutex
  {
  }

  // The part of the call with a producer in hand.
  lemma TakenAccounting(g: Shared, t: Tid, x: string, k: CallScript)
    requires StoreShared(g) && g.sessions.Some? && k.take == Fine && AllocateSlot(g.pool).1.Slot?
    ensures
      var i, (h, end) := NextSlot(g), TakenAndSent(g, t, x, k);
      && end == Out(if k.closeThrows then Propagated else Returned(Sends(g, i, x, k.send)))
      && (end == Out(Returned(true)) ==> h.log == g.log + [Delivery(g.target, x)])
      && (h.log == g.log || h.log == g.log + [Delivery(g.target, x)])
      && h.owner == g.owner && i !in g.pool.used && AllocateSlot(g.pool).1 == Slot(i)
      && h.pool == (if k.closeThrows then g.pool.(used := g.pool.used + {i}) else g.pool)
      && h.stranded == (if k.closeThrows then g.stranded + {i} else g.stranded)
  {
    var (p, r) := AllocateSlot(g.pool);
    var a := g.(pool := p, owner := g.owner[r.k := t]);
    SendAccounting(a, r.k, x, k.send);
    assert g.owner[r.k := t] - {r.k} == g.owner;
    assert g.pool.used + {r.k} - {r.k} == g.pool.used;
  }

  // A call ends as said, for every state and every outcome of the library calls.  If it returns true it
  // has put its text, once, on the destination the pool was created for; whatever else happens, at most
  // that one message reaches the broker.  The pool is as before if and only if the close of a call that
  // got a producer did not throw; if it did, exactly the slot just taken is lost.
  lemma CallAccounting(g: Shared, t: Tid, x: string, k: CallScript)
    requires StoreShared(g)
    ensures
      var (h, end) := Called(g, t, x, k);
      var i := NextSlot(g);
      && EndsAs(g, x, k, end)
      && (end == Out(Returned(true)) ==> h.log == g.log + [Delivery(g.target, x)])
      && (h.log == g.log || h.log == g.log + [Delivery(g.target, x)])
      && h.owner == g.owner
      && (h.pool == g.pool <==> !(GetsProducer(g, k) && k.closeThrows))
      && (GetsProducer(g, k) && k.closeThrows ==>
            && h.pool == g.pool.(used := g.pool.used + {i}) && i !in g.pool.used && h.stranded == g.stranded + {i})
      && (!(GetsProducer(g, k) && k.closeThrows) ==> h.stranded == g.stranded)
  {
    PreparedFrame(g, k.connect);
    ConnectAccounting(g, k.connect);
    OverflowIffFull(g.pool);
    if GetsProducer(g, k) {
      TakenAccounting(Prepared(g, k.connect).0, t, x, k);
    }
  }
}
