/** The producer pool manager under any number of threads: `sendmessage` and the locked
    `CreateSessionPool` as interleaved steps. */
module Manager {
  import opened Common
  import opened PoolSpec
  import opened Producers

  const MAX_POOL: nat := 50  // the manager's limit on the number of producers

  type Tid = nat

  // How the last call of a thread ended.
  datatype CallResult = NoCall | Returned(ok: bool) | Propagated

  // How a thread got past the session-pool set-up to takeSession.
  datatype Entry =
    | SawFlag(inWindow: bool)  // read the flag as true; was another thread between 153 and 190 (or 203)?
    | FoundStarted             // locked, found the connection started
    | InitialisedHere          // locked, ran the whole initialisation
    | ConnectionThrew          // locked, creating the connection threw, and 212 returned true

  // Program counters, named after the source line about to run.
  datatype Pc =
    | Out(result: CallResult)
    | AtFlag(text: string)                     // 228
    | AtLock(text: string)                     // 233
    | InTest(text: string)                     // 137, mutex held from here ...
    | InStale(text: string)                    // 139-144
    | InCreate(text: string)                   // 149
    | InStart(text: string)                    // 152
    | InWindow(text: string)                   // 165-190, the flag is already set
    | InCatch(text: string)                    // 200-203
    | InDelete(text: string)                   // 205-206
    | InUnlock(text: string, ret: bool, how: Entry)  // 235, ... to here
    | AtTake(text: string, how: Entry)         // 248
    | AtAlloc(text: string)                    // 264-265
    | AtOverflowClose                          // 273
    | AtDest(text: string, slot: nat)          // 278, DSAMQProducer.cpp 110-124
    | AtSend(text: string, slot: nat)          // 278, DSAMQProducer.cpp 129-149
    | AtClose(slot: nat, sent: bool)           // 286
    | AtFree(slot: nat, sent: bool)            // 288-289
    | Crashed                                  // dereferenced a null session pool

  // The fields the threads share.
  datatype Shared = Shared(
    created: bool,                  // m_pool.IsCreated()
    target: Destination,            // the destination CreatePool was given
    pool: Pool,
    cached: map<nat, Destination>,  // m_destination of each producer that has one
    flag: bool,                     // m_bStartedConnection
    connection: Option<nat>,        // m_connection
    sessions: Option<nat>,          // m_sessionpool, by the connection it is built on
    mutex: Option<Tid>,
    log: seq<Delivery>,             // what reached the broker
    connections: nat,               // history: connections created so far
    initialised: nat,               // history: initialisations that ran to the end
    owner: map<nat, Tid>,           // history: which thread is using each slot
    stranded: set<nat>              // history: slots whose session close() threw at 286
  )

  datatype State = State(g: Shared, threads: map<Tid, Pc>)

  // How the library call of a step turns out.
  datatype Choice = Fine | Throw | ThrowAfterSend | NoSession | Call(text: string)

  predicate Locked(pc: Pc) {
    || pc.InTest? || pc.InStale? || pc.InCreate? || pc.InStart?
    || pc.InWindow? || pc.InCatch? || pc.InDelete? || pc.InUnlock?
  }

  // The stretch in which the flag is set although there is no session pool yet.
  predicate Window(pc: Pc) {
    pc.InWindow? || pc.InCatch?
  }

  predicate WindowOpen(s: State) {
    s.g.mutex.Some? && s.g.mutex.value in s.threads && Window(s.threads[s.g.mutex.value])
  }

  // Between allocation and free.
  predicate Holds(pc: Pc) {
    pc.AtDest? || pc.AtSend? || pc.AtClose? || pc.AtFree?
  }

  // ---------------------------------------------------------------- steps

  // CreateSessionPool, run with the mutex held.
  function LockedStep(g: Shared, pc: Pc, c: Choice): Option<(Shared, Pc)>
    requires Locked(pc)
  {
    match pc
    case InTest(x) =>
      if c != Fine then None
      else if !g.created then Some((g, InUnlock(x, false, FoundStarted)))
      else if g.flag then Some((g, InUnlock(x, true, FoundStarted)))
      else if g.connection.Some? then Some((g, InStale(x)))
      else Some((g, InCreate(x)))
    case InStale(x) =>
      if c == Fine then Some((g.(connection := None), InCreate(x)))
      else if c == Throw then Some((g.(mutex := None), Out(Propagated)))
      else None
    case InCreate(x) =>
      if c == Fine then Some((g.(connection := Some(g.connections), connections := g.connections + 1), InStart(x)))
      else if c == Throw then
        Some((g, if g.connection.Some? then InCatch(x) else InUnlock(x, true, ConnectionThrew)))
      else None
    case InStart(x) =>
      if c == Fine then Some((g.(flag := true), InWindow(x)))
      else if c == Throw then Some((g.(connection := None), InUnlock(x, false, ConnectionThrew)))
      else None
    case InWindow(x) =>
      if c == Fine then
        Some((g.(sessions := g.connection, flag := true, initialised := g.initialised + 1),
              InUnlock(x, true, InitialisedHere)))
      else if c == Throw then Some((g, InCatch(x)))
      else None
    case InCatch(x) =>
      if c != Fine then None
      else Some((if g.flag then g.(flag := false) else g, InDelete(x)))
    case InDelete(x) =>
      if c != Fine then None
      else Some((g.(connection := None), InUnlock(x, false, ConnectionThrew)))
    case InUnlock(x, ret, how) =>
      if c != Fine then None
      else Some((g.(mutex := None), if ret then AtTake(x, how) else Out(Returned(false))))
  }

  // CDSAMQProducer::sendmessage up to the cached destination, ...
  function DestStep(g: Shared, x: string, k: nat, c: Choice): Option<(Shared, Pc)> {
    if x == "" then (if c == Fine then Some((g, AtClose(k, false))) else None)
    else if k in g.cached then (if c == Fine then Some((g, AtSend(x, k))) else None)
    else if c == Fine then Some((g.(cached := g.cached[k := g.target]), AtSend(x, k)))
    else if c == Throw then Some((g, AtClose(k, false)))
    else None
  }

  // ... and from there on.
  function SendStep(g: Shared, x: string, k: nat, c: Choice): Option<(Shared, Pc)> {
    if k !in g.cached then None
    else
      var sent := g.(log := g.log + [Delivery(g.cached[k], x)]);
      if c == Fine then Some((sent, AtClose(k, true)))
      else if c == ThrowAfterSend then Some((sent, AtClose(k, false)))
      else if c == Throw then Some((g, AtClose(k, false)))
      else None
  }

  // sendmessage with a producer in hand.
  function HolderStep(g: Shared, pc: Pc, c: Choice): Option<(Shared, Pc)>
    requires Holds(pc)
  {
    match pc
    case AtDest(x, k) => DestStep(g, x, k, c)
    case AtSend(x, k) => SendStep(g, x, k, c)
    case AtClose(k, sent) =>
      if c == Fine then Some((g, AtFree(k, sent)))
      else if c == Throw then Some((g.(owner := g.owner - {k}, stranded := g.stranded + {k}), Out(Propagated)))
      else None
    case AtFree(k, sent) =>
      if c != Fine || g.mutex.Some? then None
      else Some((g.(pool := FreeSlot(g.pool, k), owner := g.owner - {k}), Out(Returned(sent))))
  }

  // sendmessage up to the allocation of a producer.
  function OpenStep(g: Shared, t: Tid, pc: Pc, c: Choice, window: bool): Option<(Shared, Pc)>
    requires !Locked(pc) && !Holds(pc)
  {
    match pc
    case Out(_) =>
      if !c.Call? then None
      else Some((g, if g.created then AtFlag(c.text) else Out(Returned(false))))
    case AtFlag(x) =>
      if c != Fine then None
      else Some((g, if g.flag then AtTake(x, SawFlag(window)) else AtLock(x)))
    case AtLock(x) =>
      if c != Fine || g.mutex.Some? then None
      else Some((g.(mutex := Some(t)), InTest(x)))
    case AtTake(x, _) =>
      if g.sessions.None? then (if c == Fine then Some((g, Crashed)) else None)
      else if c == Fine then Some((g, AtAlloc(x)))
      else if c == Throw || c == NoSession then Some((g, Out(Returned(false))))
      else None
    case AtAlloc(x) =>
      if c != Fine || g.mutex.Some? then None
      else
        var (p, r) := AllocateSlot(g.pool);
        if r.Slot? then Some((g.(pool := p, owner := g.owner[r.k := t]), AtDest(x, r.k)))
        else Some((g.(pool := p), AtOverflowClose))
    case AtOverflowClose =>
      if c == Fine then Some((g, Out(Returned(false))))
      else if c == Throw then Some((g, Out(Propagated)))
      else None
    case Crashed => None
  }

  // One step of thread t standing at pc; None if it is not enabled.
  function Local(g: Shared, t: Tid, pc: Pc, c: Choice, window: bool): Option<(Shared, Pc)> {
    if Locked(pc) then LockedStep(g, pc, c)
    else if Holds(pc) then HolderStep(g, pc, c)
    else OpenStep(g, t, pc, c, window)
  }

  function Step(s: State, t: Tid, c: Choice): Option<State> {
    if t !in s.threads then None
    else
      match Local(s.g, t, s.threads[t], c, WindowOpen(s))
      case None => None
      case Some((g, pc)) => Some(State(g, s.threads[t := pc]))
  }

  datatype Event = Event(t: Tid, c: Choice)

  // The state after a schedule, or None if the schedule is not a run.
  function Run(s: State, es: seq<Event>): Option<State> {
    if es == [] then Some(s)
    else
      var before := Run(s, es[..|es| - 1]);
      if before.None? then None else Step(before.value, es[|es| - 1].t, es[|es| - 1].c)
  }

  ghost predicate Fresh(g: Shared) {
    && g.pool.used == {} && g.pool.cursor == 0 && g.cached == map[] && g.log == []
    && !g.flag && g.connection == None && g.sessions == None && g.mutex == None
    && g.connections == 0 && g.initialised == 0 && g.owner == map[] && g.stranded == {}
  }

  // After CreatePool, before any thread has called sendmessage.
  ghost predicate Initial(s: State) {
    && Fresh(s.g)
    && forall t :: t in s.threads ==> s.threads[t] == Out(NoCall)
  }

  // ---------------------------------------------------------------- invariants

  // The flag, the connection and the session pool agree.
  ghost predicate Settled(g: Shared) {
    (g.flag <==> g.sessions.Some?) && g.sessions == g.connection
  }

  // What the lock holder sees at each line of CreateSessionPool.
  ghost predicate ConnAt(g: Shared, pc: Pc) {
    match pc
    case InStale(_) => false
    case InCreate(_) => !g.flag && g.connection == None && g.sessions == None
    case InStart(_) => !g.flag && g.connection.Some? && g.sessions == None
    case InWindow(_) => g.flag && g.connection.Some? && g.sessions == None
    case InCatch(_) => g.flag && g.connection.Some? && g.sessions == None
    case InDelete(_) => !g.flag && g.connection.Some? && g.sessions == None
    case _ => Settled(g)
  }

  // Ways to takeSession that guarantee a session pool.
  predicate Safe(how: Entry) {
    how == SawFlag(false) || how == FoundStarted || how == InitialisedHere
  }

  ghost predicate EntryOk(g: Shared, pc: Pc) {
    match pc
    case InUnlock(_, ret, how) => ret && Safe(how) ==> g.sessions.Some?
    case AtTake(_, how) => Safe(how) ==> g.sessions.Some?
    case AtAlloc(_) => g.sessions.Some?
    case _ => true
  }

  // The shared fields, as far as the connection and as far as the producers are concerned.
  ghost predicate ConnShared(g: Shared) {
    && g.initialised == (if g.sessions.Some? then 1 else 0)
    && (g.mutex == None ==> Settled(g))
  }

  ghost predicate StoreShared(g: Shared) {
    && Ok(g.pool) && g.pool.used == g.owner.Keys + g.stranded && g.owner.Keys !! g.stranded
    && (forall k :: k in g.cached ==> g.cached[k] == g.target)
    && (forall i :: 0 <= i < |g.log| ==> g.log[i].dest == g.target)
  }

  // What holds of each thread.
  ghost predicate ConnThread(g: Shared, t: Tid, pc: Pc) {
    && (Locked(pc) <==> g.mutex == Some(t))
    && (Locked(pc) ==> ConnAt(g, pc))
    && EntryOk(g, pc)
  }

  ghost predicate StoreThread(g: Shared, t: Tid, pc: Pc) {
    && (Holds(pc) ==> pc.slot in g.owner && g.owner[pc.slot] == t)
    && (pc.AtSend? ==> pc.slot in g.cached)
  }

  ghost predicate SharedInv(g: Shared) {
    ConnShared(g) && StoreShared(g)
  }

  ghost predicate ThreadInv(g: Shared, t: Tid, pc: Pc) {
    ConnThread(g, t, pc) && StoreThread(g, t, pc)
  }

  // Every slot in use is in use by the thread on record.
  ghost predicate OwnerHolds(threads: map<Tid, Pc>, k: nat, t: Tid) {
    t in threads && Holds(threads[t]) && threads[t].slot == k
  }

  ghost predicate Inv(s: State) {
    && SharedInv(s.g)
    && (s.g.mutex.Some? ==> s.g.mutex.value in s.threads)
    && (forall t :: t in s.threads ==> ThreadInv(s.g, t, s.threads[t]))
    && (forall k :: k in s.g.owner ==> OwnerHolds(s.threads, k, s.g.owner[k]))
  }

  // CreateSessionPool touches only the connection and the mutex, ...
  lemma LockedFrame(g: Shared, pc: Pc, c: Choice, g': Shared, pc': Pc)
    requires Locked(pc) && LockedStep(g, pc, c) == Some((g', pc'))
    ensures g'.created == g.created && g'.target == g.target && g'.pool == g.pool && g'.cached == g.cached
    ensures g'.log == g.log && g'.owner == g.owner && g'.stranded == g.stranded
    ensures g'.mutex == if Locked(pc') then g.mutex else None
    ensures !Holds(pc')
  {
  }

  // ... and the rest of sendmessage leaves the connection alone.
  predicate SameConnection(g: Shared, g': Shared) {
    && g'.created == g.created && g'.target == g.target
    && g'.flag == g.flag && g'.connection == g.connection && g'.sessions == g.sessions
    && g'.initialised == g.initialised && g'.connections == g.connections
  }

  lemma OpenFrame(g: Shared, t: Tid, pc: Pc, c: Choice, window: bool, g': Shared, pc': Pc)
    requires !Locked(pc) && !Holds(pc) && OpenStep(g, t, pc, c, window) == Some((g', pc'))
    ensures SameConnection(g, g') && g'.cached == g.cached && g'.log == g.log && g'.stranded == g.stranded
    ensures g'.mutex == if Locked(pc') then Some(t) else g.mutex
    ensures Locked(pc') <==> pc.AtLock?
  {
  }

  lemma HolderFrame(g: Shared, pc: Pc, c: Choice, g': Shared, pc': Pc)
    requires Holds(pc) && HolderStep(g, pc, c) == Some((g', pc'))
    ensures SameConnection(g, g') && g'.mutex == g.mutex && !Locked(pc')
    ensures pc'.Out? || (Holds(pc') && pc'.slot == pc.slot)
  {
  }

  lemma Frames(g: Shared, t: Tid, pc: Pc, c: Choice, window: bool, g': Shared, pc': Pc)
    requires Local(g, t, pc, c, window) == Some((g', pc'))
    ensures g'.created == g.created && g'.target == g.target
    ensures Locked(pc) || SameConnection(g, g')
    ensures Locked(pc) ==> g'.mutex == if Locked(pc') then g.mutex else None
    ensures !Locked(pc) ==> g'.mutex == if Locked(pc') then Some(t) else g.mutex
    ensures !Locked(pc) && Locked(pc') ==> pc.AtLock? && g.mutex == None
  {
    if Locked(pc) {
      LockedFrame(g, pc, c, g', pc');
    } else if Holds(pc) {
      HolderFrame(g, pc, c, g', pc');
    } else {
      OpenFrame(g, t, pc, c, window, g', pc');
    }
  }

  lemma LockedKeeps(g: Shared, t: Tid, pc: Pc, c: Choice, g': Shared, pc': Pc)
    requires ConnShared(g) && ConnThread(g, t, pc) && Locked(pc)
    requires LockedStep(g, pc, c) == Some((g', pc'))
    ensures ConnShared(g') && ConnThread(g', t, pc')
    ensures g.sessions.Some? ==> g'.sessions == g.sessions
  {
  }

  lemma ConnKeeps(g: Shared, t: Tid, pc: Pc, c: Choice, window: bool, g': Shared, pc': Pc)
    requires ConnShared(g) && ConnThread(g, t, pc)
    requires g.flag && g.sessions.None? ==> window
    requires Local(g, t, pc, c, window) == Some((g', pc'))
    ensures ConnShared(g') && ConnThread(g', t, pc')
    ensures g.sessions.Some? ==> g'.sessions == g.sessions
  {
    Frames(g, t, pc, c, window, g', pc');
    if Locked(pc) {
      LockedKeeps(g, t, pc, c, g', pc');
    }
  }

  lemma ConnSpares(g: Shared, t: Tid, pc: Pc, c: Choice, window: bool, g': Shared, pc': Pc, u: Tid, other: Pc)
    requires ConnShared(g) && ConnThread(g, t, pc) && ConnThread(g, u, other) && u != t
    requires g.flag && g.sessions.None? ==> window
    requires Local(g, t, pc, c, window) == Some((g', pc'))
    ensures ConnThread(g', u, other)
  {
    Frames(g, t, pc, c, window, g', pc');
    ConnKeeps(g, t, pc, c, window, g', pc');
  }

  lemma HolderStoreKeeps(g: Shared, t: Tid, pc: Pc, c: Choice, g': Shared, pc': Pc)
    requires StoreShared(g) && StoreThread(g, t, pc) && Holds(pc)
    requires HolderStep(g, pc, c) == Some((g', pc'))
    ensures StoreShared(g') && StoreThread(g', t, pc')
  {
  }

  lemma OpenStoreKeeps(g: Shared, t: Tid, pc: Pc, c: Choice, window: bool, g': Shared, pc': Pc)
    requires StoreShared(g) && !Locked(pc) && !Holds(pc)
    requires OpenStep(g, t, pc, c, window) == Some((g', pc'))
    ensures StoreShared(g') && StoreThread(g', t, pc')
  {
  }

  lemma StoreKeeps(g: Shared, t: Tid, pc: Pc, c: Choice, window: bool, g': Shared, pc': Pc)
    requires StoreShared(g) && StoreThread(g, t, pc)
    requires Local(g, t, pc, c, window) == Some((g', pc'))
    ensures StoreShared(g') && StoreThread(g', t, pc')
  {
    if Locked(pc) {
      LockedFrame(g, pc, c, g', pc');
    } else if Holds(pc) {
      HolderStoreKeeps(g, t, pc, c, g', pc');
    } else {
      OpenStoreKeeps(g, t, pc, c, window, g', pc');
    }
  }

  // What a step does to the record: nothing, add the slot just allocated, or drop the slot given up.
  ghost predicate OwnerMoves(g: Shared, t: Tid, pc: Pc, g': Shared, pc': Pc) {
    || (g'.owner == g.owner && (Holds(pc) <==> Holds(pc')) && (Holds(pc) ==> pc'.slot == pc.slot))
    || (!Holds(pc) && Holds(pc') && pc'.slot !in g.owner && g'.owner == g.owner[pc'.slot := t])
    || (Holds(pc) && !Holds(pc') && g'.owner == g.owner - {pc.slot})
  }

  lemma HolderMovesOwner(g: Shared, t: Tid, pc: Pc, c: Choice, g': Shared, pc': Pc)
    requires Holds(pc) && HolderStep(g, pc, c) == Some((g', pc'))
    ensures OwnerMoves(g, t, pc, g', pc')
    ensures forall k :: k in g.cached ==> k in g'.cached
  {
  }

  lemma OpenMovesOwner(g: Shared, t: Tid, pc: Pc, c: Choice, window: bool, g': Shared, pc': Pc)
    requires StoreShared(g) && !Locked(pc) && !Holds(pc)
    requires OpenStep(g, t, pc, c, window) == Some((g', pc'))
    ensures OwnerMoves(g, t, pc, g', pc')
  {
  }

  lemma LocalMovesOwner(g: Shared, t: Tid, pc: Pc, c: Choice, window: bool, g': Shared, pc': Pc)
    requires StoreShared(g)
    requires Local(g, t, pc, c, window) == Some((g', pc'))
    ensures OwnerMoves(g, t, pc, g', pc')
    ensures forall k :: k in g.cached ==> k in g'.cached
  {
    if Locked(pc) {
      LockedFrame(g, pc, c, g', pc');
    } else if Holds(pc) {
      HolderMovesOwner(g, t, pc, c, g', pc');
    } else {
      OpenFrame(g, t, pc, c, window, g', pc');
      OpenMovesOwner(g, t, pc, c, window, g', pc');
    }
  }

  lemma OwnersAfter(g: Shared, threads: map<Tid, Pc>, t: Tid, g': Shared, pc': Pc)
    requires t in threads && OwnerMoves(g, t, threads[t], g', pc')
    requires forall k :: k in g.owner ==> OwnerHolds(threads, k, g.owner[k])
    requires StoreThread(g, t, threads[t])
    ensures forall k :: k in g'.owner ==> OwnerHolds(threads[t := pc'], k, g'.owner[k])
  {
    forall k | k in g'.owner ensures OwnerHolds(threads[t := pc'], k, g'.owner[k]) {
      if k in g.owner { assert OwnerHolds(threads, k, g.owner[k]); }
    }
  }

  lemma StoreSpares(g: Shared, t: Tid, pc: Pc, g': Shared, pc': Pc, u: Tid, other: Pc)
    requires OwnerMoves(g, t, pc, g', pc') && (forall k :: k in g.cached ==> k in g'.cached)
    requires StoreThread(g, t, pc) && StoreThread(g, u, other) && u != t
    ensures StoreThread(g', u, other)
  {
  }

  // The flag is ahead of the session pool only while the lock holder is in the window.
  lemma AheadOnlyInWindow(s: State)
    requires Inv(s)
    ensures s.g.flag && s.g.sessions.None? <==> WindowOpen(s)
  {
    if s.g.mutex.Some? {
      assert ThreadInv(s.g, s.g.mutex.value, s.threads[s.g.mutex.value]);
    }
  }

  lemma StepKeepsInv(s: State, t: Tid, c: Choice)
    requires Inv(s) && Step(s, t, c).Some?
    ensures Inv(Step(s, t, c).value)
  {
    var pc, w := s.threads[t], WindowOpen(s);
    var (g', pc') := Local(s.g, t, pc, c, w).value;
    AheadOnlyInWindow(s);
    Frames(s.g, t, pc, c, w, g', pc');
    ConnKeeps(s.g, t, pc, c, w, g', pc');
    StoreKeeps(s.g, t, pc, c, w, g', pc');
    LocalMovesOwner(s.g, t, pc, c, w, g', pc');
    OwnersAfter(s.g, s.threads, t, g', pc');
    forall u | u in s.threads && u != t ensures ThreadInv(g', u, s.threads[u]) {
      ConnSpares(s.g, t, pc, c, w, g', pc', u, s.threads[u]);
      StoreSpares(s.g, t, pc, g', pc', u, s.threads[u]);
    }
  }

  lemma InitialInv(s: State)
    requires Initial(s)
    ensures Inv(s)
  {
  }

  // Every interleaving keeps the invariant.
  lemma {:induction false} RunKeepsInv(s: State, es: seq<Event>)
    requires Inv(s) && Run(s, es).Some?
    ensures Inv(Run(s, es).value)
  {
    if es != [] {
      RunKeepsInv(s, es[..|es| - 1]);
      StepKeepsInv(Run(s, es[..|es| - 1]).value, es[|es| - 1].t, es[|es| - 1].c);
    }
  }
}
