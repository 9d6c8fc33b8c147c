/** What every interleaving of `sendmessage` guarantees. */
module ManagerTheorems {
  import opened Common
  import opened PoolSpec
  import opened Producers
  import opened Manager
  import opened ManagerCalls

  // ---------------------------------------------------------------- quiet states

  // All threads outside sendmessage: where the threads of a program start, and where they end.
  ghost predicate Quiet(s: State) {
    Inv(s) && forall t :: t in s.threads ==> s.threads[t].Out?
  }

  lemma QuietFacts(s: State)
    requires Quiet(s)
    ensures s.g.mutex == None && Settled(s.g) && s.g.owner == map[] && s.g.pool.used == s.g.stranded
  {
    assert s.g.mutex == None by {
      assert forall t :: t in s.threads ==> ThreadInv(s.g, t, s.threads[t]);
    }
    assert s.g.owner == map[];
  }

  lemma InitialIsQuiet(s: State)
    requires Initial(s)
    ensures Quiet(s)
  {
    InitialInv(s);
  }

  // main's own CreateSessionPool, whichever way it ends, leads from a quiet state to a quiet one.
  lemma QuietAfterConnecting(s: State, k: ConnectScript)
    requires Quiet(s)
    ensures Quiet(State(Connected(s.g, k).0, s.threads))
  {
    QuietFacts(s);
    var h := Connected(s.g, k).0;
    assert h == Prepared(s.g, k).0;
    PreparedFrame(s.g, k);
    forall t | t in s.threads ensures ThreadInv(h, t, s.threads[t]) {
      assert ThreadInv(s.g, t, s.threads[t]);
    }
  }

  // ---------------------------------------------------------------- exclusive producers

  // The slots held by threads between allocation and free, and those threads.
  ghost function Held(threads: map<Tid, Pc>): set<nat> {
    set t | t in threads && Holds(threads[t]) :: threads[t].slot
  }

  ghost function Holders(threads: map<Tid, Pc>): set<Tid> {
    set t | t in threads && Holds(threads[t])
  }

  // No two threads between allocation and free share a producer.
  ghost predicate Exclusive(threads: map<Tid, Pc>) {
    forall t, u :: t in threads && u in threads && t != u && Holds(threads[t]) && Holds(threads[u]) ==>
      threads[t].slot != threads[u].slot
  }

  lemma {:induction false} InjectiveSize(m: map<Tid, nat>)
    requires forall t, u :: t in m && u in m && t != u ==> m[t] != m[u]
    ensures |m.Values| == |m.Keys|
    decreases |m|
  {
    if m.Keys != {} {
      var t :| t in m;
      var rest := m - {t};
      assert m.Keys == rest.Keys + {t};
      InjectiveSize(rest);
      assert m.Values == rest.Values + {m[t]} by {
        forall k | k in m.Values && k != m[t] ensures k in rest.Values {
          var u :| u in m && m[u] == k;
          assert u in rest && rest[u] == k;
        }
        forall k | k in rest.Values ensures k in m.Values {
          var u :| u in rest && rest[u] == k;
          assert u in m && m[u] == k;
        }
      }
    }
  }

  // Who is on record for a slot is the one thread that holds it.
  lemma RecordIsExact(s: State)
    requires Inv(s)
    ensures Exclusive(s.threads)
    ensures Held(s.threads) == s.g.owner.Keys
  {
    forall t | t in s.threads && Holds(s.threads[t])
      ensures s.threads[t].slot in s.g.owner && s.g.owner[s.threads[t].slot] == t
    {
      assert ThreadInv(s.g, t, s.threads[t]);
    }
    forall k | k in s.g.owner ensures k in Held(s.threads) {
      assert OwnerHolds(s.threads, k, s.g.owner[k]);
    }
  }

  lemma SlotAccounting(s: State)
    requires Inv(s)
    ensures |s.g.pool.used| == |Holders(s.threads)| + |s.g.stranded| <= s.g.pool.size
  {
    var owner := s.g.owner;
    forall k | k in owner ensures OwnerHolds(s.threads, k, owner[k]) {
    }
    InjectiveSize(owner);
    assert owner.Values == Holders(s.threads) by {
      forall t | t in Holders(s.threads) ensures t in owner.Values {
        assert ThreadInv(s.g, t, s.threads[t]);
      }
    }
    OverflowIffFull(s.g.pool);
  }

  // In every reachable state: no two threads between allocation and free share a producer, the
  // used slots are the held ones and the stranded ones, and the used counter is their total.
  lemma ProducersAreExclusive(s0: State, es: seq<Event>)
    requires Quiet(s0) && Run(s0, es).Some?
    ensures
      var s := Run(s0, es).value;
      && Exclusive(s.threads)
      && s.g.pool.used == Held(s.threads) + s.g.stranded
      && Held(s.threads) !! s.g.stranded
      && |s.g.pool.used| == |Holders(s.threads)| + |s.g.stranded| <= s.g.pool.size
  {
    RunKeepsInv(s0, es);
    var s := Run(s0, es).value;
    RecordIsExact(s);
    SlotAccounting(s);
  }

  // ---------------------------------------------------------------- the mutex

  // At the three places that take the mutex a thread goes on exactly if nobody holds it.
  lemma WaitsIffHeld(s: State, t: Tid)
    requires t in s.threads && (s.threads[t].AtLock? || s.threads[t].AtAlloc? || s.threads[t].AtFree?)
    ensures forall c :: Step(s, t, c).Some? <==> c == Fine && s.g.mutex == None
  {
  }

  lemma SparesPool(g: Shared, u: Tid, pc: Pc, c: Choice, window: bool, g': Shared, pc': Pc)
    requires !Locked(pc) && g.mutex.Some? && Local(g, u, pc, c, window) == Some((g', pc'))
    ensures g'.pool == g.pool && !Locked(pc') && SameConnection(g, g')
  {
    Frames(g, u, pc, c, window, g', pc');
  }

  // In every reachable state at most one thread is inside CreateSessionPool, and no step of another
  // thread touches the producer pool meanwhile.
  lemma MutualExclusion(s0: State, es: seq<Event>, t: Tid, u: Tid, c: Choice)
    requires Quiet(s0) && Run(s0, es).Some? && t in Run(s0, es).value.threads && Locked(Run(s0, es).value.threads[t])
    requires u in Run(s0, es).value.threads && u != t
    ensures
      var s := Run(s0, es).value;
      && !Locked(s.threads[u])
      && (Step(s, u, c).Some? ==>
            && Step(s, u, c).value.g.pool == s.g.pool && !Locked(Step(s, u, c).value.threads[u])
            && SameConnection(s.g, Step(s, u, c).value.g))
  {
    RunKeepsInv(s0, es);
    var s := Run(s0, es).value;
    assert ThreadInv(s.g, t, s.threads[t]) && ThreadInv(s.g, u, s.threads[u]);
    if Step(s, u, c).Some? {
      var (g', pc') := Local(s.g, u, s.threads[u], c, WindowOpen(s)).value;
      SparesPool(s.g, u, s.threads[u], c, WindowOpen(s), g', pc');
    }
  }

  // ---------------------------------------------------------------- one connection

  // At most one initialisation ever completes; whenever the mutex is free the flag, the session
  // pool and the connection agree; the flag is ahead of the session pool exactly while the lock
  // holder is between 153 and 190 (or 203); and the clean-up at 139-144 is never needed.
  lemma OneConnection(s0: State, es: seq<Event>)
    requires Quiet(s0) && Run(s0, es).Some?
    ensures
      var s := Run(s0, es).value;
      && s.g.initialised <= 1
      && (s.g.mutex == None ==> (s.g.flag <==> s.g.sessions.Some?) && (s.g.flag <==> s.g.connection.Some?))
      && (s.g.flag && s.g.sessions.None? <==> WindowOpen(s))
      && (forall t :: t in s.threads ==> !s.threads[t].InStale?)
  {
    RunKeepsInv(s0, es);
    var s := Run(s0, es).value;
    AheadOnlyInWindow(s);
    forall t | t in s.threads ensures !s.threads[t].InStale? {
      assert ThreadInv(s.g, t, s.threads[t]);
    }
  }

  lemma SessionsImplyFlag(s: State)
    requires Inv(s) && s.g.sessions.Some?
    ensures s.g.flag
  {
    if s.g.mutex.Some? {
      assert ThreadInv(s.g, s.g.mutex.value, s.threads[s.g.mutex.value]);
    }
  }

  lemma CrashesOnlyAtTake(g: Shared, t: Tid, pc: Pc, c: Choice, window: bool, g': Shared, pc': Pc)
    requires Local(g, t, pc, c, window) == Some((g', pc'))
    ensures pc'.Crashed? <==> pc.AtTake? && g.sessions.None?
  {
  }

  lemma SessionsStay(s: State, t: Tid, c: Choice)
    requires Inv(s) && s.g.sessions.Some? && Step(s, t, c).Some?
    ensures Step(s, t, c).value.g.sessions == s.g.sessions
    ensures t in s.threads && !Step(s, t, c).value.threads[t].Crashed?
  {
    var (g', pc') := Local(s.g, t, s.threads[t], c, WindowOpen(s)).value;
    AheadOnlyInWindow(s);
    assert ThreadInv(s.g, t, s.threads[t]);
    ConnKeeps(s.g, t, s.threads[t], c, WindowOpen(s), g', pc');
    CrashesOnlyAtTake(s.g, t, s.threads[t], c, WindowOpen(s), g', pc');
  }

  lemma {:induction false} SessionsKept(s: State, es: seq<Event>)
    requires Inv(s) && s.g.sessions.Some? && Run(s, es).Some?
    ensures Run(s, es).value.g.sessions == s.g.sessions
  {
    if es != [] {
      SessionsKept(s, es[..|es| - 1]);
      RunKeepsInv(s, es[..|es| - 1]);
      SessionsStay(Run(s, es[..|es| - 1]).value, es[|es| - 1].t, es[|es| - 1].c);
    }
  }

  // Once there is a session pool it is never replaced, and the flag stays set.
  lemma SessionsAreForever(s: State, es: seq<Event>)
    requires Inv(s) && s.g.sessions.Some? && Run(s, es).Some?
    ensures Run(s, es).value.g.sessions == s.g.sessions && Run(s, es).value.g.flag
  {
    SessionsKept(s, es);
    RunKeepsInv(s, es);
    SessionsImplyFlag(Run(s, es).value);
  }

  // ---------------------------------------------------------------- the null session pool

  // A thread stands at takeSession without a session pool only if its own attempt to create the
  // connection threw (and 212 returned true), or if it read the flag inside another's window.
  lemma NullSessionPoolOnlyBy(s0: State, es: seq<Event>, t: Tid)
    requires Quiet(s0) && Run(s0, es).Some?
    requires t in Run(s0, es).value.threads && Run(s0, es).value.threads[t].AtTake?
    requires Run(s0, es).value.g.sessions == None
    ensures
      var how := Run(s0, es).value.threads[t].how;
      how == ConnectionThrew || how == SawFlag(true)
  {
    RunKeepsInv(s0, es);
    var s := Run(s0, es).value;
    assert ThreadInv(s.g, t, s.threads[t]);
  }

  ghost predicate CrashRun(s: State, es: seq<Event>, t: Tid) {
    Run(s, es).Some? && t in Run(s, es).value.threads && Run(s, es).value.threads[t].Crashed?
  }

  lemma CrashReached(s: State, g: Shared, th: map<Tid, Pc>, t: Tid, calm: bool)
    requires Reach(s, g, th, calm) && t in th && th[t] == Crashed
    ensures exists es :: CrashRun(s, es, t) && (calm ==> Calm(es))
  {
    var es :| Run(s, es) == Some(State(g, th)) && (calm ==> Calm(es));
    assert CrashRun(s, es, t);
  }

  const NO_FAILURE: SendScript := SendScript(false, false, false, false, false)

  // One thread alone crashes when creating the connection throws.
  lemma CrashAlone(s: State, t: Tid)
    requires Quiet(s) && s.g.created && s.g.sessions == None && t in s.threads
    ensures exists es :: CrashRun(s, es, t)
  {
    QuietFacts(s);
    var k := CallScript(ConnectScript(false, true, false, false), Fine, NO_FAILURE, false);
    CallIsRun(s, t, "", k);
    var (h, end) := Called(s.g, t, "", k);
    assert end == Crashed;
    CrashReached(s, h, s.threads[t := end], t, false);
  }

  lemma LockedToWindow(s: State, g: Shared, th: map<Tid, Pc>, u: Tid, x: string) returns (h: Shared)
    requires Reach(s, g, th[u := InTest(x)], true)
    requires g.created && !g.flag && g.connection == None && g.sessions == None
    ensures Reach(s, h, th[u := InWindow(x)], true)
    ensures h.created && h.flag && h.sessions == None && h.mutex == g.mutex
  {
    var connected := g.(connection := Some(g.connections), connections := g.connections + 1);
    h := connected.(flag := true);
    ReachLocked(s, true, g, th, u, InTest(x), Fine, g, InCreate(x));
    ReachLocked(s, true, g, th, u, InCreate(x), Fine, connected, InStart(x));
    ReachLocked(s, true, connected, th, u, InStart(x), Fine, h, InWindow(x));
  }

  // Thread u calls sendmessage, finds the flag clear, takes the lock and runs on to just after line 153.
  lemma OpenWindow(s: State, u: Tid, x: string) returns (g: Shared)
    requires Quiet(s) && s.g.created && s.g.sessions == None && u in s.threads
    ensures Reach(s, g, s.threads[u := InWindow(x)], true)
    ensures g.created && g.flag && g.sessions == None && g.mutex == Some(u)
  {
    var th := s.threads;
    QuietFacts(s);
    ReachSelf(s, u, true);
    ReachOpen(s, true, s.g, th, u, th[u], Call(x), s.g, AtFlag(x));
    ReachOpen(s, true, s.g, th, u, AtFlag(x), Fine, s.g, AtLock(x));
    ReachOpen(s, true, s.g, th, u, AtLock(x), Fine, s.g.(mutex := Some(u)), InTest(x));
    g := LockedToWindow(s, s.g.(mutex := Some(u)), th, u, x);
  }

  // Two threads crash one of them without any library call failing.
  lemma CrashInWindow(s: State, t: Tid, u: Tid)
    requires Quiet(s) && s.g.created && s.g.sessions == None && t in s.threads && u in s.threads && t != u
    ensures exists es :: CrashRun(s, es, t) && Calm(es)
  {
    var x, how := "", SawFlag(true);
    var g := OpenWindow(s, u, x);
    var th := s.threads[u := InWindow(x)];
    assert th[t := th[t]] == th;
    ReachOpen(s, true, g, th, t, th[t], Call(x), g, AtFlag(x));
    ReachOpen(s, true, g, th, t, AtFlag(x), Fine, g, AtTake(x, how));
    ReachOpen(s, true, g, th, t, AtTake(x, how), Fine, g, Crashed);
    CrashReached(s, g, th[t := Crashed], t, true);
  }

  ghost predicate NoneCrashed(s: State) {
    forall t :: t in s.threads ==> !s.threads[t].Crashed?
  }

  // With a session pool nobody does.
  lemma {:induction false} NoCrashWithSessions(s: State, es: seq<Event>)
    requires Inv(s) && s.g.sessions.Some? && NoneCrashed(s) && Run(s, es).Some?
    ensures NoneCrashed(Run(s, es).value)
  {
    if es != [] {
      var before := Run(s, es[..|es| - 1]).value;
      NoCrashWithSessions(s, es[..|es| - 1]);
      RunKeepsInv(s, es[..|es| - 1]);
      SessionsAreForever(s, es[..|es| - 1]);
      SessionsStay(before, es[|es| - 1].t, es[|es| - 1].c);
    }
  }

  // From a quiet state, some schedule dereferences the null session pool if and only if
  // CreateSessionPool has not completed beforehand.
  lemma CrashReachableIff(s: State)
    requires Quiet(s) && s.g.created && s.threads != map[]
    ensures (exists es, t :: CrashRun(s, es, t)) <==> s.g.sessions == None
  {
    if s.g.sessions == None {
      var t :| t in s.threads;
      CrashAlone(s, t);
    } else {
      forall es, t ensures !CrashRun(s, es, t) {
        if Run(s, es).Some? { NoCrashWithSessions(s, es); }
      }
    }
  }

  // Where a thread can be that runs alone while nothing fails.
  ghost predicate CalmAt(pc: Pc) {
    !pc.Crashed? && !pc.InCatch? && !pc.InDelete? && (pc.InUnlock? || pc.AtTake? ==> Safe(pc.how))
  }

  lemma CalmStep(s: State, t: Tid, c: Choice)
    requires Inv(s) && s.threads.Keys == {t} && CalmAt(s.threads[t]) && (c == Fine || c.Call?)
    requires Step(s, t, c).Some?
    ensures CalmAt(Step(s, t, c).value.threads[t])
  {
    assert ThreadInv(s.g, t, s.threads[t]);
    assert WindowOpen(s) ==> s.g.mutex == Some(t);
  }

  lemma {:induction false} CalmAlone(s: State, t: Tid, es: seq<Event>)
    requires Quiet(s) && s.threads.Keys == {t} && Run(s, es).Some? && Calm(es)
    ensures Run(s, es).value.threads.Keys == {t} && CalmAt(Run(s, es).value.threads[t])
  {
    if es != [] {
      var fs, e := es[..|es| - 1], es[|es| - 1];
      assert e in es && forall d :: d in fs ==> d in es;
      CalmAlone(s, t, fs);
      RunKeepsInv(s, fs);
      assert e.t == t;
      CalmStep(Run(s, fs).value, t, e.c);
    }
  }

  lemma {:induction false} NobodyMoves(s: State, es: seq<Event>)
    requires s.threads == map[] && Run(s, es).Some?
    ensures Run(s, es) == Some(s)
  {
    if es != [] { NobodyMoves(s, es[..|es| - 1]); }
  }

  lemma NoCalmCrash(s: State, es: seq<Event>, t: Tid)
    requires Quiet(s) && CrashRun(s, es, t) && Calm(es)
    ensures s.g.sessions == None && |s.threads| >= 2
  {
    if s.g.sessions.Some? {
      NoCrashWithSessions(s, es);
    } else if s.threads == map[] {
      NobodyMoves(s, es);
    } else if |s.threads| < 2 {
      var u :| u in s.threads;
      assert |s.threads.Keys - {u}| == 0;
      assert s.threads.Keys == {u} + (s.threads.Keys - {u}) == {u};
      CalmAlone(s, u, es);
    }
  }

  // Without any library failure, it is if and only if moreover there are at least two threads.
  lemma CalmCrashReachableIff(s: State)
    requires Quiet(s) && s.g.created
    ensures (exists es, t :: CrashRun(s, es, t) && Calm(es)) <==> s.g.sessions == None && |s.threads| >= 2
  {
    if s.g.sessions == None && |s.threads| >= 2 {
      var t :| t in s.threads;
      assert |s.threads.Keys - {t}| >= 1;
      var u :| u in s.threads.Keys - {t};
      CrashInWindow(s, t, u);
    } else {
      forall es, t ensures !(CrashRun(s, es, t) && Calm(es)) {
        if CrashRun(s, es, t) && Calm(es) { NoCalmCrash(s, es, t); }
      }
    }
  }

  // ---------------------------------------------------------------- overflow

  lemma AllocOrOverflow(g: Shared, t: Tid, x: string, window: bool)
    requires g.mutex == None
    ensures OpenStep(g, t, AtAlloc(x), Fine, window).Some?
    ensures OpenStep(g, t, AtAlloc(x), Fine, window).value.1.AtOverflowClose? <==> !AllocateSlot(g.pool).1.Slot?
  {
  }

  // Allocation fails exactly when the holders and the stranded slots fill the pool.
  lemma OverflowExactlyWhenFull(s: State, t: Tid)
    requires Inv(s) && t in s.threads && s.threads[t].AtAlloc? && s.g.mutex == None
    ensures Step(s, t, Fine).Some?
    ensures Step(s, t, Fine).value.threads[t].AtOverflowClose? <==>
            |Holders(s.threads)| + |s.g.stranded| == s.g.pool.size
  {
    SlotAccounting(s);
    OverflowIffFull(s.g.pool);
    AllocOrOverflow(s.g, t, s.threads[t].text, WindowOpen(s));
  }

  // Threads between reaching the allocation and freeing.
  ghost function Callers(threads: map<Tid, Pc>): set<Tid> {
    set t | t in threads && (threads[t].AtAlloc? || Holds(threads[t]))
  }

  // At every moment of the run at most `size` threads are between allocation and free, and no
  // session close at 286 has thrown.
  ghost predicate Bounded(s: State, es: seq<Event>) {
    forall i :: 0 <= i <= |es| && Run(s, es[..i]).Some? ==>
      && |Callers(Run(s, es[..i]).value.threads)| <= s.g.pool.size
      && Run(s, es[..i]).value.g.stranded == {}
  }

  lemma BoundedPrefix(s: State, es: seq<Event>)
    requires Bounded(s, es) && es != []
    ensures Bounded(s, es[..|es| - 1])
  {
    var fs := es[..|es| - 1];
    forall i | 0 <= i <= |fs| && Run(s, fs[..i]).Some?
      ensures |Callers(Run(s, fs[..i]).value.threads)| <= s.g.pool.size && Run(s, fs[..i]).value.g.stranded == {}
    {
      assert fs[..i] == es[..i];
    }
  }

  lemma SizeStep(s: State, t: Tid, c: Choice)
    requires Step(s, t, c).Some?
    ensures Step(s, t, c).value.g.pool.size == s.g.pool.size
  {
    var (g', pc') := Local(s.g, t, s.threads[t], c, WindowOpen(s)).value;
    if Locked(s.threads[t]) { LockedFrame(s.g, s.threads[t], c, g', pc'); }
  }

  lemma {:induction false} SizeIsFixed(s: State, es: seq<Event>)
    requires Run(s, es).Some?
    ensures Run(s, es).value.g.pool.size == s.g.pool.size
  {
    if es != [] {
      SizeIsFixed(s, es[..|es| - 1]);
      SizeStep(Run(s, es[..|es| - 1]).value, es[|es| - 1].t, es[|es| - 1].c);
    }
  }

  lemma CallersOutnumberHolders(threads: map<Tid, Pc>, t: Tid)
    requires t in threads && threads[t].AtAlloc?
    ensures |Holders(threads)| < |Callers(threads)|
  {
    var more := Holders(threads) + {t};
    assert t !in Holders(threads) && more <= Callers(threads);
    SubsetSmaller(more, Callers(threads));
  }

  lemma FullOrRoom(p: Pool)
    requires Ok(p)
    ensures |p.used| < p.size ==> AllocateSlot(p).1.Slot?
  {
    OverflowIffFull(p);
  }

  lemma RoomForCaller(s: State, t: Tid)
    requires Inv(s) && t in s.threads && s.threads[t].AtAlloc?
    requires |Callers(s.threads)| <= s.g.pool.size && s.g.stranded == {}
    ensures AllocateSlot(s.g.pool).1.Slot?
  {
    SlotAccounting(s);
    CallersOutnumberHolders(s.threads, t);
    FullOrRoom(s.g.pool);
  }

  lemma OverflowOnlyAtAlloc(g: Shared, t: Tid, pc: Pc, c: Choice, window: bool)
    requires Local(g, t, pc, c, window).Some? && (pc.AtAlloc? ==> AllocateSlot(g.pool).1.Slot?)
    ensures !Local(g, t, pc, c, window).value.1.AtOverflowClose?
  {
  }

  lemma NoOverflowStep(s: State, t: Tid, c: Choice)
    requires Inv(s) && Step(s, t, c).Some? && t in s.threads
    requires |Callers(s.threads)| <= s.g.pool.size && s.g.stranded == {}
    ensures !Step(s, t, c).value.threads[t].AtOverflowClose?
  {
    if s.threads[t].AtAlloc? { RoomForCaller(s, t); }
    OverflowOnlyAtAlloc(s.g, t, s.threads[t], c, WindowOpen(s));
  }

  // In such a run no thread ever gets "Pool Overflow".
  lemma {:induction false} BoundedNeverOverflows(s: State, es: seq<Event>)
    requires Quiet(s) && Run(s, es).Some? && Bounded(s, es)
    ensures forall t :: t in Run(s, es).value.threads ==> !Run(s, es).value.threads[t].AtOverflowClose?
  {
    if es != [] {
      var fs, e := es[..|es| - 1], es[|es| - 1];
      BoundedPrefix(s, es);
      BoundedNeverOverflows(s, fs);
      RunKeepsInv(s, fs);
      SizeIsFixed(s, fs);
      assert fs[..|fs|] == fs && es[..|fs|] == fs;
      NoOverflowStep(Run(s, fs).value, e.t, e.c);
    }
  }

  lemma StrandedStay(s: State, t: Tid, c: Choice)
    requires Step(s, t, c).Some?
    ensures s.g.stranded <= Step(s, t, c).value.g.stranded
  {
    var pc, w := s.threads[t], WindowOpen(s);
    var (g', pc') := Local(s.g, t, pc, c, w).value;
    if Locked(pc) {
      LockedFrame(s.g, pc, c, g', pc');
    } else if !Holds(pc) {
      OpenFrame(s.g, t, pc, c, w, g', pc');
    }
  }

  // A slot whose close threw is lost for good: it stays in use, and the pool keeps shrinking.
  lemma {:induction false} StrandedForever(s: State, es: seq<Event>)
    requires Inv(s) && Run(s, es).Some?
    ensures s.g.stranded <= Run(s, es).value.g.stranded <= Run(s, es).value.g.pool.used
    ensures |Holders(Run(s, es).value.threads)| <= s.g.pool.size - |s.g.stranded|
  {
    RunKeepsInv(s, es);
    SizeIsFixed(s, es);
    SlotAccounting(Run(s, es).value);
    if es != [] {
      StrandedForever(s, es[..|es| - 1]);
      StrandedStay(Run(s, es[..|es| - 1]).value, es[|es| - 1].t, es[|es| - 1].c);
    }
    SubsetSmaller(s.g.stranded, Run(s, es).value.g.stranded);
  }
}
