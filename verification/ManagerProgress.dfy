/** No interleaving of `sendmessage` deadlocks, and every call ends after a bounded number of its own steps. */
module ManagerProgress {
  import opened Common
  import opened PoolSpec
  import opened Manager
  import opened ManagerCalls
  import opened ManagerTheorems

  // The thread is inside sendmessage.
  predicate InCall(pc: Pc) {
    !pc.Out? && !pc.Crashed?
  }

  // An upper bound on the steps that are left of the call.
  function Left(pc: Pc): (n: nat)
    ensures n <= 16 && (n == 0 <==> !InCall(pc))
  {
    match pc
    case Out(_) => 0
    case Crashed => 0
    case AtFlag(_) => 16
    case AtLock(_) => 15
    case InTest(_) => 14
    case InStale(_) => 13
    case InCreate(_) => 12
    case InStart(_) => 11
    case InWindow(_) => 10
    case InCatch(_) => 9
    case InDelete(_) => 8
    case InUnlock(_, _, _) => 7
    case AtTake(_, _) => 6
    case AtAlloc(_) => 5
    case AtDest(_, _) => 4
    case AtSend(_, _) => 3
    case AtClose(_, _) => 2
    case AtOverflowClose => 1
    case AtFree(_, _) => 1
  }

  // ---------------------------------------------------------------- no deadlock

  lemma LockedCanStep(g: Shared, pc: Pc)
    requires Locked(pc)
    ensures LockedStep(g, pc, Fine).Some?
  {
  }

  lemma UnlockedCanStep(g: Shared, t: Tid, pc: Pc, window: bool)
    requires InCall(pc) && !Locked(pc) && g.mutex == None && StoreThread(g, t, pc)
    ensures Local(g, t, pc, Fine, window).Some?
  {
  }

  lemma OnlyLockBlocks(g: Shared, t: Tid, pc: Pc, window: bool)
    requires InCall(pc) && !Locked(pc) && StoreThread(g, t, pc)
    ensures pc.AtLock? || pc.AtAlloc? || pc.AtFree? || Local(g, t, pc, Fine, window).Some?
  {
  }

  // As long as a call is in progress some call can go on, without anything failing: the thread itself
  // or, if it waits for the mutex, the thread that holds it.
  lemma NoDeadlock(s: State, t: Tid) returns (u: Tid)
    requires Inv(s) && t in s.threads && InCall(s.threads[t])
    ensures u in s.threads && InCall(s.threads[u]) && Step(s, u, Fine).Some?
    ensures u == t || (s.g.mutex == Some(u) && (s.threads[t].AtLock? || s.threads[t].AtAlloc? || s.threads[t].AtFree?))
  {
    u := t;
    assert ThreadInv(s.g, t, s.threads[t]);
    if Locked(s.threads[t]) {
      LockedCanStep(s.g, s.threads[t]);
    } else if s.g.mutex == None {
      UnlockedCanStep(s.g, t, s.threads[t], WindowOpen(s));
    } else {
      OnlyLockBlocks(s.g, t, s.threads[t], WindowOpen(s));
      if Step(s, t, Fine).None? {
        u := s.g.mutex.value;
        assert ThreadInv(s.g, u, s.threads[u]);
        LockedCanStep(s.g, s.threads[u]);
      }
    }
  }

  // ---------------------------------------------------------------- every call ends

  lemma LockedComesNearer(g: Shared, pc: Pc, c: Choice, g': Shared, pc': Pc)
    requires Locked(pc) && LockedStep(g, pc, c) == Some((g', pc'))
    ensures Left(pc') < Left(pc)
  {
  }

  lemma HolderComesNearer(g: Shared, pc: Pc, c: Choice, g': Shared, pc': Pc)
    requires Holds(pc) && HolderStep(g, pc, c) == Some((g', pc'))
    ensures Left(pc') < Left(pc)
  {
  }

  lemma OpenComesNearer(g: Shared, t: Tid, pc: Pc, c: Choice, window: bool, g': Shared, pc': Pc)
    requires !Locked(pc) && !Holds(pc) && OpenStep(g, t, pc, c, window) == Some((g', pc'))
    ensures if c.Call? then pc.Out? else InCall(pc) && Left(pc') < Left(pc)
  {
  }

  // A step other than a new call brings the call nearer to its end.
  lemma ComesNearer(s: State, t: Tid, c: Choice)
    requires Step(s, t, c).Some?
    ensures
      var pc, pc' := s.threads[t], Step(s, t, c).value.threads[t];
      if c.Call? then pc.Out? else InCall(pc) && Left(pc') < Left(pc)
  {
    var pc, w := s.threads[t], WindowOpen(s);
    var (g', pc') := Local(s.g, t, pc, c, w).value;
    if Locked(pc) {
      LockedComesNearer(s.g, pc, c, g', pc');
    } else if Holds(pc) {
      HolderComesNearer(s.g, pc, c, g', pc');
    } else {
      OpenComesNearer(s.g, t, pc, c, w, g', pc');
    }
  }

  // The steps of thread t from its last call on, that call included.
  function OwnSteps(es: seq<Event>, t: Tid): nat {
    if es == [] then 0
    else
      var e, before := es[|es| - 1], OwnSteps(es[..|es| - 1], t);
      if e.t != t then before else if e.c.Call? then 1 else before + 1
  }

  // Whatever the other threads do and whatever fails, no call takes more than 17 steps of its own.
  lemma {:induction false} CallTakesAtMost17(s: State, es: seq<Event>, t: Tid)
    requires Quiet(s) && Run(s, es).Some? && t in s.threads
    ensures t in Run(s, es).value.threads && OwnSteps(es, t) + Left(Run(s, es).value.threads[t]) <= 17
  {
    if es != [] {
      CallTakesAtMost17(s, es[..|es| - 1], t);
      ComesNearer(Run(s, es[..|es| - 1]).value, es[|es| - 1].t, es[|es| - 1].c);
    }
  }

  // ---------------------------------------------------------------- all calls end

  // What is left of the calls of all threads with a number below b.
  function TotalLeft(threads: map<Tid, Pc>, b: nat): nat {
    if b == 0 then 0
    else TotalLeft(threads, b - 1) + if b - 1 in threads then Left(threads[b - 1]) else 0
  }

  lemma {:induction false} TotalAfter(threads: map<Tid, Pc>, t: Tid, pc: Pc, b: nat)
    requires t in threads
    ensures TotalLeft(threads[t := pc], b)
         == TotalLeft(threads, b) + if t < b then Left(pc) - Left(threads[t]) else 0
  {
    if b > 0 { TotalAfter(threads, t, pc, b - 1); }
  }

  lemma {:induction false} Numbered(threads: map<Tid, Pc>) returns (b: nat)
    ensures forall t :: t in threads ==> t < b
    decreases |threads|
  {
    b := 0;
    if threads != map[] {
      var t :| t in threads;
      var rest := threads - {t};
      assert threads.Keys == rest.Keys + {t};
      b := Numbered(rest);
      b := b + t + 1;
    }
  }

  ghost predicate NoCalls(es: seq<Event>) {
    forall e :: e in es ==> !e.c.Call?
  }

  // Without new calls every schedule comes to an end.
  lemma {:induction false} SchedulesEnd(s: State, es: seq<Event>, b: nat)
    requires NoCalls(es) && Run(s, es).Some? && forall t :: t in s.threads ==> t < b
    ensures Run(s, es).value.threads.Keys == s.threads.Keys
    ensures |es| + TotalLeft(Run(s, es).value.threads, b) <= TotalLeft(s.threads, b)
  {
    if es != [] {
      var fs, e := es[..|es| - 1], es[|es| - 1];
      assert e in es && forall d :: d in fs ==> d in es;
      SchedulesEnd(s, fs, b);
      var before := Run(s, fs).value;
      ComesNearer(before, e.t, e.c);
      TotalAfter(before.threads, e.t, Run(s, es).value.threads[e.t], b);
    }
  }

  lemma {:induction false} Settle(s0: State, es: seq<Event>, s: State, b: nat) returns (fs: seq<Event>)
    requires Inv(s) && Run(s0, es) == Some(s) && NoCalls(es) && Calm(es) && forall t :: t in s.threads ==> t < b
    ensures Run(s0, fs).Some? && NoCalls(fs) && Calm(fs)
    ensures forall t :: t in Run(s0, fs).value.threads ==> !InCall(Run(s0, fs).value.threads[t])
    decreases TotalLeft(s.threads, b)
  {
    fs := es;
    if t :| t in s.threads && InCall(s.threads[t]) {
      var u := NoDeadlock(s, t);
      var s' := Step(s, u, Fine).value;
      ComesNearer(s, u, Fine);
      TotalAfter(s.threads, u, s'.threads[u], b);
      StepKeepsInv(s, u, Fine);
      RunSnoc(s0, es, Event(u, Fine));
      fs := Settle(s0, es + [Event(u, Fine)], s', b);
    }
  }

  // And from every state some schedule without calls and without failures brings all calls to an end:
  // every thread is outside again or has met the null session pool, which with a session pool none does.
  lemma CanSettle(s: State) returns (es: seq<Event>)
    requires Inv(s)
    ensures Run(s, es).Some? && NoCalls(es) && Calm(es)
    ensures forall t :: t in Run(s, es).value.threads ==> !InCall(Run(s, es).value.threads[t])
    ensures s.g.sessions.Some? && NoneCrashed(s) ==> Quiet(Run(s, es).value)
  {
    var b := Numbered(s.threads);
    es := Settle(s, [], s, b);
    RunKeepsInv(s, es);
    if s.g.sessions.Some? && NoneCrashed(s) { NoCrashWithSessions(s, es); }
  }
}
