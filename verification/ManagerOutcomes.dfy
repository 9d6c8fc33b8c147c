/** How every call of `sendmessage` ends, over all interleavings and all library failures. */
module ManagerOutcomes {
  import opened Common
  import opened PoolSpec
  import opened Producers
  import opened Manager
  import opened ManagerCalls
  import opened ManagerTheorems
  import opened ManagerProgress
  import opened ManagerHistory

  // What has gone wrong in a call so far: nothing, something that makes it return false, or something
  // that lets the exception escape.
  datatype Trouble = Nothing | Fails | Escapes

  function ResultOf(d: Trouble): CallResult {
    match d
    case Nothing => Returned(true)
    case Fails => Returned(false)
    case Escapes => Propagated
  }

  // What goes wrong at the start: there is no pool, or no text.
  function AtStart(created: bool, x: string): Trouble {
    if created && x != "" then Nothing else Fails
  }

  // What goes wrong at a line.  A failure to create the connection (149) is not noticed; closing a stale
  // connection (141) and closing the session (273, 286) are outside every try block; every other failure
  // is caught, and so is a pool without a free slot.
  function AtLine(g: Shared, pc: Pc, c: Choice, d: Trouble): Trouble {
    if pc.AtAlloc? && |g.pool.used| == g.pool.size then Fails
    else if c == Fine || pc.InCreate? then d
    else if pc.InStale? || pc.AtClose? || pc.AtOverflowClose? then Escapes
    else Fails
  }

  // What has gone wrong in the call that thread t is in, or was in last.
  function TroubleOf(s: State, es: seq<Event>, t: Tid): Trouble {
    if es == [] then Nothing
    else
      var fs, e := es[..|es| - 1], es[|es| - 1];
      var before := TroubleOf(s, fs, t);
      if e.t != t || Run(s, fs).None? || t !in Run(s, fs).value.threads then before
      else if e.c.Call? then AtStart(Run(s, fs).value.g.created, e.c.text)
      else AtLine(Run(s, fs).value.g, Run(s, fs).value.threads[t], e.c, before)
  }

  // ---------------------------------------------------------------- the invariant

  // Where a call with text x can stand after that much trouble.
  ghost predicate StandsAt(g: Shared, pc: Pc, x: string, d: Trouble) {
    && (InCall(pc) ==> g.created)
    && match pc
       case Out(r) => r == ResultOf(d)
       case Crashed => true
       case AtClose(_, sent) => d == if sent then Nothing else Fails
       case AtFree(_, sent) => d == if sent then Nothing else Fails
       case AtOverflowClose => d == Fails
       case InCatch(_) => d == Fails
       case InDelete(_) => d == Fails
       case InUnlock(_, ret, _) => d == if ret then AtStart(true, x) else Fails
       case AtSend(_, _) => d == Nothing
       case _ => d == AtStart(true, x)
  }

  lemma LockedStands(g: Shared, t: Tid, pc: Pc, c: Choice, g': Shared, pc': Pc, x: string, d: Trouble)
    requires Locked(pc) && ConnThread(g, t, pc) && LockedStep(g, pc, c) == Some((g', pc')) && StandsAt(g, pc, x, d)
    ensures StandsAt(g', pc', x, AtLine(g, pc, c, d))
  {
  }

  lemma HolderStands(g: Shared, pc: Pc, c: Choice, g': Shared, pc': Pc, x: string, d: Trouble)
    requires Holds(pc) && HolderStep(g, pc, c) == Some((g', pc')) && StandsAt(g, pc, x, d)
    requires pc.AtDest? ==> pc.text == x
    ensures StandsAt(g', pc', x, AtLine(g, pc, c, d))
  {
  }

  lemma OpenStands(g: Shared, t: Tid, pc: Pc, c: Choice, w: bool, g': Shared, pc': Pc, x: string, d: Trouble)
    requires !Locked(pc) && !Holds(pc) && !pc.Out? && OpenStep(g, t, pc, c, w) == Some((g', pc'))
    requires Ok(g.pool) && StandsAt(g, pc, x, d)
    ensures StandsAt(g', pc', x, AtLine(g, pc, c, d))
  {
    OverflowIffFull(g.pool);
  }

  lemma CallStands(s: State, e: Event)
    requires Step(s, e.t, e.c).Some? && e.c.Call?
    ensures
      var s' := Step(s, e.t, e.c).value;
      StandsAt(s'.g, s'.threads[e.t], e.c.text, AtStart(s.g.created, e.c.text))
  {
  }

  lemma StepStands(s: State, e: Event, x: string, d: Trouble)
    requires Inv(s) && Step(s, e.t, e.c).Some? && !e.c.Call? && StandsAt(s.g, s.threads[e.t], x, d)
    requires s.threads[e.t].AtDest? ==> s.threads[e.t].text == x
    ensures
      var s' := Step(s, e.t, e.c).value;
      StandsAt(s'.g, s'.threads[e.t], x, AtLine(s.g, s.threads[e.t], e.c, d))
  {
    var pc, w := s.threads[e.t], WindowOpen(s);
    var (g', pc') := Local(s.g, e.t, pc, e.c, w).value;
    assert ThreadInv(s.g, e.t, pc);
    CallsComeFromOut(s, e);
    if Locked(pc) {
      LockedStands(s.g, e.t, pc, e.c, g', pc', x, d);
    } else if Holds(pc) {
      HolderStands(s.g, pc, e.c, g', pc', x, d);
    } else {
      OpenStands(s.g, e.t, pc, e.c, w, g', pc', x, d);
    }
  }

  lemma StandsStill(g: Shared, g': Shared, pc: Pc, x: string, d: Trouble)
    requires StandsAt(g, pc, x, d) && g'.created == g.created
    ensures StandsAt(g', pc, x, d)
  {
  }

  lemma {:induction false} CallStandsAt(s: State, es: seq<Event>, t: Tid)
    requires Quiet(s) && Run(s, es).Some? && t in s.threads && Asked(es, t).Some?
    ensures t in Run(s, es).value.threads
    ensures StandsAt(Run(s, es).value.g, Run(s, es).value.threads[t], Asked(es, t).value, TroubleOf(s, es, t))
  {
    var fs, e := es[..|es| - 1], es[|es| - 1];
    var b := Run(s, fs).value;
    EveryCallDelivers(s, fs, t);
    RunKeepsInv(s, fs);
    CallsComeFromOut(b, e);
    if e.t == t && e.c.Call? {
      CallStands(b, e);
    } else if e.t == t {
      CallStandsAt(s, fs, t);
      StepStands(b, e, Asked(fs, t).value, TroubleOf(s, fs, t));
    } else {
      var (g', pc') := Local(b.g, e.t, b.threads[e.t], e.c, WindowOpen(b)).value;
      Frames(b.g, e.t, b.threads[e.t], e.c, WindowOpen(b), g', pc');
      CallStandsAt(s, fs, t);
      StandsStill(b.g, g', b.threads[t], Asked(fs, t).value, TroubleOf(s, fs, t));
    }
  }

  // ---------------------------------------------------------------- theorems

  // Over every interleaving and every failure, a call that has ended returned true exactly if nothing went
  // wrong, and returned false or let the exception escape according to what did.
  lemma EveryCallEndsAs(s: State, es: seq<Event>, t: Tid)
    requires Quiet(s) && Run(s, es).Some? && t in s.threads && Asked(es, t).Some?
    ensures t in Run(s, es).value.threads
    ensures Run(s, es).value.threads[t].Out? ==> Run(s, es).value.threads[t].result == ResultOf(TroubleOf(s, es, t))
  {
    CallStandsAt(s, es, t);
  }

  lemma LockedEscapes(g: Shared, pc: Pc, c: Choice, g': Shared, pc': Pc)
    requires Locked(pc) && LockedStep(g, pc, c) == Some((g', pc'))
    ensures pc' == Out(Propagated) <==> c == Throw && pc.InStale?
  {
  }

  lemma HolderEscapes(g: Shared, pc: Pc, c: Choice, g': Shared, pc': Pc)
    requires Holds(pc) && HolderStep(g, pc, c) == Some((g', pc'))
    ensures pc' == Out(Propagated) <==> c == Throw && pc.AtClose?
  {
  }

  // An exception leaves sendmessage in a step if and only if that step is a throwing close of a stale
  // connection or of the session.
  lemma EscapesIff(s: State, e: Event)
    requires Step(s, e.t, e.c).Some?
    ensures
      var pc, pc' := s.threads[e.t], Step(s, e.t, e.c).value.threads[e.t];
      pc' == Out(Propagated) <==> e.c == Throw && (pc.InStale? || pc.AtClose? || pc.AtOverflowClose?)
  {
    var pc, w := s.threads[e.t], WindowOpen(s);
    var (g', pc') := Local(s.g, e.t, pc, e.c, w).value;
    if Locked(pc) {
      LockedEscapes(s.g, pc, e.c, g', pc');
    } else if Holds(pc) {
      HolderEscapes(s.g, pc, e.c, g', pc');
    }
  }

  // At event i thread t finds no free slot.
  ghost predicate OverflowAt(s: State, es: seq<Event>, t: Tid, i: nat) {
    && i < |es| && es[i].t == t && Run(s, es[..i]).Some? && t in Run(s, es[..i]).value.threads
    && Run(s, es[..i]).value.threads[t].AtAlloc?
    && |Run(s, es[..i]).value.g.pool.used| == Run(s, es[..i]).value.g.pool.size
  }

  // No library call of thread t has failed since it began its last call.
  ghost predicate OwnCalm(es: seq<Event>, t: Tid) {
    forall i :: CallOf(es, t) <= i < |es| && es[i].t == t ==> es[i].c == Fine || es[i].c.Call?
  }

  // It has found none since it began its last call.
  ghost predicate Overflowed(s: State, es: seq<Event>, t: Tid) {
    exists i: nat :: i >= CallOf(es, t) && OverflowAt(s, es, t, i)
  }

  lemma OverflowedStays(s: State, fs: seq<Event>, e: Event, t: Tid)
    requires Overflowed(s, fs, t) && !(e.t == t && e.c.Call?)
    ensures Overflowed(s, fs + [e], t)
  {
    var es := fs + [e];
    var i: nat :| i >= CallOf(fs, t) && OverflowAt(s, fs, t, i);
    assert es[..|fs|] == fs && es[..i] == fs[..i];
    assert OverflowAt(s, es, t, i);
  }

  lemma OverflowsNow(s: State, fs: seq<Event>, e: Event, t: Tid)
    requires Run(s, fs).Some? && e.t == t && !e.c.Call? && t in Run(s, fs).value.threads && CallOf(fs, t) <= |fs|
    requires Run(s, fs).value.threads[t].AtAlloc?
    requires |Run(s, fs).value.g.pool.used| == Run(s, fs).value.g.pool.size
    ensures Overflowed(s, fs + [e], t)
  {
    var es := fs + [e];
    assert es[..|fs|] == fs && OverflowAt(s, es, t, |fs|);
  }

  lemma CalmBefore(fs: seq<Event>, e: Event, t: Tid)
    requires OwnCalm(fs + [e], t) && !(e.t == t && e.c.Call?)
    ensures OwnCalm(fs, t) && CallOf(fs + [e], t) == CallOf(fs, t) && CallOf(fs, t) <= |fs|
    ensures e.t == t ==> e.c == Fine
  {
    var es := fs + [e];
    assert es[..|fs|] == fs && es[|fs|] == e;
    LastCallAsks(fs, t);
    forall i | CallOf(fs, t) <= i < |fs| && fs[i].t == t ensures fs[i].c == Fine || fs[i].c.Call? {
      assert es[i] == fs[i];
    }
  }

  lemma {:induction false} CreatedStays(s: State, es: seq<Event>)
    requires Run(s, es).Some?
    ensures Run(s, es).value.g.created == s.g.created
  {
    if es != [] {
      var fs, e := es[..|es| - 1], es[|es| - 1];
      CreatedStays(s, fs);
      var b := Run(s, fs).value;
      var (g', pc') := Local(b.g, e.t, b.threads[e.t], e.c, WindowOpen(b)).value;
      Frames(b.g, e.t, b.threads[e.t], e.c, WindowOpen(b), g', pc');
    }
  }

  // Without failures of thread t's own, only a full pool goes wrong for a call with a text.
  lemma {:induction false} OnlyOverflow(s: State, es: seq<Event>, t: Tid)
    requires Run(s, es).Some? && s.g.created && OwnCalm(es, t)
    requires Asked(es, t).Some? ==> Asked(es, t).value != ""
    ensures TroubleOf(s, es, t) == Nothing || (TroubleOf(s, es, t) == Fails && Overflowed(s, es, t))
  {
    if es != [] {
      var fs, e := es[..|es| - 1], es[|es| - 1];
      assert es == fs + [e];
      CreatedStays(s, fs);
      if !(e.t == t && e.c.Call?) {
        CalmBefore(fs, e, t);
        OnlyOverflow(s, fs, t);
        if TroubleOf(s, fs, t) == Fails {
          OverflowedStays(s, fs, e, t);
        } else if TroubleOf(s, es, t) == Fails {
          OverflowsNow(s, fs, e, t);
        }
      }
    }
  }

  // In particular: with a created pool a call with a text none of whose own library calls fails, whatever
  // happens to the other threads, is still in progress, has returned true, has met the null session pool,
  // or has returned false after it found the pool full.
  lemma CalmCallsSucceed(s: State, es: seq<Event>, t: Tid)
    requires Quiet(s) && s.g.created && Run(s, es).Some? && t in s.threads
    requires OwnCalm(es, t)
    requires Asked(es, t).Some? && Asked(es, t).value != ""
    ensures t in Run(s, es).value.threads
    ensures
      var pc := Run(s, es).value.threads[t];
      || InCall(pc) || pc == Crashed || pc == Out(Returned(true))
      || (pc == Out(Returned(false)) && Overflowed(s, es, t))
  {
    EveryCallEndsAs(s, es, t);
    OnlyOverflow(s, es, t);
  }
}
