/** What the steps of a whole schedule add up to: the slots lost for good, what each call has put on
    the queue, and the operations performed on the producer pool. */
module ManagerHistory {
  import opened Common
  import opened PoolSpec
  import opened Producers
  import opened ProducerPools
  import opened Manager
  import opened ManagerCalls
  import opened ManagerTheorems

  // ---------------------------------------------------------------- lost slots

  // The event is a session close at 286 that throws.
  predicate ThrowingClose(s: State, e: Event) {
    e.t in s.threads && s.threads[e.t].AtClose? && e.c == Throw
  }

  // How many events of the run are such closes.
  function ThrowingCloses(s: State, es: seq<Event>): nat {
    if es == [] then 0
    else
      var fs, e := es[..|es| - 1], es[|es| - 1];
      ThrowingCloses(s, fs) + if Run(s, fs).Some? && ThrowingClose(Run(s, fs).value, e) then 1 else 0
  }

  lemma HolderStrands(g: Shared, pc: Pc, c: Choice, g': Shared, pc': Pc)
    requires Holds(pc) && HolderStep(g, pc, c) == Some((g', pc'))
    ensures g'.stranded == if pc.AtClose? && c == Throw then g.stranded + {pc.slot} else g.stranded
  {
  }

  lemma StepStrands(s: State, e: Event)
    requires Inv(s) && Step(s, e.t, e.c).Some?
    ensures |Step(s, e.t, e.c).value.g.stranded| == |s.g.stranded| + if ThrowingClose(s, e) then 1 else 0
  {
    var pc, w := s.threads[e.t], WindowOpen(s);
    var (g', pc') := Local(s.g, e.t, pc, e.c, w).value;
    assert ThreadInv(s.g, e.t, pc);
    if Locked(pc) {
      LockedFrame(s.g, pc, e.c, g', pc');
    } else if Holds(pc) {
      HolderStrands(s.g, pc, e.c, g', pc');
    } else {
      OpenFrame(s.g, e.t, pc, e.c, w, g', pc');
    }
  }

  // Every throwing close loses one slot more, and nothing else loses one.
  lemma {:induction false} LossesCounted(s: State, es: seq<Event>)
    requires Inv(s) && Run(s, es).Some?
    ensures |Run(s, es).value.g.stranded| == |s.g.stranded| + ThrowingCloses(s, es)
  {
    if es != [] {
      LossesCounted(s, es[..|es| - 1]);
      RunKeepsInv(s, es[..|es| - 1]);
      StepStrands(Run(s, es[..|es| - 1]).value, es[|es| - 1]);
    }
  }

  // Event i of the run is a throwing close.
  ghost predicate ThrowsAt(s: State, es: seq<Event>, i: nat) {
    i < |es| && Run(s, es[..i]).Some? && ThrowingClose(Run(s, es[..i]).value, es[i])
  }

  // The events before the last one are those of the shorter run.
  lemma ThrowsBefore(s: State, es: seq<Event>, i: nat)
    requires es != []
    ensures ThrowsAt(s, es, i) <==>
      if i == |es| - 1
      then Run(s, es[..i]).Some? && ThrowingClose(Run(s, es[..i]).value, es[i])
      else ThrowsAt(s, es[..|es| - 1], i)
  {
    var fs := es[..|es| - 1];
    if i < |fs| { assert fs[..i] == es[..i]; }
  }

  lemma {:induction false} NoThrowingClose(s: State, es: seq<Event>)
    ensures ThrowingCloses(s, es) == 0 <==> forall i :: !ThrowsAt(s, es, i)
  {
    if es != [] {
      var n := |es| - 1;
      NoThrowingClose(s, es[..n]);
      ThrowsBefore(s, es, n);
      if i :| ThrowsAt(s, es, i) {
        ThrowsBefore(s, es, i);
      }
      if i :| ThrowsAt(s, es[..n], i) {
        ThrowsBefore(s, es, i);
      }
    }
  }

  // From a quiet state in which no slot is lost: slots are lost if and only if some session close
  // of the run has thrown; and once all threads are outside again, the producers that have not come
  // back to the pool are exactly these, one for each such close.
  lemma LostIffCloseThrew(s: State, es: seq<Event>)
    requires Quiet(s) && s.g.stranded == {} && Run(s, es).Some?
    ensures
      var s' := Run(s, es).value;
      && (s'.g.stranded == {} <==> forall i :: !ThrowsAt(s, es, i))
      && (Quiet(s') ==>
            && s'.g.pool.used == s'.g.stranded && |s'.g.pool.used| == ThrowingCloses(s, es)
            && (s'.g.pool.used == {} <==> forall i :: !ThrowsAt(s, es, i)))
  {
    LossesCounted(s, es);
    NoThrowingClose(s, es);
    if Quiet(Run(s, es).value) { QuietFacts(Run(s, es).value); }
  }

  // The run loses a slot that was not lost before.
  ghost predicate LosesSlot(s: State, es: seq<Event>) {
    Run(s, es).Some? && Run(s, es).value.g.stranded != s.g.stranded
  }

  // One call whose session close throws loses the slot it took.
  lemma CloseLosesSlot(s: State, t: Tid, x: string)
    requires Quiet(s) && s.g.created && t in s.threads && |s.g.stranded| < s.g.pool.size
    ensures exists es :: LosesSlot(s, es)
  {
    QuietFacts(s);
    OverflowIffFull(s.g.pool);
    var k := CallScript(ConnectScript(false, false, false, false), Fine, NO_FAILURE, true);
    CallIsRun(s, t, x, k);
    CallAccounting(s.g, t, x, k);
    var (h, end) := Called(s.g, t, x, k);
    var es :| Run(s, es) == Some(State(h, s.threads[t := end]));
    assert LosesSlot(s, es);
  }

  lemma {:induction false} NothingHappensUncreated(s: State, es: seq<Event>)
    requires Quiet(s) && !s.g.created && Run(s, es).Some?
    ensures Run(s, es).value.g == s.g && forall t :: t in Run(s, es).value.threads ==> Run(s, es).value.threads[t].Out?
  {
    if es != [] {
      NothingHappensUncreated(s, es[..|es| - 1]);
    }
  }

  lemma NothingToLose(s: State, es: seq<Event>)
    requires Quiet(s) && Run(s, es).Some?
    requires !s.g.created || s.threads == map[] || |s.g.stranded| >= s.g.pool.size
    ensures Run(s, es).value.g.stranded == s.g.stranded
  {
    if !s.g.created {
      NothingHappensUncreated(s, es);
    } else if s.threads == map[] {
      NobodyMoves(s, es);
    } else {
      RunKeepsInv(s, es);
      StrandedForever(s, es);
      SizeIsFixed(s, es);
      SlotAccounting(Run(s, es).value);
      SubsetSmaller(s.g.stranded, Run(s, es).value.g.stranded);
    }
  }

  // Some schedule loses a slot if and only if there are threads and a pool with a slot left to lose.
  lemma LossReachableIff(s: State)
    requires Quiet(s)
    ensures (exists es :: LosesSlot(s, es)) <==> s.g.created && s.threads != map[] && |s.g.stranded| < s.g.pool.size
  {
    if s.g.created && s.threads != map[] && |s.g.stranded| < s.g.pool.size {
      var t :| t in s.threads;
      CloseLosesSlot(s, t, "");
    } else {
      forall es ensures !LosesSlot(s, es) {
        if Run(s, es).Some? { NothingToLose(s, es); }
      }
    }
  }

  // ---------------------------------------------------------------- what each call sends

  // The text of the call that thread t is in, or was in last.
  function Asked(es: seq<Event>, t: Tid): Option<string> {
    if es == [] then None
    else
      var e := es[|es| - 1];
      if e.t == t && e.c.Call? then Some(e.c.text) else Asked(es[..|es| - 1], t)
  }

  function Appended(log: seq<Delivery>, log': seq<Delivery>): seq<Delivery> {
    if |log| <= |log'| then log'[|log|..] else []
  }

  // What steps of thread t have put on the queue since it began that call.
  function Own(s: State, es: seq<Event>, t: Tid): seq<Delivery> {
    if es == [] then []
    else
      var fs, e := es[..|es| - 1], es[|es| - 1];
      var own := Own(s, fs, t);
      if e.t != t || Run(s, fs).None? || Run(s, es).None? then own
      else if e.c.Call? then []
      else own + Appended(Run(s, fs).value.g.log, Run(s, es).value.g.log)
  }

  predicate HasText(pc: Pc) {
    pc.AtFlag? || pc.AtLock? || Locked(pc) || pc.AtTake? || pc.AtAlloc? || pc.AtDest? || pc.AtSend?
  }

  // Where a call with text x can stand that has put `own` on the queue; d is its delivery.
  ghost predicate CallOk(pc: Pc, x: string, own: seq<Delivery>, d: Delivery) {
    if HasText(pc) then pc.text == x && own == []
    else if pc.AtClose? || pc.AtFree? then own == [d] || (own == [] && !pc.sent)
    else if pc.Out? then own == [d] || (own == [] && pc.result != Returned(true))
    else own == []
  }

  lemma HolderDelivers(g: Shared, t: Tid, pc: Pc, c: Choice, g': Shared, pc': Pc, x: string, own: seq<Delivery>)
    requires StoreShared(g) && StoreThread(g, t, pc) && Holds(pc) && HolderStep(g, pc, c) == Some((g', pc'))
    requires CallOk(pc, x, own, Delivery(g.target, x))
    ensures CallOk(pc', x, own + Appended(g.log, g'.log), Delivery(g.target, x))
  {
    assert own + [] == own;
  }

  lemma LockedDelivers(g: Shared, pc: Pc, c: Choice, g': Shared, pc': Pc, x: string, d: Delivery)
    requires Locked(pc) && LockedStep(g, pc, c) == Some((g', pc')) && CallOk(pc, x, [], d)
    ensures CallOk(pc', x, [], d)
  {
  }

  lemma OpenDelivers(g: Shared, t: Tid, pc: Pc, c: Choice, w: bool, g': Shared, pc': Pc, x: string, d: Delivery)
    requires !Locked(pc) && !Holds(pc) && OpenStep(g, t, pc, c, w) == Some((g', pc'))
    requires if pc.Out? then c == Call(x) else CallOk(pc, x, [], d)
    ensures CallOk(pc', x, [], d)
  {
  }

  lemma CallsComeFromOut(s: State, e: Event)
    requires Step(s, e.t, e.c).Some?
    ensures e.c.Call? <==> s.threads[e.t].Out?
  {
  }

  lemma StepDelivers(s: State, e: Event, x: string, own: seq<Delivery>)
    requires Inv(s) && Step(s, e.t, e.c).Some?
    requires if e.c.Call? then x == e.c.text && own == [] else CallOk(s.threads[e.t], x, own, Delivery(s.g.target, x))
    ensures
      var s', d := Step(s, e.t, e.c).value, Delivery(s.g.target, x);
      && s'.g.target == s.g.target
      && CallOk(s'.threads[e.t], x, if e.c.Call? then [] else own + Appended(s.g.log, s'.g.log), d)
  {
    var pc, w, d := s.threads[e.t], WindowOpen(s), Delivery(s.g.target, x);
    var (g', pc') := Local(s.g, e.t, pc, e.c, w).value;
    assert ThreadInv(s.g, e.t, pc);
    CallsComeFromOut(s, e);
    Frames(s.g, e.t, pc, e.c, w, g', pc');
    if Locked(pc) {
      LockedFrame(s.g, pc, e.c, g', pc');
      LockedDelivers(s.g, pc, e.c, g', pc', x, d);
    } else if Holds(pc) {
      HolderDelivers(s.g, e.t, pc, e.c, g', pc', x, own);
    } else {
      OpenFrame(s.g, e.t, pc, e.c, w, g', pc');
      OpenDelivers(s.g, e.t, pc, e.c, w, g', pc', x, d);
    }
  }

  // Over every interleaving and every failure: a call that has returned true has put its text on the
  // queue the pool was created for exactly once, and a call that has ended in any other way, or is
  // still in progress, has put at most that one message there.  (Every moment of a schedule is the
  // end of some schedule, so this speaks of every call.)
  lemma {:induction false} EveryCallDelivers(s: State, es: seq<Event>, t: Tid)
    requires Quiet(s) && Run(s, es).Some? && t in s.threads
    ensures
      var s', own := Run(s, es).value, Own(s, es, t);
      && t in s'.threads && s'.g.target == s.g.target
      && match Asked(es, t)
         case None => s'.threads[t] == s.threads[t] && own == []
         case Some(x) => CallOk(s'.threads[t], x, own, Delivery(s.g.target, x))
  {
    if es != [] {
      var fs, e := es[..|es| - 1], es[|es| - 1];
      EveryCallDelivers(s, fs, t);
      RunKeepsInv(s, fs);
      var b := Run(s, fs).value;
      CallsComeFromOut(b, e);
      if e.t == t {
        StepDelivers(b, e, if e.c.Call? then e.c.text else Asked(fs, t).value, if e.c.Call? then [] else Own(s, fs, t));
      } else {
        var (g', pc') := Local(b.g, e.t, b.threads[e.t], e.c, WindowOpen(b)).value;
        Frames(b.g, e.t, b.threads[e.t], e.c, WindowOpen(b), g', pc');
      }
    }
  }

  // ---------------------------------------------------------------- messages and calls

  // The event with which thread t began the call it is in, or was in last.
  function LastCall(es: seq<Event>, t: Tid): Option<nat> {
    if es == [] then None
    else
      var e := es[|es| - 1];
      if e.t == t && e.c.Call? then Some(|es| - 1) else LastCall(es[..|es| - 1], t)
  }

  lemma {:induction false} LastCallAsks(es: seq<Event>, t: Tid)
    ensures match LastCall(es, t)
            case None => Asked(es, t).None?
            case Some(i) => i < |es| && Asked(es, t).Some? && es[i] == Event(t, Call(Asked(es, t).value))
  {
    if es != [] { LastCallAsks(es[..|es| - 1], t); }
  }

  function CallOf(es: seq<Event>, t: Tid): nat {
    if LastCall(es, t).Some? then LastCall(es, t).value else 0
  }

  // For each message that has been added to the queue, the call it belongs to: the one its sender was in.
  function Senders(s: State, es: seq<Event>): seq<nat> {
    if es == [] then []
    else
      var fs, e := es[..|es| - 1], es[|es| - 1];
      var before := Senders(s, fs);
      if Run(s, fs).None? || Run(s, es).None? || Run(s, es).value.g.log == Run(s, fs).value.g.log then before
      else before + [CallOf(fs, e.t)]
  }

  // The calls that have returned true.
  function Successes(s: State, es: seq<Event>): seq<nat> {
    if es == [] then []
    else
      var fs, e := es[..|es| - 1], es[|es| - 1];
      var before := Successes(s, fs);
      if Run(s, es).Some? && e.t in Run(s, es).value.threads && Run(s, es).value.threads[e.t] == Out(Returned(true))
      then before + [CallOf(fs, e.t)] else before
  }

  ghost predicate Distinct(a: seq<nat>) {
    forall i, j :: 0 <= i < j < |a| ==> a[i] != a[j]
  }

  ghost predicate TextOfCall(es: seq<Event>, i: nat, target: Destination, d: Delivery) {
    i < |es| && es[i].c.Call? && d == Delivery(target, es[i].c.text)
  }

  // Message j of those added is the text of call a[j].
  ghost predicate Attributed(s: State, es: seq<Event>, log: seq<Delivery>, a: seq<nat>) {
    && |log| == |s.g.log| + |a| && s.g.log <= log
    && forall j :: 0 <= j < |a| ==> TextOfCall(es, a[j], s.g.target, log[|s.g.log| + j])
  }

  // A step adds the message in hand of a thread at the send, unless the send throws before it has
  // reached the broker, and nothing in any other case.
  lemma StepLogs(s: State, e: Event)
    requires Inv(s) && Step(s, e.t, e.c).Some?
    ensures
      var log, pc := Step(s, e.t, e.c).value.g.log, s.threads[e.t];
      && !(pc.AtSend? && e.c.Call?)
      && log == s.g.log + if pc.AtSend? && e.c != Throw then [Delivery(s.g.target, pc.text)] else []
  {
    var pc, w := s.threads[e.t], WindowOpen(s);
    var (g', pc') := Local(s.g, e.t, pc, e.c, w).value;
    assert ThreadInv(s.g, e.t, pc);
    if Locked(pc) {
      LockedFrame(s.g, pc, e.c, g', pc');
    } else if !Holds(pc) {
      OpenFrame(s.g, e.t, pc, e.c, w, g', pc');
    }
  }

  // A thread has sent in its last call exactly if that call is among the senders.
  ghost predicate SendersOwn(s: State, es: seq<Event>, t: Tid) {
    LastCall(es, t).Some? ==> (LastCall(es, t).value in Senders(s, es) <==> Own(s, es, t) != [])
  }

  lemma AttributedMore(s: State, es: seq<Event>, e: Event, log: seq<Delivery>, a: seq<nat>)
    requires Attributed(s, es, log, a)
    ensures Attributed(s, es + [e], log, a)
  {
    forall j | 0 <= j < |a| ensures TextOfCall(es + [e], a[j], s.g.target, log[|s.g.log| + j]) {
      assert TextOfCall(es, a[j], s.g.target, log[|s.g.log| + j]);
    }
  }

  lemma AttributedSend(s: State, es: seq<Event>, e: Event, log: seq<Delivery>, a: seq<nat>, i: nat, d: Delivery)
    requires Attributed(s, es, log, a) && Distinct(a) && i !in a && TextOfCall(es, i, s.g.target, d)
    ensures Attributed(s, es + [e], log + [d], a + [i]) && Distinct(a + [i])
  {
    var log', a' := log + [d], a + [i];
    forall j | 0 <= j < |a'| ensures TextOfCall(es + [e], a'[j], s.g.target, log'[|s.g.log| + j]) {
      if j < |a| { assert TextOfCall(es, a[j], s.g.target, log[|s.g.log| + j]); }
    }
  }

  // The one step of the induction: e follows fs.
  lemma SendersStep(s: State, fs: seq<Event>, e: Event)
    requires Quiet(s) && Run(s, fs + [e]).Some? && Run(s, fs).Some? && e.t in s.threads
    requires Attributed(s, fs, Run(s, fs).value.g.log, Senders(s, fs)) && Distinct(Senders(s, fs))
    requires SendersOwn(s, fs, e.t)
    ensures
      var es := fs + [e];
      Attributed(s, es, Run(s, es).value.g.log, Senders(s, es)) && Distinct(Senders(s, es))
    ensures Run(s, fs + [e]).value.g.log == Run(s, fs).value.g.log || LastCall(fs, e.t).Some?
  {
    var b, es := Run(s, fs).value, fs + [e];
    assert es[..|fs|] == fs && es[|fs|] == e;
    RunKeepsInv(s, fs);
    EveryCallDelivers(s, fs, e.t);
    LastCallAsks(fs, e.t);
    StepLogs(b, e);
    if Run(s, es).value.g.log == b.g.log {
      AttributedMore(s, fs, e, b.g.log, Senders(s, fs));
    } else {
      var d := Delivery(s.g.target, b.threads[e.t].text);
      AttributedSend(s, fs, e, b.g.log, Senders(s, fs), LastCall(fs, e.t).value, d);
    }
  }

  function Calls(es: seq<Event>): set<nat> {
    set i: nat | i < |es| && es[i].c.Call?
  }

  lemma SendersBefore(s: State, es: seq<Event>)
    requires Run(s, es).Some? && Attributed(s, es, Run(s, es).value.g.log, Senders(s, es))
    ensures forall i :: i in Senders(s, es) ==> i < |es| && i in Calls(es)
  {
    var a, log := Senders(s, es), Run(s, es).value.g.log;
    forall i | i in a ensures i < |es| && i in Calls(es) {
      var n :| 0 <= n < |a| && a[n] == i;
      assert TextOfCall(es, a[n], s.g.target, log[|s.g.log| + n]);
    }
  }

  // And what it does to the thread itself and to another one.
  lemma OwnStep(s: State, fs: seq<Event>, e: Event, t: Tid)
    requires Quiet(s) && Run(s, fs + [e]).Some? && Run(s, fs).Some? && e.t in s.threads && t in s.threads
    requires Attributed(s, fs, Run(s, fs).value.g.log, Senders(s, fs)) && SendersOwn(s, fs, t)
    requires Run(s, fs + [e]).value.g.log == Run(s, fs).value.g.log || LastCall(fs, e.t).Some?
    ensures SendersOwn(s, fs + [e], t)
  {
    var b, es := Run(s, fs).value, fs + [e];
    assert es[..|fs|] == fs && es[|fs|] == e;
    RunKeepsInv(s, fs);
    StepLogs(b, e);
    LastCallAsks(fs, t);
    LastCallAsks(fs, e.t);
    SendersBefore(s, fs);
    assert Appended(b.g.log, b.g.log) == [];
  }

  lemma {:induction false} SendersAreExact(s: State, es: seq<Event>)
    requires Quiet(s) && Run(s, es).Some?
    ensures Attributed(s, es, Run(s, es).value.g.log, Senders(s, es)) && Distinct(Senders(s, es))
    ensures forall t :: t in s.threads ==> SendersOwn(s, es, t)
    ensures Run(s, es).value.threads.Keys == s.threads.Keys
  {
    if es != [] {
      var fs, e := es[..|es| - 1], es[|es| - 1];
      assert fs + [e] == es;
      SendersAreExact(s, fs);
      SendersStep(s, fs, e);
      forall t | t in s.threads ensures SendersOwn(s, es, t) {
        OwnStep(s, fs, e, t);
      }
    }
  }

  ghost predicate SuccessReturned(s: State, es: seq<Event>, t: Tid) {
    LastCall(es, t).Some? && LastCall(es, t).value in Successes(s, es) ==>
      Run(s, es).Some? && t in Run(s, es).value.threads && Run(s, es).value.threads[t] == Out(Returned(true))
  }

  // A call is counted as a success once, when it returns, and has then sent.
  ghost predicate SuccessesOk(s: State, es: seq<Event>) {
    && Distinct(Successes(s, es))
    && (forall i :: i in Successes(s, es) ==> i in Senders(s, es))
    && forall t :: t in s.threads ==> SuccessReturned(s, es, t)
  }

  // A step adds no success, or that of the call which it ends.
  ghost predicate SuccessMoves(s: State, fs: seq<Event>, e: Event)
    requires Run(s, fs + [e]).Some? && e.t in Run(s, fs + [e]).value.threads
  {
    || Successes(s, fs + [e]) == Successes(s, fs)
    || (&& !e.c.Call? && LastCall(fs, e.t).Some? && Run(s, fs + [e]).value.threads[e.t] == Out(Returned(true))
        && Successes(s, fs + [e]) == Successes(s, fs) + [LastCall(fs, e.t).value])
  }

  lemma SuccessStep(s: State, fs: seq<Event>, e: Event)
    requires Quiet(s) && Run(s, fs).Some? && Run(s, fs + [e]).Some? && e.t in s.threads
    ensures e.t in Run(s, fs + [e]).value.threads && SuccessMoves(s, fs, e)
    ensures Successes(s, fs + [e]) != Successes(s, fs) ==> !Run(s, fs).value.threads[e.t].Out?
  {
    var b, es := Run(s, fs).value, fs + [e];
    assert es[..|fs|] == fs && es[|fs|] == e;
    EveryCallDelivers(s, es, e.t);
    EveryCallDelivers(s, fs, e.t);
    LastCallAsks(fs, e.t);
    CallsComeFromOut(b, e);
  }

  lemma SuccessHasSent(s: State, fs: seq<Event>, e: Event)
    requires Quiet(s) && Run(s, fs).Some? && Run(s, fs + [e]).Some? && e.t in Run(s, fs + [e]).value.threads
    requires e.t in s.threads && SuccessesOk(s, fs) && SuccessMoves(s, fs, e)
    requires Successes(s, fs + [e]) != Successes(s, fs) ==> !Run(s, fs).value.threads[e.t].Out?
    ensures Distinct(Successes(s, fs + [e]))
    ensures forall i :: i in Successes(s, fs + [e]) ==> i in Senders(s, fs + [e])
  {
    var es := fs + [e];
    assert es[..|fs|] == fs && es[|fs|] == e;
    SendersAreExact(s, es);
    EveryCallDelivers(s, es, e.t);
    LastCallAsks(es, e.t);
    assert SuccessReturned(s, fs, e.t) && SendersOwn(s, es, e.t);
  }

  lemma SuccessStays(s: State, fs: seq<Event>, e: Event, t: Tid)
    requires Quiet(s) && Run(s, fs).Some? && Run(s, fs + [e]).Some? && e.t in s.threads && t in s.threads
    requires SuccessesOk(s, fs) && (forall i :: i in Senders(s, fs) ==> i < |fs|)
    requires SuccessMoves(s, fs, e)
    ensures SuccessReturned(s, fs + [e], t)
  {
    var b, es := Run(s, fs).value, fs + [e];
    assert es[..|fs|] == fs && es[|fs|] == e;
    LastCallAsks(fs, t);
    LastCallAsks(fs, e.t);
    CallsComeFromOut(b, e);
    assert SuccessReturned(s, fs, t);
  }

  lemma {:induction false} SuccessesHaveSent(s: State, es: seq<Event>)
    requires Quiet(s) && Run(s, es).Some?
    ensures SuccessesOk(s, es)
  {
    if es != [] {
      var fs, e := es[..|es| - 1], es[|es| - 1];
      assert fs + [e] == es;
      SuccessesHaveSent(s, fs);
      SendersAreExact(s, fs);
      SuccessStep(s, fs, e);
      SuccessHasSent(s, fs, e);
      SendersBefore(s, fs);
      forall t | t in s.threads ensures SuccessReturned(s, es, t) {
        SuccessStays(s, fs, e, t);
      }
    }
  }

  lemma {:induction false} DistinctFits(a: seq<nat>, b: set<nat>)
    requires Distinct(a) && forall i :: i in a ==> i in b
    ensures |a| <= |b|
  {
    if a != [] {
      var n := |a| - 1;
      assert a[n] in a && forall i :: i in a[..n] ==> i in a;
      assert a[n] !in a[..n];
      DistinctFits(a[..n], b - {a[n]});
    }
  }

  function Elements(a: seq<nat>): set<nat> {
    set i | i in a
  }

  lemma {:induction false} ElementsFit(a: seq<nat>)
    ensures |Elements(a)| <= |a|
  {
    if a == [] {
      assert Elements(a) == {};
    } else {
      var n := |a| - 1;
      ElementsFit(a[..n]);
      assert a == a[..n] + [a[n]];
      assert Elements(a) == Elements(a[..n]) + {a[n]};
      assert |Elements(a[..n]) + {a[n]}| <= |Elements(a[..n])| + 1;
    }
  }

  lemma NoMoreThan(w: seq<nat>, a: seq<nat>)
    requires Distinct(w) && forall i :: i in w ==> i in a
    ensures |w| <= |a|
  {
    DistinctFits(w, Elements(a));
    ElementsFit(a);
  }

  // Over every interleaving and every failure: each message added to the queue is the text of one call,
  // no call has two, every call that returned true has one; so the messages added number at least the
  // true returns and at most the calls.
  lemma MessagesMatchCalls(s: State, es: seq<Event>)
    requires Quiet(s) && Run(s, es).Some?
    ensures
      var log, a, w := Run(s, es).value.g.log, Senders(s, es), Successes(s, es);
      && Attributed(s, es, log, a) && Distinct(a) && Distinct(w) && (forall i :: i in w ==> i in a)
      && |w| <= |log| - |s.g.log| <= |Calls(es)|
  {
    SendersAreExact(s, es);
    SuccessesHaveSent(s, es);
    SendersBefore(s, es);
    DistinctFits(Senders(s, es), Calls(es));
    NoMoreThan(Successes(s, es), Senders(s, es));
  }

  // ---------------------------------------------------------------- the pool under the manager

  // What a step asks of the producer pool, and what it gets: read off the thread's next line.
  function PoolOp(s: State, e: Event): Option<(Op, Result)> {
    if Step(s, e.t, e.c).None? then None
    else
      match s.threads[e.t]
      case AtAlloc(_) =>
        var pc' := Step(s, e.t, e.c).value.threads[e.t];
        Some((Allocate, if pc'.AtDest? then Slot(pc'.slot) else Null))
      case AtFree(k, _) => Some((Free(k), Unit))
      case _ => None
  }

  // The calls of CreatePoolItem and FreePoolItem in the course of a schedule, and their results.
  function PoolTrace(s: State, es: seq<Event>): (r: (seq<Op>, seq<Result>))
    ensures |r.0| == |r.1|
  {
    if es == [] then ([], [])
    else
      var fs, e := es[..|es| - 1], es[|es| - 1];
      var (ops, results) := PoolTrace(s, fs);
      if Run(s, fs).None? then (ops, results)
      else
        match PoolOp(Run(s, fs).value, e)
        case None => (ops, results)
        case Some((op, r)) => (ops + [op], results + [r])
  }

  lemma StepPools(s: State, e: Event)
    requires Step(s, e.t, e.c).Some? && Ok(s.g.pool)
    ensures
      var p := Step(s, e.t, e.c).value.g.pool;
      match PoolOp(s, e)
      case None => p == s.g.pool
      case Some((op, r)) => Apply(s.g.pool, op) == (p, r)
  {
    var pc, w := s.threads[e.t], WindowOpen(s);
    var (g', pc') := Local(s.g, e.t, pc, e.c, w).value;
    if Locked(pc) {
      LockedFrame(s.g, pc, e.c, g', pc');
    }
  }

  lemma FreesOwnSlot(s: State, e: Event)
    requires Inv(s) && PoolOp(s, e).Some? && PoolOp(s, e).value.0.Free?
    ensures PoolOp(s, e).value.0.slot < s.g.pool.size
  {
    assert ThreadInv(s.g, e.t, s.threads[e.t]);
  }

  // The pool part of every schedule is the execution of these calls one after the other: the
  // allocations give exactly the slots the threads go on with, and the pool is left in the same state.
  lemma {:induction false} PoolIsExec(s: State, es: seq<Event>)
    requires Inv(s) && Run(s, es).Some?
    ensures Exec(s.g.pool, PoolTrace(s, es).0) == (Run(s, es).value.g.pool, PoolTrace(s, es).1)
    ensures forall op :: op in PoolTrace(s, es).0 && op.Free? ==> op.slot < s.g.pool.size
  {
    if es != [] {
      var fs, e := es[..|es| - 1], es[|es| - 1];
      PoolIsExec(s, fs);
      RunKeepsInv(s, fs);
      SizeIsFixed(s, fs);
      var b := Run(s, fs).value;
      StepPools(b, e);
      if PoolOp(b, e).Some? {
        ExecSnoc(s.g.pool, PoolTrace(s, fs).0, PoolOp(b, e).value.0);
        if PoolOp(b, e).value.0.Free? { FreesOwnSlot(b, e); }
      }
    }
  }

  // So a bitmap pool that is taken through the same calls gives every thread the producer the
  // schedule gives it, ends with the same slots in use, and counts the holders and the lost slots.
  method Replay(pool: ProducerPool, s: State, es: seq<Event>) returns (results: seq<Result>)
    requires pool.Valid() && pool.View() == s.g.pool && Inv(s) && Run(s, es).Some?
    modifies pool`usedCount, pool`cursor, pool.bits, pool.items`index
    ensures pool.Valid() && pool.View() == Run(s, es).value.g.pool && results == PoolTrace(s, es).1
    ensures pool.usedCount == |Holders(Run(s, es).value.threads)| + |Run(s, es).value.g.stranded|
  {
    PoolIsExec(s, es);
    RunKeepsInv(s, es);
    SlotAccounting(Run(s, es).value);
    results := pool.DoAll(PoolTrace(s, es).0);
  }
}
