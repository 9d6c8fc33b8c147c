/** CDSAMQConsumer::run as the structured loop it is, and the proof that it follows the steps of
    the consumer model, so that everything proved about runs holds of it. */
module ConsumerLoop {
  import opened Common
  import opened Consumers
  import opened ConsumerTheorems
  import opened ConsumerOrder
  import opened ConsumerScript

  datatype Exit = ReturnedNormally | LeftByException | StillRunning

  // stop() has not been called in any of the iterations.
  predicate NoStop(its: seq<Iteration>) {
    forall it :: it in its ==> !it.stop && !it.stopLate
  }

  // The receives begun after stop(): those of iterations in which the first stop() comes late.
  function LateIn(its: seq<Iteration>): nat {
    if its == [] then 0
    else
      var init, last := its[..|its| - 1], its[|its| - 1];
      LateIn(init) + if NoStop(init) && !last.stop && last.stopLate then 1 else 0
  }

  lemma OneMore(its: seq<Iteration>, k: nat)
    requires k < |its|
    ensures NoStop(its[..k + 1]) <==> NoStop(its[..k]) && !its[k].stop && !its[k].stopLate
    ensures LateIn(its[..k + 1]) == LateIn(its[..k])
              + if NoStop(its[..k]) && !its[k].stop && its[k].stopLate then 1 else 0
  {
    assert its[..k + 1] == its[..k] + [its[k]] && its[..k + 1][..k] == its[..k];
  }

  lemma LeftSoFar(its: seq<Iteration>, k: nat, clientAck: bool, c: Course, clean: bool)
    requires k <= |its| && (clean ==> Rounds(its[..k], clientAck, c).left)
    ensures clean ==> Rounds(its, clientAck, c) == Rounds(its[..k], clientAck, c)
  {
    if clean { LeftIsLeft(its, k, clientAck, c); }
  }

  // A session with one message or none can be put back in one order only.
  ghost predicate PutsBackOne(o: Choice, m: Msg) {
    PutBack(o, [m]) == [m] && PutBack(o, []) == []
  }

  lemma PutBackOne(o: Choice, m: Msg)
    ensures PutsBackOne(o, m)
  {
    if o.Recovered? && multiset(o.order) == multiset([m]) { SmallPermutation(o.order, [m]); }
    if o.Recovered? && multiset(o.order) == multiset([]) {
      assert |o.order| == |multiset(o.order)| == 0;
    }
  }

  // How run() ends, if its loop gets as far as c.
  function ExitOf(takes: bool, setUp: bool, c: Course, closeThrows: bool): Exit {
    if !takes then LeftByException
    else if setUp && !c.left then StillRunning
    else if closeThrows then LeftByException
    else ReturnedNormally
  }

  class Task {
    const clientAck: bool
    var timeout: int
    var g: Shared           // the broker
    var unacked: seq<Msg>   // the session
    var took: bool
    var closes: nat
    var late: nat
    ghost var at: Pc
    ghost var trace: seq<Event>
    ghost const start: Sys

    constructor (clientAck: bool, timeout: int)
      ensures Follows() && at == Start && !took && Initial(start)
      ensures this.clientAck == clientAck && this.timeout == timeout
    {
      this.clientAck, this.timeout := clientAck, timeout;
      g := Shared(clientAck, true, [], [], [], map[]);
      unacked, took, closes, late := [], false, 0, 0;
      at, trace := Start, [];
      start := Sys(Shared(clientAck, true, [], [], [], map[]), [Consumer(Start, [], false, 0, 0)]);
    }

    ghost function Now(): Sys
      reads this
    {
      Sys(g, [Consumer(at, unacked, took, closes, late)])
    }

    // The queue and the session.
    ghost function Snapshot(): Queue
      reads this
    {
      Queue(g.pending, g.acked, unacked, g.arrived)
    }

    // The execution so far is a run of the model that has led to the current state.
    ghost predicate Follows()
      reads this
    {
      && |start.cs| == 1 && start.g.clientAck == clientAck && g.clientAck == clientAck
      && NoRestart(trace) && Run(start, trace) == Some(Now())
    }

    // Records that the statements just executed are action o of the consumer, leading to pc ...
    ghost method Tick(o: Choice, pc: Pc)
      requires |start.cs| == 1 && start.g.clientAck == clientAck && g.clientAck == clientAck
      requires NoRestart(trace) && Run(start, trace).Some? && |Run(start, trace).value.cs| == 1
      requires Act(Run(start, trace).value.g, Run(start, trace).value.cs[0], o)
            == Some((g, Consumer(pc, unacked, took, closes, late)))
      modifies this`at, this`trace
      ensures Follows() && at == pc
    {
      ghost var was := Run(start, trace).value;
      assert was.cs[0 := Consumer(pc, unacked, took, closes, late)] == [Consumer(pc, unacked, took, closes, late)];
      assert (trace + [Turn(0, o)])[..|trace|] == trace;
      trace := trace + [Turn(0, o)];
      at := pc;
    }

    // ... or an event of the rest of the world.
    ghost method World(e: Event)
      requires |start.cs| == 1 && start.g.clientAck == clientAck && g.clientAck == clientAck
      requires NoRestart(trace) && !e.Restart?
      requires Run(start, trace).Some? && Step(Run(start, trace).value, e) == Some(Now())
      modifies this`trace
      ensures Follows()
    {
      assert (trace + [e])[..|trace|] == trace;
      trace := trace + [e];
    }

    // message->acknowledge(): what happened (o) is not a throw exactly if it returns normally.
    method AcknowledgeAll(o: Choice, ghost next: Pc) returns (ok: bool)
      requires Follows()
      requires (at.AtText? && !at.m.text && next == AtProcess(at.m)) ||
               (at.AtAck? && at.v == QueueRemove && clientAck && next == LoopHead)
      modifies this`g, this`unacked, this`at, this`trace
      ensures Follows() && g.running == old(g.running)
      ensures ok <==> !AckFails(o)
      ensures at == if ok then next else Closing
      ensures g == if clientAck && o != Throw then old(g).(acked := old(g.acked) + old(unacked)) else old(g)
      ensures unacked == if clientAck && o != Throw then [] else old(unacked)
    {
      if o == Throw {
        Tick(Throw, Closing);
        return false;
      }
      if clientAck {
        g := g.(acked := g.acked + unacked);
        unacked := [];
      }
      if o == ThrowApplied {
        Tick(ThrowApplied, Closing);
        return false;
      }
      Tick(Fine, next);
      ok := true;
    }

    // session->recover(), for a provider that puts the messages back in the given order if it can.
    method RecoverSession(o: Choice) returns (ok: bool)
      requires Follows() && at.AtAck? && at.v == QueueRetry && clientAck
      modifies this`g, this`unacked, this`at, this`trace
      ensures Follows() && g.running == old(g.running) && at == if ok then LoopHead else Closing
      ensures ok <==> !RecoverFails(o)
      ensures g == if o == Throw then old(g) else old(g).(pending := PutBack(o, old(unacked)) + old(g.pending))
      ensures unacked == if o == Throw then old(unacked) else []
    {
      if o == Throw {
        Tick(Throw, Closing);
        return false;
      }
      var order := PutBack(o, unacked);
      var throws := o.Recovered? && o.throws;
      g := g.(pending := order + g.pending);
      unacked := [];
      Tick(Recovered(order, throws), if throws then Closing else LoopHead);
      ok := !throws;
    }

    // consumer->receive(): the next message, or none.
    method ReceiveNext(o: ReceiveOutcome) returns (ok: bool, message: Option<Msg>)
      requires Follows() && at.AtReceive?
      modifies this`g, this`unacked, this`late, this`at, this`trace
      ensures Follows() && g.running == old(g.running)
      ensures late == old(late) + if old(g.running) then 0 else 1
      ensures at == if !ok then Closing else if message.None? then LoopHead else AtText(message.value)
      ensures ok <==> o != ReceiveThrows
      ensures message == if o == Gets && old(g.pending) != [] then Some(old(g.pending)[0]) else None
      ensures message.None? ==> g == old(g) && unacked == old(unacked)
      ensures message.Some? ==>
        && g.pending == old(g.pending)[1..] && g.arrived == old(g.arrived)
        && g.acked == (if clientAck then old(g.acked) else old(g.acked) + [message.value])
        && unacked == (if clientAck then old(unacked) + [message.value] else old(unacked))
    {
      if !g.running {
        late := late + 1;
      }
      if o == ReceiveThrows {
        Tick(Throw, Closing);
        return false, None;
      }
      if o == TimesOut || g.pending == [] {
        Tick(Timeout, LoopHead);
        return true, None;
      }
      var m := g.pending[0];
      g := g.(pending := g.pending[1..], latest := g.latest[m := Delivered]);
      if clientAck {
        unacked := unacked + [m];
      } else {
        g := g.(acked := g.acked + [m]);
      }
      Tick(Fine, AtText(m));
      return true, Some(m);
    }

    // Lines 211-219, once process() has returned ar.
    method Answer(m: Msg, ar: Verdict, answer: Choice) returns (ok: bool)
      requires Follows() && at == AtProcess(m)
      modifies this`g, this`unacked, this`at, this`trace
      ensures Follows() && g.running == old(g.running) && at == if ok then LoopHead else Closing
      ensures m in g.latest && g.latest[m] == Judged(ar) && g.arrived == old(g.arrived)
      ensures ok <==> !clientAck || (if ar == QueueRemove then !AckFails(answer) else !RecoverFails(answer))
      ensures g.acked == if clientAck && ar == QueueRemove && answer != Throw then old(g.acked) + old(unacked)
                         else old(g.acked)
      ensures g.pending == if clientAck && ar == QueueRetry && answer != Throw
                           then PutBack(answer, old(unacked)) + old(g.pending) else old(g.pending)
      ensures unacked == if clientAck && answer != Throw then [] else old(unacked)
    {
      g := g.(latest := g.latest[m := Judged(ar)]);
      Tick(Say(ar), AtAck(m, ar));
      if clientAck {
        if ar == QueueRemove {
          ok := AcknowledgeAll(answer, LoopHead);
        } else {
          ok := RecoverSession(answer);
        }
      } else {
        Tick(Fine, LoopHead);
        ok := true;
      }
    }

    // Lines 197-219, with message m in hand; ok unless the loop is left.
    method HandleMessage(m: Msg, it: Iteration) returns (ok: bool)
      requires Follows() && at == AtText(m)
      modifies this`g, this`unacked, this`at, this`trace
      ensures Follows() && g.running == old(g.running) && at == if ok then LoopHead else Closing
      ensures ok <==>
        && Processes(it, m) && it.verdict.Some?
        && (!clientAck || if it.verdict.value == QueueRemove then !AckFails(it.answer) else !RecoverFails(it.answer))
      ensures g.arrived == old(g.arrived)
      ensures !clientAck ==> g.pending == old(g.pending) && g.acked == old(g.acked) && unacked == old(unacked)
      ensures clientAck && old(unacked) == [m] ==>
        && g.pending == (if ComesBack(it, true, m) then [m] + old(g.pending) else old(g.pending))
        && g.acked == (if Leaves(it, true, m) then old(g.acked) + [m] else old(g.acked))
        && unacked == (if Leaves(it, true, m) || ComesBack(it, true, m) then [] else [m])
      ensures Processes(it, m) && it.verdict.Some? ==> m in g.latest && g.latest[m] == Judged(it.verdict.value)
    {
      PutBackOne(it.answer, m);
      if m.text {
        if it.getTextThrows {
          Tick(Throw, Closing);
          return false;
        }
        Tick(Fine, AtProcess(m));
      } else {
        ok := AcknowledgeAll(it.firstAck, AtProcess(m));
        if !ok {
          return;
        }
      }
      if it.verdict.None? {
        Tick(Throw, Closing);
        return false;
      }
      ok := Answer(m, it.verdict.value, it.answer);
    }

    // One iteration of the loop body; ok unless it breaks.
    method Iterate(it: Iteration) returns (ok: bool)
      requires Follows() && at.AtReceive?
      modifies this`g, this`unacked, this`late, this`at, this`trace
      ensures Follows() && g.running == old(g.running) && at == if ok then LoopHead else Closing
      ensures late == old(late) + if old(g.running) then 0 else 1
      ensures ok <==> !Breaks(it, clientAck, old(g.pending))
      ensures old(unacked) == [] ==> Snapshot() == Round(it, clientAck, old(Snapshot()))
      ensures Receives(it, old(g.pending)) && Processes(it, old(g.pending)[0]) && it.verdict.Some? ==>
        old(g.pending)[0] in g.latest && g.latest[old(g.pending)[0]] == Judged(it.verdict.value)
    {
      var message;
      ok, message := ReceiveNext(it.receive);
      if !ok || message.None? {
        return;
      }
      ok := HandleMessage(message.value, it);
      assert [message.value] + old(g.pending)[1..] == old(g.pending);
    }

    // What the rest of the world does before the loop condition is read, or before receive().
    method Surroundings(stop: bool, arrival: Option<Msg>)
      requires Follows()
      modifies this`g, this`trace
      ensures Follows() && g.running == (old(g.running) && !stop)
      ensures Snapshot() == Arrives(old(Snapshot()), arrival)
    {
      if stop {
        g := g.(running := false);
        World(Stop);
      }
      if arrival.Some? && arrival.value !in g.arrived {
        g := g.(pending := g.pending + [arrival.value], arrived := g.arrived + [arrival.value]);
        World(Arrive(arrival.value));
      }
    }

    // Lines 160-178.
    method Enter(takes: bool, setUp: bool)
      requires Follows() && at == Start && !took
      modifies this`took, this`timeout, this`at, this`trace
      ensures Follows() && took == takes
      ensures at == if !takes then Aborted else if setUp then LoopHead else Closing
      ensures timeout == if takes && setUp && old(timeout) <= 0 then 3000 else old(timeout)
    {
      if !takes {
        Tick(Throw, Aborted);
        return;
      }
      took := true;
      Tick(Fine, SettingUp);
      if setUp {
        if timeout <= 0 {
          timeout := 3000;
        }
        Tick(Fine, LoopHead);
      } else {
        Tick(Throw, Closing);
      }
    }

    // The test of the loop condition and, unless stop() has come, one iteration; true if the loop is left.
    method Pass(it: Iteration) returns (left: bool)
      requires Follows() && at == LoopHead
      modifies this`g, this`unacked, this`late, this`at, this`trace
      ensures Follows() && at == if left then Closing else LoopHead
      ensures g.running == (old(g.running) && !it.stop && !it.stopLate)
      ensures late == old(late) + if old(g.running) && !it.stop && it.stopLate then 1 else 0
      ensures old(unacked) == [] ==>
        Course(Snapshot(), g.running, left) == OneRound(it, clientAck, Course(old(Snapshot()), old(g.running), false))
      ensures old(unacked) == [] && !left ==> unacked == []
    {
      Surroundings(it.stop, it.arrival);
      if !g.running {
        Tick(Fine, Closing);
        return true;
      }
      Tick(Fine, AtReceive);
      Surroundings(it.stopLate, it.arrivalLate);
      var ok := Iterate(it);
      left := !ok;
    }

    // The while loop; false if the given iterations are used up before it is left.
    method Loop(iterations: seq<Iteration>) returns (left: bool, ghost begun: nat)
      requires Follows() && at == LoopHead
      modifies this`g, this`unacked, this`late, this`at, this`trace
      ensures Follows() && at == if left then Closing else LoopHead
      ensures begun <= |iterations| && late == old(late) + if old(g.running) then LateIn(iterations[..begun]) else 0
      ensures old(unacked) == [] ==>
        Course(Snapshot(), g.running, left)
        == Rounds(iterations, clientAck, Course(old(Snapshot()), old(g.running), false))
    {
      ghost var up, was := g.running, late;
      ghost var clean, c := unacked == [], Course(Snapshot(), g.running, false);
      assert iterations[..0] == [];
      begun := 0;
      for k := 0 to |iterations|
        invariant Follows() && at == LoopHead && begun == k
        invariant g.running == (up && NoStop(iterations[..k]))
        invariant late == was + if up then LateIn(iterations[..k]) else 0
        invariant clean ==> Course(Snapshot(), g.running, false) == Rounds(iterations[..k], clientAck, c)
        invariant clean ==> unacked == []
      {
        begun := k + 1;
        OneMore(iterations, k);
        RoundsOneMore(iterations, k, clientAck, c);
        left := Pass(iterations[k]);
        if left {
          LeftSoFar(iterations, k + 1, clientAck, c, clean);
          return;
        }
      }
      assert iterations[..|iterations|] == iterations;
      left := false;
    }

    method CloseSession(throws: bool)
      requires Follows() && at == Closing
      modifies this`closes, this`at, this`trace
      ensures Follows() && at == (if throws then Aborted else Done) && closes == old(closes) + 1
    {
      closes := closes + 1;
      if throws {
        Tick(Throw, Aborted);
      } else {
        Tick(Fine, Done);
      }
    }

    // Where the loop gets to with the given iterations.
    ghost function Finally(iterations: seq<Iteration>): Course
      reads this
    {
      Rounds(iterations, clientAck, Course(Snapshot(), g.running, false))
    }

    method Body(takes: bool, setUp: bool, iterations: seq<Iteration>, closeThrows: bool)
      returns (r: Exit, ghost begun: nat)
      requires Follows() && at == Start && !took && unacked == []
      modifies this
      ensures Follows()
      ensures r == ReturnedNormally ==> at == Done && takes && !closeThrows
      ensures r == LeftByException ==> at == Aborted && took == takes
      ensures r == StillRunning ==> at == LoopHead
      ensures timeout == if takes && setUp && old(timeout) <= 0 then 3000 else old(timeout)
      ensures r == ExitOf(takes, setUp, old(Finally(iterations)), closeThrows)
      ensures Snapshot() == if takes && setUp then old(Finally(iterations)).q else old(Snapshot())
      ensures begun <= |iterations| && late == old(late) + if old(g.running) then LateIn(iterations[..begun]) else 0
    {
      begun := 0;
      Enter(takes, setUp);
      if !takes {
        r := LeftByException;
        return;
      }
      if setUp {
        var left;
        left, begun := Loop(iterations);
        if !left {
          r := StillRunning;
          return;
        }
      }
      CloseSession(closeThrows);
      r := if closeThrows then LeftByException else ReturnedNormally;
    }

    // What the theorems about runs of the model say of the task.
    lemma Guarantees()
      requires Follows() && Initial(start)
      ensures g.acked <= g.arrived && |unacked| <= 1 && (at.LoopHead? || at.Start? ==> unacked == [])
      ensures HistoryOk(g, Now().cs[0])
      ensures clientAck ==> forall m :: m in g.acked && m.text ==> m in g.latest && g.latest[m] == Judged(QueueRemove)
    {
      NoRestartIsHarmless(start, trace);
      InitialInv(start);
      RunKeepsBasic(start, trace);
      RunKeepsSmall(start, trace, 0);
      assert SessionSmall(Now().cs[0], 0);
      AnyRecovers(start, trace);
      SingleConsumerAcksInOrder(AnyOrder, start, trace);
      assert HistoryOk(Now().g, Now().cs[0]);
      forall m | clientAck && m in g.acked && m.text ensures m in g.latest && g.latest[m] == Judged(QueueRemove) {
        TextLeavesOnlyWhenRemoved(start, trace, m);
      }
    }

    // run(): the loop ends when the given iterations are used up; `begun` of them are.
    method RunTask(takes: bool, setUp: bool, iterations: seq<Iteration>, closeThrows: bool)
      returns (r: Exit, ghost begun: nat)
      requires Follows() && at == Start && Initial(start) && !took
      modifies this
      ensures Follows()
      ensures r == ReturnedNormally ==> closes == 1 && takes && !closeThrows
      ensures r == LeftByException ==> closes == if takes then 1 else 0
      ensures |unacked| <= 1 && (r == StillRunning ==> unacked == [])
      ensures begun <= |iterations| && late <= 1
      ensures late == old(late) + if old(g.running) then LateIn(iterations[..begun]) else 0
      ensures g.acked <= g.arrived
      ensures clientAck ==> forall m :: m in g.acked && m.text ==> m in g.latest && g.latest[m] == Judged(QueueRemove)
      ensures timeout == if takes && setUp && old(timeout) <= 0 then 3000 else old(timeout)
      ensures r == ExitOf(takes, setUp, old(Finally(iterations)), closeThrows)
      ensures Snapshot() == if takes && setUp then old(Finally(iterations)).q else old(Snapshot())
    {
      Guarantees();
      r, begun := Body(takes, setUp, iterations, closeThrows);
      Guarantees();
    }
  }
}
