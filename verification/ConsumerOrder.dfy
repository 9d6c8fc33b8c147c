/** When a single consumer acknowledges in arrival order, and exactly when a restart can cost that order.

    It depends on the order in which recover() redelivers.  The library promises to restart with the
    oldest unacknowledged message, but adds that redelivered messages need not come in their original
    order; both readings are covered. */
module ConsumerOrder {
  import opened Common
  import opened Consumers
  import opened ConsumerTheorems

  // How many messages a session may hold at a restart without danger to the order.
  function Limit(v: Provider): nat {
    if v.OldestFirst? then 1 else 0
  }

  ghost predicate InOrder(s: Sys) {
    |s.cs| == 1 && s.g.acked + s.cs[0].unacked + s.g.pending == s.g.arrived
  }

  lemma PrefixInOrder(s: Sys)
    requires InOrder(s)
    ensures s.g.acked <= s.g.arrived
  {
    assert s.g.acked + s.cs[0].unacked + s.g.pending == s.g.acked + (s.cs[0].unacked + s.g.pending);
  }

  // ---------------------------------------------------------------- light sessions keep the order

  // One message, or two of which the first stays first, can be put back in one order only.
  lemma SmallPermutation(a: seq<Msg>, b: seq<Msg>)
    requires multiset(a) == multiset(b) && (|b| <= 1 || (|b| == 2 && a != [] && a[0] == b[0]))
    ensures a == b
  {
    assert |a| == |multiset(a)| == |multiset(b)| == |b|;
    if |b| == 1 {
      assert a[0] in multiset(a);
    } else if |b| == 2 {
      assert a == [a[0]] + [a[1]] && b == [b[0]] + [b[1]];
      assert multiset{a[1]} == multiset(a) - multiset{a[0]} == multiset(b) - multiset{b[0]} == multiset{b[1]};
      assert a[1] in multiset{b[1]};
    }
  }

  lemma PutBackInOrder(v: Provider, c: Consumer, o: Choice)
    requires o.Recovered? && multiset(o.order) == multiset(c.unacked) && PutsBackAs(v, c, o)
    requires |c.unacked| <= Limit(v) + 1
    ensures o.order == c.unacked
  {
    assert |o.order| == |multiset(o.order)| == |multiset(c.unacked)| == |c.unacked|;
    SmallPermutation(o.order, c.unacked);
  }

  lemma MovesInOrder(g: Shared, c: Consumer, o: Choice, g': Shared, c': Consumer)
    requires || Untouched(g, c, g', c') || AcksAll(g, c, g', c') || PutsBack(g, c, o, g', c')
             || Consumes(g, c, g', c') || (c.unacked == [] && ConsumesAndAcks(g, c, g', c'))
    requires PutsBack(g, c, o, g', c') ==> o.order == c.unacked
    requires g.acked + c.unacked + g.pending == g.arrived
    ensures g'.acked + c'.unacked + g'.pending == g.arrived
  {
  }

  lemma PutsBackOnlyAtAck(g: Shared, c: Consumer, o: Choice, g': Shared, c': Consumer)
    requires Act(g, c, o) == Some((g', c')) && o.Recovered?
    ensures c.pc.AtAck? && multiset(o.order) == multiset(c.unacked)
  {
  }

  lemma TurnInOrder(v: Provider, s: Sys, o: Choice, g': Shared, c': Consumer)
    requires Basic(s) && InOrder(s) && Act(s.g, s.cs[0], o) == Some((g', c')) && PutsBackAs(v, s.cs[0], o)
    requires s.cs[0].pc.AtAck? ==> |s.cs[0].unacked| <= Limit(v) + 1
    ensures g'.acked + c'.unacked + g'.pending == g'.arrived
  {
    var c := s.cs[0];
    assert AutoOk(s.g, c);
    if o.Recovered? {
      PutsBackOnlyAtAck(s.g, c, o, g', c');
      PutBackInOrder(v, c, o);
    }
    ActFrame(s.g, c, o, g', c');
    ActMoves(s.g, c, o, g', c');
    MovesInOrder(s.g, c, o, g', c');
  }

  lemma StepInOrder(v: Provider, s: Sys, e: Event)
    requires Basic(s) && InOrder(s) && RecoversAs(v, s, e) && Step(s, e).Some?
    requires s.cs[0].pc.AtAck? ==> |s.cs[0].unacked| <= Limit(v) + 1
    ensures InOrder(Step(s, e).value)
  {
    match e
    case Arrive(m) =>
      assert s.g.acked + s.cs[0].unacked + (s.g.pending + [m]) == s.g.acked + s.cs[0].unacked + s.g.pending + [m];
    case Stop =>
    case Restart(_) =>
    case Turn(i, o) =>
      var (g', c') := Act(s.g, s.cs[0], o).value;
      TurnInOrder(v, s, o, g', c');
  }

  lemma {:induction false} RunInOrder(v: Provider, s0: Sys, es: seq<Event>)
    requires Basic(s0) && Small(s0, Limit(v)) && InOrder(s0) && Run(s0, es).Some?
    requires LightRestarts(s0, es, Limit(v)) && Recovers(v, s0, es)
    ensures InOrder(Run(s0, es).value)
  {
    if es != [] {
      var fs := es[..|es| - 1];
      RunKeepsBasic(s0, fs);
      RunKeepsSmall(s0, fs, Limit(v));
      RunInOrder(v, s0, fs);
      assert SessionSmall(Run(s0, fs).value.cs[0], Limit(v));
      StepInOrder(v, Run(s0, fs).value, es[|es| - 1]);
    }
  }

  // A single consumer acknowledges in arrival order, retries included, in every run whose restarts
  // find clean sessions, whatever order the provider chooses; and if recover() starts with the oldest
  // message, also when they find one message left.
  lemma SingleConsumerAcksInOrder(v: Provider, s0: Sys, es: seq<Event>)
    requires Initial(s0) && |s0.cs| == 1 && Run(s0, es).Some?
    requires LightRestarts(s0, es, Limit(v)) && Recovers(v, s0, es)
    ensures Run(s0, es).value.g.acked <= Run(s0, es).value.g.arrived
  {
    InitialInv(s0);
    RunInOrder(v, s0, es);
    PrefixInOrder(Run(s0, es).value);
  }

  // ---------------------------------------------------------------- a heavier session can lose it

  ghost predicate RestartDisorders(v: Provider, s: Sys, s': Sys) {
    && Step(s, Restart(0)).Some? && Reaches(v, Step(s, Restart(0)).value, s')
    && !(s'.g.acked <= s'.g.arrived)
  }

  // On a clean session the next message is received and removed, be it a text message or not.
  lemma RemovesText(v: Provider, s: Sys, g: Shared, cs: seq<Consumer>, x: Msg) returns (h: Shared)
    requires |cs| == 1 && g.running && g.clientAck && g.pending != [] && g.pending[0] == x && x.text
    requires Reaches(v, s, Sys(g, cs[0 := Consumer(AtReceive, [], true, 0, 0)]))
    ensures Reaches(v, s, Sys(h, cs[0 := Consumer(LoopHead, [], true, 0, 0)]))
    ensures h.acked == g.acked + [x] && h.pending == g.pending[1..] && h.arrived == g.arrived
    ensures h.running && h.clientAck
  {
    ToVerdict(v, s, g, cs, 0, [], x, QueueRemove);
    var k, c := Received(g, x), Consumer(AtAck(x, QueueRemove), [] + [x], true, 0, 0);
    k := k.(latest := k.latest[x := Judged(QueueRemove)]);
    h := k.(acked := k.acked + ([] + [x]));
    ReachesHandle(v, s, k, cs, 0, c, Fine, h, Consumer(LoopHead, [], true, 0, 0));
  }

  lemma AfterOther(v: Provider, s: Sys, g: Shared, cs: seq<Consumer>, x: Msg) returns (h: Shared)
    requires |cs| == 1 && g.clientAck && Reaches(v, s, Sys(g, cs[0 := Consumer(AtProcess(x), [], true, 0, 0)]))
    ensures Reaches(v, s, Sys(h, cs[0 := Consumer(LoopHead, [], true, 0, 0)]))
    ensures h == g.(latest := h.latest)
  {
    var d := Consumer(AtProcess(x), [], true, 0, 0);
    h := g.(latest := g.latest[x := Judged(QueueRemove)]);
    assert h.acked + [] == h.acked;
    ReachesHandle(v, s, g, cs, 0, d, Say(QueueRemove), h, Go(d, AtAck(x, QueueRemove)));
    ReachesHandle(v, s, h, cs, 0, Go(d, AtAck(x, QueueRemove)), Fine, h, Go(d, LoopHead));
  }

  lemma RemovesOther(v: Provider, s: Sys, g: Shared, cs: seq<Consumer>, x: Msg) returns (h: Shared)
    requires |cs| == 1 && g.running && g.clientAck && g.pending != [] && g.pending[0] == x && !x.text
    requires Reaches(v, s, Sys(g, cs[0 := Consumer(AtReceive, [], true, 0, 0)]))
    ensures Reaches(v, s, Sys(h, cs[0 := Consumer(LoopHead, [], true, 0, 0)]))
    ensures h.acked == g.acked + [x] && h.pending == g.pending[1..] && h.arrived == g.arrived
    ensures h.running && h.clientAck
  {
    var k, c := Received(g, x), Consumer(AtText(x), [] + [x], true, 0, 0);
    var gone, d := k.(acked := k.acked + ([] + [x])), Consumer(AtProcess(x), [], true, 0, 0);
    ReachesTurn(v, s, g, cs, 0, Consumer(AtReceive, [], true, 0, 0), Fine, k, c);
    ReachesHandle(v, s, k, cs, 0, c, Fine, gone, d);
    h := AfterOther(v, s, gone, cs, x);
  }

  lemma RemovesNext(v: Provider, s: Sys, g: Shared, cs: seq<Consumer>, x: Msg) returns (h: Shared)
    requires |cs| == 1 && g.running && g.clientAck && g.pending != [] && g.pending[0] == x
    requires Reaches(v, s, Sys(g, cs[0 := Consumer(LoopHead, [], true, 0, 0)]))
    ensures Reaches(v, s, Sys(h, cs[0 := Consumer(LoopHead, [], true, 0, 0)]))
    ensures h.acked == g.acked + [x] && h.pending == g.pending[1..] && h.arrived == g.arrived
    ensures h.running && h.clientAck
  {
    var d := Consumer(LoopHead, [], true, 0, 0);
    ReachesTurn(v, s, g, cs, 0, d, Fine, g, Go(d, AtReceive));
    if x.text {
      h := RemovesText(v, s, g, cs, x);
    } else {
      h := RemovesOther(v, s, g, cs, x);
    }
  }

  // The session holds u + [z] when x comes, which is to be retried; recover() puts x back before z.
  lemma RetryOvertakes(v: Provider, s: Sys, g: Shared, cs: seq<Consumer>, u: seq<Msg>, z: Msg, x: Msg)
    returns (h: Shared)
    requires |cs| == 1 && g.running && g.clientAck && g.pending != [] && g.pending[0] == x && x.text
    requires v.OldestFirst? ==> u != []
    requires Reaches(v, s, Sys(g, cs[0 := Consumer(AtReceive, u + [z], true, 0, 0)]))
    ensures Reaches(v, s, Sys(h, cs[0 := Consumer(LoopHead, [], true, 0, 0)]))
    ensures h.pending == u + [x, z] + g.pending[1..] && h.acked == g.acked && h.arrived == g.arrived
    ensures h.running && h.clientAck
  {
    ToVerdict(v, s, g, cs, 0, u + [z], x, QueueRetry);
    var k := Received(g, x);
    k := k.(latest := k.latest[x := Judged(QueueRetry)]);
    var c, order := Consumer(AtAck(x, QueueRetry), u + [z] + [x], true, 0, 0), u + [x, z];
    assert multiset(order) == multiset(c.unacked);
    h := k.(pending := order + k.pending);
    ReachesHandle(v, s, k, cs, 0, c, Recovered(order, false), h, Consumer(LoopHead, [], true, 0, 0));
  }

  lemma OutOfOrder(acked: seq<Msg>, u: seq<Msg>, z: Msg, x: Msg, rest: seq<Msg>, more: seq<Msg>)
    requires x != z
    ensures !(acked + u + [x] <= acked + (u + [z]) + rest + more)
  {
    var n := |acked| + |u|;
    assert (acked + u + [x])[n] == x && (acked + (u + [z]) + rest + more)[n] == z;
  }

  // Then u, which is at most one message, and x leave before z.
  lemma DisorderRun(v: Provider, s: Sys, g: Shared, cs: seq<Consumer>, u: seq<Msg>, z: Msg)
    returns (s': Sys, x: Msg, more: seq<Msg>)
    requires |cs| == 1 && g.running && g.clientAck && |u| == Limit(v)
    requires Reaches(v, s, Sys(g, cs[0 := Consumer(Start, u + [z], false, 0, 0)]))
    requires z in g.arrived && z !in g.pending && (forall x :: x in g.pending ==> x in g.arrived)
    requires g.pending == [] || g.pending[0].text
    ensures Reaches(v, s, s') && s'.g.acked == g.acked + u + [x] && s'.g.arrived == g.arrived + more && x != z
  {
    ToReceive(v, s, g, cs, 0, u + [z]);
    var h;
    h, more := SomethingToReceive(v, s, g, cs[0 := Consumer(AtReceive, u + [z], true, 0, 0)]);
    x := h.pending[0];
    h := RetryOvertakes(v, s, h, cs, u, z, x);
    if u != [] {
      assert u == [u[0]] && h.pending[0] == u[0];
      h := RemovesNext(v, s, h, cs, u[0]);
    }
    assert h.acked == g.acked + u && h.pending[0] == x;
    h := RemovesNext(v, s, h, cs, x);
    s' := Sys(h, cs[0 := Consumer(LoopHead, [], true, 0, 0)]);
  }

  lemma DisorderWitness(v: Provider, s: Sys, u: seq<Msg>, z: Msg)
    requires Basic(s) && InOrder(s) && s.g.clientAck && s.g.running && Ended(s.cs[0].pc)
    requires s.cs[0].unacked == u + [z] && |u| == Limit(v) && (s.g.pending == [] || s.g.pending[0].text)
    ensures exists s' :: RestartDisorders(v, s, s')
  {
    var s1 := Step(s, Restart(0)).value;
    HeldElsewhere(s, 0, z);
    ReachesSelf(v, s1);
    var s', x, more := DisorderRun(v, s1, s.g, s.cs, u, z);
    OutOfOrder(s.g.acked, u, z, x, s.g.pending, more);
    assert RestartDisorders(v, s, s');
  }

  // ---------------------------------------------------------------- and otherwise cannot

  // A restarted consumer whose next message is not a text message acknowledges it, and with it what
  // the session holds, before anything can be retried.
  ghost predicate NextSettles(s: Sys, most: nat) {
    && |s.cs| == 1
    && var pc := s.cs[0].pc;
       || SessionSmall(s.cs[0], most) || Ended(pc) || pc.Closing? || (pc.AtText? && !pc.m.text)
       || ((pc.Start? || pc.SettingUp? || pc.LoopHead? || pc.AtReceive?) && s.g.pending != [] && !s.g.pending[0].text)
  }

  lemma SettlingTurn(g: Shared, c: Consumer, o: Choice, g': Shared, c': Consumer, most: nat)
    requires g.clientAck && AutoOk(g, c) && NextSettles(Sys(g, [c]), most) && Act(g, c, o) == Some((g', c'))
    ensures NextSettles(Sys(g', [c']), most)
  {
    if SessionSmall(c, most) { ActKeepsSmall(g, c, o, g', c', most); }
  }

  lemma SettlingStep(s: Sys, e: Event, most: nat)
    requires Basic(s) && s.g.clientAck && NextSettles(s, most) && !e.Restart? && Step(s, e).Some?
    ensures NextSettles(Step(s, e).value, most)
  {
    if e.Turn? {
      var (g', c') := Act(s.g, s.cs[0], e.o).value;
      assert s == Sys(s.g, [s.cs[0]]) && Step(s, e).value == Sys(g', [c']);
      SettlingTurn(s.g, s.cs[0], e.o, g', c', most);
    }
  }

  lemma {:induction false} SettlingRun(v: Provider, s: Sys, es: seq<Event>)
    requires Basic(s) && s.g.clientAck && InOrder(s) && NextSettles(s, Limit(v))
    requires NoRestart(es) && Recovers(v, s, es) && Run(s, es).Some?
    ensures InOrder(Run(s, es).value) && NextSettles(Run(s, es).value, Limit(v))
  {
    if es != [] {
      var fs, e := es[..|es| - 1], es[|es| - 1];
      assert e in es && forall d :: d in fs ==> d in es;
      SettlingRun(v, s, fs);
      RunKeepsBasic(s, fs);
      SettlingStep(Run(s, fs).value, e, Limit(v));
      StepInOrder(v, Run(s, fs).value, e);
    }
  }

  lemma OrderSurvives(v: Provider, s: Sys, s': Sys)
    requires Basic(s) && s.g.clientAck && InOrder(s) && Ended(s.cs[0].pc)
    requires |s.cs[0].unacked| <= Limit(v) || (s.g.pending != [] && !s.g.pending[0].text)
    requires Reaches(v, Step(s, Restart(0)).value, s')
    ensures s'.g.acked <= s'.g.arrived
  {
    var s1 := Step(s, Restart(0)).value;
    StepKeepsBasic(s, Restart(0));
    var es :| Run(s1, es) == Some(s') && NoRestart(es) && Recovers(v, s1, es);
    SettlingRun(v, s1, es);
    PrefixInOrder(s');
  }

  // Exactly when a restart can cost the order: after a run of light restarts, restarting the one
  // consumer can lead to acknowledgement out of arrival order if and only if its session still holds a
  // message (two, if recover() starts with the oldest) and no non-text message is next on the queue.
  lemma RestartDisordersIff(v: Provider, s0: Sys, es: seq<Event>)
    requires Initial(s0) && |s0.cs| == 1 && s0.g.clientAck && Run(s0, es).Some?
    requires LightRestarts(s0, es, Limit(v)) && Recovers(v, s0, es)
    requires Run(s0, es).value.g.running && |Run(s0, es).value.cs| == 1 && Ended(Run(s0, es).value.cs[0].pc)
    ensures
      var s := Run(s0, es).value;
      (exists s' :: RestartDisorders(v, s, s')) <==>
      |s.cs[0].unacked| > Limit(v) && (s.g.pending == [] || s.g.pending[0].text)
  {
    var s := Run(s0, es).value;
    InitialInv(s0);
    RunKeepsBasic(s0, es);
    RunKeepsSmall(s0, es, Limit(v));
    RunInOrder(v, s0, es);
    assert SessionSmall(s.cs[0], Limit(v));
    if |s.cs[0].unacked| > Limit(v) && (s.g.pending == [] || s.g.pending[0].text) {
      var u, n := s.cs[0].unacked, Limit(v);
      assert u == u[..n] + [u[n]];
      DisorderWitness(v, s, u[..n], u[n]);
    } else {
      forall s' ensures !RestartDisorders(v, s, s') {
        if RestartDisorders(v, s, s') { OrderSurvives(v, s, s'); }
      }
    }
  }

  // Such sessions occur: a consumer leaves one message behind, and the one restarted on its session
  // leaves a second one.
  lemma LeavesSecond(v: Provider, s: Sys, g: Shared, cs: seq<Consumer>, m: Msg) returns (s': Sys)
    requires |cs| == 1 && g.running && g.clientAck && g.pending == []
    requires Reaches(v, s, Sys(g, cs[0 := Consumer(Start, [m], false, 0, 0)]))
    ensures Reaches(v, s, s') && s'.g.running && |s'.cs| == 1
    ensures s'.cs[0].pc == Done && |s'.cs[0].unacked| == 2
  {
    ToReceive(v, s, g, cs, 0, [m]);
    var h, more := SomethingToReceive(v, s, g, cs[0 := Consumer(AtReceive, [m], true, 0, 0)]);
    var x := h.pending[0];
    ToVerdict(v, s, h, cs, 0, [m], x, QueueRetry);
    var k := Received(h, x);
    k := k.(latest := k.latest[x := Judged(QueueRetry)]);
    RetryFails(v, s, k, cs, 0, [m] + [x], x);
    s' := Sys(k, cs[0 := Consumer(Done, [m] + [x], true, 1, 0)]);
  }

  lemma TwoLeftAfterRestart(v: Provider, s0: Sys) returns (s: Sys, s': Sys)
    requires Initial(s0) && s0.g.clientAck && |s0.cs| == 1
    ensures Reaches(v, s0, s) && |s.cs| == 1 && |s.cs[0].unacked| == 1
    ensures Step(s, Restart(0)).Some? && Reaches(v, Step(s, Restart(0)).value, s') && s'.g.running
    ensures |s'.cs| == 1 && s'.cs[0].pc == Done && |s'.cs[0].unacked| == 2
  {
    var m;
    s, m := OneLeftAtExit(v, s0, 0);
    var s1 := Step(s, Restart(0)).value;
    ReachesSelf(v, s1);
    s' := LeavesSecond(v, s1, s.g, s.cs, m);
  }
}
