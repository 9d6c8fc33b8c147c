/** What every run of any number of consumers guarantees. */
module ConsumerTheorems {
  import opened Common
  import opened Consumers

  // ---------------------------------------------------------------- acknowledgement

  // Every restarted consumer starts on a session that holds at most so much, ...
  ghost predicate LightRestarts(s: Sys, es: seq<Event>, most: nat) {
    es != [] ==>
      var fs, e := es[..|es| - 1], es[|es| - 1];
      && LightRestarts(s, fs, most)
      && (Run(s, fs).Some? && e.Restart? && e.i < |Run(s, fs).value.cs| ==>
            |Run(s, fs).value.cs[e.i].unacked| <= most)
  }

  // ... or that holds nothing.
  ghost predicate CleanRestarts(s: Sys, es: seq<Event>) {
    LightRestarts(s, es, 0)
  }

  lemma {:induction false} CleanIsHarmless(s: Sys, es: seq<Event>)
    requires CleanRestarts(s, es)
    ensures HarmlessRestarts(s, es)
  {
    if es != [] { CleanIsHarmless(s, es[..|es| - 1]); }
  }

  ghost predicate Small(s: Sys, most: nat) {
    forall i :: 0 <= i < |s.cs| ==> SessionSmall(s.cs[i], most)
  }

  lemma {:induction false} RunKeepsSmall(s: Sys, es: seq<Event>, most: nat)
    requires Basic(s) && Small(s, most) && LightRestarts(s, es, most) && Run(s, es).Some?
    ensures Small(Run(s, es).value, most)
  {
    if es != [] {
      var fs, e := es[..|es| - 1], es[|es| - 1];
      RunKeepsSmall(s, fs, most);
      RunKeepsBasic(s, fs);
      var b := Run(s, fs).value;
      if e.Turn? {
        var (g', c') := Act(b.g, b.cs[e.i], e.o).value;
        ActKeepsSmall(b.g, b.cs[e.i], e.o, g', c', most);
      }
    }
  }

  // In client-acknowledge mode the session of a consumer holds nothing unacknowledged at the loop
  // head and at most one message when run() is left.
  lemma SessionCleanAtLoopHead(s0: Sys, es: seq<Event>, i: nat)
    requires Initial(s0) && CleanRestarts(s0, es) && Run(s0, es).Some? && i < |Run(s0, es).value.cs|
    ensures
      var c := Run(s0, es).value.cs[i];
      && (c.pc.LoopHead? || c.pc.AtReceive? ==> c.unacked == [])
      && |c.unacked| <= 1
  {
    InitialInv(s0);
    RunKeepsSmall(s0, es, 0);
    assert SessionSmall(Run(s0, es).value.cs[i], 0);
  }

  lemma AckStepExact(g: Shared, c: Consumer)
    requires g.clientAck && SessionOk(g, c) && SessionSmall(c, 0)
    ensures forall m :: c.pc == AtAck(m, QueueRemove) ==>
      Act(g, c, Fine).Some? && Act(g, c, Fine).value.0.acked == g.acked + if m.text then [m] else []
    ensures forall m :: c.pc == AtText(m) && !m.text ==>
      Act(g, c, Fine).Some? && Act(g, c, Fine).value.0.acked == g.acked + [m]
  {
  }

  // Therefore the session-wide acknowledge acts on the message in hand only: on the text message
  // just judged, or on the non-text message just received (for which the second call does nothing).
  lemma AcknowledgeIsPerMessage(s0: Sys, es: seq<Event>, i: nat)
    requires Initial(s0) && s0.g.clientAck && CleanRestarts(s0, es) && Run(s0, es).Some?
    requires i < |Run(s0, es).value.cs|
    ensures
      var s := Run(s0, es).value;
      forall m ::
        && (s.cs[i].pc == AtAck(m, QueueRemove) ==>
              && Act(s.g, s.cs[i], Fine).Some?
              && Act(s.g, s.cs[i], Fine).value.0.acked == s.g.acked + if m.text then [m] else [])
        && (s.cs[i].pc == AtText(m) && !m.text ==>
              && Act(s.g, s.cs[i], Fine).Some?
              && Act(s.g, s.cs[i], Fine).value.0.acked == s.g.acked + [m])
  {
    InitialInv(s0);
    CleanIsHarmless(s0, es);
    RunKeepsInv(s0, es);
    RunKeepsBasic(s0, es);
    RunKeepsSmall(s0, es, 0);
    var s := Run(s0, es).value;
    AckStepExact(s.g, s.cs[i]);
  }

  // What the events of a run say of the latest delivery of m: the verdict of process(), or none yet.
  function Said(s: Sys, es: seq<Event>, m: Msg): Option<Latest> {
    if es == [] then None
    else
      var fs, e := es[..|es| - 1], es[|es| - 1];
      if Run(s, fs).None? || !e.Turn? || e.i >= |Run(s, fs).value.cs| then Said(s, fs, m)
      else
        var b := Run(s, fs).value;
        if b.cs[e.i].pc == AtProcess(m) && e.o.Say? then Some(Judged(e.o.v))
        else if b.cs[e.i].pc.AtReceive? && e.o == Fine && b.g.pending != [] && b.g.pending[0] == m then Some(Delivered)
        else Said(s, fs, m)
  }

  lemma ActSays(g: Shared, c: Consumer, o: Choice, g': Shared, c': Consumer, m: Msg)
    requires Act(g, c, o) == Some((g', c'))
    ensures
      if c.pc == AtProcess(m) && o.Say? then m in g'.latest && g'.latest[m] == Judged(o.v)
      else if c.pc.AtReceive? && o == Fine && g.pending != [] && g.pending[0] == m then
        m in g'.latest && g'.latest[m] == Delivered
      else (m in g'.latest <==> m in g.latest) && (m in g.latest ==> g'.latest[m] == g.latest[m])
  {
    ActNotes(g, c, o, g', c');
  }

  // The history kept of the verdicts is the one the events tell.
  lemma {:induction false} LatestIsSaid(s0: Sys, es: seq<Event>, m: Msg)
    requires Initial(s0) && Run(s0, es).Some?
    ensures
      var latest := Run(s0, es).value.g.latest;
      Said(s0, es, m) == if m in latest then Some(latest[m]) else None
  {
    if es != [] {
      var fs, e := es[..|es| - 1], es[|es| - 1];
      LatestIsSaid(s0, fs, m);
      var b := Run(s0, fs).value;
      if e.Turn? {
        var (g', c') := Act(b.g, b.cs[e.i], e.o).value;
        ActSays(b.g, b.cs[e.i], e.o, g', c', m);
      }
    }
  }

  // A text message leaves the broker only after process() returned QUEUE_REMOVE for its latest
  // delivery, in every run whose restarts are harmless.
  lemma TextLeavesOnlyWhenRemoved(s0: Sys, es: seq<Event>, m: Msg)
    requires Initial(s0) && s0.g.clientAck && HarmlessRestarts(s0, es) && Run(s0, es).Some?
    requires m.text && m in Run(s0, es).value.g.acked
    ensures m in Run(s0, es).value.g.latest && Run(s0, es).value.g.latest[m] == Judged(QueueRemove)
    ensures Said(s0, es, m) == Some(Judged(QueueRemove))
  {
    InitialInv(s0);
    RunKeepsInv(s0, es);
    RunKeepsBasic(s0, es);
    LatestIsSaid(s0, es, m);
  }

  // With automatic acknowledgement the message in hand is gone before process() has seen it: at every
  // moment of every run it is acknowledged and not on the queue, so no verdict can bring it back.
  lemma AutoAckLeavesFirst(s0: Sys, es: seq<Event>, i: nat)
    requires Initial(s0) && !s0.g.clientAck && Run(s0, es).Some? && i < |Run(s0, es).value.cs|
    ensures
      var s := Run(s0, es).value;
      && s.cs[i].unacked == []
      && (HasMessage(s.cs[i].pc) ==> s.cs[i].pc.m in s.g.acked && s.cs[i].pc.m !in s.g.pending)
  {
    InitialInv(s0);
    RunKeepsBasic(s0, es);
    var s := Run(s0, es).value;
    if HasMessage(s.cs[i].pc) {
      OnePlace(s, i, s.cs[i].pc.m);
      CountIn(s.g.pending, s.cs[i].pc.m);
    }
  }

  // The turn of a consumer that receives text message m and gets the verdict QUEUE_REMOVE.
  function RemoveTurn(g: Shared, c: Consumer): Option<(Shared, Consumer)> {
    match Act(g, c, Fine)
    case None => None
    case Some((g1, c1)) =>
      match Act(g1, c1, Fine)
      case None => None
      case Some((g2, c2)) =>
        match Act(g2, c2, Say(QueueRemove))
        case None => None
        case Some((g3, c3)) => Act(g3, c3, Fine)
  }

  // On a session that still holds unacknowledged messages of an earlier run the acknowledge takes
  // them along unprocessed: it is a per-message acknowledge if and only if the session is clean.
  lemma AcknowledgeExactIffClean(g: Shared, c: Consumer)
    requires g.clientAck && c.pc.AtReceive? && g.pending != [] && g.pending[0].text
    ensures
      var r := RemoveTurn(g, c);
      && r.Some? && r.value.0.acked == g.acked + c.unacked + [g.pending[0]]
      && (r.value.0.acked == g.acked + [g.pending[0]] <==> c.unacked == [])
  {
    var m := g.pending[0];
    var d := if g.running then c else c.(late := c.late + 1);
    var (g1, c1) := Receive(g, d);
    var c2 := Go(c1, AtProcess(m));
    var g3, c3 := g1.(latest := g1.latest[m := Judged(QueueRemove)]), Go(c2, AtAck(m, QueueRemove));
    assert Act(g, c, Fine) == Some((g1, c1));
    assert Act(g1, c1, Fine) == Some((g1, c2));
    assert Act(g1, c2, Say(QueueRemove)) == Some((g3, c3));
    assert g.acked + (c.unacked + [m]) == g.acked + c.unacked + [m];
    if g.acked + c.unacked + [m] == g.acked + [m] {
      assert |c.unacked| == 0;
    }
  }

  // ---------------------------------------------------------------- restarts

  ghost predicate NoRestart(es: seq<Event>) {
    forall e :: e in es ==> !e.Restart?
  }

  // In which order recover() puts messages back: any, or starting with the oldest.
  datatype Provider = AnyOrder | OldestFirst

  predicate PutsBackAs(v: Provider, c: Consumer, o: Choice) {
    v.OldestFirst? && o.Recovered? && o.order != [] && c.unacked != [] ==> o.order[0] == c.unacked[0]
  }

  predicate RecoversAs(v: Provider, s: Sys, e: Event) {
    e.Turn? && e.i < |s.cs| ==> PutsBackAs(v, s.cs[e.i], e.o)
  }

  ghost predicate Recovers(v: Provider, s: Sys, es: seq<Event>) {
    es != [] ==>
      var fs := es[..|es| - 1];
      Recovers(v, s, fs) && (Run(s, fs).Some? ==> RecoversAs(v, Run(s, fs).value, es[|es| - 1]))
  }

  lemma {:induction false} AnyRecovers(s: Sys, es: seq<Event>)
    ensures Recovers(AnyOrder, s, es)
  {
    if es != [] { AnyRecovers(s, es[..|es| - 1]); }
  }

  // Some run without restarts leads from s to s'.
  ghost predicate Reaches(v: Provider, s: Sys, s': Sys) {
    exists es :: Run(s, es) == Some(s') && NoRestart(es) && Recovers(v, s, es)
  }

  lemma ReachesSelf(v: Provider, s: Sys)
    ensures Reaches(v, s, s)
  {
    assert Run(s, []) == Some(s) && NoRestart([]) && Recovers(v, s, []);
  }

  lemma ReachesEvent(v: Provider, s: Sys, s1: Sys, e: Event, s2: Sys)
    requires Reaches(v, s, s1) && !e.Restart? && RecoversAs(v, s1, e) && Step(s1, e) == Some(s2)
    ensures Reaches(v, s, s2)
  {
    var es :| Run(s, es) == Some(s1) && NoRestart(es) && Recovers(v, s, es);
    assert (es + [e])[..|es|] == es;
    assert Run(s, es + [e]) == Some(s2) && NoRestart(es + [e]) && Recovers(v, s, es + [e]);
  }

  lemma ReachesTurn(v: Provider, s: Sys, g: Shared, cs: seq<Consumer>, i: nat, c: Consumer, o: Choice,
                    g': Shared, c': Consumer)
    requires i < |cs| && Reaches(v, s, Sys(g, cs[i := c])) && PutsBackAs(v, c, o) && Act(g, c, o) == Some((g', c'))
    ensures Reaches(v, s, Sys(g', cs[i := c']))
  {
    assert cs[i := c][i := c'] == cs[i := c'];
    ReachesEvent(v, s, Sys(g, cs[i := c]), Turn(i, o), Sys(g', cs[i := c']));
  }

  // The same with a message in hand.
  lemma ReachesHandle(v: Provider, s: Sys, g: Shared, cs: seq<Consumer>, i: nat, c: Consumer, o: Choice,
                      g': Shared, c': Consumer)
    requires i < |cs| && Reaches(v, s, Sys(g, cs[i := c])) && PutsBackAs(v, c, o)
    requires HasMessage(c.pc) && Handle(g, c, o) == Some((g', c'))
    ensures Reaches(v, s, Sys(g', cs[i := c']))
  {
    ReachesTurn(v, s, g, cs, i, c, o, g', c');
  }

  // A consumer takes its session, sets up and goes to its first receive.
  lemma ToReceive(v: Provider, s: Sys, g: Shared, cs: seq<Consumer>, i: nat, u: seq<Msg>)
    requires i < |cs| && g.running && Reaches(v, s, Sys(g, cs[i := Consumer(Start, u, false, 0, 0)]))
    ensures Reaches(v, s, Sys(g, cs[i := Consumer(AtReceive, u, true, 0, 0)]))
  {
    var c := Consumer(SettingUp, u, true, 0, 0);
    ReachesTurn(v, s, g, cs, i, Consumer(Start, u, false, 0, 0), Fine, g, c);
    ReachesTurn(v, s, g, cs, i, c, Fine, g, Go(c, LoopHead));
    ReachesTurn(v, s, g, cs, i, Go(c, LoopHead), Fine, g, Go(c, AtReceive));
  }

  // It receives message x; if that is a text message process() answers w.
  function Received(g: Shared, x: Msg): Shared
    requires g.pending != []
  {
    g.(pending := g.pending[1..], latest := g.latest[x := Delivered])
  }

  lemma ToVerdict(v: Provider, s: Sys, g: Shared, cs: seq<Consumer>, i: nat, u: seq<Msg>, x: Msg, w: Verdict)
    requires i < |cs| && g.running && g.clientAck && g.pending != [] && g.pending[0] == x && x.text
    requires Reaches(v, s, Sys(g, cs[i := Consumer(AtReceive, u, true, 0, 0)]))
    ensures
      var h := Received(g, x);
      Reaches(v, s, Sys(h.(latest := h.latest[x := Judged(w)]), cs[i := Consumer(AtAck(x, w), u + [x], true, 0, 0)]))
  {
    var h, c := Received(g, x), Consumer(AtText(x), u + [x], true, 0, 0);
    ReachesTurn(v, s, g, cs, i, Consumer(AtReceive, u, true, 0, 0), Fine, h, c);
    var judged := h.(latest := h.latest[x := Judged(w)]);
    ReachesHandle(v, s, h, cs, i, c, Fine, h, Go(c, AtProcess(x)));
    ReachesHandle(v, s, h, cs, i, Go(c, AtProcess(x)), Say(w), judged, Go(c, AtAck(x, w)));
  }

  // The next message it acknowledges takes along whatever the session holds.
  lemma TakesAlong(v: Provider, s: Sys, g: Shared, cs: seq<Consumer>, i: nat, u: seq<Msg>, x: Msg)
    returns (g': Shared, c': Consumer)
    requires i < |cs| && g.running && g.clientAck && g.pending != [] && g.pending[0] == x
    requires Reaches(v, s, Sys(g, cs[i := Consumer(AtReceive, u, true, 0, 0)]))
    ensures Reaches(v, s, Sys(g', cs[i := c']))
    ensures g'.acked == g.acked + (u + [x])
    ensures forall m :: m != x ==>
      (m in g'.latest <==> m in g.latest) && (m in g.latest ==> g'.latest[m] == g.latest[m])
  {
    var h := Received(g, x);
    if x.text {
      ToVerdict(v, s, g, cs, i, u, x, QueueRemove);
      var c := Consumer(AtAck(x, QueueRemove), u + [x], true, 0, 0);
      h := h.(latest := h.latest[x := Judged(QueueRemove)]);
      g', c' := h.(acked := g.acked + (u + [x])), c.(unacked := [], pc := LoopHead);
      ReachesHandle(v, s, h, cs, i, c, Fine, g', c');
    } else {
      var c := Consumer(AtText(x), u + [x], true, 0, 0);
      ReachesTurn(v, s, g, cs, i, Consumer(AtReceive, u, true, 0, 0), Fine, h, c);
      g', c' := h.(acked := g.acked + (u + [x])), c.(unacked := [], pc := AtProcess(x));
      ReachesHandle(v, s, h, cs, i, c, Fine, g', c');
    }
  }

  lemma {:induction false} NewMessage(ms: seq<Msg>) returns (m: Msg)
    ensures m.text && forall x :: x in ms ==> x.id < m.id
  {
    m := Msg(0, true);
    if ms != [] {
      var n := NewMessage(ms[..|ms| - 1]);
      var last := ms[|ms| - 1];
      m := Msg(n.id + last.id + 1, true);
    }
  }

  // A text message has left the broker although its latest delivery was not judged QUEUE_REMOVE.
  ghost predicate LeftUnjudged(g: Shared) {
    exists m :: m in g.acked && m.text && !Removed(g, m)
  }

  // From s, once consumer i has been restarted, some run without further restarts gets there.
  ghost predicate RestartHarms(v: Provider, s: Sys, i: nat, s': Sys) {
    Step(s, Restart(i)).Some? && Reaches(v, Step(s, Restart(i)).value, s') && LeftUnjudged(s'.g)
  }

  // The next message for the restarted consumer: the first on the queue, or one that arrives.
  lemma SomethingToReceive(v: Provider, s: Sys, g: Shared, cs: seq<Consumer>) returns (h: Shared, more: seq<Msg>)
    requires Reaches(v, s, Sys(g, cs)) && forall x :: x in g.pending ==> x in g.arrived
    ensures Reaches(v, s, Sys(h, cs)) && h == g.(pending := g.pending + more, arrived := g.arrived + more)
    ensures h.pending != [] && (h.pending[0] in g.pending || h.pending[0] !in g.arrived)
    ensures h.pending[0].text || (g.pending != [] && h.pending[0] == g.pending[0])
  {
    h, more := g, [];
    if g.pending == [] {
      var a := NewMessage(g.arrived);
      more := [a];
      h := g.(pending := g.pending + more, arrived := g.arrived + more);
      assert a !in g.arrived;
      ReachesEvent(v, s, Sys(g, cs), Arrive(a), Sys(h, cs));
    } else {
      assert g.pending + more == g.pending && g.arrived + more == g.arrived;
    }
  }

  // Where a message in a session is not.
  lemma HeldElsewhere(s: Sys, i: nat, m: Msg)
    requires Partition(s) && i < |s.cs| && m in s.cs[i].unacked
    ensures m !in s.g.pending && m in s.g.arrived && forall x :: x in s.g.pending ==> x in s.g.arrived
  {
    OnePlace(s, i, m);
    CountIn(s.g.pending, m);
    UnackedPart(s.cs, i, m);
    CountIn(s.cs[i].unacked, m);
    CountIn(s.g.arrived, m);
    assert Count(s.g.acked, m) + Unacked(s.cs, m) + Count(s.g.pending, m) == Count(s.g.arrived, m);
    forall x | x in s.g.pending ensures x in s.g.arrived {
      CountIn(s.g.pending, x);
      CountIn(s.g.arrived, x);
      assert Count(s.g.acked, x) + Unacked(s.cs, x) + Count(s.g.pending, x) == Count(s.g.arrived, x);
    }
  }

  lemma DirtyRestart(v: Provider, s: Sys, i: nat, m: Msg)
    requires Partition(s) && s.g.clientAck && s.g.running && i < |s.cs| && Ended(s.cs[i].pc)
    requires m in s.cs[i].unacked && m.text && !Removed(s.g, m)
    ensures exists s' :: RestartHarms(v, s, i, s')
  {
    var s1, u := Step(s, Restart(i)).value, s.cs[i].unacked;
    HeldElsewhere(s, i, m);
    ReachesSelf(v, s1);
    ToReceive(v, s1, s.g, s.cs, i, u);
    var c := Consumer(AtReceive, u, true, 0, 0);
    var h, more := SomethingToReceive(v, s1, s.g, s.cs[i := c]);
    var g', c' := TakesAlong(v, s1, h, s.cs, i, u, h.pending[0]);
    assert m in u + [h.pending[0]] && m in g'.acked;
    assert LeftUnjudged(g');
    assert RestartHarms(v, s, i, Sys(g', s.cs[i := c']));
  }

  lemma {:induction false} NoRestartIsHarmless(s: Sys, es: seq<Event>)
    requires NoRestart(es)
    ensures HarmlessRestarts(s, es) && CleanRestarts(s, es)
  {
    if es != [] {
      assert es[|es| - 1] in es && forall e :: e in es[..|es| - 1] ==> e in es;
      NoRestartIsHarmless(s, es[..|es| - 1]);
    }
  }

  lemma HarmlessContinues(v: Provider, s: Sys, i: nat, s': Sys)
    requires Inv(s) && s.g.clientAck && i < |s.cs| && Ended(s.cs[i].pc) && AllRemoved(s.g, s.cs[i].unacked)
    requires Reaches(v, Step(s, Restart(i)).value, s')
    ensures !LeftUnjudged(s'.g)
  {
    var s1 := Step(s, Restart(i)).value;
    StepKeepsInv(s, Restart(i));
    var es :| Run(s1, es) == Some(s') && NoRestart(es) && Recovers(v, s1, es);
    NoRestartIsHarmless(s1, es);
    RunKeepsInv(s1, es);
    RunKeepsBasic(s1, es);
  }

  // Exactly when a restart is harmless.  In any state reached by harmless restarts only, restarting
  // an ended consumer can make a text message leave without its own QUEUE_REMOVE if and only if the
  // session given back holds a text message whose latest delivery was not judged QUEUE_REMOVE, in
  // whichever order the provider redelivers.
  lemma RestartHarmsIff(v: Provider, s0: Sys, es: seq<Event>, i: nat)
    requires Initial(s0) && s0.g.clientAck && HarmlessRestarts(s0, es) && Run(s0, es).Some?
    requires Run(s0, es).value.g.running && i < |Run(s0, es).value.cs| && Ended(Run(s0, es).value.cs[i].pc)
    ensures
      var s := Run(s0, es).value;
      (exists s' :: RestartHarms(v, s, i, s')) <==> !AllRemoved(s.g, s.cs[i].unacked)
  {
    var s := Run(s0, es).value;
    InitialInv(s0);
    RunKeepsInv(s0, es);
    RunKeepsBasic(s0, es);
    if AllRemoved(s.g, s.cs[i].unacked) {
      forall s' ensures !RestartHarms(v, s, i, s') {
        if RestartHarms(v, s, i, s') { HarmlessContinues(v, s, i, s'); }
      }
    } else {
      var m :| m in s.cs[i].unacked && m.text && !Removed(s.g, m);
      DirtyRestart(v, s, i, m);
    }
  }

  // recover() throws before it has taken effect, and the consumer ends.
  lemma RetryFails(v: Provider, s: Sys, g: Shared, cs: seq<Consumer>, i: nat, u: seq<Msg>, m: Msg)
    requires i < |cs| && g.clientAck && Reaches(v, s, Sys(g, cs[i := Consumer(AtAck(m, QueueRetry), u, true, 0, 0)]))
    ensures Reaches(v, s, Sys(g, cs[i := Consumer(Done, u, true, 1, 0)]))
  {
    var c := Consumer(AtAck(m, QueueRetry), u, true, 0, 0);
    ReachesHandle(v, s, g, cs, i, c, Throw, g, Go(c, Closing));
    ReachesTurn(v, s, g, cs, i, Go(c, Closing), Fine, g, Consumer(Done, u, true, 1, 0));
  }

  // A consumer that ends because recover() threw before it took effect gives its session back with
  // one message in it, judged QUEUE_RETRY: the bound of one message at exit is attained, ...
  lemma OneLeftAtExit(v: Provider, s0: Sys, i: nat) returns (s: Sys, m: Msg)
    requires Initial(s0) && s0.g.clientAck && i < |s0.cs|
    ensures Reaches(v, s0, s) && s.g.running && s.g.clientAck && i < |s.cs| && s.cs[i].pc == Done
    ensures |s.cs| == |s0.cs| && s.cs[i].unacked == [m] && m.text && !Removed(s.g, m) && s.g.pending == []
  {
    m := Msg(0, true);
    var cs := s0.cs;
    var g := s0.g.(pending := [m], arrived := [m]);
    ReachesSelf(v, s0);
    assert s0.g.pending + [m] == [m] && s0.g.arrived + [m] == [m] && cs[i := Consumer(Start, [], false, 0, 0)] == cs;
    ReachesEvent(v, s0, s0, Arrive(m), Sys(g, cs));
    ToReceive(v, s0, g, cs, i, []);
    ToVerdict(v, s0, g, cs, i, [], m, QueueRetry);
    var h := Received(g, m);
    h := h.(latest := h.latest[m := Judged(QueueRetry)]);
    RetryFails(v, s0, h, cs, i, [] + [m], m);
    s := Sys(h, cs[i := Consumer(Done, [] + [m], true, 1, 0)]);
  }

  // ... and after a restart on that session the message leaves although it was to be retried.
  lemma RestartLosesRetry(v: Provider, s0: Sys, i: nat)
    requires Initial(s0) && s0.g.clientAck && i < |s0.cs|
    ensures exists s, s' :: Reaches(v, s0, s) && RestartHarms(v, s, i, s')
  {
    var s, m := OneLeftAtExit(v, s0, i);
    var es :| Run(s0, es) == Some(s) && NoRestart(es) && Recovers(v, s0, es);
    InitialInv(s0);
    RunKeepsBasic(s0, es);
    DirtyRestart(v, s, i, m);
  }

  // ---------------------------------------------------------------- nothing lost, nothing twice

  // Acknowledged, unacknowledged in some session, pending: every arrived message is in one place.
  lemma EveryMessageAccountedFor(s0: Sys, es: seq<Event>, m: Msg)
    requires Initial(s0) && Run(s0, es).Some?
    ensures
      var s := Run(s0, es).value;
      Count(s.g.acked, m) + Unacked(s.cs, m) + Count(s.g.pending, m) == (if m in s.g.arrived then 1 else 0)
  {
    InitialInv(s0);
    RunKeepsBasic(s0, es);
    CountIn(Run(s0, es).value.g.arrived, m);
  }

  // ---------------------------------------------------------------- closing and stopping

  // A run that returns has closed its session exactly once, whatever failed inside; one that ends
  // with an exception has either failed to take a session or failed in that one close.
  lemma ClosesExactlyOnce(s0: Sys, es: seq<Event>, i: nat)
    requires Initial(s0) && Run(s0, es).Some? && i < |Run(s0, es).value.cs|
    ensures
      var c := Run(s0, es).value.cs[i];
      && (c.pc.Done? ==> c.took && c.closes == 1)
      && (c.pc.Aborted? ==> c.closes == if c.took then 1 else 0)
      && (!c.pc.Done? && !c.pc.Aborted? ==> c.closes == 0)
  {
    InitialInv(s0);
    RunKeepsBasic(s0, es);
  }

  // After stop() each consumer begins at most one more receive, because the flag stays down.
  lemma AtMostOneLateReceive(s0: Sys, es: seq<Event>, i: nat)
    requires Initial(s0) && Run(s0, es).Some? && i < |Run(s0, es).value.cs|
    ensures Run(s0, es).value.cs[i].late <= 1
  {
    InitialInv(s0);
    RunKeepsBasic(s0, es);
  }

  // And one there can be: stop() comes after the flag was read and before receive() is called.
  lemma LateReceiveHappens(v: Provider, s0: Sys, i: nat) returns (s: Sys)
    requires Initial(s0) && i < |s0.cs|
    ensures Reaches(v, s0, s) && i < |s.cs| && s.cs[i].late == 1
  {
    var cs, c := s0.cs, Consumer(AtReceive, [], true, 0, 0);
    ReachesSelf(v, s0);
    assert cs[i := Consumer(Start, [], false, 0, 0)] == cs;
    ToReceive(v, s0, s0.g, cs, i, []);
    var g := s0.g.(running := false);
    ReachesEvent(v, s0, Sys(s0.g, cs[i := c]), Stop, Sys(g, cs[i := c]));
    ReachesTurn(v, s0, g, cs, i, c, Timeout, g, c.(pc := LoopHead, late := 1));
    s := Sys(g, cs[i := c.(pc := LoopHead, late := 1)]);
  }

  lemma {:induction false} StoppedStaysStopped(s: Sys, es: seq<Event>)
    requires !s.g.running && Run(s, es).Some?
    ensures !Run(s, es).value.g.running
  {
    if es != [] {
      StoppedStaysStopped(s, es[..|es| - 1]);
      StepFrame(Run(s, es[..|es| - 1]).value, es[|es| - 1]);
    }
  }
}
