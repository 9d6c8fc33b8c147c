/** Consumers on one queue: the receive / process / acknowledge / recover loop as steps of any
    number of consumers, each with its own session, against one broker. */
module Consumers {
  import opened Common

  datatype Msg = Msg(id: nat, text: bool)  // text: it is a TextMessage

  datatype Verdict = QueueRemove | QueueRetry

  // What is known about the latest delivery of a message.
  datatype Latest = Delivered | Judged(v: Verdict)

  // Program counters of run(), named after the source line about to execute.
  datatype Pc =
    | Start                           // 160
    | SettingUp                       // 163-178
    | LoopHead                        // 180
    | AtReceive                       // 187
    | AtText(m: Msg)                  // 197-206
    | AtProcess(m: Msg)               // 211
    | AtAck(m: Msg, v: Verdict)       // 213-219
    | Closing                         // 233
    | Done                            // returned
    | Aborted                         // an exception left run()

  datatype Consumer = Consumer(
    pc: Pc,
    unacked: seq<Msg>,  // consumed by the session, not acknowledged
    took: bool,         // history: takeSession succeeded
    closes: nat,        // history: calls of session->close()
    late: nat           // history: receives begun after stop()
  )

  datatype Shared = Shared(
    clientAck: bool,           // m_bclientack and the mode of the sessions
    running: bool,             // CDSAMQStopper::isrun()
    pending: seq<Msg>,         // on the queue
    acked: seq<Msg>,           // gone from the broker, in that order
    arrived: seq<Msg>,         // history: everything that ever arrived
    latest: map<Msg, Latest>   // history
  )

  datatype Sys = Sys(g: Shared, cs: seq<Consumer>)

  // How the calls of a step turn out.  An acknowledge that throws may have taken effect; recover
  // puts the unacknowledged messages back in some order.
  datatype Choice =
    | Fine
    | Throw
    | ThrowApplied
    | Timeout
    | Say(v: Verdict)
    | Recovered(order: seq<Msg>, throws: bool)

  // ---------------------------------------------------------------- steps

  function Go(c: Consumer, pc: Pc): Consumer {
    c.(pc := pc)
  }

  // message->acknowledge(): acknowledges everything the session has consumed.
  function Acknowledge(g: Shared, c: Consumer, pc: Pc): (Shared, Consumer) {
    if g.clientAck then (g.(acked := g.acked + c.unacked), c.(unacked := [], pc := pc))
    else (g, Go(c, pc))
  }

  function AckStep(g: Shared, c: Consumer, pc: Pc, o: Choice): Option<(Shared, Consumer)> {
    match o
    case Fine => Some(Acknowledge(g, c, pc))
    case Throw => Some((g, Go(c, Closing)))
    case ThrowApplied => Some(Acknowledge(g, c, Closing))
    case _ => None
  }

  function Receive(g: Shared, c: Consumer): (Shared, Consumer)
    requires g.pending != []
  {
    var m := g.pending[0];
    var h := g.(pending := g.pending[1..], latest := g.latest[m := Delivered]);
    if g.clientAck then (h, c.(unacked := c.unacked + [m], pc := AtText(m)))
    else (h.(acked := g.acked + [m]), Go(c, AtText(m)))
  }

  // session->recover(): what the session has not acknowledged goes back to the front of the queue.
  function Recover(g: Shared, c: Consumer, order: seq<Msg>, throws: bool): (Shared, Consumer) {
    (g.(pending := order + g.pending), c.(unacked := [], pc := if throws then Closing else LoopHead))
  }

  predicate HasMessage(pc: Pc) {
    pc.AtText? || pc.AtProcess? || pc.AtAck?
  }

  // The part of the loop body that deals with a received message.
  function Handle(g: Shared, c: Consumer, o: Choice): Option<(Shared, Consumer)>
    requires HasMessage(c.pc)
  {
    match c.pc
    case AtText(m) =>
      if m.text then
        if o == Fine then Some((g, Go(c, AtProcess(m))))
        else if o == Throw then Some((g, Go(c, Closing)))
        else None
      else AckStep(g, c, AtProcess(m), o)
    case AtProcess(m) =>
      if o.Say? then Some((g.(latest := g.latest[m := Judged(o.v)]), Go(c, AtAck(m, o.v))))
      else if o == Throw then Some((g, Go(c, Closing)))
      else None
    case AtAck(m, v) =>
      if !g.clientAck then (if o == Fine then Some((g, Go(c, LoopHead))) else None)
      else if v == QueueRemove then AckStep(g, c, LoopHead, o)
      else if o == Throw then Some((g, Go(c, Closing)))
      else if o.Recovered? && multiset(o.order) == multiset(c.unacked) then Some(Recover(g, c, o.order, o.throws))
      else None
  }

  // One step of a consumer; None if it is not enabled.
  function Act(g: Shared, c: Consumer, o: Choice): Option<(Shared, Consumer)> {
    match c.pc
    case Start =>
      if o == Fine then Some((g, c.(pc := SettingUp, took := true)))
      else if o == Throw then Some((g, Go(c, Aborted)))
      else None
    case SettingUp =>
      if o == Fine then Some((g, Go(c, LoopHead)))
      else if o == Throw then Some((g, Go(c, Closing)))
      else None
    case LoopHead =>
      if o != Fine then None else Some((g, Go(c, if g.running then AtReceive else Closing)))
    case AtReceive =>
      var d := if g.running then c else c.(late := c.late + 1);
      if o == Timeout then Some((g, Go(d, LoopHead)))
      else if o == Throw then Some((g, Go(d, Closing)))
      else if o == Fine && g.pending != [] then Some(Receive(g, d))
      else None
    case Closing =>
      if o == Fine then Some((g, c.(pc := Done, closes := c.closes + 1)))
      else if o == Throw then Some((g, c.(pc := Aborted, closes := c.closes + 1)))
      else None
    case Done => None
    case Aborted => None
    case _ => Handle(g, c, o)
  }

  // Restart: afterExecute puts a new consumer in the place of one whose run() has ended; it takes the
  // session that the old one gave back to the session pool.
  datatype Event = Arrive(m: Msg) | Stop | Turn(i: nat, o: Choice) | Restart(i: nat)

  predicate Ended(pc: Pc) {
    pc.Done? || pc.Aborted?
  }

  function Step(s: Sys, e: Event): Option<Sys> {
    match e
    case Arrive(m) =>
      if m in s.g.arrived then None
      else Some(s.(g := s.g.(pending := s.g.pending + [m], arrived := s.g.arrived + [m])))
    case Stop => Some(s.(g := s.g.(running := false)))
    case Restart(i) =>
      if i >= |s.cs| || !Ended(s.cs[i].pc) then None
      else Some(s.(cs := s.cs[i := Consumer(Start, s.cs[i].unacked, false, 0, 0)]))
    case Turn(i, o) =>
      if i >= |s.cs| then None
      else
        match Act(s.g, s.cs[i], o)
        case None => None
        case Some((g, c)) => Some(Sys(g, s.cs[i := c]))
  }

  function Run(s: Sys, es: seq<Event>): Option<Sys> {
    if es == [] then Some(s)
    else
      var before := Run(s, es[..|es| - 1]);
      if before.None? then None else Step(before.value, es[|es| - 1])
  }

  // Any number of consumers about to run, each on a session with nothing unacknowledged.
  ghost predicate Initial(s: Sys) {
    && s.g.running && s.g.pending == [] && s.g.acked == [] && s.g.arrived == [] && s.g.latest == map[]
    && forall i :: 0 <= i < |s.cs| ==> s.cs[i] == Consumer(Start, [], false, 0, 0)
  }

  // ---------------------------------------------------------------- invariant

  // The latest delivery of m was judged QUEUE_REMOVE.
  ghost predicate Removed(g: Shared, m: Msg) {
    m in g.latest && g.latest[m] == Judged(QueueRemove)
  }

  // So it was for all text messages among ms.
  ghost predicate AllRemoved(g: Shared, ms: seq<Msg>) {
    forall m :: m in ms && m.text ==> Removed(g, m)
  }

  // The session holds m last, and apart from it only removed messages.
  ghost predicate Holding(g: Shared, c: Consumer, m: Msg) {
    && c.unacked != [] && c.unacked[|c.unacked| - 1] == m
    && AllRemoved(g, c.unacked[..|c.unacked| - 1])
  }

  // What the session holds at each line in client-acknowledge mode.
  ghost predicate SessionOk(g: Shared, c: Consumer) {
    match c.pc
    case AtText(m) => Holding(g, c, m)
    case AtProcess(m) => if m.text then Holding(g, c, m) else c.unacked == []
    case AtAck(m, v) =>
      if m.text then Holding(g, c, m) && m in g.latest && g.latest[m] == Judged(v) else c.unacked == []
    case Closing => c.unacked == [] || AllRemoved(g, c.unacked[..|c.unacked| - 1])
    case Done => c.unacked == [] || AllRemoved(g, c.unacked[..|c.unacked| - 1])
    case Aborted => c.unacked == [] || AllRemoved(g, c.unacked[..|c.unacked| - 1])
    case _ => AllRemoved(g, c.unacked)
  }

  // And how much it holds, as long as no consumer starts on a session that holds more than `most`.
  ghost predicate SessionSmall(c: Consumer, most: nat) {
    |c.unacked| <= most + if HasMessage(c.pc) || c.pc.Closing? || Ended(c.pc) then 1 else 0
  }

  // With automatic acknowledgement the message in hand is gone from the broker.
  ghost predicate AutoOk(g: Shared, c: Consumer) {
    !g.clientAck ==> c.unacked == [] && (HasMessage(c.pc) ==> c.pc.m in g.acked)
  }

  ghost predicate HistoryOk(g: Shared, c: Consumer) {
    && c.closes == (if c.pc.Done? || (c.pc.Aborted? && c.took) then 1 else 0)
    && (c.pc.Start? ==> !c.took) && (!c.pc.Start? && !c.pc.Aborted? ==> c.took)
    && c.late <= 1 && (g.running ==> c.late == 0) && (c.pc.AtReceive? ==> c.late == 0)
  }

  // Text messages leave the broker only with the verdict QueueRemove on their latest delivery.
  ghost predicate AckedOk(g: Shared) {
    g.clientAck ==> AllRemoved(g, g.acked)
  }

  // Occurrences of m in a sequence, and in all sessions together.
  ghost function Count(s: seq<Msg>, m: Msg): nat {
    multiset(s)[m]
  }

  ghost function Unacked(cs: seq<Consumer>, m: Msg): nat {
    if cs == [] then 0 else Unacked(cs[..|cs| - 1], m) + Count(cs[|cs| - 1].unacked, m)
  }

  // Every message that arrived is in exactly one place: acknowledged, unacknowledged in one
  // session, or pending.
  ghost predicate Partition(s: Sys) {
    forall m :: Count(s.g.acked, m) + Unacked(s.cs, m) + Count(s.g.pending, m) == Count(s.g.arrived, m) <= 1
  }

  // What holds in every run ...
  ghost predicate Basic(s: Sys) {
    Partition(s) && forall i :: 0 <= i < |s.cs| ==> HistoryOk(s.g, s.cs[i]) && AutoOk(s.g, s.cs[i])
  }

  // ... and in every run whose restarts are harmless: whatever text message the session of the ended
  // consumer still holds was judged QUEUE_REMOVE.
  ghost predicate Inv(s: Sys) {
    && Basic(s) && AckedOk(s.g)
    && (s.g.clientAck ==> forall i :: 0 <= i < |s.cs| ==> SessionOk(s.g, s.cs[i]))
  }

  ghost predicate Harmless(s: Sys, e: Event) {
    e.Restart? && e.i < |s.cs| ==> AllRemoved(s.g, s.cs[e.i].unacked)
  }

  ghost predicate HarmlessRestarts(s: Sys, es: seq<Event>) {
    es != [] ==>
      var fs := es[..|es| - 1];
      HarmlessRestarts(s, fs) && (Run(s, fs).Some? ==> Harmless(Run(s, fs).value, es[|es| - 1]))
  }

  lemma CountConcat(a: seq<Msg>, b: seq<Msg>, m: Msg)
    ensures Count(a + b, m) == Count(a, m) + Count(b, m)
  {
  }

  lemma CountIn(s: seq<Msg>, m: Msg)
    ensures Count(s, m) > 0 <==> m in s
  {
  }

  lemma {:induction false} UnackedUpdate(cs: seq<Consumer>, i: nat, c: Consumer, m: Msg)
    requires i < |cs|
    ensures Unacked(cs[i := c], m) + Count(cs[i].unacked, m) == Unacked(cs, m) + Count(c.unacked, m)
  {
    var ds := cs[i := c];
    if i == |cs| - 1 {
      assert ds[..i] == cs[..i];
    } else {
      UnackedUpdate(cs[..|cs| - 1], i, c, m);
      assert ds[..|cs| - 1] == cs[..|cs| - 1][i := c];
    }
  }

  lemma {:induction false} UnackedPart(cs: seq<Consumer>, i: nat, m: Msg)
    requires i < |cs|
    ensures Count(cs[i].unacked, m) <= Unacked(cs, m)
  {
    if i < |cs| - 1 { UnackedPart(cs[..|cs| - 1], i, m); }
  }

  lemma UnackedTwo(cs: seq<Consumer>, i: nat, j: nat, m: Msg)
    requires i < |cs| && j < |cs| && i != j
    ensures Count(cs[i].unacked, m) + Count(cs[j].unacked, m) <= Unacked(cs, m)
  {
    var none := cs[i].(unacked := []);
    UnackedUpdate(cs, i, none, m);
    UnackedPart(cs[i := none], j, m);
  }

  // Where a consumer's step can find or put m.
  ghost function Total(g: Shared, c: Consumer, m: Msg): nat {
    Count(g.acked, m) + Count(c.unacked, m) + Count(g.pending, m)
  }

  // The five things a step can do with messages.
  ghost predicate Untouched(g: Shared, c: Consumer, g': Shared, c': Consumer) {
    g'.acked == g.acked && g'.pending == g.pending && c'.unacked == c.unacked
  }

  ghost predicate AcksAll(g: Shared, c: Consumer, g': Shared, c': Consumer) {
    g'.acked == g.acked + c.unacked && g'.pending == g.pending && c'.unacked == []
  }

  ghost predicate Consumes(g: Shared, c: Consumer, g': Shared, c': Consumer) {
    && g.pending != [] && g'.pending == g.pending[1..] && g'.acked == g.acked
    && c'.unacked == c.unacked + [g.pending[0]]
  }

  ghost predicate ConsumesAndAcks(g: Shared, c: Consumer, g': Shared, c': Consumer) {
    && g.pending != [] && g'.pending == g.pending[1..] && g'.acked == g.acked + [g.pending[0]]
    && c'.unacked == c.unacked
  }

  ghost predicate PutsBack(g: Shared, c: Consumer, o: Choice, g': Shared, c': Consumer) {
    && o.Recovered? && multiset(o.order) == multiset(c.unacked)
    && g'.pending == o.order + g.pending && g'.acked == g.acked && c'.unacked == []
  }

  lemma HandleMoves(g: Shared, c: Consumer, o: Choice, g': Shared, c': Consumer)
    requires HasMessage(c.pc) && Handle(g, c, o) == Some((g', c'))
    ensures Untouched(g, c, g', c') || AcksAll(g, c, g', c') || PutsBack(g, c, o, g', c')
  {
  }

  lemma ActMoves(g: Shared, c: Consumer, o: Choice, g': Shared, c': Consumer)
    requires Act(g, c, o) == Some((g', c'))
    ensures || Untouched(g, c, g', c') || AcksAll(g, c, g', c') || PutsBack(g, c, o, g', c')
            || (g.clientAck && Consumes(g, c, g', c')) || (!g.clientAck && ConsumesAndAcks(g, c, g', c'))
  {
    if HasMessage(c.pc) { HandleMoves(g, c, o, g', c'); }
  }

  lemma MovesConserve(g: Shared, c: Consumer, o: Choice, g': Shared, c': Consumer, m: Msg)
    requires || Untouched(g, c, g', c') || AcksAll(g, c, g', c') || PutsBack(g, c, o, g', c')
             || Consumes(g, c, g', c') || ConsumesAndAcks(g, c, g', c')
    ensures Total(g', c', m) == Total(g, c, m)
  {
    if AcksAll(g, c, g', c') {
      CountConcat(g.acked, c.unacked, m);
    } else if PutsBack(g, c, o, g', c') {
      CountConcat(o.order, g.pending, m);
    } else if !Untouched(g, c, g', c') {
      var first := [g.pending[0]];
      assert g.pending == first + g.pending[1..];
      CountConcat(first, g.pending[1..], m);
      CountConcat(c.unacked, first, m);
      CountConcat(g.acked, first, m);
    }
  }

  // A step of a consumer neither loses nor duplicates a message.
  lemma ActConserves(g: Shared, c: Consumer, o: Choice, g': Shared, c': Consumer, m: Msg)
    requires Act(g, c, o) == Some((g', c'))
    ensures Total(g', c', m) == Total(g, c, m)
  {
    ActMoves(g, c, o, g', c');
    MovesConserve(g, c, o, g', c', m);
  }

  lemma ActFrame(g: Shared, c: Consumer, o: Choice, g': Shared, c': Consumer)
    requires Act(g, c, o) == Some((g', c'))
    ensures g'.arrived == g.arrived && g'.clientAck == g.clientAck && g'.running == g.running
  {
  }

  // A message is at most once in a session or on the queue.
  ghost predicate Once(g: Shared, c: Consumer) {
    forall m :: Count(c.unacked, m) + Count(g.pending, m) <= 1
  }

  // What a step does to the latest verdicts: it notes the delivery of the message it takes from the
  // queue, or the verdict on the message in hand.
  ghost predicate Notes(g: Shared, c: Consumer, g': Shared) {
    || g'.latest == g.latest
    || (c.pc.AtReceive? && g.pending != [] && g'.latest == g.latest[g.pending[0] := Delivered])
    || (c.pc.AtProcess? && exists v :: g'.latest == g.latest[c.pc.m := Judged(v)])
  }

  lemma ActNotes(g: Shared, c: Consumer, o: Choice, g': Shared, c': Consumer)
    requires Act(g, c, o) == Some((g', c'))
    ensures Notes(g, c, g')
  {
    if c.pc.AtProcess? && o.Say? {
      assert g'.latest == g.latest[c.pc.m := Judged(o.v)];
    }
  }

  // So the verdict on a text message that is neither in the session nor on the queue stays.
  lemma NotesOwn(g: Shared, c: Consumer, g': Shared, m: Msg)
    requires Notes(g, c, g') && SessionOk(g, c) && m.text
    requires m !in c.unacked && m !in g.pending
    ensures (m in g.latest <==> m in g'.latest) && (m in g.latest ==> g'.latest[m] == g.latest[m])
  {
  }

  // The messages before the last one in a session differ from it and from those on the queue.
  lemma OnceApart(g: Shared, c: Consumer)
    requires Once(g, c) && c.unacked != []
    ensures
      var n := |c.unacked| - 1;
      && c.unacked[n] !in c.unacked[..n]
      && forall m :: m in c.unacked ==> m !in g.pending
  {
    var n := |c.unacked| - 1;
    forall m | m in c.unacked ensures m !in g.pending {
      CountIn(c.unacked, m);
      CountIn(g.pending, m);
    }
    var last := c.unacked[n];
    assert c.unacked == c.unacked[..n] + [last];
    CountConcat(c.unacked[..n], [last], last);
    CountIn(c.unacked[..n], last);
    assert Count(c.unacked, last) <= 1;
  }

  lemma HandleKeepsSession(g: Shared, c: Consumer, o: Choice, g': Shared, c': Consumer)
    requires SessionOk(g, c) && g.clientAck && HasMessage(c.pc) && Handle(g, c, o) == Some((g', c'))
    requires c.unacked != [] ==> c.unacked[|c.unacked| - 1] !in c.unacked[..|c.unacked| - 1]
    ensures SessionOk(g', c')
  {
  }

  lemma ReceiveKeepsSession(g: Shared, c: Consumer, o: Choice, g': Shared, c': Consumer)
    requires SessionOk(g, c) && g.clientAck && c.pc.AtReceive? && Act(g, c, o) == Some((g', c'))
    requires forall m :: m in c.unacked ==> m !in g.pending
    ensures SessionOk(g', c')
  {
    if c'.pc.AtText? {
      assert c'.unacked[..|c'.unacked| - 1] == c.unacked;
    } else {
      assert g' == g && c'.unacked == c.unacked;
    }
  }

  // The acting consumer keeps its own part ...
  lemma ActKeepsSession(g: Shared, c: Consumer, o: Choice, g': Shared, c': Consumer)
    requires SessionOk(g, c) && g.clientAck && Once(g, c) && Act(g, c, o) == Some((g', c'))
    ensures SessionOk(g', c')
  {
    if c.unacked != [] { OnceApart(g, c); }
    if HasMessage(c.pc) {
      HandleKeepsSession(g, c, o, g', c');
    } else if c.pc.AtReceive? {
      ReceiveKeepsSession(g, c, o, g', c');
    }
  }

  lemma HandleKeepsSmall(g: Shared, c: Consumer, o: Choice, g': Shared, c': Consumer, most: nat)
    requires HasMessage(c.pc) && |c.unacked| <= most + 1 && Handle(g, c, o) == Some((g', c'))
    requires !g.clientAck ==> c.unacked == []
    ensures SessionSmall(c', most)
  {
  }

  lemma ActKeepsSmall(g: Shared, c: Consumer, o: Choice, g': Shared, c': Consumer, most: nat)
    requires SessionSmall(c, most) && AutoOk(g, c) && Act(g, c, o) == Some((g', c'))
    ensures SessionSmall(c', most)
  {
    if HasMessage(c.pc) { HandleKeepsSmall(g, c, o, g', c', most); }
  }

  lemma ActKeepsHistory(g: Shared, c: Consumer, o: Choice, g': Shared, c': Consumer)
    requires HistoryOk(g, c) && Act(g, c, o) == Some((g', c'))
    ensures HistoryOk(g', c')
  {
  }

  lemma ActKeepsAuto(g: Shared, c: Consumer, o: Choice, g': Shared, c': Consumer)
    requires AutoOk(g, c) && Act(g, c, o) == Some((g', c'))
    ensures AutoOk(g', c') && forall m :: m in g.acked ==> m in g'.acked
  {
    ActMoves(g, c, o, g', c');
    ActFrame(g, c, o, g', c');
  }

  // ... and it makes text messages leave only by the acknowledge of a QUEUE_REMOVE or of a non-text
  // message, and only such as were themselves removed.
  lemma ActAcksJudged(g: Shared, c: Consumer, o: Choice, g': Shared, c': Consumer, m: Msg)
    requires SessionOk(g, c) && g.clientAck && m.text
    requires Act(g, c, o) == Some((g', c'))
    requires m in g'.acked && m !in g.acked
    ensures (c.pc.AtAck? && c.pc.v == QueueRemove) || (c.pc.AtText? && !c.pc.m.text)
    ensures m in c.unacked && g'.latest == g.latest && Removed(g', m)
  {
    assert HasMessage(c.pc);
    assert g'.acked == g.acked + c.unacked;
    assert c.unacked == c.unacked[..|c.unacked| - 1] + [c.unacked[|c.unacked| - 1]];
  }

  lemma ArriveSplits(s: Sys, a: Msg, m: Msg)
    requires Partition(s) && a !in s.g.arrived
    ensures Count(s.g.acked, m) + Unacked(s.cs, m) + Count(s.g.pending + [a], m) == Count(s.g.arrived + [a], m) <= 1
  {
    assert Count(s.g.acked, m) + Unacked(s.cs, m) + Count(s.g.pending, m) == Count(s.g.arrived, m) <= 1;
    CountConcat(s.g.pending, [a], m);
    CountConcat(s.g.arrived, [a], m);
    CountIn(s.g.arrived, a);
  }

  lemma TurnSplits(s: Sys, i: nat, o: Choice, g': Shared, c': Consumer, m: Msg)
    requires Partition(s) && i < |s.cs| && Act(s.g, s.cs[i], o) == Some((g', c'))
    ensures Count(g'.acked, m) + Unacked(s.cs[i := c'], m) + Count(g'.pending, m) == Count(g'.arrived, m) <= 1
  {
    assert Count(s.g.acked, m) + Unacked(s.cs, m) + Count(s.g.pending, m) == Count(s.g.arrived, m) <= 1;
    ActConserves(s.g, s.cs[i], o, g', c', m);
    ActFrame(s.g, s.cs[i], o, g', c');
    UnackedUpdate(s.cs, i, c', m);
  }

  lemma StepPartition(s: Sys, e: Event)
    requires Partition(s) && Step(s, e).Some?
    ensures Partition(Step(s, e).value)
  {
    match e
    case Arrive(a) =>
      forall m { ArriveSplits(s, a, m); }
    case Stop =>
    case Turn(i, o) =>
      var (g', c') := Act(s.g, s.cs[i], o).value;
      forall m { TurnSplits(s, i, o, g', c', m); }
    case Restart(i) =>
      forall m { UnackedUpdate(s.cs, i, Step(s, e).value.cs[i], m); }
  }

  // A message in one place is in no other.
  lemma OnePlace(s: Sys, i: nat, m: Msg)
    requires Partition(s) && i < |s.cs|
    ensures m in s.g.acked || (exists j :: 0 <= j < |s.cs| && j != i && m in s.cs[j].unacked) ==>
      Count(s.cs[i].unacked, m) == 0 && Count(s.g.pending, m) == 0
    ensures m in s.cs[i].unacked ==> Count(s.g.pending, m) == 0 && m !in s.g.acked
  {
    assert Count(s.g.acked, m) + Unacked(s.cs, m) + Count(s.g.pending, m) <= 1;
    CountIn(s.g.acked, m);
    UnackedPart(s.cs, i, m);
    CountIn(s.cs[i].unacked, m);
    if j :| 0 <= j < |s.cs| && j != i && m in s.cs[j].unacked {
      CountIn(s.cs[j].unacked, m);
      UnackedTwo(s.cs, i, j, m);
    }
  }

  lemma OnceHere(s: Sys, i: nat)
    requires Partition(s) && i < |s.cs|
    ensures Once(s.g, s.cs[i])
  {
    forall m ensures Count(s.cs[i].unacked, m) + Count(s.g.pending, m) <= 1 {
      assert Count(s.g.acked, m) + Unacked(s.cs, m) + Count(s.g.pending, m) <= 1;
      UnackedPart(s.cs, i, m);
    }
  }

  // Messages in other places keep their verdicts.
  lemma RemovedStay(s: Sys, i: nat, g': Shared, ms: seq<Msg>)
    requires Partition(s) && i < |s.cs| && SessionOk(s.g, s.cs[i]) && Notes(s.g, s.cs[i], g')
    requires AllRemoved(s.g, ms)
    requires forall m :: m in ms ==> Count(s.cs[i].unacked, m) == 0 && Count(s.g.pending, m) == 0
    ensures AllRemoved(g', ms)
  {
    forall m | m in ms && m.text ensures Removed(g', m) {
      CountIn(s.cs[i].unacked, m);
      CountIn(s.g.pending, m);
      NotesOwn(s.g, s.cs[i], g', m);
    }
  }

  lemma OthersKeep(s: Sys, i: nat, o: Choice, j: nat, g': Shared, c': Consumer)
    requires Inv(s) && s.g.clientAck && i < |s.cs| && j < |s.cs| && i != j
    requires Act(s.g, s.cs[i], o) == Some((g', c'))
    ensures SessionOk(g', s.cs[j])
  {
    ActNotes(s.g, s.cs[i], o, g', c');
    var d := s.cs[j];
    forall m | m in d.unacked ensures Count(s.cs[i].unacked, m) == 0 && Count(s.g.pending, m) == 0 {
      OnePlace(s, i, m);
    }
    if d.unacked != [] {
      var n := |d.unacked| - 1;
      if AllRemoved(s.g, d.unacked[..n]) { RemovedStay(s, i, g', d.unacked[..n]); }
      if AllRemoved(s.g, d.unacked) { RemovedStay(s, i, g', d.unacked); }
      CountIn(s.cs[i].unacked, d.unacked[n]);
      CountIn(s.g.pending, d.unacked[n]);
      if d.unacked[n].text { NotesOwn(s.g, s.cs[i], g', d.unacked[n]); }
    }
  }

  lemma AckedKeeps(s: Sys, i: nat, o: Choice, g': Shared, c': Consumer)
    requires Inv(s) && i < |s.cs|
    requires Act(s.g, s.cs[i], o) == Some((g', c'))
    ensures AckedOk(g')
  {
    ActFrame(s.g, s.cs[i], o, g', c');
    ActNotes(s.g, s.cs[i], o, g', c');
    if s.g.clientAck {
      forall m | m in s.g.acked ensures Count(s.cs[i].unacked, m) == 0 && Count(s.g.pending, m) == 0 {
        OnePlace(s, i, m);
      }
      RemovedStay(s, i, g', s.g.acked);
      forall m | m in g'.acked && m.text ensures Removed(g', m) {
        if m !in s.g.acked { ActAcksJudged(s.g, s.cs[i], o, g', c', m); }
      }
    }
  }

  // Every event keeps the basic part, ...
  lemma StepKeepsBasic(s: Sys, e: Event)
    requires Basic(s) && Step(s, e).Some?
    ensures Basic(Step(s, e).value)
  {
    StepPartition(s, e);
    if e.Turn? {
      var (g', c') := Act(s.g, s.cs[e.i], e.o).value;
      ActFrame(s.g, s.cs[e.i], e.o, g', c');
      ActKeepsHistory(s.g, s.cs[e.i], e.o, g', c');
      ActKeepsAuto(s.g, s.cs[e.i], e.o, g', c');
    }
  }

  // ... and every event but a harmful restart keeps the whole invariant.
  lemma StepKeepsInv(s: Sys, e: Event)
    requires Inv(s) && Harmless(s, e) && Step(s, e).Some?
    ensures Inv(Step(s, e).value)
  {
    StepKeepsBasic(s, e);
    if e.Turn? {
      var (g', c') := Act(s.g, s.cs[e.i], e.o).value;
      AckedKeeps(s, e.i, e.o, g', c');
      ActFrame(s.g, s.cs[e.i], e.o, g', c');
      if s.g.clientAck {
        OnceHere(s, e.i);
        ActKeepsSession(s.g, s.cs[e.i], e.o, g', c');
        forall j | 0 <= j < |s.cs| && j != e.i ensures SessionOk(g', s.cs[j]) {
          OthersKeep(s, e.i, e.o, j, g', c');
        }
      }
    } else {
      assert Step(s, e).value.g.latest == s.g.latest;
    }
  }

  lemma {:induction false} NothingUnacked(cs: seq<Consumer>, m: Msg)
    requires forall i :: 0 <= i < |cs| ==> cs[i].unacked == []
    ensures Unacked(cs, m) == 0
  {
    if cs != [] { NothingUnacked(cs[..|cs| - 1], m); }
  }

  lemma InitialInv(s: Sys)
    requires Initial(s)
    ensures Inv(s)
  {
    forall m ensures Unacked(s.cs, m) == 0 {
      NothingUnacked(s.cs, m);
    }
  }

  lemma StepFrame(s: Sys, e: Event)
    requires Step(s, e).Some?
    ensures |Step(s, e).value.cs| == |s.cs| && Step(s, e).value.g.clientAck == s.g.clientAck
    ensures !s.g.running ==> !Step(s, e).value.g.running
  {
    if e.Turn? {
      var (g', c') := Act(s.g, s.cs[e.i], e.o).value;
      ActFrame(s.g, s.cs[e.i], e.o, g', c');
    }
  }

  lemma {:induction false} RunKeepsBasic(s: Sys, es: seq<Event>)
    requires Basic(s) && Run(s, es).Some?
    ensures Basic(Run(s, es).value) && |Run(s, es).value.cs| == |s.cs| && Run(s, es).value.g.clientAck == s.g.clientAck
  {
    if es != [] {
      RunKeepsBasic(s, es[..|es| - 1]);
      StepKeepsBasic(Run(s, es[..|es| - 1]).value, es[|es| - 1]);
      StepFrame(Run(s, es[..|es| - 1]).value, es[|es| - 1]);
    }
  }

  lemma {:induction false} RunKeepsInv(s: Sys, es: seq<Event>)
    requires Inv(s) && HarmlessRestarts(s, es) && Run(s, es).Some?
    ensures Inv(Run(s, es).value)
  {
    if es != [] {
      RunKeepsInv(s, es[..|es| - 1]);
      StepKeepsInv(Run(s, es[..|es| - 1]).value, es[|es| - 1]);
    }
  }
}
