/** What a run of one consumer does to the broker, read off the script of its surroundings: which verdicts
    process() gives and how the library calls turn out. */
module ConsumerScript {
  import opened Common
  import opened Consumers

  datatype ReceiveOutcome = TimesOut | ReceiveThrows | Gets

  // What the surroundings do during one iteration of the loop.
  datatype Iteration = Iteration(
    stop: bool,               // stop() is called before the loop condition is read,
    stopLate: bool,           // or after that and before receive()
    arrival: Option<Msg>,     // a message arrives before the loop condition is read,
    arrivalLate: Option<Msg>, // or after that and before receive()
    receive: ReceiveOutcome,
    getTextThrows: bool,      // getText() of a text message
    firstAck: Choice,         // acknowledge() of a non-text message
    verdict: Option<Verdict>, // what process() returns; None if it throws a CMSException
    answer: Choice            // how the final acknowledge() or recover() turns out
  )

  // The queue, what has left it, what the session holds, and all that ever arrived.
  datatype Queue = Queue(pending: seq<Msg>, acked: seq<Msg>, held: seq<Msg>, arrived: seq<Msg>)

  predicate AckFails(o: Choice) {
    o == Throw || o == ThrowApplied
  }

  predicate RecoverFails(o: Choice) {
    o == Throw || (o.Recovered? && o.throws)
  }

  // The order in which recover() puts the messages of the session back.
  function PutBack(o: Choice, held: seq<Msg>): seq<Msg> {
    if o.Recovered? && multiset(o.order) == multiset(held) then o.order else held
  }

  // ---------------------------------------------------------------- one iteration

  predicate Receives(it: Iteration, pending: seq<Msg>) {
    it.receive == Gets && pending != []
  }

  // Message m is handed to process().
  predicate Processes(it: Iteration, m: Msg) {
    if m.text then !it.getTextThrows else !AckFails(it.firstAck)
  }

  // The iteration breaks out of the loop.
  predicate Breaks(it: Iteration, clientAck: bool, pending: seq<Msg>) {
    if Receives(it, pending) then
      || !Processes(it, pending[0]) || it.verdict.None?
      || (clientAck && if it.verdict.value == QueueRemove then AckFails(it.answer) else RecoverFails(it.answer))
    else it.receive == ReceiveThrows
  }

  // Message m leaves the broker, ...
  predicate Leaves(it: Iteration, clientAck: bool, m: Msg) {
    || !clientAck
    || (if m.text then !it.getTextThrows && it.verdict == Some(QueueRemove) && it.answer != Throw
        else it.firstAck != Throw)
  }

  // ... or comes back to the queue.
  predicate ComesBack(it: Iteration, clientAck: bool, m: Msg) {
    clientAck && m.text && !it.getTextThrows && it.verdict == Some(QueueRetry) && it.answer != Throw
  }

  // What an iteration makes of the queue, on a session that holds nothing.
  function Round(it: Iteration, clientAck: bool, q: Queue): Queue {
    if !Receives(it, q.pending) then q
    else
      var m := q.pending[0];
      Queue(if ComesBack(it, clientAck, m) then q.pending else q.pending[1..],
            if Leaves(it, clientAck, m) then q.acked + [m] else q.acked,
            if Leaves(it, clientAck, m) || ComesBack(it, clientAck, m) then [] else [m],
            q.arrived)
  }

  // With client acknowledgement a text message judged QUEUE_REMOVE leaves the queue, one judged
  // QUEUE_RETRY stays first on it, and one whose getText() or process() throws is left in the session; a
  // message that is not a text leaves whatever the verdict; and without a message nothing changes.
  lemma RoundMeans(it: Iteration, q: Queue)
    requires q.held == []
    ensures
      var m := if q.pending == [] then Msg(0, true) else q.pending[0];
      var r, breaks := Round(it, true, q), Breaks(it, true, q.pending);
      && (it.receive == TimesOut ==> r == q && !breaks)
      && (it.receive == ReceiveThrows ==> r == q && breaks)
      && (it.receive == Gets && q.pending == [] ==> r == q && !breaks)
      && (it.receive == Gets && q.pending != [] && m.text && it.getTextThrows ==>
            r == q.(pending := q.pending[1..], held := [m]) && breaks)
      && (it.receive == Gets && q.pending != [] && m.text && !it.getTextThrows ==>
            match it.verdict
            case None => r == q.(pending := q.pending[1..], held := [m]) && breaks
            case Some(QueueRemove) =>
              && (it.answer == Fine ==> r == q.(pending := q.pending[1..], acked := q.acked + [m]) && !breaks)
              && (it.answer == ThrowApplied ==> r == q.(pending := q.pending[1..], acked := q.acked + [m]) && breaks)
              && (it.answer == Throw ==> r == q.(pending := q.pending[1..], held := [m]) && breaks)
            case Some(QueueRetry) =>
              && (it.answer == Recovered([m], false) ==> r == q && !breaks)
              && (it.answer == Recovered([m], true) ==> r == q && breaks)
              && (it.answer == Throw ==> r == q.(pending := q.pending[1..], held := [m]) && breaks))
      && (it.receive == Gets && q.pending != [] && !m.text ==>
            r == if it.firstAck == Throw then q.(pending := q.pending[1..], held := [m])
                 else q.(pending := q.pending[1..], acked := q.acked + [m]))
      && (it.receive == Gets && q.pending != [] && !m.text && it.firstAck == Fine && it.answer == Fine ==>
            (breaks <==> it.verdict.None?))
  {
  }

  // With automatic acknowledgement a message that is received leaves, whatever happens to it.
  lemma AutoRoundMeans(it: Iteration, q: Queue)
    requires q.held == []
    ensures
      var r := Round(it, false, q);
      r == if it.receive == Gets && q.pending != []
           then q.(pending := q.pending[1..], acked := q.acked + [q.pending[0]]) else q
  {
  }

  // ---------------------------------------------------------------- the loop

  // How far the loop has come: the queue, whether stop() has not come yet, and whether the loop is left.
  datatype Course = Course(q: Queue, up: bool, left: bool)

  function Arrives(q: Queue, a: Option<Msg>): Queue {
    if a.Some? && a.value !in q.arrived then q.(pending := q.pending + [a.value], arrived := q.arrived + [a.value])
    else q
  }

  function OneRound(it: Iteration, clientAck: bool, c: Course): Course {
    if c.left then c
    else
      var q, up := Arrives(c.q, it.arrival), c.up && !it.stop;
      if !up then Course(q, false, true)
      else
        var q' := Arrives(q, it.arrivalLate);
        Course(Round(it, clientAck, q'), !it.stopLate, Breaks(it, clientAck, q'.pending))
  }

  function Rounds(its: seq<Iteration>, clientAck: bool, c: Course): Course {
    if its == [] then c else OneRound(its[|its| - 1], clientAck, Rounds(its[..|its| - 1], clientAck, c))
  }

  lemma RoundsOneMore(its: seq<Iteration>, k: nat, clientAck: bool, c: Course)
    requires k < |its|
    ensures Rounds(its[..k + 1], clientAck, c) == OneRound(its[k], clientAck, Rounds(its[..k], clientAck, c))
  {
    assert its[..k + 1][..k] == its[..k];
  }

  // Once the loop is left, further iterations change nothing.
  lemma {:induction false} LeftIsLeft(its: seq<Iteration>, k: nat, clientAck: bool, c: Course)
    requires k <= |its| && Rounds(its[..k], clientAck, c).left
    ensures Rounds(its, clientAck, c) == Rounds(its[..k], clientAck, c)
  {
    if k == |its| {
      assert its[..k] == its;
    } else {
      assert its[..|its| - 1][..k] == its[..k];
      LeftIsLeft(its[..|its| - 1], k, clientAck, c);
    }
  }

  // The iteration gets a message if there is one, and nothing fails or interferes.
  predicate Plain(it: Iteration) {
    && !it.stop && !it.stopLate && it.arrival.None? && it.arrivalLate.None?
    && it.receive == Gets && !it.getTextThrows && it.verdict.Some? && it.answer == Fine
  }

  function Removals(its: seq<Iteration>): nat {
    if its == [] then 0
    else Removals(its[..|its| - 1]) + if its[|its| - 1].verdict == Some(QueueRemove) then 1 else 0
  }

  lemma PlainRound(it: Iteration, q: Queue)
    requires Plain(it) && q.held == [] && (q.pending != [] ==> q.pending[0].text)
    ensures
      var q' := if it.verdict == Some(QueueRemove) && q.pending != []
                then q.(pending := q.pending[1..], acked := q.acked + [q.pending[0]]) else q;
      OneRound(it, true, Course(q, true, false)) == Course(q', true, false)
  {
  }

  // What is left after the first r messages have gone.
  function Gone(q: Queue, r: nat): Queue
    requires r <= |q.pending|
  {
    q.(pending := q.pending[r..], acked := q.acked + q.pending[..r])
  }

  lemma GoneOneMore(q: Queue, r: nat)
    requires r < |q.pending|
    ensures
      var p := Gone(q, r);
      && p.pending != [] && p.pending[0] == q.pending[r]
      && p.(pending := p.pending[1..], acked := p.acked + [p.pending[0]]) == Gone(q, r + 1)
  {
    assert q.acked + q.pending[..r] + [q.pending[r]] == q.acked + q.pending[..r + 1];
  }

  // When nothing fails, r verdicts QUEUE_REMOVE among any number of QUEUE_RETRY acknowledge exactly the
  // first r text messages of the queue, in order, and leave the others.
  lemma {:induction false} RemovalsInOrder(its: seq<Iteration>, q: Queue)
    requires q.held == [] && (forall it :: it in its ==> Plain(it)) && (forall m :: m in q.pending ==> m.text)
    requires Removals(its) <= |q.pending|
    ensures Rounds(its, true, Course(q, true, false)) == Course(Gone(q, Removals(its)), true, false)
  {
    if its == [] {
      assert q.pending[0..] == q.pending && q.acked + q.pending[..0] == q.acked;
    } else {
      var init, it := its[..|its| - 1], its[|its| - 1];
      assert it in its && forall i :: i in init ==> i in its;
      RemovalsInOrder(init, q);
      var r := Removals(init);
      if r < |q.pending| {
        assert q.pending[r] in q.pending;
        GoneOneMore(q, r);
      }
      PlainRound(it, Gone(q, r));
    }
  }
}
