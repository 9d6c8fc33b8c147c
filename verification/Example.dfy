/** The example program's producer run: n threads, ten messages each, no library failure. */
module Example {
  import opened Common
  import opened PoolSpec
  import opened Producers
  import opened Manager
  import opened ManagerTheorems
  import opened ManagerCalls
  import PoolManagers
  import opened ProducerPools

  const PER_THREAD: nat := 10  // nMessageCnt

  // ---------------------------------------------------------------- message texts

  function Digit(d: nat): char
    requires d < 10
  {
    (0x30 + d) as char
  }

  function Decimal(n: nat): (s: string)
    ensures s != []
  {
    if n < 10 then [Digit(n)] else Decimal(n / 10) + [Digit(n % 10)]
  }

  const PREFIX: string := "send message #"

  function Message(n: nat): string {
    PREFIX + Decimal(n)
  }

  // What a string of digits denotes.
  predicate AllDigits(s: string) {
    forall i :: 0 <= i < |s| ==> '0' <= s[i] <= '9'
  }

  function Value(s: string): nat
    requires AllDigits(s)
  {
    if s == "" then 0
    else 10 * Value(s[..|s| - 1]) + (s[|s| - 1] as nat - '0' as nat)
  }

  // The decimal text of n reads as n, and begins with a zero only if it is "0".
  lemma {:induction false} DecimalReads(n: nat)
    ensures AllDigits(Decimal(n)) && Value(Decimal(n)) == n
    ensures Decimal(n)[0] == '0' ==> n == 0 && Decimal(n) == "0"
  {
    var s := Decimal(n);
    if n >= 10 {
      DecimalReads(n / 10);
      assert s[..|s| - 1] == Decimal(n / 10) && s[|s| - 1] == Digit(n % 10);
      assert s[0] == Decimal(n / 10)[0];
    } else {
      assert s[..0] == "";
      assert n == 0 ==> s == "0";
    }
  }

  lemma DecimalInjective(a: nat, b: nat)
    requires Decimal(a) == Decimal(b)
    ensures a == b
  {
    DecimalReads(a);
    DecimalReads(b);
  }

  // The text of message n: the words, and then n in decimal.
  lemma MessageReads(n: nat)
    ensures "send message #" <= Message(n) && |Message(n)| > 14
    ensures
      var s := Message(n)[14..];
      AllDigits(s) && Value(s) == n && (s[0] == '0' ==> s == "0")
  {
    assert |PREFIX| == 14 && Message(n)[14..] == Decimal(n);
    DecimalReads(n);
  }

  lemma MessageInjective(a: nat, b: nat)
    requires Message(a) == Message(b)
    ensures a == b
  {
    MessageReads(a);
    MessageReads(b);
  }

  // ---------------------------------------------------------------- the program

  // The number of message i of thread t.
  function Number(t: Tid, i: nat): nat {
    PER_THREAD * t + i
  }

  // The set-up loop of main: the first message number of each thread.
  method Starts(nThreadCnt: int) returns (starts: seq<int>)
    ensures |starts| == if nThreadCnt < 0 then 0 else nThreadCnt
    ensures forall t: Tid :: t < |starts| ==> starts[t] == Number(t, 0) == 10 * t
  {
    starts := [];
    var offset, i := 0, 0;
    while i < nThreadCnt
      invariant i == |starts| && (i <= nThreadCnt || i == 0) && offset == PER_THREAD * i
      invariant forall t: Tid :: t < |starts| ==> starts[t] == Number(t, 0)
    {
      starts := starts + [offset];
      offset := offset + 10;
      i := i + 1;
    }
  }

  // The texts the threads send; the program's are given by Message.
  type Texts = nat -> string

  ghost predicate Proper(msg: Texts) {
    (forall j :: msg(j) != "") && forall i, j :: msg(i) == msg(j) ==> i == j
  }

  lemma MessagesAreProper()
    ensures Proper(Message)
  {
    forall i, j | Message(i) == Message(j) ensures i == j {
      MessageInjective(i, j);
    }
  }

  // calls[t]: how many of its ten calls thread t has finished.
  datatype Prog = Prog(mgr: State, calls: seq<nat>)

  const TARGET: Destination := Queue("TEST.FOO")

  function PoolSize(n: nat): nat {
    if n > MAX_POOL then MAX_POOL else n
  }

  // After CreatePool and CreateSessionPool in main.
  function Start(n: nat): Prog {
    Prog(State(
           Shared(true, TARGET, Pool(PoolSize(n), {}, 0), map[], true, Some(0), Some(0), None, [], 1, 1, map[], {}),
           map t | t in SlotsBelow(n) :: Out(NoCall)),
         seq(n, i => 0))
  }

  const BROKER_URI: string :=
    "failover://(tcp://127.0.0.1:61616)?startupMaxReconnectAttempts=0&timeout=3000&connection.sendTimeout=5000"

  // main up to the start of the threads, when no library call fails: it leads to Start.  A negative
  // count becomes a large unsigned one, which is cut to 50; no thread is started then.
  method SetUp(nThreadCnt: int) returns (m: PoolManagers.PoolManager, ok: bool)
    requires -0x8000_0000 <= nThreadCnt < 0x8000_0000
    ensures ok && fresh(m) && m.created && m.started
    ensures m.destURI == "TEST.FOO" && m.brokerURI == BROKER_URI && !m.useTopic && m.clientAck
    ensures nThreadCnt >= 0 ==> m.Fields() == Start(nThreadCnt).mgr.g
  {
    m := new PoolManagers.PoolManager();
    ok := m.CreatePool(if nThreadCnt < 0 then nThreadCnt + UINT else nThreadCnt, BROKER_URI, "TEST.FOO", true);
    if ok {
      var r := m.CreateSessionPool(ConnectScript(false, false, false, false));
      ok := r == Returned(true);
    }
  }

  // One step of thread t: its next call, or the next step of the call it is in.
  function ProgStep(msg: Texts, p: Prog, t: Tid): Option<Prog> {
    if t >= |p.calls| || t !in p.mgr.threads then None
    else if p.mgr.threads[t].Out? then
      if p.calls[t] >= PER_THREAD then None
      else
        match Step(p.mgr, t, Call(msg(Number(t, p.calls[t]))))
        case None => None
        case Some(s) => Some(p.(mgr := s))
    else
      match Step(p.mgr, t, Fine)
      case None => None
      case Some(s) =>
        Some(Prog(s, if t in s.threads && s.threads[t].Out? then p.calls[t := p.calls[t] + 1] else p.calls))
  }

  function ProgRun(msg: Texts, p: Prog, ts: seq<Tid>): Option<Prog> {
    if ts == [] then Some(p)
    else
      var before := ProgRun(msg, p, ts[..|ts| - 1]);
      if before.None? then None else ProgStep(msg, before.value, ts[|ts| - 1])
  }

  ghost predicate Finished(p: Prog) {
    forall t :: 0 <= t < |p.calls| ==> p.calls[t] == PER_THREAD && t in p.mgr.threads && p.mgr.threads[t].Out?
  }

  // ---------------------------------------------------------------- invariant

  // Where thread t can be while its call number `calls` is in progress, and how far that is.
  ghost predicate OnPath(pc: Pc, text: string, n: nat) {
    match pc
    case AtFlag(x) => x == text
    case AtTake(x, _) => x == text
    case AtAlloc(x) => x == text
    case AtDest(x, _) => x == text
    case AtSend(x, _) => x == text
    case AtClose(_, sent) => sent
    case AtFree(_, sent) => sent
    case AtOverflowClose => n > MAX_POOL
    case _ => false
  }

  ghost function Stage(pc: Pc): nat {
    match pc
    case AtFlag(_) => 1
    case AtTake(_, _) => 2
    case AtAlloc(_) => 3
    case AtDest(_, _) => 4
    case AtSend(_, _) => 5
    case AtClose(_, _) => 6
    case AtFree(_, _) => 7
    case AtOverflowClose => 4
    case _ => 0
  }

  // The steps a thread has done, eight for each finished call.
  ghost function Work(pc: Pc, calls: nat): nat {
    8 * calls + Stage(pc)
  }

  // With n threads in the program; only with more than 50 of them can a call return false.
  ghost predicate ThreadOk(msg: Texts, pc: Pc, t: Tid, calls: nat, n: nat) {
    if pc.Out? then
      && calls <= PER_THREAD
      && (if calls == 0 then pc.result == NoCall
          else pc.result == Returned(true) || (n > MAX_POOL && pc.result == Returned(false)))
    else calls < PER_THREAD && OnPath(pc, msg(Number(t, calls)), n)
  }

  // How many of its messages thread t has put on the queue.
  ghost function SentBy(pc: Pc, calls: nat): nat {
    calls + if pc.AtClose? || pc.AtFree? then 1 else 0
  }

  ghost predicate Smooth(g: Shared, n: nat) {
    && g.created && g.flag && g.sessions.Some? && g.mutex == None && g.stranded == {}
    && g.pool.size == PoolSize(n) && g.target == TARGET
  }

  function Sent(msg: Texts, j: nat): Delivery {
    Delivery(TARGET, msg(j))
  }

  // Message i of thread t.
  function SentAs(msg: Texts, t: Tid, i: nat): Delivery {
    Sent(msg, Number(t, i))
  }

  lemma SentAsInjective(msg: Texts, t: Tid, i: nat, u: Tid, k: nat)
    requires Proper(msg) && i < PER_THREAD && k < PER_THREAD && SentAs(msg, t, i) == SentAs(msg, u, k)
    ensures t == u && i == k
  {
    assert msg(Number(t, i)) == msg(Number(u, k));
  }

  ghost predicate FromThreads(msg: Texts, x: Delivery, n: nat) {
    exists t, i :: 0 <= t < n && 0 <= i < PER_THREAD && x == SentAs(msg, t, i)
  }

  ghost predicate CountOk(msg: Texts, log: seq<Delivery>, t: Tid, i: nat, sent: nat) {
    multiset(log)[SentAs(msg, t, i)] == if i < sent then 1 else 0
  }

  // Only messages of the n threads are on the queue, and message i of thread t is there once if
  // the thread has sent it and not at all otherwise.
  ghost predicate LogOk(msg: Texts, log: seq<Delivery>, sent: seq<nat>) {
    && (forall x :: 0 <= x < |log| ==> FromThreads(msg, log[x], |sent|))
    && forall t, i :: 0 <= t < |sent| && 0 <= i < PER_THREAD ==> CountOk(msg, log, t, i, sent[t])
  }

  lemma CountGrows(msg: Texts, log: seq<Delivery>, t: Tid, sent: nat, u: Tid, i: nat, sentU: nat)
    requires Proper(msg) && CountOk(msg, log, u, i, sentU) && i < PER_THREAD && sent < PER_THREAD
    requires u == t ==> sentU == sent
    ensures CountOk(msg, log + [SentAs(msg, t, sent)], u, i, if u == t then sent + 1 else sentU)
  {
    var x := SentAs(msg, t, sent);
    assert multiset(log + [x]) == multiset(log) + multiset{x};
    if SentAs(msg, u, i) == x { SentAsInjective(msg, u, i, t, sent); }
  }

  lemma LogGrows(msg: Texts, log: seq<Delivery>, sent: seq<nat>, t: Tid)
    requires Proper(msg) && LogOk(msg, log, sent) && t < |sent| && sent[t] < PER_THREAD
    ensures LogOk(msg, log + [SentAs(msg, t, sent[t])], sent[t := sent[t] + 1])
  {
    var log', sent' := log + [SentAs(msg, t, sent[t])], sent[t := sent[t] + 1];
    assert FromThreads(msg, SentAs(msg, t, sent[t]), |sent|);
    forall u, i | 0 <= u < |sent'| && 0 <= i < PER_THREAD ensures CountOk(msg, log', u, i, sent'[u]) {
      CountGrows(msg, log, t, sent[t], u, i, sent[u]);
    }
  }

  ghost predicate Total(p: Prog, n: nat) {
    |p.calls| == n && forall t: nat :: t in p.mgr.threads <==> t < n
  }

  ghost predicate ThreadsOk(msg: Texts, p: Prog, n: nat) {
    && Total(p, n)
    && (forall t: nat :: t < n ==> ThreadOk(msg, p.mgr.threads[t], t, p.calls[t], n))
  }

  ghost predicate ProgInv(msg: Texts, p: Prog, n: nat) {
    Inv(p.mgr) && Smooth(p.mgr.g, n) && ThreadsOk(msg, p, n)
  }

  ghost predicate Worked(p: Prog, n: nat, work: seq<nat>) {
    Total(p, n) && |work| == n && forall t: nat :: t < n ==> work[t] == Work(p.mgr.threads[t], p.calls[t])
  }

  // Per thread: messages sent, and steps done.
  ghost predicate Tallied(p: Prog, n: nat, sent: seq<nat>, work: seq<nat>) {
    && Worked(p, n, work) && |sent| == n
    && forall t: nat :: t < n ==> sent[t] == SentBy(p.mgr.threads[t], p.calls[t])
  }

  lemma QuietState(s: State)
    requires SharedInv(s.g) && s.g.mutex == None && s.g.owner == map[]
    requires forall t :: t in s.threads ==> s.threads[t].Out?
    ensures Quiet(s)
  {
  }

  // The program's start is one of the quiet states that the theorems about the manager start from.
  lemma StartIsQuiet(n: nat)
    ensures Quiet(Start(n).mgr)
  {
    var s := Start(n).mgr;
    assert forall t :: t in s.threads ==> s.threads[t] == Out(NoCall);
    QuietState(s);
  }

  lemma StartInv(msg: Texts, n: nat)
    ensures ProgInv(msg, Start(n), n)
  {
    StartIsQuiet(n);
  }

  // What thread t does next.
  ghost function NextChoice(msg: Texts, pc: Pc, t: Tid, calls: nat): Choice {
    if pc.Out? then Call(msg(Number(t, calls))) else Fine
  }

  ghost function CallsAfter(pc: Pc, pc': Pc, calls: nat): nat {
    if !pc.Out? && pc'.Out? then calls + 1 else calls
  }

  // A step adds to the thread's work, and sends its current message if it is at the send.
  ghost predicate Moves(msg: Texts, log: seq<Delivery>, t: Tid, pc: Pc, calls: nat,
                        log': seq<Delivery>, pc': Pc, calls': nat) {
    && log' == (if pc.AtSend? then log + [SentAs(msg, t, calls)] else log)
    && (pc.AtSend? ==> SentBy(pc, calls) == calls < PER_THREAD)
    && SentBy(pc', calls') >= SentBy(pc, calls) + (if pc.AtSend? then 1 else 0)
    && Work(pc', calls') > Work(pc, calls) && calls' >= calls
  }

  // On the straight path it adds exactly one, and no message is passed over.
  ghost predicate Advanced(pc: Pc, calls: nat, pc': Pc, calls': nat) {
    && SentBy(pc', calls') == SentBy(pc, calls) + (if pc.AtSend? then 1 else 0)
    && Work(pc', calls') == Work(pc, calls) + 1
  }

  lemma HolderPath(msg: Texts, g: Shared, t: Tid, pc: Pc, calls: nat, n: nat) returns (g': Shared, pc': Pc)
    requires Proper(msg) && Smooth(g, n) && ThreadOk(msg, pc, t, calls, n) && Holds(pc)
    requires StoreShared(g) && StoreThread(g, t, pc)
    ensures HolderStep(g, pc, Fine) == Some((g', pc'))
    ensures Smooth(g', n) && ThreadOk(msg, pc', t, CallsAfter(pc, pc', calls), n)
    ensures Moves(msg, g.log, t, pc, calls, g'.log, pc', CallsAfter(pc, pc', calls))
    ensures Advanced(pc, calls, pc', CallsAfter(pc, pc', calls))
  {
    assert msg(Number(t, calls)) != "";
    var r := HolderStep(g, pc, Fine).value;
    g', pc' := r.0, r.1;
  }

  lemma OpenPath(msg: Texts, g: Shared, t: Tid, pc: Pc, calls: nat, n: nat) returns (g': Shared, pc': Pc)
    requires Smooth(g, n) && ThreadOk(msg, pc, t, calls, n) && !Holds(pc)
    requires pc.Out? ==> calls < PER_THREAD
    requires pc.AtAlloc? && n <= MAX_POOL ==> AllocateSlot(g.pool).1.Slot?
    ensures !Locked(pc) && OpenStep(g, t, pc, NextChoice(msg, pc, t, calls), false) == Some((g', pc'))
    ensures Smooth(g', n) && ThreadOk(msg, pc', t, CallsAfter(pc, pc', calls), n)
    ensures Moves(msg, g.log, t, pc, calls, g'.log, pc', CallsAfter(pc, pc', calls))
    ensures n <= MAX_POOL ==> Advanced(pc, calls, pc', CallsAfter(pc, pc', calls))
  {
    var r := OpenStep(g, t, pc, NextChoice(msg, pc, t, calls), false).value;
    g', pc' := r.0, r.1;
  }

  // With a started connection, a thread moves along the path; along the straight one if there is a
  // slot for every thread.
  lemma PathStep(msg: Texts, g: Shared, t: Tid, pc: Pc, calls: nat, n: nat) returns (g': Shared, pc': Pc, calls': nat)
    requires Proper(msg) && Smooth(g, n) && ThreadOk(msg, pc, t, calls, n) && StoreShared(g) && StoreThread(g, t, pc)
    requires pc.Out? ==> calls < PER_THREAD
    requires pc.AtAlloc? && n <= MAX_POOL ==> AllocateSlot(g.pool).1.Slot?
    ensures Local(g, t, pc, NextChoice(msg, pc, t, calls), false) == Some((g', pc'))
    ensures calls' == CallsAfter(pc, pc', calls) && Smooth(g', n) && ThreadOk(msg, pc', t, calls', n)
    ensures Moves(msg, g.log, t, pc, calls, g'.log, pc', calls')
    ensures n <= MAX_POOL ==> Advanced(pc, calls, pc', calls')
  {
    if Holds(pc) {
      g', pc' := HolderPath(msg, g, t, pc, calls, n);
    } else {
      g', pc' := OpenPath(msg, g, t, pc, calls, n);
    }
    calls' := CallsAfter(pc, pc', calls);
  }

  lemma RoomForEveryThread(s: State, n: nat, t: Tid)
    requires Inv(s) && Smooth(s.g, n) && t < n <= MAX_POOL && (forall u: nat :: u in s.threads <==> u < n)
    requires s.threads[t].AtAlloc?
    ensures AllocateSlot(s.g.pool).1.Slot?
  {
    SlotAccounting(s);
    var others := SlotsBelow(n) - {t};
    assert t in SlotsBelow(n) && |others| == n - 1;
    assert Holders(s.threads) <= others;
    SubsetSmaller(Holders(s.threads), others);
    OverflowIffFull(s.g.pool);
  }

  function Moved(p: Prog, t: Tid, g': Shared, pc': Pc, calls': nat): Prog
    requires t < |p.calls|
  {
    Prog(State(g', p.mgr.threads[t := pc']), p.calls[t := calls'])
  }

  lemma ProgStepIs(msg: Texts, p: Prog, n: nat, t: Tid, g': Shared, pc': Pc)
    requires |p.calls| == n && t < n && t in p.mgr.threads && p.mgr.g.mutex == None && p.calls[t] < PER_THREAD
    requires
      var pc := p.mgr.threads[t];
      && Local(p.mgr.g, t, pc, NextChoice(msg, pc, t, p.calls[t]), false) == Some((g', pc'))
      && (pc.Out? ==> !pc'.Out?)
    ensures
      var pc := p.mgr.threads[t];
      && ProgStep(msg, p, t) == Some(Moved(p, t, g', pc', CallsAfter(pc, pc', p.calls[t])))
      && Step(p.mgr, t, NextChoice(msg, pc, t, p.calls[t])) == Some(State(g', p.mgr.threads[t := pc']))
  {
    assert !WindowOpen(p.mgr);
    assert p.calls[t := p.calls[t]] == p.calls;
  }

  lemma MovedThreads(msg: Texts, p: Prog, n: nat, t: Tid, g': Shared, pc': Pc, calls': nat)
    requires ThreadsOk(msg, p, n) && t < n && ThreadOk(msg, pc', t, calls', n)
    ensures ThreadsOk(msg, Moved(p, t, g', pc', calls'), n)
  {
    var p' := Moved(p, t, g', pc', calls');
    forall u: nat | u < n ensures ThreadOk(msg, p'.mgr.threads[u], u, p'.calls[u], n) {
      if u != t { assert ThreadOk(msg, p.mgr.threads[u], u, p.calls[u], n); }
    }
  }

  // Where a thread can go on.
  ghost predicate Unfinished(p: Prog, n: nat, t: Tid) {
    Total(p, n) && t < n && !(p.mgr.threads[t].Out? && p.calls[t] == PER_THREAD)
  }

  // Thread t takes its next step, which keeps the manager's invariant ...
  lemma ProgStepTo(msg: Texts, p: Prog, n: nat, t: Tid) returns (g': Shared, pc': Pc, calls': nat)
    requires Proper(msg) && ProgInv(msg, p, n) && Unfinished(p, n, t)
    ensures ProgStep(msg, p, t) == Some(Moved(p, t, g', pc', calls'))
    ensures ProgInv(msg, Moved(p, t, g', pc', calls'), n)
    ensures Moves(msg, p.mgr.g.log, t, p.mgr.threads[t], p.calls[t], g'.log, pc', calls')
    ensures n <= MAX_POOL ==> Advanced(p.mgr.threads[t], p.calls[t], pc', calls')
  {
    var pc, calls := p.mgr.threads[t], p.calls[t];
    if pc.AtAlloc? && n <= MAX_POOL { RoomForEveryThread(p.mgr, n, t); }
    assert ThreadInv(p.mgr.g, t, pc) && ThreadOk(msg, pc, t, calls, n);
    g', pc', calls' := PathStep(msg, p.mgr.g, t, pc, calls, n);
    ProgStepIs(msg, p, n, t, g', pc');
    StepKeepsInv(p.mgr, t, NextChoice(msg, pc, t, calls));
    MovedThreads(msg, p, n, t, g', pc', calls');
  }

  // ... the record of what is on the queue, and the count of the work done.
  lemma LogFollows(msg: Texts, log: seq<Delivery>, sent: seq<nat>, t: Tid, sends: bool,
                   log': seq<Delivery>, sent': seq<nat>)
    requires Proper(msg) && LogOk(msg, log, sent) && t < |sent| && (sends ==> sent[t] < PER_THREAD)
    requires log' == if sends then log + [SentAs(msg, t, sent[t])] else log
    requires sent' == sent[t := sent[t] + if sends then 1 else 0]
    ensures LogOk(msg, log', sent')
  {
    if sends {
      LogGrows(msg, log, sent, t);
    } else {
      assert sent' == sent;
    }
  }

  lemma MovedTallies(p: Prog, p': Prog, n: nat, t: Tid, sent: seq<nat>, sent': seq<nat>, work: seq<nat>)
    requires Tallied(p, n, sent, work) && t < n && Total(p', n)
    requires forall u: nat :: u < n && u != t ==> p'.calls[u] == p.calls[u] && p'.mgr.threads[u] == p.mgr.threads[u]
    requires sent' == sent[t := SentBy(p'.mgr.threads[t], p'.calls[t])]
    requires Work(p'.mgr.threads[t], p'.calls[t]) == work[t] + 1
    ensures Tallied(p', n, sent', work[t := work[t] + 1])
  {
  }

  lemma StepLog(msg: Texts, log: seq<Delivery>, sent: seq<nat>, t: Tid, pc: Pc, calls: nat,
                log': seq<Delivery>, pc': Pc, calls': nat)
    requires Proper(msg) && LogOk(msg, log, sent) && t < |sent| && sent[t] == SentBy(pc, calls)
    requires Moves(msg, log, t, pc, calls, log', pc', calls') && Advanced(pc, calls, pc', calls')
    ensures LogOk(msg, log', sent[t := SentBy(pc', calls')])
  {
    LogFollows(msg, log, sent, t, pc.AtSend?, log', sent[t := SentBy(pc', calls')]);
  }

  lemma StepRecords(msg: Texts, p: Prog, p': Prog, n: nat, t: Tid, sent: seq<nat>, work: seq<nat>)
    returns (sent': seq<nat>)
    requires Proper(msg) && Tallied(p, n, sent, work) && LogOk(msg, p.mgr.g.log, sent) && t < n && Total(p', n)
    requires forall u: nat :: u < n && u != t ==> p'.calls[u] == p.calls[u] && p'.mgr.threads[u] == p.mgr.threads[u]
    requires Moves(msg, p.mgr.g.log, t, p.mgr.threads[t], p.calls[t], p'.mgr.g.log, p'.mgr.threads[t], p'.calls[t])
    requires Advanced(p.mgr.threads[t], p.calls[t], p'.mgr.threads[t], p'.calls[t])
    ensures Tallied(p', n, sent', work[t := work[t] + 1]) && LogOk(msg, p'.mgr.g.log, sent')
  {
    sent' := sent[t := SentBy(p'.mgr.threads[t], p'.calls[t])];
    MovedTallies(p, p', n, t, sent, sent', work);
    StepLog(msg, p.mgr.g.log, sent, t, p.mgr.threads[t], p.calls[t], p'.mgr.g.log, p'.mgr.threads[t], p'.calls[t]);
  }

  lemma WhoSteps(msg: Texts, p: Prog, n: nat, t: Tid)
    requires Total(p, n) && ProgStep(msg, p, t).Some?
    ensures Unfinished(p, n, t)
  {
  }

  lemma ProgStepKeeps(msg: Texts, p: Prog, n: nat, t: Tid, sent: seq<nat>, work: seq<nat>)
    returns (p': Prog, sent': seq<nat>)
    requires Proper(msg) && ProgInv(msg, p, n) && n <= MAX_POOL && Unfinished(p, n, t)
    requires Tallied(p, n, sent, work) && LogOk(msg, p.mgr.g.log, sent)
    ensures ProgStep(msg, p, t) == Some(p') && ProgInv(msg, p', n)
    ensures Tallied(p', n, sent', work[t := work[t] + 1]) && LogOk(msg, p'.mgr.g.log, sent')
  {
    var g', pc', calls' := ProgStepTo(msg, p, n, t);
    p' := Moved(p, t, g', pc', calls');
    sent' := StepRecords(msg, p, p', n, t, sent, work);
  }

  function Sum(s: seq<nat>): nat {
    if s == [] then 0 else Sum(s[..|s| - 1]) + s[|s| - 1]
  }

  lemma {:induction false} SumAfter(s: seq<nat>, t: nat, v: nat)
    requires t < |s|
    ensures Sum(s[t := v]) + s[t] == Sum(s) + v
  {
    var s' := s[t := v];
    if t < |s| - 1 {
      SumAfter(s[..|s| - 1], t, v);
      assert s'[..|s| - 1] == s[..|s| - 1][t := v];
    } else {
      assert s'[..|s| - 1] == s[..|s| - 1];
    }
  }

  // A sum of terms of at most b each is at most b times their number, and only if all are b.
  lemma {:induction false} SumBound(s: seq<nat>, b: nat)
    requires forall i :: 0 <= i < |s| ==> s[i] <= b
    ensures Sum(s) <= b * |s|
    ensures Sum(s) == b * |s| <==> forall i :: 0 <= i < |s| ==> s[i] == b
  {
    if s != [] {
      var r := s[..|s| - 1];
      SumBound(r, b);
      assert b * |s| == b * |r| + b;
      assert (forall i :: 0 <= i < |s| ==> s[i] == b) <==> s[|s| - 1] == b && forall i :: 0 <= i < |r| ==> r[i] == b;
    }
  }

  lemma {:induction false} SumZero(s: seq<nat>)
    requires forall i :: 0 <= i < |s| ==> s[i] == 0
    ensures Sum(s) == 0
  {
    if s != [] { SumZero(s[..|s| - 1]); }
  }

  lemma StartTallies(msg: Texts, n: nat) returns (sent: seq<nat>, work: seq<nat>)
    ensures Tallied(Start(n), n, sent, work) && Sum(work) == 0 && LogOk(msg, Start(n).mgr.g.log, sent)
  {
    sent, work := seq(n, i => 0), seq(n, i => 0);
    SumZero(work);
  }

  // All that a run keeps track of.
  ghost predicate Tracked(msg: Texts, p: Prog, n: nat, sent: seq<nat>, work: seq<nat>, steps: nat) {
    ProgInv(msg, p, n) && Tallied(p, n, sent, work) && LogOk(msg, p.mgr.g.log, sent) && Sum(work) == steps
  }

  lemma OneMoreStep(work: seq<nat>, t: nat, work': seq<nat>)
    requires t < |work| && work' == work[t := work[t] + 1]
    ensures Sum(work') == Sum(work) + 1
  {
    SumAfter(work, t, work[t] + 1);
  }

  lemma TrackStep(msg: Texts, p: Prog, n: nat, t: Tid, sent: seq<nat>, work: seq<nat>, steps: nat)
    returns (p': Prog, sent': seq<nat>, work': seq<nat>)
    requires Proper(msg) && n <= MAX_POOL && Tracked(msg, p, n, sent, work, steps) && Unfinished(p, n, t)
    ensures ProgStep(msg, p, t) == Some(p') && Tracked(msg, p', n, sent', work', steps + 1)
  {
    work' := work[t := work[t] + 1];
    p', sent' := ProgStepKeeps(msg, p, n, t, sent, work);
    assert Sum(work') == steps + 1 by { OneMoreStep(work, t, work'); }
  }

  lemma {:induction false} RunKeeps(msg: Texts, s: Prog, n: nat, ts: seq<Tid>, p: Prog,
                                    sent0: seq<nat>, work0: seq<nat>)
    returns (sent: seq<nat>, work: seq<nat>)
    requires Proper(msg) && n <= MAX_POOL && Tracked(msg, s, n, sent0, work0, 0) && ProgRun(msg, s, ts) == Some(p)
    ensures Tracked(msg, p, n, sent, work, |ts|)
  {
    if ts == [] {
      sent, work := sent0, work0;
    } else {
      var q := ProgRun(msg, s, ts[..|ts| - 1]).value;
      sent, work := RunKeeps(msg, s, n, ts[..|ts| - 1], q, sent0, work0);
      WhoSteps(msg, q, n, ts[|ts| - 1]);
      q, sent, work := TrackStep(msg, q, n, ts[|ts| - 1], sent, work, |ts| - 1);
    }
  }

  lemma ProgRunKeeps(msg: Texts, n: nat, ts: seq<Tid>) returns (sent: seq<nat>, work: seq<nat>)
    requires Proper(msg) && n <= MAX_POOL && ProgRun(msg, Start(n), ts).Some?
    ensures ProgInv(msg, ProgRun(msg, Start(n), ts).value, n)
    ensures Tallied(ProgRun(msg, Start(n), ts).value, n, sent, work) && Sum(work) == |ts|
    ensures LogOk(msg, ProgRun(msg, Start(n), ts).value.mgr.g.log, sent)
  {
    StartInv(msg, n);
    sent, work := StartTallies(msg, n);
    sent, work := RunKeeps(msg, Start(n), n, ts, ProgRun(msg, Start(n), ts).value, sent, work);
  }

  // ---------------------------------------------------------------- theorems

  function Expected(msg: Texts, m: nat): seq<Delivery> {
    if m == 0 then [] else Expected(msg, m - 1) + [Sent(msg, m - 1)]
  }

  lemma {:induction false} ExpectedCount(msg: Texts, m: nat, j: nat)
    requires Proper(msg)
    ensures |Expected(msg, m)| == m
    ensures multiset(Expected(msg, m))[Sent(msg, j)] == if j < m then 1 else 0
  {
    if m > 0 {
      ExpectedCount(msg, m - 1, j);
      var x, y := Sent(msg, j), Sent(msg, m - 1);
      assert multiset(Expected(msg, m)) == multiset(Expected(msg, m - 1)) + multiset{y};
    }
  }

  lemma {:induction false} ExpectedForm(msg: Texts, m: nat, x: Delivery)
    requires x in Expected(msg, m)
    ensures exists j :: 0 <= j < m && x == Sent(msg, j)
  {
    if x != Sent(msg, m - 1) { ExpectedForm(msg, m - 1, x); }
  }

  lemma WorkOf(msg: Texts, p: Prog, n: nat, t: Tid, work: seq<nat>)
    requires ThreadsOk(msg, p, n) && t < n && Worked(p, n, work)
    ensures work[t] <= 80
    ensures work[t] == 80 <==> p.calls[t] == PER_THREAD && p.mgr.threads[t].Out?
  {
    assert ThreadOk(msg, p.mgr.threads[t], t, p.calls[t], n);
  }

  lemma WorkBound(msg: Texts, p: Prog, n: nat, work: seq<nat>)
    requires ThreadsOk(msg, p, n) && Worked(p, n, work)
    ensures Sum(work) <= 80 * n
    ensures Sum(work) == 80 * n <==> Finished(p)
    ensures Finished(p) <==> forall t: nat :: t < n ==> work[t] == 80
  {
    forall t: nat | t < n
      ensures work[t] <= 80 && (work[t] == 80 <==> p.calls[t] == PER_THREAD && p.mgr.threads[t].Out?)
    {
      WorkOf(msg, p, n, t, work);
    }
    SumBound(work, 80);
  }

  // A step of any unfinished thread, for every number of threads.
  lemma WorkStep(msg: Texts, p: Prog, n: nat, work: seq<nat>, u: Tid)
    returns (g': Shared, pc': Pc, calls': nat, work': seq<nat>)
    requires Proper(msg) && ProgInv(msg, p, n) && Worked(p, n, work) && Unfinished(p, n, u)
    ensures
      var p' := Moved(p, u, g', pc', calls');
      ProgStep(msg, p, u) == Some(p') && ProgInv(msg, p', n) && Worked(p', n, work')
    ensures Moves(msg, p.mgr.g.log, u, p.mgr.threads[u], p.calls[u], g'.log, pc', calls')
    ensures Sum(work) < Sum(work') <= 80 * n
  {
    g', pc', calls' := ProgStepTo(msg, p, n, u);
    work' := work[u := Work(pc', calls')];
    SumAfter(work, u, Work(pc', calls'));
    WorkBound(msg, Moved(p, u, g', pc', calls'), n, work');
  }

  lemma StartWork(n: nat) returns (work: seq<nat>)
    ensures Worked(Start(n), n, work)
  {
    work := seq(n, i => 0);
  }

  // Every step is some work.
  lemma {:induction false} WorkDone(msg: Texts, n: nat, s: Prog, ts: seq<Tid>, p: Prog, work0: seq<nat>)
    returns (work: seq<nat>)
    requires Proper(msg) && ProgInv(msg, s, n) && Worked(s, n, work0) && ProgRun(msg, s, ts) == Some(p)
    ensures ProgInv(msg, p, n) && Worked(p, n, work) && |ts| <= Sum(work)
  {
    if ts == [] {
      work := work0;
    } else {
      var q, t := ProgRun(msg, s, ts[..|ts| - 1]).value, ts[|ts| - 1];
      work := WorkDone(msg, n, s, ts[..|ts| - 1], q, work0);
      WhoSteps(msg, q, n, t);
      var g', pc', calls';
      g', pc', calls', work := WorkStep(msg, q, n, work, t);
    }
  }

  // For every number of threads, no schedule has more than 80 steps a thread and none gets stuck
  // before all threads have made their calls.
  lemma RunsEnd(msg: Texts, n: nat, ts: seq<Tid>)
    requires Proper(msg) && ProgRun(msg, Start(n), ts).Some?
    ensures
      var p := ProgRun(msg, Start(n), ts).value;
      && |ts| <= 80 * n
      && (|ts| == 80 * n ==> Finished(p))
      && (!Finished(p) ==> exists t :: 0 <= t < n && ProgStep(msg, p, t).Some?)
  {
    var p := ProgRun(msg, Start(n), ts).value;
    StartInv(msg, n);
    var work := StartWork(n);
    work := WorkDone(msg, n, Start(n), ts, p, work);
    WorkBound(msg, p, n, work);
    if t: nat :| t < n && work[t] != 80 {
      WorkOf(msg, p, n, t, work);
      var g', pc', calls', work' := WorkStep(msg, p, n, work, t);
    }
  }

  // With a slot for every thread, it is over after exactly 80 steps a thread.
  lemma RunsEndExactly(msg: Texts, n: nat, ts: seq<Tid>)
    requires Proper(msg) && n <= MAX_POOL && ProgRun(msg, Start(n), ts).Some?
    ensures Finished(ProgRun(msg, Start(n), ts).value) <==> |ts| == 80 * n
  {
    var sent, work := ProgRunKeeps(msg, n, ts);
    WorkBound(msg, ProgRun(msg, Start(n), ts).value, n, work);
  }

  lemma AllReturned(msg: Texts, p: Prog, n: nat, sent: seq<nat>, work: seq<nat>)
    requires ThreadsOk(msg, p, n) && n <= MAX_POOL && Finished(p) && Tallied(p, n, sent, work)
    ensures forall t: nat :: t < n ==> p.mgr.threads[t] == Out(Returned(true)) && sent[t] == PER_THREAD
  {
    forall t: nat | t < n ensures p.mgr.threads[t] == Out(Returned(true)) && sent[t] == PER_THREAD {
      assert ThreadOk(msg, p.mgr.threads[t], t, p.calls[t], n);
    }
  }

  lemma CountOf(msg: Texts, log: seq<Delivery>, n: nat, sent: seq<nat>, t: Tid, i: nat)
    requires Proper(msg) && LogOk(msg, log, sent) && |sent| == n && t < n && i < PER_THREAD && sent[t] == PER_THREAD
    ensures
      var x := Sent(msg, Number(t, i));
      multiset(log)[x] == multiset(Expected(msg, PER_THREAD * n))[x]
  {
    assert CountOk(msg, log, t, i, sent[t]);
    ExpectedCount(msg, PER_THREAD * n, PER_THREAD * t + i);
  }

  lemma FullLog(msg: Texts, log: seq<Delivery>, n: nat, sent: seq<nat>)
    requires Proper(msg) && LogOk(msg, log, sent) && |sent| == n
    requires forall t: nat :: t < n ==> sent[t] == PER_THREAD
    ensures multiset(log) == multiset(Expected(msg, PER_THREAD * n)) && |log| == PER_THREAD * n
  {
    var want := Expected(msg, PER_THREAD * n);
    forall x ensures multiset(log)[x] == multiset(want)[x] {
      if x in log {
        var k :| 0 <= k < |log| && log[k] == x;
        assert FromThreads(msg, log[k], n);
        var t, i :| 0 <= t < n && 0 <= i < PER_THREAD && x == SentAs(msg, t, i);
        CountOf(msg, log, n, sent, t, i);
      } else if x in want {
        ExpectedForm(msg, PER_THREAD * n, x);
        var j :| 0 <= j < PER_THREAD * n && x == Sent(msg, j);
        CountOf(msg, log, n, sent, j / PER_THREAD, j % PER_THREAD);
      }
    }
    ExpectedCount(msg, PER_THREAD * n, 0);
    assert |multiset(log)| == |log| && |multiset(want)| == |want|;
  }

  // For up to 50 threads, every finished schedule leaves exactly the messages #0 to #10n-1 on the
  // queue, each once, and every call returned true.
  lemma EveryMessageOnce(msg: Texts, n: nat, ts: seq<Tid>)
    requires Proper(msg) && n <= MAX_POOL
    requires ProgRun(msg, Start(n), ts).Some? && Finished(ProgRun(msg, Start(n), ts).value)
    ensures
      var p := ProgRun(msg, Start(n), ts).value;
      && multiset(p.mgr.g.log) == multiset(Expected(msg, PER_THREAD * n)) && |p.mgr.g.log| == PER_THREAD * n
      && forall t: nat :: t < n ==> t in p.mgr.threads && p.mgr.threads[t] == Out(Returned(true))
  {
    var sent, work := ProgRunKeeps(msg, n, ts);
    var p := ProgRun(msg, Start(n), ts).value;
    AllReturned(msg, p, n, sent, work);
    FullLog(msg, p.mgr.g.log, n, sent);
  }

  // The program as it stands, with its own message texts.
  lemma ExampleDelivers(n: nat, ts: seq<Tid>)
    requires n <= 50 && ProgRun(Message, Start(n), ts).Some? && |ts| == 80 * n
    ensures
      var log := ProgRun(Message, Start(n), ts).value.mgr.g.log;
      multiset(log) == multiset(Expected(Message, 10 * n)) && |log| == 10 * n
  {
    MessagesAreProper();
    RunsEndExactly(Message, n, ts);
    EveryMessageOnce(Message, n, ts);
  }

  // ---------------------------------------------------------------- the order of one thread's messages

  ghost predicate InTurn(msg: Texts, log: seq<Delivery>) {
    forall x, y, t: Tid, i: nat, j: nat ::
      && 0 <= x < y < |log| && i < PER_THREAD && j < PER_THREAD
      && log[x] == SentAs(msg, t, i) && log[y] == SentAs(msg, t, j)
      ==> i < j
  }

  // Every message on the queue is one its thread has got to.
  ghost predicate GotTo(msg: Texts, p: Prog) {
    forall x, t: Tid, i: nat :: 0 <= x < |p.mgr.g.log| && i < PER_THREAD && p.mgr.g.log[x] == SentAs(msg, t, i) ==>
      t < |p.calls| && t in p.mgr.threads && i < SentBy(p.mgr.threads[t], p.calls[t])
  }

  lemma TurnStep(msg: Texts, p: Prog, n: nat, u: Tid, g': Shared, pc': Pc, calls': nat)
    requires Proper(msg) && Total(p, n) && u < n && InTurn(msg, p.mgr.g.log) && GotTo(msg, p)
    requires Moves(msg, p.mgr.g.log, u, p.mgr.threads[u], p.calls[u], g'.log, pc', calls')
    ensures InTurn(msg, g'.log) && GotTo(msg, Moved(p, u, g', pc', calls'))
  {
    var log, p' := p.mgr.g.log, Moved(p, u, g', pc', calls');
    forall x, y, t: Tid, i: nat, j: nat | 0 <= x < y < |g'.log| && i < PER_THREAD && j < PER_THREAD
      && g'.log[x] == SentAs(msg, t, i) && g'.log[y] == SentAs(msg, t, j) ensures i < j
    {
      if y == |log| {
        SentAsInjective(msg, t, j, u, p.calls[u]);
        assert log[x] == SentAs(msg, t, i);
      }
    }
    forall x, t: Tid, i: nat | 0 <= x < |g'.log| && i < PER_THREAD && g'.log[x] == SentAs(msg, t, i)
      ensures t < n && i < SentBy(p'.mgr.threads[t], p'.calls[t])
    {
      if x == |log| {
        SentAsInjective(msg, t, i, u, p.calls[u]);
      } else {
        assert log[x] == SentAs(msg, t, i);
      }
    }
  }

  lemma {:induction false} RunInTurn(msg: Texts, n: nat, s: Prog, ts: seq<Tid>, p: Prog)
    requires Proper(msg) && ProgInv(msg, s, n) && InTurn(msg, s.mgr.g.log) && GotTo(msg, s)
    requires ProgRun(msg, s, ts) == Some(p)
    ensures ProgInv(msg, p, n) && InTurn(msg, p.mgr.g.log) && GotTo(msg, p)
  {
    if ts != [] {
      var q, t := ProgRun(msg, s, ts[..|ts| - 1]).value, ts[|ts| - 1];
      RunInTurn(msg, n, s, ts[..|ts| - 1], q);
      WhoSteps(msg, q, n, t);
      var g', pc', calls' := ProgStepTo(msg, q, n, t);
      TurnStep(msg, q, n, t, g', pc', calls');
    }
  }

  // For every number of threads and every schedule, the messages of one thread are on the queue in the
  // order of its loop.
  lemma ThreadsSendInOrder(n: nat, ts: seq<Tid>)
    requires ProgRun(Message, Start(n), ts).Some?
    ensures InTurn(Message, ProgRun(Message, Start(n), ts).value.mgr.g.log)
  {
    MessagesAreProper();
    StartInv(Message, n);
    RunInTurn(Message, n, Start(n), ts, ProgRun(Message, Start(n), ts).value);
  }

  // ---------------------------------------------------------------- more than 50 threads

  // The invariant holds for every number of threads.
  lemma {:induction false} ProgRunInv(msg: Texts, n: nat, ts: seq<Tid>)
    requires Proper(msg) && ProgRun(msg, Start(n), ts).Some?
    ensures ProgInv(msg, ProgRun(msg, Start(n), ts).value, n)
  {
    if ts == [] {
      StartInv(msg, n);
    } else {
      var p, t := ProgRun(msg, Start(n), ts[..|ts| - 1]).value, ts[|ts| - 1];
      ProgRunInv(msg, n, ts[..|ts| - 1]);
      WhoSteps(msg, p, n, t);
      var g', pc', calls' := ProgStepTo(msg, p, n, t);
    }
  }

  // The first k threads hold a producer each, the others have not started.
  ghost predicate Filled(p: Prog, n: nat, k: nat) {
    && |p.calls| == n && Smooth(p.mgr.g, MAX_POOL) && p.mgr.g.log == []
    && (forall t: nat :: t in p.mgr.threads <==> t < n)
    && (forall t: nat :: t < k && t < n ==> p.mgr.threads[t].AtDest?)
    && (forall t: nat :: k <= t < n ==> p.mgr.threads[t] == Out(NoCall) && p.calls[t] == 0)
  }

  lemma RunMore(msg: Texts, s: Prog, ts: seq<Tid>, t: Tid, p: Prog)
    requires ProgRun(msg, s, ts) == Some(p)
    ensures ProgRun(msg, s, ts + [t]) == ProgStep(msg, p, t)
  {
    assert (ts + [t])[..|ts|] == ts;
  }

  // Extends a run of the program by one step of thread t.
  lemma Extend(msg: Texts, n: nat, ts: seq<Tid>, p: Prog, t: Tid, g': Shared, pc': Pc) returns (us: seq<Tid>, p': Prog)
    requires ProgRun(msg, Start(n), ts) == Some(p)
    requires |p.calls| == n && t < n && t in p.mgr.threads && p.mgr.g.mutex == None && p.calls[t] < PER_THREAD
    requires
      var pc := p.mgr.threads[t];
      Local(p.mgr.g, t, pc, NextChoice(msg, pc, t, p.calls[t]), false) == Some((g', pc')) && !pc'.Out?
    ensures ProgRun(msg, Start(n), us) == Some(p') && p' == Prog(State(g', p.mgr.threads[t := pc']), p.calls)
  {
    us := ts + [t];
    RunMore(msg, Start(n), ts, t, p);
    ProgStepIs(msg, p, n, t, g', pc');
    assert p.calls[t := p.calls[t]] == p.calls;
    p' := Prog(State(g', p.mgr.threads[t := pc']), p.calls);
  }

  ghost function At(p: Prog, t: Tid, pc: Pc): Prog {
    Prog(State(p.mgr.g, p.mgr.threads[t := pc]), p.calls)
  }

  // Thread t goes from one line to the next before it allocates.
  lemma StepOpen(msg: Texts, n: nat, ts: seq<Tid>, p: Prog, t: Tid, pc: Pc, pc': Pc) returns (us: seq<Tid>)
    requires |p.calls| == n && t < n && t in p.mgr.threads && p.mgr.g.mutex == None && p.calls[t] < PER_THREAD
    requires ProgRun(msg, Start(n), ts) == Some(At(p, t, pc)) && !Locked(pc) && !Holds(pc) && !pc'.Out?
    requires OpenStep(p.mgr.g, t, pc, NextChoice(msg, pc, t, p.calls[t]), false) == Some((p.mgr.g, pc'))
    ensures ProgRun(msg, Start(n), us) == Some(At(p, t, pc'))
  {
    var p';
    us, p' := Extend(msg, n, ts, At(p, t, pc), t, p.mgr.g, pc');
    assert p.mgr.threads[t := pc][t := pc'] == p.mgr.threads[t := pc'];
  }

  lemma ToAlloc(msg: Texts, n: nat, ts: seq<Tid>, p: Prog, t: Tid) returns (us: seq<Tid>)
    requires ProgRun(msg, Start(n), ts) == Some(p) && Filled(p, n, t) && t < n
    ensures ProgRun(msg, Start(n), us) == Some(At(p, t, AtAlloc(msg(Number(t, 0)))))
  {
    var x := msg(Number(t, 0));
    assert At(p, t, p.mgr.threads[t]) == p by { assert p.mgr.threads[t := p.mgr.threads[t]] == p.mgr.threads; }
    us := StepOpen(msg, n, ts, p, t, p.mgr.threads[t], AtFlag(x));
    us := StepOpen(msg, n, us, p, t, AtFlag(x), AtTake(x, SawFlag(false)));
    us := StepOpen(msg, n, us, p, t, AtTake(x, SawFlag(false)), AtAlloc(x));
  }

  lemma HoldersWhenFilled(threads: map<Tid, Pc>, n: nat, t: Tid, x: string)
    requires t < n && (forall u: nat :: u in threads <==> u < n)
    requires (forall u: nat :: u < t ==> threads[u].AtDest?) && forall u: nat :: t <= u < n ==> threads[u].Out?
    ensures |Holders(threads[t := AtAlloc(x)])| == t
  {
    assert Holders(threads[t := AtAlloc(x)]) == SlotsBelow(t);
  }

  lemma AllocOutcome(s: State, t: Tid)
    requires Inv(s) && Smooth(s.g, MAX_POOL) && |Holders(s.threads)| == t <= MAX_POOL
    ensures AllocateSlot(s.g.pool).1.Slot? <==> t < MAX_POOL
  {
    SlotAccounting(s);
    OverflowIffFull(s.g.pool);
  }

  // Thread t runs up to the allocation, which succeeds if it is among the first 50.
  lemma ToOutcome(msg: Texts, n: nat, ts: seq<Tid>, p: Prog, t: Tid) returns (us: seq<Tid>, p': Prog)
    requires Proper(msg) && ProgRun(msg, Start(n), ts) == Some(p) && Filled(p, n, t) && t < n && t <= MAX_POOL
    ensures ProgRun(msg, Start(n), us) == Some(p')
    ensures p' == At(p, t, AtAlloc(msg(Number(t, 0))))
    ensures AllocateSlot(p.mgr.g.pool).1.Slot? <==> t < MAX_POOL
  {
    us := ToAlloc(msg, n, ts, p, t);
    p' := At(p, t, AtAlloc(msg(Number(t, 0))));
    ProgRunInv(msg, n, us);
    HoldersWhenFilled(p.mgr.threads, n, t, msg(Number(t, 0)));
    AllocOutcome(p'.mgr, t);
  }

  ghost function Allocated(g: Shared, t: Tid, x: string): (Shared, Pc) {
    var (q, r) := AllocateSlot(g.pool);
    if r.Slot? then (g.(pool := q, owner := g.owner[r.k := t]), AtDest(x, r.k)) else (g.(pool := q), AtOverflowClose)
  }

  lemma AllocLocal(g: Shared, t: Tid, x: string)
    requires Smooth(g, MAX_POOL)
    ensures
      var (q, r) := AllocateSlot(g.pool);
      && Local(g, t, AtAlloc(x), Fine, false) == Some(Allocated(g, t, x)) && Smooth(Allocated(g, t, x).0, MAX_POOL)
      && Allocated(g, t, x).0.log == g.log
      && (if r.Slot? then Allocated(g, t, x).1 == AtDest(x, r.k) else Allocated(g, t, x).1 == AtOverflowClose)
  {
  }

  lemma TakeSlot(msg: Texts, n: nat, ts: seq<Tid>, p: Prog, t: Tid) returns (us: seq<Tid>, p': Prog)
    requires Proper(msg) && ProgRun(msg, Start(n), ts) == Some(p) && Filled(p, n, t) && t < n && t <= MAX_POOL
    ensures ProgRun(msg, Start(n), us) == Some(p')
    ensures Smooth(p'.mgr.g, MAX_POOL) && p'.mgr.g.log == []
    ensures p'.calls == p.calls && p'.mgr.threads.Keys == p.mgr.threads.Keys
    ensures forall u: nat :: u < n && u != t ==> p'.mgr.threads[u] == p.mgr.threads[u]
    ensures if t < MAX_POOL then p'.mgr.threads[t].AtDest? else p'.mgr.threads[t].AtOverflowClose?
  {
    var x := msg(Number(t, 0));
    us, p' := ToOutcome(msg, n, ts, p, t);
    AllocLocal(p.mgr.g, t, x);
    var (g', pc') := Allocated(p.mgr.g, t, x);
    us, p' := Extend(msg, n, us, p', t, g', pc');
  }

  lemma {:induction false} Fill(msg: Texts, n: nat, k: nat) returns (ts: seq<Tid>, p: Prog)
    requires Proper(msg) && k <= MAX_POOL < n
    ensures ProgRun(msg, Start(n), ts) == Some(p) && Filled(p, n, k)
  {
    if k == 0 {
      ts, p := [], Start(n);
    } else {
      ts, p := Fill(msg, n, k - 1);
      ts, p := TakeSlot(msg, n, ts, p, k - 1);
    }
  }

  ghost predicate Overflows(p: Prog) {
    exists t :: t in p.mgr.threads && p.mgr.threads[t].AtOverflowClose?
  }

  ghost predicate OverflowRun(msg: Texts, n: nat, ts: seq<Tid>) {
    ProgRun(msg, Start(n), ts).Some? && Overflows(ProgRun(msg, Start(n), ts).value)
  }

  // Threads 0 to 49 hold the fifty producers when thread 50 asks for one.
  lemma OverflowWitness(msg: Texts, n: nat) returns (ts: seq<Tid>, p: Prog)
    requires Proper(msg) && n > MAX_POOL
    ensures ProgRun(msg, Start(n), ts) == Some(p) && p.mgr.g.log == []
    ensures MAX_POOL in p.mgr.threads && p.mgr.threads[MAX_POOL].AtOverflowClose?
    ensures |p.calls| == n && p.calls[MAX_POOL] == 0 && p.mgr.g.mutex == None
  {
    ts, p := Fill(msg, n, MAX_POOL);
    ts, p := TakeSlot(msg, n, ts, p, MAX_POOL);
  }

  lemma NoOverflowUpTo50(n: nat, ts: seq<Tid>)
    requires n <= MAX_POOL && ProgRun(Message, Start(n), ts).Some?
    ensures !Overflows(ProgRun(Message, Start(n), ts).value)
  {
    MessagesAreProper();
    ProgRunInv(Message, n, ts);
  }

  // Even when nothing fails, some schedule runs into "Pool Overflow" if and only if there are more
  // than 50 threads.
  lemma OverflowReachableIff(n: nat)
    ensures (exists ts: seq<Tid> :: OverflowRun(Message, n, ts)) <==> n > 50
  {
    MessagesAreProper();
    if n > MAX_POOL {
      var ts, p := OverflowWitness(Message, n);
      assert OverflowRun(Message, n, ts);
    } else {
      forall ts: seq<Tid> ensures !OverflowRun(Message, n, ts) {
        if ProgRun(Message, Start(n), ts).Some? { NoOverflowUpTo50(n, ts); }
      }
    }
  }

  // ---------------------------------------------------------------- a message that is passed over

  // Call i of thread t is over and its message is not on the queue.
  ghost predicate Missing(msg: Texts, p: Prog, t: Tid, i: nat) {
    t < |p.calls| && i < p.calls[t] && SentAs(msg, t, i) !in p.mgr.g.log
  }

  // Nobody sends it later: another thread sends its own texts, and thread t has gone on to others.
  lemma StaysMissing(msg: Texts, p: Prog, n: nat, u: Tid, g': Shared, pc': Pc, calls': nat, t: Tid, i: nat)
    requires Proper(msg) && Total(p, n) && u < n && Missing(msg, p, t, i) && i < PER_THREAD
    requires Moves(msg, p.mgr.g.log, u, p.mgr.threads[u], p.calls[u], g'.log, pc', calls')
    ensures Missing(msg, Moved(p, u, g', pc', calls'), t, i)
  {
    if p.mgr.threads[u].AtSend? && SentAs(msg, u, p.calls[u]) == SentAs(msg, t, i) {
      SentAsInjective(msg, u, p.calls[u], t, i);
      assert false;
    }
  }

  // What is missing stays missing.
  ghost predicate MissingKept(msg: Texts, p: Prog, q: Prog) {
    forall t: Tid, i: nat :: i < PER_THREAD && Missing(msg, p, t, i) ==> Missing(msg, q, t, i)
  }

  lemma FinishStep(msg: Texts, p: Prog, n: nat, work: seq<nat>, u: Tid) returns (p': Prog, work': seq<nat>)
    requires Proper(msg) && ProgInv(msg, p, n) && Worked(p, n, work) && u < n && work[u] != 80
    ensures ProgStep(msg, p, u) == Some(p') && ProgInv(msg, p', n) && MissingKept(msg, p, p')
    ensures Worked(p', n, work') && Sum(work) < Sum(work') <= 80 * n
  {
    WorkOf(msg, p, n, u, work);
    var g', pc', calls';
    g', pc', calls', work' := WorkStep(msg, p, n, work, u);
    p' := Moved(p, u, g', pc', calls');
    forall t: Tid, i: nat | i < PER_THREAD && Missing(msg, p, t, i) ensures Missing(msg, p', t, i) {
      StaysMissing(msg, p, n, u, g', pc', calls', t, i);
    }
  }

  lemma {:induction false} FinishFrom(msg: Texts, n: nat, s: Prog, ts: seq<Tid>, p: Prog, work: seq<nat>)
    returns (us: seq<Tid>, q: Prog)
    requires Proper(msg) && ProgRun(msg, s, ts) == Some(p) && ProgInv(msg, p, n) && Worked(p, n, work)
    ensures ts <= us && ProgRun(msg, s, us) == Some(q) && Finished(q) && MissingKept(msg, p, q)
    decreases 80 * n - Sum(work)
  {
    if u: nat :| u < n && work[u] != 80 {
      var p', work' := FinishStep(msg, p, n, work, u);
      RunMore(msg, s, ts, u, p);
      us, q := FinishFrom(msg, n, s, ts + [u], p', work');
    } else {
      WorkBound(msg, p, n, work);
      us, q := ts, p;
    }
  }

  ghost predicate FinishedRun(msg: Texts, n: nat, ts: seq<Tid>) {
    ProgRun(msg, Start(n), ts).Some? && Finished(ProgRun(msg, Start(n), ts).value)
  }

  lemma WorkOfAll(p: Prog, n: nat) returns (work: seq<nat>)
    requires Total(p, n)
    ensures Worked(p, n, work)
  {
    work := seq(n, t requires 0 <= t < n => Work(p.mgr.threads[t], p.calls[t]));
  }

  // For every number of threads, every schedule can be continued to a finished one, and a message
  // whose call is over without having sent it is missing in the end.
  lemma CanFinish(msg: Texts, n: nat, ts: seq<Tid>) returns (us: seq<Tid>)
    requires Proper(msg) && ProgRun(msg, Start(n), ts).Some?
    ensures ts <= us && FinishedRun(msg, n, us)
    ensures MissingKept(msg, ProgRun(msg, Start(n), ts).value, ProgRun(msg, Start(n), us).value)
  {
    var p, q := ProgRun(msg, Start(n), ts).value, Start(n);
    ProgRunInv(msg, n, ts);
    var work := WorkOfAll(p, n);
    us, q := FinishFrom(msg, n, Start(n), ts, p, work);
  }

  // Thread 50 gets "Pool Overflow", returns false, and everybody finishes.
  lemma LossWitness(msg: Texts, n: nat) returns (ts: seq<Tid>)
    requires Proper(msg) && n > MAX_POOL
    ensures FinishedRun(msg, n, ts) && SentAs(msg, MAX_POOL, 0) !in ProgRun(msg, Start(n), ts).value.mgr.g.log
  {
    var p;
    ts, p := OverflowWitness(msg, n);
    var end := Out(Returned(false));
    assert !WindowOpen(p.mgr);
    ProgStepIs(msg, p, n, MAX_POOL, p.mgr.g, end);
    var q := Moved(p, MAX_POOL, p.mgr.g, end, 1);
    RunMore(msg, Start(n), ts, MAX_POOL, p);
    assert Missing(msg, q, MAX_POOL, 0);
    ts := CanFinish(msg, n, ts + [MAX_POOL]);
  }

  // The usage text's promise of ten messages a thread.  Even when nothing fails, some finished schedule
  // leaves something else on the queue than the 10 n messages if and only if there are more than 50
  // threads.
  lemma MessagesLostIff(n: nat)
    ensures (exists ts: seq<Tid> :: FinishedRun(Message, n, ts) &&
               multiset(ProgRun(Message, Start(n), ts).value.mgr.g.log) != multiset(Expected(Message, 10 * n)))
            <==> n > 50
  {
    MessagesAreProper();
    if n > MAX_POOL {
      var ts := LossWitness(Message, n);
      ExpectedCount(Message, PER_THREAD * n, Number(MAX_POOL, 0));
      assert SentAs(Message, MAX_POOL, 0) in multiset(Expected(Message, PER_THREAD * n));
    } else {
      forall ts: seq<Tid> | FinishedRun(Message, n, ts)
        ensures multiset(ProgRun(Message, Start(n), ts).value.mgr.g.log) == multiset(Expected(Message, PER_THREAD * n))
      {
        EveryMessageOnce(Message, n, ts);
      }
    }
  }
}
