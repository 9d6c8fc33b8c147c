/** The producer pool as an abstract allocator: a set of used slots and an iteration cursor. */
module PoolSpec {

  datatype Pool = Pool(size: nat, used: set<nat>, cursor: nat)

  datatype Op = Allocate | Free(slot: nat) | FreeNull | InitCursor | Next

  datatype Result = Slot(k: nat) | Null | Unit

  ghost predicate Ok(p: Pool) {
    (forall k :: k in p.used ==> k < p.size) && p.cursor <= p.size
  }

  // The first slot from i on that is not in (is in) s, or limit if there is none.
  function FirstOut(s: set<nat>, i: nat, limit: nat): (r: nat)
    requires i <= limit
    ensures i <= r <= limit && (r < limit ==> r !in s)
    ensures forall j :: i <= j < r ==> j in s
    decreases limit - i
  {
    if i == limit || i !in s then i else FirstOut(s, i + 1, limit)
  }

  function FirstIn(s: set<nat>, i: nat, limit: nat): (r: nat)
    requires i <= limit
    ensures i <= r <= limit && (r < limit ==> r in s)
    ensures forall j :: i <= j < r ==> j !in s
    decreases limit - i
  {
    if i == limit || i in s then i else FirstIn(s, i + 1, limit)
  }

  lemma FirstOutIs(s: set<nat>, i: nat, limit: nat, r: nat)
    requires i <= r <= limit && (r < limit ==> r !in s)
    requires forall j: nat :: i <= j < r ==> j in s
    ensures FirstOut(s, i, limit) == r
  {
    var k := FirstOut(s, i, limit);
    assert k < r ==> k in s;
  }

  lemma FirstInIs(s: set<nat>, i: nat, limit: nat, r: nat)
    requires i <= r <= limit && (r < limit ==> r in s)
    requires forall j: nat :: i <= j < r ==> j !in s
    ensures FirstIn(s, i, limit) == r
  {
    var k := FirstIn(s, i, limit);
    assert k < r ==> k !in s;
  }

  // First fit: the least free slot, if there is one.
  function AllocateSlot(p: Pool): (Pool, Result) {
    var k := FirstOut(p.used, 0, p.size);
    if k == p.size then (p, Null) else (p.(used := p.used + {k}), Slot(k))
  }

  function FreeSlot(p: Pool, k: nat): Pool {
    p.(used := p.used - {k})
  }

  function Apply(p: Pool, op: Op): (r: (Pool, Result))
    requires Ok(p)
    ensures Ok(r.0) && r.0.size == p.size
  {
    match op
    case Allocate => AllocateSlot(p)
    case Free(k) => (FreeSlot(p, k), Unit)
    case FreeNull => (p, Unit)
    case InitCursor => (p.(cursor := 0), Unit)
    case Next =>
      var k := FirstIn(p.used, p.cursor, p.size);
      if k == p.size then (p.(cursor := 0), Null) else (p.(cursor := k + 1), Slot(k))
  }

  function Exec(p: Pool, ops: seq<Op>): (r: (Pool, seq<Result>))
    requires Ok(p)
    ensures Ok(r.0) && |r.1| == |ops|
  {
    if ops == [] then (p, [])
    else
      var before := Exec(p, ops[..|ops| - 1]);
      var last := Apply(before.0, ops[|ops| - 1]);
      (last.0, before.1 + [last.1])
  }

  // ---------------------------------------------------------------- allocation

  function SlotsBelow(n: nat): (r: set<nat>)
    ensures forall k: nat :: k in r <==> k < n
    ensures |r| == n
  {
    if n == 0 then {} else SlotsBelow(n - 1) + {n - 1}
  }

  lemma SubsetSmaller(a: set<nat>, b: set<nat>)
    requires a <= b
    ensures |a| <= |b| && (|a| == |b| <==> a == b)
  {
    assert b == a + (b - a);
    assert |b| == |a| + |b - a|;
    assert |b - a| == 0 ==> b - a == {};
  }

  // "Pool Overflow" is reported exactly when every slot is in use.
  lemma OverflowIffFull(p: Pool)
    requires Ok(p)
    ensures |p.used| <= p.size
    ensures Apply(p, Allocate).1 == Null <==> |p.used| == p.size
    ensures Apply(p, Allocate).1 == Null <==> forall k :: 0 <= k < p.size ==> k in p.used
  {
    var all := SlotsBelow(p.size);
    SubsetSmaller(p.used, all);
    if |p.used| == p.size {
      assert forall k :: k in all ==> k in p.used;
    }
  }

  // Freeing what was just allocated restores the pool; freeing it again changes nothing.
  lemma FreeUndoesAllocate(p: Pool)
    requires Ok(p)
    ensures
      var (q, r) := Apply(p, Allocate);
      r.Slot? ==>
        && r.k !in p.used && q.used == p.used + {r.k}
        && (forall j :: 0 <= j < r.k ==> j in p.used)
        && Apply(q, Free(r.k)).0 == p
        && Apply(Apply(q, Free(r.k)).0, Free(r.k)).0 == p
  {
    var (q, r) := Apply(p, Allocate);
    if r.Slot? {
      assert p.used + {r.k} - {r.k} == p.used;
    }
  }

  // ---------------------------------------------------------------- cursor sweeps

  // What the Next calls among `ops` return up to and excluding the first Null.
  datatype Sweep = Sweep(returned: seq<nat>, finished: bool, end: Pool)

  function SweepOf(p: Pool, ops: seq<Op>): Sweep
    requires Ok(p)
    decreases |ops|
  {
    if ops == [] then Sweep([], false, p)
    else
      var (q, r) := Apply(p, ops[0]);
      if ops[0].Next? && r.Null? then Sweep([], true, q)
      else
        var rest := SweepOf(q, ops[1..]);
        if ops[0].Next? then rest.(returned := [r.k] + rest.returned) else rest
  }

  // Slot k is in use at every moment up to the Next call that ends the sweep.
  ghost predicate StaysUsed(p: Pool, ops: seq<Op>, k: nat)
    requires Ok(p)
    decreases |ops|
  {
    && k in p.used
    && (ops != [] ==>
          var (q, r) := Apply(p, ops[0]);
          (ops[0].Next? && r.Null?) || StaysUsed(q, ops[1..], k))
  }

  function NextCalls(ops: seq<Op>): nat {
    if ops == [] then 0 else (if ops[0].Next? then 1 else 0) + NextCalls(ops[1..])
  }

  ghost predicate Increasing(s: seq<nat>) {
    forall i, j :: 0 <= i < j < |s| ==> s[i] < s[j]
  }

  // A sweep interleaved with any allocations and frees: it returns strictly increasing slots,
  // misses no slot that stays in use, returns none twice, and ends after at most size + 1 calls
  // with the cursor back at 0.
  lemma {:induction false} SweepVisitsAll(p: Pool, ops: seq<Op>)
    requires Ok(p) && InitCursor !in ops
    ensures
      var s := SweepOf(p, ops);
      && Increasing(s.returned)
      && (forall i :: 0 <= i < |s.returned| ==> p.cursor <= s.returned[i] < p.size)
      && |s.returned| <= p.size - p.cursor
      && (s.finished ==> s.end.cursor == 0)
      && (s.finished ==> forall k :: p.cursor <= k && StaysUsed(p, ops, k) ==> k in s.returned)
      && (NextCalls(ops) > p.size - p.cursor ==> s.finished)
    decreases |ops|
  {
    if ops != [] {
      var (q, r) := Apply(p, ops[0]);
      if !(ops[0].Next? && r.Null?) {
        SweepVisitsAll(q, ops[1..]);
        var s, rest := SweepOf(p, ops), SweepOf(q, ops[1..]);
        if ops[0].Next? {
          assert s.returned == [r.k] + rest.returned;
          forall k | p.cursor <= k && StaysUsed(p, ops, k) && s.finished ensures k in s.returned {
            if k >= q.cursor {
              assert StaysUsed(q, ops[1..], k) && k in rest.returned;
            }
          }
        }
      }
    }
  }

  // ---------------------------------------------------------------- sweeps in an execution

  // The same, read off the results of an execution.
  function SweepResults(ops: seq<Op>, results: seq<Result>): (seq<nat>, bool)
    requires |ops| == |results|
  {
    if ops == [] then ([], false)
    else if ops[0].Next? && results[0].Null? then ([], true)
    else
      var (returned, finished) := SweepResults(ops[1..], results[1..]);
      (if ops[0].Next? && results[0].Slot? then [results[0].k] + returned else returned, finished)
  }

  lemma ExecSnoc(p: Pool, ops: seq<Op>, op: Op)
    requires Ok(p)
    ensures
      var b := Exec(p, ops);
      Exec(p, ops + [op]) == (Apply(b.0, op).0, b.1 + [Apply(b.0, op).1])
  {
    assert (ops + [op])[..|ops|] == ops;
  }

  // An execution begins with its first call.
  lemma {:induction false} ExecCons(p: Pool, op: Op, ops: seq<Op>, q: Pool, r: Result)
    requires Ok(p) && Apply(p, op) == (q, r)
    ensures Exec(p, [op] + ops) == (Exec(q, ops).0, [r] + Exec(q, ops).1)
    decreases |ops|
  {
    if ops == [] {
      ExecSnoc(p, [], op);
      assert [] + [op] == [op] + ops && Exec(p, []).1 + [r] == [r] + Exec(q, ops).1;
    } else {
      var mid, z := ops[..|ops| - 1], ops[|ops| - 1];
      ExecCons(p, op, mid, q, r);
      ExecSnoc(p, [op] + mid, z);
      assert [op] + mid + [z] == [op] + ops;
      assert [r] + Exec(q, mid).1 + [Apply(Exec(q, mid).0, z).1] == [r] + Exec(q, ops).1;
    }
  }

  lemma {:induction false} SweepIsExec(p: Pool, ops: seq<Op>)
    requires Ok(p)
    ensures SweepResults(ops, Exec(p, ops).1) == (SweepOf(p, ops).returned, SweepOf(p, ops).finished)
    decreases |ops|
  {
    if ops != [] {
      var (q, r) := Apply(p, ops[0]);
      ExecCons(p, ops[0], ops[1..], q, r);
      assert [ops[0]] + ops[1..] == ops;
      assert Exec(p, ops).1[1..] == Exec(q, ops[1..]).1;
      SweepIsExec(q, ops[1..]);
    }
  }

  // Call j of an execution is applied to the state before it.
  lemma {:induction false} ExecAt(p: Pool, ops: seq<Op>, j: nat)
    requires Ok(p) && j < |ops|
    ensures (Exec(p, ops[..j + 1]).0, Exec(p, ops).1[j]) == Apply(Exec(p, ops[..j]).0, ops[j])
  {
    var fs := ops[..|ops| - 1];
    if j == |fs| {
      assert ops[..j] == fs && ops[..j + 1] == ops;
    } else {
      ExecAt(p, fs, j);
      assert fs[..j] == ops[..j] && fs[..j + 1] == ops[..j + 1];
    }
  }

  // Call j is the one that ends a sweep.
  predicate EndsSweep(ops: seq<Op>, results: seq<Result>, j: nat)
    requires |ops| == |results|
  {
    j < |ops| && ops[j].Next? && results[j].Null?
  }

  lemma {:induction false} FinishedBy(ops: seq<Op>, results: seq<Result>)
    requires |ops| == |results| && SweepResults(ops, results).1
    ensures exists j: nat :: EndsSweep(ops, results, j)
    decreases |ops|
  {
    if EndsSweep(ops, results, 0) {
    } else {
      FinishedBy(ops[1..], results[1..]);
      var j: nat :| EndsSweep(ops[1..], results[1..], j);
      assert EndsSweep(ops, results, j + 1);
    }
  }

  // What the sweep theorem says of the results of any execution: they increase, every one of them is
  // in use at the moment it is returned, none that stays in use is missed, and the sweep ends, with a
  // call that returns NULL and leaves the cursor at 0.
  lemma SweepOfExecution(p: Pool, ops: seq<Op>)
    requires Ok(p) && InitCursor !in ops
    ensures
      var results := Exec(p, ops).1;
      var (returned, finished) := SweepResults(ops, results);
      && Increasing(returned)
      && (forall i :: 0 <= i < |returned| ==> p.cursor <= returned[i] < p.size)
      && (forall j :: 0 <= j < |ops| && ops[j].Next? && results[j].Slot? ==>
            results[j].k in Exec(p, ops[..j]).0.used)
      && (finished ==> forall k :: p.cursor <= k && StaysUsed(p, ops, k) ==> k in returned)
      && (NextCalls(ops) > p.size - p.cursor ==> finished)
      && (finished ==> exists j: nat :: EndsSweep(ops, results, j))
      && (forall j: nat :: EndsSweep(ops, results, j) ==> Exec(p, ops[..j + 1]).0.cursor == 0)
  {
    SweepIsExec(p, ops);
    SweepVisitsAll(p, ops);
    var results := Exec(p, ops).1;
    forall j | 0 <= j < |ops| && ops[j].Next? && results[j].Slot?
      ensures results[j].k in Exec(p, ops[..j]).0.used
    {
      ExecAt(p, ops, j);
    }
    forall j: nat | EndsSweep(ops, results, j) ensures Exec(p, ops[..j + 1]).0.cursor == 0 {
      ExecAt(p, ops, j);
    }
    if SweepResults(ops, results).1 { FinishedBy(ops, results); }
  }

  // A sweep begun by InitPoolItemCursor, wherever the cursor stood: it changes nothing else, and the
  // calls after it return every slot that stays in use, from slot 0 on, within size + 1 of them.
  lemma SweepFromTheStart(p: Pool, ops: seq<Op>)
    requires Ok(p) && InitCursor !in ops
    ensures
      var q := Apply(p, InitCursor).0;
      var results := Exec(p, [InitCursor] + ops).1;
      var (returned, finished) := SweepResults(ops, results[1..]);
      && q.used == p.used && q.size == p.size
      && Increasing(returned) && (forall i :: 0 <= i < |returned| ==> returned[i] < p.size)
      && (finished ==> forall k :: StaysUsed(q, ops, k) ==> k in returned)
      && (NextCalls(ops) > p.size ==> finished)
  {
    var (q, r) := Apply(p, InitCursor);
    ExecCons(p, InitCursor, ops, q, r);
    assert Exec(p, [InitCursor] + ops).1[1..] == Exec(q, ops).1;
    SweepOfExecution(q, ops);
  }
}
