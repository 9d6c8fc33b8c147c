/** The bitmap pool of producers, and its refinement of the abstract allocator. */
module ProducerPools {
  import opened Common
  import opened PoolSpec
  import opened Producers

  const CHAR_BIT: nat := 8
  const MAX_BITSET_SIZE: nat := 0xFFFF * CHAR_BIT
  const UINT: nat := 0x1_0000_0000

  // m_nBitSetSize: the arithmetic is on unsigned int, so it wraps.
  function BitsetSize(n: nat): nat {
    ((n / CHAR_BIT + 1) * 8) % UINT
  }

  lemma SizeCheck(n: nat)
    requires n < UINT
    ensures BitsetSize(n) <= MAX_BITSET_SIZE <==> n < 524280 || n >= UINT - 8
    ensures n < UINT - 8 ==> n < BitsetSize(n) <= n + 8
    ensures n >= UINT - 8 ==> BitsetSize(n) == 0
  {
    if n < UINT - 8 {
      assert n / CHAR_BIT + 1 <= UINT / 8 - 1;
    } else {
      assert n / CHAR_BIT + 1 == UINT / 8;
    }
  }

  datatype CreateResult = Created | TooLarge | BadAlloc

  ghost predicate Configured(p: Producer, broker: string, dest: string, topic: bool, ack: bool)
    reads p
  {
    p.brokerURI == broker && p.destURI == dest && p.useTopic == topic && p.clientAck == ack
  }

  // The array of producers and the loop that hands each of them the URI settings.
  method NewProducers(n: nat, broker: string, dest: string, topic: bool, ack: bool) returns (pool: seq<Producer>)
    ensures |pool| == n && fresh(pool)
    ensures forall i :: 0 <= i < n ==> pool[i].slot == i && pool[i].index == NPOS && pool[i].destination == None
    ensures forall i :: 0 <= i < n ==> Configured(pool[i], broker, dest, topic, ack)
  {
    pool := [];
    while |pool| < n
      invariant |pool| <= n && fresh(pool)
      invariant forall i :: 0 <= i < |pool| ==>
        pool[i].slot == i && pool[i].index == NPOS && pool[i].destination == None
      decreases n - |pool|
    {
      var p := new Producer(|pool|);
      pool := pool + [p];
    }
    for i := 0 to n
      invariant forall j :: 0 <= j < n ==> pool[j].index == NPOS && pool[j].destination == None
      invariant forall j :: 0 <= j < i ==> Configured(pool[j], broker, dest, topic, ack)
    {
      pool[i].SetURIInfo(broker, dest, topic, ack);
    }
  }

  class ProducerPool {
    var cursor: nat
    var size: nat
    var usedCount: nat
    var items: seq<Producer>  // the array m_pool points to
    var hasArray: bool       // m_pool is not NULL
    var dangling: bool        // the array m_pool points to has been deleted
    var created: bool
    var bitsetSize: nat
    const bits: array<bool>

    constructor ()
      ensures Fresh() && fresh(bits)
    {
      cursor, size, usedCount, items, created, bitsetSize := 0, 0, 0, [], false, 0;
      hasArray, dangling := false, false;
      bits := new bool[MAX_BITSET_SIZE](_ => false);
    }

    // Not created yet; a failed CreatePool leaves the pool in such a state.
    ghost predicate Fresh()
      reads this, bits
    {
      && !created && cursor == 0 && usedCount == 0 && items == [] && !hasArray && !dangling
      && bits.Length == MAX_BITSET_SIZE && forall i :: 0 <= i < MAX_BITSET_SIZE ==> !bits[i]
    }

    // The slots that can ever be handed out: none if the bitset size has wrapped to 0.
    ghost function Capacity(): nat
      reads this
    {
      if bitsetSize == 0 then 0 else size
    }

    ghost predicate Shape()
      reads this
    {
      && created && bits.Length == MAX_BITSET_SIZE && |items| == size < UINT
      && !dangling && (!hasArray ==> items == [])
      && (bitsetSize != 0 ==> size < bitsetSize <= MAX_BITSET_SIZE)
      && cursor <= Capacity()
      && (forall i :: 0 <= i < size ==> items[i].slot == i)
    }

    // A slot's bit is set exactly when its producer's index is the slot; otherwise the index is NPOS.
    ghost predicate Indexed()
      requires Shape()
      reads this, bits, items`index
    {
      && (forall i :: 0 <= i < MAX_BITSET_SIZE && bits[i] ==> i < Capacity() && items[i].index == i)
      && (forall i :: 0 <= i < size ==>
            items[i].index == NPOS || (items[i].index == i && i < MAX_BITSET_SIZE && bits[i]))
    }

    ghost function Used(): set<nat>
      requires bits.Length == MAX_BITSET_SIZE
      reads bits
    {
      set i: nat | i < MAX_BITSET_SIZE && bits[i]
    }

    ghost predicate Valid()
      reads this, bits, items`index
    {
      Shape() && Indexed() && usedCount == |Used()|
    }

    ghost function View(): (p: Pool)
      requires Valid()
      reads this, bits, items`index
      ensures Ok(p)
    {
      Pool(Capacity(), Used(), cursor)
    }

    // Whether CreatePool leaves a created pool sound.  Nothing is released or reset, so whatever was in
    // use stays marked although its producer is gone; a refused size has been stored already; and the
    // exception of a failed allocation is thrown as a copy of the pool, which deletes the old array as it
    // goes.  (After DestroyPool there is no array, and a failed allocation of size 0 changes nothing.)
    ghost predicate Survives(n: nat, allocates: bool)
      requires Valid()
      reads this, bits, items`index
    {
      && (n < 524280 || n >= UINT - 8)
      && if allocates then Used() == {} && cursor <= (if n < 524280 then n else 0) else !hasArray && n == 0
    }

    // A created pool after a failed allocation.
    lemma FailedIsValid()
      requires created && bits.Length == MAX_BITSET_SIZE && size < UINT && dangling == hasArray
      requires bitsetSize != 0 ==> size < bitsetSize <= MAX_BITSET_SIZE
      requires !hasArray ==> items == [] && cursor == 0 && Used() == {} && usedCount == 0
      ensures Valid() <==> !hasArray && size == 0
    {
      if !hasArray && size == 0 {
        assert Shape();
        forall i: nat | i < MAX_BITSET_SIZE ensures !bits[i] {
          assert i !in Used();
        }
      }
    }

    // With unused producers in all slots, the pool is valid exactly if no bit is set.
    lemma RecreatedIsValid()
      requires created && hasArray && !dangling && bits.Length == MAX_BITSET_SIZE && |items| == size < UINT
      requires bitsetSize != 0 ==> size < bitsetSize <= MAX_BITSET_SIZE
      requires usedCount == |Used()|
      requires forall i :: 0 <= i < size ==> items[i].slot == i && items[i].index == NPOS
      ensures Valid() <==> Used() == {} && cursor <= Capacity()
    {
      if Used() == {} {
        forall i: nat | i < MAX_BITSET_SIZE ensures !bits[i] {
          assert i !in Used();
        }
      } else {
        var i :| i in Used();
        assert i != NPOS;
      }
    }

    method CreatePool(n: nat, broker: string, dest: string, topic: bool, ack: bool, allocates: bool)
      returns (r: CreateResult)
      requires (Fresh() || Valid()) && n < UINT
      modifies this
      ensures r == if 524280 <= n < UINT - 8 then TooLarge else if !allocates then BadAlloc else Created
      ensures r == Created ==> fresh(items) && |items| == n && hasArray && forall i :: 0 <= i < n ==>
        items[i].destination == None && Configured(items[i], broker, dest, topic, ack)
      ensures r != Created ==> items == old(items) && hasArray == old(hasArray)
      ensures dangling <==> r == BadAlloc && old(hasArray)
      ensures !old(created) ==>
        if r == Created then Valid() && View() == Pool(if n < 524280 then n else 0, {}, 0) else Fresh()
      ensures old(created) ==> created && (Valid() <==> old(Survives(n, allocates)))
      ensures size == n && bitsetSize == BitsetSize(n) && cursor == old(cursor) && usedCount == old(usedCount)
    {
      SizeCheck(n);
      size := n;
      bitsetSize := BitsetSize(n);
      if bitsetSize > MAX_BITSET_SIZE {
        return TooLarge;
      }
      if !allocates {
        dangling := hasArray;
        if created {
          FailedIsValid();
        }
        return BadAlloc;
      }
      items := NewProducers(n, broker, dest, topic, ack);
      hasArray := true;
      created := true;
      RecreatedIsValid();
      r := Created;
    }

    // Deletes the items but leaves `created` set, so nothing can be allocated from then on.
    method DestroyPool()
      requires Valid() || Fresh()
      modifies this, bits
      ensures items == [] && created == old(created)
      ensures if created then Valid() && View() == Pool(0, {}, 0) else Fresh()
    {
      items, hasArray, size, cursor, usedCount := [], false, 0, 0, 0;
      forall i | 0 <= i < bits.Length {
        bits[i] := false;
      }
      assert Used() == {};
    }

    // p is one of this pool's producers.
    ghost predicate Owns(p: Producer)
      reads this`items
    {
      p.slot < |items| && items[p.slot] == p
    }

    // m_bits.set on a bit that changes.
    method SetBit(i: nat, on: bool)
      requires bits.Length == MAX_BITSET_SIZE && i < MAX_BITSET_SIZE && bits[i] != on
      modifies bits
      ensures forall j :: 0 <= j < MAX_BITSET_SIZE ==> bits[j] == if j == i then on else old(bits[j])
      ensures Used() == if on then old(Used()) + {i} else old(Used()) - {i}
      ensures |Used()| == |old(Used())| + if on then 1 else -1
    {
      bits[i] := on;
      if on {
        assert Used() == old(Used()) + {i};
      } else {
        assert old(Used()) == Used() + {i};
      }
    }

    // The free-slot scan: it stays inside the bitset and, unless the bitset size has wrapped,
    // always finds a clear bit, namely bit `size` when the pool is full.
    method ScanForClear() returns (pos: nat)
      requires Valid()
      ensures bitsetSize != 0 ==> pos == FirstOut(Used(), 0, size) < bitsetSize
      ensures bitsetSize == 0 ==> pos == NPOS
    {
      pos := NPOS;
      assert bitsetSize != 0 ==> !bits[size];
      var i := 0;
      while i < bitsetSize
        invariant 0 <= i <= bitsetSize && pos == NPOS
        invariant forall j :: 0 <= j < i ==> bits[j]
      {
        if !bits[i] {
          pos := i;
          break;
        }
        i := i + 1;
      }
      if bitsetSize != 0 {
        FirstOutIs(Used(), 0, size, pos);
      }
    }

    method ScanForSet() returns (pos: nat)
      requires Valid()
      ensures pos == NPOS || pos < Capacity()
      ensures FirstIn(Used(), cursor, Capacity()) == if pos == NPOS then Capacity() else pos
    {
      pos := NPOS;
      var i := cursor;
      while i < bitsetSize
        invariant cursor <= i && (i <= bitsetSize || i == cursor) && pos == NPOS
        invariant forall j :: cursor <= j < i ==> !bits[j]
      {
        if bits[i] {
          pos := i;
          break;
        }
        i := i + 1;
      }
      FirstInIs(Used(), cursor, Capacity(), if pos == NPOS then Capacity() else pos);
    }

    method CreatePoolItem() returns (p: Producer?)
      requires Valid()
      modifies this`usedCount, bits, items`index
      ensures Valid()
      ensures View() == Apply(old(View()), Allocate).0
      ensures match Apply(old(View()), Allocate).1
              case Slot(k) => k < size && p == items[k]
              case _ => p == null
      ensures p != null ==> Owns(p) && p.index == p.slot && p.slot !in old(Used())
      ensures if p == null then |old(Used())| == Capacity() && Used() == old(Used())
              else Used() == old(Used()) + {p.slot} && forall i :: 0 <= i < p.slot ==> i in old(Used())
      ensures cursor == old(cursor)
    {
      var pos := ScanForClear();
      OverflowIffFull(View());
      if pos >= size {
        return null;
      }
      items[pos].SetIndex(pos);
      SetBit(pos, true);
      usedCount := usedCount + 1;
      p := items[pos];
    }

    // Lines 123-131: the producer's index and the bit go, and the count.
    method Unmark(p: Producer, i: nat)
      requires bits.Length == MAX_BITSET_SIZE && i < MAX_BITSET_SIZE
      modifies this`usedCount, bits, p`index
      ensures p.index == NPOS
      ensures forall j :: 0 <= j < MAX_BITSET_SIZE ==> bits[j] == (j != i && old(bits[j]))
      ensures Used() == old(Used()) - {i} && |Used()| == |old(Used())| - if old(bits[i]) then 1 else 0
      ensures usedCount == if old(usedCount) > 0 then old(usedCount) - 1 else 0
    {
      p.SetIndex(NPOS);
      if bits[i] {
        SetBit(i, false);
      } else {
        assert Used() - {i} == Used();
      }
      if usedCount > 0 {
        usedCount := usedCount - 1;
      }
    }

    // A producer of this pool is given back; m_bits.set is never out of range.
    method FreePoolItem(p: Producer?)
      requires Valid() && (p != null ==> Owns(p))
      modifies this`usedCount, bits, items`index
      ensures Valid()
      ensures View() == Apply(old(View()), if p == null then FreeNull else Free(p.slot)).0
      ensures p != null ==> p.index == NPOS
      ensures p != null && old(p.index) == NPOS ==> View() == old(View())
      ensures Used() == (if p == null then old(Used()) else old(Used()) - {p.slot}) && cursor == old(cursor)
    {
      if p == null {
        return;
      }
      var idx := p.index;
      if idx >= size {
        assert Used() - {p.slot} == Used();
        return;
      }
      Unmark(p, idx);
    }

    // A producer of another pool takes a bit or the count away from this one: the pool stays sound
    // exactly if the producer's index is out of range or there is nothing to take.  True if m_bits.set
    // throws out_of_range, which takes a pool larger than the bitset.
    method FreeForeignItem(p: Producer) returns (escapes: bool)
      requires Valid() && !Owns(p)
      modifies this`usedCount, bits, p`index
      ensures escapes <==> MAX_BITSET_SIZE <= old(p.index) < size
      ensures Valid() <==>
        old(p.index) >= size || old(p.index) >= MAX_BITSET_SIZE || (!old(bits[p.index]) && old(usedCount) == 0)
      ensures old(p.index) >= size || escapes ==> View() == old(View())
      ensures old(p.index) < size && !escapes ==> usedCount == if old(usedCount) > 0 then old(usedCount) - 1 else 0
    {
      escapes := false;
      var idx := p.index;
      if idx >= size {
        return;
      }
      assert p !in items;
      if idx >= MAX_BITSET_SIZE {
        p.SetIndex(NPOS);
        return true;
      }
      Unmark(p, idx);
    }

    method InitPoolItemCursor()
      requires Valid()
      modifies this`cursor
      ensures Valid() && View() == Apply(old(View()), InitCursor).0
      ensures cursor == 0 && View().used == old(View()).used && View().size == old(View()).size
    {
      cursor := 0;
    }

    method GetNextPoolItem() returns (p: Producer?)
      requires Valid()
      modifies this`cursor
      ensures Valid()
      ensures View() == Apply(old(View()), Next).0
      ensures match Apply(old(View()), Next).1
              case Slot(k) => k < size && p == items[k] && p.index == k
              case _ => p == null
      ensures Used() == old(Used()) && cursor == if p == null then 0 else p.slot + 1
      ensures p != null ==> p.slot in Used() && old(cursor) <= p.slot
      ensures forall i :: old(cursor) <= i < (if p == null then Capacity() else p.slot) ==> i !in Used()
    {
      var pos := ScanForSet();
      if pos >= size {
        cursor := 0;
        return null;
      }
      cursor := pos + 1;
      p := items[pos];
    }

    method GetUsedPoolItemCount() returns (r: nat)
      requires Valid()
      ensures r == |View().used| <= View().size
    {
      OverflowIffFull(View());
      r := usedCount;
    }

    method Do(op: Op) returns (r: Result)
      requires Valid() && (op.Free? ==> op.slot < size)
      modifies this`usedCount, this`cursor, bits, items`index
      ensures Valid() && (View(), r) == Apply(old(View()), op)
    {
      match op
      case Allocate =>
        var p := CreatePoolItem();
        r := if p == null then Null else Slot(p.index);
      case Free(k) =>
        FreePoolItem(items[k]);
        r := Unit;
      case FreeNull =>
        FreePoolItem(null);
        r := Unit;
      case InitCursor =>
        InitPoolItemCursor();
        r := Unit;
      case Next =>
        var p := GetNextPoolItem();
        r := if p == null then Null else Slot(p.index);
    }

    // Any sequence of calls behaves as the abstract allocator does.
    method DoAll(ops: seq<Op>) returns (results: seq<Result>)
      requires Valid() && forall op :: op in ops && op.Free? ==> op.slot < size
      modifies this`usedCount, this`cursor, bits, items`index
      ensures Valid() && (View(), results) == Exec(old(View()), ops)
    {
      results := [];
      for i := 0 to |ops|
        invariant Valid() && (View(), results) == Exec(old(View()), ops[..i])
      {
        assert ops[..i + 1][..i] == ops[..i] && ops[i] in ops;
        var r := Do(ops[i]);
        results := results + [r];
      }
      assert ops[..|ops|] == ops;
    }
  }

  // ---------------------------------------------------------------- pools that do not survive

  // A new pool of n slots whose first producer is in use.
  method FirstInUse(n: nat) returns (pool: ProducerPool, p: Producer)
    requires 0 < n < 524280
    ensures fresh(pool) && fresh(pool.bits) && fresh(pool.items) && fresh(p) && pool.Valid() && pool.size == n
    ensures pool.Owns(p) && p.index == p.slot == 0 && pool.bits[0] && pool.usedCount == 1
  {
    pool := new ProducerPool();
    var r := pool.CreatePool(n, "", "", false, true, true);
    FirstOutIs({}, 0, n, 0);
    var q := pool.CreatePoolItem();
    p := q;
    assert 0 in pool.Used() && pool.Used() == {0};
  }

  // A second CreatePool while a producer is in use, with a refused size, or with a failed allocation.
  method RecreateInUse(n: nat, m: nat) returns (pool: ProducerPool)
    requires 0 < n < 524280 && m < 524280
    ensures fresh(pool) && pool.created && !pool.Valid()
  {
    var p;
    pool, p := FirstInUse(n);
    assert 0 in pool.Used();
    var r := pool.CreatePool(m, "", "", false, true, true);
  }

  method RecreateTooLarge(n: nat, m: nat) returns (pool: ProducerPool)
    requires n < 524280 <= m < UINT - 8
    ensures fresh(pool) && pool.created && pool.usedCount == 0 && !pool.Valid()
  {
    pool := new ProducerPool();
    var r := pool.CreatePool(n, "", "", false, true, true);
    r := pool.CreatePool(m, "", "", false, true, true);
  }

  method RecreateFails(n: nat, m: nat) returns (pool: ProducerPool)
    requires n < 524280 && m < 524280
    ensures fresh(pool) && pool.created && pool.usedCount == 0 && pool.dangling && !pool.Valid()
  {
    pool := new ProducerPool();
    var r := pool.CreatePool(n, "", "", false, true, true);
    r := pool.CreatePool(m, "", "", false, true, false);
  }

  // Two pools, the first producer of one given to the other, which then counts its own as free.
  method FreeInWrongPool(n: nat, m: nat) returns (pool: ProducerPool, p: Producer)
    requires 0 < n < 524280 && 0 < m < 524280
    ensures fresh(pool) && fresh(p) && pool.Owns(p) && p.index == 0 && pool.usedCount == 0 && !pool.Valid()
  {
    var other, q := FirstInUse(m);
    pool, p := FirstInUse(n);
    var escapes := pool.FreeForeignItem(q);
  }
}
