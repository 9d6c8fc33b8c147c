/** APR rings: intrusive circular doubly linked lists with a sentinel.

    A ring is described by the sequence `c` of its nodes in `next` order.  When the
    ring has a head, `c[0]` is the sentinel and `c[1..]` are the elements. */
module Rings {

  class Node {
    var next: Node
    var prev: Node

    // APR_RING_ELEM_INIT
    constructor ()
      ensures next == this && prev == this
    {
      next := this;
      prev := this;
    }
  }

  ghost predicate Distinct(c: seq<Node>) {
    forall i, j :: 0 <= i < j < |c| ==> c[i] != c[j]
  }

  ghost predicate Disjoint(a: seq<Node>, b: seq<Node>) {
    forall n :: n in a ==> n !in b
  }

  ghost predicate Linked(a: Node, b: Node)
    reads a, b
  {
    a.next == b && b.prev == a
  }

  // A run of nodes linked both ways; the two outer links are unconstrained.
  ghost predicate Chain(c: seq<Node>)
    reads c
  {
    && Distinct(c)
    && (forall i :: 0 <= i < |c| - 1 ==> c[i].next == c[i + 1])
    && (forall i :: 0 < i < |c| ==> c[i].prev == c[i - 1])
  }

  ghost predicate Ring(c: seq<Node>)
    reads c
  {
    c != [] && Chain(c) && Linked(c[|c| - 1], c[0])
  }

  // ---------------------------------------------------------------- facts about rings

  lemma ChainJoin(a: seq<Node>, b: seq<Node>)
    requires Chain(a) && Chain(b) && Disjoint(a, b)
    requires a != [] && b != [] ==> Linked(a[|a| - 1], b[0])
    ensures Chain(a + b)
  {
    var c := a + b;
    forall i | 0 <= i < |c| - 1 ensures c[i].next == c[i + 1] {
      if i == |a| - 1 { assert c[i] == a[|a| - 1] && c[i + 1] == b[0]; }
    }
    forall i | 0 < i < |c| ensures c[i].prev == c[i - 1] {
      if i == |a| { assert c[i] == b[0]; }
    }
    forall i, j | 0 <= i < j < |c| ensures c[i] != c[j] {
      if i < |a| <= j { assert c[i] in a && c[j] in b; }
    }
  }

  // Two rings with the same first node are the same sequence.
  lemma {:induction false} RingPrefixUnique(c: seq<Node>, d: seq<Node>, k: nat)
    requires Ring(c) && Ring(d) && c[0] == d[0]
    requires k <= |c| && k <= |d|
    ensures c[..k] == d[..k]
  {
    if k > 1 {
      RingPrefixUnique(c, d, k - 1);
      assert c[k - 2] == c[..k - 1][k - 2] == d[..k - 1][k - 2] == d[k - 2];
      assert c[k - 1] == c[k - 2].next == d[k - 1];
      assert c[..k] == c[..k - 1] + [c[k - 1]];
      assert d[..k] == d[..k - 1] + [d[k - 1]];
    }
  }

  lemma RingNotShorter(c: seq<Node>, d: seq<Node>)
    requires Ring(c) && Ring(d) && c[0] == d[0]
    ensures |c| >= |d|
  {
    if |c| < |d| {
      RingPrefixUnique(c, d, |c|);
      assert false;
    }
  }

  lemma SameStart(c: seq<Node>, d: seq<Node>)
    requires Ring(c) && Ring(d) && c[0] == d[0]
    ensures c == d
  {
    RingNotShorter(c, d);
    RingNotShorter(d, c);
    RingPrefixUnique(c, d, |c|);
    assert c == c[..|c|] && d == d[..|d|];
  }

  // The ring read from its i-th node on.
  ghost function Rotated(c: seq<Node>, i: nat): seq<Node>
    requires i < |c|
  {
    c[i..] + c[..i]
  }

  lemma ChainPart(c: seq<Node>, lo: nat, hi: nat)
    requires Chain(c) && lo <= hi <= |c|
    ensures Chain(c[lo..hi])
  {
  }

  lemma RotatedIsRing(c: seq<Node>, i: nat)
    requires Ring(c) && i < |c|
    ensures Ring(Rotated(c, i))
  {
    if i > 0 {
      ChainPart(c, 0, i);
      ChainPart(c, i, |c|);
      assert c[i..][|c| - i - 1] == c[|c| - 1] && c[..i][0] == c[0];
      ChainJoin(c[i..], c[..i]);
    } else {
      assert Rotated(c, i) == c;
    }
  }

  // The links determine the ring: two rings with a common node are the same up to where they start.
  lemma RingUnique(c: seq<Node>, d: seq<Node>, i: nat, j: nat)
    requires Ring(c) && Ring(d) && i < |c| && j < |d| && c[i] == d[j]
    ensures Rotated(c, i) == Rotated(d, j) && |c| == |d| && forall n :: n in c <==> n in d
  {
    RotatedIsRing(c, i);
    RotatedIsRing(d, j);
    SameStart(Rotated(c, i), Rotated(d, j));
    forall n ensures n in c <==> n in Rotated(c, i) {
      assert c == c[..i] + c[i..];
    }
    forall n ensures n in d <==> n in Rotated(d, j) {
      assert d == d[..j] + d[j..];
    }
  }

  // ---------------------------------------------------------------- INIT and EMPTY

  method Init(h: Node)
    modifies h
    ensures Ring([h])
  {
    h.next := h;
    h.prev := h;
  }

  method IsEmpty(h: Node, ghost c: seq<Node>) returns (empty: bool)
    requires Ring(c) && c[0] == h
    ensures empty <==> c[1..] == []
  {
    empty := h.next == h;
    assert |c| > 1 ==> c[1] == h.next;
  }

  // ---------------------------------------------------------------- splicing

  // Joining three chains whose ends have been tied up into one ring.
  lemma ChainAround(a: seq<Node>, m: seq<Node>, b: seq<Node>)
    requires a != [] && m != []
    requires Chain(a) && Chain(m) && Chain(b)
    requires Disjoint(a, m) && Disjoint(b, m) && Disjoint(a, b)
    requires Linked(a[|a| - 1], m[0])
    requires if b == [] then Linked(m[|m| - 1], a[0]) else Linked(m[|m| - 1], b[0]) && Linked(b[|b| - 1], a[0])
    ensures Ring(a + m + b)
  {
    ChainJoin(a, m);
    ChainJoin(a + m, b);
  }

  // Cutting a ring in two: both parts are chains, tied at the cut and at the closing link.
  lemma RingParts(a: seq<Node>, b: seq<Node>)
    requires a != [] && Ring(a + b)
    ensures Chain(a) && Chain(b) && Disjoint(a, b)
    ensures if b == [] then Linked(a[|a| - 1], a[0]) else Linked(a[|a| - 1], b[0]) && Linked(b[|b| - 1], a[0])
  {
    var c := a + b;
    assert a == c[..|a|] && b == c[|a|..];
    if b != [] {
      assert c[|a| - 1] == a[|a| - 1] && c[|a|] == b[0] && c[|c| - 1] == b[|b| - 1];
    }
  }

  // A chain survives updates that touch only its two outer links.
  twostate lemma ChainKept(c: seq<Node>)
    requires old(Chain(c))
    requires forall n :: n in c && n != c[|c| - 1] ==> n.next == old(n.next)
    requires forall n :: n in c && n != c[0] ==> n.prev == old(n.prev)
    ensures Chain(c)
  {
  }

  // The ring a + b, whose node lep ends a, becomes a + ch + b.
  method SpliceAfter(lep: Node, ep1: Node, epN: Node, ghost a: seq<Node>, ghost b: seq<Node>, ghost ch: seq<Node>)
    requires a != [] && Ring(a + b) && lep == a[|a| - 1]
    requires Chain(ch) && ch != [] && ch[0] == ep1 && ch[|ch| - 1] == epN
    requires Disjoint(a, ch) && Disjoint(b, ch)
    modifies a, b, ch
    ensures Ring(a + ch + b)
  {
    RingParts(a, b);
    assert lep in a && a[0] in a && ep1 in ch && epN in ch && (b != [] ==> b[0] in b);
    assert lep.next == if b == [] then a[0] else b[0];
    ep1.prev := lep;
    epN.next := lep.next;
    lep.next.prev := epN;
    lep.next := ep1;
    ChainKept(a);
    ChainKept(b);
    ChainKept(ch);
    ChainAround(a, ch, b);
  }

  // The ring a + b, whose node lep follows a, becomes a + ch + b.
  method SpliceBefore(lep: Node, ep1: Node, epN: Node, ghost a: seq<Node>, ghost b: seq<Node>, ghost ch: seq<Node>)
    requires a != [] && Ring(a + b) && lep == if b == [] then a[0] else b[0]
    requires Chain(ch) && ch != [] && ch[0] == ep1 && ch[|ch| - 1] == epN
    requires Disjoint(a, ch) && Disjoint(b, ch)
    modifies a, b, ch
    ensures Ring(a + ch + b)
  {
    RingParts(a, b);
    assert a[0] in a && ep1 in ch && epN in ch && (b != [] ==> b[0] in b);
    assert lep.prev == a[|a| - 1] && a[|a| - 1] in a;
    epN.next := lep;
    ep1.prev := lep.prev;
    lep.prev.next := ep1;
    lep.prev := epN;
    ChainKept(a);
    ChainKept(b);
    ChainKept(ch);
    ChainAround(a, ch, b);
  }

  method InsertAfter(lep: Node, nep: Node, ghost a: seq<Node>, ghost b: seq<Node>)
    requires a != [] && Ring(a + b) && lep == a[|a| - 1] && nep !in a && nep !in b
    modifies a, b, nep
    ensures Ring(a + [nep] + b)
  {
    SpliceAfter(lep, nep, nep, a, b, [nep]);
  }

  method InsertBefore(lep: Node, nep: Node, ghost a: seq<Node>, ghost b: seq<Node>)
    requires a != [] && Ring(a + b) && lep == (if b == [] then a[0] else b[0]) && nep !in a && nep !in b
    modifies a, b, nep
    ensures Ring(a + [nep] + b)
  {
    SpliceBefore(lep, nep, nep, a, b, [nep]);
  }

  method InsertHead(h: Node, nep: Node, ghost elems: seq<Node>)
    requires Ring([h] + elems) && nep != h && nep !in elems
    modifies h, elems, nep
    ensures Ring([h] + ([nep] + elems))
  {
    InsertAfter(h, nep, [h], elems);
    assert [h] + [nep] + elems == [h] + ([nep] + elems);
  }

  method InsertTail(h: Node, nep: Node, ghost elems: seq<Node>)
    requires Ring([h] + elems) && nep != h && nep !in elems
    modifies h, elems, nep
    ensures Ring([h] + (elems + [nep]))
  {
    assert [h] + elems + [] == [h] + elems;
    InsertBefore(h, nep, [h] + elems, []);
    assert [h] + elems + [nep] + [] == [h] + (elems + [nep]);
  }

  // ---------------------------------------------------------------- unsplicing

  lemma ThreeParts(a: seq<Node>, m: seq<Node>, b: seq<Node>)
    requires a != [] && m != [] && Ring(a + m + b)
    ensures Chain(a) && Chain(m) && Chain(b)
    ensures Disjoint(a, m) && Disjoint(b, m) && Disjoint(a, b)
    ensures Linked(a[|a| - 1], m[0])
    ensures if b == [] then Linked(m[|m| - 1], a[0]) else Linked(m[|m| - 1], b[0]) && Linked(b[|b| - 1], a[0])
  {
    RingParts(a + m, b);
    assert a + m + b == a + (m + b);
    RingParts(a, m + b);
    assert m == (a + m)[|a|..];
    assert forall n :: n in m ==> n in a + m && n in m + b;
    assert forall n :: n in b ==> n in m + b;
  }

  // The ring a + m + b loses m; m stays a chain and keeps its two outer links.
  method Unsplice(ep1: Node, epN: Node, ghost a: seq<Node>, ghost m: seq<Node>, ghost b: seq<Node>)
    requires a != [] && m != [] && Ring(a + m + b)
    requires ep1 == m[0] && epN == m[|m| - 1]
    modifies a, b
    ensures Ring(a + b)
    ensures Chain(m) && Disjoint(a, m) && Disjoint(b, m)
    ensures ep1.prev == a[|a| - 1] && epN.next == if b == [] then a[0] else b[0]
  {
    ThreeParts(a, m, b);
    assert a[0] in a && a[|a| - 1] in a && (b != [] ==> b[0] in b && b[|b| - 1] in b);
    ep1.prev.next := epN.next;
    epN.next.prev := ep1.prev;
    ChainKept(a);
    ChainKept(b);
    ChainJoin(a, b);
  }

  method Remove(ep: Node, ghost a: seq<Node>, ghost b: seq<Node>)
    requires a != [] && Ring(a + [ep] + b)
    modifies a, b
    ensures Ring(a + b) && ep !in a && ep !in b
    ensures ep.prev == a[|a| - 1] && ep.next == if b == [] then a[0] else b[0]
  {
    Unsplice(ep, ep, a, [ep], b);
  }

  // Being a ring fixes every link of its nodes.
  twostate lemma RingSameLinks(c: seq<Node>)
    requires old(Ring(c)) && Ring(c)
    ensures forall n :: n in c ==> n.next == old(n.next) && n.prev == old(n.prev)
  {
    forall n | n in c ensures n.next == old(n.next) && n.prev == old(n.prev) {
      var i :| 0 <= i < |c| && c[i] == n;
      var succ, pred := if i < |c| - 1 then c[i + 1] else c[0], if i > 0 then c[i - 1] else c[|c| - 1];
      assert n.next == succ && n.prev == pred;
      assert old(n.next) == succ && old(n.prev) == pred;
    }
  }

  // Splicing a chain in and unsplicing it restores every link of the ring and the chain itself.
  method SpliceThenUnsplice(lep: Node, ep1: Node, epN: Node, after: bool,
                            ghost a: seq<Node>, ghost b: seq<Node>, ghost ch: seq<Node>)
    requires a != [] && Ring(a + b)
    requires lep == if after then a[|a| - 1] else if b == [] then a[0] else b[0]
    requires Chain(ch) && ch != [] && ch[0] == ep1 && ch[|ch| - 1] == epN
    requires Disjoint(a, ch) && Disjoint(b, ch)
    modifies a, b, ch
    ensures Ring(a + b) && Chain(ch)
    ensures forall n :: n in a + b ==> n.next == old(n.next) && n.prev == old(n.prev)
  {
    if after {
      SpliceAfter(lep, ep1, epN, a, b, ch);
    } else {
      SpliceBefore(lep, ep1, epN, a, b, ch);
    }
    Unsplice(ep1, epN, a, ch, b);
    RingSameLinks(a + b);
  }

  // Unsplicing a segment and splicing it back after its saved predecessor restores every link.
  method UnspliceThenSplice(ep1: Node, epN: Node, ghost a: seq<Node>, ghost m: seq<Node>, ghost b: seq<Node>)
    requires a != [] && m != [] && Ring(a + m + b)
    requires ep1 == m[0] && epN == m[|m| - 1]
    modifies a, m, b
    ensures Ring(a + m + b)
    ensures forall n :: n in a + m + b ==> n.next == old(n.next) && n.prev == old(n.prev)
  {
    ThreeParts(a, m, b);
    var pred := ep1.prev;
    Unsplice(ep1, epN, a, m, b);
    SpliceAfter(pred, ep1, epN, a, b, m);
    RingSameLinks(a + m + b);
  }

  // ---------------------------------------------------------------- CONCAT and PREPEND

  lemma TwoRings(h1: Node, h2: Node, e1: seq<Node>, e2: seq<Node>)
    requires Ring([h1] + e1) && Ring([h2] + e2)
    requires Disjoint([h1] + e1, [h2] + e2)
    ensures Chain(e1) && Chain(e2) && Disjoint([h1] + e1, e2) && Disjoint(e1, e2)
    ensures h2 !in e2 && h2 !in e1 && h1 !in e1 && h1 !in e2 && h1 != h2
    ensures if e1 == [] then Linked(h1, h1)
            else Linked(h1, e1[0]) && Linked(e1[|e1| - 1], h1) && e1[0] in e1 && e1[|e1| - 1] in e1
    ensures if e2 == [] then Linked(h2, h2)
            else Linked(h2, e2[0]) && Linked(e2[|e2| - 1], h2) && e2[0] in e2 && e2[|e2| - 1] in e2
  {
    RingParts([h1], e1);
    RingParts([h2], e2);
    assert h1 in [h1] && h2 in [h2] && h1 in [h1] + e1 && h2 in [h2] + e2;
    assert forall n :: n in e1 ==> n in [h1] + e1;
    assert forall n :: n in e2 ==> n in [h2] + e2;
  }

  // The macro arguments FIRST(h2) and LAST(h2) are read again at every use, in the middle of
  // the link updates, so they are written out here rather than passed to SpliceBefore.
  method Concat(h1: Node, h2: Node, ghost e1: seq<Node>, ghost e2: seq<Node>)
    requires Ring([h1] + e1) && Ring([h2] + e2)
    requires Disjoint([h1] + e1, [h2] + e2)
    modifies h1, e1, h2, e2
    ensures Ring([h1] + (e1 + e2)) && Ring([h2])
  {
    TwoRings(h1, h2, e1, e2);
    if h2.next != h2 {
      ghost var r1 := [h1] + e1;
      h2.prev.next := h1;
      h2.next.prev := h1.prev;
      h1.prev.next := h2.next;
      h1.prev := h2.prev;
      ChainKept(r1);
      ChainKept(e2);
      ChainAround(r1, e2, []);
      assert r1 + e2 + [] == [h1] + (e1 + e2);
      h2.next := h2;
      h2.prev := h2;
    } else {
      assert [h1] + e1 == [h1] + (e1 + e2);
    }
  }

  method Prepend(h1: Node, h2: Node, ghost e1: seq<Node>, ghost e2: seq<Node>)
    requires Ring([h1] + e1) && Ring([h2] + e2)
    requires Disjoint([h1] + e1, [h2] + e2)
    modifies h1, e1, h2, e2
    ensures Ring([h1] + (e2 + e1)) && Ring([h2])
  {
    TwoRings(h1, h2, e1, e2);
    if h2.next != h2 {
      h2.next.prev := h1;
      h2.prev.next := h1.next;
      h1.next.prev := h2.prev;
      h1.next := h2.next;
      ChainKept(e1);
      ChainKept(e2);
      ChainAround([h1], e2, e1);
      assert [h1] + e2 + e1 == [h1] + (e2 + e1);
      h2.next := h2;
      h2.prev := h2;
    } else {
      assert [h1] + e1 == [h1] + (e2 + e1);
    }
  }

  // ---------------------------------------------------------------- iteration

  method Foreach(h: Node, ghost c: seq<Node>) returns (visited: seq<Node>)
    requires Ring(c) && c[0] == h
    ensures visited == c[1..]
  {
    visited := [];
    var ep := h.next;
    while ep != h
      invariant |visited| < |c| && visited == c[1..|visited| + 1]
      invariant ep == if |visited| + 1 < |c| then c[|visited| + 1] else h
      decreases |c| - |visited|
    {
      visited := visited + [ep];
      ep := ep.next;
    }
  }

  // The elements a removing loop body leaves behind.
  function Kept(s: seq<Node>, remove: set<Node>): seq<Node> {
    if s == [] then []
    else
      var n := s[|s| - 1];
      Kept(s[..|s| - 1], remove) + if n in remove then [] else [n]
  }

  lemma {:induction false} KeptSubset(s: seq<Node>, remove: set<Node>)
    ensures forall n :: n in Kept(s, remove) <==> n in s && n !in remove
  {
    if s != [] {
      KeptSubset(s[..|s| - 1], remove);
      assert s == s[..|s| - 1] + [s[|s| - 1]];
    }
  }

  lemma KeptNext(c: seq<Node>, i: nat, remove: set<Node>)
    requires 1 <= i < |c|
    ensures Kept(c[1..i + 1], remove) == Kept(c[1..i], remove) + if c[i] in remove then [] else [c[i]]
  {
    assert c[1..i + 1][..i] == c[1..i + 1] && c[1..i + 1][..i - 1] == c[1..i];
  }

  // What is left of the ring after the first i nodes have been visited, up to and after node i.
  function Before(c: seq<Node>, i: nat, remove: set<Node>): seq<Node>
    requires 1 <= i <= |c|
  {
    [c[0]] + Kept(c[1..i], remove)
  }

  lemma RemovedAreOutside(c: seq<Node>, i: nat, remove: set<Node>, a: seq<Node>, b: seq<Node>)
    requires Distinct(c) && 1 <= i < |c| && c[0] !in remove
    requires a == Before(c, i, remove) && b == c[i + 1..]
    ensures forall n :: n in c[..i] && n in remove ==> n !in a && n !in b && n != c[i]
    ensures forall k :: 0 <= k < |a| ==> a[k] in c
    ensures forall k :: 0 <= k < |b| ==> b[k] in c
  {
    KeptSubset(c[1..i], remove);
    var kept := Kept(c[1..i], remove);
    forall k | 0 <= k < |a| ensures a[k] in c {
      if k > 0 { assert a[k] == kept[k - 1] && kept[k - 1] in c[1..i]; }
    }
  }

  // The loop body: remove the element if asked to, and then reuse its links.
  method VisitSafe(ep: Node, remove: set<Node>, ghost a: seq<Node>, ghost b: seq<Node>)
    requires a != [] && Ring(a + [ep] + b)
    modifies a, b, ep
    ensures Ring(a + (if ep in remove then [] else [ep]) + b)
    ensures ep in remove ==> Ring([ep])
  {
    if ep in remove {
      Remove(ep, a, b);
      ep.next := ep;
      ep.prev := ep;
      assert a + [] + b == a + b;
    }
  }

  // One round of the loop, on node i of the original ring.
  method RoundSafe(ep: Node, remove: set<Node>, ghost c: seq<Node>, ghost i: nat)
    requires Distinct(c) && 1 <= i < |c| && c[i] == ep && c[0] !in remove
    requires Ring(Before(c, i, remove) + c[i..])
    requires forall n :: n in c[..i] && n in remove ==> Ring([n])
    modifies c
    ensures Ring(Before(c, i + 1, remove) + c[i + 1..])
    ensures forall n :: n in c[..i + 1] && n in remove ==> Ring([n])
  {
    ghost var a, b := Before(c, i, remove), c[i + 1..];
    assert a + c[i..] == a + [ep] + b;
    RemovedAreOutside(c, i, remove, a, b);
    VisitSafe(ep, remove, a, b);
    KeptNext(c, i, remove);
    assert Before(c, i + 1, remove) + b == a + (if ep in remove then [] else [ep]) + b;
  }

  lemma NextInRest(a: seq<Node>, b: seq<Node>)
    requires a != [] && b != [] && Ring(a + b)
    ensures b[0].next == if |b| > 1 then b[1] else a[0]
  {
    var c := a + b;
    assert b[0] == c[|a|];
    assert |b| > 1 ==> c[|a| + 1] == b[1];
  }

  // FOREACH_SAFE whose body removes the current element when it is in `remove` and then reuses
  // its links, which is what the saved cursor ep2 protects against.
  method ForeachSafe(h: Node, remove: set<Node>, ghost c: seq<Node>) returns (visited: seq<Node>)
    requires Ring(c) && c[0] == h && h !in remove
    modifies c
    ensures visited == c[1..]
    ensures Ring([h] + Kept(c[1..], remove))
    ensures forall n :: n in c && n in remove ==> Ring([n])
  {
    visited := [];
    var ep1 := h.next;
    var ep2 := ep1.next;
    ghost var i := 1;
    assert Before(c, 1, remove) + c[1..] == c;
    while ep1 != h
      invariant 1 <= i <= |c| && visited == c[1..i]
      invariant Ring(Before(c, i, remove) + c[i..])
      invariant ep1 == (if i < |c| then c[i] else h) && ep2 == ep1.next
      invariant forall n :: n in c[..i] && n in remove ==> Ring([n])
      decreases |c| - i
    {
      visited := visited + [ep1];
      assert i < |c| && visited == c[1..i + 1];
      NextInRest(Before(c, i, remove), c[i..]);
      assert ep2 == if i + 1 < |c| then c[i + 1] else h;
      RoundSafe(ep1, remove, c, i);
      ep1 := ep2;
      ep2 := ep1.next;
      i := i + 1;
    }
    assert i == |c| && c[1..i] == c[1..] && c[..i] == c && c[i..] == [];
    assert Before(c, i, remove) + [] == [h] + Kept(c[1..], remove);
  }

  // ---------------------------------------------------------------- consistency check

  ghost predicate Closed(nodes: set<Node>)
    reads nodes
  {
    forall n :: n in nodes ==> n.next in nodes && n.prev in nodes
  }

  // Following `next` from a node of a ring never leaves the ring.
  lemma {:induction false} WalkStays(p: seq<Node>, c: seq<Node>)
    requires Ring(c) && Chain(p) && p != [] && p[0] in c
    ensures p[|p| - 1] in c && p[|p| - 1].next in c
  {
    if |p| > 1 {
      WalkStays(p[..|p| - 1], c);
    }
    var i :| 0 <= i < |c| && c[i] == p[|p| - 1];
    assert p[|p| - 1].next == if i < |c| - 1 then c[i + 1] else c[0];
  }

  // A node pointing back to the end of a walk can only close the walk at its first node.
  lemma WalkIsFresh(p: seq<Node>, n: Node)
    requires Chain(p) && p != [] && n.prev == p[|p| - 1] && n != p[0]
    ensures n !in p
  {
    forall j | 0 <= j < |p| ensures p[j] != n {
      if j > 0 { assert p[j].prev == p[j - 1]; }
    }
  }

  lemma RingIsConsistent(c: seq<Node>, n: Node)
    requires Ring(c) && n in c
    ensures n.next.prev == n && n.prev.next == n
  {
    var i :| 0 <= i < |c| && c[i] == n;
    assert n.next == if i < |c| - 1 then c[i + 1] else c[0];
    assert n.prev == if i > 0 then c[i - 1] else c[|c| - 1];
  }

  // The walk ends on every finite node set closed under next and prev, and it gets back to
  // its start exactly when the start lies on a well-formed ring.
  method CheckElemConsistency(start: Node, ghost nodes: set<Node>) returns (ok: bool, ghost c: seq<Node>)
    requires start in nodes && Closed(nodes)
    ensures ok ==> Ring(c) && c[0] == start
    ensures !ok ==> forall d: seq<Node> :: Ring(d) ==> start !in d
  {
    var here := start;
    c := [];
    ghost var left := nodes;
    while true
      invariant here in left && left <= nodes && (forall n :: n in left ==> n !in c)
      invariant Chain(c)
      invariant c == [] ==> here == start
      invariant c != [] ==> c[0] == start && c[|c| - 1].next == here && here.prev == c[|c| - 1]
      invariant forall n :: n in nodes ==> n in left || n in c
      decreases left
    {
      if here.next.prev != here || here.prev.next != here {
        forall d: seq<Node> | Ring(d) ensures start !in d {
          if start in d {
            if c != [] { WalkStays(c, d); }
            RingIsConsistent(d, here);
            assert false;
          }
        }
        return false, c;
      }
      ChainJoin(c, [here]);
      c := c + [here];
      left := left - {here};
      here := here.next;
      if here == start {
        return true, c;
      }
      WalkIsFresh(c, here);
    }
  }
}
