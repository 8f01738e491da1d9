/** The free list of the user-level allocator, as values: the addresses of the list members in
    order, and the sizes in their headers. Addresses are in bytes, sizes in header units. */
module HeapList {
  import opened Common

  /** The size of a header. */
  const UNIT: nat := 8

  predicate Inside(a: nat, n: nat, x: nat) {
    a <= x < a + UNIT * n
  }

  predicate FreeAt(nodes: seq<nat>, size: map<nat, nat>, i: nat, x: nat) {
    0 < i < |nodes| && nodes[i] in size && Inside(nodes[i], size[nodes[i]], x)
  }

  /** Byte `x` is in a free block. The first list member, `base`, has no memory. */
  ghost predicate IsFree(nodes: seq<nat>, size: map<nat, nat>, x: nat) {
    exists i: nat :: FreeAt(nodes, size, i, x)
  }

  predicate LiveAt(live: map<nat, nat>, a: nat, x: nat) {
    a in live && Inside(a, live[a], x)
  }

  /** Byte `x` is in an allocated block. */
  ghost predicate IsLive(live: map<nat, nat>, x: nat) {
    exists a: nat :: LiveAt(live, a, x)
  }

  // ---------- The list ----------

  /** Member `i` ends before the next one starts. */
  predicate Before(nodes: seq<nat>, size: map<nat, nat>, i: nat)
    requires i + 1 < |nodes|
  {
    && nodes[i] in size && nodes[i + 1] in size && size[nodes[i + 1]] >= 1
    && nodes[i] + UNIT * size[nodes[i]] <= nodes[i + 1]
  }

  /** Member `i` does not touch the next one. */
  predicate Gap(nodes: seq<nat>, size: map<nat, nat>, i: nat)
    requires i + 1 < |nodes|
  {
    nodes[i] in size && nodes[i] + UNIT * size[nodes[i]] < nodes[i + 1]
  }

  /** In address order from `base`. */
  ghost predicate Ordered(base: nat, nodes: seq<nat>, size: map<nat, nat>) {
    && |nodes| >= 1 && nodes[0] == base && base in size && size[base] == 0
    && (|nodes| > 1 ==> base + UNIT <= nodes[1])
    && forall i: nat :: i + 1 < |nodes| ==> Before(nodes, size, i)
  }

  /** No two neighbours touch, except perhaps where `but` says. */
  ghost predicate CoalescedBut(nodes: seq<nat>, size: map<nat, nat>, but: set<nat>) {
    forall i: nat :: i + 1 < |nodes| && i !in but ==> Gap(nodes, size, i)
  }

  function Next(nodes: seq<nat>, i: nat): (j: nat)
    requires i < |nodes|
    ensures j < |nodes|
  {
    if i + 1 < |nodes| then i + 1 else 0
  }

  predicate Link(ptr: map<nat, nat>, nodes: seq<nat>, i: nat)
    requires i < |nodes|
  {
    nodes[i] in ptr && ptr[nodes[i]] == nodes[Next(nodes, i)]
  }

  /** The links make a circle through the members. */
  ghost predicate Ring(ptr: map<nat, nat>, nodes: seq<nat>) {
    forall i: nat :: i < |nodes| ==> Link(ptr, nodes, i)
  }

  lemma {:induction false} Sorted(base: nat, nodes: seq<nat>, size: map<nat, nat>, i: nat, j: nat)
    requires Ordered(base, nodes, size) && i < j < |nodes|
    ensures nodes[i] in size && nodes[j] in size && size[nodes[j]] >= 1
    ensures nodes[i] < nodes[j] && nodes[i] + UNIT * size[nodes[i]] <= nodes[j]
    ensures base + UNIT <= nodes[j]
    decreases j
  {
    assert Before(nodes, size, j - 1);
    if i + 1 < j {
      Sorted(base, nodes, size, i, j - 1);
    } else if i > 0 {
      Sorted(base, nodes, size, 0, i);
    }
  }

  // ---------- Inserting and merging ----------

  function Insert(nodes: seq<nat>, k: nat, a: nat): seq<nat>
    requires k < |nodes|
  {
    nodes[..k + 1] + [a] + nodes[k + 1..]
  }

  function Drop(nodes: seq<nat>, j: nat): seq<nat>
    requires j < |nodes|
  {
    nodes[..j] + nodes[j + 1..]
  }

  /** A block `a` fits behind member `k`. */
  predicate FitsAfter(nodes: seq<nat>, size: map<nat, nat>, k: nat, a: nat, base: nat) {
    && k < |nodes| && a in size && size[a] >= 1 && nodes[k] in size && base + UNIT <= a
    && nodes[k] + UNIT * size[nodes[k]] <= a
    && (k + 1 < |nodes| ==> a + UNIT * size[a] <= nodes[k + 1])
  }

  lemma InsertOrdered(base: nat, nodes: seq<nat>, size: map<nat, nat>, k: nat, a: nat)
    requires Ordered(base, nodes, size) && CoalescedBut(nodes, size, {}) && FitsAfter(nodes, size, k, a, base)
    ensures Ordered(base, Insert(nodes, k, a), size) && CoalescedBut(Insert(nodes, k, a), size, {k, k + 1})
  {
    var r := Insert(nodes, k, a);
    forall i: nat | i + 1 < |r| ensures Before(r, size, i) {
      assert i < k ==> Before(nodes, size, i);
      assert i > k + 1 ==> Before(nodes, size, i - 1);
      assert k + 1 < |nodes| ==> Before(nodes, size, k);
    }
    forall i: nat | i + 1 < |r| && i !in {k, k + 1} ensures Gap(r, size, i) {
      assert i < k ==> Gap(nodes, size, i);
      assert i > k + 1 ==> Gap(nodes, size, i - 1);
    }
  }

  lemma InsertFree(nodes: seq<nat>, size: map<nat, nat>, k: nat, a: nat, x: nat)
    requires k < |nodes| && a in size
    ensures IsFree(Insert(nodes, k, a), size, x) <==> IsFree(nodes, size, x) || Inside(a, size[a], x)
  {
    var r := Insert(nodes, k, a);
    if i: nat :| FreeAt(r, size, i, x) {
      if i <= k {
        assert FreeAt(nodes, size, i, x);
      } else if i > k + 1 {
        assert FreeAt(nodes, size, i - 1, x);
      }
    }
    if i: nat :| FreeAt(nodes, size, i, x) {
      assert FreeAt(r, size, if i <= k then i else i + 1, x);
    }
    if Inside(a, size[a], x) {
      assert FreeAt(r, size, k + 1, x);
    }
  }

  lemma InsertRing(ptr: map<nat, nat>, nodes: seq<nat>, k: nat, a: nat)
    requires Ring(ptr, nodes) && k < |nodes| && a !in nodes && NoDup(nodes)
    ensures Ring(ptr[a := nodes[Next(nodes, k)]][nodes[k] := a], Insert(nodes, k, a))
  {
    var r, after := Insert(nodes, k, a), ptr[a := nodes[Next(nodes, k)]][nodes[k] := a];
    forall i: nat | i < |r| ensures Link(after, r, i) {
      if i < k {
        assert Link(ptr, nodes, i) && nodes[i] != nodes[k];
      } else if i > k + 1 {
        assert Link(ptr, nodes, i - 1) && nodes[i - 1] != nodes[k];
      }
    }
  }

  lemma OrderedDistinct(base: nat, nodes: seq<nat>, size: map<nat, nat>)
    requires Ordered(base, nodes, size)
    ensures NoDup(nodes)
  {
    forall i: nat, j: nat | i < j < |nodes| ensures nodes[i] != nodes[j] {
      Sorted(base, nodes, size, i, j);
    }
  }

  lemma DropRing(ptr: map<nat, nat>, nodes: seq<nat>, j: nat)
    requires Ring(ptr, nodes) && 0 < j < |nodes| && NoDup(nodes)
    ensures nodes[j] in ptr
    ensures Ring(ptr[nodes[j - 1] := ptr[nodes[j]]], Drop(nodes, j))
  {
    assert Link(ptr, nodes, j);
    var r, after := Drop(nodes, j), ptr[nodes[j - 1] := ptr[nodes[j]]];
    forall i: nat | i < |r| ensures Link(after, r, i) {
      var o := if i < j then i else i + 1;
      assert Link(ptr, nodes, o);
      assert o != j - 1 ==> nodes[o] != nodes[j - 1];
    }
  }

  /** Neighbours `i` and `i + 1` touch: their sizes are added and the second leaves the list. */
  function Merged(nodes: seq<nat>, size: map<nat, nat>, i: nat): map<nat, nat>
    requires i + 1 < |nodes| && nodes[i] in size && nodes[i + 1] in size
  {
    size[nodes[i] := size[nodes[i]] + size[nodes[i + 1]]]
  }

  lemma MergeOrdered(base: nat, nodes: seq<nat>, size: map<nat, nat>, i: nat, but: set<nat>)
    requires Ordered(base, nodes, size) && 0 < i && i + 1 < |nodes|
    requires nodes[i] in size && nodes[i + 1] in size && nodes[i] + UNIT * size[nodes[i]] == nodes[i + 1]
    requires CoalescedBut(nodes, size, but) && forall m :: m in but ==> m <= i
    requires i + 2 < |nodes| ==> Gap(nodes, size, i + 1)
    ensures Ordered(base, Drop(nodes, i + 1), Merged(nodes, size, i))
    ensures CoalescedBut(Drop(nodes, i + 1), Merged(nodes, size, i), but - {i})
  {
    OrderedDistinct(base, nodes, size);
    var r, s := Drop(nodes, i + 1), Merged(nodes, size, i);
    assert Before(nodes, size, i);
    assert i + 2 < |nodes| ==> Before(nodes, size, i + 1);
    forall m: nat | m + 1 < |r| ensures Before(r, s, m) {
      assert Before(nodes, size, if m <= i then m else m + 1);
    }
    forall m: nat | m + 1 < |r| && m !in but - {i} ensures Gap(r, s, m) {
      if m < i {
        assert Gap(nodes, size, m);
      } else if m > i {
        assert Gap(nodes, size, m + 1);
      }
    }
  }

  lemma MergeFree(base: nat, nodes: seq<nat>, size: map<nat, nat>, i: nat, x: nat)
    requires Ordered(base, nodes, size) && 0 < i && i + 1 < |nodes|
    requires nodes[i] in size && nodes[i + 1] in size && nodes[i] + UNIT * size[nodes[i]] == nodes[i + 1]
    ensures IsFree(Drop(nodes, i + 1), Merged(nodes, size, i), x) <==> IsFree(nodes, size, x)
  {
    OrderedDistinct(base, nodes, size);
    var r, s := Drop(nodes, i + 1), Merged(nodes, size, i);
    if m: nat :| FreeAt(r, s, m, x) {
      var o := if m <= i then m else m + 1;
      assert FreeAt(nodes, size, o, x) || FreeAt(nodes, size, i + 1, x);
    }
    if m: nat :| FreeAt(nodes, size, m, x) {
      assert FreeAt(r, s, if m <= i then m else m - 1, x);
    }
  }

  /** A new member that touches the one after it. */
  lemma UpperJoined(base: nat, nodes: seq<nat>, ptr: map<nat, nat>, size: map<nat, nat>, k: nat, a: nat)
    requires Ordered(base, nodes, size) && CoalescedBut(nodes, size, {}) && Ring(ptr, nodes)
    requires a !in nodes && FitsAfter(nodes, size, k, a, base) && a + UNIT * size[a] == nodes[Next(nodes, k)]
    ensures k + 1 < |nodes| && nodes[k + 1] in size && nodes[k + 1] in ptr
    ensures var r, s := Drop(Insert(nodes, k, a), k + 2), size[a := size[a] + size[nodes[k + 1]]];
      && Ordered(base, r, s) && CoalescedBut(r, s, {k})
      && Ring(ptr[a := ptr[nodes[k + 1]]][nodes[k] := a], r)
      && forall x: nat :: IsFree(r, s, x) <==> IsFree(nodes, size, x) || Inside(a, size[a], x)
  {
    assert k + 1 < |nodes|;
    InsertOrdered(base, nodes, size, k, a);
    OrderedDistinct(base, nodes, size);
    var all := Insert(nodes, k, a);
    assert Before(nodes, size, k);
    assert k + 3 < |all| ==> Gap(all, size, k + 2);
    MergeOrdered(base, all, size, k + 1, {k, k + 1});
    assert {k, k + 1} - {k + 1} == {k};
    UpperRing(nodes, ptr, k, a);
    forall x: nat
      ensures IsFree(Drop(all, k + 2), Merged(all, size, k + 1), x) <==> IsFree(nodes, size, x) || Inside(a, size[a], x)
    {
      UpperFree(base, nodes, size, k, a, x);
    }
  }

  lemma UpperFree(base: nat, nodes: seq<nat>, size: map<nat, nat>, k: nat, a: nat, x: nat)
    requires k + 1 < |nodes| && a in size && nodes[k + 1] in size && a + UNIT * size[a] == nodes[k + 1]
    requires Ordered(base, Insert(nodes, k, a), size)
    ensures var all := Insert(nodes, k, a);
      IsFree(Drop(all, k + 2), Merged(all, size, k + 1), x) <==> IsFree(nodes, size, x) || Inside(a, size[a], x)
  {
    InsertFree(nodes, size, k, a, x);
    MergeFree(base, Insert(nodes, k, a), size, k + 1, x);
  }

  lemma UpperRing(nodes: seq<nat>, ptr: map<nat, nat>, k: nat, a: nat)
    requires Ring(ptr, nodes) && k + 1 < |nodes| && a !in nodes && NoDup(nodes)
    ensures nodes[k + 1] in ptr
    ensures Ring(ptr[a := ptr[nodes[k + 1]]][nodes[k] := a], Drop(Insert(nodes, k, a), k + 2))
  {
    InsertRing(ptr, nodes, k, a);
    assert Link(ptr, nodes, k + 1) && nodes[k] != nodes[k + 1];
    var ring, all := ptr[a := nodes[k + 1]][nodes[k] := a], Insert(nodes, k, a);
    InsertDistinct(nodes, k, a);
    DropRing(ring, all, k + 2);
    assert ring[a := ring[nodes[k + 1]]] == ptr[a := ptr[nodes[k + 1]]][nodes[k] := a];
  }

  lemma InsertDistinct(nodes: seq<nat>, k: nat, a: nat)
    requires NoDup(nodes) && k < |nodes| && a !in nodes
    ensures NoDup(Insert(nodes, k, a))
  {
    var all := Insert(nodes, k, a);
    forall i: nat, j: nat | i < j < |all| ensures all[i] != all[j] {
      var i', j' := if i <= k then i else i - 1, if j <= k then j else j - 1;
      assert i != k + 1 && j != k + 1 ==> all[i] == nodes[i'] && all[j] == nodes[j'];
    }
  }

  /** A new member that does not touch the one after it. */
  lemma UpperApart(base: nat, nodes: seq<nat>, ptr: map<nat, nat>, size: map<nat, nat>, k: nat, a: nat)
    requires Ordered(base, nodes, size) && CoalescedBut(nodes, size, {}) && Ring(ptr, nodes)
    requires a !in nodes && FitsAfter(nodes, size, k, a, base) && a + UNIT * size[a] != nodes[Next(nodes, k)]
    ensures var r := Insert(nodes, k, a);
      && Ordered(base, r, size) && CoalescedBut(r, size, {k})
      && Ring(ptr[a := nodes[Next(nodes, k)]][nodes[k] := a], r)
      && forall x: nat :: IsFree(r, size, x) <==> IsFree(nodes, size, x) || Inside(a, size[a], x)
  {
    InsertOrdered(base, nodes, size, k, a);
    OrderedDistinct(base, nodes, size);
    InsertRing(ptr, nodes, k, a);
    var r := Insert(nodes, k, a);
    forall i: nat | i + 1 < |r| && i !in {k} ensures Gap(r, size, i) {
      assert Before(r, size, i);
      assert i != k + 1 ==> Gap(r, size, i);
    }
    forall x: nat ensures IsFree(r, size, x) <==> IsFree(nodes, size, x) || Inside(a, size[a], x) {
      InsertFree(nodes, size, k, a, x);
    }
  }

  // ---------- Memory ----------

  predicate BlockOk(base: nat, size: map<nat, nat>, live: map<nat, nat>, a: nat)
    requires a in live
  {
    a in size && size[a] == live[a] && live[a] >= 1 && base + UNIT <= a
  }

  predicate Apart(live: map<nat, nat>, a: nat, b: nat)
    requires a in live && b in live
  {
    a != b ==> a + UNIT * live[a] <= b || b + UNIT * live[b] <= a
  }

  /** `n` units at `a` do not overlap block `b`. */
  predicate Clear(live: map<nat, nat>, a: nat, n: nat, b: nat)
    requires b in live
  {
    a != b && (a + UNIT * n <= b || b + UNIT * live[b] <= a)
  }

  /** Byte `x` has been obtained just when it is in a free or in an allocated block, and never in both. */
  ghost predicate ExactAt(nodes: seq<nat>, size: map<nat, nat>, live: map<nat, nat>, owned: set<nat>, x: nat) {
    && (x in owned <==> IsFree(nodes, size, x) || IsLive(live, x))
    && !(IsFree(nodes, size, x) && IsLive(live, x))
  }

  ghost predicate Sound(base: nat, nodes: seq<nat>, size: map<nat, nat>, live: map<nat, nat>, owned: set<nat>) {
    && Ordered(base, nodes, size) && CoalescedBut(nodes, size, {})
    && (forall a: nat :: a in live ==> BlockOk(base, size, live, a))
    && (forall a: nat, b: nat :: a in live && b in live ==> Apart(live, a, b))
    && (forall x: nat :: ExactAt(nodes, size, live, owned, x))
  }

  /** A list member is not the address of an allocated block. */
  lemma NodeNotLive(base: nat, nodes: seq<nat>, size: map<nat, nat>, live: map<nat, nat>, owned: set<nat>, i: nat)
    requires Sound(base, nodes, size, live, owned) && i < |nodes|
    ensures nodes[i] !in live
  {
    var a := nodes[i];
    if i > 0 {
      Sorted(base, nodes, size, 0, i);
      assert FreeAt(nodes, size, i, a);
    }
    assert ExactAt(nodes, size, live, owned, a);
    if a in live {
      assert BlockOk(base, size, live, a);
      assert LiveAt(live, a, a);
    }
  }

  /** An allocated block lies between list members. */
  lemma LiveFits(base: nat, nodes: seq<nat>, size: map<nat, nat>, live: map<nat, nat>, owned: set<nat>, k: nat, a: nat)
    requires Sound(base, nodes, size, live, owned) && a in live && k < |nodes|
    requires nodes[k] < a && (k + 1 < |nodes| ==> a < nodes[k + 1])
    ensures FitsAfter(nodes, size, k, a, base)
  {
    assert BlockOk(base, size, live, a) && LiveAt(live, a, a);
    assert ExactAt(nodes, size, live, owned, a);
    if k > 0 {
      Sorted(base, nodes, size, 0, k);
      assert !FreeAt(nodes, size, k, a);
    }
    if k + 1 < |nodes| {
      var b := nodes[k + 1];
      Sorted(base, nodes, size, k, k + 1);
      assert FreeAt(nodes, size, k + 1, b);
      assert ExactAt(nodes, size, live, owned, b);
      assert !LiveAt(live, a, b);
    }
  }

  /** The blocks after the allocated block `a` has become free. */
  lemma Freed(base: nat, nodes: seq<nat>, size: map<nat, nat>, live: map<nat, nat>, owned: set<nat>,
              a: nat, nodes': seq<nat>, size': map<nat, nat>)
    requires Sound(base, nodes, size, live, owned) && a in live
    requires Ordered(base, nodes', size') && CoalescedBut(nodes', size', {})
    requires forall x: nat :: IsFree(nodes', size', x) <==> IsFree(nodes, size, x) || Inside(a, live[a], x)
    requires forall b :: b in live && b != a ==> b in size' && b in size && size'[b] == size[b]
    ensures Sound(base, nodes', size', live - {a}, owned)
  {
    var rest := live - {a};
    forall b: nat | b in rest ensures BlockOk(base, size', rest, b) {
      assert BlockOk(base, size, live, b);
    }
    forall b: nat, d: nat | b in rest && d in rest ensures Apart(rest, b, d) {
      assert Apart(live, b, d);
    }
    forall x: nat ensures ExactAt(nodes', size', rest, owned, x) {
      assert ExactAt(nodes, size, live, owned, x);
      LiveWithout(live, a, x);
      if b: nat :| LiveAt(rest, b, x) {
        assert Apart(live, a, b);
      }
    }
  }

  lemma LiveWithout(live: map<nat, nat>, a: nat, x: nat)
    requires a in live
    ensures IsLive(live, x) <==> IsLive(live - {a}, x) || Inside(a, live[a], x)
  {
    if b: nat :| LiveAt(live, b, x) {
      assert b != a ==> LiveAt(live - {a}, b, x);
    }
    if b: nat :| LiveAt(live - {a}, b, x) {
      assert LiveAt(live, b, x);
    }
    if Inside(a, live[a], x) {
      assert LiveAt(live, a, x);
    }
  }

  /** The blocks after `n` units of free memory at `a` have been allocated. */
  lemma Taken(base: nat, nodes: seq<nat>, size: map<nat, nat>, live: map<nat, nat>, owned: set<nat>,
              a: nat, n: nat, nodes': seq<nat>, size': map<nat, nat>)
    requires Sound(base, nodes, size, live, owned) && n >= 1 && base + UNIT <= a
    requires Ordered(base, nodes', size') && CoalescedBut(nodes', size', {})
    requires forall x: nat :: Inside(a, n, x) ==> IsFree(nodes, size, x)
    requires forall x: nat :: IsFree(nodes', size', x) <==> IsFree(nodes, size, x) && !Inside(a, n, x)
    requires a in size' && size'[a] == n
    requires forall b :: b in live ==> b in size' && b in size && size'[b] == size[b]
    ensures a !in live && Sound(base, nodes', size', live[a := n], owned)
  {
    var more := live[a := n];
    NotTaken(nodes, size, live, owned, a, n, base);
    forall b: nat | b in more ensures BlockOk(base, size', more, b) {
      assert b != a ==> BlockOk(base, size, live, b);
    }
    forall b: nat, d: nat | b in more && d in more ensures Apart(more, b, d) {
      assert b in live && d in live ==> Apart(live, b, d);
      assert b in live ==> Clear(live, a, n, b);
      assert d in live ==> Clear(live, a, n, d);
    }
    forall x: nat ensures ExactAt(nodes', size', more, owned, x) {
      assert ExactAt(nodes, size, live, owned, x);
      LiveWithout(more, a, x);
      assert more - {a} == live;
    }
  }

  lemma NotTaken(nodes: seq<nat>, size: map<nat, nat>, live: map<nat, nat>, owned: set<nat>, a: nat, n: nat, base: nat)
    requires Sound(base, nodes, size, live, owned) && n >= 1
    requires forall x: nat :: Inside(a, n, x) ==> IsFree(nodes, size, x)
    ensures a !in live
    ensures forall b: nat :: b in live ==> Clear(live, a, n, b)
  {
    assert ExactAt(nodes, size, live, owned, a);
    assert Inside(a, n, a);
    forall b: nat | b in live ensures Clear(live, a, n, b) {
      assert BlockOk(base, size, live, b);
      assert LiveAt(live, b, b);
      assert ExactAt(nodes, size, live, owned, b);
      assert !Inside(a, n, b);
      assert !LiveAt(live, b, a);
    }
  }

  function Region(a: nat, n: nat): set<nat> {
    set x: nat | a <= x < a + UNIT * n && Inside(a, n, x)
  }

  /** Fresh memory, held for a moment as an allocated block. */
  lemma Grown(base: nat, nodes: seq<nat>, size: map<nat, nat>, live: map<nat, nat>, owned: set<nat>, a: nat, n: nat)
    requires Sound(base, nodes, size, live, owned) && n >= 1 && base + UNIT <= a
    requires forall x: nat :: Inside(a, n, x) ==> x !in owned
    ensures Sound(base, nodes, size[a := n], live[a := n], owned + Region(a, n))
  {
    var more, size' := live[a := n], size[a := n];
    assert Inside(a, n, a) && ExactAt(nodes, size, live, owned, a);
    forall i: nat | i < |nodes| ensures nodes[i] != a {
      if i > 0 {
        Sorted(base, nodes, size, 0, i);
        assert FreeAt(nodes, size, i, nodes[i]);
      }
    }
    forall i: nat | i + 1 < |nodes| ensures Before(nodes, size', i) && Gap(nodes, size', i) {
      assert Before(nodes, size, i) && Gap(nodes, size, i);
    }
    forall b: nat | b in live ensures Clear(live, a, n, b) {
      assert BlockOk(base, size, live, b) && LiveAt(live, b, b);
      assert ExactAt(nodes, size, live, owned, b) && !Inside(a, n, b) && !LiveAt(live, b, a);
    }
    forall b: nat | b in more ensures BlockOk(base, size', more, b) {
      assert b != a ==> BlockOk(base, size, live, b);
    }
    forall b: nat, d: nat | b in more && d in more ensures Apart(more, b, d) {
      assert b in live && d in live ==> Apart(live, b, d);
      assert b in live ==> Clear(live, a, n, b);
      assert d in live ==> Clear(live, a, n, d);
    }
    forall x: nat ensures ExactAt(nodes, size', more, owned + Region(a, n), x) {
      assert ExactAt(nodes, size, live, owned, x);
      LiveWithout(more, a, x);
      assert more - {a} == live;
      SameFree(nodes, size, a, n, x);
    }
  }

  lemma SameFree(nodes: seq<nat>, size: map<nat, nat>, a: nat, n: nat, x: nat)
    requires a !in nodes
    ensures IsFree(nodes, size[a := n], x) <==> IsFree(nodes, size, x)
  {
    var size' := size[a := n];
    if i: nat :| FreeAt(nodes, size, i, x) {
      assert FreeAt(nodes, size', i, x);
    }
    if i: nat :| FreeAt(nodes, size', i, x) {
      assert FreeAt(nodes, size, i, x);
    }
  }

  // ---------- Allocating from a member ----------

  /** The whole of member `i`. */
  lemma WholeTaken(base: nat, nodes: seq<nat>, size: map<nat, nat>, i: nat)
    requires Ordered(base, nodes, size) && CoalescedBut(nodes, size, {}) && 0 < i < |nodes|
    ensures Ordered(base, Drop(nodes, i), size) && CoalescedBut(Drop(nodes, i), size, {})
  {
    var r := Drop(nodes, i);
    forall m: nat | m + 1 < |r| ensures Before(r, size, m) && Gap(r, size, m) {
      var o, q := if m < i then m else m + 1, if m + 1 < i then m + 1 else m + 2;
      Sorted(base, nodes, size, o, q);
      assert Gap(nodes, size, o) && Before(nodes, size, o);
      if q > o + 1 {
        Sorted(base, nodes, size, o + 1, q);
      }
    }
    if |r| > 1 {
      Sorted(base, nodes, size, 0, if i == 1 then 2 else 1);
    }
  }

  lemma WholeFree(base: nat, nodes: seq<nat>, size: map<nat, nat>, i: nat, x: nat)
    requires Ordered(base, nodes, size) && 0 < i < |nodes|
    ensures nodes[i] in size
    ensures IsFree(Drop(nodes, i), size, x) <==> IsFree(nodes, size, x) && !Inside(nodes[i], size[nodes[i]], x)
  {
    Sorted(base, nodes, size, 0, i);
    var r := Drop(nodes, i);
    if m: nat :| FreeAt(r, size, m, x) {
      var o := if m < i then m else m + 1;
      assert FreeAt(nodes, size, o, x);
      if o < i {
        Sorted(base, nodes, size, o, i);
      } else {
        Sorted(base, nodes, size, i, o);
      }
    }
    if m: nat :| FreeAt(nodes, size, m, x) && !Inside(nodes[i], size[nodes[i]], x) {
      assert FreeAt(r, size, if m < i then m else m - 1, x);
    }
  }

  /** The last `n` units of member `i`, with a new header in front. */
  lemma TailTaken(base: nat, nodes: seq<nat>, size: map<nat, nat>, i: nat, n: nat)
    requires Ordered(base, nodes, size) && CoalescedBut(nodes, size, {}) && 0 < i < |nodes|
    requires nodes[i] in size && 1 <= n < size[nodes[i]]
    ensures var left := size[nodes[i]] - n;
      var size' := size[nodes[i] := left][nodes[i] + UNIT * left := n];
      Ordered(base, nodes, size') && CoalescedBut(nodes, size', {})
  {
    var left := size[nodes[i]] - n;
    var a := nodes[i] + UNIT * left;
    var size' := size[nodes[i] := left][a := n];
    NotNode(base, nodes, size, i, a);
    OrderedDistinct(base, nodes, size);
    forall m: nat | m + 1 < |nodes| ensures Before(nodes, size', m) && Gap(nodes, size', m) {
      assert Before(nodes, size, m) && Gap(nodes, size, m);
    }
  }

  lemma NotNode(base: nat, nodes: seq<nat>, size: map<nat, nat>, i: nat, a: nat)
    requires Ordered(base, nodes, size) && 0 < i < |nodes| && nodes[i] in size
    requires nodes[i] < a < nodes[i] + UNIT * size[nodes[i]]
    ensures a !in nodes
  {
    forall m: nat | m < |nodes| ensures nodes[m] != a {
      if m < i {
        Sorted(base, nodes, size, m, i);
      } else if m > i {
        Sorted(base, nodes, size, i, m);
      }
    }
  }

  lemma TailFree(base: nat, nodes: seq<nat>, size: map<nat, nat>, i: nat, n: nat, x: nat)
    requires Ordered(base, nodes, size) && 0 < i < |nodes|
    requires nodes[i] in size && 1 <= n < size[nodes[i]]
    ensures var left := size[nodes[i]] - n;
      var size' := size[nodes[i] := left][nodes[i] + UNIT * left := n];
      IsFree(nodes, size', x) <==> IsFree(nodes, size, x) && !Inside(nodes[i] + UNIT * left, n, x)
  {
    var left := size[nodes[i]] - n;
    var a := nodes[i] + UNIT * left;
    var size' := size[nodes[i] := left][a := n];
    NotNode(base, nodes, size, i, a);
    OrderedDistinct(base, nodes, size);
    if m: nat :| FreeAt(nodes, size', m, x) {
      assert FreeAt(nodes, size, m, x);
      if m < i {
        Sorted(base, nodes, size, m, i);
      } else if m > i {
        Sorted(base, nodes, size, i, m);
      }
    }
    if m: nat :| FreeAt(nodes, size, m, x) && !Inside(a, n, x) {
      assert FreeAt(nodes, size', m, x);
    }
  }
}

/** Order and coalescing leave no choice: the free bytes determine the free list. */
module HeapCanonical {
  import opened Common
  import opened HeapList

  ghost predicate Canonical(base: nat, nodes: seq<nat>, size: map<nat, nat>) {
    Ordered(base, nodes, size) && CoalescedBut(nodes, size, {})
  }

  ghost predicate SameBytes(n1: seq<nat>, s1: map<nat, nat>, n2: seq<nat>, s2: map<nat, nat>) {
    forall x: nat :: IsFree(n1, s1, x) <==> IsFree(n2, s2, x)
  }

  predicate SameAt(n1: seq<nat>, s1: map<nat, nat>, n2: seq<nat>, s2: map<nat, nat>, i: nat) {
    && i < |n1| && i < |n2| && n1[i] == n2[i]
    && n1[i] in s1 && n2[i] in s2 && s1[n1[i]] == s2[n2[i]]
  }

  /** Where the first `i` members agree, the next one of the second list starts no later. */
  lemma StartsNoLater(base: nat, n1: seq<nat>, s1: map<nat, nat>, n2: seq<nat>, s2: map<nat, nat>, i: nat)
    requires Canonical(base, n1, s1) && Canonical(base, n2, s2) && SameBytes(n1, s1, n2, s2)
    requires 0 < i < |n1| && forall j: nat :: j < i ==> SameAt(n1, s1, n2, s2, j)
    ensures i < |n2| && n2[i] <= n1[i]
  {
    var a := n1[i];
    Sorted(base, n1, s1, 0, i);
    assert FreeAt(n1, s1, i, a);
    assert IsFree(n2, s2, a);
    var j: nat :| FreeAt(n2, s2, j, a);
    if j < i {
      assert SameAt(n1, s1, n2, s2, j);
      Sorted(base, n1, s1, j, i);
    } else if i < j {
      Sorted(base, n2, s2, i, j);
    }
  }

  /** A member of the second list at the same address is no longer. */
  lemma NoLonger(base: nat, n1: seq<nat>, s1: map<nat, nat>, n2: seq<nat>, s2: map<nat, nat>, i: nat)
    requires Canonical(base, n1, s1) && Canonical(base, n2, s2) && SameBytes(n1, s1, n2, s2)
    requires 0 < i < |n1| && i < |n2| && n1[i] == n2[i]
    ensures n1[i] in s1 && n2[i] in s2 && s2[n2[i]] <= s1[n1[i]]
  {
    Sorted(base, n1, s1, 0, i);
    Sorted(base, n2, s2, 0, i);
    var x := n1[i] + UNIT * s1[n1[i]];
    if s2[n2[i]] > s1[n1[i]] {
      assert FreeAt(n2, s2, i, x);
      assert IsFree(n1, s1, x);
      var j: nat :| FreeAt(n1, s1, j, x);
      if j < i {
        Sorted(base, n1, s1, j, i);
      } else if j > i {
        assert Gap(n1, s1, i);
        if j > i + 1 {
          Sorted(base, n1, s1, i + 1, j);
        }
      }
    }
  }

  lemma {:induction false} SameMember(base: nat, n1: seq<nat>, s1: map<nat, nat>, n2: seq<nat>, s2: map<nat, nat>, i: nat)
    requires Canonical(base, n1, s1) && Canonical(base, n2, s2) && SameBytes(n1, s1, n2, s2) && i < |n1|
    ensures SameAt(n1, s1, n2, s2, i)
  {
    if i > 0 {
      forall j: nat | j < i ensures SameAt(n1, s1, n2, s2, j) && SameAt(n2, s2, n1, s1, j) {
        SameMember(base, n1, s1, n2, s2, j);
      }
      StartsNoLater(base, n1, s1, n2, s2, i);
      StartsNoLater(base, n2, s2, n1, s1, i);
      NoLonger(base, n1, s1, n2, s2, i);
      NoLonger(base, n2, s2, n1, s1, i);
    }
  }

  /** Two heaps with the same memory and the same allocated blocks have the same free list, member by
      member and size by size. In particular `free` undoes `malloc`. */
  lemma FreeListDetermined(base: nat, n1: seq<nat>, s1: map<nat, nat>, n2: seq<nat>, s2: map<nat, nat>,
                           live: map<nat, nat>, owned: set<nat>)
    requires Sound(base, n1, s1, live, owned) && Sound(base, n2, s2, live, owned)
    ensures n1 == n2 && forall a :: a in n1 ==> a in s1 && a in s2 && s1[a] == s2[a]
  {
    forall x: nat ensures IsFree(n1, s1, x) <==> IsFree(n2, s2, x) {
      assert ExactAt(n1, s1, live, owned, x) && ExactAt(n2, s2, live, owned, x);
    }
    if |n1| < |n2| {
      SameMember(base, n2, s2, n1, s1, |n1|);
    } else if |n2| < |n1| {
      SameMember(base, n1, s1, n2, s2, |n2|);
    }
    forall i: nat | i < |n1|
      ensures n1[i] == n2[i] && n1[i] in s1 && n1[i] in s2 && s1[n1[i]] == s2[n1[i]]
    {
      SameMember(base, n1, s1, n2, s2, i);
    }
  }
}

/** `malloc`, `free` and `morecore`. The program break is an input: what `sbrk` would answer. */
module Heap {
  import opened Common
  import opened HeapList
  import opened HeapCanonical

  const NULL: nat := 0

  /** Steps from member `i` round the ring to member `k`. */
  function Steps(i: nat, k: nat, n: nat): nat
    requires i < n && k < n
  {
    if i <= k then k - i else n - i + k
  }

  /** The members strictly between `at` and `i`, going round from `at`. */
  predicate Seen(at: nat, i: nat, m: nat) {
    if i > at then at < m < i else m > at || m < i
  }

  lemma {:induction false} PlaceExists(base: nat, nodes: seq<nat>, size: map<nat, nat>, a: nat, n: nat) returns (k: nat)
    requires Ordered(base, nodes, size) && base < a && a !in nodes && 0 < n <= |nodes|
    requires n < |nodes| ==> a < nodes[n]
    ensures k < |nodes| && nodes[k] < a && (k + 1 < |nodes| ==> a < nodes[k + 1])
  {
    k := n - 1;
    if a < nodes[k] {
      k := PlaceExists(base, nodes, size, a, n - 1);
    }
  }

  function Units(nbytes: nat): (n: nat)
    ensures n >= 1 && UNIT * (n - 1) >= nbytes && UNIT * (n - 1) < nbytes + UNIT
  {
    (nbytes + UNIT - 1) / UNIT + 1
  }

  /** What `morecore` asks for. */
  function Request(nunits: nat): (n: nat)
    ensures n >= nunits && n >= 4096 && (n > 4096 ==> n == nunits)
  {
    if nunits < 4096 then 4096 else nunits
  }

  /** Member `m` is too small. */
  predicate Small(nodes: seq<nat>, size: map<nat, nat>, m: nat, n: nat)
    requires m < |nodes|
  {
    nodes[m] in size ==> size[nodes[m]] < n
  }

  ghost predicate Roomy(nodes: seq<nat>, size: map<nat, nat>, n: nat) {
    exists m: nat :: m < |nodes| && !Small(nodes, size, m, n)
  }

  /** Once round the ring. */
  lemma AllSmall(nodes: seq<nat>, size: map<nat, nat>, at: nat, n: nat)
    requires at < |nodes| && Small(nodes, size, at, n)
    requires forall m: nat :: m < |nodes| && Seen(at, at, m) ==> Small(nodes, size, m, n)
    ensures forall m: nat :: m < |nodes| ==> Small(nodes, size, m, n)
    ensures !Roomy(nodes, size, n)
  {
  }

  lemma NodeSize(base: nat, nodes: seq<nat>, size: map<nat, nat>, i: nat)
    requires Ordered(base, nodes, size) && i < |nodes|
    ensures nodes[i] in size && (i == 0 ==> size[nodes[i]] == 0)
  {
    if i > 0 {
      Sorted(base, nodes, size, 0, i);
    }
  }

  lemma StartSound(base: nat, size: map<nat, nat>)
    requires base in size && size[base] == 0
    ensures Sound(base, [base], size, map[], {})
  {
    forall x: nat ensures ExactAt([base], size, map[], {}, x) {
    }
  }

  lemma TakeWhole(base: nat, nodes: seq<nat>, size: map<nat, nat>, live: map<nat, nat>, owned: set<nat>, i: nat)
    requires Sound(base, nodes, size, live, owned) && 0 < i < |nodes| && nodes[i] in size && size[nodes[i]] >= 1
    requires base + UNIT <= nodes[i] && forall b: nat :: b in live ==> b in size
    ensures nodes[i] !in live
    ensures Sound(base, Drop(nodes, i), size, live[nodes[i] := size[nodes[i]]], owned)
  {
    WholeTaken(base, nodes, size, i);
    var a, n := nodes[i], size[nodes[i]];
    forall x: nat ensures IsFree(Drop(nodes, i), size, x) <==> IsFree(nodes, size, x) && !Inside(a, n, x) {
      WholeFree(base, nodes, size, i, x);
    }
    forall x: nat | Inside(a, n, x) ensures IsFree(nodes, size, x) {
      assert FreeAt(nodes, size, i, x);
    }
    Taken(base, nodes, size, live, owned, a, n, Drop(nodes, i), size);
  }

  lemma TakeTail(base: nat, nodes: seq<nat>, size: map<nat, nat>, live: map<nat, nat>, owned: set<nat>, i: nat, n: nat)
    requires Sound(base, nodes, size, live, owned) && 0 < i < |nodes| && nodes[i] in size && 1 <= n < size[nodes[i]]
    requires base + UNIT <= nodes[i] && nodes[i] !in live && forall b: nat :: b in live ==> b in size
    ensures var left := size[nodes[i]] - n;
      var a := nodes[i] + UNIT * left;
      a !in live && Sound(base, nodes, size[nodes[i] := left][a := n], live[a := n], owned)
  {
    TailTaken(base, nodes, size, i, n);
    var left := size[nodes[i]] - n;
    var a := nodes[i] + UNIT * left;
    var size' := size[nodes[i] := left][a := n];
    forall x: nat ensures IsFree(nodes, size', x) <==> IsFree(nodes, size, x) && !Inside(a, n, x) {
      TailFree(base, nodes, size, i, n, x);
    }
    forall x: nat | Inside(a, n, x) ensures IsFree(nodes, size, x) {
      assert FreeAt(nodes, size, i, x);
    }
    NotTaken(nodes, size, live, owned, a, n, base);
    Taken(base, nodes, size, live, owned, a, n, nodes, size');
  }

  class Heap {
    const base: nat
    var freep: nat
    var ptr: map<nat, nat>
    var size: map<nat, nat>

    /** The members of the free list from `base` on, and the position of `freep` among them. */
    ghost var nodes: seq<nat>
    ghost var at: nat
    /** Allocated blocks with their sizes, and every byte got from `sbrk`. */
    ghost var live: map<nat, nat>
    ghost var owned: set<nat>

    ghost predicate Valid()
      reads this
    {
      && base > 0
      && if freep == NULL then live == map[] && owned == {}
         else
           && Sound(base, nodes, size, live, owned) && Ring(ptr, nodes)
           && at < |nodes| && freep == nodes[at]
    }

    constructor (base: nat)
      requires base > 0
      ensures Valid() && this.base == base && live == map[] && owned == {}
    {
      this.base := base;
      freep, ptr, size := NULL, map[], map[];
      nodes, at, live, owned := [], 0, map[], {};
    }

    /** The member behind which the block at `bp` belongs. */
    method FindPlace(bp: nat) returns (p: nat, ghost k: nat)
      requires Valid() && freep != NULL && base < bp && bp !in nodes
      ensures k < |nodes| && p == nodes[k] && nodes[k] < bp && (k + 1 < |nodes| ==> bp < nodes[k + 1])
    {
      k := PlaceExists(base, nodes, size, bp, |nodes|);
      p := freep;
      ghost var i: nat := at;
      assert Link(ptr, nodes, i);
      while !(bp > p && bp < ptr[p])
        invariant i < |nodes| && p == nodes[i] && Link(ptr, nodes, i)
        decreases Steps(i, k, |nodes|)
      {
        Between(i, k, bp);
        if p >= ptr[p] && (bp > p || bp < ptr[p]) {
          break;
        }
        i := Next(nodes, i);
        p := ptr[p];
        assert Link(ptr, nodes, i);
      }
      Between(i, k, bp);
    }

    /** The tests of the search hold at member `k` and nowhere else. */
    lemma Between(i: nat, k: nat, bp: nat)
      requires Valid() && freep != NULL && i < |nodes| && k < |nodes| && Link(ptr, nodes, i)
      requires base < bp && bp !in nodes && nodes[k] < bp && (k + 1 < |nodes| ==> bp < nodes[k + 1])
      ensures var p, n := nodes[i], ptr[nodes[i]];
        (bp > p && bp < n) || (p >= n && (bp > p || bp < n)) <==> i == k
    {
      var j := Next(nodes, i);
      if i + 1 < |nodes| {
        Sorted(base, nodes, size, i, i + 1);
      }
      if i < k {
        Sorted(base, nodes, size, i, k);
        if j < k {
          Sorted(base, nodes, size, j, k);
        }
      } else if k < i {
        if k + 1 < i {
          Sorted(base, nodes, size, k + 1, i);
        }
      }
      if i > 0 {
        Sorted(base, nodes, size, 0, i);
      }
    }

    /** Join the block with the member after it, if they touch. */
    method JoinUpper(bp: nat, p: nat, ghost k: nat) returns (ghost nodes': seq<nat>)
      requires base > 0 && Ordered(base, nodes, size) && CoalescedBut(nodes, size, {}) && Ring(ptr, nodes)
      requires k < |nodes| && p == nodes[k] && bp !in nodes && FitsAfter(nodes, size, k, bp, base)
      modifies `ptr, `size
      ensures Ordered(base, nodes', size) && CoalescedBut(nodes', size, {k}) && Ring(ptr[p := bp], nodes')
      ensures k + 1 < |nodes'| && nodes'[k] == p && nodes'[k + 1] == bp && bp in ptr && bp in old(size) && bp in size
      ensures size == old(size)[bp := size[bp]] && size[bp] >= old(size)[bp]
      ensures forall x: nat :: IsFree(nodes', size, x) <==> IsFree(nodes, old(size), x) || Inside(bp, old(size)[bp], x)
    {
      assert Link(ptr, nodes, k);
      var n := ptr[p];
      if bp + UNIT * size[bp] == n {
        UpperJoined(base, nodes, ptr, size, k, bp);
        size := size[bp := size[bp] + size[n]];
        ptr := ptr[bp := ptr[n]];
        nodes' := Drop(Insert(nodes, k, bp), k + 2);
      } else {
        UpperApart(base, nodes, ptr, size, k, bp);
        ptr := ptr[bp := n];
        nodes' := Insert(nodes, k, bp);
        assert size == size[bp := size[bp]];
      }
    }

    /** Join the block with the member before it, if they touch; otherwise link it in. */
    method JoinLower(bp: nat, p: nat, ghost k: nat, ghost nodes1: seq<nat>) returns (ghost nodes': seq<nat>, ghost m: nat)
      requires Ordered(base, nodes1, size) && CoalescedBut(nodes1, size, {k}) && Ring(ptr[p := bp], nodes1)
      requires k + 1 < |nodes1| && nodes1[k] == p && nodes1[k + 1] == bp && bp in ptr && base + UNIT <= bp
      modifies `ptr, `size
      ensures Ordered(base, nodes', size) && CoalescedBut(nodes', size, {}) && Ring(ptr, nodes')
      ensures k < |nodes'| && nodes'[k] == p && p in size && bp in old(size)
      ensures size == old(size)[p := size[p]] && (k == 0 ==> size == old(size))
      ensures forall x: nat :: IsFree(nodes', size, x) <==> IsFree(nodes1, old(size), x)
      ensures 0 < m < |nodes'| && nodes'[m] in size && size[nodes'[m]] >= old(size)[bp]
    {
      Sorted(base, nodes1, size, k, k + 1);
      if p + UNIT * size[p] == bp {
        OrderedDistinct(base, nodes1, size);
        ghost var ring := ptr[p := bp];
        DropRing(ring, nodes1, k + 1);
        assert k + 2 < |nodes1| ==> Gap(nodes1, size, k + 1);
        MergeOrdered(base, nodes1, size, k, {k});
        assert {k} - {k} == {};
        forall x: nat {
          MergeFree(base, nodes1, size, k, x);
        }
        size := size[p := size[p] + size[bp]];
        ptr := ptr[p := ptr[bp]];
        nodes', m := Drop(nodes1, k + 1), k;
        assert ring[p := ring[bp]] == ptr;
      } else {
        ptr := ptr[p := bp];
        nodes', m := nodes1, k + 1;
        assert size == size[p := size[p]];
        forall i: nat | i + 1 < |nodes'| ensures Gap(nodes', size, i) {
          assert Before(nodes', size, i);
        }
      }
    }

    /** The block becomes free; nothing else changes. */
    method Free(ap: nat) returns (ghost m: nat)
      requires Valid() && ap >= UNIT && ap - UNIT in live
      modifies this
      ensures Valid() && live == old(live) - {ap - UNIT} && owned == old(owned) && freep != NULL
      ensures 0 < m < |nodes| && nodes[m] in size && size[nodes[m]] >= old(live)[ap - UNIT]
    {
      var bp := ap - UNIT;
      assert BlockOk(base, size, live, bp);
      forall i: nat | i < |nodes| ensures nodes[i] != bp {
        NodeNotLive(base, nodes, size, live, owned, i);
      }
      var p, k := FindPlace(bp);
      LiveFits(base, nodes, size, live, owned, k, bp);
      NodeNotLive(base, nodes, size, live, owned, k);
      ghost var nodes1 := JoinUpper(bp, p, k);
      ghost var nodes2;
      nodes2, m := JoinLower(bp, p, k, nodes1);
      forall b | b in live && b != bp ensures b in size && b in old(size) && size[b] == old(size)[b] {
        assert BlockOk(base, old(size), live, b);
      }
      Freed(base, nodes, old(size), live, owned, bp, nodes2, size);
      if k > 0 {
        Sorted(base, nodes, old(size), 0, k);
      }
      freep := p;
      nodes, at, live := nodes2, k, live - {bp};
    }

    /** Fresh memory from `sbrk` is above `base` and has not been obtained before. */
    ghost predicate Fresh(brk: Option<nat>, n: nat)
      reads this
    {
      brk.Some? ==> base + UNIT <= brk.value && forall x: nat :: Inside(brk.value, n, x) ==> x !in owned
    }

    method MoreCore(nunits: nat, brk: Option<nat>) returns (p: nat, ghost m: nat)
      requires Valid() && freep != NULL && Fresh(brk, Request(nunits))
      modifies this
      ensures Valid() && freep != NULL && live == old(live)
      ensures p == if brk.None? then NULL else freep
      ensures brk.None? ==> owned == old(owned) && nodes == old(nodes) && size == old(size) && ptr == old(ptr)
      ensures brk.Some? ==> owned == old(owned) + Region(brk.value, Request(nunits))
      ensures brk.Some? ==> 0 < m < |nodes| && nodes[m] in size && size[nodes[m]] >= nunits
    {
      var nu := Request(nunits);
      m := 0;
      if brk.None? {
        return NULL, m;
      }
      var hp := brk.value;
      Grown(base, nodes, size, live, owned, hp, nu);
      assert ExactAt(nodes, size, live, owned, hp) && Inside(hp, nu, hp);
      assert hp in live ==> BlockOk(base, size, live, hp) && LiveAt(live, hp, hp);
      size := size[hp := nu];
      owned := owned + Region(hp, nu);
      live := live[hp := nu];
      m := Free(hp + UNIT);
      assert live == old(live);
      p := freep;
    }

    /** Take `nunits` from member `i`: all of it, or its tail. */
    method Carve(prevp: nat, p: nat, nunits: nat, ghost i: nat) returns (q: nat)
      requires Valid() && freep != NULL && nunits >= 1 && 0 < i < |nodes|
      requires p == nodes[i] && prevp == nodes[i - 1] && p in size && size[p] >= nunits
      modifies this
      ensures Valid() && freep != NULL && q > 0
      ensures q !in old(live) && live == old(live)[q := nunits] && owned == old(owned)
    {
      Sorted(base, nodes, size, 0, i);
      assert Link(ptr, nodes, i);
      OrderedDistinct(base, nodes, size);
      forall j: nat | j < |nodes| ensures nodes[j] !in live {
        NodeNotLive(base, nodes, size, live, owned, j);
      }
      forall b: nat | b in live ensures b in size {
        assert BlockOk(base, size, live, b);
      }
      if size[p] == nunits {
        q := p;
        TakeWhole(base, nodes, size, live, owned, i);
        DropRing(ptr, nodes, i);
        ptr := ptr[prevp := ptr[p]];
        nodes := Drop(nodes, i);
      } else {
        TakeTail(base, nodes, size, live, owned, i, nunits);
        size := size[p := size[p] - nunits];
        q := p + UNIT * size[p];
        size := size[q := nunits];
      }
      freep := prevp;
      at := i - 1;
      live := live[q := nunits];
      if i > 1 {
        Sorted(base, old(nodes), old(size), 0, i - 1);
      }
    }

    /** The first call makes a ring of the base alone. */
    method Start()
      requires Valid()
      modifies this
      ensures Valid() && freep != NULL && live == old(live) && owned == old(owned)
      ensures old(freep) != NULL ==> nodes == old(nodes) && size == old(size) && ptr == old(ptr) && freep == old(freep)
    {
      if freep == NULL {
        ptr, size := ptr[base := base], size[base := 0];
        freep := base;
        nodes, at := [base], 0;
        StartSound(base, size);
        assert Link(ptr, nodes, 0);
      }
    }

    /** An allocated block of at least `nbytes` bytes behind its header, apart from all others; or
        null, when no free block is large enough and `sbrk` fails. */
    method Malloc(nbytes: nat, brk: Option<nat>) returns (r: nat)
      requires Valid() && Fresh(brk, Request(Units(nbytes)))
      modifies this
      ensures Valid()
      ensures r == NULL ==>
        && live == old(live) && owned == old(owned) && brk.None?
        && forall i: nat :: i < |nodes| ==> Small(nodes, size, i, Units(nbytes))
      ensures r != NULL ==>
        && r > UNIT && r - UNIT !in old(live) && live == old(live)[r - UNIT := Units(nbytes)]
        && (owned == old(owned)
            || (brk.Some? && owned == old(owned) + Region(brk.value, Request(Units(nbytes)))))
      ensures old(freep != NULL && Roomy(nodes, size, Units(nbytes))) ==> r != NULL && owned == old(owned)
    {
      var nunits := Units(nbytes);
      ghost var room := freep != NULL && Roomy(nodes, size, nunits);
      Start();
      var prevp := freep;
      assert Link(ptr, nodes, at);
      var p := ptr[prevp];
      ghost var i: nat, fetched := Next(nodes, at), false;
      while true
        invariant Valid() && freep != NULL && i < |nodes| && p == nodes[i] && live == old(live)
        invariant prevp == nodes[if i > 0 then i - 1 else |nodes| - 1]
        invariant forall m: nat :: m < |nodes| && Seen(at, i, m) ==> Small(nodes, size, m, nunits)
        invariant if fetched then !room else owned == old(owned) && (room ==> Roomy(nodes, size, nunits))
        invariant fetched ==> brk.Some? && owned == old(owned) + Region(brk.value, Request(nunits)) && Roomy(nodes, size, nunits)
        decreases !fetched, Steps(i, at, |nodes|)
      {
        NodeSize(base, nodes, size, i);
        if size[p] >= nunits {
          var q := Carve(prevp, p, nunits, i);
          return q + UNIT;
        }
        assert Small(nodes, size, i, nunits);
        if p == freep {
          OrderedDistinct(base, nodes, size);
          assert i == at;
          AllSmall(nodes, size, at, nunits);
          ghost var m;
          p, m := MoreCore(nunits, brk);
          if p == NULL {
            return NULL;
          }
          assert !Small(nodes, size, m, nunits);
          fetched := true;
          i := at;
        }
        prevp := p;
        assert Link(ptr, nodes, i);
        p := ptr[p];
        i := Next(nodes, i);
      }
    }

    /** `free` undoes `malloc`: unless new memory came in, the free list is what it was. */
    method AllocateAndFree(nbytes: nat, brk: Option<nat>)
      requires Valid() && freep != NULL && Fresh(brk, Request(Units(nbytes)))
      modifies this
      ensures Valid() && live == old(live)
      ensures owned == old(owned) && freep != NULL ==>
        nodes == old(nodes) && forall a :: a in nodes ==> a in size && a in old(size) && size[a] == old(size)[a]
    {
      var r := Malloc(nbytes, brk);
      if r != NULL {
        ghost var _ := Free(r);
        assert live == old(live);
      }
      if owned == old(owned) && freep != NULL {
        FreeListDetermined(base, old(nodes), old(size), nodes, size, live, owned);
      }
    }
  }
}
