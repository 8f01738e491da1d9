/** The buffer cache: a fixed array of buffers on a doubly linked list through `prev` and `next`,
    most recently released first. Node `n` is the list head. */
module BufferCache {
  import opened Common
  import opened LogLayout

  const NODEV: int := -1
  const ROOTDEV: int := 1

  datatype Buf = Buf(dev: int, blockno: nat, busy: bool, valid: bool, dirty: bool, data: Block)

  /** One atomic single-block write. */
  datatype DiskWrite = DiskWrite(b: nat, data: Block)

  /** `bget` returns a busy buffer, sleeps on a held one, or stops the machine. */
  datatype Outcome = Got(b: nat) | Sleeps(b: nat) | NoBuffers

  predicate Caches(buf: Buf, dev: int, blockno: nat) {
    buf.dev == dev && buf.blockno == blockno
  }

  predicate Recyclable(buf: Buf) {
    !buf.busy && !buf.dirty
  }

  /** The list as a ring that starts and ends at the head `n`. */
  function Node(order: seq<nat>, n: nat, i: nat): nat
    requires i <= |order| + 1
  {
    if i == 0 || i == |order| + 1 then n else order[i - 1]
  }

  /** `order` lists the buffers 0 .. n-1, each exactly once. */
  ghost predicate Permutation(order: seq<nat>, n: nat) {
    && |order| == n
    && NoDup(order)
    && (forall i :: 0 <= i < n ==> order[i] < n)
    && (forall b: nat :: b < n ==> b in order)
  }

  /** `next` and `prev` run through the head and `order`, forwards and backwards. */
  ghost predicate Linked(next: seq<nat>, prev: seq<nat>, order: seq<nat>, n: nat) {
    && |next| == |prev| == n + 1
    && NoDup(order)
    && (forall i :: 0 <= i < |order| ==> order[i] < n)
    && (forall i: nat :: i <= |order| ==> LinkedAt(next, prev, order, n, i))
  }

  /** The nodes `i` and `i + 1` of the ring are linked both ways. */
  predicate LinkedAt(next: seq<nat>, prev: seq<nat>, order: seq<nat>, n: nat, i: nat)
    requires i <= |order|
  {
    var a, b := Node(order, n, i), Node(order, n, i + 1);
    a < |next| && b < |prev| && next[a] == b && prev[b] == a
  }

  function Without(order: seq<nat>, k: nat): seq<nat>
    requires k < |order|
  {
    order[..k] + order[k + 1..]
  }

  lemma UnlinkKeepsRing(next: seq<nat>, prev: seq<nat>, order: seq<nat>, n: nat, k: nat)
    requires Linked(next, prev, order, n) && k < |order|
    ensures var b := order[k];
      && next[b] <= n && prev[b] <= n
      && Linked(next[prev[b] := next[b]], prev[next[b] := prev[b]], Without(order, k), n)
  {
    var b, rest := order[k], Without(order, k);
    assert Node(order, n, k + 1) == b;
    assert LinkedAt(next, prev, order, n, k) && LinkedAt(next, prev, order, n, k + 1);
    assert prev[b] == Node(order, n, k) && next[b] == Node(order, n, k + 2);
    var next', prev' := next[prev[b] := next[b]], prev[next[b] := prev[b]];
    forall i: nat | i <= |rest| ensures LinkedAt(next', prev', rest, n, i) {
      assert LinkedAt(next, prev, order, n, if i <= k then i else i + 1);
    }
  }

  lemma InsertFrontKeepsRing(next: seq<nat>, prev: seq<nat>, order: seq<nat>, n: nat, b: nat)
    requires Linked(next, prev, order, n) && b < n && b !in order
    ensures next[n] <= n
    ensures Linked(next[b := next[n]][n := b], prev[b := n][next[n] := b], [b] + order, n)
  {
    var front := [b] + order;
    assert LinkedAt(next, prev, order, n, 0);
    assert Node(order, n, 0) == n && next[n] == Node(order, n, 1);
    var next', prev' := next[b := next[n]][n := b], prev[b := n][next[n] := b];
    forall i: nat | i <= |front| ensures LinkedAt(next', prev', front, n, i) {
      assert i > 0 ==> LinkedAt(next, prev, order, n, i - 1);
    }
  }

  function MoveToFront(order: seq<nat>, k: nat): seq<nat>
    requires k < |order|
  {
    [order[k]] + Without(order, k)
  }

  /** Latest release first. */
  ghost predicate ByRelease(order: seq<nat>, released: seq<nat>, clock: nat) {
    && (forall i :: 0 <= i < |order| ==> order[i] < |released|)
    && (forall i :: 0 <= i < |released| ==> released[i] <= clock)
    && (forall i, j :: 0 <= i < j < |order| ==> released[order[i]] >= released[order[j]])
  }

  lemma MoveToFrontKeeps(order: seq<nat>, n: nat, k: nat, released: seq<nat>, clock: nat)
    requires Permutation(order, n) && k < n && |released| == n && ByRelease(order, released, clock)
    ensures Permutation(MoveToFront(order, k), n)
    ensures ByRelease(MoveToFront(order, k), released[order[k] := clock + 1], clock + 1)
  {
    var moved := MoveToFront(order, k);
    forall b: nat | b < n ensures b in moved {
      assert b in order;
      var i :| 0 <= i < n && order[i] == b;
      assert moved[if i < k then i + 1 else if i == k then 0 else i] == b;
    }
  }

  /** At most one buffer per block. */
  ghost predicate Unique(bufs: seq<Buf>) {
    forall i, j :: 0 <= i < j < |bufs| && bufs[i].dev != NODEV ==>
      !Caches(bufs[j], bufs[i].dev, bufs[i].blockno)
  }

  ghost predicate Cached(bufs: seq<Buf>, x: nat) {
    exists i :: 0 <= i < |bufs| && Caches(bufs[i], ROOTDEV, x)
  }

  /** The cache and the disk together represent one flat block map `view`, of which the blocks in
      `dirty` are logged but not yet written home. */
  ghost predicate Represents(bufs: seq<Buf>, disk: Disk, view: Disk, dirty: set<nat>) {
    && |view| == |disk|
    && (forall i :: 0 <= i < |bufs| && bufs[i].dev == NODEV ==> Recyclable(bufs[i]))
    && (forall i :: 0 <= i < |bufs| && bufs[i].dev != NODEV ==>
          && bufs[i].dev == ROOTDEV && bufs[i].blockno < |disk| && bufs[i].valid
          && bufs[i].data == view[bufs[i].blockno]
          && (bufs[i].dirty <==> bufs[i].blockno in dirty)
          && (Recyclable(bufs[i]) ==> bufs[i].data == disk[bufs[i].blockno]))
    && (forall x :: x in dirty ==> Cached(bufs, x))
    && (forall x: nat :: x < |disk| && !Cached(bufs, x) ==> view[x] == disk[x])
  }

  /** Recycling buffer `i` for block `x` and filling it from the disk changes nothing visible. */
  lemma RefillKeepsView(bufs: seq<Buf>, disk: Disk, view: Disk, dirty: set<nat>, i: nat, x: nat)
    requires Unique(bufs) && Represents(bufs, disk, view, dirty)
    requires i < |bufs| && x < |disk| && Recyclable(bufs[i]) && !Cached(bufs, x)
    ensures Represents(bufs[i := Buf(ROOTDEV, x, true, true, false, disk[x])], disk, view, dirty)
  {
    var after := bufs[i := Buf(ROOTDEV, x, true, true, false, disk[x])];
    forall y: nat | Cached(bufs, y) && !(bufs[i].dev != NODEV && y == bufs[i].blockno)
      ensures Cached(after, y)
    {
      var j :| 0 <= j < |bufs| && Caches(bufs[j], ROOTDEV, y);
      assert Caches(after[j], ROOTDEV, y);
    }
    forall y: nat | y < |disk| && !Cached(after, y) ensures view[y] == disk[y] {
    }
  }

  /** Replacing buffer `i` by one for the same block. */
  lemma SameBlockKeeps(
      bufs: seq<Buf>, disk: Disk, view: Disk, dirty: set<nat>,
      i: nat, buf: Buf, disk1: Disk, view1: Disk, dirty1: set<nat>)
    requires Unique(bufs) && Represents(bufs, disk, view, dirty)
    requires i < |bufs| && bufs[i].dev != NODEV
    requires Caches(buf, bufs[i].dev, bufs[i].blockno) && buf.valid
    requires var x := buf.blockno;
      && |disk1| == |disk| && disk1 == disk[x := disk1[x]] && view1 == view[x := buf.data]
      && dirty1 == (if buf.dirty then dirty + {x} else dirty - {x})
      && (Recyclable(buf) ==> buf.data == disk1[x])
    ensures Unique(bufs[i := buf]) && Represents(bufs[i := buf], disk1, view1, dirty1)
  {
    var after := bufs[i := buf];
    forall y: nat ensures Cached(after, y) <==> Cached(bufs, y) {
      if j :| 0 <= j < |bufs| && Caches(bufs[j], ROOTDEV, y) {
        assert Caches(after[j], ROOTDEV, y);
      }
      if j :| 0 <= j < |after| && Caches(after[j], ROOTDEV, y) {
        assert Caches(bufs[j], ROOTDEV, y);
      }
    }
    assert Cached(bufs, buf.blockno);
  }

  lemma SameBlockKeepsUnique(bufs: seq<Buf>, i: nat, buf: Buf)
    requires Unique(bufs) && i < |bufs| && Caches(buf, bufs[i].dev, bufs[i].blockno)
    ensures Unique(bufs[i := buf])
  {
  }

  class Bcache {
    const n: nat
    const buf: array<Buf>
    const next: array<nat>
    const prev: array<nat>
    var disk: Disk
    ghost var writes: seq<DiskWrite>   // every disk write so far, in order
    ghost var view: Disk                // the flat block map that callers see
    ghost var dirty: set<nat>           // the blocks pinned by log_write
    ghost var order: seq<nat>
    ghost var clock: nat            // number of releases so far
    ghost var released: seq<nat>    // per buffer, the clock at its last release

    ghost predicate ListValid()
      reads this, buf, next, prev
    {
      && buf.Length == n && next.Length == prev.Length == n + 1
      && next != prev
      && Permutation(order, n)
      && Linked(next[..], prev[..], order, n)
      && Unique(buf[..])
      && |released| == n && ByRelease(order, released, clock)
    }

    /** `binit`: every buffer unused, each inserted after the head in turn. */
    constructor (count: nat, image: Disk)
      ensures Valid() && fresh(buf) && fresh(next) && fresh(prev)
      ensures n == count && disk == image && view == image && writes == [] && dirty == {}
      ensures forall i :: 0 <= i < n ==> buf[i].dev == NODEV
    {
      n := count;
      buf := new Buf[count](_ => Buf(NODEV, 0, false, false, false, seq(WORDS, _ => 0)));
      next := new nat[count + 1](_ => count);
      prev := new nat[count + 1](_ => count);
      disk, view, writes, dirty := image, image, [], {};
      order, clock, released := [], 0, seq(count, _ => 0);
      new;
      ghost var list: seq<nat> := [];
      for b := 0 to n
        modifies next, prev
        invariant |list| == b && Linked(next[..], prev[..], list, n)
        invariant forall i :: 0 <= i < b ==> list[i] == b - 1 - i
      {
        LinkAfterHead(b, list);
        list := [b] + list;
      }
      forall b: nat | b < n ensures b in list {
        assert list[n - 1 - b] == b;
      }
      order := list;
    }

    /** Put `b` right after the head. */
    method LinkAfterHead(b: nat, ghost list: seq<nat>)
      requires Linked(next[..], prev[..], list, n) && next != prev
      requires b < n && b !in list
      modifies next, prev
      ensures Linked(next[..], prev[..], [b] + list, n)
    {
      InsertFrontKeepsRing(next[..], prev[..], list, n, b);
      ghost var next0: seq<nat>, prev0: seq<nat> := next[..], prev[..];
      next[b] := next[n];
      prev[b] := n;
      prev[next[n]] := b;
      next[n] := b;
      assert next[..] == next0[b := next0[n]][n := b] && prev[..] == prev0[b := n][next0[n] := b];
    }

    /** Take `b` out of the list and put it back right after the head. */
    method MoveToHead(b: nat, ghost k: nat)
      requires Linked(next[..], prev[..], order, n) && next != prev
      requires k < |order| && order[k] == b
      modifies next, prev
      ensures Linked(next[..], prev[..], MoveToFront(order, k), n)
    {
      UnlinkKeepsRing(next[..], prev[..], order, n, k);
      ghost var next1: seq<nat> := next[..][prev[b] := next[b]];
      ghost var prev1: seq<nat> := prev[..][next[b] := prev[b]];
      prev[next[b]] := prev[b];
      next[prev[b]] := next[b];
      assert next[..] == next1 && prev[..] == prev1;
      LinkAfterHead(b, Without(order, k));
    }

    /** Move `b` to the front of the list, as the one released last. */
    method ToFront(b: nat) returns (ghost k: nat)
      requires ListValid() && b < n
      modifies this`order, this`clock, this`released, next, prev
      ensures ListValid()
      ensures k < n && old(order)[k] == b && order == MoveToFront(old(order), k)
      ensures clock == old(clock) + 1 && released == old(released)[b := clock]
    {
      assert b in order;
      k :| k < n && order[k] == b;
      MoveToFrontKeeps(order, n, k, released, clock);
      MoveToHead(b, k);
      order, clock, released := MoveToFront(order, k), clock + 1, released[b := clock + 1];
    }

    /** Move `b` to the front of the list and release it. */
    method Brelse(b: nat)
      requires ListValid() && b < n
      requires buf[b].busy
      modifies this`order, this`clock, this`released, buf, next, prev
      ensures ListValid()
      ensures buf[..] == old(buf[..])[b := old(buf[b]).(busy := false)]
      ensures exists k :: 0 <= k < n && old(order)[k] == b && order == MoveToFront(old(order), k)
      ensures clock == old(clock) + 1 && released == old(released)[b := clock]
    {
      ghost var k := ToFront(b);
      SameBlockKeepsUnique(buf[..], b, buf[b].(busy := false));
      ghost var bufs := buf[..][b := buf[b].(busy := false)];
      buf[b] := buf[b].(busy := false);
      assert buf[..] == bufs;
    }

    /** Scan forwards for a buffer that caches the block; the head `n` when there is none. */
    method FindCached(dev: int, blockno: nat) returns (b: nat)
      requires ListValid()
      ensures b <= n && (b < n ==> Caches(buf[b], dev, blockno))
      ensures b == n ==> forall i :: 0 <= i < n ==> !Caches(buf[i], dev, blockno)
    {
      ghost var k: nat := 0;
      assert LinkedAt(next[..], prev[..], order, n, 0);
      b := next[n];
      while b != n
        invariant k <= n && b == Node(order, n, k + 1)
        invariant forall i :: 0 <= i < k ==> !Caches(buf[order[i]], dev, blockno)
        decreases n - k
      {
        if Caches(buf[b], dev, blockno) {
          return;
        }
        assert LinkedAt(next[..], prev[..], order, n, k + 1);
        b := next[b];
        k := k + 1;
      }
      forall i: nat | i < n ensures !Caches(buf[i], dev, blockno) {
        assert i in order;
      }
    }

    /** Scan backwards for a clean buffer nobody holds: the one released longest ago. */
    method FindRecyclable() returns (b: nat)
      requires ListValid()
      ensures b <= n
      ensures b < n ==>
        && Recyclable(buf[b])
        && forall i :: 0 <= i < n && Recyclable(buf[i]) ==> released[b] <= released[i]
      ensures b == n ==> forall i :: 0 <= i < n ==> !Recyclable(buf[i])
    {
      ghost var k: nat := n;
      assert LinkedAt(next[..], prev[..], order, n, n);
      b := prev[n];
      while b != n
        invariant k <= n && b == Node(order, n, k)
        invariant forall i :: k <= i < n ==> !Recyclable(buf[order[i]])
        decreases k
      {
        if Recyclable(buf[b]) {
          break;
        }
        assert LinkedAt(next[..], prev[..], order, n, k - 1);
        b := prev[b];
        k := k - 1;
      }
      forall i: nat | i < n && Recyclable(buf[i]) ensures b < n && released[b] <= released[i] {
        assert i in order;
      }
    }

    /** Look for the block; else recycle a buffer. */
    method Bget(dev: int, blockno: nat) returns (r: Outcome)
      requires ListValid() && dev != NODEV
      modifies buf
      ensures ListValid()
      ensures forall i :: 0 <= i < n && old(Caches(buf[i], dev, blockno)) ==>
        if old(buf[i].busy)
        then r == Sleeps(i) && buf[..] == old(buf[..])
        else r == Got(i) && buf[..] == old(buf[..])[i := old(buf[i]).(busy := true)]
      ensures (forall i :: 0 <= i < n ==> !old(Caches(buf[i], dev, blockno))) ==>
        match r
        case Got(b) =>
          && b < n && Recyclable(old(buf[b]))
          && (forall i :: 0 <= i < n && Recyclable(old(buf[i])) ==> released[b] <= released[i])
          && buf[..] == old(buf[..])[b := Buf(dev, blockno, true, false, false, old(buf[b]).data)]
        case Sleeps(_) => false
        case NoBuffers => buf[..] == old(buf[..]) && forall i :: 0 <= i < n ==> !Recyclable(buf[i])
    {
      var b := FindCached(dev, blockno);
      if b != n {
        if buf[b].busy {
          return Sleeps(b);
        }
        buf[b] := buf[b].(busy := true);
        return Got(b);
      }
      b := FindRecyclable();
      if b != n {
        buf[b] := Buf(dev, blockno, true, false, false, buf[b].data);
        return Got(b);
      }
      return NoBuffers;
    }

    ghost predicate Valid()
      reads this, buf, next, prev
    {
      ListValid() && Represents(buf[..], disk, view, dirty)
    }

    /** A busy buffer with the contents of the block, read from the disk on a miss. */
    method Bread(blockno: nat) returns (r: Outcome)
      requires Valid() && blockno < |disk|
      modifies buf
      ensures Valid()
      ensures match r
        case Got(b) =>
          && b < n && !old(buf[b].busy)
          && (if old(Caches(buf[b], ROOTDEV, blockno))
              then buf[b] == old(buf[b]).(busy := true)
              else Recyclable(old(buf[b])) && buf[b] == Buf(ROOTDEV, blockno, true, true, false, disk[blockno]))
          && forall i :: 0 <= i < n && i != b ==> buf[i] == old(buf[i])
        case Sleeps(b) => buf[..] == old(buf[..]) && b < n && Caches(buf[b], ROOTDEV, blockno) && buf[b].busy
        case NoBuffers =>
          && buf[..] == old(buf[..])
          && forall i :: 0 <= i < n ==> !Recyclable(buf[i]) && !Caches(buf[i], ROOTDEV, blockno)
    {
      ghost var before := buf[..];
      r := Bget(ROOTDEV, blockno);
      if r.Got? {
        if !buf[r.b].valid {
          buf[r.b] := buf[r.b].(data := disk[blockno], valid := true);
        }
        if Caches(before[r.b], ROOTDEV, blockno) {
          SameBlockKeeps(before, disk, view, dirty, r.b, before[r.b].(busy := true), disk, view, dirty);
          assert buf[..] == before[r.b := before[r.b].(busy := true)];
        } else {
          RefillKeepsView(before, disk, view, dirty, r.b, blockno);
          assert buf[..] == before[r.b := Buf(ROOTDEV, blockno, true, true, false, disk[blockno])];
        }
      }
    }

    /** The holder of a buffer overwrites its contents. */
    method Store(b: nat, data: Block)
      requires Valid() && b < n && buf[b].busy
      modifies this`view, buf
      ensures Valid()
      ensures buf[..] == old(buf[..])[b := old(buf[b]).(data := data)]
      ensures view == old(view)[buf[b].blockno := data]
    {
      ghost var bufs, after := buf[..], buf[b].(data := data);
      SameBlockKeeps(bufs, disk, view, dirty, b, after, disk, view[after.blockno := data], dirty);
      buf[b] := buf[b].(data := data);
      view := view[buf[b].blockno := data];
      assert buf[..] == bufs[b := after];
    }

    /** Pin a held buffer (the flag set by `log_write`). */
    method Pin(b: nat)
      requires Valid() && b < n && buf[b].busy
      modifies this`dirty, buf
      ensures Valid()
      ensures buf[..] == old(buf[..])[b := old(buf[b]).(dirty := true)]
      ensures dirty == old(dirty) + {buf[b].blockno}
    {
      ghost var bufs, after := buf[..], buf[b].(dirty := true);
      SameBlockKeeps(bufs, disk, view, dirty, b, after, disk, view, dirty + {after.blockno});
      buf[b] := buf[b].(dirty := true);
      dirty := dirty + {buf[b].blockno};
      assert buf[..] == bufs[b := after];
    }

    /** Write a held buffer to the disk. */
    method Bwrite(b: nat)
      requires Valid() && b < n && buf[b].busy
      modifies this`disk, this`writes, this`dirty, buf
      ensures Valid()
      ensures buf[..] == old(buf[..])[b := old(buf[b]).(dirty := false)]
      ensures disk == old(disk)[buf[b].blockno := buf[b].data]
      ensures writes == old(writes) + [DiskWrite(buf[b].blockno, buf[b].data)]
      ensures dirty == old(dirty) - {buf[b].blockno}
    {
      ghost var bufs, after := buf[..], buf[b].(dirty := false);
      SameBlockKeeps(bufs, disk, view, dirty, b, after,
                     disk[after.blockno := after.data], view, dirty - {after.blockno});
      disk := disk[buf[b].blockno := buf[b].data];
      writes := writes + [DiskWrite(buf[b].blockno, buf[b].data)];
      buf[b] := buf[b].(dirty := false);
      dirty := dirty - {buf[b].blockno};
      assert buf[..] == bufs[b := after];
    }

    /** Overwrite a held buffer and write it to the disk. */
    method Overwrite(b: nat, data: Block)
      requires Valid() && b < n && buf[b].busy
      modifies this`disk, this`view, this`writes, this`dirty, buf
      ensures Valid()
      ensures buf[..] == old(buf[..])[b := old(buf[b]).(data := data, dirty := false)]
      ensures disk == old(disk)[buf[b].blockno := data] && view == old(view)[buf[b].blockno := data]
      ensures writes == old(writes) + [DiskWrite(buf[b].blockno, data)]
      ensures dirty == old(dirty) - {buf[b].blockno}
    {
      Store(b, data);
      Bwrite(b);
    }

    /** `brelse` of a buffer whose contents are pinned or on disk. */
    method Release(b: nat)
      requires Valid() && b < n && buf[b].busy
      requires buf[b].dirty || buf[b].data == disk[buf[b].blockno]
      modifies this`order, this`clock, this`released, buf, next, prev
      ensures Valid()
      ensures buf[..] == old(buf[..])[b := old(buf[b]).(busy := false)]
    {
      SameBlockKeeps(buf[..], disk, view, dirty, b, buf[b].(busy := false), disk, view, dirty);
      Brelse(b);
    }

    /** Overwrite a held buffer, write it to the disk and release it. */
    method WriteBack(b: nat, data: Block)
      requires Valid() && b < n && buf[b].busy
      modifies this, buf, next, prev
      ensures Valid()
      ensures disk == old(disk)[old(buf[b].blockno) := data]
      ensures view == old(view)[old(buf[b].blockno) := data]
      ensures writes == old(writes) + [DiskWrite(old(buf[b].blockno), data)]
      ensures dirty == old(dirty) - {old(buf[b].blockno)}
      ensures Recyclable(buf[b])
      ensures forall i :: 0 <= i < n && i != b ==> buf[i] == old(buf[i])
    {
      Overwrite(b, data);
      Release(b);
    }
  }
}
