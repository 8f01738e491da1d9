/** Two-level page tables as values. Pages are counted, not addressed: page number = address / 4096. */
module PageMap {

  const NPT: nat := 1024
  /** Pages below the kernel's half of an address space, and in all of it. */
  const KPAGES: nat := 0x80000
  const VPAGES: nat := 0x100000

  type Byte = b: int | 0 <= b < 256
  type Frame = s: seq<Byte> | |s| == 4096 witness seq(4096, _ => 0)

  datatype Pte = Pte(present: bool, ppn: nat, flags: nat)

  const NOPTE: Pte := Pte(false, 0, 0)

  type Entries = s: seq<Pte> | |s| == NPT witness seq(NPT, _ => Pte(false, 0, 0))

  datatype Page = Data(bytes: Frame) | Ptes(entries: Entries)

  /** What a physical page is in use for. `Lost` pages have been allocated but belong to nothing (yet). */
  datatype Owner = Free | Reserved | Lost | Dir | Table(d: nat, i: nat) | User(d: nat, v: nat)

  function NoEntries(): (e: Entries)
    ensures forall j :: 0 <= j < NPT ==> e[j] == NOPTE
  {
    seq(NPT, _ => NOPTE)
  }

  function Entry(page: seq<Page>, t: nat, j: nat): Pte {
    if t < |page| && page[t].Ptes? && j < NPT then page[t].entries[j] else NOPTE
  }

  /** The translation of virtual page `v` in the address space of directory `d`. */
  function Lookup(page: seq<Page>, d: nat, v: nat): Pte {
    var pde := Entry(page, d, v / NPT);
    if pde.present then Entry(page, pde.ppn, v % NPT) else NOPTE
  }

  predicate IsDir(owner: seq<Owner>, d: nat) {
    d < |owner| && owner[d] == Dir
  }

  // ---------- Labels agree with the tables ----------

  predicate LabelOk(page: seq<Page>, owner: seq<Owner>, p: nat)
    requires p < |page| && p < |owner|
  {
    match owner[p]
    case Dir => page[p].Ptes?
    case Table(d, i) =>
      page[p].Ptes? && i < NPT && IsDir(owner, d) && Entry(page, d, i).present && Entry(page, d, i).ppn == p
    case User(d, v) =>
      page[p].Data? && v < KPAGES && IsDir(owner, d) && Lookup(page, d, v).present && Lookup(page, d, v).ppn == p
    case _ => true
  }

  predicate PdeOk(page: seq<Page>, owner: seq<Owner>, d: nat, i: nat) {
    IsDir(owner, d) && i < NPT && Entry(page, d, i).present ==>
      Entry(page, d, i).ppn < |owner| && owner[Entry(page, d, i).ppn] == Table(d, i)
  }

  predicate PteOk(page: seq<Page>, owner: seq<Owner>, d: nat, v: nat) {
    IsDir(owner, d) && v < KPAGES && Lookup(page, d, v).present ==>
      Lookup(page, d, v).ppn < |owner| && owner[Lookup(page, d, v).ppn] == User(d, v)
  }

  /** Every table and every user page is reached from exactly one place. */
  ghost predicate Sound(page: seq<Page>, owner: seq<Owner>) {
    && |page| == |owner|
    && (forall p: nat :: p < |page| ==> LabelOk(page, owner, p))
    && (forall d: nat, i: nat :: PdeOk(page, owner, d, i))
    && (forall d: nat, v: nat :: PteOk(page, owner, d, v))
  }

  /** Page `v` of space `d` translates as before. */
  predicate Same(page: seq<Page>, page': seq<Page>, d: nat, v: nat) {
    Lookup(page', d, v) == Lookup(page, d, v)
  }

  // ---------- A page that nobody uses ----------

  /** Contents of pages that are neither directory nor table do not matter for translation. */
  lemma OtherPage(page: seq<Page>, owner: seq<Owner>, q: nat, x: Page, d: nat, v: nat)
    requires Sound(page, owner) && q < |page| && !owner[q].Dir? && !owner[q].Table? && IsDir(owner, d)
    ensures Same(page, page[q := x], d, v)
    ensures forall i: nat :: Entry(page[q := x], d, i) == Entry(page, d, i)
  {
    assert v / NPT < NPT ==> PdeOk(page, owner, d, v / NPT);
  }

  /** Relabelling and refilling a page that is not reached from any directory. */
  lemma Refill(page: seq<Page>, owner: seq<Owner>, q: nat, x: Page, o: Owner)
    requires Sound(page, owner) && q < |page|
    requires owner[q].Free? || owner[q].Lost? || owner[q].Reserved?
    requires o.Free? || o.Lost? || o.Reserved?
    ensures Sound(page[q := x], owner[q := o])
  {
    var page', owner' := page[q := x], owner[q := o];
    forall p: nat | p < |page'| ensures LabelOk(page', owner', p) {
      assert LabelOk(page, owner, p);
      match owner[p] {
        case Table(d, i) => OtherPage(page, owner, q, x, d, 0);
        case User(d, v) => OtherPage(page, owner, q, x, d, v);
        case _ =>
      }
    }
    forall d: nat, i: nat ensures PdeOk(page', owner', d, i) {
      assert PdeOk(page, owner, d, i);
      if IsDir(owner', d) {
        OtherPage(page, owner, q, x, d, 0);
      }
    }
    forall d: nat, v: nat ensures PteOk(page', owner', d, v) {
      assert PteOk(page, owner, d, v);
      if IsDir(owner', d) {
        OtherPage(page, owner, q, x, d, v);
      }
    }
  }

  // ---------- A new directory ----------

  lemma NewDir(page: seq<Page>, owner: seq<Owner>, q: nat)
    requires Sound(page, owner) && q < |page| && owner[q].Lost?
    ensures Sound(page[q := Ptes(NoEntries())], owner[q := Dir])
  {
    var page', owner' := page[q := Ptes(NoEntries())], owner[q := Dir];
    Refill(page, owner, q, Ptes(NoEntries()), Lost);
    assert owner[q := Lost] == owner;
    forall p: nat | p < |page'| ensures LabelOk(page', owner', p) {
      assert LabelOk(page', owner, p);
    }
    forall d: nat, i: nat ensures PdeOk(page', owner', d, i) {
      assert PdeOk(page', owner, d, i);
    }
    forall d: nat, v: nat ensures PteOk(page', owner', d, v) {
      assert PteOk(page', owner, d, v);
    }
  }

  // ---------- A new table ----------

  function PutEntry(page: seq<Page>, t: nat, j: nat, e: Pte): seq<Page>
    requires t < |page| && page[t].Ptes? && j < NPT
  {
    page[t := Ptes(page[t].entries[j := e])]
  }

  /** An empty table in slot `i` of directory `d`. */
  function AddTable(page: seq<Page>, d: nat, i: nat, q: nat, flags: nat): seq<Page>
    requires d < |page| && page[d].Ptes? && i < NPT && q < |page| && q != d
  {
    PutEntry(page[q := Ptes(NoEntries())], d, i, Pte(true, q, flags))
  }

  lemma AddTableSame(page: seq<Page>, owner: seq<Owner>, d: nat, i: nat, q: nat, flags: nat, d': nat, v: nat)
    requires Sound(page, owner) && IsDir(owner, d) && d < |page| && page[d].Ptes? && i < NPT && !Entry(page, d, i).present
    requires q < |page| && owner[q].Lost? && IsDir(owner, d') && v < VPAGES
    ensures Same(page, AddTable(page, d, i, q, flags), d', v)
    ensures forall j: nat :: j < NPT && (d' != d || j != i) ==>
      Entry(AddTable(page, d, i, q, flags), d', j) == Entry(page, d', j)
  {
    assert PdeOk(page, owner, d', v / NPT);
  }

  lemma AddTableSound(page: seq<Page>, owner: seq<Owner>, d: nat, i: nat, q: nat, flags: nat)
    requires Sound(page, owner) && IsDir(owner, d) && d < |page| && page[d].Ptes? && i < NPT && !Entry(page, d, i).present
    requires q < |page| && owner[q].Lost?
    ensures Sound(AddTable(page, d, i, q, flags), owner[q := Table(d, i)])
  {
    var page', owner' := AddTable(page, d, i, q, flags), owner[q := Table(d, i)];
    forall p: nat | p < |page'| ensures LabelOk(page', owner', p) {
      assert LabelOk(page, owner, p);
      match owner[p] {
        case Table(e, k) =>
          AddTableSame(page, owner, d, i, q, flags, e, 0);
        case User(e, v) =>
          AddTableSame(page, owner, d, i, q, flags, e, v);
        case _ =>
      }
    }
    forall e: nat, k: nat ensures PdeOk(page', owner', e, k) {
      assert PdeOk(page, owner, e, k);
      if IsDir(owner', e) && k < NPT && (e != d || k != i) {
        AddTableSame(page, owner, d, i, q, flags, e, 0);
      }
    }
    forall e: nat, v: nat ensures PteOk(page', owner', e, v) {
      assert PteOk(page, owner, e, v);
      if IsDir(owner', e) && v < KPAGES {
        AddTableSame(page, owner, d, i, q, flags, e, v);
      }
    }
  }

  // ---------- Changing one translation ----------

  /** The table that holds the entry for `v`. */
  function TableOf(page: seq<Page>, d: nat, v: nat): nat {
    Entry(page, d, v / NPT).ppn
  }

  ghost predicate HasTable(page: seq<Page>, owner: seq<Owner>, d: nat, v: nat) {
    && IsDir(owner, d) && v < VPAGES && Entry(page, d, v / NPT).present
    && TableOf(page, d, v) < |page| && page[TableOf(page, d, v)].Ptes?
  }

  lemma TableIs(page: seq<Page>, owner: seq<Owner>, d: nat, v: nat)
    requires Sound(page, owner) && IsDir(owner, d) && v < VPAGES && Entry(page, d, v / NPT).present
    ensures HasTable(page, owner, d, v) && owner[TableOf(page, d, v)] == Table(d, v / NPT)
  {
    assert PdeOk(page, owner, d, v / NPT);
    assert LabelOk(page, owner, TableOf(page, d, v));
  }

  function PutPte(page: seq<Page>, d: nat, v: nat, e: Pte): seq<Page>
    requires TableOf(page, d, v) < |page| && page[TableOf(page, d, v)].Ptes?
  {
    PutEntry(page, TableOf(page, d, v), v % NPT, e)
  }

  /** Only the translation of `v` in `d` changes. */
  lemma PutPteLookup(page: seq<Page>, owner: seq<Owner>, d: nat, v: nat, e: Pte, d': nat, v': nat)
    requires Sound(page, owner) && HasTable(page, owner, d, v) && IsDir(owner, d') && v' < VPAGES
    ensures Lookup(PutPte(page, d, v, e), d', v') == if d' == d && v' == v then e else Lookup(page, d', v')
    ensures forall i: nat :: Entry(PutPte(page, d, v, e), d', i) == Entry(page, d', i)
  {
    TableIs(page, owner, d, v);
    if Entry(page, d', v' / NPT).present {
      TableIs(page, owner, d', v');
    }
  }

  /** A kernel translation, or a user translation together with the label of its page. */
  lemma PutPteSound(page: seq<Page>, owner: seq<Owner>, d: nat, v: nat, e: Pte, owner': seq<Owner>)
    requires Sound(page, owner) && HasTable(page, owner, d, v)
    requires if v >= KPAGES then owner' == owner
      else
        var was := Lookup(page, d, v);
        if e.present
        then !was.present && e.ppn < |page| && owner[e.ppn].Lost? && page[e.ppn].Data? && owner' == owner[e.ppn := User(d, v)]
        else was.present && was.ppn < |page| && owner' == owner[was.ppn := Lost]
    ensures Sound(PutPte(page, d, v, e), owner')
  {
    var page' := PutPte(page, d, v, e);
    TableIs(page, owner, d, v);
    assert PteOk(page, owner, d, v);
    forall p: nat | p < |page'| ensures LabelOk(page', owner', p) {
      PutPteLabel(page, owner, d, v, e, owner', p);
    }
    forall f: nat, i: nat ensures PdeOk(page', owner', f, i) {
      assert PdeOk(page, owner, f, i);
      if IsDir(owner, f) {
        PutPteLookup(page, owner, d, v, e, f, 0);
      }
    }
    forall f: nat, w: nat ensures PteOk(page', owner', f, w) {
      assert PteOk(page, owner, f, w);
      if IsDir(owner, f) && w < VPAGES {
        PutPteLookup(page, owner, d, v, e, f, w);
      }
    }
  }

  lemma PutPteLabel(page: seq<Page>, owner: seq<Owner>, d: nat, v: nat, e: Pte, owner': seq<Owner>, p: nat)
    requires Sound(page, owner) && HasTable(page, owner, d, v) && p < |page|
    requires if v >= KPAGES then owner' == owner
      else
        var was := Lookup(page, d, v);
        if e.present
        then !was.present && e.ppn < |page| && owner[e.ppn].Lost? && page[e.ppn].Data? && owner' == owner[e.ppn := User(d, v)]
        else was.present && was.ppn < |page| && owner' == owner[was.ppn := Lost]
    ensures LabelOk(PutPte(page, d, v, e), owner', p)
  {
    TableIs(page, owner, d, v);
    assert LabelOk(page, owner, p) && PteOk(page, owner, d, v);
    PutPteLookup(page, owner, d, v, e, d, v);
    match owner[p] {
      case Table(f, i) => PutPteLookup(page, owner, d, v, e, f, 0);
      case User(f, w) => PutPteLookup(page, owner, d, v, e, f, w);
      case _ =>
    }
  }

  // ---------- Giving up a directory ----------

  predicate PartOf(o: Owner, p: nat, d: nat) {
    (o == Dir && p == d) || (o.Table? && o.d == d) || (o.User? && o.d == d)
  }

  predicate TornAt(owner: seq<Owner>, owner': seq<Owner>, d: nat, p: nat)
    requires p < |owner| && p < |owner'|
  {
    owner'[p] == if PartOf(owner[p], p, d) then Lost else owner[p]
  }

  /** When no user page is left, the directory and its tables can be given up. */
  lemma TearDown(page: seq<Page>, owner: seq<Owner>, owner': seq<Owner>, d: nat)
    requires Sound(page, owner) && IsDir(owner, d) && |owner'| == |owner|
    requires forall p: nat :: p < |owner| ==> TornAt(owner, owner', d, p)
    ensures Sound(page, owner')
  {
    forall p: nat | p < |page| ensures LabelOk(page, owner', p) {
      assert LabelOk(page, owner, p) && TornAt(owner, owner', d, p);
      match owner[p] {
        case Table(e, i) => assert TornAt(owner, owner', d, e);
        case User(e, v) => assert TornAt(owner, owner', d, e);
        case _ =>
      }
    }
    forall e: nat, i: nat ensures PdeOk(page, owner', e, i) {
      assert PdeOk(page, owner, e, i);
      if IsDir(owner', e) {
        assert TornAt(owner, owner', d, e);
        assert Entry(page, e, i).ppn < |owner| ==> TornAt(owner, owner', d, Entry(page, e, i).ppn);
      }
    }
    forall e: nat, v: nat ensures PteOk(page, owner', e, v) {
      assert PteOk(page, owner, e, v);
      if IsDir(owner', e) {
        assert TornAt(owner, owner', d, e);
        assert Lookup(page, e, v).ppn < |owner| ==> TornAt(owner, owner', d, Lookup(page, e, v).ppn);
      }
    }
  }

  // ---------- What work on one address space may do ----------

  /** Pages of other spaces stay as they are; free pages may be taken for `d`, pages of `d` given back.
      No page is lost. */
  predicate MovesAt(page: seq<Page>, owner: seq<Owner>, page': seq<Page>, owner': seq<Owner>, d: nat, p: nat)
    requires p < |page| && p < |owner| && p < |page'| && p < |owner'|
  {
    if owner[p].Free? || PartOf(owner[p], p, d)
    then owner'[p].Free? || PartOf(owner'[p], p, d)
    else owner'[p] == owner[p] && page'[p] == page[p]
  }

  /** `but` is a page on its way into the address space, or lost on it. */
  ghost predicate MovesBut(page: seq<Page>, owner: seq<Owner>, page': seq<Page>, owner': seq<Owner>, d: nat, but: nat) {
    && |page| == |owner| == |page'| == |owner'|
    && forall p: nat :: p < |page| && p != but ==> MovesAt(page, owner, page', owner', d, p)
  }

  ghost predicate Moves(page: seq<Page>, owner: seq<Owner>, page': seq<Page>, owner': seq<Owner>, d: nat) {
    && |page| == |owner| == |page'| == |owner'|
    && forall p: nat :: p < |page| ==> MovesAt(page, owner, page', owner', d, p)
  }

  lemma MovesRefl(page: seq<Page>, owner: seq<Owner>, d: nat)
    requires |page| == |owner|
    ensures Moves(page, owner, page, owner, d)
  {
  }

  lemma MovesTrans(p0: seq<Page>, o0: seq<Owner>, p1: seq<Page>, o1: seq<Owner>, p2: seq<Page>, o2: seq<Owner>, d: nat)
    requires Moves(p0, o0, p1, o1, d) && Moves(p1, o1, p2, o2, d)
    ensures Moves(p0, o0, p2, o2, d)
  {
    forall p: nat | p < |p0| ensures MovesAt(p0, o0, p2, o2, d, p) {
      assert MovesAt(p0, o0, p1, o1, d, p) && MovesAt(p1, o1, p2, o2, d, p);
    }
  }

  lemma MovesButTrans(p0: seq<Page>, o0: seq<Owner>, p1: seq<Page>, o1: seq<Owner>, p2: seq<Page>, o2: seq<Owner>, d: nat, q: nat)
    requires MovesBut(p0, o0, p1, o1, d, q) && MovesBut(p1, o1, p2, o2, d, q)
    ensures MovesBut(p0, o0, p2, o2, d, q)
  {
    forall p: nat | p < |p0| && p != q ensures MovesAt(p0, o0, p2, o2, d, p) {
      assert MovesAt(p0, o0, p1, o1, d, p) && MovesAt(p1, o1, p2, o2, d, p);
    }
  }

  /** No page is freed. */
  predicate TakenAt(owner: seq<Owner>, owner': seq<Owner>, q: nat) {
    q < |owner'| && owner'[q].Free? ==> q < |owner| && owner[q].Free?
  }

  /** The page frame `q` has become part of the address space, or is lost. */
  lemma Arrived(p0: seq<Page>, o0: seq<Owner>, p1: seq<Page>, o1: seq<Owner>, d: nat, q: nat)
    requires MovesBut(p0, o0, p1, o1, d, q) && q < |o0| && o0[q].Free?
    ensures PartOf(o1[q], q, d) ==> Moves(p0, o0, p1, o1, d)
    ensures o1[q].Lost? ==> LosesOne(p0, o0, p1, o1, d)
  {
    if PartOf(o1[q], q, d) {
      assert MovesAt(p0, o0, p1, o1, d, q);
    } else if o1[q].Lost? {
      assert LosesPage(p0, o0, p1, o1, d, q);
    }
  }

  /** Exactly one page is lost, a free one. */
  ghost predicate LosesOne(page: seq<Page>, owner: seq<Owner>, page': seq<Page>, owner': seq<Owner>, d: nat) {
    exists q: nat :: LosesPage(page, owner, page', owner', d, q)
  }

  ghost predicate LosesPage(page: seq<Page>, owner: seq<Owner>, page': seq<Page>, owner': seq<Owner>, d: nat, q: nat) {
    MovesBut(page, owner, page', owner', d, q) && q < |owner| && owner[q].Free? && owner'[q].Lost?
  }

  lemma LosesAfter(p0: seq<Page>, o0: seq<Owner>, p1: seq<Page>, o1: seq<Owner>, p2: seq<Page>, o2: seq<Owner>, d: nat)
    requires Moves(p0, o0, p1, o1, d) && LosesOne(p1, o1, p2, o2, d)
    requires forall q: nat :: TakenAt(o0, o1, q)
    ensures LosesOne(p0, o0, p2, o2, d)
  {
    var q: nat :| LosesPage(p1, o1, p2, o2, d, q);
    MovesButTrans(p0, o0, p1, o1, p2, o2, d, q);
    assert TakenAt(o0, o1, q);
    assert LosesPage(p0, o0, p2, o2, d, q);
  }

  lemma LosesBefore(p0: seq<Page>, o0: seq<Owner>, p1: seq<Page>, o1: seq<Owner>, p2: seq<Page>, o2: seq<Owner>, d: nat)
    requires LosesOne(p0, o0, p1, o1, d) && Moves(p1, o1, p2, o2, d)
    ensures LosesOne(p0, o0, p2, o2, d)
  {
    var q: nat :| LosesPage(p0, o0, p1, o1, d, q);
    MovesButTrans(p0, o0, p1, o1, p2, o2, d, q);
    assert MovesAt(p1, o1, p2, o2, d, q);
    assert LosesPage(p0, o0, p2, o2, d, q);
  }

  /** Other spaces translate as before. */
  lemma MovesLookup(page: seq<Page>, owner: seq<Owner>, page': seq<Page>, owner': seq<Owner>, d: nat, e: nat, v: nat)
    requires Sound(page, owner) && Moves(page, owner, page', owner', d) && IsDir(owner, e) && e != d
    ensures IsDir(owner', e) && Same(page, page', e, v)
  {
    assert MovesAt(page, owner, page', owner', d, e);
    if Entry(page, e, v / NPT).present {
      assert PdeOk(page, owner, e, v / NPT);
      var t := Entry(page, e, v / NPT).ppn;
      assert MovesAt(page, owner, page', owner', d, t);
    }
  }
}

/** The page allocator and the address-space operations. */
module Vm {
  import opened Common
  import opened PageMap

  const PGSIZE: nat := 4096
  const NULL: nat := 0

  /** Pages needed for `sz` bytes. */
  function Up(sz: nat): nat {
    (sz + PGSIZE - 1) / PGSIZE
  }

  function Fill(b: Byte): Frame {
    seq(PGSIZE, _ => b)
  }

  ghost predicate FreeAt(free: seq<nat>, owner: seq<Owner>, p: nat) {
    p in free <==> p < |owner| && owner[p].Free?
  }

  datatype MapResult = Mapped | OutOfPages | Remap

  /** The translation wanted for page `w` when `n` pages from `v` are mapped to `ppn` onwards. */
  predicate MappedAt(page: seq<Page>, page': seq<Page>, d: nat, v: nat, n: nat, ppn: nat, flags: nat, w: nat) {
    Lookup(page', d, w) == if v <= w < v + n then Pte(true, ppn + (w - v), flags) else Lookup(page, d, w)
  }

  // ---------- The walk of deallocuvm ----------

  /** Whether the walk from page `a` up to `end` comes to page `w`. Where there is no table it goes on
      1024 pages later, wherever in the next table's range that is. */
  ghost predicate Visits(page: seq<Page>, d: nat, a: nat, end: nat, w: nat)
    decreases if a < end then end - a else 0
  {
    a < end
    && if Entry(page, d, a / NPT).present then w == a || Visits(page, d, a + 1, end, w)
       else Visits(page, d, a + NPT, end, w)
  }

  lemma {:induction false} VisitsFrom(page: seq<Page>, d: nat, a: nat, end: nat, w: nat)
    requires Visits(page, d, a, end, w)
    ensures a <= w < end && Entry(page, d, w / NPT).present
    decreases if a < end then end - a else 0
  {
    if Entry(page, d, a / NPT).present {
      if w != a {
        VisitsFrom(page, d, a + 1, end, w);
      }
    } else {
      VisitsFrom(page, d, a + NPT, end, w);
    }
  }

  /** From a page with a table, or from the start of a table's range, the walk misses nothing that has
      a table. */
  lemma {:induction false} VisitsAll(page: seq<Page>, d: nat, a: nat, end: nat, w: nat)
    requires a <= w < end && Entry(page, d, w / NPT).present
    requires Entry(page, d, a / NPT).present || a % NPT == 0
    ensures Visits(page, d, a, end, w)
    decreases end - a
  {
    if Entry(page, d, a / NPT).present {
      if w != a {
        VisitsAll(page, d, a + 1, end, w);
      }
    } else {
      assert w / NPT != a / NPT;
      VisitsAll(page, d, a + NPT, end, w);
    }
  }

  /** The first table range from number `r` on that has a table and starts below `end`. */
  function FirstTable(page: seq<Page>, d: nat, r: nat, end: nat): (f: Option<nat>)
    ensures f.Some? ==> r <= f.value && f.value * NPT < end && Entry(page, d, f.value).present
    decreases if r * NPT < end then end - r * NPT else 0
  {
    if r * NPT >= end then None
    else if Entry(page, d, r).present then Some(r)
    else FirstTable(page, d, r + 1, end)
  }

  /** From a page without a table: nothing is visited before the same place in the next table's range. */
  lemma {:induction false} VisitsAfter(page: seq<Page>, d: nat, a: nat, end: nat, w: nat)
    requires a < end && !Entry(page, d, a / NPT).present
    ensures var f := FirstTable(page, d, a / NPT + 1, end);
      Visits(page, d, a, end, w) <==> f.Some? && Visits(page, d, f.value * NPT + a % NPT, end, w)
    decreases end - a
  {
    var b := a + NPT;
    assert b / NPT == a / NPT + 1 && b % NPT == a % NPT;
    var f := FirstTable(page, d, b / NPT, end);
    if f.Some? && Entry(page, d, b / NPT).present {
      assert f.value * NPT + a % NPT == b;
    } else if b < end {
      VisitsAfter(page, d, b, end, w);
      assert FirstTable(page, d, b / NPT, end) == FirstTable(page, d, b / NPT + 1, end);
    }
  }

  /** A mapped page in the range that the walk does not come to. */
  ghost predicate Misses(page: seq<Page>, d: nat, a: nat, end: nat) {
    exists w: nat :: a <= w < end && Lookup(page, d, w).present && !Visits(page, d, a, end, w)
  }

  /** The pages jumped over: the start of the first table's range after one without a table. */
  ghost predicate Jumped(page: seq<Page>, d: nat, a: nat, end: nat, w: nat) {
    && !Entry(page, d, a / NPT).present
    && var f := FirstTable(page, d, a / NPT + 1, end);
      f.Some? && f.value * NPT <= w < f.value * NPT + a % NPT && w < end
  }

  /** Exactly the mapped pages that are jumped over are missed. */
  lemma MissedExactly(page: seq<Page>, d: nat, a: nat, end: nat, w: nat)
    requires a <= w < end && Lookup(page, d, w).present
    ensures !Visits(page, d, a, end, w) <==> Jumped(page, d, a, end, w)
  {
    if Entry(page, d, a / NPT).present {
      VisitsAll(page, d, a, end, w);
    } else {
      VisitsAfter(page, d, a, end, w);
      NoneBefore(page, d, a, end, w);
      var f := FirstTable(page, d, a / NPT + 1, end).value;
      var b := f * NPT + a % NPT;
      assert b / NPT == f;
      if w >= b {
        VisitsAll(page, d, b, end, w);
      } else if Visits(page, d, b, end, w) {
        VisitsFrom(page, d, b, end, w);
      }
    }
  }

  /** A page with a table lies in the first table's range or after. */
  lemma NoneBefore(page: seq<Page>, d: nat, a: nat, end: nat, w: nat)
    requires a <= w < end && Entry(page, d, w / NPT).present && !Entry(page, d, a / NPT).present
    ensures FirstTable(page, d, a / NPT + 1, end).Some?
    ensures FirstTable(page, d, a / NPT + 1, end).value * NPT <= w
  {
    FirstIsFirst(page, d, a / NPT + 1, end, w / NPT);
  }

  lemma {:induction false} FirstIsFirst(page: seq<Page>, d: nat, r: nat, end: nat, k: nat)
    requires r <= k && k * NPT < end && Entry(page, d, k).present
    ensures FirstTable(page, d, r, end).Some? && FirstTable(page, d, r, end).value <= k
    decreases k - r
  {
    if !Entry(page, d, r).present {
      FirstIsFirst(page, d, r + 1, end, k);
    }
  }

  /** Nothing is missed when the walk starts at the start of a table's range, as in `freevm`; or when
      the mapped pages from `a` on have no gap. */
  lemma NothingMissed(page: seq<Page>, d: nat, a: nat, end: nat)
    requires a % NPT == 0 || forall w: nat :: a <= w < end && Lookup(page, d, w).present ==> Lookup(page, d, a).present
    ensures !Misses(page, d, a, end)
  {
    forall w: nat | a <= w < end && Lookup(page, d, w).present ensures Visits(page, d, a, end, w) {
      MissedExactly(page, d, a, end, w);
    }
  }

  // ---------- The effect of deallocuvm ----------

  predicate ClearedTo(was: Pte, now: Pte, visited: bool) {
    now == if visited && was.present then NOPTE else was
  }

  ghost predicate ClearedAt(page: seq<Page>, page': seq<Page>, d: nat, a: nat, b: nat, end: nat, w: nat) {
    ClearedTo(Lookup(page, d, w), Lookup(page', d, w), Visits(page, d, a, end, w) && !Visits(page, d, b, end, w))
  }

  ghost predicate GivenBackAt(page: seq<Page>, owner: seq<Owner>, owner': seq<Owner>, d: nat, a: nat, b: nat, end: nat, p: nat)
    requires p < |owner| && p < |owner'|
  {
    owner'[p] == if owner[p].User? && owner[p].d == d && Visits(page, d, a, end, owner[p].v) && !Visits(page, d, b, end, owner[p].v)
                 then Free else owner[p]
  }

  predicate SameDirAt(page: seq<Page>, page': seq<Page>, d: nat, i: nat) {
    Entry(page', d, i) == Entry(page, d, i)
  }

  /** After the walk has come from `a` to `b`. */
  ghost predicate Dealloced(page: seq<Page>, owner: seq<Owner>, page': seq<Page>, owner': seq<Owner>, d: nat, a: nat, b: nat, end: nat) {
    && |page| == |owner| == |page'| == |owner'|
    && (forall i: nat :: SameDirAt(page, page', d, i))
    && (forall w: nat :: w < VPAGES ==> ClearedAt(page, page', d, a, b, end, w))
    && (forall p: nat :: p < |owner| ==> GivenBackAt(page, owner, owner', d, a, b, end, p))
    && (forall p: nat :: p < |owner| ==> StaysAt(page, owner, page', owner', p))
    && Moves(page, owner, page', owner', d)
  }

  /** A user page that is left is the one it was, with its contents. */
  predicate StaysAt(page: seq<Page>, owner: seq<Owner>, page': seq<Page>, owner': seq<Owner>, p: nat)
    requires p < |page| && p < |owner| && p < |page'| && p < |owner'|
  {
    owner'[p].User? ==> owner'[p] == owner[p] && page'[p] == page[p]
  }

  lemma DeallocStart(page: seq<Page>, owner: seq<Owner>, d: nat, a: nat, end: nat)
    requires |page| == |owner|
    ensures Dealloced(page, owner, page, owner, d, a, a, end)
  {
    MovesRefl(page, owner, d);
  }

  /** No table: the walk goes on 1024 pages later. */
  lemma DeallocSkip(p0: seq<Page>, o0: seq<Owner>, page: seq<Page>, owner: seq<Owner>, d: nat, start: nat, a: nat, end: nat)
    requires Dealloced(p0, o0, page, owner, d, start, a, end) && a < end && !Entry(p0, d, a / NPT).present
    ensures Dealloced(p0, o0, page, owner, d, start, a + NPT, end)
  {
    var b := a + NPT;
    forall w: nat | w < VPAGES ensures ClearedAt(p0, page, d, start, b, end, w) {
      assert ClearedAt(p0, page, d, start, a, end, w);
    }
    forall p: nat | p < |o0| ensures GivenBackAt(p0, o0, owner, d, start, b, end, p) {
      assert GivenBackAt(p0, o0, owner, d, start, a, end, p);
    }
  }

  /** One page with a table: unmapped if it was mapped. */
  lemma DeallocNext(p0: seq<Page>, o0: seq<Owner>, p1: seq<Page>, o1: seq<Owner>, page: seq<Page>, owner: seq<Owner>,
                    d: nat, start: nat, a: nat, end: nat)
    requires Sound(p0, o0) && IsDir(o0, d) && a < end <= KPAGES && Entry(p0, d, a / NPT).present
    requires Dealloced(p0, o0, p1, o1, d, start, a, end) && Visits(p0, d, start, end, a)
    requires Moves(p1, o1, page, owner, d) && forall i: nat :: SameDirAt(p1, page, d, i)
    requires forall p: nat :: p < |o1| ==> StaysAt(p1, o1, page, owner, p)
    requires forall w: nat :: w < VPAGES ==> ClearedTo(Lookup(p1, d, w), Lookup(page, d, w), w == a)
    requires var e := Lookup(p1, d, a); if e.present then e.ppn < |o1| && owner == o1[e.ppn := Free] else owner == o1
    ensures Dealloced(p0, o0, page, owner, d, start, a + 1, end)
  {
    var b := a + 1;
    MovesTrans(p0, o0, p1, o1, page, owner, d);
    forall i: nat ensures SameDirAt(p0, page, d, i) {
      assert SameDirAt(p0, p1, d, i) && SameDirAt(p1, page, d, i);
    }
    forall w: nat | w < VPAGES ensures ClearedAt(p0, page, d, start, b, end, w) {
      assert ClearedAt(p0, p1, d, start, a, end, w);
      assert ClearedTo(Lookup(p1, d, w), Lookup(page, d, w), w == a);
      VisitsStep(p0, d, a, end, w);
    }
    assert ClearedAt(p0, p1, d, start, a, end, a) && PteOk(p0, o0, d, a);
    VisitsStep(p0, d, a, end, a);
    forall p: nat | p < |o0| ensures StaysAt(p0, o0, page, owner, p) {
      assert StaysAt(p0, o0, p1, o1, p) && StaysAt(p1, o1, page, owner, p);
    }
    forall p: nat | p < |o0| ensures GivenBackAt(p0, o0, owner, d, start, b, end, p) {
      assert GivenBackAt(p0, o0, o1, d, start, a, end, p);
      if o0[p].User? && o0[p].d == d {
        VisitsStep(p0, d, a, end, o0[p].v);
        assert LabelOk(p0, o0, p);
      }
    }
  }

  lemma VisitsStep(page: seq<Page>, d: nat, a: nat, end: nat, w: nat)
    requires a < end && Entry(page, d, a / NPT).present
    ensures Visits(page, d, a, end, w) <==> w == a || Visits(page, d, a + 1, end, w)
    ensures !Visits(page, d, a + 1, end, a)
  {
    if Visits(page, d, a + 1, end, a) {
      VisitsFrom(page, d, a + 1, end, a);
    }
  }

  lemma DeallocEnd(p0: seq<Page>, o0: seq<Owner>, page: seq<Page>, owner: seq<Owner>, d: nat, start: nat, a: nat, end: nat)
    requires Dealloced(p0, o0, page, owner, d, start, a, end) && a >= end
    ensures Dealloced(p0, o0, page, owner, d, start, end, end)
  {
    forall w: nat | w < VPAGES ensures ClearedAt(p0, page, d, start, end, end, w) {
      assert ClearedAt(p0, page, d, start, a, end, w);
    }
    forall p: nat | p < |o0| ensures GivenBackAt(p0, o0, owner, d, start, end, end, p) {
      assert GivenBackAt(p0, o0, owner, d, start, a, end, p);
    }
  }

  // ---------- The effect of freevm ----------

  predicate UserLeft(owner: seq<Owner>, d: nat, p: nat)
    requires p < |owner|
  {
    owner[p].User? ==> owner[p].d != d
  }

  predicate ReleasedAt(owner: seq<Owner>, owner': seq<Owner>, d: nat, p: nat)
    requires p < |owner| && p < |owner'|
  {
    owner'[p] == if PartOf(owner[p], p, d) then Free else owner[p]
  }

  predicate OthersKept(page: seq<Page>, owner: seq<Owner>, page': seq<Page>, d: nat, p: nat)
    requires p < |owner|
  {
    !PartOf(owner[p], p, d) && !owner[p].Free? ==> p < |page| && p < |page'| && page'[p] == page[p]
  }

  /** The whole user part is visited. */
  lemma NoUserLeft(p0: seq<Page>, o0: seq<Owner>, page: seq<Page>, owner: seq<Owner>, d: nat)
    requires Sound(p0, o0) && IsDir(o0, d) && Dealloced(p0, o0, page, owner, d, 0, KPAGES, KPAGES)
    ensures forall p: nat :: p < |owner| ==> UserLeft(owner, d, p)
  {
    forall p: nat | p < |owner| ensures UserLeft(owner, d, p) {
      assert GivenBackAt(p0, o0, owner, d, 0, KPAGES, KPAGES, p) && LabelOk(p0, o0, p);
      if o0[p].User? && o0[p].d == d {
        VisitsAll(p0, d, 0, KPAGES, o0[p].v);
      }
    }
  }

  /** The tables below slot `i` have been freed. */
  predicate UntabledAt(p1: seq<Page>, o1: seq<Owner>, page: seq<Page>, owner: seq<Owner>, d: nat, i: nat, p: nat)
    requires p < |o1|
  {
    && p < |owner| && p < |page| && p < |p1|
    && if o1[p].Table? && o1[p].d == d && o1[p].i < i then owner[p] == Free
       else page[p] == p1[p] && owner[p] == if PartOf(o1[p], p, d) then Lost else o1[p]
  }

  ghost function Torn(owner: seq<Owner>, d: nat): seq<Owner> {
    seq(|owner|, p requires 0 <= p < |owner| => if PartOf(owner[p], p, d) then Lost else owner[p])
  }

  // ---------- New user pages ----------

  datatype AddResult = NoMemory | Added | NoTable

  /** PTE_W and PTE_U. */
  const USER_FLAGS: nat := 6

  /** Page `w` is a user page of `d` with these bytes and flags. */
  predicate HoldsAt(page: seq<Page>, owner: seq<Owner>, d: nat, w: nat, bytes: Frame, flags: nat) {
    var e := Lookup(page, d, w);
    && e.present && e.flags == flags && e.ppn < |page| && e.ppn < |owner|
    && owner[e.ppn] == User(d, w) && page[e.ppn] == Data(bytes)
  }

  /** The pages from `start` to `a` are new and zero, the others are as before. */
  predicate GrownAt(page: seq<Page>, page': seq<Page>, owner': seq<Owner>, d: nat, start: nat, a: nat, w: nat) {
    if start <= w < a then HoldsAt(page', owner', d, w, Fill(0), USER_FLAGS) else Same(page, page', d, w)
  }

  /** User page `v` has been added, or a page frame was lost for it, or nothing happened. */
  ghost predicate AddedUser(p1: seq<Page>, o1: seq<Owner>, left1: nat, page: seq<Page>, owner: seq<Owner>, left: nat,
                            d: nat, v: nat, bytes: Frame, flags: nat, r: AddResult) {
    && |p1| == |o1| == |page| == |owner|
    && (if r.NoTable? then LosesOne(p1, o1, page, owner, d) else Moves(p1, o1, page, owner, d))
    && (r.Added? ==> HoldsAt(page, owner, d, v, bytes, flags))
    && (r.Added? ==> forall x: nat :: x < NPT ==> GainedTable(p1, page, d, v, 1, x))
    && (r.Added? ==> left + 1 + TableCost(p1, d, v) == left1)
    && (forall w: nat :: w < VPAGES && !(r.Added? && w == v) ==> Same(p1, page, d, w))
    && (forall p: nat :: p < |owner| && o1[p].User? ==> Untouched(p1, o1, page, owner, d, p))
    && (forall q: nat :: TakenAt(o1, owner, q))
  }

  /** A user page of `d` stays what it is when other pages are added. */
  lemma HoldsKept(page: seq<Page>, owner: seq<Owner>, page': seq<Page>, owner': seq<Owner>, d: nat, w: nat, bytes: Frame, flags: nat)
    requires HoldsAt(page, owner, d, w, bytes, flags) && Same(page, page', d, w) && Sound(page, owner) && IsDir(owner, d)
    requires forall p: nat :: p < |owner| && owner[p].User? ==> Untouched(page, owner, page', owner', d, p)
    ensures HoldsAt(page', owner', d, w, bytes, flags)
  {
    assert Untouched(page, owner, page', owner', d, Lookup(page, d, w).ppn);
  }

  /** One page more, or none. */
  lemma GrownNext(p0: seq<Page>, p1: seq<Page>, o1: seq<Owner>, page: seq<Page>, owner: seq<Owner>,
                  d: nat, start: nat, a: nat, top: nat, w: nat)
    requires Sound(p1, o1) && IsDir(o1, d) && GrownAt(p0, p1, o1, d, start, a, w) && a <= top <= a + 1
    requires w != a || top == a ==> Same(p1, page, d, w)
    requires top > a ==> start <= a && HoldsAt(page, owner, d, a, Fill(0), USER_FLAGS)
    requires forall p: nat :: p < |o1| && o1[p].User? ==> Untouched(p1, o1, page, owner, d, p)
    ensures GrownAt(p0, page, owner, d, start, top, w)
  {
    if start <= w < a {
      HoldsKept(p1, o1, page, owner, d, w, Fill(0), USER_FLAGS);
    }
  }

  /** Giving back everything from `start` on restores the translations. */
  lemma ShrunkBack(p0: seq<Page>, p1: seq<Page>, o1: seq<Owner>, page: seq<Page>, owner: seq<Owner>,
                   d: nat, start: nat, a: nat, end: nat, w: nat)
    requires start <= a <= end <= KPAGES && w < VPAGES
    requires forall v: nat :: v < VPAGES ==> GrownAt(p0, p1, o1, d, start, a, v)
    requires forall v: nat :: start <= v < end ==> !Lookup(p0, d, v).present
    requires Dealloced(p1, o1, page, owner, d, start, end, end)
    ensures Lookup(page, d, w).present == Lookup(p0, d, w).present
    ensures Lookup(p0, d, w).present ==> Same(p0, page, d, w)
  {
    assert GrownAt(p0, p1, o1, d, start, a, w) && ClearedAt(p1, page, d, start, end, end, w);
    if start <= w < a {
      assert GrownAt(p0, p1, o1, d, start, a, start);
      VisitsAll(p1, d, start, end, w);
    } else if Visits(p1, d, start, end, w) {
      VisitsFrom(p1, d, start, end, w);
    }
  }

  // ---------- The kernel's part of every address space ----------

  /** `n` pages from virtual page `v` on, mapped to physical page `ppn` onwards. */
  datatype Kmap = Kmap(v: nat, n: nat, ppn: nat, perm: nat)

  predicate Covers(k: Kmap, w: nat) {
    k.v <= w < k.v + k.n
  }

  ghost predicate KmapOk(kmap: seq<Kmap>) {
    && (forall i :: 0 <= i < |kmap| ==> kmap[i].n >= 1 && KPAGES <= kmap[i].v && kmap[i].v + kmap[i].n <= VPAGES)
    && (forall i, j, w: nat :: 0 <= i < j < |kmap| && Covers(kmap[i], w) ==> !Covers(kmap[j], w))
  }

  /** The translation the first `m` lines of the table ask for. */
  function KernelPte(kmap: seq<Kmap>, m: nat, w: nat): Pte
    requires m <= |kmap|
  {
    if m == 0 then NOPTE
    else
      var k := kmap[m - 1];
      if Covers(k, w) then Pte(true, k.ppn + (w - k.v), k.perm) else KernelPte(kmap, m - 1, w)
  }

  lemma {:induction false} NotYetMapped(kmap: seq<Kmap>, m: nat, j: nat, w: nat)
    requires KmapOk(kmap) && m <= j < |kmap| && Covers(kmap[j], w)
    ensures !KernelPte(kmap, m, w).present
  {
    if m > 0 {
      NotYetMapped(kmap, m - 1, j, w);
      assert !Covers(kmap[m - 1], w);
    }
  }

  predicate KernelAt(kmap: seq<Kmap>, m: nat, page: seq<Page>, d: nat, w: nat)
    requires m <= |kmap|
  {
    Lookup(page, d, w) == KernelPte(kmap, m, w)
  }

  predicate LostAt(page: seq<Page>, owner: seq<Owner>, page': seq<Page>, owner': seq<Owner>, p: nat)
    requires p < |page| && p < |owner| && p < |page'| && p < |owner'|
  {
    if owner[p].Free? then owner'[p].Lost? else owner'[p] == owner[p] && page'[p] == page[p]
  }

  /** Exactly the free pages are lost; all others are as they were. */
  ghost predicate AllLost(page: seq<Page>, owner: seq<Owner>, page': seq<Page>, owner': seq<Owner>) {
    && |page| == |owner| == |page'| == |owner'|
    && forall p: nat :: p < |page| ==> LostAt(page, owner, page', owner', p)
  }

  lemma {:induction false} KernelAbove(kmap: seq<Kmap>, m: nat, w: nat)
    requires KmapOk(kmap) && m <= |kmap| && w < KPAGES
    ensures KernelPte(kmap, m, w) == NOPTE
  {
    if m > 0 {
      KernelAbove(kmap, m - 1, w);
    }
  }

  /** The first `n` pages of `c` are copies of those of `d`; the rest is the kernel's part only. */
  ghost predicate CopiedAt(p0: seq<Page>, o0: seq<Owner>, page: seq<Page>, owner: seq<Owner>,
                           d: nat, c: nat, n: nat, kmap: seq<Kmap>, v: nat) {
    if v < n
    then
      var e := Lookup(p0, d, v);
      e.present && e.ppn < |p0| && p0[e.ppn].Data? && HoldsAt(page, owner, c, v, p0[e.ppn].bytes, e.flags)
    else KernelAt(kmap, |kmap|, page, c, v)
  }

  /** Taking back the added pages leaves the user pages there were. */
  lemma ShrunkKeeps(p0: seq<Page>, o0: seq<Owner>, p1: seq<Page>, o1: seq<Owner>, page: seq<Page>, owner: seq<Owner>,
                    d: nat, start: nat, end: nat)
    requires Sound(p0, o0) && end <= KPAGES && forall w: nat :: start <= w < end && w < KPAGES ==> !Lookup(p0, d, w).present
    requires forall p: nat :: p < |o0| ==> UserStays(p0, o0, p1, o1, p)
    requires Dealloced(p1, o1, page, owner, d, start, end, end)
    ensures forall p: nat :: p < |o0| ==> UserStays(p0, o0, page, owner, p)
  {
    forall p: nat | p < |o0| ensures UserStays(p0, o0, page, owner, p) {
      assert UserStays(p0, o0, p1, o1, p);
      if o0[p].User? {
        assert LabelOk(p0, o0, p) && GivenBackAt(p1, o1, owner, d, start, end, end, p) && StaysAt(p1, o1, page, owner, p);
        if Visits(p1, d, start, end, o0[p].v) {
          VisitsFrom(p1, d, start, end, o0[p].v);
        }
      }
    }
  }

  // ---------- Conservation ----------

  /** Over a life of address space `d`, from a free directory page to `freevm`, all pages are again
      what they were. */
  lemma PagesConserved(p0: seq<Page>, o0: seq<Owner>, p1: seq<Page>, o1: seq<Owner>, o2: seq<Owner>, d: nat)
    requires Sound(p0, o0) && d < |o0| && o0[d].Free? && Moves(p0, o0, p1, o1, d) && |o2| == |o1|
    requires forall p: nat :: p < |o1| ==> ReleasedAt(o1, o2, d, p)
    ensures o2 == o0
  {
    forall p: nat | p < |o0| ensures o2[p] == o0[p] {
      assert MovesAt(p0, o0, p1, o1, d, p) && ReleasedAt(o1, o2, d, p);
      NotPartYet(p0, o0, d, p);
    }
  }

  /** If one page was lost on the way, it is the only one that is missing. */
  lemma OnePageLess(p0: seq<Page>, o0: seq<Owner>, p1: seq<Page>, o1: seq<Owner>, o2: seq<Owner>, d: nat) returns (q: nat)
    requires Sound(p0, o0) && d < |o0| && o0[d].Free? && LosesOne(p0, o0, p1, o1, d) && |o2| == |o1|
    requires forall p: nat :: p < |o1| ==> ReleasedAt(o1, o2, d, p)
    ensures q < |o0| && o0[q].Free? && o2 == o0[q := Lost]
  {
    q :| LosesPage(p0, o0, p1, o1, d, q);
    forall p: nat | p < |o0| ensures o2[p] == o0[q := Lost][p] {
      assert ReleasedAt(o1, o2, d, p);
      if p != q {
        assert MovesAt(p0, o0, p1, o1, d, p);
        NotPartYet(p0, o0, d, p);
      }
    }
  }

  /** Nothing belongs to a space whose directory page is free. */
  lemma NotPartYet(page: seq<Page>, owner: seq<Owner>, d: nat, p: nat)
    requires Sound(page, owner) && d < |owner| && owner[d].Free? && p < |owner|
    ensures !PartOf(owner[p], p, d)
  {
    assert LabelOk(page, owner, p);
  }

  // ---------- How many pages are needed ----------

  /** Directory `d` has a table in slot `r`. */
  predicate Tabled(page: seq<Page>, d: nat, r: nat) {
    Entry(page, d, r).present
  }

  /** A page of its own for the table of `v`, unless it is there. */
  function TableCost(page: seq<Page>, d: nat, v: nat): nat {
    if Tabled(page, d, v / NPT) then 0 else 1
  }

  /** Some of `n` pages from `v` on is looked up in table `r`. */
  predicate Touches(v: nat, n: nat, r: nat) {
    n > 0 && v / NPT <= r <= (v + n - 1) / NPT
  }

  /** The tables for `n` pages from `v` on have been added. */
  predicate GainedTable(p0: seq<Page>, page: seq<Page>, d: nat, v: nat, n: nat, r: nat) {
    Tabled(page, d, r) <==> Tabled(p0, d, r) || Touches(v, n, r)
  }

  predicate Unmapped(page: seq<Page>, d: nat, w: nat) {
    !Lookup(page, d, w).present
  }

  /** How many of `n` pages from `v` on are user pages. */
  function UserPart(v: nat, n: nat): nat {
    if v + n <= KPAGES then n else if v < KPAGES then KPAGES - v else 0
  }

  /** Page frame `ppn + k` has its contents; it belongs to user page `v + k` if that is mapped, else to nothing. */
  predicate FrameAt(p0: seq<Page>, page: seq<Page>, owner: seq<Owner>, d: nat, v: nat, ppn: nat, i: nat, k: nat) {
    var q := ppn + k;
    && q < |p0| && q < |page| && q < |owner| && p0[q].Data? && page[q] == p0[q]
    && owner[q] == if k < i then User(d, v + k) else Lost
  }

  /** As `Moves`, apart from `n` page frames on their way into the address space. */
  ghost predicate MovesBeside(page: seq<Page>, owner: seq<Owner>, page': seq<Page>, owner': seq<Owner>, d: nat, ppn: nat, n: nat) {
    && |page| == |owner| == |page'| == |owner'|
    && forall p: nat :: p < |page| && !(ppn <= p < ppn + n) ==> MovesAt(page, owner, page', owner', d, p)
  }

  /** One page has been mapped, or not. */
  ghost predicate MappedOne(p1: seq<Page>, o1: seq<Owner>, left1: nat, page: seq<Page>, owner: seq<Owner>, left: nat,
                            d: nat, v: nat, ppn: nat, flags: nat, r: MapResult) {
    && |p1| == |o1| == |page| == |owner|
    && (if v < KPAGES then MovesBut(p1, o1, page, owner, d, ppn) else Moves(p1, o1, page, owner, d))
    && (v < KPAGES ==> ppn < |owner| && owner[ppn] == (if r.Mapped? then User(d, v) else Lost) && page[ppn] == p1[ppn])
    && (forall w: nat :: w < VPAGES ==>
          if r.Mapped? then MappedAt(p1, page, d, v, 1, ppn, flags, w) else Same(p1, page, d, w))
    && (!r.OutOfPages? ==> left + TableCost(p1, d, v) == left1 && forall x: nat :: x < NPT ==> GainedTable(p1, page, d, v, 1, x))
    && (forall p: nat :: p < |owner| && o1[p].User? ==> Untouched(p1, o1, page, owner, d, p))
    && (forall q: nat :: TakenAt(o1, owner, q))
  }

  /** `i` of `n` pages have been mapped. */
  ghost predicate Mapping(f: nat, p0: seq<Page>, o0: seq<Owner>, page: seq<Page>, owner: seq<Owner>, left: nat,
                          d: nat, v: nat, n: nat, ppn: nat, flags: nat, i: nat) {
    && MovesBeside(p0, o0, page, owner, d, ppn, UserPart(v, n))
    && (forall k: nat :: k < UserPart(v, n) ==> FrameAt(p0, page, owner, d, v, ppn, i, k))
    && (forall w: nat :: w < VPAGES ==> MappedAt(p0, page, d, v, i, ppn, flags, w))
    && f == left + Missing(p0, d, v, i) && forall x: nat :: x < NPT ==> GainedTable(p0, page, d, v, i, x)
  }

  lemma MappingNext(f: nat, p0: seq<Page>, o0: seq<Owner>, p1: seq<Page>, o1: seq<Owner>, left1: nat,
                    page: seq<Page>, owner: seq<Owner>, left: nat, d: nat, v: nat, n: nat, ppn: nat, flags: nat, i: nat)
    requires Mapping(f, p0, o0, p1, o1, left1, d, v, n, ppn, flags, i) && i < n && v + n <= VPAGES && IsDir(o1, d)
    requires MappedOne(p1, o1, left1, page, owner, left, d, v + i, ppn + i, flags, Mapped)
    ensures Mapping(f, p0, o0, page, owner, left, d, v, n, ppn, flags, i + 1)
  {
    var at, to, j := v + i, ppn + i, i + 1;
    NeedsNow(p0, p1, d, v, i);
    forall x: nat | x < NPT ensures GainedTable(p0, page, d, v, j, x) {
      GainNext(p0, p1, page, d, v, i, x);
    }
    BesideNext(p0, o0, p1, o1, page, owner, d, v, n, ppn, i);
    forall k: nat | k < UserPart(v, n) ensures FrameAt(p0, page, owner, d, v, ppn, j, k) {
      FrameNext(p0, p1, o1, page, owner, d, v, ppn, i, k);
    }
    forall w: nat | w < VPAGES ensures MappedAt(p0, page, d, v, j, ppn, flags, w) {
      assert MappedAt(p0, p1, d, v, i, ppn, flags, w) && MappedAt(p1, page, d, at, 1, to, flags, w);
    }
  }

  lemma MappingDone(f: nat, p0: seq<Page>, o0: seq<Owner>, page: seq<Page>, owner: seq<Owner>, left: nat,
                    d: nat, v: nat, n: nat, ppn: nat, flags: nat)
    requires Mapping(f, p0, o0, page, owner, left, d, v, n, ppn, flags, n)
    ensures forall w: nat :: w < VPAGES ==> MappedAt(p0, page, d, v, n, ppn, flags, w)
    ensures forall w: nat :: w < VPAGES && !(v <= w < v + n) ==> Same(p0, page, d, w)
    ensures forall x: nat :: x < NPT ==> GainedTable(p0, page, d, v, n, x)
    ensures f == left + Missing(p0, d, v, n)
  {
    forall w: nat | w < VPAGES && !(v <= w < v + n) ensures Same(p0, page, d, w) {
      assert MappedAt(p0, page, d, v, n, ppn, flags, w);
    }
  }

  /** The next page could not be mapped. */
  lemma MappingEnd(f: nat, p0: seq<Page>, o0: seq<Owner>, p1: seq<Page>, o1: seq<Owner>, left1: nat,
                   page: seq<Page>, owner: seq<Owner>, left: nat, d: nat, v: nat, n: nat, ppn: nat, flags: nat, i: nat, r: MapResult)
    requires Mapping(f, p0, o0, p1, o1, left1, d, v, n, ppn, flags, i) && i < n && v + n <= VPAGES && !r.Mapped?
    requires MappedOne(p1, o1, left1, page, owner, left, d, v + i, ppn + i, flags, r)
    requires r.OutOfPages? ==> left1 == 0 && page == p1 && !Tabled(p1, d, (v + i) / NPT)
    ensures MovesBeside(p0, o0, page, owner, d, ppn, UserPart(v, n))
    ensures r.OutOfPages? ==> f < Missing(p0, d, v, n)
    ensures forall w: nat :: w < VPAGES && !(v <= w < v + n) ==> Same(p0, page, d, w)
  {
    BesideNext(p0, o0, p1, o1, page, owner, d, v, n, ppn, i);
    if r.OutOfPages? {
      NeedsNow(p0, p1, d, v, i);
      MissingMore(p0, d, v, i + 1, n);
    }
    forall w: nat | w < VPAGES && !(v <= w < v + n) ensures Same(p0, page, d, w) {
      assert MappedAt(p0, p1, d, v, i, ppn, flags, w) && Same(p1, page, d, w);
    }
  }

  lemma BesideNext(p0: seq<Page>, o0: seq<Owner>, p1: seq<Page>, o1: seq<Owner>, page: seq<Page>, owner: seq<Owner>,
                   d: nat, v: nat, n: nat, ppn: nat, i: nat)
    requires MovesBeside(p0, o0, p1, o1, d, ppn, UserPart(v, n)) && i < n
    requires if v + i < KPAGES then MovesBut(p1, o1, page, owner, d, ppn + i) else Moves(p1, o1, page, owner, d)
    ensures MovesBeside(p0, o0, page, owner, d, ppn, UserPart(v, n))
  {
    forall p: nat | p < |p0| && !(ppn <= p < ppn + UserPart(v, n)) ensures MovesAt(p0, o0, page, owner, d, p) {
      assert MovesAt(p0, o0, p1, o1, d, p) && MovesAt(p1, o1, page, owner, d, p);
    }
  }

  lemma FrameNext(p0: seq<Page>, p1: seq<Page>, o1: seq<Owner>, page: seq<Page>, owner: seq<Owner>,
                  d: nat, v: nat, ppn: nat, i: nat, k: nat)
    requires FrameAt(p0, p1, o1, d, v, ppn, i, k) && v + k < KPAGES && IsDir(o1, d)
    requires if v + i < KPAGES then MovesBut(p1, o1, page, owner, d, ppn + i) else Moves(p1, o1, page, owner, d)
    requires v + i < KPAGES ==> ppn + i < |owner| && owner[ppn + i] == User(d, v + i) && page[ppn + i] == p1[ppn + i]
    requires forall p: nat :: p < |o1| && o1[p].User? ==> Untouched(p1, o1, page, owner, d, p)
    ensures FrameAt(p0, page, owner, d, v, ppn, i + 1, k)
  {
    var q := ppn + k;
    if k < i {
      assert Untouched(p1, o1, page, owner, d, q);
    } else if k > i {
      assert MovesAt(p1, o1, page, owner, d, q);
    }
  }

  lemma BesideNone(page: seq<Page>, owner: seq<Owner>, page': seq<Page>, owner': seq<Owner>, d: nat, ppn: nat)
    requires MovesBeside(page, owner, page', owner', d, ppn, 0)
    ensures Moves(page, owner, page', owner', d)
  {
  }

  lemma GainNext(p0: seq<Page>, p1: seq<Page>, page: seq<Page>, d: nat, v: nat, i: nat, x: nat)
    requires GainedTable(p0, p1, d, v, i, x) && GainedTable(p1, page, d, v + i, 1, x)
    ensures GainedTable(p0, page, d, v, i + 1, x)
  {
  }

  /** Page `v + i` still needs a table after those from `v` on before it. */
  predicate NeedsTable(page: seq<Page>, d: nat, v: nat, i: nat) {
    !Entry(page, d, (v + i) / NPT).present && (i == 0 || (v + i) % NPT == 0)
  }

  /** Whether it does shows in the tables once those before it are there. */
  lemma NeedsNow(p0: seq<Page>, p1: seq<Page>, d: nat, v: nat, i: nat)
    requires v + i < VPAGES && forall x: nat :: x < NPT ==> GainedTable(p0, p1, d, v, i, x)
    ensures NeedsTable(p0, d, v, i) <==> !Tabled(p1, d, (v + i) / NPT)
  {
    assert GainedTable(p0, p1, d, v, i, (v + i) / NPT);
  }

  /** How many tables are missing for `n` pages from `v` on. */
  function Missing(page: seq<Page>, d: nat, v: nat, n: nat): nat {
    if n == 0 then 0 else Missing(page, d, v, n - 1) + if NeedsTable(page, d, v, n - 1) then 1 else 0
  }

  lemma {:induction false} MissingMore(page: seq<Page>, d: nat, v: nat, i: nat, n: nat)
    requires i <= n
    ensures Missing(page, d, v, i) <= Missing(page, d, v, n)
  {
    if i < n {
      MissingMore(page, d, v, i, n - 1);
    }
  }

  /** The free pages that `n` user pages from `v` on take: the pages, and the tables that are missing. */
  function Cost(page: seq<Page>, d: nat, v: nat, n: nat): nat {
    n + Missing(page, d, v, n)
  }

  /** With `f` free pages, page `v + i` gets a page frame but no table for it. */
  ghost predicate StuckAt(f: nat, page: seq<Page>, d: nat, v: nat, i: nat) {
    f == Cost(page, d, v, i) + 1 && NeedsTable(page, d, v, i)
  }

  /** That happens within the first `n` pages. */
  ghost predicate Loses(f: nat, page: seq<Page>, d: nat, v: nat, n: nat) {
    exists i: nat :: i < n && StuckAt(f, page, d, v, i)
  }

  /** Not if there is enough, nor if the page frames run out first. */
  lemma NotStuck(f: nat, page: seq<Page>, d: nat, v: nat, j: nat, n: nat)
    requires j <= n && if j < n then f == Cost(page, d, v, j) else f >= Cost(page, d, v, n)
    ensures !Loses(f, page, d, v, n)
  {
    forall i: nat | i < n ensures !StuckAt(f, page, d, v, i) {
      if i < j {
        MissingMore(page, d, v, i + 1, j);
      } else {
        MissingMore(page, d, v, j, i);
      }
    }
  }

  /** Growing succeeds with enough pages, or if only the table for the last page is missing. */
  ghost predicate Grows(f: nat, page: seq<Page>, d: nat, v: nat, n: nat) {
    f >= Cost(page, d, v, n) || (n > 0 && StuckAt(f, page, d, v, n - 1))
  }

  /** One past the last page that is mapped. */
  ghost function Top(f: nat, page: seq<Page>, d: nat, start: nat, end: nat): nat
    requires start <= end
  {
    if Loses(f, page, d, start, end - start) then end - 1 else end
  }

  /** One page is lost exactly if growing gets stuck. */
  ghost predicate Losing(f: nat, p0: seq<Page>, o0: seq<Owner>, page: seq<Page>, owner: seq<Owner>, d: nat, start: nat, end: nat) {
    start <= end
    && if Loses(f, p0, d, start, end - start) then LosesOne(p0, o0, page, owner, d) else Moves(p0, o0, page, owner, d)
  }

  /** The translation is what it was. */
  predicate BackAt(p0: seq<Page>, page: seq<Page>, d: nat, w: nat) {
    && Lookup(page, d, w).present == Lookup(p0, d, w).present
    && (Lookup(p0, d, w).present ==> Same(p0, page, d, w))
  }

  /** What `allocuvm` does with `f` free pages. */
  ghost predicate Grew(ok: bool, f: nat, p0: seq<Page>, o0: seq<Owner>, page: seq<Page>, owner: seq<Owner>,
                       d: nat, start: nat, end: nat) {
    && Losing(f, p0, o0, page, owner, d, start, end)
    && (ok <==> Grows(f, p0, d, start, end - start))
    && (ok ==> forall w: nat :: w < VPAGES ==> GrownAt(p0, page, owner, d, start, Top(f, p0, d, start, end), w))
    && (!ok ==> forall w: nat :: w < VPAGES ==> BackAt(p0, page, d, w))
    && (forall p: nat :: p < |o0| ==> UserStays(p0, o0, page, owner, p))
  }

  /** A user page stays what it is, with its contents. */
  predicate UserStays(page: seq<Page>, owner: seq<Owner>, page': seq<Page>, owner': seq<Owner>, p: nat) {
    p < |owner| && owner[p].User? ==>
      p < |owner'| && p < |page| && p < |page'| && owner'[p] == owner[p] && page'[p] == page[p]
  }

  /** Of `f` free pages `left` remain, after `n` user pages from `start` on. */
  ghost predicate Paid(f: nat, left: nat, p0: seq<Page>, page: seq<Page>, d: nat, start: nat, n: nat) {
    f == left + Cost(p0, d, start, n) && forall x: nat :: x < NPT ==> GainedTable(p0, page, d, start, n, x)
  }

  /** The next page has been added, or is stuck. */
  lemma AddedOne(f: nat, left: nat, left': nat, p0: seq<Page>, p1: seq<Page>, page: seq<Page>, d: nat, start: nat, n: nat, added: bool)
    requires Paid(f, left, p0, p1, d, start, n) && start + n < VPAGES
    requires added ==> left' + 1 + TableCost(p1, d, start + n) == left
    requires var v := start + n; added ==> forall x: nat :: x < NPT ==> GainedTable(p1, page, d, v, 1, x)
    requires !added ==> left == 1 && !Tabled(p1, d, (start + n) / NPT)
    ensures if added then Paid(f, left', p0, page, d, start, n + 1) else StuckAt(f, p0, d, start, n)
  {
    NeedsNow(p0, p1, d, start, n);
    if added {
      var m := n + 1;
      forall x: nat | x < NPT ensures GainedTable(p0, page, d, start, m, x) {
        GainNext(p0, p1, page, d, start, n, x);
      }
    }
  }

  /** The pages up to `a` have been added; the last one is not mapped if it was `lost`. */
  ghost predicate Adding(f: nat, p0: seq<Page>, o0: seq<Owner>, page: seq<Page>, owner: seq<Owner>, left: nat,
                         d: nat, start: nat, a: nat, top: nat, lost: bool) {
    && start <= top <= a && top == (if lost then a - 1 else a)
    && (forall w: nat :: w < VPAGES ==> GrownAt(p0, page, owner, d, start, top, w))
    && (if lost then LosesOne(p0, o0, page, owner, d) else Moves(p0, o0, page, owner, d))
    && (forall q: nat :: TakenAt(o0, owner, q))
    && (forall p: nat :: p < |o0| ==> UserStays(p0, o0, page, owner, p))
    && if lost then left == 0 && StuckAt(f, p0, d, start, top - start) else Paid(f, left, p0, page, d, start, a - start)
  }

  lemma AddingNext(f: nat, p0: seq<Page>, o0: seq<Owner>, p1: seq<Page>, o1: seq<Owner>, left1: nat,
                   page: seq<Page>, owner: seq<Owner>, left: nat, d: nat, start: nat, a: nat, top: nat, r: AddResult)
    requires Adding(f, p0, o0, p1, o1, left1, d, start, a, a, false) && Sound(p1, o1) && IsDir(o1, d) && a < KPAGES
    requires AddedUser(p1, o1, left1, page, owner, left, d, a, Fill(0), USER_FLAGS, r) && !r.NoMemory?
    requires r.NoTable? ==> left1 == 1 && !Tabled(p1, d, a / NPT) && left == 0
    requires top == if r.Added? then a + 1 else a
    ensures Adding(f, p0, o0, page, owner, left, d, start, a + 1, top, r.NoTable?)
  {
    forall w: nat | w < VPAGES ensures GrownAt(p0, page, owner, d, start, top, w) {
      GrownNext(p0, p1, o1, page, owner, d, start, a, top, w);
    }
    if r.Added? {
      MovesTrans(p0, o0, p1, o1, page, owner, d);
    } else {
      LosesAfter(p0, o0, p1, o1, page, owner, d);
    }
    AddedOne(f, left1, left, p0, p1, page, d, start, a - start, r.Added?);
    forall q: nat ensures TakenAt(o0, owner, q) {
      assert TakenAt(o0, o1, q) && TakenAt(o1, owner, q);
    }
    forall p: nat | p < |o0| ensures UserStays(p0, o0, page, owner, p) {
      assert UserStays(p0, o0, p1, o1, p);
      assert p < |owner| && o1[p].User? ==> Untouched(p1, o1, page, owner, d, p);
    }
  }

  /** No page frame is left for the next page. */
  lemma OutOfFrames(f: nat, p0: seq<Page>, p1: seq<Page>, d: nat, start: nat, i: nat, n: nat, lost: bool)
    requires i < n && start + n <= VPAGES && if lost then i > 0 && StuckAt(f, p0, d, start, i - 1) else Paid(f, 0, p0, p1, d, start, i)
    ensures !Grows(f, p0, d, start, n) && (Loses(f, p0, d, start, n) <==> lost)
  {
    MissingMore(p0, d, start, i, n);
    MissingMore(p0, d, start, i, n - 1);
    if lost {
    } else {
      NotStuck(f, p0, d, start, i, n);
    }
  }

  lemma AllAdded(f: nat, left: nat, p0: seq<Page>, page: seq<Page>, d: nat, start: nat, n: nat, lost: bool)
    requires start + n <= VPAGES
    requires if lost then n > 0 && StuckAt(f, p0, d, start, n - 1) else Paid(f, left, p0, page, d, start, n)
    ensures Grows(f, p0, d, start, n) && (Loses(f, p0, d, start, n) <==> lost)
  {
    if !lost {
      NotStuck(f, p0, d, start, n, n);
    }
  }

  /** Some of the first `m` lines has pages in table `r`. */
  ghost predicate Touched(kmap: seq<Kmap>, m: nat, r: nat)
    requires m <= |kmap|
  {
    exists k: nat :: k < m && Touches(kmap[k].v, kmap[k].n, r)
  }

  /** How many tables the first `i` pages of line `m` need that the lines before it do not. */
  ghost function NewTables(kmap: seq<Kmap>, m: nat, i: nat): nat
    requires m < |kmap|
  {
    if i == 0 then 0
    else
      var w := kmap[m].v + i - 1;
      NewTables(kmap, m, i - 1) + if !Touched(kmap, m, w / NPT) && (i == 1 || w % NPT == 0) then 1 else 0
  }

  /** How many tables the kernel's part needs. */
  ghost function KernelTables(kmap: seq<Kmap>, m: nat): nat
    requires m <= |kmap|
  {
    if m == 0 then 0 else KernelTables(kmap, m - 1) + NewTables(kmap, m - 1, kmap[m - 1].n)
  }

  lemma {:induction false} KernelTablesMore(kmap: seq<Kmap>, m: nat, n: nat)
    requires m <= n <= |kmap|
    ensures KernelTables(kmap, m) <= KernelTables(kmap, n)
  {
    if m < n {
      KernelTablesMore(kmap, m, n - 1);
    }
  }

  /** The tables are those of the first `m` lines. */
  ghost predicate KernelTabled(kmap: seq<Kmap>, m: nat, page: seq<Page>, d: nat, r: nat)
    requires m <= |kmap|
  {
    Tabled(page, d, r) <==> Touched(kmap, m, r)
  }

  lemma {:induction false} NewIsMissing(kmap: seq<Kmap>, m: nat, page: seq<Page>, d: nat, i: nat)
    requires KmapOk(kmap) && m < |kmap| && i <= kmap[m].n
    requires forall r: nat :: r < NPT ==> KernelTabled(kmap, m, page, d, r)
    ensures Missing(page, d, kmap[m].v, i) == NewTables(kmap, m, i)
  {
    if i > 0 {
      NewIsMissing(kmap, m, page, d, i - 1);
      assert KernelTabled(kmap, m, page, d, (kmap[m].v + i - 1) / NPT);
    }
  }

  lemma KernelGains(kmap: seq<Kmap>, m: nat, p1: seq<Page>, page: seq<Page>, d: nat, r: nat)
    requires m < |kmap| && KernelTabled(kmap, m, p1, d, r) && GainedTable(p1, page, d, kmap[m].v, kmap[m].n, r)
    ensures KernelTabled(kmap, m + 1, page, d, r)
  {
    assert Touched(kmap, m + 1, r) <==> Touched(kmap, m, r) || Touches(kmap[m].v, kmap[m].n, r);
  }

  /** The first `m` lines have been mapped. */
  ghost predicate Building(f: nat, p0: seq<Page>, o0: seq<Owner>, page: seq<Page>, owner: seq<Owner>, left: nat,
                           d: nat, kmap: seq<Kmap>, m: nat) {
    && m <= |kmap| && Moves(p0, o0, page, owner, d) && left + 1 + KernelTables(kmap, m) == f
    && (forall w: nat :: w < VPAGES ==> KernelAt(kmap, m, page, d, w))
    && (forall r: nat :: r < NPT ==> KernelTabled(kmap, m, page, d, r))
  }

  lemma BuildingNext(f: nat, p0: seq<Page>, o0: seq<Owner>, p1: seq<Page>, o1: seq<Owner>, left1: nat,
                     page: seq<Page>, owner: seq<Owner>, left: nat, d: nat, kmap: seq<Kmap>, m: nat)
    requires Building(f, p0, o0, p1, o1, left1, d, kmap, m) && m < |kmap| && Moves(p0, o0, page, owner, d)
    requires left + NewTables(kmap, m, kmap[m].n) == left1
    requires var k := kmap[m]; forall w: nat :: w < VPAGES ==> MappedAt(p1, page, d, k.v, k.n, k.ppn, k.perm, w)
    requires var k := kmap[m]; forall x: nat :: x < NPT ==> GainedTable(p1, page, d, k.v, k.n, x)
    ensures Building(f, p0, o0, page, owner, left, d, kmap, m + 1)
  {
    var k, next := kmap[m], m + 1;
    forall w: nat | w < VPAGES ensures KernelAt(kmap, next, page, d, w) {
      assert KernelAt(kmap, m, p1, d, w) && MappedAt(p1, page, d, k.v, k.n, k.ppn, k.perm, w);
    }
    forall x: nat | x < NPT ensures KernelTabled(kmap, next, page, d, x) {
      KernelGains(kmap, m, p1, page, d, x);
    }
  }

  /** The free pages that a copy of `n` user pages takes: directory, kernel tables, user pages, their tables. */
  ghost function CopyCost(kmap: seq<Kmap>, n: nat): nat {
    1 + KernelTables(kmap, |kmap|) + n + (n + NPT - 1) / NPT
  }

  lemma FreshNeeds(kmap: seq<Kmap>, page: seq<Page>, d: nat, i: nat)
    requires KmapOk(kmap) && i < KPAGES && forall r: nat :: r < NPT ==> KernelTabled(kmap, |kmap|, page, d, r)
    ensures NeedsTable(page, d, 0, i) <==> i % NPT == 0
  {
    assert KernelTabled(kmap, |kmap|, page, d, i / NPT);
    assert !Touched(kmap, |kmap|, i / NPT);
  }

  /** In a fresh address space the costs are those. */
  lemma {:induction false} FreshCost(kmap: seq<Kmap>, page: seq<Page>, d: nat, i: nat)
    requires KmapOk(kmap) && i <= KPAGES && forall r: nat :: r < NPT ==> KernelTabled(kmap, |kmap|, page, d, r)
    ensures 1 + KernelTables(kmap, |kmap|) + Cost(page, d, 0, i) == CopyCost(kmap, i)
  {
    if i > 0 {
      FreshCost(kmap, page, d, i - 1);
      FreshNeeds(kmap, page, d, i - 1);
    }
  }

  /** With `f` free pages, the copy gets a page frame but no table for some page below `n`. */
  ghost predicate CopyStuck(kmap: seq<Kmap>, f: nat, n: nat) {
    exists i: nat :: i < n && i % NPT == 0 && f == CopyCost(kmap, i) + 1
  }

  /** Pages that were in use have their contents. */
  ghost predicate ContentsKept(p0: seq<Page>, o0: seq<Owner>, page: seq<Page>) {
    |p0| == |o0| == |page| && forall p: nat :: p < |o0| && !o0[p].Free? ==> page[p] == p0[p]
  }

  ghost predicate OneLost(o0: seq<Owner>, owner: seq<Owner>) {
    exists q: nat :: q < |o0| && o0[q].Free? && owner == o0[q := Lost]
  }

  /** What a failing copy with `f` free pages leaves. */
  ghost predicate Uncopied(kmap: seq<Kmap>, f: nat, n: nat, p0: seq<Page>, o0: seq<Owner>, page: seq<Page>, owner: seq<Owner>) {
    if f < CopyCost(kmap, 0) then AllLost(p0, o0, page, owner)
    else ContentsKept(p0, o0, page) && if CopyStuck(kmap, f, n) then OneLost(o0, owner) else owner == o0
  }

  lemma FreshNone(kmap: seq<Kmap>, f: nat, n: nat)
    ensures CopyCost(kmap, 0) == 1 + KernelTables(kmap, |kmap|) <= CopyCost(kmap, n)
  {
  }

  lemma CopyShort(kmap: seq<Kmap>, before: nat, f: nat, p0: seq<Page>, p1: seq<Page>, d: nat, i: nat, n: nat, stuck: bool)
    requires KmapOk(kmap) && i < n <= KPAGES && forall r: nat :: r < NPT ==> KernelTabled(kmap, |kmap|, p0, d, r)
    requires before == f + 1 + KernelTables(kmap, |kmap|)
    requires if stuck then Paid(f, 1, p0, p1, d, 0, i) && !Tabled(p1, d, i / NPT) else Paid(f, 0, p0, p1, d, 0, i)
    ensures CopyCost(kmap, 0) <= before < CopyCost(kmap, n) && (CopyStuck(kmap, before, n) <==> stuck)
  {
    FreshCost(kmap, p0, d, i);
    FreshNeeds(kmap, p0, d, i);
    FreshCost(kmap, p0, d, n);
    MissingMore(p0, d, 0, i + 1, n);
    if stuck {
      NeedsNow(p0, p1, d, 0, i);
    } else {
      NotStuck(f, p0, d, 0, i, n);
      forall k: nat | k < n && k % NPT == 0 ensures before != CopyCost(kmap, k) + 1 {
        FreshCost(kmap, p0, d, k);
        FreshNeeds(kmap, p0, d, k);
        assert !StuckAt(f, p0, d, 0, k);
      }
    }
  }

  lemma CopiedNext(p0: seq<Page>, o0: seq<Owner>, p1: seq<Page>, o1: seq<Owner>, page: seq<Page>, owner: seq<Owner>,
                   d: nat, c: nat, i: nat, kmap: seq<Kmap>, v: nat)
    requires Sound(p1, o1) && IsDir(o1, c) && CopiedAt(p0, o0, p1, o1, d, c, i, kmap, v)
    requires v != i ==> Same(p1, page, c, v)
    requires forall p: nat :: p < |o1| && o1[p].User? ==> Untouched(p1, o1, page, owner, c, p)
    requires v == i ==> CopiedAt(p0, o0, page, owner, d, c, i + 1, kmap, i)
    ensures CopiedAt(p0, o0, page, owner, d, c, i + 1, kmap, v)
  {
    if v < i {
      HoldsKept(p1, o1, page, owner, c, v, p0[Lookup(p0, d, v).ppn].bytes, Lookup(p0, d, v).flags);
    }
  }

  /** `i` pages have been copied. */
  ghost predicate Copying(f: nat, p0: seq<Page>, o0: seq<Owner>, p2: seq<Page>, page: seq<Page>, owner: seq<Owner>, left: nat,
                          d: nat, c: nat, kmap: seq<Kmap>, i: nat) {
    && Moves(p0, o0, page, owner, c) && Paid(f, left, p2, page, c, 0, i)
    && forall v: nat :: v < VPAGES ==> CopiedAt(p0, o0, page, owner, d, c, i, kmap, v)
  }

  lemma CopyingNext(f: nat, p0: seq<Page>, o0: seq<Owner>, p2: seq<Page>, p1: seq<Page>, o1: seq<Owner>, left1: nat,
                    page: seq<Page>, owner: seq<Owner>, left: nat, d: nat, c: nat, kmap: seq<Kmap>, i: nat)
    requires Copying(f, p0, o0, p2, p1, o1, left1, d, c, kmap, i) && Sound(p1, o1) && IsDir(o1, c) && i < KPAGES
    requires var e := Lookup(p0, d, i);
      && e.present && e.ppn < |p0| && p0[e.ppn].Data?
      && AddedUser(p1, o1, left1, page, owner, left, c, i, p0[e.ppn].bytes, e.flags, Added)
    ensures Copying(f, p0, o0, p2, page, owner, left, d, c, kmap, i + 1)
  {
    MovesTrans(p0, o0, p1, o1, page, owner, c);
    AddedOne(f, left1, left, p2, p1, page, c, 0, i, true);
    var k := i + 1;
    forall v: nat | v < VPAGES ensures CopiedAt(p0, o0, page, owner, d, c, k, kmap, v) {
      CopiedNext(p0, o0, p1, o1, page, owner, d, c, i, kmap, v);
    }
  }

  lemma KeptContents(p0: seq<Page>, o0: seq<Owner>, p2: seq<Page>, o2: seq<Owner>, page: seq<Page>, c: nat, lost: bool)
    requires Sound(p0, o0) && c < |o0| && o0[c].Free? && |page| == |o2|
    requires if lost then LosesOne(p0, o0, p2, o2, c) else Moves(p0, o0, p2, o2, c)
    requires forall p: nat :: p < |o2| ==> OthersKept(p2, o2, page, c, p)
    ensures ContentsKept(p0, o0, page)
  {
    var q: nat := if lost then var q: nat :| LosesPage(p0, o0, p2, o2, c, q); q else 0;
    forall p: nat | p < |o0| && !o0[p].Free? ensures page[p] == p0[p] {
      assert MovesAt(p0, o0, p2, o2, c, p) && OthersKept(p2, o2, page, c, p);
      NotPartYet(p0, o0, c, p);
    }
  }

  // ---------- The same in bytes ----------

  /** What address `x` of space `d` reads, if anything. */
  function ByteAt(page: seq<Page>, d: nat, x: nat): Option<Byte> {
    var e := Lookup(page, d, x / PGSIZE);
    if e.present && e.ppn < |page| && page[e.ppn].Data? then Some(page[e.ppn].bytes[x % PGSIZE]) else None
  }

  /** The addresses below the kernel. */
  const USERTOP: nat := KPAGES * PGSIZE

  /** A page is one of those for `sz` bytes just when its first address is below `sz`. */
  lemma UpIs(sz: nat, w: nat)
    ensures w < Up(sz) <==> w * PGSIZE < sz
  {
  }

  /** User pages with the same translation read the same. */
  lemma SameBytes(p0: seq<Page>, o0: seq<Owner>, page: seq<Page>, owner: seq<Owner>, d: nat, x: nat)
    requires Sound(p0, o0) && IsDir(o0, d) && x < USERTOP
    requires Lookup(page, d, x / PGSIZE).present == Lookup(p0, d, x / PGSIZE).present
    requires Lookup(p0, d, x / PGSIZE).present ==> Same(p0, page, d, x / PGSIZE)
    requires Lookup(p0, d, x / PGSIZE).present ==> UserStays(p0, o0, page, owner, Lookup(p0, d, x / PGSIZE).ppn)
    ensures ByteAt(page, d, x) == ByteAt(p0, d, x)
  {
    var w := x / PGSIZE;
    assert PteOk(p0, o0, d, w);
  }

  /** `allocuvm`, in bytes: exactly the pages that begin at `oldsz` or later and before `newsz` read zero;
      without the last of them if that was `lost`. Every other address reads what it read. */
  predicate GrownByte(ok: bool, lost: bool, p0: seq<Page>, page: seq<Page>, d: nat, oldsz: nat, newsz: nat, x: nat) {
    var start := x / PGSIZE * PGSIZE;
    ByteAt(page, d, x) ==
      if ok && oldsz <= start && start + (if lost then PGSIZE else 0) < newsz then Some(0) else ByteAt(p0, d, x)
  }

  /** Growing from `oldsz` to `newsz` bytes with `f` free pages gets stuck. */
  ghost predicate Short(f: nat, page: seq<Page>, d: nat, oldsz: nat, newsz: nat) {
    Up(oldsz) <= Up(newsz) && Loses(f, page, d, Up(oldsz), Up(newsz) - Up(oldsz))
  }

  /** Every address below `sz` reads something. */
  ghost predicate AllMapped(page: seq<Page>, d: nat, sz: nat) {
    forall x: nat :: x < sz ==> ByteAt(page, d, x).Some?
  }

  lemma GrewByte(ok: bool, f: nat, p0: seq<Page>, o0: seq<Owner>, page: seq<Page>, owner: seq<Owner>,
                 d: nat, oldsz: nat, newsz: nat, x: nat)
    requires Sound(p0, o0) && IsDir(o0, d) && oldsz <= newsz < USERTOP && x < USERTOP
    requires Grew(ok, f, p0, o0, page, owner, d, Up(oldsz), Up(newsz))
    ensures GrownByte(ok, Short(f, p0, d, oldsz, newsz), p0, page, d, oldsz, newsz, x)
  {
    var w := x / PGSIZE;
    UpIs(oldsz, w);
    UpIs(newsz, w);
    UpIs(newsz, w + 1);
    if ok {
      assert GrownAt(p0, page, owner, d, Up(oldsz), Top(f, p0, d, Up(oldsz), Up(newsz)), w);
    } else {
      assert BackAt(p0, page, d, w);
    }
    if !(ok && Up(oldsz) <= w < Top(f, p0, d, Up(oldsz), Up(newsz))) {
      assert PteOk(p0, o0, d, w);
      SameBytes(p0, o0, page, owner, d, x);
    }
  }

  /** So a space that had all its bytes has them after a growth that lost no page. */
  lemma AllBytesMapped(p0: seq<Page>, page: seq<Page>, d: nat, oldsz: nat, newsz: nat)
    requires newsz < USERTOP && forall x: nat :: x < USERTOP ==> GrownByte(true, false, p0, page, d, oldsz, newsz, x)
    requires AllMapped(p0, d, oldsz)
    ensures AllMapped(page, d, newsz)
  {
    forall x: nat | x < newsz ensures ByteAt(page, d, x).Some? {
      assert GrownByte(true, false, p0, page, d, oldsz, newsz, x);
      var start := x / PGSIZE * PGSIZE;
      if start < oldsz {
        assert ByteAt(p0, d, start).Some?;
      }
    }
  }

  /** `deallocuvm`, in bytes: exactly the pages that begin at `newsz` or later and before `oldsz`, and that
      the walk comes to, are gone. */
  ghost predicate ShrunkByte(p0: seq<Page>, page: seq<Page>, d: nat, oldsz: nat, newsz: nat, x: nat) {
    var start := x / PGSIZE * PGSIZE;
    ByteAt(page, d, x) ==
      if newsz <= start < oldsz && Visits(p0, d, Up(newsz), Up(oldsz), x / PGSIZE) then None else ByteAt(p0, d, x)
  }

  lemma DeallocedByte(p0: seq<Page>, o0: seq<Owner>, page: seq<Page>, owner: seq<Owner>, d: nat, oldsz: nat, newsz: nat, x: nat)
    requires Sound(p0, o0) && IsDir(o0, d) && Sound(page, owner) && IsDir(owner, d) && newsz < oldsz && x < USERTOP
    requires Dealloced(p0, o0, page, owner, d, Up(newsz), Up(oldsz), Up(oldsz))
    ensures ShrunkByte(p0, page, d, oldsz, newsz, x)
  {
    var w := x / PGSIZE;
    UpIs(oldsz, w);
    UpIs(newsz, w);
    assert ClearedAt(p0, page, d, Up(newsz), Up(oldsz), Up(oldsz), w);
    if Visits(p0, d, Up(newsz), Up(oldsz), w) {
      VisitsFrom(p0, d, Up(newsz), Up(oldsz), w);
    } else if Lookup(page, d, w).present {
      assert PteOk(page, owner, d, w) && StaysAt(p0, o0, page, owner, Lookup(page, d, w).ppn);
    }
  }

  /** No page that begins at `newsz` or later and before `oldsz` is left. */
  ghost predicate NoneLeft(page: seq<Page>, d: nat, oldsz: nat, newsz: nat) {
    forall w: nat :: newsz <= w * PGSIZE < oldsz ==> Unmapped(page, d, w)
  }

  /** With no gap in the range all of it is gone. */
  lemma NothingAbove(p0: seq<Page>, o0: seq<Owner>, page: seq<Page>, owner: seq<Owner>, d: nat, oldsz: nat, newsz: nat)
    requires Sound(p0, o0) && newsz < oldsz <= USERTOP && AllMapped(p0, d, oldsz)
    requires Dealloced(p0, o0, page, owner, d, Up(newsz), Up(oldsz), Up(oldsz))
    ensures NoneLeft(page, d, oldsz, newsz)
  {
    var a := Up(newsz);
    forall w: nat | newsz <= w * PGSIZE < oldsz ensures Unmapped(page, d, w) {
      UpIs(newsz, w);
      UpIs(oldsz, w);
      UpIs(newsz, a);
      var x, y := a * PGSIZE, w * PGSIZE;
      assert x / PGSIZE == a && y / PGSIZE == w;
      assert ByteAt(p0, d, x).Some? && ByteAt(p0, d, y).Some?;
      NothingMissed(p0, d, a, Up(oldsz));
      assert ClearedAt(p0, page, d, a, Up(oldsz), Up(oldsz), w);
    }
  }

  /** `copyuvm`, in bytes: the child reads what the parent reads in every page that begins below `sz`, and
      nothing above. */
  predicate CopiedByte(p0: seq<Page>, page: seq<Page>, d: nat, c: nat, sz: nat, x: nat) {
    if x / PGSIZE * PGSIZE < sz then ByteAt(p0, d, x).Some? && ByteAt(page, c, x) == ByteAt(p0, d, x)
    else ByteAt(page, c, x) == None
  }

  lemma CopyByte(p0: seq<Page>, o0: seq<Owner>, page: seq<Page>, owner: seq<Owner>, d: nat, c: nat, sz: nat, kmap: seq<Kmap>, x: nat)
    requires KmapOk(kmap) && x < USERTOP && CopiedAt(p0, o0, page, owner, d, c, Up(sz), kmap, x / PGSIZE)
    ensures CopiedByte(p0, page, d, c, sz, x)
  {
    UpIs(sz, x / PGSIZE);
    KernelAbove(kmap, |kmap|, x / PGSIZE);
  }

  // ---------- The life of an address space ----------

  /** A growth that loses no page, or a shrinking. */
  ghost predicate Resizes(p1: seq<Page>, o1: seq<Owner>, page: seq<Page>, owner: seq<Owner>, d: nat) {
    || (exists ok: bool, f: nat, start: nat, end: nat ::
          Grew(ok, f, p1, o1, page, owner, d, start, end) && !Loses(f, p1, d, start, end - start))
    || (exists start: nat, end: nat :: Dealloced(p1, o1, page, owner, d, start, end, end))
  }

  lemma {:induction false} LifeMoves(ps: seq<seq<Page>>, os: seq<seq<Owner>>, d: nat, k: nat)
    requires k < |ps| == |os| && |ps[0]| == |os[0]|
    requires forall i :: 0 <= i < k ==> Resizes(ps[i], os[i], ps[i + 1], os[i + 1], d)
    ensures Moves(ps[0], os[0], ps[k], os[k], d)
  {
    if k == 0 {
      MovesRefl(ps[0], os[0], d);
    } else {
      LifeMoves(ps, os, d, k - 1);
      assert Resizes(ps[k - 1], os[k - 1], ps[k - 1 + 1], os[k - 1 + 1], d);
      MovesTrans(ps[0], os[0], ps[k - 1], os[k - 1], ps[k], os[k], d);
    }
  }

  /** After `setupkvm`, any number of growths and shrinkings in which page tables never run out, and
      `freevm`, every page is again what it was before. */
  lemma LifeConserves(p0: seq<Page>, o0: seq<Owner>, ps: seq<seq<Page>>, os: seq<seq<Owner>>, o2: seq<Owner>, d: nat, k: nat)
    requires Sound(p0, o0) && d < |o0| && o0[d].Free? && k < |ps| == |os|
    requires Moves(p0, o0, ps[0], os[0], d)
    requires forall i :: 0 <= i < k ==> Resizes(ps[i], os[i], ps[i + 1], os[i + 1], d)
    requires |o2| == |os[k]| && forall p: nat :: p < |o2| ==> ReleasedAt(os[k], o2, d, p)
    ensures o2 == o0
  {
    LifeMoves(ps, os, d, k);
    MovesTrans(p0, o0, ps[0], os[0], ps[k], os[k], d);
    PagesConserved(p0, o0, ps[k], os[k], o2, d);
  }

  /** The tables are the kernel's and those of the first `top` pages. */
  ghost predicate SpaceTabled(kmap: seq<Kmap>, page: seq<Page>, d: nat, top: nat, r: nat) {
    Tabled(page, d, r) <==> Touched(kmap, |kmap|, r) || Touches(0, top, r)
  }

  lemma {:induction false} MissingAbove(kmap: seq<Kmap>, page: seq<Page>, d: nat, top: nat, start: nat, n: nat)
    requires KmapOk(kmap) && start <= top && start + n <= KPAGES
    requires forall r: nat :: r < NPT ==> SpaceTabled(kmap, page, d, top, r)
    ensures Missing(page, d, start, n) == if start + n > top then (start + n + NPT - 1) / NPT - (top + NPT - 1) / NPT else 0
  {
    if n > 0 {
      MissingAbove(kmap, page, d, top, start, n - 1);
      assert SpaceTabled(kmap, page, d, top, (start + n - 1) / NPT);
      assert !Touched(kmap, |kmap|, (start + n - 1) / NPT);
    }
  }

  /** A space of `sz` bytes that has not been larger than `top` pages; `left` of `f` pages are free. */
  ghost predicate Alive(f: nat, p0: seq<Page>, o0: seq<Owner>, page: seq<Page>, owner: seq<Owner>, left: nat,
                        d: nat, kmap: seq<Kmap>, sz: nat, top: nat) {
    && Moves(p0, o0, page, owner, d) && Up(sz) <= top <= KPAGES
    && left + Up(sz) + CopyCost(kmap, top) == f + top
    && (forall w: nat :: w < KPAGES ==> (Unmapped(page, d, w) <==> w >= Up(sz)))
    && (forall r: nat :: r < NPT ==> SpaceTabled(kmap, page, d, top, r))
  }

  lemma AliveEnough(f: nat, p0: seq<Page>, o0: seq<Owner>, page: seq<Page>, owner: seq<Owner>, left: nat,
                    d: nat, kmap: seq<Kmap>, sz: nat, top: nat, newsz: nat, most: nat)
    requires Alive(f, p0, o0, page, owner, left, d, kmap, sz, top) && KmapOk(kmap) && f >= CopyCost(kmap, most)
    requires sz <= newsz && top <= most && Up(newsz) <= most <= KPAGES
    ensures left >= Cost(page, d, Up(sz), Up(newsz) - Up(sz)) && !Loses(left, page, d, Up(sz), Up(newsz) - Up(sz))
  {
    var n := Up(newsz) - Up(sz);
    MissingAbove(kmap, page, d, top, Up(sz), n);
    NotStuck(left, page, d, Up(sz), n, n);
  }

  lemma AliveGrown(f: nat, p0: seq<Page>, o0: seq<Owner>, p1: seq<Page>, o1: seq<Owner>, left1: nat,
                   page: seq<Page>, owner: seq<Owner>, left: nat, d: nat, kmap: seq<Kmap>, sz: nat, top: nat, newsz: nat)
    requires Alive(f, p0, o0, p1, o1, left1, d, kmap, sz, top) && KmapOk(kmap) && sz < newsz && Up(newsz) <= KPAGES
    requires Grew(true, left1, p1, o1, page, owner, d, Up(sz), Up(newsz)) && !Loses(left1, p1, d, Up(sz), Up(newsz) - Up(sz))
    requires Paid(left1, left, p1, page, d, Up(sz), Up(newsz) - Up(sz))
    ensures Alive(f, p0, o0, page, owner, left, d, kmap, newsz, if Up(newsz) > top then Up(newsz) else top)
  {
    var start, end, n := Up(sz), Up(newsz), Up(newsz) - Up(sz);
    var most := if end > top then end else top;
    assert Top(left1, p1, d, start, end) == end;
    MissingAbove(kmap, p1, d, top, start, n);
    MovesTrans(p0, o0, p1, o1, page, owner, d);
    forall w: nat | w < KPAGES ensures Unmapped(page, d, w) <==> w >= end {
      assert GrownAt(p1, page, owner, d, start, end, w) && (Unmapped(p1, d, w) <==> w >= start);
    }
    forall r: nat | r < NPT ensures SpaceTabled(kmap, page, d, most, r) {
      assert SpaceTabled(kmap, p1, d, top, r) && GainedTable(p1, page, d, start, n, r);
    }
  }

  lemma AliveShrunk(f: nat, p0: seq<Page>, o0: seq<Owner>, p1: seq<Page>, o1: seq<Owner>, left1: nat,
                    page: seq<Page>, owner: seq<Owner>, left: nat, d: nat, kmap: seq<Kmap>, sz: nat, top: nat, newsz: nat)
    requires Alive(f, p0, o0, p1, o1, left1, d, kmap, sz, top) && newsz < sz
    requires Dealloced(p1, o1, page, owner, d, Up(newsz), Up(sz), Up(sz)) && left == left1 + Up(sz) - Up(newsz)
    ensures Alive(f, p0, o0, page, owner, left, d, kmap, newsz, top)
  {
    var a, end := Up(newsz), Up(sz);
    MovesTrans(p0, o0, p1, o1, page, owner, d);
    forall w: nat | w < KPAGES ensures Unmapped(page, d, w) <==> w >= a {
      assert (Unmapped(p1, d, w) <==> w >= end) && ClearedAt(p1, page, d, a, end, end, w);
      if a <= w < end {
        assert !Unmapped(p1, d, a);
        VisitsAll(p1, d, a, end, w);
      } else if Visits(p1, d, a, end, w) {
        VisitsFrom(p1, d, a, end, w);
      }
    }
    forall r: nat | r < NPT ensures SpaceTabled(kmap, page, d, top, r) {
      assert SpaceTabled(kmap, p1, d, top, r) && SameDirAt(p1, page, d, r);
    }
  }

  class Vm {
    /** Pages below `first` hold the kernel itself. */
    const first: nat
    var free: seq<nat>
    var page: seq<Page>
    ghost var owner: seq<Owner>

    ghost predicate Valid()
      reads this
    {
      && Sound(page, owner) && NoDup(free) && 0 < first
      && (forall p: nat :: FreeAt(free, owner, p))
      && (forall p: nat :: p < first && p < |owner| ==> owner[p].Reserved?)
    }

    // ---------- kalloc and kfree ----------

    /** The pages from `first` on are free, as `freerange` leaves them. */
    constructor (first: nat, npages: nat)
      requires 0 < first
      ensures Valid() && this.first == first && |page| == npages
      ensures forall p: nat :: p < npages ==> owner[p] == if p < first then Reserved else Free
      ensures |free| == if npages > first then npages - first else 0
    {
      this.first := first;
      page := seq(npages, _ => Data(Fill(1)));
      owner := seq(npages, p requires 0 <= p < npages => if p < first then Reserved else Lost);
      free := [];
      new;
      var p := first;
      while p < npages
        invariant Valid() && first <= p && |page| == npages && |free| == p - first && (p > npages ==> p == first)
        invariant forall q: nat :: q < npages ==> owner[q] == if q < first then Reserved else if q < p then Free else Lost
      {
        Kfree(p);
        p := p + 1;
      }
    }

    /** The page must have been allocated; it goes to the front of the free list. */
    method Kfree(p: nat)
      requires Valid() && p < |page| && owner[p].Lost?
      modifies this
      ensures Valid() && owner == old(owner)[p := Free] && free == [p] + old(free)
      ensures page == old(page)[p := Data(Fill(1))]
    {
      Refill(page, owner, p, Data(Fill(1)), Free);
      assert FreeAt(free, owner, p);
      page := page[p := Data(Fill(1))];
      free := [p] + free;
      owner := owner[p := Free];
      forall q: nat ensures FreeAt(free, owner, q) {
        assert FreeAt(old(free), old(owner), q);
      }
    }

    method Kalloc() returns (p: nat)
      requires Valid()
      modifies `free, `owner
      ensures Valid() && (p == NULL <==> old(free) == [])
      ensures p == NULL ==> free == old(free) && owner == old(owner)
      ensures p != NULL ==> p < |page| && old(owner)[p].Free? && owner == old(owner)[p := Lost] && free == old(free)[1..]
    {
      if free == [] {
        return NULL;
      }
      p := free[0];
      assert FreeAt(free, owner, p);
      Refill(page, owner, p, page[p], Lost);
      assert page[p := page[p]] == page;
      free := free[1..];
      owner := owner[p := Lost];
      forall q: nat ensures FreeAt(free, owner, q) {
        assert FreeAt(old(free), old(owner), q);
        assert q in old(free) <==> q == p || q in free;
      }
    }

    // ---------- walkpgdir and mappages ----------

    /** The table with the entry for page `v`, made if wanted and possible. */
    method Walk(d: nat, v: nat, alloc: bool) returns (t: nat)
      requires Valid() && IsDir(owner, d) && v < VPAGES
      modifies this
      ensures Valid() && IsDir(owner, d) && Moves(old(page), old(owner), page, owner, d)
      ensures !alloc || t == NULL ==> page == old(page) && owner == old(owner) && free == old(free)
      ensures t == NULL <==> !Tabled(old(page), d, v / NPT) && (alloc ==> old(free) == [])
      ensures t != NULL ==> |free| + TableCost(old(page), d, v) == |old(free)|
      ensures t != NULL ==> forall x: nat :: x < NPT ==> GainedTable(old(page), page, d, v, 1, x)
      ensures t != NULL ==> HasTable(page, owner, d, v) && t == TableOf(page, d, v)
      ensures forall w: nat :: w < VPAGES ==> Same(old(page), page, d, w)
      ensures forall p: nat :: p < |owner| && !old(owner)[p].Free? ==> Untouched(old(page), old(owner), page, owner, d, p)
      ensures forall q: nat :: TakenAt(old(owner), owner, q)
    {
      MovesRefl(page, owner, d);
      assert LabelOk(page, owner, d);
      var pde := Entry(page, d, v / NPT);
      if pde.present {
        TableIs(page, owner, d, v);
        assert LabelOk(page, owner, pde.ppn);
        return pde.ppn;
      }
      if !alloc {
        return NULL;
      }
      t := Kalloc();
      if t == NULL {
        return;
      }
      AddTableSound(page, owner, d, v / NPT, t, 7);
      forall w: nat | w < VPAGES ensures Same(page, AddTable(page, d, v / NPT, t, 7), d, w) {
        AddTableSame(page, owner, d, v / NPT, t, 7, d, w);
      }
      page := AddTable(page, d, v / NPT, t, 7);
      owner := owner[t := Table(d, v / NPT)];
      forall q: nat ensures FreeAt(free, owner, q) {
        assert FreeAt(free, old(owner)[t := Lost], q);
      }
      forall p: nat | p < |page| ensures MovesAt(old(page), old(owner), page, owner, d, p) {
      }
    }

    /** Map one page. A user page must have been allocated and not be in use yet. */
    method MapOne(d: nat, v: nat, ppn: nat, flags: nat) returns (r: MapResult)
      requires Valid() && IsDir(owner, d) && v < VPAGES
      requires v < KPAGES ==> ppn < |page| && owner[ppn].Lost? && page[ppn].Data?
      modifies this
      ensures Valid() && IsDir(owner, d)
      ensures r.Remap? <==> Lookup(old(page), d, v).present
      ensures r.OutOfPages? <==> !Tabled(old(page), d, v / NPT) && old(free) == []
      ensures r.OutOfPages? ==> page == old(page) && owner == old(owner) && free == []
      ensures MappedOne(old(page), old(owner), |old(free)|, page, owner, |free|, d, v, ppn, flags, r)
    {
      var t := Walk(d, v, true);
      assert Same(old(page), page, d, v);
      if t == NULL {
        return OutOfPages;
      }
      if Entry(page, t, v % NPT).present {
        return Remap;
      }
      var e := Pte(true, ppn, flags);
      ghost var p1, o1 := page, owner;
      TableIs(page, owner, d, v);
      ghost var after := if v < KPAGES then owner[ppn := User(d, v)] else owner;
      PutPteSound(page, owner, d, v, e, after);
      forall w: nat | w < VPAGES ensures MappedAt(old(page), PutPte(page, d, v, e), d, v, 1, ppn, flags, w) {
        PutPteLookup(page, owner, d, v, e, d, w);
        assert Same(old(page), page, d, w);
      }
      PutPteLookup(page, owner, d, v, e, d, 0);
      forall x: nat | x < NPT ensures GainedTable(old(page), PutPte(page, d, v, e), d, v, 1, x) {
        assert GainedTable(old(page), page, d, v, 1, x);
      }
      page := PutPte(page, d, v, e);
      owner := after;
      forall q: nat ensures FreeAt(free, owner, q) {
        assert FreeAt(free, o1, q);
      }
      forall p: nat | p < |page| && (v < KPAGES ==> p != ppn) ensures MovesAt(old(page), old(owner), page, owner, d, p) {
        assert MovesAt(old(page), old(owner), p1, o1, d, p);
      }
      return Mapped;
    }

    /** Exactly the pages from `v` to `v + n` get translations; no other translation changes. For user
        pages the page frames must have been allocated and not be in use yet. */
    method MapPages(d: nat, v: nat, n: nat, ppn: nat, flags: nat) returns (r: MapResult)
      requires Valid() && IsDir(owner, d) && n >= 1 && v + n <= VPAGES
      requires forall k: nat :: k < UserPart(v, n) ==> FrameAt(page, page, owner, d, v, ppn, 0, k)
      modifies this
      ensures Valid() && IsDir(owner, d)
      ensures MovesBeside(old(page), old(owner), page, owner, d, ppn, UserPart(v, n))
      ensures r.Mapped? ==> forall w: nat :: w < VPAGES ==> MappedAt(old(page), page, d, v, n, ppn, flags, w)
      ensures r.Mapped? ==> forall k: nat :: k < UserPart(v, n) ==> FrameAt(old(page), page, owner, d, v, ppn, n, k)
      ensures r.Remap? ==> exists w: nat :: v <= w < v + n && !Unmapped(old(page), d, w)
      ensures r.Mapped? ==> forall w: nat :: v <= w < v + n ==> Unmapped(old(page), d, w)
      ensures r.OutOfPages? ==> free == [] && |old(free)| < Missing(old(page), d, v, n)
      ensures r.Mapped? ==> |free| + Missing(old(page), d, v, n) == |old(free)|
      ensures r.Mapped? ==> forall x: nat :: x < NPT ==> GainedTable(old(page), page, d, v, n, x)
      ensures forall w: nat :: w < VPAGES && !(v <= w < v + n) ==> Same(old(page), page, d, w)
    {
      var i := 0;
      ghost var f, p0, o0 := |free|, page, owner;
      while true
        invariant i < n && Valid() && IsDir(owner, d) && Mapping(f, p0, o0, page, owner, |free|, d, v, n, ppn, flags, i)
        invariant forall w: nat :: v <= w < v + i ==> Unmapped(p0, d, w)
        decreases n - i
      {
        r := MapRound(d, v, n, ppn, flags, i, f, p0, o0);
        if !r.Mapped? {
          return;
        }
        i := i + 1;
        if i == n {
          MappingDone(f, p0, o0, page, owner, |free|, d, v, n, ppn, flags);
          return;
        }
      }
    }

    method MapRound(d: nat, v: nat, n: nat, ppn: nat, flags: nat, i: nat, ghost f: nat, ghost p0: seq<Page>, ghost o0: seq<Owner>)
      returns (r: MapResult)
      requires Valid() && IsDir(owner, d) && i < n && v + n <= VPAGES
      requires Mapping(f, p0, o0, page, owner, |free|, d, v, n, ppn, flags, i)
      modifies this
      ensures Valid() && IsDir(owner, d) && (r.Remap? <==> !Unmapped(p0, d, v + i))
      ensures r.Mapped? ==> Mapping(f, p0, o0, page, owner, |free|, d, v, n, ppn, flags, i + 1)
      ensures !r.Mapped? ==> MovesBeside(p0, o0, page, owner, d, ppn, UserPart(v, n))
      ensures r.OutOfPages? ==> free == [] && f < Missing(p0, d, v, n)
      ensures !r.Mapped? ==> forall w: nat :: w < VPAGES && !(v <= w < v + n) ==> Same(p0, page, d, w)
    {
      ghost var p1, o1, left := page, owner, |free|;
      assert MappedAt(p0, p1, d, v, i, ppn, flags, v + i);
      assert v + i < KPAGES ==> FrameAt(p0, p1, o1, d, v, ppn, i, i);
      r := MapOne(d, v + i, ppn + i, flags);
      if r.Mapped? {
        MappingNext(f, p0, o0, p1, o1, left, page, owner, |free|, d, v, n, ppn, flags, i);
      } else {
        MappingEnd(f, p0, o0, p1, o1, left, page, owner, |free|, d, v, n, ppn, flags, i, r);
      }
    }

    // ---------- deallocuvm ----------

    /** Unmap and free one user page. */
    method Unmap(d: nat, v: nat)
      requires Valid() && IsDir(owner, d) && v < KPAGES && Lookup(page, d, v).present
      modifies this
      ensures Valid() && IsDir(owner, d) && |page| == |old(page)| && Moves(old(page), old(owner), page, owner, d)
      ensures Lookup(old(page), d, v).ppn < |owner| && owner == old(owner)[Lookup(old(page), d, v).ppn := Free]
      ensures |free| == |old(free)| + 1
      ensures forall i: nat :: SameDirAt(old(page), page, d, i)
      ensures forall p: nat :: p < |owner| ==> StaysAt(old(page), old(owner), page, owner, p)
      ensures forall w: nat :: w < VPAGES ==> ClearedTo(Lookup(old(page), d, w), Lookup(page, d, w), w == v)
    {
      assert PteOk(page, owner, d, v);
      TableIs(page, owner, d, v);
      var t, q := TableOf(page, d, v), Lookup(page, d, v).ppn;
      ghost var o1 := owner[q := Lost];
      PutPteSound(page, owner, d, v, NOPTE, o1);
      page := PutEntry(page, t, v % NPT, NOPTE);
      owner := o1;
      forall p: nat ensures FreeAt(free, owner, p) {
        assert FreeAt(free, old(owner), p);
      }
      ghost var p1 := page;
      Kfree(q);
      forall w: nat | w < VPAGES ensures ClearedTo(Lookup(old(page), d, w), Lookup(page, d, w), w == v) {
        PutPteLookup(old(page), old(owner), d, v, NOPTE, d, w);
        OtherPage(p1, o1, q, Data(Fill(1)), d, w);
      }
      forall i: nat ensures SameDirAt(old(page), page, d, i) {
        PutPteLookup(old(page), old(owner), d, v, NOPTE, d, 0);
        OtherPage(p1, o1, q, Data(Fill(1)), d, 0);
      }
      forall p: nat | p < |page| ensures MovesAt(old(page), old(owner), page, owner, d, p) {
      }
    }

    /** Exactly the mapped pages that the walk comes to are unmapped and freed. */
    method Deallocuvm(d: nat, oldsz: nat, newsz: nat)
      requires Valid() && IsDir(owner, d) && Up(oldsz) <= KPAGES
      modifies this
      ensures Valid() && IsDir(owner, d)
      ensures newsz >= oldsz ==> page == old(page) && owner == old(owner)
      ensures newsz < oldsz ==> Dealloced(old(page), old(owner), page, owner, d, Up(newsz), Up(oldsz), Up(oldsz))
      ensures newsz < oldsz && (forall w: nat :: Up(newsz) <= w < Up(oldsz) ==> !Unmapped(old(page), d, w)) ==>
        |free| == |old(free)| + Up(oldsz) - Up(newsz)
      ensures newsz < oldsz ==> forall x: nat :: x < USERTOP ==> ShrunkByte(old(page), page, d, oldsz, newsz, x)
      ensures newsz < oldsz && AllMapped(old(page), d, oldsz) ==> NoneLeft(page, d, oldsz, newsz)
    {
      if newsz >= oldsz {
        return;
      }
      var a, end := Up(newsz), Up(oldsz);
      ghost var p0, o0, start, full := page, owner, a, forall w: nat :: a <= w < end ==> !Unmapped(page, d, w);
      DeallocStart(page, owner, d, a, end);
      while a < end
        invariant start <= a && Valid() && IsDir(owner, d) && Dealloced(p0, o0, page, owner, d, start, a, end)
        invariant forall w: nat :: Visits(p0, d, a, end, w) ==> Visits(p0, d, start, end, w)
        invariant full ==> a <= end && |free| == |old(free)| + (a - start)
        decreases if a < end then end - a else 0
      {
        assert full ==> !Unmapped(p0, d, a);
        a := DeallocPage(d, a, start, end, p0, o0);
      }
      DeallocEnd(p0, o0, page, owner, d, start, a, end);
      forall x: nat | x < USERTOP ensures ShrunkByte(p0, page, d, oldsz, newsz, x) {
        DeallocedByte(p0, o0, page, owner, d, oldsz, newsz, x);
      }
      if AllMapped(p0, d, oldsz) {
        NothingAbove(p0, o0, page, owner, d, oldsz, newsz);
      }
    }

    /** One page, or the step over the range of a missing table. */
    method DeallocPage(d: nat, a: nat, ghost start: nat, ghost end: nat, ghost p0: seq<Page>, ghost o0: seq<Owner>) returns (b: nat)
      requires Valid() && IsDir(owner, d) && Sound(p0, o0) && IsDir(o0, d) && start <= a < end <= KPAGES
      requires Dealloced(p0, o0, page, owner, d, start, a, end)
      requires forall w: nat :: Visits(p0, d, a, end, w) ==> Visits(p0, d, start, end, w)
      modifies this
      ensures Valid() && IsDir(owner, d) && Dealloced(p0, o0, page, owner, d, start, b, end)
      ensures b == if Tabled(p0, d, a / NPT) then a + 1 else a + NPT
      ensures forall w: nat :: Visits(p0, d, b, end, w) ==> Visits(p0, d, a, end, w)
      ensures |free| == |old(free)| + if Unmapped(p0, d, a) then 0 else 1
    {
      assert SameDirAt(p0, page, d, a / NPT);
      assert ClearedAt(p0, page, d, start, a, end, a);
      var t := Walk(d, a, false);
      if t == NULL {
        DeallocSkip(p0, o0, page, owner, d, start, a, end);
        b := a + NPT;
      } else {
        ghost var p1, o1 := page, owner;
        var pte := Entry(page, t, a % NPT);
        if pte.present {
          Unmap(d, a);
        } else {
          MovesRefl(page, owner, d);
        }
        VisitsStep(p0, d, a, end, a);
        DeallocNext(p0, o0, p1, o1, page, owner, d, start, a, end);
        b := a + 1;
      }
    }

    // ---------- freevm ----------

    /** All pages of the space are free again, and no other page changes its use. */
    method Freevm(d: nat)
      requires Valid() && IsDir(owner, d)
      modifies this
      ensures Valid() && |owner| == |old(owner)|
      ensures forall p: nat :: p < |owner| ==> ReleasedAt(old(owner), owner, d, p)
      ensures forall p: nat :: p < |owner| ==> OthersKept(old(page), old(owner), page, d, p)
    {
      ghost var p0, o0 := page, owner;
      Deallocuvm(d, KPAGES * PGSIZE, 0);
      ghost var p1, o1 := page, owner;
      NoUserLeft(p0, o0, page, owner, d);
      GiveUp(d);
      FreeTables(d, page, o1);
      ghost var p2, o2 := page, owner;
      Kfree(d);
      forall p: nat | p < |owner| ensures ReleasedAt(o0, owner, d, p) && OthersKept(p0, o0, page, d, p) {
        assert GivenBackAt(p0, o0, o1, d, 0, KPAGES, KPAGES, p) && MovesAt(p0, o0, p1, o1, d, p);
        assert UserLeft(o1, d, p) && LabelOk(p1, o1, p) && UntabledAt(p1, o1, p2, o2, d, NPT, p);
      }
    }

    /** The pages of space `d` belong to nothing any more. */
    ghost method GiveUp(d: nat)
      requires Valid() && IsDir(owner, d)
      modifies `owner
      ensures Valid() && |owner| == |old(owner)|
      ensures forall p: nat :: p < |owner| ==> TornAt(old(owner), owner, d, p)
    {
      var o1 := owner;
      owner := Torn(owner, d);
      forall p: nat | p < |owner| ensures TornAt(o1, owner, d, p) {
      }
      TearDown(page, o1, owner, d);
      forall q: nat ensures FreeAt(free, owner, q) {
        assert FreeAt(free, o1, q);
      }
    }

    /** Free the tables of directory `d`, which has been given up. */
    method FreeTables(d: nat, ghost p1: seq<Page>, ghost o1: seq<Owner>)
      requires Valid() && Sound(p1, o1) && IsDir(o1, d) && page == p1 && |owner| == |o1|
      requires forall p: nat :: p < |o1| ==> TornAt(o1, owner, d, p)
      modifies this
      ensures Valid() && |owner| == |o1| && |page| == |p1| && d < |owner| && owner[d].Lost?
      ensures forall p: nat :: p < |o1| ==> UntabledAt(p1, o1, page, owner, d, NPT, p)
    {
      assert LabelOk(p1, o1, d);
      forall p: nat | p < |o1| ensures UntabledAt(p1, o1, page, owner, d, 0, p) {
        assert TornAt(o1, owner, d, p);
      }
      for i := 0 to NPT
        invariant Valid() && |owner| == |o1| && |page| == |p1|
        invariant forall p: nat :: p < |o1| ==> UntabledAt(p1, o1, page, owner, d, i, p)
      {
        assert UntabledAt(p1, o1, page, owner, d, i, d);
        ghost var p2, o2 := page, owner;
        assert PdeOk(p1, o1, d, i);
        var e := page[d].entries[i];
        if e.present {
          assert UntabledAt(p1, o1, page, owner, d, i, e.ppn);
          Kfree(e.ppn);
        }
        var k := i + 1;
        forall p: nat | p < |o1| ensures UntabledAt(p1, o1, page, owner, d, k, p) {
          assert UntabledAt(p1, o1, p2, o2, d, i, p) && LabelOk(p1, o1, p);
        }
      }
      assert UntabledAt(p1, o1, page, owner, d, NPT, d);
    }

    // ---------- setupkvm ----------

    method NewSpace() returns (d: nat)
      requires Valid()
      modifies this
      ensures Valid() && (d == NULL <==> old(free) == [])
      ensures d == NULL ==> page == old(page) && owner == old(owner) && free == old(free)
      ensures d != NULL ==> d < |old(owner)| && old(owner)[d].Free? && IsDir(owner, d)
      ensures d != NULL ==> Moves(old(page), old(owner), page, owner, d)
      ensures d != NULL ==> |free| == |old(free)| - 1 && forall r: nat :: !Tabled(page, d, r)
      ensures d != NULL ==> forall w: nat :: w < VPAGES ==> Lookup(page, d, w) == NOPTE
    {
      d := Kalloc();
      if d == NULL {
        return;
      }
      NewDir(page, owner, d);
      ghost var o1 := owner;
      page := page[d := Ptes(NoEntries())];
      owner := owner[d := Dir];
      forall q: nat ensures FreeAt(free, owner, q) {
        assert FreeAt(free, o1, q);
      }
      forall p: nat | p < |page| ensures MovesAt(old(page), old(owner), page, owner, d, p) {
      }
    }

    /** A new address space with the kernel's mappings and no user pages. It needs a page for the
        directory and one for each table. With fewer, all free pages go into it and are lost. */
    method Setupkvm(kmap: seq<Kmap>) returns (d: nat)
      requires Valid() && KmapOk(kmap)
      modifies this
      ensures Valid()
      ensures d != NULL <==> |old(free)| >= 1 + KernelTables(kmap, |kmap|)
      ensures d == NULL ==> AllLost(old(page), old(owner), page, owner)
      ensures d != NULL ==> d < |old(owner)| && old(owner)[d].Free? && IsDir(owner, d)
      ensures d != NULL ==> Moves(old(page), old(owner), page, owner, d)
      ensures d != NULL ==> forall w: nat :: w < VPAGES ==> KernelAt(kmap, |kmap|, page, d, w)
      ensures d != NULL ==> forall r: nat :: r < NPT ==> KernelTabled(kmap, |kmap|, page, d, r)
      ensures d != NULL ==> |free| == |old(free)| - 1 - KernelTables(kmap, |kmap|)
    {
      ghost var p0, o0, f := page, owner, |free|;
      d := NewSpace();
      if d == NULL {
        NoneFree();
        return;
      }
      for m := 0 to |kmap|
        invariant Valid() && IsDir(owner, d) && Building(f, p0, o0, page, owner, |free|, d, kmap, m)
      {
        var ok := KernelLine(kmap, m, d, f, p0, o0);
        if !ok {
          GiveUpAll(d, p0, o0);
          return NULL;
        }
      }
    }

    /** Line `m` of the kernel's table. */
    method KernelLine(kmap: seq<Kmap>, m: nat, d: nat, ghost f: nat, ghost p0: seq<Page>, ghost o0: seq<Owner>) returns (ok: bool)
      requires Valid() && KmapOk(kmap) && m < |kmap| && IsDir(owner, d)
      requires Building(f, p0, o0, page, owner, |free|, d, kmap, m)
      modifies this
      ensures Valid() && IsDir(owner, d)
      ensures if ok then Building(f, p0, o0, page, owner, |free|, d, kmap, m + 1)
        else free == [] && f < 1 + KernelTables(kmap, |kmap|) && Moves(p0, o0, page, owner, d)
    {
      ghost var p1, o1, left := page, owner, |free|;
      var k := kmap[m];
      forall w: nat | k.v <= w < k.v + k.n ensures Unmapped(page, d, w) {
        assert KernelAt(kmap, m, page, d, w);
        NotYetMapped(kmap, m, m, w);
      }
      NewIsMissing(kmap, m, page, d, k.n);
      KernelTablesMore(kmap, m + 1, |kmap|);
      var r := MapPages(d, k.v, k.n, k.ppn, k.perm);
      BesideNone(p1, o1, page, owner, d, k.ppn);
      MovesTrans(p0, o0, p1, o1, page, owner, d);
      ok := r.Mapped?;
      if ok {
        BuildingNext(f, p0, o0, p1, o1, left, page, owner, |free|, d, kmap, m);
      }
    }

    lemma NoneFree()
      requires Valid() && free == []
      ensures AllLost(page, owner, page, owner)
    {
      forall p: nat | p < |page| ensures LostAt(page, owner, page, owner, p) {
        assert FreeAt(free, owner, p);
      }
    }

    /** The new space `d` has taken all free pages and is given up. */
    ghost method GiveUpAll(d: nat, p0: seq<Page>, o0: seq<Owner>)
      requires Valid() && IsDir(owner, d) && free == [] && Sound(p0, o0)
      requires d < |o0| && o0[d].Free? && Moves(p0, o0, page, owner, d)
      modifies `owner
      ensures Valid() && AllLost(p0, o0, page, owner)
    {
      var o1 := owner;
      GiveUp(d);
      forall p: nat | p < |page| ensures LostAt(p0, o0, page, owner, p) {
        assert MovesAt(p0, o0, page, o1, d, p) && TornAt(o1, owner, d, p) && FreeAt(free, o1, p);
        NotPartYet(p0, o0, d, p);
      }
    }

    // ---------- allocuvm and copyuvm ----------

    /** A fresh page with the given bytes for page `v`. It is lost when there is no page left for a table. */
    method AddUser(d: nat, v: nat, bytes: Frame, flags: nat) returns (r: AddResult)
      requires Valid() && IsDir(owner, d) && v < KPAGES && !Lookup(page, d, v).present
      modifies this
      ensures Valid() && IsDir(owner, d)
      ensures r.NoMemory? <==> old(free) == []
      ensures r.NoTable? <==> |old(free)| == 1 && !Tabled(old(page), d, v / NPT)
      ensures r.NoMemory? ==> page == old(page) && owner == old(owner)
      ensures r.NoMemory? || r.NoTable? ==> free == []
      ensures AddedUser(old(page), old(owner), |old(free)|, page, owner, |free|, d, v, bytes, flags, r)
    {
      var q := Kalloc();
      if q == NULL {
        MovesRefl(page, owner, d);
        return NoMemory;
      }
      ghost var o1 := owner;
      Refill(page, owner, q, Data(bytes), Lost);
      assert owner[q := Lost] == owner;
      ghost var p1 := page[q := Data(bytes)];
      forall w: nat | w < VPAGES ensures Same(page, p1, d, w) {
        OtherPage(page, owner, q, Data(bytes), d, w);
      }
      OtherPage(page, owner, q, Data(bytes), d, 0);
      page := page[q := Data(bytes)];
      forall p: nat | p < |page| && p != q ensures MovesAt(old(page), old(owner), p1, o1, d, p) {
      }
      assert Same(old(page), p1, d, v);
      var m := MapOne(d, v, q, flags);
      MovesButTrans(old(page), old(owner), p1, o1, page, owner, d, q);
      r := if m.Mapped? then Added else NoTable;
      Arrived(old(page), old(owner), page, owner, d, q);
      forall p: nat | p < |owner| && old(owner)[p].User? ensures Untouched(old(page), old(owner), page, owner, d, p) {
        assert Untouched(p1, o1, page, owner, d, p);
      }
      forall w: nat | w < VPAGES && !(r.Added? && w == v) ensures Same(old(page), page, d, w) {
        assert Same(old(page), p1, d, w);
        assert if r.Added? then MappedAt(p1, page, d, v, 1, q, flags, w) else Same(p1, page, d, w);
      }
      forall x: nat ensures TakenAt(old(owner), owner, x) {
        assert TakenAt(o1, owner, x);
      }
      assert r.Added? ==> MappedAt(p1, page, d, v, 1, q, flags, v);
      forall x: nat | x < NPT && r.Added? ensures GainedTable(old(page), page, d, v, 1, x) {
        assert GainedTable(p1, page, d, v, 1, x);
      }
    }

    /** Grow from `oldsz` to `newsz`: new zero pages, or the translations as they were. A page frame is
        lost exactly when a table for it cannot be had; the call does not notice if it is the last. */
    method Allocuvm(d: nat, oldsz: nat, newsz: nat) returns (ok: bool, size: nat)
      requires Valid() && IsDir(owner, d)
      requires forall w: nat :: Up(oldsz) <= w < Up(newsz) && w < KPAGES ==> !Lookup(page, d, w).present
      modifies this
      ensures Valid() && IsDir(owner, d)
      ensures newsz >= KPAGES * PGSIZE ==> !ok && page == old(page) && owner == old(owner) && free == old(free)
      ensures newsz < KPAGES * PGSIZE && newsz < oldsz ==> ok && size == oldsz && page == old(page) && owner == old(owner)
      ensures oldsz <= newsz < KPAGES * PGSIZE ==> Grew(ok, |old(free)|, old(page), old(owner), page, owner, d, Up(oldsz), Up(newsz))
      ensures ok && newsz >= oldsz ==> size == newsz
      ensures oldsz <= newsz < KPAGES * PGSIZE ==> forall x: nat :: x < USERTOP ==>
        GrownByte(ok, Short(|old(free)|, old(page), d, oldsz, newsz), old(page), page, d, oldsz, newsz, x)
      ensures ok && newsz >= oldsz && !Short(|old(free)|, old(page), d, oldsz, newsz) && AllMapped(old(page), d, oldsz) ==>
        AllMapped(page, d, newsz)
      ensures ok && newsz >= oldsz && !Loses(|old(free)|, old(page), d, Up(oldsz), Up(newsz) - Up(oldsz)) ==>
        Paid(|old(free)|, |free|, old(page), page, d, Up(oldsz), Up(newsz) - Up(oldsz))
    {
      if newsz >= KPAGES * PGSIZE {
        return false, 0;
      }
      if newsz < oldsz {
        return true, oldsz;
      }
      ghost var top;
      ok, top := AddZeros(d, oldsz, newsz);
      if !ok {
        TakeBack(d, oldsz, newsz, old(page), old(owner), top, |old(free)|);
      }
      ghost var lost := Short(|old(free)|, old(page), d, oldsz, newsz);
      forall x: nat | x < USERTOP ensures GrownByte(ok, lost, old(page), page, d, oldsz, newsz, x) {
        GrewByte(ok, |old(free)|, old(page), old(owner), page, owner, d, oldsz, newsz, x);
      }
      if ok && !lost && AllMapped(old(page), d, oldsz) {
        AllBytesMapped(old(page), page, d, oldsz, newsz);
      }
      size := if ok then newsz else 0;
    }

    /** The loop of `allocuvm`, up to its end or until memory runs out. */
    method AddZeros(d: nat, oldsz: nat, newsz: nat) returns (ok: bool, ghost top: nat)
      requires Valid() && IsDir(owner, d) && oldsz <= newsz < KPAGES * PGSIZE
      requires forall w: nat :: Up(oldsz) <= w < Up(newsz) ==> !Lookup(page, d, w).present
      modifies this
      ensures Valid() && IsDir(owner, d) && Up(oldsz) <= top <= Up(newsz)
      ensures forall w: nat :: w < VPAGES ==> GrownAt(old(page), page, owner, d, Up(oldsz), top, w)
      ensures forall p: nat :: p < |old(owner)| ==> UserStays(old(page), old(owner), page, owner, p)
      ensures Losing(|old(free)|, old(page), old(owner), page, owner, d, Up(oldsz), Up(newsz))
      ensures ok <==> Grows(|old(free)|, old(page), d, Up(oldsz), Up(newsz) - Up(oldsz))
      ensures ok ==> top == Top(|old(free)|, old(page), d, Up(oldsz), Up(newsz))
      ensures !ok ==> oldsz < newsz
      ensures ok && !Loses(|old(free)|, old(page), d, Up(oldsz), Up(newsz) - Up(oldsz)) ==>
        Paid(|old(free)|, |free|, old(page), page, d, Up(oldsz), Up(newsz) - Up(oldsz))
    {
      var start, end := Up(oldsz), Up(newsz);
      var a := start;
      ghost var lost, f, p0, o0 := false, |free|, page, owner;
      top := a;
      MovesRefl(page, owner, d);
      while a * PGSIZE < newsz
        invariant a <= end && Valid() && IsDir(owner, d) && Adding(f, p0, o0, page, owner, |free|, d, start, a, top, lost)
        decreases end - a
      {
        ghost var p1 := page;
        ok, top, lost := AddZero(d, a, f, p0, o0, start, top, lost);
        if !ok {
          OutOfFrames(f, p0, p1, d, start, a - start, end - start, lost);
          return;
        }
        a := a + 1;
      }
      AllAdded(f, |free|, p0, page, d, start, end - start, lost);
      return true, top;
    }

    method AddZero(d: nat, a: nat, ghost f: nat, ghost p0: seq<Page>, ghost o0: seq<Owner>, ghost start: nat, ghost top0: nat, ghost lost0: bool)
      returns (ok: bool, ghost top: nat, ghost lost: bool)
      requires Valid() && IsDir(owner, d) && a < KPAGES && !Lookup(p0, d, a).present
      requires Adding(f, p0, o0, page, owner, |free|, d, start, a, top0, lost0)
      modifies this
      ensures Valid() && IsDir(owner, d)
      ensures ok ==> Adding(f, p0, o0, page, owner, |free|, d, start, a + 1, top, lost)
      ensures !ok ==> page == old(page) && owner == old(owner) && free == old(free) == [] && top == top0 && lost == lost0
    {
      ghost var p1, o1, left := page, owner, |free|;
      assert GrownAt(p0, page, owner, d, start, top0, a);
      var r := AddUser(d, a, Fill(0), USER_FLAGS);
      if r.NoMemory? {
        return false, top0, lost0;
      }
      top, lost := if r.Added? then a + 1 else a, r.NoTable?;
      AddingNext(f, p0, o0, p1, o1, left, page, owner, |free|, d, start, a, top, r);
      return true, top, lost;
    }

    /** Give back what has been added since the space was as in `p0`. */
    method TakeBack(d: nat, oldsz: nat, newsz: nat, ghost p0: seq<Page>, ghost o0: seq<Owner>, ghost top: nat, ghost f: nat)
      requires Valid() && IsDir(owner, d) && Losing(f, p0, o0, page, owner, d, Up(oldsz), Up(newsz))
      requires oldsz < newsz < KPAGES * PGSIZE && Up(oldsz) <= top <= Up(newsz)
      requires forall w: nat :: w < VPAGES ==> GrownAt(p0, page, owner, d, Up(oldsz), top, w)
      requires forall w: nat :: Up(oldsz) <= w < Up(newsz) && w < KPAGES ==> !Lookup(p0, d, w).present
      requires Sound(p0, o0) && forall p: nat :: p < |o0| ==> UserStays(p0, o0, page, owner, p)
      modifies this
      ensures Valid() && IsDir(owner, d) && Losing(f, p0, o0, page, owner, d, Up(oldsz), Up(newsz))
      ensures forall w: nat :: w < VPAGES ==> BackAt(p0, page, d, w)
      ensures forall p: nat :: p < |o0| ==> UserStays(p0, o0, page, owner, p)
    {
      ghost var p1, o1 := page, owner;
      Deallocuvm(d, newsz, oldsz);
      forall w: nat | w < VPAGES ensures BackAt(p0, page, d, w) {
        ShrunkBack(p0, p1, o1, page, owner, d, Up(oldsz), top, Up(newsz), w);
      }
      ShrunkKeeps(p0, o0, p1, o1, page, owner, d, Up(oldsz), Up(newsz));
      if Loses(f, p0, d, Up(oldsz), Up(newsz) - Up(oldsz)) {
        LosesBefore(p0, o0, p1, o1, page, owner, d);
      } else {
        MovesTrans(p0, o0, p1, o1, page, owner, d);
      }
    }

    /** A child space with its own copy of every page below `sz`, contents and flags; the parent and
        all others are untouched. On failure the child is gone. Then, if there was not even room for
        the kernel's part, all free pages are lost; if a page table could not be had, one page is. */
    method Copyuvm(d: nat, sz: nat, kmap: seq<Kmap>) returns (c: nat)
      requires Valid() && IsDir(owner, d) && KmapOk(kmap) && Up(sz) <= KPAGES
      requires forall v: nat :: v < Up(sz) ==> Lookup(page, d, v).present
      modifies this
      ensures Valid()
      ensures c != NULL <==> |old(free)| >= CopyCost(kmap, Up(sz))
      ensures c != NULL ==> IsDir(owner, c) && c < |old(owner)| && old(owner)[c].Free? && Moves(old(page), old(owner), page, owner, c)
      ensures c != NULL ==> forall v: nat :: v < VPAGES ==> CopiedAt(old(page), old(owner), page, owner, d, c, Up(sz), kmap, v)
      ensures c != NULL ==> forall x: nat :: x < USERTOP ==> CopiedByte(old(page), page, d, c, sz, x)
      ensures c == NULL ==> Uncopied(kmap, |old(free)|, Up(sz), old(page), old(owner), page, owner)
    {
      ghost var p0, o0 := page, owner;
      FreshNone(kmap, |free|, Up(sz));
      c := Setupkvm(kmap);
      if c == NULL {
        return;
      }
      var i, n := 0, Up(sz);
      ghost var f, p2 := |free|, page;
      forall v: nat | v < VPAGES ensures CopiedAt(p0, o0, page, owner, d, c, 0, kmap, v) {
        assert KernelAt(kmap, |kmap|, page, c, v);
      }
      while i < n
        invariant i <= n && Valid() && IsDir(owner, c) && Copying(f, p0, o0, p2, page, owner, |free|, d, c, kmap, i)
      {
        var ok := CopyPage(d, c, kmap, i, n, f, |old(free)|, p0, o0, p2);
        if !ok {
          return NULL;
        }
        i := i + 1;
      }
      FreshCost(kmap, p2, c, n);
      forall x: nat | x < USERTOP ensures CopiedByte(p0, page, d, c, sz, x) {
        CopyByte(p0, o0, page, owner, d, c, sz, kmap, x);
      }
    }

    /** One page of a copy; if it cannot be had the child is freed. */
    method CopyPage(d: nat, c: nat, kmap: seq<Kmap>, i: nat, ghost n: nat, ghost f: nat, ghost before: nat,
                    ghost p0: seq<Page>, ghost o0: seq<Owner>, ghost p2: seq<Page>) returns (ok: bool)
      requires Valid() && IsDir(owner, c) && KmapOk(kmap) && i < n <= KPAGES
      requires Sound(p0, o0) && IsDir(o0, d) && c < |o0| && o0[c].Free? && Lookup(p0, d, i).present
      requires before == f + 1 + KernelTables(kmap, |kmap|) && forall r: nat :: r < NPT ==> KernelTabled(kmap, |kmap|, p2, c, r)
      requires Copying(f, p0, o0, p2, page, owner, |free|, d, c, kmap, i)
      modifies this
      ensures Valid()
      ensures ok ==> IsDir(owner, c) && Copying(f, p0, o0, p2, page, owner, |free|, d, c, kmap, i + 1)
      ensures !ok ==> before < CopyCost(kmap, n) && Uncopied(kmap, before, n, p0, o0, page, owner)
    {
      ghost var p1, o1, left := page, owner, |free|;
      MovesLookup(p0, o0, page, owner, c, d, i);
      assert CopiedAt(p0, o0, page, owner, d, c, i, kmap, i) && PteOk(p0, o0, d, i);
      KernelAbove(kmap, |kmap|, i);
      var pte := Lookup(page, d, i);
      assert MovesAt(p0, o0, page, owner, c, pte.ppn) && LabelOk(p0, o0, pte.ppn);
      var r := AddUser(c, i, page[pte.ppn].bytes, pte.flags);
      ok := r.Added?;
      if ok {
        CopyingNext(f, p0, o0, p2, p1, o1, left, page, owner, |free|, d, c, kmap, i);
      } else {
        CopyShort(kmap, before, f, p2, p1, c, i, n, r.NoTable?);
        Undo(c, p0, o0, p1, o1, r.NoTable?);
      }
    }

    /** With room for the largest size, an address space can be made, resized and freed, and the free
        pages are what they were. */
    method Lifetime(kmap: seq<Kmap>, sizes: seq<nat>, ghost most: nat)
      requires Valid() && KmapOk(kmap) && most <= KPAGES && |free| >= CopyCost(kmap, most)
      requires forall i :: 0 <= i < |sizes| ==> Up(sizes[i]) <= most
      modifies this
      ensures Valid() && owner == old(owner) && forall p: nat :: p in free <==> p in old(free)
    {
      ghost var f, p0, o0 := |free|, page, owner;
      ghost var top: nat := 0;
      FreshNone(kmap, f, most);
      var d := Setupkvm(kmap);
      var sz: nat := 0;
      forall w: nat | w < KPAGES ensures Unmapped(page, d, w) {
        assert KernelAt(kmap, |kmap|, page, d, w);
        KernelAbove(kmap, |kmap|, w);
      }
      forall r: nat | r < NPT ensures SpaceTabled(kmap, page, d, 0, r) {
        assert KernelTabled(kmap, |kmap|, page, d, r);
      }
      for i := 0 to |sizes|
        invariant Valid() && IsDir(owner, d) && top <= most && Alive(f, p0, o0, page, owner, |free|, d, kmap, sz, top)
      {
        top := Resize(d, sz, sizes[i], f, p0, o0, kmap, top, most);
        if sizes[i] < KPAGES * PGSIZE {
          sz := sizes[i];
        }
      }
      ghost var p1, o1 := page, owner;
      Freevm(d);
      PagesConserved(p0, o0, p1, o1, owner, d);
      forall p: nat ensures p in free <==> p in old(free) {
        assert FreeAt(free, owner, p) && FreeAt(old(free), o0, p);
      }
    }

    /** `growproc`: to a new size, by growing or by shrinking. */
    method Resize(d: nat, sz: nat, newsz: nat, ghost f: nat, ghost p0: seq<Page>, ghost o0: seq<Owner>,
                  ghost kmap: seq<Kmap>, ghost top: nat, ghost most: nat) returns (ghost top': nat)
      requires Valid() && IsDir(owner, d) && KmapOk(kmap) && top <= most <= KPAGES && Up(newsz) <= most && f >= CopyCost(kmap, most)
      requires Alive(f, p0, o0, page, owner, |free|, d, kmap, sz, top)
      modifies this
      ensures Valid() && IsDir(owner, d) && top' <= most
      ensures Alive(f, p0, o0, page, owner, |free|, d, kmap, if newsz < KPAGES * PGSIZE then newsz else sz, top')
    {
      ghost var p1, o1, left := page, owner, |free|;
      top' := top;
      if newsz > sz {
        AliveEnough(f, p0, o0, page, owner, |free|, d, kmap, sz, top, newsz, most);
        forall w: nat | Up(sz) <= w < Up(newsz) && w < KPAGES ensures !Lookup(page, d, w).present {
          assert Unmapped(page, d, w);
        }
        var ok, size := Allocuvm(d, sz, newsz);
        if newsz < KPAGES * PGSIZE {
          AliveGrown(f, p0, o0, p1, o1, left, page, owner, |free|, d, kmap, sz, top, newsz);
          top' := if Up(newsz) > top then Up(newsz) else top;
        }
      } else if newsz < sz {
        Deallocuvm(d, sz, newsz);
        AliveShrunk(f, p0, o0, p1, o1, left, page, owner, |free|, d, kmap, sz, top, newsz);
      }
    }

    /** Free the unfinished child `c`; page `q` of it was lost if `lost`. */
    method Undo(c: nat, ghost p0: seq<Page>, ghost o0: seq<Owner>, ghost p1: seq<Page>, ghost o1: seq<Owner>, ghost lost: bool)
      requires Valid() && IsDir(owner, c) && Sound(p0, o0) && c < |o0| && o0[c].Free? && IsDir(o1, c)
      requires Moves(p0, o0, p1, o1, c)
      requires if lost then LosesOne(p1, o1, page, owner, c) else page == p1 && owner == o1
      modifies this
      ensures Valid() && ContentsKept(p0, o0, page)
      ensures if lost then OneLost(o0, owner) else owner == o0
    {
      if lost {
        forall q: nat ensures TakenAt(o0, o1, q) {
          if q < |o1| {
            assert MovesAt(p0, o0, p1, o1, c, q);
            NotPartYet(p0, o0, c, q);
          }
        }
        LosesAfter(p0, o0, p1, o1, page, owner, c);
      }
      ghost var p2, o2 := page, owner;
      Freevm(c);
      if lost {
        ghost var q := OnePageLess(p0, o0, p2, o2, owner, c);
      } else {
        PagesConserved(p0, o0, p2, o2, owner, c);
      }
      KeptContents(p0, o0, p2, o2, page, c, lost);
    }
  }

  // ---------- Cases in which pages are missed or lost ----------

  /** One page mapped at 4 MB, and a walk from page 1: it goes from there to page 1025. */
  method PageMissed() returns (vm: Vm, d: nat)
    ensures vm.Valid() && IsDir(vm.owner, d) && Misses(vm.page, d, 1, 2 * NPT)
  {
    vm := new Vm(1, 4);
    d := vm.NewSpace();
    ghost var p1 := vm.page;
    var r := vm.AddUser(d, NPT, Fill(0), USER_FLAGS);
    assert GainedTable(p1, vm.page, d, NPT, 1, 0) && Tabled(vm.page, d, NPT / NPT);
    MissedExactly(vm.page, d, 1, 2 * NPT, NPT);
    assert 1 <= NPT < 2 * NPT && Lookup(vm.page, d, NPT).present && !Visits(vm.page, d, 1, 2 * NPT, NPT);
  }

  lemma NothingYet(kmap: seq<Kmap>, page: seq<Page>, d: nat, w: nat)
    requires |kmap| == 0 && w < VPAGES && KernelAt(kmap, |kmap|, page, d, w) && KernelTabled(kmap, |kmap|, page, d, w / NPT)
    ensures Unmapped(page, d, w) && !Tabled(page, d, w / NPT) && KernelTables(kmap, |kmap|) == 0
  {
  }

  /** Two free pages: the directory, and a page frame for which no table can be had. `allocuvm` reports
      success. */
  method GrowthLoses() returns (vm: Vm, d: nat, ok: bool)
    ensures vm.Valid() && IsDir(vm.owner, d) && ok
    ensures Unmapped(vm.page, d, 0) && exists q: nat :: 0 < q < |vm.owner| && vm.owner[q].Lost?
  {
    vm := new Vm(1, 3);
    var kmap: seq<Kmap> := [];
    d := vm.Setupkvm(kmap);
    ghost var p1, o1 := vm.page, vm.owner;
    NothingYet(kmap, p1, d, 0);
    assert |vm.free| == 1 && Up(0) == 0 && Up(1) == 1;
    assert StuckAt(1, p1, d, 0, 0);
    assert Loses(1, p1, d, 0, 1) && Top(1, p1, d, 0, 1) == 0;
    var size;
    ok, size := vm.Allocuvm(d, 0, 1);
    assert GrownAt(p1, vm.page, vm.owner, d, 0, 0, 0);
    ghost var q: nat :| LosesPage(p1, o1, vm.page, vm.owner, d, q);
  }

  /** One free page, and a kernel table to be made: the directory is lost. */
  method SetupLoses() returns (vm: Vm, d: nat)
    ensures vm.Valid() && d == NULL && |vm.owner| == 2 && vm.owner[1].Lost?
  {
    vm := new Vm(1, 2);
    ghost var p0, o0 := vm.page, vm.owner;
    var kmap := [Kmap(KPAGES, 1, 0, 2)];
    assert !Touched(kmap, 0, KPAGES / NPT);
    assert NewTables(kmap, 0, 1) == NewTables(kmap, 0, 0) + 1;
    assert KernelTables(kmap, 1) == KernelTables(kmap, 0) + NewTables(kmap, 0, 1);
    d := vm.Setupkvm(kmap);
    assert LostAt(p0, o0, vm.page, vm.owner, 1);
  }

  /** Two free pages left for the copy of a one-page space: one goes for the directory and comes back,
      the other is lost. */
  method CopyLoses() returns (vm: Vm, c: nat)
    ensures vm.Valid() && c == NULL && exists q: nat :: 0 < q < |vm.owner| && vm.owner[q].Lost?
  {
    vm := new Vm(1, 6);
    var kmap: seq<Kmap> := [];
    var d := vm.Setupkvm(kmap);
    ghost var p1 := vm.page;
    NothingYet(kmap, p1, d, 0);
    assert Missing(p1, d, 0, 1) == Missing(p1, d, 0, 0) + 1;
    assert |vm.free| == 4 && Up(0) == 0 && Up(1) == 1;
    NotStuck(4, p1, d, 0, 1, 1);
    assert Top(4, p1, d, 0, 1) == 1;
    var ok, size := vm.Allocuvm(d, 0, 1);
    assert GrownAt(p1, vm.page, vm.owner, d, 0, 1, 0);
    ghost var o2 := vm.owner;
    assert o2[0].Reserved?;
    assert CopyCost(kmap, 0) + 1 == 2 && 0 % NPT == 0;
    c := vm.Copyuvm(d, 1, kmap);
    ghost var q: nat :| q < |o2| && o2[q].Free? && vm.owner == o2[q := Lost];
    assert q > 0 && vm.owner[q].Lost?;
  }

  /** The page keeps its label, and unless it is the directory, its contents. */
  predicate Untouched(page: seq<Page>, owner: seq<Owner>, page': seq<Page>, owner': seq<Owner>, d: nat, p: nat)
    requires p < |owner|
  {
    p < |owner'| && p < |page| && p < |page'| && owner'[p] == owner[p] && (p != d ==> page'[p] == page[p])
  }
}