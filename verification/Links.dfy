/** Link counts and directory entries, as values. */
module LinkCounts {

  datatype Kind = Unused | File | Directory | Device

  /** What can be linked: files and devices. */
  predicate Plain(kind: Kind) {
    kind == File || kind == Device
  }

  /** Inode number 0 marks a free entry. */
  datatype Entry = Entry(inum: nat, name: string)

  datatype Node = Node(kind: Kind, nlink: nat, entries: seq<Entry>)

  const ROOT: nat := 1
  const FREE: Entry := Entry(0, "")

  predicate Proper(name: string) {
    name != "." && name != ".."
  }

  /** A directory that has not been removed. */
  predicate IsLinked(s: seq<Node>, d: nat) {
    d < |s| && s[d].kind == Directory && s[d].nlink > 0
  }

  /** Entry `k` of the linked directory `d` counts as a link to inode `i`. */
  predicate Counts(s: seq<Node>, d: nat, k: nat, i: nat) {
    IsLinked(s, d) && k < |s[d].entries| && s[d].entries[k].inum == i && s[d].entries[k].name != "."
  }

  ghost function Refs(s: seq<Node>, i: nat): set<(nat, nat)> {
    set d: nat, k: nat | d < |s| && k < |s[d].entries| && Counts(s, d, k, i) :: (d, k)
  }

  // ---------- Invariants ----------

  /** The link count is the number of entries other than "." that name the inode in linked directories. */
  ghost predicate CountOk(s: seq<Node>, i: nat)
    requires i < |s|
  {
    && s[i].nlink == |Refs(s, i)| && (s[i].kind == Unused ==> s[i].nlink == 0)
    && (s[i].kind != Directory ==> s[i].entries == [])
  }

  ghost predicate NamedAt(s: seq<Node>, d: nat, k: nat, c: nat) {
    IsLinked(s, d) && 2 <= k < |s[d].entries| && s[d].entries[k].inum == c
  }

  /** A linked directory starts with "." and ".."; it is named in its parent. */
  ghost predicate DirOk(s: seq<Node>, d: nat) {
    IsLinked(s, d) ==>
      && |s[d].entries| >= 2 && s[d].entries[0] == Entry(d, ".") && s[d].entries[1].name == ".."
      && IsLinked(s, s[d].entries[1].inum)
      && if d == ROOT then s[d].entries[1].inum == ROOT
         else exists k: nat :: NamedAt(s, s[d].entries[1].inum, k, d)
  }

  /** What a used entry says: the dots come first, and behind them only linked directories have any. */
  ghost predicate EntryOk(s: seq<Node>, d: nat, k: nat) {
    d < |s| && s[d].kind == Directory && k < |s[d].entries| && s[d].entries[k].inum != 0 ==>
      if k < 2 then !Proper(s[d].entries[k].name) && s[d].entries[k].inum < |s|
      else
        var c := s[d].entries[k].inum;
        && IsLinked(s, d) && Proper(s[d].entries[k].name) && c < |s| && c != ROOT
        && (s[c].kind == Directory ==> |s[c].entries| >= 2 && s[c].entries[1].inum == d)
  }

  /** Names in a directory are unique, and so is the name of a subdirectory. */
  ghost predicate UniqueOk(s: seq<Node>, d: nat, k: nat, m: nat) {
    IsLinked(s, d) && k < m < |s[d].entries| && s[d].entries[k].inum != 0 && s[d].entries[m].inum != 0 ==>
      && s[d].entries[k].name != s[d].entries[m].name
      && (2 <= k && s[d].entries[k].inum < |s| && s[s[d].entries[k].inum].kind == Directory ==>
            s[d].entries[k].inum != s[d].entries[m].inum)
  }

  ghost predicate Inv(s: seq<Node>) {
    && IsLinked(s, ROOT) && !IsLinked(s, 0)
    && (forall i: nat :: 0 < i < |s| ==> CountOk(s, i))
    && (forall d: nat :: DirOk(s, d))
    && (forall d: nat, k: nat :: EntryOk(s, d, k))
    && (forall d: nat, k: nat, m: nat :: UniqueOk(s, d, k, m))
  }

  lemma RefsHas(s: seq<Node>, i: nat, d: nat, k: nat)
    ensures (d, k) in Refs(s, i) <==> Counts(s, d, k, i)
  {
  }

  // ---------- Changing an entry ----------

  function SetEntry(s: seq<Node>, d: nat, k: nat, e: Entry): seq<Node>
    requires d < |s| && k <= |s[d].entries|
  {
    var es := s[d].entries;
    s[d := s[d].(entries := if k < |es| then es[k := e] else es + [e])]
  }

  function SetLinks(s: seq<Node>, i: nat, n: nat): seq<Node>
    requires i < |s|
  {
    s[i := s[i].(nlink := n)]
  }

  /** Entry `k` of `d` is free, or just behind the last one. */
  predicate FreeSlot(s: seq<Node>, d: nat, k: nat) {
    d < |s| && 2 <= k <= |s[d].entries| && (k < |s[d].entries| ==> s[d].entries[k].inum == 0)
  }

  ghost predicate NewName(s: seq<Node>, d: nat, name: string) {
    d < |s| && forall m: nat :: m < |s[d].entries| && s[d].entries[m].inum != 0 ==> s[d].entries[m].name != name
  }

  // ---------- One entry for one file ----------

  /** Entry `k` of directory `d` comes to name, or no longer names, the file `i`; inode `i` may change. */
  ghost predicate OneEntry(s: seq<Node>, s': seq<Node>, d: nat, k: nat, i: nat) {
    && |s'| == |s| && IsLinked(s, d) && 0 < i < |s| && i != d && i != ROOT
    && s[i].kind != Directory && s'[i].kind != Directory && |s'[i].entries| == 0
    && 2 <= k <= |s[d].entries| && k < |s'[d].entries|
    && s' == SetEntry(s, d, k, s'[d].entries[k])[i := s'[i]]
    && (k < |s[d].entries| ==> s[d].entries[k].inum in {0, i}) && s'[d].entries[k].inum in {0, i}
    && (s'[d].entries[k].inum == i ==> Proper(s'[d].entries[k].name) && NewName(s, d, s'[d].entries[k].name))
  }

  lemma OneEntryDirs(s: seq<Node>, s': seq<Node>, d: nat, k: nat, i: nat, a: nat)
    requires Inv(s) && OneEntry(s, s', d, k, i)
    ensures DirOk(s', a)
  {
    assert DirOk(s, a);
    if IsLinked(s', a) && a != ROOT {
      var p := s[a].entries[1].inum;
      var m: nat :| NamedAt(s, p, m, a);
      assert NamedAt(s', p, m, a);
    }
  }

  lemma OneEntryEntries(s: seq<Node>, s': seq<Node>, d: nat, k: nat, i: nat, a: nat, b: nat)
    requires Inv(s) && OneEntry(s, s', d, k, i)
    ensures EntryOk(s', a, b)
  {
    assert EntryOk(s, a, b);
    assert DirOk(s, a);
  }

  lemma OneEntryUnique(s: seq<Node>, s': seq<Node>, d: nat, k: nat, i: nat, a: nat, b: nat, m: nat)
    requires Inv(s) && OneEntry(s, s', d, k, i)
    ensures UniqueOk(s', a, b, m)
  {
    assert UniqueOk(s, a, b, m) && EntryOk(s, a, b);
  }

  lemma OneEntryKeeps(s: seq<Node>, s': seq<Node>, d: nat, k: nat, i: nat)
    requires Inv(s) && OneEntry(s, s', d, k, i) && forall j: nat :: 0 < j < |s'| ==> CountOk(s', j)
    ensures Inv(s')
  {
    forall a: nat ensures DirOk(s', a) {
      OneEntryDirs(s, s', d, k, i, a);
    }
    forall a: nat, b: nat ensures EntryOk(s', a, b) {
      OneEntryEntries(s, s', d, k, i, a, b);
    }
    forall a: nat, b: nat, m: nat ensures UniqueOk(s', a, b, m) {
      OneEntryUnique(s, s', d, k, i, a, b, m);
    }
  }

  /** Only the references to `i` change, by that one entry. */
  lemma OneEntryRefs(s: seq<Node>, s': seq<Node>, d: nat, k: nat, i: nat, j: nat)
    requires OneEntry(s, s', d, k, i) && j != 0
    ensures Refs(s', j) - {(d, k)} == Refs(s, j) - {(d, k)}
    ensures (d, k) in Refs(s', j) <==> j == i && s'[d].entries[k].inum == i
    ensures (d, k) in Refs(s, j) <==> j == i && k < |s[d].entries| && s[d].entries[k].inum == i && s[d].entries[k].name != "."
  {
    forall a: nat, b: nat | (a, b) != (d, k) ensures Counts(s', a, b, j) <==> Counts(s, a, b, j) {
    }
  }

  lemma SizeWithout(a: set<(nat, nat)>, x: (nat, nat))
    ensures |a - {x}| == if x in a then |a| - 1 else |a|
  {
    if x !in a {
      assert a - {x} == a;
    }
  }

  lemma OneEntryCounts(s: seq<Node>, s': seq<Node>, d: nat, k: nat, i: nat, j: nat)
    requires Inv(s) && OneEntry(s, s', d, k, i) && 0 < j < |s|
    requires s'[i].kind == Unused ==> s'[i].nlink == 0
    requires var more := s'[d].entries[k].inum == i;
      var less := k < |s[d].entries| && s[d].entries[k].inum == i;
      s'[i].nlink == s[i].nlink + (if more then 1 else 0) - (if less then 1 else 0)
    ensures CountOk(s', j)
  {
    assert CountOk(s, j) && EntryOk(s, d, k);
    OneEntryRefs(s, s', d, k, i, j);
    SizeWithout(Refs(s, j), (d, k));
    SizeWithout(Refs(s', j), (d, k));
  }

  lemma OneEntryInv(s: seq<Node>, s': seq<Node>, d: nat, k: nat, i: nat)
    requires Inv(s) && OneEntry(s, s', d, k, i) && (s'[i].kind == Unused ==> s'[i].nlink == 0)
    requires var more := s'[d].entries[k].inum == i;
      var less := k < |s[d].entries| && s[d].entries[k].inum == i;
      s'[i].nlink == s[i].nlink + (if more then 1 else 0) - (if less then 1 else 0)
    ensures Inv(s')
  {
    forall j: nat | 0 < j < |s'| ensures CountOk(s', j) {
      OneEntryCounts(s, s', d, k, i, j);
    }
    OneEntryKeeps(s, s', d, k, i);
  }

  // ---------- A new directory ----------

  function MadeDir(s: seq<Node>, d: nat, k: nat, name: string, c: nat): seq<Node>
    requires d < |s| && k <= |s[d].entries| && c < |s|
  {
    var t := SetLinks(SetEntry(s, d, k, Entry(c, name)), d, s[d].nlink + 1);
    t[c := Node(Directory, 1, [Entry(c, "."), Entry(d, "..")])]
  }

  ghost predicate CanMakeDir(s: seq<Node>, d: nat, k: nat, name: string, c: nat) {
    && IsLinked(s, d) && FreeSlot(s, d, k) && NewName(s, d, name) && Proper(name)
    && 0 < c < |s| && s[c].kind == Unused
  }

  /** Nothing names an unused inode. */
  lemma NobodyNames(s: seq<Node>, c: nat, a: nat, b: nat)
    requires Inv(s) && 0 < c < |s| && s[c].kind == Unused
    ensures !Counts(s, a, b, c)
  {
    assert CountOk(s, c);
    RefsHas(s, c, a, b);
    if Counts(s, a, b, c) {
      SizeWithout(Refs(s, c), (a, b));
    }
  }

  lemma MadeDirRefs(s: seq<Node>, d: nat, k: nat, name: string, c: nat, j: nat)
    requires Inv(s) && CanMakeDir(s, d, k, name, c) && j != 0
    ensures var more: set<(nat, nat)> := if j == c then {(d, k)} else if j == d then {(c, 1)} else {};
      Refs(MadeDir(s, d, k, name, c), j) == Refs(s, j) + more && Refs(s, j) !! more
  {
    var s' := MadeDir(s, d, k, name, c);
    forall a: nat, b: nat
      ensures Counts(s', a, b, j) <==>
        Counts(s, a, b, j) || (j == c && a == d && b == k) || (j == d && a == c && b == 1)
    {
    }
    NobodyNames(s, c, d, k);
  }

  lemma MadeDirCounts(s: seq<Node>, d: nat, k: nat, name: string, c: nat, j: nat)
    requires Inv(s) && CanMakeDir(s, d, k, name, c) && 0 < j < |s|
    ensures CountOk(MadeDir(s, d, k, name, c), j)
  {
    assert CountOk(s, j);
    MadeDirRefs(s, d, k, name, c, j);
  }

  lemma MadeDirDirs(s: seq<Node>, d: nat, k: nat, name: string, c: nat, a: nat)
    requires Inv(s) && CanMakeDir(s, d, k, name, c)
    ensures DirOk(MadeDir(s, d, k, name, c), a)
  {
    var s' := MadeDir(s, d, k, name, c);
    assert DirOk(s, a) && DirOk(s, d);
    if a == c {
      assert NamedAt(s', d, k, c);
    } else if IsLinked(s', a) && a != ROOT {
      var p := s[a].entries[1].inum;
      var m: nat :| NamedAt(s, p, m, a);
      assert NamedAt(s', p, m, a);
    }
  }

  lemma MadeDirEntries(s: seq<Node>, d: nat, k: nat, name: string, c: nat, a: nat, b: nat)
    requires Inv(s) && CanMakeDir(s, d, k, name, c)
    ensures EntryOk(MadeDir(s, d, k, name, c), a, b)
  {
    assert EntryOk(s, a, b) && DirOk(s, d);
    NobodyNames(s, c, a, b);
    if a < |s| && b < |s[a].entries| && s[a].entries[b].inum == d {
      assert DirOk(s, d);
    }
  }

  lemma MadeDirUnique(s: seq<Node>, d: nat, k: nat, name: string, c: nat, a: nat, b: nat, m: nat)
    requires Inv(s) && CanMakeDir(s, d, k, name, c)
    ensures UniqueOk(MadeDir(s, d, k, name, c), a, b, m)
  {
    assert UniqueOk(s, a, b, m) && EntryOk(s, a, b) && EntryOk(s, a, m);
    NobodyNames(s, c, a, b);
    NobodyNames(s, c, a, m);
  }

  lemma MakeDirKeeps(s: seq<Node>, d: nat, k: nat, name: string, c: nat)
    requires Inv(s) && CanMakeDir(s, d, k, name, c)
    ensures Inv(MadeDir(s, d, k, name, c))
  {
    var s' := MadeDir(s, d, k, name, c);
    forall j: nat | 0 < j < |s'| ensures CountOk(s', j) {
      MadeDirCounts(s, d, k, name, c, j);
    }
    forall a: nat ensures DirOk(s', a) {
      MadeDirDirs(s, d, k, name, c, a);
    }
    forall a: nat, b: nat ensures EntryOk(s', a, b) {
      MadeDirEntries(s, d, k, name, c, a, b);
    }
    forall a: nat, b: nat, m: nat ensures UniqueOk(s', a, b, m) {
      MadeDirUnique(s, d, k, name, c, a, b, m);
    }
  }

  // ---------- Removing an empty directory ----------

  ghost predicate IsEmpty(s: seq<Node>, c: nat) {
    c < |s| && forall m: nat :: 2 <= m < |s[c].entries| ==> s[c].entries[m].inum == 0
  }

  ghost predicate CanRemoveDir(s: seq<Node>, d: nat, k: nat, c: nat) {
    NamedAt(s, d, k, c) && 0 < c < |s| && s[c].kind == Directory && IsEmpty(s, c)
  }

  function RemovedDir(s: seq<Node>, d: nat, k: nat, c: nat): seq<Node>
    requires d < |s| && k <= |s[d].entries| && c < |s| && c != d && s[d].nlink > 0 && s[c].nlink > 0
  {
    SetLinks(SetLinks(SetEntry(s, d, k, FREE), d, s[d].nlink - 1), c, s[c].nlink - 1)
  }

  /** The only reference to an empty directory is the entry in its parent. */
  lemma OnlyName(s: seq<Node>, d: nat, k: nat, c: nat)
    requires Inv(s) && CanRemoveDir(s, d, k, c)
    ensures c != d && c != ROOT && Refs(s, c) == {(d, k)} && s[c].nlink == 1 && IsLinked(s, c)
    ensures |s[c].entries| >= 2 && s[c].entries[1] == Entry(d, "..")
  {
    assert EntryOk(s, d, k) && CountOk(s, c);
    RefsHas(s, c, d, k);
    assert Counts(s, d, k, c);
    SizeWithout(Refs(s, c), (d, k));
    assert DirOk(s, c);
    forall a: nat, b: nat ensures Counts(s, a, b, c) <==> a == d && b == k {
      OnlyNameAt(s, d, k, c, a, b);
    }
  }

  lemma OnlyNameAt(s: seq<Node>, d: nat, k: nat, c: nat, a: nat, b: nat)
    requires Inv(s) && CanRemoveDir(s, d, k, c) && IsLinked(s, c)
    ensures Counts(s, a, b, c) <==> a == d && b == k
  {
    assert EntryOk(s, d, k) && DirOk(s, a) && EntryOk(s, a, b) && DirOk(s, c);
    assert UniqueOk(s, d, k, b) && UniqueOk(s, d, b, k);
    if IsLinked(s, a) && a != ROOT {
      var m: nat :| NamedAt(s, s[a].entries[1].inum, m, a);
    }
  }

  /** The parent stays linked: it is named elsewhere too. */
  lemma ParentStays(s: seq<Node>, d: nat, k: nat, c: nat)
    requires Inv(s) && CanRemoveDir(s, d, k, c)
    ensures s[d].nlink >= 2 && (c, 1) in Refs(s, d)
  {
    OnlyName(s, d, k, c);
    assert DirOk(s, d) && CountOk(s, d);
    RefsHas(s, d, c, 1);
    assert Counts(s, c, 1, d);
    SizeWithout(Refs(s, d), (c, 1));
    var y: (nat, nat);
    if d == ROOT {
      y := (ROOT, 1);
    } else {
      var m: nat :| NamedAt(s, s[d].entries[1].inum, m, d);
      assert EntryOk(s, s[d].entries[1].inum, m);
      y := (s[d].entries[1].inum, m);
    }
    RefsHas(s, d, y.0, y.1);
    SizeWithout(Refs(s, d) - {(c, 1)}, y);
  }

  lemma RemovedRefs(s: seq<Node>, d: nat, k: nat, c: nat, j: nat)
    requires Inv(s) && CanRemoveDir(s, d, k, c) && j != 0 && c != d && s[d].nlink >= 2 && s[c].nlink == 1
    requires |s[c].entries| >= 2 && s[c].entries[1] == Entry(d, "..")
    ensures Refs(RemovedDir(s, d, k, c), j) == Refs(s, j) - {(d, k), (c, 1)}
  {
    var s' := RemovedDir(s, d, k, c);
    assert DirOk(s, c);
    forall a: nat, b: nat
      ensures Counts(s', a, b, j) <==> Counts(s, a, b, j) && (a, b) != (d, k) && (a, b) != (c, 1)
    {
    }
  }

  lemma RemovedCounts(s: seq<Node>, d: nat, k: nat, c: nat, j: nat)
    requires Inv(s) && CanRemoveDir(s, d, k, c) && 0 < j < |s|
    ensures c != d && s[d].nlink > 0 && s[c].nlink > 0 && CountOk(RemovedDir(s, d, k, c), j)
  {
    OnlyName(s, d, k, c);
    ParentStays(s, d, k, c);
    RemovedRefs(s, d, k, c, j);
    assert CountOk(s, j) && EntryOk(s, d, k);
    RefsHas(s, j, d, k);
    RefsHas(s, j, c, 1);
    SizeWithout(Refs(s, j), (d, k));
    SizeWithout(Refs(s, j) - {(d, k)}, (c, 1));
    assert Refs(s, j) - {(d, k)} - {(c, 1)} == Refs(s, j) - {(d, k), (c, 1)};
  }

  lemma RemovedDirs(s: seq<Node>, d: nat, k: nat, c: nat, a: nat)
    requires Inv(s) && CanRemoveDir(s, d, k, c)
    requires c != d && c != ROOT && s[d].nlink >= 2 && s[c].nlink == 1 && Refs(s, c) == {(d, k)}
    ensures DirOk(RemovedDir(s, d, k, c), a)
  {
    var s' := RemovedDir(s, d, k, c);
    assert DirOk(s, a) && DirOk(s, d);
    if IsLinked(s', a) {
      var p := s[a].entries[1].inum;
      RefsHas(s, c, a, 1);
      assert Counts(s, a, 1, p);
      if a != ROOT {
        var m: nat :| NamedAt(s, p, m, a);
        assert NamedAt(s', p, m, a);
      }
    }
  }

  lemma RemovedEntries(s: seq<Node>, d: nat, k: nat, c: nat, a: nat, b: nat, m: nat)
    requires Inv(s) && CanRemoveDir(s, d, k, c) && c != d && s[d].nlink >= 2 && s[c].nlink == 1
    ensures EntryOk(RemovedDir(s, d, k, c), a, b) && UniqueOk(RemovedDir(s, d, k, c), a, b, m)
  {
    assert EntryOk(s, a, b) && UniqueOk(s, a, b, m);
    if a < |s| && b < |s[a].entries| && s[a].entries[b].inum == d {
      assert DirOk(s, d);
    }
  }

  lemma RemoveDirKeeps(s: seq<Node>, d: nat, k: nat, c: nat)
    requires Inv(s) && CanRemoveDir(s, d, k, c)
    ensures c != d && s[d].nlink > 0 && s[c].nlink == 1 && Inv(RemovedDir(s, d, k, c))
  {
    OnlyName(s, d, k, c);
    ParentStays(s, d, k, c);
    var s' := RemovedDir(s, d, k, c);
    forall j: nat | 0 < j < |s'| ensures CountOk(s', j) {
      RemovedCounts(s, d, k, c, j);
    }
    forall a: nat ensures DirOk(s', a) {
      RemovedDirs(s, d, k, c, a);
    }
    forall a: nat, b: nat ensures EntryOk(s', a, b) {
      RemovedEntries(s, d, k, c, a, b, 0);
    }
    forall a: nat, b: nat, m: nat ensures UniqueOk(s', a, b, m) {
      RemovedEntries(s, d, k, c, a, b, m);
    }
    assert DirOk(s, ROOT);
  }

  // ---------- Files ----------

  function Linked(s: seq<Node>, d: nat, k: nat, name: string, i: nat): seq<Node>
    requires d < |s| && k <= |s[d].entries| && i < |s|
  {
    SetEntry(SetLinks(s, i, s[i].nlink + 1), d, k, Entry(i, name))
  }

  /** A new entry for `i` in any directory, removed or not. */
  ghost predicate CanAdd(s: seq<Node>, d: nat, k: nat, name: string, i: nat) {
    && 0 < d < |s| && s[d].kind == Directory && k <= |s[d].entries|
    && (k < |s[d].entries| ==> s[d].entries[k].inum == 0) && NewName(s, d, name) && 0 < i < |s|
  }

  /** A new link keeps the counts right exactly when the directory has not been removed. */
  lemma LinkExact(s: seq<Node>, d: nat, k: nat, name: string, i: nat)
    requires Inv(s) && CanAdd(s, d, k, name, i) && Plain(s[i].kind)
    ensures Inv(Linked(s, d, k, name, i)) <==> IsLinked(s, d)
    ensures !IsLinked(s, d) ==> !CountOk(Linked(s, d, k, name, i), i)
  {
    var s' := Linked(s, d, k, name, i);
    assert CountOk(s, i);
    if IsLinked(s, d) {
      LinkedDir(s, d, k, name);
      OneEntryInv(s, s', d, k, i);
    } else {
      forall a: nat, b: nat ensures Counts(s', a, b, i) <==> Counts(s, a, b, i) {
      }
      assert Refs(s', i) == Refs(s, i);
      assert !CountOk(s', i);
    }
  }

  function Unlinked(s: seq<Node>, d: nat, k: nat, i: nat): seq<Node>
    requires d < |s| && k <= |s[d].entries| && i < |s| && s[i].nlink > 0
  {
    var t := SetEntry(s, d, k, FREE);
    SetLinks(t, i, s[i].nlink - 1)
  }

  lemma UnlinkKeeps(s: seq<Node>, d: nat, k: nat, i: nat)
    requires Inv(s) && NamedAt(s, d, k, i) && 0 < i < |s| && s[i].kind != Directory
    ensures s[i].nlink > 0 && Plain(s[i].kind) && Inv(Unlinked(s, d, k, i))
  {
    assert EntryOk(s, d, k) && CountOk(s, i);
    RefsHas(s, i, d, k);
    SizeWithout(Refs(s, i), (d, k));
    OneEntryInv(s, Unlinked(s, d, k, i), d, k, i);
  }

  function MadeFile(s: seq<Node>, d: nat, k: nat, name: string, i: nat, kind: Kind): seq<Node>
    requires d < |s| && k <= |s[d].entries| && i < |s|
  {
    SetEntry(s, d, k, Entry(i, name))[i := Node(kind, 1, [])]
  }

  lemma MakeFileKeeps(s: seq<Node>, d: nat, k: nat, name: string, i: nat, kind: Kind)
    requires Inv(s) && CanMakeDir(s, d, k, name, i) && Plain(kind)
    ensures Inv(MadeFile(s, d, k, name, i, kind))
  {
    assert CountOk(s, i);
    OneEntryInv(s, MadeFile(s, d, k, name, i, kind), d, k, i);
  }

  /** So for a new file: in a removed directory its count would be one too many. */
  lemma MakeFileExact(s: seq<Node>, d: nat, k: nat, name: string, i: nat, kind: Kind)
    requires Inv(s) && CanAdd(s, d, k, name, i) && s[i].kind == Unused && Plain(kind)
    ensures Inv(MadeFile(s, d, k, name, i, kind)) <==> IsLinked(s, d)
  {
    var s' := MadeFile(s, d, k, name, i, kind);
    if IsLinked(s, d) {
      LinkedDir(s, d, k, name);
      MakeFileKeeps(s, d, k, name, i, kind);
    } else {
      forall a: nat, b: nat ensures !Counts(s', a, b, i) {
        NobodyNames(s, i, a, b);
      }
      assert Refs(s', i) == {};
      assert !CountOk(s', i);
    }
  }

  /** And for a new directory: its ".." would bring the removed directory back, without a name. */
  lemma MakeDirExact(s: seq<Node>, d: nat, k: nat, name: string, c: nat)
    requires Inv(s) && CanAdd(s, d, k, name, c) && s[c].kind == Unused
    ensures Inv(MadeDir(s, d, k, name, c)) <==> IsLinked(s, d)
  {
    if IsLinked(s, d) {
      LinkedDir(s, d, k, name);
      MakeDirKeeps(s, d, k, name, c);
    } else {
      var s' := MadeDir(s, d, k, name, c);
      assert IsLinked(s', d) && d != ROOT;
      forall p: nat, m: nat ensures !NamedAt(s', p, m, d) {
        NotNamed(s, d, p, m);
        assert EntryOk(s, d, m);
      }
      assert !DirOk(s', d);
    }
  }

  /** Nothing names a removed directory. */
  lemma NotNamed(s: seq<Node>, d: nat, a: nat, b: nat)
    requires Inv(s) && 0 < d < |s| && s[d].kind == Directory && !IsLinked(s, d)
    ensures !NamedAt(s, a, b, d)
  {
    assert CountOk(s, d);
    assert Refs(s, d) == {};
    if NamedAt(s, a, b, d) {
      assert EntryOk(s, a, b);
      RefsHas(s, d, a, b);
    }
  }

  /** A directory "d" and a file "f" are made in the root and "d" is removed while somebody holds it. The
      counts are right; after a new entry in "d", of any kind, they are not. */
  lemma RemovedButHeld() returns (s: seq<Node>)
    ensures Inv(s) && CanAdd(s, 2, 2, "x", 3) && CanAdd(s, 2, 2, "x", 4) && !IsLinked(s, 2)
    ensures !Inv(Linked(s, 2, 2, "x", 3))
    ensures !Inv(MadeFile(s, 2, 2, "x", 4, File)) && !Inv(MadeDir(s, 2, 2, "x", 4))
  {
    EmptyInv(5);
    var s1 := MadeDir(Empty(5), ROOT, 2, "d", 2);
    MakeDirKeeps(Empty(5), ROOT, 2, "d", 2);
    var s2 := MadeFile(s1, ROOT, 3, "f", 3, File);
    MakeFileKeeps(s1, ROOT, 3, "f", 3, File);
    RemoveDirKeeps(s2, ROOT, 2, 2);
    s := RemovedDir(s2, ROOT, 2, 2);
    LinkExact(s, 2, 2, "x", 3);
    MakeFileExact(s, 2, 2, "x", 4, File);
    MakeDirExact(s, 2, 2, "x", 4);
  }

  /** An inode without links, when nobody holds it any more. */
  lemma ReclaimKeeps(s: seq<Node>, i: nat)
    requires Inv(s) && 0 < i < |s| && s[i].nlink == 0
    ensures Inv(s[i := Node(Unused, 0, [])])
  {
    var s' := s[i := Node(Unused, 0, [])];
    forall j: nat | 0 < j < |s'| ensures CountOk(s', j) {
      assert CountOk(s, j);
      forall a: nat, b: nat ensures Counts(s', a, b, j) <==> Counts(s, a, b, j) {
      }
      assert Refs(s', j) == Refs(s, j);
    }
    forall a: nat ensures DirOk(s', a) {
      assert DirOk(s, a);
      if IsLinked(s', a) && a != ROOT {
        var m: nat :| NamedAt(s, s[a].entries[1].inum, m, a);
        assert NamedAt(s', s[a].entries[1].inum, m, a);
      }
    }
    forall a: nat, b: nat ensures EntryOk(s', a, b) {
      assert EntryOk(s, a, b);
    }
    forall a: nat, b: nat, m: nat ensures UniqueOk(s', a, b, m) {
      assert UniqueOk(s, a, b, m) && EntryOk(s, a, b) && EntryOk(s, a, m);
    }
  }

  /** In a linked directory the first two entries are in use, and a name not present is a proper one. */
  lemma LinkedDir(s: seq<Node>, d: nat, k: nat, name: string)
    requires Inv(s) && IsLinked(s, d) && k <= |s[d].entries| && (k < |s[d].entries| ==> s[d].entries[k].inum == 0)
    requires NewName(s, d, name)
    ensures FreeSlot(s, d, k) && Proper(name)
  {
    assert DirOk(s, d);
    assert s[d].entries[0].inum != 0 && s[d].entries[1].inum != 0;
  }

  /** The file system `mkfs` starts from: a root directory and unused inodes. */
  function Empty(n: nat): seq<Node>
    requires n >= 2
  {
    seq(n, i => if i == ROOT then Node(Directory, 1, [Entry(ROOT, "."), Entry(ROOT, "..")]) else Node(Unused, 0, []))
  }

  lemma EmptyInv(n: nat)
    requires n >= 2
    ensures Inv(Empty(n))
  {
    var s := Empty(n);
    forall i: nat | 0 < i < |s| ensures CountOk(s, i) {
      forall d: nat, k: nat ensures Counts(s, d, k, i) <==> i == ROOT && d == ROOT && k == 1 {
      }
      assert Refs(s, i) == if i == ROOT then {(ROOT, 1)} else {};
    }
  }
}

/** `link`, `unlink` and `create`, from the directory on that the path lookup has found. */
module Directories {
  import opened Common
  import opened LinkCounts

  /** Entry `k` is the one with this name. */
  predicate FoundAt(s: seq<Node>, d: nat, k: nat, name: string) {
    d < |s| && k < |s[d].entries| && s[d].entries[k].inum != 0 && s[d].entries[k].name == name
  }

  /** What entry `k` names is a file or an empty directory. */
  ghost predicate Removable(s: seq<Node>, d: nat, k: nat) {
    && d < |s| && k < |s[d].entries| && s[d].entries[k].inum < |s|
    && (s[s[d].entries[k].inum].kind == Directory ==> IsEmpty(s, s[d].entries[k].inum))
  }

  lemma OnlyFound(s: seq<Node>, d: nat, k: nat, name: string)
    requires Inv(s) && IsLinked(s, d) && FoundAt(s, d, k, name)
    ensures forall m: nat :: FoundAt(s, d, m, name) ==> m == k
  {
    forall m: nat | FoundAt(s, d, m, name) ensures m == k {
      assert UniqueOk(s, d, m, k) && UniqueOk(s, d, k, m);
    }
  }

  /** The name stands at place `k`; its inode is `i` if that is a file and a file is asked for, else there is
      no answer. */
  ghost predicate Opens(s: seq<Node>, d: nat, k: nat, name: string, kind: Kind, i: Option<nat>) {
    && FoundAt(s, d, k, name) && s[d].entries[k].inum < |s|
    && (i.Some? <==> kind == File && s[s[d].entries[k].inum].kind == File)
    && (i.Some? ==> i.value == s[d].entries[k].inum)
  }

  class Dirs {
    var nodes: seq<Node>

    constructor (n: nat)
      requires n >= 2
      ensures Inv(nodes) && nodes == Empty(n)
    {
      nodes := Empty(n);
      EmptyInv(n);
    }

    /** The position of the entry with this name, or -1. */
    method DirLookup(d: nat, name: string) returns (k: int)
      requires d < |nodes|
      ensures k == -1 <==> NewName(nodes, d, name)
      ensures k != -1 ==> 0 <= k && FoundAt(nodes, d, k, name)
    {
      k := 0;
      while k < |nodes[d].entries|
        invariant 0 <= k <= |nodes[d].entries|
        invariant forall m: nat :: m < k && nodes[d].entries[m].inum != 0 ==> nodes[d].entries[m].name != name
      {
        var e := nodes[d].entries[k];
        if e.inum != 0 && e.name == name {
          return;
        }
        k := k + 1;
      }
      k := -1;
    }

    /** Write a new entry into the first free place; refused when the name is present. */
    method DirLink(d: nat, name: string, i: nat) returns (rc: int, k: nat)
      requires d < |nodes|
      modifies this
      ensures rc == if NewName(old(nodes), d, name) then 0 else -1
      ensures rc == -1 ==> nodes == old(nodes)
      ensures rc == 0 ==> k <= |old(nodes)[d].entries| && nodes == SetEntry(old(nodes), d, k, Entry(i, name))
      ensures rc == 0 ==> k == |old(nodes)[d].entries| || old(nodes)[d].entries[k].inum == 0
      ensures rc == 0 ==> |nodes| == |old(nodes)| && k < |nodes[d].entries| && nodes[d].entries[k] == Entry(i, name)
      ensures rc == 0 ==> forall m: nat :: m < |old(nodes)[d].entries| && m != k ==>
        m < |nodes[d].entries| && nodes[d].entries[m] == old(nodes)[d].entries[m]
      ensures rc == 0 ==> forall m: nat :: m < k ==> old(nodes)[d].entries[m].inum != 0
    {
      var found := DirLookup(d, name);
      if found != -1 {
        return -1, 0;
      }
      k := 0;
      while k < |nodes[d].entries| && nodes[d].entries[k].inum != 0
        invariant k <= |nodes[d].entries|
        invariant forall m: nat :: m < k ==> nodes[d].entries[m].inum != 0
      {
        k := k + 1;
      }
      nodes := SetEntry(nodes, d, k, Entry(i, name));
      return 0, k;
    }

    method IsDirEmpty(c: nat) returns (empty: bool)
      requires c < |nodes|
      ensures empty <==> IsEmpty(nodes, c)
    {
      var m := 2;
      while m < |nodes[c].entries|
        invariant 2 <= m
        invariant forall j: nat :: 2 <= j < m && j < |nodes[c].entries| ==> nodes[c].entries[j].inum == 0
      {
        if nodes[c].entries[m].inum != 0 {
          return false;
        }
        m := m + 1;
      }
      return true;
    }

    /** `sys_link` after the lookups of the old path and of the parent of the new one, which may fail.
        The count goes up first and comes down again on failure. */
    method Link(i: nat, parent: Option<nat>, name: string) returns (ok: bool)
      requires Inv(nodes) && 0 < i < |nodes| && nodes[i].kind != Unused
      requires parent.Some? ==> 0 < parent.value < |nodes| && nodes[parent.value].kind == Directory
      modifies this
      ensures ok <==> Plain(old(nodes)[i].kind) && parent.Some? && NewName(old(nodes), parent.value, name)
      ensures Inv(nodes) <==> (ok ==> IsLinked(old(nodes), parent.value))
      ensures !ok ==> nodes == old(nodes)
      ensures ok ==> exists k: nat :: k <= |old(nodes)[parent.value].entries| && nodes == Linked(old(nodes), parent.value, k, name, i)
    {
      ghost var s := nodes;
      if nodes[i].kind == Directory {
        return false;
      }
      nodes := SetLinks(nodes, i, nodes[i].nlink + 1);
      if parent.Some? {
        var rc, k := DirLink(parent.value, name, i);
        if rc == 0 {
          LinkExact(s, parent.value, k, name, i);
          return true;
        }
      }
      nodes := SetLinks(nodes, i, nodes[i].nlink - 1);
      assert nodes == s;
      return false;
    }

    /** `sys_unlink` after the lookup of the parent. The count of the removed inode is positive, and a
        directory goes only when empty, with the count of its parent. */
    method Unlink(d: nat, name: string) returns (ok: bool)
      requires Inv(nodes) && d < |nodes| && nodes[d].kind == Directory
      modifies this
      ensures Inv(nodes)
      ensures ok <==> Proper(name) && exists k: nat :: FoundAt(old(nodes), d, k, name) && Removable(old(nodes), d, k)
      ensures !ok ==> nodes == old(nodes)
      ensures ok ==> NewName(nodes, d, name)
      ensures ok ==> exists k: nat, i: nat :: Erased(old(nodes), nodes, d, k, i, name)
    {
      ghost var s := nodes;
      if name == "." || name == ".." {
        return false;
      }
      var k := DirLookup(d, name);
      if k == -1 {
        return false;
      }
      assert DirOk(nodes, d) && EntryOk(nodes, d, k);
      UnlinkedIsEmpty(nodes, d, k);
      var i := nodes[d].entries[k].inum;
      if nodes[i].kind == Directory {
        var empty := IsDirEmpty(i);
        if !empty {
          OnlyFound(s, d, k, name);
          return false;
        }
        RemoveDirKeeps(s, d, k, i);
      } else {
        UnlinkKeeps(s, d, k, i);
      }
      nodes := SetEntry(nodes, d, k, FREE);
      if nodes[i].kind == Directory {
        nodes := SetLinks(nodes, d, nodes[d].nlink - 1);
      }
      nodes := SetLinks(nodes, i, nodes[i].nlink - 1);
      assert Erased(s, nodes, d, k, i, name) && FoundAt(s, d, k, name) && Removable(s, d, k);
      NameGone(s, nodes, d, k, i, name);
      return true;
    }

    /** The first unused inode, or 0. */
    method Ialloc() returns (i: nat)
      ensures i == 0 ==> forall j: nat :: 0 < j < |nodes| ==> nodes[j].kind != Unused
      ensures i != 0 ==> i < |nodes| && nodes[i].kind == Unused && forall j: nat :: 0 < j < i ==> nodes[j].kind != Unused
    {
      i := 1;
      while i < |nodes|
        invariant 0 < i && forall j: nat :: 0 < j < i && j < |nodes| ==> nodes[j].kind != Unused
      {
        if nodes[i].kind == Unused {
          return;
        }
        i := i + 1;
      }
      return 0;
    }

    /** `create` after the lookup of the parent: an existing file, a new inode with its links, or
        nothing. `panic` when there is no unused inode. */
    method Create(d: nat, name: string, kind: Kind) returns (i: Option<nat>, panic: bool)
      requires Inv(nodes) && 0 < d < |nodes| && nodes[d].kind == Directory && kind != Unused
      modifies this
      ensures Inv(nodes) <==> (!panic && NewName(old(nodes), d, name) ==> IsLinked(old(nodes), d))
      ensures panic <==> NewName(old(nodes), d, name) && forall j: nat :: 0 < j < |old(nodes)| ==> old(nodes)[j].kind != Unused
      ensures panic ==> nodes == old(nodes)
      ensures !NewName(old(nodes), d, name) ==>
        && nodes == old(nodes)
        && exists k: nat :: Opens(nodes, d, k, name, kind, i)
      ensures NewName(old(nodes), d, name) && !panic ==> i.Some? && Made(old(nodes), nodes, d, i.value, name, kind)
    {
      ghost var s := nodes;
      var k := DirLookup(d, name);
      if k != -1 {
        assert EntryOk(nodes, d, k);
        var j := nodes[d].entries[k].inum;
        i := if kind == File && nodes[j].kind == File then Some(j) else None;
        assert Opens(nodes, d, k, name, kind, i);
        return i, false;
      }
      var c := Ialloc();
      if c == 0 {
        return None, true;
      }
      NobodyHas(s, c);
      NewInode(d, c, kind);
      var rc, m := DirLink(d, name, c);
      if kind == Directory {
        assert nodes == MadeDir(s, d, m, name, c);
        MakeDirExact(s, d, m, name, c);
      } else {
        assert nodes == MadeFile(s, d, m, name, c, kind);
        MakeFileExact(s, d, m, name, c, kind);
      }
      return Some(c), false;
    }

    /** The last reference to an inode without links goes: the inode is free. */
    method Reclaim(i: nat)
      requires Inv(nodes) && 0 < i < |nodes| && nodes[i].nlink == 0
      modifies this
      ensures Inv(nodes) && nodes == old(nodes)[i := Node(Unused, 0, [])]
    {
      ReclaimKeeps(nodes, i);
      nodes := nodes[i := Node(Unused, 0, [])];
    }

    /** The new inode itself, with the entries of a new directory. */
    method NewInode(d: nat, c: nat, kind: Kind)
      requires 0 < c < |nodes| && d < |nodes| && c != d && kind != Unused
      modifies this
      ensures Plain(kind) ==> nodes == old(nodes)[c := Node(kind, 1, [])]
      ensures kind == Directory ==>
        nodes == SetLinks(old(nodes), d, old(nodes)[d].nlink + 1)[c := Node(Directory, 1, [Entry(c, "."), Entry(d, "..")])]
    {
      nodes := nodes[c := Node(kind, 1, [])];
      if kind == Directory {
        nodes := SetLinks(nodes, d, nodes[d].nlink + 1);
        DotsMade(old(nodes), d, c);
        var r1, k1 := DirLink(c, ".", c);
        var r2, k2 := DirLink(c, "..", d);
      }
    }
  }

  /** The steps of making a directory's first two entries. */
  lemma DotsMade(s: seq<Node>, d: nat, c: nat)
    requires 0 < c < |s| && d < |s| && c != d
    ensures var s1 := SetLinks(s[c := Node(Directory, 1, [])], d, s[d].nlink + 1);
      && s1[c].entries == []
      && var s2 := SetEntry(s1, c, 0, Entry(c, "."));
      && s2[c].entries == [Entry(c, ".")]
      && SetEntry(s2, c, 1, Entry(d, ".."))
         == SetLinks(s, d, s[d].nlink + 1)[c := Node(Directory, 1, [Entry(c, "."), Entry(d, "..")])]
  {
    var s1 := SetLinks(s[c := Node(Directory, 1, [])], d, s[d].nlink + 1);
    assert s1[c] == Node(Directory, 1, []);
    var s2 := SetEntry(s1, c, 0, Entry(c, "."));
    assert [] + [Entry(c, ".")] == [Entry(c, ".")];
    assert s2[c] == Node(Directory, 1, [Entry(c, ".")]);
    var s3 := SetEntry(s2, c, 1, Entry(d, ".."));
    assert [Entry(c, ".")] + [Entry(d, "..")] == [Entry(c, "."), Entry(d, "..")];
    assert s3[c] == Node(Directory, 1, [Entry(c, "."), Entry(d, "..")]);
  }

  lemma NobodyHas(s: seq<Node>, c: nat)
    requires Inv(s) && 0 < c < |s| && s[c].kind == Unused
    ensures s[c].entries == [] && s[c].nlink == 0
  {
    assert CountOk(s, c);
  }

  /** Entries behind ".." are used only in linked directories. */
  lemma UnlinkedIsEmpty(s: seq<Node>, d: nat, k: nat)
    requires Inv(s) && d < |s| && s[d].kind == Directory && k < |s[d].entries| && s[d].entries[k].inum != 0
    requires Proper(s[d].entries[k].name)
    ensures 2 <= k && IsLinked(s, d) && s[d].entries[k].inum < |s|
  {
    assert DirOk(s, d) && EntryOk(s, d, k);
  }

  ghost predicate Erased(s: seq<Node>, s': seq<Node>, d: nat, k: nat, i: nat, name: string) {
    && d < |s| && k < |s[d].entries| && s[d].entries[k] == Entry(i, name) && 0 < i < |s| && s[i].nlink > 0
    && if s[i].kind == Directory then d != i && s[d].nlink > 0 && s' == RemovedDir(s, d, k, i) else s' == Unlinked(s, d, k, i)
  }

  lemma NameGone(s: seq<Node>, s': seq<Node>, d: nat, k: nat, i: nat, name: string)
    requires Inv(s) && IsLinked(s, d) && Erased(s, s', d, k, i, name)
    ensures NewName(s', d, name)
  {
    OnlyFound(s, d, k, name);
    forall m: nat | m < |s'[d].entries| && s'[d].entries[m].inum != 0 ensures s'[d].entries[m].name != name {
      assert s'[d].entries == s[d].entries[k := FREE] && !FoundAt(s, d, m, name);
    }
  }

  ghost predicate Made(s: seq<Node>, s': seq<Node>, d: nat, i: nat, name: string, kind: Kind) {
    && d < |s| && 0 < i < |s| && s[i].kind == Unused
    && exists k: nat :: k <= |s[d].entries|
         && s' == if kind == Directory then MadeDir(s, d, k, name, i) else MadeFile(s, d, k, name, i, kind)
  }
}
