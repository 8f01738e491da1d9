/** The state lists as the kernel keeps them: a `next` link in every slot, and a head and a tail per
    list. The tail is meaningful only while the head is not null. */
module ProcLinks {
  import opened Common
  import opened ProcTable

  const NULL: int := -1

  function Succ(s: seq<nat>, i: nat): int
    requires i < |s|
  {
    if i + 1 < |s| then s[i + 1] else NULL
  }

  ghost predicate Link(next: seq<int>, s: seq<nat>, i: nat)
    requires i < |s|
  {
    s[i] < |next| && next[s[i]] == Succ(s, i)
  }

  /** The links spell out `s`, ending in null. */
  ghost predicate Chain(next: seq<int>, head: int, tail: int, s: seq<nat>) {
    && (forall i: nat :: i < |s| ==> Link(next, s, i))
    && head == (if s == [] then NULL else s[0])
    && (s != [] ==> tail == s[|s| - 1])
  }

  ghost predicate ApartAt(lists: seq<seq<nat>>, l: nat, i: nat, m: nat, j: nat)
    requires l < |lists| && m < |lists| && i < |lists[l]| && j < |lists[m]|
  {
    l != m || i != j ==> lists[l][i] != lists[m][j]
  }

  /** No slot is on two lists, or twice on one. */
  ghost predicate Apart(lists: seq<seq<nat>>) {
    forall l: nat, m: nat, i: nat, j: nat ::
      l < |lists| && m < |lists| && i < |lists[l]| && j < |lists[m]| ==> ApartAt(lists, l, i, m, j)
  }

  ghost predicate ChainAt(next: seq<int>, head: seq<int>, tail: seq<int>, lists: seq<seq<nat>>, l: nat)
    requires l < |head| && l < |tail| && l < |lists|
  {
    Chain(next, head[l], tail[l], lists[l])
  }

  ghost predicate Chains(next: seq<int>, head: seq<int>, tail: seq<int>, lists: seq<seq<nat>>) {
    && |head| == |lists| && |tail| == |lists| && Apart(lists)
    && forall l: nat :: l < |lists| ==> ChainAt(next, head, tail, lists, l)
  }

  ghost predicate Absent(lists: seq<seq<nat>>, p: int) {
    forall l, i :: 0 <= l < |lists| && 0 <= i < |lists[l]| ==> lists[l][i] != p
  }

  lemma ChainFrame(next: seq<int>, after: seq<int>, head: int, tail: int, s: seq<nat>)
    requires Chain(next, head, tail, s) && |after| == |next|
    requires forall i :: 0 <= i < |s| && s[i] < |next| ==> after[s[i]] == next[s[i]]
    ensures Chain(after, head, tail, s)
  {
    forall i: nat | i < |s| ensures Link(after, s, i) {
      assert Link(next, s, i);
    }
  }

  lemma NotOn(lists: seq<seq<nat>>, l: nat, m: nat, i: nat)
    requires Apart(lists) && l < |lists| && m < |lists| && l != m && i < |lists[m]|
    ensures lists[m][i] !in lists[l]
  {
    forall j: nat | j < |lists[l]| ensures lists[m][i] != lists[l][j] {
      assert ApartAt(lists, m, i, l, j);
    }
  }

  lemma OnceOnList(lists: seq<seq<nat>>, l: nat)
    requires Apart(lists) && l < |lists|
    ensures NoDup(lists[l])
  {
    forall i: nat, j: nat | i < j < |lists[l]| ensures lists[l][i] != lists[l][j] {
      assert ApartAt(lists, l, i, l, j);
    }
  }

  /** Changing the links of slots of list `l` only leaves the other chains alone. */
  lemma OtherChains(next: seq<int>, after: seq<int>, head: seq<int>, tail: seq<int>, lists: seq<seq<nat>>,
                    l: nat, m: nat)
    requires Chains(next, head, tail, lists) && l < |lists| && m < |lists| && m != l && |after| == |next|
    requires forall q: nat :: q < |next| && after[q] != next[q] ==> q in lists[l] || Absent(lists, q)
    ensures Chain(after, head[m], tail[m], lists[m])
  {
    var s := lists[m];
    assert ChainAt(next, head, tail, lists, m);
    forall i | 0 <= i < |s| && s[i] < |next| ensures after[s[i]] == next[s[i]] {
      NotOn(lists, l, m, i);
      assert !Absent(lists, s[i]);
    }
    ChainFrame(next, after, head[m], tail[m], s);
  }

  /** Reassemble all chains from the one that changed. */
  lemma Rechain(next: seq<int>, after: seq<int>, head: seq<int>, tail: seq<int>, lists: seq<seq<nat>>,
                l: nat, h: int, tl: int, s: seq<nat>)
    requires Chains(next, head, tail, lists) && l < |lists| && |after| == |next|
    requires forall q: nat :: q < |next| && after[q] != next[q] ==> q in lists[l] || Absent(lists, q)
    requires Chain(after, h, tl, s) && Apart(lists[l := s])
    ensures Chains(after, head[l := h], tail[l := tl], lists[l := s])
  {
    var h1, t1, l1 := head[l := h], tail[l := tl], lists[l := s];
    forall m: nat | m < |lists| ensures ChainAt(after, h1, t1, l1, m) {
      if m != l {
        OtherChains(next, after, head, tail, lists, l, m);
      }
    }
  }

  lemma AppendApart(lists: seq<seq<nat>>, l: nat, p: nat)
    requires Apart(lists) && l < |lists| && Absent(lists, p)
    ensures Apart(lists[l := lists[l] + [p]])
  {
    var after := lists[l := lists[l] + [p]];
    forall a: nat, b: nat, i: nat, j: nat | a < |after| && b < |after| && i < |after[a]| && j < |after[b]|
      ensures ApartAt(after, a, i, b, j)
    {
      assert i < |lists[a]| && j < |lists[b]| ==> ApartAt(lists, a, i, b, j);
    }
  }

  lemma RemoveApart(lists: seq<seq<nat>>, l: nat, k: nat)
    requires Apart(lists) && l < |lists| && k < |lists[l]|
    ensures var s := lists[l][..k] + lists[l][k + 1..];
      Apart(lists[l := s]) && Absent(lists[l := s], lists[l][k])
  {
    var s := lists[l][..k] + lists[l][k + 1..];
    var after := lists[l := s];
    forall a: nat, b: nat, i: nat, j: nat | a < |after| && b < |after| && i < |after[a]| && j < |after[b]|
      ensures ApartAt(after, a, i, b, j)
    {
      assert ApartAt(lists, a, if a == l && i >= k then i + 1 else i, b, if b == l && j >= k then j + 1 else j);
    }
    forall a: nat, i: nat | a < |after| && i < |after[a]| ensures after[a][i] != lists[l][k] {
      assert ApartAt(lists, a, if a == l && i >= k then i + 1 else i, l, k);
    }
  }

  /** Appending to an empty list. */
  lemma AddFirst(next: seq<int>, head: seq<int>, tail: seq<int>, lists: seq<seq<nat>>, l: nat, p: nat)
    requires Chains(next, head, tail, lists) && l < |lists| && lists[l] == []
    requires p < |next| && Absent(lists, p)
    ensures Chains(next[p := NULL], head[l := p], tail[l := p], lists[l := [p]])
  {
    AppendApart(lists, l, p);
    assert lists[l] + [p] == [p];
    Rechain(next, next[p := NULL], head, tail, lists, l, p, p, [p]);
  }

  /** Appending behind the tail. */
  lemma AddLast(next: seq<int>, head: seq<int>, tail: seq<int>, lists: seq<seq<nat>>, l: nat, p: nat)
    requires Chains(next, head, tail, lists) && l < |lists| && lists[l] != []
    requires p < |next| && Absent(lists, p)
    ensures 0 <= tail[l] < |next|
    ensures Chains(next[tail[l] := p][p := NULL], head, tail[l := p], lists[l := lists[l] + [p]])
  {
    AppendApart(lists, l, p);
    var s := lists[l];
    assert ChainAt(next, head, tail, lists, l) && Link(next, s, |s| - 1);
    var after := next[tail[l] := p][p := NULL];
    OnceOnList(lists, l);
    LastLinked(next, head[l], tail[l], s, p);
    assert tail[l] in s;
    assert head[l := head[l]] == head;
    Rechain(next, after, head, tail, lists, l, head[l], p, s + [p]);
  }

  lemma LastLinked(next: seq<int>, head: int, tail: int, s: seq<nat>, p: nat)
    requires Chain(next, head, tail, s) && s != [] && p < |next| && p !in s && NoDup(s) && tail < |next|
    ensures Chain(next[tail := p][p := NULL], head, p, s + [p])
  {
    var r := s + [p];
    var after := next[tail := p][p := NULL];
    forall i: nat | i < |r| ensures Link(after, r, i) {
      assert i < |s| ==> Link(next, s, i);
    }
  }

  /** Unlinking the head; the tail is left alone. */
  lemma RemoveFirst(next: seq<int>, head: seq<int>, tail: seq<int>, lists: seq<seq<nat>>, l: nat)
    requires Chains(next, head, tail, lists) && l < |lists| && lists[l] != []
    ensures 0 <= head[l] < |next|
    ensures Chains(next, head[l := next[head[l]]], tail, lists[l := lists[l][1..]])
    ensures Absent(lists[l := lists[l][1..]], lists[l][0])
  {
    var s := lists[l];
    assert ChainAt(next, head, tail, lists, l) && Link(next, s, 0);
    RemoveApart(lists, l, 0);
    assert s[..0] + s[1..] == s[1..];
    var rest := s[1..];
    forall i: nat | i < |rest| ensures Link(next, rest, i) {
      assert Link(next, s, i + 1);
    }
    assert tail[l := tail[l]] == tail;
    Rechain(next, next, head, tail, lists, l, next[head[l]], tail[l], s[1..]);
  }

  /** Unlinking the last of several. */
  lemma RemoveLast(next: seq<int>, head: seq<int>, tail: seq<int>, lists: seq<seq<nat>>, l: nat)
    requires Chains(next, head, tail, lists) && l < |lists| && |lists[l]| >= 2
    ensures var s := lists[l]; var n := |s| - 1;
      && s[n] < |next| && s[n - 1] < |next|
      && Chains(next[s[n - 1] := NULL][s[n] := NULL], head, tail[l := s[n - 1]], lists[l := s[..n]])
  {
    var s := lists[l];
    var n := |s| - 1;
    assert ChainAt(next, head, tail, lists, l);
    RemoveApart(lists, l, n);
    assert s[..n] + s[n + 1..] == s[..n];
    OnceOnList(lists, l);
    LastUnlinked(next, head[l], tail[l], s);
    assert head[l := head[l]] == head;
    Rechain(next, next[s[n - 1] := NULL][s[n] := NULL], head, tail, lists, l, head[l], s[n - 1], s[..n]);
  }

  lemma LastUnlinked(next: seq<int>, head: int, tail: int, s: seq<nat>)
    requires Chain(next, head, tail, s) && |s| >= 2 && NoDup(s)
    ensures var n := |s| - 1;
      && s[n] < |next| && s[n - 1] < |next|
      && Chain(next[s[n - 1] := NULL][s[n] := NULL], head, s[n - 1], s[..n])
  {
    var n := |s| - 1;
    assert Link(next, s, n) && Link(next, s, n - 1);
    var rest, after := s[..n], next[s[n - 1] := NULL][s[n] := NULL];
    forall i: nat | i < n ensures Link(after, rest, i) {
      assert Link(next, s, i);
    }
  }

  /** Unlinking from the middle. */
  lemma RemoveMiddle(next: seq<int>, head: seq<int>, tail: seq<int>, lists: seq<seq<nat>>, l: nat, k: nat)
    requires Chains(next, head, tail, lists) && l < |lists| && 0 < k < |lists[l]| - 1
    ensures var s := lists[l];
      && s[k - 1] < |next| && s[k] < |next|
      && Chains(next[s[k - 1] := s[k + 1]][s[k] := NULL], head, tail, lists[l := s[..k] + s[k + 1..]])
  {
    var s := lists[l];
    assert ChainAt(next, head, tail, lists, l);
    RemoveApart(lists, l, k);
    OnceOnList(lists, l);
    MiddleUnlinked(next, head[l], tail[l], s, k);
    assert head[l := head[l]] == head && tail[l := tail[l]] == tail;
    Rechain(next, next[s[k - 1] := s[k + 1]][s[k] := NULL], head, tail, lists, l, head[l], tail[l],
            s[..k] + s[k + 1..]);
  }

  lemma MiddleUnlinked(next: seq<int>, head: int, tail: int, s: seq<nat>, k: nat)
    requires Chain(next, head, tail, s) && 0 < k < |s| - 1 && NoDup(s)
    ensures s[k - 1] < |next| && s[k] < |next|
    ensures Chain(next[s[k - 1] := s[k + 1]][s[k] := NULL], head, tail, s[..k] + s[k + 1..])
  {
    assert Link(next, s, k - 1) && Link(next, s, k);
    var r, after := s[..k] + s[k + 1..], next[s[k - 1] := s[k + 1]][s[k] := NULL];
    forall i: nat | i < |r| ensures Link(after, r, i) {
      assert Link(next, s, if i < k then i else i + 1);
    }
  }

  lemma RemoveRest(s: seq<nat>, k: nat)
    requires NoDup(s) && k < |s|
    ensures |Remove(s, s[k])| == |s| - 1 && Remove(s, s[k])[k..] == s[k..][1..]
  {
    RemoveIs(s, s[k], k);
    assert (s[..k] + s[k + 1..])[k..] == s[k + 1..] == s[k..][1..];
  }

  /** Following the links of a list. */
  lemma Follow(next: seq<int>, head: seq<int>, tail: seq<int>, lists: seq<seq<nat>>, l: nat, i: nat)
    requires Chains(next, head, tail, lists) && l < |lists| && i < |lists[l]|
    ensures lists[l][i] < |next| && next[lists[l][i]] == Succ(lists[l], i)
  {
    assert ChainAt(next, head, tail, lists, l) && Link(next, lists[l], i);
  }

  lemma HeadTail(next: seq<int>, head: seq<int>, tail: seq<int>, lists: seq<seq<nat>>, l: nat)
    requires Chains(next, head, tail, lists) && l < |lists|
    ensures head[l] == (if lists[l] == [] then NULL else lists[l][0])
    ensures lists[l] != [] ==> tail[l] == lists[l][|lists[l]| - 1] && NoDup(lists[l])
  {
    OnceOnList(lists, l);
    assert ChainAt(next, head, tail, lists, l);
  }
}

/** The process table with its linked lists; every method is one piece of a section under
    `ptable.lock`, and is tied to the function of the same name on tables. */
module ProcLists {
  import opened Common
  import opened ProcTable
  import opened ProcLinks
  import F = ProcFields
  import M = ProcMachine

  /** What `wakeup1` does at one sleeper. */
  ghost function WakeOne(c: Config, t: Table, ch: Chan, p: nat): Outcome
    requires Sized(c, t) && p < c.nproc
  {
    var pr := t.proc[p];
    if pr.chan != ch then Ok(t)
    else ProcTable.Relist(c, t, p, SLEEPERS, READY + pr.priority, SLEEPING, pr.(state := RUNNABLE))
  }

  /** What `wakeup1` still has to do at the sleepers `rest`. */
  ghost function WakeRest(c: Config, t: Table, ch: Chan, rest: seq<nat>): Outcome {
    if Sized(c, t) && forall i :: 0 <= i < |rest| ==> rest[i] < c.nproc then Wake(c, t, ch, rest) else Panic
  }

  lemma WakeStep(c: Config, t: Table, ch: Chan, rest: seq<nat>, k: nat)
    requires Sized(c, t) && k < |t.lists[SLEEPERS]| && rest == t.lists[SLEEPERS][k..]
    ensures rest[0] < c.nproc
    ensures var r := WakeOne(c, t, ch, rest[0]);
      WakeRest(c, t, ch, rest) == if r.Ok? then WakeRest(c, r.t, ch, rest[1..]) else Panic
  {
    assert forall i :: 0 <= i < |rest| ==> rest[i] == t.lists[SLEEPERS][k + i];
  }

  // ---------- Promotion, one list at a time ----------

  function Lower(pr: Proc): Proc {
    if pr.priority > 0 then pr.(priority := pr.priority - 1) else pr
  }

  /** The lists after ready lists 1 to `i` have been emptied onto their predecessors in turn. */
  ghost function Raised(c: Config, lists: seq<seq<nat>>, i: nat): (r: seq<seq<nat>>)
    requires |lists| == c.Lists() && i <= c.maxprio
    ensures |r| == c.Lists()
  {
    if i == 0 then lists
    else
      var r := Raised(c, lists, i - 1);
      r[READY + i - 1 := r[READY + i - 1] + r[READY + i]][READY + i := []]
  }

  lemma {:induction false} RaisedAt(c: Config, lists: seq<seq<nat>>, i: nat, l: nat)
    requires |lists| == c.Lists() && i <= c.maxprio && l < c.Lists()
    ensures Raised(c, lists, i)[l] ==
      if i == 0 || l < READY || l > READY + i then lists[l]
      else if l == READY + i then []
      else if l == READY then lists[READY] + lists[READY + 1]
      else lists[l + 1]
  {
    if i > 0 {
      var r := Raised(c, lists, i - 1);
      RaisedAt(c, lists, i - 1, l);
      if l == READY + i - 1 {
        RaisedAt(c, lists, i - 1, l + 1);
        assert i > 1 ==> r[l] + r[l + 1] == r[l + 1];
      }
    }
  }

  /** List by list or all at once, the result is the same. */
  lemma RaisedIsPromoted(c: Config, lists: seq<seq<nat>>)
    requires |lists| == c.Lists()
    ensures Raised(c, lists, c.maxprio) == PromotedLists(c, lists)
  {
    var r, s := Raised(c, lists, c.maxprio), PromotedLists(c, lists);
    forall l: nat | l < c.Lists() ensures r[l] == s[l] {
      RaisedAt(c, lists, c.maxprio, l);
    }
  }

  ghost predicate OnReady(c: Config, lists: seq<seq<nat>>, i: nat, q: nat)
    requires |lists| == c.Lists() && i <= c.maxprio
  {
    i > 0 && (q in lists[READY + i] || OnReady(c, lists, i - 1, q))
  }

  lemma {:induction false} OnReadyPlace(c: Config, t: Table, i: nat, q: nat)
    requires Sized(c, t) && Partition(c, t) && i <= c.maxprio && q < c.nproc
    ensures OnReady(c, t.lists, i, q) <==> READY < Place(c, t, q) <= READY + i
  {
    if i > 0 {
      OnReadyPlace(c, t, i - 1, q);
      assert PlacedAt(c, t, READY + i, q);
    }
  }

  ghost predicate RightList(c: Config, t: Table, i: nat, q: nat)
    requires Sized(c, t) && i <= c.maxprio && q < c.nproc
  {
    q in t.lists[READY + i] ==> t.proc[q].priority == i
  }

  ghost predicate RightLists(c: Config, t: Table)
    requires Sized(c, t)
  {
    forall i: nat, q: nat :: 0 < i <= c.maxprio && q < c.nproc ==> RightList(c, t, i, q)
  }

  /** `pr` is process `q` after ready lists 1 to `i` have been raised. */
  ghost predicate RaisedProc(c: Config, t: Table, i: nat, q: nat, pr: Proc)
    requires Sized(c, t) && i <= c.maxprio && q < c.nproc
  {
    pr == if OnReady(c, t.lists, i, q) then Lower(t.proc[q]) else t.proc[q]
  }

  lemma RaisedOnce(c: Config, t: Table, i: nat, q: nat, mid: Proc, after: Proc)
    requires Sized(c, t) && RightLists(c, t) && 0 < i <= c.maxprio && q < c.nproc
    requires RaisedProc(c, t, i - 1, q, mid)
    requires after == if q in t.lists[READY + i] then Lower(mid) else mid
    ensures RaisedProc(c, t, i, q, after)
    ensures q in t.lists[READY + i] ==> mid.priority == i
  {
    assert RightList(c, t, i, q);
    if OnReady(c, t.lists, i - 1, q) {
      ReadyPriority(c, t, i - 1, q);
    }
  }

  /** A process on a ready list up to `i` has a priority up to `i`. */
  lemma {:induction false} ReadyPriority(c: Config, t: Table, i: nat, q: nat)
    requires Sized(c, t) && RightLists(c, t) && i <= c.maxprio && q < c.nproc && OnReady(c, t.lists, i, q)
    ensures t.proc[q].priority <= i
  {
    assert RightList(c, t, i, q);
    if q !in t.lists[READY + i] {
      ReadyPriority(c, t, i - 1, q);
    }
  }

  /** Who is visited by the three passes of a promotion, by state. */
  lemma PromotedByList(c: Config, t: Table, q: nat)
    requires Sized(c, t) && Partition(c, t) && q < c.nproc
    ensures var a := if q in t.lists[RUNNERS] then Lower(t.proc[q]) else t.proc[q];
      var b := if OnReady(c, t.lists, c.maxprio, q) then Lower(a) else a;
      Promoted(t, q) == if q in t.lists[SLEEPERS] then Lower(b) else b
  {
    OnReadyPlace(c, t, c.maxprio, q);
    assert PlacedAt(c, t, RUNNERS, q) && PlacedAt(c, t, SLEEPERS, q) && PlacedAt(c, t, READY, q);
  }

  lemma PromotionOk(c: Config, t: Table)
    requires Sized(c, t) && Partition(c, t)
    ensures ProcTable.Promote(c, t).Ok?
  {
    forall l: nat, i: nat | READY < l < c.Lists() && i < |t.lists[l]|
      ensures READY + t.proc[t.lists[l][i]].priority == l
    {
      Found(c, t, l, t.lists[l][i]);
    }
  }

  lemma RaiseStep(lists: seq<seq<nat>>, i: nat, a: seq<nat>, b: seq<nat>, k: nat)
    requires 0 < i && READY + i < |lists| && k < |b|
    ensures var r := lists[READY + i - 1 := a + b[..k]][READY + i := b[k..]];
      && r[READY + i] == b[k..] && b[k..][1..] == b[k + 1..] && b[..k] + [b[k]] == b[..k + 1]
      && r[READY + i := b[k + 1..]][READY + i - 1 := r[READY + i - 1] + [b[k]]]
         == lists[READY + i - 1 := a + b[..k + 1]][READY + i := b[k + 1..]]
  {
    assert a + b[..k] + [b[k]] == a + b[..k + 1];
  }

  // ---------- Searches ----------

  function Slot(found: Option<nat>): int {
    if found.Some? then found.value else NULL
  }

  lemma {:induction false} FindPidAppend(t: Table, a: seq<nat>, b: seq<nat>, pid: nat)
    requires forall i :: 0 <= i < |a| ==> a[i] < |t.proc|
    requires forall i :: 0 <= i < |b| ==> b[i] < |t.proc|
    ensures forall i :: 0 <= i < |a + b| ==> (a + b)[i] < |t.proc|
    ensures FindPid(t, a + b, pid) == if FindPid(t, a, pid).Some? then FindPid(t, a, pid) else FindPid(t, b, pid)
  {
    if a == [] {
      assert a + b == b;
    } else {
      FindPidAppend(t, a[1..], b, pid);
      assert (a + b)[1..] == a[1..] + b;
    }
  }

  lemma Suffixes(s: seq<nat>, k: nat)
    requires k <= |s|
    ensures k < |s| ==> s[k..] != [] && s[k..][0] == s[k] && s[k..][1..] == s[k + 1..]
    ensures s[0..] == s
  {
  }

  ghost predicate NoChildOn(c: Config, t: Table, l: nat, p: nat)
    requires Sized(c, t) && l < c.Lists() && p < c.nproc
  {
    FindChild(t, t.lists[l], p).None?
  }

  lemma NoKids(c: Config, t: Table, p: nat)
    requires Sized(c, t) && p < c.nproc
    requires forall l: nat :: l < c.Lists() && l != FREE && l != ZOMBIES ==> NoChildOn(c, t, l, p)
    ensures !HasKids(c, t, p)
  {
    forall l: nat, i: nat | l < c.Lists() && l != FREE && l != ZOMBIES && i < |t.lists[l]|
      ensures !IsChild(t, t.lists[l][i], p)
    {
      assert NoChildOn(c, t, l, p);
    }
  }

  lemma ChildOnList(c: Config, t: Table, l: nat, p: nat)
    requires Sized(c, t) && l < c.Lists() && l != FREE && l != ZOMBIES && p < c.nproc
    requires FindChild(t, t.lists[l], p).Some?
    ensures HasKids(c, t, p)
  {
    var q := FindChild(t, t.lists[l], p).value;
    var i :| 0 <= i < |t.lists[l]| && t.lists[l][i] == q;
    assert IsChild(t, t.lists[l][i], p);
  }

  // ---------- exit, one list at a time ----------

  /** The children of `p` among `s` are handed to init. */
  function Adopt(t: Table, s: seq<nat>, p: nat): Table {
    t.(proc := seq(|t.proc|, q requires 0 <= q < |t.proc| => if q in s then Orphan(t.proc[q], p) else t.proc[q]))
  }

  lemma AdoptTwice(t: Table, a: seq<nat>, b: seq<nat>, p: nat)
    ensures Adopt(Adopt(t, a, p), b, p) == Adopt(t, a + b, p)
  {
    assert Adopt(Adopt(t, a, p), b, p).proc == Adopt(t, a + b, p).proc;
  }

  lemma AdoptNext(t: Table, s: seq<nat>, k: nat, p: nat)
    requires k < |s| && s[k] < |t.proc|
    ensures var r := Adopt(t, s[..k], p);
      r.(proc := r.proc[s[k] := Orphan(r.proc[s[k]], p)]) == Adopt(t, s[..k + 1], p)
  {
    var r := Adopt(t, s[..k], p);
    assert r.proc[s[k] := Orphan(r.proc[s[k]], p)] == Adopt(t, s[..k + 1], p).proc;
  }

  function AdoptAfter(o: Outcome, s: seq<nat>, p: nat): Outcome {
    if o.Ok? then Ok(Adopt(o.t, s, p)) else Panic
  }

  /** A wakeup does not look at parents. */
  lemma WakeOneAdopts(c: Config, t: Table, s: seq<nat>, p: nat, ch: Chan, q: nat)
    requires Sized(c, t) && q < c.nproc
    ensures Sized(c, Adopt(t, s, p))
    ensures WakeOne(c, Adopt(t, s, p), ch, q) == AdoptAfter(WakeOne(c, t, ch, q), s, p)
  {
    var a, pr := Adopt(t, s, p), t.proc[q].(state := RUNNABLE);
    assert a.proc[q := a.proc[q].(state := RUNNABLE)] == Adopt(t.(proc := t.proc[q := pr]), s, p).proc;
  }

  lemma WakeFirst(c: Config, t: Table, ch: Chan, ps: seq<nat>)
    requires Sized(c, t) && ps != [] && forall i :: 0 <= i < |ps| ==> ps[i] < c.nproc
    ensures var o := WakeOne(c, t, ch, ps[0]);
      Wake(c, t, ch, ps) == if o.Ok? then Wake(c, o.t, ch, ps[1..]) else Panic
  {
  }

  lemma {:induction false} WakeAdopts(c: Config, t: Table, s: seq<nat>, p: nat, ch: Chan, ps: seq<nat>)
    requires Sized(c, t) && Sized(c, Adopt(t, s, p)) && forall i :: 0 <= i < |ps| ==> ps[i] < c.nproc
    ensures Wake(c, Adopt(t, s, p), ch, ps) == AdoptAfter(Wake(c, t, ch, ps), s, p)
    decreases |ps|
  {
    if ps != [] {
      WakeOneAdopts(c, t, s, p, ch, ps[0]);
      WakeFirst(c, t, ch, ps);
      WakeFirst(c, Adopt(t, s, p), ch, ps);
      var o := WakeOne(c, t, ch, ps[0]);
      if o.Ok? {
        WakeAdopts(c, o.t, s, p, ch, ps[1..]);
      }
    }
  }

  /** A wakeup on a channel nobody sleeps on changes nothing. */
  lemma {:induction false} WakeNone(c: Config, t: Table, ch: Chan, ps: seq<nat>)
    requires Sized(c, t) && forall i :: 0 <= i < |ps| ==> ps[i] < c.nproc && t.proc[ps[i]].chan != ch
    ensures Wake(c, t, ch, ps) == Ok(t)
    decreases |ps|
  {
    if ps != [] {
      WakeNone(c, t, ch, ps[1..]);
    }
  }

  lemma {:induction false} WakeKeepsZombies(c: Config, t: Table, ch: Chan, ps: seq<nat>)
    requires Sized(c, t) && forall i :: 0 <= i < |ps| ==> ps[i] < c.nproc
    requires Wake(c, t, ch, ps).Ok?
    ensures Wake(c, t, ch, ps).t.lists[ZOMBIES] == t.lists[ZOMBIES]
    decreases |ps|
  {
    if ps != [] {
      var q, pr := ps[0], t.proc[ps[0]];
      if pr.chan != ch {
        WakeKeepsZombies(c, t, ch, ps[1..]);
      } else {
        WakeKeepsZombies(c, Move(t, q, SLEEPERS, READY + pr.priority, pr.(state := RUNNABLE)), ch, ps[1..]);
      }
    }
  }

  /** After a wakeup nobody sleeps on the channel. */
  lemma WokenUp(c: Config, t: Table, w: Table, ch: Chan)
    requires Shape(c, t) && Partition(c, t) && ProcTable.Wakeup(c, t, ch) == Ok(w)
    ensures Sized(c, w) && forall i :: 0 <= i < |w.lists[SLEEPERS]| ==> w.proc[w.lists[SLEEPERS][i]].chan != ch
  {
    M.WakeupOk(c, t, ch);
    forall i | 0 <= i < |w.lists[SLEEPERS]| ensures w.proc[w.lists[SLEEPERS][i]].chan != ch {
      var q := w.lists[SLEEPERS][i];
      Found(c, w, SLEEPERS, q);
      assert w.proc[q] == M.Woken(t.proc[q], ch);
    }
  }

  /** One zombie child more, and a wakeup of init; only the first wakeup has an effect. */
  lemma ZombieStep(c: Config, base: Table, w: Table, s: seq<nat>, found: bool, p: nat)
    requires Shape(c, base) && Partition(c, base) && ProcTable.Wakeup(c, base, OfProc(INIT)) == Ok(w)
    ensures var t := Adopt(if found then w else base, s, p);
      Sized(c, t) && ProcTable.Wakeup(c, t, OfProc(INIT)) == Ok(Adopt(w, s, p))
  {
    if found {
      WokenUp(c, base, w, OfProc(INIT));
      var t := Adopt(w, s, p);
      WakeNone(c, t, OfProc(INIT), t.lists[SLEEPERS]);
    } else {
      WakeAdopts(c, base, s, p, OfProc(INIT), base.lists[SLEEPERS]);
    }
  }

  ghost predicate ZombieChild(t: Table, s: seq<nat>, p: nat, k: nat) {
    exists i :: 0 <= i < k && i < |s| && s[i] < |t.proc| && t.proc[s[i]].parent == Some(p)
  }

  /** The first `k` zombies have been gone through; `found` says whether one was a child of `p`. */
  ghost predicate Adopted(base: Table, w: Table, t: Table, s: seq<nat>, p: nat, k: nat, found: bool) {
    k <= |s| && t == Adopt(if found then w else base, s[..k], p) && (found <==> ZombieChild(base, s, p, k))
  }

  lemma MoreZombies(t: Table, s: seq<nat>, p: nat, k: nat)
    requires k < |s| && s[k] < |t.proc|
    ensures ZombieChild(t, s, p, k + 1) <==> ZombieChild(t, s, p, k) || t.proc[s[k]].parent == Some(p)
  {
  }

  /** A wakeup of init leaves the zombies. */
  lemma InitWakes(c: Config, t: Table) returns (w: Table)
    requires Shape(c, t) && Partition(c, t)
    ensures ProcTable.Wakeup(c, t, OfProc(INIT)) == Ok(w) && |w.lists| == |t.lists| && w.lists[ZOMBIES] == t.lists[ZOMBIES]
  {
    M.WakeupOk(c, t, OfProc(INIT));
    w := ProcTable.Wakeup(c, t, OfProc(INIT)).t;
    WakeKeepsZombies(c, t, OfProc(INIT), t.lists[SLEEPERS]);
  }

  lemma AdoptNobody(t: Table, s: seq<nat>, p: nat)
    ensures Adopt(t, s[..0], p) == t
  {
    assert Adopt(t, s[..0], p).proc == t.proc;
  }

  /** The lists `exit` goes through before the zombies. */
  function Others(c: Config, t: Table): (s: seq<nat>)
    requires Sized(c, t)
    ensures forall i :: 0 <= i < |s| ==> s[i] < c.nproc
  {
    t.lists[RUNNERS] + AllReady(c, t, 0) + t.lists[EMBRYOS] + t.lists[SLEEPERS]
  }

  lemma {:induction false} OnAllReady(c: Config, t: Table, i: nat, j: nat, q: nat)
    requires Sized(c, t) && i <= j <= c.maxprio && q in t.lists[READY + j]
    ensures q in AllReady(c, t, i)
    decreases j - i
  {
    if i < j {
      OnAllReady(c, t, i + 1, j, q);
    }
  }

  lemma OnOthers(c: Config, t: Table, q: nat)
    requires Shape(c, t) && Partition(c, t) && q < c.nproc
    ensures q in Others(c, t) <==> t.proc[q].state != UNUSED && t.proc[q].state != ZOMBIE
  {
    OnOwnList(c, t, q);
    if t.proc[q].state == RUNNABLE {
      OnAllReady(c, t, 0, Place(c, t, q) - READY, q);
    } else if q in AllReady(c, t, 0) {
      M.AllReadyRunnable(c, t, 0, q);
    }
    assert PlacedAt(c, t, RUNNERS, q) && PlacedAt(c, t, EMBRYOS, q) && PlacedAt(c, t, SLEEPERS, q);
  }

  lemma ReadyNext(c: Config, t: Table, done: seq<nat>, i: nat)
    requires Sized(c, t) && i <= c.maxprio
    ensures done + AllReady(c, t, i) == done + t.lists[READY + i] + AllReady(c, t, i + 1)
  {
  }

  /** Going through the lists reaches every child. */
  lemma AllAdopted(c: Config, t: Table, p: nat)
    requires Shape(c, t) && Partition(c, t)
    requires forall q :: 0 <= q < c.nproc && t.proc[q].state == UNUSED ==> t.proc[q].parent != Some(p)
    ensures Adopt(Adopt(t, Others(c, t), p), t.lists[ZOMBIES], p) == Reparent(t, p)
  {
    AdoptTwice(t, Others(c, t), t.lists[ZOMBIES], p);
    forall q: nat | q < c.nproc
      ensures Adopt(t, Others(c, t) + t.lists[ZOMBIES], p).proc[q] == Reparent(t, p).proc[q]
    {
      OnOthers(c, t, q);
      assert PlacedAt(c, t, ZOMBIES, q);
    }
    assert Adopt(t, Others(c, t) + t.lists[ZOMBIES], p).proc == Reparent(t, p).proc;
  }

  /** Zombie children before the exit are the ones found in the last pass. */
  lemma SameZombies(c: Config, t: Table, woken: Table, ch: Chan, p: nat)
    requires Shape(c, t) && Partition(c, t) && ProcTable.Wakeup(c, t, ch) == Ok(woken)
    requires Shape(c, woken) && Partition(c, woken)
    ensures var base := Adopt(woken, Others(c, woken), p);
      ZombieChild(base, woken.lists[ZOMBIES], p, |woken.lists[ZOMBIES]|) <==> HasZombieChild(c, t, p)
  {
    WakeKeepsZombies(c, t, ch, t.lists[SLEEPERS]);
    M.WakeupOk(c, t, ch);
    var base, s := Adopt(woken, Others(c, woken), p), t.lists[ZOMBIES];
    forall i | 0 <= i < |s| ensures base.proc[s[i]].parent == t.proc[s[i]].parent {
      Found(c, woken, ZOMBIES, s[i]);
      OnOthers(c, woken, s[i]);
      assert woken.proc[s[i]] == M.Woken(t.proc[s[i]], ch);
    }
  }

  // ---------- Start ----------

  function Blank(): Proc {
    Proc(UNUSED, 0, None, NoChan, false, 0, 0, None)
  }

  function Upto(n: nat): (s: seq<nat>)
    ensures |s| == n && forall i :: 0 <= i < n ==> s[i] == i
  {
    if n == 0 then [] else Upto(n - 1) + [n - 1]
  }

  lemma EmptyChains(next: seq<int>, head: seq<int>, tail: seq<int>, lists: seq<seq<nat>>)
    requires |head| == |lists| && |tail| == |lists|
    requires forall l :: 0 <= l < |lists| ==> head[l] == NULL && lists[l] == []
    ensures Chains(next, head, tail, lists)
  {
    forall l: nat | l < |lists| ensures ChainAt(next, head, tail, lists, l) {
      assert head[l] == NULL && lists[l] == [];
    }
  }

  lemma InitialLists(c: Config, t: Table)
    requires Sized(c, t) && t.lists[FREE] == Upto(c.nproc)[1..] && t.lists[READY] == [INIT]
    requires forall l :: 0 <= l < c.Lists() && l != FREE && l != READY ==> t.lists[l] == []
    requires t.proc[INIT].state == RUNNABLE && t.proc[INIT].priority == 0
    requires forall p :: 0 < p < c.nproc ==> t.proc[p].state == UNUSED
    ensures Shape(c, t) && Partition(c, t)
  {
    var free := Upto(c.nproc)[1..];
    forall l: nat, p: nat | l < c.Lists() && p < c.nproc ensures PlacedAt(c, t, l, p) {
      assert p > 0 ==> free[p - 1] == p;
      assert l != FREE && l != READY ==> t.lists[l] == [];
    }
    assert NoDup(free);
  }

  /** A process with this pid is on one of the lists that `kill` searches. */
  ghost predicate KillFinds(c: Config, t: Table, pid: nat)
    requires Sized(c, t)
  {
    FindPid(t, t.lists[RUNNERS] + t.lists[SLEEPERS] + AllReady(c, t, 0) + t.lists[ZOMBIES] + t.lists[EMBRYOS], pid).Some?
  }

  lemma KillMeans(c: Config, t: Table, pid: nat)
    requires Sized(c, t)
    ensures M.Inv(c, t) ==> ProcTable.Kill(c, t, pid).Ok? && forall p: nat :: F.Kills(t, ProcTable.Kill(c, t, pid).t, p, pid)
    ensures M.Inv(c, t) ==> (KillFinds(c, t, pid) <==> exists p: nat :: F.HasPid(t, p, pid))
  {
    if M.Inv(c, t) {
      forall p: nat ensures ProcTable.Kill(c, t, pid).Ok? && F.Kills(t, ProcTable.Kill(c, t, pid).t, p, pid) {
        F.KillFields(c, t, pid, p);
      }
      F.KillFields(c, t, pid, 0);
      F.SearchFinds(c, t, pid);
    }
  }

  lemma PriorityMeans(c: Config, t: Table, pid: nat, priority: int)
    requires Sized(c, t)
    ensures M.Inv(c, t) ==>
      var r := ProcTable.SetPriority(c, t, pid, priority); r.Ok? && forall p: nat :: F.SetsPriority(c, t, r.t, p, pid, priority)
  {
    if M.Inv(c, t) {
      var r := ProcTable.SetPriority(c, t, pid, priority);
      F.SetPriorityFields(c, t, pid, priority, 0);
      forall p: nat ensures F.SetsPriority(c, t, r.t, p, pid, priority) {
        F.SetPriorityFields(c, t, pid, priority, p);
      }
    }
  }

  class PTable {
    const c: Config
    const proc: array<Proc>
    const next: array<int>
    const head: array<int>
    const tail: array<int>
    var cpus: seq<Option<nat>>
    var nextpid: nat

    /** The table this represents. */
    ghost var t: Table

    ghost predicate Valid()
      reads this, proc, next, head, tail
    {
      && next.Length == c.nproc && proc.Length == c.nproc && head.Length == c.Lists() && tail.Length == c.Lists()
      && next != head && next != tail && head != tail
      && Sized(c, t) && Chains(next[..], head[..], tail[..], t.lists)
      && proc[..] == t.proc && cpus == t.cpus && nextpid == t.nextpid
    }

    // ---------- Start ----------

    /** All slots unused, then `userinit`. */
    constructor (c: Config)
      requires c.Valid()
      ensures this.c == c && Valid() && M.Initial(c, t)
      ensures fresh(proc) && fresh(next) && fresh(head) && fresh(tail)
    {
      this.c := c;
      proc := new Proc[c.nproc](_ => Blank());
      next := new int[c.nproc](_ => NULL);
      head := new int[c.Lists()](_ => NULL);
      tail := new int[c.Lists()](_ => NULL);
      cpus := seq(c.ncpu, _ => None);
      nextpid := 1;
      t := Table(seq(c.nproc, _ => Blank()), seq(c.Lists(), _ => []), seq(c.ncpu, _ => None), 1);
      new;
      EmptyChains(next[..], head[..], tail[..], t.lists);
      InitFreeList();
      UserInit();
    }

    method InitFreeList()
      requires Valid() && t.lists == seq(c.Lists(), _ => [])
      modifies `t, next, head, tail
      ensures Valid() && t == old(t).(lists := old(t.lists)[FREE := Upto(c.nproc)])
    {
      ghost var lists := t.lists;
      assert lists == lists[FREE := Upto(0)];
      for p := 0 to c.nproc
        invariant Valid() && t == old(t).(lists := lists[FREE := Upto(p)])
      {
        StateListAdd(FREE, p);
      }
    }

    method UserInit()
      requires Valid() && nextpid == 1 && t.lists == seq(c.Lists(), l requires 0 <= l < c.Lists() => if l == FREE then Upto(c.nproc) else [])
      requires cpus == seq(c.ncpu, _ => None)
      requires forall p :: 0 <= p < c.nproc ==> t.proc[p] == Blank()
      modifies `t, `nextpid, proc, next, head, tail
      ensures Valid() && M.Initial(c, t)
    {
      ghost var lists := t.lists;
      assert Upto(c.nproc)[0] == 0;
      var ok := Relist(INIT, FREE, EMBRYOS, UNUSED,
                       proc[INIT].(state := EMBRYO, budget := c.budget, priority := 0, pid := nextpid));
      nextpid := nextpid + 1;
      t := t.(nextpid := t.nextpid + 1);
      assert t.lists[EMBRYOS] == [INIT];
      ok := Relist(INIT, EMBRYOS, READY, EMBRYO, proc[INIT].(state := RUNNABLE));
      assert t.lists == lists[FREE := Upto(c.nproc)[1..]][READY := [INIT]];
      InitialLists(c, t);
    }

    // ---------- One list ----------

    method StateListAdd(l: nat, p: nat)
      requires Valid() && l < c.Lists() && p < c.nproc && Absent(t.lists, p)
      modifies `t, next, head, tail
      ensures Valid() && t == old(t).(lists := old(t.lists)[l := old(t.lists)[l] + [p]])
    {
      ghost var n, h, tl := next[..], head[..], tail[..];
      HeadTail(n, h, tl, t.lists, l);
      if head[l] == NULL {
        AddFirst(n, h, tl, t.lists, l, p);
        head[l] := p;
        tail[l] := p;
        next[p] := NULL;
        assert t.lists[l] + [p] == [p];
        assert next[..] == n[p := NULL] && head[..] == h[l := p] && tail[..] == tl[l := p];
      } else {
        AddLast(n, h, tl, t.lists, l, p);
        next[tail[l]] := p;
        tail[l] := next[tail[l]];
        next[tail[l]] := NULL;
        assert next[..] == n[tl[l] := p][p := NULL] && head[..] == h && tail[..] == tl[l := p];
      }
      t := t.(lists := t.lists[l := t.lists[l] + [p]]);
    }

    /** Walk from the head to `p`; `k` is its position. */
    method Walk(l: nat, p: int) returns (previous: int, current: int, ghost k: nat)
      requires Valid() && l < c.Lists()
      ensures k <= |t.lists[l]|
      ensures current == (if k < |t.lists[l]| then t.lists[l][k] else NULL)
      ensures k > 0 ==> previous == t.lists[l][k - 1]
      ensures current == NULL <==> k == |t.lists[l]|
      ensures k < |t.lists[l]| ==> current == p
      ensures forall i :: 0 <= i < k ==> t.lists[l][i] != p
    {
      HeadTail(next[..], head[..], tail[..], t.lists, l);
      previous, current, k := NULL, head[l], 0;
      ghost var s := t.lists[l];
      while current != NULL
        invariant k <= |s| && current == (if k < |s| then s[k] else NULL)
        invariant k > 0 ==> previous == s[k - 1]
        invariant forall i :: 0 <= i < k ==> s[i] != p
        decreases |s| - k
      {
        if current == p {
          break;
        }
        Follow(next[..], head[..], tail[..], t.lists, l, k);
        previous := current;
        current := next[current];
        k := k + 1;
      }
    }

    method StateListRemove(l: nat, p: int) returns (rc: int)
      requires Valid() && l < c.Lists() && NULL <= p < c.nproc
      modifies `t, next, head, tail
      ensures rc == if p in old(t.lists[l]) then 0 else -1
      ensures rc == -1 ==> t == old(t)
      ensures rc == 0 ==> t == old(t).(lists := old(t.lists)[l := Remove(old(t.lists)[l], p)]) && Absent(t.lists, p)
      ensures Valid()
    {
      ghost var s := t.lists[l];
      HeadTail(next[..], head[..], tail[..], t.lists, l);
      if head[l] == NULL || tail[l] == NULL || p == NULL {
        return -1;
      }
      if head[l] == p {
        UnlinkHead(l);
        return 0;
      }
      var previous, current, k := Walk(l, p);
      if current == NULL {
        return -1;
      }
      RemoveIs(s, p, k);
      Unlink(l, k, previous, current);
      return 0;
    }

    method UnlinkHead(l: nat)
      requires Valid() && l < c.Lists() && t.lists[l] != []
      modifies `t, head
      ensures Valid() && t == old(t).(lists := old(t.lists)[l := old(t.lists)[l][1..]])
      ensures Absent(t.lists, old(t.lists)[l][0])
    {
      ghost var n, h, tl, s := next[..], head[..], tail[..], t.lists[l];
      HeadTail(n, h, tl, t.lists, l);
      RemoveFirst(n, h, tl, t.lists, l);
      head[l] := next[head[l]];
      assert head[..] == h[l := n[h[l]]];
      t := t.(lists := t.lists[l := s[1..]]);
    }

    method Unlink(l: nat, ghost k: nat, previous: int, current: int)
      requires Valid() && l < c.Lists() && 0 < k < |t.lists[l]|
      requires previous == t.lists[l][k - 1] && current == t.lists[l][k]
      modifies `t, next, tail
      ensures Valid() && t == old(t).(lists := old(t.lists)[l := old(t.lists)[l][..k] + old(t.lists)[l][k + 1..]])
      ensures Absent(t.lists, current)
    {
      RemoveApart(t.lists, l, k);
      ghost var n, h, tl, s := next[..], head[..], tail[..], t.lists[l];
      HeadTail(n, h, tl, t.lists, l);
      Follow(n, h, tl, t.lists, l, k);
      Follow(n, h, tl, t.lists, l, k - 1);
      if current == tail[l] {
        RemoveLast(n, h, tl, t.lists, l);
        tail[l] := previous;
        next[tail[l]] := NULL;
        next[current] := NULL;
        assert s[..k] + s[k + 1..] == s[..k];
        assert next[..] == n[previous := NULL][current := NULL] && tail[..] == tl[l := previous];
      } else {
        RemoveMiddle(n, h, tl, t.lists, l, k);
        next[previous] := next[current];
        next[current] := NULL;
        assert next[..] == n[previous := s[k + 1]][current := NULL];
      }
      assert head[..] == h;
      t := t.(lists := t.lists[l := s[..k] + s[k + 1..]]);
    }

    // ---------- Changing a process ----------

    method Put(p: nat, pr: Proc)
      requires Valid() && p < c.nproc && pr.priority <= c.maxprio
      modifies `t, proc
      ensures Valid() && t == old(t).(proc := old(t.proc)[p := pr])
    {
      ghost var was := proc[..];
      proc[p] := pr;
      assert proc[..] == was[p := pr];
      t := t.(proc := t.proc[p := pr]);
    }

    /** Remove from one list, check the state, change the process, append to another list. The
        kernel adds up the return codes and panics on a failure; so does a failing check. */
    method Relist(p: nat, from: nat, to: nat, was: PState, pr: Proc) returns (ok: bool)
      requires Valid() && p < c.nproc && from < c.Lists() && to < c.Lists() && pr.priority <= c.maxprio
      modifies `t, proc, next, head, tail
      ensures ok <==> ProcTable.Relist(c, old(t), p, from, to, was, pr).Ok?
      ensures ok ==> Valid() && ProcTable.Relist(c, old(t), p, from, to, was, pr) == Ok(t)
    {
      var rc := StateListRemove(from, p);
      if rc != 0 || proc[p].state != was {
        return false;
      }
      Put(p, pr);
      StateListAdd(to, p);
      return true;
    }

    method Charge(p: nat, used: int) returns (ok: bool)
      requires Valid() && p < c.nproc
      modifies `t, proc, next, head, tail
      ensures ok <==> ProcTable.Charge(c, old(t), p, used).Ok?
      ensures ok ==> Valid() && ProcTable.Charge(c, old(t), p, used) == Ok(t)
    {
      var pr := proc[p].(budget := proc[p].budget - used);
      if pr.budget >= 1 {
        Put(p, pr);
        return true;
      }
      pr := pr.(budget := c.budget);
      if pr.priority < c.maxprio {
        pr := pr.(priority := pr.priority + 1);
        if pr.state == RUNNABLE {
          ok := Relist(p, READY + pr.priority - 1, READY + pr.priority, RUNNABLE, pr);
          return;
        }
      }
      Put(p, pr);
      return true;
    }

    /** Up to the switch to the scheduler. */
    method Sched(cpu: nat, p: nat, used: int) returns (ok: bool)
      requires Valid() && cpu < c.ncpu && p < c.nproc
      modifies `t, `cpus, proc, next, head, tail
      ensures ok <==> ProcTable.Sched(c, old(t), cpu, p, used).Ok?
      ensures ok ==> Valid() && ProcTable.Sched(c, old(t), cpu, p, used) == Ok(t)
    {
      if proc[p].state == RUNNING {
        return false;
      }
      cpus := cpus[cpu := None];
      t := t.(cpus := t.cpus[cpu := None]);
      ok := Charge(p, used);
    }

    method Yield(cpu: nat, p: nat, used: int) returns (ok: bool)
      requires Valid() && Runs(c, t, cpu, p)
      modifies `t, `cpus, proc, next, head, tail
      ensures ok <==> ProcTable.Yield(c, old(t), cpu, p, used).Ok?
      ensures ok ==> Valid() && ProcTable.Yield(c, old(t), cpu, p, used) == Ok(t)
    {
      var pr := proc[p].(state := RUNNABLE);
      ok := Relist(p, RUNNERS, READY + pr.priority, RUNNING, pr);
      if ok {
        ok := Sched(cpu, p, used);
      }
    }

    method Sleep(cpu: nat, p: nat, ch: Chan, used: int) returns (ok: bool)
      requires Valid() && Runs(c, t, cpu, p)
      modifies `t, `cpus, proc, next, head, tail
      ensures ok <==> ProcTable.Sleep(c, old(t), cpu, p, ch, used).Ok?
      ensures ok ==> Valid() && ProcTable.Sleep(c, old(t), cpu, p, ch, used) == Ok(t)
    {
      ok := Relist(p, RUNNERS, SLEEPERS, RUNNING, proc[p].(state := SLEEPING, chan := ch));
      if ok {
        ok := Sched(cpu, p, used);
      }
    }

    /** The loop reads the link of a sleeper before it may move it away. */
    method Wakeup(ch: Chan) returns (ok: bool)
      requires Valid()
      modifies `t, proc, next, head, tail
      ensures ok <==> ProcTable.Wakeup(c, old(t), ch).Ok?
      ensures ok ==> Valid() && ProcTable.Wakeup(c, old(t), ch) == Ok(t)
    {
      HeadTail(next[..], head[..], tail[..], t.lists, SLEEPERS);
      var curr := head[SLEEPERS];
      ghost var k: nat, rest, goal := 0, t.lists[SLEEPERS], WakeRest(c, t, ch, t.lists[SLEEPERS]);
      while curr != NULL
        invariant Valid() && k <= |t.lists[SLEEPERS]| && t.lists[SLEEPERS][k..] == rest
        invariant curr == (if rest == [] then NULL else rest[0])
        invariant WakeRest(c, t, ch, rest) == goal
        decreases |rest|
      {
        WakeStep(c, t, ch, rest, k);
        ok, curr, k := WakeRound(ch, curr, k);
        if !ok {
          return;
        }
        rest := rest[1..];
      }
      return true;
    }

    /** Sleeper number `k`. */
    method WakeRound(ch: Chan, p: nat, ghost k: nat) returns (ok: bool, curr: int, ghost k': nat)
      requires Valid() && k < |t.lists[SLEEPERS]| && p == t.lists[SLEEPERS][k]
      modifies `t, proc, next, head, tail
      ensures ok <==> WakeOne(c, old(t), ch, p).Ok?
      ensures ok ==> Valid() && WakeOne(c, old(t), ch, p) == Ok(t)
      ensures ok ==> k' <= |t.lists[SLEEPERS]| && t.lists[SLEEPERS][k'..] == old(t.lists)[SLEEPERS][k..][1..]
      ensures curr == Succ(old(t.lists)[SLEEPERS], k)
    {
      ghost var s := t.lists[SLEEPERS];
      Follow(next[..], head[..], tail[..], t.lists, SLEEPERS, k);
      curr := next[p];
      if proc[p].chan == ch {
        HeadTail(next[..], head[..], tail[..], t.lists, SLEEPERS);
        RemoveRest(s, k);
        ok := Relist(p, SLEEPERS, READY + proc[p].priority, SLEEPING, proc[p].(state := RUNNABLE));
        k' := k;
      } else {
        ok, k' := true, k + 1;
      }
    }

    method FirstReady() returns (j: nat)
      requires Valid()
      ensures j == match ProcTable.FirstReady(c, t, 0) case None => c.maxprio + 1 case Some(i) => i
    {
      j := 0;
      while j < c.maxprio + 1
        invariant j <= c.maxprio + 1 && ProcTable.FirstReady(c, t, 0) == ProcTable.FirstReady(c, t, j)
      {
        HeadTail(next[..], head[..], tail[..], t.lists, READY + j);
        if head[READY + j] != NULL {
          return;
        }
        j := j + 1;
      }
    }

    method Pick(cpu: nat) returns (ok: bool)
      requires Valid() && cpu < c.ncpu && cpus[cpu] == None
      modifies `t, `cpus, proc, next, head, tail
      ensures ok <==> ProcTable.Pick(c, old(t), cpu).Ok?
      ensures ok ==> Valid() && ProcTable.Pick(c, old(t), cpu) == Ok(t)
    {
      var j := FirstReady();
      if j > c.maxprio {
        return true;
      }
      HeadTail(next[..], head[..], tail[..], t.lists, READY + j);
      var p := head[READY + j];
      ok := Relist(p, READY + j, RUNNERS, RUNNABLE, proc[p].(state := RUNNING, chan := NoChan));
      if ok {
        cpus := cpus[cpu := Some(p)];
        t := t.(cpus := t.cpus[cpu := Some(p)]);
      }
    }

    // ---------- fork ----------

    method AllocProc(cpu: nat, p: nat) returns (ok: bool, e: int)
      requires Valid() && Runs(c, t, cpu, p)
      modifies `t, `nextpid, proc, next, head, tail
      ensures ok <==> ProcTable.AllocProc(c, old(t), cpu, p).Ok?
      ensures ok ==> Valid() && ProcTable.AllocProc(c, old(t), cpu, p) == Ok(t)
      ensures ok ==> (e == NULL <==> old(t.lists)[FREE] == [])
      ensures ok && e != NULL ==> e == old(t.lists)[FREE][0]
    {
      HeadTail(next[..], head[..], tail[..], t.lists, FREE);
      e := head[FREE];
      if e == NULL {
        return true, NULL;
      }
      ok := Relist(e, FREE, EMBRYOS, UNUSED,
                   proc[e].(state := EMBRYO, budget := c.budget, priority := 0, pid := nextpid));
      if ok {
        nextpid := nextpid + 1;
        t := t.(nextpid := t.nextpid + 1);
        Put(p, proc[p].(making := Some(e)));
      }
    }

    method AbortFork(p: nat, e: nat) returns (ok: bool)
      requires Valid() && p < c.nproc && e < c.nproc
      modifies `t, proc, next, head, tail
      ensures ok <==> ProcTable.AbortFork(c, old(t), p, e).Ok?
      ensures ok ==> Valid() && ProcTable.AbortFork(c, old(t), p, e) == Ok(t)
    {
      ok := Relist(e, EMBRYOS, FREE, EMBRYO, proc[e].(state := UNUSED));
      if ok {
        Put(p, proc[p].(making := None));
      }
    }

    method FinishFork(p: nat, e: nat) returns (ok: bool)
      requires Valid() && p < c.nproc && e < c.nproc
      modifies `t, proc, next, head, tail
      ensures ok <==> ProcTable.FinishFork(c, old(t), p, e).Ok?
      ensures ok ==> Valid() && ProcTable.FinishFork(c, old(t), p, e) == Ok(t)
    {
      var prio := proc[p].priority;
      ok := Relist(e, EMBRYOS, READY + prio, EMBRYO, proc[e].(state := RUNNABLE, priority := prio));
      if ok {
        Put(p, proc[p].(making := None));
      }
    }

    // ---------- Promotion ----------

    /** Lower the priority of every process on a list. */
    method LowerAll(l: nat)
      requires Valid() && l < c.Lists()
      modifies `t, proc
      ensures Valid() && t == old(t).(proc := t.proc)
      ensures forall q: nat :: q < c.nproc ==>
        t.proc[q] == if q in t.lists[l] then Lower(old(t.proc)[q]) else old(t.proc)[q]
    {
      HeadTail(next[..], head[..], tail[..], t.lists, l);
      var curr := head[l];
      ghost var s, k: nat := t.lists[l], 0;
      while curr != NULL
        invariant Valid() && t == old(t).(proc := t.proc) && k <= |s|
        invariant curr == if k < |s| then s[k] else NULL
        invariant forall q: nat :: q < c.nproc ==>
          t.proc[q] == if q in s[..k] then Lower(old(t.proc)[q]) else old(t.proc)[q]
        decreases |s| - k
      {
        Follow(next[..], head[..], tail[..], t.lists, l, k);
        assert s[..k + 1] == s[..k] + [s[k]];
        assert s[k] !in s[..k];
        Put(curr, Lower(proc[curr]));
        curr := next[curr];
        k := k + 1;
      }
      assert s[..k] == s;
    }

    /** Move one process from the head of ready list `i` to the end of the one before. */
    method RaiseHead(i: nat) returns (curr: int)
      requires Valid() && 0 < i <= c.maxprio && t.lists[READY + i] != []
      requires t.proc[t.lists[READY + i][0]].priority == i
      modifies `t, proc, next, head, tail
      ensures Valid() && curr == (if t.lists[READY + i] == [] then NULL else t.lists[READY + i][0])
      ensures var b := old(t.lists)[READY + i];
        && t.lists == old(t.lists)[READY + i := b[1..]][READY + i - 1 := old(t.lists)[READY + i - 1] + [b[0]]]
        && t == old(t).(lists := t.lists, proc := old(t.proc)[b[0] := Lower(old(t.proc)[b[0]])])
    {
      HeadTail(next[..], head[..], tail[..], t.lists, READY + i);
      var p := head[READY + i];
      var _ := StateListRemove(READY + i, p);
      Put(p, Lower(proc[p]));
      StateListAdd(READY + i - 1, p);
      HeadTail(next[..], head[..], tail[..], t.lists, READY + i);
      curr := head[READY + i];
    }

    /** The panic of the kernel on a process with another priority cannot happen here. */
    method RaiseList(i: nat)
      requires Valid() && 0 < i <= c.maxprio
      requires forall q :: q in t.lists[READY + i] ==> t.proc[q].priority == i
      modifies `t, proc, next, head, tail
      ensures Valid() && t == old(t).(lists := t.lists, proc := t.proc)
      ensures t.lists == old(t.lists)[READY + i - 1 := old(t.lists)[READY + i - 1] + old(t.lists)[READY + i]][READY + i := []]
      ensures forall q: nat :: q < c.nproc ==>
        t.proc[q] == if q in old(t.lists)[READY + i] then Lower(old(t.proc)[q]) else old(t.proc)[q]
    {
      HeadTail(next[..], head[..], tail[..], t.lists, READY + i);
      var curr := head[READY + i];
      ghost var lists, a, b, k: nat := t.lists, t.lists[READY + i - 1], t.lists[READY + i], 0;
      assert a + b[..0] == a && b[0..] == b;
      assert lists == lists[READY + i - 1 := a + b[..0]][READY + i := b[0..]];
      while curr != NULL
        invariant Valid() && t == old(t).(lists := t.lists, proc := t.proc) && k <= |b|
        invariant t.lists == lists[READY + i - 1 := a + b[..k]][READY + i := b[k..]]
        invariant curr == if k < |b| then b[k] else NULL
        invariant forall q: nat :: q < c.nproc ==>
          t.proc[q] == if q in b[..k] then Lower(old(t.proc)[q]) else old(t.proc)[q]
        decreases |b| - k
      {
        RaiseStep(lists, i, a, b, k);
        assert b[k] in b && b[k] !in b[..k];
        curr := RaiseHead(i);
        k := k + 1;
      }
      assert b[..k] == b && b[k..] == [];
    }

    /** Each priority list but the first, in turn. */
    method RaiseAll()
      requires Valid() && RightLists(c, t)
      modifies `t, proc, next, head, tail
      ensures Valid() && t == old(t).(lists := PromotedLists(c, old(t.lists)), proc := t.proc)
      ensures forall q: nat :: q < c.nproc ==> RaisedProc(c, old(t), c.maxprio, q, t.proc[q])
    {
      ghost var was := t;
      for i := 1 to c.maxprio + 1
        invariant Valid() && t == was.(lists := Raised(c, was.lists, i - 1), proc := t.proc)
        invariant forall q: nat :: q < c.nproc ==> RaisedProc(c, was, i - 1, q, t.proc[q])
      {
        RaisedAt(c, was.lists, i - 1, READY + i);
        ghost var mid := t.proc;
        forall q: nat | q < c.nproc
          ensures q in was.lists[READY + i] ==> mid[q].priority == i
          ensures RaisedProc(c, was, i, q, if q in was.lists[READY + i] then Lower(mid[q]) else mid[q])
        {
          RaisedOnce(c, was, i, q, mid[q], if q in was.lists[READY + i] then Lower(mid[q]) else mid[q]);
        }
        RaiseList(i);
      }
      RaisedIsPromoted(c, was.lists);
    }

    method Promote()
      requires Valid() && Shape(c, t) && Partition(c, t)
      modifies `t, proc, next, head, tail
      ensures Valid() && ProcTable.Promote(c, old(t)) == Ok(t)
    {
      ghost var was := t;
      LowerAll(RUNNERS);
      forall i: nat, q: nat | 0 < i <= c.maxprio && q < c.nproc ensures RightList(c, t, i, q) {
        assert PlacedAt(c, was, READY + i, q) && PlacedAt(c, was, RUNNERS, q);
      }
      RaiseAll();
      LowerAll(SLEEPERS);
      forall q: nat | q < c.nproc ensures t.proc[q] == Promoted(was, q) {
        PromotedByList(c, was, q);
      }
      PromotionOk(c, was);
    }

    // ---------- Searches ----------

    method FindOn(l: nat, pid: nat) returns (curr: int)
      requires Valid() && l < c.Lists()
      ensures curr == Slot(FindPid(t, t.lists[l], pid))
    {
      HeadTail(next[..], head[..], tail[..], t.lists, l);
      curr := head[l];
      ghost var s, k: nat := t.lists[l], 0;
      Suffixes(s, 0);
      while curr != NULL
        invariant k <= |s| && curr == if k < |s| then s[k] else NULL
        invariant FindPid(t, s, pid) == FindPid(t, s[k..], pid)
        decreases |s| - k
      {
        Suffixes(s, k);
        if proc[curr].pid == pid {
          return;
        }
        Follow(next[..], head[..], tail[..], t.lists, l, k);
        curr := next[curr];
        k := k + 1;
      }
    }

    method FindReady(pid: nat) returns (curr: int, i: nat)
      requires Valid()
      ensures curr == Slot(FindPid(t, AllReady(c, t, 0), pid))
      ensures curr != NULL ==> i <= c.maxprio && curr in t.lists[READY + i]
    {
      i := 0;
      while i < c.maxprio + 1
        invariant i <= c.maxprio + 1
        invariant FindPid(t, AllReady(c, t, 0), pid) == FindPid(t, AllReady(c, t, i), pid)
      {
        FindPidAppend(t, t.lists[READY + i], AllReady(c, t, i + 1), pid);
        curr := FindOn(READY + i, pid);
        if curr != NULL {
          return;
        }
        i := i + 1;
      }
      curr := NULL;
    }

    method FindChildOn(l: nat, p: nat) returns (curr: int)
      requires Valid() && l < c.Lists() && p < c.nproc
      ensures curr == Slot(FindChild(t, t.lists[l], p))
    {
      HeadTail(next[..], head[..], tail[..], t.lists, l);
      curr := head[l];
      ghost var s, k: nat := t.lists[l], 0;
      Suffixes(s, 0);
      while curr != NULL
        invariant k <= |s| && curr == if k < |s| then s[k] else NULL
        invariant FindChild(t, s, p) == FindChild(t, s[k..], p)
        decreases |s| - k
      {
        Suffixes(s, k);
        var parent := proc[curr].parent;
        if parent.Some? && parent.value < c.nproc && proc[parent.value].pid == proc[p].pid {
          return;
        }
        Follow(next[..], head[..], tail[..], t.lists, l, k);
        curr := next[curr];
        k := k + 1;
      }
    }

    // ---------- kill and setpriority ----------

    /** The searches of `kill`, in order; only the second finds a sleeper. */
    lemma KillScan(pid: nat)
      requires Valid()
      ensures var scan := t.lists[RUNNERS] + t.lists[SLEEPERS] + AllReady(c, t, 0) + t.lists[ZOMBIES] + t.lists[EMBRYOS];
        var a, b := FindPid(t, t.lists[RUNNERS], pid), FindPid(t, t.lists[SLEEPERS], pid);
        var r, z := FindPid(t, AllReady(c, t, 0), pid), FindPid(t, t.lists[ZOMBIES], pid);
        var e := FindPid(t, t.lists[EMBRYOS], pid);
        && (forall i :: 0 <= i < |scan| ==> scan[i] < c.nproc)
        && FindPid(t, scan, pid) == (if a.Some? then a else if b.Some? then b else if r.Some? then r
                                     else if z.Some? then z else e)
        && (a.Some? ==> a.value !in t.lists[SLEEPERS])
        && (b.None? && r.Some? ==> r.value !in t.lists[SLEEPERS])
        && (b.None? && z.Some? ==> z.value !in t.lists[SLEEPERS])
        && (b.None? && e.Some? ==> e.value !in t.lists[SLEEPERS])
    {
      var s4 := t.lists[RUNNERS] + t.lists[SLEEPERS];
      FindPidAppend(t, t.lists[RUNNERS], t.lists[SLEEPERS], pid);
      FindPidAppend(t, s4, AllReady(c, t, 0), pid);
      FindPidAppend(t, s4 + AllReady(c, t, 0), t.lists[ZOMBIES], pid);
      FindPidAppend(t, s4 + AllReady(c, t, 0) + t.lists[ZOMBIES], t.lists[EMBRYOS], pid);
      var a := FindPid(t, t.lists[RUNNERS], pid);
      if a.Some? {
        var i: nat :| i < |t.lists[RUNNERS]| && t.lists[RUNNERS][i] == a.value;
        NotOn(t.lists, SLEEPERS, RUNNERS, i);
      }
    }

    /** `rc` is the return value: 0 when a process was found, else -1. */
    method Kill(pid: nat) returns (ok: bool, rc: int)
      requires Valid()
      modifies `t, proc, next, head, tail
      ensures ok <==> ProcTable.Kill(c, old(t), pid).Ok?
      ensures ok ==> Valid() && ProcTable.Kill(c, old(t), pid) == Ok(t)
      ensures ok && rc == -1 ==> t == old(t)
      ensures ok ==> rc in {0, -1} && (rc == 0 <==> KillFinds(c, old(t), pid))
      ensures M.Inv(c, old(t)) ==> ok && (rc == 0 <==> exists p: nat :: F.HasPid(old(t), p, pid))
      ensures M.Inv(c, old(t)) ==> forall p: nat :: F.Kills(old(t), t, p, pid)
    {
      KillMeans(c, t, pid);
      KillScan(pid);
      var p := FindOn(RUNNERS, pid);
      if p == NULL {
        p := FindOn(SLEEPERS, pid);
        if p != NULL {
          ok := Relist(p, SLEEPERS, READY, SLEEPING, proc[p].(killed := true, state := RUNNABLE));
          return ok, 0;
        }
        var i: nat;
        p, i := FindReady(pid);
      }
      if p == NULL {
        p := FindOn(ZOMBIES, pid);
      }
      if p == NULL {
        p := FindOn(EMBRYOS, pid);
      }
      if p == NULL {
        return true, -1;
      }
      Put(p, proc[p].(killed := true));
      return true, 0;
    }

    lemma PriorityScan(pid: nat)
      requires Valid()
      ensures var scan := t.lists[RUNNERS] + AllReady(c, t, 0) + t.lists[SLEEPERS];
        var a, r, b := FindPid(t, t.lists[RUNNERS], pid), FindPid(t, AllReady(c, t, 0), pid), FindPid(t, t.lists[SLEEPERS], pid);
        && (forall i :: 0 <= i < |scan| ==> scan[i] < c.nproc)
        && FindPid(t, scan, pid) == (if a.Some? then a else if r.Some? then r else b)
    {
      FindPidAppend(t, t.lists[RUNNERS], AllReady(c, t, 0), pid);
      FindPidAppend(t, t.lists[RUNNERS] + AllReady(c, t, 0), t.lists[SLEEPERS], pid);
    }

    /** `rc` is the return value: 0 when a process was found, -1 otherwise or when out of range. */
    method SetPriority(pid: nat, priority: int) returns (ok: bool, rc: int)
      requires Valid() && Partition(c, t)
      modifies `t, proc, next, head, tail
      ensures ok <==> ProcTable.SetPriority(c, old(t), pid, priority).Ok?
      ensures ok ==> Valid() && ProcTable.SetPriority(c, old(t), pid, priority) == Ok(t)
      ensures ok ==>
        var scan := old(t.lists)[RUNNERS] + AllReady(c, old(t), 0) + old(t.lists)[SLEEPERS];
        && (forall i :: 0 <= i < |scan| ==> scan[i] < c.nproc)
        && rc == if 0 <= priority <= c.maxprio && FindPid(old(t), scan, pid).Some? then 0 else -1
      ensures M.Inv(c, old(t)) ==> ok && forall p: nat :: F.SetsPriority(c, old(t), t, p, pid, priority)
    {
      PriorityMeans(c, t, pid, priority);
      PriorityScan(pid);
      if priority < 0 || priority > c.maxprio {
        return true, -1;
      }
      ok, rc := SetByPid(pid, priority);
    }

    /** The searches, and the change to what they find. */
    method SetByPid(pid: nat, priority: nat) returns (ok: bool, rc: int)
      requires Valid() && Partition(c, t) && priority <= c.maxprio
      modifies `t, proc, next, head, tail
      ensures ok <==> ProcTable.SetPriority(c, old(t), pid, priority).Ok?
      ensures ok ==> Valid() && ProcTable.SetPriority(c, old(t), pid, priority) == Ok(t)
      ensures ok ==>
        var scan := old(t.lists)[RUNNERS] + AllReady(c, old(t), 0) + old(t.lists)[SLEEPERS];
        && (forall i :: 0 <= i < |scan| ==> scan[i] < c.nproc)
        && rc == if FindPid(old(t), scan, pid).Some? then 0 else -1
    {
      PriorityScan(pid);
      var p := FindOn(RUNNERS, pid);
      if p != NULL {
        Found(c, t, RUNNERS, p);
        assert PlacedAt(c, t, SLEEPERS, p);
        ok := SetOn(p, RUNNERS, RUNNING, priority);
        return ok, 0;
      }
      var i: nat;
      p, i := FindReady(pid);
      if p != NULL {
        Found(c, t, READY + i, p);
        assert PlacedAt(c, t, SLEEPERS, p) && PlacedAt(c, t, RUNNERS, p);
        ok := SetOn(p, READY + i, RUNNABLE, priority);
        return ok, 0;
      }
      p := FindOn(SLEEPERS, pid);
      if p == NULL {
        return true, -1;
      }
      Put(p, proc[p].(priority := priority, budget := c.budget));
      return true, 0;
    }

    /** Renew the budget, and move to another list when the priority changes. */
    method SetOn(p: nat, from: nat, was: PState, priority: nat) returns (ok: bool)
      requires Valid() && p < c.nproc && from < c.Lists() && priority <= c.maxprio
      modifies `t, proc, next, head, tail
      ensures var pr := old(t.proc)[p].(priority := priority, budget := c.budget);
        var o := ProcTable.Relist(c, old(t), p, from, READY + priority, was, pr);
        if old(t.proc)[p].priority == priority then ok && Valid() && t == old(t).(proc := old(t.proc)[p := pr])
        else (ok <==> o.Ok?) && (ok ==> Valid() && o == Ok(t))
    {
      if proc[p].priority == priority {
        Put(p, proc[p].(budget := c.budget));
        return true;
      }
      ok := Relist(p, from, READY + priority, was, proc[p].(priority := priority, budget := c.budget));
    }

    // ---------- wait ----------

    method HaveKids(p: nat) returns (kids: bool)
      requires Valid() && p < c.nproc
      ensures kids <==> HasKids(c, t, p)
    {
      kids := false;
      for i := 0 to c.maxprio + 1
        invariant kids ==> HasKids(c, t, p)
        invariant !kids ==> forall l: nat :: READY <= l < READY + i ==> NoChildOn(c, t, l, p)
      {
        var curr := FindChildOn(READY + i, p);
        if curr != NULL {
          ChildOnList(c, t, READY + i, p);
          kids := true;
        }
      }
      var s := FindChildOn(SLEEPERS, p);
      var r := FindChildOn(RUNNERS, p);
      var e := FindChildOn(EMBRYOS, p);
      if s != NULL || r != NULL || e != NULL {
        ChildOnList(c, t, if s != NULL then SLEEPERS else if r != NULL then RUNNERS else EMBRYOS, p);
        kids := true;
      } else if !kids {
        assert NoChildOn(c, t, SLEEPERS, p) && NoChildOn(c, t, RUNNERS, p) && NoChildOn(c, t, EMBRYOS, p);
        NoKids(c, t, p);
      }
    }

    /** One round of the loop in `wait`: it returns the pid of the child, or -1 for none, or sleeps. What
        it has seen of children is carried from round to round. */
    method Wait(cpu: nat, p: nat, used: int, havekids: bool) returns (ok: bool, rc: Option<int>, kids: bool)
      requires Valid() && Runs(c, t, cpu, p)
      modifies `t, `cpus, proc, next, head, tail
      ensures ok <==> WaitRound(c, old(t), cpu, p, used, havekids).Ok?
      ensures ok ==> Valid() && WaitRound(c, old(t), cpu, p, used, havekids) == Ok(t)
      ensures ok && rc.None? ==> kids
      ensures ok ==> rc == match FindChild(old(t), old(t.lists)[ZOMBIES], p)
        case Some(z) => Some(old(t.proc)[z].pid as int)
        case None => if !(havekids || HasKids(c, old(t), p)) || old(t.proc)[p].killed then Some(-1) else None
    {
      kids := havekids;
      var z := FindChildOn(ZOMBIES, p);
      if z != NULL {
        rc := Some(proc[z].pid as int);
        ok := Relist(z, ZOMBIES, FREE, ZOMBIE, proc[z].(state := UNUSED, pid := 0, parent := None, killed := false));
        return;
      }
      var more := HaveKids(p);
      kids := kids || more;
      if !kids || proc[p].killed {
        return true, Some(-1), kids;
      }
      rc := None;
      ok := Sleep(cpu, p, OfProc(p), used);
    }

    // ---------- exit ----------

    method AdoptOne(q: nat, p: nat)
      requires Valid() && q < c.nproc
      modifies `t, proc
      ensures Valid() && t == old(t).(proc := old(t.proc)[q := Orphan(old(t.proc)[q], p)])
    {
      if proc[q].parent == Some(p) {
        Put(q, proc[q].(parent := Some(INIT)));
      } else {
        assert t.proc[q := t.proc[q]] == t.proc;
      }
    }

    method AdoptOn(l: nat, p: nat)
      requires Valid() && l < c.Lists()
      modifies `t, proc
      ensures Valid() && t == Adopt(old(t), old(t.lists)[l], p)
    {
      HeadTail(next[..], head[..], tail[..], t.lists, l);
      var curr := head[l];
      ghost var was, s, k: nat := t, t.lists[l], 0;
      assert was.proc == Adopt(was, s[..0], p).proc;
      while curr != NULL
        invariant Valid() && k <= |s| && t == Adopt(was, s[..k], p)
        invariant curr == if k < |s| then s[k] else NULL
        decreases |s| - k
      {
        Follow(next[..], head[..], tail[..], t.lists, l, k);
        AdoptNext(was, s, k, p);
        AdoptOne(curr, p);
        curr := next[curr];
        k := k + 1;
      }
      assert s[..k] == s;
    }

    /** One more list. */
    method AdoptAlso(l: nat, p: nat, ghost was: Table, ghost done: seq<nat>)
      requires Valid() && l < c.Lists() && t == Adopt(was, done, p)
      modifies `t, proc
      ensures l < |was.lists| && Valid() && t == Adopt(was, done + was.lists[l], p)
    {
      AdoptTwice(was, done, was.lists[l], p);
      AdoptOn(l, p);
    }

    method AdoptReady(p: nat)
      requires Valid()
      modifies `t, proc
      ensures Valid() && t == Adopt(old(t), AllReady(c, old(t), 0), p)
    {
      ghost var was := t;
      ghost var done: seq<nat> := [];
      assert was.proc == Adopt(was, done, p).proc;
      for i := 0 to c.maxprio + 1
        invariant Valid() && t == Adopt(was, done, p)
        invariant done + AllReady(c, was, i) == AllReady(c, was, 0)
      {
        AdoptAlso(READY + i, p, was, done);
        ReadyNext(c, was, done, i);
        done := done + was.lists[READY + i];
      }
      assert done + [] == done;
    }

    method AdoptOthers(p: nat)
      requires Valid()
      modifies `t, proc
      ensures Valid() && t == Adopt(old(t), Others(c, old(t)), p)
    {
      ghost var was, a, r := t, t.lists[RUNNERS], AllReady(c, t, 0);
      AdoptOn(RUNNERS, p);
      AllReadySame(was, a, p, 0);
      AdoptTwice(was, a, r, p);
      AdoptReady(p);
      AdoptTwice(was, a + r, was.lists[EMBRYOS], p);
      AdoptOn(EMBRYOS, p);
      AdoptTwice(was, a + r + was.lists[EMBRYOS], was.lists[SLEEPERS], p);
      AdoptOn(SLEEPERS, p);
    }

    lemma {:induction false} AllReadySame(was: Table, s: seq<nat>, p: nat, i: nat)
      requires Sized(c, was) && Sized(c, Adopt(was, s, p)) && i <= c.maxprio + 1
      ensures AllReady(c, Adopt(was, s, p), i) == AllReady(c, was, i)
      decreases c.maxprio + 1 - i
    {
      if i <= c.maxprio {
        AllReadySame(was, s, p, i + 1);
      }
    }

    /** One zombie; a child is handed to init, and init is woken. */
    method ZombieRound(p: nat, curr: nat, ghost base: Table, ghost w: Table, ghost k: nat, ghost found: bool)
      returns (after: int, ghost found': bool)
      requires Valid() && Shape(c, base) && Partition(c, base) && ProcTable.Wakeup(c, base, OfProc(INIT)) == Ok(w)
      requires k < |base.lists[ZOMBIES]| && curr == base.lists[ZOMBIES][k] && w.lists[ZOMBIES] == base.lists[ZOMBIES]
      requires t == Adopt(if found then w else base, base.lists[ZOMBIES][..k], p)
      modifies `t, proc, next, head, tail
      ensures Valid() && found' == (found || base.proc[curr].parent == Some(p))
      ensures t == Adopt(if found' then w else base, base.lists[ZOMBIES][..k + 1], p)
      ensures after == if k + 1 < |base.lists[ZOMBIES]| then base.lists[ZOMBIES][k + 1] else NULL
    {
      ghost var s := base.lists[ZOMBIES];
      assert s[k] !in s[..k];
      M.WakeupOk(c, base, OfProc(INIT));
      assert w.proc[curr] == M.Woken(base.proc[curr], OfProc(INIT));
      AdoptNext(if found then w else base, s, k, p);
      found' := found;
      if proc[curr].parent == Some(p) {
        Put(curr, proc[curr].(parent := Some(INIT)));
        ZombieStep(c, base, w, s[..k + 1], found, p);
        var ok := Wakeup(OfProc(INIT));
        found' := true;
      } else {
        assert t.proc[curr := t.proc[curr]] == t.proc;
      }
      Follow(next[..], head[..], tail[..], t.lists, ZOMBIES, k);
      after := next[curr];
    }

    /** The same, with what has been found so far. */
    method NextZombie(p: nat, curr: nat, ghost base: Table, ghost w: Table, ghost k: nat, ghost found: bool)
      returns (after: int, ghost found': bool)
      requires Valid() && Shape(c, base) && Partition(c, base) && ProcTable.Wakeup(c, base, OfProc(INIT)) == Ok(w)
      requires k < |base.lists[ZOMBIES]| && curr == base.lists[ZOMBIES][k] && w.lists[ZOMBIES] == base.lists[ZOMBIES]
      requires Adopted(base, w, t, base.lists[ZOMBIES], p, k, found)
      modifies `t, proc, next, head, tail
      ensures Valid() && Adopted(base, w, t, base.lists[ZOMBIES], p, k + 1, found')
      ensures after == if k + 1 < |base.lists[ZOMBIES]| then base.lists[ZOMBIES][k + 1] else NULL
    {
      after, found' := ZombieRound(p, curr, base, w, k, found);
      MoreZombies(base, base.lists[ZOMBIES], p, k);
    }

    method AdoptZombies(p: nat)
      requires Valid() && Shape(c, t) && Partition(c, t)
      modifies `t, proc, next, head, tail
      ensures ProcTable.Wakeup(c, old(t), OfProc(INIT)).Ok? && Valid()
      ensures var zombies := ZombieChild(old(t), old(t.lists)[ZOMBIES], p, |old(t.lists)[ZOMBIES]|);
        t == Adopt(if zombies then ProcTable.Wakeup(c, old(t), OfProc(INIT)).t else old(t), old(t.lists)[ZOMBIES], p)
    {
      ghost var base := t;
      ghost var w := InitWakes(c, t);
      HeadTail(next[..], head[..], tail[..], t.lists, ZOMBIES);
      var curr := head[ZOMBIES];
      ghost var k: nat, found := 0, false;
      AdoptNobody(base, base.lists[ZOMBIES], p);
      while curr != NULL
        invariant Valid() && Adopted(base, w, t, base.lists[ZOMBIES], p, k, found)
        invariant curr == if k < |base.lists[ZOMBIES]| then base.lists[ZOMBIES][k] else NULL
        decreases |base.lists[ZOMBIES]| - k
      {
        curr, found := NextZombie(p, curr, base, w, k, found);
        k := k + 1;
      }
      assert base.lists[ZOMBIES][..k] == base.lists[ZOMBIES];
    }

    method Exit(cpu: nat, p: nat, used: int)
      requires Valid() && M.Inv(c, t) && Runs(c, t, cpu, p) && p != INIT
      modifies `t, `cpus, proc, next, head, tail
      ensures Valid() && ProcTable.Exit(c, old(t), cpu, p, used) == Ok(t)
    {
      ghost var was := t;
      assert M.Related(t.proc, t.nextpid, p, p);
      M.ExitOk(c, t, cpu, p, used);
      var ch := OfProc(proc[p].parent.value);
      M.WakeupOk(c, t, ch);
      var ok := Wakeup(ch);
      ghost var woken := t;
      HandOver(was, woken, ch, p);
      AdoptOthers(p);
      AdoptZombies(p);
      ok := Relist(p, RUNNERS, ZOMBIES, RUNNING, proc[p].(state := ZOMBIE));
      ok := Sched(cpu, p, used);
    }

    /** The passes over the lists, put together. */
    lemma HandOver(was: Table, woken: Table, ch: Chan, p: nat)
      requires M.Inv(c, was) && ProcTable.Wakeup(c, was, ch) == Ok(woken)
      ensures Shape(c, woken) && Partition(c, woken)
      ensures var base := Adopt(woken, Others(c, woken), p);
        && Shape(c, base) && Partition(c, base)
        && var zombies := ZombieChild(base, base.lists[ZOMBIES], p, |base.lists[ZOMBIES]|);
        && (zombies <==> HasZombieChild(c, was, p))
        && Adopt(base, base.lists[ZOMBIES], p) == Reparent(woken, p)
        && Sized(c, Reparent(woken, p))
        && (var o := ProcTable.Wakeup(c, base, OfProc(INIT));
            && o.Ok?
            && ProcTable.Wakeup(c, Reparent(woken, p), OfProc(INIT)) == Ok(Adopt(o.t, base.lists[ZOMBIES], p)))
    {
      M.WakeupOk(c, was, ch);
      forall q: nat | q < c.nproc && woken.proc[q].state == UNUSED ensures woken.proc[q].parent != Some(p) {
        assert M.Related(was.proc, was.nextpid, q, q);
        assert woken.proc[q] == M.Woken(was.proc[q], ch);
      }
      AllAdopted(c, woken, p);
      SameZombies(c, was, woken, ch, p);
      var base := Adopt(woken, Others(c, woken), p);
      M.RelabelKeepsPartition(c, woken, base);
      M.WakeupOk(c, base, OfProc(INIT));
      ZombieStep(c, base, ProcTable.Wakeup(c, base, OfProc(INIT)).t, base.lists[ZOMBIES], false, p);
    }
  }
}
