/** The log itself (`log.c`): the header in memory, commit, installation, recovery. */
module Log {
  import opened Common
  import opened LogLayout
  import opened BufferCache

  /** The writes of `write_log` for log-block contents `c`. */
  function LogWrites(g: Geometry, c: seq<Block>): seq<DiskWrite> {
    seq(|c|, j requires 0 <= j < |c| => DiskWrite(g.start + 1 + j, c[j]))
  }

  /** The writes of `install_trans` for header `h` and log-block contents `c`. */
  function InstallWrites(h: seq<nat>, c: seq<Block>): seq<DiskWrite>
    requires |h| == |c|
  {
    seq(|h|, j requires 0 <= j < |h| => DiskWrite(h[j], c[j]))
  }

  /** What a sequence of single-block writes does to a disk, or to the view of one. */
  ghost function AfterWrites(d: Disk, ws: seq<DiskWrite>): (r: Disk)
    requires forall i :: 0 <= i < |ws| ==> ws[i].b < |d|
    ensures |r| == |d|
  {
    if ws == [] then d
    else AfterWrites(d, ws[..|ws| - 1])[ws[|ws| - 1].b := ws[|ws| - 1].data]
  }

  lemma {:induction false} AfterWritesElsewhere(d: Disk, ws: seq<DiskWrite>, b: nat)
    requires forall i :: 0 <= i < |ws| ==> ws[i].b < |d| && ws[i].b != b
    requires b < |d|
    ensures AfterWrites(d, ws)[b] == d[b]
  {
    if ws != [] {
      AfterWritesElsewhere(d, ws[..|ws| - 1], b);
    }
  }

  /** One more write. */
  lemma AfterWritesNext(d: Disk, ws: seq<DiskWrite>, w: DiskWrite)
    requires forall i :: 0 <= i < |ws| ==> ws[i].b < |d|
    requires w.b < |d|
    ensures AfterWrites(d, ws + [w]) == AfterWrites(d, ws)[w.b := w.data]
  {
    assert (ws + [w])[..|ws|] == ws;
  }

  lemma LogWritesNext(g: Geometry, c: seq<Block>, k: nat)
    requires k < |c|
    ensures LogWrites(g, c[..k + 1]) == LogWrites(g, c[..k]) + [DiskWrite(g.start + 1 + k, c[k])]
  {
  }

  lemma InstallWritesNext(h: seq<nat>, c: seq<Block>, k: nat)
    requires k < |h| == |c|
    ensures InstallWrites(h[..k + 1], c[..k + 1]) == InstallWrites(h[..k], c[..k]) + [DiskWrite(h[k], c[k])]
  {
  }

  /** The blocks of `h`, as they stand in `view`. */
  function Contents(view: Disk, h: seq<nat>): (c: seq<Block>)
    requires forall j :: 0 <= j < |h| ==> h[j] < |view|
  {
    seq(|h|, j requires 0 <= j < |h| => view[h[j]])
  }

  /** The log blocks that hold the contents of an `n`-entry header. */
  function LogBlocks(g: Geometry, view: Disk, n: nat): (c: seq<Block>)
    requires g.start + n < |view|
  {
    view[g.start + 1..g.start + 1 + n]
  }

  /** Enough clean buffers to hold two blocks at once, the second being block `b`. */
  ghost predicate Spare(bufs: seq<Buf>, b: nat) {
    exists i, j :: 0 <= i < |bufs| && 0 <= j < |bufs| && i != j && Recyclable(bufs[i])
      && (Recyclable(bufs[j]) || Caches(bufs[j], ROOTDEV, b))
  }

  /** A moment to measure later writes from. */
  datatype Mark = Mark(disk: Disk, view: Disk, writes: seq<DiskWrite>)

  /** The disk writes from `m` to `t` are exactly `ws`, and what callers see changed accordingly. */
  ghost predicate Wrote(m: Mark, ws: seq<DiskWrite>, t: Mark) {
    && |m.disk| == |m.view|
    && (forall i :: 0 <= i < |ws| ==> ws[i].b < |m.disk|)
    && t.writes == m.writes + ws
    && t.disk == AfterWrites(m.disk, ws)
    && t.view == AfterWrites(m.view, ws)
  }

  lemma {:induction false} AfterWritesConcat(d: Disk, a: seq<DiskWrite>, b: seq<DiskWrite>)
    requires forall i :: 0 <= i < |a| ==> a[i].b < |d|
    requires forall i :: 0 <= i < |b| ==> b[i].b < |d|
    ensures AfterWrites(d, a + b) == AfterWrites(AfterWrites(d, a), b)
  {
    if b == [] {
      assert a + b == a;
    } else {
      var n := |b| - 1;
      AfterWritesConcat(d, a, b[..n]);
      assert a + b == (a + b[..n]) + [b[n]] && b == b[..n] + [b[n]];
      AfterWritesNext(d, a + b[..n], b[n]);
    }
  }

  lemma WroteNext(m: Mark, ws: seq<DiskWrite>, t: Mark, w: DiskWrite, t': Mark)
    requires Wrote(m, ws, t) && w.b < |m.disk|
    requires t' == Mark(t.disk[w.b := w.data], t.view[w.b := w.data], t.writes + [w])
    ensures Wrote(m, ws + [w], t')
  {
    AfterWritesNext(m.disk, ws, w);
    AfterWritesNext(m.view, ws, w);
  }

  lemma WroteCompose(m: Mark, a: seq<DiskWrite>, t: Mark, b: seq<DiskWrite>, u: Mark)
    requires Wrote(m, a, t) && Wrote(t, b, u)
    ensures Wrote(m, a + b, u)
  {
    AfterWritesConcat(m.disk, a, b);
    AfterWritesConcat(m.view, a, b);
    assert (m.writes + a) + b == m.writes + (a + b);
  }

  lemma {:induction false} AfterLogWrites(g: Geometry, d: Disk, c: seq<Block>)
    requires g.start + |c| < |d|
    ensures var r := AfterWrites(d, LogWrites(g, c));
      r[g.start + 1..g.start + 1 + |c|] == c && r[g.start] == d[g.start]
  {
    AfterWritesElsewhere(d, LogWrites(g, c), g.start);
    var n := |c|;
    if n > 0 {
      AfterLogWrites(g, d, c[..n - 1]);
      assert c == c[..n - 1] + [c[n - 1]] == c[..n];
      LogWritesNext(g, c, n - 1);
      AfterWritesNext(d, LogWrites(g, c[..n - 1]), DiskWrite(g.start + n, c[n - 1]));
    }
  }

  /** Writing the log blocks and then the header, as seen from `m`. */
  lemma GroupWritten(g: Geometry, h: seq<nat>, m: Mark, t: Mark, u: Mark)
    requires HeaderOk(g, h) && g.Valid() && |m.view| == g.blocks
    requires var c := Contents(m.view, h);
      && Wrote(m, LogWrites(g, c), t)
      && Wrote(t, [DiskWrite(g.start, WithHeader(t.view[g.start], h))], u)
    ensures var c, header := Contents(m.view, h), WithHeader(m.view[g.start], h);
      && Wrote(m, LogWrites(g, c) + [DiskWrite(g.start, header)], u)
      && LogBlocks(g, u.view, |h|) == c && u.view[g.start] == header
  {
    var c := Contents(m.view, h);
    AfterLogWrites(g, m.view, c);
    var header := DiskWrite(g.start, WithHeader(m.view[g.start], h));
    WroteCompose(m, LogWrites(g, c), t, [header], u);
    AfterWritesNext(t.view, [], header);
  }

  /** Installing home blocks and then writing the header, as seen from `m`. */
  lemma GroupInstalled(g: Geometry, h: seq<nat>, m: Mark, t: Mark, u: Mark)
    requires HeaderOk(g, h) && g.Valid() && |m.view| == g.blocks
    requires var ws := InstallWrites(h, LogBlocks(g, m.view, |h|));
      && Wrote(m, ws, t)
      && Wrote(t, [DiskWrite(g.start, WithHeader(t.view[g.start], []))], u)
    ensures Wrote(m, InstallWrites(h, LogBlocks(g, m.view, |h|))
                     + [DiskWrite(g.start, WithHeader(m.view[g.start], []))], u)
  {
    var ws := InstallWrites(h, LogBlocks(g, m.view, |h|));
    AfterWritesElsewhere(m.view, ws, g.start);
    WroteCompose(m, ws, t, [DiskWrite(g.start, WithHeader(m.view[g.start], []))], u);
  }

  /** The disk writes of a commit: the log blocks, the header, the home blocks, the empty header. */
  ghost function CommitWrites(g: Geometry, view: Disk, h: seq<nat>): seq<DiskWrite>
    requires g.start < |view| && |h| <= LOGSIZE && forall j :: 0 <= j < |h| ==> h[j] < |view|
  {
    var c, header := Contents(view, h), WithHeader(view[g.start], h);
    LogWrites(g, c) + [DiskWrite(g.start, header)]
    + (InstallWrites(h, c) + [DiskWrite(g.start, WithHeader(header, []))])
  }

  /** The disk writes of a recovery from disk `d`. */
  ghost function RecoverWrites(g: Geometry, d: Disk): seq<DiskWrite>
    requires DiskOk(g, d)
  {
    var h := Header(d[g.start]);
    InstallWrites(h, LogBlocks(g, d, |h|)) + [DiskWrite(g.start, WithHeader(d[g.start], []))]
  }

  // ---------- Crashes between the writes ----------

  /** `e` is disk `d` with the first `k` logged blocks installed. */
  ghost predicate Installed(g: Geometry, d: Disk, e: Disk, k: nat) {
    && DiskOk(g, d) && DiskOk(g, e) && e[g.start] == d[g.start]
    && var h := Header(d[g.start]);
      && k <= |h|
      && (forall b :: g.start < b <= g.start + |h| ==> e[b] == d[b])
      && (forall j :: 0 <= j < k ==> e[h[j]] == d[g.start + 1 + j])
      && Durable(g, e) == Durable(g, d)
  }

  lemma InstallStep(g: Geometry, d: Disk, e0: Disk, e: Disk, k: nat)
    requires Installed(g, d, e0, k) && k < |Header(d[g.start])|
    requires e == e0[Header(d[g.start])[k] := d[g.start + 1 + k]]
    ensures Installed(g, d, e, k + 1)
  {
    assert e0[g.start + 1 + k] == d[g.start + 1 + k];
    HomeWrite(g, e0, e, k);
  }

  /** Write number `k` of an installation. */
  lemma InstallWriteAt(g: Geometry, d: Disk, ws: seq<DiskWrite>, k: nat)
    requires DiskOk(g, d) && k < |ws| && var h := Header(d[g.start]); ws == InstallWrites(h, LogBlocks(g, d, |h|))
    ensures forall i :: 0 <= i < |ws| ==> ws[i].b < |d|
    ensures AfterWrites(d, ws[..k + 1]) == AfterWrites(d, ws[..k])[Header(d[g.start])[k] := d[g.start + 1 + k]]
  {
    assert ws[..k + 1] == ws[..k] + [ws[k]];
    AfterWritesNext(d, ws[..k], ws[k]);
  }

  /** Stopping an installation after `k` of its writes. */
  lemma {:induction false} InstallPrefix(g: Geometry, d: Disk, ws: seq<DiskWrite>, k: nat)
    requires DiskOk(g, d) && k <= |ws|
    requires var h := Header(d[g.start]); ws == InstallWrites(h, LogBlocks(g, d, |h|))
    ensures Installed(g, d, AfterWrites(d, ws[..k]), k)
  {
    if k > 0 {
      InstallPrefix(g, d, ws, k - 1);
      var e0 := AfterWrites(d, ws[..k - 1]);
      InstallWriteAt(g, d, ws, k - 1);
      InstallStep(g, d, e0, AfterWrites(d, ws[..k]), k - 1);
    }
  }

  lemma ClearAfterInstall(g: Geometry, d: Disk, e0: Disk, e: Disk)
    requires DiskOk(g, d) && Installed(g, d, e0, |Header(d[g.start])|)
    requires e == e0[g.start := WithHeader(d[g.start], [])]
    ensures DiskOk(g, e) && Header(e[g.start]) == [] && Durable(g, e) == Durable(g, d)
  {
    HeaderClear(g, e0, e);
  }

  /** A recovery stopped after any number of its writes, zero and all included, leaves a disk with
      the same durable contents, so a later recovery ends where this one would have. */
  lemma RecoverAnyPrefix(g: Geometry, d: Disk, k: nat)
    requires DiskOk(g, d) && k <= |RecoverWrites(g, d)|
    ensures var e := AfterWrites(d, RecoverWrites(g, d)[..k]);
      DiskOk(g, e) && Durable(g, e) == Durable(g, d)
  {
    var h, all := Header(d[g.start]), RecoverWrites(g, d);
    var ws := InstallWrites(h, LogBlocks(g, d, |h|));
    InstallPrefix(g, d, ws, if k <= |h| then k else |h|);
    if k <= |h| {
      assert all[..k] == ws[..k];
    } else {
      assert all[..k] == ws + [all[|h|]] && ws[..|h|] == ws;
      AfterWritesNext(d, ws, all[|h|]);
      ClearAfterInstall(g, d, AfterWrites(d, ws), AfterWrites(d, all[..k]));
    }
  }

  /** A completed recovery puts every durable block at home. */
  lemma RecoverRestores(g: Geometry, d: Disk, b: nat)
    requires DiskOk(g, d) && g.Home(b)
    ensures b in Durable(g, d) && AfterWrites(d, RecoverWrites(g, d))[b] == Durable(g, d)[b]
  {
    var all := RecoverWrites(g, d);
    RecoverAnyPrefix(g, d, |all|);
    assert all[..|all|] == all;
    var e := AfterWrites(d, all);
    AfterWritesNext(d, all[..|all| - 1], all[|all| - 1]);
    assert all == all[..|all| - 1] + [all[|all| - 1]];
    assert Header(e[g.start]) == [];
    DurableAt(g, e, b);
  }

  lemma RecoverRestoresAll(g: Geometry, d: Disk)
    requires DiskOk(g, d)
    ensures forall b: nat :: g.Home(b) ==>
      b in Durable(g, d) && AfterWrites(d, RecoverWrites(g, d))[b] == Durable(g, d)[b]
  {
    forall b: nat | g.Home(b) {
      RecoverRestores(g, d, b);
    }
  }

  /** Stopping `write_log` after `k` of its writes. */
  lemma {:induction false} LogPrefix(g: Geometry, d: Disk, c: seq<Block>, k: nat)
    requires DiskOk(g, d) && Header(d[g.start]) == [] && k <= |c| <= g.size - 1
    ensures var e := AfterWrites(d, LogWrites(g, c)[..k]);
      && DiskOk(g, e) && e[g.start] == d[g.start] && Durable(g, e) == Durable(g, d)
  {
    var ws := LogWrites(g, c);
    if k > 0 {
      LogPrefix(g, d, c, k - 1);
      assert ws[..k] == ws[..k - 1] + [ws[k - 1]];
      AfterWritesNext(d, ws[..k - 1], ws[k - 1]);
      LogBlockWrite(g, AfterWrites(d, ws[..k - 1]), AfterWrites(d, ws[..k]), k - 1);
    }
  }

  /** The header write turns what is durable into the whole group at once. */
  lemma HeaderCommits(g: Geometry, d: Disk, view: Disk, h: seq<nat>, e: Disk)
    requires DiskOk(g, d) && Header(d[g.start]) == [] && HeaderOk(g, h)
    requires |view| == |d| && LogBlocks(g, d, |h|) == Contents(view, h)
    requires e == d[g.start := WithHeader(d[g.start], h)]
    ensures DiskOk(g, e) && LogBlocks(g, e, |h|) == Contents(view, h)
    ensures Durable(g, e) == Durable(g, d) + (map b: nat | b in h :: view[b])
  {
    forall i | 0 <= i < |h| ensures view[h[i]] == d[g.start + 1 + i] {
      assert LogBlocks(g, d, |h|)[i] == Contents(view, h)[i];
    }
    HeaderWriteGroup(g, d, e, map b: nat | b in h :: view[b]);
  }

  lemma AfterLog(g: Geometry, d: Disk, c: seq<Block>)
    requires DiskOk(g, d) && Header(d[g.start]) == [] && |c| <= g.size - 1
    ensures var e := AfterWrites(d, LogWrites(g, c));
      && DiskOk(g, e) && e[g.start] == d[g.start] && LogBlocks(g, e, |c|) == c
      && Durable(g, e) == Durable(g, d)
  {
    LogPrefix(g, d, c, |c|);
    AfterLogWrites(g, d, c);
    assert LogWrites(g, c)[..|c|] == LogWrites(g, c);
  }

  /** The disk of a commit right after its header write. */
  lemma AfterHeader(g: Geometry, d: Disk, view: Disk, h: seq<nat>)
    requires DiskOk(g, d) && Header(d[g.start]) == [] && HeaderOk(g, h)
    requires |view| == |d| && view[g.start] == d[g.start]
    ensures var c, header := Contents(view, h), WithHeader(view[g.start], h);
      var e := AfterWrites(d, LogWrites(g, c) + [DiskWrite(g.start, header)]);
      && DiskOk(g, e) && e[g.start] == header && LogBlocks(g, e, |h|) == c
      && Durable(g, e) == Durable(g, d) + (map b: nat | b in h :: view[b])
  {
    var c, header := Contents(view, h), WithHeader(view[g.start], h);
    AfterLog(g, d, c);
    AfterWritesNext(d, LogWrites(g, c), DiskWrite(g.start, header));
    HeaderCommits(g, AfterWrites(d, LogWrites(g, c)), view, h,
                  AfterWrites(d, LogWrites(g, c) + [DiskWrite(g.start, header)]));
  }

  /** The writes of a commit after its header write are those of a recovery. */
  lemma CommitEndsLikeRecovery(g: Geometry, view: Disk, h: seq<nat>, e: Disk)
    requires HeaderOk(g, h) && DiskOk(g, e) && |view| == |e|
    requires e[g.start] == WithHeader(view[g.start], h) && LogBlocks(g, e, |h|) == Contents(view, h)
    ensures var first := LogWrites(g, Contents(view, h)) + [DiskWrite(g.start, e[g.start])];
      CommitWrites(g, view, h) == first + RecoverWrites(g, e)
  {
  }

  /** Some writes, then a recovery stopped anywhere. */
  lemma ThenRecover(g: Geometry, d: Disk, first: seq<DiskWrite>, k: nat)
    requires forall i :: 0 <= i < |first| ==> first[i].b < |d|
    requires DiskOk(g, AfterWrites(d, first))
    requires |first| <= k <= |first| + |RecoverWrites(g, AfterWrites(d, first))|
    ensures var e := AfterWrites(d, first);
      var f := AfterWrites(d, (first + RecoverWrites(g, e))[..k]);
      DiskOk(g, f) && Durable(g, f) == Durable(g, e)
  {
    var e := AfterWrites(d, first);
    var rest := RecoverWrites(g, e);
    assert (first + rest)[..k] == first + rest[..k - |first|];
    AfterWritesConcat(d, first, rest[..k - |first|]);
    RecoverAnyPrefix(g, e, k - |first|);
  }

  /** A commit stopped at its header write or later. */
  lemma PastHeader(g: Geometry, d: Disk, view: Disk, h: seq<nat>, k: nat)
    requires DiskOk(g, d) && Header(d[g.start]) == [] && HeaderOk(g, h)
    requires |view| == |d| && view[g.start] == d[g.start]
    requires |h| < k <= |CommitWrites(g, view, h)|
    ensures var e := AfterWrites(d, CommitWrites(g, view, h)[..k]);
      DiskOk(g, e) && Durable(g, e) == Durable(g, d) + (map b: nat | b in h :: view[b])
  {
    var first := LogWrites(g, Contents(view, h)) + [DiskWrite(g.start, WithHeader(view[g.start], h))];
    AfterHeader(g, d, view, h);
    var e := AfterWrites(d, first);
    CommitEndsLikeRecovery(g, view, h, e);
    ThenRecover(g, d, first, k);
  }

  /** A commit stopped after `k` of its log-block writes. */
  lemma BeforeHeader(g: Geometry, d: Disk, view: Disk, h: seq<nat>, k: nat)
    requires DiskOk(g, d) && Header(d[g.start]) == [] && HeaderOk(g, h)
    requires |view| == |d| && k <= |h|
    ensures var e := AfterWrites(d, CommitWrites(g, view, h)[..k]);
      DiskOk(g, e) && Durable(g, e) == Durable(g, d)
  {
    assert CommitWrites(g, view, h)[..k] == LogWrites(g, Contents(view, h))[..k];
    LogPrefix(g, d, Contents(view, h), k);
  }

  /** A commit stopped after any number of its writes has made durable either nothing (up to and
      including the log blocks) or the whole group (from the header write on). */
  lemma CommitAnyPrefix(g: Geometry, d: Disk, view: Disk, h: seq<nat>, k: nat)
    requires DiskOk(g, d) && Header(d[g.start]) == [] && HeaderOk(g, h)
    requires |view| == |d| && view[g.start] == d[g.start]
    requires k <= |CommitWrites(g, view, h)|
    ensures var e := AfterWrites(d, CommitWrites(g, view, h)[..k]);
      && DiskOk(g, e)
      && Durable(g, e)
         == if k <= |h| then Durable(g, d) else Durable(g, d) + (map b: nat | b in h :: view[b])
  {
    if k <= |h| {
      BeforeHeader(g, d, view, h, k);
    } else {
      PastHeader(g, d, view, h, k);
    }
  }

  // ---------- Buffers that others hold ----------

  /** A block that committing header `h` reads or writes. */
  predicate Involved(g: Geometry, h: seq<nat>, x: nat) {
    g.start <= x < g.start + g.size || x in h
  }

  predicate QuietAt(g: Geometry, h: seq<nat>, b: Buf) {
    b.busy ==> !Involved(g, h, b.blockno)
  }

  /** Nobody holds such a block. */
  ghost predicate QuietIn(g: Geometry, h: seq<nat>, bufs: seq<Buf>) {
    forall i :: 0 <= i < |bufs| ==> QuietAt(g, h, bufs[i])
  }

  predicate HeldAt(b0: Buf, b1: Buf) {
    b1.busy == b0.busy && (b0.busy ==> b1 == b0)
  }

  /** The buffers that are held are the same as before, and untouched. */
  ghost predicate Held(bufs0: seq<Buf>, bufs: seq<Buf>) {
    |bufs| == |bufs0| && forall i :: 0 <= i < |bufs| ==> HeldAt(bufs0[i], bufs[i])
  }

  lemma HeldQuiet(g: Geometry, h: seq<nat>, bufs0: seq<Buf>, bufs: seq<Buf>)
    requires Held(bufs0, bufs) && QuietIn(g, h, bufs0)
    ensures QuietIn(g, h, bufs)
  {
    forall i | 0 <= i < |bufs| ensures QuietAt(g, h, bufs[i]) {
      assert HeldAt(bufs0[i], bufs[i]) && QuietAt(g, h, bufs0[i]);
    }
  }

  lemma HeldTrans(b0: seq<Buf>, b1: seq<Buf>, b2: seq<Buf>)
    requires Held(b0, b1) && Held(b1, b2)
    ensures Held(b0, b2)
  {
    forall i | 0 <= i < |b2| ensures HeldAt(b0[i], b2[i]) {
      assert HeldAt(b0[i], b1[i]) && HeldAt(b1[i], b2[i]);
    }
  }

  /** Two buffers were taken and given back. */
  lemma CopyHeld(b0: seq<Buf>, b1: seq<Buf>, b2: seq<Buf>, i: nat, j: nat)
    requires |b0| == |b1| == |b2| && i < |b0| && j < |b0|
    requires !b0[i].busy && !b0[j].busy && !b2[i].busy && !b2[j].busy
    requires forall k :: 0 <= k < |b0| && k != i && k != j ==> b1[k] == b0[k]
    requires forall k :: 0 <= k < |b0| && k != i && k != j ==> b2[k] == b1[k]
    ensures Held(b0, b2)
  {
    forall k | 0 <= k < |b2| ensures HeldAt(b0[k], b2[k]) {
    }
  }

  lemma QuietLess(g: Geometry, h: seq<nat>, bufs: seq<Buf>)
    requires QuietIn(g, h, bufs)
    ensures QuietIn(g, [], bufs)
  {
    forall i | 0 <= i < |bufs| ensures QuietAt(g, [], bufs[i]) {
      assert QuietAt(g, h, bufs[i]);
    }
  }

  lemma HeldIdle(bufs0: seq<Buf>, bufs: seq<Buf>)
    requires Held(bufs0, bufs)
    ensures (forall i :: 0 <= i < |bufs0| ==> !bufs0[i].busy) ==> forall i :: 0 <= i < |bufs| ==> !bufs[i].busy
  {
    forall i | 0 <= i < |bufs| ensures bufs[i].busy == bufs0[i].busy {
      assert HeldAt(bufs0[i], bufs[i]);
    }
  }

  /** The first `tail` blocks of `h` have lost their dirty mark, the others have not. */
  ghost predicate Cleaned(h: seq<nat>, before: set<nat>, now: set<nat>, tail: nat) {
    tail <= |h| && now == before - set x | x in h[..tail]
  }

  lemma CleanedNext(h: seq<nat>, before: set<nat>, now: set<nat>, tail: nat)
    requires NoDup(h) && Cleaned(h, before, now, tail) && tail < |h|
    ensures h[tail] in before ==> h[tail] in now
    ensures before == {} ==> now == {}
    ensures Cleaned(h, before, now - {h[tail]}, tail + 1)
  {
    assert h[..tail + 1] == h[..tail] + [h[tail]];
  }

  class Log {
    const g: Geometry
    const cache: Bcache
    var n: nat
    const block: array<nat>
    var outstanding: nat
    var committing: bool

    ghost predicate Valid()
      reads this, block, cache, cache.buf, cache.next, cache.prev
    {
      && block.Length == LOGSIZE && n <= LOGSIZE
      && block != cache.next && block != cache.prev
      && HeaderOk(g, block[..n])
      && CacheOk()
      && forall x :: x in cache.dirty ==> g.Home(x)
    }

    ghost predicate CacheOk()
      reads this, cache, cache.buf, cache.next, cache.prev
    {
      g.Valid() && |cache.disk| == g.blocks && cache.Valid()
    }

    /** Nobody holds a buffer. */
    ghost predicate Idle()
      reads cache, cache.buf
    {
      forall i :: 0 <= i < cache.buf.Length ==> !cache.buf[i].busy
    }

    /** Nobody holds a block of the log area or one that is logged; other buffers may be held. */
    ghost predicate Quiet()
      reads this, block, cache, cache.buf
    {
      n <= block.Length && QuietIn(g, block[..n], cache.buf[..])
    }

    /** Nobody holds block `b`. */
    ghost predicate Unheld(b: nat)
      reads cache, cache.buf
    {
      forall i :: 0 <= i < cache.buf.Length && Caches(cache.buf[i], ROOTDEV, b) ==> !cache.buf[i].busy
    }

    lemma QuietUnheld(b: nat)
      requires Quiet() && Involved(g, block[..n], b)
      ensures Unheld(b)
    {
      forall i | 0 <= i < cache.buf.Length && Caches(cache.buf[i], ROOTDEV, b) ensures !cache.buf[i].busy {
        assert QuietAt(g, block[..n], cache.buf[..][i]);
      }
    }

    /** `initlog` up to the call of `recover_from_log`. */
    constructor (geometry: Geometry, bcache: Bcache)
      requires geometry.Valid() && |bcache.disk| == geometry.blocks && bcache.Valid()
      requires bcache.dirty == {}
      ensures Valid() && fresh(block)
      ensures g == geometry && cache == bcache && n == 0 && outstanding == 0 && !committing
    {
      g, cache, n, outstanding, committing := geometry, bcache, 0, 0, false;
      block := new nat[LOGSIZE];
    }

    /** The disk writes since `m` are exactly `ws`, and what callers see changed accordingly. */
    ghost predicate WroteSince(m: Mark, ws: seq<DiskWrite>)
      reads cache
    {
      Wrote(m, ws, Now())
    }

    ghost function Now(): Mark
      reads cache
    {
      Mark(cache.disk, cache.view, cache.writes)
    }

    /** Two `bread`s. Stops the machine (`!ok`) when `bget` runs out of buffers. */
    method ReadTwo(x: nat, y: nat) returns (ok: bool, i: nat, j: nat)
      requires CacheOk() && Unheld(x) && Unheld(y)
      requires x < g.blocks && y < g.blocks && x != y
      modifies cache.buf
      ensures CacheOk()
      ensures old(Spare(cache.buf[..], y)) ==> ok
      ensures ok ==> i < cache.n && j < cache.n && i != j
      ensures ok ==> Caches(cache.buf[i], ROOTDEV, x) && Caches(cache.buf[j], ROOTDEV, y)
      ensures ok ==> cache.buf[i].busy && cache.buf[j].busy && !old(cache.buf[i].busy) && !old(cache.buf[j].busy)
      ensures ok ==> cache.buf[i].dirty || cache.buf[i].data == cache.disk[x]
      ensures ok ==> cache.buf[j].dirty || cache.buf[j].data == cache.disk[y]
      ensures ok ==> forall k :: 0 <= k < cache.n && k != i && k != j ==> cache.buf[k] == old(cache.buf[k])
    {
      i, j := 0, 0;
      var first := cache.Bread(x);
      if !first.Got? {
        return false, 0, 0;
      }
      var second := cache.Bread(y);
      if !second.Got? {
        return false, 0, 0;
      }
      return true, first.b, second.b;
    }

    /** One round of `write_log` or `install_trans`: copy block `from` to block `to` on disk. The two
        loops differ in which block they read first. */
    method CopyBlock(from: nat, to: nat, toFirst: bool,
                     ghost m: Mark, ghost ws: seq<DiskWrite>, ghost more: seq<DiskWrite>)
      returns (ok: bool)
      requires CacheOk() && Unheld(from) && Unheld(to) && WroteSince(m, ws)
      requires from < g.blocks && to < g.blocks && from != to
      requires more == ws + [DiskWrite(to, cache.view[from])]
      modifies cache, cache.buf, cache.next, cache.prev
      ensures old(Spare(cache.buf[..], if toFirst then from else to)) ==> ok
      ensures ok ==> CacheOk() && HasClean() && Held(old(cache.buf[..]), cache.buf[..])
      ensures ok ==> WroteSince(m, more)
      ensures ok ==> cache.dirty == old(cache.dirty) - {to}
    {
      ghost var t := Now();
      var src, dst;
      if toFirst {
        ok, dst, src := ReadTwo(to, from);
      } else {
        ok, src, dst := ReadTwo(from, to);
      }
      if ok {
        ghost var here := cache.buf[..];
        CopyOut(src, dst);
        WroteNext(m, ws, t, DiskWrite(to, t.view[from]), Now());
        assert Recyclable(cache.buf[dst]);
        CopyHeld(old(cache.buf[..]), here, cache.buf[..], src, dst);
      }
    }

    /** Copy a held buffer over another, write that one to the disk, release both. */
    method CopyOut(src: nat, dst: nat)
      requires CacheOk()
      requires src < cache.n && dst < cache.n && src != dst
      requires cache.buf[src].busy && cache.buf[dst].busy
      requires cache.buf[src].dirty || cache.buf[src].data == cache.disk[cache.buf[src].blockno]
      modifies cache, cache.buf, cache.next, cache.prev
      ensures CacheOk()
      ensures var b, data := old(cache.buf[dst]).blockno, old(cache.buf[src]).data;
        && cache.disk == old(cache.disk)[b := data]
        && cache.view == old(cache.view)[b := data]
        && cache.writes == old(cache.writes) + [DiskWrite(b, data)]
        && cache.dirty == old(cache.dirty) - {b}
      ensures !cache.buf[dst].dirty && !cache.buf[src].busy && !cache.buf[dst].busy
      ensures forall k :: 0 <= k < cache.n && k != src && k != dst ==> cache.buf[k] == old(cache.buf[k])
    {
      cache.Overwrite(dst, cache.buf[src].data);
      cache.Release(src);
      cache.Release(dst);
    }

    /** Some buffer is clean and not held. */
    ghost predicate HasClean()
      reads cache, cache.buf
    {
      exists i :: 0 <= i < cache.buf.Length && Recyclable(cache.buf[i])
    }

    lemma PinnedIsSpare(b: nat)
      requires CacheOk() && HasClean() && b in cache.dirty
      ensures Spare(cache.buf[..], b)
    {
      var i :| 0 <= i < cache.buf.Length && Recyclable(cache.buf[i]);
      var j :| 0 <= j < cache.buf.Length && Caches(cache.buf[..][j], ROOTDEV, b);
      assert Recyclable(cache.buf[..][i]);
    }

    /** The home block and the log block of entry `tail`. */
    lemma RoundReady(tail: nat)
      requires Valid() && Quiet() && tail < n
      ensures g.Home(block[tail]) && block[tail] < g.blocks && g.start + 1 + tail < g.start + g.size <= g.blocks
      ensures Unheld(block[tail]) && Unheld(g.start + 1 + tail)
      ensures HasClean() && block[tail] in cache.dirty ==> Spare(cache.buf[..], block[tail])
    {
      assert g.Home(block[..n][tail]) && block[..n][tail] in block[..n];
      QuietUnheld(block[tail]);
      QuietUnheld(g.start + 1 + tail);
      if HasClean() && block[tail] in cache.dirty {
        PinnedIsSpare(block[tail]);
      }
    }

    /** One round of `write_log`. */
    method LogRound(tail: nat, ghost m: Mark, ghost c: seq<Block>) returns (ok: bool)
      requires Valid() && Quiet() && tail < n
      requires |m.view| == g.blocks && c == Contents(m.view, block[..n])
      requires WroteSince(m, LogWrites(g, c[..tail]))
      modifies cache, cache.buf, cache.next, cache.prev
      ensures old(HasClean() && block[tail] in cache.dirty) ==> ok
      ensures ok ==> Valid() && Held(old(cache.buf[..]), cache.buf[..]) && HasClean() && cache.dirty == old(cache.dirty)
      ensures ok ==> WroteSince(m, LogWrites(g, c[..tail + 1]))
    {
      ghost var ws := LogWrites(g, c[..tail]);
      RoundReady(tail);
      AfterWritesElsewhere(m.view, ws, block[tail]);
      LogWritesNext(g, c, tail);
      ok := CopyBlock(block[tail], g.start + 1 + tail, true, m, ws, LogWrites(g, c[..tail + 1]));
    }

    /** Copy the logged blocks from the cache to the log. */
    method WriteLog() returns (ok: bool)
      requires Valid() && Quiet()
      modifies cache, cache.buf, cache.next, cache.prev
      ensures old(HasClean() && forall j :: 0 <= j < n ==> block[j] in cache.dirty) ==> ok
      ensures ok && old(HasClean()) ==> HasClean()
      ensures ok ==> Valid() && Held(old(cache.buf[..]), cache.buf[..]) && cache.dirty == old(cache.dirty)
      ensures ok ==> WroteSince(old(Now()), LogWrites(g, Contents(old(cache.view), block[..n])))
    {
      ghost var m, bufs, dirty, clean := Now(), cache.buf[..], cache.dirty, HasClean();
      assert LogWrites(g, Contents(m.view, block[..n])[..0]) == [];
      for tail := 0 to n
        invariant Logging(m, bufs, dirty, clean, tail)
      {
        ok := LogTurn(tail, m, bufs, dirty, clean);
        if !ok {
          return;
        }
      }
      AllLogged(m, bufs, dirty, clean);
      return true;
    }

    /** The first `tail` blocks are in the log area. */
    ghost predicate Logging(m: Mark, bufs: seq<Buf>, dirty: set<nat>, clean: bool, tail: nat)
      reads this, block, cache, cache.buf, cache.next, cache.prev
    {
      && Valid() && tail <= n && |m.view| == g.blocks && QuietIn(g, block[..n], bufs)
      && Held(bufs, cache.buf[..]) && cache.dirty == dirty && (clean ==> HasClean())
      && WroteSince(m, LogWrites(g, Contents(m.view, block[..n])[..tail]))
    }

    method LogTurn(tail: nat, ghost m: Mark, ghost bufs: seq<Buf>, ghost dirty: set<nat>, ghost clean: bool) returns (ok: bool)
      requires Logging(m, bufs, dirty, clean, tail) && tail < n
      modifies cache, cache.buf, cache.next, cache.prev
      ensures clean && block[tail] in dirty ==> ok
      ensures ok ==> Logging(m, bufs, dirty, clean, tail + 1)
    {
      ok := LogNext(tail, m, Contents(m.view, block[..n]), bufs);
    }

    lemma AllLogged(m: Mark, bufs: seq<Buf>, dirty: set<nat>, clean: bool)
      requires Logging(m, bufs, dirty, clean, n)
      ensures Valid() && Held(bufs, cache.buf[..]) && cache.dirty == dirty && (clean ==> HasClean())
      ensures WroteSince(m, LogWrites(g, Contents(m.view, block[..n])))
    {
      var c := Contents(m.view, block[..n]);
      assert c[..n] == c;
    }

    method LogNext(tail: nat, ghost m: Mark, ghost c: seq<Block>, ghost bufs: seq<Buf>) returns (ok: bool)
      requires Valid() && tail < n && QuietIn(g, block[..n], bufs) && Held(bufs, cache.buf[..])
      requires |m.view| == g.blocks && c == Contents(m.view, block[..n])
      requires WroteSince(m, LogWrites(g, c[..tail]))
      modifies cache, cache.buf, cache.next, cache.prev
      ensures old(HasClean() && block[tail] in cache.dirty) ==> ok
      ensures ok ==> Valid() && Held(bufs, cache.buf[..]) && HasClean() && cache.dirty == old(cache.dirty)
      ensures ok ==> WroteSince(m, LogWrites(g, c[..tail + 1]))
    {
      HeldQuiet(g, block[..n], bufs, cache.buf[..]);
      ghost var here := cache.buf[..];
      ok := LogRound(tail, m, c);
      if ok {
        HeldTrans(bufs, here, cache.buf[..]);
      }
    }

    lemma CleanCacheIsSpare(b: nat)
      requires CacheOk() && Idle() && cache.dirty == {} && cache.n >= 2
      ensures Spare(cache.buf[..], b) && HasClean()
    {
      assert Recyclable(cache.buf[..][0]) && Recyclable(cache.buf[..][1]) && Recyclable(cache.buf[0]);
    }

    lemma InstallHasSpare(b: nat)
      requires CacheOk()
      ensures HasClean() && b in cache.dirty ==> Spare(cache.buf[..], b)
      ensures Idle() && cache.n >= 2 && cache.dirty == {} ==> Spare(cache.buf[..], b)
    {
      if HasClean() && b in cache.dirty {
        PinnedIsSpare(b);
      }
      if Idle() && cache.n >= 2 && cache.dirty == {} {
        CleanCacheIsSpare(b);
      }
    }

    /** One round of `install_trans`. */
    method InstallRound(tail: nat, ghost m: Mark, ghost c: seq<Block>) returns (ok: bool)
      requires Valid() && Quiet() && tail < n
      requires |m.view| == g.blocks && c == LogBlocks(g, m.view, n)
      requires WroteSince(m, InstallWrites(block[..n][..tail], c[..tail]))
      modifies cache, cache.buf, cache.next, cache.prev
      ensures old(HasClean() && block[tail] in cache.dirty) ==> ok
      ensures old(Idle() && cache.n >= 2 && cache.dirty == {}) ==> ok
      ensures ok ==> Valid() && Held(old(cache.buf[..]), cache.buf[..]) && HasClean()
      ensures ok ==> cache.dirty == old(cache.dirty) - {block[tail]}
      ensures ok ==> WroteSince(m, InstallWrites(block[..n][..tail + 1], c[..tail + 1]))
    {
      ghost var ws := InstallWrites(block[..n][..tail], c[..tail]);
      RoundReady(tail);
      AfterWritesElsewhere(m.view, ws, g.start + 1 + tail);
      InstallHasSpare(block[tail]);
      InstallWritesNext(block[..n], c, tail);
      ok := CopyBlock(g.start + 1 + tail, block[tail], false, m, ws,
                      InstallWrites(block[..n][..tail + 1], c[..tail + 1]));
    }

    /** Copy committed blocks from the log to their home locations. */
    method InstallTrans() returns (ok: bool)
      requires Valid() && Quiet()
      modifies cache, cache.buf, cache.next, cache.prev
      ensures old(HasClean() && forall j :: 0 <= j < n ==> block[j] in cache.dirty) ==> ok
      ensures old(Idle() && cache.n >= 2 && cache.dirty == {}) ==> ok
      ensures ok && old(HasClean()) ==> HasClean()
      ensures ok ==> Valid() && Held(old(cache.buf[..]), cache.buf[..])
      ensures ok ==> cache.dirty == old(cache.dirty) - set x | x in block[..n]
      ensures ok ==>
        WroteSince(old(Now()), InstallWrites(block[..n], LogBlocks(g, old(cache.view), n)))
    {
      ghost var m, bufs, dirty := Now(), cache.buf[..], cache.dirty;
      ghost var clean, idle := HasClean(), Idle() && cache.n >= 2 && dirty == {};
      assert InstallWrites(block[..n][..0], LogBlocks(g, m.view, n)[..0]) == [];
      for tail := 0 to n
        invariant Installing(m, bufs, dirty, clean, idle, tail)
      {
        ok := InstallTurn(tail, m, bufs, dirty, clean, idle);
        if !ok {
          assert block[..n][tail] == block[tail];
          return;
        }
      }
      AllInstalled(m, bufs, dirty, clean, idle);
      return true;
    }

    lemma AllInstalled(m: Mark, bufs: seq<Buf>, dirty: set<nat>, clean: bool, idle: bool)
      requires Installing(m, bufs, dirty, clean, idle, n)
      ensures Valid() && Held(bufs, cache.buf[..]) && (clean ==> HasClean())
      ensures cache.dirty == dirty - set x | x in block[..n]
      ensures WroteSince(m, InstallWrites(block[..n], LogBlocks(g, m.view, n)))
    {
      assert LogBlocks(g, m.view, n)[..n] == LogBlocks(g, m.view, n) && block[..n][..n] == block[..n];
    }

    /** The first `tail` blocks are installed. */
    ghost predicate Installing(m: Mark, bufs: seq<Buf>, dirty: set<nat>, clean: bool, idle: bool, tail: nat)
      reads this, block, cache, cache.buf, cache.next, cache.prev
    {
      && Valid() && tail <= n && |m.view| == g.blocks && QuietIn(g, block[..n], bufs)
      && Held(bufs, cache.buf[..]) && Cleaned(block[..n], dirty, cache.dirty, tail)
      && (clean ==> HasClean()) && (idle ==> Idle() && cache.n >= 2 && dirty == {})
      && WroteSince(m, InstallWrites(block[..n][..tail], LogBlocks(g, m.view, n)[..tail]))
    }

    method InstallTurn(tail: nat, ghost m: Mark, ghost bufs: seq<Buf>, ghost dirty: set<nat>, ghost clean: bool, ghost idle: bool)
      returns (ok: bool)
      requires Installing(m, bufs, dirty, clean, idle, tail) && tail < n
      modifies cache, cache.buf, cache.next, cache.prev
      ensures (clean && block[tail] in dirty) || idle ==> ok
      ensures ok ==> Installing(m, bufs, dirty, clean, idle, tail + 1)
    {
      CleanedNext(block[..n], dirty, cache.dirty, tail);
      ok := InstallNext(tail, m, LogBlocks(g, m.view, n), bufs, idle);
    }

    method InstallNext(tail: nat, ghost m: Mark, ghost c: seq<Block>, ghost bufs: seq<Buf>, ghost idle: bool)
      returns (ok: bool)
      requires Valid() && tail < n && QuietIn(g, block[..n], bufs) && Held(bufs, cache.buf[..])
      requires |m.view| == g.blocks && c == LogBlocks(g, m.view, n)
      requires WroteSince(m, InstallWrites(block[..n][..tail], c[..tail]))
      requires idle ==> Idle() && cache.n >= 2 && cache.dirty == {}
      modifies cache, cache.buf, cache.next, cache.prev
      ensures old(HasClean() && block[tail] in cache.dirty) || idle ==> ok
      ensures ok ==> Valid() && Held(bufs, cache.buf[..]) && HasClean() && (idle ==> Idle())
      ensures ok ==> cache.dirty == old(cache.dirty) - {block[tail]}
      ensures ok ==> WroteSince(m, InstallWrites(block[..n][..tail + 1], c[..tail + 1]))
    {
      HeldQuiet(g, block[..n], bufs, cache.buf[..]);
      ghost var here := cache.buf[..];
      ok := InstallRound(tail, m, c);
      if ok {
        HeldTrans(bufs, here, cache.buf[..]);
        HeldIdle(here, cache.buf[..]);
      }
    }

    /** Fill in the header block: the count, then the entries one by one. */
    method FillHeader(blk: Block) returns (r: Block)
      requires Valid()
      ensures r == WithHeader(blk, block[..n])
    {
      r := blk[0 := n];
      for i := 0 to n
        invariant r == [n] + block[..i] + blk[1 + i..]
      {
        r := r[1 + i := block[i]];
      }
    }

    /** Write the in-memory header to the disk: the commit point. */
    method WriteHead() returns (ok: bool)
      requires Valid() && Quiet()
      modifies cache, cache.buf, cache.next, cache.prev
      ensures old(HasClean()) ==> ok
      ensures ok ==> Valid() && Held(old(cache.buf[..]), cache.buf[..]) && HasClean() && cache.dirty == old(cache.dirty)
      ensures ok ==>
        WroteSince(old(Now()), [DiskWrite(g.start, WithHeader(old(cache.view)[g.start], block[..n]))])
    {
      ghost var m := Now();
      QuietUnheld(g.start);
      var r := cache.Bread(g.start);
      if !r.Got? {
        return false;
      }
      var header := FillHeader(cache.buf[r.b].data);
      AfterWritesNext(m.disk, [], DiskWrite(g.start, header));
      AfterWritesNext(m.view, [], DiskWrite(g.start, header));
      cache.WriteBack(r.b, header);
      assert Recyclable(cache.buf[r.b]);
      return true;
    }

    /** Write the log blocks, then the header. */
    method WriteGroup() returns (ok: bool)
      requires Valid() && Quiet()
      modifies cache, cache.buf, cache.next, cache.prev
      ensures old(HasClean() && forall j :: 0 <= j < n ==> block[j] in cache.dirty) ==> ok
      ensures ok ==> Valid() && Held(old(cache.buf[..]), cache.buf[..]) && HasClean() && cache.dirty == old(cache.dirty)
      ensures ok ==>
        var c, header := Contents(old(cache.view), block[..n]), WithHeader(old(cache.view)[g.start], block[..n]);
        && WroteSince(old(Now()), LogWrites(g, c) + [DiskWrite(g.start, header)])
        && LogBlocks(g, cache.view, n) == c && cache.view[g.start] == header
    {
      ghost var m, bufs := Now(), cache.buf[..];
      ok := WriteLog();
      if !ok {
        return;
      }
      ghost var t, here := Now(), cache.buf[..];
      HeldQuiet(g, block[..n], bufs, here);
      ok := WriteHead();
      if ok {
        HeldTrans(bufs, here, cache.buf[..]);
        GroupWritten(g, block[..n], m, t, Now());
      }
    }

    /** Install the home blocks, forget the header, write it empty. */
    method InstallGroup() returns (ok: bool)
      requires Valid() && Quiet()
      modifies this`n, cache, cache.buf, cache.next, cache.prev
      ensures old(HasClean() && forall j :: 0 <= j < n ==> block[j] in cache.dirty) ==> ok
      ensures old(Idle() && cache.n >= 2 && cache.dirty == {}) ==> ok
      ensures ok ==> Valid() && Held(old(cache.buf[..]), cache.buf[..]) && n == 0
      ensures ok ==> cache.dirty == old(cache.dirty) - set x | x in old(block[..n])
      ensures ok ==>
        WroteSince(old(Now()),
                   InstallWrites(old(block[..n]), LogBlocks(g, old(cache.view), old(n)))
                   + [DiskWrite(g.start, WithHeader(old(cache.view)[g.start], []))])
    {
      ghost var m, h, bufs := Now(), block[..n], cache.buf[..];
      if Idle() && cache.n >= 2 && cache.dirty == {} {
        CleanCacheIsSpare(g.start);
      }
      ok := InstallTrans();
      if !ok {
        return;
      }
      ghost var t, here := Now(), cache.buf[..];
      n := 0;
      assert block[..n] == [];
      HeldQuiet(g, h, bufs, here);
      QuietLess(g, h, here);
      ok := WriteHead();
      if ok {
        HeldTrans(bufs, here, cache.buf[..]);
        GroupInstalled(g, h, m, t, Now());
      }
    }

    /** Commit the logged blocks: exactly the disk writes of `CommitWrites`, in that order. Buffers that
        others hold stay as they are. Stops the machine only without a clean buffer. */
    method Commit() returns (ok: bool)
      requires Valid() && Quiet()
      modifies this`n, cache, cache.buf, cache.next, cache.prev
      ensures old(n == 0 || (HasClean() && forall j :: 0 <= j < n ==> block[j] in cache.dirty)) ==> ok
      ensures ok ==> Valid() && Held(old(cache.buf[..]), cache.buf[..]) && n == 0
      ensures ok ==> cache.dirty == old(cache.dirty) - set x | x in old(block[..n])
      ensures ok ==> WroteSince(
        old(Now()), if old(n) == 0 then [] else CommitWrites(g, old(cache.view), old(block[..n])))
    {
      if n == 0 {
        return true;
      }
      ghost var m, bufs := Now(), cache.buf[..];
      ok := WriteGroup();
      if !ok {
        return;
      }
      ghost var t, here := Now(), cache.buf[..];
      HeldQuiet(g, block[..n], bufs, here);
      ok := InstallGroup();
      if ok {
        HeldTrans(bufs, here, cache.buf[..]);
        ghost var c, header := Contents(m.view, old(block[..n])), WithHeader(m.view[g.start], old(block[..n]));
        WroteCompose(m, LogWrites(g, c) + [DiskWrite(g.start, header)], t,
                     InstallWrites(old(block[..n]), c) + [DiskWrite(g.start, WithHeader(header, []))], Now());
      }
    }

    /** Read the header from the disk into memory. */
    method ReadHead() returns (ok: bool)
      requires Valid() && Idle() && DiskOk(g, cache.view)
      modifies this`n, block, cache`order, cache`clock, cache`released, cache.buf, cache.next, cache.prev
      ensures old(HasClean()) ==> ok
      ensures ok ==> Valid() && Idle()
      ensures ok ==> block[..n] == Header(cache.view[g.start])
    {
      var r := cache.Bread(g.start);
      if !r.Got? {
        return false;
      }
      CopyHeader(cache.buf[r.b].data);
      cache.Release(r.b);
      return true;
    }

    method CopyHeader(blk: Block)
      requires block.Length == LOGSIZE && blk[0] <= LOGSIZE
      modifies this`n, block
      ensures n == blk[0] && block[..n] == Header(blk)
    {
      n := blk[0];
      for i := 0 to n
        invariant n == blk[0] && block[..i] == Header(blk)[..i]
      {
        block[i] := blk[1 + i];
      }
    }

    /** Recovery at boot: exactly the disk writes of `RecoverWrites`; the home blocks end up with
        their durable contents. */
    method Recover() returns (ok: bool)
      requires Valid() && Idle() && DiskOk(g, cache.disk)
      requires cache.view == cache.disk && cache.dirty == {}
      modifies this`n, block, cache, cache.buf, cache.next, cache.prev
      ensures cache.n >= 2 ==> ok
      ensures ok ==> Valid() && Idle() && n == 0 && cache.dirty == {}
      ensures ok ==> WroteSince(old(Now()), RecoverWrites(g, old(cache.disk)))
      ensures ok ==> forall b: nat :: g.Home(b) ==>
        b in Durable(g, old(cache.disk)) && cache.disk[b] == Durable(g, old(cache.disk))[b]
    {
      if cache.n >= 2 {
        CleanCacheIsSpare(g.start);
      }
      ok := ReadHead();
      if !ok {
        return;
      }
      ghost var bufs := cache.buf[..];
      assert QuietIn(g, block[..n], bufs);
      ok := InstallGroup();
      if ok {
        HeldIdle(bufs, cache.buf[..]);
        assert forall i :: 0 <= i < cache.buf.Length ==> cache.buf[..][i] == cache.buf[i];
      }
      RecoverRestoresAll(g, old(cache.disk));
    }

    /** Record a held, modified buffer in the header and pin it. Stops the machine (`!ok`) when the
        header is full, before looking for the block, or outside an operation. */
    method LogWrite(b: nat) returns (ok: bool)
      requires Valid() && b < cache.n && cache.buf[b].busy && g.Home(cache.buf[b].blockno)
      modifies this`n, block, cache`dirty, cache.buf
      ensures ok == (old(n) < LOGSIZE && old(n) < g.size - 1 && outstanding >= 1)
      ensures Valid()
      ensures ok ==>
        var x, h := old(cache.buf[b]).blockno, old(block[..n]);
        && block[..n] == (if x in h then h else h + [x])
        && cache.dirty == old(cache.dirty) + {x}
        && cache.buf[..] == old(cache.buf[..])[b := old(cache.buf[b]).(dirty := true)]
      ensures !ok ==> block[..n] == old(block[..n]) && cache.dirty == old(cache.dirty)
    {
      if n >= LOGSIZE || n >= g.size - 1 || outstanding < 1 {
        return false;
      }
      AddEntry(cache.buf[b].blockno);
      cache.Pin(b);
      return true;
    }

    /** Log absorption: a block already in the header keeps its place. */
    method AddEntry(x: nat)
      requires block.Length == LOGSIZE && n < LOGSIZE && n < g.size - 1
      requires HeaderOk(g, block[..n]) && g.Home(x)
      modifies this`n, block
      ensures n <= LOGSIZE && HeaderOk(g, block[..n])
      ensures block[..n] == if x in old(block[..n]) then old(block[..n]) else old(block[..n]) + [x]
    {
      var i := 0;
      while i < n
        invariant i <= n && x !in block[..i]
      {
        if block[i] == x {
          break;
        }
        i := i + 1;
      }
      assert i < n ==> block[..n][i] == x;
      block[i] := x;
      if i == n {
        n := n + 1;
      }
    }

    /** One try of `begin_op`: admitted, or it sleeps and tries again. */
    method BeginOp() returns (admitted: bool)
      modifies this`outstanding
      ensures admitted == (!committing && n + (old(outstanding) + 1) * MAXOPBLOCKS <= LOGSIZE)
      ensures outstanding == if admitted then old(outstanding) + 1 else old(outstanding)
    {
      if committing {
        return false;
      } else if n + (outstanding + 1) * MAXOPBLOCKS > LOGSIZE {
        return false;
      }
      outstanding := outstanding + 1;
      return true;
    }

    /** `end_op`: the last outstanding operation commits the group. */
    method EndOp() returns (ok: bool)
      requires Valid() && outstanding >= 1 && !committing
      requires outstanding == 1 ==> Quiet()
      modifies this`n, this`outstanding, this`committing, cache, cache.buf, cache.next, cache.prev
      ensures outstanding == old(outstanding) - 1
      ensures old(n == 0 || (HasClean() && forall j :: 0 <= j < n ==> block[j] in cache.dirty)) ==> ok
      ensures ok ==> Valid() && !committing && Held(old(cache.buf[..]), cache.buf[..])
      ensures old(outstanding > 1) ==>
        ok && block[..n] == old(block[..n]) && WroteSince(old(Now()), []) && cache.dirty == old(cache.dirty)
      ensures old(outstanding == 1) && ok ==>
        && n == 0 && cache.dirty == old(cache.dirty) - set x | x in old(block[..n])
        && WroteSince(
             old(Now()), if old(n) == 0 then [] else CommitWrites(g, old(cache.view), old(block[..n])))
    {
      outstanding := outstanding - 1;
      if outstanding == 0 {
        committing := true;
        ok := Commit();
        if ok {
          committing := false;
        }
      } else {
        ok := true;
      }
    }
  }
}
