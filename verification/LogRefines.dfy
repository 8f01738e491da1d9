/** The sequential log (`Log.Log`) and the interleaved machine (`LogMachine`) agree: between crashes, the
    disk writes of a commit or a recovery in the machine are those of the class, in the same order,
    however the steps of other processes fall between them. */
module LogRefines {
  import opened Common
  import opened LogLayout
  import opened LogMachine
  import opened BufferCache
  import opened Log
  import R = LogReservation

  /** What `bread` hands out, block by block. */
  ghost function Views(g: Geometry, s: State): (v: Disk)
    requires Shape(g, s)
  {
    seq(g.blocks, b requires 0 <= b < g.blocks => View(s, b))
  }

  /** The steps of the committing or recovering process that write to the disk. */
  predicate Writes(step: Step) {
    step.CopyToLog? || step.WriteHead? || step.InstallBlock? || step.ClearHead?
  }

  // ---------- Commit ----------

  /** How many of its disk writes a commit has done. */
  function Written(s: State): nat {
    match s.phase
    case WriteLog(k) => k
    case Install(k, _) => |s.lh| + 1 + k
    case _ => 0
  }

  /** A home block reads as when the commit began. */
  ghost predicate Same(g: Geometry, v: Disk, s: State, b: nat)
    requires Shape(g, s) && |v| == g.blocks
  {
    g.Home(b) ==> View(s, b) == v[b]
  }

  /** The machine is committing header `h`, and when it began callers saw `v`. */
  ghost predicate Committing(g: Geometry, v: Disk, h: seq<nat>, s: State) {
    && Inv(g, s) && |v| == g.blocks && s.lh == h
    && (s.phase.WriteLog? || (s.phase.Install? && !s.phase.recovering))
    && (forall b: nat :: Same(g, v, s, b))
    && s.disk[g.start] == (if s.phase.WriteLog? then v[g.start] else WithHeader(v[g.start], h))
    && (s.phase.Install? ==> forall j :: 0 <= j < |h| ==> s.disk[g.start + 1 + j] == v[h[j]])
  }

  /** Write number `w` of a commit. */
  ghost function CommitWrite(g: Geometry, v: Disk, h: seq<nat>, w: nat): (r: DiskWrite)
    requires HeaderOk(g, h) && g.Valid() && |v| == g.blocks && w < 2 * |h| + 2
    ensures r.b < g.blocks
  {
    var n, header := |h|, WithHeader(v[g.start], h);
    if w < n then DiskWrite(g.start + 1 + w, v[h[w]])
    else if w == n then DiskWrite(g.start, header)
    else if w <= 2 * n then DiskWrite(h[w - n - 1], v[h[w - n - 1]])
    else DiskWrite(g.start, WithHeader(header, []))
  }

  /** The writes of a commit, one by one. */
  lemma CommitWriteAt(g: Geometry, v: Disk, h: seq<nat>)
    requires HeaderOk(g, h) && g.Valid() && |v| == g.blocks
    ensures var ws := CommitWrites(g, v, h);
      |ws| == 2 * |h| + 2 && forall w: nat :: w < |ws| ==> ws[w] == CommitWrite(g, v, h, w)
  {
  }

  /** The disk of `t` is that of `s` after the next write of the commit. */
  ghost predicate Advances(g: Geometry, v: Disk, h: seq<nat>, s: State, t: State) {
    && HeaderOk(g, h) && g.Valid() && |v| == |s.disk| == g.blocks && Written(s) < 2 * |h| + 2
    && var w := CommitWrite(g, v, h, Written(s));
       t.disk == s.disk[w.b := w.data]
  }

  /** The log area reads as it is on the disk. */
  lemma LogView(g: Geometry, s: State, b: nat)
    requires Inv(g, s) && b < g.blocks && !g.Home(b)
    ensures View(s, b) == s.disk[b]
  {
  }

  /** No step changes how a home block reads during a commit. */
  lemma SameKept(g: Geometry, v: Disk, h: seq<nat>, s: State, step: Step)
    requires Committing(g, v, h, s) && Enabled(g, s, step) && !step.Crash?
    ensures Inv(g, Apply(g, s, step)) && forall b: nat :: Same(g, v, Apply(g, s, step), b)
  {
    StepKeepsInv(g, s, step);
    var t := Apply(g, s, step);
    forall b: nat ensures Same(g, v, t, b) {
      assert Same(g, v, s, b);
      if g.Home(b) {
        CacheIsFlatMap(g, s, step, b);
      }
    }
  }

  /** A step of another process leaves the commit where it was. */
  lemma OthersKeep(g: Geometry, v: Disk, h: seq<nat>, s: State, step: Step)
    requires Committing(g, v, h, s) && Enabled(g, s, step) && !step.Crash? && !Writes(step)
    ensures var t := Apply(g, s, step);
      Committing(g, v, h, t) && Written(t) == Written(s) && t.disk == s.disk
  {
    SameKept(g, v, h, s, step);
  }

  lemma LogStep(g: Geometry, v: Disk, h: seq<nat>, s: State)
    requires Committing(g, v, h, s) && Enabled(g, s, CopyToLog)
    ensures var t := Apply(g, s, CopyToLog);
      Advances(g, v, h, s, t) && Committing(g, v, h, t) && Written(t) == Written(s) + 1
  {
    SameKept(g, v, h, s, CopyToLog);
    assert Same(g, v, s, h[s.phase.done]);
  }

  lemma HeadStep(g: Geometry, v: Disk, h: seq<nat>, s: State)
    requires Committing(g, v, h, s) && Enabled(g, s, WriteHead)
    ensures var t := Apply(g, s, WriteHead);
      Advances(g, v, h, s, t) && Committing(g, v, h, t) && Written(t) == Written(s) + 1
  {
    SameKept(g, v, h, s, WriteHead);
    forall j | 0 <= j < |h| ensures Apply(g, s, WriteHead).disk[g.start + 1 + j] == v[h[j]] {
      assert Same(g, v, s, h[j]);
    }
  }

  lemma HomeWritten(g: Geometry, v: Disk, h: seq<nat>, s: State)
    requires Committing(g, v, h, s) && Enabled(g, s, InstallBlock)
    ensures var k := s.phase.done;
      g.Home(h[k]) && Apply(g, s, InstallBlock).disk == s.disk[h[k] := v[h[k]]]
  {
    var k, b := s.phase.done, g.start + 1 + s.phase.done;
    assert b < g.blocks && !g.Home(b);
    LogView(g, s, b);
    assert View(s, b) == v[h[k]];
  }

  lemma HomeStep(g: Geometry, v: Disk, h: seq<nat>, s: State)
    requires Committing(g, v, h, s) && Enabled(g, s, InstallBlock)
    ensures var t := Apply(g, s, InstallBlock);
      Advances(g, v, h, s, t) && Committing(g, v, h, t) && Written(t) == Written(s) + 1
  {
    HomeWritten(g, v, h, s);
    assert Written(s) - |h| - 1 == s.phase.done;
    assert Advances(g, v, h, s, Apply(g, s, InstallBlock));
    SameKept(g, v, h, s, InstallBlock);
  }

  /** The commit is over. */
  ghost predicate Committed(g: Geometry, v: Disk, s: State) {
    && Inv(g, s) && |v| == g.blocks && s.phase.Idle? && s.lh == []
    && forall b: nat :: Same(g, v, s, b)
  }

  lemma ClearStep(g: Geometry, v: Disk, h: seq<nat>, s: State)
    requires Committing(g, v, h, s) && Enabled(g, s, ClearHead)
    ensures var t := Apply(g, s, ClearHead);
      Advances(g, v, h, s, t) && Written(s) + 1 == 2 * |h| + 2 && Committed(g, v, t)
  {
    SameKept(g, v, h, s, ClearHead);
    LogView(g, s, g.start);
  }

  // ---------- Whole commits ----------

  /** How many of steps `j` to `k` write to the disk. */
  function CountWrites(steps: seq<Step>, j: nat, k: nat): (w: nat)
    requires j <= k <= |steps|
    decreases k
  {
    if j == k then 0 else CountWrites(steps, j, k - 1) + if Writes(steps[k - 1]) then 1 else 0
  }

  /** Steps `j` to `k` hold no crash, and no header is cleared before the last of them. */
  ghost predicate Uninterrupted(steps: seq<Step>, j: nat, k: nat)
    requires j <= k <= |steps|
  {
    forall i :: j <= i < k ==> !steps[i].Crash? && (steps[i].ClearHead? ==> i == k - 1)
  }

  /** The first `w` of the writes `ws` have taken disk `d` to `e`. */
  ghost predicate FirstWrites(ws: seq<DiskWrite>, w: nat, d: Disk, e: Disk) {
    && w <= |ws| && (forall i :: 0 <= i < |ws| ==> ws[i].b < |d|)
    && e == AfterWrites(d, ws[..w])
  }

  lemma FirstWritesNext(ws: seq<DiskWrite>, w: nat, d: Disk, e: Disk, f: Disk)
    requires FirstWrites(ws, w, d, e) && w < |ws| && f == e[ws[w].b := ws[w].data]
    ensures FirstWrites(ws, w + 1, d, f)
  {
    assert ws[..w + 1] == ws[..w] + [ws[w]];
    AfterWritesNext(d, ws[..w], ws[w]);
  }

  /** What a step of a run does to the disk during a commit. */
  lemma CommitDisk(g: Geometry, v: Disk, h: seq<nat>, s: State, step: Step)
    requires Committing(g, v, h, s) && Enabled(g, s, step) && !step.Crash?
    ensures if Writes(step) then Advances(g, v, h, s, Apply(g, s, step)) else Apply(g, s, step).disk == s.disk
  {
    match step {
      case CopyToLog => LogStep(g, v, h, s);
      case WriteHead => HeadStep(g, v, h, s);
      case InstallBlock => HomeStep(g, v, h, s);
      case ClearHead => ClearStep(g, v, h, s);
      case _ => OthersKeep(g, v, h, s, step);
    }
  }

  /** How far a step of a run takes a commit. */
  lemma CommitStep(g: Geometry, v: Disk, h: seq<nat>, s: State, step: Step)
    requires Committing(g, v, h, s) && Enabled(g, s, step) && !step.Crash?
    ensures var t := Apply(g, s, step);
      if step.ClearHead? then Written(s) + 1 == 2 * |h| + 2 && Committed(g, v, t)
      else Committing(g, v, h, t) && Written(t) == Written(s) + if Writes(step) then 1 else 0
  {
    match step {
      case CopyToLog => LogStep(g, v, h, s);
      case WriteHead => HeadStep(g, v, h, s);
      case InstallBlock => HomeStep(g, v, h, s);
      case ClearHead => ClearStep(g, v, h, s);
      case _ => OthersKeep(g, v, h, s, step);
    }
  }

  /** `ws` are the writes of the commit. */
  ghost predicate AreCommit(g: Geometry, v: Disk, h: seq<nat>, ws: seq<DiskWrite>) {
    && HeaderOk(g, h) && g.Valid() && |v| == g.blocks && |ws| == 2 * |h| + 2
    && forall w: nat :: w < |ws| ==> ws[w] == CommitWrite(g, v, h, w)
  }

  /** Step `i` does the next write of `ws`, or none. */
  ghost predicate DiskStepAt(ws: seq<DiskWrite>, states: seq<State>, steps: seq<Step>, j: nat, i: nat) {
    && j <= i < |steps| < |states|
    && var w := CountWrites(steps, j, i);
      if Writes(steps[i]) then && w < |ws| && ws[w].b < |states[i].disk|
                               && states[i + 1].disk == states[i].disk[ws[w].b := ws[w].data]
      else states[i + 1].disk == states[i].disk
  }

  lemma {:induction false} DisksFollow(ws: seq<DiskWrite>, states: seq<State>, steps: seq<Step>, j: nat, k: nat)
    requires j <= k <= |steps| < |states| && FirstWrites(ws, 0, states[j].disk, states[j].disk)
    requires forall i: nat :: j <= i < k ==> DiskStepAt(ws, states, steps, j, i)
    ensures FirstWrites(ws, CountWrites(steps, j, k), states[j].disk, states[k].disk)
    decreases k
  {
    if j < k {
      DisksFollow(ws, states, steps, j, k - 1);
      assert DiskStepAt(ws, states, steps, j, k - 1);
      if Writes(steps[k - 1]) {
        FirstWritesNext(ws, CountWrites(steps, j, k - 1), states[j].disk, states[k - 1].disk, states[k].disk);
      }
    }
  }

  lemma CommitDiskStep(g: Geometry, v: Disk, h: seq<nat>, ws: seq<DiskWrite>, s: State, step: Step)
    requires Committing(g, v, h, s) && Enabled(g, s, step) && !step.Crash? && AreCommit(g, v, h, ws)
    ensures var t, w := Apply(g, s, step), Written(s);
      if Writes(step) then w < |ws| && ws[w].b < |s.disk| && t.disk == s.disk[ws[w].b := ws[w].data] else t.disk == s.disk
  {
    CommitDisk(g, v, h, s, step);
    if Writes(step) {
      assert ws[Written(s)] == CommitWrite(g, v, h, Written(s));
    }
  }

  /** What a commit that began in state `s` writes. */
  ghost function CommitOf(g: Geometry, s: State): (ws: seq<DiskWrite>)
    requires Shape(g, s)
  {
    CommitWrites(g, Views(g, s), s.lh)
  }

  lemma CommitBegins(g: Geometry, s: State)
    requires Inv(g, s) && s.phase == WriteLog(0)
    ensures Committing(g, Views(g, s), s.lh, s)
    ensures AreCommit(g, Views(g, s), s.lh, CommitOf(g, s)) && FirstWrites(CommitOf(g, s), 0, s.disk, s.disk)
  {
    LogView(g, s, g.start);
    CommitWriteAt(g, Views(g, s), s.lh);
  }

  /** Where a commit stands after steps `j` to `k`. */
  ghost predicate SoFar(g: Geometry, v: Disk, h: seq<nat>, steps: seq<Step>, j: nat, k: nat, s: State)
    requires j <= k <= |steps|
  {
    if k > j && steps[k - 1].ClearHead?
    then CountWrites(steps, j, k) == 2 * |h| + 2 && Committed(g, v, s)
    else CountWrites(steps, j, k) == Written(s) && Committing(g, v, h, s)
  }

  lemma {:induction false} CommitRun(g: Geometry, states: seq<State>, steps: seq<Step>, j: nat, k: nat,
                                     v: Disk, h: seq<nat>)
    requires Run(g, states, steps) && j <= k <= |steps| && Uninterrupted(steps, j, k)
    requires Committing(g, v, h, states[j]) && Written(states[j]) == 0
    ensures SoFar(g, v, h, steps, j, k, states[k])
    decreases k
  {
    if j < k {
      CommitRun(g, states, steps, j, k - 1, v, h);
      assert k - 1 > j ==> !steps[k - 2].ClearHead?;
      assert NextAt(g, states, steps, k - 1) && Committing(g, v, h, states[k - 1]);
      CommitStep(g, v, h, states[k - 1], steps[k - 1]);
    }
  }

  /** Step `i` of a commit that is not over. */
  lemma WriteFollows(g: Geometry, states: seq<State>, steps: seq<Step>, j: nat, i: nat, v: Disk, h: seq<nat>, ws: seq<DiskWrite>)
    requires Run(g, states, steps) && j <= i < |steps| && Uninterrupted(steps, j, i + 1)
    requires Committing(g, v, h, states[j]) && Written(states[j]) == 0 && AreCommit(g, v, h, ws)
    ensures DiskStepAt(ws, states, steps, j, i)
  {
    CommitRun(g, states, steps, j, i, v, h);
    assert i > j ==> !steps[i - 1].ClearHead?;
    assert NextAt(g, states, steps, i) && Committing(g, v, h, states[i]);
    CommitDiskStep(g, v, h, ws, states[i], steps[i]);
  }

  lemma CommitWritten(g: Geometry, states: seq<State>, steps: seq<Step>, j: nat, k: nat,
                      v: Disk, h: seq<nat>, ws: seq<DiskWrite>)
    requires Run(g, states, steps) && j <= k <= |steps| && Uninterrupted(steps, j, k)
    requires Committing(g, v, h, states[j]) && Written(states[j]) == 0
    requires AreCommit(g, v, h, ws) && FirstWrites(ws, 0, states[j].disk, states[j].disk)
    ensures FirstWrites(ws, CountWrites(steps, j, k), states[j].disk, states[k].disk)
  {
    forall i: nat | j <= i < k ensures DiskStepAt(ws, states, steps, j, i) {
      WriteFollows(g, states, steps, j, i, v, h, ws);
    }
    DisksFollow(ws, states, steps, j, k);
  }

  /** A commit that began at step `j` has done, by step `k`, as many of its disk writes as there were
      writing steps, and nothing else has changed the disk; it is over once the header is cleared. */
  lemma CommitRefines(g: Geometry, states: seq<State>, steps: seq<Step>, j: nat, k: nat)
    requires Run(g, states, steps) && Initial(g, states[0]) && j <= k <= |steps|
    requires states[j].phase == WriteLog(0) && Uninterrupted(steps, j, k)
    ensures Inv(g, states[j])
    ensures var ws, w := CommitOf(g, states[j]), CountWrites(steps, j, k);
      && FirstWrites(ws, w, states[j].disk, states[k].disk)
      && if k > j && steps[k - 1].ClearHead? then w == |ws| && states[k].phase.Idle? && states[k].lh == []
         else w == Written(states[k]) < |ws|
  {
    InvAlways(g, states, steps, j);
    CommitBegins(g, states[j]);
    CommitRun(g, states, steps, j, k, Views(g, states[j]), states[j].lh);
    CommitWritten(g, states, steps, j, k, Views(g, states[j]), states[j].lh, CommitOf(g, states[j]));
  }

  // ---------- The views after a commit ----------

  /** A commit rewrites home blocks with what they already read. */
  lemma {:induction false} HomeUntouched(g: Geometry, v: Disk, h: seq<nat>, ws: seq<DiskWrite>, w: nat, b: nat)
    requires AreCommit(g, v, h, ws) && w <= |ws| && g.Home(b)
    ensures forall i :: 0 <= i < |ws| ==> ws[i].b < |v|
    ensures AfterWrites(v, ws[..w])[b] == v[b]
  {
    if w > 0 {
      HomeUntouched(g, v, h, ws, w - 1, b);
      assert ws[..w] == ws[..w - 1] + [ws[w - 1]] && ws[w - 1] == CommitWrite(g, v, h, w - 1);
      AfterWritesNext(v, ws[..w - 1], ws[w - 1]);
    }
  }

  lemma {:induction false} AfterWritesSame(d: Disk, e: Disk, ws: seq<DiskWrite>, b: nat)
    requires |d| == |e| && b < |d| && d[b] == e[b]
    requires forall i :: 0 <= i < |ws| ==> ws[i].b < |d|
    ensures AfterWrites(d, ws)[b] == AfterWrites(e, ws)[b]
  {
    if ws != [] {
      AfterWritesSame(d, e, ws[..|ws| - 1], b);
    }
  }

  /** What block `b` reads after a commit from `s` to `t`. */
  lemma CommitView(g: Geometry, h: seq<nat>, ws: seq<DiskWrite>, s: State, t: State, b: nat)
    requires Inv(g, s) && Inv(g, t) && b < g.blocks && Same(g, Views(g, s), t, b)
    requires AreCommit(g, Views(g, s), h, ws) && FirstWrites(ws, |ws|, s.disk, t.disk)
    ensures AfterWrites(Views(g, s), ws)[b] == View(t, b)
  {
    assert ws[..|ws|] == ws;
    if g.Home(b) {
      HomeUntouched(g, Views(g, s), h, ws, |ws|, b);
    } else {
      LogView(g, s, b);
      LogView(g, t, b);
      AfterWritesSame(s.disk, Views(g, s), ws, b);
    }
  }

  /** A whole commit of the machine, whatever the other processes did meanwhile, leaves the disk and what
      every block reads as the class leaves them: `t` is where `Log.Commit` takes `m`. */
  lemma CommitAgrees(g: Geometry, states: seq<State>, steps: seq<Step>, j: nat, k: nat, m: Mark, t: Mark)
    requires Run(g, states, steps) && Initial(g, states[0]) && j < k <= |steps|
    requires states[j].phase == WriteLog(0) && Uninterrupted(steps, j, k) && steps[k - 1].ClearHead?
    requires Shape(g, states[j]) && m.disk == states[j].disk && m.view == Views(g, states[j])
    requires Wrote(m, CommitWrites(g, m.view, states[j].lh), t)
    ensures Inv(g, states[k]) && t.disk == states[k].disk && t.view == Views(g, states[k])
  {
    var v, h, ws := m.view, states[j].lh, CommitOf(g, states[j]);
    InvAlways(g, states, steps, j);
    CommitBegins(g, states[j]);
    CommitRun(g, states, steps, j, k, v, h);
    CommitWritten(g, states, steps, j, k, v, h, ws);
    assert ws[..|ws|] == ws;
    forall b: nat | b < g.blocks ensures t.view[b] == Views(g, states[k])[b] {
      assert Same(g, v, states[k], b);
      CommitView(g, h, ws, states[j], states[k], b);
    }
  }

  // ---------- Recovery ----------

  /** Log block `j` is as it was on disk `d`. */
  ghost predicate Kept(g: Geometry, d: Disk, e: Disk, j: nat)
    requires DiskOk(g, d) && |e| == |d|
  {
    j < |Header(d[g.start])| ==> e[g.start + 1 + j] == d[g.start + 1 + j]
  }

  /** The machine is recovering disk `d`. */
  ghost predicate Restoring(g: Geometry, d: Disk, s: State) {
    && DiskOk(g, d) && Inv(g, s) && Recovering(s) && s.disk[g.start] == d[g.start]
    && (s.phase.Boot? ==> s.disk == d)
    && (s.phase.Install? ==> s.lh == Header(d[g.start]))
    && forall j: nat :: Kept(g, d, s.disk, j)
  }

  /** How many of its disk writes a recovery has done. */
  function Restored(s: State): nat {
    if s.phase.Install? then s.phase.done else 0
  }

  /** Write number `w` of a recovery. */
  ghost function RecoverWrite(g: Geometry, d: Disk, w: nat): (r: DiskWrite)
    requires DiskOk(g, d) && w <= |Header(d[g.start])|
    ensures r.b < g.blocks
  {
    var h := Header(d[g.start]);
    if w < |h| then DiskWrite(h[w], d[g.start + 1 + w]) else DiskWrite(g.start, WithHeader(d[g.start], []))
  }

  /** The writes of a recovery, one by one. */
  lemma RecoverWriteAt(g: Geometry, d: Disk)
    requires DiskOk(g, d)
    ensures var ws := RecoverWrites(g, d);
      |ws| == |Header(d[g.start])| + 1 && forall w: nat :: w < |ws| ==> ws[w] == RecoverWrite(g, d, w)
  {
  }

  lemma RestoreBlock(g: Geometry, d: Disk, s: State)
    requires Restoring(g, d, s) && Enabled(g, s, InstallBlock)
    ensures var t, w := Apply(g, s, InstallBlock), RecoverWrite(g, d, Restored(s));
      t.disk == s.disk[w.b := w.data] && Restoring(g, d, t) && Restored(t) == Restored(s) + 1
  {
    StepKeepsInv(g, s, InstallBlock);
    LogView(g, s, g.start + 1 + s.phase.done);
    var t := Apply(g, s, InstallBlock);
    assert g.Home(s.lh[s.phase.done]) && Kept(g, d, s.disk, s.phase.done);
    forall j: nat ensures Kept(g, d, t.disk, j) {
      assert Kept(g, d, s.disk, j);
    }
  }

  lemma RestoreEnd(g: Geometry, d: Disk, s: State)
    requires Restoring(g, d, s) && Enabled(g, s, ClearHead)
    ensures var t, w := Apply(g, s, ClearHead), RecoverWrite(g, d, Restored(s));
      && t.disk == s.disk[w.b := w.data] && Restored(s) == |Header(d[g.start])|
      && t.phase.Idle? && t.lh == []
  {
    LogView(g, s, g.start);
  }

  /** The header is read, or a buffer recycled. */
  lemma RestoreOther(g: Geometry, d: Disk, s: State, step: Step)
    requires Restoring(g, d, s) && Enabled(g, s, step) && !step.Crash? && !Writes(step)
    ensures var t := Apply(g, s, step);
      t.disk == s.disk && Restoring(g, d, t) && Restored(t) == Restored(s)
  {
    StepKeepsInv(g, s, step);
  }

  /** `ws` are the writes of the recovery. */
  ghost predicate AreRecovery(g: Geometry, d: Disk, ws: seq<DiskWrite>) {
    && DiskOk(g, d) && |ws| == |Header(d[g.start])| + 1
    && forall w: nat :: w < |ws| ==> ws[w] == RecoverWrite(g, d, w)
  }

  /** One step of a run during a recovery. */
  lemma RestoreStep(g: Geometry, d: Disk, ws: seq<DiskWrite>, s: State, step: Step)
    requires Restoring(g, d, s) && Enabled(g, s, step) && !step.Crash?
    requires AreRecovery(g, d, ws) && FirstWrites(ws, Restored(s), d, s.disk)
    ensures var t := Apply(g, s, step);
      if step.ClearHead?
      then Restored(s) + 1 == |ws| && FirstWrites(ws, |ws|, d, t.disk) && t.phase.Idle? && t.lh == []
      else && Restoring(g, d, t) && FirstWrites(ws, Restored(t), d, t.disk)
           && Restored(t) == Restored(s) + if Writes(step) then 1 else 0
  {
    if !Writes(step) {
      RestoreOther(g, d, s, step);
    } else {
      if step.ClearHead? {
        RestoreEnd(g, d, s);
      } else {
        assert step.InstallBlock?;
        RestoreBlock(g, d, s);
      }
      assert ws[Restored(s)] == RecoverWrite(g, d, Restored(s));
      FirstWritesNext(ws, Restored(s), d, s.disk, Apply(g, s, step).disk);
    }
  }

  /** A recovery that began at step `j` has done, by step `k`, as many of its disk writes as there were
      writing steps; it is over once the header is cleared. */
  lemma {:induction false} RecoverRefines(g: Geometry, states: seq<State>, steps: seq<Step>, j: nat, k: nat)
    requires Run(g, states, steps) && Initial(g, states[0]) && j <= k <= |steps|
    requires states[j].phase.Boot? && Uninterrupted(steps, j, k)
    ensures DiskOk(g, states[j].disk)
    ensures var d, w := states[j].disk, CountWrites(steps, j, k);
      var ws := RecoverWrites(g, d);
      && FirstWrites(ws, w, d, states[k].disk)
      && if k > j && steps[k - 1].ClearHead? then w == |ws| && states[k].phase.Idle? && states[k].lh == []
         else w == Restored(states[k]) < |ws| && Restoring(g, d, states[k])
    decreases k
  {
    InvAlways(g, states, steps, j);
    var d := states[j].disk;
    RecoverWriteAt(g, d);
    if j < k {
      RecoverRefines(g, states, steps, j, k - 1);
      assert NextAt(g, states, steps, k - 1);
      RestoreStep(g, d, RecoverWrites(g, d), states[k - 1], steps[k - 1]);
    }
  }

  // ---------- Reservations ----------

  /** The account `r` of reservations is that of the machine: one entry per outstanding operation, and the
      header as long as no commit is clearing it. */
  ghost predicate Accounts(s: State, r: R.Log) {
    |r.used| == s.outstanding && r.lh == if s.phase.Idle? then s.lh else []
  }

  /** What a step of the machine is to the account, if operation `op` does it. */
  function Booking(step: Step, op: nat): Option<R.Step> {
    match step
    case BeginOp => Some(R.Begin)
    case EndOp => Some(R.End(op))
    case LogWrite(b) => Some(R.LogWrite(op, b))
    case _ => None
  }

  /** Every step of the machine other than a crash is a step of the account, or does not touch it; `log_write`
      goes through in the machine just when it does not panic in the account. */
  lemma AccountFollows(g: Geometry, s: State, step: Step, r: R.Log, op: nat)
    requires Inv(g, s) && Accounts(s, r) && Enabled(g, s, step) && !step.Crash? && !Recovering(s)
    requires step.EndOp? || step.LogWrite? ==> op < s.outstanding
    ensures match Booking(step, op)
      case None => Accounts(Apply(g, s, step), r)
      case Some(booked) => R.Enabled(r, booked) && Accounts(Apply(g, s, step), R.Apply(r, booked))
    ensures step.LogWrite? ==> !R.Panics(g.size, r)
  {
  }

  /** It panics in the account just when the test of `log_write` fails in the machine. */
  lemma PanicsAlike(g: Geometry, s: State, b: nat, r: R.Log)
    requires Inv(g, s) && Accounts(s, r) && s.phase.Idle? && s.outstanding >= 1 && g.Home(b) && !Unheld(s, b)
    ensures Enabled(g, s, LogWrite(b)) <==> !R.Panics(g.size, r)
  {
  }
}
