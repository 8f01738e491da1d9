/** Disk blocks and the layout of the on-disk log: a header block followed by log blocks. */
module LogLayout {
  import opened Common

  const WORDS: nat := 128

  /** A 512-byte block, seen as its 128 words. */
  type Block = b: seq<nat> | |b| == WORDS witness seq(WORDS, _ => 0)

  type Disk = seq<Block>

  /** Where the log lives (`log.start`, `log.size`) on a disk of `blocks` blocks. */
  datatype Geometry = Geometry(start: nat, size: nat, blocks: nat) {

    predicate Valid() {
      1 <= size && start + size <= blocks
    }

    /** A block outside the log area. */
    predicate Home(b: nat) {
      b < blocks && !(start <= b < start + size)
    }
  }

  /** The list of block numbers a header block holds. */
  function Header(blk: Block): (h: seq<nat>)
    requires blk[0] <= LOGSIZE
  {
    blk[1..1 + blk[0]]
  }

  /** The header block after `write_head`: the words past the last entry are left as they were. */
  function WithHeader(blk: Block, h: seq<nat>): (r: Block)
    requires |h| <= LOGSIZE
    ensures r[0] <= LOGSIZE && Header(r) == h
  {
    [|h|] + h + blk[1 + |h|..]
  }

  ghost predicate HeaderOk(g: Geometry, h: seq<nat>) {
    && |h| <= LOGSIZE
    && |h| <= g.size - 1
    && NoDup(h)
    && forall i :: 0 <= i < |h| ==> g.Home(h[i])
  }

  ghost predicate DiskOk(g: Geometry, d: Disk) {
    && g.Valid()
    && |d| == g.blocks
    && d[g.start][0] <= LOGSIZE
    && HeaderOk(g, Header(d[g.start]))
  }

  /** The position of a logged block in the header. */
  ghost function Index(h: seq<nat>, b: nat): (i: nat)
    requires b in h
    ensures i < |h| && h[i] == b
  {
    var i :| 0 <= i < |h| && h[i] == b;
    i
  }

  /** Block `b` as it stands once the on-disk log has been replayed. */
  ghost function DurableBlock(g: Geometry, d: Disk, b: nat): Block
    requires DiskOk(g, d) && g.Home(b)
  {
    var h := Header(d[g.start]);
    if b in h then d[g.start + 1 + Index(h, b)] else d[b]
  }

  /** What a disk durably holds, whatever happens next. */
  ghost function Durable(g: Geometry, d: Disk): map<nat, Block>
    requires DiskOk(g, d)
  {
    map b: nat | b < g.blocks && g.Home(b) :: DurableBlock(g, d, b)
  }

  // ---------- How single writes change what is durable ----------

  /** Block by block: a logged block's log copy, any other block's home copy. */
  lemma DurableAt(g: Geometry, d: Disk, b: nat)
    requires DiskOk(g, d) && g.Home(b)
    ensures var h := Header(d[g.start]);
      && b in Durable(g, d)
      && (b !in h ==> Durable(g, d)[b] == d[b])
      && forall i :: 0 <= i < |h| && h[i] == b ==> Durable(g, d)[b] == d[g.start + 1 + i]
  {
  }

  /** Writing into the log area while the header is empty changes nothing durable. */
  lemma LogBlockWrite(g: Geometry, d: Disk, e: Disk, i: nat)
    requires DiskOk(g, d) && DiskOk(g, e) && i < g.size - 1
    requires Header(d[g.start]) == []
    requires e == d[g.start + 1 + i := e[g.start + 1 + i]]
    ensures Durable(g, e) == Durable(g, d)
  {
  }

  /** Writing the header commits the log blocks it names, all at once. */
  lemma HeaderWriteGroup(g: Geometry, d: Disk, e: Disk, group: map<nat, Block>)
    requires DiskOk(g, d) && DiskOk(g, e)
    requires Header(d[g.start]) == []
    requires e == d[g.start := e[g.start]]
    requires var h := Header(e[g.start]);
      && group.Keys == (set x | x in h)
      && forall i :: 0 <= i < |h| ==> group[h[i]] == d[g.start + 1 + i]
    ensures Durable(g, e) == Durable(g, d) + group
  {
    var h := Header(e[g.start]);
    forall b: nat | g.Home(b)
      ensures b in Durable(g, d) && b in Durable(g, e)
      ensures Durable(g, e)[b] == if b in group then group[b] else Durable(g, d)[b]
    {
      DurableAt(g, d, b);
      DurableAt(g, e, b);
      if b in group {
        var i :| 0 <= i < |h| && h[i] == b;
      }
    }
  }

  /** Installing a logged block at its home changes nothing durable. */
  lemma HomeWrite(g: Geometry, d: Disk, e: Disk, i: nat)
    requires DiskOk(g, d) && DiskOk(g, e) && i < |Header(d[g.start])|
    requires e == d[Header(d[g.start])[i] := d[g.start + 1 + i]]
    ensures Durable(g, e) == Durable(g, d)
  {
    var h := Header(d[g.start]);
    assert Header(e[g.start]) == h;
    forall b: nat | g.Home(b)
      ensures b in Durable(g, d) && b in Durable(g, e) && Durable(g, e)[b] == Durable(g, d)[b]
    {
      DurableAt(g, d, b);
      DurableAt(g, e, b);
    }
  }

  /** Clearing the header once every logged block is installed changes nothing durable. */
  lemma HeaderClear(g: Geometry, d: Disk, e: Disk)
    requires DiskOk(g, d) && DiskOk(g, e)
    requires var h := Header(d[g.start]);
      forall i :: 0 <= i < |h| ==> d[h[i]] == d[g.start + 1 + i]
    requires e == d[g.start := e[g.start]] && Header(e[g.start]) == []
    ensures Durable(g, e) == Durable(g, d)
  {
    forall b: nat | g.Home(b)
      ensures b in Durable(g, d) && b in Durable(g, e) && Durable(g, e)[b] == Durable(g, d)[b]
    {
      DurableAt(g, d, b);
      DurableAt(g, e, b);
    }
  }
}

/** The log over the buffer cache as a machine whose steps are single atomic disk writes, single
    cache operations, and crashes. Any enabled step may follow any other, so a crash can fall between
    any two disk writes, also during recovery. */
module LogMachine {
  import opened Common
  import opened LogLayout

  datatype Buf = Buf(data: Block, dirty: bool, busy: bool)

  /** Where the committing or recovering process stands. */
  datatype Phase =
    | Idle
    | WriteLog(done: nat)                    // in write_log, `done` log blocks written
    | Install(done: nat, recovering: bool)   // in install_trans, `done` home blocks written
    | Boot                                   // after a crash, before read_head

  datatype State = State(
    disk: Disk,
    cache: map<nat, Buf>,
    lh: seq<nat>,
    outstanding: nat,
    phase: Phase)

  datatype Step =
    | BeginOp
    | EndOp
    | Bread(b: nat)
    | Modify(b: nat, data: Block)
    | LogWrite(b: nat)
    | Brelse(b: nat)
    | Recycle(b: nat)
    | CopyToLog
    | WriteHead
    | InstallBlock
    | ClearHead
    | Crash
    | ReadHead

  ghost predicate Shape(g: Geometry, s: State) {
    && DiskOk(g, s.disk)
    && HeaderOk(g, s.lh)
    && forall b :: b in s.cache ==> b < g.blocks
  }

  predicate Unheld(s: State, b: nat) {
    b in s.cache ==> !s.cache[b].busy
  }

  /** What `bread` hands out: the cached contents, else the disk contents. */
  function View(s: State, b: nat): (r: Block)
    requires b < |s.disk|
  {
    if b in s.cache then s.cache[b].data else s.disk[b]
  }

  predicate Recovering(s: State) {
    s.phase.Boot? || (s.phase.Install? && s.phase.recovering)
  }

  ghost predicate Enabled(g: Geometry, s: State, step: Step)
    requires Shape(g, s)
  {
    match step
    case BeginOp => s.phase.Idle? && |s.lh| + (s.outstanding + 1) * MAXOPBLOCKS <= LOGSIZE
    case EndOp => s.phase.Idle? && s.outstanding >= 1
    case Bread(b) => !Recovering(s) && b < g.blocks && Unheld(s, b)
    case Modify(b, _) => s.phase.Idle? && s.outstanding >= 1 && g.Home(b) && !Unheld(s, b)
    case LogWrite(b) =>
      && s.phase.Idle? && s.outstanding >= 1 && g.Home(b) && !Unheld(s, b)
      && |s.lh| < LOGSIZE && |s.lh| < g.size - 1
    case Brelse(b) =>
      // A modified buffer goes through log_write before it is released.
      b in s.cache && s.cache[b].busy && (s.cache[b].dirty || s.cache[b].data == s.disk[b])
    case Recycle(b) => b in s.cache && !s.cache[b].busy && !s.cache[b].dirty
    case CopyToLog =>
      && s.phase.WriteLog? && s.phase.done < |s.lh|
      && Unheld(s, s.lh[s.phase.done]) && Unheld(s, g.start + 1 + s.phase.done)
    case WriteHead => s.phase.WriteLog? && s.phase.done == |s.lh| && Unheld(s, g.start)
    case InstallBlock =>
      && s.phase.Install? && s.phase.done < |s.lh|
      && Unheld(s, s.lh[s.phase.done]) && Unheld(s, g.start + 1 + s.phase.done)
    case ClearHead => s.phase.Install? && s.phase.done == |s.lh| && Unheld(s, g.start)
    case Crash => true
    case ReadHead => s.phase.Boot?
  }

  /** `bread`, overwrite, `bwrite`, `brelse`: one disk write, leaving a clean buffer. */
  function Write(s: State, b: nat, data: Block): State
    requires b < |s.disk|
  {
    s.(disk := s.disk[b := data], cache := s.cache[b := Buf(data, false, false)])
  }

  /** Log absorption: a block already in the header keeps its place. */
  function Absorb(lh: seq<nat>, b: nat): seq<nat> {
    if b in lh then lh else lh + [b]
  }

  ghost function Apply(g: Geometry, s: State, step: Step): State
    requires Shape(g, s) && Enabled(g, s, step)
  {
    match step
    case BeginOp => s.(outstanding := s.outstanding + 1)
    case EndOp =>
      s.(outstanding := s.outstanding - 1,
         phase := if s.outstanding == 1 && |s.lh| > 0 then WriteLog(0) else Idle)
    case Bread(b) =>
      s.(cache := s.cache[b := Buf(View(s, b), b in s.cache && s.cache[b].dirty, true)])
    case Modify(b, data) => s.(cache := s.cache[b := s.cache[b].(data := data)])
    case LogWrite(b) =>
      s.(lh := Absorb(s.lh, b), cache := s.cache[b := s.cache[b].(dirty := true)])
    case Brelse(b) => s.(cache := s.cache[b := s.cache[b].(busy := false)])
    case Recycle(b) => s.(cache := s.cache - {b})
    case CopyToLog =>
      Write(s, g.start + 1 + s.phase.done, View(s, s.lh[s.phase.done]))
        .(phase := WriteLog(s.phase.done + 1))
    case WriteHead =>
      Write(s, g.start, WithHeader(View(s, g.start), s.lh)).(phase := Install(0, false))
    case InstallBlock =>
      Write(s, s.lh[s.phase.done], View(s, g.start + 1 + s.phase.done))
        .(phase := Install(s.phase.done + 1, s.phase.recovering))
    case ClearHead =>
      Write(s, g.start, WithHeader(View(s, g.start), [])).(lh := [], phase := Idle)
    case Crash => State(s.disk, map[], [], 0, Boot)
    case ReadHead => s.(lh := Header(s.disk[g.start]), phase := Install(0, true))
  }

  // ---------- The invariant ----------

  /** Buffers that are neither held nor logged agree with the disk; log blocks always do. */
  ghost predicate CleanAgrees(g: Geometry, s: State)
    requires Shape(g, s)
  {
    forall b :: b in s.cache ==>
      && (!s.cache[b].dirty && !s.cache[b].busy ==> s.cache[b].data == s.disk[b])
      && (!g.Home(b) ==> !s.cache[b].dirty && s.cache[b].data == s.disk[b])
  }

  ghost predicate Logged(lh: seq<nat>, from: nat, b: nat) {
    exists j :: from <= j < |lh| && lh[j] == b
  }

  /** The pinned buffers are exactly the header entries from `from` on. */
  ghost predicate Pinned(s: State, from: nat)
    requires from <= |s.lh|
  {
    && (forall j :: from <= j < |s.lh| ==> s.lh[j] in s.cache && s.cache[s.lh[j]].dirty)
    && (forall b :: b in s.cache && s.cache[b].dirty ==> Logged(s.lh, from, b))
  }

  ghost predicate PhaseOk(g: Geometry, s: State)
    requires Shape(g, s)
  {
    match s.phase
    case Idle => Header(s.disk[g.start]) == [] && Pinned(s, 0) && (s.outstanding == 0 ==> s.lh == [])
    case WriteLog(k) =>
      && k <= |s.lh| && s.outstanding == 0
      && Header(s.disk[g.start]) == [] && Pinned(s, 0)
      && forall j :: 0 <= j < k ==> s.disk[g.start + 1 + j] == View(s, s.lh[j])
    case Install(k, recovering) =>
      && k <= |s.lh| && s.outstanding == 0
      && Header(s.disk[g.start]) == s.lh
      && (forall j :: 0 <= j < k ==> s.disk[s.lh[j]] == s.disk[g.start + 1 + j])
      && (if recovering
          then forall b :: b in s.cache ==> !s.cache[b].dirty && !s.cache[b].busy
          else && Pinned(s, k)
               && forall j :: k <= j < |s.lh| ==> s.cache[s.lh[j]].data == s.disk[g.start + 1 + j])
    case Boot => s.cache == map[] && s.lh == [] && s.outstanding == 0
  }

  ghost predicate Inv(g: Geometry, s: State) {
    Shape(g, s) && CleanAgrees(g, s) && PhaseOk(g, s)
  }

  /** Changing one buffer without changing its dirty flag keeps the invariant, as long as a released
      buffer is clean or logged and only a running operation changes data. */
  lemma TouchKeepsInv(g: Geometry, s: State, b: nat, buf: Buf)
    requires Inv(g, s) && !Recovering(s) && b < g.blocks
    requires buf.dirty == (b in s.cache && s.cache[b].dirty)
    requires buf.data != View(s, b) ==> s.phase.Idle? && g.Home(b)
    requires !buf.dirty && !buf.busy ==> buf.data == s.disk[b]
    ensures Inv(g, s.(cache := s.cache[b := buf]))
  {
    var t := s.(cache := s.cache[b := buf]);
    assert CleanAgrees(g, t);
    if s.phase.Install? {
      assert Pinned(t, s.phase.done);
    } else {
      assert Pinned(t, 0);
    }
  }

  lemma MemoryStepKeepsInv(g: Geometry, s: State, step: Step)
    requires Inv(g, s) && Enabled(g, s, step)
    requires step.BeginOp? || step.EndOp? || step.Bread? || step.Modify? || step.Brelse?
    ensures Inv(g, Apply(g, s, step))
  {
    match step {
      case BeginOp =>
      case EndOp =>
      case Bread(b) =>
        TouchKeepsInv(g, s, b, Buf(View(s, b), b in s.cache && s.cache[b].dirty, true));
      case Modify(b, data) => TouchKeepsInv(g, s, b, s.cache[b].(data := data));
      case Brelse(b) => TouchKeepsInv(g, s, b, s.cache[b].(busy := false));
    }
  }

  /** A disk write through the cache keeps clean buffers equal to the disk. */
  lemma WriteKeepsClean(g: Geometry, s: State, b: nat, data: Block)
    requires Shape(g, s) && CleanAgrees(g, s) && b < g.blocks
    requires Shape(g, Write(s, b, data))
    ensures CleanAgrees(g, Write(s, b, data))
  {
  }

  lemma LogWriteKeepsInv(g: Geometry, s: State, step: Step)
    requires Inv(g, s) && step.LogWrite? && Enabled(g, s, step)
    ensures Inv(g, Apply(g, s, step))
  {
    var t := Apply(g, s, step);
    assert t.lh[|t.lh| - 1] == step.b || step.b in s.lh;
    forall b | b in t.cache && t.cache[b].dirty ensures Logged(t.lh, 0, b) {
      if b == step.b {
        assert b in t.lh;
      } else {
        var j :| 0 <= j < |s.lh| && s.lh[j] == b;
        assert t.lh[j] == b;
      }
    }
  }

  lemma RecycleKeepsInv(g: Geometry, s: State, step: Step)
    requires Inv(g, s) && step.Recycle? && Enabled(g, s, step)
    ensures Inv(g, Apply(g, s, step))
  {
  }

  lemma CopyToLogKeepsInv(g: Geometry, s: State, step: Step)
    requires Inv(g, s) && step.CopyToLog? && Enabled(g, s, step)
    ensures Inv(g, Apply(g, s, step))
  {
  }

  lemma WriteHeadKeepsInv(g: Geometry, s: State, step: Step)
    requires Inv(g, s) && step.WriteHead? && Enabled(g, s, step)
    ensures Inv(g, Apply(g, s, step))
  {
  }

  lemma InstallBlockKeepsShape(g: Geometry, s: State, t: State)
    requires Inv(g, s) && s.phase.Install? && s.phase.done < |s.lh|
    requires var k := s.phase.done;
      t == Write(s, s.lh[k], s.disk[g.start + 1 + k]).(phase := Install(k + 1, s.phase.recovering))
    ensures Shape(g, t) && CleanAgrees(g, t) && Header(t.disk[g.start]) == s.lh
    ensures forall j :: 0 <= j <= s.phase.done ==> t.disk[s.lh[j]] == t.disk[g.start + 1 + j]
  {
    var k := s.phase.done;
    WriteKeepsClean(g, s, s.lh[k], s.disk[g.start + 1 + k]);
  }

  lemma InstallBlockKeepsPinned(g: Geometry, s: State, t: State)
    requires Inv(g, s) && s.phase.Install? && s.phase.done < |s.lh| && !s.phase.recovering
    requires var k := s.phase.done;
      t == Write(s, s.lh[k], s.disk[g.start + 1 + k]).(phase := Install(k + 1, false))
    ensures Pinned(t, s.phase.done + 1)
    ensures forall j :: s.phase.done < j < |s.lh| ==>
      s.lh[j] in t.cache && t.cache[s.lh[j]].data == t.disk[g.start + 1 + j]
  {
    assert forall j :: s.phase.done < j < |s.lh| ==> s.lh[j] != s.lh[s.phase.done];
  }

  lemma InstallBlockKeepsInv(g: Geometry, s: State, step: Step)
    requires Inv(g, s) && step.InstallBlock? && Enabled(g, s, step)
    ensures Inv(g, Apply(g, s, step))
  {
    var t, k := Apply(g, s, step), s.phase.done;
    assert View(s, g.start + 1 + k) == s.disk[g.start + 1 + k];
    InstallBlockKeepsShape(g, s, t);
    if !s.phase.recovering {
      InstallBlockKeepsPinned(g, s, t);
    }
  }

  lemma ClearHeadKeepsInv(g: Geometry, s: State, step: Step)
    requires Inv(g, s) && step.ClearHead? && Enabled(g, s, step)
    ensures Inv(g, Apply(g, s, step))
  {
  }

  lemma CrashKeepsInv(g: Geometry, s: State, step: Step)
    requires Inv(g, s) && step.Crash? && Enabled(g, s, step)
    ensures Inv(g, Apply(g, s, step))
  {
  }

  lemma ReadHeadKeepsInv(g: Geometry, s: State, step: Step)
    requires Inv(g, s) && step.ReadHead? && Enabled(g, s, step)
    ensures Inv(g, Apply(g, s, step))
  {
  }

  lemma StepKeepsInv(g: Geometry, s: State, step: Step)
    requires Inv(g, s) && Enabled(g, s, step)
    ensures Inv(g, Apply(g, s, step))
  {
    match step {
      case BeginOp => MemoryStepKeepsInv(g, s, step);
      case EndOp => MemoryStepKeepsInv(g, s, step);
      case Bread(_) => MemoryStepKeepsInv(g, s, step);
      case Modify(_, _) => MemoryStepKeepsInv(g, s, step);
      case Brelse(_) => MemoryStepKeepsInv(g, s, step);
      case LogWrite(_) => LogWriteKeepsInv(g, s, step);
      case Recycle(_) => RecycleKeepsInv(g, s, step);
      case CopyToLog => CopyToLogKeepsInv(g, s, step);
      case WriteHead => WriteHeadKeepsInv(g, s, step);
      case InstallBlock => InstallBlockKeepsInv(g, s, step);
      case ClearHead => ClearHeadKeepsInv(g, s, step);
      case Crash => CrashKeepsInv(g, s, step);
      case ReadHead => ReadHeadKeepsInv(g, s, step);
    }
  }

  // ---------- What is durable ----------

  /** The group being committed: the logged blocks with the contents every reader sees. */
  ghost function Group(g: Geometry, s: State): (m: map<nat, Block>)
    requires Shape(g, s)
  {
    map b: nat | b in s.lh :: View(s, b)
  }

  lemma WriteHeadDurable(g: Geometry, s: State, e: Disk)
    requires Inv(g, s) && s.phase.WriteLog? && s.phase.done == |s.lh|
    requires DiskOk(g, e) && e == s.disk[g.start := e[g.start]] && Header(e[g.start]) == s.lh
    ensures Durable(g, e) == Durable(g, s.disk) + Group(g, s)
  {
    HeaderWriteGroup(g, s.disk, e, Group(g, s));
  }

  lemma InstallBlockDurable(g: Geometry, s: State, e: Disk)
    requires Inv(g, s) && s.phase.Install? && s.phase.done < |s.lh|
    requires e == s.disk[s.lh[s.phase.done] := View(s, g.start + 1 + s.phase.done)]
    requires DiskOk(g, e)
    ensures Durable(g, e) == Durable(g, s.disk)
  {
    HomeWrite(g, s.disk, e, s.phase.done);
  }

  /** Only the header write changes what is durable, and it adds exactly the group. */
  lemma StepDurable(g: Geometry, s: State, step: Step)
    requires Inv(g, s) && Enabled(g, s, step)
    requires DiskOk(g, Apply(g, s, step).disk)
    ensures Durable(g, Apply(g, s, step).disk)
         == if step.WriteHead? then Durable(g, s.disk) + Group(g, s) else Durable(g, s.disk)
  {
    var e := Apply(g, s, step).disk;
    match step {
      case CopyToLog => LogBlockWrite(g, s.disk, e, s.phase.done);
      case WriteHead => WriteHeadDurable(g, s, e);
      case InstallBlock => InstallBlockDurable(g, s, e);
      case ClearHead => HeaderClear(g, s.disk, e);
      case _ => assert e == s.disk;
    }
  }

  // ---------- Whole runs ----------

  ghost predicate Next(g: Geometry, s: State, step: Step, t: State) {
    Shape(g, s) && Enabled(g, s, step) && t == Apply(g, s, step)
  }

  ghost predicate Run(g: Geometry, states: seq<State>, steps: seq<Step>) {
    && |states| == |steps| + 1
    && forall i: nat :: i < |steps| ==> NextAt(g, states, steps, i)
  }

  ghost predicate NextAt(g: Geometry, states: seq<State>, steps: seq<Step>, i: nat)
    requires i < |steps| < |states|
  {
    Next(g, states[i], steps[i], states[i + 1])
  }

  /** A machine about to boot on any disk whose header block is well formed. */
  ghost predicate Initial(g: Geometry, s: State) {
    DiskOk(g, s.disk) && s == State(s.disk, map[], [], 0, Boot)
  }

  /** The groups committed in the first `k` steps of a run, in order. */
  ghost function Groups(g: Geometry, states: seq<State>, steps: seq<Step>, k: nat): seq<map<nat, Block>>
    requires Run(g, states, steps) && k <= |steps|
  {
    if k == 0 then []
    else
      assert NextAt(g, states, steps, k - 1);
      Groups(g, states, steps, k - 1)
      + if steps[k - 1].WriteHead? then [Group(g, states[k - 1])] else []
  }

  /** The reference: a store that takes each group whole. */
  ghost function Store(m: map<nat, Block>, groups: seq<map<nat, Block>>): map<nat, Block> {
    if groups == [] then m else Store(m, groups[..|groups| - 1]) + groups[|groups| - 1]
  }

  lemma StoreNext(m: map<nat, Block>, groups: seq<map<nat, Block>>, group: map<nat, Block>)
    ensures Store(m, groups + [group]) == Store(m, groups) + group
  {
    assert (groups + [group])[..|groups|] == groups;
  }

  lemma {:induction false} InvAlways(g: Geometry, states: seq<State>, steps: seq<Step>, k: nat)
    requires Run(g, states, steps) && Initial(g, states[0]) && k <= |steps|
    ensures Inv(g, states[k])
  {
    if k > 0 {
      InvAlways(g, states, steps, k - 1);
      assert NextAt(g, states, steps, k - 1);
      StepKeepsInv(g, states[k - 1], steps[k - 1]);
    }
  }

  /** `StepDurable` at step `k` of a run. */
  lemma RunStepDurable(g: Geometry, states: seq<State>, steps: seq<Step>, k: nat)
    requires Run(g, states, steps) && Initial(g, states[0]) && k < |steps|
    ensures Shape(g, states[k]) && DiskOk(g, states[k + 1].disk)
    ensures Durable(g, states[k + 1].disk)
         == if steps[k].WriteHead? then Durable(g, states[k].disk) + Group(g, states[k])
            else Durable(g, states[k].disk)
  {
    InvAlways(g, states, steps, k);
    InvAlways(g, states, steps, k + 1);
    assert NextAt(g, states, steps, k);
    StepDurable(g, states[k], steps[k]);
  }

  /** One step of a run keeps what is durable equal to the store. */
  lemma StoreFollows(g: Geometry, states: seq<State>, steps: seq<Step>, k: nat, m: map<nat, Block>)
    requires Run(g, states, steps) && Initial(g, states[0]) && k < |steps|
    requires DiskOk(g, states[k].disk)
    requires Durable(g, states[k].disk) == Store(m, Groups(g, states, steps, k))
    ensures DiskOk(g, states[k + 1].disk)
    ensures Durable(g, states[k + 1].disk) == Store(m, Groups(g, states, steps, k + 1))
  {
    RunStepDurable(g, states, steps, k);
    var groups := Groups(g, states, steps, k);
    if steps[k].WriteHead? {
      assert Groups(g, states, steps, k + 1) == groups + [Group(g, states[k])];
      StoreNext(m, groups, Group(g, states[k]));
    } else {
      assert Groups(g, states, steps, k + 1) == groups;
    }
  }

  /** Crash atomicity. However a run interleaves operations, single disk writes, crashes and
      (interrupted) recoveries, what is durable is the initial store with a whole number of groups
      applied, in commit order. */
  lemma {:induction false} CrashAtomicity(g: Geometry, states: seq<State>, steps: seq<Step>, k: nat)
    requires Run(g, states, steps) && Initial(g, states[0]) && k <= |steps|
    ensures DiskOk(g, states[k].disk)
    ensures Durable(g, states[k].disk)
         == Store(Durable(g, states[0].disk), Groups(g, states, steps, k))
  {
    if k > 0 {
      CrashAtomicity(g, states, steps, k - 1);
      StoreFollows(g, states, steps, k - 1, Durable(g, states[0].disk));
    }
  }

  /** Whenever no process is installing or recovering, the home blocks on disk are exactly the
      store after the groups committed so far: nothing uncommitted, nothing lost. */
  lemma HomeBlocksAfterRecovery(g: Geometry, states: seq<State>, steps: seq<Step>, k: nat, b: nat)
    requires Run(g, states, steps) && Initial(g, states[0]) && k <= |steps|
    requires states[k].phase.Idle? || states[k].phase.WriteLog?
    requires g.Home(b)
    ensures b < |states[k].disk|
    ensures var store := Store(Durable(g, states[0].disk), Groups(g, states, steps, k));
      b in store && states[k].disk[b] == store[b]
  {
    InvAlways(g, states, steps, k);
    CrashAtomicity(g, states, steps, k);
    DurableAt(g, states[k].disk, b);
  }

  /** A commit that got past its header write wrote it at some step `j`, with the same header, and
      its group is the last one in the store ever since. */
  lemma {:induction false} CommitWroteHeader(g: Geometry, states: seq<State>, steps: seq<Step>, k: nat)
    returns (j: nat)
    requires Run(g, states, steps) && Initial(g, states[0]) && k <= |steps|
    requires states[k].phase.Install? && !states[k].phase.recovering
    ensures j < k && steps[j].WriteHead? && states[j].lh == states[k].lh
    ensures Groups(g, states, steps, k) == Groups(g, states, steps, j + 1)
  {
    assert k > 0;
    assert NextAt(g, states, steps, k - 1);
    if steps[k - 1].WriteHead? {
      j := k - 1;
    } else {
      j := CommitWroteHeader(g, states, steps, k - 1);
    }
  }

  /** Groups are only ever added. */
  lemma {:induction false} GroupsGrow(g: Geometry, states: seq<State>, steps: seq<Step>, j: nat, k: nat)
    requires Run(g, states, steps) && j <= k <= |steps|
    ensures FirstOf(Groups(g, states, steps, j), Groups(g, states, steps, k))
  {
    if j < k {
      GroupsGrow(g, states, steps, j, k - 1);
    }
  }

  /** The groups of `a` are the first ones of `b`. */
  ghost predicate FirstOf(a: seq<map<nat, Block>>, b: seq<map<nat, Block>>) {
    a <= b
  }

  /** When `commit` returns, the group it committed is in the store, in its place, and so it is at every
      later step `m`, whatever crashes and recoveries come between. */
  lemma CommitReturned(g: Geometry, states: seq<State>, steps: seq<Step>, k: nat, m: nat) returns (j: nat)
    requires Run(g, states, steps) && Initial(g, states[0]) && k < m <= |steps|
    requires steps[k].ClearHead? && states[k].phase.Install? && !states[k].phase.recovering
    ensures j < k && Shape(g, states[j]) && states[j].lh == states[k].lh
    ensures Groups(g, states, steps, k + 1) == Groups(g, states, steps, j) + [Group(g, states[j])]
    ensures FirstOf(Groups(g, states, steps, k + 1), Groups(g, states, steps, m))
  {
    j := CommitWroteHeader(g, states, steps, k);
    GroupsStep(g, states, steps, j);
    GroupsStep(g, states, steps, k);
    GroupsGrow(g, states, steps, k + 1, m);
  }

  lemma GroupsStep(g: Geometry, states: seq<State>, steps: seq<Step>, j: nat)
    requires Run(g, states, steps) && j < |steps|
    ensures Shape(g, states[j])
    ensures Groups(g, states, steps, j + 1)
         == if steps[j].WriteHead? then Groups(g, states, steps, j) + [Group(g, states[j])] else Groups(g, states, steps, j)
  {
    assert NextAt(g, states, steps, j);
  }

  /** The header write makes durable exactly what readers see in every block nobody holds. */
  lemma CommitMakesViewDurable(g: Geometry, s: State, b: nat)
    requires Inv(g, s) && Enabled(g, s, WriteHead)
    requires g.Home(b) && Unheld(s, b)
    requires DiskOk(g, Apply(g, s, WriteHead).disk)
    ensures b in Durable(g, Apply(g, s, WriteHead).disk)
    ensures Durable(g, Apply(g, s, WriteHead).disk)[b] == View(s, b)
  {
    StepDurable(g, s, WriteHead);
    DurableAt(g, s.disk, b);
  }

  /** The cache behaves as one flat block map: outside recovery and crashes, what `bread` returns
      for a block changes only when a running operation modifies that block. */
  lemma CacheIsFlatMap(g: Geometry, s: State, step: Step, b: nat)
    requires Inv(g, s) && Enabled(g, s, step) && !Recovering(s) && !step.Crash?
    requires g.Home(b)
    ensures View(Apply(g, s, step), b)
         == if step.Modify? && step.b == b then step.data else View(s, b)
  {
  }

  /** Between commits the pinned buffers are exactly the entries of the in-memory header. */
  lemma PinnedAreLogged(g: Geometry, states: seq<State>, steps: seq<Step>, k: nat, b: nat)
    requires Run(g, states, steps) && Initial(g, states[0]) && k <= |steps| && states[k].phase.Idle?
    ensures (b in states[k].cache && states[k].cache[b].dirty) <==> b in states[k].lh
    ensures NoDup(states[k].lh)
  {
    InvAlways(g, states, steps, k);
  }

  /** No steal: a home block on disk changes only by installation, after the header naming it is
      on disk. */
  lemma NoSteal(g: Geometry, s: State, step: Step, b: nat)
    requires Inv(g, s) && Enabled(g, s, step) && g.Home(b)
    requires Apply(g, s, step).disk[b] != s.disk[b]
    ensures s.phase.Install? && b in Header(s.disk[g.start])
  {
  }

  /** Reads return the latest write: with no crash and no later modification of `b`, `bread` at
      step `k` returns what step `j` stored, however often `b` was released, recycled, committed or
      installed in between. */
  lemma {:induction false} ReadsLatestWrite(
      g: Geometry, states: seq<State>, steps: seq<Step>, j: nat, k: nat)
    requires Run(g, states, steps) && Initial(g, states[0]) && j < k <= |steps|
    requires steps[j].Modify?
    requires forall i :: j < i < k ==>
      !steps[i].Crash? && !(steps[i].Modify? && steps[i].b == steps[j].b)
    ensures !Recovering(states[k])
    ensures g.Home(steps[j].b) && |states[k].disk| == g.blocks
    ensures View(states[k], steps[j].b) == steps[j].data
    decreases k
  {
    InvAlways(g, states, steps, k - 1);
    assert NextAt(g, states, steps, k - 1);
    if j < k - 1 {
      ReadsLatestWrite(g, states, steps, j, k - 1);
      CacheIsFlatMap(g, states[k - 1], steps[k - 1], steps[j].b);
    }
  }
}
