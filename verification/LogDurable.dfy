/** When the changes of an operation are durable: the last `end_op` commits, commits come to an end, and
    what a finished operation wrote survives every later crash. */
module LogDurable {
  import opened Common
  import opened LogLayout
  import opened LogMachine

  /** The operations begun and not ended since the last crash, counted from the steps alone. */
  function Running(steps: seq<Step>, k: nat): int
    requires k <= |steps|
  {
    if k == 0 then 0
    else
      match steps[k - 1]
      case BeginOp => Running(steps, k - 1) + 1
      case EndOp => Running(steps, k - 1) - 1
      case Crash => 0
      case _ => Running(steps, k - 1)
  }

  lemma {:induction false} OutstandingCounts(g: Geometry, states: seq<State>, steps: seq<Step>, k: nat)
    requires Run(g, states, steps) && Initial(g, states[0]) && k <= |steps|
    ensures states[k].outstanding == Running(steps, k)
  {
    if k > 0 {
      OutstandingCounts(g, states, steps, k - 1);
      assert NextAt(g, states, steps, k - 1);
    }
  }

  /** The last `end_op` starts a commit of everything logged; the machine is idle with no operation
      running only when nothing is left to commit. */
  lemma LastEndOpCommits(g: Geometry, states: seq<State>, steps: seq<Step>, k: nat)
    requires Run(g, states, steps) && Initial(g, states[0]) && k < |steps|
    requires steps[k].EndOp? && Running(steps, k + 1) == 0
    ensures states[k + 1].lh == states[k].lh
    ensures states[k + 1].phase == if states[k].lh == [] then Idle else WriteLog(0)
  {
    OutstandingCounts(g, states, steps, k + 1);
    assert NextAt(g, states, steps, k);
    InvAlways(g, states, steps, k + 1);
  }

  /** No operation runs and no commit or recovery is going on. */
  ghost predicate Settled(s: State) {
    s.phase.Idle? && s.outstanding == 0
  }

  /** In a settled state what readers see is durable, for every block nobody holds. */
  lemma SettledIsDurable(g: Geometry, s: State, b: nat)
    requires Inv(g, s) && Settled(s) && g.Home(b) && Unheld(s, b)
    ensures s.lh == [] && b in Durable(g, s.disk) && Durable(g, s.disk)[b] == View(s, b) == s.disk[b]
  {
    DurableAt(g, s.disk, b);
  }

  /** In every run: once every operation has ended and the commit is over, what readers see is durable. */
  lemma SettledRunIsDurable(g: Geometry, states: seq<State>, steps: seq<Step>, k: nat, b: nat)
    requires Run(g, states, steps) && Initial(g, states[0]) && k <= |steps|
    requires Running(steps, k) == 0 && states[k].phase.Idle? && g.Home(b) && Unheld(states[k], b)
    ensures Inv(g, states[k]) && states[k].lh == []
    ensures b in Durable(g, states[k].disk) && Durable(g, states[k].disk)[b] == View(states[k], b)
  {
    OutstandingCounts(g, states, steps, k);
    InvAlways(g, states, steps, k);
    SettledIsDurable(g, states[k], b);
  }

  lemma StepLeaves(g: Geometry, states: seq<State>, steps: seq<Step>, i: nat, b: nat)
    requires Run(g, states, steps) && Initial(g, states[0]) && i < |steps| && g.Home(b)
    requires steps[i].WriteHead? ==> b !in states[i].lh
    ensures DiskOk(g, states[i].disk) && DiskOk(g, states[i + 1].disk)
    ensures b in Durable(g, states[i].disk) && b in Durable(g, states[i + 1].disk)
    ensures Durable(g, states[i + 1].disk)[b] == Durable(g, states[i].disk)[b]
  {
    RunStepDurable(g, states, steps, i);
    DurableAt(g, states[i].disk, b);
    if steps[i].WriteHead? {
      assert b !in Group(g, states[i]);
    }
  }

  /** A block stays durable as it is until a later group with it is committed. */
  lemma {:induction false} DurableStays(g: Geometry, states: seq<State>, steps: seq<Step>, k: nat, m: nat, b: nat)
    requires Run(g, states, steps) && Initial(g, states[0]) && k <= m <= |steps| && g.Home(b)
    requires forall i :: k <= i < m && steps[i].WriteHead? ==> b !in states[i].lh
    ensures DiskOk(g, states[k].disk) && DiskOk(g, states[m].disk)
    ensures b in Durable(g, states[k].disk) && b in Durable(g, states[m].disk)
    ensures Durable(g, states[m].disk)[b] == Durable(g, states[k].disk)[b]
    decreases m
  {
    InvAlways(g, states, steps, k);
    DurableAt(g, states[k].disk, b);
    if k < m {
      DurableStays(g, states, steps, k, m - 1, b);
      StepLeaves(g, states, steps, m - 1, b);
    }
  }

  /** Durability. What step `j` stored in block `b`, and nobody overwrote before all operations had
      ended and the commit was over at step `k`, is durable at every later step `m`, whatever crashes and
      recoveries come between, until a later commit of the same block. */
  lemma FinishedSurvives(g: Geometry, states: seq<State>, steps: seq<Step>, j: nat, k: nat, m: nat)
    requires Run(g, states, steps) && Initial(g, states[0]) && j < k <= m <= |steps|
    requires steps[j].Modify?
    requires forall i :: j < i < k ==> !steps[i].Crash? && !(steps[i].Modify? && steps[i].b == steps[j].b)
    requires Running(steps, k) == 0 && states[k].phase.Idle? && Unheld(states[k], steps[j].b)
    requires forall i :: k <= i < m && steps[i].WriteHead? ==> steps[j].b !in states[i].lh
    ensures DiskOk(g, states[m].disk) && steps[j].b in Durable(g, states[m].disk)
    ensures Durable(g, states[m].disk)[steps[j].b] == steps[j].data
  {
    ReadsLatestWrite(g, states, steps, j, k);
    SettledRunIsDurable(g, states, steps, k, steps[j].b);
    DurableStays(g, states, steps, k, m, steps[j].b);
  }

  // ---------- Commits and recoveries come to an end ----------

  ghost predicate NobodyHolds(s: State) {
    forall b :: b in s.cache ==> Unheld(s, b)
  }

  /** The next step of the committing or recovering process. */
  function OwnStep(s: State): Step
    requires !s.phase.Idle?
  {
    match s.phase
    case WriteLog(k) => if k < |s.lh| then CopyToLog else WriteHead
    case Install(k, _) => if k < |s.lh| then InstallBlock else ClearHead
    case Boot => ReadHead
  }

  /** How many steps it has still to do. */
  function Left(g: Geometry, s: State): int
    requires g.start < |s.disk| && s.disk[g.start][0] <= LOGSIZE
  {
    match s.phase
    case Idle => 0
    case WriteLog(k) => 2 * |s.lh| - k + 2
    case Install(k, _) => |s.lh| - k + 1
    case Boot => |Header(s.disk[g.start])| + 2
  }

  /** With no buffer held that step can be done. */
  lemma OwnStepEnabled(g: Geometry, s: State)
    requires Inv(g, s) && NobodyHolds(s) && !s.phase.Idle?
    ensures Enabled(g, s, OwnStep(s))
  {
  }

  /** It is one of exactly so many to the end, and only the header write changes what is durable. */
  lemma OwnStepCounts(g: Geometry, s: State)
    requires Inv(g, s) && NobodyHolds(s) && !s.phase.Idle? && Enabled(g, s, OwnStep(s))
    ensures var t := Apply(g, s, OwnStep(s));
      && Inv(g, t) && NobodyHolds(t) && t.outstanding == 0 && Left(g, t) == Left(g, s) - 1 >= 0
      && (!s.phase.WriteLog? ==> !t.phase.WriteLog? && Durable(g, t.disk) == Durable(g, s.disk))
  {
    StepKeepsInv(g, s, OwnStep(s));
    StepDurable(g, s, OwnStep(s));
  }

  lemma OwnStepView(g: Geometry, s: State)
    requires Inv(g, s) && !s.phase.Idle? && Enabled(g, s, OwnStep(s))
    ensures var t := Apply(g, s, OwnStep(s));
      && |t.disk| == |s.disk| == g.blocks && (!Recovering(s) ==> !Recovering(t))
      && (!Recovering(s) ==> forall b: nat :: g.Home(b) ==> View(t, b) == View(s, b))
  {
    StepKeepsInv(g, s, OwnStep(s));
    if !Recovering(s) {
      forall b: nat | g.Home(b) ensures View(Apply(g, s, OwnStep(s)), b) == View(s, b) {
        CacheIsFlatMap(g, s, OwnStep(s), b);
      }
    }
  }

  lemma RunCons(g: Geometry, s: State, step: Step, states: seq<State>, steps: seq<Step>)
    requires Shape(g, s) && Enabled(g, s, step)
    requires Run(g, states, steps) && states[0] == Apply(g, s, step)
    ensures Run(g, [s] + states, [step] + steps)
  {
    forall i: nat | i < |steps| + 1 ensures NextAt(g, [s] + states, [step] + steps, i) {
      if i > 0 {
        assert NextAt(g, states, steps, i - 1);
      }
    }
  }

  /** From every state in which nobody holds a buffer a commit or recovery can be finished, in `Left`
      steps: readers of home blocks see what they saw before, and a recovery changes nothing durable. */
  lemma {:induction false} Finishes(g: Geometry, s: State) returns (states: seq<State>, steps: seq<Step>)
    requires Inv(g, s) && NobodyHolds(s) && (s.phase.Idle? ==> s.outstanding == 0)
    ensures Run(g, states, steps) && states[0] == s && |steps| == Left(g, s)
    ensures var t := states[|steps|]; Inv(g, t) && Settled(t) && NobodyHolds(t)
    ensures !Recovering(s) ==> forall b: nat :: g.Home(b) ==> View(states[|steps|], b) == View(s, b)
    ensures !s.phase.WriteLog? ==> Durable(g, states[|steps|].disk) == Durable(g, s.disk)
    decreases Left(g, s)
  {
    if s.phase.Idle? {
      states, steps := [s], [];
    } else {
      OwnStepEnabled(g, s);
      OwnStepCounts(g, s);
      var step := OwnStep(s);
      var t := Apply(g, s, step);
      var more, rest := Finishes(g, t);
      RunCons(g, s, step, more, rest);
      states, steps := [s] + more, [step] + rest;
      OwnStepView(g, s);
    }
  }

  // ---------- One whole operation ----------

  /** `begin_op`, then a block is read, changed and logged. */
  lemma FirstHalf(g: Geometry, s: State, b: nat, data: Block) returns (states: seq<State>, steps: seq<Step>)
    requires Inv(g, s) && Settled(s) && NobodyHolds(s) && g.Home(b)
    ensures Run(g, states, steps) && states[0] == s && steps == [BeginOp, Bread(b), Modify(b, data)]
    ensures var t := states[3];
      && Inv(g, t) && t.phase.Idle? && t.outstanding == 1 && t.lh == [] && !Unheld(t, b) && View(t, b) == data
      && (forall c :: c in t.cache && c != b ==> Unheld(t, c))
      && (forall c: nat :: g.Home(c) && c != b ==> View(t, c) == View(s, c))
  {
    var s1 := Apply(g, s, BeginOp);
    StepKeepsInv(g, s, BeginOp);
    var s2 := Apply(g, s1, Bread(b));
    StepKeepsInv(g, s1, Bread(b));
    var s3 := Apply(g, s2, Modify(b, data));
    StepKeepsInv(g, s2, Modify(b, data));
    states, steps := [s, s1, s2, s3], [BeginOp, Bread(b), Modify(b, data)];
  }

  /** It is logged and released. */
  lemma SecondHalf(g: Geometry, s: State, b: nat) returns (states: seq<State>, steps: seq<Step>)
    requires Inv(g, s) && s.phase.Idle? && s.outstanding == 1 && s.lh == [] && g.Home(b) && !Unheld(s, b) && g.size >= 2
    requires forall c :: c in s.cache && c != b ==> Unheld(s, c)
    ensures Run(g, states, steps) && states[0] == s && steps == [LogWrite(b), Brelse(b)]
    ensures var t := states[2];
      && Inv(g, t) && NobodyHolds(t) && t.phase.Idle? && t.outstanding == 1 && t.lh == [b]
      && forall c: nat :: g.Home(c) ==> View(t, c) == View(s, c)
  {
    var s1 := Apply(g, s, LogWrite(b));
    StepKeepsInv(g, s, LogWrite(b));
    var s2 := Apply(g, s1, Brelse(b));
    StepKeepsInv(g, s1, Brelse(b));
    states, steps := [s, s1, s2], [LogWrite(b), Brelse(b)];
  }

  /** `end_op`, the commit, and its end. */
  lemma LastPart(g: Geometry, s: State) returns (states: seq<State>, steps: seq<Step>)
    requires Inv(g, s) && NobodyHolds(s) && s.phase.Idle? && s.outstanding == 1
    ensures Run(g, states, steps) && states[0] == s && steps != [] && steps[0] == EndOp
    ensures var t := states[|steps|];
      && Inv(g, t) && Settled(t) && NobodyHolds(t)
      && forall c: nat :: g.Home(c) ==> View(t, c) == View(s, c)
  {
    var s1 := Apply(g, s, EndOp);
    StepKeepsInv(g, s, EndOp);
    var more, rest := Finishes(g, s1);
    RunCons(g, s, EndOp, more, rest);
    states, steps := [s] + more, [EndOp] + rest;
  }

  lemma RunsJoin(g: Geometry, a: seq<State>, x: seq<Step>, b: seq<State>, y: seq<Step>)
    requires Run(g, a, x) && Run(g, b, y) && a[|x|] == b[0]
    ensures Run(g, a[..|x|] + b, x + y) && (a[..|x|] + b)[0] == a[0] && (a[..|x|] + b)[|x + y|] == b[|y|]
  {
    var states, steps := a[..|x|] + b, x + y;
    forall i: nat | i < |steps| ensures NextAt(g, states, steps, i) {
      if i < |x| {
        assert NextAt(g, a, x, i);
      } else {
        assert NextAt(g, b, y, i - |x|);
      }
    }
  }

  /** From every settled state in which nobody holds a buffer, an operation that stores `data` in block
      `b` can be carried through: the block is then durable with it, and every other one as before. */
  lemma WriteBecomesDurable(g: Geometry, s: State, b: nat, data: Block) returns (states: seq<State>, steps: seq<Step>)
    requires Inv(g, s) && Settled(s) && NobodyHolds(s) && g.Home(b) && g.size >= 2
    ensures Run(g, states, steps) && states[0] == s
    ensures var t := states[|steps|];
      && Inv(g, t) && Settled(t) && NobodyHolds(t)
      && Durable(g, t.disk) == Durable(g, s.disk)[b := data]
  {
    var a, x := FirstHalf(g, s, b, data);
    var c, y := SecondHalf(g, a[3], b);
    var d, z := LastPart(g, c[2]);
    RunsJoin(g, c, y, d, z);
    RunsJoin(g, a, x, c[..2] + d, y + z);
    states, steps := a[..3] + (c[..2] + d), x + (y + z);
    OneMore(g, s, d[|z|], b, data);
  }

  lemma OneMore(g: Geometry, s: State, t: State, b: nat, data: Block)
    requires Inv(g, s) && Inv(g, t) && Settled(s) && Settled(t) && NobodyHolds(s) && NobodyHolds(t) && g.Home(b)
    requires forall c: nat :: g.Home(c) ==> View(t, c) == if c == b then data else View(s, c)
    ensures Durable(g, t.disk) == Durable(g, s.disk)[b := data]
  {
    forall c: nat | g.Home(c)
      ensures c in Durable(g, t.disk) && c in Durable(g, s.disk)
      ensures Durable(g, t.disk)[c] == if c == b then data else Durable(g, s.disk)[c]
    {
      SettledIsDurable(g, s, c);
      SettledIsDurable(g, t, c);
    }
  }
}
