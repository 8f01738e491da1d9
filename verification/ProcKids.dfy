/** What a process in `wait` may remember from one round to the next. */
module ProcKids {
  import opened Common
  import opened ProcTable
  import opened ProcMachine

  /** `p` reaps a child or exits. */
  ghost predicate Reaps(c: Config, t: Table, step: Step, p: nat)
    requires Sized(c, t) && p < c.nproc
  {
    || (step.Exit? && step.cpu < c.ncpu && t.cpus[step.cpu] == Some(p))
    || (step.Wait? && step.cpu < c.ncpu && t.cpus[step.cpu] == Some(p) && FindChild(t, t.lists[ZOMBIES], p).Some?)
  }

  lemma SetParentChild(c: Config, t: Table, k: nat, p: nat, q: nat)
    requires Inv(c, t) && Enabled(c, t, SetParent(k)) && p < c.nproc && q < c.nproc && t.proc[q].parent == Some(p)
    ensures ProcTable.SetParent(t, t.cpus[k].value, Current(c, t, k).making.value).proc[q].parent == Some(p)
  {
    var m := t.cpus[k].value;
    assert Related(t.proc, t.nextpid, m, p) && Related(t.proc, t.nextpid, q, p);
  }

  lemma ExitChild(c: Config, t: Table, k: nat, used: int, p: nat, q: nat)
    requires Inv(c, t) && Enabled(c, t, Exit(k, used)) && p < c.nproc && q < c.nproc && t.proc[q].parent == Some(p)
    requires t.cpus[k] != Some(p)
    ensures var r := ProcTable.Exit(c, t, k, t.cpus[k].value, used); r.Ok? && q < |r.t.proc| && r.t.proc[q].parent == Some(p)
  {
    var m := t.cpus[k].value;
    assert Related(t.proc, t.nextpid, m, m);
    ExitOk(c, t, k, m, used);
  }

  lemma WaitChild(c: Config, t: Table, k: nat, used: int, p: nat, q: nat)
    requires Inv(c, t) && Enabled(c, t, Wait(k, used)) && p < c.nproc && q < c.nproc && t.proc[q].parent == Some(p)
    requires !Reaps(c, t, Wait(k, used), p)
    ensures var r := ProcTable.Wait(c, t, k, t.cpus[k].value, used); r.Ok? && q < |r.t.proc| && r.t.proc[q].parent == Some(p)
  {
    var m := t.cpus[k].value;
    WaitKeeps(c, t, k, m, used);
    WaitReapsOwn(c, t, k, m);
    SleepOk(c, t, k, m, OfProc(m), used);
  }

  lemma ForkChild(c: Config, t: Table, step: Step, r: Table, p: nat, q: nat)
    requires StepTo(c, t, step, r) && (step.AllocProc? || step.AbortFork? || step.FinishFork?)
    requires q < c.nproc && t.proc[q].parent == Some(p)
    ensures q < |r.proc| && r.proc[q].parent == Some(p)
  {
  }

  lemma OtherChild(c: Config, t: Table, step: Step, r: Table, p: nat, q: nat)
    requires StepTo(c, t, step, r) && (step.Pick? || step.Promote? || step.Kill? || step.SetPriority?)
    requires q < c.nproc && t.proc[q].parent == Some(p)
    ensures q < |r.proc| && r.proc[q].parent == Some(p)
  {
  }

  /** A child stays a child until its parent reaps or exits. */
  lemma StepKeepsChild(c: Config, t: Table, step: Step, r: Table, p: nat, q: nat)
    requires Inv(c, t) && StepTo(c, t, step, r) && p < c.nproc && q < c.nproc && t.proc[q].parent == Some(p)
    requires !Reaps(c, t, step, p)
    ensures q < |r.proc| && r.proc[q].parent == Some(p)
  {
    match step {
      case AllocProc(_) => ForkChild(c, t, step, r, p, q);
      case AbortFork(_) => ForkChild(c, t, step, r, p, q);
      case FinishFork(_) => ForkChild(c, t, step, r, p, q);
      case SetParent(k) => SetParentChild(c, t, k, p, q);
      case Exit(k, used) => ExitChild(c, t, k, used, p, q);
      case Wait(k, used) => WaitChild(c, t, k, used, p, q);
      case Sleep(k, ch, used) => SleepOk(c, t, k, t.cpus[k].value, Other(ch), used);
      case Yield(k, used) => YieldOk(c, t, k, t.cpus[k].value, used);
      case Wakeup(ch) => WakeupOk(c, t, Other(ch));
      case Pick(_) => OtherChild(c, t, step, r, p, q);
      case Promote => OtherChild(c, t, step, r, p, q);
      case Kill(_) => OtherChild(c, t, step, r, p, q);
      case SetPriority(_, _) => OtherChild(c, t, step, r, p, q);
    }
  }

  lemma {:induction false} ChildStays(c: Config, run: seq<Table>, steps: seq<Step>, j: nat, k: nat, p: nat, q: nat)
    requires Run(c, run, steps) && j <= k < |run| && p < c.nproc && q < c.nproc
    requires Sized(c, run[j]) && run[j].proc[q].parent == Some(p)
    requires forall i :: j <= i < k && Sized(c, run[i]) ==> !Reaps(c, run[i], steps[i], p)
    ensures q < |run[k].proc| && run[k].proc[q].parent == Some(p)
  {
    if j < k {
      ChildStays(c, run, steps, j, k - 1, p, q);
      InvAlways(c, run, steps, k - 1);
      assert StepTo(c, run[k - 1], steps[k - 1], run[k - 1 + 1]);
      StepKeepsChild(c, run[k - 1], steps[k - 1], run[k], p, q);
    }
  }

  /** Remembering a child makes no difference while there is one. */
  lemma RoundIsWait(c: Config, t: Table, cpu: nat, p: nat, used: int, havekids: bool)
    requires Inv(c, t) && Runs(c, t, cpu, p) && t.proc[p].making == None
    requires havekids ==> exists q: nat :: q < c.nproc && t.proc[q].parent == Some(p)
    ensures WaitRound(c, t, cpu, p, used, havekids) == ProcTable.Wait(c, t, cpu, p, used)
  {
    if havekids && FindChild(t, t.lists[ZOMBIES], p).None? {
      WaitCountsKids(c, t, cpu, p);
    }
  }

  /** In every run: if `p` has seen a child at step `j`, and has reaped nothing and not exited since,
      the round of `wait` at step `k` is the same whether it remembers that or looks again. */
  lemma HavekidsStays(c: Config, run: seq<Table>, steps: seq<Step>, j: nat, k: nat, cpu: nat, p: nat, used: int)
    requires Run(c, run, steps) && j <= k < |run| && p < c.nproc
    requires Sized(c, run[j]) && Runs(c, run[j], cpu, p) && run[j].proc[p].making == None
    requires FindChild(run[j], run[j].lists[ZOMBIES], p).None? && HasKids(c, run[j], p)
    requires forall i :: j <= i < k && Sized(c, run[i]) ==> !Reaps(c, run[i], steps[i], p)
    requires Runs(c, run[k], cpu, p) && run[k].proc[p].making == None
    ensures WaitRound(c, run[k], cpu, p, used, true) == ProcTable.Wait(c, run[k], cpu, p, used)
  {
    InvAlways(c, run, steps, j);
    InvAlways(c, run, steps, k);
    WaitCountsKids(c, run[j], cpu, p);
    var q: nat :| q < c.nproc && run[j].proc[q].parent == Some(p);
    ChildStays(c, run, steps, j, k, p, q);
    RoundIsWait(c, run[k], cpu, p, used, true);
  }
}
