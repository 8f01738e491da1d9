/** No ready process is passed over for ever: promotions bring it to ready list 0, and there every
    pick brings it one place closer to the head. */
module ProcProgress {
  import opened Common
  import opened ProcTable
  import opened ProcMachine

  /** How many processes are ahead of `p` on a list. */
  function Pos(s: seq<nat>, p: nat): (i: nat)
    requires p in s
    ensures i < |s| && s[i] == p
  {
    if s[0] == p then 0 else 1 + Pos(s[1..], p)
  }

  lemma {:induction false} AppendPos(s: seq<nat>, tail: seq<nat>, p: nat)
    requires p in s
    ensures p in s + tail && Pos(s + tail, p) == Pos(s, p)
  {
    if s[0] != p {
      AppendPos(s[1..], tail, p);
      assert (s + tail)[1..] == s[1..] + tail;
    }
  }

  lemma {:induction false} RemovePos(s: seq<nat>, q: nat, p: nat)
    requires p in s && q != p
    ensures p in Remove(s, q) && Pos(Remove(s, q), p) <= Pos(s, p)
    ensures s[0] == q ==> Pos(Remove(s, q), p) == Pos(s, p) - 1
  {
    if s[0] != q && s[0] != p {
      RemovePos(s[1..], q, p);
      assert Remove(s, q)[1..] == Remove(s[1..], q);
    }
  }

  /** If `p` is on list `l`, it still is, and no further from the head. */
  ghost predicate NoLater(t: Table, r: Table, p: nat, l: nat) {
    && l < |t.lists| && l < |r.lists|
    && (p in t.lists[l] ==> p in r.lists[l] && Pos(r.lists[l], p) <= Pos(t.lists[l], p))
  }

  lemma MoveNoLater(t: Table, q: nat, from: nat, to: nat, pr: Proc, p: nat, l: nat)
    requires q < |t.proc| && from < |t.lists| && to < |t.lists| && l < |t.lists| && q != p
    ensures NoLater(t, Move(t, q, from, to, pr), p, l)
  {
    if p in t.lists[l] {
      RemovePos(t.lists[l], q, p);
      AppendPos(t.lists[l], [q], p);
      AppendPos(Remove(t.lists[l], q), [q], p);
    }
  }

  // ---------- Sections that move other processes ----------

  lemma SchedNoLater(c: Config, t: Table, cpu: nat, q: nat, used: int, p: nat, l: nat)
    requires Sized(c, t) && cpu < c.ncpu && q < c.nproc && q != p && l < c.Lists()
    requires Sched(c, t, cpu, q, used).Ok?
    ensures NoLater(t, Sched(c, t, cpu, q, used).t, p, l)
  {
    var pr, off := t.proc[q], t.(cpus := t.cpus[cpu := None]);
    if pr.priority < c.maxprio {
      MoveNoLater(off, q, READY + pr.priority, READY + pr.priority + 1,
                  pr.(budget := c.budget, priority := pr.priority + 1), p, l);
    }
  }

  lemma RelistNoLater(c: Config, t: Table, q: nat, from: nat, to: nat, was: PState, pr: Proc, p: nat, l: nat)
    requires Sized(c, t) && q < c.nproc && from < c.Lists() && to < c.Lists() && l < c.Lists()
    requires pr.priority <= c.maxprio && q != p && Relist(c, t, q, from, to, was, pr).Ok?
    ensures NoLater(t, Relist(c, t, q, from, to, was, pr).t, p, l)
  {
    MoveNoLater(t, q, from, to, pr, p, l);
  }

  lemma {:induction false} WakeNoLater(c: Config, t: Table, ch: Chan, ps: seq<nat>, p: nat, l: nat)
    requires Sized(c, t) && p !in ps && l < c.Lists()
    requires forall i :: 0 <= i < |ps| ==> ps[i] < c.nproc
    requires Wake(c, t, ch, ps).Ok?
    ensures NoLater(t, Wake(c, t, ch, ps).t, p, l)
    decreases |ps|
  {
    if ps != [] {
      var q, pr := ps[0], t.proc[ps[0]];
      if pr.chan == ch {
        var r := Relist(c, t, q, SLEEPERS, READY + pr.priority, SLEEPING, pr.(state := RUNNABLE));
        RelistNoLater(c, t, q, SLEEPERS, READY + pr.priority, SLEEPING, pr.(state := RUNNABLE), p, l);
        WakeNoLater(c, r.t, ch, ps[1..], p, l);
      } else {
        WakeNoLater(c, t, ch, ps[1..], p, l);
      }
    }
  }

  lemma NotAsleep(c: Config, t: Table, p: nat)
    requires Shape(c, t) && Partition(c, t) && p < c.nproc && t.proc[p].state != SLEEPING
    ensures p !in t.lists[SLEEPERS]
  {
    assert PlacedAt(c, t, SLEEPERS, p);
  }

  lemma YieldNoLater(c: Config, t: Table, cpu: nat, q: nat, used: int, p: nat, l: nat)
    requires Runs(c, t, cpu, q) && q != p && l < c.Lists() && ProcTable.Yield(c, t, cpu, q, used).Ok?
    ensures NoLater(t, ProcTable.Yield(c, t, cpu, q, used).t, p, l)
  {
    var pr := t.proc[q].(state := RUNNABLE);
    var r := Relist(c, t, q, RUNNERS, READY + pr.priority, RUNNING, pr);
    RelistNoLater(c, t, q, RUNNERS, READY + pr.priority, RUNNING, pr, p, l);
    SchedNoLater(c, r.t, cpu, q, used, p, l);
  }

  lemma SleepNoLater(c: Config, t: Table, cpu: nat, q: nat, ch: Chan, used: int, p: nat, l: nat)
    requires Runs(c, t, cpu, q) && q != p && l < c.Lists() && ProcTable.Sleep(c, t, cpu, q, ch, used).Ok?
    ensures NoLater(t, ProcTable.Sleep(c, t, cpu, q, ch, used).t, p, l)
  {
    var pr := t.proc[q].(state := SLEEPING, chan := ch);
    var r := Relist(c, t, q, RUNNERS, SLEEPERS, RUNNING, pr);
    RelistNoLater(c, t, q, RUNNERS, SLEEPERS, RUNNING, pr, p, l);
    SchedNoLater(c, r.t, cpu, q, used, p, l);
  }

  lemma WaitNoLater(c: Config, t: Table, cpu: nat, q: nat, used: int, p: nat, l: nat)
    requires Runs(c, t, cpu, q) && q != p && l < c.Lists() && ProcTable.Wait(c, t, cpu, q, used).Ok?
    requires p < c.nproc && t.proc[p].state == RUNNABLE
    ensures NoLater(t, ProcTable.Wait(c, t, cpu, q, used).t, p, l)
  {
    match FindChild(t, t.lists[ZOMBIES], q) {
      case Some(z) =>
        RelistNoLater(c, t, z, ZOMBIES, FREE, ZOMBIE,
                      t.proc[z].(state := UNUSED, pid := 0, parent := None, killed := false), p, l);
      case None =>
        if HasKids(c, t, q) && !t.proc[q].killed {
          SleepNoLater(c, t, cpu, q, OfProc(q), used, p, l);
        }
    }
  }

  lemma ExitNoLater(c: Config, t: Table, cpu: nat, q: nat, used: int, p: nat, l: nat)
    requires Inv(c, t) && Runs(c, t, cpu, q) && q != p && q != INIT && l < c.Lists()
    requires p < c.nproc && t.proc[p].state == RUNNABLE && ProcTable.Exit(c, t, cpu, q, used).Ok?
    ensures NoLater(t, ProcTable.Exit(c, t, cpu, q, used).t, p, l)
  {
    var ch := if t.proc[q].parent.Some? then OfProc(t.proc[q].parent.value) else NoChan;
    var woken := WakeupNoLater(c, t, ch, p, l);
    var orphaned := Reparent(woken, q);
    RelabelKeepsPartition(c, woken, orphaned);
    var again := WakeupNoLater(c, orphaned, OfProc(INIT), p, l);
    var last := if HasZombieChild(c, t, q) then again else orphaned;
    var pr := last.proc[q].(state := ZOMBIE);
    RelistNoLater(c, last, q, RUNNERS, ZOMBIES, RUNNING, pr, p, l);
    SchedNoLater(c, Relist(c, last, q, RUNNERS, ZOMBIES, RUNNING, pr).t, cpu, q, used, p, l);
  }

  lemma WakeupNoLater(c: Config, t: Table, ch: Chan, p: nat, l: nat) returns (r: Table)
    requires Shape(c, t) && Partition(c, t) && p < c.nproc && t.proc[p].state == RUNNABLE && l < c.Lists()
    ensures ProcTable.Wakeup(c, t, ch) == Ok(r) && Shape(c, r) && Partition(c, r)
    ensures NoLater(t, r, p, l) && r.proc[p].state == RUNNABLE
  {
    WakeupOk(c, t, ch);
    r := ProcTable.Wakeup(c, t, ch).t;
    NotAsleep(c, t, p);
    WakeNoLater(c, t, ch, t.lists[SLEEPERS], p, l);
    assert r.proc[p] == Woken(t.proc[p], ch);
  }

  lemma KillNoLater(c: Config, t: Table, pid: nat, p: nat, l: nat)
    requires Inv(c, t) && p < c.nproc && t.proc[p].state == RUNNABLE && l < c.Lists()
    requires ProcTable.Kill(c, t, pid).Ok?
    ensures NoLater(t, ProcTable.Kill(c, t, pid).t, p, l)
  {
    var scan := t.lists[RUNNERS] + t.lists[SLEEPERS] + AllReady(c, t, 0) + t.lists[ZOMBIES] + t.lists[EMBRYOS];
    match FindPid(t, scan, pid) {
      case None =>
      case Some(q) =>
        NotAsleep(c, t, p);
        if q in t.lists[SLEEPERS] {
          RelistNoLater(c, t, q, SLEEPERS, READY, SLEEPING, t.proc[q].(killed := true, state := RUNNABLE), p, l);
        }
    }
  }

  /** The process `setpriority` acts on. */
  ghost predicate Touches(c: Config, t: Table, step: Step, p: nat)
    requires Sized(c, t)
  {
    step.SetPriority?
    && FindPid(t, t.lists[RUNNERS] + AllReady(c, t, 0) + t.lists[SLEEPERS], step.pid) == Some(p)
  }

  lemma SetPriorityNoLater(c: Config, t: Table, step: Step, p: nat, l: nat)
    requires Inv(c, t) && l < c.Lists() && step.SetPriority?
    requires !Touches(c, t, step, p) && ProcTable.SetPriority(c, t, step.pid, step.priority).Ok?
    ensures NoLater(t, ProcTable.SetPriority(c, t, step.pid, step.priority).t, p, l)
  {
    if step.priority < 0 || step.priority > c.maxprio {
      return;
    }
    match FindPid(t, t.lists[RUNNERS] + AllReady(c, t, 0) + t.lists[SLEEPERS], step.pid) {
      case None =>
      case Some(q) =>
        var pr := t.proc[q].(priority := step.priority, budget := c.budget);
        RelistTwice(c, t, q, step.priority, pr, p, l);
    }
  }

  lemma RelistTwice(c: Config, t: Table, q: nat, priority: nat, pr: Proc, p: nat, l: nat)
    requires Shape(c, t) && q < c.nproc && q != p && l < c.Lists() && priority <= c.maxprio
    requires pr.priority == priority
    ensures NoLater(t, Move(t, q, RUNNERS, READY + priority, pr), p, l)
    ensures NoLater(t, Move(t, q, Place(c, t, q), READY + priority, pr), p, l)
  {
    MoveNoLater(t, q, RUNNERS, READY + priority, pr, p, l);
    MoveNoLater(t, q, Place(c, t, q), READY + priority, pr, p, l);
  }

  lemma ForkNoLater(c: Config, t: Table, step: Step, p: nat, l: nat)
    requires Inv(c, t) && Enabled(c, t, step) && l < c.Lists() && p < c.nproc && t.proc[p].state == RUNNABLE
    requires step.AllocProc? || step.AbortFork? || step.SetParent? || step.FinishFork?
    requires Apply(c, t, step).Ok?
    ensures NoLater(t, Apply(c, t, step).t, p, l)
  {
    var q := t.cpus[step.cpu].value;
    if step.AllocProc? {
      if t.lists[FREE] != [] {
        var e := t.lists[FREE][0];
        assert Place(c, t, e) == FREE;
        MoveNoLater(t, e, FREE, EMBRYOS,
                    t.proc[e].(state := EMBRYO, budget := c.budget, priority := 0, pid := t.nextpid), p, l);
      }
    } else {
      var e := t.proc[q].making.value;
      assert Related(t.proc, t.nextpid, q, e);
      MoveNoLater(t, e, EMBRYOS, FREE, t.proc[e].(state := UNUSED), p, l);
      var prio := t.proc[q].priority;
      MoveNoLater(t, e, EMBRYOS, READY + prio, t.proc[e].(state := RUNNABLE, priority := prio), p, l);
    }
  }

  /** Every section but a pick, a promotion, or `setpriority` on `p` leaves ready process `p` where it is. */
  lemma StaysReady(c: Config, t: Table, step: Step, p: nat, l: nat)
    requires Inv(c, t) && Enabled(c, t, step) && !Excluded(c, t, step) && !Touches(c, t, step, p)
    requires p < c.nproc && t.proc[p].state == RUNNABLE && l < c.Lists()
    requires !step.Pick? && !step.Promote? && Apply(c, t, step).Ok?
    ensures NoLater(t, Apply(c, t, step).t, p, l)
  {
    match step {
      case Exit(k, used) => ExitNoLater(c, t, k, t.cpus[k].value, used, p, l);
      case Wait(k, used) => WaitNoLater(c, t, k, t.cpus[k].value, used, p, l);
      case Sleep(k, ch, used) => SleepNoLater(c, t, k, t.cpus[k].value, Other(ch), used, p, l);
      case Yield(k, used) => YieldNoLater(c, t, k, t.cpus[k].value, used, p, l);
      case Wakeup(ch) => var _ := WakeupNoLater(c, t, Other(ch), p, l);
      case Kill(pid) => KillNoLater(c, t, pid, p, l);
      case SetPriority(_, _) => SetPriorityNoLater(c, t, step, p, l);
      case _ => ForkNoLater(c, t, step, p, l);
    }
  }

  // ---------- Picks and promotions ----------

  /** A pick takes `p`, or leaves it no later; from ready list 0 it brings it closer. */
  lemma PickCloser(c: Config, t: Table, cpu: nat, p: nat, l: nat)
    requires Sized(c, t) && cpu < c.ncpu && t.cpus[cpu] == None && ProcTable.Pick(c, t, cpu).Ok?
    requires p < c.nproc && READY <= l < c.Lists() && p in t.lists[l]
    ensures var o := ProcTable.Pick(c, t, cpu);
      && (o.t.proc[p].state == RUNNING
          || (&& NoLater(t, o.t, p, l)
              && (l == READY ==> Pos(o.t.lists[l], p) < Pos(t.lists[l], p))))
  {
    match FirstReady(c, t, 0) {
      case None =>
        NoneReady(c, t, 0, l);
      case Some(j) =>
        var q := t.lists[READY + j][0];
        if q != p {
          var pr := t.proc[q].(state := RUNNING, chan := NoChan);
          MoveNoLater(t, q, READY + j, RUNNERS, pr, p, l);
          if l == READY {
            HeadRemoved(t, q, pr, p);
          }
        }
    }
  }

  lemma HeadRemoved(t: Table, q: nat, pr: Proc, p: nat)
    requires READY < |t.lists| && q < |t.proc| && q != p
    requires p in t.lists[READY] && t.lists[READY][0] == q
    ensures var r := Move(t, q, READY, RUNNERS, pr);
      p in r.lists[READY] && Pos(r.lists[READY], p) < Pos(t.lists[READY], p)
  {
    RemovePos(t.lists[READY], q, p);
  }

  lemma {:induction false} NoneReady(c: Config, t: Table, j: nat, l: nat)
    requires Sized(c, t) && j <= c.maxprio + 1 && READY + j <= l < c.Lists()
    requires FirstReady(c, t, j) == None
    ensures t.lists[l] == []
    decreases c.maxprio + 1 - j
  {
    if READY + j < l {
      NoneReady(c, t, j + 1, l);
    }
  }

  /** A promotion moves a ready process up one list, and within list 0 not at all. */
  lemma PromoteUp(c: Config, t: Table, p: nat, l: nat)
    requires Shape(c, t) && Partition(c, t) && p < c.nproc && READY <= l < c.Lists() && p in t.lists[l]
    ensures ProcTable.Promote(c, t).Ok?
    ensures var r := ProcTable.Promote(c, t).t;
      && |r.lists| == c.Lists() && r.proc[p].state == t.proc[p].state
      && if l == READY then NoLater(t, r, p, l) else p in r.lists[l - 1]
  {
    PromoteNoPanic(c, t);
    var r := ProcTable.Promote(c, t).t;
    PromotedMembers(c, t, if l == READY then l else l - 1, p);
    if l == READY && c.maxprio > 0 {
      AppendPos(t.lists[READY], t.lists[READY + 1], p);
      assert r.lists[READY] == t.lists[READY] + t.lists[READY + 1];
    }
  }

  /** The ready list of `p`, counted from 0. */
  ghost function Queue(c: Config, t: Table, p: nat): (i: nat)
    requires Sized(c, t) && Partition(c, t) && p < c.nproc && t.proc[p].state == RUNNABLE
    ensures i <= c.maxprio && p in t.lists[READY + i]
  {
    OnOwnList(c, t, p);
    Place(c, t, p) - READY
  }

  lemma QueueIs(c: Config, t: Table, p: nat, i: nat)
    requires Sized(c, t) && Partition(c, t) && p < c.nproc && t.proc[p].state == RUNNABLE
    requires i <= c.maxprio && p in t.lists[READY + i]
    ensures Queue(c, t, p) == i
  {
    Found(c, t, READY + i, p);
  }

  lemma StepPlace(c: Config, t: Table, step: Step, r: Table, p: nat, l: nat)
    requires Inv(c, t) && StepTo(c, t, step, r) && !Touches(c, t, step, p) && READY <= l < c.Lists() && p in t.lists[l]
    requires p < c.nproc && t.proc[p].state == RUNNABLE && Sized(c, r) && r.proc[p].state == RUNNABLE
    ensures p in r.lists[if step.Promote? && l > READY then l - 1 else l]
    ensures l == READY ==> Pos(r.lists[READY], p) <= Pos(t.lists[READY], p) - (if step.Pick? then 1 else 0)
  {
    match step {
      case Pick(k) => PickCloser(c, t, k, p, l);
      case Promote => PromoteUp(c, t, p, l);
      case _ => StaysReady(c, t, step, p, l);
    }
  }

  /** One step: the queue index falls with a promotion and never otherwise changes; in queue 0 the
      position never grows and falls with a pick. */
  lemma StepRank(c: Config, t: Table, step: Step, r: Table, p: nat)
    requires Inv(c, t) && StepTo(c, t, step, r) && !Touches(c, t, step, p)
    requires p < c.nproc && t.proc[p].state == RUNNABLE && Sized(c, r) && r.proc[p].state == RUNNABLE
    ensures Inv(c, r)
    ensures Queue(c, r, p) == if step.Promote? && Queue(c, t, p) > 0 then Queue(c, t, p) - 1 else Queue(c, t, p)
    ensures Queue(c, t, p) == 0 ==>
      Pos(r.lists[READY], p) <= Pos(t.lists[READY], p) - (if step.Pick? then 1 else 0)
  {
    StepKeepsInv(c, t, step);
    StepPlace(c, t, step, r, p, READY + Queue(c, t, p));
    QueueIs(c, r, p, if step.Promote? && Queue(c, t, p) > 0 then Queue(c, t, p) - 1 else Queue(c, t, p));
  }

  // ---------- Whole runs ----------

  function Promotions(steps: seq<Step>, k: nat, m: nat): nat
    requires k <= m <= |steps|
  {
    if k == m then 0 else Promotions(steps, k, m - 1) + if steps[m - 1].Promote? then 1 else 0
  }

  function Picks(steps: seq<Step>, k: nat, m: nat): nat
    requires k <= m <= |steps|
  {
    if k == m then 0 else Picks(steps, k, m - 1) + if steps[m - 1].Pick? then 1 else 0
  }

  /** From `k` to `m` process `p` stays ready and nobody sets its priority. */
  ghost predicate Waiting(c: Config, run: seq<Table>, steps: seq<Step>, k: nat, m: nat, p: nat) {
    && Run(c, run, steps) && k <= m <= |steps| && p < c.nproc
    && (forall i :: k <= i <= m ==> ReadyAt(c, run[i], p))
    && (forall i :: k <= i < m ==> !TouchedAt(c, run[i], steps[i], p))
  }

  ghost predicate ReadyAt(c: Config, t: Table, p: nat) {
    Sized(c, t) && p < c.nproc && t.proc[p].state == RUNNABLE
  }

  ghost predicate TouchedAt(c: Config, t: Table, step: Step, p: nat) {
    Sized(c, t) && Touches(c, t, step, p)
  }

  lemma RunStep(c: Config, run: seq<Table>, steps: seq<Step>, k: nat, m: nat, p: nat)
    requires Waiting(c, run, steps, k, m, p) && k < m
    ensures Waiting(c, run, steps, k, m - 1, p)
    ensures Inv(c, run[m - 1]) && Inv(c, run[m]) && ReadyAt(c, run[m - 1], p) && ReadyAt(c, run[m], p)
    ensures StepTo(c, run[m - 1], steps[m - 1], run[m]) && !Touches(c, run[m - 1], steps[m - 1], p)
  {
    InvAlways(c, run, steps, m - 1);
    InvAlways(c, run, steps, m);
    assert StepTo(c, run[m - 1], steps[m - 1], run[m - 1 + 1]);
    assert !TouchedAt(c, run[m - 1], steps[m - 1], p);
  }

  /** While `p` waits, its queue index is what promotions have left of it. */
  lemma {:induction false} QueueFalls(c: Config, run: seq<Table>, steps: seq<Step>, k: nat, m: nat, p: nat)
    requires Waiting(c, run, steps, k, m, p)
    ensures Inv(c, run[k]) && Inv(c, run[m]) && ReadyAt(c, run[k], p) && ReadyAt(c, run[m], p)
    ensures var left := Queue(c, run[k], p) - Promotions(steps, k, m);
      Queue(c, run[m], p) == if left > 0 then left else 0
    decreases m - k
  {
    InvAlways(c, run, steps, k);
    if k < m {
      RunStep(c, run, steps, k, m, p);
      QueueFalls(c, run, steps, k, m - 1, p);
      StepRank(c, run[m - 1], steps[m - 1], run[m], p);
    }
  }

  /** `p` is on ready list 0. */
  ghost predicate InFirst(c: Config, t: Table, p: nat) {
    Inv(c, t) && ReadyAt(c, t, p) && Queue(c, t, p) == 0
  }

  /** How many processes on ready list 0 are ahead of `p`. */
  function Ahead(t: Table, p: nat): (n: nat)
    ensures READY < |t.lists| && t.lists[READY] != [] ==> n < |t.lists[READY]|
  {
    if READY < |t.lists| && p in t.lists[READY] then Pos(t.lists[READY], p) else 0
  }

  /** No further from the head, and closer after a pick. */
  predicate Closer(t: Table, step: Step, r: Table, p: nat) {
    Ahead(r, p) + (if step.Pick? then 1 else 0) <= Ahead(t, p)
  }

  lemma StepCloser(c: Config, run: seq<Table>, steps: seq<Step>, j: nat, m: nat, i: nat, p: nat)
    requires Waiting(c, run, steps, j, m, p) && j <= i < m && InFirst(c, run[j], p)
    ensures Closer(run[i], steps[i], run[i + 1], p)
  {
    assert Waiting(c, run, steps, j, i, p);
    QueueFalls(c, run, steps, j, i, p);
    assert Waiting(c, run, steps, j, i + 1, p);
    RunStep(c, run, steps, j, i + 1, p);
    StepRank(c, run[i], steps[i], run[i + 1], p);
  }

  /** In queue 0 every pick brings `p` closer to the head. */
  lemma {:induction false} PositionFalls(run: seq<Table>, steps: seq<Step>, j: nat, m: nat, p: nat)
    requires j <= m <= |steps| < |run|
    requires forall i :: j <= i < m ==> Closer(run[i], steps[i], run[i + 1], p)
    ensures Picks(steps, j, m) <= Ahead(run[j], p) - Ahead(run[m], p)
    decreases m - j
  {
    if j < m {
      PositionFalls(run, steps, j, m - 1, p);
      assert Closer(run[m - 1], steps[m - 1], run[m - 1 + 1], p);
    }
  }

  /** A list without repetitions, of numbers below `n`, has at most `n` members. */
  lemma {:induction false} ShortList(s: seq<nat>, n: nat)
    requires NoDup(s) && forall i :: 0 <= i < |s| ==> s[i] < n
    ensures |s| <= n
    decreases n
  {
    assert s != [] ==> s[0] < n;
    if n > 0 && s != [] {
      RemoveMembers(s, n - 1);
      var rest := Remove(s, n - 1);
      forall i | 0 <= i < |rest| ensures rest[i] < n - 1 {
        assert rest[i] in rest;
      }
      ShortList(rest, n - 1);
    }
  }

  /** Progress: a ready process whose priority nobody sets is picked after at most MAXPRIO promotions
      followed by at most NPROC picks. If it is still waiting, fewer than NPROC picks have happened. */
  lemma PickedInTime(c: Config, run: seq<Table>, steps: seq<Step>, k: nat, j: nat, m: nat, p: nat)
    requires Waiting(c, run, steps, k, m, p) && k <= j <= m
    requires Promotions(steps, k, j) >= c.maxprio
    ensures Picks(steps, j, m) < c.nproc
  {
    assert Waiting(c, run, steps, k, j, p);
    assert Waiting(c, run, steps, j, m, p);
    QueueFalls(c, run, steps, k, j, p);
    forall i | j <= i < m ensures Closer(run[i], steps[i], run[i + 1], p) {
      StepCloser(c, run, steps, j, m, i, p);
    }
    PositionFalls(run, steps, j, m, p);
    ShortList(run[j].lists[READY], c.nproc);
  }
}
