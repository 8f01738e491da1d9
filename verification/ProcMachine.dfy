/** Every interleaving of the sections under `ptable.lock`, on any number of CPUs. */
module ProcMachine {
  import opened Common
  import opened ProcTable

  // ---------- Invariants ----------

  /** The running list is exactly the processes current on some CPU, none on two. */
  ghost predicate CpusOk(c: Config, t: Table)
    requires Sized(c, t)
  {
    && (forall k :: 0 <= k < c.ncpu && t.cpus[k].Some? ==>
          t.cpus[k].value < c.nproc && t.proc[t.cpus[k].value].state == RUNNING)
    && (forall j, k :: 0 <= j < k < c.ncpu && t.cpus[j].Some? ==> t.cpus[j] != t.cpus[k])
    && (forall p: nat :: p < c.nproc && t.proc[p].state == RUNNING ==> OnCpu(t, p))
  }

  ghost predicate OnCpu(t: Table, p: nat) {
    exists k :: 0 <= k < |t.cpus| && t.cpus[k] == Some(p)
  }

  predicate Live(pr: Proc) {
    pr.state == SLEEPING || pr.state == RUNNABLE || pr.state == RUNNING
  }

  /** What a slot's state says about its parent and the embryo it is making. */
  ghost predicate KinAt(proc: seq<Proc>, p: nat)
    requires p < |proc|
  {
    match proc[p].state
    case UNUSED => proc[p].parent == None && proc[p].making == None
    case EMBRYO => proc[p].making == None && (proc[p].parent.Some? ==> MadeBy(proc, p, proc[p].parent.value))
    case ZOMBIE => p != INIT && proc[p].making == None && HasLiveParent(proc, p)
    case _ => if p == INIT then proc[p].parent == None else HasLiveParent(proc, p)
  }

  /** What a process is making is an embryo. */
  ghost predicate MakesEmbryo(proc: seq<Proc>, p: nat)
    requires p < |proc|
  {
    proc[p].making.Some? ==> proc[p].making.value < |proc| && proc[proc[p].making.value].state == EMBRYO
  }

  /** Nobody else makes what `p` makes. */
  ghost predicate MakesAlone(proc: seq<Proc>, p: nat, q: nat)
    requires p < |proc| && q < |proc|
  {
    p != q && proc[p].making.Some? ==> proc[p].making != proc[q].making
  }

  ghost predicate PidApart(proc: seq<Proc>, nextpid: nat, p: nat, q: nat)
    requires p < |proc| && q < |proc|
  {
    proc[p].state != UNUSED ==>
      0 < proc[p].pid < nextpid && (p != q && proc[q].state != UNUSED ==> proc[p].pid != proc[q].pid)
  }

  ghost predicate MadeBy(proc: seq<Proc>, e: nat, p: nat) {
    p < |proc| && proc[p].making == Some(e)
  }

  ghost predicate HasLiveParent(proc: seq<Proc>, p: nat)
    requires p < |proc|
  {
    && proc[p].parent.Some? && proc[p].parent != Some(p)
    && proc[p].parent.value < |proc|
    && Live(proc[proc[p].parent.value])
  }

  /** A process asleep in `wait` has no zombie child. */
  ghost predicate NotMissed(proc: seq<Proc>, p: nat, q: nat)
    requires p < |proc| && q < |proc|
  {
    proc[p].state == SLEEPING && proc[p].chan == OfProc(p) && proc[q].state == ZOMBIE
    ==> proc[q].parent != Some(p)
  }

  /** Only `wait` sleeps on a process address, and on its own. */
  ghost predicate OwnChan(proc: seq<Proc>, p: nat)
    requires p < |proc|
  {
    proc[p].state == SLEEPING && proc[p].chan.OfProc? ==> proc[p].chan == OfProc(p)
  }

  ghost predicate Related(proc: seq<Proc>, nextpid: nat, p: nat, q: nat)
    requires p < |proc| && q < |proc|
  {
    && KinAt(proc, p) && MakesEmbryo(proc, p) && OwnChan(proc, p)
    && MakesAlone(proc, p, q) && PidApart(proc, nextpid, p, q) && NotMissed(proc, p, q)
  }

  /** Parents, embryos in the making, pids, and no lost wakeup. */
  ghost predicate FamilyOk(proc: seq<Proc>, nextpid: nat) {
    && INIT < |proc| && Live(proc[INIT]) && nextpid > 0
    && forall p: nat, q: nat :: p < |proc| && q < |proc| ==> Related(proc, nextpid, p, q)
  }

  ghost predicate Inv(c: Config, t: Table) {
    && Shape(c, t) && Partition(c, t) && CpusOk(c, t)
    && FamilyOk(t.proc, t.nextpid)
  }

  // ---------- Steps ----------

  datatype Step =
    | AllocProc(cpu: nat)
    | AbortFork(cpu: nat)
    | SetParent(cpu: nat)
    | FinishFork(cpu: nat)
    | Exit(cpu: nat, used: int)
    | Wait(cpu: nat, used: int)
    | Sleep(cpu: nat, chan: nat, used: int)
    | Yield(cpu: nat, used: int)
    | Wakeup(chan: nat)
    | Pick(cpu: nat)
    | Promote
    | Kill(pid: nat)
    | SetPriority(pid: nat, priority: int)

  /** A system call needs a current process; `fork` works on the embryo it is making. */
  ghost predicate Enabled(c: Config, t: Table, step: Step)
    requires Sized(c, t)
  {
    match step
    case AllocProc(k) => Busy(c, t, k) && Current(c, t, k).making == None
    case AbortFork(k) =>
      && Busy(c, t, k) && Current(c, t, k).making.Some?
      && Current(c, t, k).making.value < c.nproc && t.proc[Current(c, t, k).making.value].parent == None
    case SetParent(k) =>
      Busy(c, t, k) && Current(c, t, k).making.Some? && Current(c, t, k).making.value < c.nproc
    case FinishFork(k) =>
      && Busy(c, t, k) && Current(c, t, k).making.Some?
      && Current(c, t, k).making.value < c.nproc
      && t.proc[Current(c, t, k).making.value].parent == Some(t.cpus[k].value)
    case Exit(k, _) => Busy(c, t, k) && Current(c, t, k).making == None && t.cpus[k] != Some(INIT)
    case Wait(k, _) => Busy(c, t, k) && Current(c, t, k).making == None
    case Sleep(k, _, _) => Busy(c, t, k)
    case Yield(k, _) => Busy(c, t, k)
    case Wakeup(_) => true
    case Pick(k) => k < c.ncpu && t.cpus[k] == None
    case Promote => true
    case Kill(_) => true
    case SetPriority(_, _) => true
  }

  ghost predicate Busy(c: Config, t: Table, k: nat)
    requires Sized(c, t)
  {
    k < c.ncpu && t.cpus[k].Some? && t.cpus[k].value < c.nproc
  }

  ghost function Current(c: Config, t: Table, k: nat): Proc
    requires Sized(c, t) && Busy(c, t, k)
  {
    t.proc[t.cpus[k].value]
  }

  ghost function Apply(c: Config, t: Table, step: Step): Outcome
    requires Sized(c, t) && Enabled(c, t, step)
  {
    match step
    case AllocProc(k) => ProcTable.AllocProc(c, t, k, t.cpus[k].value)
    case AbortFork(k) => ProcTable.AbortFork(c, t, t.cpus[k].value, Current(c, t, k).making.value)
    case SetParent(k) => Ok(ProcTable.SetParent(t, t.cpus[k].value, Current(c, t, k).making.value))
    case FinishFork(k) => ProcTable.FinishFork(c, t, t.cpus[k].value, Current(c, t, k).making.value)
    case Exit(k, used) => ProcTable.Exit(c, t, k, t.cpus[k].value, used)
    case Wait(k, used) => ProcTable.Wait(c, t, k, t.cpus[k].value, used)
    case Sleep(k, ch, used) => ProcTable.Sleep(c, t, k, t.cpus[k].value, Other(ch), used)
    case Yield(k, used) => ProcTable.Yield(c, t, k, t.cpus[k].value, used)
    case Wakeup(ch) => ProcTable.Wakeup(c, t, Other(ch))
    case Pick(k) => ProcTable.Pick(c, t, k)
    case Promote => ProcTable.Promote(c, t)
    case Kill(pid) => ProcTable.Kill(c, t, pid)
    case SetPriority(pid, prio) => ProcTable.SetPriority(c, t, pid, prio)
  }

  // ---------- Lists and CPUs ----------

  /** Changing fields that do not decide the list keeps the partition. */
  lemma RelabelKeepsPartition(c: Config, t: Table, r: Table)
    requires Shape(c, t) && Partition(c, t) && Sized(c, r) && r.lists == t.lists
    requires forall q :: 0 <= q < c.nproc ==> SamePlace(t.proc[q], r.proc[q])
    ensures Shape(c, r) && Partition(c, r)
  {
    forall l: nat, q: nat | l < c.Lists() && q < c.nproc ensures PlacedAt(c, r, l, q) {
      assert PlacedAt(c, t, l, q) && PlacedAt(c, t, READY, q);
      assert SamePlace(t.proc[q], r.proc[q]);
    }
  }

  predicate SamePlace(a: Proc, b: Proc) {
    && a.state == b.state
    && (a.state == RUNNABLE ==> a.priority == b.priority && (a.killed ==> b.killed))
  }

  lemma DemotionKeepsPartition(c: Config, t: Table, p: nat, pr: Proc)
    requires Shape(c, t) && Partition(c, t) && p < c.nproc
    requires t.proc[p].state == RUNNABLE && p in t.lists[READY + t.proc[p].priority]
    requires t.proc[p].priority < c.maxprio && pr.priority == t.proc[p].priority + 1 && pr.state == RUNNABLE
    ensures var r := Move(t, p, READY + t.proc[p].priority, READY + pr.priority, pr); Shape(c, r) && Partition(c, r)
  {
    Found(c, t, READY + t.proc[p].priority, p);
    MoveKeepsPartition(c, t, p, READY + t.proc[p].priority, READY + pr.priority, pr);
  }

  lemma ChargeKeepsPartition(c: Config, t: Table, p: nat, used: int)
    requires Shape(c, t) && Partition(c, t) && p < c.nproc
    requires t.proc[p].state == RUNNABLE ==> p in t.lists[READY + t.proc[p].priority]
    ensures var r := Charge(c, t, p, used);
      && r.Ok? && Shape(c, r.t) && Partition(c, r.t)
      && r.t.cpus == t.cpus && r.t.nextpid == t.nextpid
      && SameButBudget(t.proc[p], r.t.proc[p])
      && forall q :: 0 <= q < c.nproc && q != p ==> r.t.proc[q] == t.proc[q]
  {
    var pr := t.proc[p];
    if pr.budget - used < 1 && pr.priority < c.maxprio && pr.state == RUNNABLE {
      DemotionKeepsPartition(c, t, p, pr.(budget := c.budget, priority := pr.priority + 1));
    } else {
      RelabelKeepsPartition(c, t, Charge(c, t, p, used).t);
    }
  }

  /** `sched` never panics for a process that has just been put on its list. */
  lemma SchedKeepsPartition(c: Config, t: Table, cpu: nat, p: nat, used: int)
    requires Shape(c, t) && Partition(c, t) && cpu < c.ncpu && p < c.nproc
    requires t.proc[p].state != RUNNING
    requires t.proc[p].state == RUNNABLE ==> p in t.lists[READY + t.proc[p].priority]
    ensures var r := Sched(c, t, cpu, p, used);
      && r.Ok? && Shape(c, r.t) && Partition(c, r.t)
      && r.t.cpus == t.cpus[cpu := None] && r.t.nextpid == t.nextpid
      && SameButBudget(t.proc[p], r.t.proc[p])
      && forall q :: 0 <= q < c.nproc && q != p ==> r.t.proc[q] == t.proc[q]
  {
    var off := t.(cpus := t.cpus[cpu := None]);
    RelabelKeepsPartition(c, t, off);
    ChargeKeepsPartition(c, off, p, used);
  }

  predicate SameButBudget(a: Proc, b: Proc) {
    b == a.(budget := b.budget, priority := b.priority)
  }

  lemma LeaveCpu(c: Config, t: Table, r: Table, cpu: nat, p: nat)
    requires Sized(c, t) && Sized(c, r) && CpusOk(c, t) && Runs(c, t, cpu, p)
    requires r.cpus == t.cpus[cpu := None] && r.proc[p].state != RUNNING
    requires forall q :: 0 <= q < c.nproc && q != p ==> (r.proc[q].state == RUNNING <==> t.proc[q].state == RUNNING)
    ensures CpusOk(c, r)
  {
    forall q: nat | q < c.nproc && r.proc[q].state == RUNNING ensures OnCpu(r, q) {
      assert OnCpu(t, q);
      var k :| 0 <= k < |t.cpus| && t.cpus[k] == Some(q);
      assert r.cpus[k] == Some(q);
    }
  }

  /** A section that does not touch CPUs or who is running. */
  lemma SameCpus(c: Config, t: Table, r: Table)
    requires Sized(c, t) && Sized(c, r) && CpusOk(c, t) && r.cpus == t.cpus
    requires forall q :: 0 <= q < c.nproc ==> (r.proc[q].state == RUNNING <==> t.proc[q].state == RUNNING)
    ensures CpusOk(c, r)
  {
    forall q: nat | q < c.nproc && r.proc[q].state == RUNNING ensures OnCpu(r, q) {
      assert OnCpu(t, q);
    }
  }

  // ---------- Steps that leave the families alone ----------

  /** Same relations; the states may differ only between the live ones. */
  predicate SameFamily(a: Proc, b: Proc) {
    && a.pid == b.pid && a.parent == b.parent && a.making == b.making
    && (a.state == b.state || (Live(a) && Live(b)))
  }

  lemma SameFamilies(t: Table, r: Table)
    requires |t.proc| == |r.proc| && r.nextpid == t.nextpid
    requires FamilyOk(t.proc, t.nextpid)
    requires forall q :: 0 <= q < |t.proc| ==> SameFamily(t.proc[q], r.proc[q])
    requires forall q :: 0 <= q < |t.proc| && r.proc[q].state == SLEEPING && r.proc[q].chan.OfProc? ==>
      t.proc[q].state == SLEEPING && t.proc[q].chan == r.proc[q].chan
    ensures FamilyOk(r.proc, r.nextpid)
  {
    forall p: nat, q: nat | p < |r.proc| && q < |r.proc| ensures Related(r.proc, r.nextpid, p, q) {
      assert Related(t.proc, t.nextpid, p, q);
    }
  }

  lemma YieldOk(c: Config, t: Table, cpu: nat, p: nat, used: int)
    requires Shape(c, t) && Partition(c, t) && Runs(c, t, cpu, p) && t.proc[p].state == RUNNING
    ensures var r := ProcTable.Yield(c, t, cpu, p, used);
      && r.Ok? && Shape(c, r.t) && Partition(c, r.t)
      && r.t.cpus == t.cpus[cpu := None] && r.t.nextpid == t.nextpid
      && SameButBudget(t.proc[p].(state := RUNNABLE), r.t.proc[p])
      && forall q :: 0 <= q < c.nproc && q != p ==> r.t.proc[q] == t.proc[q]
  {
    var pr := t.proc[p].(state := RUNNABLE);
    var m := Relist(c, t, p, RUNNERS, READY + pr.priority, RUNNING, pr);
    OnOwnList(c, t, p);
    MoveKeepsPartition(c, t, p, RUNNERS, READY + pr.priority, pr);
    SchedKeepsPartition(c, m.t, cpu, p, used);
  }

  lemma YieldKeeps(c: Config, t: Table, cpu: nat, p: nat, used: int)
    requires Inv(c, t) && Runs(c, t, cpu, p)
    ensures ProcTable.Yield(c, t, cpu, p, used).Ok? && Inv(c, ProcTable.Yield(c, t, cpu, p, used).t)
  {
    YieldOk(c, t, cpu, p, used);
    var r := ProcTable.Yield(c, t, cpu, p, used).t;
    LeaveCpu(c, t, r, cpu, p);
    SameFamilies(t, r);
  }

  lemma SleepOk(c: Config, t: Table, cpu: nat, p: nat, ch: Chan, used: int)
    requires Shape(c, t) && Partition(c, t) && Runs(c, t, cpu, p) && t.proc[p].state == RUNNING
    ensures var r := ProcTable.Sleep(c, t, cpu, p, ch, used);
      && r.Ok? && Shape(c, r.t) && Partition(c, r.t)
      && r.t.cpus == t.cpus[cpu := None] && r.t.nextpid == t.nextpid
      && SameButBudget(t.proc[p].(state := SLEEPING, chan := ch), r.t.proc[p])
      && forall q :: 0 <= q < c.nproc && q != p ==> r.t.proc[q] == t.proc[q]
  {
    var pr := t.proc[p].(state := SLEEPING, chan := ch);
    OnOwnList(c, t, p);
    MoveKeepsPartition(c, t, p, RUNNERS, SLEEPERS, pr);
    SchedKeepsPartition(c, Move(t, p, RUNNERS, SLEEPERS, pr), cpu, p, used);
  }

  lemma SleepOnOtherKeeps(c: Config, t: Table, cpu: nat, p: nat, ch: nat, used: int)
    requires Inv(c, t) && Runs(c, t, cpu, p)
    ensures var r := ProcTable.Sleep(c, t, cpu, p, Other(ch), used); r.Ok? && Inv(c, r.t)
  {
    SleepOk(c, t, cpu, p, Other(ch), used);
    var r := ProcTable.Sleep(c, t, cpu, p, Other(ch), used).t;
    LeaveCpu(c, t, r, cpu, p);
    SameFamilies(t, r);
  }

  /** What a wakeup on `ch` does to one process. */
  function Woken(pr: Proc, ch: Chan): Proc {
    if pr.state == SLEEPING && pr.chan == ch then pr.(state := RUNNABLE) else pr
  }

  lemma WakeOneOk(c: Config, t: Table, p: nat)
    requires Shape(c, t) && Partition(c, t) && p < c.nproc && p in t.lists[SLEEPERS]
    ensures var pr := t.proc[p].(state := RUNNABLE);
      var r := Relist(c, t, p, SLEEPERS, READY + pr.priority, SLEEPING, pr);
      r.Ok? && Shape(c, r.t) && Partition(c, r.t)
  {
    var pr := t.proc[p].(state := RUNNABLE);
    Found(c, t, SLEEPERS, p);
    MoveKeepsPartition(c, t, p, SLEEPERS, READY + pr.priority, pr);
  }

  lemma OthersStay(c: Config, t: Table, ps: seq<nat>)
    requires Shape(c, t) && ps != [] && NoDup(ps)
    requires forall i :: 0 <= i < |ps| ==> ps[i] < c.nproc && ps[i] in t.lists[SLEEPERS]
    ensures var pr := t.proc[ps[0]].(state := RUNNABLE);
      var r := Move(t, ps[0], SLEEPERS, READY + pr.priority, pr);
      forall i :: 0 <= i < |ps[1..]| ==> ps[1..][i] in r.lists[SLEEPERS]
  {
    RemoveMembers(t.lists[SLEEPERS], ps[0]);
  }

  lemma {:induction false} WakeOk(c: Config, t: Table, ch: Chan, ps: seq<nat>)
    requires Shape(c, t) && Partition(c, t) && NoDup(ps)
    requires forall i :: 0 <= i < |ps| ==> ps[i] < c.nproc && ps[i] in t.lists[SLEEPERS]
    ensures var r := Wake(c, t, ch, ps);
      && r.Ok? && Shape(c, r.t) && Partition(c, r.t)
      && r.t.cpus == t.cpus && r.t.nextpid == t.nextpid
    decreases |ps|
  {
    if ps != [] {
      var p, pr := ps[0], t.proc[ps[0]];
      if pr.chan == ch {
        WakeOneOk(c, t, p);
        OthersStay(c, t, ps);
        WakeOk(c, Move(t, p, SLEEPERS, READY + pr.priority, pr.(state := RUNNABLE)), ch, ps[1..]);
      } else {
        WakeOk(c, t, ch, ps[1..]);
      }
    }
  }

  lemma {:induction false} WakeProc(c: Config, t: Table, ch: Chan, ps: seq<nat>, q: nat)
    requires Sized(c, t) && NoDup(ps) && q < c.nproc
    requires forall i :: 0 <= i < |ps| ==> ps[i] < c.nproc && t.proc[ps[i]].state == SLEEPING
    requires Wake(c, t, ch, ps).Ok?
    ensures Wake(c, t, ch, ps).t.proc[q] == if q in ps then Woken(t.proc[q], ch) else t.proc[q]
    decreases |ps|
  {
    if ps != [] {
      var p, pr := ps[0], t.proc[ps[0]];
      assert ps == [p] + ps[1..];
      if pr.chan == ch {
        WakeProc(c, Move(t, p, SLEEPERS, READY + pr.priority, pr.(state := RUNNABLE)), ch, ps[1..], q);
      } else {
        WakeProc(c, t, ch, ps[1..], q);
      }
    }
  }

  lemma WakeupOk(c: Config, t: Table, ch: Chan)
    requires Shape(c, t) && Partition(c, t)
    ensures var r := ProcTable.Wakeup(c, t, ch);
      && r.Ok? && Shape(c, r.t) && Partition(c, r.t)
      && r.t.cpus == t.cpus && r.t.nextpid == t.nextpid
      && forall q: nat :: q < c.nproc ==> r.t.proc[q] == Woken(t.proc[q], ch)
  {
    WakeOk(c, t, ch, t.lists[SLEEPERS]);
    forall i | 0 <= i < |t.lists[SLEEPERS]| ensures t.proc[t.lists[SLEEPERS][i]].state == SLEEPING {
      Found(c, t, SLEEPERS, t.lists[SLEEPERS][i]);
    }
    forall q: nat | q < c.nproc
      ensures ProcTable.Wakeup(c, t, ch).t.proc[q] == Woken(t.proc[q], ch)
    {
      WakeProc(c, t, ch, t.lists[SLEEPERS], q);
      OnOwnList(c, t, q);
    }
  }

  lemma WakeupKeeps(c: Config, t: Table, ch: nat)
    requires Inv(c, t)
    ensures var r := ProcTable.Wakeup(c, t, Other(ch)); r.Ok? && Inv(c, r.t)
  {
    WakeupOk(c, t, Other(ch));
    var r := ProcTable.Wakeup(c, t, Other(ch)).t;
    SameCpus(c, t, r);
    SameFamilies(t, r);
  }

  lemma PickOk(c: Config, t: Table, cpu: nat)
    requires Shape(c, t) && Partition(c, t) && cpu < c.ncpu && t.cpus[cpu] == None
    ensures var r := ProcTable.Pick(c, t, cpu);
      && r.Ok? && Shape(c, r.t) && Partition(c, r.t) && r.t.nextpid == t.nextpid
      && (r.t == t || exists p: nat :: Picked(c, t, r.t, cpu, p))
  {
    match FirstReady(c, t, 0) {
      case None =>
      case Some(j) =>
        var p := t.lists[READY + j][0];
        Found(c, t, READY + j, p);
        var pr := t.proc[p].(state := RUNNING, chan := NoChan);
        MoveKeepsPartition(c, t, p, READY + j, RUNNERS, pr);
        var m := Move(t, p, READY + j, RUNNERS, pr);
        RelabelKeepsPartition(c, m, m.(cpus := m.cpus[cpu := Some(p)]));
        assert Picked(c, t, ProcTable.Pick(c, t, cpu).t, cpu, p);
    }
  }

  ghost predicate Picked(c: Config, t: Table, r: Table, cpu: nat, p: nat) {
    && p < |t.proc| && cpu < |t.cpus| && t.proc[p].state == RUNNABLE
    && r.proc == t.proc[p := t.proc[p].(state := RUNNING, chan := NoChan)]
    && r.cpus == t.cpus[cpu := Some(p)]
  }

  lemma PickKeeps(c: Config, t: Table, cpu: nat)
    requires Inv(c, t) && cpu < c.ncpu && t.cpus[cpu] == None
    ensures var r := ProcTable.Pick(c, t, cpu); r.Ok? && Inv(c, r.t)
  {
    PickOk(c, t, cpu);
    var r := ProcTable.Pick(c, t, cpu).t;
    if r != t {
      var p: nat :| Picked(c, t, r, cpu, p);
      forall q: nat | q < c.nproc && r.proc[q].state == RUNNING ensures OnCpu(r, q) {
        if q == p {
          assert r.cpus[cpu] == Some(q);
        } else {
          assert OnCpu(t, q);
          var k :| 0 <= k < |t.cpus| && t.cpus[k] == Some(q);
          assert r.cpus[k] == Some(q);
        }
      }
      SameFamilies(t, r);
    }
  }

  // ---------- Promotion ----------

  lemma PromotedMembers(c: Config, t: Table, l: nat, q: nat)
    requires Shape(c, t) && l < c.Lists()
    ensures var r := PromotedLists(c, t.lists);
      && |r| == c.Lists()
      && (q in r[l] <==>
          if c.maxprio == 0 || l < READY then q in t.lists[l]
          else if l == READY then q in t.lists[READY] || q in t.lists[READY + 1]
          else l < c.Lists() - 1 && q in t.lists[l + 1])
  {
  }

  lemma PromoteNoPanic(c: Config, t: Table)
    requires Shape(c, t) && Partition(c, t)
    ensures !PromotionPanics(c, t)
  {
    forall l, i | READY < l < c.Lists() && 0 <= i < |t.lists[l]|
      ensures READY + t.proc[t.lists[l][i]].priority == l
    {
      Found(c, t, l, t.lists[l][i]);
    }
  }

  lemma PromotedPlace(c: Config, t: Table, l: nat, q: nat)
    requires Shape(c, t) && Partition(c, t) && q < c.nproc && l < c.Lists()
    requires ProcTable.Promote(c, t).Ok? && Sized(c, ProcTable.Promote(c, t).t)
    ensures PlacedAt(c, ProcTable.Promote(c, t).t, l, q)
  {
    PromotedMembers(c, t, l, q);
    PromotedMembers(c, t, READY, q);
    assert PlacedAt(c, t, l, q) && PlacedAt(c, t, READY, q);
    assert l < c.maxprio + READY ==> PlacedAt(c, t, l + 1, q);
    assert c.maxprio > 0 ==> PlacedAt(c, t, READY + 1, q);
  }

  lemma PromotedSized(c: Config, t: Table)
    requires Shape(c, t) && ProcTable.Promote(c, t).Ok?
    ensures Sized(c, ProcTable.Promote(c, t).t)
  {
    var r := ProcTable.Promote(c, t).t;
    forall l, i | 0 <= l < c.Lists() && 0 <= i < |r.lists[l]| ensures r.lists[l][i] < c.nproc {
      PromotedMembers(c, t, l, r.lists[l][i]);
    }
  }

  lemma PromoteKeeps(c: Config, t: Table)
    requires Inv(c, t)
    ensures var r := ProcTable.Promote(c, t); r.Ok? && Inv(c, r.t)
  {
    PromoteNoPanic(c, t);
    var r := ProcTable.Promote(c, t).t;
    PromotedSized(c, t);
    forall l: nat, q: nat | l < c.Lists() && q < c.nproc ensures PlacedAt(c, r, l, q) {
      PromotedPlace(c, t, l, q);
    }
    assert Shape(c, r) by {
      PromotedNoDup(c, t);
    }
    SameCpus(c, t, r);
    SameFamilies(t, r);
  }

  lemma PromotedNoDup(c: Config, t: Table)
    requires Shape(c, t) && Partition(c, t)
    ensures var r := PromotedLists(c, t.lists);
      |r| == c.Lists() && forall l :: 0 <= l < c.Lists() ==> NoDup(r[l])
  {
    if c.maxprio > 0 {
      var a, b := t.lists[READY], t.lists[READY + 1];
      forall i, j | 0 <= i < |a| && 0 <= j < |b| ensures a[i] != b[j] {
        Found(c, t, READY, a[i]);
        Found(c, t, READY + 1, b[j]);
      }
    }
  }

  // ---------- kill and setpriority ----------

  lemma {:induction false} AllReadyRunnable(c: Config, t: Table, i: nat, q: nat)
    requires Shape(c, t) && Partition(c, t) && i <= c.maxprio + 1
    requires q in AllReady(c, t, i)
    ensures q < c.nproc && t.proc[q].state == RUNNABLE
    decreases c.maxprio + 1 - i
  {
    if q in t.lists[READY + i] {
      Found(c, t, READY + i, q);
    } else {
      AllReadyRunnable(c, t, i + 1, q);
    }
  }

  /** Moving one process between lists without changing its relations or who is running. */
  lemma MoveKeepsInv(c: Config, t: Table, p: nat, from: nat, to: nat, pr: Proc)
    requires Inv(c, t) && p < c.nproc && from == Place(c, t, p) && to < c.Lists()
    requires pr.priority <= c.maxprio && Fits(pr, to) && SameFamily(t.proc[p], pr)
    requires pr.state != RUNNING && t.proc[p].state != RUNNING && pr.state != SLEEPING
    ensures Inv(c, Move(t, p, from, to, pr))
  {
    var r := Move(t, p, from, to, pr);
    MoveKeepsPartition(c, t, p, from, to, pr);
    SameCpus(c, t, r);
    SameFamilies(t, r);
  }

  /** Changing one process without changing its list or its relations. */
  lemma RelabelKeepsInv(c: Config, t: Table, p: nat, pr: Proc)
    requires Inv(c, t) && p < c.nproc && pr.priority <= c.maxprio
    requires SamePlace(t.proc[p], pr) && SameFamily(t.proc[p], pr) && pr.chan == t.proc[p].chan
    ensures Inv(c, t.(proc := t.proc[p := pr]))
  {
    var r := t.(proc := t.proc[p := pr]);
    RelabelKeepsPartition(c, t, r);
    SameCpus(c, t, r);
    SameFamilies(t, r);
  }

  lemma KillKeeps(c: Config, t: Table, pid: nat)
    requires Inv(c, t)
    ensures var r := ProcTable.Kill(c, t, pid); r.Ok? && Inv(c, r.t)
  {
    var scan := t.lists[RUNNERS] + t.lists[SLEEPERS] + AllReady(c, t, 0) + t.lists[ZOMBIES] + t.lists[EMBRYOS];
    match FindPid(t, scan, pid) {
      case None =>
      case Some(p) =>
        if p in t.lists[SLEEPERS] {
          Found(c, t, SLEEPERS, p);
          MoveKeepsInv(c, t, p, SLEEPERS, READY, t.proc[p].(killed := true, state := RUNNABLE));
        } else {
          RelabelKeepsInv(c, t, p, t.proc[p].(killed := true));
        }
    }
  }

  /** `setpriority` finds a running process whose priority is different. */
  ghost predicate MovesRunning(c: Config, t: Table, pid: nat, priority: int)
    requires Sized(c, t)
  {
    0 <= priority <= c.maxprio
    && var found := FindPid(t, t.lists[RUNNERS] + AllReady(c, t, 0) + t.lists[SLEEPERS], pid);
      found.Some? && found.value in t.lists[RUNNERS] && t.proc[found.value].priority != priority
  }

  lemma SetReadyKeeps(c: Config, t: Table, p: nat, pr: Proc)
    requires Inv(c, t) && p < c.nproc && t.proc[p].state == RUNNABLE
    requires SameButBudget(t.proc[p], pr) && pr.priority <= c.maxprio
    ensures var r := Relist(c, t, p, Place(c, t, p), READY + pr.priority, RUNNABLE, pr); r.Ok? && Inv(c, r.t)
  {
    OnOwnList(c, t, p);
    MoveKeepsInv(c, t, p, Place(c, t, p), READY + pr.priority, pr);
  }

  lemma SetPriorityKeeps(c: Config, t: Table, pid: nat, priority: int)
    requires Inv(c, t) && !MovesRunning(c, t, pid, priority)
    ensures var r := ProcTable.SetPriority(c, t, pid, priority); r.Ok? && Inv(c, r.t)
  {
    if priority < 0 || priority > c.maxprio {
      return;
    }
    match FindPid(t, t.lists[RUNNERS] + AllReady(c, t, 0) + t.lists[SLEEPERS], pid) {
      case None =>
      case Some(p) =>
        var pr := t.proc[p].(priority := priority, budget := c.budget);
        if t.proc[p].priority == priority || p in t.lists[SLEEPERS] {
          assert PlacedAt(c, t, SLEEPERS, p);
          RelabelKeepsInv(c, t, p, pr);
        } else {
          AllReadyRunnable(c, t, 0, p);
          SetReadyKeeps(c, t, p, pr);
        }
    }
  }

  /** The running branch of `setpriority` always breaks the partition: the process is left on a
      ready list in state RUNNING. */
  lemma SetPriorityBreaks(c: Config, t: Table, pid: nat, priority: int)
    requires Inv(c, t) && MovesRunning(c, t, pid, priority)
    ensures var r := ProcTable.SetPriority(c, t, pid, priority); r.Ok? && Shape(c, r.t) && !Partition(c, r.t)
  {
    var p := FindPid(t, t.lists[RUNNERS] + AllReady(c, t, 0) + t.lists[SLEEPERS], pid).value;
    var pr := t.proc[p].(priority := priority, budget := c.budget);
    Found(c, t, RUNNERS, p);
    MoveMembers(c, t, p, RUNNERS, READY + priority, pr);
    var r := ProcTable.SetPriority(c, t, pid, priority).t;
    assert !PlacedAt(c, r, READY + priority, p);
  }

  /** `setpriority` keeps the invariant exactly when it does not move a running process. */
  lemma SetPriorityExact(c: Config, t: Table, pid: nat, priority: int)
    requires Inv(c, t)
    ensures var r := ProcTable.SetPriority(c, t, pid, priority);
      r.Ok? && (Inv(c, r.t) <==> !MovesRunning(c, t, pid, priority))
  {
    if MovesRunning(c, t, pid, priority) {
      SetPriorityBreaks(c, t, pid, priority);
    } else {
      SetPriorityKeeps(c, t, pid, priority);
    }
  }

  /** With one priority, as configured, that branch is unreachable. */
  lemma OnePriorityNeverMoves(c: Config, t: Table, pid: nat, priority: int)
    requires Inv(c, t) && c.maxprio == 0
    ensures !MovesRunning(c, t, pid, priority)
  {
  }

  // ---------- fork ----------

  /** The relations after `allocproc` gives embryo `e` to `p`. */
  lemma AllocFamily(proc: seq<Proc>, nextpid: nat, p: nat, e: nat, pr: Proc)
    requires FamilyOk(proc, nextpid) && p < |proc| && e < |proc|
    requires proc[p].state == RUNNING && proc[p].making == None && proc[e].state == UNUSED
    requires pr.state == EMBRYO && pr.pid == nextpid && pr.parent == proc[e].parent && pr.making == proc[e].making
    ensures var after := proc[e := pr][p := proc[p].(making := Some(e))];
      FamilyOk(after, nextpid + 1)
  {
    var after := proc[e := pr][p := proc[p].(making := Some(e))];
    var next := nextpid + 1;
    forall a: nat, b: nat | a < |proc| && b < |proc| ensures Related(after, next, a, b) {
      assert Related(proc, nextpid, a, b) && Related(proc, nextpid, b, a) && Related(proc, nextpid, e, p);
    }
  }

  lemma AllocProcKeeps(c: Config, t: Table, cpu: nat, p: nat)
    requires Inv(c, t) && Runs(c, t, cpu, p) && t.proc[p].making == None
    ensures var r := ProcTable.AllocProc(c, t, cpu, p); r.Ok? && Inv(c, r.t)
  {
    if t.lists[FREE] != [] {
      var e := t.lists[FREE][0];
      var pr := t.proc[e].(state := EMBRYO, budget := c.budget, priority := 0, pid := t.nextpid);
      Found(c, t, FREE, e);
      MoveKeepsPartition(c, t, e, FREE, EMBRYOS, pr);
      var m := Move(t, e, FREE, EMBRYOS, pr);
      var r := ProcTable.AllocProc(c, t, cpu, p).t;
      RelabelKeepsPartition(c, m, r);
      SameCpus(c, t, r);
      AllocFamily(t.proc, t.nextpid, p, e, pr);
    }
  }

  /** The relations when embryo `e` of `p` becomes `pr`: a free slot, or a child of `p`. */
  lemma LeaveFamily(proc: seq<Proc>, nextpid: nat, p: nat, e: nat, pr: Proc)
    requires FamilyOk(proc, nextpid) && p < |proc| && e < |proc|
    requires proc[p].state == RUNNING && proc[p].making == Some(e)
    requires pr.parent == proc[e].parent && pr.making == proc[e].making && pr.pid == proc[e].pid
    requires if pr.parent == None then pr.state == UNUSED else pr.parent == Some(p) && pr.state == RUNNABLE
    ensures var after := proc[e := pr][p := proc[p].(making := None)];
      FamilyOk(after, nextpid)
  {
    var after := proc[e := pr][p := proc[p].(making := None)];
    assert Related(proc, nextpid, e, p) && Related(proc, nextpid, p, e);
    forall a: nat, b: nat | a < |proc| && b < |proc| ensures Related(after, nextpid, a, b) {
      assert Related(proc, nextpid, a, b) && Related(proc, nextpid, p, a);
    }
  }

  /** The lists and CPUs when embryo `e` of `p` becomes `pr`. */
  lemma LeaveEmbryos(c: Config, t: Table, p: nat, e: nat, to: nat, pr: Proc)
    requires Shape(c, t) && Partition(c, t) && CpusOk(c, t) && p < c.nproc && e < c.nproc && to < c.Lists()
    requires t.proc[p].state == RUNNING && t.proc[e].state == EMBRYO
    requires pr.priority <= c.maxprio && Fits(pr, to) && pr.state != RUNNING
    ensures e in t.lists[EMBRYOS]
    ensures var m := Move(t, e, EMBRYOS, to, pr);
      var r := m.(proc := m.proc[p := m.proc[p].(making := None)]);
      Shape(c, r) && Partition(c, r) && CpusOk(c, r)
  {
    OnOwnList(c, t, e);
    MoveKeepsPartition(c, t, e, EMBRYOS, to, pr);
    var m := Move(t, e, EMBRYOS, to, pr);
    var r := m.(proc := m.proc[p := m.proc[p].(making := None)]);
    RelabelKeepsPartition(c, m, r);
    SameCpus(c, t, r);
  }

  lemma AbortForkKeeps(c: Config, t: Table, cpu: nat, p: nat, e: nat)
    requires Inv(c, t) && Runs(c, t, cpu, p) && t.proc[p].making == Some(e)
    requires e < c.nproc && t.proc[e].parent == None
    ensures var r := ProcTable.AbortFork(c, t, p, e); r.Ok? && Inv(c, r.t)
  {
    assert Related(t.proc, t.nextpid, p, e);
    var pr := t.proc[e].(state := UNUSED);
    LeaveEmbryos(c, t, p, e, FREE, pr);
    LeaveFamily(t.proc, t.nextpid, p, e, pr);
  }

  lemma FinishForkKeeps(c: Config, t: Table, cpu: nat, p: nat, e: nat)
    requires Inv(c, t) && Runs(c, t, cpu, p) && t.proc[p].making == Some(e)
    requires e < c.nproc && t.proc[e].parent == Some(p)
    ensures var r := ProcTable.FinishFork(c, t, p, e); r.Ok? && Inv(c, r.t)
  {
    assert Related(t.proc, t.nextpid, p, e);
    var prio := t.proc[p].priority;
    var pr := t.proc[e].(state := RUNNABLE, priority := prio);
    LeaveEmbryos(c, t, p, e, READY + prio, pr);
    LeaveFamily(t.proc, t.nextpid, p, e, pr);
  }

  lemma SetParentKeeps(c: Config, t: Table, cpu: nat, p: nat, e: nat)
    requires Inv(c, t) && Runs(c, t, cpu, p) && t.proc[p].making == Some(e) && e < c.nproc
    ensures Inv(c, ProcTable.SetParent(t, p, e))
  {
    assert Related(t.proc, t.nextpid, p, e) && Related(t.proc, t.nextpid, e, p);
    var r := ProcTable.SetParent(t, p, e);
    RelabelKeepsPartition(c, t, r);
    SameCpus(c, t, r);
    forall a: nat, b: nat | a < c.nproc && b < c.nproc ensures Related(r.proc, r.nextpid, a, b) {
      assert Related(t.proc, t.nextpid, a, b);
    }
  }

  // ---------- wait ----------

  /** The test on pids finds exactly the own children. */
  lemma ChildIsOwn(c: Config, t: Table, q: nat, p: nat)
    requires Inv(c, t) && q < c.nproc && p < c.nproc && t.proc[p].state == RUNNING
    ensures IsChild(t, q, p) <==> t.proc[q].parent == Some(p)
  {
    assert Related(t.proc, t.nextpid, q, p);
    if IsChild(t, q, p) {
      var f := t.proc[q].parent.value;
      assert Related(t.proc, t.nextpid, f, p);
    }
  }

  lemma ReapFamily(proc: seq<Proc>, nextpid: nat, z: nat, pr: Proc)
    requires FamilyOk(proc, nextpid) && z < |proc| && proc[z].state == ZOMBIE
    requires pr.state == UNUSED && pr.parent == None && pr.making == proc[z].making
    ensures FamilyOk(proc[z := pr], nextpid)
  {
    var after := proc[z := pr];
    assert Related(proc, nextpid, z, z);
    forall a: nat, b: nat | a < |proc| && b < |proc| ensures Related(after, nextpid, a, b) {
      assert Related(proc, nextpid, a, b);
    }
  }

  lemma ReapKeeps(c: Config, t: Table, z: nat, pr: Proc)
    requires Inv(c, t) && z < c.nproc && t.proc[z].state == ZOMBIE
    requires pr == t.proc[z].(state := UNUSED, pid := 0, parent := None, killed := false)
    ensures var r := Relist(c, t, z, ZOMBIES, FREE, ZOMBIE, pr); r.Ok? && Inv(c, r.t)
  {
    OnOwnList(c, t, z);
    MoveKeepsPartition(c, t, z, ZOMBIES, FREE, pr);
    SameCpus(c, t, Move(t, z, ZOMBIES, FREE, pr));
    ReapFamily(t.proc, t.nextpid, z, pr);
  }

  lemma WaitSleepKeeps(c: Config, t: Table, cpu: nat, p: nat, used: int)
    requires Inv(c, t) && Runs(c, t, cpu, p) && FindChild(t, t.lists[ZOMBIES], p).None?
    ensures var r := ProcTable.Sleep(c, t, cpu, p, OfProc(p), used); r.Ok? && Inv(c, r.t)
  {
    SleepOk(c, t, cpu, p, OfProc(p), used);
    var r := ProcTable.Sleep(c, t, cpu, p, OfProc(p), used).t;
    LeaveCpu(c, t, r, cpu, p);
    forall a: nat, b: nat | a < c.nproc && b < c.nproc ensures Related(r.proc, r.nextpid, a, b) {
      assert Related(t.proc, t.nextpid, a, b);
      if b != p && t.proc[b].state == ZOMBIE {
        NoZombieMissed(c, t, p, b);
      }
    }
  }

  lemma NoZombieMissed(c: Config, t: Table, p: nat, b: nat)
    requires Inv(c, t) && p < c.nproc && b < c.nproc
    requires FindChild(t, t.lists[ZOMBIES], p).None? && t.proc[b].state == ZOMBIE
    ensures t.proc[b].parent != Some(p)
  {
    OnOwnList(c, t, b);
  }

  lemma WaitKeeps(c: Config, t: Table, cpu: nat, p: nat, used: int)
    requires Inv(c, t) && Runs(c, t, cpu, p)
    ensures var r := ProcTable.Wait(c, t, cpu, p, used); r.Ok? && Inv(c, r.t)
  {
    match FindChild(t, t.lists[ZOMBIES], p) {
      case Some(z) =>
        Found(c, t, ZOMBIES, z);
        ReapKeeps(c, t, z, t.proc[z].(state := UNUSED, pid := 0, parent := None, killed := false));
      case None =>
        WaitSleepKeeps(c, t, cpu, p, used);
    }
  }

  /** What `wait` does with the zombies: it frees one own child, or there is none. */
  lemma WaitReapsOwn(c: Config, t: Table, cpu: nat, p: nat)
    requires Inv(c, t) && Runs(c, t, cpu, p)
    ensures match FindChild(t, t.lists[ZOMBIES], p)
      case Some(z) => z < c.nproc && t.proc[z].state == ZOMBIE && t.proc[z].parent == Some(p)
      case None => forall q: nat :: q < c.nproc && t.proc[q].state == ZOMBIE ==> t.proc[q].parent != Some(p)
  {
    match FindChild(t, t.lists[ZOMBIES], p) {
      case Some(z) =>
        Found(c, t, ZOMBIES, z);
        ChildIsOwn(c, t, z, p);
      case None =>
        forall q: nat | q < c.nproc && t.proc[q].state == ZOMBIE ensures t.proc[q].parent != Some(p) {
          NoZombieMissed(c, t, p, q);
        }
    }
  }

  /** `wait` reports no children exactly when no slot names the caller as its parent. */
  lemma WaitCountsKids(c: Config, t: Table, cpu: nat, p: nat)
    requires Inv(c, t) && Runs(c, t, cpu, p) && t.proc[p].making == None
    requires FindChild(t, t.lists[ZOMBIES], p).None?
    ensures HasKids(c, t, p) <==> exists q: nat :: q < c.nproc && t.proc[q].parent == Some(p)
  {
    if HasKids(c, t, p) {
      var l, i :| 0 <= l < c.Lists() && l != FREE && l != ZOMBIES
        && 0 <= i < |t.lists[l]| && IsChild(t, t.lists[l][i], p);
      var q := t.lists[l][i];
      ChildIsOwn(c, t, q, p);
    }
    if q: nat :| q < c.nproc && t.proc[q].parent == Some(p) {
      assert Related(t.proc, t.nextpid, q, p);
      var l := Place(c, t, q);
      OnOwnList(c, t, q);
      var i :| 0 <= i < |t.lists[l]| && t.lists[l][i] == q;
      if t.proc[q].state == ZOMBIE {
        NoZombieMissed(c, t, p, q);
      }
      assert IsChild(t, t.lists[l][i], p);
    }
  }

  // ---------- exit ----------

  /** What `exit` of `p` does to another process `q`; `zombies` says whether `p` leaves zombie children. */
  function AfterExit(proc: seq<Proc>, p: nat, zombies: bool, q: nat): Proc
    requires p < |proc| && q < |proc| && proc[p].parent.Some?
  {
    var orphan := Orphan(Woken(proc[q], OfProc(proc[p].parent.value)), p);
    if zombies then Woken(orphan, OfProc(INIT)) else orphan
  }

  /** The relations after the exit of `p`; nobody names `p` as a parent any more. */
  lemma ExitFamily(proc: seq<Proc>, after: seq<Proc>, nextpid: nat, p: nat, zombies: bool)
    requires FamilyOk(proc, nextpid) && p < |proc| && |after| == |proc|
    requires proc[p].state == RUNNING && proc[p].making == None && proc[p].parent.Some? && p != INIT
    requires !zombies ==> forall q :: 0 <= q < |proc| && proc[q].state == ZOMBIE ==> proc[q].parent != Some(p)
    requires forall q :: 0 <= q < |proc| && q != p ==> after[q] == AfterExit(proc, p, zombies, q)
    requires SameButBudget(proc[p].(state := ZOMBIE), after[p])
    ensures FamilyOk(after, nextpid)
    ensures forall q :: 0 <= q < |after| ==> after[q].parent != Some(p)
  {
    assert Related(proc, nextpid, p, p);
    forall a: nat, b: nat | a < |proc| && b < |proc| ensures Related(after, nextpid, a, b) {
      ExitRelated(proc, after, nextpid, p, zombies, a, b);
    }
  }

  lemma ExitKin(proc: seq<Proc>, after: seq<Proc>, nextpid: nat, p: nat, zombies: bool, a: nat)
    requires FamilyOk(proc, nextpid) && p < |proc| && |after| == |proc| && a < |proc|
    requires proc[p].state == RUNNING && proc[p].making == None && proc[p].parent.Some? && p != INIT
    requires forall q :: 0 <= q < |proc| && q != p ==> after[q] == AfterExit(proc, p, zombies, q)
    requires SameButBudget(proc[p].(state := ZOMBIE), after[p])
    ensures KinAt(after, a)
  {
    assert Related(proc, nextpid, a, p) && Related(proc, nextpid, p, a);
  }

  lemma ExitNotMissed(proc: seq<Proc>, after: seq<Proc>, nextpid: nat, p: nat, zombies: bool, a: nat, b: nat)
    requires FamilyOk(proc, nextpid) && p < |proc| && |after| == |proc| && a < |proc| && b < |proc|
    requires proc[p].state == RUNNING && proc[p].making == None && proc[p].parent.Some? && p != INIT
    requires !zombies ==> forall q :: 0 <= q < |proc| && proc[q].state == ZOMBIE ==> proc[q].parent != Some(p)
    requires forall q :: 0 <= q < |proc| && q != p ==> after[q] == AfterExit(proc, p, zombies, q)
    requires SameButBudget(proc[p].(state := ZOMBIE), after[p])
    ensures NotMissed(after, a, b)
  {
    assert Related(proc, nextpid, a, b) && Related(proc, nextpid, p, p);
  }

  /** Still in use, and asleep only if it was. */
  predicate Later(a: Proc, b: Proc) {
    && a.pid == b.pid && a.making == b.making
    && (a.state == b.state || (Live(a) && (Live(b) || b.state == ZOMBIE)))
    && (b.state == SLEEPING ==> a.state == SLEEPING && a.chan == b.chan)
  }

  lemma LaterRelated(proc: seq<Proc>, after: seq<Proc>, nextpid: nat, a: nat, b: nat)
    requires |after| == |proc| && a < |proc| && b < |proc| && Related(proc, nextpid, a, b)
    requires forall q :: 0 <= q < |proc| ==> Later(proc[q], after[q])
    ensures MakesEmbryo(after, a) && OwnChan(after, a) && MakesAlone(after, a, b) && PidApart(after, nextpid, a, b)
  {
    assert Later(proc[a], after[a]) && Later(proc[b], after[b]);
  }

  lemma ExitRelated(proc: seq<Proc>, after: seq<Proc>, nextpid: nat, p: nat, zombies: bool, a: nat, b: nat)
    requires FamilyOk(proc, nextpid) && p < |proc| && |after| == |proc| && a < |proc| && b < |proc|
    requires proc[p].state == RUNNING && proc[p].making == None && proc[p].parent.Some? && p != INIT
    requires !zombies ==> forall q :: 0 <= q < |proc| && proc[q].state == ZOMBIE ==> proc[q].parent != Some(p)
    requires forall q :: 0 <= q < |proc| && q != p ==> after[q] == AfterExit(proc, p, zombies, q)
    requires SameButBudget(proc[p].(state := ZOMBIE), after[p])
    requires forall q :: 0 <= q < |proc| ==> Later(proc[q], after[q])
    ensures Related(after, nextpid, a, b)
  {
    ExitKin(proc, after, nextpid, p, zombies, a);
    ExitNotMissed(proc, after, nextpid, p, zombies, a, b);
    LaterRelated(proc, after, nextpid, a, b);
  }

  lemma ExitOk(c: Config, t: Table, cpu: nat, p: nat, used: int)
    requires Shape(c, t) && Partition(c, t) && Runs(c, t, cpu, p) && p != INIT
    requires t.proc[p].state == RUNNING && t.proc[p].parent.Some? && t.proc[p].parent != Some(p)
    ensures var r := ProcTable.Exit(c, t, cpu, p, used);
      && r.Ok? && Shape(c, r.t) && Partition(c, r.t)
      && r.t.cpus == t.cpus[cpu := None] && r.t.nextpid == t.nextpid
      && SameButBudget(t.proc[p].(state := ZOMBIE), r.t.proc[p])
      && forall q :: 0 <= q < c.nproc && q != p ==>
           r.t.proc[q] == AfterExit(t.proc, p, HasZombieChild(c, t, p), q)
  {
    var ch, zombies := OfProc(t.proc[p].parent.value), HasZombieChild(c, t, p);
    WakeupOk(c, t, ch);
    var woken := ProcTable.Wakeup(c, t, ch).t;
    var orphaned := Reparent(woken, p);
    RelabelKeepsPartition(c, woken, orphaned);
    WakeupOk(c, orphaned, OfProc(INIT));
    var again := if zombies then ProcTable.Wakeup(c, orphaned, OfProc(INIT)).t else orphaned;
    BecomeZombie(c, again, cpu, p, used);
  }

  lemma BecomeZombie(c: Config, t: Table, cpu: nat, p: nat, used: int)
    requires Shape(c, t) && Partition(c, t) && Runs(c, t, cpu, p) && t.proc[p].state == RUNNING
    ensures var pr := t.proc[p].(state := ZOMBIE);
      var m := Relist(c, t, p, RUNNERS, ZOMBIES, RUNNING, pr);
      && m.Ok?
      && var r := Sched(c, m.t, cpu, p, used);
      && r.Ok? && Shape(c, r.t) && Partition(c, r.t)
      && r.t.cpus == t.cpus[cpu := None] && r.t.nextpid == t.nextpid
      && SameButBudget(pr, r.t.proc[p])
      && forall q :: 0 <= q < c.nproc && q != p ==> r.t.proc[q] == t.proc[q]
  {
    var pr := t.proc[p].(state := ZOMBIE);
    OnOwnList(c, t, p);
    MoveKeepsPartition(c, t, p, RUNNERS, ZOMBIES, pr);
    SchedKeepsPartition(c, Move(t, p, RUNNERS, ZOMBIES, pr), cpu, p, used);
  }

  lemma ExitKeeps(c: Config, t: Table, cpu: nat, p: nat, used: int)
    requires Inv(c, t) && Runs(c, t, cpu, p) && t.proc[p].making == None && p != INIT
    ensures var r := ProcTable.Exit(c, t, cpu, p, used);
      && r.Ok? && Inv(c, r.t)
      && r.t.proc[p].state == ZOMBIE && forall q :: 0 <= q < c.nproc ==> r.t.proc[q].parent != Some(p)
  {
    assert Related(t.proc, t.nextpid, p, p);
    ExitOk(c, t, cpu, p, used);
    var r := ProcTable.Exit(c, t, cpu, p, used).t;
    var zombies := HasZombieChild(c, t, p);
    if !zombies {
      forall q | 0 <= q < c.nproc && t.proc[q].state == ZOMBIE ensures t.proc[q].parent != Some(p) {
        OnOwnList(c, t, q);
      }
    }
    LeaveCpu(c, t, r, cpu, p);
    ExitFamily(t.proc, r.proc, t.nextpid, p, zombies);
  }

  // ---------- All steps, all runs ----------

  /** The one section that is left out: `setpriority` on a running process. */
  ghost predicate Excluded(c: Config, t: Table, step: Step)
    requires Sized(c, t)
  {
    step.SetPriority? && MovesRunning(c, t, step.pid, step.priority)
  }

  /** Every section completes and keeps the invariant. */
  lemma StepKeepsInv(c: Config, t: Table, step: Step)
    requires Inv(c, t) && Enabled(c, t, step) && !Excluded(c, t, step)
    ensures Apply(c, t, step).Ok? && Inv(c, Apply(c, t, step).t)
  {
    match step {
      case AllocProc(k) => AllocProcKeeps(c, t, k, t.cpus[k].value);
      case AbortFork(k) => AbortForkKeeps(c, t, k, t.cpus[k].value, Current(c, t, k).making.value);
      case SetParent(k) => SetParentKeeps(c, t, k, t.cpus[k].value, Current(c, t, k).making.value);
      case FinishFork(k) => FinishForkKeeps(c, t, k, t.cpus[k].value, Current(c, t, k).making.value);
      case Exit(k, used) => ExitKeeps(c, t, k, t.cpus[k].value, used);
      case Wait(k, used) => WaitKeeps(c, t, k, t.cpus[k].value, used);
      case Sleep(k, ch, used) => SleepOnOtherKeeps(c, t, k, t.cpus[k].value, ch, used);
      case Yield(k, used) => YieldKeeps(c, t, k, t.cpus[k].value, used);
      case Wakeup(ch) => WakeupKeeps(c, t, ch);
      case Pick(k) => PickKeeps(c, t, k);
      case Promote => PromoteKeeps(c, t);
      case Kill(pid) => KillKeeps(c, t, pid);
      case SetPriority(pid, prio) => SetPriorityKeeps(c, t, pid, prio);
    }
  }

  /** After `userinit`: the first process is ready, all other slots are free in order. */
  ghost predicate Initial(c: Config, t: Table) {
    && Shape(c, t) && Partition(c, t) && t.nextpid == 2
    && (forall k :: 0 <= k < c.ncpu ==> t.cpus[k] == None)
    && t.proc[INIT].state == RUNNABLE && t.proc[INIT].pid == 1
    && t.proc[INIT].priority == 0 && t.proc[INIT].budget == c.budget && !t.proc[INIT].killed
    && (forall p :: 0 <= p < c.nproc ==> t.proc[p].parent == None && t.proc[p].making == None)
    && (forall p :: 0 < p < c.nproc ==> t.proc[p].state == UNUSED)
  }

  lemma InitialInv(c: Config, t: Table)
    requires Initial(c, t)
    ensures Inv(c, t)
  {
    forall p: nat, q: nat | p < c.nproc && q < c.nproc ensures Related(t.proc, t.nextpid, p, q) {
      assert t.proc[p].parent == None && t.proc[q].parent == None;
    }
  }

  /** `steps[k]` takes `run[k]` to `run[k + 1]`. */
  ghost predicate Run(c: Config, run: seq<Table>, steps: seq<Step>) {
    && |run| == |steps| + 1 && Initial(c, run[0])
    && forall k :: 0 <= k < |steps| ==> StepTo(c, run[k], steps[k], run[k + 1])
  }

  ghost predicate StepTo(c: Config, t: Table, step: Step, r: Table) {
    Sized(c, t) && Enabled(c, t, step) && !Excluded(c, t, step) && Apply(c, t, step) == Ok(r)
  }

  lemma {:induction false} InvAlways(c: Config, run: seq<Table>, steps: seq<Step>, k: nat)
    requires Run(c, run, steps) && k < |run|
    ensures Inv(c, run[k])
  {
    if k == 0 {
      InitialInv(c, run[0]);
    } else {
      InvAlways(c, run, steps, k - 1);
      assert StepTo(c, run[k - 1], steps[k - 1], run[k - 1 + 1]);
      StepKeepsInv(c, run[k - 1], steps[k - 1]);
    }
  }

  /** No run reaches a panic: whatever section comes next completes. */
  lemma NoPanic(c: Config, run: seq<Table>, steps: seq<Step>, k: nat, step: Step)
    requires Run(c, run, steps) && k < |run|
    requires Sized(c, run[k]) && Enabled(c, run[k], step) && !Excluded(c, run[k], step)
    ensures Apply(c, run[k], step).Ok?
  {
    InvAlways(c, run, steps, k);
    StepKeepsInv(c, run[k], step);
  }

  /** With one priority, nothing is excluded. */
  lemma NoPanicAsConfigured(c: Config, run: seq<Table>, steps: seq<Step>, k: nat, step: Step)
    requires Run(c, run, steps) && k < |run| && c.maxprio == 0
    requires Sized(c, run[k]) && Enabled(c, run[k], step)
    ensures !Excluded(c, run[k], step) && Apply(c, run[k], step).Ok?
  {
    InvAlways(c, run, steps, k);
    if step.SetPriority? {
      OnePriorityNeverMoves(c, run[k], step.pid, step.priority);
    }
    NoPanic(c, run, steps, k, step);
  }

  /** In every reachable table each slot is on exactly one list, once, and it is the list for its
      state; ready list i holds priority i, or killed processes when i is 0. */
  lemma OnOneList(c: Config, run: seq<Table>, steps: seq<Step>, k: nat, p: nat)
    requires Run(c, run, steps) && k < |run| && p < c.nproc
    ensures Shape(c, run[k])
    ensures exists l: nat :: l < c.Lists() && p in run[k].lists[l] && Fits(run[k].proc[p], l)
    ensures forall l: nat, m: nat :: l < c.Lists() && m < c.Lists() && p in run[k].lists[l] && p in run[k].lists[m] ==> l == m
    ensures forall l: nat :: l < c.Lists() ==> NoDup(run[k].lists[l])
  {
    InvAlways(c, run, steps, k);
    OnOwnList(c, run[k], p);
    assert Fits(run[k].proc[p], Place(c, run[k], p));
    forall l: nat, m: nat | l < c.Lists() && m < c.Lists() && p in run[k].lists[l] && p in run[k].lists[m]
      ensures l == m
    {
      Found(c, run[k], l, p);
      Found(c, run[k], m, p);
    }
  }

  /** The running list is exactly the processes current on some CPU, none on two. */
  lemma RunningIsCurrent(c: Config, run: seq<Table>, steps: seq<Step>, k: nat, p: nat)
    requires Run(c, run, steps) && k < |run| && p < c.nproc
    ensures Shape(c, run[k])
    ensures p in run[k].lists[RUNNERS] <==> OnCpu(run[k], p)
    ensures forall i, j :: 0 <= i < j < c.ncpu && run[k].cpus[i].Some? ==> run[k].cpus[i] != run[k].cpus[j]
  {
    InvAlways(c, run, steps, k);
    assert PlacedAt(c, run[k], RUNNERS, p);
  }

  /** No lost wakeup: whenever the lock is free, a process asleep in `wait` has no zombie child, and
      every zombie's parent is live. */
  lemma NoLostWakeup(c: Config, run: seq<Table>, steps: seq<Step>, k: nat, p: nat, z: nat)
    requires Run(c, run, steps) && k < |run| && p < c.nproc && z < c.nproc
    ensures Sized(c, run[k])
    ensures run[k].proc[z].state == ZOMBIE ==>
      && run[k].proc[z].parent.Some? && run[k].proc[z].parent.value < c.nproc
      && Live(run[k].proc[run[k].proc[z].parent.value])
    ensures run[k].proc[z].state == ZOMBIE && run[k].proc[p].state == SLEEPING && run[k].proc[p].chan == OfProc(p)
      ==> run[k].proc[z].parent != Some(p)
  {
    InvAlways(c, run, steps, k);
    assert Related(run[k].proc, run[k].nextpid, z, p) && Related(run[k].proc, run[k].nextpid, p, z);
  }

  // ---------- The excluded section can be reached ----------

  /** The table `userinit` leaves. */
  function Boot(c: Config): Table
    requires c.Valid()
  {
    var free := Proc(UNUSED, 0, None, NoChan, false, 0, 0, None);
    var first := Proc(RUNNABLE, 1, None, NoChan, false, 0, c.budget, None);
    var others := seq(c.nproc - 1, i requires 0 <= i => (i + 1) as nat);
    var lists := seq(c.Lists(), l requires 0 <= l => if l == FREE then others else if l == READY then [INIT] else []);
    Table(seq(c.nproc, p => if p == INIT then first else free), lists, seq(c.ncpu, _ => None), 2)
  }

  lemma BootInitial(c: Config)
    requires c.Valid()
    ensures Initial(c, Boot(c))
  {
    var t := Boot(c);
    forall l: nat, p: nat | l < c.Lists() && p < c.nproc ensures PlacedAt(c, t, l, p) {
      assert p > 0 ==> t.lists[FREE][p - 1] == p;
    }
  }

  /** With two or more priorities, in every configuration with a CPU, the first process is picked, and
      then `setpriority` from 0 to 1 moves it while it runs. */
  lemma TwoPrioritiesMove(c: Config) returns (run: seq<Table>, steps: seq<Step>)
    requires c.Valid() && c.maxprio >= 1 && c.ncpu >= 1
    ensures Run(c, run, steps) && Sized(c, run[|steps|]) && MovesRunning(c, run[|steps|], 1, 1)
  {
    BootInitial(c);
    var r := FirstPicked(c);
    run, steps := [Boot(c), r], [Pick(0)];
    FirstMoves(c, r);
  }

  lemma FirstPicked(c: Config) returns (r: Table)
    requires c.Valid() && c.ncpu >= 1 && Initial(c, Boot(c))
    ensures StepTo(c, Boot(c), Pick(0), r) && Sized(c, r)
    ensures r.lists[RUNNERS] == [INIT] && r.proc[INIT].pid == 1 && r.proc[INIT].priority == 0
  {
    var t := Boot(c);
    InitialInv(c, t);
    PickKeeps(c, t, 0);
    r := ProcTable.Pick(c, t, 0).t;
    assert FirstReady(c, t, 0) == Some(0) && t.lists[READY] == [INIT] && t.lists[RUNNERS] == [];
  }

  lemma FirstMoves(c: Config, r: Table)
    requires c.maxprio >= 1 && Sized(c, r) && r.lists[RUNNERS] == [INIT] && r.proc[INIT].pid == 1 && r.proc[INIT].priority == 0
    ensures MovesRunning(c, r, 1, 1)
  {
    var scan := r.lists[RUNNERS] + AllReady(c, r, 0) + r.lists[SLEEPERS];
    assert scan[0] == INIT;
  }
}
