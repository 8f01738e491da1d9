/** What every section does to the table, field by field and list by list, told without the searches and
    the list operations that do it. */
module ProcFields {
  import opened Common
  import opened ProcTable
  import opened ProcMachine

  /** Slot `p` is changed to `pr` and is the last one on list `to`; on all other lists it is missing. */
  ghost predicate Put(t: Table, r: Table, p: nat, pr: Proc, to: nat) {
    && p < |t.proc| && r.proc == t.proc[p := pr] && r.nextpid == t.nextpid
    && |r.lists| == |t.lists| && forall l: nat :: l < |t.lists| ==> PutAt(t, r, p, to, l)
  }

  ghost predicate PutAt(t: Table, r: Table, p: nat, to: nat, l: nat)
    requires l < |t.lists| && l < |r.lists|
  {
    r.lists[l] == Remove(t.lists[l], p) + if l == to then [p] else []
  }

  /** Only slot `p` changes, and no list. */
  ghost predicate Changed(t: Table, r: Table, p: nat, pr: Proc) {
    p < |t.proc| && r == t.(proc := t.proc[p := pr])
  }

  /** A process that gives up the CPU pays for its ticks; when the budget is used up it gets a new one and
      is demoted if it can be. */
  function Charged(c: Config, pr: Proc, used: int): Proc {
    if pr.budget - used >= 1 then pr.(budget := pr.budget - used)
    else pr.(budget := c.budget, priority := if pr.priority < c.maxprio then pr.priority + 1 else pr.priority)
  }

  lemma MovePuts(c: Config, t: Table, p: nat, from: nat, to: nat, pr: Proc)
    requires Shape(c, t) && Partition(c, t) && p < c.nproc && from == Place(c, t, p) && to < c.Lists()
    ensures Put(t, Move(t, p, from, to, pr), p, pr, to)
  {
    var r := Move(t, p, from, to, pr);
    forall l: nat | l < c.Lists() ensures PutAt(t, r, p, to, l) {
      assert PlacedAt(c, t, l, p);
      if l != from {
        RemoveAbsent(t.lists[l], p);
      }
    }
  }

  /** Put twice is put once, at the last place. */
  lemma PutAgain(t: Table, m: Table, r: Table, p: nat, a: Proc, b: Proc, x: nat, y: nat)
    requires Put(t, m, p, a, x) && Put(m, r, p, b, y) && forall l :: 0 <= l < |t.lists| ==> NoDup(t.lists[l])
    ensures Put(t, r, p, b, y)
  {
    forall l: nat | l < |t.lists| ensures PutAt(t, r, p, y, l) {
      assert PutAt(t, m, p, x, l) && PutAt(m, r, p, y, l);
      RemoveTwice(t.lists[l], p, l == x);
    }
  }

  lemma RemoveTwice(s: seq<nat>, p: nat, last: bool)
    requires NoDup(s)
    ensures Remove(Remove(s, p) + if last then [p] else [], p) == Remove(s, p)
  {
    var a := Remove(s, p);
    RemoveMembers(s, p);
    if last {
      RemoveLast(a, p);
    } else {
      assert a + [] == a;
      RemoveAbsent(a, p);
    }
  }

  lemma {:induction false} RemoveLast(s: seq<nat>, p: nat)
    requires p !in s
    ensures Remove(s + [p], p) == s
  {
    if s == [] {
    } else {
      assert (s + [p])[1..] == s[1..] + [p];
      RemoveLast(s[1..], p);
    }
  }

  // ---------- Giving up the CPU ----------

  lemma ChargePuts(c: Config, t: Table, p: nat, used: int)
    requires Shape(c, t) && Partition(c, t) && p < c.nproc
    requires t.proc[p].state == RUNNABLE ==> p in t.lists[READY + t.proc[p].priority]
    ensures var r, pr := Charge(c, t, p, used), Charged(c, t.proc[p], used);
      && r.Ok? && r.t.cpus == t.cpus && pr.priority <= c.maxprio
      && if pr.priority != t.proc[p].priority && pr.state == RUNNABLE then Put(t, r.t, p, pr, READY + pr.priority)
         else Changed(t, r.t, p, pr)
  {
    var pr := Charged(c, t.proc[p], used);
    if pr.priority != t.proc[p].priority && pr.state == RUNNABLE {
      Found(c, t, READY + t.proc[p].priority, p);
      MovePuts(c, t, p, READY + t.proc[p].priority, READY + pr.priority, pr);
    }
  }

  lemma ReadyCharged(c: Config, t: Table, m: Table, r: Table, p: nat, a: Proc, pr: Proc)
    requires Shape(c, t) && Put(t, m, p, a, READY + a.priority)
    requires if pr.priority != a.priority then Put(m, r, p, pr, READY + pr.priority)
      else r.proc == m.proc[p := pr] && r.lists == m.lists && r.nextpid == m.nextpid
    ensures Put(t, r, p, pr, READY + pr.priority)
  {
    if pr.priority != a.priority {
      PutAgain(t, m, r, p, a, pr, READY + a.priority, READY + pr.priority);
    } else {
      PutChanged(t, m, r, p, a, pr, READY + a.priority);
    }
  }

  lemma YieldFields(c: Config, t: Table, cpu: nat, p: nat, used: int)
    requires Inv(c, t) && Runs(c, t, cpu, p)
    ensures var r, pr := ProcTable.Yield(c, t, cpu, p, used), Charged(c, t.proc[p].(state := RUNNABLE), used);
      r.Ok? && Put(t, r.t, p, pr, READY + pr.priority) && r.t.cpus == t.cpus[cpu := None]
  {
    var a := t.proc[p].(state := RUNNABLE);
    OnOwnList(c, t, p);
    MoveKeepsPartition(c, t, p, RUNNERS, READY + a.priority, a);
    MovePuts(c, t, p, RUNNERS, READY + a.priority, a);
    var m := Move(t, p, RUNNERS, READY + a.priority, a);
    SchedPuts(c, m, cpu, p, used);
    ReadyCharged(c, t, m, ProcTable.Yield(c, t, cpu, p, used).t, p, a, Charged(c, a, used));
  }

  lemma SchedPuts(c: Config, m: Table, cpu: nat, p: nat, used: int)
    requires Shape(c, m) && Partition(c, m) && p < c.nproc && cpu < c.ncpu && m.proc[p].state == RUNNABLE
    requires p in m.lists[READY + m.proc[p].priority]
    ensures var r, pr := Sched(c, m, cpu, p, used), Charged(c, m.proc[p], used);
      && r.Ok? && r.t.cpus == m.cpus[cpu := None]
      && if pr.priority != m.proc[p].priority then Put(m, r.t, p, pr, READY + pr.priority)
         else r.t.proc == m.proc[p := pr] && r.t.lists == m.lists && r.t.nextpid == m.nextpid
  {
    var off := m.(cpus := m.cpus[cpu := None]);
    RelabelKeepsPartition(c, m, off);
    ChargePuts(c, off, p, used);
    var r, pr := Sched(c, m, cpu, p, used).t, Charged(c, m.proc[p], used);
    if pr.priority != m.proc[p].priority {
      PutLater(m, off, r, p, pr, READY + pr.priority);
    }
  }

  /** CPUs do not matter. */
  lemma PutLater(m: Table, off: Table, r: Table, p: nat, pr: Proc, to: nat)
    requires Put(off, r, p, pr, to) && off == m.(cpus := off.cpus)
    ensures Put(m, r, p, pr, to)
  {
    forall l: nat | l < |m.lists| ensures PutAt(m, r, p, to, l) {
      assert PutAt(off, r, p, to, l);
    }
  }

  lemma PutChanged(t: Table, m: Table, r: Table, p: nat, a: Proc, pr: Proc, to: nat)
    requires Put(t, m, p, a, to) && r.proc == m.proc[p := pr] && r.lists == m.lists && r.nextpid == m.nextpid
    ensures Put(t, r, p, pr, to)
  {
    forall l: nat | l < |t.lists| ensures PutAt(t, r, p, to, l) {
      assert PutAt(t, m, p, to, l);
    }
  }

  /** To a list of its own, and charged there. */
  lemma LeavePuts(c: Config, t: Table, cpu: nat, p: nat, a: Proc, to: nat, used: int)
    requires Shape(c, t) && Partition(c, t) && Runs(c, t, cpu, p) && t.proc[p].state == RUNNING && to < READY
    requires a.state != RUNNABLE && a.state != RUNNING && a.priority <= c.maxprio && Fits(a, to)
    ensures var m := Relist(c, t, p, RUNNERS, to, RUNNING, a);
      && m.Ok?
      && var r := Sched(c, m.t, cpu, p, used);
      r.Ok? && Put(t, r.t, p, Charged(c, a, used), to) && r.t.cpus == t.cpus[cpu := None]
  {
    OnOwnList(c, t, p);
    MoveKeepsPartition(c, t, p, RUNNERS, to, a);
    MovePuts(c, t, p, RUNNERS, to, a);
    var m := Move(t, p, RUNNERS, to, a);
    var off := m.(cpus := m.cpus[cpu := None]);
    RelabelKeepsPartition(c, m, off);
    ChargePuts(c, off, p, used);
    PutChanged(t, m, Sched(c, m, cpu, p, used).t, p, a, Charged(c, a, used), to);
  }

  lemma SleepFields(c: Config, t: Table, cpu: nat, p: nat, ch: Chan, used: int)
    requires Inv(c, t) && Runs(c, t, cpu, p)
    ensures var r, pr := ProcTable.Sleep(c, t, cpu, p, ch, used), Charged(c, t.proc[p].(state := SLEEPING, chan := ch), used);
      r.Ok? && Put(t, r.t, p, pr, SLEEPERS) && r.t.cpus == t.cpus[cpu := None]
  {
    LeavePuts(c, t, cpu, p, t.proc[p].(state := SLEEPING, chan := ch), SLEEPERS, used);
  }

  // ---------- Scheduling ----------

  /** Process `p` is the first one on ready list `j`, and all better ready lists are empty. */
  ghost predicate Best(c: Config, t: Table, p: nat, j: nat)
    requires Sized(c, t)
  {
    && j <= c.maxprio && t.lists[READY + j] != [] && t.lists[READY + j][0] == p
    && forall i: nat :: i < j ==> NoneReady(t, i)
  }

  /** Ready list `i` is empty. */
  predicate NoneReady(t: Table, i: nat) {
    READY + i < |t.lists| && t.lists[READY + i] == []
  }

  lemma {:induction false} FirstReadyIs(c: Config, t: Table, j: nat)
    requires Sized(c, t) && j <= c.maxprio + 1
    ensures match FirstReady(c, t, j)
      case Some(k) => forall i: nat :: j <= i < k ==> NoneReady(t, i)
      case None => forall i: nat :: j <= i <= c.maxprio ==> NoneReady(t, i)
    decreases c.maxprio + 1 - j
  {
    if j <= c.maxprio && t.lists[READY + j] == [] {
      FirstReadyIs(c, t, j + 1);
    }
  }

  /** The scheduler takes the first process of the best ready list, and nothing only if none is ready. */
  lemma PickFields(c: Config, t: Table, cpu: nat) returns (p: nat, j: nat)
    requires Inv(c, t) && cpu < c.ncpu && t.cpus[cpu] == None
    ensures var r := ProcTable.Pick(c, t, cpu);
      && r.Ok?
      && if forall q: nat :: q < c.nproc ==> t.proc[q].state != RUNNABLE then r.t == t
         else (Best(c, t, p, j) && p < c.nproc
              && Put(t, r.t, p, t.proc[p].(state := RUNNING, chan := NoChan), RUNNERS) && r.t.cpus == t.cpus[cpu := Some(p)])
  {
    FirstReadyIs(c, t, 0);
    match FirstReady(c, t, 0) {
      case None =>
        p, j := 0, 0;
        forall q: nat | q < c.nproc ensures t.proc[q].state != RUNNABLE {
          OnOwnList(c, t, q);
          assert NoneReady(t, 0) && NoneReady(t, t.proc[q].priority);
        }
      case Some(k) =>
        p, j := t.lists[READY + k][0], k;
        Found(c, t, READY + k, p);
        MovePuts(c, t, p, READY + k, RUNNERS, t.proc[p].(state := RUNNING, chan := NoChan));
        var m := Move(t, p, READY + k, RUNNERS, t.proc[p].(state := RUNNING, chan := NoChan));
        var r := ProcTable.Pick(c, t, cpu).t;
        assert r == m.(cpus := m.cpus[cpu := Some(p)]);
        PutChanged(t, m, r, p, m.proc[p], m.proc[p], RUNNERS);
    }
  }

  /** A promotion takes one off the priority of every process that is running, asleep or on a ready list
      other than the first, and leaves everything else. */
  lemma PromoteFields(c: Config, t: Table, q: nat)
    requires Inv(c, t) && q < c.nproc
    ensures var r, pr := ProcTable.Promote(c, t), t.proc[q];
      && r.Ok? && q < |r.t.proc| && r.t.cpus == t.cpus && r.t.nextpid == t.nextpid
      && (!Live(pr) || q in t.lists[READY] ==> r.t.proc[q] == pr)
      && (Live(pr) && q !in t.lists[READY] ==>
            r.t.proc[q] == pr.(priority := if pr.priority > 0 then pr.priority - 1 else 0))
  {
    PromoteNoPanic(c, t);
    assert PlacedAt(c, t, READY, q);
  }

  // ---------- fork ----------

  /** `allocproc` takes the first free slot, with the next pid, priority 0 and a full budget; it takes
      none only if there is none. */
  lemma AllocProcFields(c: Config, t: Table, cpu: nat, p: nat) returns (e: nat)
    requires Inv(c, t) && Runs(c, t, cpu, p) && t.proc[p].making == None
    ensures var r := ProcTable.AllocProc(c, t, cpu, p);
      && r.Ok?
      && if forall q: nat :: q < c.nproc ==> t.proc[q].state != UNUSED then r.t == t
         else && e < c.nproc && t.proc[e].state == UNUSED && t.lists[FREE] != [] && e == t.lists[FREE][0]
              && r.t.proc == t.proc[e := t.proc[e].(state := EMBRYO, budget := c.budget, priority := 0, pid := t.nextpid)]
                                   [p := t.proc[p].(making := Some(e))]
              && r.t.nextpid == t.nextpid + 1 && r.t.cpus == t.cpus
              && |r.t.lists| == |t.lists| && forall l: nat :: l < |t.lists| ==> PutAt(t, r.t, e, EMBRYOS, l)
  {
    if t.lists[FREE] == [] {
      e := 0;
      forall q: nat | q < c.nproc ensures t.proc[q].state != UNUSED {
        OnOwnList(c, t, q);
      }
    } else {
      e := t.lists[FREE][0];
      Found(c, t, FREE, e);
      var pr := t.proc[e].(state := EMBRYO, budget := c.budget, priority := 0, pid := t.nextpid);
      MovePuts(c, t, e, FREE, EMBRYOS, pr);
      var m, r := Move(t, e, FREE, EMBRYOS, pr), ProcTable.AllocProc(c, t, cpu, p).t;
      forall l: nat | l < |t.lists| ensures PutAt(t, r, e, EMBRYOS, l) {
        assert PutAt(t, m, e, EMBRYOS, l);
      }
    }
  }

  /** Embryo `e` of `p` becomes `pr`, on list `to`. */
  ghost predicate Leaves(t: Table, r: Table, p: nat, e: nat, pr: Proc, to: nat) {
    && p < |t.proc| && e < |t.proc| && r.proc == t.proc[e := pr][p := t.proc[p].(making := None)]
    && r.cpus == t.cpus && r.nextpid == t.nextpid
    && |r.lists| == |t.lists| && forall l: nat :: l < |t.lists| ==> PutAt(t, r, e, to, l)
  }

  lemma EmbryoLeaves(c: Config, t: Table, p: nat, e: nat, pr: Proc, to: nat)
    requires Inv(c, t) && p < c.nproc && e < c.nproc && t.proc[p].state == RUNNING && t.proc[e].state == EMBRYO
    requires pr.priority <= c.maxprio && to < c.Lists()
    ensures var m := Relist(c, t, e, EMBRYOS, to, EMBRYO, pr);
      m.Ok? && Leaves(t, m.t.(proc := m.t.proc[p := m.t.proc[p].(making := None)]), p, e, pr, to)
  {
    OnOwnList(c, t, e);
    MovePuts(c, t, e, EMBRYOS, to, pr);
    var m := Move(t, e, EMBRYOS, to, pr);
    var r := m.(proc := m.proc[p := m.proc[p].(making := None)]);
    forall l: nat | l < |t.lists| ensures PutAt(t, r, e, to, l) {
      assert PutAt(t, m, e, to, l);
    }
  }

  lemma AbortForkFields(c: Config, t: Table, cpu: nat, p: nat, e: nat)
    requires Inv(c, t) && Runs(c, t, cpu, p) && t.proc[p].making == Some(e) && e < c.nproc
    ensures var r := ProcTable.AbortFork(c, t, p, e); r.Ok? && Leaves(t, r.t, p, e, t.proc[e].(state := UNUSED), FREE)
  {
    assert Related(t.proc, t.nextpid, p, e);
    EmbryoLeaves(c, t, p, e, t.proc[e].(state := UNUSED), FREE);
  }

  /** The child is ready, with the priority of its parent, behind all others of that priority. */
  lemma FinishForkFields(c: Config, t: Table, cpu: nat, p: nat, e: nat)
    requires Inv(c, t) && Runs(c, t, cpu, p) && t.proc[p].making == Some(e) && e < c.nproc
    ensures var r := ProcTable.FinishFork(c, t, p, e);
      && r.Ok?
      && Leaves(t, r.t, p, e, t.proc[e].(state := RUNNABLE, priority := t.proc[p].priority), READY + t.proc[p].priority)
  {
    assert Related(t.proc, t.nextpid, p, e);
    var prio := t.proc[p].priority;
    EmbryoLeaves(c, t, p, e, t.proc[e].(state := RUNNABLE, priority := prio), READY + prio);
  }

  // ---------- kill and setpriority ----------

  /** Slot `p` is in use and has this pid. */
  predicate HasPid(t: Table, p: nat, pid: nat) {
    p < |t.proc| && t.proc[p].state != UNUSED && t.proc[p].pid == pid
  }

  lemma PidUnique(c: Config, t: Table, p: nat, q: nat, pid: nat)
    requires Inv(c, t) && HasPid(t, p, pid) && HasPid(t, q, pid)
    ensures p == q
  {
    assert Related(t.proc, t.nextpid, p, q);
  }

  lemma {:induction false} OnReadyList(c: Config, t: Table, i: nat, j: nat, q: nat)
    requires Sized(c, t) && i <= j <= c.maxprio && q in t.lists[READY + j]
    ensures q in AllReady(c, t, i)
    decreases j - i
  {
    if i < j {
      OnReadyList(c, t, i + 1, j, q);
    }
  }

  lemma ReadyIsListed(c: Config, t: Table, q: nat)
    requires Inv(c, t) && q < c.nproc
    ensures q in AllReady(c, t, 0) <==> t.proc[q].state == RUNNABLE
  {
    if q in AllReady(c, t, 0) {
      AllReadyRunnable(c, t, 0, q);
    }
    if t.proc[q].state == RUNNABLE {
      OnOwnList(c, t, q);
      OnReadyList(c, t, 0, Place(c, t, q) - READY, q);
    }
  }

  /** The lists that `kill` searches hold every slot in use. */
  lemma ScanFinds(c: Config, t: Table, q: nat)
    requires Inv(c, t) && q < c.nproc
    ensures q in t.lists[RUNNERS] + t.lists[SLEEPERS] + AllReady(c, t, 0) + t.lists[ZOMBIES] + t.lists[EMBRYOS]
      <==> t.proc[q].state != UNUSED
    ensures q in t.lists[RUNNERS] + AllReady(c, t, 0) + t.lists[SLEEPERS] <==> Live(t.proc[q])
  {
    ReadyIsListed(c, t, q);
    assert PlacedAt(c, t, RUNNERS, q) && PlacedAt(c, t, SLEEPERS, q) && PlacedAt(c, t, ZOMBIES, q) && PlacedAt(c, t, EMBRYOS, q);
  }

  lemma {:induction false} FindPidIs(t: Table, ps: seq<nat>, pid: nat, q: nat)
    requires (forall i :: 0 <= i < |ps| ==> ps[i] < |t.proc|) && q in ps && t.proc[q].pid == pid
    ensures FindPid(t, ps, pid).Some?
  {
    var i :| 0 <= i < |ps| && ps[i] == q;
  }

  /** The searches of `kill` and `setpriority` succeed just when a process in use, or a live one, has the pid. */
  lemma SearchFinds(c: Config, t: Table, pid: nat)
    requires Inv(c, t)
    ensures FindPid(t, t.lists[RUNNERS] + t.lists[SLEEPERS] + AllReady(c, t, 0) + t.lists[ZOMBIES] + t.lists[EMBRYOS], pid).Some?
      <==> exists p: nat :: HasPid(t, p, pid)
    ensures FindPid(t, t.lists[RUNNERS] + AllReady(c, t, 0) + t.lists[SLEEPERS], pid).Some?
      <==> exists p: nat :: HasPid(t, p, pid) && Live(t.proc[p])
  {
    var all := t.lists[RUNNERS] + t.lists[SLEEPERS] + AllReady(c, t, 0) + t.lists[ZOMBIES] + t.lists[EMBRYOS];
    var live := t.lists[RUNNERS] + AllReady(c, t, 0) + t.lists[SLEEPERS];
    forall p: nat | HasPid(t, p, pid)
      ensures FindPid(t, all, pid).Some? && (Live(t.proc[p]) ==> FindPid(t, live, pid).Some?)
    {
      ScanFinds(c, t, p);
      FindPidIs(t, all, pid, p);
      if Live(t.proc[p]) {
        FindPidIs(t, live, pid, p);
      }
    }
    if FindPid(t, all, pid).Some? {
      ScanFinds(c, t, FindPid(t, all, pid).value);
      assert HasPid(t, FindPid(t, all, pid).value, pid);
    }
    if FindPid(t, live, pid).Some? {
      ScanFinds(c, t, FindPid(t, live, pid).value);
      assert HasPid(t, FindPid(t, live, pid).value, pid);
    }
  }

  /** What a `kill` of `pid` has done, if that is the pid of slot `p`. */
  ghost predicate Kills(t: Table, r: Table, p: nat, pid: nat) {
    HasPid(t, p, pid) ==>
      if t.proc[p].state == SLEEPING then Put(t, r, p, t.proc[p].(killed := true, state := RUNNABLE), READY)
      else Changed(t, r, p, t.proc[p].(killed := true))
  }

  /** `kill` marks the process with the pid, whatever its state, and wakes it if it sleeps, to the end of
      ready list 0; nothing else changes. Without such a process nothing changes at all. */
  lemma KillFields(c: Config, t: Table, pid: nat, p: nat)
    requires Inv(c, t)
    ensures ProcTable.Kill(c, t, pid).Ok?
    ensures var r := ProcTable.Kill(c, t, pid).t;
      && r.cpus == t.cpus
      && Kills(t, r, p, pid)
      && ((forall q: nat :: !HasPid(t, q, pid)) ==> r == t)
  {
    var scan := t.lists[RUNNERS] + t.lists[SLEEPERS] + AllReady(c, t, 0) + t.lists[ZOMBIES] + t.lists[EMBRYOS];
    match FindPid(t, scan, pid) {
      case None =>
        if HasPid(t, p, pid) {
          ScanFinds(c, t, p);
        }
      case Some(q) =>
        ScanFinds(c, t, q);
        assert HasPid(t, q, pid);
        if HasPid(t, p, pid) {
          PidUnique(c, t, p, q, pid);
        }
        assert PlacedAt(c, t, SLEEPERS, q);
        if q in t.lists[SLEEPERS] {
          MovePuts(c, t, q, SLEEPERS, READY, t.proc[q].(killed := true, state := RUNNABLE));
        }
    }
  }

  /** What a `setpriority` has done, if `pid` is that of slot `p`. */
  ghost predicate SetsPriority(c: Config, t: Table, r: Table, p: nat, pid: nat, priority: int) {
    0 <= priority <= c.maxprio && HasPid(t, p, pid) && Live(t.proc[p]) ==>
      var pr := t.proc[p].(priority := priority, budget := c.budget);
      if t.proc[p].priority == priority || t.proc[p].state == SLEEPING then Changed(t, r, p, pr)
      else Put(t, r, p, pr, READY + priority)
  }

  /** `setpriority` gives the live process with the pid the priority and a full budget. If the priority is
      new, a ready or running process goes to the end of that ready list; a sleeper stays where it is. A
      priority out of range, or no such process: nothing changes. */
  lemma SetPriorityFields(c: Config, t: Table, pid: nat, priority: int, p: nat)
    requires Inv(c, t)
    ensures ProcTable.SetPriority(c, t, pid, priority).Ok?
    ensures var r := ProcTable.SetPriority(c, t, pid, priority).t;
      && r.cpus == t.cpus
      && (!(0 <= priority <= c.maxprio) ==> r == t)
      && ((forall q: nat :: HasPid(t, q, pid) ==> !Live(t.proc[q])) ==> r == t)
      && SetsPriority(c, t, r, p, pid, priority)
  {
    if 0 <= priority <= c.maxprio {
      match FindPid(t, t.lists[RUNNERS] + AllReady(c, t, 0) + t.lists[SLEEPERS], pid) {
        case None =>
          if HasPid(t, p, pid) {
            ScanFinds(c, t, p);
          }
        case Some(q) =>
          ScanFinds(c, t, q);
          assert HasPid(t, q, pid) && Live(t.proc[q]);
          if HasPid(t, p, pid) {
            PidUnique(c, t, p, q, pid);
          }
          assert PlacedAt(c, t, SLEEPERS, q) && PlacedAt(c, t, RUNNERS, q);
          OnOwnList(c, t, q);
          MovePuts(c, t, q, Place(c, t, q), READY + priority, t.proc[q].(priority := priority, budget := c.budget));
      }
    }
  }

  // ---------- wait and exit ----------

  /** A zombie child of `p`. */
  predicate ZombieOf(t: Table, z: nat, p: nat) {
    z < |t.proc| && t.proc[z].state == ZOMBIE && t.proc[z].parent == Some(p)
  }

  /** `wait` clears a zombie child and puts it on the free list; or returns with nothing done, if there
      are no children or the caller has been killed; or sleeps on its own address. */
  lemma WaitFields(c: Config, t: Table, cpu: nat, p: nat, used: int) returns (z: nat)
    requires Inv(c, t) && Runs(c, t, cpu, p) && t.proc[p].making == None
    ensures var r := ProcTable.Wait(c, t, cpu, p, used);
      && r.Ok?
      && if exists q: nat :: ZombieOf(t, q, p)
         then ZombieOf(t, z, p) && r.t.cpus == t.cpus
           && Put(t, r.t, z, t.proc[z].(state := UNUSED, pid := 0, parent := None, killed := false), FREE)
         else if t.proc[p].killed || forall q: nat :: q < c.nproc ==> t.proc[q].parent != Some(p) then r.t == t
         else (Put(t, r.t, p, Charged(c, t.proc[p].(state := SLEEPING, chan := OfProc(p)), used), SLEEPERS)
               && r.t.cpus == t.cpus[cpu := None])
  {
    WaitReapsOwn(c, t, cpu, p);
    match FindChild(t, t.lists[ZOMBIES], p) {
      case Some(x) =>
        z := x;
        assert ZombieOf(t, z, p);
        OnOwnList(c, t, z);
        MovePuts(c, t, z, ZOMBIES, FREE, t.proc[z].(state := UNUSED, pid := 0, parent := None, killed := false));
      case None =>
        z := 0;
        WaitCountsKids(c, t, cpu, p);
        SleepFields(c, t, cpu, p, OfProc(p), used);
    }
  }

  /** `exit` leaves the process a zombie, charged; its parent is woken, its children are handed to init,
      and init is woken if one of them is a zombie. */
  lemma ExitFields(c: Config, t: Table, cpu: nat, p: nat, used: int, q: nat)
    requires Inv(c, t) && Runs(c, t, cpu, p) && t.proc[p].making == None && p != INIT && q < c.nproc
    ensures t.proc[p].parent.Some?
    ensures var r, pr := ProcTable.Exit(c, t, cpu, p, used), t.proc[q];
      && r.Ok? && q < |r.t.proc| && r.t.cpus == t.cpus[cpu := None] && r.t.nextpid == t.nextpid
      && (q == p ==> r.t.proc[q] == Charged(c, pr.(state := ZOMBIE), used))
      && (q != p ==> r.t.proc[q] == pr.(
            parent := if pr.parent == Some(p) then Some(INIT) else pr.parent,
            state := if pr.state == SLEEPING
                && (pr.chan == OfProc(t.proc[p].parent.value)
                    || (pr.chan == OfProc(INIT) && exists z: nat :: ZombieOf(t, z, p)))
              then RUNNABLE else pr.state))
  {
    assert Related(t.proc, t.nextpid, p, p);
    ExitOk(c, t, cpu, p, used);
    ZombieChildIs(c, t, p);
    if q == p {
      ExitCharges(c, t, cpu, p, used);
    }
  }

  lemma ZombieChildIs(c: Config, t: Table, p: nat)
    requires Inv(c, t)
    ensures HasZombieChild(c, t, p) <==> exists z: nat :: ZombieOf(t, z, p)
  {
    if HasZombieChild(c, t, p) {
      var i :| 0 <= i < |t.lists[ZOMBIES]| && t.proc[t.lists[ZOMBIES][i]].parent == Some(p);
      Found(c, t, ZOMBIES, t.lists[ZOMBIES][i]);
      assert ZombieOf(t, t.lists[ZOMBIES][i], p);
    }
    if z: nat :| ZombieOf(t, z, p) {
      OnOwnList(c, t, z);
    }
  }

  lemma ExitCharges(c: Config, t: Table, cpu: nat, p: nat, used: int)
    requires Inv(c, t) && Runs(c, t, cpu, p) && t.proc[p].making == None && p != INIT && t.proc[p].parent.Some?
    ensures var r := ProcTable.Exit(c, t, cpu, p, used);
      r.Ok? && p < |r.t.proc| && r.t.proc[p] == Charged(c, t.proc[p].(state := ZOMBIE), used)
  {
    assert Related(t.proc, t.nextpid, p, p);
    var ch, zombies := OfProc(t.proc[p].parent.value), HasZombieChild(c, t, p);
    WakeupOk(c, t, ch);
    var woken := ProcTable.Wakeup(c, t, ch).t;
    var orphaned := Reparent(woken, p);
    RelabelKeepsPartition(c, woken, orphaned);
    WakeupOk(c, orphaned, OfProc(INIT));
    var again := if zombies then ProcTable.Wakeup(c, orphaned, OfProc(INIT)).t else orphaned;
    LeavePuts(c, again, cpu, p, again.proc[p].(state := ZOMBIE), ZOMBIES, used);
  }

  // ---------- Wakeups ----------

  /** The sleepers on `ch` of priority `i` among `ps`, in order. */
  function Sleepers(t: Table, ch: Chan, i: nat, ps: seq<nat>): seq<nat>
    requires forall k :: 0 <= k < |ps| ==> ps[k] < |t.proc|
  {
    if ps == [] then []
    else (if t.proc[ps[0]].chan == ch && t.proc[ps[0]].priority == i then [ps[0]] else []) + Sleepers(t, ch, i, ps[1..])
  }

  lemma {:induction false} SleepersSame(t: Table, r: Table, ch: Chan, i: nat, ps: seq<nat>)
    requires |t.proc| == |r.proc| && forall k :: 0 <= k < |ps| ==> ps[k] < |t.proc| && r.proc[ps[k]] == t.proc[ps[k]]
    ensures Sleepers(r, ch, i, ps) == Sleepers(t, ch, i, ps)
  {
    if ps != [] {
      SleepersSame(t, r, ch, i, ps[1..]);
    }
  }

  lemma JoinOne(s: seq<nat>, p: nat, joins: bool, more: seq<nat>)
    ensures (if joins then s + [p] else s) + more == s + ((if joins then [p] else []) + more)
  {
    assert [] + more == more;
    assert (s + [p]) + more == s + ([p] + more);
  }

  /** One sleeper on `ch` is woken first. */
  lemma WakeFirst(c: Config, t: Table, ch: Chan, ps: seq<nat>, i: nat) returns (m: Table)
    requires Sized(c, t) && NoDup(ps) && ps != [] && i <= c.maxprio && forall k :: 0 <= k < |ps| ==> ps[k] < c.nproc
    requires Wake(c, t, ch, ps).Ok? && t.proc[ps[0]].chan == ch
    ensures Sized(c, m) && Wake(c, t, ch, ps) == Wake(c, m, ch, ps[1..]) && |m.lists| == |t.lists|
    ensures m.lists[READY + i] == if t.proc[ps[0]].priority == i then t.lists[READY + i] + [ps[0]] else t.lists[READY + i]
    ensures forall k :: 0 <= k < |ps[1..]| ==> m.proc[ps[1..][k]] == t.proc[ps[1..][k]]
  {
    var p, pr := ps[0], t.proc[ps[0]];
    m := Move(t, p, SLEEPERS, READY + pr.priority, pr.(state := RUNNABLE));
    assert Relist(c, t, p, SLEEPERS, READY + pr.priority, SLEEPING, pr.(state := RUNNABLE)) == Ok(m);
  }

  lemma {:induction false} WakeOrder(c: Config, t: Table, ch: Chan, ps: seq<nat>, i: nat)
    requires Sized(c, t) && NoDup(ps) && i <= c.maxprio && forall k :: 0 <= k < |ps| ==> ps[k] < c.nproc
    requires Wake(c, t, ch, ps).Ok?
    ensures Wake(c, t, ch, ps).t.lists[READY + i] == t.lists[READY + i] + Sleepers(t, ch, i, ps)
    decreases |ps|
  {
    if ps != [] {
      var more, pr := Sleepers(t, ch, i, ps[1..]), t.proc[ps[0]];
      JoinOne(t.lists[READY + i], ps[0], pr.chan == ch && pr.priority == i, more);
      if pr.chan == ch {
        var m := WakeFirst(c, t, ch, ps, i);
        WakeOrder(c, m, ch, ps[1..], i);
        SleepersSame(t, m, ch, i, ps[1..]);
      } else {
        WakeOrder(c, t, ch, ps[1..], i);
      }
    }
  }

  /** The woken processes join the ready lists of their priorities at the end, in the order in which they
      were on the sleep list. */
  lemma WakeupOrder(c: Config, t: Table, ch: Chan, i: nat)
    requires Inv(c, t) && i <= c.maxprio
    ensures var r := ProcTable.Wakeup(c, t, ch);
      r.Ok? && |r.t.lists| == c.Lists() && r.t.lists[READY + i] == t.lists[READY + i] + Sleepers(t, ch, i, t.lists[SLEEPERS])
  {
    WakeupOk(c, t, ch);
    WakeOrder(c, t, ch, t.lists[SLEEPERS], i);
  }
}
