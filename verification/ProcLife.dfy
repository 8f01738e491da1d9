/** The life of a child, carried through: `fork`, `wait`, `exit`, and the child's slot is free again. */
module ProcLife {
  import opened Common
  import opened ProcTable
  import opened ProcMachine
  import opened ProcFields

  /** `steps[i]` takes `ts[i]` to `ts[i + 1]`. */
  ghost predicate Path(c: Config, ts: seq<Table>, steps: seq<Step>) {
    |ts| == |steps| + 1 && forall i: nat :: i < |steps| ==> PathAt(c, ts, steps, i)
  }

  ghost predicate PathAt(c: Config, ts: seq<Table>, steps: seq<Step>, i: nat)
    requires i < |steps| < |ts|
  {
    StepTo(c, ts[i], steps[i], ts[i + 1])
  }

  /** Slots other than `p` and `e` are as they were. */
  ghost predicate Besides(c: Config, t: Table, r: Table, p: nat, e: nat) {
    && Sized(c, t) && Sized(c, r)
    && forall q: nat :: q < c.nproc && q != p && q != e ==> r.proc[q] == t.proc[q]
  }

  /** Nobody waits for a CPU, `p` but perhaps. */
  predicate NobodyReady(t: Table, p: nat) {
    forall q: nat :: q < |t.proc| && q != p ==> t.proc[q].state != RUNNABLE
  }

  /** A process that could start a child and wait for it: current on CPU `k`, not killed, childless; nobody
      is ready. */
  ghost predicate Alone(c: Config, t: Table, k: nat, p: nat) {
    && Inv(c, t) && Runs(c, t, k, p) && t.proc[p].making == None && !t.proc[p].killed
    && (forall q: nat :: q < c.nproc ==> t.proc[q].parent != Some(p)) && NobodyReady(t, p)
  }

  lemma Picks(c: Config, t: Table, k: nat, p: nat) returns (r: Table)
    requires Inv(c, t) && k < c.ncpu && t.cpus[k] == None && p < c.nproc && t.proc[p].state == RUNNABLE && NobodyReady(t, p)
    ensures StepTo(c, t, Pick(k), r) && Inv(c, r)
    ensures r.proc == t.proc[p := t.proc[p].(state := RUNNING, chan := NoChan)] && r.cpus == t.cpus[k := Some(p)]
    ensures r.nextpid == t.nextpid
  {
    var q, j := PickFields(c, t, k);
    Found(c, t, READY + j, q);
    StepKeepsInv(c, t, Pick(k));
    r := ProcTable.Pick(c, t, k).t;
  }

  lemma Allocates(c: Config, t: Table, k: nat, p: nat) returns (e: nat, r: Table)
    requires Inv(c, t) && Runs(c, t, k, p) && t.proc[p].making == None
    requires exists q: nat :: q < c.nproc && t.proc[q].state == UNUSED
    ensures StepTo(c, t, AllocProc(k), r) && Inv(c, r) && e < c.nproc && e != p && t.proc[e].state == UNUSED
    ensures r.cpus == t.cpus && r.nextpid == t.nextpid + 1
    ensures r.proc == t.proc[e := t.proc[e].(state := EMBRYO, budget := c.budget, priority := 0, pid := t.nextpid)]
                            [p := t.proc[p].(making := Some(e))]
  {
    e := AllocProcFields(c, t, k, p);
    StepKeepsInv(c, t, AllocProc(k));
    r := ProcTable.AllocProc(c, t, k, p).t;
  }

  lemma Adopts(c: Config, t: Table, k: nat, p: nat, e: nat) returns (r: Table)
    requires Inv(c, t) && Runs(c, t, k, p) && t.proc[p].making == Some(e) && e < c.nproc
    ensures StepTo(c, t, SetParent(k), r) && Inv(c, r) && r == t.(proc := t.proc[e := t.proc[e].(parent := Some(p))])
  {
    StepKeepsInv(c, t, SetParent(k));
    r := ProcTable.SetParent(t, p, e);
  }

  lemma Starts(c: Config, t: Table, k: nat, p: nat, e: nat) returns (r: Table)
    requires Inv(c, t) && Runs(c, t, k, p) && t.proc[p].making == Some(e) && e < c.nproc && e != p && t.proc[e].parent == Some(p)
    ensures StepTo(c, t, FinishFork(k), r) && Inv(c, r) && r.cpus == t.cpus && r.nextpid == t.nextpid
    ensures r.proc == t.proc[e := t.proc[e].(state := RUNNABLE, priority := t.proc[p].priority)][p := t.proc[p].(making := None)]
  {
    FinishForkFields(c, t, k, p, e);
    StepKeepsInv(c, t, FinishFork(k));
    r := ProcTable.FinishFork(c, t, p, e).t;
  }

  /** The three sections of `fork`. */
  lemma Forks(c: Config, t: Table, k: nat, p: nat) returns (e: nat, a: Table, b: Table, r: Table)
    requires Inv(c, t) && Runs(c, t, k, p) && t.proc[p].making == None
    requires exists q: nat :: q < c.nproc && t.proc[q].state == UNUSED
    ensures StepTo(c, t, AllocProc(k), a) && StepTo(c, a, SetParent(k), b) && StepTo(c, b, FinishFork(k), r)
    ensures Inv(c, r) && e < c.nproc && e != p && t.proc[e].state == UNUSED && t.proc[e].making == None
    ensures r.cpus == t.cpus && r.nextpid == t.nextpid + 1
    ensures r.proc == t.proc[e := t.proc[e].(
      state := RUNNABLE, budget := c.budget, priority := t.proc[p].priority, pid := t.nextpid, parent := Some(p))]
  {
    e, a := Allocates(c, t, k, p);
    assert Related(t.proc, t.nextpid, e, p);
    b := Adopts(c, a, k, p, e);
    r := Starts(c, b, k, p, e);
    assert r.proc == t.proc[e := r.proc[e]];
  }

  /** `wait`, with a live child: the parent sleeps. */
  lemma Waits(c: Config, t: Table, k: nat, p: nat, e: nat) returns (r: Table)
    requires Inv(c, t) && Runs(c, t, k, p) && t.proc[p].making == None && !t.proc[p].killed && e < c.nproc && e != p
    requires t.proc[e].parent == Some(p) && t.proc[e].state != ZOMBIE
    requires forall q: nat :: q < c.nproc && q != e ==> t.proc[q].parent != Some(p)
    ensures StepTo(c, t, Wait(k, 0), r) && Inv(c, r) && Besides(c, t, r, p, e) && r.proc[e] == t.proc[e]
    ensures r.cpus == t.cpus[k := None] && r.nextpid == t.nextpid
    ensures r.proc[p] == Charged(c, t.proc[p].(state := SLEEPING, chan := OfProc(p)), 0)
  {
    var z := WaitFields(c, t, k, p, 0);
    StepKeepsInv(c, t, Wait(k, 0));
    r := ProcTable.Wait(c, t, k, p, 0).t;
  }

  /** The child exits, and its parent is woken. */
  lemma Exits(c: Config, t: Table, k: nat, p: nat, e: nat) returns (r: Table)
    requires Inv(c, t) && Runs(c, t, k, e) && e != INIT && t.proc[e].making == None && p < c.nproc && p != e
    requires t.proc[e].parent == Some(p) && t.proc[p].state == SLEEPING && t.proc[p].chan == OfProc(p) && t.proc[p].parent != Some(e)
    requires forall q: nat :: q < c.nproc ==> t.proc[q].parent != Some(e)
    ensures StepTo(c, t, Exit(k, 0), r) && Inv(c, r) && Besides(c, t, r, p, e)
    ensures r.cpus == t.cpus[k := None] && r.nextpid == t.nextpid
    ensures r.proc[p] == t.proc[p].(state := RUNNABLE) && r.proc[e] == Charged(c, t.proc[e].(state := ZOMBIE), 0)
  {
    StepKeepsInv(c, t, Exit(k, 0));
    r := ProcTable.Exit(c, t, k, e, 0).t;
    forall q: nat | q < c.nproc
      ensures r.cpus == t.cpus[k := None] && r.nextpid == t.nextpid
      ensures q == e ==> r.proc[q] == Charged(c, t.proc[q].(state := ZOMBIE), 0)
      ensures q == p ==> r.proc[q] == t.proc[q].(state := RUNNABLE)
      ensures q != p && q != e ==> r.proc[q] == t.proc[q]
    {
      ExitFields(c, t, k, e, 0, q);
      assert Related(t.proc, t.nextpid, q, q);
      assert forall z: nat :: !ZombieOf(t, z, e);
    }
  }

  /** `wait`, with a zombie child: its slot is free. */
  lemma Reaped(c: Config, t: Table, k: nat, p: nat, e: nat) returns (r: Table)
    requires Inv(c, t) && Runs(c, t, k, p) && t.proc[p].making == None && ZombieOf(t, e, p)
    requires forall q: nat :: q < c.nproc && q != e ==> t.proc[q].parent != Some(p)
    ensures StepTo(c, t, Wait(k, 0), r) && Inv(c, r) && r.cpus == t.cpus && r.nextpid == t.nextpid
    ensures r.proc == t.proc[e := t.proc[e].(state := UNUSED, pid := 0, parent := None, killed := false)]
  {
    var z := WaitFields(c, t, k, p, 0);
    StepKeepsInv(c, t, Wait(k, 0));
    r := ProcTable.Wait(c, t, k, p, 0).t;
  }

  /** The process after its `wait`: awake again, and charged for the ticks it had. */
  predicate Resumed(c: Config, a: Proc, b: Proc) {
    b == Charged(c, a, 0).(chan := NoChan)
  }

  /** The child `e` runs on CPU `k`, and its parent `p` waits for it. */
  ghost predicate ChildRuns(c: Config, t: Table, r: Table, k: nat, p: nat, e: nat) {
    && Inv(c, r) && Besides(c, t, r, p, e) && p < c.nproc && e < c.nproc && p != e && k < c.ncpu
    && r.cpus == t.cpus[k := Some(e)] && r.nextpid == t.nextpid + 1
    && r.proc[p] == Charged(c, t.proc[p].(state := SLEEPING, chan := OfProc(p)), 0)
    && r.proc[e].state == RUNNING && r.proc[e].parent == Some(p) && r.proc[e].making == None
  }

  /** What `fork` leaves. */
  ghost predicate Forked(c: Config, t: Table, r: Table, k: nat, p: nat, e: nat) {
    && Inv(c, r) && Runs(c, t, k, p) && e < c.nproc && p != e && r.cpus == t.cpus && r.nextpid == t.nextpid + 1
    && r.proc == t.proc[e := r.proc[e]]
    && r.proc[e].state == RUNNABLE && r.proc[e].parent == Some(p) && r.proc[e].making == None
  }

  lemma ForkPath(c: Config, t: Table, k: nat, p: nat) returns (ts: seq<Table>, e: nat)
    requires Inv(c, t) && Runs(c, t, k, p) && t.proc[p].making == None
    requires exists q: nat :: q < c.nproc && t.proc[q].state == UNUSED
    ensures Path(c, ts, [AllocProc(k), SetParent(k), FinishFork(k)]) && ts[0] == t
    ensures Forked(c, t, ts[3], k, p, e) && t.proc[e].state == UNUSED
  {
    var e', a, b, r := Forks(c, t, k, p);
    e := e';
    ts := [t, a, b, r];
  }

  /** The parent waits, and the child gets the CPU. */
  lemma SwitchPath(c: Config, t: Table, forked: Table, k: nat, p: nat, e: nat) returns (ts: seq<Table>)
    requires Alone(c, t, k, p) && Forked(c, t, forked, k, p, e)
    ensures Path(c, ts, [Wait(k, 0), Pick(k)]) && ts[0] == forked && ChildRuns(c, t, ts[2], k, p, e)
  {
    var asleep := Waits(c, forked, k, p, e);
    var child := Picks(c, asleep, k, e);
    assert child.cpus == t.cpus[k := Some(e)];
    ts := [forked, asleep, child];
  }

  /** The child exits, and the parent gets the CPU back. */
  lemma ExitPath(c: Config, t: Table, child: Table, k: nat, p: nat, e: nat) returns (ts: seq<Table>)
    requires Alone(c, t, k, p) && ChildRuns(c, t, child, k, p, e) && t.proc[e].state == UNUSED
    ensures Path(c, ts, [Exit(k, 0), Pick(k)]) && ts[0] == child
    ensures var r := ts[2];
      && Inv(c, r) && Besides(c, t, r, p, e) && r.cpus == t.cpus && r.nextpid == t.nextpid + 1
      && ZombieOf(r, e, p) && Resumed(c, t.proc[p], r.proc[p])
  {
    NoGrandchildren(c, t, child, p, e);
    NotTheFirst(c, t, e);
    assert Related(t.proc, t.nextpid, p, p);
    var gone := Exits(c, child, k, p, e);
    var back := Picks(c, gone, k, p);
    assert back.cpus == t.cpus;
    ts := [child, gone, back];
  }

  lemma NotTheFirst(c: Config, t: Table, e: nat)
    requires Inv(c, t) && e < c.nproc && t.proc[e].state == UNUSED
    ensures e != INIT
  {
  }

  lemma PathsJoin(c: Config, a: seq<Table>, x: seq<Step>, b: seq<Table>, y: seq<Step>)
    requires Path(c, a, x) && Path(c, b, y) && a[|x|] == b[0]
    ensures Path(c, a[..|x|] + b, x + y)
  {
    var ts, steps := a[..|x|] + b, x + y;
    forall i: nat | i < |steps| ensures PathAt(c, ts, steps, i) {
      if i < |x| {
        assert PathAt(c, a, x, i);
      } else {
        assert PathAt(c, b, y, i - |x|);
      }
    }
  }

  /** `fork`, `wait`, the child's `exit`, and the parent's `wait` again can be carried through from every
      such state, on one CPU: the child's slot is free again, and besides the pid counter nothing else has
      changed. */
  lemma LifeOfAChild(c: Config, t: Table, k: nat, p: nat) returns (ts: seq<Table>, steps: seq<Step>, e: nat)
    requires Alone(c, t, k, p) && exists q: nat :: q < c.nproc && t.proc[q].state == UNUSED
    ensures Path(c, ts, steps) && ts[0] == t && e < c.nproc && e != p && t.proc[e].state == UNUSED
    ensures steps == [AllocProc(k), SetParent(k), FinishFork(k)] + [Wait(k, 0), Pick(k)] + [Exit(k, 0), Pick(k)] + [Wait(k, 0)]
    ensures var r := ts[|steps|];
      && Inv(c, r) && Besides(c, t, r, p, e) && r.cpus == t.cpus && r.nextpid == t.nextpid + 1
      && r.proc[e].state == UNUSED && r.proc[e].parent == None && Resumed(c, t.proc[p], r.proc[p])
  {
    var a, e' := ForkPath(c, t, k, p);
    e := e';
    var b := SwitchPath(c, t, a[3], k, p, e);
    var d := ExitPath(c, t, b[2], k, p, e);
    var done := Reaped(c, d[2], k, p, e);
    var x, y, z, w := [AllocProc(k), SetParent(k), FinishFork(k)], [Wait(k, 0), Pick(k)], [Exit(k, 0), Pick(k)], [Wait(k, 0)];
    PathsJoin(c, a, x, b, y);
    PathsJoin(c, a[..3] + b, x + y, d, z);
    PathsJoin(c, (a[..3] + b)[..5] + d, x + y + z, [d[2], done], w);
    ts, steps := ((a[..3] + b)[..5] + d)[..7] + [d[2], done], x + y + z + w;
  }

  /** A slot that was free has no children. */
  lemma NoGrandchildren(c: Config, t: Table, r: Table, p: nat, e: nat)
    requires Inv(c, t) && e < c.nproc && t.proc[e].state == UNUSED && p < c.nproc && p != e && Besides(c, t, r, p, e)
    requires r.proc[p].parent == t.proc[p].parent && r.proc[e].parent == Some(p)
    ensures forall q: nat :: q < c.nproc ==> r.proc[q].parent != Some(e)
  {
    forall q: nat | q < c.nproc ensures r.proc[q].parent != Some(e) {
      assert Related(t.proc, t.nextpid, q, e) && Related(t.proc, t.nextpid, e, q);
    }
  }
}
