/** The process table as a value: slots, state lists, and the CPUs' current processes. Every function
    here is what one section under `ptable.lock` does to it. */
module ProcTable {
  import opened Common

  datatype PState = UNUSED | EMBRYO | SLEEPING | RUNNABLE | RUNNING | ZOMBIE

  /** What a process sleeps on: the address of a process (only `wait` does that), or anything else. */
  datatype Chan = NoChan | OfProc(p: nat) | Other(c: nat)

  /** `making` is the embryo that a process inside `fork` is setting up. */
  datatype Proc = Proc(
    state: PState,
    pid: nat,
    parent: Option<nat>,
    chan: Chan,
    killed: bool,
    priority: nat,
    budget: int,
    making: Option<nat>)

  datatype Config = Config(nproc: nat, ncpu: nat, maxprio: nat, budget: int) {
    predicate Valid() {
      nproc >= 1 && budget >= 1
    }

    function Lists(): nat {
      READY + maxprio + 1
    }
  }

  // The state lists; ready list i is number READY + i.
  const FREE: nat := 0
  const EMBRYOS: nat := 1
  const SLEEPERS: nat := 2
  const ZOMBIES: nat := 3
  const RUNNERS: nat := 4
  const READY: nat := 5

  /** The slot `userinit` takes. */
  const INIT: nat := 0

  datatype Table = Table(
    proc: seq<Proc>,
    lists: seq<seq<nat>>,
    cpus: seq<Option<nat>>,
    nextpid: nat)

  // ---------- Lists ----------

  /** `stateListRemove`, as a function of the list. */
  function Remove(s: seq<nat>, p: nat): (r: seq<nat>)
    ensures |r| == if p in s then |s| - 1 else |s|
    ensures forall i :: 0 <= i < |r| ==> r[i] in s
  {
    if s == [] then [] else if s[0] == p then s[1..] else [s[0]] + Remove(s[1..], p)
  }

  lemma {:induction false} RemoveIs(s: seq<nat>, p: nat, k: nat)
    requires k < |s| && s[k] == p && NoDup(s)
    ensures Remove(s, p) == s[..k] + s[k + 1..]
  {
    if k > 0 {
      RemoveIs(s[1..], p, k - 1);
    }
  }

  lemma RemoveMembers(s: seq<nat>, p: nat)
    requires NoDup(s)
    ensures NoDup(Remove(s, p))
    ensures forall q: nat :: q in Remove(s, p) <==> q in s && q != p
  {
    if p in s {
      var k :| 0 <= k < |s| && s[k] == p;
      RemoveIs(s, p, k);
    } else {
      RemoveAbsent(s, p);
    }
  }

  lemma RemoveAbsent(s: seq<nat>, p: nat)
    requires p !in s
    ensures Remove(s, p) == s
  {
  }

  // ---------- Where every slot belongs ----------

  predicate Sized(c: Config, t: Table) {
    && c.Valid()
    && |t.proc| == c.nproc && |t.cpus| == c.ncpu && |t.lists| == c.Lists()
    && (forall p :: 0 <= p < c.nproc ==> t.proc[p].priority <= c.maxprio)
    && (forall l, i :: 0 <= l < c.Lists() && 0 <= i < |t.lists[l]| ==> t.lists[l][i] < c.nproc)
  }

  predicate Shape(c: Config, t: Table) {
    && Sized(c, t)
    && (forall l :: 0 <= l < |t.lists| ==> NoDup(t.lists[l]))
  }

  /** The list slot `p` is to be found on. A killed sleeper is put on ready list 0 whatever its
      priority. */
  function Place(c: Config, t: Table, p: nat): (l: nat)
    requires Sized(c, t) && p < c.nproc
    ensures l < c.Lists()
  {
    match t.proc[p].state
    case UNUSED => FREE
    case EMBRYO => EMBRYOS
    case SLEEPING => SLEEPERS
    case ZOMBIE => ZOMBIES
    case RUNNING => RUNNERS
    case RUNNABLE =>
      if t.proc[p].killed && p in t.lists[READY] then READY else READY + t.proc[p].priority
  }

  /** Slot `p` is on list `l` just when that is its list. */
  ghost predicate PlacedAt(c: Config, t: Table, l: nat, p: nat)
    requires Sized(c, t) && l < c.Lists() && p < c.nproc
  {
    p in t.lists[l] <==> Place(c, t, p) == l
  }

  /** Each slot is on exactly one list, the one for its state. */
  ghost predicate Partition(c: Config, t: Table)
    requires Sized(c, t)
  {
    forall l: nat, p: nat :: l < c.Lists() && p < c.nproc ==> PlacedAt(c, t, l, p)
  }

  /** A slot found on a list. */
  lemma Found(c: Config, t: Table, l: nat, p: nat)
    requires Sized(c, t) && Partition(c, t) && l < c.Lists() && p in t.lists[l]
    ensures p < c.nproc && Place(c, t, p) == l
  {
    assert PlacedAt(c, t, l, p);
  }

  /** A slot is on its list. */
  lemma OnOwnList(c: Config, t: Table, p: nat)
    requires Sized(c, t) && Partition(c, t) && p < c.nproc
    ensures p in t.lists[Place(c, t, p)]
  {
    assert PlacedAt(c, t, Place(c, t, p), p);
  }

  /** Take slot `p` off list `from`, change it to `pr`, and append it to list `to`. */
  function Move(t: Table, p: nat, from: nat, to: nat, pr: Proc): (r: Table)
    requires p < |t.proc| && from < |t.lists| && to < |t.lists|
  {
    var lists := t.lists[from := Remove(t.lists[from], p)];
    t.(lists := lists[to := lists[to] + [p]], proc := t.proc[p := pr])
  }

  /** The list that `pr` may be appended to. */
  predicate Fits(pr: Proc, to: nat) {
    match pr.state
    case UNUSED => to == FREE
    case EMBRYO => to == EMBRYOS
    case SLEEPING => to == SLEEPERS
    case ZOMBIE => to == ZOMBIES
    case RUNNING => to == RUNNERS
    case RUNNABLE => to == READY + pr.priority || (to == READY && pr.killed)
  }

  lemma MoveMembers(c: Config, t: Table, p: nat, from: nat, to: nat, pr: Proc)
    requires Shape(c, t) && Partition(c, t)
    requires p < c.nproc && from == Place(c, t, p) && to < c.Lists() && pr.priority <= c.maxprio
    ensures var r := Move(t, p, from, to, pr);
      && Shape(c, r)
      && forall l: nat, q: nat :: l < c.Lists() && q < c.nproc ==>
           (q in r.lists[l] <==> if q == p then l == to else q in t.lists[l])
  {
    RemoveMembers(t.lists[from], p);
    var r := Move(t, p, from, to, pr);
    forall l: nat | l < c.Lists()
      ensures NoDup(r.lists[l])
      ensures forall q: nat :: q < c.nproc ==> (q in r.lists[l] <==> if q == p then l == to else q in t.lists[l])
    {
      assert PlacedAt(c, t, l, p);
    }
  }

  lemma MoveKeepsPartition(c: Config, t: Table, p: nat, from: nat, to: nat, pr: Proc)
    requires Shape(c, t) && Partition(c, t)
    requires p < c.nproc && from == Place(c, t, p) && to < c.Lists() && pr.priority <= c.maxprio
    requires Fits(pr, to)
    ensures var r := Move(t, p, from, to, pr); Shape(c, r) && Partition(c, r) && p in r.lists[to]
  {
    MoveMembers(c, t, p, from, to, pr);
    var r := Move(t, p, from, to, pr);
    forall l: nat, q: nat | l < c.Lists() && q < c.nproc ensures PlacedAt(c, r, l, q) {
      assert PlacedAt(c, t, l, q);
    }
  }

  // ---------- The sections under ptable.lock ----------

  /** A section completes, or stops the machine. */
  datatype Outcome = Ok(t: Table) | Panic {
    predicate IsFailure() {
      Panic?
    }

    function PropagateFailure(): Outcome
      requires Panic?
    {
      Panic
    }

    function Extract(): Table
      requires Ok?
    {
      t
    }
  }

  /** `stateListRemove`, `assertState`, the change itself, `stateListAdd`. */
  function Relist(c: Config, t: Table, p: nat, from: nat, to: nat, was: PState, pr: Proc): (r: Outcome)
    requires Sized(c, t) && p < c.nproc && from < c.Lists() && to < c.Lists()
    requires pr.priority <= c.maxprio
    ensures r.Ok? ==> Sized(c, r.t)
  {
    if p !in t.lists[from] || t.proc[p].state != was then Panic
    else Ok(Move(t, p, from, to, pr))
  }

  /** Charge the budget; when it is used up, renew it and demote. */
  function Charge(c: Config, t: Table, p: nat, used: int): (r: Outcome)
    requires Sized(c, t) && p < c.nproc
    ensures r.Ok? ==> Sized(c, r.t)
  {
    var pr, left := t.proc[p], t.proc[p].budget - used;
    if left >= 1 then Ok(t.(proc := t.proc[p := pr.(budget := left)]))
    else if pr.priority == c.maxprio then Ok(t.(proc := t.proc[p := pr.(budget := c.budget)]))
    else
      var demoted := pr.(budget := c.budget, priority := pr.priority + 1);
      if pr.state == RUNNABLE
      then Relist(c, t, p, READY + pr.priority, READY + pr.priority + 1, RUNNABLE, demoted)
      else Ok(t.(proc := t.proc[p := demoted]))
  }

  /** `sched`, up to the switch: charge the process and give up the CPU. */
  function Sched(c: Config, t: Table, cpu: nat, p: nat, used: int): (r: Outcome)
    requires Sized(c, t) && cpu < c.ncpu && p < c.nproc
    ensures r.Ok? ==> Sized(c, r.t)
  {
    if t.proc[p].state == RUNNING then Panic
    else Charge(c, t.(cpus := t.cpus[cpu := None]), p, used)
  }

  /** Process `p` is running on `cpu`. */
  predicate Runs(c: Config, t: Table, cpu: nat, p: nat) {
    Sized(c, t) && cpu < c.ncpu && p < c.nproc && t.cpus[cpu] == Some(p)
  }

  function Yield(c: Config, t: Table, cpu: nat, p: nat, used: int): Outcome
    requires Runs(c, t, cpu, p)
  {
    var pr := t.proc[p];
    var r :- Relist(c, t, p, RUNNERS, READY + pr.priority, RUNNING, pr.(state := RUNNABLE));
    Sched(c, r, cpu, p, used)
  }

  function Sleep(c: Config, t: Table, cpu: nat, p: nat, ch: Chan, used: int): Outcome
    requires Runs(c, t, cpu, p)
  {
    var r :- Relist(c, t, p, RUNNERS, SLEEPERS, RUNNING, t.proc[p].(state := SLEEPING, chan := ch));
    Sched(c, r, cpu, p, used)
  }

  /** `wakeup1` from position `ps` of the sleep list on. */
  function Wake(c: Config, t: Table, ch: Chan, ps: seq<nat>): (r: Outcome)
    requires Sized(c, t) && forall i :: 0 <= i < |ps| ==> ps[i] < c.nproc
    ensures r.Ok? ==> Sized(c, r.t)
    decreases |ps|
  {
    if ps == [] then Ok(t)
    else
      var p, pr := ps[0], t.proc[ps[0]];
      if pr.chan != ch then Wake(c, t, ch, ps[1..])
      else
        var r :- Relist(c, t, p, SLEEPERS, READY + pr.priority, SLEEPING, pr.(state := RUNNABLE));
        Wake(c, r, ch, ps[1..])
  }

  function Wakeup(c: Config, t: Table, ch: Chan): (r: Outcome)
    requires Sized(c, t)
    ensures r.Ok? ==> Sized(c, r.t)
  {
    Wake(c, t, ch, t.lists[SLEEPERS])
  }

  /** The first ready list, from `j` on, that is not empty. */
  function FirstReady(c: Config, t: Table, j: nat): (r: Option<nat>)
    requires Sized(c, t) && j <= c.maxprio + 1
    ensures r.Some? ==> j <= r.value <= c.maxprio && t.lists[READY + r.value] != []
    decreases c.maxprio + 1 - j
  {
    if j > c.maxprio then None
    else if t.lists[READY + j] != [] then Some(j)
    else FirstReady(c, t, j + 1)
  }

  /** The scheduler's choice on an idle `cpu`. The process it switches to clears its channel. */
  function Pick(c: Config, t: Table, cpu: nat): Outcome
    requires Sized(c, t) && cpu < c.ncpu && t.cpus[cpu] == None
  {
    match FirstReady(c, t, 0)
    case None => Ok(t)
    case Some(j) =>
      var p := t.lists[READY + j][0];
      var r :- Relist(c, t, p, READY + j, RUNNERS, RUNNABLE, t.proc[p].(state := RUNNING, chan := NoChan));
      Ok(r.(cpus := r.cpus[cpu := Some(p)]))
  }

  /** The priority of a process after a promotion. Processes on ready list 0 are not visited. */
  function Promoted(t: Table, p: nat): Proc
    requires p < |t.proc| && READY < |t.lists|
  {
    var pr := t.proc[p];
    if pr.priority > 0
       && (pr.state == RUNNING || pr.state == SLEEPING || (pr.state == RUNNABLE && p !in t.lists[READY]))
    then pr.(priority := pr.priority - 1)
    else pr
  }

  /** The lists after a promotion: every ready list moves up one place, the first two joined. */
  function PromotedLists(c: Config, lists: seq<seq<nat>>): seq<seq<nat>>
    requires |lists| == c.Lists()
  {
    if c.maxprio == 0 then lists
    else lists[..READY] + [lists[READY] + lists[READY + 1]] + lists[READY + 2..] + [[]]
  }

  predicate PromotionPanics(c: Config, t: Table)
    requires Sized(c, t)
  {
    exists l, i :: READY < l < c.Lists() && 0 <= i < |t.lists[l]|
      && READY + t.proc[t.lists[l][i]].priority != l
  }

  function Promote(c: Config, t: Table): Outcome
    requires Sized(c, t)
  {
    if PromotionPanics(c, t) then Panic
    else
      Ok(t.(proc := seq(c.nproc, p requires 0 <= p < c.nproc => Promoted(t, p)),
            lists := PromotedLists(c, t.lists)))
  }

  /** `allocproc` on behalf of the process running `fork`; no change when there is no free slot. */
  function AllocProc(c: Config, t: Table, cpu: nat, p: nat): Outcome
    requires Sized(c, t) && Runs(c, t, cpu, p)
  {
    if t.lists[FREE] == [] then Ok(t)
    else
      var e := t.lists[FREE][0];
      var r :- Relist(c, t, e, FREE, EMBRYOS, UNUSED,
                      t.proc[e].(state := EMBRYO, budget := c.budget, priority := 0, pid := t.nextpid));
      Ok(r.(nextpid := t.nextpid + 1, proc := r.proc[p := r.proc[p].(making := Some(e))]))
  }

  /** The embryo's kernel stack or address space cannot be allocated: back to the free list. */
  function AbortFork(c: Config, t: Table, p: nat, e: nat): Outcome
    requires Sized(c, t) && p < c.nproc && e < c.nproc
  {
    var r :- Relist(c, t, e, EMBRYOS, FREE, EMBRYO, t.proc[e].(state := UNUSED));
    Ok(r.(proc := r.proc[p := r.proc[p].(making := None)]))
  }

  /** `np->parent = proc`, outside the lock. */
  function SetParent(t: Table, p: nat, e: nat): Table
    requires p < |t.proc| && e < |t.proc|
  {
    t.(proc := t.proc[e := t.proc[e].(parent := Some(p))])
  }

  function FinishFork(c: Config, t: Table, p: nat, e: nat): Outcome
    requires Sized(c, t) && p < c.nproc && e < c.nproc
  {
    var prio := t.proc[p].priority;
    var r :- Relist(c, t, e, EMBRYOS, READY + prio, EMBRYO, t.proc[e].(state := RUNNABLE, priority := prio));
    Ok(r.(proc := r.proc[p := r.proc[p].(making := None)]))
  }

  /** `exit` hands the children of `p` to init. */
  function Orphan(pr: Proc, p: nat): Proc {
    if pr.parent == Some(p) then pr.(parent := Some(INIT)) else pr
  }

  function Reparent(t: Table, p: nat): Table {
    t.(proc := seq(|t.proc|, q requires 0 <= q < |t.proc| => Orphan(t.proc[q], p)))
  }

  predicate HasZombieChild(c: Config, t: Table, p: nat)
    requires Sized(c, t)
  {
    exists i :: 0 <= i < |t.lists[ZOMBIES]| && t.proc[t.lists[ZOMBIES][i]].parent == Some(p)
  }

  function Exit(c: Config, t: Table, cpu: nat, p: nat, used: int): Outcome
    requires Sized(c, t) && Runs(c, t, cpu, p)
  {
    if p == INIT then Panic
    else
      var woken :- Wakeup(c, t, if t.proc[p].parent.Some? then OfProc(t.proc[p].parent.value) else NoChan);
      var orphaned := Reparent(woken, p);
      var again :- if HasZombieChild(c, t, p) then Wakeup(c, orphaned, OfProc(INIT)) else Ok(orphaned);
      var r :- Relist(c, again, p, RUNNERS, ZOMBIES, RUNNING, again.proc[p].(state := ZOMBIE));
      Sched(c, r, cpu, p, used)
  }

  /** The test of `wait`: compare the parent's pid; a null parent is nobody's child. */
  predicate IsChild(t: Table, q: nat, p: nat)
    requires q < |t.proc| && p < |t.proc|
  {
    match t.proc[q].parent
    case None => false
    case Some(f) => f < |t.proc| && t.proc[f].pid == t.proc[p].pid
  }

  /** The first child of `p` on a list. */
  function FindChild(t: Table, ps: seq<nat>, p: nat): (r: Option<nat>)
    requires p < |t.proc| && forall i :: 0 <= i < |ps| ==> ps[i] < |t.proc|
    ensures r.Some? ==> r.value in ps && r.value < |t.proc| && IsChild(t, r.value, p)
    ensures r.None? ==> forall i :: 0 <= i < |ps| ==> !IsChild(t, ps[i], p)
  {
    if ps == [] then None
    else if IsChild(t, ps[0], p) then Some(ps[0])
    else FindChild(t, ps[1..], p)
  }

  /** A child on some list other than the free and zombie lists. */
  predicate HasKids(c: Config, t: Table, p: nat)
    requires Sized(c, t) && p < c.nproc
  {
    exists l, i :: 0 <= l < c.Lists() && l != FREE && l != ZOMBIES
      && 0 <= i < |t.lists[l]| && IsChild(t, t.lists[l][i], p)
  }

  /** One round of `wait`: reap a zombie child, give up, or sleep on the own address. */
  function Wait(c: Config, t: Table, cpu: nat, p: nat, used: int): Outcome
    requires Sized(c, t) && Runs(c, t, cpu, p)
  {
    match FindChild(t, t.lists[ZOMBIES], p)
    case Some(z) =>
      Relist(c, t, z, ZOMBIES, FREE, ZOMBIE,
             t.proc[z].(state := UNUSED, pid := 0, parent := None, killed := false))
    case None =>
      if !HasKids(c, t, p) || t.proc[p].killed then Ok(t)
      else Sleep(c, t, cpu, p, OfProc(p), used)
  }

  /** A round as the code has it: `havekids` tells whether an earlier round has seen a child. */
  function WaitRound(c: Config, t: Table, cpu: nat, p: nat, used: int, havekids: bool): Outcome
    requires Sized(c, t) && Runs(c, t, cpu, p)
  {
    if FindChild(t, t.lists[ZOMBIES], p).None? && havekids && !t.proc[p].killed
    then Sleep(c, t, cpu, p, OfProc(p), used)
    else Wait(c, t, cpu, p, used)
  }

  /** The first process with the given pid on a list. */
  function FindPid(t: Table, ps: seq<nat>, pid: nat): (r: Option<nat>)
    requires forall i :: 0 <= i < |ps| ==> ps[i] < |t.proc|
    ensures r.Some? ==> r.value in ps && r.value < |t.proc| && t.proc[r.value].pid == pid
    ensures r.None? ==> forall i :: 0 <= i < |ps| ==> t.proc[ps[i]].pid != pid
  {
    if ps == [] then None
    else if t.proc[ps[0]].pid == pid then Some(ps[0])
    else FindPid(t, ps[1..], pid)
  }

  /** All ready lists, in scan order. */
  function AllReady(c: Config, t: Table, i: nat): (s: seq<nat>)
    requires Sized(c, t) && i <= c.maxprio + 1
    ensures forall k :: 0 <= k < |s| ==> s[k] < c.nproc
    decreases c.maxprio + 1 - i
  {
    if i > c.maxprio then [] else t.lists[READY + i] + AllReady(c, t, i + 1)
  }

  /** `kill`: set the flag; a sleeper goes to ready list 0, its priority unchanged. */
  function Kill(c: Config, t: Table, pid: nat): Outcome
    requires Sized(c, t)
  {
    var scan := t.lists[RUNNERS] + t.lists[SLEEPERS] + AllReady(c, t, 0) + t.lists[ZOMBIES] + t.lists[EMBRYOS];
    match FindPid(t, scan, pid)
    case None => Ok(t)
    case Some(p) =>
      if p in t.lists[SLEEPERS]
      then Relist(c, t, p, SLEEPERS, READY, SLEEPING, t.proc[p].(killed := true, state := RUNNABLE))
      else Ok(t.(proc := t.proc[p := t.proc[p].(killed := true)]))
  }

  /** `setpriority`; a priority out of range changes nothing. */
  function SetPriority(c: Config, t: Table, pid: nat, priority: int): Outcome
    requires Sized(c, t)
  {
    if priority < 0 || priority > c.maxprio then Ok(t)
    else
      match FindPid(t, t.lists[RUNNERS] + AllReady(c, t, 0) + t.lists[SLEEPERS], pid)
      case None => Ok(t)
      case Some(p) =>
        var pr := t.proc[p].(priority := priority, budget := c.budget);
        if t.proc[p].priority == priority || p in t.lists[SLEEPERS] then Ok(t.(proc := t.proc[p := pr]))
        else if p in t.lists[RUNNERS] then
          // The state stays RUNNING.
          Relist(c, t, p, RUNNERS, READY + priority, RUNNING, pr)
        else Relist(c, t, p, Place(c, t, p), READY + priority, RUNNABLE, pr)
  }
}
