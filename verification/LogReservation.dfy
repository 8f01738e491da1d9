/** Log space: `begin_op` reserves MAXOPBLOCKS per operation; `log_write` stops the machine when the
    header is full. */
module LogReservation {
  import opened Common

  /** The header and, per outstanding operation, how many entries it has appended to it. */
  datatype Log = Log(lh: seq<nat>, used: seq<nat>)

  datatype Step = Begin | LogWrite(op: nat, b: nat) | End(op: nat)

  /** `log_write` panics: the test comes before absorption. */
  predicate Panics(size: nat, s: Log) {
    |s.lh| >= LOGSIZE || |s.lh| >= size - 1
  }

  predicate Enabled(s: Log, step: Step) {
    match step
    case Begin => |s.lh| + (|s.used| + 1) * MAXOPBLOCKS <= LOGSIZE
    case LogWrite(op, _) => op < |s.used|
    case End(op) => op < |s.used|
  }

  function Apply(s: Log, step: Step): Log
    requires Enabled(s, step)
  {
    match step
    case Begin => s.(used := s.used + [0])
    case LogWrite(op, b) =>
      if b in s.lh then s else Log(s.lh + [b], s.used[op := s.used[op] + 1])
    case End(op) =>
      var rest := s.used[..op] + s.used[op + 1..];
      Log(if rest == [] then [] else s.lh, rest)
  }

  ghost predicate Run(states: seq<Log>, steps: seq<Step>) {
    && |states| == |steps| + 1
    && states[0] == Log([], [])
    && forall i :: 0 <= i < |steps| ==> Enabled(states[i], steps[i]) && states[i + 1] == Apply(states[i], steps[i])
  }

  /** No step reaches the panic in `log_write`. */
  ghost predicate Quiet(size: nat, states: seq<Log>, steps: seq<Step>)
    requires Run(states, steps)
  {
    forall i :: 0 <= i < |steps| && steps[i].LogWrite? ==> !Panics(size, states[i])
  }

  /** Every operation appends at most MAXOPBLOCKS blocks, however often it logs them. */
  ghost predicate Bounded(states: seq<Log>) {
    forall i, j :: 0 <= i < |states| && 0 <= j < |states[i].used| ==> states[i].used[j] <= MAXOPBLOCKS
  }

  /** Reserved but unused header slots. */
  function Unused(used: seq<nat>): int {
    if used == [] then 0 else MAXOPBLOCKS - used[|used| - 1] + Unused(used[..|used| - 1])
  }

  lemma {:induction false} UnusedConcat(a: seq<nat>, b: seq<nat>)
    ensures Unused(a + b) == Unused(a) + Unused(b)
  {
    if b == [] {
      assert a + b == a;
    } else {
      var n := |b| - 1;
      UnusedConcat(a, b[..n]);
      assert (a + b)[..|a + b| - 1] == a + b[..n];
    }
  }

  /** Splitting off the operation at `op`. */
  lemma UnusedSplit(used: seq<nat>, op: nat)
    requires op < |used|
    ensures Unused(used) == Unused(used[..op]) + (MAXOPBLOCKS - used[op]) + Unused(used[op + 1..])
  {
    UnusedConcat(used[..op] + [used[op]], used[op + 1..]);
    UnusedConcat(used[..op], [used[op]]);
    assert used == used[..op] + [used[op]] + used[op + 1..];
    assert Unused([used[op]]) == MAXOPBLOCKS - used[op] + Unused([used[op]][..0]);
  }

  lemma {:induction false} UnusedBounds(used: seq<nat>, op: nat)
    requires op < |used| && forall j :: 0 <= j < |used| ==> used[j] <= MAXOPBLOCKS
    ensures MAXOPBLOCKS - used[op] <= Unused(used) <= |used| * MAXOPBLOCKS
  {
    var n := |used| - 1;
    if n > 0 {
      UnusedBounds(used[..n], if op < n then op else 0);
    }
  }

  ghost predicate Reserved(s: Log) {
    && (forall j :: 0 <= j < |s.used| ==> s.used[j] <= MAXOPBLOCKS)
    && |s.lh| + Unused(s.used) <= LOGSIZE
  }

  /** A block not in the header finds room in it, and so does any block of an operation that has not
      used up its reservation. */
  lemma StepKeepsReserved(s: Log, step: Step)
    requires Reserved(s) && Enabled(s, step)
    requires forall j :: 0 <= j < |Apply(s, step).used| ==> Apply(s, step).used[j] <= MAXOPBLOCKS
    ensures Reserved(Apply(s, step))
    ensures step.LogWrite? && |s.lh| >= LOGSIZE ==> step.b in s.lh && s.used[step.op] == MAXOPBLOCKS
  {
    var t := Apply(s, step);
    match step {
      case Begin =>
        if s.used != [] {
          UnusedBounds(s.used, 0);
        }
        UnusedSplit(t.used, |s.used|);
        assert t.used[..|s.used|] == s.used;
      case LogWrite(op, b) =>
        UnusedBounds(s.used, op);
        if b !in s.lh {
          UnusedSplit(s.used, op);
          UnusedSplit(t.used, op);
          assert t.used[..op] == s.used[..op] && t.used[op + 1..] == s.used[op + 1..];
          assert t.used[op] <= MAXOPBLOCKS;
        }
      case End(op) =>
        UnusedSplit(s.used, op);
        UnusedConcat(s.used[..op], s.used[op + 1..]);
    }
  }

  lemma {:induction false} ReservedAlways(states: seq<Log>, steps: seq<Step>, k: nat)
    requires Run(states, steps) && Bounded(states) && k <= |steps|
    ensures Reserved(states[k])
  {
    if k > 0 {
      ReservedAlways(states, steps, k - 1);
      assert states[k].used == Apply(states[k - 1], steps[k - 1]).used;
      StepKeepsReserved(states[k - 1], steps[k - 1]);
    }
  }

  /** In a log area larger than LOGSIZE, `log_write` panics exactly on a full header; then the block is
      already in it, and the operation has appended all it may. */
  lemma PanicExactly(size: nat, states: seq<Log>, steps: seq<Step>, i: nat)
    requires size > LOGSIZE && Run(states, steps) && Bounded(states) && i < |steps| && steps[i].LogWrite?
    ensures Panics(size, states[i]) <==> |states[i].lh| == LOGSIZE
    ensures Panics(size, states[i]) ==> steps[i].b in states[i].lh
    ensures Panics(size, states[i]) ==> steps[i].op < |states[i].used| && states[i].used[steps[i].op] == MAXOPBLOCKS
  {
    ReservedAlways(states, steps, i);
    UnusedBounds(states[i].used, steps[i].op);
    assert states[i + 1].used == Apply(states[i], steps[i]).used;
    StepKeepsReserved(states[i], steps[i]);
  }

  /** Some operation logs a block again while the header is full. */
  ghost predicate Relogs(states: seq<Log>, steps: seq<Step>)
    requires Run(states, steps)
  {
    exists i :: 0 <= i < |steps| && steps[i].LogWrite? && steps[i].b in states[i].lh && |states[i].lh| == LOGSIZE
  }

  /** So a run reaches the panic exactly when it logs a block again with the header full. */
  lemma QuietExactly(size: nat, states: seq<Log>, steps: seq<Step>)
    requires size > LOGSIZE && Run(states, steps) && Bounded(states)
    ensures Quiet(size, states, steps) <==> !Relogs(states, steps)
  {
    forall i: nat | i < |steps| && steps[i].LogWrite?
      ensures Panics(size, states[i]) <==> steps[i].b in states[i].lh && |states[i].lh| == LOGSIZE
    {
      PanicExactly(size, states, steps, i);
    }
  }

  /** Every `log_write` is by an operation that has appended fewer than MAXOPBLOCKS blocks so far. */
  ghost predicate WithinReservation(states: seq<Log>, steps: seq<Step>) {
    forall i :: 0 <= i < |steps| < |states| && steps[i].LogWrite? && steps[i].op < |states[i].used| ==>
      states[i].used[steps[i].op] < MAXOPBLOCKS
  }

  lemma {:induction false} WithinIsBounded(states: seq<Log>, steps: seq<Step>, k: nat)
    requires Run(states, steps) && WithinReservation(states, steps) && k <= |steps|
    ensures forall j :: 0 <= j < |states[k].used| ==> states[k].used[j] <= MAXOPBLOCKS
  {
    if k > 0 {
      WithinIsBounded(states, steps, k - 1);
      assert states[k].used == Apply(states[k - 1], steps[k - 1]).used;
    }
  }

  /** In particular no run reaches it whose operations log blocks only while they have reservation left. */
  lemma LargeLogIsQuiet(size: nat, states: seq<Log>, steps: seq<Step>)
    requires size > LOGSIZE && Run(states, steps) && WithinReservation(states, steps)
    ensures Quiet(size, states, steps)
  {
    forall k | 0 <= k < |states| ensures forall j :: 0 <= j < |states[k].used| ==> states[k].used[j] <= MAXOPBLOCKS {
      WithinIsBounded(states, steps, k);
    }
    forall i | 0 <= i < |steps| && steps[i].LogWrite? ensures !Panics(size, states[i]) {
      PanicExactly(size, states, steps, i);
    }
  }

  function Clamp(x: int): nat {
    if x < 0 then 0 else if x > MAXOPBLOCKS then MAXOPBLOCKS else x
  }

  /** Three operations begin, then log the blocks 0, 1, 2, ..., ten each. */
  function FillSteps(m: nat): (r: seq<Step>) {
    seq(3 + m, i requires 0 <= i => if i < 3 then Begin else LogWrite((i - 3) / MAXOPBLOCKS, i - 3))
  }

  function FillState(i: nat): Log {
    if i < 3 then Log([], seq(i, _ => 0))
    else Log(seq(i - 3, j requires 0 <= j => j),
             [Clamp(i - 3), Clamp(i - 3 - MAXOPBLOCKS), Clamp(i - 3 - 2 * MAXOPBLOCKS)])
  }

  function FillStates(m: nat): seq<Log> {
    seq(4 + m, i requires 0 <= i => FillState(i))
  }

  lemma FillStep(m: nat, i: nat)
    requires m <= LOGSIZE && i < 3 + m
    ensures Enabled(FillState(i), FillSteps(m)[i])
    ensures FillState(i + 1) == Apply(FillState(i), FillSteps(m)[i])
  {
    if i >= 3 {
      assert FillState(i + 1).lh == FillState(i).lh + [i - 3];
    }
  }

  lemma FillRun(m: nat)
    requires m <= LOGSIZE
    ensures Run(FillStates(m), FillSteps(m)) && Bounded(FillStates(m))
    ensures |FillStates(m)[3 + m].lh| == m
  {
    forall i | 0 <= i < 3 + m
      ensures Enabled(FillStates(m)[i], FillSteps(m)[i])
      ensures FillStates(m)[i + 1] == Apply(FillStates(m)[i], FillSteps(m)[i])
    {
      FillStep(m, i);
    }
  }

  /** With a log area of LOGSIZE blocks or fewer, which is what mkfs lays out, some run whose
      operations stay within their reservation reaches the panic. */
  lemma SmallLogPanics(size: nat) returns (states: seq<Log>, steps: seq<Step>)
    requires size <= LOGSIZE
    ensures Run(states, steps) && Bounded(states) && !Quiet(size, states, steps)
  {
    var m := if size == 0 then 1 else size;
    FillRun(m);
    states, steps := FillStates(m), FillSteps(m);
    assert steps[2 + m].LogWrite? && |states[2 + m].lh| == m - 1;
    assert Panics(size, states[2 + m]);
  }

  ghost function BlocksLogged(steps: seq<Step>, op: nat): set<nat> {
    set i | 0 <= i < |steps| && steps[i].LogWrite? && steps[i].op == op :: steps[i].b
  }

  /** That can happen, whatever the size of the log, in a run whose operations log no more than
      MAXOPBLOCKS distinct blocks each. */
  lemma RelogPanics(size: nat) returns (states: seq<Log>, steps: seq<Step>)
    ensures Run(states, steps) && Bounded(states) && !Quiet(size, states, steps)
    ensures forall op :: |BlocksLogged(steps, op)| <= MAXOPBLOCKS
  {
    FillRun(LOGSIZE);
    steps := FillSteps(LOGSIZE) + [LogWrite(0, 0)];
    var last := FillStates(LOGSIZE)[3 + LOGSIZE];
    assert last.lh[0] == 0 && Apply(last, LogWrite(0, 0)) == last;
    states := FillStates(LOGSIZE) + [Apply(last, LogWrite(0, 0))];
    assert Panics(size, states[3 + LOGSIZE]) && steps[3 + LOGSIZE].LogWrite?;
    forall op: nat ensures |BlocksLogged(steps, op)| <= MAXOPBLOCKS {
      var range := Range(MAXOPBLOCKS * op, MAXOPBLOCKS * op + MAXOPBLOCKS);
      RangeSize(MAXOPBLOCKS * op, MAXOPBLOCKS * op + MAXOPBLOCKS);
      assert BlocksLogged(steps, op) <= range;
      SubsetSize(BlocksLogged(steps, op), range);
    }
  }
}
