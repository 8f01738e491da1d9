/** What the sections of `pipewrite` and `piperead` under the pipe's lock do, on the buffered bytes. */
module PipeSections {

  const PIPESIZE: nat := 512

  type Byte = b: int | 0 <= b < 256

  /** A call goes on, has gone to sleep in the middle, has returned its count, or has returned -1. */
  datatype Status = Running | Asleep | Done | Failed {
    predicate Ended() {
      Done? || Failed?
    }
  }

  /** How many of `want` bytes a section can write. */
  function Accepted(buf: seq<Byte>, want: nat): (k: nat)
    ensures k <= want
  {
    var room := if |buf| <= PIPESIZE then PIPESIZE - |buf| else 0;
    if want <= room then want else room
  }

  /** After writing what fits: done, given up, or asleep. */
  function WriteStatus(buf: seq<Byte>, want: nat, readopen: bool, killed: bool): Status {
    if Accepted(buf, want) == want then Done else if !readopen || killed then Failed else Asleep
  }

  /** Giving up in the middle is the one way to leave without waking the readers. */
  predicate GivesUp(buf: seq<Byte>, want: nat, readopen: bool, killed: bool) {
    Accepted(buf, want) < want && (!readopen || killed)
  }

  /** A reader waits while the pipe is empty and can still be written. */
  predicate ReadWaits(buf: seq<Byte>, writeopen: bool) {
    buf == [] && writeopen
  }

  function ReadCount(buf: seq<Byte>, n: nat): (k: nat)
    ensures k <= |buf| && k <= n
  {
    if n <= |buf| then n else |buf|
  }
}

/** The ring buffer, with 32-bit counters that wrap. */
module PipeBuffer {
  import opened PipeSections

  const WRAP: nat := 0x1_0000_0000

  /** Byte `j` of the stream is in its place in the ring. */
  predicate InPlace(data: seq<Byte>, sent: seq<Byte>, j: nat)
    requires |data| == PIPESIZE && j < |sent|
  {
    data[j % PIPESIZE] == sent[j]
  }

  lemma Wrapped(r: nat, w: nat)
    requires r <= w <= r + PIPESIZE
    ensures w % WRAP == (r % WRAP + PIPESIZE) % WRAP <==> w == r + PIPESIZE
    ensures w % WRAP == r % WRAP <==> w == r
  {
  }

  /** The size of the ring divides the range of the counters. */
  lemma SamePlace(w: nat)
    ensures w % WRAP % PIPESIZE == w % PIPESIZE && (w % WRAP + 1) % WRAP == (w + 1) % WRAP
  {
  }

  lemma OtherPlace(j: nat, w: nat)
    requires j < w < j + PIPESIZE
    ensures j % PIPESIZE != w % PIPESIZE
  {
  }

  class Pipe {
    const data: array<Byte>
    var nread: nat
    var nwrite: nat
    var readopen: bool
    var writeopen: bool

    /** Every byte ever deposited, and how many of them have been returned. */
    ghost var sent: seq<Byte>
    ghost var returned: nat

    ghost predicate Valid()
      reads this, data
    {
      && data.Length == PIPESIZE
      && returned <= |sent| <= returned + PIPESIZE
      && nread == returned % WRAP && nwrite == |sent| % WRAP
      && forall j: nat :: returned <= j < |sent| ==> InPlace(data[..], sent, j)
    }

    ghost function Buffered(): seq<Byte>
      requires Valid()
      reads this, data
    {
      sent[returned..]
    }

    constructor ()
      ensures Valid() && readopen && writeopen && sent == [] && returned == 0 && fresh(data)
    {
      data := new Byte[PIPESIZE](_ => 0);
      nread, nwrite, readopen, writeopen := 0, 0, true, true;
      sent, returned := [], 0;
    }

    method Deposit(b: Byte)
      requires Valid() && |Buffered()| < PIPESIZE
      modifies `nwrite, `sent, data
      ensures Valid() && sent == old(sent) + [b]
    {
      SamePlace(|sent|);
      ghost var was, w := data[..], |sent|;
      data[nwrite % PIPESIZE] := b;
      nwrite := (nwrite + 1) % WRAP;
      sent := sent + [b];
      assert data[..] == was[w % PIPESIZE := b];
      forall j: nat | returned <= j < |sent| ensures InPlace(data[..], sent, j) {
        if j < w {
          assert InPlace(was, old(sent), j);
          OtherPlace(j, w);
        }
      }
    }

    method Withdraw() returns (b: Byte)
      requires Valid() && Buffered() != []
      modifies `nread, `returned
      ensures Valid() && returned == old(returned) + 1 && b == sent[old(returned)]
    {
      SamePlace(returned);
      assert InPlace(data[..], sent, returned);
      b := data[nread % PIPESIZE];
      nread := (nread + 1) % WRAP;
      returned := returned + 1;
    }

    /** `pipewrite` from byte `from` on, up to its end or the next sleep. */
    method Write(addr: seq<Byte>, from: nat, killed: bool) returns (i: nat, status: Status)
      requires Valid() && from <= |addr|
      modifies `nwrite, `sent, data
      ensures Valid() && i == from + Accepted(old(Buffered()), |addr| - from)
      ensures sent == old(sent) + addr[from..i]
      ensures status == WriteStatus(old(Buffered()), |addr| - from, readopen, killed)
      ensures if i == |addr| then status == Done
        else |Buffered()| == PIPESIZE && status == if readopen && !killed then Asleep else Failed
    {
      i := from;
      while i < |addr|
        invariant Valid() && from <= i <= |addr| && sent == old(sent) + addr[from..i]
        invariant i <= from + Accepted(old(Buffered()), |addr| - from)
      {
        Wrapped(returned, |sent|);
        if nwrite == (nread + PIPESIZE) % WRAP {
          return i, if !readopen || killed then Failed else Asleep;
        }
        Deposit(addr[i]);
        assert addr[from..i + 1] == addr[from..i] + [addr[i]];
        i := i + 1;
      }
      status := Done;
    }

    /** `piperead` up to its end or the next sleep. */
    method Read(n: nat, killed: bool) returns (bytes: seq<Byte>, status: Status)
      requires Valid()
      modifies `nread, `returned
      ensures Valid() && returned == old(returned) + |bytes|
      ensures ReadWaits(old(Buffered()), writeopen) ==> bytes == [] && status == if killed then Failed else Asleep
      ensures !ReadWaits(old(Buffered()), writeopen) ==>
        bytes == old(Buffered())[..ReadCount(old(Buffered()), n)] && status == Done
    {
      bytes := [];
      Wrapped(returned, |sent|);
      if nread == nwrite && writeopen {
        return bytes, if killed then Failed else Asleep;
      }
      ghost var start := returned;
      while |bytes| < n
        invariant Valid() && returned == start + |bytes| && |bytes| <= n
        invariant bytes == sent[start..returned]
      {
        Wrapped(returned, |sent|);
        if nread == nwrite {
          break;
        }
        var b := Withdraw();
        bytes := bytes + [b];
      }
      assert sent[start..][..|bytes|] == sent[start..returned];
      status := Done;
    }
  }
}

/** Any number of readers and writers on one pipe. Each step is one section under the pipe's lock;
    a sleeping call goes on only after a wakeup, or after `kill`. */
module PipeMachine {
  import opened PipeSections

  /** A call of `piperead` for at most `n` bytes that has got `got`. */
  datatype Reader = Reader(n: nat, got: seq<Byte>, status: Status)

  /** A call of `pipewrite` that has written the first `i` bytes of `data`. */
  datatype Writer = Writer(data: seq<Byte>, i: nat, status: Status)

  /** `sent` is every deposited byte with the call it came from; `returned` is every byte read. */
  datatype State = State(
    buf: seq<Byte>,
    readopen: bool,
    writeopen: bool,
    readers: map<nat, Reader>,
    writers: map<nat, Writer>,
    sent: seq<(nat, Byte)>,
    returned: seq<Byte>)

  datatype Step =
    | StartRead(id: nat, n: nat)
    | StartWrite(id: nat, data: seq<Byte>)
    | Read(id: nat, killed: bool)
    | Write(id: nat, killed: bool)
    | KillReader(id: nat)
    | KillWriter(id: nat)
    | CloseRead
    | CloseWrite

  function WakeReaders(readers: map<nat, Reader>): map<nat, Reader> {
    map id | id in readers :: if readers[id].status == Asleep then readers[id].(status := Running) else readers[id]
  }

  function WakeWriters(writers: map<nat, Writer>): map<nat, Writer> {
    map id | id in writers :: if writers[id].status == Asleep then writers[id].(status := Running) else writers[id]
  }

  /** A call in progress holds its end of the pipe open. */
  ghost predicate Enabled(s: State, step: Step) {
    match step
    case StartRead(id, _) => id !in s.readers && s.readopen
    case StartWrite(id, _) => id !in s.writers && s.writeopen
    case Read(id, _) => id in s.readers && s.readers[id].status == Running
    case Write(id, _) => id in s.writers && s.writers[id].status == Running && s.writers[id].i <= |s.writers[id].data|
    case KillReader(id) => id in s.readers && s.readers[id].status == Asleep
    case KillWriter(id) => id in s.writers && s.writers[id].status == Asleep
    case CloseRead => s.readopen && forall id :: id in s.readers ==> s.readers[id].status.Ended()
    case CloseWrite => s.writeopen && forall id :: id in s.writers ==> s.writers[id].status.Ended()
  }

  function Tag(id: nat, bytes: seq<Byte>): seq<(nat, Byte)> {
    seq(|bytes|, j requires 0 <= j < |bytes| => (id, bytes[j]))
  }

  ghost function ReadStep(s: State, id: nat, killed: bool): State
    requires id in s.readers
  {
    var r := s.readers[id];
    if ReadWaits(s.buf, s.writeopen) then
      s.(readers := s.readers[id := r.(status := if killed then Failed else Asleep)])
    else
      var k := ReadCount(s.buf, r.n);
      s.(buf := s.buf[k..], returned := s.returned + s.buf[..k],
         readers := s.readers[id := r.(got := s.buf[..k], status := Done)], writers := WakeWriters(s.writers))
  }

  ghost function WriteStep(s: State, id: nat, killed: bool): State
    requires id in s.writers && s.writers[id].i <= |s.writers[id].data|
  {
    var w := s.writers[id];
    var want := |w.data| - w.i;
    var i := w.i + Accepted(s.buf, want);
    var bytes := w.data[w.i..i];
    s.(buf := s.buf + bytes, sent := s.sent + Tag(id, bytes),
       writers := s.writers[id := w.(i := i, status := WriteStatus(s.buf, want, s.readopen, killed))],
       readers := if GivesUp(s.buf, want, s.readopen, killed) then s.readers else WakeReaders(s.readers))
  }

  ghost function Apply(s: State, step: Step): State
    requires Enabled(s, step)
  {
    match step
    case StartRead(id, n) => s.(readers := s.readers[id := Reader(n, [], Running)])
    case StartWrite(id, data) => s.(writers := s.writers[id := Writer(data, 0, Running)])
    case Read(id, killed) => ReadStep(s, id, killed)
    case Write(id, killed) => WriteStep(s, id, killed)
    case KillReader(id) => s.(readers := s.readers[id := s.readers[id].(status := Running)])
    case KillWriter(id) => s.(writers := s.writers[id := s.writers[id].(status := Running)])
    case CloseRead => s.(readopen := false, writers := WakeWriters(s.writers))
    case CloseWrite => s.(writeopen := false, readers := WakeReaders(s.readers))
  }

  // ---------- Invariants ----------

  /** The bytes of one call, in the order they were deposited. */
  function From(sent: seq<(nat, Byte)>, id: nat): seq<Byte> {
    if sent == [] then []
    else
      var last := sent[|sent| - 1];
      From(sent[..|sent| - 1], id) + if last.0 == id then [last.1] else []
  }

  function Bytes(sent: seq<(nat, Byte)>): (r: seq<Byte>)
    ensures |r| == |sent|
  {
    seq(|sent|, j requires 0 <= j < |sent| => sent[j].1)
  }

  ghost predicate ReaderOk(s: State, id: nat)
    requires id in s.readers
  {
    && (s.readers[id].status == Asleep ==> s.writeopen)
    && (!s.readers[id].status.Ended() ==> s.readopen && s.readers[id].got == [])
  }

  /** A sleeping writer means a full pipe with its read end open. */
  ghost predicate WriterOk(s: State, id: nat)
    requires id in s.writers
  {
    var w := s.writers[id];
    && (w.status == Asleep ==> |s.buf| == PIPESIZE && s.readopen && w.i < |w.data|)
    && (!w.status.Ended() ==> s.writeopen)
    && (w.status == Done ==> w.i == |w.data|)
    && w.i <= |w.data|
  }

  ghost predicate NotBothAsleep(s: State, r: nat, w: nat)
    requires r in s.readers && w in s.writers
  {
    s.readers[r].status == Asleep ==> s.writers[w].status != Asleep
  }

  /** The deposited bytes of each call are the first bytes of its data. */
  ghost predicate OwnOrder(s: State, id: nat) {
    From(s.sent, id) == Written(s.writers, id)
  }

  function Written(writers: map<nat, Writer>, id: nat): seq<Byte> {
    if id in writers && writers[id].i <= |writers[id].data| then writers[id].data[..writers[id].i] else []
  }

  ghost predicate Inv(s: State) {
    && |s.buf| <= PIPESIZE
    && s.returned + s.buf == Bytes(s.sent)
    && (forall id :: id in s.readers ==> ReaderOk(s, id))
    && (forall id :: id in s.writers ==> WriterOk(s, id))
    && (forall r, w :: r in s.readers && w in s.writers ==> NotBothAsleep(s, r, w))
    && (forall id: nat :: OwnOrder(s, id))
  }

  ghost predicate Initial(s: State) {
    s == State([], true, true, map[], map[], [], [])
  }

  lemma InitialInv(s: State)
    requires Initial(s)
    ensures Inv(s)
  {
  }

  lemma {:induction false} FromTagged(sent: seq<(nat, Byte)>, id: nat, bytes: seq<Byte>, other: nat)
    ensures From(sent + Tag(id, bytes), other) == From(sent, other) + if other == id then bytes else []
    decreases |bytes|
  {
    if bytes == [] {
      assert sent + Tag(id, bytes) == sent;
    } else {
      var n := |bytes| - 1;
      FromTagged(sent, id, bytes[..n], other);
      var all := sent + Tag(id, bytes);
      assert all[..|all| - 1] == sent + Tag(id, bytes[..n]) && all[|all| - 1] == (id, bytes[n]);
      assert bytes == bytes[..n] + [bytes[n]];
      assert From(all, other) == From(all[..|all| - 1], other) + if id == other then [bytes[n]] else [];
    }
  }

  lemma WriteKeepsInv(s: State, id: nat, killed: bool)
    requires Inv(s) && Enabled(s, Write(id, killed))
    ensures Inv(WriteStep(s, id, killed))
  {
    var r, w := WriteStep(s, id, killed), s.writers[id];
    var i := w.i + Accepted(s.buf, |w.data| - w.i);
    var bytes := w.data[w.i..i];
    assert Bytes(r.sent) == Bytes(s.sent) + bytes;
    assert WriterOk(s, id);
    forall x | x in r.writers ensures WriterOk(r, x) {
      assert x != id ==> WriterOk(s, x);
    }
    forall x | x in r.readers ensures ReaderOk(r, x) {
      assert ReaderOk(s, x);
    }
    forall x, y | x in r.readers && y in r.writers ensures NotBothAsleep(r, x, y) {
      assert NotBothAsleep(s, x, y);
    }
    forall x: nat ensures OwnOrder(r, x) {
      WriteOrder(s, id, killed, x);
    }
  }

  lemma WriteOrder(s: State, id: nat, killed: bool, x: nat)
    requires OwnOrder(s, x) && Enabled(s, Write(id, killed))
    ensures OwnOrder(WriteStep(s, id, killed), x)
  {
    var r, w := WriteStep(s, id, killed), s.writers[id];
    var bytes := w.data[w.i..w.i + Accepted(s.buf, |w.data| - w.i)];
    FromTagged(s.sent, id, bytes, x);
    MoreWritten(s.writers, id, r.writers[id], x);
    assert r.writers == s.writers[id := r.writers[id]];
  }

  lemma MoreWritten(writers: map<nat, Writer>, id: nat, w: Writer, x: nat)
    requires id in writers && w.data == writers[id].data && writers[id].i <= w.i <= |w.data|
    ensures Written(writers[id := w], x) == Written(writers, x) + if x == id then w.data[writers[id].i..w.i] else []
  {
    assert w.data[..w.i] == w.data[..writers[id].i] + w.data[writers[id].i..w.i];
  }

  lemma ReadKeepsInv(s: State, id: nat, killed: bool)
    requires Inv(s) && Enabled(s, Read(id, killed))
    ensures Inv(ReadStep(s, id, killed))
  {
    var r := ReadStep(s, id, killed);
    var k := ReadCount(s.buf, s.readers[id].n);
    assert s.buf == s.buf[..k] + s.buf[k..];
    assert ReaderOk(s, id);
    forall x | x in r.readers ensures ReaderOk(r, x) {
      assert ReaderOk(s, x);
    }
    forall x | x in r.writers ensures WriterOk(r, x) {
      assert WriterOk(s, x);
    }
    forall x, y | x in r.readers && y in r.writers ensures NotBothAsleep(r, x, y) {
      assert NotBothAsleep(s, x, y) && WriterOk(s, y);
    }
    forall x: nat ensures OwnOrder(r, x) {
      assert OwnOrder(s, x);
    }
  }

  /** The steps that move no bytes. */
  lemma OtherKeepsInv(s: State, step: Step)
    requires Inv(s) && Enabled(s, step) && !step.Read? && !step.Write?
    ensures Inv(Apply(s, step))
  {
    var r := Apply(s, step);
    forall x | x in r.readers ensures ReaderOk(r, x) {
      assert x in s.readers ==> ReaderOk(s, x);
    }
    forall x | x in r.writers ensures WriterOk(r, x) {
      assert x in s.writers ==> WriterOk(s, x);
    }
    forall x, y | x in r.readers && y in r.writers ensures NotBothAsleep(r, x, y) {
      assert x in s.readers && y in s.writers ==> NotBothAsleep(s, x, y);
    }
    forall x: nat ensures OwnOrder(r, x) {
      assert OwnOrder(s, x);
    }
  }

  lemma StepKeepsInv(s: State, step: Step)
    requires Inv(s) && Enabled(s, step)
    ensures Inv(Apply(s, step))
  {
    match step {
      case Read(id, killed) => ReadKeepsInv(s, id, killed);
      case Write(id, killed) => WriteKeepsInv(s, id, killed);
      case _ => OtherKeepsInv(s, step);
    }
  }

  // ---------- Whole runs ----------

  ghost predicate Run(run: seq<State>, steps: seq<Step>) {
    && |run| == |steps| + 1 && Initial(run[0])
    && forall k :: 0 <= k < |steps| ==> StepTo(run[k], steps[k], run[k + 1])
  }

  ghost predicate StepTo(s: State, step: Step, r: State) {
    Enabled(s, step) && r == Apply(s, step)
  }

  lemma {:induction false} InvAlways(run: seq<State>, steps: seq<Step>, k: nat)
    requires Run(run, steps) && k < |run|
    ensures Inv(run[k])
  {
    if k == 0 {
      InitialInv(run[0]);
    } else {
      InvAlways(run, steps, k - 1);
      assert StepTo(run[k - 1], steps[k - 1], run[k - 1 + 1]);
      StepKeepsInv(run[k - 1], steps[k - 1]);
    }
  }

  /** First in, first out: what has been read and what is buffered is what was deposited, in order,
      and each call's bytes come in its own order. */
  lemma Fifo(run: seq<State>, steps: seq<Step>, k: nat, id: nat)
    requires Run(run, steps) && k < |run|
    ensures run[k].returned + run[k].buf == Bytes(run[k].sent)
    ensures id in run[k].writers ==>
      run[k].writers[id].i <= |run[k].writers[id].data|
      && From(run[k].sent, id) == run[k].writers[id].data[..run[k].writers[id].i]
  {
    InvAlways(run, steps, k);
    assert OwnOrder(run[k], id);
    assert id in run[k].writers ==> WriterOk(run[k], id);
  }

  /** Whenever the lock is free, a sleeping writer means a full pipe with its read end open, and no
      reader sleeps at the same time. */
  lemma NeverBothAsleep(run: seq<State>, steps: seq<Step>, k: nat, r: nat, w: nat)
    requires Run(run, steps) && k < |run|
    requires w in run[k].writers && run[k].writers[w].status == Asleep
    ensures |run[k].buf| == PIPESIZE && run[k].readopen
    ensures r in run[k].readers ==> run[k].readers[r].status != Asleep
  {
    InvAlways(run, steps, k);
    assert WriterOk(run[k], w);
    assert r in run[k].readers ==> NotBothAsleep(run[k], r, w);
  }

  // ---------- What calls return ----------

  /** Call `id` of `pipewrite` is the one for `data`. */
  ghost predicate WritesData(s: State, id: nat, data: seq<Byte>) {
    id in s.writers && s.writers[id].data == data
  }

  /** Only its own sections change a call that is not asleep, and none changes its data. */
  lemma WriterKept(s: State, step: Step, id: nat)
    requires Enabled(s, step) && id in s.writers
    ensures id in Apply(s, step).writers && Apply(s, step).writers[id].data == s.writers[id].data
    ensures !(step.Write? && step.id == id) && Apply(s, step).writers[id].status.Ended() ==>
      Apply(s, step).writers[id] == s.writers[id]
  {
  }

  /** A call keeps its data. */
  lemma {:induction false} KeepsData(run: seq<State>, steps: seq<Step>, j: nat, k: nat)
    requires Run(run, steps) && j < k < |run| && steps[j].StartWrite?
    ensures WritesData(run[k], steps[j].id, steps[j].data)
    decreases k
  {
    assert StepTo(run[k - 1], steps[k - 1], run[k - 1 + 1]);
    if j < k - 1 {
      KeepsData(run, steps, j, k - 1);
      WriterKept(run[k - 1], steps[k - 1], steps[j].id);
    }
  }

  /** A section of call `id` that finds the pipe full and has been killed, or has nobody to read it. */
  ghost predicate CutShort(s: State, step: Step, r: State, id: nat) {
    && step.Write? && step.id == id && (step.killed || !s.readopen)
    && |r.buf| == PIPESIZE && id in r.writers && r.writers[id].i < |r.writers[id].data|
  }

  /** What one section of a writer leads to: the end if all bytes are in the pipe, else a full pipe, and
      failure or sleep. */
  lemma WriteOutcome(s: State, id: nat, killed: bool)
    requires Inv(s) && Enabled(s, Write(id, killed))
    ensures var r := WriteStep(s, id, killed);
      && id in r.writers && r.writers[id].data == s.writers[id].data && s.writers[id].i <= r.writers[id].i
      && match r.writers[id].status
         case Done => r.writers[id].i == |r.writers[id].data|
         case Failed => CutShort(s, Write(id, killed), r, id)
         case Asleep => |r.buf| == PIPESIZE && r.writers[id].i < |r.writers[id].data| && !killed && s.readopen
         case Running => false
  {
    assert WriterOk(s, id);
  }

  lemma {:induction false} FailedOnlyIfCut(run: seq<State>, steps: seq<Step>, k: nat, id: nat) returns (j: nat)
    requires Run(run, steps) && k < |run| && id in run[k].writers && run[k].writers[id].status == Failed
    ensures j < k && CutShort(run[j], steps[j], run[j + 1], id) && run[k].writers[id] == run[j + 1].writers[id]
  {
    assert k > 0;
    assert StepTo(run[k - 1], steps[k - 1], run[k - 1 + 1]);
    InvAlways(run, steps, k - 1);
    if steps[k - 1].Write? && steps[k - 1].id == id {
      WriteOutcome(run[k - 1], id, steps[k - 1].killed);
      j := k - 1;
    } else {
      assert id in run[k - 1].writers;
      WriterKept(run[k - 1], steps[k - 1], id);
      j := FailedOnlyIfCut(run, steps, k - 1, id);
    }
  }

  /** A write that returns its count has put all its bytes into the pipe, in order and once. It returns
      -1 only if a section of it found the pipe full after it was killed or the read end was closed. */
  lemma WriterReturns(run: seq<State>, steps: seq<Step>, j: nat, k: nat)
    requires Run(run, steps) && j < k < |run| && steps[j].StartWrite?
    ensures WritesData(run[k], steps[j].id, steps[j].data)
    ensures run[k].writers[steps[j].id].status == Done ==> From(run[k].sent, steps[j].id) == steps[j].data
    ensures run[k].writers[steps[j].id].status == Failed ==>
      && |From(run[k].sent, steps[j].id)| < |steps[j].data|
      && exists i :: 0 <= i < k && CutShort(run[i], steps[i], run[i + 1], steps[j].id)
  {
    var id := steps[j].id;
    KeepsData(run, steps, j, k);
    Fifo(run, steps, k, id);
    InvAlways(run, steps, k);
    assert WriterOk(run[k], id);
    if run[k].writers[id].status == Failed {
      var i := FailedOnlyIfCut(run, steps, k, id);
    }
  }

  /** In particular: never killed, and the read end open all the time, a write returns only when all its
      bytes are in the pipe. */
  lemma LiveWriterSendsAll(run: seq<State>, steps: seq<Step>, j: nat, k: nat)
    requires Run(run, steps) && j < k < |run| && steps[j].StartWrite?
    requires forall i :: 0 <= i < k && steps[i].Write? && steps[i].id == steps[j].id ==> !steps[i].killed && run[i].readopen
    ensures WritesData(run[k], steps[j].id, steps[j].data)
    ensures run[k].writers[steps[j].id].status.Ended() ==> From(run[k].sent, steps[j].id) == steps[j].data
  {
    WriterReturns(run, steps, j, k);
  }

  /** A section of call `id` that returns `got`: the oldest bytes, as many as wanted or all there are;
      none only at the end of the file, when nobody can write any more, or when none were wanted. */
  ghost predicate Returns(s: State, step: Step, r: State, id: nat, n: nat, got: seq<Byte>) {
    && step.Read? && step.id == id
    && s.buf == got + r.buf && r.returned == s.returned + got && |got| <= n
    && (|got| < n ==> r.buf == [])
    && (got == [] && n > 0 ==> !s.writeopen)
  }

  /** A section that gives up: killed, with nothing to read and somebody who could still write. */
  ghost predicate ReadFails(s: State, step: Step, r: State, id: nat) {
    step.Read? && step.id == id && step.killed && s.buf == [] && s.writeopen && r.returned == s.returned
  }

  lemma ReadOutcome(s: State, id: nat, killed: bool)
    requires Inv(s) && Enabled(s, Read(id, killed))
    ensures var r := ReadStep(s, id, killed);
      && id in r.readers && r.readers[id].n == s.readers[id].n
      && match r.readers[id].status
         case Done => Returns(s, Read(id, killed), r, id, r.readers[id].n, r.readers[id].got)
         case Failed => ReadFails(s, Read(id, killed), r, id) && r.readers[id].got == []
         case Asleep => s.buf == [] && s.writeopen && !killed && r.readers[id].got == []
         case Running => false
  {
    assert ReaderOk(s, id);
    var k := ReadCount(s.buf, s.readers[id].n);
    assert s.buf == s.buf[..k] + s.buf[k..];
  }

  /** Every read that has ended: the section that ended it, and what that returned. */
  lemma {:induction false} ReaderReturns(run: seq<State>, steps: seq<Step>, j: nat, k: nat) returns (i: nat)
    requires Run(run, steps) && j < k < |run| && steps[j].StartRead?
    ensures steps[j].id in run[k].readers && run[k].readers[steps[j].id].n == steps[j].n
    ensures var r := run[k].readers[steps[j].id];
      && (r.status.Ended() ==> j < i < k)
      && (r.status == Done ==> Returns(run[i], steps[i], run[i + 1], steps[j].id, steps[j].n, r.got))
      && (r.status == Failed ==> ReadFails(run[i], steps[i], run[i + 1], steps[j].id) && r.got == [])
    decreases k
  {
    var id := steps[j].id;
    assert StepTo(run[k - 1], steps[k - 1], run[k - 1 + 1]);
    i := k - 1;
    if j < k - 1 {
      InvAlways(run, steps, k - 1);
      var i' := ReaderReturns(run, steps, j, k - 1);
      if steps[k - 1].Read? && steps[k - 1].id == id {
        ReadOutcome(run[k - 1], id, steps[k - 1].killed);
      } else {
        i := i';
      }
    }
  }

  /** Killing a sleeper brings its call to an end at the next section: it fails, or returns what has come
      in meanwhile. */
  lemma KilledCallsEnd(s: State, id: nat)
    requires Inv(s)
    ensures Enabled(s, KillReader(id)) ==>
      && Enabled(Apply(s, KillReader(id)), Read(id, true))
      && ReadStep(Apply(s, KillReader(id)), id, true).readers[id].status.Ended()
    ensures Enabled(s, KillWriter(id)) ==>
      && Enabled(Apply(s, KillWriter(id)), Write(id, true))
      && WriteStep(Apply(s, KillWriter(id)), id, true).writers[id].status.Ended()
  {
    if Enabled(s, KillWriter(id)) {
      assert WriterOk(s, id);
    }
  }

  // ---------- Sleeping readers ----------

  ghost predicate SomeReaderSleeps(s: State) {
    exists id :: id in s.readers && s.readers[id].status == Asleep
  }

  /** A sleeping reader means an empty pipe with its write end open. */
  ghost predicate ReadersWaitForBytes(s: State) {
    SomeReaderSleeps(s) ==> s.buf == [] && s.writeopen
  }

  /** A killed writer with more bytes than there is room for leaves bytes behind without a wakeup. */
  ghost predicate LeavesReadersAsleep(s: State, step: Step)
    requires Enabled(s, step)
  {
    && step.Write? && SomeReaderSleeps(s)
    && GivesUp(s.buf, |s.writers[step.id].data| - s.writers[step.id].i, s.readopen, step.killed)
  }

  lemma ReadWaitKept(s: State, id: nat, killed: bool)
    requires Inv(s) && ReadersWaitForBytes(s) && Enabled(s, Read(id, killed))
    ensures ReadersWaitForBytes(ReadStep(s, id, killed))
  {
    var r := ReadStep(s, id, killed);
    if x :| x in r.readers && r.readers[x].status == Asleep {
      assert x != id ==> x in s.readers && s.readers[x].status == Asleep;
    }
  }

  lemma WriteWaitExact(s: State, id: nat, killed: bool)
    requires Inv(s) && ReadersWaitForBytes(s) && Enabled(s, Write(id, killed))
    ensures ReadersWaitForBytes(WriteStep(s, id, killed)) <==> !LeavesReadersAsleep(s, Write(id, killed))
  {
    var r, w := WriteStep(s, id, killed), s.writers[id];
    var want := |w.data| - w.i;
    if GivesUp(s.buf, want, s.readopen, killed) && SomeReaderSleeps(s) {
      var x :| x in s.readers && s.readers[x].status == Asleep;
      assert x in r.readers && r.readers[x].status == Asleep;
    }
  }

  lemma OtherWaitKept(s: State, step: Step)
    requires Inv(s) && ReadersWaitForBytes(s) && Enabled(s, step) && !step.Read? && !step.Write?
    ensures ReadersWaitForBytes(Apply(s, step))
  {
    var r := Apply(s, step);
    if x :| x in r.readers && r.readers[x].status == Asleep {
      assert x in s.readers && s.readers[x].status == Asleep;
    }
  }

  /** "Sleeping readers wait for bytes" is kept by a step exactly when it is not such a write. */
  lemma ReadersWaitExactly(s: State, step: Step)
    requires Inv(s) && ReadersWaitForBytes(s) && Enabled(s, step)
    ensures ReadersWaitForBytes(Apply(s, step)) <==> !LeavesReadersAsleep(s, step)
  {
    match step {
      case Read(id, killed) => ReadWaitKept(s, id, killed);
      case Write(id, killed) => WriteWaitExact(s, id, killed);
      case _ => OtherWaitKept(s, step);
    }
  }

  /** In a run without such writes it holds throughout. */
  lemma {:induction false} ReadersWaitAlways(run: seq<State>, steps: seq<Step>, k: nat)
    requires Run(run, steps) && k < |run|
    requires forall j :: 0 <= j < |steps| && Enabled(run[j], steps[j]) ==> !LeavesReadersAsleep(run[j], steps[j])
    ensures ReadersWaitForBytes(run[k])
  {
    if k > 0 {
      ReadersWaitAlways(run, steps, k - 1);
      InvAlways(run, steps, k - 1);
      assert StepTo(run[k - 1], steps[k - 1], run[k - 1 + 1]);
      ReadersWaitExactly(run[k - 1], steps[k - 1]);
    }
  }

  /** It does not hold in every run: a reader sleeps on the empty pipe, and a killed writer fills it
      and returns. */
  lemma ReaderLeftAsleep(data: seq<Byte>) returns (run: seq<State>, steps: seq<Step>)
    requires |data| > PIPESIZE
    ensures Run(run, steps) && |run[|steps|].buf| == PIPESIZE && SomeReaderSleeps(run[|steps|])
  {
    steps := [StartRead(0, 1), Read(0, false), StartWrite(0, data), Write(0, true)];
    var s0 := State([], true, true, map[], map[], [], []);
    var s1 := Apply(s0, steps[0]);
    var s2 := Apply(s1, steps[1]);
    var s3 := Apply(s2, steps[2]);
    var s4 := Apply(s3, steps[3]);
    run := [s0, s1, s2, s3, s4];
    assert 0 in s4.readers && s4.readers[0].status == Asleep;
  }

  /** Any later section of a writer that does not give up wakes every reader. */
  lemma NextWriterWakes(s: State, id: nat, killed: bool)
    requires Enabled(s, Write(id, killed))
    requires !GivesUp(s.buf, |s.writers[id].data| - s.writers[id].i, s.readopen, killed)
    ensures !SomeReaderSleeps(WriteStep(s, id, killed))
  {
  }
}
