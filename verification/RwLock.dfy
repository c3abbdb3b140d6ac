/** The two readers/writers protocols made of single semop calls:
    lab_sockets/lab_03/mt/server.c and sem_05/lab_03/reader-writer/main.c. Both
    implement one lock: any number of readers, or one writer. */
module RwLock {
  import opened Semaphores
  import opened Tally

  datatype Protocol =
    | Letters    // mt/server.c
    | Shm        // reader-writer/main.c

  datatype Call = StartRead | StopRead | StartWrite | StopWrite

  // mt/server.c
  const READER_QUEUE := 0
  const WRITER_QUEUE := 1
  const READER := 2
  const WRITER := 3
  const SHADOW_WRITER := 4

  // reader-writer/main.c
  const COUNT_ACTIVE_READERS := 0
  const ACTIVE_WRITER := 1
  const READ_COUNT := 2
  const WRITE_COUNT := 3

  function Op(num: nat, op: int): SemBuf {
    SemBuf(num, op, false)
  }

  /** The operation arrays as the two programs declare them. */
  function Ops(protocol: Protocol, call: Call): seq<SemBuf> {
    match (protocol, call)
    case (Letters, StartRead) =>
      [Op(READER_QUEUE, 1), Op(WRITER_QUEUE, 0), Op(SHADOW_WRITER, 0), Op(READER, 1), Op(READER_QUEUE, -1)]
    case (Letters, StopRead) => [Op(READER, -1)]
    case (Letters, StartWrite) =>
      [Op(WRITER_QUEUE, 1), Op(READER, 0), Op(WRITER, -1), Op(SHADOW_WRITER, 1), Op(WRITER_QUEUE, -1)]
    case (Letters, StopWrite) => [Op(SHADOW_WRITER, -1), Op(WRITER, 1)]
    case (Shm, StartRead) =>
      [Op(READ_COUNT, 1), Op(ACTIVE_WRITER, 0), Op(WRITE_COUNT, 0), Op(COUNT_ACTIVE_READERS, 1), Op(READ_COUNT, -1)]
    case (Shm, StopRead) => [Op(COUNT_ACTIVE_READERS, -1)]
    case (Shm, StartWrite) =>
      [Op(WRITE_COUNT, 1), Op(COUNT_ACTIVE_READERS, 0), Op(ACTIVE_WRITER, 0), Op(ACTIVE_WRITER, 1), Op(WRITE_COUNT, -1)]
    case (Shm, StopWrite) => [Op(ACTIVE_WRITER, -1)]
  }

  /** The semaphore values that stand for r active readers and w active
      writers: every queue semaphore is zero. */
  function Encode(protocol: Protocol, r: int, w: int): seq<int> {
    match protocol
    case Letters => [0, 0, r, 1 - w, w]
    case Shm => [r, w, 0, 0]
  }

  /** One operation of a call that is still going through. */
  lemma Unfold(sems: seq<int>, op: SemBuf, rest: seq<SemBuf>)
    requires op.num < |sems| && Fits(rest, |sems|)
    ensures Fits([op] + rest, |sems|)
    ensures Semop(sems, [op] + rest) ==
            if Admits(sems[op.num], op.op) then Semop(sems[op.num := sems[op.num] + op.op], rest)
            else if op.nowait then Again else Blocks
  {
    assert ([op] + rest)[1..] == rest;
  }

  /** The last two operations of a start call. */
  lemma LastTwo(sems: seq<int>, queue: nat, c: SemBuf, last: seq<SemBuf>)
    requires queue < |sems| && c.num < |sems| && sems[queue] == 1
    requires c.num != queue && c.op > 0 && last == [Op(queue, -1)] + []
    ensures Fits([c] + last, |sems|)
    ensures Semop(sems, [c] + last) == Done(sems[c.num := sems[c.num] + c.op][queue := 0])
  {
    Unfold(sems[c.num := sems[c.num] + c.op], Op(queue, -1), []);
    Unfold(sems, c, last);
  }

  /** The last three operations of a start call. */
  lemma LastThree(sems: seq<int>, queue: nat, b: SemBuf, c: SemBuf, two: seq<SemBuf>)
    requires queue < |sems| && b.num < |sems| && c.num < |sems| && sems[queue] == 1
    requires b.num != queue && c.num != queue && !b.nowait && c.op > 0
    requires two == [c] + ([Op(queue, -1)] + [])
    ensures var after := sems[b.num := sems[b.num] + b.op];
            && Fits([b] + two, |sems|)
            && Semop(sems, [b] + two) ==
               if !Admits(sems[b.num], b.op) then Blocks
               else Done(after[c.num := after[c.num] + c.op][queue := 0])
  {
    LastTwo(sems[b.num := sems[b.num] + b.op], queue, c, [Op(queue, -1)] + []);
    Unfold(sems, b, two);
  }

  /** Adding to other places and taking the one in the queue back. */
  lemma TakenBack(sems: seq<int>, queue: nat, b: SemBuf, c: SemBuf)
    requires queue < |sems| && b.num < |sems| && c.num < |sems| && sems[queue] == 0
    requires b.num != queue && c.num != queue
    ensures var after := sems[b.num := sems[b.num] + b.op];
            var after1 := sems[queue := 1][b.num := sems[b.num] + b.op];
            after1[c.num := after1[c.num] + c.op][queue := 0] == after[c.num := after[c.num] + c.op]
  {}

  /** The first two operations of a start call. */
  lemma FirstTwo(sems: seq<int>, queue: nat, a: SemBuf, rest: seq<SemBuf>)
    requires queue < |sems| && a.num < |sems| && sems[queue] == 0
    requires a.num != queue && a.op == 0 && !a.nowait && Fits(rest, |sems|)
    ensures Fits([Op(queue, 1)] + ([a] + rest), |sems|)
    ensures Semop(sems, [Op(queue, 1)] + ([a] + rest)) ==
            if sems[a.num] != 0 then Blocks else Semop(sems[queue := 1], rest)
  {
    var s1 := sems[queue := 1];
    Unfold(s1, a, rest);
    Unfold(sems, Op(queue, 1), [a] + rest);
    assert s1[a.num := s1[a.num]] == s1;
  }

  /** A five-step start call succeeds exactly when its two tests do, and then
      only its net effect is left: the first operation is taken back. */
  lemma FiveOps(sems: seq<int>, queue: nat, a: SemBuf, b: SemBuf, c: SemBuf, ops: seq<SemBuf>)
    requires queue < |sems| && sems[queue] == 0
    requires a.num < |sems| && b.num < |sems| && c.num < |sems|
    requires a.num != queue && b.num != queue && c.num != queue && a.op == 0
    requires !a.nowait && !b.nowait && c.op > 0
    requires ops == [Op(queue, 1), a, b, c, Op(queue, -1)]
    ensures Fits(ops, |sems|)
    ensures Semop(sems, ops) ==
            if sems[a.num] != 0 || !Admits(sems[b.num], b.op) then Blocks
            else var after := sems[b.num := sems[b.num] + b.op]; Done(after[c.num := after[c.num] + c.op])
  {
    var two := [c] + ([Op(queue, -1)] + []);
    LastThree(sems[queue := 1], queue, b, c, two);
    FirstTwo(sems, queue, a, [b] + two);
    assert ops == [Op(queue, 1)] + ([a] + ([b] + two));
    TakenBack(sems, queue, b, c);
  }

  /** Who may go in: the meaning of the lock. */
  predicate Admitted(r: int, w: int, call: Call) {
    match call
    case StartRead => w == 0
    case StartWrite => r == 0 && w == 0
    case _ => true
  }

  function Readers(r: int, call: Call): int {
    match call case StartRead => r + 1 case StopRead => r - 1 case _ => r
  }

  function Writers(w: int, call: Call): int {
    match call case StartWrite => w + 1 case StopWrite => w - 1 case _ => w
  }

  /** Both encodings implement the lock: a call succeeds exactly when the lock
      admits it, it counts the caller in or out, and it leaves every queue
      semaphore at zero, so that waiting for one never blocks. */
  lemma CallEffect(protocol: Protocol, r: nat, w: nat, call: Call)
    requires w <= 1 && (call.StopRead? ==> r > 0) && (call.StopWrite? ==> w > 0)
    ensures Fits(Ops(protocol, call), |Encode(protocol, r, w)|)
    ensures Semop(Encode(protocol, r, w), Ops(protocol, call)) ==
            if Admitted(r, w, call) then Done(Encode(protocol, Readers(r, call), Writers(w, call))) else Blocks
  {
    match call {
      case StartRead => StartReadEffect(protocol, r, w);
      case StartWrite => StartWriteEffect(protocol, r, w);
      case StopRead => StopEffect(protocol, r, w, call);
      case StopWrite => StopEffect(protocol, r, w, call);
    }
  }

  lemma StartReadEffect(protocol: Protocol, r: nat, w: nat)
    requires w <= 1
    ensures Fits(Ops(protocol, StartRead), |Encode(protocol, r, w)|)
    ensures Semop(Encode(protocol, r, w), Ops(protocol, StartRead)) ==
            if w == 0 then Done(Encode(protocol, r + 1, w)) else Blocks
  {
    var sems := Encode(protocol, r, w);
    match protocol
    case Letters =>
      FiveOps(sems, READER_QUEUE, Op(WRITER_QUEUE, 0), Op(SHADOW_WRITER, 0), Op(READER, 1), Ops(protocol, StartRead));
      assert sems[SHADOW_WRITER := w][READER := r + 1] == Encode(protocol, r + 1, w);
    case Shm =>
      FiveOps(sems, READ_COUNT, Op(ACTIVE_WRITER, 0), Op(WRITE_COUNT, 0), Op(COUNT_ACTIVE_READERS, 1),
              Ops(protocol, StartRead));
      assert sems[WRITE_COUNT := 0][COUNT_ACTIVE_READERS := r + 1] == Encode(protocol, r + 1, w);
  }

  lemma StartWriteEffect(protocol: Protocol, r: nat, w: nat)
    requires w <= 1
    ensures Fits(Ops(protocol, StartWrite), |Encode(protocol, r, w)|)
    ensures Semop(Encode(protocol, r, w), Ops(protocol, StartWrite)) ==
            if r == 0 && w == 0 then Done(Encode(protocol, r, w + 1)) else Blocks
  {
    var sems := Encode(protocol, r, w);
    match protocol
    case Letters =>
      FiveOps(sems, WRITER_QUEUE, Op(READER, 0), Op(WRITER, -1), Op(SHADOW_WRITER, 1), Ops(protocol, StartWrite));
      assert sems[WRITER := 1 - w - 1][SHADOW_WRITER := w + 1] == Encode(protocol, r, w + 1);
    case Shm =>
      FiveOps(sems, WRITE_COUNT, Op(COUNT_ACTIVE_READERS, 0), Op(ACTIVE_WRITER, 0), Op(ACTIVE_WRITER, 1),
              Ops(protocol, StartWrite));
      assert sems[ACTIVE_WRITER := w][ACTIVE_WRITER := w + 1] == Encode(protocol, r, w + 1);
  }

  lemma StopEffect(protocol: Protocol, r: nat, w: nat, call: Call)
    requires w <= 1 && ((call.StopRead? && r > 0) || (call.StopWrite? && w > 0))
    ensures Fits(Ops(protocol, call), |Encode(protocol, r, w)|)
    ensures Semop(Encode(protocol, r, w), Ops(protocol, call))
            == Done(Encode(protocol, Readers(r, call), Writers(w, call)))
  {
    var sems, ops := Encode(protocol, r, w), Ops(protocol, call);
    assert ops == [ops[0]] + ops[1..];
    Unfold(sems, ops[0], ops[1..]);
    var s1 := sems[ops[0].num := sems[ops[0].num] + ops[0].op];
    if |ops| == 2 {
      assert ops[1..] == [ops[1]] + [];
      Unfold(s1, ops[1], []);
      assert s1[ops[1].num := s1[ops[1].num] + ops[1].op] == Encode(protocol, Readers(r, call), Writers(w, call));
    } else {
      assert s1 == Encode(protocol, Readers(r, call), Writers(w, call));
    }
  }

  // ---- The lock among threads ----

  /** The semaphores count the threads inside, and a writer is alone. */
  predicate LockInv<T>(protocol: Protocol, sems: seq<int>, pcs: seq<T>, reading: T -> nat, writing: T -> nat) {
    var r, w := Total(pcs, reading), Total(pcs, writing);
    sems == Encode(protocol, r, w) && w <= 1 && (w == 0 || r == 0)
  }

  /** A completed call that moves thread t in or out keeps the lock invariant. */
  lemma CallKeepsLock<T>(protocol: Protocol, sems: seq<int>, pcs: seq<T>, t: nat, pc: T,
                         reading: T -> nat, writing: T -> nat, call: Call)
    requires LockInv(protocol, sems, pcs, reading, writing) && t < |pcs|
    requires reading(pc) == Readers(reading(pcs[t]), call) && writing(pc) == Writers(writing(pcs[t]), call)
    ensures Fits(Ops(protocol, call), |sems|)
    ensures Semop(sems, Ops(protocol, call)).Done? ==>
              LockInv(protocol, Semop(sems, Ops(protocol, call)).sems, pcs[t := pc], reading, writing)
    ensures Semop(sems, Ops(protocol, call)).Done?
            <==> Admitted(Total(pcs, reading), Total(pcs, writing), call)
  {
    TotalUpdate(pcs, t, pc, reading);
    TotalUpdate(pcs, t, pc, writing);
    TotalCovers(pcs, t, t, reading);
    TotalCovers(pcs, t, t, writing);
    CallEffect(protocol, Total(pcs, reading), Total(pcs, writing), call);
  }

  lemma MoveKeepsLock<T>(protocol: Protocol, sems: seq<int>, pcs: seq<T>, t: nat, pc: T,
                         reading: T -> nat, writing: T -> nat)
    requires LockInv(protocol, sems, pcs, reading, writing) && t < |pcs|
    requires reading(pc) == reading(pcs[t]) && writing(pc) == writing(pcs[t])
    ensures LockInv(protocol, sems, pcs[t := pc], reading, writing)
  {
    TotalUpdate(pcs, t, pc, reading);
    TotalUpdate(pcs, t, pc, writing);
  }

  /** A writer excludes everyone. */
  lemma WriterAlone<T>(protocol: Protocol, sems: seq<int>, pcs: seq<T>, t: nat, reading: T -> nat, writing: T -> nat)
    requires LockInv(protocol, sems, pcs, reading, writing) && t < |pcs| && writing(pcs[t]) > 0
    ensures forall u :: 0 <= u < |pcs| ==> reading(pcs[u]) == 0
    ensures forall u :: 0 <= u < |pcs| && u != t ==> writing(pcs[u]) == 0
  {
    TotalSole(pcs, t, writing);
    forall u | 0 <= u < |pcs|
      ensures reading(pcs[u]) == 0
    {
      TotalCovers(pcs, u, u, reading);
    }
  }
}
