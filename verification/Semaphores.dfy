/** semop() on a System V semaphore set: the operations of one call are applied
    in array order and either all of them take effect or none does. */
module Semaphores {

  datatype SemBuf = SemBuf(num: nat, op: int, nowait: bool)

  datatype Outcome =
    | Done(sems: seq<int>)
    | Blocks      // the caller sleeps, nothing has changed
    | Again       // EAGAIN: IPC_NOWAIT, nothing has changed

  predicate Fits(ops: seq<SemBuf>, size: nat) {
    forall k :: 0 <= k < |ops| ==> ops[k].num < size
  }

  /** A decrement needs a large enough value, a zero operation the value zero. */
  predicate Admits(value: int, op: int) {
    if op < 0 then value + op >= 0 else op == 0 ==> value == 0
  }

  function Semop(sems: seq<int>, ops: seq<SemBuf>): (r: Outcome)
    requires Fits(ops, |sems|)
    ensures r.Done? ==> |r.sems| == |sems|
    decreases |ops|
  {
    if ops == [] then Done(sems)
    else if Admits(sems[ops[0].num], ops[0].op)
    then Semop(sems[ops[0].num := sems[ops[0].num] + ops[0].op], ops[1..])
    else if ops[0].nowait then Again
    else Blocks
  }

  function Delta(ops: seq<SemBuf>, num: nat): int {
    if ops == [] then 0 else (if ops[0].num == num then ops[0].op else 0) + Delta(ops[1..], num)
  }

  /** A completed call adds to every semaphore the sum of its operations and
      leaves no semaphore negative. */
  lemma {:induction false} SemopAdds(sems: seq<int>, ops: seq<SemBuf>, num: nat)
    requires Fits(ops, |sems|) && num < |sems| && sems[num] >= 0
    ensures Semop(sems, ops).Done? ==>
              Semop(sems, ops).sems[num] == sems[num] + Delta(ops, num) >= 0
    decreases |ops|
  {
    if ops != [] && Admits(sems[ops[0].num], ops[0].op) {
      SemopAdds(sems[ops[0].num := sems[ops[0].num] + ops[0].op], ops[1..], num);
    }
  }

  /** Without IPC_NOWAIT the call never reports EAGAIN, with it on every
      operation the call never sleeps. */
  lemma {:induction false} SemopWaits(sems: seq<int>, ops: seq<SemBuf>, nowait: bool)
    requires Fits(ops, |sems|) && forall k :: 0 <= k < |ops| ==> ops[k].nowait == nowait
    ensures Semop(sems, ops) != if nowait then Blocks else Again
    decreases |ops|
  {
    if ops != [] && Admits(sems[ops[0].num], ops[0].op) {
      SemopWaits(sems[ops[0].num := sems[ops[0].num] + ops[0].op], ops[1..], nowait);
    }
  }

  /** A call with two operations, unfolded. */
  lemma SemopTwo(sems: seq<int>, ops: seq<SemBuf>)
    requires |ops| == 2 && Fits(ops, |sems|)
    ensures var a, b := ops[0], ops[1];
            var after := sems[a.num := sems[a.num] + a.op];
            Semop(sems, ops) ==
              if !Admits(sems[a.num], a.op) then (if a.nowait then Again else Blocks)
              else if !Admits(after[b.num], b.op) then (if b.nowait then Again else Blocks)
              else Done(after[b.num := after[b.num] + b.op])
  {
    var a, b := ops[0], ops[1];
    var after := sems[a.num := sems[a.num] + a.op];
    assert ops[1..] == [b] && [b][1..] == [];
    assert Admits(after[b.num], b.op) ==>
        Semop(after, [b]) == Semop(after[b.num := after[b.num] + b.op], []);
  }
}
