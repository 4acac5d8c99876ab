/** What one semop vector means: sums of operations against the values and the
    SEM_UNDO adjustments it starts from. No order of stores, no rollback. */
module SemCore {

  const SEMVMX := 32767
  const SEMAEM := 32767

  /** struct sembuf: IPC_NOWAIT and SEM_UNDO are the two flags it carries. */
  datatype SemBuf = SemBuf(num: nat, op: int, nowait: bool, undo: bool)

  /** What the first `i` operations add to semaphore `n`. */
  ghost function Net(ops: seq<SemBuf>, n: nat, i: nat): int
    requires i <= |ops|
  {
    if i == 0 then 0
    else Net(ops, n, i - 1) + if ops[i - 1].num == n then ops[i - 1].op else 0
  }

  /** The part of `Net` that carried SEM_UNDO. */
  ghost function NetUndo(ops: seq<SemBuf>, n: nat, i: nat): int
    requires i <= |ops|
  {
    if i == 0 then 0
    else NetUndo(ops, n, i - 1) +
         if ops[i - 1].num == n && ops[i - 1].undo then ops[i - 1].op else 0
  }

  ghost function Bump(v: seq<int>, n: nat, d: int): (r: seq<int>)
    ensures |r| == |v|
  {
    if n < |v| then v[n := v[n] + d] else v
  }

  /** The values after the first `i` operations. */
  ghost function Shift(vals: seq<int>, ops: seq<SemBuf>, i: nat): (r: seq<int>)
    requires i <= |ops|
    ensures |r| == |vals|
  {
    if i == 0 then vals else Bump(Shift(vals, ops, i - 1), ops[i - 1].num, ops[i - 1].op)
  }

  /** The adjustments after the first `i` operations: what the process owes. */
  ghost function Owe(adj: seq<int>, ops: seq<SemBuf>, i: nat): (r: seq<int>)
    requires i <= |ops|
    ensures |r| == |adj|
  {
    if i == 0 then adj
    else if ops[i - 1].undo then Bump(Owe(adj, ops, i - 1), ops[i - 1].num, -ops[i - 1].op)
    else Owe(adj, ops, i - 1)
  }

  /** The order of a vector does not show in what it leaves: each value and
      each adjustment moves by the sum of its own operations. */
  lemma {:induction false} ShiftIsSum(vals: seq<int>, ops: seq<SemBuf>, i: nat, n: nat)
    requires i <= |ops| && n < |vals|
    ensures Shift(vals, ops, i)[n] == vals[n] + Net(ops, n, i)
    ensures Owe(vals, ops, i)[n] == vals[n] - NetUndo(ops, n, i)
  {
    if i > 0 { ShiftIsSum(vals, ops, i - 1, n); }
  }

  /** A ledger entry moves only with the operations nobody will undo. */
  ghost function Plain(l: seq<int>, ops: seq<SemBuf>, i: nat): (r: seq<int>)
    requires i <= |ops|
    ensures |r| == |l|
  {
    if i == 0 then l
    else if ops[i - 1].undo then Plain(l, ops, i - 1)
    else Bump(Plain(l, ops, i - 1), ops[i - 1].num, ops[i - 1].op)
  }

  lemma {:induction false} PlainIsSum(l: seq<int>, ops: seq<SemBuf>, i: nat, n: nat)
    requires i <= |ops| && n < |l|
    ensures Plain(l, ops, i)[n] == l[n] + Net(ops, n, i) - NetUndo(ops, n, i)
  {
    if i > 0 { PlainIsSum(l, ops, i - 1, n); }
  }

  /** sempid after a commit: every semaphore the vector names, zero operations
      included, carries the caller's pid. */
  function Stamp(lpid: seq<int>, ops: seq<SemBuf>, i: nat, pid: int): (r: seq<int>)
    requires i <= |ops|
    ensures |r| == |lpid|
    ensures forall n :: 0 <= n < |lpid| ==>
      r[n] == if exists j :: 0 <= j < i && ops[j].num == n then pid else lpid[n]
  {
    if i == 0 then lpid
    else
      var r := Stamp(lpid, ops, i - 1, pid);
      if ops[i - 1].num < |r| then r[ops[i - 1].num := pid] else r
  }

  function Clamp(v: int): (c: int)
    ensures 0 <= c <= 32767 && (c < v ==> c == 32767) && (c > v ==> c == 0)
  {
    if v < 0 then 0 else if v > SEMVMX then SEMVMX else v
  }

  datatype Verdict = Go | Block | Again | Range

  /** Whether one operation can proceed at value `v` and adjustment `a`. */
  function Judge(v: int, a: int, o: SemBuf): Verdict {
    if (o.op == 0 && v != 0) || v + o.op < 0 then
      if o.nowait then Again else Block
    else if v + o.op > SEMVMX then Range
    else if o.undo && !(-SEMAEM - 1 <= a - o.op <= SEMAEM) then Range
    else Go
  }

  predicate InSet(ops: seq<SemBuf>, nsems: nat) {
    forall i :: 0 <= i < |ops| ==> ops[i].num < nsems
  }

  ghost function VerdictAt(vals: seq<int>, adj: seq<int>, ops: seq<SemBuf>, i: nat): Verdict
    requires |vals| == |adj| && InSet(ops, |vals|) && i < |ops|
  {
    var n := ops[i].num;
    Judge(vals[n] + Net(ops, n, i), adj[n] - NetUndo(ops, n, i), ops[i])
  }

  /** The first `k` operations of the vector all proceed. */
  ghost predicate Reaches(vals: seq<int>, adj: seq<int>, ops: seq<SemBuf>, k: nat)
    requires |vals| == |adj| && InSet(ops, |vals|)
  {
    k <= |ops| && forall j :: 0 <= j < k ==> VerdictAt(vals, adj, ops, j) == Go
  }

  /** The vector sleeps, and operation `at` is the one it sleeps on. */
  ghost predicate SleepsAt(vals: seq<int>, adj: seq<int>, ops: seq<SemBuf>, at: nat)
    requires |vals| == |adj| && InSet(ops, |vals|)
  {
    at < |ops| && Reaches(vals, adj, ops, at) && VerdictAt(vals, adj, ops, at) == Block
  }

  ghost predicate ValsOk(vals: seq<int>) {
    forall n :: 0 <= n < |vals| ==> 0 <= vals[n] <= SEMVMX
  }

  ghost predicate AdjOk(adj: seq<int>) {
    forall n :: 0 <= n < |adj| ==> -SEMAEM - 1 <= adj[n] <= SEMAEM
  }

  /** A store of 16 bits, as the value vector (u16) and the row (s16) take it. */
  function U16(x: int): int { x % 0x1_0000 }
  function S16(x: int): int { (x + 0x8000) % 0x1_0000 - 0x8000 }

  lemma {:induction false} BumpBack(v: seq<int>, n: nat, d: int)
    ensures Bump(Bump(v, n, d), n, -d) == v
  {}

  /** Every value a proceeding prefix passes through is a semaphore value, and
      every adjustment fits the 16 bits it is kept in. */
  lemma {:induction false} PrefixInRange(vals: seq<int>, adj: seq<int>, ops: seq<SemBuf>, k: nat)
    requires |vals| == |adj| && InSet(ops, |vals|) && Reaches(vals, adj, ops, k)
    requires ValsOk(vals) && AdjOk(adj)
    ensures ValsOk(Shift(vals, ops, k)) && AdjOk(Owe(adj, ops, k))
  {
    if k == 0 {
    } else {
      assert Reaches(vals, adj, ops, k - 1);
      PrefixInRange(vals, adj, ops, k - 1);
      ShiftIsSum(vals, ops, k - 1, ops[k - 1].num);
      ShiftIsSum(adj, ops, k - 1, ops[k - 1].num);
      assert VerdictAt(vals, adj, ops, k - 1) == Go;
    }
  }

  /** What a vector does is a sum, so it is refused by the running total even
      where each operation would fit alone: +32767 UNDO, -32767, +32767 UNDO. */
  lemma {:induction false} CumulativeUndoIsRefused()
    ensures var up, down := SemBuf(0, 32767, false, true), SemBuf(0, -32767, false, false);
            var ops := [up, down, up];
            && VerdictAt([0], [0], [up], 0) == Go && VerdictAt([32767], [0], [down], 0) == Go
            && Reaches([0], [0], ops, 2) && VerdictAt([0], [0], ops, 2) == Range
  {
    var up, down := SemBuf(0, 32767, false, true), SemBuf(0, -32767, false, false);
    var ops := [up, down, up];
    assert Net(ops, 0, 0) == 0 && NetUndo(ops, 0, 0) == 0;
    assert Net(ops, 0, 1) == 32767 && NetUndo(ops, 0, 1) == 32767;
    assert Net(ops, 0, 2) == 0 && NetUndo(ops, 0, 2) == 32767;
    assert VerdictAt([0], [0], ops, 0) == Go && VerdictAt([0], [0], ops, 1) == Go;
  }
}
