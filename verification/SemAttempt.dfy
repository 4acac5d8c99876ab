/** One attempt at a semop vector, as the daemon makes it: store by store
    against the set's values and the process's adjustments, with the applied
    prefix taken back when an operation cannot proceed. */
module SemAttempt {
  import opened Errno
  import opened SemCore

  /** What one attempt at a semop vector comes to. */
  datatype Try = Done | Blocked(at: nat) | Refused(errno: int)

  ghost predicate UndoFree(ops: seq<SemBuf>, i: nat)
    requires i <= |ops|
  {
    forall j :: 0 <= j < i ==> !ops[j].undo
  }

  lemma {:induction false} NoUndoOwesNothing(adj: seq<int>, ops: seq<SemBuf>, i: nat)
    requires i <= |ops| && UndoFree(ops, i)
    ensures Owe(adj, ops, i) == adj
  {
    if i > 0 {
      NoUndoOwesNothing(adj, ops, i - 1);
    }
  }

  lemma {:induction false} NoUndoNetsZero(ops: seq<SemBuf>, n: nat, i: nat)
    requires i <= |ops| && UndoFree(ops, i)
    ensures NetUndo(ops, n, i) == 0
  {
    if i > 0 { NoUndoNetsZero(ops, n, i - 1); }
  }

  /** Operation `i` is what refuses the vector, and this is its errno. */
  ghost predicate Refuses(vals: seq<int>, adj: seq<int>, ops: seq<SemBuf>, i: nat, errno: int, row: bool)
    requires |vals| == |adj| && InSet(ops, |vals|) && i < |ops|
  {
    match VerdictAt(vals, adj, ops, i)
    case Again => errno == EAGAIN
    case Range => errno == ERANGE || (errno == ENOMEM && ops[i].undo && !row)
    case Go => errno == ENOMEM && ops[i].undo && !row
    case Block => false
  }

  // ---- what a vector comes to, in values and sums ----

  /** Operation `i` finds its semaphore at `v`, as the operations before it left it. */
  ghost function Found(vals: seq<int>, ops: seq<SemBuf>, i: nat): int
    requires InSet(ops, |vals|) && i < |ops|
  {
    vals[ops[i].num] + Net(ops, ops[i].num, i)
  }

  /** It would take more than there is, or waits for a zero that is not there. */
  ghost predicate MustWait(vals: seq<int>, ops: seq<SemBuf>, i: nat)
    requires InSet(ops, |vals|) && i < |ops|
  {
    Found(vals, ops, i) + ops[i].op < 0 || (ops[i].op == 0 && Found(vals, ops, i) != 0)
  }

  /** The process's adjustment takes it. */
  ghost predicate Adjusts(adj: seq<int>, ops: seq<SemBuf>, i: nat)
    requires InSet(ops, |adj|) && i < |ops|
  {
    -32768 <= adj[ops[i].num] - NetUndo(ops, ops[i].num, i) - ops[i].op <= 32767
  }

  /** It goes through: the value after it is a semaphore's, one that is nothing added
      is at zero, and one to be undone has a row that takes it. */
  ghost predicate MayGo(vals: seq<int>, adj: seq<int>, ops: seq<SemBuf>, i: nat, row: bool)
    requires |vals| == |adj| && InSet(ops, |vals|) && i < |ops|
  {
    && 0 <= Found(vals, ops, i) + ops[i].op <= 32767 && (ops[i].op == 0 ==> Found(vals, ops, i) == 0)
    && (ops[i].undo ==> row && Adjusts(adj, ops, i))
  }

  ghost predicate AllGo(vals: seq<int>, adj: seq<int>, ops: seq<SemBuf>, k: nat, row: bool)
    requires |vals| == |adj| && InSet(ops, |vals|) && k <= |ops|
  {
    forall j :: 0 <= j < k ==> MayGo(vals, adj, ops, j, row)
  }

  /** Operation `i` stops the vector, with this. */
  ghost predicate StopsWith(vals: seq<int>, adj: seq<int>, ops: seq<SemBuf>, i: nat, row: bool, r: Try)
    requires |vals| == |adj| && InSet(ops, |vals|)
  {
    && i < |ops| && AllGo(vals, adj, ops, i, row)
    && var high := Found(vals, ops, i) + ops[i].op > 32767;
       if MustWait(vals, ops, i) then r == if ops[i].nowait then Refused(EAGAIN) else Blocked(i)
       else if !high && ops[i].undo && !row then r == Refused(ENOMEM)
       else r == Refused(ERANGE) && (high || (ops[i].undo && !Adjusts(adj, ops, i)))
  }

  /** What the attempt comes to. `row`: a row is there, or can be had. */
  ghost predicate Outcome(vals: seq<int>, adj: seq<int>, ops: seq<SemBuf>, row: bool, r: Try)
    requires |vals| == |adj|
  {
    if !InSet(ops, |vals|) then r == Refused(EFBIG)
    else if AllGo(vals, adj, ops, |ops|, row) then r == Done
    else exists i: nat :: StopsWith(vals, adj, ops, i, row, r)
  }

  /** There is one outcome. */
  lemma {:induction false} OneOutcome(vals: seq<int>, adj: seq<int>, ops: seq<SemBuf>, row: bool, r: Try, r': Try)
    requires |vals| == |adj| && Outcome(vals, adj, ops, row, r) && Outcome(vals, adj, ops, row, r')
    ensures r == r'
  {
    if InSet(ops, |vals|) && !AllGo(vals, adj, ops, |ops|, row) {
      var i: nat :| StopsWith(vals, adj, ops, i, row, r);
      var j: nat :| StopsWith(vals, adj, ops, j, row, r');
      StopFails(vals, adj, ops, i, row, r);
      StopFails(vals, adj, ops, j, row, r');
    }
  }

  lemma {:induction false} StopFails(vals: seq<int>, adj: seq<int>, ops: seq<SemBuf>, i: nat, row: bool, r: Try)
    requires |vals| == |adj| && InSet(ops, |vals|) && StopsWith(vals, adj, ops, i, row, r)
    ensures !MayGo(vals, adj, ops, i, row)
  {
  }

  /** A wait for zero, at 5 and at 0. */
  lemma {:induction false} WaitForZero()
    ensures Outcome([5], [0], [SemBuf(0, 0, false, false)], true, Blocked(0))
    ensures Outcome([5], [0], [SemBuf(0, 0, true, false)], true, Refused(EAGAIN))
    ensures Outcome([0], [0], [SemBuf(0, 0, false, false)], true, Done)
  {
    var wait, ask := [SemBuf(0, 0, false, false)], [SemBuf(0, 0, true, false)];
    assert Net(wait, 0, 0) == 0 && Net(ask, 0, 0) == 0;
    assert StopsWith([5], [0], wait, 0, true, Blocked(0)) && !MayGo([5], [0], wait, 0, true);
    assert StopsWith([5], [0], ask, 0, true, Refused(EAGAIN)) && !MayGo([5], [0], ask, 0, true);
    assert MayGo([0], [0], wait, 0, true);
  }

  /** A vector that sleeps does so on an operation that must wait, and may. */
  lemma {:induction false} SleepMeans(vals: seq<int>, adj: seq<int>, ops: seq<SemBuf>, at: nat)
    requires |vals| == |adj| && InSet(ops, |vals|) && SleepsAt(vals, adj, ops, at)
    ensures MustWait(vals, ops, at) && !ops[at].nowait && AllGo(vals, adj, ops, at, true)
  {
    ReachMeans(vals, adj, ops, at);
  }

  lemma {:induction false} ReachMeans(vals: seq<int>, adj: seq<int>, ops: seq<SemBuf>, k: nat)
    requires |vals| == |adj| && InSet(ops, |vals|) && Reaches(vals, adj, ops, k)
    ensures AllGo(vals, adj, ops, k, true)
  {
    forall j | 0 <= j < k ensures MayGo(vals, adj, ops, j, true) { assert VerdictAt(vals, adj, ops, j) == Go; }
  }

  lemma {:induction false} RefuseMeans(vals: seq<int>, adj: seq<int>, ops: seq<SemBuf>, i: nat, errno: int, row: bool)
    requires |vals| == |adj| && InSet(ops, |vals|) && i < |ops| && Refuses(vals, adj, ops, i, errno, row)
    ensures errno == EAGAIN ==> MustWait(vals, ops, i) && ops[i].nowait
    ensures errno == ENOMEM ==> !MustWait(vals, ops, i) && ops[i].undo && !row
    ensures errno == ERANGE ==> !MayGo(vals, adj, ops, i, true) && !MustWait(vals, ops, i)
    ensures errno in {EAGAIN, ENOMEM, ERANGE}
  {
  }

  lemma {:induction false} Fit16(x: int)
    ensures 0 <= x <= SEMVMX ==> U16(x) == x
    ensures -SEMAEM - 1 <= x <= SEMAEM ==> S16(x) == x
  {}

  /** The applying half: operations in order against the live values and
      adjustments, up to the first that cannot proceed. */
  method Apply(val0: seq<int>, adj0: seq<int>, hasRow: bool, mayBeMade: bool, ops: seq<SemBuf>)
    returns (r: Try, i: nat, val: seq<int>, adj: seq<int>, made: bool)
    requires |adj0| == |val0| && ValsOk(val0) && AdjOk(adj0) && InSet(ops, |val0|)
    ensures i <= |ops| && Reaches(val0, adj0, ops, i)
    ensures val == Shift(val0, ops, i) && adj == Owe(adj0, ops, i)
    ensures r == Done ==> i == |ops|
    ensures r.Blocked? ==> i == r.at && SleepsAt(val0, adj0, ops, i)
    ensures r.Refused? ==> i < |ops| && Refuses(val0, adj0, ops, i, r.errno, hasRow || mayBeMade)
    ensures made ==> !hasRow && mayBeMade
    ensures !made && !hasRow ==> UndoFree(ops, i)
    ensures if r == Done then AllGo(val0, adj0, ops, |ops|, hasRow || mayBeMade)
            else StopsWith(val0, adj0, ops, i, hasRow || mayBeMade, r)
  {
    val, adj, made := val0, adj0, false;
    i := 0;
    while i < |ops|
      invariant i <= |ops|
      invariant Reaches(val0, adj0, ops, i)
      invariant val == Shift(val0, ops, i) && adj == Owe(adj0, ops, i)
      invariant made ==> !hasRow && mayBeMade
      invariant !made && !hasRow ==> UndoFree(ops, i)
      invariant AllGo(val0, adj0, ops, i, hasRow || mayBeMade)
    {
      var o := ops[i];
      var v := val[o.num] + o.op;
      PrefixInRange(val0, adj0, ops, i);
      ShiftIsSum(val0, ops, i, o.num);
      ShiftIsSum(adj0, ops, i, o.num);
      if (o.op == 0 && val[o.num] != 0) || v < 0 {
        r := if o.nowait then Refused(EAGAIN) else Blocked(i);
        return;
      }
      if v > SEMVMX {
        r := Refused(ERANGE);
        return;
      }
      if o.undo {
        if !hasRow && !made {
          if !mayBeMade {
            r := Refused(ENOMEM);
            return;
          }
          made := true;
        }
        var a := adj[o.num] - o.op;
        if a < -SEMAEM - 1 || a > SEMAEM {
          r := Refused(ERANGE);
          return;
        }
        Fit16(a);
        adj := adj[o.num := S16(a)];
      }
      Fit16(v);
      val := val[o.num := U16(v)];
      i := i + 1;
    }
    r := Done;
  }

  /** The rollback: the applied prefix taken back, last operation first. */
  method TakeBack(val0: seq<int>, adj0: seq<int>, row: bool, ops: seq<SemBuf>, applied: nat,
                  live: seq<int>, owed: seq<int>)
    returns (val: seq<int>, adj: seq<int>)
    requires |adj0| == |val0| && ValsOk(val0) && AdjOk(adj0) && InSet(ops, |val0|)
    requires Reaches(val0, adj0, ops, applied)
    requires live == Shift(val0, ops, applied) && owed == Owe(adj0, ops, applied)
    requires !row ==> UndoFree(ops, applied)
    ensures val == val0 && adj == adj0
  {
    val, adj := live, owed;
    var i := applied;
    while i > 0
      invariant 0 <= i <= applied
      invariant val == Shift(val0, ops, i) && adj == Owe(adj0, ops, i)
    {
      i := i - 1;
      PrefixInRange(val0, adj0, ops, i);
      BumpBack(Shift(val0, ops, i), ops[i].num, ops[i].op);
      BumpBack(Owe(adj0, ops, i), ops[i].num, -ops[i].op);
      Fit16(val[ops[i].num] - ops[i].op);
      val := val[ops[i].num := U16(val[ops[i].num] - ops[i].op)];
      if row && ops[i].undo {
        Fit16(adj[ops[i].num] + ops[i].op);
        adj := adj[ops[i].num := S16(adj[ops[i].num] + ops[i].op)];
      }
    }
  }

  /** Attempt a whole vector. `val` and `adj` are the set's vector and the
      process's row, handed in and back; a process without a row (`hasRow`
      false) starts from zeros and gets one at its first SEM_UNDO operation if
      one `mayBeMade`. All of it is applied, or none of it is. */
  method Attempt(val0: seq<int>, adj0: seq<int>, hasRow: bool, mayBeMade: bool, ops: seq<SemBuf>)
    returns (r: Try, val: seq<int>, adj: seq<int>, made: bool)
    requires |adj0| == |val0| && ValsOk(val0) && AdjOk(adj0)
    ensures Outcome(val0, adj0, ops, hasRow || mayBeMade, r)
    ensures r == Refused(EFBIG) <==> !InSet(ops, |val0|)
    ensures r.Refused? ==> r.errno in {EFBIG, EAGAIN, ERANGE, ENOMEM}
    ensures r != Done ==> val == val0 && adj == adj0
    ensures r == Done ==> Reaches(val0, adj0, ops, |ops|)
    ensures r == Done ==> val == Shift(val0, ops, |ops|) && adj == Owe(adj0, ops, |ops|)
    ensures r.Blocked? ==> InSet(ops, |val0|) && SleepsAt(val0, adj0, ops, r.at)
    ensures r.Refused? && r.errno != EFBIG ==>
              exists i: nat :: i < |ops| && Reaches(val0, adj0, ops, i) &&
                Refuses(val0, adj0, ops, i, r.errno, hasRow || mayBeMade)
    ensures made ==> !hasRow && mayBeMade
    ensures !made && !hasRow ==> adj == adj0
    ensures r == Done && !made && !hasRow ==> UndoFree(ops, |ops|)
  {
    var k := 0;
    while k < |ops|
      invariant 0 <= k <= |ops|
      invariant forall j :: 0 <= j < k ==> ops[j].num < |val0|
    {
      if ops[k].num >= |val0| {
        return Refused(EFBIG), val0, adj0, false;
      }
      k := k + 1;
    }
    var i: nat;
    r, i, val, adj, made := Apply(val0, adj0, hasRow, mayBeMade, ops);
    if r != Done {
      StopFails(val0, adj0, ops, i, hasRow || mayBeMade, r);
      val, adj := TakeBack(val0, adj0, hasRow || made, ops, i, val, adj);
    } else if !made && !hasRow {
      NoUndoOwesNothing(adj0, ops, |ops|);
    }
  }
}
