/** Who is attached to a shared-memory segment: one row per process, in no
    order, dropped by moving the last row into its place. */
module ShmRows {
  import opened Slots
  import opened Procs

  /** `start` is the incarnation of `pid` that made the row. */
  datatype Att = Att(pid: int, start: nat, n: nat)

  /** A process is a pid in one incarnation. */
  datatype Proc = Proc(pid: int, start: nat)

  /** The attachments processes really hold: what the kernel would count. */
  type Holdings = map<Proc, nat>

  function Who(a: Att): Proc {
    Proc(a.pid, a.start)
  }

  /** `p` is gone, or a zombie whose mappings are. */
  predicate Ended(p: Proc, w: World) {
    Dead(w, p.pid, p.start)
  }

  ghost function Weight(): Att -> int {
    (a: Att) => a.n
  }

  ghost function Total(rows: seq<Att>): int {
    Sum(rows, Weight())
  }

  ghost predicate RowsOk(rows: seq<Att>) {
    && (forall i :: 0 <= i < |rows| ==> rows[i].n > 0)
    && (forall i, j :: 0 <= i < j < |rows| ==> rows[i].pid != rows[j].pid)
  }

  ghost predicate Has(rows: seq<Att>, pid: int) {
    exists i :: 0 <= i < |rows| && rows[i].pid == pid
  }

  ghost predicate RowOf(rows: seq<Att>, p: Proc) {
    exists i :: 0 <= i < |rows| && Who(rows[i]) == p
  }

  /** The rows are the holdings: nobody's attachments are missing, miscounted
      or charged to another incarnation. */
  ghost predicate Exact(rows: seq<Att>, held: Holdings) {
    && (forall i :: 0 <= i < |rows| ==> Who(rows[i]) in held && held[Who(rows[i])] == rows[i].n)
    && (forall p :: p in held ==> RowOf(rows, p))
  }

  ghost function Attached(held: Holdings, p: Proc): Holdings {
    held[p := if p in held then held[p] + 1 else 1]
  }

  ghost function Detached(held: Holdings, p: Proc): Holdings
    requires p in held
  {
    if held[p] <= 1 then held - {p} else held[p := held[p] - 1]
  }

  ghost function Living(held: Holdings, w: World): Holdings {
    map p | p in held && w(p.pid) == Life(p.start, false) :: held[p]
  }

  function SwapOut(rows: seq<Att>, i: nat): seq<Att>
    requires i < |rows|
  {
    rows[i := rows[|rows| - 1]][..|rows| - 1]
  }

  lemma {:induction false} TotalCounts(rows: seq<Att>, k: nat)
    requires RowsOk(rows) && k <= |rows|
    ensures SumTo(rows, Weight(), k) >= k
  {
    if k > 0 { TotalCounts(rows, k - 1); }
  }

  lemma {:induction false} TotalPrefix(rows: seq<Att>, k: nat)
    requires k <= |rows|
    ensures SumTo(rows, Weight(), k) == Total(rows[..k])
  {
    SumPrefix(rows, rows[..k], Weight(), k);
  }

  lemma {:induction false} SwapOutTotal(rows: seq<Att>, i: nat)
    requires i < |rows|
    ensures Total(SwapOut(rows, i)) == Total(rows) - rows[i].n
  {
    var last := |rows| - 1;
    SumUpdate(rows, Weight(), i, rows[last]);
    TotalPrefix(rows[i := rows[last]], last);
  }

  lemma {:induction false} SwapOutOk(rows: seq<Att>, i: nat)
    requires RowsOk(rows) && i < |rows|
    ensures RowsOk(SwapOut(rows, i))
    ensures forall a :: a in SwapOut(rows, i) <==> a in rows && a != rows[i]
  {
    var r, last := SwapOut(rows, i), |rows| - 1;
    forall a | a in rows && a != rows[i] ensures a in r {
      var k :| 0 <= k < |rows| && rows[k] == a;
      assert r[if k == last then i else k] == a;
    }
  }

  lemma {:induction false} SwapOutExact(rows: seq<Att>, i: nat, held: Holdings)
    requires RowsOk(rows) && i < |rows| && Exact(rows, held)
    ensures Exact(SwapOut(rows, i), held - {Who(rows[i])})
  {
    var r, h := SwapOut(rows, i), held - {Who(rows[i])};
    SwapOutOk(rows, i);
    forall k | 0 <= k < |r| ensures Who(r[k]) in h && h[Who(r[k])] == r[k].n {
      assert r[k] in rows && r[k] != rows[i];
    }
    forall p | p in h ensures RowOf(r, p) {
      assert RowOf(rows, p);
      var k :| 0 <= k < |rows| && Who(rows[k]) == p;
      assert rows[k] in r;
    }
  }

  lemma {:induction false} RecountExact(rows: seq<Att>, i: nat, n: nat, held: Holdings)
    requires RowsOk(rows) && i < |rows| && n > 0 && Exact(rows, held)
    ensures Exact(rows[i := rows[i].(n := n)], held[Who(rows[i]) := n])
  {
    var r, h := rows[i := rows[i].(n := n)], held[Who(rows[i]) := n];
    forall p | p in h ensures RowOf(r, p) {
      if p == Who(rows[i]) {
        assert Who(r[i]) == p;
      } else {
        assert RowOf(rows, p);
        var k :| 0 <= k < |rows| && Who(rows[k]) == p;
        assert Who(r[k]) == p;
      }
    }
  }

  lemma {:induction false} AppendExact(rows: seq<Att>, a: Att, held: Holdings)
    requires RowsOk(rows) && !Has(rows, a.pid) && a.n == 1 && Exact(rows, held)
    ensures Exact(rows + [a], Attached(held, Who(a)))
  {
    var r, h := rows + [a], Attached(held, Who(a));
    assert Who(a) in held ==> RowOf(rows, Who(a));
    forall p | p in h ensures RowOf(r, p) {
      if p == Who(a) {
        assert Who(r[|rows|]) == p;
      } else {
        assert RowOf(rows, p);
        var k :| 0 <= k < |rows| && Who(rows[k]) == p;
        assert Who(r[k]) == p;
      }
    }
  }

  method IndexOf(rows: seq<Att>, pid: int) returns (i: int)
    ensures -1 <= i < |rows|
    ensures i < 0 <==> !Has(rows, pid)
    ensures i >= 0 ==> rows[i].pid == pid
  {
    i := 0;
    while i < |rows|
      invariant 0 <= i <= |rows|
      invariant forall j :: 0 <= j < i ==> rows[j].pid != pid
    {
      if rows[i].pid == pid {
        return;
      }
      i := i + 1;
    }
    i := -1;
  }

  /** The row that an attach by `p` would count in is of another incarnation. */
  ghost predicate Stale(rows: seq<Att>, p: Proc) {
    Has(rows, p.pid) && !RowOf(rows, p)
  }

  lemma {:induction false} NotExact(rows: seq<Att>, held: Holdings, p: Proc)
    requires p in held && !RowOf(rows, p)
    ensures !Exact(rows, held)
  {
  }

  /** The row of `p.pid` counts one more: exact again unless it is another's. */
  lemma {:induction false} CountMore(rows: seq<Att>, i: nat, p: Proc, held: Holdings)
    requires RowsOk(rows) && i < |rows| && rows[i].pid == p.pid
    ensures var r := rows[i := rows[i].(n := rows[i].n + 1)];
            && RowsOk(r) && Total(r) == Total(rows) + 1
            && (Exact(rows, held) ==> (Exact(r, Attached(held, p)) <==> !Stale(rows, p)))
  {
    var r := rows[i := rows[i].(n := rows[i].n + 1)];
    SumUpdate(rows, Weight(), i, r[i]);
    assert Has(rows, p.pid);
    if Exact(rows, held) {
      if Who(rows[i]) == p {
        assert RowOf(rows, p);
        RecountExact(rows, i, rows[i].n + 1, held);
      } else {
        OtherRow(rows, r, i, p);
        NotExact(r, Attached(held, p), p);
      }
    }
  }

  lemma {:induction false} OtherRow(rows: seq<Att>, r: seq<Att>, i: nat, p: Proc)
    requires RowsOk(rows) && i < |rows| && rows[i].pid == p.pid && Who(rows[i]) != p
    requires r == rows[i := rows[i].(n := rows[i].n + 1)]
    ensures !RowOf(rows, p) && !RowOf(r, p)
  {
    forall k | 0 <= k < |rows| ensures Who(rows[k]) != p && Who(r[k]) != p {
      assert k != i ==> rows[k].pid != rows[i].pid;
    }
  }

  lemma {:induction false} AppendRow(rows: seq<Att>, p: Proc, held: Holdings)
    requires RowsOk(rows) && !Has(rows, p.pid)
    ensures var r := rows + [Att(p.pid, p.start, 1)];
            RowsOk(r) && Total(r) == Total(rows) + 1 && (Exact(rows, held) ==> Exact(r, Attached(held, p)))
  {
    var r := rows + [Att(p.pid, p.start, 1)];
    SumPrefix(r, rows, Weight(), |rows|);
    if Exact(rows, held) { AppendExact(rows, Att(p.pid, p.start, 1), held); }
  }

  lemma {:induction false} NoRow(rows: seq<Att>, p: Proc)
    requires !Has(rows, p.pid)
    ensures !RowOf(rows, p) && !Stale(rows, p)
  {
    forall k | 0 <= k < |rows| ensures Who(rows[k]) != p { assert rows[k].pid != p.pid; }
  }

  /** One more attach by `p`; `memory` says whether a new row could be had. */
  method Add(rows: seq<Att>, p: Proc, memory: bool, ghost held: Holdings) returns (r: seq<Att>)
    requires RowsOk(rows)
    ensures RowsOk(r)
    ensures Total(r) == Total(rows) + if memory || Has(rows, p.pid) then 1 else 0
    ensures !memory && !Has(rows, p.pid) ==> r == rows
    ensures Exact(rows, held) ==> (Exact(r, Attached(held, p)) <==> !Stale(rows, p) && (memory || Has(rows, p.pid)))
  {
    var i := IndexOf(rows, p.pid);
    if i >= 0 {
      CountMore(rows, i, p, held);
      return rows[i := rows[i].(n := rows[i].n + 1)];
    }
    NoRow(rows, p);
    if !memory {
      NotExact(rows, Attached(held, p), p);
      return rows;
    }
    AppendRow(rows, p, held);
    r := rows + [Att(p.pid, p.start, 1)];
  }

  lemma {:induction false} RowIs(rows: seq<Att>, i: nat, p: Proc, held: Holdings)
    requires RowsOk(rows) && Exact(rows, held) && p in held && i < |rows| && rows[i].pid == p.pid
    ensures Who(rows[i]) == p && held[p] == rows[i].n
  {
  }

  /** One detach by `p`. */
  method Drop(rows: seq<Att>, p: Proc, ghost held: Holdings) returns (r: seq<Att>)
    requires RowsOk(rows)
    ensures RowsOk(r)
    ensures Total(r) == Total(rows) - if Has(rows, p.pid) then 1 else 0
    ensures Exact(rows, held) && p in held ==> Exact(r, Detached(held, p))
    ensures Exact(rows, held) && p !in held ==> (Exact(r, held) <==> !Has(rows, p.pid))
  {
    var i := IndexOf(rows, p.pid);
    if i < 0 {
      assert p in held && Exact(rows, held) ==> RowOf(rows, p);
      return rows;
    }
    r := if rows[i].n == 1 then SwapOut(rows, i) else rows[i := rows[i].(n := rows[i].n - 1)];
    if rows[i].n == 1 {
      SwapOutOk(rows, i);
      SwapOutTotal(rows, i);
    } else {
      SumUpdate(rows, Weight(), i, r[i]);
    }
    if Exact(rows, held) && p in held {
      RowIs(rows, i, p, held);
      DropExact(rows, i, held);
    }
    if Exact(rows, held) && Exact(r, held) { ExactUnique(rows, r, held, i); }
  }

  /** No two exact row lists differ in a row. */
  lemma {:induction false} ExactUnique(rows: seq<Att>, r: seq<Att>, held: Holdings, i: nat)
    requires Exact(rows, held) && Exact(r, held) && i < |rows|
    ensures rows[i] in r
  {
  }

  lemma {:induction false} DropExact(rows: seq<Att>, i: nat, held: Holdings)
    requires RowsOk(rows) && i < |rows| && Exact(rows, held)
    ensures rows[i].n == 1 ==> Exact(SwapOut(rows, i), Detached(held, Who(rows[i])))
    ensures rows[i].n > 1 ==> Exact(rows[i := rows[i].(n := rows[i].n - 1)], Detached(held, Who(rows[i])))
  {
    if rows[i].n == 1 {
      SwapOutExact(rows, i, held);
    } else {
      RecountExact(rows, i, rows[i].n - 1, held);
    }
  }

  /** Take the attaches of dead processes off the rows and off the count, which
      stops at zero. */
  method Reclaim(rows: seq<Att>, nattch: nat, w: World, ghost held: Holdings) returns (r: seq<Att>, left: nat)
    requires RowsOk(rows)
    ensures RowsOk(r) && forall a :: a in r <==> a in rows && w(a.pid) == Life(a.start, false)
    ensures left == var gone := Total(rows) - Total(r); if nattch >= gone then nattch - gone else 0
    ensures 0 <= Total(r) <= Total(rows) && (Total(r) == 0 <==> r == [])
    ensures Exact(rows, held) ==> Exact(r, Living(held, w))
  {
    r, left := rows, nattch;
    var j := 0;
    ghost var h := held;
    while j < |r|
      invariant 0 <= j <= |r| && RowsOk(r) && Total(r) <= Total(rows)
      invariant forall k :: 0 <= k < j ==> !Ended(Who(r[k]), w)
      invariant forall a :: a in r ==> a in rows
      invariant forall a :: a in rows && !Ended(Who(a), w) ==> a in r
      invariant left == var gone := Total(rows) - Total(r); if nattch >= gone then nattch - gone else 0
      invariant Exact(rows, held) ==> Exact(r, h) && (forall p :: p in h ==> p in held && h[p] == held[p])
      invariant forall p :: p in held && !Ended(p, w) ==> p in h
      decreases |r| - j
    {
      if Ended(Who(r[j]), w) {
        left := if left >= r[j].n then left - r[j].n else 0;
        SwapOutOk(r, j);
        SwapOutTotal(r, j);
        if Exact(rows, held) { SwapOutExact(r, j, h); }
        h := h - {Who(r[j])};
        r := SwapOut(r, j);
      } else {
        j := j + 1;
      }
    }
    if Exact(rows, held) { ExactLiving(r, h, held, w); }
    TotalCounts(r, |r|);
  }

  lemma {:induction false} ExactLiving(r: seq<Att>, h: Holdings, held: Holdings, w: World)
    requires Exact(r, h) && forall k :: 0 <= k < |r| ==> !Ended(Who(r[k]), w)
    requires forall p :: p in h ==> p in held && h[p] == held[p]
    requires forall p :: p in held && !Ended(p, w) ==> p in h
    ensures Exact(r, Living(held, w))
  {
  }

  /** How many attachments there are. */
  ghost function Attachments(held: Holdings): nat {
    if held == map[] then 0 else
    var p :| p in held;
    held[p] + Attachments(held - {p})
  }

  lemma {:induction false} AttachmentsLess(held: Holdings, p: Proc)
    requires p in held
    ensures Attachments(held) == held[p] + Attachments(held - {p})
    decreases |held|
  {
    var q :| q in held && Attachments(held) == held[q] + Attachments(held - {q});
    if q != p {
      AttachmentsLess(held - {q}, p);
      AttachmentsLess(held - {p}, q);
      assert held - {q} - {p} == held - {p} - {q};
    }
  }

  /** Exact rows weigh what the processes hold. */
  lemma {:induction false} ExactTotal(rows: seq<Att>, held: Holdings)
    requires RowsOk(rows) && Exact(rows, held)
    ensures Total(rows) == Attachments(held)
    decreases |rows|
  {
    if rows == [] {
      assert forall p :: p in held ==> RowOf(rows, p);
      assert held == map[];
    } else {
      var i := |rows| - 1;
      SwapOutExact(rows, i, held);
      SwapOutOk(rows, i);
      SwapOutTotal(rows, i);
      ExactTotal(SwapOut(rows, i), held - {Who(rows[i])});
      AttachmentsLess(held, Who(rows[i]));
    }
  }
}
