/** Processes holding SEM_UNDO adjustments on a semaphore may end in any order.
    Exactly when does the order not show? */
module UndoOrder {
  import opened Slots
  import opened SemCore
  import opened MsgCore
  import opened IpcTables
  import opened SemLog

  type Row = Option<UndoRow>

  /** What a row gives, and what it takes. */
  ghost function Gives(f: Row -> int): Row -> int { (r: Row) => if f(r) > 0 then f(r) else 0 }
  ghost function Takes(f: Row -> int): Row -> int { (r: Row) => if f(r) < 0 then f(r) else 0 }

  /** A value with the first `k` of some adjustments added one by one, each sum
      clamped. */
  ghost function ClampTo(v: int, rows: seq<Row>, f: Row -> int, k: nat): int
    requires k <= |rows|
  {
    if k == 0 then v else Clamp(ClampTo(v, rows, f, k - 1) + f(rows[k - 1]))
  }

  predicate IsValue(v: int) { 0 <= v <= SEMVMX }

  /** There is room for all that is given and all that is taken. */
  ghost predicate Fit(v: int, rows: seq<Row>, f: Row -> int) {
    v + Sum(rows, Gives(f)) <= SEMVMX && v + Sum(rows, Takes(f)) >= 0
  }

  // ---- with room, nothing is clamped ----

  lemma {:induction false} Bounds(rows: seq<Row>, f: Row -> int, k: nat)
    requires k <= |rows|
    ensures Sum(rows, Takes(f)) <= SumTo(rows, f, k) <= Sum(rows, Gives(f))
    ensures Sum(rows, f) == Sum(rows, Gives(f)) + Sum(rows, Takes(f))
  {
    Halves(rows, f, k);
    Halves(rows, f, |rows|);
    Growing(rows, f, k, |rows|);
  }

  lemma {:induction false} Halves(rows: seq<Row>, f: Row -> int, k: nat)
    requires k <= |rows|
    ensures SumTo(rows, f, k) == SumTo(rows, Gives(f), k) + SumTo(rows, Takes(f), k)
    ensures SumTo(rows, Takes(f), k) <= 0 <= SumTo(rows, Gives(f), k)
  {
    if k > 0 { Halves(rows, f, k - 1); }
  }

  lemma {:induction false} Growing(rows: seq<Row>, f: Row -> int, k: nat, m: nat)
    requires k <= m <= |rows|
    ensures SumTo(rows, Gives(f), k) <= SumTo(rows, Gives(f), m)
    ensures SumTo(rows, Takes(f), k) >= SumTo(rows, Takes(f), m)
  {
    if k < m { Growing(rows, f, k, m - 1); }
  }

  lemma {:induction false} FitIsExact(v: int, rows: seq<Row>, f: Row -> int, k: nat)
    requires Fit(v, rows, f) && k <= |rows|
    ensures ClampTo(v, rows, f, k) == v + SumTo(rows, f, k)
  {
    if k > 0 {
      FitIsExact(v, rows, f, k - 1);
      Bounds(rows, f, k);
    }
  }

  // ---- sums do not see the order ----

  lemma {:induction false} SumCut(rows: seq<Row>, f: Row -> int, j: nat, n: nat)
    requires j < n <= |rows|
    ensures SumTo(Without(rows, j), f, n - 1) == SumTo(rows, f, n) - f(rows[j])
  {
    if n == j + 1 {
      SumPrefix(Without(rows, j), rows, f, j);
    } else {
      SumCut(rows, f, j, n - 1);
    }
  }

  lemma {:induction false} Cancel(x: multiset<Row>, y: multiset<Row>, z: multiset<Row>)
    requires x + z == y + z
    ensures x == y
  {
    forall e ensures x[e] == y[e] { assert (x + z)[e] == (y + z)[e]; }
  }

  lemma {:induction false} Front(a: seq<Row>, b: seq<Row>, j: nat)
    requires multiset(a) == multiset(b) && a != [] && j < |b| && b[j] == a[|a| - 1]
    ensures multiset(a[..|a| - 1]) == multiset(Without(b, j))
  {
    var last := |a| - 1;
    assert a == a[..last] + [a[last]];
    WithoutBag(b, j);
    Cancel(multiset(a[..last]), multiset(Without(b, j)), multiset{b[j]});
  }

  lemma {:induction false} SumOfBag(a: seq<Row>, b: seq<Row>, f: Row -> int)
    requires multiset(a) == multiset(b)
    ensures Sum(a, f) == Sum(b, f)
  {
    assert |multiset(a)| == |a| && |multiset(b)| == |b|;
    if a != [] {
      var last := |a| - 1;
      assert a[last] in multiset(b);
      var j :| 0 <= j < |b| && b[j] == a[last];
      Front(a, b, j);
      SumOfBag(a[..last], Without(b, j), f);
      SumCut(b, f, j, |b|);
      SumPrefix(a, a[..last], f, last);
    }
  }

  // ---- givers first, takers first ----

  ghost function Only(rows: seq<Row>, f: Row -> int, up: bool, k: nat): (r: seq<Row>)
    requires k <= |rows|
    ensures forall i :: 0 <= i < |r| ==> (f(r[i]) > 0) == up
  {
    if k == 0 then []
    else if (f(rows[k - 1]) > 0) == up then Only(rows, f, up, k - 1) + [rows[k - 1]]
    else Only(rows, f, up, k - 1)
  }

  lemma {:induction false} OnlyBag(rows: seq<Row>, f: Row -> int, k: nat, s: seq<Row>)
    requires k <= |rows| && s == rows[..k]
    ensures multiset(Only(rows, f, true, k)) + multiset(Only(rows, f, false, k)) == multiset(s)
  {
    if k == 0 {
      assert Only(rows, f, true, k) == [] && Only(rows, f, false, k) == [] && s == [];
    } else {
      OnlyBag(rows, f, k - 1, s[..k - 1]);
      OnlyNext(rows, f, k - 1, k, s[..k - 1], s);
    }
  }

  lemma {:induction false} OnlyNext(rows: seq<Row>, f: Row -> int, k: nat, next: nat, s: seq<Row>, s': seq<Row>)
    requires k < |rows| && next == k + 1 == |s'| && s == s'[..k] && s'[k] == rows[k]
    requires multiset(Only(rows, f, true, k)) + multiset(Only(rows, f, false, k)) == multiset(s)
    ensures multiset(Only(rows, f, true, next)) + multiset(Only(rows, f, false, next)) == multiset(s')
  {
    var x, ups, downs := rows[k], Only(rows, f, true, k), Only(rows, f, false, k);
    assert s' == s + [x];
    if f(x) > 0 {
      assert Only(rows, f, true, next) == ups + [x] && Only(rows, f, false, next) == downs;
      UpIn(x, s, ups, downs);
    } else {
      assert Only(rows, f, true, next) == ups && Only(rows, f, false, next) == downs + [x];
      DownIn(x, s, ups, downs);
    }
  }

  lemma {:induction false} UpIn(x: Row, rows: seq<Row>, ups: seq<Row>, downs: seq<Row>)
    requires multiset(ups) + multiset(downs) == multiset(rows)
    ensures multiset(ups + [x]) + multiset(downs) == multiset(rows + [x])
  {
    assert multiset(ups + [x]) == multiset(ups) + multiset{x} && multiset(rows + [x]) == multiset(rows) + multiset{x};
  }

  lemma {:induction false} DownIn(x: Row, rows: seq<Row>, ups: seq<Row>, downs: seq<Row>)
    requires multiset(ups) + multiset(downs) == multiset(rows)
    ensures multiset(ups) + multiset(downs + [x]) == multiset(rows + [x])
  {
    assert multiset(downs + [x]) == multiset(downs) + multiset{x};
    assert multiset(rows + [x]) == multiset(rows) + multiset{x};
  }

  ghost function First(rows: seq<Row>, f: Row -> int, up: bool): seq<Row> {
    Only(rows, f, up, |rows|) + Only(rows, f, !up, |rows|)
  }

  lemma {:induction false} FirstBag(rows: seq<Row>, f: Row -> int, up: bool)
    ensures multiset(First(rows, f, up)) == multiset(rows)
  {
    assert rows[..|rows|] == rows;
    OnlyBag(rows, f, |rows|, rows);
  }

  lemma {:induction false} OnlySum(rows: seq<Row>, f: Row -> int, k: nat)
    requires k <= |rows|
    ensures Sum(Only(rows, f, true, k), f) == SumTo(rows, Gives(f), k)
    ensures Sum(Only(rows, f, false, k), f) == SumTo(rows, Takes(f), k)
  {
    if k > 0 {
      OnlySum(rows, f, k - 1);
      Appended(rows, f, true, k);
      Appended(rows, f, false, k);
    }
  }

  lemma {:induction false} Appended(rows: seq<Row>, f: Row -> int, up: bool, k: nat)
    requires 0 < k <= |rows|
    ensures Sum(Only(rows, f, up, k), f) ==
            Sum(Only(rows, f, up, k - 1), f) + if (f(rows[k - 1]) > 0) == up then f(rows[k - 1]) else 0
  {
    var a, b := Only(rows, f, up, k - 1), Only(rows, f, up, k);
    SumPrefix(b, a, f, |a|);
  }

  /** A run of givers stops at the top, a run of takers at the bottom. */
  lemma {:induction false} OneWay(v: int, rows: seq<Row>, f: Row -> int, up: bool, k: nat)
    requires IsValue(v) && k <= |rows| && forall i :: 0 <= i < |rows| ==> (f(rows[i]) > 0) == up
    ensures ClampTo(v, rows, f, k) == Clamp(v + SumTo(rows, f, k))
    ensures if up then SumTo(rows, f, k) >= 0 else SumTo(rows, f, k) <= 0
  {
    if k > 0 { OneWay(v, rows, f, up, k - 1); }
  }

  lemma {:induction false} ClampOn(v: int, a: seq<Row>, b: seq<Row>, f: Row -> int, k: nat)
    requires k <= |b|
    ensures ClampTo(v, a + b, f, |a| + k) == ClampTo(ClampTo(v, a, f, |a|), b, f, k)
  {
    if k == 0 { ClampSame(v, a + b, a, f, |a|); } else { ClampOn(v, a, b, f, k - 1); }
  }

  lemma {:induction false} ClampSame(v: int, a: seq<Row>, b: seq<Row>, f: Row -> int, k: nat)
    requires k <= |a| && k <= |b| && forall i :: 0 <= i < k ==> a[i] == b[i]
    ensures ClampTo(v, a, f, k) == ClampTo(v, b, f, k)
  {
    if k > 0 { ClampSame(v, a, b, f, k - 1); }
  }

  lemma {:induction false} TwoWays(v: int, a: seq<Row>, b: seq<Row>, f: Row -> int, up: bool)
    requires IsValue(v) && (forall i :: 0 <= i < |a| ==> (f(a[i]) > 0) == up)
    requires forall i :: 0 <= i < |b| ==> (f(b[i]) > 0) == !up
    ensures ClampTo(v, a + b, f, |a + b|) == Clamp(Clamp(v + Sum(a, f)) + Sum(b, f))
  {
    OneWay(v, a, f, up, |a|);
    OneWay(Clamp(v + Sum(a, f)), b, f, !up, |b|);
    ClampOn(v, a, b, f, |b|);
  }

  /** Where all the givers, or all the takers, end first. */
  lemma {:induction false} FirstEnds(v: int, rows: seq<Row>, f: Row -> int, up: bool)
    requires IsValue(v)
    ensures var t := First(rows, f, up);
            var g, d := Sum(rows, Gives(f)), Sum(rows, Takes(f));
            ClampTo(v, t, f, |t|) == if up then Clamp(Clamp(v + g) + d) else Clamp(Clamp(v + d) + g)
  {
    var a, b := Only(rows, f, up, |rows|), Only(rows, f, !up, |rows|);
    OnlySum(rows, f, |rows|);
    TwoWays(v, a, b, f, up);
  }

  /** Whatever the order, the sum is exact; or givers first or takers first is
      not. */
  lemma {:induction false} OrderIff(v: int, rows: seq<Row>, f: Row -> int)
    requires IsValue(v)
    ensures (forall order: seq<Row> :: multiset(order) == multiset(rows) ==>
               ClampTo(v, order, f, |order|) == v + Sum(rows, f))
            <==> Fit(v, rows, f)
  {
    if Fit(v, rows, f) {
      forall order: seq<Row> | multiset(order) == multiset(rows)
        ensures ClampTo(v, order, f, |order|) == v + Sum(rows, f)
      {
        SumOfBag(order, rows, f);
        SumOfBag(order, rows, Gives(f));
        SumOfBag(order, rows, Takes(f));
        FitIsExact(v, order, f, |order|);
      }
    } else {
      Bounds(rows, f, 0);
      FirstBag(rows, f, true);
      FirstBag(rows, f, false);
      FirstEnds(v, rows, f, true);
      FirstEnds(v, rows, f, false);
    }
  }

  // ---- on the daemon's tables ----

  /** A set's values with the rows on it applied, in the order of `rows`. */
  ghost function AfterAll(vals: seq<int>, id: int, rows: seq<Row>, k: nat): (r: seq<int>)
    requires k <= |rows|
    ensures |r| == |vals|
  {
    if k == 0 then vals
    else
      var v, r := AfterAll(vals, id, rows, k - 1), rows[k - 1];
      if OnSet(r, id) && |r.value.adj| == |vals| then Undone(v, r.value.adj, |vals|) else v
  }

  ghost predicate RowsFit(rows: seq<Row>, id: int, n: nat) {
    forall k :: 0 <= k < |rows| && OnSet(rows[k], id) ==> |rows[k].value.adj| == n
  }

  lemma {:induction false} AfterIs(vals: seq<int>, id: int, rows: seq<Row>, k: nat, n: nat)
    requires k <= |rows| && n < |vals| && IsValue(vals[n]) && RowsFit(rows, id, |vals|)
    ensures AfterAll(vals, id, rows, k)[n] == ClampTo(vals[n], rows, AdjTerm(id, n), k)
    ensures IsValue(ClampTo(vals[n], rows, AdjTerm(id, n), k))
  {
    if k > 0 { AfterIs(vals, id, rows, k - 1, n); }
  }

  /** Semaphore `n` has room for every row on it: what is given stays below the
      largest value, what is taken above zero. Both can be read off the tables. */
  ghost predicate Roomy(s: SemSet, undo: Table<UndoRow>, n: nat) {
    n < |s.vals| && Fit(s.vals[n], undo, AdjTerm(s.id, n))
  }

  lemma {:induction false} PermutedFit(undo: Table<UndoRow>, rows: seq<Row>, id: int, n: nat)
    requires multiset(rows) == multiset(undo) && RowsFit(undo, id, n)
    ensures RowsFit(rows, id, n)
  {
    forall k | 0 <= k < |rows| && OnSet(rows[k], id) ensures |rows[k].value.adj| == n {
      assert rows[k] in multiset(undo);
      var j :| 0 <= j < |undo| && undo[j] == rows[k];
    }
  }

  /** Every order in which the holders may end settles a semaphore at its balance
      exactly if it has room for all their rows. */
  lemma {:induction false} EveryOrderExactly(s: SemSet, undo: Table<UndoRow>, n: nat)
    requires n < |s.vals| && ValsOk(s.vals) && RowsFit(undo, s.id, |s.vals|)
    ensures (forall rows: seq<Row> :: multiset(rows) == multiset(undo) ==>
               AfterAll(s.vals, s.id, rows, |rows|)[n] == Balance(s, undo, n))
            <==> Roomy(s, undo, n)
  {
    forall rows: seq<Row> | multiset(rows) == multiset(undo)
      ensures AfterAll(s.vals, s.id, rows, |rows|)[n] == ClampTo(s.vals[n], rows, AdjTerm(s.id, n), |rows|)
    {
      PermutedFit(undo, rows, s.id, |s.vals|);
      AfterIs(s.vals, s.id, rows, |rows|, n);
    }
    OrderIff(s.vals[n], undo, AdjTerm(s.id, n));
  }

  /** Two processes on a semaphore at 0, one owing -1 and one owing +1: it ends at
      1 if the taker ends first and at 0, its balance, if it ends last. */
  lemma {:induction false} OrderShows()
    ensures var s := SemSet(1, 0, Perm(0, 0, 0, 0, 0), [0], [0]);
            var taker, giver := Some(UndoRow(10, 1, 1, [-1])), Some(UndoRow(11, 1, 1, [1]));
            && AfterAll(s.vals, 1, [taker, giver], 2) == [1] && AfterAll(s.vals, 1, [giver, taker], 2) == [0]
            && Balance(s, [taker, giver], 0) == 0 && !Roomy(s, [taker, giver], 0)
  {
    var s := SemSet(1, 0, Perm(0, 0, 0, 0, 0), [0], [0]);
    var taker, giver := Some(UndoRow(10, 1, 1, [-1])), Some(UndoRow(11, 1, 1, [1]));
    var f := AdjTerm(1, 0);
    AfterIs([0], 1, [taker, giver], 2, 0);
    AfterIs([0], 1, [giver, taker], 2, 0);
    assert f(taker) == -1 && f(giver) == 1;
    assert ClampTo(0, [taker, giver], f, 1) == 0 && ClampTo(0, [giver, taker], f, 1) == 1;
    assert SumTo([taker, giver], f, 1) == -1;
    assert Takes(f)(taker) == -1 && Takes(f)(giver) == 0;
    assert SumTo([taker, giver], Takes(f), 1) == -1;
    assert SumTo([taker, giver], Takes(f), 2) == -1;
  }

  // ---- one row at a time ----

  /** Where there is room for every row, applying one clamps nothing and leaves
      room for the others. */
  lemma {:induction false} RoomyDeath(s: SemSet, undo: Table<UndoRow>, ui: nat, n: nat)
    requires Roomy(s, undo, n) && ui < |undo| && OnSet(undo[ui], s.id) && |undo[ui].value.adj| == |s.vals| == |s.lpid|
    ensures ClampLoss(s.vals[n], undo[ui].value.adj[n]) == 0
    ensures Roomy(Reaped(s, undo[ui].value), undo[ui := None], n)
  {
    var f := AdjTerm(s.id, n);
    SumUpdate(undo, Gives(f), ui, None);
    SumUpdate(undo, Takes(f), ui, None);
    Halves(undo[ui := None], f, |undo|);
    assert f(undo[ui]) == undo[ui].value.adj[n];
  }
}
