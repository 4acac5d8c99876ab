/** Fixed-size slot tables: the daemon keeps every registry as an array of
    records with a `used` flag. A slot is `None` when unused. */
module Slots {

  datatype Option<+T> = None | Some(value: T)

  type Table<+T> = seq<Option<T>>

  /** The sum of `f` over the first `n` elements, and over all of them. */
  ghost function SumTo<T>(t: seq<T>, f: T -> int, n: nat): int
    requires n <= |t|
  {
    if n == 0 then 0 else SumTo(t, f, n - 1) + f(t[n - 1])
  }

  ghost function Sum<T>(t: seq<T>, f: T -> int): int {
    SumTo(t, f, |t|)
  }

  ghost function Used<T>(): Option<T> -> int {
    (s: Option<T>) => if s.Some? then 1 else 0
  }

  /** How many slots are used. */
  ghost function Count<T>(t: Table<T>): int {
    Sum(t, Used<T>())
  }

  lemma {:induction false} SumUpdate<T>(t: seq<T>, f: T -> int, i: nat, x: T)
    requires i < |t|
    ensures Sum(t[i := x], f) == Sum(t, f) - f(t[i]) + f(x)
  {
    SumUpdateTo(t, f, i, x, |t|);
  }

  lemma {:induction false} SumUpdateTo<T>(t: seq<T>, f: T -> int, i: nat, x: T, n: nat)
    requires i < |t| && n <= |t|
    ensures SumTo(t[i := x], f, n) == SumTo(t, f, n) + if i < n then f(x) - f(t[i]) else 0
  {
    if n > 0 { SumUpdateTo(t, f, i, x, n - 1); }
  }

  /** Sums agree when the terms do. */
  lemma {:induction false} SumAgree<T>(t: seq<T>, u: seq<T>, f: T -> int, g: T -> int)
    requires |t| == |u|
    requires forall i :: 0 <= i < |t| ==> f(t[i]) == g(u[i])
    ensures Sum(t, f) == Sum(u, g)
  {
    SumAgreeTo(t, u, f, g, |t|);
  }

  lemma {:induction false} SumAgreeTo<T>(t: seq<T>, u: seq<T>, f: T -> int, g: T -> int, n: nat)
    requires n <= |t| == |u|
    requires forall i :: 0 <= i < n ==> f(t[i]) == g(u[i])
    ensures SumTo(t, f, n) == SumTo(u, g, n)
  {
    if n > 0 { SumAgreeTo(t, u, f, g, n - 1); }
  }

  /** A sum of a beginning is that of any sequence that begins so. */
  lemma {:induction false} SumPrefix<T>(t: seq<T>, u: seq<T>, f: T -> int, n: nat)
    requires n <= |t| && n <= |u| && forall i :: 0 <= i < n ==> t[i] == u[i]
    ensures SumTo(t, f, n) == SumTo(u, f, n)
  {
    if n > 0 { SumPrefix(t, u, f, n - 1); }
  }

  lemma {:induction false} SumZero<T>(t: seq<T>, f: T -> int)
    requires forall i :: 0 <= i < |t| ==> f(t[i]) == 0
    ensures Sum(t, f) == 0
  {
    SumZeroTo(t, f, |t|);
  }

  lemma {:induction false} SumZeroTo<T>(t: seq<T>, f: T -> int, n: nat)
    requires n <= |t| && forall i :: 0 <= i < n ==> f(t[i]) == 0
    ensures SumTo(t, f, n) == 0
  {
    if n > 0 { SumZeroTo(t, f, n - 1); }
  }

  lemma {:induction false} SumNonNegative<T>(t: seq<T>, f: T -> int, i: nat)
    requires i < |t|
    requires forall j :: 0 <= j < |t| ==> f(t[j]) >= 0
    ensures Sum(t, f) >= f(t[i])
  {
    SumNonNegativeTo(t, f, i, |t|);
  }

  lemma {:induction false} SumNonNegativeTo<T>(t: seq<T>, f: T -> int, i: nat, n: nat)
    requires i < |t| && n <= |t| && forall j :: 0 <= j < |t| ==> f(t[j]) >= 0
    ensures SumTo(t, f, n) >= if i < n then f(t[i]) else 0
  {
    if n > 0 { SumNonNegativeTo(t, f, i, n - 1); }
  }

  /** The lowest slot satisfying `p`, or -1: the search loop every lookup in
      the daemon is. */
  method Search<T>(t: Table<T>, p: T -> bool) returns (i: int)
    ensures -1 <= i < |t|
    ensures i >= 0 ==> t[i].Some? && p(t[i].value)
    ensures i < 0 ==> forall j :: 0 <= j < |t| && t[j].Some? ==> !p(t[j].value)
  {
    i := 0;
    while i < |t|
      invariant 0 <= i <= |t|
      invariant forall j :: 0 <= j < i && t[j].Some? ==> !p(t[j].value)
    {
      if t[i].Some? && p(t[i].value) {
        return;
      }
      i := i + 1;
    }
    i := -1;
  }

  /** The lowest unused slot, or -1. */
  method FirstFree<T>(t: Table<T>) returns (i: int)
    ensures -1 <= i < |t|
    ensures i >= 0 ==> t[i].None?
    ensures i < 0 ==> forall j :: 0 <= j < |t| ==> t[j].Some?
  {
    i := 0;
    while i < |t|
      invariant 0 <= i <= |t|
      invariant forall j :: 0 <= j < i ==> t[j].Some?
    {
      if t[i].None? {
        return;
      }
      i := i + 1;
    }
    i := -1;
  }

  lemma {:induction false} IndexSetBound(s: set<int>, n: nat)
    requires forall x :: x in s ==> 0 <= x < n
    ensures |s| <= n
  {
    if n == 0 {
      assert forall x :: x !in s;
      assert |s| == 0;
    } else {
      IndexSetBound(s - {n - 1}, n - 1);
    }
  }

  /** How far candidate `c` is past `start` on the cycle 1..max. */
  ghost function Past(c: int, start: int, max: int): int {
    if c >= start then c - start else c - start + max
  }

  /** The id counter every registry has: the next number on the cycle 1..max
      that no used slot carries (as `base + number`). With more tries than
      slots it always finds one: distinct candidates cannot all be taken. */
  method AllocId<T>(t: Table<T>, idOf: T -> int, base: int, counter: int, max: int, tries: nat)
    returns (id: int, next: int)
    requires 1 <= counter <= max && |t| < tries <= max
    ensures 1 <= next <= max
    ensures base < id <= base + max
    ensures forall j :: 0 <= j < |t| && t[j].Some? ==> idOf(t[j].value) != id
  {
    next := counter;
    var i := 0;
    ghost var taken: set<int> := {};
    while i < tries
      invariant 0 <= i <= tries && 1 <= next <= max
      invariant i < max ==> Past(next, counter, max) == i
      invariant |taken| == i
      invariant forall x :: x in taken ==> 0 <= x < |t| && t[x].Some?
      invariant forall x :: x in taken ==> var c := idOf(t[x].value) - base;
                  1 <= c <= max && Past(c, counter, max) < i
    {
      var c := next;
      next := if c == max then 1 else c + 1;
      id := base + c;
      var k := Search(t, x => idOf(x) == id);
      if k < 0 {
        return;
      }
      taken := taken + {k};
      i := i + 1;
    }
    IndexSetBound(taken, |t|);
    assert false;
  }
}
