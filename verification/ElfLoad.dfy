/** Loading an ELF image into one reservation: which headers are accepted, where
    the file's bytes then go, and what protection every page ends with. */
module ElfLoad {
  import opened Pages

  const MAX_PHDR := 64
  const POOL := 0x8_0000

  datatype Prot = Prot(r: bool, w: bool, x: bool)

  const EFORMAT := -2
  const ETOOBIG := -5
  const ECLOBBER := -8
  const EINTERP := -9
  const EINVAL := -10
  const INTERP_MAX := 256

  /** PT_LOAD; PT_INTERP, with whether reading its path comes up short and whether
      it ends in a NUL; any other. */
  datatype Kind = Load | Interp(short: bool, ends: bool) | Else

  datatype Phdr = Phdr(kind: Kind, offset: Word, vaddr: Word, filesz: Word, memsz: Word, prot: Prot)

  // ---- the headers ----

  ghost predicate Fits(h: Phdr, p: nat) {
    h.filesz <= h.memsz && h.vaddr + h.memsz + p <= W
  }

  ghost function First(h: Phdr, p: nat): int
    requires p > 0
  {
    Down(h.vaddr, p)
  }

  ghost function Last(h: Phdr, p: nat): int
    requires p > 0 && h.vaddr + h.memsz < W
  {
    Up(h.vaddr + h.memsz, p)
  }

  /** `lo` and `hi` are the least span of whole pages that holds the first `n`
      headers' segments. */
  ghost predicate Spans(ph: seq<Phdr>, n: nat, p: nat, lo: int, hi: int)
    requires p > 0 && n <= |ph|
  {
    && (forall i :: 0 <= i < n && ph[i].kind.Load? ==> Fits(ph[i], p) && lo <= First(ph[i], p) && Last(ph[i], p) <= hi)
    && (exists i :: 0 <= i < n && ph[i].kind.Load? && lo == First(ph[i], p))
    && (exists i :: 0 <= i < n && ph[i].kind.Load? && hi == Last(ph[i], p))
  }

  /** What a loadable image is. */
  ghost predicate Acceptable(ph: seq<Phdr>, p: nat)
    requires p > 0
  {
    && 0 < |ph| <= MAX_PHDR && (exists i :: 0 <= i < |ph| && ph[i].kind.Load?)
    && (forall i :: 0 <= i < |ph| && ph[i].kind.Load? ==> Fits(ph[i], p))
    && (forall i, j :: 0 <= i < |ph| && 0 <= j < |ph| && ph[i].kind.Load? && ph[j].kind.Load? ==>
          Last(ph[j], p) - First(ph[i], p) <= W - 1 - POOL)
  }

  /** The span with one more segment. */
  lemma {:induction false} SpanGrows(ph: seq<Phdr>, n: nat, p: nat, lo: int, hi: int, lo': int, hi': int)
    requires p > 0 && n < |ph| && ph[n].kind.Load? && Fits(ph[n], p)
    requires (lo' == lo <= First(ph[n], p)) || (lo' == First(ph[n], p) <= lo)
    requires (hi' == hi >= Last(ph[n], p)) || (hi' == Last(ph[n], p) >= hi)
    requires Spans(ph, n, p, lo, hi) ||
               ((forall j :: 0 <= j < n ==> !ph[j].kind.Load?) && lo' == First(ph[n], p) && hi' == Last(ph[n], p))
    ensures Spans(ph, n + 1, p, lo', hi')
  {
  }

  /** The span is too wide exactly when two segments are too far apart. */
  lemma {:induction false} SpanWide(ph: seq<Phdr>, p: nat, lo: int, hi: int)
    requires p > 0 && Spans(ph, |ph|, p, lo, hi)
    ensures lo <= hi
    ensures hi - lo <= W - 1 - POOL <==> forall i, j ::
              0 <= i < |ph| && 0 <= j < |ph| && ph[i].kind.Load? && ph[j].kind.Load? ==>
                Last(ph[j], p) - First(ph[i], p) <= W - 1 - POOL
  {
  }

  /** The span over the first `n` headers, or none yet. */
  ghost predicate Spanning(ph: seq<Phdr>, n: nat, p: nat, nload: nat, lo: int, hi: int)
    requires p > 0 && n <= |ph|
  {
    if nload == 0 then lo == W - 1 && hi == 0 && forall j :: 0 <= j < n ==> !ph[j].kind.Load?
    else Spans(ph, n, p, lo, hi)
  }

  method Widen(ph: seq<Phdr>, i: nat, p: nat, nload: nat, lo0: Word, hi0: Word) returns (fit: bool, lo: Word, hi: Word)
    requires PageSize(p) && i < |ph| && ph[i].kind.Load? && Spanning(ph, i, p, nload, lo0, hi0)
    ensures fit <==> Fits(ph[i], p)
    ensures fit ==> Spans(ph, i + 1, p, lo, hi)
  {
    fit, lo, hi := false, lo0, hi0;
    if ph[i].filesz > ph[i].memsz { return; }
    var e;
    fit, e := PageEnd(ph[i].vaddr, ph[i].memsz, p);
    if !fit { return; }
    var s := PageDown(ph[i].vaddr, p);
    if s < lo { lo := s; }
    if e > hi { hi := e; }
    SpanGrows(ph, i, p, lo0, hi0, lo, hi);
  }

  /** Why a header is refused, 0 for none. `fileOnly`: segments can only be mapped
      from the file, which takes an offset that agrees with the address. */
  ghost function Refusal(h: Phdr, p: nat, fileOnly: bool): int
    requires p > 0
  {
    match h.kind
    case Interp(short, ends) =>
      if !(2 <= h.filesz <= INTERP_MAX) then ETOOBIG else if short then EINTERP else if !ends then EFORMAT else 0
    case Load =>
      if h.filesz > h.memsz || (fileOnly && h.filesz != 0 && h.offset % p != h.vaddr % p) then EINVAL
      else if !Fits(h, p) then EFORMAT else 0
    case Else => 0
  }

  /** The refusal of the first header refused. */
  ghost function FirstRefusal(ph: seq<Phdr>, n: nat, p: nat, fileOnly: bool): int
    requires p > 0 && n <= |ph|
  {
    if n == 0 then 0
    else if FirstRefusal(ph, n - 1, p, fileOnly) != 0 then FirstRefusal(ph, n - 1, p, fileOnly)
    else Refusal(ph[n - 1], p, fileOnly)
  }

  // ---- which headers, in their fields ----

  /** An interpreter's path: of a length, read whole, and ended. */
  ghost predicate PathFits(h: Phdr) {
    2 <= h.filesz <= 256
  }

  /** A segment's file part fits it, and can be mapped where it has to be. */
  ghost predicate FileFits(h: Phdr, p: nat, fileOnly: bool)
    requires p > 0
  {
    h.filesz <= h.memsz && (fileOnly && h.filesz > 0 ==> h.offset % p == h.vaddr % p)
  }

  /** A segment ends, rounded to a page, below the top of the address space. */
  ghost predicate EndsBelow(h: Phdr, p: nat) {
    h.vaddr + h.memsz + p <= 0x1_0000_0000_0000_0000
  }

  ghost predicate Sound(h: Phdr, p: nat, fileOnly: bool)
    requires p > 0
  {
    && (h.kind.Interp? ==> PathFits(h) && !h.kind.short && h.kind.ends)
    && (h.kind.Load? ==> FileFits(h, p, fileOnly) && EndsBelow(h, p))
  }

  /** Header `i` is the first that is not sound, and this says why. */
  ghost predicate Faulted(ph: seq<Phdr>, i: nat, p: nat, fileOnly: bool, err: int)
    requires p > 0
  {
    && i < |ph| && (forall j :: 0 <= j < i ==> Sound(ph[j], p, fileOnly)) && !ph[i].kind.Else?
    && if ph[i].kind.Load? then
         if !FileFits(ph[i], p, fileOnly) then err == EINVAL else !EndsBelow(ph[i], p) && err == EFORMAT
       else if !PathFits(ph[i]) then err == ETOOBIG
       else if ph[i].kind.short then err == EINTERP
       else !ph[i].kind.ends && err == EFORMAT
  }

  lemma {:induction false} RefusalIs(ph: seq<Phdr>, n: nat, p: nat, fileOnly: bool)
    requires p > 0 && n <= |ph|
    ensures var err := FirstRefusal(ph, n, p, fileOnly);
            if err == 0 then forall j :: 0 <= j < n ==> Sound(ph[j], p, fileOnly)
            else exists i: nat :: i < n && Faulted(ph, i, p, fileOnly, err)
  {
    if n > 0 {
      RefusalIs(ph, n - 1, p, fileOnly);
      var err := FirstRefusal(ph, n, p, fileOnly);
      if FirstRefusal(ph, n - 1, p, fileOnly) == 0 && err != 0 { assert Faulted(ph, n - 1, p, fileOnly, err); }
    }
  }

  method CheckInterp(h: Phdr) returns (err: int)
    requires h.kind.Interp?
    ensures forall p: nat, fileOnly :: p > 0 ==> err == Refusal(h, p, fileOnly)
  {
    if h.filesz < 2 || h.filesz > INTERP_MAX { return ETOOBIG; }
    if h.kind.short { return EINTERP; }
    if !h.kind.ends { return EFORMAT; }
    err := 0;
  }

  method CheckLoad(ph: seq<Phdr>, i: nat, p: nat, fileOnly: bool, nload: nat, lo0: Word, hi0: Word)
    returns (err: int, lo: Word, hi: Word)
    requires PageSize(p) && i < |ph| && ph[i].kind.Load? && Spanning(ph, i, p, nload, lo0, hi0)
    ensures err == Refusal(ph[i], p, fileOnly)
    ensures err == 0 ==> Spans(ph, i + 1, p, lo, hi)
  {
    var h := ph[i];
    lo, hi := lo0, hi0;
    if h.filesz > h.memsz { return EINVAL, lo, hi; }
    if h.filesz != 0 && h.offset % p != h.vaddr % p && fileOnly { return EINVAL, lo, hi; }
    var fit;
    fit, lo, hi := Widen(ph, i, p, nload, lo0, hi0);
    err := if fit then 0 else EFORMAT;
  }

  /** The pass over the headers: `clobbers` says whether a fixed image's span and
      `pool` meet the loader's own mappings. The first reason met is the answer. */
  method ReadHeaders(ph: seq<Phdr>, p: nat, fileOnly: bool, fixed: bool, pool: nat, clobbers: (int, int) -> bool)
    returns (err: int, lo: Word, hi: Word)
    requires PageSize(p)
    ensures if !(0 < |ph| <= MAX_PHDR) then err == ETOOBIG
            else if FirstRefusal(ph, |ph|, p, fileOnly) != 0 then err == FirstRefusal(ph, |ph|, p, fileOnly)
            else if !Acceptable(ph, p) then err == EFORMAT
            else Spans(ph, |ph|, p, lo, hi) && err == if fixed && clobbers(lo, hi - lo + pool) then ECLOBBER else 0
    ensures err == 0 ==> Spans(ph, |ph|, p, lo, hi) && lo <= hi && hi - lo + POOL < W
    ensures if !(0 < |ph| <= 64) then err == ETOOBIG
            else if forall i :: 0 <= i < |ph| ==> Sound(ph[i], p, fileOnly) then err in {0, EFORMAT, ECLOBBER}
            else exists i: nat :: Faulted(ph, i, p, fileOnly, err)
  {
    RefusalIs(ph, |ph|, p, fileOnly);
    lo, hi := W - 1, 0;
    if |ph| == 0 || |ph| > MAX_PHDR { return ETOOBIG, lo, hi; }
    var nload;
    err, nload, lo, hi := ScanHeaders(ph, p, fileOnly);
    if err != 0 { return; }
    if nload == 0 { return EFORMAT, lo, hi; }
    SpanWide(ph, p, lo, hi);
    if hi - lo > W - 1 - POOL { return EFORMAT, lo, hi; }
    err := if fixed && clobbers(lo, hi - lo + pool) then ECLOBBER else 0;
  }

  method ScanHeaders(ph: seq<Phdr>, p: nat, fileOnly: bool) returns (err: int, nload: nat, lo: Word, hi: Word)
    requires PageSize(p)
    ensures err == FirstRefusal(ph, |ph|, p, fileOnly)
    ensures err == 0 ==> Spanning(ph, |ph|, p, nload, lo, hi)
  {
    err, nload, lo, hi := 0, 0, W - 1, 0;
    var i := 0;
    while i < |ph|
      invariant 0 <= i <= |ph| && Spanning(ph, i, p, nload, lo, hi) && err == FirstRefusal(ph, i, p, fileOnly) == 0
    {
      if ph[i].kind.Interp? { err := CheckInterp(ph[i]); }
      if ph[i].kind.Load? {
        err, lo, hi := CheckLoad(ph, i, p, fileOnly, nload, lo, hi);
        nload := nload + 1;
      }
      if err != 0 {
        Refused(ph, i, |ph|, p, fileOnly);
        return;
      }
      i := i + 1;
    }
  }

  lemma {:induction false} Refused(ph: seq<Phdr>, i: nat, n: nat, p: nat, fileOnly: bool)
    requires p > 0 && i < n <= |ph| && FirstRefusal(ph, i, p, fileOnly) == 0 && Refusal(ph[i], p, fileOnly) != 0
    ensures FirstRefusal(ph, n, p, fileOnly) == Refusal(ph[i], p, fileOnly)
  {
    if i + 1 < n { Refused(ph, i, n - 1, p, fileOnly); }
  }

  // ---- the reservation ----

  /** The kernel's mapping for the span and the trampoline pool, below the top of
      the address space; a fixed image's is where it was linked. */
  ghost predicate Reserved(seg: int, dyn: bool, lo: int, hi: int, pool: nat, p: nat) {
    0 <= seg && Aligned(seg, p) && seg + (hi - lo) + pool < W && (!dyn ==> seg == lo)
  }

  function Bias(seg: int, dyn: bool, lo: int): Word {
    if dyn then (seg - lo) % W else 0
  }

  /** Where a segment starts in memory, wrap-around and all. */
  function At(h: Phdr, bias: Word): Word {
    (bias + h.vaddr) % W
  }

  lemma {:induction false} SpanAligned(ph: seq<Phdr>, p: nat, lo: int, hi: int)
    requires PageSize(p) && Spans(ph, |ph|, p, lo, hi)
    ensures Aligned(lo, p) && Aligned(hi, p) && 0 <= lo
  {
    var i :| 0 <= i < |ph| && ph[i].kind.Load? && lo == First(ph[i], p);
    DownNonNegative(ph[i].vaddr, p);
  }

  lemma {:induction false} Placed(h: Phdr, lo: Word, seg: int, dyn: bool)
    requires lo <= h.vaddr && 0 <= seg && seg + (h.vaddr - lo) < W && (!dyn ==> seg == lo)
    ensures At(h, Bias(seg, dyn, lo)) == seg + (h.vaddr - lo)
  {
  }

  /** A segment within the span, moved to the reservation with it. */
  ghost predicate Inside(h: Phdr, a: Word, p: nat, lo: int, hi: int, seg: int)
    requires p > 0 && Fits(h, p)
  {
    && a == seg + (h.vaddr - lo) && seg <= a && a + h.filesz <= a + h.memsz <= seg + (hi - lo) < W
    && Down(a, p) == seg + (First(h, p) - lo) && Up(a + h.memsz, p) == seg + (Last(h, p) - lo)
    && seg <= Down(a, p) <= Up(a + h.memsz, p) <= seg + (hi - lo)
  }

  lemma {:induction false} Moved(h: Phdr, a: Word, p: nat, lo: Word, hi: Word, seg: int)
    requires PageSize(p) && Fits(h, p) && lo <= First(h, p) && Last(h, p) <= hi && a == seg + (h.vaddr - lo)
    requires 0 <= seg && Aligned(seg, p) && Aligned(lo, p) && seg + (hi - lo) < W
    ensures Inside(h, a, p, lo, hi, seg)
  {
    Pages.Shift(seg, lo, p);
    DownMoves(h.vaddr, seg - lo, p);
    UpMoves(h.vaddr + h.memsz, seg - lo, seg + (hi - lo), p);
  }

  /** Every segment of an accepted image is inside the reservation, its file part
      included, and its pages are the linked ones moved as one: nothing wraps,
      whatever the bias does. */
  lemma {:induction false} LoadsInside(ph: seq<Phdr>, i: nat, p: nat, lo: Word, hi: Word, seg: int, dyn: bool,
                                       pool: nat)
    requires PageSize(p) && Spans(ph, |ph|, p, lo, hi) && i < |ph| && ph[i].kind.Load?
    requires Reserved(seg, dyn, lo, hi, pool, p)
    ensures Inside(ph[i], At(ph[i], Bias(seg, dyn, lo)), p, lo, hi, seg)
  {
    SpanAligned(ph, p, lo, hi);
    var h := ph[i];
    assert lo <= First(h, p) <= h.vaddr && h.vaddr + h.memsz <= Last(h, p) <= hi;
    Placed(h, lo, seg, dyn);
    Moved(h, seg + (h.vaddr - lo), p, lo, hi, seg);
  }

  /** An end moved by whole pages, below a page boundary below the top. */
  lemma {:induction false} UpMoves(e: Word, d: int, top: int, p: nat)
    requires PageSize(p) && Aligned(d, p) && e + p <= W && 0 <= e + d && Up(e, p) + d <= top < W
    ensures e + d + p <= W && e + d < W && Up(e + d, p) == Up(e, p) + d
  {
    Shift(Up(e, p), d, p);
    BelowTop(Up(e, p) + d, p);
    assert (e + p - 1) % W == e + p - 1 && (e + d + p - 1) % W == e + p - 1 + d;
    DownMoves(e + p - 1, d, p);
  }

  lemma {:induction false} BelowTop(x: int, p: nat)
    requires PageSize(p) && Aligned(x, p) && x < W
    ensures x + p <= W
  {
    Pages.Apart(x, W, p);
  }

  // ---- protections ----

  /** A segment's whole pages. */
  datatype Seg = Seg(lo: int, hi: int, prot: Prot)

  predicate Covers(s: Seg, a: int) {
    s.lo <= a < s.hi
  }

  function Union(a: Prot, b: Prot): Prot {
    Prot(a.r || b.r, a.w || b.w, a.x || b.x)
  }

  /** The union over the first `n` segments that cover page `a`. */
  ghost function UnionAt(segs: seq<Seg>, n: nat, a: int): Prot
    requires n <= |segs|
  {
    if n == 0 then Prot(false, false, false)
    else if Covers(segs[n - 1], a) then Union(UnionAt(segs, n - 1, a), segs[n - 1].prot)
    else UnionAt(segs, n - 1, a)
  }

  ghost predicate CoveredBy(segs: seq<Seg>, n: nat, a: int)
    requires n <= |segs|
  {
    exists i :: 0 <= i < n && Covers(segs[i], a)
  }

  ghost predicate Covered(segs: seq<Seg>, a: int) {
    CoveredBy(segs, |segs|, a)
  }

  /** What the union is: a right is in it exactly when a covering segment has it. */
  lemma {:induction false} UnionIs(segs: seq<Seg>, n: nat, a: int)
    requires n <= |segs|
    ensures UnionAt(segs, n, a).r <==> exists i :: 0 <= i < n && Covers(segs[i], a) && segs[i].prot.r
    ensures UnionAt(segs, n, a).w <==> exists i :: 0 <= i < n && Covers(segs[i], a) && segs[i].prot.w
    ensures UnionAt(segs, n, a).x <==> exists i :: 0 <= i < n && Covers(segs[i], a) && segs[i].prot.x
  {
    if n > 0 { UnionIs(segs, n - 1, a); }
  }

  ghost predicate Sorted(s: seq<int>) {
    forall i, j :: 0 <= i < j < |s| ==> s[i] < s[j]
  }

  lemma {:induction false} InsertedSorted(was: seq<int>, j: nat, e: int)
    requires Sorted(was) && j <= |was|
    requires (forall k :: 0 <= k < j ==> was[k] < e) && (j < |was| ==> e < was[j])
    ensures Sorted(was[..j] + [e] + was[j..])
    ensures forall x :: x in was[..j] + [e] + was[j..] <==> x in was || x == e
  {
  }

  /** Make room at `j` and put `e` there. */
  method PutAt(edge: array<int>, n: nat, j: nat, e: int)
    requires j <= n < edge.Length
    modifies edge
    ensures edge[..n + 1] == old(edge[..j]) + [e] + old(edge[j..n])
  {
    var m := n;
    while m > j
      invariant j <= m <= n
      invariant forall k :: 0 <= k <= m && k < n ==> edge[k] == old(edge[k])
      invariant forall k :: m < k <= n ==> edge[k] == old(edge[k - 1])
    {
      edge[m] := edge[m - 1];
      m := m - 1;
    }
    edge[j] := e;
  }

  /** Insert `e` in its place, unless it is there. */
  method Insert(edge: array<int>, n: nat, e: int) returns (n': nat)
    requires n < edge.Length && Sorted(edge[..n])
    modifies edge
    ensures n <= n' <= n + 1 && Sorted(edge[..n'])
    ensures forall x :: x in edge[..n'] <==> x in old(edge[..n]) || x == e
  {
    ghost var was := edge[..n];
    var j := 0;
    while j < n && edge[j] < e
      invariant 0 <= j <= n && forall k :: 0 <= k < j ==> was[k] < e
    {
      j := j + 1;
    }
    if j < n && edge[j] == e {
      assert was[j] == e;
      return n;
    }
    InsertedSorted(was, j, e);
    assert was[..j] == edge[..j] && was[j..] == edge[j..n];
    PutAt(edge, n, j, e);
    n' := n + 1;
  }

  /** Every boundary of a segment is an edge. */
  ghost predicate Bounded(segs: seq<Seg>, k: nat, edges: seq<int>)
    requires k <= |segs|
  {
    forall i :: 0 <= i < k ==> segs[i].lo in edges && segs[i].hi in edges
  }

  /** The page boundaries of all segments, in order; there is room for all. */
  method Edges(segs: seq<Seg>) returns (edge: array<int>, n: nat)
    requires |segs| <= MAX_PHDR
    ensures fresh(edge) && n <= edge.Length == 2 * MAX_PHDR && Sorted(edge[..n])
    ensures Bounded(segs, |segs|, edge[..n])
  {
    edge, n := new int[2 * MAX_PHDR], 0;
    var i := 0;
    while i < |segs|
      invariant 0 <= i <= |segs| && n <= 2 * i && Sorted(edge[..n]) && Bounded(segs, i, edge[..n])
    {
      n := Insert(edge, n, segs[i].lo);
      n := Insert(edge, n, segs[i].hi);
      i := i + 1;
    }
  }

  predicate Spanned(s: Seg, ps: int, pe: int) {
    s.lo <= ps && s.hi >= pe
  }

  /** Between two neighbouring edges a segment covers all or nothing. */
  lemma {:induction false} AllOrNothing(segs: seq<Seg>, edges: seq<int>, i: nat, r: nat, a: int)
    requires Bounded(segs, |segs|, edges) && i < |segs| && r + 1 < |edges|
    requires Sorted(edges)
    requires edges[r] <= a < edges[r + 1]
    ensures Spanned(segs[i], edges[r], edges[r + 1]) <==> Covers(segs[i], a)
  {
  }

  /** The protection of one run: the union over the segments that span it. */
  method RunProt(segs: seq<Seg>, edges: seq<int>, r: nat) returns (covered: bool, prot: Prot)
    requires Bounded(segs, |segs|, edges) && r + 1 < |edges|
    requires Sorted(edges)
    ensures forall a :: edges[r] <= a < edges[r + 1] ==>
              (covered <==> Covered(segs, a)) && prot == UnionAt(segs, |segs|, a)
  {
    covered, prot := false, Prot(false, false, false);
    var i := 0;
    while i < |segs|
      invariant 0 <= i <= |segs|
      invariant forall a :: edges[r] <= a < edges[r + 1] ==> prot == UnionAt(segs, i, a)
      invariant forall a :: edges[r] <= a < edges[r + 1] ==> (covered <==> CoveredBy(segs, i, a))
    {
      forall a | edges[r] <= a < edges[r + 1] ensures Spanned(segs[i], edges[r], edges[r + 1]) <==> Covers(segs[i], a) {
        AllOrNothing(segs, edges, i, r, a);
      }
      if Spanned(segs[i], edges[r], edges[r + 1]) {
        prot, covered := Union(prot, segs[i].prot), true;
      }
      i := i + 1;
      forall a | edges[r] <= a < edges[r + 1] ensures covered <==> CoveredBy(segs, i, a) {
        CoveredStep(segs, i - 1, a);
      }
    }
  }

  lemma {:induction false} CoveredStep(segs: seq<Seg>, n: nat, a: int)
    requires n < |segs|
    ensures CoveredBy(segs, n + 1, a) <==> CoveredBy(segs, n, a) || Covers(segs[n], a)
  {
  }

  /** What page `a` should end with, having been `was`. */
  ghost function Final(segs: seq<Seg>, a: int, was: Prot): Prot {
    if Covered(segs, a) then UnionAt(segs, |segs|, a) else was
  }

  /** The runs before edge `r` are done, the rest untouched. */
  ghost predicate Upto(segs: seq<Seg>, edge: int, mem: map<int, Prot>, now: map<int, Prot>) {
    now.Keys == mem.Keys && forall a :: a in mem ==> now[a] == if a < edge then Final(segs, a, mem[a]) else mem[a]
  }

  method OneRun(segs: seq<Seg>, edges: seq<int>, r: nat, ghost mem: map<int, Prot>, was: map<int, Prot>, faults: bool)
    returns (ok: bool, now: map<int, Prot>)
    requires Bounded(segs, |segs|, edges) && r + 1 < |edges| && Sorted(edges) && Upto(segs, edges[r], mem, was)
    ensures ok ==> Upto(segs, edges[r + 1], mem, now)
    ensures !faults ==> ok
  {
    var ps, pe := edges[r], edges[r + 1];
    var covered, prot := RunProt(segs, edges, r);
    ok, now := true, was;
    if covered {
      ok := *;
      ok := ok || !faults;
      now := map a | a in was :: if ps <= a < pe then prot else was[a];
    }
  }

  /** Set every run's protection. Each page ends with exactly the union of the
      protections of the segments whose pages include it; a page of no segment
      is left alone. A kernel with `faults` may refuse a call, and then the load
      fails. */
  method Protect(segs: seq<Seg>, mem: map<int, Prot>, faults: bool) returns (ok: bool, now: map<int, Prot>)
    requires |segs| <= MAX_PHDR
    ensures !faults ==> ok
    ensures ok ==> now.Keys == mem.Keys && forall a :: a in mem ==> now[a] == Final(segs, a, mem[a])
  {
    now, ok := mem, true;
    if segs == [] { return; }
    var edge, n := Edges(segs);
    var edges := edge[..n];
    assert segs[0].lo in edges;
    BeforeEdges(segs, edges);
    var r := 0;
    while r + 1 < n
      invariant 0 <= r < n && Upto(segs, edges[r], mem, now)
    {
      ok, now := OneRun(segs, edges, r, mem, now, faults);
      if !ok { return; }
      r := r + 1;
    }
  }

  /** No segment covers a page outside the edges. */
  lemma {:induction false} BeforeEdges(segs: seq<Seg>, edges: seq<int>)
    requires Bounded(segs, |segs|, edges) && |edges| > 0 && Sorted(edges)
    ensures forall a :: a < edges[0] || a >= edges[|edges| - 1] ==> !Covered(segs, a)
  {
  }

  /** A segment's pages in memory, as the loader computes them. */
  ghost function SegOf(h: Phdr, bias: Word, p: nat): Seg
    requires p > 0
  {
    Seg(Down(At(h, bias), p), Up((At(h, bias) + h.memsz) % W, p), h.prot)
  }

  /** `segs` are the loadable headers' segments; `src` says which header each
      comes from. */
  ghost predicate Made(ph: seq<Phdr>, n: nat, bias: Word, p: nat, segs: seq<Seg>, src: seq<nat>)
    requires p > 0 && n <= |ph|
  {
    && |src| == |segs| <= n
    && (forall k :: 0 <= k < |segs| ==> src[k] < n && ph[src[k]].kind.Load? && segs[k] == SegOf(ph[src[k]], bias, p))
    && (forall i :: 0 <= i < n && ph[i].kind.Load? ==> SegOf(ph[i], bias, p) in segs)
  }

  method Segments(ph: seq<Phdr>, bias: Word, p: nat) returns (segs: seq<Seg>, ghost src: seq<nat>)
    requires p > 0
    ensures Made(ph, |ph|, bias, p, segs, src)
  {
    segs, src := [], [];
    for n := 0 to |ph|
      invariant Made(ph, n, bias, p, segs, src)
    {
      if ph[n].kind.Load? {
        var lo := PageDown(At(ph[n], bias), p);
        var hi := PageUp((At(ph[n], bias) + ph[n].memsz) % W, p);
        segs, src := segs + [Seg(lo, hi, ph[n].prot)], src + [n];
      }
    }
  }

  /** A right, or just being there. */
  datatype Want = Read | Write | Exec | Any

  predicate Has(prot: Prot, c: Want) {
    match c case Read => prot.r case Write => prot.w case Exec => prot.x case Any => true
  }

  /** A segment whose linked pages include `v` has the right `c`. */
  ghost predicate Grants(h: Phdr, p: nat, v: int, c: Want)
    requires p > 0
  {
    h.kind.Load? && Fits(h, p) && First(h, p) <= v < Last(h, p) && Has(h.prot, c)
  }

  ghost predicate Granted(ph: seq<Phdr>, p: nat, v: int, c: Want)
    requires p > 0
  {
    exists i :: 0 <= i < |ph| && Grants(ph[i], p, v, c)
  }

  lemma {:induction false} NoWrap(x: int)
    requires 0 <= x < W
    ensures x % W == x
  {
  }

  lemma {:induction false} SegPlaced(h: Phdr, p: nat, bias: Word)
    requires p > 0 && At(h, bias) + h.memsz < W
    ensures SegOf(h, bias, p) == Seg(Down(At(h, bias), p), Up(At(h, bias) + h.memsz, p), h.prot)
  {
    NoWrap(At(h, bias) + h.memsz);
  }

  lemma {:induction false} UnionHas(segs: seq<Seg>, a: int, c: Want)
    ensures if c == Any then SegsGrant(segs, a, c) <==> Covered(segs, a) else Has(UnionAt(segs, |segs|, a), c) <==>
              SegsGrant(segs, a, c)
  {
    UnionIs(segs, |segs|, a);
  }

  lemma {:induction false} HeaderGrants(ph: seq<Phdr>, i: nat, p: nat, lo: Word, hi: Word, seg: int, dyn: bool,
                                        pool: nat, a: int, c: Want)
    requires PageSize(p) && Spans(ph, |ph|, p, lo, hi) && Reserved(seg, dyn, lo, hi, pool, p) && i < |ph|
    requires ph[i].kind.Load?
    ensures Grants(ph[i], p, a - seg + lo, c) <==> Covers(SegOf(ph[i], Bias(seg, dyn, lo), p), a) && Has(ph[i].prot, c)
  {
    LoadsInside(ph, i, p, lo, hi, seg, dyn, pool);
    SegPlaced(ph[i], p, Bias(seg, dyn, lo));
  }

  ghost predicate SegsGrant(segs: seq<Seg>, a: int, c: Want) {
    exists k :: 0 <= k < |segs| && Covers(segs[k], a) && Has(segs[k].prot, c)
  }

  lemma {:induction false} GrantReaches(ph: seq<Phdr>, segs: seq<Seg>, src: seq<nat>, i: nat, bias: Word, p: nat,
                                        a: int, c: Want)
    requires p > 0 && Made(ph, |ph|, bias, p, segs, src) && i < |ph| && ph[i].kind.Load?
    requires Covers(SegOf(ph[i], bias, p), a) && Has(ph[i].prot, c)
    ensures SegsGrant(segs, a, c)
  {
    var k :| 0 <= k < |segs| && segs[k] == SegOf(ph[i], bias, p);
    assert Covers(segs[k], a) && Has(segs[k].prot, c);
  }

  /** The segments in memory grant what the headers do. */
  lemma {:induction false} SameGrants(ph: seq<Phdr>, segs: seq<Seg>, src: seq<nat>, p: nat, lo: Word, hi: Word,
                                      seg: int, dyn: bool, pool: nat, a: int, c: Want)
    requires PageSize(p) && Spans(ph, |ph|, p, lo, hi) && Reserved(seg, dyn, lo, hi, pool, p)
    requires Made(ph, |ph|, Bias(seg, dyn, lo), p, segs, src)
    ensures Granted(ph, p, a - seg + lo, c) <==> SegsGrant(segs, a, c)
  {
    if Granted(ph, p, a - seg + lo, c) {
      var i :| 0 <= i < |ph| && Grants(ph[i], p, a - seg + lo, c);
      HeaderGrants(ph, i, p, lo, hi, seg, dyn, pool, a, c);
      GrantReaches(ph, segs, src, i, Bias(seg, dyn, lo), p, a, c);
    }
    if SegsGrant(segs, a, c) {
      var k :| 0 <= k < |segs| && Covers(segs[k], a) && Has(segs[k].prot, c);
      HeaderGrants(ph, src[k], p, lo, hi, seg, dyn, pool, a, c);
    }
  }

  /** A page's final rights, in the headers' own terms. */
  ghost predicate Right(ph: seq<Phdr>, p: nat, v: int, was: Prot, now: Prot)
    requires p > 0
  {
    if Granted(ph, p, v, Any) then forall c :: c != Any ==> (Has(now, c) <==> Granted(ph, p, v, c)) else now == was
  }

  lemma {:induction false} FinalIsRight(ph: seq<Phdr>, segs: seq<Seg>, src: seq<nat>, p: nat, lo: Word, hi: Word,
                                        seg: int, dyn: bool, pool: nat, a: int, was: Prot)
    requires PageSize(p) && Spans(ph, |ph|, p, lo, hi) && Reserved(seg, dyn, lo, hi, pool, p)
    requires Made(ph, |ph|, Bias(seg, dyn, lo), p, segs, src)
    ensures Right(ph, p, a - seg + lo, was, Final(segs, a, was))
  {
    forall c ensures c != Any && Covered(segs, a) ==>
            (Has(Final(segs, a, was), c) <==> Granted(ph, p, a - seg + lo, c)) {
      SameGrants(ph, segs, src, p, lo, hi, seg, dyn, pool, a, c);
      UnionHas(segs, a, c);
    }
    SameGrants(ph, segs, src, p, lo, hi, seg, dyn, pool, a, Any);
    UnionHas(segs, a, Any);
  }

  /** Page `a` of the reservation ends with the rights the headers give it. */
  ghost predicate RightAt(ph: seq<Phdr>, p: nat, lo: int, seg: int, mem: map<int, Prot>, now: map<int, Prot>, a: int)
    requires p > 0
  {
    a in mem && a in now && Right(ph, p, a - seg + lo, mem[a], now[a])
  }

  lemma {:induction false} FinalIsRightAt(ph: seq<Phdr>, segs: seq<Seg>, src: seq<nat>, p: nat, lo: Word, hi: Word,
                                          seg: int, dyn: bool, pool: nat, mem: map<int, Prot>, now: map<int, Prot>,
                                          a: int)
    requires PageSize(p) && Spans(ph, |ph|, p, lo, hi) && Reserved(seg, dyn, lo, hi, pool, p)
    requires Made(ph, |ph|, Bias(seg, dyn, lo), p, segs, src)
    requires a in mem && a in now && now[a] == Final(segs, a, mem[a])
    ensures RightAt(ph, p, lo, seg, mem, now, a)
  {
    FinalIsRight(ph, segs, src, p, lo, hi, seg, dyn, pool, a, mem[a]);
  }

  /** The protections of an accepted image in its reservation. */
  method ProtectImage(ph: seq<Phdr>, p: nat, lo: Word, hi: Word, seg: int, dyn: bool, pool: nat, mem: map<int, Prot>,
                      faults: bool)
    returns (ok: bool, now: map<int, Prot>)
    requires PageSize(p) && |ph| <= MAX_PHDR && Spans(ph, |ph|, p, lo, hi) && Reserved(seg, dyn, lo, hi, pool, p)
    ensures !faults ==> ok
    ensures ok ==> now.Keys == mem.Keys && forall a :: a in mem ==> RightAt(ph, p, lo, seg, mem, now, a)
  {
    var segs;
    ghost var src;
    segs, src := Segments(ph, Bias(seg, dyn, lo), p);
    ok, now := Protect(segs, mem, faults);
    if ok {
      forall a | a in mem ensures RightAt(ph, p, lo, seg, mem, now, a) {
        FinalIsRightAt(ph, segs, src, p, lo, hi, seg, dyn, pool, mem, now, a);
      }
    }
  }
}
