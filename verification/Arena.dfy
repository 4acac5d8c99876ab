/** The daemon's allocator: boundary-tagged first fit over mapped chunks. The
    model keeps the block headers by their address; sizes do not wrap. */
module Arena {
  import opened Slots

  const HDR := 32
  const ALIGN := 16
  const CHUNK := 0x10_0000
  const PAGE := 4096

  /** A block header. `next` is the next free block, 0 at the end of the list. */
  datatype Blk = Blk(size: nat, free: bool, last: bool, next: nat)

  type Headers = map<nat, Blk>

  function End(h: Headers, a: nat): nat
    requires a in h
  {
    a + HDR + h[a].size
  }

  /** From `a` the blocks follow one another without a gap up to `end`, and
      only the final one is marked last. */
  ghost predicate Tiles(h: Headers, a: nat, end: nat)
    decreases if a < end then end - a else 0
  {
    a <= end && (a == end ||
      (&& a in h && h[a].size > 0 && h[a].size % ALIGN == 0 && End(h, a) <= end
       && (h[a].last <==> End(h, a) == end)
       && Tiles(h, End(h, a), end)))
  }

  ghost function Blocks(h: Headers, a: nat, end: nat): (s: set<nat>)
    requires Tiles(h, a, end)
    decreases if a < end then end - a else 0
  {
    if a == end then {} else {a} + Blocks(h, End(h, a), end)
  }

  lemma {:induction false} BlocksAre(h: Headers, a: nat, end: nat, b: nat)
    requires Tiles(h, a, end) && b in Blocks(h, a, end)
    ensures a <= b < end && b in h && (a % ALIGN == 0 ==> b % ALIGN == 0)
    ensures h[b].size > 0 && h[b].size % ALIGN == 0 && End(h, b) <= end && (h[b].last <==> End(h, b) == end)
    ensures End(h, b) < end ==> End(h, b) in Blocks(h, a, end)
    decreases if a < end then end - a else 0
  {
    if b != a { BlocksAre(h, End(h, a), end, b); }
  }

  /** Two blocks of a chunk do not overlap. */
  lemma {:induction false} BlocksApart(h: Headers, a: nat, end: nat, b: nat, c: nat)
    requires Tiles(h, a, end) && b in Blocks(h, a, end) && c in Blocks(h, a, end) && b < c
    ensures b in h && End(h, b) <= c
    decreases if a < end then end - a else 0
  {
    if b == a {
      BlocksAre(h, End(h, a), end, c);
    } else {
      BlocksAre(h, End(h, a), end, b);
      BlocksApart(h, End(h, a), end, b, c);
    }
  }

  /** A chunk whose own headers keep their sizes keeps its tiling. */
  lemma {:induction false} TilesFrame(h: Headers, h': Headers, a: nat, end: nat)
    requires Tiles(h, a, end)
    requires forall b :: b in Blocks(h, a, end) ==>
               b in h && b in h' && h'[b].size == h[b].size && h'[b].last == h[b].last
    ensures Tiles(h', a, end) && Blocks(h', a, end) == Blocks(h, a, end)
    decreases if a < end then end - a else 0
  {
    if a < end {
      assert a in Blocks(h, a, end);
      TilesFrame(h, h', End(h, a), end);
    }
  }

  /** Carving a block in two keeps its chunk tiled. */
  lemma {:induction false} SplitTiles(h: Headers, a: nat, end: nat, b: nat, want: nat, h': Headers)
    requires Tiles(h, a, end) && b in Blocks(h, a, end) && b in h
    requires want > 0 && want % ALIGN == 0 && h[b].size >= want + HDR + ALIGN
    requires b in h' && h'[b].size == want && !h'[b].last
    requires var r := b + HDR + want; r in h' && h'[r].size == h[b].size - want - HDR && h'[r].last == h[b].last
    requires forall c :: c in Blocks(h, a, end) && c != b ==>
               c in h && c in h' && h'[c].size == h[c].size && h'[c].last == h[c].last
    ensures Tiles(h', a, end) && Blocks(h', a, end) == Blocks(h, a, end) + {b + HDR + want}
    decreases if a < end then end - a else 0
  {
    var r := b + HDR + want;
    BlocksAre(h, a, end, b);
    if b == a {
      forall c | c in Blocks(h, End(h, a), end) ensures c != b && c in Blocks(h, a, end) {
        BlocksAre(h, End(h, a), end, c);
      }
      TilesFrame(h, h', End(h, a), end);
      assert End(h', r) == End(h, b);
      assert Tiles(h', r, end);
    } else {
      SplitTiles(h, End(h, a), end, b, want, h');
    }
  }

  /** Absorbing the block that follows keeps the chunk tiled. */
  lemma {:induction false} MergeTiles(h: Headers, a: nat, end: nat, b: nat, h': Headers)
    requires Tiles(h, a, end) && b in Blocks(h, a, end) && b in h && !h[b].last
    requires var nx := End(h, b);
             nx in h && b in h' && h'[b].size == h[b].size + HDR + h[nx].size && h'[b].last == h[nx].last
    requires forall c :: c in Blocks(h, a, end) && c != b && c != End(h, b) ==>
      c in h && c in h' && h'[c].size == h[c].size && h'[c].last == h[c].last
    ensures Tiles(h', a, end) && Blocks(h', a, end) == Blocks(h, a, end) - {End(h, b)}
    decreases if a < end then end - a else 0
  {
    var nx := End(h, b);
    BlocksAre(h, a, end, b);
    if b == a {
      BlocksAre(h, a, end, nx);
      forall c | c in Blocks(h, End(h, nx), end) ensures c != b && c != nx && c in Blocks(h, a, end) {
        BlocksAre(h, End(h, nx), end, c);
      }
      assert Tiles(h, End(h, nx), end);
      TilesFrame(h, h', End(h, nx), end);
      assert End(h', b) == End(h, nx);
    } else {
      assert nx != a && a in Blocks(h, a, end);
      BlocksAre(h, End(h, a), end, b);
      MergeTiles(h, End(h, a), end, b, h');
    }
  }

  /** A mapped chunk. */
  datatype Chunk = Chunk(base: nat, len: nat)

  ghost predicate Mapped(c: Chunk) {
    c.base > 0 && c.base % PAGE == 0 && c.len > 0
  }

  ghost predicate Apart(c: Chunk, d: Chunk) {
    c.base + c.len <= d.base || d.base + d.len <= c.base
  }

  ghost function In(h: Headers, c: Chunk): set<nat>
    requires Tiles(h, c.base, c.base + c.len)
  {
    Blocks(h, c.base, c.base + c.len)
  }

  /** Block `a` is one of some chunk's. */
  ghost predicate Housed(h: Headers, chunks: set<Chunk>, a: nat) {
    exists c :: c in chunks && Tiles(h, c.base, c.base + c.len) && a in In(h, c)
  }

  ghost predicate ChunksOk(h: Headers, chunks: set<Chunk>) {
    && (forall c :: c in chunks ==> Mapped(c) && Tiles(h, c.base, c.base + c.len))
    && (forall c, d :: c in chunks && d in chunks && c != d ==> Apart(c, d))
    && (forall a {:trigger Housed(h, chunks, a)} :: a in h ==> Housed(h, chunks, a))
  }

  ghost function Next(fl: seq<nat>, i: int): nat {
    if 0 <= i + 1 < |fl| then fl[i + 1] else 0
  }

  /** Entry `i` of the list is a free block and links to the one after it. */
  ghost predicate Entry(h: Headers, fl: seq<nat>, i: nat)
    requires i < |fl|
  {
    fl[i] != 0 && fl[i] in h && h[fl[i]].free && h[fl[i]].next == Next(fl, i)
  }

  /** The list from `head` visits exactly the free blocks, once each. */
  ghost predicate ListOk(h: Headers, head: nat, fl: seq<nat>) {
    && head == Next(fl, -1)
    && (forall i {:trigger Entry(h, fl, i)} :: 0 <= i < |fl| ==> Entry(h, fl, i))
    && (forall i, j :: 0 <= i < j < |fl| ==> fl[i] != fl[j])
    && (forall a :: a in h && h[a].free ==> a in fl)
  }

  function RoundUp(n: nat): (r: nat)
    ensures n <= r < n + ALIGN && r % ALIGN == 0
  {
    (n + ALIGN - 1) / ALIGN * ALIGN
  }

  function ChunkLen(n: nat): (r: nat)
    ensures r >= n + HDR && r % PAGE == 0
  {
    var c := if n + HDR < CHUNK then CHUNK else n + HDR;
    (c + PAGE - 1) / PAGE * PAGE
  }

  lemma {:induction false} OnGrain(x: nat)
    requires x % PAGE == 0
    ensures (x + HDR) % ALIGN == 0 && (x - HDR) % ALIGN == 0
  {
    assert x == x / PAGE * 256 * ALIGN;
  }

  // ---- chunks through a change of headers ----

  lemma {:induction false} BlockOf(h: Headers, c: Chunk, b: nat)
    requires Mapped(c) && Tiles(h, c.base, c.base + c.len) && b in In(h, c)
    ensures b in h && c.base <= b && End(h, b) <= c.base + c.len
    ensures b > 0 && b % ALIGN == 0 && h[b].size > 0 && h[b].size % ALIGN == 0
    ensures !h[b].last ==> End(h, b) in h && End(h, b) in In(h, c)
  {
    BlocksAre(h, c.base, c.base + c.len, b);
    if !h[b].last { BlocksAre(h, c.base, c.base + c.len, End(h, b)); }
  }

  lemma {:induction false} BlockIn(h: Headers, chunks: set<Chunk>, b: nat) returns (c: Chunk)
    requires ChunksOk(h, chunks) && b in h
    ensures c in chunks && b in In(h, c) && c.base <= b && End(h, b) <= c.base + c.len
    ensures b > 0 && b % ALIGN == 0 && h[b].size > 0 && h[b].size % ALIGN == 0
    ensures !h[b].last ==> End(h, b) in h && End(h, b) in In(h, c)
  {
    assert Housed(h, chunks, b);
    c :| c in chunks && Tiles(h, c.base, c.base + c.len) && b in In(h, c);
    BlockOf(h, c, b);
  }

  /** Blocks of different chunks do not overlap either. */
  lemma {:induction false} AllApart(h: Headers, chunks: set<Chunk>, b: nat, d: nat)
    requires ChunksOk(h, chunks) && b in h && d in h && b < d
    ensures End(h, b) <= d
  {
    var c := BlockIn(h, chunks, b);
    var e := BlockIn(h, chunks, d);
    if c == e { BlocksApart(h, c.base, c.base + c.len, b, d); } else { assert Apart(c, e); }
  }

  /** Marks and links may change freely. */
  lemma {:induction false} Relabel(h: Headers, h': Headers, chunks: set<Chunk>)
    requires ChunksOk(h, chunks) && h'.Keys == h.Keys
    requires forall b :: b in h ==> h'[b].size == h[b].size && h'[b].last == h[b].last
    ensures ChunksOk(h', chunks)
  {
    forall c | c in chunks ensures Tiles(h', c.base, c.base + c.len) && In(h', c) == In(h, c) {
      FrameChunk(h, h', c);
    }
    forall a | a in h' ensures Housed(h', chunks, a) {
      var c := BlockIn(h, chunks, a);
      assert a in In(h', c);
    }
  }

  lemma {:induction false} FrameChunk(h: Headers, h': Headers, c: Chunk)
    requires Tiles(h, c.base, c.base + c.len)
    requires forall b :: b in In(h, c) && b in h ==> b in h' && h'[b].size == h[b].size && h'[b].last == h[b].last
    ensures Tiles(h', c.base, c.base + c.len) && In(h', c) == In(h, c)
  {
    forall b | b in In(h, c) ensures b in h { BlocksAre(h, c.base, c.base + c.len, b); }
    TilesFrame(h, h', c.base, c.base + c.len);
  }

  lemma {:induction false} OtherChunk(h: Headers, chunks: set<Chunk>, c: Chunk, d: Chunk, b: nat)
    requires ChunksOk(h, chunks) && c in chunks && d in chunks && c != d && b in In(h, d)
    ensures b in h && b !in In(h, c)
  {
    BlocksAre(h, d.base, d.base + d.len, b);
    assert Apart(c, d);
    if b in In(h, c) { BlocksAre(h, c.base, c.base + c.len, b); }
  }

  /** Outside the blocks `own`, two header maps agree. */
  ghost predicate AgreeOutside(h: Headers, h': Headers, own: set<nat>) {
    forall b :: b in h && b !in own ==> b in h' && h'[b].size == h[b].size && h'[b].last == h[b].last
  }

  lemma {:induction false} FrameOther(h: Headers, h': Headers, chunks: set<Chunk>, c: Chunk, d: Chunk, own: set<nat>)
    requires ChunksOk(h, chunks) && c in chunks && d in chunks && d != c && own == In(h, c) && AgreeOutside(h, h', own)
    ensures Tiles(h', d.base, d.base + d.len) && In(h', d) == In(h, d)
  {
    forall b | b in In(h, d) ensures b in h && b !in own { OtherChunk(h, chunks, c, d, b); }
    FrameChunk(h, h', d);
  }

  lemma {:induction false} HousedAfter(h: Headers, h': Headers, chunks: set<Chunk>, c: Chunk, own: set<nat>,
                                       own': set<nat>, b: nat)
    requires ChunksOk(h, chunks) && c in chunks && Tiles(h', c.base, c.base + c.len)
    requires own == In(h, c) && own' == In(h', c) && AgreeOutside(h, h', own)
    requires b in h' && (b in own' || (b in h && b !in own))
    ensures Housed(h', chunks, b)
  {
    if b !in own' {
      var d := BlockIn(h, chunks, b);
      FrameOther(h, h', chunks, c, d, own);
      assert b in In(h', d);
    }
  }

  /** Only chunk `c` has changed, and it is still tiled. */
  lemma {:induction false} OneChunk(h: Headers, h': Headers, chunks: set<Chunk>, c: Chunk, own: set<nat>,
                                    own': set<nat>)
    requires ChunksOk(h, chunks) && c in chunks && Tiles(h', c.base, c.base + c.len)
    requires own == In(h, c) && own' == In(h', c) && AgreeOutside(h, h', own)
    requires forall b :: b in h' && b !in own' ==> b in h && b !in own
    ensures ChunksOk(h', chunks)
  {
    forall d | d in chunks ensures Tiles(h', d.base, d.base + d.len) {
      if d != c { FrameOther(h, h', chunks, c, d, own); }
    }
    forall b | b in h' ensures Housed(h', chunks, b) {
      HousedAfter(h, h', chunks, c, own, own', b);
    }
  }

  lemma {:induction false} SplitChunks(h: Headers, chunks: set<Chunk>, b: nat, want: nat, bb: Blk, rest: Blk)
    requires ChunksOk(h, chunks) && b in h && want > 0 && want % ALIGN == 0 && h[b].size >= want + HDR + ALIGN
    requires bb.size == want && !bb.last && rest.size == h[b].size - want - HDR && rest.last == h[b].last
    ensures b + HDR + want !in h
    ensures ChunksOk(h[b := bb][b + HDR + want := rest], chunks)
  {
    var r := b + HDR + want;
    if r in h { AllApart(h, chunks, b, r); }
    var h' := h[b := bb][r := rest];
    var c := BlockIn(h, chunks, b);
    forall x | x in In(h, c) ensures x in h { BlocksAre(h, c.base, c.base + c.len, x); }
    SplitTiles(h, c.base, c.base + c.len, b, want, h');
    OneChunk(h, h', chunks, c, In(h, c), In(h', c));
  }

  lemma {:induction false} MergeChunks(h: Headers, chunks: set<Chunk>, b: nat, bb: Blk)
    requires ChunksOk(h, chunks) && b in h && !h[b].last && End(h, b) in h
    requires bb.size == h[b].size + HDR + h[End(h, b)].size && bb.last == h[End(h, b)].last
    ensures ChunksOk((h - {End(h, b)})[b := bb], chunks)
  {
    var nx := End(h, b);
    var h' := (h - {nx})[b := bb];
    var c := BlockIn(h, chunks, b);
    forall x | x in In(h, c) ensures x in h { BlocksAre(h, c.base, c.base + c.len, x); }
    MergeTiles(h, c.base, c.base + c.len, b, h');
    OneChunk(h, h', chunks, c, In(h, c), In(h', c));
  }

  lemma {:induction false} AddChunk(h: Headers, chunks: set<Chunk>, c: Chunk, b: Blk)
    requires ChunksOk(h, chunks) && Mapped(c) && c !in chunks && forall d :: d in chunks ==> Apart(c, d)
    requires b.size == c.len - HDR && b.size > 0 && b.size % ALIGN == 0 && b.last
    ensures c.base !in h && ChunksOk(h[c.base := b], chunks + {c})
  {
    if c.base in h {
      var d := BlockIn(h, chunks, c.base);
      assert false;
    }
    var h' := h[c.base := b];
    assert Tiles(h', c.base + c.len, c.base + c.len);
    assert Tiles(h', c.base, c.base + c.len);
    forall d | d in chunks ensures Tiles(h', d.base, d.base + d.len) && In(h', d) == In(h, d) {
      forall x | x in In(h, d) ensures x in h { BlocksAre(h, d.base, d.base + d.len, x); }
      FrameChunk(h, h', d);
    }
    forall x | x in h' ensures Housed(h', chunks + {c}, x) {
      if x == c.base {
        assert x in In(h', c);
      } else {
        var d := BlockIn(h, chunks, x);
        assert x in In(h', d);
      }
    }
  }

  // ---- the free list ----

  function Cut(fl: seq<nat>, i: nat): seq<nat>
    requires i < |fl|
  {
    fl[..i] + fl[i + 1..]
  }

  /** The headers after entry `i` is unlinked and marked taken. */
  ghost function Unlinked(h: Headers, fl: seq<nat>, i: nat): Headers
    requires i < |fl| && fl[i] in h && (i > 0 ==> fl[i - 1] in h)
  {
    var h1 := if i > 0 then h[fl[i - 1] := h[fl[i - 1]].(next := h[fl[i]].next)] else h;
    h1[fl[i] := h1[fl[i]].(free := false, next := 0)]
  }

  lemma {:induction false} Entries(h: Headers, head: nat, fl: seq<nat>, i: nat)
    requires ListOk(h, head, fl) && i < |fl|
    ensures Entry(h, fl, i) && (i > 0 ==> Entry(h, fl, i - 1))
  {
  }

  lemma {:induction false} UnlinkEntry(h: Headers, head: nat, fl: seq<nat>, i: nat, j: nat)
    requires ListOk(h, head, fl) && i < |fl| && j < |fl| - 1 && fl[i] in h && (i > 0 ==> fl[i - 1] in h)
    ensures Entry(Unlinked(h, fl, i), Cut(fl, i), j)
  {
    var k := if j < i then j else j + 1;
    Entries(h, head, fl, k);
    Entries(h, head, fl, i);
    assert Cut(fl, i)[j] == fl[k] && fl[k] != fl[i];
    if i > 0 && k != i - 1 { assert fl[k] != fl[i - 1]; }
  }

  lemma {:induction false} UnlinkList(h: Headers, head: nat, fl: seq<nat>, i: nat)
    requires ListOk(h, head, fl) && i < |fl| && fl[i] in h && (i > 0 ==> fl[i - 1] in h)
    ensures ListOk(Unlinked(h, fl, i), if i > 0 then head else h[fl[i]].next, Cut(fl, i))
  {
    var h', fl' := Unlinked(h, fl, i), Cut(fl, i);
    Entries(h, head, fl, i);
    forall j | 0 <= j < |fl'| ensures Entry(h', fl', j) { UnlinkEntry(h, head, fl, i, j); }
    forall a | a in h' && h'[a].free ensures a in fl' {
      assert a in fl;
      var k :| 0 <= k < |fl| && fl[k] == a;
      assert a == fl'[if k < i then k else k - 1];
    }
  }

  lemma {:induction false} PushList(h: Headers, head: nat, fl: seq<nat>, b: nat, blk: Blk)
    requires ListOk(h, head, fl) && b != 0 && (b in h ==> !h[b].free) && blk.free && blk.next == head
    ensures ListOk(h[b := blk], b, [b] + fl)
  {
    var h', fl' := h[b := blk], [b] + fl;
    forall j | 0 <= j < |fl'| ensures Entry(h', fl', j) {
      if j > 0 { assert fl'[j] == fl[j - 1]; Entries(h, head, fl, j - 1); }
    }
    forall j | 0 <= j < |fl| ensures fl[j] != b { Entries(h, head, fl, j); }
    forall a | a in h' && h'[a].free ensures a in fl' {
      if a != b { assert a in fl; }
    }
  }

  /** A change to a taken block's header, or the loss of one, is nothing to the
      list. */
  lemma {:induction false} TakenList(h: Headers, h': Headers, head: nat, fl: seq<nat>)
    requires ListOk(h, head, fl)
    requires forall a :: a in h && h[a].free ==> a in h' && h'[a].free && h'[a].next == h[a].next
    requires forall a :: a in h' && h'[a].free ==> a in h && h[a].free
    ensures ListOk(h', head, fl)
  {
    forall j | 0 <= j < |fl| ensures Entry(h', fl, j) { Entries(h, head, fl, j); }
  }

  class Arena {
    var hdr: Headers
    var gFree: nat
    ghost var chunks: set<Chunk>
    ghost var fl: seq<nat>

    /** Blocks tile every chunk exactly, and the list holds exactly the free
        ones, once each. */
    ghost predicate Valid()
      reads this
    {
      ChunksOk(hdr, chunks) && ListOk(hdr, gFree, fl)
    }

    /** The blocks handed out and not yet given back. */
    ghost function Live(): set<nat>
      reads this
    {
      set a | a in hdr && !hdr[a].free
    }

    constructor ()
      ensures Valid() && Live() == {}
    {
      hdr, gFree, chunks, fl := map[], 0, {}, [];
    }

    /** Take the free block `b` off the list, its predecessor at hand. */
    method TakeOff(b: nat, prev: nat, ghost i: nat)
      requires Valid() && i < |fl| && b == fl[i] && prev == if i > 0 then fl[i - 1] else 0
      modifies this
      ensures Valid() && chunks == old(chunks) && hdr.Keys == old(hdr).Keys
      ensures Live() == old(Live()) + {b}
      ensures forall a :: a in hdr ==> hdr[a].size == old(hdr)[a].size && hdr[a].last == old(hdr)[a].last
    {
      ghost var h0 := hdr;
      Entries(hdr, gFree, fl, i);
      UnlinkList(hdr, gFree, fl, i);
      if prev != 0 {
        hdr := hdr[prev := hdr[prev].(next := hdr[b].next)];
      } else {
        gFree := hdr[b].next;
      }
      hdr := hdr[b := hdr[b].(free := false, next := 0)];
      assert hdr == Unlinked(h0, fl, i);
      Relabel(h0, hdr, chunks);
      fl := Cut(fl, i);
    }

    /** Carve `want` bytes off the taken block `b`, leaving the rest free if it
        would hold a header and anything more. */
    method Split(b: nat, want: nat)
      requires Valid() && b in Live() && want > 0 && want % ALIGN == 0 && hdr[b].size >= want
      modifies this
      ensures Valid() && chunks == old(chunks)
      ensures Live() == old(Live()) && hdr[b].size >= want
      ensures hdr[b].size == want || hdr[b].size == old(hdr)[b].size < want + HDR + ALIGN
      ensures forall a :: a in Live() && a != b ==> hdr[a].size == old(hdr)[a].size
    {
      if hdr[b].size < want + HDR + ALIGN {
        return;
      }
      var rest := b + HDR + want;
      var rb := Blk(hdr[b].size - want - HDR, true, hdr[b].last, gFree);
      var bb := hdr[b].(size := want, last := false);
      ghost var h0 := hdr;
      SplitChunks(hdr, chunks, b, want, bb, rb);
      TakenList(hdr, hdr[b := bb], gFree, fl);
      PushList(hdr[b := bb], gFree, fl, rest, rb);
      hdr := hdr[b := bb][rest := rb];
      gFree := rest;
      fl := [rest] + fl;
    }

    /** What the kernel promises of an address it maps a chunk at. */
    ghost predicate Mappable(at: nat, len: nat)
      reads this
    {
      var c := Chunk(at, len);
      Mapped(c) && c !in chunks && forall d :: d in chunks ==> Apart(c, d)
    }

    /** The first block on the list that holds `want` bytes, and its
        predecessor: 0 for none. */
    method FirstFit(want: nat) returns (b: nat, prev: nat, ghost i: nat)
      requires Valid()
      ensures b != 0 ==>
                i < |fl| && b == fl[i] && prev == (if i > 0 then fl[i - 1] else 0) && b in hdr && hdr[b].size >= want
      ensures b != 0 ==> forall j :: 0 <= j < i ==> fl[j] in hdr && hdr[fl[j]].size < want
      ensures b == 0 ==> forall a :: a in hdr && hdr[a].free ==> hdr[a].size < want
    {
      b, prev, i := gFree, 0, 0;
      if |fl| > 0 { Entries(hdr, gFree, fl, 0); }
      while b != 0
        invariant 0 <= i <= |fl| && b == Next(fl, i - 1) && prev == if i > 0 then fl[i - 1] else 0
        invariant b == 0 ==> i == |fl|
        invariant i < |fl| ==> fl[i] != 0
        invariant forall j :: 0 <= j < i ==> fl[j] in hdr && hdr[fl[j]].size < want
        decreases |fl| - i
      {
        Entries(hdr, gFree, fl, i);
        if hdr[b].size >= want {
          return;
        }
        prev := b;
        b := hdr[b].next;
        i := i + 1;
        if i < |fl| { Entries(hdr, gFree, fl, i); }
      }
    }

    /** Where the free block `nx` stands on the list: its predecessor. */
    method Before(nx: nat) returns (prev: nat, ghost i: nat)
      requires Valid() && nx in hdr && hdr[nx].free
      ensures i < |fl| && fl[i] == nx && prev == if i > 0 then fl[i - 1] else 0
    {
      var c := gFree;
      prev, i := 0, 0;
      ghost var k :| 0 <= k < |fl| && fl[k] == nx;
      while c != nx
        invariant 0 <= i <= k < |fl| && c == Next(fl, i - 1) && prev == if i > 0 then fl[i - 1] else 0
        decreases |fl| - i
      {
        Entries(hdr, gFree, fl, i);
        prev := c;
        c := hdr[c].next;
        i := i + 1;
      }
    }

    /** Allocate `n` bytes: the first free block that holds them, or a new
        chunk at `at` (None: the host gives no memory). */
    method Alloc(n: nat, at: Option<nat>) returns (p: nat)
      requires Valid() && (at.Some? ==> Mappable(at.value, ChunkLen(RoundUp(if n == 0 then 1 else n))))
      modifies this
      ensures Valid()
      ensures p == 0 ==> at.None? && hdr == old(hdr) && fl == old(fl)
      ensures p == 0 || chunks != old(chunks) ==> forall a :: a in old(hdr) && old(hdr)[a].free ==>
                old(hdr)[a].size < n + ALIGN
      ensures p != 0 ==> p % ALIGN == 0 && p >= HDR && p - HDR !in old(Live()) && Live() == old(Live()) + {p - HDR}
      ensures p != 0 ==> p - HDR in hdr && hdr[p - HDR].size >= n && hdr[p - HDR].size > 0
      ensures forall a :: a in old(Live()) ==> a in hdr && hdr[a].size == old(hdr)[a].size
    {
      var want := RoundUp(if n == 0 then 1 else n);
      var b, prev;
      ghost var i;
      b, prev, i := FirstFit(want);
      if b != 0 {
        ghost var c := BlockIn(hdr, chunks, b);
        Entries(hdr, gFree, fl, i);
        TakeOff(b, prev, i);
        Split(b, want);
        return b + HDR;
      }
      if at.None? {
        return 0;
      }
      p := NewChunk(at.value, want);
    }

    /** A new chunk is one taken block. */
    method MapChunk(at: nat, len: nat)
      requires Valid() && Mappable(at, len) && len > HDR && (len - HDR) % ALIGN == 0
      modifies this
      ensures Valid() && at !in old(hdr) && hdr == old(hdr)[at := Blk(len - HDR, false, true, 0)]
    {
      var c := Chunk(at, len);
      var b := Blk(c.len - HDR, false, true, 0);
      AddChunk(hdr, chunks, c, b);
      TakenList(hdr, hdr[at := b], gFree, fl);
      hdr := hdr[at := b];
      chunks := chunks + {c};
    }

    /** Map a chunk and take its first block. */
    method NewChunk(at: nat, want: nat) returns (p: nat)
      requires Valid() && want > 0 && want % ALIGN == 0 && Mappable(at, ChunkLen(want))
      modifies this
      ensures Valid() && p == at + HDR && p % ALIGN == 0
      ensures at !in old(Live()) && Live() == old(Live()) + {at} && hdr[at].size >= want
      ensures forall a :: a in old(Live()) ==> a in hdr && hdr[a].size == old(hdr)[a].size
    {
      OnGrain(at);
      OnGrain(ChunkLen(want));
      MapChunk(at, ChunkLen(want));
      Split(at, want);
      return at + HDR;
    }

    /** The payload of `b` with the block after it, when that one is free and
        in the same chunk. */
    ghost function Absorbed(b: nat): nat
      reads this
      requires b in hdr
    {
      if hdr[b].last || End(hdr, b) !in hdr || !hdr[End(hdr, b)].free then hdr[b].size
      else hdr[b].size + HDR + hdr[End(hdr, b)].size
    }

    /** Absorb the block after the taken block `b`, when that one is free. */
    method Absorb(b: nat)
      requires Valid() && b in Live()
      modifies this
      ensures Valid() && Live() == old(Live()) && hdr[b].size == old(Absorbed(b))
      ensures forall a :: a in Live() && a != b ==> hdr[a].size == old(hdr)[a].size
    {
      if hdr[b].last {
        return;
      }
      ghost var home := BlockIn(hdr, chunks, b);
      var nx := End(hdr, b);
      if !hdr[nx].free {
        return;
      }
      var prev;
      ghost var i;
      prev, i := Before(nx);
      TakeOff(nx, prev, i);
      Merge(b);
    }

    /** Join a taken block with the taken block after it. */
    method Merge(b: nat)
      requires Valid() && b in Live() && !hdr[b].last && End(hdr, b) in Live()
      modifies this
      ensures Valid() && Live() == old(Live()) - {old(End(hdr, b))} && b in hdr
      ensures hdr[b].size == old(hdr)[b].size + HDR + old(hdr)[old(End(hdr, b))].size
      ensures forall a :: a in Live() && a != b ==> hdr[a].size == old(hdr)[a].size
    {
      var nx := End(hdr, b);
      var bb := hdr[b].(size := hdr[b].size + HDR + hdr[nx].size, last := hdr[nx].last);
      ghost var h0 := hdr;
      MergeChunks(hdr, chunks, b, bb);
      hdr := (hdr - {nx})[b := bb];
      TakenList(h0, hdr, gFree, fl);
    }

    /** Give `p` back; 0 is nothing to give. */
    method Release(p: nat)
      requires Valid() && (p == 0 || (p >= HDR && p - HDR in Live()))
      modifies this
      ensures Valid()
      ensures p == 0 ==> hdr == old(hdr) && gFree == old(gFree)
      ensures p != 0 ==>
          Live() == old(Live()) - {p - HDR} && gFree == p - HDR &&
          gFree in hdr && hdr[gFree].size == old(Absorbed(p - HDR))
      ensures forall a :: a in Live() ==> a in old(hdr) && hdr[a].size == old(hdr)[a].size
    {
      if p == 0 {
        return;
      }
      var b := p - HDR;
      Absorb(b);
      ghost var home := BlockIn(hdr, chunks, b);
      var blk := hdr[b].(free := true, next := gFree);
      PushList(hdr, gFree, fl, b, blk);
      Relabel(hdr, hdr[b := blk], chunks);
      hdr := hdr[b := blk];
      gFree := b;
      fl := [b] + fl;
    }

    /** Any two payloads handed out are disjoint, aligned, and inside one
        mapped chunk. */
    lemma {:induction false} PayloadsDisjoint(a: nat, b: nat)
      requires Valid() && a in Live() && b in Live() && a != b
      ensures (a + HDR) % ALIGN == 0
      ensures End(hdr, a) <= b + HDR || End(hdr, b) <= a + HDR
      ensures exists c :: c in chunks && c.base <= a && End(hdr, a) <= c.base + c.len
    {
      var c := BlockIn(hdr, chunks, a);
      if a < b { AllApart(hdr, chunks, a, b); } else { AllApart(hdr, chunks, b, a); }
    }
  }
}
