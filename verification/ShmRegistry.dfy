/** The daemon's System V shared-memory registry: the segment table, and how
    attaching, detaching, forking, removing and dying move its counts. Backing
    descriptors, times and last-pid fields are left out. */
module ShmRegistry {
  import opened Errno
  import opened Slots
  import opened Procs
  import opened ShmRows

  const SEG_MAX := 1024
  const SEQ_MAX := 0xffff
  const SOCK_MAX := 0x7fff
  const SIZE_MAX := 0x7fff_ffff_ffff_f000
  const DEST: bv16 := 0x200
  const PERM: bv16 := 0x1ff

  datatype Seg = Seg(shmid: int, key: int, size: nat, mode: bv16, uid: nat, gid: nat, cuid: nat, cgid: nat,
                     nattch: nat, rmid: bool, rows: seq<Att>)

  predicate Permitted(s: Seg, c: Caller, write: bool, exec: bool) {
    c.uid == 0 ||
    var shift: bv16 :=
      if c.uid == s.uid || c.uid == s.cuid then 0x40 else if c.gid == s.gid || c.gid == s.cgid then 0x8 else 0x1;
    s.mode & (4 * shift) != 0 && (write ==> s.mode & (2 * shift) != 0) && (exec ==> s.mode & shift != 0)
  }

  /** Root may do all; the owner and the creator are judged by the first triad of the
      mode, their groups by the second, everybody else by the third, and by that one
      alone: its r always, its w to write, its x to execute. */
  lemma {:induction false} PermittedIs(s: Seg, c: Caller, write: bool, exec: bool)
    ensures c.uid == 0 ==> Permitted(s, c, write, exec)
    ensures c.uid != 0 && c.uid in {s.uid, s.cuid} ==>
              (Permitted(s, c, write, exec) <==>
                 s.mode & 0x100 != 0 && (write ==> s.mode & 0x80 != 0) && (exec ==> s.mode & 0x40 != 0))
    ensures c.uid !in {0, s.uid, s.cuid} && c.gid in {s.gid, s.cgid} ==>
              (Permitted(s, c, write, exec) <==>
                 s.mode & 0x20 != 0 && (write ==> s.mode & 0x10 != 0) && (exec ==> s.mode & 0x8 != 0))
    ensures c.uid !in {0, s.uid, s.cuid} && c.gid !in {s.gid, s.cgid} ==>
              (Permitted(s, c, write, exec) <==>
                 s.mode & 0x4 != 0 && (write ==> s.mode & 0x2 != 0) && (exec ==> s.mode & 0x1 != 0))
  {
  }

  predicate Owner(s: Seg, uid: nat) {
    Owns(uid, s.uid, s.cuid)
  }

  /** A removed segment is one that is still attached; it has lost its key, and
      only it shows the destroy bit. */
  ghost predicate SegOk(s: Seg) {
    && s.shmid > 0 && s.size > 0 && RowsOk(s.rows)
    && (s.rmid ==> s.nattch > 0 && s.key == 0)
    && (s.rmid <==> s.mode & DEST != 0)
  }

  ghost predicate Is(slot: Option<Seg>, id: int) {
    slot.Some? && slot.value.shmid == id
  }

  ghost predicate TableOk(t: Table<Seg>) {
    && |t| == SEG_MAX
    && (forall i :: 0 <= i < |t| && t[i].Some? ==> SegOk(t[i].value))
    && (forall i, j :: 0 <= i < j < |t| && t[i].Some? && t[j].Some? ==> t[i].value.shmid != t[j].value.shmid)
    && (forall i, j :: 0 <= i < j < |t| && t[i].Some? && t[j].Some? && t[i].value.key != 0 ==>
          t[i].value.key != t[j].value.key)
  }

  /** What is true of a segment outside the daemon: the attachments its
      processes hold, and whether all has been in order so far: every detach by
      a process that held one (or of nothing), no row refused for want of memory, and no pid
      reused before its dead owner's row was reclaimed. */
  datatype Truth = Truth(held: Holdings, tidy: bool)

  ghost predicate Summed(s: Seg) {
    s.nattch == Total(s.rows)
  }

  ghost predicate TruthOk(s: Seg, tr: Truth) {
    tr.tidy ==> Summed(s) && Exact(s.rows, tr.held)
  }

  ghost predicate TruthsOk(t: Table<Seg>, truth: seq<Truth>) {
    |truth| == |t| && forall i :: 0 <= i < |t| && t[i].Some? ==> TruthOk(t[i].value, truth[i])
  }

  lemma {:induction false} ReplaceKeeps(t: Table<Seg>, i: nat, s: Seg)
    requires TableOk(t) && i < |t| && Is(t[i], s.shmid) && (s.key == t[i].value.key || s.key == 0) && SegOk(s)
    ensures TableOk(t[i := Some(s)])
  {
  }

  /** IPC_SET's new mode: the permission bits given, every other bit kept. */
  function Chmod(mode: bv16, bits: bv16): (m: bv16)
    ensures m & 0x1ff == bits & 0x1ff && m & 0xfe00 == mode & 0xfe00 && m & DEST == mode & DEST
  {
    (mode & (PERM ^ 0xffff)) | (bits & PERM)
  }

  lemma {:induction false} HolderHasRow(s: Seg, tr: Truth, p: Proc)
    requires SegOk(s) && TruthOk(s, tr) && tr.tidy && p in tr.held
    ensures Has(s.rows, p.pid) && s.nattch > 0
  {
    assert RowOf(s.rows, p);
    TotalCounts(s.rows, |s.rows|);
  }

  /** A segment with one attach more. */
  method OneMore(s: Seg, p: Proc, memory: bool, ghost tr: Truth) returns (s': Seg, ghost tr': Truth)
    requires SegOk(s) && TruthOk(s, tr)
    ensures SegOk(s') && TruthOk(s', tr') && CountedIn(s, s', tr, tr', p, memory)
  {
    var rows := Add(s.rows, p, memory, tr.held);
    s' := s.(nattch := s.nattch + 1, rows := rows);
    tr' := Truth(Attached(tr.held, p), tr.tidy && !Stale(s.rows, p) && (memory || Has(s.rows, p.pid)));
  }

  /** A segment with one attach fewer. */
  method OneLess(s: Seg, p: Proc, ghost tr: Truth) returns (s': Seg, ghost tr': Truth)
    requires SegOk(s) && TruthOk(s, tr)
    ensures SegOk(s'.(nattch := 1)) && TruthOk(s', tr') && CountedOut(s, s', tr, tr', p)
  {
    var rows := Drop(s.rows, p, tr.held);
    if tr.tidy && p in tr.held { HolderHasRow(s, tr, p); }
    TotalCounts(s.rows, |s.rows|);
    s' := s.(nattch := if s.nattch > 0 then s.nattch - 1 else 0, rows := rows);
    tr' := Truth(if p in tr.held then Detached(tr.held, p) else tr.held, tr.tidy && (p in tr.held || s.nattch == 0));
  }

  /** A segment without its dead. */
  method Survivors(s: Seg, w: World, ghost tr: Truth) returns (s': Seg, ghost tr': Truth)
    requires SegOk(s.(nattch := 1)) && TruthOk(s, tr)
    ensures SegOk(s'.(nattch := 1)) && TruthOk(s', tr') && Reclaimed(s, s', tr, tr', w)
  {
    var rows, left := Reclaim(s.rows, s.nattch, w, tr.held);
    s' := s.(nattch := left, rows := rows);
    tr' := Truth(Living(tr.held, w), tr.tidy);
    if rows != [] { assert rows[0] in rows; }
  }

  ghost predicate CountedIn(s: Seg, s': Seg, tr: Truth, tr': Truth, p: Proc, memory: bool) {
    && s' == s.(nattch := s.nattch + 1, rows := s'.rows)
    && (Summed(s) ==> (Summed(s') <==> memory || Has(s.rows, p.pid)))
    && tr' == Truth(Attached(tr.held, p), tr.tidy && !Stale(s.rows, p) && (memory || Has(s.rows, p.pid)))
    && (tr.tidy ==> (tr'.tidy <==> Summed(s') && Exact(s'.rows, tr'.held)))
  }

  /** A detach: the count stays the sum of the rows exactly when the caller has
      a row, or there was nothing to take off. */
  ghost predicate CountedOut(s: Seg, s': Seg, tr: Truth, tr': Truth, p: Proc) {
    && s' == s.(nattch := if s.nattch > 0 then s.nattch - 1 else 0, rows := s'.rows)
    && (Summed(s) ==> (Summed(s') <==> Has(s.rows, p.pid) || s.nattch == 0))
    && tr'.held == (if p in tr.held then Detached(tr.held, p) else tr.held)
    && (tr'.tidy <==> tr.tidy && (p in tr.held || s.nattch == 0))
    && (tr.tidy ==> (tr'.tidy <==> Summed(s') && Exact(s'.rows, tr'.held)))
  }

  /** What a reclaim leaves has just the rows of the living, and when the count
      was their sum it is again, so that it is 0 only with nobody left. */
  ghost predicate Reclaimed(s: Seg, s': Seg, tr: Truth, tr': Truth, w: World) {
    && s' == s.(nattch := s'.nattch, rows := s'.rows) && s'.nattch <= s.nattch
    && (forall a :: a in s'.rows <==> a in s.rows && w(a.pid) == Life(a.start, false))
    && (Summed(s) ==> Summed(s') && (s'.nattch == 0 <==> forall a :: a in s.rows ==> w(a.pid) != Life(a.start, false)))
    && tr' == Truth(Living(tr.held, w), tr.tidy)
  }

  /** The slot a segment is left in: freed once removed and unattached. */
  function Slot(s: Seg): Option<Seg> {
    if s.rmid && s.nattch == 0 then None else Some(s)
  }

  ghost predicate ReclaimedTo(s: Seg, slot: Option<Seg>, tr: Truth, tr': Truth, w: World) {
    exists s' :: Reclaimed(s, s', tr, tr', w) && slot == Slot(s')
  }

  class Registry {
    var segs: Table<Seg>
    var nextSeq: int
    var sock: nat
    var tried: bool
    ghost var truth: seq<Truth>

    ghost predicate Valid()
      reads this
    {
      && TableOk(segs) && TruthsOk(segs, truth)
      && 1 <= nextSeq <= SEQ_MAX && sock <= SOCK_MAX
    }

    /** What one segment's change must leave alone. */
    twostate predicate OnlySlot(i: nat)
      reads this
    {
      && |segs| == |old(segs)| && |truth| == |old(truth)|
      && (forall j :: 0 <= j < |segs| && j != i ==> segs[j] == old(segs)[j])
      && (forall j :: 0 <= j < |truth| && j != i ==> truth[j] == old(truth)[j])
    }

    twostate predicate Same()
      reads this
    {
      segs == old(segs) && truth == old(truth)
    }

    constructor ()
      ensures Valid() && forall i :: 0 <= i < |segs| ==> segs[i].None?
    {
      segs := seq(SEG_MAX, _ => None);
      truth := seq(SEG_MAX, _ => Truth(map[], true));
      nextSeq, sock, tried := 1, 0, false;
    }

    method Find(id: int) returns (i: int)
      requires Valid()
      ensures -1 <= i < |segs|
      ensures i >= 0 ==> Is(segs[i], id)
      ensures i < 0 ==> forall j :: 0 <= j < |segs| ==> !Is(segs[j], id)
    {
      if id <= 0 { return -1; }
      i := Search(segs, (s: Seg) => s.shmid == id);
    }

    /** Put a changed segment back, or free it when it was removed and nobody
        is attached. */
    method Settle(i: nat, s: Seg, ghost tr: Truth)
      requires Valid() && i < |segs| && Is(segs[i], s.shmid) && (s.key == segs[i].value.key || s.key == 0)
      requires TruthOk(s, tr) && (s.rmid ==> s.key == 0) && SegOk(s.(nattch := 1))
      modifies `segs, `truth
      ensures Valid() && OnlySlot(i) && truth[i] == tr
      ensures segs[i] == Slot(s)
    {
      truth := truth[i := tr];
      if s.rmid && s.nattch == 0 {
        segs := segs[i := None];
      } else {
        ReplaceKeeps(segs, i, s);
        segs := segs[i := Some(s)];
      }
    }

    /** shmget. A new segment has an id and a key no other has; there is always
        an id for a free slot. */
    method Get(key: int, size: nat, create: bool, excl: bool, mode: bv16, c: Caller, offer: nat, backing: bool)
      returns (r: int)
      requires Valid() && offer <= SOCK_MAX
      modifies this
      ensures Valid() && (r <= 0 ==> Same())
      ensures forall i :: 0 <= i < |old(segs)| && Keyed(old(segs)[i], key) ==>
                && Same()
                && r == if create && excl then -EEXIST
                        else if old(segs)[i].value.size < size then -EINVAL
                        else if !Permitted(old(segs)[i].value, c, false, false) then -EACCES
                        else old(segs)[i].value.shmid
      ensures !Taken(old(segs), key) ==>
                (r > 0 <==> (key == 0 || create) && 0 < size <= SIZE_MAX && backing && !Full(old(segs)))
      ensures !Taken(old(segs), key) && r > 0 ==> Made(old(segs), segs, r, key, size, mode, c)
      ensures !Taken(old(segs), key) && r <= 0 ==>
                r == if key != 0 && !create then -ENOENT else if size == 0 || size > SIZE_MAX then -EINVAL else -ENOSPC
    {
      if key != 0 {
        var k := Search(segs, (s: Seg) => s.key == key);
        if k >= 0 {
          var s := segs[k].value;
          if create && excl { return -EEXIST; }
          if size != 0 && s.size < size { return -EINVAL; }
          if !Permitted(s, c, false, false) { return -EACCES; }
          return s.shmid;
        }
        if !create { return -ENOENT; }
      }
      if size == 0 || size > SIZE_MAX { return -EINVAL; }
      r := Create(key, size, mode, c, offer, backing);
    }

    method Create(key: int, size: nat, mode: bv16, c: Caller, offer: nat, backing: bool) returns (r: int)
      requires Valid() && offer <= SOCK_MAX && 0 < size <= SIZE_MAX
      requires !Taken(segs, key)
      modifies this
      ensures Valid()
      ensures r <= 0 ==> r == -ENOSPC && Same()
      ensures r > 0 <==> backing && !Full(old(segs))
      ensures r > 0 ==> Made(old(segs), segs, r, key, size, mode, c)
    {
      var slot := FirstFree(segs);
      if slot < 0 { return -ENOSPC; }
      if !tried {
        tried := true;
        sock := offer;
      }
      var id, next := AllocId(segs, (s: Seg) => s.shmid, sock * 0x1_0000, nextSeq, SEQ_MAX, SEG_MAX * 4);
      nextSeq := next;
      if !backing { return -ENOSPC; }
      var s := Seg(id, key, size, mode & PERM, c.uid, c.gid, c.uid, c.gid, 0, false, []);
      segs := segs[slot := Some(s)];
      truth := truth[slot := Truth(map[], true)];
      return id;
    }

    /** shmat. The count always moves; it stays the sum of the rows exactly when
        the attacher has a row or gets one. */
    method Attach(id: int, rdonly: bool, exec: bool, c: Caller, w: World, memory: bool) returns (r: int, size: nat)
      requires Valid()
      modifies `segs, `truth
      ensures Valid() && (r != 0 ==> Same())
      ensures NoSeg(old(segs), id) ==> r == -EINVAL
      ensures forall i :: 0 <= i < |segs| && Is(old(segs)[i], id) ==>
                r == if Permitted(old(segs)[i].value, c, !rdonly, exec) then 0 else -EACCES
      ensures forall i :: 0 <= i < |segs| && Is(old(segs)[i], id) && r == 0 ==>
                size == old(segs)[i].value.size && GainedOne(i, Proc(c.pid, w(c.pid).start), memory)
    {
      var i := Find(id);
      if i < 0 { return -EINVAL, 0; }
      if !Permitted(segs[i].value, c, !rdonly, exec) { return -EACCES, 0; }
      size := segs[i].value.size;
      ghost var tr;
      var s;
      s, tr := OneMore(segs[i].value, Incarnation(c.pid, w), memory, truth[i]);
      Settle(i, s, tr);
      r := 0;
    }

    twostate predicate GainedOne(i: nat, p: Proc, memory: bool)
      requires i < |old(segs)| && i < |old(truth)| && old(segs)[i].Some?
      reads this
    {
      && OnlySlot(i) && segs[i].Some?
      && CountedIn(old(segs)[i].value, segs[i].value, old(truth)[i], truth[i], p, memory)
    }

    /** A forked child holds what its parent did: one attach each. */
    method Fork(id: int, child: int, w: World, memory: bool)
      requires Valid()
      modifies `segs, `truth
      ensures Valid() && (NoSeg(old(segs), id) ==> Same())
      ensures forall i :: 0 <= i < |segs| && Is(old(segs)[i], id) ==> GainedOne(i, Proc(child, w(child).start), memory)
    {
      var i := Find(id);
      if i < 0 { return; }
      ghost var tr;
      var s;
      s, tr := OneMore(segs[i].value, Incarnation(child, w), memory, truth[i]);
      Settle(i, s, tr);
    }

    twostate predicate LostOne(i: nat, p: Proc)
      requires i < |old(segs)| && i < |old(truth)| && old(segs)[i].Some?
      reads this
    {
      OnlySlot(i) && exists s :: segs[i] == Slot(s) && CountedOut(old(segs)[i].value, s, old(truth)[i], truth[i], p)
    }

    /** shmdt. A segment that is gone is nothing to detach from. */
    method Detach(id: int, pid: int, w: World)
      requires Valid()
      modifies `segs, `truth
      ensures Valid() && (NoSeg(old(segs), id) ==> Same())
      ensures forall i :: 0 <= i < |segs| && Is(old(segs)[i], id) ==> LostOne(i, Proc(pid, w(pid).start))
    {
      var i := Find(id);
      if i < 0 { return; }
      ghost var tr;
      var s;
      s, tr := OneLess(segs[i].value, Incarnation(pid, w), truth[i]);
      Settle(i, s, tr);
    }

    /** Take the attaches of the dead off a segment. */
    method ReclaimSeg(i: nat, w: World)
      requires Valid() && i < |segs| && segs[i].Some?
      modifies `segs, `truth
      ensures Valid() && OnlySlot(i)
      ensures ReclaimedTo(old(segs)[i].value, segs[i], old(truth)[i], truth[i], w)
    {
      ghost var tr;
      var s;
      s, tr := Survivors(segs[i].value, w, truth[i]);
      Settle(i, s, tr);
    }

    method ReclaimAll(w: World)
      requires Valid()
      modifies `segs, `truth
      ensures Valid() && |segs| == |old(segs)|
      ensures forall i :: 0 <= i < |segs| && old(segs)[i].Some? ==>
                ReclaimedTo(old(segs)[i].value, segs[i], old(truth)[i], truth[i], w)
      ensures forall i :: 0 <= i < |segs| && old(segs)[i].None? ==> segs[i].None?
    {
      for i := 0 to |segs|
        invariant Valid() && |segs| == |old(segs)| && |truth| == |old(truth)|
        invariant forall j :: 0 <= j < i && old(segs)[j].Some? ==>
                    ReclaimedTo(old(segs)[j].value, segs[j], old(truth)[j], truth[j], w)
        invariant forall j :: 0 <= j < |segs| && old(segs)[j].None? ==> segs[j].None?
        invariant forall j :: i <= j < |segs| ==> segs[j] == old(segs)[j] && truth[j] == old(truth)[j]
      {
        if segs[i].Some? { ReclaimSeg(i, w); }
      }
    }

    /** IPC_STAT: the count a guest is shown is, when all is in order, the
        number of attachments living processes hold. */
    method Stat(id: int, c: Caller, w: World) returns (r: int, nattch: nat)
      requires Valid()
      modifies `segs, `truth
      ensures Valid() && (NoSeg(old(segs), id) ==> r == -EINVAL)
      ensures forall i :: 0 <= i < |segs| && Is(old(segs)[i], id) && r == 0 ==>
                segs[i].Some? && nattch == segs[i].value.nattch
      ensures forall i :: 0 <= i < |segs| && Is(old(segs)[i], id) && r == 0 && old(truth)[i].tidy ==>
                nattch == Attachments(Living(old(truth)[i].held, w))
      ensures forall i :: 0 <= i < |segs| && Is(old(segs)[i], id) ==>
                (r == -EACCES <==> !Permitted(old(segs)[i].value, c, false, false))
      ensures forall i :: 0 <= i < |segs| && Is(old(segs)[i], id) && r == -EINVAL ==> segs[i].None?
    {
      nattch := 0;
      var i := Find(id);
      if i < 0 { return -EINVAL, 0; }
      if !Permitted(segs[i].value, c, false, false) { return -EACCES, 0; }
      ReclaimSeg(i, w);
      if segs[i].None? { return -EINVAL, 0; }
      nattch := segs[i].value.nattch;
      if truth[i].tidy { ExactTotal(segs[i].value.rows, truth[i].held); }
      return 0, nattch;
    }

    /** IPC_SET touches the permission bits and the owner only. */
    method SetPerm(id: int, mode: bv16, uid: nat, gid: nat, c: Caller) returns (r: int)
      requires Valid()
      modifies `segs, `truth
      ensures Valid() && truth == old(truth) && (r != 0 ==> Same())
      ensures NoSeg(old(segs), id) ==> r == -EINVAL
      ensures forall i :: 0 <= i < |segs| && Is(old(segs)[i], id) ==>
                r == if c.uid in {0, old(segs)[i].value.uid, old(segs)[i].value.cuid} then 0 else -EPERM
      ensures forall i :: 0 <= i < |segs| && Is(old(segs)[i], id) && r == 0 ==>
                OnlySlot(i) && segs[i] == Some(Reowned(old(segs)[i].value, mode, uid, gid))
    {
      var i := Find(id);
      if i < 0 { return -EINVAL; }
      if !Owner(segs[i].value, c.uid) { return -EPERM; }
      Settle(i, Reowned(segs[i].value, mode, uid, gid), truth[i]);
      return 0;
    }

    /** IPC_RMID: gone at once when no living process is attached, else marked,
        nameless, and gone with the last of them. */
    method Remove(id: int, c: Caller, w: World) returns (r: int)
      requires Valid()
      modifies `segs, `truth
      ensures Valid() && (r != 0 ==> Same())
      ensures NoSeg(old(segs), id) ==> r == -EINVAL
      ensures forall i :: 0 <= i < |segs| && Is(old(segs)[i], id) ==>
                r == if c.uid in {0, old(segs)[i].value.uid, old(segs)[i].value.cuid} then 0 else -EPERM
      ensures forall i :: 0 <= i < |segs| && Is(old(segs)[i], id) && r == 0 ==>
                OnlySlot(i) && ReclaimedTo(Doomed(old(segs)[i].value), segs[i], old(truth)[i], truth[i], w)
    {
      var i := Find(id);
      if i < 0 { return -EINVAL; }
      if !Owner(segs[i].value, c.uid) { return -EPERM; }
      ghost var tr;
      var s;
      s, tr := Survivors(Doomed(segs[i].value), w, truth[i]);
      Settle(i, s, tr);
      return 0;
    }
  }

  function Incarnation(pid: int, w: World): Proc {
    Proc(pid, w(pid).start)
  }

  function Reowned(s: Seg, mode: bv16, uid: nat, gid: nat): (s': Seg)
    ensures s'.mode & DEST == s.mode & DEST && s'.mode & 0x1ff == mode & 0x1ff && s'.mode & 0xfe00 == s.mode & 0xfe00
    ensures s' == s.(mode := s'.mode, uid := uid, gid := gid)
  {
    s.(mode := Chmod(s.mode, mode), uid := uid, gid := gid)
  }

  function Doomed(s: Seg): (s': Seg)
    ensures s'.mode & DEST != 0 && s'.mode & 0xfdff == s.mode & 0xfdff
    ensures s' == s.(key := 0, mode := s'.mode, rmid := true)
  {
    s.(key := 0, mode := s.mode | DEST, rmid := true)
  }

  ghost predicate NoSeg(t: Table<Seg>, id: int) {
    forall i :: 0 <= i < |t| ==> !Is(t[i], id)
  }

  ghost predicate Keyed(slot: Option<Seg>, key: int) {
    slot.Some? && key != 0 && slot.value.key == key
  }

  ghost predicate Taken(t: Table<Seg>, key: int) {
    exists i :: 0 <= i < |t| && Keyed(t[i], key)
  }

  ghost predicate Full(t: Table<Seg>) {
    forall i :: 0 <= i < |t| ==> t[i].Some?
  }

  ghost predicate Made(t: Table<Seg>, t': Table<Seg>, id: int, key: int, size: nat, mode: bv16, c: Caller) {
    && (forall i :: 0 <= i < |t| ==> !Is(t[i], id))
    && exists i :: 0 <= i < |t| && t[i].None? &&
         t' == t[i := Some(Seg(id, key, size, mode & PERM, c.uid, c.gid, c.uid, c.gid, 0, false, []))]
  }
}
