/** Hardlinks as symlinks: a group is one data file, the names that are
    symlinks to it, and an empty marker file whose name carries the count. The
    guest's tree is a map from names to nodes. A symlink, an exchange, the move
    or the removal of a file may be refused at any time; a stubborn host refuses
    the emulation its markers and the undoing of a step as well. */
module L2sLinks {
  import opened Errno

  /** Where data files are: the rootfs's store, or beside the names. */
  datatype Place = Store | Beside(dir: int)

  datatype Name = User(dir: int, k: int) | Data(at: Place, ino: nat) | Marker(at: Place, ino: nat, count: nat)

  /** A file; a symlink to a data name, by its path or by its bare name; one
      with any other text; a directory or a marker. */
  datatype Node = File(ino: nat) | Link(to: Name, abs: bool) | Plain(text: int) | Other

  type Tree = map<Name, Node>

  predicate IsFile(fs: Tree, n: Name) {
    n in fs && fs[n].File?
  }

  /** `u` is a symlink that leads to `n`: a bare name only leads beside itself. */
  predicate Reaches(fs: Tree, u: Name, n: Name) {
    u.User? && n.Data? && u in fs && fs[u].Link? && fs[u].to == n && (fs[u].abs || n.at == Beside(u.dir))
  }

  ghost function Names(fs: Tree, n: Name): set<Name> {
    set u | u in fs && Reaches(fs, u, n)
  }

  /** A group: the one marker counts the names; no group: no marker, no name. */
  ghost predicate GroupOk(fs: Tree, at: Place, ino: nat) {
    var n := Data(at, ino);
    if IsFile(fs, n) then
      && Names(fs, n) != {} && Marker(at, ino, |Names(fs, n)|) in fs
      && forall c :: Marker(at, ino, c) in fs ==> c == |Names(fs, n)|
    else
      Names(fs, n) == {} && forall c :: Marker(at, ino, c) !in fs
  }

  ghost predicate Inv(fs: Tree) {
    forall at, ino :: GroupOk(fs, at, ino)
  }

  /** A data name with a symlink to itself: a swap begun and not gone through with. */
  predicate Stale(fs: Tree, n: Name) {
    n.Data? && n in fs && fs[n].Link? && fs[n].to == n
  }

  /** The tree as it was, but for stale symlinks swept away. */
  ghost predicate Swept(fs: Tree, fs': Tree) {
    && (forall n :: n in fs' ==> n in fs && fs'[n] == fs[n])
    && (forall n :: n in fs && n !in fs' ==> Stale(fs, n))
  }

  /** What stands under a marker's name is a marker. */
  ghost predicate Sane(fs: Tree) {
    forall n :: n in fs && n.Marker? ==> fs[n] == Other
  }

  /** The file `ino` is somewhere in the tree. */
  ghost predicate Has(fs: Tree, ino: nat) {
    exists n :: n in fs && fs[n] == File(ino)
  }

  /** No file has gone from the tree, under whatever name it is now. */
  ghost predicate NoLoss(fs: Tree, fs': Tree) {
    Sane(fs') && forall ino :: Has(fs, ino) ==> Has(fs', ino)
  }

  lemma {:induction false} AddedNoLoss(fs: Tree, fs': Tree, n: Name)
    requires Sane(fs) && (fs' == fs || (n !in fs && !n.Marker? && n in fs' && fs' == fs[n := fs'[n]]))
    ensures NoLoss(fs, fs')
  {
    forall ino | Has(fs, ino) ensures Has(fs', ino) {
      var k :| k in fs && fs[k] == File(ino);
      assert k in fs' && fs'[k] == File(ino);
    }
  }

  lemma {:induction false} SwappedNoLoss(fs: Tree, fs': Tree, a: Name, b: Name)
    requires Sane(fs) && a in fs && b in fs && !a.Marker? && !b.Marker?
    requires fs' == fs || fs' == fs[a := fs[b]][b := fs[a]]
    ensures NoLoss(fs, fs')
  {
    forall ino | Has(fs, ino) ensures Has(fs', ino) {
      var k :| k in fs && fs[k] == File(ino);
      var k' := if fs' == fs then k else if k == a then b else if k == b then a else k;
      assert k' in fs' && fs'[k'] == File(ino);
    }
  }

  lemma {:induction false} GoneNoLoss(fs: Tree, fs': Tree, n: Name)
    requires Sane(fs) && (n in fs ==> !fs[n].File?) && (fs' == fs || fs' == fs - {n})
    ensures NoLoss(fs, fs')
  {
    forall ino | Has(fs, ino) ensures Has(fs', ino) {
      var k :| k in fs && fs[k] == File(ino);
      assert k in fs' && fs'[k] == File(ino);
    }
  }

  lemma {:induction false} MovedNoLoss(fs: Tree, fs': Tree, a: Name, b: Name)
    requires Sane(fs) && a in fs && a != b && (b in fs ==> !fs[b].File?) && a.Marker? == b.Marker?
    requires fs' == fs || fs' == fs[b := fs[a]] - {a}
    ensures NoLoss(fs, fs')
  {
    forall ino | Has(fs, ino) ensures Has(fs', ino) {
      var k :| k in fs && fs[k] == File(ino);
      var k' := if k == a && fs' != fs then b else k;
      assert k' in fs' && fs'[k'] == File(ino);
    }
  }

  lemma {:induction false} MarkedNoLoss(fs: Tree, fs': Tree, m: Name)
    requires Sane(fs) && m.Marker? && (fs' == fs || fs' == fs[m := Other])
    ensures NoLoss(fs, fs')
  {
    forall ino | Has(fs, ino) ensures Has(fs', ino) {
      var k :| k in fs && fs[k] == File(ino);
      assert k in fs' && fs'[k] == File(ino);
    }
  }

  class Fs {
    var fs: Tree
    /** Whether the host may refuse a symlink, an exchange, a move or an unlink. */
    const faults: bool
    /** Whether it may refuse markers and the undoing of a step, too. */
    const stubborn: bool

    constructor (fs: Tree, faults: bool, stubborn: bool)
      ensures this.fs == fs && this.faults == faults && this.stubborn == stubborn
    {
      this.fs, this.faults, this.stubborn := fs, faults, stubborn;
    }

    method Allowed() returns (ok: bool)
      ensures !faults ==> ok
    {
      ok := *;
      ok := ok || !faults;
    }

    method Granted() returns (ok: bool)
      ensures !stubborn ==> ok
    {
      ok := *;
      ok := ok || !stubborn;
    }

    method Symlink(to: Name, abs: bool, n: Name) returns (ok: bool)
      requires Sane(fs) && !n.Marker?
      modifies this
      ensures ok ==> n !in old(fs) && fs == old(fs)[n := Link(to, abs)]
      ensures !ok ==> fs == old(fs) && (faults || n in fs)
      ensures NoLoss(old(fs), fs)
    {
      ok := Allowed();
      if n in fs { ok := false; }
      if ok { fs := fs[n := Link(to, abs)]; }
      AddedNoLoss(old(fs), fs, n);
    }

    method Exchange(a: Name, b: Name) returns (ok: bool)
      requires Sane(fs)
      requires a in fs && b in fs && !a.Marker? && !b.Marker?
      modifies this
      ensures fs == if ok then old(fs)[a := old(fs)[b]][b := old(fs)[a]] else old(fs)
      ensures !faults ==> ok
      ensures NoLoss(old(fs), fs)
    {
      ok := Allowed();
      if ok { fs := fs[a := fs[b]][b := fs[a]]; }
      SwappedNoLoss(old(fs), fs, a, b);
    }

    /** An unlink of the emulation's own: a symlink or a marker of its making. */
    method Unmake(n: Name)
      requires Sane(fs)
      requires n in fs ==> !fs[n].File?
      modifies this
      ensures fs == old(fs) - {n} || (stubborn && fs == old(fs))
      ensures NoLoss(old(fs), fs)
    {
      var ok := Granted();
      if ok { fs := fs - {n}; }
      GoneNoLoss(old(fs), fs, n);
    }

    /** A rename of the emulation's own: a step back, or a marker's count. */
    method Return(a: Name, b: Name) returns (ok: bool)
      requires Sane(fs)
      requires a in fs && a != b && (b in fs ==> !fs[b].File?) && a.Marker? == b.Marker?
      modifies this
      ensures fs == if ok then old(fs)[b := old(fs)[a]] - {a} else old(fs)
      ensures !stubborn ==> ok
      ensures NoLoss(old(fs), fs)
    {
      ok := Granted();
      if ok { fs := fs[b := fs[a]] - {a}; }
      MovedNoLoss(old(fs), fs, a, b);
    }

    /** Put the file `src` under `data` and a symlink to it in its name: the
        symlink made first and the two exchanged, or else moved and linked. */
    method SwapIn(src: Name, data: Name, abs: bool) returns (ok: bool)
      requires Sane(fs)
      requires IsFile(fs, src) && src.User? && data.Data?
      modifies this
      ensures NoLoss(old(fs), fs)
      ensures ok ==> fs == old(fs)[data := old(fs)[src]][src := Link(data, abs)]
      ensures ok ==> data in old(fs) ==> Stale(old(fs), data)
      ensures !ok && !stubborn ==> Swept(old(fs), fs) && src in fs
      ensures !ok ==> faults || (data in old(fs) && old(fs)[data] != Link(data, abs))
    {
      ok := Symlink(data, abs, data);
      if ok {
        ok := Exchange(src, data);
        if ok { return; }
        Unmake(data);
      }
      if data in fs && fs[data] != Link(data, abs) {
        return false;
      }
      ok := Allowed();
      if !ok { return; }
      ghost var was := fs;
      fs := fs[data := fs[src]] - {src};
      MovedNoLoss(was, fs, src, data);
      ok := Symlink(data, abs, src);
      if !ok { var back := Return(data, src); }
    }

    /** Undo a swap. */
    method SwapOut(src: Name, data: Name)
      requires Sane(fs)
      requires src in fs && data in fs && src.User? && data.Data? && !fs[src].File?
      modifies this
      ensures NoLoss(old(fs), fs)
      ensures !stubborn ==> fs == old(fs)[src := old(fs)[data]] - {data}
    {
      var ok := Exchange(src, data);
      if ok {
        Unmake(data);
        return;
      }
      Unmake(src);
      ok := Return(data, src);
    }

    /** The marker's count; 0 for a marker that is lost. */
    method FindMarker(at: Place, ino: nat) returns (c: nat)
      ensures c != 0 ==> Marker(at, ino, c) in fs
      ensures (forall k :: Marker(at, ino, k) !in fs) ==> c == 0
      ensures forall k {:trigger Marker(at, ino, k)} ::
          k > 0 && (forall j :: Marker(at, ino, j) in fs ==> j == k) && Marker(at, ino, k) in fs ==> c == k
    {
      c := 0;
      var todo := fs.Keys;
      while todo != {}
        invariant todo <= fs.Keys
        invariant forall k :: Marker(at, ino, k) in fs ==> Marker(at, ino, k) in todo
      {
        var n :| n in todo;
        if n.Marker? && n.at == at && n.ino == ino {
          return n.count;
        }
        todo := todo - {n};
      }
    }

    /** A group of one file: the file under its data name, the marker at two,
        the new name; all of it undone where the name cannot be made. */
    method MakeGroup(src: Name, dst: Name, at: Place) returns (moved: bool, r: int)
      requires Sane(fs)
      requires src.User? && dst.User? && IsFile(fs, src) && dst !in fs && src != dst
      requires at == Store || (at == Beside(src.dir) && src.dir == dst.dir)
      modifies this
      ensures NoLoss(old(fs), fs)
      ensures r == 0 || r == -EIO
      ensures !stubborn && Inv(old(fs)) ==> Inv(fs)
      ensures r == 0 ==>
                moved && (Grouped(old(fs), fs, src, dst, at) || (stubborn && Unmarked(old(fs), fs, src, dst, at)))
      ensures r == 0 && Inv(old(fs)) ==> !IsFile(old(fs), Data(at, old(fs)[src].ino))
      ensures r != 0 && !stubborn ==> Swept(old(fs), fs) || !Inv(old(fs))
      ensures r != 0 && !moved && !stubborn ==> src in fs && fs[src] == old(fs)[src] && dst !in fs
      ensures !faults && Data(at, old(fs)[src].ino) !in old(fs) ==> r == 0
    {
      var ino := fs[src].ino;
      var data, m, abs := Data(at, ino), Marker(at, ino, 2), at.Store?;
      moved := SwapIn(src, data, abs);
      if !moved {
        if !stubborn && Inv(old(fs)) { SweptInv(old(fs), fs); }
        return false, -EIO;
      }
      Touch(m);
      var ok := Symlink(data, abs, dst);
      if ok {
        if !stubborn && Inv(old(fs)) { GroupedInv(old(fs), fs, src, dst, at); }
        return true, 0;
      }
      Unmake(m);
      SwapOut(src, data);
      if !stubborn && Inv(old(fs)) {
        assert GroupOk(old(fs), at, ino);
        SweptInv(old(fs), fs);
      }
      r := -EIO;
    }

    /** Make a marker. */
    method Touch(m: Name)
      requires Sane(fs)
      requires m.Marker?
      modifies this
      ensures fs == old(fs)[m := Other] || (stubborn && fs == old(fs))
      ensures NoLoss(old(fs), fs)
    {
      var ok := Granted();
      if ok { fs := fs[m := Other]; }
      MarkedNoLoss(old(fs), fs, m);
    }

    /** A name not yet in a group: grouped in the store, or beside itself where
        the store cannot be had; else the new name is to be a copy. */
    method FirstLink(src: Name, dst: Name, store: bool, own: bool) returns (r: int)
      requires Sane(fs) && src.User? && dst.User? && dst !in fs && (!stubborn ==> Inv(fs))
      modifies this
      ensures NoLoss(old(fs), fs) && (!stubborn ==> Inv(fs))
      ensures r != 0 && !stubborn ==> Swept(old(fs), fs)
      ensures src !in old(fs) ==> r == -ENOENT
      ensures r == 0 ==> src in old(fs) && (IsFile(old(fs), src) || fs == old(fs)[dst := old(fs)[src]])
      ensures r == 0 && !stubborn && IsFile(old(fs), src) ==> exists at :: NewGroup(old(fs), fs, src, dst, at)
      ensures !faults && own && store && IsFile(old(fs), src) && Data(Store, old(fs)[src].ino) !in old(fs) ==> r == 0
      ensures r == COPY ==> src in old(fs) && !old(fs)[src].Plain? && !old(fs)[src].Link?
    {
      if src !in fs { return -ENOENT; }
      if fs[src].Plain? || fs[src].Link? {
        r := CopySymlink(src, dst);
        return;
      }
      if !fs[src].File? || !own { return COPY; }
      if store {
        var moved;
        moved, r := MakeGroup(src, dst, Store);
        if moved {
          if r == 0 && !stubborn { NewGroupIntro(old(fs), fs, src, dst, Store); }
          return;
        }
      }
      if src.dir != dst.dir { return COPY; }
      if stubborn && (!IsFile(fs, src) || dst in fs) { return -EIO; }
      r := FirstBeside(src, dst, old(fs));
    }

    method FirstBeside(src: Name, dst: Name, ghost first: Tree) returns (r: int)
      requires Sane(fs) && src.User? && dst.User? && dst !in fs && src.dir == dst.dir && src != dst && IsFile(fs, src)
      requires NoLoss(first, fs)
      requires (!stubborn ==> Inv(fs) && Swept(first, fs) && IsFile(first, src) && fs[src] == first[src])
      modifies this
      ensures NoLoss(first, fs) && (!stubborn ==> Inv(fs)) && (r == 0 || r == -EIO)
      ensures !stubborn ==> if r == 0 then exists at :: NewGroup(first, fs, src, dst, at) else Swept(first, fs)
    {
      var moved;
      moved, r := MakeGroup(src, dst, Beside(src.dir));
      if !stubborn {
        if r == 0 {
          NewGroupIntro(old(fs), fs, src, dst, Beside(src.dir));
          SweptThenGroup(first, old(fs), fs, src, dst, Beside(src.dir));
        }
      }
    }

    /** A symlink is linked as itself, unless its text is in the emulation's own
        grammar. */
    method CopySymlink(src: Name, dst: Name) returns (r: int)
      requires Sane(fs) && src in fs && (fs[src].Plain? || fs[src].Link?) && dst.User? && dst !in fs
      modifies this
      ensures NoLoss(old(fs), fs) && (Inv(old(fs)) ==> Inv(fs))
      ensures r != 0 ==> fs == old(fs)
      ensures r == 0 ==> fs == old(fs)[dst := old(fs)[src]] && old(fs)[src].Plain?
      ensures r == 0 || r == -EIO || r == -EPERM
      ensures !faults && old(fs)[src].Plain? ==> r == 0
    {
      if fs[src].Link? { return -EPERM; }
      var ok := Allowed();
      if !ok { return -EIO; }
      fs := fs[dst := fs[src]];
      AddedNoLoss(old(fs), fs, dst);
      if Inv(old(fs)) { PlainInv(old(fs), fs, dst); }
      r := 0;
    }

    /** A new name of an existing group: the marker renamed one up (made anew
        where it was lost), then the name; the marker put back where the name
        cannot be made. */
    method Join(data: Name, dst: Name) returns (r: int)
      requires Sane(fs) && data.Data? && dst.User? && dst !in fs
      modifies this
      ensures NoLoss(old(fs), fs)
      ensures !stubborn && Inv(old(fs)) && IsFile(old(fs), data) ==> Inv(fs)
      ensures !stubborn && Inv(old(fs)) && IsFile(old(fs), data) && r == 0 ==> Joined(old(fs), fs, data, dst)
      ensures !stubborn && Inv(old(fs)) && IsFile(old(fs), data) && r != 0 ==> fs == old(fs)
      ensures !faults ==> r == 0
    {
      var at, ino := data.at, data.ino;
      if Inv(fs) { assert GroupOk(fs, at, ino); }
      var count := FindMarker(at, ino);
      var oldm, newm := Marker(at, ino, count), Marker(at, ino, (if count != 0 then count else 1) + 1);
      var bumped := false;
      if count != 0 { bumped := Return(oldm, newm); }
      if !bumped { Touch(newm); }
      var ok := Symlink(data, at != Beside(dst.dir), dst);
      if ok {
        if !stubborn && Inv(old(fs)) && IsFile(old(fs), data) { JoinedInv(old(fs), fs, data, dst, count); }
        return 0;
      }
      if bumped {
        var back := Return(newm, oldm);
      } else {
        Unmake(newm);
      }
      if !stubborn && Inv(old(fs)) && IsFile(old(fs), data) {
        assert GroupOk(old(fs), at, ino);
        assert fs == old(fs);
      }
      r := -EIO;
    }

    /** link(2). A failed link leaves the tree as it was, stale symlinks of the
        emulation aside; and whatever the host refuses, no file is lost. */
    method MakeLink(src: Name, dst: Name, store: bool, own: bool) returns (r: int)
      requires Sane(fs) && src.User? && dst.User? && (!stubborn ==> Inv(fs))
      modifies this
      ensures NoLoss(old(fs), fs) && (!stubborn ==> Inv(fs))
      ensures r != 0 && !stubborn ==> Swept(old(fs), fs)
      ensures dst in old(fs) ==> r == -EEXIST && fs == old(fs)
      ensures r == 0 && !stubborn && IsFile(old(fs), src) ==> exists at :: NewGroup(old(fs), fs, src, dst, at)
      ensures r == 0 && !stubborn && Member(old(fs), src) ==> Joined(old(fs), fs, old(fs)[src].to, dst)
      ensures !faults && dst !in old(fs) && Member(old(fs), src) ==> r == 0
      ensures !faults && dst !in old(fs) && own && store && Ungrouped(old(fs), src) ==> r == 0
    {
      if dst in fs { return -EEXIST; }
      if Member(fs, src) {
        r := Join(fs[src].to, dst);
      } else {
        r := FirstLink(src, dst, store, own);
      }
    }

    /** A name of a group is gone: with the last one the data and the marker,
        else the marker one down. `seen` is the count read before. */
    method Decref(data: Name, seen: nat)
      requires Sane(fs) && data.Data?
      modifies this
      ensures Sane(fs)
      ensures forall k: nat :: MarkedAt(old(fs), data, k) ==>
                var count := if k != 0 then k else seen;
                fs == Lowered(old(fs), data, count) || (stubborn && LoweredSome(old(fs), fs, data, count))
    {
      var at, ino := data.at, data.ino;
      var c := FindMarker(at, ino);
      var count := if c != 0 then c else seen;
      if count <= 1 {
        var ok := Granted();
        if ok { fs := fs - {data}; }
        Unmake(Marker(at, ino, if count != 0 then count else 1));
        return;
      }
      if Marker(at, ino, count) in fs {
        var ok := Return(Marker(at, ino, count), Marker(at, ino, count - 1));
      }
    }

    /** unlink(2) of a name of a group. Where the marker is right, the data goes
        exactly with the last name; in any case it stays while the marker, a
        lost one read as 0, counts more than one, and goes when it does not. */
    method Remove(u: Name) returns (r: int)
      requires Sane(fs) && u.User? && Member(fs, u)
      modifies this
      ensures Sane(fs) && (r != 0 ==> fs == old(fs) && faults)
      ensures forall k: nat :: MarkedAt(old(fs), old(fs)[u].to, k) && r == 0 ==>
                (k > 1 ==> IsFile(fs, old(fs)[u].to)) && (k <= 1 && !stubborn ==> !IsFile(fs, old(fs)[u].to))
      ensures !stubborn && Inv(old(fs)) ==> Inv(fs)
      ensures !stubborn && Inv(old(fs)) && r == 0 ==> Left(old(fs), fs, old(fs)[u].to, u)
    {
      var data := fs[u].to;
      if Inv(fs) { assert GroupOk(fs, data.at, data.ino); }
      var seen := FindMarker(data.at, data.ino);
      var ok := Allowed();
      if !ok { return -EIO; }
      fs := fs - {u};
      ghost var fs0 := fs;
      Decref(data, seen);
      forall k: nat | MarkedAt(old(fs), data, k)
        ensures (k > 1 ==> IsFile(fs, data)) && (k <= 1 && !stubborn ==> !IsFile(fs, data))
      {
        assert MarkedAt(fs0, data, k);
      }
      if !stubborn && Inv(old(fs)) {
        assert MarkedAt(old(fs), data, seen) && MarkedAt(fs0, data, seen);
        LeftInv(old(fs), fs, data, u, seen);
      }
      r := 0;
    }

    /** Any run of links, removals and new files keeps every group's marker at
        the number of its names, and its data as long as it has one, unless the
        host is stubborn. Even then a run of links and new files loses no file. */
    method Run(ops: seq<Op>)
      requires Sane(fs) && (!stubborn ==> Inv(fs))
      modifies this
      ensures Sane(fs) && (!stubborn ==> Inv(fs))
      ensures (forall i :: 0 <= i < |ops| ==> !ops[i].Rm?) ==> NoLoss(old(fs), fs)
    {
      for i := 0 to |ops|
        invariant Sane(fs) && (!stubborn ==> Inv(fs))
        invariant (forall j :: 0 <= j < i ==> !ops[j].Rm?) ==> NoLoss(old(fs), fs)
      {
        match ops[i]
        case Ln(src, dst, store, own) => var r := MakeLink(src, dst, store, own);
        case Rm(u) => if Member(fs, u) { var r := Remove(u); }
        case New(u, ino) => Create(u, ino);
      }
    }

    method Create(u: Name, ino: nat)
      requires Sane(fs) && u.User? && (!stubborn ==> Inv(fs))
      modifies this
      ensures NoLoss(old(fs), fs) && (!stubborn ==> Inv(fs))
    {
      if u !in fs {
        fs := fs[u := File(ino)];
        if !stubborn { PlainInv(old(fs), fs, u); }
      }
      AddedNoLoss(old(fs), fs, u);
    }
  }

  type UserName = n: Name | n.User? witness User(0, 0)

  datatype Op = Ln(src: UserName, dst: UserName, store: bool, own: bool) | Rm(u: UserName) | New(u: UserName, ino: nat)

  /** The group's marker says `k`; 0 when it is lost. */
  ghost predicate MarkedAt(fs: Tree, data: Name, k: nat)
    requires data.Data?
  {
    if k == 0 then forall c :: Marker(data.at, data.ino, c) !in fs
    else Marker(data.at, data.ino, k) in fs && forall c :: Marker(data.at, data.ino, c) in fs ==> c == k
  }

  ghost function Lowered(fs: Tree, data: Name, count: nat): Tree
    requires data.Data?
  {
    var m := Marker(data.at, data.ino, count);
    if count <= 1 then fs - {data} - {m}
    else if m in fs then fs[Marker(data.at, data.ino, count - 1) := fs[m]] - {m}
    else fs
  }

  /** What a stubborn host may make of it: the data or the marker stays. */
  ghost predicate LoweredSome(fs: Tree, fs': Tree, data: Name, count: nat)
    requires data.Data?
  {
    if count <= 1 then
      var m := Marker(data.at, data.ino, if count != 0 then count else 1);
      fs' == fs || fs' == fs - {data} || fs' == fs - {m} || fs' == fs - {data} - {m}
    else fs' == fs
  }

  /** The outcome of a removal: one name fewer, the data gone exactly when none
      is left, and the marker alone moved besides. */
  ghost predicate Left(fs: Tree, fs': Tree, data: Name, u: Name) {
    && data.Data? && data in fs && u !in fs' && Names(fs', data) == Names(fs, data) - {u}
    && (data in fs' <==> Names(fs', data) != {}) && (data in fs' ==> fs'[data] == fs[data])
    && (forall n: Name :: n != u && n != data && !n.Marker? ==>
          (n in fs <==> n in fs') && (n in fs ==> fs'[n] == fs[n]))
    && (forall n: Name :: n.Marker? && (n.at != data.at || n.ino != data.ino) ==> (n in fs <==> n in fs'))
  }

  /** A group nothing was done to. */
  lemma {:induction false} Untouched(fs: Tree, fs': Tree, at: Place, ino: nat)
    requires GroupOk(fs, at, ino) && (IsFile(fs, Data(at, ino)) <==> IsFile(fs', Data(at, ino)))
    requires forall c :: Marker(at, ino, c) in fs <==> Marker(at, ino, c) in fs'
    requires Names(fs', Data(at, ino)) == Names(fs, Data(at, ino))
    ensures GroupOk(fs', at, ino)
  {
  }

  lemma {:induction false} LeftNames(fs: Tree, fs': Tree, data: Name, u: Name, count: nat, n: Name)
    requires data.Data? && n.Data? && u in Names(fs, data) && fs' == Lowered(fs - {u}, data, count)
    ensures Names(fs', n) == if n == data then Names(fs, n) - {u} else Names(fs, n)
  {
  }

  lemma {:induction false} LeftGroup(fs: Tree, fs': Tree, data: Name, u: Name, count: nat)
    requires data.Data? && GroupOk(fs, data.at, data.ino) && IsFile(fs, data) && u in Names(fs, data)
    requires MarkedAt(fs, data, count)
    requires fs' == Lowered(fs - {u}, data, count)
    ensures GroupOk(fs', data.at, data.ino) && Left(fs, fs', data, u)
  {
    assert count == |Names(fs, data)|;
    LeftNames(fs, fs', data, u, count, data);
    assert |Names(fs, data) - {u}| == count - 1;
  }

  lemma {:induction false} LeftInv(fs: Tree, fs': Tree, data: Name, u: Name, count: nat)
    requires Inv(fs) && data.Data? && IsFile(fs, data) && u in Names(fs, data) && MarkedAt(fs, data, count)
    requires fs' == Lowered(fs - {u}, data, count)
    ensures Inv(fs') && Left(fs, fs', data, u)
  {
    assert GroupOk(fs, data.at, data.ino);
    LeftGroup(fs, fs', data, u, count);
    forall at, ino ensures GroupOk(fs', at, ino) {
      assert GroupOk(fs, at, ino);
      if Data(at, ino) != data {
        LeftNames(fs, fs', data, u, count, Data(at, ino));
        Untouched(fs, fs', at, ino);
      }
    }
  }

  const COPY := 1

  /** The outcome of a first link: `src` and `dst` are the names of a group of
      two whose data is the very file `src` was. Stale symlinks may go. */
  ghost predicate NewGroup(fs: Tree, fs': Tree, src: Name, dst: Name, at: Place)
    requires IsFile(fs, src)
  {
    var data := Data(at, fs[src].ino);
    && !IsFile(fs, data) && data in fs' && fs'[data] == fs[src]
    && Names(fs', data) == {src, dst} && Marker(at, fs[src].ino, 2) in fs'
    && (forall n :: n !in {src, dst, data, Marker(at, fs[src].ino, 2)} && n in fs' ==> n in fs && fs'[n] == fs[n])
    && (forall n :: n in fs && n !in fs' ==> Stale(fs, n))
  }

  /** `src` is a file, and nothing stands under its data name in the store. */
  predicate Ungrouped(fs: Tree, src: Name) {
    IsFile(fs, src) && Data(Store, fs[src].ino) !in fs
  }

  /** `src` is a name of a group. */
  predicate Member(fs: Tree, src: Name) {
    src in fs && fs[src].Link? && Reaches(fs, src, fs[src].to) && IsFile(fs, fs[src].to)
  }

  /** The outcome of a further link: one more name of the same data, and the
      marker alone has moved. */
  ghost predicate Joined(fs: Tree, fs': Tree, data: Name, dst: Name)
    requires data.Data?
  {
    && data in fs && data in fs' && fs'[data] == fs[data] && Names(fs', data) == Names(fs, data) + {dst}
    && (forall n :: n != dst && !n.Marker? ==> (n in fs <==> n in fs') && (n in fs ==> fs'[n] == fs[n]))
    && (forall n: Name :: n.Marker? && (n.at != data.at || n.ino != data.ino) ==> (n in fs <==> n in fs'))
  }

  ghost predicate Raised(fs: Tree, fs': Tree, data: Name, dst: Name, count: nat)
    requires data.Data? && dst.User?
  {
    var m, m' := Marker(data.at, data.ino, count), Marker(data.at, data.ino, count + 1);
    m in fs && fs' == (fs[m' := fs[m]] - {m})[dst := Link(data, data.at != Beside(dst.dir))]
  }

  lemma {:induction false} JoinedNames(fs: Tree, fs': Tree, data: Name, dst: Name, count: nat, n: Name)
    requires data.Data? && n.Data? && dst.User? && dst !in fs && Raised(fs, fs', data, dst, count)
    ensures Names(fs', n) == if n == data then Names(fs, n) + {dst} else Names(fs, n)
  {
  }

  lemma {:induction false} JoinedGroup(fs: Tree, fs': Tree, data: Name, dst: Name, count: nat)
    requires data.Data? && GroupOk(fs, data.at, data.ino) && IsFile(fs, data) && dst.User? && dst !in fs
    requires count == |Names(fs, data)| && Raised(fs, fs', data, dst, count)
    ensures GroupOk(fs', data.at, data.ino) && Joined(fs, fs', data, dst)
  {
    JoinedNames(fs, fs', data, dst, count, data);
    assert |Names(fs', data)| == count + 1;
  }

  lemma {:induction false} JoinedInv(fs: Tree, fs': Tree, data: Name, dst: Name, count: nat)
    requires Inv(fs) && data.Data? && IsFile(fs, data) && dst.User? && dst !in fs
    requires count == |Names(fs, data)| && Raised(fs, fs', data, dst, count)
    ensures Inv(fs') && Joined(fs, fs', data, dst)
  {
    assert GroupOk(fs, data.at, data.ino);
    JoinedGroup(fs, fs', data, dst, count);
    forall at, ino ensures GroupOk(fs', at, ino) {
      assert GroupOk(fs, at, ino);
      if Data(at, ino) != data {
        JoinedNames(fs, fs', data, dst, count, Data(at, ino));
        Untouched(fs, fs', at, ino);
      }
    }
  }

  /** A lost marker reads as a count of at most one: removing one of two names
      of such a group takes the data from under the other. */
  lemma {:induction false} LostMarkerLosesData()
    ensures var data, a, b := Data(Store, 7), User(0, 1), User(0, 2);
            var fs := map[data := File(7), a := Link(data, true), b := Link(data, true)];
            && Reaches(fs, a, data) && Reaches(fs, b, data) && MarkedAt(fs, data, 0)
            && var fs' := Lowered(fs - {a}, data, 0);
               Reaches(fs', b, data) && data !in fs'
  {
  }

  lemma {:induction false} SweptThenGroup(fs: Tree, fs1: Tree, fs': Tree, src: Name, dst: Name, at: Place)
    requires IsFile(fs, src) && Swept(fs, fs1) && IsFile(fs1, src) && fs1[src] == fs[src]
    requires NewGroup(fs1, fs', src, dst, at)
    ensures NewGroup(fs, fs', src, dst, at)
  {
  }

  lemma {:induction false} PlainInv(fs: Tree, fs': Tree, dst: Name)
    requires Inv(fs) && dst.User? && dst !in fs && dst in fs' && fs' == fs[dst := fs'[dst]] && !fs'[dst].Link?
    ensures Inv(fs')
  {
    forall at, ino ensures GroupOk(fs', at, ino) {
      assert GroupOk(fs, at, ino);
      assert Names(fs', Data(at, ino)) == Names(fs, Data(at, ino));
    }
  }

  /** `src` became a group with `dst`: the same file, two names, count two. */
  ghost predicate Grouped(fs: Tree, fs': Tree, src: Name, dst: Name, at: Place)
    requires IsFile(fs, src)
  {
    var ino := fs[src].ino;
    var data, abs := Data(at, ino), at.Store?;
    fs' == fs[data := fs[src]][src := Link(data, abs)][Marker(at, ino, 2) := Other][dst := Link(data, abs)]
  }

  /** The same without the marker. */
  ghost predicate Unmarked(fs: Tree, fs': Tree, src: Name, dst: Name, at: Place)
    requires IsFile(fs, src)
  {
    var data, abs := Data(at, fs[src].ino), at.Store?;
    fs' == fs[data := fs[src]][src := Link(data, abs)][dst := Link(data, abs)]
  }

  lemma {:induction false} NewGroupIntro(fs: Tree, fs': Tree, src: Name, dst: Name, at: Place)
    requires Inv(fs) && src.User? && dst.User? && IsFile(fs, src) && dst !in fs && !IsFile(fs, Data(at, fs[src].ino))
    requires at == Store || (at == Beside(src.dir) && src.dir == dst.dir)
    requires Grouped(fs, fs', src, dst, at)
    ensures NewGroup(fs, fs', src, dst, at)
  {
    GroupedInv(fs, fs', src, dst, at);
  }

  lemma {:induction false} GroupedInv(fs: Tree, fs': Tree, src: Name, dst: Name, at: Place)
    requires Inv(fs) && src.User? && dst.User? && IsFile(fs, src) && dst !in fs && !IsFile(fs, Data(at, fs[src].ino))
    requires at == Store || (at == Beside(src.dir) && src.dir == dst.dir)
    requires Grouped(fs, fs', src, dst, at)
    ensures Inv(fs') && Names(fs', Data(at, fs[src].ino)) == {src, dst}
  {
    var data := Data(at, fs[src].ino);
    assert GroupOk(fs, at, fs[src].ino);
    assert Names(fs', data) == {src, dst};
    forall a, i ensures GroupOk(fs', a, i) {
      assert GroupOk(fs, a, i);
      if Data(a, i) != data { assert Names(fs', Data(a, i)) == Names(fs, Data(a, i)); }
    }
  }

  lemma {:induction false} SweptInv(fs: Tree, fs': Tree)
    requires Inv(fs) && Swept(fs, fs')
    ensures Inv(fs')
  {
    forall at, ino ensures GroupOk(fs', at, ino) {
      assert GroupOk(fs, at, ino);
      assert Names(fs', Data(at, ino)) == Names(fs, Data(at, ino));
    }
  }
}
