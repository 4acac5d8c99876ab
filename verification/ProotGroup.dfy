/** A proot hardlink group, changed one filesystem call at a time by processes
    that may be killed between any two of them. The group's directory maps names
    to nodes; a data name carries its four-digit number. */
module ProotGroup {
  import opened Errno

  const MAX_COUNT := 9999

  /** The number of a data name: four digits. */
  type Four = v: nat | v <= MAX_COUNT

  /** The indirection, the temporary beside it, `<ind>.<CCCC>`, a guest name. */
  datatype Name = Ind | Tmp | Data(v: Four) | User(k: int)

  /** `beside` says the text spells the indirection's own directory, or a store
      path that stands for it. */
  datatype Node = File(id: int) | Link(to: Name, beside: bool) | Directory

  type Dir = map<Name, Node>

  /** A call that the host refused, or the process's last. */
  datatype Ret = Done | Fail(errno: int) | Killed

  /** The link count in a data name: 0000 reads as one. */
  function Count(v: Four): (c: Four)
    ensures c > 0
  {
    if v == 0 then 1 else v
  }

  ghost predicate Only(fs: Dir, v: Four) {
    Data(v) in fs && fs[Data(v)].File? && forall u :: Data(u) in fs && fs[Data(u)].File? ==> u == v
  }

  ghost predicate OneData(fs: Dir, v: Four, id: int) {
    Only(fs, v) && fs[Data(v)] == File(id)
  }

  ghost predicate NoData(fs: Dir) {
    forall u :: Data(u) in fs ==> !fs[Data(u)].File?
  }

  /** Exactly one data file, and an indirection that names it or names nothing. */
  ghost predicate Sound(fs: Dir, v: Four, id: int) {
    && OneData(fs, v, id)
    && Ind in fs && fs[Ind].Link? && fs[Ind].to.Data? && fs[Ind].beside
    && (fs[Ind].to == Data(v) || fs[Ind].to !in fs)
  }

  /** ...and the chain is whole: the indirection names the data file. */
  ghost predicate Whole(fs: Dir, v: Four, id: int) {
    Sound(fs, v, id) && fs[Ind].to == Data(v)
  }

  ghost function Members(fs: Dir): set<Name> {
    set n | n in fs && n.User? && fs[n] == Link(Ind, true)
  }

  ghost predicate SameUsers(fs: Dir, fs': Dir) {
    forall k :: (User(k) in fs <==> User(k) in fs') && (User(k) in fs ==> fs[User(k)] == fs'[User(k)])
  }

  /** Everything else a change of the group leaves as it was. */
  ghost predicate Rest(fs: Dir, fs': Dir, names: set<Name>) {
    forall n :: n !in names ==> (n in fs <==> n in fs') && (n in fs ==> fs[n] == fs'[n])
  }

  /** The directory as the kernel lists it. */
  ghost predicate Lists(fs: Dir, list: seq<Name>) {
    && (forall n :: n in fs <==> n in list)
    && (forall i, j :: 0 <= i < j < |list| ==> list[i] != list[j])
  }

  /** A process that makes `life` calls at most: a new name, or one removed. */
  datatype Op = Gain(k: int, life: nat) | Lose(k: int, life: nat)

  class Group {
    var fs: Dir
    /** Calls the process makes before it is killed. */
    var life: nat
    /** Whether the host may refuse a call for reasons of its own. */
    const faults: bool

    constructor (fs: Dir, faults: bool)
      ensures this.fs == fs && this.faults == faults && life == 0
    {
      this.fs, this.faults, life := fs, faults, 0;
    }

    method Rename(o: Name, n: Name) returns (r: Ret)
      requires o in fs && o != n && !fs[o].Directory?
      modifies this
      ensures r.Done? ==> fs == old(fs)[n := old(fs)[o]] - {o} && (n in old(fs) ==> !old(fs)[n].Directory?)
      ensures !r.Done? ==> fs == old(fs)
      ensures !faults && old(life) > 0 && (n in old(fs) ==> !old(fs)[n].Directory?) ==> r.Done?
      ensures r.Killed? <==> old(life) == 0
      ensures old(life) > 0 ==> life == old(life) - 1
    {
      if life == 0 { return Killed; }
      life := life - 1;
      var refuse: bool := *;
      if n in fs && fs[n].Directory? { return Fail(EIO); }
      if faults && refuse { return Fail(EIO); }
      fs := fs[n := fs[o]] - {o};
      return Done;
    }

    method Unlink(n: Name) returns (r: Ret)
      modifies this
      ensures fs == old(fs) || fs == old(fs) - {n}
      ensures r.Done? ==> n !in fs
      ensures !r.Done? ==> fs == old(fs)
      ensures r.Killed? <==> old(life) == 0
      ensures old(life) > 0 ==> life == old(life) - 1
      ensures !faults && old(life) > 0 && (n in old(fs) ==> !old(fs)[n].Directory?) ==> n !in fs
    {
      if life == 0 { return Killed; }
      life := life - 1;
      var refuse: bool := *;
      if n !in fs { return Fail(ENOENT); }
      if fs[n].Directory? || (faults && refuse) { return Fail(EIO); }
      fs := fs - {n};
      return Done;
    }

    method Symlink(to: Name, n: Name) returns (r: Ret)
      modifies this
      ensures r.Done? ==> n !in old(fs) && fs == old(fs)[n := Link(to, true)]
      ensures !r.Done? ==> fs == old(fs)
      ensures r.Killed? <==> old(life) == 0
      ensures old(life) > 0 ==> life == old(life) - 1
      ensures !faults && old(life) > 0 && n !in old(fs) ==> r.Done?
    {
      if life == 0 { return Killed; }
      life := life - 1;
      var refuse: bool := *;
      if n in fs { return Fail(EEXIST); }
      if faults && refuse { return Fail(EIO); }
      fs := fs[n := Link(to, true)];
      return Done;
    }

    /** Renew the indirection: the symlink is built aside and takes the old one's
        place in one step. Wherever this stops, the group is sound and nothing
        else has moved. */
    method Repoint(v: Four, ghost id: int) returns (r: Ret)
      requires Sound(fs, v, id)
      modifies this
      ensures Sound(fs, v, id) && Rest(old(fs), fs, {Ind, Tmp})
      ensures r.Done? ==> Whole(fs, v, id)
      ensures !r.Done? ==> fs[Ind] == old(fs)[Ind]
      ensures Clean(old(fs)) ==> Clean(fs)
      ensures !faults && old(life) >= 3 && Clean(old(fs)) ==> r.Done? && life == old(life) - 3
    {
      r := Unlink(Tmp);
      if r.Killed? { return; }
      r := Symlink(Data(v), Tmp);
      if !r.Done? { return; }
      r := Rename(Tmp, Ind);
      if r.Fail? {
        var u := Unlink(Tmp);
        if u.Killed? { return Killed; }
      }
    }

    /** Read the chain: 1 and the number, 0 for no group, -ENOENT for a chain
        that is cut. */
    method Chain() returns (r: int, v: Four)
      ensures r == 1 || r == 0 || r == -ENOENT
      ensures r == 1 <==> Ind in fs && fs[Ind].Link? && fs[Ind].to.Data? && fs[Ind].beside &&
                           fs[Ind].to in fs && fs[fs[Ind].to].File?
      ensures r == 1 ==> fs[Ind].to == Data(v)
      ensures r == -ENOENT <==> Ind in fs && fs[Ind].Link? && fs[Ind].to.Data? && fs[Ind].beside && fs[Ind].to !in fs
    {
      v := 0;
      if Ind !in fs || !fs[Ind].Link? || !fs[Ind].to.Data? || !fs[Ind].beside { return 0, 0; }
      v := fs[Ind].to.v;
      if Data(v) !in fs { return -ENOENT, v; }
      r := if fs[Data(v)].File? then 1 else 0;
    }

    /** The directory as the kernel lists it, in no order. */
    method Listing() returns (list: seq<Name>)
      ensures Lists(fs, list)
    {
      list := [];
      var todo := fs.Keys;
      while todo != {}
        invariant forall n :: n in fs <==> n in todo || n in list
        invariant forall n :: n in list ==> n !in todo
        invariant forall i, j :: 0 <= i < j < |list| ==> list[i] != list[j]
      {
        var n :| n in todo;
        todo := todo - {n};
        list := list + [n];
      }
    }

    /** The one data file of the directory: 0 and its number, -ENOENT for none,
        -EIO for more than one. */
    method FindData() returns (r: int, v: Four)
      ensures r == 0 || r == -ENOENT || r == -EIO
      ensures r == 0 ==> Only(fs, v)
      ensures r != 0 ==> forall u :: !Only(fs, u)
      ensures r == -ENOENT <==> NoData(fs)
    {
      var list := Listing();
      var i, found := 0, 0;
      v := 0;
      while i < |list|
        invariant 0 <= i <= |list| && 0 <= found <= 1
        invariant found == 0 ==> forall j :: 0 <= j < i && list[j].Data? ==> !fs[list[j]].File?
        invariant found == 1 ==>
            Data(v) in list[..i] && fs[Data(v)].File? &&
            forall j :: 0 <= j < i && list[j].Data? && fs[list[j]].File? ==> list[j].v == v
      {
        var n := list[i];
        if n.Data? && fs[n].File? {
          if found == 1 {
            assert n.v != v;
            return -EIO, v;
          }
          found, v := 1, n.v;
        }
        i := i + 1;
      }
      r := if found == 1 then 0 else -ENOENT;
    }

    /** Look the chain up, and mend it if it leads nowhere: to the one data file
        there is, under the number it has. Nothing is mended of a group with no
        data file left. */
    method Settle(ghost v: Four, ghost id: int) returns (r: int, at: Four)
      modifies this
      ensures Rest(old(fs), fs, {Ind, Tmp}) && (r == 0 || r == 1)
      ensures Sound(old(fs), v, id) ==> Sound(fs, v, id) && (r == 1 ==> Whole(fs, v, id) && at == v)
      ensures Sound(old(fs), v, id) && !faults && old(life) >= 3 && Clean(old(fs)) ==> r == 1 && life >= old(life) - 3
      ensures Clean(old(fs)) ==> Clean(fs)
      ensures Gone(old(fs)) ==> r == 0 && fs == old(fs)
    {
      r, at := Chain();
      if r != -ENOENT { return; }
      var f;
      f, at := FindData();
      if f != 0 { return 0, 0; }
      var d := Repoint(at, fs[Data(at)].id);
      r := if d.Done? then 1 else 0;
    }

    /** Move the count by one, no last name dropped: the data file renamed, the
        indirection repointed, the data file renamed back if that failed.
        Wherever it stops there is one data file, the same, under the old or
        the new number. */
    method Adjust(v: Four, delta: int, ghost id: int) returns (r: Ret, ghost now: Four)
      requires Whole(fs, v, id) && (delta == 1 || (delta == -1 && Count(v) > 1))
      modifies this
      ensures now == v || now == Count(v) + delta
      ensures Sound(fs, now, id) && Rest(old(fs), fs, Near(v, delta))
      ensures r.Done? ==> now == Count(v) + delta && Whole(fs, now, id)
      ensures r.Fail? && now == v ==> Whole(fs, v, id)
      ensures r.Fail? && !faults ==> now == v
      ensures delta == 1 && v == MAX_COUNT ==> r == Fail(EMLINK) && fs == old(fs) && life == old(life)
      ensures !faults && old(life) >= 4 && Count(v) + delta <= MAX_COUNT && Clean(old(fs)) ==>
                r.Done? && life == old(life) - 4
      ensures Clean(old(fs)) ==> Clean(fs)
    {
      now := v;
      if delta > 0 && Count(v) >= MAX_COUNT { return Fail(EMLINK), v; }
      var nv := Count(v) + delta;
      r := Rename(Data(v), Data(nv));
      if !r.Done? { return; }
      now := nv;
      r := Repoint(nv, id);
      if r.Fail? {
        var back := Rename(Data(nv), Data(v));
        if back.Done? { now := v; }
        if back.Killed? { return Killed, now; }
      }
    }

    /** Killed at any step of a change of the count, the group is settled by the
        next process: whole, the same data file, the old count or the new. */
    method KilledThenSettled(v: Four, delta: int, steps: nat, ghost id: int) returns (at: Four)
      requires !faults && Whole(fs, v, id) && (delta == 1 || (delta == -1 && Count(v) > 1))
      requires Clean(fs)
      modifies this
      ensures Whole(fs, at, id) && (at == v || at == Count(v) + delta)
      ensures SameUsers(old(fs), fs)
    {
      life := steps;
      var r;
      ghost var now;
      r, now := Adjust(v, delta, id);
      life := 3;
      var s;
      s, at := Settle(now, id);
    }

    /** The last name dropped: the data file removed, then the indirection. */
    method DropLast(v: Four, ghost id: int)
      requires Whole(fs, v, id) && Members(fs) == {}
      modifies this
      ensures Members(fs) == {} && (Sound(fs, v, id) || Gone(fs))
      ensures Clean(old(fs)) ==> Clean(fs)
      ensures !faults && old(life) >= 2 ==> Gone(fs) && NoData(fs)
    {
      var r := Unlink(Data(v));
      if r.Killed? { return; }
      r := Unlink(Ind);
    }

    /** A new name of the group: the count raised, then the member made; the
        count put back where it cannot be. Killed anywhere, the count is at
        most too high. */
    method LinkName(k: int, ghost v: Four, ghost id: int) returns (r: Ret, ghost now: Four)
      requires Gone(fs) || Counted(fs, v, id)
      modifies this
      ensures (if Gone(old(fs)) then fs == old(fs) && r.Fail? else Counted(fs, now, id))
      ensures (Clean(old(fs)) ==> Clean(fs))
      ensures r.Done? ==> User(k) !in old(fs) && Members(fs) == Members(old(fs)) + {User(k)} && now == Count(v) + 1
      ensures !r.Done? ==> Members(fs) == Members(old(fs))
      ensures !faults && old(life) >= 12 && Clean(old(fs)) && !Gone(old(fs)) ==>
                (r.Done? <==> User(k) !in old(fs) && v < MAX_COUNT)
      ensures !faults && old(life) >= 12 && Clean(old(fs)) && !r.Done? ==> Count(now) == Count(v)
    {
      now := v;
      var s, at := Settle(v, id);
      RestMembers(old(fs), fs, {Ind, Tmp});
      if s != 1 { return Fail(ENOENT), v; }
      ghost var fs0 := fs;
      r, now := Adjust(at, 1, id);
      RestMembers(fs0, fs, Near(v, 1));
      if r.Done? { r, now := MakeMember(k, Count(at) + 1, id); }
    }

    method MakeMember(k: int, v: Four, ghost id: int) returns (r: Ret, ghost now: Four)
      requires Whole(fs, v, id) && |Members(fs)| < Count(v) && v >= 2
      modifies this
      ensures Counted(fs, now, id) && (Clean(old(fs)) ==> Clean(fs))
      ensures r.Done? ==> User(k) !in old(fs) && Members(fs) == Members(old(fs)) + {User(k)} && now == v
      ensures !r.Done? ==> Members(fs) == Members(old(fs))
      ensures !faults && old(life) >= 5 && Clean(old(fs)) ==> (r.Done? <==> User(k) !in old(fs))
      ensures !faults && old(life) >= 5 && Clean(old(fs)) && !r.Done? ==> now == v - 1
    {
      now := v;
      r := Symlink(Ind, User(k));
      if r.Done? {
        NewMember(old(fs), fs, User(k));
      } else if r.Fail? {
        var u;
        u, now := Adjust(v, -1, id);
        RestMembers(old(fs), fs, Near(v, -1));
      }
    }

    /** A name of the group removed: the name, then the count down, and with the
        last of the names the group. */
    method DropName(k: int, ghost v: Four, ghost id: int) returns (r: Ret, ghost now: Four)
      requires Counted(fs, v, id) && User(k) in Members(fs)
      modifies this
      ensures (Gone(fs) || Counted(fs, now, id)) && (Clean(old(fs)) ==> Clean(fs))
      ensures Members(fs) == Members(old(fs)) || Members(fs) == Members(old(fs)) - {User(k)}
      ensures NoData(fs) ==> Members(fs) == {}
      ensures !faults && old(life) >= 12 && Clean(old(fs)) ==> Members(fs) == Members(old(fs)) - {User(k)}
      ensures !faults && old(life) >= 12 && Clean(old(fs)) && Count(v) > 1 ==>
                now == Count(v) - 1 && Counted(fs, now, id)
      ensures !faults && old(life) >= 12 && Clean(old(fs)) && Count(v) == 1 ==> Gone(fs) && NoData(fs)
    {
      now := v;
      r := Unlink(User(k));
      if !r.Done? { return; }
      LostMember(old(fs), fs, User(k));
      r, now := Lower(v, id);
    }

    method Lower(ghost v: Four, ghost id: int) returns (r: Ret, ghost now: Four)
      requires Sound(fs, v, id) && |Members(fs)| < Count(v)
      modifies this
      ensures (Gone(fs) || Counted(fs, now, id)) && (Clean(old(fs)) ==> Clean(fs))
      ensures Members(fs) == Members(old(fs))
      ensures NoData(fs) ==> Members(fs) == {}
      ensures !faults && old(life) >= 7 && Clean(old(fs)) && Count(v) > 1 ==>
                now == Count(v) - 1 && Counted(fs, now, id)
      ensures !faults && old(life) >= 7 && Clean(old(fs)) && Count(v) == 1 ==> Gone(fs) && NoData(fs)
    {
      now := v;
      var s, at := Settle(v, id);
      RestMembers(old(fs), fs, {Ind, Tmp});
      if s != 1 { return Fail(ENOENT), v; }
      if Count(at) <= 1 {
        DropLast(at, id);
        return Done, v;
      }
      ghost var fs0 := fs;
      r, now := Adjust(at, -1, id);
      RestMembers(fs0, fs, Near(v, -1));
    }

    /** Any run of processes linking and removing names, each killed after as
        many calls as it says: the group is kept, so its data file is there as
        long as a name is. When none is killed and nothing refused, the count
        is the number of names, and the data file goes with the last. */
    method Run(ops: seq<Op>, ghost v0: Four, ghost id: int) returns (ghost v: Four)
      requires Counted(fs, v0, id)
      modifies this
      ensures Gone(fs) || Counted(fs, v, id)
      ensures NoData(fs) ==> Members(fs) == {}
      ensures !faults && Clean(old(fs)) && |Members(old(fs))| == Count(v0) &&
              (forall i :: 0 <= i < |ops| ==> ops[i].life >= 12) ==>
          (Members(fs) != {} ==> Counted(fs, v, id) && |Members(fs)| == Count(v)) && (Members(fs) == {} ==> NoData(fs))
    {
      v := v0;
      ghost var steady := !faults && Clean(fs) && |Members(fs)| == Count(v0) &&
        forall i :: 0 <= i < |ops| ==> ops[i].life >= 12;
      for i := 0 to |ops|
        invariant Gone(fs) || Counted(fs, v, id)
        invariant NoData(fs) ==> Members(fs) == {}
        invariant steady ==>
            Clean(fs) && (Members(fs) == {} ==> Gone(fs) && NoData(fs)) &&
            (Members(fs) != {} ==> Counted(fs, v, id) && |Members(fs)| == Count(v))
      {
        v := One(ops[i], v, id);
      }
    }

    method One(op: Op, ghost v: Four, ghost id: int) returns (ghost now: Four)
      requires Gone(fs) || Counted(fs, v, id)
      requires NoData(fs) ==> Members(fs) == {}
      modifies this
      ensures Gone(fs) || Counted(fs, now, id)
      ensures NoData(fs) ==> Members(fs) == {}
      ensures Clean(old(fs)) ==> Clean(fs)
      ensures !faults && op.life >= 12 && Clean(old(fs)) && Members(old(fs)) != {} && |Members(old(fs))| == Count(v) ==>
          (Members(fs) != {} ==> Counted(fs, now, id) && |Members(fs)| == Count(now)) &&
          (Members(fs) == {} ==> Gone(fs) && NoData(fs))
      ensures Gone(old(fs)) && NoData(old(fs)) ==> Gone(fs) && NoData(fs)
    {
      life := op.life;
      now := v;
      match op
      case Gain(k, _) =>
        var r;
        r, now := LinkName(k, v, id);
      case Lose(k, _) =>
        if User(k) in fs && fs[User(k)] == Link(Ind, true) {
          var r;
          assert User(k) in Members(fs);
          r, now := DropName(k, v, id);
        }
    }
  }

  /** The group's life over runs: sound with no fewer links counted than there
      are names, or gone with the last name. */
  ghost predicate Counted(fs: Dir, v: Four, id: int) {
    Sound(fs, v, id) && |Members(fs)| <= Count(v)
  }

  ghost predicate Gone(fs: Dir) {
    Members(fs) == {} && (Ind !in fs || (NoData(fs) && fs[Ind].Link?))
  }

  lemma {:induction false} RestMembers(fs: Dir, fs': Dir, names: set<Name>)
    requires Rest(fs, fs', names) && forall n :: n in names ==> !n.User?
    ensures Members(fs') == Members(fs)
  {
  }

  /** What a change of the count may touch. */
  ghost function Near(v: Four, delta: int): set<Name> {
    {Ind, Tmp, Data(v)} + if 0 <= Count(v) + delta <= MAX_COUNT then {Data(Count(v) + delta)} else {}
  }

  lemma {:induction false} NewMember(fs: Dir, fs': Dir, n: Name)
    requires n !in fs && n.User? && fs' == fs[n := Link(Ind, true)]
    ensures Members(fs') == Members(fs) + {n} && |Members(fs')| == |Members(fs)| + 1
  {
  }

  lemma {:induction false} LostMember(fs: Dir, fs': Dir, n: Name)
    requires n in Members(fs) && fs' == fs - {n}
    ensures Members(fs') == Members(fs) - {n} && |Members(fs')| == |Members(fs)| - 1
  {
  }

  /** No directory stands where the group's own files go. */
  ghost predicate Clean(fs: Dir) {
    forall n :: n in fs && !n.User? ==> !fs[n].Directory?
  }
}
