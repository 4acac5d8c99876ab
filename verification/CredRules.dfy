/** The rules by which a guest may change its fake ids, and what no run of them
    can do. An id set is the real, effective, saved and file-system id; the uid
    and the gid rules are one and the same. */
module CredRules {
  import opened Errno
  import opened Slots

  const KEEP := 0xffff_ffff
  const NGROUPS := 1024

  type Id = x: int | 0 <= x <= KEEP

  class IdSet {
    var rid: Id
    var eid: Id
    var sid: Id
    var fsid: Id

    constructor (id: Id)
      ensures rid == eid == sid == fsid == id
    {
      rid, eid, sid, fsid := id, id, id, id;
    }

    ghost function Ids(): set<Id>
      reads this
    {
      {rid, eid, sid}
    }

    /** The set a call that fails must leave behind. */
    twostate predicate Same()
      reads this
    {
      rid == old(rid) && eid == old(eid) && sid == old(sid) && fsid == old(fsid)
    }

    method SetOne(priv: bool, u: Id) returns (e: int)
      modifies this
      ensures e == 0 <==> u != KEEP && (priv || u == old(rid) || u == old(sid))
      ensures e != 0 ==> Same() && e == if u == KEEP then EINVAL else EPERM
      ensures e == 0 ==> eid == u && fsid == u
      ensures e == 0 && priv ==> Ids() == {u}
      ensures e == 0 && !priv ==> rid == old(rid) && sid == old(sid)
    {
      if u == KEEP {
        return EINVAL;
      }
      if priv {
        rid, eid, sid, fsid := u, u, u, u;
        return 0;
      }
      if u == rid || u == sid {
        eid, fsid := u, u;
        return 0;
      }
      return EPERM;
    }

    method SetRealEff(priv: bool, r: Id, f: Id) returns (e: int)
      modifies this
      ensures e != 0 ==> e == EPERM && !priv && Same()
      ensures e == EPERM <==> !priv && !((r == KEEP || r in {old(rid), old(eid)}) && (f == KEEP || f in old(Ids())))
      ensures e == 0 ==>
                rid == (if r == KEEP then old(rid) else r) && eid == (if f == KEEP then old(eid) else f) && fsid == eid
      ensures e == 0 ==> sid == if r == KEEP && (f == KEEP || f == old(rid)) then old(sid) else eid
    {
      var nr, ne, ns := rid, eid, sid;
      if r != KEEP {
        if !priv && r != rid && r != eid {
          return EPERM;
        }
        nr := r;
      }
      if f != KEEP {
        if !priv && f != rid && f != eid && f != sid {
          return EPERM;
        }
        ne := f;
      }
      if r != KEEP || (f != KEEP && f != rid) {
        ns := ne;
      }
      rid, eid, sid, fsid := nr, ne, ns, ne;
      return 0;
    }

    method SetAll(priv: bool, r: Id, f: Id, s: Id) returns (e: int)
      modifies this
      ensures e != 0 ==> e == EPERM && !priv && Same()
      ensures e == EPERM <==> !priv && !({r, f, s} <= old(Ids()) + {KEEP})
      ensures e == 0 ==> rid == (if r == KEEP then old(rid) else r) && eid == (if f == KEEP then old(eid) else f)
      ensures e == 0 ==> sid == (if s == KEEP then old(sid) else s) && fsid == eid
    {
      if !priv {
        if r != KEEP && r != rid && r != eid && r != sid {
          return EPERM;
        }
        if f != KEEP && f != rid && f != eid && f != sid {
          return EPERM;
        }
        if s != KEEP && s != rid && s != eid && s != sid {
          return EPERM;
        }
      }
      if r != KEEP { rid := r; }
      if f != KEEP { eid := f; }
      if s != KEEP { sid := s; }
      fsid := eid;
      return 0;
    }

    /** Never fails: the answer is the file-system id there was. */
    method SetFs(priv: bool, u: Id) returns (was: Id)
      modifies this`fsid
      ensures was == old(fsid)
      ensures fsid == if u != KEEP && (priv || u in Ids()) then u else was
    {
      was := fsid;
      if u != KEEP && (priv || u == rid || u == eid || u == sid || u == fsid) {
        fsid := u;
      }
    }

    /** Every exec makes the saved and file-system ids the effective one; a
        set-id file changes the effective one first. */
    method Exec(owner: Option<Id>)
      modifies this
      ensures rid == old(rid) && sid == fsid == eid
      ensures eid == if owner.Some? then owner.value else old(eid)
    {
      if owner.Some? { eid := owner.value; }
      sid, fsid := eid, eid;
    }
  }

  /** A system call. The group list is what the guest's memory holds, None when
      it cannot be read; an exec names the owner and group a set-id file is
      seen to have. */
  datatype Req =
    | SetUid(u: Id) | SetGid(u: Id)
    | SetReUid(r: Id, e: Id) | SetReGid(r: Id, e: Id)
    | SetResUid(r: Id, e: Id, s: Id) | SetResGid(r: Id, e: Id, s: Id)
    | SetFsUid(u: Id) | SetFsGid(u: Id)
    | SetGroups(n: int, list: Option<seq<Id>>)
    | Exec(uid: Option<Id>, gid: Option<Id>)

  /** A list that can be read has the entries the call counts, and no file is
      owned by the id that is none. */
  ghost predicate Sound(q: Req) {
    match q
    case SetGroups(n, list) => list.Some? && n >= 0 ==> |list.value| >= n
    case Exec(uid, gid) => uid != Some(KEEP) && gid != Some(KEEP)
    case _ => true
  }

  /** An exec of a file without set-id bits, or any setter. */
  ghost predicate Plain(q: Req) {
    q.Exec? ==> q.uid.None? && q.gid.None?
  }

  class Creds {
    const uids: IdSet
    const gids: IdSet
    var groups: seq<Id>

    ghost predicate Valid()
      reads this, uids, gids
    {
      && uids != gids
      && |groups| <= NGROUPS && KEEP !in groups
      && KEEP !in uids.Ids() && KEEP !in gids.Ids() && uids.fsid != KEEP && gids.fsid != KEEP
      // Only a privileged set can have a file-system id foreign to it.
      && (uids.eid != 0 ==> uids.fsid in uids.Ids())
    }

    /** No id the guest can take is 0. */
    ghost predicate Dropped()
      reads uids
    {
      0 !in uids.Ids()
    }

    constructor (uid: Id, gid: Id)
      requires uid != KEEP && gid != KEEP
      ensures Valid() && fresh(uids) && fresh(gids)
      ensures uids.Ids() == {uid} && gids.Ids() == {gid} && groups == []
    {
      uids := new IdSet(uid);
      gids := new IdSet(gid);
      groups := [];
    }

    method SetGroups(priv: bool, n: int, list: Option<seq<Id>>) returns (e: int)
      requires |groups| <= NGROUPS && KEEP !in groups
      requires list.Some? ==> n >= 0 ==> |list.value| >= n
      modifies this
      ensures |groups| <= NGROUPS && KEEP !in groups
      ensures e != 0 ==> groups == old(groups)
      ensures e == 0 <==> priv && 0 <= n <= NGROUPS && (n == 0 || (list.Some? && KEEP !in list.value[..n]))
      ensures e == 0 ==> groups == if n == 0 then [] else list.value[..n]
      ensures e == 0 || e == if !priv then EPERM
          else if !(0 <= n <= NGROUPS) then EINVAL else if list.None? then EFAULT else EINVAL
    {
      if !priv {
        return EPERM;
      }
      if n < 0 || n > NGROUPS {
        return EINVAL;
      }
      if n == 0 {
        groups := [];
        return 0;
      }
      if list.None? {
        return EFAULT;
      }
      var got, i := list.value[..n], 0;
      while i < n
        invariant 0 <= i <= n && KEEP !in got[..i] && groups == old(groups)
      {
        if got[i] == KEEP {
          return EINVAL;
        }
        i := i + 1;
      }
      groups := got;
      return 0;
    }

    /** One call. Its privilege is an effective uid of 0. Without one, nothing
        enters the ids that was not there and the groups do not move. */
    method Call(q: Req) returns (e: int)
      requires Valid() && Sound(q)
      modifies this, uids, gids
      ensures Valid()
      ensures old(uids.eid) != 0 && Plain(q) ==>
                uids.Ids() <= old(uids.Ids()) && gids.Ids() <= old(gids.Ids()) && groups == old(groups)
      ensures q.Exec? ==> e == 0 && uids.rid == old(uids.rid) && uids.sid == uids.fsid == uids.eid
      ensures q.Exec? && q.uid.None? ==> uids.eid == old(uids.eid)
      ensures e != 0 && !q.SetFsUid? && !q.SetFsGid? ==> uids.Same() && gids.Same() && groups == old(groups)
    {
      var priv := uids.eid == 0;
      e := 0;
      match q
      case SetUid(u) => e := uids.SetOne(priv, u);
      case SetGid(u) => e := gids.SetOne(priv, u);
      case SetReUid(r, f) => e := uids.SetRealEff(priv, r, f);
      case SetReGid(r, f) => e := gids.SetRealEff(priv, r, f);
      case SetResUid(r, f, s) => e := uids.SetAll(priv, r, f, s);
      case SetResGid(r, f, s) => e := gids.SetAll(priv, r, f, s);
      case SetFsUid(u) => e := uids.SetFs(priv, u);
      case SetFsGid(u) => e := gids.SetFs(priv, u);
      case SetGroups(n, list) => e := SetGroups(priv, n, list);
      case Exec(u, g) =>
        uids.Exec(u);
        gids.Exec(g);
    }

    /** Dropping is for good: from a set without 0, no run of setters and of
        execs of plain files ever holds it again; ids only go, groups stay. */
    method Run(qs: seq<Req>)
      requires Valid() && forall i :: 0 <= i < |qs| ==> Sound(qs[i])
      modifies this, uids, gids
      ensures Valid()
      ensures old(Dropped()) && (forall i :: 0 <= i < |qs| ==> Plain(qs[i])) ==>
          Dropped() && uids.Ids() <= old(uids.Ids()) && gids.Ids() <= old(gids.Ids()) && groups == old(groups)
    {
      for i := 0 to |qs|
        invariant Valid()
        invariant old(Dropped()) && (forall j :: 0 <= j < |qs| ==> Plain(qs[j])) ==>
            Dropped() && uids.Ids() <= old(uids.Ids()) && gids.Ids() <= old(gids.Ids()) && groups == old(groups)
      {
        var e := Call(qs[i]);
      }
    }

    /** ...and only dropping is: a set with 0 anywhere in it can take it back. */
    method Regain() returns (e: int)
      requires Valid() && !Dropped()
      modifies this, uids, gids
      ensures Valid() && e == 0 && uids.eid == 0
    {
      e := uids.SetOne(uids.eid == 0, 0);
    }

    /** An exec drops for good the 0 a program kept only as its saved id. */
    method ExecDrops() returns (e: int)
      requires Valid() && uids.rid != 0 && uids.eid != 0
      modifies this, uids, gids
      ensures Valid() && e == 0 && Dropped()
    {
      e := Call(Req.Exec(None, None));
    }
  }
}
