/** The daemon: one object holding every table, changed one request at a time. */
module IpcRegistry {
  import opened Errno
  import opened Slots
  import opened Procs
  import opened SemAttempt
  import opened SemCore
  import opened MsgCore
  import opened IpcTables
  import opened IpcReplies
  import opened SemLog
  import opened Mail
  import opened IpcRounds
  import opened IpcRules

  class Registry {
    /** Whether the host may refuse the daemon memory. */
    const scarce: bool
    var sets: Table<SemSet>
    var undo: Table<UndoRow>
    var nUndo: int
    var queues: Table<Queue>
    var wait: Table<Waiter>
    var nWait: int
    var waitSeq: nat
    var nextSemId: int
    var nextMsqId: int
    var replies: seq<Reply>
    // Everything that ever moved a semaphore, and a message.
    ghost var log: seq<Move>
    ghost var mail: seq<Post>

    ghost predicate SemValid()
      reads `sets, `undo, `nUndo, `log, `nextSemId
    {
      match (sets, undo)
      case (s, u) =>
        && SetsOk(s) && UndoOk(s, u) && nUndo == Count(u)
        && LogOk(s, u, log)
        && 1 <= nextSemId <= INT_MAX
    }

    ghost predicate MsgValid()
      reads `sets, `queues, `wait, `nWait, `waitSeq, `nextMsqId, `mail
    {
      match (queues, wait)
      case (q, w) =>
        && QueuesOk(q) && 1 <= nextMsqId <= INT_MAX
        && 0 < waitSeq && WaitOk(sets, q, w, waitSeq) && nWait == Count(w)
        && Conserved(mail, q, w) && MailOk(q, mail)
    }

    ghost predicate Valid()
      reads this
    {
      SemValid() && MsgValid()
    }

    /** Nobody has been answered twice, and nobody parked has been answered. */
    ghost predicate Once()
      reads `wait, `waitSeq, `replies
    {
      OnceEach(wait, waitSeq, replies)
    }

    /** No parked operation could proceed. */
    ghost predicate Quiet()
      reads `sets, `log, `queues, `wait
    {
      AllStuck(sets, log, queues, wait)
    }

    /** Nothing is left of the dead. */
    ghost predicate Living(world: World)
      reads `undo, `wait
    {
      AllLive(undo, wait, world)
    }

    ghost function Now(): Books
      reads `wait, `waitSeq, `replies, `log, `mail
    {
      Books(wait, waitSeq, replies, log, mail)
    }

    ghost function Seen(): View
      reads `sets, `queues, `wait, `waitSeq, `replies, `log, `mail
    {
      View(sets, queues, Now())
    }

    ghost function Met(): Desk
      reads `sets, `undo, `log, `queues, `wait
    {
      Desk(Sems(), queues, wait, scarce)
    }

    ghost function Sems(): Mid
      reads `sets, `undo, `log
    {
      Mid(sets, undo, log)
    }

    constructor (scarce: bool)
      ensures Valid() && Quiet() && Once() && log == [] && mail == [] && replies == []
      ensures forall i :: 0 <= i < |sets| ==> sets[i].None?
    {
      this.scarce := scarce;
      sets := seq(SEM_SET_MAX, _ => None);
      undo := seq(SEM_UNDO_MAX, _ => None);
      queues := seq(MSG_QUEUE_MAX, _ => None);
      wait := seq(IPC_WAITER_MAX, _ => None);
      nUndo, nWait, waitSeq, nextSemId, nextMsqId := 0, 0, 1, 1, 1;
      replies, log, mail := [], [], [];
      new;
      SumZero(undo, Used<UndoRow>());
      SumZero(wait, Used<Waiter>());
      forall m ensures Counted(TallyOf([]), queues, wait, m) {
        SumZero(queues, QueuedTerm(m));
        SumZero(wait, HeldTerm(m));
      }
    }

    // ---- SEM_UNDO ----

    /** Whether an allocation succeeds. */
    method Memory() returns (got: bool)
      ensures !got ==> scarce
    {
      got := *;
      got := got || !scarce;
    }

    /** The row of (pid, set), and the lowest free slot: -1 for none. */
    method UndoFind(pid: int, semid: int) returns (found: int, slot: int)
      ensures -1 <= found < |undo| && -1 <= slot < |undo|
      ensures found >= 0 ==> Holds(undo[found], pid, semid)
      ensures found < 0 ==> !HasRow(undo, pid, semid)
      ensures slot >= 0 ==> undo[slot].None? && forall j :: 0 <= j < slot ==> undo[j].Some?
      ensures found < 0 && slot < 0 ==> Packed(undo)
    {
      slot := -1;
      found := 0;
      while found < |undo|
        invariant 0 <= found <= |undo| && -1 <= slot < found
        invariant slot >= 0 ==> undo[slot].None? && forall j :: 0 <= j < slot ==> undo[j].Some?
        invariant slot < 0 ==> forall j :: 0 <= j < found ==> undo[j].Some?
        invariant forall j :: 0 <= j < found ==> !Holds(undo[j], pid, semid)
      {
        if undo[found].Some? {
          if undo[found].value.pid == pid && undo[found].value.semid == semid {
            return;
          }
        } else if slot < 0 {
          slot := found;
        }
        found := found + 1;
      }
      found := -1;
    }

    /** A vector that went through, written back: the set, and the process's row
        in slot `ui` (or no row, ui < 0). */
    method Store(si: nat, s': SemSet, ui: int, row: UndoRow, ops: seq<SemBuf>, ghost to: nat)
      requires SemValid() && WaitOk(sets, queues, wait, waitSeq)
      requires si < |sets| && sets[si].Some? && SetOk(s') && s' == Shifted(sets[si].value, ops, row.pid)
      requires row.semid == s'.id && AdjOk(row.adj) && |row.adj| == |s'.vals|
      requires row.adj == Owe(Debt(log, s'.id, row.pid).adj, ops, |ops|) && GoesThrough(log, s'.id, row.pid, ops)
      requires ui >= 0 ==> RowSlot(undo, ui, row.pid, row.semid)
      requires ui < 0 ==> UndoFree(ops, |ops|) && !HasRow(undo, row.pid, row.semid)
      modifies `sets, `undo, `nUndo, `log
      ensures SemValid() && WaitOk(sets, queues, wait, waitSeq)
      ensures sets == old(sets)[si := Some(s')]
      ensures log == old(log) + [Did(s'.id, row.pid, if ui >= 0 then row.start else 0, ops, to)]
      ensures undo == if ui >= 0 then old(undo)[ui := Some(row)] else old(undo)
    {
      ghost var s, m := sets[si].value, Did(s'.id, row.pid, if ui >= 0 then row.start else 0, ops, to);
      if ui >= 0 {
        assert HasSet(sets, row.semid, |row.adj|);
        RowWrite(sets, undo, ui, row);
        CommitSlot(s, undo, log, ui, row, ops, to);
        LogMove(sets, undo, undo[ui := Some(row)], log, m, si, s');
        nUndo := if undo[ui].Some? then nUndo else nUndo + 1;
        undo := undo[ui := Some(row)];
      } else {
        PlainSlot(s, undo, log, row.pid, ops, to);
        LogMove(sets, undo, undo, log, m, si, s');
      }
      Revalue(sets, undo, queues, wait, waitSeq, si, s');
      sets := sets[si := Some(s')];
      log := log + [m];
    }

    /** A vector that was taken back leaves a row of zeros behind if it made one. */
    method StoreBlank(si: nat, ui: int, row: UndoRow)
      requires SemValid() && si < |sets| && Is(sets[si], row.semid) && row.adj == Zeros(|sets[si].value.vals|)
      requires RowSlot(undo, ui, row.pid, row.semid) && undo[ui].None?
      modifies `undo, `nUndo
      ensures SemValid() && undo == old(undo)[ui := Some(row)]
    {
      assert HasSet(sets, row.semid, |row.adj|);
      RowWrite(sets, undo, ui, row);
      BlankRow(sets, undo, log, si, ui, row);
      nUndo := nUndo + 1;
      undo := undo[ui := Some(row)];
    }

    /** What an attempt came to, written back: `found` is the process's row or -1,
        `slot` the place of a row that was made. */
    method WriteBack(si: nat, r: Try, val: seq<int>, adj0: seq<int>, adj: seq<int>, made: bool, found: int, slot: int,
                     ops: seq<SemBuf>, pid: int, world: World, ghost to: nat)
      requires SemValid() && WaitOk(sets, queues, wait, waitSeq) && si < |sets| && sets[si].Some?
      requires var s := sets[si].value;
               && -1 <= found < |undo|
               && (if found >= 0 then Holds(undo[found], pid, s.id) && undo[found].value.adj == adj0
                   else !HasRow(undo, pid, s.id) && adj0 == Zeros(|s.vals|))
               && adj0 == Debt(log, s.id, pid).adj && |adj0| == |s.vals| && AdjOk(adj0) && SetOk(s)
      requires made ==> found < 0 && 0 <= slot < |undo| && undo[slot].None?
      requires if r == Done then InSet(ops, |adj0|) && Reaches(sets[si].value.vals, adj0, ops, |ops|)
                                 && val == Shift(sets[si].value.vals, ops, |ops|) && adj == Owe(adj0, ops, |ops|)
                                 && (found < 0 && !made ==> UndoFree(ops, |ops|))
               else adj == adj0
      modifies `sets, `undo, `nUndo, `log
      ensures SemValid() && WaitOk(sets, queues, wait, waitSeq) && RowsKeep(old(undo), undo, pid, world(pid).start)
      ensures if r == Done then Committed(old(sets), old(log), sets, log, si, ops, pid, to)
              else sets == old(sets) && log == old(log)
    {
      var s := sets[si].value;
      var ui := if found >= 0 then found else if made then slot else -1;
      var row := if found >= 0 then undo[found].value.(adj := adj) else UndoRow(pid, world(pid).start, s.id, adj);
      if r == Done {
        PrefixInRange(s.vals, adj0, ops, |ops|);
        ReachMeans(s.vals, adj0, ops, |ops|);
        assert SlotIs(s, undo, log);
        Store(si, s.(vals := val, lpid := Stamp(s.lpid, ops, |ops|, pid)), ui, row, ops, to);
      } else if made {
        StoreBlank(si, ui, row);
      }
    }

    /** The attempt, on the semaphore tables alone. */
    method AttemptOn(si: nat, ops: seq<SemBuf>, pid: int, world: World, ghost to: nat) returns (r: Try)
      requires SemValid() && WaitOk(sets, queues, wait, waitSeq) && si < |sets| && sets[si].Some?
      modifies `sets, `undo, `nUndo, `log
      ensures SemValid() && WaitOk(sets, queues, wait, waitSeq)
      ensures Judged(old(sets)[si].value, old(log), pid, ops, r, scarce || Packed(old(undo)))
      ensures r == Refused(EFBIG) <==> !InSet(ops, |old(sets)[si].value.vals|)
      ensures r.Refused? ==> r.errno > 0
      ensures r != Done ==> sets == old(sets) && log == old(log)
      ensures r.Blocked? ==> SleepsNow(old(sets)[si].value, old(log), pid, ops, r.at)
      ensures r.Refused? && r.errno != EFBIG ==> RefusedNow(old(sets)[si].value, old(log), pid, ops, r.errno)
      ensures r == Refused(ENOMEM) ==> scarce || Packed(old(undo))
      ensures r == Done ==> Committed(old(sets), old(log), sets, log, si, ops, pid, to)
      ensures RowsKeep(old(undo), undo, pid, world(pid).start)
    {
      var s := sets[si].value;
      var found, slot := UndoFind(pid, s.id);
      var memory := Memory();
      var adj0 := if found >= 0 then undo[found].value.adj else Zeros(|s.vals|);
      AttemptFrom(sets, undo, log, si, found, pid);
      var val, adj, made;
      r, val, adj, made := Attempt(s.vals, adj0, found >= 0, slot >= 0 && memory, ops);
      assert Judged(s, log, pid, ops, r, scarce || Packed(undo));
      if r.Blocked? { SleepMeans(s.vals, adj0, ops, r.at); }
      WriteBack(si, r, val, adj0, adj, made, found, slot, ops, pid, world, to);
    }

    /** Attempt a vector against set `si` for `pid`. Either all of it is
        applied (values, sempids and the process's row) or nothing is: the
        only trace is a row of zeros, which nobody can tell from no row. */
    method TryOp(si: nat, ops: seq<SemBuf>, pid: int, world: World, ghost to: nat) returns (r: Try)
      requires Valid() && si < |sets| && sets[si].Some?
      modifies `sets, `undo, `nUndo, `log
      ensures Valid()
      ensures Judged(old(sets)[si].value, old(log), pid, ops, r, scarce || Packed(old(undo)))
      ensures r == Refused(EFBIG) <==> !InSet(ops, |old(sets)[si].value.vals|)
      ensures r.Refused? ==> r.errno > 0
      ensures r != Done ==> sets == old(sets) && log == old(log)
      ensures r.Blocked? ==> SleepsNow(old(sets)[si].value, old(log), pid, ops, r.at)
      ensures r.Refused? && r.errno != EFBIG ==> RefusedNow(old(sets)[si].value, old(log), pid, ops, r.errno)
      ensures r == Refused(ENOMEM) ==> scarce || Packed(old(undo))
      ensures r == Done ==> Committed(old(sets), old(log), sets, log, si, ops, pid, to)
      ensures RowsKeep(old(undo), undo, pid, world(pid).start)
    {
      r := AttemptOn(si, ops, pid, world, to);
    }

    /** The holder of a row has ended: the row is added to its set, and freed. */
    method UndoApply(ui: nat) returns (si: nat)
      requires SemValid() && WaitOk(sets, queues, wait, waitSeq) && ui < |undo| && undo[ui].Some?
      modifies `sets, `undo, `nUndo, `log
      ensures SemValid() && WaitOk(sets, queues, wait, waitSeq)
      ensures undo == old(undo)[ui := None] && log == old(log) + [DeathOf(old(undo)[ui].value)]
      ensures Applied(old(sets), old(undo)[ui].value, sets, si)
    {
      var u := undo[ui].value;
      assert HasSet(sets, u.semid, |u.adj|);
      var at := Search(sets, (x: SemSet) => x.id == u.semid);
      si := at;
      var s := sets[si].value;
      RowLength(sets, undo, si, ui);
      assert SetOk(s) && SlotIs(s, undo, log);
      var vals, lpid := ClampRow(s.vals, s.lpid, u.adj, u.pid);
      var s' := s.(vals := vals, lpid := lpid);
      DeathSlot(s, undo, log, ui);
      LogMove(sets, undo, undo[ui := None], log, DeathOf(u), si, s');
      RowDrop(sets, undo, ui);
      log := log + [DeathOf(u)];
      undo := undo[ui := None];
      nUndo := nUndo - 1;
      Revalue(sets, undo, queues, wait, waitSeq, si, s');
      sets := sets[si := Some(s')];
    }

    /** Apply the rows of every dead process, for set `si` only. A semaphore with
        room for all its rows keeps its ledger; with every holder dead the values
        are the ledger. */
    method ReclaimSet(si: nat, world: World)
      requires SemValid() && WaitOk(sets, queues, wait, waitSeq) && si < |sets| && sets[si].Some?
      modifies `sets, `undo, `nUndo, `log
      ensures SemValid() && WaitOk(sets, queues, wait, waitSeq)
      ensures DeadSettled(old(Sems()), Sems(), si, old(sets)[si].value.id, world)
      ensures LedgerKept(old(sets)[si].value, old(undo), old(log), log)
      ensures AllDead(old(undo), old(sets)[si].value.id, world) ==>
                sets[si].value.vals == FaceOf(log, sets[si].value.id).ledger
    {
      var i := 0;
      ghost var id := sets[si].value.id;
      RoomyStart(sets[si].value, undo, log);
      SettledStart(Sems(), si, id, world);
      while i < |undo|
        invariant 0 <= i <= |undo| == |old(undo)| && id == old(sets)[si].value.id
        invariant SemValid() && WaitOk(sets, queues, wait, waitSeq)
        invariant SettledTo(old(Sems()), Sems(), si, id, world, i)
        invariant StillRoomy(old(sets)[si].value, old(undo), old(log), sets[si].value, undo, log)
      {
        if undo[i].Some? && undo[i].value.semid == sets[si].value.id &&
           Dead(world, undo[i].value.pid, undo[i].value.start) {
          ReclaimRow(si, i, world, old(Sems()));
        } else {
          SettledSkip(old(Sems()), Sems(), si, id, world, i);
        }
        i := i + 1;
      }
      if AllDead(old(undo), id, world) {
        NoRowsNoDebt(sets[si].value, undo, log);
      }
    }

    method ReclaimRow(si: nat, i: nat, world: World, ghost first: Mid)
      requires SemValid() && WaitOk(sets, queues, wait, waitSeq) && si < |first.sets| && first.sets[si].Some?
      requires i < |undo| && DeadOn(undo[i], first.sets[si].value.id, world)
      requires SettledTo(first, Sems(), si, first.sets[si].value.id, world, i)
      requires StillRoomy(first.sets[si].value, first.undo, first.log, sets[si].value, undo, log)
      modifies `sets, `undo, `nUndo, `log
      ensures SemValid() && WaitOk(sets, queues, wait, waitSeq) && |undo| == |old(undo)|
      ensures SettledTo(first, Sems(), si, first.sets[si].value.id, world, i + 1)
      ensures StillRoomy(first.sets[si].value, first.undo, first.log, sets[si].value, undo, log)
    {
      var at := UndoApply(i);
      SettledMore(first, old(Sems()), Sems(), si, first.sets[si].value.id, world, i, at);
      RoomyMore(first.sets[si].value, first.undo, first.log, old(Sems()), Sems(), si, i);
    }

    // ---- parked waiters ----

    /** Free a waiter's slot; a message it still held goes with it. */
    method Vacate(wi: nat, ghost why: Why)
      requires MsgValid() && wi < |wait| && wait[wi].Some?
      modifies `wait, `nWait, `mail
      ensures MsgValid()
      ensures wait == old(wait)[wi := None] && nWait == old(nWait) - 1
      ensures mail == old(mail) + LeftOf(old(wait)[wi].value, why)
    {
      ReleaseKeeps(sets, queues, wait, waitSeq, wi);
      if wait[wi].value.job.SendJob? {
        ConserveLeft(mail, queues, wait, wi, why);
        MailAside(queues, mail, Left(wait[wi].value, why));
      } else {
        ConserveEmpty(mail, queues, wait, wi, None);
        assert mail + [] == mail;
      }
      mail := mail + LeftOf(wait[wi].value, why);
      wait := wait[wi := None];
      nWait := nWait - 1;
    }

    /** Send an answer to a waiter that has left. */
    method Tell(r: Reply)
      modifies `replies
      ensures replies == old(replies) + [r]
      ensures old(Once()) && Untold(wait, waitSeq, old(replies), r.to) ==> Once()
    {
      if Once() && Untold(wait, waitSeq, replies, r.to) { OnceTell(wait, waitSeq, replies, r); }
      replies := replies + [r];
    }

    /** Free a waiter, answering it or not. */
    method Release(wi: nat, ret: Option<int>, ghost why: Why)
      requires MsgValid() && wi < |wait| && wait[wi].Some?
      modifies `wait, `nWait, `replies, `mail
      ensures MsgValid()
      ensures wait == old(wait)[wi := None] && nWait == old(nWait) - 1
      ensures replies == old(replies) + if ret.Some? then [Reply(old(wait)[wi].value.seqno, ret.value, 0, [])] else []
      ensures mail == old(mail) + LeftOf(old(wait)[wi].value, why)
      ensures old(Once()) ==> Once() && (ret.None? ==> Untold(wait, waitSeq, replies, old(wait)[wi].value.seqno))
    {
      var to := wait[wi].value.seqno;
      if Once() { OnceVacate(sets, queues, wait, waitSeq, replies, wi); }
      Vacate(wi, why);
      if ret.Some? { Tell(Reply(to, ret.value, 0, [])); }
    }

    /** Seat a waiter in a free slot. */
    method Seat(wi: nat, w: Waiter)
      requires MsgValid() && wi < |wait| && wait[wi].None? && w.seqno == waitSeq && JobOk(sets, queues, w)
      modifies `wait, `nWait, `waitSeq, `mail
      ensures MsgValid()
      ensures wait == old(wait)[wi := Some(w)] && waitSeq == old(waitSeq) + 1
      ensures mail == old(mail) + KeptOf(w)
    {
      ParkKeeps(sets, queues, wait, waitSeq, wi, w);
      if w.job.SendJob? {
        ConserveKept(mail, queues, wait, wi, w);
        MailAside(queues, mail, Kept(w));
      } else {
        ConserveEmpty(mail, queues, wait, wi, Some(w));
        assert mail + [] == mail;
      }
      mail := mail + KeptOf(w);
      wait := wait[wi := Some(w)];
      waitSeq := waitSeq + 1;
      nWait := nWait + 1;
    }

    /** Park a blocking operation in a free slot, at the end of the arrival
        order. False when the table is full. */
    method Park(id: int, pid: int, deadline: int, job: Job, world: World) returns (parked: bool)
      requires MsgValid() && JobOk(sets, queues, Waiter(waitSeq, pid, world(pid).start, id, deadline, job))
      modifies `wait, `nWait, `waitSeq, `mail
      ensures MsgValid() && (old(Once()) ==> Once())
      ensures !parked ==> wait == old(wait) && waitSeq == old(waitSeq) && mail == old(mail) && Packed(wait)
      ensures parked ==> var w := Waiter(old(waitSeq), pid, world(pid).start, id, deadline, job);
                         && ParkedIn(old(wait), wait, w) && mail == old(mail) + KeptOf(w)
                         && waitSeq == old(waitSeq) + 1
    {
      var wi := FirstFree(wait);
      if wi < 0 {
        return false;
      }
      var w := Waiter(waitSeq, pid, world(pid).start, id, deadline, job);
      if Once() { OnceSeat(wait, waitSeq, replies, wi, w); }
      Seat(wi, w);
      return true;
    }

    /** Let everyone go whom a reason concerns, with its answer. */
    method Sweep(why: Why)
      requires MsgValid()
      modifies `wait, `nWait, `replies, `mail
      ensures MsgValid() && nWait <= old(nWait) && (old(Once()) ==> Once())
      ensures LeftUpTo(old(wait), wait, why, |wait|)
      ensures if Farewell(why).Some? then Woken(old(wait), wait, old(replies), replies) else replies == old(replies)
      ensures Swept(old(Now()), Now(), why)
      ensures old(Quiet()) ==> Quiet()
    {
      var i := 0;
      SweptNone(Now(), why);
      while i < |wait|
        invariant 0 <= i <= |wait| == |old(wait)| && MsgValid() && nWait <= old(nWait) && (old(Once()) ==> Once())
        invariant LeftUpTo(old(wait), wait, why, i)
        invariant if Farewell(why).Some? then Woken(old(wait), wait, old(replies), replies) else replies == old(replies)
        invariant Swept(old(Now()), Now(), why)
      {
        LeftMore(old(wait), wait, why, i);
        if Leaves(wait[i], why) { Dismiss(i, why, old(Now())); }
        i := i + 1;
      }
      FewerStuck(sets, log, queues, old(wait), wait);
    }

    method Dismiss(wi: nat, why: Why, ghost first: Books)
      requires MsgValid() && wi < |wait| && Leaves(wait[wi], why) && Distinct(first.wait)
      requires Swept(first, Now(), why)
      requires Farewell(why).Some? ==> Woken(first.wait, wait, first.replies, replies)
      modifies `wait, `nWait, `replies, `mail
      ensures MsgValid() && nWait <= old(nWait) && (old(Once()) ==> Once())
      ensures wait == old(wait)[wi := None] && Swept(first, Now(), why)
      ensures if Farewell(why).Some? then Woken(first.wait, wait, first.replies, replies) else replies == old(replies)
    {
      if Farewell(why).Some? {
        WokenOne(first.wait, wait, first.replies, replies, wi, Reply(wait[wi].value.seqno, Farewell(why).value, 0, []));
      }
      Release(wi, Farewell(why), why);
      SweptOne(first, old(Now()), Now(), wi, why);
    }

    /** Whatever waits on a removed object is told so. */
    method Eidrm(id: int, sem: bool)
      requires MsgValid()
      modifies `wait, `nWait, `replies, `mail
      ensures MsgValid() && (old(Once()) ==> Once())
      ensures if sem then NoSemWaiter(wait, id) else NoMsgWaiter(wait, id)
      ensures Woken(old(wait), wait, old(replies), replies) && Swept(old(Now()), Now(), Removed(id, sem))
      ensures RidOf(old(wait), wait, id, sem)
    {
      Sweep(Removed(id, sem));
    }

    /** Answer EAGAIN to every waiter whose deadline has passed. */
    method Expire(now: int)
      requires MsgValid()
      modifies `wait, `nWait, `replies, `mail
      ensures MsgValid() && (old(Once()) ==> Once()) && (old(Quiet()) ==> Quiet())
      ensures |wait| == |old(wait)| && forall k :: 0 <= k < |wait| ==>
                wait[k] == if old(wait)[k].Some? && 0 <= old(wait)[k].value.deadline <= now then None else old(wait)[k]
      ensures Timely(wait, now)
      ensures Woken(old(wait), wait, old(replies), replies) && Swept(old(Now()), Now(), Late(now))
    {
      Sweep(Late(now));
      assert forall k :: 0 <= k < |wait| ==> wait[k] == old(wait)[k] || wait[k].None?;
    }

    /** A parked connection reported: a cancel is answered EINTR, a dead or
        babbling peer just loses its slot. */
    method PollReady(seqno: nat, cancel: bool)
      requires MsgValid()
      modifies `wait, `nWait, `replies, `mail
      ensures MsgValid() && (old(Once()) ==> Once()) && (old(Quiet()) ==> Quiet())
      ensures |wait| == |old(wait)| && forall k :: 0 <= k < |wait| ==>
                wait[k] == if Numbered(old(wait)[k], seqno) then None else old(wait)[k]
      ensures replies == old(replies) +
                if cancel && (exists k :: 0 <= k < |old(wait)| && Numbered(old(wait)[k], seqno))
                then [Reply(seqno, -EINTR, 0, [])] else []
      ensures Swept(old(Now()), Now(), Reported(seqno, cancel))
    {
      var wi := Search(wait, (w: Waiter) => w.seqno == seqno);
      SweptNone(Now(), Reported(seqno, cancel));
      if wi >= 0 {
        assert Numbered(wait[wi], seqno);
        forall k | 0 <= k < |wait| && k != wi ensures !Numbered(wait[k], seqno) {
          assert ApartWaiters(wait[k], wait[wi]);
        }
        Release(wi, if cancel then Some(-EINTR) else None, Reported(seqno, cancel));
        SweptOne(old(Now()), old(Now()), Now(), wi, Reported(seqno, cancel));
        FewerStuck(sets, log, queues, old(wait), wait);
      }
    }

    // ---- retrying ----

    /** The earliest arrival after `last` still parked, or -1. */
    method Earliest(last: nat) returns (wi: int)
      requires MsgValid()
      ensures -1 <= wi < |wait|
      ensures wi >= 0 ==> wait[wi].Some? && wait[wi].value.seqno > last
      ensures wi >= 0 ==> forall k :: 0 <= k < |wait| && wait[k].Some? && wait[k].value.seqno > last ==>
                wait[wi].value.seqno <= wait[k].value.seqno
      ensures wi < 0 ==> AllBy(wait, last)
    {
      wi := -1;
      var i := 0;
      while i < |wait|
        invariant 0 <= i <= |wait| && -1 <= wi < i
        invariant wi >= 0 ==> wait[wi].Some? && wait[wi].value.seqno > last
        invariant wi >= 0 ==> forall k :: 0 <= k < i && wait[k].Some? && wait[k].value.seqno > last ==>
          wait[wi].value.seqno <= wait[k].value.seqno
        invariant wi < 0 ==> forall k :: 0 <= k < i && wait[k].Some? ==> wait[k].value.seqno <= last
      {
        if wait[i].Some? && wait[i].value.seqno > last && (wi < 0 || wait[i].value.seqno < wait[wi].value.seqno) {
          wi := i;
        }
        i := i + 1;
      }
    }

    /** Note which operation a parked semop sleeps on now. */
    method Renote(wi: nat, at: nat)
      requires MsgValid() && wi < |wait| && wait[wi].Some? && wait[wi].value.job.SemJob?
      requires at < |wait[wi].value.job.ops|
      modifies `wait
      ensures MsgValid() && (old(Once()) ==> Once())
      ensures wait == old(wait)[wi := Some(Renoted(old(wait)[wi].value, at))]
    {
      var w' := Renoted(wait[wi].value, at);
      Reblock(sets, queues, wait, waitSeq, wi, w');
      ConserveEmpty(mail, queues, wait, wi, Some(w'));
      wait := wait[wi := Some(w')];
    }

    /** The set a parked semop names: it is there. */
    method SetOf(wi: nat) returns (si: nat)
      requires Valid() && wi < |wait| && wait[wi].Some? && wait[wi].value.job.SemJob?
      ensures si < |sets| && Is(sets[si], wait[wi].value.id) && InSet(wait[wi].value.job.ops, |sets[si].value.vals|)
    {
      var w := wait[wi].value;
      assert JobOk(sets, queues, w);
      var at := Search(sets, (x: SemSet) => x.id == w.id);
      assert at >= 0;
      OneSet(sets, at, w.id);
      si := at;
    }

    /** Answer a retried semop, or leave it parked with its note renewed. */
    method Conclude(wi: nat, t: Try) returns (progress: bool)
      requires MsgValid() && wi < |wait| && wait[wi].Some? && wait[wi].value.job.SemJob?
      requires t.Blocked? ==> t.at < |wait[wi].value.job.ops|
      modifies `wait, `nWait, `replies, `mail
      ensures MsgValid() && progress == !t.Blocked? && (old(Once()) ==> Once()) && mail == old(mail)
      ensures progress ==> nWait == old(nWait) - 1 && Answered(old(Now()), Now(), wi, SemRet(t))
      ensures !progress ==> nWait == old(nWait) && replies == old(replies)
      ensures !progress ==> wait == old(wait)[wi := Some(Renoted(old(wait)[wi].value, t.at))]
    {
      if t.Blocked? {
        Renote(wi, t.at);
        return false;
      }
      Release(wi, Some(SemRet(t)), Late(0));
      return true;
    }

    /** Retry a parked semop. It stays parked exactly when it still sleeps; else
        it is answered: 0 with the whole vector applied, or an error with
        nothing. */
    method RetrySem(wi: nat, world: World) returns (progress: bool, ghost t: Try, ghost si: nat)
      requires Valid() && wi < |wait| && wait[wi].Some? && wait[wi].value.job.SemJob?
      modifies `sets, `undo, `nUndo, `log, `wait, `nWait, `replies, `mail
      ensures Valid() && (old(Once()) ==> Once()) && mail == old(mail)
      ensures si < |old(sets)| && Is(old(sets)[si], old(wait)[wi].value.id) && progress == !t.Blocked?
      ensures t == Done ==> var w := old(wait)[wi].value;
                            Committed(old(sets), old(log), sets, log, si, w.job.ops, w.pid, w.seqno)
      ensures t != Done ==> sets == old(sets) && log == old(log)
      ensures progress ==> nWait == old(nWait) - 1 && Answered(old(Now()), Now(), wi, SemRet(t))
      ensures var w := old(wait)[wi].value;
              Judged(old(sets)[si].value, old(log), w.pid, w.job.ops, t, scarce || Packed(old(undo)))
      ensures t.Refused? ==> var w := old(wait)[wi].value;
                             RefusedNow(old(sets)[si].value, old(log), w.pid, w.job.ops, t.errno)
      ensures t == Refused(ENOMEM) ==> scarce || Packed(old(undo))
      ensures t.Refused? ==> t.errno > 0
      ensures !progress ==> nWait == old(nWait) && replies == old(replies)
      ensures !progress ==> StillParked(old(wait), wait, wi) && Stuck(sets, log, queues, wait[wi].value)
      ensures RowsKeep(old(undo), undo, old(wait)[wi].value.pid, world(old(wait)[wi].value.pid).start)
    {
      var w := wait[wi].value;
      var at := SetOf(wi);
      si := at;
      var r := TryOp(at, w.job.ops, w.pid, world, w.seqno);
      t := r;
      if t.Blocked? {
        StuckAt(sets, log, queues, si, Renoted(w, t.at));
      }
      progress := Conclude(wi, r);
    }

    /** Put a message at the tail of queue `qi`. */
    method Enqueue(qi: nat, m: Msg, pid: int)
      requires MsgValid() && qi < |queues| && queues[qi].Some? && MsgOk(m)
      modifies `queues, `mail
      ensures MsgValid()
      ensures queues == old(queues)[qi := Some(Enqueued(old(queues)[qi].value, m, pid))]
      ensures mail == old(mail) + [Sent(old(queues)[qi].value.id, m)]
    {
      var q := queues[qi].value;
      var q' := Enqueued(q, m, pid);
      EnqueuedOk(q, m, pid);
      Requeue(sets, queues, wait, waitSeq, qi, q');
      ConserveQueue(mail, queues, wait, Sent(q.id, m), qi, Some(q'));
      MailIn(q, mail, Sent(q.id, m), m, pid);
      MailMove(queues, mail, Sent(q.id, m), qi, Some(q'));
      mail := mail + [Sent(q.id, m)];
      queues := queues[qi := Some(q')];
    }

    /** Move a parked sender's message to the tail of its queue. */
    method MoveParked(wi: nat, qi: nat)
      requires MsgValid() && wi < |wait| && wait[wi].Some? && wait[wi].value.job.SendJob?
      requires qi < |queues| && IsQ(queues[qi], wait[wi].value.id)
      modifies `queues, `wait, `nWait, `mail
      ensures MsgValid()
      ensures wait == old(wait)[wi := None] && nWait == old(nWait) - 1
      ensures mail == old(mail) + [Moved(old(wait)[wi].value)]
      ensures var w := old(wait)[wi].value;
              queues == old(queues)[qi := Some(Enqueued(old(queues)[qi].value, w.job.msg, w.pid))]
    {
      var w := wait[wi].value;
      var q := queues[qi].value;
      var q' := Enqueued(q, w.job.msg, w.pid);
      assert JobOk(sets, queues, w);
      EnqueuedOk(q, w.job.msg, w.pid);
      Requeue(sets, queues, wait, waitSeq, qi, q');
      ReleaseKeeps(sets, queues[qi := Some(q')], wait, waitSeq, wi);
      ConserveMoved(mail, queues, wait, qi, Some(q'), wi);
      MailIn(q, mail, Moved(w), w.job.msg, w.pid);
      MailMove(queues, mail, Moved(w), qi, Some(q'));
      mail := mail + [Moved(w)];
      queues := queues[qi := Some(q')];
      wait := wait[wi := None];
      nWait := nWait - 1;
    }

    /** Put a parked sender's message at the tail of its queue and answer it. */
    method EnqueueParked(wi: nat, qi: nat)
      requires MsgValid() && wi < |wait| && wait[wi].Some? && wait[wi].value.job.SendJob?
      requires qi < |queues| && IsQ(queues[qi], wait[wi].value.id)
      modifies `queues, `wait, `nWait, `replies, `mail
      ensures MsgValid() && nWait == old(nWait) - 1 && (old(Once()) ==> Once())
      ensures Answered(old(Now()), Now(), wi, 0) && mail == old(mail) + [Moved(old(wait)[wi].value)]
      ensures var w := old(wait)[wi].value;
              queues == old(queues)[qi := Some(Enqueued(old(queues)[qi].value, w.job.msg, w.pid))]
    {
      var to := wait[wi].value.seqno;
      if Once() { OnceVacate(sets, queues, wait, waitSeq, replies, wi); }
      MoveParked(wi, qi);
      Tell(Reply(to, 0, 0, []));
    }

    /** Take the message a receive is due off queue `qi`. */
    method Take(qi: nat, k: nat, want: Want, pid: int, ghost to: nat) returns (m: Msg)
      requires MsgValid() && qi < |queues| && queues[qi].Some? && IsPick(queues[qi].value.msgs, want, k)
      modifies `queues, `mail
      ensures MsgValid() && m == old(queues)[qi].value.msgs[k]
      ensures mail == old(mail) + [Got(old(queues)[qi].value.id, want, to)]
      ensures queues == old(queues)[qi := Some(Taken(old(queues)[qi].value, k, pid))]
    {
      var q := queues[qi].value;
      m := q.msgs[k];
      var q' := Taken(q, k, pid);
      TakenOk(q, k, pid);
      Requeue(sets, queues, wait, waitSeq, qi, q');
      MailOut(q, mail, want, to, k, pid);
      MailMove(queues, mail, Got(q.id, want, to), qi, Some(q'));
      ConserveQueue(mail, queues, wait, Got(q.id, want, to), qi, Some(q'));
      mail := mail + [Got(q.id, want, to)];
      queues := queues[qi := Some(q')];
    }

    /** Retry a parked send on its queue. */
    method RetrySend(wi: nat, qi: nat) returns (progress: bool)
      requires MsgValid() && wi < |wait| && wait[wi].Some? && wait[wi].value.job.SendJob?
      requires qi < |queues| && IsQ(queues[qi], wait[wi].value.id)
      modifies `queues, `wait, `nWait, `replies, `mail
      ensures MsgValid() && (old(Once()) ==> Once())
      ensures progress == Fits(old(queues)[qi].value, |old(wait)[wi].value.job.msg.data|)
      ensures progress ==> nWait == old(nWait) - 1 && SendDone(old(Now()), Now(), wi)
      ensures progress ==> var w := old(wait)[wi].value; SentTo(old(queues), queues, w.id, w.job.msg, w.pid)
      ensures !progress ==> queues == old(queues) && Now() == old(Now()) && nWait == old(nWait)
    {
      var q, size := queues[qi].value, |wait[wi].value.job.msg.data|;
      if !Fits(q, size) { return false; }
      assert QueueOk(q) && QueueIs(q, mail);
      RoomIs(q, mail, size);
      EnqueueParked(wi, qi);
      return true;
    }

    /** Retry a parked receive on its queue. */
    method RetryRecv(wi: nat, qi: nat) returns (progress: bool)
      requires MsgValid() && wi < |wait| && wait[wi].Some? && wait[wi].value.job.RecvJob?
      requires qi < |queues| && IsQ(queues[qi], wait[wi].value.id)
      modifies `queues, `wait, `nWait, `replies, `mail
      ensures MsgValid() && (old(Once()) ==> Once())
      ensures progress == !NoSuchType(old(queues)[qi].value.msgs, old(wait)[wi].value.job.want)
      ensures progress ==> nWait == old(nWait) - 1 && RecvDone(old(Now()), Now(), wi)
      ensures progress ==> RecvWoken(old(wait)[wi].value, replies[|old(replies)|], old(queues), queues)
      ensures !progress ==> queues == old(queues) && Now() == old(Now()) && nWait == old(nWait)
    {
      var w, q := wait[wi].value, queues[qi].value;
      var k := Pick(q.msgs, w.job.want);
      if k < 0 { return false; }
      assert IsPick(q.msgs, w.job.want, k) && QueueIs(q, mail);
      if |q.msgs[k].data| > w.job.msgsz && !w.job.noerror {
        Release(wi, Some(-E2BIG), Late(0));
        TooLongIntro(queues, w, qi, k);
        return true;
      }
      var m := Take(qi, k, w.job.want, w.pid, w.seqno);
      GrantRecv(wi, m);
      RecvWokenIntro(w, replies[|old(replies)|], old(queues), queues, qi, k);
      PickUnique(q.msgs, w.job.want, k);
      return true;
    }

    /** Answer a parked receive with the message taken for it, truncated to
        its buffer. */
    method GrantRecv(wi: nat, m: Msg)
      requires MsgValid() && wi < |wait| && wait[wi].Some? && wait[wi].value.job.RecvJob?
      modifies `wait, `nWait, `replies, `mail
      ensures MsgValid() && (old(Once()) ==> Once()) && mail == old(mail)
      ensures wait == old(wait)[wi := None] && nWait == old(nWait) - 1
      ensures var n := Granted(m, old(wait)[wi].value.job.msgsz);
              replies == old(replies) + [Reply(old(wait)[wi].value.seqno, n, m.mtype, m.data[..n])]
    {
      var w := wait[wi].value;
      var n := Granted(m, w.job.msgsz);
      Release(wi, None, Late(0));
      Tell(Reply(w.seqno, n, m.mtype, m.data[..n]));
    }

    /** Retry a parked send or receive: it stays exactly when it cannot proceed. */
    method RetryMsg(wi: nat) returns (progress: bool)
      requires MsgValid() && wi < |wait| && wait[wi].Some? && !wait[wi].value.job.SemJob?
      modifies `queues, `wait, `nWait, `replies, `mail
      ensures MsgValid() && (old(Once()) ==> Once())
      ensures progress ==> nWait == old(nWait) - 1 && MsgDone(old(Now()), Now(), wi)
      ensures progress ==> MsgWoken(old(wait)[wi].value, replies[|old(replies)|], old(queues), queues)
      ensures !progress ==> queues == old(queues) && Now() == old(Now()) && nWait == old(nWait)
      ensures !progress ==> Stuck(sets, log, queues, wait[wi].value)
    {
      var w := wait[wi].value;
      assert JobOk(sets, queues, w);
      var qi := Search(queues, (x: Queue) => x.id == w.id);
      assert qi >= 0;
      OneQueue(queues, qi, w.id);
      if w.job.SendJob? {
        progress := RetrySend(wi, qi);
      } else {
        progress := RetryRecv(wi, qi);
      }
    }

    /** Retry one waiter. If it stays parked, so does everyone visited. */
    method Retry(wi: nat, world: World, ghost seen: nat, ghost first: Books) returns (progress: bool)
      requires Valid() && wi < |wait| && wait[wi].Some? && Distinct(first.wait)
      requires Woken(first.wait, wait, first.replies, replies) && Turned(first, Now())
      modifies `sets, `undo, `nUndo, `log, `queues, `wait, `nWait, `replies, `mail
      ensures Valid() && (old(Once()) ==> Once())
      ensures progress ==> nWait == old(nWait) - 1
      ensures !progress ==> nWait == old(nWait)
      ensures Woken(first.wait, wait, first.replies, replies) && Turned(first, Now())
      ensures !progress && NextUp(old(wait), wi, seen) &&
              StuckUpTo(old(sets), old(log), old(queues), old(wait), seen) ==>
              StuckUpTo(sets, log, queues, wait, old(wait)[wi].value.seqno)
      ensures old(Living(world)) ==> Living(world)
      ensures TurnAt(old(Seen()), Seen(), wi)
    {
      if wait[wi].value.job.SemJob? {
        progress := TurnSem(wi, world);
      } else {
        progress := TurnMsg(wi, world);
      }
      TurnedJoin(first, old(Now()), Now());
      if progress {
        WokenOne(first.wait, old(wait), first.replies, old(replies), wi, replies[|old(replies)|]);
      } else {
        WokenNone(first.wait, old(wait), first.replies, old(replies), wi, wait[wi].value);
        VisitedStuck(sets, log, queues, old(wait), wait, wi, seen);
      }
    }

    method TurnSem(wi: nat, world: World) returns (progress: bool)
      requires Valid() && wi < |wait| && wait[wi].Some? && wait[wi].value.job.SemJob?
      modifies `sets, `undo, `nUndo, `log, `wait, `nWait, `replies, `mail
      ensures Valid() && (old(Once()) ==> Once()) && Turned(old(Now()), Now())
      ensures progress ==> nWait == old(nWait) - 1 && WentOn(old(Now()), Now(), wi)
      ensures !progress ==> nWait == old(nWait) && Stayed(old(Now()), Now(), wi) && sets == old(sets)
      ensures !progress ==> Stuck(sets, log, queues, wait[wi].value)
      ensures old(Living(world)) ==> Living(world)
    {
      ghost var t, si;
      progress, t, si := RetrySem(wi, world);
      if old(Living(world)) { StillLive(old(undo), undo, old(wait), wait, wi, world); }
      if t.Refused? {
        ghost var s, w := old(sets)[si].value, old(wait)[wi].value;
        assert SlotIs(s, old(undo), old(log));
        RefusedLogged(s, old(undo), old(log), w.pid, w.job.ops, t.errno);
      }
      if progress {
        TurnedSem(old(Now()), Now(), wi, SemRet(t));
      } else {
        TurnedNote(old(Now()), Now(), wi);
      }
    }

    method TurnMsg(wi: nat, ghost world: World) returns (progress: bool)
      requires Valid() && wi < |wait| && wait[wi].Some? && !wait[wi].value.job.SemJob?
      modifies `queues, `wait, `nWait, `replies, `mail
      ensures Valid() && (old(Once()) ==> Once()) && Turned(old(Now()), Now())
      ensures progress ==> nWait == old(nWait) - 1 && WentOn(old(Now()), Now(), wi)
      ensures !progress ==> nWait == old(nWait) && Stayed(old(Now()), Now(), wi) && queues == old(queues)
      ensures !progress ==> Stuck(sets, log, queues, wait[wi].value)
      ensures old(Living(world)) ==> Living(world)
    {
      progress := RetryMsg(wi);
      if old(Living(world)) { StillLive(undo, undo, old(wait), wait, wi, world); }
      if progress { TurnedMsg(old(Now()), Now(), wi); } else { TurnedNone(Now()); }
    }

    /** A pass that began at `v` has come to `last`, and `wi` is next, if anybody. */
    ghost predicate OnTurn(first: Books, v: View, trail: seq<View>, order: seq<nat>, last: nat, wi: int)
      reads `sets, `queues, `wait, `waitSeq, `replies, `log, `mail
    {
      match Seen()
      case x =>
        && Woken(first.wait, x.books.wait, first.replies, x.books.replies) && Turned(first, x.books)
        && OnPass(v, x, trail, order, last)
        && (if wi < 0 then AllBy(x.books.wait, last) else NextUp(x.books.wait, wi, last))
    }

    /** The next waiter's turn in a pass that began at `v`. */
    method Visit(wi: nat, world: World, ghost seen: nat, ghost first: Books, ghost v: View, ghost trail: seq<View>,
                 ghost order: seq<nat>) returns (progress: bool, next: int, ghost trail': seq<View>)
      requires Valid() && wi < |wait| && wait[wi].Some? && Distinct(first.wait)
      requires OnTurn(first, v, trail, order, seen, wi)
      modifies `sets, `undo, `nUndo, `log, `queues, `wait, `nWait, `replies, `mail
      ensures Valid() && (old(Once()) ==> Once()) && (old(Living(world)) ==> Living(world)) && -1 <= next < |wait|
      ensures nWait == if progress then old(nWait) - 1 else old(nWait)
      ensures !progress && StuckUpTo(old(sets), old(log), old(queues), old(wait), seen) ==>
              StuckUpTo(sets, log, queues, wait, old(wait)[wi].value.seqno)
      ensures var n := old(wait)[wi].value.seqno;
              OnTurn(first, v, trail', order + [n], n, next) && seen < n < waitSeq
    {
      var n := wait[wi].value.seqno;
      progress := Retry(wi, world, seen, first);
      OnPassMore(v, old(Seen()), Seen(), trail, order, seen, wi);
      trail' := trail + [Seen()];
      next := Earliest(n);
    }

    /** The waiters' turns, earliest arrival first. */
    method Turns(wi0: int, world: World, ghost first: Books, ghost v: View)
      returns (progress: bool, ghost trail: seq<View>, ghost order: seq<nat>, ghost last: nat)
      requires Valid() && Distinct(first.wait) && -1 <= wi0 < |wait| && OnTurn(first, v, [v], [], 0, wi0)
      modifies `sets, `undo, `nUndo, `log, `queues, `wait, `nWait, `replies, `mail
      ensures Valid() && (old(Once()) ==> Once()) && (old(Living(world)) ==> Living(world))
      ensures if progress then nWait < old(nWait)
              else nWait == old(nWait) && StuckUpTo(sets, log, queues, wait, last)
      ensures OnTurn(first, v, trail, order, last, -1)
    {
      progress := false;
      var wi := wi0;
      trail, order, last := [v], [], 0;
      while wi >= 0
        invariant Valid() && -1 <= wi < |wait| && (old(Once()) ==> Once()) && (old(Living(world)) ==> Living(world))
        invariant if progress then nWait < old(nWait)
                  else nWait == old(nWait) && StuckUpTo(sets, log, queues, wait, last)
        invariant OnTurn(first, v, trail, order, last, wi) && last < waitSeq
        decreases waitSeq - last
      {
        ghost var seen, n := last, wait[wi].value.seqno;
        var p;
        p, wi, trail := Visit(wi, world, seen, first, v, trail, order);
        order, last := order + [n], n;
        progress := progress || p;
      }
    }

    /** One pass over the waiters, earliest arrival first. */
    method Pass(world: World, ghost first: Books) returns (progress: bool)
      requires Valid() && Distinct(first.wait) && Woken(first.wait, wait, first.replies, replies)
      requires Turned(first, Now())
      modifies `sets, `undo, `nUndo, `log, `queues, `wait, `nWait, `replies, `mail
      ensures Valid() && (old(Once()) ==> Once()) && (old(Living(world)) ==> Living(world))
      ensures progress ==> nWait < old(nWait)
      ensures !progress ==> Quiet() && nWait == old(nWait)
      ensures Woken(first.wait, wait, first.replies, replies) && Turned(first, Now())
      ensures Passed(old(Seen()), Seen())
    {
      OnPassStart(Seen());
      var wi := Earliest(0);
      ghost var trail, order, last;
      progress, trail, order, last := Turns(wi, world, first, Seen());
      PassEnds(old(Seen()), Seen(), trail, order, last);
    }

    /** Retry every parked operation, in arrival order, until a pass makes no
        progress. On return none of them could proceed. */
    method Rescan(world: World) returns (ghost views: seq<View>)
      requires Valid()
      modifies `sets, `undo, `nUndo, `log, `queues, `wait, `nWait, `replies, `mail
      ensures Valid() && Quiet() && (old(Once()) ==> Once()) && (old(Living(world)) ==> Living(world))
      ensures Woken(old(wait), wait, old(replies), replies) && Turned(old(Now()), Now())
      ensures Passes(views) && views[0] == old(Seen()) && views[|views| - 1] == Seen()
    {
      var progress := true;
      views := [Seen()];
      TurnedNone(Now());
      while progress && nWait > 0
        invariant Valid() && (old(Once()) ==> Once()) && (old(Living(world)) ==> Living(world))
        invariant Woken(old(wait), wait, old(replies), replies) && Turned(old(Now()), Now())
        invariant !progress ==> Quiet()
        invariant Passes(views) && views[0] == old(Seen()) && views[|views| - 1] == Seen()
        decreases nWait, progress
      {
        progress := Pass(world, old(Now()));
        PassesMore(views, Seen());
        views := views + [Seen()];
      }
      if nWait <= 0 {
        CountIsNonNegative(wait);
        NoneUsed(wait);
      }
    }

    // ---- semctl's stores, and sets coming and going ----

    /** Setting a value forgets what anyone owed on it: semnum < 0 forgets the
        whole set. */
    method UndoClear(semid: int, semnum: int)
      modifies `undo
      ensures AllCleared(old(undo), undo, semid, semnum)
    {
      var i := 0;
      while i < |undo|
        invariant 0 <= i <= |undo| == |old(undo)|
        invariant forall k :: 0 <= k < |undo| ==>
          undo[k] == if k < i then Cleared(old(undo)[k], semid, semnum) else old(undo)[k]
      {
        if undo[i].Some? && undo[i].value.semid == semid {
          undo := undo[i := Cleared(undo[i], semid, semnum)];
        }
        i := i + 1;
      }
    }

    /** Store values into set `si` for semctl: `semnum` alone, or all of them. */
    method SetValues(si: nat, s': SemSet, semnum: int, pid: int)
      requires SemValid() && WaitOk(sets, queues, wait, waitSeq)
      requires si < |sets| && Is(sets[si], s'.id) && SetOk(s') && semnum < |s'.vals| == |sets[si].value.vals|
      requires s'.key == sets[si].value.key && |sets[si].value.lpid| == |s'.vals|
      requires var s := sets[si].value;
               if semnum < 0 then s'.lpid == Same(|s.vals|, pid)
               else s'.vals == s.vals[semnum := s'.vals[semnum]] && s'.lpid == s.lpid[semnum := pid]
      modifies `sets, `undo, `log
      ensures SemValid() && WaitOk(sets, queues, wait, waitSeq)
      ensures sets == old(sets)[si := Some(s')]
      ensures AllCleared(old(undo), undo, s'.id, semnum) && log == old(log) + [Stored(s', semnum, pid)]
    {
      UndoClear(s'.id, semnum);
      ClearKeeps(sets, old(undo), undo, s'.id, semnum);
      RowsFitSet(sets, old(undo), si);
      StoreSlot(sets[si].value, old(undo), undo, log, s', semnum, pid);
      LogMove(sets, old(undo), undo, log, Stored(s', semnum, pid), si, s');
      Revalue(sets, undo, queues, wait, waitSeq, si, s');
      log := log + [Stored(s', semnum, pid)];
      sets := sets[si := Some(s')];
    }

    /** Drop the rows of a set that is going. */
    method DropRows(semid: int)
      requires UndoOk(sets, undo) && nUndo == Count(undo)
      modifies `undo, `nUndo
      ensures UndoOk(sets, undo) && nUndo == Count(undo) && RowsGone(old(undo), undo, semid)
    {
      var i := 0;
      while i < |undo|
        invariant 0 <= i <= |undo| == |old(undo)|
        invariant UndoOk(sets, undo) && nUndo == Count(undo)
        invariant forall k :: 0 <= k < |undo| ==>
          undo[k] == if k < i && OnSet(old(undo)[k], semid) then None else old(undo)[k]
      {
        if undo[i].Some? && undo[i].value.semid == semid {
          RowDrop(sets, undo, i);
          undo := undo[i := None];
          nUndo := nUndo - 1;
        }
        i := i + 1;
      }
    }

    /** Free a set: its rows die with it. */
    method FreeSet(si: nat)
      requires SemValid() && WaitOk(sets, queues, wait, waitSeq)
      requires si < |sets| && sets[si].Some? && NoSemWaiter(wait, sets[si].value.id)
      modifies `sets, `undo, `nUndo, `log
      ensures SemValid() && WaitOk(sets, queues, wait, waitSeq)
      ensures sets == old(sets)[si := None] && RowsGone(old(undo), undo, old(sets)[si].value.id)
      ensures log == old(log) + [Gone(old(sets)[si].value.id)]
    {
      var id := sets[si].value.id;
      DropRows(id);
      GoneOk(sets, old(undo), undo, log, si);
      RemoveSet(sets, undo, queues, wait, waitSeq, si);
      sets := sets[si := None];
      log := log + [Gone(id)];
    }

    /** A new set under a fresh id: out of slots or memory are the only ways to
        fail, an id there always is. */
    method SemCreate(key: int, nsems: nat, p: Perm) returns (ret: int)
      requires Valid() && 0 < nsems <= SEMMSL && KeyFree(sets, key)
      modifies `sets, `log, `nextSemId
      ensures Valid()
      ensures ret > 0 || (ret in {-ENOSPC, -ENOMEM} && sets == old(sets) && log == old(log))
      ensures ret == -ENOMEM ==> scarce
      ensures ret == -ENOSPC ==> Packed(sets)
      ensures ret > 0 ==> NewSet(old(sets), sets, ret, key, nsems, p) && log == old(log) + [Made(ret, nsems)]
    {
      var slot := FirstFree(sets);
      if slot < 0 { return -ENOSPC; }
      var id, next := AllocId(sets, (x: SemSet) => x.id, 0, nextSemId, INT_MAX, SEM_SET_MAX * 4);
      nextSemId := next;
      var memory := Memory();
      if !memory { return -ENOMEM; }
      MakeSet(slot, SemSet(id, key, p, Zeros(nsems), Zeros(nsems)));
      return id;
    }

    method MakeSet(slot: nat, s: SemSet)
      requires Valid() && slot < |sets| && sets[slot].None? && SetOk(s) && s.vals == s.lpid == Zeros(|s.vals|)
      requires forall i :: 0 <= i < |sets| && sets[i].Some? ==> sets[i].value.id != s.id
      requires KeyFree(sets, s.key)
      modifies `sets, `log
      ensures Valid() && NewSet(old(sets), sets, s.id, s.key, |s.vals|, s.perm)
      ensures log == old(log) + [Made(s.id, |s.vals|)]
    {
      KeysDiffer(sets, s.key);
      CreateSet(sets, undo, queues, wait, waitSeq, slot, s);
      MadeOk(sets, undo, log, slot, s);
      sets := sets[slot := Some(s)];
      log := log + [Made(s.id, |s.vals|)];
    }

    // ---- the semaphore requests ----

    /** semget: the set a key names, or a new one, every value zero. */
    method SemGet(key: int, nsems: nat, creat: bool, excl: bool, mode: nat, c: Caller) returns (ret: int)
      requires Valid()
      modifies `sets, `log, `nextSemId
      ensures Valid() && (ret <= 0 ==> sets == old(sets) && log == old(log))
      ensures SemGetApt(old(sets), key, nsems, creat, excl, c, scarce, ret)
      ensures !KeyFree(old(sets), key) ==> sets == old(sets) && log == old(log)
      ensures KeyFree(old(sets), key) && ret > 0 ==>
                NewSet(old(sets), sets, ret, key, nsems, NewPerm(mode, c)) && log == old(log) + [Made(ret, nsems)]
    {
      if key != 0 {
        var k := Search(sets, (x: SemSet) => x.key == key);
        if k >= 0 {
          OneKey(sets, k, key);
          var s := sets[k].value;
          if creat && excl { return -EEXIST; }
          if nsems != 0 && |s.vals| < nsems { return -EINVAL; }
          if !Access(s.perm, c.uid, c.gid, 4) { return -EACCES; }
          return s.id;
        }
        if !creat { return -ENOENT; }
      }
      if nsems == 0 || nsems > SEMMSL { return -EINVAL; }
      ret := SemCreate(key, nsems, NewPerm(mode, c));
    }

    method FindSem(id: int) returns (si: int)
      ensures -1 <= si < |sets|
      ensures si >= 0 ==> id > 0 && Is(sets[si], id)
      ensures si < 0 ==> !Known(sets, id)
    {
      if id <= 0 { return -1; }
      si := Search(sets, (x: SemSet) => x.id == id);
    }

    /** Settle the dead on the set a request names. */
    method SettleDead(si: nat, id: int, world: World)
      requires Valid() && si < |sets| && Is(sets[si], id)
      modifies `sets, `undo, `nUndo, `log
      ensures Valid() && Is(sets[si], id) && DeadSettled(old(Sems()), Sems(), si, id, world)
    {
      ReclaimSet(si, world);
    }

    /** Park a vector that has just been found to sleep. */
    method ParkSem(si: nat, id: int, ops: seq<SemBuf>, at: nat, deadline: int, c: Caller, world: World)
      returns (r: Served)
      requires Valid() && si < |sets| && Is(sets[si], id)
      requires SleepsNow(sets[si].value, log, c.pid, ops, at)
      modifies `wait, `nWait, `waitSeq, `mail
      ensures Valid() && (old(Once()) ==> Once()) && mail == old(mail)
      ensures r == Parked || (r == Answer(-EAGAIN) && wait == old(wait) && waitSeq == old(waitSeq) && Packed(wait))
      ensures r.Parked? ==> ParkedAsleep(old(wait), old(waitSeq), Now(), sets, queues, id, ops, deadline, c, world)
    {
      var w := Waiter(waitSeq, c.pid, world(c.pid).start, id, deadline, SemJob(ops, at));
      SemJobOk(sets, queues, si, w);
      var parked := Park(id, c.pid, deadline, w.job, world);
      if !parked {
        return Answer(-EAGAIN);
      }
      StuckAt(sets, log, queues, si, w);
      AsleepIntro(old(Now()), Now(), sets, queues, w, c, world);
      return Parked;
    }

    /** What may be said of a vector before it is tried: its numbers are the set's,
        and the caller may alter, or only read, the values. */
    method SemOpAllowed(si: nat, ops: seq<SemBuf>, c: Caller) returns (err: int)
      requires si < |sets| && sets[si].Some?
      ensures err == if !InSet(ops, |sets[si].value.vals|) then -EFBIG
                     else if !MayOp(sets[si].value, ops, c) then -EACCES else 0
    {
      var s := sets[si].value;
      if exists i :: 0 <= i < |ops| && ops[i].num >= |s.vals| { return -EFBIG; }
      var alter := exists i :: 0 <= i < |ops| && ops[i].op != 0;
      err := if Access(s.perm, c.uid, c.gid, if alter then 2 else 4) then 0 else -EACCES;
    }

    /** Answer an attempt, or park it. */
    method AnswerTry(si: nat, id: int, ops: seq<SemBuf>, t: Try, deadline: int, c: Caller, world: World)
      returns (r: Served)
      requires Valid() && si < |sets| && Is(sets[si], id) && (t.Refused? ==> t.errno > 0)
      requires t.Blocked? ==> SleepsNow(sets[si].value, log, c.pid, ops, t.at)
      modifies `wait, `nWait, `waitSeq, `mail
      ensures Valid() && (old(Once()) ==> Once()) && mail == old(mail)
      ensures AnsweredSo(t, r, Packed(old(wait))) && (r == Answer(0) <==> t == Done)
      ensures !r.Parked? ==> wait == old(wait) && waitSeq == old(waitSeq)
      ensures r.Parked? ==> ParkedAsleep(old(wait), old(waitSeq), Now(), sets, queues, id, ops, deadline, c, world)
    {
      if t.Blocked? {
        r := ParkSem(si, id, ops, t.at, deadline, c, world);
      } else {
        r := Answer(SemRet(t));
      }
    }

    /** The attempt of a semop: applied whole, parked on the operation it cannot
        proceed past, or refused with nothing done. */
    method SemOpTry(si: nat, id: int, ops: seq<SemBuf>, deadline: int, c: Caller, world: World) returns (r: Served)
      requires Valid() && si < |sets| && Is(sets[si], id)
      requires InSet(ops, |sets[si].value.vals|) && MayOp(sets[si].value, ops, c)
      modifies `sets, `undo, `nUndo, `log, `wait, `nWait, `waitSeq, `mail
      ensures Valid() && (old(Once()) ==> Once()) && mail == old(mail)
      ensures SemAnswer(old(sets)[si].value, old(log), ops, c, r, Packed(old(wait)), scarce || Packed(old(undo)))
      ensures r == Answer(0) ==> Committed(old(sets), old(log), sets, log, si, ops, c.pid, 0)
      ensures r != Answer(0) ==> sets == old(sets) && log == old(log)
      ensures !r.Parked? ==> wait == old(wait) && waitSeq == old(waitSeq)
      ensures r.Parked? ==> ParkedAsleep(old(wait), old(waitSeq), Now(), sets, queues, id, ops, deadline, c, world)
    {
      var t := TryOp(si, ops, c.pid, world, 0);
      r := AnswerTry(si, id, ops, t, deadline, c, world);
      SemAnswerIntro(old(sets)[si].value, old(log), ops, c, t, r, Packed(old(wait)), scarce || Packed(old(undo)));
    }

    /** semop, once the dead have been settled on set `si`. */
    method SemOpOn(si: nat, id: int, ops: seq<SemBuf>, deadline: int, c: Caller, world: World) returns (r: Served)
      requires Valid() && si < |sets| && Is(sets[si], id)
      modifies `sets, `undo, `nUndo, `log, `wait, `nWait, `waitSeq, `mail
      ensures Valid() && (old(Once()) ==> Once()) && mail == old(mail)
      ensures SemAnswer(old(sets)[si].value, old(log), ops, c, r, Packed(old(wait)), scarce || Packed(old(undo)))
      ensures r == Answer(0) ==> Committed(old(sets), old(log), sets, log, si, ops, c.pid, 0)
      ensures r != Answer(0) ==> sets == old(sets) && log == old(log)
      ensures !r.Parked? ==> wait == old(wait) && waitSeq == old(waitSeq)
      ensures r.Parked? ==> ParkedAsleep(old(wait), old(waitSeq), Now(), sets, queues, id, ops, deadline, c, world)
    {
      var err := SemOpAllowed(si, ops, c);
      if err != 0 {
        SemAnswerNot(sets[si].value, log, ops, c, Packed(wait), scarce || Packed(undo));
        return Answer(err);
      }
      r := SemOpTry(si, id, ops, deadline, c, world);
    }

    /** The vector's length and the set it names. */
    method SemOpSet(id: int, ops: seq<SemBuf>) returns (err: int, si: int)
      ensures err == 0 ==> 0 <= si < |sets| && Is(sets[si], id) && 0 < |ops| <= SEMOPM
      ensures if |ops| == 0 then err == -EINVAL
              else if |ops| > SEMOPM then err == -E2BIG
              else err == (if Known(sets, id) then 0 else -EINVAL) || (err == -ENOMEM && scarce)
    {
      si := 0;
      if |ops| == 0 { return -EINVAL, 0; }
      if |ops| > SEMOPM { return -E2BIG, 0; }
      var memory := Memory();
      if !memory { return -ENOMEM, 0; }
      si := FindSem(id);
      err := if si < 0 then -EINVAL else 0;
    }

    /** semop. `mid` is the state once the rows of the dead were applied to the
        set, which is what the vector is judged against. */
    method SemOp(id: int, ops: seq<SemBuf>, deadline: int, c: Caller, world: World)
      returns (r: Served, ghost si: nat, ghost mid: Mid)
      requires Valid()
      modifies `sets, `undo, `nUndo, `log, `wait, `nWait, `waitSeq, `mail
      ensures Valid() && (old(Once()) ==> Once()) && mail == old(mail)
      ensures if |ops| == 0 then r == Answer(-EINVAL)
              else if |ops| > SEMOPM then r == Answer(-E2BIG)
              else if scarce && r == Answer(-ENOMEM) then true
              else if !Known(old(sets), id) then r == Answer(-EINVAL)
              else && DeadSettled(old(Sems()), mid, si, id, world)
                   && SemAnswer(mid.sets[si].value, mid.log, ops, c, r, Packed(old(wait)), scarce || Packed(mid.undo))
      ensures SemOpApt(old(Met()), id, ops, c, world, r)
      ensures SemOpDid(old(Now()), Now(), old(Sems()), mid, si, sets, queues, id, ops, deadline, c, world, r)
      ensures mid == old(Sems()) || DeadSettled(old(Sems()), mid, si, id, world)
      ensures r == Answer(0) ==> Committed(mid.sets, mid.log, sets, log, si, ops, c.pid, 0) && Is(mid.sets[si], id)
      ensures r != Answer(0) ==> sets == mid.sets && log == mid.log
      ensures !r.Parked? ==> wait == old(wait) && waitSeq == old(waitSeq)
      ensures r.Parked? ==> ParkedAsleep(old(wait), old(waitSeq), Now(), sets, queues, id, ops, deadline, c, world)
    {
      var err, at := SemOpSet(id, ops);
      if err != 0 {
        SemOpNothing(Now(), Sems(), sets, queues, id, ops, deadline, c, world, err);
        return Answer(err), 0, Sems();
      }
      si := at;
      r, mid := SemOpFound(at, id, ops, deadline, c, world);
    }

    method SemOpFound(si: nat, id: int, ops: seq<SemBuf>, deadline: int, c: Caller, world: World)
      returns (r: Served, ghost mid: Mid)
      requires Valid() && si < |sets| && Is(sets[si], id)
      modifies `sets, `undo, `nUndo, `log, `wait, `nWait, `waitSeq, `mail
      ensures Valid() && (old(Once()) ==> Once()) && mail == old(mail)
      ensures DeadSettled(old(Sems()), mid, si, id, world) && Is(mid.sets[si], id)
      ensures SemAnswer(mid.sets[si].value, mid.log, ops, c, r, Packed(old(wait)), scarce || Packed(mid.undo))
      ensures r == Answer(0) ==> Committed(mid.sets, mid.log, sets, log, si, ops, c.pid, 0)
      ensures r != Answer(0) ==> sets == mid.sets && log == mid.log
      ensures !r.Parked? ==> wait == old(wait) && waitSeq == old(waitSeq)
      ensures SemOpDid(old(Now()), Now(), old(Sems()), mid, si, sets, queues, id, ops, deadline, c, world, r)
      ensures r.Parked? ==> ParkedAsleep(old(wait), old(waitSeq), Now(), sets, queues, id, ops, deadline, c, world)
    {
      SettleDead(si, id, world);
      mid := Sems();
      r := SemOpOn(si, id, ops, deadline, c, world);
    }

    /** semctl SETVAL. The range is judged before anything else. The value is
        stored and every debt on it forgotten. */
    method SetVal(id: int, semnum: int, val: int, c: Caller, world: World)
      returns (ret: int, ghost si: nat, ghost mid: Mid)
      requires Valid()
      modifies `sets, `undo, `nUndo, `log
      ensures Valid()
      ensures if !(0 <= val <= SEMVMX) then ret == -ERANGE && mid == old(Sems())
              else if !Known(old(sets), id) then ret == -EINVAL && mid == old(Sems())
              else && DeadSettled(old(Sems()), mid, si, id, world)
                   && ret == if semnum < 0 || semnum >= |mid.sets[si].value.vals| then -EINVAL
                             else if !Access(mid.sets[si].value.perm, c.uid, c.gid, 2) then -EACCES else 0
      ensures SetValApt(old(Met()), id, semnum, val, c, world, ret)
      ensures ret != 0 ==> Sems() == mid
      ensures ret == 0 ==>
                DeadSettled(old(Sems()), mid, si, id, world) && OneStored(mid, Sems(), si, id, semnum, val, c.pid)
    {
      mid, si := Sems(), 0;
      if !(0 <= val <= SEMVMX) { return -ERANGE, si, mid; }
      var at := FindSem(id);
      if at < 0 { return -EINVAL, si, mid; }
      SettleDead(at, id, world);
      mid, si := Sems(), at;
      ret := StoreOne(at, id, semnum, val, c);
    }

    method StoreOne(si: nat, id: int, semnum: int, val: int, c: Caller) returns (ret: int)
      requires Valid() && si < |sets| && Is(sets[si], id) && 0 <= val <= SEMVMX
      modifies `sets, `undo, `log
      ensures Valid()
      ensures ret == if semnum < 0 || semnum >= |old(sets)[si].value.vals| then -EINVAL
                     else if !Access(old(sets)[si].value.perm, c.uid, c.gid, 2) then -EACCES else 0
      ensures ret != 0 ==> Sems() == old(Sems())
      ensures ret == 0 ==> OneStored(old(Sems()), Sems(), si, id, semnum, val, c.pid)
    {
      var s := sets[si].value;
      if semnum < 0 || semnum >= |s.vals| { return -EINVAL; }
      if !Access(s.perm, c.uid, c.gid, 2) { return -EACCES; }
      assert SetOk(s);
      SetValues(si, s.(vals := s.vals[semnum := val], lpid := s.lpid[semnum := c.pid]), semnum, c.pid);
      return 0;
    }

    /** semctl SETALL: the whole array is validated before any of it lands. */
    method SetAll(id: int, vals: seq<int>, c: Caller) returns (r: Served)
      requires Valid() && forall n :: 0 <= n < |vals| ==> 0 <= vals[n] < 0x1_0000
      modifies `sets, `undo, `log
      ensures Valid()
      ensures r != Answer(0) ==> Sems() == old(Sems())
      ensures r == Answer(0) ==> AllStored(old(Sems()), Sems(), id, vals, c.pid)
      ensures SetAllApt(old(sets), id, vals, c, scarce, r)
    {
      if |vals| == 0 || |vals| > SEMMSL { return Dropped; }
      var memory := Memory();
      if !memory { return Dropped; }
      var si := FindSem(id);
      if si < 0 { return Answer(-EINVAL); }
      r := SetAllAnswer(sets[si].value, vals, c);
      if r == Answer(0) { StoreAll(si, id, vals, c.pid); }
    }

    method StoreAll(si: nat, id: int, vals: seq<int>, pid: int)
      requires Valid() && si < |sets| && Is(sets[si], id) && |vals| == |sets[si].value.vals| && ValsOk(vals)
      modifies `sets, `undo, `log
      ensures Valid() && AllStored(old(Sems()), Sems(), id, vals, pid)
    {
      var s := sets[si].value;
      assert SetOk(s);
      SetValues(si, s.(vals := vals, lpid := Same(|vals|, pid)), -1, pid);
    }

    /** semctl IPC_RMID: sleepers are woken with EIDRM, rows die with the set. */
    method SemRemove(id: int, c: Caller, world: World) returns (ret: int, ghost si: nat, ghost mid: Mid)
      requires Valid()
      modifies `sets, `undo, `nUndo, `log, `wait, `nWait, `replies, `mail
      ensures Valid() && (old(Once()) ==> Once()) && Woken(old(wait), wait, old(replies), replies)
      ensures if !Known(old(sets), id) then ret == -EINVAL && mid == old(Sems())
              else && DeadSettled(old(Sems()), mid, si, id, world)
                   && ret == if Owner(mid.sets[si].value.perm, c.uid) then 0 else -EPERM
      ensures ret != 0 ==> Sems() == mid && wait == old(wait) && replies == old(replies) && mail == old(mail)
      ensures ret == 0 ==> DeadSettled(old(Sems()), mid, si, id, world) && sets == mid.sets[si := None]
      ensures ret == 0 ==> RowsGone(mid.undo, undo, id) && log == mid.log + [Gone(id)]
      ensures ret == 0 ==> RidOf(old(wait), wait, id, true)
      ensures ret == 0 ==> Swept(old(Now()).(log := mid.log), Now().(log := mid.log), Removed(id, true))
    {
      mid, si := Sems(), 0;
      var at := FindSem(id);
      if at < 0 { return -EINVAL, si, mid; }
      SettleDead(at, id, world);
      mid, si := Sems(), at;
      if !Owner(sets[at].value.perm, c.uid) { return -EPERM, si, mid; }
      Destroy(at, id);
      ret := 0;
    }

    method Destroy(si: nat, id: int)
      requires Valid() && si < |sets| && Is(sets[si], id)
      modifies `sets, `undo, `nUndo, `log, `wait, `nWait, `replies, `mail
      ensures Valid() && (old(Once()) ==> Once()) && Woken(old(wait), wait, old(replies), replies)
      ensures sets == old(sets)[si := None] && RowsGone(old(undo), undo, id) && log == old(log) + [Gone(id)]
      ensures RidOf(old(wait), wait, id, true)
      ensures Swept(old(Now()), Now().(log := old(log)), Removed(id, true))
    {
      Eidrm(id, true);
      ghost var was := Now();
      FreeSet(si);
      assert Now().(log := old(log)) == was;
    }

    /** semctl GETVAL, GETPID, GETNCNT and GETZCNT, after the dead have been
        settled. */
    method SemQuery(id: int, cmd: Query, semnum: int, c: Caller, world: World) returns (ret: int, ghost si: nat)
      requires Valid()
      modifies `sets, `undo, `nUndo, `log
      ensures Valid()
      ensures if !Known(old(sets), id) then ret == -EINVAL && Sems() == old(Sems())
              else && DeadSettled(old(Sems()), Sems(), si, id, world)
                   && ret == if !Access(sets[si].value.perm, c.uid, c.gid, 4) then -EACCES
                             else if semnum < 0 || semnum >= |sets[si].value.vals| then -EINVAL
                             else QueryAnswer(sets[si].value, wait, cmd, semnum)
    {
      si := 0;
      var at := FindSem(id);
      if at < 0 { return -EINVAL, si; }
      SettleDead(at, id, world);
      si := at;
      ret := AnswerQuery(at, id, cmd, semnum, c);
    }

    method AnswerQuery(si: nat, id: int, cmd: Query, semnum: int, c: Caller) returns (ret: int)
      requires Valid() && si < |sets| && Is(sets[si], id)
      ensures ret == if !Access(sets[si].value.perm, c.uid, c.gid, 4) then -EACCES
                     else if semnum < 0 || semnum >= |sets[si].value.vals| then -EINVAL
                     else QueryAnswer(sets[si].value, wait, cmd, semnum)
    {
      var s := sets[si].value;
      assert SetOk(s);
      if !Access(s.perm, c.uid, c.gid, 4) { return -EACCES; }
      if semnum < 0 || semnum >= |s.vals| { return -EINVAL; }
      match cmd
      case GetVal => return s.vals[semnum];
      case GetPid => return s.lpid[semnum];
      case GetNcnt => ret := CountWaiters(id, semnum, false);
      case GetZcnt => ret := CountWaiters(id, semnum, true);
    }

    /** Parked semops sleeping on `semnum` for units, or for zero, judged by the
        operation each slept on at its last attempt. */
    method CountWaiters(semid: int, semnum: int, zero: bool) returns (n: nat)
      requires MsgValid()
      ensures n == Sum(wait, SleeperTerm(semid, semnum, zero))
    {
      n := 0;
      var i := 0;
      while i < |wait|
        invariant 0 <= i <= |wait|
        invariant n == SumTo(wait, SleeperTerm(semid, semnum, zero), i)
      {
        if wait[i].Some? && wait[i].value.job.SemJob? && wait[i].value.id == semid {
          assert JobOk(sets, queues, wait[i].value);
          var b := wait[i].value.job.ops[wait[i].value.job.blk];
          if b.num == semnum && (if zero then b.op == 0 else b.op < 0) {
            n := n + 1;
          }
        }
        i := i + 1;
      }
    }

    method Reperm(si: nat, p: Perm)
      requires Valid() && si < |sets| && sets[si].Some?
      modifies `sets
      ensures Valid() && sets == old(sets)[si := Some(old(sets)[si].value.(perm := p))]
    {
      var s' := sets[si].value.(perm := p);
      assert SetOk(sets[si].value);
      Revalue(sets, undo, queues, wait, waitSeq, si, s');
      SameVals(sets, undo, log, si, s');
      sets := sets[si := Some(s')];
    }

    /** semctl IPC_SET: owner and mode; values, rows and waiters untouched. */
    method SemChange(id: int, mode: nat, uid: nat, gid: nat, c: Caller, world: World)
      returns (ret: int, ghost si: nat, ghost mid: Mid)
      requires Valid()
      modifies `sets, `undo, `nUndo, `log
      ensures Valid() && undo == mid.undo && log == mid.log
      ensures if !Known(old(sets), id) then ret == -EINVAL && mid == old(Sems())
              else && DeadSettled(old(Sems()), mid, si, id, world)
                   && ret == if Owner(mid.sets[si].value.perm, c.uid) then 0 else -EPERM
      ensures ret != 0 ==> sets == mid.sets
      ensures ret == 0 ==>
                DeadSettled(old(Sems()), mid, si, id, world) && Reowned(mid.sets, sets, si, mode, uid, gid)
    {
      mid, si := Sems(), 0;
      var at := FindSem(id);
      if at < 0 { return -EINVAL, si, mid; }
      SettleDead(at, id, world);
      mid, si := Sems(), at;
      if !Owner(sets[at].value.perm, c.uid) { return -EPERM, si, mid; }
      Reperm(at, Regranted(sets[at].value.perm, mode, uid, gid));
      ret := 0;
    }

    // ---- the message requests ----

    method FindMsq(id: int) returns (qi: int)
      ensures -1 <= qi < |queues|
      ensures qi >= 0 ==> id > 0 && IsQ(queues[qi], id)
      ensures qi < 0 ==> id <= 0 || forall i :: 0 <= i < |queues| ==> !IsQ(queues[i], id)
    {
      if id <= 0 { return -1; }
      qi := Search(queues, (x: Queue) => x.id == id);
    }

    /** msgget: the queue a key names, or a new empty one. */
    method MsgGet(key: int, creat: bool, excl: bool, mode: nat, c: Caller) returns (ret: int)
      requires MsgValid()
      modifies `queues, `nextMsqId, `mail
      ensures MsgValid() && (ret <= 0 ==> queues == old(queues) && mail == old(mail))
      ensures MsgGetApt(old(queues), key, creat, excl, c, ret)
      ensures !KeyFreeQ(old(queues), key) ==> queues == old(queues) && mail == old(mail)
      ensures KeyFreeQ(old(queues), key) && ret > 0 ==>
                && (key == 0 || creat) && NewQueue(old(queues), queues, ret, key, NewPerm(mode, c))
                && mail == old(mail) + [Opened(ret)]
    {
      if key != 0 {
        var k := Search(queues, (x: Queue) => x.key == key);
        if k >= 0 {
          OneKeyQ(queues, k, key);
          if creat && excl { return -EEXIST; }
          if !Access(queues[k].value.perm, c.uid, c.gid, 4) { return -EACCES; }
          return queues[k].value.id;
        }
        if !creat { return -ENOENT; }
      }
      ret := MsgCreate(key, NewPerm(mode, c));
    }

    method MsgCreate(key: int, p: Perm) returns (ret: int)
      requires MsgValid() && KeyFreeQ(queues, key)
      modifies `queues, `nextMsqId, `mail
      ensures MsgValid()
      ensures ret > 0 ==> NewQueue(old(queues), queues, ret, key, p) && mail == old(mail) + [Opened(ret)]
      ensures ret <= 0 ==> ret == -ENOSPC && queues == old(queues) && mail == old(mail) && Packed(queues)
    {
      var slot := FirstFree(queues);
      if slot < 0 { return -ENOSPC; }
      var id, next := AllocId(queues, (x: Queue) => x.id, 0, nextMsqId, INT_MAX, MSG_QUEUE_MAX * 4);
      nextMsqId := next;
      MakeQueue(slot, Queue(id, key, p, [], 0, 0, MSGMNB, 0, 0));
      return id;
    }

    method MakeQueue(slot: nat, q: Queue)
      requires MsgValid() && slot < |queues| && queues[slot].None? && QueueOk(q) && q.msgs == [] && q.qbytes == MSGMNB
      requires forall i :: 0 <= i < |queues| && queues[i].Some? ==> queues[i].value.id != q.id
      requires KeyFreeQ(queues, q.key)
      modifies `queues, `mail
      ensures MsgValid()
      ensures queues == old(queues)[slot := Some(q)] && mail == old(mail) + [Opened(q.id)]
    {
      KeysDifferQ(queues, q.key);
      CreateQueue(sets, queues, wait, waitSeq, slot, q);
      ConserveQueue(mail, queues, wait, Opened(q.id), slot, Some(q));
      MailOpen(queues, mail, slot, q);
      queues := queues[slot := Some(q)];
      mail := mail + [Opened(q.id)];
    }

    /** msgsnd: enqueued if it fits, parked if it may wait. */
    method MsgSnd(id: int, m: Msg, nowait: bool, deadline: int, c: Caller, world: World) returns (r: Served)
      requires MsgValid()
      modifies `queues, `wait, `nWait, `waitSeq, `mail
      ensures MsgValid() && (old(Once()) ==> Once())
      ensures SendApt(old(Met()), id, m, nowait, c, r)
      ensures r == Answer(0) ==> SentTo(old(queues), queues, id, m, c.pid) && mail == old(mail) + [Sent(id, m)]
      ensures r == Answer(0) ==> RoomFor(old(mail), id, |m.data|)
      ensures r != Answer(0) ==> queues == old(queues)
      ensures !r.Parked? ==> wait == old(wait) && waitSeq == old(waitSeq)
      ensures r.Parked? ==>
                var w := Newcomer(old(waitSeq), c, world, id, deadline, SendJob(m));
                ParkedIn(old(wait), wait, w) && waitSeq == old(waitSeq) + 1 && mail == old(mail) + [Kept(w)]
      ensures r != Answer(0) && !r.Parked? ==> mail == old(mail)
    {
      if |m.data| > MSGMAX || m.mtype <= 0 { return Dropped; }
      var memory := Memory();
      if !memory { return Dropped; }
      var qi := FindMsq(id);
      if qi < 0 { NoSuchQueue(queues, id); return Answer(-EINVAL); }
      OneQueue(queues, qi, id);
      if !Access(queues[qi].value.perm, c.uid, c.gid, 2) { return Answer(-EACCES); }
      if Fits(queues[qi].value, |m.data|) {
        assert QueueOk(queues[qi].value) && QueueIs(queues[qi].value, mail);
        RoomIs(queues[qi].value, mail, |m.data|);
        Enqueue(qi, m, c.pid);
        return Answer(0);
      }
      if nowait { return Answer(-EAGAIN); }
      assert HasQueue(queues, id);
      var parked := Park(id, c.pid, deadline, SendJob(m), world);
      return if parked then Parked else Answer(-EAGAIN);
    }

    /** msgrcv: the message POSIX names, truncated only where asked, or a wait. */
    method MsgRcv(id: int, want: Want, msgsz: nat, noerror: bool, nowait: bool, deadline: int, c: Caller, world: World)
      returns (r: Served)
      requires MsgValid()
      modifies `queues, `wait, `nWait, `waitSeq, `mail
      ensures MsgValid() && (old(Once()) ==> Once())
      ensures r.Grant? ==> TakenFrom(old(queues), queues, id, want, r, msgsz, noerror, c.pid)
      ensures r.Grant? ==> GrantLogged(old(mail), mail, id, want, r, msgsz, noerror)
      ensures !r.Grant? ==> queues == old(queues) && mail == old(mail)
      ensures r.Parked? ==> waitSeq == old(waitSeq) + 1
      ensures r.Parked? ==>
                ParkedIn(old(wait), wait, Newcomer(old(waitSeq), c, world, id, deadline, RecvJob(want, msgsz, noerror)))
      ensures !r.Parked? ==> wait == old(wait) && waitSeq == old(waitSeq)
      ensures RecvApt(old(Met()), id, want, msgsz, noerror, nowait, c, r)
    {
      var qi := FindMsq(id);
      if qi < 0 { NoSuchQueue(queues, id); return Answer(-EINVAL); }
      OneQueue(queues, qi, id);
      if !Access(queues[qi].value.perm, c.uid, c.gid, 4) { return Answer(-EACCES); }
      var k := Pick(queues[qi].value.msgs, want);
      if k >= 0 {
        r := RcvPicked(qi, k, id, want, msgsz, noerror, c.pid);
      } else {
        r := RcvWait(qi, id, want, msgsz, noerror, nowait, deadline, c, world);
      }
    }

    /** A receive that finds its message: taken, or refused as too long. */
    method RcvPicked(qi: nat, k: nat, id: int, want: Want, msgsz: nat, noerror: bool, pid: int) returns (r: Served)
      requires MsgValid() && qi < |queues| && IsQ(queues[qi], id) && IsPick(queues[qi].value.msgs, want, k)
      modifies `queues, `mail
      ensures MsgValid()
      ensures r.Grant? ==> TakenFrom(old(queues), queues, id, want, r, msgsz, noerror, pid)
      ensures r.Grant? ==> GrantLogged(old(mail), mail, id, want, r, msgsz, noerror)
      ensures !r.Grant? ==> r == Answer(-E2BIG) && queues == old(queues) && mail == old(mail)
      ensures r.Grant? <==> |old(queues)[qi].value.msgs[k].data| <= msgsz || noerror
      ensures r.Grant? ==> GrantOf(r, old(queues)[qi].value.msgs[k], msgsz, noerror)
    {
      if |queues[qi].value.msgs[k].data| > msgsz && !noerror { return Answer(-E2BIG); }
      assert QueueIs(queues[qi].value, mail);
      PickUnique(queues[qi].value.msgs, want, k);
      var m := Take(qi, k, want, pid, 0);
      var n := Granted(m, msgsz);
      r := Grant(n, m.mtype, m.data[..n]);
      TakenIntro(old(queues), queues, id, want, r, msgsz, noerror, pid, qi, k);
    }

    /** A receive with nothing to take: parked, or told so. */
    method RcvWait(qi: nat, id: int, want: Want, msgsz: nat, noerror: bool, nowait: bool, deadline: int, c: Caller,
                   world: World) returns (r: Served)
      requires MsgValid() && qi < |queues| && IsQ(queues[qi], id)
      modifies `wait, `nWait, `waitSeq, `mail
      ensures MsgValid() && mail == old(mail) && (old(Once()) ==> Once())
      ensures r == if nowait || Packed(old(wait)) then Answer(-ENOMSG) else Parked
      ensures !r.Parked? ==> wait == old(wait) && waitSeq == old(waitSeq)
      ensures r.Parked? ==> waitSeq == old(waitSeq) + 1
      ensures r.Parked? ==>
                ParkedIn(old(wait), wait, Newcomer(old(waitSeq), c, world, id, deadline, RecvJob(want, msgsz, noerror)))
    {
      if nowait { return Answer(-ENOMSG); }
      assert HasQueue(queues, id);
      var parked := Park(id, c.pid, deadline, RecvJob(want, msgsz, noerror), world);
      return if parked then Parked else Answer(-ENOMSG);
    }

    /** msgctl IPC_SET. The capacity may go below what is queued. */
    method MsgSet(id: int, mode: nat, uid: nat, gid: nat, qbytes: nat, c: Caller) returns (ret: int)
      requires MsgValid()
      modifies `queues, `mail
      ensures MsgValid() && (ret != 0 ==> queues == old(queues) && mail == old(mail))
      ensures ret == 0 ==> mail == old(mail) + [Sized(id, qbytes)]
      ensures ChangeApt(old(queues), id, qbytes, c, ret)
      ensures forall qi :: 0 <= qi < |old(queues)| && IsQ(old(queues)[qi], id) && ret == 0 ==>
                queues == old(queues)[qi := Some(Refitted(old(queues)[qi].value, mode, uid, gid, qbytes))]
    {
      var qi := FindMsq(id);
      if qi < 0 { NoSuchQueue(queues, id); return -EINVAL; }
      OneQueue(queues, qi, id);
      var q := queues[qi].value;
      if !Owner(q.perm, c.uid) { return -EPERM; }
      if qbytes > MSGMNB && c.uid != 0 { return -EPERM; }
      Refit(qi, Refitted(q, mode, uid, gid, qbytes));
      return 0;
    }

    method Refit(qi: nat, q': Queue)
      requires MsgValid() && qi < |queues| && queues[qi].Some?
      requires q' == queues[qi].value.(perm := q'.perm, qbytes := q'.qbytes)
      modifies `queues, `mail
      ensures MsgValid() && queues == old(queues)[qi := Some(q')] && mail == old(mail) + [Sized(q'.id, q'.qbytes)]
    {
      assert QueueOk(queues[qi].value) && QueueIs(queues[qi].value, mail);
      Requeue(sets, queues, wait, waitSeq, qi, q');
      ConserveQueue(mail, queues, wait, Sized(q'.id, q'.qbytes), qi, Some(q'));
      MailSized(queues[qi].value, mail, q');
      MailMove(queues, mail, Sized(q'.id, q'.qbytes), qi, Some(q'));
      mail := mail + [Sized(q'.id, q'.qbytes)];
      queues := queues[qi := Some(q')];
    }

    /** msgctl IPC_RMID: sleepers are woken with EIDRM, messages go. */
    method MsgRemove(id: int, c: Caller) returns (ret: int)
      requires MsgValid()
      modifies `queues, `wait, `nWait, `replies, `mail
      ensures MsgValid() && (old(Once()) ==> Once()) && Woken(old(wait), wait, old(replies), replies)
      ensures ret != 0 ==> queues == old(queues) && Now() == old(Now())
      ensures OwnQApt(old(queues), id, c, ret)
      ensures forall qi :: 0 <= qi < |old(queues)| && IsQ(old(queues)[qi], id) && ret == 0 ==>
                queues == old(queues)[qi := None]
      ensures ret == 0 ==> RidOf(old(wait), wait, id, false) && mail != [] && mail[|mail| - 1] == Freed(id)
      ensures ret == 0 ==> Swept(old(Now()), Now().(mail := mail[..|mail| - 1]), Removed(id, false))
    {
      var qi := FindMsq(id);
      if qi < 0 { NoSuchQueue(queues, id); return -EINVAL; }
      OneQueue(queues, qi, id);
      if !Owner(queues[qi].value.perm, c.uid) { return -EPERM; }
      Dissolve(qi, id);
      return 0;
    }

    method Dissolve(qi: nat, id: int)
      requires MsgValid() && qi < |queues| && IsQ(queues[qi], id)
      modifies `queues, `wait, `nWait, `replies, `mail
      ensures MsgValid() && (old(Once()) ==> Once()) && Woken(old(wait), wait, old(replies), replies)
      ensures queues == old(queues)[qi := None] && RidOf(old(wait), wait, id, false)
      ensures mail != [] && mail[|mail| - 1] == Freed(id)
      ensures Swept(old(Now()), Now().(mail := mail[..|mail| - 1]), Removed(id, false))
    {
      Eidrm(id, false);
      ghost var was := Now();
      FreeQueue(qi);
      assert mail[..|mail| - 1] == was.mail;
    }

    method FreeQueue(qi: nat)
      requires MsgValid() && qi < |queues| && queues[qi].Some? && NoMsgWaiter(wait, queues[qi].value.id)
      modifies `queues, `mail
      ensures MsgValid() && queues == old(queues)[qi := None] && mail == old(mail) + [Freed(old(queues)[qi].value.id)]
    {
      var id := queues[qi].value.id;
      RemoveQueue(sets, queues, wait, waitSeq, qi);
      assert QueueIs(queues[qi].value, mail);
      ConserveQueue(mail, queues, wait, Freed(id), qi, None);
      MailMove(queues, mail, Freed(id), qi, None);
      queues := queues[qi := None];
      mail := mail + [Freed(id)];
    }

    // ---- the dead ----

    method DropDeadWaiters(world: World)
      requires MsgValid()
      modifies `wait, `nWait, `mail, `replies
      ensures MsgValid() && (old(Once()) ==> Once()) && (old(Quiet()) ==> Quiet()) && replies == old(replies)
      ensures LeftUpTo(old(wait), wait, Ended(world), |wait|) && Swept(old(Now()), Now(), Ended(world))
    {
      Sweep(Ended(world));
    }

    /** Apply the rows of every dead process, whatever set they are on. */
    method ApplyDeadRows(world: World) returns (applied: bool)
      requires Valid()
      modifies `sets, `undo, `nUndo, `log
      ensures Valid() && AllSettledTo(old(Sems()), Sems(), world, |undo|)
      ensures !applied ==> Sems() == old(Sems())
      ensures Restored(old(Sems()), Sems(), world)
    {
      applied := false;
      var i := 0;
      AllSettledStart(Sems(), world);
      AllRoomyStart(Sems());
      while i < |undo|
        invariant 0 <= i <= |undo| == |old(undo)|
        invariant SemValid() && WaitOk(sets, queues, wait, waitSeq)
        invariant !applied ==> Sems() == old(Sems())
        invariant AllSettledTo(old(Sems()), Sems(), world, i) && AllRoomy(old(Sems()), Sems())
      {
        if undo[i].Some? && Dead(world, undo[i].value.pid, undo[i].value.start) {
          ApplyDead(i, world, old(Sems()));
          applied := true;
        } else {
          AllSettledSkip(old(Sems()), Sems(), world, i);
        }
        i := i + 1;
      }
      RestoredEnd(old(Sems()), Sems(), world);
    }

    method ApplyDead(i: nat, world: World, ghost first: Mid)
      requires SemValid() && WaitOk(sets, queues, wait, waitSeq) && i < |undo| && DeadRow(undo[i], world)
      requires AllSettledTo(first, Sems(), world, i) && AllRoomy(first, Sems())
      modifies `sets, `undo, `nUndo, `log
      ensures SemValid() && WaitOk(sets, queues, wait, waitSeq) && |undo| == |old(undo)|
      ensures AllSettledTo(first, Sems(), world, i + 1) && AllRoomy(first, Sems())
    {
      var at := UndoApply(i);
      SameShapes(first, old(Sems()), world, i);
      AllSettledMore(first, old(Sems()), Sems(), world, i, at);
      AllRoomyMore(first, old(Sems()), Sems(), i, at);
    }

    /** Drop the waiters of dead processes and apply their undo rows. */
    method Bury(world: World) returns (applied: bool)
      requires Valid()
      modifies `sets, `undo, `nUndo, `log, `wait, `nWait, `replies, `mail
      ensures Valid() && (old(Once()) ==> Once()) && (old(Quiet()) && !applied ==> Quiet())
      ensures AllSettledTo(old(Sems()), Sems(), world, |undo|) && Restored(old(Sems()), Sems(), world)
      ensures SeenTo(old(Now()), Now(), world) && Living(world)
    {
      DropDeadWaiters(world);
      ghost var b := Now();
      applied := ApplyDeadRows(world);
      BuriedLive(old(Sems()), Sems(), old(wait), wait, world);
      BuryFair(old(Now()), b, Now(), old(Sems()), Sems(), world);
    }

    /** See to the dead; if any row was applied, somebody may be able to go on.
        `mid` is the state when every row has been seen to. */
    method Reclaim(world: World) returns (ghost mid: Mid)
      requires Valid()
      modifies `sets, `undo, `nUndo, `log, `queues, `wait, `nWait, `replies, `mail
      ensures Valid() && (old(Once()) ==> Once()) && (old(Quiet()) ==> Quiet())
      ensures AllSettledTo(old(Sems()), mid, world, |old(undo)|) && Restored(old(Sems()), mid, world)
      ensures SeenTo(old(Now()), Now(), world) && Living(world)
    {
      var applied := Bury(world);
      mid := Sems();
      ghost var b := Now();
      if applied {
        ghost var views := Rescan(world);
        SeenTurned(old(Now()), b, Now(), world);
      }
    }

    // ---- the daemon's round ----

    method ServeSemOp(e: Event) returns (r: Served)
      requires Valid() && e.polled && e.request.Some? && e.request.value.SemOpReq?
      modifies `sets, `undo, `nUndo, `log, `wait, `nWait, `waitSeq, `mail
      ensures Valid() && (old(Once()) ==> Once()) && Just(old(Now()), Now(), e, Some(r))
      ensures Apt(old(Met()), e, r)
    {
      var q := e.request.value;
      ghost var si, mid;
      r, si, mid := SemOp(q.id, q.ops, q.deadline, e.caller, e.world);
      SemOpFair(old(Now()), Now(), old(Sems()), mid, si, sets, queues, e, r);
    }

    method ServeSetAll(e: Event) returns (r: Served)
      requires Valid() && e.polled && e.request.Some? && e.request.value.SetAllReq?
      modifies `sets, `undo, `nUndo, `log
      ensures Valid() && Just(old(Now()), Now(), e, Some(r))
      ensures Apt(old(Met()), e, r)
    {
      var q := e.request.value;
      r := SetAll(q.id, Ints(q.vals), e.caller);
      if r == Answer(0) {
        OneMoveFair(old(Now()), Now(), SetMany(q.id, Ints(q.vals), e.caller.pid), e, r);
      } else {
        NothingFair(Now(), e, r);
      }
    }

    method ServeSetVal(e: Event) returns (r: Served)
      requires Valid() && e.polled && e.request.Some? && e.request.value.SetValReq?
      modifies `sets, `undo, `nUndo, `log
      ensures Valid() && Just(old(Now()), Now(), e, Some(r))
      ensures Apt(old(Met()), e, r)
    {
      var q := e.request.value;
      var ret;
      ghost var si, mid;
      ret, si, mid := SetVal(q.id, q.semnum, q.val, e.caller, e.world);
      r := Answer(ret);
      if ret == 0 {
        ghost var m := SetOne(q.id, q.semnum, q.val, e.caller.pid);
        assert AskedFor(m, e, r);
        SettledMoveFair(old(Now()), Now(), old(Sems()), mid, si, q.id, m, e, r);
      } else {
        AskedFair(old(Now()), Now(), old(Sems()), mid, si, q.id, e, r);
      }
    }

    method ServeSemGet(e: Event) returns (r: Served)
      requires Valid() && e.polled && e.request.Some? && e.request.value.SemGetReq?
      modifies `sets, `log, `nextSemId
      ensures Valid() && Just(old(Now()), Now(), e, Some(r))
      ensures Apt(old(Met()), e, r)
    {
      var q := e.request.value;
      var ret := SemGet(q.key, q.nsems, q.creat, q.excl, q.mode, e.caller);
      r := Answer(ret);
      if log != old(log) {
        assert KeyFree(sets, q.key) || !KeyFree(sets, q.key);
        OneMoveFair(old(Now()), Now(), Made(ret, q.nsems), e, r);
      } else {
        NothingFair(Now(), e, r);
      }
    }

    method ServeSemQuery(e: Event) returns (r: Served)
      requires Valid() && e.polled && e.request.Some? && e.request.value.SemQueryReq?
      modifies `sets, `undo, `nUndo, `log
      ensures Valid() && Just(old(Now()), Now(), e, Some(r))
      ensures Apt(old(Met()), e, r)
    {
      var q := e.request.value;
      var ret;
      ghost var si;
      ret, si := SemQuery(q.id, q.cmd, q.semnum, e.caller, e.world);
      r := Answer(ret);
      AskedFair(old(Now()), Now(), old(Sems()), Sems(), si, q.id, e, r);
    }

    method ServeSemChange(e: Event) returns (r: Served)
      requires Valid() && e.polled && e.request.Some? && e.request.value.SemChangeReq?
      modifies `sets, `undo, `nUndo, `log
      ensures Valid() && Just(old(Now()), Now(), e, Some(r))
      ensures Apt(old(Met()), e, r)
    {
      var q := e.request.value;
      var ret;
      ghost var si, mid;
      ret, si, mid := SemChange(q.id, q.mode, q.uid, q.gid, e.caller, e.world);
      r := Answer(ret);
      AskedFair(old(Now()), Now(), old(Sems()), mid, si, q.id, e, r);
    }

    method ServeSemRemove(e: Event) returns (r: Served)
      requires Valid() && e.polled && e.request.Some? && e.request.value.SemRemoveReq?
      modifies `sets, `undo, `nUndo, `log, `wait, `nWait, `replies, `mail
      ensures Valid() && (old(Once()) ==> Once()) && Just(old(Now()), Now(), e, Some(r))
      ensures Apt(old(Met()), e, r)
    {
      var q := e.request.value;
      var ret;
      ghost var si, mid;
      ret, si, mid := SemRemove(q.id, e.caller, e.world);
      r := Answer(ret);
      RemovedFair(old(Now()), Now(), old(Sems()), mid, si, q.id, e, ret);
    }

    method ServeSend(e: Event) returns (r: Served)
      requires MsgValid() && e.polled && e.request.Some? && e.request.value.MsgSndReq?
      modifies `queues, `wait, `nWait, `waitSeq, `mail
      ensures MsgValid() && (old(Once()) ==> Once()) && Just(old(Now()), Now(), e, Some(r))
      ensures Apt(old(Met()), e, r)
    {
      var q := e.request.value;
      r := MsgSnd(q.id, q.m, q.nowait, q.deadline, e.caller, e.world);
      SendFair(old(Now()), Now(), e, r);
    }

    method ServeRecv(e: Event) returns (r: Served)
      requires MsgValid() && e.polled && e.request.Some? && e.request.value.MsgRcvReq?
      modifies `queues, `wait, `nWait, `waitSeq, `mail
      ensures MsgValid() && (old(Once()) ==> Once()) && Just(old(Now()), Now(), e, Some(r))
      ensures Apt(old(Met()), e, r)
    {
      var q := e.request.value;
      r := MsgRcv(q.id, q.want, q.msgsz, q.noerror, q.nowait, q.deadline, e.caller, e.world);
      RecvFair(old(Now()), Now(), e, r);
    }

    method ServeMsgGet(e: Event) returns (r: Served)
      requires MsgValid() && e.polled && e.request.Some? && e.request.value.MsgGetReq?
      modifies `queues, `nextMsqId, `mail
      ensures MsgValid() && Just(old(Now()), Now(), e, Some(r))
      ensures Apt(old(Met()), e, r)
    {
      var q := e.request.value;
      var ret := MsgGet(q.key, q.creat, q.excl, q.mode, e.caller);
      r := Answer(ret);
      if mail != old(mail) {
        PostFair(old(Now()), Now(), Opened(ret), e, r);
      } else {
        NothingFair(Now(), e, r);
      }
    }

    method ServeMsgChange(e: Event) returns (r: Served)
      requires MsgValid() && e.polled && e.request.Some? && e.request.value.MsgChangeReq?
      modifies `queues, `mail
      ensures MsgValid() && Just(old(Now()), Now(), e, Some(r))
      ensures Apt(old(Met()), e, r)
    {
      var q := e.request.value;
      var ret := MsgSet(q.id, q.mode, q.uid, q.gid, q.qbytes, e.caller);
      r := Answer(ret);
      if ret == 0 {
        PostFair(old(Now()), Now(), Sized(q.id, q.qbytes), e, r);
      } else {
        NothingFair(Now(), e, r);
      }
    }

    method ServeMsgRemove(e: Event) returns (r: Served)
      requires MsgValid() && e.polled && e.request.Some? && e.request.value.MsgRemoveReq?
      modifies `queues, `wait, `nWait, `replies, `mail
      ensures MsgValid() && (old(Once()) ==> Once()) && Just(old(Now()), Now(), e, Some(r))
      ensures Apt(old(Met()), e, r)
    {
      var q := e.request.value;
      var ret := MsgRemove(q.id, e.caller);
      r := Answer(ret);
      if ret == 0 {
        FreedFair(old(Now()), Now(), q.id, e, r);
      } else {
        NothingFair(Now(), e, r);
      }
    }

    /** The request a round saw, dispatched. */
    method Serve(e: Event) returns (r: Served)
      requires Valid() && e.polled && e.request.Some?
      modifies this
      ensures Valid() && (old(Once()) ==> Once()) && Just(old(Now()), Now(), e, Some(r))
      ensures Apt(old(Met()), e, r)
    {
      var q := e.request.value;
      if q.MsgGetReq? || q.MsgSndReq? || q.MsgRcvReq? || q.MsgChangeReq? || q.MsgRemoveReq? {
        r := ServeMsg(e);
      } else {
        r := ServeSem(e);
      }
    }

    method ServeSem(e: Event) returns (r: Served)
      requires Valid() && e.polled && e.request.Some?
      requires var q := e.request.value;
               !q.MsgGetReq? && !q.MsgSndReq? && !q.MsgRcvReq? && !q.MsgChangeReq? && !q.MsgRemoveReq?
      modifies `sets, `undo, `nUndo, `log, `nextSemId, `wait, `nWait, `waitSeq, `replies, `mail
      ensures Valid() && (old(Once()) ==> Once()) && Just(old(Now()), Now(), e, Some(r))
      ensures Apt(old(Met()), e, r)
    {
      var q := e.request.value;
      if q.SemOpReq? {
        r := ServeSemOp(e);
      } else if q.SemRemoveReq? {
        r := ServeSemRemove(e);
      } else {
        r := ServeSemTables(e);
      }
    }

    method ServeSemTables(e: Event) returns (r: Served)
      requires Valid() && e.polled && e.request.Some?
      requires var q := e.request.value;
               q.SemGetReq? || q.SetValReq? || q.SetAllReq? || q.SemQueryReq? || q.SemChangeReq?
      modifies `sets, `undo, `nUndo, `log, `nextSemId
      ensures Valid() && Just(old(Now()), Now(), e, Some(r))
      ensures Apt(old(Met()), e, r)
    {
      var q := e.request.value;
      if q.SemGetReq? {
        r := ServeSemGet(e);
      } else if q.SemQueryReq? {
        r := ServeSemQuery(e);
      } else if q.SemChangeReq? {
        r := ServeSemChange(e);
      } else if q.SetAllReq? {
        r := ServeSetAll(e);
      } else {
        r := ServeSetVal(e);
      }
    }

    method ServeMsg(e: Event) returns (r: Served)
      requires MsgValid() && e.polled && e.request.Some?
      requires var q := e.request.value;
               q.MsgGetReq? || q.MsgSndReq? || q.MsgRcvReq? || q.MsgChangeReq? || q.MsgRemoveReq?
      modifies `queues, `nextMsqId, `wait, `nWait, `waitSeq, `replies, `mail
      ensures MsgValid() && (old(Once()) ==> Once()) && Just(old(Now()), Now(), e, Some(r))
      ensures Apt(old(Met()), e, r)
    {
      var q := e.request.value;
      if q.MsgSndReq? {
        r := ServeSend(e);
      } else if q.MsgRcvReq? {
        r := ServeRecv(e);
      } else if q.MsgRemoveReq? {
        r := ServeMsgRemove(e);
      } else if q.MsgGetReq? {
        r := ServeMsgGet(e);
      } else {
        r := ServeMsgChange(e);
      }
    }

    /** A parked connection that reported. */
    method HearOne(e: Event, i: nat, ghost first: Books)
      requires MsgValid() && Once() && e.polled && i < |e.ready| && Heard(first, Now(), e, i)
      modifies `wait, `nWait, `replies, `mail
      ensures MsgValid() && Once() && Heard(first, Now(), e, i + 1)
    {
      PollReady(e.ready[i].seqno, e.ready[i].cancel);
      HeardMore(first, old(Now()), Now(), e, i);
    }

    /** The parked connections that reported. */
    method Hear(e: Event)
      requires MsgValid() && Once() && e.polled
      modifies `wait, `nWait, `replies, `mail
      ensures MsgValid() && Once() && Heard(old(Now()), Now(), e, |e.ready|)
    {
      var i := 0;
      FairNone(Now(), e, None);
      while i < |e.ready|
        invariant 0 <= i <= |e.ready| && MsgValid() && Once() && Heard(old(Now()), Now(), e, i)
      {
        HearOne(e, i, old(Now()));
        i := i + 1;
      }
    }

    /** A poll that reported something: connections, a request, and a rescan. */
    method Poll(e: Event) returns (r: Option<Served>, ghost heard: Table<Waiter>)
      requires Valid() && Once() && e.polled
      modifies this
      ensures Valid() && Quiet() && Once() && Just(old(Now()), Now(), e, r) && (r.Some? <==> e.request.Some?)
      ensures HeardOf(old(wait), heard, e.ready, |e.ready|)
      ensures r.Some? ==> Apt(old(Met()).(wait := heard), e, r.value)
    {
      Hear(e);
      heard := wait;
      assert Met() == old(Met()).(wait := heard);
      ghost var b := Now();
      r := None;
      if e.request.Some? {
        var s := Serve(e);
        r := Some(s);
        JustAfter(old(Now()), b, Now(), e, r);
      }
      b := Now();
      ghost var views := Rescan(e.world);
      JustBefore(old(Now()), b, Now(), e, r);
    }

    /** The end of a round: deadlines, then the dead. */
    method Tend(e: Event)
      requires Valid() && Quiet() && Once()
      modifies `sets, `undo, `nUndo, `log, `queues, `wait, `nWait, `replies, `mail
      ensures Valid() && Quiet() && Once() && Fair(old(Now()), Now(), e, None)
      ensures Timely(wait, e.now) && (e.tick ==> Living(e.world))
    {
      Expire(e.now);
      assert SweepDue(Late(e.now), e, None);
      if e.tick {
        if nWait != 0 || nUndo != 0 {
          See(e, old(Now()));
        } else {
          NoneUsed(wait);
          NoneUsed(undo);
        }
      }
      if !e.polled && e.idle { See(e, old(Now())); }
    }

    method See(e: Event, ghost first: Books)
      requires Valid() && Quiet() && Once() && Looks(e) && Fair(first, Now(), e, None) && Timely(wait, e.now)
      modifies `sets, `undo, `nUndo, `log, `queues, `wait, `nWait, `replies, `mail
      ensures Valid() && Quiet() && Once() && Fair(first, Now(), e, None) && Timely(wait, e.now) && Living(e.world)
    {
      ghost var mid := Reclaim(e.world);
      FairJoin(first, old(Now()), Now(), e, None, None);
      StillTimely(old(Now()), Now(), e.world, e.now);
    }

    /** One round of the poll loop: parked connections that reported, then a
        request, then a rescan; then deadlines, then the dead. Between any two
        rounds no parked operation could proceed, and everything a round did to a
        semaphore, a message or a waiter has its cause in what it saw, and every
        success it tells is true. The request is answered as the tables the round
        began with allow, `heard` being who still waited when it was served. Nobody
        is left past its deadline, and after a tick nothing of the dead. */
    method Round(e: Event) returns (r: Option<Served>, ghost heard: Table<Waiter>)
      requires Valid() && Quiet() && Once()
      modifies this
      ensures Valid() && Quiet() && Once() && Just(old(Now()), Now(), e, r)
      ensures r.Some? <==> e.polled && e.request.Some?
      ensures Timely(wait, e.now) && (e.tick ==> Living(e.world))
      ensures r.Some? ==>
                HeardOf(old(wait), heard, e.ready, |e.ready|) && Apt(old(Met()).(wait := heard), e, r.value)
    {
      r, heard := None, wait;
      if e.polled {
        r, heard := Poll(e);
      } else {
        FairNone(Now(), e, r);
      }
      ghost var b := Now();
      Tend(e);
      JustBefore(old(Now()), b, Now(), e, r);
    }

    /** Any run of the daemon, from any state a run can be in: a chain of such
        rounds. No entry of the logs and no answer is ever taken back. */
    method Run(events: seq<Event>) returns (answers: seq<Option<Served>>, ghost trail: seq<Books>)
      requires Valid() && Quiet() && Once()
      modifies this
      ensures Valid() && Quiet() && Once()
      ensures Chain(trail, events, answers) && trail[0] == old(Now()) && trail[|events|] == Now()
      ensures Grew(old(Now()), Now())
    {
      answers, trail := [], [Now()];
      var i := 0;
      while i < |events|
        invariant 0 <= i <= |events| && Valid() && Quiet() && Once()
        invariant Chain(trail, events[..i], answers) && trail[0] == old(Now()) && trail[i] == Now()
        invariant Grew(old(Now()), Now())
      {
        ghost var heard;
        var r;
        r, heard := Round(events[i]);
        ChainMore(trail, events, answers, i, Now(), r);
        answers, trail := answers + [r], trail + [Now()];
        i := i + 1;
      }
      assert events[..|events|] == events;
    }
  }
}
