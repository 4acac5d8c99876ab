/** What the daemon's requests promise, in terms of its tables before and after. */
module IpcRules {
  import opened Errno
  import opened Slots
  import opened Procs
  import opened SemAttempt
  import opened SemCore
  import opened MsgCore
  import opened IpcTables
  import opened IpcReplies
  import opened SemLog
  import opened Mail
  import opened IpcRounds
  import opened UndoOrder

  // ---- permissions ----

  /** The access triad: `need` is 4 (read) or 2 (alter). */
  predicate Access(p: Perm, uid: nat, gid: nat, need: nat)
    requires need == 2 || need == 4
  {
    uid == 0 ||
    var m := if uid == p.uid || uid == p.cuid then p.mode / 64
             else if gid == p.gid || gid == p.cgid then p.mode / 8 else p.mode;
    (m / need) % 2 == 1
  }

  /** A triad of a mode, as its octal digit. */
  ghost predicate Reads(digit: nat) { digit in {4, 5, 6, 7} }
  ghost predicate Alters(digit: nat) { digit in {2, 3, 6, 7} }

  /** Root may do all; the first triad is the owner's and the creator's, the second
      their groups', the third everybody else's; and nobody is judged by two. */
  lemma {:induction false} AccessIs(p: Perm, uid: nat, gid: nat, high: nat, u: nat, g: nat, o: nat)
    requires u < 8 && g < 8 && o < 8 && p.mode == 512 * high + 64 * u + 8 * g + o
    ensures uid == 0 ==> Access(p, uid, gid, 4) && Access(p, uid, gid, 2)
    ensures uid != 0 ==>
              var d := if uid in {p.uid, p.cuid} then u else if gid in {p.gid, p.cgid} then g else o;
              (Access(p, uid, gid, 4) <==> Reads(d)) && (Access(p, uid, gid, 2) <==> Alters(d))
  {
    assert p.mode / 8 == 64 * high + 8 * u + g && p.mode / 64 == 8 * high + u;
    Triad(8 * high + u, high, u);
    Triad(64 * high + 8 * u + g, 8 * high + u, g);
    Triad(p.mode, 64 * high + 8 * u + g, o);
  }

  lemma {:induction false} Triad(m: nat, high: nat, d: nat)
    requires d < 8 && m == 8 * high + d
    ensures ((m / 4) % 2 == 1 <==> Reads(d)) && ((m / 2) % 2 == 1 <==> Alters(d))
  {
    assert m / 4 == 2 * high + d / 4 && m / 2 == 4 * high + d / 2;
  }

  predicate Owner(p: Perm, uid: nat) { Owns(uid, p.uid, p.cuid) }

  function NewPerm(mode: nat, c: Caller): (p: Perm)
    ensures p.mode < 512 && (mode < 512 ==> p.mode == mode)
    ensures p.uid == p.cuid == c.uid && p.gid == p.cgid == c.gid
  {
    Perm(mode % 512, c.uid, c.gid, c.uid, c.gid)
  }

  /** IPC_SET's new permissions: the nine bits and the owner; who made the object
      stays. */
  function Regranted(p: Perm, mode: nat, uid: nat, gid: nat): (p': Perm)
    ensures p'.uid == uid && p'.gid == gid && p'.cuid == p.cuid && p'.cgid == p.cgid
    ensures p'.mode % 512 == mode % 512 && p'.mode / 512 == p.mode / 512
  {
    Perm(p.mode - p.mode % 512 + mode % 512, uid, gid, p.cuid, p.cgid)
  }

  // ---- an attempt at a vector ----

  ghost predicate Packed<T>(t: Table<T>) {
    forall k :: 0 <= k < |t| ==> t[k].Some?
  }

  ghost predicate IsDid(m: Move, id: int, pid: int, ops: seq<SemBuf>, to: nat) {
    m.Did? && m.id == id && m.pid == pid && m.ops == ops && m.to == to
  }

  /** A committed vector: every operation could go through in turn, the set has
      them all, and the log has the vector. */
  ghost predicate Committed(sets: Table<SemSet>, log: seq<Move>, sets': Table<SemSet>, log': seq<Move>,
                            si: nat, ops: seq<SemBuf>, pid: int, to: nat) {
    && si < |sets| && sets[si].Some?
    && var s := sets[si].value;
       var adj := Debt(log, s.id, pid).adj;
       && |adj| == |s.vals| && InSet(ops, |s.vals|) && AllGo(s.vals, adj, ops, |ops|, true)
       && sets' == sets[si := Some(Shifted(s, ops, pid))]
       && |log'| == |log| + 1 && log <= log' && IsDid(log'[|log|], s.id, pid, ops, to)
  }

  /** Rows keep their places and holders; a new one is of `pid` as it lives now. */
  ghost predicate RowsKeep(undo: Table<UndoRow>, undo': Table<UndoRow>, pid: int, start: nat) {
    && |undo'| == |undo|
    && forall k :: 0 <= k < |undo| ==>
         if undo[k].Some? then undo'[k].Some? && undo'[k].value.(adj := undo[k].value.adj) == undo[k].value
         else undo'[k].Some? ==> undo'[k].value.pid == pid && undo'[k].value.start == start
  }

  /** The process that was `pid` at `start` is there, and not a zombie. */
  ghost predicate LivesOn(world: World, pid: int, start: nat) {
    world(pid).start == start && !world(pid).zombie
  }

  /** No row and no waiter is a dead process's. */
  ghost predicate AllLive(undo: Table<UndoRow>, wait: Table<Waiter>, world: World) {
    && (forall k :: 0 <= k < |undo| && undo[k].Some? ==> LivesOn(world, undo[k].value.pid, undo[k].value.start))
    && (forall k :: 0 <= k < |wait| && wait[k].Some? ==> LivesOn(world, wait[k].value.pid, wait[k].value.start))
  }

  /** A living waiter's vector brings no dead row. */
  lemma {:induction false} StillLive(undo: Table<UndoRow>, undo': Table<UndoRow>, wait: Table<Waiter>,
                                     wait': Table<Waiter>, wi: nat, world: World)
    requires wi < |wait| && wait[wi].Some? && AllLive(undo, wait, world)
    requires RowsKeep(undo, undo', wait[wi].value.pid, world(wait[wi].value.pid).start)
    requires wait' == wait[wi := None] || StillParked(wait, wait', wi)
    ensures AllLive(undo', wait', world)
  {
    var w := wait[wi].value;
    assert LivesOn(world, w.pid, w.start);
    forall k | 0 <= k < |undo'| && undo'[k].Some? ensures LivesOn(world, undo'[k].value.pid, undo'[k].value.start) {
      assert undo[k].Some? ==> LivesOn(world, undo[k].value.pid, undo[k].value.start);
    }
    forall k | 0 <= k < |wait'| && wait'[k].Some? ensures LivesOn(world, wait'[k].value.pid, wait'[k].value.start) {
      assert wait[k].Some? && LivesOn(world, wait[k].value.pid, wait[k].value.start);
    }
  }

  /** What an attempt starts from is what the process owes. */
  lemma {:induction false} AttemptFrom(sets: Table<SemSet>, undo: Table<UndoRow>, log: seq<Move>, si: nat, found: int,
                                       pid: int)
    requires SetsOk(sets) && UndoOk(sets, undo) && LogOk(sets, undo, log) && si < |sets| && sets[si].Some?
    requires -1 <= found < |undo| && (found >= 0 ==> Holds(undo[found], pid, sets[si].value.id))
    requires found < 0 ==> !HasRow(undo, pid, sets[si].value.id)
    ensures var s := sets[si].value;
            var adj := if found >= 0 then undo[found].value.adj else Zeros(|s.vals|);
            adj == Debt(log, s.id, pid).adj && |adj| == |s.vals| && AdjOk(adj) && SetOk(s)
  {
    var s := sets[si].value;
    assert SlotIs(s, undo, log);
    if found >= 0 {
      assert OnSet(undo[found], s.id);
      RowLength(sets, undo, si, found);
    }
  }

  lemma {:induction false} RowLength(sets: Table<SemSet>, undo: Table<UndoRow>, si: nat, ui: nat)
    requires SetsOk(sets) && UndoOk(sets, undo) && si < |sets| && sets[si].Some?
    requires ui < |undo| && OnSet(undo[ui], sets[si].value.id)
    ensures |undo[ui].value.adj| == |sets[si].value.vals| && AdjOk(undo[ui].value.adj)
  {
    var u := undo[ui].value;
    assert HasSet(sets, u.semid, |u.adj|);
    var i :| 0 <= i < |sets| && Is(sets[i], u.semid) && |sets[i].value.vals| == |u.adj|;
    assert i != si ==> ApartSets(sets[i], sets[si]);
  }

  function SemRet(t: Try): int {
    if t.Refused? then -t.errno else 0
  }

  // ---- the dead ----

  function DeathOf(u: UndoRow): Move {
    Died(u.semid, u.pid, u.start)
  }

  /** A dead process's row has been added to its set, each value clamped. */
  ghost predicate Applied(sets: Table<SemSet>, u: UndoRow, sets': Table<SemSet>, si: nat) {
    && si < |sets| && Is(sets[si], u.semid)
    && |u.adj| == |sets[si].value.vals| == |sets[si].value.lpid|
    && sets' == sets[si := Some(Reaped(sets[si].value, u))]
  }

  /** A row added to a set's values, each clamped to a semaphore value, and the
      semaphores it touches stamped. */
  method ClampRow(vals0: seq<int>, lpid0: seq<int>, adj: seq<int>, pid: int) returns (vals: seq<int>, lpid: seq<int>)
    requires |adj| == |vals0| == |lpid0| && ValsOk(vals0)
    ensures vals == Undone(vals0, adj, |vals0|) && ValsOk(vals) && lpid == Stamped(lpid0, adj, pid)
  {
    vals, lpid := vals0, lpid0;
    var i := 0;
    while i < |vals|
      invariant 0 <= i <= |vals| == |vals0| && |lpid| == |lpid0|
      invariant vals == Undone(vals0, adj, i)
      invariant forall n :: 0 <= n < |lpid| ==> lpid[n] == if n < i && adj[n] != 0 then pid else lpid0[n]
    {
      if adj[i] != 0 {
        var v := vals[i] + adj[i];
        if v < 0 { v := 0; }
        if v > SEMVMX { v := SEMVMX; }
        vals := vals[i := v];
        lpid := lpid[i := pid];
      }
      i := i + 1;
    }
  }

  predicate DeadRow(r: Option<UndoRow>, world: World) {
    r.Some? && Dead(world, r.value.pid, r.value.start)
  }

  predicate DeadOn(r: Option<UndoRow>, semid: int, world: World) {
    OnSet(r, semid) && DeadRow(r, world)
  }

  /** The deaths among the first `k` rows, in the order of the table: those on one
      set, or on any. */
  ghost function Deaths(undo: Table<UndoRow>, on: Option<int>, world: World, k: nat): (d: seq<Move>)
    requires k <= |undo|
    ensures forall j :: 0 <= j < |d| ==> d[j].Died? && Dead(world, d[j].pid, d[j].start)
    ensures on.Some? ==> forall j :: 0 <= j < |d| ==> d[j].id == on.value
  {
    if k == 0 then []
    else if DeadRow(undo[k - 1], world) && (on.Some? ==> OnSet(undo[k - 1], on.value)) then
      Deaths(undo, on, world, k - 1) + [DeathOf(undo[k - 1].value)]
    else Deaths(undo, on, world, k - 1)
  }

  /** The rows of the dead, each in its place. */
  ghost function DeadOnly(undo: Table<UndoRow>, world: World): Table<UndoRow> {
    seq(|undo|, k requires 0 <= k < |undo| => if DeadRow(undo[k], world) then undo[k] else None)
  }

  /** The semaphore tables at one moment. */
  datatype Mid = Mid(sets: Table<SemSet>, undo: Table<UndoRow>, log: seq<Move>)

  ghost predicate SameButVals(s: SemSet, s': SemSet) {
    s' == s.(vals := s'.vals, lpid := s'.lpid) && |s'.vals| == |s.vals|
  }

  /** Set `si` alone may have other values. */
  ghost predicate OneMoved(sets: Table<SemSet>, sets': Table<SemSet>, si: nat, id: int) {
    && si < |sets| == |sets'| && Is(sets[si], id) && sets'[si].Some? && sets' == sets[si := sets'[si]]
    && SameButVals(sets[si].value, sets'[si].value)
  }

  ghost predicate SettledTo(a: Mid, b: Mid, si: nat, id: int, world: World, i: nat) {
    && OneMoved(a.sets, b.sets, si, id)
    && i <= |a.undo| == |b.undo| && b.log == a.log + Deaths(a.undo, Some(id), world, i)
    && b.sets[si].value.vals == AfterAll(a.sets[si].value.vals, id, DeadOnly(a.undo, world), i)
    && forall k :: 0 <= k < |a.undo| ==>
         b.undo[k] == if k < i && DeadOn(a.undo[k], id, world) then None else a.undo[k]
  }

  /** The rows dead processes had on one set are applied and gone, one after
      another; nothing else has moved. */
  ghost predicate DeadSettled(a: Mid, b: Mid, si: nat, id: int, world: World) {
    SettledTo(a, b, si, id, world, |a.undo|)
  }

  lemma {:induction false} SettledMore(a: Mid, b: Mid, c: Mid, si: nat, id: int, world: World, i: nat, at: nat)
    requires SettledTo(a, b, si, id, world, i) && i < |a.undo| && DeadOn(b.undo[i], id, world) && SetsOk(b.sets)
    requires c.undo == b.undo[i := None] && c.log == b.log + [DeathOf(b.undo[i].value)]
    requires Applied(b.sets, b.undo[i].value, c.sets, at)
    ensures SettledTo(a, c, si, id, world, i + 1) && at == si
  {
    assert at != si ==> ApartSets(b.sets[at], b.sets[si]);
    assert b.undo[i] == a.undo[i];
    var d, x := Deaths(a.undo, Some(id), world, i), DeathOf(a.undo[i].value);
    assert a.log + d + [x] == a.log + (d + [x]);
  }

  ghost predicate AllDead(undo: Table<UndoRow>, semid: int, world: World) {
    forall k :: 0 <= k < |undo| && OnSet(undo[k], semid) ==> DeadRow(undo[k], world)
  }

  /** With no row left on a set, its values are its ledger. */
  lemma {:induction false} NoRowsNoDebt(s: SemSet, undo: Table<UndoRow>, log: seq<Move>)
    requires SlotIs(s, undo, log) && NoneOn(undo, s.id)
    ensures s.vals == FaceOf(log, s.id).ledger
  {
    forall n | 0 <= n < |s.vals| ensures s.vals[n] == FaceOf(log, s.id).ledger[n] {
      SumZero(undo, AdjTerm(s.id, n));
    }
  }

  /** Every semaphore with room for all its rows keeps its ledger. */
  ghost predicate LedgerKept(s: SemSet, undo: Table<UndoRow>, log: seq<Move>, log': seq<Move>) {
    var l, l' := FaceOf(log, s.id).ledger, FaceOf(log', s.id).ledger;
    |l| == |l'| == |s.vals| && forall n :: 0 <= n < |s.vals| && Roomy(s, undo, n) ==> l'[n] == l[n]
  }

  /** ... and still has room for those left. */
  ghost predicate StillRoomy(s: SemSet, undo: Table<UndoRow>, log: seq<Move>,
                             s': SemSet, undo': Table<UndoRow>, log': seq<Move>) {
    && LedgerKept(s, undo, log, log')
    && forall n :: 0 <= n < |s.vals| && Roomy(s, undo, n) ==> Roomy(s', undo', n)
  }

  lemma {:induction false} RoomyStart(s: SemSet, undo: Table<UndoRow>, log: seq<Move>)
    requires SlotIs(s, undo, log)
    ensures StillRoomy(s, undo, log, s, undo, log)
  {
  }

  /** One death more clamps nothing where there was room. */
  lemma {:induction false} RoomyMore(s: SemSet, undo: Table<UndoRow>, log: seq<Move>, b: Mid, c: Mid, si: nat, ui: nat)
    requires SetsOk(b.sets) && UndoOk(b.sets, b.undo) && LogOk(b.sets, b.undo, b.log) && si < |b.sets| && ui < |b.undo|
    requires Is(b.sets[si], s.id) && |b.sets[si].value.vals| == |s.vals| && OnSet(b.undo[ui], s.id)
    requires StillRoomy(s, undo, log, b.sets[si].value, b.undo, b.log)
    requires Applied(b.sets, b.undo[ui].value, c.sets, si)
    requires c.undo == b.undo[ui := None] && c.log == b.log + [DeathOf(b.undo[ui].value)]
    ensures StillRoomy(s, undo, log, c.sets[si].value, c.undo, c.log)
  {
    var t, u := b.sets[si].value, b.undo[ui].value;
    assert SlotIs(t, b.undo, b.log);
    DeathFace(t, b.undo, b.log, ui);
    forall n | 0 <= n < |s.vals| && Roomy(s, undo, n)
      ensures Roomy(c.sets[si].value, c.undo, n) && FaceOf(c.log, s.id).ledger[n] == FaceOf(b.log, s.id).ledger[n]
    {
      RoomyDeath(t, b.undo, ui, n);
    }
  }

  // ---- waiters ----

  predicate Numbered(w: Option<Waiter>, seqno: nat) {
    w.Some? && w.value.seqno == seqno
  }

  ghost predicate ParkedIn(wait: Table<Waiter>, wait': Table<Waiter>, w: Waiter) {
    exists wi :: 0 <= wi < |wait| && wait[wi].None? && wait' == wait[wi := Some(w)]
  }

  /** Exactly the waiters on an object are gone. */
  ghost predicate RidOf(wait: Table<Waiter>, wait': Table<Waiter>, id: int, sem: bool) {
    |wait'| == |wait| &&
    forall k :: 0 <= k < |wait| ==> wait'[k] == if ParkedOn(wait[k], id, sem) then None else wait[k]
  }

  function Renoted(w: Waiter, at: nat): Waiter
    requires w.job.SemJob?
  {
    w.(job := w.job.(blk := at))
  }

  lemma {:induction false} Reblock(sets: Table<SemSet>, queues: Table<Queue>, wait: Table<Waiter>, waitSeq: nat,
                                   wi: nat, w': Waiter)
    requires WaitOk(sets, queues, wait, waitSeq) && wi < |wait| && wait[wi].Some?
    requires wait[wi].value.job.SemJob? && w'.job.SemJob? && w' == wait[wi].value.(job := w'.job)
    requires w'.job.ops == wait[wi].value.job.ops && w'.job.blk < |w'.job.ops|
    ensures WaitOk(sets, queues, wait[wi := Some(w')], waitSeq) && Count(wait[wi := Some(w')]) == Count(wait)
  {
    var wait' := wait[wi := Some(w')];
    assert JobOk(sets, queues, wait[wi].value);
    forall i, j | 0 <= i < |wait| && 0 <= j < |wait| && i != j ensures ApartWaiters(wait'[i], wait'[j]) {
      assert ApartWaiters(wait[i], wait[j]);
    }
    SumUpdate(wait, Used<Waiter>(), wi, Some(w'));
  }

  /** A waiter table in which only the note of slot `wi` may have changed. */
  ghost predicate StillParked(wait: Table<Waiter>, wait': Table<Waiter>, wi: nat) {
    && wi < |wait| == |wait'| && wait[wi].Some? && wait'[wi].Some?
    && wait' == wait[wi := wait'[wi]] && Plea(wait'[wi].value) == Plea(wait[wi].value)
  }

  /** Waiter `wi` has left, answered `ret`. */
  ghost predicate Answered(b: Books, b': Books, wi: nat, ret: int) {
    && wi < |b.wait| && b.wait[wi].Some? && b'.wait == b.wait[wi := None] && b'.next == b.next
    && b'.replies == b.replies + [Reply(b.wait[wi].value.seqno, ret, 0, [])]
  }

  /** Waiter `wi` has left, answered something. */
  ghost predicate LeftTold(b: Books, b': Books, wi: nat) {
    && wi < |b.wait| && b.wait[wi].Some? && b'.wait == b.wait[wi := None]
    && |b'.replies| == |b.replies| + 1 && b'.replies == b.replies + [b'.replies[|b.replies|]]
    && b'.replies[|b.replies|].to == b.wait[wi].value.seqno
  }

  /** Waiter `wi` has stayed, and nothing was told or done. */
  ghost predicate Stayed(b: Books, b': Books, wi: nat) {
    StillParked(b.wait, b'.wait, wi) && b' == b.(wait := b'.wait)
  }

  lemma {:induction false} TurnedSem(b: Books, b': Books, wi: nat, ret: int)
    requires Answered(b, b', wi, ret) && b.wait[wi].value.job.SemJob? && b.wait[wi].value.seqno > 0 && b'.mail == b.mail
    requires if ret == 0 then |b'.log| == |b.log| + 1 && b.log <= b'.log && DidFor(b'.log[|b.log|], b.wait[wi].value)
             else b'.log == b.log
                  && RefusedBy(b.log, b.wait[wi].value.id, b.wait[wi].value.pid, b.wait[wi].value.job.ops, -ret)
    ensures Turned(b, b') && WentOn(b, b', wi)
  {
    var rep := Reply(b.wait[wi].value.seqno, ret, 0, []);
    assert b'.replies[|b.replies|] == rep;
    forall e ensures Fair(b, b', e, None) { FairSem(b, b', wi, rep, e); }
  }

  lemma {:induction false} TurnedNote(b: Books, b': Books, wi: nat)
    requires Stayed(b, b', wi)
    ensures Turned(b, b')
  {
    forall e ensures Fair(b, b', e, None) { FairNote(b, b', wi, e); }
  }

  lemma {:induction false} TurnedMoved(b: Books, b': Books, wi: nat)
    requires Answered(b, b', wi, 0) && b.wait[wi].value.job.SendJob? && b.wait[wi].value.seqno > 0
    requires b'.log == b.log && b'.mail == b.mail + [Moved(b.wait[wi].value)]
    requires RoomFor(b.mail, b.wait[wi].value.id, |b.wait[wi].value.job.msg.data|)
    ensures Turned(b, b') && WentOn(b, b', wi)
  {
    var rep := Reply(b.wait[wi].value.seqno, 0, 0, []);
    assert b'.replies[|b.replies|] == rep;
    forall e ensures Fair(b, b', e, None) { FairMoved(b, b', wi, rep, e); }
  }

  lemma {:induction false} TurnedTold(b: Books, b': Books, wi: nat)
    requires Answered(b, b', wi, -E2BIG) && b.wait[wi].value.job.RecvJob? && Overlong(b.mail, b.wait[wi].value)
    requires b'.log == b.log && b'.mail == b.mail
    ensures Turned(b, b') && WentOn(b, b', wi)
  {
    var rep := Reply(b.wait[wi].value.seqno, -E2BIG, 0, []);
    assert b'.replies[|b.replies|] == rep;
    forall e ensures Fair(b, b', e, None) { FairTold(b, b', wi, rep, e); }
  }

  lemma {:induction false} TurnedGot(b: Books, b': Books, wi: nat, m: Msg)
    requires wi < |b.wait| && b.wait[wi].Some? && b.wait[wi].value.job.RecvJob? && b.wait[wi].value.seqno > 0
    requires var w := b.wait[wi].value;
             var msgs := BoxOf(b.mail, w.id).msgs;
             && b'.wait == b.wait[wi := None] && b'.next == b.next && b'.log == b.log
             && b'.replies == b.replies + [GrantReply(w.seqno, m, w.job.msgsz)]
             && (|m.data| <= w.job.msgsz || w.job.noerror) && b'.mail == b.mail + [Got(w.id, w.job.want, w.seqno)]
             && Pick(msgs, w.job.want) >= 0 && msgs[Pick(msgs, w.job.want)] == m
    ensures Turned(b, b') && WentOn(b, b', wi)
  {
    var w := b.wait[wi].value;
    var rep := GrantReply(w.seqno, m, w.job.msgsz);
    assert b'.replies[|b.replies|] == rep;
    forall e ensures Fair(b, b', e, None) { FairGot(b, b', wi, rep, m, e); }
  }

  /** A parked send was done: its message queued, and answered so. */
  ghost predicate SendDone(b: Books, b': Books, wi: nat) {
    && Answered(b, b', wi, 0) && b.wait[wi].value.job.SendJob?
    && b'.log == b.log && b'.mail == b.mail + [Moved(b.wait[wi].value)]
    && RoomFor(b.mail, b.wait[wi].value.id, |b.wait[wi].value.job.msg.data|)
  }

  /** A parked receive was done: its message taken and granted; or told that it is
      too long. */
  ghost predicate RecvDone(b: Books, b': Books, wi: nat) {
    && wi < |b.wait| && b.wait[wi].Some? && b.wait[wi].value.job.RecvJob? && b'.log == b.log
    && ((Answered(b, b', wi, -E2BIG) && b'.mail == b.mail && Overlong(b.mail, b.wait[wi].value)) || Obtained(b, b', wi))
  }

  ghost predicate Obtained(b: Books, b': Books, wi: nat)
    requires wi < |b.wait| && b.wait[wi].Some? && b.wait[wi].value.job.RecvJob?
  {
    var w := b.wait[wi].value;
    var msgs := BoxOf(b.mail, w.id).msgs;
    var k := Pick(msgs, w.job.want);
    && k >= 0 && (|msgs[k].data| <= w.job.msgsz || w.job.noerror)
    && b'.wait == b.wait[wi := None] && b'.next == b.next
    && b'.replies == b.replies + [GrantReply(w.seqno, msgs[k], w.job.msgsz)]
    && b'.mail == b.mail + [Got(w.id, w.job.want, w.seqno)]
  }

  ghost predicate MsgDone(b: Books, b': Books, wi: nat) {
    SendDone(b, b', wi) || RecvDone(b, b', wi)
  }

  lemma {:induction false} TurnedMsg(b: Books, b': Books, wi: nat)
    requires MsgDone(b, b', wi) && b.wait[wi].value.seqno > 0
    ensures Turned(b, b') && WentOn(b, b', wi)
  {
    if SendDone(b, b', wi) {
      TurnedMoved(b, b', wi);
    } else if Answered(b, b', wi, -E2BIG) && b'.mail == b.mail {
      TurnedTold(b, b', wi);
    } else {
      var w := b.wait[wi].value;
      var msgs := BoxOf(b.mail, w.id).msgs;
      TurnedGot(b, b', wi, msgs[Pick(msgs, w.job.want)]);
    }
  }

  // ---- the order of turns ----

  /** The tables of objects, and the books, at one moment. */
  datatype View = View(sets: Table<SemSet>, queues: Table<Queue>, books: Books)

  /** Waiter `wi` went on: it was answered, and what was done was done for it. */
  ghost predicate WentOn(b: Books, b': Books, wi: nat) {
    && LeftTold(b, b', wi)
    && var n := b.wait[wi].value.seqno;
       && (b'.log == b.log || (|b'.log| == |b.log| + 1 && b.log <= b'.log && b'.log[|b.log|].Did?
                               && b'.log[|b.log|].to == n))
       && (b'.mail == b.mail || (|b'.mail| == |b.mail| + 1 && b.mail <= b'.mail && DoneFor(b'.mail[|b.mail|]) == n))
  }

  /** The turn of the waiter numbered `n`: it goes on, or it could not and nothing
      happens. */
  ghost predicate Turn(v: View, v': View, n: nat) {
    exists wi: nat :: wi < |v.books.wait| && Numbered(v.books.wait[wi], n) && TurnAt(v, v', wi)
  }

  ghost predicate TurnAt(v: View, v': View, wi: nat) {
    || WentOn(v.books, v'.books, wi)
    || (Stayed(v.books, v'.books, wi) && v'.sets == v.sets && v'.queues == v.queues
        && Stuck(v.sets, v.books.log, v.queues, v'.books.wait[wi].value))
  }

  ghost predicate Rising(order: seq<nat>) {
    forall i, j :: 0 <= i < j < |order| ==> order[i] < order[j]
  }

  /** Turns, one after another, in order of arrival. */
  ghost predicate InTurn(trail: seq<View>, order: seq<nat>) {
    && |trail| == |order| + 1 && Rising(order)
    && forall i :: 0 <= i < |order| ==> Turn(trail[i], trail[i + 1], order[i])
  }

  /** Everyone who came up to `last` has had a turn. */
  ghost predicate Covers(wait: Table<Waiter>, order: seq<nat>, last: nat) {
    forall k :: 0 <= k < |wait| && wait[k].Some? && wait[k].value.seqno <= last ==> wait[k].value.seqno in order
  }

  /** Whoever came after `last` is as at the start. */
  ghost predicate Ahead(wait: Table<Waiter>, wait': Table<Waiter>, last: nat) {
    |wait'| == |wait| &&
    forall k :: 0 <= k < |wait| && wait[k].Some? && wait[k].value.seqno > last ==> wait'[k] == wait[k]
  }

  /** A pass that has reached `last`. */
  ghost predicate OnPass(v: View, v': View, trail: seq<View>, order: seq<nat>, last: nat) {
    match (v, v')
    case (x, y) =>
      && InTurn(trail, order) && trail[0] == x && trail[|order|] == y
      && (forall i :: 0 <= i < |order| ==> 0 < order[i] <= last)
      && Covers(x.books.wait, order, last) && Ahead(x.books.wait, y.books.wait, last)
  }

  lemma {:induction false} OnPassStart(v: View)
    requires forall k :: 0 <= k < |v.books.wait| && v.books.wait[k].Some? ==> v.books.wait[k].value.seqno > 0
    ensures OnPass(v, v, [v], [], 0)
  {
  }

  lemma {:induction false} InTurnMore(trail: seq<View>, order: seq<nat>, v: View, n: nat)
    requires InTurn(trail, order) && Turn(trail[|order|], v, n) && forall i :: 0 <= i < |order| ==> order[i] < n
    ensures InTurn(trail + [v], order + [n])
  {
    var trail', order' := trail + [v], order + [n];
    forall i | 0 <= i < |order'| ensures Turn(trail'[i], trail'[i + 1], order'[i]) {
      if i < |order| { assert Turn(trail[i], trail[i + 1], order[i]); }
    }
  }

  lemma {:induction false} OnPassMore(v: View, v1: View, v2: View, trail: seq<View>, order: seq<nat>,
                                      last: nat, wi: nat)
    requires OnPass(v, v1, trail, order, last) && NextUp(v1.books.wait, wi, last) && TurnAt(v1, v2, wi)
    ensures OnPass(v, v2, trail + [v2], order + [v1.books.wait[wi].value.seqno], v1.books.wait[wi].value.seqno)
  {
    var n := v1.books.wait[wi].value.seqno;
    var order' := order + [n];
    assert Numbered(v1.books.wait[wi], n);
    InTurnMore(trail, order, v2, n);
    forall k | 0 <= k < |v.books.wait| && v.books.wait[k].Some? && v.books.wait[k].value.seqno <= n
      ensures v.books.wait[k].value.seqno in order'
    {
      var m := v.books.wait[k].value.seqno;
      if m <= last { assert m in order; } else { assert order'[|order|] == n; }
    }
  }

  /** One pass: everyone there at its start has one turn, in order of arrival. */
  ghost predicate Passed(v: View, v': View) {
    exists trail, order, last :: OnPass(v, v', trail, order, last) && AllBy(v.books.wait, last)
  }

  ghost predicate AllBy(wait: Table<Waiter>, last: nat) {
    forall k :: 0 <= k < |wait| && wait[k].Some? ==> wait[k].value.seqno <= last
  }

  lemma {:induction false} PassEnds(v: View, v': View, trail: seq<View>, order: seq<nat>, last: nat)
    requires OnPass(v, v', trail, order, last) && AllBy(v'.books.wait, last)
    ensures Passed(v, v')
  {
    assert AllBy(v.books.wait, last);
  }

  /** Passes, one after another. */
  ghost predicate Passes(views: seq<View>) {
    |views| > 0 && forall i :: 0 <= i < |views| - 1 ==> Passed(views[i], views[i + 1])
  }

  lemma {:induction false} PassesMore(views: seq<View>, v: View)
    requires Passes(views) && Passed(views[|views| - 1], v)
    ensures Passes(views + [v])
  {
    var views' := views + [v];
    forall i | 0 <= i < |views'| - 1 ensures Passed(views'[i], views'[i + 1]) {
      if i < |views| - 1 { assert Passed(views[i], views[i + 1]); }
    }
  }

  /** Since `b`, what was told and done was told and done in order of arrival, and for
      nobody after `last`. */
  ghost predicate ByArrival(b: Books, b': Books, last: nat) {
    match (b, b')
    case (x, y) =>
      && Grew(x, y) && DeedsByArrival(x, y, last)
      && (forall k :: |x.replies| <= k < |y.replies| ==> y.replies[k].to <= last)
      && (forall j, k :: |x.replies| <= j < k < |y.replies| ==> y.replies[j].to < y.replies[k].to)
  }

  ghost predicate DeedsByArrival(b: Books, b': Books, last: nat) {
    && (forall k :: |b.log| <= k < |b'.log| ==> b'.log[k].Did? && b'.log[k].to <= last)
    && (forall k :: |b.mail| <= k < |b'.mail| ==> DoneFor(b'.mail[k]) <= last)
    && (forall j, k :: |b.log| <= j < k < |b'.log| ==> b'.log[j].Did? && b'.log[k].Did? && b'.log[j].to < b'.log[k].to)
    && (forall j, k :: |b.mail| <= j < k < |b'.mail| ==> DoneFor(b'.mail[j]) < DoneFor(b'.mail[k]))
  }

  /** Each log has an entry for `n` more, or none. */
  ghost predicate OnlyFor(b: Books, b': Books, n: nat) {
    && Grew(b, b') && |b'.replies| <= |b.replies| + 1 && |b'.log| <= |b.log| + 1 && |b'.mail| <= |b.mail| + 1
    && (|b'.replies| > |b.replies| ==> b'.replies[|b.replies|].to == n)
    && (|b'.log| > |b.log| ==> b'.log[|b.log|].Did? && b'.log[|b.log|].to == n)
    && (|b'.mail| > |b.mail| ==> DoneFor(b'.mail[|b.mail|]) == n)
  }

  lemma {:induction false} TurnIsFor(v: View, v': View, n: nat)
    requires Turn(v, v', n)
    ensures OnlyFor(v.books, v'.books, n)
  {
    var wi: nat :| wi < |v.books.wait| && Numbered(v.books.wait[wi], n) && TurnAt(v, v', wi);
  }

  lemma {:induction false} OneByArrival(b: Books, b1: Books, b2: Books, last: nat, n: nat)
    requires ByArrival(b, b1, last) && OnlyFor(b1, b2, n) && last < n
    ensures ByArrival(b, b2, n)
  {
  }

  ghost function LastOf(order: seq<nat>, i: nat): nat
    requires i <= |order|
  {
    if i == 0 then 0 else order[i - 1]
  }

  lemma {:induction false} NoneByArrival(b: Books)
    ensures ByArrival(b, b, 0)
  {
  }

  lemma {:induction false} TurnsByArrival(books: seq<Books>, order: seq<nat>, i: nat)
    requires |books| == |order| + 1 && i <= |order| && Rising(order) && forall k :: 0 <= k < |order| ==> order[k] > 0
    requires forall k :: 0 <= k < |order| ==> OnlyFor(books[k], books[k + 1], order[k])
    ensures ByArrival(books[0], books[i], LastOf(order, i))
  {
    if i == 0 {
      NoneByArrival(books[0]);
    } else {
      var j := i - 1;
      TurnsByArrival(books, order, j);
      assert OnlyFor(books[j], books[j + 1], order[j]);
      OneByArrival(books[0], books[j], books[i], LastOf(order, j), order[j]);
    }
  }

  /** In one pass the answers, the vectors applied and the messages moved and taken
      are in order of arrival: nobody is served before one who came earlier and is
      served too. */
  lemma {:induction false} ServedByArrival(v: View, v': View)
    requires Passed(v, v')
    ensures exists last :: ByArrival(v.books, v'.books, last)
  {
    var trail: seq<View>, order: seq<nat>, last: nat :| OnPass(v, v', trail, order, last) && AllBy(v.books.wait, last);
    var books := seq(|trail|, i requires 0 <= i < |trail| => trail[i].books);
    forall i | 0 <= i < |order| ensures OnlyFor(books[i], books[i + 1], order[i]) {
      assert Turn(trail[i], trail[i + 1], order[i]);
      TurnIsFor(trail[i], trail[i + 1], order[i]);
    }
    TurnsByArrival(books, order, |order|);
  }

  // ---- who is stuck ----

  /** Everyone whose arrival is not after `last` is stuck. */
  ghost predicate StuckUpTo(sets: Table<SemSet>, log: seq<Move>, queues: Table<Queue>, wait: Table<Waiter>, last: nat) {
    forall k :: 0 <= k < |wait| && wait[k].Some? && wait[k].value.seqno <= last ==>
      Stuck(sets, log, queues, wait[k].value)
  }

  /** Waiter `wi` is the first to have come after `seen`. */
  ghost predicate NextUp(wait: Table<Waiter>, wi: nat, seen: nat) {
    && wi < |wait| && wait[wi].Some? && wait[wi].value.seqno > seen
    && forall k :: 0 <= k < |wait| && wait[k].Some? && wait[k].value.seqno > seen ==>
         wait[wi].value.seqno <= wait[k].value.seqno
  }

  /** With fewer waiters, those left are as stuck as they were. */
  lemma {:induction false} FewerStuck(sets: Table<SemSet>, log: seq<Move>, queues: Table<Queue>,
                                      wait: Table<Waiter>, wait': Table<Waiter>)
    requires |wait'| == |wait| && forall k :: 0 <= k < |wait| ==> wait'[k] == wait[k] || wait'[k].None?
    ensures AllStuck(sets, log, queues, wait) ==> AllStuck(sets, log, queues, wait')
  {
  }

  /** A waiter that stays parked leaves everyone visited before it stuck. */
  lemma {:induction false} VisitedStuck(sets: Table<SemSet>, log: seq<Move>, queues: Table<Queue>,
                                        wait: Table<Waiter>, wait': Table<Waiter>, wi: nat, seen: nat)
    requires StillParked(wait, wait', wi) && Stuck(sets, log, queues, wait'[wi].value) && Distinct(wait)
    ensures NextUp(wait, wi, seen) && StuckUpTo(sets, log, queues, wait, seen) ==>
            StuckUpTo(sets, log, queues, wait', wait[wi].value.seqno)
  {
    if NextUp(wait, wi, seen) && StuckUpTo(sets, log, queues, wait, seen) {
      forall k | 0 <= k < |wait'| && wait'[k].Some? && wait'[k].value.seqno <= wait[wi].value.seqno
        ensures Stuck(sets, log, queues, wait'[k].value)
      {
        assert k != wi ==> ApartWaiters(wait[k], wait[wi]);
      }
    }
  }

  lemma {:induction false} StuckAt(sets: Table<SemSet>, log: seq<Move>, queues: Table<Queue>, si: nat, w: Waiter)
    requires SetsOk(sets) && si < |sets| && Is(sets[si], w.id)
    requires w.job.SemJob? && SleepsNow(sets[si].value, log, w.pid, w.job.ops, w.job.blk)
    ensures Stuck(sets, log, queues, w)
  {
    OneSet(sets, si, w.id);
  }

  /** What a process owes, by its row: the debts of a sleeping waiter are real. */
  lemma {:induction false} DebtIsRow(sets: Table<SemSet>, undo: Table<UndoRow>, log: seq<Move>, i: nat, pid: int)
    requires LogOk(sets, undo, log) && i < |sets| && sets[i].Some?
    ensures var s := sets[i].value; var adj := Debt(log, s.id, pid).adj;
            && (forall k :: 0 <= k < |undo| && Holds(undo[k], pid, s.id) ==> undo[k].value.adj == adj)
            && (!HasRow(undo, pid, s.id) ==> adj == Zeros(|s.vals|))
  {
    assert SlotIs(sets[i].value, undo, log);
    forall k | 0 <= k < |undo| && Holds(undo[k], pid, sets[i].value.id)
      ensures undo[k].value.adj == Debt(log, sets[i].value.id, pid).adj
    {
      assert OnSet(undo[k], sets[i].value.id);
    }
  }

  lemma {:induction false} CountIsNonNegative<T>(t: Table<T>)
    ensures Count(t) >= 0
  {
    if |t| > 0 { SumNonNegative(t, Used<T>(), 0); }
  }

  // ---- messages ----

  lemma {:induction false} OneQueue(queues: Table<Queue>, qi: nat, id: int)
    requires QueuesOk(queues) && qi < |queues| && IsQ(queues[qi], id)
    ensures forall i :: 0 <= i < |queues| && IsQ(queues[i], id) ==> i == qi
  {
    forall i | 0 <= i < |queues| && IsQ(queues[i], id) ensures i == qi {
      assert i != qi ==> ApartQueues(queues[i], queues[qi]);
    }
  }

  /** The message went to the tail of the queue it names, which had room. */
  ghost predicate SentTo(queues: Table<Queue>, queues': Table<Queue>, id: int, m: Msg, pid: int) {
    exists qi :: 0 <= qi < |queues| && IsQ(queues[qi], id) && Fits(queues[qi].value, |m.data|)
      && queues' == queues[qi := Some(Enqueued(queues[qi].value, m, pid))]
  }

  /** The message a receive must take was taken, and granted as asked. */
  ghost predicate TakenFrom(queues: Table<Queue>, queues': Table<Queue>, id: int, want: Want, r: Served,
                            msgsz: nat, noerror: bool, pid: int) {
    exists qi, k: nat :: 0 <= qi < |queues| && IsQ(queues[qi], id) && TakesRight(queues[qi].value.msgs, want, k)
      && GrantOf(r, queues[qi].value.msgs[k], msgsz, noerror)
      && queues' == queues[qi := Some(Taken(queues[qi].value, k, pid))]
  }

  lemma {:induction false} TakenIntro(queues: Table<Queue>, queues': Table<Queue>, id: int, want: Want, r: Served,
                                      msgsz: nat, noerror: bool, pid: int, qi: nat, k: nat)
    requires qi < |queues| && IsQ(queues[qi], id) && IsPick(queues[qi].value.msgs, want, k)
    requires GrantOf(r, queues[qi].value.msgs[k], msgsz, noerror)
    requires queues' == queues[qi := Some(Taken(queues[qi].value, k, pid))]
    ensures TakenFrom(queues, queues', id, want, r, msgsz, noerror, pid)
  {
    PickMeans(queues[qi].value.msgs, want, k);
  }

  ghost predicate TooLong(queues: Table<Queue>, w: Waiter)
    requires w.job.RecvJob?
  {
    exists qi, k: nat :: 0 <= qi < |queues| && IsQ(queues[qi], w.id) && IsPick(queues[qi].value.msgs, w.job.want, k)
      && |queues[qi].value.msgs[k].data| > w.job.msgsz && !w.job.noerror
  }

  lemma {:induction false} TooLongIntro(queues: Table<Queue>, w: Waiter, qi: nat, k: nat)
    requires w.job.RecvJob? && qi < |queues| && IsQ(queues[qi], w.id) && IsPick(queues[qi].value.msgs, w.job.want, k)
    requires |queues[qi].value.msgs[k].data| > w.job.msgsz && !w.job.noerror
    ensures TooLong(queues, w)
  {
  }

  /** What a parked receive was woken with: the message POSIX names, taken for it;
      or that message left, being too long. */
  ghost predicate RecvWoken(w: Waiter, r: Reply, queues: Table<Queue>, queues': Table<Queue>) {
    w.job.RecvJob? &&
    if r.ret < 0 then r == Reply(w.seqno, -E2BIG, 0, []) && queues' == queues && TooLong(queues, w)
    else r.to == w.seqno && TakenFrom(queues, queues', w.id, w.job.want, Grant(r.ret, r.mtype, r.payload),
                                      w.job.msgsz, w.job.noerror, w.pid)
  }

  lemma {:induction false} RecvWokenIntro(w: Waiter, r: Reply, queues: Table<Queue>, queues': Table<Queue>, qi: nat,
                                          k: nat)
    requires w.job.RecvJob? && qi < |queues| && IsQ(queues[qi], w.id) && IsPick(queues[qi].value.msgs, w.job.want, k)
    requires queues' == queues[qi := Some(Taken(queues[qi].value, k, w.pid))]
    requires var m := queues[qi].value.msgs[k]; var n := Granted(m, w.job.msgsz);
             (|m.data| <= w.job.msgsz || w.job.noerror) && r == Reply(w.seqno, n, m.mtype, m.data[..n])
    ensures RecvWoken(w, r, queues, queues')
  {
    TakenIntro(queues, queues', w.id, w.job.want, Grant(r.ret, r.mtype, r.payload),
               w.job.msgsz, w.job.noerror, w.pid, qi, k);
  }

  /** ... and a parked send: its message queued. */
  ghost predicate MsgWoken(w: Waiter, r: Reply, queues: Table<Queue>, queues': Table<Queue>) {
    if w.job.SendJob? then r == Reply(w.seqno, 0, 0, []) && SentTo(queues, queues', w.id, w.job.msg, w.pid)
    else RecvWoken(w, r, queues, queues')
  }

  lemma {:induction false} SettledStart(a: Mid, si: nat, id: int, world: World)
    requires si < |a.sets| && Is(a.sets[si], id)
    ensures SettledTo(a, a, si, id, world, 0)
  {
  }

  lemma {:induction false} SettledSkip(a: Mid, b: Mid, si: nat, id: int, world: World, i: nat)
    requires SettledTo(a, b, si, id, world, i) && i < |a.undo| && !DeadOn(b.undo[i], id, world)
    ensures SettledTo(a, b, si, id, world, i + 1)
  {
    assert b.undo[i] == a.undo[i];
  }

  // ---- the dead on every set ----

  ghost predicate SetSettled(a: Mid, b: Mid, world: World, i: nat, j: nat)
    requires i <= |a.undo| && j < |a.sets| == |b.sets|
  {
    && (b.sets[j].Some? <==> a.sets[j].Some?)
    && (a.sets[j].Some? ==>
          var s, s' := a.sets[j].value, b.sets[j].value;
          SameButVals(s, s') && s'.vals == AfterAll(s.vals, s.id, DeadOnly(a.undo, world), i))
  }

  /** The first `i` rows have been seen to: those of the dead are applied, in
      order, and gone. */
  ghost predicate AllSettledTo(a: Mid, b: Mid, world: World, i: nat) {
    && |b.sets| == |a.sets| && i <= |a.undo| == |b.undo|
    && (forall j :: 0 <= j < |a.sets| ==> SetSettled(a, b, world, i, j))
    && b.log == a.log + Deaths(a.undo, None, world, i)
    && forall k :: 0 <= k < |a.undo| ==> b.undo[k] == if k < i && DeadRow(a.undo[k], world) then None else a.undo[k]
  }

  lemma {:induction false} AllSettledStart(a: Mid, world: World)
    ensures AllSettledTo(a, a, world, 0)
  {
    forall j | 0 <= j < |a.sets| ensures SetSettled(a, a, world, 0, j) { }
  }

  lemma {:induction false} AllSettledSkip(a: Mid, b: Mid, world: World, i: nat)
    requires AllSettledTo(a, b, world, i) && i < |a.undo| && !DeadRow(b.undo[i], world)
    ensures AllSettledTo(a, b, world, i + 1)
  {
    assert b.undo[i] == a.undo[i];
    var next := i + 1;
    forall j | 0 <= j < |a.sets| ensures SetSettled(a, b, world, next, j) { assert SetSettled(a, b, world, i, j); }
  }

  lemma {:induction false} AllSettledMore(a: Mid, b: Mid, c: Mid, world: World, i: nat, at: nat)
    requires AllSettledTo(a, b, world, i) && i < |a.undo| && DeadRow(b.undo[i], world) && SetsOk(b.sets)
    requires c.undo == b.undo[i := None] && c.log == b.log + [DeathOf(b.undo[i].value)]
    requires Applied(b.sets, b.undo[i].value, c.sets, at)
    ensures AllSettledTo(a, c, world, i + 1)
  {
    assert b.undo[i] == a.undo[i];
    var d, x := Deaths(a.undo, None, world, i), DeathOf(a.undo[i].value);
    assert a.log + d + [x] == a.log + (d + [x]);
    var next := i + 1;
    forall j | 0 <= j < |a.sets| ensures SetSettled(a, c, world, next, j) {
      assert SetSettled(a, b, world, i, j);
      SetSettledMore(a, b, c, world, i, at, j);
    }
  }

  lemma {:induction false} SetSettledMore(a: Mid, b: Mid, c: Mid, world: World, i: nat, at: nat, j: nat)
    requires i < |a.undo| == |b.undo| && j < |a.sets| == |b.sets| && SetSettled(a, b, world, i, j)
    requires b.undo[i] == a.undo[i] && DeadRow(a.undo[i], world) && SetsOk(b.sets)
    requires Applied(b.sets, a.undo[i].value, c.sets, at)
    ensures |c.sets| == |b.sets| && SetSettled(a, c, world, i + 1, j)
  {
    assert DeadOnly(a.undo, world)[i] == a.undo[i];
    if j != at { assert ApartSets(b.sets[j], b.sets[at]); }
  }

  /** Every semaphore with room for all its rows keeps its ledger, and a set whose
      holders are all dead has its ledger for values. */
  ghost predicate Restored(a: Mid, b: Mid, world: World) {
    |b.sets| == |a.sets| && forall i :: 0 <= i < |a.sets| && a.sets[i].Some? && b.sets[i].Some? ==>
      var s, s' := a.sets[i].value, b.sets[i].value;
      && LedgerKept(s, a.undo, a.log, b.log)
      && (AllDead(a.undo, s.id, world) ==> s'.vals == FaceOf(b.log, s.id).ledger)
  }

  /** ... as long as deaths are being seen to. */
  ghost predicate AllRoomy(a: Mid, b: Mid) {
    |b.sets| == |a.sets| && forall i :: 0 <= i < |a.sets| && a.sets[i].Some? && b.sets[i].Some? ==>
      StillRoomy(a.sets[i].value, a.undo, a.log, b.sets[i].value, b.undo, b.log)
  }

  lemma {:induction false} AllRoomyStart(a: Mid)
    requires LogOk(a.sets, a.undo, a.log)
    ensures AllRoomy(a, a)
  {
    forall i | 0 <= i < |a.sets| && a.sets[i].Some?
      ensures StillRoomy(a.sets[i].value, a.undo, a.log, a.sets[i].value, a.undo, a.log)
    {
      RoomyStart(a.sets[i].value, a.undo, a.log);
    }
  }

  /** A death on another set. */
  lemma {:induction false} RoomyElse(s: SemSet, undo: Table<UndoRow>, log: seq<Move>, t: SemSet, b: Mid, c: Mid,
                                     ui: nat)
    requires t.id == s.id && |t.vals| == |s.vals| && ui < |b.undo| && b.undo[ui].Some? && b.undo[ui].value.semid != s.id
    requires StillRoomy(s, undo, log, t, b.undo, b.log)
    requires c.undo == b.undo[ui := None] && c.log == b.log + [DeathOf(b.undo[ui].value)]
    ensures StillRoomy(s, undo, log, t, c.undo, c.log)
  {
    FaceMore(b.log, DeathOf(b.undo[ui].value), s.id);
    forall n | 0 <= n < |s.vals| && Roomy(s, undo, n) ensures Roomy(t, c.undo, n) {
      SumUpdate(b.undo, UndoOrder.Gives(AdjTerm(s.id, n)), ui, None);
      SumUpdate(b.undo, UndoOrder.Takes(AdjTerm(s.id, n)), ui, None);
    }
  }

  lemma {:induction false} AllRoomyMore(a: Mid, b: Mid, c: Mid, ui: nat, at: nat)
    requires SetsOk(b.sets) && UndoOk(b.sets, b.undo) && LogOk(b.sets, b.undo, b.log)
    requires AllRoomy(a, b) && ui < |b.undo| && b.undo[ui].Some?
    requires forall i :: 0 <= i < |a.sets| && a.sets[i].Some? && b.sets[i].Some? ==>
               SameButVals(a.sets[i].value, b.sets[i].value)
    requires Applied(b.sets, b.undo[ui].value, c.sets, at)
    requires c.undo == b.undo[ui := None] && c.log == b.log + [DeathOf(b.undo[ui].value)]
    ensures AllRoomy(a, c)
  {
    forall i | 0 <= i < |a.sets| && a.sets[i].Some? && c.sets[i].Some?
      ensures StillRoomy(a.sets[i].value, a.undo, a.log, c.sets[i].value, c.undo, c.log)
    {
      var s := a.sets[i].value;
      if i == at {
        RoomyMore(s, a.undo, a.log, b, c, i, ui);
      } else {
        assert ApartSets(b.sets[i], b.sets[at]);
        RoomyElse(s, a.undo, a.log, b.sets[i].value, b, c, ui);
      }
    }
  }

  lemma {:induction false} RestoredEnd(a: Mid, b: Mid, world: World)
    requires AllSettledTo(a, b, world, |a.undo|) && AllRoomy(a, b) && LogOk(b.sets, b.undo, b.log)
    ensures Restored(a, b, world)
  {
    forall i | 0 <= i < |a.sets| && a.sets[i].Some? && b.sets[i].Some? && AllDead(a.undo, a.sets[i].value.id, world)
      ensures b.sets[i].value.vals == FaceOf(b.log, a.sets[i].value.id).ledger
    {
      assert SetSettled(a, b, world, |a.undo|, i);
      NoRowsNoDebt(b.sets[i].value, b.undo, b.log);
    }
  }

  // ---- semaphore requests ----

  lemma {:induction false} RowsFitSet(sets: Table<SemSet>, undo: Table<UndoRow>, si: nat)
    requires SetsOk(sets) && UndoOk(sets, undo) && si < |sets| && sets[si].Some?
    ensures forall k :: 0 <= k < |undo| && OnSet(undo[k], sets[si].value.id) ==>
              |undo[k].value.adj| == |sets[si].value.vals|
  {
    forall k | 0 <= k < |undo| && OnSet(undo[k], sets[si].value.id)
      ensures |undo[k].value.adj| == |sets[si].value.vals|
    {
      RowLength(sets, undo, si, k);
    }
  }

  /** The set's rows are gone, the others as they were. */
  ghost predicate RowsGone(undo: Table<UndoRow>, undo': Table<UndoRow>, semid: int) {
    |undo'| == |undo| && forall k :: 0 <= k < |undo| ==> undo'[k] == if OnSet(undo[k], semid) then None else undo[k]
  }

  /** A set of zeros under a new id, in a slot that was free. */
  ghost predicate NewSet(sets: Table<SemSet>, sets': Table<SemSet>, id: int, key: int, nsems: nat, p: Perm) {
    && (forall i :: 0 <= i < |sets| ==> !Is(sets[i], id))
    && exists slot :: 0 <= slot < |sets| && sets[slot].None?
         && sets' == sets[slot := Some(SemSet(id, key, p, Zeros(nsems), Zeros(nsems)))]
  }

  ghost predicate Keyed(slot: Option<SemSet>, key: int) {
    slot.Some? && key != 0 && slot.value.key == key
  }

  ghost predicate KeyFree(sets: Table<SemSet>, key: int) {
    forall i :: 0 <= i < |sets| ==> !Keyed(sets[i], key)
  }

  ghost predicate Known(sets: Table<SemSet>, id: int) {
    id > 0 && exists i :: 0 <= i < |sets| && Is(sets[i], id)
  }

  /** The right a vector needs: to alter, or only to read. */
  predicate MayOp(s: SemSet, ops: seq<SemBuf>, c: Caller) {
    Access(s.perm, c.uid, c.gid, if exists i :: 0 <= i < |ops| && ops[i].op != 0 then 2 else 4)
  }

  /** An attempt's outcome, as it is answered: one that blocks is parked, or told EAGAIN
      where every place is taken. */
  ghost predicate AnsweredSo(t: Try, r: Served, full: bool) {
    match t
    case Done => r == Answer(0)
    case Refused(errno) => r == Answer(-errno)
    case Blocked(_) => r == Parked || (full && r == Answer(-EAGAIN))
  }

  /** What a semop may come to on its set: a number out of range, no right, or what
      an attempt comes to. */
  ghost predicate SemAnswer(s: SemSet, log: seq<Move>, ops: seq<SemBuf>, c: Caller, r: Served, full: bool,
                            short: bool) {
    match s
    case x =>
      if !InSet(ops, |x.vals|) then r == Answer(-EFBIG)
      else if !Access(x.perm, c.uid, c.gid, if exists i :: 0 <= i < |ops| && ops[i].op != 0 then 2 else 4) then
        r == Answer(-EACCES)
      else exists t :: Judged(x, log, c.pid, ops, t, short) && AnsweredSo(t, r, full)
  }

  lemma {:induction false} SemAnswerIntro(s: SemSet, log: seq<Move>, ops: seq<SemBuf>, c: Caller, t: Try, r: Served,
                                          full: bool, short: bool)
    requires InSet(ops, |s.vals|) && MayOp(s, ops, c) && Judged(s, log, c.pid, ops, t, short) && AnsweredSo(t, r, full)
    ensures SemAnswer(s, log, ops, c, r, full, short)
  {
  }

  lemma {:induction false} SemAnswerNot(s: SemSet, log: seq<Move>, ops: seq<SemBuf>, c: Caller, full: bool, short: bool)
    requires !InSet(ops, |s.vals|) || !MayOp(s, ops, c)
    ensures SemAnswer(s, log, ops, c, Answer(if InSet(ops, |s.vals|) then -EACCES else -EFBIG), full, short)
  {
  }

  /** One waiter was parked: a semop of this caller's, which sleeps. */
  ghost predicate ParkedAsleep(wait: Table<Waiter>, n: nat, b': Books, sets: Table<SemSet>, queues: Table<Queue>,
                               id: int, ops: seq<SemBuf>, deadline: int, c: Caller, world: World) {
    b'.next == n + 1 &&
    exists w: Waiter :: SemWaiter(w, id, ops, deadline, c, world) && w.seqno == n && ParkedIn(wait, b'.wait, w)
      && Stuck(sets, b'.log, queues, w)
  }

  ghost predicate SemWaiter(w: Waiter, id: int, ops: seq<SemBuf>, deadline: int, c: Caller, world: World) {
    && w.id == id && w.pid == c.pid && w.start == world(c.pid).start && w.deadline == deadline
    && w.job.SemJob? && w.job.ops == ops
  }

  lemma {:induction false} AsleepIntro(b: Books, b': Books, sets: Table<SemSet>, queues: Table<Queue>, w: Waiter,
                                       c: Caller, world: World)
    requires w.job.SemJob? && ParkedIn(b.wait, b'.wait, w) && Stuck(sets, b'.log, queues, w)
    requires w.pid == c.pid && w.start == world(c.pid).start && w.seqno == b.next && b'.next == b.next + 1
    ensures ParkedAsleep(b.wait, b.next, b', sets, queues, w.id, w.job.ops, w.deadline, c, world)
  {
    assert SemWaiter(w, w.id, w.job.ops, w.deadline, c, world);
  }

  lemma {:induction false} SemJobOk(sets: Table<SemSet>, queues: Table<Queue>, si: nat, w: Waiter)
    requires si < |sets| && Is(sets[si], w.id) && w.job.SemJob? && InSet(w.job.ops, |sets[si].value.vals|)
    requires w.job.blk < |w.job.ops|
    ensures JobOk(sets, queues, w)
  {
    assert HasSet(sets, w.id, |sets[si].value.vals|);
  }

  /** Slot `w` is a semop asleep on semaphore `n`, for zero or for units. */
  ghost function SleeperTerm(id: int, n: int, zero: bool): Option<Waiter> -> int {
    (w: Option<Waiter>) =>
      if w.Some? && w.value.job.SemJob? && w.value.id == id && w.value.job.blk < |w.value.job.ops|
         && w.value.job.ops[w.value.job.blk].num == n
         && (if zero then w.value.job.ops[w.value.job.blk].op == 0 else w.value.job.ops[w.value.job.blk].op < 0)
      then 1 else 0
  }

  /** GETNCNT counts who waits for units, GETZCNT who waits for zero, on that semaphore
      of that set alone. */
  lemma {:induction false} SleeperSamples(w: Waiter, take: SemBuf, zero: SemBuf)
    requires take.num == zero.num == 2 && take.op == -1 && zero.op == 0 && w.id == 7
    ensures var taker, other := Some(w.(job := SemJob([zero, take], 1))), Some(w.(job := SemJob([zero, take], 0)));
            && SleeperTerm(7, 2, false)(taker) == 1 && SleeperTerm(7, 2, true)(taker) == 0
            && SleeperTerm(7, 2, false)(other) == 0 && SleeperTerm(7, 2, true)(other) == 1
            && SleeperTerm(7, 1, false)(taker) == 0 && SleeperTerm(8, 2, false)(taker) == 0
  {
    assert [zero, take][1] == take && [zero, take][0] == zero;
  }

  // ---- message requests ----

  function Newcomer(n: nat, c: Caller, world: World, id: int, deadline: int, job: Job): Waiter {
    Waiter(n, c.pid, world(c.pid).start, id, deadline, job)
  }

  /** What a send may come to on its queue: room means 0 and nothing else. */
  ghost predicate SendAnswer(q: Queue, m: Msg, nowait: bool, c: Caller, r: Served, full: bool) {
    if !Access(q.perm, c.uid, c.gid, 2) then r == Answer(-EACCES)
    else if !Full(q, |m.data|) then r == Answer(0)
    else if nowait || full then r == Answer(-EAGAIN)
    else r == Parked
  }

  /** What a receive may come to: a message that is there is granted. */
  ghost predicate RecvAnswer(q: Queue, want: Want, msgsz: nat, noerror: bool, nowait: bool, c: Caller, r: Served,
                             full: bool) {
    if !Access(q.perm, c.uid, c.gid, 4) then r == Answer(-EACCES)
    else if NoSuchType(q.msgs, want) then r == if nowait || full then Answer(-ENOMSG) else Parked
    else exists k: nat ::
      && TakesRight(q.msgs, want, k)
      && if |q.msgs[k].data| <= msgsz || noerror then GrantOf(r, q.msgs[k], msgsz, noerror) else r == Answer(-E2BIG)
  }

  ghost predicate KeyedQ(slot: Option<Queue>, key: int) {
    slot.Some? && key != 0 && slot.value.key == key
  }

  ghost predicate KeyFreeQ(queues: Table<Queue>, key: int) {
    forall i :: 0 <= i < |queues| ==> !KeyedQ(queues[i], key)
  }

  /** An empty queue under a new id, in a slot that was free. */
  ghost predicate NewQueue(queues: Table<Queue>, queues': Table<Queue>, id: int, key: int, p: Perm) {
    && !HasQueue(queues, id)
    && exists slot :: 0 <= slot < |queues| && queues[slot].None?
         && queues' == queues[slot := Some(Queue(id, key, p, [], 0, 0, MSGMNB, 0, 0))]
  }

  // ---- answers of semctl ----

  lemma {:induction false} KeysDiffer(sets: Table<SemSet>, key: int)
    requires KeyFree(sets, key)
    ensures forall i :: 0 <= i < |sets| && sets[i].Some? && key != 0 ==> sets[i].value.key != key
  {
    forall i | 0 <= i < |sets| && sets[i].Some? && key != 0 ensures sets[i].value.key != key {
      assert !Keyed(sets[i], key);
    }
  }

  lemma {:induction false} OneKey(sets: Table<SemSet>, k: nat, key: int)
    requires SetsOk(sets) && k < |sets| && key != 0 && sets[k].Some? && sets[k].value.key == key
    ensures !KeyFree(sets, key) && forall i :: 0 <= i < |sets| && Keyed(sets[i], key) ==> i == k
  {
    assert Keyed(sets[k], key);
    forall i | 0 <= i < |sets| && Keyed(sets[i], key) ensures i == k {
      assert i != k ==> ApartSets(sets[i], sets[k]);
    }
  }

  ghost function QueryAnswer(s: SemSet, wait: Table<Waiter>, cmd: Query, n: int): int
    requires 0 <= n < |s.vals|
  {
    match cmd
    case GetVal => s.vals[n]
    case GetPid => if n < |s.lpid| then s.lpid[n] else 0
    case GetNcnt => Sum(wait, SleeperTerm(s.id, n, false))
    case GetZcnt => Sum(wait, SleeperTerm(s.id, n, true))
  }

  function SetAllAnswer(s: SemSet, vals: seq<int>, c: Caller): Served {
    if |vals| != |s.vals| then Answer(-EINVAL)
    else if !Access(s.perm, c.uid, c.gid, 2) then Answer(-EACCES)
    else if exists n :: 0 <= n < |vals| && vals[n] > SEMVMX then Answer(-ERANGE)
    else Answer(0)
  }

  /** Every value of one set stored, and every debt on it forgotten. */
  ghost predicate AllStored(a: Mid, b: Mid, id: int, vals: seq<int>, pid: int) {
    && b.log == a.log + [SetMany(id, vals, pid)] && AllCleared(a.undo, b.undo, id, -1)
    && exists si :: 0 <= si < |a.sets| && Is(a.sets[si], id)
         && b.sets == a.sets[si := Some(a.sets[si].value.(vals := vals, lpid := Same(|vals|, pid)))]
  }

  /** One value of one set stored, and every debt on it forgotten. */
  ghost predicate OneStored(a: Mid, b: Mid, si: nat, id: int, n: int, v: int, pid: int) {
    && si < |a.sets| && Is(a.sets[si], id) && 0 <= n < |a.sets[si].value.vals| == |a.sets[si].value.lpid|
    && b.log == a.log + [SetOne(id, n, v, pid)] && AllCleared(a.undo, b.undo, id, n)
    && var s := a.sets[si].value; b.sets == a.sets[si := Some(s.(vals := s.vals[n := v], lpid := s.lpid[n := pid]))]
  }

  /** Set `si` alone has new permissions. */
  ghost predicate Reowned(sets: Table<SemSet>, sets': Table<SemSet>, si: nat, mode: nat, uid: nat, gid: nat) {
    && si < |sets| && sets[si].Some?
    && var s := sets[si].value; sets' == sets[si := Some(s.(perm := Regranted(s.perm, mode, uid, gid)))]
  }

  // ---- queues ----

  lemma {:induction false} KeysDifferQ(queues: Table<Queue>, key: int)
    requires KeyFreeQ(queues, key)
    ensures forall i :: 0 <= i < |queues| && queues[i].Some? && key != 0 ==> queues[i].value.key != key
  {
    forall i | 0 <= i < |queues| && queues[i].Some? && key != 0 ensures queues[i].value.key != key {
      assert !KeyedQ(queues[i], key);
    }
  }

  lemma {:induction false} OneKeyQ(queues: Table<Queue>, k: nat, key: int)
    requires QueuesOk(queues) && k < |queues| && key != 0 && queues[k].Some? && queues[k].value.key == key
    ensures !KeyFreeQ(queues, key) && forall i :: 0 <= i < |queues| && KeyedQ(queues[i], key) ==> i == k
  {
    assert KeyedQ(queues[k], key);
    forall i | 0 <= i < |queues| && KeyedQ(queues[i], key) ensures i == k {
      assert i != k ==> ApartQueues(queues[i], queues[k]);
    }
  }

  /** Ids are positive, so no queue is named by another number. */
  lemma {:induction false} NoSuchQueue(queues: Table<Queue>, id: int)
    requires QueuesOk(queues) && (id <= 0 || forall i :: 0 <= i < |queues| ==> !IsQ(queues[i], id))
    ensures forall i :: 0 <= i < |queues| ==> !IsQ(queues[i], id)
  {
    forall i | 0 <= i < |queues| && queues[i].Some? ensures queues[i].value.id > 0 { assert QueueOk(queues[i].value); }
  }

  /** The set a number names, wherever it is found. */
  lemma {:induction false} OneSet(sets: Table<SemSet>, si: nat, id: int)
    requires SetsOk(sets) && si < |sets| && Is(sets[si], id)
    ensures forall i :: 0 <= i < |sets| && Is(sets[i], id) ==> i == si
  {
    forall i | 0 <= i < |sets| && Is(sets[i], id) ensures i == si {
      assert i != si ==> ApartSets(sets[i], sets[si]);
    }
  }

  function Refitted(q: Queue, mode: nat, uid: nat, gid: nat, qbytes: nat): (q': Queue)
    ensures q'.perm.uid == uid && q'.perm.gid == gid && q'.perm.mode % 512 == mode % 512 && q'.qbytes == qbytes
    ensures q' == q.(perm := q.perm.(uid := uid, gid := gid, mode := q'.perm.mode), qbytes := qbytes)
  {
    q.(perm := Regranted(q.perm, mode, uid, gid), qbytes := qbytes)
  }

  /** The log has the receive, and the grant is of the message it took. */
  ghost predicate GrantLogged(mail: seq<Post>, mail': seq<Post>, id: int, want: Want, r: Served, msgsz: nat,
                              noerror: bool) {
    && mail' == mail + [Got(id, want, 0)]
    && var msgs := BoxOf(mail, id).msgs;
       Pick(msgs, want) >= 0 && GrantOf(r, msgs[Pick(msgs, want)], msgsz, noerror)
  }

  // ---- the right answer to a request ----

  /** The tables a request meets. */
  datatype Desk = Desk(sems: Mid, queues: Table<Queue>, wait: Table<Waiter>, scarce: bool)

  ghost predicate SemGetApt(sets: Table<SemSet>, key: int, nsems: nat, creat: bool, excl: bool, c: Caller, scarce: bool,
                            ret: int) {
    && (forall i :: 0 <= i < |sets| && Keyed(sets[i], key) ==>
          ret == if creat && excl then -EEXIST
                 else if |sets[i].value.vals| < nsems then -EINVAL
                 else if !Access(sets[i].value.perm, c.uid, c.gid, 4) then -EACCES
                 else sets[i].value.id)
    && (KeyFree(sets, key) ==>
          if key != 0 && !creat then ret == -ENOENT
          else if !(0 < nsems <= SEMMSL) then ret == -EINVAL
          else (ret > 0 && !Lives(sets, ret)) || (ret == -ENOSPC && Packed(sets)) || (ret == -ENOMEM && scarce))
  }

  ghost predicate SemOpApt(d: Desk, id: int, ops: seq<SemBuf>, c: Caller, world: World, r: Served) {
    if |ops| == 0 then r == Answer(-EINVAL)
    else if |ops| > SEMOPM then r == Answer(-E2BIG)
    else if d.scarce && r == Answer(-ENOMEM) then true
    else if !Known(d.sems.sets, id) then r == Answer(-EINVAL)
    else exists si: nat, mid ::
      DeadSettled(d.sems, mid, si, id, world) &&
      SemAnswer(mid.sets[si].value, mid.log, ops, c, r, Packed(d.wait), d.scarce || Packed(mid.undo))
  }

  ghost predicate SetValApt(d: Desk, id: int, n: int, v: int, c: Caller, world: World, ret: int) {
    if !(0 <= v <= SEMVMX) then ret == -ERANGE
    else if !Known(d.sems.sets, id) then ret == -EINVAL
    else exists si: nat, mid ::
      DeadSettled(d.sems, mid, si, id, world) &&
      ret == if n < 0 || n >= |mid.sets[si].value.vals| then -EINVAL
             else if !Access(mid.sets[si].value.perm, c.uid, c.gid, 2) then -EACCES else 0
  }

  ghost predicate SetAllApt(sets: Table<SemSet>, id: int, vals: seq<int>, c: Caller, scarce: bool, r: Served) {
    if |vals| == 0 || |vals| > SEMMSL then r == Dropped
    else (r == Dropped && scarce) || (r == Answer(-EINVAL) && !Known(sets, id)) ||
         exists si :: 0 <= si < |sets| && Is(sets[si], id) &&
           r == if |vals| != |sets[si].value.vals| then Answer(-EINVAL)
                else if !Access(sets[si].value.perm, c.uid, c.gid, 2) then Answer(-EACCES)
                else if exists n :: 0 <= n < |vals| && vals[n] > 32767 then Answer(-ERANGE)
                else Answer(0)
  }

  ghost predicate QueryApt(d: Desk, id: int, cmd: Query, n: int, c: Caller, world: World, ret: int) {
    if !Known(d.sems.sets, id) then ret == -EINVAL
    else exists si: nat, mid ::
      DeadSettled(d.sems, mid, si, id, world) &&
      ret == if !Access(mid.sets[si].value.perm, c.uid, c.gid, 4) then -EACCES
             else if n < 0 || n >= |mid.sets[si].value.vals| then -EINVAL
             else QueryAnswer(mid.sets[si].value, d.wait, cmd, n)
  }

  /** IPC_SET and IPC_RMID of a set are its owner's. */
  ghost predicate OwnApt(d: Desk, id: int, c: Caller, world: World, ret: int) {
    if !Known(d.sems.sets, id) then ret == -EINVAL
    else exists si: nat, mid ::
      DeadSettled(d.sems, mid, si, id, world) &&
      ret == if c.uid in {0, mid.sets[si].value.perm.uid, mid.sets[si].value.perm.cuid} then 0 else -EPERM
  }

  ghost predicate MsgGetApt(queues: Table<Queue>, key: int, creat: bool, excl: bool, c: Caller, ret: int) {
    && (forall i :: 0 <= i < |queues| && KeyedQ(queues[i], key) ==>
          ret == if creat && excl then -EEXIST
                 else if !Access(queues[i].value.perm, c.uid, c.gid, 4) then -EACCES
                 else queues[i].value.id)
    && (KeyFreeQ(queues, key) ==>
          if key != 0 && !creat then ret == -ENOENT
          else (ret > 0 && !HasQueue(queues, ret)) || (ret == -ENOSPC && Packed(queues)))
  }

  ghost predicate SendApt(d: Desk, id: int, m: Msg, nowait: bool, c: Caller, r: Served) {
    if |m.data| > MSGMAX || m.mtype <= 0 then r == Dropped
    else if d.scarce && r == Dropped then true
    else if !HasQueue(d.queues, id) then r == Answer(-EINVAL)
    else forall qi :: 0 <= qi < |d.queues| && IsQ(d.queues[qi], id) ==>
      SendAnswer(d.queues[qi].value, m, nowait, c, r, Packed(d.wait))
  }

  ghost predicate RecvApt(d: Desk, id: int, want: Want, msgsz: nat, noerror: bool, nowait: bool, c: Caller, r: Served) {
    if !HasQueue(d.queues, id) then r == Answer(-EINVAL)
    else forall qi :: 0 <= qi < |d.queues| && IsQ(d.queues[qi], id) ==>
      RecvAnswer(d.queues[qi].value, want, msgsz, noerror, nowait, c, r, Packed(d.wait))
  }

  ghost predicate ChangeApt(queues: Table<Queue>, id: int, qbytes: nat, c: Caller, ret: int) {
    if !HasQueue(queues, id) then ret == -EINVAL
    else forall qi :: 0 <= qi < |queues| && IsQ(queues[qi], id) ==>
      ret == if c.uid == 0 then 0
             else if c.uid in {queues[qi].value.perm.uid, queues[qi].value.perm.cuid} && qbytes <= MSGMNB then 0
             else -EPERM
  }

  ghost predicate OwnQApt(queues: Table<Queue>, id: int, c: Caller, ret: int) {
    if !HasQueue(queues, id) then ret == -EINVAL
    else forall qi :: 0 <= qi < |queues| && IsQ(queues[qi], id) ==>
      ret == if c.uid in {0, queues[qi].value.perm.uid, queues[qi].value.perm.cuid} then 0 else -EPERM
  }

  /** The answer is one the tables allow: every refusal has its reason, and where
      there is none the request is done. */
  ghost predicate Apt(d: Desk, e: Event, r: Served) {
    e.request.Some? &&
    match e.request.value
    case SemGetReq(key, nsems, creat, excl, _) =>
      r.Answer? && SemGetApt(d.sems.sets, key, nsems, creat, excl, e.caller, d.scarce, r.ret)
    case SemOpReq(id, ops, _) => SemOpApt(d, id, ops, e.caller, e.world, r)
    case SetValReq(id, n, v) => r.Answer? && SetValApt(d, id, n, v, e.caller, e.world, r.ret)
    case SetAllReq(id, vals) => SetAllApt(d.sems.sets, id, Ints(vals), e.caller, d.scarce, r)
    case SemQueryReq(id, cmd, n) => r.Answer? && QueryApt(d, id, cmd, n, e.caller, e.world, r.ret)
    case SemChangeReq(id, _, _, _) => r.Answer? && OwnApt(d, id, e.caller, e.world, r.ret)
    case SemRemoveReq(id) => r.Answer? && OwnApt(d, id, e.caller, e.world, r.ret)
    case MsgGetReq(key, creat, excl, _) => r.Answer? && MsgGetApt(d.queues, key, creat, excl, e.caller, r.ret)
    case MsgSndReq(id, m, nowait, _) => SendApt(d, id, m, nowait, e.caller, r)
    case MsgRcvReq(id, want, msgsz, noerror, nowait, _) => RecvApt(d, id, want, msgsz, noerror, nowait, e.caller, r)
    case MsgChangeReq(id, _, _, _, qbytes) => r.Answer? && ChangeApt(d.queues, id, qbytes, e.caller, r.ret)
    case MsgRemoveReq(id) => r.Answer? && OwnQApt(d.queues, id, e.caller, r.ret)
  }

  /** The waiters that have not reported, each in its place. */
  ghost predicate HeardOf(wait: Table<Waiter>, wait': Table<Waiter>, ready: seq<Ready>, n: nat)
    requires n <= |ready|
  {
    |wait'| == |wait| && forall k :: 0 <= k < |wait| ==>
      wait'[k] == if exists i :: 0 <= i < n && Numbered(wait[k], ready[i].seqno) then None else wait[k]
  }

  lemma {:induction false} HeardOfMore(wait: Table<Waiter>, wait1: Table<Waiter>, wait2: Table<Waiter>,
                                       ready: seq<Ready>, n: nat)
    requires n < |ready| && HeardOf(wait, wait1, ready, n) && |wait2| == |wait1|
    requires forall k :: 0 <= k < |wait1| ==>
               wait2[k] == if Numbered(wait1[k], ready[n].seqno) then None else wait1[k]
    ensures HeardOf(wait, wait2, ready, n + 1)
  {
    forall k | 0 <= k < |wait|
      ensures wait2[k] == if exists i :: 0 <= i < n + 1 && Numbered(wait[k], ready[i].seqno) then None else wait[k]
    {
      if Numbered(wait[k], ready[n].seqno) {
        assert wait1[k] == wait[k] || wait1[k].None?;
      } else if exists i :: 0 <= i < n + 1 && Numbered(wait[k], ready[i].seqno) {
        var i :| 0 <= i < n + 1 && Numbered(wait[k], ready[i].seqno);
        assert 0 <= i < n;
      }
    }
  }

  // ---- the dead, in a round ----

  lemma {:induction false} SameShapes(a: Mid, b: Mid, world: World, i: nat)
    requires AllSettledTo(a, b, world, i)
    ensures forall j :: 0 <= j < |a.sets| && a.sets[j].Some? && b.sets[j].Some? ==>
              SameButVals(a.sets[j].value, b.sets[j].value)
  {
    forall j | 0 <= j < |a.sets| && a.sets[j].Some? && b.sets[j].Some?
      ensures SameButVals(a.sets[j].value, b.sets[j].value)
    {
      assert SetSettled(a, b, world, i, j);
    }
  }

  lemma {:induction false} DeathsFair(b: Books, b': Books, undo: Table<UndoRow>, on: Option<int>, e: Event)
    requires b' == b.(log := b.log + Deaths(undo, on, e.world, |undo|))
    requires if on.Some? then Touches(e, on.value) else Looks(e)
    ensures Fair(b, b', e, None)
  {
    var d := Deaths(undo, on, e.world, |undo|);
    forall k | |b.log| <= k < |b'.log| ensures MoveDue(b'.log[k], b, b', e, None) && !b'.log[k].Did? {
      assert b'.log[k] == d[k - |b.log|];
    }
    FairLog(b, b', e, None);
  }

  /** The books moved as seeing to the dead moves them. */
  ghost predicate SeenTo(b: Books, b': Books, world: World) {
    forall e: Event :: e.world == world && Looks(e) ==> Fair(b, b', e, None)
  }

  lemma {:induction false} BuryFair(b: Books, b1: Books, b2: Books, a: Mid, mid: Mid, world: World)
    requires Swept(b, b1, Ended(world))
    requires AllSettledTo(a, mid, world, |a.undo|) && b1.log == a.log && b2 == b1.(log := mid.log)
    ensures SeenTo(b, b2, world)
  {
    forall e: Event | e.world == world && Looks(e) ensures Fair(b, b2, e, None) {
      assert SweepDue(Ended(world), e, None);
      DeathsFair(b1, b2, a.undo, None, e);
      FairJoin(b, b1, b2, e, None, None);
    }
  }

  lemma {:induction false} SeenTurned(b: Books, b1: Books, b2: Books, world: World)
    requires SeenTo(b, b1, world) && Turned(b1, b2)
    ensures SeenTo(b, b2, world)
  {
    forall e: Event | e.world == world && Looks(e) ensures Fair(b, b2, e, None) { FairJoin(b, b1, b2, e, None, None); }
  }

  lemma {:induction false} BuriedLive(a: Mid, mid: Mid, wait: Table<Waiter>, wait': Table<Waiter>, world: World)
    requires AllSettledTo(a, mid, world, |a.undo|) && LeftUpTo(wait, wait', Ended(world), |wait|)
    ensures AllLive(mid.undo, wait', world)
  {
    forall k | 0 <= k < |wait'| && wait'[k].Some? ensures LivesOn(world, wait'[k].value.pid, wait'[k].value.start) {
      assert wait'[k] == wait[k];
    }
  }

  /** Nobody parked is past its deadline. */
  ghost predicate Timely(wait: Table<Waiter>, now: int) {
    forall k :: 0 <= k < |wait| && wait[k].Some? ==> wait[k].value.deadline < 0 || now < wait[k].value.deadline
  }

  /** Seeing to the dead parks nobody. */
  lemma {:induction false} StillTimely(b: Books, b': Books, world: World, now: int)
    requires SeenTo(b, b', world) && Timely(b.wait, now)
    ensures Timely(b'.wait, now)
  {
    var e := Event(false, [], None, Caller(0, 0, 0), now, true, false, world);
    assert Fair(b, b', e, None);
    forall k | 0 <= k < |b'.wait| && b'.wait[k].Some?
      ensures b'.wait[k].value.deadline < 0 || now < b'.wait[k].value.deadline
    {
      assert Stood(b'.wait[k].value, b, e, None);
      var j :| 0 <= j < |b.wait| && b.wait[j].Some? && Plea(b.wait[j].value) == Plea(b'.wait[k].value);
      assert b.wait[j].value.deadline < 0 || now < b.wait[j].value.deadline;
    }
  }

  // ---- the request served, in a round ----

  /** The dead were settled on the set a request names, or it came to nothing
      before that. */
  lemma {:induction false} SettledFair(b: Books, b': Books, a: Mid, mid: Mid, si: nat, id: int, e: Event)
    requires mid == a || (DeadSettled(a, mid, si, id, e.world) && Touches(e, id))
    requires b.log == a.log && b' == b.(log := mid.log)
    ensures Fair(b, b', e, None)
  {
    if mid == a { FairNone(b, e, None); } else { DeathsFair(b, b', a.undo, Some(id), e); }
  }

  /** A request that moves no semaphore of its own. */
  lemma {:induction false} AskedFair(b: Books, b': Books, a: Mid, mid: Mid, si: nat, id: int, e: Event, r: Served)
    requires mid == a || (DeadSettled(a, mid, si, id, e.world) && Touches(e, id))
    requires b.log == a.log && b' == b.(log := mid.log) && Modest(e, r)
    ensures Just(b, b', e, Some(r))
  {
    SettledFair(b, b', a, mid, si, id, e);
    FairNone(b', e, Some(r));
    JustModest(b', b', e, r);
    JustAfter(b, b', b', e, Some(r));
  }

  /** One thing done to a semaphore, as asked. */
  lemma {:induction false} OneMoveFair(b: Books, b': Books, m: Move, e: Event, r: Served)
    requires b' == b.(log := b.log + [m]) && MoveDue(m, b, b', e, Some(r)) && Claims(m, e, r)
    ensures Just(b, b', e, Some(r))
  {
    FairLog(b, b', e, Some(r));
    assert b'.log[|b.log|] == m;
    assert Logged(b, b', m);
  }

  /** The answer claims no more than this. */
  ghost predicate Claims(m: Move, e: Event, r: Served) {
    && e.polled && e.request.Some? && !r.Parked? && !r.Grant?
    && match e.request.value
       case SemOpReq(id, ops, _) => m.Did? && m == Did(id, e.caller.pid, m.start, ops, 0)
       case SetValReq(id, n, v) => n >= 0 && m == SetOne(id, n, v, e.caller.pid)
       case SetAllReq(id, vals) => m == SetMany(id, Ints(vals), e.caller.pid)
       case SemRemoveReq(id) => m == Gone(id)
       case SemGetReq(_, _, _, _, _) => true
       case _ => false
  }

  /** The request asks for this, and is answered so. */
  ghost predicate AskedFor(m: Move, e: Event, r: Served) {
    Claims(m, e, r) && forall b, b' :: MoveDue(m, b, b', e, Some(r))
  }

  /** A semaphore request: the dead settled, and what it asked done at once. */
  lemma {:induction false} SettledMoveFair(b: Books, b': Books, a: Mid, mid: Mid, si: nat, id: int, m: Move,
                                           e: Event, r: Served)
    requires mid == a || (DeadSettled(a, mid, si, id, e.world) && Touches(e, id))
    requires b.log == a.log && b' == b.(log := mid.log + [m]) && AskedFor(m, e, r)
    ensures Just(b, b', e, Some(r))
  {
    var b1 := b.(log := mid.log);
    SettledFair(b, b1, a, mid, si, id, e);
    OneMoveFair(b1, b', m, e, r);
    JustAfter(b, b1, b', e, Some(r));
  }

  lemma {:induction false} ParkedFair(b: Books, b': Books, w: Waiter, e: Event)
    requires ParkedIn(b.wait, b'.wait, w) && CameWith(w, b, e)
    requires b' == b.(wait := b'.wait, next := b.next + 1, mail := b.mail + KeptOf(w))
    ensures Just(b, b', e, Some(Parked))
  {
    var wi :| 0 <= wi < |b.wait| && b.wait[wi].None? && b'.wait == b.wait[wi := Some(w)];
    FairPark(b, b', wi, w, e);
    Stands(b'.wait, wi);
    assert StaysOrParts(w, b, b', e);
  }

  /** A semop: the dead settled, and then nothing, or all of it, or a wait. */
  ghost predicate SemOpDid(b: Books, b': Books, a: Mid, mid: Mid, si: nat, sets: Table<SemSet>, queues: Table<Queue>,
                           id: int, ops: seq<SemBuf>, deadline: int, c: Caller, world: World, r: Served) {
    match (b, b')
    case (x, y) =>
      && (mid == a || DeadSettled(a, mid, si, id, world)) && x.log == a.log
      && y.replies == x.replies && y.mail == x.mail && (r.Answer? || r.Parked?)
      && (if r == Answer(0) then Committed(mid.sets, mid.log, sets, y.log, si, ops, c.pid, 0) && Is(mid.sets[si], id)
          else y.log == mid.log)
      && (if r.Parked? then ParkedAsleep(x.wait, x.next, y, sets, queues, id, ops, deadline, c, world)
          else y.wait == x.wait && y.next == x.next)
  }

  lemma {:induction false} SemOpNothing(b: Books, a: Mid, sets: Table<SemSet>, queues: Table<Queue>, id: int,
                                        ops: seq<SemBuf>, deadline: int, c: Caller, world: World, err: int)
    requires b.log == a.log && err != 0
    ensures SemOpDid(b, b, a, a, 0, sets, queues, id, ops, deadline, c, world, Answer(err))
  {
  }

  lemma {:induction false} SemOpFair(b: Books, b': Books, a: Mid, mid: Mid, si: nat, sets: Table<SemSet>,
                                     queues: Table<Queue>, e: Event, r: Served)
    requires e.polled && e.request.Some? && e.request.value.SemOpReq?
    requires var q := e.request.value;
             SemOpDid(b, b', a, mid, si, sets, queues, q.id, q.ops, q.deadline, e.caller, e.world, r)
    ensures Just(b, b', e, Some(r))
  {
    var q := e.request.value;
    if r == Answer(0) {
      assert b'.log == mid.log + [b'.log[|mid.log|]];
      assert AskedFor(b'.log[|mid.log|], e, r);
      SettledMoveFair(b, b', a, mid, si, q.id, b'.log[|mid.log|], e, r);
    } else if r.Parked? {
      var b1 := b.(log := mid.log);
      SettledFair(b, b1, a, mid, si, q.id, e);
      var w: Waiter :| SemWaiter(w, q.id, q.ops, q.deadline, e.caller, e.world) && w.seqno == b.next
                       && ParkedIn(b.wait, b'.wait, w) && Stuck(sets, b'.log, queues, w);
      assert b'.mail == b1.mail + KeptOf(w);
      ParkedFair(b1, b', w, e);
      JustAfter(b, b1, b', e, Some(r));
    } else {
      AskedFair(b, b', a, mid, si, q.id, e, r);
    }
  }

  /** A set removed: the dead settled, its sleepers told, and the set gone. */
  lemma {:induction false} RemovedFair(b: Books, b': Books, a: Mid, mid: Mid, si: nat, id: int, e: Event, ret: int)
    requires Asked(e, SemRemoveReq(id)) && (mid == a || DeadSettled(a, mid, si, id, e.world)) && b.log == a.log
    requires if ret == 0 then
               && b'.log == mid.log + [Gone(id)]
               && Swept(b.(log := mid.log), b'.(log := mid.log), Removed(id, true))
             else b' == b.(log := mid.log)
    ensures Just(b, b', e, Some(Answer(ret)))
  {
    if ret == 0 {
      var b0, b1, r := b.(log := mid.log), b'.(log := mid.log), Some(Answer(0));
      SettledFair(b, b0, a, mid, si, id, e);
      assert SweepDue(Removed(id, true), e, r);
      OneMoveFair(b1, b', Gone(id), e, Answer(0));
      FairJoin(b0, b1, b', e, r, r);
      assert b'.log[|mid.log|] == Gone(id);
      assert Logged(b0, b', Gone(id));
      JustAfter(b, b0, b', e, r);
    } else {
      AskedFair(b, b', a, mid, si, id, e, Answer(ret));
    }
  }

  /** A queue removed: its sleepers told, and the queue gone with its messages. */
  lemma {:induction false} FreedFair(b: Books, b': Books, id: int, e: Event, r: Served)
    requires Asked(e, MsgRemoveReq(id)) && r == Answer(0) && b'.mail != [] && b'.mail[|b'.mail| - 1] == Freed(id)
    requires Swept(b, b'.(mail := b'.mail[..|b'.mail| - 1]), Removed(id, false))
    ensures Just(b, b', e, Some(r))
  {
    var b1 := b'.(mail := b'.mail[..|b'.mail| - 1]);
    assert SweepDue(Removed(id, false), e, Some(r));
    assert b'.mail == b1.mail + [Freed(id)];
    FairPost(b1, b', Freed(id), e, Some(r));
    FairJoin(b, b1, b', e, Some(r), Some(r));
    assert Posted(b, b', Freed(id));
  }

  /** A message request that was done at once. */
  ghost predicate PostAsked(x: Post, mail: seq<Post>, e: Event, r: Served) {
    match x
    case Opened(id) => e.polled && e.request.Some? && e.request.value.MsgGetReq? && r == Answer(id)
    case Sized(id, cap) => SizeAsked(e, id, cap) && r == Answer(0)
    case Sent(id, m) => SendAsked(e, id, m) && r == Answer(0) && RoomFor(mail, id, |m.data|)
    case Got(id, want, to) =>
      var msgs := BoxOf(mail, id).msgs;
      to == 0 && Pick(msgs, want) >= 0 && GrantedNow(e, Some(r), id, want, msgs[Pick(msgs, want)])
    case _ => false
  }

  lemma {:induction false} PostFair(b: Books, b': Books, x: Post, e: Event, r: Served)
    requires b' == b.(mail := b.mail + [x]) && PostAsked(x, b.mail, e, r)
    ensures Just(b, b', e, Some(r))
  {
    assert b'.mail[..|b.mail|] == b.mail && b'.mail[|b.mail|] == x;
    FairPost(b, b', x, e, Some(r));
    assert Posted(b, b', x);
  }

  /** A receive: its message granted, or a wait, or nothing. */
  lemma {:induction false} RecvFair(b: Books, b': Books, e: Event, r: Served)
    requires e.polled && e.request.Some? && e.request.value.MsgRcvReq?
    requires var q := e.request.value;
             if r.Grant? then
               GrantLogged(b.mail, b'.mail, q.id, q.want, r, q.msgsz, q.noerror) && b' == b.(mail := b'.mail)
             else if r.Parked? then
               && b' == b.(wait := b'.wait, next := b.next + 1)
               && ParkedIn(b.wait, b'.wait, Newcomer(b.next, e.caller, e.world, q.id, q.deadline,
                                                     RecvJob(q.want, q.msgsz, q.noerror)))
             else b' == b
    ensures Just(b, b', e, Some(r))
  {
    var q := e.request.value;
    if r.Grant? {
      PostFair(b, b', Got(q.id, q.want, 0), e, r);
    } else if r.Parked? {
      var w := Newcomer(b.next, e.caller, e.world, q.id, q.deadline, RecvJob(q.want, q.msgsz, q.noerror));
      assert b'.mail == b.mail + KeptOf(w);
      ParkedFair(b, b', w, e);
    } else {
      NothingFair(b, e, r);
    }
  }

  /** A send: its message queued, or held, or nothing. */
  lemma {:induction false} SendFair(b: Books, b': Books, e: Event, r: Served)
    requires e.polled && e.request.Some? && e.request.value.MsgSndReq? && !r.Grant?
    requires var q := e.request.value;
             if r == Answer(0) then b' == b.(mail := b.mail + [Sent(q.id, q.m)]) && RoomFor(b.mail, q.id, |q.m.data|)
             else if r.Parked? then
               var w := Newcomer(b.next, e.caller, e.world, q.id, q.deadline, SendJob(q.m));
               b' == b.(wait := b'.wait, next := b.next + 1, mail := b.mail + [Kept(w)]) && ParkedIn(b.wait, b'.wait, w)
             else b' == b
    ensures Just(b, b', e, Some(r))
  {
    var q := e.request.value;
    if r == Answer(0) {
      PostFair(b, b', Sent(q.id, q.m), e, r);
    } else if r.Parked? {
      ParkedFair(b, b', Newcomer(b.next, e.caller, e.world, q.id, q.deadline, SendJob(q.m)), e);
    } else {
      NothingFair(b, e, r);
    }
  }

  /** A request that came to nothing. */
  lemma {:induction false} NothingFair(b: Books, e: Event, r: Served)
    requires Modest(e, r)
    ensures Just(b, b, e, Some(r))
  {
    FairNone(b, e, Some(r));
    JustModest(b, b, e, r);
  }

  /** The reports up to `n` have been heard. */
  ghost predicate Heard(b: Books, b': Books, e: Event, n: nat)
  {
    match (b, b')
    case (x, y) => n <= |e.ready| && Fair(x, y, e, None) && HeardOf(x.wait, y.wait, e.ready, n)
  }

  lemma {:induction false} HeardMore(b: Books, b1: Books, b2: Books, e: Event, i: nat)
    requires Heard(b, b1, e, i) && e.polled && i < |e.ready| && |b2.wait| == |b1.wait|
    requires Swept(b1, b2, Reported(e.ready[i].seqno, e.ready[i].cancel))
    requires forall k :: 0 <= k < |b1.wait| ==>
               b2.wait[k] == if Numbered(b1.wait[k], e.ready[i].seqno) then None else b1.wait[k]
    ensures Heard(b, b2, e, i + 1)
  {
    HeardOfMore(b.wait, b1.wait, b2.wait, e.ready, i);
    assert e.ready[i] == Ready(e.ready[i].seqno, e.ready[i].cancel);
    assert SweepDue(Reported(e.ready[i].seqno, e.ready[i].cancel), e, None);
    FairJoin(b, b1, b2, e, None, None);
  }
}
