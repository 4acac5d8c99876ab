/** The semaphores' history. Everything that ever moved a semaphore is in a log,
    and the tables are what replaying the log gives: each set's values and
    sempids, what each process owes on it, and its ledger. */
module SemLog {
  import opened Errno
  import opened Slots
  import opened SemCore
  import opened SemAttempt
  import opened MsgCore
  import opened IpcTables

  /** What can move a semaphore of the set `id`: a vector applied (for the parked
      waiter `to`, or at once for 0), the row of a process that ended, semctl's
      stores, and the set made or removed. */
  datatype Move =
    | Did(id: int, pid: int, start: nat, ops: seq<SemBuf>, to: nat)
    | Died(id: int, pid: int, start: nat)
    | SetOne(id: int, n: nat, v: int, pid: int)
    | SetMany(id: int, vals: seq<int>, pid: int)
    | Made(id: int, nsems: nat)
    | Gone(id: int)

  /** What one process owes on a set, and the incarnation that owes it. */
  datatype Owed = Owed(start: nat, adj: seq<int>)

  /** A set's values, sempids and ledger. */
  datatype Face = Face(vals: seq<int>, lpid: seq<int>, ledger: seq<int>)

  ghost function OwedNext(d: Owed, m: Move, pid: int): Owed {
    match m
    case Did(_, p, start, ops, _) => if p == pid then Owed(start, Owe(d.adj, ops, |ops|)) else d
    case Died(_, p, start) => if p == pid && start == d.start then Owed(start, Zeros(|d.adj|)) else d
    case SetOne(_, n, _, _) => if n < |d.adj| then Owed(d.start, d.adj[n := 0]) else d
    case SetMany(_, _, _) => Owed(d.start, Zeros(|d.adj|))
    case Made(_, nsems) => if d.adj == [] then Owed(0, Zeros(nsems)) else d
    case Gone(_) => Owed(0, [])
  }

  ghost function Debt(log: seq<Move>, id: int, pid: int): Owed {
    if log == [] then Owed(0, [])
    else
      var d, m := Debt(log[..|log| - 1], id, pid), log[|log| - 1];
      if m.id == id then OwedNext(d, m, pid) else d
  }

  /** sempid after a row is applied: every semaphore it moved carries its pid. */
  function Stamped(lpid: seq<int>, adj: seq<int>, pid: int): (r: seq<int>)
    requires |lpid| == |adj|
    ensures |r| == |lpid|
  {
    seq(|lpid|, n requires 0 <= n < |lpid| => if adj[n] != 0 then pid else lpid[n])
  }

  ghost predicate Even(f: Face) {
    |f.vals| == |f.lpid| == |f.ledger|
  }

  /** A row of the incarnation that does owe is added, clamped; the ledger loses
      what the clamp took. */
  ghost function FaceDied(f: Face, d: Owed, m: Move): Face
    requires m.Died?
  {
    if m.start == d.start && Even(f) && |d.adj| == |f.vals| then
      Face(Undone(f.vals, d.adj, |f.vals|), Stamped(f.lpid, d.adj, m.pid), Settled(f.ledger, f.vals, d.adj))
    else f
  }

  ghost function FaceNext(f: Face, d: Owed, m: Move): Face {
    match m
    case Did(_, pid, _, ops, _) =>
      Face(Shift(f.vals, ops, |ops|), Stamp(f.lpid, ops, |ops|, pid), Plain(f.ledger, ops, |ops|))
    case Died(_, _, _) => FaceDied(f, d, m)
    case SetOne(_, n, v, pid) =>
      if Even(f) && n < |f.vals| then Face(f.vals[n := v], f.lpid[n := pid], f.ledger[n := v]) else f
    case SetMany(_, vals, pid) => Face(vals, Same(|vals|, pid), vals)
    case Made(_, nsems) => if f.ledger == [] then Face(Zeros(nsems), Zeros(nsems), Zeros(nsems)) else f
    case Gone(_) => Face([], [], [])
  }

  function Same(n: nat, x: int): (r: seq<int>)
    ensures |r| == n && forall i :: 0 <= i < n ==> r[i] == x
  {
    seq(n, _ => x)
  }

  ghost function Payer(m: Move): int {
    if m.Did? || m.Died? then m.pid else 0
  }

  ghost function FaceOf(log: seq<Move>, id: int): Face {
    if log == [] then Face([], [], [])
    else
      var rest, m := log[..|log| - 1], log[|log| - 1];
      if m.id == id then FaceNext(FaceOf(rest, id), Debt(rest, id, Payer(m)), m) else FaceOf(rest, id)
  }

  lemma {:induction false} DebtMore(log: seq<Move>, m: Move, id: int, pid: int)
    ensures Debt(log + [m], id, pid) == if m.id == id then OwedNext(Debt(log, id, pid), m, pid) else Debt(log, id, pid)
  {
    assert (log + [m])[..|log|] == log;
  }

  lemma {:induction false} FaceMore(log: seq<Move>, m: Move, id: int)
    ensures FaceOf(log + [m], id) ==
            if m.id == id then FaceNext(FaceOf(log, id), Debt(log, id, Payer(m)), m) else FaceOf(log, id)
  {
    assert (log + [m])[..|log|] == log;
  }

  // ---- the tables are the log's ----

  /** A row is the debt the log gives its process; a row of zeros may be of any
      incarnation. */
  ghost predicate RowIs(u: UndoRow, d: Owed) {
    u.adj == d.adj && (u.start == d.start || u.adj == Zeros(|u.adj|))
  }

  predicate OnSet(r: Option<UndoRow>, id: int) {
    r.Some? && r.value.semid == id
  }

  ghost predicate RowsAre(s: SemSet, undo: Table<UndoRow>, log: seq<Move>) {
    && (forall k :: 0 <= k < |undo| && OnSet(undo[k], s.id) ==>
          RowIs(undo[k].value, Debt(log, s.id, undo[k].value.pid)))
    && (forall pid :: HasRow(undo, pid, s.id) || Debt(log, s.id, pid).adj == Zeros(|s.vals|))
  }

  /** A set is as the log has it: values, sempids, everybody's debts, and its
      ledger, which is the value each semaphore would settle at. */
  ghost predicate SlotIs(s: SemSet, undo: Table<UndoRow>, log: seq<Move>) {
    var f := FaceOf(log, s.id);
    && s.vals == f.vals && s.lpid == f.lpid && LedgerRowOk(s, undo, f.ledger)
    && RowsAre(s, undo, log)
  }

  /** A set that is not there has nothing, and nobody owes anything on it. */
  ghost predicate Blank(log: seq<Move>, id: int) {
    FaceOf(log, id) == Face([], [], []) && forall pid :: Debt(log, id, pid).adj == []
  }

  ghost predicate Lives(sets: Table<SemSet>, id: int) {
    exists i :: 0 <= i < |sets| && Is(sets[i], id)
  }

  ghost predicate Blanks(sets: Table<SemSet>, log: seq<Move>) {
    forall id {:trigger Blank(log, id)} :: Lives(sets, id) || Blank(log, id)
  }

  /** Every operation of the vector could go through, in turn, where the log is. */
  ghost predicate GoesThrough(log: seq<Move>, id: int, pid: int, ops: seq<SemBuf>) {
    var vals, adj := FaceOf(log, id).vals, Debt(log, id, pid).adj;
    |adj| == |vals| && InSet(ops, |vals|) && AllGo(vals, adj, ops, |ops|, true)
  }

  ghost predicate MoveOk(log: seq<Move>, m: Move) {
    m.Did? ==> GoesThrough(log, m.id, m.pid, m.ops)
  }

  /** Every vector applied was one that could go through when it was. */
  ghost predicate Lawful(log: seq<Move>) {
    forall k :: 0 <= k < |log| ==> MoveOk(log[..k], log[k])
  }

  lemma {:induction false} LawfulMore(log: seq<Move>, m: Move)
    requires Lawful(log) && MoveOk(log, m)
    ensures Lawful(log + [m])
  {
    var log' := log + [m];
    forall k | 0 <= k < |log'| ensures MoveOk(log'[..k], log'[k]) {
      if k < |log| {
        assert log'[..k] == log[..k] && MoveOk(log[..k], log[k]);
      } else {
        assert log'[..k] == log;
      }
    }
  }

  ghost predicate LogOk(sets: Table<SemSet>, undo: Table<UndoRow>, log: seq<Move>) {
    && (forall i {:trigger SlotIs(sets[i].value, undo, log)} ::
          0 <= i < |sets| && sets[i].Some? ==> SlotIs(sets[i].value, undo, log))
    && Blanks(sets, log) && Lawful(log)
  }

  lemma {:induction false} BlankMore(log: seq<Move>, m: Move, id: int)
    requires Blank(log, id) && m.id != id
    ensures Blank(log + [m], id)
  {
    FaceMore(log, m, id);
    forall pid ensures Debt(log + [m], id, pid).adj == [] { DebtMore(log, m, id, pid); }
  }

  /** A set that moves, or is made, is there; what is not there is as blank as it
      was. */
  lemma {:induction false} BlanksMove(sets: Table<SemSet>, log: seq<Move>, m: Move, si: nat, s': SemSet)
    requires Blanks(sets, log) && si < |sets| && s'.id == m.id && (sets[si].Some? ==> sets[si].value.id == m.id)
    ensures Blanks(sets[si := Some(s')], log + [m])
  {
    var sets' := sets[si := Some(s')];
    assert Is(sets'[si], m.id);
    forall id | !Lives(sets', id) ensures Blank(log + [m], id) {
      StillThere(sets, sets', si, id);
      BlankMore(log, m, id);
    }
  }

  lemma {:induction false} StillThere(sets: Table<SemSet>, sets': Table<SemSet>, si: nat, id: int)
    requires |sets'| == |sets| && si < |sets| && sets' == sets[si := sets'[si]] && !Lives(sets', id)
    requires Is(sets[si], id) ==> Is(sets'[si], id)
    ensures !Lives(sets, id)
  {
    forall i | 0 <= i < |sets| ensures !Is(sets[i], id) { assert !Is(sets'[i], id); }
  }

  /** Two row tables that differ in rows of one set alone. */
  ghost predicate ElseSame(undo: Table<UndoRow>, undo': Table<UndoRow>, id: int) {
    && |undo'| == |undo|
    && forall k :: 0 <= k < |undo| ==>
         undo'[k] == undo[k] || ((undo[k].Some? ==> OnSet(undo[k], id)) && (undo'[k].Some? ==> OnSet(undo'[k], id)))
  }

  /** What moves one set leaves every other where it was. */
  lemma {:induction false} OtherSlot(s: SemSet, undo: Table<UndoRow>, undo': Table<UndoRow>, log: seq<Move>, m: Move)
    requires SlotIs(s, undo, log) && m.id != s.id && ElseSame(undo, undo', m.id)
    ensures SlotIs(s, undo', log + [m])
  {
    FaceMore(log, m, s.id);
    OtherRows(s, undo, undo', log, m);
    forall n | 0 <= n < |s.vals| ensures Balance(s, undo', n) == Balance(s, undo, n) {
      SumAgree(undo, undo', AdjTerm(s.id, n), AdjTerm(s.id, n));
    }
  }

  lemma {:induction false} OtherRows(s: SemSet, undo: Table<UndoRow>, undo': Table<UndoRow>, log: seq<Move>, m: Move)
    requires RowsAre(s, undo, log) && m.id != s.id && ElseSame(undo, undo', m.id)
    ensures RowsAre(s, undo', log + [m])
  {
    forall pid ensures Debt(log + [m], s.id, pid) == Debt(log, s.id, pid) { DebtMore(log, m, s.id, pid); }
    forall pid | !HasRow(undo', pid, s.id) ensures !HasRow(undo, pid, s.id) {
      forall k | 0 <= k < |undo| ensures !Holds(undo[k], pid, s.id) { assert !Holds(undo'[k], pid, s.id); }
    }
  }

  /** One set moved, as logged. */
  lemma {:induction false} LogMove(sets: Table<SemSet>, undo: Table<UndoRow>, undo': Table<UndoRow>, log: seq<Move>,
                                   m: Move, si: nat, s': SemSet)
    requires SetsOk(sets) && LogOk(sets, undo, log) && si < |sets| && Is(sets[si], m.id) && s'.id == m.id
    requires ElseSame(undo, undo', m.id) && SlotIs(s', undo', log + [m]) && MoveOk(log, m)
    ensures LogOk(sets[si := Some(s')], undo', log + [m])
  {
    LawfulMore(log, m);
    BlanksMove(sets, log, m, si, s');
    forall i | 0 <= i < |sets| && i != si && sets[i].Some? ensures SlotIs(sets[i].value, undo', log + [m]) {
      assert ApartSets(sets[i], sets[si]);
      OtherSlot(sets[i].value, undo, undo', log, m);
    }
  }

  // ---- a vector applied ----

  /** A committed vector moves the balances by its plain operations alone: what
      SEM_UNDO operations add to a value they take from a row. */
  lemma {:induction false} CommitBalance(s: SemSet, undo: Table<UndoRow>, s': SemSet, ui: int, row: UndoRow,
                                         adj: seq<int>, ops: seq<SemBuf>, n: nat)
    requires s'.id == s.id == row.semid && s'.vals == Shift(s.vals, ops, |ops|) && n < |s.vals| == |adj|
    requires RowSlot(undo, ui, row.pid, row.semid)
    requires adj == (if undo[ui].Some? then undo[ui].value.adj else Zeros(|s.vals|))
    requires row.adj == Owe(adj, ops, |ops|)
    ensures Balance(s', undo[ui := Some(row)], n) == Balance(s, undo, n) + Net(ops, n, |ops|) - NetUndo(ops, n, |ops|)
  {
    RowWriteSum(undo, ui, row, s.id, n);
    ShiftIsSum(s.vals, ops, |ops|, n);
    ShiftIsSum(adj, ops, |ops|, n);
  }

  lemma {:induction false} CommitLedger(s: SemSet, undo: Table<UndoRow>, s': SemSet, ui: int, row: UndoRow,
                                        adj: seq<int>, ops: seq<SemBuf>, l: seq<int>)
    requires s'.id == s.id == row.semid && s'.vals == Shift(s.vals, ops, |ops|) && |s.vals| == |adj|
    requires RowSlot(undo, ui, row.pid, row.semid)
    requires adj == (if undo[ui].Some? then undo[ui].value.adj else Zeros(|s.vals|))
    requires row.adj == Owe(adj, ops, |ops|) && LedgerRowOk(s, undo, l)
    ensures LedgerRowOk(s', undo[ui := Some(row)], Plain(l, ops, |ops|))
  {
    forall n | 0 <= n < |s'.vals| ensures Plain(l, ops, |ops|)[n] == Balance(s', undo[ui := Some(row)], n) {
      CommitBalance(s, undo, s', ui, row, adj, ops, n);
      PlainIsSum(l, ops, |ops|, n);
    }
  }

  lemma {:induction false} CommitRows(s: SemSet, undo: Table<UndoRow>, log: seq<Move>, s': SemSet, ui: int,
                                      row: UndoRow, ops: seq<SemBuf>, to: nat)
    requires RowsAre(s, undo, log) && RowsUnique(undo) && s'.id == s.id == row.semid && |s'.vals| == |s.vals|
    requires RowSlot(undo, ui, row.pid, row.semid)
    requires row.adj == Owe(Debt(log, s.id, row.pid).adj, ops, |ops|)
    ensures RowsAre(s', undo[ui := Some(row)], log + [Did(s.id, row.pid, row.start, ops, to)])
  {
    var undo', m := undo[ui := Some(row)], Did(s.id, row.pid, row.start, ops, to);
    forall pid
      ensures Debt(log + [m], s.id, pid) ==
              if pid == row.pid then Owed(row.start, row.adj) else Debt(log, s.id, pid)
    {
      DebtMore(log, m, s.id, pid);
    }
    forall k | 0 <= k < |undo'| && k != ui && OnSet(undo'[k], s.id) ensures undo'[k].value.pid != row.pid {
      assert !Holds(undo[k], row.pid, s.id);
    }
    forall pid | !HasRow(undo', pid, s.id) ensures pid != row.pid && !HasRow(undo, pid, s.id) {
      assert !Holds(undo'[ui], pid, s.id);
      forall k | 0 <= k < |undo| ensures !Holds(undo[k], pid, s.id) { assert !Holds(undo'[k], pid, s.id); }
    }
  }

  /** A row's place holds what its process owes. */
  lemma {:induction false} OwedAt(s: SemSet, undo: Table<UndoRow>, log: seq<Move>, ui: int, pid: int)
    requires RowsAre(s, undo, log) && RowSlot(undo, ui, pid, s.id)
    ensures Debt(log, s.id, pid).adj == if undo[ui].Some? then undo[ui].value.adj else Zeros(|s.vals|)
  {
  }

  ghost function Shifted(s: SemSet, ops: seq<SemBuf>, pid: int): SemSet {
    s.(vals := Shift(s.vals, ops, |ops|), lpid := Stamp(s.lpid, ops, |ops|, pid))
  }

  lemma {:induction false} CommitSlot(s: SemSet, undo: Table<UndoRow>, log: seq<Move>, ui: int, row: UndoRow,
                                      ops: seq<SemBuf>, to: nat)
    requires SlotIs(s, undo, log) && RowsUnique(undo) && row.semid == s.id && |row.adj| == |s.vals|
    requires RowSlot(undo, ui, row.pid, row.semid)
    requires row.adj == Owe(Debt(log, s.id, row.pid).adj, ops, |ops|)
    ensures SlotIs(Shifted(s, ops, row.pid), undo[ui := Some(row)], log + [Did(s.id, row.pid, row.start, ops, to)])
  {
    var s' := Shifted(s, ops, row.pid);
    FaceMore(log, Did(s.id, row.pid, row.start, ops, to), s.id);
    OwedAt(s, undo, log, ui, row.pid);
    CommitLedger(s, undo, s', ui, row, Debt(log, s.id, row.pid).adj, ops, FaceOf(log, s.id).ledger);
    CommitRows(s, undo, log, s', ui, row, ops, to);
  }

  /** A vector with no SEM_UNDO in it, by a process without a row. */
  lemma {:induction false} PlainSlot(s: SemSet, undo: Table<UndoRow>, log: seq<Move>, pid: int, ops: seq<SemBuf>,
                                     to: nat)
    requires SlotIs(s, undo, log) && !HasRow(undo, pid, s.id) && UndoFree(ops, |ops|)
    ensures SlotIs(Shifted(s, ops, pid), undo, log + [Did(s.id, pid, 0, ops, to)])
  {
    var s', l := Shifted(s, ops, pid), FaceOf(log, s.id).ledger;
    FaceMore(log, Did(s.id, pid, 0, ops, to), s.id);
    forall n | 0 <= n < |s'.vals| ensures Plain(l, ops, |ops|)[n] == Balance(s', undo, n) {
      NoUndoNetsZero(ops, n, |ops|);
      PlainIsSum(l, ops, |ops|, n);
      ShiftIsSum(s.vals, ops, |ops|, n);
    }
    PlainRows(s, undo, log, pid, ops, to);
  }

  lemma {:induction false} PlainRows(s: SemSet, undo: Table<UndoRow>, log: seq<Move>, pid: int, ops: seq<SemBuf>,
                                     to: nat)
    requires RowsAre(s, undo, log) && !HasRow(undo, pid, s.id) && UndoFree(ops, |ops|)
    ensures RowsAre(Shifted(s, ops, pid), undo, log + [Did(s.id, pid, 0, ops, to)])
  {
    var m := Did(s.id, pid, 0, ops, to);
    NoUndoOwesNothing(Zeros(|s.vals|), ops, |ops|);
    forall p ensures Debt(log + [m], s.id, p).adj == Debt(log, s.id, p).adj &&
                     (p != pid ==> Debt(log + [m], s.id, p) == Debt(log, s.id, p))
    {
      DebtMore(log, m, s.id, p);
    }
    forall k | 0 <= k < |undo| && OnSet(undo[k], s.id) ensures undo[k].value.pid != pid {
      assert !Holds(undo[k], pid, s.id);
    }
  }

  /** A new row of zeros shows nowhere. */
  lemma {:induction false} BlankRow(sets: Table<SemSet>, undo: Table<UndoRow>, log: seq<Move>, si: nat, ui: int,
                                    row: UndoRow)
    requires SetsOk(sets) && LogOk(sets, undo, log) && si < |sets| && Is(sets[si], row.semid)
    requires RowSlot(undo, ui, row.pid, row.semid) && undo[ui].None? && row.adj == Zeros(|sets[si].value.vals|)
    ensures LogOk(sets, undo[ui := Some(row)], log)
  {
    forall i | 0 <= i < |sets| && sets[i].Some? ensures SlotIs(sets[i].value, undo[ui := Some(row)], log) {
      if i != si { assert ApartSets(sets[i], sets[si]); }
      BlankSlot(sets[i].value, undo, log, ui, row);
    }
  }

  lemma {:induction false} BlankSlot(s: SemSet, undo: Table<UndoRow>, log: seq<Move>, ui: int, row: UndoRow)
    requires SlotIs(s, undo, log) && RowSlot(undo, ui, row.pid, row.semid) && undo[ui].None?
    requires row.adj == Zeros(|row.adj|) && (s.id == row.semid ==> |row.adj| == |s.vals|)
    ensures SlotIs(s, undo[ui := Some(row)], log)
  {
    var undo' := undo[ui := Some(row)];
    forall n | 0 <= n < |s.vals| ensures Balance(s, undo', n) == Balance(s, undo, n) {
      RowWriteSum(undo, ui, row, s.id, n);
    }
    forall pid | !HasRow(undo', pid, s.id) ensures !HasRow(undo, pid, s.id) {
      forall k | 0 <= k < |undo| ensures !Holds(undo[k], pid, s.id) { assert !Holds(undo'[k], pid, s.id); }
    }
  }

  // ---- a process that ended ----

  ghost function Reaped(s: SemSet, u: UndoRow): SemSet
    requires |u.adj| == |s.vals| == |s.lpid|
  {
    s.(vals := Undone(s.vals, u.adj, |s.vals|), lpid := Stamped(s.lpid, u.adj, u.pid))
  }

  lemma {:induction false} DeathLedger(s: SemSet, undo: Table<UndoRow>, l: seq<int>, ui: nat, n: nat)
    requires LedgerRowOk(s, undo, l) && ui < |undo| && OnSet(undo[ui], s.id)
    requires n < |s.vals| == |undo[ui].value.adj| == |s.lpid|
    ensures Settled(l, s.vals, undo[ui].value.adj)[n] == Balance(Reaped(s, undo[ui].value), undo[ui := None], n)
  {
    SumUpdate(undo, AdjTerm(s.id, n), ui, None);
  }

  lemma {:induction false} DeathRows(s: SemSet, undo: Table<UndoRow>, log: seq<Move>, ui: nat)
    requires RowsAre(s, undo, log) && RowsUnique(undo) && ui < |undo| && OnSet(undo[ui], s.id)
    requires |undo[ui].value.adj| == |s.vals| == |s.lpid|
    ensures var u := undo[ui].value; RowsAre(Reaped(s, u), undo[ui := None], log + [Died(s.id, u.pid, u.start)])
  {
    var u, undo' := undo[ui].value, undo[ui := None];
    var m := Died(s.id, u.pid, u.start);
    forall pid
      ensures pid != u.pid ==> Debt(log + [m], s.id, pid) == Debt(log, s.id, pid)
      ensures pid == u.pid ==> Debt(log + [m], s.id, pid).adj == Zeros(|s.vals|)
    {
      DebtMore(log, m, s.id, pid);
    }
    forall k | 0 <= k < |undo'| && OnSet(undo'[k], s.id) ensures undo'[k].value.pid != u.pid {
      assert if k < ui then !Holds(undo[ui], undo[k].value.pid, s.id) else !Holds(undo[k], u.pid, s.id);
    }
    forall pid | pid != u.pid && !HasRow(undo', pid, s.id) ensures !HasRow(undo, pid, s.id) {
      forall k | 0 <= k < |undo| ensures !Holds(undo[k], pid, s.id) { assert !Holds(undo'[k], pid, s.id); }
    }
  }

  /** A row of zeros changes nothing when it is applied. */
  lemma {:induction false} ZeroRow(s: SemSet, adj: seq<int>, pid: int, l: seq<int>)
    requires adj == Zeros(|s.vals|) && ValsOk(s.vals) && |s.lpid| == |l| == |s.vals|
    ensures Undone(s.vals, adj, |s.vals|) == s.vals && Stamped(s.lpid, adj, pid) == s.lpid
    ensures Settled(l, s.vals, adj) == l
  {
  }

  lemma {:induction false} DeathFace(s: SemSet, undo: Table<UndoRow>, log: seq<Move>, ui: nat)
    requires SlotIs(s, undo, log) && SetOk(s) && ui < |undo| && OnSet(undo[ui], s.id)
    requires |undo[ui].value.adj| == |s.vals|
    ensures var u, s' := undo[ui].value, Reaped(s, undo[ui].value);
            FaceOf(log + [Died(s.id, u.pid, u.start)], s.id) ==
            Face(s'.vals, s'.lpid, Settled(FaceOf(log, s.id).ledger, s.vals, u.adj))
  {
    var u := undo[ui].value;
    FaceMore(log, Died(s.id, u.pid, u.start), s.id);
    if u.start != Debt(log, s.id, u.pid).start { ZeroRow(s, u.adj, u.pid, FaceOf(log, s.id).ledger); }
  }

  lemma {:induction false} DeathSlot(s: SemSet, undo: Table<UndoRow>, log: seq<Move>, ui: nat)
    requires SlotIs(s, undo, log) && SetOk(s) && RowsUnique(undo)
    requires ui < |undo| && OnSet(undo[ui], s.id) && |undo[ui].value.adj| == |s.vals|
    ensures var u := undo[ui].value; SlotIs(Reaped(s, u), undo[ui := None], log + [Died(s.id, u.pid, u.start)])
  {
    var u := undo[ui].value;
    DeathFace(s, undo, log, ui);
    DeathRows(s, undo, log, ui);
    forall n | 0 <= n < |s.vals|
      ensures Settled(FaceOf(log, s.id).ledger, s.vals, u.adj)[n] == Balance(Reaped(s, u), undo[ui := None], n)
    {
      DeathLedger(s, undo, FaceOf(log, s.id).ledger, ui, n);
    }
  }

  // ---- semctl's stores ----

  /** SETVAL (n >= 0) or SETALL (n < 0), as the log has it. */
  ghost function Stored(s: SemSet, n: int, pid: int): Move
    requires n < |s.vals|
  {
    if n < 0 then SetMany(s.id, s.vals, pid) else SetOne(s.id, n, s.vals[n], pid)
  }

  lemma {:induction false} StoreRows(s: SemSet, undo: Table<UndoRow>, undo': Table<UndoRow>, log: seq<Move>,
                                     s': SemSet, n: int, pid: int)
    requires RowsAre(s, undo, log) && s'.id == s.id && |s'.vals| == |s.vals| && n < |s.vals|
    requires AllCleared(undo, undo', s.id, n)
    requires forall k :: 0 <= k < |undo| && OnSet(undo[k], s.id) ==> |undo[k].value.adj| == |s.vals|
    ensures RowsAre(s', undo', log + [Stored(s', n, pid)])
  {
    var m := Stored(s', n, pid);
    forall p ensures Debt(log + [m], s.id, p) == OwedNext(Debt(log, s.id, p), m, p) { DebtMore(log, m, s.id, p); }
    forall k | 0 <= k < |undo'| && OnSet(undo'[k], s.id)
      ensures RowIs(undo'[k].value, Debt(log + [m], s.id, undo'[k].value.pid))
    {
      assert undo'[k] == Cleared(undo[k], s.id, n);
      ClearedRow(undo[k].value, Debt(log, s.id, undo[k].value.pid), s', n, pid);
    }
    forall p | !HasRow(undo', p, s.id) ensures Debt(log + [m], s.id, p).adj == Zeros(|s.vals|) {
      forall k | 0 <= k < |undo| ensures !Holds(undo[k], p, s.id) { assert !Holds(undo'[k], p, s.id); }
      assert !HasRow(undo, p, s.id);
    }
  }

  lemma {:induction false} ClearedRow(u: UndoRow, d: Owed, s': SemSet, n: int, pid: int)
    requires RowIs(u, d) && u.semid == s'.id && |u.adj| == |s'.vals| && n < |s'.vals|
    ensures RowIs(Cleared(Some(u), s'.id, n).value, OwedNext(d, Stored(s', n, pid), u.pid))
  {
  }

  /** Setting a value settles it: whatever was owed on it is forgotten, and its
      balance is the value. */
  lemma {:induction false} StoreLedger(s: SemSet, undo: Table<UndoRow>, undo': Table<UndoRow>, l: seq<int>,
                                       s': SemSet, n: int)
    requires LedgerRowOk(s, undo, l) && s'.id == s.id && |s'.vals| == |s.vals| && n < |s.vals|
    requires AllCleared(undo, undo', s.id, n)
    requires n >= 0 ==> forall k :: 0 <= k < |s.vals| && k != n ==> s'.vals[k] == s.vals[k]
    ensures LedgerRowOk(s', undo', if n < 0 then s'.vals else l[n := s'.vals[n]])
  {
    forall k | 0 <= k < |s'.vals| ensures (if n < 0 then s'.vals else l[n := s'.vals[n]])[k] == Balance(s', undo', k) {
      if n < 0 || k == n {
        forall j | 0 <= j < |undo'| ensures AdjTerm(s.id, k)(undo'[j]) == 0 {
          assert undo'[j] == Cleared(undo[j], s.id, n);
        }
        SumZero(undo', AdjTerm(s.id, k));
      } else {
        SumAgree(undo, undo', AdjTerm(s.id, k), AdjTerm(s.id, k));
      }
    }
  }

  lemma {:induction false} StoreSlot(s: SemSet, undo: Table<UndoRow>, undo': Table<UndoRow>, log: seq<Move>,
                                     s': SemSet, n: int, pid: int)
    requires SlotIs(s, undo, log) && |s.vals| == |s.lpid| && n < |s.vals| && AllCleared(undo, undo', s.id, n)
    requires forall k :: 0 <= k < |undo| && OnSet(undo[k], s.id) ==> |undo[k].value.adj| == |s.vals|
    requires s'.id == s.id && |s'.vals| == |s.vals|
    requires if n < 0 then s'.lpid == Same(|s.vals|, pid)
             else s'.vals == s.vals[n := s'.vals[n]] && s'.lpid == s.lpid[n := pid]
    ensures SlotIs(s', undo', log + [Stored(s', n, pid)])
  {
    var m := Stored(s', n, pid);
    FaceMore(log, m, s.id);
    StoreRows(s, undo, undo', log, s', n, pid);
    StoreLedger(s, undo, undo', FaceOf(log, s.id).ledger, s', n);
  }

  // ---- sets made and removed ----

  lemma {:induction false} MadeOk(sets: Table<SemSet>, undo: Table<UndoRow>, log: seq<Move>, si: nat, s: SemSet)
    requires LogOk(sets, undo, log) && si < |sets| && NoneOn(undo, s.id) && s.vals == s.lpid == Zeros(|s.vals|)
    requires sets[si].None? && forall i :: 0 <= i < |sets| && sets[i].Some? ==> sets[i].value.id != s.id
    ensures LogOk(sets[si := Some(s)], undo, log + [Made(s.id, |s.vals|)])
  {
    var m := Made(s.id, |s.vals|);
    assert !Lives(sets, s.id);
    assert Blank(log, s.id);
    LawfulMore(log, m);
    BlanksMove(sets, log, m, si, s);
    FaceMore(log, m, s.id);
    forall pid ensures Debt(log + [m], s.id, pid).adj == Zeros(|s.vals|) { DebtMore(log, m, s.id, pid); }
    forall n | 0 <= n < |s.vals| ensures Balance(s, undo, n) == 0 { SumZero(undo, AdjTerm(s.id, n)); }
    forall i | 0 <= i < |sets| && sets[i].Some? ensures SlotIs(sets[i].value, undo, log + [m]) {
      OtherSlot(sets[i].value, undo, undo, log, m);
    }
  }

  lemma {:induction false} GoneOk(sets: Table<SemSet>, undo: Table<UndoRow>, undo': Table<UndoRow>, log: seq<Move>,
                                  si: nat)
    requires SetsOk(sets) && LogOk(sets, undo, log) && si < |sets| && sets[si].Some?
    requires ElseSame(undo, undo', sets[si].value.id)
    ensures LogOk(sets[si := None], undo', log + [Gone(sets[si].value.id)])
  {
    GoneBlank(sets, log, si);
    LawfulMore(log, Gone(sets[si].value.id));
    forall i | 0 <= i < |sets| && i != si && sets[i].Some?
      ensures SlotIs(sets[i].value, undo', log + [Gone(sets[si].value.id)])
    {
      assert ApartSets(sets[i], sets[si]);
      OtherSlot(sets[i].value, undo, undo', log, Gone(sets[si].value.id));
    }
  }

  lemma {:induction false} GoneBlank(sets: Table<SemSet>, log: seq<Move>, si: nat)
    requires Blanks(sets, log) && si < |sets| && sets[si].Some?
    ensures Blanks(sets[si := None], log + [Gone(sets[si].value.id)])
  {
    var m, sets' := Gone(sets[si].value.id), sets[si := None];
    forall id | !Lives(sets', id) ensures Blank(log + [m], id) {
      if id == m.id {
        FaceMore(log, m, id);
        forall pid ensures Debt(log + [m], id, pid).adj == [] { DebtMore(log, m, id, pid); }
      } else {
        StillThere(sets, sets', si, id);
        BlankMore(log, m, id);
      }
    }
  }

  lemma {:induction false} SameVals(sets: Table<SemSet>, undo: Table<UndoRow>, log: seq<Move>, si: nat, s': SemSet)
    requires LogOk(sets, undo, log) && si < |sets| && Is(sets[si], s'.id)
    requires s'.vals == sets[si].value.vals && s'.lpid == sets[si].value.lpid
    ensures LogOk(sets[si := Some(s')], undo, log)
  {
    var sets' := sets[si := Some(s')];
    assert SlotIs(sets[si].value, undo, log);
    forall n | 0 <= n < |s'.vals| ensures Balance(s', undo, n) == Balance(sets[si].value, undo, n) { }
    forall id | !Lives(sets', id) ensures Blank(log, id) { StillThere(sets, sets', si, id); }
  }

  // ---- what a parked operation waits for ----

  /** The vector goes up to operation `at`, which has to wait and may. */
  ghost predicate SleepsNow(s: SemSet, log: seq<Move>, pid: int, ops: seq<SemBuf>, at: nat) {
    var adj := Debt(log, s.id, pid).adj;
    && |adj| == |s.vals| && InSet(ops, |s.vals|) && at < |ops|
    && AllGo(s.vals, adj, ops, at, true) && MustWait(s.vals, ops, at) && !ops[at].nowait
  }

  /** What an attempt at the vector comes to now; `short` says whether there may be no
      row to be had. */
  ghost predicate Judged(s: SemSet, log: seq<Move>, pid: int, ops: seq<SemBuf>, r: Try, short: bool) {
    match (s.vals, Debt(log, s.id, pid).adj)
    case (vals, adj) => |adj| == |vals| && exists row :: (row || short) && Outcome(vals, adj, ops, row, r)
  }

  /** Some operation refuses the vector with `errno`, every one before it having
      gone through. */
  ghost predicate Refusing(vals: seq<int>, adj: seq<int>, ops: seq<SemBuf>, errno: int) {
    match (vals, adj)
    case (v, a) => |a| == |v| && InSet(ops, |v|) &&
                   exists i: nat, row: bool :: StopsWith(v, a, ops, i, row, Refused(errno))
  }

  ghost predicate RefusedNow(s: SemSet, log: seq<Move>, pid: int, ops: seq<SemBuf>, errno: int) {
    Refusing(s.vals, Debt(log, s.id, pid).adj, ops, errno)
  }

  /** The same of the values and the debt the log comes to. */
  ghost predicate RefusedBy(log: seq<Move>, id: int, pid: int, ops: seq<SemBuf>, errno: int) {
    Refusing(FaceOf(log, id).vals, Debt(log, id, pid).adj, ops, errno)
  }

  lemma {:induction false} RefusedLogged(s: SemSet, undo: Table<UndoRow>, log: seq<Move>, pid: int, ops: seq<SemBuf>,
                                         errno: int)
    requires SlotIs(s, undo, log) && RefusedNow(s, log, pid, ops, errno)
    ensures RefusedBy(log, s.id, pid, ops, errno)
  {
    assert FaceOf(log, s.id).vals == s.vals;
  }

  /** Retrying the parked operation now would only park it again. */
  ghost predicate Stuck(sets: Table<SemSet>, log: seq<Move>, queues: Table<Queue>, w: Waiter)
  {
    match w.job
    case SemJob(ops, blk) =>
      forall i :: 0 <= i < |sets| && Is(sets[i], w.id) ==> SleepsNow(sets[i].value, log, w.pid, ops, blk)
    case SendJob(msg) =>
      forall i :: 0 <= i < |queues| && IsQ(queues[i], w.id) ==> Full(queues[i].value, |msg.data|)
    case RecvJob(want, _, _) =>
      forall i :: 0 <= i < |queues| && IsQ(queues[i], w.id) ==> NoSuchType(queues[i].value.msgs, want)
  }

  ghost predicate AllStuck(sets: Table<SemSet>, log: seq<Move>, queues: Table<Queue>, wait: Table<Waiter>) {
    forall k {:trigger Stuck(sets, log, queues, wait[k].value)} ::
      0 <= k < |wait| && wait[k].Some? ==> Stuck(sets, log, queues, wait[k].value)
  }

  // ---- over a stretch of the log ----

  /** Every operation on semaphore `n` will be undone. */
  ghost predicate AllUndo(ops: seq<SemBuf>, n: nat) {
    forall j :: 0 <= j < |ops| && ops[j].num == n ==> ops[j].undo
  }

  lemma {:induction false} AllUndoNets(ops: seq<SemBuf>, n: nat, i: nat)
    requires i <= |ops| && AllUndo(ops, n)
    ensures Net(ops, n, i) == NetUndo(ops, n, i)
  {
    if i > 0 { AllUndoNets(ops, n, i - 1); }
  }

  /** Entry `k` leaves what semaphore `n` of set `id` would settle at: it is
      another's, or a vector with SEM_UNDO on that semaphore throughout, or an end
      that the clamp does not cut short there. */
  ghost predicate Harmless(log: seq<Move>, k: nat, id: int, n: nat)
    requires k < |log|
  {
    var m, f := log[k], FaceOf(log[..k], id);
    m.id == id ==>
      match m
      case Did(_, _, _, ops, _) => AllUndo(ops, n)
      case Died(_, pid, start) =>
        var d := Debt(log[..k], id, pid);
        start == d.start && n < |f.vals| && n < |d.adj| ==> 0 <= f.vals[n] + d.adj[n] <= SEMVMX
      case SetOne(_, i, _, _) => i != n
      case Made(_, _) => true
      case _ => false
  }

  lemma {:induction false} HarmlessStep(log: seq<Move>, k: nat, id: int, n: nat)
    requires k < |log| && Harmless(log, k, id, n) && n < |FaceOf(log[..k], id).ledger|
    ensures var l, l' := FaceOf(log[..k], id).ledger, FaceOf(log[..k + 1], id).ledger;
            |l'| == |l| && l'[n] == l[n]
  {
    var m := log[k];
    assert log[..k + 1] == log[..k] + [m];
    FaceMore(log[..k], m, id);
    if m.id == id && m.Did? {
      AllUndoNets(m.ops, n, |m.ops|);
      PlainIsSum(FaceOf(log[..k], id).ledger, m.ops, |m.ops|, n);
    }
  }

  /** A stretch of such entries leaves it where it was. */
  lemma {:induction false} LedgerStands(log: seq<Move>, i: nat, k: nat, id: int, n: nat)
    requires i <= k <= |log| && n < |FaceOf(log[..i], id).ledger|
    requires forall j :: i <= j < k ==> Harmless(log, j, id, n)
    ensures var l, l' := FaceOf(log[..i], id).ledger, FaceOf(log[..k], id).ledger;
            |l'| == |l| && l'[n] == l[n]
  {
    if i < k {
      LedgerStands(log, i, k - 1, id, n);
      HarmlessStep(log, k - 1, id, n);
    }
  }
}
