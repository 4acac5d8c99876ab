/** The daemon's semaphore and message-queue tables, and what holds of them in
    every reachable state. */
module IpcTables {
  import opened Slots
  import opened SemCore
  import opened MsgCore

  const SEM_SET_MAX := 1024
  const MSG_QUEUE_MAX := 1024
  const SEM_UNDO_MAX := 4096
  const IPC_WAITER_MAX := 512
  const SEMMSL := 32000
  const SEMOPM := 500
  const INT_MAX := 0x7fff_ffff

  datatype Perm = Perm(mode: nat, uid: nat, gid: nat, cuid: nat, cgid: nat)

  datatype SemSet = SemSet(id: int, key: int, perm: Perm, vals: seq<int>, lpid: seq<int>)

  /** One process's semadj vector for one set. `start` is the holder's
      incarnation. */
  datatype UndoRow = UndoRow(pid: int, start: nat, semid: int, adj: seq<int>)

  datatype Queue = Queue(id: int, key: int, perm: Perm, msgs: seq<Msg>,
                         cbytes: int, qnum: int, qbytes: nat, lspid: int, lrpid: int)

  /** What a parked connection waits to do. `blk` is the operation a semop
      slept on at its last attempt. */
  datatype Job =
    | SemJob(ops: seq<SemBuf>, blk: nat)
    | SendJob(msg: Msg)
    | RecvJob(want: Want, msgsz: nat, noerror: bool)

  /** `deadline` is in milliseconds, -1 for an untimed wait. */
  datatype Waiter = Waiter(seqno: nat, pid: int, start: nat, id: int, deadline: int, job: Job)

  predicate Is(s: Option<SemSet>, id: int) { s.Some? && s.value.id == id }
  predicate IsQ(q: Option<Queue>, id: int) { q.Some? && q.value.id == id }

  ghost predicate HasSet(sets: Table<SemSet>, id: int, nsems: nat) {
    exists i :: 0 <= i < |sets| && Is(sets[i], id) && |sets[i].value.vals| == nsems
  }

  ghost predicate HasQueue(queues: Table<Queue>, id: int) {
    exists i :: 0 <= i < |queues| && IsQ(queues[i], id)
  }

  ghost predicate SetOk(s: SemSet) {
    s.id > 0 && 0 < |s.vals| == |s.lpid| <= SEMMSL && ValsOk(s.vals)
  }

  /** Ids are unique, and so are the keys that can still be found. */
  ghost predicate SetsOk(sets: Table<SemSet>) {
    && |sets| == SEM_SET_MAX
    && (forall i {:trigger SetOk(sets[i].value)} :: 0 <= i < |sets| && sets[i].Some? ==> SetOk(sets[i].value))
    && (forall i, j {:trigger ApartSets(sets[i], sets[j])} ::
          0 <= i < |sets| && 0 <= j < |sets| && i != j ==> ApartSets(sets[i], sets[j]))
  }

  ghost predicate ApartSets(a: Option<SemSet>, b: Option<SemSet>) {
    a.Some? && b.Some? ==> a.value.id != b.value.id && (a.value.key != 0 ==> a.value.key != b.value.key)
  }

  predicate Holds(r: Option<UndoRow>, pid: int, semid: int) {
    r.Some? && r.value.pid == pid && r.value.semid == semid
  }

  /** Every row names a live set and fits it, and there is one row for a
      process and a set. */
  ghost predicate UndoOk(sets: Table<SemSet>, undo: Table<UndoRow>) {
    && |undo| == SEM_UNDO_MAX
    && (forall i :: 0 <= i < |undo| && undo[i].Some? ==>
          HasSet(sets, undo[i].value.semid, |undo[i].value.adj|) && AdjOk(undo[i].value.adj))
    && RowsUnique(undo)
  }

  ghost predicate RowsUnique(undo: Table<UndoRow>) {
    forall i, j :: 0 <= i < j < |undo| && undo[i].Some? ==>
      !Holds(undo[j], undo[i].value.pid, undo[i].value.semid)
  }

  ghost predicate MsgOk(m: Msg) { m.mtype > 0 && |m.data| <= MSGMAX }

  ghost predicate QueueOk(q: Queue) {
    && q.id > 0 && q.cbytes == Bytes(q.msgs) && q.qnum == |q.msgs|
    && forall i :: 0 <= i < |q.msgs| ==> MsgOk(q.msgs[i])
  }

  ghost predicate QueuesOk(queues: Table<Queue>) {
    && |queues| == MSG_QUEUE_MAX
    && (forall i {:trigger QueueOk(queues[i].value)} ::
          0 <= i < |queues| && queues[i].Some? ==> QueueOk(queues[i].value))
    && (forall i, j {:trigger ApartQueues(queues[i], queues[j])} ::
          0 <= i < |queues| && 0 <= j < |queues| && i != j ==> ApartQueues(queues[i], queues[j]))
  }

  ghost predicate ApartQueues(a: Option<Queue>, b: Option<Queue>) {
    a.Some? && b.Some? ==> a.value.id != b.value.id && (a.value.key != 0 ==> a.value.key != b.value.key)
  }

  /** A parked operation names a live object; a semop's numbers are in range
      and it sleeps on one of its own operations. */
  ghost predicate JobOk(sets: Table<SemSet>, queues: Table<Queue>, w: Waiter) {
    match w.job
    case SemJob(ops, blk) => blk < |ops| && exists n :: HasSet(sets, w.id, n) && InSet(ops, n)
    case SendJob(msg) => HasQueue(queues, w.id) && MsgOk(msg)
    case RecvJob(_, _, _) => HasQueue(queues, w.id)
  }

  ghost predicate WaitOk(sets: Table<SemSet>, queues: Table<Queue>, wait: Table<Waiter>, waitSeq: nat) {
    && |wait| == IPC_WAITER_MAX
    && (forall i :: 0 <= i < |wait| && wait[i].Some? ==> 0 < wait[i].value.seqno < waitSeq)
    && (forall i {:trigger JobOk(sets, queues, wait[i].value)} ::
          0 <= i < |wait| && wait[i].Some? ==> JobOk(sets, queues, wait[i].value))
    && Distinct(wait)
  }

  ghost predicate Distinct(wait: Table<Waiter>) {
    forall i, j {:trigger ApartWaiters(wait[i], wait[j])} ::
      0 <= i < |wait| && 0 <= j < |wait| && i != j ==> ApartWaiters(wait[i], wait[j])
  }

  ghost predicate ApartWaiters(a: Option<Waiter>, b: Option<Waiter>) {
    a.Some? && b.Some? ==> a.value.seqno != b.value.seqno
  }

  function Zeros(n: nat): (r: seq<int>)
    ensures |r| == n && forall i :: 0 <= i < n ==> r[i] == 0
  {
    seq(n, _ => 0)
  }

  ghost predicate HasRow(undo: Table<UndoRow>, pid: int, semid: int) {
    exists i :: 0 <= i < |undo| && Holds(undo[i], pid, semid)
  }

  /** What slot `r` contributes to the adjustments of semaphore `n` of a set. */
  ghost function AdjTerm(semid: int, n: nat): Option<UndoRow> -> int {
    (r: Option<UndoRow>) =>
      if r.Some? && r.value.semid == semid && n < |r.value.adj| then r.value.adj[n] else 0
  }

  /** The value a semaphore would settle at if every process holding
      adjustments on it ended: value plus all rows' adjustments. */
  ghost function Balance(s: SemSet, undo: Table<UndoRow>, n: nat): int
    requires n < |s.vals|
  {
    s.vals[n] + Sum(undo, AdjTerm(s.id, n))
  }

  ghost predicate LedgerRowOk(s: SemSet, undo: Table<UndoRow>, l: seq<int>) {
    |l| == |s.vals| && forall n :: 0 <= n < |s.vals| ==> l[n] == Balance(s, undo, n)
  }

  predicate Fits(q: Queue, size: nat) {
    q.cbytes + size <= q.qbytes && q.qnum + 1 <= q.qbytes
  }

  /** No room: more bytes than it may hold, or more messages. */
  ghost predicate Full(q: Queue, size: nat) {
    q.cbytes + size > q.qbytes || q.qnum >= q.qbytes
  }

  // ---- how table updates keep the invariants ----

  /** A set that keeps its identity and size leaves rows and waiters valid. */
  lemma {:induction false} Revalue(sets: Table<SemSet>, undo: Table<UndoRow>, queues: Table<Queue>, wait: Table<Waiter>,
                waitSeq: nat, si: nat, s': SemSet)
    requires SetsOk(sets) && UndoOk(sets, undo) && WaitOk(sets, queues, wait, waitSeq)
    requires si < |sets| && sets[si].Some? && SetOk(s')
    requires s'.id == sets[si].value.id && |s'.vals| == |sets[si].value.vals|
    requires s'.key == sets[si].value.key
    ensures SetsOk(sets[si := Some(s')]) && UndoOk(sets[si := Some(s')], undo)
    ensures WaitOk(sets[si := Some(s')], queues, wait, waitSeq)
  {
    var sets' := sets[si := Some(s')];
    HasSetKept(sets, si, s');
    forall i, j | 0 <= i < |sets| && 0 <= j < |sets| && i != j ensures ApartSets(sets'[i], sets'[j]) {
      assert ApartSets(sets[i], sets[j]);
    }
    forall i | 0 <= i < |wait| && wait[i].Some?
      ensures JobOk(sets', queues, wait[i].value)
    {
      assert JobOk(sets, queues, wait[i].value);
    }
  }

  lemma {:induction false} HasSetKept(sets: Table<SemSet>, si: nat, s': SemSet)
    requires si < |sets| && sets[si].Some?
    requires s'.id == sets[si].value.id && |s'.vals| == |sets[si].value.vals|
    ensures forall id, n :: HasSet(sets, id, n) ==> HasSet(sets[si := Some(s')], id, n)
  {
    var sets' := sets[si := Some(s')];
    forall id, n | HasSet(sets, id, n) ensures HasSet(sets', id, n) {
      var i :| 0 <= i < |sets| && Is(sets[i], id) && |sets[i].value.vals| == n;
      assert Is(sets'[i], id) && |sets'[i].value.vals| == n;
    }
  }

  /** Slot `ui` is where the row of (pid, set) is, or where a new one goes. */
  ghost predicate RowSlot(undo: Table<UndoRow>, ui: int, pid: int, semid: int) {
    && 0 <= ui < |undo|
    && (undo[ui].Some? ==> Holds(undo[ui], pid, semid))
    && (undo[ui].None? ==> !HasRow(undo, pid, semid))
  }

  ghost function AdjAt(r: Option<UndoRow>, n: nat): int {
    if r.Some? && n < |r.value.adj| then r.value.adj[n] else 0
  }

  /** Writing a row where it belongs keeps the table's invariant. */
  lemma {:induction false} RowWrite(sets: Table<SemSet>, undo: Table<UndoRow>, ui: int, row: UndoRow)
    requires UndoOk(sets, undo) && RowSlot(undo, ui, row.pid, row.semid)
    requires HasSet(sets, row.semid, |row.adj|) && AdjOk(row.adj)
    ensures UndoOk(sets, undo[ui := Some(row)])
    ensures Count(undo[ui := Some(row)]) == Count(undo) + if undo[ui].None? then 1 else 0
  {
    var undo' := undo[ui := Some(row)];
    SumUpdate(undo, Used<UndoRow>(), ui, Some(row));
    forall i, j | 0 <= i < j < |undo'| && undo'[i].Some?
      ensures !Holds(undo'[j], undo'[i].value.pid, undo'[i].value.semid)
    {
      if i == ui { assert !Holds(undo[j], row.pid, row.semid); }
      if j == ui { assert !Holds(undo[i], row.pid, row.semid); }
    }
  }

  /** ... and moves the balances of its own set by the difference alone. */
  lemma {:induction false} RowWriteSum(undo: Table<UndoRow>, ui: int, row: UndoRow, id: int, n: nat)
    requires RowSlot(undo, ui, row.pid, row.semid)
    ensures Sum(undo[ui := Some(row)], AdjTerm(id, n)) == Sum(undo, AdjTerm(id, n)) +
            if id == row.semid then AdjAt(Some(row), n) - AdjAt(undo[ui], n) else 0
  {
    SumUpdate(undo, AdjTerm(id, n), ui, Some(row));
  }

  // ---- a dead process's row ----

  /** A set's values with a dead process's adjustments added, each clamped to
      a semaphore value. */
  function Undone(vals: seq<int>, adj: seq<int>, i: nat): (r: seq<int>)
    requires |adj| == |vals| && i <= |vals|
    ensures |r| == |vals|
    ensures forall n :: 0 <= n < |vals| ==> r[n] == if n < i then Clamp(vals[n] + adj[n]) else vals[n]
  {
    if i == 0 then vals
    else Undone(vals, adj, i - 1)[i - 1 := Clamp(vals[i - 1] + adj[i - 1])]
  }

  /** What clamping took from a balance: zero unless it bit. */
  ghost function ClampLoss(v: int, a: int): int { Clamp(v + a) - (v + a) }

  ghost function Settled(l: seq<int>, vals: seq<int>, adj: seq<int>): seq<int>
    requires |l| == |vals| == |adj|
  {
    seq(|l|, n requires 0 <= n < |l| => l[n] + ClampLoss(vals[n], adj[n]))
  }

  lemma {:induction false} RowDrop(sets: Table<SemSet>, undo: Table<UndoRow>, ui: nat)
    requires UndoOk(sets, undo) && ui < |undo| && undo[ui].Some?
    ensures UndoOk(sets, undo[ui := None]) && Count(undo[ui := None]) == Count(undo) - 1
  {
    SumUpdate(undo, Used<UndoRow>(), ui, None);
  }

  // ---- setting values ----

  /** A row with one entry (or, for n < 0, all of them) of one set zeroed. */
  function Cleared(r: Option<UndoRow>, semid: int, n: int): Option<UndoRow> {
    if r.Some? && r.value.semid == semid then
      var adj := r.value.adj;
      if n < 0 then Some(r.value.(adj := Zeros(|adj|)))
      else if n < |adj| then Some(r.value.(adj := adj[n := 0]))
      else r
    else r
  }

  ghost predicate AllCleared(undo: Table<UndoRow>, undo': Table<UndoRow>, semid: int, n: int) {
    |undo'| == |undo| && forall k :: 0 <= k < |undo| ==> undo'[k] == Cleared(undo[k], semid, n)
  }

  lemma {:induction false} ClearKeeps(sets: Table<SemSet>, undo: Table<UndoRow>, undo': Table<UndoRow>, semid: int,
                                      n: int)
    requires UndoOk(sets, undo) && AllCleared(undo, undo', semid, n)
    ensures UndoOk(sets, undo') && Count(undo') == Count(undo)
  {
    SumAgree(undo, undo', Used<UndoRow>(), Used<UndoRow>());
    forall i | 0 <= i < |undo'| && undo'[i].Some?
      ensures HasSet(sets, undo'[i].value.semid, |undo'[i].value.adj|) && AdjOk(undo'[i].value.adj)
    {
      assert undo'[i] == Cleared(undo[i], semid, n);
    }
    forall i, j | 0 <= i < j < |undo'| && undo'[i].Some?
      ensures !Holds(undo'[j], undo'[i].value.pid, undo'[i].value.semid)
    {
      assert undo'[i] == Cleared(undo[i], semid, n) && undo'[j] == Cleared(undo[j], semid, n);
    }
  }

  // ---- sets coming and going ----

  ghost predicate NoneOn(undo: Table<UndoRow>, semid: int) {
    forall k :: 0 <= k < |undo| && undo[k].Some? ==> undo[k].value.semid != semid
  }

  /** A new set under an id nobody holds. */
  lemma {:induction false} CreateSet(sets: Table<SemSet>, undo: Table<UndoRow>, queues: Table<Queue>,
                                     wait: Table<Waiter>, waitSeq: nat, si: nat, s: SemSet)
    requires SetsOk(sets) && UndoOk(sets, undo) && WaitOk(sets, queues, wait, waitSeq)
    requires si < |sets| && sets[si].None? && SetOk(s)
    requires forall i :: 0 <= i < |sets| && sets[i].Some? ==> sets[i].value.id != s.id
    requires forall i :: 0 <= i < |sets| && sets[i].Some? && s.key != 0 ==> sets[i].value.key != s.key
    ensures SetsOk(sets[si := Some(s)]) && UndoOk(sets[si := Some(s)], undo) && NoneOn(undo, s.id)
    ensures WaitOk(sets[si := Some(s)], queues, wait, waitSeq)
  {
    var sets' := sets[si := Some(s)];
    forall id, n | HasSet(sets, id, n) ensures HasSet(sets', id, n) {
      var i :| 0 <= i < |sets| && Is(sets[i], id) && |sets[i].value.vals| == n;
      assert Is(sets'[i], id) && |sets'[i].value.vals| == n;
    }
    forall i | 0 <= i < |wait| && wait[i].Some? ensures JobOk(sets', queues, wait[i].value) {
      assert JobOk(sets, queues, wait[i].value);
    }
  }

  ghost predicate NoSemWaiter(wait: Table<Waiter>, id: int) {
    forall k :: 0 <= k < |wait| && wait[k].Some? && wait[k].value.job.SemJob? ==> wait[k].value.id != id
  }

  /** A set nothing refers to any more can go. */
  lemma {:induction false} RemoveSet(sets: Table<SemSet>, undo: Table<UndoRow>, queues: Table<Queue>,
                                     wait: Table<Waiter>,
                                     waitSeq: nat, si: nat)
    requires SetsOk(sets) && UndoOk(sets, undo) && WaitOk(sets, queues, wait, waitSeq)
    requires si < |sets| && sets[si].Some? && NoneOn(undo, sets[si].value.id) && NoSemWaiter(wait, sets[si].value.id)
    ensures SetsOk(sets[si := None]) && UndoOk(sets[si := None], undo)
    ensures WaitOk(sets[si := None], queues, wait, waitSeq)
  {
    var sets' := sets[si := None];
    forall id, n | HasSet(sets, id, n) && id != sets[si].value.id ensures HasSet(sets', id, n) {
      var i :| 0 <= i < |sets| && Is(sets[i], id) && |sets[i].value.vals| == n;
      assert Is(sets'[i], id) && |sets'[i].value.vals| == n;
    }
    forall i | 0 <= i < |wait| && wait[i].Some? ensures JobOk(sets', queues, wait[i].value) {
      assert JobOk(sets, queues, wait[i].value);
    }
  }

  // ---- waiters leaving ----

  lemma {:induction false} ReleaseKeeps(sets: Table<SemSet>, queues: Table<Queue>, wait: Table<Waiter>, waitSeq: nat,
                                        wi: nat)
    requires WaitOk(sets, queues, wait, waitSeq) && wi < |wait| && wait[wi].Some?
    ensures WaitOk(sets, queues, wait[wi := None], waitSeq)
    ensures Count(wait[wi := None]) == Count(wait) - 1
  {
    SumUpdate(wait, Used<Waiter>(), wi, None);
  }

  lemma {:induction false} NoneUsed<T>(table: Table<T>)
    requires Count(table) == 0
    ensures forall k :: 0 <= k < |table| ==> table[k].None?
  {
    forall k | 0 <= k < |table| ensures table[k].None? {
      SumNonNegative(table, Used<T>(), k);
    }
  }

  /** Parking puts a waiter in a free slot under a fresh sequence number. */
  lemma {:induction false} ParkKeeps(sets: Table<SemSet>, queues: Table<Queue>, wait: Table<Waiter>, waitSeq: nat,
                                     wi: nat, w: Waiter)
    requires WaitOk(sets, queues, wait, waitSeq) && wi < |wait| && wait[wi].None?
    requires w.seqno == waitSeq > 0 && JobOk(sets, queues, w)
    ensures WaitOk(sets, queues, wait[wi := Some(w)], waitSeq + 1)
    ensures Count(wait[wi := Some(w)]) == Count(wait) + 1
  {
    SumUpdate(wait, Used<Waiter>(), wi, Some(w));
  }

  // ---- queues ----

  /** A queue that keeps its identity leaves its waiters valid. */
  lemma {:induction false} Requeue(sets: Table<SemSet>, queues: Table<Queue>, wait: Table<Waiter>, waitSeq: nat,
                                   qi: nat, q': Queue)
    requires QueuesOk(queues) && WaitOk(sets, queues, wait, waitSeq)
    requires qi < |queues| && queues[qi].Some? && QueueOk(q')
    requires q'.id == queues[qi].value.id && q'.key == queues[qi].value.key
    ensures QueuesOk(queues[qi := Some(q')]) && WaitOk(sets, queues[qi := Some(q')], wait, waitSeq)
  {
    var queues' := queues[qi := Some(q')];
    forall i, j | 0 <= i < |queues| && 0 <= j < |queues| && i != j ensures ApartQueues(queues'[i], queues'[j]) {
      assert ApartQueues(queues[i], queues[j]);
    }
    forall id | HasQueue(queues, id) ensures HasQueue(queues', id) {
      var i :| 0 <= i < |queues| && IsQ(queues[i], id);
      assert IsQ(queues'[i], id);
    }
    forall i | 0 <= i < |wait| && wait[i].Some? ensures JobOk(sets, queues', wait[i].value) {
      assert JobOk(sets, queues, wait[i].value);
    }
  }

  function Enqueued(q: Queue, m: Msg, pid: int): Queue {
    q.(msgs := q.msgs + [m], cbytes := q.cbytes + |m.data|, qnum := q.qnum + 1, lspid := pid)
  }

  function Taken(q: Queue, k: nat, pid: int): Queue
    requires k < |q.msgs|
  {
    q.(msgs := Without(q.msgs, k), cbytes := q.cbytes - |q.msgs[k].data|, qnum := q.qnum - 1, lrpid := pid)
  }

  lemma {:induction false} EnqueuedOk(q: Queue, m: Msg, pid: int)
    requires QueueOk(q) && MsgOk(m)
    ensures QueueOk(Enqueued(q, m, pid))
    ensures multiset(Enqueued(q, m, pid).msgs) == multiset(q.msgs) + multiset{m}
  {
  }

  lemma {:induction false} TakenOk(q: Queue, k: nat, pid: int)
    requires QueueOk(q) && k < |q.msgs|
    ensures QueueOk(Taken(q, k, pid))
    ensures multiset(q.msgs) == multiset(Taken(q, k, pid).msgs) + multiset{q.msgs[k]}
  {
    BytesWithout(q.msgs, k);
    WithoutBag(q.msgs, k);
  }

  ghost predicate NoMsgWaiter(wait: Table<Waiter>, id: int) {
    forall k :: 0 <= k < |wait| && wait[k].Some? && !wait[k].value.job.SemJob? ==> wait[k].value.id != id
  }

  lemma {:induction false} RemoveQueue(sets: Table<SemSet>, queues: Table<Queue>, wait: Table<Waiter>, waitSeq: nat,
                                       qi: nat)
    requires QueuesOk(queues) && WaitOk(sets, queues, wait, waitSeq)
    requires qi < |queues| && queues[qi].Some? && NoMsgWaiter(wait, queues[qi].value.id)
    ensures QueuesOk(queues[qi := None]) && WaitOk(sets, queues[qi := None], wait, waitSeq)
  {
    var queues' := queues[qi := None];
    forall id | HasQueue(queues, id) && id != queues[qi].value.id ensures HasQueue(queues', id) {
      var i :| 0 <= i < |queues| && IsQ(queues[i], id);
      assert IsQ(queues'[i], id);
    }
    forall i | 0 <= i < |wait| && wait[i].Some? ensures JobOk(sets, queues', wait[i].value) {
      assert JobOk(sets, queues, wait[i].value);
    }
  }

  lemma {:induction false} CreateQueue(sets: Table<SemSet>, queues: Table<Queue>, wait: Table<Waiter>, waitSeq: nat,
                                       qi: nat, q: Queue)
    requires QueuesOk(queues) && WaitOk(sets, queues, wait, waitSeq)
    requires qi < |queues| && queues[qi].None? && QueueOk(q) && q.msgs == []
    requires forall i :: 0 <= i < |queues| && queues[i].Some? ==> queues[i].value.id != q.id
    requires forall i :: 0 <= i < |queues| && queues[i].Some? && q.key != 0 ==> queues[i].value.key != q.key
    ensures QueuesOk(queues[qi := Some(q)]) && WaitOk(sets, queues[qi := Some(q)], wait, waitSeq)
  {
    var queues' := queues[qi := Some(q)];
    forall id | HasQueue(queues, id) ensures HasQueue(queues', id) {
      var i :| 0 <= i < |queues| && IsQ(queues[i], id);
      assert IsQ(queues'[i], id);
    }
    forall i | 0 <= i < |wait| && wait[i].Some? ensures JobOk(sets, queues', wait[i].value) {
      assert JobOk(sets, queues, wait[i].value);
    }
  }
}
