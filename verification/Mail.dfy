/** The messages' history. Every message taken in, moved, given out or lost is in
    a log; the queues are what replaying it gives, in order, and nothing is there
    twice or missing. */
module Mail {
  import opened Slots
  import opened Procs
  import opened MsgCore
  import opened IpcTables

  /** Why a parked connection is let go without its operation being done: its
      deadline passed, its object was removed, its process ended, or the
      connection itself reported (a cancel, a hangup or noise). */
  datatype Why =
    | Late(now: int)
    | Removed(id: int, sem: bool)
    | Ended(world: World)
    | Reported(seqno: nat, cancel: bool)

  /** A queue made, removed, or given a capacity; a message queued at once, held by a parked sender,
      or queued for one; the message a receive is due, taken (for the parked
      waiter `to`, or at once for 0); a sender let go. */
  datatype Post =
    | Opened(id: int)
    | Freed(id: int)
    | Sized(id: int, cap: nat)
    | Sent(id: int, m: Msg)
    | Kept(w: Waiter)
    | Moved(w: Waiter)
    | Got(id: int, want: Want, to: nat)
    | Left(w: Waiter, why: Why)

  ghost function Held(w: Option<Waiter>): multiset<Msg> {
    if w.Some? && w.value.job.SendJob? then multiset{w.value.job.msg} else multiset{}
  }

  ghost function Queued(q: Option<Queue>): multiset<Msg> {
    if q.Some? then multiset(q.value.msgs) else multiset{}
  }

  // ---- what a log comes to ----

  ghost function Carried(w: Waiter): seq<Msg> {
    if w.job.SendJob? then [w.job.msg] else []
  }

  /** The queue an entry is about. */
  ghost function On(x: Post): int {
    match x
    case Kept(w) => w.id
    case Moved(w) => w.id
    case Left(w, _) => w.id
    case _ => x.id
  }

  /** One queue: whether it is there, its capacity, its contents, all that came to
      it since it was made, and all that went. */
  datatype Box = Box(open: bool, cap: nat, msgs: seq<Msg>, came: seq<Msg>, went: seq<Msg>)

  ghost function BoxNext(b: Box, x: Post): Box {
    match x
    case Opened(_) => if b.open then b else Box(true, MSGMNB, [], [], [])
    case Freed(_) => Box(false, 0, [], [], [])
    case Sized(_, cap) => b.(cap := cap)
    case Sent(_, m) => b.(msgs := b.msgs + [m], came := b.came + [m])
    case Moved(w) => b.(msgs := b.msgs + Carried(w), came := b.came + Carried(w))
    case Got(_, want, _) =>
      var k := Pick(b.msgs, want);
      if k < 0 then b else b.(msgs := Without(b.msgs, k), went := b.went + [b.msgs[k]])
    case _ => b
  }

  ghost function BoxOf(mail: seq<Post>, id: int): Box {
    if mail == [] then Box(false, 0, [], [], [])
    else
      var b, x := BoxOf(mail[..|mail| - 1], id), mail[|mail| - 1];
      if On(x) == id then BoxNext(b, x) else b
  }

  /** What one entry takes in, gives out and loses; `b` is its queue before. */
  ghost function Takes(x: Post): multiset<Msg> {
    if x.Sent? then multiset{x.m} else if x.Kept? then Held(Some(x.w)) else multiset{}
  }

  ghost function Gives(b: Box, x: Post): multiset<Msg> {
    if x.Got? && Pick(b.msgs, x.want) >= 0 then multiset{b.msgs[Pick(b.msgs, x.want)]} else multiset{}
  }

  ghost function Loses(b: Box, x: Post): multiset<Msg> {
    if x.Left? then Held(Some(x.w)) else if x.Freed? then multiset(b.msgs) else multiset{}
  }

  /** Every message taken in, given out and lost. */
  datatype Tally = Tally(accepted: multiset<Msg>, delivered: multiset<Msg>, dropped: multiset<Msg>)

  ghost function TallyOf(mail: seq<Post>): Tally {
    if mail == [] then Tally(multiset{}, multiset{}, multiset{})
    else
      var rest, x := mail[..|mail| - 1], mail[|mail| - 1];
      var t, b := TallyOf(rest), BoxOf(rest, On(x));
      Tally(t.accepted + Takes(x), t.delivered + Gives(b, x), t.dropped + Loses(b, x))
  }

  lemma {:induction false} BoxMore(mail: seq<Post>, x: Post, id: int)
    ensures BoxOf(mail + [x], id) == if On(x) == id then BoxNext(BoxOf(mail, id), x) else BoxOf(mail, id)
  {
    assert (mail + [x])[..|mail|] == mail;
  }

  lemma {:induction false} TallyMore(mail: seq<Post>, x: Post)
    ensures var t, t', b := TallyOf(mail), TallyOf(mail + [x]), BoxOf(mail, On(x));
            && t'.accepted == t.accepted + Takes(x) && t'.delivered == t.delivered + Gives(b, x)
            && t'.dropped == t.dropped + Loses(b, x)
  {
    assert (mail + [x])[..|mail|] == mail;
  }

  // ---- the tables are the log's ----

  /** A queue holds what the log leaves in it; and within each type, what came is
      what went followed by what is still there. */
  ghost predicate QueueIs(q: Queue, mail: seq<Post>) {
    var b := BoxOf(mail, q.id);
    b.open && q.qbytes == b.cap && q.msgs == b.msgs && TypeFifo(b.came, b.went, b.msgs)
  }

  /** The queue has room for a message of this size. */
  ghost predicate RoomFor(mail: seq<Post>, id: int, size: nat) {
    var b := BoxOf(mail, id);
    Bytes(b.msgs) + size <= b.cap && |b.msgs| + 1 <= b.cap
  }

  lemma {:induction false} RoomIs(q: Queue, mail: seq<Post>, size: nat)
    requires QueueOk(q) && QueueIs(q, mail)
    ensures RoomFor(mail, q.id, size) <==> Fits(q, size)
  {
  }

  /** What is not there is shut. */
  ghost predicate Shut(queues: Table<Queue>, mail: seq<Post>) {
    forall id :: HasQueue(queues, id) || !BoxOf(mail, id).open
  }

  ghost predicate MailOk(queues: Table<Queue>, mail: seq<Post>) {
    && (forall i {:trigger QueueIs(queues[i].value, mail)} ::
          0 <= i < |queues| && queues[i].Some? ==> QueueIs(queues[i].value, mail))
    && Shut(queues, mail)
  }

  lemma {:induction false} StillHas(queues: Table<Queue>, queues': Table<Queue>, qi: nat, id: int)
    requires |queues'| == |queues| && qi < |queues| && queues' == queues[qi := queues'[qi]] && HasQueue(queues, id)
    requires IsQ(queues[qi], id) ==> IsQ(queues'[qi], id)
    ensures HasQueue(queues', id)
  {
    var i :| 0 <= i < |queues| && IsQ(queues[i], id);
    assert IsQ(queues'[i], id);
  }

  /** An entry about one queue shuts no other. */
  lemma {:induction false} ShutMove(queues: Table<Queue>, mail: seq<Post>, x: Post, qi: nat, q': Option<Queue>)
    requires Shut(queues, mail) && qi < |queues| && (queues[qi].Some? ==> IsQ(queues[qi], On(x)))
    requires if q'.Some? then q'.value.id == On(x) else x.Freed?
    ensures Shut(queues[qi := q'], mail + [x])
  {
    var queues' := queues[qi := q'];
    assert q'.Some? ==> IsQ(queues'[qi], On(x));
    forall id | !HasQueue(queues', id) ensures !BoxOf(mail + [x], id).open {
      BoxMore(mail, x, id);
      if id != On(x) && HasQueue(queues, id) { StillHas(queues, queues', qi, id); }
    }
  }

  /** An entry about one queue moves no other. */
  lemma {:induction false} MailMove(queues: Table<Queue>, mail: seq<Post>, x: Post, qi: nat, q': Option<Queue>)
    requires QueuesOk(queues) && MailOk(queues, mail) && qi < |queues| && IsQ(queues[qi], On(x))
    requires if q'.Some? then q'.value.id == On(x) && QueueIs(q'.value, mail + [x]) else x.Freed?
    ensures MailOk(queues[qi := q'], mail + [x])
  {
    ShutMove(queues, mail, x, qi, q');
    forall i | 0 <= i < |queues| && i != qi && queues[i].Some? ensures QueueIs(queues[i].value, mail + [x]) {
      assert ApartQueues(queues[i], queues[qi]) && QueueIs(queues[i].value, mail);
      BoxMore(mail, x, queues[i].value.id);
    }
  }

  /** A sender that parks or leaves moves no queue. */
  lemma {:induction false} MailAside(queues: Table<Queue>, mail: seq<Post>, x: Post)
    requires MailOk(queues, mail) && (x.Kept? || x.Left?)
    ensures MailOk(queues, mail + [x])
  {
    forall i | 0 <= i < |queues| && queues[i].Some? ensures QueueIs(queues[i].value, mail + [x]) {
      assert QueueIs(queues[i].value, mail);
      BoxMore(mail, x, queues[i].value.id);
    }
    forall id | !HasQueue(queues, id) ensures !BoxOf(mail + [x], id).open { BoxMore(mail, x, id); }
  }

  lemma {:induction false} MailIn(q: Queue, mail: seq<Post>, x: Post, m: Msg, pid: int)
    requires QueueIs(q, mail) && On(x) == q.id
    requires (x == Sent(q.id, m) || (x.Moved? && x.w.job.SendJob? && x.w.job.msg == m))
    ensures QueueIs(Enqueued(q, m, pid), mail + [x])
  {
    var b := BoxOf(mail, q.id);
    BoxMore(mail, x, q.id);
    TypeFifoEnqueue(b.came, b.went, b.msgs, m);
  }

  lemma {:induction false} MailOut(q: Queue, mail: seq<Post>, want: Want, to: nat, k: nat, pid: int)
    requires QueueIs(q, mail) && IsPick(q.msgs, want, k)
    ensures QueueIs(Taken(q, k, pid), mail + [Got(q.id, want, to)])
    ensures Gives(BoxOf(mail, q.id), Got(q.id, want, to)) == multiset{q.msgs[k]}
  {
    var b := BoxOf(mail, q.id);
    PickUnique(q.msgs, want, k);
    BoxMore(mail, Got(q.id, want, to), q.id);
    TypeFifoTake(b.came, b.went, b.msgs, want, k);
  }

  /** A queue given another capacity. */
  lemma {:induction false} MailSized(q: Queue, mail: seq<Post>, q': Queue)
    requires QueueIs(q, mail) && q'.id == q.id && q'.msgs == q.msgs
    ensures QueueIs(q', mail + [Sized(q.id, q'.qbytes)])
  {
    BoxMore(mail, Sized(q.id, q'.qbytes), q.id);
  }

  /** A new queue is empty, whatever went under its id before. */
  lemma {:induction false} MailOpen(queues: Table<Queue>, mail: seq<Post>, qi: nat, q: Queue)
    requires MailOk(queues, mail) && qi < |queues| && queues[qi].None? && q.msgs == [] && q.qbytes == MSGMNB
    requires forall i :: 0 <= i < |queues| && queues[i].Some? ==> queues[i].value.id != q.id
    ensures MailOk(queues[qi := Some(q)], mail + [Opened(q.id)])
  {
    assert !HasQueue(queues, q.id);
    ShutMove(queues, mail, Opened(q.id), qi, Some(q));
    BoxMore(mail, Opened(q.id), q.id);
    forall i | 0 <= i < |queues| && queues[i].Some? ensures QueueIs(queues[i].value, mail + [Opened(q.id)]) {
      assert QueueIs(queues[i].value, mail);
      BoxMore(mail, Opened(q.id), queues[i].value.id);
    }
  }

  // ---- nothing lost, nothing twice ----

  ghost function HeldTerm(m: Msg): Option<Waiter> -> int { (w: Option<Waiter>) => Held(w)[m] }
  ghost function QueuedTerm(m: Msg): Option<Queue> -> int { (q: Option<Queue>) => Queued(q)[m] }

  ghost predicate Counted(t: Tally, queues: Table<Queue>, wait: Table<Waiter>, m: Msg) {
    t.accepted[m] == Sum(queues, QueuedTerm(m)) + Sum(wait, HeldTerm(m)) + t.delivered[m] + t.dropped[m]
  }

  /** Every message taken in is in one queue, held by one parked sender, given
      out, or lost with its queue or its sender: once. */
  ghost predicate Conserved(mail: seq<Post>, queues: Table<Queue>, wait: Table<Waiter>) {
    forall m :: Counted(TallyOf(mail), queues, wait, m)
  }

  /** A waiter's slot changes: what it held before is what it holds now and what
      was lost, or taken in. */
  lemma {:induction false} CountWait(t: Tally, t': Tally, queues: Table<Queue>, wait: Table<Waiter>, wi: nat,
                                     w: Option<Waiter>, m: Msg)
    requires Counted(t, queues, wait, m) && wi < |wait| && t'.delivered == t.delivered
    requires t'.accepted[m] + Held(wait[wi])[m] + t.dropped[m] == t.accepted[m] + Held(w)[m] + t'.dropped[m]
    ensures Counted(t', queues, wait[wi := w], m)
  {
    SumUpdate(wait, HeldTerm(m), wi, w);
  }

  /** A queue changes: what it held and what was taken in is what it holds, what
      was given out and what was lost. */
  lemma {:induction false} CountQueue(t: Tally, t': Tally, queues: Table<Queue>, wait: Table<Waiter>, qi: nat,
                                      q: Option<Queue>, m: Msg)
    requires Counted(t, queues, wait, m) && qi < |queues|
    requires Queued(queues[qi])[m] + t'.accepted[m] + t.delivered[m] + t.dropped[m] ==
             Queued(q)[m] + t.accepted[m] + t'.delivered[m] + t'.dropped[m]
    ensures Counted(t', queues[qi := q], wait, m)
  {
    SumUpdate(queues, QueuedTerm(m), qi, q);
  }

  /** A waiter leaves: what it held is lost. */
  lemma {:induction false} ConserveLeft(mail: seq<Post>, queues: Table<Queue>, wait: Table<Waiter>, wi: nat, why: Why)
    requires Conserved(mail, queues, wait) && wi < |wait| && wait[wi].Some?
    ensures Conserved(mail + [Left(wait[wi].value, why)], queues, wait[wi := None])
  {
    TallyMore(mail, Left(wait[wi].value, why));
    var t, t', wait' := TallyOf(mail), TallyOf(mail + [Left(wait[wi].value, why)]), wait[wi := None];
    forall m ensures Counted(t', queues, wait', m) { CountWait(t, t', queues, wait, wi, None, m); }
  }

  /** A waiter that holds nothing leaves, or parks, or stays under another note. */
  lemma {:induction false} ConserveEmpty(mail: seq<Post>, queues: Table<Queue>, wait: Table<Waiter>, wi: nat,
                                         w: Option<Waiter>)
    requires Conserved(mail, queues, wait) && wi < |wait| && Held(wait[wi]) == Held(w) == multiset{}
    ensures Conserved(mail, queues, wait[wi := w])
  {
    var t, wait' := TallyOf(mail), wait[wi := w];
    forall m ensures Counted(t, queues, wait', m) { CountWait(t, t, queues, wait, wi, w, m); }
  }

  /** A sender parks: what it holds is taken in. */
  lemma {:induction false} ConserveKept(mail: seq<Post>, queues: Table<Queue>, wait: Table<Waiter>, wi: nat, w: Waiter)
    requires Conserved(mail, queues, wait) && wi < |wait| && wait[wi].None?
    ensures Conserved(mail + [Kept(w)], queues, wait[wi := Some(w)])
  {
    TallyMore(mail, Kept(w));
    var t, t', wait' := TallyOf(mail), TallyOf(mail + [Kept(w)]), wait[wi := Some(w)];
    forall m ensures Counted(t', queues, wait', m) { CountWait(t, t', queues, wait, wi, Some(w), m); }
  }

  /** An entry about a queue, and the queue after it: what was taken in, given out
      and lost is the difference. */
  lemma {:induction false} ConserveQueue(mail: seq<Post>, queues: Table<Queue>, wait: Table<Waiter>, x: Post, qi: nat,
                                         q: Option<Queue>)
    requires Conserved(mail, queues, wait) && qi < |queues|
    requires var b := BoxOf(mail, On(x)); Queued(queues[qi]) + Takes(x) == Queued(q) + Gives(b, x) + Loses(b, x)
    ensures Conserved(mail + [x], queues[qi := q], wait)
  {
    TallyMore(mail, x);
    var b, t, t', queues' := BoxOf(mail, On(x)), TallyOf(mail), TallyOf(mail + [x]), queues[qi := q];
    var before, after := Queued(queues[qi]) + Takes(x), Queued(q) + Gives(b, x) + Loses(b, x);
    forall m ensures Counted(t', queues', wait, m) {
      assert before[m] == after[m];
      CountQueue(t, t', queues, wait, qi, q, m);
    }
  }

  /** A parked sender's message moves to the queue: taken in once, before. */
  lemma {:induction false} ConserveMoved(mail: seq<Post>, queues: Table<Queue>, wait: Table<Waiter>, qi: nat,
                                         q: Option<Queue>, wi: nat)
    requires Conserved(mail, queues, wait) && qi < |queues| && wi < |wait| && wait[wi].Some?
    requires Queued(q) == Queued(queues[qi]) + Held(wait[wi])
    ensures Conserved(mail + [Moved(wait[wi].value)], queues[qi := q], wait[wi := None])
  {
    TallyMore(mail, Moved(wait[wi].value));
    var t, t', queues', wait' := TallyOf(mail), TallyOf(mail + [Moved(wait[wi].value)]),
      queues[qi := q], wait[wi := None];
    forall m ensures Counted(t', queues', wait', m) { CountMoved(t, t', queues, wait, qi, q, wi, m); }
  }

  lemma {:induction false} CountMoved(t: Tally, t': Tally, queues: Table<Queue>, wait: Table<Waiter>, qi: nat,
                                      q: Option<Queue>, wi: nat, m: Msg)
    requires Counted(t, queues, wait, m) && qi < |queues| && wi < |wait|
    requires t'.accepted == t.accepted && t'.delivered == t.delivered && t'.dropped == t.dropped
    requires Queued(q) == Queued(queues[qi]) + Held(wait[wi])
    ensures Counted(t', queues[qi := q], wait[wi := None], m)
  {
    SumUpdate(queues, QueuedTerm(m), qi, q);
    SumUpdate(wait, HeldTerm(m), wi, None);
  }
}
