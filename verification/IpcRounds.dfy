/** What one round of the daemon may do to its books. Each thing that happened to
    a semaphore or a message has a cause in what the round saw, each success told
    is a deed done, and each deed done for a waiter was told to it. */
module IpcRounds {
  import opened Errno
  import opened Slots
  import opened Procs
  import opened SemCore
  import opened MsgCore
  import opened IpcTables
  import opened IpcReplies
  import opened SemLog
  import opened Mail

  newtype u16 = x: int | 0 <= x < 0x1_0000

  datatype Query = GetVal | GetPid | GetNcnt | GetZcnt

  datatype Request =
    | SemGetReq(key: int, nsems: nat, creat: bool, excl: bool, mode: nat)
    | SemOpReq(id: int, ops: seq<SemBuf>, deadline: int)
    | SetValReq(id: int, semnum: int, val: int)
    | SetAllReq(id: int, vals: seq<u16>)
    | SemQueryReq(id: int, cmd: Query, semnum: int)
    | SemChangeReq(id: int, mode: nat, uid: nat, gid: nat)
    | SemRemoveReq(id: int)
    | MsgGetReq(key: int, creat: bool, excl: bool, mode: nat)
    | MsgSndReq(id: int, m: Msg, nowait: bool, deadline: int)
    | MsgRcvReq(id: int, want: Want, msgsz: nat, noerror: bool, nowait: bool, deadline: int)
    | MsgChangeReq(id: int, mode: nat, uid: nat, gid: nat, qbytes: nat)
    | MsgRemoveReq(id: int)

  /** What a request comes to: an answer, a message granted, a connection
      parked, or one dropped. */
  datatype Served =
    | Answer(ret: int)
    | Grant(ret: int, mtype: int, payload: seq<int>)
    | Parked
    | Dropped

  datatype Ready = Ready(seqno: nat, cancel: bool)

  /** What one round of the poll loop sees: whether the poll reported anything,
      which parked connections did, the request served, the time, whether the
      reclaim tick or the idle check is due, and what /proc says. */
  datatype Event = Event(polled: bool, ready: seq<Ready>, request: Option<Request>, caller: Caller,
                         now: int, tick: bool, idle: bool, world: World)

  function Ints(v: seq<u16>): (r: seq<int>)
    ensures |r| == |v| && forall i :: 0 <= i < |r| ==> r[i] == v[i] as int
  {
    seq(|v|, i requires 0 <= i < |v| => v[i] as int)
  }

  /** How many bytes of a message a receive is given. */
  function Granted(m: Msg, msgsz: nat): (n: nat)
    ensures n <= |m.data| && n <= msgsz && (n < msgsz ==> n == |m.data|)
  {
    if |m.data| <= msgsz then |m.data| else msgsz
  }

  /** A grant of message `m`: its type, and its bytes whole unless the receiver
      asked for truncation. */
  ghost predicate GrantOf(r: Served, m: Msg, msgsz: nat, noerror: bool) {
    && r.Grant? && r.mtype == m.mtype && r.ret == |r.payload| && (|m.data| <= msgsz || noerror)
    && r.payload == if |m.data| <= msgsz then m.data else m.data[..msgsz]
  }

  // ---- who waits ----

  /** A waiter but for the note of the operation it slept on last. */
  function Plea(w: Waiter): Waiter {
    if w.job.SemJob? then w.(job := SemJob(w.job.ops, 0)) else w
  }

  /** The request is the one this waiter would make. */
  ghost predicate Asks(q: Request, c: Caller, world: World, w: Waiter) {
    && w.pid == c.pid && w.start == world(c.pid).start
    && match q
       case SemOpReq(id, ops, deadline) =>
         w.id == id && w.deadline == deadline && w.job.SemJob? && w.job.ops == ops
       case MsgSndReq(id, m, _, deadline) => w.id == id && w.deadline == deadline && w.job == SendJob(m)
       case MsgRcvReq(id, want, msgsz, noerror, _, deadline) =>
         w.id == id && w.deadline == deadline && w.job == RecvJob(want, msgsz, noerror)
       case _ => false
  }

  /** The waiters, the number the next of them gets, the answers sent to them, and
      the two logs. */
  datatype Books = Books(wait: Table<Waiter>, next: nat, replies: seq<Reply>, log: seq<Move>, mail: seq<Post>)

  /** The request would park this waiter, under the number that is next. */
  ghost predicate CameWith(w: Waiter, b: Books, e: Event) {
    e.polled && e.request.Some? && Asks(e.request.value, e.caller, e.world, w) && w.seqno == b.next
  }

  ghost predicate StoodIn(w: Waiter, wait: Table<Waiter>) {
    exists k :: 0 <= k < |wait| && wait[k].Some? && Plea(wait[k].value) == Plea(w)
  }

  /** The waiter was parked before the round, or its request was. */
  ghost predicate Stood(w: Waiter, b: Books, e: Event, r: Option<Served>) {
    StoodIn(w, b.wait) || (r == Some(Parked) && CameWith(w, b, e))
  }

  // ---- causes ----

  predicate Asked(e: Event, q: Request) {
    e.polled && e.request == Some(q)
  }

  /** The round looks for the dead: at the tick, or with nothing to do. */
  predicate Looks(e: Event) {
    e.tick || (!e.polled && e.idle)
  }

  /** The request names the set in a way that settles the dead on it first. */
  predicate Touches(e: Event, id: int) {
    e.polled && e.request.Some? &&
    match e.request.value
    case SemOpReq(i, _, _) => i == id
    case SetValReq(i, _, _) => i == id
    case SemQueryReq(i, _, _) => i == id
    case SemChangeReq(i, _, _, _) => i == id
    case SemRemoveReq(i) => i == id
    case _ => false
  }

  ghost predicate OpAsked(e: Event, id: int, pid: int, ops: seq<SemBuf>) {
    && e.polled && e.request.Some? && e.request.value.SemOpReq?
    && e.request.value.id == id && e.request.value.ops == ops && e.caller.pid == pid
  }

  /** The vector is what waiter `w`, of number `to`, waits for. */
  ghost predicate Semop(w: Waiter, id: int, pid: int, ops: seq<SemBuf>, to: nat) {
    w.seqno == to && w.id == id && w.pid == pid && w.job.SemJob? && w.job.ops == ops
  }

  /** The answer was sent between. */
  ghost predicate ToldNew(b: Books, b': Books, rep: Reply) {
    exists i :: |b.replies| <= i < |b'.replies| && b'.replies[i] == rep
  }

  /** Why a semaphore may move in a round: by what the request asked, and then
      this was its answer; by what a waiter waited for, and then it was told; by
      the end of a process. */
  ghost predicate MoveDue(m: Move, b: Books, b': Books, e: Event, r: Option<Served>) {
    match m
    case Did(id, pid, _, ops, to) =>
      if to == 0 then OpAsked(e, id, pid, ops) && r == Some(Answer(0))
      else ToldNew(b, b', Reply(to, 0, 0, [])) && exists w :: Stood(w, b, e, r) && Semop(w, id, pid, ops, to)
    case Died(id, pid, start) =>
      (e.world(pid).start != start || e.world(pid).zombie) && (Looks(e) || Touches(e, id))
    case SetOne(id, n, v, pid) => Asked(e, SetValReq(id, n, v)) && e.caller.pid == pid && r == Some(Answer(0))
    case SetMany(id, vals, pid) =>
      && e.polled && e.request.Some? && e.request.value.SetAllReq? && e.request.value.id == id
      && Ints(e.request.value.vals) == vals && e.caller.pid == pid && r == Some(Answer(0))
    case Made(id, nsems) =>
      e.polled && e.request.Some? && e.request.value.SemGetReq? &&
      e.request.value.nsems == nsems && r == Some(Answer(id))
    case Gone(id) => Asked(e, SemRemoveReq(id)) && r == Some(Answer(0))
  }

  function GrantReply(to: nat, m: Msg, msgsz: nat): Reply {
    Reply(to, Granted(m, msgsz), m.mtype, m.data[..Granted(m, msgsz)])
  }

  /** The message was granted to waiter `w`. */
  ghost predicate GrantedTo(w: Waiter, id: int, want: Want, to: nat, m: Msg, b: Books, b': Books) {
    && w.seqno == to && w.id == id && w.job.RecvJob? && w.job.want == want
    && (|m.data| <= w.job.msgsz || w.job.noerror)
    && ToldNew(b, b', GrantReply(to, m, w.job.msgsz))
  }

  ghost predicate GrantedNow(e: Event, r: Option<Served>, id: int, want: Want, m: Msg) {
    && e.polled && e.request.Some? && e.request.value.MsgRcvReq? && e.request.value.id == id
    && e.request.value.want == want
    && r.Some? && GrantOf(r.value, m, e.request.value.msgsz, e.request.value.noerror)
  }

  ghost predicate SendAsked(e: Event, id: int, m: Msg) {
    e.polled && e.request.Some? && e.request.value.MsgSndReq? && e.request.value.id == id && e.request.value.m == m
  }

  ghost predicate SizeAsked(e: Event, id: int, cap: nat) {
    e.polled && e.request.Some? && e.request.value.MsgChangeReq? && e.request.value.id == id &&
    e.request.value.qbytes == cap
  }

  /** Why a sender may be let go with its message. */
  ghost predicate WhyDue(w: Waiter, why: Why, e: Event, r: Option<Served>) {
    match why
    case Late(now) => now == e.now && 0 <= w.deadline <= now
    case Removed(id, sem) => !sem && id == w.id && Asked(e, MsgRemoveReq(id)) && r == Some(Answer(0))
    case Ended(_) => Dead(e.world, w.pid, w.start) && Looks(e)
    case Reported(seqno, cancel) => e.polled && seqno == w.seqno && Ready(seqno, cancel) in e.ready
  }

  /** Why entry `k` of the messages' log may be made in a round. */
  ghost predicate PostDue(k: nat, b: Books, b': Books, e: Event, r: Option<Served>)
    requires k < |b'.mail|
  {
    match b'.mail[k]
    case Opened(id) => e.polled && e.request.Some? && e.request.value.MsgGetReq? && r == Some(Answer(id))
    case Freed(id) => Asked(e, MsgRemoveReq(id)) && r == Some(Answer(0))
    case Sized(id, cap) => SizeAsked(e, id, cap) && r == Some(Answer(0))
    case Sent(id, m) => SendAsked(e, id, m) && r == Some(Answer(0)) && RoomFor(b'.mail[..k], id, |m.data|)
    case Kept(w) => CameWith(w, b, e) && r == Some(Parked)
    case Moved(w) =>
      && w.seqno > 0 && Stood(w, b, e, r) && ToldNew(b, b', Reply(w.seqno, 0, 0, []))
      && w.job.SendJob? && RoomFor(b'.mail[..k], w.id, |w.job.msg.data|)
    case Got(id, want, to) =>
      var msgs := BoxOf(b'.mail[..k], id).msgs;
      var p := Pick(msgs, want);
      && p >= 0
      && if to == 0 then GrantedNow(e, r, id, want, msgs[p])
         else exists w :: Stood(w, b, e, r) && GrantedTo(w, id, want, to, msgs[p], b, b')
    case Left(w, why) => Stood(w, b, e, r) && WhyDue(w, why, e, r)
  }

  /** Two deeds for one waiter, or for one request. */
  ghost predicate SameMove(x: Move, y: Move) {
    x.Did? && y.Did? && x.to == y.to
  }

  ghost predicate Deed(x: Post) {
    x.Sent? || x.Kept? || x.Moved? || x.Got?
  }

  ghost function DoneFor(x: Post): nat {
    match x
    case Moved(w) => w.seqno
    case Got(_, _, to) => to
    case _ => 0
  }

  ghost predicate SamePost(x: Post, y: Post) {
    Deed(x) && Deed(y) && DoneFor(x) == DoneFor(y)
  }

  ghost predicate NoTwice(replies: seq<Reply>) {
    forall i, j :: 0 <= i < j < |replies| ==> replies[i].to != replies[j].to
  }

  /** As long as nobody is answered twice, nothing is done twice for anybody. */
  ghost predicate DoneOnce(b: Books, b': Books) {
    NoTwice(b'.replies) ==>
      && (forall j, k :: |b.log| <= j < k < |b'.log| ==> !SameMove(b'.log[j], b'.log[k]))
      && (forall j, k :: |b.mail| <= j < k < |b'.mail| ==> !SamePost(b'.mail[j], b'.mail[k]))
  }

  ghost predicate DidFor(m: Move, w: Waiter) {
    m.Did? && m.to == w.seqno && m.id == w.id && m.pid == w.pid && w.job.SemJob? && m.ops == w.job.ops
  }

  ghost predicate MovedFor(x: Post, w: Waiter) {
    x.Moved? && Plea(x.w) == Plea(w)
  }

  ghost predicate GotFor(x: Post, w: Waiter) {
    x.Got? && x.to == w.seqno && x.id == w.id && w.job.RecvJob? && x.want == w.job.want
  }

  ghost predicate NewMove(b: Books, b': Books, w: Waiter) {
    exists k :: |b.log| <= k < |b'.log| && DidFor(b'.log[k], w)
  }

  ghost predicate NewMoved(b: Books, b': Books, w: Waiter) {
    exists k :: |b.mail| <= k < |b'.mail| && MovedFor(b'.mail[k], w)
  }

  ghost predicate NewGot(b: Books, b': Books, w: Waiter) {
    exists k :: |b.mail| <= k < |b'.mail| && GotFor(b'.mail[k], w)
  }

  /** At some moment between, the vector was refused with this. */
  ghost predicate RefusedIn(b: Books, b': Books, w: Waiter, errno: int)
    requires w.job.SemJob?
  {
    exists k :: |b.log| <= k <= |b'.log| && RefusedBy(b'.log[..k], w.id, w.pid, w.job.ops, errno)
  }

  /** The message a receive is due is too long for it. */
  ghost predicate Overlong(mail: seq<Post>, w: Waiter)
    requires w.job.RecvJob?
  {
    var msgs := BoxOf(mail, w.id).msgs;
    var p := Pick(msgs, w.job.want);
    p >= 0 && |msgs[p].data| > w.job.msgsz && !w.job.noerror
  }

  ghost predicate TooLongIn(b: Books, b': Books, w: Waiter)
    requires w.job.RecvJob?
  {
    exists k :: |b.mail| <= k <= |b'.mail| && Overlong(b'.mail[..k], w)
  }

  /** The request that removes an object, which was done. */
  ghost predicate RemovalDone(id: int, sem: bool, e: Event, r: Option<Served>) {
    Asked(e, if sem then SemRemoveReq(id) else MsgRemoveReq(id)) && r == Some(Answer(0))
  }

  /** Why a waiter may be told that its operation was not done: its deadline
      passed, its connection cancelled, its object was removed, its vector was
      refused, or its message is too long. */
  ghost predicate Failed(ret: int, w: Waiter, b: Books, b': Books, e: Event, r: Option<Served>) {
    || (ret == -EAGAIN && 0 <= w.deadline <= e.now)
    || (ret == -EINTR && e.polled && Ready(w.seqno, true) in e.ready)
    || (ret == -EIDRM && RemovalDone(w.id, w.job.SemJob?, e, r))
    || (w.job.SemJob? && RefusedIn(b, b', w, -ret))
    || (w.job.RecvJob? && ret == -E2BIG && TooLongIn(b, b', w))
  }

  /** It was done for the waiter, which was told so. */
  ghost predicate DoneAs(rep: Reply, w: Waiter, b: Books, b': Books) {
    match w.job
    case SemJob(_, _) => rep.ret == 0 && NewMove(b, b', w)
    case SendJob(_) => rep.ret == 0 && NewMoved(b, b', w)
    case RecvJob(_, _, _) => rep.ret >= 0 && NewGot(b, b', w)
  }

  /** An answer says truly that it was done, or has a reason why not. */
  ghost predicate True(rep: Reply, w: Waiter, b: Books, b': Books, e: Event, r: Option<Served>) {
    && w.seqno == rep.to
    && (DoneAs(rep, w, b, b') || (rep == Reply(rep.to, rep.ret, 0, []) && Failed(rep.ret, w, b, b', e, r)))
  }

  ghost predicate TaleDue(rep: Reply, b: Books, b': Books, e: Event, r: Option<Served>) {
    exists w :: Stood(w, b, e, r) && True(rep, w, b, b', e, r)
  }

  ghost predicate Grew(b: Books, b': Books) {
    b.replies <= b'.replies && b.log <= b'.log && b.mail <= b'.mail
  }

  /** A waiter that is gone was answered, or nobody is there to answer: its process
      has ended, as the round found, or its connection is no good. */
  ghost predicate Parted(w: Waiter, b: Books, b': Books, e: Event) {
    || (exists j :: |b.replies| <= j < |b'.replies| && b'.replies[j].to == w.seqno)
    || (Looks(e) && (e.world(w.pid).start != w.start || e.world(w.pid).zombie))
    || (e.polled && Ready(w.seqno, false) in e.ready)
  }

  ghost predicate StaysOrParts(w: Waiter, b: Books, b': Books, e: Event) {
    StoodIn(w, b'.wait) || Parted(w, b, b', e)
  }

  /** Everything logged between has its cause. */
  ghost predicate DeedsDue(b: Books, b': Books, e: Event, r: Option<Served>) {
    && (forall k :: |b.log| <= k < |b'.log| ==> MoveDue(b'.log[k], b, b', e, r))
    && (forall k :: |b.mail| <= k < |b'.mail| ==> PostDue(k, b, b', e, r))
  }

  /** Every answer sent between is to a waiter, and true or for a reason. */
  ghost predicate TalesDue(b: Books, b': Books, e: Event, r: Option<Served>) {
    forall k :: |b.replies| <= k < |b'.replies| ==> TaleDue(b'.replies[k], b, b', e, r)
  }

  /** Whoever waits stood before or came, and whoever stood waits or has parted; a
      number is used up exactly if somebody came. */
  ghost predicate WaitsDue(b: Books, b': Books, e: Event, r: Option<Served>) {
    && b'.next == b.next + (if r == Some(Parked) then 1 else 0)
    && (forall k :: 0 <= k < |b'.wait| && b'.wait[k].Some? ==> Stood(b'.wait[k].value, b, e, r))
    && (forall k :: 0 <= k < |b.wait| && b.wait[k].Some? ==> StaysOrParts(b.wait[k].value, b, b', e))
  }

  /** The books moved as a stretch of a round that saw `e` may move them: one that
      served its request with `r`, or one that did not (None). */
  ghost predicate Fair(b: Books, b': Books, e: Event, r: Option<Served>) {
    Grew(b, b') && DoneOnce(b, b') && DeedsDue(b, b', e, r) && TalesDue(b, b', e, r) && WaitsDue(b, b', e, r)
  }

  lemma {:induction false} FairNone(b: Books, e: Event, r: Option<Served>)
    requires r != Some(Parked)
    ensures Fair(b, b, e, r)
  {
    forall k | 0 <= k < |b.wait| && b.wait[k].Some? ensures StoodIn(b.wait[k].value, b.wait) {
      assert Plea(b.wait[k].value) == Plea(b.wait[k].value);
    }
  }

  // ---- one thing after another ----

  lemma {:induction false} ToldWider(b: Books, b1: Books, b2: Books, b3: Books, rep: Reply)
    requires Grew(b, b1) && Grew(b2, b3) && ToldNew(b1, b2, rep)
    ensures ToldNew(b, b3, rep)
  {
    var i :| |b1.replies| <= i < |b2.replies| && b2.replies[i] == rep;
    assert b3.replies[i] == rep;
  }

  /** Nothing is done for anybody between. */
  ghost predicate Idle(b: Books, b': Books) {
    && (forall k :: |b.log| <= k < |b'.log| ==> !b'.log[k].Did?)
    && (forall k :: |b.mail| <= k < |b'.mail| ==> !Deed(b'.mail[k]))
  }

  /** Of two stretches of a round, one at most does what the request asks. */
  ghost predicate Joins(b1: Books, b2: Books, r1: Option<Served>, r2: Option<Served>) {
    r1.None? || r2.None? || (r1 == r2 != Some(Parked) && Idle(b1, b2))
  }

  ghost function Both(r1: Option<Served>, r2: Option<Served>): Option<Served> {
    if r1.Some? then r1 else r2
  }

  /** Who stood when the second began stood when the first did. */
  lemma {:induction false} StoodBefore(w: Waiter, b: Books, b1: Books, b2: Books, e: Event, r1: Option<Served>,
                                       r2: Option<Served>)
    requires Fair(b, b1, e, r1) && Stood(w, b1, e, r2) && Joins(b1, b2, r1, r2)
    ensures Stood(w, b, e, Both(r1, r2))
  {
    if StoodIn(w, b1.wait) {
      var k :| 0 <= k < |b1.wait| && b1.wait[k].Some? && Plea(b1.wait[k].value) == Plea(w);
      var w1 := b1.wait[k].value;
      assert Stood(w1, b, e, r1);
      if StoodIn(w1, b.wait) {
        var j :| 0 <= j < |b.wait| && b.wait[j].Some? && Plea(b.wait[j].value) == Plea(w1);
        assert Plea(b.wait[j].value) == Plea(w);
      } else {
        SameAsker(w1, w, b, e);
      }
    }
  }

  lemma {:induction false} SameAsker(w: Waiter, w': Waiter, b: Books, e: Event)
    requires Plea(w) == Plea(w') && CameWith(w, b, e)
    ensures CameWith(w', b, e)
  {
    assert w.job.SemJob? ==> Plea(w).job.ops == Plea(w').job.ops;
  }

  lemma {:induction false} MoveEarlier(m: Move, b: Books, b1: Books, b2: Books, e: Event, r1: Option<Served>,
                                       r2: Option<Served>)
    requires Fair(b, b1, e, r1) && MoveDue(m, b1, b2, e, r2) && Joins(b1, b2, r1, r2)
    ensures MoveDue(m, b, b2, e, Both(r1, r2))
  {
    if m.Did? && m.to != 0 {
      var w :| Stood(w, b1, e, r2) && Semop(w, m.id, m.pid, m.ops, m.to);
      StoodBefore(w, b, b1, b2, e, r1, r2);
      ToldWider(b, b1, b2, b2, Reply(m.to, 0, 0, []));
    }
  }

  lemma {:induction false} MoveLater(m: Move, b: Books, b1: Books, b2: Books, e: Event, r1: Option<Served>,
                                     r2: Option<Served>)
    requires Grew(b1, b2) && MoveDue(m, b, b1, e, r1) && Joins(b1, b2, r1, r2)
    ensures MoveDue(m, b, b2, e, Both(r1, r2))
  {
    if m.Did? && m.to != 0 {
      var w :| Stood(w, b, e, r1) && Semop(w, m.id, m.pid, m.ops, m.to);
      assert Stood(w, b, e, Both(r1, r2));
      ToldWider(b, b, b1, b2, Reply(m.to, 0, 0, []));
    }
  }

  lemma {:induction false} PostEarlier(k: nat, b: Books, b1: Books, b2: Books, e: Event, r1: Option<Served>,
                                       r2: Option<Served>)
    requires Fair(b, b1, e, r1) && k < |b2.mail| && PostDue(k, b1, b2, e, r2) && Joins(b1, b2, r1, r2)
    ensures PostDue(k, b, b2, e, Both(r1, r2))
  {
    match b2.mail[k]
    case Moved(w) =>
      StoodBefore(w, b, b1, b2, e, r1, r2);
      ToldWider(b, b1, b2, b2, Reply(w.seqno, 0, 0, []));
    case Left(w, _) => StoodBefore(w, b, b1, b2, e, r1, r2);
    case Got(id, want, to) => if to != 0 { GotEarlier(k, b, b1, b2, e, r1, r2); }
    case _ =>
  }

  ghost predicate GotDue(k: nat, b: Books, b': Books, e: Event, r: Option<Served>)
    requires k < |b'.mail| && b'.mail[k].Got?
  {
    var x := b'.mail[k];
    var msgs := BoxOf(b'.mail[..k], x.id).msgs;
    var p := Pick(msgs, x.want);
    p >= 0 && exists w :: Stood(w, b, e, r) && GrantedTo(w, x.id, x.want, x.to, msgs[p], b, b')
  }

  lemma {:induction false} GotEarlier(k: nat, b: Books, b1: Books, b2: Books, e: Event, r1: Option<Served>,
                                      r2: Option<Served>)
    requires Fair(b, b1, e, r1) && Joins(b1, b2, r1, r2) && k < |b2.mail| && b2.mail[k].Got? && GotDue(k, b1, b2, e, r2)
    ensures GotDue(k, b, b2, e, Both(r1, r2))
  {
    var x := b2.mail[k];
    var msgs := BoxOf(b2.mail[..k], x.id).msgs;
    var m := msgs[Pick(msgs, x.want)];
    var w :| Stood(w, b1, e, r2) && GrantedTo(w, x.id, x.want, x.to, m, b1, b2);
    StoodBefore(w, b, b1, b2, e, r1, r2);
    ToldWider(b, b1, b2, b2, GrantReply(x.to, m, w.job.msgsz));
    assert GrantedTo(w, x.id, x.want, x.to, m, b, b2);
  }

  lemma {:induction false} GotLater(k: nat, b: Books, b1: Books, b2: Books, e: Event, r1: Option<Served>,
                                    r2: Option<Served>)
    requires Grew(b1, b2) && Joins(b1, b2, r1, r2) && k < |b1.mail| && b1.mail[k].Got? && GotDue(k, b, b1, e, r1)
    ensures GotDue(k, b, b2, e, Both(r1, r2))
  {
    assert b2.mail[..k] == b1.mail[..k];
    var x := b1.mail[k];
    var msgs := BoxOf(b1.mail[..k], x.id).msgs;
    var m := msgs[Pick(msgs, x.want)];
    var w :| Stood(w, b, e, r1) && GrantedTo(w, x.id, x.want, x.to, m, b, b1);
    ToldWider(b, b, b1, b2, GrantReply(x.to, m, w.job.msgsz));
    assert Stood(w, b, e, Both(r1, r2)) && GrantedTo(w, x.id, x.want, x.to, m, b, b2);
  }

  lemma {:induction false} PostLater(k: nat, b: Books, b1: Books, b2: Books, e: Event, r1: Option<Served>,
                                     r2: Option<Served>)
    requires Grew(b1, b2) && k < |b1.mail| && PostDue(k, b, b1, e, r1) && Joins(b1, b2, r1, r2)
    ensures PostDue(k, b, b2, e, Both(r1, r2))
  {
    assert b2.mail[..k] == b1.mail[..k];
    match b1.mail[k]
    case Moved(w) => ToldWider(b, b, b1, b2, Reply(w.seqno, 0, 0, []));
    case Got(id, want, to) => if to != 0 { GotLater(k, b, b1, b2, e, r1, r2); }
    case _ =>
  }

  lemma {:induction false} DoneWider(rep: Reply, w: Waiter, b: Books, b1: Books, b2: Books, b3: Books)
    requires DoneAs(rep, w, b1, b2) && Grew(b, b1) && Grew(b2, b3)
    ensures DoneAs(rep, w, b, b3)
  {
    match w.job
    case SemJob(_, _) =>
      var k :| |b1.log| <= k < |b2.log| && DidFor(b2.log[k], w);
      assert DidFor(b3.log[k], w);
    case SendJob(_) =>
      var k :| |b1.mail| <= k < |b2.mail| && MovedFor(b2.mail[k], w);
      assert MovedFor(b3.mail[k], w);
    case RecvJob(_, _, _) =>
      var k :| |b1.mail| <= k < |b2.mail| && GotFor(b2.mail[k], w);
      assert GotFor(b3.mail[k], w);
  }

  lemma {:induction false} RefusedWider(w: Waiter, errno: int, b: Books, b1: Books, b2: Books, b3: Books)
    requires w.job.SemJob? && RefusedIn(b1, b2, w, errno) && Grew(b, b1) && Grew(b2, b3)
    ensures RefusedIn(b, b3, w, errno)
  {
    var k :| |b1.log| <= k <= |b2.log| && RefusedBy(b2.log[..k], w.id, w.pid, w.job.ops, errno);
    assert b3.log[..k] == b2.log[..k];
  }

  lemma {:induction false} TooLongWider(w: Waiter, b: Books, b1: Books, b2: Books, b3: Books)
    requires w.job.RecvJob? && TooLongIn(b1, b2, w) && Grew(b, b1) && Grew(b2, b3)
    ensures TooLongIn(b, b3, w)
  {
    var k :| |b1.mail| <= k <= |b2.mail| && Overlong(b2.mail[..k], w);
    assert b3.mail[..k] == b2.mail[..k];
  }

  lemma {:induction false} TrueWider(rep: Reply, w: Waiter, b: Books, b1: Books, b2: Books, b3: Books, e: Event,
                                     r: Option<Served>, r': Option<Served>)
    requires True(rep, w, b1, b2, e, r) && Grew(b, b1) && Grew(b2, b3) && (r.None? || r' == r)
    ensures True(rep, w, b, b3, e, r')
  {
    if DoneAs(rep, w, b1, b2) {
      DoneWider(rep, w, b, b1, b2, b3);
    } else if w.job.SemJob? && RefusedIn(b1, b2, w, -rep.ret) {
      RefusedWider(w, -rep.ret, b, b1, b2, b3);
    } else if w.job.RecvJob? && TooLongIn(b1, b2, w) {
      TooLongWider(w, b, b1, b2, b3);
    }
  }

  lemma {:induction false} TaleEarlier(rep: Reply, b: Books, b1: Books, b2: Books, e: Event, r1: Option<Served>,
                                       r2: Option<Served>)
    requires Fair(b, b1, e, r1) && TaleDue(rep, b1, b2, e, r2) && Joins(b1, b2, r1, r2)
    ensures TaleDue(rep, b, b2, e, Both(r1, r2))
  {
    var w :| Stood(w, b1, e, r2) && True(rep, w, b1, b2, e, r2);
    StoodBefore(w, b, b1, b2, e, r1, r2);
    TrueWider(rep, w, b, b1, b2, b2, e, r2, Both(r1, r2));
  }

  lemma {:induction false} TaleLater(rep: Reply, b: Books, b1: Books, b2: Books, e: Event, r1: Option<Served>,
                                     r2: Option<Served>)
    requires TaleDue(rep, b, b1, e, r1) && Grew(b1, b2) && Joins(b1, b2, r1, r2)
    ensures TaleDue(rep, b, b2, e, Both(r1, r2))
  {
    var w :| Stood(w, b, e, r1) && True(rep, w, b, b1, e, r1);
    TrueWider(rep, w, b, b, b1, b2, e, r1, Both(r1, r2));
  }

  lemma {:induction false} PartsLater(w: Waiter, b: Books, b1: Books, b2: Books, e: Event, r: Option<Served>)
    requires StaysOrParts(w, b, b1, e) && Fair(b1, b2, e, r) && Grew(b, b1)
    ensures StaysOrParts(w, b, b2, e)
  {
    if StoodIn(w, b1.wait) {
      var k :| 0 <= k < |b1.wait| && b1.wait[k].Some? && Plea(b1.wait[k].value) == Plea(w);
      var w1 := b1.wait[k].value;
      assert StaysOrParts(w1, b1, b2, e);
      if StoodIn(w1, b2.wait) {
        var j :| 0 <= j < |b2.wait| && b2.wait[j].Some? && Plea(b2.wait[j].value) == Plea(w1);
        assert Plea(b2.wait[j].value) == Plea(w);
      } else {
        assert w1.seqno == w.seqno && w1.pid == w.pid && w1.start == w.start;
      }
    } else if exists j :: |b.replies| <= j < |b1.replies| && b1.replies[j].to == w.seqno {
      var j :| |b.replies| <= j < |b1.replies| && b1.replies[j].to == w.seqno;
      assert b2.replies[j].to == w.seqno;
    }
  }

  /** Answers to one waiter in two stretches are two answers. */
  lemma {:induction false} ToldTwice(b: Books, b1: Books, b2: Books, x: Reply, y: Reply)
    requires Grew(b1, b2) && ToldNew(b, b1, x) && ToldNew(b1, b2, y) && NoTwice(b2.replies)
    ensures x.to != y.to
  {
    var i :| |b.replies| <= i < |b1.replies| && b1.replies[i] == x;
    var j :| |b1.replies| <= j < |b2.replies| && b2.replies[j] == y;
    assert b2.replies[i] == x;
  }

  /** A message deed is the request's, or a waiter's that was told. */
  lemma {:induction false} ToldFor(k: nat, b: Books, b': Books, e: Event, r: Option<Served>) returns (rep: Reply)
    requires k < |b'.mail| && PostDue(k, b, b', e, r) && Deed(b'.mail[k])
    ensures if DoneFor(b'.mail[k]) == 0 then r.Some? else rep.to == DoneFor(b'.mail[k]) && ToldNew(b, b', rep)
  {
    rep := Reply(0, 0, 0, []);
    match b'.mail[k]
    case Moved(w) => rep := Reply(w.seqno, 0, 0, []);
    case Got(id, want, to) =>
      if to != 0 {
        var msgs := BoxOf(b'.mail[..k], id).msgs;
        var m := msgs[Pick(msgs, want)];
        var w :| Stood(w, b, e, r) && GrantedTo(w, id, want, to, m, b, b');
        rep := GrantReply(to, m, w.job.msgsz);
      }
    case _ =>
  }

  lemma {:induction false} MovesDiffer(b: Books, b1: Books, b2: Books, x: Move, y: Move, e: Event,
                                       r1: Option<Served>, r2: Option<Served>)
    requires Grew(b1, b2) && NoTwice(b2.replies) && Joins(b1, b2, r1, r2)
    requires MoveDue(x, b, b1, e, r1) && MoveDue(y, b1, b2, e, r2)
    requires exists k :: |b1.log| <= k < |b2.log| && b2.log[k] == y
    ensures !SameMove(x, y)
  {
    if SameMove(x, y) && x.to != 0 { ToldTwice(b, b1, b2, Reply(x.to, 0, 0, []), Reply(y.to, 0, 0, [])); }
  }

  lemma {:induction false} PostsDiffer(b: Books, b1: Books, b2: Books, j: nat, k: nat, e: Event,
                                       r1: Option<Served>, r2: Option<Served>)
    requires Grew(b1, b2) && NoTwice(b2.replies) && Joins(b1, b2, r1, r2) && j < |b1.mail| <= k < |b2.mail|
    requires PostDue(j, b, b1, e, r1) && PostDue(k, b1, b2, e, r2)
    ensures !SamePost(b1.mail[j], b2.mail[k])
  {
    if SamePost(b1.mail[j], b2.mail[k]) {
      var x := ToldFor(j, b, b1, e, r1);
      var y := ToldFor(k, b1, b2, e, r2);
      if DoneFor(b1.mail[j]) != 0 { ToldTwice(b, b1, b2, x, y); }
    }
  }

  lemma {:induction false} OnceJoin(b: Books, b1: Books, b2: Books, e: Event, r1: Option<Served>, r2: Option<Served>)
    requires Fair(b, b1, e, r1) && Fair(b1, b2, e, r2) && Joins(b1, b2, r1, r2)
    ensures DoneOnce(b, b2)
  {
    if NoTwice(b2.replies) {
      assert NoTwice(b1.replies);
      forall j, k | |b.log| <= j < k < |b2.log| ensures !SameMove(b2.log[j], b2.log[k]) {
        if k < |b1.log| {
          assert !SameMove(b1.log[j], b1.log[k]);
        } else if j < |b1.log| {
          MovesDiffer(b, b1, b2, b1.log[j], b2.log[k], e, r1, r2);
        }
      }
      forall j, k | |b.mail| <= j < k < |b2.mail| ensures !SamePost(b2.mail[j], b2.mail[k]) {
        if k < |b1.mail| {
          assert !SamePost(b1.mail[j], b1.mail[k]);
        } else if j < |b1.mail| {
          PostsDiffer(b, b1, b2, j, k, e, r1, r2);
        }
      }
    }
  }

  /** Two fair stretches of one round are one, if they do not both serve it. */
  lemma {:induction false} FairJoin(b: Books, b1: Books, b2: Books, e: Event, r1: Option<Served>, r2: Option<Served>)
    requires Fair(b, b1, e, r1) && Fair(b1, b2, e, r2) && Joins(b1, b2, r1, r2)
    ensures Fair(b, b2, e, Both(r1, r2))
  {
    OnceJoin(b, b1, b2, e, r1, r2);
    forall k | |b.log| <= k < |b2.log| ensures MoveDue(b2.log[k], b, b2, e, Both(r1, r2)) {
      if k < |b1.log| {
        MoveLater(b1.log[k], b, b1, b2, e, r1, r2);
      } else {
        MoveEarlier(b2.log[k], b, b1, b2, e, r1, r2);
      }
    }
    forall k | |b.mail| <= k < |b2.mail| ensures PostDue(k, b, b2, e, Both(r1, r2)) {
      if k < |b1.mail| { PostLater(k, b, b1, b2, e, r1, r2); } else { PostEarlier(k, b, b1, b2, e, r1, r2); }
    }
    forall k | |b.replies| <= k < |b2.replies| ensures TaleDue(b2.replies[k], b, b2, e, Both(r1, r2)) {
      if k < |b1.replies| {
        TaleLater(b1.replies[k], b, b1, b2, e, r1, r2);
      } else {
        TaleEarlier(b2.replies[k], b, b1, b2, e, r1, r2);
      }
    }
    forall k | 0 <= k < |b2.wait| && b2.wait[k].Some? ensures Stood(b2.wait[k].value, b, e, Both(r1, r2)) {
      StoodBefore(b2.wait[k].value, b, b1, b2, e, r1, r2);
    }
    forall k | 0 <= k < |b.wait| && b.wait[k].Some? ensures StaysOrParts(b.wait[k].value, b, b2, e) {
      PartsLater(b.wait[k].value, b, b1, b2, e, r2);
    }
  }

  // ---- the answer to the request ----

  ghost predicate Logged(b: Books, b': Books, m: Move) {
    exists k :: |b.log| <= k < |b'.log| && b'.log[k] == m
  }

  ghost predicate Posted(b: Books, b': Books, x: Post) {
    exists k :: |b.mail| <= k < |b'.mail| && b'.mail[k] == x
  }

  ghost predicate DidNow(b: Books, b': Books, id: int, pid: int, ops: seq<SemBuf>) {
    exists start :: Logged(b, b', Did(id, pid, start, ops, 0))
  }

  /** The connection waits now, or has been let go again. */
  ghost predicate Came(b: Books, b': Books, e: Event) {
    exists w :: CameWith(w, b, e) && StaysOrParts(w, b, b', e)
  }

  /** A success is one: what was asked is in the logs. */
  ghost predicate Earned(b: Books, b': Books, q: Request, pid: int, r: Served) {
    match q
    case SemOpReq(id, ops, _) => r == Answer(0) ==> DidNow(b, b', id, pid, ops)
    case SetValReq(id, n, v) => r == Answer(0) ==> n >= 0 && Logged(b, b', SetOne(id, n, v, pid))
    case SetAllReq(id, vals) => r == Answer(0) ==> Logged(b, b', SetMany(id, Ints(vals), pid))
    case SemRemoveReq(id) => r == Answer(0) ==> Logged(b, b', Gone(id))
    case MsgSndReq(id, m, _, _) => r == Answer(0) ==> Posted(b, b', Sent(id, m))
    case MsgRcvReq(id, want, _, _, _, _) => r.Grant? ==> Posted(b, b', Got(id, want, 0))
    case MsgChangeReq(id, _, _, _, cap) => r == Answer(0) ==> Posted(b, b', Sized(id, cap))
    case MsgRemoveReq(id) => r == Answer(0) ==> Posted(b, b', Freed(id))
    case _ => true
  }

  /** The answer to the request says what came of it. */
  ghost predicate Honest(b: Books, b': Books, e: Event, r: Option<Served>) {
    r.Some? ==>
      && e.polled && e.request.Some? && Earned(b, b', e.request.value, e.caller.pid, r.value)
      && (r.value.Parked? ==> Came(b, b', e))
  }

  /** What a round, or its serving of a request, may do and answer. */
  ghost predicate Just(b: Books, b': Books, e: Event, r: Option<Served>) {
    Fair(b, b', e, r) && Honest(b, b', e, r)
  }

  lemma {:induction false} LoggedWider(b: Books, b1: Books, b2: Books, b3: Books, m: Move)
    requires Grew(b, b1) && Grew(b2, b3) && Logged(b1, b2, m)
    ensures Logged(b, b3, m)
  {
    var k :| |b1.log| <= k < |b2.log| && b2.log[k] == m;
    assert b3.log[k] == m;
  }

  lemma {:induction false} PostedWider(b: Books, b1: Books, b2: Books, b3: Books, x: Post)
    requires Grew(b, b1) && Grew(b2, b3) && Posted(b1, b2, x)
    ensures Posted(b, b3, x)
  {
    var k :| |b1.mail| <= k < |b2.mail| && b2.mail[k] == x;
    assert b3.mail[k] == x;
  }

  lemma {:induction false} EarnedWider(b: Books, b1: Books, b2: Books, b3: Books, q: Request, pid: int, r: Served)
    requires Grew(b, b1) && Grew(b2, b3) && Earned(b1, b2, q, pid, r)
    ensures Earned(b, b3, q, pid, r)
  {
    match q
    case SemOpReq(id, ops, _) =>
      if r == Answer(0) {
        var start :| Logged(b1, b2, Did(id, pid, start, ops, 0));
        LoggedWider(b, b1, b2, b3, Did(id, pid, start, ops, 0));
      }
    case SetValReq(id, n, v) => if r == Answer(0) { LoggedWider(b, b1, b2, b3, SetOne(id, n, v, pid)); }
    case SetAllReq(id, vals) => if r == Answer(0) { LoggedWider(b, b1, b2, b3, SetMany(id, Ints(vals), pid)); }
    case SemRemoveReq(id) => if r == Answer(0) { LoggedWider(b, b1, b2, b3, Gone(id)); }
    case MsgSndReq(id, m, _, _) => if r == Answer(0) { PostedWider(b, b1, b2, b3, Sent(id, m)); }
    case MsgRcvReq(id, want, _, _, _, _) => if r.Grant? { PostedWider(b, b1, b2, b3, Got(id, want, 0)); }
    case MsgChangeReq(id, _, _, _, cap) => if r == Answer(0) { PostedWider(b, b1, b2, b3, Sized(id, cap)); }
    case MsgRemoveReq(id) => if r == Answer(0) { PostedWider(b, b1, b2, b3, Freed(id)); }
    case _ =>
  }

  /** A stretch that serves nothing comes before. */
  lemma {:induction false} JustAfter(b: Books, b1: Books, b2: Books, e: Event, r: Option<Served>)
    requires Fair(b, b1, e, None) && Just(b1, b2, e, r)
    ensures Just(b, b2, e, r)
  {
    FairJoin(b, b1, b2, e, None, r);
    if r.Some? {
      EarnedWider(b, b1, b2, b2, e.request.value, e.caller.pid, r.value);
      if r.value.Parked? {
        var w :| CameWith(w, b1, e) && StaysOrParts(w, b1, b2, e);
        PartedWider(w, b, b1, b2, e);
      }
    }
  }

  lemma {:induction false} PartedWider(w: Waiter, b: Books, b1: Books, b2: Books, e: Event)
    requires Grew(b, b1) && StaysOrParts(w, b1, b2, e)
    ensures StaysOrParts(w, b, b2, e)
  {
    if exists j :: |b1.replies| <= j < |b2.replies| && b2.replies[j].to == w.seqno {
      var j :| |b1.replies| <= j < |b2.replies| && b2.replies[j].to == w.seqno;
      assert |b.replies| <= j;
    }
  }

  /** ... and after. */
  lemma {:induction false} JustBefore(b: Books, b1: Books, b2: Books, e: Event, r: Option<Served>)
    requires Just(b, b1, e, r) && Fair(b1, b2, e, None)
    ensures Just(b, b2, e, r)
  {
    FairJoin(b, b1, b2, e, r, None);
    if r.Some? {
      EarnedWider(b, b, b1, b2, e.request.value, e.caller.pid, r.value);
      if r.value.Parked? {
        var w :| CameWith(w, b, e) && StaysOrParts(w, b, b1, e);
        PartsLater(w, b, b1, b2, e, None);
      }
    }
  }

  /** An answer that claims nothing done. */
  ghost predicate Modest(e: Event, r: Served) {
    && e.polled && e.request.Some? && !r.Parked? && !r.Grant?
    && (r == Answer(0) ==> match e.request.value
                           case SemOpReq(_, _, _) => false
                           case SetValReq(_, _, _) => false
                           case SetAllReq(_, _) => false
                           case SemRemoveReq(_) => false
                           case MsgSndReq(_, _, _, _) => false
                           case MsgChangeReq(_, _, _, _, _) => false
                           case MsgRemoveReq(_) => false
                           case _ => true)
  }

  lemma {:induction false} JustModest(b: Books, b': Books, e: Event, r: Served)
    requires Fair(b, b', e, Some(r)) && Modest(e, r)
    ensures Just(b, b', e, Some(r))
  {
  }

  lemma {:induction false} EidrmCause(rep: Reply, w: Waiter, b: Books, b': Books, e: Event, r: Option<Served>)
    requires True(rep, w, b, b', e, r) && rep.ret == -EIDRM
    ensures RemovalDone(w.id, w.job.SemJob?, e, r)
  {
  }

  /** The object a waiter waited for was removed between. */
  ghost predicate Unseated(w: Waiter, b: Books, b': Books) {
    if w.job.SemJob? then Logged(b, b', Gone(w.id)) else Posted(b, b', Freed(w.id))
  }

  lemma {:induction false} RemovalLogged(w: Waiter, b: Books, b': Books, e: Event, r: Option<Served>)
    requires Honest(b, b', e, r) && RemovalDone(w.id, w.job.SemJob?, e, r)
    ensures Unseated(w, b, b')
  {
  }

  /** Whoever was told EIDRM waited for an object whose removal is in the logs: no
      sleeper is failed so while what it waits for is there. */
  lemma {:induction false} EidrmIsLogged(b: Books, b': Books, e: Event, r: Option<Served>, k: nat)
    requires Just(b, b', e, r) && |b.replies| <= k < |b'.replies| && b'.replies[k].ret == -EIDRM
    ensures exists w :: Stood(w, b, e, r) && w.seqno == b'.replies[k].to && Unseated(w, b, b')
  {
    assert TalesDue(b, b', e, r);
    var w :| Stood(w, b, e, r) && True(b'.replies[k], w, b, b', e, r);
    EidrmCause(b'.replies[k], w, b, b', e, r);
    RemovalLogged(w, b, b', e, r);
  }

  // ---- the single things that happen ----

  lemma {:induction false} Stands(wait: Table<Waiter>, k: nat)
    requires k < |wait| && wait[k].Some?
    ensures StoodIn(wait[k].value, wait)
  {
    assert Plea(wait[k].value) == Plea(wait[k].value);
  }

  lemma {:induction false} LeaveStood(wait: Table<Waiter>, wait': Table<Waiter>, wi: nat)
    requires wi < |wait| && wait' == wait[wi := None]
    ensures forall k :: 0 <= k < |wait| && wait'[k].Some? ==> StoodIn(wait'[k].value, wait)
    ensures forall k :: 0 <= k < |wait| && k != wi && wait[k].Some? ==> StoodIn(wait[k].value, wait')
  {
    forall k | 0 <= k < |wait| && k != wi && wait[k].Some?
      ensures StoodIn(wait[k].value, wait') && StoodIn(wait'[k].value, wait)
    {
      Stands(wait, k);
      Stands(wait', k);
    }
  }

  lemma {:induction false} LeaveWaits(b: Books, b': Books, wi: nat, e: Event, r: Option<Served>)
    requires wi < |b.wait| && b.wait[wi].Some? && b'.wait == b.wait[wi := None] && Parted(b.wait[wi].value, b, b', e)
    requires r != Some(Parked) && b'.next == b.next
    ensures WaitsDue(b, b', e, r)
  {
    LeaveStood(b.wait, b'.wait, wi);
    forall k | 0 <= k < |b.wait| && b.wait[k].Some? ensures StaysOrParts(b.wait[k].value, b, b', e) {
      assert k == wi || StoodIn(b.wait[k].value, b'.wait);
    }
  }

  lemma {:induction false} LeaveTales(b: Books, b': Books, w: Waiter, e: Event, r: Option<Served>)
    requires Stood(w, b, e, r) && forall k :: |b.replies| <= k < |b'.replies| ==> True(b'.replies[k], w, b, b', e, r)
    ensures TalesDue(b, b', e, r)
  {
  }

  /** One entry at most in each log. */
  lemma {:induction false} FewDeeds(b: Books, b': Books, e: Event, r: Option<Served>)
    requires |b'.log| <= |b.log| + 1 && (|b'.log| == |b.log| + 1 ==> MoveDue(b'.log[|b.log|], b, b', e, r))
    requires |b'.mail| <= |b.mail| + 1 && (|b'.mail| == |b.mail| + 1 ==> PostDue(|b.mail|, b, b', e, r))
    ensures DeedsDue(b, b', e, r) && DoneOnce(b, b')
  {
    forall k | |b.mail| <= k < |b'.mail| ensures PostDue(k, b, b', e, r) { assert k == |b.mail|; }
  }

  /** One waiter leaves, with what was done and told for it. */
  lemma {:induction false} FairLeave(b: Books, b': Books, wi: nat, e: Event, r: Option<Served>)
    requires Grew(b, b') && wi < |b.wait| && b.wait[wi].Some? && b'.wait == b.wait[wi := None]
    requires DeedsDue(b, b', e, r) && DoneOnce(b, b')
    requires forall k :: |b.replies| <= k < |b'.replies| ==> True(b'.replies[k], b.wait[wi].value, b, b', e, r)
    requires Parted(b.wait[wi].value, b, b', e) && r != Some(Parked) && b'.next == b.next
    ensures Fair(b, b', e, r)
  {
    Stands(b.wait, wi);
    LeaveTales(b, b', b.wait[wi].value, e, r);
    LeaveWaits(b, b', wi, e, r);
  }

  ghost predicate Alone(b: Books, b': Books, wi: nat, rep: Reply) {
    && wi < |b.wait| && b.wait[wi].Some? && rep.to == b.wait[wi].value.seqno
    && b'.wait == b.wait[wi := None] && b'.next == b.next && b'.replies == b.replies + [rep]
  }

  lemma {:induction false} FairAlone(b: Books, b': Books, wi: nat, rep: Reply, e: Event)
    requires Alone(b, b', wi, rep) && Grew(b, b') && True(rep, b.wait[wi].value, b, b', e, None)
    requires |b'.log| <= |b.log| + 1 && (|b'.log| == |b.log| + 1 ==> MoveDue(b'.log[|b.log|], b, b', e, None))
    requires |b'.mail| <= |b.mail| + 1 && (|b'.mail| == |b.mail| + 1 ==> PostDue(|b.mail|, b, b', e, None))
    ensures Fair(b, b', e, None)
  {
    assert b'.replies[|b.replies|].to == b.wait[wi].value.seqno;
    FewDeeds(b, b', e, None);
    FairLeave(b, b', wi, e, None);
  }

  /** A parked semop went through, or was refused. */
  lemma {:induction false} FairSem(b: Books, b': Books, wi: nat, rep: Reply, e: Event)
    requires Alone(b, b', wi, rep) && b.wait[wi].value.job.SemJob? && b.wait[wi].value.seqno > 0 && b'.mail == b.mail
    requires if rep.ret == 0 then rep == Reply(rep.to, 0, 0, []) && |b'.log| == |b.log| + 1 && b.log <= b'.log
                                  && DidFor(b'.log[|b.log|], b.wait[wi].value)
             else rep == Reply(rep.to, rep.ret, 0, []) && b'.log == b.log
                  && RefusedBy(b.log, b.wait[wi].value.id, b.wait[wi].value.pid, b.wait[wi].value.job.ops, -rep.ret)
    ensures Fair(b, b', e, None)
  {
    var w := b.wait[wi].value;
    if rep.ret == 0 {
      Stands(b.wait, wi);
      assert b'.replies[|b.replies|] == rep;
      assert ToldNew(b, b', rep) && Stood(w, b, e, None) && Semop(w, b'.log[|b.log|].id, w.pid, w.job.ops, w.seqno);
    } else {
      assert b'.log[..|b.log|] == b.log;
      assert RefusedIn(b, b', w, -rep.ret);
    }
    FairAlone(b, b', wi, rep, e);
  }

  /** A parked sender's message went to its queue. */
  lemma {:induction false} FairMoved(b: Books, b': Books, wi: nat, rep: Reply, e: Event)
    requires Alone(b, b', wi, rep) && b.wait[wi].value.job.SendJob? && rep == Reply(rep.to, 0, 0, []) && rep.to > 0
    requires b'.log == b.log && b'.mail == b.mail + [Moved(b.wait[wi].value)]
    requires RoomFor(b.mail, b.wait[wi].value.id, |b.wait[wi].value.job.msg.data|)
    ensures Fair(b, b', e, None)
  {
    Stands(b.wait, wi);
    assert b'.replies[|b.replies|] == rep;
    assert MovedFor(b'.mail[|b.mail|], b.wait[wi].value) && b'.mail[..|b.mail|] == b.mail;
    FairAlone(b, b', wi, rep, e);
  }

  /** A parked receiver was given its message. */
  lemma {:induction false} FairGot(b: Books, b': Books, wi: nat, rep: Reply, m: Msg, e: Event)
    requires Alone(b, b', wi, rep) && b.wait[wi].value.job.RecvJob? && b.wait[wi].value.seqno > 0
    requires var w := b.wait[wi].value;
             && (|m.data| <= w.job.msgsz || w.job.noerror) && rep == GrantReply(w.seqno, m, w.job.msgsz)
             && b'.log == b.log && b'.mail == b.mail + [Got(w.id, w.job.want, w.seqno)]
    requires var msgs := BoxOf(b.mail, b.wait[wi].value.id).msgs;
             var p := Pick(msgs, b.wait[wi].value.job.want); p >= 0 && msgs[p] == m
    ensures Fair(b, b', e, None)
  {
    var w := b.wait[wi].value;
    Stands(b.wait, wi);
    assert b'.replies[|b.replies|] == rep;
    assert b'.mail[..|b.mail|] == b.mail;
    assert GotFor(b'.mail[|b.mail|], w);
    assert Stood(w, b, e, None) && GrantedTo(w, w.id, w.job.want, w.seqno, m, b, b');
    FairAlone(b, b', wi, rep, e);
  }

  /** A parked receiver was told its message is too long. */
  lemma {:induction false} FairTold(b: Books, b': Books, wi: nat, rep: Reply, e: Event)
    requires Alone(b, b', wi, rep) && rep == Reply(rep.to, -E2BIG, 0, []) && b'.log == b.log && b'.mail == b.mail
    requires b.wait[wi].value.job.RecvJob? && Overlong(b.mail, b.wait[wi].value)
    ensures Fair(b, b', e, None)
  {
    assert b'.mail[..|b.mail|] == b.mail;
    assert TooLongIn(b, b', b.wait[wi].value);
    FairAlone(b, b', wi, rep, e);
  }

  lemma {:induction false} NoteStood(wait: Table<Waiter>, wait': Table<Waiter>, k: nat)
    requires k < |wait| == |wait'| && wait[k].Some? && wait'[k].Some? && Plea(wait'[k].value) == Plea(wait[k].value)
    ensures StoodIn(wait[k].value, wait') && StoodIn(wait'[k].value, wait)
  {
  }

  /** A waiter stays, under another note. */
  lemma {:induction false} FairNote(b: Books, b': Books, wi: nat, e: Event)
    requires wi < |b.wait| == |b'.wait| && b.wait[wi].Some? && b'.wait == b.wait[wi := b'.wait[wi]]
    requires b'.wait[wi].Some? && Plea(b'.wait[wi].value) == Plea(b.wait[wi].value)
    requires b' == b.(wait := b'.wait)
    ensures Fair(b, b', e, None)
  {
    forall k | 0 <= k < |b.wait| && b.wait[k].Some?
      ensures Stood(b'.wait[k].value, b, e, None) && StaysOrParts(b.wait[k].value, b, b', e)
    {
      NoteStood(b.wait, b'.wait, k);
    }
    FewDeeds(b, b', e, None);
  }

  // ---- letting waiters go ----

  predicate DeadWaiter(w: Option<Waiter>, world: World) {
    w.Some? && Dead(world, w.value.pid, w.value.start)
  }

  predicate ParkedOn(w: Option<Waiter>, id: int, sem: bool) {
    w.Some? && w.value.id == id && w.value.job.SemJob? == sem
  }

  predicate Expired(w: Option<Waiter>, now: int) {
    w.Some? && 0 <= w.value.deadline <= now
  }

  /** Who is let go for a reason. */
  predicate Leaves(w: Option<Waiter>, why: Why) {
    match why
    case Late(now) => Expired(w, now)
    case Removed(id, sem) => ParkedOn(w, id, sem)
    case Ended(world) => DeadWaiter(w, world)
    case Reported(seqno, _) => w.Some? && w.value.seqno == seqno
  }

  /** Of the first `i` places, exactly those have been let go. */
  ghost predicate LeftUpTo(wait: Table<Waiter>, wait': Table<Waiter>, why: Why, i: nat) {
    |wait'| == |wait| && forall k :: 0 <= k < |wait| ==>
      wait'[k] == if k < i && Leaves(wait[k], why) then None else wait[k]
  }

  lemma {:induction false} LeftMore(wait: Table<Waiter>, wait': Table<Waiter>, why: Why, i: nat)
    requires LeftUpTo(wait, wait', why, i) && i < |wait|
    ensures wait'[i] == wait[i]
    ensures LeftUpTo(wait, if Leaves(wait[i], why) then wait'[i := None] else wait', why, i + 1)
  {
  }

  /** What they are told. */
  function Farewell(why: Why): Option<int> {
    match why
    case Late(_) => Some(-EAGAIN)
    case Removed(_, _) => Some(-EIDRM)
    case Ended(_) => None
    case Reported(_, cancel) => if cancel then Some(-EINTR) else None
  }

  /** The round has the reason. */
  ghost predicate SweepDue(why: Why, e: Event, r: Option<Served>) {
    r != Some(Parked) &&
    match why
    case Late(now) => now == e.now
    case Removed(id, sem) => RemovalDone(id, sem, e, r)
    case Ended(world) => world == e.world && Looks(e)
    case Reported(seqno, cancel) => e.polled && Ready(seqno, cancel) in e.ready
  }

  ghost function LeftOf(w: Waiter, why: Why): seq<Post> {
    if w.job.SendJob? then [Left(w, why)] else []
  }

  lemma {:induction false} FairLeft(b: Books, b': Books, wi: nat, why: Why, e: Event, r: Option<Served>)
    requires wi < |b.wait| && Leaves(b.wait[wi], why) && SweepDue(why, e, r)
    requires var w, ret := b.wait[wi].value, Farewell(why);
             && b'.wait == b.wait[wi := None] && b'.next == b.next && b'.log == b.log
             && b'.mail == b.mail + LeftOf(w, why)
             && b'.replies == b.replies + if ret.Some? then [Reply(w.seqno, ret.value, 0, [])] else []
    ensures Fair(b, b', e, r)
  {
    var w := b.wait[wi].value;
    Stands(b.wait, wi);
    if Farewell(why).Some? { assert b'.replies[|b.replies|] == Reply(w.seqno, Farewell(why).value, 0, []); }
    if why.Reported? { assert Ready(w.seqno, why.cancel) in e.ready; }
    FewDeeds(b, b', e, r);
    FairLeave(b, b', wi, e, r);
  }

  /** The books moved as letting waiters go for one reason moves them. */
  ghost predicate Swept(b: Books, b': Books, why: Why) {
    forall e, r :: SweepDue(why, e, r) ==> Fair(b, b', e, r)
  }

  lemma {:induction false} SweptOne(b: Books, b1: Books, b2: Books, wi: nat, why: Why)
    requires Swept(b, b1, why) && wi < |b1.wait| && Leaves(b1.wait[wi], why)
    requires var w, ret := b1.wait[wi].value, Farewell(why);
             && b2.wait == b1.wait[wi := None] && b2.next == b1.next && b2.log == b1.log
             && b2.mail == b1.mail + LeftOf(w, why)
             && b2.replies == b1.replies + if ret.Some? then [Reply(w.seqno, ret.value, 0, [])] else []
    ensures Swept(b, b2, why)
  {
    forall e, r | SweepDue(why, e, r) ensures Fair(b, b2, e, r) {
      FairLeft(b1, b2, wi, why, e, r);
      FairJoin(b, b1, b2, e, r, r);
    }
  }

  lemma {:induction false} SweptNone(b: Books, why: Why)
    ensures Swept(b, b, why)
  {
    forall e, r | SweepDue(why, e, r) ensures Fair(b, b, e, r) { FairNone(b, e, r); }
  }

  /** The books moved as waiters going on moves them, in any round. */
  ghost predicate Turned(b: Books, b': Books) {
    match (b, b')
    case (x, y) => forall e :: Fair(x, y, e, None)
  }

  lemma {:induction false} TurnedJoin(b: Books, b1: Books, b2: Books)
    requires Turned(b, b1) && Turned(b1, b2)
    ensures Turned(b, b2)
  {
    forall e ensures Fair(b, b2, e, None) { FairJoin(b, b1, b2, e, None, None); }
  }

  lemma {:induction false} TurnedNone(b: Books)
    ensures Turned(b, b)
  {
    forall e ensures Fair(b, b, e, None) { FairNone(b, e, None); }
  }

  // ---- the request served ----

  lemma {:induction false} SameWaits(b: Books, b': Books, e: Event, r: Option<Served>)
    requires b'.wait == b.wait && b'.next == b.next && r != Some(Parked)
    ensures WaitsDue(b, b', e, r)
  {
    forall k | 0 <= k < |b.wait| && b.wait[k].Some? ensures StoodIn(b.wait[k].value, b.wait) { Stands(b.wait, k); }
  }

  /** Processes ended, or one thing was done to a semaphore; nobody parked. */
  lemma {:induction false} FairLog(b: Books, b': Books, e: Event, r: Option<Served>)
    requires b' == b.(log := b'.log) && b.log <= b'.log
    requires forall k :: |b.log| <= k < |b'.log| ==> MoveDue(b'.log[k], b, b', e, r)
    requires (|b'.log| <= |b.log| + 1 || Idle(b, b')) && r != Some(Parked)
    ensures Fair(b, b', e, r)
  {
    SameWaits(b, b', e, r);
  }

  /** An entry in the messages' log, nobody parked. */
  lemma {:induction false} FairPost(b: Books, b': Books, x: Post, e: Event, r: Option<Served>)
    requires b' == b.(mail := b.mail + [x]) && PostDue(|b.mail|, b, b', e, r) && r != Some(Parked)
    ensures Fair(b, b', e, r)
  {
    SameWaits(b, b', e, r);
    FewDeeds(b, b', e, r);
  }

  ghost function KeptOf(w: Waiter): seq<Post> {
    if w.job.SendJob? then [Kept(w)] else []
  }

  /** The request's connection parked. */
  lemma {:induction false} FairPark(b: Books, b': Books, wi: nat, w: Waiter, e: Event)
    requires wi < |b.wait| && b.wait[wi].None? && CameWith(w, b, e)
    requires b' == b.(wait := b.wait[wi := Some(w)], next := b.next + 1, mail := b.mail + KeptOf(w))
    ensures Fair(b, b', e, Some(Parked))
  {
    ParkWaits(b, b', wi, w, e);
    FewDeeds(b, b', e, Some(Parked));
  }

  lemma {:induction false} ParkWaits(b: Books, b': Books, wi: nat, w: Waiter, e: Event)
    requires wi < |b.wait| && b.wait[wi].None? && CameWith(w, b, e)
    requires b'.wait == b.wait[wi := Some(w)] && b'.next == b.next + 1
    ensures WaitsDue(b, b', e, Some(Parked))
  {
    forall k | 0 <= k < |b.wait| && k != wi && b.wait[k].Some?
      ensures StoodIn(b.wait[k].value, b'.wait) && StoodIn(b'.wait[k].value, b.wait)
    {
      NoteStood(b.wait, b'.wait, k);
    }
  }

  // ---- runs ----

  /** A run: the books before, between and after its rounds, each round just. */
  ghost predicate Chain(trail: seq<Books>, events: seq<Event>, answers: seq<Option<Served>>) {
    && |trail| == |events| + 1 == |answers| + 1
    && forall j :: 0 <= j < |events| ==> Just(trail[j], trail[j + 1], events[j], answers[j])
  }

  lemma {:induction false} ChainMore(trail: seq<Books>, events: seq<Event>, answers: seq<Option<Served>>, i: nat,
                                     b: Books, r: Option<Served>)
    requires i < |events| && Chain(trail, events[..i], answers) && Just(trail[i], b, events[i], r)
    ensures Chain(trail + [b], events[..i + 1], answers + [r])
  {
    forall j | 0 <= j < i + 1
      ensures Just((trail + [b])[j], (trail + [b])[j + 1], events[..i + 1][j], (answers + [r])[j])
    {
      if j < i { assert Just(trail[j], trail[j + 1], events[..i][j], answers[j]); }
    }
  }
}
