/** What holds over a whole run of the daemon, of any length and whatever its
    rounds saw. */
module IpcRuns {
  import opened Slots
  import opened MsgCore
  import opened IpcTables
  import opened IpcReplies
  import opened SemLog
  import opened Mail
  import opened IpcRounds

  // ---- rounds of a run ----

  lemma {:induction false} ChainGrows(trail: seq<Books>, events: seq<Event>, answers: seq<Option<Served>>, i: nat,
                                      j: nat)
    requires Chain(trail, events, answers) && i <= j < |trail|
    ensures Grew(trail[i], trail[j])
  {
    if i < j {
      ChainGrows(trail, events, answers, i, j - 1);
      assert Just(trail[j - 1], trail[j - 1 + 1], events[j - 1], answers[j - 1]);
    }
  }

  ghost predicate LogsGrow(trail: seq<Books>) {
    forall j {:trigger trail[j]} :: 0 < j < |trail| ==> Grew(trail[j - 1], trail[j])
  }

  lemma {:induction false} ChainLogs(trail: seq<Books>, events: seq<Event>, answers: seq<Option<Served>>)
    requires Chain(trail, events, answers)
    ensures LogsGrow(trail)
  {
    forall j | 0 < j < |trail| ensures Grew(trail[j - 1], trail[j]) { ChainGrows(trail, events, answers, j - 1, j); }
  }

  /** The round in which entry `k` of the semaphores' log was made. */
  lemma {:induction false} RoundOf(trail: seq<Books>, k: nat, n: nat) returns (j: nat)
    requires LogsGrow(trail) && n < |trail| && |trail[0].log| <= k < |trail[n].log|
    ensures j < n && |trail[j].log| <= k < |trail[j + 1].log| && trail[j + 1].log[k] == trail[n].log[k]
  {
    assert Grew(trail[n - 1], trail[n]);
    if k >= |trail[n - 1].log| { j := n - 1; } else { j := RoundOf(trail, k, n - 1); }
  }

  // ---- nothing is done twice ----

  /** Entry `k`, done for a waiter, was made in round `j`, and told by answer `i` of
      that round. */
  ghost predicate DoneIn(trail: seq<Books>, n: nat, k: nat, j: nat, i: nat) {
    && j + 1 <= n < |trail| && k < |trail[n].log| && i < |trail[n].replies|
    && |trail[j].log| <= k < |trail[j + 1].log| && |trail[j].replies| <= i < |trail[j + 1].replies|
    && trail[n].log[k].Did? && trail[n].replies[i].to == trail[n].log[k].to
  }

  lemma {:induction false} ToldIn(trail: seq<Books>, events: seq<Event>, answers: seq<Option<Served>>, k: nat)
    returns (j: nat, i: nat)
    requires Chain(trail, events, answers)
    requires var last := trail[|events|]; |trail[0].log| <= k < |last.log| && last.log[k].Did? && last.log[k].to != 0
    ensures DoneIn(trail, |events|, k, j, i)
  {
    var n := |events|;
    ChainLogs(trail, events, answers);
    j := RoundOf(trail, k, n);
    var b, b' := trail[j], trail[j + 1];
    assert Just(b, b', events[j], answers[j]);
    assert MoveDue(b'.log[k], b, b', events[j], answers[j]);
    i :| |b.replies| <= i < |b'.replies| && b'.replies[i] == Reply(b'.log[k].to, 0, 0, []);
    ChainGrows(trail, events, answers, j + 1, n);
  }

  /** Over a run in which nobody is answered twice, no parked vector is applied
      twice. */
  lemma {:induction false} AppliedOnce(trail: seq<Books>, events: seq<Event>, answers: seq<Option<Served>>, j: nat,
                                       k: nat)
    requires Chain(trail, events, answers)
    requires var last := trail[|events|];
             && NoTwice(last.replies) && |trail[0].log| <= j < k < |last.log|
             && last.log[j].Did? && last.log[k].Did? && last.log[j].to != 0
    ensures trail[|events|].log[j].to != trail[|events|].log[k].to
  {
    if trail[|events|].log[k].to != 0 {
      var a, x := ToldIn(trail, events, answers, j);
      var b, y := ToldIn(trail, events, answers, k);
      if a == b {
        OnceInRound(trail, events, answers, a, j, k);
      } else {
        Apart(trail, events, answers, a, x, b, y, j, k);
      }
    }
  }

  lemma {:induction false} Apart(trail: seq<Books>, events: seq<Event>, answers: seq<Option<Served>>,
                                 a: nat, x: nat, b: nat, y: nat, j: nat, k: nat)
    requires Chain(trail, events, answers) && j < k && a != b
    requires DoneIn(trail, |events|, j, a, x) && DoneIn(trail, |events|, k, b, y)
    ensures x < y
  {
    Ordered(trail, events, answers, a, b, j, k);
    ChainGrows(trail, events, answers, a + 1, b);
  }

  lemma {:induction false} OnceInRound(trail: seq<Books>, events: seq<Event>, answers: seq<Option<Served>>, a: nat,
                                       j: nat, k: nat)
    requires Chain(trail, events, answers) && a < |events| && NoTwice(trail[|events|].replies)
    requires |trail[a].log| <= j < k < |trail[a + 1].log| && k < |trail[|events|].log|
    requires trail[|events|].log[j].Did? && trail[|events|].log[k].Did?
    ensures trail[|events|].log[j].to != trail[|events|].log[k].to
  {
    assert Just(trail[a], trail[a + 1], events[a], answers[a]);
    ChainGrows(trail, events, answers, a + 1, |events|);
    assert NoTwice(trail[a + 1].replies);
    assert !SameMove(trail[a + 1].log[j], trail[a + 1].log[k]);
  }

  lemma {:induction false} Ordered(trail: seq<Books>, events: seq<Event>, answers: seq<Option<Served>>, a: nat,
                                   b: nat, j: nat, k: nat)
    requires Chain(trail, events, answers) && a + 1 < |trail| && b + 1 < |trail| && a != b && j < k
    requires |trail[a].log| <= j < |trail[a + 1].log| && |trail[b].log| <= k < |trail[b + 1].log|
    ensures a < b
  {
    if b < a { ChainGrows(trail, events, answers, b + 1, a); }
  }

  // ---- SEM_UNDO over a run ----

  /** Nobody parked would do to semaphore `n` of set `id` what will not be undone. */
  ghost predicate WaitUndo(wait: Table<Waiter>, id: int, n: nat) {
    forall k :: 0 <= k < |wait| && wait[k].Some? && wait[k].value.id == id && wait[k].value.job.SemJob? ==>
      AllUndo(wait[k].value.job.ops, n)
  }

  /** Nor does the request: it operates there with SEM_UNDO throughout, and does
      not store a value there or remove the set. */
  ghost predicate EventUndo(e: Event, id: int, n: nat) {
    e.polled && e.request.Some? ==>
      match e.request.value
      case SemOpReq(i, ops, _) => i == id ==> AllUndo(ops, n)
      case SetValReq(i, m, _) => !(i == id && m == n)
      case SetAllReq(i, _) => i != id
      case SemRemoveReq(i) => i != id
      case _ => true
  }

  lemma {:induction false} StoodUndo(w: Waiter, b: Books, e: Event, r: Option<Served>, id: int, n: nat)
    requires Stood(w, b, e, r) && WaitUndo(b.wait, id, n) && EventUndo(e, id, n) && w.id == id && w.job.SemJob?
    ensures AllUndo(w.job.ops, n)
  {
    if StoodIn(w, b.wait) {
      var k :| 0 <= k < |b.wait| && b.wait[k].Some? && Plea(b.wait[k].value) == Plea(w);
      assert b.wait[k].value.job.SemJob? && b.wait[k].value.job.ops == w.job.ops;
    }
  }

  lemma {:induction false} UndoStays(b: Books, b': Books, e: Event, r: Option<Served>, id: int, n: nat)
    requires Fair(b, b', e, r) && WaitUndo(b.wait, id, n) && EventUndo(e, id, n)
    ensures WaitUndo(b'.wait, id, n)
  {
    forall k | 0 <= k < |b'.wait| && b'.wait[k].Some? && b'.wait[k].value.id == id && b'.wait[k].value.job.SemJob?
      ensures AllUndo(b'.wait[k].value.job.ops, n)
    {
      StoodUndo(b'.wait[k].value, b, e, r, id, n);
    }
  }

  lemma {:induction false} ChainUndo(trail: seq<Books>, events: seq<Event>, answers: seq<Option<Served>>, id: int,
                                     n: nat, j: nat)
    requires Chain(trail, events, answers) && WaitUndo(trail[0].wait, id, n) && j < |trail|
    requires forall i :: 0 <= i < |events| ==> EventUndo(events[i], id, n)
    ensures WaitUndo(trail[j].wait, id, n)
  {
    if j > 0 {
      var i := j - 1;
      ChainUndo(trail, events, answers, id, n, i);
      assert Just(trail[i], trail[i + 1], events[i], answers[i]) && EventUndo(events[i], id, n);
      UndoStays(trail[i], trail[i + 1], events[i], answers[i], id, n);
    }
  }

  /** No end of a process between is cut short by the clamp on that semaphore. */
  ghost predicate NoClamp(log: seq<Move>, from: nat, id: int, n: nat) {
    forall k :: from <= k < |log| && log[k].Died? ==> Harmless(log, k, id, n)
  }

  lemma {:induction false} MoveUndo(m: Move, b: Books, b': Books, e: Event, r: Option<Served>, id: int, n: nat)
    requires MoveDue(m, b, b', e, r) && WaitUndo(b.wait, id, n) && EventUndo(e, id, n) && m.id == id
    ensures m.Did? ==> AllUndo(m.ops, n)
    ensures m.SetOne? ==> m.n != n
    ensures !m.SetMany? && !m.Gone?
  {
    if m.Did? && m.to != 0 {
      var w :| Stood(w, b, e, r) && Semop(w, m.id, m.pid, m.ops, m.to);
      StoodUndo(w, b, e, r, id, n);
    }
  }

  /** Over every run in which what is asked of a semaphore is asked with SEM_UNDO,
      and no end of a process is cut short by the clamp, what the semaphore would
      settle at does not move. */
  lemma {:induction false} RunKeepsLedger(trail: seq<Books>, events: seq<Event>, answers: seq<Option<Served>>,
                                          id: int, n: nat)
    requires Chain(trail, events, answers) && WaitUndo(trail[0].wait, id, n)
    requires forall i :: 0 <= i < |events| ==> EventUndo(events[i], id, n)
    requires NoClamp(trail[|events|].log, |trail[0].log|, id, n) && n < |FaceOf(trail[0].log, id).ledger|
    ensures var l, l' := FaceOf(trail[0].log, id).ledger, FaceOf(trail[|events|].log, id).ledger;
            |l'| == |l| && l'[n] == l[n]
  {
    var log, from := trail[|events|].log, |trail[0].log|;
    ChainGrows(trail, events, answers, 0, |events|);
    ChainLogs(trail, events, answers);
    forall k | from <= k < |log| ensures Harmless(log, k, id, n) {
      var j := RoundOf(trail, k, |events|);
      assert Just(trail[j], trail[j + 1], events[j], answers[j]);
      ChainUndo(trail, events, answers, id, n, j);
      assert MoveDue(trail[j + 1].log[k], trail[j], trail[j + 1], events[j], answers[j]);
      if log[k].id == id { MoveUndo(log[k], trail[j], trail[j + 1], events[j], answers[j], id, n); }
    }
    assert log[..from] == trail[0].log && log[..|log|] == log;
    LedgerStands(log, from, |log|, id, n);
  }

  /** ... so a semaphore on which nothing is owed at the end has the value it would
      have settled at in the beginning. */
  lemma {:induction false} RunRestores(trail: seq<Books>, events: seq<Event>, answers: seq<Option<Served>>, n: nat,
                                       s: SemSet, undo: Table<UndoRow>, s': SemSet, undo': Table<UndoRow>)
    requires Chain(trail, events, answers) && WaitUndo(trail[0].wait, s.id, n)
    requires forall i :: 0 <= i < |events| ==> EventUndo(events[i], s.id, n)
    requires NoClamp(trail[|events|].log, |trail[0].log|, s.id, n) && n < |s.vals| && s'.id == s.id
    requires SlotIs(s, undo, trail[0].log) && SlotIs(s', undo', trail[|events|].log)
    ensures |s'.vals| == |s.vals| && Balance(s', undo', n) == Balance(s, undo, n)
    ensures NoneOn(undo', s.id) ==> s'.vals[n] == Balance(s, undo, n)
  {
    RunKeepsLedger(trail, events, answers, s.id, n);
    assert |FaceOf(trail[|events|].log, s.id).ledger| == |s'.vals|;
    assert Balance(s', undo', n) == FaceOf(trail[|events|].log, s.id).ledger[n];
    if NoneOn(undo', s.id) { SumZero(undo', AdjTerm(s.id, n)); }
  }

  // ---- messages over a run ----

  ghost predicate Follows(b: Box, b': Box) {
    b'.open && b.came <= b'.came && b.went <= b'.went
  }

  ghost predicate KeepsQueue(e: Event, id: int) {
    !Asked(e, MsgRemoveReq(id))
  }

  lemma {:induction false} BoxStep(mail: seq<Post>, k: nat, id: int)
    requires k < |mail| && BoxOf(mail[..k], id).open && mail[k] != Freed(id)
    ensures Follows(BoxOf(mail[..k], id), BoxOf(mail[..k + 1], id))
  {
    assert mail[..k + 1] == mail[..k] + [mail[k]];
    BoxMore(mail[..k], mail[k], id);
  }

  lemma {:induction false} BoxFollows(mail: seq<Post>, i: nat, k: nat, id: int)
    requires i <= k <= |mail| && BoxOf(mail[..i], id).open && forall j :: i <= j < k ==> mail[j] != Freed(id)
    ensures Follows(BoxOf(mail[..i], id), BoxOf(mail[..k], id))
  {
    if i < k {
      BoxFollows(mail, i, k - 1, id);
      BoxStep(mail, k - 1, id);
    }
  }

  lemma {:induction false} MailRoundOf(trail: seq<Books>, k: nat, n: nat) returns (j: nat)
    requires LogsGrow(trail) && n < |trail| && |trail[0].mail| <= k < |trail[n].mail|
    ensures j < n && |trail[j].mail| <= k < |trail[j + 1].mail| && trail[j + 1].mail[k] == trail[n].mail[k]
  {
    assert Grew(trail[n - 1], trail[n]);
    if k >= |trail[n - 1].mail| { j := n - 1; } else { j := MailRoundOf(trail, k, n - 1); }
  }

  /** Over every run that does not remove a queue, all that came to it before comes
      first, all that went has gone first, and within each type what came in is
      what went out followed by what is there. */
  lemma {:induction false} RunKeepsOrder(trail: seq<Books>, events: seq<Event>, answers: seq<Option<Served>>,
                                         q: Queue, q': Queue)
    requires Chain(trail, events, answers) && q'.id == q.id
    requires forall i :: 0 <= i < |events| ==> KeepsQueue(events[i], q.id)
    requires QueueIs(q, trail[0].mail) && QueueIs(q', trail[|events|].mail)
    ensures var b, b' := BoxOf(trail[0].mail, q.id), BoxOf(trail[|events|].mail, q.id);
            Follows(b, b') && TypeFifo(b'.came, b'.went, q'.msgs)
  {
    var mail, from := trail[|events|].mail, |trail[0].mail|;
    ChainGrows(trail, events, answers, 0, |events|);
    ChainLogs(trail, events, answers);
    forall k | from <= k < |mail| ensures mail[k] != Freed(q.id) {
      var j := MailRoundOf(trail, k, |events|);
      assert Just(trail[j], trail[j + 1], events[j], answers[j]);
      assert PostDue(k, trail[j], trail[j + 1], events[j], answers[j]);
    }
    assert mail[..from] == trail[0].mail && mail[..|mail|] == mail;
    BoxFollows(mail, from, |mail|, q.id);
  }

  // ---- waiters over a run ----

  /** Whoever waited at the start still waits, or there was a round in which it was
      answered, or its process had ended, or its connection reported. */
  lemma {:induction false} NobodyForgotten(trail: seq<Books>, events: seq<Event>, answers: seq<Option<Served>>,
                                           w: Waiter, n: nat)
    requires Chain(trail, events, answers) && n < |trail| && StoodIn(w, trail[0].wait)
    ensures StoodIn(w, trail[n].wait) || exists j :: 0 <= j < n && Parted(w, trail[j], trail[j + 1], events[j])
  {
    if n > 0 {
      NobodyForgotten(trail, events, answers, w, n - 1);
      if StoodIn(w, trail[n - 1].wait) {
        assert Just(trail[n - 1], trail[n - 1 + 1], events[n - 1], answers[n - 1]);
        var k :| 0 <= k < |trail[n - 1].wait| && trail[n - 1].wait[k].Some? &&
          Plea(trail[n - 1].wait[k].value) == Plea(w);
        var w1 := trail[n - 1].wait[k].value;
        assert StaysOrParts(w1, trail[n - 1], trail[n], events[n - 1]);
        if StoodIn(w1, trail[n].wait) {
          var i :| 0 <= i < |trail[n].wait| && trail[n].wait[i].Some? && Plea(trail[n].wait[i].value) == Plea(w1);
          assert Plea(trail[n].wait[i].value) == Plea(w);
        } else {
          assert w1.seqno == w.seqno && w1.pid == w.pid && w1.start == w.start;
          assert Parted(w, trail[n - 1], trail[n - 1 + 1], events[n - 1]);
        }
      }
    }
  }

  /** The round in which answer `k` was sent. */
  lemma {:induction false} ReplyRoundOf(trail: seq<Books>, k: nat, n: nat) returns (j: nat)
    requires LogsGrow(trail) && n < |trail| && |trail[0].replies| <= k < |trail[n].replies|
    ensures j < n && |trail[j].replies| <= k < |trail[j + 1].replies| && trail[j + 1].replies[k] == trail[n].replies[k]
  {
    assert Grew(trail[n - 1], trail[n]);
    if k >= |trail[n - 1].replies| { j := n - 1; } else { j := ReplyRoundOf(trail, k, n - 1); }
  }

  /** Every answer of a run is to somebody who waited, in the round it was sent, and
      says truly that the operation was done, or is an error for a reason that round
      had: nobody is failed without one. */
  lemma {:induction false} AnsweredForCause(trail: seq<Books>, events: seq<Event>, answers: seq<Option<Served>>, k: nat)
    requires Chain(trail, events, answers) && |trail[0].replies| <= k < |trail[|events|].replies|
    ensures exists j: nat, w :: j < |events| && Stood(w, trail[j], events[j], answers[j])
              && True(trail[|events|].replies[k], w, trail[j], trail[j + 1], events[j], answers[j])
  {
    ChainLogs(trail, events, answers);
    var j := ReplyRoundOf(trail, k, |events|);
    assert Just(trail[j], trail[j + 1], events[j], answers[j]);
    assert TaleDue(trail[j + 1].replies[k], trail[j], trail[j + 1], events[j], answers[j]);
  }

  /** Nobody answered twice, as the daemon's count has it, is no two answers to one. */
  lemma {:induction false} OnceIsNoTwice(replies: seq<Reply>)
    requires forall s: nat :: Told(replies, s) <= 1
    ensures NoTwice(replies)
  {
    forall i, j | 0 <= i < j < |replies| ensures replies[i].to != replies[j].to {
      assert Told(replies, replies[i].to) <= 1;
      if replies[i].to == replies[j].to { TwoTold(replies, i, j, |replies|); }
    }
  }

  lemma {:induction false} TwoTold(replies: seq<Reply>, i: nat, j: nat, n: nat)
    requires i < j < |replies| && n <= |replies| && replies[i].to == replies[j].to
    ensures SumTo(replies, To(replies[i].to), n) >= (if i < n then 1 else 0) + if j < n then 1 else 0
  {
    if n > 0 { TwoTold(replies, i, j, n - 1); }
  }
}
