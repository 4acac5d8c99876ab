/** The answers sent on parked connections: who has been told, and how often. */
module IpcReplies {
  import opened Slots
  import opened IpcTables

  /** The answer sent on a parked connection. */
  datatype Reply = Reply(to: nat, ret: int, mtype: int, payload: seq<int>)

  ghost function To(s: nat): Reply -> int {
    (r: Reply) => if r.to == s then 1 else 0
  }

  /** How often the waiter of sequence number `s` has been answered. */
  ghost function Told(replies: seq<Reply>, s: nat): int {
    Sum(replies, To(s))
  }

  lemma {:induction false} ToldMore(replies: seq<Reply>, r: Reply, s: nat)
    ensures Told(replies + [r], s) == Told(replies, s) + if r.to == s then 1 else 0
  {
    SumPrefix(replies + [r], replies, To(s), |replies|);
  }

  /** Nobody is answered twice, and nobody parked has been answered. */
  ghost predicate OnceEach(wait: Table<Waiter>, waitSeq: nat, replies: seq<Reply>) {
    && (forall k :: 0 <= k < |wait| && wait[k].Some? ==> Told(replies, wait[k].value.seqno) == 0)
    && (forall s: nat {:trigger Told(replies, s)} ::
          0 <= Told(replies, s) <= 1 && (s >= waitSeq ==> Told(replies, s) == 0))
  }

  /** The number is a waiter's that has left without an answer. */
  ghost predicate Untold(wait: Table<Waiter>, waitSeq: nat, replies: seq<Reply>, s: nat) {
    s < waitSeq && Told(replies, s) == 0 && forall k :: 0 <= k < |wait| && wait[k].Some? ==> wait[k].value.seqno != s
  }

  lemma {:induction false} OnceTell(wait: Table<Waiter>, waitSeq: nat, replies: seq<Reply>, r: Reply)
    requires OnceEach(wait, waitSeq, replies) && Untold(wait, waitSeq, replies, r.to)
    ensures OnceEach(wait, waitSeq, replies + [r])
  {
    forall s: nat ensures Told(replies + [r], s) == Told(replies, s) + if r.to == s then 1 else 0 {
      ToldMore(replies, r, s);
    }
  }

  lemma {:induction false} OnceVacate(sets: Table<SemSet>, queues: Table<Queue>, wait: Table<Waiter>, waitSeq: nat,
                                      replies: seq<Reply>, wi: nat)
    requires WaitOk(sets, queues, wait, waitSeq) && OnceEach(wait, waitSeq, replies) && wi < |wait| && wait[wi].Some?
    ensures OnceEach(wait[wi := None], waitSeq, replies)
    ensures Untold(wait[wi := None], waitSeq, replies, wait[wi].value.seqno)
  {
    forall k | 0 <= k < |wait| && k != wi && wait[k].Some? ensures wait[k].value.seqno != wait[wi].value.seqno {
      assert ApartWaiters(wait[k], wait[wi]);
    }
  }

  lemma {:induction false} OnceSeat(wait: Table<Waiter>, waitSeq: nat, replies: seq<Reply>, wi: nat, w: Waiter)
    requires OnceEach(wait, waitSeq, replies) && wi < |wait| && w.seqno == waitSeq
    ensures OnceEach(wait[wi := Some(w)], waitSeq + 1, replies)
  {
  }

  /** Of the waiters parked before, those gone since were answered once since
      then, and those still there were not. */
  ghost predicate Woken(wait: Table<Waiter>, wait': Table<Waiter>, replies: seq<Reply>, replies': seq<Reply>) {
    && |wait'| == |wait|
    && forall k :: 0 <= k < |wait| ==>
         && (wait'[k].Some? ==> wait[k].Some? && wait'[k].value.seqno == wait[k].value.seqno)
         && (wait[k].Some? ==>
              Told(replies', wait[k].value.seqno) == Told(replies, wait[k].value.seqno) +
                if wait'[k].Some? then 0 else 1)
  }

  /** Waiter `wi` was answered and left. */
  lemma {:induction false} WokenOne(first: Table<Waiter>, wait: Table<Waiter>, replies0: seq<Reply>,
                                    replies: seq<Reply>, wi: nat, r: Reply)
    requires Woken(first, wait, replies0, replies) && wi < |wait| && wait[wi].Some? && r.to == wait[wi].value.seqno
    requires Distinct(first)
    ensures Woken(first, wait[wi := None], replies0, replies + [r])
  {
    forall k | 0 <= k < |first| && first[k].Some?
      ensures Told(replies + [r], first[k].value.seqno) ==
              Told(replies, first[k].value.seqno) + if k == wi then 1 else 0
    {
      ToldMore(replies, r, first[k].value.seqno);
      if k != wi { assert ApartWaiters(first[k], first[wi]); }
    }
  }

  /** Waiter `wi` stays, under the same number. */
  lemma {:induction false} WokenNone(first: Table<Waiter>, wait: Table<Waiter>, replies0: seq<Reply>,
                                     replies: seq<Reply>, wi: nat, w: Waiter)
    requires Woken(first, wait, replies0, replies) && wi < |wait| && wait[wi].Some? && w.seqno == wait[wi].value.seqno
    ensures Woken(first, wait[wi := Some(w)], replies0, replies)
  {
  }
}
