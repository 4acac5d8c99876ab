/** Messages, and the one a receive takes. */
module MsgCore {

  const MSGMAX := 8192
  const MSGMNB := 16384
  const LONG_MIN := -0x8000_0000_0000_0000
  const LONG_MAX := 0x7fff_ffff_ffff_ffff

  /** One queued message: its type and its bytes. */
  datatype Msg = Msg(mtype: int, data: seq<int>)

  /** msgrcv's selector: msgtyp, and whether MSG_EXCEPT is set. */
  datatype Want = Want(typ: int, except: bool)

  predicate Matches(mtype: int, w: Want) {
    if w.typ == 0 then true
    else if w.typ > 0 then if w.except then mtype != w.typ else mtype == w.typ
    else mtype <= if w.typ == LONG_MIN then LONG_MAX else -w.typ
  }

  /** Message `k` is the one POSIX says a receive takes: the oldest that
      matches, or for a negative type the oldest of the lowest type. */
  ghost predicate IsPick(msgs: seq<Msg>, w: Want, k: nat) {
    && k < |msgs| && Matches(msgs[k].mtype, w)
    && (w.typ >= 0 ==> forall j :: 0 <= j < k ==> !Matches(msgs[j].mtype, w))
    && (w.typ < 0 ==> forall j :: 0 <= j < |msgs| && Matches(msgs[j].mtype, w) ==>
          msgs[k].mtype < msgs[j].mtype || (msgs[k].mtype == msgs[j].mtype && k <= j))
  }

  ghost predicate NoneMatch(msgs: seq<Msg>, w: Want) {
    forall j :: 0 <= j < |msgs| ==> !Matches(msgs[j].mtype, w)
  }

  /** The same in types alone: the oldest of a type, the oldest of any other type, the
      oldest, or the oldest of the lowest type up to a limit. */
  ghost predicate TakesRight(msgs: seq<Msg>, w: Want, k: nat) {
    && k < |msgs|
    && (w.typ > 0 && !w.except ==> msgs[k].mtype == w.typ && forall j :: 0 <= j < k ==> msgs[j].mtype != w.typ)
    && (w.typ > 0 && w.except ==> msgs[k].mtype != w.typ && forall j :: 0 <= j < k ==> msgs[j].mtype == w.typ)
    && (w.typ == 0 ==> k == 0)
    && (w.typ < 0 ==> && msgs[k].mtype <= -w.typ && (w.typ == LONG_MIN ==> msgs[k].mtype <= LONG_MAX)
                      && (forall j :: 0 <= j < |msgs| ==> msgs[k].mtype <= msgs[j].mtype)
                      && (forall j :: 0 <= j < k ==> msgs[k].mtype < msgs[j].mtype))
  }

  /** No message is of a type asked for. */
  ghost predicate NoSuchType(msgs: seq<Msg>, w: Want) {
    && (w.typ > 0 && !w.except ==> forall j :: 0 <= j < |msgs| ==> msgs[j].mtype != w.typ)
    && (w.typ > 0 && w.except ==> forall j :: 0 <= j < |msgs| ==> msgs[j].mtype == w.typ)
    && (w.typ == 0 ==> msgs == [])
    && (w.typ < 0 ==> forall j :: 0 <= j < |msgs| ==>
          msgs[j].mtype > -w.typ || (w.typ == LONG_MIN && msgs[j].mtype > LONG_MAX))
  }

  lemma {:induction false} PickMeans(msgs: seq<Msg>, w: Want, k: nat)
    requires IsPick(msgs, w, k)
    ensures TakesRight(msgs, w, k) && !NoSuchType(msgs, w)
  {
    if w.typ == 0 { assert k > 0 ==> Matches(msgs[0].mtype, w); }
    if w.typ < 0 {
      forall j | 0 <= j < |msgs| ensures msgs[k].mtype <= msgs[j].mtype {
        assert Matches(msgs[j].mtype, w) || msgs[j].mtype > msgs[k].mtype;
      }
    }
  }

  lemma {:induction false} NoneMeans(msgs: seq<Msg>, w: Want)
    requires NoneMatch(msgs, w)
    ensures NoSuchType(msgs, w)
  {
    assert w.typ == 0 && |msgs| > 0 ==> Matches(msgs[0].mtype, w);
  }

  lemma {:induction false} PickIs(msgs: seq<Msg>, w: Want, k: int)
    requires if k >= 0 then IsPick(msgs, w, k) else NoneMatch(msgs, w)
    ensures if k >= 0 then TakesRight(msgs, w, k) && !NoSuchType(msgs, w) else NoSuchType(msgs, w)
  {
    if k >= 0 { PickMeans(msgs, w, k); } else { NoneMeans(msgs, w); }
  }

  /** Of a message of type 1 and one of type 2: what msgtyp 2, 2 with MSG_EXCEPT, 0,
      3 and -2 take. */
  lemma {:induction false} PickSamples(a: Msg, b: Msg)
    requires a.mtype == 1 && b.mtype == 2
    ensures Pick([a, b], Want(2, false)) == 1 && Pick([a, b], Want(2, true)) == 0 && Pick([a, b], Want(0, false)) == 0
    ensures Pick([a, b], Want(3, false)) == -1 && Pick([b, a], Want(-2, false)) == 1
  {
    var up, down := [a, b], [b, a];
    assert |up| == |down| == 2 && up[0] == down[1] == a && up[1] == down[0] == b;
  }

  /** The index of the message a receive takes, or -1. */
  function Pick(msgs: seq<Msg>, w: Want): (k: int)
    ensures -1 <= k < |msgs|
    ensures k >= 0 ==> IsPick(msgs, w, k)
    ensures k < 0 ==> NoneMatch(msgs, w)
    ensures if k >= 0 then TakesRight(msgs, w, k) && !NoSuchType(msgs, w) else NoSuchType(msgs, w)
  {
    if msgs == [] then -1
    else
      var last := |msgs| - 1;
      var b := Pick(msgs[..last], w);
      var k := if !Matches(msgs[last].mtype, w) then b
               else if b < 0 then last
               else if w.typ >= 0 then b
               else if msgs[last].mtype < msgs[b].mtype then last
               else b;
      PickIs(msgs, w, k);
      k
  }

  /** At most one message is the one to take. */
  lemma {:induction false} PickUnique(msgs: seq<Msg>, w: Want, k: nat)
    requires IsPick(msgs, w, k)
    ensures Pick(msgs, w) == k
  {
  }

  /** Of the first `n` messages, `k` is the one to take (-1 for none): what a scan
      has found by then. */
  ghost predicate BestOf(msgs: seq<Msg>, n: nat, w: Want, k: int)
    requires n <= |msgs|
  {
    if k < 0 then k == -1 && forall j :: 0 <= j < n ==> !Matches(msgs[j].mtype, w)
    else
      && k < n && Matches(msgs[k].mtype, w) && w.typ < 0
      && forall j :: 0 <= j < n && Matches(msgs[j].mtype, w) ==>
          msgs[k].mtype < msgs[j].mtype || (msgs[k].mtype == msgs[j].mtype && k <= j)
  }

  lemma {:induction false} BestIsPick(msgs: seq<Msg>, w: Want, k: int)
    requires BestOf(msgs, |msgs|, w, k)
    ensures k == Pick(msgs, w)
  {
  }

  ghost function Bytes(msgs: seq<Msg>): nat {
    if msgs == [] then 0 else Bytes(msgs[..|msgs| - 1]) + |msgs[|msgs| - 1].data|
  }

  function Without<T>(s: seq<T>, k: nat): seq<T>
    requires k < |s|
  {
    s[..k] + s[k + 1..]
  }

  lemma {:induction false} BytesWithout(msgs: seq<Msg>, k: nat)
    requires k < |msgs|
    ensures Bytes(Without(msgs, k)) == Bytes(msgs) - |msgs[k].data|
  {
    var last := |msgs| - 1;
    if k == last {
      assert Without(msgs, k) == msgs[..last];
    } else {
      BytesWithout(msgs[..last], k);
      assert Without(msgs, k)[..last - 1] == Without(msgs[..last], k);
    }
  }

  lemma {:induction false} BytesAppend(msgs: seq<Msg>, m: Msg)
    ensures Bytes(msgs + [m]) == Bytes(msgs) + |m.data|
  {
  }

  /** The messages of one type, in order. */
  ghost function OfType(msgs: seq<Msg>, t: int): seq<Msg> {
    if msgs == [] then []
    else OfType(msgs[..|msgs| - 1], t) + One(msgs[|msgs| - 1], t)
  }

  lemma {:induction false} OfTypeAppend(msgs: seq<Msg>, m: Msg, t: int)
    ensures OfType(msgs + [m], t) == OfType(msgs, t) + One(m, t)
  {
    assert (msgs + [m])[..|msgs|] == msgs;
  }

  ghost function One(m: Msg, t: int): seq<Msg> {
    if m.mtype == t then [m] else []
  }

  lemma {:induction false} Assoc(a: seq<Msg>, b: seq<Msg>, c: seq<Msg>)
    ensures (a + b) + c == a + (b + c)
  {
  }

  lemma {:induction false} WithoutLast(msgs: seq<Msg>, k: nat)
    requires k < |msgs| - 1
    ensures Without(msgs, k) == Without(msgs[..|msgs| - 1], k) + [msgs[|msgs| - 1]]
  {
  }

  lemma {:induction false} WithoutEnd(msgs: seq<Msg>)
    requires msgs != []
    ensures Without(msgs, |msgs| - 1) == msgs[..|msgs| - 1]
  {
  }

  lemma {:induction false} TakeEnd(msgs: seq<Msg>, t: int)
    requires msgs != [] && forall j :: 0 <= j < |msgs| - 1 ==> msgs[j].mtype != msgs[|msgs| - 1].mtype
    ensures OfType(msgs, t) == One(msgs[|msgs| - 1], t) + OfType(Without(msgs, |msgs| - 1), t)
  {
    var front, m := msgs[..|msgs| - 1], msgs[|msgs| - 1];
    WithoutEnd(msgs);
    if m.mtype == t {
      NoneOfType(front, t);
      assert [] + [m] == [m] + [];
    } else {
      assert OfType(front, t) + [] == [] + OfType(front, t);
    }
  }

  /** Taking a message that no older one of its type precedes takes the head
      of its type and leaves every other type alone. */
  lemma {:induction false} OfTypeTake(msgs: seq<Msg>, k: nat, t: int)
    requires k < |msgs|
    requires forall j :: 0 <= j < k ==> msgs[j].mtype != msgs[k].mtype
    ensures OfType(msgs, t) == One(msgs[k], t) + OfType(Without(msgs, k), t)
  {
    var last := |msgs| - 1;
    if k == last {
      TakeEnd(msgs, t);
    } else {
      OfTypeTake(msgs[..last], k, t);
      TakeStep(msgs, k, t);
    }
  }

  lemma {:induction false} TakeStep(msgs: seq<Msg>, k: nat, t: int)
    requires k < |msgs| - 1
    requires OfType(msgs[..|msgs| - 1], t) == One(msgs[k], t) + OfType(Without(msgs[..|msgs| - 1], k), t)
    ensures OfType(msgs, t) == One(msgs[k], t) + OfType(Without(msgs, k), t)
  {
    var last, rest := |msgs| - 1, Without(msgs[..|msgs| - 1], k);
    Assoc(One(msgs[k], t), OfType(rest, t), One(msgs[last], t));
    OfTypeAppend(rest, msgs[last], t);
    WithoutLast(msgs, k);
  }

  lemma {:induction false} NoneOfType(msgs: seq<Msg>, t: int)
    requires forall j :: 0 <= j < |msgs| ==> msgs[j].mtype != t
    ensures OfType(msgs, t) == []
  {
    if msgs != [] { NoneOfType(msgs[..|msgs| - 1], t); }
  }

  /** Whatever the selector, no older message of the same type is passed over. */
  lemma {:induction false} PickIsOldestOfItsType(msgs: seq<Msg>, w: Want, k: nat)
    requires IsPick(msgs, w, k)
    ensures forall j :: 0 <= j < k ==> msgs[j].mtype != msgs[k].mtype
  {
  }

  /** Within each type, what came in is what went out followed by what is
      still queued: first in, first out. */
  ghost predicate TypeFifo(came: seq<Msg>, went: seq<Msg>, queued: seq<Msg>) {
    forall t :: OfType(came, t) == OfType(went, t) + OfType(queued, t)
  }

  /** One type, a message queued. */
  lemma {:induction false} FifoIn(came: seq<Msg>, went: seq<Msg>, queued: seq<Msg>, m: Msg, t: int)
    requires OfType(came, t) == OfType(went, t) + OfType(queued, t)
    ensures OfType(came + [m], t) == OfType(went, t) + OfType(queued + [m], t)
  {
    OfTypeAppend(came, m, t);
    OfTypeAppend(queued, m, t);
    Assoc(OfType(went, t), OfType(queued, t), One(m, t));
  }

  /** One type, a message taken. */
  lemma {:induction false} FifoOut(came: seq<Msg>, went: seq<Msg>, queued: seq<Msg>, k: nat, t: int)
    requires OfType(came, t) == OfType(went, t) + OfType(queued, t) && k < |queued|
    requires forall j :: 0 <= j < k ==> queued[j].mtype != queued[k].mtype
    ensures OfType(came, t) == OfType(went + [queued[k]], t) + OfType(Without(queued, k), t)
  {
    OfTypeTake(queued, k, t);
    OfTypeAppend(went, queued[k], t);
    Assoc(OfType(went, t), One(queued[k], t), OfType(Without(queued, k), t));
  }

  lemma {:induction false} TypeFifoEnqueue(came: seq<Msg>, went: seq<Msg>, queued: seq<Msg>, m: Msg)
    requires TypeFifo(came, went, queued)
    ensures TypeFifo(came + [m], went, queued + [m])
  {
    var came', queued' := came + [m], queued + [m];
    forall t ensures OfType(came', t) == OfType(went, t) + OfType(queued', t) { FifoIn(came, went, queued, m, t); }
  }

  /** A receive keeps the order of every type, under every selector. */
  lemma {:induction false} TypeFifoTake(came: seq<Msg>, went: seq<Msg>, queued: seq<Msg>, w: Want, k: nat)
    requires TypeFifo(came, went, queued) && IsPick(queued, w, k)
    ensures TypeFifo(came, went + [queued[k]], Without(queued, k))
  {
    PickIsOldestOfItsType(queued, w, k);
    var went', queued' := went + [queued[k]], Without(queued, k);
    forall t ensures OfType(came, t) == OfType(went', t) + OfType(queued', t) { FifoOut(came, went, queued, k, t); }
  }

  lemma {:induction false} WithoutBag<T>(s: seq<T>, k: nat)
    requires k < |s|
    ensures multiset(s) == multiset(Without(s, k)) + multiset{s[k]}
  {
    assert s == s[..k] + ([s[k]] + s[k + 1..]);
  }
}
