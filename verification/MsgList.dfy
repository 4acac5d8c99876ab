/** The head/tail list a queue keeps its messages in. */
module MsgList {
  import opened MsgCore

  class GMsg {
    var next: GMsg?
    const msg: Msg

    constructor (m: Msg)
      ensures msg == m && next == null
    {
      msg := m;
      next := null;
    }
  }

  /** The nodes carry the messages `s`, in order. */
  ghost predicate Carries(nodes: seq<GMsg>, s: seq<Msg>) {
    |s| == |nodes| && forall i :: 0 <= i < |s| ==> s[i] == nodes[i].msg
  }

  /** Each node's `next` is the node after it, and the last has none. */
  ghost predicate Chained(nodes: seq<GMsg>)
    reads nodes
  {
    && (forall i, j :: 0 <= i < j < |nodes| ==> nodes[i] != nodes[j])
    && (forall i :: 0 <= i < |nodes| - 1 ==> nodes[i].next == nodes[i + 1])
    && (nodes != [] ==> nodes[|nodes| - 1].next == null)
  }

  /** The books: byte and message counts are those of the contents, and every type
      has been given out in the order it was taken in. */
  ghost predicate Booked(nodes: seq<GMsg>, s: seq<Msg>, cbytes: int, qnum: int, enqueued: seq<Msg>,
                         delivered: seq<Msg>) {
    Carries(nodes, s) && cbytes == Bytes(s) && qnum == |nodes| && TypeFifo(enqueued, delivered, s)
  }

  lemma {:induction false} BookIn(nodes: seq<GMsg>, s: seq<Msg>, cbytes: int, qnum: int, enqueued: seq<Msg>,
                                  delivered: seq<Msg>, m: GMsg)
    requires Booked(nodes, s, cbytes, qnum, enqueued, delivered)
    ensures Booked(nodes + [m], s + [m.msg], cbytes + |m.msg.data|, qnum + 1, enqueued + [m.msg], delivered)
  {
    BytesAppend(s, m.msg);
    TypeFifoEnqueue(enqueued, delivered, s, m.msg);
  }

  lemma {:induction false} BookOut(nodes: seq<GMsg>, s: seq<Msg>, cbytes: int, qnum: int, enqueued: seq<Msg>,
                                   delivered: seq<Msg>, w: Want, k: nat)
    requires Booked(nodes, s, cbytes, qnum, enqueued, delivered) && k < |nodes| && IsPick(s, w, k)
    ensures Booked(Without(nodes, k), Without(s, k), cbytes - |nodes[k].msg.data|, qnum - 1, enqueued,
                   delivered + [nodes[k].msg])
  {
    BytesWithout(s, k);
    TypeFifoTake(enqueued, delivered, s, w, k);
  }

  class MsgQ {
    var head: GMsg?
    var tail: GMsg?
    var cbytes: int
    var qnum: int
    ghost var nodes: seq<GMsg>
    // The sequence the list stands for.
    ghost var contents: seq<Msg>
    // Every message this queue ever took in, and every one it gave out.
    ghost var enqueued: seq<Msg>
    ghost var delivered: seq<Msg>

    /** The nodes are linked in order and nowhere else, and the tail is the
        last of them. */
    ghost predicate Linked()
      reads `head, `tail, `nodes, nodes
    {
      && Chained(nodes)
      && head == (if nodes == [] then null else nodes[0])
      && tail == (if nodes == [] then null else nodes[|nodes| - 1])
    }

    ghost predicate Valid()
      reads this, nodes
    {
      Linked() && Booked(nodes, contents, cbytes, qnum, enqueued, delivered)
    }

    constructor ()
      ensures Valid() && contents == [] && enqueued == [] && delivered == []
    {
      head, tail := null, null;
      cbytes, qnum := 0, 0;
      nodes, contents := [], [];
      enqueued, delivered := [], [];
    }

    method LinkLast(m: GMsg)
      requires Linked() && m !in nodes
      modifies `head, `tail, `nodes, m`next, nodes
      ensures Linked()
      ensures nodes == old(nodes) + [m]
    {
      m.next := null;
      if tail != null {
        tail.next := m;
      } else {
        head := m;
      }
      tail := m;
      nodes := nodes + [m];
    }

    method CountIn(m: GMsg, ghost was: seq<GMsg>)
      requires Booked(was, contents, cbytes, qnum, enqueued, delivered) && nodes == was + [m]
      modifies `cbytes, `qnum, `contents, `enqueued
      ensures Booked(nodes, contents, cbytes, qnum, enqueued, delivered)
      ensures contents == old(contents) + [m.msg] && enqueued == old(enqueued) + [m.msg]
    {
      BookIn(was, contents, cbytes, qnum, enqueued, delivered, m);
      cbytes := cbytes + |m.msg.data|;
      qnum := qnum + 1;
      contents := contents + [m.msg];
      enqueued := enqueued + [m.msg];
    }

    method Enqueue(m: GMsg)
      requires Valid() && m !in nodes
      modifies this, m`next, nodes
      ensures Valid()
      ensures nodes == old(nodes) + [m]
      ensures contents == old(contents) + [m.msg]
      ensures enqueued == old(enqueued) + [m.msg] && delivered == old(delivered)
    {
      ghost var was := nodes;
      LinkLast(m);
      CountIn(m, was);
    }

    /** The node holding the message a receive takes, its predecessor, and
        where it stands. */
    method PickNode(w: Want) returns (best: GMsg?, bestPrev: GMsg?, ghost k: int)
      requires Valid()
      ensures k == Pick(contents, w)
      ensures if k < 0 then NoSuchType(contents, w) else TakesRight(contents, w, k)
      ensures k < 0 ==> best == null
      ensures k >= 0 ==> best == nodes[k] && bestPrev == if k == 0 then null else nodes[k - 1]
    {
      best, bestPrev, k := null, null, -1;
      var prev: GMsg? := null;
      var m := head;
      ghost var i := 0;
      while m != null
        invariant 0 <= i <= |nodes|
        invariant m == if i < |nodes| then nodes[i] else null
        invariant prev == if i == 0 then null else nodes[i - 1]
        invariant BestOf(contents, i, w, k)
        invariant k < 0 ==> best == null
        invariant k >= 0 ==> best == nodes[k] && bestPrev == if k == 0 then null else nodes[k - 1]
        decreases |nodes| - i
      {
        if Matches(m.msg.mtype, w) {
          if w.typ >= 0 {
            best, bestPrev, k := m, prev, i;
            PickUnique(contents, w, i);
            return;
          }
          if best == null || m.msg.mtype < best.msg.mtype {
            best, bestPrev, k := m, prev, i;
          }
        }
        prev := m;
        m := m.next;
        i := i + 1;
      }
      BestIsPick(contents, w, k);
    }

    method Cut(m: GMsg, prev: GMsg?, ghost k: nat)
      requires Linked() && k < |nodes| && nodes[k] == m && prev == if k == 0 then null else nodes[k - 1]
      modifies `head, `tail, `nodes, nodes
      ensures Linked()
      ensures nodes == Without(old(nodes), k)
    {
      if prev != null {
        prev.next := m.next;
      } else {
        head := m.next;
      }
      if tail == m {
        tail := prev;
      }
      nodes := Without(nodes, k);
    }

    method CountOut(m: GMsg, ghost was: seq<GMsg>, ghost w: Want, ghost k: nat)
      requires Booked(was, contents, cbytes, qnum, enqueued, delivered) && k < |was| && was[k] == m
      requires nodes == Without(was, k) && IsPick(contents, w, k)
      modifies `cbytes, `qnum, `contents, `delivered
      ensures Booked(nodes, contents, cbytes, qnum, enqueued, delivered)
      ensures contents == Without(old(contents), k) && delivered == old(delivered) + [m.msg]
    {
      BookOut(was, contents, cbytes, qnum, enqueued, delivered, w, k);
      cbytes := cbytes - |m.msg.data|;
      qnum := qnum - 1;
      contents := Without(contents, k);
      delivered := delivered + [m.msg];
    }

    /** Unlink the message `Pick` chose, for the receive that takes it. */
    method Unlink(w: Want, m: GMsg, prev: GMsg?, ghost k: nat)
      requires Valid() && k < |nodes| && nodes[k] == m && prev == if k == 0 then null else nodes[k - 1]
      requires IsPick(contents, w, k)
      modifies this, nodes
      ensures Valid()
      ensures nodes == Without(old(nodes), k)
      ensures contents == Without(old(contents), k)
      ensures delivered == old(delivered) + [m.msg] && enqueued == old(enqueued)
    {
      ghost var was := nodes;
      Cut(m, prev, k);
      CountOut(m, was, w, k);
    }
  }
}
