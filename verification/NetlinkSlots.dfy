/** One slot of the table of emulated netlink sockets. Threads find, judge,
    retire and fill it with no lock: the state word carries the claim in its
    kind and counts the claims made. Steps interleave under sequential
    consistency, and the count does not wrap. */
module NetlinkSlots {

  datatype Kind = Free | Claimed | Live

  /** The state word. */
  datatype Word = Word(claims: nat, kind: Kind)

  /** fd, device, inode, daemon socket, port. */
  const CELLS := 5
  type Fields = seq<int>

  /** What a publication put in the slot: the fields, and the occupant they
      belong to (a retirement called off publishes the same one again). */
  datatype Pub = Pub(occupant: nat, fields: Fields)

  datatype Pc =
    | Idle
    | SawFree(st: Word)
    | Snapping(st: Word, got: seq<int>)
    | Snapped(st: Word, got: seq<int>)
    | Judging(mine: nat)
    | Emptied(mine: nat)
    | Filling(mine: nat, want: Fields, i: nat)

  /** A snapshot that was taken, an occupant that was emptied on the strength
      of one, and a new occupant put in place. */
  datatype Note = Snap(st: Word, got: seq<int>) | Emptying(judged: nat, actual: nat) | Put(claims: nat, want: Fields)

  datatype Sys = Sys(word: Word, fields: Fields, pc: map<nat, Pc>, holder: nat,
                     pub: map<nat, Pub>, occupant: nat, notes: seq<Note>)

  datatype Act =
    | LookFree(t: nat) | ClaimFree(t: nat)
    | SnapBegin(t: nat) | SnapCell(t: nat) | SnapEnd(t: nat)
    | RetireClaim(t: nat) | CallOff(t: nat) | Empty(t: nat) | GiveBack(t: nat)
    | FillBegin(t: nat, want: Fields) | FillCell(t: nat) | Publish(t: nat) | FillFail(t: nat)

  function At(s: Sys, t: nat): Pc { if t in s.pc then s.pc[t] else Idle }
  function Go(s: Sys, t: nat, p: Pc): Sys { s.(pc := s.pc[t := p]) }

  /** slot_claim: a compare-and-swap from the very state that was read. */
  function Claim(s: Sys, t: nat, st: Word, p: Pc): Sys {
    if s.word == st then Go(s, t, p).(word := Word(st.claims + 1, Claimed), holder := t)
    else Go(s, t, Idle)
  }

  /** slot_settle. */
  function Settle(s: Sys, t: nat, mine: nat, kind: Kind, occupant: nat): Sys {
    Go(s, t, Idle).(word := Word(mine, kind), occupant := occupant,
                    pub := if kind == Live then s.pub[mine := Pub(occupant, s.fields)] else s.pub)
  }

  /** The order the filler stores in: the fd goes last. */
  function CellAt(i: nat): nat { (i + 1) % CELLS }

  function Do(s: Sys, a: Act): Sys {
    var p := At(s, a.t);
    match a
    case LookFree(t) => if p.Idle? && s.word.kind == Free then Go(s, t, SawFree(s.word)) else s
    case ClaimFree(t) => if p.SawFree? then Claim(s, t, p.st, Emptied(p.st.claims + 1)) else s
    case SnapBegin(t) => if p.Idle? && s.word.kind == Live then Go(s, t, Snapping(s.word, [])) else s
    case SnapCell(t) =>
      if p.Snapping? && |p.got| < |s.fields| then Go(s, t, Snapping(p.st, p.got + [s.fields[|p.got|]])) else s
    case SnapEnd(t) =>
      if p.Snapping? && |p.got| == CELLS then
        if s.word == p.st then Go(s, t, Snapped(p.st, p.got)).(notes := s.notes + [Snap(p.st, p.got)])
        else Go(s, t, Idle)
      else s
    case RetireClaim(t) => if p.Snapped? then Claim(s, t, p.st, Judging(p.st.claims + 1)) else s
    case CallOff(t) => if p.Judging? then Settle(s, t, p.mine, Live, s.occupant) else s
    case Empty(t) =>
      if p.Judging? && |s.fields| > 0 then
        Go(s, t, Emptied(p.mine)).(fields := s.fields[0 := -1],
          notes := s.notes + [Emptying(if p.mine - 1 in s.pub then s.pub[p.mine - 1].occupant else 0, s.occupant)])
      else s
    case GiveBack(t) => if p.Emptied? then Settle(s, t, p.mine, Free, s.occupant) else s
    case FillBegin(t, want) => if p.Emptied? && |want| == CELLS then Go(s, t, Filling(p.mine, want, 0)) else s
    case FillCell(t) =>
      if p.Filling? && p.i < CELLS == |p.want| == |s.fields| then
        Go(s, t, Filling(p.mine, p.want, p.i + 1)).(fields := s.fields[CellAt(p.i) := p.want[CellAt(p.i)]])
      else s
    case Publish(t) =>
      if p.Filling? && p.i == CELLS then Settle(s, t, p.mine, Live, p.mine).(notes := s.notes + [Put(p.mine, p.want)])
      else s
    case FillFail(t) =>
      if p.Emptied? && |s.fields| > 0 then Settle(s.(fields := s.fields[0 := -1]), t, p.mine, Free, s.occupant) else s
  }

  function Run(s: Sys, acts: seq<Act>): Sys {
    if acts == [] then s else Do(Run(s, acts[..|acts| - 1]), acts[|acts| - 1])
  }

  /** The slot before anyone has used it. */
  function Init(): Sys { Sys(Word(0, Free), [0, 0, 0, 0, 0], map[], 0, map[], 0, []) }

  predicate Holds(p: Pc) { p.Judging? || p.Emptied? || p.Filling? }
  function Mine(p: Pc): nat requires Holds(p) { p.mine }

  ghost predicate Shared(s: Sys) {
    && |s.fields| == CELLS
    && (s.word.kind == Live ==> s.word.claims in s.pub && s.pub[s.word.claims] == Pub(s.occupant, s.fields))
    && (forall c :: c in s.pub ==> c <= s.word.claims && (c == s.word.claims ==> s.word.kind == Live))
  }

  ghost predicate ThreadOk(s: Sys, t: nat) {
    var p := At(s, t);
    && (Holds(p) ==> s.word == Word(Mine(p), Claimed) && s.holder == t)
    && match p
       case SawFree(st) => st.kind == Free
       case Snapping(st, got) =>
         && st.kind == Live && st.claims in s.pub
         && (s.word.claims == st.claims ==> got <= s.fields)
       case Snapped(st, got) =>
         && st.kind == Live && st.claims in s.pub && s.pub[st.claims].fields == got
       case Judging(mine) =>
         && mine >= 1 && mine - 1 in s.pub && s.pub[mine - 1] == Pub(s.occupant, s.fields)
       case Filling(mine, want, i) =>
         && i <= CELLS == |want| == |s.fields| && forall j :: 0 <= j < i ==> s.fields[CellAt(j)] == want[CellAt(j)]
       case _ => true
  }

  /** A snapshot's fields are one publication's, and an emptied occupant is
      the one the snapshot was of. */
  ghost predicate NoteOk(s: Sys, n: Note) {
    match n
    case Snap(st, got) => st.claims in s.pub && s.pub[st.claims].fields == got
    case Emptying(judged, actual) => judged == actual
    case Put(claims, want) => claims in s.pub && s.pub[claims] == Pub(claims, want)
  }

  ghost predicate Inv(s: Sys) {
    && Shared(s) && (forall t :: ThreadOk(s, t))
    && (forall i :: 0 <= i < |s.notes| ==> NoteOk(s, s.notes[i]))
  }

  lemma {:induction false} InitInv()
    ensures Inv(Init())
  {
  }

  /** A step that changes no shared word leaves the other threads alone. */
  lemma {:induction false} LocalInv(s: Sys, t: nat, p: Pc, notes: seq<Note>)
    requires Inv(s) && ThreadOk(Go(s, t, p), t)
    requires forall i :: 0 <= i < |notes| ==> NoteOk(s, notes[i])
    ensures Inv(Go(s, t, p).(notes := s.notes + notes))
  {
    var s' := Go(s, t, p).(notes := s.notes + notes);
    forall u ensures ThreadOk(s', u) {
      assert ThreadOk(s, u);
      if u == t { assert ThreadOk(Go(s, t, p), t); }
    }
  }

  lemma {:induction false} SnapInv(s: Sys, a: Act)
    requires Inv(s) && (a.LookFree? || a.SnapBegin? || a.SnapCell? || a.SnapEnd?)
    ensures Inv(Do(s, a))
  {
    var p := At(s, a.t);
    assert ThreadOk(s, a.t) && s.notes + [] == s.notes;
    match a
    case LookFree(t) => if p.Idle? && s.word.kind == Free { LocalInv(s, t, SawFree(s.word), []); }
    case SnapBegin(t) => if p.Idle? && s.word.kind == Live { LocalInv(s, t, Snapping(s.word, []), []); }
    case SnapCell(t) =>
      if p.Snapping? && |p.got| < |s.fields| { LocalInv(s, t, Snapping(p.st, p.got + [s.fields[|p.got|]]), []); }
    case SnapEnd(t) =>
      if p.Snapping? && |p.got| == CELLS {
        if s.word == p.st {
          assert p.got == s.fields;
          LocalInv(s, t, Snapped(p.st, p.got), [Snap(p.st, p.got)]);
        } else {
          LocalInv(s, t, Idle, []);
        }
      }
  }

  /** A claim succeeds only from the very word its thread read, so nobody else
      can be holding the slot, and what a retirement judged is still there. */
  lemma {:induction false} ClaimInv(s: Sys, a: Act)
    requires Inv(s) && (a.ClaimFree? || a.RetireClaim?)
    ensures Inv(Do(s, a))
  {
    var p, s' := At(s, a.t), Do(s, a);
    assert ThreadOk(s, a.t) && s.notes + [] == s.notes;
    if (a.ClaimFree? && p.SawFree?) || (a.RetireClaim? && p.Snapped?) {
      if s.word == p.st {
        forall u ensures ThreadOk(s', u) { assert ThreadOk(s, u); }
        forall i | 0 <= i < |s'.notes| ensures NoteOk(s', s'.notes[i]) { assert NoteOk(s, s.notes[i]); }
      } else {
        LocalInv(s, a.t, Idle, []);
      }
    }
  }

  /** The holder stores into the slot: a snapshot begun before the claim will
      find the word moved. */
  lemma {:induction false} HolderStore(s: Sys, t: nat, p: Pc, k: nat, x: int, u: nat)
    requires Inv(s) && Holds(At(s, t)) && Holds(p) && Mine(p) == Mine(At(s, t)) && k < CELLS && u != t
    ensures ThreadOk(Go(s, t, p).(fields := s.fields[k := x]), u)
  {
    assert ThreadOk(s, t) && ThreadOk(s, u);
  }

  lemma {:induction false} EmptyInv(s: Sys, t: nat)
    requires Inv(s)
    ensures Inv(Do(s, Empty(t)))
  {
    var p, s' := At(s, t), Do(s, Empty(t));
    assert ThreadOk(s, t);
    if p.Judging? {
      forall u ensures ThreadOk(s', u) {
        if u != t { HolderStore(s, t, Emptied(p.mine), 0, -1, u); }
      }
      forall i | 0 <= i < |s'.notes| ensures NoteOk(s', s'.notes[i]) {
        if i < |s.notes| { assert NoteOk(s, s.notes[i]); }
      }
    }
  }

  lemma {:induction false} FillInv(s: Sys, a: Act)
    requires Inv(s) && (a.FillBegin? || a.FillCell?)
    ensures Inv(Do(s, a))
  {
    var p, s' := At(s, a.t), Do(s, a);
    assert ThreadOk(s, a.t) && s.notes + [] == s.notes;
    if a.FillBegin? && p.Emptied? && |a.want| == CELLS {
      LocalInv(s, a.t, Filling(p.mine, a.want, 0), []);
    } else if a.FillCell? && p.Filling? && p.i < CELLS {
      forall u ensures ThreadOk(s', u) {
        if u != a.t { HolderStore(s, a.t, Filling(p.mine, p.want, p.i + 1), CellAt(p.i), p.want[CellAt(p.i)], u); }
      }
      forall i | 0 <= i < |s'.notes| ensures NoteOk(s', s'.notes[i]) { assert NoteOk(s, s.notes[i]); }
    }
  }

  /** Settling: the holder's count has never been published under. */
  lemma {:induction false} SettleInv(s: Sys, t: nat, kind: Kind, occupant: nat, fd: bool)
    requires Inv(s) && Holds(At(s, t)) && kind != Claimed && (fd ==> kind == Free)
    ensures Inv(Settle(if fd then s.(fields := s.fields[0 := -1]) else s, t, Mine(At(s, t)), kind, occupant))
  {
    var s1 := if fd then s.(fields := s.fields[0 := -1]) else s;
    var s' := Settle(s1, t, Mine(At(s, t)), kind, occupant);
    assert ThreadOk(s, t);
    forall u ensures ThreadOk(s', u) { assert ThreadOk(s, u); }
    forall i | 0 <= i < |s'.notes| ensures NoteOk(s', s'.notes[i]) { assert NoteOk(s, s.notes[i]); }
  }

  lemma {:induction false} PublishInv(s: Sys, t: nat)
    requires Inv(s)
    ensures Inv(Do(s, Publish(t)))
  {
    var p := At(s, t);
    assert ThreadOk(s, t);
    if p.Filling? && p.i == CELLS {
      assert CellAt(0) == 1 && CellAt(1) == 2 && CellAt(2) == 3 && CellAt(3) == 4 && CellAt(4) == 0;
      assert s.fields == p.want;
      SettleInv(s, t, Live, p.mine, false);
      var s1 := Settle(s, t, p.mine, Live, p.mine);
      NotedInv(s1, Put(p.mine, p.want));
    }
  }

  lemma {:induction false} NotedInv(s: Sys, n: Note)
    requires Inv(s) && NoteOk(s, n)
    ensures Inv(s.(notes := s.notes + [n]))
  {
    var s' := s.(notes := s.notes + [n]);
    forall u ensures ThreadOk(s', u) { assert ThreadOk(s, u); }
    forall i | 0 <= i < |s'.notes| ensures NoteOk(s', s'.notes[i]) {
      if i < |s.notes| { assert NoteOk(s, s.notes[i]); }
    }
  }

  lemma {:induction false} StepInv(s: Sys, a: Act)
    requires Inv(s)
    ensures Inv(Do(s, a))
  {
    var p := At(s, a.t);
    match a
    case ClaimFree(_) => ClaimInv(s, a);
    case RetireClaim(_) => ClaimInv(s, a);
    case CallOff(t) => if p.Judging? { SettleInv(s, t, Live, s.occupant, false); }
    case Empty(t) => EmptyInv(s, t);
    case GiveBack(t) => if p.Emptied? { SettleInv(s, t, Free, s.occupant, false); }
    case FillBegin(_, _) => FillInv(s, a);
    case FillCell(_) => FillInv(s, a);
    case Publish(t) => PublishInv(s, t);
    case FillFail(t) => if p.Emptied? { SettleInv(s, t, Free, s.occupant, true); }
    case _ => SnapInv(s, a);
  }

  lemma {:induction false} RunInv(acts: seq<Act>)
    ensures Inv(Run(Init(), acts))
  {
    if acts == [] {
      InitInv();
    } else {
      RunInv(acts[..|acts| - 1]);
      StepInv(Run(Init(), acts[..|acts| - 1]), acts[|acts| - 1]);
    }
  }

  /** What is published is what a filler put there: the occupant's own fields, the
      retirement of which may have been called off since. */
  ghost predicate PubsPut(s: Sys) {
    forall c :: c in s.pub ==> Put(s.pub[c].occupant, s.pub[c].fields) in s.notes
  }

  lemma {:induction false} PublishPut(s: Sys, t: nat)
    requires Inv(s) && PubsPut(s)
    ensures PubsPut(Do(s, Publish(t)))
  {
    var p, s' := At(s, t), Do(s, Publish(t));
    assert ThreadOk(s, t);
    if p.Filling? && p.i == CELLS {
      assert CellAt(0) == 1 && CellAt(1) == 2 && CellAt(2) == 3 && CellAt(3) == 4 && CellAt(4) == 0;
      assert s.fields == p.want;
      assert s'.notes[|s.notes|] == Put(p.mine, p.want);
      forall c | c in s'.pub ensures Put(s'.pub[c].occupant, s'.pub[c].fields) in s'.notes {
        if c != p.mine { assert Put(s.pub[c].occupant, s.pub[c].fields) in s.notes; }
      }
    }
  }

  lemma {:induction false} StepPut(s: Sys, a: Act)
    requires Inv(s) && PubsPut(s)
    ensures PubsPut(Do(s, a))
  {
    assert ThreadOk(s, a.t);
    if a.Publish? { PublishPut(s, a.t); }
  }

  lemma {:induction false} RunPut(acts: seq<Act>)
    ensures PubsPut(Run(Init(), acts))
  {
    if acts != [] {
      RunPut(acts[..|acts| - 1]);
      RunInv(acts[..|acts| - 1]);
      StepPut(Run(Init(), acts[..|acts| - 1]), acts[|acts| - 1]);
    }
  }

  /** A snapshot is one occupant's fields, whole, as its filler put them there. */
  ghost predicate SnapIsPut(s: Sys, n: Note) {
    n.Snap? ==> exists occupant :: Put(occupant, n.got) in s.notes && n.st.claims in s.pub
                                  && s.pub[n.st.claims] == Pub(occupant, n.got)
  }

  /** For every interleaving: a snapshot that succeeds is what one filler put in
      the slot, whole; a filler puts one set of fields in; at most one thread holds
      the slot; and a retirement empties the occupant that was judged, never one
      that came after. */
  lemma {:induction false} SlotsAreSafe(acts: seq<Act>)
    ensures var s := Run(Init(), acts);
            && (forall i :: 0 <= i < |s.notes| ==> NoteOk(s, s.notes[i]) && SnapIsPut(s, s.notes[i]))
            && (forall c, x, y :: Put(c, x) in s.notes && Put(c, y) in s.notes ==> x == y)
            && (forall t, u :: Holds(At(s, t)) && Holds(At(s, u)) ==> t == u)
  {
    RunInv(acts);
    RunPut(acts);
    var s := Run(Init(), acts);
    forall i | 0 <= i < |s.notes| ensures SnapIsPut(s, s.notes[i]) {
      assert NoteOk(s, s.notes[i]);
      if s.notes[i].Snap? {
        var p := s.pub[s.notes[i].st.claims];
        assert Put(p.occupant, s.notes[i].got) in s.notes;
      }
    }
    forall c, x, y | Put(c, x) in s.notes && Put(c, y) in s.notes ensures x == y {
      assert NoteOk(s, Put(c, x)) && NoteOk(s, Put(c, y));
    }
    forall t, u | Holds(At(s, t)) && Holds(At(s, u)) ensures t == u {
      assert ThreadOk(s, t) && ThreadOk(s, u);
    }
  }
}
