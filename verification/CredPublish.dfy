/** The published credential set: two buffers, which of them is active, a
    sequence number, and an owner word writers take. Threads interleave one
    shared access at a time, under sequential consistency and with an
    unbounded sequence. */
module CredPublish {

  /** One credential set: its ids and groups, a cell at a time. */
  type Cells = seq<int>

  /** Where a thread is. A reader carries the version it began at (`from`) and
      the version it was shown (`v`): neither is anything it can see. */
  datatype Pc =
    | Idle
    | Begun(s: nat, from: nat)
    | Reading(s: nat, c: nat, v: nat, from: nat, got: map<nat, int>)
    | Holding
    | Copying(dst: nat, k: nat)
    | Editing(dst: nat, edits: map<nat, int>)
    | Published
    | Bumped
    | Gone

  /** A read that passed its re-check: what it got, and the versions that were
      current when it began and when it ended. */
  datatype Read = Read(got: map<nat, int>, from: nat, to: nat)

  /** `hist` is every set ever published, in order, and `log` the edits that
      made each from the one before. */
  datatype Sys = Sys(n: nat, buf: seq<Cells>, cur: nat, seqn: nat, owner: nat, pc: map<nat, Pc>,
                     hist: seq<Cells>, log: seq<map<nat, int>>, done: seq<Read>)

  /** One step of one thread. */
  datatype Act =
    | LoadSeq(t: nat) | LoadPtr(t: nat) | ReadCell(t: nat, k: nat) | Recheck(t: nat)
    | Lock(t: nat) | Source(t: nat) | Copy(t: nat) | Edit(t: nat, k: nat, x: int)
    | Abort(t: nat) | Publish(t: nat) | Bump(t: nat) | Unlock(t: nat)
    | Die(t: nat) | TakeOver

  function At(st: Sys, t: nat): Pc { if t in st.pc then st.pc[t] else Idle }
  function Go(st: Sys, t: nat, p: Pc): Sys { st.(pc := st.pc[t := p]) }

  function Version(st: Sys): int { |st.hist| - 1 }

  function Patch(cells: Cells, edits: map<nat, int>): Cells {
    seq(|cells|, k requires 0 <= k < |cells| => if k in edits then edits[k] else cells[k])
  }

  function Store(st: Sys, b: nat, k: nat, x: int): Sys {
    if b < |st.buf| && k < |st.buf[b]| then st.(buf := st.buf[b := st.buf[b][k := x]]) else st
  }

  /** The effect of a step; one whose thread is elsewhere does nothing. */
  function Do(st: Sys, a: Act): Sys {
    match a
    case LoadSeq(t) =>
      if At(st, t).Idle? && Version(st) >= 0 then Go(st, t, Begun(st.seqn, Version(st))) else st
    case LoadPtr(t) =>
      if At(st, t).Begun? && Version(st) >= 0 then
        Go(st, t, Reading(At(st, t).s, st.cur, Version(st), At(st, t).from, map[]))
      else st
    case ReadCell(t, k) =>
      var p := At(st, t);
      if p.Reading? && p.c < |st.buf| && k < |st.buf[p.c]| then Go(st, t, p.(got := p.got[k := st.buf[p.c][k]])) else st
    case Recheck(t) =>
      var p := At(st, t);
      if p.Reading? && Version(st) >= 0 then
        var st1 := Go(st, t, Idle);
        if st.seqn == p.s then st1.(done := st.done + [Read(p.got, p.from, Version(st))]) else st1
      else st
    case Lock(t) =>
      if At(st, t).Idle? && t != 0 && st.owner == 0 then Go(st, t, Holding).(owner := t) else st
    case Source(t) =>
      if At(st, t).Holding? then Go(st, t, Copying(if st.cur == 0 then 1 else 0, 0)) else st
    case Copy(t) =>
      var p := At(st, t);
      if p.Copying? && st.cur < |st.buf| then
        if p.k < |st.buf[st.cur]| then Go(Store(st, p.dst, p.k, st.buf[st.cur][p.k]), t, Copying(p.dst, p.k + 1))
        else Go(st, t, Editing(p.dst, map[]))
      else st
    case Edit(t, k, x) =>
      var p := At(st, t);
      if p.Editing? && k < st.n then Go(Store(st, p.dst, k, x), t, p.(edits := p.edits[k := x])) else st
    case Abort(t) =>
      if At(st, t).Editing? then Go(st, t, Idle).(owner := 0) else st
    case Publish(t) =>
      var p := At(st, t);
      if p.Editing? && p.dst < |st.buf| then
        Go(st, t, Published).(cur := p.dst, hist := st.hist + [st.buf[p.dst]], log := st.log + [p.edits])
      else st
    case Bump(t) =>
      if At(st, t).Published? then Go(st, t, Bumped).(seqn := st.seqn + 1) else st
    case Unlock(t) =>
      if At(st, t).Bumped? then Go(st, t, Idle).(owner := 0) else st
    case Die(t) => Go(st, t, Gone)
    case TakeOver =>
      if st.owner != 0 && At(st, st.owner).Gone? then st.(owner := 0) else st
  }

  function Run(st: Sys, acts: seq<Act>): Sys {
    if acts == [] then st else Do(Run(st, acts[..|acts| - 1]), acts[|acts| - 1])
  }

  function Init(first: Cells): Sys {
    Sys(|first|, [first, first], 0, 0, 0, map[], [first], [], [])
  }

  /** A read under way that began under the current sequence and is on the buffer
      that is not active any more. */
  ghost predicate Straddles(st: Sys, u: nat) {
    At(st, u).Reading? && At(st, u).s == st.seqn && st.cur < 2 && At(st, u).c == 1 - st.cur
  }

  /** Thread `t` is between switching buffers and bumping the sequence, and a read
      straddles: a bad moment to die. */
  ghost predicate Tears(st: Sys, t: nat) {
    At(st, t).Published? && st.n > 0 && exists u :: Straddles(st, u)
  }

  /** No thread dies at such a moment. */
  ghost predicate NoTear(st: Sys, acts: seq<Act>) {
    forall i :: 0 <= i < |acts| && acts[i].Die? ==> !Tears(Run(st, acts[..i]), acts[i].t)
  }

  /** No thread ever dies between switching buffers and bumping the sequence. */
  ghost predicate NoWindowDeath(st: Sys, acts: seq<Act>) {
    forall i :: 0 <= i < |acts| && acts[i].Die? ==> !At(Run(st, acts[..i]), acts[i].t).Published?
  }

  predicate Writing(p: Pc) { p.Holding? || p.Copying? || p.Editing? || p.Published? || p.Bumped? }

  /** Between the two stores of a publication. */
  predicate InWindow(st: Sys) { st.owner != 0 && At(st, st.owner).Published? }

  ghost predicate From(got: map<nat, int>, cells: Cells) {
    forall k :: k in got ==> k < |cells| && got[k] == cells[k]
  }

  /** Everything a read got is in one published set, and that set was current
      at some moment between its beginning and its end. */
  ghost predicate Linear(r: Read, hist: seq<Cells>) {
    exists v :: r.from <= v <= r.to && v < |hist| && From(r.got, hist[v])
  }

  /** Each published set is the one before with one writer's edits: no update
      is lost. */
  ghost predicate Chained(hist: seq<Cells>, log: seq<map<nat, int>>) {
    |log| + 1 == |hist| && forall i :: 0 <= i < |log| ==> hist[i + 1] == Patch(hist[i], log[i])
  }

  ghost predicate Buffers(st: Sys) {
    && |st.buf| == 2 && |st.buf[0]| == st.n && |st.buf[1]| == st.n && st.cur < 2 && |st.hist| >= 1
    && st.buf[st.cur] == st.hist[Version(st)]
    && (InWindow(st) ==> |st.hist| >= 2 && st.buf[1 - st.cur] == st.hist[Version(st) - 1])
  }

  ghost predicate ThreadOk(st: Sys, t: nat)
    requires Buffers(st)
  {
    var p := At(st, t);
    && (Writing(p) ==> st.owner == t && t != 0)
    && match p
       case Begun(s, from) => from <= Version(st) && s <= st.seqn
       case Reading(s, c, v, from, got) =>
         && from <= v <= Version(st) && s <= st.seqn && (st.n == 0 ==> got == map[])
         && (s == st.seqn && st.n > 0 ==>
               && c < 2 && st.buf[c] == st.hist[v] && From(got, st.hist[v])
               && (if v == Version(st) then c == st.cur else InWindow(st) && v + 1 == Version(st) && c == 1 - st.cur))
       case Copying(dst, k) =>
         dst == 1 - st.cur && k <= st.n && forall j :: 0 <= j < k ==> st.buf[dst][j] == st.buf[st.cur][j]
       case Editing(dst, edits) =>
         dst == 1 - st.cur && st.buf[dst] == Patch(st.buf[st.cur], edits)
       case _ => true
  }

  ghost predicate Inv(st: Sys) {
    && Buffers(st) && Chained(st.hist, st.log)
    && (forall t :: ThreadOk(st, t))
    && (forall i :: 0 <= i < |st.done| ==> Linear(st.done[i], st.hist))
  }

  lemma {:induction false} InitInv(first: Cells)
    ensures Inv(Init(first))
  {
  }

  /** A step that moves only its own thread, in or out of nothing that
      publishes, leaves every other thread as it was. */
  lemma {:induction false} LocalStep(st: Sys, t: nat, p: Pc, u: nat)
    requires Buffers(st) && ThreadOk(st, u) && u != t && !At(st, t).Published? && !p.Published?
    ensures Buffers(Go(st, t, p)) && ThreadOk(Go(st, t, p), u) && InWindow(Go(st, t, p)) == InWindow(st)
  {
  }

  lemma {:induction false} LocalInv(st: Sys, t: nat, p: Pc)
    requires Inv(st) && !At(st, t).Published? && !p.Published?
    requires InWindow(Go(st, t, p)) == InWindow(st) && Buffers(Go(st, t, p)) ==> ThreadOk(Go(st, t, p), t)
    ensures Inv(Go(st, t, p))
  {
    forall u | u != t ensures Buffers(Go(st, t, p)) && ThreadOk(Go(st, t, p), u) {
      assert ThreadOk(st, u);
      LocalStep(st, t, p, u);
    }
  }

  /** A read that passes its re-check took everything from one version. */
  lemma {:induction false} RecheckInv(st: Sys, t: nat)
    requires Inv(st)
    ensures Inv(Do(st, Recheck(t)))
  {
    var p := At(st, t);
    assert ThreadOk(st, t);
    if p.Reading? {
      LocalInv(st, t, Idle);
      var r := Read(p.got, p.from, Version(st));
      if p.s == st.seqn {
        assert From(r.got, st.hist[p.v]);
        DoneInv(Go(st, t, Idle), r);
      }
    }
  }

  lemma {:induction false} DoneInv(st: Sys, r: Read)
    requires Inv(st) && Linear(r, st.hist)
    ensures Inv(st.(done := st.done + [r]))
  {
    var st' := st.(done := st.done + [r]);
    forall u ensures ThreadOk(st', u) { assert ThreadOk(st, u); }
  }

  lemma {:induction false} LoadSeqInv(st: Sys, t: nat)
    requires Inv(st)
    ensures Inv(Do(st, LoadSeq(t)))
  {
    if At(st, t).Idle? { LocalInv(st, t, Begun(st.seqn, Version(st))); }
  }

  lemma {:induction false} LoadPtrInv(st: Sys, t: nat)
    requires Inv(st)
    ensures Inv(Do(st, LoadPtr(t)))
  {
    assert ThreadOk(st, t);
    if At(st, t).Begun? { LocalInv(st, t, Reading(At(st, t).s, st.cur, Version(st), At(st, t).from, map[])); }
  }

  lemma {:induction false} ReadCellInv(st: Sys, t: nat, k: nat)
    requires Inv(st)
    ensures Inv(Do(st, ReadCell(t, k)))
  {
    var p := At(st, t);
    assert ThreadOk(st, t);
    if p.Reading? && p.c < |st.buf| && k < |st.buf[p.c]| {
      LocalInv(st, t, p.(got := p.got[k := st.buf[p.c][k]]));
    }
  }

  /** The owner word changes hands between writers. */
  lemma {:induction false} OwnerOther(st: Sys, st': Sys, u: nat)
    requires Inv(st) && st' == st.(owner := st'.owner, pc := st'.pc) && At(st', u) == At(st, u)
    requires !InWindow(st) && !InWindow(st') && !Writing(At(st, u))
    ensures Buffers(st') && ThreadOk(st', u)
  {
    assert ThreadOk(st, u);
  }

  lemma {:induction false} LockInv(st: Sys, t: nat)
    requires Inv(st)
    ensures Inv(Do(st, Lock(t)))
  {
    if At(st, t).Idle? && t != 0 && st.owner == 0 {
      var st' := Do(st, Lock(t));
      forall u ensures Buffers(st') && ThreadOk(st', u) {
        assert ThreadOk(st, u);
        if u != t { OwnerOther(st, st', u); }
      }
    }
  }

  lemma {:induction false} TakeOverInv(st: Sys)
    requires Inv(st)
    ensures Inv(Do(st, TakeOver))
  {
    if st.owner != 0 && At(st, st.owner).Gone? {
      var st' := Do(st, TakeOver);
      forall u ensures Buffers(st') && ThreadOk(st', u) {
        assert ThreadOk(st, u);
        OwnerOther(st, st', u);
      }
    }
  }

  lemma {:induction false} SourceInv(st: Sys, t: nat)
    requires Inv(st)
    ensures Inv(Do(st, Source(t)))
  {
    assert ThreadOk(st, t);
    if At(st, t).Holding? { LocalInv(st, t, Copying(if st.cur == 0 then 1 else 0, 0)); }
  }

  /** A writer outside the window lets the lock go. */
  lemma {:induction false} FreeInv(st: Sys, t: nat)
    requires Inv(st) && (At(st, t).Editing? || At(st, t).Bumped?)
    ensures Inv(Go(st, t, Idle).(owner := 0))
  {
    var st' := Go(st, t, Idle).(owner := 0);
    assert ThreadOk(st, t);
    forall u ensures ThreadOk(st', u) { FreeOther(st, t, u); }
  }

  lemma {:induction false} FreeOther(st: Sys, t: nat, u: nat)
    requires Inv(st) && (At(st, t).Editing? || At(st, t).Bumped?)
    ensures Buffers(Go(st, t, Idle).(owner := 0)) && ThreadOk(Go(st, t, Idle).(owner := 0), u)
  {
    assert ThreadOk(st, t) && ThreadOk(st, u);
  }

  /** A writer's stores land in the inactive buffer, which no read that will
      pass its re-check is reading. */
  lemma {:induction false} StoreKeepsOthers(st: Sys, t: nat, k: nat, x: int, p: Pc, u: nat)
    requires Inv(st) && (At(st, t).Copying? || At(st, t).Editing?) && (p.Copying? || p.Editing?) && u != t
    ensures var st' := Go(Store(st, 1 - st.cur, k, x), t, p); Buffers(st') && ThreadOk(st', u)
  {
    assert ThreadOk(st, t) && ThreadOk(st, u);
  }

  lemma {:induction false} CopyOneInv(st: Sys, t: nat, k: nat)
    requires Inv(st) && At(st, t) == Copying(1 - st.cur, k) && k < st.n
    ensures Inv(Do(st, Copy(t)))
  {
    var st' := Do(st, Copy(t));
    assert ThreadOk(st, t);
    forall u | u != t ensures Buffers(st') && ThreadOk(st', u) {
      StoreKeepsOthers(st, t, k, st.buf[st.cur][k], At(st', t), u);
    }
  }

  lemma {:induction false} CopiedInv(st: Sys, t: nat, k: nat)
    requires Inv(st) && At(st, t) == Copying(1 - st.cur, k) && k >= st.n
    ensures Inv(Do(st, Copy(t)))
  {
    assert ThreadOk(st, t);
    assert st.buf[1 - st.cur] == Patch(st.buf[st.cur], map[]);
    LocalInv(st, t, Editing(1 - st.cur, map[]));
  }

  lemma {:induction false} CopyInv(st: Sys, t: nat)
    requires Inv(st)
    ensures Inv(Do(st, Copy(t)))
  {
    assert ThreadOk(st, t);
    if At(st, t).Copying? {
      if At(st, t).k < st.n { CopyOneInv(st, t, At(st, t).k); } else { CopiedInv(st, t, At(st, t).k); }
    }
  }

  lemma {:induction false} EditInv(st: Sys, t: nat, k: nat, x: int)
    requires Inv(st)
    ensures Inv(Do(st, Edit(t, k, x)))
  {
    var st', p := Do(st, Edit(t, k, x)), At(st, t);
    assert ThreadOk(st, t);
    if p.Editing? && k < st.n {
      assert st'.buf[p.dst] == Patch(st.buf[st.cur], p.edits[k := x]);
      forall u | u != t ensures Buffers(st') && ThreadOk(st', u) {
        StoreKeepsOthers(st, t, k, x, At(st', t), u);
      }
    }
  }

  lemma {:induction false} PublishOther(st: Sys, t: nat, u: nat)
    requires Inv(st) && At(st, t).Editing?
    ensures Buffers(Do(st, Publish(t))) && ThreadOk(Do(st, Publish(t)), u)
  {
    assert ThreadOk(st, t) && ThreadOk(st, u);
  }

  lemma {:induction false} StillLinear(r: Read, hist: seq<Cells>, next: Cells)
    requires Linear(r, hist)
    ensures Linear(r, hist + [next])
  {
    var v :| r.from <= v <= r.to && v < |hist| && From(r.got, hist[v]);
    assert From(r.got, (hist + [next])[v]);
  }

  lemma {:induction false} ChainedMore(st: Sys, t: nat)
    requires Inv(st) && At(st, t).Editing?
    ensures Chained(Do(st, Publish(t)).hist, Do(st, Publish(t)).log)
  {
    assert ThreadOk(st, t);
  }

  lemma {:induction false} PublishInv(st: Sys, t: nat)
    requires Inv(st)
    ensures Inv(Do(st, Publish(t)))
  {
    if At(st, t).Editing? {
      var st', dst := Do(st, Publish(t)), At(st, t).dst;
      assert ThreadOk(st, t);
      forall u ensures Buffers(st') && ThreadOk(st', u) { PublishOther(st, t, u); }
      forall i | 0 <= i < |st'.done| ensures Linear(st'.done[i], st'.hist) {
        StillLinear(st.done[i], st.hist, st.buf[dst]);
      }
      ChainedMore(st, t);
    }
  }

  lemma {:induction false} BumpInv(st: Sys, t: nat)
    requires Inv(st)
    ensures Inv(Do(st, Bump(t)))
  {
    var st' := Do(st, Bump(t));
    assert ThreadOk(st, t);
    forall u ensures ThreadOk(st', u) { assert ThreadOk(st, u); }
  }

  lemma {:induction false} DieInv(st: Sys, t: nat)
    requires Inv(st) && !Tears(st, t)
    ensures Inv(Do(st, Die(t)))
  {
    var st' := Do(st, Die(t));
    forall u ensures Buffers(st') && ThreadOk(st', u) { DieOther(st, t, u); }
  }

  lemma {:induction false} DieOther(st: Sys, t: nat, u: nat)
    requires Inv(st) && !Tears(st, t)
    ensures Buffers(Do(st, Die(t))) && ThreadOk(Do(st, Die(t)), u)
  {
    assert ThreadOk(st, t) && ThreadOk(st, u);
    if At(st, t).Published? && st.n > 0 { assert !Straddles(st, u); }
  }

  lemma {:induction false} StepInv(st: Sys, a: Act)
    requires Inv(st) && (a.Die? ==> !Tears(st, a.t))
    ensures Inv(Do(st, a))
  {
    match a
    case LoadSeq(t) => LoadSeqInv(st, t);
    case LoadPtr(t) => LoadPtrInv(st, t);
    case ReadCell(t, k) => ReadCellInv(st, t, k);
    case Recheck(t) => RecheckInv(st, t);
    case Copy(t) => CopyInv(st, t);
    case Edit(t, k, x) => EditInv(st, t, k, x);
    case Publish(t) => PublishInv(st, t);
    case Bump(t) => BumpInv(st, t);
    case Die(t) => DieInv(st, t);
    case Lock(t) => LockInv(st, t);
    case TakeOver => TakeOverInv(st);
    case Source(t) => SourceInv(st, t);
    case Abort(t) => if At(st, t).Editing? { FreeInv(st, t); }
    case Unlock(t) => if At(st, t).Bumped? { FreeInv(st, t); }
  }

  lemma {:induction false} RunInv(st: Sys, acts: seq<Act>)
    requires Inv(st) && NoTear(st, acts)
    ensures Inv(Run(st, acts))
  {
    if acts != [] {
      var last := |acts| - 1;
      forall i | 0 <= i < last && acts[..last][i].Die?
        ensures !Tears(Run(st, acts[..last][..i]), acts[..last][i].t)
      {
        assert acts[..last][..i] == acts[..i];
      }
      RunInv(st, acts[..last]);
      StepInv(Run(st, acts[..last]), acts[last]);
    }
  }

  /** Whatever any number of readers and writers do, aborted writes and threads
      that die with the lock included, as long as none dies at a bad moment: every
      read that passes its re-check is of one whole set that was current during
      it, and no update is lost. */
  lemma {:induction false} ReadsLinearize(first: Cells, acts: seq<Act>)
    requires NoTear(Init(first), acts)
    ensures var st := Run(Init(first), acts);
            && Chained(st.hist, st.log)
            && (forall i :: 0 <= i < |st.done| ==> Linear(st.done[i], st.hist))
            && (forall t, u :: Writing(At(st, t)) && Writing(At(st, u)) ==> t == u)
  {
    InitInv(first);
    RunInv(Init(first), acts);
    var st := Run(Init(first), acts);
    forall t, u | Writing(At(st, t)) && Writing(At(st, u)) ensures t == u {
      assert ThreadOk(st, t) && ThreadOk(st, u);
    }
  }

  ghost predicate AllLinear(st: Sys) {
    forall i :: 0 <= i < |st.done| ==> Linear(st.done[i], st.hist)
  }

  // ---- exactly which deaths ----

  lemma {:induction false} RunJoin(st: Sys, a: seq<Act>, b: seq<Act>)
    ensures Run(st, a + b) == Run(Run(st, a), b)
  {
    if b == [] {
      assert a + b == a;
    } else {
      RunJoin(st, a, b[..|b| - 1]);
      assert (a + b)[..|a + b| - 1] == a + b[..|b| - 1];
    }
  }

  /** Everything but the inactive buffer and thread `w` is as it was. */
  ghost predicate Besides(st: Sys, st': Sys, w: nat) {
    && st'.n == st.n && st'.cur == st.cur && st'.seqn == st.seqn && st'.hist == st.hist && st'.done == st.done
    && |st'.buf| == 2 && |st'.buf[0]| == |st'.buf[1]| == st.n && st.cur < 2
    && forall t :: t != w ==> At(st', t) == At(st, t)
  }

  function Copies(w: nat, m: nat): seq<Act> { seq(m, _ => Copy(w)) }

  lemma {:induction false} RunFirst(st: Sys, a: Act, rest: seq<Act>)
    ensures Run(st, [a] + rest) == Run(Do(st, a), rest)
  {
    RunJoin(st, [a], rest);
    assert [a][..0] == [];
    assert Run(st, [a]) == Do(Run(st, []), a);
  }

  lemma {:induction false} CopyStep(st: Sys, w: nat, k: nat)
    requires k <= st.n && Besides(st, st, w) && At(st, w) == Copying(1 - st.cur, k)
    ensures var st' := Do(st, Copy(w));
            && Besides(st, st', w)
            && At(st', w) == if k < st.n then Copying(1 - st.cur, k + 1) else Editing(1 - st.cur, map[])
  {
  }

  /** A writer copies on to the end. */
  lemma {:induction false} CopyOn(st: Sys, w: nat, k: nat)
    requires k <= st.n && Besides(st, st, w) && At(st, w) == Copying(1 - st.cur, k)
    ensures var st' := Run(st, Copies(w, st.n - k + 1)); Besides(st, st', w) && At(st', w) == Editing(1 - st.cur, map[])
    decreases st.n - k
  {
    var st1, rest := Do(st, Copy(w)), Copies(w, st.n - k);
    assert Copies(w, st.n - k + 1) == [Copy(w)] + rest;
    RunFirst(st, Copy(w), rest);
    CopyStep(st, w, k);
    if k < st.n {
      CopyOn(st1, w, k + 1);
    } else {
      assert rest == [];
    }
  }

  lemma {:induction false} Above(s: set<nat>) returns (b: nat)
    ensures b > 0 && forall x :: x in s ==> x < b
  {
    b := 1;
    if s != {} {
      var x :| x in s;
      var c := Above(s - {x});
      b := if x < c then c else x + 1;
      forall y | y in s ensures y < b { assert y == x || y in s - {x}; }
    }
  }

  /** A value no published set has in its first cell. */
  lemma {:induction false} Unseen(hist: seq<Cells>) returns (x: int)
    ensures forall v :: 0 <= v < |hist| && hist[v] != [] ==> hist[v][0] < x
  {
    x := 0;
    if hist != [] {
      var last := |hist| - 1;
      x := Unseen(hist[..last]);
      if hist[last] != [] && hist[last][0] >= x { x := hist[last][0] + 1; }
    }
  }

  lemma {:induction false} RunThree(st: Sys, a: Act, b: Act, c: Act, rest: seq<Act>)
    ensures Run(st, [a, b, c] + rest) == Run(Do(Do(Do(st, a), b), c), rest)
  {
    var last := [c] + rest;
    var more := [b] + last;
    ThreeMore(a, b, c, rest, last, more);
    RunFirst(st, a, more);
    RunFirst(Do(st, a), b, last);
    RunFirst(Do(Do(st, a), b), c, rest);
  }

  lemma {:induction false} ThreeMore(a: Act, b: Act, c: Act, rest: seq<Act>, last: seq<Act>, more: seq<Act>)
    requires last == [c] + rest && more == [b] + last
    ensures [a, b, c] + rest == [a] + more
  {
    var s, t := [a, b, c] + rest, [a] + more;
    forall i | 0 <= i < |s| ensures s[i] == t[i] {}
  }

  /** The next writer, up to where it may edit. */
  function Opening(w: nat, n: nat): seq<Act> { [TakeOver, Lock(w), Source(w)] + Copies(w, n + 1) }

  /** It takes the dead owner's place. */
  lemma {:induction false} Enters(st: Sys, w: nat)
    requires Besides(st, st, w) && At(st, w).Idle? && w != 0 && st.owner != 0 && At(st, st.owner).Gone? && st.owner != w
    ensures var st' := Do(Do(Do(st, TakeOver), Lock(w)), Source(w));
            Besides(st, st', w) && At(st', w) == Copying(1 - st.cur, 0)
  {
    var s1 := Do(st, TakeOver);
    assert Besides(st, s1, w) && At(s1, w).Idle? && s1.owner == 0;
    var s2 := Do(s1, Lock(w));
    assert Besides(st, s2, w) && At(s2, w).Holding?;
  }

  lemma {:induction false} OpeningRuns(st: Sys, w: nat, n: nat, entered: Sys)
    requires entered == Do(Do(Do(st, TakeOver), Lock(w)), Source(w))
    ensures Run(st, Opening(w, n)) == Run(entered, Copies(w, n + 1))
  {
    RunThree(st, TakeOver, Lock(w), Source(w), Copies(w, n + 1));
  }

  lemma {:induction false} NextWriter(st: Sys, w: nat)
    requires Besides(st, st, w) && At(st, w).Idle? && w != 0 && st.owner != 0 && At(st, st.owner).Gone? && st.owner != w
    ensures var st' := Run(st, Opening(w, st.n)); Besides(st, st', w) && At(st', w) == Editing(1 - st.cur, map[])
  {
    var entered := Do(Do(Do(st, TakeOver), Lock(w)), Source(w));
    Enters(st, w);
    OpeningRuns(st, w, st.n, entered);
    CopyOn(entered, w, 0);
  }

  /** The writer edits, the straddling reader reads and re-checks. */
  lemma {:induction false} TornSteps(st: Sys, w: nat, u: nat, x: int)
    requires Besides(st, st, w) && At(st, w) == Editing(1 - st.cur, map[]) && u != w && Straddles(st, u)
    requires st.n > 0 && |st.hist| >= 1
    ensures var p, st' := At(st, u), Do(Do(Do(st, Edit(w, 0, x)), ReadCell(u, 0)), Recheck(u));
            st'.hist == st.hist && st'.done == st.done + [Read(p.got[0 := x], p.from, Version(st))]
  {
    var p := At(st, u);
    var s1 := Do(st, Edit(w, 0, x));
    assert At(s1, u) == p && s1.buf[p.c][0] == x && |s1.buf[p.c]| == st.n;
    var s2 := Do(s1, ReadCell(u, 0));
    assert At(s2, u) == p.(got := p.got[0 := x]) && s2.seqn == st.seqn;
  }

  lemma {:induction false} TornRead(st: Sys, w: nat, u: nat, x: int)
    requires Besides(st, st, w) && At(st, w) == Editing(1 - st.cur, map[]) && u != w && Straddles(st, u)
    requires st.n > 0 && |st.hist| >= 1
    ensures var p, st' := At(st, u), Run(st, [Edit(w, 0, x), ReadCell(u, 0), Recheck(u)]);
            st'.hist == st.hist && st'.done == st.done + [Read(p.got[0 := x], p.from, Version(st))]
  {
    var acts := [Edit(w, 0, x), ReadCell(u, 0), Recheck(u)];
    assert acts == acts + [];
    RunThree(st, Edit(w, 0, x), ReadCell(u, 0), Recheck(u), []);
    TornSteps(st, w, u, x);
  }

  lemma {:induction false} NeverPublished(r: Read, hist: seq<Cells>, x: int)
    requires 0 in r.got && r.got[0] == x && forall v :: 0 <= v < |hist| && hist[v] != [] ==> hist[v][0] < x
    ensures !Linear(r, hist)
  {
    forall v | r.from <= v <= r.to && v < |hist| ensures !From(r.got, hist[v]) {
      assert 0 in r.got;
    }
  }

  function Tearing(w: nat, u: nat, n: nat, x: int): seq<Act> {
    Opening(w, n) + [Edit(w, 0, x), ReadCell(u, 0), Recheck(u)]
  }

  lemma {:induction false} NoneDies(st: Sys, w: nat, u: nat, n: nat, x: int)
    ensures NoWindowDeath(st, Tearing(w, u, n, x))
  {
    assert forall i :: 0 <= i < |Tearing(w, u, n, x)| ==> !Tearing(w, u, n, x)[i].Die?;
  }

  /** With the owner dead, the next writer's edit and the straddling reader. */
  lemma {:induction false} ReaderTorn(st: Sys, w: nat, u: nat, x: int)
    requires Besides(st, st, w) && At(st, w).Idle? && w != 0 && st.owner != 0 && At(st, st.owner).Gone? && st.owner != w
    requires u != w && Straddles(st, u) && st.n > 0 && |st.hist| >= 1
    ensures var p, st' := At(st, u), Run(st, Tearing(w, u, st.n, x));
            st'.hist == st.hist && st'.done == st.done + [Read(p.got[0 := x], p.from, Version(st))]
  {
    var st2 := Run(st, Opening(w, st.n));
    NextWriter(st, w);
    assert At(st2, u) == At(st, u);
    RunJoin(st, Opening(w, st.n), [Edit(w, 0, x), ReadCell(u, 0), Recheck(u)]);
    TornRead(st2, w, u, x);
  }

  /** A death at a bad moment can be followed by a read that passes and returns
      what never was, and no further death is needed. */
  lemma {:induction false} DeathTears(st: Sys, t: nat) returns (more: seq<Act>)
    requires Inv(st) && Tears(st, t)
    ensures NoWindowDeath(Do(st, Die(t)), more) && !AllLinear(Run(Do(st, Die(t)), more))
  {
    var u :| Straddles(st, u);
    var st1 := Do(st, Die(t));
    var w := Above(st1.pc.Keys);
    var x := Unseen(st.hist);
    assert ThreadOk(st, t) && At(st1, w) == Idle;
    assert Besides(st1, st1, w) && Straddles(st1, u);
    more := Tearing(w, u, st.n, x);
    ReaderTorn(st1, w, u, x);
    NoneDies(st1, w, u, st.n, x);
    var st3 := Run(st1, more);
    var r := Read(At(st, u).got[0 := x], At(st, u).from, Version(st));
    NeverPublished(r, st.hist, x);
    assert st3.done[|st3.done| - 1] == r;
  }

  /** Every continuation of a death that is not at a bad moment is safe, until the
      next one that is. */
  lemma {:induction false} OtherDeathsDoNot(st: Sys, t: nat, more: seq<Act>)
    requires Inv(st) && !Tears(st, t) && NoTear(Do(st, Die(t)), more)
    ensures AllLinear(Run(Do(st, Die(t)), more))
  {
    DieInv(st, t);
    RunInv(Do(st, Die(t)), more);
  }

  /** In any state a run without bad deaths reaches, with a writer between its two
      stores: its death lets some read tear, with no further death between those
      stores, exactly if a read straddles. */
  lemma {:induction false} DeathTearsExactly(first: Cells, acts: seq<Act>, t: nat)
    requires NoTear(Init(first), acts) && At(Run(Init(first), acts), t).Published?
    ensures var st := Run(Init(first), acts);
            (exists more :: NoWindowDeath(Do(st, Die(t)), more) && !AllLinear(Run(Do(st, Die(t)), more)))
              <==> Tears(st, t)
  {
    InitInv(first);
    RunInv(Init(first), acts);
    var st := Run(Init(first), acts);
    if Tears(st, t) {
      var more := DeathTears(st, t);
    } else {
      forall more | NoWindowDeath(Do(st, Die(t)), more) ensures AllLinear(Run(Do(st, Die(t)), more)) {
        OtherDeathsDoNot(st, t, more);
      }
    }
  }

  /** A run to such a moment: thread 3 is reading when thread 1 publishes. */
  function WindowRun(): seq<Act> {
    [LoadSeq(3), LoadPtr(3)] + ([Lock(1), Source(1), Copy(1)] + [Copy(1), Publish(1)])
  }

  /** A state of that run: one cell, two threads. */
  ghost predicate Looks(st: Sys, cur: nat, owner: nat, hist: seq<Cells>, p1: Pc) {
    && st.n == 1 && |st.buf| == 2 && |st.buf[0]| == |st.buf[1]| == 1 && st.cur == cur && st.seqn == 0
    && st.owner == owner && st.hist == hist && At(st, 1) == p1 && At(st, 3) == Reading(0, 0, 0, 0, map[])
  }

  lemma {:induction false} WindowSteps(st: Sys)
    requires st == Do(Do(Init([0]), LoadSeq(3)), LoadPtr(3))
    ensures var st' := Do(Do(Do(Do(Do(st, Lock(1)), Source(1)), Copy(1)), Copy(1)), Publish(1));
            At(st', 1).Published? && Straddles(st', 3) && st'.n > 0
  {
    assert Looks(st, 0, 0, [[0]], Idle);
    var s1 := Do(st, Lock(1));
    assert Looks(s1, 0, 1, [[0]], Holding);
    var s2 := Do(s1, Source(1));
    assert Looks(s2, 0, 1, [[0]], Copying(1, 0));
    var s3 := Do(s2, Copy(1));
    assert Looks(s3, 0, 1, [[0]], Copying(1, 1));
    var s4 := Do(s3, Copy(1));
    assert Looks(s4, 0, 1, [[0]], Editing(1, map[]));
  }

  lemma {:induction false} RunTwo(st: Sys, a: Act, b: Act)
    ensures Run(st, [a, b]) == Do(Do(st, a), b)
  {
    assert [a, b] == [a] + ([b] + []);
    RunFirst(st, a, [b] + []);
    RunFirst(Do(st, a), b, []);
  }

  lemma {:induction false} WindowState()
    ensures var st := Run(Init([0]), WindowRun()); At(st, 1).Published? && Straddles(st, 3) && st.n > 0
  {
    var a, b, c := [LoadSeq(3), LoadPtr(3)], [Lock(1), Source(1), Copy(1)], [Copy(1), Publish(1)];
    var st := Do(Do(Init([0]), LoadSeq(3)), LoadPtr(3));
    assert Run(Init([0]), WindowRun()) == Run(Run(st, b), c) by {
      RunJoin(Init([0]), a, b + c);
      RunTwo(Init([0]), LoadSeq(3), LoadPtr(3));
      RunJoin(st, b, c);
    }
    assert Run(st, b) == Do(Do(Do(st, Lock(1)), Source(1)), Copy(1)) by {
      assert b == b + [];
      RunThree(st, Lock(1), Source(1), Copy(1), []);
    }
    RunTwo(Run(st, b), Copy(1), Publish(1));
    WindowSteps(st);
  }

  /** If thread 1 dies there, a read can pass and return what never was. */
  lemma {:induction false} WindowRunTears()
    ensures NoTear(Init([0]), WindowRun()) && Tears(Run(Init([0]), WindowRun()), 1)
    ensures exists more :: var st := Do(Run(Init([0]), WindowRun()), Die(1));
                           NoWindowDeath(st, more) && !AllLinear(Run(st, more))
  {
    assert forall i :: 0 <= i < |WindowRun()| ==> !WindowRun()[i].Die?;
    WindowState();
    DeathTearsExactly([0], WindowRun(), 1);
  }
}
