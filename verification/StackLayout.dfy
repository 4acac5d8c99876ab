/** The initial stack of a loaded program, as the kernel would leave it: argc,
    the argv, envp and auxv vectors at sp, and the strings one ascending run at
    the top. While it is built, the strings' addresses wait in scratch vectors
    at the bottom of the same mapping. Offsets are from the mapping's bottom. */
module StackLayout {
  import opened StackBytes

  const SIZE := 0x400_0000
  const AUX_MAX := 64

  type Str = seq<Byte>

  /** A string ends at its first zero: it has none. */
  ghost predicate Strings(strs: seq<Str>) {
    forall i :: 0 <= i < |strs| ==> 0 !in strs[i]
  }

  /** Where string `i` of the run starts, from the first. */
  function Off(strs: seq<Str>, i: nat): nat
    requires i <= |strs|
  {
    if i == 0 then 0 else Off(strs, i - 1) + |strs[i - 1]| + 1
  }

  lemma {:induction false} OffGrows(strs: seq<Str>, i: nat, j: nat)
    requires i <= j <= |strs|
    ensures Off(strs, i) <= Off(strs, j) && (i < j ==> Off(strs, i) + |strs[i]| + 1 <= Off(strs, j))
    decreases j
  {
    if i < j { OffGrows(strs, i, j - 1); }
  }

  function Align16(a: nat): (r: nat)
    ensures r <= a < r + 16 && r % 16 == 0
  {
    a - a % 16
  }

  lemma {:induction false} Sum16(a: nat, b: nat, c: nat)
    requires a % 16 == 0 && b % 16 == 0 && c == a + b
    ensures c % 16 == 0
  {
  }

  // ---- the layout ----

  /** The bytes of all strings, the path last. */
  function Area(strs: seq<Str>, execfn: Str): nat {
    Off(strs, |strs|) + |execfn| + 1
  }

  /** What the size check adds up. */
  function Need(n: nat, area: nat): nat {
    2 * n * 8 + (8 + area + 8 + 16) + (3 + AUX_MAX * 2) * 8 + 64
  }

  function StrAt(area: nat): int {
    SIZE - 8 - area
  }

  function RandAt(area: nat): nat
    requires StrAt(area) - 8 - 16 >= 0
  {
    Align16(StrAt(area) - 8 - 16)
  }

  function Words(n: nat, an: nat): nat {
    3 + n + 2 * an
  }

  function SpAt(n: nat, area: nat, an: nat): nat
    requires StrAt(area) - 24 >= 0 && RandAt(area) - 8 * Words(n, an) >= 0
  {
    Align16(RandAt(area) - 8 * Words(n, an))
  }

  /** When the check passes, everything is in the mapping and above the scratch
      vectors, part by part. */
  lemma {:induction false} Room(n: nat, area: nat, an: nat)
    requires Need(n, area) <= SIZE && an <= AUX_MAX
    ensures StrAt(area) - 24 >= 0 && RandAt(area) - 8 * Words(n, an) >= 0
    ensures 8 * n <= SpAt(n, area, an) && SpAt(n, area, an) + 8 * Words(n, an) <= RandAt(area)
    ensures RandAt(area) + 16 <= StrAt(area) - 8 && SpAt(n, area, an) % 16 == 0
  {
  }

  // ---- the strings ----

  /** String `i` of the run and its address in the scratch vector. */
  ghost predicate Pushed(m: seq<Byte>, bottom: nat, strs: seq<Str>, at: nat, i: nat)
    requires i < |strs|
  {
    Holds(m, at + Off(strs, i), strs[i] + [0]) && HasWord(m, 8 * i, bottom + at + Off(strs, i))
  }

  lemma {:induction false} PushedFrame(m: seq<Byte>, m': seq<Byte>, o: int, k: int, bottom: nat, strs: seq<Str>,
                                       at: nat, i: nat)
    requires i < |strs| && Pushed(m, bottom, strs, at, i) && Frame(m, m', o, k)
    requires at + Off(strs, i) + |strs[i]| + 1 <= o || o + k <= at + Off(strs, i)
    requires 8 * i + 8 <= o || o + k <= 8 * i
    ensures Pushed(m', bottom, strs, at, i)
  {
  }

  /** Put string `i` at `put` and its address in the scratch vector. */
  method PushOne(mem: array<Byte>, bottom: nat, strs: seq<Str>, ghost at: nat, i: nat, put: nat) returns (next: nat)
    requires i < |strs| && put == at + Off(strs, i) && bottom + SIZE < WORD && mem.Length == SIZE
    requires 8 * |strs| <= at && at + Off(strs, |strs|) <= SIZE
    requires forall j :: 0 <= j < i ==> Pushed(mem[..], bottom, strs, at, j)
    modifies mem
    ensures next == at + Off(strs, i + 1)
    ensures forall j :: 0 <= j <= i ==> Pushed(mem[..], bottom, strs, at, j)
  {
    OffGrows(strs, i, |strs|);
    ghost var m0 := mem[..];
    PutBytes(mem, put, strs[i] + [0]);
    ghost var m1 := mem[..];
    PutWord(mem, 8 * i, bottom + put);
    ghost var m2 := mem[..];
    HoldsFrame(m1, m2, 8 * i, 8, put, strs[i] + [0]);
    forall j | 0 <= j < i ensures Pushed(m2, bottom, strs, at, j) {
      OffGrows(strs, j, i);
      PushedFrame(m0, m1, put, |strs[i]| + 1, bottom, strs, at, j);
      PushedFrame(m1, m2, 8 * i, 8, bottom, strs, at, j);
    }
    next := put + |strs[i]| + 1;
  }

  method PushAll(mem: array<Byte>, bottom: nat, strs: seq<Str>, at: nat) returns (put: nat)
    requires bottom + SIZE < WORD && mem.Length == SIZE
    requires 8 * |strs| <= at && at + Off(strs, |strs|) <= SIZE
    modifies mem
    ensures put == at + Off(strs, |strs|)
    ensures forall j :: 0 <= j < |strs| ==> Pushed(mem[..], bottom, strs, at, j)
  {
    put := at;
    var i := 0;
    while i < |strs|
      invariant 0 <= i <= |strs| && put == at + Off(strs, i)
      invariant forall j :: 0 <= j < i ==> Pushed(mem[..], bottom, strs, at, j)
    {
      put := PushOne(mem, bottom, strs, at, i, put);
      i := i + 1;
    }
  }

  // ---- the vectors ----

  type Word = x: int | 0 <= x < WORD

  datatype Aux = Aux(tag: Word, val: Word)

  /** All the vectors are made of: the strings of argv, then of envp. */
  datatype Plan = Plan(bottom: nat, strs: seq<Str>, argc: nat, at: nat, aux: seq<Aux>)

  ghost predicate PlanOk(q: Plan) {
    && q.argc <= |q.strs| && q.bottom > 0 && q.bottom + SIZE < WORD && |q.aux| <= AUX_MAX
    && 8 * |q.strs| <= q.at && q.at + Off(q.strs, |q.strs|) <= SIZE && Strings(q.strs)
  }

  function Addr(q: Plan, i: nat): nat
    requires i <= |q.strs|
  {
    q.bottom + q.at + Off(q.strs, i)
  }

  lemma {:induction false} AddrFits(q: Plan, i: nat)
    requires PlanOk(q) && i <= |q.strs|
    ensures 0 < Addr(q, i) < WORD
  {
    OffGrows(q.strs, i, |q.strs|);
  }

  /** Word `j` from sp: argc, argv, 0, envp, 0, auxv. */
  function VecAt(q: Plan, j: nat): nat
    requires q.argc <= |q.strs| && j < Words(|q.strs|, |q.aux|)
  {
    var n := |q.strs|;
    if j == 0 then q.argc
    else if j <= q.argc then Addr(q, j - 1)
    else if j == q.argc + 1 then 0
    else if j <= n + 1 then Addr(q, j - 2)
    else if j == n + 2 then 0
    else if (j - n - 3) % 2 == 0 then q.aux[(j - n - 3) / 2].tag
    else q.aux[(j - n - 3) / 2].val
  }

  /** Word `j` of the vectors stands. */
  ghost predicate VecHas(m: seq<Byte>, sp: nat, q: Plan, j: nat)
    requires q.argc <= |q.strs| && j < Words(|q.strs|, |q.aux|)
  {
    HasWord(m, sp + 8 * j, VecAt(q, j))
  }

  ghost predicate Vec(m: seq<Byte>, sp: nat, q: Plan, k: nat)
    requires q.argc <= |q.strs| && k <= Words(|q.strs|, |q.aux|)
  {
    forall j {:trigger VecHas(m, sp, q, j)} :: 0 <= j < k ==> VecHas(m, sp, q, j)
  }

  /** The address of string `i` waits in its scratch word. */
  ghost predicate Waits(m: seq<Byte>, q: Plan, i: nat)
    requires i < |q.strs|
  {
    HasWord(m, 8 * i, Addr(q, i))
  }

  /** String `i` of the run stands. */
  ghost predicate Stands(m: seq<Byte>, at: nat, strs: seq<Str>, i: nat)
    requires i < |strs|
  {
    Holds(m, at + Off(strs, i), strs[i] + [0])
  }

  ghost predicate AllStand(m: seq<Byte>, at: nat, strs: seq<Str>) {
    forall i {:trigger Stands(m, at, strs, i)} :: 0 <= i < |strs| ==> Stands(m, at, strs, i)
  }

  /** The vectors are being written: those words stand, the scratch vectors are
      still there, and nothing outside has changed since `m0`. */
  ghost predicate Writing(m0: seq<Byte>, m: seq<Byte>, sp: nat, q: Plan, k: nat)
    requires q.argc <= |q.strs| && k <= Words(|q.strs|, |q.aux|)
  {
    && |m| == SIZE && Vec(m, sp, q, k) && Frame(m0, m, sp, 8 * Words(|q.strs|, |q.aux|))
    && (forall i {:trigger Waits(m, q, i)} :: 0 <= i < |q.strs| ==> Waits(m, q, i))
  }

  method Append(mem: array<Byte>, sp: nat, k: nat, w: nat, ghost q: Plan, ghost m0: seq<Byte>)
    requires q.argc <= |q.strs| && k < Words(|q.strs|, |q.aux|) && mem.Length == SIZE && w < WORD
    requires 8 * |q.strs| <= sp && sp + 8 * Words(|q.strs|, |q.aux|) <= SIZE
    requires Writing(m0, mem[..], sp, q, k) && w == VecAt(q, k)
    modifies mem
    ensures Writing(m0, mem[..], sp, q, k + 1)
  {
    ghost var m := mem[..];
    PutWord(mem, sp + 8 * k, w);
    forall j | 0 <= j < k ensures VecHas(mem[..], sp, q, j) {
      assert VecHas(m, sp, q, j);
      HoldsFrame(m, mem[..], sp + 8 * k, 8, sp + 8 * j, Enc(VecAt(q, j), 8));
    }
    forall i | 0 <= i < |q.strs| ensures Waits(mem[..], q, i) {
      assert Waits(m, q, i);
      HoldsFrame(m, mem[..], sp + 8 * k, 8, 8 * i, Enc(Addr(q, i), 8));
    }
  }

  /** Copy scratch words `lo` to `hi` into the vector from word `k` on. */
  method CopyScratch(mem: array<Byte>, sp: nat, k: nat, lo: nat, hi: nat, ghost q: Plan, ghost m0: seq<Byte>)
    requires PlanOk(q) && lo <= hi <= |q.strs| && mem.Length == SIZE
    requires (lo == 0 && hi == q.argc && k == 1) || (lo == q.argc && hi == |q.strs| && k == q.argc + 2)
    requires 8 * |q.strs| <= sp && sp + 8 * Words(|q.strs|, |q.aux|) <= SIZE
    requires Writing(m0, mem[..], sp, q, k)
    modifies mem
    ensures Writing(m0, mem[..], sp, q, k + hi - lo)
  {
    var i := lo;
    while i < hi
      invariant lo <= i <= hi && Writing(m0, mem[..], sp, q, k + i - lo)
    {
      AddrFits(q, i);
      assert Waits(mem[..], q, i);
      WordReads(mem[..], 8 * i, Addr(q, i));
      var w := GetWord(mem, 8 * i);
      Append(mem, sp, k + i - lo, w, q, m0);
      i := i + 1;
    }
  }

  method PutAux(mem: array<Byte>, sp: nat, aux: seq<Aux>, k: nat, ghost q: Plan, ghost m0: seq<Byte>)
    requires PlanOk(q) && aux == q.aux && k == |q.strs| + 3 && mem.Length == SIZE
    requires 8 * |q.strs| <= sp && sp + 8 * Words(|q.strs|, |q.aux|) <= SIZE
    requires Writing(m0, mem[..], sp, q, k)
    modifies mem
    ensures Writing(m0, mem[..], sp, q, Words(|q.strs|, |q.aux|))
  {
    var i := 0;
    while i < |aux|
      invariant 0 <= i <= |aux| && Writing(m0, mem[..], sp, q, k + 2 * i)
    {
      AuxWord(q, i);
      Append(mem, sp, k + 2 * i, aux[i].tag, q, m0);
      Append(mem, sp, k + 2 * i + 1, aux[i].val, q, m0);
      i := i + 1;
    }
  }

  lemma {:induction false} AuxWord(q: Plan, i: nat)
    requires q.argc <= |q.strs| && i < |q.aux|
    ensures VecAt(q, |q.strs| + 3 + 2 * i) == q.aux[i].tag && VecAt(q, |q.strs| + 3 + 2 * i + 1) == q.aux[i].val
  {
  }

  method PutVectors(mem: array<Byte>, sp: nat, argc: nat, n: nat, aux: seq<Aux>, ghost q: Plan)
    requires PlanOk(q) && argc == q.argc && n == |q.strs| && aux == q.aux && mem.Length == SIZE
    requires 8 * n <= sp && sp + 8 * Words(n, |aux|) <= SIZE
    requires forall i {:trigger Waits(mem[..], q, i)} :: 0 <= i < n ==> Waits(mem[..], q, i)
    requires argc < WORD
    modifies mem
    ensures Writing(old(mem[..]), mem[..], sp, q, Words(n, |aux|))
  {
    ghost var m0 := mem[..];
    Append(mem, sp, 0, argc, q, m0);
    CopyScratch(mem, sp, 1, 0, argc, q, m0);
    Append(mem, sp, argc + 1, 0, q, m0);
    CopyScratch(mem, sp, argc + 2, argc, n, q, m0);
    Append(mem, sp, n + 2, 0, q, m0);
    PutAux(mem, sp, aux, n + 3, q, m0);
  }

  // ---- the auxiliary vector ----

  const AT_NULL := 0
  const AT_PHDR := 3
  const AT_PHENT := 4
  const AT_PHNUM := 5
  const AT_PAGESZ := 6
  const AT_BASE := 7
  const AT_FLAGS := 8
  const AT_ENTRY := 9
  const AT_UID := 11
  const AT_EUID := 12
  const AT_GID := 13
  const AT_EGID := 14
  const AT_PLATFORM := 15
  const AT_HWCAP := 16
  const AT_CLKTCK := 17
  const AT_SECURE := 23
  const AT_RANDOM := 25
  const AT_HWCAP2 := 26
  const AT_EXECFN := 31
  const AT_SYSINFO_EHDR := 33
  const AT_MINSIGSTKSZ := 51

  /** What the loader, the credentials and the host contribute. */
  datatype Info = Info(phdr: Word, phent: Word, phnum: Word, pagesz: Word, base: Word, entry: Word,
                       uid: Word, euid: Word, gid: Word, egid: Word,
                       clktck: Word, hwcap: Word, hwcap2: Word, vdso: Word, sigstk: Word)

  function Optional(tag: Word, val: Word): seq<Aux> {
    if val == 0 then [] else [Aux(tag, val)]
  }

  /** The entries that are always there. A set of ids that differ is a secure one. */
  function Fixed(f: Info, execfn: Word, platform: Word, random: Word): seq<Aux> {
    [Aux(AT_PHDR, f.phdr), Aux(AT_PHENT, f.phent), Aux(AT_PHNUM, f.phnum), Aux(AT_PAGESZ, f.pagesz),
     Aux(AT_BASE, f.base), Aux(AT_FLAGS, 0), Aux(AT_ENTRY, f.entry), Aux(AT_EXECFN, execfn),
     Aux(AT_PLATFORM, platform), Aux(AT_RANDOM, random), Aux(AT_UID, f.uid), Aux(AT_EUID, f.euid),
     Aux(AT_GID, f.gid), Aux(AT_EGID, f.egid),
     Aux(AT_SECURE, if f.uid != f.euid || f.gid != f.egid then 1 else 0),
     Aux(AT_CLKTCK, if f.clktck != 0 then f.clktck else 100)]
  }

  /** All the entries, ended by AT_NULL. */
  function Auxv(f: Info, execfn: Word, platform: Word, random: Word): seq<Aux> {
    WithOptional(Fixed(f, execfn, platform, random), f) + [Aux(AT_NULL, 0)]
  }

  function WithOptional(aux: seq<Aux>, f: Info): seq<Aux> {
    aux + Optional(AT_HWCAP, f.hwcap) + Optional(AT_HWCAP2, f.hwcap2) + Optional(AT_SYSINFO_EHDR, f.vdso) +
    Optional(AT_MINSIGSTKSZ, f.sigstk)
  }

  /** A list of entries ended by AT_NULL and by nothing before. */
  ghost predicate Ended(aux: seq<Aux>) {
    0 < |aux| <= AUX_MAX && aux[|aux| - 1] == Aux(AT_NULL, 0) &&
    forall i :: 0 <= i < |aux| - 1 ==> aux[i].tag != AT_NULL
  }

  // ---- what a list of entries says ----

  ghost predicate Says(aux: seq<Aux>, tag: Word, val: Word) {
    exists i :: 0 <= i < |aux| && aux[i] == Aux(tag, val)
  }

  ghost predicate Lacks(aux: seq<Aux>, tag: Word) {
    forall i :: 0 <= i < |aux| ==> aux[i].tag != tag
  }

  /** No tag is there twice. */
  ghost predicate EachOnce(aux: seq<Aux>) {
    forall i, j :: 0 <= i < j < |aux| ==> aux[i].tag != aux[j].tag
  }

  ghost predicate SaysIfAny(aux: seq<Aux>, tag: Word, val: Word) {
    if val == 0 then Lacks(aux, tag) else Says(aux, tag, val)
  }

  ghost predicate TellsSelf(aux: seq<Aux>, f: Info) {
    && Says(aux, AT_PHDR, f.phdr) && Says(aux, AT_PHENT, f.phent) && Says(aux, AT_PHNUM, f.phnum)
    && Says(aux, AT_PAGESZ, f.pagesz) && Says(aux, AT_BASE, f.base) && Says(aux, AT_FLAGS, 0)
    && Says(aux, AT_ENTRY, f.entry) && Says(aux, AT_CLKTCK, if f.clktck == 0 then 100 else f.clktck)
  }

  /** AT_SECURE is 1 where an effective id is not the real one. */
  ghost predicate TellsIds(aux: seq<Aux>, f: Info) {
    && Says(aux, AT_UID, f.uid) && Says(aux, AT_EUID, f.euid) && Says(aux, AT_GID, f.gid) && Says(aux, AT_EGID, f.egid)
    && Says(aux, AT_SECURE, if f.uid == f.euid && f.gid == f.egid then 0 else 1)
  }

  ghost predicate TellsHost(aux: seq<Aux>, f: Info) {
    && SaysIfAny(aux, AT_HWCAP, f.hwcap) && SaysIfAny(aux, AT_HWCAP2, f.hwcap2)
    && SaysIfAny(aux, AT_SYSINFO_EHDR, f.vdso) && SaysIfAny(aux, AT_MINSIGSTKSZ, f.sigstk)
  }

  /** What a program is told about itself, its ids and its host, each thing once, and
      nothing else but where its strings are. */
  ghost predicate Tells(aux: seq<Aux>, f: Info) {
    && EachOnce(aux) && TellsSelf(aux, f) && TellsIds(aux, f) && TellsHost(aux, f)
    && forall i :: 0 <= i < |aux| ==>
         aux[i].tag in {3, 4, 5, 6, 7, 8, 9, 11, 12, 13, 14, 15, 16, 17, 23, 25, 26, 31, 33, 51}
  }

  /** Where the tag of an entry that is always there stands. */
  ghost function Place(tag: Word): nat {
    if tag <= 9 && tag >= 3 then tag - 3
    else if tag == 31 then 7 else if tag == 15 then 8 else if tag == 25 then 9
    else if tag >= 11 && tag <= 14 then tag - 1 else if tag == 23 then 14 else 15
  }

  lemma {:induction false} FixedOnce(f: Info, execfn: Word, platform: Word, random: Word)
    ensures EachOnce(Fixed(f, execfn, platform, random))
  {
    var aux := Fixed(f, execfn, platform, random);
    forall i | 0 <= i < |aux| ensures Place(aux[i].tag) == i { }
  }

  lemma {:induction false} OptionalAdds(aux: seq<Aux>, tag: Word, val: Word)
    requires EachOnce(aux) && Lacks(aux, tag)
    ensures var aux' := aux + Optional(tag, val);
            EachOnce(aux') && SaysIfAny(aux', tag, val) && aux <= aux' && |aux'| <= |aux| + 1
    ensures forall t :: t != tag && Lacks(aux, t) ==> Lacks(aux + Optional(tag, val), t)
  {
    var aux' := aux + Optional(tag, val);
    if val != 0 { assert aux'[|aux|] == Aux(tag, val); }
  }

  lemma {:induction false} SaysMore(aux: seq<Aux>, aux': seq<Aux>, tag: Word, val: Word)
    requires aux <= aux' && Says(aux, tag, val)
    ensures Says(aux', tag, val)
  {
    var i :| 0 <= i < |aux| && aux[i] == Aux(tag, val);
    assert aux'[i] == Aux(tag, val);
  }

  lemma {:induction false} FixedSays(f: Info, execfn: Word, platform: Word, random: Word, aux: seq<Aux>)
    requires Fixed(f, execfn, platform, random) <= aux
    ensures TellsSelf(aux, f)
    ensures Says(aux, AT_EXECFN, execfn) && Says(aux, AT_PLATFORM, platform) && Says(aux, AT_RANDOM, random)
  {
    var x := Fixed(f, execfn, platform, random);
    assert aux[0] == x[0] && aux[1] == x[1] && aux[2] == x[2] && aux[3] == x[3] && aux[4] == x[4];
    assert aux[5] == x[5] && aux[6] == x[6] && aux[7] == x[7] && aux[8] == x[8] && aux[9] == x[9] && aux[15] == x[15];
  }

  lemma {:induction false} FixedSaysIds(f: Info, execfn: Word, platform: Word, random: Word, aux: seq<Aux>)
    requires Fixed(f, execfn, platform, random) <= aux
    ensures TellsIds(aux, f)
  {
    var x := Fixed(f, execfn, platform, random);
    assert aux[10] == x[10] && aux[11] == x[11] && aux[12] == x[12] && aux[13] == x[13] && aux[14] == x[14];
  }

  lemma {:induction false} OptionalStays(aux: seq<Aux>, aux': seq<Aux>, tag: Word, val: Word)
    requires SaysIfAny(aux, tag, val) && aux <= aux' && (Lacks(aux, tag) ==> Lacks(aux', tag))
    ensures SaysIfAny(aux', tag, val)
  {
    if val != 0 { SaysMore(aux, aux', tag, val); }
  }

  /** Four entries that may be missing, after others. */
  lemma {:induction false} HostAdds(a0: seq<Aux>, f: Info)
    requires EachOnce(a0) && Lacks(a0, AT_HWCAP) && Lacks(a0, AT_HWCAP2) && Lacks(a0, AT_SYSINFO_EHDR)
    requires Lacks(a0, AT_MINSIGSTKSZ)
    ensures EachOnce(WithOptional(a0, f)) && TellsHost(WithOptional(a0, f), f) && a0 <= WithOptional(a0, f)
  {
    var a1 := a0 + Optional(AT_HWCAP, f.hwcap);
    OptionalAdds(a0, AT_HWCAP, f.hwcap);
    var a2 := a1 + Optional(AT_HWCAP2, f.hwcap2);
    OptionalAdds(a1, AT_HWCAP2, f.hwcap2);
    var a3 := a2 + Optional(AT_SYSINFO_EHDR, f.vdso);
    OptionalAdds(a2, AT_SYSINFO_EHDR, f.vdso);
    var a4 := a3 + Optional(AT_MINSIGSTKSZ, f.sigstk);
    OptionalAdds(a3, AT_MINSIGSTKSZ, f.sigstk);
    OptionalStays(a1, a4, AT_HWCAP, f.hwcap);
    OptionalStays(a2, a4, AT_HWCAP2, f.hwcap2);
    OptionalStays(a3, a4, AT_SYSINFO_EHDR, f.vdso);
  }

  lemma {:induction false} FixedLacks(f: Info, execfn: Word, platform: Word, random: Word)
    ensures var a := Fixed(f, execfn, platform, random);
            && Lacks(a, AT_HWCAP) && Lacks(a, AT_HWCAP2) && Lacks(a, AT_SYSINFO_EHDR) && Lacks(a, AT_MINSIGSTKSZ)
  {
  }

  lemma {:induction false} KnownTags(f: Info, execfn: Word, platform: Word, random: Word, i: nat)
    requires i < |WithOptional(Fixed(f, execfn, platform, random), f)|
    ensures WithOptional(Fixed(f, execfn, platform, random), f)[i].tag in
            {3, 4, 5, 6, 7, 8, 9, 11, 12, 13, 14, 15, 16, 17, 23, 25, 26, 31, 33, 51}
  {
  }

  /** The list without its end tells all that, and leads to the strings. */
  lemma {:induction false} AuxvTells(f: Info, execfn: Word, platform: Word, random: Word)
    ensures var all := Auxv(f, execfn, platform, random); var aux := all[..|all| - 1];
            && Tells(aux, f) && Says(aux, AT_EXECFN, execfn) && Says(aux, AT_PLATFORM, platform)
            && Says(aux, AT_RANDOM, random)
  {
    var fixed, all := Fixed(f, execfn, platform, random), Auxv(f, execfn, platform, random);
    var aux := WithOptional(fixed, f);
    FixedOnce(f, execfn, platform, random);
    FixedLacks(f, execfn, platform, random);
    HostAdds(fixed, f);
    FixedSays(f, execfn, platform, random, aux);
    FixedSaysIds(f, execfn, platform, random, aux);
    forall i | 0 <= i < |aux|
      ensures aux[i].tag in {3, 4, 5, 6, 7, 8, 9, 11, 12, 13, 14, 15, 16, 17, 23, 25, 26, 31, 33, 51}
    {
      KnownTags(f, execfn, platform, random, i);
    }
    assert all[..|all| - 1] == aux;
  }

  // ---- decoding ----

  /** The strings a vector of addresses at `o` names, up to its null. */
  function ReadVec(m: seq<Byte>, bottom: nat, o: nat): seq<Str>
    decreases |m| - o
  {
    if o + 8 > |m| then [] else
    var w := WordAt(m, o);
    if !(bottom <= w <= bottom + |m|) then [] else [ReadStr(m, w - bottom)] + ReadVec(m, bottom, o + 8)
  }

  /** The entries at `o`, up to AT_NULL. */
  function ReadAux(m: seq<Byte>, o: nat): seq<Aux>
    decreases |m| - o
  {
    if o + 16 > |m| then [] else
    var t, v := WordAt(m, o), WordAt(m, o + 8);
    if t == AT_NULL || t >= WORD || v >= WORD then [] else [Aux(t, v)] + ReadAux(m, o + 16)
  }

  lemma {:induction false} VecWord(m: seq<Byte>, sp: nat, q: Plan, j: nat)
    requires PlanOk(q) && q.argc < WORD && j < Words(|q.strs|, |q.aux|) && Vec(m, sp, q, Words(|q.strs|, |q.aux|))
    ensures sp + 8 * j + 8 <= |m| && WordAt(m, sp + 8 * j) == VecAt(q, j)
  {
    assert VecHas(m, sp, q, j);
    if 1 <= j <= q.argc { AddrFits(q, j - 1); }
    if q.argc + 2 <= j <= |q.strs| + 1 { AddrFits(q, j - 2); }
    WordReads(m, sp + 8 * j, VecAt(q, j));
  }

  /** The word at `o` is the address of the string `s`. */
  ghost predicate Points(m: seq<Byte>, bottom: nat, o: nat, s: Str) {
    o + 8 <= |m| && bottom <= WordAt(m, o) <= bottom + |m| && ReadStr(m, WordAt(m, o) - bottom) == s
  }

  ghost predicate PointsAt(m: seq<Byte>, bottom: nat, o: nat, strs: seq<Str>, lo: nat, j: nat)
    requires lo <= j < |strs|
  {
    Points(m, bottom, o + 8 * (j - lo), strs[j])
  }

  lemma {:induction false} VecEntry(m: seq<Byte>, sp: nat, q: Plan, k: nat, i: nat)
    requires PlanOk(q) && q.argc < WORD && |m| == SIZE && Vec(m, sp, q, Words(|q.strs|, |q.aux|)) && i < |q.strs|
    requires (i < q.argc && k == 1) || (i >= q.argc && k == 2)
    requires Stands(m, q.at, q.strs, i)
    ensures Points(m, q.bottom, sp + 8 * (k + i), q.strs[i])
  {
    VecWord(m, sp, q, k + i);
    OffGrows(q.strs, i, |q.strs|);
    StrReads(m, q.at + Off(q.strs, i), q.strs[i]);
  }

  /** The strings from `i` to `hi`. */
  function Part(strs: seq<Str>, i: nat, hi: nat): seq<Str>
    requires i <= hi <= |strs|
    decreases hi - i
  {
    if i == hi then [] else [strs[i]] + Part(strs, i + 1, hi)
  }

  lemma {:induction false} PartIs(strs: seq<Str>, i: nat, hi: nat)
    requires i <= hi <= |strs|
    ensures Part(strs, i, hi) == strs[i..hi]
    decreases hi - i
  {
    if i < hi { PartIs(strs, i + 1, hi); }
  }

  /** A vector of addresses ended by a null reads as the strings they name. */
  lemma {:induction false} VecReads(m: seq<Byte>, bottom: nat, o: nat, strs: seq<Str>, lo: nat, hi: nat, i: nat)
    requires bottom > 0 && lo <= i <= hi <= |strs| && Null(m, o + 8 * (hi - lo))
    requires forall j {:trigger PointsAt(m, bottom, o, strs, lo, j)} :: lo <= j < hi ==>
               PointsAt(m, bottom, o, strs, lo, j)
    ensures ReadVec(m, bottom, o + 8 * (i - lo)) == Part(strs, i, hi)
    decreases hi - i
  {
    if i < hi {
      VecReads(m, bottom, o, strs, lo, hi, i + 1);
      var at := o + 8 * (i - lo);
      assert PointsAt(m, bottom, o, strs, lo, i) && o + 8 * (i + 1 - lo) == at + 8;
      VecJoin(m, bottom, at, strs, i, hi);
    } else {
      VecEnd(m, bottom, o + 8 * (hi - lo));
    }
  }

  lemma {:induction false} VecJoin(m: seq<Byte>, bottom: nat, o: nat, strs: seq<Str>, i: nat, hi: nat)
    requires i < hi <= |strs| && Points(m, bottom, o, strs[i]) && ReadVec(m, bottom, o + 8) == Part(strs, i + 1, hi)
    ensures ReadVec(m, bottom, o) == Part(strs, i, hi)
  {
    VecStep(m, bottom, o, strs[i]);
  }

  ghost predicate Null(m: seq<Byte>, o: nat) {
    o + 8 <= |m| && WordAt(m, o) == 0
  }

  lemma {:induction false} VecEnd(m: seq<Byte>, bottom: nat, o: nat)
    requires bottom > 0 && Null(m, o)
    ensures ReadVec(m, bottom, o) == []
  {
  }

  lemma {:induction false} VecStep(m: seq<Byte>, bottom: nat, o: nat, s: Str)
    requires Points(m, bottom, o, s)
    ensures ReadVec(m, bottom, o) == [s] + ReadVec(m, bottom, o + 8)
  {
  }

  function AuxPart(aux: seq<Aux>, i: nat, hi: nat): seq<Aux>
    requires i <= hi <= |aux|
    decreases hi - i
  {
    if i == hi then [] else [aux[i]] + AuxPart(aux, i + 1, hi)
  }

  lemma {:induction false} AuxPartIs(aux: seq<Aux>, i: nat, hi: nat)
    requires i <= hi <= |aux|
    ensures AuxPart(aux, i, hi) == aux[i..hi]
    decreases hi - i
  {
    if i < hi { AuxPartIs(aux, i + 1, hi); }
  }

  ghost predicate IsAux(m: seq<Byte>, o: nat, x: Aux) {
    o + 16 <= |m| && WordAt(m, o) == x.tag && WordAt(m, o + 8) == x.val
  }

  ghost predicate AuxAt(m: seq<Byte>, o: nat, aux: seq<Aux>, j: nat)
    requires j < |aux|
  {
    IsAux(m, o + 16 * j, aux[j])
  }

  lemma {:induction false} AuxEntry(m: seq<Byte>, sp: nat, q: Plan, i: nat)
    requires PlanOk(q) && q.argc < WORD && |m| == SIZE && Vec(m, sp, q, Words(|q.strs|, |q.aux|)) && i < |q.aux|
    ensures IsAux(m, sp + 8 * (|q.strs| + 3) + 16 * i, q.aux[i])
  {
    AuxWord(q, i);
    VecWord(m, sp, q, |q.strs| + 3 + 2 * i);
    VecWord(m, sp, q, |q.strs| + 3 + 2 * i + 1);
  }

  lemma {:induction false} AuxReads(m: seq<Byte>, o: nat, aux: seq<Aux>, i: nat)
    requires Ended(aux) && i < |aux|
    requires forall j {:trigger AuxAt(m, o, aux, j)} :: 0 <= j < |aux| ==> AuxAt(m, o, aux, j)
    ensures ReadAux(m, o + 16 * i) == AuxPart(aux, i, |aux| - 1)
    decreases |aux| - i
  {
    assert AuxAt(m, o, aux, i);
    AuxStep(m, o + 16 * i, aux[i]);
    if i < |aux| - 1 {
      AuxReads(m, o, aux, i + 1);
      assert o + 16 * (i + 1) == o + 16 * i + 16;
    }
  }

  lemma {:induction false} AuxStep(m: seq<Byte>, o: nat, x: Aux)
    requires IsAux(m, o, x)
    ensures ReadAux(m, o) == if x.tag == AT_NULL then [] else [x] + ReadAux(m, o + 16)
  {
  }

  // ---- the whole stack ----

  function Platform(): Str {
    [97, 97, 114, 99, 104, 54, 52]
  }

  /** Read back from offset `o` alone: argc, the argument strings, the
      environment and the entries are those given. */
  ghost predicate ReadsBack(m: seq<Byte>, bottom: nat, o: nat, argv: seq<Str>, envp: seq<Str>, aux: seq<Aux>) {
    && o + 8 <= |m| && WordAt(m, o) == |argv|
    && ReadVec(m, bottom, o + 8) == argv
    && ReadVec(m, bottom, o + 8 * (|argv| + 2)) == envp
    && Ended(aux) && ReadAux(m, o + 8 * (|argv| + |envp| + 3)) == aux[..|aux| - 1]
  }

  /** From `at` upwards the strings follow one another without a gap, then the path;
      the last eight bytes of the region are zero. */
  ghost predicate OneRun(m: seq<Byte>, at: nat, strs: seq<Str>, execfn: Str) {
    && |m| == SIZE == at + Area(strs, execfn) + 8
    && AllStand(m, at, strs)
    && Holds(m, at + Off(strs, |strs|), execfn + [0]) && HasWord(m, SIZE - 8, 0)
  }

  lemma {:induction false} AuxvEnded(f: Info, execfn: Word, platform: Word, random: Word)
    ensures Ended(Auxv(f, execfn, platform, random)) && |Auxv(f, execfn, platform, random)| <= 21
  {
  }

  /** The vectors are written over standing strings. */
  ghost predicate Ready(m: seq<Byte>, o: nat, q: Plan) {
    && PlanOk(q) && q.argc < WORD && |m| == SIZE && Ended(q.aux) && Vec(m, o, q, Words(|q.strs|, |q.aux|))
    && AllStand(m, q.at, q.strs)
  }

  lemma {:induction false} PartReads(m: seq<Byte>, o: nat, q: Plan, k: nat, lo: nat, hi: nat)
    requires Ready(m, o, q) && ((k == 1 && lo == 0 && hi == q.argc) || (k == 2 && lo == q.argc && hi == |q.strs|))
    ensures ReadVec(m, q.bottom, o + 8 * (k + lo)) == Part(q.strs, lo, hi)
  {
    var at := o + 8 * (k + lo);
    VecWord(m, o, q, k + hi);
    forall j | lo <= j < hi ensures PointsAt(m, q.bottom, at, q.strs, lo, j) {
      assert Stands(m, q.at, q.strs, j);
      VecEntry(m, o, q, k, j);
      assert at + 8 * (j - lo) == o + 8 * (k + j);
    }
    assert at + 8 * (hi - lo) == o + 8 * (k + hi);
    VecReads(m, q.bottom, at, q.strs, lo, hi, lo);
  }

  lemma {:induction false} AuxvReads(m: seq<Byte>, o: nat, q: Plan)
    requires Ready(m, o, q)
    ensures ReadAux(m, o + 8 * (|q.strs| + 3)) == AuxPart(q.aux, 0, |q.aux| - 1)
  {
    var at := o + 8 * (|q.strs| + 3);
    forall j | 0 <= j < |q.aux| ensures AuxAt(m, at, q.aux, j) { AuxEntry(m, o, q, j); }
    AuxReads(m, at, q.aux, 0);
  }

  lemma {:induction false} Slices(argv: seq<Str>, envp: seq<Str>)
    ensures Part(argv + envp, 0, |argv|) == argv && Part(argv + envp, |argv|, |argv + envp|) == envp
  {
    PartIs(argv + envp, 0, |argv|);
    PartIs(argv + envp, |argv|, |argv + envp|);
  }

  /** Written vectors over standing strings read back as what was given. */
  lemma {:induction false} Decodes(m: seq<Byte>, o: nat, q: Plan, argv: seq<Str>, envp: seq<Str>)
    requires Ready(m, o, q) && q.argc == |argv| && q.strs == argv + envp
    ensures ReadsBack(m, q.bottom, o, argv, envp, q.aux)
  {
    VecWord(m, o, q, 0);
    PartReads(m, o, q, 1, 0, q.argc);
    PartReads(m, o, q, 2, q.argc, |q.strs|);
    Slices(argv, envp);
    AuxvReads(m, o, q);
    AuxPartIs(q.aux, 0, |q.aux| - 1);
  }

  /** Strings and scratch words outlive a write between them or above them. */
  lemma {:induction false} Kept(m: seq<Byte>, m': seq<Byte>, o: int, k: int, q: Plan)
    requires PlanOk(q) && Frame(m, m', o, k) && AllStand(m, q.at, q.strs) && 8 * |q.strs| <= o && k >= 0
    requires forall i {:trigger Waits(m, q, i)} :: 0 <= i < |q.strs| ==> Waits(m, q, i)
    requires o + k <= q.at || q.at + Off(q.strs, |q.strs|) <= o
    ensures AllStand(m', q.at, q.strs)
    ensures forall i {:trigger Waits(m', q, i)} :: 0 <= i < |q.strs| ==> Waits(m', q, i)
  {
    forall i | 0 <= i < |q.strs| ensures Stands(m', q.at, q.strs, i) && Waits(m', q, i) {
      assert Stands(m, q.at, q.strs, i) && Waits(m, q, i);
      OffGrows(q.strs, i, |q.strs|);
      HoldsFrame(m, m', o, k, q.at + Off(q.strs, i), q.strs[i] + [0]);
      HoldsFrame(m, m', o, k, 8 * i, Enc(Addr(q, i), 8));
    }
  }

  /** The strings stand, their addresses wait, and the path and the zero word are
      above them. */
  ghost predicate Strung(m: seq<Byte>, q: Plan, execfn: Str) {
    && |m| == SIZE == q.at + Area(q.strs, execfn) + 8 && AllStand(m, q.at, q.strs)
    && (forall i {:trigger Waits(m, q, i)} :: 0 <= i < |q.strs| ==> Waits(m, q, i))
    && Holds(m, q.at + Off(q.strs, |q.strs|), execfn + [0]) && HasWord(m, SIZE - 8, 0)
  }

  lemma {:induction false} StrungKept(m: seq<Byte>, m': seq<Byte>, o: int, k: int, q: Plan, execfn: Str)
    requires PlanOk(q) && Strung(m, q, execfn) && Frame(m, m', o, k) && 8 * |q.strs| <= o && k >= 0 && o + k <= q.at
    ensures Strung(m', q, execfn)
  {
    Kept(m, m', o, k, q);
    HoldsFrame(m, m', o, k, q.at + Off(q.strs, |q.strs|), execfn + [0]);
    HoldsFrame(m, m', o, k, SIZE - 8, Enc(0, 8));
  }

  method PutStrings(mem: array<Byte>, bottom: nat, strs: seq<Str>, at: nat, execfn: Str, ghost q: Plan)
    requires PlanOk(q) && q.bottom == bottom && q.strs == strs && q.at == at
    requires mem.Length == SIZE == at + Area(strs, execfn) + 8
    modifies mem
    ensures Strung(mem[..], q, execfn)
  {
    var put := PushAll(mem, bottom, strs, at);
    ghost var m0 := mem[..];
    forall i | 0 <= i < |strs| ensures Stands(m0, at, strs, i) && Waits(m0, q, i) {
      assert Pushed(m0, bottom, strs, at, i);
    }
    PutBytes(mem, put, execfn + [0]);
    ghost var m1 := mem[..];
    Kept(m0, m1, put, |execfn| + 1, q);
    PutWord(mem, SIZE - 8, 0);
    Kept(m1, mem[..], SIZE - 8, 8, q);
    HoldsFrame(m1, mem[..], SIZE - 8, 8, put, execfn + [0]);
  }

  /** The finished region: what is given reads back from `o`, over the strings and
      the bytes the entries lead to. */
  ghost predicate Laid(m: seq<Byte>, q: Plan, o: nat, rnd: nat, argv: seq<Str>, envp: seq<Str>, execfn: Str,
                       random: Str) {
    && ReadsBack(m, q.bottom, o, argv, envp, q.aux) && OneRun(m, q.at, q.strs, execfn)
    && Holds(m, q.at - 8, Platform() + [0]) && Holds(m, rnd, random)
  }

  method Lay(mem: array<Byte>, argc: nat, rnd: nat, o: nat, execfn: Str, random: Str, q: Plan, ghost argv: seq<Str>,
             ghost envp: seq<Str>)
    requires PlanOk(q) && mem.Length == SIZE == q.at + Area(q.strs, execfn) + 8 && |random| == 16 && Ended(q.aux)
    requires q.strs == argv + envp && argc == q.argc == |argv| < WORD
    requires 8 * |q.strs| <= o && o + 8 * Words(|q.strs|, |q.aux|) <= rnd && rnd + 16 <= q.at - 8
    modifies mem
    ensures Laid(mem[..], q, o, rnd, argv, envp, execfn, random)
  {
    PutStrings(mem, q.bottom, q.strs, q.at, execfn, q);
    PutExtras(mem, q.at, rnd, random, q, execfn);
    ghost var m := mem[..];
    PutVectors(mem, o, argc, |q.strs|, q.aux, q);
    LaidAll(m, mem[..], q, o, rnd, argv, envp, execfn, random);
  }

  lemma {:induction false} LaidAll(m: seq<Byte>, m': seq<Byte>, q: Plan, o: nat, rnd: nat, argv: seq<Str>,
                                   envp: seq<Str>, execfn: Str, random: Str)
    requires PlanOk(q) && |random| == 16 && Ended(q.aux) && q.strs == argv + envp && q.argc == |argv| < WORD
    requires 8 * |q.strs| <= o && o + 8 * Words(|q.strs|, |q.aux|) <= rnd && rnd + 16 <= q.at - 8
    requires Strung(m, q, execfn) && Holds(m, q.at - 8, Platform() + [0]) && Holds(m, rnd, random)
    requires Writing(m, m', o, q, Words(|q.strs|, |q.aux|))
    ensures Laid(m', q, o, rnd, argv, envp, execfn, random)
  {
    var k := 8 * Words(|q.strs|, |q.aux|);
    StrungKept(m, m', o, k, q, execfn);
    HoldsFrame(m, m', o, k, q.at - 8, Platform() + [0]);
    HoldsFrame(m, m', o, k, rnd, random);
    Decodes(m', o, q, argv, envp);
  }

  /** Where everything goes, for arguments that pass the check. */
  function Planned(bottom: nat, argv: seq<Str>, envp: seq<Str>, execfn: Str, aux: seq<Aux>): Plan
    requires Need(|argv + envp|, Area(argv + envp, execfn)) <= SIZE
  {
    Plan(bottom, argv + envp, |argv|, StrAt(Area(argv + envp, execfn)), aux)
  }

  lemma {:induction false} PlannedOk(bottom: nat, argv: seq<Str>, envp: seq<Str>, execfn: Str, aux: seq<Aux>)
    requires Need(|argv + envp|, Area(argv + envp, execfn)) <= SIZE && 0 < bottom && bottom + SIZE < WORD
    requires Strings(argv + envp) && Ended(aux)
    ensures var q := Planned(bottom, argv, envp, execfn, aux);
            PlanOk(q) && q.at + Area(q.strs, execfn) + 8 == SIZE && q.argc == |argv| < WORD
  {
  }

  /** The places of everything, below one another and above the scratch. */
  ghost predicate Fits(q: Plan, rnd: nat, o: nat) {
    8 * |q.strs| <= o && o + 8 * Words(|q.strs|, |q.aux|) <= rnd && rnd + 16 <= q.at - 8 && o % 16 == 0
  }

  /** The string an entry leads to. */
  ghost predicate LeadsTo(m: seq<Byte>, bottom: nat, aux: seq<Aux>, tag: Word, s: Str) {
    exists a: Word :: Says(aux, tag, a) && bottom <= a <= bottom + |m| && ReadStr(m, a - bottom) == s
  }

  /** The bytes an entry leads to. */
  ghost predicate BytesAt(m: seq<Byte>, bottom: nat, aux: seq<Aux>, tag: Word, s: Str) {
    exists a: Word :: Says(aux, tag, a) && bottom <= a && Holds(m, a - bottom, s)
  }

  /** The entries decoded from the stack at `o` tell the program about itself, and lead
      to its path, to the platform's name and to the random bytes. */
  ghost predicate Informs(m: seq<Byte>, bottom: nat, o: nat, n: nat, f: Info, execfn: Str, random: Str) {
    InformsBy(m, bottom, ReadAux(m, o + 8 * (n + 3)), f, execfn, random)
  }

  ghost predicate InformsBy(m: seq<Byte>, bottom: nat, aux: seq<Aux>, f: Info, execfn: Str, random: Str) {
    && Tells(aux, f) && (0 !in execfn ==> LeadsTo(m, bottom, aux, AT_EXECFN, execfn))
    && LeadsTo(m, bottom, aux, AT_PLATFORM, [97, 97, 114, 99, 104, 54, 52])
    && BytesAt(m, bottom, aux, AT_RANDOM, random)
  }

  lemma {:induction false} StringLeads(m: seq<Byte>, bottom: nat, aux: seq<Aux>, tag: Word, o: nat, s: Str)
    requires bottom + |m| < WORD && Holds(m, o, s + [0]) && 0 !in s && Says(aux, tag, bottom + o)
    ensures LeadsTo(m, bottom, aux, tag, s)
  {
    StrReads(m, o, s);
    assert Says(aux, tag, bottom + o) && ReadStr(m, bottom + o - bottom) == s;
  }

  lemma {:induction false} StackInforms(m: seq<Byte>, bottom: nat, at: nat, end: nat, rnd: nat, execfn: Str,
                                        random: Str, f: Info, aux: seq<Aux>, e: Word, p: Word, r: Word)
    requires |m| == SIZE && bottom + SIZE < WORD && 8 <= at <= SIZE && end <= SIZE && rnd < SIZE && Tells(aux, f)
    requires Holds(m, end, execfn + [0]) && Holds(m, at - 8, Platform() + [0]) && Holds(m, rnd, random)
    requires Says(aux, AT_EXECFN, e) && Says(aux, AT_PLATFORM, p) && Says(aux, AT_RANDOM, r)
    requires e == bottom + end && p == bottom + at - 8 && r == bottom + rnd
    ensures InformsBy(m, bottom, aux, f, execfn, random)
  {
    if 0 !in execfn { StringLeads(m, bottom, aux, AT_EXECFN, end, execfn); }
    StringLeads(m, bottom, aux, AT_PLATFORM, at - 8, Platform());
  }

  lemma {:induction false} ListTells(f: Info, execfn: Word, platform: Word, random: Word, all: seq<Aux>, aux: seq<Aux>)
    requires all == Auxv(f, execfn, platform, random) && all != [] && aux == all[..|all| - 1]
    ensures Tells(aux, f) && Says(aux, AT_EXECFN, execfn) && Says(aux, AT_PLATFORM, platform)
    ensures Says(aux, AT_RANDOM, random)
  {
    AuxvTells(f, execfn, platform, random);
  }

  /** A list of entries, ended, that tells of `f` and leads to three addresses. */
  ghost predicate Listed(all: seq<Aux>, f: Info, execfn: Word, platform: Word, random: Word) {
    && Ended(all) && |all| <= 21
    && var aux := all[..|all| - 1];
       Tells(aux, f) && Says(aux, AT_EXECFN, execfn) && Says(aux, AT_PLATFORM, platform) && Says(aux, AT_RANDOM, random)
  }

  method Entries(f: Info, execfn: Word, platform: Word, random: Word) returns (all: seq<Aux>)
    ensures Listed(all, f, execfn, platform, random)
  {
    all := Auxv(f, execfn, platform, random);
    AuxvEnded(f, execfn, platform, random);
    ListTells(f, execfn, platform, random, all, all[..|all| - 1]);
  }

  method Measure(bottom: nat, argv: seq<Str>, envp: seq<Str>, execfn: Str, aux: seq<Aux>)
    returns (q: Plan, rnd: nat, o: nat)
    requires Need(|argv + envp|, Area(argv + envp, execfn)) <= SIZE && 0 < bottom && bottom + SIZE < WORD
    requires Strings(argv + envp) && Ended(aux) && |aux| <= 21
    ensures q == Planned(bottom, argv, envp, execfn, aux) && PlanOk(q) && Fits(q, rnd, o)
    ensures q.at + Area(q.strs, execfn) + 8 == SIZE && q.argc == |argv| < WORD
    ensures rnd == RandAt(Area(argv + envp, execfn))
  {
    var n, area := |argv + envp|, Area(argv + envp, execfn);
    q := Planned(bottom, argv, envp, execfn, aux);
    PlannedOk(bottom, argv, envp, execfn, aux);
    Room(n, area, |q.aux|);
    rnd, o := RandAt(area), SpAt(n, area, |q.aux|);
  }

  /** The whole of it, where it fits: where the vectors and everything else were put. */
  method Fill(mem: array<Byte>, bottom: nat, argv: seq<Str>, envp: seq<Str>, execfn: Str, aux: seq<Aux>, random: Str)
    returns (o: nat, q: Plan, rnd: nat)
    requires mem.Length == SIZE && 0 < bottom && bottom + SIZE < WORD && Ended(aux) && |aux| <= 21
    requires Strings(argv + envp) && |random| == 16 && Need(|argv + envp|, Area(argv + envp, execfn)) <= SIZE
    modifies mem
    ensures q == Planned(bottom, argv, envp, execfn, aux) && Fits(q, rnd, o) && rnd == RandAt(Area(argv + envp, execfn))
    ensures Laid(mem[..], q, o, rnd, argv, envp, execfn, random)
  {
    q, rnd, o := Measure(bottom, argv, envp, execfn, aux);
    Lay(mem, |argv|, rnd, o, execfn, random, q, argv, envp);
  }

  lemma {:induction false} LaidInforms(m: seq<Byte>, o: nat, argv: seq<Str>, envp: seq<Str>, q: Plan, rnd: nat, f: Info,
                                       execfn: Str, random: Str, all: seq<Aux>, e: Word, p: Word, r: Word)
    requires q.bottom + SIZE < WORD && 8 <= q.at && rnd < SIZE && Laid(m, q, o, rnd, argv, envp, execfn, random)
    requires q.aux == all && Listed(all, f, e, p, r)
    requires e == q.bottom + q.at + Off(q.strs, |q.strs|) && p == q.bottom + q.at - 8 && r == q.bottom + rnd
    ensures Informs(m, q.bottom, o, |argv| + |envp|, f, execfn, random)
  {
    var aux := ReadAux(m, o + 8 * (|argv| + |envp| + 3));
    assert aux == all[..|all| - 1];
    StackInforms(m, q.bottom, q.at, q.at + Off(q.strs, |q.strs|), rnd, execfn, random, f, aux, e, p, r);
  }

  /** The strings and what surrounds them, for arguments that fit. */
  method Compose(mem: array<Byte>, bottom: nat, argv: seq<Str>, envp: seq<Str>, execfn: Str, f: Info, random: Str)
    returns (o: nat, q: Plan, rnd: nat)
    requires mem.Length == SIZE && 0 < bottom && bottom + SIZE < WORD && Strings(argv + envp) && |random| == 16
    requires Need(|argv + envp|, Area(argv + envp, execfn)) <= SIZE
    modifies mem
    ensures q == Planned(bottom, argv, envp, execfn, q.aux) && Fits(q, rnd, o)
    ensures Laid(mem[..], q, o, rnd, argv, envp, execfn, random)
    ensures Informs(mem[..], bottom, o, |argv| + |envp|, f, execfn, random)
  {
    var strs := argv + envp;
    var area := Area(strs, execfn);
    var at := StrAt(area);
    var e, p, r := bottom + at + Off(strs, |strs|), bottom + at - 8, bottom + RandAt(area);
    var aux := Entries(f, e, p, r);
    o, q, rnd := Fill(mem, bottom, argv, envp, execfn, aux, random);
    LaidInforms(mem[..], o, argv, envp, q, rnd, f, execfn, random, aux, e, p, r);
  }

  /** The same, or 0 where it does not fit. sp is the address of offset `o`; `random` is
      what the kernel drew for AT_RANDOM. */
  method Build(mem: array<Byte>, bottom: nat, argv: seq<Str>, envp: seq<Str>, execfn: Str, f: Info, random: Str)
    returns (sp: nat, o: nat, q: Plan, rnd: nat)
    requires mem.Length == SIZE && 0 < bottom && bottom % 16 == 0 && bottom + SIZE < WORD
    requires Strings(argv + envp) && |random| == 16
    modifies mem
    ensures sp == 0 <==> 16 * |argv + envp| + Area(argv + envp, execfn) + 1144 > SIZE
    ensures sp != 0 ==> sp % 16 == 0 && sp == bottom + o && Fits(q, rnd, o)
    ensures sp != 0 ==> q == Planned(bottom, argv, envp, execfn, q.aux)
    ensures sp != 0 ==> Laid(mem[..], q, o, rnd, argv, envp, execfn, random)
    ensures sp != 0 ==> Informs(mem[..], bottom, o, |argv| + |envp|, f, execfn, random)
  {
    if Need(|argv + envp|, Area(argv + envp, execfn)) > SIZE { return 0, 0, Plan(bottom, [], 0, 0, []), 0; }
    o, q, rnd := Compose(mem, bottom, argv, envp, execfn, f, random);
    sp := bottom + o;
    Sum16(bottom, o, sp);
  }

  method PutExtras(mem: array<Byte>, at: nat, rnd: nat, random: Str, ghost q: Plan, ghost execfn: Str)
    requires PlanOk(q) && q.at == at && mem.Length == SIZE && Strung(mem[..], q, execfn) && |random| == 16
    requires 8 * |q.strs| <= rnd && rnd + 16 <= at - 8
    modifies mem
    ensures Strung(mem[..], q, execfn) && Holds(mem[..], at - 8, Platform() + [0]) && Holds(mem[..], rnd, random)
  {
    ghost var m0 := mem[..];
    PutBytes(mem, at - 8, Platform() + [0]);
    ghost var m1 := mem[..];
    StrungKept(m0, m1, at - 8, 8, q, execfn);
    PutBytes(mem, rnd, random);
    StrungKept(m1, mem[..], rnd, 16, q, execfn);
    HoldsFrame(m1, mem[..], rnd, 16, at - 8, Platform() + [0]);
  }
}
