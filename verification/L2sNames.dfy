/** The names of link2symlink: how numbers are printed into them and read back,
    which names are hidden, and which could be taken for another scheme's. */
module L2sNames {
  import opened Errno

  const MAX: nat := 0xffff_ffff_ffff_ffff

  function PREFIX(): string {
    ".l2s."
  }

  predicate IsDigit(c: char) {
    '0' <= c <= '9'
  }

  function DigitOf(d: nat): (c: char)
    requires d < 10
    ensures IsDigit(c)
  {
    '0' + d as char
  }

  function ValueOf(c: char): nat
    requires IsDigit(c)
  {
    (c - '0') as nat
  }

  predicate AllDigits(s: string) {
    forall i :: 0 <= i < |s| ==> IsDigit(s[i])
  }

  /** The number a digit string spells, whatever its leading zeros. */
  function Val(s: string): nat
    requires AllDigits(s)
  {
    if s == [] then 0 else Val(s[..|s| - 1]) * 10 + ValueOf(s[|s| - 1])
  }

  /** The decimal digits of `v`, no leading zero. */
  function Dec(v: nat): (s: string)
    ensures |s| > 0 && AllDigits(s)
  {
    if v < 10 then [DigitOf(v)] else Dec(v / 10) + [DigitOf(v % 10)]
  }

  function Zeros(n: nat): (s: string)
    ensures |s| == n && AllDigits(s)
  {
    if n == 0 then [] else ['0'] + Zeros(n - 1)
  }

  /** ...padded with zeros to a width. */
  function Padded(v: nat, width: nat): (s: string)
    ensures |s| >= width && |s| >= 1 && AllDigits(s)
  {
    Zeros(if |Dec(v)| < width then width - |Dec(v)| else 0) + Dec(v)
  }

  function DataName(ino: nat): string {
    PREFIX() + Padded(ino, 1)
  }

  function MarkerName(ino: nat, count: nat): string {
    PREFIX() + Padded(ino, 1) + "." + Padded(count, 4)
  }

  lemma {:induction false} ValAppend(s: string, c: char)
    requires AllDigits(s) && IsDigit(c)
    ensures AllDigits(s + [c]) && Val(s + [c]) == Val(s) * 10 + ValueOf(c)
  {
  }

  lemma {:induction false} ValZeros(n: nat, s: string)
    requires AllDigits(s)
    ensures AllDigits(Zeros(n) + s) && Val(Zeros(n) + s) == Val(s)
    decreases n, |s|
  {
    if s == [] {
      if n > 0 {
        ValZeros(n - 1, []);
        ZerosEnd(n);
        assert Zeros(n) + s == Zeros(n - 1) + [] + ['0'];
        ValAppend(Zeros(n - 1) + [], '0');
      } else {
        assert Zeros(n) + s == s;
      }
    } else {
      var k := |s| - 1;
      ValZeros(n, s[..k]);
      assert Zeros(n) + s == Zeros(n) + s[..k] + [s[k]];
      ValAppend(Zeros(n) + s[..k], s[k]);
    }
  }

  lemma {:induction false} ZerosEnd(n: nat)
    requires n > 0
    ensures Zeros(n) == Zeros(n - 1) + ['0']
  {
    if n > 1 { ZerosEnd(n - 1); }
  }

  /** What is printed reads back as itself. */
  lemma {:induction false} ValDec(v: nat)
    ensures Val(Dec(v)) == v
  {
    if v < 10 {
      ValAppend([], DigitOf(v));
      assert [] + [DigitOf(v)] == [DigitOf(v)];
    } else {
      ValDec(v / 10);
      ValAppend(Dec(v / 10), DigitOf(v % 10));
    }
  }

  lemma {:induction false} ValPadded(v: nat, width: nat)
    ensures Val(Padded(v, width)) == v
  {
    ValDec(v);
    ValZeros(if |Dec(v)| < width then width - |Dec(v)| else 0, Dec(v));
  }

  function Pow10(k: nat): nat {
    if k == 0 then 1 else 10 * Pow10(k - 1)
  }

  lemma {:induction false} DecLen(v: nat, k: nat)
    requires k > 0 && v < Pow10(k)
    ensures |Dec(v)| <= k
  {
    assert Pow10(1) == 10 * Pow10(0);
    if v >= 10 {
      DecLen(v / 10, k - 1);
    }
  }

  /** Twenty digits hold any 64-bit number. */
  lemma {:induction false} DecLen64(v: nat)
    requires v <= MAX
    ensures |Dec(v)| <= 20
  {
    assert Pow10(5) == 10_0000;
    assert Pow10(10) == 100_0000_0000;
    assert Pow10(15) == 1000_0000_0000_0000;
    assert Pow10(20) == 1_0000_0000_0000_0000_0000;
    DecLen(v, 20);
  }

  // ---- reading ----

  /** The length of the run of digits a string starts with. */
  function Run(s: string): (n: nat)
    ensures n <= |s| && AllDigits(s[..n]) && (n < |s| ==> !IsDigit(s[n]))
  {
    if s == [] || !IsDigit(s[0]) then 0
    else
      var n := 1 + Run(s[1..]);
      assert s[..n] == [s[0]] + s[1..][..n - 1];
      n
  }

  lemma {:induction false} RunIs(s: string, n: nat)
    requires n <= |s| && AllDigits(s[..n]) && (n < |s| ==> !IsDigit(s[n]))
    ensures Run(s) == n
  {
  }

  /** Read a run of digits: 0 for none, 1 and its number, or 2 for a number
      past 64 bits, with no wrap-around in between. */
  method ParseU64(s: string) returns (r: int, v: nat, end: nat)
    ensures end == Run(s)
    ensures r == 0 <==> end == 0
    ensures r == 1 <==> end > 0 && Val(s[..end]) <= MAX
    ensures r == 2 <==> end > 0 && Val(s[..end]) > MAX
    ensures r == 1 ==> v == Val(s[..end])
  {
    v, end := 0, 0;
    var wide := false;
    while end < |s| && IsDigit(s[end])
      invariant 0 <= end <= |s| && AllDigits(s[..end]) && v <= MAX
      invariant !wide ==> v == Val(s[..end])
      invariant wide ==> Val(s[..end]) > MAX
    {
      var d := ValueOf(s[end]);
      assert s[..end + 1] == s[..end] + [s[end]];
      ValAppend(s[..end], s[end]);
      if v > (MAX - d) / 10 {
        wide := true;
      } else {
        v := v * 10 + d;
      }
      end := end + 1;
    }
    RunIs(s, end);
    r := if end == 0 then 0 else if wide then 2 else 1;
  }

  /** After the prefix, the text of a name. */
  predicate Prefixed(name: string) {
    PREFIX() <= name
  }

  function Rest(name: string): string
    requires Prefixed(name)
  {
    name[5..]
  }

  /** The grammar of data names: any run of digits. */
  predicate DataShaped(name: string) {
    Prefixed(name) && Rest(name) != [] && AllDigits(Rest(name))
  }

  /** The grammar of markers: two runs and a dot. */
  predicate MarkerShaped(name: string) {
    && Prefixed(name)
    && var t := Rest(name); var n := Run(t);
       0 < n < |t| - 1 && t[n] == '.' && AllDigits(t[n + 1..])
  }

  /** `want` asks for the number, which must then fit in 64 bits. */
  method ParseData(name: string, want: bool) returns (ok: bool, ino: nat)
    ensures ok <==> DataShaped(name) && (want ==> Val(Rest(name)) <= MAX)
    ensures ok && want ==> ino == Val(Rest(name))
  {
    ok, ino := false, 0;
    if !Prefixed(name) { return; }
    var t := Rest(name);
    var r, v, end := ParseU64(t);
    if AllDigits(t) { RunIs(t, |t|); }
    assert t[..|t|] == t;
    ok := (r == 1 || (r == 2 && !want)) && end == |t|;
    ino := v;
  }

  method ParseMarker(name: string, want: bool) returns (ok: bool, ino: nat, count: nat)
    ensures ok <==> MarkerShaped(name) && (want ==> MarkerIno(name) <= MAX && MarkerCount(name) <= MAX)
    ensures ok && want ==> ino == MarkerIno(name) && count == MarkerCount(name)
  {
    ok, ino, count := false, 0, 0;
    if !Prefixed(name) { return; }
    var t := Rest(name);
    var r, v, end := ParseU64(t);
    if !(r == 1 || (r == 2 && !want)) || end == |t| || t[end] != '.' { return; }
    var u := t[end + 1..];
    var q, c, stop := ParseU64(u);
    if AllDigits(u) { RunIs(u, |u|); }
    assert u[..|u|] == u;
    ok := (q == 1 || (q == 2 && !want)) && stop == |u|;
    ino, count := v, c;
  }

  ghost function MarkerIno(name: string): nat
    requires MarkerShaped(name)
  {
    Val(Rest(name)[..Run(Rest(name))])
  }

  ghost function MarkerCount(name: string): nat
    requires MarkerShaped(name)
  {
    Val(Rest(name)[Run(Rest(name)) + 1..])
  }

  /** A name of the grammar, however long its digits. */
  method Hidden(name: string) returns (h: bool)
    ensures h <==> DataShaped(name) || MarkerShaped(name)
  {
    var i, c;
    h, i := ParseData(name, false);
    if !h { h, i, c := ParseMarker(name, false); }
  }

  lemma {:induction false} DataNameParts(ino: nat)
    ensures DataShaped(DataName(ino)) && Rest(DataName(ino)) == Padded(ino, 1) && Val(Rest(DataName(ino))) == ino
  {
    ValPadded(ino, 1);
  }

  lemma {:induction false} MarkerNameParts(ino: nat, count: nat)
    ensures MarkerShaped(MarkerName(ino, count))
    ensures MarkerIno(MarkerName(ino, count)) == ino && MarkerCount(MarkerName(ino, count)) == count
    ensures Run(Rest(MarkerName(ino, count))) == |Padded(ino, 1)|
  {
    var a, b := Padded(ino, 1), Padded(count, 4);
    var t := Rest(MarkerName(ino, count));
    assert t == a + "." + b;
    assert t[..|a|] == a && t[|a| + 1..] == b;
    RunIs(t, |a|);
    ValPadded(ino, 1);
    ValPadded(count, 4);
  }

  /** Every name the emulation prints, or would follow, is hidden. */
  lemma {:induction false} PrintedIsHidden(ino: nat, count: nat)
    ensures DataShaped(DataName(ino)) && MarkerShaped(MarkerName(ino, count))
    ensures !MarkerShaped(DataName(ino)) && !DataShaped(MarkerName(ino, count))
  {
    DataNameParts(ino);
    MarkerNameParts(ino, count);
    var t, u := Rest(DataName(ino)), Rest(MarkerName(ino, count));
    RunIs(t, |t|);
    assert u[Run(u)] == '.';
  }

  // ---- printing ----

  /** The text so far is `s`: in the buffer, or too long for it, the cursor then
      at the last byte or past it. */
  ghost predicate Cursor(out: array<char>, p: nat, s: string)
    reads out
  {
    if |s| < out.Length then p == |s| && out[..p] == s else p >= out.Length - 1
  }

  method Plain(v: nat) returns (tmp: string)
    ensures tmp == Dec(v)
  {
    var rest := v;
    tmp := "";
    while rest >= 10
      invariant Dec(v) == Dec(rest) + tmp
      decreases rest
    {
      assert Dec(rest) + tmp == Dec(rest / 10) + ([DigitOf(rest % 10)] + tmp);
      tmp := [DigitOf(rest % 10)] + tmp;
      rest := rest / 10;
    }
    tmp := [DigitOf(rest)] + tmp;
  }

  /** The digits to print: never more than the 24 bytes kept for them. */
  method Digits(v: nat, width: nat) returns (tmp: string)
    requires v <= MAX && width <= 4
    ensures tmp == Padded(v, width) && |tmp| <= 20
  {
    DecLen64(v);
    tmp := Plain(v);
    ghost var pad: nat := 0;
    assert tmp == Zeros(0) + Dec(v);
    while |tmp| < width
      invariant tmp == Zeros(pad) + Dec(v) && (pad > 0 ==> |tmp| <= width)
    {
      assert ['0'] + (Zeros(pad) + Dec(v)) == Zeros(pad + 1) + Dec(v);
      tmp, pad := ['0'] + tmp, pad + 1;
    }
  }

  /** Copy `t` to `p`, storing only what fits before the last byte but moving on
      by the whole of it. */
  method Emit(out: array<char>, p: nat, t: string, ghost s: string) returns (q: nat)
    requires out.Length > 0 && Cursor(out, p, s)
    modifies out
    ensures Cursor(out, q, s + t) && q == p + |t|
  {
    q := p;
    var i := 0;
    while i < |t|
      invariant 0 <= i <= |t| && q == p + i
      invariant p < out.Length ==> out[..p] == old(out[..p])
      invariant forall k :: 0 <= k < i && p + k < out.Length - 1 ==> out[p + k] == t[k]
    {
      if q < out.Length - 1 { out[q] := t[i]; }
      i, q := i + 1, q + 1;
    }
    if |s + t| < out.Length { assert out[..q] == s + t; }
  }

  method PutU64(out: array<char>, p: nat, v: nat, width: nat, ghost s: string) returns (q: nat)
    requires v <= MAX && width <= 4 && out.Length > 0 && Cursor(out, p, s)
    modifies out
    ensures Cursor(out, q, s + Padded(v, width)) && q == p + |Padded(v, width)|
  {
    var tmp := Digits(v, width);
    q := Emit(out, p, tmp, s);
  }

  /** One character, where there is room for it. */
  method PutChar(out: array<char>, p: nat, c: char, ghost s: string) returns (q: nat)
    requires out.Length > 0 && Cursor(out, p, s)
    modifies out
    ensures Cursor(out, q, s + [c])
  {
    q := p;
    if p < out.Length - 1 {
      out[p] := c;
      q := p + 1;
      assert out[..q] == s + [c];
    }
  }

  function NumberPart(ino: nat, count: int): string {
    Padded(ino, 1) + if count < 0 then "" else "." + Padded(count, 4)
  }

  function Head(dir: string): string {
    dir + (if dir != [] && dir[|dir| - 1] == '/' then "" else "/") + PREFIX()
  }

  /** The full path of a data file (count < 0) or of a marker. */
  function Full(dir: string, ino: nat, count: int): string {
    Head(dir) + NumberPart(ino, count)
  }

  lemma {:induction false} FullEndsInName(dir: string, ino: nat, count: int)
    ensures var name := if count < 0 then DataName(ino) else MarkerName(ino, count);
            |Full(dir, ino, count)| > |name| && Full(dir, ino, count)[|Full(dir, ino, count)| - |name|..] == name
  {
  }

  /** Build the path: the whole of it, or the error, and never a shorter name. */
  method BuildName(out: array<char>, dir: string, ino: nat, count: int) returns (r: int)
    requires out.Length > 0 && ino <= MAX && count <= MAX
    modifies out
    ensures r == 0 || r == -ENAMETOOLONG
    ensures r == 0 <==> |Full(dir, ino, count)| < out.Length
    ensures r == 0 ==> out[..|Full(dir, ino, count)|] == Full(dir, ino, count) && out[|Full(dir, ino, count)|] == '\0'
  {
    var p := PutHead(out, dir);
    if p >= out.Length - 1 { return -ENAMETOOLONG; }
    r := Numbers(out, p, ino, count, Head(dir));
  }

  method PutHead(out: array<char>, dir: string) returns (p: nat)
    requires out.Length > 0
    modifies out
    ensures if |Head(dir)| < out.Length then Cursor(out, p, Head(dir)) else p >= out.Length - 1
  {
    ghost var s := dir;
    assert [] + dir == dir;
    p := Emit(out, 0, dir, []);
    if p > out.Length - 1 { return; }
    if !(dir != [] && dir[|dir| - 1] == '/') {
      p := PutChar(out, p, '/', s);
      s := s + "/";
    }
    p := Emit(out, p, PREFIX(), s);
    assert s + PREFIX() == Head(dir);
  }

  method Numbers(out: array<char>, at: nat, ino: nat, count: int, ghost s: string) returns (r: int)
    requires ino <= MAX && count <= MAX && out.Length > 0 && Cursor(out, at, s)
    modifies out
    ensures r == 0 || r == -ENAMETOOLONG
    ensures r == 0 <==> |s + NumberPart(ino, count)| < out.Length
    ensures r == 0 ==>
              out[..|s + NumberPart(ino, count)|] == s + NumberPart(ino, count) &&
              out[|s + NumberPart(ino, count)|] == '\0'
  {
    var end := out.Length - 1;
    ghost var t := s + Padded(ino, 1);
    var p := PutU64(out, at, ino, 1, s);
    if count >= 0 {
      p := PutChar(out, p, '.', t);
      p := PutU64(out, p, count, 4, t + ".");
      t := t + "." + Padded(count, 4);
    }
    assert t == s + NumberPart(ino, count);
    if p > end { return -ENAMETOOLONG; }
    out[p] := '\0';
    r := 0;
  }

  // ---- exact names ----

  ghost predicate IsDataName(name: string) {
    exists v: nat :: v <= MAX && name == DataName(v)
  }

  ghost predicate IsMarkerName(name: string) {
    exists v: nat, c: nat {:trigger MarkerName(v, c)} :: v <= MAX && c <= MAX && name == MarkerName(v, c)
  }

  lemma {:induction false} DataExact(name: string)
    ensures IsDataName(name) <==> DataShaped(name) && Val(Rest(name)) <= MAX && Padded(Val(Rest(name)), 1) == Rest(name)
  {
    if IsDataName(name) {
      var v: nat :| v <= MAX && name == DataName(v);
      DataNameParts(v);
    }
    if DataShaped(name) && Val(Rest(name)) <= MAX && Padded(Val(Rest(name)), 1) == Rest(name) {
      assert name == DataName(Val(Rest(name)));
    }
  }

  lemma {:induction false} MarkerRest(v: nat, c: nat)
    ensures Prefixed(MarkerName(v, c)) && Rest(MarkerName(v, c)) == Padded(v, 1) + "." + Padded(c, 4)
  {
  }

  ghost predicate MarkerSelf(name: string)
    requires MarkerShaped(name)
  {
    Padded(MarkerIno(name), 1) + "." + Padded(MarkerCount(name), 4) == Rest(name)
  }

  ghost predicate MarkerReads(name: string) {
    MarkerShaped(name) && MarkerIno(name) <= MAX && MarkerCount(name) <= MAX && MarkerSelf(name)
  }

  lemma {:induction false} MarkerPrints(v: nat, c: nat)
    requires v <= MAX && c <= MAX
    ensures MarkerReads(MarkerName(v, c))
  {
    MarkerNameParts(v, c);
    MarkerRest(v, c);
  }

  lemma {:induction false} MarkerExact(name: string)
    ensures IsMarkerName(name) <==> MarkerReads(name)
  {
    if IsMarkerName(name) {
      var v: nat, c: nat :| v <= MAX && c <= MAX && name == MarkerName(v, c);
      MarkerPrints(v, c);
    }
    if MarkerReads(name) { MarkerIs(name); }
  }

  lemma {:induction false} MarkerIs(name: string)
    requires MarkerShaped(name) && MarkerSelf(name)
    ensures name == MarkerName(MarkerIno(name), MarkerCount(name))
  {
    MarkerRest(MarkerIno(name), MarkerCount(name));
    assert name == PREFIX() + Rest(name);
    var m := MarkerName(MarkerIno(name), MarkerCount(name));
    assert m == PREFIX() + Rest(m);
  }

  /** A data name as it is printed and not otherwise: no leading zero, no number
      past 64 bits. */
  method ParseDataExact(name: string) returns (ok: bool, ino: nat)
    ensures ok <==> IsDataName(name)
    ensures ok ==> ino <= MAX && name == DataName(ino)
  {
    DataExact(name);
    ok, ino := ParseData(name, true);
    if !ok { return; }
    var tmp := Digits(ino, 1);
    ok := tmp == Rest(name);
    if ok { assert name == PREFIX() + Rest(name); }
  }

  /** A marker as it is printed and not otherwise. */
  method ParseMarkerExact(name: string) returns (ok: bool, ino: nat, count: nat)
    ensures ok <==> IsMarkerName(name)
    ensures ok ==> ino <= MAX && count <= MAX && name == MarkerName(ino, count)
  {
    MarkerExact(name);
    ok, ino, count := ParseMarker(name, true);
    if !ok { return; }
    var a := Digits(ino, 1);
    var b := Digits(count, 4);
    ok := a + "." + b == Rest(name);
    if ok { MarkerIs(name); }
  }

  /** The numbers make the name: no two data files or markers share one. */
  lemma {:induction false} NamesInjective(i: nat, j: nat, c: nat, d: nat)
    ensures DataName(i) == DataName(j) ==> i == j
    ensures MarkerName(i, c) == MarkerName(j, d) ==> i == j && c == d
  {
    DataNameParts(i);
    DataNameParts(j);
    MarkerNameParts(i, c);
    MarkerNameParts(j, d);
  }

  // ---- proot's names ----

  const PR_IND_MAX := 240

  function ProotPrefix(name: string): nat {
    if ".l2s." <= name then 5 else if ".proot.l2s." <= name then 11 else 0
  }

  predicate Four(s: string) {
    |s| == 4 && AllDigits(s)
  }

  /** An indirection: a prefix, a name, four digits. */
  predicate IsIndirection(name: string) {
    var pl, n := ProotPrefix(name), |name|;
    pl > 0 && pl + 5 <= n <= PR_IND_MAX && Four(name[n - 4..])
  }

  predicate IndirectionOf(name: string, prefix: string, mid: string, d: string) {
    && prefix in {".l2s.", ".proot.l2s."} && mid != [] && name == prefix + mid + d
    && |d| == 4 && '0' <= d[0] <= '9' && '0' <= d[1] <= '9' && '0' <= d[2] <= '9' && '0' <= d[3] <= '9'
  }

  /** An indirection's name is either prefix, something and four digits, and short
      enough for what is built on it. */
  lemma {:induction false} IndirectionExact(name: string)
    ensures IsIndirection(name) <==> |name| <= 240 && exists prefix, mid, d :: IndirectionOf(name, prefix, mid, d)
  {
    if IsIndirection(name) {
      var prefix, mid, d := IndirectionParts(name);
    }
    if prefix, mid, d :| |name| <= 240 && IndirectionOf(name, prefix, mid, d) {
      IndirectionFrom(name, prefix, mid, d);
    }
  }

  lemma {:induction false} IndirectionParts(name: string) returns (prefix: string, mid: string, d: string)
    requires IsIndirection(name)
    ensures IndirectionOf(name, prefix, mid, d)
  {
    var pl, n := ProotPrefix(name), |name|;
    prefix, mid, d := if pl == 5 then ".l2s." else ".proot.l2s.", name[pl..n - 4], name[n - 4..];
    assert name[..pl] == prefix;
    assert name == name[..pl] + name[pl..n - 4] + name[n - 4..];
    assert IsDigit(d[0]) && IsDigit(d[1]) && IsDigit(d[2]) && IsDigit(d[3]);
  }

  lemma {:induction false} IndirectionFrom(name: string, prefix: string, mid: string, d: string)
    requires |name| <= 240 && IndirectionOf(name, prefix, mid, d)
    ensures IsIndirection(name)
  {
    assert prefix <= name && name[|name| - 4..] == d && AllDigits(d);
    assert name[1] == prefix[1];
  }

  /** The number in a data name of the indirection `ind`, -1 for another name. */
  function DataNumber(dn: string, ind: string): int {
    if ind <= dn && |dn| == |ind| + 5 && dn[|ind|] == '.' && Four(dn[|ind| + 1..]) then Val(dn[|ind| + 1..]) else -1
  }

  predicate IsProotData(dn: string) {
    |dn| >= 6 && |dn| - 5 < 256 && IsIndirection(dn[..|dn| - 5]) && DataNumber(dn, dn[..|dn| - 5]) >= 0
  }

  lemma {:induction false} PaddedStep(v: nat, width: nat)
    requires width >= 2
    ensures Padded(v, width) == Padded(v / 10, width - 1) + [DigitOf(v % 10)]
  {
    if v < 10 {
      assert Dec(0) == ['0'];
      ZerosEnd(width - 1);
    }
  }

  lemma {:induction false} LastDigit(s: string)
    requires AllDigits(s) && s != []
    ensures Val(s) / 10 == Val(s[..|s| - 1]) && s == s[..|s| - 1] + [DigitOf(Val(s) % 10)]
  {
  }

  /** A digit string of some width is the printing of its number at that
      width. */
  lemma {:induction false} PaddedVal(s: string)
    requires AllDigits(s) && s != []
    ensures Padded(Val(s), |s|) == s
  {
    var k := |s| - 1;
    if k == 0 {
      assert s == [] + [s[0]];
      ValAppend([], s[0]);
      assert Zeros(0) + Dec(Val(s)) == s;
    } else {
      PaddedVal(s[..k]);
      PaddedStep(Val(s), |s|);
      LastDigit(s);
    }
  }

  /** Proot's data names of one indirection are its name, a dot and one of the
      ten thousand four-digit numbers; the temporary is none of them. */
  lemma {:induction false} DataNumberExact(dn: string, ind: string, v: nat)
    requires v < 10000
    ensures DataNumber(dn, ind) == v <==> dn == ind + "." + Padded(v, 4)
    ensures DataNumber(dn, ind) < 10000
    ensures DataNumber(ind + ".cng", ind) == -1
  {
    assert Pow10(4) == 10000;
    DecLen(v, 4);
    var made := ind + "." + Padded(v, 4);
    assert |Padded(v, 4)| == 4;
    assert made[|ind| + 1..] == Padded(v, 4);
    assert made[..|ind|] == ind;
    ValPadded(v, 4);
    if DataNumber(dn, ind) >= 0 {
      var t := dn[|ind| + 1..];
      PaddedVal(t);
      ValBelow(t);
      assert dn == dn[..|ind|] + [dn[|ind|]] + t;
      assert dn[..|ind|] == ind;
    }
  }

  lemma {:induction false} ValBelow(t: string)
    requires AllDigits(t)
    ensures Val(t) < Pow10(|t|)
  {
    if t != [] { ValBelow(t[..|t| - 1]); }
  }

  /** What the names look like. */
  lemma {:induction false} NameSamples()
    ensures DataName(12) == ".l2s.12" && MarkerName(12, 3) == ".l2s.12.0003"
  {
    assert Dec(12) == Dec(1) + ['2'] == "12" && Dec(3) == "3";
    assert Zeros(3) == ['0'] + (['0'] + (['0'] + Zeros(0)));
  }

  /** No data name of the emulation is a proot data name... */
  lemma {:induction false} DataNameIsNotProots(ino: nat)
    ensures !IsProotData(DataName(ino))
  {
  }

  /** A name that ends in a dot and four digits is a proot data name if four digits
      stand before the dot. */
  lemma {:induction false} MarkerShort(a: string, b: string)
    requires AllDigits(a) && AllDigits(b) && |b| == 4 && 0 < |a| <= 20
    ensures IsProotData(PREFIX() + a + "." + b) <==> |a| > 4
  {
    var dn := PREFIX() + a + "." + b;
    var n := |dn|;
    var ind := dn[..n - 5];
    assert ind == PREFIX() + a;
    assert dn[n - 4..] == b && dn[n - 5] == '.';
    assert |a| >= 4 ==> ind[|ind| - 4..] == a[|a| - 4..];
  }

  lemma {:induction false} MarkerLong(a: string, b: string)
    requires AllDigits(b) && |b| > 4
    ensures !IsProotData(PREFIX() + a + "." + b)
  {
    var dn := PREFIX() + a + "." + b;
    assert IsDigit(b[|b| - 5]) && dn[|dn| - 5] == b[|b| - 5];
  }

  /** ...but a marker is, exactly when its inode has five digits or more and
      its count no more than four. */
  lemma {:induction false} MarkerNameIsProots(ino: nat, count: nat)
    requires ino <= MAX
    ensures IsProotData(MarkerName(ino, count)) <==> ino >= 10000 && count < 10000
  {
    var a, b := Padded(ino, 1), Padded(count, 4);
    DecLen64(ino);
    DecWidth(ino, 4);
    DecWidth(count, 4);
    if |b| == 4 { MarkerShort(a, b); } else { MarkerLong(a, b); }
  }

  lemma {:induction false} DecWidth(v: nat, k: nat)
    requires k > 0
    ensures |Dec(v)| <= k <==> v < Pow10(k)
    ensures Pow10(4) == 10000
  {
    assert Pow10(1) == 10 * Pow10(0);
    assert Pow10(4) == 10000;
    if k > 1 { DecWidth(v / 10, k - 1); }
  }
}
