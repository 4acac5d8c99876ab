/** Reading fields out of a status file in pieces: what a buffer of a kilobyte,
    refilled by reads of any size, finds in a text whose lines may be far
    longer. */
module StatusScan {

  const BUF := 1024
  const LINE := 80

  type Keys = seq<string>
  type Found = map<nat, string>

  // ---- the text as a whole ----

  /** The first key from `i` on that begins the line, or -1. */
  function FirstKey(line: string, keys: Keys, i: nat): (k: int)
    requires i <= |keys|
    ensures -1 <= k < |keys| && (k >= 0 ==> keys[k] <= line)
    decreases |keys| - i
  {
    if i == |keys| then -1 else if keys[i] <= line then i else FirstKey(line, keys, i + 1)
  }

  function Cut(s: string): string {
    if |s| < LINE then s else s[..LINE - 1]
  }

  /** A line that has ended: the value of the key it begins with, if any. A line
      of a buffer's length is none. */
  function Commit(out: Found, line: string, keys: Keys): Found {
    var k := FirstKey(line, keys, 0);
    if k < 0 || |line| >= BUF then out else out[k := Cut(line[|keys[k]|..])]
  }

  /** The line being read and the fields of those before it. */
  datatype State = State(cur: string, out: Found)

  function Step(st: State, c: char, keys: Keys): State {
    if c == '\n' then State("", Commit(st.out, st.cur, keys)) else State(st.cur + [c], st.out)
  }

  /** The state after the bytes of `text` from `i` to `j`. */
  function Feed(st: State, text: string, i: nat, j: nat, keys: Keys): State
    requires i <= j <= |text|
    decreases j
  {
    if i == j then st else Step(Feed(st, text, i, j - 1, keys), text[j - 1], keys)
  }

  function Start(): State {
    State("", map[])
  }

  /** What a scan of the first `n` bytes of a text finds, in one go: a line
      without its end is not one. */
  function Scan(text: string, n: nat, keys: Keys): Found
    requires n <= |text|
  {
    Feed(Start(), text, 0, n, keys).out
  }

  predicate All(out: Found, keys: Keys) {
    forall i :: 0 <= i < |keys| ==> i in out
  }

  lemma {:induction false} FeedMore(st: State, text: string, i: nat, k: nat, j: nat, keys: Keys)
    requires i <= k <= j <= |text|
    ensures Feed(Feed(st, text, i, k, keys), text, k, j, keys) == Feed(st, text, i, j, keys)
    decreases j
  {
    if k < j { FeedMore(st, text, i, k, j - 1, keys); }
  }

  /** The same bytes elsewhere. */
  lemma {:induction false} FeedView(st: State, view: string, text: string, at: nat, j: nat, keys: Keys)
    requires j <= |view| && at + j <= |text| && forall k :: 0 <= k < j ==> view[k] == text[at + k]
    ensures Feed(st, view, 0, j, keys) == Feed(st, text, at, at + j, keys)
    decreases j
  {
    if j > 0 { FeedView(st, view, text, at, j - 1, keys); }
  }

  ghost predicate NoEnd(text: string, i: nat, j: nat)
    requires i <= j <= |text|
  {
    forall k :: i <= k < j ==> text[k] != '\n'
  }

  lemma {:induction false} FeedLine(st: State, text: string, i: nat, j: nat, keys: Keys)
    requires i <= j <= |text| && NoEnd(text, i, j)
    ensures Feed(st, text, i, j, keys) == State(st.cur + text[i..j], st.out)
    decreases j
  {
    if i == j {
      assert st.cur + text[i..j] == st.cur;
    } else {
      assert text[i..j] == text[i..j - 1] + [text[j - 1]];
      FeedLine(st, text, i, j - 1, keys);
      assert st.cur + text[i..j] == st.cur + text[i..j - 1] + [text[j - 1]];
    }
  }

  /** Byte by byte is line by line: the scan of a text up to the end of a line is
      the scan up to its beginning and that line. */
  lemma {:induction false} ScanByLines(text: string, i: nat, j: nat, keys: Keys)
    requires i <= j < |text| && (i == 0 || text[i - 1] == '\n') && NoEnd(text, i, j) && text[j] == '\n'
    ensures Scan(text, j + 1, keys) == Commit(Scan(text, i, keys), text[i..j], keys)
  {
    var st := Feed(Start(), text, 0, i, keys);
    FeedLine(st, text, i, j, keys);
    FeedMore(Start(), text, 0, i, j, keys);
    assert st.cur + text[i..j] == text[i..j];
  }

  /** However it goes on, a line that begins so is none of the keys'. */
  ghost predicate Hopeless(h: string, keys: Keys) {
    |h| >= BUF || forall i :: 0 <= i < |keys| ==> |keys[i]| <= |h| && !(keys[i] <= h)
  }

  lemma {:induction false} HopelessStays(h: string, t: string, keys: Keys, out: Found)
    requires Hopeless(h, keys)
    ensures Hopeless(h + t, keys) && Commit(out, h + t, keys) == out
  {
  }

  // ---- one buffer ----

  method LineEnd(view: string, s: nat) returns (len: nat)
    requires s <= |view|
    ensures s + len <= |view| && NoEnd(view, s, s + len)
    ensures s + len < |view| ==> view[s + len] == '\n'
  {
    len := 0;
    while s + len < |view| && view[s + len] != '\n'
      invariant s + len <= |view| && NoEnd(view, s, s + len)
    {
      len := len + 1;
    }
  }

  method MatchKey(line: string, keys: Keys) returns (k: int, longest: nat)
    ensures k == FirstKey(line, keys, 0)
    ensures forall i :: 0 <= i < |keys| ==> |keys[i]| <= longest
    ensures longest > 0 ==> exists i :: 0 <= i < |keys| && |keys[i]| == longest
    ensures k < 0 ==> forall i :: 0 <= i < |keys| ==> !(keys[i] <= line)
  {
    k, longest := -1, 0;
    var i := 0;
    while i < |keys|
      invariant 0 <= i <= |keys|
      invariant forall j :: 0 <= j < i ==> |keys[j]| <= longest
      invariant longest > 0 ==> exists j :: 0 <= j < i && |keys[j]| == longest
      invariant k >= 0 ==> k == FirstKey(line, keys, 0)
      invariant k < 0 ==> k == -1 && FirstKey(line, keys, 0) == FirstKey(line, keys, i)
      invariant k < 0 ==> forall j :: 0 <= j < i ==> !(keys[j] <= line)
    {
      if k < 0 && keys[i] <= line { k := i; }
      if |keys[i]| > longest { longest := |keys[i]|; }
      i := i + 1;
    }
  }

  /** The state the scan is in before a buffer: at the start of a line, or
      inside one that is being dropped. */
  ghost predicate Before(st: State, skip: bool, out: Found, keys: Keys) {
    st.out == out && (if skip then Hopeless(st.cur, keys) else st.cur == "")
  }

  /** What is kept of a line is worth reading on, or it fills the buffer. */
  ghost predicate Kept(line: string, keys: Keys) {
    line == "" || |line| >= BUF || !Hopeless(line, keys)
  }

  /** A line of the buffer, whole or cut short by its end. */
  method OneLine(line: string, whole: bool, skip: bool, out: Found, keys: Keys, ghost st: State)
    returns (drop: bool, out': Found)
    requires Before(st, skip, out, keys) && |line| < BUF + if whole then 0 else 1
    ensures whole ==> !drop && out' == Commit(out, st.cur + line, keys)
    ensures !whole ==> out' == out && if drop then Hopeless(st.cur + line, keys) else !skip && Kept(line, keys)
  {
    out' := out;
    if skip {
      HopelessStays(st.cur, line, keys, out);
      return !whole, out;
    }
    assert st.cur + line == line;
    var k, longest := MatchKey(line, keys);
    if !whole { return k < 0 && |line| >= longest, out; }
    if k >= 0 { out' := out[k := Cut(line[|keys[k]|..])]; }
    drop := false;
  }

  /** The state after a line, and after its end. */
  lemma {:induction false} LineFed(st: State, view: string, s: nat, len: nat, keys: Keys)
    requires s + len <= |view| && NoEnd(view, s, s + len)
    ensures var now, line := Feed(st, view, 0, s, keys), view[s..s + len];
            && Feed(st, view, 0, s + len, keys) == State(now.cur + line, now.out)
            && (s + len < |view| && view[s + len] == '\n' ==>
                  Feed(st, view, 0, s + len + 1, keys) == State("", Commit(now.out, now.cur + line, keys)))
  {
    FeedLine(Feed(st, view, 0, s, keys), view, s, s + len, keys);
    FeedMore(st, view, 0, s, s + len, keys);
  }

  /** Take the lines of a buffer: `s` bytes are done with, and the rest is the
      beginning of a line to be read on. */
  method Lines(view: string, skip0: bool, out0: Found, keys: Keys, ghost st: State)
    returns (s: nat, skip: bool, out: Found)
    requires Before(st, skip0, out0, keys) && |view| <= BUF
    ensures s <= |view| && out == Feed(st, view, 0, |view|, keys).out
    ensures Before(Feed(st, view, 0, s, keys), skip, out, keys) && (skip ==> s == |view|) && NoEnd(view, s, |view|)
    ensures Kept(view[s..], keys)
  {
    s, skip, out := 0, skip0, out0;
    ghost var now := st;
    while s < |view|
      invariant 0 <= s <= |view| && now == Feed(st, view, 0, s, keys) && Before(now, skip, out, keys)
      decreases |view| - s
    {
      var len := LineEnd(view, s);
      var line, whole := view[s..s + len], s + len < |view|;
      var drop;
      drop, out := OneLine(line, whole, skip, out, keys, now);
      LineFed(st, view, s, len, keys);
      if !whole {
        return if drop then |view| else s, drop, out;
      }
      s, skip := s + len + 1, false;
      now := State("", out);
    }
  }

  // ---- the file ----

  method Fill(buf: array<char>, have: nat, piece: string)
    requires have + |piece| <= buf.Length
    modifies buf
    ensures buf[..have + |piece|] == old(buf[..have]) + piece
  {
    var i := 0;
    while i < |piece|
      invariant 0 <= i <= |piece| && buf[..have] == old(buf[..have])
      invariant buf[have..have + i] == piece[..i]
    {
      buf[have + i] := piece[i];
      i := i + 1;
    }
    assert piece[..|piece|] == piece;
  }

  /** Move what is left to the front. */
  method Shift(buf: array<char>, s: nat, have: nat)
    requires s <= have <= buf.Length
    modifies buf
    ensures buf[..have - s] == old(buf[s..have])
  {
    var i := 0;
    while i < have - s
      invariant 0 <= i <= have - s
      invariant forall k :: 0 <= k < i ==> buf[k] == old(buf[s + k])
      invariant forall k :: i <= k < buf.Length ==> buf[k] == old(buf[k])
    {
      buf[i] := buf[s + i];
      i := i + 1;
    }
  }

  /** The buffer holds the line being read, all of it so far, or that line is
      one to drop. */
  ghost predicate Reading(text: string, keys: Keys, pos: nat, held: string, skip: bool, out: Found)
    requires pos <= |text|
  {
    && |held| < BUF && |held| <= pos && (skip ==> held == "")
    && held == text[pos - |held|..pos] && Kept(held, keys) && NoEnd(text, pos - |held|, pos)
    && Before(Feed(Start(), text, 0, pos - |held|, keys), skip, out, keys)
    && out == Scan(text, pos, keys)
  }

  /** A buffer's states are the text's. */
  lemma {:induction false} FeedHere(text: string, keys: Keys, base: nat, pos: nat, view: string, s: nat)
    requires base <= pos <= |text| && view == text[base..pos] && s <= |view|
    ensures Feed(Feed(Start(), text, 0, base, keys), view, 0, s, keys) == Feed(Start(), text, 0, base + s, keys)
  {
    FeedView(Feed(Start(), text, 0, base, keys), view, text, base, s, keys);
    FeedMore(Start(), text, 0, base, base + s, keys);
  }

  ghost predicate Taken(text: string, keys: Keys, base: nat, pos: nat, s: nat, skip: bool, out: Found)
    requires base + s <= pos <= |text|
  {
    && out == Scan(text, pos, keys) && Before(Feed(Start(), text, 0, base + s, keys), skip, out, keys)
    && (skip ==> base + s == pos) && NoEnd(text, base + s, pos) && Kept(text[base + s..pos], keys)
  }

  /** The lines of a piece, taken. */
  lemma {:induction false} ReadOn(text: string, keys: Keys, base: nat, pos: nat, view: string, s: nat, skip: bool,
                                  out: Found)
    requires base <= pos <= |text| && view == text[base..pos] && s <= |view| && (skip ==> s == |view|)
    requires NoEnd(view, s, |view|)
    requires Kept(view[s..], keys)
    requires var st := Feed(Start(), text, 0, base, keys);
             out == Feed(st, view, 0, |view|, keys).out && Before(Feed(st, view, 0, s, keys), skip, out, keys)
    ensures Taken(text, keys, base, pos, s, skip, out)
  {
    FeedHere(text, keys, base, pos, view, s);
    FeedHere(text, keys, base, pos, view, |view|);
    forall k | base + s <= k < pos ensures text[k] != '\n' { assert view[k - base] != '\n'; }
    assert view[s..] == text[base + s..pos];
  }

  lemma {:induction false} ReadKept(text: string, keys: Keys, base: nat, pos: nat, s: nat, skip: bool, out: Found)
    requires base + s <= pos <= |text| && Taken(text, keys, base, pos, s, skip, out)
    ensures pos - base - s < BUF ==> Reading(text, keys, pos, text[base + s..pos], skip, out)
    ensures pos - base - s >= BUF ==> Reading(text, keys, pos, "", true, out)
  {
    if pos - base - s >= BUF { LongLine(text, keys, base + s, pos, out); }
  }

  /** A line that fills the buffer before it ends is dropped. */
  lemma {:induction false} LongLine(text: string, keys: Keys, from: nat, pos: nat, out: Found)
    requires from + BUF <= pos <= |text| && Before(Feed(Start(), text, 0, from, keys), false, out, keys)
    requires out == Scan(text, pos, keys) && NoEnd(text, from, pos)
    ensures Reading(text, keys, pos, "", true, out)
  {
    var st := Feed(Start(), text, 0, from, keys);
    FeedLine(st, text, from, pos, keys);
    FeedMore(Start(), text, 0, from, pos, keys);
    assert st.cur + text[from..pos] == text[from..pos];
  }

  lemma {:induction false} Slices(text: string, a: nat, b: nat, c: nat)
    requires a <= b <= c <= |text|
    ensures text[a..b] + text[b..c] == text[a..c] && text[a..c][b - a..] == text[b..c]
  {
  }

  /** The lines of a buffer that stands at `base` of the text, and what is left of
      it. */
  method Take(view: string, skip0: bool, out0: Found, text: string, keys: Keys, ghost base: nat, ghost pos: nat)
    returns (s: nat, skip: bool, out: Found)
    requires base <= pos <= |text| && view == text[base..pos] && |view| <= BUF
    requires Before(Feed(Start(), text, 0, base, keys), skip0, out0, keys)
    ensures s <= |view|
    ensures |view| - s < BUF ==> Reading(text, keys, pos, view[s..], skip, out)
    ensures |view| - s == BUF ==> Reading(text, keys, pos, "", true, out)
  {
    s, skip, out := Lines(view, skip0, out0, keys, Feed(Start(), text, 0, base, keys));
    ReadOn(text, keys, base, pos, view, s, skip, out);
    ReadKept(text, keys, base, pos, s, skip, out);
    Slices(text, base, base + s, pos);
  }

  /** A piece more of the text in the buffer. */
  method Refill(buf: array<char>, have: nat, ghost held: string, text: string, pos: nat, n: nat) returns (view: string)
    requires have <= pos && pos + n <= |text| && have + n <= buf.Length
    requires held == buf[..have] == text[pos - have..pos]
    modifies buf
    ensures view == buf[..have + n] == text[pos - have..pos + n]
  {
    Fill(buf, have, text[pos..pos + n]);
    Slices(text, pos - have, pos, pos + n);
    view := buf[..have + n];
  }

  /** Another piece read into the buffer, and its lines taken. */
  method Piece(buf: array<char>, have0: nat, skip0: bool, out0: Found, text: string, keys: Keys, pos: nat, n: nat)
    returns (have: nat, skip: bool, out: Found)
    requires buf.Length == BUF && pos + n <= |text| && 0 < n <= BUF - have0
    requires have0 < BUF && Reading(text, keys, pos, buf[..have0], skip0, out0)
    modifies buf
    ensures have < BUF && Reading(text, keys, pos + n, buf[..have], skip, out)
  {
    var view := Refill(buf, have0, buf[..have0], text, pos, n);
    var s;
    s, skip, out := Take(view, skip0, out0, text, keys, pos - have0, pos + n);
    have := Move(buf, view, s);
    if have == BUF {
      have, skip := 0, true;
      assert buf[..0] == "";
    }
  }

  method Move(buf: array<char>, view: string, s: nat) returns (have: nat)
    requires s <= |view| <= buf.Length && view == buf[..|view|]
    modifies buf
    ensures have == |view| - s && buf[..have] == view[s..]
  {
    Shift(buf, s, |view|);
    have := |view| - s;
  }

  /** No key begins two lines: a line that ends is not one of a key found. */
  ghost predicate Once(text: string, keys: Keys) {
    forall n {:trigger text[n]} :: 0 <= n < |text| && text[n] == '\n' ==>
      var st := Feed(Start(), text, 0, n, keys);
      var k := FirstKey(st.cur, keys, 0);
      k < 0 || |st.cur| >= BUF || k !in st.out
  }

  lemma {:induction false} OnceStays(text: string, keys: Keys, n: nat, m: nat)
    requires Once(text, keys) && n <= m <= |text| && All(Scan(text, n, keys), keys)
    ensures Scan(text, m, keys) == Scan(text, n, keys)
    decreases m
  {
    if n < m {
      OnceStays(text, keys, n, m - 1);
      OnceStep(text, keys, m - 1);
    }
  }

  lemma {:induction false} OnceStep(text: string, keys: Keys, n: nat)
    requires Once(text, keys) && n < |text| && All(Scan(text, n, keys), keys)
    ensures Scan(text, n + 1, keys) == Scan(text, n, keys)
  {
    var k := FirstKey(Feed(Start(), text, 0, n, keys).cur, keys, 0);
    assert text[n] == '\n' && k >= 0 ==> k in Scan(text, n, keys);
  }

  // ---- where a read stops ----

  ghost function Cur(text: string, keys: Keys, pos: nat): string
    requires pos <= |text|
  {
    Feed(Start(), text, 0, pos, keys).cur
  }

  /** How much of the buffer the line being read takes at `pos`, however the text
      was read so far. */
  ghost function Have(text: string, keys: Keys, pos: nat): (n: nat)
    requires pos <= |text|
    ensures n < BUF
  {
    var cur := Cur(text, keys, pos);
    if Hopeless(cur, keys) then 0 else |cur|
  }

  lemma {:induction false} HaveIs(text: string, keys: Keys, pos: nat, held: string, skip: bool, out: Found)
    requires pos <= |text| && Reading(text, keys, pos, held, skip, out)
    ensures |held| == Have(text, keys, pos)
  {
    var from := pos - |held|;
    if !skip {
      FeedLine(Feed(Start(), text, 0, from, keys), text, from, pos, keys);
      FeedMore(Start(), text, 0, from, pos, keys);
      assert Cur(text, keys, pos) == "" + held == held;
    }
  }

  /** What a read that asks for at most `room` bytes returns. */
  function Wish(want: nat, room: nat, left: nat): (n: nat)
    requires room > 0 && left > 0
    ensures 0 < n <= room && n <= left
  {
    var most := if room < left then room else left;
    if want == 0 then 1 else if want < most then want else most
  }

  /** Where reading on from `pos` stops, `sizes` wishing the size of each piece. */
  ghost function StopAt(text: string, keys: Keys, sizes: nat -> nat, pos: nat, turn: nat): (q: nat)
    requires pos <= |text|
    ensures pos <= q <= |text|
    decreases |text| - pos
  {
    if pos == |text| || All(Scan(text, pos, keys), keys) then pos
    else StopAt(text, keys, sizes, pos + Wish(sizes(turn), BUF - Have(text, keys, pos), |text| - pos), turn + 1)
  }

  lemma {:induction false} StopEnds(text: string, keys: Keys, sizes: nat -> nat, pos: nat, turn: nat)
    requires pos <= |text|
    ensures var q := StopAt(text, keys, sizes, pos, turn); q == |text| || All(Scan(text, q, keys), keys)
    decreases |text| - pos
  {
    if pos < |text| && !All(Scan(text, pos, keys), keys) {
      StopEnds(text, keys, sizes, pos + Wish(sizes(turn), BUF - Have(text, keys, pos), |text| - pos), turn + 1);
    }
  }

  lemma {:induction false} StopStep(text: string, keys: Keys, sizes: nat -> nat, pos: nat, turn: nat, held: string,
                                    skip: bool, out: Found)
    requires pos < |text| && Reading(text, keys, pos, held, skip, out) && !All(out, keys)
    ensures var n := Wish(sizes(turn), BUF - |held|, |text| - pos);
            StopAt(text, keys, sizes, pos, turn) == StopAt(text, keys, sizes, pos + n, turn + 1)
  {
    HaveIs(text, keys, pos, held, skip, out);
  }

  // ---- what is found, in the text alone ----

  /** text[a..b] is a whole line of the first `q` bytes, shorter than a buffer, and key
      `k` is the first that begins it. */
  ghost predicate LineFor(text: string, keys: Keys, q: nat, k: nat, a: nat, b: nat) {
    && a <= b < q <= |text| && (a == 0 || text[a - 1] == '\n') && text[b] == '\n' && NoEnd(text, a, b) && b - a < 1024
    && k < |keys| && keys[k] <= text[a..b] && forall i :: 0 <= i < k ==> !(keys[i] <= text[a..b])
  }

  /** It is the last of its key. */
  ghost predicate LastFor(text: string, keys: Keys, q: nat, k: nat, a: nat, b: nat) {
    LineFor(text, keys, q, k, a, b) &&
    forall a': nat, b': nat :: LineFor(text, keys, q, k, a', b') ==> b' <= b
  }

  /** The bytes after the key, or the first 79 of them. */
  ghost predicate ValueOf(v: string, text: string, from: nat, b: nat)
    requires from <= b <= |text|
  {
    if b - from < 80 then v == text[from..b] else v == text[from..from + 79]
  }

  ghost predicate ValueFor(text: string, keys: Keys, q: nat, k: nat, v: string) {
    exists a: nat, b: nat :: LastFor(text, keys, q, k, a, b) && ValueOf(v, text, a + |keys[k]|, b)
  }

  ghost predicate NoLine(text: string, keys: Keys, q: nat, k: nat) {
    forall a: nat, b: nat :: !LineFor(text, keys, q, k, a, b)
  }

  /** For each key the value of its last line, and nothing for a key without one. */
  ghost predicate Finds(text: string, keys: Keys, q: nat, out: Found) {
    forall k: nat :: FindsOf(text, keys, q, k, out)
  }

  lemma {:induction false} FirstKeyIs(line: string, keys: Keys, i: nat)
    requires i <= |keys|
    ensures var k := FirstKey(line, keys, i);
            forall j :: i <= j < (if k < 0 then |keys| else k) ==> !(keys[j] <= line)
    decreases |keys| - i
  {
    if i < |keys| { FirstKeyIs(line, keys, i + 1); }
  }

  /** The line being read is what stands since the last end of a line. */
  lemma {:induction false} CurIs(text: string, keys: Keys, n: nat)
    requires n <= |text|
    ensures var a := n - |Cur(text, keys, n)|;
            && 0 <= a && Cur(text, keys, n) == text[a..n] && NoEnd(text, a, n) && (a == 0 || text[a - 1] == '\n')
    decreases n
  {
    if n > 0 {
      CurIs(text, keys, n - 1);
      var a := n - 1 - |Cur(text, keys, n - 1)|;
      if text[n - 1] != '\n' { assert text[a..n] == text[a..n - 1] + [text[n - 1]]; }
    }
  }

  lemma {:induction false} SameLine(text: string, a: nat, a': nat, b: nat)
    requires a <= b < |text| && a' <= b && NoEnd(text, a, b) && NoEnd(text, a', b)
    requires (a == 0 || text[a - 1] == '\n') && (a' == 0 || text[a' - 1] == '\n')
    ensures a == a'
  {
  }

  /** What is found of a key, at `n`. */
  ghost predicate FindsOf(text: string, keys: Keys, n: nat, k: nat, out: Found) {
    if k in out then ValueFor(text, keys, n, k, out[k]) else NoLine(text, keys, n, k)
  }

  /** One byte more, and no line of the key ends with it. */
  lemma {:induction false} StillFinds(text: string, keys: Keys, n: nat, next: nat, k: nat, out: Found)
    requires next == n + 1 <= |text| && FindsOf(text, keys, n, k, out)
    requires forall a: nat :: !LineFor(text, keys, next, k, a, n)
    ensures FindsOf(text, keys, next, k, out)
  {
    forall a: nat, b: nat | LineFor(text, keys, next, k, a, b) ensures LineFor(text, keys, n, k, a, b) {
      assert b == n ==> LineFor(text, keys, next, k, a, n);
    }
    if k in out {
      var a: nat, b: nat :| LastFor(text, keys, n, k, a, b) && ValueOf(out[k], text, a + |keys[k]|, b);
      assert LineFor(text, keys, next, k, a, b);
      assert LastFor(text, keys, next, k, a, b);
    }
  }

  /** Within a line nothing is found. */
  lemma {:induction false} FindsWithin(text: string, keys: Keys, n: nat, next: nat, out: Found)
    requires next == n + 1 <= |text| && text[n] != '\n' && Finds(text, keys, n, out)
    ensures Finds(text, keys, next, out)
  {
    forall k: nat ensures FindsOf(text, keys, next, k, out) {
      assert FindsOf(text, keys, n, k, out);
      StillFinds(text, keys, n, next, k, out);
    }
  }

  /** A line that ends gives its key its value, and no other key any. */
  lemma {:induction false} FindsLine(text: string, keys: Keys, a: nat, n: nat, next: nat, out: Found)
    requires a <= n && next == n + 1 <= |text| && text[n] == '\n' && NoEnd(text, a, n)
    requires (a == 0 || text[a - 1] == '\n') && Finds(text, keys, n, out)
    ensures Finds(text, keys, next, Commit(out, text[a..n], keys))
  {
    var line := text[a..n];
    var k0, out' := FirstKey(line, keys, 0), Commit(out, line, keys);
    FirstKeyIs(line, keys, 0);
    forall k: nat ensures FindsOf(text, keys, next, k, out') {
      assert FindsOf(text, keys, n, k, out);
      if k == k0 && |line| < BUF {
        NewLine(text, keys, a, n, next, k);
      } else {
        OldLine(text, keys, a, n, next, k, out);
      }
    }
  }

  lemma {:induction false} NewLine(text: string, keys: Keys, a: nat, n: nat, next: nat, k: nat)
    requires a <= n && next == n + 1 <= |text| && LineFor(text, keys, next, k, a, n)
    ensures ValueFor(text, keys, next, k, Cut(text[a..n][|keys[k]|..]))
  {
    assert LastFor(text, keys, next, k, a, n);
    var v := text[a..n][|keys[k]|..];
    assert v == text[a + |keys[k]|..n];
    assert |v| >= 80 ==> v[..79] == text[a + |keys[k]|..a + |keys[k]| + 79];
    assert ValueOf(Cut(v), text, a + |keys[k]|, n);
  }

  lemma {:induction false} OldLine(text: string, keys: Keys, a: nat, n: nat, next: nat, k: nat, out: Found)
    requires a <= n && next == n + 1 <= |text| && text[n] == '\n' && NoEnd(text, a, n)
    requires (a == 0 || text[a - 1] == '\n') && !LineFor(text, keys, next, k, a, n) && FindsOf(text, keys, n, k, out)
    ensures FindsOf(text, keys, next, k, out)
  {
    forall a': nat | LineFor(text, keys, next, k, a', n) ensures a' == a { SameLine(text, a, a', n); }
    StillFinds(text, keys, n, next, k, out);
  }

  /** One byte more of a scan: the line it ends, or nothing. */
  lemma {:induction false} ScanNext(text: string, keys: Keys, m: nat, n: nat) returns (a: nat)
    requires n == m + 1 <= |text|
    ensures a <= m && NoEnd(text, a, m) && (a == 0 || text[a - 1] == '\n')
    ensures Scan(text, n, keys) ==
            if text[m] == '\n' then Commit(Scan(text, m, keys), text[a..m], keys) else Scan(text, m, keys)
  {
    CurIs(text, keys, m);
    a := m - |Cur(text, keys, m)|;
  }

  /** A scan finds, of each key that begins a whole line, the value of the last. */
  lemma {:induction false} ScanFinds(text: string, keys: Keys, n: nat)
    requires n <= |text|
    ensures Finds(text, keys, n, Scan(text, n, keys))
    decreases n
  {
    if n > 0 {
      var m, out := n - 1, Scan(text, n - 1, keys);
      ScanFinds(text, keys, m);
      var a := ScanNext(text, keys, m, n);
      if text[m] == '\n' { FindsLine(text, keys, a, m, n, out); } else { FindsWithin(text, keys, m, n, out); }
    }
  }

  /** Read a text in pieces, until every key is found or the text ends: what is
      found is the scan of the text up to where that happens. */
  method Read(text: string, keys: Keys, sizes: nat -> nat) returns (out: Found)
    ensures out == Scan(text, StopAt(text, keys, sizes, 0, 0), keys)
    ensures var q := StopAt(text, keys, sizes, 0, 0);
            Finds(text, keys, q, out) && (q == |text| || forall k :: 0 <= k < |keys| ==> k in out)
  {
    var buf := new char[BUF];
    var have: nat, skip, turn, pos := 0, false, 0, 0;
    out := map[];
    ghost var q := StopAt(text, keys, sizes, 0, 0);
    SetOut(text, keys, sizes, buf[..0]);
    while pos < |text| && !All(out, keys)
      invariant 0 <= pos <= |text| && have < BUF && OnTheWay(text, keys, sizes, pos, turn, buf[..have], skip, out, q)
      decreases |text| - pos
    {
      var n := Wish(sizes(turn), BUF - have, |text| - pos);
      have, skip, out := Next(buf, have, skip, out, text, keys, sizes, pos, turn, n, q);
      pos, turn := pos + n, turn + 1;
    }
    Arrived(text, keys, sizes, pos, turn, buf[..have], skip, out, q);
    ScanFinds(text, keys, q);
  }

  ghost predicate OnTheWay(text: string, keys: Keys, sizes: nat -> nat, pos: nat, turn: nat, held: string, skip: bool,
                           out: Found, q: nat) {
    pos <= |text| && Reading(text, keys, pos, held, skip, out) && q == StopAt(text, keys, sizes, pos, turn)
  }

  lemma {:induction false} SetOut(text: string, keys: Keys, sizes: nat -> nat, held: string)
    requires held == ""
    ensures OnTheWay(text, keys, sizes, 0, 0, held, false, map[], StopAt(text, keys, sizes, 0, 0))
  {
  }

  lemma {:induction false} Arrived(text: string, keys: Keys, sizes: nat -> nat, pos: nat, turn: nat, held: string,
                                   skip: bool, out: Found, q: nat)
    requires OnTheWay(text, keys, sizes, pos, turn, held, skip, out, q) && (pos == |text| || All(out, keys))
    ensures q == pos && out == Scan(text, pos, keys)
  {
  }

  method Next(buf: array<char>, have0: nat, skip0: bool, out0: Found, text: string, keys: Keys, ghost sizes: nat -> nat,
              pos: nat, ghost turn: nat, n: nat, ghost q: nat) returns (have: nat, skip: bool, out: Found)
    requires buf.Length == BUF && pos < |text| && have0 < BUF && !All(out0, keys)
    requires OnTheWay(text, keys, sizes, pos, turn, buf[..have0], skip0, out0, q)
    requires n == Wish(sizes(turn), BUF - have0, |text| - pos)
    modifies buf
    ensures have < BUF && OnTheWay(text, keys, sizes, pos + n, turn + 1, buf[..have], skip, out, q)
  {
    ghost var held := buf[..have0];
    have, skip, out := Piece(buf, have0, skip0, out0, text, keys, pos, n);
    Onward(text, keys, sizes, pos, turn, n, held, skip0, out0, buf[..have], skip, out, q);
  }

  lemma {:induction false} Onward(text: string, keys: Keys, sizes: nat -> nat, pos: nat, turn: nat, n: nat,
                                  held: string, skip: bool, out: Found, held': string, skip': bool, out': Found, q: nat)
    requires pos < |text| && OnTheWay(text, keys, sizes, pos, turn, held, skip, out, q) && !All(out, keys)
    requires n == Wish(sizes(turn), BUF - |held|, |text| - pos) && Reading(text, keys, pos + n, held', skip', out')
    ensures OnTheWay(text, keys, sizes, pos + n, turn + 1, held', skip', out', q)
  {
    StopStep(text, keys, sizes, pos, turn, held, skip, out);
  }

  // ---- which stops there are ----

  lemma {:induction false} AllStays(text: string, keys: Keys, n: nat, m: nat)
    requires n <= m <= |text| && All(Scan(text, n, keys), keys)
    ensures All(Scan(text, m, keys), keys)
    decreases m
  {
    if n < m { AllStays(text, keys, n, m - 1); }
  }

  /** Every key has been found after `f` bytes, and not before. */
  ghost predicate First(text: string, keys: Keys, f: nat) {
    f <= |text| && All(Scan(text, f, keys), keys) && (f > 0 ==> !All(Scan(text, f - 1, keys), keys))
  }

  lemma {:induction false} FirstOf(text: string, keys: Keys, q: nat) returns (f: nat)
    requires q <= |text| && All(Scan(text, q, keys), keys)
    ensures f <= q && First(text, keys, f)
    decreases q
  {
    if q == 0 || !All(Scan(text, q - 1, keys), keys) { f := q; } else { f := FirstOf(text, keys, q - 1); }
  }

  /** The beginning of the line that completes the keys. */
  ghost function Begins(text: string, keys: Keys, f: nat): int
    requires 0 < f <= |text|
  {
    f - 1 - |Cur(text, keys, f - 1)|
  }

  /** A read may stop at `q`: at the end, if a key is missing; else from where the
      last key was found on, up to a buffer's length from the beginning of the
      line it was found in. */
  ghost predicate MayStop(text: string, keys: Keys, q: nat) {
    q <= |text| &&
    if !All(Scan(text, |text|, keys), keys) then q == |text|
    else exists f: nat :: First(text, keys, f) && f <= q && q <= if f == 0 then 0 else Begins(text, keys, f) + BUF
  }

  /** The line being read at `j`, as it was at `p`. */
  lemma {:induction false} CurBack(text: string, keys: Keys, p: nat, j: nat)
    requires p <= j <= |text| && |Cur(text, keys, j)| <= j && j - |Cur(text, keys, j)| <= p
    ensures Cur(text, keys, j) == Cur(text, keys, p) + text[p..j]
    decreases j
  {
    if p == j {
      assert text[p..j] == "";
    } else {
      CurFits(text, keys, j - 1);
      assert text[j - 1] != '\n';
      CurBack(text, keys, p, j - 1);
      assert text[p..j] == text[p..j - 1] + [text[j - 1]];
    }
  }

  lemma {:induction false} CurFits(text: string, keys: Keys, j: nat)
    requires j <= |text|
    ensures |Cur(text, keys, j)| <= j
    decreases j
  {
    if j > 0 { CurFits(text, keys, j - 1); }
  }

  /** The line that completes the keys is worth reading to its end. */
  lemma {:induction false} LastLineKept(text: string, keys: Keys, f: nat)
    requires 0 < f && First(text, keys, f)
    ensures !Hopeless(Cur(text, keys, f - 1), keys)
  {
    var st := Feed(Start(), text, 0, f - 1, keys);
    if Hopeless(st.cur, keys) {
      assert st.cur + "" == st.cur;
      HopelessStays(st.cur, "", keys, st.out);
    }
  }

  /** From no place before can a read reach further than from the beginning of that
      line. */
  lemma {:induction false} Reach(text: string, keys: Keys, f: nat, p: nat)
    requires 0 < f && First(text, keys, f) && p < f
    ensures p - Have(text, keys, p) <= Begins(text, keys, f)
  {
    CurFits(text, keys, f - 1);
    if p > Begins(text, keys, f) {
      CurBack(text, keys, p, f - 1);
      LastLineKept(text, keys, f);
      if Hopeless(Cur(text, keys, p), keys) { HopelessStays(Cur(text, keys, p), text[p..f - 1], keys, map[]); }
    }
  }

  /** One piece goes from `p`, where a key is missing, to `q`, where none is. */
  ghost predicate Jump(text: string, keys: Keys, p: nat, q: nat) {
    && p < q <= |text| && q <= p + BUF - Have(text, keys, p)
    && !All(Scan(text, p, keys), keys) && All(Scan(text, q, keys), keys)
  }

  /** A reading ends with the text, or with such a piece. */
  lemma {:induction false} LastJump(text: string, keys: Keys, sizes: nat -> nat, pos: nat, turn: nat) returns (p: nat)
    requires pos <= |text| && !All(Scan(text, pos, keys), keys)
    ensures var q := StopAt(text, keys, sizes, pos, turn);
            (q == |text| && !All(Scan(text, q, keys), keys)) || Jump(text, keys, p, q)
    decreases |text| - pos
  {
    p := pos;
    if pos < |text| {
      var q := pos + Wish(sizes(turn), BUF - Have(text, keys, pos), |text| - pos);
      if !All(Scan(text, q, keys), keys) { p := LastJump(text, keys, sizes, q, turn + 1); }
    }
  }

  /** However a text is read, it is read to such a place. */
  lemma {:induction false} StopsThere(text: string, keys: Keys, sizes: nat -> nat)
    ensures MayStop(text, keys, StopAt(text, keys, sizes, 0, 0))
  {
    if All(Scan(text, 0, keys), keys) {
      AtOnce(text, keys, sizes);
    } else {
      var p := LastJump(text, keys, sizes, 0, 0);
      var q := StopAt(text, keys, sizes, 0, 0);
      if Jump(text, keys, p, q) { Arrives(text, keys, p, q); }
    }
  }

  lemma {:induction false} AtOnce(text: string, keys: Keys, sizes: nat -> nat)
    requires All(Scan(text, 0, keys), keys)
    ensures StopAt(text, keys, sizes, 0, 0) == 0 && MayStop(text, keys, 0)
  {
    AllStays(text, keys, 0, |text|);
    assert First(text, keys, 0);
  }

  lemma {:induction false} Arrives(text: string, keys: Keys, pos: nat, q: nat)
    requires Jump(text, keys, pos, q)
    ensures MayStop(text, keys, q)
  {
    var f := FirstOf(text, keys, q);
    if f <= pos { AllStays(text, keys, f, pos); }
    Reach(text, keys, f, pos);
    AllStays(text, keys, q, |text|);
  }

  /** A byte at a time to the beginning of the line, and the rest at once. */
  function Split(begins: nat, q: nat): nat -> nat
    requires begins <= q
  {
    (turn: nat) => if turn < begins then 1 else q - begins
  }

  lemma {:induction false} SplitStops(text: string, keys: Keys, f: nat, b: nat, q: nat, i: nat)
    requires First(text, keys, f) && 0 < f <= q <= |text| && b == Begins(text, keys, f) && q <= b + BUF && i <= b
    ensures StopAt(text, keys, Split(b, q), i, i) == q
    decreases b - i
  {
    if All(Scan(text, i, keys), keys) { AllStays(text, keys, i, f - 1); }
    if i < b { SplitStops(text, keys, f, b, q, i + 1); } else { LastPiece(text, keys, f, b, q); }
  }

  lemma {:induction false} LastPiece(text: string, keys: Keys, f: nat, b: nat, q: nat)
    requires First(text, keys, f) && 0 < f <= q <= |text| && b == Begins(text, keys, f) && q <= b + BUF
    requires !All(Scan(text, b, keys), keys)
    ensures StopAt(text, keys, Split(b, q), b, b) == q
  {
    CurFits(text, keys, f - 1);
    CurBack(text, keys, b, f - 1);
    assert Have(text, keys, b) == 0;
    AllStays(text, keys, f, q);
    assert Wish(Split(b, q)(b), BUF, |text| - b) == q - b;
  }

  lemma {:induction false} NeverAll(text: string, keys: Keys, sizes: nat -> nat)
    requires !All(Scan(text, |text|, keys), keys)
    ensures StopAt(text, keys, sizes, 0, 0) == |text|
  {
    var q := StopAt(text, keys, sizes, 0, 0);
    StopEnds(text, keys, sizes, 0, 0);
    if q < |text| { AllStays(text, keys, q, |text|); }
  }

  /** A reading that stops at a given place. */
  lemma {:induction false} StopAfter(text: string, keys: Keys, f: nat, q: nat) returns (sizes: nat -> nat)
    requires First(text, keys, f) && f <= q <= |text| && q <= if f == 0 then 0 else Begins(text, keys, f) + BUF
    ensures StopAt(text, keys, sizes, 0, 0) == q
  {
    if f == 0 {
      sizes := Split(0, q);
    } else {
      CurFits(text, keys, f - 1);
      sizes := Split(Begins(text, keys, f), q);
      SplitStops(text, keys, f, Begins(text, keys, f), q, 0);
    }
  }

  /** Each of these places is where some reading stops. */
  lemma {:induction false} SomeStops(text: string, keys: Keys, q: nat) returns (sizes: nat -> nat)
    requires MayStop(text, keys, q)
    ensures StopAt(text, keys, sizes, 0, 0) == q
  {
    if !All(Scan(text, |text|, keys), keys) {
      sizes := Split(0, q);
      NeverAll(text, keys, sizes);
    } else {
      var f: nat :| First(text, keys, f) && f <= q && q <= if f == 0 then 0 else Begins(text, keys, f) + BUF;
      sizes := StopAfter(text, keys, f, q);
    }
  }

  /** Every way of reading the text finds what the whole text gives. */
  ghost predicate SplitsAgree(text: string, keys: Keys) {
    forall sizes :: Scan(text, StopAt(text, keys, sizes, 0, 0), keys) == Scan(text, |text|, keys)
  }

  /** That is found wherever a reading may stop. */
  ghost predicate StopsAgree(text: string, keys: Keys) {
    forall q: nat :: MayStop(text, keys, q) ==> Scan(text, q, keys) == Scan(text, |text|, keys)
  }

  lemma {:induction false} SplitsAgreeExactly(text: string, keys: Keys)
    ensures SplitsAgree(text, keys) <==> StopsAgree(text, keys)
  {
    if SplitsAgree(text, keys) {
      forall q: nat | MayStop(text, keys, q) ensures Scan(text, q, keys) == Scan(text, |text|, keys) {
        var sizes := SomeStops(text, keys, q);
        assert Scan(text, StopAt(text, keys, sizes, 0, 0), keys) == Scan(text, |text|, keys);
      }
    }
    if StopsAgree(text, keys) {
      forall sizes ensures Scan(text, StopAt(text, keys, sizes, 0, 0), keys) == Scan(text, |text|, keys) {
        StopsThere(text, keys, sizes);
        assert MayStop(text, keys, StopAt(text, keys, sizes, 0, 0));
      }
    }
  }

  /** A text in which no key begins two lines is one. */
  lemma {:induction false} OnceAgrees(text: string, keys: Keys, sizes: nat -> nat)
    requires Once(text, keys)
    ensures Scan(text, StopAt(text, keys, sizes, 0, 0), keys) == Scan(text, |text|, keys)
  {
    var q := StopAt(text, keys, sizes, 0, 0);
    StopEnds(text, keys, sizes, 0, 0);
    if q < |text| { OnceStays(text, keys, q, |text|); }
  }

  lemma {:induction false} Taken1(out: Found, c: char, keys: Keys)
    requires keys == ["A:"]
    ensures Commit(out, ['A', ':', c], keys) == out[0 := [c]]
  {
    var line := ['A', ':', c];
    assert keys[0] <= line;
    assert FirstKey(line, keys, 0) == 0;
    assert line[2..] == [c];
  }

  lemma {:induction false} FirstScan(text: string, keys: Keys)
    requires text == "A:1\nA:2\n" && keys == ["A:"]
    ensures Cur(text, keys, 3) == "A:1" && Scan(text, 3, keys) == map[] && Scan(text, 4, keys) == map[0 := "1"]
  {
    assert text[0..3] == "A:1";
    FeedLine(Start(), text, 0, 3, keys);
    Taken1(map[], '1', keys);
  }

  lemma {:induction false} SecondScan(text: string, keys: Keys)
    requires text == "A:1\nA:2\n" && keys == ["A:"] && Scan(text, 4, keys) == map[0 := "1"]
    ensures Scan(text, 8, keys) == map[0 := "2"]
  {
    assert text[4..7] == "A:2";
    ScanByLines(text, 4, 7, keys);
    Taken1(map[0 := "1"], '2', keys);
  }

  /** It is not so of every text: of two lines for one key, a reading that stops at
      the first finds the first value, and the whole text gives the second. */
  lemma {:induction false} SecondValueShows(text: string, keys: Keys)
    requires text == "A:1\nA:2\n" && keys == ["A:"]
    ensures MayStop(text, keys, 4) && MayStop(text, keys, 8) && Scan(text, 4, keys) != Scan(text, 8, keys)
    ensures !SplitsAgree(text, keys)
  {
    FirstScan(text, keys);
    SecondScan(text, keys);
    var none: Found := map[];
    assert 0 !in none && !All(none, keys);
    assert Scan(text, 4, keys)[0] != Scan(text, 8, keys)[0];
    assert First(text, keys, 4) && Begins(text, keys, 4) == 0;
    assert |text| == 8 && MayStop(text, keys, 4);
    SplitsAgreeExactly(text, keys);
  }
}
