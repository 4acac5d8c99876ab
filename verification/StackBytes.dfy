/** A mapped region as bytes: storing and reading words and strings. */
module StackBytes {

  type Byte = x: int | 0 <= x < 256
  const WORD := 0x1_0000_0000_0000_0000

  /** `s` is what is stored at `o`. */
  ghost predicate Holds(m: seq<Byte>, o: int, s: seq<Byte>) {
    0 <= o && o + |s| <= |m| && forall k :: 0 <= k < |s| ==> m[o + k] == s[k]
  }

  /** Only the `n` bytes at `o` differ. */
  ghost predicate Frame(m: seq<Byte>, m': seq<Byte>, o: int, n: int) {
    |m'| == |m| && forall k :: 0 <= k < |m| && (k < o || k >= o + n) ==> m'[k] == m[k]
  }

  lemma {:induction false} HoldsFrame(m: seq<Byte>, m': seq<Byte>, o: int, n: int, at: int, s: seq<Byte>)
    requires Holds(m, at, s) && Frame(m, m', o, n) && (at + |s| <= o || o + n <= at)
    ensures Holds(m', at, s)
  {
  }

  // ---- little-endian words ----

  function Enc(w: nat, n: nat): (s: seq<Byte>)
    ensures |s| == n
  {
    if n == 0 then [] else [w % 256] + Enc(w / 256, n - 1)
  }

  /** The least significant byte is the first, and the next follows it. */
  lemma {:induction false} LowByteFirst(m: seq<Byte>, o: nat, w: nat)
    requires HasWord(m, o, w)
    ensures m[o] == w % 256 && m[o + 1] == (w / 256) % 256 && m[o + 2] == (w / 65536) % 256
  {
    var s, s1, s2 := Enc(w, 8), Enc(w / 256, 7), Enc(w / 256 / 256, 6);
    assert s[0] == w % 256 && s[1] == s1[0] && s[2] == s1[1] && s1[1] == s2[0];
    assert m[o + 0] == s[0] && m[o + 1] == s[1] && m[o + 2] == s[2];
  }

  /** The number the `n` bytes at `o` spell. */
  function Dec(m: seq<Byte>, o: nat, n: nat): nat
    requires o + n <= |m|
    decreases n
  {
    if n == 0 then 0 else m[o] + 256 * Dec(m, o + 1, n - 1)
  }

  function Pow256(n: nat): nat {
    if n == 0 then 1 else 256 * Pow256(n - 1)
  }

  lemma {:induction false} DecEnc(m: seq<Byte>, o: nat, w: nat, n: nat)
    requires w < Pow256(n) && Holds(m, o, Enc(w, n))
    ensures Dec(m, o, n) == w
    decreases n
  {
    if n > 0 {
      var s, rest := Enc(w, n), Enc(w / 256, n - 1);
      assert s[0] == w % 256 && s[1..] == rest;
      assert Holds(m, o + 1, rest) by {
        forall k | 0 <= k < |rest| ensures m[o + 1 + k] == rest[k] { assert m[o + (k + 1)] == s[k + 1]; }
      }
      DecEnc(m, o + 1, w / 256, n - 1);
    }
  }

  function WordAt(m: seq<Byte>, o: nat): nat
    requires o + 8 <= |m|
  {
    Dec(m, o, 8)
  }

  ghost predicate HasWord(m: seq<Byte>, o: int, w: nat) {
    Holds(m, o, Enc(w, 8))
  }

  /** A 64-bit word reads back as it was stored. */
  lemma {:induction false} WordReads(m: seq<Byte>, o: nat, w: nat)
    requires w < WORD && HasWord(m, o, w)
    ensures WordAt(m, o) == w
  {
    assert Pow256(4) == 0x1_0000_0000;
    assert Pow256(8) == WORD;
    DecEnc(m, o, w, 8);
  }

  method PutBytes(mem: array<Byte>, o: nat, s: seq<Byte>)
    requires o + |s| <= mem.Length
    modifies mem
    ensures Holds(mem[..], o, s) && Frame(old(mem[..]), mem[..], o, |s|)
  {
    var i := 0;
    while i < |s|
      invariant 0 <= i <= |s|
      invariant forall k :: 0 <= k < i ==> mem[o + k] == s[k]
      invariant forall k :: 0 <= k < mem.Length && (k < o || k >= o + i) ==> mem[k] == old(mem[k])
    {
      mem[o + i] := s[i];
      i := i + 1;
    }
  }

  method PutWord(mem: array<Byte>, o: nat, w: nat)
    requires o + 8 <= mem.Length && w < WORD
    modifies mem
    ensures HasWord(mem[..], o, w) && Frame(old(mem[..]), mem[..], o, 8)
  {
    PutBytes(mem, o, Enc(w, 8));
  }

  method GetWord(mem: array<Byte>, o: nat) returns (w: nat)
    requires o + 8 <= mem.Length
    ensures w == WordAt(mem[..], o)
  {
    w := WordAt(mem[..], o);
  }

  // ---- strings ----

  /** The string at `o`: the bytes before the first zero. */
  function ReadStr(m: seq<Byte>, o: nat): seq<Byte>
    requires o <= |m|
    decreases |m| - o
  {
    if o == |m| || m[o] == 0 then [] else [m[o]] + ReadStr(m, o + 1)
  }

  lemma {:induction false} StrReads(m: seq<Byte>, o: nat, s: seq<Byte>)
    requires 0 !in s && Holds(m, o, s + [0])
    ensures ReadStr(m, o) == s
    decreases |s|
  {
    var t := s + [0];
    assert m[o] == t[0];
    if s != [] {
      assert s[1..] + [0] == t[1..];
      assert Holds(m, o + 1, t[1..]) by {
        forall k | 0 <= k < |s| ensures m[o + 1 + k] == t[1..][k] { assert m[o + (k + 1)] == t[k + 1]; }
      }
      assert 0 !in s[1..] by { assert forall k :: 0 <= k < |s| - 1 ==> s[1..][k] == s[k + 1]; }
      StrReads(m, o + 1, s[1..]);
    }
  }
}
