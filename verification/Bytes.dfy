/** Little-endian numbers, fixed-width fields one after the other, and bitmaps. */
module Bytes {
  type Byte = n: nat | n < 256

  function Pow256(w: nat): nat { if w == 0 then 1 else 256 * Pow256(w - 1) }

  function LE(w: nat, n: nat): (b: seq<Byte>)
    ensures |b| == w
  {
    if w == 0 then [] else [n % 256] + LE(w - 1, n / 256)
  }

  function Num(b: seq<Byte>): (n: nat)
    ensures n < Pow256(|b|)
  {
    if b == [] then 0 else b[0] + 256 * Num(b[1..])
  }

  lemma {:induction false} NumOfLE(w: nat, n: nat)
    requires n < Pow256(w)
    ensures Num(LE(w, n)) == n
  {
    if w > 0 {
      NumOfLE(w - 1, n / 256);
      assert LE(w, n)[1..] == LE(w - 1, n / 256);
    }
  }

  lemma {:induction false} LEOfNum(b: seq<Byte>)
    ensures LE(|b|, Num(b)) == b
  {
    if b != [] {
      LEOfNum(b[1..]);
      assert (b[0] + 256 * Num(b[1..])) % 256 == b[0];
      assert (b[0] + 256 * Num(b[1..])) / 256 == Num(b[1..]);
      assert [b[0]] + b[1..] == b;
    }
  }

  /** A field of a page has a value exactly when its bytes are that value's bytes. */
  lemma FieldIs(b: seq<Byte>, w: nat, n: nat)
    requires |b| == w && n < Pow256(w)
    ensures Num(b) == n <==> b == LE(w, n)
  {
    LEOfNum(b);
    NumOfLE(w, n);
  }

  function Filled(n: nat, x: Byte): (b: seq<Byte>)
    ensures |b| == n && forall i :: 0 <= i < n ==> b[i] == x
  {
    seq(n, _ => x)
  }

  lemma Powers()
    ensures Pow256(2) == 0x1_0000 && Pow256(4) == 0x1_0000_0000 && Pow256(8) == 0x1_0000_0000_0000_0000
  {
    assert Pow256(1) == 256 * Pow256(0);
    assert Pow256(3) == 256 * Pow256(2) && Pow256(4) == 256 * Pow256(3);
    assert Pow256(5) == 256 * Pow256(4) && Pow256(6) == 256 * Pow256(5);
    assert Pow256(7) == 256 * Pow256(6) && Pow256(8) == 256 * Pow256(7);
  }

  // ----- Fields one after the other ---------------------------------------------------------------------

  function Total(ws: seq<nat>): nat { if ws == [] then 0 else ws[0] + Total(ws[1..]) }

  predicate Fits(ws: seq<nat>, vs: seq<nat>) {
    |ws| == |vs| && forall i :: 0 <= i < |ws| ==> vs[i] < Pow256(ws[i])
  }

  function Pack(ws: seq<nat>, vs: seq<nat>): (b: seq<Byte>)
    requires |ws| == |vs|
    ensures |b| == Total(ws)
  {
    if ws == [] then [] else LE(ws[0], vs[0]) + Pack(ws[1..], vs[1..])
  }

  function Unpack(ws: seq<nat>, b: seq<Byte>): (vs: seq<nat>)
    requires |b| == Total(ws)
    ensures |vs| == |ws|
  {
    if ws == [] then [] else [Num(b[..ws[0]])] + Unpack(ws[1..], b[ws[0]..])
  }

  lemma {:induction false} UnpackOfPack(ws: seq<nat>, vs: seq<nat>)
    requires Fits(ws, vs)
    ensures Unpack(ws, Pack(ws, vs)) == vs
  {
    if ws != [] {
      var b := Pack(ws, vs);
      assert b[..ws[0]] == LE(ws[0], vs[0]);
      assert b[ws[0]..] == Pack(ws[1..], vs[1..]);
      NumOfLE(ws[0], vs[0]);
      UnpackOfPack(ws[1..], vs[1..]);
      assert [vs[0]] + vs[1..] == vs;
    }
  }

  lemma {:induction false} PackOfUnpack(ws: seq<nat>, b: seq<Byte>)
    requires |b| == Total(ws)
    ensures Fits(ws, Unpack(ws, b)) && Pack(ws, Unpack(ws, b)) == b
  {
    if ws == [] {
    } else {
      var vs := Unpack(ws, b);
      PackOfUnpack(ws[1..], b[ws[0]..]);
      LEOfNum(b[..ws[0]]);
      assert vs[1..] == Unpack(ws[1..], b[ws[0]..]);
      assert b[..ws[0]] + b[ws[0]..] == b;
      forall i | 0 <= i < |ws| ensures vs[i] < Pow256(ws[i]) {
        if i > 0 { assert vs[i] == vs[1..][i - 1] && ws[i] == ws[1..][i - 1]; }
      }
    }
  }

  /** A packed record cut after some fields. */
  lemma {:induction false} TotalSplit(ws: seq<nat>, us: seq<nat>)
    ensures Total(ws + us) == Total(ws) + Total(us)
  {
    if ws == [] {
      assert ws + us == us;
    } else {
      TotalSplit(ws[1..], us);
      assert (ws + us)[1..] == ws[1..] + us;
    }
  }

  // ----- Cutting a record into its parts ----------------------------------------------------------------

  lemma Cut(p: seq<Byte>, b: nat, c: nat)
    requires b <= c <= |p|
    ensures p[..c] == p[..b] + p[b..c]
  {
  }

  lemma Join(p: seq<Byte>, a: nat, b: nat, c: nat)
    requires a <= b <= c <= |p|
    ensures p[a..c] == p[a..b] + p[b..c]
  {
  }

  lemma CutFive(p: seq<Byte>, a: nat, b: nat, c: nat, d: nat, e: nat)
    requires a <= b <= c <= d <= e <= |p|
    ensures p[..e] == p[..a] + p[a..b] + p[b..c] + p[c..d] + p[d..e]
  {
    Cut(p, a, b);
    Cut(p, b, c);
    Cut(p, c, d);
    Cut(p, d, e);
  }

  lemma SubSlice(p: seq<Byte>, a: nat, b: nat, i: nat, j: nat)
    requires a <= b <= |p| && i <= j <= b - a
    ensures p[a..b][i..j] == p[a + i..a + j]
  {
    var q, r := p[a..b][i..j], p[a + i..a + j];
    forall k | 0 <= k < |r| ensures q[k] == r[k] {
      assert q[k] == p[a..b][i + k] && r[k] == p[a + i + k];
    }
  }

  // ----- Lists of 32-bit words --------------------------------------------------------------------------

  function Words(fields: seq<nat>): seq<Byte> {
    if fields == [] then [] else Words(fields[..|fields| - 1]) + LE(4, fields[|fields| - 1])
  }

  lemma {:induction false} WordsLength(fields: seq<nat>)
    ensures |Words(fields)| == 4 * |fields|
  {
    if fields != [] { WordsLength(fields[..|fields| - 1]); }
  }

  predicate WordAt(b: seq<Byte>, fields: seq<nat>, i: nat)
    requires |b| == 4 * |fields| && i < |fields|
  {
    Num(b[4 * i..4 * i + 4]) == fields[i]
  }

  predicate WordsMatch(b: seq<Byte>, fields: seq<nat>)
    requires |b| == 4 * |fields|
  {
    forall i :: 0 <= i < |fields| ==> WordAt(b, fields, i)
  }

  lemma WordsStep(b: seq<Byte>, fields: seq<nat>, n: nat)
    requires |b| == 4 * |fields| && |fields| == n + 1
    ensures WordsMatch(b, fields) <==> WordsMatch(b[..4 * n], fields[..n]) && Num(b[4 * n..]) == fields[n]
  {
    hide Num;
    assert b[4 * n..4 * n + 4] == b[4 * n..];
    forall i | 0 <= i < n ensures WordAt(b[..4 * n], fields[..n], i) <==> WordAt(b, fields, i) {
      assert b[..4 * n][4 * i..4 * i + 4] == b[4 * i..4 * i + 4];
    }
    if WordsMatch(b, fields) { assert WordAt(b, fields, n); }
    if WordsMatch(b[..4 * n], fields[..n]) && Num(b[4 * n..]) == fields[n] {
      forall i | 0 <= i < |fields| ensures WordAt(b, fields, i) {
        if i < n { assert WordAt(b[..4 * n], fields[..n], i); }
      }
    }
  }

  /** A list of words is the one whose bytes these are. */
  lemma {:induction false} WordsIff(b: seq<Byte>, fields: seq<nat>)
    requires |b| == 4 * |fields| && forall i :: 0 <= i < |fields| ==> fields[i] < 0x1_0000_0000
    ensures WordsMatch(b, fields) <==> b == Words(fields)
  {
    hide LE, Num, WordsMatch;
    if fields == [] {
      assert b == [] && WordsMatch([], []) by { WordsNone(b, fields); }
    } else {
      var n := |fields| - 1;
      WordsStep(b, fields, n);
      WordsIff(b[..4 * n], fields[..n]);
      WordsLength(fields[..n]);
      Powers();
      FieldIs(b[4 * n..], 4, fields[n]);
      assert b == b[..4 * n] + b[4 * n..];
    }
  }

  lemma WordsNone(b: seq<Byte>, fields: seq<nat>)
    requires |b| == |fields| == 0
    ensures WordsMatch(b, fields)
  {
  }

  // ----- Bitmaps ----------------------------------------------------------------------------------------

  function Pow2(w: nat): nat { if w == 0 then 1 else 2 * Pow2(w - 1) }

  /** The number whose set bits below `w` are the members of `s`. */
  function Bits(s: set<nat>, w: nat): (n: nat)
    ensures n < Pow2(w)
  {
    if w == 0 then 0 else Bits(s, w - 1) + (if w - 1 in s then Pow2(w - 1) else 0)
  }

  function Members(n: nat, w: nat): (s: set<nat>)
    requires n < Pow2(w)
    ensures forall i :: i in s ==> i < w
  {
    if w == 0 then {}
    else if n >= Pow2(w - 1) then Members(n - Pow2(w - 1), w - 1) + {w - 1}
    else Members(n, w - 1)
  }

  lemma {:induction false} PowersAgree(w: nat)
    ensures Pow2(8 * w) == Pow256(w)
  {
    if w > 0 {
      PowersAgree(w - 1);
      PowEight(8 * (w - 1));
    }
  }

  lemma PowEight(n: nat)
    ensures Pow2(n + 8) == 256 * Pow2(n)
  {
    assert Pow2(n + 8) == 2 * Pow2(n + 7) && Pow2(n + 7) == 2 * Pow2(n + 6) && Pow2(n + 6) == 2 * Pow2(n + 5);
    assert Pow2(n + 5) == 2 * Pow2(n + 4) && Pow2(n + 4) == 2 * Pow2(n + 3) && Pow2(n + 3) == 2 * Pow2(n + 2);
    assert Pow2(n + 2) == 2 * Pow2(n + 1) && Pow2(n + 1) == 2 * Pow2(n);
  }

  lemma PowerValues()
    ensures Pow256(4) == 0x1_0000_0000 && Pow256(8) == 0x1_0000_0000_0000_0000
    ensures Pow2(32) == Pow256(4) && Pow2(64) == Pow256(8)
  {
    PowersAgree(4);
    PowersAgree(8);
    assert Pow256(4) == 256 * Pow256(3) && Pow256(3) == 256 * Pow256(2) && Pow256(2) == 256 * Pow256(1);
    assert Pow256(8) == 256 * Pow256(7) && Pow256(7) == 256 * Pow256(6) && Pow256(6) == 256 * Pow256(5)
      && Pow256(5) == 256 * Pow256(4);
  }

  lemma {:induction false} BitsIgnore(s: set<nat>, x: nat, w: nat)
    requires w <= x
    ensures Bits(s + {x}, w) == Bits(s, w)
  {
    if w > 0 { BitsIgnore(s, x, w - 1); }
  }

  lemma {:induction false} BitsOfMembers(n: nat, w: nat)
    requires n < Pow2(w)
    ensures Bits(Members(n, w), w) == n
  {
    if w > 0 {
      if n >= Pow2(w - 1) {
        BitsOfMembers(n - Pow2(w - 1), w - 1);
        BitsIgnore(Members(n - Pow2(w - 1), w - 1), w - 1, w - 1);
      } else {
        BitsOfMembers(n, w - 1);
      }
    }
  }

  lemma {:induction false} MembersOfBits(s: set<nat>, w: nat)
    ensures forall i: nat :: i in Members(Bits(s, w), w) <==> i in s && i < w
  {
    if w > 0 { MembersOfBits(s, w - 1); }
  }

  lemma MembersOfAll(s: set<nat>, w: nat)
    requires forall i :: i in s ==> i < w
    ensures Members(Bits(s, w), w) == s
  {
    MembersOfBits(s, w);
  }
}
