/** File contents as byte sequences, and what positioned reads and writes do to them.

    A write beyond the end of a file fills the gap with zero bytes; a write of no bytes
    changes nothing, not even the length. */
module Files {

  newtype byte = x: int | 0 <= x < 256

  type Content = seq<byte>

  /** One positioned write. */
  datatype Patch = Patch(off: nat, data: Content)

  datatype Option<+T> = None | Some(value: T)

  function Min(x: int, y: int): int {
    if x >= y then y else x
  }

  function Max(x: int, y: int): int {
    if x >= y then x else y
  }

  function Zeros(n: nat): (z: Content)
    ensures |z| == n
    ensures forall i :: 0 <= i < n ==> z[i] == 0
  {
    seq(n, _ => 0)
  }

  function WriteAt(f: Content, off: nat, d: Content): Content {
    if d == [] then f
    else
      var g := if |f| < off then f + Zeros(off - |f|) else f;
      g[..off] + d + (if off + |d| < |g| then g[off + |d|..] else [])
  }

  function ReadAt(f: Content, off: nat, n: nat): Content {
    if off >= |f| then [] else f[off..Min(off + n, |f|)]
  }

  /** The byte at position i; positions past the end read as zero. */
  function At(f: Content, i: nat): byte {
    if i < |f| then f[i] else 0
  }

  function ApplyAll(f: Content, ws: seq<Patch>): Content
    decreases |ws|
  {
    if ws == [] then f else ApplyAll(WriteAt(f, ws[0].off, ws[0].data), ws[1..])
  }

  predicate Covers(w: Patch, i: nat) {
    w.off <= i < w.off + |w.data|
  }

  /** The byte the last write covering position i left there. */
  function Last(ws: seq<Patch>, i: nat): Option<byte> {
    if ws == [] then None
    else
      var w := ws[|ws| - 1];
      if Covers(w, i) then Some(w.data[i - w.off]) else Last(ws[..|ws| - 1], i)
  }

  /** How far the writes reach. */
  function Reach(ws: seq<Patch>): nat {
    if ws == [] then 0
    else
      var w := ws[|ws| - 1];
      Max(Reach(ws[..|ws| - 1]), if w.data == [] then 0 else w.off + |w.data|)
  }

  lemma WriteAtBytes(f: Content, off: nat, d: Content)
    ensures |WriteAt(f, off, d)| == Max(|f|, if d == [] then 0 else off + |d|)
    ensures forall i: nat :: At(WriteAt(f, off, d), i) == if off <= i < off + |d| then d[i - off] else At(f, i)
  {
  }

  lemma SameBytes(f: Content, g: Content)
    requires |f| == |g|
    requires forall i: nat :: At(f, i) == At(g, i)
    ensures f == g
  {
    forall i | 0 <= i < |f| ensures f[i] == g[i] {
      assert At(f, i) == At(g, i);
    }
  }

  lemma {:induction false} ApplyAllSnoc(f: Content, ws: seq<Patch>, w: Patch)
    ensures ApplyAll(f, ws + [w]) == WriteAt(ApplyAll(f, ws), w.off, w.data)
    decreases |ws|
  {
    if ws == [] {
      assert ws + [w] == [w];
    } else {
      assert (ws + [w])[1..] == ws[1..] + [w];
      ApplyAllSnoc(WriteAt(f, ws[0].off, ws[0].data), ws[1..], w);
    }
  }

  /** Every byte of a file after a series of writes: the last write covering it decides it,
      and where none does the old byte stays. */
  lemma {:induction false} ApplyAllBytes(f: Content, ws: seq<Patch>)
    ensures |ApplyAll(f, ws)| == Max(|f|, Reach(ws))
    ensures forall i: nat :: At(ApplyAll(f, ws), i) == if Last(ws, i).Some? then Last(ws, i).value else At(f, i)
  {
    if ws != [] {
      var n := |ws| - 1;
      ApplyAllBytes(f, ws[..n]);
      ApplyAllSnoc(f, ws[..n], ws[n]);
      assert ws == ws[..n] + [ws[n]];
      WriteAtBytes(ApplyAll(f, ws[..n]), ws[n].off, ws[n].data);
    }
  }

  predicate Silent(last: Option<byte>, b: byte) {
    last == None || last.value == b
  }

  /** A write agrees with a backlog when, wherever the backlog also writes, the backlog's
      last word is the byte this write stores. Range-disjoint writes always agree. */
  ghost predicate Agrees(w: Patch, ws: seq<Patch>) {
    forall i: nat :: Covers(w, i) ==> Silent(Last(ws, i), w.data[i - w.off])
  }

  predicate Disjoint(a: Patch, b: Patch) {
    |a.data| == 0 || |b.data| == 0 || a.off + |a.data| <= b.off || b.off + |b.data| <= a.off
  }

  lemma {:induction false} DisjointAgrees(w: Patch, ws: seq<Patch>)
    requires forall k :: 0 <= k < |ws| ==> Disjoint(w, ws[k])
    ensures forall i: nat :: Covers(w, i) ==> Last(ws, i) == None
    ensures Agrees(w, ws)
  {
    if ws != [] {
      var n := |ws| - 1;
      assert Disjoint(w, ws[n]);
      DisjointAgrees(w, ws[..n]);
    }
  }

  /** The two orders of a write and a backlog, byte by byte. */
  lemma OrdersByteByByte(f: Content, w: Patch, ws: seq<Patch>)
    ensures var early := ApplyAll(WriteAt(f, w.off, w.data), ws);
            var late := WriteAt(ApplyAll(f, ws), w.off, w.data);
            && |early| == |late|
            && forall i: nat :: At(early, i) == At(late, i) <==> (Covers(w, i) ==> Silent(Last(ws, i), w.data[i - w.off]))
  {
    var g := WriteAt(f, w.off, w.data);
    var h := ApplyAll(f, ws);
    WriteAtBytes(f, w.off, w.data);
    ApplyAllBytes(g, ws);
    ApplyAllBytes(f, ws);
    WriteAtBytes(h, w.off, w.data);
    var early := ApplyAll(g, ws);
    var late := WriteAt(h, w.off, w.data);
    forall i: nat
      ensures At(early, i) == At(late, i) <==> (Covers(w, i) ==> Silent(Last(ws, i), w.data[i - w.off]))
    {
      assert At(early, i) == if Last(ws, i).Some? then Last(ws, i).value else At(g, i);
      assert At(late, i) == if Covers(w, i) then w.data[i - w.off] else At(h, i);
    }
  }

  /** Storing a write ahead of a backlog instead of behind it gives the same file exactly
      when the write agrees with the backlog. */
  lemma OvertakingExact(f: Content, w: Patch, ws: seq<Patch>)
    ensures ApplyAll(WriteAt(f, w.off, w.data), ws) == WriteAt(ApplyAll(f, ws), w.off, w.data) <==> Agrees(w, ws)
  {
    var early := ApplyAll(WriteAt(f, w.off, w.data), ws);
    var late := WriteAt(ApplyAll(f, ws), w.off, w.data);
    OrdersByteByByte(f, w, ws);
    if Agrees(w, ws) {
      SameBytes(early, late);
    }
    if early == late {
      forall i: nat | Covers(w, i) ensures Silent(Last(ws, i), w.data[i - w.off]) {
        assert At(early, i) == At(late, i);
      }
    }
  }

  /** Writing the chunks of a file one after the other from its start replaces exactly the
      prefix written so far. */
  lemma WriteNextChunk(old_: Content, m: Content, k: nat, n: nat)
    requires k <= n <= |m|
    ensures WriteAt(m[..k] + Tail(old_, k), k, m[k..n]) == m[..n] + Tail(old_, n)
  {
    var f := m[..k] + Tail(old_, k);
    var g := m[..n] + Tail(old_, n);
    WriteAtBytes(f, k, m[k..n]);
    SameBytes(WriteAt(f, k, m[k..n]), g);
  }

  function Tail(f: Content, n: nat): Content {
    if n <= |f| then f[n..] else []
  }
}
