/** A download and an upload as the server sees them: a file opened, read or written chunk by
    chunk, and closed. */
module Transfer {
  import opened Files
  import opened FileServer
  import opened Link
  import opened LinkFiles

  const DL_CHUNK_SIZE := 640000

  predicate Reliable(e: Net) {
    Arrived(e) && !e.verdict.oc.Fails?
  }

  /** The client has p open as fd, and p holds c when what is in flight has been stored. */
  ghost predicate Attached(l: Link, fd: int, p: string, aside: set<int>, c: Content) {
    LinkOk(l) && Aside(l, p, aside) && fd !in aside && LeadsTo(l.fs, fd, p) && Held(View(l), p) == c
  }

  ghost predicate Reading(l: Link, fd: int, p: string, aside: set<int>, c: Content) {
    Attached(l, fd, p, aside, c) && l.flying == []
  }

  lemma Opens(l: Link, e: Net, p: string, aside: set<int>)
    requires LinkOk(l) && Aside(l, p, aside)
    ensures var (l', r) := Call(l, e, Request.Open(p));
            && KeptBut(aside, l.fs, l'.fs) && l'.flying == []
            && (r.rc >= 0 && r.rc !in aside ==> Arrived(e) && r.rc !in l.fs.fds && Reading(l', r.rc, p, aside, Held(View(l), p)))
            && (r.rc < 0 ==> Held(l'.fs, p) == Held(View(l), p) || Held(l'.fs, p) == Held(l.fs, p))
            && (Reliable(e) ==> r.rc >= 0)
  {
    if Arrived(e) {
      OpenArrives(l, e, p, aside);
    } else {
      CallBreaks(l, e, Request.Open(p), p, aside);
    }
  }

  lemma Reads(l: Link, e: Net, fd: int, off: nat, size: nat, p: string, aside: set<int>, c: Content)
    requires Reading(l, fd, p, aside, c) && size > 0
    ensures var (l', r) := Call(l, e, Request.Read(fd, off, size));
            && Reading(l', fd, p, aside, c) && KeptBut(aside, l.fs, l'.fs)
            && (r.rc >= 0 ==> |r.data| == r.rc <= size && off + r.rc <= Max(off, |c|) && r.data == ReadAt(c, off, r.rc))
            && (r.rc == 0 ==> off >= |c|)
            && (Reliable(e) ==> r.rc >= 0)
  {
    if Arrived(e) {
      ReadArrives(l, e, fd, off, size, p, aside);
    } else {
      CallBreaks(l, e, Request.Read(fd, off, size), p, aside);
    }
  }

  lemma ReadCloses(l: Link, e: Net, fd: int, p: string, aside: set<int>, c: Content)
    requires Reading(l, fd, p, aside, c)
    ensures var l' := Call(l, e, Request.Close(fd)).0;
            Aside(l', p, aside + {fd}) && KeptBut(aside + {fd}, l.fs, l'.fs) && l'.flying == [] && Held(l'.fs, p) == c
  {
    if Arrived(e) {
      CloseArrives(l, e, fd, p, aside);
    } else {
      CallBreaks(l, e, Request.Close(fd), p, aside);
    }
  }

  // Sending a file m over a file f.

  /** How far k chunks reach. */
  function Reached(m: Content, k: nat): nat {
    Min(k * DL_CHUNK_SIZE, |m|)
  }

  function Chunk(fd: int, m: Content, k: nat): Request {
    Request.Write(fd, Reached(m, k), m[Reached(m, k)..Reached(m, k + 1)])
  }

  /** The first k chunks of m over f. */
  function Replaced(f: Content, m: Content, k: nat): Content {
    m[..Reached(m, k)] + Tail(f, Reached(m, k))
  }

  lemma NextChunk(f: Content, m: Content, fd: int, k: nat)
    requires Reached(m, k) < |m|
    ensures var w := Chunk(fd, m, k);
            && |w.data| == Min(|m| - Reached(m, k), DL_CHUNK_SIZE) > 0
            && w.data == ReadAt(m, Reached(m, k), |w.data|)
            && Reached(m, k + 1) == Reached(m, k) + |w.data|
            && WriteAt(Replaced(f, m, k), w.off, w.data) == Replaced(f, m, k + 1)
  {
    WriteNextChunk(f, m, Reached(m, k), Reached(m, k + 1));
  }

  /** k chunks have been accepted, the last of them possibly still in flight. */
  ghost predicate Sending(l: Link, fd: int, p: string, aside: set<int>, f: Content, m: Content, k: nat) {
    && Attached(l, fd, p, aside, Replaced(f, m, k))
    && if k == 0 then l.flying == []
       else Reached(m, k - 1) < |m| && l.flying == [Chunk(fd, m, k - 1)] && Held(l.fs, p) == Replaced(f, m, k - 1)
  }

  /** The connection broke after that: the last chunk may have been stored, or be stored
      later, or never. */
  ghost predicate Broken(l: Link, fd: int, p: string, aside: set<int>, f: Content, m: Content, k: nat) {
    k > 0 && Reached(m, k - 1) < |m| && Loose(l, p, aside, Chunk(fd, m, k - 1), Replaced(f, m, k - 1))
  }

  ghost predicate Uploading(l: Link, fd: int, p: string, aside: set<int>, f: Content, m: Content, k: nat) {
    Sending(l, fd, p, aside, f, m, k) || Broken(l, fd, p, aside, f, m, k)
  }

  lemma Writes(l: Link, e: Net, fd: int, p: string, aside: set<int>, f: Content, m: Content, k: nat)
    requires Sending(l, fd, p, aside, f, m, k) && Reached(m, k) < |m|
    ensures var (l', r) := Call(l, e, Chunk(fd, m, k));
            && KeptBut(aside, l.fs, l'.fs) && (Arrived(e) ==> r.rc >= 0)
            && if r.rc >= 0 then Sending(l', fd, p, aside, f, m, k + 1) else Uploading(l', fd, p, aside, f, m, k)
  {
    var w := Chunk(fd, m, k);
    NextChunk(f, m, fd, k);
    if Arrived(e) {
      WriteArrives(l, e, fd, w.off, w.data, p, aside);
    } else {
      CallBreaks(l, e, w, p, aside);
      if k > 0 {
        BreaksLoose(l, e, w, p, aside);
      }
    }
  }

  /** What is left after the upload: nothing, or the last chunk, which nobody acknowledged. */
  ghost predicate Left(l: Link, fd: int, p: string, aside: set<int>, f: Content, m: Content, k: nat, sure: bool) {
    && LinkOk(l) && l.flying == []
    && if sure || k == 0 then Aside(l, p, aside) && Held(l.fs, p) == Replaced(f, m, k)
       else Broken(l, fd, p, aside, f, m, k)
  }

  lemma WriteCloses(l: Link, e: Net, fd: int, p: string, aside: set<int>, f: Content, m: Content, k: nat)
    requires Uploading(l, fd, p, aside, f, m, k)
    ensures var l' := Call(l, e, Request.Close(fd)).0;
            && KeptBut(aside + {fd}, l.fs, l'.fs) && (k > 0 ==> Reached(m, k - 1) < |m|)
            && Left(l', fd, p, aside + {fd}, f, m, k, Sending(l, fd, p, aside, f, m, k) && Arrived(e))
  {
    if Sending(l, fd, p, aside, f, m, k) {
      SendCloses(l, e, fd, p, aside, f, m, k);
    } else {
      var w := Chunk(fd, m, k - 1);
      CloseLoose(l, e, fd, p, aside + {fd}, w, Replaced(f, m, k - 1));
    }
  }

  lemma SendCloses(l: Link, e: Net, fd: int, p: string, aside: set<int>, f: Content, m: Content, k: nat)
    requires Sending(l, fd, p, aside, f, m, k)
    ensures var l' := Call(l, e, Request.Close(fd)).0;
            KeptBut(aside + {fd}, l.fs, l'.fs) && Left(l', fd, p, aside + {fd}, f, m, k, Arrived(e))
  {
    if Arrived(e) {
      CloseArrives(l, e, fd, p, aside);
    } else {
      CallBreaks(l, e, Request.Close(fd), p, aside);
      if k > 0 {
        BreaksLoose(l, e, Request.Close(fd), p, aside);
      }
    }
  }

  lemma LeftAtLeast(l: Link, fd: int, p: string, aside: set<int>, f: Content, m: Content, k: nat, sure: bool)
    requires Left(l, fd, p, aside, f, m, k, sure) && (k > 0 ==> Reached(m, k - 1) < |m|)
    ensures Left(l, fd, p, aside, f, m, k, false)
  {
    if k > 0 {
      NextChunk(f, m, fd, k - 1);
    }
  }

  /** How many chunks the file has then. */
  lemma LeftStored(l: Link, fd: int, p: string, aside: set<int>, f: Content, m: Content, k: nat, sure: bool)
    returns (stored: nat)
    requires Left(l, fd, p, aside, f, m, k, sure)
    ensures Held(l.fs, p) == Replaced(f, m, stored) && stored <= k <= stored + 1 && (sure ==> stored == k)
  {
    stored := k;
    if !sure && k > 0 && Held(l.fs, p) != Replaced(f, m, k) {
      NextChunk(f, m, fd, k - 1);
      stored := k - 1;
    }
  }

  /** If not all were stored, whatever the server threads do later stores the last one at
      most. */
  lemma LeftLater(l: Link, fd: int, p: string, aside: set<int>, f: Content, m: Content, k: nat, acts: seq<Act>)
    requires Left(l, fd, p, aside, f, m, k, false)
    ensures var l' := DoActs(l, acts);
            Left(l', fd, p, aside, f, m, k, false) && KeptBut(aside, l.fs, l'.fs)
  {
    if k == 0 {
      ActsMove(l, acts, p, aside);
    } else {
      LooseActs(l, acts, p, aside, Chunk(fd, m, k - 1), Replaced(f, m, k - 1));
    }
  }

  /** The calls of a push of one chunk, each successful but for the close, whose reply nobody
      waits for to report success: the chunk is missing, and may still arrive. */
  lemma {:induction false} LastChunkLost()
    ensures var m: Content := [7];
            var l0 := Link(Server(map["f" := []], map[]), false, [], []);
            var (l1, r1) := Call(l0, Net([], Up(Fd(3))), Request.Open("f"));
            var (l2, r2) := Call(l1, Net([], Up(Complete)), Chunk(3, m, 0));
            var (l3, r3) := Call(l2, Net([], Down(false)), Request.Close(3));
            && r1.rc == 3 && r2.rc == 1 && Reached(m, 1) == |m|
            && Held(l3.fs, "f") == []
            && Held(DoAct(l3, Act(0, Complete)).fs, "f") == m
  {
    var m: Content := [7];
    assert m[0..1] == m && m[..1] == m && WriteAt([], 0, m) == m;
    var w, s := Request.Write(3, 0, m), Server(map["f" := []], map[3 := "f"]);
    assert Chunk(3, m, 0) == w;
    assert Call(Link(s, true, [], []), Net([], Up(Complete)), w).0 == Link(s, true, [w], []);
    var l3 := Call(Link(s, true, [w], []), Net([], Down(false)), Request.Close(3)).0;
    assert [w] + [] == [w];
    assert l3 == Link(s, false, [], [[w]]);
  }
}
