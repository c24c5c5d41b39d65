/** Writes and closes that wait for the network.

    A call is tried on the remote file system first; if the network is down it is queued
    and reported as done. The remote file system is the link: an accepted write is stored
    later, and what a broken connection had taken on may still be carried out or not. */
module DelayRemote {
  import opened Files
  import opened FileServer
  import opened Link

  // Replaying a backlog.

  predicate Queueable(op: Request) {
    op.Write? || op.Close?
  }

  ghost predicate Backlog(q: seq<Request>) {
    forall i :: 0 <= i < |q| ==> Queueable(q[i])
  }

  /** The server after it has carried out the requests of a backlog. */
  function Replay(s: Server, q: seq<Request>): (r: Server)
    requires WF(s)
    ensures WF(r)
    decreases |q|
  {
    if q == [] then s else Replay(Serve(s, q[0], Complete).0, q[1..])
  }

  lemma {:induction false} ReplaySnoc(s: Server, q: seq<Request>, op: Request)
    requires WF(s)
    ensures Replay(s, q + [op]) == Serve(Replay(s, q), op, Complete).0
    decreases |q|
  {
    if q == [] {
      assert q + [op] == [op];
    } else {
      assert (q + [op])[1..] == q[1..] + [op];
      ReplaySnoc(Serve(s, q[0], Complete).0, q[1..], op);
    }
  }

  /** The writes of a backlog that land in the file at path p, given the open descriptors. */
  function Hits(fds: map<int, string>, q: seq<Request>, p: string): seq<Patch>
    decreases |q|
  {
    if q == [] then []
    else match q[0]
      case Write(fd, off, data) =>
        (if fd in fds && fds[fd] == p && off >= 0 then [Patch(off, data)] else []) + Hits(fds, q[1..], p)
      case Close(fd) => Hits(fds - {fd}, q[1..], p)
      case _ => Hits(fds, q[1..], p)
  }

  function Closed(q: seq<Request>): set<int> {
    set i | 0 <= i < |q| && q[i].Close? :: q[i].fd
  }

  lemma ClosedCons(op: Request, q: seq<Request>)
    ensures Closed([op] + q) == (if op.Close? then {op.fd} else {}) + Closed(q)
  {
    var all := [op] + q;
    forall fd ensures fd in Closed(all) <==> (op.Close? && fd == op.fd) || fd in Closed(q) {
      if fd in Closed(all) {
        var i :| 0 <= i < |all| && all[i].Close? && all[i].fd == fd;
        assert i > 0 ==> q[i - 1] == all[i];
      }
      if fd in Closed(q) {
        var i :| 0 <= i < |q| && q[i].Close? && q[i].fd == fd;
        assert all[i + 1] == q[i];
      }
      if op.Close? && fd == op.fd {
        assert all[0] == op;
      }
    }
  }

  /** The file p after a request, as the backlog's hits on it tell. */
  lemma ServeEffect(s: Server, op: Request)
    requires WF(s) && Queueable(op)
    ensures var t := Serve(s, op, Complete).0;
            && t.fds == (if op.Close? then s.fds - {op.fd} else s.fds)
            && t.files.Keys == s.files.Keys
            && forall p :: p in s.files ==> t.files[p] == ApplyAll(s.files[p], Hits(s.fds, [op], p))
  {
    var t := Serve(s, op, Complete).0;
    assert [op][1..] == [];
    if op.Write? {
      assert op.data[..|op.data|] == op.data;
      forall p | p in s.files ensures t.files[p] == ApplyAll(s.files[p], Hits(s.fds, [op], p)) {
        if SeekError(s, op.fd, op.off) == 0 && s.fds[op.fd] == p {
          assert Hits(s.fds, [op], p) == [Patch(op.off, op.data)];
        }
      }
    } else {
      assert s.fds - {op.fd} == if op.fd in s.fds then s.fds - {op.fd} else s.fds;
    }
  }

  lemma {:induction false} ApplyAllConcat(f: Content, a: seq<Patch>, b: seq<Patch>)
    ensures ApplyAll(f, a + b) == ApplyAll(ApplyAll(f, a), b)
    decreases |a|
  {
    if a == [] {
      assert a + b == b;
    } else {
      assert (a + b)[1..] == a[1..] + b;
      ApplyAllConcat(WriteAt(f, a[0].off, a[0].data), a[1..], b);
    }
  }

  lemma HitsCons(fds: map<int, string>, op: Request, q: seq<Request>, p: string)
    ensures Hits(fds, [op] + q, p) == Hits(fds, [op], p) + Hits(if op.Close? then fds - {op.fd} else fds, q, p)
  {
    assert ([op] + q)[1..] == q && [op][1..] == [];
  }

  /** What a backlog leaves behind, file by file. */
  lemma {:induction false} ReplayEffect(s: Server, q: seq<Request>)
    requires WF(s) && Backlog(q)
    ensures var r := Replay(s, q);
            && r.fds == s.fds - Closed(q)
            && r.files.Keys == s.files.Keys
            && forall p :: p in s.files ==> r.files[p] == ApplyAll(s.files[p], Hits(s.fds, q, p))
    decreases |q|
  {
    if q == [] {
      assert Closed(q) == {};
    } else {
      var t, q' := Serve(s, q[0], Complete).0, q[1..];
      assert q == [q[0]] + q';
      ServeEffect(s, q[0]);
      ReplayEffect(t, q');
      ClosedCons(q[0], q');
      forall p | p in s.files ensures Replay(s, q).files[p] == ApplyAll(s.files[p], Hits(s.fds, q, p)) {
        HitsCons(s.fds, q[0], q', p);
        ApplyAllConcat(s.files[p], Hits(s.fds, [q[0]], p), Hits(t.fds, q', p));
      }
    }
  }

  // Overtaking: carrying out a request before the backlog instead of after it.

  predicate Mentions(q: seq<Request>, fd: int) {
    exists i :: 0 <= i < |q| && Queueable(q[i]) && q[i].fd == fd
  }

  lemma {:induction false} HitsWithout(fds: map<int, string>, fds': map<int, string>, q: seq<Request>, fd: int, p: string)
    requires Backlog(q) && !Mentions(q, fd) && fds - {fd} == fds' - {fd}
    ensures Hits(fds, q, p) == Hits(fds', q, p)
    decreases |q|
  {
    if q != [] {
      assert q[0].fd != fd;
      assert forall x :: x != fd ==> (x in fds <==> x in fds - {fd}) && (x in fds' <==> x in fds' - {fd});
      assert forall x :: x in fds && x != fd ==> fds[x] == (fds - {fd})[x];
      assert forall x :: x in fds' && x != fd ==> fds'[x] == (fds' - {fd})[x];
      var a, b := if q[0].Close? then fds - {q[0].fd} else fds, if q[0].Close? then fds' - {q[0].fd} else fds';
      assert a - {fd} == b - {fd};
      HitsWithout(a, b, q[1..], fd, p);
    }
  }

  lemma WriteHit(s: Server, fd: int, off: int, data: Content)
    requires WF(s) && SeekError(s, fd, off) == 0
    ensures var p, t := s.fds[fd], Serve(s, Write(fd, off, data), Complete).0;
            t == s.(files := s.files[p := WriteAt(s.files[p], off, data)])
  {
    assert data[..|data|] == data;
  }

  /** A write sent straight out while a backlog waits gives the server state that program
      order would give exactly when it agrees, byte for byte, with the waiting writes to its
      file. (It is never issued after a close of its own descriptor.) */
  lemma DirectWriteExact(s: Server, fd: int, off: int, data: Content, q: seq<Request>)
    requires WF(s) && Backlog(q) && fd !in Closed(q)
    ensures var w := Write(fd, off, data);
            Replay(Serve(s, w, Complete).0, q) == Serve(Replay(s, q), w, Complete).0
            <==> (SeekError(s, fd, off) == 0 ==> Agrees(Patch(off, data), Hits(s.fds, q, s.fds[fd])))
  {
    ReplayEffect(s, q);
    if SeekError(s, fd, off) == 0 {
      var w, p := Write(fd, off, data), s.fds[fd];
      var t, r := Serve(s, w, Complete).0, Replay(s, q);
      WriteHit(s, fd, off, data);
      WriteHit(r, fd, off, data);
      ReplayEffect(t, q);
      var hits := Hits(s.fds, q, p);
      OvertakingExact(s.files[p], Patch(off, data), hits);
      var early, late := Replay(t, q), Serve(r, w, Complete).0;
      SameServer(early, late, p);
    }
  }

  /** Two servers that differ at most in one file. */
  lemma SameServer(a: Server, b: Server, p: string)
    requires a.fds == b.fds && a.files.Keys == b.files.Keys && p in a.files
    requires forall x :: x in a.files && x != p ==> a.files[x] == b.files[x]
    ensures a == b <==> a.files[p] == b.files[p]
  {
    if a.files[p] == b.files[p] {
      assert a.files == b.files;
    }
  }

  /** The byte at position i once some writes have been applied to a file. */
  function ByteAfter(f: Content, ws: seq<Patch>, i: nat): byte {
    if Last(ws, i).Some? then Last(ws, i).value else At(f, i)
  }

  /** Two files with their writes still to come end up the same: as long, and at each position
      the last write over it, or the old byte, is the same. */
  ghost predicate SameOutcome(f: Content, a: seq<Patch>, g: Content, b: seq<Patch>) {
    && Max(|f|, Reach(a)) == Max(|g|, Reach(b))
    && forall i: nat :: ByteAfter(f, a, i) == ByteAfter(g, b, i)
  }

  lemma SameOutcomeExact(f: Content, a: seq<Patch>, g: Content, b: seq<Patch>)
    ensures ApplyAll(f, a) == ApplyAll(g, b) <==> SameOutcome(f, a, g, b)
  {
    ApplyAllBytes(f, a);
    ApplyAllBytes(g, b);
    var x, y := ApplyAll(f, a), ApplyAll(g, b);
    assert forall i: nat :: At(x, i) == ByteAfter(f, a, i) && At(y, i) == ByteAfter(g, b, i);
    if SameOutcome(f, a, g, b) {
      SameBytes(x, y);
    }
    if x == y {
      forall i: nat ensures ByteAfter(f, a, i) == ByteAfter(g, b, i) {
        assert At(x, i) == At(y, i);
      }
    }
  }

  /** A close sent straight out while a backlog waits gives program order's server exactly
      when the file ends up the same without the writes that wait for its descriptor. */
  lemma DirectCloseExact(s: Server, fd: int, q: seq<Request>)
    requires WF(s) && Backlog(q)
    ensures Replay(Serve(s, Close(fd), Complete).0, q) == Serve(Replay(s, q), Close(fd), Complete).0
            <==> (fd in s.fds ==>
                    var p := s.fds[fd];
                    SameOutcome(s.files[p], Hits(s.fds - {fd}, q, p), s.files[p], Hits(s.fds, q, p)))
  {
    var t := Serve(s, Close(fd), Complete).0;
    var early, late := Replay(t, q), Serve(Replay(s, q), Close(fd), Complete).0;
    ReplayEffect(s, q);
    ReplayEffect(t, q);
    assert t.fds == s.fds - {fd};
    assert early.fds == late.fds;
    if fd in s.fds {
      var p := s.fds[fd];
      forall x | x in s.files && x != p ensures early.files[x] == late.files[x] {
        HitsElsewhere(s.fds, q, fd, x);
      }
      SameOutcomeExact(s.files[p], Hits(t.fds, q, p), s.files[p], Hits(s.fds, q, p));
      SameServer(early, late, p);
    } else {
      assert t == s;
    }
  }

  /** Losing a descriptor costs no writes to other files. */
  lemma {:induction false} HitsElsewhere(fds: map<int, string>, q: seq<Request>, fd: int, x: string)
    requires fd in fds ==> fds[fd] != x
    ensures Hits(fds - {fd}, q, x) == Hits(fds, q, x)
    decreases |q|
  {
    if q != [] {
      if q[0].Close? {
        assert fds - {fd} - {q[0].fd} == fds - {q[0].fd} - {fd};
        HitsElsewhere(fds - {q[0].fd}, q[1..], fd, x);
      } else {
        HitsElsewhere(fds, q[1..], fd, x);
      }
    }
  }

  /** An open sent straight out, and handed descriptor fd, gives program order's server exactly
      when no close of fd waits and no write that waits for fd shows in the file. */
  lemma DirectOpenExact(s: Server, p: string, fd: int, q: seq<Request>)
    requires WF(s) && Backlog(q) && fd !in s.fds
    ensures Replay(Serve(s, Open(p), Fd(fd)).0, q) == Serve(Replay(s, q), Open(p), Fd(fd)).0
            <==> fd !in Closed(q) && SameOutcome(Held(s, p), Hits(s.fds[fd := p], q, p), Held(s, p), Hits(s.fds, q, p))
  {
    var t, r := Serve(s, Open(p), Fd(fd)).0, Replay(s, q);
    var early, late := Replay(t, q), Serve(r, Open(p), Fd(fd)).0;
    ReplayEffect(s, q);
    ReplayEffect(t, q);
    SameOutcomeExact(Held(s, p), Hits(t.fds, q, p), Held(s, p), Hits(s.fds, q, p));
    assert early.fds == late.fds <==> fd !in Closed(q) by {
      OpenedFds(s.fds, fd, p, Closed(q));
    }
    OpenedOthers(s, p, fd, q);
    OpenedFiles(s, p, fd, q);
    if early.files[p] == late.files[p] && early.fds == late.fds {
      SameServer(early, late, p);
    }
  }

  lemma OpenedFds(fds: map<int, string>, fd: int, p: string, gone: set<int>)
    requires fd !in fds
    ensures fds[fd := p] - gone == (fds - gone)[fd := p] <==> fd !in gone
  {
    if fd in gone {
      assert fd in (fds - gone)[fd := p] && fd !in fds[fd := p] - gone;
    }
  }

  /** Early and late, the open leaves the same other files ... */
  lemma {:induction false} OpenedOthers(s: Server, p: string, fd: int, q: seq<Request>)
    requires WF(s) && Backlog(q) && fd !in s.fds
    ensures var t, r := Serve(s, Open(p), Fd(fd)).0, Replay(s, q);
            var early, late := Replay(t, q), Serve(r, Open(p), Fd(fd)).0;
            && early.files.Keys == late.files.Keys
            && forall x :: x in s.files && x != p ==> x in early.files && early.files[x] == late.files[x]
  {
    var t := Serve(s, Open(p), Fd(fd)).0;
    ReplayEffect(s, q);
    ReplayEffect(t, q);
    forall x | x in s.files && x != p ensures Replay(t, q).files[x] == Replay(s, q).files[x] {
      assert t.files[x] == s.files[x];
      HitsOpened(s.fds, q, fd, p, x);
    }
  }

  lemma {:induction false} HitsOpened(fds: map<int, string>, q: seq<Request>, fd: int, p: string, x: string)
    requires fd !in fds && x != p
    ensures Hits(fds[fd := p], q, x) == Hits(fds, q, x)
  {
    assert fds[fd := p] - {fd} == fds;
    HitsElsewhere(fds[fd := p], q, fd, x);
  }

  /** ... and at p what the waiting writes make of it with or without the new descriptor. */
  lemma OpenedFiles(s: Server, p: string, fd: int, q: seq<Request>)
    requires WF(s) && Backlog(q) && fd !in s.fds
    ensures var t, r := Serve(s, Open(p), Fd(fd)).0, Replay(s, q);
            var early, late := Replay(t, q), Serve(r, Open(p), Fd(fd)).0;
            && p in early.files && p in late.files
            && early.files[p] == ApplyAll(Held(s, p), Hits(s.fds[fd := p], q, p))
            && late.files[p] == ApplyAll(Held(s, p), Hits(s.fds, q, p))
  {
    ReplayEffect(s, q);
    ReplayEffect(Serve(s, Open(p), Fd(fd)).0, q);
    if p !in s.files {
      NoHits(s.fds, q, p);
    }
  }

  lemma {:induction false} NoHits(fds: map<int, string>, q: seq<Request>, p: string)
    requires forall fd :: fd in fds ==> fds[fd] != p
    ensures Hits(fds, q, p) == []
    decreases |q|
  {
    if q != [] {
      NoHits(if q[0].Close? then fds - {q[0].fd} else fds, q[1..], p);
    }
  }

  /** When a call that reaches the server may overtake the backlog. */
  ghost predicate Harmless(s: Server, op: Request, oc: Outcome, q: seq<Request>)
    requires WF(s)
  {
    match op
    case Write(fd, off, data) =>
      SeekError(s, fd, off) == 0 ==>
        var w, ws := Patch(off, data), Hits(s.fds, q, s.fds[fd]);
        if fd in Closed(q) then Swallowed(s.files[s.fds[fd]], w, ws) else Agrees(w, ws)
    case Close(fd) =>
      fd in s.fds ==>
        var p := s.fds[fd];
        SameOutcome(s.files[p], Hits(s.fds - {fd}, q, p), s.files[p], Hits(s.fds, q, p))
    case Open(p) =>
      oc.Fd? ==>
        && oc.fd !in Closed(q)
        && SameOutcome(Held(s, p), Hits(s.fds[oc.fd := p], q, p), Held(s, p), Hits(s.fds, q, p))
    case _ => true
  }

  /** What the delaying layer sends straight out, and how it can come out. */
  predicate Direct(s: Server, op: Request, oc: Outcome) {
    if op.Open? then oc.Fd? && oc.fd !in s.fds else Queueable(op) && oc == Complete
  }

  /** The condition is exact for all of them: the backlog behind such a call leads to program
      order's server if and only if it holds. */
  lemma OvertakesExact(s: Server, op: Request, oc: Outcome, q: seq<Request>)
    requires WF(s) && Backlog(q) && Direct(s, op, oc)
    ensures Replay(Serve(s, op, oc).0, q) == Serve(Replay(s, q), op, oc).0 <==> Harmless(s, op, oc, q)
  {
    match op
    case Write(fd, off, data) =>
      if fd in Closed(q) {
        ClosedWriteExact(s, fd, off, data, q);
      } else {
        DirectWriteExact(s, fd, off, data, q);
      }
    case Close(fd) => DirectCloseExact(s, fd, q);
    case Open(p) => DirectOpenExact(s, p, oc.fd, q);
  }

  lemma OvertakingHarmless(s: Server, op: Request, oc: Outcome, q: seq<Request>)
    requires WF(s) && Backlog(q) && Direct(s, op, oc) && Harmless(s, op, oc, q)
    ensures Replay(Serve(s, op, oc).0, q) == Serve(Replay(s, q), op, oc).0
  {
    OvertakesExact(s, op, oc, q);
  }

  /** A close or an open whose descriptor nothing waiting mentions is always harmless. */
  lemma UnmentionedHarmless(s: Server, op: Request, oc: Outcome, q: seq<Request>)
    requires WF(s) && Backlog(q) && Direct(s, op, oc)
    requires op.Close? ==> !Mentions(q, op.fd)
    requires op.Open? ==> !Mentions(q, oc.fd)
    requires !op.Write?
    ensures Harmless(s, op, oc, q)
  {
    match op
    case Close(fd) =>
      if fd in s.fds {
        assert s.fds - {fd} - {fd} == s.fds - {fd};
        HitsWithout(s.fds - {fd}, s.fds, q, fd, s.fds[fd]);
      }
    case Open(p) =>
      assert s.fds[oc.fd := p] - {oc.fd} == s.fds - {oc.fd};
      HitsWithout(s.fds[oc.fd := p], s.fds, q, oc.fd, p);
  }

  // Requests that leave no trace.

  /** A write that does not show: every byte of it is overwritten by one that still waits or
      was there already, and it does not lengthen the file. */
  ghost predicate Swallowed(f: Content, w: Patch, ws: seq<Patch>) {
    && (w.data != [] ==> w.off + |w.data| <= Max(|f|, Reach(ws)))
    && forall i: nat :: Covers(w, i) ==> Last(ws, i).Some? || At(f, i) == w.data[i - w.off]
  }

  lemma SwallowedByte(f: Content, w: Patch, ws: seq<Patch>, i: nat)
    ensures ByteAfter(WriteAt(f, w.off, w.data), ws, i) == ByteAfter(f, ws, i) <==>
            (Covers(w, i) ==> Last(ws, i).Some? || At(f, i) == w.data[i - w.off])
  {
    WriteAtBytes(f, w.off, w.data);
    assert At(WriteAt(f, w.off, w.data), i) == if Covers(w, i) then w.data[i - w.off] else At(f, i);
  }

  lemma SwallowedLength(f: Content, w: Patch, ws: seq<Patch>)
    ensures Max(|WriteAt(f, w.off, w.data)|, Reach(ws)) == Max(|f|, Reach(ws)) <==>
            (w.data != [] ==> w.off + |w.data| <= Max(|f|, Reach(ws)))
  {
    WriteAtBytes(f, w.off, w.data);
  }

  lemma {:induction false} SwallowedOutcome(f: Content, w: Patch, ws: seq<Patch>)
    ensures SameOutcome(WriteAt(f, w.off, w.data), ws, f, ws) <==> Swallowed(f, w, ws)
  {
    var g := WriteAt(f, w.off, w.data);
    SwallowedLength(f, w, ws);
    forall i: nat
      ensures ByteAfter(g, ws, i) == ByteAfter(f, ws, i) <==>
              (Covers(w, i) ==> Last(ws, i).Some? || At(f, i) == w.data[i - w.off])
    {
      SwallowedByte(f, w, ws, i);
    }
  }

  lemma {:induction false} SwallowedExact(f: Content, w: Patch, ws: seq<Patch>)
    ensures ApplyAll(WriteAt(f, w.off, w.data), ws) == ApplyAll(f, ws) <==> Swallowed(f, w, ws)
  {
    SameOutcomeExact(WriteAt(f, w.off, w.data), ws, f, ws);
    SwallowedOutcome(f, w, ws);
  }

  /** A write carried out, or not carried out, ahead of a backlog: nobody can tell, in the
      end, exactly when it does not show. */
  lemma WriteUnnoticed(s: Server, fd: int, off: int, data: Content, q: seq<Request>)
    requires WF(s) && Backlog(q)
    ensures Replay(Serve(s, Write(fd, off, data), Complete).0, q) == Replay(s, q)
            <==> (SeekError(s, fd, off) == 0 ==> Swallowed(s.files[s.fds[fd]], Patch(off, data), Hits(s.fds, q, s.fds[fd])))
  {
    if SeekError(s, fd, off) == 0 {
      var p, t := s.fds[fd], Serve(s, Write(fd, off, data), Complete).0;
      WriteHit(s, fd, off, data);
      ReplayEffect(s, q);
      ReplayEffect(t, q);
      SwallowedExact(s.files[p], Patch(off, data), Hits(s.fds, q, p));
      SameServer(Replay(t, q), Replay(s, q), p);
    }
  }

  /** A write sent straight out ahead of a close of its own descriptor. */
  lemma ClosedWriteExact(s: Server, fd: int, off: int, data: Content, q: seq<Request>)
    requires WF(s) && Backlog(q) && fd in Closed(q)
    ensures var w := Write(fd, off, data);
            Replay(Serve(s, w, Complete).0, q) == Serve(Replay(s, q), w, Complete).0
            <==> (SeekError(s, fd, off) == 0 ==> Swallowed(s.files[s.fds[fd]], Patch(off, data), Hits(s.fds, q, s.fds[fd])))
  {
    ReplayEffect(s, q);
    WriteUnnoticed(s, fd, off, data, q);
  }

  /** Any request of a broken connection carried out late, told by the server it leaves: the
      open descriptors differ at most in those that a waiting close takes, and every file
      ends up the same. */
  ghost predicate Unnoticed(s: Server, t: Server, q: seq<Request>)
    requires WF(s) && WF(t)
  {
    && t.fds - Closed(q) == s.fds - Closed(q)
    && t.files.Keys == s.files.Keys
    && forall p :: p in s.files ==> SameOutcome(t.files[p], Hits(t.fds, q, p), s.files[p], Hits(s.fds, q, p))
  }

  lemma UnnoticedExact(s: Server, t: Server, q: seq<Request>)
    requires WF(s) && WF(t) && Backlog(q)
    ensures Replay(t, q) == Replay(s, q) <==> Unnoticed(s, t, q)
  {
    ReplayEffect(s, q);
    ReplayEffect(t, q);
    var x, y := Replay(t, q), Replay(s, q);
    forall p | p in s.files && p in t.files
      ensures x.files[p] == y.files[p] <==> SameOutcome(t.files[p], Hits(t.fds, q, p), s.files[p], Hits(s.fds, q, p))
    {
      SameOutcomeExact(t.files[p], Hits(t.fds, q, p), s.files[p], Hits(s.fds, q, p));
    }
    if Unnoticed(s, t, q) {
      assert x.files == y.files;
    }
  }

  /** Range-disjointness from every waiting write is enough for a write. */
  lemma DisjointHarmless(s: Server, fd: int, off: int, data: Content, q: seq<Request>)
    requires WF(s) && Backlog(q) && fd !in Closed(q)
    requires forall i :: 0 <= i < |q| && q[i].Write? && q[i].off >= 0 && off >= 0 ==>
               Disjoint(Patch(off, data), Patch(q[i].off, q[i].data))
    ensures Harmless(s, Write(fd, off, data), Complete, q)
  {
    if SeekError(s, fd, off) == 0 {
      HitsDisjoint(s.fds, Patch(off, data), q, s.fds[fd]);
      DisjointAgrees(Patch(off, data), Hits(s.fds, q, s.fds[fd]));
    }
  }

  lemma {:induction false} HitsDisjoint(fds: map<int, string>, w: Patch, q: seq<Request>, p: string)
    requires Backlog(q)
    requires forall i :: 0 <= i < |q| && q[i].Write? && q[i].off >= 0 ==> Disjoint(w, Patch(q[i].off, q[i].data))
    ensures forall k :: 0 <= k < |Hits(fds, q, p)| ==> Disjoint(w, Hits(fds, q, p)[k])
    decreases |q|
  {
    if q != [] {
      HitsDisjoint(if q[0].Close? then fds - {q[0].fd} else fds, w, q[1..], p);
    }
  }

  // Three ways the hypotheses can fail, and what is lost.

  const BASE := Server(map["f" := [1, 1], "g" := [2]], map[3 := "f"])

  /** An overlapping write sent straight out is undone by the older write behind it. */
  lemma OverlapReorders()
    ensures var q, w := [Write(3, 0, [7])], Write(3, 0, [8]);
            && WF(BASE)
            && Serve(Replay(BASE, q), w, Complete).0.files["f"] == [8, 1]
            && Replay(Serve(BASE, w, Complete).0, q).files["f"] == [7, 1]
  {
    var q, w := [Write(3, 0, [7])], Write(3, 0, [8]);
    assert q[1..] == [];
    assert Replay(BASE, q) == Serve(BASE, q[0], Complete).0;
    var t := Serve(BASE, w, Complete).0;
    assert Replay(t, q) == Serve(t, q[0], Complete).0;
  }

  /** A close sent straight out makes the writes that wait for its descriptor disappear. */
  lemma CloseDropsWrites()
    ensures var q := [Write(3, 0, [7])];
            && WF(BASE)
            && Serve(Replay(BASE, q), Close(3), Complete).0.files["f"] == [7, 1]
            && Replay(Serve(BASE, Close(3), Complete).0, q).files["f"] == [1, 1]
  {
    var q := [Write(3, 0, [7])];
    assert q[1..] == [];
    assert Replay(BASE, q) == Serve(BASE, q[0], Complete).0;
    var t := Serve(BASE, Close(3), Complete).0;
    assert Replay(t, q) == Serve(t, q[0], Complete).0;
  }

  /** A close whose reply was lost is replayed; if the descriptor was handed out again in
      between, the replay closes the new file. */
  lemma ReplayedCloseHitsNewFile()
    ensures var closed := Serve(BASE, Close(3), Complete).0;
            && WF(BASE)
            && Possible(closed, Open("g"), Fd(3))
            && var reopened := Serve(closed, Open("g"), Fd(3)).0;
               && reopened.fds == map[3 := "g"]
               && Replay(reopened, [Close(3)]).fds == map[]
  {
    var closed := Serve(BASE, Close(3), Complete).0;
    var reopened := Serve(closed, Open("g"), Fd(3)).0;
    assert [Close(3)][1..] == [];
    assert Replay(reopened, [Close(3)]) == Serve(reopened, Close(3), Complete).0;
  }

  // The file system object.

  /** A call through the delaying layer: when the network is down it joins the queue and is
      reported as done. */
  function Delayed(l: Link, q: seq<Request>, e: Net, op: Request): (Link, seq<Request>, int)
    requires LinkOk(l)
  {
    var (l', r) := Call(l, e, op);
    if r.rc == -ENETDOWN then (l', q + [op], 0) else (l', q, r.rc)
  }

  /** What its caller is told: a write that gets through returns its size, a close what the
      server says, and a call that the network fails joins the queue and returns 0. */
  lemma DelayedAnswers(l: Link, q: seq<Request>, e: Net, op: Request)
    requires LinkOk(l) && Queueable(op)
    ensures var (l', q', rc) := Delayed(l, q, e, op);
            if !e.verdict.Up? then rc == 0 && q' == q + [op]
            else if op.Write? then rc == |op.data| && q' == q
            else e.verdict.oc == Complete ==>
              q' == q && rc == if op.fd in View(DoActs(l, e.before)).fds then 0 else -EBADF
  {
  }

  /** All that is still to be stored: the write in flight, then the queue. */
  function Outstanding(l: Link, q: seq<Request>): seq<Request> {
    l.flying + q
  }

  /** `tasks` is the retry queue. */
  class DelayRemoteFileSystem {
    var link: Link
    var tasks: seq<Request>

    ghost predicate Valid()
      reads this
    {
      LinkOk(link) && Backlog(tasks)
    }

    /** What the server will hold once everything outstanding is stored. */
    ghost function Intended(): Server
      requires Valid()
      reads this
    {
      Replay(link.fs, Outstanding(link, tasks))
    }

    constructor (s: Server)
      requires WF(s)
      ensures Valid() && link == Link(s, false, [], []) && tasks == [] && Intended() == s
    {
      link, tasks := Link(s, false, [], []), [];
    }

    method Rfs(e: Net, op: Request) returns (rc: int)
      requires Valid()
      modifies this`link
      ensures Valid()
      ensures var (l, r) := Call(old(link), e, op); link == l && rc == r.rc
    {
      var (l, r) := Call(link, e, op);
      link, rc := l, r.rc;
    }

    /** A write that gets through returns its size; one that is queued returns 0. It takes its
        place behind everything issued before if it overtakes nothing it disagrees with; and
        when the network fails, if the write in flight, lost with the connection, would not
        show. */
    method Write_(fd: int, off: int, data: Content, e: Net) returns (rc: int)
      requires Valid()
      modifies this
      ensures Valid()
      ensures (link, tasks, rc) == Delayed(old(link), old(tasks), e, Write(fd, off, data))
      ensures e.before == [] && old(Undisturbed(link, e, Write(fd, off, data), tasks)) ==>
                Intended() == Serve(old(Intended()), Write(fd, off, data), Complete).0
    {
      ghost var l, q, op := link, tasks, Write(fd, off, data);
      rc := Rfs(e, Write(fd, off, data));
      if rc == -ENETDOWN {
        tasks := tasks + [Write(fd, off, data)];
        rc := 0;
      }
      if e.before == [] && Undisturbed(l, e, op, q) {
        DelayedKeepsOrder(l, q, e, op);
      }
    }

    /** The same for a close, also when it was carried out and its reply lost. */
    method Close_(fd: int, e: Net) returns (rc: int)
      requires Valid()
      modifies this
      ensures Valid()
      ensures (link, tasks, rc) == Delayed(old(link), old(tasks), e, Close(fd))
      ensures e.before == [] && (e.verdict.Up? ==> e.verdict.oc == Complete) && old(Undisturbed(link, e, Close(fd), tasks)) ==>
                Intended() == Serve(old(Intended()), Close(fd), Complete).0
    {
      ghost var l, q, op := link, tasks, Close(fd);
      rc := Rfs(e, Close(fd));
      if rc == -ENETDOWN {
        tasks := tasks + [Close(fd)];
        rc := 0;
      }
      if e.before == [] && (e.verdict.Up? ==> e.verdict.oc == Complete) && Undisturbed(l, e, op, q) {
        DelayedKeepsOrder(l, q, e, op);
      }
    }

    /** One round of the worker: exec_ of the front task, and a pop if it did not report the
        network down. */
    method Retry(e: Net) returns (done: bool)
      requires Valid() && tasks != []
      modifies this
      ensures Valid()
      ensures var (l, r) := Call(old(link), e, old(tasks)[0]);
              link == l && done == (r.rc != -ENETDOWN) && tasks == if done then old(tasks)[1..] else old(tasks)
      ensures e.before == [] && (if e.verdict.Up? then e.verdict.oc == Complete else old(Expendable(link, tasks))) ==>
                Intended() == old(Intended())
    {
      ghost var l, q := link, tasks;
      var rc := Rfs(e, tasks[0]);
      done := rc != -ENETDOWN;
      if done {
        tasks := tasks[1..];
      }
      if e.before == [] && (if e.verdict.Up? then e.verdict.oc == Complete else Expendable(l, q)) {
        RetryKeepsOrder(l, q, e);
      }
    }
  }

  /** Losing the write in flight would not show. */
  ghost predicate Expendable(l: Link, q: seq<Request>)
    requires LinkOk(l)
  {
    l.flying == [] || Unnoticed(l.fs, View(l), q)
  }

  ghost predicate Undisturbed(l: Link, e: Net, op: Request, q: seq<Request>)
    requires LinkOk(l)
  {
    if e.verdict.Up? then Harmless(View(l), op, Complete, q) else Expendable(l, q + [op])
  }

  lemma ViewFirst(l: Link, q: seq<Request>)
    requires LinkOk(l)
    ensures Replay(l.fs, Outstanding(l, q)) == Replay(View(l), q)
  {
    if l.flying == [] {
      assert Outstanding(l, q) == q;
    } else {
      assert Outstanding(l, q)[1..] == q && Outstanding(l, q)[0] == l.flying[0];
    }
  }

  /** Whether a broken connection takes an accepted write with it unnoticed is exactly that. */
  lemma LossExact(l: Link, q: seq<Request>)
    requires LinkOk(l) && Backlog(q)
    ensures Replay(l.fs, q) == Replay(l.fs, Outstanding(l, q)) <==> Expendable(l, q)
  {
    ViewFirst(l, q);
    UnnoticedExact(l.fs, View(l), q);
  }

  lemma EmptyWriteStores(s: Server, op: Request)
    requires WF(s) && op.Write? && op.data == []
    ensures Serve(s, op, Complete).0 == s
  {
    if SeekError(s, op.fd, op.off) == 0 {
      WriteHit(s, op.fd, op.off, op.data);
      assert s.files[s.fds[op.fd] := s.files[s.fds[op.fd]]] == s.files;
    }
  }

  /** Whatever gets through is stored next after what was in flight. */
  lemma UpStores(l: Link, op: Request, oc: Outcome, q: seq<Request>)
    requires LinkOk(l) && (op.Write? ==> oc == Complete) && Possible(View(l), op, oc)
    ensures var l' := Call(l, Net([], Up(oc)), op).0;
            LinkOk(l') && Replay(l'.fs, Outstanding(l', q)) == Replay(Serve(View(l), op, oc).0, q)
  {
    var l' := Call(l, Net([], Up(oc)), op).0;
    ViewFirst(l', q);
    if op.Write? && op.data == [] {
      EmptyWriteStores(View(l), op);
    }
  }

  /** A failing call loses what was in flight. */
  lemma DownLoses(l: Link, op: Request, v: Verdict, q: seq<Request>)
    requires LinkOk(l) && !v.Up?
    ensures var (l', r) := Call(l, Net([], v), op);
            LinkOk(l') && r.rc == -ENETDOWN && l'.fs == l.fs && l'.flying == []
  {
  }

  lemma DelayedKeepsOrder(l: Link, q: seq<Request>, e: Net, op: Request)
    requires LinkOk(l) && Backlog(q) && Queueable(op) && e.before == [] && (e.verdict.Up? && op.Close? ==> e.verdict.oc == Complete)
    requires Undisturbed(l, e, op, q)
    ensures var (l', q', rc) := Delayed(l, q, e, op);
            && LinkOk(l') && Backlog(q')
            && Replay(l'.fs, Outstanding(l', q')) == Serve(Replay(l.fs, Outstanding(l, q)), op, Complete).0
  {
    assert e == Net([], e.verdict);
    ViewFirst(l, q);
    if e.verdict.Up? {
      UpStores(l, op, Complete, q);
      OvertakingHarmless(View(l), op, Complete, q);
    } else {
      DownLoses(l, op, e.verdict, q);
      LossExact(l, q + [op]);
      ViewFirst(l, q + [op]);
      ReplaySnoc(View(l), q, op);
      assert [] + (q + [op]) == q + [op];
    }
  }

  lemma RetryKeepsOrder(l: Link, q: seq<Request>, e: Net)
    requires LinkOk(l) && Backlog(q) && q != [] && e.before == []
    requires if e.verdict.Up? then e.verdict.oc == Complete else Expendable(l, q)
    ensures var (l', r) := Call(l, e, q[0]);
            var q' := if r.rc != -ENETDOWN then q[1..] else q;
            Replay(l'.fs, Outstanding(l', q')) == Replay(l.fs, Outstanding(l, q))
  {
    assert e == Net([], e.verdict);
    ViewFirst(l, q);
    if e.verdict.Up? {
      UpStores(l, q[0], Complete, q[1..]);
    } else {
      DownLoses(l, q[0], e.verdict, q);
      LossExact(l, q);
      assert [] + q == q;
    }
  }
}
