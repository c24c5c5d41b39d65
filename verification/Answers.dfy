/** What one request does and what its caller gets, told from what the operating system chose
    and nothing else: the meaning of `FileServer.Serve` and `FileServer.Outward`. */
module Answers {
  import opened Files
  import opened FileServer
  import opened Link

  /** Block k of a sequence of equal blocks. */
  function Block(b: Content, k: nat, size: nat): Content {
    if (k + 1) * size <= |b| then b[k * size..(k + 1) * size] else []
  }

  /** The bytes of a file from a position on, as many as there are up to n. */
  ghost predicate IsPart(d: Content, c: Content, off: nat, n: nat) {
    && |d| == Max(0, Min(n, |c| - off))
    && forall i :: 0 <= i < |d| ==> d[i] == c[off + i]
  }

  /** What the caller of one request gets. A failed read gives -1 whatever the error, a failed
      create +1, and a write its size. */
  ghost predicate Gets(s: Server, op: Request, oc: Outcome, r: Result)
    requires WF(s)
  {
    match op
    case Getattr(_) =>
      && (oc.Fails? ==> r == Result(-oc.errno, []))
      && (oc.Stat? ==> r == Result(0, oc.blob))
    case Readdir(_) => GetsListing(oc, r, DIRENT_SIZE)
    case Ls(_) => GetsListing(oc, r, ENTRY_SIZE)
    case Open(_) =>
      && (oc.Fails? ==> r == Result(-oc.errno, []))
      && (oc.Fd? ==> r == Result(oc.fd, []))
    case Close(fd) =>
      r == Result(if fd !in s.fds then -EBADF else if oc.Fails? then -oc.errno else 0, [])
    case Read(fd, off, size) =>
      if fd !in s.fds then r == Result(-EBADF, [])
      else if off < 0 then r == Result(-EINVAL, [])
      else if oc.Fails? then r == Result(-1, [])
      else
        && r.rc == |r.data|
        && IsPart(r.data, s.files[s.fds[fd]], off, if oc.Short? then Min(oc.n, Max(size, 0)) else Max(size, 0))
    case Write(_, _, data) => r == Result(|data|, [])
    case Create(_) => r == Result(if oc.Fails? then 1 else 0, [])
  }

  ghost predicate GetsListing(oc: Outcome, r: Result, size: nat) {
    && (oc.Fails? ==> r == Result(-oc.errno, []))
    && (oc.Listing? ==>
          && r.rc == 0 && |r.data| == |oc.blobs| * size
          && forall k :: 0 <= k < |oc.blobs| ==> Block(r.data, k, size) == oc.blobs[k])
  }

  /** A file before and after d was written at off. */
  ghost predicate Written(f: Content, off: nat, d: Content, g: Content) {
    && |g| == Max(|f|, if d == [] then 0 else off + |d|)
    && forall i :: 0 <= i < |g| ==>
         g[i] == if off <= i < off + |d| then d[i - off] else if i < |f| then f[i] else 0
  }

  /** What becomes of the files and the open descriptors. */
  ghost predicate Becomes(s: Server, op: Request, oc: Outcome, t: Server)
    requires WF(s)
  {
    match op
    case Open(p) =>
      if oc.Fd? then
        && t.fds == s.fds[oc.fd := p]
        && t.files == if p in s.files then s.files else s.files[p := []]
      else t == s
    case Close(fd) => t.files == s.files && t.fds == if oc.Fails? then s.fds else s.fds - {fd}
    case Write(fd, off, data) =>
      if fd !in s.fds || off < 0 || oc.Fails? then t == s
      else
        var p, n := s.fds[fd], if oc.Short? then Min(oc.n, |data|) else |data|;
        && t.fds == s.fds && t.files.Keys == s.files.Keys
        && (forall q :: q in s.files && q != p ==> t.files[q] == s.files[q])
        && Written(s.files[p], off, data[..n], t.files[p])
    case Create(p) => t.fds == s.fds && t.files == if oc.Fails? then s.files else s.files[p := []]
    case _ => t == s
  }

  lemma ReadAtIsPart(c: Content, off: nat, n: nat)
    ensures IsPart(ReadAt(c, off, n), c, off, n)
  {
  }

  lemma WriteAtWritten(f: Content, off: nat, d: Content)
    ensures Written(f, off, d, WriteAt(f, off, d))
  {
    WriteAtBytes(f, off, d);
    var g := WriteAt(f, off, d);
    forall i | 0 <= i < |g| ensures g[i] == if off <= i < off + |d| then d[i - off] else if i < |f| then f[i] else 0 {
      assert At(g, i) == if off <= i < off + |d| then d[i - off] else At(f, i);
    }
  }

  lemma Times(k: nat, n: nat, size: nat)
    ensures (n + 1) * size == n * size + size
    ensures k < n ==> (k + 1) * size <= n * size
  {
    if k < n {
      TimesUp(k + 1, n, size);
    }
  }

  lemma TimesUp(a: nat, b: nat, size: nat)
    requires a <= b
    ensures a * size <= b * size
  {
  }

  /** Every block is where it belongs. */
  lemma {:induction false} ConcatBlocks(bs: seq<Content>, size: nat)
    requires forall i :: 0 <= i < |bs| ==> |bs[i]| == size
    ensures |Concat(bs)| == |bs| * size
    ensures forall k :: 0 <= k < |bs| ==> Block(Concat(bs), k, size) == bs[k]
  {
    if bs != [] {
      var rest := bs[1..];
      ConcatBlocks(rest, size);
      Times(0, |rest|, size);
      forall k | 0 <= k < |bs| ensures Block(Concat(bs), k, size) == bs[k] {
        if k > 0 {
          Times(k - 1, |rest|, size);
          BlockShifts(bs[0], Concat(rest), k - 1, size);
        } else {
          BlockFirst(bs[0], Concat(rest), size);
        }
      }
    }
  }

  lemma BlockFirst(a: Content, b: Content, size: nat)
    requires |a| == size
    ensures Block(a + b, 0, size) == a
  {
  }

  lemma BlockShifts(a: Content, b: Content, k: nat, size: nat)
    requires |a| == size && (k + 1) * size <= |b|
    ensures Block(a + b, k + 1, size) == Block(b, k, size)
  {
    Times(0, k, size);
    Times(0, k + 1, size);
  }

  /** Every request, on every server, for every choice open to the operating system. */
  lemma ServeAnswers(s: Server, op: Request, oc: Outcome)
    requires WF(s) && Possible(s, op, oc)
    ensures var (t, r) := Serve(s, op, oc);
            Gets(s, op, oc, Outward(op, r)) && Becomes(s, op, oc, t)
  {
    if oc.Listing? {
      ListingAnswers(s, op, oc);
    } else if op.Read? && op.fd in s.fds && op.off >= 0 {
      ReadAtIsPart(s.files[s.fds[op.fd]], op.off, Limit(oc, Max(op.size, 0)));
    } else if op.Write? && op.fd in s.fds && op.off >= 0 && !oc.Fails? {
      WriteAtWritten(s.files[s.fds[op.fd]], op.off, op.data[..Limit(oc, |op.data|)]);
    }
  }

  lemma ListingAnswers(s: Server, op: Request, oc: Outcome)
    requires WF(s) && Possible(s, op, oc) && oc.Listing?
    ensures Gets(s, op, oc, Outward(op, Serve(s, op, oc).1)) && Serve(s, op, oc).0 == s
  {
    ConcatBlocks(oc.blobs, EntrySize(op));
  }

  /** The operating system's choice, or storing all that a write was given. */
  function Choice(op: Request, oc: Outcome): Outcome {
    if op.Write? then Complete else oc
  }

  lemma CallServes(l: Link, e: Net, op: Request)
    requires LinkOk(l) && e.verdict.Up? && Possible(View(DoActs(l, e.before)), op, e.verdict.oc)
    ensures var (l', r) := Call(l, e, op);
            var v := View(DoActs(l, e.before));
            var (t, reply) := Serve(v, op, Choice(op, e.verdict.oc));
            r == Outward(op, reply) && View(l') == if op.Write? && op.data == [] then v else t
  {
  }

  /** So too through a network that carries the reply back: the client gets what its view of the
      server gives. */
  lemma CallAnswers(l: Link, e: Net, op: Request)
    requires LinkOk(l) && e.verdict.Up? && Possible(View(DoActs(l, e.before)), op, e.verdict.oc)
    ensures var (l', r) := Call(l, e, op);
            var v := View(DoActs(l, e.before));
            Gets(v, op, Choice(op, e.verdict.oc), r) && Becomes(v, op, Choice(op, e.verdict.oc), View(l'))
  {
    var v := View(DoActs(l, e.before));
    CallServes(l, e, op);
    ServeAnswers(v, op, Choice(op, e.verdict.oc));
    if op.Write? && op.data == [] {
      EmptyWriteBecomes(v, op);
    }
  }

  lemma EmptyWriteBecomes(s: Server, op: Request)
    requires WF(s) && op.Write? && op.data == []
    ensures Becomes(s, op, Complete, s)
  {
    if op.fd in s.fds && op.off >= 0 {
      WriteAtWritten(s.files[s.fds[op.fd]], op.off, []);
    }
  }
}
