/** Runs of the mirror: what every sequence of its operations keeps, and the offline edit
    theorem. */
module MirrorTheorems {
  import opened Files
  import opened FileServer
  import opened HandleTable
  import opened Link
  import opened LinkFiles
  import opened Mirror
  import opened Answers
  import DR = DelayRemote
  import D = Disk

  /** The file operations, the four commands of the control pipes, and `Elsewhere`: whatever
      other clients, the server's threads, or the worker of the delaying layer do to the
      server, the connections and the queue in between. */
  datatype Op =
    | OpenOp(path: string)
    | CloseOp(h: int)
    | ReadOp(h: int, off: int, size: nat)
    | WriteOp(h: int, off: int, data: Content)
    | Pull(path: string, st: Stated)
    | Push(path: string)
    | Add(path: string, st: Stated)
    | Delete(path: string)
    | Elsewhere(link: Link, delayed: seq<Request>)

  /** An operation, the code it returned, and, of a transfer, what it leaves on record. */
  datatype Event = Event(op: Op, rc: int, trace: Trace)

  /** One operation, from state to state. */
  ghost predicate Step(g: Config, s: State, e: Event, s': State)
    requires Ok(s)
  {
    match e.op
    case OpenOp(p) => (s', e.rc) == OpenStep(g, s, p)
    case CloseOp(h) => (s', e.rc) == CloseStep(s, h)
    case ReadOp(h, off, size) => s' == ReadStep(s, h, off, size).0 && e.rc == ReadStep(s, h, off, size).1.rc
    case WriteOp(h, off, data) => (s', e.rc) == WriteStep(s, h, off, data)
    case Pull(p, st) => Ok(s') && PullPost(g, s, s', p, st, e.rc, e.trace)
    case Push(p) => Ok(s') && PushPost(g, s, s', p, e.rc, e.trace)
    case Add(p, st) =>
      if g.mirror(p) in s.disk.names then e.rc == 0 && s' == s else Ok(s') && PullPost(g, s, s', p, st, e.rc, e.trace)
    case Delete(p) => e.rc == 0 && s' == s.(disk := D.Remove(s.disk, g.mirror(p)))
    case Elsewhere(l, q) => LinkOk(l) && e.rc == 0 && s' == s.(link := l, delayed := q)
  }

  predicate CanStat(st: Stated) {
    if st.IsStat? then st.size <= INT_MAX else st.rc < 0
  }

  /** Every operation of the object is such a step. */
  method Perform(m: MirrorFileSystem, op: Op) returns (rc: int, ghost t: Trace)
    requires Ok(m.S()) && !op.Elsewhere?
    requires op.Pull? || op.Add? ==> CanStat(op.st)
    requires op.Push? && m.config.mirror(op.path) in m.disk.names ==>
               |D.FileAt(m.disk, m.config.mirror(op.path))| <= INT_MAX
    modifies m
    ensures Step(m.config, old(m.S()), Event(op, rc, t), m.S())
  {
    t := NOTHING;
    match op
    case OpenOp(p) => rc := m.Open_(p);
    case CloseOp(h) => rc := m.Close_(h);
    case ReadOp(h, off, size) =>
      var r := m.Read_(h, off, size);
      rc := r.rc;
    case WriteOp(h, off, data) => rc := m.Write_(h, off, data);
    case Pull(p, st) => rc, t := m.Pull_(p, st);
    case Push(p) => rc, t := m.Push_(p);
    case Add(p, st) => rc, t := m.Add_(p, st);
    case Delete(p) => rc := m.Delete_(p);
  }

  // What every step keeps.

  lemma OpenOk(g: Config, s: State, p: string)
    requires Ok(s)
    ensures Ok(OpenStep(g, s, p).0)
  {
  }

  lemma CloseOk(s: State, h: int)
    requires Ok(s)
    ensures Ok(CloseStep(s, h).0)
  {
  }

  lemma ReadOk(s: State, h: int, off: int, size: nat)
    requires Ok(s)
    ensures Ok(ReadStep(s, h, off, size).0)
  {
  }

  lemma WriteOk(s: State, h: int, off: int, data: Content)
    requires Ok(s)
    ensures Ok(WriteStep(s, h, off, data).0)
  {
  }

  /** Live and distinct descriptors for local handles, and all the rest of Ok. */
  lemma StepOk(g: Config, s: State, e: Event, s': State)
    requires Ok(s) && Step(g, s, e, s')
    ensures Ok(s')
  {
    match e.op
    case OpenOp(p) => OpenOk(g, s, p);
    case CloseOp(h) => CloseOk(s, h);
    case ReadOp(h, off, size) => ReadOk(s, h, off, size);
    case WriteOp(h, off, data) => WriteOk(s, h, off, data);
    case _ =>
  }

  /** The states a sequence of events leads through. */
  ghost predicate Run(g: Config, ss: seq<State>, es: seq<Event>) {
    && |ss| == |es| + 1
    && Ok(ss[0])
    && forall i :: 0 <= i < |es| && Ok(ss[i]) ==> Step(g, ss[i], es[i], ss[i + 1])
  }

  /** In every state of every run each local handle has a live descriptor of its own. */
  lemma {:induction false} RunOk(g: Config, ss: seq<State>, es: seq<Event>)
    requires Run(g, ss, es)
    ensures forall i :: 0 <= i < |ss| ==> Ok(ss[i])
  {
    var n := |es|;
    if n > 0 {
      assert Run(g, ss[..n], es[..n - 1]);
      RunOk(g, ss[..n], es[..n - 1]);
      forall i | 0 <= i < n ensures Ok(ss[i]) {
        assert ss[..n][i] == ss[i];
      }
      StepOk(g, ss[n - 1], es[n - 1], ss[n]);
    }
  }

  // The handle table.

  /** The next local file call that can fail does. */
  predicate FaultDue(s: State) {
    s.faults != [] && s.faults[0]
  }

  /** open adds exactly one handle, at the least index not in use; a local one gets a
      descriptor nobody had, at the start of the mirror file. No other handle, descriptor,
      name or content changes. */
  lemma OpenAddsOne(g: Config, s: State, p: string)
    requires Ok(s)
    ensures var (s', rc) := OpenStep(g, s, p);
            var mp := g.mirror(p);
            && s'.disk.names == s.disk.names && s'.disk.data == s.disk.data && s'.delayed == s.delayed
            && if rc < 0 then s'.handles == s.handles && s'.disk == s.disk
               else
                 && LeastFree(s.handles, rc) && rc in s'.handles
                 && s'.handles == s.handles[rc := s'.handles[rc]] && s'.handles[rc].path == p
                 && (s'.handles[rc].isDrfs <==> mp !in s.disk.names)
                 && var fd := s'.handles[rc].fd;
                    if s'.handles[rc].isDrfs then
                      && s'.disk == s.disk
                      && var v := View(DoActs(s.link, Ahead(s.net).before));
                         fd >= 0 && fd !in v.fds && s'.link.fs.fds == v.fds[fd := g.remote(p)]
                    else
                      && s'.link == s.link && fd !in s.disk.fds
                      && s'.disk.fds == s.disk.fds[fd := D.Desc(s.disk.names[mp], 0)]
                      && forall h :: h in s.handles && !s.handles[h].isDrfs ==> s.handles[h].fd != fd
  {
  }

  /** Where a write through a local handle lands: at its offset, or, when the offset is
      negative and lseek fails, where the descriptor stands. */
  function Landing(s: State, h: int, off: int): nat
    requires Ok(s) && h in s.handles && !s.handles[h].isDrfs
  {
    if off >= 0 then off else s.disk.fds[s.handles[h].fd].pos
  }

  /** Opening a mirrored file fails only when the file call does. */
  lemma LocalOpen(g: Config, s: State, p: string)
    requires Ok(s) && g.mirror(p) in s.disk.names
    ensures OpenStep(g, s, p).1 == if FaultDue(s) then -1 else FreeFrom(s.handles, 0)
    ensures OpenStep(g, s, p).0.link == s.link
  {
  }

  /** Opening a file that is not mirrored: the server's code, or a handle. */
  lemma RemoteOpen(g: Config, s: State, p: string)
    requires Ok(s) && g.mirror(p) !in s.disk.names
    ensures var e, rc := Ahead(s.net), OpenStep(g, s, p).1;
            && (!e.verdict.Up? ==> rc == -ENETDOWN)
            && (e.verdict.Up? && e.verdict.oc.Fails? && 0 < e.verdict.oc.errno <= INT_MAX ==> rc == -e.verdict.oc.errno)
            && (e.verdict.Up? && e.verdict.oc.Fd? ==>
                  Possible(View(DoActs(s.link, e.before)), Request.Open(g.remote(p)), e.verdict.oc) ==>
                    rc >= 0 && OpenStep(g, s, p).0.handles[rc].fd == e.verdict.oc.fd)
  {
  }

  /** A read through a local handle: as many bytes as were asked for, or as the file has from
      where it lands, each of them the file's; the descriptor stands behind them. It fails only
      when the file call does. */
  lemma LocalRead(s: State, h: int, off: int, size: nat)
    requires Ok(s) && h in s.handles && !s.handles[h].isDrfs
    ensures var (s', r) := ReadStep(s, h, off, size);
            var fd, at := s.handles[h].fd, Landing(s, h, off);
            var c := s.disk.data[s.disk.fds[fd].ino];
            && s'.disk.data == s.disk.data && s'.disk.names == s.disk.names && s'.handles == s.handles && s'.link == s.link
            && if FaultDue(s) then r == Result(-EIO, [])
               else
                 && r.rc == |r.data| && IsPart(r.data, c, at, size)
                 && s'.disk.fds == s.disk.fds[fd := D.Desc(s.disk.fds[fd].ino, at + r.rc)]
  {
    var fd := s.handles[h].fd;
    var d := D.Seek(s.disk, fd, off);
    assert D.DiskOk(d) && d == s.disk.(fds := s.disk.fds[fd := D.Desc(s.disk.fds[fd].ino, Landing(s, h, off))]);
    DiskRead(d, fd, size);
  }

  lemma DiskRead(d: D.Disk, fd: int, n: nat)
    requires D.DiskOk(d) && fd in d.fds
    ensures var (d', b) := D.Read(d, fd, n);
            var ino, at := d.fds[fd].ino, d.fds[fd].pos;
            IsPart(b, d.data[ino], at, n) && d' == d.(fds := d.fds[fd := D.Desc(ino, at + |b|)])
  {
    ReadAtIsPart(d.data[d.fds[fd].ino], d.fds[fd].pos, n);
  }

  /** A write through a local handle stores all it was given where it lands, in that one inode,
      and returns its size. It fails only when the file call does. */
  lemma LocalWrite(s: State, h: int, off: int, data: Content)
    requires Ok(s) && h in s.handles && !s.handles[h].isDrfs
    ensures var (s', rc) := WriteStep(s, h, off, data);
            var fd, at := s.handles[h].fd, Landing(s, h, off);
            var ino := s.disk.fds[fd].ino;
            && s'.disk.names == s.disk.names && s'.handles == s.handles && s'.link == s.link
            && if FaultDue(s) then rc == -EIO && s'.disk.data == s.disk.data
               else
                 && rc == |data| && ino in s'.disk.data && s'.disk.data == s.disk.data[ino := s'.disk.data[ino]]
                 && Written(s.disk.data[ino], at, data, s'.disk.data[ino])
                 && s'.disk.fds == s.disk.fds[fd := D.Desc(ino, at + rc)]
  {
    WriteAtWritten(s.disk.data[s.disk.fds[s.handles[h].fd].ino], Landing(s, h, off), data);
  }

  /** Through a remote handle: what the client's view of the server gives, the index h being what
      it is asked for; a write or a close that meets a dead network is queued and reported as
      done. */
  lemma RemoteCalls(s: State, h: int, off: int, size: nat, data: Content)
    requires Ok(s) && h in s.handles && s.handles[h].isDrfs
    ensures var e, v := Ahead(s.net), View(DoActs(s.link, Ahead(s.net).before));
            var (s1, r) := ReadStep(s, h, off, size);
            var (s2, rc) := WriteStep(s, h, off, data);
            && s1.disk == s.disk && s2.disk == s.disk && s1.delayed == s.delayed
            && (if !e.verdict.Up? then r == Result(-ENETDOWN, [])
                else Possible(v, Request.Read(h, off, size), e.verdict.oc) ==>
                       Gets(v, Request.Read(h, off, size), e.verdict.oc, r))
            && (if e.verdict.Up? then rc == |data| && s2.delayed == s.delayed
                else rc == 0 && s2.delayed == s.delayed + [Request.Write(h, off, data)])
  {
    var e, v := Ahead(s.net), View(DoActs(s.link, Ahead(s.net).before));
    DR.DelayedAnswers(s.link, s.delayed, e, Request.Write(h, off, data));
    if e.verdict.Up? && Possible(v, Request.Read(h, off, size), e.verdict.oc) {
      CallAnswers(s.link, e, Request.Read(h, off, size));
    }
  }

  /** The same descriptors, leading to the same inodes. */
  ghost predicate SameInodes(d: D.Disk, d': D.Disk) {
    d'.fds.Keys == d.fds.Keys && forall fd :: fd in d.fds ==> d'.fds[fd].ino == d.fds[fd].ino
  }

  /** A write changes the contents of one inode at most, at the place where it lands, and only
      if it succeeds through a local handle. */
  lemma WriteLands(s: State, h: int, off: int, data: Content)
    requires Ok(s)
    ensures var (s', rc) := WriteStep(s, h, off, data);
            && s'.handles == s.handles && s'.disk.names == s.disk.names && SameInodes(s.disk, s'.disk)
            && (rc >= 0 && h in s.handles && !s.handles[h].isDrfs ==>
                  var ino := s.disk.fds[s.handles[h].fd].ino;
                  s'.disk.data == s.disk.data[ino := WriteAt(s.disk.data[ino], Landing(s, h, off), data)])
            && (rc < 0 || h !in s.handles || s.handles[h].isDrfs ==> s'.disk.data == s.disk.data)
  {
  }

  /** What was written through one local handle is read back through any handle on the same
      file. */
  lemma ReadAfterWrite(s: State, h: int, k: int, off: nat, data: Content)
    requires Ok(s) && h in s.handles && k in s.handles && !s.handles[h].isDrfs && !s.handles[k].isDrfs
    requires s.disk.fds[s.handles[h].fd].ino == s.disk.fds[s.handles[k].fd].ino
    ensures var (s', rc) := WriteStep(s, h, off, data);
            && Ok(s')
            && var r := ReadStep(s', k, off, |data|).1;
               rc >= 0 && r.rc >= 0 && data != [] ==> r.data == data
  {
    WriteOk(s, h, off, data);
    WriteLands(s, h, off, data);
  }

  /** A close takes one handle out of the table, closes a local one's descriptor and nothing
      else, and leaves every other handle its own. */
  lemma CloseLeaves(s: State, h: int)
    requires Ok(s)
    ensures var (s', rc) := CloseStep(s, h);
            && rc == (if h in s.handles then 0 else -EBADF)
            && s'.handles == s.handles - {h} && s'.disk.names == s.disk.names && s'.disk.data == s.disk.data
            && s'.disk.fds == (if h in s.handles && !s.handles[h].isDrfs then s.disk.fds - {s.handles[h].fd} else s.disk.fds)
            && forall k :: k in s'.handles && !s'.handles[k].isDrfs ==>
                 s'.handles[k].fd in s'.disk.fds && s'.disk.fds[s'.handles[k].fd] == s.disk.fds[s.handles[k].fd]
  {
    assert h !in s.handles ==> s.handles - {h} == s.handles;
  }

  /** An index outside the table gives -EBADF and changes nothing, whether it was never
      handed out or has been closed. */
  lemma ClosedIsBad(s: State, h: int, off: int, size: nat, data: Content)
    requires Ok(s)
    ensures var (s', rc) := CloseStep(s, h);
            && h !in s'.handles && Ok(s')
            && (rc == -EBADF <==> h !in s.handles)
            && CloseStep(s', h) == (s', -EBADF)
            && ReadStep(s', h, off, size) == (s', Result(-EBADF, []))
            && WriteStep(s', h, off, data) == (s', -EBADF)
  {
    CloseOk(s, h);
  }

  /** The layers below are handed the table index h where open stored a descriptor. What is
      written through a remote handle reaches the file it was opened on exactly when index
      and descriptor lead the server to the same file. */
  lemma RemoteHandleExact(s: State, h: int, oc: Outcome)
    requires Ok(s) && h in s.handles && s.handles[h].isDrfs && s.handles[h].fd in View(s.link).fds
    requires Ahead(s.net) == Net([], Up(oc))
    ensures var fd, r := s.handles[h].fd, View(s.link);
            (forall off: int, data: Content | data != [] ::
               LinkOk(WriteStep(s, h, off, data).0.link)
               && View(WriteStep(s, h, off, data).0.link) == Serve(r, Request.Write(fd, off, data), Complete).0)
            <==> h in r.fds && r.fds[h] == r.fds[fd]
  {
    var r, fd := View(s.link), s.handles[h].fd;
    forall off: int, data: Content | data != []
      ensures LinkOk(WriteStep(s, h, off, data).0.link)
      ensures View(WriteStep(s, h, off, data).0.link) == Serve(r, Request.Write(h, off, data), Complete).0
    {
    }
    var p := r.fds[fd];
    var n := |r.files[p]|;
    var astray := Serve(r, Request.Write(h, n, [1]), Complete).0;
    var meant := Serve(r, Request.Write(fd, n, [1]), Complete).0;
    WriteAtBytes(r.files[p], n, [1]);
    assert [1][..1] == [1 as byte];
    assert |meant.files[p]| == n + 1;
    if !LeadsTo(r, h, p) {
      assert astray.files[p] == r.files[p];
      assert View(WriteStep(s, h, n, [1]).0.link) == astray;
    }
  }

  /** So what is written to the first remote file opened is lost, with success reported, when
      the server's first descriptor is not 0. */
  lemma RemoteHandleAstray(g: Config, p: string)
    ensures var rp := g.remote(p);
            var l := Link(Server(map[rp := []], map[]), false, [], []);
            var s := State(D.Disk(map[], map[], map[], 0), l, map[], [], [Net([], Up(Fd(5))), Net([], Up(Complete))], []);
            && Ok(s)
            && OpenStep(g, s, p).1 == 0
            && var (s', rc) := WriteStep(OpenStep(g, s, p).0, 0, 0, [1]);
               rc == 1 && s'.net == [] && LinkOk(s'.link) && View(s'.link).files == l.fs.files
  {
    var rp := g.remote(p);
    var l := Link(Server(map[rp := []], map[]), false, [], []);
    var s := State(D.Disk(map[], map[], map[], 0), l, map[], [], [Net([], Up(Fd(5))), Net([], Up(Complete))], []);
    assert g.mirror(p) !in s.disk.names;
    OpenOk(g, s, p);
    var s1 := OpenStep(g, s, p).0;
    assert s1.net == [Net([], Up(Complete))];
    assert s1.handles[0] == Handle(5, true, p);
    assert 0 !in View(s1.link).fds;
  }

  /** A close of a remote handle closes the descriptor it was opened with exactly when index
      and descriptor are the same number. */
  lemma RemoteCloseExact(s: State, h: int)
    requires Ok(s) && h in s.handles && s.handles[h].isDrfs && s.handles[h].fd in View(s.link).fds
    requires Ahead(s.net) == Net([], Up(Complete))
    ensures var (s', rc) := CloseStep(s, h);
            var fd, r := s.handles[h].fd, View(s.link);
            && rc == 0 && LinkOk(s'.link)
            && (View(s'.link) == Serve(r, Request.Close(fd), Complete).0 <==> h == fd)
  {
    var fd, r := s.handles[h].fd, View(s.link);
    var closed := View(CloseStep(s, h).0.link);
    assert closed == Serve(r, Request.Close(h), Complete).0;
    if h != fd {
      assert fd in closed.fds;
    }
  }

  /** And reads through it give what reads of its file would exactly when the index leads the
      server to a file of the same content. */
  lemma RemoteReadExact(s: State, h: int)
    requires Ok(s) && h in s.handles && s.handles[h].isDrfs && s.handles[h].fd in View(s.link).fds
    requires Ahead(s.net) == Net([], Up(Complete))
    ensures var fd, r := s.handles[h].fd, View(s.link);
            (forall off: int, size: nat ::
               ReadStep(s, h, off, size).1 == Outward(Request.Read(fd, off, size), Serve(r, Request.Read(fd, off, size), Complete).1))
            <==> h in r.fds && r.files[r.fds[h]] == r.files[r.fds[fd]]
  {
    var fd, r := s.handles[h].fd, View(s.link);
    forall off: int, size: nat
      ensures ReadStep(s, h, off, size).1 == Outward(Request.Read(h, off, size), Serve(r, Request.Read(h, off, size), Complete).1)
    {
    }
    var c := r.files[r.fds[fd]];
    if h !in r.fds {
      assert ReadStep(s, h, 0, 0).1.rc < 0;
    } else {
      var n := Max(|r.files[r.fds[h]]|, |c|);
      assert ReadStep(s, h, 0, n).1.data == r.files[r.fds[h]];
      assert ReadAt(c, 0, n) == c;
    }
  }

  /** A server with another file open as its descriptor 0, and one with p open besides. */
  function Crossed(rp: string, other: string, both: bool): Link {
    Link(Server(map[rp := [], other := [1]], if both then map[0 := other, 5 := rp] else map[0 := other]), both, [], [])
  }

  const NODISK := D.Disk(map[], map[], map[], 0)
  const UP := Net([], Up(Complete))

  /** There the first remote file opened reads as the other one, and closing it closes the
      other and leaves its own descriptor open. */
  lemma RemoteHandleCrossed(g: Config, p: string, other: string)
    requires other != g.remote(p)
    ensures var rp := g.remote(p);
            var s := State(NODISK, Crossed(rp, other, false), map[], [], [Net([], Up(Fd(5))), UP, UP], []);
            && Ok(s) && OpenStep(g, s, p).1 == 0
            && var s1 := OpenStep(g, s, p).0;
               && Ok(s1) && ReadStep(s1, 0, 0, 1).1 == Result(1, [1])
               && var s2 := ReadStep(s1, 0, 0, 1).0;
                  && Ok(s2) && CloseStep(s2, 0).1 == 0 && CloseStep(s2, 0).0.handles == map[]
                  && CloseStep(s2, 0).0.link.fs.fds == map[5 := rp]
  {
    var rp := g.remote(p);
    var s := State(NODISK, Crossed(rp, other, false), map[], [], [Net([], Up(Fd(5))), UP, UP], []);
    CrossedOpen(g, s, p, other);
    CrossedUse(rp, other, p);
  }

  lemma CrossedOpen(g: Config, s: State, p: string, other: string)
    requires other != g.remote(p)
    requires s == State(NODISK, Crossed(g.remote(p), other, false), map[], [], [Net([], Up(Fd(5))), UP, UP], [])
    ensures Ok(s)
    ensures OpenStep(g, s, p) ==
            (State(NODISK, Crossed(g.remote(p), other, true), map[0 := Handle(5, true, p)], [], [UP, UP], []), 0)
  {
    assert s.net[1..] == [UP, UP];
    assert map[0 := other][5 := g.remote(p)] == map[0 := other, 5 := g.remote(p)];
  }

  lemma CrossedUse(rp: string, other: string, p: string)
    requires other != rp
    ensures var s1 := State(NODISK, Crossed(rp, other, true), map[0 := Handle(5, true, p)], [], [UP, UP], []);
            && Ok(s1) && ReadStep(s1, 0, 0, 1).1 == Result(1, [1])
            && var s2 := ReadStep(s1, 0, 0, 1).0;
               && Ok(s2) && CloseStep(s2, 0).1 == 0 && CloseStep(s2, 0).0.handles == map[]
               && CloseStep(s2, 0).0.link.fs.fds == map[5 := rp]
  {
    var s1 := State(NODISK, Crossed(rp, other, true), map[0 := Handle(5, true, p)], [], [UP, UP], []);
    assert ReadStep(s1, 0, 0, 1).0 == s1.(net := [UP]);
  }

  // Temporary files.

  /** Paths are canonical, and the commands name files without the temporary prefix. */
  predicate OnFiles(g: Config, op: Op) {
    match op
    case OpenOp(p) => g.rooted(p)
    case Pull(p, _) => g.visible(p)
    case Push(p) => g.visible(p)
    case Add(p, _) => g.visible(p)
    case Delete(p) => g.visible(p)
    case _ => true
  }

  /** No temporary file exists. */
  ghost predicate Clean(g: Config, s: State) {
    forall n :: n in s.disk.names ==> !g.hidden(n)
  }

  /** Contents that a name or a descriptor could lead to before are the same. */
  ghost predicate DataKept(d: D.Disk, d': D.Disk) {
    forall i :: i in d.data ==> i in d'.data && d'.data[i] == d.data[i]
  }

  lemma PullFailsClean(g: Config, s: State, s': State, p: string, st: Stated, rc: int, t: Trace)
    requires Ok(s) && Ok(s') && Proper(g) && Clean(g, s) && g.visible(p) && PullPost(g, s, s', p, st, rc, t) && rc != 0
    ensures s'.disk.names == s.disk.names && s'.disk.fds == s.disk.fds && DataKept(s.disk, s'.disk)
  {
  }

  /** With no temporary file about, pull_ publishes exactly what it downloaded. */
  lemma PullPublishes(g: Config, s: State, s': State, p: string, st: Stated, t: Trace)
    requires Ok(s) && Ok(s') && Proper(g) && Clean(g, s) && g.visible(p) && PullPost(g, s, s', p, st, 0, t)
    ensures st.IsStat? && |t.got| == st.size
    ensures s'.disk.names == s.disk.names[g.mirror(p) := s.disk.nextIno]
    ensures s'.disk.data == s.disk.data[s.disk.nextIno := t.got]
    ensures s'.disk.fds == s.disk.fds
    ensures Clear(s.link, g.remote(p), t.fd) ==> t.got <= RemoteFile(g, s, p)
  {
    assert t.got + Tail([], st.size) == t.got;
  }

  lemma PullClean(g: Config, s: State, s': State, p: string, st: Stated, rc: int, t: Trace)
    requires Ok(s) && Ok(s') && Proper(g) && Clean(g, s) && g.visible(p) && PullPost(g, s, s', p, st, rc, t)
    ensures Clean(g, s')
  {
    if rc == 0 {
      PullPublishes(g, s, s', p, st, t);
    } else {
      PullFailsClean(g, s, s', p, st, rc, t);
    }
  }

  lemma PushKeepsDisk(g: Config, s: State, e: Event, s': State)
    requires Ok(s) && Step(g, s, e, s') && e.op.Push?
    ensures s'.disk == s.disk && s'.handles == s.handles
  {
  }

  predicate FileOp(op: Op) {
    op.OpenOp? || op.CloseOp? || op.ReadOp? || op.WriteOp?
  }

  lemma FileOpKeepsNames(g: Config, s: State, e: Event, s': State)
    requires Ok(s) && Step(g, s, e, s') && FileOp(e.op)
    ensures s'.disk.names == s.disk.names
  {
  }

  lemma StepClean(g: Config, s: State, e: Event, s': State)
    requires Ok(s) && Proper(g) && Step(g, s, e, s') && Clean(g, s) && OnFiles(g, e.op)
    ensures Clean(g, s')
  {
    if FileOp(e.op) {
      FileOpKeepsNames(g, s, e, s');
    } else {
      StepOk(g, s, e, s');
      if e.op.Pull? || (e.op.Add? && g.mirror(e.op.path) !in s.disk.names) {
        PullClean(g, s, s', e.op.path, e.op.st, e.rc, e.trace);
      } else if e.op.Push? {
        PushKeepsDisk(g, s, e, s');
      }
    }
  }

  lemma {:induction false} RunClean(g: Config, ss: seq<State>, es: seq<Event>)
    requires Run(g, ss, es) && Proper(g) && Clean(g, ss[0])
    requires forall i :: 0 <= i < |es| ==> OnFiles(g, es[i].op)
    ensures forall i :: 0 <= i < |ss| ==> Clean(g, ss[i])
  {
    var n := |es|;
    if n > 0 {
      RunOk(g, ss, es);
      assert Run(g, ss[..n], es[..n - 1]);
      RunClean(g, ss[..n], es[..n - 1]);
      forall i | 0 <= i < n ensures Clean(g, ss[i]) {
        assert ss[..n][i] == ss[i];
      }
      StepClean(g, ss[n - 1], es[n - 1], ss[n]);
    }
  }

  /** Over every run that starts without one, no temporary file exists between operations;
      so no download ever mixes with the remains of an earlier one. */
  lemma NoTemporaryFiles(g: Config, ss: seq<State>, es: seq<Event>)
    requires Run(g, ss, es) && Proper(g) && Clean(g, ss[0])
    requires forall i :: 0 <= i < |es| ==> OnFiles(g, es[i].op)
    ensures forall i :: 0 <= i < |ss| ==> Clean(g, ss[i])
    ensures forall i :: 0 <= i < |es| && es[i].op.Pull? && es[i].rc == 0 ==> Ok(ss[i]) && Mirrored(g, ss[i], ss[i + 1], es[i])
  {
    RunOk(g, ss, es);
    RunClean(g, ss, es);
    forall i | 0 <= i < |es| && es[i].op.Pull? && es[i].rc == 0 ensures Mirrored(g, ss[i], ss[i + 1], es[i]) {
    }
  }

  /** The mirror file holds exactly what the server sent: as much as the stat said, and, with
      nothing abandoned in the way, the beginning of the remote file. */
  ghost predicate Mirrored(g: Config, s: State, s': State, e: Event)
    requires e.op.Pull? && Ok(s)
  {
    && D.DiskOk(s'.disk) && g.mirror(e.op.path) in s'.disk.names
    && D.FileAt(s'.disk, g.mirror(e.op.path)) == e.trace.got && e.op.st.IsStat? && |e.trace.got| == e.op.st.size
    && (Clear(s.link, g.remote(e.op.path), e.trace.fd) ==> e.trace.got <= RemoteFile(g, s, e.op.path))
  }
}
