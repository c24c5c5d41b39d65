/** The mirror: local copies of remote files, fetched and sent back in chunks, and the table
    of handles through which files are read and written. */
module Mirror {
  import opened Files
  import opened FileServer
  import opened Paths
  import opened HandleTable
  import opened Link
  import opened LinkFiles
  import opened Transfer
  import D = Disk
  import DR = DelayRemote

  const ENOENT := 2

  // The network's future: what becomes of one remote call after the other.

  /** An exhausted future means that there is no connection to be had any more. */
  function Ahead(net: seq<Net>): Net {
    if net == [] then Net([], Refused) else net[0]
  }

  function Behind(net: seq<Net>): seq<Net> {
    if net == [] then [] else net[1..]
  }

  /** What the (possibly cached) stat of a remote file said. */
  datatype Stated = NoStat(rc: int) | IsStat(regular: bool, size: nat)

  datatype Handle = Handle(fd: int, isDrfs: bool, path: string)

  /** `net` is the future of the network, `faults` that of the local file calls that can fail
      (open, write, read): true for a failure, and no failures once it is exhausted.
      `delayed` is the retry queue of the delaying layer. */
  datatype State = State(
    disk: D.Disk, link: Link, handles: map<int, Handle>, delayed: seq<Request>,
    net: seq<Net>, faults: seq<bool>)

  ghost predicate Ok(s: State) {
    && D.DiskOk(s.disk) && LinkOk(s.link)
    // Each local handle has a live descriptor of its own.
    && (forall h :: h in s.handles && !s.handles[h].isDrfs ==> s.handles[h].fd in s.disk.fds)
    && (forall h, g :: h in s.handles && g in s.handles && h != g && !s.handles[h].isDrfs && !s.handles[g].isDrfs ==>
          s.handles[h].fd != s.handles[g].fd)
  }

  /** Where a path leads: its mirror file, its temporary file and its remote file. `rooted` are
      the paths in use, `visible` those a command may name, and `hidden` the local names that
      only temporary files have. */
  datatype Config = Config(
    mirror: string -> string, temp: string -> string, remote: string -> string,
    rooted: string -> bool, visible: string -> bool, hidden: string -> bool)

  predicate NamesFile(p: string) {
    Canonical(p) && p != "/" && !Hidden(FileName(p))
  }

  /** The configuration with these two roots. */
  function Configured(mirrorRoot: string, remoteRoot: string): Config {
    Config(p => MirrorPath(p, mirrorRoot), p => TempPath(p, mirrorRoot), p => ToRealPath(p, remoteRoot),
           p => Canonical(p), p => NamesFile(p), n => Hidden(FileName(n)))
  }

  /** All that the mirror needs of its paths. */
  ghost predicate Proper(g: Config) {
    && (forall p, q :: g.rooted(p) && g.rooted(q) && g.mirror(p) == g.mirror(q) ==> p == q)
    && (forall p :: g.visible(p) ==> g.rooted(p) && g.hidden(g.temp(p)) && !g.hidden(g.mirror(p)))
  }

  /** Every pair of roots gives it that. */
  lemma ConfiguredProper(mirrorRoot: string, remoteRoot: string)
    ensures Proper(Configured(mirrorRoot, remoteRoot))
  {
    var g := Configured(mirrorRoot, remoteRoot);
    forall p, q | g.rooted(p) && g.rooted(q) && g.mirror(p) == g.mirror(q) ensures p == q {
      RealPathInjective(p, q, mirrorRoot);
    }
    forall p | g.visible(p) ensures g.rooted(p) && g.hidden(g.temp(p)) && !g.hidden(g.mirror(p)) {
      TempIsNoMirror(p, p, mirrorRoot);
    }
  }

  /** And everything lies below the root it belongs to: mirror file, remote file and temporary
      file. */
  lemma ConfiguredUnder(mirrorRoot: string, remoteRoot: string, p: string)
    requires Absolute(p)
    ensures var g := Configured(mirrorRoot, remoteRoot);
            && Parts(g.mirror(p)) == Parts(mirrorRoot) + Parts(p)
            && Parts(g.remote(p)) == Parts(remoteRoot) + Parts(p)
            && (p != "/" ==> Parts(g.temp(p)) == Parts(mirrorRoot) + (Parts(GetDirPath(p)) + [DOWNLOAD + FileName(p)]))
  {
    PartsUnder(p, mirrorRoot);
    PartsUnder(p, remoteRoot);
    if p != "/" {
      TempUnder(p, mirrorRoot);
    }
  }

  // The chunk sizes pass through int.

  function AsInt(x: int): int {
    var u := x % 0x1_0000_0000;
    if u > INT_MAX then u - 0x1_0000_0000 else u
  }

  /** A chunk has a sensible size for every size below 2^31, and 2^31 is the first for which
      it has not. */
  lemma ChunkSizes(n: nat)
    ensures 0 < n <= INT_MAX ==> 0 < Min(AsInt(n), DL_CHUNK_SIZE) <= Min(n, DL_CHUNK_SIZE)
    ensures 0 < n <= INT_MAX ==> Min(AsInt(n), DL_CHUNK_SIZE) == Min(n, DL_CHUNK_SIZE)
    ensures n == INT_MAX + 1 ==> Min(AsInt(n), DL_CHUNK_SIZE) < 0
  {
  }

  // What pull_ and push_ promise, as relations between the state before and after.

  /** Nothing of the local file system has changed but the temporary name (gone) and the
      contents of inodes that no name leads to. */
  ghost predicate DiskKept(d: D.Disk, d': D.Disk, temp: string) {
    && d'.fds == d.fds
    && d'.names == d.names - {temp}
    && d.data.Keys <= d'.data.Keys && d.nextIno <= d'.nextIno
    && forall i :: i in d.data && !(temp in d.names && d.names[temp] == i) ==> d'.data[i] == d.data[i]
  }

  /** `temp` has been published at `to`, holding `c`. */
  ghost predicate Published(d: D.Disk, d': D.Disk, temp: string, to: string, c: Content) {
    && to in d'.names
    && d'.fds == d.fds
    && d'.names == (d.names - {temp})[to := d'.names[to]]
    && d'.names[to] == (if temp in d.names then d.names[temp] else d.nextIno)
    && d'.data == d.data[d'.names[to] := c]
    && d'.nextIno == (if temp in d.names then d.nextIno else d.nextIno + 1)
  }

  function TempContent(d: D.Disk, temp: string): Content
    requires D.DiskOk(d)
  {
    if temp in d.names then d.data[d.names[temp]] else []
  }

  ghost predicate AllReliable(net: seq<Net>) {
    net == [] || (Reliable(net[0]) && AllReliable(net[1..]))
  }

  ghost predicate NoFaults(faults: seq<bool>) {
    faults == [] || (!faults[0] && NoFaults(faults[1..]))
  }

  /** What the client sees in the remote file: what it was told is done has been. */
  function RemoteFile(g: Config, s: State, p: string): Content
    requires LinkOk(s.link)
  {
    Held(View(s.link), g.remote(p))
  }

  /** What one transfer leaves on record: the descriptor the server handed out, or -1; what
      became of the call that closed it; the bytes a pull fetched; how many chunks of a push
      were accepted, and how many the server had stored when the push was over. */
  datatype Trace = Trace(fd: int, close: Net, got: Content, accepted: nat, stored: nat)

  const NOTHING := Trace(-1, Net([], Refused), [], 0, 0)

  /** What pull_ promises of the remote file as long as nothing abandoned interferes: it is
      the same afterwards, and its beginning is what was fetched. (If not even the open was
      answered, a write in flight from elsewhere may have been lost.) */
  ghost predicate Fetched(l: Link, l': Link, rp: string, t: Trace, rc: int)
    requires LinkOk(l) && LinkOk(l')
  {
    var f := Held(View(l), rp);
    && KeptBut(Astray(l) + {t.fd}, l.fs, l'.fs)
    && (Held(View(l'), rp) == f || (t.fd < 0 && Held(View(l'), rp) == Held(l.fs, rp)))
    && (t.fd >= 0 ==> l'.flying == [] && Aside(l', rp, Astray(l) + {t.fd}))
    && (rc == 0 ==> t.got <= f)
  }

  ghost predicate PullPost(g: Config, s: State, s': State, p: string, st: Stated, rc: int, t: Trace)
    requires Ok(s) && Ok(s')
  {
    var temp, rp := g.temp(p), g.remote(p);
    && s'.handles == s.handles && s'.delayed == s.delayed
    && (if rc == 0 then
          && st.IsStat? && st.regular && |t.got| == st.size && t.fd >= 0
          && Published(s.disk, s'.disk, temp, g.mirror(p), t.got + Tail(TempContent(s.disk, temp), st.size))
        else s'.disk == s.disk || DiskKept(s.disk, s'.disk, temp))
    && (Reliable(t.close) ==> t.fd !in s'.link.fs.fds)
    && (Clear(s.link, rp, t.fd) ==> Fetched(s.link, s'.link, rp, t, rc))
  }

  /** What push_ promises of the remote file in that case: it begins with the chunks of m that
      were stored; those are all that were accepted, and nothing is outstanding, if the push
      succeeded and its close was answered; otherwise the last of them may be missing, and may
      still arrive. */
  ghost predicate Delivered(l: Link, l': Link, rp: string, m: Content, t: Trace, rc: int)
    requires LinkOk(l) && LinkOk(l')
  {
    var f := Held(View(l), rp);
    && KeptBut(Astray(l) + {t.fd}, l.fs, l'.fs)
    && if t.fd < 0 then Held(View(l'), rp) == f || Held(View(l'), rp) == Held(l.fs, rp)
       else
         && Left(l', t.fd, rp, Astray(l) + {t.fd}, f, m, t.accepted, rc == 0 && Arrived(t.close))
         && Held(l'.fs, rp) == Replaced(f, m, t.stored) && t.stored <= t.accepted <= t.stored + 1
         && (rc == 0 && Arrived(t.close) ==> t.stored == t.accepted)
  }

  ghost predicate PushPost(g: Config, s: State, s': State, p: string, rc: int, t: Trace)
    requires Ok(s) && Ok(s')
  {
    var mp, rp := g.mirror(p), g.remote(p);
    && s'.handles == s.handles && s'.delayed == s.delayed && s'.disk == s.disk
    && (Reliable(t.close) ==> t.fd !in s'.link.fs.fds)
    && if mp !in s.disk.names then rc == -ENOENT && s' == s
       else
         var m := D.FileAt(s.disk, mp);
         && (rc == 0 ==> t.fd >= 0 && Reached(m, t.accepted) == |m|)
         && (Clear(s.link, rp, t.fd) ==> Delivered(s.link, s'.link, rp, m, t, rc))
  }

  // Handles.

  function NextFault(s: State): (bool, State) {
    if s.faults == [] then (false, s) else (s.faults[0], s.(faults := s.faults[1..]))
  }

  /** A remote call of a state. */
  function CallOn(s: State, op: Request): (State, Result)
    requires LinkOk(s.link)
  {
    var (l, r) := Call(s.link, Ahead(s.net), op);
    (s.(link := l, net := Behind(s.net)), r)
  }

  /** The same through the delaying layer. */
  function Delayed(s: State, op: Request): (State, int)
    requires LinkOk(s.link)
  {
    var (l, q, rc) := DR.Delayed(s.link, s.delayed, Ahead(s.net), op);
    (s.(link := l, delayed := q, net := Behind(s.net)), rc)
  }

  /** A mirrored file is opened locally, any other on the server. */
  function OpenStep(g: Config, s: State, path: string): (State, int)
    requires Ok(s)
  {
    var h := FreeFrom(s.handles, 0);
    if g.mirror(path) in s.disk.names then
      var (failed, s1) := NextFault(s);
      if failed then (s1, -1)
      else
        var (d, fd) := D.Open(s1.disk, g.mirror(path), false);
        (s1.(disk := d, handles := s1.handles[h := Handle(fd, false, path)]), h)
    else
      var (s1, r) := CallOn(s, Request.Open(g.remote(path)));
      if r.rc < 0 then (s1, r.rc) else (s1.(handles := s1.handles[h := Handle(r.rc, true, path)]), h)
  }

  /** For a remote handle it is the index h itself that is passed on as the descriptor. */
  function CloseStep(s: State, h: int): (State, int)
    requires Ok(s)
  {
    if h !in s.handles then (s, -EBADF)
    else if s.handles[h].isDrfs then
      var (s1, _) := Delayed(s, Request.Close(h));
      (s1.(handles := s1.handles - {h}), 0)
    else (s.(disk := D.Close(s.disk, s.handles[h].fd), handles := s.handles - {h}), 0)
  }

  function ReadStep(s: State, h: int, off: int, size: nat): (State, Result)
    requires Ok(s)
  {
    if h !in s.handles then (s, Result(-EBADF, []))
    else if s.handles[h].isDrfs then CallOn(s, Request.Read(h, off, size))
    else
      var fd := s.handles[h].fd;
      var (failed, s1) := NextFault(s.(disk := D.Seek(s.disk, fd, off)));
      if failed then (s1, Result(-EIO, []))
      else
        var (d, b) := D.Read(s1.disk, fd, size);
        (s1.(disk := d), Result(|b|, b))
  }

  function WriteStep(s: State, h: int, off: int, data: Content): (State, int)
    requires Ok(s)
  {
    if h !in s.handles then (s, -EBADF)
    else if s.handles[h].isDrfs then Delayed(s, Request.Write(h, off, data))
    else
      var fd := s.handles[h].fd;
      var (failed, s1) := NextFault(s.(disk := D.Seek(s.disk, fd, off)));
      if failed then (s1, -EIO) else (s1.(disk := D.Write(s1.disk, fd, data)), |data|)
  }

  /** The local side of a download once `got` has been fetched: one inode and one descriptor
      differ from the start. */
  ghost predicate Downloaded(d0: D.Disk, d: D.Disk, fd: int, got: Content)
    requires fd in d0.fds
  {
    var ino := d0.fds[fd].ino;
    && ino in d0.data && fd in d.fds && ino in d.data
    && d == d0.(fds := d0.fds[fd := D.Desc(ino, |got|)], data := d0.data[ino := got + Tail(d0.data[ino], |got|)])
  }

  lemma DownloadStarts(d0: D.Disk, fd: int)
    requires D.DiskOk(d0) && fd in d0.fds && d0.fds[fd].pos == 0
    ensures Downloaded(d0, d0, fd, [])
  {
    var ino := d0.fds[fd].ino;
    assert [] + Tail(d0.data[ino], 0) == d0.data[ino];
    assert d0.fds[fd := D.Desc(ino, 0)] == d0.fds && d0.data[ino := d0.data[ino]] == d0.data;
  }

  lemma DownloadStep(d0: D.Disk, d: D.Disk, fd: int, got: Content, data: Content)
    requires D.DiskOk(d0) && fd in d0.fds && Downloaded(d0, d, fd, got)
    ensures D.DiskOk(d) && Downloaded(d0, D.Write(d, fd, data), fd, got + data)
  {
    var all := got + data;
    assert all[..|got|] == got && all[|got|..] == data && all[..|all|] == all;
    WriteNextChunk(d0.data[d0.fds[fd].ino], all, |got|, |all|);
  }

  // The object.

  class MirrorFileSystem {
    var disk: D.Disk
    var link: Link
    var handles: map<int, Handle>
    var delayed: seq<Request>
    var net: seq<Net>
    var faults: seq<bool>
    const config: Config

    function S(): State
      reads this
    {
      State(disk, link, handles, delayed, net, faults)
    }

    constructor (config: Config, disk: D.Disk, link: Link, net: seq<Net>, faults: seq<bool>)
      requires D.DiskOk(disk) && LinkOk(link)
      ensures this.config == config && S() == State(disk, link, map[], [], net, faults) && Ok(S())
    {
      this.config, this.disk, this.link, this.net, this.faults := config, disk, link, net, faults;
      handles, delayed := map[], [];
    }

    /** Whether the next local file call fails. */
    method Fault() returns (f: bool)
      modifies this`faults
      ensures f == (old(faults) != [] && old(faults)[0])
      ensures faults == if old(faults) == [] then [] else old(faults)[1..]
    {
      f := false;
      if faults != [] {
        f, faults := faults[0], faults[1..];
      }
    }

    method Rfs(op: Request) returns (r: Result)
      requires LinkOk(link)
      modifies this`link, this`net
      ensures LinkOk(link) && Call(old(link), Ahead(old(net)), op) == (link, r) && net == Behind(old(net))
    {
      var (l, res) := Call(link, Ahead(net), op);
      link, net, r := l, Behind(net), res;
    }

    /** How much to move next; the remaining size passes through int. */
    method ChunkSize(filesize: nat) returns (n: nat)
      requires 0 < filesize <= INT_MAX
      ensures n == Min(filesize, DL_CHUNK_SIZE)
    {
      ChunkSizes(filesize);
      n := Min(AsInt(filesize), DL_CHUNK_SIZE);
    }

    /** A read of the remote file; c is what it holds, if nothing abandoned interferes. */
    method RfsRead(rfd: int, off: nat, size: nat, ghost rp: string, ghost aside: set<int>, ghost c: Content) returns (r: Result)
      requires LinkOk(link) && size > 0
      modifies this`link, this`net
      ensures LinkOk(link) && net == Behind(old(net)) && (r.rc >= 0 ==> |r.data| == r.rc <= size)
      ensures old(net) == [] ==> r.rc < 0
      ensures Reading(old(link), rfd, rp, aside, c) ==>
                && Reading(link, rfd, rp, aside, c) && KeptBut(aside, old(link).fs, link.fs)
                && (r.rc >= 0 ==> off + r.rc <= Max(off, |c|) && r.data == ReadAt(c, off, r.rc))
                && (r.rc == 0 ==> off >= |c|)
                && (Reliable(Ahead(old(net))) ==> r.rc >= 0)
    {
      if Reading(link, rfd, rp, aside, c) {
        Reads(link, Ahead(net), rfd, off, size, rp, aside, c);
      }
      r := Rfs(Request.Read(rfd, off, size));
    }

    /** Storing what was read at the end of what is there. */
    method Store(fd: int, data: Content, ghost d0: D.Disk, ghost got: Content) returns (ok: bool)
      requires D.DiskOk(d0) && fd in d0.fds && Downloaded(d0, disk, fd, got)
      modifies this`disk, this`faults
      ensures Downloaded(d0, disk, fd, if ok then got + data else got)
      ensures NoFaults(old(faults)) ==> ok && NoFaults(faults)
    {
      var failed := Fault();
      ok := !failed;
      if ok {
        DownloadStep(d0, disk, fd, got, data);
        disk := D.Write(disk, fd, data);
      }
    }

    /** One round of the download loop: the number of bytes moved, or an error. */
    method DownloadChunk(fd: int, rfd: int, filesize: nat, offset: nat, ghost d0: D.Disk, ghost got: Content,
                         ghost rp: string, ghost aside: set<int>, ghost c: Content) returns (rc: int, ghost now: Content)
      requires D.DiskOk(d0) && fd in d0.fds && Downloaded(d0, disk, fd, got) && offset == |got| && 0 < filesize <= INT_MAX
      requires LinkOk(link)
      modifies this`disk, this`link, this`net, this`faults
      ensures LinkOk(link) && net == Behind(old(net)) && (old(net) == [] ==> rc < 0)
      ensures rc <= filesize && Downloaded(d0, disk, fd, now) && |now| == if rc < 0 then offset else offset + rc
      ensures old(Reading(link, rfd, rp, aside, c)) && got <= c ==>
                && Reading(link, rfd, rp, aside, c) && KeptBut(aside, old(link).fs, link.fs) && now <= c
                && (rc == 0 ==> offset >= |c|)
                && (NoFaults(old(faults)) && Reliable(Ahead(old(net))) ==> rc >= 0 && NoFaults(faults))
    {
      now := got;
      var readSize := ChunkSize(filesize);
      var r := RfsRead(rfd, offset, readSize, rp, aside, c);
      if r.rc < 0 {
        return r.rc, now;
      }
      var ok := Store(fd, r.data, d0, got);
      if !ok {
        return -EIO, now;
      }
      rc, now := r.rc, got + r.data;
    }

    /** The download loop of pull_: for every pattern of short reads, the temporary file holds
        what has been read so far, over whatever it held before. A size beyond the end of the
        remote file is never reached: the loop goes on for as long as the network does. */
    method Download(fd: int, rfd: int, size: nat, ghost rp: string, ghost aside: set<int>, ghost c: Content)
      returns (rc: int, ghost got: Content)
      requires D.DiskOk(disk) && LinkOk(link) && size <= INT_MAX
      requires fd in disk.fds && disk.fds[fd].pos == 0
      modifies this`disk, this`link, this`net, this`faults
      ensures LinkOk(link) && rc <= 0 && Downloaded(old(disk), disk, fd, got) && (rc == 0 ==> |got| == size)
      ensures old(Reading(link, rfd, rp, aside, c)) ==>
                && Reading(link, rfd, rp, aside, c) && KeptBut(aside, old(link).fs, link.fs) && got <= c
                && (AllReliable(old(net)) && NoFaults(old(faults)) ==>
                      if size <= |c| then |old(net)| > size ==> rc == 0 else rc != 0 && net == [])
    {
      ghost var d0, l0, n0, clear := disk, link, net, Reading(link, rfd, rp, aside, c);
      ghost var smooth := clear && AllReliable(net) && NoFaults(faults);
      DownloadStarts(d0, fd);
      got := [];
      var offset, filesize := 0, size;
      while filesize > 0
        invariant 0 <= filesize && offset == |got| && offset + filesize == size
        invariant LinkOk(link) && Downloaded(d0, disk, fd, got)
        invariant clear ==> Reading(link, rfd, rp, aside, c) && KeptBut(aside, l0.fs, link.fs) && got <= c
        invariant smooth ==> AllReliable(net) && NoFaults(faults)
        invariant smooth && size <= |c| ==> |n0| - |net| <= offset
        decreases |net|
      {
        var dsize;
        dsize, got := DownloadChunk(fd, rfd, filesize, offset, d0, got, rp, aside, c);
        if dsize < 0 {
          return dsize, got;
        }
        offset := offset + dsize;
        filesize := filesize - dsize;
      }
      rc := 0;
    }

    /** Fetches a file into the mirror. With nothing abandoned in the way, a reliable network,
        no local faults and a future longer than the file, it succeeds exactly when the stat's
        size is not beyond the end of the remote file; beyond it, the network's whole future
        is spent asking. */
    method Pull_(path: string, st: Stated) returns (rc: int, ghost t: Trace)
      requires Ok(S()) && (st.IsStat? ==> st.size <= INT_MAX) && (st.NoStat? ==> st.rc < 0)
      modifies this`disk, this`link, this`net, this`faults
      ensures Ok(S()) && PullPost(config, old(S()), S(), path, st, rc, t)
      ensures st.IsStat? && st.regular && AllReliable(old(net)) && NoFaults(old(faults)) && old(net) != []
              && Clear(old(link), config.remote(path), t.fd) ==>
                if st.size <= |RemoteFile(config, old(S()), path)| then |old(net)| > st.size + 1 ==> rc == 0
                else rc != 0 && net == []
      ensures rc <= 0
      ensures st.NoStat? ==> rc == st.rc && S() == old(S())
      ensures st.IsStat? && !st.regular ==> rc == -EINVAL && S() == old(S())
      ensures st.IsStat? && st.regular && NoFaults(old(faults)) ==>
                var r := Call(old(link), Ahead(old(net)), Request.Open(config.remote(path))).1;
                r.rc < 0 ==> rc == r.rc
    {
      t := NOTHING;
      if st.NoStat? {
        return st.rc, t;
      }
      if !st.regular {
        return -EINVAL, t;
      }
      var failed := Fault();
      if failed {
        return -EIO, t;
      }
      rc, t := PullFile(path, st);
    }

    /** pull_ from the opening of the temporary file on. */
    method PullFile(path: string, st: Stated) returns (rc: int, ghost t: Trace)
      requires Ok(S()) && st.IsStat? && st.regular && st.size <= INT_MAX
      modifies this`disk, this`link, this`net, this`faults
      ensures Ok(S()) && PullPost(config, old(S()), S(), path, st, rc, t)
      ensures AllReliable(old(net)) && NoFaults(old(faults)) && old(net) != [] && Clear(old(link), config.remote(path), t.fd) ==>
                if st.size <= |RemoteFile(config, old(S()), path)| then |old(net)| > st.size + 1 ==> rc == 0
                else rc != 0 && net == []
      ensures rc <= 0
      ensures var r := Call(old(link), Ahead(old(net)), Request.Open(config.remote(path))).1;
              r.rc < 0 ==> rc == r.rc
    {
      var temp, rp := config.temp(path), config.remote(path);
      ghost var s0 := S();
      var (d1, fd) := D.Open(disk, temp, true);
      TempOpened(disk, temp);
      disk := d1;
      OpensClear(link, Ahead(net), rp);
      var r := Rfs(Request.Open(rp));
      if r.rc < 0 {
        disk := D.Remove(D.Close(disk, fd), temp);
        PullRefused(config, s0, S(), path, st, r.rc);
        return r.rc, NOTHING;
      }
      rc, t := PullOpened(path, st, temp, fd, r.rc, s0);
    }

    /** Both files have been opened since s0. */
    ghost predicate BothOpen(s0: State, rfd: int, rp: string)
      requires Ok(s0)
      reads this
    {
      && handles == s0.handles && delayed == s0.delayed && LinkOk(link) && rfd >= 0
      && (Clear(s0.link, rp, rfd) ==>
            && Reading(link, rfd, rp, Astray(s0.link), Held(View(s0.link), rp))
            && KeptBut(Astray(s0.link), s0.link.fs, link.fs))
    }

    method PullOpened(path: string, st: Stated, temp: string, fd: int, rfd: int, ghost s0: State)
      returns (rc: int, ghost t: Trace)
      requires Ok(s0) && st.IsStat? && st.regular && st.size <= INT_MAX && temp == config.temp(path)
      requires D.Open(s0.disk, temp, true) == (disk, fd) && D.DiskOk(disk) && BothOpen(s0, rfd, config.remote(path))
      modifies this`disk, this`link, this`net, this`faults
      ensures t.fd == rfd && Ok(S()) && PullPost(config, s0, S(), path, st, rc, t)
      ensures AllReliable(old(net)) && NoFaults(old(faults)) && Clear(s0.link, config.remote(path), rfd) ==>
                if st.size <= |RemoteFile(config, s0, path)| then |old(net)| > st.size ==> rc == 0
                else rc != 0 && net == []
      ensures rc <= 0
    {
      ghost var rp := config.remote(path);
      rc, t := Fetch(temp, config.mirror(path), fd, rfd, st.size, s0.disk, rp, Astray(s0.link), RemoteFile(config, s0, path));
    }

    /** The rest of pull_ once both files are open: download, then close both, and rename the
        temporary file to the mirror file or remove it. */
    method Fetch(temp: string, to: string, fd: int, rfd: int, size: nat, ghost d0: D.Disk,
                 ghost rp: string, ghost aside: set<int>, ghost c: Content) returns (rc: int, ghost t: Trace)
      requires D.DiskOk(d0) && D.Open(d0, temp, true) == (disk, fd) && D.DiskOk(disk)
      requires LinkOk(link) && size <= INT_MAX
      modifies this`disk, this`link, this`net, this`faults
      ensures D.DiskOk(disk) && LinkOk(link) && rc <= 0 && t.fd == rfd
      ensures if rc == 0 then |t.got| == size && Published(d0, disk, temp, to, t.got + Tail(TempContent(d0, temp), size))
              else DiskKept(d0, disk, temp)
      ensures Reliable(t.close) ==> rfd !in link.fs.fds
      ensures old(Reading(link, rfd, rp, aside, c)) ==>
                && Aside(link, rp, aside + {rfd}) && KeptBut(aside + {rfd}, old(link).fs, link.fs)
                && link.flying == [] && Held(link.fs, rp) == c && t.got <= c
                && (AllReliable(old(net)) && NoFaults(old(faults)) ==>
                      if size <= |c| then |old(net)| > size ==> rc == 0 else rc != 0 && net == [])
    {
      ghost var d1, got := disk, [];
      TempOpened(d0, temp);
      rc, got := Download(fd, rfd, size, rp, aside, c);
      t := Trace(rfd, Ahead(net), got, 0, 0);
      if rc < 0 {
        TempDiscarded(d0, d1, disk, temp, fd, got);
        disk := D.Close(disk, fd);
        disk := D.Remove(disk, temp);
        RfsClose(rfd, rp, aside, c);
      } else {
        TempPublished(d0, d1, disk, temp, fd, got, to);
        disk := D.Close(disk, fd);
        RfsClose(rfd, rp, aside, c);
        disk := D.Rename(disk, temp, to);
      }
    }

    /** The close after a download. */
    method RfsClose(rfd: int, ghost rp: string, ghost aside: set<int>, ghost c: Content)
      requires LinkOk(link)
      modifies this`link, this`net
      ensures LinkOk(link) && net == Behind(old(net)) && (Reliable(Ahead(old(net))) ==> rfd !in link.fs.fds)
      ensures old(Reading(link, rfd, rp, aside, c)) ==>
                && Aside(link, rp, aside + {rfd}) && KeptBut(aside + {rfd}, old(link).fs, link.fs)
                && link.flying == [] && Held(link.fs, rp) == c
    {
      if Reading(link, rfd, rp, aside, c) {
        ReadCloses(link, Ahead(net), rfd, rp, aside, c);
      }
      var r := Rfs(Request.Close(rfd));
    }

    /** One round of the upload loop. */
    method UploadChunk(fd: int, rfd: int, filesize: nat, offset: nat, ghost m: Content, ghost k: nat,
                       ghost rp: string, ghost aside: set<int>, ghost f: Content) returns (rc: int)
      requires D.DiskOk(disk) && LinkOk(link)
      requires fd in disk.fds && disk.fds[fd].pos == offset && disk.data[disk.fds[fd].ino] == m
      requires offset + filesize == |m| <= INT_MAX && 0 < filesize && offset == Reached(m, k)
      modifies this`disk, this`link, this`net, this`faults
      ensures LinkOk(link) && D.DiskOk(disk)
      ensures fd in disk.fds && disk == old(disk).(fds := old(disk).fds[fd := disk.fds[fd]])
      ensures rc >= 0 ==>
                && 0 < rc <= filesize && offset + rc == Reached(m, k + 1)
                && disk.fds[fd] == D.Desc(old(disk).fds[fd].ino, offset + rc)
      ensures Sending(old(link), rfd, rp, aside, f, m, k) ==>
                && KeptBut(aside, old(link).fs, link.fs)
                && if rc >= 0 then Sending(link, rfd, rp, aside, f, m, k + 1) else Uploading(link, rfd, rp, aside, f, m, k)
      ensures |old(net)| - 1 <= |net| && net == (if |net| == |old(net)| then old(net) else Behind(old(net)))
      ensures NoFaults(old(faults)) ==> NoFaults(faults) && (Arrived(Ahead(old(net))) ==> rc >= 0)
    {
      var writeSize := ChunkSize(filesize);
      var failed := Fault();
      if failed {
        return -EIO;
      }
      var (d, buffer) := D.Read(disk, fd, writeSize);
      disk := d;
      NextChunk(f, m, rfd, k);
      if Sending(link, rfd, rp, aside, f, m, k) {
        Writes(link, Ahead(net), rfd, rp, aside, f, m, k);
      }
      var r := Rfs(Request.Write(rfd, offset, buffer));
      rc := if r.rc < 0 then r.rc else writeSize;
    }

    /** The upload loop of push_: k chunks of the mirror file are accepted one after the other,
        each of them stored before the next. */
    method Upload(fd: int, rfd: int, size: nat, ghost m: Content, ghost rp: string, ghost aside: set<int>, ghost f: Content)
      returns (rc: int, ghost k: nat)
      requires D.DiskOk(disk) && LinkOk(link) && size == |m| <= INT_MAX
      requires fd in disk.fds && disk.fds[fd].pos == 0 && disk.data[disk.fds[fd].ino] == m
      modifies this`disk, this`link, this`net, this`faults
      ensures LinkOk(link) && rc <= 0 && (rc == 0 ==> Reached(m, k) == |m|)
      ensures fd in disk.fds && disk == old(disk).(fds := old(disk).fds[fd := disk.fds[fd]])
      ensures old(Reading(link, rfd, rp, aside, f)) ==>
                && KeptBut(aside, old(link).fs, link.fs)
                && if rc == 0 then Sending(link, rfd, rp, aside, f, m, k) else Uploading(link, rfd, rp, aside, f, m, k)
      ensures AllReliable(old(net)) && NoFaults(old(faults)) && |old(net)| > size ==> rc == 0 && AllReliable(net) && net != []
    {
      ghost var n0, smooth := net, AllReliable(net) && NoFaults(faults);
      ghost var d0, l0, clear := disk, link, Reading(link, rfd, rp, aside, f);
      var offset, filesize := 0, size;
      k := 0;
      while filesize > 0
        invariant 0 <= filesize && offset + filesize == size && offset == Reached(m, k)
        invariant fd in disk.fds && disk.fds[fd] == D.Desc(d0.fds[fd].ino, offset)
        invariant disk == d0.(fds := d0.fds[fd := disk.fds[fd]]) && D.DiskOk(disk) && LinkOk(link)
        invariant clear ==> Sending(link, rfd, rp, aside, f, m, k) && KeptBut(aside, l0.fs, link.fs)
        invariant smooth ==> AllReliable(net) && NoFaults(faults)
        invariant |n0| - |net| <= offset
        decreases filesize
      {
        ghost var d, l := disk, link;
        var usize := UploadChunk(fd, rfd, filesize, offset, m, k, rp, aside, f);
        OnlyMoved(d0, d, disk, fd);
        if usize < 0 {
          return usize, k;
        }
        offset := offset + usize;
        filesize := filesize - usize;
        k := k + 1;
      }
      rc := 0;
    }

    /** Sends a mirror file back. The remote file is not truncated: what it had beyond the
        end of the mirror file stays. A close that is not answered does not count as a
        failure. With nothing abandoned in the way, a reliable network, no local faults and a
        future longer than the file, it succeeds and its close is answered. */
    method Push_(path: string) returns (rc: int, ghost t: Trace)
      requires Ok(S())
      requires config.mirror(path) in disk.names ==> |D.FileAt(disk, config.mirror(path))| <= INT_MAX
      modifies this`disk, this`link, this`net, this`faults
      ensures Ok(S()) && PushPost(config, old(S()), S(), path, rc, t)
      ensures AllReliable(old(net)) && NoFaults(old(faults)) && config.mirror(path) in old(disk).names ==>
                |old(net)| > |D.FileAt(old(disk), config.mirror(path))| + 1 && Clear(old(link), config.remote(path), t.fd) ==>
                  rc == 0 && Arrived(t.close)
      ensures rc <= 0
      ensures config.mirror(path) in old(disk).names && NoFaults(old(faults)) ==>
                var r := Call(old(link), Ahead(old(net)), Request.Open(config.remote(path))).1;
                r.rc < 0 ==> rc == r.rc
    {
      var mp := config.mirror(path);
      t := NOTHING;
      if mp !in disk.names {
        return -ENOENT, t;
      }
      var failed := Fault();
      if failed {
        return -EIO, t;
      }
      rc, t := PushFile(path, mp);
    }

    /** push_ from the opening of the mirror file on. */
    method PushFile(path: string, mp: string) returns (rc: int, ghost t: Trace)
      requires Ok(S()) && mp == config.mirror(path) && mp in disk.names && |D.FileAt(disk, mp)| <= INT_MAX
      modifies this`disk, this`link, this`net, this`faults
      ensures Ok(S()) && PushPost(config, old(S()), S(), path, rc, t)
      ensures AllReliable(old(net)) && NoFaults(old(faults)) ==>
                |old(net)| > |D.FileAt(old(disk), mp)| + 1 && Clear(old(link), config.remote(path), t.fd) ==>
                  rc == 0 && Arrived(t.close)
      ensures rc <= 0
      ensures var r := Call(old(link), Ahead(old(net)), Request.Open(config.remote(path))).1;
              r.rc < 0 ==> rc == r.rc
    {
      var rp := config.remote(path);
      ghost var s0 := S();
      var size := |D.FileAt(disk, mp)|;
      var (d, fd) := D.Open(disk, mp, false);
      disk := d;
      OpensClear(link, Ahead(net), rp);
      var r := Rfs(Request.Open(rp));
      if r.rc < 0 {
        OnlyRead(s0.disk, disk, disk, fd);
        disk := D.Close(disk, fd);
        return r.rc, NOTHING;
      }
      rc, t := PushOpened(path, mp, fd, r.rc, size, s0);
    }

    method PushOpened(path: string, mp: string, fd: int, rfd: int, size: nat, ghost s0: State)
      returns (rc: int, ghost t: Trace)
      requires Ok(s0) && mp == config.mirror(path) && mp in s0.disk.names && size == |D.FileAt(s0.disk, mp)| <= INT_MAX
      requires D.Open(s0.disk, mp, false) == (disk, fd) && D.DiskOk(disk) && BothOpen(s0, rfd, config.remote(path))
      modifies this`disk, this`link, this`net, this`faults
      ensures Ok(S()) && PushPost(config, s0, S(), path, rc, t)
      ensures AllReliable(old(net)) && NoFaults(old(faults)) && |old(net)| > size ==> rc == 0 && Arrived(t.close)
      ensures rc <= 0
    {
      ghost var rp, m := config.remote(path), D.FileAt(s0.disk, mp);
      rc, t := Send(fd, rfd, size, m, s0.disk, rp, Astray(s0.link), RemoteFile(config, s0, path));
    }

    /** The rest of push_ once both files are open: upload, then close both. */
    method Send(fd: int, rfd: int, size: nat, ghost m: Content, ghost d0: D.Disk,
                ghost rp: string, ghost aside: set<int>, ghost f: Content) returns (rc: int, ghost t: Trace)
      requires D.DiskOk(disk) && LinkOk(link) && size == |m| <= INT_MAX
      requires fd !in d0.fds && fd in disk.fds && disk == d0.(fds := d0.fds[fd := disk.fds[fd]])
      requires disk.fds[fd].pos == 0 && disk.data[disk.fds[fd].ino] == m
      modifies this`disk, this`link, this`net, this`faults
      ensures LinkOk(link) && disk == d0 && rc <= 0 && t.fd == rfd && (rc == 0 ==> Reached(m, t.accepted) == |m|)
      ensures Reliable(t.close) ==> rfd !in link.fs.fds
      ensures old(Reading(link, rfd, rp, aside, f)) ==>
                && KeptBut(aside + {rfd}, old(link).fs, link.fs)
                && Left(link, rfd, rp, aside + {rfd}, f, m, t.accepted, rc == 0 && Arrived(t.close))
                && Held(link.fs, rp) == Replaced(f, m, t.stored) && t.stored <= t.accepted <= t.stored + 1
                && (rc == 0 && Arrived(t.close) ==> t.stored == t.accepted)
      ensures AllReliable(old(net)) && NoFaults(old(faults)) && |old(net)| > size ==> rc == 0 && Arrived(t.close)
    {
      ghost var d1, clear, k, stored: nat := disk, Reading(link, rfd, rp, aside, f), 0, 0;
      rc, k := Upload(fd, rfd, size, m, rp, aside, f);
      OnlyRead(d0, d1, disk, fd);
      disk := D.Close(disk, fd);
      ghost var close, l1 := Ahead(net), link;
      var r := Rfs(Request.Close(rfd));
      if clear {
        WriteCloses(l1, close, rfd, rp, aside, f, m, k);
        LeftAtLeast(link, rfd, rp, aside + {rfd}, f, m, k, Sending(l1, rfd, rp, aside, f, m, k) && Arrived(close));
        stored := LeftStored(link, rfd, rp, aside + {rfd}, f, m, k, rc == 0 && Arrived(close));
      }
      t := Trace(rfd, close, [], k, stored);
    }

    method Add_(path: string, st: Stated) returns (rc: int, ghost t: Trace)
      requires Ok(S()) && (st.IsStat? ==> st.size <= INT_MAX) && (st.NoStat? ==> st.rc < 0)
      modifies this`disk, this`link, this`net, this`faults
      ensures Ok(S())
      ensures if config.mirror(path) in old(disk).names then rc == 0 && S() == old(S())
              else PullPost(config, old(S()), S(), path, st, rc, t)
    {
      if config.mirror(path) !in disk.names {
        rc, t := Pull_(path, st);
      } else {
        rc, t := 0, NOTHING;
      }
    }

    method Delete_(path: string) returns (rc: int)
      requires Ok(S())
      modifies this`disk
      ensures Ok(S()) && rc == 0
      ensures S() == old(S()).(disk := D.Remove(old(disk), config.mirror(path)))
    {
      disk := D.Remove(disk, config.mirror(path));
      rc := 0;
    }

    method Open_(path: string) returns (rc: int)
      requires Ok(S())
      modifies this
      ensures (S(), rc) == OpenStep(config, old(S()), path)
    {
      var h := NewMapIndex(handles);
      LeastFreeUnique(handles, h, FreeFrom(handles, 0));
      if config.mirror(path) in disk.names {
        var failed := Fault();
        if failed {
          return -1;
        }
        var (d, fd) := D.Open(disk, config.mirror(path), false);
        disk, handles := d, handles[h := Handle(fd, false, path)];
      } else {
        var r := Rfs(Request.Open(config.remote(path)));
        if r.rc < 0 {
          return r.rc;
        }
        handles := handles[h := Handle(r.rc, true, path)];
      }
      rc := h;
    }

    method Drfs(op: Request) returns (rc: int)
      requires LinkOk(link)
      modifies this`link, this`net, this`delayed
      ensures LinkOk(link)
      ensures (S(), rc) == Delayed(old(S()), op)
    {
      var r := Rfs(op);
      rc := r.rc;
      if rc == -ENETDOWN {
        delayed, rc := delayed + [op], 0;
      }
    }

    method Close_(h: int) returns (rc: int)
      requires Ok(S())
      modifies this`disk, this`link, this`net, this`delayed, this`handles
      ensures (S(), rc) == CloseStep(old(S()), h)
    {
      if h !in handles {
        return -EBADF;
      }
      if handles[h].isDrfs {
        var _ := Drfs(Request.Close(h));
      } else {
        disk := D.Close(disk, handles[h].fd);
      }
      handles := handles - {h};
      rc := 0;
    }

    method Read_(h: int, off: int, size: nat) returns (r: Result)
      requires Ok(S())
      modifies this`disk, this`link, this`net, this`faults
      ensures (S(), r) == ReadStep(old(S()), h, off, size)
    {
      if h !in handles {
        return Result(-EBADF, []);
      }
      if handles[h].isDrfs {
        r := Rfs(Request.Read(h, off, size));
      } else {
        var fd := handles[h].fd;
        disk := D.Seek(disk, fd, off);
        var failed := Fault();
        if failed {
          return Result(-EIO, []);
        }
        var (d, b) := D.Read(disk, fd, size);
        disk, r := d, Result(|b|, b);
      }
    }

    method Write_(h: int, off: int, data: Content) returns (rc: int)
      requires Ok(S())
      modifies this`disk, this`link, this`net, this`faults, this`delayed
      ensures (S(), rc) == WriteStep(old(S()), h, off, data)
    {
      if h !in handles {
        return -EBADF;
      }
      if handles[h].isDrfs {
        rc := Drfs(Request.Write(h, off, data));
      } else {
        var fd := handles[h].fd;
        disk := D.Seek(disk, fd, off);
        var failed := Fault();
        if failed {
          return -EIO;
        }
        disk, rc := D.Write(disk, fd, data), |data|;
      }
    }
  }

  /** Opening the remote file, with nothing abandoned in the way. */
  lemma OpensClear(l: Link, e: Net, p: string)
    requires LinkOk(l)
    ensures var (l', r) := Call(l, e, Request.Open(p));
            && (r.rc >= 0 && Clear(l, p, r.rc) ==>
                  Reading(l', r.rc, p, Astray(l), Held(View(l), p)) && KeptBut(Astray(l), l.fs, l'.fs))
            && (Clear(l, p, -1) ==>
                  && KeptBut(Astray(l), l.fs, l'.fs) && l'.flying == []
                  && (r.rc < 0 ==> Held(l'.fs, p) == Held(View(l), p) || Held(l'.fs, p) == Held(l.fs, p))
                  && (Reliable(e) ==> r.rc >= 0))
  {
    if Aside(l, p, Astray(l)) {
      Opens(l, e, p, Astray(l));
    }
  }

  /** pull_ when the remote file could not be opened. */
  lemma PullRefused(g: Config, s: State, s': State, p: string, st: Stated, rc: int)
    requires Ok(s) && LinkOk(s'.link) && st.IsStat? && st.regular && rc < 0
    requires s' == s.(disk := s'.disk, link := s'.link, net := s'.net, faults := s'.faults)
    requires var (d, fd) := D.Open(s.disk, g.temp(p), true);
             s'.disk == D.Remove(D.Close(d, fd), g.temp(p))
    requires Clear(s.link, g.remote(p), -1) ==> Fetched(s.link, s'.link, g.remote(p), NOTHING, rc)
    ensures Ok(s') && PullPost(g, s, s', p, st, rc, NOTHING)
  {
    TempUnused(s.disk, g.temp(p));
  }

  lemma OnlyMoved(d0: D.Disk, d1: D.Disk, d2: D.Disk, fd: int)
    requires fd in d0.fds && fd in d1.fds && fd in d2.fds
    requires d1 == d0.(fds := d0.fds[fd := d1.fds[fd]]) && d2 == d1.(fds := d1.fds[fd := d2.fds[fd]])
    ensures d2 == d0.(fds := d0.fds[fd := d2.fds[fd]])
  {
  }

  /** Opening a file, moving the descriptor, and closing it again leaves the disk as it was. */
  lemma OnlyRead(d: D.Disk, d1: D.Disk, d2: D.Disk, fd: int)
    requires fd !in d.fds && fd in d1.fds && d1 == d.(fds := d.fds[fd := d1.fds[fd]])
    requires fd in d2.fds && d2 == d1.(fds := d1.fds[fd := d2.fds[fd]])
    ensures D.Close(d2, fd) == d
  {
    assert d2.fds - {fd} == d.fds;
  }

  // Lemmas about the life of a temporary file.

  lemma TempOpened(d: D.Disk, temp: string)
    requires D.DiskOk(d)
    ensures var (d1, fd) := D.Open(d, temp, true);
            && D.DiskOk(d1) && fd !in d.fds && temp in d1.names
            && d1.fds == d.fds[fd := D.Desc(d1.names[temp], 0)]
            && d1.data[d1.names[temp]] == TempContent(d, temp)
  {
  }

  /** Closing and removing it leaves the rest of the disk as it was. */
  lemma TempDiscarded(d: D.Disk, d1: D.Disk, d2: D.Disk, temp: string, fd: int, got: Content)
    requires D.DiskOk(d) && D.Open(d, temp, true) == (d1, fd) && fd in d1.fds && Downloaded(d1, d2, fd, got)
    ensures var d3 := D.Remove(D.Close(d2, fd), temp);
            D.DiskOk(d3) && DiskKept(d, d3, temp)
  {
    TempOpened(d, temp);
    assert d2.fds - {fd} == d.fds;
    assert d1.names - {temp} == d.names - {temp};
  }

  lemma TempUnused(d: D.Disk, temp: string)
    requires D.DiskOk(d)
    ensures var (d1, fd) := D.Open(d, temp, true);
            var d2 := D.Remove(D.Close(d1, fd), temp);
            D.DiskOk(d2) && DiskKept(d, d2, temp)
  {
    TempOpened(d, temp);
    var (d1, fd) := D.Open(d, temp, true);
    DownloadStarts(d1, fd);
    TempDiscarded(d, d1, d1, temp, fd, []);
  }

  lemma TempPublished(d: D.Disk, d1: D.Disk, d2: D.Disk, temp: string, fd: int, got: Content, to: string)
    requires D.DiskOk(d) && D.Open(d, temp, true) == (d1, fd) && fd in d1.fds && Downloaded(d1, d2, fd, got)
    ensures var d3 := D.Rename(D.Close(d2, fd), temp, to);
            D.DiskOk(d3) && Published(d, d3, temp, to, got + Tail(TempContent(d, temp), |got|))
  {
    TempOpened(d, temp);
    assert d2.fds - {fd} == d.fds;
    assert d1.names - {temp} == d.names - {temp};
  }
}
