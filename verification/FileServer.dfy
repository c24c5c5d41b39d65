/** The file server as one atomic, sequential machine.

    This is the reference every other layer is measured against: the wire protocol refines
    it, the delayed writes are replayed on it, and the mirror pulls from it and pushes to
    it. What the operating system is free to choose (which descriptor open returns, how
    many bytes read returns, what lstat and readdir say, whether a call fails) arrives as
    an Outcome. */
module FileServer {
  import opened Files

  const EBADF := 9
  const EINVAL := 22
  const EIO := 5
  const ENETDOWN := 100

  const STAT_SIZE := 144
  const DIRENT_SIZE := 280
  const ENTRY_SIZE := 424 // a dirent followed by a stat
  const INT_MAX := 0x7fff_ffff

  predicate IsInt(x: int) {
    -0x8000_0000 <= x <= INT_MAX
  }

  /** `files` maps paths to contents; `fds` maps open descriptors to the path they were
      opened on. The server never renames or unlinks, so a path is as good as an inode. */
  datatype Server = Server(files: map<string, Content>, fds: map<int, string>)

  datatype Request =
    | Getattr(path: string)
    | Readdir(path: string)
    | Ls(path: string)
    | Open(path: string)
    | Close(fd: int)
    | Read(fd: int, off: int, size: int)
    | Write(fd: int, off: int, data: Content)
    | Create(path: string)

  /** What the operating system decides during one request. */
  datatype Outcome =
    | Complete                    // the call does all it was asked for
    | Short(n: nat)               // read or write moves at most n bytes
    | Fails(errno: int)           // the call fails
    | Fd(fd: int)                 // the descriptor open hands out
    | Stat(blob: Content)         // what lstat fills in
    | Listing(blobs: seq<Content>) // what readdir enumerates, one block an entry

  /** A reply header (`err`, and `n` where the header has a second field) and the bytes that
      follow it. */
  datatype Reply = Reply(err: int, n: int, pay: Content)

  ghost predicate WF(s: Server) {
    forall fd :: fd in s.fds ==> s.fds[fd] in s.files
  }

  /** What a file that may not exist yet holds. */
  function Held(s: Server, p: string): Content {
    if p in s.files then s.files[p] else []
  }

  /** Which outcomes an operating system can produce for a request. */
  predicate Possible(s: Server, op: Request, oc: Outcome) {
    match oc
    case Complete => !op.Open? && !op.Getattr? && !op.Readdir? && !op.Ls?
    case Short(n) => op.Write? || (op.Read? && n > 0)
    case Fails(e) => 0 < e <= INT_MAX
    case Fd(fd) => op.Open? && 0 <= fd <= INT_MAX && fd !in s.fds
    case Stat(b) => op.Getattr? && |b| == STAT_SIZE
    case Listing(bs) =>
      && (op.Readdir? || op.Ls?)
      && |bs| * EntrySize(op) <= INT_MAX // the byte count passes through int
      && forall i :: 0 <= i < |bs| ==> |bs[i]| == EntrySize(op)
  }

  function EntrySize(op: Request): nat {
    if op.Readdir? then DIRENT_SIZE else ENTRY_SIZE
  }

  function Concat(bs: seq<Content>): Content {
    if bs == [] then [] else bs[0] + Concat(bs[1..])
  }

  /** Positioning fails on a descriptor that is not open and on a negative offset. */
  function SeekError(s: Server, fd: int, off: int): int {
    if fd !in s.fds then EBADF else if off < 0 then EINVAL else 0
  }

  function Limit(oc: Outcome, size: nat): nat {
    if oc.Short? then Min(oc.n, size) else size
  }

  function ServeRead(s: Server, fd: int, off: int, size: int, oc: Outcome): Reply
    requires WF(s)
  {
    var e := SeekError(s, fd, off);
    if e != 0 then Reply(e, 0, [])
    else if oc.Fails? then Reply(-oc.errno, -1, [])
    else
      var d := ReadAt(s.files[s.fds[fd]], off, Limit(oc, Max(size, 0)));
      Reply(0, |d|, d)
  }

  function ServeWrite(s: Server, fd: int, off: int, data: Content, oc: Outcome): Server
    requires WF(s)
  {
    if SeekError(s, fd, off) != 0 || oc.Fails? then s
    else
      var p := s.fds[fd];
      s.(files := s.files[p := WriteAt(s.files[p], off, data[..Limit(oc, |data|)])])
  }

  /** One request, start to finish: the new state and the reply. */
  function Serve(s: Server, op: Request, oc: Outcome): (r: (Server, Reply))
    requires WF(s)
    ensures WF(r.0)
  {
    match op
    case Getattr(_) =>
      (s, if oc.Stat? then Reply(0, 0, oc.blob) else Reply(ErrnoOf(oc), 0, []))
    case Readdir(_) =>
      (s, if oc.Listing? then Reply(0, |oc.blobs|, Concat(oc.blobs)) else Reply(ErrnoOf(oc), 0, []))
    case Ls(_) =>
      (s, if oc.Listing? then Reply(0, |oc.blobs|, Concat(oc.blobs)) else Reply(ErrnoOf(oc), 0, []))
    case Open(p) =>
      if oc.Fd? then
        (Server(if p in s.files then s.files else s.files[p := []], s.fds[oc.fd := p]), Reply(0, oc.fd, []))
      else (s, Reply(ErrnoOf(oc), -1, []))
    case Close(fd) =>
      if fd !in s.fds then (s, Reply(EBADF, 0, []))
      else if oc.Fails? then (s, Reply(oc.errno, 0, []))
      else (s.(fds := s.fds - {fd}), Reply(0, 0, []))
    case Read(fd, off, size) => (s, ServeRead(s, fd, off, size, oc))
    case Write(fd, off, data) => (ServeWrite(s, fd, off, data, oc), Reply(0, 0, []))
    case Create(p) =>
      if oc.Fails? then (s, Reply(-1, 0, [])) else (s.(files := s.files[p := []]), Reply(0, 0, []))
  }

  function ErrnoOf(oc: Outcome): int {
    if oc.Fails? then oc.errno else EIO
  }

  /** What the client hands to its caller: a return code and the bytes delivered. */
  datatype Result = Result(rc: int, data: Content)

  /** The client's reading of a reply. A failed create answers with -1, which the client
      negates once more, so its caller sees +1; a failed read (negative err) makes the
      client ask for -1 bytes, get -1, and return that. */
  function Outward(op: Request, r: Reply): Result {
    match op
    case Getattr(_) => if r.err != 0 then Result(-r.err, []) else Result(0, r.pay)
    case Readdir(_) => if r.err != 0 then Result(-r.err, []) else Result(0, r.pay)
    case Ls(_) => if r.err != 0 then Result(-r.err, []) else Result(0, r.pay)
    case Open(_) => if r.err > 0 then Result(-r.err, []) else Result(r.n, [])
    case Close(_) => if r.err > 0 then Result(-r.err, []) else Result(0, [])
    case Read(_, _, _) => if r.err > 0 then Result(-r.err, []) else Result(r.n, r.pay)
    case Write(_, _, data) => if r.err > 0 then Result(-r.err, []) else Result(|data|, [])
    case Create(_) => Result(-r.err, [])
  }

  /** A sequential server working through a log of requests and outcomes. */
  datatype Entry = Entry(op: Request, oc: Outcome)

  function ServeAll(s: Server, log: seq<Entry>): (r: Server)
    requires WF(s)
    ensures WF(r)
  {
    if log == [] then s
    else
      var n := |log| - 1;
      Serve(ServeAll(s, log[..n]), log[n].op, log[n].oc).0
  }

  /** The answer the sequential server gives to request number i of a log. */
  function AnswerAt(s: Server, log: seq<Entry>, i: nat): Result
    requires WF(s)
    requires i < |log|
  {
    Outward(log[i].op, Serve(ServeAll(s, log[..i]), log[i].op, log[i].oc).1)
  }
}
