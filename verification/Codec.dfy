/** The bytes of the request/reply protocol: four-byte little-endian integers, fixed-size
    request structures behind a four-byte request type, and reply headers. */
module Codec {
  import opened Files
  import opened FileServer

  const PATH_LEN := 256

  // The values of the request type enumeration that the server dispatches on.
  const T_GETATTR := 1
  const T_READDIR := 3
  const T_LS := 4
  const T_OPEN := 5
  const T_CLOSE := 6
  const T_READ := 7
  const T_WRITE := 8
  const T_CREATE := 9

  function Tag(op: Request): int {
    match op
    case Getattr(_) => T_GETATTR
    case Readdir(_) => T_READDIR
    case Ls(_) => T_LS
    case Open(_) => T_OPEN
    case Close(_) => T_CLOSE
    case Read(_, _, _) => T_READ
    case Write(_, _, _) => T_WRITE
    case Create(_) => T_CREATE
  }

  predicate Served(tag: int) {
    tag in {T_GETATTR, T_READDIR, T_LS, T_OPEN, T_CLOSE, T_READ, T_WRITE, T_CREATE}
  }

  function Digit(x: int): byte {
    (x % 256) as byte
  }

  /** A C int: anything wider is cut to its low 32 bits. */
  function Enc32(x: int): (b: Content)
    ensures |b| == 4
  {
    var u := x % 0x1_0000_0000;
    [Digit(u), Digit(u / 256), Digit(u / 65536), Digit(u / 16777216)]
  }

  function Dec32(b: Content): (x: int)
    requires |b| == 4
    ensures IsInt(x)
  {
    var u := b[0] as int + 256 * (b[1] as int) + 65536 * (b[2] as int) + 16777216 * (b[3] as int);
    if u > INT_MAX then u - 0x1_0000_0000 else u
  }

  lemma Dec32Enc32(x: int)
    requires IsInt(x)
    ensures Dec32(Enc32(x)) == x
  {
    var u := x % 0x1_0000_0000;
    assert u == if x < 0 then x + 0x1_0000_0000 else x;
    var a, b, c := u / 256, u / 65536, u / 16777216;
    assert b == a / 256 && c == b / 256;
    assert u == 256 * a + u % 256 && a == 256 * b + a % 256 && b == 256 * c + b % 256;
    assert c % 256 == c;
  }

  /** A path fits its field when a terminating NUL still fits behind it and none is inside. */
  ghost predicate PathFits(p: string) {
    && |p| < PATH_LEN
    && forall i :: 0 <= i < |p| ==> 0 < p[i] as int < 256
  }

  function EncPath(p: string): (b: Content)
    requires PathFits(p)
    ensures |b| == PATH_LEN
  {
    seq(|p|, i requires 0 <= i < |p| => p[i] as int as byte) + Zeros(PATH_LEN - |p|)
  }

  /** The characters before the first NUL. */
  function DecPath(b: Content): string {
    if b == [] || b[0] == 0 then [] else [b[0] as int as char] + DecPath(b[1..])
  }

  lemma {:induction false} DecPathPrefix(p: string, b: Content)
    requires |p| < |b| && b[|p|] == 0
    requires forall i :: 0 <= i < |p| ==> 0 < p[i] as int < 256 && b[i] as int == p[i] as int
    ensures DecPath(b) == p
  {
    if p != [] {
      forall i | 0 <= i < |p[1..]| ensures 0 < p[1..][i] as int < 256 && b[1..][i] as int == p[1..][i] as int {
        assert p[1..][i] == p[i + 1] && b[1..][i] == b[i + 1];
      }
      DecPathPrefix(p[1..], b[1..]);
      assert p == [p[0]] + p[1..];
    }
  }

  lemma DecPathEncPath(p: string)
    requires PathFits(p)
    ensures DecPath(EncPath(p)) == p
  {
    DecPathPrefix(p, EncPath(p));
  }

  /** What one request structure holds; fields its type lacks are zero or empty. */
  datatype Head = Head(tag: int, path: string, fd: int, off: int, size: int)

  function HeadOf(op: Request): Head {
    match op
    case Close(fd) => Head(T_CLOSE, "", fd, 0, 0)
    case Read(fd, off, size) => Head(T_READ, "", fd, off, size)
    case Write(fd, off, data) => Head(T_WRITE, "", fd, off, |data|)
    case _ => Head(Tag(op), op.path, 0, 0, 0)
  }

  ghost predicate Encodable(op: Request) {
    match op
    case Close(fd) => IsInt(fd)
    case Read(fd, off, size) => IsInt(fd) && IsInt(off) && 0 <= size <= INT_MAX
    case Write(fd, off, data) => IsInt(fd) && IsInt(off) && |data| <= INT_MAX
    case _ => PathFits(op.path)
  }

  /** Size of the request structure behind each request type. */
  function ReqLen(tag: int): nat
    requires Served(tag)
  {
    if tag == T_CLOSE then 8
    else if tag == T_READ || tag == T_WRITE then 16
    else 4 + PATH_LEN
  }

  /** The type field inside the structure. The getattr request is cleared after it was
      constructed, so its own type field is 0; the server never looks at it. */
  function InnerTag(op: Request): int {
    if op.Getattr? then 0 else Tag(op)
  }

  function EncReq(op: Request): (b: Content)
    requires Encodable(op)
    ensures |b| == ReqLen(Tag(op))
  {
    Enc32(InnerTag(op)) +
    match op
    case Close(fd) => Enc32(fd)
    case Read(fd, off, size) => Enc32(fd) + Enc32(off) + Enc32(size)
    case Write(fd, off, data) => Enc32(fd) + Enc32(off) + Enc32(|data|)
    case _ => EncPath(op.path)
  }

  function DecReq(tag: int, b: Content): Head
    requires Served(tag) && |b| == ReqLen(tag)
  {
    if tag == T_CLOSE then Head(tag, "", Dec32(b[4..8]), 0, 0)
    else if tag == T_READ || tag == T_WRITE then
      Head(tag, "", Dec32(b[4..8]), Dec32(b[8..12]), Dec32(b[12..16]))
    else Head(tag, DecPath(b[4..]), 0, 0, 0)
  }

  lemma DecReqEncReq(op: Request)
    requires Encodable(op)
    ensures DecReq(Tag(op), EncReq(op)) == HeadOf(op)
  {
    var b := EncReq(op);
    match op
    case Close(fd) =>
      assert b[4..8] == Enc32(fd);
      Dec32Enc32(fd);
    case Read(fd, off, size) =>
      assert b[4..8] == Enc32(fd) && b[8..12] == Enc32(off) && b[12..16] == Enc32(size);
      Dec32Enc32(fd); Dec32Enc32(off); Dec32Enc32(size);
    case Write(fd, off, data) =>
      assert b[4..8] == Enc32(fd) && b[8..12] == Enc32(off) && b[12..16] == Enc32(|data|);
      Dec32Enc32(fd); Dec32Enc32(off); Dec32Enc32(|data|);
    case _ =>
      assert b[4..] == EncPath(op.path);
      DecPathEncPath(op.path);
  }

  /** The request a structure stands for, given the payload that came with it. */
  function Rebuild(h: Head, data: Content): Request
    requires Served(h.tag)
  {
    if h.tag == T_GETATTR then Getattr(h.path)
    else if h.tag == T_READDIR then Readdir(h.path)
    else if h.tag == T_LS then Ls(h.path)
    else if h.tag == T_OPEN then Open(h.path)
    else if h.tag == T_CLOSE then Close(h.fd)
    else if h.tag == T_READ then Read(h.fd, h.off, h.size)
    else if h.tag == T_WRITE then Write(h.fd, h.off, data)
    else Create(h.path)
  }

  function Payload(op: Request): Content {
    if op.Write? then op.data else []
  }

  /** All the bytes of one request: type, structure, and for a write the data. */
  function Enc(op: Request): (b: Content)
    requires Encodable(op)
    ensures |b| == 4 + ReqLen(Tag(op)) + |Payload(op)|
  {
    Enc32(Tag(op)) + EncReq(op) + Payload(op)
  }

  // Reply headers.

  predicate TwoFields(op: Request) {
    op.Readdir? || op.Ls? || op.Open? || op.Read?
  }

  function HdrLen(op: Request): nat {
    if TwoFields(op) then 8 else 4
  }

  function EncHdr(op: Request, r: Reply): (b: Content)
    ensures |b| == HdrLen(op)
  {
    if TwoFields(op) then Enc32(r.err) + Enc32(r.n) else Enc32(r.err)
  }

  /** The header fields as the client sees them; `pay` is still to come. */
  function DecHdr(op: Request, b: Content): Reply
    requires |b| == HdrLen(op)
  {
    Reply(Dec32(b[..4]), if TwoFields(op) then Dec32(b[4..8]) else 0, [])
  }

  lemma DecHdrEncHdr(op: Request, r: Reply)
    requires IsInt(r.err) && IsInt(r.n)
    requires TwoFields(op) || r.n == 0
    ensures DecHdr(op, EncHdr(op, r)) == Reply(r.err, r.n, [])
  {
    var b := EncHdr(op, r);
    assert b[..4] == Enc32(r.err);
    Dec32Enc32(r.err);
    if TwoFields(op) {
      assert b[4..8] == Enc32(r.n);
      Dec32Enc32(r.n);
    }
  }

  /** How many bytes the client goes on to receive after a header. For a read whose server
      side failed the header says -1; a receive of -1 bytes fails without taking any, and
      its -1 equals the size asked for, so the client carries on: no bytes. */
  function Following(op: Request, h: Reply): nat {
    match op
    case Getattr(_) => if h.err != 0 then 0 else STAT_SIZE
    case Readdir(_) => if h.err != 0 then 0 else Max(h.n, 0) * DIRENT_SIZE
    case Ls(_) => if h.err != 0 then 0 else Max(h.n, 0) * ENTRY_SIZE
    case Read(_, _, _) => if h.err > 0 then 0 else Max(h.n, 0)
    case _ => 0
  }

  /** The receives are made entry by entry. */
  function Unit(op: Request, h: Reply): nat {
    if op.Readdir? then DIRENT_SIZE
    else if op.Ls? then ENTRY_SIZE
    else Following(op, h)
  }

  /** A reply that can be put on the wire and whose header announces its payload. */
  ghost predicate Sound(op: Request, r: Reply) {
    && IsInt(r.err) && IsInt(r.n)
    && (TwoFields(op) || r.n == 0)
    && |r.pay| == Following(op, r)
    && (op.Read? ==> if r.err < 0 then r.n == -1 else r.n >= 0)
    && (op.Write? ==> r == Reply(0, 0, []))
  }

  lemma {:induction false} ConcatLen(bs: seq<Content>, k: nat)
    requires forall i :: 0 <= i < |bs| ==> |bs[i]| == k
    ensures |Concat(bs)| == |bs| * k
  {
    if bs != [] {
      forall i | 0 <= i < |bs[1..]| ensures |bs[1..][i]| == k {
        assert bs[1..][i] == bs[i + 1];
      }
      ConcatLen(bs[1..], k);
      assert |bs| * k == k + (|bs| - 1) * k;
    }
  }

  /** Every reply the server computes announces exactly the bytes it sends after it. */
  lemma ServeSound(s: Server, op: Request, oc: Outcome)
    requires WF(s) && Encodable(op) && Possible(s, op, oc)
    ensures Sound(op, Serve(s, op, oc).1)
  {
    if oc.Listing? {
      ConcatLen(oc.blobs, EntrySize(op));
    }
  }
}
