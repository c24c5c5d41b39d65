/** The private request/reply protocol as a machine of interleaved steps.

    One client works through its operations one at a time, over a connection it opens when
    it has none and closes at the first send or receive that falls short. Each connection
    is two FIFO byte channels with a server thread at the far end; threads of connections
    the client has given up may still be running. Every send says how many bytes it got
    rid of, every receive either takes all the bytes asked for or fails, and either side
    may fail at any time. */
module Wire {
  import opened Files
  import opened FileServer
  import opened Codec

  // The client side: one operation as a walk through its sends and receives.

  datatype ClientPc =
    | Idle
    | SendType(op: Request)
    | SendReq(op: Request)
    | RecvRes(op: Request)
    | RecvPay(op: Request, hdr: Reply, got: Content)
    | SendPay(op: Request)

  /** What follows a send or a receive: the next one, the end of the operation, or closing
      the socket and returning -ENETDOWN. */
  datatype Move = Go(pc: ClientPc) | Finish(res: Result) | Abort

  const NETDOWN := Result(-ENETDOWN, [])

  predicate Sending(pc: ClientPc) {
    pc.SendType? || pc.SendReq? || pc.SendPay?
  }

  predicate Receiving(pc: ClientPc) {
    pc.RecvRes? || pc.RecvPay?
  }

  ghost predicate Fits(pc: ClientPc) {
    !pc.Idle? ==> Encodable(pc.op)
  }

  function ToSend(pc: ClientPc): Content
    requires Sending(pc) && Fits(pc)
  {
    match pc
    case SendType(op) => Enc32(Tag(op))
    case SendReq(op) => EncReq(op)
    case SendPay(op) => Payload(op)
  }

  function ToRecv(pc: ClientPc): nat
    requires Receiving(pc)
  {
    match pc
    case RecvRes(op) => HdrLen(op)
    case RecvPay(op, h, _) => Unit(op, h)
  }

  /** `n` is what send returned: the number of bytes accepted, or -1. */
  function AfterSend(pc: ClientPc, n: int): Move
    requires Sending(pc) && Fits(pc)
  {
    if n != |ToSend(pc)| then Abort
    else match pc
      case SendType(op) => Go(SendReq(op))
      case SendReq(op) => Go(RecvRes(op))
      case SendPay(op) => Finish(Outward(op, Reply(0, 0, [])))
  }

  function AfterRecv(pc: ClientPc, b: Content): Move
    requires Receiving(pc) && |b| == ToRecv(pc)
  {
    match pc
    case RecvRes(op) => AfterHeader(op, DecHdr(op, b))
    case RecvPay(op, h, got) =>
      if |got + b| >= Following(op, h) then Finish(Outward(op, h.(pay := got + b)))
      else Go(RecvPay(op, h, got + b))
  }

  function AfterHeader(op: Request, h: Reply): Move {
    if op.Write? then
      if h.err > 0 then Finish(Outward(op, h)) else Go(SendPay(op))
    else if op.Read? && h.err <= 0 && h.n < -1 then Abort
    else if Following(op, h) > 0 || (op.Read? && h.err <= 0 && h.n == 0) then Go(RecvPay(op, h, []))
    else Finish(Outward(op, h))
  }

  // The server side: one request as a walk through its receives, calls and sends.

  datatype ServerPc =
    | AtType                                     // about to receive a request type
    | AtReq(tag: int)                            // about to receive the structure
    | AtCall(op: Request)                        // about to make the file call
    | AtRes(op: Request, reply: Reply)           // about to send the reply header
    | AtPay(op: Request, reply: Reply)           // about to send what follows it
    | AtWriteRes(fd: int, off: int, size: nat)   // about to acknowledge a write request
    | AtData(fd: int, off: int, size: nat)       // about to receive the data of a write
    | AtApply(fd: int, off: int, data: Content)  // about to lseek and write

  function AfterReq(h: Head): ServerPc
    requires Served(h.tag)
  {
    if h.tag == T_WRITE then AtWriteRes(h.fd, h.off, Max(h.size, 0)) else AtCall(Rebuild(h, []))
  }

  /** Whether a data send follows the header. A read that worked sends even zero bytes. */
  predicate MoreToSend(op: Request, r: Reply) {
    r.pay != [] || (op.Read? && r.err == 0)
  }

  // One connection.

  /** An operation of the client, numbered in the order the client issued them. */
  datatype Ticket = Ticket(id: nat, op: Request)

  /** `c2s` and `s2c` hold the bytes sent and not yet received, `srv` is where the server
      thread stands, `down` that it has closed its end. The rest is history: the requests
      begun on this connection and not yet finished by the server; the bytes of the latest
      one that the client has not yet sent; the reply to it, once it is decided; and the
      bytes of that reply the server has not yet sent. */
  datatype Conn = Conn(
    c2s: Content, s2c: Content, srv: ServerPc, down: bool,
    todo: seq<Ticket>, unsent: Content, ans: Option<Reply>, unsentBack: Content)

  const FRESH := Conn([], [], AtType, false, [], [], None, [])

  function Drop<T>(s: seq<T>, k: nat): seq<T> {
    if k <= |s| then s[k..] else []
  }

  function Accepted(n: int): nat {
    Max(n, 0)
  }

  function BeginOn(c: Conn, t: Ticket): Conn
    requires Encodable(t.op)
  {
    c.(todo := c.todo + [t], unsent := Enc(t.op), ans := None)
  }

  function ClientSends(c: Conn, msg: Content, n: int): Conn
    requires n <= |msg|
  {
    c.(c2s := c.c2s + msg[..Accepted(n)], unsent := Drop(c.unsent, Accepted(n)))
  }

  function ClientTakes(c: Conn, n: nat): Conn
    requires n <= |c.s2c|
  {
    c.(s2c := c.s2c[n..])
  }

  /** How many bytes the server thread is about to receive, if it is. */
  function ServerWants(srv: ServerPc): Option<nat> {
    match srv
    case AtType => Some(4)
    case AtReq(tag) => if Served(tag) then Some(ReqLen(tag)) else None
    case AtData(_, _, size) => Some(size)
    case _ => None
  }

  function ServerTakes(c: Conn): Conn
    requires ServerWants(c.srv).Some? && ServerWants(c.srv).value <= |c.c2s|
  {
    var n := ServerWants(c.srv).value;
    var b, c1 := c.c2s[..n], c.(c2s := c.c2s[n..]);
    match c.srv
    case AtType =>
      var tag := Dec32(b);
      if Served(tag) then c1.(srv := AtReq(tag)) else c1.(down := true)
    case AtReq(tag) =>
      var at := AfterReq(DecReq(tag, b));
      if at.AtWriteRes? then c1.(srv := at, ans := Some(Reply(0, 0, [])), unsentBack := Enc32(0))
      else c1.(srv := at)
    case AtData(fd, off, _) => c1.(srv := AtApply(fd, off, b))
    case _ => c
  }

  /** The message the server thread is about to send, if it is. */
  function ServerSays(srv: ServerPc): Option<Content> {
    match srv
    case AtRes(op, r) => Some(EncHdr(op, r))
    case AtPay(_, r) => Some(r.pay)
    case AtWriteRes(_, _, _) => Some(Enc32(0))
    case _ => None
  }

  /** The send that ends the handling of a request. */
  predicate LastSend(srv: ServerPc) {
    match srv
    case AtRes(op, r) => !MoreToSend(op, r)
    case AtPay(_, _) => true
    case AtWriteRes(_, _, size) => size == 0
    case _ => false
  }

  function ServerSends(c: Conn, n: int): Conn
    requires ServerSays(c.srv).Some? && n <= |ServerSays(c.srv).value|
  {
    var msg := ServerSays(c.srv).value;
    var c1 := c.(s2c := c.s2c + msg[..Accepted(n)], unsentBack := Drop(c.unsentBack, Accepted(n)));
    if n != |msg| then c1.(down := true)
    else if LastSend(c.srv) then c1.(srv := AtType, todo := Drop(c.todo, 1))
    else match c.srv
      case AtRes(op, r) => c1.(srv := AtPay(op, r))
      case AtWriteRes(fd, off, size) => c1.(srv := AtData(fd, off, size))
      case _ => c1
  }

  function ServerAnswers(c: Conn, r: Reply): Conn
    requires c.srv.AtCall?
  {
    c.(srv := AtRes(c.srv.op, r), ans := Some(r), unsentBack := EncHdr(c.srv.op, r) + r.pay)
  }

  function ServerApplied(c: Conn): Conn {
    c.(srv := AtType, todo := Drop(c.todo, 1))
  }

  // Client, connections and file server together.

  /** `cur` is the client's socket, if it has one. History: every operation begun, the
      connection it was begun on (-1 when connecting failed), the results returned so far,
      which operations failed in transport, which writes reached lseek and write, and the
      requests the server has carried out with what the operating system chose. */
  datatype World = World(
    fs: Server, conns: seq<Conn>, cur: Option<nat>, pc: ClientPc,
    ops: seq<Request>, home: seq<int>, results: seq<Result>, failed: set<int>,
    applied: seq<nat>, log: seq<Entry>)

  function Init(fs: Server): World {
    World(fs, [], None, Idle, [], [], [], {}, [], [])
  }

  datatype Label =
    | Begin(op: Request, connected: bool) // the next operation; whether connecting works
    | CSend(n: int)                       // the client's send returns n
    | CRecv(ok: bool)                     // the client's receive succeeds or fails
    | SRecv(i: nat, ok: bool)             // the same for server thread i
    | SSend(i: nat, n: int)
    | SCall(i: nat, oc: Outcome)          // server thread i makes its file call

  function CloseSocket(w: World): World {
    w.(pc := Idle, cur := None, results := w.results + [NETDOWN], failed := w.failed + {|w.ops| - 1})
  }

  function Follow(w: World, m: Move): World {
    match m
    case Go(pc) => w.(pc := pc)
    case Finish(res) => w.(pc := Idle, results := w.results + [res])
    case Abort => CloseSocket(w)
  }

  ghost predicate WorldTyped(w: World) {
    && WF(w.fs)
    && (w.cur.Some? ==> w.cur.value < |w.conns|)
    && (!w.pc.Idle? ==> w.cur.Some? && |w.ops| > 0)
    && Fits(w.pc)
  }

  /** Which labels a world can take. */
  ghost predicate Enabled(w: World, l: Label)
    requires WorldTyped(w)
  {
    match l
    case Begin(op, _) => w.pc.Idle? && Encodable(op)
    case CSend(n) => Sending(w.pc) && -1 <= n <= |ToSend(w.pc)|
    case CRecv(ok) => Receiving(w.pc) && (ok ==> ToRecv(w.pc) <= |w.conns[w.cur.value].s2c|)
    case SRecv(i, ok) =>
      && i < |w.conns| && !w.conns[i].down
      && ServerWants(w.conns[i].srv).Some?
      && (ok ==> ServerWants(w.conns[i].srv).value <= |w.conns[i].c2s|)
    case SSend(i, n) =>
      && i < |w.conns| && !w.conns[i].down
      && ServerSays(w.conns[i].srv).Some?
      && -1 <= n <= |ServerSays(w.conns[i].srv).value|
    case SCall(i, oc) =>
      && i < |w.conns| && !w.conns[i].down
      && ((w.conns[i].srv.AtCall? && Possible(w.fs, w.conns[i].srv.op, oc))
          || (w.conns[i].srv.AtApply? && w.conns[i].todo != []
              && Possible(w.fs, WriteOf(w.conns[i].srv), oc)))
  }

  function WriteOf(srv: ServerPc): Request
    requires srv.AtApply?
  {
    Write(srv.fd, srv.off, srv.data)
  }

  ghost function Step(w: World, l: Label): World
    requires WorldTyped(w) && Enabled(w, l)
  {
    match l
    case Begin(op, connected) =>
      var t := Ticket(|w.ops|, op);
      if w.cur.None? && !connected then
        CloseSocket(w.(ops := w.ops + [op], home := w.home + [-1]))
      else
        var w1 := if w.cur.None? then w.(conns := w.conns + [FRESH], cur := Some(|w.conns|)) else w;
        var i := w1.cur.value;
        w1.(conns := w1.conns[i := BeginOn(w1.conns[i], t)], pc := SendType(op),
            ops := w.ops + [op], home := w.home + [i])
    case CSend(n) =>
      var i := w.cur.value;
      Follow(w.(conns := w.conns[i := ClientSends(w.conns[i], ToSend(w.pc), n)]), AfterSend(w.pc, n))
    case CRecv(ok) =>
      if !ok then CloseSocket(w)
      else
        var i, n := w.cur.value, ToRecv(w.pc);
        Follow(w.(conns := w.conns[i := ClientTakes(w.conns[i], n)]), AfterRecv(w.pc, w.conns[i].s2c[..n]))
    case SRecv(i, ok) =>
      var c := w.conns[i];
      w.(conns := w.conns[i := if ok then ServerTakes(c) else c.(down := true)])
    case SSend(i, n) =>
      var c := w.conns[i];
      var w1 := w.(conns := w.conns[i := ServerSends(c, n)]);
      // A write of no bytes ends here, without a file call.
      if c.srv.AtWriteRes? && c.srv.size == 0 && n == |ServerSays(c.srv).value| then
        w1.(log := w.log + [Entry(Write(c.srv.fd, c.srv.off, []), Complete)])
      else w1
    case SCall(i, oc) =>
      var c := w.conns[i];
      if c.srv.AtCall? then
        var (fs, r) := Serve(w.fs, c.srv.op, oc);
        w.(fs := fs, conns := w.conns[i := ServerAnswers(c, r)], log := w.log + [Entry(c.srv.op, oc)])
      else
        var op := WriteOf(c.srv);
        w.(fs := Serve(w.fs, op, oc).0, conns := w.conns[i := ServerApplied(c)],
           applied := w.applied + [c.todo[0].id], log := w.log + [Entry(op, oc)])
  }

  /** A run from the initial world: `ws` has one world more than there are labels. */
  ghost predicate Run(fs: Server, ws: seq<World>, ls: seq<Label>) {
    && WF(fs)
    && |ws| == |ls| + 1
    && ws[0] == Init(fs)
    && forall k :: 0 <= k < |ls| ==> WorldTyped(ws[k]) && Enabled(ws[k], ls[k]) && ws[k + 1] == Step(ws[k], ls[k])
  }
}
