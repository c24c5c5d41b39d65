/** What holds of every connection after every step, whatever the network does. */
module WireInvariant {
  import opened Files
  import opened FileServer
  import opened Codec
  import opened Wire

  // Bytes still due on a connection.

  ghost predicate AllEncodable(ts: seq<Ticket>) {
    forall i :: 0 <= i < |ts| ==> Encodable(ts[i].op)
  }

  ghost function EncAll(ts: seq<Ticket>): Content
    requires AllEncodable(ts)
  {
    if ts == [] then [] else Enc(ts[0].op) + EncAll(ts[1..])
  }

  lemma {:induction false} EncAllSnoc(ts: seq<Ticket>, t: Ticket)
    requires AllEncodable(ts) && Encodable(t.op)
    ensures AllEncodable(ts + [t]) && EncAll(ts + [t]) == EncAll(ts) + Enc(t.op)
  {
    if ts == [] {
      assert ts + [t] == [t];
    } else {
      assert (ts + [t])[1..] == ts[1..] + [t];
      EncAllSnoc(ts[1..], t);
      Assoc(Enc(ts[0].op), EncAll(ts[1..]), Enc(t.op));
    }
  }

  /** The server thread stands inside its oldest unfinished request. */
  ghost predicate InStep(c: Conn)
    requires AllEncodable(c.todo)
  {
    match c.srv
    case AtType => true
    case AtReq(tag) => c.todo != [] && Tag(c.todo[0].op) == tag
    case AtCall(op) => c.todo != [] && c.todo[0].op == op && !op.Write?
    case AtRes(op, r) => c.todo != [] && c.todo[0].op == op && !op.Write? && Sound(op, r)
    case AtPay(op, r) => c.todo != [] && c.todo[0].op == op && !op.Write? && Sound(op, r) && MoreToSend(op, r)
    case AtWriteRes(fd, off, size) => c.todo != [] && WriteMatches(c.todo[0].op, fd, off, size)
    case AtData(fd, off, size) => size > 0 && c.todo != [] && WriteMatches(c.todo[0].op, fd, off, size)
    case AtApply(fd, off, data) => c.todo != [] && data != [] && c.todo[0].op == Write(fd, off, data)
  }

  predicate WriteMatches(op: Request, fd: int, off: int, size: nat) {
    op.Write? && op.fd == fd && op.off == off && |op.data| == size
  }

  /** The bytes the server thread has yet to receive for its unfinished requests. */
  ghost function Due(c: Conn): Content
    requires AllEncodable(c.todo) && InStep(c)
  {
    match c.srv
    case AtType => EncAll(c.todo)
    case AtReq(_) => EncReq(c.todo[0].op) + Payload(c.todo[0].op) + EncAll(c.todo[1..])
    case AtWriteRes(_, _, _) => Payload(c.todo[0].op) + EncAll(c.todo[1..])
    case AtData(_, _, _) => Payload(c.todo[0].op) + EncAll(c.todo[1..])
    case _ => EncAll(c.todo[1..])
  }

  /** The bytes the server thread has yet to send for the reply it is giving. */
  function DueBack(srv: ServerPc): Content {
    match srv
    case AtRes(op, r) => EncHdr(op, r) + r.pay
    case AtPay(_, r) => r.pay
    case AtWriteRes(_, _, _) => Enc32(0)
    case _ => []
  }

  /** Both channels carry exactly what the two ends' control points call for. */
  ghost predicate Framed(c: Conn) {
    && AllEncodable(c.todo)
    && InStep(c)
    && c.c2s + c.unsent == Due(c)
    && (!c.down ==> c.unsentBack == DueBack(c.srv))
    && (!c.down && (c.srv.AtRes? || (c.srv.AtPay? && c.srv.reply.pay != [])) ==> c.ans == Some(c.srv.reply))
    && |c.todo| <= 2
    && (|c.todo| == 2 ==> c.down || Finishing(c))
  }

  predicate Deciding(srv: ServerPc) {
    srv.AtType? || srv.AtReq? || srv.AtCall?
  }

  predicate HasLast(c: Conn, op: Request) {
    c.todo != [] && c.todo[|c.todo| - 1].op == op
  }

  /** How a connection looks to the client that holds it. */
  ghost predicate Live(c: Conn, pc: ClientPc) {
    match pc
    case Idle => c.unsent == [] && Quiet(c) && (c.todo == [] || Trailing(c))
    case SendType(op) => c.ans.None? && Pending(c, op) && c.unsent == Enc(op)
    case SendReq(op) => c.ans.None? && Pending(c, op) && c.unsent == EncReq(op) + Payload(op)
    case RecvRes(op) =>
      && Pending(c, op)
      && c.unsent == Payload(op)
      && (c.ans.Some? ==> c.s2c + c.unsentBack == EncHdr(op, c.ans.value) + c.ans.value.pay)
    case RecvPay(op, h, got) =>
      && Pending(c, op) && !op.Write? && c.ans.Some? && c.unsent == []
      && h == Reply(c.ans.value.err, c.ans.value.n, [])
      && MoreToSend(op, c.ans.value)
      && got + c.s2c + c.unsentBack == c.ans.value.pay
    case SendPay(op) => Pending(c, op) && op.Write? && c.ans.Some? && c.unsent == Payload(op) && Quiet(c)
  }

  predicate Quiet(c: Conn) {
    c.s2c == [] && c.unsentBack == []
  }

  /** The server thread is past everything its oldest request's client waits for: it has the
      data of a write to take in or store, or the zero bytes of an empty read to send. */
  predicate Finishing(c: Conn)
    requires c.todo != []
  {
    || (c.todo[0].op.Write? && (c.srv.AtData? || c.srv.AtApply?))
    || (c.srv.AtPay? && c.srv.reply.pay == [])
  }

  /** All an idle client's connection can still hold. */
  predicate Trailing(c: Conn) {
    |c.todo| == 1 && (c.down || Finishing(c))
  }

  /** The client is inside `op`; until the reply is decided the server owes the whole of it. */
  ghost predicate Pending(c: Conn, op: Request) {
    && Encodable(op)
    && (c.ans.None? ==> Quiet(c) && HasLast(c, op) && (|c.todo| == 1 ==> Deciding(c.srv)))
    && (c.ans.Some? ==>
        && Sound(op, c.ans.value)
        && (c.todo == [] || (|c.todo| == 1 && c.todo[0].op == op && !Deciding(c.srv))))
  }

  // Client steps.

  lemma BeginDue(c: Conn, t: Ticket)
    requires AllEncodable(c.todo) && InStep(c) && Encodable(t.op)
    ensures var d := BeginOn(c, t);
            AllEncodable(d.todo) && InStep(d) && Due(d) == Due(c) + Enc(t.op)
  {
    EncAllSnoc(c.todo, t);
    if c.todo != [] {
      var op, rest, d := c.todo[0].op, EncAll(c.todo[1..]), BeginOn(c, t);
      assert d.todo[0] == c.todo[0] && d.todo[1..] == c.todo[1..] + [t];
      EncAllSnoc(c.todo[1..], t);
      Assoc(EncReq(op) + Payload(op), rest, Enc(t.op));
      Assoc(Payload(op), rest, Enc(t.op));
    }
  }

  lemma BeginKeeps(c: Conn, t: Ticket)
    requires Framed(c) && Live(c, Idle) && Encodable(t.op)
    ensures Framed(BeginOn(c, t)) && Live(BeginOn(c, t), SendType(t.op))
  {
    var d := BeginOn(c, t);
    var e := Enc(t.op);
    BeginDue(c, t);
    assert c.c2s + [] == c.c2s;
    assert d.c2s + d.unsent == Due(d);
    assert DueBack(d.srv) == DueBack(c.srv);
    if c.todo != [] {
      assert d.todo[0] == c.todo[0];
    }
  }

  /** An accepted message moves bytes from the unsent end to the channel. */
  lemma SendShifts(c: Conn, msg: Content, rest: Content, n: int)
    requires Framed(c) && c.unsent == msg + rest && n <= |msg|
    ensures Framed(ClientSends(c, msg, n))
    ensures ClientSends(c, msg, n).unsent == msg[Accepted(n)..] + rest
  {
    var k := Accepted(n);
    var d := ClientSends(c, msg, n);
    assert c.unsent[k..] == msg[k..] + rest;
    assert c.c2s + (msg + rest) == (c.c2s + msg[..k]) + (msg[k..] + rest);
  }

  /** What a client send leaves behind. */
  ghost predicate AfterSendHolds(c: Conn, pc: ClientPc, n: int)
    requires Sending(pc) && Fits(pc) && n <= |ToSend(pc)|
  {
    var d := ClientSends(c, ToSend(pc), n);
    && Framed(d)
    && match AfterSend(pc, n)
       case Go(next) => Live(d, next) && Fits(next)
       case Finish(_) => Live(d, Idle)
       case Abort => pc.op.Write? ==> |d.unsent| > 0 || pc.op.data == []
  }

  lemma SendTypeKeeps(c: Conn, op: Request, n: int)
    requires Framed(c) && Live(c, SendType(op)) && -1 <= n <= 4
    ensures AfterSendHolds(c, SendType(op), n)
  {
    var msg, rest := Enc32(Tag(op)), EncReq(op) + Payload(op);
    assert Enc(op) == msg + rest;
    SendShifts(c, msg, rest, n);
    assert n == 4 ==> msg[n..] + rest == rest;
  }

  lemma SendReqKeeps(c: Conn, op: Request, n: int)
    requires Framed(c) && Live(c, SendReq(op)) && -1 <= n <= |EncReq(op)|
    ensures AfterSendHolds(c, SendReq(op), n)
  {
    var msg, rest := EncReq(op), Payload(op);
    SendShifts(c, msg, rest, n);
    assert n == |msg| ==> msg[n..] + rest == rest;
  }

  lemma SendPayKeeps(c: Conn, op: Request, n: int)
    requires Framed(c) && Live(c, SendPay(op)) && -1 <= n <= |Payload(op)|
    ensures AfterSendHolds(c, SendPay(op), n)
  {
    assert Payload(op) == Payload(op) + [];
    SendShifts(c, Payload(op), [], n);
  }

  /** When a whole message heads what is due, the receiver gets exactly that message. */
  lemma TakeFront(a: Content, b: Content, x: Content, y: Content)
    requires a + b == x + y && |x| <= |a|
    ensures a[..|x|] == x && a[|x|..] + b == y
  {
    var n := |x|;
    assert (a + b)[..n] == a[..n] && (x + y)[..n] == x;
    assert (a + b)[n..] == a[n..] + b && (x + y)[n..] == y;
  }

  lemma Assoc(x: Content, y: Content, z: Content)
    ensures (x + y) + z == x + (y + z)
  {
  }

  lemma Assoc4(w: Content, x: Content, y: Content, z: Content)
    ensures ((w + x) + y) + z == w + ((x + y) + z)
  {
  }

  /** Taking the reply header: it is the header of the reply the server decided on. */
  lemma HeaderTaken(c: Conn, op: Request)
    requires Framed(c) && Live(c, RecvRes(op)) && HdrLen(op) <= |c.s2c|
    ensures c.ans.Some? && DecHdr(op, c.s2c[..HdrLen(op)]) == Reply(c.ans.value.err, c.ans.value.n, [])
    ensures var d := ClientTakes(c, HdrLen(op));
            Framed(d) && d.s2c + d.unsentBack == c.ans.value.pay
  {
    var n, r := HdrLen(op), c.ans.value;
    TakeFront(c.s2c, c.unsentBack, EncHdr(op, r), r.pay);
    DecHdrEncHdr(op, r);
  }

  /** What the client does next depends on the header alone, and comes out as the reply says. */
  lemma HeaderDecides(op: Request, r: Reply)
    requires Sound(op, r)
    ensures AfterHeader(op, Reply(r.err, r.n, [])) ==
            if op.Write? then Go(SendPay(op))
            else if MoreToSend(op, r) then Go(RecvPay(op, Reply(r.err, r.n, []), []))
            else Finish(Outward(op, r))
    ensures Following(op, Reply(r.err, r.n, [])) == |r.pay|
    ensures r.pay == [] ==> Reply(r.err, r.n, []) == r
  {
  }

  /** What a client receive leaves behind. */
  ghost predicate AfterRecvHolds(d: Conn, op: Request, m: Move, r: Reply) {
    && Framed(d)
    && match m
       case Go(next) => Live(d, next) && Fits(next)
       case Finish(res) => Live(d, Idle) && !op.Write? && res == Outward(op, r)
       case Abort => false
  }

  lemma RecvResKeeps(c: Conn, op: Request)
    requires Framed(c) && Live(c, RecvRes(op)) && HdrLen(op) <= |c.s2c|
    ensures c.ans.Some?
    ensures AfterRecvHolds(ClientTakes(c, HdrLen(op)), op, AfterRecv(RecvRes(op), c.s2c[..HdrLen(op)]), c.ans.value)
  {
    HeaderTaken(c, op);
    HeaderDecides(op, c.ans.value);
    var d := ClientTakes(c, HdrLen(op));
    var r := c.ans.value;
    assert Pending(d, op);
    if !op.Write? && !MoreToSend(op, r) {
      FinishedIdle(d, op);
    }
  }

  /** A client that has the whole reply leaves its connection idle. */
  lemma FinishedIdle(d: Conn, op: Request)
    requires Framed(d) && Pending(d, op) && !op.Write? && d.ans.Some? && Quiet(d) && d.unsent == []
    ensures Live(d, Idle)
  {
    if d.todo != [] && !d.down {
      assert DueBack(d.srv) == [];
      assert !d.srv.AtRes?;
    }
  }

  /** Taking payload bytes: what the client has, what is on its way and what the server has
      yet to send always add up to the reply's payload. */
  lemma PayTaken(c: Conn, pc: ClientPc)
    requires Framed(c) && pc.RecvPay? && Live(c, pc) && ToRecv(pc) <= |c.s2c|
    ensures var d, b := ClientTakes(c, ToRecv(pc)), c.s2c[..ToRecv(pc)];
            Framed(d) && Pending(d, pc.op) && (pc.got + b) + d.s2c + d.unsentBack == c.ans.value.pay
  {
    TakenNext(pc.got, c.s2c, ToRecv(pc));
  }

  lemma TakenNext(got: Content, rest: Content, n: nat)
    requires n <= |rest|
    ensures (got + rest[..n]) + rest[n..] == got + rest
  {
    assert rest[..n] + rest[n..] == rest;
    Assoc(got, rest[..n], rest[n..]);
  }

  lemma RecvPayKeeps(c: Conn, pc: ClientPc)
    requires Framed(c) && pc.RecvPay? && Live(c, pc) && ToRecv(pc) <= |c.s2c|
    ensures c.ans.Some?
    ensures AfterRecvHolds(ClientTakes(c, ToRecv(pc)), pc.op, AfterRecv(pc, c.s2c[..ToRecv(pc)]), c.ans.value)
  {
    var r, b, d := c.ans.value, c.s2c[..ToRecv(pc)], ClientTakes(c, ToRecv(pc));
    PayTaken(c, pc);
    HeaderDecides(pc.op, r);
    if |pc.got + b| >= |r.pay| {
      assert pc.hdr.(pay := r.pay) == r;
      FinishedIdle(d, pc.op);
    }
  }

  // Server steps.

  lemma TypeArrives(c: Conn)
    requires Framed(c) && c.srv.AtType? && 4 <= |c.c2s|
    ensures c.todo != [] && Dec32(c.c2s[..4]) == Tag(c.todo[0].op) && Served(Tag(c.todo[0].op))
    ensures c.c2s[4..] + c.unsent == EncReq(c.todo[0].op) + Payload(c.todo[0].op) + EncAll(c.todo[1..])
  {
    assert c.c2s + c.unsent == EncAll(c.todo);
    assert c.todo != [];
    var op := c.todo[0].op;
    Assoc4(Enc32(Tag(op)), EncReq(op), Payload(op), EncAll(c.todo[1..]));
    TakeFront(c.c2s, c.unsent, Enc32(Tag(op)), EncReq(op) + Payload(op) + EncAll(c.todo[1..]));
    Dec32Enc32(Tag(op));
  }

  lemma TakeTypeFramed(c: Conn)
    requires Framed(c) && c.srv.AtType? && 4 <= |c.c2s|
    ensures Framed(ServerTakes(c))
  {
    TypeArrives(c);
  }

  lemma TakeTypeLive(c: Conn, pc: ClientPc)
    requires Framed(c) && c.srv.AtType? && 4 <= |c.c2s| && Live(c, pc)
    ensures Live(ServerTakes(c), pc)
  {
    TypeArrives(c);
  }

  /** The structure that arrives is the one the client built for this request. */
  lemma RequestArrives(c: Conn)
    requires Framed(c) && c.srv.AtReq? && Served(c.srv.tag) && ReqLen(c.srv.tag) <= |c.c2s|
    ensures DecReq(c.srv.tag, c.c2s[..ReqLen(c.srv.tag)]) == HeadOf(c.todo[0].op)
    ensures c.c2s[ReqLen(c.srv.tag)..] + c.unsent == Payload(c.todo[0].op) + EncAll(c.todo[1..])
  {
    var op := c.todo[0].op;
    Assoc(EncReq(op), Payload(op), EncAll(c.todo[1..]));
    TakeFront(c.c2s, c.unsent, EncReq(op), Payload(op) + EncAll(c.todo[1..]));
    DecReqEncReq(op);
  }

  /** With the structure fully delivered, a client still inside the request waits for its reply. */
  lemma RequestArrivedPc(c: Conn, pc: ClientPc)
    requires Framed(c) && c.srv.AtReq? && Served(c.srv.tag) && ReqLen(c.srv.tag) <= |c.c2s| && !c.down
    requires Live(c, pc)
    ensures pc.RecvRes? && pc.op == c.todo[0].op && |c.todo| == 1 && c.ans.None?
  {
    RequestArrives(c);
    assert |c.todo| == 1;
    assert EncAll(c.todo[1..]) == [];
    assert |c.unsent| <= |Payload(c.todo[0].op)|;
  }

  lemma AfterReqHeadOf(op: Request)
    ensures AfterReq(HeadOf(op)) == if op.Write? then AtWriteRes(op.fd, op.off, |op.data|) else AtCall(op)
  {
  }

  lemma TakeReqMoves(c: Conn)
    requires Framed(c) && c.srv.AtReq? && Served(c.srv.tag) && ReqLen(c.srv.tag) <= |c.c2s| && !c.down
    ensures var d, op := ServerTakes(c), c.todo[0].op;
            d == if op.Write? then
                   c.(c2s := d.c2s, srv := AtWriteRes(op.fd, op.off, |op.data|),
                      ans := Some(Reply(0, 0, [])), unsentBack := Enc32(0))
                 else c.(c2s := d.c2s, srv := AtCall(op))
  {
    RequestArrives(c);
    AfterReqHeadOf(c.todo[0].op);
  }

  lemma TakeReqFramed(c: Conn)
    requires Framed(c) && c.srv.AtReq? && Served(c.srv.tag) && ReqLen(c.srv.tag) <= |c.c2s| && !c.down
    ensures Framed(ServerTakes(c))
  {
    var op := c.todo[0].op;
    RequestArrives(c);
    TakeReqMoves(c);
    if !op.Write? {
      assert Payload(op) + EncAll(c.todo[1..]) == EncAll(c.todo[1..]);
    }
  }

  lemma TakeReqKeeps(c: Conn, pc: ClientPc)
    requires Framed(c) && c.srv.AtReq? && Served(c.srv.tag) && ReqLen(c.srv.tag) <= |c.c2s| && !c.down
    ensures Framed(ServerTakes(c))
    ensures Live(c, pc) ==> Live(ServerTakes(c), pc)
  {
    TakeReqFramed(c);
    TakeReqMoves(c);
    if Live(c, pc) {
      RequestArrivedPc(c, pc);
      var r := Reply(0, 0, []);
      assert pc.op.Write? ==> EncHdr(pc.op, r) + [] == Enc32(0) && [] + Enc32(0) == Enc32(0) && Sound(pc.op, r);
    }
  }

  lemma TakeDataKeeps(c: Conn, pc: ClientPc)
    requires Framed(c) && c.srv.AtData? && c.srv.size <= |c.c2s| && !c.down
    ensures Framed(ServerTakes(c))
    ensures Live(c, pc) ==> Live(ServerTakes(c), pc)
  {
    var data, rest := c.todo[0].op.data, EncAll(c.todo[1..]);
    TakeFront(c.c2s, c.unsent, data, rest);
  }

  lemma AnswerKeeps(c: Conn, r: Reply, pc: ClientPc)
    requires Framed(c) && c.srv.AtCall? && !c.down && Sound(c.srv.op, r)
    ensures Framed(ServerAnswers(c, r))
    ensures Live(c, pc) ==> Live(ServerAnswers(c, r), pc)
  {
  }

  /** The server thread is done with its oldest request. */
  lemma PopKeeps(c: Conn, d: Conn)
    requires Framed(c) && c.todo != [] && !c.srv.AtReq? && !c.srv.AtType?
    requires Due(c) == EncAll(c.todo[1..]) && !c.down
    requires d == c.(srv := AtType, todo := c.todo[1..], s2c := d.s2c, unsentBack := [])
    ensures Framed(d)
  {
    assert |d.todo| <= 1;
  }

  lemma ApplyKeeps(c: Conn, pc: ClientPc)
    requires Framed(c) && c.srv.AtApply? && !c.down
    ensures Framed(ServerApplied(c))
    ensures Live(c, pc) ==> Live(ServerApplied(c), pc)
  {
    PopKeeps(c, ServerApplied(c));
  }

  lemma MoveBack(a: Content, msg: Content, rest: Content, n: int)
    requires n <= |msg|
    ensures a + msg[..Accepted(n)] + Drop(msg + rest, Accepted(n)) == a + (msg + rest)
    ensures n == |msg| ==> Drop(msg + rest, Accepted(n)) == rest
  {
    var k := Accepted(n);
    assert (msg + rest)[k..] == msg[k..] + rest;
    assert msg[..k] + (msg[k..] + rest) == msg + rest;
  }

  /** A server send moves reply bytes to the channel; everything the client looks at stays. */
  lemma ServerSendMoves(c: Conn, n: int)
    requires Framed(c) && ServerSays(c.srv).Some? && -1 <= n <= |ServerSays(c.srv).value| && !c.down
    ensures var d := ServerSends(c, n);
            && d.s2c + d.unsentBack == c.s2c + c.unsentBack
            && (!d.down ==> d.unsentBack == DueBack(d.srv))
            && d.ans == c.ans && d.unsent == c.unsent && d.c2s == c.c2s
  {
    if c.srv.AtRes? {
      HeaderMoves(c, n);
    } else {
      WholeMoves(c, n);
    }
  }

  lemma HeaderMoves(c: Conn, n: int)
    requires c.srv.AtRes? && -1 <= n <= |EncHdr(c.srv.op, c.srv.reply)| && !c.down && c.unsentBack == DueBack(c.srv)
    ensures var d := ServerSends(c, n);
            d.s2c + d.unsentBack == c.s2c + c.unsentBack && (!d.down ==> d.unsentBack == DueBack(d.srv))
  {
    MoveBack(c.s2c, EncHdr(c.srv.op, c.srv.reply), c.srv.reply.pay, n);
  }

  /** The other messages are all the server still owes. */
  lemma WholeMoves(c: Conn, n: int)
    requires c.srv.AtPay? || c.srv.AtWriteRes?
    requires -1 <= n <= |ServerSays(c.srv).value| && !c.down && c.unsentBack == DueBack(c.srv)
    ensures var d := ServerSends(c, n);
            d.s2c + d.unsentBack == c.s2c + c.unsentBack && (!d.down ==> d.unsentBack == DueBack(d.srv))
  {
    var msg := ServerSays(c.srv).value;
    MoveBack(c.s2c, msg, [], n);
    assert msg + [] == msg;
  }

  lemma ServerSendFramed(c: Conn, n: int)
    requires Framed(c) && ServerSays(c.srv).Some? && -1 <= n <= |ServerSays(c.srv).value| && !c.down
    ensures Framed(ServerSends(c, n))
  {
    var d := ServerSends(c, n);
    ServerSendMoves(c, n);
    if n == |ServerSays(c.srv).value| && LastSend(c.srv) {
      if c.srv.AtWriteRes? {
        assert Payload(c.todo[0].op) == [];
        assert Payload(c.todo[0].op) + EncAll(c.todo[1..]) == EncAll(c.todo[1..]);
      }
      PopKeeps(c, d);
    }
  }

  /** With nothing decided for the client, all the server can send is the zero bytes of an
      empty read. */
  lemma ServerSendUnasked(c: Conn, n: int, pc: ClientPc)
    requires Framed(c) && ServerSays(c.srv).Some? && -1 <= n <= |ServerSays(c.srv).value| && !c.down
    requires Live(c, pc) && (pc.Idle? || c.ans.None?)
    ensures Live(ServerSends(c, n), pc)
  {
    assert c.srv.AtPay? && ServerSays(c.srv) == Some([]) && n <= 0;
    assert ServerSends(c, n).s2c == [] && ServerSends(c, n).unsentBack == [];
  }

  lemma ServerSendPending(c: Conn, n: int, op: Request)
    requires Framed(c) && ServerSays(c.srv).Some? && -1 <= n <= |ServerSays(c.srv).value| && !c.down
    requires Pending(c, op) && c.ans.Some?
    ensures Pending(ServerSends(c, n), op)
  {
    assert |c.todo| == 1 && c.todo[0].op == op;
  }

  /** Whatever the client is doing, a server send shows only as bytes in its channel. */
  lemma ServerSendLive(c: Conn, n: int, pc: ClientPc)
    requires Framed(c) && ServerSays(c.srv).Some? && -1 <= n <= |ServerSays(c.srv).value| && !c.down
    requires Live(c, pc)
    ensures Live(ServerSends(c, n), pc)
  {
    if pc.Idle? || c.ans.None? {
      ServerSendUnasked(c, n, pc);
    } else {
      var d := ServerSends(c, n);
      ServerSendMoves(c, n);
      ServerSendPending(c, n, pc.op);
      match pc {
        case RecvRes(_) =>
        case RecvPay(_, _, got) => {
          Assoc(got, c.s2c, c.unsentBack);
          Assoc(got, d.s2c, d.unsentBack);
        }
        case SendPay(_) => assert |d.s2c| == 0 && |d.unsentBack| == 0;
      }
    }
  }

  lemma DownKeeps(c: Conn, pc: ClientPc)
    requires Framed(c)
    ensures Framed(c.(down := true))
    ensures Live(c, pc) ==> Live(c.(down := true), pc)
  {
    if Live(c, pc) {
      DownLive(c, pc);
    }
  }

  lemma DownLive(c: Conn, pc: ClientPc)
    requires Live(c, pc)
    ensures Live(c.(down := true), pc)
  {
  }
}
