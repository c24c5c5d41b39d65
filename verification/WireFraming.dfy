/** Framing: neither side ever loses its place in the byte stream.

    The partner here is a plain decoder, the server's reading loop as a function on bytes,
    defined without any reference to the client. */
module WireFraming {
  import opened Files
  import opened FileServer
  import opened Codec
  import opened Wire
  import opened WireInvariant
  import opened WireSafety

  /** The server's own reading of a byte stream: the requests it would complete. */
  function Decode(b: Content): seq<Request>
    decreases |b|, 2
  {
    if |b| < 4 || !Served(Dec32(b[..4])) then [] else DecodeReq(Dec32(b[..4]), b[4..])
  }

  function DecodeReq(tag: int, b: Content): seq<Request>
    requires Served(tag)
    decreases |b|, 1
  {
    if |b| < ReqLen(tag) then [] else DecodeData(DecReq(tag, b[..ReqLen(tag)]), b[ReqLen(tag)..])
  }

  function DataLen(h: Head): nat {
    if h.tag == T_WRITE then Max(h.size, 0) else 0
  }

  function DecodeData(h: Head, b: Content): seq<Request>
    requires Served(h.tag)
    decreases |b|, 3
  {
    if |b| < DataLen(h) then [] else [Rebuild(h, b[..DataLen(h)])] + Decode(b[DataLen(h)..])
  }

  /** The same from any control point: the request in hand comes first. */
  function DecodeAt(srv: ServerPc, b: Content): seq<Request> {
    match srv
    case AtType => Decode(b)
    case AtReq(tag) => if Served(tag) then DecodeReq(tag, b) else []
    case AtWriteRes(fd, off, size) => DecodeData(Head(T_WRITE, "", fd, off, size), b)
    case AtData(fd, off, size) => DecodeData(Head(T_WRITE, "", fd, off, size), b)
    case AtApply(fd, off, data) => [Write(fd, off, data)] + Decode(b)
    case _ => [srv.op] + Decode(b)
  }

  function Ops(ts: seq<Ticket>): seq<Request> {
    if ts == [] then [] else [ts[0].op] + Ops(ts[1..])
  }

  lemma DecodeDataStep(op: Request, rest: Content)
    ensures DecodeData(HeadOf(op), Payload(op) + rest) == [op] + Decode(rest)
  {
    var b := Payload(op) + rest;
    assert DataLen(HeadOf(op)) == |Payload(op)|;
    assert b[..|Payload(op)|] == Payload(op) && b[|Payload(op)|..] == rest;
  }

  lemma DecodeReqStep(op: Request, rest: Content)
    requires Encodable(op)
    ensures DecodeReq(Tag(op), EncReq(op) + Payload(op) + rest) == [op] + Decode(rest)
  {
    var b := EncReq(op) + Payload(op) + rest;
    Assoc(EncReq(op), Payload(op), rest);
    assert b[..|EncReq(op)|] == EncReq(op) && b[|EncReq(op)|..] == Payload(op) + rest;
    DecReqEncReq(op);
    DecodeDataStep(op, rest);
  }

  /** Reading what was written gives back the requests, in order. */
  lemma {:induction false} DecodeEncAll(ts: seq<Ticket>)
    requires AllEncodable(ts)
    ensures Decode(EncAll(ts)) == Ops(ts)
  {
    if ts != [] {
      var op, rest := ts[0].op, EncAll(ts[1..]);
      Assoc4(Enc32(Tag(op)), EncReq(op), Payload(op), rest);
      var b, tail := EncAll(ts), EncReq(op) + Payload(op) + rest;
      assert b == Enc32(Tag(op)) + tail;
      assert b[..4] == Enc32(Tag(op)) && b[4..] == tail;
      Dec32Enc32(Tag(op));
      DecodeReqStep(op, rest);
      DecodeEncAll(ts[1..]);
    }
  }

  lemma DecodeDue(c: Conn)
    requires AllEncodable(c.todo) && InStep(c)
    ensures DecodeAt(c.srv, Due(c)) == Ops(c.todo)
  {
    DecodeEncAll(c.todo);
    if c.todo != [] {
      var op, rest := c.todo[0].op, EncAll(c.todo[1..]);
      DecodeEncAll(c.todo[1..]);
      DecodeReqStep(op, rest);
      DecodeDataStep(op, rest);
    }
  }

  /** More bytes can only add requests. */
  lemma {:induction false} DecodeGrows(b: Content, more: Content)
    ensures Decode(b) <= Decode(b + more)
    decreases |b|, 2
  {
    if |b| >= 4 {
      var d := b + more;
      assert d[..4] == b[..4] && d[4..] == b[4..] + more;
      if Served(Dec32(b[..4])) {
        DecodeReqGrows(Dec32(b[..4]), b[4..], more);
      }
    }
  }

  lemma {:induction false} DecodeReqGrows(tag: int, b: Content, more: Content)
    requires Served(tag)
    ensures DecodeReq(tag, b) <= DecodeReq(tag, b + more)
    decreases |b|, 1
  {
    var n := ReqLen(tag);
    if |b| >= n {
      var d := b + more;
      assert d[..n] == b[..n] && d[n..] == b[n..] + more;
      DecodeDataGrows(DecReq(tag, b[..n]), b[n..], more);
    }
  }

  lemma {:induction false} DecodeDataGrows(h: Head, b: Content, more: Content)
    requires Served(h.tag)
    ensures DecodeData(h, b) <= DecodeData(h, b + more)
    decreases |b|, 3
  {
    var n := DataLen(h);
    if |b| >= n {
      var d := b + more;
      assert d[..n] == b[..n] && d[n..] == b[n..] + more;
      DecodeGrows(b[n..], more);
    }
  }

  lemma DecodeAtGrows(srv: ServerPc, b: Content, more: Content)
    ensures DecodeAt(srv, b) <= DecodeAt(srv, b + more)
  {
    DecodeGrows(b, more);
    match srv
    case AtReq(tag) => if Served(tag) { DecodeReqGrows(tag, b, more); }
    case AtWriteRes(fd, off, size) => DecodeDataGrows(Head(T_WRITE, "", fd, off, size), b, more);
    case AtData(fd, off, size) => DecodeDataGrows(Head(T_WRITE, "", fd, off, size), b, more);
    case _ =>
  }

  /** Framing, in every world of every run and on every connection: the bytes under way,
      read from where the server thread stands, are the requests it has not finished, cut
      off at what the client has not sent; a client between two operations has sent them
      whole, and either has no socket or has taken every byte of every reply. */
  lemma Framing(fs: Server, ws: seq<World>, ls: seq<Label>, k: nat, i: nat)
    requires Run(fs, ws, ls) && k < |ws| && i < |ws[k].conns|
    ensures var w, c := ws[k], ws[k].conns[i];
            && DecodeAt(c.srv, c.c2s + c.unsent) == Ops(c.todo)
            && DecodeAt(c.srv, c.c2s) <= Ops(c.todo)
            && (w.pc.Idle? && w.cur == Some(i) ==>
                  && DecodeAt(c.srv, c.c2s) == Ops(c.todo)
                  && c.s2c == [] && c.unsentBack == []
                  && |c.todo| <= 1)
  {
    RunSafe(fs, ws, ls);
    assert Safe(fs, ws[k]) && ConnOk(ws[k], i);
    var c := ws[k].conns[i];
    DecodeDue(c);
    DecodeAtGrows(c.srv, c.c2s, c.unsent);
    assert c.c2s + [] == c.c2s;
  }
}
