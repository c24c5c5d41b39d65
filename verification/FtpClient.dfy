/** The client's operations as they are written, one send or receive after the other, and
    their agreement with the client side of the step machine. */
module FtpClient {
  import opened Files
  import opened FileServer
  import opened Codec
  import opened Wire

  /** One call on the socket and what came of it. A receive that delivers less than it asked
      for has failed. */
  datatype Call = Sent(msg: Content, n: int) | Received(size: int, b: Option<Content>)

  /** Where a series of calls leads the step machine: a place in the operation, its result,
      a broken connection, or nowhere, when one of the calls is not the machine's. */
  datatype Stage = At(pc: ClientPc) | Over(res: Result) | Broken | Stray

  function StageOf(m: Move): Stage {
    match m
    case Go(pc) => At(pc)
    case Finish(res) => Over(res)
    case Abort => Broken
  }

  ghost function Next(s: Stage, c: Call): Stage {
    if !s.At? then Stray
    else match c
      case Sent(msg, n) =>
        if Sending(s.pc) && Fits(s.pc) && msg == ToSend(s.pc) then StageOf(AfterSend(s.pc, n)) else Stray
      case Received(size, b) =>
        if !Receiving(s.pc) || size != ToRecv(s.pc) then Stray
        else if b.None? then Broken
        else if |b.value| != size then Stray
        else StageOf(AfterRecv(s.pc, b.value))
  }

  ghost function After(op: Request, calls: seq<Call>): Stage {
    if calls == [] then At(SendType(op)) else Next(After(op, calls[..|calls| - 1]), calls[|calls| - 1])
  }

  lemma AfterOneMore(op: Request, calls: seq<Call>, c: Call)
    ensures After(op, calls + [c]) == Next(After(op, calls), c)
  {
    assert (calls + [c])[..|calls|] == calls;
  }

  /** An operation that made these calls on its socket `sd` kept to the machine, and returned
      what the machine returns: its result, with the socket still open, or -ENETDOWN, with
      the socket closed. */
  ghost predicate Kept(op: Request, calls: seq<Call>, r: Result, sd: int) {
    match After(op, calls)
    case Over(res) => r == res && sd >= 0
    case Broken => r == NETDOWN && sd == -1
    case At(_) => calls == [] && r == NETDOWN && sd == -1 // no connection
    case Stray => false
  }

  /** What the operating system will answer to one call. */
  datatype Answer = Answer(n: int, b: Content)

  /** The connection object: a socket descriptor, -1 for none. `net` is what the operating
      system has in store; with nothing left every call fails. */
  class Client {
    var sd: int
    var net: seq<Answer>
    ghost var calls: seq<Call>

    constructor (net: seq<Answer>)
      ensures sd == -1 && this.net == net && calls == []
    {
      sd, this.net, calls := -1, net, [];
    }

    method NextAnswer() returns (a: Answer)
      modifies this`net
    {
      a := Answer(-1, []);
      if net != [] {
        a, net := net[0], net[1..];
      }
    }

    /** An open socket is used again; without one, one is made and connected. When only the
        connecting fails the socket stays behind, and the caller closes it. */
    method Conn() returns (r: int)
      requires sd >= -1
      modifies this`net, this`sd
      ensures sd >= -1 && if r >= 0 then sd == r else old(sd) < 0
      ensures old(sd) >= 0 ==> r == old(sd)
    {
      if sd < 0 {
        var made := NextAnswer();
        sd := if made.n >= 0 then made.n else -1;
        if sd < 0 {
          return -1;
        }
        var connected := NextAnswer();
        if connected.n < 0 {
          return connected.n;
        }
      }
      r := sd;
    }

    method CloseSocket()
      modifies this`sd
      ensures sd == if old(sd) >= 0 then -1 else old(sd)
    {
      if sd >= 0 {
        sd := -1;
      }
    }

    method Send(msg: Content) returns (n: int)
      modifies this`net, this`calls
      ensures -1 <= n <= |msg| && calls == old(calls) + [Sent(msg, n)]
    {
      var a := NextAnswer();
      n := if -1 <= a.n <= |msg| then a.n else -1;
      calls := calls + [Sent(msg, n)];
    }

    /** Receiving a negative number of bytes fails at once and takes nothing. */
    method Recv(size: int) returns (n: int, b: Content)
      modifies this`net, this`calls
      ensures if size < 0 then n == -1 && b == [] && calls == old(calls)
              else -1 <= n <= size && calls == old(calls) + [Received(size, if n == size then Some(b) else None)]
      ensures n == size >= 0 ==> |b| == size
    {
      if size < 0 {
        return -1, [];
      }
      var a := NextAnswer();
      n, b := if |a.b| <= size then |a.b| else -1, a.b;
      calls := calls + [Received(size, if n == size then Some(b) else None)];
    }
  }

  class FtpClient {
    const client: Client

    constructor (client: Client)
      ensures this.client == client
    {
      this.client := client;
    }

    /** Every send and receive is checked in the same way: one that falls short closes the
        socket. */
    method Put(msg: Content, ghost op: Request, ghost pc: ClientPc) returns (ok: bool)
      requires client.sd >= 0 && After(op, client.calls) == At(pc) && Sending(pc) && Fits(pc) && msg == ToSend(pc)
      modifies client
      ensures if ok then client.sd >= 0 && After(op, client.calls) == StageOf(AfterSend(pc, |msg|))
              else client.sd == -1 && After(op, client.calls) == Broken
    {
      var n := client.Send(msg);
      AfterOneMore(op, old(client.calls), Sent(msg, n));
      ok := n == |msg|;
      if !ok {
        client.CloseSocket();
      }
    }

    method Get(size: nat, ghost op: Request, ghost pc: ClientPc) returns (ok: bool, b: Content)
      requires client.sd >= 0 && After(op, client.calls) == At(pc) && Receiving(pc) && size == ToRecv(pc)
      modifies client
      ensures if ok then |b| == size && client.sd >= 0 && After(op, client.calls) == StageOf(AfterRecv(pc, b))
              else client.sd == -1 && After(op, client.calls) == Broken
    {
      var n;
      n, b := client.Recv(size);
      AfterOneMore(op, old(client.calls), Received(size, if n == size then Some(b) else None));
      ok := n == size;
      if !ok {
        client.CloseSocket();
      }
    }

    /** What all operations begin with: connect, announce the request, send it, and receive
        the reply header. */
    method Ask(op: Request) returns (ok: bool, h: Reply)
      requires client.sd >= -1 && Encodable(op)
      modifies client
      ensures if ok then client.sd >= 0 && After(op, client.calls) == StageOf(AfterHeader(op, h)) && h.pay == []
              else Kept(op, client.calls, NETDOWN, client.sd)
    {
      h, ok := Reply(0, 0, []), false;
      client.calls := [];
      var sd := client.Conn();
      if sd < 0 {
        client.CloseSocket();
        return;
      }
      ok := Put(Enc32(Tag(op)), op, SendType(op));
      if !ok {
        return;
      }
      ok := Put(EncReq(op), op, SendReq(op));
      if !ok {
        return;
      }
      var res;
      ok, res := Get(HdrLen(op), op, RecvRes(op));
      if ok {
        h := DecHdr(op, res);
      }
    }

    method Getattr_(path: string) returns (r: Result)
      requires client.sd >= -1 && PathFits(path)
      modifies client
      ensures Kept(Request.Getattr(path), client.calls, r, client.sd)
    {
      ghost var op := Request.Getattr(path);
      var ok, h;
      ok, h := Ask(Request.Getattr(path));
      if !ok {
        return NETDOWN;
      }
      if h.err != 0 {
        return Result(-h.err, []);
      }
      var st;
      ok, st := Get(STAT_SIZE, op, RecvPay(op, h, []));
      if !ok {
        return NETDOWN;
      }
      assert [] + st == st;
      r := Result(0, st);
    }

    /** readdir_ and ls_: after the header, the entries one at a time. When one is cut short
        all of them are dropped. */
    method List(op: Request) returns (r: Result)
      requires client.sd >= -1 && Encodable(op) && (op.Readdir? || op.Ls?)
      modifies client
      ensures Kept(op, client.calls, r, client.sd)
    {
      var ok, h;
      ok, h := Ask(op);
      if !ok {
        return NETDOWN;
      }
      if h.err != 0 {
        return Result(-h.err, []);
      }
      var size := EntrySize(op);
      var entries: Content := [];
      var i := 0;
      while i < h.n
        invariant 0 <= i <= Max(h.n, 0) && |entries| == i * size
        invariant client.sd >= 0
        invariant After(op, client.calls) ==
                  if i < h.n then At(RecvPay(op, h, entries)) else Over(Result(0, entries))
      {
        var entry;
        ok, entry := Get(size, op, RecvPay(op, h, entries));
        if !ok {
          return NETDOWN;
        }
        entries := entries + entry;
        i := i + 1;
      }
      r := Result(0, entries);
    }

    method Readdir_(path: string) returns (r: Result)
      requires client.sd >= -1 && PathFits(path)
      modifies client
      ensures Kept(Request.Readdir(path), client.calls, r, client.sd)
    {
      r := List(Request.Readdir(path));
    }

    method Ls_(path: string) returns (r: Result)
      requires client.sd >= -1 && PathFits(path)
      modifies client
      ensures Kept(Request.Ls(path), client.calls, r, client.sd)
    {
      r := List(Request.Ls(path));
    }

    method Open_(path: string) returns (r: Result)
      requires client.sd >= -1 && PathFits(path)
      modifies client
      ensures Kept(Request.Open(path), client.calls, r, client.sd)
    {
      var ok, h;
      ok, h := Ask(Request.Open(path));
      if !ok {
        return NETDOWN;
      }
      r := Result(if h.err > 0 then -h.err else h.n, []);
    }

    method Close_(fd: int) returns (r: Result)
      requires client.sd >= -1 && IsInt(fd)
      modifies client
      ensures Kept(Request.Close(fd), client.calls, r, client.sd)
    {
      var ok, h;
      ok, h := Ask(Request.Close(fd));
      if !ok {
        return NETDOWN;
      }
      r := Result(if h.err > 0 then -h.err else 0, []);
    }

    /** The header may announce -1 bytes; the receive of -1 bytes then returns the -1 that is
        expected of it. */
    method Read_(fd: int, off: int, size: int) returns (r: Result)
      requires client.sd >= -1 && Encodable(Request.Read(fd, off, size))
      modifies client
      ensures Kept(Request.Read(fd, off, size), client.calls, r, client.sd)
    {
      ghost var op := Request.Read(fd, off, size);
      var ok, h;
      ok, h := Ask(Request.Read(fd, off, size));
      if !ok {
        return NETDOWN;
      }
      if h.err > 0 {
        return Result(-h.err, []);
      }
      if h.n < 0 {
        var n, _ := client.Recv(h.n);
        if n != h.n {
          client.CloseSocket();
          return NETDOWN;
        }
        return Result(h.n, []);
      }
      var buffer;
      ok, buffer := Get(h.n, op, RecvPay(op, h, []));
      if !ok {
        return NETDOWN;
      }
      assert [] + buffer == buffer;
      r := Result(h.n, buffer);
    }

    method Write_(fd: int, off: int, data: Content) returns (r: Result)
      requires client.sd >= -1 && Encodable(Request.Write(fd, off, data))
      modifies client
      ensures Kept(Request.Write(fd, off, data), client.calls, r, client.sd)
    {
      ghost var op := Request.Write(fd, off, data);
      var ok, h;
      ok, h := Ask(Request.Write(fd, off, data));
      if !ok {
        return NETDOWN;
      }
      if h.err > 0 {
        return Result(-h.err, []);
      }
      ok := Put(data, op, SendPay(op));
      if !ok {
        return NETDOWN;
      }
      r := Result(|data|, []);
    }

    method Create_(path: string) returns (r: Result)
      requires client.sd >= -1 && PathFits(path)
      modifies client
      ensures Kept(Request.Create(path), client.calls, r, client.sd)
    {
      var ok, h;
      ok, h := Ask(Request.Create(path));
      if !ok {
        return NETDOWN;
      }
      r := Result(-h.err, []);
    }
  }

  // The client of the step machine makes just these calls.

  ghost function CallMade(w: World, l: Label, calls: seq<Call>): seq<Call>
    requires WorldTyped(w) && Enabled(w, l)
  {
    match l
    case Begin(_, _) => []
    case CSend(k) => calls + [Sent(ToSend(w.pc), k)]
    case CRecv(ok) =>
      calls + [Received(ToRecv(w.pc), if ok then Some(w.conns[w.cur.value].s2c[..ToRecv(w.pc)]) else None)]
    case _ => calls
  }

  /** The calls the client has made for its latest operation, read off a run. */
  ghost function CallsOf(ws: seq<World>, ls: seq<Label>): seq<Call>
    requires |ws| == |ls| + 1
    requires forall k :: 0 <= k < |ls| ==> WorldTyped(ws[k]) && Enabled(ws[k], ls[k])
  {
    if ls == [] then [] else CallMade(ws[|ls| - 1], ls[|ls| - 1], CallsOf(ws[..|ls|], ls[..|ls| - 1]))
  }

  /** The client stands where these calls have brought it, or has returned what they make it
      return. */
  ghost predicate Tracks(w: World, calls: seq<Call>) {
    && |w.results| == (if w.pc.Idle? then |w.ops| else |w.ops| - 1)
    && (!w.pc.Idle? ==> After(w.ops[|w.ops| - 1], calls) == At(w.pc))
    && (w.pc.Idle? && w.ops != [] ==>
          Kept(w.ops[|w.ops| - 1], calls, w.results[|w.results| - 1], if w.cur.Some? then 0 else -1))
  }

  lemma FollowTracks(w: World, m: Move, calls: seq<Call>)
    requires w.ops != [] && |w.results| == |w.ops| - 1 && w.cur.Some?
    requires calls != [] && After(w.ops[|w.ops| - 1], calls) == StageOf(m) && m != Go(Idle)
    ensures Tracks(Follow(w, m), calls)
  {
  }

  lemma SendTracks(w: World, n: int, calls: seq<Call>)
    requires WorldTyped(w) && Enabled(w, CSend(n)) && Tracks(w, calls)
    ensures Tracks(Step(w, CSend(n)), CallMade(w, CSend(n), calls))
  {
    var i, msg := w.cur.value, ToSend(w.pc);
    AfterOneMore(w.ops[|w.ops| - 1], calls, Sent(msg, n));
    FollowTracks(w.(conns := w.conns[i := ClientSends(w.conns[i], msg, n)]), AfterSend(w.pc, n), calls + [Sent(msg, n)]);
  }

  lemma RecvTracks(w: World, calls: seq<Call>)
    requires WorldTyped(w) && Enabled(w, CRecv(true)) && Tracks(w, calls)
    ensures Tracks(Step(w, CRecv(true)), CallMade(w, CRecv(true), calls))
  {
    var i, n := w.cur.value, ToRecv(w.pc);
    var b := w.conns[i].s2c[..n];
    AfterOneMore(w.ops[|w.ops| - 1], calls, Received(n, Some(b)));
    FollowTracks(w.(conns := w.conns[i := ClientTakes(w.conns[i], n)]), AfterRecv(w.pc, b), calls + [Received(n, Some(b))]);
  }

  lemma BeginTracks(w: World, op: Request, connected: bool, calls: seq<Call>)
    requires WorldTyped(w) && Enabled(w, Begin(op, connected)) && Tracks(w, calls)
    ensures Tracks(Step(w, Begin(op, connected)), [])
  {
  }

  lemma OthersLeave(w: World, l: Label)
    requires WorldTyped(w) && Enabled(w, l) && (l.SRecv? || l.SSend? || l.SCall?)
    ensures var w' := Step(w, l);
            w'.ops == w.ops && w'.pc == w.pc && w'.results == w.results && w'.cur == w.cur
  {
  }

  lemma StepTracks(w: World, l: Label, calls: seq<Call>)
    requires WorldTyped(w) && Enabled(w, l) && Tracks(w, calls)
    ensures Tracks(Step(w, l), CallMade(w, l, calls))
  {
    match l
    case Begin(op, connected) => BeginTracks(w, op, connected, calls);
    case CSend(n) => SendTracks(w, n, calls);
    case CRecv(ok) =>
      if ok {
        RecvTracks(w, calls);
      }
    case _ =>
      OthersLeave(w, l);
  }

  /** In every run of the step machine each operation makes calls that the code makes, and
      returns what the code returns after them. */
  lemma {:induction false} RunTracks(fs: Server, ws: seq<World>, ls: seq<Label>)
    requires Run(fs, ws, ls)
    ensures Tracks(ws[|ls|], CallsOf(ws, ls))
  {
    if ls != [] {
      var n := |ls| - 1;
      assert Run(fs, ws[..n + 1], ls[..n]);
      RunTracks(fs, ws[..n + 1], ls[..n]);
      assert ws[..n + 1][n] == ws[n];
      StepTracks(ws[n], ls[n], CallsOf(ws[..n + 1], ls[..n]));
      assert ws[|ls|] == Step(ws[n], ls[n]);
    }
  }
}
