/** A server thread as it is written: the dispatch loop and its handlers, one receive, file
    call or send after the other, and their agreement with the server side of the step
    machine. */
module FtpServer {
  import opened Files
  import opened FileServer
  import opened Codec
  import opened Wire

  /** One call of the thread. `Did` is a file call, on the files as they were just before. */
  datatype Call =
    | Took(size: nat, b: Option<Content>)
    | Said(msg: Content, n: int)
    | Did(before: Server, op: Request, oc: Outcome)

  /** Where a series of calls leaves a thread: somewhere, with its socket closed, or nowhere
      the step machine knows. */
  datatype Stage = At(srv: ServerPc) | Down | Stray

  function StageOf(c: Conn): Stage {
    if c.down then Down else At(c.srv)
  }

  function Taken(srv: ServerPc, b: Content): Stage
    requires ServerWants(srv) == Some(|b|)
  {
    StageOf(ServerTakes(FRESH.(srv := srv, c2s := b)))
  }

  function Sent(srv: ServerPc, n: int): Stage
    requires ServerSays(srv).Some? && n <= |ServerSays(srv).value|
  {
    StageOf(ServerSends(FRESH.(srv := srv), n))
  }

  lemma TakenIs(srv: ServerPc, b: Content)
    requires ServerWants(srv) == Some(|b|)
    ensures srv.AtReq? ==> Taken(srv, b) == At(AfterReq(DecReq(srv.tag, b)))
    ensures srv.AtData? ==> Taken(srv, b) == At(AtApply(srv.fd, srv.off, b))
  {
    assert b[..|b|] == b;
  }

  ghost function Next(s: Stage, c: Call): Stage {
    if !s.At? then Stray
    else match c
      case Took(size, b) =>
        if ServerWants(s.srv) != Some(size) then Stray
        else if b.None? then Down
        else if |b.value| != size then Stray
        else Taken(s.srv, b.value)
      case Said(msg, n) =>
        if ServerSays(s.srv) == Some(msg) && n <= |msg| then Sent(s.srv, n) else Stray
      case Did(before, op, oc) =>
        if !WF(before) || !Possible(before, op, oc) then Stray
        else if s.srv.AtCall? && s.srv.op == op then At(AtRes(op, Serve(before, op, oc).1))
        else if s.srv.AtApply? && WriteOf(s.srv) == op then At(AtType)
        else Stray
  }

  ghost function After(calls: seq<Call>): Stage {
    if calls == [] then At(AtType) else Next(After(calls[..|calls| - 1]), calls[|calls| - 1])
  }

  lemma AfterOneMore(calls: seq<Call>, c: Call)
    ensures After(calls + [c]) == Next(After(calls), c)
  {
    assert (calls + [c])[..|calls|] == calls;
  }

  /** What the file calls among them make of the files, when no other thread interferes. */
  ghost function FilesAfter(fs: Server, calls: seq<Call>): (r: Option<Server>)
    requires WF(fs)
    ensures r.Some? ==> WF(r.value)
  {
    if calls == [] then Some(fs)
    else
      var before, c := FilesAfter(fs, calls[..|calls| - 1]), calls[|calls| - 1];
      if c.Did? then if before == Some(c.before) then Some(Serve(c.before, c.op, c.oc).0) else None
      else before
  }

  /** What the operating system will answer to one receive or send. */
  datatype Answer = Answer(n: int, b: Content)

  class FtpServer {
    var fs: Server
    var net: seq<Answer>
    var ocs: seq<Outcome>
    ghost var origin: Server   // the files when run began
    ghost var calls: seq<Call> // what the thread has done since

    constructor (fs: Server, net: seq<Answer>, ocs: seq<Outcome>)
      requires WF(fs)
      ensures this.fs == fs && this.net == net && this.ocs == ocs && WF(this.fs)
    {
      this.fs, this.net, this.ocs, origin, calls := fs, net, ocs, fs, [];
    }

    /** The thread stands where its calls have brought it, and has made of the files what
        its calls make of them. */
    ghost predicate Stands(s: Stage)
      reads this
    {
      WF(origin) && WF(fs) && After(calls) == s && FilesAfter(origin, calls) == Some(fs)
    }

    method Take(size: nat, ghost srv: ServerPc) returns (ok: bool, b: Content)
      requires Stands(At(srv)) && ServerWants(srv) == Some(size)
      modifies this`net, this`calls
      ensures if ok then |b| == size && Stands(Taken(srv, b)) else Stands(Down)
      ensures if ok then |net| < |old(net)| else |net| <= |old(net)|
    {
      ok, b := false, [];
      if net != [] {
        ok, b, net := |net[0].b| == size, net[0].b, net[1..];
      }
      Log(Took(size, if ok then Some(b) else None));
    }

    /** One more receive or send. */
    ghost method Log(c: Call)
      requires WF(origin) && WF(fs) && FilesAfter(origin, calls) == Some(fs) && !c.Did?
      modifies this`calls
      ensures WF(origin) && WF(fs) && FilesAfter(origin, calls) == Some(fs)
      ensures After(calls) == Next(old(After(calls)), c)
    {
      AfterOneMore(calls, c);
      calls := calls + [c];
    }

    method Say(msg: Content, ghost srv: ServerPc) returns (ok: bool)
      requires Stands(At(srv)) && ServerSays(srv) == Some(msg)
      modifies this`net, this`calls
      ensures Stands(if ok then Sent(srv, |msg|) else Down) && |net| <= |old(net)|
    {
      var n := -1;
      if net != [] {
        n, net := if -1 <= net[0].n <= |msg| then net[0].n else -1, net[1..];
      }
      Log(Said(msg, n));
      ok := n == |msg|;
    }

    /** A file call, with an outcome the operating system chooses. */
    method Do(op: Request, ghost srv: ServerPc) returns (r: Reply, oc: Outcome)
      requires Stands(At(srv))
      requires if srv.AtApply? then op == WriteOf(srv) else srv == AtCall(op)
      modifies this`fs, this`ocs, this`calls
      ensures WF(old(fs)) && Possible(old(fs), op, oc) && r == Serve(old(fs), op, oc).1
      ensures Stands(if srv.AtApply? then At(AtType) else At(AtRes(op, r)))
    {
      oc := Fails(EIO);
      if ocs != [] {
        oc, ocs := if Possible(fs, op, ocs[0]) then ocs[0] else oc, ocs[1..];
      }
      AfterOneMore(calls, Did(fs, op, oc));
      calls := calls + [Did(fs, op, oc)];
      var (after, reply) := Serve(fs, op, oc);
      fs, r := after, reply;
    }

    /** Receiving the request structure. */
    method TakeReq(tag: int) returns (ok: bool, h: Head)
      requires Served(tag) && Stands(At(AtReq(tag)))
      modifies this`net, this`calls
      ensures h.tag == tag && Stands(if ok then At(AfterReq(h)) else Down) && |net| <= |old(net)|
    {
      var b;
      ok, b := Take(ReqLen(tag), AtReq(tag));
      if ok {
        TakenIs(AtReq(tag), b);
      }
      h := if ok then DecReq(tag, b) else Head(tag, "", 0, 0, 0);
    }

    /** Answering with a header and, where `more`, the bytes after it. */
    method Reply_(op: Request, r: Reply, more: bool) returns (rc: int)
      requires Stands(At(AtRes(op, r))) && more == MoreToSend(op, r)
      modifies this`net, this`calls
      ensures Stands(if rc < 0 then Down else At(AtType)) && |net| <= |old(net)|
    {
      var ok := Say(EncHdr(op, r), AtRes(op, r));
      if ok && more {
        ok := Say(r.pay, AtPay(op, r));
      }
      rc := if ok then 0 else -1;
    }

    method Getattr_() returns (rc: int)
      requires Stands(At(AtReq(T_GETATTR)))
      modifies this`net, this`fs, this`ocs, this`calls
      ensures Stands(if rc < 0 then Down else At(AtType)) && |net| <= |old(net)|
    {
      var ok, req := TakeReq(T_GETATTR);
      if !ok {
        return -1;
      }
      var op := Request.Getattr(req.path);
      var res, _ := Do(op, AtCall(op));
      rc := Reply_(op, res, res.err == 0);
    }

    /** readdir_ sends its entries when there are any, ls_ when there are any and opendir
        worked. */
    method Readdir_() returns (rc: int)
      requires Stands(At(AtReq(T_READDIR)))
      modifies this`net, this`fs, this`ocs, this`calls
      ensures Stands(if rc < 0 then Down else At(AtType)) && |net| <= |old(net)|
    {
      var ok, req := TakeReq(T_READDIR);
      if !ok {
        return -1;
      }
      var op := Request.Readdir(req.path);
      var res, oc := Do(op, AtCall(op));
      rc := Reply_(op, res, res.n > 0);
    }

    method Ls_() returns (rc: int)
      requires Stands(At(AtReq(T_LS)))
      modifies this`net, this`fs, this`ocs, this`calls
      ensures Stands(if rc < 0 then Down else At(AtType)) && |net| <= |old(net)|
    {
      var ok, req := TakeReq(T_LS);
      if !ok {
        return -1;
      }
      var op := Request.Ls(req.path);
      var res, oc := Do(op, AtCall(op));
      rc := Reply_(op, res, res.err == 0 && res.n > 0);
    }

    method Open_() returns (rc: int)
      requires Stands(At(AtReq(T_OPEN)))
      modifies this`net, this`fs, this`ocs, this`calls
      ensures Stands(if rc < 0 then Down else At(AtType)) && |net| <= |old(net)|
    {
      var ok, req := TakeReq(T_OPEN);
      if !ok {
        return -1;
      }
      var op := Request.Open(req.path);
      var res, _ := Do(op, AtCall(op));
      rc := Reply_(op, res, false);
    }

    method Close_() returns (rc: int)
      requires Stands(At(AtReq(T_CLOSE)))
      modifies this`net, this`fs, this`ocs, this`calls
      ensures Stands(if rc < 0 then Down else At(AtType)) && |net| <= |old(net)|
    {
      var ok, req := TakeReq(T_CLOSE);
      if !ok {
        return -1;
      }
      var op := Request.Close(req.fd);
      var res, _ := Do(op, AtCall(op));
      rc := Reply_(op, res, false);
    }

    method Read_() returns (rc: int)
      requires Stands(At(AtReq(T_READ)))
      modifies this`net, this`fs, this`ocs, this`calls
      ensures Stands(if rc < 0 then Down else At(AtType)) && |net| <= |old(net)|
    {
      var ok, req := TakeReq(T_READ);
      if !ok {
        return -1;
      }
      var op := Request.Read(req.fd, req.off, req.size);
      var res, _ := Do(op, AtCall(op));
      rc := Reply_(op, res, res.err == 0);
    }

    /** The acknowledgement goes out before the data has arrived. */
    method Write_() returns (rc: int)
      requires Stands(At(AtReq(T_WRITE)))
      modifies this`net, this`fs, this`ocs, this`calls
      ensures Stands(if rc < 0 then Down else At(AtType)) && |net| <= |old(net)|
    {
      var ok, req := TakeReq(T_WRITE);
      if !ok {
        return -1;
      }
      var size := Max(req.size, 0);
      ok := Say(Enc32(0), AtWriteRes(req.fd, req.off, size));
      if !ok {
        return -1;
      }
      if size == 0 {
        return 0;
      }
      var data;
      ok, data := Take(size, AtData(req.fd, req.off, size));
      if !ok {
        return -1;
      }
      TakenIs(AtData(req.fd, req.off, size), data);
      var _, _ := Do(Request.Write(req.fd, req.off, data), AtApply(req.fd, req.off, data));
      rc := 0;
    }

    method Create_() returns (rc: int)
      requires Stands(At(AtReq(T_CREATE)))
      modifies this`net, this`fs, this`ocs, this`calls
      ensures Stands(if rc < 0 then Down else At(AtType)) && |net| <= |old(net)|
    {
      var ok, req := TakeReq(T_CREATE);
      if !ok {
        return -1;
      }
      var op := Request.Create(req.path);
      var res, _ := Do(op, AtCall(op));
      rc := Reply_(op, res, false);
    }

    /** The dispatch loop: requests are served one after the other until a receive or a send
        fails or an unknown request arrives. */
    method Run_()
      requires WF(fs)
      modifies this
      ensures origin == old(fs) && Stands(Down)
    {
      origin, calls := fs, [];
      var rc := 0;
      while rc >= 0
        invariant origin == old(fs) && Stands(if rc < 0 then Down else At(AtType))
        decreases |net| + if rc < 0 then 0 else 1
      {
        var ok, b := Take(4, AtType);
        if !ok {
          return;
        }
        var rtype := Dec32(b);
        if rtype == T_GETATTR {
          rc := Getattr_();
        } else if rtype == T_READDIR {
          rc := Readdir_();
        } else if rtype == T_LS {
          rc := Ls_();
        } else if rtype == T_OPEN {
          rc := Open_();
        } else if rtype == T_CLOSE {
          rc := Close_();
        } else if rtype == T_READ {
          rc := Read_();
        } else if rtype == T_WRITE {
          rc := Write_();
        } else if rtype == T_CREATE {
          rc := Create_();
        } else {
          rc := -1;
        }
      }
    }
  }

  // The server threads of the step machine make just these calls.

  ghost function CallMade(w: World, l: Label, i: nat, calls: seq<Call>): seq<Call>
    requires WorldTyped(w) && Enabled(w, l)
  {
    match l
    case SRecv(j, ok) =>
      if j != i then calls
      else
        var n := ServerWants(w.conns[i].srv).value;
        calls + [Took(n, if ok then Some(w.conns[i].c2s[..n]) else None)]
    case SSend(j, n) => if j != i then calls else calls + [Said(ServerSays(w.conns[i].srv).value, n)]
    case SCall(j, oc) =>
      if j != i then calls
      else calls + [Did(w.fs, if w.conns[i].srv.AtCall? then w.conns[i].srv.op else WriteOf(w.conns[i].srv), oc)]
    case _ => calls
  }

  /** The calls server thread i has made, read off a run. */
  ghost function CallsOf(ws: seq<World>, ls: seq<Label>, i: nat): seq<Call>
    requires |ws| == |ls| + 1
    requires forall k :: 0 <= k < |ls| ==> WorldTyped(ws[k]) && Enabled(ws[k], ls[k])
  {
    if ls == [] then [] else CallMade(ws[|ls| - 1], ls[|ls| - 1], i, CallsOf(ws[..|ls|], ls[..|ls| - 1], i))
  }

  /** Thread i stands where these calls have brought it; before its connection exists it has
      made none. */
  ghost predicate Tracks(w: World, i: nat, calls: seq<Call>) {
    if i < |w.conns| then After(calls) == StageOf(w.conns[i]) else calls == []
  }

  lemma RecvTracks(w: World, i: nat, ok: bool, calls: seq<Call>)
    requires WorldTyped(w) && Enabled(w, SRecv(i, ok)) && Tracks(w, i, calls)
    ensures Tracks(Step(w, SRecv(i, ok)), i, CallMade(w, SRecv(i, ok), i, calls))
  {
    var c := w.conns[i];
    var n := ServerWants(c.srv).value;
    if ok {
      var b := c.c2s[..n];
      AfterOneMore(calls, Took(n, Some(b)));
      TakesAlike(c, b);
    } else {
      AfterOneMore(calls, Took(n, None));
    }
  }

  /** What a thread takes decides where it goes, not what else is in the channels. */
  lemma TakesAlike(c: Conn, b: Content)
    requires ServerWants(c.srv) == Some(|b|) && b <= c.c2s && !c.down
    ensures StageOf(ServerTakes(c)) == Taken(c.srv, b)
  {
    assert b[..|b|] == b == c.c2s[..|b|];
  }

  lemma SendTracks(w: World, i: nat, n: int, calls: seq<Call>)
    requires WorldTyped(w) && Enabled(w, SSend(i, n)) && Tracks(w, i, calls)
    ensures Tracks(Step(w, SSend(i, n)), i, CallMade(w, SSend(i, n), i, calls))
  {
    AfterOneMore(calls, Said(ServerSays(w.conns[i].srv).value, n));
  }

  lemma CallTracks(w: World, i: nat, oc: Outcome, calls: seq<Call>)
    requires WorldTyped(w) && Enabled(w, SCall(i, oc)) && Tracks(w, i, calls)
    ensures Tracks(Step(w, SCall(i, oc)), i, CallMade(w, SCall(i, oc), i, calls))
  {
    var srv := w.conns[i].srv;
    AfterOneMore(calls, Did(w.fs, if srv.AtCall? then srv.op else WriteOf(srv), oc));
  }

  /** A step of anybody else leaves the thread where it is. */
  lemma OthersLeave(w: World, l: Label, i: nat)
    requires WorldTyped(w) && Enabled(w, l) && i < |w.conns|
    requires !(l.SRecv? && l.i == i) && !(l.SSend? && l.i == i) && !(l.SCall? && l.i == i)
    ensures var w' := Step(w, l);
            i < |w'.conns| && StageOf(w'.conns[i]) == StageOf(w.conns[i])
  {
  }

  /** A connection comes into being with its thread about to receive a request type. */
  lemma NewThread(w: World, l: Label, i: nat)
    requires WorldTyped(w) && Enabled(w, l) && i >= |w.conns|
    ensures i < |Step(w, l).conns| ==> StageOf(Step(w, l).conns[i]) == At(AtType)
  {
  }

  lemma StepTracks(w: World, l: Label, i: nat, calls: seq<Call>)
    requires WorldTyped(w) && Enabled(w, l) && Tracks(w, i, calls)
    ensures Tracks(Step(w, l), i, CallMade(w, l, i, calls))
  {
    if i >= |w.conns| {
      NewThread(w, l, i);
    } else if l.SRecv? && l.i == i {
      RecvTracks(w, i, l.ok, calls);
    } else if l.SSend? && l.i == i {
      SendTracks(w, i, l.n, calls);
    } else if l.SCall? && l.i == i {
      CallTracks(w, i, l.oc, calls);
    } else {
      OthersLeave(w, l, i);
    }
  }

  /** In every run of the step machine every server thread makes calls that the code makes. */
  lemma {:induction false} RunTracks(fs: Server, ws: seq<World>, ls: seq<Label>, i: nat)
    requires Run(fs, ws, ls)
    ensures Tracks(ws[|ls|], i, CallsOf(ws, ls, i))
  {
    if ls != [] {
      var n := |ls| - 1;
      assert Run(fs, ws[..n + 1], ls[..n]);
      RunTracks(fs, ws[..n + 1], ls[..n], i);
      assert ws[..n + 1][n] == ws[n];
      StepTracks(ws[n], ls[n], i, CallsOf(ws[..n + 1], ls[..n], i));
      assert ws[|ls|] == Step(ws[n], ls[n]);
    }
  }
}
