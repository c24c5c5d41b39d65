/** What every reachable world of the wire protocol keeps, and what that says about writes
    that fail in transport. */
module WireSafety {
  import opened Files
  import opened FileServer
  import opened Codec
  import opened Wire
  import opened WireInvariant

  predicate NoDup(s: seq<nat>) {
    forall i, j :: 0 <= i < j < |s| ==> s[i] != s[j]
  }

  /** What is recorded of an unfinished request of connection i. A request that failed in
      transport is the last of its connection, and if it was a write, some of its bytes were
      never sent. */
  ghost predicate TicketOk(w: World, i: nat, k: nat)
    requires i < |w.conns| && k < |w.conns[i].todo| && |w.home| == |w.ops|
  {
    var c := w.conns[i];
    var t := c.todo[k];
    && t.id < |w.ops| && w.ops[t.id] == t.op && w.home[t.id] == i
    && t.id !in w.applied
    && (t.id in w.failed ==>
        && w.cur != Some(i) && k == |c.todo| - 1
        && (t.op.Write? && t.op.data != [] ==> |c.unsent| > 0))
  }

  ghost predicate ConnOk(w: World, i: nat)
    requires i < |w.conns| && |w.home| == |w.ops|
  {
    var c := w.conns[i];
    && Framed(c)
    && (w.cur == Some(i) ==> Live(c, w.pc))
    && (forall k :: 0 <= k < |c.todo| ==> TicketOk(w, i, k))
    && (|c.todo| == 2 ==> c.todo[0].id < c.todo[1].id)
  }

  /** What is recorded of the operations and their results. */
  ghost predicate BookOk(w: World) {
    && |w.home| == |w.ops|
    && |w.results| == (if w.pc.Idle? then |w.ops| else |w.ops| - 1)
    && (!w.pc.Idle? ==> w.ops[|w.results|] == w.pc.op && w.cur == Some(w.home[|w.results|]) && |w.results| !in w.applied)
    && NoDup(w.applied)
    && (forall x :: x in w.applied ==> x < |w.ops| && w.ops[x].Write? && x !in w.failed)
    && (forall x :: x in w.failed ==> 0 <= x < |w.results| && w.results[x] == NETDOWN)
    && (forall x :: 0 <= x < |w.results| && x !in w.failed && w.ops[x].Write? ==>
          w.results[x] == Result(|w.ops[x].data|, []))
  }

  ghost predicate Safe(fs: Server, w: World) {
    && WF(fs) && WorldTyped(w) && BookOk(w)
    && (forall i :: 0 <= i < |w.conns| ==> ConnOk(w, i))
    && w.fs == ServeAll(fs, w.log)
  }

  lemma InitSafe(fs: Server)
    requires WF(fs)
    ensures Safe(fs, Init(fs))
  {
  }

  /** A step on connection i, told by what it changes, leaves the other connections alone. */
  lemma OthersOk(w: World, w': World, i: nat)
    requires |w.home| == |w.ops| && |w'.home| == |w'.ops|
    requires |w.conns| <= |w'.conns|
    requires forall j :: 0 <= j < |w.conns| ==> ConnOk(w, j)
    requires forall j :: 0 <= j < |w.conns| && j != i ==> w'.conns[j] == w.conns[j]
    requires w.ops <= w'.ops && w.home <= w'.home
    requires w.cur == Some(i) || w.cur.None? || (w'.cur == w.cur && w'.pc == w.pc)
    requires w'.cur in {w.cur, Some(i), None}
    requires forall x :: x in w'.failed && x !in w.failed ==> 0 <= x < |w'.home| && (w'.home[x] == -1 || w'.home[x] == i)
    requires forall x :: x in w'.applied && x !in w.applied ==> x < |w.home| && w.home[x] == i
    ensures forall j :: 0 <= j < |w.conns| && j != i ==> ConnOk(w', j)
  {
    forall j | 0 <= j < |w.conns| && j != i ensures ConnOk(w', j) {
      assert ConnOk(w, j);
      forall k | 0 <= k < |w.conns[j].todo| ensures TicketOk(w', j, k) {
        assert TicketOk(w, j, k);
        assert w'.home[w.conns[j].todo[k].id] == j;
      }
    }
  }

  lemma ConnectFailsSafe(fs: Server, w: World, op: Request)
    requires Safe(fs, w) && Enabled(w, Begin(op, false)) && w.cur.None?
    ensures Safe(fs, Step(w, Begin(op, false)))
  {
    OthersOk(w, Step(w, Begin(op, false)), |w.conns|);
  }

  /** The world with a socket: the one the client has, or a new one. */
  function Connected(w: World): World {
    if w.cur.None? then w.(conns := w.conns + [FRESH], cur := Some(|w.conns|)) else w
  }

  lemma ConnectSafe(fs: Server, w: World)
    requires Safe(fs, w) && w.pc.Idle?
    ensures Safe(fs, Connected(w))
  {
    if w.cur.None? {
      var w' := Connected(w);
      OthersOk(w, w', |w.conns|);
      assert ConnOk(w', |w.conns|);
    }
  }

  lemma BeginConn(w: World, op: Request)
    requires WorldTyped(w) && BookOk(w) && w.pc.Idle? && w.cur.Some? && Encodable(op) && ConnOk(w, w.cur.value)
    ensures var w' := Step(w, Begin(op, true));
            |w'.home| == |w'.ops| && ConnOk(w', w.cur.value)
  {
    var w', i, t := Step(w, Begin(op, true)), w.cur.value, Ticket(|w.ops|, op);
    var c, d := w.conns[i], w'.conns[i];
    BeginKeeps(c, t);
    assert d.todo == c.todo + [t];
    forall k | 0 <= k < |d.todo| ensures TicketOk(w', i, k) {
      if k < |c.todo| {
        assert TicketOk(w, i, k);
      }
    }
    assert c.todo != [] ==> TicketOk(w, i, 0);
  }

  lemma BeginConns(w: World, op: Request)
    requires WorldTyped(w) && BookOk(w) && w.pc.Idle? && w.cur.Some? && Encodable(op)
    requires forall j :: 0 <= j < |w.conns| ==> ConnOk(w, j)
    ensures var w' := Step(w, Begin(op, true));
            |w'.home| == |w'.ops| && forall j :: 0 <= j < |w'.conns| ==> ConnOk(w', j)
  {
    assert ConnOk(w, w.cur.value);
    BeginConn(w, op);
    OthersOk(w, Step(w, Begin(op, true)), w.cur.value);
  }

  lemma BeginSafe(fs: Server, w: World, op: Request)
    requires Safe(fs, w) && w.pc.Idle? && w.cur.Some? && Encodable(op)
    ensures Safe(fs, Step(w, Begin(op, true)))
  {
    BeginConns(w, op);
  }

  /** The client's connection after a send or receive whose bytes came to `d`. */
  ghost predicate MovedOk(w: World, d: Conn, m: Move)
    requires !w.pc.Idle?
  {
    && Framed(d)
    && match m
       case Go(next) => Live(d, next) && Fits(next) && !next.Idle? && next.op == w.pc.op
       case Finish(res) => Live(d, Idle) && (w.pc.op.Write? ==> res == Result(|w.pc.op.data|, []))
       case Abort => w.pc.op.Write? && w.pc.op.data != [] ==> |d.unsent| > 0
  }

  lemma FollowBook(w: World, m: Move)
    requires WorldTyped(w) && BookOk(w) && !w.pc.Idle?
    requires m.Go? ==> !m.pc.Idle? && m.pc.op == w.pc.op && Fits(m.pc)
    requires m.Finish? && w.pc.op.Write? ==> m.res == Result(|w.pc.op.data|, [])
    ensures WorldTyped(Follow(w, m)) && BookOk(Follow(w, m))
  {
  }

  lemma FollowConn(w: World, d: Conn, m: Move)
    requires WorldTyped(w) && BookOk(w) && !w.pc.Idle? && ConnOk(w, w.cur.value)
    requires MovedOk(w, d, m) && d.todo == w.conns[w.cur.value].todo
    ensures ConnOk(Follow(w.(conns := w.conns[w.cur.value := d]), m), w.cur.value)
  {
    var i := w.cur.value;
    var w' := Follow(w.(conns := w.conns[i := d]), m);
    forall k | 0 <= k < |d.todo| ensures TicketOk(w', i, k) {
      assert TicketOk(w, i, k);
      // A request that fails now is the newest, so it is the last the server still owes.
      assert k + 1 < |d.todo| ==> TicketOk(w, i, k + 1);
    }
  }

  /** A client move on its connection, whichever it is, keeps the world safe. */
  lemma FollowSafe(fs: Server, w: World, d: Conn, m: Move)
    requires Safe(fs, w) && !w.pc.Idle?
    requires MovedOk(w, d, m) && d.todo == w.conns[w.cur.value].todo
    ensures Safe(fs, Follow(w.(conns := w.conns[w.cur.value := d]), m))
  {
    var i := w.cur.value;
    var w1 := w.(conns := w.conns[i := d]);
    assert ConnOk(w, i);
    FollowBook(w1, m);
    FollowConn(w, d, m);
    OthersOk(w, Follow(w1, m), i);
  }

  lemma ClientSendSafe(fs: Server, w: World, n: int)
    requires Safe(fs, w) && Enabled(w, CSend(n))
    ensures Safe(fs, Step(w, CSend(n)))
  {
    var c := w.conns[w.cur.value];
    assert ConnOk(w, w.cur.value);
    match w.pc {
      case SendType(op) => SendTypeKeeps(c, op, n);
      case SendReq(op) => SendReqKeeps(c, op, n);
      case SendPay(op) => SendPayKeeps(c, op, n);
    }
    FollowSafe(fs, w, ClientSends(c, ToSend(w.pc), n), AfterSend(w.pc, n));
  }

  lemma RecvFailsSafe(fs: Server, w: World)
    requires Safe(fs, w) && Receiving(w.pc)
    ensures Safe(fs, CloseSocket(w))
  {
    var i := w.cur.value;
    assert ConnOk(w, i);
    assert w.conns[i := w.conns[i]] == w.conns;
    FollowSafe(fs, w, w.conns[i], Abort);
  }

  lemma RecvMovedOk(w: World)
    requires WorldTyped(w) && Receiving(w.pc) && |w.home| == |w.ops| && ConnOk(w, w.cur.value)
    requires ToRecv(w.pc) <= |w.conns[w.cur.value].s2c|
    ensures var c := w.conns[w.cur.value];
            MovedOk(w, ClientTakes(c, ToRecv(w.pc)), AfterRecv(w.pc, c.s2c[..ToRecv(w.pc)]))
  {
    var c := w.conns[w.cur.value];
    match w.pc {
      case RecvRes(op) => RecvResKeeps(c, op);
      case RecvPay(_, _, _) => RecvPayKeeps(c, w.pc);
    }
  }

  lemma ClientRecvSafe(fs: Server, w: World, ok: bool)
    requires Safe(fs, w) && Enabled(w, CRecv(ok))
    ensures Safe(fs, Step(w, CRecv(ok)))
  {
    if ok {
      var c := w.conns[w.cur.value];
      assert ConnOk(w, w.cur.value);
      RecvMovedOk(w);
      FollowSafe(fs, w, ClientTakes(c, ToRecv(w.pc)), AfterRecv(w.pc, c.s2c[..ToRecv(w.pc)]));
    } else {
      RecvFailsSafe(fs, w);
    }
  }

  // Server threads.

  lemma ServerMoveConn(w: World, i: nat, d: Conn, w': World)
    requires i < |w.conns| && |w.home| == |w.ops| && ConnOk(w, i)
    requires w' == w.(conns := w.conns[i := d], applied := w'.applied, fs := w'.fs, log := w'.log)
    requires Framed(d) && (w.cur == Some(i) ==> Live(d, w.pc))
    requires d.unsent == w.conns[i].unsent
    requires d.todo == w.conns[i].todo || (w.conns[i].todo != [] && d.todo == w.conns[i].todo[1..])
    requires forall k :: 0 <= k < |d.todo| && d.todo[k].id !in w.applied ==> d.todo[k].id !in w'.applied
    ensures ConnOk(w', i)
  {
    var shift := |w.conns[i].todo| - |d.todo|;
    forall k | 0 <= k < |d.todo| ensures TicketOk(w', i, k) {
      assert TicketOk(w, i, k + shift);
      assert d.todo[k] == w.conns[i].todo[k + shift];
    }
  }

  /** A server step that only moves connection i along. */
  lemma ServerMoveSafe(fs: Server, w: World, i: nat, d: Conn, s: Server, log: seq<Entry>)
    requires Safe(fs, w) && i < |w.conns|
    requires Framed(d) && (w.cur == Some(i) ==> Live(d, w.pc))
    requires d.unsent == w.conns[i].unsent
    requires d.todo == w.conns[i].todo || (w.conns[i].todo != [] && d.todo == w.conns[i].todo[1..])
    requires ServeAll(fs, log) == s
    ensures Safe(fs, w.(fs := s, conns := w.conns[i := d], log := log))
  {
    var w' := w.(fs := s, conns := w.conns[i := d], log := log);
    assert ConnOk(w, i);
    OthersOk(w, w', i);
    ServerMoveConn(w, i, d, w');
  }

  lemma ServerRecvSafe(fs: Server, w: World, i: nat, ok: bool)
    requires Safe(fs, w) && Enabled(w, SRecv(i, ok))
    ensures Safe(fs, Step(w, SRecv(i, ok)))
  {
    var c := w.conns[i];
    assert ConnOk(w, i);
    if !ok {
      DownKeeps(c, w.pc);
    } else if c.srv.AtType? {
      TakeTypeFramed(c);
      if w.cur == Some(i) {
        TakeTypeLive(c, w.pc);
      }
    } else if c.srv.AtReq? {
      TakeReqKeeps(c, w.pc);
    } else {
      TakeDataKeeps(c, w.pc);
    }
    var d := if ok then ServerTakes(c) else c.(down := true);
    ServerMoveSafe(fs, w, i, d, w.fs, w.log);
  }

  /** A write of no bytes changes nothing on the server. */
  lemma EmptyWrite(s: Server, fd: int, off: int)
    requires WF(s)
    ensures Serve(s, Write(fd, off, []), Complete).0 == s
  {
    if SeekError(s, fd, off) == 0 {
      assert s.files[s.fds[fd] := s.files[s.fds[fd]]] == s.files;
    }
  }

  /** What one server send does to its connection, in the terms a safe world needs. */
  lemma SendEffect(c: Conn, n: int)
    requires Framed(c) && ServerSays(c.srv).Some? && -1 <= n <= |ServerSays(c.srv).value| && !c.down
    ensures var d := ServerSends(c, n);
            && d.unsent == c.unsent
            && (d.todo == c.todo || (c.todo != [] && d.todo == c.todo[1..]))
  {
  }

  lemma EmptyWriteLogged(fs: Server, log: seq<Entry>, fd: int, off: int)
    requires WF(fs)
    ensures ServeAll(fs, log + [Entry(Write(fd, off, []), Complete)]) == ServeAll(fs, log)
  {
    EmptyWrite(ServeAll(fs, log), fd, off);
  }

  lemma ServerSendSafe(fs: Server, w: World, i: nat, n: int)
    requires Safe(fs, w) && Enabled(w, SSend(i, n))
    ensures Safe(fs, Step(w, SSend(i, n)))
  {
    var c := w.conns[i];
    assert ConnOk(w, i);
    ServerSendFramed(c, n);
    if w.cur == Some(i) {
      ServerSendLive(c, n, w.pc);
    }
    SendEffect(c, n);
    if c.srv.AtWriteRes? {
      EmptyWriteLogged(fs, w.log, c.srv.fd, c.srv.off);
    }
    var d, w' := ServerSends(c, n), Step(w, SSend(i, n));
    assert w' == w.(conns := w.conns[i := d], log := w'.log);
    ServerMoveSafe(fs, w, i, d, w.fs, w'.log);
  }

  lemma ServerCallSafe(fs: Server, w: World, i: nat, oc: Outcome)
    requires Safe(fs, w) && Enabled(w, SCall(i, oc)) && w.conns[i].srv.AtCall?
    ensures Safe(fs, Step(w, SCall(i, oc)))
  {
    var c := w.conns[i];
    assert ConnOk(w, i);
    var op := c.srv.op;
    var (s, r) := Serve(w.fs, op, oc);
    ServeSound(w.fs, op, oc);
    AnswerKeeps(c, r, w.pc);
    ServerMoveSafe(fs, w, i, ServerAnswers(c, r), s, w.log + [Entry(op, oc)]);
  }

  /** A write that reaches lseek had all its bytes delivered: it did not fail in transport,
      and the client is past sending it. */
  lemma ReachesApply(fs: Server, w: World, i: nat)
    requires Safe(fs, w) && i < |w.conns| && w.conns[i].srv.AtApply? && !w.conns[i].down
    ensures w.conns[i].todo != []
    ensures var t := w.conns[i].todo[0];
            && t.op == WriteOf(w.conns[i].srv) && t.id !in w.failed && t.id !in w.applied
            && t.id < |w.results| && w.ops[t.id] == t.op && w.home[t.id] == i
  {
    var c := w.conns[i];
    assert ConnOk(w, i);
    assert TicketOk(w, i, 0);
    if |c.todo| == 1 {
      assert c.c2s + c.unsent == [];
      assert c.unsent == [];
    }
    assert |c.todo| == 2 ==> TicketOk(w, i, 1);
  }

  lemma ApplyBook(w: World, w': World, id: nat)
    requires WorldTyped(w) && BookOk(w) && id < |w.results| && w.ops[id].Write?
    requires id !in w.failed && id !in w.applied
    requires w' == w.(fs := w'.fs, conns := w'.conns, applied := w.applied + [id], log := w'.log)
    ensures BookOk(w')
  {
  }

  /** The world after server thread i has stored a write. */
  ghost predicate Stores(w: World, w': World, i: nat, e: Entry, s: Server)
    requires WF(s)
  {
    && i < |w.conns| && w.conns[i].todo != []
    && w' == w.(fs := Serve(s, e.op, e.oc).0, conns := w.conns[i := ServerApplied(w.conns[i])],
                applied := w.applied + [w.conns[i].todo[0].id], log := w.log + [e])
  }

  lemma StoresConns(fs: Server, w: World, w': World, i: nat, e: Entry)
    requires Safe(fs, w) && Stores(w, w', i, e, w.fs) && w.conns[i].srv.AtApply? && !w.conns[i].down
    ensures BookOk(w') && forall j :: 0 <= j < |w'.conns| ==> ConnOk(w', j)
  {
    assert ConnOk(w, i);
    ReachesApply(fs, w, i);
    ApplyKeeps(w.conns[i], w.pc);
    ApplyBook(w, w', w.conns[i].todo[0].id);
    OthersOk(w, w', i);
    ServerMoveConn(w, i, ServerApplied(w.conns[i]), w');
  }

  lemma StoresSafe(fs: Server, w: World, w': World, i: nat, e: Entry)
    requires Safe(fs, w) && Stores(w, w', i, e, w.fs) && w.conns[i].srv.AtApply? && !w.conns[i].down
    ensures Safe(fs, w')
  {
    StoresConns(fs, w, w', i, e);
  }

  lemma ServerApplySafe(fs: Server, w: World, i: nat, oc: Outcome)
    requires Safe(fs, w) && Enabled(w, SCall(i, oc)) && w.conns[i].srv.AtApply?
    ensures Safe(fs, Step(w, SCall(i, oc)))
  {
    StoresSafe(fs, w, Step(w, SCall(i, oc)), i, Entry(WriteOf(w.conns[i].srv), oc));
  }

  /** Every step the network, the client or a server thread can take keeps the world safe. */
  lemma StepSafe(fs: Server, w: World, l: Label)
    requires Safe(fs, w) && Enabled(w, l)
    ensures Safe(fs, Step(w, l))
  {
    match l
    case Begin(op, connected) =>
      if w.cur.None? && !connected {
        ConnectFailsSafe(fs, w, op);
      } else {
        ConnectSafe(fs, w);
        BeginSafe(fs, Connected(w), op);
        assert Step(w, l) == Step(Connected(w), Begin(op, true));
      }
    case CSend(n) => ClientSendSafe(fs, w, n);
    case CRecv(ok) => ClientRecvSafe(fs, w, ok);
    case SRecv(i, ok) => ServerRecvSafe(fs, w, i, ok);
    case SSend(i, n) => ServerSendSafe(fs, w, i, n);
    case SCall(i, oc) =>
      if w.conns[i].srv.AtCall? {
        ServerCallSafe(fs, w, i, oc);
      } else {
        ServerApplySafe(fs, w, i, oc);
      }
  }

  lemma {:induction false} RunSafe(fs: Server, ws: seq<World>, ls: seq<Label>)
    requires Run(fs, ws, ls)
    ensures forall k :: 0 <= k < |ws| ==> Safe(fs, ws[k])
  {
    if ls == [] {
      InitSafe(fs);
    } else {
      var n := |ls| - 1;
      RunSafe(fs, ws[..n + 1], ls[..n]);
      assert Safe(fs, ws[..n + 1][n]);
      StepSafe(fs, ws[n], ls[n]);
      forall k | 0 <= k < |ws| ensures Safe(fs, ws[k]) {
        if k <= n {
          assert Safe(fs, ws[..n + 1][k]);
        }
      }
    }
  }

  // No effect from a failed write.

  ghost predicate Grows(w: World, w': World) {
    && w.failed <= w'.failed && w.ops <= w'.ops && w.applied <= w'.applied
    && |w.conns| <= |w'.conns|
  }

  ghost predicate Growing(ws: seq<World>) {
    forall k :: 0 <= k < |ws| - 1 ==> Grows(ws[k], ws[k + 1])
  }

  lemma RunGrows(fs: Server, ws: seq<World>, ls: seq<Label>)
    requires Run(fs, ws, ls)
    ensures Growing(ws)
  {
    forall k | 0 <= k < |ws| - 1 ensures Grows(ws[k], ws[k + 1]) {
    }
  }

  lemma {:induction false} GrowingFar(ws: seq<World>, j: nat, k: nat)
    requires Growing(ws) && j <= k < |ws|
    ensures Grows(ws[j], ws[k])
    decreases k
  {
    if j < k {
      GrowingFar(ws, j, k - 1);
    }
  }

  lemma HistoryGrows(fs: Server, ws: seq<World>, ls: seq<Label>, j: nat, k: nat)
    requires Run(fs, ws, ls) && j <= k < |ws|
    ensures Grows(ws[j], ws[k])
  {
    RunGrows(fs, ws, ls);
    GrowingFar(ws, j, k);
  }

  /** Over all interleavings, short sends, timeouts and closes: a write that failed in
      transport never reaches lseek or write, then or later; no write reaches them twice;
      and a write that did not fail returned its size. */
  lemma FailedWriteHasNoEffect(fs: Server, ws: seq<World>, ls: seq<Label>, j: nat, k: nat, id: nat)
    requires Run(fs, ws, ls) && j <= k < |ws|
    requires id < |ws[j].results| && id < |ws[j].ops| && ws[j].ops[id].Write?
    ensures NoDup(ws[k].applied)
    ensures id in ws[j].failed <==> ws[j].results[id] == NETDOWN
    ensures id !in ws[j].failed ==> ws[j].results[id] == Result(|ws[j].ops[id].data|, [])
    ensures id in ws[j].failed ==>
              && id !in ws[k].applied
              && forall i :: 0 <= i < |ws[k].conns| && ws[k].conns[i].srv.AtApply? && !ws[k].conns[i].down ==>
                   ws[k].conns[i].todo != [] && ws[k].conns[i].todo[0].id != id
  {
    RunSafe(fs, ws, ls);
    HistoryGrows(fs, ws, ls, j, k);
    assert Safe(fs, ws[j]) && Safe(fs, ws[k]);
    if id in ws[j].failed {
      forall i | 0 <= i < |ws[k].conns| && ws[k].conns[i].srv.AtApply? && !ws[k].conns[i].down
        ensures ws[k].conns[i].todo != [] && ws[k].conns[i].todo[0].id != id
      {
        ReachesApply(fs, ws[k], i);
      }
    }
  }

  /** Retrying until a try does not fail stores the data at most once. */
  lemma RetryStoresOnce(fs: Server, ws: seq<World>, ls: seq<Label>, tries: seq<nat>, p: nat, q: nat)
    requires Run(fs, ws, ls)
    requires forall x :: 0 <= x < |tries| - 1 ==> tries[x] in ws[|ws| - 1].failed
    requires p < q < |ws[|ws| - 1].applied|
    ensures !(ws[|ws| - 1].applied[p] in tries && ws[|ws| - 1].applied[q] in tries)
  {
    var w := ws[|ws| - 1];
    RunSafe(fs, ws, ls);
    assert Safe(fs, w);
    assert forall x :: 0 <= x < |tries| - 1 ==> tries[x] !in w.applied;
    assert w.applied[p] != w.applied[q];
  }
}
