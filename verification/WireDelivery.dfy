/** When a write that returned its size is stored: what a later reply on the same connection
    tells about it, what a broken connection can still hold, and a run in which it is lost. */
module WireDelivery {
  import opened Files
  import opened FileServer
  import opened Codec
  import opened Wire
  import opened WireInvariant
  import opened WireSafety

  predicate StoresData(op: Request) {
    op.Write? && op.data != []
  }

  ghost predicate Holds(c: Conn, x: nat) {
    exists k :: 0 <= k < |c.todo| && c.todo[k].id == x
  }

  /** An operation is not replied to while an earlier one of its connection is unfinished; and
      the last request an abandoned connection holds is the one it was abandoned for. */
  ghost predicate LineOk(w: World, i: nat)
    requires i < |w.conns| && |w.home| == |w.ops|
  {
    var ts := w.conns[i].todo;
    && (forall k, j :: 0 <= k < |ts| && ts[k].id < j < |w.results| && j < |w.ops| && w.home[j] == i ==> j in w.failed)
    && (ts != [] && w.cur != Some(i) ==> ts[|ts| - 1].id in w.failed)
    && (ts != [] && w.cur == Some(i) && !w.pc.Idle? ==> ts[|ts| - 1].id == |w.ops| - 1)
  }

  /** A write that did not fail is stored or still held by its connection. */
  ghost predicate Accounted(w: World, x: nat)
    requires x < |w.ops| == |w.home|
  {
    StoresData(w.ops[x]) && x !in w.failed ==>
      x in w.applied || (0 <= w.home[x] < |w.conns| && Holds(w.conns[w.home[x]], x))
  }

  ghost predicate Delivering(w: World) {
    && |w.home| == |w.ops|
    && (forall i :: 0 <= i < |w.conns| ==> LineOk(w, i))
    && (forall x :: 0 <= x < |w.ops| ==> Accounted(w, x))
  }

  lemma BeginDelivers(w: World, op: Request)
    requires WorldTyped(w) && BookOk(w) && w.pc.Idle? && w.cur.Some? && Encodable(op) && Delivering(w)
    requires forall i, k :: 0 <= i < |w.conns| && 0 <= k < |w.conns[i].todo| ==> w.conns[i].todo[k].id < |w.ops|
    ensures Delivering(Step(w, Begin(op, true)))
  {
    var i := w.cur.value;
    var d := Step(w, Begin(op, true)).conns[i];
    var v := Step(w, Begin(op, true));
    assert d.todo == w.conns[i].todo + [Ticket(|w.ops|, op)];
    forall j | 0 <= j < |v.conns| ensures LineOk(v, j) {
      assert LineOk(w, j);
    }
    forall x | 0 <= x < |v.ops| ensures Accounted(v, x) {
      if x < |w.ops| {
        assert Accounted(w, x);
        StillHolds(w.conns[i].todo, Ticket(|w.ops|, op), x);
      } else {
        assert d.todo[|d.todo| - 1].id == x;
      }
    }
  }

  lemma StillHolds(ts: seq<Ticket>, t: Ticket, x: nat)
    ensures (exists k :: 0 <= k < |ts| && ts[k].id == x) ==> exists k :: 0 <= k < |ts + [t]| && (ts + [t])[k].id == x
  {
    if k :| 0 <= k < |ts| && ts[k].id == x {
      assert (ts + [t])[k].id == x;
    }
  }

  lemma ConnectDelivers(w: World)
    requires w.pc.Idle? && Delivering(w)
    ensures Delivering(Connected(w))
  {
    var v := Connected(w);
    forall j | 0 <= j < |v.conns| ensures LineOk(v, j) {
      if j < |w.conns| {
        assert LineOk(w, j);
      }
    }
    forall x | 0 <= x < |v.ops| ensures Accounted(v, x) {
      assert Accounted(w, x);
    }
  }

  lemma ConnectFailsDelivers(w: World, op: Request)
    requires WorldTyped(w) && BookOk(w) && Delivering(w) && w.cur.None? && Enabled(w, Begin(op, false))
    ensures Delivering(Step(w, Begin(op, false)))
  {
    var v := Step(w, Begin(op, false));
    forall j | 0 <= j < |v.conns| ensures LineOk(v, j) {
      assert LineOk(w, j);
    }
    forall x | 0 <= x < |v.ops| ensures Accounted(v, x) {
      assert x < |w.ops| ==> Accounted(w, x);
    }
  }

  /** The client goes on, finishes with nothing older left on its connection, or gives up. */
  lemma ClientDelivers(w: World, d: Conn, m: Move)
    requires WorldTyped(w) && BookOk(w) && Delivering(w) && !w.pc.Idle?
    requires d.todo == w.conns[w.cur.value].todo && (m.Finish? ==> |d.todo| <= 1)
    requires m.Go? ==> !m.pc.Idle?
    ensures Delivering(Follow(w.(conns := w.conns[w.cur.value := d]), m))
  {
    var v := Follow(w.(conns := w.conns[w.cur.value := d]), m);
    forall j | 0 <= j < |v.conns| ensures LineOk(v, j) {
      assert LineOk(w, j);
    }
    forall x | 0 <= x < |v.ops| ensures Accounted(v, x) {
      assert Accounted(w, x);
      assert Holds(w.conns[w.cur.value], x) ==> Holds(d, x);
    }
  }

  /** A server thread moves, and drops its oldest request only when it has stored it or there
      is nothing to store. */
  lemma ServerDelivers(w: World, w': World, i: nat, d: Conn)
    requires Delivering(w) && i < |w.conns|
    requires w' == w.(fs := w'.fs, conns := w.conns[i := d], applied := w'.applied, log := w'.log)
    requires w.applied <= w'.applied
    requires var ts := w.conns[i].todo;
             || d.todo == ts
             || (ts != [] && d.todo == ts[1..] && ts[0].id < |w.ops| && w.ops[ts[0].id] == ts[0].op
                 && (StoresData(ts[0].op) ==> ts[0].id in w'.applied))
    ensures Delivering(w')
  {
    var ts := w.conns[i].todo;
    forall j | 0 <= j < |w'.conns| ensures LineOk(w', j) {
      assert LineOk(w, j);
      if d.todo != ts {
        assert forall k :: 0 <= k < |d.todo| ==> d.todo[k] == ts[k + 1];
      }
    }
    forall x | 0 <= x < |w'.ops| ensures Accounted(w', x) {
      assert Accounted(w, x);
      if Holds(w.conns[i], x) && d.todo != ts {
        var k :| 0 <= k < |ts| && ts[k].id == x;
        assert k > 0 ==> d.todo[k - 1].id == x;
      } else if Holds(w.conns[i], x) {
        assert Holds(d, x);
      }
    }
  }

  lemma CSendDelivers(fs: Server, w: World, n: int)
    requires Safe(fs, w) && Delivering(w) && Enabled(w, CSend(n))
    ensures Delivering(Step(w, CSend(n)))
  {
    assert ConnOk(w, w.cur.value);
    ClientDelivers(w, ClientSends(w.conns[w.cur.value], ToSend(w.pc), n), AfterSend(w.pc, n));
  }

  lemma CRecvDelivers(fs: Server, w: World, ok: bool)
    requires Safe(fs, w) && Delivering(w) && Enabled(w, CRecv(ok))
    ensures Delivering(Step(w, CRecv(ok)))
  {
    var c := w.conns[w.cur.value];
    assert ConnOk(w, w.cur.value);
    if ok {
      ReplyFinds(c, w.pc);
      ClientDelivers(w, ClientTakes(c, ToRecv(w.pc)), AfterRecv(w.pc, c.s2c[..ToRecv(w.pc)]));
    } else {
      assert w.conns[w.cur.value := c] == w.conns;
      ClientDelivers(w, c, Abort);
    }
  }

  /** A client that can take reply bytes is answered, and nothing older is left. */
  lemma ReplyFinds(c: Conn, pc: ClientPc)
    requires Framed(c) && Live(c, pc) && Receiving(pc) && ToRecv(pc) <= |c.s2c|
    ensures c.ans.Some? && |c.todo| <= 1
    ensures AfterRecv(pc, c.s2c[..ToRecv(pc)]).Go? ==> !AfterRecv(pc, c.s2c[..ToRecv(pc)]).pc.Idle?
  {
    assert pc.RecvRes? ==> HdrLen(pc.op) > 0;
  }

  lemma SSendDelivers(fs: Server, w: World, i: nat, n: int)
    requires Safe(fs, w) && Delivering(w) && Enabled(w, SSend(i, n))
    ensures Delivering(Step(w, SSend(i, n)))
  {
    var c, d := w.conns[i], ServerSends(w.conns[i], n);
    assert ConnOk(w, i);
    if c.todo != [] {
      assert TicketOk(w, i, 0);
    }
    ServerDelivers(w, Step(w, SSend(i, n)), i, d);
  }

  lemma SCallDelivers(fs: Server, w: World, i: nat, oc: Outcome)
    requires Safe(fs, w) && Delivering(w) && Enabled(w, SCall(i, oc))
    ensures Delivering(Step(w, SCall(i, oc)))
  {
    var c, w' := w.conns[i], Step(w, SCall(i, oc));
    assert ConnOk(w, i);
    if c.srv.AtApply? {
      assert TicketOk(w, i, 0);
      ServerDelivers(w, w', i, ServerApplied(c));
    } else {
      ServerDelivers(w, w', i, w'.conns[i]);
    }
  }

  lemma SRecvDelivers(fs: Server, w: World, i: nat, ok: bool)
    requires Safe(fs, w) && Delivering(w) && Enabled(w, SRecv(i, ok))
    ensures Delivering(Step(w, SRecv(i, ok)))
  {
    ServerDelivers(w, Step(w, SRecv(i, ok)), i, Step(w, SRecv(i, ok)).conns[i]);
  }

  lemma StepDelivers(fs: Server, w: World, l: Label)
    requires Safe(fs, w) && Delivering(w) && Enabled(w, l)
    ensures Delivering(Step(w, l))
  {
    match l
    case Begin(op, connected) =>
      if w.cur.None? && !connected {
        ConnectFailsDelivers(w, op);
      } else {
        ConnectSafe(fs, w);
        ConnectDelivers(w);
        TicketsKnown(fs, Connected(w));
        BeginDelivers(Connected(w), op);
        assert Step(w, l) == Step(Connected(w), Begin(op, true));
      }
    case CSend(n) => CSendDelivers(fs, w, n);
    case CRecv(ok) => CRecvDelivers(fs, w, ok);
    case SRecv(i, ok) => SRecvDelivers(fs, w, i, ok);
    case SSend(i, n) => SSendDelivers(fs, w, i, n);
    case SCall(i, oc) => SCallDelivers(fs, w, i, oc);
  }

  lemma TicketsKnown(fs: Server, w: World)
    requires Safe(fs, w)
    ensures forall i, k :: 0 <= i < |w.conns| && 0 <= k < |w.conns[i].todo| ==> w.conns[i].todo[k].id < |w.ops|
  {
    forall i, k | 0 <= i < |w.conns| && 0 <= k < |w.conns[i].todo| ensures w.conns[i].todo[k].id < |w.ops| {
      assert ConnOk(w, i);
      assert TicketOk(w, i, k);
    }
  }

  lemma {:induction false} RunDelivers(fs: Server, ws: seq<World>, ls: seq<Label>)
    requires Run(fs, ws, ls)
    ensures forall k :: 0 <= k < |ws| ==> Delivering(ws[k])
  {
    if ls != [] {
      var n := |ls| - 1;
      RunDelivers(fs, ws[..n + 1], ls[..n]);
      RunSafe(fs, ws, ls);
      assert Safe(fs, ws[n]) && Delivering(ws[..n + 1][n]);
      StepDelivers(fs, ws[n], ls[n]);
      forall k | 0 <= k < |ws| ensures Delivering(ws[k]) {
        if k <= n {
          assert Delivering(ws[..n + 1][k]);
        }
      }
    }
  }

  /** With failures at any point of the run: once an operation got its reply, every earlier
      write on its connection that did not fail has been stored. */
  lemma ReplyMeansStored(fs: Server, ws: seq<World>, ls: seq<Label>, x: nat, j: nat)
    requires Run(fs, ws, ls)
    requires var w := ws[|ls|];
             && x < j < |w.results| && j < |w.ops| <= |w.home| && j !in w.failed && x !in w.failed
             && w.home[x] == w.home[j] && StoresData(w.ops[x])
    ensures x in ws[|ls|].applied
  {
    var w := ws[|ls|];
    RunDelivers(fs, ws, ls);
    assert Delivering(w) && Accounted(w, x);
    assert 0 <= w.home[x] < |w.conns| ==> LineOk(w, w.home[x]);
  }

  /** And a connection holds at most one such write that is not stored: an abandoned one holds
      it before the request it was abandoned for, the client's own, between operations, as
      its only unfinished request. */
  lemma OneWriteOutstanding(fs: Server, ws: seq<World>, ls: seq<Label>, i: nat, k: nat)
    requires Run(fs, ws, ls)
    requires var w := ws[|ls|];
             && i < |w.conns| && k < |w.conns[i].todo| && w.conns[i].todo[k].id !in w.failed
             && (w.cur == Some(i) ==> w.pc.Idle?)
    ensures k == 0 && |ws[|ls|].conns[i].todo| == if ws[|ls|].cur == Some(i) then 1 else 2
  {
    var w := ws[|ls|];
    RunDelivers(fs, ws, ls);
    RunSafe(fs, ws, ls);
    assert Safe(fs, w) && Delivering(w);
    FirstOnLine(w, i, k);
  }

  lemma FirstOnLine(w: World, i: nat, k: nat)
    requires |w.home| == |w.ops| && i < |w.conns| && k < |w.conns[i].todo| && ConnOk(w, i) && LineOk(w, i)
    requires w.conns[i].todo[k].id !in w.failed && (w.cur == Some(i) ==> w.pc.Idle?)
    ensures k == 0 && |w.conns[i].todo| == if w.cur == Some(i) then 1 else 2
  {
  }

  // A write that is lost although it returned its size.

  const DOOMED := Request.Write(3, 0, [7])

  lemma SendsAll(c: Conn, msg: Content, rest: Content)
    requires c.c2s == [] && c.unsent == msg + rest
    ensures ClientSends(c, msg, |msg|) == c.(c2s := msg, unsent := rest)
  {
  }

  lemma SaysAll(c: Conn, msg: Content)
    requires c.s2c == [] && c.unsentBack == msg && c.srv.AtWriteRes? && c.srv.size > 0 && ServerSays(c.srv) == Some(msg)
    ensures ServerSends(c, |msg|) == c.(s2c := msg, unsentBack := [], srv := AtData(c.srv.fd, c.srv.off, c.srv.size))
  {
  }

  /** A run with one more step, which leads to `w`. */
  lemma Onward(fs: Server, ws: seq<World>, ls: seq<Label>, l: Label, w: World) returns (ws': seq<World>, ls': seq<Label>)
    requires Run(fs, ws, ls) && WorldTyped(ws[|ls|]) && Enabled(ws[|ls|], l) && w == Step(ws[|ls|], l)
    ensures Run(fs, ws', ls') && ws'[|ls'|] == w
  {
    ws', ls' := ws + [w], ls + [l];
    forall k | 0 <= k < |ls'|
      ensures WorldTyped(ws'[k]) && Enabled(ws'[k], ls'[k]) && ws'[k + 1] == Step(ws'[k], ls'[k])
    {
      if k < |ls| {
        assert ws'[k] == ws[k] && ls'[k] == ls[k] && ws'[k + 1] == ws[k + 1];
      }
    }
  }

  lemma TakesTag(c: Conn)
    requires c.srv.AtType? && c.c2s == Enc32(T_WRITE)
    ensures ServerTakes(c) == c.(c2s := [], srv := AtReq(T_WRITE))
  {
    Dec32Enc32(T_WRITE);
  }

  lemma TakesReq(c: Conn)
    requires c.srv == AtReq(T_WRITE) && c.c2s == EncReq(DOOMED)
    ensures ServerTakes(c) == c.(c2s := [], srv := AtWriteRes(3, 0, 1), ans := Some(Reply(0, 0, [])), unsentBack := Enc32(0))
  {
    DecReqEncReq(DOOMED);
  }

  lemma BeginsFirst(fs: Server, op: Request)
    requires WF(fs) && Encodable(op)
    ensures Step(Init(fs), Begin(op, true)) ==
            World(fs, [FRESH.(todo := [Ticket(0, op)], unsent := Enc(op))], Some(0), SendType(op), [op], [0], [], {}, [], [])
  {
    assert [] + [Ticket(0, op)] == [Ticket(0, op)];
  }

  /** The request type has arrived. */
  lemma TypeSent(fs: Server) returns (ws: seq<World>, ls: seq<Label>)
    requires WF(fs)
    ensures Run(fs, ws, ls)
    ensures ws[|ls|] == World(fs, [FRESH.(todo := [Ticket(0, DOOMED)], srv := AtReq(T_WRITE), unsent := EncReq(DOOMED) + [7])],
                              Some(0), SendReq(DOOMED), [DOOMED], [0], [], {}, [], [])
  {
    var op, tag, rest := DOOMED, Enc32(T_WRITE), EncReq(DOOMED) + [7];
    var c1 := FRESH.(todo := [Ticket(0, op)], unsent := tag + rest);
    assert Enc(op) == tag + rest;
    BeginsFirst(fs, op);
    SendsAll(c1, tag, rest);
    var c2 := c1.(c2s := tag, unsent := rest);
    TakesTag(c2);
    var w := World(fs, [c1], Some(0), SendType(op), [op], [0], [], {}, [], []);
    ws, ls := [Init(fs)], [];
    ws, ls := Onward(fs, ws, ls, Begin(op, true), w);
    ws, ls := Onward(fs, ws, ls, CSend(4), w.(conns := [c2], pc := SendReq(op)));
    ws, ls := Onward(fs, ws, ls, SRecv(0, true), w.(conns := [c2.(c2s := [], srv := AtReq(T_WRITE))], pc := SendReq(op)));
  }

  /** The request is sent, and the server is about to acknowledge it. */
  lemma WriteAsked(fs: Server) returns (ws: seq<World>, ls: seq<Label>)
    requires WF(fs)
    ensures Run(fs, ws, ls)
    ensures ws[|ls|] == World(fs, [Conn([], [], AtWriteRes(3, 0, 1), false, [Ticket(0, DOOMED)], [7],
                                        Some(Reply(0, 0, [])), Enc32(0))],
                              Some(0), RecvRes(DOOMED), [DOOMED], [0], [], {}, [], [])
  {
    ws, ls := TypeSent(fs);
    var op, req, w := DOOMED, EncReq(DOOMED), ws[|ls|];
    var c3 := w.conns[0];
    SendsAll(c3, req, [7]);
    var c4 := c3.(c2s := req, unsent := [7]);
    TakesReq(c4);
    var c5 := c4.(c2s := [], srv := AtWriteRes(3, 0, 1), ans := Some(Reply(0, 0, [])), unsentBack := Enc32(0));
    ws, ls := Onward(fs, ws, ls, CSend(16), w.(conns := [c4], pc := RecvRes(op)));
    ws, ls := Onward(fs, ws, ls, SRecv(0, true), w.(conns := [c5], pc := RecvRes(op)));
  }

  /** It is acknowledged, and the network accepts the data. */
  lemma WriteAccepted(fs: Server) returns (ws: seq<World>, ls: seq<Label>)
    requires WF(fs)
    ensures Run(fs, ws, ls)
    ensures ws[|ls|] == World(fs, [Conn([7], [], AtData(3, 0, 1), false, [Ticket(0, DOOMED)], [], Some(Reply(0, 0, [])), [])],
                              Some(0), Idle, [DOOMED], [0], [Result(1, [])], {}, [], [])
  {
    ws, ls := WriteAsked(fs);
    var w, ack := ws[|ls|], Enc32(0);
    var c5 := w.conns[0];
    SaysAll(c5, ack);
    var c6 := c5.(s2c := ack, unsentBack := [], srv := AtData(3, 0, 1));
    Dec32Enc32(0);
    var c7 := c6.(s2c := []);
    assert [7] + [] == [7 as byte];
    SendsAll(c7, [7], []);
    var c8 := c7.(c2s := [7], unsent := []);
    ws, ls := Onward(fs, ws, ls, SSend(0, 4), w.(conns := [c6]));
    ws, ls := Onward(fs, ws, ls, CRecv(true), w.(conns := [c7], pc := SendPay(DOOMED)));
    ws, ls := Onward(fs, ws, ls, CSend(1), w.(conns := [c8], pc := Idle, results := [Result(1, [])]));
  }

  /** The connection breaks just after the network accepted the data of a write: the write
      has returned its size, it did not fail, and it is never stored. The client notices
      only at its next operation, here a close. */
  lemma AcceptedWriteLost(fs: Server) returns (ws: seq<World>, ls: seq<Label>)
    requires WF(fs)
    ensures Run(fs, ws, ls)
    ensures var w := ws[|ls|];
            && w.ops == [DOOMED, Request.Close(3)] && w.results == [Result(1, []), NETDOWN]
            && 0 !in w.failed && w.applied == [] && w.log == [] && w.fs == fs
            && |w.conns| == 1 && w.conns[0].down
  {
    ws, ls := WriteAccepted(fs);
    var w := ws[|ls|];
    var l := Begin(Request.Close(3), true);
    ws, ls := Onward(fs, ws, ls, l, Step(w, l));
    ws, ls := Onward(fs, ws, ls, CSend(-1), Step(Step(w, l), CSend(-1)));
    var w' := Step(Step(w, l), CSend(-1));
    ws, ls := Onward(fs, ws, ls, SRecv(0, false), Step(w', SRecv(0, false)));
  }
}
