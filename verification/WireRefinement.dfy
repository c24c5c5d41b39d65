/** Pipelined refinement: over one connection that the client never had to give up, the
    results are those of an atomic sequential server working through the same operations in
    the same order, although a write returns before its data is stored. */
module WireRefinement {
  import opened Files
  import opened FileServer
  import opened Codec
  import opened Wire
  import opened WireInvariant
  import opened WireSafety

  /** The client never closed a socket: it has used at most one connection. */
  ghost predicate Unbroken(w: World) {
    && w.failed == {}
    && |w.conns| == (if w.ops == [] then 0 else 1)
    && w.cur == (if w.ops == [] then None else Some(0))
  }

  /** Requests taken on and not yet carried out. */
  function Outstanding(c: Conn): int {
    |c.todo| - (if c.srv.AtRes? || c.srv.AtPay? then 1 else 0)
  }

  function ReplyAt(fs: Server, log: seq<Entry>, i: nat): Reply
    requires WF(fs) && i < |log|
  {
    Serve(ServeAll(fs, log[..i]), log[i].op, log[i].oc).1
  }

  /** The server has carried out a prefix of the operations, in order, and the results the
      client has are the answers of that sequential execution. */
  ghost predicate InOrder(fs: Server, w: World)
    requires WF(fs)
  {
    && Unbroken(w)
    && |w.log| <= |w.ops|
    && (forall i :: 0 <= i < |w.log| ==> w.log[i].op == w.ops[i])
    && (forall i :: 0 <= i < |w.results| && i < |w.log| && i < |w.ops| ==> w.results[i] == AnswerAt(fs, w.log, i))
    && (forall i :: |w.log| <= i < |w.results| && i < |w.ops| ==> w.ops[i].Write?)
    && (w.ops != [] ==> Placed(fs, w, w.conns[0]))
  }

  ghost predicate Placed(fs: Server, w: World, c: Conn)
    requires WF(fs) && |w.log| <= |w.ops|
  {
    && |c.todo| <= |w.ops|
    && (forall k :: 0 <= k < |c.todo| ==> c.todo[k].id == |w.ops| - |c.todo| + k)
    && |w.log| == |w.ops| - Outstanding(c)
    && (!w.pc.Idle? && !w.pc.op.Write? && c.ans.Some? ==>
          |w.log| == |w.ops| && |w.ops| > 0 && c.ans.value == ReplyAt(fs, w.log, |w.log| - 1))
  }

  /** Log entries already made keep their answers when the log grows. */
  lemma AnswersStay(fs: Server, log: seq<Entry>, e: Entry)
    requires WF(fs)
    ensures forall i :: 0 <= i < |log| ==> AnswerAt(fs, log + [e], i) == AnswerAt(fs, log, i)
  {
    forall i | 0 <= i < |log| ensures AnswerAt(fs, log + [e], i) == AnswerAt(fs, log, i) {
      assert (log + [e])[..i] == log[..i];
    }
  }

  lemma ConnectInOrder(fs: Server, w: World)
    requires Safe(fs, w) && InOrder(fs, w) && w.pc.Idle?
    ensures var w1 := Connected(w);
            && |w1.conns| == 1 && w1.cur == Some(0) && w1.failed == {} && Placed(fs, w1, w1.conns[0])
  {
  }

  lemma BeginPlaced(fs: Server, w: World, op: Request)
    requires WF(fs) && WorldTyped(w) && |w.log| <= |w.ops| && w.pc.Idle? && Encodable(op)
    requires |w.conns| == 1 && w.cur == Some(0) && Placed(fs, w, w.conns[0])
    ensures var w' := Step(w, Begin(op, true));
            Placed(fs, w', w'.conns[0])
  {
  }

  lemma BeginInOrder(fs: Server, w: World, op: Request, connected: bool)
    requires Safe(fs, w) && InOrder(fs, w) && Enabled(w, Begin(op, connected))
    requires Step(w, Begin(op, connected)).failed == {}
    ensures InOrder(fs, Step(w, Begin(op, connected)))
  {
    assert |w.ops| in Step(w, Begin(op, connected)).failed || w.cur.Some? || connected;
    ConnectInOrder(fs, w);
    ConnectSafe(fs, w);
    BeginPlaced(fs, Connected(w), op);
    assert Step(w, Begin(op, connected)) == Step(Connected(w), Begin(op, true));
  }

  /** Moving on within an operation, or finishing it with the answer on its connection. */
  lemma FollowInOrder(fs: Server, w: World, m: Move)
    requires WF(fs) && InOrder(fs, w) && !w.pc.Idle? && !m.Abort? && w.ops != []
    requires |w.results| == |w.ops| - 1 && w.ops[|w.results|] == w.pc.op
    requires m.Go? ==> !m.pc.Idle? && m.pc.op == w.pc.op
    requires m.Finish? ==>
               if w.pc.op.Write? then m.res == Outward(w.pc.op, Reply(0, 0, []))
               else w.conns[0].ans.Some? && m.res == Outward(w.pc.op, w.conns[0].ans.value)
    requires forall i :: |w.results| <= i < |w.log| && w.pc.op.Write? && i < |w.ops| ==>
               Outward(w.pc.op, Reply(0, 0, [])) == AnswerAt(fs, w.log, i)
    ensures InOrder(fs, Follow(w, m))
  {
    assert Placed(fs, w, w.conns[0]);
    assert Placed(fs, Follow(w, m), w.conns[0]);
  }

  lemma ClientInOrder(fs: Server, w: World, d: Conn, m: Move)
    requires Safe(fs, w) && InOrder(fs, w) && !w.pc.Idle? && !m.Abort?
    requires var c := w.conns[w.cur.value];
             d == c.(c2s := d.c2s, s2c := d.s2c, unsent := d.unsent)
    requires m.Go? ==> !m.pc.Idle? && m.pc.op == w.pc.op
    requires m.Finish? ==>
               if w.pc.op.Write? then m.res == Outward(w.pc.op, Reply(0, 0, []))
               else d.ans.Some? && m.res == Outward(w.pc.op, d.ans.value)
    ensures InOrder(fs, Follow(w.(conns := w.conns[w.cur.value := d]), m))
  {
    assert Placed(fs, w, d);
    SameOrder(fs, w, d);
    forall i | |w.results| <= i < |w.log| && w.pc.op.Write? && i < |w.ops|
      ensures Outward(w.pc.op, Reply(0, 0, [])) == AnswerAt(fs, w.log, i)
    {
      WriteAnswer(fs, w.log, i);
    }
    FollowInOrder(fs, w.(conns := w.conns[w.cur.value := d]), m);
  }

  lemma CSendInOrder(fs: Server, w: World, n: int)
    requires Safe(fs, w) && InOrder(fs, w) && Enabled(w, CSend(n))
    requires Step(w, CSend(n)).failed == {}
    ensures InOrder(fs, Step(w, CSend(n)))
  {
    var c := w.conns[w.cur.value];
    assert ConnOk(w, 0);
    ClientInOrder(fs, w, ClientSends(c, ToSend(w.pc), n), AfterSend(w.pc, n));
  }

  lemma CRecvInOrder(fs: Server, w: World, ok: bool)
    requires Safe(fs, w) && InOrder(fs, w) && Enabled(w, CRecv(ok))
    requires Step(w, CRecv(ok)).failed == {}
    ensures InOrder(fs, Step(w, CRecv(ok)))
  {
    var c := w.conns[w.cur.value];
    assert ConnOk(w, 0);
    match w.pc {
      case RecvRes(op) => RecvResKeeps(c, op);
      case RecvPay(_, _, _) => RecvPayKeeps(c, w.pc);
    }
    ClientInOrder(fs, w, ClientTakes(c, ToRecv(w.pc)), AfterRecv(w.pc, c.s2c[..ToRecv(w.pc)]));
  }

  /** Connection steps that leave the order of things alone. */
  lemma SameOrder(fs: Server, w: World, d: Conn)
    requires WF(fs) && InOrder(fs, w) && w.ops != []
    requires Placed(fs, w, d)
    ensures InOrder(fs, w.(conns := w.conns[0 := d]))
  {
  }

  /** The server carries out one more operation: the next one in the client's order. */
  lemma NextInOrder(fs: Server, w: World, w': World, e: Entry)
    requires WF(fs) && InOrder(fs, w) && BookOk(w)
    requires |w.log| < |w.ops| && e.op == w.ops[|w.log|]
    requires |w.log| < |w.results| ==> w.results[|w.log|] == Outward(e.op, Reply(0, 0, [])) && e.op.Write?
    requires |w'.conns| == 1
    requires w' == w.(fs := w'.fs, conns := w'.conns, applied := w'.applied, log := w.log + [e])
    requires Placed(fs, w', w'.conns[0])
    ensures InOrder(fs, w')
  {
    AnswersStay(fs, w.log, e);
  }

  /** The oldest request the server has not carried out is the next in the client's order. */
  lemma OldestIsNext(fs: Server, w: World)
    requires Safe(fs, w) && InOrder(fs, w) && w.ops != [] && w.conns[0].todo != []
    requires !w.conns[0].srv.AtRes? && !w.conns[0].srv.AtPay?
    ensures var op := w.conns[0].todo[0].op;
            && |w.log| < |w.ops| && op == w.ops[|w.log|]
            && (|w.log| < |w.results| ==> op.Write? && w.results[|w.log|] == Outward(op, Reply(0, 0, [])))
  {
    assert ConnOk(w, 0) && TicketOk(w, 0, 0);
    assert Placed(fs, w, w.conns[0]);
    OldestBehind(w, w.conns[0]);
  }

  lemma OldestBehind(w: World, c: Conn)
    requires BookOk(w) && w.failed == {} && c.todo != [] && |w.log| == |w.ops| - |c.todo|
    requires c.todo[0].id < |w.ops| && w.ops[c.todo[0].id] == c.todo[0].op && c.todo[0].id == |w.log|
    requires |w.log| < |w.results| ==> c.todo[0].op.Write?
    ensures |w.log| < |w.results| ==> w.results[|w.log|] == Outward(c.todo[0].op, Reply(0, 0, []))
  {
  }

  lemma RecvPlaced(fs: Server, w: World, d: Conn)
    requires Safe(fs, w) && InOrder(fs, w) && w.ops != []
    requires var c := w.conns[0];
             && Outstanding(d) == Outstanding(c) && d.todo == c.todo
             && (d.ans != c.ans ==> !w.pc.Idle? && w.pc.op.Write?)
    ensures Placed(fs, w, d)
  {
  }

  lemma RecvOutstanding(c: Conn, pc: ClientPc, ok: bool)
    requires Framed(c) && Live(c, pc) && ServerWants(c.srv).Some? && !c.down
    requires ok ==> ServerWants(c.srv).value <= |c.c2s|
    ensures var d := if ok then ServerTakes(c) else c.(down := true);
            && Outstanding(d) == Outstanding(c) && d.todo == c.todo
            && (d.ans != c.ans ==> !pc.Idle? && pc.op.Write?)
  {
    if ok && c.srv.AtReq? {
      TakeReqMoves(c);
      RequestArrivedPc(c, pc);
    }
  }

  lemma SRecvInOrder(fs: Server, w: World, i: nat, ok: bool)
    requires Safe(fs, w) && InOrder(fs, w) && Enabled(w, SRecv(i, ok))
    ensures InOrder(fs, Step(w, SRecv(i, ok)))
  {
    var c := w.conns[0];
    assert ConnOk(w, 0);
    RecvOutstanding(c, w.pc, ok);
    var d := if ok then ServerTakes(c) else c.(down := true);
    RecvPlaced(fs, w, d);
    SameOrder(fs, w, d);
  }

  predicate EndsEmptyWrite(c: Conn, n: int) {
    c.srv.AtWriteRes? && c.srv.size == 0 && n == 4
  }

  lemma SendOutstanding(c: Conn, n: int)
    requires Framed(c) && ServerSays(c.srv).Some? && -1 <= n <= |ServerSays(c.srv).value| && !c.down
    ensures var d := ServerSends(c, n);
            && c.todo != []
            && (d.todo == c.todo || d.todo == c.todo[1..])
            && Outstanding(d) == Outstanding(c) - (if EndsEmptyWrite(c, n) then 1 else 0)
            && d.ans == c.ans
            && (EndsEmptyWrite(c, n) ==> c.todo[0].op == Write(c.srv.fd, c.srv.off, []))
  {
  }

  lemma EmptyWriteInOrder(fs: Server, w: World, n: int)
    requires Safe(fs, w) && InOrder(fs, w) && Enabled(w, SSend(0, n)) && EndsEmptyWrite(w.conns[0], n)
    ensures InOrder(fs, Step(w, SSend(0, n)))
  {
    var c := w.conns[0];
    assert ConnOk(w, 0);
    SendOutstanding(c, n);
    OldestIsNext(fs, w);
    var e := Entry(Write(c.srv.fd, c.srv.off, []), Complete);
    var w' := Step(w, SSend(0, n));
    MorePlaced(fs, w, w', ServerSends(c, n), e);
    NextInOrder(fs, w, w', e);
  }

  lemma {:induction false} OtherSendInOrder(fs: Server, w: World, n: int)
    requires Safe(fs, w) && InOrder(fs, w) && Enabled(w, SSend(0, n)) && !EndsEmptyWrite(w.conns[0], n)
    ensures InOrder(fs, Step(w, SSend(0, n)))
  {
    var c := w.conns[0];
    var d := ServerSends(c, n);
    assert ConnOk(w, 0);
    SendOutstanding(c, n);
    assert Placed(fs, w, d);
    SameOrder(fs, w, d);
    assert Step(w, SSend(0, n)) == w.(conns := w.conns[0 := d]);
  }

  lemma SSendInOrder(fs: Server, w: World, i: nat, n: int)
    requires Safe(fs, w) && InOrder(fs, w) && Enabled(w, SSend(i, n))
    ensures InOrder(fs, Step(w, SSend(i, n)))
  {
    assert i == 0;
    if EndsEmptyWrite(w.conns[0], n) {
      EmptyWriteInOrder(fs, w, n);
    } else {
      OtherSendInOrder(fs, w, n);
    }
  }

  /** One request off the server's hands, one entry in its log. */
  lemma MorePlaced(fs: Server, w: World, w': World, d: Conn, e: Entry)
    requires Safe(fs, w) && InOrder(fs, w) && w.ops != [] && |w.log| < |w.ops|
    requires w' == w.(fs := w'.fs, conns := w'.conns, applied := w'.applied, log := w.log + [e])
    requires var c := w.conns[0];
             && (d.todo == c.todo || (c.todo != [] && d.todo == c.todo[1..]))
             && Outstanding(d) == Outstanding(c) - 1
             && (!w.pc.Idle? && !w.pc.op.Write? && d.ans.Some? ==>
                   (c.ans == d.ans && Outstanding(c) == 0)
                   || (Outstanding(d) == 0 && d.ans.value == Serve(w.fs, e.op, e.oc).1))
    ensures Placed(fs, w', d)
  {
    assert (w.log + [e])[..|w.log|] == w.log;
  }

  lemma AnswerInOrder(fs: Server, w: World, i: nat, oc: Outcome)
    requires Safe(fs, w) && InOrder(fs, w) && Enabled(w, SCall(i, oc)) && w.conns[i].srv.AtCall?
    ensures InOrder(fs, Step(w, SCall(i, oc)))
  {
    var c, w' := w.conns[0], Step(w, SCall(i, oc));
    assert ConnOk(w, 0);
    OldestIsNext(fs, w);
    var e := Entry(c.srv.op, oc);
    MorePlaced(fs, w, w', w'.conns[0], e);
    NextInOrder(fs, w, w', e);
  }

  lemma StoreInOrder(fs: Server, w: World, i: nat, oc: Outcome)
    requires Safe(fs, w) && InOrder(fs, w) && Enabled(w, SCall(i, oc)) && w.conns[i].srv.AtApply?
    ensures InOrder(fs, Step(w, SCall(i, oc)))
  {
    var c, w' := w.conns[0], Step(w, SCall(i, oc));
    assert ConnOk(w, 0);
    OldestIsNext(fs, w);
    var e := Entry(WriteOf(c.srv), oc);
    MorePlaced(fs, w, w', ServerApplied(c), e);
    NextInOrder(fs, w, w', e);
  }

  lemma StepInOrder(fs: Server, w: World, l: Label)
    requires Safe(fs, w) && InOrder(fs, w) && Enabled(w, l) && Step(w, l).failed == {}
    ensures InOrder(fs, Step(w, l))
  {
    match l
    case Begin(op, connected) => BeginInOrder(fs, w, op, connected);
    case CSend(n) => CSendInOrder(fs, w, n);
    case CRecv(ok) => CRecvInOrder(fs, w, ok);
    case SRecv(i, ok) => SRecvInOrder(fs, w, i, ok);
    case SSend(i, n) => SSendInOrder(fs, w, i, n);
    case SCall(i, oc) =>
      if w.conns[i].srv.AtCall? {
        AnswerInOrder(fs, w, i, oc);
      } else {
        StoreInOrder(fs, w, i, oc);
      }
  }

  lemma {:induction false} RunInOrder(fs: Server, ws: seq<World>, ls: seq<Label>)
    requires Run(fs, ws, ls) && ws[|ls|].failed == {}
    ensures InOrder(fs, ws[|ls|])
  {
    if ls != [] {
      var n := |ls| - 1;
      HistoryGrows(fs, ws, ls, n, n + 1);
      RunInOrder(fs, ws[..n + 1], ls[..n]);
      RunSafe(fs, ws, ls);
      assert Safe(fs, ws[n]);
      StepInOrder(fs, ws[n], ls[n]);
    }
  }

  /** The server's log, with the writes it has yet to store added in the client's order. */
  ghost function FullLog(w: World): (log: seq<Entry>)
    requires |w.log| <= |w.ops|
    ensures |log| == |w.ops| && w.log <= log
  {
    w.log + seq(|w.ops| - |w.log|, i requires 0 <= i < |w.ops| - |w.log| => Entry(w.ops[|w.log| + i], Complete))
  }

  /** The whole refinement: as long as no operation failed in transport, each result is the
      answer of a sequential server that has carried out every earlier operation, writes
      included, whether or not the real server has stored them yet. What it has carried out
      is a prefix, at most two requests behind, that reaches past every operation whose
      reply arrived; once nothing is outstanding, its files are the sequential server's. */
  lemma PipelinedRefinement(fs: Server, ws: seq<World>, ls: seq<Label>)
    requires Run(fs, ws, ls) && ws[|ls|].failed == {}
    ensures var w := ws[|ls|];
            && |w.log| <= |w.ops| <= |w.log| + 2
            && |w.results| <= |w.ops|
            && (forall i :: 0 <= i < |w.ops| ==> FullLog(w)[i].op == w.ops[i])
            && (forall i :: 0 <= i < |w.results| ==> w.results[i] == AnswerAt(fs, FullLog(w), i))
            && (forall i :: 0 <= i < |w.results| && !w.ops[i].Write? ==> i < |w.log|)
            && (w.conns != [] && w.conns[0].todo == [] ==> |w.log| == |w.ops| && w.fs == ServeAll(fs, FullLog(w)))
  {
    RunInOrder(fs, ws, ls);
    RunSafe(fs, ws, ls);
    assert Safe(fs, ws[|ls|]);
    FullLogAnswers(fs, ws[|ls|]);
    LogReaches(fs, ws[|ls|]);
  }

  lemma LogReaches(fs: Server, w: World)
    requires Safe(fs, w) && InOrder(fs, w)
    ensures |w.log| <= |w.ops| <= |w.log| + 2
    ensures forall i :: 0 <= i < |w.results| && !w.ops[i].Write? ==> i < |w.log|
    ensures w.conns != [] && w.conns[0].todo == [] ==> |w.log| == |w.ops| && w.fs == ServeAll(fs, FullLog(w))
  {
    if w.ops != [] {
      assert ConnOk(w, 0);
      if w.conns[0].todo == [] {
        assert FullLog(w) == w.log;
      }
    }
  }

  lemma PrefixAnswer(fs: Server, log: seq<Entry>, full: seq<Entry>, i: nat)
    requires WF(fs) && log <= full && i < |log|
    ensures AnswerAt(fs, full, i) == AnswerAt(fs, log, i)
  {
    assert full[..i] == log[..i] && full[i] == log[i];
  }

  lemma {:induction false} FullLogAnswers(fs: Server, w: World)
    requires WF(fs) && InOrder(fs, w) && BookOk(w)
    ensures |w.results| <= |w.ops|
    ensures forall i :: 0 <= i < |w.ops| ==> FullLog(w)[i].op == w.ops[i]
    ensures forall i :: 0 <= i < |w.results| ==> w.results[i] == AnswerAt(fs, FullLog(w), i)
  {
    var full := FullLog(w);
    forall i | 0 <= i < |w.results| ensures w.results[i] == AnswerAt(fs, full, i) {
      if i < |w.log| {
        PrefixAnswer(fs, w.log, full, i);
      } else {
        WriteAnswer(fs, full, i);
      }
    }
  }

  /** A write answers with its size, whatever came before. */
  lemma WriteAnswer(fs: Server, log: seq<Entry>, i: nat)
    requires WF(fs) && i < |log| && log[i].op.Write?
    ensures AnswerAt(fs, log, i) == Result(|log[i].op.data|, [])
  {
  }
}
