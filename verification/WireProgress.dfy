/** No mutual waiting: a client that waits for bytes on a connection that is not down has the
    bytes, or its server thread has something to do. */
module WireProgress {
  import opened Files
  import opened FileServer
  import opened Codec
  import opened Wire
  import opened WireInvariant
  import opened WireSafety

  /** A payload is received entry by entry, and no receive is begun after the last. */
  predicate EntryWise(pc: ClientPc) {
    pc.RecvPay? ==>
      if pc.op.Readdir? then |pc.got| % DIRENT_SIZE == 0 && |pc.got| < Following(pc.op, pc.hdr)
      else if pc.op.Ls? then |pc.got| % ENTRY_SIZE == 0 && |pc.got| < Following(pc.op, pc.hdr)
      else pc.got == []
  }

  lemma HeaderEntryWise(op: Request, h: Reply)
    ensures AfterHeader(op, h).Go? ==> EntryWise(AfterHeader(op, h).pc)
  {
    assert AfterHeader(op, h) == Go(RecvPay(op, h, [])) && (op.Readdir? || op.Ls?) ==> 0 < Following(op, h);
  }

  lemma NextEntry(got: nat, n: nat)
    ensures got % DIRENT_SIZE == 0 && n == got + DIRENT_SIZE ==> n % DIRENT_SIZE == 0
    ensures got % ENTRY_SIZE == 0 && n == got + ENTRY_SIZE ==> n % ENTRY_SIZE == 0
  {
  }

  lemma PayEntryWise(pc: ClientPc, b: Content)
    requires pc.RecvPay? && (pc.op.Readdir? || pc.op.Ls?) && |b| == ToRecv(pc) && EntryWise(pc) && AfterRecv(pc, b).Go?
    ensures EntryWise(AfterRecv(pc, b).pc)
  {
    NextEntry(|pc.got|, |pc.got + b|);
  }

  lemma RecvEntryWise(pc: ClientPc, b: Content)
    requires Receiving(pc) && |b| == ToRecv(pc) && EntryWise(pc)
    ensures AfterRecv(pc, b).Go? ==> EntryWise(AfterRecv(pc, b).pc)
  {
    match pc
    case RecvRes(op) => HeaderEntryWise(op, DecHdr(op, b));
    case RecvPay(_, _, _) =>
      if !pc.op.Readdir? && !pc.op.Ls? {
        assert |pc.got + b| == Following(pc.op, pc.hdr);
      } else if AfterRecv(pc, b).Go? {
        PayEntryWise(pc, b);
      }
  }

  lemma StepEntryWise(w: World, l: Label)
    requires WorldTyped(w) && Enabled(w, l) && EntryWise(w.pc)
    ensures EntryWise(Step(w, l).pc)
  {
    match l
    case CRecv(ok) =>
      if ok {
        RecvEntryWise(w.pc, w.conns[w.cur.value].s2c[..ToRecv(w.pc)]);
      }
    case CSend(n) => assert AfterSend(w.pc, n).Go? ==> !AfterSend(w.pc, n).pc.RecvPay?;
    case _ =>
  }

  lemma {:induction false} RunEntryWise(fs: Server, ws: seq<World>, ls: seq<Label>)
    requires Run(fs, ws, ls)
    ensures EntryWise(ws[|ls|].pc)
  {
    if ls != [] {
      var n := |ls| - 1;
      RunEntryWise(fs, ws[..n + 1], ls[..n]);
      StepEntryWise(ws[n], ls[n]);
    }
  }

  /** What is left of a listing is a whole number of entries. */
  lemma OneMoreEntry(n: nat, got: nat, size: nat)
    requires size > 0 && got % size == 0 && got < n * size
    ensures got + size <= n * size
  {
    var q := got / size;
    assert got == q * size;
    if q < n {
      TimesUp(q + 1, n, size);
    } else {
      TimesUp(n, q, size);
    }
  }

  lemma TimesUp(a: nat, b: nat, size: nat)
    requires a <= b
    ensures a * size <= b * size
  {
  }

  lemma UnitFits(pc: ClientPc)
    requires pc.RecvPay? && EntryWise(pc)
    ensures |pc.got| + ToRecv(pc) <= Following(pc.op, pc.hdr)
  {
    if pc.op.Readdir? {
      OneMoreEntry(Max(pc.hdr.n, 0), |pc.got|, DIRENT_SIZE);
    } else if pc.op.Ls? {
      OneMoreEntry(Max(pc.hdr.n, 0), |pc.got|, ENTRY_SIZE);
    }
  }

  /** The server thread of a connection has something to do that needs no one else. */
  predicate Ready(c: Conn) {
    || (ServerWants(c.srv).Some? && ServerWants(c.srv).value <= |c.c2s|)
    || ServerSays(c.srv).Some? || c.srv.AtCall? || (c.srv.AtApply? && c.todo != [])
  }

  lemma OneDue(ts: seq<Ticket>)
    requires AllEncodable(ts) && |ts| == 1
    ensures EncAll(ts) == Enc(ts[0].op) && EncAll(ts[1..]) == []
  {
    assert Enc(ts[0].op) + [] == Enc(ts[0].op);
  }

  lemma TwoDue(ts: seq<Ticket>)
    requires AllEncodable(ts) && |ts| == 2
    ensures EncAll(ts) == Enc(ts[0].op) + Enc(ts[1].op) && EncAll(ts[1..]) == Enc(ts[1].op)
  {
    OneDue(ts[1..]);
  }

  /** All that the client has sent of an undecided request, short of its data, is due at the
      server. */
  lemma DueLengths(c: Conn, op: Request)
    requires Framed(c) && Encodable(op) && HasLast(c, op) && c.unsent == Payload(op)
    ensures c.srv.AtType? ==> |c.c2s| >= 4
    ensures c.srv.AtReq? && |c.todo| == 1 ==> |c.c2s| >= ReqLen(c.srv.tag)
    ensures c.srv.AtData? && |c.todo| == 2 ==> |c.c2s| >= c.srv.size
  {
    assert |c.c2s| + |Payload(op)| == |Due(c)|;
    if |c.todo| == 1 {
      OneDue(c.todo);
    } else {
      TwoDue(c.todo);
    }
  }

  lemma HeaderReady(c: Conn, op: Request)
    requires Framed(c) && Live(c, RecvRes(op)) && !c.down && |c.s2c| < HdrLen(op)
    ensures Ready(c)
  {
    if c.ans.None? {
      DueLengths(c, op);
    } else {
      assert |c.s2c| + |c.unsentBack| == HdrLen(op) + |c.ans.value.pay|;
      assert c.unsentBack != [];
    }
  }

  lemma PayloadReady(c: Conn, pc: ClientPc)
    requires Framed(c) && pc.RecvPay? && Live(c, pc) && !c.down && EntryWise(pc) && |c.s2c| < ToRecv(pc)
    ensures Ready(c)
  {
    UnitFits(pc);
    assert |pc.got| + |c.s2c| + |c.unsentBack| == |c.ans.value.pay|;
    assert c.unsentBack != [];
  }

  /** In every reachable world: a client that waits on a connection whose server thread has not
      given up can go on, or that thread can, without anything failing. */
  lemma NoMutualWait(fs: Server, ws: seq<World>, ls: seq<Label>) returns (l: Label)
    requires Run(fs, ws, ls)
    requires var w := ws[|ls|];
             Receiving(w.pc) && w.cur.Some? && w.cur.value < |w.conns| && !w.conns[w.cur.value].down
    ensures var w, i := ws[|ls|], ws[|ls|].cur.value;
            && WorldTyped(w) && Enabled(w, l)
            && (l == CRecv(true) || l == SRecv(i, true) || (l.SCall? && l.i == i)
                || (l.SSend? && l.i == i && l.n == |ServerSays(w.conns[i].srv).value|))
  {
    var w := ws[|ls|];
    var i := w.cur.value;
    var c := w.conns[i];
    RunSafe(fs, ws, ls);
    RunEntryWise(fs, ws, ls);
    assert Safe(fs, w) && ConnOk(w, i);
    if ToRecv(w.pc) <= |c.s2c| {
      return CRecv(true);
    }
    if w.pc.RecvRes? {
      HeaderReady(c, w.pc.op);
    } else {
      PayloadReady(c, w.pc);
    }
    l := if ServerSays(c.srv).Some? then SSend(i, |ServerSays(c.srv).value|)
         else if ServerWants(c.srv).Some? then SRecv(i, true)
         else SCall(i, Fails(EIO));
  }
}
