/** The wire protocol, failures and all, is the link: every run of the step machine tells the
    same story as a list of calls on a `Link.Link`, each with what became of it. */
module WireLink {
  import opened Files
  import opened FileServer
  import opened Codec
  import opened Wire
  import opened WireInvariant
  import opened WireSafety
  import opened WireDelivery
  import opened WireRefinement
  import L = Link

  // What a world still has to carry out.

  /** A ticket that will be carried out, if ever, after its call has returned: an accepted
      write with data, or another request given up. */
  predicate Counts(w: World, t: Ticket) {
    if t.op.Write? then t.op.data != [] && t.id !in w.failed && (w.pc.Idle? || t.id != |w.ops| - 1)
    else t.id in w.failed
  }

  function Due_(w: World, ts: seq<Ticket>): seq<Request> {
    if ts == [] then [] else (if Counts(w, ts[0]) then [ts[0].op] else []) + Due_(w, ts[1..])
  }

  /** Once its file call is made, only the reply is left of a request. */
  function Rest(c: Conn): seq<Ticket> {
    if c.srv.AtRes? || c.srv.AtPay? then Drop(c.todo, 1) else c.todo
  }

  function Line(w: World, i: nat): seq<Request>
    requires i < |w.conns|
  {
    Due_(w, Rest(w.conns[i]))
  }

  function Given(w: World): nat {
    if w.cur.Some? then w.cur.value else |w.conns|
  }

  ghost predicate Same(w: World, l: L.Link) {
    && l.fs == w.fs
    && (w.cur.Some? ==> w.cur.value == |w.conns| - 1)
    && l.flying == (if w.cur.Some? then Line(w, w.cur.value) else [])
    && |l.strays| == Given(w)
    && forall j :: 0 <= j < Given(w) ==> l.strays[j] == Line(w, j)
  }

  // The story of a run.

  /** The finished calls; what the server threads have done since; for a call in progress,
      whether the server has carried it out, and what they have done since then. */
  datatype Story = Story(events: seq<L.Told>, before: seq<L.Act>, own: Option<Outcome>, after: seq<L.Act>)

  function Ended(w: World, m: Move, t: Story): Story
    requires !w.pc.Idle? && w.cur.Some?
  {
    var op, oc := w.pc.op, if t.own.Some? then t.own.value else Complete;
    match m
    case Go(_) => t
    case Finish(_) =>
      Story(t.events + [L.Told(op, L.Net(t.before, L.Up(oc)))], t.after, None, [])
    case Abort =>
      Story(t.events + [L.Told(op, L.Net(t.before, L.Down(true)))],
            if t.own.Some? then [L.Act(w.cur.value, oc)] + t.after else [], None, [])
  }

  function Acted(t: Story, a: L.Act): Story {
    if t.own.None? then t.(before := t.before + [a]) else t.(after := t.after + [a])
  }

  ghost function Told(w: World, l: Label, t: Story): Story
    requires WorldTyped(w) && Enabled(w, l)
  {
    match l
    case Begin(op, connected) =>
      if w.cur.None? && !connected then Story(t.events + [L.Told(op, L.Net(t.before, L.Refused))], [], None, []) else t
    case CSend(n) => Ended(w, AfterSend(w.pc, n), t)
    case CRecv(ok) =>
      Ended(w, if ok then AfterRecv(w.pc, w.conns[w.cur.value].s2c[..ToRecv(w.pc)]) else Abort, t)
    case SCall(i, oc) =>
      if w.cur != Some(i) then Acted(t, L.Act(i, oc))
      else if w.conns[i].srv.AtCall? then t.(own := Some(oc))
      else Acted(t, L.Act(-1, oc))
    case _ => t
  }

  /** The link after a call that got through. */
  function Through(l: L.Link, op: Request, oc: Outcome): L.Link
    requires L.LinkOk(l)
  {
    l.(fs := Serve(l.fs, op, oc).0, open := true, flying := [])
  }

  ghost predicate Present(w: World, t: Story, l: L.Link)
    requires L.LinkOk(l)
  {
    var l1 := L.DoActs(l, t.before);
    if t.own.None? then
      && t.after == [] && Same(w, l1)
      && (!w.pc.Idle? && !w.pc.op.Write? ==> w.cur.Some? && w.cur.value < |w.conns| && w.conns[w.cur.value].ans.None?)
    else
      && !w.pc.Idle? && !w.pc.op.Write? && w.cur.Some? && w.cur.value < |w.conns|
      && l1.flying == [] && Possible(l1.fs, w.pc.op, t.own.value)
      && w.conns[w.cur.value].ans == Some(Serve(l1.fs, w.pc.op, t.own.value).1)
      && (forall k :: 0 <= k < |t.after| ==> 0 <= t.after[k].line < |l1.strays|)
      && Same(w, L.DoActs(Through(l1, w.pc.op, t.own.value), t.after))
  }

  ghost predicate Tells(fs: Server, w: World, t: Story)
    requires WF(fs)
  {
    var (l, rs) := L.Play(fs, t.events);
    && |t.events| <= |w.ops| && (forall k :: 0 <= k < |t.events| ==> t.events[k].op == w.ops[k])
    && rs == w.results
    && (w.pc.Idle? ==> l.open == w.cur.Some?)
    && |l.strays| == Given(w)
    && Present(w, t, l)
  }

  // Lemmas about lines.

  lemma {:induction false} SameDue(w: World, w': World, ts: seq<Ticket>)
    requires forall k :: 0 <= k < |ts| ==> Counts(w, ts[k]) == Counts(w', ts[k])
    ensures Due_(w, ts) == Due_(w', ts)
  {
    if ts != [] {
      forall k | 0 <= k < |ts[1..]| ensures Counts(w, ts[1..][k]) == Counts(w', ts[1..][k]) {
        assert ts[1..][k] == ts[k + 1];
      }
      SameDue(w, w', ts[1..]);
    }
  }

  lemma {:induction false} DueSnoc(w: World, ts: seq<Ticket>, t: Ticket)
    ensures Due_(w, ts + [t]) == Due_(w, ts) + (if Counts(w, t) then [t.op] else [])
  {
    if ts == [] {
      assert ts + [t] == [t];
    } else {
      assert (ts + [t])[1..] == ts[1..] + [t];
      DueSnoc(w, ts[1..], t);
    }
  }

  lemma {:induction false} DoActsStay(l: L.Link, acts: seq<L.Act>)
    requires L.LinkOk(l)
    ensures var l' := L.DoActs(l, acts);
            |l'.strays| == |l.strays| && l'.open == l.open && (l.flying == [] ==> l'.flying == [])
  {
    if acts != [] {
      DoActsStay(l, acts[..|acts| - 1]);
    }
  }

  lemma {:induction false} DoActsCons(l: L.Link, a: L.Act, acts: seq<L.Act>)
    requires L.LinkOk(l)
    ensures L.DoActs(l, [a] + acts) == L.DoActs(L.DoAct(l, a), acts)
    decreases |acts|
  {
    if acts == [] {
      assert [a] + acts == [] + [a];
      L.DoActsNext(l, [], a);
    } else {
      var n := |acts| - 1;
      assert [a] + acts == ([a] + acts[..n]) + [acts[n]];
      L.DoActsNext(l, [a] + acts[..n], acts[n]);
      DoActsCons(l, a, acts[..n]);
    }
  }

  function Padded(l: L.Link): L.Link {
    l.(open := false, strays := l.strays + [[]])
  }

  /** One more line with nothing on it makes no difference to the others. */
  lemma {:induction false} DoActsPadded(l: L.Link, acts: seq<L.Act>)
    requires L.LinkOk(l) && l.flying == []
    requires forall k :: 0 <= k < |acts| ==> 0 <= acts[k].line < |l.strays|
    ensures L.LinkOk(Padded(l)) && L.DoActs(Padded(l), acts) == Padded(L.DoActs(l, acts))
  {
    if acts != [] {
      var n := |acts| - 1;
      DoActsPadded(l, acts[..n]);
      DoActsStay(l, acts[..n]);
      var m := L.DoActs(l, acts[..n]);
      assert L.DoAct(Padded(m), acts[n]) == Padded(L.DoAct(m, acts[n]));
    }
  }

  // Server threads.

  /** A step that changes no line. */
  lemma LinesTell(fs: Server, w: World, w': World, t: Story)
    requires WF(fs) && Tells(fs, w, t)
    requires w'.fs == w.fs && w'.ops == w.ops && w'.results == w.results && w'.cur == w.cur && |w'.conns| == |w.conns|
    requires w'.pc.Idle? == w.pc.Idle? && (!w.pc.Idle? ==> w'.pc.op == w.pc.op)
    requires forall j :: 0 <= j < |w.conns| ==> Line(w', j) == Line(w, j)
    requires w.cur.Some? && w.cur.value < |w.conns| && !w.pc.Idle? && !w.pc.op.Write? ==>
               w'.conns[w.cur.value].ans == w.conns[w.cur.value].ans
    ensures Tells(fs, w', t)
  {
  }

  /** A thread that moves without a file call. */
  lemma QuietTells(fs: Server, w: World, i: nat, d: Conn, log: seq<Entry>, t: Story)
    requires WF(fs) && Tells(fs, w, t) && i < |w.conns|
    requires Due_(w, Rest(d)) == Line(w, i)
    requires w.cur == Some(i) && !w.pc.Idle? && !w.pc.op.Write? ==> d.ans == w.conns[i].ans
    ensures Tells(fs, w.(conns := w.conns[i := d], log := log), t)
  {
    var w' := w.(conns := w.conns[i := d], log := log);
    SameDue(w, w', Rest(d));
    forall j | 0 <= j < |w.conns| ensures Line(w', j) == Line(w, j) {
      SameDue(w, w', Rest(w.conns[j]));
    }
    LinesTell(fs, w, w', t);
  }

  lemma SRecvTells(fs: Server, w: World, i: nat, ok: bool, t: Story)
    requires Safe(fs, w) && Enabled(w, SRecv(i, ok)) && Tells(fs, w, t)
    ensures Tells(fs, Step(w, SRecv(i, ok)), t)
  {
    var c := w.conns[i];
    var d := if ok then ServerTakes(c) else c.(down := true);
    assert ConnOk(w, i);
    if w.cur == Some(i) {
      RecvOutstanding(c, w.pc, ok);
    }
    RecvRest(c, ok);
    QuietTells(fs, w, i, d, w.log, t);
  }

  lemma RecvRest(c: Conn, ok: bool)
    requires ServerWants(c.srv).Some? && (ok ==> ServerWants(c.srv).value <= |c.c2s|)
    ensures Rest(if ok then ServerTakes(c) else c.(down := true)) == Rest(c)
  {
  }

  lemma SendRest(w: World, c: Conn, n: int)
    requires Framed(c) && ServerSays(c.srv).Some? && -1 <= n <= |ServerSays(c.srv).value| && !c.down
    ensures Due_(w, Rest(ServerSends(c, n))) == Due_(w, Rest(c)) && ServerSends(c, n).ans == c.ans
  {
    if c.srv.AtWriteRes? && c.srv.size == 0 {
      EmptyWriteRest(w, c);
    } else {
      assert Rest(ServerSends(c, n)) == Rest(c);
    }
  }

  lemma EmptyWriteRest(w: World, c: Conn)
    requires Framed(c) && c.srv.AtWriteRes? && c.srv.size == 0
    ensures c.todo != [] && Due_(w, c.todo) == Due_(w, c.todo[1..]) && Drop(c.todo, 1) == c.todo[1..]
  {
    assert c.todo[0].op.data == [] && !Counts(w, c.todo[0]);
  }

  lemma SSendTells(fs: Server, w: World, i: nat, n: int, t: Story)
    requires Safe(fs, w) && Enabled(w, SSend(i, n)) && Tells(fs, w, t)
    ensures Tells(fs, Step(w, SSend(i, n)), t)
  {
    assert ConnOk(w, i);
    SendRest(w, w.conns[i], n);
    QuietTells(fs, w, i, ServerSends(w.conns[i], n), Step(w, SSend(i, n)).log, t);
  }

  /** One request of a line carried out: what the others hold is the same ... */
  lemma {:induction false} OthersSame(w: World, i: nat, d: Conn, w': World)
    requires i < |w.conns| && w' == w.(fs := w'.fs, conns := w.conns[i := d], applied := w'.applied, log := w'.log)
    ensures Line(w', i) == Due_(w, Rest(d)) && Given(w') == Given(w)
    ensures forall j | 0 <= j < |w.conns| && j != i :: Line(w', j) == Line(w, j)
  {
    SameDue(w, w', Rest(d));
    forall j | 0 <= j < |w.conns| && j != i ensures Line(w', j) == Line(w, j) {
      SameDue(w, w', Rest(w.conns[j]));
    }
  }

  /** ... and it heads its own. */
  lemma {:induction false} ActSame(w: World, i: nat, d: Conn, op: Request, oc: Outcome, w': World, l: L.Link)
    requires L.LinkOk(l) && Same(w, l) && i < |w.conns| && Possible(w.fs, op, oc) && (op.Write? ==> oc == Complete)
    requires Line(w, i) == [op] + Due_(w, Rest(d))
    requires w' == w.(fs := Serve(w.fs, op, oc).0, conns := w.conns[i := d], applied := w'.applied, log := w'.log)
    ensures Same(w', L.DoAct(l, L.Act(if w.cur == Some(i) then -1 else i, oc)))
  {
    OthersSame(w, i, d, w');
    var rest := Due_(w, Rest(d));
    assert ([op] + rest)[1..] == rest;
    if w.cur == Some(i) {
      assert |l.flying| == 1 && rest == [];
    } else {
      assert l.strays[i] == Line(w, i);
    }
  }

  /** What a file call on line i turns a world into. */
  ghost predicate Carried(w: World, i: nat, d: Conn, op: Request, oc: Outcome, w': World) {
    && WF(w.fs) && i < |w.conns| && Possible(w.fs, op, oc) && (op.Write? ==> oc == Complete)
    && Line(w, i) == [op] + Due_(w, Rest(d)) && (w.cur == Some(i) ==> d.ans == w.conns[i].ans)
    && w' == w.(fs := Serve(w.fs, op, oc).0, conns := w.conns[i := d], applied := w'.applied, log := w'.log)
  }

  lemma ActPresent(w: World, i: nat, d: Conn, op: Request, oc: Outcome, w': World, t: Story, l: L.Link)
    requires L.LinkOk(l) && Present(w, t, l) && Carried(w, i, d, op, oc, w')
    ensures Present(w', Acted(t, L.Act(if w.cur == Some(i) then -1 else i, oc)), l)
  {
    var a := L.Act(if w.cur == Some(i) then -1 else i, oc);
    if t.own.None? {
      L.DoActsNext(l, t.before, a);
      ActSame(w, i, d, op, oc, w', L.DoActs(l, t.before));
    } else {
      ActAfter(w, i, d, op, oc, w', t, l);
    }
  }

  lemma ActAfter(w: World, i: nat, d: Conn, op: Request, oc: Outcome, w': World, t: Story, l: L.Link)
    requires L.LinkOk(l) && Present(w, t, l) && Carried(w, i, d, op, oc, w') && t.own.Some?
    ensures Present(w', Acted(t, L.Act(if w.cur == Some(i) then -1 else i, oc)), l)
  {
    var a := L.Act(if w.cur == Some(i) then -1 else i, oc);
    var l1 := L.DoActs(l, t.before);
    var l2 := Through(l1, w.pc.op, t.own.value);
    DoActsStay(l2, t.after);
    L.DoActsNext(l2, t.after, a);
    var l3 := L.DoActs(l2, t.after);
    ActSame(w, i, d, op, oc, w', l3);
    assert w.cur != Some(i);
  }

  /** ... and its story. */
  lemma ActTells(fs: Server, w: World, i: nat, d: Conn, op: Request, oc: Outcome, w': World, t: Story)
    requires WF(fs) && Tells(fs, w, t) && Carried(w, i, d, op, oc, w')
    ensures Tells(fs, w', Acted(t, L.Act(if w.cur == Some(i) then -1 else i, oc)))
  {
    ActPresent(w, i, d, op, oc, w', t, L.Play(fs, t.events).0);
  }

  lemma DueOne(w: World, t: Ticket, ts: seq<Ticket>)
    ensures Due_(w, [t] + ts) == (if Counts(w, t) then [t.op] else []) + Due_(w, ts)
  {
    assert ([t] + ts)[1..] == ts;
  }

  lemma CarriedApply(fs: Server, w: World, i: nat)
    requires Safe(fs, w) && Enabled(w, SCall(i, Complete)) && w.conns[i].srv.AtApply?
    ensures var c := w.conns[i];
            Carried(w, i, ServerApplied(c), WriteOf(c.srv), Complete, Step(w, SCall(i, Complete)))
  {
    var c := w.conns[i];
    ReachesApply(fs, w, i);
    assert ConnOk(w, i);
    DueOne(w, c.todo[0], c.todo[1..]);
    assert c.todo == [c.todo[0]] + c.todo[1..];
  }

  lemma SApplyTells(fs: Server, w: World, i: nat, t: Story)
    requires Safe(fs, w) && Enabled(w, SCall(i, Complete)) && w.conns[i].srv.AtApply? && Tells(fs, w, t)
    ensures Tells(fs, Step(w, SCall(i, Complete)), Told(w, SCall(i, Complete), t))
  {
    CarriedApply(fs, w, i);
    var c := w.conns[i];
    ActTells(fs, w, i, ServerApplied(c), WriteOf(c.srv), Complete, Step(w, SCall(i, Complete)), t);
  }

  /** A file call is made for the last request of a connection: the one it was abandoned for,
      or that of the call in progress. */
  lemma CallIsLast(fs: Server, w: World, i: nat)
    requires Safe(fs, w) && Delivering(w) && i < |w.conns| && w.conns[i].srv.AtCall? && !w.conns[i].down
    ensures var c := w.conns[i];
            && |c.todo| == 1 && c.todo[0].op == c.srv.op && !c.srv.op.Write?
            && if w.cur == Some(i) then !w.pc.Idle? && c.todo[0].id == |w.ops| - 1 && w.pc.op == c.srv.op && c.ans.None?
               else c.todo[0].id in w.failed
  {
    assert ConnOk(w, i);
    AtCallShape(w.conns[i]);
    assert TicketOk(w, i, 0) && LineOk(w, i);
    if w.cur == Some(i) {
      AtCallAsked(w.conns[i], w.pc);
    }
  }

  lemma AtCallShape(c: Conn)
    requires Framed(c) && c.srv.AtCall? && !c.down
    ensures |c.todo| == 1 && c.todo[0].op == c.srv.op && !c.srv.op.Write?
  {
  }

  lemma AtCallAsked(c: Conn, pc: ClientPc)
    requires Framed(c) && Live(c, pc) && c.srv.AtCall? && !c.down
    ensures !pc.Idle? && pc.op == c.srv.op && c.ans.None?
  {
  }

  lemma CarriedStray(fs: Server, w: World, i: nat, oc: Outcome)
    requires Safe(fs, w) && Delivering(w) && Enabled(w, SCall(i, oc)) && w.conns[i].srv.AtCall? && w.cur != Some(i)
    ensures Carried(w, i, Step(w, SCall(i, oc)).conns[i], w.conns[i].srv.op, oc, Step(w, SCall(i, oc)))
  {
    CallIsLast(fs, w, i);
    DueOne(w, w.conns[i].todo[0], []);
    assert w.conns[i].todo == [w.conns[i].todo[0]] + [];
  }

  lemma SCallStray(fs: Server, w: World, i: nat, oc: Outcome, t: Story)
    requires Safe(fs, w) && Delivering(w) && Enabled(w, SCall(i, oc)) && w.conns[i].srv.AtCall? && w.cur != Some(i)
    requires Tells(fs, w, t)
    ensures Tells(fs, Step(w, SCall(i, oc)), Told(w, SCall(i, oc), t))
  {
    CarriedStray(fs, w, i, oc);
    ActTells(fs, w, i, Step(w, SCall(i, oc)).conns[i], w.conns[i].srv.op, oc, Step(w, SCall(i, oc)), t);
  }

  /** The file call of the call in progress. */
  lemma OwnSame(w: World, i: nat, oc: Outcome, r: Reply, l: L.Link)
    requires L.LinkOk(l) && Same(w, l) && w.cur == Some(i) && i < |w.conns| && w.conns[i].srv.AtCall?
    requires !w.pc.Idle? && w.pc.op == w.conns[i].srv.op && |w.conns[i].todo| == 1 && Line(w, i) == []
    ensures l.flying == []
    ensures Same(w.(fs := Serve(w.fs, w.pc.op, oc).0, conns := w.conns[i := ServerAnswers(w.conns[i], r)],
                    log := w.log + [Entry(w.pc.op, oc)]), Through(l, w.pc.op, oc))
  {
    var w' := w.(fs := Serve(w.fs, w.pc.op, oc).0, conns := w.conns[i := ServerAnswers(w.conns[i], r)],
                 log := w.log + [Entry(w.pc.op, oc)]);
    assert Rest(w'.conns[i]) == [];
    forall j | 0 <= j < |w.conns| && j != i ensures Line(w', j) == Line(w, j) {
      SameDue(w, w', Rest(w.conns[j]));
    }
  }

  lemma OwnLine(fs: Server, w: World, i: nat)
    requires Safe(fs, w) && Delivering(w) && i < |w.conns| && w.conns[i].srv.AtCall? && !w.conns[i].down && w.cur == Some(i)
    ensures Line(w, i) == []
  {
    CallIsLast(fs, w, i);
    var c := w.conns[i];
    DueOne(w, c.todo[0], []);
    assert c.todo == [c.todo[0]] + [];
    assert TicketOk(w, i, 0) by {
      assert ConnOk(w, i);
    }
  }

  lemma OwnPresent(w: World, i: nat, oc: Outcome, t: Story, l: L.Link)
    requires L.LinkOk(l) && Present(w, t, l) && WorldTyped(w) && Enabled(w, SCall(i, oc))
    requires w.conns[i].srv.AtCall? && w.cur == Some(i)
    requires !w.pc.Idle? && !w.pc.op.Write? && w.pc.op == w.conns[i].srv.op && w.conns[i].ans.None?
    requires |w.conns[i].todo| == 1 && Line(w, i) == []
    ensures Present(Step(w, SCall(i, oc)), Told(w, SCall(i, oc), t), l)
  {
    OwnSame(w, i, oc, Serve(w.fs, w.pc.op, oc).1, L.DoActs(l, t.before));
  }

  lemma SCallOwn(fs: Server, w: World, i: nat, oc: Outcome, t: Story)
    requires Safe(fs, w) && Delivering(w) && Enabled(w, SCall(i, oc)) && w.conns[i].srv.AtCall? && w.cur == Some(i)
    requires Tells(fs, w, t)
    ensures Tells(fs, Step(w, SCall(i, oc)), Told(w, SCall(i, oc), t))
  {
    CallIsLast(fs, w, i);
    OwnLine(fs, w, i);
    OwnPresent(w, i, oc, t, L.Play(fs, t.events).0);
  }

  // The client.

  /** The client's connection after a send or a receive: the server's side of it is as it was. */
  ghost predicate ClientSide(c: Conn, d: Conn) {
    d.todo == c.todo && d.srv == c.srv && d.ans == c.ans
  }

  /** What happens to the call in progress is of no concern to the other lines. */
  lemma {:induction false} OtherLines(fs: Server, w: World, w': World)
    requires Safe(fs, w) && !w.pc.Idle? && w'.ops == w.ops && |w'.conns| == |w.conns|
    requires forall j :: 0 <= j < |w.conns| && w.cur != Some(j) ==> w'.conns[j] == w.conns[j]
    requires forall x :: x in w'.failed <==> x in w.failed || (x == |w.ops| - 1 && x in w'.failed)
    ensures forall j :: 0 <= j < |w.conns| && w.cur != Some(j) ==> Line(w', j) == Line(w, j)
  {
    forall j | 0 <= j < |w.conns| && w.cur != Some(j) ensures Line(w', j) == Line(w, j) {
      assert ConnOk(w, j);
      OtherLine(w, w', j);
    }
  }

  lemma {:induction false} OtherLine(w: World, w': World, j: nat)
    requires BookOk(w) && !w.pc.Idle? && w'.ops == w.ops && j < |w.conns| == |w'.conns| && w'.conns[j] == w.conns[j]
    requires ConnOk(w, j) && w.cur != Some(j)
    requires forall x :: x in w'.failed <==> x in w.failed || (x == |w.ops| - 1 && x in w'.failed)
    ensures Line(w', j) == Line(w, j)
  {
    forall k | 0 <= k < |w.conns[j].todo| ensures Counts(w, w.conns[j].todo[k]) == Counts(w', w.conns[j].todo[k]) {
      assert TicketOk(w, j, k);
    }
    assert forall k :: 0 <= k < |Rest(w.conns[j])| ==> Rest(w.conns[j])[k] in w.conns[j].todo;
    SameDue(w, w', Rest(w.conns[j]));
  }

  lemma GoTells(fs: Server, w: World, d: Conn, next: ClientPc, t: Story)
    requires Safe(fs, w) && !w.pc.Idle? && Tells(fs, w, t) && !next.Idle? && next.op == w.pc.op
    requires ClientSide(w.conns[w.cur.value], d)
    ensures Tells(fs, w.(conns := w.conns[w.cur.value := d], pc := next), t)
  {
    var w' := w.(conns := w.conns[w.cur.value := d], pc := next);
    forall j | 0 <= j < |w.conns| ensures Line(w', j) == Line(w, j) {
      SameDue(w, w', Rest(w.conns[j]));
    }
    LinesTell(fs, w, w', t);
  }

  /** A call that is answered: its reply was computed on the link with nothing flying. */
  lemma AnswerPresent(fs: Server, w: World, d: Conn, res: Result, t: Story, l: L.Link)
    requires Safe(fs, w) && !w.pc.Idle? && !w.pc.op.Write? && L.LinkOk(l) && Present(w, t, l)
    requires ClientSide(w.conns[w.cur.value], d) && d.ans.Some?
    ensures t.own.Some?
    ensures var w' := w.(conns := w.conns[w.cur.value := d], pc := Idle, results := w.results + [res]);
            var (l', r) := L.Call(l, L.Net(t.before, L.Up(t.own.value)), w.pc.op);
            && Present(w', Story(t.events, t.after, None, []), l')
            && r == Outward(w.pc.op, d.ans.value) && l'.open
  {
    var w' := w.(conns := w.conns[w.cur.value := d], pc := Idle, results := w.results + [res]);
    OtherLines(fs, w, w');
    CurLine(fs, w, w', d);
    var l1 := L.DoActs(l, t.before);
    assert L.View(l1) == l1.fs;
  }

  /** The client's own line, once its call is over, for anything but an accepted write. */
  lemma CurLine(fs: Server, w: World, w': World, d: Conn)
    requires Safe(fs, w) && !w.pc.Idle? && !w.pc.op.Write? && ClientSide(w.conns[w.cur.value], d)
    requires w'.failed == w.failed && w'.ops == w.ops && w'.pc.Idle?
    ensures Due_(w', Rest(d)) == Line(w, w.cur.value)
  {
    var i := w.cur.value;
    assert ConnOk(w, i);
    forall k | 0 <= k < |d.todo| ensures Counts(w', d.todo[k]) == Counts(w, d.todo[k]) {
      assert TicketOk(w, i, k);
    }
    assert forall k :: 0 <= k < |Rest(d)| ==> Rest(d)[k] in d.todo;
    SameDue(w, w', Rest(d));
  }

  /** The story with one more call in it. */
  lemma {:induction false} TellsNext(fs: Server, w: World, t: Story, e: L.Told, w': World, t': Story)
    requires WF(fs) && Tells(fs, w, t) && |w.results| < |w.ops| && e.op == w.ops[|w.results|]
    requires w'.ops == w.ops && t'.events == t.events + [e] && w'.pc.Idle?
    requires var (l', r) := L.Call(L.Play(fs, t.events).0, e.net, e.op);
             && w'.results == w.results + [r]
             && l'.open == w'.cur.Some? && |l'.strays| == Given(w') && Present(w', t', l')
    ensures Tells(fs, w', t')
  {
    L.PlayNext(fs, t.events, e);
    var n := |t.events|;
    assert n == |w.results|;
    forall k | 0 <= k <= n ensures t'.events[k].op == w'.ops[k] {
      assert k < n ==> t'.events[k] == t.events[k];
    }
  }

  lemma AnswerTells(fs: Server, w: World, d: Conn, res: Result, t: Story)
    requires Safe(fs, w) && !w.pc.Idle? && !w.pc.op.Write? && Tells(fs, w, t)
    requires ClientSide(w.conns[w.cur.value], d) && d.ans.Some? && res == Outward(w.pc.op, d.ans.value)
    ensures var w' := w.(conns := w.conns[w.cur.value := d], pc := Idle, results := w.results + [res]);
            Tells(fs, w', Ended(w, Finish(res), t))
  {
    var l := L.Play(fs, t.events).0;
    AnswerPresent(fs, w, d, res, t, l);
    var net := L.Net(t.before, L.Up(t.own.value));
    DoActsStay(l, t.before);
    var w' := w.(conns := w.conns[w.cur.value := d], pc := Idle, results := w.results + [res]);
    TellsNext(fs, w, t, L.Told(w.pc.op, net), w', Ended(w, Finish(res), t));
  }

  /** A write whose data is accepted is the only request its connection holds. */
  lemma AcceptedLine(fs: Server, w: World, d: Conn, w': World)
    requires Safe(fs, w) && Delivering(w) && w.pc.SendPay? && w.pc.op.Write? && ClientSide(w.conns[w.cur.value], d)
    requires w'.failed == w.failed && w'.ops == w.ops && w'.pc.Idle?
    ensures Line(w, w.cur.value) == []
    ensures Due_(w', Rest(d)) == if w.pc.op.data == [] then [] else [w.pc.op]
  {
    var i, op := w.cur.value, w.pc.op;
    var c := w.conns[i];
    assert ConnOk(w, i) && LineOk(w, i);
    if c.todo != [] {
      assert TicketOk(w, i, 0);
      DueOne(w, c.todo[0], []);
      DueOne(w', c.todo[0], []);
      assert c.todo == [c.todo[0]] + [];
      assert !c.srv.AtRes? && !c.srv.AtPay?;
    } else {
      assert c.c2s + c.unsent == [];
      assert |c.unsent| == 0;
    }
  }

  lemma WritePresent(fs: Server, w: World, d: Conn, res: Result, t: Story, l: L.Link)
    requires Safe(fs, w) && Delivering(w) && w.pc.SendPay? && L.LinkOk(l) && Present(w, t, l)
    requires ClientSide(w.conns[w.cur.value], d) && w.pc.op.Write?
    ensures t.own.None?
    ensures var w' := w.(conns := w.conns[w.cur.value := d], pc := Idle, results := w.results + [res]);
            var (l', r) := L.Call(l, L.Net(t.before, L.Up(Complete)), w.pc.op);
            Present(w', Story(t.events, [], None, []), l') && r == Result(|w.pc.op.data|, []) && l'.open
  {
    var w' := w.(conns := w.conns[w.cur.value := d], pc := Idle, results := w.results + [res]);
    OtherLines(fs, w, w');
    AcceptedLine(fs, w, d, w');
    var l1 := L.DoActs(l, t.before);
    assert L.View(l1) == l1.fs;
  }

  lemma WriteTells(fs: Server, w: World, d: Conn, res: Result, t: Story)
    requires Safe(fs, w) && Delivering(w) && w.pc.SendPay? && w.pc.op.Write? && Tells(fs, w, t)
    requires ClientSide(w.conns[w.cur.value], d) && res == Result(|w.pc.op.data|, [])
    ensures var w' := w.(conns := w.conns[w.cur.value := d], pc := Idle, results := w.results + [res]);
            Tells(fs, w', Ended(w, Finish(res), t))
  {
    var l := L.Play(fs, t.events).0;
    WritePresent(fs, w, d, res, t, l);
    DoActsStay(l, t.before);
    var w' := w.(conns := w.conns[w.cur.value := d], pc := Idle, results := w.results + [res]);
    TellsNext(fs, w, t, L.Told(w.pc.op, L.Net(t.before, L.Up(Complete))), w', Ended(w, Finish(res), t));
  }

  // Giving up.

  function GivenUp(w: World, d: Conn): World
    requires w.cur.Some? && w.cur.value < |w.conns|
  {
    CloseSocket(w.(conns := w.conns[w.cur.value := d]))
  }

  /** Before the file call the request is the last its connection holds. */
  lemma PendingRest(c: Conn, pc: ClientPc)
    requires Framed(c) && Live(c, pc) && !pc.Idle? && (!pc.op.Write? ==> c.ans.None?)
    ensures !pc.op.Write? ==> Rest(c) != []
    ensures Rest(c) != [] ==> c.todo != [] && Rest(c)[|Rest(c)| - 1] == c.todo[|c.todo| - 1]
    ensures |Rest(c)| <= 1 || (|c.todo| == 2 && Rest(c) == c.todo)
  {
  }

  /** The oldest and the newest ticket of the connection in use. */
  lemma LastTicket(fs: Server, w: World)
    requires Safe(fs, w) && Delivering(w) && !w.pc.Idle?
    ensures var ts := w.conns[w.cur.value].todo;
            && |ts| <= 2 && (ts != [] ==> ts[|ts| - 1].id == |w.ops| - 1 && ts[|ts| - 1].op == w.pc.op)
            && (|ts| == 2 ==> ts[0].id < |w.ops| - 1)
    ensures Framed(w.conns[w.cur.value]) && Live(w.conns[w.cur.value], w.pc)
  {
    var i := w.cur.value;
    assert ConnOk(w, i) && LineOk(w, i);
    if w.conns[i].todo != [] {
      assert TicketOk(w, i, |w.conns[i].todo| - 1);
    }
  }

  lemma UnansweredRest(fs: Server, w: World, d: Conn)
    requires Safe(fs, w) && Delivering(w) && !w.pc.Idle? && ClientSide(w.conns[w.cur.value], d)
    requires !w.pc.op.Write? ==> d.ans.None?
    ensures !w.pc.op.Write? ==> Rest(d) != []
    ensures var ts := Rest(d);
            && (ts != [] ==> ts[|ts| - 1].id == |w.ops| - 1 && ts[|ts| - 1].op == w.pc.op)
            && forall k :: 0 <= k < |ts| - 1 ==> ts[k].id < |w.ops| - 1
  {
    LastTicket(fs, w);
    PendingRest(w.conns[w.cur.value], w.pc);
  }

  lemma UnansweredLine(fs: Server, w: World, d: Conn)
    requires Safe(fs, w) && Delivering(w) && !w.pc.Idle? && ClientSide(w.conns[w.cur.value], d)
    requires !w.pc.op.Write? ==> d.ans.None?
    ensures Due_(GivenUp(w, d), Rest(d)) == Line(w, w.cur.value) + (if w.pc.op.Write? then [] else [w.pc.op])
  {
    UnansweredRest(fs, w, d);
    LastGivenUp(w, GivenUp(w, d), Rest(d), w.pc.op);
  }

  /** The same as a fact about tickets. */
  lemma LastGivenUp(w: World, w': World, ts: seq<Ticket>, op: Request)
    requires !w.pc.Idle? && w.ops != [] && w'.pc.Idle? && w'.failed == w.failed + {|w.ops| - 1} && |w.ops| - 1 !in w.failed
    requires ts == [] ==> op.Write?
    requires ts != [] ==> ts[|ts| - 1].id == |w.ops| - 1 && ts[|ts| - 1].op == op
    requires forall k :: 0 <= k < |ts| - 1 ==> ts[k].id < |w.ops| - 1
    ensures Due_(w', ts) == Due_(w, ts) + (if op.Write? then [] else [op])
  {
    if ts != [] {
      var n := |ts| - 1;
      assert ts == ts[..n] + [ts[n]];
      DueSnoc(w, ts[..n], ts[n]);
      DueSnoc(w', ts[..n], ts[n]);
      SameDue(w, w', ts[..n]);
    }
  }

  lemma UnansweredPresent(fs: Server, w: World, d: Conn, t: Story, l: L.Link)
    requires Safe(fs, w) && Delivering(w) && !w.pc.Idle? && L.LinkOk(l) && Present(w, t, l) && t.own.None?
    requires ClientSide(w.conns[w.cur.value], d) && |l.strays| == w.cur.value
    ensures var l' := L.Call(l, L.Net(t.before, L.Down(true)), w.pc.op).0;
            Present(GivenUp(w, d), Story(t.events, [], None, []), l') && !l'.open && |l'.strays| == |w.conns|
  {
    OtherLines(fs, w, GivenUp(w, d));
    UnansweredLine(fs, w, d);
    DoActsStay(l, t.before);
    GivenUpSame(w, d, L.DoActs(l, t.before), w.pc.op);
  }

  lemma GivenUpSame(w: World, d: Conn, l: L.Link, op: Request)
    requires L.LinkOk(l) && Same(w, l) && w.cur.Some? && w.cur.value < |w.conns|
    requires Due_(GivenUp(w, d), Rest(d)) == Line(w, w.cur.value) + (if op.Write? then [] else [op])
    requires forall j :: 0 <= j < |w.conns| && w.cur != Some(j) ==> Line(GivenUp(w, d), j) == Line(w, j)
    ensures Same(GivenUp(w, d), L.Abandoned(l, op, true))
  {
  }

  /** After the file call: nothing but the reply is left. */
  lemma AnsweredRest(fs: Server, w: World, d: Conn)
    requires Safe(fs, w) && !w.pc.Idle? && !w.pc.op.Write? && ClientSide(w.conns[w.cur.value], d) && d.ans.Some?
    ensures Rest(d) == []
  {
    assert ConnOk(w, w.cur.value);
    RepliedRest(w.conns[w.cur.value], w.pc);
  }

  lemma RepliedRest(c: Conn, pc: ClientPc)
    requires Framed(c) && Live(c, pc) && !pc.Idle? && !pc.op.Write? && c.ans.Some?
    ensures Rest(c) == []
  {
  }

  /** A request carried out whose reply is given up with the connection: its act comes first
      on the abandoned line, and leaves that line empty. */
  lemma {:induction false} AnsweredLink(l1: L.Link, op: Request, oc: Outcome, after: seq<L.Act>)
    requires L.LinkOk(l1) && l1.flying == [] && !op.Write? && Possible(l1.fs, op, oc)
    requires forall k :: 0 <= k < |after| ==> 0 <= after[k].line < |l1.strays|
    ensures L.DoActs(L.Abandoned(l1, op, true), [L.Act(|l1.strays|, oc)] + after) == Padded(L.DoActs(Through(l1, op, oc), after))
  {
    var l', a, l2 := L.Abandoned(l1, op, true), L.Act(|l1.strays|, oc), Through(l1, op, oc);
    assert [] + [op] == [op];
    assert l'.strays == l1.strays + [[op]];
    assert (l1.strays + [[op]])[|l1.strays| := []] == l1.strays + [[]];
    assert [op][1..] == [];
    assert L.DoAct(l', a) == Padded(l2);
    DoActsCons(l', a, after);
    DoActsPadded(l2, after);
  }

  lemma PaddedSame(w: World, w': World, l: L.Link)
    requires Same(w, l) && w.cur.Some? && w.cur.value < |w.conns| && l.flying == []
    requires w'.fs == w.fs && w'.cur.None? && |w'.conns| == |w.conns| && Line(w', w.cur.value) == []
    requires forall j :: 0 <= j < |w.conns| && w.cur != Some(j) ==> Line(w', j) == Line(w, j)
    ensures Same(w', Padded(l))
  {
  }

  lemma AnsweredPresent(fs: Server, w: World, d: Conn, t: Story, l: L.Link)
    requires Safe(fs, w) && !w.pc.Idle? && L.LinkOk(l) && Present(w, t, l) && t.own.Some?
    requires ClientSide(w.conns[w.cur.value], d) && |l.strays| == w.cur.value
    ensures var l' := L.Call(l, L.Net(t.before, L.Down(true)), w.pc.op).0;
            && Present(GivenUp(w, d), Story(t.events, [L.Act(w.cur.value, t.own.value)] + t.after, None, []), l')
            && !l'.open && |l'.strays| == |w.conns|
  {
    var op, oc := w.pc.op, t.own.value;
    OtherLines(fs, w, GivenUp(w, d));
    AnsweredRest(fs, w, d);
    DoActsStay(l, t.before);
    var l1 := L.DoActs(l, t.before);
    AnsweredLink(l1, op, oc, t.after);
    DoActsStay(Through(l1, op, oc), t.after);
    PaddedSame(w, GivenUp(w, d), L.DoActs(Through(l1, op, oc), t.after));
  }

  lemma AbortTells(fs: Server, w: World, d: Conn, t: Story)
    requires Safe(fs, w) && Delivering(w) && !w.pc.Idle? && Tells(fs, w, t) && ClientSide(w.conns[w.cur.value], d)
    ensures Tells(fs, GivenUp(w, d), Ended(w, Abort, t))
  {
    var l := L.Play(fs, t.events).0;
    if t.own.None? {
      UnansweredPresent(fs, w, d, t, l);
    } else {
      AnsweredPresent(fs, w, d, t, l);
    }
    TellsNext(fs, w, t, L.Told(w.pc.op, L.Net(t.before, L.Down(true))), GivenUp(w, d), Ended(w, Abort, t));
  }

  lemma RefusedLines(fs: Server, w: World, op: Request)
    requires Safe(fs, w) && w.cur.None? && Enabled(w, Begin(op, false))
    ensures forall j :: 0 <= j < |w.conns| ==> Line(Step(w, Begin(op, false)), j) == Line(w, j)
  {
    var w' := Step(w, Begin(op, false));
    forall j | 0 <= j < |w.conns| ensures Line(w', j) == Line(w, j) {
      assert ConnOk(w, j);
      forall k | 0 <= k < |w.conns[j].todo| ensures Counts(w, w.conns[j].todo[k]) == Counts(w', w.conns[j].todo[k]) {
        assert TicketOk(w, j, k);
      }
      assert forall k :: 0 <= k < |Rest(w.conns[j])| ==> Rest(w.conns[j])[k] in w.conns[j].todo;
      SameDue(w, w', Rest(w.conns[j]));
    }
  }

  lemma ConnectFailsTells(fs: Server, w: World, op: Request, t: Story)
    requires Safe(fs, w) && Tells(fs, w, t) && w.cur.None? && Enabled(w, Begin(op, false))
    ensures Tells(fs, Step(w, Begin(op, false)), Told(w, Begin(op, false), t))
  {
    var e := L.Told(op, L.Net(t.before, L.Refused));
    L.PlayNext(fs, t.events, e);
    DoActsStay(L.Play(fs, t.events).0, t.before);
    RefusedLines(fs, w, op);
    assert Same(Step(w, Begin(op, false)), L.DoActs(L.Play(fs, t.events).0, t.before));
  }

  /** A new connection has nothing on its line yet. */
  lemma ConnectTells(fs: Server, w: World, t: Story)
    requires Safe(fs, w) && Tells(fs, w, t) && w.pc.Idle? && w.cur.None?
    ensures var v := Connected(w);
            var (l, rs) := L.Play(fs, t.events);
            && |l.strays| == Given(v) && Same(v, L.DoActs(l, t.before))
  {
    var v := Connected(w);
    forall j | 0 <= j < |w.conns| ensures Line(v, j) == Line(w, j) {
      SameDue(w, v, Rest(w.conns[j]));
    }
  }

  /** Nor does a request that has just begun count on any line. */
  lemma BegunSame(fs: Server, v: World, op: Request, l: L.Link)
    requires Safe(fs, v) && v.pc.Idle? && v.cur.Some? && Encodable(op) && Same(v, l)
    ensures Same(Step(v, Begin(op, true)), l)
  {
    var w', i, t := Step(v, Begin(op, true)), v.cur.value, Ticket(|v.ops|, op);
    TicketsKnown(fs, v);
    assert forall j, k :: 0 <= j < |v.conns| && 0 <= k < |Rest(v.conns[j])| ==> Rest(v.conns[j])[k] in v.conns[j].todo;
    forall j | 0 <= j < |v.conns| ensures Line(w', j) == Line(v, j) {
      SameDue(v, w', Rest(v.conns[j]));
      if j == i {
        BegunRest(fs, v, t);
        DueSnoc(w', Rest(v.conns[i]), t);
        assert !Counts(w', t);
      }
    }
  }

  lemma BegunRest(fs: Server, v: World, t: Ticket)
    requires Safe(fs, v) && v.cur.Some? && Encodable(t.op)
    ensures Rest(BeginOn(v.conns[v.cur.value], t)) == Rest(v.conns[v.cur.value]) + [t]
  {
    assert ConnOk(v, v.cur.value);
  }

  lemma BeginTells(fs: Server, w: World, op: Request, connected: bool, t: Story)
    requires Safe(fs, w) && Tells(fs, w, t) && Enabled(w, Begin(op, connected)) && (w.cur.Some? || connected)
    ensures Tells(fs, Step(w, Begin(op, connected)), t)
  {
    var v := Connected(w);
    ConnectSafe(fs, w);
    if w.cur.None? {
      ConnectTells(fs, w, t);
    }
    BegunSame(fs, v, op, L.DoActs(L.Play(fs, t.events).0, t.before));
    assert Step(w, Begin(op, connected)) == Step(v, Begin(op, true));
  }

  // Whole runs.

  lemma MoveTells(fs: Server, w: World, d: Conn, m: Move, t: Story)
    requires Safe(fs, w) && Delivering(w) && !w.pc.Idle? && Tells(fs, w, t) && ClientSide(w.conns[w.cur.value], d)
    requires m.Go? ==> !m.pc.Idle? && m.pc.op == w.pc.op
    requires m.Finish? ==>
               if w.pc.op.Write? then w.pc.SendPay? && m.res == Result(|w.pc.op.data|, [])
               else d.ans.Some? && m.res == Outward(w.pc.op, d.ans.value)
    ensures Tells(fs, Follow(w.(conns := w.conns[w.cur.value := d]), m), Ended(w, m, t))
  {
    match m
    case Go(next) => GoTells(fs, w, d, next, t);
    case Finish(res) =>
      if w.pc.op.Write? {
        WriteTells(fs, w, d, res, t);
      } else {
        AnswerTells(fs, w, d, res, t);
      }
    case Abort => AbortTells(fs, w, d, t);
  }

  lemma CSendTells(fs: Server, w: World, n: int, t: Story)
    requires Safe(fs, w) && Delivering(w) && Enabled(w, CSend(n)) && Tells(fs, w, t)
    ensures Tells(fs, Step(w, CSend(n)), Told(w, CSend(n), t))
  {
    assert ConnOk(w, w.cur.value);
    MoveTells(fs, w, ClientSends(w.conns[w.cur.value], ToSend(w.pc), n), AfterSend(w.pc, n), t);
  }

  lemma ReplyTells(c: Conn, pc: ClientPc)
    requires Framed(c) && Live(c, pc) && Receiving(pc) && ToRecv(pc) <= |c.s2c|
    ensures var m := AfterRecv(pc, c.s2c[..ToRecv(pc)]);
            && (m.Go? ==> !m.pc.Idle? && m.pc.op == pc.op)
            && (m.Finish? ==> !pc.op.Write? && c.ans.Some? && m.res == Outward(pc.op, c.ans.value))
  {
    match pc {
      case RecvRes(op) => RecvResKeeps(c, op);
      case RecvPay(_, _, _) => RecvPayKeeps(c, pc);
    }
  }

  lemma CRecvTells(fs: Server, w: World, t: Story)
    requires Safe(fs, w) && Delivering(w) && Enabled(w, CRecv(true)) && Tells(fs, w, t)
    ensures Tells(fs, Step(w, CRecv(true)), Told(w, CRecv(true), t))
  {
    var c := w.conns[w.cur.value];
    assert ConnOk(w, w.cur.value);
    ReplyTells(c, w.pc);
    MoveTells(fs, w, ClientTakes(c, ToRecv(w.pc)), AfterRecv(w.pc, c.s2c[..ToRecv(w.pc)]), t);
  }

  lemma CRecvFailsTells(fs: Server, w: World, t: Story)
    requires Safe(fs, w) && Delivering(w) && Enabled(w, CRecv(false)) && Tells(fs, w, t)
    ensures Tells(fs, Step(w, CRecv(false)), Told(w, CRecv(false), t))
  {
    assert w.conns[w.cur.value := w.conns[w.cur.value]] == w.conns;
    AbortTells(fs, w, w.conns[w.cur.value], t);
  }

  /** The server's own writes store all they are given. */
  predicate Whole(w: World, l: Label) {
    l.SCall? && l.i < |w.conns| && w.conns[l.i].srv.AtApply? ==> l.oc == Complete
  }

  lemma StepTells(fs: Server, w: World, l: Label, t: Story)
    requires Safe(fs, w) && Delivering(w) && Enabled(w, l) && Whole(w, l) && Tells(fs, w, t)
    ensures Tells(fs, Step(w, l), Told(w, l, t))
  {
    match l
    case Begin(op, connected) =>
      if w.cur.None? && !connected {
        ConnectFailsTells(fs, w, op, t);
      } else {
        BeginTells(fs, w, op, connected, t);
      }
    case CSend(n) => CSendTells(fs, w, n, t);
    case CRecv(ok) =>
      if ok {
        CRecvTells(fs, w, t);
      } else {
        CRecvFailsTells(fs, w, t);
      }
    case SRecv(i, ok) => SRecvTells(fs, w, i, ok, t);
    case SSend(i, n) => SSendTells(fs, w, i, n, t);
    case SCall(i, oc) =>
      if w.conns[i].srv.AtApply? {
        SApplyTells(fs, w, i, t);
      } else if w.cur == Some(i) {
        SCallOwn(fs, w, i, oc, t);
      } else {
        SCallStray(fs, w, i, oc, t);
      }
  }

  ghost function StoryOf(ws: seq<World>, ls: seq<Label>): Story
    requires |ws| == |ls| + 1
    requires forall k :: 0 <= k < |ls| ==> WorldTyped(ws[k]) && Enabled(ws[k], ls[k])
  {
    if ls == [] then Story([], [], None, [])
    else Told(ws[|ls| - 1], ls[|ls| - 1], StoryOf(ws[..|ls|], ls[..|ls| - 1]))
  }

  ghost predicate WholeRun(ws: seq<World>, ls: seq<Label>)
    requires |ws| == |ls| + 1
  {
    forall k :: 0 <= k < |ls| ==> Whole(ws[k], ls[k])
  }

  lemma InitTells(fs: Server)
    requires WF(fs)
    ensures Tells(fs, Init(fs), Story([], [], None, []))
  {
  }

  lemma {:induction false} NextTells(fs: Server, ws: seq<World>, ls: seq<Label>)
    requires Run(fs, ws, ls) && WholeRun(ws, ls) && ls != []
    requires Tells(fs, ws[|ls| - 1], StoryOf(ws[..|ls|], ls[..|ls| - 1]))
    ensures Tells(fs, ws[|ls|], StoryOf(ws, ls))
  {
    var n := |ls| - 1;
    RunSafe(fs, ws, ls);
    RunDelivers(fs, ws, ls);
    assert Safe(fs, ws[n]) && Delivering(ws[n]) && Whole(ws[n], ls[n]);
    StepTells(fs, ws[n], ls[n], StoryOf(ws[..n + 1], ls[..n]));
  }

  lemma {:induction false} RunTells(fs: Server, ws: seq<World>, ls: seq<Label>)
    requires Run(fs, ws, ls) && WholeRun(ws, ls)
    ensures Tells(fs, ws[|ls|], StoryOf(ws, ls))
  {
    if ls == [] {
      InitTells(fs);
    } else {
      var n := |ls| - 1;
      assert Run(fs, ws[..n + 1], ls[..n]) && ws[..n + 1][n] == ws[n];
      RunTells(fs, ws[..n + 1], ls[..n]);
      NextTells(fs, ws, ls);
    }
  }

  /** Every run of the wire protocol, with failures anywhere, short sends and threads of
      abandoned connections still at work, is a series of calls on the link: the same
      operations with the same results, leading to the same files, with the same write
      flying and the same requests left on the abandoned lines. */
  lemma WireIsLink(fs: Server, ws: seq<World>, ls: seq<Label>)
    requires Run(fs, ws, ls) && WholeRun(ws, ls) && ws[|ls|].pc.Idle?
    ensures var w, t := ws[|ls|], StoryOf(ws, ls);
            var (l, rs) := L.Play(fs, t.events);
            && |t.events| == |w.ops| && (forall k :: 0 <= k < |w.ops| ==> t.events[k].op == w.ops[k])
            && rs == w.results
            && Same(w, L.DoActs(l, t.before))
  {
    RunTells(fs, ws, ls);
    RunSafe(fs, ws, ls);
    assert Safe(fs, ws[|ls|]);
  }
}
