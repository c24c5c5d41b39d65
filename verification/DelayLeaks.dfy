/** Descriptors that nobody uses: an open whose reply was lost and which the server carries out
    late leaves one behind. The files converge all the same. */
module DelayLeaks {
  import opened Files
  import opened FileServer
  import opened DelayRemote
  import opened DelayConvergence
  import L = Link
  import DT = DelayTasks

  /** The server without some of its open descriptors. */
  function Trim(s: Server, leaked: set<int>): Server {
    s.(fds := s.fds - leaked)
  }

  predicate Unnamed(op: Request, leaked: set<int>) {
    op.Close? || op.Read? || op.Write? ==> op.fd !in leaked
  }

  ghost predicate AllUnnamed(q: seq<Request>, leaked: set<int>) {
    forall i :: 0 <= i < |q| ==> Unnamed(q[i], leaked)
  }

  lemma ServeTrim(s: Server, op: Request, oc: Outcome, leaked: set<int>)
    requires WF(s) && Unnamed(op, leaked) && (oc.Fd? ==> oc.fd !in leaked)
    ensures WF(Trim(s, leaked))
    ensures Serve(Trim(s, leaked), op, oc) == (Trim(Serve(s, op, oc).0, leaked), Serve(s, op, oc).1)
  {
    if op.Close? && op.fd in s.fds && !oc.Fails? {
      assert s.fds - leaked - {op.fd} == s.fds - {op.fd} - leaked;
    } else if op.Open? && oc.Fd? {
      assert (s.fds - leaked)[oc.fd := op.path] == s.fds[oc.fd := op.path] - leaked;
    }
  }

  lemma {:induction false} ReplayTrim(s: Server, q: seq<Request>, leaked: set<int>)
    requires WF(s) && AllUnnamed(q, leaked)
    ensures WF(Trim(s, leaked)) && Replay(Trim(s, leaked), q) == Trim(Replay(s, q), leaked)
    decreases |q|
  {
    if q != [] {
      assert Unnamed(q[0], leaked);
      ServeTrim(s, q[0], Complete, leaked);
      ReplayTrim(Serve(s, q[0], Complete).0, q[1..], leaked);
    }
  }

  ghost predicate Issued(log: seq<Entry>, leaked: set<int>) {
    forall i :: 0 <= i < |log| ==> Unnamed(log[i].op, leaked) && (log[i].oc.Fd? ==> log[i].oc.fd !in leaked)
  }

  lemma {:induction false} ServeAllTrim(s: Server, log: seq<Entry>, leaked: set<int>)
    requires WF(s) && Issued(log, leaked)
    ensures WF(Trim(s, leaked)) && ServeAll(Trim(s, leaked), log) == Trim(ServeAll(s, log), leaked)
  {
    if log != [] {
      var n := |log| - 1;
      ServeAllTrim(s, log[..n], leaked);
      ServeTrim(ServeAll(s, log[..n]), log[n].op, log[n].oc, leaked);
    }
  }

  // The same for links and for the whole system.

  function TrimLink(l: L.Link, leaked: set<int>): L.Link {
    l.(fs := Trim(l.fs, leaked))
  }

  function Trimmed(s: System, leaked: set<int>): System {
    s.(link := TrimLink(s.link, leaked))
  }

  /** Neither a write in flight nor an abandoned request names such a descriptor. */
  ghost predicate LinkSpares(l: L.Link, leaked: set<int>) {
    && AllUnnamed(l.flying, leaked)
    && forall i :: 0 <= i < |l.strays| ==> AllUnnamed(l.strays[i], leaked)
  }

  lemma ViewTrim(l: L.Link, leaked: set<int>)
    requires L.LinkOk(l) && LinkSpares(l, leaked)
    ensures L.LinkOk(TrimLink(l, leaked)) && L.View(TrimLink(l, leaked)) == Trim(L.View(l), leaked)
  {
    if l.flying != [] {
      assert Unnamed(l.flying[0], leaked);
      ServeTrim(l.fs, l.flying[0], Complete, leaked);
    }
  }

  lemma CallTrim(l: L.Link, op: Request, v: L.Verdict, leaked: set<int>)
    requires L.LinkOk(l) && LinkSpares(l, leaked) && Unnamed(op, leaked)
    requires v.Up? ==> Possible(L.View(l), op, v.oc) && (v.oc.Fd? ==> v.oc.fd !in leaked)
    ensures L.LinkOk(TrimLink(l, leaked))
    ensures L.Call(TrimLink(l, leaked), L.Net([], v), op).0 == TrimLink(L.Call(l, L.Net([], v), op).0, leaked)
    ensures LinkSpares(L.Call(l, L.Net([], v), op).0, leaked)
  {
    ViewTrim(l, leaked);
    if v.Up? {
      ServeTrim(L.View(l), op, L.Chosen(L.View(l), op, v.oc), leaked);
    }
  }

  /** A server thread carries out a request left on an abandoned connection. */
  predicate Strays(s: System, l: Label) {
    l.Late? && 0 <= l.a.line < |s.link.strays| && s.link.strays[l.a.line] != []
  }

  /** ... which is an open that is handed such a descriptor. */
  predicate Leaks(s: System, l: Label, leaked: set<int>) {
    Strays(s, l) && s.link.strays[l.a.line][0].Open? && l.a.oc.Fd? && l.a.oc.fd in leaked
  }

  /** The same, had that open failed. */
  function Quieted(s: System, l: Label, leaked: set<int>): Label {
    if Leaks(s, l, leaked) then Late(L.Act(l.a.line, Fails(EIO))) else l
  }

  /** What is carried out late comes out as the operating system can make it, and leaves such a
      descriptor behind only of a file that exists. */
  predicate LateSpares(s: System, l: Label, leaked: set<int>) {
    Strays(s, l) ==>
      var op := s.link.strays[l.a.line][0];
      && (!op.Write? ==> Possible(s.link.fs, op, l.a.oc))
      && (Leaks(s, l, leaked) ==> op.path in s.link.fs.files)
  }

  lemma LateTrim(s: System, l: Label, leaked: set<int>)
    requires L.LinkOk(s.link) && LinkSpares(s.link, leaked) && l.Late? && LateSpares(s, l, leaked)
    ensures L.LinkOk(TrimLink(s.link, leaked))
    ensures L.DoAct(TrimLink(s.link, leaked), Quieted(s, l, leaked).a) == TrimLink(L.DoAct(s.link, l.a), leaked)
    ensures LinkSpares(L.DoAct(s.link, l.a), leaked)
  {
    var a := l.a;
    if a.line < 0 {
      ViewTrim(s.link, leaked);
    } else if Strays(s, l) {
      var q := s.link.strays[a.line];
      assert AllUnnamed(q, leaked) && Unnamed(q[0], leaked);
      assert AllUnnamed(q[1..], leaked) by {
        assert forall i :: 0 <= i < |q[1..]| ==> q[1..][i] == q[i + 1];
      }
      if Leaks(s, l, leaked) {
        assert s.link.fs.fds[a.oc.fd := q[0].path] - leaked == s.link.fs.fds - leaked;
      } else {
        ServeTrim(s.link.fs, q[0], if q[0].Write? then Complete else a.oc, leaked);
      }
    }
  }

  predicate MayWait(op: Request, leaked: set<int>) {
    Queueable(op) && Unnamed(op, leaked)
  }

  /** Nothing in the manager names one of these descriptors. */
  ghost predicate ManagerSpares(m: DT.Manager<Request>, leaked: set<int>) {
    && (forall i :: 0 <= i < |m.tasks| ==> MayWait(m.tasks[i], leaked))
    && (m.holder.ToPush? ==> MayWait(m.holder.task, leaked))
    && (m.pc.Executing? ==> MayWait(m.pc.task, leaked))
  }

  ghost predicate Spared(s: System, leaked: set<int>) {
    && L.LinkOk(s.link) && LinkSpares(s.link, leaked) && ManagerSpares(s.m, leaked)
    && (s.caller.MustAdd? ==> MayWait(s.caller.op, leaked))
    && Issued(s.issued, leaked)
  }

  /** No call of the client names one of these descriptors or is handed one. */
  ghost predicate Spares(s: System, l: Label, leaked: set<int>) {
    match l
    case Through(op, oc) => Unnamed(op, leaked) && (oc.Fd? ==> oc.fd !in leaked)
    case NetDown(op, _) => Unnamed(op, leaked)
    case Asks(op, _) => Unnamed(op, leaked)
    case GivesUp(op, _) => Unnamed(op, leaked)
    case Late(_) => LateSpares(s, l, leaked)
    case _ => true
  }

  lemma ManagerKeeps(m: DT.Manager<Request>, l: DT.Label<Request>, leaked: set<int>)
    requires ManagerSpares(m, leaked) && DT.Enabled(m, l) && (l.Add? ==> MayWait(l.task, leaked))
    ensures ManagerSpares(DT.Step(m, l), leaked)
  {
    match l
    case Work =>
      if m.pc.Popping? {
        assert forall i :: 0 <= i < |m.tasks[1..]| ==> m.tasks[1..][i] == m.tasks[i + 1];
      }
    case _ =>
  }

  predicate UsesLink(l: Label) {
    l.Through? || l.NetDown? || l.Asks? || l.GivesUp? || l.Executed?
  }

  /** The call on the link that a label makes. */
  function Calls(s: System, l: Label): (Request, L.Verdict)
    requires UsesLink(l) && (l.Executed? ==> s.m.pc.Executing?)
  {
    match l
    case Through(op, oc) => (op, L.Up(oc))
    case NetDown(op, v) => (op, v)
    case Asks(op, oc) => (op, L.Up(oc))
    case GivesUp(op, v) => (op, v)
    case Executed(v) => (s.m.pc.task, v)
  }

  lemma LinkStepTrim(s: System, l: Label, leaked: set<int>)
    requires Spared(s, leaked) && Enabled(s, l) && Spares(s, l, leaked)
    ensures var t := Step(s, l);
            && L.LinkOk(TrimLink(s.link, leaked)) && LinkSpares(t.link, leaked)
            && if l.Late? then TrimLink(t.link, leaked) == L.DoAct(TrimLink(s.link, leaked), Quieted(s, l, leaked).a)
               else if UsesLink(l) then
                 var (op, v) := Calls(s, l);
                 TrimLink(t.link, leaked) == L.Call(TrimLink(s.link, leaked), L.Net([], v), op).0
               else t.link == s.link
  {
    ViewTrim(s.link, leaked);
    if l.Late? {
      LateTrim(s, l, leaked);
    } else if UsesLink(l) {
      var (op, v) := Calls(s, l);
      CallTrim(s.link, op, v, leaked);
    }
  }

  lemma StepSpared(s: System, l: Label, leaked: set<int>)
    requires Spared(s, leaked) && Enabled(s, l) && Spares(s, l, leaked)
    ensures Spared(Step(s, l), leaked)
  {
    LinkStepTrim(s, l, leaked);
    if ManagerLabel(s, l).Some? {
      ManagerKeeps(s.m, ManagerLabel(s, l).value, leaked);
    }
  }

  /** Without these descriptors the step is still a step. */
  lemma StepTrim(s: System, l: Label, leaked: set<int>)
    requires Spared(s, leaked) && Enabled(s, l) && Spares(s, l, leaked)
    ensures Enabled(Trimmed(s, leaked), Quieted(s, l, leaked))
    ensures Step(Trimmed(s, leaked), Quieted(s, l, leaked)) == Trimmed(Step(s, l), leaked)
  {
    LinkStepTrim(s, l, leaked);
    ViewTrim(s.link, leaked);
  }

  /** A step that leaves these descriptors alone and is free of bypass otherwise. */
  ghost predicate LeakingStep(s: System, l: Label, s': System, leaked: set<int>) {
    && Enabled(s, l) && s' == Step(s, l) && L.LinkOk(TrimLink(s.link, leaked)) && Spares(s, l, leaked)
    && NoBypass(Trimmed(s, leaked), Quieted(s, l, leaked))
  }

  /** A run of such steps. */
  ghost predicate LeakingRun(base: Server, ss: seq<System>, ls: seq<Label>, leaked: set<int>) {
    && WF(base) && |ss| == |ls| + 1 && ss[0] == Init(base)
    && forall k :: 0 <= k < |ls| ==> LeakingStep(ss[k], ls[k], ss[k + 1], leaked)
  }

  /** A late open that leaves a descriptor behind is never a bypass. */
  lemma LeakIsNoBypass(s: System, l: Label, leaked: set<int>)
    requires L.LinkOk(TrimLink(s.link, leaked)) && Leaks(s, l, leaked)
    ensures NoBypass(Trimmed(s, leaked), Quieted(s, l, leaked))
  {
  }

  lemma {:induction false} TrimmedConverges(base: Server, ss: seq<System>, ls: seq<Label>, leaked: set<int>)
    requires LeakingRun(base, ss, ls, leaked)
    ensures Spared(ss[|ls|], leaked) && WF(Trim(base, leaked))
    ensures Converging(Trim(base, leaked), Trimmed(ss[|ls|], leaked))
  {
    if ls == [] {
      Empty(Trim(base, leaked));
    } else {
      var n := |ls| - 1;
      assert LeakingRun(base, ss[..n + 1], ls[..n], leaked);
      TrimmedConverges(base, ss[..n + 1], ls[..n], leaked);
      assert LeakingStep(ss[n], ls[n], ss[n + 1], leaked);
      StepTrim(ss[n], ls[n], leaked);
      StepSpared(ss[n], ls[n], leaked);
      StepExact(Trim(base, leaked), Trimmed(ss[n], leaked), Quieted(ss[n], ls[n], leaked));
    }
  }

  /** Convergence of contents: late opens may leave descriptors behind. In every reachable state,
      storing what is in flight and carrying out what waits gives the files of program order,
      and its descriptors but for those that no call names. */
  lemma FilesConverge(base: Server, ss: seq<System>, ls: seq<Label>, leaked: set<int>)
    requires LeakingRun(base, ss, ls, leaked)
    ensures var s := ss[|ls|];
            && L.LinkOk(s.link)
            && var r, meant := Replay(s.link.fs, Outstanding(s.link, Waiting(s))), ServeAll(base, s.issued);
               r.files == meant.files && r.fds - leaked == meant.fds - leaked
  {
    var s := ss[|ls|];
    TrimmedConverges(base, ss, ls, leaked);
    ReplayTrim(s.link.fs, Outstanding(s.link, Waiting(s)), leaked);
    ServeAllTrim(base, s.issued, leaked);
  }

  const BEFORE := Server(map["f" := [1]], map[3 := "f"])
  const AFTER := Server(map["f" := [1]], map[3 := "f", 4 := "f"])
  const LOST := L.Link(BEFORE, false, [], [[Open("f")]])
  const CARRIED := L.Link(AFTER, false, [], [[]])

  lemma OpenLost()
    ensures L.Call(L.Link(BEFORE, false, [], []), L.Net([], L.Down(true)), Open("f")).0 == LOST
    ensures L.LinkOk(TrimLink(LOST, {4})) && L.DoAct(LOST, L.Act(0, Fd(4))) == CARRIED
  {
    var q := [Open("f")];
    assert [] + q == q && [] + [q] == [q] && q[1..] == [];
    assert [q][0 := []] == [[]];
    assert BEFORE.fds[4 := "f"] == AFTER.fds;
  }

  lemma LeakShows(s: System)
    requires s == Init(BEFORE).(link := LOST)
    ensures !NoBypass(s, Late(L.Act(0, Fd(4))))
  {
    OpenLost();
    var q := Outstanding(s.link, Waiting(s));
    assert q == [] && 4 !in Closed(q);
    assert 4 in AFTER.fds - Closed(q) && 4 !in BEFORE.fds - Closed(q);
  }

  lemma OpenGivesUp(s: System)
    requires s == Init(BEFORE)
    ensures LeakingStep(s, GivesUp(Open("f"), L.Down(true)), s.(link := LOST), {4})
  {
    OpenLost();
  }

  lemma OpenLate(s: System)
    requires s == Init(BEFORE).(link := LOST)
    ensures LeakingStep(s, Late(L.Act(0, Fd(4))), s.(link := CARRIED), {4})
  {
    OpenLost();
    var l := Late(L.Act(0, Fd(4)));
    assert s.link.strays[0][0] == Open("f");
    assert Leaks(s, l, {4}) && LateSpares(s, l, {4});
    LeakIsNoBypass(s, l, {4});
  }

  /** Such a run: an open whose reply was lost, carried out late. It keeps the files but not the
      descriptors of program order. */
  lemma LateOpenLeaks() returns (ss: seq<System>, ls: seq<Label>)
    ensures LeakingRun(BEFORE, ss, ls, {4}) && |ls| == 2
    ensures L.LinkOk(ss[1].link) && !NoBypass(ss[1], ls[1])
    ensures ss[2].link.fs == AFTER && ss[2].issued == []
  {
    var s0, l0, l1 := Init(BEFORE), GivesUp(Open("f"), L.Down(true)), Late(L.Act(0, Fd(4)));
    var s1, s2 := s0.(link := LOST), s0.(link := CARRIED);
    ss, ls := [s0, s1, s2], [l0, l1];
    OpenGivesUp(s0);
    OpenLate(s1);
    LeakShows(s1);
    forall k | 0 <= k < |ls| ensures LeakingStep(ss[k], ls[k], ss[k + 1], {4}) {
      assert k == 0 || k == 1;
    }
  }
}
