/** Delayed writes under concurrency: one thread issuing calls, the worker of DelayTasks
    replaying them, stop, and the server threads behind the link. Each step keeps the server
    on the way to what program order asks for exactly under a condition on what it overtakes
    or loses. */
module DelayConvergence {
  import opened Files
  import opened FileServer
  import opened DelayRemote
  import L = Link
  import DT = DelayTasks

  /** Where the issuing thread stands: between calls; told that the network is down and about
      to queue the request; or inside add_task with the request already pushed. */
  datatype Caller = Ready | MustAdd(op: Request) | Pushed

  /** `issued` is history: every call in program order. */
  datatype System = System(m: DT.Manager<Request>, link: L.Link, caller: Caller, issued: seq<Entry>)

  function Init(s: Server): System {
    System(DT.Init(), L.Link(s, false, [], []), Ready, [])
  }

  datatype Label =
    | Through(op: Request, oc: Outcome)       // a call of the issuing thread gets through
    | NetDown(op: Request, v: L.Verdict)      // one fails, and must be queued
    | Asks(op: Request, oc: Outcome)          // one that changes nothing gets through
    | GivesUp(op: Request, v: L.Verdict)      // one fails that is not queued
    | Late(a: L.Act)                          // a server thread stores or carries out something
    | EnterAdd                                // the issuing thread takes the mutex in add_task
    | Inside                                  // the mutex holder in add_task or stop moves on
    | Stop(strict: bool)
    | Work
    | Wake
    | Executed(v: L.Verdict)                  // the worker's exec_ returns

  predicate ChangesNothing(op: Request) {
    op.Getattr? || op.Readdir? || op.Ls? || op.Read?
  }

  ghost predicate Enabled(s: System, l: Label) {
    && L.LinkOk(s.link)
    && match l
       case Through(op, oc) =>
         s.caller.Ready? && Possible(L.View(s.link), op, oc) && Direct(L.View(s.link), op, oc)
       case NetDown(op, v) => s.caller.Ready? && Queueable(op) && !v.Up?
       case Asks(op, oc) => s.caller.Ready? && ChangesNothing(op) && Possible(L.View(s.link), op, oc)
       case GivesUp(op, v) => s.caller.Ready? && !Queueable(op) && !v.Up?
       case Late(a) => true
       case EnterAdd => s.caller.MustAdd? && DT.Enabled(s.m, DT.Add(s.caller.op))
       case Inside => DT.Enabled(s.m, DT.Inside)
       case Stop(strict) => DT.Enabled(s.m, DT.Stop(strict))
       case Work => DT.Enabled(s.m, DT.Work)
       case Wake => DT.Enabled(s.m, DT.Wake)
       case Executed(v) => DT.Enabled(s.m, DT.Return(v.Up?)) && (v.Up? ==> v.oc == Complete)
  }

  /** The hypothesis. A call that gets through while others wait commutes with them; a
      connection that breaks takes no write with it that would be missed; and what an
      abandoned connection had taken on is carried out late only where it does not show.
      With an empty queue and no failure it always holds. */
  ghost predicate NoBypass(s: System, l: Label)
    requires L.LinkOk(s.link)
  {
    match l
    case Through(op, oc) => Harmless(L.View(s.link), op, oc, Waiting(s))
    case NetDown(op, _) => Expendable(s.link, Waiting(s) + [op])
    case GivesUp(_, _) => Expendable(s.link, Waiting(s))
    case Late(a) =>
      0 <= a.line < |s.link.strays| ==>
        Unnoticed(s.link.fs, L.DoAct(s.link, a).fs, Outstanding(s.link, Waiting(s)))
    case Executed(v) => !v.Up? ==> Expendable(s.link, Waiting(s))
    case _ => true
  }

  /** What the manager does on each label, if anything. */
  function ManagerLabel(s: System, l: Label): Option<DT.Label<Request>>
    requires l.EnterAdd? ==> s.caller.MustAdd?
  {
    match l
    case EnterAdd => Some(DT.Add(s.caller.op))
    case Inside => Some(DT.Inside)
    case Stop(strict) => Some(DT.Stop(strict))
    case Work => Some(DT.Work)
    case Wake => Some(DT.Wake)
    case Executed(v) => Some(DT.Return(v.Up?))
    case _ => None
  }

  ghost function Step(s: System, l: Label): System
    requires Enabled(s, l)
  {
    match l
    case Through(op, oc) =>
      s.(link := L.Call(s.link, L.Net([], L.Up(oc)), op).0, issued := s.issued + [Entry(op, oc)])
    case NetDown(op, v) =>
      s.(link := L.Call(s.link, L.Net([], v), op).0, caller := MustAdd(op), issued := s.issued + [Entry(op, Complete)])
    case Asks(op, oc) => s.(link := L.Call(s.link, L.Net([], L.Up(oc)), op).0)
    case GivesUp(op, v) => s.(link := L.Call(s.link, L.Net([], v), op).0)
    case Late(a) => s.(link := L.DoAct(s.link, a))
    case EnterAdd => s.(m := DT.Step(s.m, DT.Add(s.caller.op)))
    case Inside =>
      s.(m := DT.Step(s.m, DT.Inside),
         caller := if s.m.holder.ToPush? then Pushed else if s.m.holder.AddToUnlock? then Ready else s.caller)
    case Stop(strict) => s.(m := DT.Step(s.m, DT.Stop(strict)))
    case Work => s.(m := DT.Step(s.m, DT.Work))
    case Wake => s.(m := DT.Step(s.m, DT.Wake))
    case Executed(v) =>
      s.(m := DT.Step(s.m, DT.Return(v.Up?)), link := L.Call(s.link, L.Net([], v), s.m.pc.task).0)
  }

  ghost predicate Run(base: Server, ss: seq<System>, ls: seq<Label>) {
    && WF(base)
    && |ss| == |ls| + 1
    && ss[0] == Init(base)
    && forall k :: 0 <= k < |ls| ==> Enabled(ss[k], ls[k]) && ss[k + 1] == Step(ss[k], ls[k])
  }

  ghost predicate NoBypassRun(ss: seq<System>, ls: seq<Label>)
    requires |ss| == |ls| + 1
  {
    forall k :: 0 <= k < |ls| ==> L.LinkOk(ss[k].link) && NoBypass(ss[k], ls[k])
  }

  /** The queued requests not yet carried out: a task stays in the queue between its
      successful exec_ and its pop. */
  function Unexecuted(m: DT.Manager<Request>): seq<Request> {
    if m.pc.Popping? && m.tasks != [] then m.tasks[1..] else m.tasks
  }

  /** Everything issued that no call has carried to the server, in order. */
  function Waiting(s: System): seq<Request> {
    Unexecuted(s.m) + (if s.caller.MustAdd? then [s.caller.op] else [])
  }

  /** What the server will hold once all that is outstanding is stored. */
  ghost function Heading(s: System): Server
    requires L.LinkOk(s.link)
  {
    Replay(s.link.fs, Outstanding(s.link, Waiting(s)))
  }

  ghost predicate Sane(base: Server, s: System) {
    && WF(base) && L.LinkOk(s.link)
    && DT.Inv(s.m)
    && CallerMatches(s)
  }

  ghost predicate Converging(base: Server, s: System) {
    Sane(base, s) && Heading(s) == ServeAll(base, s.issued)
  }

  lemma ServeAllNext(base: Server, log: seq<Entry>, e: Entry)
    requires WF(base)
    ensures ServeAll(base, log + [e]) == Serve(ServeAll(base, log), e.op, e.oc).0
  {
    assert (log + [e])[..|log|] == log;
  }

  lemma WaitingBacklog(base: Server, s: System)
    requires Sane(base, s)
    ensures Backlog(Waiting(s)) && Backlog(Outstanding(s.link, Waiting(s)))
  {
  }

  // One label after the other: what it keeps, and exactly when.

  lemma ThroughExact(base: Server, s: System, op: Request, oc: Outcome)
    requires Converging(base, s) && Enabled(s, Through(op, oc))
    ensures Sane(base, Step(s, Through(op, oc)))
    ensures Converging(base, Step(s, Through(op, oc))) <==> NoBypass(s, Through(op, oc))
  {
    var q, s' := Waiting(s), Step(s, Through(op, oc));
    WaitingBacklog(base, s);
    ViewFirst(s.link, q);
    UpStores(s.link, op, oc, q);
    assert Waiting(s') == q;
    OvertakesExact(L.View(s.link), op, oc, q);
    ServeAllNext(base, s.issued, Entry(op, oc));
  }

  lemma NetDownExact(base: Server, s: System, op: Request, v: L.Verdict)
    requires Converging(base, s) && Enabled(s, NetDown(op, v))
    ensures Sane(base, Step(s, NetDown(op, v)))
    ensures Converging(base, Step(s, NetDown(op, v))) <==> NoBypass(s, NetDown(op, v))
  {
    var q, s' := Waiting(s), Step(s, NetDown(op, v));
    WaitingBacklog(base, s);
    ServeAllNext(base, s.issued, Entry(op, Complete));
    DownLoses(s.link, op, v, q);
    LossExact(s.link, q + [op]);
    assert Waiting(s') == q + [op] && Outstanding(s'.link, Waiting(s')) == q + [op];
    ViewFirst(s.link, q);
    ViewFirst(s.link, q + [op]);
    ReplaySnoc(L.View(s.link), q, op);
  }

  lemma AsksKeeps(base: Server, s: System, op: Request, oc: Outcome)
    requires Converging(base, s) && Enabled(s, Asks(op, oc))
    ensures Converging(base, Step(s, Asks(op, oc)))
  {
    ViewFirst(s.link, Waiting(s));
    UpStores(s.link, op, oc, Waiting(s));
    assert Waiting(Step(s, Asks(op, oc))) == Waiting(s);
  }

  lemma GivesUpExact(base: Server, s: System, op: Request, v: L.Verdict)
    requires Converging(base, s) && Enabled(s, GivesUp(op, v))
    ensures Sane(base, Step(s, GivesUp(op, v)))
    ensures Converging(base, Step(s, GivesUp(op, v))) <==> NoBypass(s, GivesUp(op, v))
  {
    var q, s' := Waiting(s), Step(s, GivesUp(op, v));
    WaitingBacklog(base, s);
    DownLoses(s.link, op, v, q);
    LossExact(s.link, q);
    assert Waiting(s') == q && Outstanding(s'.link, q) == q;
  }

  lemma LateExact(base: Server, s: System, a: L.Act)
    requires Converging(base, s) && Enabled(s, Late(a))
    ensures Sane(base, Step(s, Late(a)))
    ensures Converging(base, Step(s, Late(a))) <==> NoBypass(s, Late(a))
  {
    var q, s' := Waiting(s), Step(s, Late(a));
    WaitingBacklog(base, s);
    assert Waiting(s') == q;
    if a.line < 0 {
      ViewFirst(s.link, q);
      ViewFirst(s'.link, q);
    } else {
      assert s'.link.flying == s.link.flying;
      UnnoticedExact(s.link.fs, s'.link.fs, Outstanding(s.link, q));
    }
  }

  lemma ExecutedUp(base: Server, s: System, v: L.Verdict)
    requires Converging(base, s) && Enabled(s, Executed(v)) && v.Up?
    ensures Converging(base, Step(s, Executed(v)))
  {
    var s' := Step(s, Executed(v));
    DT.StepInv(s.m, DT.Return(true));
    var q, op := Waiting(s), s.m.pc.task;
    assert q[0] == op;
    assert Waiting(s') == q[1..];
    WaitingBacklog(base, s);
    ViewFirst(s.link, q);
    UpStores(s.link, op, Complete, q[1..]);
  }

  lemma RetryingWaits(s: System)
    requires DT.Inv(s.m) && DT.Enabled(s.m, DT.Return(false)) && CallerMatches(s)
    ensures var m := DT.Step(s.m, DT.Return(false));
            DT.Inv(m) && Unexecuted(m) == Unexecuted(s.m) && CallerMatches(s.(m := m))
  {
    DT.StepInv(s.m, DT.Return(false));
  }

  lemma ExecutedDownExact(base: Server, s: System, v: L.Verdict)
    requires Converging(base, s) && Enabled(s, Executed(v)) && !v.Up?
    ensures Sane(base, Step(s, Executed(v)))
    ensures Converging(base, Step(s, Executed(v))) <==> NoBypass(s, Executed(v))
  {
    var q, s' := Waiting(s), Step(s, Executed(v));
    RetryingWaits(s);
    WaitingBacklog(base, s);
    DownLoses(s.link, s.m.pc.task, v, q);
    LossExact(s.link, q);
    assert Waiting(s') == q && Outstanding(s'.link, q) == q;
  }

  /** Steps of the queue's own machinery do not change what is waiting. */
  lemma WorkerWaits(m: DT.Manager<Request>, l: DT.Label<Request>)
    requires DT.Inv(m) && DT.Enabled(m, l) && !l.Return? && !l.Inside?
    ensures Unexecuted(DT.Step(m, l)) == Unexecuted(m)
    ensures var m' := DT.Step(m, l);
            m'.tasks == m.tasks || (m.tasks != [] && m'.tasks == m.tasks[1..])
  {
  }

  lemma HolderWaits(m: DT.Manager<Request>)
    requires DT.Inv(m) && DT.Enabled(m, DT.Inside)
    ensures Unexecuted(DT.Step(m, DT.Inside)) ==
            Unexecuted(m) + (if m.holder.ToPush? then [m.holder.task] else [])
  {
    if m.holder.ToPush? && m.pc.Popping? {
      assert (m.tasks + [m.holder.task])[1..] == m.tasks[1..] + [m.holder.task];
    }
  }

  lemma MachineryMatches(s: System, l: Label)
    requires CallerMatches(s) && Enabled(s, l) && (l.EnterAdd? || l.Stop? || l.Work? || l.Wake?)
    requires DT.Inv(s.m)
    ensures CallerMatches(Step(s, l))
  {
    WorkerWaits(s.m, ManagerLabel(s, l).value);
  }

  lemma MachineryKeeps(base: Server, s: System, l: Label)
    requires Converging(base, s) && Enabled(s, l)
    requires l.EnterAdd? || l.Stop? || l.Work? || l.Wake?
    ensures Converging(base, Step(s, l))
  {
    var dl := ManagerLabel(s, l).value;
    DT.StepInv(s.m, dl);
    WorkerWaits(s.m, dl);
    MachineryMatches(s, l);
    assert Waiting(Step(s, l)) == Waiting(s);
  }

  /** Bookkeeping of the issuing thread while it is in add_task. */
  ghost predicate CallerMatches(s: System) {
    && Backlog(s.m.tasks) && (s.caller.MustAdd? ==> Queueable(s.caller.op))
    && (s.m.holder.ToPush? ==> s.caller == MustAdd(s.m.holder.task))
    && (s.m.holder.AddToNotify? || s.m.holder.AddToUnlock? <==> s.caller.Pushed?)
  }

  lemma InsideMatches(s: System)
    requires CallerMatches(s) && Enabled(s, Inside)
    ensures CallerMatches(Step(s, Inside))
  {
  }

  lemma InsideKeeps(base: Server, s: System)
    requires Converging(base, s) && Enabled(s, Inside)
    ensures Converging(base, Step(s, Inside))
  {
    var s' := Step(s, Inside);
    DT.StepInv(s.m, DT.Inside);
    HolderWaits(s.m);
    InsideMatches(s);
    assert Waiting(s') == Waiting(s);
  }

  /** The condition is exact: a step keeps the server on the way to program order if and only
      if it holds. */
  lemma StepExact(base: Server, s: System, l: Label)
    requires Converging(base, s) && Enabled(s, l)
    ensures Sane(base, Step(s, l)) && (Converging(base, Step(s, l)) <==> NoBypass(s, l))
  {
    match l
    case Through(op, oc) => ThroughExact(base, s, op, oc);
    case NetDown(op, v) => NetDownExact(base, s, op, v);
    case Asks(op, oc) => AsksKeeps(base, s, op, oc);
    case GivesUp(op, v) => GivesUpExact(base, s, op, v);
    case Late(a) => LateExact(base, s, a);
    case Executed(v) =>
      if v.Up? {
        ExecutedUp(base, s, v);
      } else {
        ExecutedDownExact(base, s, v);
      }
    case Inside => InsideKeeps(base, s);
    case _ => MachineryKeeps(base, s, l);
  }

  lemma {:induction false} RunConverging(base: Server, ss: seq<System>, ls: seq<Label>)
    requires Run(base, ss, ls) && NoBypassRun(ss, ls)
    ensures Converging(base, ss[|ls|])
  {
    if ls == [] {
      Empty(base);
    } else {
      var n := |ls| - 1;
      RunConverging(base, ss[..n + 1], ls[..n]);
      StepExact(base, ss[n], ls[n]);
    }
  }

  lemma Empty(base: Server)
    requires WF(base)
    ensures Converging(base, Init(base))
  {
  }

  /** Convergence: in every reachable state, storing what is in flight and carrying out what
      still waits would give the server that program order gives; so with nothing waiting
      the client's view of the server is that one, and with nothing in flight either, it is
      the server. */
  lemma DelayedCallsConverge(base: Server, ss: seq<System>, ls: seq<Label>)
    requires Run(base, ss, ls) && NoBypassRun(ss, ls)
    ensures var s := ss[|ls|];
            && L.LinkOk(s.link)
            && Replay(s.link.fs, Outstanding(s.link, Waiting(s))) == ServeAll(base, s.issued)
            && (Waiting(s) == [] ==> L.View(s.link) == ServeAll(base, s.issued))
            && (Waiting(s) == [] && s.link.flying == [] ==> s.link.fs == ServeAll(base, s.issued))
  {
    RunConverging(base, ss, ls);
    ViewFirst(ss[|ls|].link, Waiting(ss[|ls|]));
  }

  /** And not without the condition: a run that keeps it up to its last step converges there
      if and only if the last step keeps it too. */
  lemma ConvergesExactly(base: Server, ss: seq<System>, ls: seq<Label>)
    requires Run(base, ss, ls) && ls != [] && NoBypassRun(ss[..|ls|], ls[..|ls| - 1])
    ensures var n := |ls| - 1;
            && L.LinkOk(ss[n].link) && L.LinkOk(ss[n + 1].link)
            && (Heading(ss[n + 1]) == ServeAll(base, ss[n + 1].issued) <==> NoBypass(ss[n], ls[n]))
  {
    var n := |ls| - 1;
    RunConverging(base, ss[..n + 1], ls[..n]);
    StepExact(base, ss[n], ls[n]);
  }

  /** For a write that goes straight out the condition is agreement with the waiting writes
      to its file. */
  lemma WriteThroughExact(base: Server, s: System, fd: int, off: int, data: Content)
    requires Converging(base, s) && Enabled(s, Through(Write(fd, off, data), Complete))
    requires fd !in Closed(Waiting(s))
    ensures var v := L.View(s.link);
            Converging(base, Step(s, Through(Write(fd, off, data), Complete))) <==>
            (SeekError(v, fd, off) == 0 ==> Agrees(Patch(off, data), Hits(v.fds, Waiting(s), v.fds[fd])))
  {
    StepExact(base, s, Through(Write(fd, off, data), Complete));
  }

  /** Shutting down: when the worker has exited after stop(false), nothing was issued after
      the stop took effect, and the stop did not fall into the race of the outer test, the
      client's view of the server holds everything ever issued; and so does the server, once
      the last write has arrived. */
  lemma StopLeavesNothing(base: Server, ss: seq<System>, ls: seq<Label>)
    requires Run(base, ss, ls) && NoBypassRun(ss, ls)
    requires var s := ss[|ls|];
             && s.m.pc.Exited? && s.m.stopped == Some(false) && s.m.cut.Some?
             && !s.m.cut.value.race && s.m.cut.value.count == |s.m.added| && !s.caller.MustAdd?
    ensures var s := ss[|ls|];
            && L.LinkOk(s.link) && L.View(s.link) == ServeAll(base, s.issued)
            && (s.link.flying == [] ==> s.link.fs == ServeAll(base, s.issued))
  {
    RunConverging(base, ss, ls);
    var s := ss[|ls|];
    assert s.m.added == s.m.completed + s.m.tasks;
    assert s.m.tasks == [];
    ViewFirst(s.link, Waiting(s));
  }

  /** The hypothesis at work: a write that got through, and a connection that broke before it
      was stored. Nothing waits, and it is missing. */
  lemma LostInFlight()
    returns (ss: seq<System>, ls: seq<Label>)
    ensures var base := Server(map["f" := []], map[3 := "f"]);
            && Run(base, ss, ls)
            && var s := ss[|ls|];
               && Waiting(s) == [] && s.link.flying == [] && L.LinkOk(s.link)
               && s.link.fs == base && ServeAll(base, s.issued) == Server(map["f" := [7]], map[3 := "f"])
  {
    var base := Server(map["f" := []], map[3 := "f"]);
    var w := Write(3, 0, [7]);
    var s0 := Init(base);
    var s1 := Step(s0, Through(w, Complete));
    var s2 := Step(s1, GivesUp(Getattr("f"), L.Down(false)));
    ss, ls := [s0, s1, s2], [Through(w, Complete), GivesUp(Getattr("f"), L.Down(false))];
    ServeAllNext(base, [], Entry(w, Complete));
    assert [] + [Entry(w, Complete)] == [Entry(w, Complete)];
    assert [7 as byte][..1] == [7] && WriteAt([], 0, [7]) == [7];
  }
}
