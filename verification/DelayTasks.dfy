/** The retry queue and its worker thread: task_loop, add_task and stop as interleaved steps.

    Every shared read or write is one step: the two flags, each call on the queue (the
    worker makes its calls outside the lock), taking and releasing the mutex, and the
    notifications. A task is any value; exec_ is a step with a result. */
module DelayTasks {
  import opened Files

  /** Where the worker thread stands in task_loop. */
  datatype WorkerPc<T> =
    | TestTerm                  // at while(!term)
    | Locking                   // about to take the mutex
    | Waiting                   // in cond.wait with the mutex, about to test the predicate
    | Sleeping(notified: bool)  // in cond.wait, mutex released
    | Unlocking                 // about to release the mutex
    | TestStrict                // at while(!sterm)
    | TestEmpty                 // about to test tasks.empty()
    | Fetching                  // about to read tasks.front()
    | Executing(task: T)        // inside exec_
    | Retrying                  // in sleep(TRY_INTERVAL)
    | Popping(task: T)          // exec_ succeeded, about to pop
    | Exited

  /** Who has the mutex, and what that thread does next. */
  datatype Holder<T> =
    | Free
    | ByWorker
    | ToPush(task: T) | AddToNotify | AddToUnlock
    | ToSetTerm(strict: bool) | ToSetStrict(strict: bool) | StopToNotify | StopToUnlock

  datatype Exec<T> = Exec(task: T, ok: bool)

  /** What stood when stop set `term`: how many tasks had been added, and whether the worker
      was about to test `term` with tasks still queued. */
  datatype Cut = Cut(count: nat, race: bool)

  /** `stopped` says whether stop has been called, and how. History: all tasks added, those
      completed, every exec_ with its result, the cut, and how many exec_ calls began after
      the strict flag was set. */
  datatype Manager<T> = Manager(
    tasks: seq<T>, term: bool, sterm: bool, pc: WorkerPc<T>, holder: Holder<T>, stopped: Option<bool>,
    added: seq<T>, completed: seq<T>, execs: seq<Exec<T>>, cut: Option<Cut>, lateStarts: nat)

  function Init<T>(): Manager<T> {
    Manager([], false, false, TestTerm, Free, None, [], [], [], None, 0)
  }

  datatype Label<T> =
    | Work                 // the worker's next step, where it has only one
    | Wake                 // a sleeping worker takes the mutex again, notified or spuriously
    | Return(ok: bool)     // exec_ returns
    | Add(task: T)         // some thread enters add_task and takes the mutex
    | Stop(strict: bool)   // the owner enters stop and takes the mutex
    | Inside               // the thread holding the mutex in add_task or stop moves on

  predicate Enabled<T>(m: Manager<T>, l: Label<T>) {
    match l
    case Work =>
      !m.pc.Sleeping? && !m.pc.Executing? && !m.pc.Exited?
      && (m.pc.Locking? ==> m.holder.Free?) && (m.pc.Fetching? || m.pc.Popping? ==> m.tasks != [])
    case Wake => m.pc.Sleeping? && m.holder.Free?
    case Return(_) => m.pc.Executing?
    case Add(_) => m.holder.Free?
    case Stop(_) => m.holder.Free? && m.stopped.None?
    case Inside => !m.holder.Free? && !m.holder.ByWorker?
  }

  function Notify<T>(m: Manager<T>): Manager<T> {
    if m.pc.Sleeping? then m.(pc := Sleeping(true)) else m
  }

  function WorkStep<T>(m: Manager<T>): Manager<T>
    requires Enabled(m, Work)
  {
    match m.pc
    case TestTerm => m.(pc := if m.term then Exited else Locking)
    case Locking => m.(pc := Waiting, holder := ByWorker)
    case Waiting =>
      if m.tasks != [] || m.term then m.(pc := Unlocking) else m.(pc := Sleeping(false), holder := Free)
    case Unlocking => m.(pc := TestStrict, holder := Free)
    case TestStrict => m.(pc := if m.sterm then TestTerm else TestEmpty)
    case TestEmpty => m.(pc := if m.tasks == [] then TestTerm else Fetching)
    case Fetching =>
      m.(pc := Executing(m.tasks[0]), lateStarts := if m.sterm then m.lateStarts + 1 else m.lateStarts)
    case Retrying => m.(pc := TestStrict)
    case Popping(t) => m.(pc := TestStrict, tasks := m.tasks[1..], completed := m.completed + [t])
    case _ => m
  }

  function InsideStep<T>(m: Manager<T>): Manager<T>
    requires Enabled(m, Inside)
  {
    match m.holder
    case ToPush(t) => m.(tasks := m.tasks + [t], added := m.added + [t], holder := AddToNotify)
    case AddToNotify => Notify(m).(holder := AddToUnlock)
    case AddToUnlock => m.(holder := Free)
    case ToSetTerm(strict) =>
      m.(term := true, holder := ToSetStrict(strict),
         cut := Some(Cut(|m.added|, m.pc.TestTerm? && m.tasks != [])))
    case ToSetStrict(strict) => m.(sterm := strict, holder := StopToNotify)
    case StopToNotify => Notify(m).(holder := StopToUnlock)
    case StopToUnlock => m.(holder := Free)
  }

  function Step<T>(m: Manager<T>, l: Label<T>): Manager<T>
    requires Enabled(m, l)
  {
    match l
    case Work => WorkStep(m)
    case Wake => m.(pc := Waiting, holder := ByWorker)
    case Return(ok) =>
      m.(pc := if ok then Popping(m.pc.task) else Retrying, execs := m.execs + [Exec(m.pc.task, ok)])
    case Add(t) => m.(holder := ToPush(t))
    case Stop(strict) => m.(holder := ToSetTerm(strict), stopped := Some(strict))
    case Inside => InsideStep(m)
  }

  ghost predicate Run<T>(ms: seq<Manager<T>>, ls: seq<Label<T>>) {
    && |ms| == |ls| + 1
    && ms[0] == Init()
    && forall k :: 0 <= k < |ls| ==> Enabled(ms[k], ls[k]) && ms[k + 1] == Step(ms[k], ls[k])
  }

  /** All tasks whose exec_ returned success, in order. */
  function Successes<T>(execs: seq<Exec<T>>): seq<T> {
    if execs == [] then []
    else
      var n := |execs| - 1;
      Successes(execs[..n]) + (if execs[n].ok then [execs[n].task] else [])
  }

  /** Notifications still to come from the thread that has the mutex. */
  predicate NotifyDue<T>(h: Holder<T>) {
    h.AddToNotify? || h.ToSetStrict? || h.StopToNotify?
  }

  predicate Stopping<T>(h: Holder<T>) {
    h.ToSetTerm? || h.ToSetStrict? || h.StopToNotify? || h.StopToUnlock?
  }

  /** Nothing is lost and nothing is done twice. */
  ghost predicate Conserved<T>(m: Manager<T>) {
    && m.added == m.completed + m.tasks
    && (m.pc.Fetching? ==> m.tasks != [])
    && (m.pc.Executing? || m.pc.Popping? ==> m.tasks != [] && m.tasks[0] == m.pc.task)
    && Successes(m.execs) == m.completed + (if m.pc.Popping? then [m.pc.task] else [])
  }

  ghost predicate Locked<T>(m: Manager<T>) {
    && (m.holder.ByWorker? <==> m.pc.Waiting? || m.pc.Unlocking?)
    && (m.pc == Sleeping(false) && !NotifyDue(m.holder) ==> m.tasks == [] && !m.term)
  }

  ghost predicate Flagged<T>(m: Manager<T>) {
    && (m.term <==> m.cut.Some?)
    && (m.stopped.None? ==> !m.term && !m.sterm && !Stopping(m.holder))
    && (m.holder.ToSetTerm? ==> m.stopped == Some(m.holder.strict) && !m.term && !m.sterm)
    && (m.holder.ToSetStrict? ==> m.stopped == Some(m.holder.strict) && m.term && !m.sterm)
    && (m.stopped.Some? && !m.holder.ToSetTerm? ==> m.term)
    && (m.stopped.Some? && !m.holder.ToSetTerm? && !m.holder.ToSetStrict? ==> m.sterm == m.stopped.value)
    && (m.pc.Exited? ==> m.term)
    && m.lateStarts + (if m.sterm && (m.pc.TestEmpty? || m.pc.Fetching?) then 1 else 0) <= 1
    && (!m.sterm ==> m.lateStarts == 0)
  }

  /** A stop that lets the worker finish: what the worker has behind it by the time it is
      back at the outer test. */
  ghost predicate Draining<T>(m: Manager<T>) {
    m.cut.Some? && m.stopped == Some(false) ==>
      var c := m.cut.value;
      && c.count <= |m.added|
      && (c.race ==> (m.pc.TestTerm? || m.pc.Exited?) && |m.completed| < c.count)
      && (!c.race && (m.pc.TestTerm? || m.pc.Exited?) ==> c.count <= |m.completed|)
  }

  ghost predicate Inv<T>(m: Manager<T>) {
    Conserved(m) && Locked(m) && Flagged(m) && Draining(m)
  }

  lemma SuccessesNext<T>(execs: seq<Exec<T>>, e: Exec<T>)
    ensures Successes(execs + [e]) == Successes(execs) + (if e.ok then [e.task] else [])
  {
    assert (execs + [e])[..|execs|] == execs;
  }

  lemma ReturnConserves<T>(m: Manager<T>, ok: bool)
    requires Conserved(m) && Enabled(m, Return(ok))
    ensures Conserved(Step(m, Return(ok)))
  {
    SuccessesNext(m.execs, Exec(m.pc.task, ok));
  }

  lemma WorkConserves<T>(m: Manager<T>)
    requires Conserved(m) && Enabled(m, Work)
    ensures Conserved(Step(m, Work))
  {
    if m.pc.Popping? {
      assert m.completed + m.tasks == (m.completed + [m.tasks[0]]) + m.tasks[1..];
    }
  }

  lemma PushConserves<T>(m: Manager<T>)
    requires Conserved(m) && m.holder.ToPush?
    ensures Conserved(m.(tasks := m.tasks + [m.holder.task], added := m.added + [m.holder.task], holder := AddToNotify))
  {
    assert m.completed + (m.tasks + [m.holder.task]) == (m.completed + m.tasks) + [m.holder.task];
  }

  lemma InsideConserves<T>(m: Manager<T>)
    requires Conserved(m) && Enabled(m, Inside)
    ensures Conserved(Step(m, Inside))
  {
    if m.holder.ToPush? {
      PushConserves(m);
    } else {
      var n := Step(m, Inside);
      assert n.added == m.added && n.completed == m.completed && n.tasks == m.tasks && n.execs == m.execs;
      assert n.pc == m.pc || (n.pc.Sleeping? && m.pc.Sleeping?);
    }
  }

  lemma StepConserves<T>(m: Manager<T>, l: Label<T>)
    requires Conserved(m) && Enabled(m, l)
    ensures Conserved(Step(m, l))
  {
    match l
    case Work => WorkConserves(m);
    case Return(ok) => ReturnConserves(m, ok);
    case Inside => InsideConserves(m);
    case _ =>
  }

  lemma WorkLocked<T>(m: Manager<T>)
    requires Locked(m) && Enabled(m, Work)
    ensures Locked(WorkStep(m))
  {
  }

  lemma InsideLocked<T>(m: Manager<T>)
    requires Locked(m) && Enabled(m, Inside)
    ensures Locked(InsideStep(m))
  {
  }

  lemma StepLocked<T>(m: Manager<T>, l: Label<T>)
    requires Locked(m) && Enabled(m, l)
    ensures Locked(Step(m, l))
  {
    match l
    case Work => WorkLocked(m);
    case Inside => InsideLocked(m);
    case _ =>
  }

  lemma StepFlagged<T>(m: Manager<T>, l: Label<T>)
    requires Flagged(m) && Locked(m) && Enabled(m, l)
    ensures Flagged(Step(m, l))
  {
  }

  lemma StepDraining<T>(m: Manager<T>, l: Label<T>)
    requires Inv(m) && Enabled(m, l)
    ensures Draining(Step(m, l))
  {
  }

  lemma StepInv<T>(m: Manager<T>, l: Label<T>)
    requires Inv(m) && Enabled(m, l)
    ensures Inv(Step(m, l))
  {
    StepConserves(m, l);
    StepLocked(m, l);
    StepFlagged(m, l);
    StepDraining(m, l);
  }

  lemma {:induction false} RunInv<T>(ms: seq<Manager<T>>, ls: seq<Label<T>>)
    requires Run(ms, ls)
    ensures Inv(ms[|ls|])
  {
    if ls != [] {
      var n := |ls| - 1;
      RunInv(ms[..n + 1], ls[..n]);
      StepInv(ms[n], ls[n]);
    }
  }

  /** In every reachable state: all tasks ever added are the completed ones followed by the
      queue; the one being executed heads the queue; and the completed ones, plus at most the
      one about to be popped, are exactly those whose exec_ returned success, once each and
      in order. */
  lemma TasksConserved<T>(ms: seq<Manager<T>>, ls: seq<Label<T>>)
    requires Run(ms, ls)
    ensures var m := ms[|ls|];
            && m.added == m.completed + m.tasks
            && (m.pc.Executing? ==> m.tasks != [] && m.tasks[0] == m.pc.task)
            && m.completed <= Successes(m.execs) <= m.added
            && |Successes(m.execs)| <= |m.completed| + 1
  {
    RunInv(ms, ls);
    var m := ms[|ls|];
    if m.pc.Popping? {
      assert m.added == Successes(m.execs) + m.tasks[1..];
    }
  }

  /** A worker asleep without a notification pending or under way has nothing to do. */
  lemma NoLostWakeup<T>(ms: seq<Manager<T>>, ls: seq<Label<T>>)
    requires Run(ms, ls)
    requires ms[|ls|].pc == Sleeping(false) && !NotifyDue(ms[|ls|].holder)
    ensures ms[|ls|].tasks == [] && !ms[|ls|].term
  {
    RunInv(ms, ls);
  }

  predicate IsWork<T>(l: Label<T>) {
    l.Work? || l.Wake? || l.Return?
  }

  function WorkCount<T>(ls: seq<Label<T>>): nat {
    if ls == [] then 0 else WorkCount(ls[..|ls| - 1]) + (if IsWork(ls[|ls| - 1]) then 1 else 0)
  }

  // Without a stop.

  predicate InnerLoop<T>(pc: WorkerPc<T>) {
    pc.TestStrict? || pc.TestEmpty? || pc.Fetching? || pc.Executing? || pc.Retrying? || pc.Popping?
  }

  /** The worker leaves the inner loop for one of two reasons: it has seen the strict flag up,
      or the queue empty. */
  lemma LeavesInnerLoop<T>(ms: seq<Manager<T>>, ls: seq<Label<T>>, k: nat)
    requires Run(ms, ls) && k < |ls| && InnerLoop(ms[k].pc) && !InnerLoop(ms[k + 1].pc)
    ensures ms[k + 1].pc.TestTerm?
    ensures (ms[k].pc.TestStrict? && ms[k].sterm) || (ms[k].pc.TestEmpty? && ms[k].tasks == [])
  {
  }

  /** The tasks that have yet to be executed with success. */
  function Ahead<T>(m: Manager<T>): seq<T> {
    if m.pc.Popping? && m.tasks != [] then m.tasks[1..] else m.tasks
  }

  /** How many steps of its own the worker is away from the exec_ of the first of them. */
  function ToExec<T>(pc: WorkerPc<T>): nat {
    match pc
    case Executing(_) => 0
    case Exited => 0
    case Fetching => 1
    case TestEmpty => 2
    case TestStrict => 3
    case Retrying => 4
    case Popping(_) => 4
    case Unlocking => 4
    case Waiting => 5
    case Locking => 6
    case Sleeping(_) => 6
    case TestTerm => 7
  }

  /** No stop keeps the worker from the queue: the strict flag is down, and it is not on its way
      out of the outer loop. */
  predicate Going<T>(m: Manager<T>) {
    !m.sterm && !m.pc.Exited? && (m.pc.TestTerm? ==> !m.term)
  }

  lemma Nearer<T>(m: Manager<T>, l: Label<T>)
    requires Inv(m) && Enabled(m, l) && Going(m) && !m.pc.Executing? && Ahead(m) != []
    ensures var n := Step(m, l);
            && Ahead(n) != [] && Ahead(n)[0] == Ahead(m)[0]
            && (n.pc.Executing? ==> n.pc.task == Ahead(m)[0])
            && ToExec(n.pc) + (if IsWork(l) then 1 else 0) <= ToExec(m.pc)
  {
    match l
    case Work =>
    case Inside => InsideAhead(m);
    case _ =>
  }

  lemma InsideAhead<T>(m: Manager<T>)
    requires Enabled(m, Inside) && Ahead(m) != []
    ensures var n := InsideStep(m);
            && Ahead(n) != [] && Ahead(n)[0] == Ahead(m)[0]
            && (n.pc == m.pc || (n.pc.Sleeping? && m.pc.Sleeping?))
  {
  }

  ghost predicate Executed<T>(ms: seq<Manager<T>>, k: nat, t: T) {
    exists j :: k <= j < |ms| && ms[j].pc == Executing(t)
  }

  lemma {:induction false} Nearing<T>(ms: seq<Manager<T>>, ls: seq<Label<T>>, k: nat)
    requires Run(ms, ls) && k <= |ls| && Ahead(ms[k]) != []
    requires forall j :: k <= j <= |ls| ==> Going(ms[j])
    ensures var m, t := ms[|ls|], Ahead(ms[k])[0];
            || Executed(ms, k, t)
            || (!m.pc.Executing? && Ahead(m) != [] && Ahead(m)[0] == t && WorkCount(ls[k..]) + ToExec(m.pc) <= ToExec(ms[k].pc))
    decreases |ls|
  {
    var n, t := |ls| - 1, Ahead(ms[k])[0];
    if k == |ls| {
      RunInv(ms, ls);
      assert ms[k].pc.Executing? ==> ms[k].pc == Executing(t);
    } else {
      Nearing(ms[..n + 1], ls[..n], k);
      RunInv(ms[..n + 1], ls[..n]);
      if Executed(ms[..n + 1], k, t) {
        var j :| k <= j < n + 1 && ms[..n + 1][j].pc == Executing(t);
        assert ms[j].pc == Executing(t);
      } else {
        Nearer(ms[n], ls[n]);
        assert ls[k..][..n - k] == ls[..n][k..];
      }
    }
  }

  /** Whatever heads the queue is executed: with no stop in the way, seven steps of the worker
      are enough, however the other threads' steps fall in between. */
  lemma HeadIsExecuted<T>(ms: seq<Manager<T>>, ls: seq<Label<T>>, k: nat)
    requires Run(ms, ls) && k <= |ls| && Ahead(ms[k]) != [] && WorkCount(ls[k..]) >= 7
    requires forall j :: k <= j <= |ls| ==> Going(ms[j])
    ensures Executed(ms, k, Ahead(ms[k])[0])
  {
    Nearing(ms, ls, k);
  }

  /** And those steps can be taken: with something queued, one of them is open, or one of the
      thread that has the mutex and is at most four steps from releasing it. */
  lemma QueueMakesProgress<T>(ms: seq<Manager<T>>, ls: seq<Label<T>>)
    requires Run(ms, ls) && Ahead(ms[|ls|]) != [] && !ms[|ls|].pc.Exited?
    ensures var m := ms[|ls|];
            || Enabled(m, Work) || Enabled(m, Wake) || (Enabled(m, Return(true)) && Enabled(m, Return(false)))
            || (Enabled(m, Inside) && HolderRank(Step(m, Inside).holder) < HolderRank(m.holder) <= 4)
    ensures ms[|ls|].pc == Sleeping(false) ==> NotifyDue(ms[|ls|].holder)
  {
    RunInv(ms, ls);
  }

  lemma PopsNext<T>(m: Manager<T>, l: Label<T>)
    requires Inv(m) && Enabled(m, l) && m.pc.Popping?
    ensures if IsWork(l) then
              Step(m, l).completed == m.completed + [m.pc.task] && m.tasks == [m.pc.task] + Step(m, l).tasks
            else Step(m, l).pc == m.pc && Step(m, l).completed == m.completed
  {
  }

  lemma {:induction false} StaysPopping<T>(ms: seq<Manager<T>>, ls: seq<Label<T>>, k: nat, j: nat)
    requires Run(ms, ls) && k < j <= |ls| && ls[k] == Return(true)
    requires forall i :: k < i < j ==> !IsWork(ls[i])
    ensures ms[j].pc == Popping(ms[k].pc.task) && ms[j].completed == ms[k].completed
    decreases j
  {
    if j > k + 1 {
      StaysPopping(ms, ls, k, j - 1);
      RunInv(ms[..j], ls[..j - 1]);
      PopsNext(ms[j - 1], ls[j - 1]);
    }
  }

  /** An exec_ that succeeds is followed, at the worker's next step, by the pop of that very
      task. */
  lemma {:induction false} SuccessPops<T>(ms: seq<Manager<T>>, ls: seq<Label<T>>, k: nat, j: nat)
    requires Run(ms, ls) && k < j < |ls| && ls[k] == Return(true)
    requires IsWork(ls[j]) && forall i :: k < i < j ==> !IsWork(ls[i])
    ensures ms[j + 1].completed == ms[k].completed + [ms[k].pc.task]
    ensures ms[j].tasks == [ms[k].pc.task] + ms[j + 1].tasks
  {
    StaysPopping(ms, ls, k, j);
    RunInv(ms[..j + 1], ls[..j]);
    PopsNext(ms[j], ls[j]);
  }

  // Strict stop.

  /** How many more steps the worker can take once both flags are set. */
  function Rank<T>(pc: WorkerPc<T>): nat {
    match pc
    case Exited => 0
    case TestTerm => 1
    case TestStrict => 2
    case Retrying => 3
    case Popping(_) => 3
    case Unlocking => 3
    case Executing(_) => 4
    case Waiting => 4
    case Fetching => 5
    case Locking => 5
    case Sleeping(_) => 5
    case TestEmpty => 6
  }

  lemma StrictStep<T>(m: Manager<T>, l: Label<T>)
    requires Inv(m) && Enabled(m, l) && m.term && m.sterm
    ensures Step(m, l).term && Step(m, l).sterm
    ensures if IsWork(l) then Rank(Step(m, l).pc) < Rank(m.pc) else Rank(Step(m, l).pc) == Rank(m.pc)
  {
  }

  lemma StrictNext<T>(ms: seq<Manager<T>>, ls: seq<Label<T>>)
    requires Run(ms, ls) && ls != [] && ms[|ls| - 1].term && ms[|ls| - 1].sterm
    ensures var m, m', l := ms[|ls| - 1], ms[|ls|], ls[|ls| - 1];
            && m'.term && m'.sterm
            && if IsWork(l) then Rank(m'.pc) < Rank(m.pc) else Rank(m'.pc) == Rank(m.pc)
  {
    var n := |ls| - 1;
    RunInv(ms[..n + 1], ls[..n]);
    StrictStep(ms[n], ls[n]);
  }

  lemma StartsLateOnce<T>(ms: seq<Manager<T>>, ls: seq<Label<T>>)
    requires Run(ms, ls)
    ensures ms[|ls|].lateStarts <= 1 && (ms[|ls|].sterm ==> ms[|ls|].term)
  {
    RunInv(ms, ls);
  }

  /** After a strict stop has set its flags (state k), at most one more exec_ begins, and the
      worker takes at most six more steps, however many tasks are queued, added or failing. */
  lemma {:induction false} StrictStopBounded<T>(ms: seq<Manager<T>>, ls: seq<Label<T>>, k: nat)
    requires Run(ms, ls) && k <= |ls| && ms[k].sterm
    ensures var m := ms[|ls|];
            && m.term && m.sterm && m.lateStarts <= 1
            && WorkCount(ls[k..]) + Rank(m.pc) <= Rank(ms[k].pc) <= 6
    decreases |ls|
  {
    StartsLateOnce(ms, ls);
    if k < |ls| {
      var n := |ls| - 1;
      StrictStopBounded(ms[..n + 1], ls[..n], k);
      StrictNext(ms, ls);
      assert ls[k..][..n - k] == ls[..n][k..];
    }
  }

  /** How many steps the thread in add_task or stop needs to let go of the mutex. */
  function HolderRank<T>(h: Holder<T>): nat {
    match h
    case Free => 0
    case ByWorker => 0
    case AddToUnlock => 1
    case StopToUnlock => 1
    case AddToNotify => 2
    case StopToNotify => 2
    case ToPush(_) => 3
    case ToSetStrict(_) => 3
    case ToSetTerm(_) => 4
  }

  /** Nor does anything keep the worker from taking those steps: when it has not exited, a
      step of its own is open to it, or one of the thread that has the mutex and is at most
      four steps from releasing it. */
  lemma StopMakesProgress<T>(ms: seq<Manager<T>>, ls: seq<Label<T>>)
    requires Run(ms, ls) && ms[|ls|].term && !ms[|ls|].pc.Exited?
    ensures var m := ms[|ls|];
            || Enabled(m, Work) || Enabled(m, Wake) || Enabled(m, Return(true))
            || (Enabled(m, Inside) && HolderRank(Step(m, Inside).holder) < HolderRank(m.holder) <= 4)
    ensures ms[|ls|].pc == Sleeping(false) ==> NotifyDue(ms[|ls|].holder)
  {
    RunInv(ms, ls);
  }

  // Stop that lets the worker finish.

  /** When the worker exits after stop(false), everything added before the stop took effect
      is completed, except in one case, and in that case it is not: the worker was at
      the outer while(!term) with tasks still queued when stop set the flag. */
  lemma GentleStopDrains<T>(ms: seq<Manager<T>>, ls: seq<Label<T>>)
    requires Run(ms, ls)
    requires ms[|ls|].pc.Exited? && ms[|ls|].stopped == Some(false)
    ensures ms[|ls|].cut.Some?
    ensures var m := ms[|ls|];
            var c := m.cut.value;
            && c.count <= |m.added|
            && (m.added[..c.count] <= m.completed <==> !c.race)
  {
    RunInv(ms, ls);
    var m := ms[|ls|];
    assert m.completed == m.added[..|m.completed|];
  }

  /** The cut is taken at the step that sets `term`, and never again. */
  lemma CutIsTaken<T>(m: Manager<T>, l: Label<T>)
    requires Inv(m) && Enabled(m, l)
    ensures m.cut.Some? ==> Step(m, l).cut == m.cut
    ensures m.cut.None? && Step(m, l).cut.Some? ==>
              && !m.term && Step(m, l).term
              && Step(m, l).cut.value == Cut(|m.added|, m.pc.TestTerm? && m.tasks != [])
  {
  }

  /** The exception happens: a task added and a stop, both before the worker's first test. */
  lemma RaceLosesTask<T>(t: T) returns (ms: seq<Manager<T>>, ls: seq<Label<T>>)
    ensures Run(ms, ls)
    ensures ms[|ls|].pc.Exited? && ms[|ls|].stopped == Some(false)
    ensures ms[|ls|].added == [t] && ms[|ls|].completed == [] && ms[|ls|].execs == []
  {
    var m0: Manager<T> := Init();
    ls := [Add(t), Inside, Inside, Inside, Stop(false), Inside, Inside, Inside, Inside, Work];
    var m1 := Step(m0, ls[0]);
    var m2 := Step(m1, Inside);
    var m3 := Step(m2, Inside);
    var m4 := Step(m3, Inside);
    var m5 := Step(m4, Stop(false));
    var m6 := Step(m5, Inside);
    var m7 := Step(m6, Inside);
    var m8 := Step(m7, Inside);
    var m9 := Step(m8, Inside);
    ms := [m0, m1, m2, m3, m4, m5, m6, m7, m8, m9, Step(m9, Work)];
  }
}
