/** The manager of delayed tasks as it is written: the worker's nested loops, and add_task and stop as
    the other threads run them in between, in step with the machine of DelayTasks. */
module DelayTaskManager {
  import opened Files
  import opened DelayTasks

  class DelayTaskManager<T> {
    var tasks: seq<T>
    var term: bool
    var sterm: bool
    /** Who has the mutex; for a thread in add_task or stop, with what it does next. */
    var holder: Holder<T>
    var stopped: Option<bool>
    /** What the other threads do before each of the worker's steps. The worker is followed
        for as long as this lasts. */
    var future: seq<seq<Label<T>>>
    /** What the exec_ calls return; failures, once it is exhausted. */
    var results: seq<bool>
    ghost var m: Manager<T>

    constructor (future: seq<seq<Label<T>>>, results: seq<bool>)
      ensures m == Init() && Tied() && this.future == future && this.results == results
    {
      tasks, term, sterm, holder, stopped := [], false, false, Free, None;
      this.future, this.results := future, results;
      m := Init();
    }

    /** The fields are those of a machine state with all its invariants. */
    ghost predicate Tied()
      reads this
    {
      && m.tasks == tasks && m.term == term && m.sterm == sterm && m.holder == holder && m.stopped == stopped
      && Inv(m)
    }

    /** The machine's step that goes with what the worker does next. */
    ghost method Follow(l: Label<T>)
      requires Inv(m) && Enabled(m, l)
      modifies this`m
      ensures m == Step(old(m), l) && Inv(m)
    {
      StepInv(m, l);
      m := Step(m, l);
    }

    /** add_task and stop take the mutex. */
    method Enter(l: Label<T>)
      requires Tied() && (l.Add? || l.Stop?)
      modifies this`holder, this`stopped, this`m
      ensures Tied() && m == if Enabled(old(m), l) then Step(old(m), l) else old(m)
    {
      if holder.Free? && (l.Add? || stopped.None?) {
        Follow(l);
        match l
        case Add(t) => holder := ToPush(t);
        case Stop(strict) => holder, stopped := ToSetTerm(strict), Some(strict);
      }
    }

    /** The thread that has the mutex moves on: add_task pushes, stop sets its flags, both
        notify and release. */
    method MoveOn()
      requires Tied()
      modifies this`tasks, this`term, this`sterm, this`holder, this`m
      ensures Tied() && m == if Enabled(old(m), Inside) then Step(old(m), Inside) else old(m)
    {
      if holder.Free? || holder.ByWorker? {
        return;
      }
      Follow(Inside);
      match holder
      case ToPush(t) => tasks, holder := tasks + [t], AddToNotify;
      case AddToNotify => holder := AddToUnlock;
      case AddToUnlock => holder := Free;
      case ToSetTerm(strict) => term, holder := true, ToSetStrict(strict);
      case ToSetStrict(strict) => sterm, holder := strict, StopToNotify;
      case StopToNotify => holder := StopToUnlock;
      case StopToUnlock => holder := Free;
    }

    method Other(l: Label<T>)
      requires Tied()
      modifies this`tasks, this`term, this`sterm, this`holder, this`stopped, this`m
      ensures Tied() && Undisturbed(old(m))
    {
      if l.Add? || l.Stop? {
        Enter(l);
      } else {
        MoveOn();
      }
    }

    /** The other threads move: the worker stays where it is, but for being woken. Nobody
        else touches anything while the worker has the mutex. */
    method Others()
      requires Tied()
      modifies this`tasks, this`term, this`sterm, this`holder, this`stopped, this`future, this`m
      ensures Tied() && Undisturbed(old(m))
      ensures future == if old(future) == [] then [] else old(future)[1..]
    {
      if future == [] {
        return;
      }
      var todo := future[0];
      future := future[1..];
      while todo != []
        invariant Tied() && Undisturbed(old(m)) && future == old(future)[1..]
        decreases |todo|
      {
        Other(todo[0]);
        todo := todo[1..];
      }
    }

    /** What a step of the other threads leaves to the worker. */
    ghost predicate Undisturbed(n: Manager<T>)
      reads this
    {
      && (m.pc == n.pc || (n.pc.Sleeping? && m.pc.Sleeping?))
      && n.tasks <= m.tasks
      && (n.holder.ByWorker? ==> m.holder == n.holder && m.tasks == n.tasks && m.term == n.term)
      && (n.term ==> m.term)
    }

    /** The worker takes the mutex, first for the wait and then whenever it wakes. Nothing to
        do with the mutex in hand: nobody else can move meanwhile. */
    method Lock() returns (ok: bool)
      requires Tied() && (m.pc.Locking? || m.pc.Sleeping?)
      modifies this
      ensures Tied() && |future| <= |old(future)|
      ensures if ok then m.pc.Waiting? else future == []
    {
      while !holder.Free?
        invariant Tied() && (m.pc.Locking? || m.pc.Sleeping?) && |future| <= |old(future)|
        decreases |future|
      {
        if future == [] {
          return false;
        }
        Others();
      }
      holder := ByWorker;
      if m.pc.Locking? {
        Follow(Work);
      } else {
        Follow(Wake);
      }
      ok := true;
    }

    /** cond.wait: back with the mutex, and something to do. */
    method Wait() returns (ok: bool)
      requires Tied() && m.pc.Waiting?
      modifies this
      ensures Tied() && |future| <= |old(future)|
      ensures if ok then m.pc.Unlocking? else future == []
    {
      ok := true;
      while tasks == [] && !term
        invariant Tied() && m.pc.Waiting? && |future| <= |old(future)|
        decreases |future|
      {
        Follow(Work);
        holder := Free;
        if future == [] {
          return false;
        }
        Others();
        ok := Lock();
        if !ok {
          return;
        }
      }
      Follow(Work);
    }

    /** The mutex is taken, held through the wait, and released. */
    method AwaitWork() returns (ok: bool)
      requires Tied() && m.pc.Locking?
      modifies this
      ensures Tied() && |future| <= |old(future)|
      ensures if ok then m.pc.TestStrict? else future == []
    {
      ok := Lock();
      if ok {
        ok := Wait();
      }
      if ok {
        Follow(Work);
        holder := Free;
      }
    }

    /** exec_ of the queue's head. */
    method Exec_() returns (ok: bool)
      requires Tied() && m.pc.Executing?
      modifies this`results, this`m
      ensures Tied() && m == Step(old(m), Return(ok))
    {
      ok := false;
      if results != [] {
        ok, results := results[0], results[1..];
      }
      Follow(Return(ok));
    }

    /** The head of the queue is executed; if it fails it stays there. */
    method Attempt()
      requires Tied() && m.pc.Fetching?
      modifies this
      ensures Tied() && m.pc.TestStrict? && |future| <= |old(future)|
    {
      var task := tasks[0];
      Follow(Work);
      Others();
      var ok := Exec_();
      Others();
      Settle(ok);
    }

    method Settle(ok: bool)
      requires Tied() && if ok then m.pc.Popping? else m.pc.Retrying?
      modifies this`tasks, this`m
      ensures Tied() && m.pc.TestStrict?
    {
      if ok {
        tasks := tasks[1..];
      }
      Follow(Work);
    }

    /** The inner loop: tasks are executed until the queue is empty or the strict flag is up. */
    method Drain() returns (ok: bool)
      requires Tied() && m.pc.TestStrict?
      modifies this
      ensures Tied() && |future| <= |old(future)|
      ensures if ok then m.pc.TestTerm? && (sterm || tasks == []) else future == []
    {
      while !sterm
        invariant Tied() && m.pc.TestStrict? && |future| <= |old(future)|
        decreases |future|
      {
        if future == [] {
          return false;
        }
        Follow(Work);
        Others();
        if tasks == [] {
          Follow(Work);
          return true;
        }
        Follow(Work);
        Others();
        Attempt();
        Others();
      }
      Follow(Work);
      ok := true;
    }

    /** The worker thread. It goes on while the future does, or until it sees `term`. */
    method TaskLoop()
      requires Tied() && m.pc.TestTerm?
      modifies this
      ensures Tied() && (m.pc.Exited? || future == [])
      ensures m.added == m.completed + tasks && m.lateStarts <= 1
      ensures m.pc.Exited? ==> term && stopped.Some?
      ensures m.pc.Exited? && stopped == Some(false) ==>
                m.cut.Some? && (m.cut.value.count <= |m.completed| <==> !m.cut.value.race)
    {
      while !term
        invariant Tied() && m.pc.TestTerm?
        decreases |future|
      {
        if future == [] {
          return;
        }
        Follow(Work);
        Others();
        var ok := AwaitWork();
        if !ok {
          return;
        }
        Others();
        ok := Drain();
        if !ok {
          return;
        }
        Others();
      }
      Follow(Work);
    }
  }
}
