/** What the client is told over the wire, operation by operation. */
module WireAnswers {
  import opened Files
  import opened FileServer
  import opened Wire
  import opened WireSafety
  import opened WireRefinement
  import opened Answers

  /** Every choice in a log was open to the operating system when it was made. */
  ghost predicate AllPossible(fs: Server, log: seq<Entry>)
    requires WF(fs)
  {
    forall k :: 0 <= k < |log| ==> Possible(ServeAll(fs, log[..k]), log[k].op, log[k].oc)
  }

  lemma PossibleNext(fs: Server, log: seq<Entry>, e: Entry)
    requires WF(fs) && AllPossible(fs, log) && Possible(ServeAll(fs, log), e.op, e.oc)
    ensures AllPossible(fs, log + [e])
  {
    var more := log + [e];
    assert more[..|log|] == log;
    forall k | 0 <= k < |more| ensures Possible(ServeAll(fs, more[..k]), more[k].op, more[k].oc) {
      if k < |log| {
        assert more[..k] == log[..k] && more[k] == log[k];
      }
    }
  }

  lemma StepPossible(fs: Server, w: World, l: Label)
    requires Safe(fs, w) && Enabled(w, l) && AllPossible(fs, w.log)
    ensures AllPossible(fs, Step(w, l).log)
  {
    var log := Step(w, l).log;
    if log != w.log {
      var e := log[|log| - 1];
      assert log == w.log + [e];
      PossibleNext(fs, w.log, e);
    }
  }

  lemma {:induction false} RunPossible(fs: Server, ws: seq<World>, ls: seq<Label>)
    requires Run(fs, ws, ls)
    ensures AllPossible(fs, ws[|ls|].log)
  {
    if ls != [] {
      var n := |ls| - 1;
      RunPossible(fs, ws[..n + 1], ls[..n]);
      RunSafe(fs, ws, ls);
      assert Safe(fs, ws[n]);
      StepPossible(fs, ws[n], ls[n]);
    }
  }

  /** One operation: what it was answered, from the server before and after it. */
  ghost predicate Answered(s: Server, op: Request, e: Entry, r: Result, t: Server) {
    && WF(s) && e.op == op && Possible(s, op, e.oc)
    && Gets(s, op, e.oc, r) && Becomes(s, op, e.oc, t)
  }

  lemma {:induction false} LogServes(fs: Server, log: seq<Entry>, i: nat)
    requires WF(fs) && i < |log|
    ensures ServeAll(fs, log[..i + 1]) == Serve(ServeAll(fs, log[..i]), log[i].op, log[i].oc).0
  {
    var front := log[..i + 1];
    assert front[..|front| - 1] == log[..i] && front[|front| - 1] == log[i];
  }

  lemma {:induction false} LogAnswers(fs: Server, log: seq<Entry>, i: nat)
    requires WF(fs) && i < |log| && Possible(ServeAll(fs, log[..i]), log[i].op, log[i].oc)
    ensures Answered(ServeAll(fs, log[..i]), log[i].op, log[i], AnswerAt(fs, log, i), ServeAll(fs, log[..i + 1]))
  {
    LogServes(fs, log, i);
    ServeAnswers(ServeAll(fs, log[..i]), log[i].op, log[i].oc);
  }

  /** As long as no operation failed in transport, there is a sequence of servers, from the first
      one on, through which the client's operations lead one after the other: each does to the
      files and descriptors what it says, and each gets the answer that goes with what the
      operating system chose. What was not a write has really been carried out, with that very
      choice; and with nothing outstanding the last of these servers is the one there is. */
  lemma RunAnswers(fs: Server, ws: seq<World>, ls: seq<Label>) returns (ss: seq<Server>)
    requires Run(fs, ws, ls) && ws[|ls|].failed == {}
    ensures var w := ws[|ls|];
            && |ss| == |w.results| + 1 && ss[0] == fs
            && |w.log| <= |w.ops| && |w.results| <= |w.ops|
            && (forall i :: 0 <= i < |w.results| ==>
                  Answered(ss[i], w.ops[i], FullLog(w)[i], w.results[i], ss[i + 1]))
            && (forall i :: 0 <= i < |w.results| && !w.ops[i].Write? ==> i < |w.log| && FullLog(w)[i] == w.log[i])
            && (w.pc.Idle? && w.conns != [] && w.conns[0].todo == [] ==> w.fs == ss[|w.results|])
  {
    var w := ws[|ls|];
    PipelinedRefinement(fs, ws, ls);
    RunPossible(fs, ws, ls);
    RunSafe(fs, ws, ls);
    assert Safe(fs, w);
    var log := FullLog(w);
    ss := seq(|w.results| + 1, i requires 0 <= i <= |w.results| => ServeAll(fs, log[..i]));
    assert log[..0] == [];
    forall i | 0 <= i < |w.results| ensures Answered(ss[i], w.ops[i], log[i], w.results[i], ss[i + 1]) {
      FullPossible(fs, w, i);
      LogAnswers(fs, log, i);
    }
    assert w.pc.Idle? ==> log[..|w.results|] == log;
  }

  /** The choices in the log, and those assumed for the writes still to be stored. */
  lemma FullPossible(fs: Server, w: World, i: nat)
    requires WF(fs) && AllPossible(fs, w.log) && |w.log| <= |w.ops| && i < |w.ops|
    requires FullLog(w)[i].op == w.ops[i] && (!w.ops[i].Write? ==> i < |w.log|)
    ensures Possible(ServeAll(fs, FullLog(w)[..i]), w.ops[i], FullLog(w)[i].oc)
  {
    var log := FullLog(w);
    if i < |w.log| {
      assert log[..i] == w.log[..i] && log[i] == w.log[i];
    }
  }
}
