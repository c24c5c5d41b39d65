/** One remote file seen through the link: what calls on it do while the requests left on
    abandoned connections keep away from it. */
module LinkFiles {
  import opened Files
  import opened FileServer
  import opened Link

  predicate LeadsTo(s: Server, fd: int, p: string) {
    fd in s.fds && s.fds[fd] == p
  }

  /** A request that neither touches the file at p nor closes a descriptor outside `aside`. */
  predicate Leaves(s: Server, op: Request, p: string, aside: set<int>) {
    && (op.Close? || op.Write? ==> op.fd in aside)
    && (op.Write? ==> !LeadsTo(s, op.fd, p))
    && (op.Open? || op.Create? ==> op.path != p)
  }

  /** All that abandoned connections may still carry out leaves p alone, and the descriptor of
      a write to p in flight. */
  ghost predicate Aside(l: Link, p: string, aside: set<int>) {
    && (forall i, k :: 0 <= i < |l.strays| && 0 <= k < |l.strays[i]| ==> Leaves(l.fs, l.strays[i][k], p, aside))
    && (l.flying != [] && l.flying[0].Write? && LeadsTo(l.fs, l.flying[0].fd, p) ==> l.flying[0].fd !in aside)
  }

  /** The descriptors that requests left on abandoned connections still refer to. */
  function Astray(l: Link): set<int> {
    set i, k | 0 <= i < |l.strays| && 0 <= k < |l.strays[i]| && (l.strays[i][k].Close? || l.strays[i][k].Write?) :: l.strays[i][k].fd
  }

  /** With p opened as fd, nothing abandoned can interfere. */
  ghost predicate Clear(l: Link, p: string, fd: int) {
    Aside(l, p, Astray(l)) && fd !in Astray(l)
  }

  /** That asks for no more than any other choice of a set would. */
  lemma ClearLeast(l: Link, p: string, fd: int, aside: set<int>)
    requires Aside(l, p, aside) && fd !in aside
    ensures Clear(l, p, fd)
  {
    assert Astray(l) <= aside by {
      forall x | x in Astray(l) ensures x in aside {
        var i, k :| 0 <= i < |l.strays| && 0 <= k < |l.strays[i]| && (l.strays[i][k].Close? || l.strays[i][k].Write?) && l.strays[i][k].fd == x;
        assert Leaves(l.fs, l.strays[i][k], p, aside);
      }
    }
  }

  /** Descriptors outside a set stay as they are. */
  ghost predicate KeptBut(aside: set<int>, s: Server, t: Server) {
    forall fd :: fd in s.fds && fd !in aside ==> fd in t.fds && t.fds[fd] == s.fds[fd]
  }

  /** No descriptor of a set newly leads to p. */
  ghost predicate NoNew(aside: set<int>, s: Server, t: Server, p: string) {
    forall fd :: fd in aside && LeadsTo(t, fd, p) ==> LeadsTo(s, fd, p)
  }

  /** Storing a write, from two servers that agree on p. */
  lemma StoresAlike(s: Server, t: Server, w: Request, p: string)
    requires WF(s) && WF(t) && w.Write? && Held(s, p) == Held(t, p)
    requires LeadsTo(s, w.fd, p) <==> LeadsTo(t, w.fd, p)
    ensures Held(Served(s, w, Complete), p) == Held(Served(t, w, Complete), p)
    ensures Served(s, w, Complete).fds == s.fds
  {
  }

  /** What server threads do between calls leaves of the file at p. */
  ghost predicate Moved(l: Link, l': Link, p: string, aside: set<int>)
    requires LinkOk(l) && LinkOk(l')
  {
    && Aside(l', p, aside) && KeptBut(aside, l.fs, l'.fs) && NoNew(aside, l.fs, l'.fs, p)
    && Held(View(l'), p) == Held(View(l), p)
    && if l'.flying == l.flying then Held(l'.fs, p) == Held(l.fs, p) else l'.flying == []
  }

  lemma OwnLineMoves(l: Link, oc: Outcome, p: string, aside: set<int>)
    requires LinkOk(l) && Aside(l, p, aside)
    ensures Moved(l, DoAct(l, Act(-1, oc)), p, aside)
  {
    if l.flying != [] {
      StoresAlike(l.fs, l.fs, l.flying[0], p);
    }
  }

  lemma StrayMoves(l: Link, a: Act, p: string, aside: set<int>)
    requires LinkOk(l) && Aside(l, p, aside) && 0 <= a.line < |l.strays| && l.strays[a.line] != []
    ensures Moved(l, DoAct(l, a), p, aside)
  {
    var l' := DoAct(l, a);
    var op := l.strays[a.line][0];
    assert Leaves(l.fs, op, p, aside);
    assert forall k :: 0 <= k < |l.strays[a.line][1..]| ==> l.strays[a.line][1..][k] == l.strays[a.line][k + 1];
    if l.flying != [] {
      StoresAlike(l.fs, l'.fs, l.flying[0], p);
    }
  }

  lemma {:induction false} ActsMove(l: Link, acts: seq<Act>, p: string, aside: set<int>)
    requires LinkOk(l) && Aside(l, p, aside)
    ensures Moved(l, DoActs(l, acts), p, aside)
  {
    if acts != [] {
      var n := |acts| - 1;
      ActsMove(l, acts[..n], p, aside);
      var m, a := DoActs(l, acts[..n]), acts[n];
      if a.line < 0 {
        OwnLineMoves(m, a.oc, p, aside);
      } else if a.line < |m.strays| && m.strays[a.line] != [] {
        StrayMoves(m, a, p, aside);
      }
    }
  }

  // Calls.

  /** A reply came back, and the client has its connection. */
  predicate Arrived(e: Net) {
    e.verdict.Up?
  }

  lemma OpenArrives(l: Link, e: Net, p: string, aside: set<int>)
    requires LinkOk(l) && Aside(l, p, aside) && Arrived(e)
    ensures var (l', r) := Call(l, e, Request.Open(p));
            && l'.flying == [] && Held(l'.fs, p) == Held(View(l), p) && KeptBut(aside, l.fs, l'.fs)
            && (r.rc >= 0 ==>
                  && LeadsTo(l'.fs, r.rc, p) && (r.rc in l.fs.fds ==> r.rc in aside)
                  && (r.rc !in aside ==> Aside(l', p, aside)))
            && (!e.verdict.oc.Fails? ==> r.rc >= 0)
  {
    ActsMove(l, e.before, p, aside);
    var l1 := DoActs(l, e.before);
    assert View(l1).fds == l1.fs.fds;
  }

  function Wider(aside: set<int>, op: Request): set<int> {
    if op.Close? then aside + {op.fd} else aside
  }

  lemma AbandonedAside(l: Link, op: Request, taken: bool, p: string, aside: set<int>)
    requires LinkOk(l) && Aside(l, p, aside) && l.flying == [] && (op.Read? || op.Write? || op.Close?)
    ensures Aside(Abandoned(l, op, taken), p, Wider(aside, op))
  {
  }

  /** A call that breaks off loses what was in flight, or finds it stored. */
  lemma CallBreaks(l: Link, e: Net, op: Request, p: string, aside: set<int>)
    requires LinkOk(l) && Aside(l, p, aside) && !Arrived(e)
    ensures var (l', r) := Call(l, e, op);
            && r.rc == -ENETDOWN && l'.flying == [] && KeptBut(aside, l.fs, l'.fs)
            && (Held(l'.fs, p) == Held(l.fs, p) || Held(l'.fs, p) == Held(View(l), p))
            && (l.flying == [] && (op.Read? || op.Write? || op.Close?) ==> Aside(l', p, Wider(aside, op)))
  {
    ActsMove(l, e.before, p, aside);
    var l1 := DoActs(l, e.before);
    assert l1.flying == [] ==> View(l1) == l1.fs;
    if l.flying == [] && (op.Read? || op.Write? || op.Close?) {
      AbandonedAside(l1, op, e.verdict.Down? && e.verdict.taken, p, aside);
    }
  }

  lemma ReadArrives(l: Link, e: Net, fd: int, off: nat, size: nat, p: string, aside: set<int>)
    requires LinkOk(l) && Aside(l, p, aside) && Arrived(e) && fd !in aside && LeadsTo(l.fs, fd, p) && size > 0
    ensures var (l', r) := Call(l, e, Request.Read(fd, off, size));
            var c := Held(View(l), p);
            && Moved(l, l', p, aside) && l'.flying == []
            && (r.rc >= 0 ==> |r.data| == r.rc <= size && off + r.rc <= Max(off, |c|) && r.data == ReadAt(c, off, r.rc))
            && (r.rc == 0 ==> off >= |c|)
            && (!e.verdict.oc.Fails? ==> r.rc >= 0)
  {
    ActsMove(l, e.before, p, aside);
  }

  lemma WriteArrives(l: Link, e: Net, fd: int, off: nat, data: Content, p: string, aside: set<int>)
    requires LinkOk(l) && Aside(l, p, aside) && Arrived(e) && fd !in aside && LeadsTo(l.fs, fd, p) && data != []
    ensures var op := Request.Write(fd, off, data);
            var (l', r) := Call(l, e, op);
            && Aside(l', p, aside) && KeptBut(aside, l.fs, l'.fs) && l'.flying == [op] && r.rc == |data|
            && Held(l'.fs, p) == Held(View(l), p)
            && Held(View(l'), p) == WriteAt(Held(View(l), p), off, data)
  {
    ActsMove(l, e.before, p, aside);
    assert data[..|data|] == data;
  }

  lemma CloseArrives(l: Link, e: Net, fd: int, p: string, aside: set<int>)
    requires LinkOk(l) && Aside(l, p, aside) && Arrived(e)
    ensures var l' := Call(l, e, Request.Close(fd)).0;
            && Aside(l', p, aside)
            && l'.flying == [] && KeptBut(aside + {fd}, l.fs, l'.fs) && Held(l'.fs, p) == Held(View(l), p)
  {
    ActsMove(l, e.before, p, aside);
  }

  // A connection that breaks during a series of writes.

  /** One accepted write to p may still be stored, late; what the file holds is what it held
      without it or with it. */
  ghost predicate Loose(l: Link, p: string, aside: set<int>, w: Request, without: Content)
    requires w.Write? && w.off >= 0
  {
    && LinkOk(l) && l.flying == []
    && (forall i, k :: 0 <= i < |l.strays| && 0 <= k < |l.strays[i]| ==>
          Leaves(l.fs, l.strays[i][k], p, aside) || l.strays[i][k] == w)
    && (Held(l.fs, p) == without || Held(l.fs, p) == WriteAt(without, w.off, w.data))
  }

  lemma StoredLoose(f: Content, w: Request, without: Content)
    requires w.Write? && w.off >= 0 && (f == without || f == WriteAt(without, w.off, w.data))
    ensures WriteAt(f, w.off, w.data[..|w.data|]) == WriteAt(without, w.off, w.data)
  {
    assert w.data[..|w.data|] == w.data;
  }

  lemma LooseServes(s: Server, op: Request, oc: Outcome, p: string, aside: set<int>, w: Request, without: Content)
    requires WF(s) && w.Write? && w.off >= 0 && (Leaves(s, op, p, aside) || op == w)
    requires Held(s, p) == without || Held(s, p) == WriteAt(without, w.off, w.data)
    ensures var t := Served(s, op, oc);
            && KeptBut(aside, s, t) && (forall fd :: LeadsTo(t, fd, p) ==> LeadsTo(s, fd, p))
            && (Held(t, p) == without || Held(t, p) == WriteAt(without, w.off, w.data))
  {
    if op == w {
      StoredLoose(Held(s, p), w, without);
    }
  }

  lemma LooseAct(l: Link, a: Act, p: string, aside: set<int>, w: Request, without: Content)
    requires w.Write? && w.off >= 0 && Loose(l, p, aside, w, without)
    ensures Loose(DoAct(l, a), p, aside, w, without) && KeptBut(aside, l.fs, DoAct(l, a).fs)
  {
    if 0 <= a.line < |l.strays| && l.strays[a.line] != [] {
      assert forall k :: 0 <= k < |l.strays[a.line][1..]| ==> l.strays[a.line][1..][k] == l.strays[a.line][k + 1];
      LooseServes(l.fs, l.strays[a.line][0], a.oc, p, aside, w, without);
    }
  }

  /** So whatever the server threads do later, nothing else becomes of the file. */
  lemma {:induction false} LooseActs(l: Link, acts: seq<Act>, p: string, aside: set<int>, w: Request, without: Content)
    requires w.Write? && w.off >= 0 && Loose(l, p, aside, w, without)
    ensures Loose(DoActs(l, acts), p, aside, w, without) && KeptBut(aside, l.fs, DoActs(l, acts).fs)
  {
    if acts != [] {
      var n := |acts| - 1;
      LooseActs(l, acts[..n], p, aside, w, without);
      LooseAct(DoActs(l, acts[..n]), acts[n], p, aside, w, without);
    }
  }

  /** The write in flight when a connection breaks. */
  lemma BreaksLoose(l: Link, e: Net, op: Request, p: string, aside: set<int>)
    requires LinkOk(l) && Aside(l, p, aside) && !Arrived(e) && (op.Write? || op.Close?)
    requires |l.flying| == 1 && l.flying[0].off >= 0 && LeadsTo(l.fs, l.flying[0].fd, p)
    ensures var l' := Call(l, e, op).0;
            && Loose(l', p, Wider(aside, op), l.flying[0], Held(l.fs, p))
            && KeptBut(aside, l.fs, l'.fs)
  {
    var w := l.flying[0];
    ActsMove(l, e.before, p, aside);
    StoredThere(l, p);
  }

  lemma StoredThere(l: Link, p: string)
    requires LinkOk(l) && |l.flying| == 1 && l.flying[0].off >= 0 && LeadsTo(l.fs, l.flying[0].fd, p)
    ensures Held(View(l), p) == WriteAt(Held(l.fs, p), l.flying[0].off, l.flying[0].data)
  {
    var w := l.flying[0];
    assert w.data[..|w.data|] == w.data;
  }

  lemma CloseLoose(l: Link, e: Net, fd: int, p: string, aside: set<int>, w: Request, without: Content)
    requires w.Write? && w.off >= 0 && Loose(l, p, aside, w, without) && fd in aside
    ensures var l' := Call(l, e, Request.Close(fd)).0;
            Loose(l', p, aside, w, without) && KeptBut(aside, l.fs, l'.fs)
  {
    LooseActs(l, e.before, p, aside, w, without);
  }

}
