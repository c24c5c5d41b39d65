/** The server as a client finds it behind the wire: calls that get through are answered in
    order, but the data of a write is stored some time after the write has returned, and what
    a broken connection had taken on may be carried out later or never. */
module Link {
  import opened FileServer
  import opened HandleTable

  /** `fs` is the file server as it stands. `open` says that the client holds a connection;
      `flying` is the write on it whose data the network has accepted and the server has not
      yet stored, if there is one. `strays[i]` are the requests that the i-th connection the
      client gave up had taken on: its thread may still carry them out, in order. */
  datatype Link = Link(fs: Server, open: bool, flying: seq<Request>, strays: seq<seq<Request>>)

  ghost predicate LinkOk(l: Link) {
    && WF(l.fs) && |l.flying| <= 1
    && (l.flying != [] ==> l.open && l.flying[0].Write? && l.flying[0].data != [])
  }

  /** One step of a server thread: the one with the open connection (line -1) stores the
      write, or one of the others carries out its next request. */
  datatype Act = Act(line: int, oc: Outcome)

  /** The operating system's choice, made good if the one proposed is impossible. The
      server's own writes are assumed to store all they are given. */
  function Chosen(s: Server, op: Request, oc: Outcome): Outcome {
    if op.Write? then Complete
    else if Possible(s, op, oc) then oc
    else if op.Open? then Fd(FreeFrom(s.fds, 0))
    else if op.Getattr? || op.Readdir? || op.Ls? then Fails(EIO)
    else Complete
  }

  function Served(s: Server, op: Request, oc: Outcome): (r: Server)
    requires WF(s)
    ensures WF(r)
  {
    Serve(s, op, Chosen(s, op, oc)).0
  }

  function DoAct(l: Link, a: Act): (r: Link)
    requires LinkOk(l)
    ensures LinkOk(r)
  {
    if a.line < 0 then
      if l.flying == [] then l else l.(fs := Served(l.fs, l.flying[0], a.oc), flying := [])
    else if a.line < |l.strays| && l.strays[a.line] != [] then
      var q := l.strays[a.line];
      l.(fs := Served(l.fs, q[0], a.oc), strays := l.strays[a.line := q[1..]])
    else l
  }

  function DoActs(l: Link, acts: seq<Act>): (r: Link)
    requires LinkOk(l)
    ensures LinkOk(r)
  {
    if acts == [] then l else DoAct(DoActs(l, acts[..|acts| - 1]), acts[|acts| - 1])
  }

  /** What a client that gets through finds: everything it was told is done has been. */
  function View(l: Link): (r: Server)
    requires LinkOk(l)
    ensures WF(r)
  {
    if l.flying == [] then l.fs else Served(l.fs, l.flying[0], Complete)
  }

  /** How a call ends: it gets through; the connection breaks, the request taken on by the
      server or not; or there is no connection to be had. `before` is what the server threads
      do before that. */
  datatype Verdict = Up(oc: Outcome) | Down(taken: bool) | Refused
  datatype Net = Net(before: seq<Act>, verdict: Verdict)

  /** The client gives up its connection. A write that fails was not taken on. */
  function Abandoned(l: Link, op: Request, taken: bool): Link {
    l.(open := false, flying := [], strays := l.strays + [l.flying + (if taken && !op.Write? then [op] else [])])
  }

  /** One call. A write returns as soon as its data is accepted. */
  function Call(l: Link, e: Net, op: Request): (r: (Link, Result))
    requires LinkOk(l)
    ensures LinkOk(r.0)
  {
    var l1 := DoActs(l, e.before);
    match e.verdict
    case Up(oc) =>
      var fs := View(l1);
      if op.Write? then
        (l1.(fs := fs, open := true, flying := if op.data == [] then [] else [op]), Result(|op.data|, []))
      else
        (l1.(fs := Served(fs, op, oc), open := true, flying := []),
         Outward(op, Serve(fs, op, Chosen(fs, op, oc)).1))
    case Down(taken) => (Abandoned(l1, op, taken), Result(-ENETDOWN, []))
    case Refused => (if l1.open then Abandoned(l1, op, false) else l1, Result(-ENETDOWN, []))
  }

  /** A client's calls, each with what became of it. */
  datatype Told = Told(op: Request, net: Net)

  function Play(fs: Server, es: seq<Told>): (r: (Link, seq<Result>))
    requires WF(fs)
    ensures LinkOk(r.0) && |r.1| == |es|
  {
    if es == [] then (Link(fs, false, [], []), [])
    else
      var n := |es| - 1;
      var (l, rs) := Play(fs, es[..n]);
      var (l', r) := Call(l, es[n].net, es[n].op);
      (l', rs + [r])
  }

  lemma PlayNext(fs: Server, es: seq<Told>, e: Told)
    requires WF(fs)
    ensures var (l, rs) := Play(fs, es);
            var (l', r) := Call(l, e.net, e.op);
            Play(fs, es + [e]) == (l', rs + [r])
  {
    assert (es + [e])[..|es|] == es;
  }

  lemma DoActsNext(l: Link, acts: seq<Act>, a: Act)
    requires LinkOk(l)
    ensures DoActs(l, acts + [a]) == DoAct(DoActs(l, acts), a)
  {
    assert (acts + [a])[..|acts|] == acts;
  }
}
