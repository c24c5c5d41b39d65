/** The offline edit theorem: fetch a file, edit the local copy, send it back, and the remote
    file is what the edits would have made of the original. */
module OfflineEdit {
  import opened Files
  import opened Link
  import opened LinkFiles
  import opened Transfer
  import opened Mirror
  import opened MirrorTheorems
  import D = Disk

  /** What an observer of the calls on one path writes down after it was fetched: the handles
      opened on it since, and the writes that went through them. */
  datatype Session = Session(mine: set<int>, edits: seq<Patch>)

  function Note(p: string, s: State, e: Event, t: Session): Session
    requires Ok(s)
  {
    match e.op
    case OpenOp(q) => if q == p && e.rc >= 0 then t.(mine := t.mine + {e.rc}) else t
    case CloseOp(h) => t.(mine := t.mine - {h})
    case WriteOp(h, off, data) =>
      if h in t.mine && h in s.handles && !s.handles[h].isDrfs && e.rc >= 0
      then t.(edits := t.edits + [Patch(Landing(s, h, off), data)]) else t
    case _ => t
  }

  /** The notes taken over a whole run. */
  function Notes(p: string, ss: seq<State>, es: seq<Event>): Session
    requires |ss| == |es| + 1
    requires forall i :: 0 <= i < |ss| ==> Ok(ss[i])
  {
    if es == [] then Session({}, [])
    else
      var n := |es| - 1;
      Note(p, ss[n], es[n], Notes(p, ss[..n + 1], es[..n]))
  }

  /** What may happen between the pull and the push: anything but another successful pull of
      the same file, or its deletion. */
  predicate Between(g: Config, p: string, e: Event) {
    && OnFiles(g, e.op)
    && !(e.op.Pull? && e.op.path == p && e.rc == 0)
    && !(e.op.Delete? && e.op.path == p)
  }

  /** While the session lasts, the mirror file is one inode, holding the original with the
      edits noted so far; the local handles that lead to it are those noted. */
  ghost predicate Editing(g: Config, p: string, s: State, ino: int, c: Content, t: Session) {
    && Proper(g) && Ok(s) && Clean(g, s)
    && g.mirror(p) in s.disk.names && s.disk.names[g.mirror(p)] == ino
    && s.disk.data[ino] == ApplyAll(c, t.edits)
    && forall h :: Leads(s, h, ino) <==> h in t.mine
  }

  /** Handle h is local and leads to an inode. */
  ghost predicate Leads(s: State, h: int, ino: int)
    requires Ok(s)
  {
    h in s.handles && !s.handles[h].isDrfs && s.disk.fds[s.handles[h].fd].ino == ino
  }

  /** Two different paths have different mirror files. */
  lemma OtherFile(g: Config, p: string, q: string)
    requires Proper(g) && g.rooted(p) && g.rooted(q) && p != q
    ensures g.mirror(p) != g.mirror(q)
  {
  }

  /** A pull starts a session: the inode is new, so no handle opened before leads to it. */
  lemma PullBegins(g: Config, p: string, s: State, e: Event, s': State)
    requires Proper(g) && Ok(s) && Clean(g, s) && Step(g, s, e, s')
    requires e.op.Pull? && e.op.path == p && g.visible(p) && e.rc == 0
    ensures Editing(g, p, s', s.disk.nextIno, e.trace.got, Session({}, []))
    ensures e.op.st.IsStat? && |e.trace.got| == e.op.st.size
    ensures Clear(s.link, g.remote(p), e.trace.fd) ==> e.trace.got <= RemoteFile(g, s, p)
  {
    PullPublishes(g, s, s', p, e.op.st, e.trace);
    PullClean(g, s, s', p, e.op.st, 0, e.trace);
  }

  lemma OpenKeeps(g: Config, p: string, s: State, q: string, e: Event, s': State, ino: int, c: Content, t: Session)
    requires Editing(g, p, s, ino, c, t) && e.op == OpenOp(q) && Step(g, s, e, s') && g.rooted(p) && g.rooted(q)
    ensures Editing(g, p, s', ino, c, Note(p, s, e, t))
  {
    OpenAddsOne(g, s, q);
    OpenOk(g, s, q);
    if p != q {
      OtherFile(g, p, q);
    }
    forall h | h != e.rc ensures Leads(s', h, ino) <==> Leads(s, h, ino) {
    }
  }

  lemma CloseKeeps(g: Config, p: string, s: State, h: int, e: Event, s': State, ino: int, c: Content, t: Session)
    requires Editing(g, p, s, ino, c, t) && e.op == CloseOp(h) && Step(g, s, e, s')
    ensures Editing(g, p, s', ino, c, Note(p, s, e, t))
  {
    CloseOk(s, h);
    CloseLeaves(s, h);
    forall k ensures Leads(s', k, ino) <==> Leads(s, k, ino) && k != h {
    }
  }

  lemma ReadKeeps(g: Config, p: string, s: State, e: Event, s': State, ino: int, c: Content, t: Session)
    requires Editing(g, p, s, ino, c, t) && e.op.ReadOp? && Step(g, s, e, s')
    ensures Editing(g, p, s', ino, c, t)
  {
    ReadOk(s, e.op.h, e.op.off, e.op.size);
  }

  lemma WriteKeeps(g: Config, p: string, s: State, e: Event, s': State, ino: int, c: Content, t: Session)
    requires Editing(g, p, s, ino, c, t) && e.op.WriteOp? && Step(g, s, e, s')
    ensures Editing(g, p, s', ino, c, Note(p, s, e, t))
  {
    var h, off, data := e.op.h, e.op.off, e.op.data;
    WriteOk(s, h, off, data);
    WriteLands(s, h, off, data);
    assert h in t.mine <==> Leads(s, h, ino);
    if h in t.mine && e.rc >= 0 {
      ApplyAllSnoc(c, t.edits, Patch(Landing(s, h, off), data));
    }
  }

  /** Commands on other files leave the session alone, and so do failed pulls and any pushes
      of this one. */
  lemma CommandKeeps(g: Config, p: string, s: State, e: Event, s': State, ino: int, c: Content, t: Session)
    requires Editing(g, p, s, ino, c, t) && Step(g, s, e, s') && !FileOp(e.op) && g.visible(p) && Between(g, p, e)
    ensures Editing(g, p, s', ino, c, t)
  {
    StepOk(g, s, e, s');
  }

  lemma StepKeeps(g: Config, p: string, s: State, e: Event, s': State, ino: int, c: Content, t: Session)
    requires Editing(g, p, s, ino, c, t) && Step(g, s, e, s') && g.visible(p) && Between(g, p, e)
    ensures Editing(g, p, s', ino, c, Note(p, s, e, t))
  {
    match e.op
    case OpenOp(q) => OpenKeeps(g, p, s, q, e, s', ino, c, t);
    case CloseOp(h) => CloseKeeps(g, p, s, h, e, s', ino, c, t);
    case ReadOp(_, _, _) => ReadKeeps(g, p, s, e, s', ino, c, t);
    case WriteOp(_, _, _) => WriteKeeps(g, p, s, e, s', ino, c, t);
    case _ => CommandKeeps(g, p, s, e, s', ino, c, t);
  }

  /** Through every run of a session the mirror file is the original with all edits applied
      in the order they were made. */
  lemma {:induction false} SessionKeeps(g: Config, p: string, ss: seq<State>, es: seq<Event>, ino: int, c: Content)
    requires Run(g, ss, es) && g.visible(p) && Editing(g, p, ss[0], ino, c, Session({}, []))
    requires forall i :: 0 <= i < |es| ==> Between(g, p, es[i])
    ensures forall i :: 0 <= i < |ss| ==> Ok(ss[i])
    ensures Editing(g, p, ss[|es|], ino, c, Notes(p, ss, es))
  {
    RunOk(g, ss, es);
    if es != [] {
      var n := |es| - 1;
      assert Run(g, ss[..n + 1], es[..n]);
      SessionKeeps(g, p, ss[..n + 1], es[..n], ino, c);
      assert ss[..n + 1][n] == ss[n];
      StepKeeps(g, p, ss[n], es[n], ss[n + 1], ino, c, Notes(p, ss[..n + 1], es[..n]));
    }
  }

  // The remote side.

  /** A pull, a session on the same path, and a push of it, the first and the last of which
      succeed. */
  ghost predicate OfflineRun(g: Config, p: string, ss: seq<State>, es: seq<Event>) {
    && Proper(g) && Run(g, ss, es) && |es| >= 2 && g.visible(p) && Clean(g, ss[0])
    && es[0].op.Pull? && es[0].op.path == p && es[0].op.st.IsStat? && es[0].rc == 0
    && (forall i :: 0 < i < |es| - 1 ==> Between(g, p, es[i]))
    && es[|es| - 1].op == Push(p) && es[|es| - 1].rc == 0
  }

  /** No request left on an abandoned connection interferes with a transfer of p. */
  ghost predicate Undisturbed(g: Config, p: string, s: State, e: Event) {
    Clear(s.link, g.remote(p), e.trace.fd)
  }

  function Edits(p: string, ss: seq<State>, es: seq<Event>): seq<Patch>
    requires |ss| == |es| + 1 && |es| >= 2
    requires forall i :: 0 <= i < |ss| ==> Ok(ss[i])
  {
    Notes(p, ss[1..|es|], es[1..|es| - 1]).edits
  }

  /** How much of a file of this content a push has stored when it is over. */
  function StoredBytes(m: Content, e: Event): nat {
    Reached(m, e.trace.stored)
  }

  /** What the server has after a push of m over `before`: m as far as it was stored, which is
      all of it if the close was answered and all but the last chunk at least; and when that
      is m itself. */
  ghost predicate SentOver(before: Content, m: Content, after: Content, e: Event) {
    var k := StoredBytes(m, e);
    && after == m[..k] + Tail(before, k) && |m| <= k + DL_CHUNK_SIZE
    && (after == m <==> Tail(before, k) == m[k..])
    && (Arrived(e.trace.close) ==> k == |m| && (after == m <==> |before| <= |m|))
  }

  lemma PushSends(g: Config, p: string, s: State, e: Event, s': State)
    requires Ok(s) && Step(g, s, e, s') && e.op == Push(p) && e.rc == 0
    requires g.mirror(p) in s.disk.names && Undisturbed(g, p, s, e)
    ensures LinkOk(s'.link) && SentOver(RemoteFile(g, s, p), D.FileAt(s.disk, g.mirror(p)), RemoteFile(g, s', p), e)
  {
    var m, before := D.FileAt(s.disk, g.mirror(p)), RemoteFile(g, s, p);
  }

  /** The middle of an offline run is itself a run, starting with an empty session. */
  lemma Middle(g: Config, p: string, ss: seq<State>, es: seq<Event>)
    requires OfflineRun(g, p, ss, es)
    ensures forall i :: 0 <= i < |ss| ==> Ok(ss[i])
    ensures Run(g, ss[1..|es|], es[1..|es| - 1])
    ensures Editing(g, p, ss[1], ss[0].disk.nextIno, es[0].trace.got, Session({}, []))
    ensures |es[0].trace.got| == es[0].op.st.size
    ensures Undisturbed(g, p, ss[0], es[0]) ==> es[0].trace.got <= RemoteFile(g, ss[0], p)
  {
    RunOk(g, ss, es);
    PullBegins(g, p, ss[0], es[0], ss[1]);
    var n := |es| - 1;
    var ts, fs := ss[1..n + 1], es[1..n];
    forall i | 0 <= i < |fs| && Ok(ts[i]) ensures Step(g, ts[i], fs[i], ts[i + 1]) {
      assert Step(g, ss[i + 1], es[i + 1], ss[i + 2]);
    }
  }

  lemma Begins(a: Content, c: Content)
    requires a <= c
    ensures c[..|a|] == a
  {
  }

  /** The mirror file when the push begins. */
  lemma {:induction false} Edited(g: Config, p: string, ss: seq<State>, es: seq<Event>)
    requires OfflineRun(g, p, ss, es) && Undisturbed(g, p, ss[0], es[0])
    ensures forall i :: 0 <= i < |ss| ==> Ok(ss[i])
    ensures Ok(ss[0]) && Ok(ss[|es| - 1])
    ensures var n, c, size := |es| - 1, RemoteFile(g, ss[0], p), es[0].op.st.size;
            && size <= |c| && g.mirror(p) in ss[n].disk.names
            && D.FileAt(ss[n].disk, g.mirror(p)) == ApplyAll(c[..size], Edits(p, ss, es))
  {
    Middle(g, p, ss, es);
    var n, ino, got := |es| - 1, ss[0].disk.nextIno, es[0].trace.got;
    var ts, fs := ss[1..|es|], es[1..|es| - 1];
    assert ts[0] == ss[1] && ts[|fs|] == ss[n];
    SessionKeeps(g, p, ts, fs, ino, got);
    Begins(got, RemoteFile(g, ss[0], p));
  }

  /** Offline edits, whatever else goes on at the server meanwhile. What the pull took and the
      edits made of it overwrites the remote file from its start, up to the last chunk the
      server stored. With a fresh stat at the time of the pull, the remote file is then exactly
      the original with the edits if and only if what the push did not store was there
      already and there was nothing more: when its close was answered, if and only if nobody
      has meanwhile made the file longer than that. */
  lemma OfflineEdits(g: Config, p: string, ss: seq<State>, es: seq<Event>)
    requires OfflineRun(g, p, ss, es)
    requires Undisturbed(g, p, ss[0], es[0]) && Undisturbed(g, p, ss[|es| - 1], es[|es| - 1])
    ensures forall i :: 0 <= i < |ss| ==> Ok(ss[i])
    ensures Ok(ss[0]) && Ok(ss[|es| - 1]) && Ok(ss[|es|])
    ensures var n, c, size := |es| - 1, RemoteFile(g, ss[0], p), es[0].op.st.size;
            && size <= |c|
            && SentOver(RemoteFile(g, ss[n], p), ApplyAll(c[..size], Edits(p, ss, es)), RemoteFile(g, ss[n + 1], p), es[n])
            && (size == |c| ==> ApplyAll(c[..size], Edits(p, ss, es)) == ApplyAll(c, Edits(p, ss, es)))
  {
    Edited(g, p, ss, es);
    var n, c := |es| - 1, RemoteFile(g, ss[0], p);
    PushSends(g, p, ss[n], es[n], ss[n + 1]);
    assert c[..|c|] == c;
  }

  // When nobody else makes the file longer.

  /** A push, even one that breaks off, makes the remote file no longer than the longer of
      itself and the mirror file. */
  lemma PushBounds(g: Config, p: string, s: State, e: Event, s': State)
    requires Ok(s) && Step(g, s, e, s') && e.op == Push(p) && g.mirror(p) in s.disk.names && Undisturbed(g, p, s, e)
    ensures LinkOk(s'.link) && |RemoteFile(g, s', p)| <= Max(|RemoteFile(g, s, p)|, |D.FileAt(s.disk, g.mirror(p))|)
  {
  }

  lemma NotesGrow(p: string, s: State, e: Event, t: Session, c: Content)
    requires Ok(s)
    ensures |ApplyAll(c, t.edits)| <= |ApplyAll(c, Note(p, s, e, t).edits)|
  {
    var u := Note(p, s, e, t);
    if u.edits != t.edits {
      var w := Patch(Landing(s, e.op.h, e.op.off), e.op.data);
      ApplyAllSnoc(c, t.edits, w);
      WriteAtBytes(ApplyAll(c, t.edits), w.off, w.data);
    }
  }

  /** Nobody else makes the remote file of p longer than the mirror file; a push of p that
      nothing abandoned interferes with may do what it does. */
  ghost predicate NoOtherGrowth(g: Config, p: string, ss: seq<State>, es: seq<Event>) {
    |ss| == |es| + 1 && forall i :: 0 <= i < |es| ==> Alone(g, p, ss[i], es[i], ss[i + 1])
  }

  ghost predicate Alone(g: Config, p: string, s: State, e: Event, s': State) {
    && Ok(s) && Ok(s')
    && (|| (e.op == Push(p) && Undisturbed(g, p, s, e))
        || |RemoteFile(g, s', p)| <= Max(|RemoteFile(g, s, p)|, |MirrorFile(g, s, p)|))
  }

  function MirrorFile(g: Config, s: State, p: string): Content
    requires Ok(s)
  {
    if g.mirror(p) in s.disk.names then D.FileAt(s.disk, g.mirror(p)) else []
  }

  /** That allows for a push of the same session that broke off: whenever the last chunk it sent
      arrives in the end, this does not make the file any longer, the mirror file having grown
      since if anything. */
  lemma LateChunkAlone(g: Config, p: string, s: State, e: Event, s': State, acts: seq<Act>,
                       fd: int, aside: set<int>, f: Content, m: Content, k: nat)
    requires Ok(s) && Left(s.link, fd, g.remote(p), aside, f, m, k, false) && |m| <= |MirrorFile(g, s, p)|
    requires e.op == Elsewhere(DoActs(s.link, acts), s.delayed) && Step(g, s, e, s')
    ensures Alone(g, p, s, e, s') && Left(s'.link, fd, g.remote(p), aside, f, m, k, false)
  {
    LeftLater(s.link, fd, g.remote(p), aside, f, m, k, acts);
    if k > 0 {
      NextChunk(f, m, fd, k - 1);
    }
  }

  lemma {:induction false} StepShort(g: Config, p: string, s: State, e: Event, s': State, ino: int, c: Content, t: Session)
    requires Editing(g, p, s, ino, c, t) && Step(g, s, e, s') && Alone(g, p, s, e, s')
    requires |RemoteFile(g, s, p)| <= |ApplyAll(c, t.edits)|
    ensures |RemoteFile(g, s', p)| <= |ApplyAll(c, Note(p, s, e, t).edits)|
  {
    NotesGrow(p, s, e, t, c);
    if e.op == Push(p) && Undisturbed(g, p, s, e) {
      PushBounds(g, p, s, e, s');
    }
  }

  lemma {:induction false} NeverLonger(g: Config, p: string, ss: seq<State>, es: seq<Event>, ino: int, c: Content)
    requires Run(g, ss, es) && g.visible(p) && NoOtherGrowth(g, p, ss, es)
    requires Editing(g, p, ss[0], ino, c, Session({}, []))
    requires forall i :: 0 <= i < |es| ==> Between(g, p, es[i])
    requires |RemoteFile(g, ss[0], p)| <= |c|
    ensures forall i :: 0 <= i < |ss| ==> Ok(ss[i])
    ensures Ok(ss[|es|]) && |RemoteFile(g, ss[|es|], p)| <= |ApplyAll(c, Notes(p, ss, es).edits)|
  {
    RunOk(g, ss, es);
    if es != [] {
      var n := |es| - 1;
      var ts, fs := ss[..|es|], es[..n];
      NeverLonger(g, p, ts, fs, ino, c);
      SessionKeeps(g, p, ts, fs, ino, c);
      StepShort(g, p, ss[n], es[n], ss[n + 1], ino, c, Notes(p, ts, fs));
    }
  }

  lemma StaysShort(g: Config, p: string, ss: seq<State>, es: seq<Event>)
    requires OfflineRun(g, p, ss, es) && Undisturbed(g, p, ss[0], es[0])
    requires Ok(ss[0]) && NoOtherGrowth(g, p, ss[1..|es|], es[1..|es| - 1])
    requires es[0].op.st.size == |RemoteFile(g, ss[0], p)|
    ensures forall i :: 0 <= i < |ss| ==> Ok(ss[i])
    ensures Ok(ss[0]) && Ok(ss[|es| - 1])
    ensures |RemoteFile(g, ss[|es| - 1], p)| <= |ApplyAll(RemoteFile(g, ss[0], p), Edits(p, ss, es))|
  {
    Middle(g, p, ss, es);
    var n := |es| - 1;
    var c := RemoteFile(g, ss[0], p);
    var ts, fs := ss[1..n + 1], es[1..n];
    assert c[..|c|] == c;
    assert ts[0] == ss[1] && ts[n - 1] == ss[n];
    NeverLonger(g, p, ts, fs, ss[0].disk.nextIno, c);
  }

  /** The offline edit theorem: with a fresh stat and nobody else making the file longer, the
      remote file after the push is the one before the pull with the edits applied, whatever
      was done to other files, and however many pushes of this one failed or succeeded in
      between, late chunks included, if the close that ended the push was answered; and if it
      was not, exactly when the last chunk had been stored all the same or is what the file
      already ended in. */
  lemma OfflineEditTheorem(g: Config, p: string, ss: seq<State>, es: seq<Event>)
    requires OfflineRun(g, p, ss, es) && Ok(ss[0]) && NoOtherGrowth(g, p, ss[1..|es|], es[1..|es| - 1])
    requires Undisturbed(g, p, ss[0], es[0]) && Undisturbed(g, p, ss[|es| - 1], es[|es| - 1])
    requires es[0].op.st.size == |RemoteFile(g, ss[0], p)|
    ensures forall i :: 0 <= i < |ss| ==> Ok(ss[i])
    ensures Ok(ss[0]) && Ok(ss[|es| - 1]) && Ok(ss[|es|])
    ensures var n, m := |es| - 1, ApplyAll(RemoteFile(g, ss[0], p), Edits(p, ss, es));
            var k := StoredBytes(m, es[n]);
            && (Arrived(es[n].trace.close) ==> RemoteFile(g, ss[n + 1], p) == m)
            && (RemoteFile(g, ss[n + 1], p) == m <==> k == |m| || Tail(RemoteFile(g, ss[n], p), k) == m[k..])
  {
    OfflineEdits(g, p, ss, es);
    StaysShort(g, p, ss, es);
  }

  /** Sending a file and fetching it back with a fresh stat gives the same file again exactly
      when what the push did not store was there already; if its close was answered, when the
      remote file was not longer: push never shortens. */
  lemma PushThenPull(g: Config, p: string, s: State, e1: Event, s1: State, e2: Event, s2: State)
    requires Proper(g) && Ok(s) && Clean(g, s) && g.visible(p) && g.mirror(p) in s.disk.names
    requires Step(g, s, e1, s1) && e1.op == Push(p) && e1.rc == 0 && Undisturbed(g, p, s, e1)
    requires Ok(s1) && Step(g, s1, e2, s2) && e2.op.Pull? && e2.op.path == p && e2.rc == 0 && Undisturbed(g, p, s1, e2)
    requires e2.op.st.IsStat? && e2.op.st.size == |RemoteFile(g, s1, p)|
    ensures Ok(s2) && g.mirror(p) in s2.disk.names
    ensures SentOver(RemoteFile(g, s, p), D.FileAt(s.disk, g.mirror(p)), D.FileAt(s2.disk, g.mirror(p)), e1)
  {
    PushSends(g, p, s, e1, s1);
    PushKeepsDisk(g, s, e1, s1);
    PullPublishes(g, s1, s2, p, e2.op.st, e2.trace);
    assert e2.trace.got == RemoteFile(g, s1, p);
  }
}
