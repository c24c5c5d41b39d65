/** The remote file system's metadata calls: the cache first, then the server, then the cache
    is filled. */
module RemoteFs {
  import opened Paths
  import opened MetaCache

  /** What the server says when it is asked. */
  datatype Answer<+T> = Refused(rc: int) | Told(value: T)

  /** What a caller gets, and whether it came from the cache. */
  datatype Reply<+T> = Err(rc: int) | Ok(value: T, cached: bool)

  /** `now` and `stored` are the clock readings of the lookup and of the update. */
  function Getattr(c: Cache, path: string, now: int, stored: int, ans: Answer<StatBuf>): (Cache, Reply<StatBuf>) {
    var (c1, st) := GetStat(c, path, now);
    if st.Some? then (c1, Ok(st.value, true))
    else match ans
      case Refused(rc) => (c1, Err(rc))
      case Told(v) => (UpdateStat(c1, path, v, stored), Ok(v, false))
  }

  ghost function Readdir(c: Cache, dir: string, order: seq<string>, now: int, ts: seq<int>,
                         us: seq<int>, stored: int, ans: Answer<seq<DirentStat>>): (Cache, Reply<seq<DirentStat>>)
    requires Enumerates(order, RowNames(c, dir))
    requires ans.Told? ==> |ans.value| <= |us|
  {
    var (c1, es) := Ls(c, dir, order, now, ts);
    if es.Some? then (c1, Ok(es.value, true))
    else match ans
      case Refused(rc) => (c1, Err(rc))
      case Told(v) => (UpdateLs(c1, dir, v, us, stored), Ok(v, false))
  }

  class RemoteFileSystem {
    const remoteRoot: string
    const cache: Metacache

    constructor (root: string, cache: Metacache)
      ensures remoteRoot == root && this.cache == cache
    {
      remoteRoot, this.cache := root, cache;
    }

    method Getattr_(path: string, ans: Answer<StatBuf>) returns (r: Reply<StatBuf>, now: int)
      modifies cache`stats, cache.clock
      ensures old(cache.clock.now) <= now <= cache.clock.now
      ensures Getattr(old(cache.State()), ToRealPath(path, remoteRoot), now, cache.clock.now, ans) == (cache.State(), r)
    {
      var p := ToRealPath(path, remoteRoot);
      var found, st := cache.Getattr_(p);
      now := cache.clock.now;
      if found {
        return Ok(st, true), now;
      }
      if ans.Refused? {
        return Err(ans.rc), now;
      }
      cache.UpdateStat_(p, ans.value);
      return Ok(ans.value, false), now;
    }

    method Readdir_(path: string, ans: Answer<seq<DirentStat>>)
      returns (r: Reply<seq<DirentStat>>, order: seq<string>, now: int, ts: seq<int>, us: seq<int>)
      modifies cache`stats, cache`dirents, cache.clock
      ensures old(cache.clock.now) <= now <= cache.clock.now
      ensures Readings(now, ts) && Readings(now, us)
      ensures forall i :: 0 <= i < |ts| ==> ts[i] <= cache.clock.now
      ensures forall i :: 0 <= i < |us| ==> us[i] <= cache.clock.now
      ensures ans.Told? ==> |ans.value| <= |us|
      ensures old(Enumerates(order, RowNames(cache.State(), ToRealPath(path, remoteRoot))))
      ensures Readdir(old(cache.State()), ToRealPath(path, remoteRoot), order, now, ts, us, cache.clock.now, ans)
              == (cache.State(), r)
    {
      var dir := ToRealPath(path, remoteRoot);
      var found, entries, ord, t, readings := cache.Ls_(dir);
      order, now, ts := ord, t, readings;
      var t1 := cache.clock.now;
      us := if ans.Told? then seq(|ans.value|, _ => t1) else [];
      if found {
        return Ok(entries, true), order, now, ts, us;
      }
      if ans.Refused? {
        return Err(ans.rc), order, now, ts, us;
      }
      us := cache.UpdateLs_(dir, ans.value);
      return Ok(ans.value, false), order, now, ts, us;
    }
  }

  // Histories.

  /** One value the server reported for a path, and when it was stored. */
  datatype Report = Report(path: string, st: StatBuf, time: int)

  datatype Event =
    | AskStat(path: string, now: int, stored: int, stat: Answer<StatBuf>)
    | AskDir(path: string, order: seq<string>, now: int, ts: seq<int>, us: seq<int>, stored: int,
             listing: Answer<seq<DirentStat>>)

  /** `reports` is everything the server ever said that was stored, `latest` the most recent
      listing stored for each directory with the time of its entries, `clock` the latest
      reading made. */
  datatype History = History(
    cache: Cache, reports: set<Report>, latest: map<string, seq<Dirent>>, listedAt: map<string, int>, clock: int)

  function Start(clock: int): History {
    History(Cache(map[], map[]), {}, map[], map[], clock)
  }

  ghost predicate Enabled(h: History, root: string, e: Event) {
    match e
    case AskStat(_, now, stored, _) => h.clock <= now <= stored
    case AskDir(path, order, now, ts, us, stored, listing) =>
      && h.clock <= now <= stored
      && Enumerates(order, RowNames(h.cache, ToRealPath(path, root)))
      && Readings(now, ts) && (forall i :: 0 <= i < |ts| ==> ts[i] <= stored)
      && |ts| == |order|
      && Readings(now, us) && (forall i :: 0 <= i < |us| ==> us[i] <= stored)
      && (listing.Told? ==> |listing.value| <= |us|)
  }

  function Told_(dir: string, es: seq<DirentStat>, us: seq<int>): set<Report>
    requires |es| <= |us|
  {
    set i | 0 <= i < |es| :: Report(EntryPath(dir, es[i].entry.name), es[i].st, us[i])
  }

  ghost function AfterStat(h: History, root: string, e: Event): (History, Reply<StatBuf>)
    requires e.AskStat?
  {
    var p := ToRealPath(e.path, root);
    var (c, r) := Getattr(h.cache, p, e.now, e.stored, e.stat);
    (h.(cache := c, clock := e.stored,
        reports := if r.Ok? && !r.cached then h.reports + {Report(p, r.value, e.stored)} else h.reports), r)
  }

  ghost function AfterDir(h: History, root: string, e: Event): (History, Reply<seq<DirentStat>>)
    requires e.AskDir? && Enabled(h, root, e)
  {
    var dir := ToRealPath(e.path, root);
    var (c, r) := Readdir(h.cache, dir, e.order, e.now, e.ts, e.us, e.stored, e.listing);
    if r.Ok? && !r.cached then
      (History(c, h.reports + Told_(dir, r.value, e.us), h.latest[dir := Entries(r.value)],
               h.listedAt[dir := e.stored], e.stored), r)
    else (h.(cache := c, clock := e.stored), r)
  }

  ghost function Step(h: History, root: string, e: Event): History
    requires Enabled(h, root, e)
  {
    if e.AskStat? then AfterStat(h, root, e).0 else AfterDir(h, root, e).0
  }

  ghost predicate Run(root: string, hs: seq<History>, es: seq<Event>) {
    && |hs| == |es| + 1
    && hs[0] == Start(hs[0].clock)
    && forall k :: 0 <= k < |es| ==> Enabled(hs[k], root, es[k]) && hs[k + 1] == Step(hs[k], root, es[k])
  }

  // What every history keeps.

  ghost predicate Reported(h: History, p: string) {
    p in h.cache.stats ==>
      var row := h.cache.stats[p];
      Report(p, row.stat, row.time) in h.reports && row.time <= h.clock
  }

  ghost predicate Named(h: History, k: DirKey) {
    k in h.cache.dirents ==>
      h.cache.dirents[k].entry.name == k.name && h.cache.dirents[k].time <= h.clock && k.dir in h.latest
  }

  /** Either every name of the latest listing has its row, or the directory has no rows. */
  ghost predicate LatestKept(h: History, d: string)
    requires d in h.latest
  {
    || (forall i :: 0 <= i < |h.latest[d]| ==> DirKey(d, h.latest[d][i].name) in h.cache.dirents)
    || (forall k :: k in h.cache.dirents ==> k.dir != d)
  }

  ghost predicate Good(h: History) {
    && (forall p :: Reported(h, p))
    && (forall k :: Named(h, k))
    && (forall d :: d in h.latest ==> LatestKept(h, d))
  }

  /** Steps that only delete rows: whole directories, and stats. */
  lemma DeletionsGood(h: History, h': History, dropped: set<string>)
    requires Good(h)
    requires h' == h.(cache := h'.cache, clock := h'.clock) && h.clock <= h'.clock
    requires forall p :: p in h'.cache.stats ==> p in h.cache.stats && h'.cache.stats[p] == h.cache.stats[p]
    requires forall k :: k in h'.cache.dirents <==> k in h.cache.dirents && k.dir !in dropped
    requires forall k :: k in h'.cache.dirents ==> h'.cache.dirents[k] == h.cache.dirents[k]
    ensures Good(h')
  {
    forall p ensures Reported(h', p) {
      assert Reported(h, p);
    }
    forall k ensures Named(h', k) {
      assert Named(h, k);
    }
    forall d | d in h'.latest ensures LatestKept(h', d) {
      assert LatestKept(h, d);
    }
  }

  lemma AskStatGood(h: History, root: string, e: Event)
    requires Good(h) && e.AskStat? && Enabled(h, root, e)
    ensures Good(AfterStat(h, root, e).0)
  {
    var p := ToRealPath(e.path, root);
    var c1 := GetStat(h.cache, p, e.now).0;
    var h1, h' := h.(cache := c1, clock := e.stored), AfterStat(h, root, e).0;
    DeletionsGood(h, h1, {});
    forall q ensures Reported(h', q) {
      assert Reported(h1, q);
    }
    forall k ensures Named(h', k) {
      assert Named(h1, k);
    }
    forall d | d in h'.latest ensures LatestKept(h', d) {
      assert LatestKept(h1, d);
    }
  }

  /** What is left of the cache when a listing is not found in it, or is. */
  lemma LsDeletes(c: Cache, dir: string, order: seq<string>, now: int, ts: seq<int>)
    requires Enumerates(order, RowNames(c, dir))
    ensures var d := Ls(c, dir, order, now, ts).0;
            && (forall p :: p in d.stats ==> p in c.stats && d.stats[p] == c.stats[p])
            && (d.dirents == c.dirents || d.dirents == DropDir(c, dir).dirents)
  {
    var (c1, des) := ReadDir(c, dir, order, now);
    if des.Some? {
      forall p ensures p in Ls(c, dir, order, now, ts).0.stats ==>
                 p in c.stats && Ls(c, dir, order, now, ts).0.stats[p] == c.stats[p] {
        StatAllRows(c1, dir, des.value, ts, p);
      }
      StatAllRows(c1, dir, des.value, ts, "");
    }
  }

  lemma LsGood(h: History, dir: string, order: seq<string>, now: int, ts: seq<int>, end: int)
    requires Good(h) && Enumerates(order, RowNames(h.cache, dir)) && h.clock <= end
    ensures Good(h.(cache := Ls(h.cache, dir, order, now, ts).0, clock := end))
  {
    LsDeletes(h.cache, dir, order, now, ts);
    var c := Ls(h.cache, dir, order, now, ts).0;
    var h' := h.(cache := c, clock := end);
    if c.dirents == h.cache.dirents {
      DeletionsGood(h, h', {});
    } else {
      DeletionsGood(h, h', {dir});
    }
  }

  lemma StoredGood(h: History, dir: string, es: seq<DirentStat>, us: seq<int>, stored: int)
    requires Good(h) && |es| <= |us| && h.clock == stored
    requires forall i :: 0 <= i < |us| ==> us[i] <= stored
    ensures Good(History(UpdateLs(h.cache, dir, es, us, stored), h.reports + Told_(dir, es, us),
                         h.latest[dir := Entries(es)], h.listedAt[dir := stored], stored))
  {
    var h' := History(UpdateLs(h.cache, dir, es, us, stored), h.reports + Told_(dir, es, us),
                      h.latest[dir := Entries(es)], h.listedAt[dir := stored], stored);
    var c1 := UpdateStats(h.cache, dir, es, us);
    forall p ensures Reported(h', p) {
      UpdateStatsRows(h.cache, dir, es, us, p);
      UpdateDirentsRows(c1, dir, Entries(es), stored, DirKey(dir, ""));
      assert Reported(h, p);
    }
    forall k ensures Named(h', k) && (k in h.cache.dirents ==> k in h'.cache.dirents) {
      UpdateStatsRows(h.cache, dir, es, us, "");
      UpdateDirentsRows(c1, dir, Entries(es), stored, k);
      assert Named(h, k);
    }
    forall d | d in h'.latest ensures LatestKept(h', d) {
      StoredKept(h, h', dir, es, us, stored, d);
    }
  }

  lemma StoredKept(h: History, h': History, dir: string, es: seq<DirentStat>, us: seq<int>, stored: int, d: string)
    requires |es| <= |us|
    requires h'.cache == UpdateLs(h.cache, dir, es, us, stored) && h'.latest == h.latest[dir := Entries(es)]
    requires d in h'.latest && (d != dir ==> LatestKept(h, d))
    ensures LatestKept(h', d)
  {
    var c1 := UpdateStats(h.cache, dir, es, us);
    forall k ensures k in h'.cache.dirents <==> k in h.cache.dirents || ListsName(dir, Entries(es), k) {
      UpdateStatsRows(h.cache, dir, es, us, "");
      UpdateDirentsRows(c1, dir, Entries(es), stored, k);
    }
    if d == dir {
      assert forall i :: 0 <= i < |es| ==> ListsName(dir, Entries(es), DirKey(dir, Entries(es)[i].name));
    }
  }

  lemma StepGood(h: History, root: string, e: Event)
    requires Good(h) && Enabled(h, root, e)
    ensures Good(Step(h, root, e))
  {
    match e
    case AskStat(_, _, _, _) => AskStatGood(h, root, e);
    case AskDir(path, order, now, ts, us, stored, listing) =>
      var dir := ToRealPath(path, root);
      LsGood(h, dir, order, now, ts, stored);
      var (c1, es) := Ls(h.cache, dir, order, now, ts);
      if es.None? && listing.Told? {
        StoredGood(h.(cache := c1, clock := stored), dir, listing.value, us, stored);
      }
  }

  lemma {:induction false} RunGood(root: string, hs: seq<History>, es: seq<Event>)
    requires Run(root, hs, es)
    ensures Good(hs[|es|])
  {
    if es != [] {
      var n := |es| - 1;
      RunGood(root, hs[..n + 1], es[..n]);
      StepGood(hs[n], root, es[n]);
    }
  }

  /** Bounded staleness: over every history, a getattr that succeeds returns a value that the
      server reported for that very path and that was stored at most 60 seconds before,
      whether a getattr or a listing stored it. */
  lemma StatIsRecent(root: string, hs: seq<History>, es: seq<Event>, e: Event)
    requires Run(root, hs, es) && e.AskStat? && Enabled(hs[|es|], root, e)
    requires AfterStat(hs[|es|], root, e).1.Ok?
    ensures var (h, r) := AfterStat(hs[|es|], root, e);
            exists rep :: rep in h.reports && rep.path == ToRealPath(e.path, root)
                          && rep.st == r.value && e.now - METACACHE_TIME <= rep.time <= e.stored
  {
    RunGood(root, hs, es);
    var h0 := hs[|es|];
    var (h, r) := AfterStat(h0, root, e);
    var p := ToRealPath(e.path, root);
    assert Reported(h0, p);
    var rep := if r.cached then Report(p, r.value, h0.cache.stats[p].time) else Report(p, r.value, e.stored);
    assert rep in h.reports;
  }

  // What is asked of the server, and what of the cache.

  /** A row stored at most a minute before. */
  predicate Recent(c: Cache, p: string, now: int) {
    p in c.stats && now - c.stats[p].time <= 60
  }

  /** One getattr: a recent row answers it, and then nothing changes. Without one the server's
      answer is passed on, value or code; its value, and nothing else, is stored. */
  lemma GetattrAnswers(h: History, root: string, e: Event)
    requires e.AskStat?
    ensures var (h', r) := AfterStat(h, root, e);
            var p, c, d := ToRealPath(e.path, root), h.cache, h'.cache;
            && d.dirents == c.dirents
            && if Recent(c, p, e.now) then r == Ok(c.stats[p].stat, true) && d.stats == c.stats
               else match e.stat
                 case Refused(rc) => r == Err(rc) && d.stats == c.stats - {p}
                 case Told(v) => r == Ok(v, false) && d.stats == c.stats[p := StatRow(v, e.stored)]
  {
    var p := ToRealPath(e.path, root);
    assert p !in h.cache.stats ==> h.cache.stats - {p} == h.cache.stats;
    if e.stat.Told? {
      var row := StatRow(e.stat.value, e.stored);
      assert (h.cache.stats - {p})[p := row] == h.cache.stats[p := row];
    }
  }

  /** A listing from the server that names a path. */
  ghost predicate Lists(root: string, e: Event, p: string) {
    e.AskDir? && e.listing.Told? && ListsStat(ToRealPath(e.path, root), e.listing.value, p)
  }

  /** No event takes a recent row away, or changes it unless a listing has its path. */
  lemma RowStays(h: History, root: string, e: Event, p: string)
    requires Enabled(h, root, e) && Recent(h.cache, p, e.stored) && !Lists(root, e, p)
    ensures p in Step(h, root, e).cache.stats && Step(h, root, e).cache.stats[p] == h.cache.stats[p]
  {
    if e.AskStat? {
      GetattrAnswers(h, root, e);
    } else {
      var dir := ToRealPath(e.path, root);
      var (c1, es) := Ls(h.cache, dir, e.order, e.now, e.ts);
      LsKeepsRow(h.cache, dir, e.order, e.now, e.ts, e.stored, p);
      if es.None? && e.listing.Told? {
        UpdateStatsRows(c1, dir, e.listing.value, e.us, p);
        UpdateDirentsRows(UpdateStats(c1, dir, e.listing.value, e.us), dir, Entries(e.listing.value), e.stored, DirKey(dir, ""));
      }
    }
  }

  lemma LsKeepsRow(c: Cache, dir: string, order: seq<string>, now: int, ts: seq<int>, end: int, p: string)
    requires Enumerates(order, RowNames(c, dir)) && |ts| == |order| && Recent(c, p, end)
    requires forall i :: 0 <= i < |ts| ==> ts[i] <= end
    ensures var d := Ls(c, dir, order, now, ts).0;
            p in d.stats && d.stats[p] == c.stats[p]
  {
    var (c1, des) := ReadDir(c, dir, order, now);
    if des.Some? {
      StatAllRows(c1, dir, des.value, ts, p);
    }
  }

  lemma {:induction false} RowStaysOver(root: string, hs: seq<History>, es: seq<Event>, k: nat, p: string, now: int)
    requires Run(root, hs, es) && k <= |es| && hs[|es|].clock <= now && Recent(hs[k].cache, p, now)
    requires forall j :: k <= j < |es| ==> !Lists(root, es[j], p)
    ensures p in hs[|es|].cache.stats && hs[|es|].cache.stats[p] == hs[k].cache.stats[p]
    decreases |es|
  {
    if k < |es| {
      var n := |es| - 1;
      assert hs[n + 1].clock == es[n].stored >= hs[n].clock;
      RowStaysOver(root, hs[..n + 1], es[..n], k, p, now);
      RowStays(hs[n], root, es[n], p);
    }
  }

  /** A getattr fills the cache: what the server said at event k answers every getattr of the same
      path for a minute, whatever the server would say by then, through all that happens in
      between, unless a listing brings a newer stat. */
  lemma GetattrFillsCache(root: string, hs: seq<History>, es: seq<Event>, k: nat, g: Event)
    requires Run(root, hs, es) && k < |es| && es[k].AskStat? && es[k].stat.Told?
    requires !Recent(hs[k].cache, ToRealPath(es[k].path, root), es[k].now)
    requires forall j :: k < j < |es| ==> !Lists(root, es[j], ToRealPath(es[k].path, root))
    requires g.AskStat? && Enabled(hs[|es|], root, g) && ToRealPath(g.path, root) == ToRealPath(es[k].path, root)
    requires g.now - es[k].stored <= 60
    ensures AfterStat(hs[|es|], root, g).1 == Ok(es[k].stat.value, true)
  {
    GetattrAnswers(hs[k], root, es[k]);
    RowStaysOver(root, hs, es, k + 1, ToRealPath(es[k].path, root), g.now);
    GetattrAnswers(hs[|es|], root, g);
  }

  /** And a refused one leaves no row to answer the next: that asks the server again. */
  lemma RefusedAsksAgain(h: History, root: string, e: Event, g: Event)
    requires e.AskStat? && e.stat.Refused? && g.AskStat? && ToRealPath(g.path, root) == ToRealPath(e.path, root)
    requires AfterStat(h, root, e).1.Err?
    ensures AfterStat(h, root, e).1 == Err(e.stat.rc)
    ensures var r := AfterStat(AfterStat(h, root, e).0, root, g).1;
            r == if g.stat.Refused? then Err(g.stat.rc) else Ok(g.stat.value, false)
  {
    GetattrAnswers(h, root, e);
    GetattrAnswers(AfterStat(h, root, e).0, root, g);
  }

  /** One readdir that the cache does not answer: the server's answer is passed on; its listing
      is stored, its refusal stores nothing. */
  lemma ReaddirAnswers(h: History, root: string, e: Event)
    requires e.AskDir? && Enabled(h, root, e)
    ensures var (h', r) := AfterDir(h, root, e);
            var dir, c, d := ToRealPath(e.path, root), h.cache, h'.cache;
            (r.Ok? && r.cached) ||
            match e.listing
            case Refused(rc) =>
              && r == Err(rc)
              && (forall p :: p in d.stats ==> p in c.stats && d.stats[p] == c.stats[p])
              && (forall k :: k in d.dirents ==> k in c.dirents && d.dirents[k] == c.dirents[k])
            case Told(es) =>
              && r == Ok(es, false)
              && (forall i :: 0 <= i < |es| ==>
                    && DirKey(dir, es[i].entry.name) in d.dirents
                    && d.dirents[DirKey(dir, es[i].entry.name)].time == e.stored
                    && EntryPath(dir, es[i].entry.name) in d.stats)
  {
    var dir := ToRealPath(e.path, root);
    var (c1, es) := Ls(h.cache, dir, e.order, e.now, e.ts);
    LsDeletes(h.cache, dir, e.order, e.now, e.ts);
    if es.None? && e.listing.Told? {
      var vs := e.listing.value;
      forall i | 0 <= i < |vs|
        ensures var d, k := AfterDir(h, root, e).0.cache, DirKey(dir, vs[i].entry.name);
                k in d.dirents && d.dirents[k].time == e.stored && EntryPath(dir, vs[i].entry.name) in d.stats
      {
        UpdateStatsRows(c1, dir, vs, e.us, EntryPath(dir, vs[i].entry.name));
        UpdateDirentsRows(UpdateStats(c1, dir, vs, e.us), dir, Entries(vs), e.stored, DirKey(dir, vs[i].entry.name));
        assert ListsName(dir, Entries(vs), DirKey(dir, Entries(vs)[i].name));
      }
    }
  }

  /** The stat of a returned entry, as the server reported it. */
  ghost predicate RecentlyReported(h: History, dir: string, ds: DirentStat, t: int) {
    exists rep :: rep in h.reports && rep.path == EntryPath(dir, ds.entry.name)
                  && rep.st == ds.st && t - METACACHE_TIME <= rep.time <= h.clock
  }

  lemma LsHits(c: Cache, dir: string, order: seq<string>, now: int, ts: seq<int>)
    requires Enumerates(order, RowNames(c, dir)) && Ls(c, dir, order, now, ts).1.Some?
    ensures var es := Ls(c, dir, order, now, ts).1.value;
            && |es| == |order| > 0
            && !Expired(c.dirents[DirKey(dir, order[0])].time, now)
            && forall i :: 0 <= i < |order| ==>
                 && DirKey(dir, order[i]) in c.dirents
                 && StatHit(c, dir, c.dirents[DirKey(dir, order[i])].entry, Reading(ts, i), es[i])
  {
    var (c1, des) := ReadDir(c, dir, order, now);
    StatAllHits(c1, dir, des.value, ts);
    assert forall i :: 0 <= i < |order| ==> order[i] in RowNames(c, dir);
  }

  /** Cached listings, over every history: a listing served from the cache has every name of
      the most recent listing stored for that directory, and each of its entries, left over
      from an older listing or not, has a stat the server reported and that was stored at
      most 60 seconds before it was looked up, although only one row's age was looked at. */
  lemma CachedListingSound(root: string, hs: seq<History>, es: seq<Event>, e: Event)
    requires Run(root, hs, es) && e.AskDir? && Enabled(hs[|es|], root, e)
    requires AfterDir(hs[|es|], root, e).1.Ok? && AfterDir(hs[|es|], root, e).1.cached
    ensures var h0, dir := hs[|es|], ToRealPath(e.path, root);
            var r := AfterDir(h0, root, e).1.value;
            && |r| == |e.ts| > 0
            && dir in h0.latest
            && (forall i :: 0 <= i < |h0.latest[dir]| ==>
                  exists j :: 0 <= j < |r| && r[j].entry.name == h0.latest[dir][i].name)
            && (forall j :: 0 <= j < |r| ==> RecentlyReported(h0, dir, r[j], e.ts[j]))
  {
    RunGood(root, hs, es);
    var h0, dir := hs[|es|], ToRealPath(e.path, root);
    LsHits(h0.cache, dir, e.order, e.now, e.ts);
    var r := AfterDir(h0, root, e).1.value;
    forall j | 0 <= j < |r|
      ensures r[j].entry.name == e.order[j] && RecentlyReported(h0, dir, r[j], e.ts[j]) && dir in h0.latest
    {
      assert Named(h0, DirKey(dir, e.order[j]));
      var p := EntryPath(dir, e.order[j]);
      assert Reported(h0, p);
      assert Report(p, r[j].st, h0.cache.stats[p].time) in h0.reports;
    }
    assert dir in h0.latest by {
      assert r[0].entry.name == e.order[0];
    }
    assert LatestKept(h0, dir);
    assert DirKey(dir, e.order[0]) in h0.cache.dirents;
    forall i | 0 <= i < |h0.latest[dir]| ensures exists j :: 0 <= j < |r| && r[j].entry.name == h0.latest[dir][i].name {
      var n := h0.latest[dir][i].name;
      assert DirKey(dir, n) in h0.cache.dirents;
      assert n in RowNames(h0.cache, dir);
      var j :| 0 <= j < |e.order| && e.order[j] == n;
      assert r[j].entry.name == n;
    }
  }

  /** A listing fills the cache for its entries: for 60 seconds a getattr of an entry, asked
      for by its own path, is answered by the stat the listing gave. */
  lemma ListingServesGetattr(h: History, root: string, e: Event, i: nat, g: Event)
    requires Enabled(h, root, e) && e.AskDir? && AfterDir(h, root, e).1.Ok? && !AfterDir(h, root, e).1.cached
    requires i < |e.listing.value|
    requires root != [] && Absolute(e.path)
    requires forall j :: 0 <= j < |e.listing.value| ==> EntryName(e.listing.value[j].entry.name)
    requires g.AskStat? && g.path == ToRealPath(e.listing.value[i].entry.name, e.path)
    requires forall k :: 0 <= k < |e.us| ==> g.now - e.us[k] <= METACACHE_TIME
    ensures exists j :: 0 <= j < |e.listing.value|
                        && e.listing.value[j].entry.name == e.listing.value[i].entry.name
                        && AfterStat(AfterDir(h, root, e).0, root, g).1 == Ok(e.listing.value[j].st, true)
  {
    var dir, es := ToRealPath(e.path, root), e.listing.value;
    var c1 := Ls(h.cache, dir, e.order, e.now, e.ts).0;
    var p := ToRealPath(g.path, root);
    JoinAssociates(es[i].entry.name, e.path, root);
    assert p == EntryPath(dir, es[i].entry.name);
    UpdateStatsRows(c1, dir, es, e.us, p);
    UpdateDirentsRows(UpdateStats(c1, dir, es, e.us), dir, Entries(es), e.stored, DirKey(dir, ""));
    var row := UpdateStats(c1, dir, es, e.us).stats[p];
    var j :| 0 <= j < |es| && p == EntryPath(dir, es[j].entry.name) && row == StatRow(es[j].st, e.us[j]);
    SameEntry(dir, es[i].entry.name, es[j].entry.name);
  }

  lemma SameEntry(dir: string, m: string, n: string)
    requires EntryName(m) && EntryName(n) && EntryPath(dir, m) == EntryPath(dir, n)
    ensures m == n
  {
    var s := Stripped(dir) + "/";
    assert (s + m)[|s|..] == m && (s + n)[|s|..] == n;
  }

  // When no second passes inside a call.

  predicate Instant(e: Event) {
    && e.stored == e.now
    && (e.AskDir? ==>
          && (forall i :: 0 <= i < |e.ts| ==> e.ts[i] == e.now)
          && (forall i :: 0 <= i < |e.us| ==> e.us[i] == e.now))
  }

  /** Each row of a directory is from its latest listing, and its stat is no older, as long
      as the listing itself is not expired. */
  ghost predicate OfLatest(h: History, k: DirKey) {
    k in h.cache.dirents ==>
      && k.dir in h.latest && k.dir in h.listedAt
      && h.cache.dirents[k].entry in h.latest[k.dir]
      && h.cache.dirents[k].entry.name == k.name
      && h.cache.dirents[k].time == h.listedAt[k.dir]
      && (!Expired(h.listedAt[k.dir], h.clock) ==>
            EntryPath(k.dir, k.name) in h.cache.stats
            && h.cache.stats[EntryPath(k.dir, k.name)].time >= h.listedAt[k.dir])
  }

  ghost predicate Uniform(h: History) {
    forall k :: OfLatest(h, k)
  }

  lemma AskStatUniform(h: History, root: string, e: Event)
    requires Good(h) && Uniform(h) && e.AskStat? && Enabled(h, root, e) && Instant(e)
    ensures Uniform(AfterStat(h, root, e).0)
  {
    var h' := AfterStat(h, root, e).0;
    forall k ensures OfLatest(h', k) {
      assert OfLatest(h, k) && Named(h, k);
    }
  }

  /** With one reading for all rows, an unexpired first row means that nothing is expired. */
  lemma {:induction false} AllHit(c: Cache, dir: string, des: seq<Dirent>, ts: seq<int>)
    requires forall i :: 0 <= i < |des| ==>
               EntryPath(dir, des[i].name) in c.stats
               && !Expired(c.stats[EntryPath(dir, des[i].name)].time, Reading(ts, i))
    ensures StatAll(c, dir, des, ts).0 == c && StatAll(c, dir, des, ts).1.Some?
  {
    if des != [] {
      var n := |des| - 1;
      assert forall i :: 0 <= i < n ==> des[..n][i] == des[i];
      AllHit(c, dir, des[..n], ts);
    }
  }

  /** So a lookup either finds the whole latest listing, or leaves no row behind. */
  lemma LsInstant(h: History, root: string, e: Event)
    requires Good(h) && Uniform(h) && e.AskDir? && Enabled(h, root, e) && Instant(e)
    ensures var dir := ToRealPath(e.path, root);
            var (c, r) := Ls(h.cache, dir, e.order, e.now, e.ts);
            if r.Some? then c == h.cache
            else c == DropDir(h.cache, dir)
  {
    var dir := ToRealPath(e.path, root);
    var (c1, des) := ReadDir(h.cache, dir, e.order, e.now);
    if des.Some? {
      assert OfLatest(h, DirKey(dir, e.order[0]));
      forall i | 0 <= i < |e.order|
        ensures var p := EntryPath(dir, des.value[i].name);
                p in c1.stats && !Expired(c1.stats[p].time, Reading(e.ts, i))
      {
        assert e.order[i] in RowNames(h.cache, dir);
        assert OfLatest(h, DirKey(dir, e.order[i]));
      }
      AllHit(c1, dir, des.value, e.ts);
    } else if e.order == [] {
      forall k | k in h.cache.dirents ensures k.dir != dir {
        assert k.dir == dir ==> k.name in RowNames(h.cache, dir);
      }
      assert DropDir(h.cache, dir).dirents == h.cache.dirents;
    }
  }

  lemma StoredUniform(h: History, dir: string, es: seq<DirentStat>, us: seq<int>, stored: int)
    requires Uniform(h) && |es| <= |us| && h.clock == stored
    requires forall i :: 0 <= i < |us| ==> us[i] == stored
    requires forall k :: k in h.cache.dirents ==> k.dir != dir && k.dir in h.listedAt && h.listedAt[k.dir] <= stored
    ensures Uniform(History(UpdateLs(h.cache, dir, es, us, stored), h.reports + Told_(dir, es, us),
                            h.latest[dir := Entries(es)], h.listedAt[dir := stored], stored))
  {
    var h' := History(UpdateLs(h.cache, dir, es, us, stored), h.reports + Told_(dir, es, us),
                      h.latest[dir := Entries(es)], h.listedAt[dir := stored], stored);
    var c1 := UpdateStats(h.cache, dir, es, us);
    forall k ensures OfLatest(h', k) {
      UpdateStatsRows(h.cache, dir, es, us, EntryPath(k.dir, k.name));
      UpdateDirentsRows(c1, dir, Entries(es), stored, k);
      assert OfLatest(h, k);
      if ListsName(dir, Entries(es), k) {
        var i :| 0 <= i < |es| && k == DirKey(dir, Entries(es)[i].name);
        assert EntryPath(dir, k.name) == EntryPath(dir, es[i].entry.name);
      }
    }
  }

  lemma StepUniform(h: History, root: string, e: Event)
    requires Good(h) && Uniform(h) && Enabled(h, root, e) && Instant(e)
    ensures Uniform(Step(h, root, e))
  {
    if e.AskStat? {
      AskStatUniform(h, root, e);
    } else {
      var dir := ToRealPath(e.path, root);
      var (c1, es) := Ls(h.cache, dir, e.order, e.now, e.ts);
      LsInstant(h, root, e);
      var h1 := h.(cache := c1, clock := e.stored);
      forall k ensures OfLatest(h1, k) && (k in c1.dirents ==> h.listedAt[k.dir] <= e.stored) {
        assert OfLatest(h, k) && Named(h, k);
      }
      if es.None? && e.listing.Told? {
        StoredUniform(h1, dir, e.listing.value, e.us, e.stored);
      }
    }
  }

  lemma {:induction false} RunUniform(root: string, hs: seq<History>, es: seq<Event>)
    requires Run(root, hs, es) && forall k :: 0 <= k < |es| ==> Instant(es[k])
    ensures Uniform(hs[|es|])
  {
    if es != [] {
      var n := |es| - 1;
      RunUniform(root, hs[..n + 1], es[..n]);
      RunGood(root, hs[..n + 1], es[..n]);
      StepUniform(hs[n], root, es[n]);
    }
  }

  /** Leftovers of older listings can only be shown when the clock moves on inside a call: in
      a history without that, a listing served from the cache has exactly the names of the
      most recent listing stored, with its very entries. */
  lemma CachedListingExact(root: string, hs: seq<History>, es: seq<Event>, e: Event)
    requires Run(root, hs, es) && (forall k :: 0 <= k < |es| ==> Instant(es[k]))
    requires e.AskDir? && Enabled(hs[|es|], root, e)
    requires AfterDir(hs[|es|], root, e).1.Ok? && AfterDir(hs[|es|], root, e).1.cached
    ensures var h0, dir := hs[|es|], ToRealPath(e.path, root);
            var r := AfterDir(h0, root, e).1.value;
            && dir in h0.latest
            && (forall j :: 0 <= j < |r| ==> r[j].entry in h0.latest[dir])
            && (forall i :: 0 <= i < |h0.latest[dir]| ==>
                  exists j :: 0 <= j < |r| && r[j].entry.name == h0.latest[dir][i].name)
            && (forall i, j :: 0 <= i < j < |r| ==> r[i].entry.name != r[j].entry.name)
  {
    CachedListingSound(root, hs, es, e);
    RunUniform(root, hs, es);
    var h0, dir := hs[|es|], ToRealPath(e.path, root);
    LsHits(h0.cache, dir, e.order, e.now, e.ts);
    var r := AfterDir(h0, root, e).1.value;
    forall j | 0 <= j < |r| ensures r[j].entry in h0.latest[dir] && r[j].entry.name == e.order[j] {
      assert OfLatest(h0, DirKey(dir, e.order[j]));
    }
  }

  /** A listing that is not expired has all its rows. */
  ghost predicate FreshKept(h: History, d: string) {
    d in h.latest ==>
      && d in h.listedAt
      && (!Expired(h.listedAt[d], h.clock) ==>
            forall i :: 0 <= i < |h.latest[d]| ==> DirKey(d, h.latest[d][i].name) in h.cache.dirents)
  }

  lemma AskDirFresh(h: History, root: string, e: Event, d: string)
    requires Good(h) && Uniform(h) && e.AskDir? && Enabled(h, root, e) && Instant(e) && FreshKept(h, d)
    ensures FreshKept(AfterDir(h, root, e).0, d)
  {
    var h', dir := AfterDir(h, root, e).0, ToRealPath(e.path, root);
    var (c1, es) := Ls(h.cache, dir, e.order, e.now, e.ts);
    LsInstant(h, root, e);
    if es.None? && e.listing.Told? {
      StoredFresh(h.(cache := c1, clock := e.stored), h', dir, e.listing.value, e.us, e.stored, d);
    }
    if es.None? && d == dir && d in h.latest && !Expired(h.listedAt[d], e.stored) {
      LsFinds(h, root, e);
    }
  }

  lemma StoredFresh(h: History, h': History, dir: string, es: seq<DirentStat>, us: seq<int>, stored: int, d: string)
    requires |es| <= |us| && h'.cache == UpdateLs(h.cache, dir, es, us, stored)
    requires h'.latest == h.latest[dir := Entries(es)] && h'.listedAt == h.listedAt[dir := stored]
    requires h'.clock == h.clock && (d != dir ==> FreshKept(h, d))
    ensures FreshKept(h', d)
  {
    var c1 := UpdateStats(h.cache, dir, es, us);
    forall k ensures k in h'.cache.dirents <==> k in h.cache.dirents || ListsName(dir, Entries(es), k) {
      UpdateStatsRows(h.cache, dir, es, us, "");
      UpdateDirentsRows(c1, dir, Entries(es), stored, k);
    }
    if d == dir {
      assert forall i :: 0 <= i < |es| ==> ListsName(dir, Entries(es), DirKey(dir, Entries(es)[i].name));
    }
  }

  /** With rows that all carry the listing's time, a lookup finds them exactly when there is one
      and that time is not expired. */
  lemma LsFinds(h: History, root: string, e: Event)
    requires Good(h) && Uniform(h) && e.AskDir? && Enabled(h, root, e) && Instant(e)
    requires FreshKept(h, ToRealPath(e.path, root))
    ensures var dir := ToRealPath(e.path, root);
            Ls(h.cache, dir, e.order, e.now, e.ts).1.Some? <==>
            dir in h.latest && h.latest[dir] != [] && !Expired(h.listedAt[dir], e.now)
  {
    var dir := ToRealPath(e.path, root);
    var (c1, des) := ReadDir(h.cache, dir, e.order, e.now);
    if e.order != [] {
      assert e.order[0] in RowNames(h.cache, dir);
      assert OfLatest(h, DirKey(dir, e.order[0]));
    }
    if des.Some? {
      LsInstant(h, root, e);
      HitsAll(h, root, e);
    }
    if dir in h.latest && h.latest[dir] != [] && !Expired(h.listedAt[dir], e.now) {
      assert DirKey(dir, h.latest[dir][0].name) in h.cache.dirents;
      assert h.latest[dir][0].name in RowNames(h.cache, dir);
    }
  }

  lemma HitsAll(h: History, root: string, e: Event)
    requires Good(h) && Uniform(h) && e.AskDir? && Enabled(h, root, e) && Instant(e)
    requires ReadDir(h.cache, ToRealPath(e.path, root), e.order, e.now).1.Some?
    ensures Ls(h.cache, ToRealPath(e.path, root), e.order, e.now, e.ts).1.Some?
  {
    var dir := ToRealPath(e.path, root);
    var (c1, des) := ReadDir(h.cache, dir, e.order, e.now);
    assert OfLatest(h, DirKey(dir, e.order[0]));
    forall i | 0 <= i < |e.order|
      ensures var p := EntryPath(dir, des.value[i].name);
              p in c1.stats && !Expired(c1.stats[p].time, Reading(e.ts, i))
    {
      assert e.order[i] in RowNames(h.cache, dir);
      assert OfLatest(h, DirKey(dir, e.order[i]));
    }
    AllHit(c1, dir, des.value, e.ts);
  }

  lemma {:induction false} RunFresh(root: string, hs: seq<History>, es: seq<Event>, d: string)
    requires Run(root, hs, es) && forall k :: 0 <= k < |es| ==> Instant(es[k])
    ensures FreshKept(hs[|es|], d)
  {
    if es != [] {
      var n := |es| - 1;
      RunFresh(root, hs[..n + 1], es[..n], d);
      RunUniform(root, hs[..n + 1], es[..n]);
      RunGood(root, hs[..n + 1], es[..n]);
      if es[n].AskDir? {
        RunFresh(root, hs[..n + 1], es[..n], ToRealPath(es[n].path, root));
        AskDirFresh(hs[n], root, es[n], d);
      } else {
        GetattrAnswers(hs[n], root, es[n]);
      }
    }
  }

  /** When the cache answers a readdir, in such a history: exactly when the directory's latest
      listing was not empty and was stored at most a minute before. */
  lemma CachedListingWhen(root: string, hs: seq<History>, es: seq<Event>, e: Event)
    requires Run(root, hs, es) && (forall k :: 0 <= k < |es| ==> Instant(es[k]))
    requires e.AskDir? && Enabled(hs[|es|], root, e) && Instant(e)
    ensures var h0, dir, r := hs[|es|], ToRealPath(e.path, root), AfterDir(hs[|es|], root, e).1;
            && (dir in h0.latest ==> dir in h0.listedAt)
            && (r.Ok? && r.cached <==> dir in h0.latest && h0.latest[dir] != [] && e.now - h0.listedAt[dir] <= 60)
  {
    var dir := ToRealPath(e.path, root);
    RunFresh(root, hs, es, dir);
    RunUniform(root, hs, es);
    RunGood(root, hs, es);
    LsFinds(hs[|es|], root, e);
  }
}
