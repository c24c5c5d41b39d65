/** The metadata cache: a table of file stats by path and a table of directory entries by
    directory and name, both with the time they were stored. */
module MetaCache {
  import opened Files
  import opened Paths

  const METACACHE_TIME := 60

  type StatBuf = Content

  datatype Dirent = Dirent(name: string, rest: Content)
  datatype DirentStat = DirentStat(entry: Dirent, st: StatBuf)

  datatype StatRow = StatRow(stat: StatBuf, time: int)
  datatype DirKey = DirKey(dir: string, name: string)
  datatype DirRow = DirRow(entry: Dirent, time: int)

  datatype Cache = Cache(stats: map<string, StatRow>, dirents: map<DirKey, DirRow>)

  predicate Expired(time: int, now: int) {
    now - time > METACACHE_TIME
  }

  function EntryPath(dir: string, name: string): string {
    ToRealPath(name, dir)
  }

  /** A stat lookup; a row found expired is deleted. */
  function GetStat(c: Cache, path: string, now: int): (Cache, Option<StatBuf>) {
    if path !in c.stats then (c, None)
    else if Expired(c.stats[path].time, now) then (c.(stats := c.stats - {path}), None)
    else (c, Some(c.stats[path].stat))
  }

  /** The names a directory has rows for. */
  function RowNames(c: Cache, dir: string): set<string> {
    set k | k in c.dirents && k.dir == dir :: k.name
  }

  /** The order in which a query happens to return a directory's rows. */
  ghost predicate Enumerates(order: seq<string>, names: set<string>) {
    && (forall i :: 0 <= i < |order| ==> order[i] in names)
    && (forall n :: n in names ==> n in order)
    && (forall i, j :: 0 <= i < j < |order| ==> order[i] != order[j])
  }

  function DropDir(c: Cache, dir: string): Cache {
    c.(dirents := map k | k in c.dirents && k.dir != dir :: c.dirents[k])
  }

  function EntriesOf(c: Cache, dir: string, order: seq<string>): (es: seq<Dirent>)
    requires forall i :: 0 <= i < |order| ==> DirKey(dir, order[i]) in c.dirents
    ensures |es| == |order|
  {
    seq(|order|, i requires 0 <= i < |order| => c.dirents[DirKey(dir, order[i])].entry)
  }

  /** A directory lookup: only the time of the first row decides. */
  ghost function ReadDir(c: Cache, dir: string, order: seq<string>, now: int): (Cache, Option<seq<Dirent>>)
    requires Enumerates(order, RowNames(c, dir))
  {
    if order == [] then (c, None)
    else if Expired(c.dirents[DirKey(dir, order[0])].time, now) then (DropDir(c, dir), None)
    else (c, Some(EntriesOf(c, dir, order)))
  }

  function Reading(ts: seq<int>, i: nat): int {
    if i < |ts| then ts[i] else 0
  }

  /** Looking up the stat of each entry, each at its own reading of the clock; the first miss
      ends it, and with it the readings. */
  function StatAll(c: Cache, dir: string, des: seq<Dirent>, ts: seq<int>): (Cache, Option<seq<DirentStat>>) {
    if des == [] then (c, Some([]))
    else
      var n := |des| - 1;
      var (c1, r) := StatAll(c, dir, des[..n], ts);
      if r.None? then (c1, None)
      else
        var (c2, st) := GetStat(c1, EntryPath(dir, des[n].name), Reading(ts, n));
        if st.None? then (c2, None) else (c2, Some(r.value + [DirentStat(des[n], st.value)]))
  }

  /** `now` is the reading for the first row, `ts` those for the stats. */
  ghost function Ls(c: Cache, dir: string, order: seq<string>, now: int, ts: seq<int>): (Cache, Option<seq<DirentStat>>)
    requires Enumerates(order, RowNames(c, dir))
  {
    var (c1, des) := ReadDir(c, dir, order, now);
    if des.None? then (c1, None) else StatAll(c1, dir, des.value, ts)
  }

  function UpdateStat(c: Cache, path: string, st: StatBuf, now: int): Cache {
    c.(stats := c.stats[path := StatRow(st, now)])
  }

  function UpdateDirents(c: Cache, dir: string, des: seq<Dirent>, now: int): Cache {
    if des == [] then c
    else
      var n := |des| - 1;
      var c1 := UpdateDirents(c, dir, des[..n], now);
      c1.(dirents := c1.dirents[DirKey(dir, des[n].name) := DirRow(des[n], now)])
  }

  function UpdateStats(c: Cache, dir: string, es: seq<DirentStat>, ts: seq<int>): Cache
    requires |es| <= |ts|
  {
    if es == [] then c
    else
      var n := |es| - 1;
      UpdateStat(UpdateStats(c, dir, es[..n], ts), EntryPath(dir, es[n].entry.name), es[n].st, ts[n])
  }

  function Entries(es: seq<DirentStat>): (des: seq<Dirent>)
    ensures |des| == |es| && forall i :: 0 <= i < |es| ==> des[i] == es[i].entry
  {
    seq(|es|, i requires 0 <= i < |es| => es[i].entry)
  }

  /** `ts` are the readings for the stats, `now` the later one for all the entries. */
  function UpdateLs(c: Cache, dir: string, es: seq<DirentStat>, ts: seq<int>, now: int): Cache
    requires |es| <= |ts|
  {
    UpdateDirents(UpdateStats(c, dir, es, ts), dir, Entries(es), now)
  }

  // What the updates leave in the tables.

  /** A stat row that comes from the last entry of a listing that names a path. */
  ghost predicate StatFrom(dir: string, es: seq<DirentStat>, ts: seq<int>, p: string, row: StatRow)
    requires |es| <= |ts|
  {
    exists i :: 0 <= i < |es| && LastNamed(dir, es, i, p) && row == StatRow(es[i].st, ts[i])
  }

  ghost predicate LastNamed(dir: string, es: seq<DirentStat>, i: nat, p: string)
    requires i < |es|
  {
    p == EntryPath(dir, es[i].entry.name) && forall j :: i < j < |es| ==> p != EntryPath(dir, es[j].entry.name)
  }

  ghost predicate ListsStat(dir: string, es: seq<DirentStat>, p: string) {
    exists i :: 0 <= i < |es| && p == EntryPath(dir, es[i].entry.name)
  }

  /** After a listing, each stat row is from the listing or was there before, and is from the
      last entry with its path if the listing has one. */
  lemma {:induction false} UpdateStatsRows(c: Cache, dir: string, es: seq<DirentStat>, ts: seq<int>, p: string)
    requires |es| <= |ts|
    ensures var d := UpdateStats(c, dir, es, ts);
            && d.dirents == c.dirents
            && (p in d.stats <==> p in c.stats || ListsStat(dir, es, p))
            && (ListsStat(dir, es, p) ==> StatFrom(dir, es, ts, p, d.stats[p]))
            && (p in d.stats && !ListsStat(dir, es, p) ==> d.stats[p] == c.stats[p])
  {
    if es != [] {
      var n := |es| - 1;
      UpdateStatsRows(c, dir, es[..n], ts, p);
      var d := UpdateStats(c, dir, es, ts);
      if p == EntryPath(dir, es[n].entry.name) {
        assert LastNamed(dir, es, n, p);
      } else if ListsStat(dir, es, p) {
        assert ListsStat(dir, es[..n], p);
        var i :| 0 <= i < n && LastNamed(dir, es[..n], i, p) && d.stats[p] == StatRow(es[..n][i].st, ts[i]);
        assert LastNamed(dir, es, i, p);
      }
    }
  }

  /** The same for the entries. */
  ghost predicate DirFrom(dir: string, des: seq<Dirent>, now: int, k: DirKey, row: DirRow) {
    exists i :: 0 <= i < |des| && LastEntry(dir, des, i, k) && row == DirRow(des[i], now)
  }

  ghost predicate LastEntry(dir: string, des: seq<Dirent>, i: nat, k: DirKey)
    requires i < |des|
  {
    k == DirKey(dir, des[i].name) && forall j :: i < j < |des| ==> k != DirKey(dir, des[j].name)
  }

  ghost predicate ListsName(dir: string, des: seq<Dirent>, k: DirKey) {
    exists i :: 0 <= i < |des| && k == DirKey(dir, des[i].name)
  }

  lemma {:induction false} UpdateDirentsRows(c: Cache, dir: string, des: seq<Dirent>, now: int, k: DirKey)
    ensures var d := UpdateDirents(c, dir, des, now);
            && d.stats == c.stats
            && (k in d.dirents <==> k in c.dirents || ListsName(dir, des, k))
            && (ListsName(dir, des, k) ==> DirFrom(dir, des, now, k, d.dirents[k]))
            && (k in d.dirents && !ListsName(dir, des, k) ==> d.dirents[k] == c.dirents[k])
  {
    if des != [] {
      var n := |des| - 1;
      UpdateDirentsRows(c, dir, des[..n], now, k);
      var d := UpdateDirents(c, dir, des, now);
      if k == DirKey(dir, des[n].name) {
        assert LastEntry(dir, des, n, k);
      } else if ListsName(dir, des, k) {
        assert ListsName(dir, des[..n], k);
        var i :| 0 <= i < n && LastEntry(dir, des[..n], i, k) && d.dirents[k] == DirRow(des[..n][i], now);
        assert LastEntry(dir, des, i, k);
      }
    }
  }

  // What a lookup of entries returns.

  /** Lookups only ever delete stat rows, and only expired ones. */
  lemma {:induction false} StatAllRows(c: Cache, dir: string, des: seq<Dirent>, ts: seq<int>, p: string)
    ensures var d := StatAll(c, dir, des, ts).0;
            && d.dirents == c.dirents
            && (p in d.stats ==> p in c.stats && d.stats[p] == c.stats[p])
            && (p in c.stats && p !in d.stats ==> exists i :: 0 <= i < |des| && Expired(c.stats[p].time, Reading(ts, i)))
  {
    if des != [] {
      StatAllRows(c, dir, des[..|des| - 1], ts, p);
    }
  }

  /** A lookup that succeeds found every entry's stat, unexpired. */
  ghost predicate StatHit(c: Cache, dir: string, de: Dirent, t: int, ds: DirentStat) {
    var p := EntryPath(dir, de.name);
    ds.entry == de && p in c.stats && c.stats[p].stat == ds.st && !Expired(c.stats[p].time, t)
  }

  lemma {:induction false} StatAllHits(c: Cache, dir: string, des: seq<Dirent>, ts: seq<int>)
    requires StatAll(c, dir, des, ts).1.Some?
    ensures var es := StatAll(c, dir, des, ts).1.value;
            |es| == |des| && forall i :: 0 <= i < |des| ==> StatHit(c, dir, des[i], Reading(ts, i), es[i])
  {
    if des != [] {
      var n := |des| - 1;
      StatAllHits(c, dir, des[..n], ts);
      StatAllRows(c, dir, des[..n], ts, EntryPath(dir, des[n].name));
      assert forall i :: 0 <= i < n ==> des[..n][i] == des[i];
    }
  }

  lemma {:induction false} StatAllStops(c: Cache, dir: string, des: seq<Dirent>, i: nat, ts: seq<int>)
    requires i <= |des| && StatAll(c, dir, des[..i], ts).1.None?
    ensures StatAll(c, dir, des, ts) == StatAll(c, dir, des[..i], ts)
    decreases |des|
  {
    if i < |des| {
      var n := |des| - 1;
      assert des[..n][..i] == des[..i];
      StatAllStops(c, dir, des[..n], i, ts);
    } else {
      assert des[..i] == des;
    }
  }

  /** Only the readings made matter. */
  lemma {:induction false} StatAllReadings(c: Cache, dir: string, des: seq<Dirent>, ts: seq<int>, us: seq<int>)
    requires |des| <= |ts| && ts <= us
    ensures StatAll(c, dir, des, ts) == StatAll(c, dir, des, us)
  {
    if des != [] {
      StatAllReadings(c, dir, des[..|des| - 1], ts, us);
    }
  }

  /** One entry more, at the latest reading. */
  lemma {:induction false} StatAllNext(c: Cache, dir: string, des: seq<Dirent>, i: nat, ts: seq<int>, t: int)
    requires i < |des| && |ts| == i
    ensures var (c1, r) := StatAll(c, dir, des[..i], ts);
            r.Some? ==>
              var (c2, st) := GetStat(c1, EntryPath(dir, des[i].name), t);
              StatAll(c, dir, des[..i + 1], ts + [t])
              == (c2, if st.None? then None else Some(r.value + [DirentStat(des[i], st.value)]))
  {
    assert des[..i + 1][..i] == des[..i];
    StatAllReadings(c, dir, des[..i], ts, ts + [t]);
  }

  lemma {:induction false} UpdateStatsReadings(c: Cache, dir: string, es: seq<DirentStat>, ts: seq<int>, us: seq<int>)
    requires |es| <= |ts| && ts <= us
    ensures UpdateStats(c, dir, es, ts) == UpdateStats(c, dir, es, us)
  {
    if es != [] {
      UpdateStatsReadings(c, dir, es[..|es| - 1], ts, us);
    }
  }

  // The objects.

  /** The system clock: any number of seconds may pass before a reading, but none is ever
      taken back. */
  class Clock {
    var now: int
    var elapse: seq<nat>

    constructor (start: int, elapse: seq<nat>)
      ensures now == start && this.elapse == elapse
    {
      now, this.elapse := start, elapse;
    }

    method Time() returns (t: int)
      modifies this
      ensures t == now >= old(now)
    {
      if elapse != [] {
        now := now + elapse[0];
        elapse := elapse[1..];
      }
      t := now;
    }
  }

  /** Clock readings in order, from a start. */
  ghost predicate Readings(start: int, ts: seq<int>) {
    && (forall i :: 0 <= i < |ts| ==> start <= ts[i])
    && (forall i, j :: 0 <= i <= j < |ts| ==> ts[i] <= ts[j])
  }

  class Metacache {
    var stats: map<string, StatRow>
    var dirents: map<DirKey, DirRow>
    const clock: Clock

    constructor (clock: Clock)
      ensures State() == Cache(map[], map[]) && this.clock == clock
    {
      stats, dirents := map[], map[];
      this.clock := clock;
    }

    function State(): Cache
      reads this
    {
      Cache(stats, dirents)
    }

    method DeleteStat(path: string)
      modifies this`stats
      ensures stats == old(stats) - {path}
    {
      stats := stats - {path};
    }

    method Getattr_(path: string) returns (found: bool, st: StatBuf)
      modifies this`stats, clock
      ensures clock.now >= old(clock.now)
      ensures GetStat(old(State()), path, clock.now) == (State(), if found then Some(st) else None)
    {
      if path !in stats {
        return false, [];
      }
      var now := clock.Time();
      if now - stats[path].time > METACACHE_TIME {
        DeleteStat(path);
        return false, [];
      }
      return true, stats[path].stat;
    }

    method DeleteDirent(dir: string)
      modifies this`dirents
      ensures State() == DropDir(old(State()), dir)
    {
      dirents := map k | k in dirents && k.dir != dir :: dirents[k];
    }

    /** The rows of a directory, in the order the query comes up with. */
    method Select(dir: string) returns (order: seq<string>)
      ensures Enumerates(order, RowNames(State(), dir))
    {
      order := [];
      var left := RowNames(State(), dir);
      while left != {}
        invariant left <= RowNames(State(), dir)
        invariant forall i :: 0 <= i < |order| ==> order[i] in RowNames(State(), dir) && order[i] !in left
        invariant forall n :: n in RowNames(State(), dir) ==> n in left || n in order
        invariant forall i, j :: 0 <= i < j < |order| ==> order[i] != order[j]
        decreases left
      {
        var n :| n in left;
        left := left - {n};
        order := order + [n];
      }
    }

    method Readdir_(dir: string) returns (found: bool, entries: seq<Dirent>, order: seq<string>)
      modifies this`dirents, clock
      ensures clock.now >= old(clock.now)
      ensures old(Enumerates(order, RowNames(State(), dir)))
      ensures ReadDir(old(State()), dir, order, clock.now) == (State(), if found then Some(entries) else None)
    {
      order := Select(dir);
      entries := [];
      if order == [] {
        return false, [], order;
      }
      var now := clock.Time();
      if now - dirents[DirKey(dir, order[0])].time > METACACHE_TIME {
        DeleteDirent(dir);
        return false, [], order;
      }
      var i := 0;
      while i < |order|
        invariant 0 <= i <= |order| && |entries| == i
        invariant forall k :: 0 <= k < i ==> entries[k] == dirents[DirKey(dir, order[k])].entry
      {
        entries := entries + [dirents[DirKey(dir, order[i])].entry];
        i := i + 1;
      }
      assert entries == EntriesOf(State(), dir, order);
      found := true;
    }

    /** The loop of ls_; `ts` are the clock readings made. */
    method StatEach(dir: string, des: seq<Dirent>) returns (found: bool, entries: seq<DirentStat>, ts: seq<int>)
      modifies this`stats, clock
      ensures old(clock.now) <= clock.now && Readings(old(clock.now), ts)
      ensures forall i :: 0 <= i < |ts| ==> ts[i] <= clock.now
      ensures |ts| <= |des| && (found ==> |ts| == |des|)
      ensures StatAll(old(State()), dir, des, ts) == (State(), if found then Some(entries) else None)
    {
      ghost var start, t0 := State(), clock.now;
      entries, ts := [], [];
      var i := 0;
      while i < |des|
        invariant 0 <= i <= |des| && |ts| == i
        invariant t0 <= clock.now && Readings(t0, ts) && forall k :: 0 <= k < i ==> ts[k] <= clock.now
        invariant StatAll(start, dir, des[..i], ts) == (State(), Some(entries))
      {
        var ok, st := Getattr_(EntryPath(dir, des[i].name));
        StatAllNext(start, dir, des, i, ts, clock.now);
        ts := ts + [clock.now];
        if !ok {
          StatAllStops(start, dir, des, i + 1, ts);
          return false, [], ts;
        }
        entries := entries + [DirentStat(des[i], st)];
        i := i + 1;
      }
      assert des[..i] == des;
      found := true;
    }

    /** `now` and `ts` are the clock readings made. */
    method Ls_(dir: string) returns (found: bool, entries: seq<DirentStat>, order: seq<string>, now: int, ts: seq<int>)
      modifies this`stats, this`dirents, clock
      ensures old(clock.now) <= now <= clock.now && Readings(now, ts)
      ensures forall i :: 0 <= i < |ts| ==> ts[i] <= clock.now
      ensures old(Enumerates(order, RowNames(State(), dir)))
      ensures |ts| <= |order| && (found ==> |ts| == |order|)
      ensures Ls(old(State()), dir, order, now, ts) == (State(), if found then Some(entries) else None)
    {
      var hit, des, ord := Readdir_(dir);
      found, entries, order, now, ts := false, [], ord, clock.now, [];
      if hit {
        found, entries, ts := StatEach(dir, des);
      }
    }

    method UpdateStat_(path: string, st: StatBuf)
      modifies this`stats, clock
      ensures clock.now >= old(clock.now)
      ensures State() == UpdateStat(old(State()), path, st, clock.now)
    {
      var now := clock.Time();
      stats := stats[path := StatRow(st, now)];
    }

    method UpdateDirent_(dir: string, entries: seq<Dirent>)
      modifies this`dirents, clock
      ensures clock.now >= old(clock.now)
      ensures State() == UpdateDirents(old(State()), dir, entries, clock.now)
    {
      var now := clock.Time();
      var i := 0;
      while i < |entries|
        invariant 0 <= i <= |entries| && clock.now == now
        invariant State() == UpdateDirents(old(State()), dir, entries[..i], now)
      {
        assert entries[..i + 1][..i] == entries[..i];
        dirents := dirents[DirKey(dir, entries[i].name) := DirRow(entries[i], now)];
        i := i + 1;
      }
      assert entries[..i] == entries;
    }

    method UpdateLs_(dir: string, entries: seq<DirentStat>) returns (ts: seq<int>)
      modifies this`stats, this`dirents, clock
      ensures |ts| == |entries| && Readings(old(clock.now), ts)
      ensures old(clock.now) <= clock.now && forall i :: 0 <= i < |ts| ==> ts[i] <= clock.now
      ensures State() == UpdateLs(old(State()), dir, entries, ts, clock.now)
    {
      var des: seq<Dirent> := [];
      ts := [];
      var i := 0;
      while i < |entries|
        invariant 0 <= i <= |entries| && des == Entries(entries[..i]) && |ts| == i
        invariant old(clock.now) <= clock.now && Readings(old(clock.now), ts) && forall k :: 0 <= k < i ==> ts[k] <= clock.now
        invariant State() == UpdateStats(old(State()), dir, entries[..i], ts)
      {
        assert entries[..i + 1][..i] == entries[..i];
        UpdateStat_(EntryPath(dir, entries[i].entry.name), entries[i].st);
        UpdateStatsReadings(old(State()), dir, entries[..i], ts, ts + [clock.now]);
        ts := ts + [clock.now];
        des := des + [entries[i].entry];
        i := i + 1;
        assert des == Entries(entries[..i]);
      }
      assert entries[..i] == entries;
      UpdateDirent_(dir, des);
    }
  }
}
