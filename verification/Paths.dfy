/** The path algebra: joining under a root, splitting into directory and name, and the name
    of the temporary file a download goes to. */
module Paths {

  predicate EndsInSlash(p: string) {
    p != [] && p[|p| - 1] == '/'
  }

  function Stripped(root: string): string {
    if EndsInSlash(root) then root[..|root| - 1] else root
  }

  /** "/" means the root itself; otherwise one slash joins the two. An empty root has no
      trailing slash to drop. */
  function ToRealPath(path: string, root: string): string {
    if path == "/" then root
    else if path != [] && path[0] == '/' then Stripped(root) + path
    else Stripped(root) + "/" + path
  }

  /** Position of the last slash, or -1. */
  function LastSlash(p: string): (i: int)
    ensures -1 <= i < |p|
    ensures 0 <= i ==> p[i] == '/'
    ensures forall k :: i < k < |p| ==> p[k] != '/'
  {
    if p == [] then -1
    else if p[|p| - 1] == '/' then |p| - 1
    else LastSlash(p[..|p| - 1])
  }

  function GetDirPath(path: string): string {
    if path == "/" then "."
    else if LastSlash(path) < 0 then ""
    else path[..LastSlash(path)]
  }

  function FileName(path: string): string {
    path[LastSlash(path) + 1..]
  }

  const DOWNLOAD := ".download."

  function GetDownloadPath(path: string): string {
    ToRealPath(DOWNLOAD + FileName(path), GetDirPath(path))
  }

  predicate Absolute(path: string) {
    path != [] && path[0] == '/'
  }

  /** A name readdir can return: not empty and without a leading slash. */
  predicate EntryName(n: string) {
    n != [] && n[0] != '/'
  }

  // Laws.

  /** Two absolute paths under the same root are the same path. */
  lemma RealPathInjective(p: string, q: string, root: string)
    requires Absolute(p) && Absolute(q)
    requires ToRealPath(p, root) == ToRealPath(q, root)
    ensures p == q
  {
    var s := Stripped(root);
    assert |root| <= |s| + 1;
    assert |p| == 1 ==> p == "/";
    assert |q| == 1 ==> q == "/";
    assert (s + p)[|s|..] == p && (s + q)[|s|..] == q;
  }

  /** Joining an entry to a directory and then to the root, or the directory to the root
      first, gives one and the same path: listings and single files are filed under the same
      keys. */
  lemma JoinAssociates(n: string, d: string, root: string)
    requires EntryName(n) && Absolute(d) && root != []
    ensures ToRealPath(n, ToRealPath(d, root)) == ToRealPath(ToRealPath(n, d), root)
  {
    var s := Stripped(root);
    var r := Stripped(d) + "/" + n;
    JoinAssoc(s, Stripped(d), n);
    if d == "/" {
      assert r == "/" + n;
    } else {
      assert Absolute(r) && r != "/";
    }
  }

  lemma JoinAssoc(a: string, b: string, n: string)
    ensures (a + b) + "/" + n == a + (b + "/" + n)
    ensures a + "/" + n == a + ("/" + n)
  {
  }

  lemma LastSlashUnique(p: string, i: int)
    requires 0 <= i < |p| && p[i] == '/'
    requires forall k :: i < k < |p| ==> p[k] != '/'
    ensures LastSlash(p) == i
  {
  }

  /** A path is its directory, a slash, and its name. */
  lemma SplitPath(p: string)
    requires LastSlash(p) >= 0 && p != "/"
    ensures p == GetDirPath(p) + "/" + FileName(p)
    ensures '/' !in FileName(p)
  {
  }

  lemma FileNameJoined(dir: string, name: string)
    requires '/' !in name
    ensures FileName(dir + "/" + name) == name
    ensures dir + "/" + name != "/" ==> GetDirPath(dir + "/" + name) == dir
  {
    var p := dir + "/" + name;
    LastSlashUnique(p, |dir|);
    assert p[|dir| + 1..] == name && p[..|dir|] == dir;
  }

  /** The download path sits beside its file, with the prefix before the name. */
  lemma DownloadPathIs(p: string)
    requires Absolute(p) && p != "/"
    ensures GetDownloadPath(p) == Stripped(GetDirPath(p)) + "/" + (DOWNLOAD + FileName(p))
    ensures FileName(GetDownloadPath(p)) == DOWNLOAD + FileName(p)
    ensures Absolute(GetDownloadPath(p)) && GetDownloadPath(p) != "/"
  {
    assert LastSlash(p) >= 0;
    SplitPath(p);
    var n := DOWNLOAD + FileName(p);
    assert n[0] == '.';
    FileNameJoined(Stripped(GetDirPath(p)), n);
    var d := GetDirPath(p);
    assert d == [] || d[0] == '/';
    if Stripped(d) != [] {
      assert Stripped(d)[0] == '/';
    }
  }

  predicate Hidden(name: string) {
    DOWNLOAD <= name
  }

  lemma {:induction false} LastSlashAfter(a: string, p: string)
    requires Absolute(p)
    ensures LastSlash(p) >= 0 && LastSlash(a + p) == |a| + LastSlash(p)
    ensures FileName(a + p) == FileName(p) && (a + p)[..LastSlash(a + p)] == a + p[..LastSlash(p)]
  {
    assert p[0] == '/';
    var i := LastSlash(p);
    assert (a + p)[|a| + i] == p[i] == '/';
    assert forall k :: |a| + i < k < |a + p| ==> (a + p)[k] == p[k - |a|];
    assert (a + p)[|a| + i + 1..] == p[i + 1..];
    assert (a + p)[..|a| + i] == a + p[..i];
  }

  lemma RealPathKeepsName(p: string, root: string)
    requires Absolute(p) && p != "/"
    ensures FileName(ToRealPath(p, root)) == FileName(p)
  {
    LastSlashAfter(Stripped(root), p);
  }

  /** Where pull_ puts its temporary file, and the file it publishes. */
  function TempPath(p: string, root: string): string {
    ToRealPath(GetDownloadPath(p), root)
  }

  function MirrorPath(p: string, root: string): string {
    ToRealPath(p, root)
  }

  /** No temporary file has the path of a mirror file whose name lacks the prefix. */
  lemma TempIsNoMirror(p: string, q: string, root: string)
    requires Absolute(p) && p != "/" && Absolute(q) && q != "/" && !Hidden(FileName(q))
    ensures TempPath(p, root) != MirrorPath(q, root)
    ensures Hidden(FileName(TempPath(p, root))) && !Hidden(FileName(MirrorPath(q, root)))
  {
    DownloadPathIs(p);
    RealPathKeepsName(GetDownloadPath(p), root);
    RealPathKeepsName(q, root);
    var n := DOWNLOAD + FileName(p);
    assert n[..|DOWNLOAD|] == DOWNLOAD;
  }

  /** Two paths share a temporary file exactly when name and directory agree, but for one
      slash at the end of the directory. */
  lemma TempExact(p: string, q: string, root: string)
    requires Absolute(p) && p != "/" && Absolute(q) && q != "/"
    ensures TempPath(p, root) == TempPath(q, root) <==>
            FileName(p) == FileName(q) && Stripped(GetDirPath(p)) == Stripped(GetDirPath(q))
  {
    DownloadPathIs(p);
    DownloadPathIs(q);
    if TempPath(p, root) == TempPath(q, root) {
      RealPathInjective(GetDownloadPath(p), GetDownloadPath(q), root);
      SplitPath(p);
      SplitPath(q);
      var np, nq := DOWNLOAD + FileName(p), DOWNLOAD + FileName(q);
      FileNameJoined(Stripped(GetDirPath(p)), np);
      FileNameJoined(Stripped(GetDirPath(q)), nq);
      assert np[|DOWNLOAD|..] == FileName(p) && nq[|DOWNLOAD|..] == FileName(q);
    }
  }

  /** A path without a doubled slash before its name. */
  predicate Tidy(p: string) {
    Absolute(p) && p != "/" && !EndsInSlash(GetDirPath(p))
  }

  /** So tidy paths have temporary files of their own ... */
  lemma TempInjective(p: string, q: string, root: string)
    requires Tidy(p) && Tidy(q) && TempPath(p, root) == TempPath(q, root)
    ensures p == q
  {
    TempExact(p, q, root);
    SplitPath(p);
    SplitPath(q);
  }

  /** ... and a path whose directory has one slash too many shares that of the tidy path
      beside it. */
  lemma DoubledSlashShares(p: string, q: string, root: string)
    requires Absolute(p) && p != "/" && Tidy(q)
    requires FileName(p) == FileName(q) && GetDirPath(p) == GetDirPath(q) + "/"
    ensures p != q && TempPath(p, root) == TempPath(q, root)
  {
    var d := GetDirPath(q);
    assert Stripped(d + "/") == d == Stripped(d);
    TempExact(p, q, root);
  }

  // Where a path leads.

  /** A root less one slash at its end. */
  lemma StrippedIs(root: string)
    ensures if EndsInSlash(root) then root == Stripped(root) + "/" else root == Stripped(root)
  {
  }

  /** As strings: "/" leads to the root itself, every other path to the root, less one slash at
      its end, followed by the path. */
  lemma RealPathIs(p: string, root: string)
    requires Absolute(p)
    ensures p == "/" ==> ToRealPath(p, root) == root
    ensures p != "/" ==>
              && Stripped(root) <= ToRealPath(p, root) && ToRealPath(p, root)[|Stripped(root)|..] == p
              && (if root != [] && root[|root| - 1] == '/' then root == Stripped(root) + "/" else root == Stripped(root))
  {
    StrippedIs(root);
  }

  // Which file a path names.

  function Named(n: string): seq<string> {
    if n == "" || n == "." then [] else [n]
  }

  /** The names an operating system follows one after the other; empty ones and dots it
      skips. */
  function Parts(p: string): seq<string>
    decreases |p|
  {
    if LastSlash(p) < 0 then Named(p) else Parts(p[..LastSlash(p)]) + Named(FileName(p))
  }

  /** Absolute, and without an empty component, a dot or two dots: the form in which the
      kernel hands paths to a file system. */
  predicate Canonical(p: string)
    decreases |p|
  {
    && Absolute(p)
    && (p == "/"
        || (&& FileName(p) !in {"", ".", ".."}
            && var d := p[..LastSlash(p)];
               d == "" || (d != "/" && Canonical(d))))
  }

  /** Such paths name the same file only if they are the same. */
  lemma {:induction false} CanonicalUnique(p: string, q: string)
    requires Canonical(p) && Canonical(q) && Parts(p) == Parts(q)
    ensures p == q
    decreases |p|
  {
    CanonicalParts(p);
    CanonicalParts(q);
    if p != "/" && q != "/" {
      var d, e := p[..LastSlash(p)], q[..LastSlash(q)];
      assert Parts(d) == Parts(p)[..|Parts(p)| - 1] == Parts(q)[..|Parts(q)| - 1] == Parts(e);
      assert FileName(p) == Parts(p)[|Parts(p)| - 1] == FileName(q);
      if d != "" && e != "" {
        CanonicalUnique(d, e);
      } else if d != "" {
        CanonicalParts(d);
      } else if e != "" {
        CanonicalParts(e);
      }
      SplitPath(p);
      SplitPath(q);
      assert p == d + "/" + FileName(p) && q == e + "/" + FileName(q);
    }
  }

  lemma CanonicalParts(p: string)
    requires Canonical(p)
    ensures p == "/" <==> Parts(p) == []
    ensures p != "/" ==> Parts(p) == Parts(p[..LastSlash(p)]) + [FileName(p)]
    ensures Parts("") == []
  {
    assert p == "/" ==> LastSlash(p) == 0 && p[..0] == "" && FileName(p) == "";
  }

  lemma {:induction false} PartsJoin(a: string, p: string)
    requires Absolute(p)
    ensures Parts(a + p) == Parts(a) + Parts(p)
    decreases |p|
  {
    LastSlashAfter(a, p);
    var d, n := p[..LastSlash(p)], Named(FileName(p));
    assert Parts(a + p) == Parts(a + d) + n && Parts(p) == Parts(d) + n;
    if d == "" {
      assert a + d == a;
    } else {
      PartsJoin(a, d);
    }
    assert (Parts(a) + Parts(d)) + n == Parts(a) + (Parts(d) + n);
  }

  lemma {:induction false} PartsStripped(root: string)
    ensures Parts(Stripped(root)) == Parts(root)
  {
    if EndsInSlash(root) {
      var n := |root| - 1;
      LastSlashUnique(root, n);
      assert root[n + 1..] == "" && Named("") == [];
      assert Parts(root) == Parts(root[..n]) + [];
    }
  }

  /** As files: whatever the root, a path leads to what it names below the root. */
  lemma {:induction false} PartsUnder(p: string, root: string)
    requires Absolute(p)
    ensures Parts(ToRealPath(p, root)) == Parts(root) + Parts(p)
  {
    if p == "/" {
      CanonicalParts(p);
    } else {
      PartsStripped(root);
      PartsJoin(Stripped(root), p);
    }
  }

  lemma {:induction false} PartsSlash(n: string)
    requires EntryName(n)
    ensures Parts("/" + n) == Parts(n)
    decreases |n|
  {
    var p := "/" + n;
    if LastSlash(n) < 0 {
      assert LastSlash(p) == 0 by {
        LastSlashUnique(p, 0);
      }
      assert p[..0] == "" && p[1..] == n && Parts("") == [];
    } else {
      var i := LastSlash(n);
      LastSlashUnique(p, i + 1);
      assert p[..i + 1] == "/" + n[..i] && p[i + 2..] == n[i + 1..];
      PartsSlash(n[..i]);
    }
  }

  /** And an entry of a directory lies in the directory. */
  lemma {:induction false} EntryUnder(n: string, dir: string)
    requires EntryName(n)
    ensures Parts(ToRealPath(n, dir)) == Parts(dir) + Parts(n)
    ensures '/' !in n && n != "." ==> Parts(n) == [n]
  {
    PartsStripped(dir);
    assert Stripped(dir) + "/" + n == Stripped(dir) + ("/" + n);
    PartsJoin(Stripped(dir), "/" + n);
    PartsSlash(n);
  }

  /** The temporary file of a path lies below the root, in the directory of its file, under the
      prefixed name. */
  lemma {:induction false} TempUnder(p: string, root: string)
    requires Absolute(p) && p != "/"
    ensures Parts(TempPath(p, root)) == Parts(root) + (Parts(GetDirPath(p)) + [DOWNLOAD + FileName(p)])
  {
    var t, n := GetDownloadPath(p), DOWNLOAD + FileName(p);
    DownloadPathIs(p);
    SplitPath(p);
    PartsUnder(t, root);
    FileNameJoined(Stripped(GetDirPath(p)), n);
    LastSlashUnique(t, |Stripped(GetDirPath(p))|);
    assert t[..LastSlash(t)] == Stripped(GetDirPath(p));
    assert n[..|DOWNLOAD|] == DOWNLOAD;
    PartsStripped(GetDirPath(p));
  }

  /** Different canonical paths have different mirror files: not merely as strings, but as
      files. */
  lemma DistinctMirrors(p: string, q: string, root: string)
    requires Canonical(p) && Canonical(q) && p != "/" && q != "/"
    ensures Parts(MirrorPath(p, root)) == Parts(MirrorPath(q, root)) <==> p == q
  {
    var s := Stripped(root);
    PartsJoin(s, p);
    PartsJoin(s, q);
    if Parts(MirrorPath(p, root)) == Parts(MirrorPath(q, root)) {
      SamePrefix(Parts(s), Parts(p), Parts(q));
      CanonicalUnique(p, q);
    }
  }

  lemma SamePrefix(a: seq<string>, b: seq<string>, c: seq<string>)
    requires a + b == a + c
    ensures b == c
  {
    assert (a + b)[|a|..] == b && (a + c)[|a|..] == c;
  }

  /** Nor is a temporary file the mirror file of a path whose name lacks the prefix. */
  lemma DistinctTemp(p: string, q: string, root: string)
    requires Canonical(p) && Canonical(q) && p != "/" && q != "/" && !Hidden(FileName(q))
    ensures Parts(TempPath(p, root)) != Parts(MirrorPath(q, root))
  {
    var s, t := Stripped(root), GetDownloadPath(p);
    TempParts(p);
    PartsJoin(s, t);
    PartsJoin(s, q);
    CanonicalParts(q);
    LastPart(Parts(s), Parts(t[..LastSlash(t)]), FileName(t));
    LastPart(Parts(s), Parts(q[..LastSlash(q)]), FileName(q));
  }

  lemma TempParts(p: string)
    requires Absolute(p) && p != "/"
    ensures var t := GetDownloadPath(p);
            Absolute(t) && t != "/" && LastSlash(t) >= 0 && Hidden(FileName(t))
            && Parts(t) == Parts(t[..LastSlash(t)]) + [FileName(t)]
  {
    DownloadPathIs(p);
    var n := DOWNLOAD + FileName(p);
    assert n[..|DOWNLOAD|] == DOWNLOAD;
    assert n != "" && n != ".";
    assert GetDownloadPath(p)[0] == '/';
  }

  lemma LastPart(a: seq<string>, b: seq<string>, n: string)
    ensures var all := a + (b + [n]); all[|all| - 1] == n
  {
  }
}
