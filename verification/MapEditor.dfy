/** The configuration file: one line a key, the key and its values separated by spaces. */
module MapEditor {
  import opened Files

  type Settings = map<string, seq<string>>

  const NUL: char := 0 as char

  // Reading.

  /** What getline takes off a text: a line and what is left after it. */
  function FirstLine(text: string): string {
    if text == [] || text[0] == '\n' then [] else [text[0]] + FirstLine(text[1..])
  }

  function AfterLine(text: string): string
    ensures text != [] ==> |AfterLine(text)| < |text|
  {
    if text == [] then [] else if text[0] == '\n' then text[1..] else AfterLine(text[1..])
  }

  function Lines(text: string): seq<string>
    decreases |text|
  {
    if text == [] then [] else [FirstLine(text)] + Lines(AfterLine(text))
  }

  /** A C string ends at its first NUL. */
  function CString(line: string): string {
    if line == [] || line[0] == NUL then [] else [line[0]] + CString(line[1..])
  }

  function SkipSpaces(s: string): (r: string)
    ensures |r| <= |s| && (r != [] ==> r[0] != ' ')
  {
    if s != [] && s[0] == ' ' then SkipSpaces(s[1..]) else s
  }

  function Word(s: string): (w: string)
    ensures |w| <= |s| && w == s[..|w|]
    ensures ' ' !in w
    ensures |w| < |s| ==> s[|w|] == ' '
  {
    if s == [] || s[0] == ' ' then [] else [s[0]] + Word(s[1..])
  }

  /** All the tokens strtok finds. */
  function Tokens(s: string): seq<string>
    decreases |s|
  {
    var r := SkipSpaces(s);
    if r == [] then [] else [Word(r)] + Tokens(r[|Word(r)|..])
  }

  /** One line: its first token is the key; the others are appended to what the key has. A
      line without a token makes the program build a string from a null pointer. */
  function AddLine(m: Settings, line: string): Option<Settings> {
    var ts := Tokens(CString(line));
    if ts == [] then None
    else Some(m[ts[0] := (if ts[0] in m then m[ts[0]] else []) + ts[1..]])
  }

  function AddLines(m: Settings, lines: seq<string>): Option<Settings> {
    if lines == [] then Some(m)
    else
      var n := |lines| - 1;
      var r := AddLines(m, lines[..n]);
      if r.None? then None else AddLine(r.value, lines[n])
  }

  function Load(m: Settings, text: string): Option<Settings> {
    AddLines(m, Lines(text))
  }

  // Writing.

  function Joined(vals: seq<string>): string {
    if vals == [] then [] else Joined(vals[..|vals| - 1]) + vals[|vals| - 1] + " "
  }

  function LineOf(key: string, vals: seq<string>): string {
    key + " " + Joined(vals)
  }

  /** The text for the keys in the given order. */
  function Text(m: Settings, keys: seq<string>): string
    requires forall i :: 0 <= i < |keys| ==> keys[i] in m
  {
    if keys == [] then []
    else
      var n := |keys| - 1;
      Text(m, keys[..n]) + LineOf(keys[n], m[keys[n]]) + "\n"
  }

  /** An order in which to go through a map's keys. */
  ghost predicate Ordering(m: Settings, keys: seq<string>) {
    && (forall i :: 0 <= i < |keys| ==> keys[i] in m)
    && (forall i, j :: 0 <= i < j < |keys| ==> keys[i] != keys[j])
    && (forall k :: k in m ==> k in keys)
  }

  predicate CleanChar(c: char) {
    c != ' ' && c != '\n' && c != NUL
  }

  ghost predicate Clean(w: string) {
    w != [] && forall i :: 0 <= i < |w| ==> CleanChar(w[i])
  }

  ghost predicate AllClean(ws: seq<string>) {
    forall i :: 0 <= i < |ws| ==> Clean(ws[i])
  }

  ghost predicate CleanSettings(m: Settings) {
    forall k :: k in m ==> Clean(k) && AllClean(m[k])
  }

  // Lines of a written text are the written lines.

  ghost predicate NoNewline(s: string) {
    forall i :: 0 <= i < |s| ==> s[i] != '\n'
  }

  lemma {:induction false} LineSplits(line: string, rest: string)
    requires NoNewline(line)
    ensures FirstLine(line + "\n" + rest) == line && AfterLine(line + "\n" + rest) == rest
  {
    var t := line + "\n" + rest;
    if line == [] {
      assert t[0] == '\n' && t[1..] == rest;
    } else {
      assert t[0] == line[0] && t[1..] == line[1..] + "\n" + rest;
      LineSplits(line[1..], rest);
      assert line == [line[0]] + line[1..];
    }
  }

  lemma {:induction false} LinesSnoc(text: string, line: string)
    requires text == [] || text[|text| - 1] == '\n'
    requires NoNewline(line)
    ensures Lines(text + line + "\n") == Lines(text) + [line]
    decreases |text|
  {
    var t := text + line + "\n";
    if text == [] {
      assert t == line + "\n" + [];
      LineSplits(line, []);
      assert Lines([]) == [];
    } else {
      var f, r := FirstLine(text), AfterLine(text);
      LineIsPart(text);
      assert t == f + "\n" + (r + line + "\n");
      LineSplits(f, r + line + "\n");
      LinesSnoc(r, line);
    }
  }

  lemma {:induction false} LineIsPart(text: string)
    requires text != [] && text[|text| - 1] == '\n'
    ensures var f, r := FirstLine(text), AfterLine(text);
            && NoNewline(f) && text == f + "\n" + r
            && (r == [] || r[|r| - 1] == '\n')
  {
    FirstLineClean(text);
    if text[0] == '\n' {
      assert text == [] + "\n" + text[1..];
    } else {
      var f, r := FirstLine(text[1..]), AfterLine(text[1..]);
      LineIsPart(text[1..]);
      assert text == [text[0]] + text[1..];
    }
  }

  // Tokens of a written line are the written words.

  lemma {:induction false} CStringWhole(s: string)
    requires forall i :: 0 <= i < |s| ==> s[i] != NUL
    ensures CString(s) == s
  {
    if s != [] {
      CStringWhole(s[1..]);
      assert s == [s[0]] + s[1..];
    }
  }

  predicate Spaceless(w: string) {
    w != [] && ' ' !in w
  }

  /** A word ends where a space follows or nothing does. */
  lemma WordEnds(w: string, rest: string)
    requires Spaceless(w) && (rest != [] ==> rest[0] == ' ')
    ensures SkipSpaces(w + rest) == w + rest && Word(w + rest) == w
  {
    var s := w + rest;
    var v := Word(s);
    assert forall i :: 0 <= i < |v| ==> v[i] == s[i] && v[i] in v;
    assert forall i :: 0 <= i < |w| ==> w[i] == s[i] && w[i] in w;
    assert rest != [] ==> s[|w|] == ' ';
    assert s[..|w|] == w;
  }

  /** The tokens of every line, in three equations: none of an empty one, blanks before a word are
      skipped, and a word is followed by the tokens of what comes after it. */
  lemma {:induction false} TokensAre(w: string, rest: string, s: string)
    requires Spaceless(w) && (rest != [] ==> rest[0] == ' ')
    ensures Tokens([]) == []
    ensures Tokens(" " + s) == Tokens(s)
    ensures Tokens(w + rest) == [w] + Tokens(rest)
  {
    assert (" " + s)[1..] == s;
    assert SkipSpaces(" " + s) == SkipSpaces(s);
    WordEnds(w, rest);
    assert (w + rest)[|w|..] == rest;
  }

  lemma CleanSpaceless(w: string)
    requires Clean(w)
    ensures Spaceless(w)
  {
    assert forall i :: 0 <= i < |w| ==> CleanChar(w[i]);
  }

  lemma {:induction false} TokensCons(w: string, rest: string)
    requires Clean(w)
    ensures Tokens(w + " " + rest) == [w] + Tokens(rest)
  {
    assert w + " " + rest == w + (" " + rest);
    CleanSpaceless(w);
    TokensAre(w, " " + rest, rest);
  }

  lemma {:induction false} TokensJoined(vals: seq<string>)
    requires AllClean(vals)
    ensures Tokens(Joined(vals)) == vals
    decreases |vals|
  {
    if vals != [] {
      JoinedCons(vals);
      TokensCons(vals[0], Joined(vals[1..]));
      TokensJoined(vals[1..]);
    }
  }

  lemma {:induction false} JoinedCons(vals: seq<string>)
    requires vals != []
    ensures Joined(vals) == vals[0] + " " + Joined(vals[1..])
    decreases |vals|
  {
    var n := |vals| - 1;
    if n == 0 {
      assert vals[..0] == [] && vals[1..] == [];
      assert Joined(vals) == [] + vals[0] + " ";
    } else {
      JoinedCons(vals[..n]);
      assert vals[..n][1..] == vals[1..][..n - 1];
      assert vals[1..][n - 1] == vals[n];
      assert vals[0] + " " + Joined(vals[..n][1..]) + vals[n] + " "
          == vals[0] + " " + (Joined(vals[..n][1..]) + vals[n] + " ");
    }
  }

  lemma {:induction false} JoinedPlain(vals: seq<string>)
    requires AllClean(vals)
    ensures forall i :: 0 <= i < |Joined(vals)| ==> Joined(vals)[i] != '\n' && Joined(vals)[i] != NUL
    decreases |vals|
  {
    if vals != [] {
      JoinedPlain(vals[..|vals| - 1]);
      assert Clean(vals[|vals| - 1]);
    }
  }

  lemma LineReadsBack(m: Settings, key: string, vals: seq<string>)
    requires Clean(key) && AllClean(vals) && key !in m
    ensures NoNewline(LineOf(key, vals))
    ensures AddLine(m, LineOf(key, vals)) == Some(m[key := vals])
  {
    JoinedPlain(vals);
    CStringWhole(LineOf(key, vals));
    TokensCons(key, Joined(vals));
    TokensJoined(vals);
    assert ([key] + vals)[1..] == vals;
    assert [] + vals == vals;
  }

  // Lines as people write them.

  /** Values with a space before each and none after the last. */
  function Spaced(vals: seq<string>): string {
    if vals == [] then [] else " " + vals[0] + Spaced(vals[1..])
  }

  lemma {:induction false} TokensSpaced(vals: seq<string>)
    requires AllClean(vals)
    ensures Tokens(Spaced(vals)) == vals
    ensures Spaced(vals) != [] ==> Spaced(vals)[0] == ' '
  {
    if vals != [] {
      var v, rest := vals[0], Spaced(vals[1..]);
      TokensSpaced(vals[1..]);
      CleanSpaceless(v);
      TokensAre(v, rest, v + rest);
      assert " " + v + rest == " " + (v + rest);
    } else {
      TokensAre("x", "", "");
    }
  }

  lemma {:induction false} SpacedPlain(vals: seq<string>)
    requires AllClean(vals)
    ensures Plain(Spaced(vals))
  {
    if vals != [] {
      assert Clean(vals[0]);
      SpacedPlain(vals[1..]);
    }
  }

  /** A key and its values with single spaces between them, nothing after the last: the values
      are added to what the key has. */
  lemma WrittenByHand(m: Settings, key: string, vals: seq<string>)
    requires Clean(key) && AllClean(vals)
    ensures NoNewline(key + Spaced(vals))
    ensures AddLine(m, key + Spaced(vals)) == Some(m[key := (if key in m then m[key] else []) + vals])
  {
    SpacedPlain(vals);
    TokensSpaced(vals);
    CleanSpaceless(key);
    CStringWhole(key + Spaced(vals));
    TokensAre(key, Spaced(vals), "");
    assert ([key] + vals)[1..] == vals;
  }

  /** The lines of every text, in three equations: none of an empty one, one of a text without a
      newline, and one more for each newline. */
  lemma LinesAre(line: string, rest: string)
    requires NoNewline(line)
    ensures Lines([]) == []
    ensures line != [] ==> Lines(line) == [line]
    ensures Lines(line + "\n" + rest) == [line] + Lines(rest)
  {
    LineSplits(line, rest);
    LineWhole(line);
  }

  lemma {:induction false} LineWhole(line: string)
    requires NoNewline(line)
    ensures FirstLine(line) == line && AfterLine(line) == []
  {
    if line != [] {
      LineWhole(line[1..]);
      assert line == [line[0]] + line[1..];
    }
  }

  /** Whether the last line ends in a newline makes no difference. */
  lemma {:induction false} FinalNewline(m: Settings, text: string)
    requires text != [] && text[|text| - 1] != '\n'
    ensures Load(m, text + "\n") == Load(m, text)
  {
    LinesEnd(text);
  }

  lemma {:induction false} LinesEnd(text: string)
    requires text != [] && text[|text| - 1] != '\n'
    ensures Lines(text + "\n") == Lines(text)
    decreases |text|
  {
    FirstLineClean(text);
    var f, r := FirstLine(text), AfterLine(text);
    if NoNewline(text) {
      LineWhole(text);
      LinesAre(text, []);
      assert text + "\n" + [] == text + "\n";
    } else {
      SplitFirst(text);
      LinesAre(f, r);
      LinesAre(f, r + "\n");
      assert f + "\n" + r + "\n" == f + "\n" + (r + "\n");
      assert r != [] && r[|r| - 1] == text[|text| - 1];
      LinesEnd(r);
    }
  }

  lemma {:induction false} SplitFirst(text: string)
    requires !NoNewline(text)
    ensures text == FirstLine(text) + "\n" + AfterLine(text)
  {
    if text[0] != '\n' {
      assert !NoNewline(text[1..]) by {
        var i :| 0 <= i < |text| && text[i] == '\n';
        assert text[1..][i - 1] == '\n';
      }
      SplitFirst(text[1..]);
      assert text == [text[0]] + text[1..];
    }
  }

  // Round trips.

  function Restrict(m: Settings, keys: seq<string>): Settings {
    map k | k in m && k in keys :: m[k]
  }

  lemma {:induction false} TextLines(m: Settings, keys: seq<string>)
    requires CleanSettings(m) && forall i :: 0 <= i < |keys| ==> keys[i] in m
    ensures Text(m, keys) == [] || Text(m, keys)[|Text(m, keys)| - 1] == '\n'
    ensures keys != [] ==>
              var n := |keys| - 1;
              Lines(Text(m, keys)) == Lines(Text(m, keys[..n])) + [LineOf(keys[n], m[keys[n]])]
    decreases |keys|
  {
    if keys != [] {
      var n := |keys| - 1;
      TextLines(m, keys[..n]);
      JoinedPlain(m[keys[n]]);
      LinesSnoc(Text(m, keys[..n]), LineOf(keys[n], m[keys[n]]));
    }
  }

  /** Reading back what was written, key by key. */
  lemma {:induction false} LoadText(m: Settings, keys: seq<string>)
    requires CleanSettings(m)
    requires forall i :: 0 <= i < |keys| ==> keys[i] in m
    requires forall i, j :: 0 <= i < j < |keys| ==> keys[i] != keys[j]
    ensures Load(map[], Text(m, keys)) == Some(Restrict(m, keys))
    decreases |keys|
  {
    if keys == [] {
      assert Restrict(m, keys) == map[];
    } else {
      var n := |keys| - 1;
      var front, k := keys[..n], keys[n];
      LoadText(m, front);
      TextLines(m, keys);
      var lines := Lines(Text(m, front));
      assert (lines + [LineOf(k, m[k])])[..|lines|] == lines;
      assert k !in front;
      LineReadsBack(Restrict(m, front), k, m[k]);
      assert Restrict(m, keys) == Restrict(m, front)[k := m[k]] by {
        assert forall x :: x in keys <==> x in front || x == k;
      }
    }
  }

  // What is loaded is clean.

  lemma {:induction false} LinesClean(text: string)
    ensures forall i :: 0 <= i < |Lines(text)| ==> NoNewline(Lines(text)[i])
    decreases |text|
  {
    if text != [] {
      FirstLineClean(text);
      LinesClean(AfterLine(text));
    }
  }

  lemma {:induction false} FirstLineClean(text: string)
    ensures NoNewline(FirstLine(text))
  {
    if text != [] && text[0] != '\n' {
      FirstLineClean(text[1..]);
    }
  }

  ghost predicate Plain(s: string) {
    forall i :: 0 <= i < |s| ==> s[i] != '\n' && s[i] != NUL
  }

  lemma {:induction false} CStringClean(line: string)
    requires NoNewline(line)
    ensures Plain(CString(line))
  {
    if line != [] && line[0] != NUL {
      CStringClean(line[1..]);
    }
  }

  lemma {:induction false} SkipSpacesPlain(s: string)
    requires Plain(s)
    ensures Plain(SkipSpaces(s))
  {
    if s != [] && s[0] == ' ' {
      SkipSpacesPlain(s[1..]);
    }
  }

  lemma WordClean(r: string)
    requires Plain(r) && r != [] && r[0] != ' '
    ensures Clean(Word(r)) && Plain(r[|Word(r)|..])
  {
    var w := Word(r);
    assert w[0] == r[0];
    forall i | 0 <= i < |w| ensures CleanChar(w[i]) {
      assert w[i] == r[i] && w[i] in w;
    }
  }

  lemma {:induction false} TokensClean(s: string)
    requires Plain(s)
    ensures AllClean(Tokens(s))
    decreases |s|
  {
    var r := SkipSpaces(s);
    if r != [] {
      SkipSpacesPlain(s);
      WordClean(r);
      TokensClean(r[|Word(r)|..]);
    }
  }

  lemma AddLineClean(m: Settings, line: string)
    requires CleanSettings(m) && NoNewline(line) && AddLine(m, line).Some?
    ensures CleanSettings(AddLine(m, line).value)
  {
    CStringClean(line);
    TokensClean(CString(line));
  }

  lemma {:induction false} LoadClean(m: Settings, lines: seq<string>)
    requires CleanSettings(m) && (forall i :: 0 <= i < |lines| ==> NoNewline(lines[i]))
    requires AddLines(m, lines).Some?
    ensures CleanSettings(AddLines(m, lines).value)
    decreases |lines|
  {
    if lines != [] {
      var n := |lines| - 1;
      LoadClean(m, lines[..n]);
      AddLineClean(AddLines(m, lines[..n]).value, lines[n]);
    }
  }

  /** A map survives being saved and loaded, in whatever order its lines were written, if
      and only if its keys and values are clean: not empty, and free of spaces, newlines and
      NULs. */
  lemma SaveThenLoad(m: Settings, keys: seq<string>)
    requires Ordering(m, keys)
    ensures Load(map[], Text(m, keys)) == Some(m) <==> CleanSettings(m)
  {
    if CleanSettings(m) {
      LoadText(m, keys);
      assert Restrict(m, keys) == m;
    }
    if Load(map[], Text(m, keys)) == Some(m) {
      LinesClean(Text(m, keys));
      LoadClean(map[], Lines(Text(m, keys)));
    }
  }

  /** Loading fails exactly on a text with a line that holds no token. */
  lemma {:induction false} LoadFails(m: Settings, lines: seq<string>)
    ensures AddLines(m, lines).None? <==> exists i :: 0 <= i < |lines| && Tokens(CString(lines[i])) == []
    decreases |lines|
  {
    if lines != [] {
      var n := |lines| - 1;
      LoadFails(m, lines[..n]);
      if AddLines(m, lines[..n]).None? {
        var i :| 0 <= i < n && Tokens(CString(lines[..n][i])) == [];
        assert Tokens(CString(lines[i])) == [];
      } else if AddLines(m, lines).Some? {
        forall i | 0 <= i < |lines| ensures Tokens(CString(lines[i])) != [] {
          assert i < n ==> lines[..n][i] == lines[i];
        }
      }
    }
  }

  /** For any text with a token on every line, loading, saving and loading again gives what
      the first loading gave. */
  lemma LoadSaveLoad(text: string, m: Settings, keys: seq<string>)
    requires Load(map[], text) == Some(m) && Ordering(m, keys)
    ensures Load(map[], Text(m, keys)) == Load(map[], text)
  {
    LinesClean(text);
    LoadClean(map[], Lines(text));
    SaveThenLoad(m, keys);
  }

  // The object.

  class Editor {
    var maps: Settings

    constructor ()
      ensures maps == map[]
    {
      maps := map[];
    }

    /** Reads a configuration text into `maps`, adding to what is there. When a line has no
        token the program dies in the middle; `ok` is false then, with the lines before it
        already added. */
    method LoadText(text: string) returns (ok: bool)
      modifies this
      ensures ok <==> Load(old(maps), text).Some?
      ensures ok ==> Load(old(maps), text) == Some(maps)
      ensures !ok ==> exists n :: 0 <= n < |Lines(text)| && AddLines(old(maps), Lines(text)[..n]) == Some(maps)
                                  && Tokens(CString(Lines(text)[n])) == []
    {
      var rest := text;
      ghost var all, done := Lines(text), 0;
      while rest != []
        invariant 0 <= done <= |all| && all[done..] == Lines(rest)
        invariant AddLines(old(maps), all[..done]) == Some(maps)
        decreases |rest|
      {
        var line := FirstLine(rest);
        assert all[done] == line && all[done + 1..] == Lines(AfterLine(rest));
        assert all[..done + 1][..done] == all[..done];
        var added := AddTokens(CString(line));
        if !added {
          LoadFails(old(maps), all);
          return false;
        }
        done := done + 1;
        rest := AfterLine(rest);
      }
      assert all[..done] == all;
      ok := true;
    }

    /** One line: the first token is the key, the others are added to its values. */
    method AddTokens(str: string) returns (ok: bool)
      modifies this
      ensures ok <==> Tokens(str) != []
      ensures !ok ==> maps == old(maps)
      ensures ok ==>
                var ts := Tokens(str);
                maps == old(maps)[ts[0] := (if ts[0] in old(maps) then old(maps)[ts[0]] else []) + ts[1..]]
    {
      var rest := SkipSpaces(str);
      if rest == [] {
        return false;
      }
      var key := Word(rest);
      rest := rest[|key|..];
      assert Tokens(str) == [key] + Tokens(rest);
      if key !in maps {
        maps := maps[key := []];
      }
      AddValues(key, rest);
      ok := true;
    }

    /** The strtok loop over the rest of the line. */
    method AddValues(key: string, str: string)
      requires key in maps
      modifies this
      ensures maps == old(maps)[key := old(maps)[key] + Tokens(str)]
    {
      var rest := str;
      ghost var taken: seq<string> := [];
      while true
        invariant Tokens(str) == taken + Tokens(rest)
        invariant maps.Keys == old(maps).Keys && maps[key] == old(maps)[key] + taken
        invariant forall k :: k in maps && k != key ==> maps[k] == old(maps)[k]
        decreases |rest|
      {
        rest := SkipSpaces(rest);
        if rest == [] {
          break;
        }
        var val := Word(rest);
        maps := maps[key := maps[key] + [val]];
        taken := taken + [val];
        rest := rest[|val|..];
      }
      assert taken + [] == taken;
    }

    /** Writes the map, in some order of its keys, as a text that loads back to it. */
    method SaveText() returns (text: string)
      ensures exists keys :: Ordering(maps, keys) && text == Text(maps, keys)
      ensures Load(map[], text) == Some(maps) <==> CleanSettings(maps)
    {
      text := [];
      var left := maps.Keys;
      ghost var keys: seq<string> := [];
      while left != {}
        invariant left <= maps.Keys
        invariant forall i :: 0 <= i < |keys| ==> keys[i] in maps && keys[i] !in left
        invariant forall i, j :: 0 <= i < j < |keys| ==> keys[i] != keys[j]
        invariant forall k :: k in maps ==> k in left || k in keys
        invariant text == Text(maps, keys)
        decreases left
      {
        var key :| key in left;
        left := left - {key};
        text := text + key + " ";
        var i := 0;
        while i < |maps[key]|
          invariant 0 <= i <= |maps[key]|
          invariant text == Text(maps, keys) + key + " " + Joined(maps[key][..i])
        {
          text := text + maps[key][i] + " ";
          assert maps[key][..i + 1][..i] == maps[key][..i];
          i := i + 1;
        }
        text := text + "\n";
        assert maps[key][..i] == maps[key];
        assert (keys + [key])[..|keys|] == keys;
        keys := keys + [key];
      }
      assert Ordering(maps, keys);
      SaveThenLoad(maps, keys);
    }
  }

}
