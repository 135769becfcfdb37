/**
  The pieces of Go's standard library that the collector's parsers lean on,
  stated over `string` (a sequence of characters): `strings.Split` with a
  one-character separator, `strings.TrimSpace`, the line splitting of
  `bufio.ScanLines`, the first word read by `fmt.Fscanf(f, "%s", ...)`, and
  `path.Base` / `filepath.Dir` on slash-separated paths.
 */
module Text {
  import opened Wrappers

  /** Go's `unicode.IsSpace` (also the white-space table of package fmt). */
  predicate IsSpace(c: char) {
    ('\t' <= c <= '\r') || c == ' ' || c == '\U{85}' || c == '\U{A0}' || c == '\U{1680}'
    || ('\U{2000}' <= c <= '\U{200A}') || c == '\U{2028}' || c == '\U{2029}'
    || c == '\U{202F}' || c == '\U{205F}' || c == '\U{3000}'
  }

  // ---------------------------------------------------------------------------
  // strings.Split with a one-character separator
  // ---------------------------------------------------------------------------

  /** `strings.Split(s, string(sep))`: the pieces between occurrences of `sep`.
      There is always at least one piece, and no piece contains `sep`. */
  function Split(s: string, sep: char): (r: seq<string>)
    ensures |r| >= 1
    decreases |s|
  {
    if s == [] then [""]
    else
      var rest := Split(s[1..], sep);
      if s[0] == sep then [""] + rest
      else [[s[0]] + rest[0]] + rest[1..]
  }

  /** `strings.Join(parts, string(sep))`, the inverse of Split. */
  function Join(parts: seq<string>, sep: char): (s: string)
    requires |parts| >= 1
    decreases |parts|
  {
    if |parts| == 1 then parts[0] else parts[0] + [sep] + Join(parts[1..], sep)
  }

  /** No piece of a split holds the separator. */
  lemma {:induction false} SplitPiecesFree(s: string, sep: char)
    ensures forall i :: 0 <= i < |Split(s, sep)| ==> sep !in Split(s, sep)[i]
    decreases |s|
  {
    if s != [] {
      SplitPiecesFree(s[1..], sep);
    }
  }

  /** Splitting and joining again gives back the string. */
  lemma {:induction false} JoinSplit(s: string, sep: char)
    ensures Join(Split(s, sep), sep) == s
    decreases |s|
  {
    if s != [] {
      JoinSplit(s[1..], sep);
      var rest := Split(s[1..], sep);
      if s[0] == sep {
        assert Split(s, sep) == [""] + rest;
        assert ([""] + rest)[1..] == rest;
      } else {
        var r := Split(s, sep);
        assert r == [[s[0]] + rest[0]] + rest[1..];
        if |rest| == 1 {
          assert Join(r, sep) == [s[0]] + rest[0];
        } else {
          assert r[1..] == rest[1..];
          assert Join(rest, sep) == rest[0] + [sep] + Join(rest[1..], sep);
        }
      }
    }
  }

  /** Splitting a join of separator-free pieces gives back the pieces. */
  lemma {:induction false} SplitJoin(parts: seq<string>, sep: char)
    requires |parts| >= 1
    requires forall i :: 0 <= i < |parts| ==> sep !in parts[i]
    ensures Split(Join(parts, sep), sep) == parts
    decreases |parts|, |parts[0]|
  {
    if |parts| == 1 {
      SplitFree(parts[0], sep);
    } else if parts[0] == [] {
      var tail := Join(parts[1..], sep);
      assert Join(parts, sep) == [sep] + tail;
      SplitJoin(parts[1..], sep);
      assert [""] + parts[1..] == parts;
    } else {
      var c := parts[0][0];
      var shorter := [parts[0][1..]] + parts[1..];
      assert shorter[1..] == parts[1..];
      assert Join(parts, sep) == [c] + Join(shorter, sep);
      SplitJoin(shorter, sep);
      assert [c] + shorter[0] == parts[0];
      assert [[c] + shorter[0]] + shorter[1..] == parts;
    }
  }

  /** A join ends with its last part. */
  lemma {:induction false} JoinLast(parts: seq<string>, sep: char)
    requires |parts| >= 1 && parts[|parts| - 1] != []
    ensures var j := Join(parts, sep);
      |j| >= 1 && j[|j| - 1] == parts[|parts| - 1][|parts[|parts| - 1]| - 1]
    decreases |parts|
  {
    if |parts| > 1 {
      JoinLast(parts[1..], sep);
    }
  }

  /** A character in no part, other than the separator, is not in the join. */
  lemma {:induction false} JoinExcludes(parts: seq<string>, sep: char, c: char)
    requires |parts| >= 1 && c != sep
    requires forall i :: 0 <= i < |parts| ==> c !in parts[i]
    ensures c !in Join(parts, sep)
    decreases |parts|
  {
    if |parts| > 1 {
      JoinExcludes(parts[1..], sep, c);
    }
  }

  /** A line of space-separated words that neither starts nor ends with
      white space is trimmed to itself and split back into its words. */
  lemma SplitWords(words: seq<string>)
    requires |words| >= 1 && words[0] != [] && words[|words| - 1] != []
    requires !IsSpace(words[0][0]) && !IsSpace(words[|words| - 1][|words[|words| - 1]| - 1])
    requires forall i :: 0 <= i < |words| ==> ' ' !in words[i]
    ensures Split(TrimSpace(Join(words, ' ')), ' ') == words
  {
    var line := Join(words, ' ');
    JoinLast(words, ' ');
    TrimSpaceOf("", line, "");
    assert "" + line + "" == line;
    SplitJoin(words, ' ');
  }

  /** A string without the separator is a single piece. */
  lemma {:induction false} SplitFree(s: string, sep: char)
    requires sep !in s
    ensures Split(s, sep) == [s]
    decreases |s|
  {
    if s != [] {
      SplitFree(s[1..], sep);
      assert [s[0]] + s[1..] == s;
    }
  }

  // ---------------------------------------------------------------------------
  // strings.TrimSpace
  // ---------------------------------------------------------------------------

  /** `s` without its leading white space. */
  function TrimLeft(s: string): (r: string)
    ensures |r| <= |s| && r == s[|s| - |r|..]
    ensures r == [] || !IsSpace(r[0])
    decreases |s|
  {
    if s != [] && IsSpace(s[0]) then TrimLeft(s[1..]) else s
  }

  /** `s` without its trailing white space. */
  function TrimRight(s: string): (r: string)
    ensures |r| <= |s| && r == s[..|r|]
    ensures r == [] || !IsSpace(r[|r| - 1])
    decreases |s|
  {
    if s != [] && IsSpace(s[|s| - 1]) then TrimRight(s[..|s| - 1]) else s
  }

  /** `strings.TrimSpace`: `s` without its leading and trailing white space. */
  function TrimSpace(s: string): (r: string)
    ensures |r| <= |s|
    ensures r == [] || (!IsSpace(r[0]) && !IsSpace(r[|r| - 1]))
  {
    TrimRight(TrimLeft(s))
  }

  /** TrimSpace removes exactly the white space around the text. */
  lemma TrimSpaceOf(lead: string, core: string, trail: string)
    requires forall i :: 0 <= i < |lead| ==> IsSpace(lead[i])
    requires forall i :: 0 <= i < |trail| ==> IsSpace(trail[i])
    requires core == [] || (!IsSpace(core[0]) && !IsSpace(core[|core| - 1]))
    ensures TrimSpace(lead + core + trail) == core
  {
    if core == [] {
      var blank := lead + trail;
      assert forall i :: 0 <= i < |blank| ==> IsSpace(blank[i]);
      TrimLeftOf(blank, []);
      assert lead + core + trail == blank + [];
    } else {
      TrimLeftOf(lead, core + trail);
      assert lead + core + trail == lead + (core + trail);
      TrimRightOf(core, trail);
    }
  }

  lemma {:induction false} TrimLeftOf(lead: string, rest: string)
    requires forall i :: 0 <= i < |lead| ==> IsSpace(lead[i])
    requires rest == [] || !IsSpace(rest[0])
    ensures TrimLeft(lead + rest) == rest
    decreases |lead|
  {
    if lead == [] {
      assert lead + rest == rest;
    } else {
      assert (lead + rest)[1..] == lead[1..] + rest;
      TrimLeftOf(lead[1..], rest);
    }
  }

  lemma {:induction false} TrimRightOf(core: string, trail: string)
    requires forall i :: 0 <= i < |trail| ==> IsSpace(trail[i])
    requires core == [] || !IsSpace(core[|core| - 1])
    ensures TrimRight(core + trail) == core
    decreases |trail|
  {
    if trail == [] {
      assert core + trail == core;
    } else {
      var s := core + trail;
      assert s[..|s| - 1] == core + trail[..|trail| - 1];
      TrimRightOf(core, trail[..|trail| - 1]);
    }
  }

  // ---------------------------------------------------------------------------
  // bufio.ScanLines
  // ---------------------------------------------------------------------------

  /** The line without one trailing carriage return. */
  function DropCR(line: string): (r: string) {
    if line != [] && line[|line| - 1] == '\r' then line[..|line| - 1] else line
  }

  /** The lines a `bufio.Scanner` with the default `ScanLines` yields: the text
      between newlines, a final piece only when it is not empty, and one
      trailing carriage return dropped from each line. */
  function Lines(content: string): (lines: seq<string>) {
    var parts := Split(content, '\n');
    DropCRs(if parts[|parts| - 1] == "" then parts[..|parts| - 1] else parts)
  }

  function DropCRs(lines: seq<string>): (r: seq<string>)
    ensures |r| == |lines|
    decreases |lines|
  {
    if lines == [] then [] else [DropCR(lines[0])] + DropCRs(lines[1..])
  }

  lemma {:induction false} DropCRsNone(lines: seq<string>)
    requires forall i :: 0 <= i < |lines| ==> lines[i] == [] || lines[i][|lines[i]| - 1] != '\r'
    ensures DropCRs(lines) == lines
    decreases |lines|
  {
    if lines != [] {
      DropCRsNone(lines[1..]);
    }
  }

  /** The text of `lines`, each terminated by a newline. */
  function Unlines(lines: seq<string>): (s: string) {
    if lines == [] then "" else lines[0] + "\n" + Unlines(lines[1..])
  }

  /** Scanning newline-terminated lines gives back those lines, provided none
      holds a newline or ends in a carriage return. */
  lemma LinesUnlines(lines: seq<string>)
    requires forall i :: 0 <= i < |lines| ==> '\n' !in lines[i]
    requires forall i :: 0 <= i < |lines| ==> lines[i] == [] || lines[i][|lines[i]| - 1] != '\r'
    ensures Lines(Unlines(lines)) == lines
  {
    var parts := lines + [""];
    assert forall i :: 0 <= i < |parts| ==> '\n' !in parts[i];
    UnlinesJoin(lines);
    SplitJoin(parts, '\n');
    assert parts[..|parts| - 1] == lines;
    DropCRsNone(lines);
  }

  /** Two newline-terminated lines scan as those two lines. */
  lemma TwoLines(l1: string, l2: string)
    requires '\n' !in l1 && '\n' !in l2
    requires l1 == [] || l1[|l1| - 1] != '\r'
    requires l2 == [] || l2[|l2| - 1] != '\r'
    ensures Lines(l1 + "\n" + l2 + "\n") == [l1, l2]
  {
    assert [l1, l2][1..] == [l2];
    assert Unlines([l2]) == l2 + "\n" + "";
    assert Unlines([l1, l2]) == l1 + "\n" + l2 + "\n";
    LinesUnlines([l1, l2]);
  }

  /** Removing one trailing carriage return from lines that each gained one
      gives back the lines. */
  lemma {:induction false} DropCRsOf(crLines: seq<string>, lines: seq<string>)
    requires |crLines| == |lines|
    requires forall i :: 0 <= i < |lines| ==> crLines[i] == lines[i] + "\r"
    ensures DropCRs(crLines) == lines
    decreases |lines|
  {
    if lines != [] {
      assert crLines[0][..|crLines[0]| - 1] == lines[0];
      DropCRsOf(crLines[1..], lines[1..]);
    }
  }

  /** Lines terminated by `\r\n` scan as the lines without the carriage
      return, as on a file written with DOS line endings. */
  lemma CRLFLines(crLines: seq<string>, lines: seq<string>)
    requires |crLines| == |lines|
    requires forall i :: 0 <= i < |lines| ==> '\n' !in lines[i] && crLines[i] == lines[i] + "\r"
    ensures Lines(Unlines(crLines)) == lines
  {
    var parts := crLines + [""];
    forall i | 0 <= i < |parts| ensures '\n' !in parts[i] {
      if i < |crLines| {
        assert parts[i] == lines[i] + "\r";
      }
    }
    UnlinesJoin(crLines);
    SplitJoin(parts, '\n');
    assert parts[..|parts| - 1] == crLines;
    DropCRsOf(crLines, lines);
  }

  lemma {:induction false} UnlinesJoin(lines: seq<string>)
    ensures Unlines(lines) == Join(lines + [""], '\n')
    decreases |lines|
  {
    if lines != [] {
      UnlinesJoin(lines[1..]);
      assert (lines + [""])[1..] == lines[1..] + [""];
    }
  }

  // ---------------------------------------------------------------------------
  // fmt.Fscanf(f, "%s", &val)
  // ---------------------------------------------------------------------------

  /** The maximal run of non-space characters at the front of `s`. */
  function Word(s: string): (w: string)
    ensures |w| <= |s| && w == s[..|w|]
    ensures forall i :: 0 <= i < |w| ==> !IsSpace(w[i])
    ensures |w| == |s| || IsSpace(s[|w|])
    decreases |s|
  {
    if s == [] || IsSpace(s[0]) then [] else [s[0]] + Word(s[1..])
  }

  /** The word `fmt.Fscanf(f, "%s", &val)` stores: white space other than a
      newline is skipped first; reaching a newline or the end of the input
      before any other character is an error (None). */
  function FirstToken(s: string): (r: Option<string>)
    ensures r.Some? ==> r.value != [] && forall i :: 0 <= i < |r.value| ==> !IsSpace(r.value[i])
    decreases |s|
  {
    if s == [] || s[0] == '\n' then None
    else if IsSpace(s[0]) then FirstToken(s[1..])
    else Some(Word(s))
  }

  /** FirstToken reads exactly the word that follows the leading blanks. */
  lemma {:induction false} FirstTokenOf(lead: string, word: string, rest: string)
    requires forall i :: 0 <= i < |lead| ==> IsSpace(lead[i]) && lead[i] != '\n'
    requires word != [] && forall i :: 0 <= i < |word| ==> !IsSpace(word[i])
    requires rest == [] || IsSpace(rest[0])
    ensures FirstToken(lead + word + rest) == Some(word)
    decreases |lead|
  {
    var s := lead + word + rest;
    if lead == [] {
      assert s == word + rest;
      WordOf(word, rest);
    } else {
      assert s[1..] == lead[1..] + word + rest;
      FirstTokenOf(lead[1..], word, rest);
    }
  }

  lemma {:induction false} WordOf(word: string, rest: string)
    requires forall i :: 0 <= i < |word| ==> !IsSpace(word[i])
    requires rest == [] || IsSpace(rest[0])
    ensures Word(word + rest) == word
    decreases |word|
  {
    if word == [] {
      assert word + rest == rest;
    } else {
      assert (word + rest)[1..] == word[1..] + rest;
      WordOf(word[1..], rest);
    }
  }

  /** No token can be read when a newline comes before any other character. */
  lemma {:induction false} FirstTokenNewline(lead: string, rest: string)
    requires forall i :: 0 <= i < |lead| ==> IsSpace(lead[i]) && lead[i] != '\n'
    ensures FirstToken(lead) == None
    ensures FirstToken(lead + "\n" + rest) == None
    decreases |lead|
  {
    if lead != [] {
      assert (lead + "\n" + rest)[1..] == lead[1..] + "\n" + rest;
      FirstTokenNewline(lead[1..], rest);
    }
  }

  // ---------------------------------------------------------------------------
  // path.Base and filepath.Dir on slash-separated, clean, relative paths
  // ---------------------------------------------------------------------------

  /** Index of the last '/' in `p`, or -1. */
  function LastSlash(p: string): (i: int)
    ensures -1 <= i < |p|
    decreases |p|
  {
    if p == [] then -1
    else if p[|p| - 1] == '/' then |p| - 1
    else LastSlash(p[..|p| - 1])
  }

  /** `LastSlash` finds the last '/', or -1 when there is none. */
  lemma {:induction false} LastSlashSpec(p: string)
    ensures LastSlash(p) >= 0 ==> p[LastSlash(p)] == '/'
    ensures forall j :: LastSlash(p) < j < |p| ==> p[j] != '/'
    decreases |p|
  {
    if p != [] && p[|p| - 1] != '/' {
      LastSlashSpec(p[..|p| - 1]);
      assert forall j :: 0 <= j < |p| - 1 ==> p[..|p| - 1][j] == p[j];
    }
  }

  /** The name of the last element of `p` (what `fs.DirEntry.Name` reports). */
  function Base(p: string): (name: string) {
    p[LastSlash(p) + 1..]
  }

  /** `filepath.Dir`: all but the last element, or "." for a top-level path. */
  function Dir(p: string): (dir: string) {
    var i := LastSlash(p);
    if i < 0 then "." else p[..i]
  }

  /** A path is its directory joined with its base name; a top-level path is
      its own base name and lies in ".". */
  lemma DirBase(p: string)
    ensures '/' !in Base(p)
    ensures '/' in p ==> p == Dir(p) + "/" + Base(p)
    ensures '/' !in p ==> Dir(p) == "." && Base(p) == p
  {
    var i := LastSlash(p);
    LastSlashSpec(p);
    forall k | 0 <= k < |Base(p)| ensures Base(p)[k] != '/' {
      assert Base(p)[k] == p[i + 1 + k];
    }
    if i >= 0 {
      assert p[..i] + "/" + p[i + 1..] == p;
    } else {
      assert forall j :: 0 <= j < |p| ==> p[j] != '/';
      assert Base(p) == p;
    }
  }

  /** A directory, a slash and a name without a slash make a path whose
      directory and base name they are. */
  lemma PathOf(dir: string, name: string)
    requires '/' !in name
    ensures Base(dir + "/" + name) == name && Dir(dir + "/" + name) == dir
  {
    var p := dir + "/" + name;
    LastSlashSpec(p);
    assert p[|dir|] == '/';
    forall j | |dir| < j < |p| ensures p[j] != '/' {
      assert p[j] == name[j - |dir| - 1];
    }
    assert LastSlash(p) == |dir|;
    assert p[|dir| + 1..] == name && p[..|dir|] == dir;
  }
}
