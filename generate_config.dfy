/**
 * Text part of the configuration generator: the general document is
 * followed by a `cameras:` key under which every camera document is placed,
 * in sorted path order, indented by two spaces.
 */
module GenerateConfig {

  // ---------------------------------------------------------------------
  // Characters, stripping and lines
  // ---------------------------------------------------------------------

  /** The characters Python's `str.isspace` accepts (and `strip`/`rstrip` remove). */
  predicate IsSpace(c: char)
  {
    || '\t' <= c <= '\r'
    || '\U{1C}' <= c <= ' '
    || c == '\U{85}' || c == '\U{A0}' || c == '\U{1680}'
    || '\U{2000}' <= c <= '\U{200A}'
    || c == '\U{2028}' || c == '\U{2029}' || c == '\U{202F}' || c == '\U{205F}' || c == '\U{3000}'
  }

  /** `line.strip()` is empty: every character is whitespace. */
  predicate IsBlank(line: string)
  {
    forall i :: 0 <= i < |line| ==> IsSpace(line[i])
  }

  /** `s.rstrip()`: the longest prefix of `s` that does not end in whitespace. */
  function RStrip(s: string): string
  {
    if s == [] || !IsSpace(s[|s| - 1]) then s else RStrip(s[..|s| - 1])
  }

  /** What `rstrip` removes is whitespace, and what it keeps does not end in whitespace. */
  lemma {:induction false} RStripSpec(s: string)
    ensures |RStrip(s)| <= |s| && RStrip(s) == s[..|RStrip(s)|]
    ensures IsBlank(s[|RStrip(s)|..])
    ensures RStrip(s) == [] || !IsSpace(RStrip(s)[|RStrip(s)| - 1])
  {
    if s != [] && IsSpace(s[|s| - 1]) {
      var init := s[..|s| - 1];
      RStripSpec(init);
      var r := RStrip(init);
      assert s[|r|..] == init[|r|..] + [s[|s| - 1]];
    }
  }

  /** `s.split('\n')`: the pieces between newlines (always at least one). */
  function Split(s: string): (lines: seq<string>)
    ensures |lines| >= 1
    ensures forall k :: 0 <= k < |lines| ==> '\n' !in lines[k]
  {
    if s == [] then [[]]
    else
      var rest := Split(s[1..]);
      if s[0] == '\n' then [[]] + rest
      else [[s[0]] + rest[0]] + rest[1..]
  }

  /** `s.splitlines()` for text that uses '\n' alone and does not end in it: no lines at all for empty text. */
  function SplitLines(s: string): seq<string>
  {
    if s == [] then [] else Split(s)
  }

  /** `"\n".join(lines)`. */
  function Join(lines: seq<string>): string
  {
    if |lines| == 0 then []
    else if |lines| == 1 then lines[0]
    else lines[0] + "\n" + Join(lines[1..])
  }

  /** Joining the pieces of a split gives the text back. */
  lemma {:induction false} JoinSplit(s: string)
    ensures Join(Split(s)) == s
  {
    if s != [] {
      var rest := Split(s[1..]);
      JoinSplit(s[1..]);
      if s[0] == '\n' {
        assert ([[]] + rest)[1..] == rest;
        assert [s[0]] + s[1..] == s;
      } else if |rest| == 1 {
        assert [s[0]] + s[1..] == s;
      } else {
        var lines := [[s[0]] + rest[0]] + rest[1..];
        assert lines[1..] == rest[1..];
        assert Join(rest) == rest[0] + "\n" + Join(rest[1..]);
        assert [s[0]] + s[1..] == s;
      }
    }
  }

  /** Splitting a join of newline-free lines gives the lines back. */
  lemma {:induction false} SplitJoin(lines: seq<string>)
    requires |lines| >= 1
    requires forall k :: 0 <= k < |lines| ==> '\n' !in lines[k]
    ensures Split(Join(lines)) == lines
  {
    if |lines| == 1 {
      SplitNoNewline(lines[0]);
    } else {
      SplitJoin(lines[1..]);
      SplitAfterLine(lines[0], Join(lines[1..]));
      assert [lines[0]] + lines[1..] == lines;
    }
  }

  /** A newline-free text is a single line. */
  lemma {:induction false} SplitNoNewline(line: string)
    requires '\n' !in line
    ensures Split(line) == [line]
  {
    if line != [] {
      SplitNoNewline(line[1..]);
      assert [line[0]] + line[1..] == line;
    }
  }

  /** A newline-free line followed by '\n' splits off as the first piece. */
  lemma {:induction false} SplitAfterLine(line: string, rest: string)
    requires '\n' !in line
    ensures Split(line + "\n" + rest) == [line] + Split(rest)
  {
    if line == [] {
      assert line + "\n" + rest == "\n" + rest;
      assert ("\n" + rest)[1..] == rest;
    } else {
      assert (line + "\n" + rest)[1..] == line[1..] + "\n" + rest;
      SplitAfterLine(line[1..], rest);
      assert [line[0]] + line[1..] == line;
    }
  }

  // ---------------------------------------------------------------------
  // Indentation of one camera document
  // ---------------------------------------------------------------------

  /** Two spaces before a non-blank line; a blank line is kept as it is. */
  function IndentLine(line: string): string
  {
    if IsBlank(line) then line else "  " + line
  }

  /** The inverse step: the two leading spaces of a non-blank line are removed. */
  function UnindentLine(line: string): string
  {
    if !IsBlank(line) && |line| >= 2 && line[..2] == "  " then line[2..] else line
  }

  function IndentAll(lines: seq<string>): seq<string>
  {
    seq(|lines|, k requires 0 <= k < |lines| => IndentLine(lines[k]))
  }

  function UnindentAll(lines: seq<string>): seq<string>
  {
    seq(|lines|, k requires 0 <= k < |lines| => UnindentLine(lines[k]))
  }

  /** Un-indenting an indented line restores it. */
  lemma UnindentIndentLine(line: string)
    ensures UnindentLine(IndentLine(line)) == line
  {
    if !IsBlank(line) {
      var i :| 0 <= i < |line| && !IsSpace(line[i]);
      assert ("  " + line)[i + 2] == line[i];
      assert ("  " + line)[2..] == line;
    }
  }

  /** The nested loop that builds `indented_lines`. */
  method IndentLines(lines: seq<string>) returns (indented: seq<string>)
    ensures |indented| == |lines|
    ensures forall k :: 0 <= k < |lines| && IsBlank(lines[k]) ==> indented[k] == lines[k]
    ensures forall k :: 0 <= k < |lines| && !IsBlank(lines[k]) ==> indented[k] == "  " + lines[k]
    ensures indented == IndentAll(lines)
  {
    indented := [];
    for i := 0 to |lines|
      invariant |indented| == i
      invariant forall k :: 0 <= k < i ==> indented[k] == IndentLine(lines[k])
    {
      if !IsBlank(lines[i]) {
        indented := indented + ["  " + lines[i]];
      } else {
        indented := indented + [lines[i]];
      }
    }
  }

  /** The text a camera document contributes to the combined document. */
  function Fragment(text: string): string
  {
    Join(IndentAll(SplitLines(RStrip(text)))) + "\n"
  }

  /** A fragment without its final newline, split back into lines. */
  function FragmentLines(fragment: string): seq<string>
  {
    if fragment != [] && fragment[|fragment| - 1] == '\n' then Split(fragment[..|fragment| - 1]) else Split(fragment)
  }

  /** Undoing the indentation of a fragment. */
  function Deindent(fragment: string): string
  {
    Join(UnindentAll(FragmentLines(fragment)))
  }

  /** A fragment ends with a newline and is made of the camera document's lines, one per
      line, the non-blank ones with exactly two more leading spaces. */
  lemma FragmentShape(text: string)
    ensures var f := Fragment(text);
      && f != [] && f[|f| - 1] == '\n'
      && (RStrip(text) != [] ==> FragmentLines(f) == IndentAll(SplitLines(RStrip(text))))
      && (RStrip(text) != [] ==> |FragmentLines(f)| == |SplitLines(RStrip(text))|)
  {
    var t := RStrip(text);
    var f := Fragment(text);
    assert f[..|f| - 1] == Join(IndentAll(SplitLines(t)));
    if t != [] {
      IndentKeepsNoNewline(Split(t));
      SplitJoin(IndentAll(Split(t)));
    }
  }

  /** Indenting adds no newline. */
  lemma IndentKeepsNoNewline(lines: seq<string>)
    requires forall k :: 0 <= k < |lines| ==> '\n' !in lines[k]
    ensures forall k :: 0 <= k < |lines| ==> '\n' !in IndentAll(lines)[k]
  {
    forall k | 0 <= k < |lines|
      ensures '\n' !in IndentAll(lines)[k]
    {
      if !IsBlank(lines[k]) {
        assert IndentAll(lines)[k] == "  " + lines[k];
      }
    }
  }

  /** Round trip: removing the indentation from a fragment recovers the right-stripped
      camera document. */
  lemma FragmentRoundTrip(text: string)
    ensures Deindent(Fragment(text)) == RStrip(text)
  {
    var t := RStrip(text);
    var f := Fragment(text);
    FragmentShape(text);
    if t == [] {
      assert f[..|f| - 1] == [];
      assert FragmentLines(f) == [[]];
      assert UnindentAll([[]]) == [UnindentLine([])];
    } else {
      var lines := Split(t);
      forall k | 0 <= k < |lines|
        ensures UnindentAll(IndentAll(lines))[k] == lines[k]
      {
        UnindentIndentLine(lines[k]);
      }
      assert UnindentAll(IndentAll(lines)) == lines;
      JoinSplit(t);
    }
  }

  // ---------------------------------------------------------------------
  // Sorted order of the camera files
  // ---------------------------------------------------------------------

  /** One file found in the cameras directory: its path and its content. */
  datatype CameraFile = CameraFile(path: string, text: string)

  /** Python's string order: lexicographic by code point, a prefix before its extensions. */
  predicate LexLessEq(a: string, b: string)
  {
    a == [] || (b != [] && (a[0] < b[0] || (a[0] == b[0] && LexLessEq(a[1..], b[1..]))))
  }

  lemma {:induction false} LexTotal(a: string, b: string)
    ensures LexLessEq(a, b) || LexLessEq(b, a)
  {
    if a != [] && b != [] && a[0] == b[0] {
      LexTotal(a[1..], b[1..]);
    }
  }

  lemma {:induction false} LexTransitive(a: string, b: string, c: string)
    requires LexLessEq(a, b) && LexLessEq(b, c)
    ensures LexLessEq(a, c)
  {
    if a != [] && a[0] == b[0] && b[0] == c[0] {
      LexTransitive(a[1..], b[1..], c[1..]);
    }
  }

  /** Every file's path is at most the next one's. */
  predicate SortedByPath(files: seq<CameraFile>)
  {
    |files| < 2 || (LexLessEq(files[0].path, files[1].path) && SortedByPath(files[1..]))
  }

  /** Inserts one file into a list sorted by path, before the first file whose path is not smaller. */
  function Insert(x: CameraFile, files: seq<CameraFile>): (r: seq<CameraFile>)
    ensures multiset(r) == multiset(files) + multiset{x}
    ensures |r| == |files| + 1
    ensures r[0] == x || (files != [] && r[0] == files[0])
  {
    if files == [] then [x]
    else if LexLessEq(x.path, files[0].path) then [x] + files
    else
      assert [files[0]] + files[1..] == files;
      [files[0]] + Insert(x, files[1..])
  }

  /** Insertion keeps a list sorted. */
  lemma {:induction false} InsertSorted(x: CameraFile, files: seq<CameraFile>)
    requires SortedByPath(files)
    ensures SortedByPath(Insert(x, files))
  {
    if files != [] && !LexLessEq(x.path, files[0].path) {
      InsertSorted(x, files[1..]);
      LexTotal(x.path, files[0].path);
      assert ([files[0]] + Insert(x, files[1..]))[1..] == Insert(x, files[1..]);
    }
  }

  /** In a sorted list every path is at most every later one. */
  lemma {:induction false} SortedByPathPairs(files: seq<CameraFile>, i: int, j: int)
    requires SortedByPath(files) && 0 <= i < j < |files|
    ensures LexLessEq(files[i].path, files[j].path)
  {
    if i > 0 {
      SortedByPathPairs(files[1..], i - 1, j - 1);
    } else if j > 1 {
      SortedByPathPairs(files[1..], 0, j - 1);
      LexTransitive(files[0].path, files[1].path, files[j].path);
    }
  }

  /** `sorted(...)` of the camera files by path. */
  function SortByPath(files: seq<CameraFile>): seq<CameraFile>
  {
    if files == [] then [] else Insert(files[0], SortByPath(files[1..]))
  }

  /** Sorting yields the same files, in path order. */
  lemma {:induction false} SortByPathSpec(files: seq<CameraFile>)
    ensures multiset(SortByPath(files)) == multiset(files)
    ensures SortedByPath(SortByPath(files))
  {
    if files != [] {
      SortByPathSpec(files[1..]);
      InsertSorted(files[0], SortByPath(files[1..]));
      assert [files[0]] + files[1..] == files;
    }
  }

  // ---------------------------------------------------------------------
  // The combined document
  // ---------------------------------------------------------------------

  /** The right-stripped general document followed by the `cameras` key. */
  function Header(generalText: string): string
  {
    RStrip(generalText) + "\n\n" + "cameras:\n"
  }

  /** The fragments of the given camera files, in the given order. */
  function FragmentsOf(files: seq<CameraFile>): seq<string>
  {
    seq(|files|, k requires 0 <= k < |files| => Fragment(files[k].text))
  }

  /** Concatenation of a list of texts. */
  function Concat(texts: seq<string>): string
  {
    if texts == [] then [] else Concat(texts[..|texts| - 1]) + texts[|texts| - 1]
  }

  lemma ConcatSnoc(texts: seq<string>, i: nat)
    requires i < |texts|
    ensures Concat(texts[..i + 1]) == Concat(texts[..i]) + texts[i]
  {
    assert texts[..i + 1][..i] == texts[..i];
  }

  lemma PrefixOfConcat(a: string, b: string)
    ensures a <= a + b
  {
    assert (a + b)[..|a|] == a;
  }

  /** The body of the loop over the camera files: the right-stripped text of one
      file, its lines indented, joined and closed by a newline. */
  method CameraFragment(text: string) returns (fragment: string)
    ensures fragment == Fragment(text)
  {
    var camText := RStrip(text);
    var indentedLines := IndentLines(SplitLines(camText));
    fragment := Join(indentedLines) + "\n";
  }

  /** The combined document: the header, then the fragment of every camera file in path order. */
  function Combined(generalText: string, cameraFiles: seq<CameraFile>): string
  {
    Header(generalText) + Concat(FragmentsOf(SortByPath(cameraFiles)))
  }

  /** The combined document opens with the right-stripped general document and the `cameras` key. */
  lemma CombinedStartsWithHeader(generalText: string, cameraFiles: seq<CameraFile>)
    ensures Header(generalText) <= Combined(generalText, cameraFiles)
  {
    PrefixOfConcat(Header(generalText), Concat(FragmentsOf(SortByPath(cameraFiles))));
  }

  /** There is one fragment per camera file, and every camera file contributes its fragment. */
  lemma EveryCameraIncluded(cameraFiles: seq<CameraFile>, file: CameraFile)
    requires file in cameraFiles
    ensures |FragmentsOf(SortByPath(cameraFiles))| == |cameraFiles|
    ensures Fragment(file.text) in FragmentsOf(SortByPath(cameraFiles))
  {
    var sorted := SortByPath(cameraFiles);
    SortKeepsFiles(cameraFiles, file);
    var k :| 0 <= k < |sorted| && sorted[k] == file;
    assert FragmentsOf(sorted)[k] == Fragment(file.text);
  }

  lemma SortKeepsFiles(files: seq<CameraFile>, file: CameraFile)
    requires file in files
    ensures |SortByPath(files)| == |files| && file in SortByPath(files)
  {
    var sorted := SortByPath(files);
    SortByPathSpec(files);
    assert |sorted| == |multiset(sorted)| == |multiset(files)| == |files|;
    assert file in multiset(files);
  }

  lemma AppendAssoc(a: string, b: string, c: string)
    ensures (a + b) + c == a + (b + c)
  {
  }

  /** The loop of `main` that builds `combined`. */
  method Combine(generalText: string, cameraFiles: seq<CameraFile>) returns (combined: string)
    ensures combined == Combined(generalText, cameraFiles)
  {
    combined := RStrip(generalText) + "\n\n" + "cameras:\n";
    var camFiles := SortByPath(cameraFiles);
    ghost var fragments := FragmentsOf(camFiles);
    for i := 0 to |camFiles|
      invariant combined == Header(generalText) + Concat(fragments[..i])
    {
      var fragment := CameraFragment(camFiles[i].text);
      ConcatSnoc(fragments, i);
      AppendAssoc(Header(generalText), Concat(fragments[..i]), fragment);
      combined := combined + fragment;
    }
    assert fragments[..|camFiles|] == fragments;
  }
}
