/**
  The manifest in a skills directory (internal/agentskills/install.go): two comment lines, then
  the installed skills one per line. What it lists when its write is cut short matters as much
  as what it lists when it is whole.
*/
module Manifest {
  import opened Text
  import opened Sorting

  /** A skill name: letters a-z, digits and dashes. */
  predicate ValidName(n: string) {
    n != "" && n != "." && n != ".." &&
    forall i :: 0 <= i < |n| ==> 'a' <= n[i] <= 'z' || '0' <= n[i] <= '9' || n[i] == '-'
  }

  const MANIFEST := ".obol-managed"
  const HEAD1 := "# Skills installed by obol; " + "it removes these when " + "they leave the set."
  const HEAD2 := "# Other directories here " + "are yours and are " + "never touched."

  function Headed(h1: string, h2: string, body: string): string {
    h1 + ['\n'] + (h2 + ['\n'] + body)
  }

  function Body(sorted: seq<string>): string {
    Join(sorted, '\n') + ['\n'] + ""
  }

  function ManifestText(names: seq<string>): string {
    Headed(HEAD1, HEAD2, Body(Sort(names, BEFORE)))
  }

  /** The names in the lines of a manifest; blank lines and comments are skipped. */
  function NamesIn(lines: seq<string>): seq<string> {
    if lines == [] then []
    else
      var n := Trim(lines[0]);
      (if n != "" && n[0] != '#' then [n] else []) + NamesIn(lines[1..])
  }

  function ReadNames(text: string): seq<string> {
    NamesIn(Split(text, '\n'))
  }

  lemma {:induction false} NamesInAppend(xs: seq<string>, ys: seq<string>)
    ensures NamesIn(xs + ys) == NamesIn(xs) + NamesIn(ys)
  {
    if xs == [] {
      assert xs + ys == ys;
    } else {
      assert (xs + ys)[1..] == xs[1..] + ys;
      NamesInAppend(xs[1..], ys);
    }
  }

  lemma ValidTrimmed(n: string)
    requires ValidName(n)
    ensures Trim(n) == n && n[0] != '#' && '\n' !in n && n != MANIFEST
  {
    TrimTrims(n);
    assert MANIFEST[0] == '.';
  }

  lemma {:induction false} ValidNamesIn(names: seq<string>)
    requires forall i :: 0 <= i < |names| ==> ValidName(names[i])
    ensures NamesIn(names) == names
  {
    if names == [] {
    } else {
      ValidTrimmed(names[0]);
      ValidNamesIn(names[1..]);
    }
  }

  lemma {:induction false} SkippedLines(x: string, rest: seq<string>)
    requires Trim(x) == "" || Trim(x)[0] == '#'
    ensures NamesIn([x] + rest) == NamesIn(rest)
  {
    assert ([x] + rest)[1..] == rest;
  }

  /** A comment line of the manifest. */
  predicate CommentLine(h: string) {
    h != "" && h[0] == '#' && !IsSpace(h[|h| - 1]) && OneLine(h)
  }

  predicate OneLine(s: string) {
    forall i :: 0 <= i < |s| ==> s[i] != '\n'
  }

  lemma HeadsAreComments()
    ensures CommentLine(HEAD1) && CommentLine(HEAD2)
  {
    assert OneLine("# Skills installed by obol; ");
    assert OneLine("it removes these when ");
    assert OneLine("they leave the set.");
    assert OneLine("# Other directories here ");
    assert OneLine("are yours and are ");
    assert OneLine("never touched.");
  }

  lemma SortedNames(names: seq<string>)
    requires forall n :: n in names ==> ValidName(n)
    ensures forall n :: n in Sort(names, BEFORE) <==> n in names
    ensures forall i :: 0 <= i < |Sort(names, BEFORE)| ==> ValidName(Sort(names, BEFORE)[i])
  {
    var sorted := Sort(names, BEFORE);
    SortPermutes(names, BEFORE);
    forall n
      ensures n in sorted <==> n in names
    {
      assert n in sorted <==> n in multiset(sorted);
    }
    forall i | 0 <= i < |sorted|
      ensures ValidName(sorted[i])
    {
      assert sorted[i] in sorted;
    }
  }

  /** Below the comments: the names one per line. */
  lemma BodyReadsBack(sorted: seq<string>)
    requires forall i :: 0 <= i < |sorted| ==> ValidName(sorted[i])
    ensures ReadNames(Body(sorted)) == sorted
  {
    SplitAppend(Join(sorted, '\n'), "", '\n');
    TrimTrims("");
    if sorted == [] {
      SkippedLines("", [""]);
      SkippedLines("", []);
    } else {
      forall i | 0 <= i < |sorted|
        ensures '\n' !in sorted[i]
      {
        ValidTrimmed(sorted[i]);
      }
      SplitJoin(sorted, '\n');
      ValidNamesIn(sorted);
      NamesInAppend(sorted, [""]);
      SkippedLines("", []);
    }
  }

  lemma CommentSkipped(head: string, rest: string)
    requires CommentLine(head)
    ensures ReadNames(head + ['\n'] + rest) == ReadNames(rest)
  {
    SplitCut(head, rest, '\n');
    TrimTrims(head);
    SkippedLines(head, Split(rest, '\n'));
  }

  /** Reading back a manifest gives the names it was written for, sorted. */
  lemma ManifestReadsBack(names: seq<string>)
    requires forall n :: n in names ==> ValidName(n)
    ensures ReadNames(ManifestText(names)) == Sort(names, BEFORE)
    ensures forall n :: n in ReadNames(ManifestText(names)) <==> n in names
  {
    var sorted := Sort(names, BEFORE);
    SortedNames(names);
    BodyReadsBack(sorted);
    HeadsAreComments();
    CommentSkipped(HEAD2, Body(sorted));
    CommentSkipped(HEAD1, HEAD2 + ['\n'] + Body(sorted));
  }

  // ----- a manifest cut short -----

  /** What a write leaves that stops after `at` characters. */
  function Cropped(text: string, at: nat): string {
    if at < |text| then text[..at] else text
  }

  /** The names that a manifest for `names` lists when it is cut after `at` characters. */
  function TornNames(names: seq<string>, at: nat): seq<string> {
    ReadNames(Cropped(ManifestText(names), at))
  }

  /** A proper prefix, not empty. */
  predicate Stump(p: string, n: string) {
    p != "" && |p| < |n| && p <= n
  }

  /** Lines, each ended. */
  function Listing(lines: seq<string>): string {
    if lines == [] then "" else lines[0] + ['\n'] + Listing(lines[1..])
  }

  /** Where line `m` begins. */
  function Offset(lines: seq<string>, m: nat): nat
    requires m <= |lines|
  {
    if m == 0 then 0 else |lines[0]| + 1 + Offset(lines[1..], m - 1)
  }

  /** The lines before line `m`, and what is left of that when it is cut after `q` characters. */
  function Whole(lines: seq<string>, m: nat, q: nat): seq<string>
    requires m < |lines| && q <= |lines[m]|
  {
    if m == 0 then [lines[0][..q]] else [lines[0]] + Whole(lines[1..], m - 1, q)
  }

  /** Their text; the last one is not ended. */
  function CutText(lines: seq<string>, m: nat, q: nat): string
    requires m < |lines| && q <= |lines[m]|
  {
    if m == 0 then lines[0][..q] else lines[0] + ['\n'] + CutText(lines[1..], m - 1, q)
  }

  /** What the cut loses. */
  function Lost(lines: seq<string>, m: nat, q: nat): string
    requires m < |lines| && q <= |lines[m]|
  {
    if m == 0 then lines[0][q..] + ['\n'] + Listing(lines[1..]) else Lost(lines[1..], m - 1, q)
  }

  lemma {:induction false} ListingInTwo(lines: seq<string>, m: nat, q: nat)
    requires m < |lines| && q <= |lines[m]|
    ensures |CutText(lines, m, q)| == Offset(lines, m) + q
    ensures Listing(lines) == CutText(lines, m, q) + Lost(lines, m, q)
  {
    var line, rest := lines[0], lines[1..];
    if m == 0 {
      assert line == line[..q] + line[q..];
      Regroup(line[..q], line[q..], ['\n']);
      Regroup(line[..q], line[q..] + ['\n'], Listing(rest));
    } else {
      ListingInTwo(rest, m - 1, q);
      Regroup(line + ['\n'], CutText(rest, m - 1, q), Lost(rest, m - 1, q));
    }
  }

  lemma CropsTo(text: string, kept: string, lost: string)
    requires text == kept + lost
    ensures Cropped(text, |kept|) == kept
  {
  }

  lemma CutTextIsCropped(lines: seq<string>, m: nat, q: nat)
    requires m < |lines| && q <= |lines[m]|
    ensures Cropped(Listing(lines), Offset(lines, m) + q) == CutText(lines, m, q)
  {
    ListingInTwo(lines, m, q);
    CropsTo(Listing(lines), CutText(lines, m, q), Lost(lines, m, q));
  }

  lemma {:induction false} CutTextSplits(lines: seq<string>, m: nat, q: nat)
    requires m < |lines| && q <= |lines[m]| && forall i :: 0 <= i < |lines| ==> OneLine(lines[i])
    ensures Split(CutText(lines, m, q), '\n') == Whole(lines, m, q)
  {
    if m == 0 {
      SplitCut(lines[0][..q], "", '\n');
    } else {
      SplitCut(lines[0], CutText(lines[1..], m - 1, q), '\n');
      CutTextSplits(lines[1..], m - 1, q);
    }
  }

  /** Cut in line `m`, a text lists what is in the lines before it and in what is left of it. */
  lemma ListingCut(lines: seq<string>, m: nat, q: nat)
    requires m < |lines| && q <= |lines[m]| && forall i :: 0 <= i < |lines| ==> OneLine(lines[i])
    ensures ReadNames(Cropped(Listing(lines), Offset(lines, m) + q)) == NamesIn(Whole(lines, m, q))
  {
    CutTextIsCropped(lines, m, q);
    CutTextSplits(lines, m, q);
    ReadsAsSplit(Cropped(Listing(lines), Offset(lines, m) + q), Whole(lines, m, q));
  }

  lemma ReadsAsSplit(text: string, pieces: seq<string>)
    requires Split(text, '\n') == pieces
    ensures ReadNames(text) == NamesIn(pieces)
  {
  }

  lemma {:induction false} WholeIs(lines: seq<string>, m: nat, q: nat)
    requires m < |lines| && q <= |lines[m]|
    ensures Whole(lines, m, q) == lines[..m] + [lines[m][..q]]
  {
    if m > 0 {
      WholeIs(lines[1..], m - 1, q);
      assert lines[..m] == [lines[0]] + lines[1..][..m - 1];
    }
  }

  /** Every cut is in some line, or behind them all. */
  lemma {:induction false} CutIsInLine(lines: seq<string>, at: nat) returns (m: nat, q: nat)
    ensures m <= |lines|
    ensures if m < |lines| then q <= |lines[m]| && at == Offset(lines, m) + q else at >= |Listing(lines)|
  {
    if lines == [] {
      return 0, 0;
    }
    if at <= |lines[0]| {
      return 0, at;
    }
    m, q := CutIsInLine(lines[1..], at - |lines[0]| - 1);
    m := m + 1;
  }

  lemma {:induction false} JoinIsListing(names: seq<string>)
    requires names != []
    ensures Join(names, '\n') + ['\n'] == Listing(names)
  {
    if |names| > 1 {
      JoinIsListing(names[1..]);
      Regroup(names[0] + ['\n'], Join(names[1..], '\n'), ['\n']);
    } else {
      assert Listing(names) == names[0] + ['\n'] + Listing([]);
    }
  }

  function LinesOf(h1: string, h2: string, sorted: seq<string>): seq<string> {
    [h1, h2] + if sorted == [] then [""] else sorted
  }

  lemma HeadedIsListing(h1: string, h2: string, sorted: seq<string>)
    ensures Headed(h1, h2, Body(sorted)) == Listing(LinesOf(h1, h2, sorted))
  {
    var lines := LinesOf(h1, h2, sorted);
    assert lines[1..][1..] == if sorted == [] then [""] else sorted;
    if sorted == [] {
      assert Listing([""]) == "" + ['\n'] + Listing([]);
    } else {
      JoinIsListing(sorted);
    }
  }

  lemma LinesAreLines(h1: string, h2: string, sorted: seq<string>)
    requires CommentLine(h1) && CommentLine(h2)
    requires forall i :: 0 <= i < |sorted| ==> ValidName(sorted[i])
    ensures forall i :: 0 <= i < |LinesOf(h1, h2, sorted)| ==> OneLine(LinesOf(h1, h2, sorted)[i])
  {
    var lines := LinesOf(h1, h2, sorted);
    forall i | 0 <= i < |lines|
      ensures OneLine(lines[i])
    {
      if 2 <= i && sorted != [] {
        ValidTrimmed(sorted[i - 2]);
      }
    }
  }

  /** What is listed by a text under two comments that is cut in line `m`. */
  function Listed(sorted: seq<string>, m: nat, q: nat): seq<string>
    requires m < 2 || sorted == [] || (m - 2 < |sorted| && q <= |sorted[m - 2]|)
  {
    if m < 2 || sorted == [] then [] else sorted[..m - 2] + Remnant(sorted[m - 2][..q])
  }

  lemma HeadedCut(h1: string, h2: string, sorted: seq<string>, lines: seq<string>, m: nat, q: nat)
    requires CommentLine(h1) && CommentLine(h2)
    requires forall i :: 0 <= i < |sorted| ==> ValidName(sorted[i])
    requires lines == LinesOf(h1, h2, sorted) && m < |lines| && q <= |lines[m]|
    ensures ReadNames(Cropped(Listing(lines), Offset(lines, m) + q)) == Listed(sorted, m, q)
  {
    LinesAreLines(h1, h2, sorted);
    ListingCut(lines, m, q);
    WholeListed(h1, h2, sorted, lines, m, q);
  }

  lemma WholeListed(h1: string, h2: string, sorted: seq<string>, lines: seq<string>, m: nat, q: nat)
    requires CommentLine(h1) && CommentLine(h2)
    requires forall i :: 0 <= i < |sorted| ==> ValidName(sorted[i])
    requires lines == LinesOf(h1, h2, sorted) && m < |lines| && q <= |lines[m]|
    ensures NamesIn(Whole(lines, m, q)) == Listed(sorted, m, q)
  {
    WholeIs(lines, m, q);
    NamesInAppend(lines[..m], [lines[m][..q]]);
    LinesBefore(h1, h2, sorted, m, q);
  }

  lemma LinesBefore(h1: string, h2: string, sorted: seq<string>, m: nat, q: nat)
    requires CommentLine(h1) && CommentLine(h2)
    requires forall i :: 0 <= i < |sorted| ==> ValidName(sorted[i])
    requires m < |LinesOf(h1, h2, sorted)| && q <= |LinesOf(h1, h2, sorted)[m]|
    ensures var lines := LinesOf(h1, h2, sorted);
            NamesIn(lines[..m]) + NamesIn([lines[m][..q]]) ==
            Listed(sorted, m, q)
  {
    var lines := LinesOf(h1, h2, sorted);
    CommentsListNothing(h1, h2);
    if m < 2 {
      StumpOfComment(lines[m], q);
      assert lines[..m] == if m == 0 then [] else [h1];
    } else if sorted == [] {
      assert lines[..m] == [h1, h2];
      TrimTrims("");
    } else {
      assert lines[..m] == [h1, h2] + sorted[..m - 2];
      NamesInAppend([h1, h2], sorted[..m - 2]);
      ValidNamesIn(sorted[..m - 2]);
      RemnantListed(sorted[m - 2], q);
    }
  }

  lemma CommentsListNothing(h1: string, h2: string)
    requires CommentLine(h1) && CommentLine(h2)
    ensures NamesIn([h1]) == [] && NamesIn([h1, h2]) == []
  {
    StumpOfComment(h1, |h1|);
    StumpOfComment(h2, |h2|);
    assert h1[..|h1|] == h1 && h2[..|h2|] == h2;
    assert [h1, h2] == [h1] + [h2];
    NamesInAppend([h1], [h2]);
  }

  /** What is left of a comment line is a comment or nothing. */
  lemma StumpOfComment(h: string, q: nat)
    requires CommentLine(h) && q <= |h|
    ensures NamesIn([h[..q]]) == []
  {
    if q == 0 {
      TrimTrims("");
    } else {
      TrimRightKeepsHead(h[..q]);
    }
  }

  lemma {:induction false} TrimRightKeepsHead(s: string)
    requires s != "" && !IsSpace(s[0])
    ensures TrimRight(s) != "" && TrimRight(s)[0] == s[0]
  {
    if IsSpace(s[|s| - 1]) {
      TrimRightKeepsHead(s[..|s| - 1]);
    }
  }

  /** What is left of a name is listed as a name. */
  function Remnant(p: string): seq<string> {
    if p == "" then [] else [p]
  }

  lemma RemnantListed(name: string, q: nat)
    requires ValidName(name) && q <= |name|
    ensures NamesIn([name[..q]]) == Remnant(name[..q])
    ensures q > 0 ==> ValidName(name[..q])
  {
    if q == 0 {
      TrimTrims("");
    } else {
      assert name[..q][0] == name[0] != '.';
      ValidNamesIn([name[..q]]);
    }
  }

  /** A manifest cut short lists the first names, and perhaps the stump of the next as a name. */
  lemma TornManifestLists(names: seq<string>, at: nat) returns (m: nat, p: string)
    requires forall n :: n in names ==> ValidName(n)
    ensures var sorted := Sort(names, BEFORE);
            m <= |sorted| && (p != "" ==> m < |sorted| && Stump(p, sorted[m]) && ValidName(p)) &&
            TornNames(names, at) == sorted[..m] + Remnant(p)
  {
    SortedNames(names);
    HeadsAreComments();
    ManifestReadsBack(names);
    m, p := HeadedLists(HEAD1, HEAD2, Sort(names, BEFORE), at);
  }

  lemma HeadedLists(h1: string, h2: string, sorted: seq<string>, at: nat) returns (m: nat, p: string)
    requires CommentLine(h1) && CommentLine(h2)
    requires forall i :: 0 <= i < |sorted| ==> ValidName(sorted[i])
    requires ReadNames(Headed(h1, h2, Body(sorted))) == sorted
    ensures m <= |sorted| && (p != "" ==> m < |sorted| && Stump(p, sorted[m]) && ValidName(p))
    ensures ReadNames(Cropped(Headed(h1, h2, Body(sorted)), at)) == sorted[..m] + Remnant(p)
  {
    HeadedIsListing(h1, h2, sorted);
    m, p := LinesList(h1, h2, sorted, LinesOf(h1, h2, sorted), at);
  }

  lemma LinesList(h1: string, h2: string, sorted: seq<string>, lines: seq<string>, at: nat) returns (m: nat, p: string)
    requires CommentLine(h1) && CommentLine(h2)
    requires forall i :: 0 <= i < |sorted| ==> ValidName(sorted[i])
    requires lines == LinesOf(h1, h2, sorted) && ReadNames(Listing(lines)) == sorted
    ensures m <= |sorted| && (p != "" ==> m < |sorted| && Stump(p, sorted[m]) && ValidName(p))
    ensures ReadNames(Cropped(Listing(lines), at)) == sorted[..m] + Remnant(p)
  {
    var line, q := CutIsInLine(lines, at);
    if line == |lines| {
      NothingCut(lines, sorted, at);
      m, p := |sorted|, "";
    } else {
      CutListed(h1, h2, sorted, lines, line, q, at);
      m, p := LastLine(sorted, line, q);
    }
  }

  lemma NothingCut(lines: seq<string>, sorted: seq<string>, at: nat)
    requires at >= |Listing(lines)| && ReadNames(Listing(lines)) == sorted
    ensures ReadNames(Cropped(Listing(lines), at)) == sorted[..|sorted|] + Remnant("")
  {
    assert sorted[..|sorted|] == sorted;
  }

  lemma CutListed(h1: string, h2: string, sorted: seq<string>, lines: seq<string>, line: nat, q: nat, at: nat)
    requires CommentLine(h1) && CommentLine(h2)
    requires forall i :: 0 <= i < |sorted| ==> ValidName(sorted[i])
    requires lines == LinesOf(h1, h2, sorted) && line < |lines| && q <= |lines[line]| && at == Offset(lines, line) + q
    ensures ReadNames(Cropped(Listing(lines), at)) == Listed(sorted, line, q)
  {
    HeadedCut(h1, h2, sorted, lines, line, q);
  }

  lemma LastLine(sorted: seq<string>, line: nat, q: nat) returns (m: nat, p: string)
    requires forall i :: 0 <= i < |sorted| ==> ValidName(sorted[i])
    requires line < 2 || sorted == [] || (line - 2 < |sorted| && q <= |sorted[line - 2]|)
    ensures m <= |sorted| && (p != "" ==> m < |sorted| && Stump(p, sorted[m]) && ValidName(p))
    ensures Listed(sorted, line, q) == sorted[..m] + Remnant(p)
  {
    if line < 2 || sorted == [] {
      return 0, "";
    }
    var name := sorted[line - 2];
    RemnantListed(name, q);
    if q == |name| {
      assert name[..q] == name;
      return line - 1, "";
    }
    m, p := line - 2, name[..q];
  }

  /** All it can list by mistake are stumps of the names it was written for. */
  lemma TornNamesAreStumps(names: seq<string>, at: nat, k: string)
    requires forall n :: n in names ==> ValidName(n)
    requires k in TornNames(names, at)
    ensures ValidName(k) && (k in names || exists n :: n in names && Stump(k, n))
  {
    SortedNames(names);
    var m, p := TornManifestLists(names, at);
    var sorted := Sort(names, BEFORE);
    if k in sorted[..m] {
      assert k in sorted;
    } else {
      assert k == p && sorted[m] in sorted;
    }
  }

  /** And every stump of every name can be listed that way. */
  lemma TornInsideName(names: seq<string>, n: string, q: nat) returns (at: nat)
    requires (forall k :: k in names ==> ValidName(k)) && n in names && 0 < q < |n|
    ensures n[..q] in TornNames(names, at)
  {
    HeadsAreComments();
    SortedNames(names);
    var sorted := Sort(names, BEFORE);
    var m :| 0 <= m < |sorted| && sorted[m] == n;
    at := TornInside(HEAD1, HEAD2, sorted, m, q);
  }

  lemma TornInside(h1: string, h2: string, sorted: seq<string>, m: nat, q: nat) returns (at: nat)
    requires CommentLine(h1) && CommentLine(h2)
    requires forall i :: 0 <= i < |sorted| ==> ValidName(sorted[i])
    requires m < |sorted| && 0 < q < |sorted[m]|
    ensures sorted[m][..q] in ReadNames(Cropped(Headed(h1, h2, Body(sorted)), at))
  {
    var lines := LinesOf(h1, h2, sorted);
    at := Offset(lines, m + 2) + q;
    HeadedIsListing(h1, h2, sorted);
    StumpListed(sorted, m, q);
    CutListed(h1, h2, sorted, lines, m + 2, q, at);
  }

  lemma StumpListed(sorted: seq<string>, m: nat, q: nat)
    requires m < |sorted| && 0 < q < |sorted[m]|
    ensures sorted[m][..q] in Listed(sorted, m + 2, q)
  {
    assert Listed(sorted, m + 2, q)[m] == sorted[m][..q];
  }
}
