/**
  The digest of a skills tree (internal/agentskills/source.go): one line per regular file,
  its path, a NUL, the hex SHA-256 of its contents and a newline; the lines are sorted and
  their concatenation is hashed.
*/
module TreeDigest {
  import opened Wrappers
  import opened Text
  import opened Sorting

  /** A regular file: relative path with slashes, and the hex digest of its contents. */
  datatype Leaf = Leaf(path: string, sum: string)

  const NUL := '\0'
  const HEX: nat := 64

  /** A path has no NUL, a digest has 64 characters. */
  predicate Proper(f: Leaf) {
    NUL !in f.path && |f.sum| == HEX
  }

  function Line(f: Leaf): string {
    f.path + [NUL] + f.sum + ['\n']
  }

  function Lines(files: seq<Leaf>): seq<string> {
    seq(|files|, i requires 0 <= i < |files| => Line(files[i]))
  }

  function Concat(lines: seq<string>): string {
    if lines == [] then "" else lines[0] + Concat(lines[1..])
  }

  /** The stream that treeDigest feeds to the hash, for the files in the order they are walked. */
  function Stream(files: seq<Leaf>): string {
    Concat(Sort(Lines(files), BEFORE))
  }

  /** treeDigest up to the hash; a tree without files is an error. */
  method HashedStream(files: seq<Leaf>) returns (fed: Option<string>)
    ensures fed == if files == [] then None else Some(Stream(files))
  {
    var lines := [];
    for i := 0 to |files|
      invariant lines == Lines(files)[..i]
    {
      lines := lines + [Line(files[i])];
    }
    assert lines == Lines(files);
    if |lines| == 0 {
      return None;
    }
    lines := Sort(lines, BEFORE);
    var stream := "";
    assert lines[0..] == lines;
    for i := 0 to |lines|
      invariant stream + Concat(lines[i..]) == Concat(lines)
    {
      assert lines[i..][1..] == lines[i + 1..];
      Regroup(stream, lines[i], Concat(lines[i + 1..]));
      stream := stream + lines[i];
    }
    assert stream + "" == stream;
    fed := Some(stream);
  }

  // ----- the stream does not depend on the walk -----

  lemma LinesBag(files: seq<Leaf>, line: string)
    ensures line in Lines(files) <==> exists f :: f in files && Line(f) == line
  {
    if line in Lines(files) {
      var i :| 0 <= i < |files| && Lines(files)[i] == line;
      assert files[i] in files;
    }
    if exists f :: f in files && Line(f) == line {
      var f :| f in files && Line(f) == line;
      var i :| 0 <= i < |files| && files[i] == f;
      assert Lines(files)[i] == line;
    }
  }

  lemma LineIsItsFile(f: Leaf, g: Leaf)
    requires Proper(f) && Proper(g)
    ensures Line(f) == Line(g) <==> f == g
  {
    if Line(f) == Line(g) {
      LineDecodes(f, g, "", "");
    }
  }

  lemma {:induction false} LineCount(files: seq<Leaf>, f: Leaf)
    requires Proper(f) && forall g :: g in files ==> Proper(g)
    ensures multiset(Lines(files))[Line(f)] == multiset(files)[f]
  {
    if files == [] {
    } else {
      var g, rest := files[0], files[1..];
      LineCount(rest, f);
      LineIsItsFile(g, f);
      assert files == [g] + rest && Lines(files) == [Line(g)] + Lines(rest);
    }
  }

  // ----- the stream can be read back -----

  /** The first line of a stream tells its file and where the rest begins. */
  lemma LineDecodes(f: Leaf, g: Leaf, x: string, y: string)
    requires Proper(f) && Proper(g) && Line(f) + x == Line(g) + y
    ensures f == g && x == y
  {
    var s, t := Line(f) + x, Line(g) + y;
    assert forall i :: 0 <= i < |f.path| ==> s[i] == f.path[i] && s[i] != NUL;
    assert forall i :: 0 <= i < |g.path| ==> t[i] == g.path[i] && t[i] != NUL;
    assert s[|f.path|] == NUL && t[|g.path|] == NUL;
    var n := |f.path|;
    assert s[..n] == f.path && t[..n] == g.path;
    assert s[n + 1..n + 1 + HEX] == f.sum && t[n + 1..n + 1 + HEX] == g.sum;
    assert s[n + HEX + 2..] == x && t[n + HEX + 2..] == y;
  }

  ghost predicate AreLines(lines: seq<string>) {
    forall i :: 0 <= i < |lines| ==> exists f :: Proper(f) && Line(f) == lines[i]
  }

  lemma ConcatNotEmpty(lines: seq<string>)
    requires AreLines(lines) && lines != []
    ensures Concat(lines) != ""
  {
    var first := lines[0];
    assert exists f :: Proper(f) && Line(f) == first;
  }

  lemma {:induction false} ConcatDecodes(xs: seq<string>, ys: seq<string>)
    requires AreLines(xs) && AreLines(ys) && Concat(xs) == Concat(ys)
    ensures xs == ys
  {
    if xs != [] && ys != [] {
      var f :| Proper(f) && Line(f) == xs[0];
      var g :| Proper(g) && Line(g) == ys[0];
      LineDecodes(f, g, Concat(xs[1..]), Concat(ys[1..]));
      ConcatDecodes(xs[1..], ys[1..]);
      assert xs == [xs[0]] + xs[1..] && ys == [ys[0]] + ys[1..];
    } else if xs != [] {
      ConcatNotEmpty(xs);
    } else if ys != [] {
      ConcatNotEmpty(ys);
    }
  }

  lemma SortedAreLines(files: seq<Leaf>)
    requires forall f :: f in files ==> Proper(f)
    ensures AreLines(Sort(Lines(files), BEFORE))
  {
    var sorted := Sort(Lines(files), BEFORE);
    SortPermutes(Lines(files), BEFORE);
    forall i | 0 <= i < |sorted|
      ensures exists f :: Proper(f) && Line(f) == sorted[i]
    {
      assert sorted[i] in multiset(sorted);
      LinesBag(files, sorted[i]);
    }
  }

  /**
    Two walks feed the same stream exactly when they found the same files with the same
    contents, in whatever order.
  */
  lemma StreamIsTheTree(files: seq<Leaf>, others: seq<Leaf>)
    requires forall f :: f in files || f in others ==> Proper(f)
    ensures Stream(files) == Stream(others) <==> multiset(files) == multiset(others)
  {
    var xs, ys := Lines(files), Lines(others);
    SortPermutes(xs, BEFORE);
    SortPermutes(ys, BEFORE);
    if Stream(files) == Stream(others) {
      SortedAreLines(files);
      SortedAreLines(others);
      ConcatDecodes(Sort(xs, BEFORE), Sort(ys, BEFORE));
      forall f: Leaf
        ensures multiset(files)[f] == multiset(others)[f]
      {
        if Proper(f) {
          LineCount(files, f);
          LineCount(others, f);
        }
      }
      assert multiset(files) == multiset(others);
    }
    if multiset(files) == multiset(others) {
      assert forall f :: f in files <==> f in multiset(files);
      assert forall f :: f in others <==> f in multiset(others);
      forall line: string
        ensures multiset(xs)[line] == multiset(ys)[line]
      {
        LinesBag(files, line);
        LinesBag(others, line);
        if line in xs {
          var f :| f in files && Line(f) == line;
          LineCount(files, f);
          LineCount(others, f);
        }
      }
      assert multiset(xs) == multiset(ys);
      SortStringsIgnoresOrder(xs, ys);
    }
  }
}
