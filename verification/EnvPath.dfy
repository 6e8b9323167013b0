/** What the scripts of `obol env` do to PATH in a POSIX shell (cmd/obol/passthrough.go). */
module EnvPath {
  import opened Text

  predicate At(s: string, i: int, part: string) {
    0 <= i <= |s| - |part| && s[i..i + |part|] == part
  }

  /** `part` occurs in `s`: what the pattern *part* of a case tests. */
  ghost predicate Contains(s: string, part: string) {
    exists i :: At(s, i, part)
  }

  function Colons(s: string): string {
    [':'] + s + [':']
  }

  /** The guard of the export script. */
  ghost predicate Guard(path: string, dir: string) {
    Contains(Colons(path), Colons(dir))
  }

  ghost function Exported(path: string, dir: string): string {
    if Guard(path, dir) then path else dir + [':'] + path
  }

  /** slices.DeleteFunc over the components. */
  function Kept(pieces: seq<string>, dir: string): seq<string> {
    if pieces == [] then []
    else if pieces[0] == dir then Kept(pieces[1..], dir)
    else [pieces[0]] + Kept(pieces[1..], dir)
  }

  /** The PATH the unset script sets. */
  function Unset(path: string, dir: string): string {
    Join(Kept(Split(path, ':'), dir), ':')
  }

  lemma GuardFirst(path: string, p: string, r: string)
    requires path == p + [':'] + r || (path == p && r == "")
    ensures Guard(path, p)
  {
    var s := Colons(path);
    assert At(s, 0, Colons(p));
  }

  lemma GuardTail(path: string, p: string, r: string, dir: string)
    requires path == p + [':'] + r && Guard(r, dir)
    ensures Guard(path, dir)
  {
    var s, t, part := Colons(path), Colons(r), Colons(dir);
    var i :| At(t, i, part);
    var j := i + |p| + 1;
    assert s == [':'] + p + t;
    assert s[j..] == t[i..];
    assert At(s, j, part);
  }

  lemma Occurrence(s: string, i: int, dir: string)
    requires At(s, i, Colons(dir))
    ensures s[i] == ':' && s[i + |dir| + 1] == ':' && s[i + 1..i + |dir| + 1] == dir
  {
    var part := Colons(dir);
    assert s[i..i + |part|][0] == part[0] && s[i..i + |part|][|dir| + 1] == part[|dir| + 1];
    assert part[1..|dir| + 1] == dir;
    assert s[i + 1..i + |dir| + 1] == s[i..i + |part|][1..|dir| + 1];
  }

  lemma AtStart(s: string, p: string, t: string, dir: string)
    requires s == [':'] + p + t && t != "" && t[0] == ':' && ':' !in p && ':' !in dir && At(s, 0, Colons(dir))
    ensures dir == p
  {
    Occurrence(s, 0, dir);
    assert forall j :: 1 <= j <= |p| ==> s[j] == p[j - 1] && s[j] != ':';
    assert forall j :: 1 <= j <= |dir| ==> s[j] == dir[j - 1] && s[j] != ':';
    assert s[|p| + 1] == ':' && s[|dir| + 1] == ':';
    assert |dir| == |p|;
    assert s[1..|p| + 1] == p;
  }

  lemma AtLater(s: string, p: string, t: string, i: int, dir: string)
    requires s == [':'] + p + t && ':' !in p && i > 0 && At(s, i, Colons(dir))
    ensures Contains(t, Colons(dir))
  {
    Occurrence(s, i, dir);
    assert forall j :: 1 <= j <= |p| ==> s[j] == p[j - 1] && s[j] != ':';
    var k := i - |p| - 1;
    assert s[i..] == t[k..];
    assert At(t, k, Colons(dir));
  }

  /** An occurrence starts at the first component or lies in what follows it. */
  lemma GuardSplits(path: string, p: string, r: string, dir: string)
    requires path == p + [':'] + r && ':' !in p && ':' !in dir && Guard(path, dir)
    ensures dir == p || Guard(r, dir)
  {
    var s, t := Colons(path), Colons(r);
    assert s == [':'] + p + t;
    var i :| At(s, i, Colons(dir));
    if i == 0 {
      AtStart(s, p, t, dir);
    } else {
      AtLater(s, p, t, i, dir);
    }
  }

  lemma GuardSingle(path: string, dir: string)
    requires ':' !in path && ':' !in dir && Guard(path, dir)
    ensures dir == path
  {
    var s := Colons(path);
    var i :| At(s, i, Colons(dir));
    assert s == [':'] + path + [':'] && |Colons(dir)| >= 2;
    if i == 0 {
      AtStart(s, path, [':'], dir);
    } else {
      AtLater(s, path, [':'], i, dir);
    }
  }

  /** The guard holds exactly when the directory is a component of PATH. */
  lemma {:induction false} GuardIff(path: string, dir: string)
    requires ':' !in dir
    ensures Guard(path, dir) <==> dir in Split(path, ':')
    decreases |path|
  {
    match Cut(path, ':')
    case None =>
      SplitCut(path, "", ':');
      if Guard(path, dir) {
        GuardSingle(path, dir);
      }
      if dir == path {
        GuardFirst(path, path, "");
      }
    case Some((p, r)) =>
      SplitCut(p, r, ':');
      GuardIff(r, dir);
      if Guard(path, dir) {
        GuardSplits(path, p, r, dir);
      }
      if dir == p {
        GuardFirst(path, p, r);
      } else if dir in Split(r, ':') {
        GuardTail(path, p, r, dir);
      }
  }

  /** Exporting twice is exporting once, and the directory is then a component. */
  lemma ExportTwice(path: string, dir: string)
    requires ':' !in dir
    ensures dir in Split(Exported(path, dir), ':')
    ensures Exported(Exported(path, dir), dir) == Exported(path, dir)
  {
    GuardIff(path, dir);
    SplitCut(dir, path, ':');
    GuardIff(Exported(path, dir), dir);
  }

  /** A directory that is no component yet goes in front of all others; any other PATH stays as it is. */
  lemma ExportPrepends(path: string, dir: string)
    requires ':' !in dir
    ensures dir !in Split(path, ':') ==> Split(Exported(path, dir), ':') == [dir] + Split(path, ':')
    ensures dir in Split(path, ':') ==> Exported(path, dir) == path
  {
    GuardIff(path, dir);
    SplitCut(dir, path, ':');
  }

  lemma {:induction false} KeptAre(pieces: seq<string>, dir: string)
    ensures dir !in Kept(pieces, dir)
    ensures forall p :: p in Kept(pieces, dir) <==> p in pieces && p != dir
    ensures dir !in pieces ==> Kept(pieces, dir) == pieces
  {
    if pieces == [] {
    } else {
      KeptAre(pieces[1..], dir);
      assert pieces == [pieces[0]] + pieces[1..];
    }
  }

  /** Unset gives PATH without that directory, all other components in their order. */
  lemma UnsetRemoves(path: string, dir: string)
    requires ':' !in dir
    ensures var kept := Kept(Split(path, ':'), dir);
            Split(Unset(path, dir), ':') == if kept == [] then [""] else kept
  {
    var pieces := Split(path, ':');
    SplitPieces(path, ':');
    KeptAre(pieces, dir);
    if Kept(pieces, dir) != [] {
      SplitJoin(Kept(pieces, dir), ':');
    }
  }

  /** Unset undoes export. */
  lemma UnsetUndoesExport(path: string, dir: string)
    requires ':' !in dir
    ensures Unset(Exported(path, dir), dir) == Unset(path, dir)
    ensures dir !in Split(path, ':') ==> Unset(Exported(path, dir), dir) == path
  {
    GuardIff(path, dir);
    SplitCut(dir, path, ':');
    KeptAre(Split(path, ':'), dir);
    JoinSplit(path, ':');
    if !Guard(path, dir) {
      assert ([dir] + Split(path, ':'))[1..] == Split(path, ':');
    }
  }
}
