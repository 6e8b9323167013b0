/**
  Exact skill sync of a sub-agent (internal/agentcrd/agent.go): the new directory is built
  beside the old one and swapped in by renames, with a rollback.
*/
module ExactSync {
  import opened Wrappers
  import opened Skills

  /** What is at a path: nothing, a symbolic link, or a directory. */
  datatype Node = Absent | Linked | Present(folder: Folder)

  /** Subdirectories nobody asked for. */
  function StaleDirs(f: Folder, names: seq<string>): set<string> {
    set k | k in f && f[k].Dir? && k !in names
  }

  /** The directory the sync is to leave. */
  function Exact(c: Catalog, f: Folder, names: seq<string>): Folder
    requires CanWrite(c, f, names)
  {
    Installed(c, f - StaleDirs(f, names), NameSet(names))
  }

  function FolderAt(n: Node): Folder {
    if n.Present? then n.folder else map[]
  }

  /** Where a sync meets I/O errors; the rename of the rollback succeeds. */
  datatype Fate = Fate(
    stages: bool,                       // the staging copy can be made
    removals: nat,                      // stale directories removed before one fails
    budget: nat, junk: Option<Files>,   // the write of the skills
    clears: bool,                       // an old backup can be removed
    movesAway: bool, activates: bool,   // the two renames
    cleans: bool)                       // the backup can be removed afterwards

  /** removeStaleSkillDirs, in the order the directory is listed in. */
  method RemoveStaleDirs(staged: Folder, names: seq<string>, removals: nat) returns (ok: bool, out: Folder)
    ensures ok ==> out == staged - StaleDirs(staged, names)
    ensures ok <==> removals >= |StaleDirs(staged, names)|
  {
    out := staged;
    ghost var stale, gone: set<string> := StaleDirs(staged, names), {};
    var todo := staged.Keys;
    var removed := 0;
    while todo != {}
      invariant todo <= staged.Keys
      invariant forall k :: k in gone <==> k in stale && k !in todo
      invariant out == staged - gone
      invariant removed == |gone| <= removals
      decreases todo
    {
      var k :| k in todo;
      todo := todo - {k};
      if staged[k].Dir? && k !in names {
        if removed == removals {
          Smaller(gone, stale, k);
          return false, out;
        }
        out := out - {k};
        gone := gone + {k};
        removed := removed + 1;
      }
    }
    assert gone == stale;
    ok := true;
  }

  lemma {:induction false} Smaller(a: set<string>, b: set<string>, k: string)
    requires a <= b && k in b && k !in a
    ensures |a| < |b|
    decreases |a|
  {
    if a == {} {
    } else {
      var x :| x in a;
      Smaller(a - {x}, b - {x}, k);
    }
  }

  /** Nothing stands in the way of a sync: no link, no unwritable name, and no I/O error where it matters. */
  predicate Succeeds(c: Catalog, live: Node, backup: Node, names: seq<string>, fate: Fate) {
    !live.Linked? && fate.stages && fate.removals >= |StaleDirs(FolderAt(live), names)| &&
    CanWrite(c, FolderAt(live), names) && fate.budget >= |names| && fate.activates &&
    (live.Present? ==> (backup == Absent || fate.clears) && fate.movesAway && fate.cleans)
  }

  /** Then the new directory is in place, whether or not the backup can be removed afterwards. */
  predicate Swaps(c: Catalog, live: Node, backup: Node, names: seq<string>, fate: Fate) {
    Succeeds(c, live, backup, names, fate.(cleans := true))
  }

  class Home {
    var live: Node
    var backup: Node

    constructor (live: Node, backup: Node)
      ensures this.live == live && this.backup == backup
    {
      this.live, this.backup := live, backup;
    }

    /**
      syncHostSkillsExact: whatever fails, the directory is wholly the old or wholly the new one;
      success means the new one, and a symbolic link is never replaced.
    */
    method Sync(c: Catalog, names: seq<string>, fate: Fate) returns (ok: bool)
      modifies this
      ensures live == old(live) || (CanWrite(c, FolderAt(old(live)), names) &&
              live == Present(Exact(c, FolderAt(old(live)), names)))
      ensures ok ==> CanWrite(c, FolderAt(old(live)), names) && live == Present(Exact(c, FolderAt(old(live)), names))
      ensures ok && old(live).Present? ==> backup == Absent
      ensures old(live).Linked? ==> !ok && live == Linked
      ensures ok <==> Succeeds(c, old(live), old(backup), names, fate)
      ensures live ==
                      if Swaps(c, old(live), old(backup), names, fate)
                      then Present(Exact(c, FolderAt(old(live)), names))
                      else old(live)
    {
      if live.Linked? || !fate.stages {
        return false;
      }
      var start := FolderAt(live);
      var staged := start;
      var okStale, trimmed := RemoveStaleDirs(staged, names, fate.removals);
      if !okStale {
        return false;
      }
      staged := trimmed;
      if names != [] {
        var okWrite, written := WriteSkills(c, staged, names, fate.budget, fate.junk);
        if !okWrite {
          return false;
        }
        staged := written;
      }
      TrimmedBlocks(c, start, names);
      assert staged == Exact(c, start, names);
      if fate.clears {
        backup := Absent;
      }
      var movedExisting := false;
      if live.Present? {
        if !fate.movesAway || backup != Absent {
          return false;
        }
        live, backup := Absent, live;
        movedExisting := true;
      }
      if !fate.activates {
        if movedExisting {
          live, backup := backup, Absent;
        }
        return false;
      }
      live := Present(staged);
      if movedExisting {
        if !fate.cleans {
          return false;
        }
        backup := Absent;
      }
      ok := true;
    }
  }

  lemma TrimmedBlocks(c: Catalog, f: Folder, names: seq<string>)
    ensures CanWrite(c, f - StaleDirs(f, names), names) <==> CanWrite(c, f, names)
    ensures names == [] ==> CanWrite(c, f, names) && Exact(c, f, names) == f - StaleDirs(f, names)
  {
    forall n | n in names
      ensures Blocked(c, f - StaleDirs(f, names), n) <==> Blocked(c, f, n)
    {
    }
  }

  /** The new directory has exactly the requested subdirectories, with the requested contents. */
  lemma ExactDirectories(c: Catalog, f: Folder, names: seq<string>, k: string)
    requires CanWrite(c, f, names)
    ensures k in Exact(c, f, names) && Exact(c, f, names)[k].Dir? <==> k in names
    ensures k in names ==> SlotOf(Exact(c, f, names), k) == Some(InstalledEntry(c, f, k))
  {
    if k in names {
      assert FilesAt(f - StaleDirs(f, names), k) == FilesAt(f, k);
    }
  }

  /** An earlier plain file is still there, unless a requested skill from the release has its name. */
  lemma PlainFileKeptIff(c: Catalog, f: Folder, names: seq<string>, k: string)
    requires CanWrite(c, f, names) && k in f && f[k].Plain?
    ensures SlotOf(Exact(c, f, names), k) == SlotOf(f, k) <==> k !in names
  {
    if k in names {
      ExactDirectories(c, f, names, k);
    }
  }

  /** A second exact sync changes nothing. */
  lemma ExactTwice(c: Catalog, f: Folder, names: seq<string>)
    requires CanWrite(c, f, names)
    ensures CanWrite(c, Exact(c, f, names), names) && Exact(c, Exact(c, f, names), names) == Exact(c, f, names)
  {
    var once := Exact(c, f, names);
    forall k
      ensures k in once && once[k].Dir? <==> k in names
    {
      ExactDirectories(c, f, names, k);
    }
    assert StaleDirs(once, names) == {};
    forall n | n in names
      ensures InstalledEntry(c, once, n) == once[n]
    {
      if n in c.embedded {
        assert FilesAt(f, n) + c.embedded[n] + c.embedded[n] == FilesAt(f, n) + c.embedded[n];
        ExactDirectories(c, f, names, n);
      }
    }
  }
}
