/** What sequences of skill syncs guarantee, and where they do not. */
module SkillHistory {
  import opened Wrappers
  import opened Manifest
  import opened Skills
  import opened SkillSync

  lemma ManifestListed(f: Folder, names: seq<string>)
    requires forall n :: n in names ==> ValidName(n)
    requires SlotOf(f, MANIFEST) == Some(Plain(ManifestText(names)))
    ensures Previous(f).Some? && forall n :: n in Previous(f).value <==> n in names
  {
    ManifestReadsBack(names);
  }

  /** The manifest, or the list of retired skills in its place, does not name `k`. */
  predicate Unlisted(f: Folder, k: string) {
    Previous(f).Some? ==> k !in Previous(f).value
  }

  // ----- one call -----

  /** A call that succeeds installs what is wanted, drops what is not, and records exactly that. */
  lemma SyncDoes(c: Catalog, before: Folder, names: seq<string>, k: string)
    requires (forall n :: n in names ==> ValidName(n)) && CanSync(c, before, names)
    ensures var after := Synced(c, before, names);
            Previous(after).Some? && (k in Previous(after).value <==> k in names) &&
            (k != MANIFEST ==>
              (SlotOf(after, k) ==
                if k in names then Some(InstalledEntry(c, before, k))
                else if k in Dropped(before, names) then None
                else SlotOf(before, k)))
  {
    ValidTrimmedAll(names);
    ManifestListed(Synced(c, before, names), names);
  }

  /** An unwanted skill is gone afterwards exactly when it was not there or the manifest listed it. */
  lemma DropsIff(c: Catalog, before: Folder, names: seq<string>, g: string)
    requires (forall n :: n in names ==> ValidName(n)) && CanSync(c, before, names)
    requires ValidName(g) && g !in names
    ensures g !in Synced(c, before, names) <==> g !in before || g in Previous(before).value
  {
    SyncDoes(c, before, names, g);
    ValidTrimmed(g);
    assert g in Synced(c, before, names) <==> SlotOf(Synced(c, before, names), g).Some?;
  }

  /** Running a call again after a failure ends where it would have ended without the failure. */
  lemma RerunEndsTheSame(c: Catalog, before: Folder, after: Folder, names: seq<string>)
    requires forall n :: n in names ==> ValidName(n)
    requires CanSync(c, before, names) && Touched(c, before, after, names)
    ensures CanSync(c, after, names) && Synced(c, after, names) == Synced(c, before, names)
  {
    ValidTrimmedAll(names);
    if SlotOf(after, MANIFEST) != SlotOf(before, MANIFEST) {
      ManifestListed(after, names);
    } else {
      assert Previous(after) == Previous(before);
    }
    var x, y := Synced(c, after, names), Synced(c, before, names);
    forall k: string
      ensures SlotOf(x, k) == SlotOf(y, k)
    {
      SyncDoes(c, before, names, k);
      SyncDoes(c, after, names, k);
      if k in names {
        RerunInstalls(c, before, after, names, k);
      } else if k in Dropped(before, names) {
        assert k in Dropped(after, names) || k !in after;
      }
    }
    SameSlots(x, y);
  }

  lemma RerunInstalls(c: Catalog, before: Folder, after: Folder, names: seq<string>, n: string)
    requires n in names && Resolvable(c, n) && Touched(c, before, after, names)
    ensures InstalledEntry(c, after, n) == InstalledEntry(c, before, n)
  {
    if n in c.embedded && SlotOf(after, n) != SlotOf(before, n) {
      assert FilesAt(after, n) + c.embedded[n] == FilesAt(before, n) + c.embedded[n];
    }
  }

  lemma SameSlots(x: Folder, y: Folder)
    requires forall k: string :: SlotOf(x, k) == SlotOf(y, k)
    ensures x == y
  {
    forall k: string
      ensures k in x <==> k in y
      ensures k in x ==> x[k] == y[k]
    {
      assert SlotOf(x, k) == SlotOf(y, k);
    }
  }

  // ----- a torn manifest -----

  /** What is there after a call whose manifest write stops half way. */
  lemma TornSlots(c: Catalog, before: Folder, after: Folder, names: seq<string>, at: nat, k: string)
    requires forall n :: n in names ==> ValidName(n)
    requires Torn(c, before, after, names, at) && k != MANIFEST
    ensures Previous(after) == Some(TornNames(names, at))
    ensures k in Dropped(before, names) ==> k !in after
    ensures k !in names && k !in Dropped(before, names) ==> SlotOf(after, k) == SlotOf(before, k)
    ensures k in names && Resolvable(c, k) ==> InstalledEntry(c, after, k) == InstalledEntry(c, before, k)
    ensures Blocked(c, after, k) && k in names ==> Blocked(c, before, k)
  {
    var whole := after[MANIFEST := Plain(ManifestText(names))];
    assert SlotOf(whole, k) == SlotOf(after, k);
    if k in names && Resolvable(c, k) {
      RerunInstalls(c, before, whole, names, k);
    }
  }

  /**
    Running a call again after a torn manifest ends where it would have ended without the
    failure, unless the cut has left a name in the manifest that obol had no business with.
  */
  lemma RerunAfterTearIff(c: Catalog, before: Folder, after: Folder, names: seq<string>, at: nat)
    requires forall n :: n in names ==> ValidName(n)
    requires CanSync(c, before, names) && Torn(c, before, after, names, at)
    ensures CanSync(c, after, names)
    ensures Synced(c, after, names) == Synced(c, before, names) <==>
            forall k :: k in TornNames(names, at) && k !in names ==> k !in before || k in Dropped(before, names)
  {
    ValidTrimmedAll(names);
    forall n | n in names
      ensures Resolvable(c, n) && !Blocked(c, after, n)
    {
      TornSlots(c, before, after, names, at, n);
    }
    TornSlots(c, before, after, names, at, "");
    var x, y := Synced(c, after, names), Synced(c, before, names);
    forall k: string
      ensures SlotOf(x, k) == SlotOf(y, k) <==>
              !(k in TornNames(names, at) && k !in names && k in before && k !in Dropped(before, names))
    {
      RerunSlot(c, before, after, names, at, k);
    }
    if forall k :: k in TornNames(names, at) && k !in names ==> k !in before || k in Dropped(before, names) {
      SameSlots(x, y);
    }
  }

  lemma RerunSlot(c: Catalog, before: Folder, after: Folder, names: seq<string>, at: nat, k: string)
    requires forall n :: n in names ==> ValidName(n)
    requires CanSync(c, before, names) && CanSync(c, after, names) && Torn(c, before, after, names, at)
    ensures SlotOf(Synced(c, after, names), k) == SlotOf(Synced(c, before, names), k) <==>
            !(k in TornNames(names, at) && k !in names && k in before && k !in Dropped(before, names))
  {
    SyncDoes(c, before, names, k);
    SyncDoes(c, after, names, k);
    if k in TornNames(names, at) {
      TornNamesAreStumps(names, at, k);
      ValidTrimmed(k);
    }
    if k != MANIFEST {
      TornSlots(c, before, after, names, at, k);
    }
  }

  /** A later call that does not want `g` removes it exactly when what is left of the manifest lists it. */
  lemma TornDropsIff(c: Catalog, before: Folder, after: Folder, names: seq<string>, at: nat, d: Catalog,
      wanted: seq<string>, g: string)
    requires (forall n :: n in names ==> ValidName(n)) && Torn(c, before, after, names, at)
    requires (forall n :: n in wanted ==> ValidName(n)) && CanSync(d, after, wanted)
    requires ValidName(g) && g !in wanted
    ensures g !in Synced(d, after, wanted) <==> g !in after || g in TornNames(names, at)
  {
    TornSlots(c, before, after, names, at, "");
    DropsIff(d, after, wanted, g);
  }

  /** A call in which nothing fails but the write of the manifest. */
  lemma TornRun(c: Catalog, before: Folder, names: seq<string>, fate: Fate)
    requires (forall n :: n in names ==> ValidName(n)) && CanSync(c, before, names)
    requires fate.opens && fate.save.Tears? && fate.budget >= |names| && fate.removals >= |Previous(before).value|
    ensures SyncRun(c, before, names, fate).0 == SyncFailed
    ensures Torn(c, before, SyncRun(c, before, names, fate).1, names, fate.save.at)
  {
    SyncSucceeds(c, before, names, fate);
    var written, gone := Installed(c, before, NameSet(names)), Dropped(before, names);
    InstalledPartly(c, before, NameSet(names), NameSet(names));
    PartlyTouched(c, before, written, gone, names);
    RecordedTouched(c, before, written - gone, names);
    var after := SyncRun(c, before, names, fate).1;
    assert after[MANIFEST := Plain(ManifestText(names))] == (written - gone)[MANIFEST := Plain(ManifestText(names))];
    NotListedAsManifest(before, names);
  }

  /**
    The failing run: somebody's directory bears a name that a wanted skill's name begins with.
    The manifest write stops behind these letters, and the same call, run again, removes it.
  */
  lemma TornManifestDeletes(c: Catalog, before: Folder, names: seq<string>, n: string, q: nat)
      returns (fate: Fate, again: Fate)
    requires (forall k :: k in names ==> ValidName(k)) && CanSync(c, before, names)
    requires n in names && 0 < q < |n| && n[..q] !in names
    requires n[..q] in before && Unlisted(before, n[..q])
    ensures var (outcome, after) := SyncRun(c, before, names, fate);
            outcome == SyncFailed && n[..q] in after &&
            again.save.Saves? && SyncRun(c, after, names, again).0 == SyncedAll &&
            n[..q] !in SyncRun(c, after, names, again).1
  {
    var at := TornInsideName(names, n, q);
    fate := Fate(true, |names|, None, 0, None, |Previous(before).value|, Tears(at));
    TornRun(c, before, names, fate);
    var after := SyncRun(c, before, names, fate).1;
    TornDeletes(c, before, after, names, at, n[..q]);
    again := Fate(true, |names|, None, 0, None, |Previous(after).value|, Saves);
    SyncSucceeds(c, after, names, again);
  }

  /** What the second call meets in that run. */
  lemma TornDeletes(c: Catalog, before: Folder, after: Folder, names: seq<string>, at: nat, k: string)
    requires (forall n :: n in names ==> ValidName(n)) && CanSync(c, before, names)
    requires Torn(c, before, after, names, at) && k in TornNames(names, at) && k !in names
    requires k in before && Unlisted(before, k)
    ensures CanSync(c, after, names) && k in after && k !in Synced(c, after, names)
  {
    TornNamesAreStumps(names, at, k);
    ValidTrimmed(k);
    TornSlots(c, before, after, names, at, k);
    RerunAfterTearIff(c, before, after, names, at);
    TornDropsIff(c, before, after, names, at, c, names, k);
  }

  // ----- many calls -----

  datatype Ending = Succeeded | Stopped | StoppedTorn(at: nat)

  /** One call of Sync, with the catalog it met, and how it ended. */
  datatype Call = Call(c: Catalog, names: seq<string>, ending: Ending, after: Folder)

  ghost predicate Happened(before: Folder, x: Call) {
    (forall n :: n in x.names ==> ValidName(n)) &&
    match x.ending
    case Succeeded => CanSync(x.c, before, x.names) && x.after == Synced(x.c, before, x.names)
    case Stopped => Touched(x.c, before, x.after, x.names)
    case StoppedTorn(at) => Torn(x.c, before, x.after, x.names, at)
  }

  ghost predicate AllHappened(before: Folder, calls: seq<Call>)
    decreases |calls|
  {
    calls == [] || (Happened(before, calls[0]) && AllHappened(calls[0].after, calls[1..]))
  }

  function Last(before: Folder, calls: seq<Call>): Folder
    decreases |calls|
  {
    if calls == [] then before else Last(calls[0].after, calls[1..])
  }

  /** If `g` is there, the manifest lists it. */
  ghost predicate Tracked(f: Folder, g: string) {
    MANIFEST in f && Previous(f).Some? && (g in f ==> g in Previous(f).value)
  }

  /** A failed call can leave a skill installed that its manifest does not list. */
  ghost predicate Forgetful(before: Folder, x: Call, g: string) {
    match x.ending
    case Succeeded => false
    case Stopped =>
      g in x.names && g !in before && g in x.after && SlotOf(x.after, MANIFEST) == SlotOf(before, MANIFEST)
    case StoppedTorn(at) => g in x.after && g !in TornNames(x.names, at)
  }

  lemma CallKeepsTracked(before: Folder, x: Call, g: string)
    requires Happened(before, x) && Tracked(before, g) && ValidName(g) && !Forgetful(before, x, g)
    ensures Tracked(x.after, g)
  {
    ValidTrimmed(g);
    match x.ending
    case Succeeded =>
      ManifestListed(x.after, x.names);
      SyncDoes(x.c, before, x.names, g);
      assert g in x.after <==> SlotOf(x.after, g).Some?;
    case Stopped =>
      if SlotOf(x.after, MANIFEST) != SlotOf(before, MANIFEST) {
        ManifestListed(x.after, x.names);
      } else {
        assert SlotOf(x.after, MANIFEST).Some? && Previous(x.after) == Previous(before);
        assert g in x.after <==> SlotOf(x.after, g).Some?;
      }
    case StoppedTorn(at) =>
      TornSlots(x.c, before, x.after, x.names, at, g);
      assert SlotOf(x.after, MANIFEST).Some?;
  }

  ghost predicate NoneForgetful(before: Folder, calls: seq<Call>, g: string)
    decreases |calls|
  {
    calls == [] || (!Forgetful(before, calls[0], g) && NoneForgetful(calls[0].after, calls[1..], g))
  }

  lemma {:induction false} CallsKeepTracked(before: Folder, calls: seq<Call>, g: string)
    requires AllHappened(before, calls) && Tracked(before, g) && ValidName(g) && NoneForgetful(before, calls, g)
    ensures Tracked(Last(before, calls), g)
    decreases |calls|
  {
    if calls == [] {
    } else {
      CallKeepsTracked(before, calls[0], g);
      CallsKeepTracked(calls[0].after, calls[1..], g);
    }
  }

  /** What a successful call installed, a later successful call that does not want it removes. */
  lemma InstalledThenDropped(before: Folder, first: Call, between: seq<Call>, last: Call, g: string)
    requires Happened(before, first) && first.ending.Succeeded? && g in first.names
    requires AllHappened(first.after, between) && NoneForgetful(first.after, between, g)
    requires Happened(Last(first.after, between), last) && last.ending.Succeeded? && g !in last.names
    ensures g !in last.after
  {
    ManifestListed(first.after, first.names);
    CallsKeepTracked(first.after, between, g);
    DropsIff(last.c, Last(first.after, between), last.names, g);
  }

  /**
    Without that proviso it can stay. A call that wants `g` stops at its first removal, or at
    the manifest, and leaves `g` installed and unlisted; the next call, which does not want it,
    succeeds and misses it.
  */
  lemma ForgottenInstallStays(c: Catalog, before: Folder, listed: seq<string>, g: string) returns (again: Fate)
    requires ValidName(g) && g in c.embedded && g !in before && g !in listed
    requires (forall n :: n in listed ==> ValidName(n)) && CanSync(c, before, listed)
    requires SlotOf(before, MANIFEST) == Some(Plain(ManifestText(listed)))
    ensures var after := before[g := Dir(c.embedded[g])];
            SyncRun(c, before, [g], Fate(true, 1, None, 0, None, 0, NotSaved)) == (SyncFailed, after) &&
            SyncRun(c, after, listed, again).0 == SyncedAll && g in SyncRun(c, after, listed, again).1
  {
    var after := before[g := Dir(c.embedded[g])];
    ValidTrimmed(g);
    ManifestListed(before, listed);
    StoppedInstall(c, before, g);
    assert SlotOf(after, MANIFEST) == SlotOf(before, MANIFEST);
    assert Previous(after) == Previous(before);
    DropsIff(c, after, listed, g);
    again := Fate(true, |listed|, None, 0, None, |Previous(after).value|, Saves);
    SyncSucceeds(c, after, listed, again);
  }

  lemma StoppedInstall(c: Catalog, before: Folder, g: string)
    requires ValidName(g) && g in c.embedded && g !in before && Previous(before).Some?
    requires forall n :: n in Previous(before).value ==> ValidName(n) && n != g
    ensures SyncRun(c, before, [g], Fate(true, 1, None, 0, None, 0, NotSaved)) ==
            (SyncFailed, before[g := Dir(c.embedded[g])])
  {
    var written := before[g := Dir(c.embedded[g])];
    var fate := Fate(true, 1, None, 0, None, 0, NotSaved);
    WroteAll(c, before, [g], 1, None);
    WroteDoes(c, before, [g], 1, None);
    assert map[] + c.embedded[g] == c.embedded[g];
    assert Installed(c, before, NameSet([g])) == written;
    assert WroteOrKept(c, before, [g], fate) == (SyncedAll, written);
    var previous := Previous(before).value;
    if previous != [] {
      assert previous[0] in previous;
    }
  }

  // ----- directories that are not obol's -----

  /** After a call that does not want `k`, what is there is as before; only a tear can list it. */
  lemma CallSparesForeign(before: Folder, x: Call, k: string)
    requires Happened(before, x) && k != MANIFEST && Unlisted(before, k) && k !in x.names
    ensures SlotOf(x.after, k) == SlotOf(before, k)
    ensures Unlisted(x.after, k) <==> (x.ending.StoppedTorn? ==> k !in TornNames(x.names, x.ending.at))
  {
    match x.ending
    case Succeeded =>
      SyncDoes(x.c, before, x.names, k);
    case Stopped =>
      if SlotOf(x.after, MANIFEST) != SlotOf(before, MANIFEST) {
        ManifestListed(x.after, x.names);
      } else {
        assert Previous(x.after) == Previous(before);
      }
    case StoppedTorn(at) =>
      TornSlots(x.c, before, x.after, x.names, at, k);
  }

  /** The call wants `k` or a skill whose name begins with it. */
  predicate Near(x: Call, k: string) {
    exists n :: n in x.names && (n == k || Stump(k, n))
  }

  lemma NearCallSparesForeign(before: Folder, x: Call, k: string)
    requires Happened(before, x) && k != MANIFEST && Unlisted(before, k)
    requires !Near(x, k)
    ensures SlotOf(x.after, k) == SlotOf(before, k) && Unlisted(x.after, k)
  {
    if x.ending.StoppedTorn? && k in TornNames(x.names, x.ending.at) {
      TornNamesAreStumps(x.names, x.ending.at, k);
    }
    CallSparesForeign(before, x, k);
  }

  /**
    What is in the directory under a name that is not listed is untouched by any calls, failing
    ones and torn manifests included, that want neither it nor a name beginning with it. Where a
    wanted name begins with it, a torn manifest can make the next call remove it
    (TornManifestDeletes).
  */
  lemma {:induction false} ForeignUntouched(before: Folder, calls: seq<Call>, k: string)
    requires AllHappened(before, calls) && k != MANIFEST && Unlisted(before, k)
    requires forall x :: x in calls ==> !Near(x, k)
    ensures SlotOf(Last(before, calls), k) == SlotOf(before, k) && Unlisted(Last(before, calls), k)
    decreases |calls|
  {
    if calls == [] {
    } else {
      NearCallSparesForeign(before, calls[0], k);
      ForeignUntouched(calls[0].after, calls[1..], k);
    }
  }
}
