/**
  Bringing a skills directory in line with the wanted set (internal/agentskills/install.go):
  write what is wanted, remove what the manifest lists and nobody wants, record the new set.
*/
module SkillSync {
  import opened Wrappers
  import opened Manifest
  import opened Skills

  const RETIRED := ["addresses", "bridging", "building-blocks", "concepts", "gas", "indexing",
                    "l2s", "standards", "wallets", "why", "distributed-validators", "monetize-guide",
                    "autoresearch", "autoresearch-coordinator", "autoresearch-worker"]

  /** readManifest: no manifest yet means the skills older versions installed. */
  function Previous(f: Folder): Option<seq<string>> {
    if MANIFEST !in f then Some(RETIRED)
    else if f[MANIFEST].Dir? then None
    else Some(ReadNames(f[MANIFEST].text))
  }

  /** What a call removes: listed before, not wanted now, and a proper skill name. */
  function Dropped(before: Folder, names: seq<string>): set<string> {
    match Previous(before)
    case None => {}
    case Some(listed) => set n | n in listed && n !in names && ValidName(n)
  }

  predicate CanSync(c: Catalog, before: Folder, names: seq<string>) {
    Previous(before).Some? && CanWrite(c, before, names)
  }

  /** The directory after a call that succeeds. */
  function Synced(c: Catalog, before: Folder, names: seq<string>): Folder
    requires CanSync(c, before, names)
  {
    (Installed(c, before, NameSet(names)) - Dropped(before, names))[MANIFEST := Plain(ManifestText(names))]
  }

  /** How any call may leave the directory, short of tearing the manifest. */
  ghost predicate Touched(c: Catalog, before: Folder, after: Folder, names: seq<string>) {
    (forall k :: k !in names && k !in Dropped(before, names) && k != MANIFEST ==>
      SlotOf(after, k) == SlotOf(before, k)) &&
    (forall k :: k in Dropped(before, names) ==> k !in after || SlotOf(after, k) == SlotOf(before, k)) &&
    (forall n :: n in names && n in c.embedded ==>
      SlotOf(after, n) == SlotOf(before, n) ||
      (!Blocked(c, before, n) && n in after && after[n].Dir? &&
       OnlyOwn(FilesAt(before, n), after[n].files, c.embedded[n]))) &&
    (SlotOf(after, MANIFEST) == SlotOf(before, MANIFEST) ||
     (SlotOf(after, MANIFEST) == Some(Plain(ManifestText(names))) &&
      forall k :: k in Dropped(before, names) ==> k !in after))
  }

  /**
    The directory after a call whose manifest write stops after `at` characters: as if it had
    been written whole, but for the text of the manifest.
  */
  ghost predicate Torn(c: Catalog, before: Folder, after: Folder, names: seq<string>, at: nat) {
    Touched(c, before, after[MANIFEST := Plain(ManifestText(names))], names) &&
    (forall k :: k in Dropped(before, names) ==> k !in after) &&
    SlotOf(after, MANIFEST) == Some(Plain(Cropped(ManifestText(names), at)))
  }

  datatype Save = Saves | NotSaved | Tears(at: nat)

  /** Where a call meets I/O errors. */
  datatype Fate = Fate(
    opens: bool,                             // the directory can be made
    budget: nat, junk: Option<Files>,        // the first write
    budget2: nat, junk2: Option<Files>,      // the write of the built-in skills alone
    removals: nat,                           // removals before one fails
    save: Save)

  datatype SyncOutcome = SyncedAll | Partial | SyncFailed

  /** Write, and when that fails the built-in skills alone, so that a missing release does no harm. */
  function WroteOrKept(c: Catalog, dst: Folder, names: seq<string>, fate: Fate): (SyncOutcome, Folder) {
    PartsOf(c, names);
    var (ok, out) := Wrote(c, dst, names, fate.budget, fate.junk);
    if ok then (SyncedAll, out)
    else if OptIn(c, names) == [] then (SyncFailed, out)
    else
      var (ok2, out2) := WroteInOrder(c, out, BuiltIn(c, names), fate.budget2, fate.junk2);
      (if ok2 then Partial else SyncFailed, out2)
  }

  /** Removing the skills of `previous` that are no longer wanted; a removal fails after `removals` of them. */
  function RemovedStale(dst: Folder, previous: seq<string>, names: seq<string>, removals: nat): (bool, Folder)
    decreases |previous|
  {
    if previous == [] then (true, dst)
    else if previous[0] in names || !ValidName(previous[0]) then RemovedStale(dst, previous[1..], names, removals)
    else if removals == 0 then (false, dst)
    else RemovedStale(dst - {previous[0]}, previous[1..], names, removals - 1)
  }

  /** The manifest is written last. */
  function Recorded(trimmed: Folder, names: seq<string>, outcome: SyncOutcome, save: Save): (SyncOutcome, Folder) {
    match save
    case NotSaved => (SyncFailed, trimmed)
    case Tears(at) => (SyncFailed, trimmed[MANIFEST := Plain(Cropped(ManifestText(names), at))])
    case Saves => (outcome, trimmed[MANIFEST := Plain(ManifestText(names))])
  }

  function CleanedUp(written: Folder, previous: seq<string>, names: seq<string>, outcome: SyncOutcome,
      fate: Fate): (SyncOutcome, Folder) {
    var (removedAll, trimmed) := RemovedStale(written, previous, names, fate.removals);
    if removedAll then Recorded(trimmed, names, outcome, fate.save) else (SyncFailed, trimmed)
  }

  function SyncRun(c: Catalog, before: Folder, names: seq<string>, fate: Fate): (SyncOutcome, Folder) {
    if !fate.opens || Previous(before).None? then (SyncFailed, before)
    else
      var (outcome, written) := WroteOrKept(c, before, names, fate);
      if outcome.SyncFailed? then (SyncFailed, written)
      else CleanedUp(written, Previous(before).value, names, outcome, fate)
  }

  // ----- one call -----

  lemma PartlyThen(c: Catalog, a: Folder, b: Folder, d: Folder, names: set<string>, some: set<string>)
    requires some <= names && PartlyWritten(c, a, b, names) && PartlyWritten(c, b, d, some)
    ensures PartlyWritten(c, a, d, names)
  {
  }

  lemma PartlyTouched(c: Catalog, before: Folder, written: Folder, gone: set<string>, names: seq<string>)
    requires forall n :: n in names ==> ValidName(n)
    requires PartlyWritten(c, before, written, NameSet(names)) && gone <= Dropped(before, names)
    ensures Touched(c, before, written - gone, names)
  {
    ValidTrimmedAll(names);
    DroppedAreNames(before, names);
    assert SlotOf(written - gone, MANIFEST) == SlotOf(before, MANIFEST);
  }

  lemma DroppedAreNames(before: Folder, names: seq<string>)
    ensures forall n :: n in Dropped(before, names) ==> n != MANIFEST && n !in names
  {
    forall n | n in Dropped(before, names)
      ensures n != MANIFEST && n !in names
    {
      ValidTrimmed(n);
    }
  }

  /** With the stale skills gone, the manifest can be written. */
  lemma RecordedTouched(c: Catalog, before: Folder, trimmed: Folder, names: seq<string>)
    requires forall n :: n in names ==> ValidName(n)
    requires Touched(c, before, trimmed, names) && forall k :: k in Dropped(before, names) ==> k !in trimmed
    ensures Touched(c, before, trimmed[MANIFEST := Plain(ManifestText(names))], names)
  {
    ValidTrimmedAll(names);
    DroppedAreNames(before, names);
  }

  lemma ValidTrimmedAll(names: seq<string>)
    requires forall n :: n in names ==> ValidName(n)
    ensures MANIFEST !in names
  {
    if MANIFEST in names {
      ValidTrimmed(MANIFEST);
    }
  }

  function Unwanted(previous: seq<string>, names: seq<string>): set<string> {
    set n | n in previous && n !in names && ValidName(n)
  }

  lemma {:induction false} RemovedStaleDoes(dst: Folder, previous: seq<string>, names: seq<string>, removals: nat)
      returns (gone: set<string>)
    ensures var (ok, out) := RemovedStale(dst, previous, names, removals);
            out == dst - gone && gone <= Unwanted(previous, names) && (ok ==> gone == Unwanted(previous, names))
    ensures removals >= |previous| ==> RemovedStale(dst, previous, names, removals).0
    decreases |previous|
  {
    gone := {};
    if previous == [] {
      return;
    }
    assert previous == [previous[0]] + previous[1..];
    if previous[0] in names || !ValidName(previous[0]) {
      gone := RemovedStaleDoes(dst, previous[1..], names, removals);
    } else if removals > 0 {
      var more := RemovedStaleDoes(dst - {previous[0]}, previous[1..], names, removals - 1);
      gone := {previous[0]} + more;
      assert dst - {previous[0]} - more == dst - gone;
    }
  }

  lemma SecondWrite(c: Catalog, dst: Folder, out: Folder, names: seq<string>, builtIn: seq<string>, budget: nat,
    junk: Option<Files>)
    requires PartlyWritten(c, dst, out, NameSet(names)) && AllResolvable(c, builtIn) &&
             NameSet(builtIn) <= NameSet(names)
    ensures PartlyWritten(c, dst, WroteInOrder(c, out, builtIn, budget, junk).1, NameSet(names))
  {
    WroteInOrderDoes(c, out, {}, builtIn, budget, junk);
    assert Installed(c, out, {}) == out;
    assert {} + NameSet(builtIn) == NameSet(builtIn);
    var (ok2, out2) := WroteInOrder(c, out, builtIn, budget, junk);
    if ok2 {
      InstalledPartly(c, out, NameSet(builtIn), NameSet(builtIn));
    }
    PartlyThen(c, dst, out, out2, NameSet(names), NameSet(builtIn));
  }

  lemma WroteOrKeptDoes(c: Catalog, dst: Folder, names: seq<string>, fate: Fate)
    ensures var (outcome, out) := WroteOrKept(c, dst, names, fate);
            PartlyWritten(c, dst, out, NameSet(names)) &&
            (outcome.SyncedAll? ==> CanWrite(c, dst, names) && out == Installed(c, dst, NameSet(names)))
  {
    PartsOf(c, names);
    WroteDoes(c, dst, names, fate.budget, fate.junk);
    var (ok, out) := Wrote(c, dst, names, fate.budget, fate.junk);
    if ok {
      InstalledPartly(c, dst, NameSet(names), NameSet(names));
    } else {
      SecondWrite(c, dst, out, names, BuiltIn(c, names), fate.budget2, fate.junk2);
    }
  }

  /** A call may stop with any outcome but a torn manifest, or with that. */
  ghost predicate Ends(c: Catalog, before: Folder, names: seq<string>, outcome: SyncOutcome, after: Folder,
      save: Save) {
    Touched(c, before, after, names) || (outcome.SyncFailed? && save.Tears? && Torn(c, before, after, names, save.at))
  }

  lemma RecordedEnds(c: Catalog, before: Folder, trimmed: Folder, names: seq<string>, outcome: SyncOutcome, save: Save)
    requires forall n :: n in names ==> ValidName(n)
    requires Touched(c, before, trimmed, names) && forall k :: k in Dropped(before, names) ==> k !in trimmed
    ensures var (o, after) := Recorded(trimmed, names, outcome, save); Ends(c, before, names, o, after, save)
  {
    RecordedTouched(c, before, trimmed, names);
    if save.Tears? {
      var torn := trimmed[MANIFEST := Plain(Cropped(ManifestText(names), save.at))];
      assert torn[MANIFEST := Plain(ManifestText(names))] == trimmed[MANIFEST := Plain(ManifestText(names))];
      NotListedAsManifest(before, names);
    }
  }

  lemma CleanedUpEnds(c: Catalog, before: Folder, written: Folder, names: seq<string>, outcome: SyncOutcome, fate: Fate)
    requires forall n :: n in names ==> ValidName(n)
    requires Previous(before).Some? && PartlyWritten(c, before, written, NameSet(names))
    ensures var (o, after) := CleanedUp(written, Previous(before).value, names, outcome, fate);
            Ends(c, before, names, o, after, fate.save) &&
            (o.SyncedAll? ==>
               outcome.SyncedAll? &&
               after == (written - Dropped(before, names))[MANIFEST := Plain(ManifestText(names))])
  {
    var previous := Previous(before).value;
    var gone := RemovedStaleDoes(written, previous, names, fate.removals);
    assert Unwanted(previous, names) == Dropped(before, names);
    PartlyTouched(c, before, written, gone, names);
    if RemovedStale(written, previous, names, fate.removals).0 {
      RecordedEnds(c, before, written - gone, names, outcome, fate.save);
    }
  }

  lemma NotListedAsManifest(before: Folder, names: seq<string>)
    ensures MANIFEST !in Dropped(before, names)
  {
    if ValidName(MANIFEST) {
      ValidTrimmed(MANIFEST);
    }
  }

  /** How a call ends: success gives the synced directory; a failure leaves it touched or torn. */
  lemma SyncEnds(c: Catalog, before: Folder, names: seq<string>, fate: Fate)
    requires forall n :: n in names ==> ValidName(n)
    ensures var (outcome, after) := SyncRun(c, before, names, fate);
            (outcome.SyncedAll? ==> CanSync(c, before, names) && after == Synced(c, before, names)) &&
            Ends(c, before, names, outcome, after, fate.save)
  {
    PartlyTouched(c, before, before, {}, names);
    assert before - {} == before;
    if fate.opens && Previous(before).Some? {
      WroteOrKeptDoes(c, before, names, fate);
      var (outcome, written) := WroteOrKept(c, before, names, fate);
      PartlyTouched(c, before, written, {}, names);
      assert written - {} == written;
      CleanedUpEnds(c, before, written, names, outcome, fate);
    }
  }

  /** Without I/O errors a call succeeds whenever it can; only the manifest write may still stop. */
  lemma SyncSucceeds(c: Catalog, before: Folder, names: seq<string>, fate: Fate)
    requires CanSync(c, before, names) && fate.opens
    requires fate.budget >= |names| && fate.removals >= |Previous(before).value|
    ensures var trimmed := Installed(c, before, NameSet(names)) - Dropped(before, names);
            SyncRun(c, before, names, fate) == Recorded(trimmed, names, SyncedAll, fate.save)
  {
    WroteAll(c, before, names, fate.budget, fate.junk);
    WroteDoes(c, before, names, fate.budget, fate.junk);
    var written := Installed(c, before, NameSet(names));
    assert WroteOrKept(c, before, names, fate) == (SyncedAll, written);
    var gone := RemovedStaleDoes(written, Previous(before).value, names, fate.removals);
  }

  // ----- how a call ends -----

  /** How many removals a clean-up takes. */
  function StaleCount(previous: seq<string>, names: seq<string>): nat {
    if previous == [] then 0
    else (if previous[0] in names || !ValidName(previous[0]) then 0 else 1) + StaleCount(previous[1..], names)
  }

  lemma {:induction false} RemovedStaleIff(dst: Folder, previous: seq<string>, names: seq<string>, removals: nat)
    ensures RemovedStale(dst, previous, names, removals).0 <==> removals >= StaleCount(previous, names)
    decreases |previous|
  {
    if previous == [] {
    } else if previous[0] in names || !ValidName(previous[0]) {
      RemovedStaleIff(dst, previous[1..], names, removals);
    } else if removals > 0 {
      RemovedStaleIff(dst - {previous[0]}, previous[1..], names, removals - 1);
    }
  }

  lemma CleanedUpOutcome(written: Folder, previous: seq<string>, names: seq<string>, outcome: SyncOutcome, fate: Fate)
    ensures CleanedUp(written, previous, names, outcome, fate).0 ==
            if fate.removals >= StaleCount(previous, names) && fate.save.Saves? then outcome else SyncFailed
  {
    RemovedStaleIff(written, previous, names, fate.removals);
  }

  /** No I/O error strikes after the skills are written. */
  predicate RestSucceeds(before: Folder, names: seq<string>, fate: Fate) {
    fate.opens && Previous(before).Some? && fate.save.Saves? &&
    fate.removals >= StaleCount(Previous(before).value, names)
  }

  /** A call succeeds exactly when it can and no I/O error strikes; it is partial when only the opt-in skills fail. */
  lemma SyncOutcomeIff(c: Catalog, before: Folder, names: seq<string>, fate: Fate)
    ensures var outcome := SyncRun(c, before, names, fate).0;
            (outcome.SyncedAll? <==>
              RestSucceeds(before, names, fate) && CanWrite(c, before, names) && fate.budget >= |names|) &&
            (outcome.Partial? <==> RestSucceeds(before, names, fate) && WroteOrKept(c, before, names, fate).0.Partial?)
  {
    PartialIff(c, before, names, fate);
    if fate.opens && Previous(before).Some? {
      var (outcome, written) := WroteOrKept(c, before, names, fate);
      CleanedUpOutcome(written, Previous(before).value, names, outcome, fate);
    }
  }

  /** A call is partial exactly when the first write fails, it wants opt-in skills, and the second write succeeds. */
  lemma PartialIff(c: Catalog, dst: Folder, names: seq<string>, fate: Fate)
    ensures var outcome := WroteOrKept(c, dst, names, fate).0;
            (outcome.SyncedAll? <==> CanWrite(c, dst, names) && fate.budget >= |names|) &&
            (outcome.Partial? <==>
              !(CanWrite(c, dst, names) && fate.budget >= |names|) &&
              (exists n :: n in names && n !in c.embedded) &&
              (forall n :: n in names && n in c.embedded ==> !Blocked(c, dst, n)) &&
              fate.budget2 >= |BuiltIn(c, names)|)
  {
    PartsOf(c, names);
    WroteIff(c, dst, names, fate.budget, fate.junk);
    WroteDoes(c, dst, names, fate.budget, fate.junk);
    var (ok, out) := Wrote(c, dst, names, fate.budget, fate.junk);
    if !ok {
      forall n | n in names && n in c.embedded
        ensures Blocked(c, out, n) <==> Blocked(c, dst, n)
      {
      }
      BuiltInsWrittenIff(c, out, BuiltIn(c, names), fate.budget2, fate.junk2);
      if OptIn(c, names) != [] {
        assert OptIn(c, names)[0] in names;
      }
    }
  }

  lemma BuiltInsWrittenIff(c: Catalog, dst: Folder, builtIn: seq<string>, budget: nat, junk: Option<Files>)
    requires forall n :: n in builtIn ==> n in c.embedded
    ensures WroteInOrder(c, dst, builtIn, budget, junk).0 <==>
            (forall n :: n in builtIn ==> !Blocked(c, dst, n)) && budget >= |builtIn|
  {
    WroteInOrderDoes(c, dst, {}, builtIn, budget, junk);
    assert Installed(c, dst, {}) == dst;
    WroteInTwo(c, dst, builtIn, [], budget, junk);
    if (forall n :: n in builtIn ==> !Blocked(c, dst, n)) && budget >= |builtIn| {
      WroteInOrderAll(c, dst, builtIn, budget, junk);
    }
  }

  /** Writing the built-in skills over what a failed write has left gives what it should have given. */
  lemma WrittenOver(c: Catalog, dst: Folder, out: Folder, names: set<string>, builtIn: seq<string>, n: string)
    requires PartlyWritten(c, dst, out, names) && NameSet(builtIn) <= names && n in builtIn
    requires AllResolvable(c, builtIn) && n in c.embedded
    ensures SlotOf(Installed(c, out, NameSet(builtIn)), n) == Some(Dir(FilesAt(dst, n) + c.embedded[n]))
  {
    assert FilesAt(out, n) + c.embedded[n] == FilesAt(dst, n) + c.embedded[n];
  }

  /** A partial call has installed the built-in skills. */
  lemma PartialInstalls(c: Catalog, dst: Folder, names: seq<string>, fate: Fate, n: string)
    requires WroteOrKept(c, dst, names, fate).0.Partial? && n in names && n in c.embedded
    ensures SlotOf(WroteOrKept(c, dst, names, fate).1, n) == Some(Dir(FilesAt(dst, n) + c.embedded[n]))
  {
    PartsOf(c, names);
    WroteDoes(c, dst, names, fate.budget, fate.junk);
    var out := Wrote(c, dst, names, fate.budget, fate.junk).1;
    var builtIn := BuiltIn(c, names);
    WroteInOrderDoes(c, out, {}, builtIn, fate.budget2, fate.junk2);
    assert Installed(c, out, {}) == out;
    assert {} + NameSet(builtIn) == NameSet(builtIn);
    WrittenOver(c, dst, out, NameSet(names), builtIn, n);
  }

  /**
    What a partial call leaves: the built-in skills are installed, what was listed and is not
    wanted is gone, and the manifest lists the wanted set, the opt-in skills included.
  */
  lemma PartialDoes(c: Catalog, before: Folder, names: seq<string>, fate: Fate, k: string)
    requires forall n :: n in names ==> ValidName(n)
    requires SyncRun(c, before, names, fate).0.Partial?
    ensures var after := SyncRun(c, before, names, fate).1;
            SlotOf(after, MANIFEST) == Some(Plain(ManifestText(names))) &&
            (k in names && k in c.embedded ==> SlotOf(after, k) == Some(Dir(FilesAt(before, k) + c.embedded[k]))) &&
            (k in names && k !in c.embedded ==> SlotOf(after, k) == SlotOf(WroteOrKept(c, before, names, fate).1, k)) &&
            (k in Dropped(before, names) ==> k !in after) &&
            (k !in names && k !in Dropped(before, names) && k != MANIFEST ==> SlotOf(after, k) == SlotOf(before, k))
  {
    ValidTrimmedAll(names);
    NotListedAsManifest(before, names);
    WroteOrKeptDoes(c, before, names, fate);
    var written := WroteOrKept(c, before, names, fate).1;
    var previous := Previous(before).value;
    var gone := RemovedStaleDoes(written, previous, names, fate.removals);
    assert Unwanted(previous, names) == Dropped(before, names);
    DroppedAreNames(before, names);
    if k in names && k in c.embedded {
      PartialInstalls(c, before, names, fate, k);
    }
  }

  // ----- the copies of opt-in skills -----

  /** Opt-in skills replace whatever is there, so only an I/O error stops them. */
  lemma OptInsStop(c: Catalog, dst: Folder, order: seq<string>, budget: nat, junk: Option<Files>)
    requires AllResolvable(c, order) && forall n :: n in order ==> n !in c.embedded
    ensures var (ok, out) := WroteInOrder(c, dst, order, budget, junk);
            (ok <==> budget >= |order|) &&
            (!ok ==> out == Leftover(c, Installed(c, dst, NameSet(order[..budget])), order[budget], junk))
  {
    if budget >= |order| {
      WroteInOrderAll(c, dst, order, budget, junk);
    } else {
      var xs, ys := order[..budget], order[budget..];
      assert order == xs + ys;
      WroteInOrderAll(c, dst, xs, budget, junk);
      WroteInTwo(c, dst, xs, ys, budget, junk);
      WroteInOrderDoes(c, dst, {}, xs, budget, junk);
      assert Installed(c, dst, {}) == dst;
      assert {} + NameSet(xs) == NameSet(xs);
    }
  }

  /** The first opt-in skill is about to be written: all names are known, the built-in skills are written. */
  predicate ReachesOptIns(c: Catalog, dst: Folder, names: seq<string>, budget: nat) {
    AllResolvable(c, names) && CanWrite(c, dst, BuiltIn(c, names)) && budget >= |BuiltIn(c, names)|
  }

  /** The slot of an opt-in skill when an I/O error strikes after `done` opt-in skills. */
  function CopyAfter(c: Catalog, dst: Folder, optIn: seq<string>, done: nat, junk: Option<Files>,
      n: string): Option<Entry>
    requires done < |optIn| && AllResolvable(c, optIn) && n in optIn
  {
    if n == optIn[done] then (if junk.None? then None else Some(Dir(junk.value)))
    else if n in optIn[..done] then Some(InstalledEntry(c, dst, n))
    else SlotOf(dst, n)
  }

  lemma BuiltInsDo(c: Catalog, dst: Folder, names: seq<string>, budget: nat, junk: Option<Files>)
    requires AllResolvable(c, names)
    ensures AllResolvable(c, BuiltIn(c, names))
    ensures var (ok, out) := WroteInOrder(c, dst, BuiltIn(c, names), budget, junk);
            ok <==> ReachesOptIns(c, dst, names, budget)
  {
    PartsOf(c, names);
    var builtIn := BuiltIn(c, names);
    WroteInOrderDoes(c, dst, {}, builtIn, budget, junk);
    assert Installed(c, dst, {}) == dst;
    assert {} + NameSet(builtIn) == NameSet(builtIn);
    WroteInTwo(c, dst, builtIn, [], budget, junk);
    if CanWrite(c, dst, builtIn) && budget >= |builtIn| {
      WroteInOrderAll(c, dst, builtIn, budget, junk);
    }
  }

  lemma LeftoverSlot(c: Catalog, dst: Folder, half: Folder, optIn: seq<string>, done: nat, junk: Option<Files>,
      n: string)
    requires done < |optIn| && AllResolvable(c, optIn) && n in optIn && forall k :: k in optIn ==> k !in c.embedded
    requires SlotOf(half, n) == SlotOf(dst, n)
    ensures SlotOf(Leftover(c, Installed(c, half, NameSet(optIn[..done])), optIn[done], junk), n) ==
            CopyAfter(c, dst, optIn, done, junk, n)
  {
  }

  lemma OptInsLeave(c: Catalog, dst: Folder, half: Folder, optIn: seq<string>, budget: nat, junk: Option<Files>,
      n: string)
    requires AllResolvable(c, optIn) && n in optIn && forall k :: k in optIn ==> k !in c.embedded
    requires SlotOf(half, n) == SlotOf(dst, n) && !WroteInOrder(c, half, optIn, budget, junk).0
    ensures budget < |optIn|
    ensures SlotOf(WroteInOrder(c, half, optIn, budget, junk).1, n) == CopyAfter(c, dst, optIn, budget, junk, n)
  {
    OptInsStop(c, half, optIn, budget, junk);
    LeftoverSlot(c, dst, half, optIn, budget, junk, n);
  }

  /** A write of built-in and then opt-in skills that fails. */
  lemma CopiesInOrder(c: Catalog, dst: Folder, builtIn: seq<string>, optIn: seq<string>, budget: nat,
    junk: Option<Files>, n: string)
    requires AllResolvable(c, builtIn) && forall k :: k in builtIn ==> k in c.embedded
    requires AllResolvable(c, optIn) && n in optIn && forall k :: k in optIn ==> k !in c.embedded
    requires AllResolvable(c, builtIn + optIn) && !WroteInOrder(c, dst, builtIn + optIn, budget, junk).0
    ensures var out := WroteInOrder(c, dst, builtIn + optIn, budget, junk).1;
            if !WroteInOrder(c, dst, builtIn, budget, junk).0 then SlotOf(out, n) == SlotOf(dst, n)
            else
              0 <= budget - |builtIn| < |optIn| &&
              SlotOf(out, n) == CopyAfter(c, dst, optIn, budget - |builtIn|, junk, n)
  {
    WroteInTwo(c, dst, builtIn, optIn, budget, junk);
    KeepsOptIns(c, dst, builtIn, budget, junk);
    var half := WroteInOrder(c, dst, builtIn, budget, junk);
    if half.0 {
      OptInsLeave(c, dst, half.1, optIn, budget - |builtIn|, junk, n);
    }
  }

  /** The first write, when it fails. */
  lemma CopiesAfterWrite(c: Catalog, dst: Folder, names: seq<string>, budget: nat, junk: Option<Files>, n: string)
    requires AllResolvable(c, names) && !Wrote(c, dst, names, budget, junk).0 && n in names && n !in c.embedded
    ensures var out := Wrote(c, dst, names, budget, junk).1;
            var optIn, done := OptIn(c, names), budget - |BuiltIn(c, names)|;
            if !ReachesOptIns(c, dst, names, budget) then SlotOf(out, n) == SlotOf(dst, n)
            else
              0 <= done < |optIn| && AllResolvable(c, optIn) && n in optIn &&
              SlotOf(out, n) == CopyAfter(c, dst, optIn, done, junk, n)
  {
    PartsOf(c, names);
    BuiltInsDo(c, dst, names, budget, junk);
    CopiesInOrder(c, dst, BuiltIn(c, names), OptIn(c, names), budget, junk, n);
  }

  /**
    What becomes of the copies of opt-in skills when a call ends as partial. They are all kept
    when a name is unknown, the release cannot be had, or the error strikes before the first of
    them is written. Otherwise the skill that was struck has lost its copy, and those before it
    are new.
  */
  lemma CopiesAfterPartial(c: Catalog, dst: Folder, names: seq<string>, fate: Fate, n: string)
    requires WroteOrKept(c, dst, names, fate).0.Partial? && n in names && n !in c.embedded
    ensures var out := WroteOrKept(c, dst, names, fate).1;
            var optIn, done := OptIn(c, names), fate.budget - |BuiltIn(c, names)|;
            if !ReachesOptIns(c, dst, names, fate.budget) then SlotOf(out, n) == SlotOf(dst, n)
            else
              0 <= done < |optIn| && AllResolvable(c, optIn) && n in optIn &&
              SlotOf(out, n) == CopyAfter(c, dst, optIn, done, fate.junk, n)
  {
    PartsOf(c, names);
    KeepsOptIns(c, Wrote(c, dst, names, fate.budget, fate.junk).1, BuiltIn(c, names), fate.budget2, fate.junk2);
    if AllResolvable(c, names) {
      CopiesAfterWrite(c, dst, names, fate.budget, fate.junk, n);
    }
  }

  lemma KeepsOptIns(c: Catalog, dst: Folder, builtIn: seq<string>, budget: nat, junk: Option<Files>)
    requires forall n :: n in builtIn ==> n in c.embedded
    ensures forall n :: n !in c.embedded ==> SlotOf(WroteInOrder(c, dst, builtIn, budget, junk).1, n) == SlotOf(dst, n)
  {
    WroteInOrderDoes(c, dst, {}, builtIn, budget, junk);
    assert Installed(c, dst, {}) == dst;
    assert {} + NameSet(builtIn) == NameSet(builtIn);
  }

  /** A copy of the skill from the release is there already. */
  predicate UpToDate(c: Catalog, dst: Folder, n: string) {
    n in dst && c.release.Some? && n in c.release.value && dst[n] == Dir(c.release.value[n])
  }

  /** The skill that is struck is there just as the error leaves it, and those before it are up to date. */
  predicate StruckInPlace(c: Catalog, dst: Folder, optIn: seq<string>, done: nat, junk: Option<Files>)
    requires done < |optIn|
  {
    SlotOf(dst, optIn[done]) == (if junk.None? then None else Some(Dir(junk.value))) &&
    forall n :: n in optIn[..done] && n != optIn[done] ==> UpToDate(c, dst, n)
  }

  lemma CopiesSameIff(c: Catalog, dst: Folder, optIn: seq<string>, done: nat, junk: Option<Files>)
    requires done < |optIn| && AllResolvable(c, optIn) && forall n :: n in optIn ==> n !in c.embedded
    ensures (forall n :: n in optIn ==> CopyAfter(c, dst, optIn, done, junk, n) == SlotOf(dst, n)) <==>
            StruckInPlace(c, dst, optIn, done, junk)
  {
    assert optIn[done] in optIn;
    forall n | n in optIn[..done]
      ensures n in optIn
    {
    }
  }

  lemma CopiesKeptWhenReached(c: Catalog, dst: Folder, names: seq<string>, fate: Fate)
    requires WroteOrKept(c, dst, names, fate).0.Partial? && ReachesOptIns(c, dst, names, fate.budget)
    ensures var optIn, done := OptIn(c, names), fate.budget - |BuiltIn(c, names)|;
            0 <= done < |optIn| &&
            ((forall n :: n in optIn ==> SlotOf(WroteOrKept(c, dst, names, fate).1, n) == SlotOf(dst, n)) <==>
             StruckInPlace(c, dst, optIn, done, fate.junk))
  {
    PartsOf(c, names);
    var optIn := OptIn(c, names);
    CopiesAfterPartial(c, dst, names, fate, optIn[0]);
    var done := fate.budget - |BuiltIn(c, names)|;
    var out := WroteOrKept(c, dst, names, fate).1;
    forall n | n in optIn
      ensures SlotOf(out, n) == CopyAfter(c, dst, optIn, done, fate.junk, n)
    {
      CopiesAfterPartial(c, dst, names, fate, n);
    }
    CopiesSameIff(c, dst, optIn, done, fate.junk);
  }

  /**
    All copies are kept exactly when no opt-in skill is reached; or the one that is struck was
    there just as the error leaves it, and those before it were up to date already.
  */
  lemma CopiesKeptIff(c: Catalog, dst: Folder, names: seq<string>, fate: Fate)
    requires WroteOrKept(c, dst, names, fate).0.Partial?
    ensures var optIn, done := OptIn(c, names), fate.budget - |BuiltIn(c, names)|;
            (forall n :: n in optIn ==> SlotOf(WroteOrKept(c, dst, names, fate).1, n) == SlotOf(dst, n)) <==>
            (ReachesOptIns(c, dst, names, fate.budget) ==>
             0 <= done < |optIn| && StruckInPlace(c, dst, optIn, done, fate.junk))
  {
    if ReachesOptIns(c, dst, names, fate.budget) {
      CopiesKeptWhenReached(c, dst, names, fate);
    } else {
      PartsOf(c, names);
      forall n | n in OptIn(c, names) {
        CopiesAfterPartial(c, dst, names, fate, n);
      }
    }
  }

  /** A copy that is interrupted before its first file: the call ends as partial, the old copy is gone. */
  lemma InterruptedCopyIsLost(c: Catalog, dst: Folder, n: string, fate: Fate)
    requires n !in c.embedded && Resolvable(c, n) && n in dst
    requires fate.budget == 0 && fate.junk == None
    ensures WroteOrKept(c, dst, [n], fate) == (Partial, dst - {n})
  {
    var names := [n];
    assert names[..|names| - 1] == [];
    PartsOf(c, names);
    PartSizes(c, names);
    assert BuiltIn(c, names) == [];
    assert OptIn(c, names)[0] in OptIn(c, names);
    assert WroteInOrder(c, dst, [] + OptIn(c, names), 0, None) == (false, dst - {n});
  }

  // ----- the calls themselves -----

  class SkillsDir {
    var dst: Folder

    constructor (dst: Folder)
      ensures this.dst == dst
    {
      this.dst := dst;
    }

    /** The loop that removes what is no longer wanted. */
    method RemoveStale(previous: seq<string>, names: seq<string>, removals: nat) returns (ok: bool)
      modifies this
      ensures (ok, dst) == RemovedStale(old(dst), previous, names, removals)
    {
      ghost var goal := RemovedStale(dst, previous, names, removals);
      var removed := 0;
      assert previous[0..] == previous;
      for i := 0 to |previous|
        invariant removed <= removals && RemovedStale(dst, previous[i..], names, removals - removed) == goal
      {
        var name := previous[i];
        assert previous[i..][0] == name && previous[i..][1..] == previous[i + 1..];
        if name in names || !ValidName(name) {
          continue;
        }
        if removed == removals {
          return false;
        }
        dst := dst - {name};
        removed := removed + 1;
      }
      ok := true;
    }

    /** Write, and when that fails the built-in skills alone. */
    method WriteOrKeep(c: Catalog, names: seq<string>, fate: Fate) returns (outcome: SyncOutcome)
      modifies this
      ensures (outcome, dst) == WroteOrKept(c, old(dst), names, fate)
    {
      var ok, out := WriteSkills(c, dst, names, fate.budget, fate.junk);
      if ok {
        dst := out;
        return SyncedAll;
      }
      var builtIn, optIn := SplitNames(c, names);
      PartsOf(c, names);
      if optIn == [] {
        dst := out;
        return SyncFailed;
      }
      var ok2, out2 := WriteInOrder(c, out, builtIn, fate.budget2, fate.junk2);
      dst := out2;
      outcome := if ok2 then Partial else SyncFailed;
    }

    /** Sync */
    method Sync(c: Catalog, names: seq<string>, fate: Fate) returns (outcome: SyncOutcome)
      requires forall n :: n in names ==> ValidName(n)
      modifies this
      ensures (outcome, dst) == SyncRun(c, old(dst), names, fate)
      ensures outcome.SyncedAll? ==> CanSync(c, old(dst), names) && dst == Synced(c, old(dst), names)
      ensures Ends(c, old(dst), names, outcome, dst, fate.save)
    {
      SyncEnds(c, dst, names, fate);
      if !fate.opens {
        return SyncFailed;
      }
      var previous := Previous(dst);
      if previous.None? {
        return SyncFailed;
      }
      outcome := WriteOrKeep(c, names, fate);
      if outcome.SyncFailed? {
        return outcome;
      }
      var removedAll := RemoveStale(previous.value, names, fate.removals);
      if !removedAll {
        return SyncFailed;
      }
      match fate.save
      case NotSaved => return SyncFailed;
      case Tears(at) =>
        dst := dst[MANIFEST := Plain(Cropped(ManifestText(names), at))];
        return SyncFailed;
      case Saves =>
        dst := dst[MANIFEST := Plain(ManifestText(names))];
    }
  }
}
