/**
  ServiceOffers in the cluster and their ledger on the host (cmd/obol/sell.go,
  cmd/obol/agent.go). Offers live in etcd, which a stack-down wipes; the ledger directory
  holds one manifest file per offer and `resume` applies them again.

  Kubernetes calls succeed here; what a ledger write does when it stops half way is modelled
  by `WriteFate`.
*/
module Ledger {
  import opened Wrappers
  import opened Text
  import opened Json

  datatype Key = Key(ns: string, name: string)

  /** A Kubernetes name: not empty and without underscores. */
  predicate ValidKey(k: Key) {
    k.ns != "" && k.name != "" && '_' !in k.ns && '_' !in k.name
  }

  /** What a v1 List bundle carries besides the offer, e.g. its namespace. */
  datatype Item = OfferItem(key: Key, spec: Fields) | OtherItem(text: string)

  datatype Manifest = Offer(key: Key, spec: Fields) | Bundle(key: Key, items: seq<Item>)

  datatype File = Whole(manifest: Manifest) | Torn

  /** A live offer: its spec, and the spec of the manifest last applied to it. */
  datatype Live = Live(spec: Fields, last: Fields)

  type Cluster = map<Key, Live>
  type Dir = map<string, File>

  // ----- paths -----

  const YAML := ".yaml"

  function StorePath(k: Key): string {
    k.ns + "__" + k.name + YAML
  }

  /** Two offers never share a ledger file. */
  lemma StorePathInjective(a: Key, b: Key)
    requires ValidKey(a) && ValidKey(b)
    requires StorePath(a) == StorePath(b)
    ensures a == b
  {
    CutPath(a);
    CutPath(b);
    var rest := ['_'] + a.name + YAML;
    assert rest[1..|rest| - |YAML|] == a.name;
    assert (['_'] + b.name + YAML)[1..|rest| - |YAML|] == b.name;
  }

  lemma CutPath(k: Key)
    requires ValidKey(k)
    ensures Cut(StorePath(k), '_') == Some((k.ns, ['_'] + k.name + YAML))
  {
    var rest := ['_'] + k.name + YAML;
    CutAt(k.ns, rest, '_');
    assert StorePath(k) == k.ns + ['_'] + rest;
  }

  // ----- reading the ledger -----

  /** The offer specs in a bundle, in order. */
  function OfferSpecs(items: seq<Item>): seq<Fields> {
    if items == [] then []
    else (if items[0].OfferItem? then [items[0].spec] else []) + OfferSpecs(items[1..])
  }

  /** A manifest that stands for one offer, under its own key. */
  predicate OneOffer(m: Manifest) {
    match m
    case Offer(_, _) => true
    case Bundle(k, items) => |OfferSpecs(items)| == 1 && forall i :: i in items && i.OfferItem? ==> i.key == k
  }

  function SpecOf(m: Manifest): Fields
    requires OneOffer(m)
  {
    match m
    case Offer(_, spec) => spec
    case Bundle(_, items) => OfferSpecs(items)[0]
  }

  /** The file is a manifest the loader does not skip. */
  predicate IsEntry(files: Dir, path: string) {
    path in files && HasSuffix(path, YAML) && files[path].Whole? &&
    files[path].manifest.key.ns != "" && files[path].manifest.key.name != ""
  }

  /** The ledger as the sell commands keep it: every manifest under the path of its key. */
  ghost predicate LedgerOk(files: Dir) {
    forall p :: IsEntry(files, p) ==>
      var m := files[p].manifest;
      ValidKey(m.key) && p == StorePath(m.key) && OneOffer(m)
  }

  /** The offer `k` has a manifest of its own in the ledger. */
  predicate Recorded(files: Dir, k: Key) {
    var p := StorePath(k);
    p in files && files[p].Whole? && files[p].manifest.key == k && OneOffer(files[p].manifest)
  }

  function RecordedSpec(files: Dir, k: Key): Fields
    requires Recorded(files, k)
  {
    SpecOf(files[StorePath(k)].manifest)
  }

  function EntryKeys(files: Dir): set<Key> {
    set p | p in files && IsEntry(files, p) :: files[p].manifest.key
  }

  /** In a well-kept ledger the loaded manifests are the recorded offers. */
  lemma EntryKeysRecorded(files: Dir, k: Key)
    requires LedgerOk(files)
    ensures k in EntryKeys(files) <==> ValidKey(k) && Recorded(files, k)
  {
    var p := StorePath(k);
    assert p[|p| - |YAML|..] == YAML;
    if ValidKey(k) && Recorded(files, k) {
      assert IsEntry(files, p);
    }
  }

  // ----- what the commands do to cluster and ledger -----

  function Applied(c: Cluster, k: Key, spec: Fields): Live {
    if k in c then Live(ThreeWay(c[k].spec, c[k].last, spec), spec) else Live(spec, spec)
  }

  /** The cluster after the recorded manifests of `ks` are applied. */
  function AppliedAll(c: Cluster, files: Dir, ks: set<Key>): Cluster
    requires forall k :: k in ks ==> Recorded(files, k)
  {
    map k | k in c.Keys + ks :: if k in ks then Applied(c, k, RecordedSpec(files, k)) else c[k]
  }

  function TmpPath(k: Key): string {
    StorePath(k) + ".tmp"
  }

  function Persisted(files: Dir, k: Key, m: Manifest): Dir {
    files[StorePath(k) := Whole(m)] - {TmpPath(k)}
  }

  function Replaced(items: seq<Item>, offer: Item): seq<Item> {
    seq(|items|, i requires 0 <= i < |items| => if items[i].OfferItem? then offer else items[i])
  }

  /** What a bundle carries besides its offer, in order. */
  function Others(items: seq<Item>): seq<string> {
    if items == [] then []
    else (if items[0].OtherItem? then [items[0].text] else []) + Others(items[1..])
  }

  /** What the ledger entry of `k` carries besides the offer. */
  function OthersOf(files: Dir, k: Key): seq<string> {
    var p := StorePath(k);
    if p in files && files[p].Whole? && files[p].manifest.Bundle? then Others(files[p].manifest.items) else []
  }

  lemma {:induction false} ReplacedKeepsOthers(items: seq<Item>, offer: Item)
    requires offer.OfferItem?
    ensures Others(Replaced(items, offer)) == Others(items)
  {
    if items == [] {
    } else {
      ReplacedKeepsOthers(items[1..], offer);
      assert Replaced(items, offer)[1..] == Replaced(items[1..], offer);
    }
  }

  /** The manifest refreshPersistedServiceOffer writes: a bundle keeps its other items. */
  function Refreshed(files: Dir, k: Key, spec: Fields): Manifest {
    var p := StorePath(k);
    if p in files && files[p].Whole? && files[p].manifest.Bundle?
    then Bundle(files[p].manifest.key, Replaced(files[p].manifest.items, OfferItem(k, spec)))
    else Offer(k, spec)
  }

  /** What of the ledger directory the loader can see. */
  function Visible(files: Dir): Dir {
    map p | p in files && HasSuffix(p, YAML) :: files[p]
  }

  lemma VisibleUpdate(files: Dir, p: string, f: File)
    ensures Visible(files[p := f]) == if HasSuffix(p, YAML) then Visible(files)[p := f] else Visible(files)
    ensures !HasSuffix(p, YAML) ==> Visible(files - {p}) == Visible(files)
  {
  }

  /** The loader sees manifests and does not see temporary files. */
  lemma PathSuffixes(k: Key)
    ensures HasSuffix(StorePath(k), YAML) && !HasSuffix(TmpPath(k), YAML)
  {
    var p, tmp := StorePath(k), TmpPath(k);
    assert p[|p| - |YAML|..] == YAML;
    assert tmp[|tmp| - 1] == 'p' && YAML[|YAML| - 1] == 'l';
    assert tmp[|tmp| - |YAML|..][|YAML| - 1] == 'p';
  }

  function InNamespace(files: Dir, ns: string): set<string> {
    set p | p in files && IsEntry(files, p) && files[p].manifest.key.ns == ns
  }

  /** Refreshing the entry of an offer keeps what its bundle carries besides it. */
  lemma RefreshKeepsOthers(files: Dir, k: Key, spec: Fields)
    ensures OthersOf(Persisted(files, k, Refreshed(files, k, spec)), k) == OthersOf(files, k)
  {
    var p := StorePath(k);
    PathSuffixes(k);
    if p in files && files[p].Whole? && files[p].manifest.Bundle? {
      ReplacedKeepsOthers(files[p].manifest.items, OfferItem(k, spec));
    }
  }

  /** The loader takes what it can see, and skips what is no readable manifest of a named offer. */
  lemma LoaderSkips(files: Dir, p: string)
    ensures IsEntry(files, p) <==> IsEntry(Visible(files), p)
    ensures IsEntry(files, p) ==> p in files && files[p] != Torn
    ensures p in files && HasSuffix(p, YAML) && files[p].Whole? ==>
              (IsEntry(files, p) <==> files[p].manifest.key.ns != "" && files[p].manifest.key.name != "")
  {
  }

  /** How far one ledger write gets. */
  datatype WriteFate =
    | Completes
    | NotStarted
    | StopsWriting      // the temporary file is left torn
    | StopsBeforeRename // the temporary file is left complete
    | RenameFails       // the temporary file is removed again

  /** The directory after a write that got as far as `fate`. */
  function AfterWrite(files: Dir, k: Key, m: Manifest, fate: WriteFate): Dir {
    match fate
    case Completes => Persisted(files, k, m)
    case NotStarted => files
    case StopsWriting => files[TmpPath(k) := Torn]
    case StopsBeforeRename => files[TmpPath(k) := Whole(m)]
    case RenameFails => files - {TmpPath(k)}
  }

  /**
    Wherever a ledger write stops, the loader sees the whole old or the whole new manifest of
    that offer, and no other change.
  */
  lemma WriteIsAtomic(files: Dir, k: Key, m: Manifest, fate: WriteFate)
    ensures Visible(AfterWrite(files, k, m, fate)) ==
            if fate.Completes? then Visible(files)[StorePath(k) := Whole(m)] else Visible(files)
  {
    var p, tmp := StorePath(k), TmpPath(k);
    PathSuffixes(k);
    VisibleUpdate(files, p, Whole(m));
    VisibleUpdate(files[p := Whole(m)], tmp, Torn);
    VisibleUpdate(files, tmp, Torn);
    VisibleUpdate(files, tmp, Whole(m));
  }

  function OutsideNamespace(c: Cluster, ns: string): Cluster {
    map k | k in c && k.ns != ns :: c[k]
  }

  /** Swaps the offer of a bundle and keeps everything else. */
  method ReplaceOffers(existing: seq<Item>, offer: Item) returns (items: seq<Item>)
    ensures items == Replaced(existing, offer)
    ensures offer.OfferItem? ==> Others(items) == Others(existing)
  {
    if offer.OfferItem? {
      ReplacedKeepsOthers(existing, offer);
    }
    items := existing;
    for i := 0 to |items|
      invariant |items| == |existing|
      invariant forall j :: 0 <= j < i ==> items[j] == Replaced(existing, offer)[j]
      invariant forall j :: i <= j < |items| ==> items[j] == existing[j]
    {
      if items[i].OfferItem? {
        items := items[i := offer];
      }
    }
  }

  lemma AppliedAllStep(c: Cluster, files: Dir, ks: set<Key>, k: Key)
    requires forall x :: x in ks ==> Recorded(files, x)
    requires Recorded(files, k) && k !in ks
    ensures var before := AppliedAll(c, files, ks);
            AppliedAll(c, files, ks + {k}) == before[k := Applied(before, k, RecordedSpec(files, k))]
  {
  }

  /** In a well-kept ledger no two loaded manifests are of the same offer. */
  lemma LoadedOnce(files: Dir, entries: seq<(string, Manifest)>, i: nat)
    requires LedgerOk(files) && i < |entries|
    requires forall e :: e in entries ==> IsEntry(files, e.0) && e.1 == files[e.0].manifest
    requires forall i, j :: 0 <= i < j < |entries| ==> entries[i].0 != entries[j].0
    ensures forall j :: 0 <= j < i ==> entries[j].1.key != entries[i].1.key
  {
    forall j | 0 <= j < i
      ensures entries[j].1.key != entries[i].1.key
    {
      assert entries[j] in entries && entries[i] in entries;
      assert entries[j].0 == StorePath(entries[j].1.key) && entries[i].0 == StorePath(entries[i].1.key);
    }
  }

  // ----- one command as a step of the whole system -----

  /** A manifest that stands for one offer. */
  type OfferManifest = m: Manifest | OneOffer(m) witness Offer(Key("", ""), map[])

  datatype Op =
    | CreateOp(manifest: OfferManifest)
    | UpdateOp(key: Key, patch: Fields)
    | DeleteOp(key: Key)
    | DeleteAgentOp(ns: string)
    | WipeOp
    | ResumeOp

  datatype Sys = Sys(cluster: Cluster, files: Dir)

  ghost function Stepped(s: Sys, op: Op): Sys {
    match op
    case CreateOp(m) => Sys(s.cluster[m.key := Applied(s.cluster, m.key, SpecOf(m))], Persisted(s.files, m.key, m))
    case UpdateOp(k, patch) =>
      if k !in s.cluster then s
      else
        var spec := PatchFields(s.cluster[k].spec, patch);
        Sys(s.cluster[k := s.cluster[k].(spec := spec)], Persisted(s.files, k, Refreshed(s.files, k, spec)))
    case DeleteOp(k) => if k !in s.cluster then s else Sys(s.cluster - {k}, s.files - {StorePath(k)})
    case DeleteAgentOp(ns) => Sys(OutsideNamespace(s.cluster, ns), s.files - InNamespace(s.files, ns))
    case WipeOp => s.(cluster := map[])
    case ResumeOp => if LedgerOk(s.files) then Resumed(s, {}) else s
  }

  /** The system after a resume in which the offers `refused` were turned down. */
  ghost function Resumed(s: Sys, refused: set<Key>): Sys
    requires LedgerOk(s.files)
  {
    assert forall k :: k in EntryKeys(s.files) ==> Recorded(s.files, k) by {
      forall k | k in EntryKeys(s.files)
        ensures Recorded(s.files, k)
      {
        EntryKeysRecorded(s.files, k);
      }
    }
    s.(cluster := AppliedAll(s.cluster, s.files, EntryKeys(s.files) - refused))
  }

  /** An offer that only manifests have made is after every apply what the last of them says. */
  lemma AppliesReplace(c: Cluster, k: Key, first: Fields, second: Fields)
    requires k !in c
    ensures var once := c[k := Applied(c, k, first)];
            once[k].spec == first && Applied(once, k, second).spec == second
  {
    OwnIsNotForeign(first, second);
    ApplyIsExactIff(first, first, second);
  }

  /** The removed files are those of the namespace, once every loaded entry had its turn. */
  lemma GoneIsNamespace(files: Dir, entries: seq<(string, Manifest)>, ns: string, gone: set<string>)
    requires forall e :: e in entries <==> IsEntry(files, e.0) && e.1 == files[e.0].manifest
    requires forall p :: p in gone <==> exists j :: 0 <= j < |entries| && entries[j].0 == p && entries[j].1.key.ns == ns
    ensures gone == InNamespace(files, ns)
  {
    forall p | p in InNamespace(files, ns)
      ensures p in gone
    {
      assert (p, files[p].manifest) in entries;
    }
    forall p | p in gone
      ensures p in InNamespace(files, ns)
    {
      var j :| 0 <= j < |entries| && entries[j].0 == p && entries[j].1.key.ns == ns;
      assert entries[j] in entries;
    }
  }

  class Stack {
    var cluster: Cluster
    var files: Dir

    ghost function Now(): Sys
      reads this
    {
      Sys(cluster, files)
    }

    constructor ()
      ensures Now() == Sys(map[], map[])
    {
      cluster, files := map[], map[];
    }

    /** persistServiceOffer: write a temporary sibling, then rename it into place. */
    method Persist(k: Key, m: Manifest, fate: WriteFate) returns (ok: bool)
      modifies this`files
      ensures ok == fate.Completes?
      ensures files == AfterWrite(old(files), k, m, fate)
    {
      var final, tmp := StorePath(k), TmpPath(k);
      if fate.NotStarted? {
        return false;
      }
      files := files[tmp := Torn];
      if fate.StopsWriting? {
        return false;
      }
      files := files[tmp := Whole(m)];
      if fate.StopsBeforeRename? {
        return false;
      }
      if fate.RenameFails? {
        files := files - {tmp};
        return false;
      }
      files := files[final := files[tmp]] - {tmp};
      ok := true;
    }

    /** loadPersistedServiceOffers: every manifest file that reads back, each once. */
    method LoadPersisted() returns (entries: seq<(string, Manifest)>)
      ensures forall e :: e in entries <==> IsEntry(files, e.0) && e.1 == files[e.0].manifest
      ensures forall i, j :: 0 <= i < j < |entries| ==> entries[i].0 != entries[j].0
    {
      entries := [];
      var todo := files.Keys;
      while todo != {}
        invariant todo <= files.Keys
        invariant forall e :: e in entries <==> e.0 !in todo && IsEntry(files, e.0) && e.1 == files[e.0].manifest
        invariant forall i, j :: 0 <= i < j < |entries| ==> entries[i].0 != entries[j].0
        decreases todo
      {
        var p :| p in todo;
        todo := todo - {p};
        if IsEntry(files, p) {
          assert forall e :: e in entries ==> e.0 != p;
          entries := entries + [(p, files[p].manifest)];
        }
      }
    }

    /** `obol sell http`, `sell agent` and `sell demo`: apply the offer, then persist `m`. */
    method Create(m: OfferManifest)
      modifies this
      ensures Now() == Stepped(old(Now()), CreateOp(m))
    {
      cluster := cluster[m.key := Applied(cluster, m.key, SpecOf(m))];
      var _ := Persist(m.key, m, Completes);
    }

    /** refreshPersistedServiceOffer: rewrite the ledger entry from the live offer. */
    method Refresh(k: Key)
      requires k in cluster
      modifies this`files
      ensures files == Persisted(old(files), k, Refreshed(old(files), k, cluster[k].spec))
      ensures OthersOf(files, k) == OthersOf(old(files), k)
    {
      RefreshKeepsOthers(files, k, cluster[k].spec);
      var p, spec := StorePath(k), cluster[k].spec;
      if p in files && files[p].Whole? && files[p].manifest.Bundle? {
        var items := ReplaceOffers(files[p].manifest.items, OfferItem(k, spec));
        var _ := Persist(k, Bundle(files[p].manifest.key, items), Completes);
      } else {
        var _ := Persist(k, Offer(k, spec), Completes);
      }
    }

    /** `obol sell update` and `obol sell stop`: merge-patch the live spec, then refresh. */
    method Update(k: Key, patch: Fields) returns (ok: bool)
      modifies this
      ensures ok == (k in old(cluster))
      ensures Now() == Stepped(old(Now()), UpdateOp(k, patch))
      ensures OthersOf(files, k) == OthersOf(old(files), k)
    {
      if k !in cluster {
        return false;
      }
      cluster := cluster[k := cluster[k].(spec := PatchFields(cluster[k].spec, patch))];
      Refresh(k);
      ok := true;
    }

    /** `obol sell delete`: an offer that is not live is an error and keeps its manifest. */
    method Delete(k: Key) returns (ok: bool)
      modifies this
      ensures ok == (k in old(cluster))
      ensures Now() == Stepped(old(Now()), DeleteOp(k))
    {
      if k !in cluster {
        return false;
      }
      cluster := cluster - {k};
      files := files - {StorePath(k)};
      ok := true;
    }

    /** The offers of a deleted agent: all of its namespace, in the cluster and the ledger. */
    method DeleteAgent(ns: string) returns (removed: nat)
      modifies this
      ensures Now() == Stepped(old(Now()), DeleteAgentOp(ns))
      ensures removed == |InNamespace(old(files), ns)|
    {
      cluster := OutsideNamespace(cluster, ns);
      var entries := LoadPersisted();
      ghost var gone: set<string> := {};
      removed := 0;
      for i := 0 to |entries|
        invariant files == old(files) - gone
        invariant cluster == OutsideNamespace(old(cluster), ns)
        invariant forall p :: p in gone <==> exists j :: 0 <= j < i && entries[j].0 == p && entries[j].1.key.ns == ns
        invariant removed == |gone|
      {
        var (path, m) := entries[i];
        if m.key.ns == ns {
          assert path !in gone;
          files := files - {path};
          gone := gone + {path};
          removed := removed + 1;
        }
      }
      GoneIsNamespace(old(files), entries, ns, gone);
    }

    /** stack down: etcd is gone, the ledger stays. */
    method Wipe()
      modifies this`cluster
      ensures Now() == Stepped(old(Now()), WipeOp)
    {
      cluster := map[];
    }

    /**
      resumePersistedServiceOffers: apply every manifest; the API server turns down those in
      `refused`, which are reported and do not keep the others from being applied.
    */
    method Resume(refused: set<Key>) returns (failed: seq<Key>)
      requires LedgerOk(files)
      modifies this`cluster
      ensures Now() == Resumed(old(Now()), refused)
      ensures forall k :: k in failed <==> k in EntryKeys(files) && k in refused
    {
      forall k | k in EntryKeys(files)
        ensures Recorded(files, k)
      {
        EntryKeysRecorded(files, k);
      }
      var entries := LoadPersisted();
      failed := [];
      ghost var done: set<Key> := {};
      for i := 0 to |entries|
        invariant done <= EntryKeys(files)
        invariant forall k :: k in done <==> exists j :: 0 <= j < i && entries[j].1.key == k
        invariant cluster == AppliedAll(old(cluster), files, done - refused)
        invariant forall k :: k in failed <==> k in done && k in refused
      {
        var (path, m) := entries[i];
        assert entries[i] in entries;
        assert m.key !in done by {
          LoadedOnce(files, entries, i);
        }
        if m.key in refused {
          failed := failed + [m.key];
          assert done + {m.key} - refused == done - refused;
        } else {
          AppliedAllStep(old(cluster), files, done - refused, m.key);
          cluster := cluster[m.key := Applied(cluster, m.key, SpecOf(m))];
          assert done + {m.key} - refused == done - refused + {m.key};
        }
        done := done + {m.key};
      }
      assert done == EntryKeys(files) by {
        forall k | k in EntryKeys(files)
          ensures k in done
        {
          var p :| p in files && IsEntry(files, p) && files[p].manifest.key == k;
          assert (p, files[p].manifest) in entries;
        }
      }
    }
  }
}
