/**
  Whole histories of the sell commands. `Intent` is what the operator asked for, without
  files, bundles or applies; cluster and ledger follow it step by step, so a wipe and a resume
  bring back exactly the terms last intended.
*/
module OfferHistory {
  import opened Json
  import opened Ledger

  /** The merge patch of `obol sell stop`. */
  function DrainPatch(at: string, grace: string): Fields {
    map["drainAt" := Atom(at), "drainGracePeriod" := Atom(grace)]
  }

  // ----- the reference: terms intended, and which offers are live -----

  datatype Intent = Intent(terms: map<Key, Fields>, live: set<Key>)

  function Intended(a: Intent, op: Op): (r: Intent)
    requires a.live <= a.terms.Keys
    ensures r.live <= r.terms.Keys
  {
    match op
    case CreateOp(m) => Intent(a.terms[m.key := SpecOf(m)], a.live + {m.key})
    case UpdateOp(k, patch) =>
      if k in a.live then a.(terms := a.terms[k := PatchFields(a.terms[k], patch)]) else a
    case DeleteOp(k) => if k in a.live then Intent(a.terms - {k}, a.live - {k}) else a
    case DeleteAgentOp(ns) =>
      Intent(map k | k in a.terms && k.ns != ns :: a.terms[k], set k | k in a.live && k.ns != ns)
    case WipeOp => a.(live := {})
    case ResumeOp => a.(live := a.terms.Keys)
  }

  /** A new offer has a Kubernetes name, and applying it leaves nothing of an older one. */
  ghost predicate Allowed(s: Sys, op: Op) {
    op.CreateOp? ==>
      ValidKey(op.manifest.key) &&
      var k := op.manifest.key;
      k in s.cluster ==> NothingForeign(s.cluster[k].spec, s.cluster[k].last, SpecOf(op.manifest))
  }

  // ----- cluster and ledger carry out the intent -----

  /** The ledger records exactly the terms. */
  ghost predicate Records(files: Dir, terms: map<Key, Fields>) {
    LedgerOk(files) &&
    (forall k :: k in terms ==> ValidKey(k) && Recorded(files, k) && RecordedSpec(files, k) == terms[k]) &&
    (forall p :: IsEntry(files, p) ==> files[p].manifest.key in terms)
  }

  ghost predicate Runs(c: Cluster, a: Intent) {
    c.Keys == a.live && a.live <= a.terms.Keys && forall k :: k in c ==> c[k].spec == a.terms[k]
  }

  ghost predicate CarriesOut(s: Sys, a: Intent) {
    Records(s.files, a.terms) && Runs(s.cluster, a)
  }

  lemma {:induction false} ReplacedKeepsOneOffer(items: seq<Item>, k: Key, spec: Fields)
    ensures |OfferSpecs(Replaced(items, OfferItem(k, spec)))| == |OfferSpecs(items)|
    ensures forall x :: x in OfferSpecs(Replaced(items, OfferItem(k, spec))) ==> x == spec
  {
    if items == [] {
    } else {
      ReplacedKeepsOneOffer(items[1..], k, spec);
      assert Replaced(items, OfferItem(k, spec))[1..] == Replaced(items[1..], OfferItem(k, spec));
    }
  }

  lemma RefreshedIsOneOffer(files: Dir, k: Key, spec: Fields)
    requires Recorded(files, k)
    ensures var m := Refreshed(files, k, spec); OneOffer(m) && m.key == k && SpecOf(m) == spec
  {
    var p := StorePath(k);
    if files[p].manifest.Bundle? {
      var items := files[p].manifest.items;
      ReplacedKeepsOneOffer(items, k, spec);
      var specs := OfferSpecs(Replaced(items, OfferItem(k, spec)));
      assert specs[0] in specs;
    }
  }

  /** Writing one manifest changes the record of its offer only. */
  lemma PersistRecords(files: Dir, terms: map<Key, Fields>, m: Manifest)
    requires Records(files, terms) && OneOffer(m) && ValidKey(m.key)
    ensures Records(Persisted(files, m.key, m), terms[m.key := SpecOf(m)])
  {
    var after := Persisted(files, m.key, m);
    PathSuffixes(m.key);
    forall k | k in terms && k != m.key
      ensures Recorded(after, k) && RecordedSpec(after, k) == terms[k]
    {
      PathSuffixes(k);
      if StorePath(k) == StorePath(m.key) {
        StorePathInjective(k, m.key);
      }
    }
    forall p | IsEntry(after, p)
      ensures p == StorePath(m.key) || IsEntry(files, p)
    {
    }
  }

  /** Removing manifests removes the records of their offers only. */
  lemma RemoveRecords(files: Dir, terms: map<Key, Fields>, gone: set<Key>, paths: set<string>)
    requires Records(files, terms)
    requires forall k :: k in gone ==> StorePath(k) in paths || k !in terms
    requires forall k :: k in terms && StorePath(k) in paths ==> k in gone
    ensures Records(files - paths, terms - gone)
  {
    var after := files - paths;
    forall p | IsEntry(after, p)
      ensures IsEntry(files, p) && files[p].manifest.key !in gone
    {
      assert IsEntry(files, p);
    }
  }

  lemma RecordedEntries(files: Dir, terms: map<Key, Fields>)
    requires Records(files, terms)
    ensures EntryKeys(files) == terms.Keys
  {
    forall k: Key
      ensures k in EntryKeys(files) <==> k in terms
    {
      EntryKeysRecorded(files, k);
      if k in terms {
        assert k in EntryKeys(files);
      }
    }
  }

  lemma StepCarriesOutUpdate(s: Sys, a: Intent, k: Key, patch: Fields)
    requires CarriesOut(s, a)
    ensures CarriesOut(Stepped(s, UpdateOp(k, patch)), Intended(a, UpdateOp(k, patch)))
  {
    if k in s.cluster {
      var spec := PatchFields(s.cluster[k].spec, patch);
      RefreshedIsOneOffer(s.files, k, spec);
      PersistRecords(s.files, a.terms, Refreshed(s.files, k, spec));
    }
  }

  lemma StepCarriesOutDelete(s: Sys, a: Intent, op: Op)
    requires CarriesOut(s, a) && (op.DeleteOp? || op.DeleteAgentOp?)
    ensures CarriesOut(Stepped(s, op), Intended(a, op))
  {
    match op
    case DeleteOp(k) =>
      if k in s.cluster {
        forall x | x in a.terms && StorePath(x) == StorePath(k)
          ensures x == k
        {
          StorePathInjective(x, k);
        }
        RemoveRecords(s.files, a.terms, {k}, {StorePath(k)});
      }
    case DeleteAgentOp(ns) =>
      var gone := set k | k in a.terms && k.ns == ns;
      var paths := InNamespace(s.files, ns);
      forall k | k in a.terms
        ensures StorePath(k) in paths <==> k in gone
      {
        PathSuffixes(k);
      }
      RemoveRecords(s.files, a.terms, gone, paths);
      assert a.terms - gone == Intended(a, op).terms;
  }

  lemma StepCarriesOutResume(s: Sys, a: Intent)
    requires CarriesOut(s, a)
    ensures CarriesOut(Resumed(s, {}), a.(live := a.terms.Keys))
  {
    RecordedEntries(s.files, a.terms);
    forall k | k in a.terms
      ensures Applied(s.cluster, k, a.terms[k]).spec == a.terms[k]
    {
      if k in s.cluster {
        ReapplyLive(s.cluster[k].spec, s.cluster[k].last);
      }
    }
  }

  /** Applying a manifest makes the live offer what was asked for exactly when nothing foreign is live. */
  lemma AppliedRunsIff(c: Cluster, a: Intent, k: Key, spec: Fields)
    requires Runs(c, a)
    ensures Runs(c[k := Applied(c, k, spec)], Intent(a.terms[k := spec], a.live + {k})) <==>
            (k in c ==> NothingForeign(c[k].spec, c[k].last, spec))
  {
    var after := c[k := Applied(c, k, spec)];
    assert after[k].spec == spec <==> Runs(after, Intent(a.terms[k := spec], a.live + {k}));
    if k in c {
      ApplyIsExactIff(c[k].spec, c[k].last, spec);
    }
  }

  /** A create carries out what was asked for exactly when nothing foreign is live. */
  lemma StepCarriesOutCreate(s: Sys, a: Intent, m: OfferManifest)
    requires CarriesOut(s, a) && ValidKey(m.key)
    ensures CarriesOut(Stepped(s, CreateOp(m)), Intended(a, CreateOp(m))) <==> Allowed(s, CreateOp(m))
  {
    PersistRecords(s.files, a.terms, m);
    AppliedRunsIff(s.cluster, a, m.key, SpecOf(m));
  }

  /** One command carries out what was asked for. */
  lemma StepCarriesOut(s: Sys, a: Intent, op: Op)
    requires CarriesOut(s, a) && Allowed(s, op)
    ensures CarriesOut(Stepped(s, op), Intended(a, op))
  {
    match op
    case CreateOp(m) => StepCarriesOutCreate(s, a, m);
    case UpdateOp(k, patch) => StepCarriesOutUpdate(s, a, k, patch);
    case DeleteOp(_) => StepCarriesOutDelete(s, a, op);
    case DeleteAgentOp(_) => StepCarriesOutDelete(s, a, op);
    case WipeOp =>
    case ResumeOp => StepCarriesOutResume(s, a);
  }

  // ----- whole runs -----

  ghost predicate RunAllowed(s: Sys, ops: seq<Op>)
    decreases |ops|
  {
    ops == [] || (Allowed(s, ops[0]) && RunAllowed(Stepped(s, ops[0]), ops[1..]))
  }

  ghost function Ran(s: Sys, ops: seq<Op>): Sys
    decreases |ops|
  {
    if ops == [] then s else Ran(Stepped(s, ops[0]), ops[1..])
  }

  function IntendedAll(a: Intent, ops: seq<Op>): (r: Intent)
    requires a.live <= a.terms.Keys
    ensures r.live <= r.terms.Keys
    decreases |ops|
  {
    if ops == [] then a else IntendedAll(Intended(a, ops[0]), ops[1..])
  }

  const START := Sys(map[], map[])
  const NOTHING := Intent(map[], {})

  lemma {:induction false} RunCarriesOut(s: Sys, a: Intent, ops: seq<Op>)
    requires CarriesOut(s, a) && RunAllowed(s, ops)
    ensures CarriesOut(Ran(s, ops), IntendedAll(a, ops))
    decreases |ops|
  {
    if ops == [] {
    } else {
      StepCarriesOut(s, a, ops[0]);
      RunCarriesOut(Stepped(s, ops[0]), Intended(a, ops[0]), ops[1..]);
    }
  }

  lemma {:induction false} RunThen(s: Sys, ops: seq<Op>, more: seq<Op>)
    ensures Ran(s, ops + more) == Ran(Ran(s, ops), more)
    ensures RunAllowed(s, ops + more) <==> RunAllowed(s, ops) && RunAllowed(Ran(s, ops), more)
    decreases |ops|
  {
    if ops == [] {
      assert ops + more == more;
    } else {
      RunThen(Stepped(s, ops[0]), ops[1..], more);
      assert (ops + more)[1..] == ops[1..] + more;
    }
  }

  lemma {:induction false} IntendThen(a: Intent, ops: seq<Op>, more: seq<Op>)
    requires a.live <= a.terms.Keys
    ensures IntendedAll(a, ops + more) == IntendedAll(IntendedAll(a, ops), more)
    decreases |ops|
  {
    if ops == [] {
      assert ops + more == more;
    } else {
      IntendThen(Intended(a, ops[0]), ops[1..], more);
      assert (ops + more)[1..] == ops[1..] + more;
    }
  }

  /** The commands themselves, one after the other: cluster and ledger end as the run says, and as asked for. */
  method Execute(s: Stack, ops: seq<Op>, ghost asked: Intent)
    requires CarriesOut(s.Now(), asked) && RunAllowed(s.Now(), ops)
    modifies s
    ensures s.Now() == Ran(old(s.Now()), ops)
    ensures CarriesOut(s.Now(), IntendedAll(asked, ops))
  {
    RunCarriesOut(s.Now(), asked, ops);
    ghost var goal, a := Ran(s.Now(), ops), asked;
    assert ops[0..] == ops;
    for i := 0 to |ops|
      invariant CarriesOut(s.Now(), a) && RunAllowed(s.Now(), ops[i..]) && Ran(s.Now(), ops[i..]) == goal
    {
      assert ops[i..][0] == ops[i] && ops[i..][1..] == ops[i + 1..];
      StepCarriesOut(s.Now(), a, ops[i]);
      a := Intended(a, ops[i]);
      Perform(s, ops[i]);
    }
  }

  /** One command. */
  method Perform(s: Stack, op: Op)
    requires LedgerOk(s.files)
    modifies s
    ensures s.Now() == Stepped(old(s.Now()), op)
  {
    match op
    case CreateOp(m) => s.Create(m);
    case UpdateOp(k, patch) => var _ := s.Update(k, patch);
    case DeleteOp(k) => var _ := s.Delete(k);
    case DeleteAgentOp(ns) => var _ := s.DeleteAgent(ns);
    case WipeOp => s.Wipe();
    case ResumeOp => var _ := s.Resume({});
  }

  /** The last command of a run. */
  lemma RunLast(ops: seq<Op>, op: Op)
    ensures Ran(START, ops + [op]) == Stepped(Ran(START, ops), op)
    ensures IntendedAll(NOTHING, ops + [op]) == Intended(IntendedAll(NOTHING, ops), op)
    ensures RunAllowed(START, ops + [op]) <==> RunAllowed(START, ops) && Allowed(Ran(START, ops), op)
  {
    RunThen(START, ops, [op]);
    IntendThen(NOTHING, ops, [op]);
    assert [op][1..] == [];
  }

  /** After any run, a wipe and a resume bring back exactly the terms last intended. */
  lemma WipeAndResumeRestore(ops: seq<Op>)
    requires RunAllowed(START, ops)
    ensures var restored := Ran(START, ops + [WipeOp] + [ResumeOp]).cluster;
            var terms := IntendedAll(NOTHING, ops).terms;
            restored.Keys == terms.Keys && forall k :: k in terms ==> restored[k].spec == terms[k]
  {
    RunLast(ops, WipeOp);
    RunLast(ops + [WipeOp], ResumeOp);
    RunCarriesOut(START, NOTHING, ops + [WipeOp] + [ResumeOp]);
  }

  lemma DrainPatched(spec: Fields, at: string, grace: string)
    ensures PatchFields(spec, DrainPatch(at, grace)) == spec["drainAt" := Atom(at)]["drainGracePeriod" := Atom(grace)]
  {
  }

  /** A stopped offer comes back drained, its other terms as they were. */
  lemma StoppedStaysDrained(ops: seq<Op>, k: Key, at: string, grace: string)
    requires RunAllowed(START, ops) && k in Ran(START, ops).cluster
    ensures var before := Ran(START, ops).cluster[k].spec;
            var restored := Ran(START, ops + [UpdateOp(k, DrainPatch(at, grace))] + [WipeOp] + [ResumeOp]).cluster;
            k in restored && restored[k].spec == before["drainAt" := Atom(at)]["drainGracePeriod" := Atom(grace)]
  {
    var stop := UpdateOp(k, DrainPatch(at, grace));
    RunLast(ops, stop);
    RunCarriesOut(START, NOTHING, ops);
    WipeAndResumeRestore(ops + [stop]);
    DrainPatched(Ran(START, ops).cluster[k].spec, at, grace);
  }

  lemma {:induction false} AbsentStaysAbsent(a: Intent, k: Key, ops: seq<Op>)
    requires a.live <= a.terms.Keys && k !in a.terms
    requires forall op :: op in ops && op.CreateOp? ==> op.manifest.key != k
    ensures k !in IntendedAll(a, ops).terms
    decreases |ops|
  {
    if ops == [] {
    } else {
      AbsentStaysAbsent(Intended(a, ops[0]), k, ops[1..]);
    }
  }

  /** A deleted offer never returns, unless somebody creates it again. */
  lemma DeletedNeverReturns(ops: seq<Op>, delete_: Op, k: Key, more: seq<Op>)
    requires delete_ == DeleteOp(k) || delete_ == DeleteAgentOp(k.ns)
    requires delete_.DeleteOp? ==> k in Ran(START, ops).cluster
    requires RunAllowed(START, ops + [delete_] + more)
    requires forall op :: op in more && op.CreateOp? ==> op.manifest.key != k
    ensures k !in Ran(START, ops + [delete_] + more).cluster
  {
    RunLast(ops, delete_);
    RunThen(START, ops + [delete_], more);
    IntendThen(NOTHING, ops + [delete_], more);
    RunCarriesOut(START, NOTHING, ops);
    RunCarriesOut(START, NOTHING, ops + [delete_] + more);
    AbsentStaysAbsent(IntendedAll(NOTHING, ops + [delete_]), k, more);
  }

  /**
    Creating a stopped offer again: the apply keeps `drainAt`, which the new manifest does not
    have, so the live offer and the ledger part ways.
  */
  lemma RecreatedStopDrifts(k: Key, spec: Fields, at: string, grace: string)
    requires ValidKey(k) && "drainAt" !in spec
    ensures var ops := [CreateOp(Offer(k, spec)), UpdateOp(k, DrainPatch(at, grace)), CreateOp(Offer(k, spec))];
            var end := Ran(START, ops);
            k in end.cluster && "drainAt" in end.cluster[k].spec &&
            Recorded(end.files, k) && "drainAt" !in RecordedSpec(end.files, k)
  {
    var create, stop := CreateOp(Offer(k, spec)), UpdateOp(k, DrainPatch(at, grace));
    var ops := [create, stop, create];
    assert ops[1..] == [stop, create] && [stop, create][1..] == [create] && [create][1..] == [];
    var one := Stepped(START, create);
    var two := Stepped(one, stop);
    assert "drainAt" in two.cluster[k].spec && two.cluster[k].last == spec;
    assert Ran(one, [stop, create]) == Ran(two, [create]);
    assert Ran(two, [create]) == Stepped(two, create);
    PathSuffixes(k);
  }

  // ----- what a bundle carries besides its offer -----

  /** The command is no create, delete or agent delete of `k`. */
  predicate Spares(op: Op, k: Key) {
    match op
    case CreateOp(m) => m.key != k
    case DeleteOp(x) => x != k
    case DeleteAgentOp(ns) => ns != k.ns
    case _ => true
  }

  lemma PersistSparesOthers(files: Dir, x: Key, m: Manifest, k: Key)
    requires ValidKey(x) && ValidKey(k) && x != k
    ensures OthersOf(Persisted(files, x, m), k) == OthersOf(files, k)
  {
    PathSuffixes(x);
    PathSuffixes(k);
    if StorePath(x) == StorePath(k) {
      StorePathInjective(x, k);
    }
  }

  lemma StepKeepsOthers(s: Sys, a: Intent, op: Op, k: Key)
    requires CarriesOut(s, a) && Allowed(s, op) && k in a.terms && Spares(op, k)
    ensures OthersOf(Stepped(s, op).files, k) == OthersOf(s.files, k) && k in Intended(a, op).terms
  {
    match op
    case CreateOp(m) => PersistSparesOthers(s.files, m.key, m, k);
    case UpdateOp(x, patch) =>
      if x in s.cluster {
        var spec := PatchFields(s.cluster[x].spec, patch);
        if x == k {
          RefreshKeepsOthers(s.files, k, spec);
        } else {
          PersistSparesOthers(s.files, x, Refreshed(s.files, x, spec), k);
        }
      }
    case DeleteOp(x) =>
      if x in s.cluster && StorePath(x) == StorePath(k) {
        StorePathInjective(x, k);
      }
    case DeleteAgentOp(_) => PathSuffixes(k);
    case WipeOp =>
    case ResumeOp =>
  }

  /** Over any run that does not create or delete it, a bundle keeps all it carries besides its offer. */
  lemma {:induction false} RunKeepsOthers(s: Sys, a: Intent, ops: seq<Op>, k: Key)
    requires CarriesOut(s, a) && RunAllowed(s, ops) && k in a.terms
    requires forall op :: op in ops ==> Spares(op, k)
    ensures OthersOf(Ran(s, ops).files, k) == OthersOf(s.files, k)
    decreases |ops|
  {
    if ops == [] {
    } else {
      assert ops[0] in ops;
      StepKeepsOthers(s, a, ops[0], k);
      StepCarriesOut(s, a, ops[0]);
      RunKeepsOthers(Stepped(s, ops[0]), Intended(a, ops[0]), ops[1..], k);
    }
  }
}
