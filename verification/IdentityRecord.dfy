/**
  The host-side record of an AgentIdentity and its convergence with the cluster
  (internal/agentidentity/record.go). A call to ReconcileOne may stop with an error at any of
  its Kubernetes calls or file writes; a Kubernetes write may have landed although it reported
  one, and a file write may stop anywhere.
*/
module IdentityRecord {
  import opened Text
  import opened Registrations

  // ----- comparing registrations -----

  function KeyOf(r: Registration): string {
    r.chain + "=" + r.agentId
  }

  function Keys(status: Status): seq<string> {
    seq(|status|, i requires 0 <= i < |status| => KeyOf(status[i]))
  }

  /** The same registrations, in any order. */
  predicate SameRegistrations(a: Status, b: Status) {
    multiset(Keys(a)) == multiset(Keys(b))
  }

  /** `counts` holds how much more often each key came `up` than `down`. */
  ghost predicate Tally(counts: map<string, int>, up: multiset<string>, down: multiset<string>) {
    forall k :: if k in counts then counts[k] + down[k] == up[k] else up[k] == 0 && down[k] == 0
  }

  function Bumped(counts: map<string, int>, k: string, step: int): map<string, int> {
    counts[k := (if k in counts then counts[k] else 0) + step]
  }

  /** `start` with the count of every key moved by `step`. */
  function Counted(start: map<string, int>, ks: seq<string>, step: int): map<string, int> {
    if ks == [] then start else Bumped(Counted(start, ks[..|ks| - 1], step), ks[|ks| - 1], step)
  }

  lemma TallyStep(counts: map<string, int>, up: multiset<string>, down: multiset<string>, k: string)
    requires Tally(counts, up, down)
    ensures Tally(Bumped(counts, k, 1), up + multiset{k}, down)
    ensures Tally(Bumped(counts, k, -1), up, down + multiset{k})
  {
  }

  lemma {:induction false} CountedTallies(start: map<string, int>, up: multiset<string>, ks: seq<string>)
    requires Tally(start, up, multiset{})
    ensures Tally(Counted(start, ks, -1), up, multiset(ks))
  {
    if ks == [] {
    } else {
      var init, last := ks[..|ks| - 1], ks[|ks| - 1];
      CountedTallies(start, up, init);
      TallyStep(Counted(start, init, -1), up, multiset(init), last);
      assert ks == init + [last];
    }
  }

  lemma {:induction false} CountedUpTallies(ks: seq<string>)
    ensures Tally(Counted(map[], ks, 1), multiset(ks), multiset{})
  {
    if ks == [] {
    } else {
      var init, last := ks[..|ks| - 1], ks[|ks| - 1];
      CountedUpTallies(init);
      TallyStep(Counted(map[], init, 1), multiset(init), multiset{}, last);
      assert ks == init + [last];
    }
  }

  lemma TallyZeroIff(counts: map<string, int>, up: multiset<string>, down: multiset<string>)
    requires Tally(counts, up, down)
    ensures (forall k :: k in counts ==> counts[k] == 0) <==> up == down
  {
    if forall k :: k in counts ==> counts[k] == 0 {
      forall k: string
        ensures up[k] == down[k]
      {
        assert k in counts || k !in counts;
      }
      assert up == down;
    }
  }

  /** sameRegistrations: count the keys of one side up and those of the other side down. */
  method CompareRegistrations(a: Status, b: Status) returns (same: bool)
    ensures same == SameRegistrations(a, b)
  {
    ghost var up, down := Keys(a), Keys(b);
    if |a| != |b| {
      assert |multiset(up)| != |multiset(down)|;
      return false;
    }
    var counts := CountKeys(map[], a, 1);
    counts := CountKeys(counts, b, -1);
    CountedUpTallies(up);
    CountedTallies(Counted(map[], up, 1), multiset(up), down);
    TallyZeroIff(counts, multiset(up), multiset(down));
    same := AllZero(counts);
  }

  /** Its counting loops: each key of `status` moves its count by `step`. */
  method CountKeys(start: map<string, int>, status: Status, step: int) returns (counts: map<string, int>)
    ensures counts == Counted(start, Keys(status), step)
  {
    ghost var ks := Keys(status);
    counts := start;
    for i := 0 to |status|
      invariant counts == Counted(start, ks[..i], step)
    {
      var k := KeyOf(status[i]);
      assert ks[..i + 1][..i] == ks[..i];
      counts := counts[k := (if k in counts then counts[k] else 0) + step];
    }
    assert ks[..|status|] == ks;
  }

  /** Its last loop: is every count zero? */
  method AllZero(counts: map<string, int>) returns (zero: bool)
    ensures zero <==> forall k :: k in counts ==> counts[k] == 0
  {
    var todo := counts.Keys;
    while todo != {}
      invariant todo <= counts.Keys
      invariant forall k :: k in counts && k !in todo ==> counts[k] == 0
      decreases todo
    {
      var k :| k in todo;
      if counts[k] != 0 {
        return false;
      }
      todo := todo - {k};
    }
    zero := true;
  }

  lemma KeyOfInjective(r: Registration, q: Registration)
    requires '=' !in r.chain && '=' !in q.chain && KeyOf(r) == KeyOf(q)
    ensures r == q
  {
    var k := KeyOf(r);
    assert forall i :: 0 <= i < |r.chain| ==> k[i] == r.chain[i];
    assert forall i :: 0 <= i < |q.chain| ==> k[i] == q.chain[i];
    assert k[|r.chain|] == '=' && k[|q.chain|] == '=';
    assert k[..|r.chain|] == r.chain && k[..|q.chain|] == q.chain;
    assert k[|r.chain| + 1..] == r.agentId && k[|q.chain| + 1..] == q.agentId;
  }

  /** No two of these registrations have the same key. */
  ghost predicate KeysTellApart(regs: set<Registration>) {
    forall r, q :: r in regs && q in regs && KeyOf(r) == KeyOf(q) ==> r == q
  }

  lemma {:induction false} KeyCount(status: Status, r: Registration)
    requires forall q :: q in status && KeyOf(q) == KeyOf(r) ==> q == r
    ensures multiset(Keys(status))[KeyOf(r)] == multiset(status)[r]
  {
    if status == [] {
    } else {
      var head, rest := status[0], status[1..];
      assert head in status;
      KeyCount(rest, r);
      assert status == [head] + rest && Keys(status) == [KeyOf(head)] + Keys(rest);
    }
  }

  ghost predicate Over(status: Status, regs: set<Registration>) {
    forall r :: r in status ==> r in regs
  }

  lemma SameWhenTold(a: Status, b: Status, regs: set<Registration>)
    requires KeysTellApart(regs) && Over(a, regs) && Over(b, regs)
    ensures SameRegistrations(a, b) <==> multiset(a) == multiset(b)
  {
    if SameRegistrations(a, b) {
      forall r: Registration
        ensures multiset(a)[r] == multiset(b)[r]
      {
        if r in a || r in b {
          KeyCount(a, r);
          KeyCount(b, r);
        }
      }
    }
    if multiset(a) == multiset(b) {
      forall k: string
        ensures multiset(Keys(a))[k] == multiset(Keys(b))[k]
      {
        if k in Keys(a) || k in Keys(b) {
          var r := Bearer(a, b, k);
          KeyCount(a, r);
          KeyCount(b, r);
        }
      }
      assert multiset(Keys(a)) == multiset(Keys(b));
    }
  }

  lemma Bearer(a: Status, b: Status, k: string) returns (r: Registration)
    requires k in Keys(a) || k in Keys(b)
    ensures (r in a || r in b) && KeyOf(r) == k
  {
    if k in Keys(a) {
      var i :| 0 <= i < |a| && Keys(a)[i] == k;
      r := a[i];
    } else {
      var i :| 0 <= i < |b| && Keys(b)[i] == k;
      r := b[i];
    }
  }

  /** On lists over `regs` the comparison is equality up to order. */
  ghost predicate ComparesFaithfully(regs: set<Registration>) {
    forall a, b :: Over(a, regs) && Over(b, regs) ==> (SameRegistrations(a, b) <==> multiset(a) == multiset(b))
  }

  /** It is so exactly when the keys tell the registrations apart, as they do without '=' in chain names. */
  lemma ComparesFaithfullyIff(regs: set<Registration>)
    ensures ComparesFaithfully(regs) <==> KeysTellApart(regs)
    ensures (forall r :: r in regs ==> '=' !in r.chain) ==> KeysTellApart(regs)
  {
    if KeysTellApart(regs) {
      forall a: Status, b: Status | Over(a, regs) && Over(b, regs)
        ensures SameRegistrations(a, b) <==> multiset(a) == multiset(b)
      {
        SameWhenTold(a, b, regs);
      }
    }
    if ComparesFaithfully(regs) {
      forall r, q | r in regs && q in regs && KeyOf(r) == KeyOf(q)
        ensures r == q
      {
        assert Over([r], regs) && Over([q], regs);
        assert Keys([r]) == Keys([q]);
        assert r in multiset([r]) && multiset([r]) == multiset([q]);
      }
    }
    forall r, q | r in regs && q in regs && '=' !in r.chain && '=' !in q.chain && KeyOf(r) == KeyOf(q)
      ensures r == q
    {
      KeyOfInjective(r, q);
    }
  }

  /** A '=' in a chain name can make different registrations look the same. */
  lemma EqualsSignConfuses()
    ensures var a, b := [Registration("base=1", "2")], [Registration("base", "1=2")];
            SameRegistrations(a, b) && multiset(a) != multiset(b)
  {
    var r, q := Registration("base=1", "2"), Registration("base", "1=2");
    assert KeyOf(r) == KeyOf(q);
    assert Keys([r]) == Keys([q]);
    assert r in multiset([r]) && r !in multiset([q]);
  }

  // ----- the file -----

  const JSON := ".json"

  datatype Doc = Whole(regs: Status) | Torn

  type Files = map<string, Doc>

  /** How far the write of a record gets. */
  datatype SaveFate =
    | Completes
    | NotStarted
    | StopsWriting  // the temporary file is left torn
    | RenameFails   // the temporary file is left complete

  /** The directory of records after a write that got as far as `fate`. */
  function AfterSave(files: Files, path: string, rec: Status, fate: SaveFate): Files {
    var tmp := path + ".tmp";
    match fate
    case Completes => files[path := Whole(rec)] - {tmp}
    case NotStarted => files
    case StopsWriting => files[tmp := Torn]
    case RenameFails => files[tmp := Whole(rec)]
  }

  /** What of it is ever read. */
  function Listed(files: Files): Files {
    map p | p in files && HasSuffix(p, JSON) :: files[p]
  }

  /** Wherever a write stops, every record is read as before, and this one as before or as new. */
  lemma SaveIsAtomic(files: Files, path: string, rec: Status, fate: SaveFate)
    requires HasSuffix(path, JSON)
    ensures Listed(AfterSave(files, path, rec, fate)) ==
            if fate.Completes? then Listed(files)[path := Whole(rec)] else Listed(files)
  {
    var tmp := path + ".tmp";
    assert tmp[|tmp| - 1] == 'p' && JSON[|JSON| - 1] == 'n';
    assert tmp[|tmp| - |JSON|..][|JSON| - 1] == 'p';
  }

  // ----- one reconciliation -----

  datatype Outcome = Created | Seeded | Refreshed | Unchanged | Failed

  /** The registrations on file, and those of the cluster object when there is one. */
  datatype Pair = Pair(record: Status, live: LiveStatus)

  datatype LiveStatus = Missing | Present(status: Status)

  /** A write lands; or it reports an error, before or after it landed. */
  datatype Write = Lands | FailsBefore | FailsAfter

  datatype Fate = Fate(readable: bool, apply: Write, patch: Write, save: SaveFate)

  const SMOOTH := Fate(true, Lands, Lands, Completes)

  function Written<T>(w: Write, before: T, after: T): T {
    if w.FailsBefore? then before else after
  }

  function LiveRegistrations(p: Pair): Status {
    if p.live.Present? then p.live.status else []
  }

  /** ReconcileOne on the record as it is on disk. */
  function Reconciled(p: Pair, fate: Fate): (Pair, Outcome) {
    if !fate.readable then (p, Failed)
    else if p.live.Missing? then
      var applied := Pair(p.record, Written(fate.apply, Missing, Present([])));
      if !fate.apply.Lands? then (applied, Failed)
      else if !HasRegistrations(p.record) then (applied, Created)
      else SeedStatus(applied, fate.patch, Created)
    else if !HasRegistrations(p.live.status) then
      if !HasRegistrations(p.record) then (p, Unchanged) else SeedStatus(p, fate.patch, Seeded)
    else if SameRegistrations(p.live.status, p.record) then (p, Unchanged)
    else if fate.save.Completes? then (p.(record := p.live.status), Refreshed) else (p, Failed)
  }

  function SeedStatus(p: Pair, patch: Write, done: Outcome): (Pair, Outcome) {
    (p.(live := Written(patch, p.live, Present(p.record))), if patch.Lands? then done else Failed)
  }

  /** What an outcome says about the pair before and after; success means that every write made landed. */
  ghost predicate Tells(p: Pair, fate: Fate, q: Pair, outcome: Outcome) {
    match outcome
    case Created =>
      p.live.Missing? && q.live.Present? && q.record == p.record && fate.apply.Lands? &&
      (if HasRegistrations(p.record) then fate.patch.Lands? && q.live.status == p.record else q.live.status == [])
    case Seeded =>
      p.live.Present? && q == p.(live := Present(p.record)) && !HasRegistrations(p.live.status) &&
      HasRegistrations(p.record) && fate.patch.Lands?
    case Refreshed =>
      p.live.Present? && q == p.(record := p.live.status) && HasRegistrations(p.live.status) &&
      !SameRegistrations(p.live.status, p.record) && fate.save.Completes?
    case Unchanged => q == p && p.live.Present?
    case Failed => !fate.readable || !fate.apply.Lands? || !fate.patch.Lands? || !fate.save.Completes?
  }

  lemma OutcomeTells(p: Pair, fate: Fate)
    ensures var (q, outcome) := Reconciled(p, fate); Tells(p, fate, q, outcome) && (outcome != Failed ==> fate.readable)
  {
  }

  class Site {
    const path: string
    var files: Files
    var live: LiveStatus

    constructor (path: string, files: Files, live: LiveStatus)
      requires HasSuffix(path, JSON) && path in files && files[path].Whole?
      ensures Valid() && this.path == path && this.files == files && this.live == live
    {
      this.path, this.files, this.live := path, files, live;
    }

    /** The record is on file and reads back. */
    predicate Valid()
      reads this
    {
      HasSuffix(path, JSON) && path in files && files[path].Whole?
    }

    function Now(): Pair
      reads this
      requires Valid()
    {
      Pair(files[path].regs, live)
    }

    method ApplySpec(w: Write) returns (ok: bool)
      modifies this`live
      ensures ok == w.Lands?
      ensures live == if old(live).Present? then old(live) else Written(w, Missing, Present([]))
    {
      if live.Missing? && !w.FailsBefore? {
        live := Present([]);
      }
      ok := w.Lands?;
    }

    method PatchStatus(rec: Status, w: Write) returns (ok: bool)
      modifies this`live
      ensures ok == w.Lands?
      ensures live == Written(w, old(live), Present(rec))
    {
      if !w.FailsBefore? {
        live := Present(rec);
      }
      ok := w.Lands?;
    }

    /** Save: write a temporary sibling, then rename it into place. */
    method Save(rec: Status, fate: SaveFate) returns (ok: bool)
      requires Valid()
      modifies this`files
      ensures Valid() && ok == fate.Completes?
      ensures files == AfterSave(old(files), path, rec, fate)
      ensures Listed(files) == if ok then Listed(old(files))[path := Whole(rec)] else Listed(old(files))
    {
      SaveIsAtomic(files, path, rec, fate);
      var tmp := path + ".tmp";
      if fate.NotStarted? {
        return false;
      }
      files := files[tmp := Torn];
      if fate.StopsWriting? {
        return false;
      }
      files := files[tmp := Whole(rec)];
      if fate.RenameFails? {
        return false;
      }
      files := files[path := files[tmp]] - {tmp};
      ok := true;
    }

    /** ReconcileOne on the record as it is on disk; the other records are left alone. */
    method ReconcileOne(fate: Fate) returns (outcome: Outcome)
      requires Valid()
      modifies this
      ensures Valid() && (Now(), outcome) == Reconciled(old(Now()), fate)
      ensures Listed(files) - {path} == Listed(old(files)) - {path}
      ensures Tells(old(Now()), fate, Now(), outcome) && (outcome != Failed ==> fate.readable)
    {
      OutcomeTells(Now(), fate);
      var rec := files[path].regs;
      if !fate.readable {
        return Failed;
      }
      var hasRecorded := HasRegistrations(rec);
      if live.Missing? {
        var ok := ApplySpec(fate.apply);
        if !ok {
          return Failed;
        }
        if hasRecorded {
          ok := PatchStatus(rec, fate.patch);
          if !ok {
            return Failed;
          }
        }
        return Created;
      }
      if !HasRegistrations(live.status) {
        if !hasRecorded {
          return Unchanged;
        }
        var ok := PatchStatus(rec, fate.patch);
        return if ok then Seeded else Failed;
      }
      outcome := Refresh(fate.save);
    }

    /** The last case: the cluster has usable registrations, and wins. */
    method Refresh(save: SaveFate) returns (outcome: Outcome)
      requires Valid() && live.Present?
      modifies this`files
      ensures Valid() && Listed(files) - {path} == Listed(old(files)) - {path}
      ensures if SameRegistrations(live.status, old(files)[path].regs) then outcome == Unchanged && files == old(files)
              else if save.Completes? then outcome == Refreshed && files[path].regs == live.status
              else outcome == Failed && files[path] == old(files)[path]
    {
      var same := CompareRegistrations(live.status, files[path].regs);
      if same {
        return Unchanged;
      }
      assert path in Listed(files);
      var ok := Save(live.status, save);
      assert path in Listed(files) && Listed(files)[path] == files[path];
      outcome := if ok then Refreshed else Failed;
    }
  }

  // ----- convergence -----

  function ReconciledAll(p: Pair, fates: seq<Fate>): Pair
    decreases |fates|
  {
    if fates == [] then p else ReconciledAll(Reconciled(p, fates[0]).0, fates[1..])
  }

  /** Nothing is left to do: both sides say the same, or neither has a usable registration. */
  predicate Converged(p: Pair) {
    p.live.Present? &&
    if HasRegistrations(p.live.status) then SameRegistrations(p.live.status, p.record)
    else !HasRegistrations(p.record)
  }

  /** Usable registrations in the cluster are never altered, however often calls fail. */
  lemma {:induction false} LiveIsKept(p: Pair, fates: seq<Fate>)
    requires HasRegistrations(LiveRegistrations(p))
    ensures ReconciledAll(p, fates).live == p.live
    decreases |fates|
  {
    if fates == [] {
    } else {
      LiveIsKept(Reconciled(p, fates[0]).0, fates[1..]);
    }
  }

  lemma {:induction false} NothingToSeed(p: Pair, fates: seq<Fate>)
    requires p.live.Present? && !HasRegistrations(p.record) && !HasRegistrations(p.live.status)
    ensures ReconciledAll(p, fates) == p
    decreases |fates|
  {
    if fates == [] {
    } else {
      NothingToSeed(p, fates[1..]);
    }
  }

  /**
    Exactly these are never altered: what is in the cluster if it is usable, and whatever is
    there if the record has nothing usable to put in its place.
  */
  lemma LiveIsKeptIff(p: Pair)
    requires p.live.Present?
    ensures (forall fates :: ReconciledAll(p, fates).live == p.live) <==>
            HasRegistrations(p.live.status) || !HasRegistrations(p.record)
  {
    if HasRegistrations(p.live.status) {
      forall fates {
        LiveIsKept(p, fates);
      }
    } else if !HasRegistrations(p.record) {
      forall fates {
        NothingToSeed(p, fates);
      }
    } else {
      assert [SMOOTH][1..] == [];
      assert ReconciledAll(p, [SMOOTH]) == Reconciled(p, SMOOTH).0;
    }
  }

  /** So registrations in the cluster can be lost: those without an id, when the record has one. */
  lemma BlankIdIsOverwritten()
    ensures var p := Pair([Registration("base", "7")], Present([Registration("base", "")]));
            Reconciled(p, SMOOTH) == (Pair(p.record, Present(p.record)), Seeded)
  {
    var r, q := Registration("base", "7"), Registration("base", "");
    TrimTrims("base");
    TrimTrims("7");
    TrimTrims("");
    assert r in [r] && !Blank(r.chain) && !Blank(r.agentId);
  }

  /** Registrations on file are only ever replaced by usable ones from the cluster. */
  lemma {:induction false} RecordIsKept(p: Pair, fates: seq<Fate>)
    requires HasRegistrations(p.record)
    ensures HasRegistrations(ReconciledAll(p, fates).record)
    decreases |fates|
  {
    if fates == [] {
    } else {
      RecordIsKept(Reconciled(p, fates[0]).0, fates[1..]);
    }
  }

  /** Converged means exactly that another call, smooth or not, changes and reports nothing new. */
  lemma ConvergedIff(p: Pair, fate: Fate)
    requires fate.readable
    ensures Converged(p) <==> Reconciled(p, fate) == (p, Unchanged)
  {
  }

  /** From anywhere, after any failures, one smooth call converges and the next says so. */
  lemma ReconcileConverges(p: Pair, fates: seq<Fate>)
    ensures var failed := ReconciledAll(p, fates);
            var (settled, outcome) := Reconciled(failed, SMOOTH);
            outcome != Failed && Converged(settled) && Reconciled(settled, SMOOTH) == (settled, Unchanged)
  {
    var failed := ReconciledAll(p, fates);
    var settled := Reconciled(failed, SMOOTH).0;
    ConvergedIff(settled, SMOOTH);
  }

  /** Some side has a usable registration, or they agree. */
  predicate CanAgree(p: Pair) {
    HasRegistrations(p.record) || HasRegistrations(LiveRegistrations(p)) ||
    SameRegistrations(LiveRegistrations(p), p.record)
  }

  lemma {:induction false} CanAgreeIsKept(p: Pair, fates: seq<Fate>)
    ensures CanAgree(ReconciledAll(p, fates)) <==> CanAgree(p)
    decreases |fates|
  {
    if fates == [] {
    } else {
      CanAgreeIsKept(Reconciled(p, fates[0]).0, fates[1..]);
    }
  }

  /**
    From anywhere, after calls that fail at any write, one smooth call leaves both sides with
    the same registrations exactly when one of them had a usable one to begin with, or they were
    the same already; records of nothing but blank entries are not carried over.
  */
  lemma ConvergedEqualIff(p: Pair, fates: seq<Fate>)
    ensures var settled := Reconciled(ReconciledAll(p, fates), SMOOTH).0;
            SameRegistrations(LiveRegistrations(settled), settled.record) <==> CanAgree(p)
  {
    CanAgreeIsKept(p, fates);
  }
}
