/**
  Seeding a missing AgentIdentity from the cluster (cmd/obol/sell_identity.go): per chain the
  oldest object that carries an agent id wins.
*/
module Seeding {
  import opened Wrappers
  import opened Text
  import opened Sorting
  import opened Registrations

  /** A ServiceOffer or a RegistrationRequest. */
  datatype Item = Item(ns: string, name: string, created: int, chain: string, agentId: string)

  function KeyOf(x: Item): string {
    x.ns + "/" + x.name
  }

  /** Older first; the same second is settled by namespace and name. */
  predicate Older(x: Item, y: Item) {
    if x.created == y.created then Before(KeyOf(x), KeyOf(y)) else x.created < y.created
  }

  const OLDER: (Item, Item) -> bool := (x, y) => Older(x, y)

  datatype Kind = Offers | Requests

  predicate Eligible(kind: Kind, x: Item) {
    !Blank(x.agentId) && (kind.Requests? ==> !Blank(x.chain))
  }

  function EligibleItems(kind: Kind, items: seq<Item>): seq<Item> {
    if items == [] then []
    else
      var n := |items| - 1;
      EligibleItems(kind, items[..n]) + if Eligible(kind, items[n]) then [items[n]] else []
  }

  function Recorded(status: Status, x: Item): Status {
    if AgentIdFor(status, x.chain) == "" then Upserted(status, x.chain, x.agentId) else status
  }

  function RecordedAll(items: seq<Item>): Status {
    if items == [] then []
    else
      var n := |items| - 1;
      Recorded(RecordedAll(items[..n]), items[n])
  }

  function Seeded(kind: Kind, items: seq<Item>): Option<Status> {
    var entries := EligibleItems(kind, items);
    var status := RecordedAll(Sort(entries, OLDER));
    if entries == [] || (kind.Requests? && !HasRegistrations(status)) then None else Some(status)
  }

  lemma EligibleStep(kind: Kind, items: seq<Item>, i: nat)
    requires i < |items|
    ensures EligibleItems(kind, items[..i + 1]) ==
            EligibleItems(kind, items[..i]) + if Eligible(kind, items[i]) then [items[i]] else []
  {
    assert items[..i + 1][..i] == items[..i];
  }

  lemma RecordedStep(items: seq<Item>, i: nat)
    requires i < |items|
    ensures RecordedAll(items[..i + 1]) == Recorded(RecordedAll(items[..i]), items[i])
  {
    assert items[..i + 1][..i] == items[..i];
  }

  /** seedFromServiceOfferPointers and seedFromRegistrationRequests. */
  method Seed(kind: Kind, items: seq<Item>) returns (seed: Option<Status>)
    ensures seed == Seeded(kind, items)
  {
    var entries := Collect(kind, items);
    if entries == [] {
      return None;
    }
    var status := FoldEntries(Sort(entries, OLDER));
    seed := if kind.Requests? && !HasRegistrations(status) then None else Some(status);
  }

  /** The entries worth seeding from. */
  method Collect(kind: Kind, items: seq<Item>) returns (entries: seq<Item>)
    ensures entries == EligibleItems(kind, items)
  {
    entries := [];
    for i := 0 to |items|
      invariant entries == EligibleItems(kind, items[..i])
    {
      EligibleStep(kind, items, i);
      if Eligible(kind, items[i]) {
        entries := entries + [items[i]];
      }
    }
    assert items[..|items|] == items;
  }

  /** The first entry of a chain sets its id. */
  method FoldEntries(entries: seq<Item>) returns (status: Status)
    ensures status == RecordedAll(entries)
  {
    status := [];
    for i := 0 to |entries|
      invariant status == RecordedAll(entries[..i])
    {
      RecordedStep(entries, i);
      var x := entries[i];
      if AgentIdFor(status, x.chain) == "" {
        status := Upsert(status, x.chain, x.agentId);
      }
    }
    assert entries[..|entries|] == entries;
  }

  /** seedAgentIdentityFromCluster: offers first, requests when there is no offer to seed from. */
  function SeedFromCluster(offers: seq<Item>, requests: seq<Item>): Option<Status> {
    if Seeded(Offers, offers).Some? then Seeded(Offers, offers) else Seeded(Requests, requests)
  }

  // ----- the result does not depend on the order of the list -----

  /** No two objects of a kind share namespace and name. */
  ghost predicate Distinct(items: seq<Item>) {
    forall x, y :: x in items && y in items && x != y ==> x.ns != y.ns || x.name != y.name
  }

  ghost predicate Named(items: seq<Item>) {
    forall x :: x in items ==> '/' !in x.ns
  }

  lemma KeyOfInjective(x: Item, y: Item)
    requires '/' !in x.ns && '/' !in y.ns && KeyOf(x) == KeyOf(y)
    ensures x.ns == y.ns && x.name == y.name
  {
    var k := KeyOf(x);
    assert forall i :: 0 <= i < |x.ns| ==> k[i] == x.ns[i];
    assert forall i :: 0 <= i < |y.ns| ==> k[i] == y.ns[i];
    assert k[|x.ns|] == '/' && k[|y.ns|] == '/';
    assert k[..|x.ns|] == x.ns && k[..|y.ns|] == y.ns;
    assert k[|x.ns| + 1..] == x.name && k[|y.ns| + 1..] == y.name;
  }

  lemma OlderIsOrdering()
    ensures Ordering(OLDER)
  {
    forall x: Item, y: Item, z: Item {
      BeforeOrders(KeyOf(x), KeyOf(y), KeyOf(z));
    }
  }

  lemma NoTies(items: seq<Item>)
    requires Distinct(items) && Named(items)
    ensures Untied(items, OLDER)
  {
    forall x, y | x in items && y in items && x != y
      ensures Older(x, y) || Older(y, x)
    {
      BeforeTotal(KeyOf(x), KeyOf(y));
      if KeyOf(x) == KeyOf(y) {
        KeyOfInjective(x, y);
      }
    }
  }

  lemma {:induction false} EligibleBag(kind: Kind, items: seq<Item>, x: Item)
    ensures multiset(EligibleItems(kind, items))[x] == if Eligible(kind, x) then multiset(items)[x] else 0
  {
    if items == [] {
    } else {
      var n := |items| - 1;
      EligibleBag(kind, items[..n], x);
      assert items == items[..n] + [items[n]];
      var earlier := EligibleItems(kind, items[..n]);
      assert EligibleItems(kind, items) == if Eligible(kind, items[n]) then earlier + [items[n]] else earlier;
    }
  }

  lemma EligibleMembers(kind: Kind, items: seq<Item>, x: Item)
    ensures x in EligibleItems(kind, items) <==> x in items && Eligible(kind, x)
  {
    EligibleBag(kind, items, x);
    assert x in EligibleItems(kind, items) <==> multiset(EligibleItems(kind, items))[x] > 0;
    assert x in items <==> multiset(items)[x] > 0;
  }

  /** The entries in the order they are recorded. */
  function Entries(kind: Kind, items: seq<Item>): seq<Item> {
    Sort(EligibleItems(kind, items), OLDER)
  }

  lemma EntriesSorted(kind: Kind, items: seq<Item>)
    ensures SortedBy(Entries(kind, items), OLDER)
    ensures multiset(Entries(kind, items)) == multiset(EligibleItems(kind, items))
    ensures forall x :: x in Entries(kind, items) <==> x in items && Eligible(kind, x)
  {
    OlderIsOrdering();
    SortSorts(EligibleItems(kind, items), OLDER);
    SortPermutes(EligibleItems(kind, items), OLDER);
    forall x
      ensures x in Entries(kind, items) <==> x in items && Eligible(kind, x)
    {
      EligibleMembers(kind, items, x);
      assert x in Entries(kind, items) <==> x in multiset(Entries(kind, items));
    }
  }

  /** Seeding gives the same identity for every order the API server may list the objects in. */
  lemma SeedIgnoresOrder(kind: Kind, items: seq<Item>, others: seq<Item>)
    requires multiset(items) == multiset(others)
    requires Distinct(items) && Named(items)
    ensures Seeded(kind, items) == Seeded(kind, others)
  {
    forall x: Item
      ensures multiset(EligibleItems(kind, items))[x] == multiset(EligibleItems(kind, others))[x]
    {
      EligibleBag(kind, items, x);
      EligibleBag(kind, others, x);
    }
    assert multiset(EligibleItems(kind, items)) == multiset(EligibleItems(kind, others));
    EntriesSorted(kind, items);
    EntriesSorted(kind, others);
    NoTies(items);
    SortedIsUnique(Entries(kind, items), Entries(kind, others), OLDER);
    assert |multiset(EligibleItems(kind, items))| == |multiset(EligibleItems(kind, others))|;
  }

  // ----- the oldest object of a chain wins -----

  /** The id of the first item on `chain`. */
  function FirstOn(items: seq<Item>, chain: string): string {
    if items == [] then ""
    else
      var n := |items| - 1;
      var before := FirstOn(items[..n], chain);
      if before == "" && SameChain(items[n].chain, chain) then Trim(items[n].agentId) else before
  }

  lemma {:induction false} RecordedReads(items: seq<Item>, chain: string)
    requires forall x :: x in items ==> !Blank(x.agentId)
    requires !Blank(chain)
    ensures AgentIdFor(RecordedAll(items), chain) == FirstOn(items, chain)
  {
    if items == [] {
    } else {
      var n := |items| - 1;
      var x, status := items[n], RecordedAll(items[..n]);
      RecordedReads(items[..n], chain);
      if SameChain(x.chain, chain) {
        ReadsByChain(status, x.chain, chain);
        FoldLength(x.chain, chain);
      }
      if !Blank(x.chain) {
        UpsertReads(status, x.chain, x.agentId, chain);
      }
    }
  }

  lemma {:induction false} ReadsByChain(status: Status, a: string, b: string)
    requires SameChain(a, b)
    ensures AgentIdFor(status, a) == AgentIdFor(status, b)
  {
    if status == [] {
    } else {
      ReadsByChain(status[1..], a, b);
    }
  }

  lemma FoldLength(a: string, b: string)
    requires SameChain(a, b)
    ensures Blank(a) <==> Blank(b)
  {
    FoldKeepsLength(Trim(a));
    FoldKeepsLength(Trim(b));
  }

  lemma {:induction false} FirstOnIs(items: seq<Item>, oldest: Item)
    requires SortedBy(items, OLDER)
    requires oldest in items && !Blank(oldest.agentId)
    requires forall x :: x in items && SameChain(x.chain, oldest.chain) && x != oldest ==> Older(oldest, x)
    ensures FirstOn(items, oldest.chain) == Trim(oldest.agentId)
  {
    var n := |items| - 1;
    if oldest in items[..n] {
      FirstOnIs(items[..n], oldest);
    } else {
      assert items[n] == oldest;
      forall i | 0 <= i < n
        ensures !SameChain(items[i].chain, oldest.chain)
      {
        assert items[i] in items[..n] && !Older(items[n], items[i]);
      }
      NoneOn(items[..n], oldest.chain);
    }
  }

  lemma {:induction false} NoneOn(items: seq<Item>, chain: string)
    requires forall i :: 0 <= i < |items| ==> !SameChain(items[i].chain, chain)
    ensures FirstOn(items, chain) == ""
  {
    if items == [] {
    } else {
      NoneOn(items[..|items| - 1], chain);
    }
  }

  /** Each chain gets the id of its oldest eligible object. */
  lemma OldestWins(kind: Kind, items: seq<Item>, oldest: Item)
    requires oldest in items && Eligible(kind, oldest) && !Blank(oldest.chain)
    requires forall x :: x in items && Eligible(kind, x) && SameChain(x.chain, oldest.chain) && x != oldest ==>
             Older(oldest, x)
    ensures Seeded(kind, items).Some?
    ensures AgentIdFor(Seeded(kind, items).value, oldest.chain) == Trim(oldest.agentId)
  {
    EntriesSorted(kind, items);
    EligibleMembers(kind, items, oldest);
    FirstOnIs(Entries(kind, items), oldest);
    RecordedReads(Entries(kind, items), oldest.chain);
    UsableOnChain(RecordedAll(Entries(kind, items)), oldest.chain);
  }

  /**
    Oldest is the smallest creation time; objects created at once go by the text namespace/name,
    as Go orders strings.
  */
  lemma EarliestWins(kind: Kind, items: seq<Item>, oldest: Item)
    requires oldest in items && Eligible(kind, oldest) && !Blank(oldest.chain)
    requires forall x :: x in items && Eligible(kind, x) && SameChain(x.chain, oldest.chain) && x != oldest ==>
               oldest.created < x.created ||
               (oldest.created == x.created && Before(oldest.ns + "/" + oldest.name, x.ns + "/" + x.name))
    ensures Seeded(kind, items).Some?
    ensures AgentIdFor(Seeded(kind, items).value, oldest.chain) == Trim(oldest.agentId)
  {
    OldestWins(kind, items, oldest);
  }

  /** A chain without an eligible object gets none. */
  lemma OthersStayEmpty(kind: Kind, items: seq<Item>, chain: string)
    requires !Blank(chain)
    requires forall x :: x in items && Eligible(kind, x) ==> !SameChain(x.chain, chain)
    ensures Seeded(kind, items).Some? ==> AgentIdFor(Seeded(kind, items).value, chain) == ""
  {
    EntriesSorted(kind, items);
    forall i | 0 <= i < |Entries(kind, items)|
      ensures !SameChain(Entries(kind, items)[i].chain, chain)
    {
      assert Entries(kind, items)[i] in Entries(kind, items);
    }
    NoneOn(Entries(kind, items), chain);
    RecordedReads(Entries(kind, items), chain);
  }

  // ----- when there is a seed -----

  /** Recording an entry makes the status usable, or leaves it alone for want of a chain. */
  lemma RecordedOne(status: Status, x: Item)
    requires !Blank(x.agentId)
    ensures if Blank(x.chain) then Recorded(status, x) == status else HasRegistrations(Recorded(status, x))
  {
    if !Blank(x.chain) {
      UpsertReads(status, x.chain, x.agentId, x.chain);
      UsableOnChain(Recorded(status, x), x.chain);
    }
  }

  lemma StaysUsable(status: Status, x: Item)
    requires !Blank(x.agentId) && HasRegistrations(status)
    ensures HasRegistrations(Recorded(status, x))
  {
    if !Blank(x.chain) {
      RecordedOne(status, x);
    }
  }

  /** Recording entries with ids gives something usable exactly when one of them has a chain. */
  lemma {:induction false} RecordedUsableIff(items: seq<Item>)
    requires forall x :: x in items ==> !Blank(x.agentId)
    ensures (exists x :: x in items && !Blank(x.chain)) ==> HasRegistrations(RecordedAll(items))
    ensures (forall x :: x in items ==> Blank(x.chain)) ==> RecordedAll(items) == []
  {
    if items == [] {
    } else {
      var n := |items| - 1;
      var earlier, last := items[..n], items[n];
      RecordedUsableIff(earlier);
      assert items == earlier + [last];
      RecordedOne(RecordedAll(earlier), last);
      if exists x :: x in earlier && !Blank(x.chain) {
        StaysUsable(RecordedAll(earlier), last);
      }
    }
  }

  predicate HasId(x: Item) {
    !Blank(x.agentId)
  }

  predicate HasIdAndChain(x: Item) {
    HasId(x) && !Blank(x.chain)
  }

  /** Whether there is a seed of one kind, and whether it is usable. */
  lemma SeededIff(kind: Kind, items: seq<Item>)
    ensures Seeded(Offers, items).Some? <==> exists x :: x in items && HasId(x)
    ensures Seeded(Requests, items).Some? <==> exists x :: x in items && HasIdAndChain(x)
    ensures Seeded(kind, items).Some? ==>
              if exists x :: x in items && HasIdAndChain(x) then HasRegistrations(Seeded(kind, items).value)
              else Seeded(kind, items).value == []
  {
    SomeEligible(Offers, items);
    SomeEligible(Requests, items);
  }

  lemma SomeEligible(kind: Kind, items: seq<Item>)
    ensures EligibleItems(kind, items) != [] <==> exists x :: x in items && Eligible(kind, x)
    ensures var status := RecordedAll(Entries(kind, items));
            if exists x :: x in items && HasIdAndChain(x) then HasRegistrations(status) else status == []
  {
    var entries := Entries(kind, items);
    EntriesSorted(kind, items);
    RecordedUsableIff(entries);
    if exists x :: x in items && HasIdAndChain(x) {
      var x :| x in items && HasIdAndChain(x);
      assert x in entries;
    }
    var eligible := EligibleItems(kind, items);
    if eligible != [] {
      EligibleMembers(kind, items, eligible[0]);
    }
    if x :| x in items && Eligible(kind, x) {
      EligibleMembers(kind, items, x);
    }
  }

  /** The registration requests are looked at exactly when no offer carries an id. */
  lemma RequestsAskedIff(offers: seq<Item>, requests: seq<Item>)
    ensures Seeded(Offers, offers).None? <==> forall x :: x in offers ==> !HasId(x)
    ensures (forall x :: x in offers ==> !HasId(x)) ==> SeedFromCluster(offers, requests) == Seeded(Requests, requests)
  {
    SeededIff(Offers, offers);
  }

  /**
    The seed is usable exactly when an offer has an id and a chain, or no offer has an id and a
    request has both. Offers with ids but no chain between them give an empty seed and keep the
    requests from being looked at.
  */
  lemma SeedUsableIff(offers: seq<Item>, requests: seq<Item>)
    ensures var seed := SeedFromCluster(offers, requests);
            (seed.Some? && HasRegistrations(seed.value) <==>
             (exists x :: x in offers && HasIdAndChain(x)) ||
             ((forall x :: x in offers ==> !HasId(x)) && exists x :: x in requests && HasIdAndChain(x))) &&
            (seed == Some([]) <==>
             (exists x :: x in offers && HasId(x)) && forall x :: x in offers ==> !HasIdAndChain(x))
  {
    SeededIff(Offers, offers);
    SeededIff(Requests, requests);
  }
}
