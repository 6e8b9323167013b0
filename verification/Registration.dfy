/**
  Registering an agent on chain through the remote signer (cmd/obol/sell.go): one pinned
  nonce, and one of three paths: verify the recorded agent, adopt one found by owner and URI,
  or mint.

  Everything outside the call is an oracle: `weather` answers the call's n-th question to the
  network, together with all that happened before the answer. The call looks at the
  AgentIdentity twice, to load it and to patch it; what others have made of it in between
  arrives with the second look.
*/
module Registration {
  import opened Wrappers
  import opened Text
  import opened Decimal
  import opened Registrations
  import opened Chain
  import Seeding

  /** One reply of the network, signer or cluster; each question uses the parts it needs. */
  datatype Answer = Answer(
    acts: seq<Act>,    // what happens first
    fails: bool,       // the reply is an error
    transient: bool,   // ... of a kind worth retrying
    accepted: bool,    // a write takes effect, whatever the reply
    halfway: bool,     // a new identity is created, its status is not written
    others: Option<Status>,      // what others have written to the identity meanwhile
    offers: seq<Seeding.Item>,   // what a missing identity is seeded from
    requests: seq<Seeding.Item>,
    same: bool,        // a read shows that the value to write is there already
    cancels: bool,     // the command is interrupted
    faulty: bool,      // a log search goes wrong: an error or a lagging upstream
    view: nat,         // how much of the log a lagging upstream has seen
    salt: nat,
    number: nat,       // a nonce or a block position
    address: Address)

  datatype Search = Hit(id: TokenId) | Miss | Mismatch | Broken

  datatype Submission = Mined(id: TokenId) | Refused(transient: bool)

  datatype Result =
    | Failed
    | Verified(id: TokenId, metadataOk: bool)
    | Adopted(id: TokenId, metadataOk: bool)
    | Minted(id: TokenId, metadataOk: bool)

  /** The network answers, and that is all that happens. */
  ghost predicate Calm(weather: nat -> Answer) {
    forall n :: weather(n).acts == [] && !weather(n).fails
  }

  /** No reply is an error, no write is lost, nobody interrupts; others may do as they please. */
  ghost predicate Smooth(weather: nat -> Answer) {
    forall n :: !weather(n).fails && !weather(n).cancels && weather(n).accepted
  }

  /** Nobody else writes the AgentIdentity. */
  ghost predicate NobodyElse(weather: nat -> Answer) {
    forall n :: weather(n).others.None?
  }

  /**
    A network that answers, does nothing on its own, and includes the mint `tx` under `id` as
    soon as it is sent; nobody interrupts.
  */
  ghost predicate Including(e: Study, weather: nat -> Answer, tx: Tx, id: TokenId) {
    tx == Tx(e.signer, tx.nonce, e.call, tx.salt, Payload.Register(e.uri)) &&
    forall n :: Helpful(weather(n), tx, id)
  }

  predicate Helpful(a: Answer, tx: Tx, id: TokenId) {
    a.acts == [Mine(tx, true, id)] && a.salt == tx.salt && a.number == tx.nonce &&
    a.accepted && !a.fails && !a.cancels && !a.faulty
  }

  /** `tx` can still be sent and included, and no mint is on chain. */
  ghost predicate Unminted(e: Study, w: World, tx: Tx, id: TokenId) {
    tx !in w.mempool && SlotFree(w, tx) && id !in w.tokens && (forall k :: 0 <= k < |w.log| ==> !MintEvent(e, w.log[k]))
  }

  /** By the time the call writes the AgentIdentity, others have made it `x`. */
  ghost predicate OthersWrote(weather: nat -> Answer, x: Status) {
    forall n :: weather(n).others == Some(x)
  }

  /** The id in the Registered event of `tx`, if it has been included with success. */
  function EventOf(log: seq<Event>, tx: Tx): Option<TokenId> {
    if log == [] then None
    else if log[|log| - 1].tx == tx then Some(log[|log| - 1].id)
    else EventOf(log[..|log| - 1], tx)
  }

  /** Some mint for the signer and URI is in the log from position `from` on. */
  ghost predicate HasMint(e: Study, w: World, start: nat) {
    exists k :: start <= k < |w.log| && MintEvent(e, w.log[k])
  }

  /** `id` was minted by the signer for the URI, and in a steady study the signer holds it. */
  ghost predicate Genuine(e: Study, w: World, id: TokenId) {
    (exists k :: 0 <= k < |w.log| && MintEvent(e, w.log[k]) && w.log[k].id == id) &&
    (e.steady ==> Holds(e, w, id))
  }

  lemma GenuineLater(e: Study, w: World, v: World, id: TokenId)
    requires Moves(e, w, v) && Genuine(e, w, id)
    ensures Genuine(e, v, id)
  {
    var k :| 0 <= k < |w.log| && MintEvent(e, w.log[k]) && w.log[k].id == id;
    assert v.log[k] == w.log[k];
  }

  lemma HasMintLater(e: Study, w: World, v: World, start: nat)
    requires Moves(e, w, v) && HasMint(e, w, start)
    ensures HasMint(e, v, start)
  {
    var k :| start <= k < |w.log| && MintEvent(e, w.log[k]);
    assert v.log[k] == w.log[k];
  }

  lemma MintInSight(e: Study, w: World, logs: seq<Event>, start: nat)
    requires w.log <= logs && HasMint(e, w, start)
    ensures exists k :: start <= k < |logs| && MintEvent(e, logs[k])
  {
    var k :| start <= k < |w.log| && MintEvent(e, w.log[k]);
    assert logs[k] == w.log[k];
  }

  /** All the call has sent in between is `tx`, up to re-signing. */
  ghost predicate SentOnly(e: Study, w: World, v: World, nonce: nat, payload: Payload) {
    forall tx: Tx :: tx.call == e.call && Known(v, tx) && !Known(w, tx) ==>
      tx.sender == e.signer && tx.nonce == nonce && tx.payload == payload
  }

  /** The call has sent writes in between, but no mint. */
  ghost predicate SentNoMint(e: Study, w: World, v: World) {
    forall tx: Tx :: tx.call == e.call && Known(v, tx) && !Known(w, tx) ==>
      tx.sender == e.signer && !tx.payload.Register?
  }

  /** Two writes the call has sent in between have one nonce exactly when they are the same write. */
  ghost predicate SentApart(e: Study, w: World, v: World) {
    forall tx: Tx, t: Tx ::
      tx.call == t.call == e.call && Known(v, tx) && !Known(w, tx) && Known(v, t) && !Known(w, t) ==>
      tx.sender == t.sender == e.signer && (tx.nonce == t.nonce <==> tx.payload == t.payload)
  }

  lemma OnlyThenOnly(e: Study, u: World, v: World, w: World, nonce: nat, first: Payload, second: Payload)
    requires SentOnly(e, u, v, nonce, first) && SentOnly(e, v, w, nonce + 1, second) && first != second
    requires second.SetMetadata?
    ensures SentApart(e, u, w) && SentFrom(e, u, w, nonce)
  {
  }

  /** What the call has sent in between has the nonce `nonce`, or the next one. */
  ghost predicate SentFrom(e: Study, w: World, v: World, nonce: nat) {
    forall tx: Tx :: tx.call == e.call && Known(v, tx) && !Known(w, tx) ==>
      tx.nonce == nonce || (tx.nonce == nonce + 1 && tx.payload.SetMetadata?)
  }

  /**
    Every write of the call has a nonce of its own, which its retries share; in particular all
    mints have one, and no other write has it.
  */
  ghost predicate Pinned(e: Study, w: World) {
    forall tx: Tx, t: Tx :: tx.call == t.call == e.call && Known(w, tx) && Known(w, t) ==>
      tx.sender == t.sender == e.signer && (tx.nonce == t.nonce <==> tx.payload == t.payload) &&
      (tx.payload.Register? ==> tx.payload == Payload.Register(e.uri))
  }

  /** The nonces the call has used: the one it was given, and the next. */
  ghost predicate Numbered(e: Study, w: World, nonce: nat) {
    forall tx: Tx :: tx.call == e.call && Known(w, tx) ==>
      tx.nonce == nonce || (tx.nonce == nonce + 1 && tx.payload.SetMetadata?)
  }

  lemma ApartIsPinned(e: Study, u: World, v: World, w: World, nonce: nat)
    requires Unused(e, u) && Silent(e, u, v) && SentApart(e, v, w) && SentNoMint(e, v, w) && SentFrom(e, v, w, nonce)
    ensures Pinned(e, w) && Numbered(e, w, nonce) && SentNoMint(e, u, w)
  {
    forall tx: Tx | tx.call == e.call && Known(w, tx)
      ensures !Known(v, tx)
    {
      assert Known(v, tx) ==> Known(u, tx);
    }
  }

  /** A write of the call with this payload and nonce has been included and took effect. */
  ghost predicate Written(e: Study, w: World, nonce: nat, payload: Payload) {
    exists tx: Tx ::
      tx in w.done && tx.sender == e.signer && tx.call == e.call && tx.nonce == nonce && tx.payload == payload
  }

  /** Between `w` and `v` the agent had the URI to be registered. */
  ghost predicate UriSeen(e: Study, w: World, v: World, id: TokenId) {
    exists seen :: Moves(e, w, seen) && Moves(e, seen, v) && id in seen.tokens && seen.tokens[id].uri == e.uri
  }

  /** Between `w` and `v` the agent had the x402 metadata. */
  ghost predicate X402Seen(e: Study, w: World, v: World, id: TokenId) {
    exists seen :: Moves(e, w, seen) && Moves(e, seen, v) && id in seen.tokens && seen.tokens[id].x402
  }

  lemma MintThenMetadata(e: Study, u: World, v: World, w: World, nonce: nat, id: TokenId)
    requires Unused(e, u) && SentOnly(e, u, v, nonce, Payload.Register(e.uri))
    requires SentOnly(e, v, w, nonce + 1, SetMetadata(id))
    ensures Pinned(e, w) && Numbered(e, w, nonce)
  {
    forall tx: Tx | tx.call == e.call && Known(w, tx)
      ensures tx.sender == e.signer
      ensures (tx.nonce == nonce && tx.payload == Payload.Register(e.uri)) || (tx.nonce == nonce + 1 &&
              tx.payload == SetMetadata(id))
    {
      assert !Known(u, tx);
    }
  }

  lemma OneWriteIsPinned(e: Study, u: World, v: World, w: World, nonce: nat, id: TokenId)
    requires Unused(e, u) && Silent(e, u, v) && SentOnly(e, v, w, nonce, SetMetadata(id))
    ensures Pinned(e, w) && Numbered(e, w, nonce)
  {
    forall tx: Tx | tx.call == e.call && Known(w, tx)
      ensures tx.sender == e.signer && tx.nonce == nonce && tx.payload == SetMetadata(id)
    {
      assert !Known(u, tx);
      assert Known(v, tx) ==> Known(u, tx);
    }
  }

  /** The URI was current, or the call's own update of it took effect. */
  ghost predicate UriSettled(e: Study, w: World, v: World, nonce: nat, id: TokenId) {
    UriSeen(e, w, v, id) || Written(e, v, nonce, SetUri(id, e.uri))
  }

  /** The metadata was there, or the call's own write of it took effect. */
  ghost predicate X402Settled(e: Study, w: World, v: World, nonce: nat, id: TokenId) {
    X402Done(e, w, v, nonce, id) || Written(e, v, nonce + 1, SetMetadata(id))
  }

  ghost predicate X402Done(e: Study, w: World, v: World, nonce: nat, id: TokenId) {
    X402Seen(e, w, v, id) || Written(e, v, nonce, SetMetadata(id))
  }

  lemma WrittenLater(e: Study, w: World, v: World, nonce: nat, payload: Payload)
    requires Moves(e, w, v) && Written(e, w, nonce, payload)
    ensures Written(e, v, nonce, payload)
  {
  }

  lemma MetadataNext(e: Study, u: World, v: World, w: World, nonce: nat, id: TokenId)
    requires Moves(e, u, v) && X402Done(e, v, w, nonce + 1, id)
    ensures X402Settled(e, u, w, nonce, id)
  {
    if X402Seen(e, v, w, id) {
      var seen :| Moves(e, v, seen) && Moves(e, seen, w) && id in seen.tokens && seen.tokens[id].x402;
      MovesThen(e, u, v, seen);
    }
  }

  lemma UriSettledWithin(e: Study, u: World, w: World, v: World, x: World, nonce: nat, id: TokenId)
    requires Moves(e, u, w) && Moves(e, v, x) && UriSettled(e, w, v, nonce, id)
    ensures UriSettled(e, u, x, nonce, id)
  {
    if UriSeen(e, w, v, id) {
      var seen :| Moves(e, w, seen) && Moves(e, seen, v) && id in seen.tokens && seen.tokens[id].uri == e.uri;
      MovesThen(e, u, w, seen);
      MovesThen(e, seen, v, x);
    } else {
      WrittenLater(e, v, x, nonce, SetUri(id, e.uri));
    }
  }

  lemma X402DoneWithin(e: Study, u: World, w: World, v: World, x: World, nonce: nat, id: TokenId)
    requires Moves(e, u, w) && Moves(e, v, x) && X402Done(e, w, v, nonce, id)
    ensures X402Done(e, u, x, nonce, id)
  {
    if X402Seen(e, w, v, id) {
      var seen :| Moves(e, w, seen) && Moves(e, seen, v) && id in seen.tokens && seen.tokens[id].x402;
      MovesThen(e, u, w, seen);
      MovesThen(e, seen, v, x);
    } else {
      WrittenLater(e, v, x, nonce, SetMetadata(id));
    }
  }

  lemma X402SettledWithin(e: Study, u: World, w: World, v: World, x: World, nonce: nat, id: TokenId)
    requires Moves(e, u, w) && Moves(e, v, x) && X402Settled(e, w, v, nonce, id)
    ensures X402Settled(e, u, x, nonce, id)
  {
    if X402Done(e, w, v, nonce, id) {
      X402DoneWithin(e, u, w, v, x, nonce, id);
    } else {
      WrittenLater(e, v, x, nonce + 1, SetMetadata(id));
    }
  }

  ghost predicate Unused(e: Study, w: World) {
    forall tx :: Known(w, tx) ==> tx.call != e.call
  }

  /** A call and the worlds before and after it. */
  datatype Episode = Episode(e: Study, before: World, after: World)

  /** What RegisterDirect promises of a steady call in which fewer than four searches go wrong. */
  ghost predicate CallDid(c: Episode) {
    Kept(c.e, c.before) && Unused(c.e, c.before) && Kept(c.e, c.after) &&
    Moves(c.e, c.before, c.after) && Pinned(c.e, c.after) &&
    (HasMint(c.e, c.before, 0) ==> SentNoMint(c.e, c.before, c.after))
  }

  lemma SendMoves(e: Study, w: World, tx: Tx, v: World)
    requires Kept(e, w) && tx.call == e.call
    requires v == w || v == w.(mempool := w.mempool + {tx})
    ensures Kept(e, v) && Moves(e, w, v)
    ensures forall t: Tx :: Known(v, t) && !Known(w, t) ==> t == tx
  {
    forall k | 0 <= k < |v.log|
      ensures Emitted(v, v.log[k])
    {
      assert Emitted(w, w.log[k]);
    }
  }

  lemma {:induction false} EventOfIndex(log: seq<Event>, tx: Tx)
    requires EventOf(log, tx).Some?
    ensures exists k :: 0 <= k < |log| && log[k].tx == tx && log[k].id == EventOf(log, tx).value
  {
    var n := |log| - 1;
    if log[n].tx != tx {
      EventOfIndex(log[..n], tx);
      var k :| 0 <= k < n && log[k].tx == tx && log[k].id == EventOf(log, tx).value;
    }
  }

  lemma EventIsGenuine(e: Study, w: World, tx: Tx)
    requires Kept(e, w) && tx.sender == e.signer && tx.payload == Payload.Register(e.uri)
    requires EventOf(w.log, tx).Some?
    ensures Genuine(e, w, EventOf(w.log, tx).value)
  {
    EventOfIndex(w.log, tx);
    var k :| 0 <= k < |w.log| && w.log[k].tx == tx && w.log[k].id == EventOf(w.log, tx).value;
    assert Emitted(w, w.log[k]);
  }

  /** The registrations after a call: at most the one of `chain` has been set. */
  ghost predicate UpdatedFor(before: Status, after: Status, chain: string) {
    after == before || exists id :: after == Upserted(before, chain, Digits(id))
  }

  lemma UpdatedBy(before: Status, chain: string, id: TokenId)
    ensures UpdatedFor(before, Upserted(before, chain, Digits(id)), chain)
    ensures UpdatedFor(before, before, chain)
  {
  }

  /** A seed is usable or empty, so writing only usable ones loses nothing. */
  lemma SeedIsWritten(offers: seq<Seeding.Item>, requests: seq<Seeding.Item>)
    ensures var seed := Seeding.SeedFromCluster(offers, requests);
            seed.Some? ==> seed.value == [] || HasRegistrations(seed.value)
  {
    Seeding.SeededIff(Seeding.Offers, offers);
    Seeding.SeededIff(Seeding.Requests, requests);
  }

  /** What a missing identity is seeded with. */
  function SeedOf(a: Answer): Status {
    match Seeding.SeedFromCluster(a.offers, a.requests)
    case Some(seed) => seed
    case None => []
  }

  /** What is recorded for the chain reads back as the id. */
  lemma RecordReadsBack(before: Status, chain: string, id: TokenId)
    requires !Blank(chain)
    ensures ParseInt(AgentIdFor(Upserted(before, chain, Digits(id)), chain)) == Some(id)
  {
    DigitsParse(id);
    PrintThenParse(id);
    var d := Digits(id);
    assert IsDigit(d[0]) && IsDigit(d[|d| - 1]);
    TrimTrims(d);
    UpsertReads(before, chain, d, chain);
  }

  /** Setting the entry of a chain leaves what every other chain reads. */
  lemma OtherChainsKept(before: Status, after: Status, chain: string, other: string)
    requires UpdatedFor(before, after, chain) && !SameChain(chain, other)
    ensures AgentIdFor(after, other) == AgentIdFor(before, other)
  {
    if after != before && !Blank(chain) {
      var id :| after == Upserted(before, chain, Digits(id));
      DigitsParse(id);
      var d := Digits(id);
      assert IsDigit(d[0]) && IsDigit(d[|d| - 1]);
      TrimTrims(d);
      UpsertReads(before, chain, d, other);
    }
  }

  /**
    A call patches the copy it loaded. What it met under another chain survives exactly when
    nobody has changed it since the identity was loaded.
  */
  lemma OtherChainSurvivesIff(loaded: Status, met: Status, after: Status, chain: string, other: string)
    requires UpdatedFor(loaded, after, chain) && !SameChain(chain, other)
    ensures AgentIdFor(after, other) == AgentIdFor(met, other) <==> AgentIdFor(loaded, other) == AgentIdFor(met, other)
  {
    OtherChainsKept(loaded, after, chain, other);
  }

  /** The world once the mint `tx` is included under `id`. */
  function Included(w: World, tx: Tx, id: TokenId): World {
    Executed(w.(mined := w.mined + [tx]), tx, id)
  }

  lemma NewestEvent(w: World, tx: Tx, id: TokenId)
    requires tx.payload.Register? && id !in w.tokens
    ensures EventOf(Included(w, tx, id).log, tx) == Some(id)
  {
  }

  class Registrar {
    const e: Study
    const weather: nat -> Answer
    ghost const hoped: Tx         // the mint that a helpful network includes,
    ghost const hopedId: TokenId  // and the id it gets
    var clock: nat
    var w: World
    var identity: Option<Status>  // the registrations of the AgentIdentity in the cluster
    var loaded: Status            // the copy of them that the call works on
    ghost var met: Status         // the registrations as the call found them when it last looked
    ghost var seen: World         // the world in which the recorded agent was checked
    ghost var submissions: nat    // how often the call has submitted its mint,
    ghost var retryable: bool     // and whether the last refusal was worth retrying
    var nonce: nat                // the pinned nonce
    var missed: nat               // how many more log searches of this call can go wrong
    var cancelled: bool

    constructor (e: Study, weather: nat -> Answer, w: World, identity: Option<Status>, missed: nat,
        ghost hoped: Tx, ghost hopedId: TokenId)
      ensures this.hoped == hoped && this.hopedId == hopedId
      ensures this.e == e && this.weather == weather && this.w == w && this.identity == identity
      ensures this.missed == missed && !cancelled && clock == 0
    {
      this.e, this.weather, this.w, this.identity, this.missed := e, weather, w, identity, missed;
      clock, nonce, cancelled, loaded := 0, 0, false, [];
      met, seen, submissions, retryable := [], w, 0, false;
      this.hoped, this.hopedId := hoped, hopedId;
    }

    /** The network is helpful, and no mint has been made. */
    ghost predicate Helped(u: World) {
      Including(e, weather, hoped, hopedId) && Unminted(e, u, hoped, hopedId)
    }

    /** A question to the outside: everybody else acts first, then the answer arrives. */
    method Ask() returns (a: Answer)
      requires Kept(e, w)
      modifies this`w, this`clock
      ensures Kept(e, w) && Moves(e, old(w), w) && Silent(e, old(w), w)
      ensures a == weather(old(clock)) && clock == old(clock) + 1
      ensures Including(e, weather, hoped, hopedId) ==>
                Helpful(a, hoped, hopedId) &&
                w ==
                if hoped in old(w).mempool && SlotFree(old(w), hoped) then Included(old(w), hoped, hopedId)
                else old(w)
      ensures Calm(weather) ==> w == old(w)
    {
      a := weather(clock);
      clock := clock + 1;
      ActsMove(e, w, a.acts);
      if Including(e, weather, hoped, hopedId) {
        assert Helpful(a, hoped, hopedId) && a.acts[1..] == [];
      }
      w := ActedAll(e, w, a.acts);
    }

    /** ownerOf; in a steady study reads of the owner are current. */
    method OwnerOf(id: TokenId, canFail: bool) returns (owner: Option<Address>)
      requires Kept(e, w)
      modifies this`w, this`clock
      ensures Kept(e, w) && Moves(e, old(w), w) && Silent(e, old(w), w)
      ensures e.steady && owner == Some(e.signer) ==> Holds(e, w, id)
      ensures e.steady && Holds(e, old(w), id) ==> owner == Some(e.signer) || (canFail && owner.None?)
    {
      var a := Ask();
      if canFail && a.fails {
        return None;
      }
      if e.steady {
        owner := if id in w.tokens then Some(w.tokens[id].owner) else None;
      } else {
        owner := if a.fails then None else Some(a.address);
      }
    }

    /** The candidates of a log search, newest first; reads fail only in a search that goes wrong. */
    method NewestHeld(logs: seq<Event>, start: nat, faulty: bool) returns (r: Search)
      requires Kept(e, w) && logs <= w.log
      modifies this`w, this`clock
      ensures Kept(e, w) && Moves(e, old(w), w) && Silent(e, old(w), w)
      ensures r.Hit? ==> Genuine(e, w, r.id)
      ensures e.steady ==> !r.Mismatch?
      ensures e.steady && !faulty && !r.Hit? ==> forall k :: start <= k < |logs| ==> !MintEvent(e, logs[k])
      ensures (forall k :: 0 <= k < |logs| ==> !MintEvent(e, logs[k])) ==> r.Miss? && w == old(w)
    {
      ghost var u := w;
      var mismatch := false;
      var i: nat := |logs|;
      while i > start
        invariant Kept(e, w) && Moves(e, u, w) && Silent(e, u, w)
        invariant i <= |logs|
        invariant e.steady ==> !mismatch
        invariant (forall k :: 0 <= k < |logs| ==> !MintEvent(e, logs[k])) ==> !mismatch && w == u
        invariant e.steady && !faulty ==> forall k :: i <= k < |logs| ==> !MintEvent(e, logs[k])
      {
        i := i - 1;
        var ev := logs[i];
        assert w.log[i] == ev;
        if ev.owner == e.signer && SameUri(ev.uri, e.uri) {
          ghost var v := w;
          assert e.steady ==> Holds(e, v, ev.id);
          var owner := OwnerOf(ev.id, faulty);
          MovesThen(e, u, v, w);
          if owner.None? {
            return Broken;
          }
          if owner.value == e.signer {
            assert w.log[i] == ev;
            return Hit(ev.id);
          }
          mismatch := true;
        }
      }
      r := if mismatch then Mismatch else Miss;
    }

    /**
      FindRegistrationByOwnerAndURI: Registered events from `start` on; a match is adopted only
      if the registry still reports the signer as its owner.
    */
    method FindRegistration(start: nat) returns (r: Search)
      requires Kept(e, w)
      modifies this`w, this`clock, this`missed
      ensures Kept(e, w) && Moves(e, old(w), w) && Silent(e, old(w), w)
      ensures missed <= old(missed)
      ensures r.Hit? ==> Genuine(e, w, r.id) && !cancelled
      ensures e.steady ==> !r.Mismatch?
      ensures !r.Hit? && e.steady && !cancelled && HasMint(e, old(w), start) ==> missed < old(missed)
      ensures Helped(old(w)) && !old(cancelled) ==>
                r.Miss? && w == old(w)
    {
      ghost var u := w;
      var a := Ask();
      ghost var v := w;
      if cancelled {
        return Broken;
      }
      var faulty := a.faulty && missed > 0;
      if faulty {
        missed := missed - 1;
        if a.fails {
          return Broken;
        }
      }
      var logs := if faulty && a.view < |w.log| then w.log[..a.view] else w.log;
      r := NewestHeld(logs, start, faulty);
      MovesThen(e, u, v, w);
      if !faulty && HasMint(e, u, start) {
        MintInSight(e, u, logs, start);
      }
    }

    /** sleepWithContext */
    method Sleep() returns (go: bool)
      requires Kept(e, w)
      modifies this`w, this`clock, this`cancelled
      ensures Kept(e, w) && Moves(e, old(w), w) && Silent(e, old(w), w)
      ensures old(cancelled) ==> cancelled
      ensures go == !cancelled
      ensures Smooth(weather) && !old(cancelled) ==> !cancelled
      ensures Helped(old(w)) && !old(cancelled) ==>
                !cancelled && w == old(w)
    {
      var a := Ask();
      cancelled := cancelled || a.cancels;
      go := !cancelled;
    }

    /** recoverRegistrationByOwnerAndURI: up to four searches. */
    method Recover(start: nat) returns (found: Option<TokenId>)
      requires Kept(e, w)
      modifies this`w, this`clock, this`missed, this`cancelled
      ensures Kept(e, w) && Moves(e, old(w), w) && Silent(e, old(w), w)
      ensures missed <= old(missed) && (old(cancelled) ==> cancelled)
      ensures found.Some? ==> Genuine(e, w, found.value) && !old(cancelled)
      ensures found.None? && e.steady && !cancelled && HasMint(e, old(w), start) ==> missed + 4 <= old(missed)
      ensures Smooth(weather) && !old(cancelled) ==> !cancelled
      ensures Helped(old(w)) && !old(cancelled) ==>
                found.None? && !cancelled && w == old(w)
    {
      ghost var u := w;
      for attempt := 1 to 5
        invariant Kept(e, w) && Moves(e, u, w) && Silent(e, u, w)
        invariant missed <= old(missed) && (old(cancelled) ==> cancelled)
        invariant Smooth(weather) && !old(cancelled) ==> !cancelled
        invariant Helped(u) && !old(cancelled) ==> !cancelled && w == u
        invariant e.steady && !cancelled && HasMint(e, u, start) ==> missed + (attempt - 1) <= old(missed)
      {
        ghost var v := w;
        var r := FindRegistration(start);
        MovesThen(e, u, v, w);
        if HasMint(e, u, start) {
          HasMintLater(e, u, v, start);
        }
        if r.Hit? {
          return Some(r.id);
        }
        if r.Mismatch? {
          return None;
        }
        ghost var x := w;
        var go := Sleep();
        MovesThen(e, u, x, w);
        if !go {
          return None;
        }
      }
      found := None;
    }

    /** RegisterWithOptsDetailed: sign with the pinned nonce, send, wait for the receipt. */
    method Register() returns (r: Submission)
      requires Kept(e, w)
      modifies this`submissions, this`retryable
      modifies this`w, this`clock
      ensures Kept(e, w) && Moves(e, old(w), w) && SentOnly(e, old(w), w, nonce, Payload.Register(e.uri))
      ensures cancelled ==> Silent(e, old(w), w)
      ensures r.Mined? ==> Genuine(e, w, r.id) && !cancelled
      ensures Helped(old(w)) && !cancelled && nonce == hoped.nonce ==> r == Mined(hopedId)
      ensures submissions == old(submissions) + 1 && (r.Refused? ==> retryable == r.transient)
    {
      ghost var u := w;
      submissions := submissions + 1;
      var a := Ask();
      if cancelled {
        retryable := a.transient;
        return Refused(a.transient);
      }
      ghost var v := w;
      var tx := Tx(e.signer, nonce, e.call, a.salt, Payload.Register(e.uri));
      if a.accepted {
        w := w.(mempool := w.mempool + {tx});
      }
      SendMoves(e, v, tx, w);
      MovesThen(e, u, v, w);
      ghost var x := w;
      r := AwaitMint(tx);
      MovesThen(e, u, x, w);
    }

    /** WaitMined, and the Registered event of the receipt. */
    method AwaitMint(tx: Tx) returns (r: Submission)
      requires Kept(e, w) && tx.sender == e.signer && tx.payload == Payload.Register(e.uri)
      modifies this`retryable
      modifies this`w, this`clock
      ensures Kept(e, w) && Moves(e, old(w), w) && Silent(e, old(w), w)
      ensures r.Mined? ==> Genuine(e, w, r.id)
      ensures r.Refused? ==> retryable == r.transient
      ensures Including(e, weather, hoped, hopedId) && tx == hoped && CanMint(old(w)) ==> r == Mined(hopedId)
    {
      ghost var x := w;
      var b := Ask();
      retryable := b.transient;
      if b.fails {
        return Refused(b.transient);
      }
      if Including(e, weather, hoped, hopedId) && CanMint(x) {
        NewestEvent(x, hoped, hopedId);
      }
      var id := EventOf(w.log, tx);
      if id.None? {
        return Refused(b.transient);
      }
      EventIsGenuine(e, w, tx);
      r := Mined(id.value);
    }

    /** The hoped-for mint is on its way and can be included. */
    ghost predicate CanMint(u: World) {
      hoped in u.mempool && SlotFree(u, hoped) && hopedId !in u.tokens
    }

    /** registerWithRecovery: up to three submissions with the same nonce, a log search after each failure. */
    method RegisterWithRecovery(start: nat) returns (id: Option<TokenId>, ghost last: World)
      requires Kept(e, w)
      modifies this`submissions, this`retryable
      modifies this`w, this`clock, this`missed, this`cancelled
      ensures Kept(e, w) && Moves(e, old(w), w) && SentOnly(e, old(w), w, nonce, Payload.Register(e.uri))
      ensures old(cancelled) ==> Silent(e, old(w), w)
      ensures id.Some? ==> Genuine(e, w, id.value) && !old(cancelled)
      ensures Helped(old(w)) && !old(cancelled) && nonce == hoped.nonce ==> id == Some(hopedId)
      // it gives up only after three submissions or a refusal that is not worth retrying ...
      ensures submissions <= old(submissions) + 3
      ensures id.None? && !cancelled ==> submissions == old(submissions) + 3 || !retryable
      // ... and a search, begun when everything was sent, that found no mint or went wrong four times
      ensures missed <= old(missed)
      ensures id.None? ==> Moves(e, last, w) && Silent(e, last, w)
      ensures id.None? && e.steady && !cancelled && HasMint(e, last, start) ==> missed + 4 <= old(missed)
    {
      ghost var u := w;
      id, last := None, w;
      for attempt := 1 to 4
        invariant id.None?
        invariant submissions == old(submissions) + (attempt - 1) && missed <= old(missed)
        invariant attempt > 1 ==> Moves(e, last, w) && Silent(e, last, w)
        invariant attempt > 1 && e.steady && !cancelled && HasMint(e, last, start) ==> missed + 4 <= old(missed)
        invariant Helped(u) && !old(cancelled) && nonce == hoped.nonce ==> attempt == 1 && w == u && !cancelled
        invariant Kept(e, w) && Moves(e, u, w) && SentOnly(e, u, w, nonce, Payload.Register(e.uri))
        invariant old(cancelled) ==> cancelled && Silent(e, u, w)
      {
        ghost var v := w;
        var transient;
        id, transient, last := SubmitAndSearch(start);
        MovesThen(e, u, v, w);
        if id.Some? || attempt == 3 || !transient {
          return;
        }
        ghost var y := w;
        var go := Sleep();
        MovesThen(e, u, y, w);
        MovesThen(e, last, y, w);
        if !go {
          return;
        }
      }
    }

    /** One attempt: submit, and search the log when that fails. */
    method SubmitAndSearch(start: nat) returns (id: Option<TokenId>, transient: bool, ghost last: World)
      requires Kept(e, w)
      modifies this`submissions, this`retryable
      modifies this`w, this`clock, this`missed, this`cancelled
      ensures Kept(e, w) && Moves(e, old(w), w) && SentOnly(e, old(w), w, nonce, Payload.Register(e.uri))
      ensures old(cancelled) ==> cancelled && Silent(e, old(w), w)
      ensures id.Some? ==> Genuine(e, w, id.value) && !old(cancelled)
      ensures Helped(old(w)) && !old(cancelled) && nonce == hoped.nonce ==> id == Some(hopedId)
      ensures submissions == old(submissions) + 1 && missed <= old(missed) && (id.None? ==> retryable == transient)
      ensures id.None? ==> Moves(e, last, w) && Silent(e, last, w)
      ensures id.None? && e.steady && !cancelled && HasMint(e, last, start) ==> missed + 4 <= old(missed)
    {
      ghost var u := w;
      var r := Register();
      last := w;
      if r.Mined? {
        return Some(r.id), false, w;
      }
      transient := r.transient;
      id := Recover(start);
      MovesThen(e, u, last, w);
    }

    /** SetAgentURIWithOpts and SetMetadataWithOpts; a metadata write of the current value is skipped. */
    method Write(payload: Payload) returns (ok: bool)
      requires Kept(e, w) && !payload.Register?
      modifies this`w, this`clock
      ensures Kept(e, w) && Moves(e, old(w), w) && SentOnly(e, old(w), w, nonce, payload)
      ensures Calm(weather) ==> w.tokens == old(w).tokens
      ensures ok && !payload.SetMetadata? ==> Written(e, w, nonce, payload)
      ensures ok && payload.SetMetadata? ==>
                X402Seen(e, old(w), w, payload.agent) || Written(e, w, nonce, payload)
    {
      ghost var u := w;
      var a := Ask();
      if cancelled {
        return false;
      }
      if payload.SetMetadata? && a.same && payload.agent in w.tokens && w.tokens[payload.agent].x402 {
        return true;
      }
      ghost var v := w;
      var tx := Tx(e.signer, nonce, e.call, a.salt, payload);
      if a.accepted {
        w := w.(mempool := w.mempool + {tx});
      }
      SendMoves(e, v, tx, w);
      MovesThen(e, u, v, w);
      ghost var x := w;
      var b := Ask();
      MovesThen(e, u, x, w);
      ok := !b.fails && tx in w.done;
    }

    /** applyAgentIdentity: the patch replaces all registrations; it may land and still report an error. */
    method ApplyIdentity(updated: Status) returns (ok: bool)
      requires Kept(e, w) && identity == Some(met)
      modifies this`w, this`clock, this`identity, this`met
      ensures Kept(e, w) && Moves(e, old(w), w) && Silent(e, old(w), w)
      ensures var a := weather(old(clock));
              met == (if a.others.Some? then a.others.value else old(met)) &&
              identity == Some(if a.accepted then updated else met) && ok == (a.accepted && !a.fails)
    {
      var a := Ask();
      if a.others.Some? {
        identity := a.others;
        met := a.others.value;
      }
      if a.accepted {
        identity := Some(updated);
      }
      ok := a.accepted && !a.fails;
    }

    /** ensureAgentIdentity: loads the identity; a missing one is seeded from the cluster and created. */
    method EnsureIdentity() returns (ok: bool)
      requires Kept(e, w)
      modifies this`w, this`clock, this`identity, this`loaded, this`met
      ensures Kept(e, w) && Moves(e, old(w), w) && Silent(e, old(w), w)
      ensures old(identity).Some? ==> identity == old(identity) && met == old(met) && (ok ==>
              loaded == old(identity).value)
      ensures ok ==> identity == Some(loaded) && (old(identity).None? ==> met == loaded)
      ensures ok && old(identity).None? ==> loaded == SeedOf(weather(old(clock)))
      ensures Smooth(weather) ==> ok
      ensures Helped(old(w)) ==> w == old(w) && ok
      ensures Calm(weather) ==> w == old(w) && (old(identity).Some? ==> ok)
    {
      ghost var u := w;
      var a := Ask();
      if a.fails {
        return false;
      }
      if identity.Some? {
        loaded := identity.value;
        return true;
      }
      var seed := Seeding.SeedFromCluster(a.offers, a.requests);
      loaded := if seed.Some? then seed.value else [];
      SeedIsWritten(a.offers, a.requests);
      ghost var v := w;
      var b := Ask();
      MovesThen(e, u, v, w);
      if b.accepted {
        identity := Some(if HasRegistrations(loaded) then loaded else []);
      } else if b.halfway {
        identity := Some([]);
      }
      met := loaded;
      ok := b.accepted && !b.fails;
    }

    /** The recorded agent: check who controls it, bring its URI up to date. */
    method VerifyExisting(recorded: string) returns (result: Result)
      requires Kept(e, w)
      modifies this`w, this`clock, this`nonce, this`seen
      ensures Kept(e, w) && Moves(e, old(w), w) && SentNoMint(e, old(w), w)
      ensures result.Failed? || result.Verified?
      // success means that the registry named the signer as the wallet of the recorded agent ...
      ensures result.Verified? ==> ParseInt(recorded) == Some(result.id as int) && Checked(old(w), result.id)
      // ... which it always is in a calm network, if the URI is current, whoever the owner is
      ensures Calm(weather) ==> w.tokens == old(w).tokens
      ensures Calm(weather) && UriIsCurrent(old(w), recorded) ==>
                (result.Verified? <==> old(w).tokens[ParseInt(recorded).value].wallet == e.signer)
      // the URI is current or has been updated, each write of the call under a nonce of its own
      ensures SentApart(e, old(w), w) && SentFrom(e, old(w), w, old(nonce))
      ensures result.Verified? ==> UriSettled(e, old(w), w, old(nonce), result.id)
      ensures result.Verified? && result.metadataOk ==> X402Settled(e, old(w), w, old(nonce), result.id)
    {
      ghost var u := w;
      var parsed := ParseInt(recorded);
      if parsed.None? || parsed.value < 0 {
        return Failed;
      }
      var id: TokenId := parsed.value;
      var a := Ask();
      if a.fails || id !in w.tokens || w.tokens[id].wallet != e.signer {
        return Failed;
      }
      seen := w;
      result := Update(id);
      MovesThen(e, u, seen, w);
      if result.Verified? {
        UriSettledWithin(e, u, seen, w, w, old(nonce), id);
        if result.metadataOk {
          X402SettledWithin(e, u, seen, w, w, old(nonce), id);
        }
      }
    }

    /** In the course of the call the registry named the signer as the wallet of `id`. */
    ghost predicate Checked(before: World, id: TokenId)
      reads this`w, this`seen
    {
      Moves(e, before, seen) && Moves(e, seen, w) && id in seen.tokens && seen.tokens[id].wallet == e.signer
    }

    /** The recorded agent exists and has the URI to be registered. */
    ghost predicate UriIsCurrent(w: World, recorded: string) {
      ParseInt(recorded).Some? && ParseInt(recorded).value >= 0 &&
      ParseInt(recorded).value in w.tokens && w.tokens[ParseInt(recorded).value].uri == e.uri
    }

    /** Its second half: setAgentURI when the URI differs, then the metadata. */
    method Update(id: TokenId) returns (result: Result)
      requires Kept(e, w)
      modifies this`w, this`clock, this`nonce
      ensures Kept(e, w) && Moves(e, old(w), w) && SentNoMint(e, old(w), w)
      ensures result == Failed || (result.Verified? && result.id == id)
      ensures Calm(weather) ==> w.tokens == old(w).tokens
      ensures Calm(weather) && id in old(w).tokens && old(w).tokens[id].uri == e.uri ==> result.Verified?
      ensures SentApart(e, old(w), w) && SentFrom(e, old(w), w, old(nonce))
      ensures result.Verified? ==> UriSettled(e, old(w), w, old(nonce), id)
      ensures result.Verified? && result.metadataOk ==> X402Settled(e, old(w), w, old(nonce), id)
    {
      ghost var u := w;
      var current := UpdateUri(id);
      if !current {
        return Failed;
      }
      ghost var x := w;
      var ok := Write(SetMetadata(id));
      MovesThen(e, u, x, w);
      UriSettledWithin(e, u, u, x, w, old(nonce), id);
      if nonce == old(nonce) + 1 {
        OnlyThenOnly(e, u, x, w, old(nonce), SetUri(id, e.uri), SetMetadata(id));
      }
      if ok && nonce == old(nonce) {
        X402DoneWithin(e, u, x, w, w, nonce, id);
      } else if ok {
        MetadataNext(e, u, x, w, old(nonce), id);
      }
      result := Verified(id, ok);
    }

    /** Brings the URI up to date; only a write of it moves the nonce on. */
    method UpdateUri(id: TokenId) returns (ok: bool)
      requires Kept(e, w)
      modifies this`w, this`clock, this`nonce
      ensures Kept(e, w) && Moves(e, old(w), w) && SentOnly(e, old(w), w, old(nonce), SetUri(id, e.uri))
      ensures nonce == old(nonce) || nonce == old(nonce) + 1
      ensures ok && nonce == old(nonce) ==> Silent(e, old(w), w)
      ensures ok ==> UriSettled(e, old(w), w, old(nonce), id)
      ensures Calm(weather) ==> w.tokens == old(w).tokens
      ensures Calm(weather) && id in old(w).tokens && old(w).tokens[id].uri == e.uri ==> ok
    {
      ghost var u := w;
      var b := Ask();
      if b.fails || id !in w.tokens {
        return false;
      }
      ok := w.tokens[id].uri == e.uri;
      if !ok {
        ghost var v := w;
        ok := Write(SetUri(id, e.uri));
        MovesThen(e, u, v, w);
        if ok {
          nonce := nonce + 1;
        }
      }
    }

    /** WaitForAgent, whose outcome is only reported, then the x402 metadata. */
    method RefreshMetadata(id: TokenId) returns (ok: bool)
      requires Kept(e, w) && Genuine(e, w, id)
      modifies this`w, this`clock
      ensures Kept(e, w) && Moves(e, old(w), w) && SentOnly(e, old(w), w, nonce, SetMetadata(id))
      ensures Genuine(e, w, id)
      ensures ok ==> X402Done(e, old(w), w, nonce, id)
    {
      ghost var u := w;
      var _ := Ask();
      ghost var v := w;
      ok := Write(SetMetadata(id));
      MovesThen(e, u, v, w);
      if ok {
        X402DoneWithin(e, u, v, w, w, nonce, id);
      }
      GenuineLater(e, u, w, id);
    }

    /** Records the agent for `chain` in the AgentIdentity. */
    method Record(chain: string, id: TokenId) returns (ok: bool)
      requires Kept(e, w) && Genuine(e, w, id) && identity == Some(met)
      modifies this`w, this`clock, this`identity, this`met
      ensures Kept(e, w) && Moves(e, old(w), w) && Silent(e, old(w), w)
      ensures Genuine(e, w, id)
      ensures Patched(old(met), chain)
      ensures ok ==> identity == Some(Upserted(loaded, chain, Digits(id)))
      ensures forall x :: OthersWrote(weather, x) ==> met == x
      ensures var a := weather(old(clock)); a.accepted && !a.fails ==> ok
    {
      ghost var u := w;
      var updated := Upsert(loaded, chain, Digits(id));
      UpdatedBy(loaded, chain, id);
      ok := ApplyIdentity(updated);
      GenuineLater(e, u, w, id);
    }

    /**
      The identity after a call that found `before` in it: what others have made of it, or the
      copy loaded with the entry of `chain` set.
    */
    ghost predicate Patched(before: Status, chain: string)
      reads this`identity, this`met, this`loaded
    {
      identity.Some? && (identity.value == met || UpdatedFor(loaded, identity.value, chain)) &&
      (NobodyElse(weather) ==> met == before)
    }

    /** An agent found by owner and URI: record it, refresh its metadata. */
    method Adopt(chain: string, id: TokenId) returns (result: Result)
      requires Kept(e, w) && Genuine(e, w, id) && identity == Some(met)
      modifies this`w, this`clock, this`identity, this`met
      ensures Kept(e, w) && Moves(e, old(w), w) && SentNoMint(e, old(w), w)
      ensures SentOnly(e, old(w), w, nonce, SetMetadata(id))
      ensures result.Adopted? && result.metadataOk ==> X402Done(e, old(w), w, nonce, id)
      ensures Patched(old(met), chain)
      ensures result == Failed || (result.Adopted? && result.id == id)
      ensures result.Adopted? ==> Genuine(e, w, id) && identity == Some(Upserted(loaded, chain, Digits(id)))
      ensures forall x :: OthersWrote(weather, x) ==> met == x
      ensures var a := weather(old(clock)); a.accepted && !a.fails ==> result.Adopted?
    {
      ghost var u := w;
      var applied := Record(chain, id);
      if !applied {
        return Failed;
      }
      ghost var v := w;
      var ok := RefreshMetadata(id);
      MovesThen(e, u, v, w);
      if ok {
        X402DoneWithin(e, u, v, w, w, nonce, id);
      }
      result := Adopted(id, ok);
    }

    /** The mint itself, up to the point where the nonce moves on. */
    method MintOnce() returns (minted: Option<TokenId>)
      requires Kept(e, w)
      modifies this`submissions, this`retryable
      modifies this`w, this`clock, this`nonce, this`missed, this`cancelled
      ensures Kept(e, w) && Moves(e, old(w), w) && SentOnly(e, old(w), w, old(nonce), Payload.Register(e.uri))
      ensures old(cancelled) ==> Silent(e, old(w), w)
      ensures minted.Some? ==> Genuine(e, w, minted.value) && nonce == old(nonce) + 1 && !old(cancelled)
      ensures Helped(old(w)) && !old(cancelled) && old(nonce) == hoped.nonce ==> minted == Some(hopedId)
    {
      ghost var u := w;
      var a := Ask();
      ghost var v := w;
      var start := if a.fails then 0 else a.number;
      ghost var last;
      minted, last := RegisterWithRecovery(start);
      MovesThen(e, u, v, w);
      if minted.Some? {
        nonce := nonce + 1;
      }
    }

    /** What follows a mint: wait, metadata, and the record. */
    method FinishMint(chain: string, id: TokenId) returns (result: Result)
      requires Kept(e, w) && Genuine(e, w, id) && identity == Some(met)
      modifies this`w, this`clock, this`identity, this`met
      ensures Kept(e, w) && Moves(e, old(w), w) && SentOnly(e, old(w), w, nonce, SetMetadata(id))
      ensures Patched(old(met), chain)
      ensures result == Failed || (result.Minted? && result.id == id)
      ensures Smooth(weather) ==> result.Minted?
      ensures result.Minted? && result.metadataOk ==> X402Done(e, old(w), w, nonce, id)
      ensures forall x :: OthersWrote(weather, x) ==> met == x
      ensures result.Minted? ==> Genuine(e, w, id) && identity == Some(Upserted(loaded, chain, Digits(id)))
    {
      ghost var u := w;
      var ok := RefreshMetadata(id);
      ghost var v := w;
      var applied := Record(chain, id);
      MovesThen(e, u, v, w);
      if ok {
        X402DoneWithin(e, u, u, v, w, nonce, id);
      }
      result := if applied then Minted(id, ok) else Failed;
    }

    /** A fresh mint; every later write of the call takes the next nonce. */
    method Mint(chain: string) returns (result: Result)
      requires Kept(e, w)
      requires Unused(e, w) && identity == Some(met)
      modifies this`submissions, this`retryable
      modifies this`w, this`clock, this`identity, this`met, this`nonce, this`missed, this`cancelled
      ensures Kept(e, w) && Moves(e, old(w), w) && Pinned(e, w) && Numbered(e, w, old(nonce))
      ensures result.Minted? && result.metadataOk ==> X402Settled(e, old(w), w, old(nonce), result.id)
      ensures old(cancelled) ==> SentNoMint(e, old(w), w)
      ensures Patched(old(met), chain)
      ensures result == Failed || result.Minted?
      ensures Helped(old(w)) && !old(cancelled) && old(nonce) == hoped.nonce ==> result.Minted? && result.id == hopedId
      ensures result.Minted? ==> forall x :: OthersWrote(weather, x) ==> met == x
      ensures result.Minted? ==>
                Genuine(e, w, result.id) &&
                identity == Some(Upserted(loaded, chain, Digits(result.id)))
    {
      ghost var u := w;
      var minted := MintOnce();
      if minted.None? {
        return Failed;
      }
      ghost var v := w;
      result := FinishMint(chain, minted.value);
      MovesThen(e, u, v, w);
      MintThenMetadata(e, u, v, w, old(nonce), minted.value);
      if result.Minted? && result.metadataOk {
        MetadataNext(e, u, v, w, old(nonce), minted.value);
      }
    }

    /** No agent is recorded: search from genesis, and mint only when nothing is found. */
    method RegisterUnrecorded(chain: string) returns (result: Result)
      requires Kept(e, w)
      requires Unused(e, w) && identity == Some(met)
      modifies this`submissions, this`retryable
      modifies this`w, this`clock, this`identity, this`met, this`nonce, this`missed, this`cancelled
      ensures Kept(e, w) && Moves(e, old(w), w) && Pinned(e, w) && Numbered(e, w, old(nonce))
      ensures result != Failed && result.metadataOk ==> X402Settled(e, old(w), w, old(nonce), result.id)
      ensures e.steady && HasMint(e, old(w), 0) && old(missed) < 4 ==> SentNoMint(e, old(w), w)
      ensures Patched(old(met), chain)
      ensures e.steady && HasMint(e, old(w), 0) && old(missed) < 4 && Smooth(weather) && !old(cancelled) ==>
              result.Adopted?
      ensures Helped(old(w)) && !old(cancelled) && old(nonce) == hoped.nonce ==> result.Minted? && result.id == hopedId
      ensures result == Failed || result.Adopted? || result.Minted?
      ensures result != Failed ==> forall x :: OthersWrote(weather, x) ==> met == x
      ensures result != Failed ==>
                Genuine(e, w, result.id) &&
                identity == Some(Upserted(loaded, chain, Digits(result.id)))
    {
      ghost var u := w;
      var found := Recover(0);
      ghost var v := w;
      if found.Some? {
        result := Adopt(chain, found.value);
        OneWriteIsPinned(e, u, v, w, nonce, found.value);
      } else {
        result := Mint(chain);
      }
      MovesThen(e, u, v, w);
      if result != Failed && result.metadataOk {
        X402SettledWithin(e, u, v, w, w, old(nonce), result.id);
      }
    }

    /** Reads the nonce once and loads the AgentIdentity. */
    method Prepare() returns (ready: bool)
      requires Kept(e, w)
      modifies this`w, this`clock, this`nonce, this`identity, this`loaded, this`met
      ensures Kept(e, w) && Moves(e, old(w), w) && Silent(e, old(w), w)
      ensures old(identity).Some? ==> identity == old(identity) && met == old(met) && (ready ==>
              loaded == old(identity).value)
      ensures ready ==> identity == Some(loaded) && (old(identity).None? ==> met == loaded)
      ensures ready && old(identity).None? ==> loaded == SeedOf(weather(old(clock) + 1))
      ensures Smooth(weather) ==> ready
      ensures ready ==> nonce == weather(old(clock)).number
      ensures Helped(old(w)) ==> w == old(w) && nonce == hoped.nonce && ready
      ensures Calm(weather) ==> w == old(w) && (old(identity).Some? ==> ready)
    {
      ghost var u := w;
      var a := Ask();
      if a.fails {
        return false;
      }
      nonce := a.number;
      ghost var v := w;
      ready := EnsureIdentity();
      MovesThen(e, u, v, w);
    }

    /** The three paths, once the identity is loaded; `u` is the world in which the call began. */
    method RegisterLoaded(chain: string, ghost u: World) returns (result: Result)
      requires Kept(e, w) && Kept(e, u) && Unused(e, u) && Moves(e, u, w) && Silent(e, u, w)
      requires identity == Some(met) == Some(loaded)
      modifies this`submissions, this`retryable
      modifies this`w, this`clock, this`identity, this`met, this`seen, this`nonce, this`missed, this`cancelled
      ensures Kept(e, w) && Moves(e, u, w) && Pinned(e, w) && Numbered(e, w, old(nonce))
      ensures result.Verified? ==> UriSettled(e, u, w, old(nonce), result.id)
      ensures result != Failed && result.metadataOk ==> X402Settled(e, u, w, old(nonce), result.id)
      ensures AgentIdFor(loaded, chain) != "" || (e.steady && HasMint(e, u, 0) && old(missed) < 4) ==>
              SentNoMint(e, u, w)
      ensures Patched(loaded, chain)
      ensures result.Adopted? || result.Minted? ==>
                AgentIdFor(loaded, chain) == "" && Genuine(e, w, result.id) &&
                identity == Some(Upserted(loaded, chain, Digits(result.id)))
      ensures result.Adopted? || result.Minted? ==> forall x :: OthersWrote(weather, x) ==> met == x
      ensures result.Verified? ==>
                identity == Some(loaded) && ParseInt(AgentIdFor(loaded, chain)) == Some(result.id as int) &&
                Checked(u, result.id)
      ensures result != Failed && !Blank(chain) ==>
                identity.Some? && ParseInt(AgentIdFor(identity.value, chain)) == Some(result.id as int)
      ensures Calm(weather) && UriIsCurrent(old(w), AgentIdFor(loaded, chain)) ==>
                w.tokens == old(w).tokens &&
                (result.Verified? <==> old(w).tokens[ParseInt(AgentIdFor(loaded, chain)).value].wallet == e.signer)
      ensures Smooth(weather) && e.steady && HasMint(e, u, 0) && old(missed) < 4 && !old(cancelled) &&
              AgentIdFor(loaded, chain) == "" ==>
                result.Adopted?
      ensures Helped(u) && old(w) == u && !old(cancelled) && old(nonce) == hoped.nonce &&
              AgentIdFor(loaded, chain) == "" ==>
                result.Minted? && result.id == hopedId
    {
      ghost var v := w;
      var recorded := AgentIdFor(loaded, chain);
      if recorded != "" {
        result := VerifyExisting(recorded);
        ApartIsPinned(e, u, v, w, old(nonce));
        if result.Verified? {
          MovesThen(e, u, v, seen);
          UriSettledWithin(e, u, v, w, w, old(nonce), result.id);
        }
      } else {
        if HasMint(e, u, 0) {
          HasMintLater(e, u, v, 0);
        }
        result := RegisterUnrecorded(chain);
        if result != Failed && !Blank(chain) {
          RecordReadsBack(loaded, chain, result.id);
        }
      }
      MovesThen(e, u, v, w);
      if result != Failed && result.metadataOk {
        X402SettledWithin(e, u, v, w, w, old(nonce), result.id);
      }
    }

    /** registerDirectViaSigner */
    method RegisterDirect(chain: string) returns (result: Result)
      requires Kept(e, w)
      requires Unused(e, w)
      modifies this`submissions, this`retryable
      modifies this`w, this`clock, this`identity, this`loaded, this`met, this`seen
      modifies this`nonce, this`missed, this`cancelled
      // one mint at most, and its nonce is out of reach of the call's other writes
      ensures Kept(e, w) && Moves(e, old(w), w) && Pinned(e, w) && Numbered(e, w, weather(old(clock)).number)
      // no mint when one is recorded, nor when one is on chain and a search can see it
      ensures AgentIdFor(loaded, chain) != "" ==> SentNoMint(e, old(w), w)
      ensures e.steady && old(missed) < 4 ==> CallDid(Episode(e, old(w), w))
      // what is recorded
      ensures old(identity).Some? ==> Patched(old(identity).value, chain)
      ensures old(identity).Some? && (result != Failed || Smooth(weather)) ==> loaded == old(identity).value
      ensures result != Failed ==> Patched(loaded, chain)
      ensures result.Adopted? || result.Minted? ==>
                AgentIdFor(loaded, chain) == "" && Genuine(e, w, result.id) &&
                identity == Some(Upserted(loaded, chain, Digits(result.id)))
      ensures result.Adopted? || result.Minted? ==> forall x :: OthersWrote(weather, x) ==> met == x
      ensures result.Verified? ==>
                identity == Some(loaded) && ParseInt(AgentIdFor(loaded, chain)) == Some(result.id as int) &&
                Checked(old(w), result.id)
      // what success means
      ensures result.Verified? ==> UriSettled(e, old(w), w, weather(old(clock)).number, result.id)
      ensures result != Failed && result.metadataOk ==>
                X402Settled(e, old(w), w, weather(old(clock)).number, result.id)
      ensures result != Failed && !Blank(chain) ==>
                identity.Some? && ParseInt(AgentIdFor(identity.value, chain)) == Some(result.id as int)
      ensures result != Failed && e.steady && (result.Verified? ==> Holds(e, seen, result.id)) ==>
              Holds(e, w, result.id)
      // when it succeeds
      ensures Calm(weather) && old(identity).Some? && UriIsCurrent(old(w), AgentIdFor(old(identity).value, chain)) ==>
                w.tokens == old(w).tokens &&
                (result.Verified? <==>
                 old(w).tokens[ParseInt(AgentIdFor(old(identity).value, chain)).value].wallet == e.signer)
      ensures Smooth(weather) && e.steady && HasMint(e, old(w), 0) && old(missed) < 4 && !old(cancelled) &&
              AgentIdFor(loaded, chain) == "" ==>
                result.Adopted?
      ensures Helped(old(w)) && !old(cancelled) && AgentIdFor(loaded, chain) == "" ==>
                result.Minted? && result.id == hopedId
    {
      met := if identity.Some? then identity.value else [];
      ghost var u := w;
      var ready := Prepare();
      result := Failed;
      if ready {
        result := RegisterLoaded(chain, u);
      }
    }
  }
}
