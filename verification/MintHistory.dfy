/**
  Mints over whole histories: one call never gets two mints included, and over any sequence of
  calls for one signer and URI at most one token is ever minted, provided each earlier mint has
  settled before the next call starts and fewer than four log searches of a call go wrong.
*/
module MintHistory {
  import opened Wrappers
  import opened Text
  import opened Decimal
  import opened Registrations
  import opened Chain
  import opened Registration

  // ----- one call -----

  /**
    After a call that left its transactions pinned, whatever happens next and for however long,
    at most one of its mints is included, and no other write of the call takes that nonce.
  */
  lemma OneMintPerCall(e: Study, w: World, acts: seq<Act>, i: nat, j: nat)
    requires Kept(e, w) && Pinned(e, w)
    requires var mined := ActedAll(e, w, acts).mined;
             i < |mined| && j < |mined| && mined[i].call == mined[j].call == e.call && mined[i].payload.Register?
    ensures var mined := ActedAll(e, w, acts).mined;
            (mined[j].payload.Register? ==> i == j) && (i != j ==> mined[j].nonce != mined[i].nonce)
  {
    ActsMove(e, w, acts);
    var v := ActedAll(e, w, acts);
    var a, b := v.mined[i], v.mined[j];
    assert Known(v, a) && Known(v, b);
    assert Known(w, a) && Known(w, b);
    if i < j {
      assert v.mined[i].sender != v.mined[j].sender || v.mined[i].nonce != v.mined[j].nonce;
    } else if j < i {
      assert v.mined[j].sender != v.mined[i].sender || v.mined[j].nonce != v.mined[i].nonce;
    }
  }

  // ----- runs that end otherwise than documented -----

  /**
    The check of a recorded agent reads getAgentWallet, not ownerOf. In a calm network, with the
    URI current, a call succeeds exactly when the wallet is the signer, and leaves the signer
    with the token exactly when it is the owner. Owner and wallet can part (HandedOver), so a
    call can succeed on a token that somebody else owns.
  */
  method RecordedAgentRun(r: Registrar, chain: string, id: TokenId) returns (result: Registration.Result)
    requires Kept(r.e, r.w) && Unused(r.e, r.w) && Calm(r.weather) && !Blank(chain)
    requires r.identity == Some([Registrations.Registration(chain, Digits(id))])
    requires id in r.w.tokens && r.w.tokens[id].uri == r.e.uri
    modifies r
    ensures result.Verified? <==> old(r.w).tokens[id].wallet == r.e.signer
    ensures Holds(r.e, r.w, id) <==> old(r.w).tokens[id].owner == r.e.signer
  {
    RecordedReads(chain, id);
    result := r.RegisterDirect(chain);
  }

  lemma RecordedReads(chain: string, id: TokenId)
    ensures var recorded := AgentIdFor([Registrations.Registration(chain, Digits(id))], chain);
            recorded == Digits(id) && ParseInt(recorded) == Some(id as int)
  {
    PrintThenParse(id);
    DigitsParse(id);
    var d := Digits(id);
    assert IsDigit(d[0]) && IsDigit(d[|d| - 1]);
    TrimTrims(d);
  }

  /** A token in the hands of somebody else, with the signer as its wallet. */
  lemma HandedOver(e: Study, id: TokenId, other: Address)
    requires !e.steady && other != e.signer
    ensures var tx := Tx(e.signer, 0, e.call + 1, 0, Payload.Register("x"));
            var start := World({tx}, [], {}, [], map[]);
            var w := ActedAll(e, start, [Mine(tx, true, id), Hand(id, other, e.signer)]);
            Kept(e, w) && Unused(e, w) && id in w.tokens && w.tokens[id] == Token(other, e.signer, "x", false)
  {
    var tx := Tx(e.signer, 0, e.call + 1, 0, Payload.Register("x"));
    var start := World({tx}, [], {}, [], map[]);
    var mine, hand := Mine(tx, true, id), Hand(id, other, e.signer);
    assert [mine, hand][1..] == [hand] && [hand][1..] == [];
    assert SlotFree(start, tx);
    var minted := Acted(e, start, mine);
    assert minted.tokens == map[id := Token(e.signer, e.signer, "x", false)];
    var handed := Acted(e, minted, hand);
    assert ActedAll(e, start, [mine, hand]) == ActedAll(e, minted, [hand]);
    assert ActedAll(e, minted, [hand]) == ActedAll(e, handed, []);
    ActsMove(e, start, [mine, hand]);
  }

  /**
    A call that adopts an agent while somebody else adds an entry for another chain: the call
    succeeds, and the entry is gone.
  */
  method ConcurrentEntryErased(r: Registrar, chain: string, other: string, entry: string)
      returns (result: Registration.Result)
    requires Kept(r.e, r.w) && Unused(r.e, r.w) && Smooth(r.weather) && r.e.steady && !r.cancelled
    requires HasMint(r.e, r.w, 0) && r.missed < 4
    requires !SameChain(chain, other) && !Blank(entry)
    requires r.identity == Some([]) && OthersWrote(r.weather, [Registrations.Registration(other, entry)])
    modifies r
    ensures result.Adopted?
    ensures AgentIdFor(r.met, other) == entry
    ensures r.identity.Some? && AgentIdFor(r.identity.value, other) == ""
  {
    result := r.RegisterDirect(chain);
    UpdatedBy([], chain, result.id);
    OtherChainsKept([], r.identity.value, chain, other);
  }

  // ----- a sequence of calls -----

  /** A mint that has been made, or can still be included. */
  ghost predicate Open(e: Study, w: World, tx: Tx) {
    MintTx(e, tx) && ((tx in w.mempool && SlotFree(w, tx)) || exists k :: 0 <= k < |w.log| && w.log[k].tx == tx)
  }

  ghost predicate OneMint(e: Study, w: World) {
    forall tx, t :: Open(e, w, tx) && Open(e, w, t) ==> tx.nonce == t.nonce
  }

  /** Every mint sent so far is in the log or can no longer be included. */
  ghost predicate Settled(e: Study, w: World) {
    forall tx :: tx in w.mempool && MintTx(e, tx) ==> !SlotFree(w, tx)
  }

  /** `c` starts from a world that `u` has drifted into, all mints settled. */
  ghost predicate Follows(u: World, c: Episode) {
    Unused(c.e, u) && Moves(c.e, u, c.before) && Silent(c.e, u, c.before) && Settled(c.e, c.before)
  }

  ghost predicate History(e: Study, u: World, calls: seq<Episode>)
    decreases |calls|
  {
    calls == [] ||
    (calls[0].e.signer == e.signer && calls[0].e.uri == e.uri &&
     Follows(u, calls[0]) && CallDid(calls[0]) && History(e, calls[0].after, calls[1..]))
  }

  function Final(u: World, calls: seq<Episode>): World
    decreases |calls|
  {
    if calls == [] then u else Final(calls[0].after, calls[1..])
  }

  /** What is open later was open before, or belongs to the call. */
  lemma OpenEarlier(e: Study, w: World, v: World, tx: Tx)
    requires Moves(e, w, v) && Open(e, v, tx) && tx.call != e.call
    ensures Open(e, w, tx)
  {
    if tx in v.mempool && SlotFree(v, tx) {
      EarlierSlotFree(w, v, tx);
    } else {
      var k :| 0 <= k < |v.log| && v.log[k].tx == tx;
      if k < |w.log| {
        assert w.log[k] == v.log[k];
      }
    }
  }

  lemma OpenKnown(e: Study, w: World, tx: Tx)
    requires WellFormed(w) && Open(e, w, tx)
    ensures Known(w, tx)
  {
    if tx !in w.mempool {
      var k :| 0 <= k < |w.log| && w.log[k].tx == tx;
      assert Emitted(w, w.log[k]);
    }
  }

  lemma MintedOpen(e: Study, w: World, tx: Tx)
    requires WellFormed(w) && Settled(e, w) && Open(e, w, tx)
    ensures HasMint(e, w, 0)
  {
    var k :| 0 <= k < |w.log| && w.log[k].tx == tx;
    assert Emitted(w, w.log[k]);
    assert MintEvent(e, w.log[k]);
  }

  lemma DriftKeepsOneMint(e: Study, w: World, v: World)
    requires OneMint(e, w) && WellFormed(v) && Unused(e, w) && Moves(e, w, v) && Silent(e, w, v)
    ensures OneMint(e, v)
  {
    forall tx | Open(e, v, tx)
      ensures Open(e, w, tx)
    {
      OpenKnown(e, v, tx);
      OpenEarlier(e, w, v, tx);
    }
  }

  lemma CallKeepsOneMint(c: Episode)
    requires CallDid(c) && Settled(c.e, c.before) && OneMint(c.e, c.before)
    ensures OneMint(c.e, c.after)
  {
    var e, w, v := c.e, c.before, c.after;
    forall tx | Open(e, v, tx)
      ensures if HasMint(e, w, 0) then Open(e, w, tx) else tx.call == e.call && Known(v, tx)
    {
      OpenKnown(e, v, tx);
      if tx.call != e.call {
        OpenEarlier(e, w, v, tx);
        MintedOpen(e, w, tx);
      }
    }
  }

  /** Two open mints never have two nonces, after any number of calls. */
  lemma {:induction false} HistoryKeepsOneMint(e: Study, u: World, calls: seq<Episode>)
    requires OneMint(e, u) && WellFormed(u) && History(e, u, calls)
    ensures OneMint(e, Final(u, calls)) && WellFormed(Final(u, calls))
    decreases |calls|
  {
    if calls == [] {
    } else {
      var c := calls[0];
      assert OneMint(c.e, u) by {
        SameMints(e, c.e, u);
      }
      DriftKeepsOneMint(c.e, u, c.before);
      CallKeepsOneMint(c);
      SameMints(c.e, e, c.after);
      HistoryKeepsOneMint(e, c.after, calls[1..]);
    }
  }

  lemma SameMints(e: Study, f: Study, w: World)
    requires e.signer == f.signer && e.uri == f.uri && OneMint(e, w)
    ensures OneMint(f, w)
  {
    forall tx | Open(f, w, tx)
      ensures Open(e, w, tx)
    {
    }
  }

  /** At most one token is ever minted for the signer and the URI. */
  lemma AtMostOneToken(e: Study, u: World, calls: seq<Episode>, i: nat, j: nat)
    requires OneMint(e, u) && WellFormed(u) && History(e, u, calls)
    requires var log := Final(u, calls).log;
             i < |log| && j < |log| && MintEvent(e, log[i]) && MintEvent(e, log[j])
    ensures i == j
  {
    HistoryKeepsOneMint(e, u, calls);
    var w := Final(u, calls);
    var a, b := w.log[i], w.log[j];
    assert Emitted(w, a) && Emitted(w, b);
    assert Open(e, w, a.tx) && Open(e, w, b.tx);
    var m :| 0 <= m < |w.mined| && w.mined[m] == a.tx;
    var n :| 0 <= n < |w.mined| && w.mined[n] == b.tx;
    assert m == n;
  }
}
