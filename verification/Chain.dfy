/**
  The chain and the identity registry as a registration call meets them: transactions wait in a
  mempool, may be dropped, and are included at most once per sender and nonce; other parties
  act at any time.
*/
module Chain {
  import opened Text

  type Address = nat
  type TokenId = nat

  datatype Payload = Register(uri: string) | SetUri(id: TokenId, newUri: string) | SetMetadata(agent: TokenId)

  /** `call` is the registration call that signed it; `salt` tells re-signed copies apart. */
  datatype Tx = Tx(sender: Address, nonce: nat, call: nat, salt: nat, payload: Payload)

  datatype Token = Token(owner: Address, wallet: Address, uri: string, x402: bool)

  /** A Registered event and the transaction that emitted it. */
  datatype Event = Event(id: TokenId, owner: Address, uri: string, tx: Tx)

  /** `mined` are the included transactions in order, `done` those of them that took effect. */
  datatype World = World(mempool: set<Tx>, mined: seq<Tx>, done: set<Tx>, log: seq<Event>, tokens: map<TokenId, Token>)

  /**
    A call under study: who signs it, for which URI, under which number; and whether the
    signer's tokens stay with the signer meanwhile.
  */
  datatype Study = Study(signer: Address, uri: string, call: nat, steady: bool)

  predicate SameUri(a: string, b: string) {
    Trim(a) == Trim(b)
  }

  /** A mint for the signer and URI under study. */
  predicate MintTx(e: Study, tx: Tx) {
    tx.sender == e.signer && tx.payload.Register? && SameUri(tx.payload.uri, e.uri)
  }

  predicate SlotFree(w: World, tx: Tx) {
    forall i :: 0 <= i < |w.mined| ==> w.mined[i].sender != tx.sender || w.mined[i].nonce != tx.nonce
  }

  // ----- what happens without the call -----

  datatype Act =
    | Mine(tx: Tx, succeeds: bool, id: TokenId)
    | Broadcast(tx: Tx)
    | Drop(tx: Tx)
    | Hand(id: TokenId, owner: Address, wallet: Address)

  /** Only the owner of a token may change it; any other write reverts. */
  predicate Owns(w: World, sender: Address, id: TokenId) {
    id in w.tokens && w.tokens[id].owner == sender
  }

  function Executed(w: World, tx: Tx, id: TokenId): World {
    match tx.payload
    case Register(uri) =>
      if id in w.tokens then w
      else
        w.(log := w.log + [Event(id, tx.sender, uri, tx)],
           tokens := w.tokens[id := Token(tx.sender, tx.sender, uri, false)],
           done := w.done + {tx})
    case SetUri(agent, uri) =>
      if !Owns(w, tx.sender, agent) then w
      else w.(tokens := w.tokens[agent := w.tokens[agent].(uri := uri)], done := w.done + {tx})
    case SetMetadata(agent) =>
      if !Owns(w, tx.sender, agent) then w
      else w.(tokens := w.tokens[agent := w.tokens[agent].(x402 := true)], done := w.done + {tx})
  }

  /** One act of the environment; impossible acts change nothing. */
  function Acted(e: Study, w: World, a: Act): World {
    match a
    case Mine(tx, succeeds, id) =>
      if tx !in w.mempool || !SlotFree(w, tx) then w
      else
        var included := w.(mined := w.mined + [tx]);
        if succeeds then Executed(included, tx, id) else included
    case Broadcast(tx) => if tx.call == e.call || MintTx(e, tx) then w else w.(mempool := w.mempool + {tx})
    case Drop(tx) => w.(mempool := w.mempool - {tx})
    case Hand(id, owner, wallet) =>
      if id !in w.tokens || (e.steady && w.tokens[id].owner == e.signer && owner != e.signer) then w
      else w.(tokens := w.tokens[id := w.tokens[id].(owner := owner, wallet := wallet)])
  }

  function ActedAll(e: Study, w: World, acts: seq<Act>): World
    decreases |acts|
  {
    if acts == [] then w else ActedAll(e, Acted(e, w, acts[0]), acts[1..])
  }

  // ----- what every run keeps -----

  ghost predicate WellFormed(w: World) {
    (forall i, j :: 0 <= i < j < |w.mined| ==>
      w.mined[i].sender != w.mined[j].sender || w.mined[i].nonce != w.mined[j].nonce) &&
    (forall k :: 0 <= k < |w.log| ==> Emitted(w, w.log[k])) &&
    (forall tx :: tx in w.done ==> tx in w.mined) &&
    (forall j, k :: 0 <= j < k < |w.log| ==> w.log[j].id != w.log[k].id && w.log[j].tx != w.log[k].tx)
  }

  ghost predicate Emitted(w: World, ev: Event) {
    ev.id in w.tokens && ev.tx in w.mined && ev.owner == ev.tx.sender && ev.tx.payload == Register(ev.uri)
  }

  predicate MintEvent(e: Study, ev: Event) {
    ev.owner == e.signer && SameUri(ev.uri, e.uri)
  }

  ghost predicate Holds(e: Study, w: World, id: TokenId) {
    id in w.tokens && w.tokens[id].owner == e.signer
  }

  /** Well-formed, and in a steady study the signer still holds every token minted for the URI. */
  ghost predicate Kept(e: Study, w: World) {
    WellFormed(w) &&
    (e.steady ==> forall k :: 0 <= k < |w.log| && MintEvent(e, w.log[k]) ==> Holds(e, w, w.log[k].id))
  }

  predicate Known(w: World, tx: Tx) {
    tx in w.mempool || tx in w.mined
  }

  /** Transactions that may turn up: those of the call itself, and anything that is no mint under study. */
  predicate MayAppear(e: Study, tx: Tx) {
    tx.call == e.call || !MintTx(e, tx)
  }

  /** How a world can change in the course of a call. */
  ghost predicate Moves(e: Study, w: World, v: World) {
    w.mined <= v.mined && w.done <= v.done && w.log <= v.log &&
    (forall tx :: tx in v.mempool ==> tx in w.mempool || MayAppear(e, tx)) &&
    (forall tx :: Known(v, tx) ==> Known(w, tx) || MayAppear(e, tx)) &&
    (forall k :: |w.log| <= k < |v.log| ==>
      var tx := v.log[k].tx; (tx in w.mempool && SlotFree(w, tx)) || MayAppear(e, tx)) &&
    (e.steady ==> forall id :: Holds(e, w, id) ==> Holds(e, v, id))
  }

  /** The call under study has sent nothing in between. */
  ghost predicate Silent(e: Study, w: World, v: World) {
    forall tx: Tx :: tx.call == e.call && Known(v, tx) ==> Known(w, tx)
  }

  lemma MovesThen(e: Study, u: World, v: World, w: World)
    requires Moves(e, u, v) && Moves(e, v, w)
    ensures Moves(e, u, w)
  {
    forall k | |u.log| <= k < |w.log|
      ensures var tx := w.log[k].tx; (tx in u.mempool && SlotFree(u, tx)) || MayAppear(e, tx)
    {
      var tx := w.log[k].tx;
      if k < |v.log| {
        assert w.log[k] == v.log[k];
      } else if tx in v.mempool && SlotFree(v, tx) && !MayAppear(e, tx) {
        EarlierSlotFree(u, v, tx);
      }
    }
  }

  lemma EarlierSlotFree(u: World, v: World, tx: Tx)
    requires u.mined <= v.mined && SlotFree(v, tx)
    ensures SlotFree(u, tx)
  {
    forall i | 0 <= i < |u.mined|
      ensures u.mined[i].sender != tx.sender || u.mined[i].nonce != tx.nonce
    {
      assert v.mined[i] == u.mined[i];
    }
  }

  lemma MineKeeps(e: Study, w: World, tx: Tx, succeeds: bool, id: TokenId)
    requires Kept(e, w)
    ensures Kept(e, Acted(e, w, Mine(tx, succeeds, id)))
  {
    if tx in w.mempool && SlotFree(w, tx) {
      var v := Acted(e, w, Mine(tx, succeeds, id));
      assert v.mined == w.mined + [tx];
      forall k | 0 <= k < |w.log|
        ensures Emitted(v, w.log[k]) && w.log[k].tx != tx
      {
        assert Emitted(w, w.log[k]);
        var i :| 0 <= i < |w.mined| && w.mined[i] == w.log[k].tx;
      }
    }
  }

  lemma MineMoves(e: Study, w: World, tx: Tx, succeeds: bool, id: TokenId)
    ensures var v := Acted(e, w, Mine(tx, succeeds, id)); Moves(e, w, v) && Silent(e, w, v)
  {
    if tx in w.mempool && SlotFree(w, tx) {
      assert Acted(e, w, Mine(tx, succeeds, id)).mined == w.mined + [tx];
    }
  }

  lemma ActMoves(e: Study, w: World, a: Act)
    requires Kept(e, w)
    ensures var v := Acted(e, w, a); Kept(e, v) && Moves(e, w, v) && Silent(e, w, v)
  {
    match a
    case Mine(tx, succeeds, id) =>
      MineKeeps(e, w, tx, succeeds, id);
      MineMoves(e, w, tx, succeeds, id);
    case Broadcast(_) =>
    case Drop(_) =>
    case Hand(_, _, _) =>
      var v := Acted(e, w, a);
      forall k | 0 <= k < |v.log|
        ensures Emitted(v, v.log[k])
      {
        assert Emitted(w, w.log[k]);
      }
  }

  /** Whatever the network and everybody else do, and for however long. */
  lemma {:induction false} ActsMove(e: Study, w: World, acts: seq<Act>)
    requires Kept(e, w)
    ensures var v := ActedAll(e, w, acts); Kept(e, v) && Moves(e, w, v) && Silent(e, w, v)
    decreases |acts|
  {
    if acts == [] {
    } else {
      var next := Acted(e, w, acts[0]);
      ActMoves(e, w, acts[0]);
      ActsMove(e, next, acts[1..]);
      MovesThen(e, w, next, ActedAll(e, next, acts[1..]));
    }
  }
}
