/** The per-chain registrations of an AgentIdentity (internal/monetizeapi/types.go). */
module Registrations {
  import opened Text

  datatype Registration = Registration(chain: string, agentId: string)

  type Status = seq<Registration>

  predicate SameChain(a: string, b: string) {
    Fold(Trim(a)) == Fold(Trim(b))
  }

  predicate Blank(s: string) {
    Trim(s) == ""
  }

  /** AgentIdentityAgentIDForChain: the first usable id on `chain`, or "". */
  function AgentIdFor(status: Status, chain: string): string {
    if status == [] then ""
    else if SameChain(status[0].chain, chain) && !Blank(status[0].agentId) then status[0].agentId
    else AgentIdFor(status[1..], chain)
  }

  /** HasAgentIdentityRegistrations: some registration has a chain and an id. */
  predicate HasRegistrations(status: Status) {
    exists r :: r in status && !Blank(r.chain) && !Blank(r.agentId)
  }

  /** RemoveAgentIdentityRegistration */
  function Without(status: Status, chain: string): Status {
    if status == [] then []
    else if SameChain(status[0].chain, chain) then Without(status[1..], chain)
    else [status[0]] + Without(status[1..], chain)
  }

  /** The first registration on `chain` is replaced, later ones are dropped, a new one goes last. */
  function Placed(status: Status, chain: string, agentId: string): Status {
    if status == [] then [Registration(chain, agentId)]
    else if SameChain(status[0].chain, chain) then [Registration(chain, agentId)] + Without(status[1..], chain)
    else [status[0]] + Placed(status[1..], chain, agentId)
  }

  function Upserted(status: Status, chain: string, agentId: string): Status {
    if Blank(chain) || Blank(agentId) then status else Placed(status, Trim(chain), Trim(agentId))
  }

  /** What the rest of the loop over the registrations will append. */
  function ToCome(updated: bool, rest: Status, chain: string, agentId: string): Status {
    if updated then Without(rest, chain) else Placed(rest, chain, agentId)
  }

  /** What one turn of the loop appends. */
  function Turn(updated: bool, r: Registration, chain: string, agentId: string): Status {
    if !SameChain(r.chain, chain) then [r] else if updated then [] else [Registration(chain, agentId)]
  }

  lemma TurnThenRest(out: Status, updated: bool, rest: Status, chain: string, agentId: string)
    requires rest != []
    ensures var now := updated || SameChain(rest[0].chain, chain);
            (out + Turn(updated, rest[0], chain, agentId)) + ToCome(now, rest[1..], chain, agentId) ==
            out + ToCome(updated, rest, chain, agentId)
  {
    var now := updated || SameChain(rest[0].chain, chain);
    Regroup(out, Turn(updated, rest[0], chain, agentId), ToCome(now, rest[1..], chain, agentId));
  }

  /** UpsertAgentIdentityRegistration */
  method Upsert(status: Status, chain: string, agentId: string) returns (out: Status)
    ensures out == Upserted(status, chain, agentId)
  {
    var c, id := Trim(chain), Trim(agentId);
    if c == "" || id == "" {
      return status;
    }
    ghost var goal := Placed(status, c, id);
    var updated := false;
    out := [];
    assert status[0..] == status;
    for i := 0 to |status|
      invariant out + ToCome(updated, status[i..], c, id) == goal
    {
      var r := status[i];
      ghost var turn := Turn(updated, r, c, id);
      ghost var next := out + turn;
      ghost var now := updated || SameChain(r.chain, c);
      assert next + ToCome(now, status[i + 1..], c, id) == goal by {
        assert status[i..][0] == r && status[i..][1..] == status[i + 1..];
        TurnThenRest(out, updated, status[i..], c, id);
      }
      if SameChain(r.chain, c) {
        if !updated {
          out := out + [Registration(c, id)];
          updated := true;
        }
      } else {
        out := out + [r];
      }
      assert out == next && updated == now;
    }
    if !updated {
      out := out + [Registration(c, id)];
    }
  }

  lemma {:induction false} WithoutReads(status: Status, chain: string, other: string)
    ensures AgentIdFor(Without(status, chain), other) ==
            if SameChain(chain, other) then "" else AgentIdFor(status, other)
  {
    if status == [] {
    } else {
      WithoutReads(status[1..], chain, other);
      if !SameChain(status[0].chain, chain) {
        assert Without(status, chain)[1..] == Without(status[1..], chain);
      } else {
        assert Without(status, chain) == Without(status[1..], chain);
      }
    }
  }

  lemma {:induction false} PlacedReads(status: Status, chain: string, agentId: string, other: string)
    requires !Blank(agentId)
    ensures AgentIdFor(Placed(status, chain, agentId), other) ==
            if SameChain(chain, other) then agentId else AgentIdFor(status, other)
  {
    var placed := Placed(status, chain, agentId);
    if status == [] {
      assert placed[1..] == [];
    } else if SameChain(status[0].chain, chain) {
      assert placed[1..] == Without(status[1..], chain);
      WithoutReads(status[1..], chain, other);
    } else {
      assert placed[1..] == Placed(status[1..], chain, agentId);
      PlacedReads(status[1..], chain, agentId, other);
    }
  }

  /** An upsert sets its chain and leaves what every other chain reads. */
  lemma UpsertReads(status: Status, chain: string, agentId: string, other: string)
    requires !Blank(chain) && !Blank(agentId)
    ensures AgentIdFor(Upserted(status, chain, agentId), other) ==
            if SameChain(chain, other) then Trim(agentId) else AgentIdFor(status, other)
  {
    TrimTrims(chain);
    TrimTrims(Trim(chain));
    TrimTrims(agentId);
    TrimTrims(Trim(agentId));
    PlacedReads(status, Trim(chain), Trim(agentId), other);
  }

  function OnChain(status: Status, chain: string): Status {
    if status == [] then []
    else if SameChain(status[0].chain, chain) then [status[0]] + OnChain(status[1..], chain)
    else OnChain(status[1..], chain)
  }

  lemma {:induction false} WithoutLeavesNone(status: Status, chain: string)
    ensures OnChain(Without(status, chain), chain) == [] &&
            Without(Without(status, chain), chain) == Without(status, chain)
  {
    if status == [] {
    } else {
      WithoutLeavesNone(status[1..], chain);
      var rest := Without(status[1..], chain);
      if SameChain(status[0].chain, chain) {
        assert Without(status, chain) == rest;
      } else {
        assert Without(status, chain)[1..] == rest;
      }
    }
  }

  /** An upsert leaves one registration on its chain and all others as they were, in order. */
  lemma {:induction false} PlacedKeepsOthers(status: Status, chain: string, agentId: string)
    ensures OnChain(Placed(status, chain, agentId), chain) == [Registration(chain, agentId)]
    ensures Without(Placed(status, chain, agentId), chain) == Without(status, chain)
  {
    var placed := Placed(status, chain, agentId);
    if status == [] {
      assert placed[1..] == [];
    } else if SameChain(status[0].chain, chain) {
      assert placed[1..] == Without(status[1..], chain);
      WithoutLeavesNone(status[1..], chain);
    } else {
      assert placed[1..] == Placed(status[1..], chain, agentId);
      PlacedKeepsOthers(status[1..], chain, agentId);
    }
  }

  lemma {:induction false} UsableOnChain(status: Status, chain: string)
    requires !Blank(chain)
    requires AgentIdFor(status, chain) != ""
    ensures HasRegistrations(status)
  {
    if SameChain(status[0].chain, chain) && !Blank(status[0].agentId) {
      FoldKeepsLength(Trim(status[0].chain));
      FoldKeepsLength(Trim(chain));
      assert status[0] in status;
    } else {
      UsableOnChain(status[1..], chain);
      assert forall r :: r in status[1..] ==> r in status;
    }
  }
}
