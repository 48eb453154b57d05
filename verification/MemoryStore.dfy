/**
 The in-memory sovereign store: the atomic specification of claims, invitations, identities and
 generations. Pure transition functions describe each operation; the class performs them in place.
 */
module MemoryStore {
  import opened Values
  import opened Protocol

  datatype Claim = Claim(
    id: string, clusterID: string, region: string, tenant: string, tokenHash: string, expiresAt: Time, usedAt: Time)

  datatype Invitation = Invitation(
    id: string, tenant: string, clusterID: string, region: string, expiresAt: Time,
    capabilities: seq<string>, tokenHash: string, usedAt: Time)

  datatype StoreError =
    | Exists
    | Invalid
    | TenantMismatch
    | ClusterMismatch
    | AlreadyUsed
    | Expired
    | CapabilityNotInvited
    | GenerationReplayed
    | NonceReplayed

  datatype MemoryState = MemoryState(
    claims: map<string, Claim>,
    invitations: map<string, Invitation>,
    identities: map<string, Identity>,
    generations: map<string, nat>,
    nonces: map<string, set<string>>)

  const EMPTY: MemoryState := MemoryState(map[], map[], map[], map[], map[])

  /** Everything `requested` asks for was invited. */
  predicate Included(invited: seq<string>, requested: seq<string>) {
    forall c <- requested :: c in invited
  }

  /** The verdict on a claim record, in the order the store tests it. */
  function ClaimVerdict(claims: map<string, Claim>, tenant: string, id: string, hash: string, now: Time): Result<Claim, StoreError> {
    if id !in claims || claims[id].tokenHash != hash then Err(Invalid)
    else if claims[id].tenant != tenant then Err(Invalid)
    else if claims[id].usedAt != ZERO_TIME then Err(AlreadyUsed)
    else if !(now < claims[id].expiresAt) then Err(Expired)
    else Ok(claims[id].(usedAt := now))
  }

  function InvitationVerdict(
    invitations: map<string, Invitation>, id: string, hash: string, tenant: string, clusterID: string,
    requested: seq<string>, now: Time): Result<Invitation, StoreError>
  {
    if id !in invitations || invitations[id].tokenHash != hash then Err(Invalid)
    else
      var v := invitations[id];
      if v.tenant != tenant then Err(TenantMismatch)
      else if v.clusterID != "" && v.clusterID != clusterID then Err(ClusterMismatch)
      else if v.usedAt != ZERO_TIME then Err(AlreadyUsed)
      else if !(now < v.expiresAt) then Err(Expired)
      else if !Included(v.capabilities, requested) then Err(CapabilityNotInvited)
      else Ok(v.(usedAt := now))
  }

  function LastGeneration(m: MemoryState, tenant: string, id: string): nat {
    var key := Joined(tenant, id);
    if key in m.generations then m.generations[key] else 0
  }

  function NoncesOf(m: MemoryState, key: string): set<string> {
    if key in m.nonces then m.nonces[key] else {}
  }

  function GenerationVerdict(m: MemoryState, tenant: string, id: string, g: nat, nonce: string): Result<(), StoreError> {
    if g <= LastGeneration(m, tenant, id) then Err(GenerationReplayed)
    else if nonce in NoncesOf(m, Joined(tenant, id)) then Err(NonceReplayed)
    else Ok(())
  }

  /** One store mutation; `Step` is its atomic effect. */
  datatype Op =
    | CreateClaim(claim: Claim)
    | ConsumeClaim(tenant: string, id: string, hash: string, now: Time)
    | CreateInvitation(invitation: Invitation)
    | ConsumeInvitation(id: string, hash: string, tenant: string, clusterID: string, requested: seq<string>, now: Time)
    | RegisterIdentity(identity: Identity)
    | RecordGeneration(tenant: string, id: string, g: nat, nonce: string)

  function Step(m: MemoryState, op: Op): Result<MemoryState, StoreError> {
    match op
    case CreateClaim(v) =>
      if v.id in m.claims then Err(Exists) else Ok(m.(claims := m.claims[v.id := v]))
    case ConsumeClaim(tenant, id, hash, now) =>
      (match ClaimVerdict(m.claims, tenant, id, hash, now)
       case Err(e) => Err(e)
       case Ok(v) => Ok(m.(claims := m.claims[id := v])))
    case CreateInvitation(v) =>
      if v.id in m.invitations then Err(Exists) else Ok(m.(invitations := m.invitations[v.id := v]))
    case ConsumeInvitation(id, hash, tenant, clusterID, requested, now) =>
      (match InvitationVerdict(m.invitations, id, hash, tenant, clusterID, requested, now)
       case Err(e) => Err(e)
       case Ok(v) => Ok(m.(invitations := m.invitations[id := v])))
    case RegisterIdentity(v) =>
      var key := Joined(v.tenant, v.clusterID);
      if key in m.identities then Err(Exists) else Ok(m.(identities := m.identities[key := v]))
    case RecordGeneration(tenant, id, g, nonce) =>
      (match GenerationVerdict(m, tenant, id, g, nonce)
       case Err(e) => Err(e)
       case Ok(_) =>
         var key := Joined(tenant, id);
         Ok(m.(generations := m.generations[key := g], nonces := m.nonces[key := NoncesOf(m, key) + {nonce}])))
  }

  /** The state after performing `ops` in order, provided none of them is refused. */
  function Replay(ops: seq<Op>): Option<MemoryState> {
    if ops == [] then Some(EMPTY)
    else
      var before := Replay(ops[..|ops| - 1]);
      if before.None? then None
      else match Step(before.value, ops[|ops| - 1])
        case Ok(m) => Some(m)
        case Err(_) => None
  }

  lemma ReplayExtends(ops: seq<Op>, op: Op)
    requires Replay(ops).Some?
    ensures Replay(ops + [op]) ==
            match Step(Replay(ops).value, op) { case Ok(m) => Some(m) case Err(_) => None }
  {
    assert (ops + [op])[..|ops|] == ops;
  }

  method CapabilitiesAllowed(invited: seq<string>, requested: seq<string>) returns (ok: bool)
    ensures ok <==> Included(invited, requested)
  {
    var allowed: set<string> := {};
    for i := 0 to |invited|
      invariant forall c :: c in allowed <==> c in invited[..i]
    {
      allowed := allowed + {invited[i]};
    }
    for i := 0 to |requested|
      invariant forall c <- requested[..i] :: c in invited
    {
      if requested[i] !in allowed {
        assert requested[i] in requested;
        return false;
      }
    }
    return true;
  }

  class MemorySovereignStore {
    var claims: map<string, Claim>
    var invitations: map<string, Invitation>
    var identities: map<string, Identity>
    var generations: map<string, nat>
    var nonces: map<string, set<string>>

    ghost function State(): MemoryState
      reads this
    {
      MemoryState(claims, invitations, identities, generations, nonces)
    }

    constructor ()
      ensures State() == EMPTY
    {
      claims, invitations, identities, generations, nonces := map[], map[], map[], map[], map[];
    }

    method CreateOnboardingClaim(v: Claim) returns (r: Result<(), StoreError>)
      modifies this
      ensures match Step(old(State()), CreateClaim(v))
              case Ok(m) => r.Ok? && State() == m
              case Err(e) => r == Err(e) && State() == old(State())
    {
      if v.id in claims {
        return Err(Exists);
      }
      claims := claims[v.id := v];
      return Ok(());
    }

    method ConsumeOnboardingClaim(tenant: string, id: string, hash: string, now: Time) returns (r: Result<Claim, StoreError>)
      modifies this
      ensures match Step(old(State()), ConsumeClaim(tenant, id, hash, now))
              case Ok(m) => r == Ok(m.claims[id]) && State() == m
              case Err(e) => r == Err(e) && State() == old(State())
    {
      if id !in claims || claims[id].tokenHash != hash {
        return Err(Invalid);
      }
      var v := claims[id];
      if v.tenant != tenant {
        return Err(Invalid);
      }
      if v.usedAt != ZERO_TIME {
        return Err(AlreadyUsed);
      }
      if !(now < v.expiresAt) {
        return Err(Expired);
      }
      v := v.(usedAt := now);
      claims := claims[id := v];
      return Ok(v);
    }

    method CreateInvitation(v: Invitation) returns (r: Result<(), StoreError>)
      modifies this
      ensures match Step(old(State()), Op.CreateInvitation(v))
              case Ok(m) => r.Ok? && State() == m
              case Err(e) => r == Err(e) && State() == old(State())
    {
      if v.id in invitations {
        return Err(Exists);
      }
      invitations := invitations[v.id := v];
      return Ok(());
    }

    method ConsumeInvitation(id: string, hash: string, tenant: string, clusterID: string, requested: seq<string>, now: Time)
      returns (r: Result<Invitation, StoreError>)
      modifies this
      ensures match Step(old(State()), Op.ConsumeInvitation(id, hash, tenant, clusterID, requested, now))
              case Ok(m) => r == Ok(m.invitations[id]) && State() == m
              case Err(e) => r == Err(e) && State() == old(State())
    {
      if id !in invitations || invitations[id].tokenHash != hash {
        return Err(Invalid);
      }
      var v := invitations[id];
      if v.tenant != tenant {
        return Err(TenantMismatch);
      }
      if v.clusterID != "" && v.clusterID != clusterID {
        return Err(ClusterMismatch);
      }
      if v.usedAt != ZERO_TIME {
        return Err(AlreadyUsed);
      }
      if !(now < v.expiresAt) {
        return Err(Expired);
      }
      var allowed := CapabilitiesAllowed(v.capabilities, requested);
      if !allowed {
        return Err(CapabilityNotInvited);
      }
      v := v.(usedAt := now);
      invitations := invitations[id := v];
      return Ok(v);
    }

    method RegisterIdentity(v: Identity) returns (r: Result<(), StoreError>)
      modifies this
      ensures match Step(old(State()), Op.RegisterIdentity(v))
              case Ok(m) => r.Ok? && State() == m
              case Err(e) => r == Err(e) && State() == old(State())
    {
      var key := Joined(v.tenant, v.clusterID);
      if key in identities {
        return Err(Exists);
      }
      identities := identities[key := v];
      return Ok(());
    }

    method RecordGeneration(tenant: string, id: string, g: nat, nonce: string) returns (r: Result<(), StoreError>)
      modifies this
      ensures match Step(old(State()), Op.RecordGeneration(tenant, id, g, nonce))
              case Ok(m) => r.Ok? && State() == m
              case Err(e) => r == Err(e) && State() == old(State()).(nonces := State().nonces)
                             && forall k :: NoncesOf(State(), k) == NoncesOf(old(State()), k)
    {
      var key := Joined(tenant, id);
      if g <= if key in generations then generations[key] else 0 {
        return Err(GenerationReplayed);
      }
      if key !in nonces {
        nonces := nonces[key := {}];
      }
      if nonce in nonces[key] {
        return Err(NonceReplayed);
      }
      generations := generations[key := g];
      nonces := nonces[key := nonces[key] + {nonce}];
      return Ok(());
    }
  }
}
