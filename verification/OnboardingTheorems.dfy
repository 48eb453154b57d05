/** What every onboarding schedule guarantees. */
module OnboardingTheorems {
  import opened Values
  import opened Protocol
  import opened ApiServer
  import opened Onboarding
  import M = MemoryStore

  // ---------------------------------------------------------------------------------------------
  // Single use
  // ---------------------------------------------------------------------------------------------

  /** Call `c` consumed the claim under `k` and was told so. */
  predicate Wins(s: State, c: CallId, k: Key) {
    c in s.calls && s.calls[c].claimed == Some(k) && s.calls[c].claimOk
  }

  /** However many consumers race, at most one call commits a claim and at most one commits an invitation. */
  lemma AtMostOneWinner(schedule: seq<Step>, k: Key, c: CallId, d: CallId)
    requires c in Exec(schedule).calls && d in Exec(schedule).calls
    ensures Exec(schedule).calls[c].claimed == Some(k) == Exec(schedule).calls[d].claimed ==> c == d
    ensures Exec(schedule).calls[c].used == Some(k) == Exec(schedule).calls[d].used ==> c == d
  {
    Invariant(schedule);
  }

  // ---------------------------------------------------------------------------------------------
  // Conservation
  // ---------------------------------------------------------------------------------------------

  predicate Injective(f: map<Key, Key>) {
    forall a, b | a in f && b in f && f[a] == f[b] :: a == b
  }

  function InviteOf(s: State, k: Key): Key
    requires RegistrarOk(s, k)
  {
    s.calls[s.registrar[k]].used.value
  }

  function ClaimOf(s: State, k: Key): Key
    requires MakerOk(s, k)
  {
    s.calls[s.maker[k]].claimed.value
  }

  lemma DistinctInvites(s: State, a: Key, b: Key)
    requires CallsOk(s) && SingleUse(s) && RegistrarOk(s, a) && RegistrarOk(s, b)
    ensures InviteUsed(s, InviteOf(s, a))
    ensures InviteOf(s, a) == InviteOf(s, b) ==> a == b
  {
    assert CallOk(s, s.calls[s.registrar[a]]);
  }

  lemma DistinctClaims(s: State, a: Key, b: Key)
    requires CallsOk(s) && SingleUse(s) && MakerOk(s, a) && MakerOk(s, b)
    ensures ClaimUsed(s, ClaimOf(s, a))
    ensures ClaimOf(s, a) == ClaimOf(s, b) ==> a == b
  {
    assert CallOk(s, s.calls[s.maker[a]]);
  }

  /** Registered identities inject into used invitations, each keeping the bounds of its own invitation. */
  lemma IdentitiesSpendInvitations(schedule: seq<Step>) returns (f: map<Key, Key>)
    ensures f.Keys == Exec(schedule).identities.objects.Keys
    ensures Injective(f)
    ensures forall k <- f ::
      InviteUsed(Exec(schedule), f[k]) && BoundBy(Exec(schedule), f[k], Exec(schedule).identities.objects[k].value)
  {
    Invariant(schedule);
    var s := Exec(schedule);
    f := map k | k in s.identities.objects :: InviteOf(s, k);
    forall a, b | a in f && b in f ensures InviteUsed(s, f[a]) && (f[a] == f[b] ==> a == b) {
      DistinctInvites(s, a, b);
    }
  }

  /** Invitations made by onboarding inject into used claims and carry the claim's tenant, cluster and region. */
  lemma InvitationsSpendClaims(schedule: seq<Step>) returns (f: map<Key, Key>)
    ensures f.Keys == Exec(schedule).maker.Keys
    ensures Injective(f)
    ensures forall k <- f :: ClaimUsed(Exec(schedule), f[k]) && MadeFrom(Exec(schedule), f[k], k)
  {
    Invariant(schedule);
    var s := Exec(schedule);
    f := map k | k in s.maker :: ClaimOf(s, k);
    forall a, b | a in f && b in f ensures ClaimUsed(s, f[a]) && (f[a] == f[b] ==> a == b) {
      DistinctClaims(s, a, b);
    }
  }

  // ---------------------------------------------------------------------------------------------
  // Refinement of the in-memory store
  // ---------------------------------------------------------------------------------------------

  function NewClaimOf(s: State, step: Step): M.Claim
    requires step.NewClaim?
  {
    M.Claim(step.key.id, step.clusterID, step.region, step.key.tenant, step.hash,
            s.clock + Ttl(step.ttl, 86400) * SECOND, ZERO_TIME)
  }

  function NewInvitationOf(s: State, step: Step): M.Invitation
    requires step.NewInvitation?
  {
    M.Invitation(step.key.id, step.key.tenant, "", "", s.clock + Ttl(step.ttl, 900) * SECOND,
                 step.capabilities, step.hash, ZERO_TIME)
  }

  function MadeInvitationOf(s: State, step: Step): M.Invitation
    requires step.MakeInvitation? && step.c in s.calls && s.calls[step.c].pc.ClaimWon?
  {
    var pc := s.calls[step.c].pc;
    M.Invitation(step.id, pc.key.tenant, pc.clusterID, pc.region, s.clock + 15 * MINUTE,
                 ONBOARDING_CAPABILITIES, step.hash, ZERO_TIME)
  }

  /** The store operation that a handler's next API call commits, if it commits one. */
  function CallCommit(s: State, call: Call, fault: Fault): seq<M.Op> {
    if fault.WriteRefused? then []
    else match call.pc
      case ClaimWrite(key, hash, now, _, snapshot) =>
        if Matches(s.claims, key, snapshot) then [M.ConsumeClaim(key.tenant, key.id, hash, now)] else []
      case InviteWrite(key, hash, identity, now, snapshot) =>
        if Matches(s.invites, key, snapshot)
        then [M.ConsumeInvitation(key.id, hash, key.tenant, identity.clusterID, identity.capabilities, now)]
        else []
      case Registering(_, identity) =>
        if Key(identity.tenant, identity.clusterID) in s.identities.objects then [] else [M.RegisterIdentity(identity)]
      case _ => []
  }

  function Commit(s: State, step: Step): seq<M.Op> {
    match step
    case NewClaim(_, _, _, _, _) => if Next(s, step) == s then [] else [M.CreateClaim(NewClaimOf(s, step))]
    case NewInvitation(_, _, _, _) => if Next(s, step) == s then [] else [M.CreateInvitation(NewInvitationOf(s, step))]
    case Advance(c, fault) => if c in s.calls then CallCommit(s, s.calls[c], fault) else []
    case MakeInvitation(c, id, _, fault) =>
      if c in s.calls && s.calls[c].pc.ClaimWon? && FreshId(s.invites, id) && !fault.WriteRefused?
      then [M.CreateInvitation(MadeInvitationOf(s, step))]
      else []
    case _ => []
  }

  /** The store operations of a schedule, in commit order. */
  function Commits(schedule: seq<Step>): seq<M.Op> {
    if schedule == [] then []
    else
      var before := schedule[..|schedule| - 1];
      Commits(before) + Commit(Exec(before), schedule[|schedule| - 1])
  }

  predicate SameClaim(k: Key, secret: ClaimSecret, v: M.Claim) {
    && v.id == k.id && v.tenant == k.tenant && v.tokenHash == secret.tokenHash
    && v.clusterID == secret.clusterID && v.region == secret.region
    && secret.expires == WholeSeconds(v.expiresAt)
    && secret.usedAt == (if v.usedAt == ZERO_TIME then None else Some(v.usedAt))
  }

  predicate SameInvitation(k: Key, secret: InviteSecret, v: M.Invitation) {
    && v.id == k.id && v.tenant == k.tenant && v.tokenHash == secret.tokenHash
    && v.clusterID == secret.clusterID && v.region == secret.region && v.capabilities == secret.capabilities
    && secret.expires == WholeSeconds(v.expiresAt)
    && secret.usedAt == (if v.usedAt == ZERO_TIME then None else Some(v.usedAt))
  }

  predicate ClaimsAgree(db: Db<Key, ClaimSecret>, claims: map<string, M.Claim>) {
    && (forall k <- db.objects :: k.id in claims && SameClaim(k, db.objects[k].value, claims[k.id]))
    && (forall id <- claims :: Key(claims[id].tenant, id) in db.objects)
  }

  predicate InvitesAgree(db: Db<Key, InviteSecret>, invitations: map<string, M.Invitation>) {
    && (forall k <- db.objects :: k.id in invitations && SameInvitation(k, db.objects[k].value, invitations[k.id]))
    && (forall id <- invitations :: Key(invitations[id].tenant, id) in db.objects)
  }

  predicate IdentitiesAgree(db: Db<Key, Identity>, identities: map<string, Identity>) {
    && (forall k <- db.objects ::
          && SlashFree(k.tenant) && Joined(k.tenant, k.id) in identities
          && identities[Joined(k.tenant, k.id)] == db.objects[k].value)
    && (forall j <- identities ::
          && Key(identities[j].tenant, identities[j].clusterID) in db.objects
          && j == Joined(identities[j].tenant, identities[j].clusterID))
  }

  /** The cluster state and the memory state describe the same records, up to whole-second expiries. */
  predicate Agree(s: State, m: M.MemoryState) {
    && ClaimsAgree(s.claims, m.claims)
    && InvitesAgree(s.invites, m.invitations)
    && IdentitiesAgree(s.identities, m.identities)
  }

  lemma ClaimAgrees(db: Db<Key, ClaimSecret>, claims: map<string, M.Claim>, k: Key)
    requires ClaimsAgree(db, claims) && k in db.objects
    ensures k.id in claims && SameClaim(k, db.objects[k].value, claims[k.id])
  {
  }

  lemma InvitationAgrees(db: Db<Key, InviteSecret>, invitations: map<string, M.Invitation>, k: Key)
    requires InvitesAgree(db, invitations) && k in db.objects
    ensures k.id in invitations && SameInvitation(k, db.objects[k].value, invitations[k.id])
  {
  }

  lemma ClaimConsumed(db: Db<Key, ClaimSecret>, claims: map<string, M.Claim>, k: Key, now: Time)
    requires ClaimsAgree(db, claims) && k in db.objects && now > 0
    ensures ClaimsAgree(
              Rewrite(db, k, db.objects[k].value.(usedAt := Some(now))),
              claims[k.id := claims[k.id].(usedAt := now)])
  {
    assert SameClaim(k, db.objects[k].value, claims[k.id]);
    forall j | j in db.objects && j.id == k.id ensures j == k {
      assert SameClaim(j, db.objects[j].value, claims[k.id]);
    }
  }

  lemma InvitationConsumed(db: Db<Key, InviteSecret>, invitations: map<string, M.Invitation>, k: Key, now: Time)
    requires InvitesAgree(db, invitations) && k in db.objects && now > 0
    ensures InvitesAgree(
              Rewrite(db, k, db.objects[k].value.(usedAt := Some(now))),
              invitations[k.id := invitations[k.id].(usedAt := now)])
  {
    assert SameInvitation(k, db.objects[k].value, invitations[k.id]);
    forall j | j in db.objects && j.id == k.id ensures j == k {
      assert SameInvitation(j, db.objects[j].value, invitations[k.id]);
    }
  }

  lemma IdentityAdded(db: Db<Key, Identity>, identities: map<string, Identity>, v: Identity)
    requires IdentitiesAgree(db, identities) && SlashFree(v.tenant)
    requires Key(v.tenant, v.clusterID) !in db.objects
    ensures Joined(v.tenant, v.clusterID) !in identities
    ensures IdentitiesAgree(Create(db, Key(v.tenant, v.clusterID), v), identities[Joined(v.tenant, v.clusterID) := v])
  {
    var j := Joined(v.tenant, v.clusterID);
    if j in identities {
      JoinedInjective(identities[j].tenant, identities[j].clusterID, v.tenant, v.clusterID);
    }
  }

  lemma ConsumeClaimAgrees(s: State, m: M.MemoryState, c: CallId, fault: Fault)
    requires c in s.calls && CallOk(s, s.calls[c]) && Agree(s, m) && s.calls[c].pc.ClaimWrite?
    requires CallCommit(s, s.calls[c], fault) != []
    ensures M.Step(m, CallCommit(s, s.calls[c], fault)[0]).Ok?
    ensures Agree(WriteClaim(s, c, fault), M.Step(m, CallCommit(s, s.calls[c], fault)[0]).value)
  {
    hide ClaimsAgree, InvitesAgree, IdentitiesAgree;
    var pc := s.calls[c].pc;
    ClaimAgrees(s.claims, m.claims, pc.key);
    ClaimConsumed(s.claims, m.claims, pc.key, pc.now);
  }

  lemma ConsumeInvitationAgrees(s: State, m: M.MemoryState, c: CallId, fault: Fault)
    requires c in s.calls && CallOk(s, s.calls[c]) && Agree(s, m) && s.calls[c].pc.InviteWrite?
    requires CallCommit(s, s.calls[c], fault) != []
    ensures M.Step(m, CallCommit(s, s.calls[c], fault)[0]).Ok?
    ensures Agree(WriteInvite(s, c, fault), M.Step(m, CallCommit(s, s.calls[c], fault)[0]).value)
  {
    hide ClaimsAgree, InvitesAgree, IdentitiesAgree;
    var pc := s.calls[c].pc;
    InvitationAgrees(s.invites, m.invitations, pc.key);
    InvitationConsumed(s.invites, m.invitations, pc.key, pc.now);
  }

  lemma RegisterAgrees(s: State, m: M.MemoryState, c: CallId, fault: Fault)
    requires c in s.calls && CallOk(s, s.calls[c]) && Stores(s) && Agree(s, m) && s.calls[c].pc.Registering?
    requires CallCommit(s, s.calls[c], fault) != []
    ensures M.Step(m, CallCommit(s, s.calls[c], fault)[0]).Ok?
    ensures Agree(Register(s, c, fault), M.Step(m, CallCommit(s, s.calls[c], fault)[0]).value)
  {
    IdentityAdded(s.identities, m.identities, s.calls[c].pc.identity);
  }

  lemma ClaimCreated(db: Db<Key, ClaimSecret>, claims: map<string, M.Claim>, k: Key, secret: ClaimSecret, v: M.Claim)
    requires ClaimsAgree(db, claims) && FreshId(db, k.id) && SameClaim(k, secret, v)
    ensures k.id !in claims && ClaimsAgree(Create(db, k, secret), claims[k.id := v])
  {
  }

  lemma CreateClaimAgrees(s: State, m: M.MemoryState, step: Step)
    requires Agree(s, m) && step.NewClaim? && Next(s, step) != s
    ensures M.Step(m, M.CreateClaim(NewClaimOf(s, step))).Ok?
    ensures Agree(Next(s, step), M.Step(m, M.CreateClaim(NewClaimOf(s, step))).value)
  {
    hide ClaimsAgree, InvitesAgree, IdentitiesAgree;
    ClaimCreated(s.claims, m.claims, step.key, Next(s, step).claims.objects[step.key].value, NewClaimOf(s, step));
  }

  lemma InvitationAdded(s: State, m: M.MemoryState, t: State, k: Key, secret: InviteSecret, v: M.Invitation)
    requires Agree(s, m) && FreshId(s.invites, k.id) && SameInvitation(k, secret, v)
    requires t.invites == Create(s.invites, k, secret) && t.claims == s.claims && t.identities == s.identities
    ensures M.Step(m, M.CreateInvitation(v)).Ok?
    ensures Agree(t, M.Step(m, M.CreateInvitation(v)).value)
  {
  }

  /** A call that commits nothing leaves every record alone. */
  lemma QuietAdvance(s: State, c: CallId, fault: Fault)
    requires c in s.calls && CallCommit(s, s.calls[c], fault) == []
    ensures AdvanceCall(s, c, fault).claims == s.claims
    ensures AdvanceCall(s, c, fault).invites == s.invites
    ensures AdvanceCall(s, c, fault).identities == s.identities
  {
  }

  lemma AdvanceAgrees(s: State, m: M.MemoryState, c: CallId, fault: Fault)
    requires c in s.calls && CallOk(s, s.calls[c]) && Stores(s) && Agree(s, m)
    ensures var ops := CallCommit(s, s.calls[c], fault);
            if ops == [] then Agree(AdvanceCall(s, c, fault), m)
            else |ops| == 1 && M.Step(m, ops[0]).Ok? && Agree(AdvanceCall(s, c, fault), M.Step(m, ops[0]).value)
  {
    if CallCommit(s, s.calls[c], fault) == [] {
      QuietAdvance(s, c, fault);
    } else {
      match s.calls[c].pc
      case ClaimWrite(_, _, _, _, _) => ConsumeClaimAgrees(s, m, c, fault);
      case InviteWrite(_, _, _, _, _) => ConsumeInvitationAgrees(s, m, c, fault);
      case Registering(_, _) => RegisterAgrees(s, m, c, fault);
    }
  }

  lemma TouchAgrees(s: State, m: M.MemoryState, step: Step)
    requires Agree(s, m) && (step.TouchClaim? || step.TouchInvite?)
    ensures Agree(Next(s, step), m)
  {
  }

  lemma NextAgrees(s: State, m: M.MemoryState, step: Step)
    requires Inv(s) && Agree(s, m)
    ensures var ops := Commit(s, step);
            if ops == [] then Agree(Next(s, step), m)
            else |ops| == 1 && M.Step(m, ops[0]).Ok? && Agree(Next(s, step), M.Step(m, ops[0]).value)
  {
    hide AdvanceCall, CallOk, CallCommit, ClaimsAgree, InvitesAgree, IdentitiesAgree, M.Step, MakersOk, RegistrarsOk, SingleUse;
    var t := Next(s, step);
    match step
    case NewClaim(_, _, _, _, _) =>
      if t != s { CreateClaimAgrees(s, m, step); }
    case NewInvitation(key, _, _, _) =>
      if t != s { InvitationAdded(s, m, t, key, t.invites.objects[key].value, NewInvitationOf(s, step)); }
    case Advance(c, fault) =>
      if c in s.calls {
        assert CallOk(s, s.calls[c]);
        AdvanceAgrees(s, m, c, fault);
      }
    case MakeInvitation(c, id, hash, fault) =>
      if Commit(s, step) != [] {
        var key := Key(s.calls[c].pc.key.tenant, id);
        InvitationAdded(s, m, t, key, t.invites.objects[key].value, MadeInvitationOf(s, step));
      }
    case TouchClaim(_) => TouchAgrees(s, m, step);
    case TouchInvite(_) => TouchAgrees(s, m, step);
    case _ =>
  }

  lemma CommitReplays(s: State, ops: seq<M.Op>, step: Step)
    requires Inv(s) && M.Replay(ops).Some? && Agree(s, M.Replay(ops).value)
    ensures M.Replay(ops + Commit(s, step)).Some?
    ensures Agree(Next(s, step), M.Replay(ops + Commit(s, step)).value)
  {
    hide Next, Commit, Inv, Agree;
    NextAgrees(s, M.Replay(ops).value, step);
    var committed := Commit(s, step);
    if committed == [] {
      assert ops + committed == ops;
    } else {
      assert ops + committed == ops + [committed[0]];
      M.ReplayExtends(ops, committed[0]);
    }
  }

  /** Every schedule refines the atomic store: its commits, replayed in memory, all succeed and reach the same records. */
  lemma {:induction false} RefinesMemoryStore(schedule: seq<Step>)
    ensures M.Replay(Commits(schedule)).Some?
    ensures Agree(Exec(schedule), M.Replay(Commits(schedule)).value)
  {
    if schedule != [] {
      var before := schedule[..|schedule| - 1];
      RefinesMemoryStore(before);
      Invariant(before);
      CommitReplays(Exec(before), Commits(before), schedule[|schedule| - 1]);
    }
  }

  // ---------------------------------------------------------------------------------------------
  // Where the two stores judge differently
  // ---------------------------------------------------------------------------------------------

  function MemoryOf(schedule: seq<Step>): (m: M.MemoryState)
    ensures M.Replay(Commits(schedule)) == Some(m) && Agree(Exec(schedule), m)
  {
    RefinesMemoryStore(schedule);
    M.Replay(Commits(schedule)).value
  }

  predicate SameVerdict<A, B, E(==)>(a: Result<A, E>, b: Result<B, E>) {
    (a.Ok? <==> b.Ok?) && (a.Err? ==> a.error == b.error)
  }

  /** The claim is unused and its token right, and the clock is in the part of its last second that the stored expiry lost. */
  predicate InLostSecond(db: Db<Key, ClaimSecret>, key: Key, hash: string, now: Time, exact: Time) {
    && key in db.objects && db.objects[key].value.tokenHash == hash && db.objects[key].value.usedAt.None?
    && db.objects[key].value.expires <= now < exact
  }

  /** In every reachable state, for every token and clock, the stores judge a claim alike exactly outside that lost second. */
  lemma ClaimVerdictsAgree(schedule: seq<Step>, key: Key, hash: string, now: Time)
    ensures var m := MemoryOf(schedule);
            && (key in Exec(schedule).claims.objects ==> key.id in m.claims)
            && (SameVerdict(ClaimVerdict(Exec(schedule).claims, key, hash, now), M.ClaimVerdict(m.claims, key.tenant, key.id, hash, now))
                <==> !(key in Exec(schedule).claims.objects
                       && InLostSecond(Exec(schedule).claims, key, hash, now, m.claims[key.id].expiresAt)))
  {
    var m := MemoryOf(schedule);
    if key in Exec(schedule).claims.objects {
      ClaimAgrees(Exec(schedule).claims, m.claims, key);
    }
  }

  /** The invitation is unused, its token right and its cluster binding met, and the clock is in the lost part of its last second. */
  predicate InviteInLostSecond(db: Db<Key, InviteSecret>, key: Key, hash: string, clusterID: string, now: Time, exact: Time) {
    && key in db.objects
    && var v := db.objects[key].value;
       && v.tokenHash == hash && (v.clusterID == "" || v.clusterID == clusterID) && v.usedAt.None?
       && v.expires <= now < exact
  }

  /** The token is right for an invitation of that id in another tenant: the cluster store finds nothing, the in-memory store a mismatch. */
  predicate OtherTenants(db: Db<Key, InviteSecret>, key: Key, hash: string) {
    exists k <- db.objects :: k.id == key.id && k.tenant != key.tenant && db.objects[k].value.tokenHash == hash
  }

  /**
   The same for invitations: alike exactly outside the lost second and apart from another tenant's invitation. Both
   stores' words for a missing invitation and for a wrong token count as the one refusal `Invalid`.
   */
  lemma InvitationVerdictsAgree(schedule: seq<Step>, key: Key, hash: string, identity: Identity, now: Time)
    ensures var m, db := MemoryOf(schedule), Exec(schedule).invites;
            && (key in db.objects ==> key.id in m.invitations)
            && (SameVerdict(
                  InviteVerdict(db, key, hash, identity, now),
                  M.InvitationVerdict(m.invitations, key.id, hash, key.tenant, identity.clusterID, identity.capabilities, now))
                <==> !OtherTenants(db, key, hash)
                     && !(key in db.objects
                          && InviteInLostSecond(db, key, hash, identity.clusterID, now, m.invitations[key.id].expiresAt)))
  {
    var m, db := MemoryOf(schedule), Exec(schedule).invites;
    assert InvitesAgree(db, m.invitations);
    hide Agree, Exec, MemoryOf;
    InviteVerdictsDiffer(db, m.invitations, key, hash, identity, now);
  }

  lemma InviteVerdictsDiffer(
    db: Db<Key, InviteSecret>, invitations: map<string, M.Invitation>, key: Key, hash: string, identity: Identity, now: Time)
    requires InvitesAgree(db, invitations)
    ensures key in db.objects ==> key.id in invitations
    ensures SameVerdict(
              InviteVerdict(db, key, hash, identity, now),
              M.InvitationVerdict(invitations, key.id, hash, key.tenant, identity.clusterID, identity.capabilities, now))
            <==> !OtherTenants(db, key, hash)
                 && !(key in db.objects
                      && InviteInLostSecond(db, key, hash, identity.clusterID, now, invitations[key.id].expiresAt))
  {
    hide M.Included;
    if key in db.objects {
      InvitationAgrees(db, invitations, key);
      OneInvitationPerId(db, invitations, key);
    } else if key.id in invitations {
      var k := Key(invitations[key.id].tenant, key.id);
      InvitationAgrees(db, invitations, k);
      OneInvitationPerId(db, invitations, k);
    } else {
      assert forall k <- db.objects :: k.id in invitations;
    }
  }

  lemma OneInvitationPerId(db: Db<Key, InviteSecret>, invitations: map<string, M.Invitation>, key: Key)
    requires InvitesAgree(db, invitations) && key in db.objects
    ensures forall k <- db.objects :: k.id == key.id ==> k == key
  {
    InvitationAgrees(db, invitations, key);
    forall k | k in db.objects && k.id == key.id ensures k == key {
      InvitationAgrees(db, invitations, k);
    }
  }

  /** Runs whose clock stands in the lost second of a claim and of an invitation, which the cluster store then calls expired. */
  lemma LostSecondIsReached(key: Key) returns (schedule: seq<Step>)
    requires SlashFree(key.tenant)
    ensures var s, m := Exec(schedule), MemoryOf(schedule);
            && ClaimVerdict(s.claims, key, "", s.clock) == Err(M.Expired)
            && M.ClaimVerdict(m.claims, key.tenant, key.id, "", s.clock).Ok?
            && (forall v: Identity :: InviteVerdict(s.invites, key, "", v, s.clock) == Err(M.Expired))
            && (forall c: string :: M.InvitationVerdict(m.invitations, key.id, "", key.tenant, c, [], s.clock).Ok?)
  {
    var claim, invite, tick := NewClaim(key, "", "a", "a", 60), NewInvitation(key, "", [], 60), Tick(60 * SECOND - 1);
    schedule := [claim, invite, tick];
    assert schedule[..2] == [claim, invite] && [claim, invite][..1] == [claim] && [claim][..0] == [];
    var s1, s2 := Exec([claim]), Exec([claim, invite]);
    assert s1 == Next(INIT, claim) && s2 == Next(s1, invite) && Exec(schedule) == Next(s2, tick);
    assert Commits([claim]) == [M.CreateClaim(NewClaimOf(INIT, claim))];
    assert Commits([claim, invite]) == Commits([claim]) + [M.CreateInvitation(NewInvitationOf(s1, invite))];
    assert Commits(schedule) == Commits([claim, invite]);
    assert Commits([claim])[..0] == [];
    M.ReplayExtends([], Commits([claim])[0]);
    assert [] + Commits([claim]) == Commits([claim]);
    M.ReplayExtends(Commits([claim]), M.CreateInvitation(NewInvitationOf(s1, invite)));
  }
}
