/**
 Onboarding over the API server: claims become invitations, invitations become identities. Any number
 of Hub replicas run the handlers one API call at a time, in any interleaving; a call that is never
 advanced again has crashed.
 */
module Onboarding {
  import opened Values
  import opened Protocol
  import opened ApiServer
  import M = MemoryStore

  datatype ClaimSecret = ClaimSecret(
    tokenHash: string, clusterID: string, region: string, expires: Time, usedAt: Option<Time>)

  datatype InviteSecret = InviteSecret(
    tokenHash: string, capabilities: seq<string>, clusterID: string, region: string, expires: Time, usedAt: Option<Time>)

  type CallId = nat

  /** What can happen to a write besides a version conflict. */
  datatype Fault = NoFault | WriteRefused | ReplyLost

  datatype Answer =
    | Delivered
    | Registered
    | ClaimRefused(claim: Key, error: M.StoreError)
    | InviteRefused(error: M.StoreError)
    | ClaimConflict(contested: Key)
    | WriteFailed

  /** The program counter of one handler, with the locals that are still live. */
  datatype Pc =
    | ClaimRead(key: Key, hash: string, now: Time, attempt: nat)
    | ClaimWrite(key: Key, hash: string, now: Time, attempt: nat, claimSnapshot: Stored<ClaimSecret>)
    | ClaimWon(key: Key, clusterID: string, region: string)
    | InviteRead(key: Key, hash: string, identity: Identity, now: Time)
    | InviteWrite(key: Key, hash: string, identity: Identity, now: Time, inviteSnapshot: Stored<InviteSecret>)
    | Registering(key: Key, identity: Identity)
    | Done(answer: Answer)

  /** A handler and the writes it has committed. `claimOk` says that it also saw its claim write succeed. */
  datatype Call = Call(
    pc: Pc, claimed: Option<Key>, claimOk: bool, made: Option<Key>, used: Option<Key>, registered: Option<Key>)

  /** `maker` and `registrar` remember which call created an invitation or an identity. */
  datatype State = State(
    clock: Time,
    claims: Db<Key, ClaimSecret>,
    invites: Db<Key, InviteSecret>,
    identities: Db<Key, Identity>,
    calls: map<CallId, Call>,
    maker: map<Key, CallId>,
    registrar: map<Key, CallId>)

  datatype Step =
    | Tick(elapsed: nat)
    | NewClaim(key: Key, hash: string, clusterID: string, region: string, ttl: int)
    | NewInvitation(key: Key, hash: string, capabilities: seq<string>, ttl: int)
    | StartOnboarding(c: CallId, tenant: string, id: string, hash: string)
    | StartAccept(c: CallId, id: string, hash: string, identity: Identity, proof: Signature<Identity>)
    | Advance(c: CallId, fault: Fault)
    | MakeInvitation(c: CallId, id: string, hash: string, fault: Fault)
    | TouchClaim(key: Key)
    | TouchInvite(key: Key)

  const INIT: State := State(1, Db(0, map[]), Db(0, map[]), Db(0, map[]), map[], map[], map[])

  // ---------------------------------------------------------------------------------------------
  // The handlers
  // ---------------------------------------------------------------------------------------------

  predicate DnsLetter(c: char) {
    'a' <= c <= 'z' || '0' <= c <= '9'
  }

  predicate DnsSafe(s: string) {
    && 1 <= |s| <= 63
    && DnsLetter(s[0]) && DnsLetter(s[|s| - 1])
    && forall i | 0 <= i < |s| :: DnsLetter(s[i]) || s[i] == '-'
  }

  function Ttl(requested: int, default: int): int {
    if requested == 0 then default else requested
  }

  predicate TtlAllowed(ttl: int) {
    60 <= ttl <= 86400
  }

  /** Random identifiers never repeat, in any namespace. */
  predicate FreshId<T>(db: Db<Key, T>, id: string) {
    forall k <- db.objects :: k.id != id
  }

  const ONBOARDING_CAPABILITIES: seq<string> := ["service", "quic-mtls"]

  /** The checks of one attempt to consume a claim, on what was read. */
  function ClaimVerdict(db: Db<Key, ClaimSecret>, key: Key, hash: string, now: Time): Result<Stored<ClaimSecret>, M.StoreError> {
    if key !in db.objects || db.objects[key].value.tokenHash != hash then Err(M.Invalid)
    else if db.objects[key].value.usedAt.Some? then Err(M.AlreadyUsed)
    else if !(now < db.objects[key].value.expires) then Err(M.Expired)
    else Ok(db.objects[key])
  }

  function InviteVerdict(db: Db<Key, InviteSecret>, key: Key, hash: string, identity: Identity, now: Time)
    : Result<Stored<InviteSecret>, M.StoreError>
  {
    if key !in db.objects then Err(M.Invalid)
    else
      var v := db.objects[key].value;
      if v.tokenHash != hash then Err(M.Invalid)
      else if v.clusterID != "" && v.clusterID != identity.clusterID then Err(M.ClusterMismatch)
      else if v.usedAt.Some? then Err(M.AlreadyUsed)
      else if !(now < v.expires) then Err(M.Expired)
      else if !M.Included(v.capabilities, identity.capabilities) then Err(M.CapabilityNotInvited)
      else Ok(db.objects[key])
  }

  function Goto(s: State, c: CallId, pc: Pc): (t: State)
    requires c in s.calls
    ensures c in t.calls && t.calls == s.calls[c := s.calls[c].(pc := pc)]
  {
    s.(calls := s.calls[c := s.calls[c].(pc := pc)])
  }

  function AfterClaimRead(s: State, pc: Pc): Pc
    requires pc.ClaimRead?
  {
    match ClaimVerdict(s.claims, pc.key, pc.hash, pc.now)
    case Err(e) => Done(ClaimRefused(pc.key, e))
    case Ok(snapshot) => ClaimWrite(pc.key, pc.hash, pc.now, pc.attempt, snapshot)
  }

  function AfterInviteRead(s: State, pc: Pc): (r: Pc)
    requires pc.InviteRead?
    ensures r.InviteWrite? || (r.Done? && r.answer.InviteRefused?)
  {
    match InviteVerdict(s.invites, pc.key, pc.hash, pc.identity, pc.now)
    case Err(e) => Done(InviteRefused(e))
    case Ok(snapshot) => InviteWrite(pc.key, pc.hash, pc.identity, pc.now, snapshot)
  }

  function WriteClaim(s: State, c: CallId, fault: Fault): (t: State)
    requires c in s.calls && s.calls[c].pc.ClaimWrite?
    ensures c in t.calls && t.calls == s.calls[c := t.calls[c]]
    ensures t.invites == s.invites && t.identities == s.identities && t.maker == s.maker && t.registrar == s.registrar && t.clock == s.clock
  {
    var call := s.calls[c];
    var pc := call.pc;
    if fault.WriteRefused? then Goto(s, c, Done(WriteFailed))
    else if !Matches(s.claims, pc.key, pc.claimSnapshot) then
      Goto(s, c, if pc.attempt + 1 < 3 then ClaimRead(pc.key, pc.hash, pc.now, pc.attempt + 1) else Done(ClaimConflict(pc.key)))
    else
      var secret := pc.claimSnapshot.value;
      s.(claims := Rewrite(s.claims, pc.key, secret.(usedAt := Some(pc.now))),
         calls := s.calls[c := call.(
           claimed := Some(pc.key),
           claimOk := fault.NoFault?,
           pc := if fault.NoFault? then ClaimWon(pc.key, secret.clusterID, secret.region) else Done(WriteFailed))])
  }

  function WriteInvite(s: State, c: CallId, fault: Fault): (t: State)
    requires c in s.calls && s.calls[c].pc.InviteWrite?
    ensures c in t.calls && t.calls == s.calls[c := t.calls[c]]
    ensures t.claims == s.claims && t.identities == s.identities && t.maker == s.maker && t.registrar == s.registrar && t.clock == s.clock
    ensures t.calls[c].pc == Done(WriteFailed) || t.calls[c].pc.Registering?
  {
    var call := s.calls[c];
    var pc := call.pc;
    if fault.WriteRefused? || !Matches(s.invites, pc.key, pc.inviteSnapshot) then Goto(s, c, Done(WriteFailed))
    else
      var secret := pc.inviteSnapshot.value;
      s.(invites := Rewrite(s.invites, pc.key, secret.(usedAt := Some(pc.now))),
         calls := s.calls[c := call.(
           used := Some(pc.key),
           pc := if fault.NoFault? then Registering(pc.key, pc.identity.(region := secret.region)) else Done(WriteFailed))])
  }

  function Register(s: State, c: CallId, fault: Fault): (t: State)
    requires c in s.calls && s.calls[c].pc.Registering?
    ensures c in t.calls && t.calls == s.calls[c := t.calls[c]]
    ensures t.claims == s.claims && t.invites == s.invites
    ensures t.calls[c].pc == Done(WriteFailed) || t.calls[c].pc == Done(Registered)
  {
    var call := s.calls[c];
    var identity := call.pc.identity;
    var key := Key(identity.tenant, identity.clusterID);
    if fault.WriteRefused? || key in s.identities.objects then Goto(s, c, Done(WriteFailed))
    else
      s.(identities := Create(s.identities, key, identity),
         registrar := s.registrar[key := c],
         calls := s.calls[c := call.(registered := Some(key), pc := Done(if fault.NoFault? then Registered else WriteFailed))])
  }

  function AdvanceCall(s: State, c: CallId, fault: Fault): (t: State)
    requires c in s.calls
    ensures c in t.calls && t.calls == s.calls[c := t.calls[c]]
  {
    match s.calls[c].pc
    case ClaimRead(_, _, _, _) => Goto(s, c, AfterClaimRead(s, s.calls[c].pc))
    case ClaimWrite(_, _, _, _, _) => WriteClaim(s, c, fault)
    case InviteRead(_, _, _, _) => Goto(s, c, AfterInviteRead(s, s.calls[c].pc))
    case InviteWrite(_, _, _, _, _) => WriteInvite(s, c, fault)
    case Registering(_, _) => Register(s, c, fault)
    case _ => s
  }

  /** The second half of a won claim: the 15-minute invitation bound to the claim's cluster and region. */
  function Invite(s: State, c: CallId, id: string, hash: string, fault: Fault): (t: State)
    requires c in s.calls && s.calls[c].pc.ClaimWon? && FreshId(s.invites, id)
    ensures c in t.calls && t.calls == s.calls[c := t.calls[c]]
    ensures t.claims == s.claims && t.identities == s.identities
  {
    var call := s.calls[c];
    if fault.WriteRefused? then Goto(s, c, Done(WriteFailed))
    else
      var key := Key(call.pc.key.tenant, id);
      var secret := InviteSecret(
        hash, ONBOARDING_CAPABILITIES, call.pc.clusterID, call.pc.region, WholeSeconds(s.clock + 15 * MINUTE), None);
      s.(invites := Create(s.invites, key, secret),
         maker := s.maker[key := c],
         calls := s.calls[c := call.(made := Some(key), pc := Done(if fault.NoFault? then Delivered else WriteFailed))])
  }

  const NEW_CALL: Call := Call(Done(WriteFailed), None, false, None, None, None)

  function Next(s: State, step: Step): State {
    match step
    case Tick(elapsed) => s.(clock := s.clock + elapsed)
    case NewClaim(key, hash, clusterID, region, ttl) =>
      if SlashFree(key.tenant) && FreshId(s.claims, key.id) && DnsSafe(clusterID) && DnsSafe(region) && TtlAllowed(Ttl(ttl, 86400)) then
        s.(claims := Create(s.claims, key,
             ClaimSecret(hash, clusterID, region, WholeSeconds(s.clock + Ttl(ttl, 86400) * SECOND), None)))
      else s
    case NewInvitation(key, hash, capabilities, ttl) =>
      if SlashFree(key.tenant) && FreshId(s.invites, key.id) && TtlAllowed(Ttl(ttl, 900)) then
        s.(invites := Create(s.invites, key,
             InviteSecret(hash, capabilities, "", "", WholeSeconds(s.clock + Ttl(ttl, 900) * SECOND), None)))
      else s
    case StartOnboarding(c, tenant, id, hash) =>
      if c !in s.calls then s.(calls := s.calls[c := NEW_CALL.(pc := ClaimRead(Key(tenant, id), hash, s.clock, 0))]) else s
    case StartAccept(c, id, hash, identity, proof) =>
      if c !in s.calls && ValidIdentity(identity) && SignatureValid(identity.publicKey.value, identity, proof) then
        s.(calls := s.calls[c := NEW_CALL.(pc := InviteRead(Key(identity.tenant, id), hash, identity, s.clock))])
      else s
    case Advance(c, fault) => if c in s.calls then AdvanceCall(s, c, fault) else s
    case MakeInvitation(c, id, hash, fault) =>
      if c in s.calls && s.calls[c].pc.ClaimWon? && FreshId(s.invites, id) then Invite(s, c, id, hash, fault) else s
    case TouchClaim(key) =>
      if key in s.claims.objects then s.(claims := Rewrite(s.claims, key, s.claims.objects[key].value)) else s
    case TouchInvite(key) =>
      if key in s.invites.objects then s.(invites := Rewrite(s.invites, key, s.invites.objects[key].value)) else s
  }

  /** The state after a schedule: an arbitrary interleaving of all handlers on all replicas. */
  function Exec(schedule: seq<Step>): State {
    if schedule == [] then INIT
    else Next(Exec(schedule[..|schedule| - 1]), schedule[|schedule| - 1])
  }

  // ---------------------------------------------------------------------------------------------
  // The invariant
  // ---------------------------------------------------------------------------------------------

  predicate UsedIn(db: Db<Key, ClaimSecret>, k: Key) {
    k in db.objects && db.objects[k].value.usedAt.Some?
  }

  predicate ClaimUsed(s: State, k: Key) {
    UsedIn(s.claims, k)
  }

  predicate InviteUsed(s: State, k: Key) {
    k in s.invites.objects && s.invites.objects[k].value.usedAt.Some?
  }

  /** The identity keeps the tenant, region, cluster binding and capability bounds of the invitation under `k`. */
  predicate BoundBy(s: State, k: Key, identity: Identity) {
    && k in s.invites.objects
    && var v := s.invites.objects[k].value;
       && identity.tenant == k.tenant
       && identity.region == v.region
       && (v.clusterID != "" ==> identity.clusterID == v.clusterID)
       && M.Included(v.capabilities, identity.capabilities)
  }

  /** The invitation under `invite` carries the tenant, cluster and region of the claim under `claim`. */
  predicate MadeFrom(s: State, claim: Key, invite: Key) {
    && claim in s.claims.objects && invite in s.invites.objects
    && invite.tenant == claim.tenant
    && s.invites.objects[invite].value.clusterID == s.claims.objects[claim].value.clusterID
    && s.invites.objects[invite].value.region == s.claims.objects[claim].value.region
    && s.invites.objects[invite].value.capabilities == ONBOARDING_CAPABILITIES
  }

  predicate PcOk(s: State, call: Call) {
    match call.pc
    case ClaimRead(_, _, now, _) =>
      call.claimed.None? && call.made.None? && call.used.None? && call.registered.None? && now > 0
    case ClaimWrite(key, hash, now, _, snapshot) =>
      && call.claimed.None? && call.made.None? && call.used.None? && call.registered.None? && now > 0
      && Snapshot(s.claims, key, snapshot)
      && snapshot.value.tokenHash == hash && snapshot.value.usedAt.None? && now < snapshot.value.expires
    case ClaimWon(key, clusterID, region) =>
      && call.claimed == Some(key) && call.claimOk && call.made.None? && call.used.None? && call.registered.None?
      && key in s.claims.objects
      && s.claims.objects[key].value.clusterID == clusterID && s.claims.objects[key].value.region == region
    case InviteRead(key, _, identity, now) =>
      call.used.None? && call.registered.None? && now > 0 && key.tenant == identity.tenant
    case InviteWrite(key, hash, identity, now, snapshot) =>
      && call.used.None? && call.registered.None? && now > 0 && key.tenant == identity.tenant
      && Snapshot(s.invites, key, snapshot)
      && snapshot.value.tokenHash == hash && snapshot.value.usedAt.None? && now < snapshot.value.expires
      && (snapshot.value.clusterID != "" ==> snapshot.value.clusterID == identity.clusterID)
      && M.Included(snapshot.value.capabilities, identity.capabilities)
    case Registering(key, identity) =>
      call.used == Some(key) && call.registered.None? && BoundBy(s, key, identity)
    case Done(answer) =>
      answer.ClaimRefused? && answer.error == M.AlreadyUsed ==> ClaimUsed(s, answer.claim)
  }

  predicate CallOk(s: State, call: Call) {
    && PcOk(s, call)
    && (call.claimed.Some? ==> ClaimUsed(s, call.claimed.value))
    && (call.used.Some? ==> InviteUsed(s, call.used.value))
    && (call.made.Some? ==> call.claimed.Some?)
    && (call.registered.Some? ==> call.used.Some?)
  }

  predicate MakerOk(s: State, k: Key) {
    && k in s.maker && s.maker[k] in s.calls
    && s.calls[s.maker[k]].made == Some(k) && s.calls[s.maker[k]].claimed.Some?
    && MadeFrom(s, s.calls[s.maker[k]].claimed.value, k)
  }

  predicate RegistrarOk(s: State, k: Key) {
    && k in s.identities.objects && k in s.registrar && s.registrar[k] in s.calls
    && s.calls[s.registrar[k]].registered == Some(k) && s.calls[s.registrar[k]].used.Some?
    && k == Key(s.identities.objects[k].value.tenant, s.identities.objects[k].value.clusterID)
    && BoundBy(s, s.calls[s.registrar[k]].used.value, s.identities.objects[k].value)
  }

  /** No claim and no invitation is consumed by two calls. */
  predicate SingleUse(s: State) {
    forall c, d | c in s.calls && d in s.calls && c != d ::
      && (s.calls[c].claimed.Some? ==> s.calls[c].claimed != s.calls[d].claimed)
      && (s.calls[c].used.Some? ==> s.calls[c].used != s.calls[d].used)
  }

  predicate Stores(s: State) {
    && s.clock > 0
    && StoreOk(s.claims) && StoreOk(s.invites) && Valid(s.identities)
  }

  predicate CallsOk(s: State) {
    forall c <- s.calls :: CallOk(s, s.calls[c])
  }

  predicate MakersOk(s: State) {
    forall k <- s.maker :: MakerOk(s, k)
  }

  predicate RegistrarsOk(s: State) {
    forall k <- s.identities.objects :: RegistrarOk(s, k)
  }

  predicate Inv(s: State) {
    && Stores(s)
    && CallsOk(s)
    && SingleUse(s)
    && MakersOk(s)
    && RegistrarsOk(s)
  }

  /** Secrets are never deleted; only `usedAt` ever changes, and only from unset to set. */
  predicate ClaimsGrow(a: Db<Key, ClaimSecret>, b: Db<Key, ClaimSecret>) {
    && Evolves(a, b)
    && forall k <- a.objects ::
         && k in b.objects
         && b.objects[k].value.(usedAt := None) == a.objects[k].value.(usedAt := None)
         && (a.objects[k].value.usedAt.Some? ==> b.objects[k].value.usedAt.Some?)
  }

  predicate InvitesGrow(a: Db<Key, InviteSecret>, b: Db<Key, InviteSecret>) {
    && Evolves(a, b)
    && forall k <- a.objects ::
         && k in b.objects
         && b.objects[k].value.(usedAt := None) == a.objects[k].value.(usedAt := None)
         && (a.objects[k].value.usedAt.Some? ==> b.objects[k].value.usedAt.Some?)
  }

  predicate SecretsGrow(s: State, t: State) {
    ClaimsGrow(s.claims, t.claims) && InvitesGrow(s.invites, t.invites)
  }

  predicate StoreOk<T>(db: Db<Key, T>) {
    Valid(db) && forall k <- db.objects :: SlashFree(k.tenant)
  }

  lemma ClaimAdded(db: Db<Key, ClaimSecret>, k: Key, v: ClaimSecret)
    requires StoreOk(db) && k !in db.objects && SlashFree(k.tenant)
    ensures StoreOk(Create(db, k, v)) && ClaimsGrow(db, Create(db, k, v))
  {
  }

  lemma ClaimRewritten(db: Db<Key, ClaimSecret>, k: Key, v: ClaimSecret)
    requires StoreOk(db) && k in db.objects
    requires v == db.objects[k].value || (db.objects[k].value.usedAt.None? && v.(usedAt := None) == db.objects[k].value)
    ensures StoreOk(Rewrite(db, k, v)) && ClaimsGrow(db, Rewrite(db, k, v))
  {
  }

  lemma InviteAdded(db: Db<Key, InviteSecret>, k: Key, v: InviteSecret)
    requires StoreOk(db) && k !in db.objects && SlashFree(k.tenant)
    ensures StoreOk(Create(db, k, v)) && InvitesGrow(db, Create(db, k, v))
  {
  }

  lemma InviteRewritten(db: Db<Key, InviteSecret>, k: Key, v: InviteSecret)
    requires StoreOk(db) && k in db.objects
    requires v == db.objects[k].value || (db.objects[k].value.usedAt.None? && v.(usedAt := None) == db.objects[k].value)
    ensures StoreOk(Rewrite(db, k, v)) && InvitesGrow(db, Rewrite(db, k, v))
  {
  }

  lemma CallSurvives(s: State, t: State, call: Call)
    requires CallOk(s, call) && SecretsGrow(s, t)
    ensures CallOk(t, call)
  {
    match call.pc
    case ClaimWrite(key, _, _, _, snapshot) => SnapshotSurvives(s.claims, t.claims, key, snapshot);
    case InviteWrite(key, _, _, _, snapshot) => SnapshotSurvives(s.invites, t.invites, key, snapshot);
    case _ =>
  }

  /** Call `c` may have moved from `s` to `t`; it keeps what it had committed, and what it newly consumed was unused. */
  predicate Moved(s: State, t: State, c: CallId) {
    && c in t.calls && t.calls == s.calls[c := t.calls[c]]
    && var before := if c in s.calls then s.calls[c] else NEW_CALL;
       var after := t.calls[c];
       && (if before.claimed.Some? then after.claimed == before.claimed else after.claimed.Some? ==> !ClaimUsed(s, after.claimed.value))
       && (if before.used.Some? then after.used == before.used else after.used.Some? ==> !InviteUsed(s, after.used.value))
       && (before.made.Some? ==> after.made == before.made)
       && (before.registered.Some? ==> after.registered == before.registered)
  }

  lemma MovedCalls(s: State, t: State, c: CallId)
    requires CallsOk(s) && SecretsGrow(s, t) && Moved(s, t, c) && CallOk(t, t.calls[c])
    ensures CallsOk(t)
  {
    forall d | d in t.calls ensures CallOk(t, t.calls[d]) {
      if d != c {
        CallSurvives(s, t, s.calls[d]);
      }
    }
  }

  lemma MovedSingleUse(s: State, t: State, c: CallId)
    requires CallsOk(s) && SingleUse(s) && Moved(s, t, c)
    ensures SingleUse(t)
  {
    forall d, e | d in t.calls && e in t.calls && d != e
      ensures t.calls[d].claimed.Some? ==> t.calls[d].claimed != t.calls[e].claimed
      ensures t.calls[d].used.Some? ==> t.calls[d].used != t.calls[e].used
    {
      if d != c { assert CallOk(s, s.calls[d]); }
      if e != c { assert CallOk(s, s.calls[e]); }
    }
  }

  lemma MakerSurvives(s: State, t: State, c: CallId, k: Key)
    requires MakerOk(s, k) && SecretsGrow(s, t) && Moved(s, t, c)
    requires k in t.maker && t.maker[k] == s.maker[k]
    ensures MakerOk(t, k)
  {
  }

  lemma RegistrarSurvives(s: State, t: State, c: CallId, k: Key)
    requires RegistrarOk(s, k) && SecretsGrow(s, t) && Moved(s, t, c)
    requires k in t.identities.objects && t.identities.objects[k] == s.identities.objects[k]
    requires k in t.registrar && t.registrar[k] == s.registrar[k]
    ensures RegistrarOk(t, k)
  {
  }

  /** A handler step that leaves provenance alone and ends in good order keeps the invariant. */
  lemma Reestablish(s: State, t: State, c: CallId)
    requires Inv(s) && SecretsGrow(s, t) && Stores(t) && Moved(s, t, c) && CallOk(t, t.calls[c])
    requires t.maker == s.maker && t.registrar == s.registrar && t.identities == s.identities
    ensures Inv(t)
  {
    MovedCalls(s, t, c);
    MovedSingleUse(s, t, c);
    forall k | k in t.maker ensures MakerOk(t, k) {
      MakerSurvives(s, t, c, k);
    }
    forall k | k in t.identities.objects ensures RegistrarOk(t, k) {
      RegistrarSurvives(s, t, c, k);
    }
  }

  /** As `Reestablish`, for steps that move no call. */
  lemma ReestablishStores(s: State, t: State)
    requires Inv(s) && SecretsGrow(s, t) && Stores(t)
    requires t.calls == s.calls && t.maker == s.maker && t.registrar == s.registrar && t.identities == s.identities
    ensures Inv(t)
  {
    forall d | d in t.calls ensures CallOk(t, t.calls[d]) {
      CallSurvives(s, t, s.calls[d]);
    }
    forall k | k in t.maker ensures MakerOk(t, k) {
      assert MakerOk(s, k);
    }
    forall k | k in t.identities.objects ensures RegistrarOk(t, k) {
      assert RegistrarOk(s, k);
    }
  }

  lemma WriteClaimOk(s: State, c: CallId, fault: Fault)
    requires Stores(s) && c in s.calls && CallOk(s, s.calls[c]) && s.calls[c].pc.ClaimWrite?
    ensures var t := WriteClaim(s, c, fault);
            StoreOk(t.claims) && ClaimsGrow(s.claims, t.claims) && CallOk(t, t.calls[c]) && Moved(s, t, c)
  {
    var pc := s.calls[c].pc;
    if !fault.WriteRefused? && Matches(s.claims, pc.key, pc.claimSnapshot) {
      ClaimRewritten(s.claims, pc.key, pc.claimSnapshot.value.(usedAt := Some(pc.now)));
    }
  }

  lemma WriteClaimInv(s: State, c: CallId, fault: Fault)
    requires Inv(s) && c in s.calls && s.calls[c].pc.ClaimWrite?
    ensures Inv(WriteClaim(s, c, fault)) && SecretsGrow(s, WriteClaim(s, c, fault))
  {
    hide PcOk, WriteClaim;
    assert CallOk(s, s.calls[c]);
    WriteClaimOk(s, c, fault);
    Reestablish(s, WriteClaim(s, c, fault), c);
  }

  lemma WriteInviteOk(s: State, c: CallId, fault: Fault)
    requires Stores(s) && c in s.calls && CallOk(s, s.calls[c]) && s.calls[c].pc.InviteWrite?
    ensures var t := WriteInvite(s, c, fault);
            StoreOk(t.invites) && InvitesGrow(s.invites, t.invites) && CallOk(t, t.calls[c]) && Moved(s, t, c)
  {
    var pc := s.calls[c].pc;
    if !fault.WriteRefused? && Matches(s.invites, pc.key, pc.inviteSnapshot) {
      InviteRewritten(s.invites, pc.key, pc.inviteSnapshot.value.(usedAt := Some(pc.now)));
    }
  }

  lemma WriteInviteInv(s: State, c: CallId, fault: Fault)
    requires Inv(s) && c in s.calls && s.calls[c].pc.InviteWrite?
    ensures Inv(WriteInvite(s, c, fault)) && SecretsGrow(s, WriteInvite(s, c, fault))
  {
    hide PcOk, WriteInvite;
    assert CallOk(s, s.calls[c]);
    WriteInviteOk(s, c, fault);
    Reestablish(s, WriteInvite(s, c, fault), c);
  }

  lemma RegisterOk(s: State, c: CallId, fault: Fault)
    requires Stores(s) && c in s.calls && CallOk(s, s.calls[c]) && s.calls[c].pc.Registering?
    ensures var t := Register(s, c, fault);
            Valid(t.identities) && CallOk(t, t.calls[c]) && Moved(s, t, c) && t.maker == s.maker && t.clock == s.clock
  {
  }

  lemma RegisteredOk(s: State, c: CallId, fault: Fault)
    requires c in s.calls && CallOk(s, s.calls[c]) && s.calls[c].pc.Registering?
    ensures var t := Register(s, c, fault);
            forall k <- t.identities.objects ::
              || RegistrarOk(t, k)
              || (k in s.identities.objects && t.identities.objects[k] == s.identities.objects[k]
                  && (k in s.registrar ==> k in t.registrar && t.registrar[k] == s.registrar[k]))
  {
  }

  lemma RegisterInv(s: State, c: CallId, fault: Fault)
    requires Inv(s) && c in s.calls && s.calls[c].pc.Registering?
    ensures Inv(Register(s, c, fault)) && SecretsGrow(s, Register(s, c, fault))
  {
    hide PcOk, Register;
    var t := Register(s, c, fault);
    assert CallOk(s, s.calls[c]);
    RegisterOk(s, c, fault);
    RegisteredOk(s, c, fault);
    MovedCalls(s, t, c);
    MovedSingleUse(s, t, c);
    forall k | k in t.maker ensures MakerOk(t, k) {
      MakerSurvives(s, t, c, k);
    }
    forall k | k in t.identities.objects ensures RegistrarOk(t, k) {
      if !RegistrarOk(t, k) {
        RegistrarSurvives(s, t, c, k);
      }
    }
  }

  lemma InviteInv(s: State, c: CallId, id: string, hash: string, fault: Fault)
    requires Inv(s) && c in s.calls && s.calls[c].pc.ClaimWon? && FreshId(s.invites, id)
    ensures Inv(Invite(s, c, id, hash, fault)) && SecretsGrow(s, Invite(s, c, id, hash, fault))
  {
    var t := Invite(s, c, id, hash, fault);
    assert CallOk(s, s.calls[c]);
    if fault.WriteRefused? {
      Reestablish(s, t, c);
    } else {
      var key := Key(s.calls[c].pc.key.tenant, id);
      InviteAdded(s.invites, key, t.invites.objects[key].value);
      assert CallOk(t, t.calls[c]);
      MovedCalls(s, t, c);
      MovedSingleUse(s, t, c);
      forall k | k in t.maker ensures MakerOk(t, k) {
        if k != key {
          MakerSurvives(s, t, c, k);
        }
      }
      forall k | k in t.identities.objects ensures RegistrarOk(t, k) {
        RegistrarSurvives(s, t, c, k);
      }
    }
  }

  lemma ClaimReadOk(s: State, call: Call)
    requires CallOk(s, call) && call.pc.ClaimRead? && StoreOk(s.claims)
    ensures CallOk(s, call.(pc := AfterClaimRead(s, call.pc)))
  {
  }

  lemma InviteReadOk(s: State, call: Call)
    requires CallOk(s, call) && call.pc.InviteRead? && StoreOk(s.invites)
    ensures CallOk(s, call.(pc := AfterInviteRead(s, call.pc)))
  {
  }

  /** A handler step that only moves the program counter. */
  lemma GotoInv(s: State, c: CallId, pc: Pc)
    requires Inv(s) && c in s.calls && CallOk(s, s.calls[c].(pc := pc))
    ensures Inv(Goto(s, c, pc)) && SecretsGrow(s, Goto(s, c, pc))
  {
    var t := Goto(s, c, pc);
    CallSurvives(s, t, t.calls[c]);
    Reestablish(s, t, c);
  }

  lemma AdvanceInv(s: State, c: CallId, fault: Fault)
    requires Inv(s) && c in s.calls
    ensures Inv(AdvanceCall(s, c, fault)) && SecretsGrow(s, AdvanceCall(s, c, fault))
  {
    var pc := s.calls[c].pc;
    assert CallOk(s, s.calls[c]);
    match pc
    case ClaimRead(_, _, _, _) =>
      ClaimReadOk(s, s.calls[c]);
      GotoInv(s, c, AfterClaimRead(s, pc));
    case InviteRead(_, _, _, _) =>
      InviteReadOk(s, s.calls[c]);
      GotoInv(s, c, AfterInviteRead(s, pc));
    case ClaimWrite(_, _, _, _, _) => WriteClaimInv(s, c, fault);
    case InviteWrite(_, _, _, _, _) => WriteInviteInv(s, c, fault);
    case Registering(_, _) => RegisterInv(s, c, fault);
    case _ =>
  }

  lemma StartInv(s: State, step: Step)
    requires Inv(s) && (step.StartOnboarding? || step.StartAccept?)
    ensures Inv(Next(s, step)) && SecretsGrow(s, Next(s, step))
  {
    if Next(s, step) != s {
      Reestablish(s, Next(s, step), step.c);
    }
  }

  lemma AdminInv(s: State, step: Step)
    requires Inv(s) && !(step.StartOnboarding? || step.StartAccept? || step.Advance? || step.MakeInvitation?)
    ensures Inv(Next(s, step)) && SecretsGrow(s, Next(s, step))
  {
    var t := Next(s, step);
    if t != s {
      match step {
        case NewClaim(key, _, _, _, _) => ClaimAdded(s.claims, key, t.claims.objects[key].value);
        case NewInvitation(key, _, _, _) => InviteAdded(s.invites, key, t.invites.objects[key].value);
        case TouchClaim(key) => ClaimRewritten(s.claims, key, s.claims.objects[key].value);
        case TouchInvite(key) => InviteRewritten(s.invites, key, s.invites.objects[key].value);
        case _ =>
      }
      ReestablishStores(s, t);
    }
  }

  lemma NextInv(s: State, step: Step)
    requires Inv(s)
    ensures Inv(Next(s, step)) && SecretsGrow(s, Next(s, step))
  {
    match step
    case StartOnboarding(_, _, _, _) => StartInv(s, step);
    case StartAccept(_, _, _, _, _) => StartInv(s, step);
    case Advance(c, fault) =>
      if c in s.calls { AdvanceInv(s, c, fault); }
    case MakeInvitation(c, id, hash, fault) =>
      if Next(s, step) != s { InviteInv(s, c, id, hash, fault); }
    case _ => AdminInv(s, step);
  }

  lemma {:induction false} Invariant(schedule: seq<Step>)
    ensures Inv(Exec(schedule))
  {
    if schedule != [] {
      Invariant(schedule[..|schedule| - 1]);
      NextInv(Exec(schedule[..|schedule| - 1]), schedule[|schedule| - 1]);
    }
  }
}
