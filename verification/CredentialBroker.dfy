/**
 The broker's credential store: it remembers, per SPIFFE ID, the generation of the last credential it
 stored and refuses messages that do not exceed it. Requests are served one at a time.
 */
module CredentialBroker {
  import opened Values
  import opened Protocol
  import References = Broker
  import Grants

  type Credential = References.Credential

  /** The payload of a broker message; `sealed` is absent when it holds no envelope that decrypts. */
  datatype Payload =
    | Malformed
    | StorePayload(tenant: string, clusterID: string, grantRef: string, sealed: Option<Credential>)

  type Message = ControlMessage<Payload>

  datatype Answer =
    | Stored(credentialRef: string)
    | Revoked
    | NotFound
    | BadRequest
    | Unauthorized(why: Option<VerifyError>)
    | ApiFailed

  const AUDIENCE: string := "credential-broker"
  const STORE: string := "credential.store"
  const REVOKE: string := "credential.revoke"

  function NameOf(p: Payload): string
    requires p.StorePayload?
  {
    References.SecretName(p.tenant, p.grantRef)
  }

  /** What the broker holds against an identity: zero before its first credential. */
  function Last(generations: map<string, nat>, spiffeID: string): nat {
    if spiffeID in generations then generations[spiffeID] else 0
  }

  predicate WellFormed(p: Payload) {
    p.StorePayload? && p.tenant != "" && p.clusterID != "" && p.grantRef != ""
  }

  predicate Usable(p: Payload, now: Time) {
    p.StorePayload? && p.sealed.Some? && p.sealed.value.token != "" && now < p.sealed.value.expiresAt
  }

  /** `identity` vouches for the message, whatever its generation. */
  predicate Authentic(m: Message, identity: Option<Identity>, kind: string, now: Time) {
    && identity.Some? && identity.value.publicKey.Some?
    && m.envelope.issuer == identity.value.spiffeID && m.envelope.kind == kind
    && Verify(m, identity.value.publicKey.value, AUDIENCE, now, 0, {}).Ok?
  }

  /** Everything the broker demands of a store message except that its generation is new. */
  predicate Acceptable(m: Message, identity: Option<Identity>, now: Time) {
    WellFormed(m.envelope.payload) && Authentic(m, identity, STORE, now) && Usable(m.envelope.payload, now)
  }

  /** Of an acceptable message the age alone decides, and an old age is the only reason to call a message a replay. */
  predicate AgeDecides(m: Message, identity: Option<Identity>, now: Time, tooOld: bool, a: Answer) {
    && (a == Unauthorized(Some(ReplayedGeneration)) ==> tooOld)
    && (Acceptable(m, identity, now) ==>
          if tooOld then a == Unauthorized(Some(ReplayedGeneration)) else a.Stored? || a.ApiFailed?)
  }

  class Broker {
    var generations: map<string, nat>
    var secrets: References.Secrets

    /** `identity` is what the Hub answers for the tenant and cluster the payload names. */
    method Store(m: Message, identity: Option<Identity>, now: Time, outage: bool) returns (a: Answer)
      modifies this
      ensures a.Stored? ==> Acceptable(m, identity, now) && m.envelope.generation > Last(old(generations), identity.value.spiffeID)
      ensures a.Stored? ==>
                && generations == old(generations)[identity.value.spiffeID := m.envelope.generation]
                && secrets == old(secrets)[NameOf(m.envelope.payload) := m.envelope.payload.sealed]
                && a.credentialRef == "credential://among-clusters/" + m.envelope.payload.tenant + "/" + m.envelope.payload.grantRef
      ensures !a.Stored? ==> generations == old(generations)
      ensures !a.Stored? && secrets != old(secrets) ==>
                && a.ApiFailed? && Acceptable(m, identity, now)
                && secrets == old(secrets)[NameOf(m.envelope.payload) := m.envelope.payload.sealed]
      ensures a.ApiFailed? ==> outage
      ensures a.BadRequest? <==>
                || !WellFormed(m.envelope.payload)
                || (identity.Some? && Authentic(m, identity, STORE, now) && m.envelope.generation > Last(old(generations), identity.value.spiffeID)
                    && !Usable(m.envelope.payload, now))
      ensures identity.None? ==> a.BadRequest? || a == Unauthorized(None)
      ensures identity.Some? ==> AgeDecides(m, identity, now, m.envelope.generation <= Last(old(generations), identity.value.spiffeID), a)
    {
      hide References.SecretName;
      var p := m.envelope.payload;
      if p.Malformed? || p.tenant == "" || p.clusterID == "" || p.grantRef == "" { return BadRequest; }
      if identity.None? { return Unauthorized(None); }
      if identity.value.publicKey.None? { return Unauthorized(None); }
      var last := Last(generations, identity.value.spiffeID);
      if m.envelope.issuer != identity.value.spiffeID || m.envelope.kind != STORE { return Unauthorized(None); }
      var verdict := Verify(m, identity.value.publicKey.value, AUDIENCE, now, last, {});
      if verdict.Err? { return Unauthorized(Some(verdict.error)); }
      if p.sealed.None? || p.sealed.value.token == "" || !(now < p.sealed.value.expiresAt) { return BadRequest; }
      var fails := Fails(outage);
      if fails { return ApiFailed; }
      secrets := secrets[NameOf(p) := p.sealed];
      fails := Fails(outage);
      if fails { return ApiFailed; }
      generations := generations[identity.value.spiffeID := m.envelope.generation];
      return Stored(References.Reference(p.tenant, p.grantRef));
    }

    /** Deletes one Secret; the remembered generations are neither consulted nor changed. */
    method Revoke(m: Message, identity: Option<Identity>, now: Time, outage: bool) returns (a: Answer)
      modifies this`secrets
      ensures a.Revoked? || a.NotFound? || secrets != old(secrets) ==>
                m.envelope.payload.StorePayload? && Authentic(m, identity, REVOKE, now)
      ensures a.BadRequest? <==> m.envelope.payload.Malformed?
      ensures a.ApiFailed? ==> outage
      ensures a.Revoked? ==> NameOf(m.envelope.payload) in old(secrets)
      ensures a.NotFound? ==> NameOf(m.envelope.payload) !in old(secrets)
      ensures secrets == old(secrets) || secrets == old(secrets) - {NameOf(m.envelope.payload)}
      ensures a.Revoked? ==> secrets == old(secrets) - {NameOf(m.envelope.payload)}
      ensures m.envelope.payload.StorePayload? && Authentic(m, identity, REVOKE, now) ==> a.Revoked? || a.NotFound? || a.ApiFailed?
    {
      hide References.SecretName;
      var p := m.envelope.payload;
      if p.Malformed? { return BadRequest; }
      if identity.None? || identity.value.publicKey.None? { return Unauthorized(None); }
      if m.envelope.issuer != identity.value.spiffeID || m.envelope.kind != REVOKE { return Unauthorized(None); }
      var verdict := Verify(m, identity.value.publicKey.value, AUDIENCE, now, 0, {});
      if verdict.Err? { return Unauthorized(Some(verdict.error)); }
      var fails := Fails(outage);
      if fails { return ApiFailed; }
      if NameOf(p) !in secrets { return NotFound; }
      secrets := secrets - {NameOf(p)};
      fails := Fails(outage);
      if fails { return ApiFailed; }
      return Revoked;
    }
  }

  // ---------------------------------------------------------------------------------------------
  // An agent incarnation against the broker
  // ---------------------------------------------------------------------------------------------

  /** A store message as it reaches the broker: `stored` says whether everything but its age let it through. */
  datatype Attempt = Attempt(generation: nat, stored: bool)

  /** What the broker holds after a series of attempts, having held `before`. */
  function Remembered(before: nat, attempts: seq<Attempt>): nat {
    if attempts == [] then before
    else
      var last := Remembered(before, attempts[..|attempts| - 1]);
      var a := attempts[|attempts| - 1];
      if a.stored && a.generation > last then a.generation else last
  }

  lemma {:induction false} RememberedIsOneOfThem(before: nat, attempts: seq<Attempt>)
    ensures Remembered(before, attempts) >= before
    ensures Remembered(before, attempts) == before
            || exists i | 0 <= i < |attempts| :: attempts[i].stored && attempts[i].generation == Remembered(before, attempts)
  {
    if attempts != [] {
      RememberedIsOneOfThem(before, attempts[..|attempts| - 1]);
    }
  }

  predicate Increasing(attempts: seq<Attempt>) {
    forall i, j | 0 <= i < j < |attempts| :: attempts[i].generation < attempts[j].generation
  }

  /** In any order: a generation is too old exactly for what was held beforehand or for an attempt that was stored. */
  lemma {:induction false} RememberedIsMaximum(before: nat, attempts: seq<Attempt>, g: nat)
    ensures g <= Remembered(before, attempts) <==>
            g <= before || exists i | 0 <= i < |attempts| :: attempts[i].stored && g <= attempts[i].generation
  {
    if attempts != [] {
      var k := |attempts| - 1;
      RememberedIsMaximum(before, attempts[..k], g);
      assert forall i | 0 <= i < k :: attempts[..k][i] == attempts[i];
    }
  }

  /** Among increasing generations an attempt is too old exactly when what the broker held beforehand already was as new. */
  lemma OnlyThePastReplays(before: nat, attempts: seq<Attempt>, k: nat)
    requires k < |attempts| && Increasing(attempts)
    ensures attempts[k].generation <= Remembered(before, attempts[..k]) <==> attempts[k].generation <= before
  {
    RememberedIsOneOfThem(before, attempts[..k]);
  }

  predicate MessagesIncrease(messages: seq<Message>) {
    forall i, j | 0 <= i < j < |messages| :: messages[i].envelope.generation < messages[j].envelope.generation
  }

  /** Message `k` does not exceed what was held before the series or what an earlier message of it stored. */
  predicate TooOld(before: nat, messages: seq<Message>, answers: seq<Answer>, k: nat)
    requires k < |messages| && k <= |answers|
  {
    || messages[k].envelope.generation <= before
    || exists i | 0 <= i < k :: answers[i].Stored? && messages[k].envelope.generation <= messages[i].envelope.generation
  }

  /** With increasing generations only what was held before the series can make a message too old. */
  lemma OnlyThePastIsTooOld(before: nat, messages: seq<Message>, answers: seq<Answer>, k: nat)
    requires k < |messages| && k <= |answers| && MessagesIncrease(messages)
    ensures TooOld(before, messages, answers, k) <==> messages[k].envelope.generation <= before
  {
  }

  /**
   The stores of one identity, run through the broker in whatever order they arrive, each possibly with a failed identity
   lookup or API call: an acceptable one is answered as a replay exactly when it is too old; and when the generations
   increase, exactly when it does not exceed what was held before all of them.
   */
  method ServeInOrder(b: Broker, spiffeID: string, messages: seq<Message>, identities: seq<Option<Identity>>, clock: seq<Time>, outage: bool)
    returns (answers: seq<Answer>)
    requires |identities| == |clock| == |messages|
    requires forall i <- identities :: i.Some? ==> i.value.spiffeID == spiffeID
    modifies b
    ensures |answers| == |messages| && forall a <- answers :: a.ApiFailed? ==> outage
    ensures forall k | 0 <= k < |messages| ::
              AgeDecides(messages[k], identities[k], clock[k], TooOld(old(Last(b.generations, spiffeID)), messages, answers, k), answers[k])
    ensures MessagesIncrease(messages) ==> forall k | 0 <= k < |messages| ::
              AgeDecides(messages[k], identities[k], clock[k], messages[k].envelope.generation <= old(Last(b.generations, spiffeID)), answers[k])
  {
    hide Acceptable, AgeDecides, MessagesIncrease, TooOld;
    answers := [];
    ghost var before := Last(b.generations, spiffeID);
    ghost var attempts: seq<Attempt> := [];
    for n := 0 to |messages|
      invariant |answers| == n && Follows(attempts, messages, answers)
      invariant forall a <- answers :: a.ApiFailed? ==> outage
      invariant Last(b.generations, spiffeID) == Remembered(before, attempts)
      invariant forall k | 0 <= k < n ::
                  AgeDecides(messages[k], identities[k], clock[k], TooOld(before, messages, answers, k), answers[k])
    {
      assert identities[n] in identities;
      AgeOfNext(before, attempts, messages, answers);
      var a;
      a, attempts := ServeNext(b, spiffeID, messages[n], identities[n], clock[n], before, attempts, outage);
      forall k | 0 <= k <= n ensures TooOld(before, messages, answers + [a], k) == TooOld(before, messages, answers, k) {
        LaterAnswersDoNotAge(before, messages, answers, a, k);
      }
      answers := answers + [a];
    }
    if MessagesIncrease(messages) {
      forall k | 0 <= k < |messages|
        ensures AgeDecides(messages[k], identities[k], clock[k], messages[k].envelope.generation <= before, answers[k])
      {
        OnlyThePastIsTooOld(before, messages, answers, k);
      }
    }
  }

  /** One store in the series: what the broker remembers follows the attempts. */
  method ServeNext(
    b: Broker, spiffeID: string, m: Message, identity: Option<Identity>, now: Time, ghost before: nat, ghost attempts: seq<Attempt>,
    outage: bool)
    returns (a: Answer, ghost longer: seq<Attempt>)
    requires Last(b.generations, spiffeID) == Remembered(before, attempts) && (identity.Some? ==> identity.value.spiffeID == spiffeID)
    modifies b
    ensures a.ApiFailed? ==> outage
    ensures longer == attempts + [Attempt(m.envelope.generation, a.Stored?)]
    ensures Last(b.generations, spiffeID) == Remembered(before, longer)
    ensures AgeDecides(m, identity, now, m.envelope.generation <= Remembered(before, attempts), a)
  {
    hide Acceptable, AgeDecides, NameOf;
    ghost var held := Last(b.generations, spiffeID);
    a := b.Store(m, identity, now, outage);
    if identity.None? { UnvouchedIsNoReplay(m, now, m.envelope.generation <= held, a); }
    longer := attempts + [Attempt(m.envelope.generation, a.Stored?)];
    assert longer[..|attempts|] == attempts;
  }

  lemma UnvouchedIsNoReplay(m: Message, now: Time, tooOld: bool, a: Answer)
    requires a.BadRequest? || a == Unauthorized(None)
    ensures AgeDecides(m, None, now, tooOld, a)
  {
  }

  predicate Follows(attempts: seq<Attempt>, messages: seq<Message>, answers: seq<Answer>) {
    && |attempts| == |answers| <= |messages|
    && forall k | 0 <= k < |attempts| :: attempts[k] == Attempt(messages[k].envelope.generation, answers[k].Stored?)
  }

  lemma AgeOfNext(before: nat, attempts: seq<Attempt>, messages: seq<Message>, answers: seq<Answer>)
    requires Follows(attempts, messages, answers) && |answers| < |messages|
    ensures messages[|answers|].envelope.generation <= Remembered(before, attempts) <==> TooOld(before, messages, answers, |answers|)
  {
    RememberedIsMaximum(before, attempts, messages[|answers|].envelope.generation);
  }

  lemma LaterAnswersDoNotAge(before: nat, messages: seq<Message>, answers: seq<Answer>, a: Answer, k: nat)
    requires k < |messages| && k <= |answers|
    ensures TooOld(before, messages, answers + [a], k) == TooOld(before, messages, answers, k)
  {
    assert forall i | 0 <= i < k :: (answers + [a])[i] == answers[i];
  }

  /** The message in which an agent sends store number `k`, for the cluster `identity` of `tenant`. */
  function StoreMessage(s: Grants.Store, identity: Identity, key: PrivateKey, nonce: string, credential: Credential, issuedAt: Time): Message
    requires s.generation >= 0
  {
    Sign(Envelope(identity.spiffeID, AUDIENCE, s.generation, issuedAt, issuedAt + MINUTE, nonce, STORE,
                  StorePayload(identity.tenant, identity.clusterID, s.grantRef, Some(credential))), key)
  }

  /** What an agent sends under its registered key is acceptable from two minutes before to one minute after its issue, while the credential lives. */
  lemma AgentStoresAreAcceptable(s: Grants.Store, identity: Identity, key: PrivateKey, nonce: string, credential: Credential, issuedAt: Time, now: Time)
    requires s.generation > 0 && s.grantRef != "" && nonce != "" && credential.token != ""
    requires ValidIdentity(identity) && identity.publicKey == Some(PublicOf(key))
    ensures Acceptable(StoreMessage(s, identity, key, nonce, credential, issuedAt), Some(identity), now) <==>
            issuedAt - 2 * MINUTE <= now < issuedAt + MINUTE && now < credential.expiresAt
  {
    var m := StoreMessage(s, identity, key, nonce, credential, issuedAt);
    SignedVerifies(m.envelope, key, AUDIENCE, now, 0);
  }

  /** The messages of an incarnation increase, so `ServeInOrder` applies to them. */
  lemma IncarnationMessagesIncrease(a: Grants.Agent, messages: seq<Message>)
    requires a.Valid() && |messages| <= |a.stores| && forall k | 0 <= k < |messages| :: a.numbers[k] < Grants.TWO64
    requires forall k | 0 <= k < |messages| :: messages[k].envelope.generation == a.stores[k].generation
    ensures MessagesIncrease(messages)
  {
    forall i, j | 0 <= i < j < |messages| ensures messages[i].envelope.generation < messages[j].envelope.generation {
      Grants.StoresIncrease(a, i, j);
    }
  }

  /** Whatever became of its earlier stores, an incarnation's store is refused as a replay only for what the broker held before the incarnation. */
  lemma IncarnationsDoNotReplayThemselves(a: Grants.Agent, before: nat, attempts: seq<Attempt>, k: nat)
    requires a.Valid() && |attempts| == |a.stores| && k < |attempts| && a.numbers[k] < Grants.TWO64
    requires forall i | 0 <= i < |attempts| :: attempts[i].generation == a.stores[i].generation
    ensures attempts[k].generation <= Remembered(before, attempts[..k]) <==> attempts[k].generation <= before
  {
    var sofar := attempts[..k + 1];
    forall i, j | 0 <= i < j < |sofar| ensures sofar[i].generation < sofar[j].generation {
      Grants.StoresIncrease(a, i, j);
    }
    OnlyThePastReplays(before, sofar, k);
    assert sofar[..k] == attempts[..k];
  }

  // ---------------------------------------------------------------------------------------------
  // Whose credential a reference is served
  // ---------------------------------------------------------------------------------------------

  /** A committed change of the broker's Secrets on behalf of a tenant and a grant. */
  datatype Change =
    | Kept(tenant: string, grant: string, credential: Credential)
    | Removed(tenant: string, grant: string)

  function ChangeName(c: Change): string {
    References.SecretName(c.tenant, c.grant)
  }

  function SecretsAfter(changes: seq<Change>): References.Secrets {
    if changes == [] then map[]
    else
      var before := SecretsAfter(changes[..|changes| - 1]);
      var last := changes[|changes| - 1];
      match last
      case Kept(_, _, credential) => before[ChangeName(last) := Some(credential)]
      case Removed(_, _) => before - {ChangeName(last)}
  }

  /** Change `i` is the last one of the Secret `name`. */
  predicate LastOfSecret(changes: seq<Change>, name: string, i: nat) {
    i < |changes| && ChangeName(changes[i]) == name && forall j | i < j < |changes| :: ChangeName(changes[j]) != name
  }

  predicate ForPair(c: Change, tenant: string, grant: string) {
    c.tenant == tenant && c.grant == grant
  }

  /** Change `i` is the last one made for the pair itself. */
  predicate LastOfPair(changes: seq<Change>, tenant: string, grant: string, i: nat) {
    && i < |changes| && ForPair(changes[i], tenant, grant)
    && forall j | i < j < |changes| :: !ForPair(changes[j], tenant, grant)
  }

  lemma {:induction false} LastChangeStands(changes: seq<Change>, name: string, i: nat)
    requires LastOfSecret(changes, name, i)
    ensures name in SecretsAfter(changes) <==> changes[i].Kept?
    ensures changes[i].Kept? ==> SecretsAfter(changes)[name] == Some(changes[i].credential)
  {
    hide ChangeName;
    var n := |changes| - 1;
    if i < n {
      assert forall j | i < j < n :: changes[..n][j] == changes[j];
      LastChangeStands(changes[..n], name, i);
    }
  }

  /** Some change after `i` was made for a pair that collides with the given one. */
  predicate CollidesAfter(changes: seq<Change>, i: nat, tenant: string, grant: string) {
    exists j | i < j < |changes| :: References.Collide(changes[j].tenant, changes[j].grant, tenant, grant)
  }

  /** The last change made for a pair decides its Secret exactly when no later one was made for a colliding pair. */
  lemma OwnChangeStandsIff(changes: seq<Change>, tenant: string, grant: string, i: nat)
    requires LastOfPair(changes, tenant, grant, i)
    ensures LastOfSecret(changes, References.SecretName(tenant, grant), i) <==> !CollidesAfter(changes, i, tenant, grant)
  {
    hide References.SecretName, References.Collide;
    forall j | i < j < |changes|
      ensures ChangeName(changes[j]) == References.SecretName(tenant, grant) <==> References.Collide(changes[j].tenant, changes[j].grant, tenant, grant)
    {
      References.SecretsSharedIff(changes[j].tenant, changes[j].grant, tenant, grant);
    }
  }

  /**
   A reference is forwarded under the credential last stored for its own pair, while that lives, unless a colliding
   pair was changed later.
   */
  lemma ReferencesServeTheirOwn(changes: seq<Change>, tenant: string, grant: string, i: nat, path: string, now: Time)
    requires LastOfPair(changes, tenant, grant, i) && changes[i].Kept? && now < changes[i].credential.expiresAt
    requires References.Segment(tenant) && References.Segment(grant)
    requires "/" <= path && !(References.EXPLICIT <= path)
    requires !CollidesAfter(changes, i, tenant, grant)
    ensures References.Proxy(path, References.BEARER + References.Reference(tenant, grant), false, SecretsAfter(changes), now, true)
            == References.Forward(tenant, grant, path, changes[i].credential)
  {
    hide References.Proxy, References.SecretName, References.Reference, References.Segment, CollidesAfter;
    OwnChangeStandsIff(changes, tenant, grant, i);
    LastChangeStands(changes, References.SecretName(tenant, grant), i);
    References.OpaqueRoundTrip(path, References.BEARER + References.Reference(tenant, grant), tenant, grant, path,
                               changes[i].credential, false, SecretsAfter(changes), now, true);
  }

  /** And a later store for a colliding pair takes the reference over. */
  lemma CollidingPairsTakeOver(changes: seq<Change>, tenant: string, grant: string, other: Change)
    requires other.Kept? && References.Collide(other.tenant, other.grant, tenant, grant)
    ensures var secrets := SecretsAfter(changes + [other]);
            References.SecretName(tenant, grant) in secrets && secrets[References.SecretName(tenant, grant)] == Some(other.credential)
  {
    hide References.SecretName, References.Collide;
    References.SecretsSharedIff(other.tenant, other.grant, tenant, grant);
    LastChangeStands(changes + [other], References.SecretName(tenant, grant), |changes|);
  }
}
