/** Signed control messages and identity registrations, with symbolic Ed25519 signatures. */
module Protocol {
  import opened Values

  datatype PrivateKey = PrivateKey(seed: nat)
  datatype PublicKey = PublicKey(seed: nat)

  function PublicOf(key: PrivateKey): PublicKey {
    PublicKey(key.seed)
  }

  /** A signature over `body`; text that is no base64 signature at all is `Undecodable`. */
  datatype Signature<+B> = Signed(signer: PrivateKey, body: B) | Undecodable

  predicate SignatureValid<B(==)>(key: PublicKey, body: B, signature: Signature<B>) {
    signature.Signed? && PublicOf(signature.signer) == key && signature.body == body
  }

  /** Every field of a control message that the signature covers. */
  datatype Envelope<+P> = Envelope(
    issuer: string, audience: string, generation: nat, issuedAt: Time, expiresAt: Time,
    nonce: string, kind: string, payload: P)

  datatype ControlMessage<+P> = ControlMessage(envelope: Envelope<P>, signature: Signature<Envelope<P>>)

  datatype VerifyError =
    | WrongAudience
    | MissingEnvelopeIdentity
    | ReplayedGeneration
    | ExpiredOrFuture
    | ReplayedNonce
    | BadSignature

  function Sign<P>(envelope: Envelope<P>, key: PrivateKey): ControlMessage<P> {
    ControlMessage(envelope, Signed(key, envelope))
  }

  function Verify<P(==)>(
    message: ControlMessage<P>, key: PublicKey, audience: string, now: Time, lastGeneration: nat, seen: set<string>)
    : Result<(), VerifyError>
  {
    var e := message.envelope;
    if e.audience != audience then Err(WrongAudience)
    else if e.issuer == "" || e.nonce == "" || e.kind == "" then Err(MissingEnvelopeIdentity)
    else if e.generation <= lastGeneration then Err(ReplayedGeneration)
    else if !(e.issuedAt < e.expiresAt) || now < e.issuedAt - 2 * MINUTE || !(now < e.expiresAt) then Err(ExpiredOrFuture)
    else if e.nonce in seen then Err(ReplayedNonce)
    else if !SignatureValid(key, e, message.signature) then Err(BadSignature)
    else Ok(())
  }

  /**
   A message passes verification exactly when it is what the holder of the key signed, for this audience, with issuer,
   nonce and type, newer than the last generation, with a nonce not seen before, and issued at most two minutes after
   now and not yet expired.
   */
  lemma VerifiedIff<P>(message: ControlMessage<P>, key: PublicKey, audience: string, now: Time, last: nat, seen: set<string>)
    ensures Verify(message, key, audience, now, last, seen).Ok? <==>
            && (exists signer: PrivateKey :: PublicOf(signer) == key && message == Sign(message.envelope, signer))
            && message.envelope.audience == audience
            && message.envelope.issuer != "" && message.envelope.nonce != "" && message.envelope.kind != ""
            && message.envelope.generation > last && message.envelope.nonce !in seen
            && message.envelope.issuedAt <= now + 120_000_000_000
            && now < message.envelope.expiresAt && message.envelope.issuedAt < message.envelope.expiresAt
  {
    if message.signature.Signed? && PublicOf(message.signature.signer) == key && message.signature.body == message.envelope {
      assert message == Sign(message.envelope, message.signature.signer);
    }
  }

  /** Acceptance names its author: a verified message is exactly what `Sign` yields for the holder of the private key. */
  lemma VerifiedIsSigned<P>(message: ControlMessage<P>, key: PublicKey, audience: string, now: Time, last: nat, seen: set<string>)
    requires Verify(message, key, audience, now, last, seen).Ok?
    ensures exists signer: PrivateKey :: PublicOf(signer) == key && message == Sign(message.envelope, signer)
    ensures message.envelope.generation > last
    ensures message.envelope.issuedAt - 2 * MINUTE <= now < message.envelope.expiresAt
  {
    assert message == Sign(message.envelope, message.signature.signer);
  }

  /** What the holder of a key signs verifies under that key exactly while its envelope is new, complete and timely. */
  lemma SignedVerifies<P>(e: Envelope<P>, signer: PrivateKey, audience: string, now: Time, last: nat)
    requires e.audience == audience && e.issuer != "" && e.nonce != "" && e.kind != "" && e.issuedAt < e.expiresAt
    ensures Verify(Sign(e, signer), PublicOf(signer), audience, now, last, {}).Ok? <==>
            last < e.generation && e.issuedAt - 2 * MINUTE <= now < e.expiresAt
  {
  }

  /** A registration request. `publicKey` is the decoded key, absent when the text is no 32-byte base64 key. */
  datatype Identity = Identity(
    clusterID: string, region: string, tenant: string, trustDomain: string, spiffeID: string,
    bundleDigest: string, publicKey: Option<PublicKey>, capabilities: seq<string>, gatewayEndpoints: seq<string>)

  predicate HexDigit(c: char) {
    '0' <= c <= '9' || 'a' <= c <= 'f'
  }

  predicate Digest(s: string) {
    |s| == 71 && s[..7] == "sha256:" && forall i | 7 <= i < 71 :: HexDigit(s[i])
  }

  predicate ValidIdentity(v: Identity) {
    && v.clusterID != "" && v.tenant != "" && v.trustDomain != ""
    && v.spiffeID == "spiffe://" + v.trustDomain + "/cluster/" + v.clusterID
    && Digest(v.bundleDigest)
    && v.publicKey.Some?
    && forall e <- v.gatewayEndpoints :: "quic://" <= e
  }
}
