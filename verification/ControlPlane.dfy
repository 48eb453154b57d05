/**
 Signed control messages, bundle confirmation and peer reconciliation. Any number of Hub replicas
 run message handlers and reconcile passes one API call at a time, in any interleaving, beside
 administrators who create, suspend, resume and delete peers.
 */
module ControlPlane {
  import opened Values
  import opened Protocol
  import opened ApiServer

  // ---------------------------------------------------------------------------------------------
  // Objects
  // ---------------------------------------------------------------------------------------------

  const TWO63: int := 0x8000_0000_0000_0000
  const TWO64: int := 0x1_0000_0000_0000_0000

  /** The Go conversions `int64(g)` and `uint64(v)`. */
  function ToInt64(g: int): int {
    if g < TWO63 then g else g - TWO64
  }

  function ToUint64(v: int): int {
    if v < 0 then v + TWO64 else v
  }

  predicate Uint64(g: int) {
    0 <= g < TWO64
  }

  /** A ClusterIdentity: its immutable spec and the generation written in its status as an int64. */
  datatype Registration = Registration(spec: Identity, lastGeneration: int, lastNonce: string)

  datatype PeerState = Unset | PendingConfirmation | Ready | Suspended

  datatype Peer = Peer(
    localRef: string, remoteRef: string, suspended: bool, generation: nat,
    localConfirmed: bool, remoteConfirmed: bool, state: PeerState, observedGeneration: nat)

  datatype Side = Local | Remote

  function Flag(p: Peer, side: Side): bool {
    match side case Local => p.localConfirmed case Remote => p.remoteConfirmed
  }

  function WithFlag(p: Peer, side: Side): Peer {
    match side case Local => p.(localConfirmed := true) case Remote => p.(remoteConfirmed := true)
  }

  /** The identity that confirms on `side`, and the one whose bundle it confirms. */
  function Confirmer(p: Peer, side: Side): string {
    match side case Local => p.localRef case Remote => p.remoteRef
  }

  function Confirmee(p: Peer, side: Side): string {
    match side case Local => p.remoteRef case Remote => p.localRef
  }

  /** The classification a reconcile pass writes. */
  function Classify(p: Peer): PeerState {
    if p.suspended then Suspended
    else if p.localConfirmed && p.remoteConfirmed then Ready
    else PendingConfirmation
  }

  function Reconciled(p: Peer): Peer {
    p.(state := Classify(p), observedGeneration := p.generation)
  }

  // ---------------------------------------------------------------------------------------------
  // Machine state
  // ---------------------------------------------------------------------------------------------

  datatype Payload = Confirmation(peerRef: string, digest: string) | Malformed

  type Message = ControlMessage<Payload>

  const CONFIRM: string := "peer.bundle.confirm"

  type CallId = nat
  type PassId = nat

  datatype Fault = NoFault | WriteRefused | ReplyLost

  datatype Answer = Accepted | Denied | Replay | Unavailable

  /** One control message handler. */
  datatype Pc =
    | Arrived
    | Known(registered: Identity)
    | Checking(identity: Identity, last: int)
    | Dispatching
    | Confirming
    | DigestCheck(peer: Stored<Peer>, side: Side)
    | ConfirmWrite(confirmed: Stored<Peer>, writeSide: Side)
    | Recording
    | RecordWrite(record: Stored<Registration>)
    | Done(answer: Answer)

  /** A confirmation flag of one incarnation of a peer, set on behalf of identity `author`. */
  datatype Mark = Mark(peer: Key, uid: nat, side: Side, author: string)

  datatype Call = Call(issuer: Key, message: Message, pc: Pc, effect: Option<Mark>)

  datatype Verified = Verified(issuer: Key, message: Message)

  datatype Ack = Ack(issuer: Key, message: Message, effect: Option<Mark>)

  /** `verified`, `marks` and `acks` are histories: messages that passed `Verify`, committed flags, and 202/200 answers in commit order. */
  datatype State = State(
    clock: Time,
    identities: Db<Key, Registration>,
    peers: Db<Key, Peer>,
    calls: map<CallId, Call>,
    passes: map<PassId, map<Key, Stored<Peer>>>,
    verified: set<Verified>,
    marks: set<Mark>,
    acks: seq<Ack>)

  datatype Step =
    | Tick(elapsed: nat)
    | Register(identity: Identity)
    | NewPeer(key: Key, localRef: string, remoteRef: string)
    | SetSuspended(key: Key, suspended: bool)
    | DeletePeer(key: Key)
    | Arrive(c: CallId, issuer: Key, message: Message)
    | Advance(c: CallId, fault: Fault, permitted: bool)
    | ListPeers(pass: PassId)
    | ReconcilePeer(pass: PassId, key: Key, fault: Fault)

  const INIT: State := State(1, Db(0, map[]), Db(0, map[]), map[], map[], {}, {}, [])

  // ---------------------------------------------------------------------------------------------
  // The handler
  // ---------------------------------------------------------------------------------------------

  function Goto(s: State, c: CallId, pc: Pc): (t: State)
    requires c in s.calls
    ensures c in t.calls && t.calls == s.calls[c := t.calls[c]]
  {
    s.(calls := s.calls[c := s.calls[c].(pc := pc)])
  }

  predicate RouteType(kind: string) {
    "route." <= kind
  }

  /** `Verify` against the clock and the last generation read earlier, then the issuer and type policy. */
  function Check(s: State, c: CallId): (t: State)
    requires c in s.calls && s.calls[c].pc.Checking?
    ensures c in t.calls && t.calls == s.calls[c := t.calls[c]]
  {
    var call := s.calls[c];
    var identity, last := call.pc.identity, call.pc.last;
    if identity.publicKey.None? || last < 0 || Verify(call.message, identity.publicKey.value, "hub", s.clock, last, {}).Err? then
      Goto(s, c, Done(Denied))
    else if call.message.envelope.issuer != identity.spiffeID || RouteType(call.message.envelope.kind) then
      Goto(s, c, Done(Denied))
    else
      Goto(s, c, Dispatching).(verified := s.verified + {Verified(call.issuer, call.message)})
  }

  /** Effects on other objects are not part of this machine: `permitted` says whether they succeeded. */
  function Dispatch(call: Call, permitted: bool): Pc {
    if call.message.envelope.kind == CONFIRM then
      var payload := call.message.envelope.payload;
      if payload.Malformed? || payload.peerRef == "" || payload.digest == "" then Done(Denied) else Confirming
    else if permitted then Recording
    else Done(Denied)
  }

  function PeerKey(call: Call): Key
    requires call.message.envelope.payload.Confirmation?
  {
    Key(call.issuer.tenant, call.message.envelope.payload.peerRef)
  }

  /** Reads the peer and picks the flag of the issuer; the local side wins when both references are equal. */
  function ReadPeer(s: State, call: Call): Pc {
    if call.message.envelope.payload.Malformed? || PeerKey(call) !in s.peers.objects then Done(Denied)
    else
      var peer := s.peers.objects[PeerKey(call)];
      if call.issuer.id == peer.value.localRef then DigestCheck(peer, Local)
      else if call.issuer.id == peer.value.remoteRef then DigestCheck(peer, Remote)
      else Done(Denied)
  }

  function CheckDigest(s: State, call: Call): Pc
    requires call.pc.DigestCheck?
  {
    var expected := Key(call.issuer.tenant, Confirmee(call.pc.peer.value, call.pc.side));
    if call.message.envelope.payload.Malformed? || expected !in s.identities.objects
       || s.identities.objects[expected].value.spec.bundleDigest != call.message.envelope.payload.digest
    then Done(Denied)
    else ConfirmWrite(call.pc.peer, call.pc.side)
  }

  function WriteConfirmation(s: State, c: CallId, fault: Fault): (t: State)
    requires c in s.calls && s.calls[c].pc.ConfirmWrite?
    ensures c in t.calls && t.calls == s.calls[c := t.calls[c]]
  {
    var call := s.calls[c];
    if fault.WriteRefused? || call.message.envelope.payload.Malformed? || !Matches(s.peers, PeerKey(call), call.pc.confirmed) then
      Goto(s, c, Done(Denied))
    else
      var mark := Mark(PeerKey(call), call.pc.confirmed.uid, call.pc.writeSide, call.issuer.id);
      s.(peers := Rewrite(s.peers, PeerKey(call), WithFlag(call.pc.confirmed.value, call.pc.writeSide)),
         marks := s.marks + {mark},
         calls := s.calls[c := call.(effect := Some(mark), pc := if fault.NoFault? then Recording else Done(Denied))])
  }

  function ReadRecord(s: State, call: Call): Pc {
    if call.issuer !in s.identities.objects then Done(Replay)
    else
      var record := s.identities.objects[call.issuer];
      if call.message.envelope.generation <= ToUint64(record.value.lastGeneration) then Done(Replay)
      else RecordWrite(record)
  }

  function WriteRecord(s: State, c: CallId, fault: Fault): (t: State)
    requires c in s.calls && s.calls[c].pc.RecordWrite?
    ensures c in t.calls && t.calls == s.calls[c := t.calls[c]]
  {
    var call := s.calls[c];
    if fault.WriteRefused? || !Matches(s.identities, call.issuer, call.pc.record) then Goto(s, c, Done(Replay))
    else
      var e := call.message.envelope;
      var updated := call.pc.record.value.(lastGeneration := ToInt64(e.generation), lastNonce := e.nonce);
      s.(identities := Rewrite(s.identities, call.issuer, updated),
         acks := if fault.NoFault? then s.acks + [Ack(call.issuer, call.message, call.effect)] else s.acks,
         calls := s.calls[c := call.(pc := Done(if fault.NoFault? then Accepted else Replay))])
  }

  function AdvanceCall(s: State, c: CallId, fault: Fault, permitted: bool): (t: State)
    requires c in s.calls
    ensures c in t.calls && t.calls == s.calls[c := t.calls[c]]
  {
    var call := s.calls[c];
    match call.pc
    case Arrived =>
      Goto(s, c, if call.issuer in s.identities.objects then Known(s.identities.objects[call.issuer].value.spec) else Done(Denied))
    case Known(identity) =>
      Goto(s, c, if call.issuer in s.identities.objects
                 then Checking(identity, ToUint64(s.identities.objects[call.issuer].value.lastGeneration))
                 else Done(Unavailable))
    case Checking(_, _) => Check(s, c)
    case Dispatching => Goto(s, c, Dispatch(call, permitted))
    case Confirming => Goto(s, c, ReadPeer(s, call))
    case DigestCheck(_, _) => Goto(s, c, CheckDigest(s, call))
    case ConfirmWrite(_, _) => WriteConfirmation(s, c, fault)
    case Recording => Goto(s, c, ReadRecord(s, call))
    case RecordWrite(_) => WriteRecord(s, c, fault)
    case Done(_) => s
  }

  /** One item of a reconcile pass: the classification of the listed object, written under its listed version. */
  function Reconcile(s: State, pass: PassId, k: Key, fault: Fault): State {
    if pass in s.passes && k in s.passes[pass] && !fault.WriteRefused? && Matches(s.peers, k, s.passes[pass][k])
    then s.(peers := Rewrite(s.peers, k, Reconciled(s.passes[pass][k].value)))
    else s
  }

  function NewPeerOf(localRef: string, remoteRef: string): Peer {
    Peer(localRef, remoteRef, false, 1, false, false, Unset, 0)
  }

  function Next(s: State, step: Step): State {
    match step
    case Tick(elapsed) => s.(clock := s.clock + elapsed)
    case Register(identity) =>
      var key := Key(identity.tenant, identity.clusterID);
      if key !in s.identities.objects && ValidIdentity(identity)
      then s.(identities := Create(s.identities, key, Registration(identity, 0, "")))
      else s
    case NewPeer(key, localRef, remoteRef) =>
      if key !in s.peers.objects then s.(peers := Create(s.peers, key, NewPeerOf(localRef, remoteRef))) else s
    case SetSuspended(key, suspended) =>
      if key in s.peers.objects then
        var p := s.peers.objects[key].value;
        s.(peers := Rewrite(s.peers, key, p.(suspended := suspended, generation := p.generation + 1)))
      else s
    case DeletePeer(key) => s.(peers := Delete(s.peers, key))
    case Arrive(c, issuer, message) =>
      if c !in s.calls && Uint64(message.envelope.generation)
      then s.(calls := s.calls[c := Call(issuer, message, Arrived, None)])
      else s
    case Advance(c, fault, permitted) => if c in s.calls then AdvanceCall(s, c, fault, permitted) else s
    case ListPeers(pass) => s.(passes := s.passes[pass := s.peers.objects])
    case ReconcilePeer(pass, key, fault) => Reconcile(s, pass, key, fault)
  }

  function Exec(schedule: seq<Step>): State {
    if schedule == [] then INIT
    else Next(Exec(schedule[..|schedule| - 1]), schedule[|schedule| - 1])
  }

  // ---------------------------------------------------------------------------------------------
  // The invariant
  // ---------------------------------------------------------------------------------------------

  /** `confirmer` once sent a verified confirmation for peer `k` carrying the registered digest of `confirmee`. */
  ghost predicate Confirmed(s: State, k: Key, confirmer: string, confirmee: string) {
    && Key(k.tenant, confirmee) in s.identities.objects
    && var digest := s.identities.objects[Key(k.tenant, confirmee)].value.spec.bundleDigest;
       exists m :: Verified(Key(k.tenant, confirmer), m) in s.verified
                   && m.envelope.kind == CONFIRM && m.envelope.payload == Confirmation(k.id, digest)
  }

  ghost predicate PeerOk(s: State, k: Key, peer: Stored<Peer>) {
    var p := peer.value;
    && (p.localConfirmed ==> Confirmed(s, k, p.localRef, p.remoteRef) && Mark(k, peer.uid, Local, p.localRef) in s.marks)
    && (p.remoteConfirmed ==>
          && p.localRef != p.remoteRef
          && Confirmed(s, k, p.remoteRef, p.localRef) && Mark(k, peer.uid, Remote, p.remoteRef) in s.marks)
    && (p.state == Ready ==> p.localConfirmed && p.remoteConfirmed)
  }

  /** A verified message really is signed by the registered key of the identity it was posted for. */
  predicate VerifiedOk(s: State, v: Verified) {
    && v.issuer in s.identities.objects
    && var spec := s.identities.objects[v.issuer].value.spec;
       && spec.publicKey.Some? && SignatureValid(spec.publicKey.value, v.message.envelope, v.message.signature)
       && v.message.envelope.issuer == spec.spiffeID && v.message.envelope.audience == "hub"
  }

  predicate SideOk(issuer: string, p: Peer, side: Side) {
    issuer == Confirmer(p, side) && (side == Remote ==> p.localRef != p.remoteRef)
  }

  predicate Passed(pc: Pc) {
    pc.Dispatching? || pc.Confirming? || pc.DigestCheck? || pc.ConfirmWrite? || pc.Recording? || pc.RecordWrite?
  }

  predicate CallOk(s: State, call: Call) {
    && Uint64(call.message.envelope.generation)
    && (Passed(call.pc) ==> Verified(call.issuer, call.message) in s.verified)
    && (call.effect.Some? ==>
          && call.effect.value in s.marks && call.message.envelope.payload.Confirmation?
          && call.effect.value.peer == PeerKey(call) && call.effect.value.author == call.issuer.id)
    && (match call.pc
        case Known(identity) => call.issuer in s.identities.objects && s.identities.objects[call.issuer].value.spec == identity
        case Checking(identity, last) =>
          && call.issuer in s.identities.objects && s.identities.objects[call.issuer].value.spec == identity
          && Uint64(last)
        case Confirming => call.message.envelope.kind == CONFIRM && call.message.envelope.payload.Confirmation?
        case DigestCheck(peer, side) =>
          && call.message.envelope.kind == CONFIRM && call.message.envelope.payload.Confirmation?
          && Snapshot(s.peers, PeerKey(call), peer) && SideOk(call.issuer.id, peer.value, side)
        case ConfirmWrite(peer, side) =>
          && call.message.envelope.kind == CONFIRM && call.message.envelope.payload.Confirmation?
          && Snapshot(s.peers, PeerKey(call), peer) && SideOk(call.issuer.id, peer.value, side)
          && var expected := Key(call.issuer.tenant, Confirmee(peer.value, side));
             && expected in s.identities.objects
             && s.identities.objects[expected].value.spec.bundleDigest == call.message.envelope.payload.digest
        case Recording => call.message.envelope.kind == CONFIRM ==> call.effect.Some?
        case RecordWrite(record) =>
          && (call.message.envelope.kind == CONFIRM ==> call.effect.Some?)
          && Snapshot(s.identities, call.issuer, record)
          && call.message.envelope.generation > ToUint64(record.value.lastGeneration)
        case _ => true)
  }

  predicate PassOk(s: State, listed: map<Key, Stored<Peer>>) {
    forall k <- listed :: Snapshot(s.peers, k, listed[k])
  }

  predicate MarkOk(s: State, m: Mark) {
    m.uid <= s.peers.revision
    && (m.peer in s.peers.objects && s.peers.objects[m.peer].uid == m.uid ==>
          Flag(s.peers.objects[m.peer].value, m.side) && m.author == Confirmer(s.peers.objects[m.peer].value, m.side))
  }

  predicate AckOk(s: State, a: Ack) {
    && a.issuer in s.identities.objects
    && 0 < a.message.envelope.generation <= ToUint64(s.identities.objects[a.issuer].value.lastGeneration)
    && Verified(a.issuer, a.message) in s.verified
    && (a.message.envelope.kind == CONFIRM ==>
          && a.effect.Some? && a.effect.value in s.marks
          && a.message.envelope.payload.Confirmation?
          && a.effect.value.peer == Key(a.issuer.tenant, a.message.envelope.payload.peerRef)
          && a.effect.value.author == a.issuer.id)
  }

  predicate AcksIncrease(acks: seq<Ack>) {
    forall i, j | 0 <= i < j < |acks| && acks[i].issuer == acks[j].issuer ::
      acks[i].message.envelope.generation < acks[j].message.envelope.generation
  }

  predicate RegistrationOk(k: Key, r: Registration) {
    && k == Key(r.spec.tenant, r.spec.clusterID) && ValidIdentity(r.spec)
    && -TWO63 <= r.lastGeneration < TWO63
  }

  predicate CallsOk(s: State) { forall c <- s.calls :: CallOk(s, s.calls[c]) }

  predicate PassesOk(s: State) { forall p <- s.passes :: PassOk(s, s.passes[p]) }

  ghost predicate PeersOk(s: State) { forall k <- s.peers.objects :: PeerOk(s, k, s.peers.objects[k]) }

  predicate HistoriesOk(s: State) {
    && (forall v <- s.verified :: VerifiedOk(s, v))
    && (forall m <- s.marks :: MarkOk(s, m))
    && (forall a <- s.acks :: AckOk(s, a))
    && AcksIncrease(s.acks)
  }

  predicate StoresOk(s: State) {
    && Valid(s.identities) && Valid(s.peers)
    && forall k <- s.identities.objects :: RegistrationOk(k, s.identities.objects[k].value)
  }

  ghost predicate Inv(s: State) {
    StoresOk(s) && CallsOk(s) && PassesOk(s) && PeersOk(s) && HistoriesOk(s)
  }

  /** Identities are never removed, their spec never changes, and their generation never falls. */
  predicate IdentitiesGrow(a: Db<Key, Registration>, b: Db<Key, Registration>) {
    && Evolves(a, b)
    && forall k <- a.objects ::
         && k in b.objects && b.objects[k].value.spec == a.objects[k].value.spec
         && ToUint64(a.objects[k].value.lastGeneration) <= ToUint64(b.objects[k].value.lastGeneration)
  }

  /** The state says exactly what the spec and the flags beside it say. */
  predicate Classified(p: Peer) {
    && (p.state == Suspended <==> p.suspended)
    && (p.state == Ready <==> !p.suspended && p.localConfirmed && p.remoteConfirmed)
    && p.state != Unset
  }

  /** Only state and observed generation move, and they say what the rest of the object says. */
  predicate Reclassified(a: Peer, b: Peer) {
    b == a.(state := b.state, observedGeneration := a.generation) && Classified(b)
  }

  /** What a step may do to one peer: leave it, or apply one atomic update to the object that is current. */
  predicate AtomicUpdate(a: Stored<Peer>, b: Stored<Peer>) {
    && a.uid == b.uid
    && (|| b.value == a.value
        || Reclassified(a.value, b.value)
        || b.value == a.value.(localConfirmed := true)
        || b.value == a.value.(remoteConfirmed := true)
        || b.value == a.value.(suspended := true, generation := a.value.generation + 1)
        || b.value == a.value.(suspended := false, generation := a.value.generation + 1))
  }

  predicate PeersEvolve(a: Db<Key, Peer>, b: Db<Key, Peer>) {
    && Evolves(a, b)
    && forall k <- b.objects ::
         if k in a.objects then AtomicUpdate(a.objects[k], b.objects[k])
         else b.objects[k].uid > a.revision
              && b.objects[k].value == NewPeerOf(b.objects[k].value.localRef, b.objects[k].value.remoteRef)
  }

  predicate Grows(s: State, t: State) {
    && IdentitiesGrow(s.identities, t.identities)
    && PeersEvolve(s.peers, t.peers)
    && s.verified <= t.verified && s.marks <= t.marks && s.acks <= t.acks
  }
}
