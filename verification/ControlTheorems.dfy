/** What every schedule of the control plane guarantees. */
module ControlTheorems {
  import opened Values
  import opened Protocol
  import opened ApiServer
  import opened ControlPlane

  // ---------------------------------------------------------------------------------------------
  // Survival of facts about old states
  // ---------------------------------------------------------------------------------------------

  lemma CallSurvives(s: State, t: State, call: Call)
    requires CallOk(s, call) && Grows(s, t)
    ensures CallOk(t, call)
  {
    match call.pc
    case DigestCheck(peer, _) => SnapshotSurvives(s.peers, t.peers, PeerKey(call), peer);
    case ConfirmWrite(peer, _) => SnapshotSurvives(s.peers, t.peers, PeerKey(call), peer);
    case RecordWrite(record) => SnapshotSurvives(s.identities, t.identities, call.issuer, record);
    case _ =>
  }

  lemma PassSurvives(s: State, t: State, listed: map<Key, Stored<Peer>>)
    requires PassOk(s, listed) && Grows(s, t)
    ensures PassOk(t, listed)
  {
    forall k | k in listed ensures Snapshot(t.peers, k, listed[k]) {
      SnapshotSurvives(s.peers, t.peers, k, listed[k]);
    }
  }

  lemma ConfirmedSurvives(s: State, t: State, k: Key, confirmer: string, confirmee: string)
    requires Confirmed(s, k, confirmer, confirmee) && Grows(s, t)
    ensures Confirmed(t, k, confirmer, confirmee)
  {
    var digest := s.identities.objects[Key(k.tenant, confirmee)].value.spec.bundleDigest;
    var m :| Verified(Key(k.tenant, confirmer), m) in s.verified
             && m.envelope.kind == CONFIRM && m.envelope.payload == Confirmation(k.id, digest);
    assert Verified(Key(k.tenant, confirmer), m) in t.verified;
  }

  lemma PeerSurvives(s: State, t: State, k: Key, peer: Stored<Peer>)
    requires PeerOk(s, k, peer) && Grows(s, t)
    ensures PeerOk(t, k, peer)
  {
    hide Confirmed;
    var p := peer.value;
    if p.localConfirmed {
      ConfirmedSurvives(s, t, k, p.localRef, p.remoteRef);
    }
    if p.remoteConfirmed {
      ConfirmedSurvives(s, t, k, p.remoteRef, p.localRef);
    }
  }

  lemma MarkSurvives(s: State, t: State, m: Mark)
    requires MarkOk(s, m) && Grows(s, t)
    ensures MarkOk(t, m)
  {
  }

  /** A state reached by growth is in order once everything new in it is. */
  lemma Settle(s: State, t: State)
    requires Inv(s) && Grows(s, t) && StoresOk(t)
    requires forall c <- t.calls :: (c in s.calls && t.calls[c] == s.calls[c]) || CallOk(t, t.calls[c])
    requires forall p <- t.passes :: (p in s.passes && t.passes[p] == s.passes[p]) || PassOk(t, t.passes[p])
    requires forall k <- t.peers.objects ::
      (k in s.peers.objects && t.peers.objects[k] == s.peers.objects[k]) || PeerOk(t, k, t.peers.objects[k])
    requires forall v <- t.verified :: v in s.verified || VerifiedOk(t, v)
    requires forall m <- t.marks :: m in s.marks || MarkOk(t, m)
    requires forall a <- t.acks :: a in s.acks || AckOk(t, a)
    requires AcksIncrease(t.acks)
    ensures Inv(t)
  {
    hide CallOk, PassOk, PeerOk, MarkOk, AcksIncrease;
    forall c | c in t.calls ensures CallOk(t, t.calls[c]) {
      if !CallOk(t, t.calls[c]) { CallSurvives(s, t, s.calls[c]); }
    }
    forall p | p in t.passes ensures PassOk(t, t.passes[p]) {
      if !PassOk(t, t.passes[p]) { PassSurvives(s, t, s.passes[p]); }
    }
    forall k | k in t.peers.objects ensures PeerOk(t, k, t.peers.objects[k]) {
      if !PeerOk(t, k, t.peers.objects[k]) { PeerSurvives(s, t, k, s.peers.objects[k]); }
    }
    forall m | m in t.marks ensures MarkOk(t, m) {
      if !MarkOk(t, m) { MarkSurvives(s, t, m); }
    }
    forall v | v in t.verified ensures VerifiedOk(t, v) {
    }
    forall a | a in t.acks ensures AckOk(t, a) {
    }
  }

  // ---------------------------------------------------------------------------------------------
  // Store updates
  // ---------------------------------------------------------------------------------------------

  predicate RegistrationsOk(db: Db<Key, Registration>) {
    Valid(db) && forall k <- db.objects :: RegistrationOk(k, db.objects[k].value)
  }

  lemma RegistrationAdded(db: Db<Key, Registration>, k: Key, r: Registration)
    requires RegistrationsOk(db) && k !in db.objects && RegistrationOk(k, r)
    ensures RegistrationsOk(Create(db, k, r)) && IdentitiesGrow(db, Create(db, k, r))
  {
  }

  lemma GenerationRaised(db: Db<Key, Registration>, k: Key, r: Registration)
    requires RegistrationsOk(db) && k in db.objects && RegistrationOk(k, r) && r.spec == db.objects[k].value.spec
    requires ToUint64(db.objects[k].value.lastGeneration) <= ToUint64(r.lastGeneration)
    ensures RegistrationsOk(Rewrite(db, k, r)) && IdentitiesGrow(db, Rewrite(db, k, r))
  {
  }

  lemma PeerAdded(db: Db<Key, Peer>, k: Key, localRef: string, remoteRef: string)
    requires Valid(db) && k !in db.objects
    ensures Valid(Create(db, k, NewPeerOf(localRef, remoteRef)))
    ensures PeersEvolve(db, Create(db, k, NewPeerOf(localRef, remoteRef)))
  {
  }

  lemma PeerUpdated(db: Db<Key, Peer>, k: Key, p: Peer)
    requires Valid(db) && k in db.objects && AtomicUpdate(db.objects[k], db.objects[k].(value := p))
    ensures Valid(Rewrite(db, k, p)) && PeersEvolve(db, Rewrite(db, k, p))
  {
  }

  lemma PeerDeleted(db: Db<Key, Peer>, k: Key)
    requires Valid(db)
    ensures Valid(Delete(db, k)) && PeersEvolve(db, Delete(db, k))
  {
  }

  /** The two conversions cancel on every unsigned 64-bit generation. */
  lemma CastsCancel(g: int)
    requires Uint64(g)
    ensures -TWO63 <= ToInt64(g) < TWO63 && ToUint64(ToInt64(g)) == g
  {
  }

  // ---------------------------------------------------------------------------------------------
  // One lemma per kind of step
  // ---------------------------------------------------------------------------------------------

  lemma GotoInv(s: State, c: CallId, pc: Pc)
    requires Inv(s) && c in s.calls && CallOk(s, s.calls[c].(pc := pc))
    ensures Inv(Goto(s, c, pc)) && Grows(s, Goto(s, c, pc))
  {
    hide CallOk, PassOk, PeerOk, MarkOk, AckOk, VerifiedOk, AcksIncrease;
    var t := Goto(s, c, pc);
    Reflexive(s);
    CallSurvives(s, t, t.calls[c]);
    Settle(s, t);
  }

  lemma ReadsOk(s: State, call: Call, permitted: bool)
    requires CallOk(s, call) && StoresOk(s)
    ensures call.pc.Dispatching? ==> CallOk(s, call.(pc := Dispatch(call, permitted)))
    ensures call.pc.Confirming? ==> CallOk(s, call.(pc := ReadPeer(s, call)))
    ensures call.pc.DigestCheck? ==> CallOk(s, call.(pc := CheckDigest(s, call)))
    ensures call.pc.Recording? ==> CallOk(s, call.(pc := ReadRecord(s, call)))
  {
    match call.pc
    case Dispatching =>
    case Confirming =>
    case DigestCheck(_, _) =>
    case Recording =>
    case _ =>
  }

  lemma CheckInv(s: State, c: CallId)
    requires Inv(s) && c in s.calls && s.calls[c].pc.Checking?
    ensures Inv(Check(s, c)) && Grows(s, Check(s, c))
  {
    hide PassOk, PeerOk, MarkOk, AckOk, VerifiedOk, AcksIncrease;
    var t := Check(s, c);
    assert CallOk(s, s.calls[c]);
    if t.verified == s.verified {
      GotoInv(s, c, t.calls[c].pc);
    } else {
      CheckedOk(s, c);
      Settle(s, t);
    }
  }

  lemma CheckedOk(s: State, c: CallId)
    requires c in s.calls && s.calls[c].pc.Checking? && CallOk(s, s.calls[c]) && StoresOk(s)
    ensures var t := Check(s, c);
            && Grows(s, t) && CallOk(t, t.calls[c])
            && forall v <- t.verified :: v in s.verified || VerifiedOk(t, v)
  {
    var t := Check(s, c);
    if t.verified != s.verified {
      VerifiedIsSigned(s.calls[c].message, s.calls[c].pc.identity.publicKey.value, "hub", s.clock, s.calls[c].pc.last, {});
    }
  }

  lemma DoneOk(s: State, call: Call, answer: Answer)
    requires CallOk(s, call)
    ensures CallOk(s, call.(pc := Done(answer)))
  {
  }

  lemma ConfirmationOk(s: State, c: CallId, fault: Fault)
    requires c in s.calls && s.calls[c].pc.ConfirmWrite? && CallOk(s, s.calls[c]) && StoresOk(s)
    requires WriteConfirmation(s, c, fault).peers != s.peers
    ensures var t := WriteConfirmation(s, c, fault); Valid(t.peers) && PeersEvolve(s.peers, t.peers)
    ensures CallOk(WriteConfirmation(s, c, fault), WriteConfirmation(s, c, fault).calls[c])
  {
    var call := s.calls[c];
    PeerUpdated(s.peers, PeerKey(call), WithFlag(call.pc.confirmed.value, call.pc.writeSide));
  }

  lemma ConfirmedPeerOk(s: State, c: CallId, fault: Fault)
    requires c in s.calls && s.calls[c].pc.ConfirmWrite? && CallOk(s, s.calls[c]) && PeersOk(s) && StoresOk(s)
    requires WriteConfirmation(s, c, fault).peers != s.peers
    ensures var t := WriteConfirmation(s, c, fault);
            forall k <- t.peers.objects ::
              (k in s.peers.objects && t.peers.objects[k] == s.peers.objects[k]) || PeerOk(t, k, t.peers.objects[k])
  {
    var call, t := s.calls[c], WriteConfirmation(s, c, fault);
    var k, p := PeerKey(call), call.pc.confirmed.value;
    assert PeerOk(s, k, s.peers.objects[k]);
    assert Verified(call.issuer, call.message) in t.verified;
    assert Confirmed(t, k, Confirmer(p, call.pc.writeSide), Confirmee(p, call.pc.writeSide));
    if p.localConfirmed { assert Confirmed(t, k, p.localRef, p.remoteRef); }
    if p.remoteConfirmed { assert Confirmed(t, k, p.remoteRef, p.localRef); }
  }

  lemma ConfirmedMarkOk(s: State, c: CallId, fault: Fault)
    requires c in s.calls && s.calls[c].pc.ConfirmWrite? && CallOk(s, s.calls[c]) && StoresOk(s)
    requires WriteConfirmation(s, c, fault).peers != s.peers
    ensures var t := WriteConfirmation(s, c, fault); forall m <- t.marks :: m in s.marks || MarkOk(t, m)
  {
  }

  lemma ConfirmationInv(s: State, c: CallId, fault: Fault)
    requires Inv(s) && c in s.calls && s.calls[c].pc.ConfirmWrite?
    ensures Inv(WriteConfirmation(s, c, fault)) && Grows(s, WriteConfirmation(s, c, fault))
  {
    hide CallOk, PeerOk, MarkOk, AckOk, VerifiedOk, AcksIncrease;
    var t := WriteConfirmation(s, c, fault);
    assert CallOk(s, s.calls[c]);
    if t.peers == s.peers {
      DoneOk(s, s.calls[c], Denied);
      assert t == Goto(s, c, Done(Denied));
      GotoInv(s, c, Done(Denied));
    } else {
      ConfirmationOk(s, c, fault);
      ConfirmedPeerOk(s, c, fault);
      ConfirmedMarkOk(s, c, fault);
      Settle(s, t);
    }
  }

  lemma RecordOk(s: State, c: CallId, fault: Fault)
    requires c in s.calls && s.calls[c].pc.RecordWrite? && CallOk(s, s.calls[c]) && StoresOk(s)
    requires WriteRecord(s, c, fault).identities != s.identities
    ensures var t := WriteRecord(s, c, fault); StoresOk(t) && IdentitiesGrow(s.identities, t.identities)
    ensures CallOk(WriteRecord(s, c, fault), WriteRecord(s, c, fault).calls[c])
  {
    var call, t := s.calls[c], WriteRecord(s, c, fault);
    CastsCancel(call.message.envelope.generation);
    GenerationRaised(s.identities, call.issuer, t.identities.objects[call.issuer].value);
  }

  lemma AcknowledgedOk(s: State, c: CallId, fault: Fault)
    requires c in s.calls && s.calls[c].pc.RecordWrite? && CallOk(s, s.calls[c]) && StoresOk(s)
    requires WriteRecord(s, c, fault).identities != s.identities
    ensures var t := WriteRecord(s, c, fault); forall a <- t.acks :: a in s.acks || AckOk(t, a)
  {
    CastsCancel(s.calls[c].message.envelope.generation);
  }

  lemma RecordIncreases(s: State, c: CallId, fault: Fault)
    requires c in s.calls && s.calls[c].pc.RecordWrite? && CallOk(s, s.calls[c]) && HistoriesOk(s)
    ensures AcksIncrease(WriteRecord(s, c, fault).acks)
  {
    var t := WriteRecord(s, c, fault);
    forall i, j | 0 <= i < j < |t.acks| && t.acks[i].issuer == t.acks[j].issuer
      ensures t.acks[i].message.envelope.generation < t.acks[j].message.envelope.generation
    {
      if j == |s.acks| {
        assert AckOk(s, s.acks[i]);
      }
    }
  }

  lemma RecordShape(s: State, c: CallId, fault: Fault)
    requires c in s.calls && s.calls[c].pc.RecordWrite?
    ensures var t := WriteRecord(s, c, fault);
            if t.identities == s.identities then t == Goto(s, c, Done(Replay))
            else t == s.(identities := t.identities, acks := t.acks, calls := t.calls) && s.acks <= t.acks
  {
  }

  lemma RecordInv(s: State, c: CallId, fault: Fault)
    requires Inv(s) && c in s.calls && s.calls[c].pc.RecordWrite?
    ensures Inv(WriteRecord(s, c, fault)) && Grows(s, WriteRecord(s, c, fault))
  {
    hide CallOk, PeerOk, MarkOk, AckOk, VerifiedOk, AcksIncrease, WriteRecord;
    var t := WriteRecord(s, c, fault);
    assert CallOk(s, s.calls[c]);
    RecordShape(s, c, fault);
    if t.identities == s.identities {
      DoneOk(s, s.calls[c], Replay);
      GotoInv(s, c, Done(Replay));
    } else {
      RecordOk(s, c, fault);
      AcknowledgedOk(s, c, fault);
      RecordIncreases(s, c, fault);
      Settle(s, t);
    }
  }

  lemma AdvanceInv(s: State, c: CallId, fault: Fault, permitted: bool)
    requires Inv(s) && c in s.calls
    ensures Inv(AdvanceCall(s, c, fault, permitted)) && Grows(s, AdvanceCall(s, c, fault, permitted))
  {
    hide PeersOk, PassesOk, HistoriesOk, PassOk, Grows, Check, WriteConfirmation, WriteRecord, Dispatch, ReadPeer, CheckDigest, ReadRecord;
    var call := s.calls[c];
    assert CallOk(s, call);
    match call.pc
    case Arrived => GotoInv(s, c, AdvanceCall(s, c, fault, permitted).calls[c].pc);
    case Known(_) => GotoInv(s, c, AdvanceCall(s, c, fault, permitted).calls[c].pc);
    case Checking(_, _) => CheckInv(s, c);
    case Dispatching => ReadsOk(s, call, permitted); GotoInv(s, c, Dispatch(call, permitted));
    case Confirming => ReadsOk(s, call, permitted); GotoInv(s, c, ReadPeer(s, call));
    case DigestCheck(_, _) => ReadsOk(s, call, permitted); GotoInv(s, c, CheckDigest(s, call));
    case ConfirmWrite(_, _) => ConfirmationInv(s, c, fault);
    case Recording => ReadsOk(s, call, permitted); GotoInv(s, c, ReadRecord(s, call));
    case RecordWrite(_) => RecordInv(s, c, fault);
    case Done(_) => Reflexive(s);
  }

  lemma ReconcileInv(s: State, pass: PassId, k: Key, fault: Fault)
    requires Inv(s)
    ensures Inv(Reconcile(s, pass, k, fault)) && Grows(s, Reconcile(s, pass, k, fault))
  {
    hide CallOk, MarkOk, AckOk, VerifiedOk, AcksIncrease, Confirmed;
    var t := Reconcile(s, pass, k, fault);
    Reflexive(s);
    if t != s {
      assert PassOk(s, s.passes[pass]) && PeerOk(s, k, s.peers.objects[k]);
      PeerUpdated(s.peers, k, Reconciled(s.peers.objects[k].value));
      PeerSurvives(s, t, k, s.peers.objects[k]);
      Settle(s, t);
    }
  }

  lemma SuspendInv(s: State, k: Key, suspended: bool)
    requires Inv(s) && k in s.peers.objects
    ensures Inv(Next(s, SetSuspended(k, suspended))) && Grows(s, Next(s, SetSuspended(k, suspended)))
  {
    hide CallOk, PassOk, MarkOk, AckOk, VerifiedOk, AcksIncrease, Confirmed;
    var t := Next(s, SetSuspended(k, suspended));
    assert PeerOk(s, k, s.peers.objects[k]);
    PeerUpdated(s.peers, k, t.peers.objects[k].value);
    PeerSurvives(s, t, k, s.peers.objects[k]);
    Settle(s, t);
  }

  lemma ArriveInv(s: State, step: Step)
    requires Inv(s) && (step.Arrive? || step.ListPeers?)
    ensures Inv(Next(s, step)) && Grows(s, Next(s, step))
  {
    hide PeerOk, MarkOk, AckOk, VerifiedOk, AcksIncrease;
    Reflexive(s);
    if Next(s, step) != s {
      Settle(s, Next(s, step));
    }
  }

  lemma AdminInv(s: State, step: Step)
    requires Inv(s) && (step.Tick? || step.Register? || step.NewPeer? || step.DeletePeer?)
    ensures Inv(Next(s, step)) && Grows(s, Next(s, step))
  {
    hide CallOk, PassOk, PeerOk, MarkOk, AckOk, VerifiedOk, AcksIncrease;
    var t := Next(s, step);
    Reflexive(s);
    match step {
      case Register(identity) =>
        if t != s {
          RegistrationAdded(s.identities, Key(identity.tenant, identity.clusterID), Registration(identity, 0, ""));
        }
      case NewPeer(key, localRef, remoteRef) =>
        if t != s {
          PeerAdded(s.peers, key, localRef, remoteRef);
          NewPeerIsOk(t, key, localRef, remoteRef);
        }
      case DeletePeer(key) => PeerDeleted(s.peers, key);
      case Tick(_) =>
    }
    if t != s {
      Settle(s, t);
    }
  }

  lemma NewPeerIsOk(t: State, k: Key, localRef: string, remoteRef: string)
    requires k in t.peers.objects && t.peers.objects[k].value == NewPeerOf(localRef, remoteRef)
    ensures PeerOk(t, k, t.peers.objects[k])
  {
  }

  lemma NextInv(s: State, step: Step)
    requires Inv(s)
    ensures Inv(Next(s, step)) && Grows(s, Next(s, step))
  {
    hide Inv, Grows, AdvanceCall, Reconcile;
    match step
    case Advance(c, fault, permitted) =>
      if c in s.calls { AdvanceInv(s, c, fault, permitted); } else { Reflexive(s); }
    case ReconcilePeer(pass, key, fault) => ReconcileInv(s, pass, key, fault);
    case SetSuspended(key, suspended) =>
      if key in s.peers.objects { SuspendInv(s, key, suspended); } else { Reflexive(s); }
    case Arrive(_, _, _) => ArriveInv(s, step);
    case ListPeers(_) => ArriveInv(s, step);
    case _ => AdminInv(s, step);
  }

  lemma Reflexive(s: State)
    ensures Grows(s, s)
  {
  }

  lemma {:induction false} Invariant(schedule: seq<Step>)
    ensures Inv(Exec(schedule))
  {
    if schedule != [] {
      Invariant(schedule[..|schedule| - 1]);
      NextInv(Exec(schedule[..|schedule| - 1]), schedule[|schedule| - 1]);
    }
  }

  // ---------------------------------------------------------------------------------------------
  // Theorems
  // ---------------------------------------------------------------------------------------------

  /** A message posted for `issuer` passed verification: the holder of its registered key signed a confirmation of `digest` for peer `peerRef`. */
  ghost predicate SignedConfirmation(s: State, issuer: Key, peerRef: string, digest: string, m: Message) {
    && Verified(issuer, m) in s.verified
    && issuer in s.identities.objects
    && var spec := s.identities.objects[issuer].value.spec;
       && m.envelope.issuer == spec.spiffeID && m.envelope.audience == "hub"
       && m.envelope.kind == CONFIRM && m.envelope.payload == Confirmation(peerRef, digest)
       && exists key: PrivateKey :: spec.publicKey == Some(PublicOf(key)) && m == Sign(m.envelope, key)
  }

  ghost predicate BothConfirmed(s: State, k: Key) {
    && k in s.peers.objects
    && var p := s.peers.objects[k].value;
       && p.localRef != p.remoteRef
       && Key(k.tenant, p.localRef) in s.identities.objects && Key(k.tenant, p.remoteRef) in s.identities.objects
       && var local := s.identities.objects[Key(k.tenant, p.localRef)].value.spec;
          var remote := s.identities.objects[Key(k.tenant, p.remoteRef)].value.spec;
          && (exists m :: SignedConfirmation(s, Key(k.tenant, p.localRef), k.id, remote.bundleDigest, m))
          && (exists m :: SignedConfirmation(s, Key(k.tenant, p.remoteRef), k.id, local.bundleDigest, m))
  }

  lemma ConfirmedIsSigned(s: State, k: Key, confirmer: string, confirmee: string)
    requires Inv(s) && Confirmed(s, k, confirmer, confirmee)
    ensures exists m ::
      SignedConfirmation(s, Key(k.tenant, confirmer), k.id, s.identities.objects[Key(k.tenant, confirmee)].value.spec.bundleDigest, m)
  {
    var digest := s.identities.objects[Key(k.tenant, confirmee)].value.spec.bundleDigest;
    var m :| Verified(Key(k.tenant, confirmer), m) in s.verified
             && m.envelope.kind == CONFIRM && m.envelope.payload == Confirmation(k.id, digest);
    assert VerifiedOk(s, Verified(Key(k.tenant, confirmer), m));
    assert m == Sign(m.envelope, m.signature.signer);
    assert SignedConfirmation(s, Key(k.tenant, confirmer), k.id, digest, m);
  }

  lemma CallsKeepMessages(s: State, step: Step, c: CallId)
    ensures c in s.calls ==>
      c in Next(s, step).calls && Next(s, step).calls[c].issuer == s.calls[c].issuer && Next(s, step).calls[c].message == s.calls[c].message
    ensures c !in s.calls && c in Next(s, step).calls ==>
      step == Arrive(c, Next(s, step).calls[c].issuer, Next(s, step).calls[c].message)
  {
  }

  /** Every handler's message arrived in some step. */
  lemma {:induction false} CallArrived(schedule: seq<Step>, c: CallId) returns (i: nat)
    requires c in Exec(schedule).calls
    ensures i < |schedule| && schedule[i] == Arrive(c, Exec(schedule).calls[c].issuer, Exec(schedule).calls[c].message)
  {
    hide Next;
    var n := |schedule| - 1;
    CallsKeepMessages(Exec(schedule[..n]), schedule[n], c);
    if c in Exec(schedule[..n]).calls {
      i := CallArrived(schedule[..n], c);
    } else {
      i := n;
    }
  }

  /** Step `i` delivered the message of `v`, and step `j` of the same handler verified it under the registered key at the clock of that moment. */
  ghost predicate VerifiedAt(schedule: seq<Step>, i: nat, j: nat, v: Verified) {
    && i < j < |schedule| && schedule[j].Advance? && schedule[i] == Arrive(schedule[j].c, v.issuer, v.message)
    && var s := Exec(schedule[..j]);
       && v.issuer in s.identities.objects && s.identities.objects[v.issuer].value.spec.publicKey.Some?
       && exists last: nat ::
            Verify(v.message, s.identities.objects[v.issuer].value.spec.publicKey.value, "hub", s.clock, last, {}).Ok?
  }

  lemma StepVerifies(s: State, step: Step, v: Verified)
    requires CallsOk(s) && v in Next(s, step).verified && v !in s.verified
    ensures step.Advance? && step.c in s.calls && s.calls[step.c].issuer == v.issuer && s.calls[step.c].message == v.message
    ensures v.issuer in s.identities.objects && s.identities.objects[v.issuer].value.spec.publicKey.Some?
    ensures exists last: nat ::
              Verify(v.message, s.identities.objects[v.issuer].value.spec.publicKey.value, "hub", s.clock, last, {}).Ok?
  {
    hide Verify;
    assert step.Advance? && step.c in s.calls && CallOk(s, s.calls[step.c]);
  }

  /** Whatever counts as verified had arrived before and was verified by its own handler. */
  lemma {:induction false} VerifiedWasReceived(schedule: seq<Step>, v: Verified) returns (i: nat, j: nat)
    requires v in Exec(schedule).verified
    ensures VerifiedAt(schedule, i, j, v)
  {
    hide Next, Inv, Verify;
    var n := |schedule| - 1;
    var s := Exec(schedule[..n]);
    if v in s.verified {
      i, j := VerifiedWasReceived(schedule[..n], v);
      assert schedule[..n][..j] == schedule[..j];
    } else {
      Invariant(schedule[..n]);
      CallsAreOk(s);
      StepVerifies(s, schedule[n], v);
      i := CallArrived(schedule[..n], schedule[n].c);
      j := n;
    }
  }

  lemma CallsAreOk(s: State)
    requires Inv(s)
    ensures CallsOk(s)
  {
  }

  /** `issuer` confirmed `digest` for peer `peerRef`: its signed message arrived in one step and a later one verified it. */
  ghost predicate ConfirmationReceived(schedule: seq<Step>, issuer: Key, peerRef: string, digest: string) {
    exists m, i: nat, j: nat ::
      SignedConfirmation(Exec(schedule), issuer, peerRef, digest, m) && VerifiedAt(schedule, i, j, Verified(issuer, m))
  }

  lemma ConfirmationWasReceived(schedule: seq<Step>, issuer: Key, peerRef: string, digest: string)
    requires exists m :: SignedConfirmation(Exec(schedule), issuer, peerRef, digest, m)
    ensures ConfirmationReceived(schedule, issuer, peerRef, digest)
  {
    var m :| SignedConfirmation(Exec(schedule), issuer, peerRef, digest, m);
    var i, j := VerifiedWasReceived(schedule, Verified(issuer, m));
  }

  /** A confirmation received from each side of a peer, carrying the registered digest of the other. */
  ghost predicate BothReceived(schedule: seq<Step>, k: Key)
    requires BothConfirmed(Exec(schedule), k)
  {
    var s := Exec(schedule);
    var p := s.peers.objects[k].value;
    var local, remote := Key(k.tenant, p.localRef), Key(k.tenant, p.remoteRef);
    && ConfirmationReceived(schedule, local, k.id, s.identities.objects[remote].value.spec.bundleDigest)
    && ConfirmationReceived(schedule, remote, k.id, s.identities.objects[local].value.spec.bundleDigest)
  }

  lemma BothWereReceived(schedule: seq<Step>, k: Key)
    requires BothConfirmed(Exec(schedule), k)
    ensures BothReceived(schedule, k)
  {
    hide SignedConfirmation, ConfirmationReceived, Exec;
    var s := Exec(schedule);
    var p := s.peers.objects[k].value;
    var local, remote := Key(k.tenant, p.localRef), Key(k.tenant, p.remoteRef);
    ConfirmationWasReceived(schedule, local, k.id, s.identities.objects[remote].value.spec.bundleDigest);
    ConfirmationWasReceived(schedule, remote, k.id, s.identities.objects[local].value.spec.bundleDigest);
  }

  /**
   In every interleaving, a Ready peer was confirmed by two distinct identities: from each a message arrived and was
   verified in which the holder of its registered key signed the other's registered digest for this very peer.
   */
  lemma ReadyMeansBothConfirmed(schedule: seq<Step>, k: Key)
    requires k in Exec(schedule).peers.objects && Exec(schedule).peers.objects[k].value.state == Ready
    ensures BothConfirmed(Exec(schedule), k) && BothReceived(schedule, k)
  {
    var s := Exec(schedule);
    Invariant(schedule);
    var p := s.peers.objects[k].value;
    assert PeerOk(s, k, s.peers.objects[k]);
    ConfirmedIsSigned(s, k, p.localRef, p.remoteRef);
    ConfirmedIsSigned(s, k, p.remoteRef, p.localRef);
    BothWereReceived(schedule, k);
  }

  lemma AdvanceKeepsStates(s: State, c: CallId, fault: Fault, permitted: bool, k: Key)
    requires c in s.calls && CallOk(s, s.calls[c]) && k in AdvanceCall(s, c, fault, permitted).peers.objects
    ensures k in s.peers.objects
    ensures AdvanceCall(s, c, fault, permitted).peers.objects[k].value.state == s.peers.objects[k].value.state
  {
  }

  lemma StatesAreClassifications(s: State, step: Step, k: Key)
    requires CallsOk(s) && PassesOk(s) && k in Next(s, step).peers.objects
    ensures var p := Next(s, step).peers.objects[k].value;
      || p.state == (if k in s.peers.objects then s.peers.objects[k].value.state else Unset)
      || (step.ReconcilePeer? && Classified(p))
  {
    hide AdvanceCall, CallOk, PassOk;
    match step
    case Advance(c, fault, permitted) =>
      if c in s.calls {
        assert CallOk(s, s.calls[c]);
        AdvanceKeepsStates(s, c, fault, permitted, k);
      }
    case _ =>
  }

  /** A reconcile pass that commits has classified the object that is current, not merely the one it listed. */
  lemma CommittedPassesReconcile(s: State, pass: PassId, k: Key, fault: Fault)
    requires PassesOk(s) && Reconcile(s, pass, k, fault).peers != s.peers
    ensures k in s.peers.objects && k in Reconcile(s, pass, k, fault).peers.objects
    ensures Reclassified(s.peers.objects[k].value, Reconcile(s, pass, k, fault).peers.objects[k].value)
  {
    assert PassOk(s, s.passes[pass]);
    assert Snapshot(s.peers, k, s.passes[pass][k]);
  }

  /** A pass commits exactly when its write is not refused and the object it listed is still the current one. */
  lemma PassCommitsIff(schedule: seq<Step>, pass: PassId, k: Key, fault: Fault)
    ensures var s, t := Exec(schedule), Exec(schedule + [ReconcilePeer(pass, k, fault)]);
            t.peers != s.peers <==>
              fault != WriteRefused && pass in s.passes && k in s.passes[pass]
              && k in s.peers.objects && s.peers.objects[k] == s.passes[pass][k]
  {
    var step := ReconcilePeer(pass, k, fault);
    assert (schedule + [step])[..|schedule|] == schedule;
    Invariant(schedule);
    var s := Exec(schedule);
    if pass in s.passes && k in s.passes[pass] {
      assert PassOk(s, s.passes[pass]);
      assert Snapshot(s.peers, k, s.passes[pass][k]);
    }
  }

  lemma PassCommits(s: State, step: Step)
    requires PassesOk(s)
    ensures step.ReconcilePeer? && Next(s, step).peers != s.peers ==>
      && step.key in s.peers.objects && step.key in Next(s, step).peers.objects
      && Reclassified(s.peers.objects[step.key].value, Next(s, step).peers.objects[step.key].value)
  {
    if step.ReconcilePeer? && Next(s, step).peers != s.peers {
      CommittedPassesReconcile(s, step.pass, step.key, step.fault);
    }
  }

  /**
   Every step applies at most one atomic update to the peer that is current: nothing a concurrent writer did is lost,
   and whatever a pass commits is the classification of the spec and flags current at that commit.
   */
  lemma PeerWritesAreAtomic(schedule: seq<Step>, step: Step, k: Key)
    requires k in Exec(schedule + [step]).peers.objects
    ensures k in Exec(schedule).peers.objects ==>
      AtomicUpdate(Exec(schedule).peers.objects[k], Exec(schedule + [step]).peers.objects[k])
    ensures var p := Exec(schedule + [step]).peers.objects[k].value;
      || p.state == (if k in Exec(schedule).peers.objects then Exec(schedule).peers.objects[k].value.state else Unset)
      || (step.ReconcilePeer? && Classified(p))
    ensures step.ReconcilePeer? && step.key == k && Exec(schedule + [step]).peers != Exec(schedule).peers ==>
      && k in Exec(schedule).peers.objects
      && Reclassified(Exec(schedule).peers.objects[k].value, Exec(schedule + [step]).peers.objects[k].value)
  {
    hide Next, Reconcile, CallsOk, PassesOk, PeersOk, HistoriesOk, StoresOk;
    assert (schedule + [step])[..|schedule|] == schedule;
    Invariant(schedule);
    PassCommits(Exec(schedule), step);
    NextInv(Exec(schedule), step);
    StatesAreClassifications(Exec(schedule), step, k);
  }

  lemma {:induction false} HistoriesGrow(schedule: seq<Step>, more: seq<Step>)
    ensures Exec(schedule).marks <= Exec(schedule + more).marks
    ensures Exec(schedule).acks <= Exec(schedule + more).acks
  {
    hide Next, Inv;
    if more == [] {
      assert schedule + more == schedule;
    } else {
      var shorter := more[..|more| - 1];
      HistoriesGrow(schedule, shorter);
      assert (schedule + more)[..|schedule + more| - 1] == schedule + shorter;
      Invariant(schedule + shorter);
      NextInv(Exec(schedule + shorter), more[|more| - 1]);
    }
  }

  /** A confirmation flag, once true, stays true for as long as that incarnation of the peer exists. */
  lemma FlagsStay(schedule: seq<Step>, more: seq<Step>, k: Key, side: Side)
    requires k in Exec(schedule).peers.objects && Flag(Exec(schedule).peers.objects[k].value, side)
    requires k in Exec(schedule + more).peers.objects
    requires Exec(schedule + more).peers.objects[k].uid == Exec(schedule).peers.objects[k].uid
    ensures Flag(Exec(schedule + more).peers.objects[k].value, side)
  {
    var s, t := Exec(schedule), Exec(schedule + more);
    Invariant(schedule);
    Invariant(schedule + more);
    HistoriesGrow(schedule, more);
    var p := s.peers.objects[k];
    assert PeerOk(s, k, p);
    assert MarkOk(t, Mark(k, p.uid, side, Confirmer(p.value, side)));
  }

  /** Acknowledged generations of one identity strictly increase in commit order, over the whole uint64 range. */
  lemma AcknowledgementsIncrease(schedule: seq<Step>, i: nat, j: nat)
    requires i < j < |Exec(schedule).acks| && Exec(schedule).acks[i].issuer == Exec(schedule).acks[j].issuer
    ensures Exec(schedule).acks[i].message.envelope.generation < Exec(schedule).acks[j].message.envelope.generation
  {
    Invariant(schedule);
  }

  /** After the first `n` steps the incarnation of the peer that the mark names carried the flag of the mark's author. */
  predicate SetAfter(schedule: seq<Step>, n: nat, m: Mark) {
    && n <= |schedule|
    && var peers := Exec(schedule[..n]).peers.objects;
       && m.peer in peers && peers[m.peer].uid == m.uid
       && Flag(peers[m.peer].value, m.side) && Confirmer(peers[m.peer].value, m.side) == m.author
  }

  lemma StepMarks(s: State, step: Step, m: Mark)
    requires CallsOk(s) && m in Next(s, step).marks && m !in s.marks
    ensures var peers := Next(s, step).peers.objects;
            && m.peer in peers && peers[m.peer].uid == m.uid
            && Flag(peers[m.peer].value, m.side) && Confirmer(peers[m.peer].value, m.side) == m.author
  {

    assert step.Advance? && step.c in s.calls && CallOk(s, s.calls[step.c]);
  }

  /** Every mark was a flag at some time. */
  lemma {:induction false} MarkWasSet(schedule: seq<Step>, m: Mark) returns (n: nat)
    requires m in Exec(schedule).marks
    ensures SetAfter(schedule, n, m)
  {
    hide Next, Inv;
    var k := |schedule| - 1;
    if m in Exec(schedule[..k]).marks {
      n := MarkWasSet(schedule[..k], m);
      assert schedule[..k][..n] == schedule[..n];
    } else {
      Invariant(schedule[..k]);
      CallsAreOk(Exec(schedule[..k]));
      StepMarks(Exec(schedule[..k]), schedule[k], m);
      n := |schedule|;
      assert schedule[..n] == schedule;
    }
  }

  /** An acknowledged confirmation took effect and is durable: its peer carried the sender's flag, and does so while that incarnation exists. */
  lemma AcknowledgedConfirmationsAreDurable(schedule: seq<Step>, more: seq<Step>, i: nat)
    requires i < |Exec(schedule).acks| && Exec(schedule).acks[i].message.envelope.kind == CONFIRM
    ensures var a, t := Exec(schedule).acks[i], Exec(schedule + more);
      && a.effect.Some? && a.message.envelope.payload.Confirmation?
      && var mark := a.effect.value;
         && mark.peer == Key(a.issuer.tenant, a.message.envelope.payload.peerRef) && mark.author == a.issuer.id
         && (exists n: nat :: SetAfter(schedule, n, mark))
         && (mark.peer in t.peers.objects && t.peers.objects[mark.peer].uid == mark.uid ==>
               var p := t.peers.objects[mark.peer].value;
               Confirmer(p, mark.side) == a.issuer.id && Flag(p, mark.side))
  {
    Invariant(schedule);
    Invariant(schedule + more);
    HistoriesGrow(schedule, more);
    assert AckOk(Exec(schedule), Exec(schedule).acks[i]);
    assert MarkOk(Exec(schedule + more), Exec(schedule).acks[i].effect.value);
    var n := MarkWasSet(schedule, Exec(schedule).acks[i].effect.value);
  }
}
