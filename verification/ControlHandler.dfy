/**
 What one control message does. Over every schedule: nothing is recorded or acknowledged for a message whose
 effect was refused. And for a handler that no one interrupts: exactly when it accepts, and what it then leaves behind.
 */
module ControlHandler {
  import opened Values
  import opened Protocol
  import opened ApiServer
  import opened ControlPlane
  import ControlTheorems

  // ---------------------------------------------------------------------------------------------
  // Effects come before records
  // ---------------------------------------------------------------------------------------------

  /** Step `n` found handler `c` past verification and before recording, and its effect was permitted or not. */
  predicate EffectAt(schedule: seq<Step>, n: nat, c: CallId, permitted: bool) {
    && n < |schedule| && schedule[n].Advance? && schedule[n].c == c && schedule[n].permitted == permitted
    && var s := Exec(schedule[..n]);
       && c in s.calls && s.calls[c].pc.Dispatching?
       && Verified(s.calls[c].issuer, s.calls[c].message) in s.verified
  }

  predicate Other(m: Message) {
    m.envelope.kind != "peer.bundle.confirm"
  }

  /** The handler of a message other than a confirmation is recording, has recorded or has answered that it did. */
  predicate Beyond(call: Call) {
    Other(call.message) && (call.pc.Recording? || call.pc.RecordWrite? || call.pc == Done(Accepted))
  }

  lemma StepBeyond(s: State, step: Step, c: CallId)
    requires CallsOk(s) && c in Next(s, step).calls && Beyond(Next(s, step).calls[c])
    ensures c in s.calls && s.calls[c].issuer == Next(s, step).calls[c].issuer && s.calls[c].message == Next(s, step).calls[c].message
    ensures Beyond(s.calls[c])
            || (step.Advance? && step.c == c && step.permitted && s.calls[c].pc.Dispatching?
                && Verified(s.calls[c].issuer, s.calls[c].message) in s.verified)
  {
    hide Verify;
    ControlTheorems.CallsKeepMessages(s, step, c);
    if c in s.calls {
      assert CallOk(s, s.calls[c]);
    }
  }

  lemma {:induction false} BeyondWasPermitted(schedule: seq<Step>, c: CallId) returns (n: nat)
    requires c in Exec(schedule).calls && Beyond(Exec(schedule).calls[c])
    ensures EffectAt(schedule, n, c, true)
  {
    hide Next, Inv, Beyond;
    var k := |schedule| - 1;
    var s := Exec(schedule[..k]);
    ControlTheorems.Invariant(schedule[..k]);
    ControlTheorems.CallsAreOk(s);
    StepBeyond(s, schedule[k], c);
    if Beyond(s.calls[c]) {
      n := BeyondWasPermitted(schedule[..k], c);
      assert schedule[..k][..n] == schedule[..n];
    } else {
      n := k;
    }
  }

  /** A call that answered "accepted" to a message other than a confirmation had its effect permitted first. */
  lemma AcceptedWasPermitted(schedule: seq<Step>, c: CallId)
    requires c in Exec(schedule).calls && Exec(schedule).calls[c].pc == Done(Accepted) && Other(Exec(schedule).calls[c].message)
    ensures exists n: nat :: EffectAt(schedule, n, c, true)
  {
    var n := BeyondWasPermitted(schedule, c);
  }

  /** Only a handler about to record changes a registered identity or acknowledges, and it acknowledges its own message. */
  lemma OnlyRecordersWrite(s: State, step: Step)
    requires CallsOk(s)
    ensures Next(s, step).identities != s.identities && !step.Register? ==>
              step.Advance? && step.c in s.calls && s.calls[step.c].pc.RecordWrite?
    ensures Next(s, step).acks != s.acks ==>
              && step.Advance? && step.c in s.calls && s.calls[step.c].pc.RecordWrite? && step.fault == NoFault
              && Next(s, step).acks == s.acks + [Ack(s.calls[step.c].issuer, s.calls[step.c].message, s.calls[step.c].effect)]
  {
    hide Verify;
  }

  /** Every generation record committed for a message other than a confirmation followed a permitted effect of the same handler. */
  lemma RecordedWasPermitted(schedule: seq<Step>, step: Step)
    requires Exec(schedule + [step]).identities != Exec(schedule).identities && !step.Register?
    ensures step.Advance? && step.c in Exec(schedule).calls
    ensures Other(Exec(schedule).calls[step.c].message) ==> exists n: nat :: EffectAt(schedule, n, step.c, true)
  {
    hide Next, Inv;
    assert (schedule + [step])[..|schedule|] == schedule;
    ControlTheorems.Invariant(schedule);
    ControlTheorems.CallsAreOk(Exec(schedule));
    OnlyRecordersWrite(Exec(schedule), step);
    if Other(Exec(schedule).calls[step.c].message) {
      var n := BeyondWasPermitted(schedule, step.c);
    }
  }

  /** Every acknowledgement of such a message followed a permitted effect of a handler of that very message. */
  lemma {:induction false} AcknowledgedWasPermitted(schedule: seq<Step>, i: nat) returns (n: nat, c: CallId)
    requires i < |Exec(schedule).acks| && Other(Exec(schedule).acks[i].message)
    ensures EffectAt(schedule, n, c, true)
    ensures var a, call := Exec(schedule).acks[i], Exec(schedule[..n]).calls[c]; a.issuer == call.issuer && a.message == call.message
  {
    hide Next, Inv, Other;
    var k := |schedule| - 1;
    var s, step := Exec(schedule[..k]), schedule[k];
    ControlTheorems.Invariant(schedule[..k]);
    ControlTheorems.CallsAreOk(s);
    OnlyRecordersWrite(s, step);
    if i < |s.acks| {
      n, c := AcknowledgedWasPermitted(schedule[..k], i);
    } else {
      c := step.c;
      n := BeyondWasPermitted(schedule[..k], c);
      MessageStays(schedule[..k], n, c);
    }
    assert schedule[..k][..n] == schedule[..n];
  }

  lemma {:induction false} MessageStays(schedule: seq<Step>, n: nat, c: CallId)
    requires n <= |schedule| && c in Exec(schedule[..n]).calls
    ensures c in Exec(schedule).calls
    ensures Exec(schedule).calls[c].issuer == Exec(schedule[..n]).calls[c].issuer
    ensures Exec(schedule).calls[c].message == Exec(schedule[..n]).calls[c].message
    decreases |schedule|
  {
    hide Next;
    if n == |schedule| {
      assert schedule[..n] == schedule;
    } else {
      var k := |schedule| - 1;
      assert schedule[..k][..n] == schedule[..n];
      MessageStays(schedule[..k], n, c);
      ControlTheorems.CallsKeepMessages(Exec(schedule[..k]), schedule[k], c);
    }
  }

  lemma AnswersAreFinal(s: State, step: Step, c: CallId)
    requires c in s.calls && s.calls[c].pc.Done?
    ensures c in Next(s, step).calls && Next(s, step).calls[c].pc == s.calls[c].pc
  {
    hide Verify;
  }

  /** The step that finds such an effect refused answers "denied" and writes nothing; and the handler never does anything again. */
  lemma {:induction false} RefusedEffectsAreDenied(schedule: seq<Step>, n: nat, c: CallId)
    requires EffectAt(schedule, n, c, false) && Other(Exec(schedule[..n]).calls[c].message)
    ensures var s, t := Exec(schedule[..n]), Exec(schedule[..n + 1]);
            t.identities == s.identities && t.acks == s.acks && t.peers == s.peers
    ensures c in Exec(schedule).calls && Exec(schedule).calls[c].pc == Done(Denied)
    decreases |schedule|
  {
    var k := |schedule| - 1;
    assert schedule[..n + 1][..n] == schedule[..n];
    if n == k {
      assert schedule[..n + 1] == schedule;
    } else {
      assert schedule[..k][..n] == schedule[..n] && schedule[..k][..n + 1] == schedule[..n + 1];
      RefusedEffectsAreDenied(schedule[..k], n, c);
      hide Next;
      AnswersAreFinal(Exec(schedule[..k]), schedule[k], c);
    }
  }

  // ---------------------------------------------------------------------------------------------
  // Refused writes and lost replies
  // ---------------------------------------------------------------------------------------------

  lemma StepAcknowledges(s: State, step: Step, c: CallId)
    requires c in Next(s, step).calls && Next(s, step).calls[c].pc == Done(Accepted)
    ensures var call := Next(s, step).calls[c];
            || (c in s.calls && s.calls[c] == call)
            || Ack(call.issuer, call.message, call.effect) in Next(s, step).acks
  {
    hide Check, WriteConfirmation, WriteRecord;
    if step.Advance? && step.c == c && c in s.calls {
      match s.calls[c].pc
      case Checking(_, _) => ChecksAcceptNone(s, c);
      case ConfirmWrite(_, _) => ConfirmationsAcceptNone(s, c, step.fault);
      case RecordWrite(_) => RecordsAcknowledge(s, c, step.fault);
      case _ =>
    }
  }

  lemma ChecksAcceptNone(s: State, c: CallId)
    requires c in s.calls && s.calls[c].pc.Checking?
    ensures Check(s, c).calls[c].pc != Done(Accepted)
  {
    hide Verify;
  }

  lemma ConfirmationsAcceptNone(s: State, c: CallId, fault: Fault)
    requires c in s.calls && s.calls[c].pc.ConfirmWrite?
    ensures WriteConfirmation(s, c, fault).calls[c].pc != Done(Accepted)
  {
  }

  lemma RecordsAcknowledge(s: State, c: CallId, fault: Fault)
    requires c in s.calls && s.calls[c].pc.RecordWrite?
    ensures var t, call := WriteRecord(s, c, fault), WriteRecord(s, c, fault).calls[c];
            call.pc == Done(Accepted) ==> Ack(call.issuer, call.message, call.effect) in t.acks
  {
  }

  lemma AcksStay(s: State, step: Step)
    ensures s.acks <= Next(s, step).acks
  {
    hide Verify, Dispatch, ReadPeer, CheckDigest, ReadRecord;
  }

  /** A call that answered "accepted" has its own message acknowledged, with the flag it set. */
  lemma {:induction false} AcceptedIsAcknowledged(schedule: seq<Step>, c: CallId)
    requires c in Exec(schedule).calls && Exec(schedule).calls[c].pc == Done(Accepted)
    ensures var call := Exec(schedule).calls[c]; Ack(call.issuer, call.message, call.effect) in Exec(schedule).acks
  {
    hide Next;
    var k := |schedule| - 1;
    var s := Exec(schedule[..k]);
    StepAcknowledges(s, schedule[k], c);
    AcksStay(s, schedule[k]);
    if c in s.calls && s.calls[c] == Exec(schedule).calls[c] {
      AcceptedIsAcknowledged(schedule[..k], c);
    }
  }

  /** In step `n` the write of handler `c` is refused, or committed with its reply lost. */
  predicate FaultAt(schedule: seq<Step>, n: nat, c: CallId) {
    && n < |schedule| && schedule[n].Advance? && schedule[n].c == c && schedule[n].fault != NoFault
    && c in Exec(schedule[..n]).calls && (Exec(schedule[..n]).calls[c].pc.ConfirmWrite? || Exec(schedule[..n]).calls[c].pc.RecordWrite?)
  }

  lemma FaultStep(s: State, step: Step, c: CallId)
    requires step.Advance? && step.c == c && step.fault != NoFault && c in s.calls
    requires s.calls[c].pc.ConfirmWrite? || s.calls[c].pc.RecordWrite?
    ensures Next(s, step).acks == s.acks && c in Next(s, step).calls
    ensures Next(s, step).calls[c].pc == Done(if s.calls[c].pc.ConfirmWrite? then Denied else Replay)
    ensures step.fault == WriteRefused ==> Next(s, step).peers == s.peers && Next(s, step).identities == s.identities
  {
    hide Check;
  }

  /** Either way the handler answers with an error, for good, and acknowledges nothing; and what is refused is not written. */
  lemma {:induction false} FaultsAreAnswered(schedule: seq<Step>, n: nat, c: CallId)
    requires FaultAt(schedule, n, c)
    ensures var s, t := Exec(schedule[..n]), Exec(schedule[..n + 1]);
            && c in Exec(schedule).calls && Exec(schedule).calls[c].pc == Done(if s.calls[c].pc.ConfirmWrite? then Denied else Replay)
            && t.acks == s.acks && (schedule[n].fault == WriteRefused ==> t.peers == s.peers && t.identities == s.identities)
    decreases |schedule|
  {
    hide Next;
    var k := |schedule| - 1;
    assert schedule[..n + 1][..n] == schedule[..n];
    if n == k {
      assert schedule[..n + 1] == schedule;
      FaultStep(Exec(schedule[..n]), schedule[n], c);
    } else {
      assert schedule[..k][..n] == schedule[..n] && schedule[..k][..n + 1] == schedule[..n + 1];
      FaultsAreAnswered(schedule[..k], n, c);
      AnswersAreFinal(Exec(schedule[..k]), schedule[k], c);
    }
  }

  // ---------------------------------------------------------------------------------------------
  // A handler alone
  // ---------------------------------------------------------------------------------------------

  /** `n` API calls of handler `c` with nothing in between and no failures. */
  function Alone(s: State, c: CallId, permitted: bool, n: nat): State {
    if n == 0 then s else Next(Alone(s, c, permitted, n - 1), Advance(c, NoFault, permitted))
  }

  lemma AloneOnce(s: State, c: CallId, permitted: bool)
    ensures Alone(s, c, permitted, 1) == Next(s, Advance(c, NoFault, permitted))
  {
    hide Next;
    assert Alone(s, c, permitted, 0) == s;
  }

  lemma {:induction false} AloneAdds(s: State, c: CallId, permitted: bool, m: nat, n: nat)
    ensures Alone(s, c, permitted, m + n) == Alone(Alone(s, c, permitted, m), c, permitted, n)
  {
    hide Next;
    if n > 0 {
      AloneAdds(s, c, permitted, m, n - 1);
    }
  }

  lemma {:induction false} AloneRests(s: State, c: CallId, permitted: bool, n: nat)
    requires c in s.calls && s.calls[c].pc.Done?
    ensures Alone(s, c, permitted, n) == s
  {
    if n > 0 {
      AloneRests(s, c, permitted, n - 1);
    }
  }

  /** The message is signed by the registered key of the identity it was posted for, timely, newer than its record, named after it and of no route type. */
  predicate Authentic(s: State, issuer: Key, m: Message)
    requires StoresOk(s)
  {
    && issuer in s.identities.objects
    && var r := s.identities.objects[issuer].value;
       && r.spec.publicKey.Some? && Verify(m, r.spec.publicKey.value, "hub", s.clock, LastOf(s, issuer), {}).Ok?
       && m.envelope.issuer == r.spec.spiffeID && !("route." <= m.envelope.kind)
  }

  function LastOf(s: State, issuer: Key): nat
    requires StoresOk(s) && issuer in s.identities.objects
  {
    assert RegistrationOk(issuer, s.identities.objects[issuer].value);
    ToUint64(s.identities.objects[issuer].value.lastGeneration)
  }

  function With(s: State, c: CallId, call: Call, verified: set<Verified>): State {
    s.(calls := s.calls[c := call], verified := verified)
  }

  lemma VerificationAlone(s: State, c: CallId, issuer: Key, m: Message, permitted: bool)
    requires StoresOk(s) && c in s.calls && s.calls[c] == Call(issuer, m, Arrived, None)
    ensures var t := Alone(s, c, permitted, 3);
            if Authentic(s, issuer, m)
            then t == With(s, c, Call(issuer, m, Dispatching, None), s.verified + {Verified(issuer, m)})
            else t == With(s, c, Call(issuer, m, Done(Denied), None), s.verified)
  {
    hide Next, Authentic;
    var first := Alone(s, c, permitted, 1);
    AloneOnce(s, c, permitted);
    ArrivedStep(s, c, issuer, m, permitted);
    if issuer in s.identities.objects {
      var r := s.identities.objects[issuer].value;
      var second := Alone(s, c, permitted, 2);
      assert second == Next(first, Advance(c, NoFault, permitted));
      KnownStep(first, c, issuer, m, permitted, r.spec);
      assert second == With(s, c, Call(issuer, m, Checking(r.spec, LastOf(s, issuer)), None), s.verified);
      CheckAlone(second, c, issuer, m, permitted, r.spec, LastOf(s, issuer));
      assert Alone(s, c, permitted, 3) == Next(second, Advance(c, NoFault, permitted));
      AuthenticIf(s, issuer, m);
    } else {
      assert !Authentic(s, issuer, m) by { UnknownIsNotAuthentic(s, issuer, m); }
      AloneAdds(s, c, permitted, 1, 2);
      AloneRests(first, c, permitted, 2);
    }
  }

  lemma UnknownIsNotAuthentic(s: State, issuer: Key, m: Message)
    requires StoresOk(s) && issuer !in s.identities.objects
    ensures !Authentic(s, issuer, m)
  {
  }

  lemma AuthenticIf(s: State, issuer: Key, m: Message)
    requires StoresOk(s) && issuer in s.identities.objects
    ensures var spec := s.identities.objects[issuer].value.spec;
            Authentic(s, issuer, m) <==>
              spec.publicKey.Some? && Verify(m, spec.publicKey.value, "hub", s.clock, LastOf(s, issuer), {}).Ok?
              && m.envelope.issuer == spec.spiffeID && !("route." <= m.envelope.kind)
  {
    hide Verify;
  }

  lemma ArrivedStep(s: State, c: CallId, issuer: Key, m: Message, permitted: bool)
    requires c in s.calls && s.calls[c] == Call(issuer, m, Arrived, None)
    ensures Next(s, Advance(c, NoFault, permitted)) ==
            With(s, c, Call(issuer, m, if issuer in s.identities.objects then Known(s.identities.objects[issuer].value.spec) else Done(Denied), None), s.verified)
  {
    hide Check, WriteRecord, WriteConfirmation;
  }

  lemma KnownStep(s: State, c: CallId, issuer: Key, m: Message, permitted: bool, spec: Identity)
    requires StoresOk(s) && c in s.calls && s.calls[c] == Call(issuer, m, Known(spec), None) && issuer in s.identities.objects
    ensures Next(s, Advance(c, NoFault, permitted)) == With(s, c, Call(issuer, m, Checking(spec, LastOf(s, issuer)), None), s.verified)
  {
    hide Check, WriteRecord, WriteConfirmation;
  }

  lemma CheckAlone(s: State, c: CallId, issuer: Key, m: Message, permitted: bool, spec: Identity, last: nat)
    requires c in s.calls && s.calls[c] == Call(issuer, m, Checking(spec, last), None)
    ensures var t := Next(s, Advance(c, NoFault, permitted));
            if spec.publicKey.Some? && Verify(m, spec.publicKey.value, "hub", s.clock, last, {}).Ok?
               && m.envelope.issuer == spec.spiffeID && !("route." <= m.envelope.kind)
            then t == With(s, c, Call(issuer, m, Dispatching, None), s.verified + {Verified(issuer, m)})
            else t == With(s, c, Call(issuer, m, Done(Denied), None), s.verified)
  {
    hide Verify, WriteRecord, WriteConfirmation;
  }

  /** The identity's record after the message: generation and nonce, nothing else. */
  function Recorded(r: Registration, m: Message): Registration {
    Registration(r.spec, ToInt64(m.envelope.generation), m.envelope.nonce)
  }

  lemma RecordAlone(s: State, c: CallId, issuer: Key, m: Message, effect: Option<Mark>, permitted: bool)
    requires StoresOk(s) && c in s.calls && s.calls[c] == Call(issuer, m, ControlPlane.Recording, effect)
    requires issuer in s.identities.objects && LastOf(s, issuer) < m.envelope.generation
    ensures Alone(s, c, permitted, 2) ==
            s.(identities := Rewrite(s.identities, issuer, Recorded(s.identities.objects[issuer].value, m)),
               acks := s.acks + [Ack(issuer, m, effect)],
               calls := s.calls[c := Call(issuer, m, Done(Accepted), effect)])
  {
    hide Verify, Check, WriteConfirmation;
    var first := Alone(s, c, permitted, 1);
    AloneOnce(s, c, permitted);
    assert first == With(s, c, Call(issuer, m, RecordWrite(s.identities.objects[issuer]), effect), s.verified);
    assert Alone(s, c, permitted, 2) == Next(first, Advance(c, NoFault, permitted));
  }

  /** The side on which `issuer` confirms peer `p`, the local one if it is on both. */
  function SideOf(p: Peer, issuer: string): Option<Side> {
    if issuer == p.localRef then Some(Local) else if issuer == p.remoteRef then Some(Remote) else None
  }

  /** The message confirms, for a peer that its issuer is a member of, the digest registered for the other member. */
  predicate Confirms(s: State, issuer: Key, m: Message) {
    && m.envelope.payload.Confirmation?
    && var peerRef, digest := m.envelope.payload.peerRef, m.envelope.payload.digest;
       && peerRef != "" && digest != "" && Key(issuer.tenant, peerRef) in s.peers.objects
       && var p := s.peers.objects[Key(issuer.tenant, peerRef)].value;
          && SideOf(p, issuer.id).Some?
          && var other := Key(issuer.tenant, if issuer.id == p.localRef then p.remoteRef else p.localRef);
             && other in s.identities.objects && s.identities.objects[other].value.spec.bundleDigest == digest
  }

  function Mark1(s: State, issuer: Key, m: Message): Mark
    requires Confirms(s, issuer, m)
  {
    var k := Key(issuer.tenant, m.envelope.payload.peerRef);
    Mark(k, s.peers.objects[k].uid, SideOf(s.peers.objects[k].value, issuer.id).value, issuer.id)
  }

  /** The peer with the flag of one side set and nothing else changed. */
  function Flagged(p: Peer, side: Side): Peer {
    Peer(p.localRef, p.remoteRef, p.suspended, p.generation,
         side == Local || p.localConfirmed, side == Remote || p.remoteConfirmed, p.state, p.observedGeneration)
  }

  function FlagSet(s: State, issuer: Key, m: Message): Db<Key, Peer>
    requires Confirms(s, issuer, m)
  {
    var mark := Mark1(s, issuer, m);
    Rewrite(s.peers, mark.peer, Flagged(s.peers.objects[mark.peer].value, mark.side))
  }

  /** The confirmation took effect, or was denied without one. */
  predicate ConfirmedBy(s: State, t: State, c: CallId, issuer: Key, m: Message) {
    if Confirms(s, issuer, m)
    then t == s.(peers := FlagSet(s, issuer, m), marks := s.marks + {Mark1(s, issuer, m)},
                 calls := s.calls[c := Call(issuer, m, ControlPlane.Recording, Some(Mark1(s, issuer, m)))])
    else t == With(s, c, Call(issuer, m, Done(Denied), None), s.verified)
  }

  lemma Carry(s: State, first: State, t: State, c: CallId, call: Call, issuer: Key, m: Message)
    requires first == With(s, c, call, s.verified) && ConfirmedBy(first, t, c, issuer, m)
    ensures ConfirmedBy(s, t, c, issuer, m)
  {
    assert first.calls[c := Call(issuer, m, Done(Denied), None)] == s.calls[c := Call(issuer, m, Done(Denied), None)];
    if Confirms(s, issuer, m) {
      var after := Call(issuer, m, ControlPlane.Recording, Some(Mark1(s, issuer, m)));
      assert first.calls[c := after] == s.calls[c := after];
    }
  }

  predicate Complete(m: Message) {
    m.envelope.payload.Confirmation? && m.envelope.payload.peerRef != "" && m.envelope.payload.digest != ""
  }

  lemma ConfirmationStep(s: State, c: CallId, issuer: Key, m: Message, permitted: bool)
    requires c in s.calls && s.calls[c] == Call(issuer, m, Dispatching, None) && m.envelope.kind == "peer.bundle.confirm"
    ensures Next(s, Advance(c, NoFault, permitted)) ==
            With(s, c, Call(issuer, m, if Complete(m) then Confirming else Done(Denied), None), s.verified)
    ensures !Complete(m) ==> !Confirms(s, issuer, m)
  {
    hide Verify, Check, WriteRecord, WriteConfirmation;
  }

  lemma ConfirmationAlone(s: State, c: CallId, issuer: Key, m: Message, permitted: bool)
    requires c in s.calls && s.calls[c] == Call(issuer, m, Dispatching, None) && m.envelope.kind == "peer.bundle.confirm"
    ensures ConfirmedBy(s, Alone(s, c, permitted, 4), c, issuer, m)
  {
    hide Next, Confirms, FlagSet;
    var first := Alone(s, c, permitted, 1);
    AloneOnce(s, c, permitted);
    ConfirmationStep(s, c, issuer, m, permitted);
    AloneAdds(s, c, permitted, 1, 3);
    if Complete(m) {
      PeerAlone(first, c, issuer, m, permitted);
      Carry(s, first, Alone(first, c, permitted, 3), c, first.calls[c], issuer, m);
    } else {
      AloneRests(first, c, permitted, 3);
    }
  }

  /** What the peer, as it is now, makes of the confirmation. */
  function PeerPc(s: State, issuer: Key, m: Message): Pc
    requires Complete(m)
  {
    var k := Key(issuer.tenant, m.envelope.payload.peerRef);
    if k in s.peers.objects && SideOf(s.peers.objects[k].value, issuer.id).Some?
    then DigestCheck(s.peers.objects[k], SideOf(s.peers.objects[k].value, issuer.id).value)
    else Done(Denied)
  }

  lemma PeerStep(s: State, c: CallId, issuer: Key, m: Message, permitted: bool)
    requires c in s.calls && s.calls[c] == Call(issuer, m, Confirming, None) && Complete(m)
    ensures Next(s, Advance(c, NoFault, permitted)) == With(s, c, Call(issuer, m, PeerPc(s, issuer, m), None), s.verified)
    ensures PeerPc(s, issuer, m).Done? ==> !Confirms(s, issuer, m)
  {
    hide Verify, Check, WriteRecord, WriteConfirmation;
  }

  lemma PeerAlone(s: State, c: CallId, issuer: Key, m: Message, permitted: bool)
    requires c in s.calls && s.calls[c] == Call(issuer, m, Confirming, None) && Complete(m)
    ensures ConfirmedBy(s, Alone(s, c, permitted, 3), c, issuer, m)
  {
    hide Next, Confirms, FlagSet;
    var first := Alone(s, c, permitted, 1);
    AloneOnce(s, c, permitted);
    PeerStep(s, c, issuer, m, permitted);
    AloneAdds(s, c, permitted, 1, 2);
    if PeerPc(s, issuer, m).Done? {
      AloneRests(first, c, permitted, 2);
    } else {
      DigestAlone(first, c, issuer, m, permitted);
      Carry(s, first, Alone(first, c, permitted, 2), c, first.calls[c], issuer, m);
    }
  }

  lemma DigestAlone(s: State, c: CallId, issuer: Key, m: Message, permitted: bool)
    requires Complete(m) && PeerPc(s, issuer, m).DigestCheck?
    requires c in s.calls && s.calls[c] == Call(issuer, m, PeerPc(s, issuer, m), None)
    ensures ConfirmedBy(s, Alone(s, c, permitted, 2), c, issuer, m)
  {
    hide Verify, Check, WriteRecord;
    var first := Alone(s, c, permitted, 1);
    AloneOnce(s, c, permitted);
    assert Alone(s, c, permitted, 2) == Next(first, Advance(c, NoFault, permitted));
    var pc := PeerPc(s, issuer, m);
    if Confirms(s, issuer, m) {
      assert first == With(s, c, Call(issuer, m, ConfirmWrite(pc.peer, pc.side), None), s.verified);
    } else {
      assert first == With(s, c, Call(issuer, m, Done(Denied), None), s.verified);
    }
  }

  /**
   A handler that no one interrupts accepts exactly the authentic messages whose effect is in order, for a confirmation
   that it confirms; it then records generation and nonce, acknowledges, and sets exactly the flag confirmed. It denies
   every other message and writes nothing.
   */
  lemma HandlerAlone(s: State, c: CallId, issuer: Key, m: Message, permitted: bool)
    requires StoresOk(s) && c in s.calls && s.calls[c] == Call(issuer, m, Arrived, None)
    ensures var t := Alone(s, c, permitted, 9);
            var confirmation := m.envelope.kind == "peer.bundle.confirm";
            if Authentic(s, issuer, m) && (if confirmation then Confirms(s, issuer, m) else permitted) then
              var effect := if confirmation then Some(Mark1(s, issuer, m)) else None;
              t == s.(identities := Rewrite(s.identities, issuer, Recorded(s.identities.objects[issuer].value, m)),
                      peers := if confirmation then FlagSet(s, issuer, m) else s.peers,
                      marks := if confirmation then s.marks + {Mark1(s, issuer, m)} else s.marks,
                      verified := s.verified + {Verified(issuer, m)},
                      acks := s.acks + [Ack(issuer, m, effect)],
                      calls := s.calls[c := Call(issuer, m, Done(Accepted), effect)])
            else
              t == With(s, c, Call(issuer, m, Done(Denied), None), if Authentic(s, issuer, m) then s.verified + {Verified(issuer, m)} else s.verified)
  {
    hide Next, Verify, FlagSet, Confirms;
    var verified := Alone(s, c, permitted, 3);
    VerificationAlone(s, c, issuer, m, permitted);
    AloneAdds(s, c, permitted, 3, 6);
    if !Authentic(s, issuer, m) {
      AloneRests(verified, c, permitted, 6);
    } else if m.envelope.kind == "peer.bundle.confirm" {
      AuthenticIsNew(s, issuer, m);
      ConfirmationAlone(verified, c, issuer, m, permitted);
      AloneAdds(verified, c, permitted, 4, 2);
      var flagged := Alone(verified, c, permitted, 4);
      SameConfirmation(s, verified, issuer, m);
      if Confirms(s, issuer, m) {
        FlagKeepsStores(s, issuer, m);
        RecordAlone(flagged, c, issuer, m, Some(Mark1(s, issuer, m)), permitted);
      } else {
        AloneRests(flagged, c, permitted, 2);
      }
    } else {
      AuthenticIsNew(s, issuer, m);
      OtherAlone(verified, c, issuer, m, permitted);
      AloneAdds(verified, c, permitted, 1, 5);
      var passed := Alone(verified, c, permitted, 1);
      if permitted {
        RecordAlone(passed, c, issuer, m, None, permitted);
        AloneAdds(passed, c, permitted, 2, 3);
        AloneRests(Alone(passed, c, permitted, 2), c, permitted, 3);
      } else {
        AloneRests(passed, c, permitted, 5);
      }
    }
  }

  lemma AuthenticIsNew(s: State, issuer: Key, m: Message)
    requires StoresOk(s) && Authentic(s, issuer, m)
    ensures LastOf(s, issuer) < m.envelope.generation
  {
    VerifiedIsSigned(m, s.identities.objects[issuer].value.spec.publicKey.value, "hub", s.clock, LastOf(s, issuer), {});
  }

  lemma SameConfirmation(s: State, t: State, issuer: Key, m: Message)
    requires t.peers == s.peers && t.identities == s.identities
    ensures Confirms(s, issuer, m) <==> Confirms(t, issuer, m)
    ensures Confirms(s, issuer, m) ==> Mark1(s, issuer, m) == Mark1(t, issuer, m) && FlagSet(s, issuer, m) == FlagSet(t, issuer, m)
  {
  }

  lemma FlagKeepsStores(s: State, issuer: Key, m: Message)
    requires StoresOk(s) && Confirms(s, issuer, m)
    ensures Valid(FlagSet(s, issuer, m))
  {
  }

  lemma OtherAlone(s: State, c: CallId, issuer: Key, m: Message, permitted: bool)
    requires c in s.calls && s.calls[c] == Call(issuer, m, Dispatching, None) && Other(m)
    ensures Alone(s, c, permitted, 1) ==
            With(s, c, Call(issuer, m, if permitted then ControlPlane.Recording else Done(Denied), None), s.verified)
  {
    hide Verify, Check, WriteRecord, WriteConfirmation;
    AloneOnce(s, c, permitted);
  }
}
